/** Running the compiled form of a statement does what the statement means. */
module CompiledMeaning {
  import opened Opcodes
  import opened Options
  import opened Code
  import opened Statements

  /** Code without branches and END. */
  predicate Plain(code: seq<Instr>) {
    forall i :: 0 <= i < |code| ==> code[i].op !in {END, GOTO, BIFF, SWITCH}
  }

  predicate WellFormed(s: Stmt) {
    match s
    case Simple(code) => Plain(code)
    case Then(first, second) => WellFormed(first) && WellFormed(second)
    case If(cond, body) => Plain(cond) && WellFormed(body)
    case IfElse(cond, yes, no) => Plain(cond) && WellFormed(yes) && WellFormed(no)
    case While(cond, body) => Plain(cond) && WellFormed(body)
    case Break => true
    case Next => true
    case Switch(value, arms) => Plain(value) && forall i :: 0 <= i < |arms| ==> WellFormed(arms[i].body)
  }

  // ---- Single instructions.

  /** Two facts about runs: to holds between the states of a run, in that order; far holds of a state that
      the run leaves at least so many times. The proofs use no more than that. */
  datatype Run = Run(to: (State, State) -> bool, far: (State, nat) -> bool)

  ghost predicate IsRun(run: Run, mem: seq<int>) {
    AsOne(&& (forall s :: run.to(s, s))
          && (forall s {:trigger Step(mem, s)} :: run.to(s, Step(mem, s)))
          && (forall s, t, u :: run.to(s, t) && run.to(t, u) ==> run.to(s, u))
          && (forall s: State :: s.Running? ==> run.far(s, 0))
          && (forall s: State, n: nat :: s.Running? && run.far(Step(mem, s), n) ==> run.far(s, n + 1))
          && (forall s, t, n: nat :: run.to(s, t) && run.far(t, n) ==> run.far(s, n)))
  }

  lemma Chain(run: Run, mem: seq<int>, s: State, t: State, u: State)
    requires IsRun(run, mem) && run.to(s, t) && run.to(t, u)
    ensures run.to(s, u)
  {
  }

  lemma One(run: Run, mem: seq<int>, s: State)
    requires IsRun(run, mem)
    ensures run.to(s, s) && run.to(s, Step(mem, s)) && (s.Running? ==> run.far(s, 0))
  {
  }

  lemma StepPlain(mem: seq<int>, i: Instr, b: int, d: Data)
    requires At(mem, b, i.Words()) && i.op !in {END, GOTO, BIFF, SWITCH}
    ensures Step(mem, Running(b, d))
         == match Act(i, d) case Fails => Failed case Gives(d') => Running(b + i.Length(), d')
  {
    var ws := i.Words();
    WordAt(mem, b, ws, 0);
    WordAt(mem, b, ws, 1);
    assert mem[b + 2..b + i.Length()] == mem[b..b + i.Length()][2..] == i.args;
  }

  lemma StepBranch(mem: seq<int>, op: int, b: int, target: int, d: Data)
    requires At(mem, b, Branch(op, b, target))
    ensures op == GOTO ==> Step(mem, Running(b, d)) == Running(target, d)
    ensures op == BIFF && d.ops == [] ==> Step(mem, Running(b, d)) == Failed
    ensures op == BIFF && d.ops != [] ==>
              Step(mem, Running(b, d))
                == Running(if d.ops[|d.ops| - 1] == 0 then target else b + 3, d.(ops := d.ops[..|d.ops| - 1]))
  {
    var ws := Branch(op, b, target);
    WordAt(mem, b, ws, 0);
    WordAt(mem, b, ws, 1);
    WordAt(mem, b, ws, 2);
  }

  lemma StepSwitch(mem: seq<int>, b: int, offset: int, d: Data)
    requires At(mem, b, [SWITCH, 3, offset])
    ensures Step(mem, Running(b, d))
         == if d.ops == [] then Failed
            else
              var t := SwitchTarget(mem, b, d.ops[|d.ops| - 1]);
              if t == -2 then Failed else Running(t, d.(ops := d.ops[..|d.ops| - 1]))
    ensures mem[b + 2] == offset
  {
    var ws := [SWITCH, 3, offset];
    WordAt(mem, b, ws, 0);
    WordAt(mem, b, ws, 1);
    WordAt(mem, b, ws, 2);
  }

  lemma {:induction false} RunSimple(run: Run, mem: seq<int>, code: seq<Instr>, b: int, d: Data)
    requires IsRun(run, mem)
    requires SimpleAt(mem, code, b) && Plain(code)
    ensures match Perform(code, d)
            case Fails => run.to(Running(b, d), Failed)
            case Gives(d') => run.to(Running(b, d), Running(b + SimpleSize(code), d'))
    decreases code
  {
    hide IsRun, Act, Step;
    One(run, mem, Running(b, d));
    if code != [] {
      StepPlain(mem, code[0], b, d);
      var a := Act(code[0], d);
      if a.Gives? {
        var next := Running(b + code[0].Length(), a.data);
        RunSimple(run, mem, code[1..], next.pc, a.data);
        match Perform(code[1..], a.data)
        case Fails => Chain(run, mem, Running(b, d), next, Failed);
        case Gives(d') => Chain(run, mem, Running(b, d), next, Running(b + SimpleSize(code), d'));
      }
    }
  }

  // ---- The jump table.

  function ArmLoc(arms: seq<Arm>, b: int, i: nat): int
    requires i <= |arms|
  {
    if i == 0 then b else ArmLoc(arms[1..], b + HeadSize(arms[0]) + Size(arms[0].body) + 3, i - 1)
  }

  /** Every arm is in its place. */
  lemma {:induction false} ArmInPlace(mem: seq<int>, arms: seq<Arm>, b: int, end: int, loop: int, exit: int, i: nat)
    requires ArmsAt(mem, arms, b, end, loop, exit) && i < |arms|
    ensures b <= ArmLoc(arms, b, i) && ArmAt(mem, arms[i], ArmLoc(arms, b, i), end, loop, exit)
    decreases arms
  {
    hide CodeAt, Size, HeadSize, ArmAt;
    if i > 0 {
      ArmInPlace(mem, arms[1..], b + HeadSize(arms[0]) + Size(arms[0].body) + 3, end, loop, exit, i - 1);
    }
  }

  ghost predicate HeadsAt(mem: seq<int>, arms: seq<Arm>, b: int) {
    AsOne(forall i :: 0 <= i < |arms| ==> b <= ArmLoc(arms, b, i) && At(mem, ArmLoc(arms, b, i), Head(arms[i])))
  }

  /** How many of the first p arms are CASEs. */
  function CasesBelow(arms: seq<Arm>, p: nat): nat
    requires p <= |arms|
  {
    if p == 0 then 0 else CasesBelow(arms, p - 1) + if arms[p - 1].Case? then 1 else 0
  }

  lemma {:induction false} CasesBelowTail(arms: seq<Arm>, p: nat)
    requires 1 <= p <= |arms|
    ensures CasesBelow(arms, p) == (if arms[0].Case? then 1 else 0) + CasesBelow(arms[1..], p - 1)
  {
    if p > 1 {
      CasesBelowTail(arms, p - 1);
    }
  }

  lemma {:induction false} CasesBelowAll(arms: seq<Arm>)
    ensures CasesBelow(arms, |arms|) == Cases(arms)
    decreases arms
  {
    if arms != [] {
      CasesBelowTail(arms, |arms|);
      CasesBelowAll(arms[1..]);
    }
  }

  lemma {:induction false} CaseLocOf(arms: seq<Arm>, b: int, i: nat)
    requires i < |arms| && arms[i].Case?
    ensures CasesBelow(arms, i) < Cases(arms)
    ensures CaseLocs(arms, b)[CasesBelow(arms, i)] == ArmLoc(arms, b, i)
    decreases arms
  {
    hide Size, HeadSize;
    var rest, b' := arms[1..], b + HeadSize(arms[0]) + Size(arms[0].body) + 3;
    assert CaseLocs(arms, b) == (if arms[0].Case? then [b] else []) + CaseLocs(rest, b');
    if i > 0 {
      CasesBelowTail(arms, i);
      CaseLocOf(rest, b', i - 1);
    }
  }

  lemma {:induction false} DefaultLocOf(arms: seq<Arm>, b: int)
    requires b >= 0
    ensures DefaultLoc(arms, b) == if FirstDefault(arms) < 0 then -1 else ArmLoc(arms, b, FirstDefault(arms))
    ensures FirstDefault(arms) >= 0 ==> DefaultLoc(arms, b) >= b
    decreases arms
  {
    if arms != [] && !arms[0].Default? {
      DefaultLocOf(arms[1..], b + HeadSize(arms[0]) + Size(arms[0].body) + 3);
    }
  }

  /** Looking at one slot of the table. */
  lemma FindStep(mem: seq<int>, m: int, slot: int, arm: Arm, at: int, v: int)
    requires 0 <= slot < |mem| && mem[slot] == at - m && 0 <= m < at
    requires arm.Case? && At(mem, at, Head(arm))
    ensures FindCase(mem, m, slot, v) == if CaseHas(arm, v) then at + HeadSize(arm) else FindCase(mem, m, slot + 1, v)
  {
    CaseValues(mem, arm, at, v);
  }

  /** A search that goes from slot to slot, one for every CASE counted down from top, finds the last CASE
      among the first p arms that has the value. */
  /** What a search finds that looks at the slot of arm i: this CASE, or whatever the next slot leads to. */
  predicate Looks(find: int -> int, arms: seq<Arm>, b: int, top: int, v: int, i: nat)
    requires i < |arms|
  {
    var slot := top - CasesBelow(arms, i);
    arms[i].Case? ==>
      find(slot) == if CaseHas(arms[i], v) then ArmLoc(arms, b, i) + HeadSize(arms[i]) else find(slot + 1)
  }

  lemma {:induction false} FindAmong(find: int -> int, arms: seq<Arm>, b: int, top: int, p: nat, v: int)
    requires p <= |arms| && find(top + 1) == -1
    requires forall i :: 0 <= i < |arms| ==> Looks(find, arms, b, top, v, i)
    ensures find(top + 1 - CasesBelow(arms, p))
         == var c := LastCase(arms, p, v);
            if c < 0 then -1 else ArmLoc(arms, b, c) + HeadSize(arms[c])
  {
    hide ArmLoc, HeadSize;
    if p > 0 {
      FindAmong(find, arms, b, top, p - 1, v);
      assert Looks(find, arms, b, top, v, p - 1);
    }
  }

  lemma CaseValues(mem: seq<int>, arm: Arm, at: int, v: int)
    requires arm.Case? && At(mem, at, Head(arm))
    ensures mem[at + 1] == HeadSize(arm)
    ensures HasValue(mem, at + 2, at + HeadSize(arm), v) <==> CaseHas(arm, v)
  {
    var ws := Head(arm);
    WordAt(mem, at, ws, 1);
    forall k | 0 <= k < |arm.values| ensures mem[at + 2 + k] == arm.values[k] {
      WordAt(mem, at, ws, 2 + k);
    }
    ValuesFrom(mem, arm.values, at + 2, 0, v);
  }

  lemma {:induction false} ValuesFrom(mem: seq<int>, values: seq<int>, b: int, k: nat, v: int)
    requires k <= |values| && 0 <= b && b + |values| <= |mem|
    requires forall i :: 0 <= i < |values| ==> mem[b + i] == values[i]
    ensures HasValue(mem, b + k, b + |values|, v) <==> v in values[k..]
    decreases |values| - k
  {
    if k < |values| {
      ValuesFrom(mem, values, b, k + 1, v);
      assert values[k..] == [values[k]] + values[k + 1..];
    }
  }

  /** Looking at the slot of CASE i in a table whose first slot is at top: it is this CASE, or the next slot. */
  ghost predicate SlotLeads(mem: seq<int>, arms: seq<Arm>, m: int, top: int, v: int, i: nat)
    requires i < |arms|
  {
    var slot := top - CasesBelow(arms, i);
    FindCase(mem, m, slot, v) == if CaseHas(arms[i], v) then ArmLoc(arms, m + 6, i) + HeadSize(arms[i])
                                 else FindCase(mem, m, slot + 1, v)
  }

  lemma SlotFound(mem: seq<int>, arms: seq<Arm>, m: int, table: int, v: int, i: nat)
    requires m >= 0 && HeadsAt(mem, arms, m + 6) && TableAt(mem, arms, m, table) && i < |arms| && arms[i].Case?
    ensures SlotLeads(mem, arms, m, table + Cases(arms), v, i)
  {
    var slot, at := table + Cases(arms) - CasesBelow(arms, i), ArmLoc(arms, m + 6, i);
    SlotOf(mem, arms, m, table, i);
    FindStep(mem, m, slot, arms[i], at, v);
  }

  lemma FindInTable(mem: seq<int>, arms: seq<Arm>, m: int, top: int, v: int)
    requires 0 <= top + 1 < |mem| && mem[top + 1] == 0
    requires forall i :: 0 <= i < |arms| && arms[i].Case? ==> SlotLeads(mem, arms, m, top, v, i)
    ensures FindCase(mem, m, top + 1 - Cases(arms), v)
         == var c := LastCase(arms, |arms|, v);
            if c < 0 then -1 else ArmLoc(arms, m + 6, c) + HeadSize(arms[c])
  {
    CasesBelowAll(arms);
    FindAmong(i => FindCase(mem, m, i, v), arms, m + 6, top, |arms|, v);
  }

  lemma FindThroughTable(mem: seq<int>, arms: seq<Arm>, m: int, table: int, v: int)
    requires m >= 0 && HeadsAt(mem, arms, m + 6) && TableAt(mem, arms, m, table)
    ensures FindCase(mem, m, table + 1, v)
         == var c := LastCase(arms, |arms|, v);
            if c < 0 then -1 else ArmLoc(arms, m + 6, c) + HeadSize(arms[c])
  {
    hide CodeAt, Size, FindCase, LastCase, ArmLoc, Head;
    forall i | 0 <= i < |arms| && arms[i].Case? ensures SlotLeads(mem, arms, m, table + Cases(arms), v, i) {
      SlotFound(mem, arms, m, table, v, i);
    }
    assert table + Cases(arms) + 1 - Cases(arms) == table + 1;
    FindInTable(mem, arms, m, table + Cases(arms), v);
  }

  /** Where a SWITCH lands, given what the search in its table finds. */
  lemma Landing(mem: seq<int>, m: int, table: int, v: int, found: int)
    requires 0 <= m && m + 2 < |mem| && mem[m + 2] == table - m && 0 <= table < |mem|
    requires FindCase(mem, m, table + 1, v) == found
    ensures SwitchTarget(mem, m, v)
         == if found != -1 then found else if mem[table] != 0 then m + mem[table] + 2 else m + 3
  {
  }

  /** The jump table leads to the chosen arm, or past it. */
  lemma SwitchGoesToChosen(mem: seq<int>, arms: seq<Arm>, m: int, table: int, v: int)
    requires m >= 0 && m + 2 < |mem| && mem[m + 2] == table - m
    requires HeadsAt(mem, arms, m + 6) && TableAt(mem, arms, m, table)
    ensures var i := Chosen(arms, v);
            SwitchTarget(mem, m, v) == if i < 0 then m + 3 else ArmLoc(arms, m + 6, i) + HeadSize(arms[i])
    ensures SwitchTarget(mem, m, v) >= 0
  {
    FindThroughTable(mem, arms, m, table, v);
    var c := LastCase(arms, |arms|, v);
    if c >= 0 {
      Landing(mem, m, table, v, ArmLoc(arms, m + 6, c) + HeadSize(arms[c]));
    } else {
      Landing(mem, m, table, v, -1);
      DefaultSlot(mem, arms, m, table);
    }
  }

  lemma DefaultSlot(mem: seq<int>, arms: seq<Arm>, m: int, table: int)
    requires TableAt(mem, arms, m, table) && m >= 0
    ensures FirstDefault(arms) < 0 ==> mem[table] == 0
    ensures FirstDefault(arms) >= 0 ==> mem[table] == ArmLoc(arms, m + 6, FirstDefault(arms)) - m > 0
  {
    DefaultLocOf(arms, m + 6);
  }

  lemma SlotOf(mem: seq<int>, arms: seq<Arm>, m: int, table: int, i: nat)
    requires TableAt(mem, arms, m, table) && i < |arms| && arms[i].Case?
    ensures var slot := table + Cases(arms) - CasesBelow(arms, i);
            0 <= slot < |mem| && mem[slot] == ArmLoc(arms, m + 6, i) - m
  {
    CaseLocOf(arms, m + 6, i);
    var locs := CaseLocs(arms, m + 6);
    assert mem[table + |locs| - CasesBelow(arms, i)] == locs[CasesBelow(arms, i)] - m;
  }

  // ---- Statements.

  /** What a condition leads to. */
  function AfterCondition(cond: seq<Instr>, b: int, target: int, d: Data): State {
    var (after, v) := PopValue(Perform(cond, d));
    if after == Fails then Failed
    else Running(if v == 0 then target else b + SimpleSize(cond) + 3, after.data)
  }

  lemma RunCondition(run: Run, mem: seq<int>, cond: seq<Instr>, b: int, target: int, d: Data)
    requires IsRun(run, mem)
    requires ConditionAt(mem, cond, b, target) && Plain(cond)
    ensures run.to(Running(b, d), AfterCondition(cond, b, target, d))
  {
    hide IsRun, Perform, Step, SimpleAt, Plain, At, SimpleSize, Branch;
    RunSimple(run, mem, cond, b, d);
    var m, p := b + SimpleSize(cond), Perform(cond, d);
    if p.Gives? {
      StepBranch(mem, BIFF, m, target, p.data);
      One(run, mem, Running(m, p.data));
      Chain(run, mem, Running(b, d), Running(m, p.data), Step(mem, Running(m, p.data)));
    }
  }

  /** A SWITCH with its value on the operand stack. */
  lemma RunSwitch(run: Run, mem: seq<int>, arms: seq<Arm>, m: int, table: int, d: Data) returns (to: State)
    requires IsRun(run, mem)
    requires SwitchAt(mem, arms, m, table) && HeadsAt(mem, arms, m + 6)
    ensures to == Step(mem, Running(m, d)) && run.to(Running(m, d), to)
    ensures d.ops == [] ==> to == Failed
    ensures d.ops != [] ==>
              var i := Chosen(arms, d.ops[|d.ops| - 1]);
              to == Running(if i < 0 then m + 3 else ArmLoc(arms, m + 6, i) + HeadSize(arms[i]),
                            d.(ops := d.ops[..|d.ops| - 1]))
  {
    hide IsRun, FindCase, ArmLoc, HeadSize, Chosen, HeadsAt;
    StepSwitch(mem, m, table - m, d);
    to := Step(mem, Running(m, d));
    One(run, mem, Running(m, d));
    if d.ops != [] {
      SwitchGoesToChosen(mem, arms, m, table, d.ops[|d.ops| - 1]);
    }
  }

  /** Running the code at b, which ends at e, has the outcome o. */
  ghost predicate Achieves(run: Run, b: int, d: Data, o: Outcome, n: nat, e: int, loop: int, exit: int) {
    AsOne(match o
          case Done(d') => run.to(Running(b, d), Running(e, d'))
          case Broke(d') => run.to(Running(b, d), Running(exit, d'))
          case Skipped(d') => run.to(Running(b, d), Running(loop, d'))
          case Error => run.to(Running(b, d), Failed)
          case Timeout => run.far(Running(b, d), n))
  }

  /** The code of a well-formed statement lies at b. */
  predicate Compiled(mem: seq<int>, s: Stmt, b: int, loop: int, exit: int) {
    AsOne(CodeAt(mem, s, b, loop, exit) && WellFormed(s) && b >= 0)
  }

  /** What runs first does not change what is achieved then. */
  lemma AchievesAfter(run: Run, mem: seq<int>, s: State, b: int, d: Data, o: Outcome, n: nat, e: int, loop: int,
                      exit: int)
    requires IsRun(run, mem)
    requires s.Running? && run.to(s, Running(b, d)) && Achieves(run, b, d, o, n, e, loop, exit)
    ensures Achieves(run, s.pc, s.data, o, n, e, loop, exit)
  {
    match o
    case Done(d') => Chain(run, mem, s, Running(b, d), Running(e, d'));
    case Broke(d') => Chain(run, mem, s, Running(b, d), Running(exit, d'));
    case Skipped(d') => Chain(run, mem, s, Running(b, d), Running(loop, d'));
    case Error => Chain(run, mem, s, Running(b, d), Failed);
    case Timeout =>
  }

  /** A GOTO at the end of a piece of code moves its end. */
  lemma AchievesGoto(run: Run, mem: seq<int>, b: int, d: Data, o: Outcome, n: nat, e: int, target: int, loop: int,
                     exit: int)
    requires IsRun(run, mem)
    requires Achieves(run, b, d, o, n, e, loop, exit) && GotoAt(mem, e, target)
    ensures Achieves(run, b, d, o, n, target, loop, exit)
  {
    hide IsRun;
    if o.Done? {
      RunGoto(run, mem, e, target, o.data);
      Chain(run, mem, Running(b, d), Running(e, o.data), Running(target, o.data));
    }
  }

  lemma RunGoto(run: Run, mem: seq<int>, b: int, target: int, d: Data)
    requires IsRun(run, mem)
    requires GotoAt(mem, b, target)
    ensures run.to(Running(b, d), Running(target, d))
  {
    hide IsRun;
    StepBranch(mem, GOTO, b, target, d);
    One(run, mem, Running(b, d));
  }

  /** A statement that breaks off the loop contains a `break`. */
  lemma {:induction false} BreakIsSomewhere(s: Stmt, b: int, d: Data, fuel: nat)
    requires Exec(s, d, fuel).Broke? && b >= 0
    ensures FirstBreak(s, b) >= 0
    decreases fuel, s
  {
    hide Perform, PopValue, Chosen, SimpleSize;
    match s
    case Then(first, second) =>
      var o := Exec(first, d, fuel);
      if o.Broke? { BreakIsSomewhere(first, b, d, fuel); }
      else { BreakIsSomewhere(second, b + Size(first), o.data, fuel); }
    case If(cond, body) =>
      BreakIsSomewhere(body, b + SimpleSize(cond) + 3, PopValue(Perform(cond, d)).0.data, fuel);
    case IfElse(cond, yes, no) =>
      var (m, v) := PopValue(Perform(cond, d));
      if v == 0 { BreakIsSomewhere(no, b + SimpleSize(cond) + 3 + Size(yes) + 3, m.data, fuel); }
      else { BreakIsSomewhere(yes, b + SimpleSize(cond) + 3, m.data, fuel); }
    case While(cond, body) => LoopIsNotBroken(cond, body, d, fuel);
    case Switch(value, arms) =>
      var (m, v) := PopValue(Perform(value, d));
      var i, first := Chosen(arms, v), b + SimpleSize(value) + 6;
      ArmLocRises(arms, first, i);
      BreakIsSomewhere(arms[i].body, ArmLoc(arms, first, i) + HeadSize(arms[i]), m.data, fuel);
      BreakInArms(arms, first, i);
    case Break =>
    case _ =>
  }

  lemma {:induction false} LoopIsNotBroken(cond: seq<Instr>, body: Stmt, d: Data, fuel: nat)
    ensures !Exec(While(cond, body), d, fuel).Broke? && !Exec(While(cond, body), d, fuel).Skipped?
    decreases fuel
  {
    var (m, v) := PopValue(Perform(cond, d));
    if m.Gives? && v != 0 {
      var o := Exec(body, m.data, fuel);
      if (o.Done? || o.Skipped?) && fuel > 0 {
        LoopIsNotBroken(cond, body, o.data, fuel - 1);
      }
    }
  }

  lemma {:induction false} ArmLocRises(arms: seq<Arm>, b: int, i: nat)
    requires i <= |arms|
    ensures b <= ArmLoc(arms, b, i)
  {
    if i > 0 {
      ArmLocRises(arms[1..], b + HeadSize(arms[0]) + Size(arms[0].body) + 3, i - 1);
    }
  }

  lemma {:induction false} BreakInArms(arms: seq<Arm>, b: int, i: nat)
    requires i < |arms| && b >= 0
    requires FirstBreak(arms[i].body, ArmLoc(arms, b, i) + HeadSize(arms[i])) >= 0
    ensures FirstBreakIn(arms, b) >= 0
  {
    if i > 0 {
      BreakInArms(arms[1..], b + HeadSize(arms[0]) + Size(arms[0].body) + 3, i - 1);
    }
  }

  lemma LoopParts(mem: seq<int>, s: Stmt, b: int, loop: int, exit: int) returns (start: int, k: int, x: int)
    requires s.While? && Compiled(mem, s, b, loop, exit)
    ensures Compiled(mem, s.body, start, b, x)
    ensures start == b + SimpleSize(s.cond) + 3 && k == start + Size(s.body) && x == FirstBreak(s.body, start)
    ensures b + Size(s) == k + 3 && b >= 0
    ensures ConditionAt(mem, s.cond, b, k + 3) && Plain(s.cond) && GotoAt(mem, k, b)
            && (x >= 0 ==> GotoAt(mem, x, k + 3))
  {
    start := b + SimpleSize(s.cond) + 3;
    k := start + Size(s.body);
    x := FirstBreak(s.body, start);
  }

  /** After a turn that has led from the start of the body back to b, the outcome of the other turns is
      achieved, and one more time the run has gone on. */
  lemma AnotherTurn(run: Run, mem: seq<int>, cond: seq<Instr>, b: int, start: int, k: int, d: Data, d': Data, d'': Data,
                    o: Outcome, n: nat, loop: int, exit: int)
    requires IsRun(run, mem) && ConditionAt(mem, cond, b, k + 3) && Plain(cond) && start == b + SimpleSize(cond) + 3
    requires PopValue(Perform(cond, d)).0 == Gives(d') && PopValue(Perform(cond, d)).1 != 0
    requires run.to(Running(b, d), Running(b, d'')) && run.to(Running(start, d'), Running(b, d''))
    requires n > 0 && Achieves(run, b, d'', o, n - 1, k + 3, loop, exit)
    ensures Achieves(run, b, d, o, n, k + 3, loop, exit)
  {
    hide IsRun, CodeAt, SimpleAt, At, Perform, PopValue;
    if o.Timeout? {
      ConditionIsFar(run, mem, cond, b, k + 3, d, Running(b, d''), n - 1);
    } else {
      AchievesAfter(run, mem, Running(b, d), b, d'', o, n, k + 3, loop, exit);
    }
  }

  /** A true condition takes a step before what follows. */
  lemma ConditionIsFar(run: Run, mem: seq<int>, cond: seq<Instr>, b: int, target: int, d: Data, t: State, n: nat)
    requires IsRun(run, mem) && ConditionAt(mem, cond, b, target) && Plain(cond)
    requires var (m, v) := PopValue(Perform(cond, d));
             m.Gives? && v != 0 && run.to(Running(b + SimpleSize(cond) + 3, m.data), t)
    requires run.far(t, n)
    ensures run.far(Running(b, d), n + 1)
  {
    RunSimple(run, mem, cond, b, d);
    var (m, _) := PopValue(Perform(cond, d));
    var k, p := b + SimpleSize(cond), Perform(cond, d).data;
    StepBranch(mem, BIFF, k, target, p);
    assert Step(mem, Running(k, p)) == Running(k + 3, m.data);
    assert run.far(Running(k + 3, m.data), n);
    assert run.far(Running(k, p), n + 1);
  }

  lemma ArmsInPlace(mem: seq<int>, arms: seq<Arm>, b: int, end: int, loop: int, exit: int)
    requires ArmsAt(mem, arms, b, end, loop, exit)
    ensures HeadsAt(mem, arms, b)
  {
    forall i | 0 <= i < |arms| ensures b <= ArmLoc(arms, b, i) && At(mem, ArmLoc(arms, b, i), Head(arms[i])) {
      ArmInPlace(mem, arms, b, end, loop, exit, i);
    }
  }

  /** Some code runs, and the GOTO at its end moves that end. */
  lemma RunArm(run: Run, mem: seq<int>, at: int, k: int, e: int, s: State, after: Data, o: Outcome, n: nat, loop: int,
               exit: int)
    requires IsRun(run, mem)
    requires s.Running? && run.to(s, Running(at, after))
    requires GotoAt(mem, k, e) && Achieves(run, at, after, o, n, k, loop, exit)
    ensures Achieves(run, s.pc, s.data, o, n, e, loop, exit)
  {
    hide IsRun;
    AchievesGoto(run, mem, at, after, o, n, k, e, loop, exit);
    AchievesAfter(run, mem, s, at, after, o, n, e, loop, exit);
  }

  /** Wherever a statement's code lies, running it does what the statement means: it reaches its end, the
      first `break`, or the start of the loop with the same data, or it fails as well. */
  lemma {:induction false} Meaning(run: Run, mem: seq<int>, s: Stmt, b: int, loop: int, exit: int, d: Data, fuel: nat)
    requires IsRun(run, mem)
    requires Compiled(mem, s, b, loop, exit)
    ensures Achieves(run, b, d, Exec(s, d, fuel), fuel, b + Size(s), loop, exit)
    decreases fuel, s, 1
  {
    hide IsRun;
    match s
    case Simple(code) => RunSimple(run, mem, code, b, d);
    case Then(_, _) => MeaningThen(run, mem, s, b, loop, exit, d, fuel);
    case If(_, _) => MeaningIf(run, mem, s, b, loop, exit, d, fuel);
    case IfElse(_, _, _) => MeaningIfElse(run, mem, s, b, loop, exit, d, fuel);
    case While(_, _) => MeaningWhile(run, mem, s, b, loop, exit, d, fuel);
    case Break =>
      One(run, mem, Running(b, d));
      if b != exit {
        BreakBranches(mem, b, exit);
        RunGoto(run, mem, b, exit, d);
      }
    case Next => RunGoto(run, mem, b, loop, d);
    case Switch(_, _) => MeaningSwitch(run, mem, s, b, loop, exit, d, fuel);
  }

  lemma {:induction false} MeaningThen(run: Run, mem: seq<int>, s: Stmt, b: int, loop: int, exit: int, d: Data,
                                       fuel: nat)
    requires IsRun(run, mem)
    requires s.Then? && Compiled(mem, s, b, loop, exit)
    ensures Achieves(run, b, d, Exec(s, d, fuel), fuel, b + Size(s), loop, exit)
    decreases fuel, s, 0
  {
    hide IsRun;
    Meaning(run, mem, s.first, b, loop, exit, d, fuel);
    var o := Exec(s.first, d, fuel);
    if o.Done? {
      Meaning(run, mem, s.second, b + Size(s.first), loop, exit, o.data, fuel);
      AchievesAfter(run, mem, Running(b, d), b + Size(s.first), o.data, Exec(s.second, o.data, fuel), fuel,
                    b + Size(s), loop, exit);
    }
  }

  lemma {:induction false} MeaningIf(run: Run, mem: seq<int>, s: Stmt, b: int, loop: int, exit: int, d: Data, fuel: nat)
    requires IsRun(run, mem)
    requires s.If? && Compiled(mem, s, b, loop, exit)
    ensures Achieves(run, b, d, Exec(s, d, fuel), fuel, b + Size(s), loop, exit)
    decreases fuel, s, 0
  {
    hide IsRun;
    var start := b + SimpleSize(s.cond) + 3;
    var (m, v) := PopValue(Perform(s.cond, d));
    RunCondition(run, mem, s.cond, b, b + Size(s), d);
    if m.Gives? && v != 0 {
      Meaning(run, mem, s.body, start, loop, exit, m.data, fuel);
      AchievesAfter(run, mem, Running(b, d), start, m.data, Exec(s.body, m.data, fuel), fuel, b + Size(s), loop, exit);
    }
  }

  lemma IfElseParts(mem: seq<int>, s: Stmt, b: int, loop: int, exit: int) returns (start: int, k: int)
    requires s.IfElse? && Compiled(mem, s, b, loop, exit)
    ensures start == b + SimpleSize(s.cond) + 3 && k == start + Size(s.yes) && b + Size(s) == k + 3 + Size(s.no)
    ensures ConditionAt(mem, s.cond, b, k + 3) && Plain(s.cond) && GotoAt(mem, k, b + Size(s))
    ensures Compiled(mem, s.yes, start, loop, exit) && Compiled(mem, s.no, k + 3, loop, exit)
  {
    start := b + SimpleSize(s.cond) + 3;
    k := start + Size(s.yes);
  }

  lemma {:induction false} MeaningIfElse(run: Run, mem: seq<int>, s: Stmt, b: int, loop: int, exit: int, d: Data,
                                         fuel: nat)
    requires IsRun(run, mem)
    requires s.IfElse? && Compiled(mem, s, b, loop, exit)
    ensures Achieves(run, b, d, Exec(s, d, fuel), fuel, b + Size(s), loop, exit)
    decreases fuel, s, 0
  {
    hide IsRun, CodeAt, SimpleAt, At, WellFormed, Size, Perform, PopValue;
    var start, k := IfElseParts(mem, s, b, loop, exit);
    var (m, v) := PopValue(Perform(s.cond, d));
    RunCondition(run, mem, s.cond, b, k + 3, d);
    if m.Gives? && v != 0 {
      Meaning(run, mem, s.yes, start, loop, exit, m.data, fuel);
      RunArm(run, mem, start, k, b + Size(s), Running(b, d), m.data, Exec(s.yes, m.data, fuel), fuel, loop, exit);
    } else if m.Gives? {
      Meaning(run, mem, s.no, k + 3, loop, exit, m.data, fuel);
      AchievesAfter(run, mem, Running(b, d), k + 3, m.data, Exec(s.no, m.data, fuel), fuel, b + Size(s), loop, exit);
    }
  }

  lemma {:induction false} MeaningWhile(run: Run, mem: seq<int>, s: Stmt, b: int, loop: int, exit: int, d: Data,
                                        fuel: nat)
    requires IsRun(run, mem)
    requires s.While? && Compiled(mem, s, b, loop, exit)
    ensures Achieves(run, b, d, Exec(s, d, fuel), fuel, b + Size(s), loop, exit)
    decreases fuel, s, 0
  {
    hide IsRun, CodeAt, SimpleAt, At, WellFormed, FirstBreak, Perform, PopValue, Size, SimpleSize, GotoAt;
    hide ConditionAt, Plain;
    var start, k, x := LoopParts(mem, s, b, loop, exit);
    RunCondition(run, mem, s.cond, b, k + 3, d);
    var (m, v) := PopValue(Perform(s.cond, d));
    One(run, mem, Running(b, d));
    if m.Gives? && v != 0 {
      Meaning(run, mem, s.body, start, b, x, m.data, fuel);
      var o := Exec(s.body, m.data, fuel);
      AchievesGoto(run, mem, start, m.data, o, fuel, k, b, b, x);
      AchievesAfter(run, mem, Running(b, d), start, m.data, o, fuel, b, b, x);
      if o.Broke? {
        BreakIsSomewhere(s.body, start, m.data, fuel);
        RunGoto(run, mem, x, k + 3, o.data);
        Chain(run, mem, Running(b, d), Running(x, o.data), Running(k + 3, o.data));
      } else if (o.Done? || o.Skipped?) && fuel > 0 {
        Meaning(run, mem, s, b, loop, exit, o.data, fuel - 1);
        AnotherTurn(run, mem, s.cond, b, start, k, d, m.data, o.data, Exec(s, o.data, fuel - 1), fuel, loop, exit);
      }
    }
  }

  /** A SWITCH instruction with its table. */
  predicate SwitchAt(mem: seq<int>, arms: seq<Arm>, m: int, table: int) {
    AsOne(m >= 0 && At(mem, m, [SWITCH, 3, table - m]) && TableAt(mem, arms, m, table))
  }

  lemma SwitchParts(mem: seq<int>, s: Stmt, b: int, loop: int, exit: int) returns (m: int, table: int)
    requires s.Switch? && Compiled(mem, s, b, loop, exit)
    ensures m == b + SimpleSize(s.value) && m >= 0
    ensures SimpleAt(mem, s.value, b) && Plain(s.value)
    ensures SwitchAt(mem, s.arms, m, table) && GotoAt(mem, m + 3, b + Size(s))
    ensures ArmsAt(mem, s.arms, m + 6, b + Size(s), loop, exit)
  {
    hide SimpleAt, Size, ArmsSize, TableAt, At;
    m := b + SimpleSize(s.value);
    table := m + 6 + ArmsSize(s.arms);
  }

  lemma {:induction false} MeaningSwitch(run: Run, mem: seq<int>, s: Stmt, b: int, loop: int, exit: int, d: Data,
                                         fuel: nat)
    requires IsRun(run, mem)
    requires s.Switch? && Compiled(mem, s, b, loop, exit)
    ensures Achieves(run, b, d, Exec(s, d, fuel), fuel, b + Size(s), loop, exit)
    decreases fuel, s, 0
  {
    hide IsRun, CodeAt, ArmsAt, At, SimpleAt, Size, TableAt, WellFormed, Chosen, SimpleSize;
    var m, table := SwitchParts(mem, s, b, loop, exit);
    RunSimple(run, mem, s.value, b, d);
    var p := Perform(s.value, d);
    if p.Gives? {
      MeaningChoice(run, mem, s, m, table, b + Size(s), loop, exit, Running(b, d), p.data, fuel);
    }
  }

  /** From the SWITCH instruction on. */
  lemma {:induction false} MeaningChoice(run: Run, mem: seq<int>, s: Stmt, m: int, table: int, e: int, loop: int,
                                         exit: int, from: State, d: Data, fuel: nat)
    requires IsRun(run, mem)
    requires s.Switch? && WellFormed(s) && SwitchAt(mem, s.arms, m, table) && GotoAt(mem, m + 3, e)
    requires ArmsAt(mem, s.arms, m + 6, e, loop, exit)
    requires from.Running? && run.to(from, Running(m, d))
    ensures Achieves(run, from.pc, from.data, Choice(s.arms, d, fuel), fuel, e, loop, exit)
    decreases fuel, s, 0, 0
  {
    hide IsRun;
    ArmsInPlace(mem, s.arms, m + 6, e, loop, exit);
    var to := RunSwitch(run, mem, s.arms, m, table, d);
    Chain(run, mem, from, Running(m, d), to);
    if d.ops != [] {
      var i := Chosen(s.arms, d.ops[|d.ops| - 1]);
      if i >= 0 {
        assert s.arms[i].body < s.arms[i];
        MeaningArm(run, mem, s.arms, i, m + 6, e, loop, exit, from, to, fuel);
      } else {
        RunGoto(run, mem, m + 3, e, to.data);
        Chain(run, mem, from, to, Running(e, to.data));
      }
    }
  }

  /** The outcome of a SWITCH whose value is on the operand stack. */
  function Choice(arms: seq<Arm>, d: Data, fuel: nat): Outcome {
    var (m, v) := PopValue(Gives(d));
    if m == Fails then Error
    else
      var i := Chosen(arms, v);
      if i < 0 then Done(m.data) else Exec(arms[i].body, m.data, fuel)
  }

  lemma ArmParts(mem: seq<int>, arms: seq<Arm>, i: nat, b: int, e: int, loop: int, exit: int)
    returns (start: int, body: Stmt)
    requires ArmsAt(mem, arms, b, e, loop, exit) && i < |arms| && WellFormed(arms[i].body) && b >= 0
    ensures start == ArmLoc(arms, b, i) + HeadSize(arms[i]) && body == arms[i].body
    ensures Compiled(mem, body, start, loop, exit) && GotoAt(mem, start + Size(body), e)
  {
    hide CodeAt, Size, HeadSize, WellFormed, ArmsAt, ArmAt, ArmLoc, Compiled, GotoAt;
    ArmInPlace(mem, arms, b, e, loop, exit, i);
    start := ArmLoc(arms, b, i) + HeadSize(arms[i]);
    body := arms[i].body;
    ArmBody(mem, arms[i], ArmLoc(arms, b, i), e, loop, exit);
  }

  lemma ArmBody(mem: seq<int>, arm: Arm, b: int, e: int, loop: int, exit: int)
    requires ArmAt(mem, arm, b, e, loop, exit) && WellFormed(arm.body) && b >= 0
    ensures var start := b + HeadSize(arm);
            Compiled(mem, arm.body, start, loop, exit) && GotoAt(mem, start + Size(arm.body), e)
  {
    hide CodeAt, Size, WellFormed, GotoAt;
  }

  lemma {:induction false} MeaningArm(run: Run, mem: seq<int>, arms: seq<Arm>, i: nat, b: int, e: int, loop: int,
                                      exit: int, s: State, to: State, fuel: nat)
    requires IsRun(run, mem)
    requires ArmsAt(mem, arms, b, e, loop, exit) && i < |arms| && WellFormed(arms[i].body) && b >= 0
    requires s.Running? && to.Running? && to.pc == ArmLoc(arms, b, i) + HeadSize(arms[i]) && run.to(s, to)
    ensures Achieves(run, s.pc, s.data, Exec(arms[i].body, to.data, fuel), fuel, e, loop, exit)
    decreases fuel, arms, 0
  {
    hide IsRun, CodeAt, Size, HeadSize, ArmAt, ArmsAt, Exec, ArmLoc, WellFormed, Achieves, At;
    var start, body := ArmParts(mem, arms, i, b, e, loop, exit);
    assert body < arms[i];
    Meaning(run, mem, body, start, loop, exit, to.data, fuel);
    RunArm(run, mem, start, start + Size(body), e, s, to.data, Exec(body, to.data, fuel), fuel, loop, exit);
  }

  lemma BreakBranches(mem: seq<int>, b: int, exit: int)
    requires BreakAt(mem, b, exit) && b != exit
    ensures GotoAt(mem, b, exit)
  {
    var ws := [GOTO, 3];
    WordAt(mem, b, ws, 0);
    WordAt(mem, b, ws, 1);
    assert mem[b..b + 3] == [mem[b], mem[b + 1], mem[b + 2]];
  }

  // ---- Whole programs.

  /** A `break` or `next` that belongs to no loop of the statement. */
  predicate NeedsLoop(s: Stmt) {
    match s
    case Simple(_) => false
    case Then(first, second) => NeedsLoop(first) || NeedsLoop(second)
    case If(_, body) => NeedsLoop(body)
    case IfElse(_, yes, no) => NeedsLoop(yes) || NeedsLoop(no)
    case While(_, _) => false
    case Break => true
    case Next => true
    case Switch(_, arms) => exists i :: 0 <= i < |arms| && NeedsLoop(arms[i].body)
  }

  lemma {:induction false} NothingToLeave(s: Stmt, d: Data, fuel: nat)
    requires !NeedsLoop(s)
    ensures !Exec(s, d, fuel).Broke? && !Exec(s, d, fuel).Skipped?
    decreases s
  {
    match s
    case Simple(_) =>
    case Then(first, second) =>
      NothingToLeave(first, d, fuel);
      var o := Exec(first, d, fuel);
      if o.Done? { NothingToLeave(second, o.data, fuel); }
    case If(cond, body) =>
      var (m, _) := PopValue(Perform(cond, d));
      if m.Gives? { NothingToLeave(body, m.data, fuel); }
    case IfElse(cond, yes, no) =>
      var (m, _) := PopValue(Perform(cond, d));
      if m.Gives? { NothingToLeave(yes, m.data, fuel); NothingToLeave(no, m.data, fuel); }
    case While(cond, body) => LoopIsNotBroken(cond, body, d, fuel);
    case Switch(value, arms) =>
      var (m, v) := PopValue(Perform(value, d));
      var i := Chosen(arms, v);
      if m.Gives? && i >= 0 {
        assert arms[i].body < arms[i];
        NothingToLeave(arms[i].body, m.data, fuel);
      }
  }

  ghost function RunOf(mem: seq<int>): Run {
    Run((s, t) => Leads(mem, s, t), (s, n: nat) => Steps(mem, s, n).Running?)
  }

  /** The relation to reach a state is what the proofs above ask for. */
  lemma TheRun(mem: seq<int>) returns (run: Run)
    ensures IsRun(run, mem) && run == RunOf(mem)
  {
    run := RunOf(mem);
    forall s: State ensures run.to(s, s) && run.to(s, Step(mem, s)) {
      LeadsStep(mem, s);
    }
    forall s, t, u | run.to(s, t) && run.to(t, u) ensures run.to(s, u) {
      LeadsTo(mem, s, t, u);
    }
    forall s: State, n: nat | s.Running? && run.far(Step(mem, s), n) ensures run.far(s, n + 1) {
    }
    forall s, t, n: nat | run.to(s, t) && run.far(t, n) ensures run.far(s, n) {
      StillRunning(mem, s, t, n);
    }
  }

  lemma StillRunning(mem: seq<int>, s: State, t: State, n: nat)
    requires Leads(mem, s, t) && Steps(mem, t, n).Running?
    ensures Steps(mem, s, n).Running?
  {
    var m: nat :| Steps(mem, s, m) == t;
    StepsAdd(mem, s, m, n);
    StepsAdd(mem, s, n, m);
    if !Steps(mem, s, n).Running? {
      EndIsFinal(mem, Steps(mem, s, n), m);
    }
  }

  /** The code of a whole program: a statement and END. */
  predicate ProgramAt(mem: seq<int>, s: Stmt, b: int) {
    AsOne(Compiled(mem, s, b, -1, -1) && !NeedsLoop(s) && At(mem, b + Size(s), [END, 2]))
  }

  /** A run from s has the outcome o, or it takes more than n steps. */
  ghost predicate EndsLike(mem: seq<int>, s: State, o: Outcome, n: nat) {
    && (o.Done? ==> Leads(mem, s, Halted(o.data)))
    && (o.Error? ==> Leads(mem, s, Failed))
    && (o.Timeout? ==> Steps(mem, s, n).Running?)
    && !o.Broke? && !o.Skipped?
  }

  /** Within a bound on the turns of loops, the code of a program ends as the program does, or goes on for
      more steps than that. */
  lemma ProgramWithin(mem: seq<int>, s: Stmt, b: int, d: Data, fuel: nat)
    requires ProgramAt(mem, s, b)
    ensures EndsLike(mem, Running(b, d), Exec(s, d, fuel), fuel)
  {
    hide CodeAt, WellFormed, Exec, NeedsLoop, Size, Leads, Steps;
    var run := TheRun(mem);
    NothingToLeave(s, d, fuel);
    Meaning(run, mem, s, b, -1, -1, d, fuel);
    var o := Exec(s, d, fuel);
    if o.Done? {
      StopsAtEnd(mem, b + Size(s), o.data);
      LeadsStep(mem, Running(b + Size(s), o.data));
      LeadsTo(mem, Running(b, d), Running(b + Size(s), o.data), Halted(o.data));
    }
  }

  lemma StopsAtEnd(mem: seq<int>, b: int, d: Data)
    requires At(mem, b, [END, 2])
    ensures Step(mem, Running(b, d)) == Halted(d)
  {
    WordAt(mem, b, [END, 2], 0);
    WordAt(mem, b, [END, 2], 1);
  }

  ghost predicate Finishes(s: Stmt, d: Data, o: Outcome) {
    exists fuel: nat :: Exec(s, d, fuel) == o
  }

  /** The code of a program halts exactly with the data with which the program finishes; it fails exactly if
      the program fails; and otherwise both go on for ever. */
  lemma ProgramIsRight(mem: seq<int>, s: Stmt, b: int, d: Data, d': Data)
    requires ProgramAt(mem, s, b)
    ensures Leads(mem, Running(b, d), Halted(d')) <==> Finishes(s, d, Done(d'))
    ensures Leads(mem, Running(b, d), Failed) <==> Finishes(s, d, Error)
  {
    hide ProgramAt, Exec;
    if Finishes(s, d, Done(d')) {
      var fuel: nat :| Exec(s, d, fuel) == Done(d');
      ProgramWithin(mem, s, b, d, fuel);
    }
    if Finishes(s, d, Error) {
      var fuel: nat :| Exec(s, d, fuel) == Error;
      ProgramWithin(mem, s, b, d, fuel);
    }
    if Leads(mem, Running(b, d), Halted(d')) {
      EndIsExecuted(mem, s, b, d, Halted(d'));
    }
    if Leads(mem, Running(b, d), Failed) {
      EndIsExecuted(mem, s, b, d, Failed);
    }
  }

  lemma EndIsExecuted(mem: seq<int>, s: Stmt, b: int, d: Data, end: State)
    requires ProgramAt(mem, s, b)
    requires !end.Running? && Leads(mem, Running(b, d), end)
    ensures Finishes(s, d, if end.Halted? then Done(end.data) else Error)
  {
    hide ProgramAt, Exec;
    var n: nat :| Steps(mem, Running(b, d), n) == end;
    ProgramWithin(mem, s, b, d, n);
    match Exec(s, d, n)
    case Done(d') => EndIsUnique(mem, Running(b, d), end, Halted(d'));
    case Error => EndIsUnique(mem, Running(b, d), end, Failed);
    case Timeout =>
  }
}
