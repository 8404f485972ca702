/** Structured statements, what they mean, and what it is to have them compiled. */
module Statements {
  import opened Opcodes
  import opened Options
  import opened Code

  datatype Stmt =
    | Simple(code: seq<Instr>)
    | Then(first: Stmt, second: Stmt)
    | If(cond: seq<Instr>, body: Stmt)
    | IfElse(cond: seq<Instr>, yes: Stmt, no: Stmt)
    | While(cond: seq<Instr>, body: Stmt)
    | Break
    | Next
    | Switch(value: seq<Instr>, arms: seq<Arm>)

  /** A CASE block with its values, or the DEFAULT block. */
  datatype Arm = Case(values: seq<int>, body: Stmt) | Default(body: Stmt)

  // ---- Meaning.

  datatype Outcome = Done(data: Data) | Broke(data: Data) | Skipped(data: Data) | Error | Timeout

  function Perform(code: seq<Instr>, d: Data): Maybe {
    if code == [] then Gives(d)
    else match Act(code[0], d)
      case Fails => Fails
      case Gives(d') => Perform(code[1..], d')
  }

  predicate CaseHas(arm: Arm, v: int) {
    arm.Case? && v in arm.values
  }

  /** The arm chosen for a value: the last CASE that has it, otherwise the first DEFAULT, otherwise -1. */
  function Chosen(arms: seq<Arm>, v: int): (i: int)
    ensures -1 <= i < |arms|
  {
    var c := LastCase(arms, |arms|, v);
    if c >= 0 then c else FirstDefault(arms)
  }

  /** What the choice means. */
  lemma ChoiceIs(arms: seq<Arm>, v: int)
    ensures var i := Chosen(arms, v);
            && (i >= 0 && arms[i].Case? ==>
                  v in arms[i].values && forall j :: i < j < |arms| && arms[j].Case? ==> v !in arms[j].values)
            && (i >= 0 && arms[i].Default? ==>
                  (forall j :: 0 <= j < |arms| && arms[j].Case? ==> v !in arms[j].values)
                  && forall j :: 0 <= j < i ==> arms[j].Case?)
            && (i < 0 ==> forall j :: 0 <= j < |arms| ==> arms[j].Case? && v !in arms[j].values)
  {
    var i := Chosen(arms, v);
    assert forall j :: 0 <= j < |arms| && arms[j].Case? ==> (CaseHas(arms[j], v) <==> v in arms[j].values);
  }

  /** The last of the first p arms that is a CASE with the value, -1 if there is none. */
  function LastCase(arms: seq<Arm>, p: nat, v: int): (i: int)
    requires p <= |arms|
    ensures -1 <= i < p
    ensures i >= 0 ==> CaseHas(arms[i], v)
    ensures forall j :: i < j < p ==> !CaseHas(arms[j], v)
  {
    if p == 0 then -1
    else if CaseHas(arms[p - 1], v) then p - 1
    else LastCase(arms, p - 1, v)
  }

  function FirstDefault(arms: seq<Arm>): (i: int)
    ensures -1 <= i < |arms|
    ensures i >= 0 ==> arms[i].Default? && forall j :: 0 <= j < i ==> !arms[j].Default?
    ensures i < 0 ==> forall j :: 0 <= j < |arms| ==> !arms[j].Default?
  {
    if arms == [] then -1
    else if arms[0].Default? then 0
    else
      var i := FirstDefault(arms[1..]);
      if i < 0 then -1 else i + 1
  }

  /** Pop the value of an expression. */
  function PopValue(m: Maybe): (Maybe, int) {
    if m == Fails || m.data.ops == [] then (Fails, 0)
    else (Gives(m.data.(ops := m.data.ops[..|m.data.ops| - 1])), m.data.ops[|m.data.ops| - 1])
  }

  /** What a statement does, if that takes no more than fuel turns of loops. */
  function Exec(s: Stmt, d: Data, fuel: nat): Outcome
    decreases fuel, s
  {
    match s
    case Simple(code) => (match Perform(code, d) case Fails => Error case Gives(d') => Done(d'))
    case Then(first, second) =>
      var o := Exec(first, d, fuel);
      if o.Done? then Exec(second, o.data, fuel) else o
    case If(cond, body) =>
      var (m, v) := PopValue(Perform(cond, d));
      if m == Fails then Error
      else if v == 0 then Done(m.data)
      else Exec(body, m.data, fuel)
    case IfElse(cond, yes, no) =>
      var (m, v) := PopValue(Perform(cond, d));
      if m == Fails then Error
      else if v == 0 then Exec(no, m.data, fuel)
      else Exec(yes, m.data, fuel)
    case While(cond, body) =>
      var (m, v) := PopValue(Perform(cond, d));
      if m == Fails then Error
      else if v == 0 then Done(m.data)
      else
        var o := Exec(body, m.data, fuel);
        if o.Broke? then Done(o.data)
        else if o.Done? || o.Skipped? then (if fuel == 0 then Timeout else Exec(s, o.data, fuel - 1))
        else o
    case Break => Broke(d)
    case Next => Skipped(d)
    case Switch(value, arms) =>
      var (m, v) := PopValue(Perform(value, d));
      if m == Fails then Error
      else
        var i := Chosen(arms, v);
        if i < 0 then Done(m.data) else Exec(arms[i].body, m.data, fuel)
  }

  // ---- Compiled form.

  function SimpleSize(code: seq<Instr>): nat {
    if code == [] then 0 else code[0].Length() + SimpleSize(code[1..])
  }

  /** How many words a statement takes when compiled. */
  function Size(s: Stmt): nat {
    match s
    case Simple(code) => SimpleSize(code)
    case Then(first, second) => Size(first) + Size(second)
    case If(cond, body) => SimpleSize(cond) + 3 + Size(body)
    case IfElse(cond, yes, no) => SimpleSize(cond) + 3 + Size(yes) + 3 + Size(no)
    case While(cond, body) => SimpleSize(cond) + 3 + Size(body) + 3
    case Break => 3
    case Next => 3
    case Switch(value, arms) => SimpleSize(value) + 6 + ArmsSize(arms) + Cases(arms) + 2
  }

  /** The words of the instruction at the head of an arm. */
  function HeadSize(arm: Arm): nat {
    if arm.Case? then 2 + |arm.values| else 2
  }

  function ArmsSize(arms: seq<Arm>): nat
    decreases arms
  {
    if arms == [] then 0
    else
      assert arms[0].body < arms[0];
      HeadSize(arms[0]) + Size(arms[0].body) + 3 + ArmsSize(arms[1..])
  }

  /** The number of CASE blocks. */
  function Cases(arms: seq<Arm>): nat {
    if arms == [] then 0 else (if arms[0].Case? then 1 else 0) + Cases(arms[1..])
  }

  predicate SimpleAt(mem: seq<int>, code: seq<Instr>, b: int) {
    code == [] || (At(mem, b, code[0].Words()) && SimpleAt(mem, code[1..], b + code[0].Length()))
  }

  /** An expression, and a BIFF to target. */
  predicate ConditionAt(mem: seq<int>, cond: seq<Instr>, b: int, target: int) {
    var m := b + SimpleSize(cond);
    AsOne(SimpleAt(mem, cond, b) && At(mem, m, Branch(BIFF, m, target)))
  }

  predicate GotoAt(mem: seq<int>, b: int, target: int) {
    AsOne(At(mem, b, Branch(GOTO, b, target)))
  }

  /** A `break` at b: either the first one of its loop, or a GOTO to that one. */
  predicate BreakAt(mem: seq<int>, b: int, exit: int) {
    AsOne(At(mem, b, [GOTO, 3]) && b + 3 <= |mem| && (b == exit || b + 3 + mem[b + 2] == exit))
  }

  /** An expression, a SWITCH with its table, and a GOTO to the end. */
  predicate SelectorAt(mem: seq<int>, value: seq<Instr>, arms: seq<Arm>, b: int, table: int, end: int) {
    var m := b + SimpleSize(value);
    AsOne(
      && SimpleAt(mem, value, b) && At(mem, m, [SWITCH, 3, table - m]) && GotoAt(mem, m + 3, end)
      && TableAt(mem, arms, m, table))
  }

  /** The code of statement s lies at b. A `next` goes to loop; the first `break` of a loop is a GOTO at
      exit, whose target is the business of the loop, and the other ones go to that GOTO. */
  predicate CodeAt(mem: seq<int>, s: Stmt, b: int, loop: int, exit: int)
  {
    match s
    case Simple(code) => SimpleAt(mem, code, b)
    case Then(first, second) => CodeAt(mem, first, b, loop, exit) && CodeAt(mem, second, b + Size(first), loop, exit)
    case If(cond, body) =>
      ConditionAt(mem, cond, b, b + Size(s)) && CodeAt(mem, body, b + SimpleSize(cond) + 3, loop, exit)
    case IfElse(cond, yes, no) =>
      var m := b + SimpleSize(cond) + 3;
      var k := m + Size(yes);
      && ConditionAt(mem, cond, b, k + 3) && CodeAt(mem, yes, m, loop, exit) && GotoAt(mem, k, b + Size(s))
      && CodeAt(mem, no, k + 3, loop, exit)
    case While(cond, body) =>
      var m := b + SimpleSize(cond) + 3;
      var k := m + Size(body);
      var x := FirstBreak(body, m);
      && ConditionAt(mem, cond, b, k + 3) && CodeAt(mem, body, m, b, x) && GotoAt(mem, k, b)
      && (x >= 0 ==> GotoAt(mem, x, k + 3))
    case Break => BreakAt(mem, b, exit)
    case Next => GotoAt(mem, b, loop)
    case Switch(value, arms) =>
      var start := b + SimpleSize(value) + 6;
      && SelectorAt(mem, value, arms, b, start + ArmsSize(arms), b + Size(s))
      && ArmsAt(mem, arms, start, b + Size(s), loop, exit)
  }

  /** The arms from b on, each one ending with a GOTO to end. */
  predicate ArmsAt(mem: seq<int>, arms: seq<Arm>, b: int, end: int, loop: int, exit: int)
    decreases mem, arms, 1
  {
    arms == [] ||
    (&& ArmAt(mem, arms[0], b, end, loop, exit)
     && ArmsAt(mem, arms[1..], b + HeadSize(arms[0]) + Size(arms[0].body) + 3, end, loop, exit))
  }

  predicate ArmAt(mem: seq<int>, arm: Arm, b: int, end: int, loop: int, exit: int)
    decreases mem, arm, 0
  {
    var body := b + HeadSize(arm);
    var k := body + Size(arm.body);
    AsOne(At(mem, b, Head(arm)) && CodeAt(mem, arm.body, body, loop, exit) && GotoAt(mem, k, end))
  }

  function Head(arm: Arm): (ws: seq<int>)
    ensures |ws| == HeadSize(arm)
  {
    if arm.Case? then [CASE, 2 + |arm.values|] + arm.values else [DEFAULT, 2]
  }

  /** Where the CASE instructions are, in order of compilation. */
  function CaseLocs(arms: seq<Arm>, b: int): (locs: seq<int>)
    ensures |locs| == Cases(arms)
  {
    if arms == [] then []
    else (if arms[0].Case? then [b] else []) + CaseLocs(arms[1..], b + HeadSize(arms[0]) + Size(arms[0].body) + 3)
  }

  /** Where the first DEFAULT instruction is, -1 if there is none. */
  function DefaultLoc(arms: seq<Arm>, b: int): int {
    if arms == [] then -1
    else if arms[0].Default? then b
    else DefaultLoc(arms[1..], b + HeadSize(arms[0]) + Size(arms[0].body) + 3)
  }

  /** The jump table of a SWITCH at m: the offset of the first DEFAULT or 0, the offsets of the CASEs, last
      one first, and 0. */
  predicate TableAt(mem: seq<int>, arms: seq<Arm>, m: int, table: int) {
    var locs := CaseLocs(arms, m + 6);
    var default := DefaultLoc(arms, m + 6);
    AsOne(
      && 0 <= table
      && table + |locs| + 2 <= |mem|
      && mem[table] == (if default < 0 then 0 else default - m)
      && (forall i :: 0 <= i < |locs| ==> mem[table + |locs| - i] == locs[i] - m)
      && mem[table + 1 + |locs|] == 0)
  }

  /** Where the first `break` that belongs to the enclosing loop is compiled, -1 if there is none. */
  function FirstBreak(s: Stmt, b: int): int {
    match s
    case Simple(_) => -1
    case Then(first, second) =>
      var x := FirstBreak(first, b);
      if x >= 0 then x else FirstBreak(second, b + Size(first))
    case If(cond, body) => FirstBreak(body, b + SimpleSize(cond) + 3)
    case IfElse(cond, yes, no) =>
      var x := FirstBreak(yes, b + SimpleSize(cond) + 3);
      if x >= 0 then x else FirstBreak(no, b + SimpleSize(cond) + 3 + Size(yes) + 3)
    case While(_, _) => -1
    case Break => b
    case Next => -1
    case Switch(value, arms) => FirstBreakIn(arms, b + SimpleSize(value) + 6)
  }

  function FirstBreakIn(arms: seq<Arm>, b: int): int {
    if arms == [] then -1
    else
      var x := FirstBreak(arms[0].body, b + HeadSize(arms[0]));
      if x >= 0 then x else FirstBreakIn(arms[1..], b + HeadSize(arms[0]) + Size(arms[0].body) + 3)
  }
}
