/** The compiler of structured statements, in the way the grammar's actions work: every place that is still
    to be filled in is kept on the control stack until its target is known. */
module StatementCompiler {
  import opened Opcodes
  import opened Options
  import opened Code
  import opened Statements
  import opened CodeFrames
  import opened JumpTables
  import opened Emission
  import opened CompiledMeaning

  class Compiler {
    const stack: array<int>
    var pc: int
    var topcs: int
    var nexts: seq<int>
    var breaks: seq<int>

    ghost predicate Valid()
      reads this, stack
    {
      0 <= pc <= stack.Length && 0 <= topcs <= stack.Length && |nexts| == |breaks| <= MAX_LOOP
    }

    ghost function Now(): (a: Snap)
      reads this, stack
      ensures a.pc == pc && a.topcs == topcs && a.nexts == nexts && a.breaks == breaks && |a.mem| == stack.Length
    {
      Snap(stack[..], pc, topcs, nexts, breaks)
    }

    constructor (size: nat)
      ensures Valid() && fresh(stack) && stack.Length == size && pc == 0 && topcs == size && nexts == []
    {
      stack := new int[size];
      pc, topcs := 0, size;
      nexts, breaks := [], [];
    }

    // ---- Single instructions and the control stack.

    /** Append an instruction. It must not be longer than the margin that is kept to the control stack. */
    method Compile(i: Instr) returns (loc: int)
      requires Valid() && i.Length() <= MARGIN
      modifies this, stack
      ensures Valid()
      ensures loc == ERR <==> old(pc) > old(topcs) - MARGIN
      ensures loc == ERR ==> Now() == old(Now())
      ensures loc != ERR ==> loc == old(pc) && Wrote(old(Now()), Now(), i.Words())
      ensures loc != ERR ==>
                pc == old(pc) + i.Length() && topcs == old(topcs) && nexts == old(nexts) && breaks == old(breaks)
    {
      if pc > topcs - MARGIN {
        return ERR;
      }
      ghost var before := Now();
      var ws := i.Words();
      for k := 0 to |ws|
        invariant pc == before.pc && topcs == before.topcs && nexts == before.nexts && breaks == before.breaks
        invariant stack[pc..pc + k] == ws[..k]
        invariant stack[..pc] == before.mem[..pc] && stack[pc + |ws|..] == before.mem[pc + |ws|..]
      {
        stack[pc + k] := ws[k];
      }
      loc := pc;
      pc := pc + |ws|;
      OutsideSame(before.mem, stack[..], loc, loc + |ws|);
    }

    /** Push a value on the control stack. At the lower end of the array, where the operand stack is empty,
        it is only reported that there is no room. */
    method Push(v: int)
      requires Valid()
      modifies this, stack
      ensures Valid() && pc == old(pc) && nexts == old(nexts) && breaks == old(breaks)
      ensures old(topcs) > 0 ==> Pushed(old(Now()), Now(), v) && topcs == old(topcs) - 1
      ensures old(topcs) == 0 ==> Now() == old(Now())
    {
      if topcs > 0 {
        topcs := topcs - 1;
        stack[topcs] := v;
      }
    }

    /** Pop the top of the control stack; of an empty one, ERR. */
    method Pop() returns (v: int)
      requires Valid()
      modifies `topcs
      ensures Valid()
      ensures old(topcs) < stack.Length ==>
                Popped(old(Now()), Now(), v) && topcs == old(topcs) + 1 && v == old(stack[topcs])
      ensures old(topcs) == stack.Length ==> v == ERR && topcs == old(topcs)
    {
      if topcs == stack.Length {
        return ERR;
      }
      v := stack[topcs];
      topcs := topcs + 1;
    }

    /** Fill in the argument of the instruction at loc. */
    method FillIn(loc: int, v: int)
      requires Valid() && 0 <= loc && loc + 2 < stack.Length
      modifies stack
      ensures Valid() && FilledIn(old(Now()), Now(), loc, v)
    {
      stack[loc + 2] := v;
    }

    /** A list of instructions without branches. */
    method CompileList(code: seq<Instr>) returns (ok: bool)
      requires Valid() && ShortCode(code)
      modifies this, stack
      ensures Valid()
      ensures ok ==> Listed(old(Now()), Now(), code)
      ensures ok ==>
                pc == old(pc) + SimpleSize(code) && topcs == old(topcs) && nexts == old(nexts) && breaks == old(breaks)
      ensures old(pc) + 2 * SimpleSize(code) + MARGIN <= old(topcs) ==> ok
      decreases code
    {
      if code == [] {
        return true;
      }
      ghost var a := Now();
      var loc := Compile(code[0]);
      if loc == ERR {
        return false;
      }
      ghost var b := Now();
      ok := CompileList(code[1..]);
      if ok { ListedCons(a, b, Now(), code); }
    }

    // ---- Loops.

    method LoopIncr() returns (ok: bool)
      requires Valid()
      modifies `nexts, `breaks
      ensures Valid()
      ensures ok <==> |old(nexts)| < MAX_LOOP
      ensures ok ==> Opened(old(Now()), Now()) && nexts == old(nexts) + [pc]
    {
      if |nexts| >= MAX_LOOP {
        return false;
      }
      breaks := breaks + [0];
      nexts := nexts + [pc];
      return true;
    }

    method LoopDecr()
      requires Valid() && breaks != []
      requires breaks[|breaks| - 1] != 0 ==> 0 <= breaks[|breaks| - 1] && breaks[|breaks| - 1] + 2 < stack.Length
      modifies this, stack
      ensures Valid() && Closed(old(Now()), Now())
      ensures pc == old(pc) && topcs == old(topcs) && nexts == old(nexts)[..|old(nexts)| - 1]
    {
      var x := breaks[|breaks| - 1];
      breaks, nexts := breaks[..|breaks| - 1], nexts[..|nexts| - 1];
      if x != 0 {
        stack[x + 2] := pc - x - 3;
      }
    }

    // ---- Statements.

    /** Compile a statement. It fails on a `break` or `next` outside of loops, on loops nested too deeply, and
        when code and control stack come too close; there is room enough when twice the size of the code and
        the margin are free. */
    method CompileStatement(s: Stmt) returns (ok: bool)
      requires Valid() && Short(s) && (breaks != [] ==> pc > 0)
      modifies this, stack
      ensures Valid()
      ensures ok ==> Emitted(old(Now()), Now(), s) && Legal(s, |old(nexts)|)
      ensures ok ==> pc == old(pc) + Size(s) && topcs == old(topcs) && nexts == old(nexts)
      ensures Legal(s, |old(nexts)|) && old(pc) + 2 * Size(s) + MARGIN <= old(topcs) ==> ok
      decreases s, 2
    {
      match s
      case Simple(code) =>
        ghost var a := Now();
        ok := CompileList(code);
        if ok { SimpleEmitted(a, Now(), s); }
      case Then(first, second) =>
        ghost var a := Now();
        ok := CompileStatement(first);
        if ok {
          ghost var b := Now();
          ok := CompileStatement(second);
          if ok { ThenEmitted(a, b, Now(), s); }
        }
      case If(_, _) => ok := CompileIf(s);
      case IfElse(_, _, _) => ok := CompileIfElse(s);
      case While(_, _) => ok := CompileWhile(s);
      case Break => ok := CompileBreak();
      case Next => ok := CompileNext();
      case Switch(_, _) => ok := CompileSwitch(s);
    }

    /** Compile a condition, a BIFF, and the statement that it guards; the place of the BIFF is on the control
        stack meanwhile. */
    method CompileGuarded(cond: seq<Instr>, body: Stmt) returns (ok: bool, biff: int, ghost b: Snap, ghost c: Snap)
      requires Valid() && ShortCode(cond) && Short(body)
      modifies this, stack
      ensures Valid()
      ensures ok ==> Listed(old(Now()), b, cond) && Wrote(b, c, [BIFF, 3, 0]) && Emitted(c, Now(), body)
      ensures ok ==> Legal(body, |old(nexts)|) && biff == b.pc == old(pc) + SimpleSize(cond) && c.pc == biff + 3
      ensures ok ==> pc == old(pc) + SimpleSize(cond) + 3 + Size(body) && topcs == old(topcs) && nexts == old(nexts)
      ensures ok ==> biff + MARGIN <= topcs
      ensures Legal(body, |old(nexts)|) && old(pc) + 2 * (SimpleSize(cond) + 3 + Size(body)) + MARGIN <= old(topcs) ==>
                ok
      decreases body, 3
    {
      hide Now, Emitted, Listed, ShortCode, Wrote, Pushed, Popped, FilledIn, Coded, WellFormed;
      ghost var a := Now();
      b, c, biff := a, a, 0;
      ok := CompileList(cond);
      if !ok { return; }
      b := Now();
      OneArgument(BIFF, 0);
      biff := Compile(Instr(BIFF, [0]));
      if biff == ERR { return false, 0, b, b; }
      c := Now();
      Push(biff);
      ghost var c' := Now();
      ok := CompileStatement(body);
      if !ok { return; }
      ghost var d' := Now();
      biff := Pop();
      UnderStatement(c, c', b.pc, d', Now(), biff, body);
    }

    method CompileIf(s: Stmt) returns (ok: bool)
      requires s.If? && Valid() && Short(s) && (breaks != [] ==> pc > 0)
      modifies this, stack
      ensures Valid()
      ensures ok ==> Emitted(old(Now()), Now(), s) && Legal(s, |old(nexts)|)
      ensures ok ==> pc == old(pc) + Size(s) && topcs == old(topcs) && nexts == old(nexts)
      ensures Legal(s, |old(nexts)|) && old(pc) + 2 * Size(s) + MARGIN <= old(topcs) ==> ok
      decreases s, 1
    {
      hide Now, Emitted, Listed, ShortCode, Wrote, Pushed, Popped, FilledIn, Coded, WellFormed;
      ghost var a := Now();
      var biff;
      ghost var b, c;
      ok, biff, b, c := CompileGuarded(s.cond, s.body);
      if !ok { return; }
      ghost var d := Now();
      FillIn(biff, pc - biff - 3);
      IfEmitted(a, b, c, d, Now(), s);
    }

    method CompileIfElse(s: Stmt) returns (ok: bool)
      requires s.IfElse? && Valid() && Short(s) && (breaks != [] ==> pc > 0)
      modifies this, stack
      ensures Valid()
      ensures ok ==> Emitted(old(Now()), Now(), s) && Legal(s, |old(nexts)|)
      ensures ok ==> pc == old(pc) + Size(s) && topcs == old(topcs) && nexts == old(nexts)
      ensures Legal(s, |old(nexts)|) && old(pc) + 2 * Size(s) + MARGIN <= old(topcs) ==> ok
      decreases s, 1
    {
      hide Now, Emitted, Listed, ShortCode, Wrote, Pushed, Popped, FilledIn, Coded, WellFormed, YesHalf;
      hide Short, Size, Legal, SimpleSize, Same, Grown, SimpleAt;
      PartsOfIfElse(s, |nexts|);
      ghost var a := Now();
      var biff;
      ghost var b, c;
      ok, biff, b, c := CompileGuarded(s.cond, s.yes);
      if !ok { return; }
      ghost var d := Now();
      OneArgument(GOTO, 0);
      var skip := Compile(Instr(GOTO, [0]));
      if skip == ERR { return false; }
      ghost var e := Now();
      FillIn(biff, pc - biff - 3);
      ghost var f := Now();
      YesEmitted(a, b, c, d, e, f, s);
      Push(skip);
      ghost var f' := Now();
      ok := CompileStatement(s.no);
      if !ok { return; }
      ghost var g' := Now();
      skip := Pop();
      ghost var g := Now();
      UnderStatement(f, f', d.pc, g', g, skip, s.no);
      FillIn(skip, pc - skip - 3);
      IfElseEmitted(a, f, g, Now(), s, c.pc, d.pc);
    }

    method CompileWhile(s: Stmt) returns (ok: bool)
      requires s.While? && Valid() && Short(s) && (breaks != [] ==> pc > 0)
      modifies this, stack
      ensures Valid()
      ensures ok ==> Emitted(old(Now()), Now(), s) && Legal(s, |old(nexts)|)
      ensures ok ==> pc == old(pc) + Size(s) && topcs == old(topcs) && nexts == old(nexts)
      ensures Legal(s, |old(nexts)|) && old(pc) + 2 * Size(s) + MARGIN <= old(topcs) ==> ok
      decreases s, 1
    {
      hide Now, Emitted, Listed, ShortCode, Wrote, Pushed, Popped, FilledIn, Coded, WellFormed, BodyHalf, Opened;
      hide Closed;
      ghost var a := Now();
      if topcs == 0 { return false; }
      Push(pc);
      ghost var p := Now();
      ok := LoopIncr();
      if !ok { return; }
      ghost var o := a.(nexts := a.nexts + [a.pc], breaks := a.breaks + [0]);
      OpenedAbove(a, p, Now(), o);
      ghost var f, start, k;
      ok, f, start, k := CompileTurn(s, o);
      if !ok { return; }
      ClosingFits(o, f, s, start, k);
      assert nexts[..|nexts| - 1] == a.nexts;
      LoopDecr();
      WhileEmitted(a, o, f, Now(), s, start, k);
    }

    /** Compile what is repeated, with the GOTO back to the start that lies on the control stack; o is the
        state without that. */
    method CompileTurn(s: Stmt, ghost o: Snap) returns (ok: bool, ghost f: Snap, ghost start: int, ghost k: int)
      requires s.While? && Valid() && Short(s) && Pushed(o, Now(), o.pc) && o.pc == pc && o.topcs == topcs + 1
      modifies this, stack
      ensures Valid()
      ensures ok ==> f == Now() && BodyHalf(o, f, s, start, k) && Legal(s.body, |old(nexts)|)
      ensures ok ==> pc == old(pc) + Size(s) && topcs == o.topcs && nexts == old(nexts) && pc <= topcs
      ensures Legal(s.body, |old(nexts)|) && old(pc) + 2 * Size(s) + MARGIN <= o.topcs ==> ok
      decreases s, 0
    {
      hide Now, Emitted, Listed, ShortCode, Wrote, Pushed, Popped, FilledIn, Coded, WellFormed, BodyHalf;
      ghost var a := Now();
      f, start, k := a, 0, 0;
      var biff;
      ghost var b, c;
      ok, biff, b, c := CompileGuarded(s.cond, s.body);
      if !ok { return; }
      ghost var d := Now();
      WhileHead(o, a, b, c, d, s.cond, s.body);
      var from := Pop();
      PoppedIs(d, Now(), from);
      OneArgument(GOTO, from - pc - 3);
      var back := Compile(Instr(GOTO, [from - pc - 3]));
      if back == ERR { return false, f, start, k; }
      ghost var e := Now();
      FillIn(biff, pc - biff - 3);
      f, start, k := Now(), c.pc, d.pc;
      BodyEmitted(o, Lift(b), Lift(c), Lift(d), e, f, s);
    }

    method CompileBreak() returns (ok: bool)
      requires Valid() && (breaks != [] ==> pc > 0)
      modifies this, stack
      ensures Valid()
      ensures ok ==> Emitted(old(Now()), Now(), Break) && Legal(Break, |old(nexts)|)
      ensures Legal(Break, |old(nexts)|) && old(pc) + 6 + MARGIN <= old(topcs) ==> ok
    {
      if nexts == [] { return false; }
      ghost var a := Now();
      var dest := breaks[|breaks| - 1];
      if dest != 0 {
        var loc := Compile(Instr(GOTO, [dest - pc - 3]));
        if loc == ERR { return false; }
        BreakEmitted(a, Now());
      } else {
        breaks := breaks[|breaks| - 1 := pc];
        ghost var b := Now();
        var loc := Compile(Instr(GOTO, [0]));
        if loc == ERR { return false; }
        BreakNoted(a, b, Now());
      }
      return true;
    }

    method CompileNext() returns (ok: bool)
      requires Valid() && (breaks != [] ==> pc > 0)
      modifies this, stack
      ensures Valid()
      ensures ok ==> Emitted(old(Now()), Now(), Next) && Legal(Next, |old(nexts)|)
      ensures Legal(Next, |old(nexts)|) && old(pc) + 6 + MARGIN <= old(topcs) ==> ok
    {
      if nexts == [] { return false; }
      ghost var a := Now();
      var loc := Compile(Instr(GOTO, [nexts[|nexts| - 1] - pc - 3]));
      if loc == ERR { return false; }
      NextEmitted(a, Now());
      return true;
    }

    // ---- Switches.

    /** Is a CASE or DEFAULT legal here? It is right behind a SWITCH or behind another block of one. */
    method InSwitch() returns (status: bool)
      requires Valid() && EntryThere(Now())
      modifies this, stack
      ensures Valid()
      ensures status <==> BlockMayFollow(old(Now()))
      ensures status ==> Now() == old(Now())
    {
      ghost var a := Now();
      var oper := Pop();
      var code := stack[oper];
      status := true;
      if code == SWITCH {
        Push(oper);
        assert stack[..] == a.mem;
      } else if code == GOTO {
        var oper2 := Pop();
        var code2 := stack[oper2];
        status := code2 == CASE || code2 == DEFAULT;
        Push(oper2);
        Push(oper);
        assert stack[..] == a.mem;
      } else {
        status := false;
      }
    }

    /** Compile the blocks of a switch; the places of each block's first instruction and of its last GOTO
        remain on the control stack. */
    method CompileArms(arms: seq<Arm>) returns (ok: bool)
      requires Valid() && (breaks != [] ==> pc > 0) && pc + 16 <= topcs
      requires forall i :: 0 <= i < |arms| ==> HeadSize(arms[i]) <= MARGIN && Short(arms[i].body)
      requires EntryThere(Now()) && BlockMayFollow(Now())
      modifies this, stack
      ensures Valid()
      ensures ok ==> ArmsEmitted(old(Now()), Now(), arms) && pc + 16 <= topcs && nexts == old(nexts)
      ensures ok ==> pc == old(pc) + ArmsSize(arms) && topcs == old(topcs) - 2 * |arms|
      ensures ok ==> forall i :: 0 <= i < |arms| ==> Legal(arms[i].body, |old(nexts)|)
      ensures old(pc) + 2 * ArmsSize(arms) + MARGIN <= old(topcs) ==>
                ok || exists i :: 0 <= i < |arms| && !Legal(arms[i].body, |old(nexts)|)
      decreases arms, 1
    {
      hide Now, ArmEmitted, ArmsEmitted, EntryThere, BlockMayFollow, Size, HeadSize;
      ghost var a := Now();
      if arms == [] {
        NoArmsEmitted(a);
        return true;
      }
      ok := CompileArm(arms[0]);
      if !ok { return; }
      ghost var b := Now();
      ArmAccepts(a, b, arms[0]);
      ok := CompileArms(arms[1..]);
      if ok {
        ArmsFromArm(a, b, Now(), arms);
      }
    }

    method CompileArm(arm: Arm) returns (ok: bool)
      requires Valid() && (breaks != [] ==> pc > 0) && pc + 16 <= topcs
      requires HeadSize(arm) <= MARGIN && Short(arm.body)
      requires EntryThere(Now()) && BlockMayFollow(Now())
      modifies this, stack
      ensures Valid()
      ensures ok ==> ArmEmitted(old(Now()), Now(), arm) && pc + 16 <= topcs && Legal(arm.body, |old(nexts)|)
      ensures old(pc) + 2 * (HeadSize(arm) + Size(arm.body) + 3) + MARGIN <= old(topcs) ==>
                ok || !Legal(arm.body, |old(nexts)|)
      decreases arm, 0
    {
      hide Now, Emitted, Listed, ShortCode, Wrote, Pushed, Popped, FilledIn, Coded, WellFormed, ArmEmitted;
      hide EntryThere, BlockMayFollow;
      ghost var a := Now();
      ok := InSwitch();
      if !ok { return; }
      var head := if arm.Case? then Instr(CASE, arm.values) else Instr(DEFAULT, []);
      HeadWords(arm, head);
      var loc := Compile(head);
      if loc == ERR { return false; }
      ghost var b := Now();
      Push(loc);
      ghost var c := Now();
      ok := CompileStatement(arm.body);
      if !ok { return; }
      ghost var d := Now();
      OneArgument(GOTO, 0);
      loc := Compile(Instr(GOTO, [0]));
      if loc == ERR { return false; }
      ghost var e := Now();
      Push(loc);
      ArmFromParts(a, b, c, d, e, Now(), arm);
    }

    /** Make the jump table at pc from the control stack, down to the SWITCH; m and es say what is there. */
    method SetSwitch(ghost es: seq<int>, ghost m: int)
      requires Valid() && pc + 2 <= topcs && topcs + |es| < stack.Length
      requires At(Now().mem, topcs, es) && Now().mem[topcs + |es|] == m
      requires Listing(Now().mem, es, m, pc)
      modifies this, stack
      ensures Valid() && TableMade(old(Now()), Now(), es, m)
      ensures pc <= topcs && nexts == old(nexts) && topcs == old(topcs) + |es| + 1
      ensures pc == old(pc) + |CaseList(old(Now().mem), es)| + 2
    {
      hide Patched, CaseList, Listing, At;
      ghost var mem := stack[..];
      EntryAt(mem, es, m, pc, |es|);
      CaseListFits(mem, es);
      var njump, assgn := CountJumps(es, m);
      SwitchFits(mem, es, m, pc);
      var jmp := PopEntries(es, assgn, njump);
      stack[jmp] := 0;
      var oper := assgn;
      stack[oper + 2] := pc - oper;
      pc := pc + njump;
      oper := oper + 3;
      stack[oper + 2] := pc - oper - 3;
    }

    /** Pop the entries, fill in the table and the GOTOs; the result is the place of the terminator. */
    method PopEntries(ghost es: seq<int>, assgn: int, njump: int) returns (jmp: int)
      requires Valid() && pc + 2 <= topcs && topcs + |es| < stack.Length
      requires At(stack[..], topcs, es) && stack[topcs + |es|] == assgn
      requires Listing(stack[..], es, assgn, pc)
      modifies stack, `topcs
      ensures topcs == old(topcs) + |es| + 1
      ensures stack[..] == Patched(old(stack[..]), es, assgn, pc, pc + njump)
      ensures jmp == pc + 1 + |CaseList(old(stack[..]), es)|
    {
      hide Patched, CaseList, Listing, At, EntryOrSwitch, Op, Entered;
      ghost var mem, top := stack[..], topcs;
      EntryRead(mem, es, assgn, pc, 0, top);
      jmp := pc + 1;
      var oper := Pop();
      var code := stack[oper];
      stack[pc] := 0;
      ghost var done: seq<int> := [];
      PatchedNone(mem, assgn, pc, pc + njump);
      while code != SWITCH
        invariant |done| <= |es| && done == es[..|done|] && topcs == top + |done| + 1
        invariant oper == EntryOrSwitch(es, |done|, assgn)
        invariant 0 <= oper < |mem| && code == mem[oper]
        invariant stack[..] == Patched(mem, done, assgn, pc, pc + njump)
        invariant jmp == pc + 1 + |CaseList(mem, done)|
        invariant code == SWITCH ==> |done| == |es|
        decreases |es| - |done|
      {
        EntryAt(mem, es, assgn, pc, |done|);
        jmp := EnterOne(oper, code, assgn, njump, jmp);
        PatchedSnoc(mem, done, oper, assgn, pc, pc + njump);
        EntrySnoc(es, |done|, oper, assgn);
        done := done + [oper];
        oper, code := PopEntry(mem, es, |done|, assgn, top, njump);
      }
      assert done == es;
    }

    /** Pop the entry after the first n ones, or the SWITCH behind them. */
    method PopEntry(ghost mem: seq<int>, ghost es: seq<int>, ghost n: nat, ghost assgn: int, ghost top: int,
                    ghost njump: int)
      returns (oper: int, code: int)
      requires Valid() && pc + 2 <= top && top + |es| < |mem| == stack.Length && n <= |es| && topcs == top + n
      requires At(mem, top, es) && mem[top + |es|] == assgn && Listing(mem, es, assgn, pc)
      requires stack[..] == Patched(mem, es[..n], assgn, pc, pc + njump)
      modifies `topcs
      ensures topcs == old(topcs) + 1 && oper == EntryOrSwitch(es, n, assgn) && 0 <= oper < |mem| && code == mem[oper]
      ensures code == SWITCH <==> n == |es|
    {
      hide Patched, CaseList, Listing, At, EntryOrSwitch;
      NextEntry(mem, es, n, assgn, pc, top, pc + njump);
      EntryAt(mem, es, assgn, pc, n);
      ghost var now := stack[..];
      oper := Pop();
      assert oper == now[top + n];
      code := stack[oper];
      assert code == now[oper];
    }

    /** Enter a DEFAULT or a CASE in the table, or fill in the GOTO that ends a block. */
    method EnterOne(oper: int, code: int, assgn: int, njump: int, slot: int) returns (jmp: int)
      requires Valid() && pc < stack.Length && 0 <= slot < stack.Length
      requires code !in {DEFAULT, CASE} ==> 0 <= oper && oper + 2 < stack.Length
      modifies stack
      ensures stack[..] == Entered(old(stack[..]), code, oper, assgn, pc, slot, pc + njump)
      ensures jmp == if code == CASE then slot + 1 else slot
    {
      jmp := slot;
      if code == DEFAULT {
        stack[pc] := oper - assgn;
      } else if code == CASE {
        stack[jmp] := oper - assgn;
        jmp := jmp + 1;
      } else {
        stack[oper + 2] := pc + njump - oper - 3;
      }
    }

    /** The size of the jump table, from the entries down to the SWITCH, and the place of that. */
    method CountJumps(ghost es: seq<int>, ghost m: int) returns (njump: int, assgn: int)
      requires Valid() && topcs + |es| < stack.Length
      requires At(stack[..], topcs, es) && stack[topcs + |es|] == m
      requires Listing(stack[..], es, m, pc)
      ensures njump == |CaseList(stack[..], es)| + 2 && assgn == m
    {
      hide Listing, At, CaseList;
      ghost var mem := stack[..];
      var oper := topcs;
      EntryRead(mem, es, m, pc, 0, topcs);
      var code := stack[stack[oper]];
      njump := 2;
      CaseListNone(mem, es);
      while code != SWITCH
        invariant topcs <= oper <= topcs + |es| && EntryOrSwitch(es, oper - topcs, m) == stack[oper]
        invariant 0 <= stack[oper] < stack.Length && code == stack[stack[oper]]
        invariant njump == |CaseList(mem, es[..oper - topcs])| + 2
        invariant code == SWITCH ==> oper == topcs + |es|
        decreases topcs + |es| - oper
      {
        EntryAt(mem, es, m, pc, oper - topcs);
        CaseListPrefix(mem, es, oper - topcs);
        if code == CASE {
          njump := njump + 1;
        }
        oper := oper + 1;
        EntryRead(mem, es, m, pc, oper - topcs, topcs);
        code := stack[stack[oper]];
      }
      assert es[..|es|] == es;
      assgn := stack[oper];
    }

    method CompileSwitch(s: Stmt) returns (ok: bool)
      requires s.Switch? && Valid() && Short(s) && (breaks != [] ==> pc > 0)
      modifies this, stack
      ensures Valid()
      ensures ok ==> Emitted(old(Now()), Now(), s) && Legal(s, |old(nexts)|)
      ensures ok ==> pc == old(pc) + Size(s) && topcs == old(topcs) && nexts == old(nexts)
      ensures Legal(s, |old(nexts)|) && old(pc) + 2 * Size(s) + MARGIN <= old(topcs) ==> ok
      decreases s, 1
    {
      hide Now, Emitted, Listed, ShortCode, Wrote, Pushed, Popped, FilledIn, Coded, WellFormed, ArmsEmitted;
      hide SwitchBegun, EntryThere, BlockMayFollow, Listing;
      hide Size, ArmsSize, Cases, CaseList, Entries, Short, SimpleSize, At, TableMade, Legal;
      SwitchUnfolded(s, |nexts|);
      ghost var a := Now();
      ghost var m;
      ok, m := CompileSelection(s);
      if !ok { return; }
      ghost var e := Now();
      ok := CompileArms(s.arms);
      if !ok { return; }
      ghost var f := Now();
      SwitchListing(a, e, f, s, m);
      EntriesCases(f, s.arms, e.pc);
      SetSwitch(Entries(s.arms, e.pc), m);
      SwitchEmitted(a, e, f, Now(), s, m);
    }

    /** Compile the value of a switch, the SWITCH, whose place remains on the control stack, and a GOTO. */
    method CompileSelection(s: Stmt) returns (ok: bool, ghost m: int)
      requires s.Switch? && Valid() && ShortCode(s.value) && (breaks != [] ==> pc > 0)
      modifies this, stack
      ensures Valid()
      ensures ok ==> SwitchBegun(old(Now()), Now(), s, m) && EntryThere(Now()) && BlockMayFollow(Now())
      ensures ok ==> pc == old(pc) + SimpleSize(s.value) + 6 && topcs == old(topcs) - 1 && nexts == old(nexts)
      ensures ok ==> pc + 16 <= topcs
      ensures old(pc) + 2 * (SimpleSize(s.value) + 6) + MARGIN <= old(topcs) ==> ok
    {
      hide Now, Emitted, Listed, ShortCode, Wrote, Pushed, Popped, FilledIn, Coded, WellFormed, SwitchBegun;
      hide EntryThere, BlockMayFollow;
      ghost var a := Now();
      m := 0;
      ok := CompileList(s.value);
      if !ok { return; }
      ghost var b := Now();
      var unset: int := *;
      OneArgument(SWITCH, unset);
      var loc := Compile(Instr(SWITCH, [unset]));
      if loc == ERR { return false, 0; }
      ghost var c := Now();
      Push(loc);
      ghost var d := Now();
      OneArgument(GOTO, 0);
      loc := Compile(Instr(GOTO, [0]));
      if loc == ERR { return false, 0; }
      m := b.pc;
      SwitchHead(a, b, c, d, Now(), s, unset);
      SwitchAccepts(a, Now(), s, m);
    }

    // ---- Programs.

    /** Compile a statement and END; the code does what the statement means. */
    method CompileProgram(s: Stmt) returns (ok: bool)
      requires Valid() && Short(s) && WellFormed(s) && nexts == []
      modifies this, stack
      ensures Valid()
      ensures ok ==> Legal(s, 0) && pc == old(pc) + Size(s) + 2 && topcs == old(topcs)
      ensures ok ==> ProgramAt(stack[..], s, old(pc))
      ensures ok ==> forall d, d' :: Leads(stack[..], Running(old(pc), d), Halted(d')) <==> Finishes(s, d, Done(d'))
      ensures ok ==> forall d :: Leads(stack[..], Running(old(pc), d), Failed) <==> Finishes(s, d, Error)
      ensures Legal(s, 0) && old(pc) + 2 * Size(s) + MARGIN <= old(topcs) ==> ok
    {
      hide Emitted, ProgramAt, Leads, Finishes, Size, Short, Legal, WellFormed;
      ghost var a := Now();
      ok := CompileStatement(s);
      if !ok { return; }
      ghost var b := Now();
      var loc := Compile(Instr(END, []));
      if loc == ERR { return false; }
      ProgramFromParts(a, b, Now(), s);
      ProgramForAll(stack[..], s, a.pc);
    }
  }

  lemma OutsideSame(before: seq<int>, after: seq<int>, lo: nat, hi: nat)
    requires lo <= hi <= |before| == |after| && after[..lo] == before[..lo] && after[hi..] == before[hi..]
    ensures Same(before, after, 0, lo) && Same(before, after, hi, |before|)
  {
    SlicesSame(before, after, lo, hi);
  }

  lemma ListedCons(a: Snap, b: Snap, z: Snap, code: seq<Instr>)
    requires code != [] && a.pc >= 0 && Wrote(a, b, code[0].Words()) && b.pc <= b.topcs && Listed(b, z, code[1..])
    ensures Listed(a, z, code)
  {
    var ws := code[0].Words();
    WroteIsGrown(a, b, ws);
    GrownTrans(a, b, z, |ws|, SimpleSize(code[1..]));
    WordsStay(b.mem, z.mem, a.pc, ws);
  }

  lemma CaseListNone(mem: seq<int>, es: seq<int>)
    ensures CaseList(mem, es[..0]) == []
  {
  }

  lemma CaseListFits(mem: seq<int>, es: seq<int>)
    ensures |CaseList(mem, es)| <= |es|
  {
  }

  /** Entry i, or the SWITCH, as it is read from the control stack. */
  lemma EntryRead(mem: seq<int>, es: seq<int>, m: int, t: int, i: nat, top: int)
    requires Listing(mem, es, m, t) && i <= |es| && top + |es| < |mem| && At(mem, top, es) && mem[top + |es|] == m
    ensures top >= 0 && mem[top + i] == EntryOrSwitch(es, i, m)
    ensures 0 <= mem[top + i] < |mem| && (mem[mem[top + i]] == SWITCH <==> i == |es|)
  {
    EntryAt(mem, es, m, t, i);
    if i < |es| { WordAt(mem, top, es, i); }
  }

  lemma {:induction false} LegalNeedsNoLoop(s: Stmt)
    requires Legal(s, 0)
    ensures !NeedsLoop(s)
    decreases s
  {
    match s
    case Then(first, second) => LegalNeedsNoLoop(first); LegalNeedsNoLoop(second);
    case If(_, body) => LegalNeedsNoLoop(body);
    case IfElse(_, yes, no) => LegalNeedsNoLoop(yes); LegalNeedsNoLoop(no);
    case Switch(_, arms) =>
      forall i | 0 <= i < |arms| ensures !NeedsLoop(arms[i].body) {
        assert arms[i].body < arms[i];
        LegalNeedsNoLoop(arms[i].body);
      }
    case _ =>
  }

  lemma ProgramFromParts(a: Snap, b: Snap, z: Snap, s: Stmt)
    requires a.pc >= 0 && Emitted(a, b, s) && a.nexts == a.breaks == [] && Wrote(b, z, [END, 2])
    requires Legal(s, 0) && WellFormed(s)
    ensures ProgramAt(z.mem, s, a.pc)
  {
    LegalNeedsNoLoop(s);
    CodeStays(b.mem, z.mem, s, a.pc, -1, -1, -1);
  }

  lemma ProgramForAll(mem: seq<int>, s: Stmt, b: int)
    requires ProgramAt(mem, s, b)
    ensures forall d, d' :: Leads(mem, Running(b, d), Halted(d')) <==> Finishes(s, d, Done(d'))
    ensures forall d :: Leads(mem, Running(b, d), Failed) <==> Finishes(s, d, Error)
  {
    hide ProgramAt, Leads, Finishes;
    forall d, d' ensures Leads(mem, Running(b, d), Halted(d')) <==> Finishes(s, d, Done(d')) {
      ProgramIsRight(mem, s, b, d, d');
    }
    forall d ensures Leads(mem, Running(b, d), Failed) <==> Finishes(s, d, Error) {
      ProgramIsRight(mem, s, b, d, d);
    }
  }

  lemma HeadWords(arm: Arm, head: Instr)
    requires head == if arm.Case? then Instr(CASE, arm.values) else Instr(DEFAULT, [])
    ensures head.Words() == Head(arm) && head.Length() == HeadSize(arm)
  {
  }

  lemma PoppedIs(a: Snap, z: Snap, v: int)
    requires Popped(a, z, v)
    ensures z == Lift(a) && v == a.mem[a.topcs]
  {
  }

  lemma EntrySnoc(es: seq<int>, n: nat, e: int, m: int)
    requires n < |es| && e == EntryOrSwitch(es, n, m)
    ensures es[..n] + [e] == es[..n + 1]
  {
  }

  lemma PartsOfIfElse(s: Stmt, loops: nat)
    requires s.IfElse?
    ensures Size(s) == SimpleSize(s.cond) + 3 + Size(s.yes) + 3 + Size(s.no)
    ensures Short(s) ==> ShortCode(s.cond) && Short(s.yes) && Short(s.no)
    ensures Legal(s, loops) <==> Legal(s.yes, loops) && Legal(s.no, loops)
  {
  }

  lemma OneArgument(op: int, x: int)
    ensures Instr(op, [x]).Words() == [op, 3, x] && |Instr(op, [x]).Words()| == 3
  {
  }

  /** Opening a loop does not touch what was pushed before. */
  lemma OpenedAbove(a: Snap, p: Snap, z: Snap, o: Snap)
    requires Pushed(a, p, a.pc) && Opened(p, z) && o == a.(nexts := a.nexts + [a.pc], breaks := a.breaks + [0])
    ensures Pushed(o, z, o.pc) && Opened(a, o)
  {
  }

  lemma SwitchFits(mem: seq<int>, es: seq<int>, m: int, t: int)
    requires Listing(mem, es, m, t)
    ensures 0 <= m && m + 6 <= t <= |mem|
  {
  }

  lemma SwitchUnfolded(s: Stmt, depth: nat)
    requires s.Switch?
    ensures Size(s) == SimpleSize(s.value) + 6 + ArmsSize(s.arms) + Cases(s.arms) + 2
    ensures Short(s) ==>
              && ShortCode(s.value)
              && forall i :: 0 <= i < |s.arms| ==> HeadSize(s.arms[i]) <= MARGIN && Short(s.arms[i].body)
    ensures Legal(s, depth) <==> forall i :: 0 <= i < |s.arms| ==> Legal(s.arms[i].body, depth)
    ensures Cases(s.arms) <= |s.arms| && ArmsSize(s.arms) >= 0
  {
    CasesFew(s.arms);
  }

  lemma {:induction false} CasesFew(arms: seq<Arm>)
    ensures Cases(arms) <= |arms|
  {
    if arms != [] {
      CasesFew(arms[1..]);
    }
  }
}
