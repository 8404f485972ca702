/** How the compiled form of a statement comes about from its parts: code grows upwards in the stack array,
    and the places that are still to be filled in are kept on the control stack, which grows downwards in
    the same array. */
module Emission {
  import opened Opcodes
  import opened Options
  import opened Code
  import opened Statements
  import opened CodeFrames
  import opened JumpTables

  const MAX_LOOP: nat := 50

  // ---- The state as a value.

  /** The array, the next free place for code, the top of the control stack, and for every open loop the
      target of `next` and the place of the first `break` (0 as long as there is none). */
  datatype Snap = Snap(mem: seq<int>, pc: int, topcs: int, nexts: seq<int>, breaks: seq<int>)

  predicate Same(m1: seq<int>, m2: seq<int>, lo: int, hi: int) {
    AsOne(|m1| == |m2| && forall i :: 0 <= i < |m1| && lo <= i < hi ==> m2[i] == m1[i])
  }

  /** One instruction has been appended; the margin was free. */
  predicate Wrote(a: Snap, z: Snap, ws: seq<int>) {
    AsOne(
      && a.pc + MARGIN <= a.topcs && |ws| <= MARGIN
      && z == a.(mem := z.mem, pc := a.pc + |ws|)
      && At(z.mem, a.pc, ws) && Same(a.mem, z.mem, 0, a.pc) && Same(a.mem, z.mem, a.pc + |ws|, |a.mem|))
  }

  predicate Pushed(a: Snap, z: Snap, v: int) {
    AsOne(
      && 0 < a.topcs <= |a.mem|
      && z == a.(mem := a.mem[a.topcs - 1 := v], topcs := a.topcs - 1))
  }

  predicate Popped(a: Snap, z: Snap, v: int) {
    AsOne(
      && 0 <= a.topcs < |a.mem|
      && z == a.(topcs := a.topcs + 1) && v == a.mem[a.topcs])
  }

  /** The argument of the instruction at loc has been filled in. */
  predicate FilledIn(a: Snap, z: Snap, loc: int, v: int) {
    AsOne(
      0 <= loc + 2 < |a.mem| && z == a.(mem := a.mem[loc + 2 := v]))
  }

  /** Between a and z, n words of code have been appended, and the control stack is back where it was. */
  predicate Grown(a: Snap, z: Snap, n: int) {
    AsOne(
      && z == a.(mem := z.mem, pc := a.pc + n, breaks := z.breaks)
      && Same(a.mem, z.mem, 0, a.pc) && Same(a.mem, z.mem, a.topcs, |a.mem|))
  }

  /** A list of instructions has been compiled. */
  predicate Listed(a: Snap, z: Snap, code: seq<Instr>) {
    AsOne(
      Grown(a, z, SimpleSize(code)) && z.breaks == a.breaks && SimpleAt(z.mem, code, a.pc))
  }

  function Loop(a: Snap): int {
    if a.nexts == [] then -1 else a.nexts[|a.nexts| - 1]
  }

  function Exit(a: Snap): int {
    if a.breaks == [] || a.breaks[|a.breaks| - 1] == 0 then -1 else a.breaks[|a.breaks| - 1]
  }

  /** The places of the first breaks once there may be one at x. */
  function WithBreak(breaks: seq<int>, x: int): seq<int> {
    if breaks == [] || breaks[|breaks| - 1] != 0 || x < 0 then breaks else breaks[|breaks| - 1 := x]
  }

  /** A statement has been compiled: its code lies at the old place, all other code and the control stack
      are as before, and its first `break` is noted unless there was one before. */
  predicate Emitted(a: Snap, z: Snap, s: Stmt) {
    AsOne(
      && Grown(a, z, Size(s))
      && z.breaks == WithBreak(a.breaks, FirstBreak(s, a.pc))
      && Coded(z.mem, s, a.pc, Loop(z), Exit(z)))
  }

  /** No instruction is longer than the margin. */
  predicate Short(s: Stmt) {
    match s
    case Simple(code) => ShortCode(code)
    case Then(first, second) => Short(first) && Short(second)
    case If(cond, body) => ShortCode(cond) && Short(body)
    case IfElse(cond, yes, no) => ShortCode(cond) && Short(yes) && Short(no)
    case While(cond, body) => ShortCode(cond) && Short(body)
    case Break => true
    case Next => true
    case Switch(value, arms) =>
      ShortCode(value) && forall i :: 0 <= i < |arms| ==> HeadSize(arms[i]) <= MARGIN && Short(arms[i].body)
  }

  predicate ShortCode(code: seq<Instr>) {
    forall i :: 0 <= i < |code| ==> code[i].Length() <= MARGIN
  }

  /** Inside depth loops, the statement has every `break` and `next` in a loop and does not nest too deeply. */
  predicate Legal(s: Stmt, depth: nat) {
    match s
    case Simple(_) => true
    case Then(first, second) => Legal(first, depth) && Legal(second, depth)
    case If(_, body) => Legal(body, depth)
    case IfElse(_, yes, no) => Legal(yes, depth) && Legal(no, depth)
    case While(_, body) => depth < MAX_LOOP && Legal(body, depth + 1)
    case Break => depth > 0
    case Next => depth > 0
    case Switch(_, arms) => forall i :: 0 <= i < |arms| ==> Legal(arms[i].body, depth)
  }

  // ---- How the parts make up a statement.

  lemma SameTrans(m1: seq<int>, m2: seq<int>, m3: seq<int>, lo: int, hi: int)
    requires Same(m1, m2, lo, hi) && Same(m2, m3, lo, hi)
    ensures Same(m1, m3, lo, hi)
  {
  }

  /** Code stays where no word changes. */
  lemma CodeStays(m1: seq<int>, m2: seq<int>, s: Stmt, b: int, loop: int, exit: int, exit': int)
    requires Coded(m1, s, b, loop, exit) && Same(m1, m2, b, b + Size(s))
    requires exit' == exit || FirstBreak(s, b) < 0
    ensures Coded(m2, s, b, loop, exit')
  {
    Kept(Change(m1, m2, -1, exit, exit'), s, b, loop);
  }

  lemma ListStays(m1: seq<int>, m2: seq<int>, code: seq<Instr>, b: int)
    requires SimpleAt(m1, code, b) && Same(m1, m2, b, b + SimpleSize(code)) && b >= 0
    ensures SimpleAt(m2, code, b)
  {
    SimpleKept(Change(m1, m2, -1, -1, -1), b, b + SimpleSize(code), code, b);
  }

  lemma WordsStay(m1: seq<int>, m2: seq<int>, b: int, ws: seq<int>)
    requires At(m1, b, ws) && Same(m1, m2, b, b + |ws|)
    ensures At(m2, b, ws)
  {
    assert m2[b..b + |ws|] == m1[b..b + |ws|];
  }

  predicate Ready(a: Snap) {
    AsOne(a.pc >= 0 && |a.nexts| == |a.breaks| && (a.breaks != [] ==> a.pc > 0))
  }

  lemma GrownTrans(a: Snap, b: Snap, c: Snap, m: nat, n: nat)
    requires Grown(a, b, m) && Grown(b, c, n)
    ensures Grown(a, c, m + n) && Same(b.mem, c.mem, 0, a.pc + m)
  {
    SameTrans(a.mem, b.mem, c.mem, 0, a.pc);
    SameTrans(a.mem, b.mem, c.mem, a.topcs, |a.mem|);
  }

  lemma WroteIsGrown(a: Snap, z: Snap, ws: seq<int>)
    requires Wrote(a, z, ws)
    ensures Grown(a, z, |ws|)
  {
  }

  /** A value pushed before a piece of code and popped after it leaves no trace. */
  lemma Under(a: Snap, b: Snap, v: int, c: Snap, z: Snap, w: int, n: nat)
    requires Pushed(a, b, v) && Grown(b, c, n) && Popped(c, z, w) && a.pc < a.topcs
    ensures w == v && Grown(a, z, n) && z.mem == c.mem && z.breaks == c.breaks
  {
    assert c.mem[b.topcs] == b.mem[b.topcs];
  }

  lemma UnderStatement(a: Snap, b: Snap, v: int, c: Snap, z: Snap, w: int, s: Stmt)
    requires Pushed(a, b, v) && Emitted(b, c, s) && Popped(c, z, w) && a.pc < a.topcs
    ensures w == v && Emitted(a, z, s)
  {
    hide Coded, Same, WithBreak, Size, FirstBreak;
    Under(a, b, v, c, z, w, Size(s));
  }

  /** The exit that code has been compiled for stays, or it has no break. */
  lemma ExitStays(a: Snap, b: Snap, z: Snap, x: int, y: int)
    requires Ready(a) && (x == -1 || x >= a.pc) && b.nexts == a.nexts
    requires b.breaks == WithBreak(a.breaks, x) && z.breaks == WithBreak(b.breaks, y)
    ensures Exit(z) == Exit(b) || x < 0
    ensures z.breaks == WithBreak(a.breaks, if x >= 0 then x else y)
  {
  }

  lemma SimpleEmitted(a: Snap, z: Snap, s: Stmt)
    requires s.Simple? && Ready(a) && Listed(a, z, s.code)
    ensures Emitted(a, z, s)
  {
  }

  lemma ThenEmitted(a: Snap, b: Snap, z: Snap, s: Stmt)
    requires s.Then? && Ready(a) && Emitted(a, b, s.first) && Emitted(b, z, s.second)
    ensures Emitted(a, z, s)
  {
    hide Same, WithBreak, CodeAt, Exit;
    var x, y := FirstBreak(s.first, a.pc), FirstBreak(s.second, b.pc);
    FirstBreakWithin(s.first, a.pc);
    GrownTrans(a, b, z, Size(s.first), Size(s.second));
    ExitStays(a, b, z, x, y);
    SamePart(b.mem, z.mem, 0, b.pc, a.pc, b.pc);
    CodeStays(b.mem, z.mem, s.first, a.pc, Loop(z), Exit(b), Exit(z));
    ThenCoded(z.mem, s, a.pc, Loop(z), Exit(z));
  }

  lemma SamePart(m1: seq<int>, m2: seq<int>, lo: int, hi: int, lo': int, hi': int)
    requires Same(m1, m2, lo, hi) && (lo <= lo' || lo <= 0) && (hi' <= hi || |m1| <= hi)
    ensures Same(m1, m2, lo', hi')
  {
  }

  lemma ThenCoded(mem: seq<int>, s: Stmt, b: int, loop: int, exit: int)
    requires s.Then? && Coded(mem, s.first, b, loop, exit) && Coded(mem, s.second, b + Size(s.first), loop, exit)
    ensures Coded(mem, s, b, loop, exit)
  {
  }

  /** An expression and a BIFF whose argument is filled in at the end. */
  lemma ConditionFilled(a: Snap, b: Snap, c: Snap, z: Snap, cond: seq<Instr>, target: int)
    requires a.pc >= 0 && Listed(a, b, cond) && Wrote(b, c, [BIFF, 3, 0])
    requires Same(c.mem, z.mem, 0, b.pc + 2) && b.pc + 2 < |z.mem| && z.mem[b.pc + 2] == target - b.pc - 3
    ensures ConditionAt(z.mem, cond, a.pc, target)
  {
    var m := b.pc;
    hide SimpleAt, SimpleSize;
    SamePart(b.mem, c.mem, 0, m, a.pc, m);
    SamePart(c.mem, z.mem, 0, m + 2, a.pc, m);
    SameTrans(b.mem, c.mem, z.mem, a.pc, m);
    ListStays(b.mem, z.mem, cond, a.pc);
    WordAt(c.mem, m, [BIFF, 3, 0], 0);
    WordAt(c.mem, m, [BIFF, 3, 0], 1);
    assert z.mem[m] == c.mem[m] && z.mem[m + 1] == c.mem[m + 1];
    assert z.mem[m..m + 3] == [z.mem[m], z.mem[m + 1], z.mem[m + 2]];
  }

  /** A condition, a BIFF, and a block behind which the BIFF is to go. */
  lemma ConditionAndBlock(a: Snap, b: Snap, c: Snap, d: Snap, z: Snap, cond: seq<Instr>, n: nat)
    requires a.pc >= 0 && Listed(a, b, cond) && Wrote(b, c, [BIFF, 3, 0])
    requires Grown(c, d, n) && FilledIn(d, z, b.pc, d.pc - b.pc - 3)
    ensures Grown(a, z, SimpleSize(cond) + 3 + n) && c.pc == a.pc + SimpleSize(cond) + 3 && c.breaks == a.breaks
    ensures ConditionAt(z.mem, cond, a.pc, d.pc)
    ensures Same(d.mem, z.mem, c.pc, d.pc)
  {
    hide SimpleAt, At, Same, ConditionAt;
    var m := SimpleSize(cond);
    WroteIsGrown(b, c, [BIFF, 3, 0]);
    GrownTrans(a, b, c, m, 3);
    GrownTrans(a, c, d, m + 3, n);
    FilledInCells(a, c, d, z, b.pc, m + 3, n);
    ConditionFilled(a, b, c, z, cond, d.pc);
  }

  lemma IfEmitted(a: Snap, b: Snap, c: Snap, d: Snap, z: Snap, s: Stmt)
    requires s.If? && Ready(a) && Listed(a, b, s.cond) && Wrote(b, c, [BIFF, 3, 0])
    requires Emitted(c, d, s.body) && FilledIn(d, z, b.pc, d.pc - b.pc - 3)
    ensures Emitted(a, z, s)
  {
    hide SimpleAt, CodeAt, WithBreak, Exit, At, Same, Coded, ConditionAt;
    ConditionAndBlock(a, b, c, d, z, s.cond, Size(s.body));
    SameExit(d, z);
    CodeStays(d.mem, z.mem, s.body, c.pc, Loop(z), Exit(d), Exit(z));
    IfCoded(z.mem, s, a.pc, Loop(z), Exit(z));
  }

  lemma IfCoded(mem: seq<int>, s: Stmt, b: int, loop: int, exit: int)
    requires s.If? && ConditionAt(mem, s.cond, b, b + Size(s)) && b >= 0
    requires Coded(mem, s.body, b + SimpleSize(s.cond) + 3, loop, exit)
    ensures Coded(mem, s, b, loop, exit)
  {
  }

  /** Filling in the last word before c.pc, where the code between c and d begins. */
  lemma FilledInCells(a: Snap, c: Snap, d: Snap, z: Snap, loc: int, m: nat, n: nat)
    requires Grown(a, c, m) && Grown(c, d, n) && Grown(a, d, m + n) && FilledIn(d, z, loc, d.pc - loc - 3)
    requires a.pc <= loc && c.pc == loc + 3 <= c.topcs
    ensures Grown(a, z, m + n)
    ensures Same(c.mem, z.mem, 0, loc + 2) && z.mem[loc + 2] == d.pc - loc - 3
    ensures Same(d.mem, z.mem, c.pc, d.pc)
  {
  }

  lemma ConditionStays(m1: seq<int>, m2: seq<int>, cond: seq<Instr>, b: int, target: int)
    requires ConditionAt(m1, cond, b, target) && Same(m1, m2, b, b + SimpleSize(cond) + 3) && b >= 0
    ensures ConditionAt(m2, cond, b, target)
  {
    hide SimpleAt;
    var m := b + SimpleSize(cond);
    SamePart(m1, m2, b, m + 3, b, m);
    SamePart(m1, m2, b, m + 3, m, m + 3);
    ListStays(m1, m2, cond, b);
    WordsStay(m1, m2, m, Branch(BIFF, m, target));
  }

  /** A GOTO whose argument is filled in. */
  lemma GotoFilled(m1: seq<int>, m2: seq<int>, loc: int, target: int)
    requires At(m1, loc, [GOTO, 3, 0]) && Same(m1, m2, 0, loc + 2) && loc + 2 < |m2| && m2[loc + 2] == target - loc - 3
    ensures GotoAt(m2, loc, target)
  {
    WordAt(m1, loc, [GOTO, 3, 0], 0);
    WordAt(m1, loc, [GOTO, 3, 0], 1);
    assert m2[loc] == m1[loc] && m2[loc + 1] == m1[loc + 1];
    assert m2[loc..loc + 3] == [m2[loc], m2[loc + 1], m2[loc + 2]];
  }

  /** A statement and an instruction stay where no word changes. */
  lemma BlockStays(c: Snap, d: Snap, e: Snap, f: Snap, s: Stmt, ws: seq<int>)
    requires Emitted(c, d, s) && Wrote(d, e, ws) && Same(e.mem, f.mem, c.pc, e.pc) && c.pc >= 0
    requires f.nexts == d.nexts && f.breaks == d.breaks
    ensures Coded(f.mem, s, c.pc, Loop(f), Exit(f)) && At(f.mem, d.pc, ws)
  {
    hide CodeAt, WithBreak, Exit, At, Same, Coded;
    SamePart(d.mem, e.mem, 0, d.pc, c.pc, d.pc);
    SamePart(e.mem, f.mem, c.pc, e.pc, c.pc, d.pc);
    SamePart(e.mem, f.mem, c.pc, e.pc, d.pc, e.pc);
    SameTrans(d.mem, e.mem, f.mem, c.pc, d.pc);
    SameExit(d, f);
    CodeStays(d.mem, f.mem, s, c.pc, Loop(f), Exit(d), Exit(f));
    WordsStay(e.mem, f.mem, d.pc, ws);
  }

  /** The first half of an IF with ELSE. */
  predicate YesHalf(a: Snap, f: Snap, s: Stmt, start: int, k: int)
    requires s.IfElse?
  {
    AsOne(
      && start == a.pc + SimpleSize(s.cond) + 3 && k == start + Size(s.yes) && f.pc == k + 3
      && Grown(a, f, SimpleSize(s.cond) + 3 + Size(s.yes) + 3)
      && f.breaks == WithBreak(a.breaks, FirstBreak(s.yes, start))
      && ConditionAt(f.mem, s.cond, a.pc, k + 3)
      && Coded(f.mem, s.yes, start, Loop(f), Exit(f))
      && At(f.mem, k, [GOTO, 3, 0]))
  }

  lemma YesEmitted(a: Snap, b: Snap, c: Snap, d: Snap, e: Snap, f: Snap, s: Stmt)
    requires s.IfElse? && Ready(a) && Listed(a, b, s.cond) && Wrote(b, c, [BIFF, 3, 0])
    requires Emitted(c, d, s.yes) && Wrote(d, e, [GOTO, 3, 0])
    requires FilledIn(e, f, b.pc, e.pc - b.pc - 3)
    ensures YesHalf(a, f, s, c.pc, d.pc)
  {
    hide SimpleAt, CodeAt, WithBreak, Exit, At, Same, Coded, ConditionAt;
    var n, ws := Size(s.yes), [GOTO, 3, 0];
    WroteIsGrown(d, e, ws);
    GrownTrans(c, d, e, n, 3);
    ConditionAndBlock(a, b, c, e, f, s.cond, n + 3);
    BlockStays(c, d, e, f, s.yes, ws);
  }

  lemma IfElseEmitted(a: Snap, f: Snap, g: Snap, z: Snap, s: Stmt, start: int, k: int)
    requires s.IfElse? && Ready(a) && YesHalf(a, f, s, start, k) && Emitted(f, g, s.no)
    requires FilledIn(g, z, k, g.pc - k - 3) && f.pc <= f.topcs
    ensures Emitted(a, z, s)
  {
    hide SimpleAt, CodeAt, WithBreak, Exit, At, ConditionAt, Same, Coded, GotoAt;
    var m := SimpleSize(s.cond) + 3 + Size(s.yes) + 3;
    var x, y := FirstBreak(s.yes, start), FirstBreak(s.no, f.pc);
    FirstBreakWithin(s.yes, start);
    FirstBreakWithin(s.no, f.pc);
    GrownTrans(a, f, g, m, Size(s.no));
    FilledInCells(a, f, g, z, k, m, Size(s.no));
    ExitStays(a, f, g, x, y);
    SamePart(f.mem, z.mem, 0, k + 2, a.pc, start);
    SamePart(f.mem, z.mem, 0, k + 2, start, k);
    ConditionStays(f.mem, z.mem, s.cond, a.pc, k + 3);
    CodeStays(f.mem, z.mem, s.yes, start, Loop(z), Exit(f), Exit(g));
    GotoFilled(f.mem, z.mem, k, g.pc);
    CodeStays(g.mem, z.mem, s.no, f.pc, Loop(z), Exit(g), Exit(g));
    SameExit(g, z);
    IfElseCoded(z.mem, s, a.pc, start, k, Loop(z), Exit(z));
  }

  lemma SameExit(g: Snap, z: Snap)
    requires g.breaks == z.breaks
    ensures Exit(g) == Exit(z)
  {
  }

  lemma IfElseCoded(mem: seq<int>, s: Stmt, b: int, start: int, k: int, loop: int, exit: int)
    requires s.IfElse? && b >= 0 && start == b + SimpleSize(s.cond) + 3 && k == start + Size(s.yes)
    requires ConditionAt(mem, s.cond, b, k + 3) && GotoAt(mem, k, b + Size(s))
    requires Coded(mem, s.yes, start, loop, exit) && Coded(mem, s.no, k + 3, loop, exit)
    ensures Coded(mem, s, b, loop, exit)
  {
  }

  lemma IsGoto(mem: seq<int>, b: int, target: int)
    requires At(mem, b, Branch(GOTO, b, target))
    ensures GotoAt(mem, b, target)
  {
  }

  // ---- Loops.

  /** A loop has been opened, with its start at pc. */
  predicate Opened(a: Snap, z: Snap) {
    AsOne(
      z == a.(nexts := a.nexts + [a.pc], breaks := a.breaks + [0]))
  }

  /** The innermost loop has been closed: its first `break` goes to pc. */
  predicate Closed(a: Snap, z: Snap) {
    AsOne(
      && a.breaks != [] && |a.nexts| == |a.breaks|
      && var x := a.breaks[|a.breaks| - 1];
         (x != 0 ==> 0 <= x + 2 < |a.mem|)
         && z == a.(nexts := a.nexts[..|a.nexts| - 1], breaks := a.breaks[..|a.breaks| - 1],
                    mem := if x != 0 then a.mem[x + 2 := a.pc - x - 3] else a.mem))
  }

  /** The condition and the body of a loop. */
  predicate BodyHalf(o: Snap, f: Snap, s: Stmt, start: int, k: int)
    requires s.While?
  {
    AsOne(
      && start == o.pc + SimpleSize(s.cond) + 3 && k == start + Size(s.body) && f.pc == k + 3
      && Grown(o, f, SimpleSize(s.cond) + 3 + Size(s.body) + 3)
      && f.breaks == WithBreak(o.breaks, FirstBreak(s.body, start))
      && ConditionAt(f.mem, s.cond, o.pc, k + 3)
      && Coded(f.mem, s.body, start, Loop(f), Exit(f))
      && GotoAt(f.mem, k, o.pc))
  }

  lemma BodyEmitted(a: Snap, b: Snap, c: Snap, d: Snap, e: Snap, f: Snap, s: Stmt)
    requires s.While? && a.pc >= 0 && Listed(a, b, s.cond) && Wrote(b, c, [BIFF, 3, 0])
    requires Emitted(c, d, s.body) && Wrote(d, e, Branch(GOTO, d.pc, a.pc))
    requires FilledIn(e, f, b.pc, e.pc - b.pc - 3)
    ensures BodyHalf(a, f, s, c.pc, d.pc)
  {
    hide SimpleAt, CodeAt, WithBreak, Exit, At, Same, Coded, ConditionAt, GotoAt;
    var n, ws := Size(s.body), Branch(GOTO, d.pc, a.pc);
    WroteIsGrown(d, e, ws);
    GrownTrans(c, d, e, n, 3);
    ConditionAndBlock(a, b, c, e, f, s.cond, n + 3);
    BlockStays(c, d, e, f, s.body, ws);
    IsGoto(f.mem, d.pc, a.pc);
  }

  /** A loop, from its opening to its closing. */
  lemma WhileEmitted(a: Snap, o: Snap, f: Snap, z: Snap, s: Stmt, start: int, k: int)
    requires s.While? && Ready(a) && Opened(a, o) && BodyHalf(o, f, s, start, k) && Closed(f, z)
    requires f.pc <= f.topcs
    ensures Emitted(a, z, s)
  {
    hide SimpleAt, CodeAt, At, ConditionAt, GotoAt, Coded, FirstBreak, Size;
    hide Opened, Closed, Grown, Same, WithBreak, Loop, Exit;
    var x := FirstBreak(s.body, start);
    LoopEnds(a, o, f, z, s, start, k);
    LoopGrown(a, o, f, z, s, start, k);
    if x >= 0 {
      LoopClosed(Change(f.mem, z.mem, x + 2, x, x), s, o.pc, start, k, x);
    } else {
      WhileCoded(z.mem, s, a.pc, start, k, -1, -1);
    }
    WhileAnyExit(z.mem, s, a.pc, -1, -1, Loop(z), Exit(z));
  }

  /** Where the loop begins and its first `break` are known when it is closed. */
  lemma LoopEnds(a: Snap, o: Snap, f: Snap, z: Snap, s: Stmt, start: int, k: int)
    requires s.While? && Ready(a) && Opened(a, o) && BodyHalf(o, f, s, start, k) && Closed(f, z)
    ensures var x := FirstBreak(s.body, start);
            && o.pc == a.pc == Loop(f) && x == Exit(f) && (x < 0 ==> x == -1 && z.mem == f.mem)
            && (x >= 0 ==> x + 2 < |f.mem| && z.mem == f.mem[x + 2 := f.pc - x - 3])
  {
    hide SimpleAt, CodeAt, At, ConditionAt, GotoAt, Coded, FirstBreak, Size, Same;
    var x := FirstBreak(s.body, start);
    FirstBreakWithin(s.body, start);
    assert o.breaks[|o.breaks| - 1] == 0 && |f.breaks| == |o.breaks| && |f.nexts| == |o.nexts|;
    assert f.breaks[|f.breaks| - 1] == if x < 0 then 0 else x;
  }

  lemma LoopGrown(a: Snap, o: Snap, f: Snap, z: Snap, s: Stmt, start: int, k: int)
    requires s.While? && Ready(a) && Opened(a, o) && BodyHalf(o, f, s, start, k) && Closed(f, z)
    requires f.pc <= f.topcs
    ensures Grown(a, z, Size(s)) && z.breaks == WithBreak(a.breaks, FirstBreak(s, a.pc))
  {
    hide SimpleAt, CodeAt, At, ConditionAt, GotoAt, Coded, Exit, Loop;
    FirstBreakWithin(s.body, start);
    assert z.nexts == a.nexts && z.breaks == a.breaks;
  }

  lemma LoopClosed(c: Change, s: Stmt, b: int, start: int, k: int, x: int)
    requires s.While? && start == b + SimpleSize(s.cond) + 3 && k == start + Size(s.body) && b >= 0
    requires x == FirstBreak(s.body, start) >= 0 && c.hole == x + 2 && c.exit == c.exit' == x && x + 2 < |c.before|
    requires c.after == c.before[x + 2 := k + 3 - x - 3]
    requires ConditionAt(c.before, s.cond, b, k + 3) && Coded(c.before, s.body, start, b, x) && GotoAt(c.before, k, b)
    ensures Coded(c.after, s, b, -1, -1)
  {
    hide SimpleAt, CodeAt, At;
    FirstBreakWithin(s.body, start);
    Kept(c, s.body, start, b);
    ConditionStays(c.before, c.after, s.cond, b, k + 3);
    WordsStay(c.before, c.after, k, Branch(GOTO, k, b));
    BreakIsGoto(c.after, s.body, start, b, x, k + 3);
    WhileCoded(c.after, s, b, start, k, -1, -1);
  }

  lemma WhileCoded(mem: seq<int>, s: Stmt, b: int, start: int, k: int, loop: int, exit: int)
    requires s.While? && b >= 0 && start == b + SimpleSize(s.cond) + 3 && k == start + Size(s.body)
    requires ConditionAt(mem, s.cond, b, k + 3) && GotoAt(mem, k, b)
    requires var x := FirstBreak(s.body, start);
             Coded(mem, s.body, start, b, x) && (x >= 0 ==> GotoAt(mem, x, k + 3))
    ensures Coded(mem, s, b, loop, exit)
  {
  }

  /** Where a loop stands does not depend on the loop around it. */
  lemma WhileAnyExit(mem: seq<int>, s: Stmt, b: int, loop: int, exit: int, loop': int, exit': int)
    requires s.While? && Coded(mem, s, b, loop, exit)
    ensures Coded(mem, s, b, loop', exit')
  {
  }

  /** The first `break` is a GOTO. */
  lemma {:induction false} BreakIsGoto(mem: seq<int>, s: Stmt, b: int, loop: int, x: int, target: int)
    requires Coded(mem, s, b, loop, x) && x == FirstBreak(s, b) >= 0
    requires 0 <= x + 2 < |mem| && mem[x + 2] == target - x - 3
    ensures GotoAt(mem, x, target)
    decreases s
  {
    hide SimpleAt, TableAt, SimpleSize, Size, ArmsSize;
    match s
    case Then(first, second) =>
      if FirstBreak(first, b) >= 0 { BreakIsGoto(mem, first, b, loop, x, target); }
      else { BreakIsGoto(mem, second, b + Size(first), loop, x, target); }
    case If(cond, body) => BreakIsGoto(mem, body, b + SimpleSize(cond) + 3, loop, x, target);
    case IfElse(cond, yes, no) =>
      var m := b + SimpleSize(cond) + 3;
      if FirstBreak(yes, m) >= 0 { BreakIsGoto(mem, yes, m, loop, x, target); }
      else { BreakIsGoto(mem, no, m + Size(yes) + 3, loop, x, target); }
    case Break =>
      WordAt(mem, b, [GOTO, 3], 0);
      WordAt(mem, b, [GOTO, 3], 1);
      assert mem[b..b + 3] == [mem[b], mem[b + 1], mem[b + 2]];
    case Switch(value, arms) => BreakIsGotoIn(mem, arms, b + SimpleSize(value) + 6, b + Size(s), loop, x, target);
    case _ =>
  }

  lemma {:induction false} BreakIsGotoIn(mem: seq<int>, arms: seq<Arm>, b: int, end: int, loop: int, x: int,
                                         target: int)
    requires AsOne(ArmsAt(mem, arms, b, end, loop, x) && b >= 0) && x == FirstBreakIn(arms, b) >= 0
    requires 0 <= x + 2 < |mem| && mem[x + 2] == target - x - 3
    ensures GotoAt(mem, x, target)
    decreases arms
  {
    hide Size, HeadSize, CodeAt, GotoAt, At, Head, FirstBreak;
    assert arms[0].body < arms[0];
    if FirstBreak(arms[0].body, b + HeadSize(arms[0])) >= 0 {
      ArmIsCoded(mem, arms[0], b, end, loop, x);
      BreakIsGoto(mem, arms[0].body, b + HeadSize(arms[0]), loop, x, target);
    } else {
      BreakIsGotoIn(mem, arms[1..], b + HeadSize(arms[0]) + Size(arms[0].body) + 3, end, loop, x, target);
    }
  }

  lemma ArmIsCoded(mem: seq<int>, arm: Arm, b: int, end: int, loop: int, exit: int)
    requires ArmAt(mem, arm, b, end, loop, exit) && b >= 0
    ensures Coded(mem, arm.body, b + HeadSize(arm), loop, exit)
  {
    hide CodeAt, GotoAt, At;
  }

  lemma NextEmitted(a: Snap, z: Snap)
    requires Ready(a) && a.nexts != [] && Wrote(a, z, Branch(GOTO, a.pc, Loop(a)))
    ensures Emitted(a, z, Next)
  {
    WroteIsGrown(a, z, Branch(GOTO, a.pc, Loop(a)));
  }

  /** The first `break` of a loop. */
  lemma BreakNoted(a: Snap, b: Snap, z: Snap)
    requires Ready(a) && a.breaks != [] && a.breaks[|a.breaks| - 1] == 0
             && b == a.(breaks := a.breaks[|a.breaks| - 1 := a.pc])
    requires Wrote(b, z, [GOTO, 3, 0])
    ensures Emitted(a, z, Break)
  {
    WroteIsGrown(b, z, [GOTO, 3, 0]);
    FirstTwo(z.mem, a.pc, [GOTO, 3, 0]);
  }

  lemma FirstTwo(mem: seq<int>, b: int, ws: seq<int>)
    requires At(mem, b, ws) && |ws| >= 2
    ensures At(mem, b, [ws[0], ws[1]])
  {
    assert mem[b..b + |ws|][..2] == mem[b..b + 2] && ws[..2] == [ws[0], ws[1]];
  }

  /** A later `break` of a loop. */
  lemma BreakEmitted(a: Snap, z: Snap)
    requires Ready(a) && a.breaks != [] && a.breaks[|a.breaks| - 1] != 0
    requires Wrote(a, z, Branch(GOTO, a.pc, Exit(a)))
    ensures Emitted(a, z, Break)
  {
    var ws := Branch(GOTO, a.pc, Exit(a));
    WroteIsGrown(a, z, ws);
    WordAt(z.mem, a.pc, ws, 2);
    FirstTwo(z.mem, a.pc, ws);
  }

  // ---- Switches.

  /** The blocks of a SWITCH have been compiled, their places are on the control stack. */
  predicate ArmsEmitted(a: Snap, z: Snap, arms: seq<Arm>) {
    AsOne(
      && ArmsGrown(a, z, ArmsSize(arms), |arms|)
      && z.breaks == WithBreak(a.breaks, FirstBreakIn(arms, a.pc))
      && At(z.mem, z.topcs, Entries(arms, a.pc))
      && ArmsOpen(z.mem, arms, a.pc, Loop(z), Exit(z)))
  }

  predicate ArmsGrown(a: Snap, z: Snap, n: int, arms: int) {
    AsOne(
      && z == a.(mem := z.mem, pc := a.pc + n, breaks := z.breaks, topcs := a.topcs - 2 * arms)
      && Same(a.mem, z.mem, 0, a.pc) && Same(a.mem, z.mem, a.topcs, |a.mem|))
  }

  /** A single block. */
  predicate ArmEmitted(a: Snap, z: Snap, arm: Arm) {
    AsOne(
      && ArmsGrown(a, z, HeadSize(arm) + Size(arm.body) + 3, 1)
      && z.breaks == WithBreak(a.breaks, FirstBreak(arm.body, a.pc + HeadSize(arm)))
      && At(z.mem, z.topcs, [z.pc - 3, a.pc])
      && ArmOpen(z.mem, arm, a.pc, Loop(z), Exit(z)))
  }

  /** The CASE or DEFAULT, its place, the statements, the GOTO, and its place. */
  lemma ArmFromParts(a: Snap, b: Snap, c: Snap, d: Snap, e: Snap, z: Snap, arm: Arm)
    requires Ready(a) && Wrote(a, b, Head(arm)) && Pushed(b, c, a.pc) && Emitted(c, d, arm.body)
    requires Wrote(d, e, [GOTO, 3, 0]) && Pushed(e, z, d.pc)
    ensures ArmEmitted(a, z, arm)
  {
    hide CodeAt, Exit, WithBreak, Size, HeadSize, Head, FirstBreak, SimpleAt, Coded, Same, At;
    ArmCells(a, b, c, d, e, z, arm);
    WordsStay(b.mem, z.mem, a.pc, Head(arm));
    SameExit(d, z);
    CodeStays(d.mem, z.mem, arm.body, c.pc, Loop(z), Exit(d), Exit(z));
    WordsStay(e.mem, z.mem, d.pc, [GOTO, 3, 0]);
  }

  /** Where the words of a block stay the same, and what it leaves on the control stack. */
  lemma ArmCells(a: Snap, b: Snap, c: Snap, d: Snap, e: Snap, z: Snap, arm: Arm)
    requires Ready(a) && Wrote(a, b, Head(arm)) && Pushed(b, c, a.pc) && Emitted(c, d, arm.body)
    requires Wrote(d, e, [GOTO, 3, 0]) && Pushed(e, z, d.pc)
    ensures Same(b.mem, z.mem, a.pc, b.pc) && Same(d.mem, z.mem, c.pc, d.pc) && Same(e.mem, z.mem, d.pc, e.pc)
    ensures Same(a.mem, z.mem, 0, a.pc) && Same(a.mem, z.mem, a.topcs, |a.mem|)
    ensures At(z.mem, z.topcs, [d.pc, a.pc])
  {
    hide Coded, WithBreak, Size, FirstBreak, Head;
    assert z.mem[z.topcs] == d.pc && z.mem[z.topcs + 1] == c.mem[c.topcs] == a.pc;
    assert z.mem[z.topcs..z.topcs + 2] == [d.pc, a.pc];
  }

  lemma NoArmsEmitted(a: Snap)
    requires Ready(a) && 0 <= a.topcs <= |a.mem|
    ensures ArmsEmitted(a, a, [])
  {
  }

  lemma ArmsFromArm(a: Snap, b: Snap, z: Snap, arms: seq<Arm>)
    requires Ready(a) && arms != [] && ArmEmitted(a, b, arms[0]) && ArmsEmitted(b, z, arms[1..])
    requires b.topcs >= 0
    ensures ArmsEmitted(a, z, arms)
  {
    hide CodeAt, Exit, WithBreak, Size, HeadSize, FirstBreak, FirstBreakIn, ArmOpen, Same, At, Entries;
    var k := a.pc + HeadSize(arms[0]);
    var x, y := FirstBreak(arms[0].body, k), FirstBreakIn(arms[1..], b.pc);
    FirstBreakWithin(arms[0].body, k);
    ArmsGrownTrans(a, b, z, HeadSize(arms[0]) + Size(arms[0].body) + 3, ArmsSize(arms[1..]), |arms| - 1);
    ExitStays(a, b, z, x, y);
    ArmOpenStays(b, z, arms[0], a.pc);
    EntriesStack(b, z, arms, a.pc);
    FirstBreakInCons(arms, a.pc);
    ArmsOpenCons(z.mem, arms, a.pc, Loop(z), Exit(z));
  }

  lemma ArmsOpenCons(mem: seq<int>, arms: seq<Arm>, b: int, loop: int, exit: int)
    requires arms != [] && ArmOpen(mem, arms[0], b, loop, exit)
    requires ArmsOpen(mem, arms[1..], b + HeadSize(arms[0]) + Size(arms[0].body) + 3, loop, exit)
    ensures ArmsOpen(mem, arms, b, loop, exit)
  {
  }

  lemma FirstBreakInCons(arms: seq<Arm>, b: int)
    requires arms != []
    ensures var x := FirstBreak(arms[0].body, b + HeadSize(arms[0]));
            FirstBreakIn(arms, b)
            == if x >= 0 then x else FirstBreakIn(arms[1..], b + HeadSize(arms[0]) + Size(arms[0].body) + 3)
  {
  }

  lemma ArmsGrownTrans(a: Snap, b: Snap, z: Snap, m: int, n: int, arms: int)
    requires ArmsGrown(a, b, m, 1) && ArmsGrown(b, z, n, arms) && m >= 0 && arms >= 0
    ensures ArmsGrown(a, z, m + n, arms + 1) && Same(b.mem, z.mem, 0, a.pc + m) && Same(b.mem, z.mem, b.topcs, |b.mem|)
  {
  }

  lemma ArmOpenStays(b: Snap, z: Snap, arm: Arm, at: int)
    requires ArmOpen(b.mem, arm, at, Loop(b), Exit(b)) && Same(b.mem, z.mem, 0, at + HeadSize(arm) + Size(arm.body) + 3)
    requires z.nexts == b.nexts && at >= 0
    requires Exit(z) == Exit(b) || FirstBreak(arm.body, at + HeadSize(arm)) < 0
    ensures ArmOpen(z.mem, arm, at, Loop(z), Exit(z))
  {
    hide CodeAt, Exit, Size, HeadSize, FirstBreak;
    var start := at + HeadSize(arm);
    WordsStay(b.mem, z.mem, at, Head(arm));
    CodeStays(b.mem, z.mem, arm.body, start, Loop(z), Exit(b), Exit(z));
    WordsStay(b.mem, z.mem, start + Size(arm.body), [GOTO, 3, 0]);
  }

  lemma EntriesStack(b: Snap, z: Snap, arms: seq<Arm>, at: int)
    requires arms != [] && z.topcs == b.topcs - 2 * (|arms| - 1) && Same(b.mem, z.mem, b.topcs, |b.mem|)
    requires b.pc == at + HeadSize(arms[0]) + Size(arms[0].body) + 3
    requires At(b.mem, b.topcs, [b.pc - 3, at]) && At(z.mem, z.topcs, Entries(arms[1..], b.pc))
    ensures At(z.mem, z.topcs, Entries(arms, at))
  {
    hide At, Size, HeadSize;
    var es := Entries(arms[1..], b.pc);
    WordsStay(b.mem, z.mem, b.topcs, [b.pc - 3, at]);
    AtJoin(z.mem, z.topcs, es, [b.pc - 3, at]);
  }

  lemma AtJoin(mem: seq<int>, b: int, ws: seq<int>, more: seq<int>)
    requires At(mem, b, ws) && At(mem, b + |ws|, more)
    ensures At(mem, b, ws + more)
  {
    assert mem[b..b + |ws| + |more|] == mem[b..b + |ws|] + mem[b + |ws|..b + |ws| + |more|];
  }

  /** The head of a SWITCH: its value, the SWITCH itself, whose place is on the control stack, and the GOTO
      behind it. */
  predicate SwitchBegun(a: Snap, e: Snap, s: Stmt, m: int)
    requires s.Switch?
  {
    AsOne(
      && m == a.pc + SimpleSize(s.value)
      && e == a.(mem := e.mem, pc := m + 6, topcs := a.topcs - 1)
      && Same(a.mem, e.mem, 0, a.pc) && Same(a.mem, e.mem, a.topcs, |a.mem|)
      && SimpleAt(e.mem, s.value, a.pc) && At(e.mem, m, [SWITCH, 3]) && At(e.mem, m + 3, [GOTO, 3, 0])
      && 0 <= e.topcs < |e.mem| && e.mem[e.topcs] == m)
  }

  lemma SwitchHead(a: Snap, b: Snap, c: Snap, d: Snap, e: Snap, s: Stmt, x: int)
    requires s.Switch? && Ready(a) && Listed(a, b, s.value) && Wrote(b, c, [SWITCH, 3, x]) && Pushed(c, d, b.pc)
    requires Wrote(d, e, [GOTO, 3, 0])
    ensures SwitchBegun(a, e, s, b.pc)
  {
    hide SimpleAt, SimpleSize;
    assert Same(b.mem, e.mem, 0, b.pc) && Same(c.mem, e.mem, 0, c.pc);
    ListStays(b.mem, e.mem, s.value, a.pc);
    WordsStay(c.mem, e.mem, b.pc, [SWITCH, 3, x]);
    assert e.mem[b.pc..b.pc + 2] == e.mem[b.pc..b.pc + 3][..2] == [SWITCH, 3];
  }

  /** What the control stack says of the SWITCH being compiled. */
  lemma SwitchListing(a: Snap, e: Snap, f: Snap, s: Stmt, m: int)
    requires s.Switch? && Ready(a) && SwitchBegun(a, e, s, m) && ArmsEmitted(e, f, s.arms) && f.pc <= f.topcs
    ensures Listing(f.mem, Entries(s.arms, e.pc), m, f.pc)
    ensures At(f.mem, f.topcs, Entries(s.arms, e.pc)) && f.topcs + 2 * |s.arms| == e.topcs && f.mem[e.topcs] == m
    ensures ArmsOpen(f.mem, s.arms, e.pc, Loop(f), Exit(f))
  {
    hide ArmsOpen, Apart, SimpleAt, Entries;
    EntriesApart(f.mem, s.arms, e.pc, Loop(f), Exit(f));
    WordAt(e.mem, m, [SWITCH, 3], 0);
  }

  predicate TableMade(f: Snap, z: Snap, es: seq<int>, m: int) {
    AsOne(
      z == f.(mem := Finished(f.mem, es, m, f.pc), pc := f.pc + |CaseList(f.mem, es)| + 2, topcs := f.topcs + |es| + 1))
  }

  /** A SWITCH, with its table. */
  lemma SwitchEmitted(a: Snap, e: Snap, f: Snap, z: Snap, s: Stmt, m: int)
    requires s.Switch? && Ready(a) && SwitchBegun(a, e, s, m) && ArmsEmitted(e, f, s.arms) && f.pc + 2 <= f.topcs
    requires Listing(f.mem, Entries(s.arms, e.pc), m, f.pc) && TableMade(f, z, Entries(s.arms, e.pc), m)
             && e.topcs < |f.mem|
    ensures Emitted(a, z, s)
  {
    hide ArmsOpen, Apart, SimpleAt, Entries, Finished, CodeAt, WithBreak, Exit, SimpleSize, TableAt, ArmsAt, At;
    hide CaseList, Listing;
    var es := Entries(s.arms, e.pc);
    EntriesMean(f.mem, s.arms, e.pc, Loop(f), Exit(f));
    SwitchCells(a, e, f, z, es, m);
    SelectorMade(a, e, f, z, s, es, m);
    FinishedGotos(f.mem, es, m, f.pc);
    ArmsClosed(f.mem, z.mem, s.arms, e.pc, z.pc, Loop(f), Exit(f));
    SameExit(f, z);
    SwitchCoded(z.mem, s, a.pc, e.pc, f.pc, z.pc, Loop(z), Exit(z));
  }

  lemma SwitchCells(a: Snap, e: Snap, f: Snap, z: Snap, es: seq<int>, m: int)
    requires Listing(f.mem, es, m, f.pc) && TableMade(f, z, es, m) && f.pc + 2 <= f.topcs
    requires a.pc <= m && e.pc == m + 6 <= f.pc && f.topcs + |es| + 1 == a.topcs <= |a.mem|
    requires Same(a.mem, e.mem, 0, a.pc) && Same(a.mem, e.mem, a.topcs, |a.mem|)
    requires Same(e.mem, f.mem, 0, e.pc) && Same(e.mem, f.mem, a.topcs - 1, |a.mem|)
    ensures Same(a.mem, z.mem, 0, a.pc) && Same(a.mem, z.mem, a.topcs, |a.mem|)
    ensures forall c :: 0 <= c < m + 6 && c != m + 2 && c != m + 5 ==> z.mem[c] == e.mem[c]
    ensures z.mem[m + 2] == f.pc - m && z.mem[m + 5] == z.pc - m - 6
  {
    hide Finished;
    FinishedArguments(f.mem, es, m, f.pc);
    forall c | 0 <= c < |a.mem| && ((c < m + 6 && c != m + 2 && c != m + 5) || c >= a.topcs)
      ensures z.mem[c] == f.mem[c]
    {
      FinishedElsewhere(f.mem, es, m, f.pc, c);
    }
  }

  lemma SelectorMade(a: Snap, e: Snap, f: Snap, z: Snap, s: Stmt, es: seq<int>, m: int)
    requires s.Switch? && Ready(a) && SwitchBegun(a, e, s, m) && |z.mem| == |e.mem| && e.pc <= f.pc
    requires ArmsOpen(f.mem, s.arms, e.pc, Loop(f), Exit(f)) && f.pc == e.pc + ArmsSize(s.arms)
    requires Listing(f.mem, es, m, f.pc) && es == Entries(s.arms, e.pc) && z.pc <= |f.mem|
    requires z.mem == Finished(f.mem, es, m, f.pc) && z.pc == f.pc + Cases(s.arms) + 2
    requires forall c :: 0 <= c < m + 6 && c != m + 2 && c != m + 5 ==> z.mem[c] == e.mem[c]
    requires z.mem[m + 2] == f.pc - m && z.mem[m + 5] == z.pc - m - 6
    ensures SelectorAt(z.mem, s.value, s.arms, a.pc, f.pc, z.pc)
  {
    hide ArmsOpen, Entries, Finished, SimpleSize, SimpleAt, CaseList, Listing, TableAt;
    FinishedTable(f.mem, s.arms, m, f.pc, Loop(f), Exit(f));
    ListStays(e.mem, z.mem, s.value, a.pc);
    SwitchWords(e.mem, z.mem, m, f.pc, z.pc);
  }

  lemma SwitchWords(m1: seq<int>, m2: seq<int>, m: int, t: int, end: int)
    requires At(m1, m, [SWITCH, 3]) && At(m1, m + 3, [GOTO, 3, 0]) && |m2| == |m1|
    requires m2[m] == m1[m] && m2[m + 1] == m1[m + 1] && m2[m + 3] == m1[m + 3] && m2[m + 4] == m1[m + 4]
    requires m2[m + 2] == t - m && m2[m + 5] == end - m - 6
    ensures At(m2, m, [SWITCH, 3, t - m]) && GotoAt(m2, m + 3, end)
  {
    WordAt(m1, m, [SWITCH, 3], 0);
    WordAt(m1, m, [SWITCH, 3], 1);
    WordAt(m1, m + 3, [GOTO, 3, 0], 0);
    WordAt(m1, m + 3, [GOTO, 3, 0], 1);
    assert m2[m..m + 3] == [m2[m], m2[m + 1], m2[m + 2]];
    assert m2[m + 3..m + 6] == [m2[m + 3], m2[m + 4], m2[m + 5]];
  }

  // ---- What the compiler has to know on its way.

  /** The state without the top of the control stack. */
  function Lift(a: Snap): Snap {
    a.(topcs := a.topcs + 1)
  }

  /** The condition and the body of a loop, whose start lies on the control stack below them. */
  lemma WhileHead(o: Snap, a: Snap, b: Snap, c: Snap, d: Snap, cond: seq<Instr>, body: Stmt)
    requires Pushed(o, a, o.pc) && Listed(a, b, cond) && o.pc >= 0
    requires Wrote(b, c, [BIFF, 3, 0]) && Emitted(c, d, body)
    ensures Listed(o, Lift(b), cond) && Wrote(Lift(b), Lift(c), [BIFF, 3, 0]) && Emitted(Lift(c), Lift(d), body)
    ensures 0 <= d.topcs < |d.mem| && d.mem[d.topcs] == o.pc
  {
    hide SimpleAt, Coded, WithBreak, Size, FirstBreak, At;
    assert Same(a.mem, b.mem, a.topcs, |a.mem|) && Same(c.mem, d.mem, c.topcs, |c.mem|);
    assert b.mem[a.topcs] == o.pc && c.mem[a.topcs] == o.pc;
    SameExit(d, Lift(d));
  }

  lemma ClosingFits(o: Snap, f: Snap, s: Stmt, start: int, k: int)
    requires s.While? && BodyHalf(o, f, s, start, k) && o.pc >= 0 && o.breaks != [] && o.breaks[|o.breaks| - 1] == 0
    requires f.pc <= |f.mem|
    ensures |f.breaks| == |o.breaks| && f.pc == o.pc + Size(s)
    ensures var x := f.breaks[|f.breaks| - 1]; x != 0 ==> 0 <= x && x + 2 < |f.mem|
  {
    FirstBreakWithin(s.body, start);
  }

  // ---- Blocks.

  /** The top of the control stack is the place of an instruction. */
  predicate EntryThere(a: Snap) {
    && 0 <= a.topcs < |a.mem| && 0 <= a.mem[a.topcs] < |a.mem|
    && (a.mem[a.mem[a.topcs]] == GOTO ==> a.topcs + 1 < |a.mem| && 0 <= a.mem[a.topcs + 1] < |a.mem|)
  }

  /** That instruction is a SWITCH, or it is the GOTO that ends a block. */
  predicate BlockMayFollow(a: Snap)
    requires EntryThere(a)
  {
    var op := a.mem[a.mem[a.topcs]];
    op == SWITCH || (op == GOTO && a.mem[a.mem[a.topcs + 1]] in {CASE, DEFAULT})
  }

  lemma SwitchAccepts(a: Snap, e: Snap, s: Stmt, m: int)
    requires s.Switch? && Ready(a) && SwitchBegun(a, e, s, m)
    ensures EntryThere(e) && BlockMayFollow(e) && e.pc > 0
  {
    hide SimpleAt;
    WordAt(e.mem, m, [SWITCH, 3], 0);
  }

  lemma ArmAccepts(a: Snap, b: Snap, arm: Arm)
    requires ArmEmitted(a, b, arm) && a.pc >= 0
    ensures EntryThere(b) && BlockMayFollow(b)
    ensures b == a.(mem := b.mem, pc := a.pc + HeadSize(arm) + Size(arm.body) + 3, breaks := b.breaks,
                    topcs := a.topcs - 2)
  {
    hide ArmOpen, Size, HeadSize, WithBreak, FirstBreak, Same, Loop, Exit, Op;
    ArmOps(b.mem, arm, a.pc, Loop(b), Exit(b));
    WordAt(b.mem, b.topcs, [b.pc - 3, a.pc], 0);
    WordAt(b.mem, b.topcs, [b.pc - 3, a.pc], 1);
    OpIsWord(b.mem, b.pc - 3);
    OpIsWord(b.mem, a.pc);
  }

  lemma OpIsWord(mem: seq<int>, c: int)
    requires Op(mem, c) in {CASE, DEFAULT, GOTO}
    ensures 0 <= c < |mem| && mem[c] == Op(mem, c)
  {
  }

  lemma EntriesCases(f: Snap, arms: seq<Arm>, b: int)
    requires ArmsOpen(f.mem, arms, b, Loop(f), Exit(f))
    ensures |CaseList(f.mem, Entries(arms, b))| == Cases(arms)
  {
    EntriesMean(f.mem, arms, b, Loop(f), Exit(f));
  }
}
