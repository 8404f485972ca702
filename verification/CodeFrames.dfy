/** Compiled code stays compiled code as long as its own cells keep their words. */
module CodeFrames {
  import opened Opcodes
  import opened Options
  import opened Code
  import opened Statements

  lemma {:induction false} FirstBreakWithin(s: Stmt, b: int)
    requires b >= 0
    ensures FirstBreak(s, b) == -1 || b <= FirstBreak(s, b) <= b + Size(s) - 3
    decreases s
  {
    match s
    case Then(first, second) =>
      FirstBreakWithin(first, b);
      FirstBreakWithin(second, b + Size(first));
    case If(cond, body) => FirstBreakWithin(body, b + SimpleSize(cond) + 3);
    case IfElse(cond, yes, no) =>
      FirstBreakWithin(yes, b + SimpleSize(cond) + 3);
      FirstBreakWithin(no, b + SimpleSize(cond) + 3 + Size(yes) + 3);
    case Switch(value, arms) => FirstBreakInWithin(arms, b + SimpleSize(value) + 6);
    case _ =>
  }

  lemma {:induction false} FirstBreakInWithin(arms: seq<Arm>, b: int)
    requires b >= 0
    ensures FirstBreakIn(arms, b) == -1 || b <= FirstBreakIn(arms, b) <= b + ArmsSize(arms) - 6
    decreases arms
  {
    if arms != [] {
      assert arms[0].body < arms[0];
      FirstBreakWithin(arms[0].body, b + HeadSize(arms[0]));
      FirstBreakInWithin(arms[1..], b + HeadSize(arms[0]) + Size(arms[0].body) + 3);
    }
  }

  /** A change of the memory, with one cell that may change anywhere, and of the target of `break`. */
  datatype Change = Change(before: seq<int>, after: seq<int>, hole: int, exit: int, exit': int)

  /** From lo up to hi the memory stays the same, except perhaps for the hole. */
  predicate Keeps(c: Change, lo: int, hi: int, hole: int) {
    AsOne(
      && |c.before| == |c.after|
      && forall i :: 0 <= i < |c.before| && lo <= i < hi && i != hole ==> c.after[i] == c.before[i])
  }

  /** The change does no harm to code from lo up to hi with its first `break` at x: the hole is elsewhere,
      or it is the argument of that `break`; and the target stays or there is no `break`. */
  predicate Harmless(c: Change, x: int, lo: int, hi: int) {
    AsOne(
      && Keeps(c, lo, hi, c.hole)
      && (c.hole < lo || c.hole >= hi || (0 <= c.exit == x && c.hole == x + 2))
      && (c.exit' == c.exit || x < 0))
  }

  /** Harm to a part would be harm to the whole. */
  lemma Part(c: Change, x: int, lo: int, hi: int, x': int, lo': int, hi': int)
    requires Harmless(c, x, lo, hi) && lo <= lo' && hi' <= hi
    requires x' == x || (x >= 0 && (x + 2 < lo' || x + 2 >= hi'))
    ensures Harmless(c, x', lo', hi')
  {
  }

  lemma AtKept(c: Change, lo: int, hi: int, b: int, ws: seq<int>)
    requires Keeps(c, lo, hi, c.hole) && (c.hole < b || c.hole >= b + |ws|)
    requires At(c.before, b, ws) && lo <= b && b + |ws| <= hi
    ensures At(c.after, b, ws)
  {
    assert c.after[b..b + |ws|] == c.before[b..b + |ws|];
  }

  lemma {:induction false} SimpleKept(c: Change, lo: int, hi: int, code: seq<Instr>, b: int)
    requires Keeps(c, lo, hi, c.hole) && (c.hole < b || c.hole >= b + SimpleSize(code))
    requires SimpleAt(c.before, code, b) && lo <= b && b + SimpleSize(code) <= hi
    ensures SimpleAt(c.after, code, b)
    decreases code
  {
    if code != [] {
      AtKept(c, lo, hi, b, code[0].Words());
      SimpleKept(c, lo, hi, code[1..], b + code[0].Length());
    }
  }

  lemma ConditionKept(c: Change, x: int, lo: int, hi: int, cond: seq<Instr>, b: int, target: int)
    requires Harmless(c, x, lo, hi) && (x < 0 || x >= b + SimpleSize(cond) + 3)
    requires ConditionAt(c.before, cond, b, target) && lo <= b && b + SimpleSize(cond) + 3 <= hi
    ensures ConditionAt(c.after, cond, b, target)
  {
    var m := b + SimpleSize(cond);
    SimpleKept(c, lo, hi, cond, b);
    AtKept(c, lo, hi, m, Branch(BIFF, m, target));
  }

  lemma GotoKept(c: Change, x: int, lo: int, hi: int, b: int, target: int)
    requires Harmless(c, x, lo, hi) && (x < 0 || x + 3 <= b || x >= b + 3)
    requires GotoAt(c.before, b, target) && lo <= b && b + 3 <= hi
    ensures GotoAt(c.after, b, target)
  {
    AtKept(c, lo, hi, b, Branch(GOTO, b, target));
  }

  lemma BreakKept(c: Change, b: int)
    requires BreakAt(c.before, b, c.exit) && Harmless(c, b, b, b + 3) && b >= 0
    ensures BreakAt(c.after, b, c.exit')
  {
    AtKept(c, b, b + 3, b, [GOTO, 3]);
  }

  lemma TableKept(c: Change, x: int, lo: int, hi: int, arms: seq<Arm>, m: int, table: int)
    requires Harmless(c, x, lo, hi) && lo <= table && hi == table + Cases(arms) + 2 && x + 3 <= table
    requires TableAt(c.before, arms, m, table)
    ensures TableAt(c.after, arms, m, table)
  {
    TableCells(c, table, hi, |CaseLocs(arms, m + 6)|);
  }

  lemma TableCells(c: Change, table: int, hi: int, n: nat)
    requires Keeps(c, table, hi, c.hole) && (c.hole < table || c.hole >= hi) && hi == table + n + 2
    requires 0 <= table && hi <= |c.before|
    ensures hi <= |c.after| && c.after[table] == c.before[table] && c.after[table + 1 + n] == c.before[table + 1 + n]
    ensures c.after[table..hi] == c.before[table..hi]
  {
  }

  lemma SelectorKept(c: Change, x: int, lo: int, hi: int, value: seq<Instr>, arms: seq<Arm>, b: int, table: int)
    requires SelectorAt(c.before, value, arms, b, table, hi) && Harmless(c, x, lo, hi) && lo <= b
    requires b + SimpleSize(value) + 6 <= table && hi == table + Cases(arms) + 2
    requires x < 0 || (b + SimpleSize(value) + 6 <= x && x + 3 <= table)
    ensures SelectorAt(c.after, value, arms, b, table, hi)
  {
    SwitchKept(c, x, lo, hi, value, b, table);
    TableKept(c, x, lo, hi, arms, b + SimpleSize(value), table);
  }

  lemma SwitchKept(c: Change, x: int, lo: int, hi: int, value: seq<Instr>, b: int, table: int)
    requires Harmless(c, x, lo, hi) && lo <= b && b + SimpleSize(value) + 6 <= hi
             && (x < 0 || b + SimpleSize(value) + 6 <= x)
    requires var m := b + SimpleSize(value);
             AsOne(SimpleAt(c.before, value, b) && At(c.before, m, [SWITCH, 3, table - m])
                   && GotoAt(c.before, m + 3, hi))
    ensures var m := b + SimpleSize(value);
            AsOne(SimpleAt(c.after, value, b) && At(c.after, m, [SWITCH, 3, table - m]) && GotoAt(c.after, m + 3, hi))
  {
    var m := b + SimpleSize(value);
    SimpleKept(c, lo, hi, value, b);
    AtKept(c, lo, hi, m, [SWITCH, 3, table - m]);
    GotoKept(c, x, lo, hi, m + 3, hi);
  }

  predicate Coded(mem: seq<int>, s: Stmt, b: int, loop: int, exit: int) {
    AsOne(CodeAt(mem, s, b, loop, exit) && b >= 0)
  }

  /** The code of a statement depends on its own cells only, and not on the argument of the first `break`;
      where there is no `break`, its target does not matter. */
  lemma {:induction false} Kept(c: Change, s: Stmt, b: int, loop: int)
    requires Coded(c.before, s, b, loop, c.exit)
    requires Harmless(c, FirstBreak(s, b), b, b + Size(s))
    ensures Coded(c.after, s, b, loop, c.exit')
    decreases s, 1
  {
    match s
    case Simple(code) => SimpleKept(c, b, b + Size(s), code, b);
    case Then(_, _) => KeptThen(c, s, b, loop);
    case If(_, _) => KeptIf(c, s, b, loop);
    case IfElse(_, _, _) => KeptIfElse(c, s, b, loop);
    case While(_, _) => KeptWhile(c, s, b, loop);
    case Break => BreakKept(c, b);
    case Next => AtKept(c, b, b + 3, b, Branch(GOTO, b, loop));
    case Switch(_, _) => KeptSwitch(c, s, b, loop);
  }

  lemma {:induction false} KeptThen(c: Change, s: Stmt, b: int, loop: int)
    requires s.Then? && Coded(c.before, s, b, loop, c.exit)
    requires Harmless(c, FirstBreak(s, b), b, b + Size(s))
    ensures Coded(c.after, s, b, loop, c.exit')
    decreases s, 0
  {
    var k, x := b + Size(s.first), FirstBreak(s, b);
    var x1, x2 := FirstBreak(s.first, b), FirstBreak(s.second, k);
    FirstBreakWithin(s.first, b);
    FirstBreakWithin(s.second, k);
    Part(c, x, b, b + Size(s), x1, b, k);
    Part(c, x, b, b + Size(s), x2, k, b + Size(s));
    Kept(c, s.first, b, loop);
    Kept(c, s.second, k, loop);
  }

  lemma {:induction false} KeptIf(c: Change, s: Stmt, b: int, loop: int)
    requires s.If? && Coded(c.before, s, b, loop, c.exit)
    requires Harmless(c, FirstBreak(s, b), b, b + Size(s))
    ensures Coded(c.after, s, b, loop, c.exit')
    decreases s, 0
  {
    var k, x := b + SimpleSize(s.cond) + 3, FirstBreak(s, b);
    FirstBreakWithin(s.body, k);
    ConditionKept(c, x, b, b + Size(s), s.cond, b, b + Size(s));
    Part(c, x, b, b + Size(s), x, k, b + Size(s));
    Kept(c, s.body, k, loop);
  }

  lemma {:induction false} KeptIfElse(c: Change, s: Stmt, b: int, loop: int)
    requires s.IfElse? && Coded(c.before, s, b, loop, c.exit)
    requires Harmless(c, FirstBreak(s, b), b, b + Size(s))
    ensures Coded(c.after, s, b, loop, c.exit')
    decreases s, 0
  {
    hide SimpleAt, At;
    var m, e, x := b + SimpleSize(s.cond) + 3, b + Size(s), FirstBreak(s, b);
    var k := m + Size(s.yes);
    var x1, x2 := FirstBreak(s.yes, m), FirstBreak(s.no, k + 3);
    FirstBreakWithin(s.yes, m);
    FirstBreakWithin(s.no, k + 3);
    ConditionKept(c, x, b, e, s.cond, b, k + 3);
    GotoKept(c, x, b, e, k, e);
    Part(c, x, b, e, x1, m, k);
    Part(c, x, b, e, x2, k + 3, e);
    Kept(c, s.yes, m, loop);
    Kept(c, s.no, k + 3, loop);
  }

  lemma {:induction false} KeptWhile(c: Change, s: Stmt, b: int, loop: int)
    requires s.While? && Coded(c.before, s, b, loop, c.exit)
    requires Harmless(c, -1, b, b + Size(s))
    ensures Coded(c.after, s, b, loop, c.exit')
    decreases s, 0
  {
    var m, e := b + SimpleSize(s.cond) + 3, b + Size(s);
    var k, x := m + Size(s.body), FirstBreak(s.body, m);
    FirstBreakWithin(s.body, m);
    ConditionKept(c, -1, b, e, s.cond, b, k + 3);
    GotoKept(c, -1, b, e, k, b);
    if x >= 0 { GotoKept(c, -1, b, e, x, k + 3); }
    var inner := Change(c.before, c.after, c.hole, x, x);
    assert Harmless(inner, x, m, k);
    Kept(inner, s.body, m, b);
  }

  lemma SwitchShape(mem: seq<int>, s: Stmt, b: int, loop: int, exit: int) returns (m: int, table: int, e: int, x: int)
    requires s.Switch? && Coded(mem, s, b, loop, exit)
    ensures m == b + SimpleSize(s.value) + 6 && table == m + ArmsSize(s.arms) && e == table + Cases(s.arms) + 2
    ensures e == b + Size(s) && x == FirstBreak(s, b) == FirstBreakIn(s.arms, m)
    ensures SelectorAt(mem, s.value, s.arms, b, table, e)
    ensures AsOne(ArmsAt(mem, s.arms, m, e, loop, exit) && b >= 0)
  {
    m := b + SimpleSize(s.value) + 6;
    table := m + ArmsSize(s.arms);
    e := b + Size(s);
    x := FirstBreak(s, b);
  }

  lemma SwitchCoded(mem: seq<int>, s: Stmt, b: int, m: int, table: int, e: int, loop: int, exit: int)
    requires s.Switch? && m == b + SimpleSize(s.value) + 6 && table == m + ArmsSize(s.arms)
             && e == table + Cases(s.arms) + 2
    requires SelectorAt(mem, s.value, s.arms, b, table, e)
    requires AsOne(ArmsAt(mem, s.arms, m, e, loop, exit) && b >= 0)
    ensures Coded(mem, s, b, loop, exit)
  {
  }

  lemma {:induction false} KeptSwitch(c: Change, s: Stmt, b: int, loop: int)
    requires s.Switch? && Coded(c.before, s, b, loop, c.exit)
    requires Harmless(c, FirstBreak(s, b), b, b + Size(s))
    ensures Coded(c.after, s, b, loop, c.exit')
    decreases s, 0
  {
    hide CodeAt, ArmsAt, At, SimpleAt, SimpleSize, Size, ArmsSize, FirstBreak, FirstBreakIn, TableAt;
    var m, table, e, x := SwitchShape(c.before, s, b, loop, c.exit);
    FirstBreakInWithin(s.arms, m);
    SelectorKept(c, x, b, e, s.value, s.arms, b, table);
    Part(c, x, b, e, x, m, table);
    KeptArms(c, s.arms, m, e, loop);
    SwitchCoded(c.after, s, b, m, table, e, loop, c.exit');
  }

  lemma {:induction false} KeptArms(c: Change, arms: seq<Arm>, b: int, end: int, loop: int)
    requires AsOne(ArmsAt(c.before, arms, b, end, loop, c.exit) && b >= 0)
    requires Harmless(c, FirstBreakIn(arms, b), b, b + ArmsSize(arms))
    ensures AsOne(ArmsAt(c.after, arms, b, end, loop, c.exit'))
    decreases arms, 0
  {
    hide CodeAt, Size, FirstBreak, ArmAt, HeadSize;
    if arms != [] {
      assert arms[0].body < arms[0];
      var k, e, x := b + HeadSize(arms[0]) + Size(arms[0].body) + 3, b + ArmsSize(arms), FirstBreakIn(arms, b);
      var x1, x2 := FirstBreak(arms[0].body, b + HeadSize(arms[0])), FirstBreakIn(arms[1..], k);
      FirstBreakWithin(arms[0].body, b + HeadSize(arms[0]));
      FirstBreakInWithin(arms[1..], k);
      Part(c, x, b, e, x1, b, k);
      Part(c, x, b, e, x2, k, e);
      KeptArm(c, arms[0], b, end, loop);
      KeptArms(c, arms[1..], k, end, loop);
    }
  }

  lemma {:induction false} KeptArm(c: Change, arm: Arm, b: int, end: int, loop: int)
    requires AsOne(ArmAt(c.before, arm, b, end, loop, c.exit) && b >= 0)
    requires Harmless(c, FirstBreak(arm.body, b + HeadSize(arm)), b, b + HeadSize(arm) + Size(arm.body) + 3)
    ensures AsOne(ArmAt(c.after, arm, b, end, loop, c.exit'))
    decreases arm, 0
  {
    hide CodeAt, Size, FirstBreak, At;
    var m, x := b + HeadSize(arm), FirstBreak(arm.body, b + HeadSize(arm));
    var k := m + Size(arm.body);
    FirstBreakWithin(arm.body, m);
    ArmEndsKept(c, x, b, k, Head(arm), end);
    Part(c, x, b, k + 3, x, m, k);
    Kept(c, arm.body, m, loop);
  }

  lemma ArmEndsKept(c: Change, x: int, b: int, k: int, head: seq<int>, end: int)
    requires Harmless(c, x, b, k + 3) && b + |head| <= k && (x < 0 || (b + |head| <= x && x + 3 <= k))
    requires AsOne(At(c.before, b, head) && GotoAt(c.before, k, end))
    ensures At(c.after, b, head) && GotoAt(c.after, k, end)
  {
    AtKept(c, b, k + 3, b, head);
    GotoKept(c, x, b, k + 3, k, end);
  }
}
