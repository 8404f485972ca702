/** The jump table of a SWITCH, made from the entries that its blocks have left on the control stack. */
module JumpTables {
  import opened Opcodes
  import opened Options
  import opened Code
  import opened Statements
  import opened CodeFrames

  // ---- What becomes of the memory.

  function Set(mem: seq<int>, i: int, v: int): (r: seq<int>)
    ensures |r| == |mem|
  {
    if 0 <= i < |mem| then mem[i := v] else mem
  }

  function Op(mem: seq<int>, e: int): int {
    if 0 <= e < |mem| then mem[e] else -1
  }

  /** The CASEs among the entries, in the order in which they are popped. */
  function CaseList(mem: seq<int>, es: seq<int>): (cs: seq<int>)
    ensures |cs| <= |es|
  {
    if es == [] then []
    else CaseList(mem, es[..|es| - 1]) + if Op(mem, es[|es| - 1]) == CASE then [es[|es| - 1]] else []
  }

  /** The last DEFAULT to be popped, -1 if there is none. */
  function LastDefault(mem: seq<int>, es: seq<int>): int {
    if es == [] then -1
    else if Op(mem, es[|es| - 1]) == DEFAULT then es[|es| - 1]
    else LastDefault(mem, es[..|es| - 1])
  }

  /** An entry of the SWITCH at m, with the opcode op: a DEFAULT goes to t, a CASE to the next free slot, and
      a GOTO gets its target. */
  function Entered(mem: seq<int>, op: int, e: int, m: int, t: int, slot: int, end: int): (r: seq<int>)
    ensures |r| == |mem|
  {
    if op == DEFAULT then Set(mem, t, e - m)
    else if op == CASE then Set(mem, slot, e - m)
    else Set(mem, e + 2, end - e - 3)
  }

  /** The memory once the entries es of the SWITCH at m are popped: the table is at t, and what follows the
      table at end. */
  function Patched(mem: seq<int>, es: seq<int>, m: int, t: int, end: int): (r: seq<int>)
    ensures |r| == |mem|
  {
    if es == [] then Set(mem, t, 0)
    else
      var before, e := es[..|es| - 1], es[|es| - 1];
      var prev := Patched(mem, before, m, t, end);
      Entered(prev, Op(mem, e), e, m, t, t + 1 + |CaseList(mem, before)|, end)
  }

  /** The memory after the whole of it, with the terminator, the argument of the SWITCH and that of the GOTO
      behind it. */
  function Finished(mem: seq<int>, es: seq<int>, m: int, t: int): (r: seq<int>)
    ensures |r| == |mem|
  {
    var n := |CaseList(mem, es)|;
    var end := t + n + 2;
    Set(Set(Set(Patched(mem, es, m, t, end), t + 1 + n, 0), m + 2, t - m), m + 5, end - m - 6)
  }

  /** An entry between lo and hi, with the words of it that are read or written. */
  predicate EntryFits(mem: seq<int>, e: int, lo: int, hi: int) {
    lo <= e && Op(mem, e) in {CASE, DEFAULT, GOTO} && e + Width(mem, e) <= hi
  }

  function Width(mem: seq<int>, e: int): int {
    if Op(mem, e) == GOTO then 3 else 2
  }

  /** Entries between lo and hi, downwards, that do not overlap. */
  predicate Apart(mem: seq<int>, es: seq<int>, lo: int, hi: int) {
    && (forall p :: 0 <= p < |es| ==> EntryFits(mem, es[p], lo, hi))
    && (forall p, q :: 0 <= p < q < |es| ==> es[q] + Width(mem, es[q]) <= es[p])
  }

  /** The entries es belong to the SWITCH at m, with room for its table from t on; they lie apart. */
  predicate Listing(mem: seq<int>, es: seq<int>, m: int, t: int) {
    AsOne(
      && 0 <= m && m + 6 <= t <= |mem| && mem[m] == SWITCH
      && Apart(mem, es, m + 6, t))
  }

  lemma ListingPrefix(mem: seq<int>, es: seq<int>, n: nat, m: int, t: int)
    requires Listing(mem, es, m, t) && n <= |es|
    ensures Listing(mem, es[..n], m, t)
  {
  }

  /** A cell that is no argument of a popped GOTO and does not lie in the table keeps its word. */
  lemma {:induction false} PatchedElsewhere(mem: seq<int>, es: seq<int>, m: int, t: int, end: int, c: int)
    requires 0 <= c < |mem| && (c < t || c > t + |CaseList(mem, es)|)
    requires forall p :: 0 <= p < |es| && Op(mem, es[p]) !in {CASE, DEFAULT} ==> c != es[p] + 2
    ensures Patched(mem, es, m, t, end)[c] == mem[c]
    decreases es
  {
    if es != [] {
      var before, e := es[..|es| - 1], es[|es| - 1];
      assert forall p :: 0 <= p < |before| ==> before[p] == es[p];
      PatchedElsewhere(mem, before, m, t, end, c);
      assert Op(mem, es[|es| - 1]) !in {CASE, DEFAULT} ==> c != e + 2;
    }
  }

  lemma {:induction false} PatchedGoto(mem: seq<int>, es: seq<int>, m: int, t: int, end: int, p: nat)
    requires Listing(mem, es, m, t) && p < |es| && Op(mem, es[p]) == GOTO
    ensures Patched(mem, es, m, t, end)[es[p] + 2] == end - es[p] - 3
    decreases es
  {
    var before, e := es[..|es| - 1], es[|es| - 1];
    assert EntryFits(mem, es[p], m + 6, t);
    if p < |es| - 1 {
      ListingPrefix(mem, es, |es| - 1, m, t);
      assert before[p] == es[p];
      PatchedGoto(mem, before, m, t, end, p);
    }
  }

  lemma {:induction false} PatchedCases(mem: seq<int>, es: seq<int>, m: int, t: int, end: int, i: nat)
    requires Listing(mem, es, m, t) && i < |CaseList(mem, es)| && t + 1 + i < |mem|
    ensures Patched(mem, es, m, t, end)[t + 1 + i] == CaseList(mem, es)[i] - m
    decreases es
  {
    var before, e := es[..|es| - 1], es[|es| - 1];
    assert EntryFits(mem, es[|es| - 1], m + 6, t);
    if i < |CaseList(mem, before)| {
      ListingPrefix(mem, es, |es| - 1, m, t);
      PatchedCases(mem, before, m, t, end, i);
    }
  }

  lemma {:induction false} PatchedDefault(mem: seq<int>, es: seq<int>, m: int, t: int, end: int)
    requires Listing(mem, es, m, t) && t < |mem|
    ensures Patched(mem, es, m, t, end)[t] == if LastDefault(mem, es) < 0 then 0 else LastDefault(mem, es) - m
    decreases es
  {
    if es != [] {
      assert EntryFits(mem, es[|es| - 1], m + 6, t);
      ListingPrefix(mem, es, |es| - 1, m, t);
      PatchedDefault(mem, es[..|es| - 1], m, t, end);
    }
  }

  // ---- The blocks of a SWITCH.

  /** What the blocks from b on leave on the control stack, the top first: for each its last GOTO, then its
      CASE or DEFAULT. */
  function Entries(arms: seq<Arm>, b: int): (es: seq<int>)
    ensures |es| == 2 * |arms|
  {
    if arms == [] then []
    else
      var k := b + HeadSize(arms[0]) + Size(arms[0].body);
      Entries(arms[1..], k + 3) + [k, b]
  }

  /** The blocks are compiled, but their last GOTOs do not go anywhere yet. */
  predicate ArmsOpen(mem: seq<int>, arms: seq<Arm>, b: int, loop: int, exit: int) {
    arms == [] ||
    (&& ArmOpen(mem, arms[0], b, loop, exit)
     && ArmsOpen(mem, arms[1..], b + HeadSize(arms[0]) + Size(arms[0].body) + 3, loop, exit))
  }

  predicate ArmOpen(mem: seq<int>, arm: Arm, b: int, loop: int, exit: int) {
    var start := b + HeadSize(arm);
    AsOne(At(mem, b, Head(arm)) && Coded(mem, arm.body, start, loop, exit)
        && At(mem, start + Size(arm.body), [GOTO, 3, 0]))
  }

  lemma ArmOps(mem: seq<int>, arm: Arm, b: int, loop: int, exit: int)
    requires ArmOpen(mem, arm, b, loop, exit)
    ensures Op(mem, b) == if arm.Case? then CASE else DEFAULT
    ensures Op(mem, b + HeadSize(arm) + Size(arm.body)) == GOTO
  {
    hide Coded;
    WordAt(mem, b, Head(arm), 0);
    WordAt(mem, b + HeadSize(arm) + Size(arm.body), [GOTO, 3, 0], 0);
  }

  lemma {:induction false} EntriesApart(mem: seq<int>, arms: seq<Arm>, b: int, loop: int, exit: int)
    requires ArmsOpen(mem, arms, b, loop, exit)
    ensures Apart(mem, Entries(arms, b), b, b + ArmsSize(arms))
    decreases arms
  {
    hide ArmOpen, Size, Apart;
    if arms != [] {
      var k := b + HeadSize(arms[0]) + Size(arms[0].body);
      ArmOps(mem, arms[0], b, loop, exit);
      EntriesApart(mem, arms[1..], k + 3, loop, exit);
      ApartMore(mem, Entries(arms[1..], k + 3), k, b, b + ArmsSize(arms));
    } else {
      NothingApart(mem, b);
    }
  }

  lemma NothingApart(mem: seq<int>, b: int)
    ensures Apart(mem, [], b, b)
  {
  }

  lemma ApartMore(mem: seq<int>, es: seq<int>, k: int, b: int, hi: int)
    requires Apart(mem, es, k + 3, hi) && Op(mem, k) == GOTO && Op(mem, b) in {CASE, DEFAULT} && b + 2 <= k
             && k + 3 <= hi
    ensures Apart(mem, es + [k, b], b, hi)
  {
    assert forall p :: 0 <= p < |es| ==> (es + [k, b])[p] == es[p] && EntryFits(mem, es[p], k + 3, hi);
  }

  lemma CaseListSnoc(mem: seq<int>, es: seq<int>, k: int, b: int)
    requires Op(mem, k) == GOTO
    ensures CaseList(mem, es + [k, b]) == CaseList(mem, es) + if Op(mem, b) == CASE then [b] else []
    ensures LastDefault(mem, es + [k, b]) == if Op(mem, b) == DEFAULT then b else LastDefault(mem, es)
  {
    var all := es + [k, b];
    assert all[..|all| - 1] == es + [k];
    assert (es + [k])[..|es|] == es;
  }

  /** The popped CASEs and the last popped DEFAULT, in terms of the blocks. */
  lemma {:induction false} EntriesMean(mem: seq<int>, arms: seq<Arm>, b: int, loop: int, exit: int)
    requires ArmsOpen(mem, arms, b, loop, exit)
    ensures var cs, locs := CaseList(mem, Entries(arms, b)), CaseLocs(arms, b);
            |cs| == |locs| && forall i :: 0 <= i < |cs| ==> cs[i] == locs[|locs| - 1 - i]
    ensures LastDefault(mem, Entries(arms, b)) == DefaultLoc(arms, b)
    decreases arms
  {
    hide ArmOpen;
    if arms != [] {
      var k := b + HeadSize(arms[0]) + Size(arms[0].body);
      ArmOps(mem, arms[0], b, loop, exit);
      EntriesMean(mem, arms[1..], k + 3, loop, exit);
      CaseListSnoc(mem, Entries(arms[1..], k + 3), k, b);
    }
  }

  /** What the patching does for the blocks: their GOTOs have targets, nothing else changes. */
  ghost predicate GotosSet(mem: seq<int>, after: seq<int>, es: seq<int>, lo: int, hi: int, end: int) {
    && |after| == |mem|
    && (forall c :: lo <= c < hi && 0 <= c < |mem| && NotAnArgument(mem, es, c) ==> after[c] == mem[c])
    && (forall p :: 0 <= p < |es| && Op(mem, es[p]) == GOTO && 0 <= es[p] + 2 < |mem| ==>
           after[es[p] + 2] == end - es[p] - 3)
  }

  predicate NotAnArgument(mem: seq<int>, es: seq<int>, c: int) {
    forall p :: 0 <= p < |es| && Op(mem, es[p]) == GOTO ==> c != es[p] + 2
  }

  lemma {:induction false} ArmsClosed(mem: seq<int>, after: seq<int>, arms: seq<Arm>, b: int, end: int, loop: int,
                                      exit: int)
    requires ArmsOpen(mem, arms, b, loop, exit) && b >= 0
    requires GotosSet(mem, after, Entries(arms, b), b, b + ArmsSize(arms), end)
    ensures ArmsAt(after, arms, b, end, loop, exit)
    decreases arms
  {
    hide ArmOpen, ArmAt, At, Size, HeadSize;
    if arms != [] {
      var k := b + HeadSize(arms[0]) + Size(arms[0].body);
      var es, hi := Entries(arms[1..], k + 3), b + ArmsSize(arms);
      ArmOps(mem, arms[0], b, loop, exit);
      EntriesApart(mem, arms[1..], k + 3, loop, exit);
      GotosSplit(mem, after, es, k, b, hi, end);
      ArmClosed(mem, after, arms[0], b, k, end, loop, exit);
      ArmsClosed(mem, after, arms[1..], k + 3, end, loop, exit);
    }
  }

  lemma GotosSplit(mem: seq<int>, after: seq<int>, es: seq<int>, k: int, b: int, hi: int, end: int)
    requires GotosSet(mem, after, es + [k, b], b, hi, end) && Apart(mem, es, k + 3, hi)
    requires Op(mem, k) == GOTO && Op(mem, b) != GOTO && 0 <= b <= k && k + 3 <= hi
    ensures GotosSet(mem, after, es, k + 3, hi, end)
    ensures forall c :: b <= c < k + 2 && 0 <= c < |mem| ==> after[c] == mem[c]
    ensures k + 2 < |mem| ==> after[k + 2] == end - k - 3
  {
    var all := es + [k, b];
    assert all[|es|] == k && all[|es| + 1] == b;
    assert forall p :: 0 <= p < |es| ==> all[p] == es[p] && EntryFits(mem, es[p], k + 3, hi);
    forall c | k + 3 <= c < hi && 0 <= c < |mem| && NotAnArgument(mem, es, c) ensures after[c] == mem[c] {
      assert NotAnArgument(mem, all, c);
    }
    forall c | b <= c < k + 2 && 0 <= c < |mem| ensures after[c] == mem[c] {
      assert NotAnArgument(mem, all, c);
    }
  }

  lemma ArmClosed(mem: seq<int>, after: seq<int>, arm: Arm, b: int, k: int, end: int, loop: int, exit: int)
    requires ArmOpen(mem, arm, b, loop, exit) && |after| == |mem| && b >= 0 && k == b + HeadSize(arm) + Size(arm.body)
    requires forall c :: b <= c < k + 2 && 0 <= c < |mem| ==> after[c] == mem[c]
    requires k + 2 < |mem| ==> after[k + 2] == end - k - 3
    ensures ArmAt(after, arm, b, end, loop, exit)
  {
    hide CodeAt, Size, HeadSize, Head;
    var start := b + HeadSize(arm);
    assert after[b..start] == mem[b..start];
    GotoSet(mem, after, k, end);
    BodyStays(mem, after, arm.body, start, loop, exit);
  }

  lemma GotoSet(mem: seq<int>, after: seq<int>, k: int, end: int)
    requires At(mem, k, [GOTO, 3, 0]) && |after| == |mem|
    requires after[k] == mem[k] && after[k + 1] == mem[k + 1] && after[k + 2] == end - k - 3
    ensures GotoAt(after, k, end)
  {
    WordAt(mem, k, [GOTO, 3, 0], 0);
    WordAt(mem, k, [GOTO, 3, 0], 1);
    assert after[k..k + 3] == [after[k], after[k + 1], after[k + 2]];
  }

  lemma BodyStays(mem: seq<int>, after: seq<int>, s: Stmt, b: int, loop: int, exit: int)
    requires Coded(mem, s, b, loop, exit) && |after| == |mem|
    requires forall c :: b <= c < b + Size(s) && 0 <= c < |mem| ==> after[c] == mem[c]
    ensures Coded(after, s, b, loop, exit)
  {
    hide CodeAt, Size, FirstBreak;
    Kept(Change(mem, after, -1, exit, exit), s, b, loop);
  }

  // ---- The finished table.

  lemma FinishedCell(mem: seq<int>, es: seq<int>, m: int, t: int, c: int)
    requires Listing(mem, es, m, t) && 0 <= c < |mem|
    requires c != m + 2 && c != m + 5 && c != t + 1 + |CaseList(mem, es)|
    ensures Finished(mem, es, m, t)[c] == Patched(mem, es, m, t, t + |CaseList(mem, es)| + 2)[c]
  {
  }

  lemma FinishedTable(mem: seq<int>, arms: seq<Arm>, m: int, t: int, loop: int, exit: int)
    requires ArmsOpen(mem, arms, m + 6, loop, exit) && t == m + 6 + ArmsSize(arms)
    requires Listing(mem, Entries(arms, m + 6), m, t) && t + Cases(arms) + 2 <= |mem|
    ensures TableAt(Finished(mem, Entries(arms, m + 6), m, t), arms, m, t)
  {
    hide ArmsOpen, ArmsSize, Apart, Patched;
    var es, locs := Entries(arms, m + 6), CaseLocs(arms, m + 6);
    var n, after := |locs|, Finished(mem, es, m, t);
    EntriesMean(mem, arms, m + 6, loop, exit);
    DefaultIsLater(arms, m + 6);
    FinishedCell(mem, es, m, t, t);
    PatchedDefault(mem, es, m, t, t + n + 2);
    forall i | 0 <= i < n ensures after[t + n - i] == locs[i] - m {
      FinishedCell(mem, es, m, t, t + n - i);
      PatchedCases(mem, es, m, t, t + n + 2, n - 1 - i);
    }
  }

  lemma {:induction false} DefaultIsLater(arms: seq<Arm>, b: int)
    ensures DefaultLoc(arms, b) == -1 || DefaultLoc(arms, b) >= b
    decreases arms
  {
    if arms != [] {
      DefaultIsLater(arms[1..], b + HeadSize(arms[0]) + Size(arms[0].body) + 3);
    }
  }

  /** Before the arguments of the SWITCH, between them, and behind the table nothing changes. */
  lemma FinishedElsewhere(mem: seq<int>, es: seq<int>, m: int, t: int, c: int)
    requires Listing(mem, es, m, t) && 0 <= c < |mem|
    requires (c < m + 6 && c != m + 2 && c != m + 5) || c > t + 1 + |CaseList(mem, es)|
    ensures Finished(mem, es, m, t)[c] == mem[c]
  {
    hide Finished, Patched, CaseList;
    FinishedCell(mem, es, m, t, c);
    forall p | 0 <= p < |es| && Op(mem, es[p]) !in {CASE, DEFAULT} ensures c != es[p] + 2 {
      assert EntryFits(mem, es[p], m + 6, t);
    }
    PatchedElsewhere(mem, es, m, t, t + |CaseList(mem, es)| + 2, c);
  }

  lemma FinishedArguments(mem: seq<int>, es: seq<int>, m: int, t: int)
    requires Listing(mem, es, m, t) && t + |CaseList(mem, es)| + 2 <= |mem|
    ensures var after := Finished(mem, es, m, t);
            after[m + 2] == t - m && after[m + 5] == t + |CaseList(mem, es)| + 2 - m - 6
  {
  }

  lemma FinishedGotos(mem: seq<int>, es: seq<int>, m: int, t: int)
    requires Listing(mem, es, m, t)
    ensures GotosSet(mem, Finished(mem, es, m, t), es, m + 6, t, t + |CaseList(mem, es)| + 2)
  {
    hide Finished, Patched;
    var after, end := Finished(mem, es, m, t), t + |CaseList(mem, es)| + 2;
    forall c | m + 6 <= c < t && 0 <= c < |mem| && NotAnArgument(mem, es, c) ensures after[c] == mem[c] {
      FinishedCell(mem, es, m, t, c);
      OpsOfEntries(mem, es, m, t);
      PatchedElsewhere(mem, es, m, t, end, c);
    }
    forall p | 0 <= p < |es| && Op(mem, es[p]) == GOTO && 0 <= es[p] + 2 < |mem|
      ensures after[es[p] + 2] == end - es[p] - 3
    {
      assert EntryFits(mem, es[p], m + 6, t);
      FinishedCell(mem, es, m, t, es[p] + 2);
      PatchedGoto(mem, es, m, t, end, p);
    }
  }

  lemma OpsOfEntries(mem: seq<int>, es: seq<int>, m: int, t: int)
    requires Listing(mem, es, m, t)
    ensures forall p :: 0 <= p < |es| && Op(mem, es[p]) !in {CASE, DEFAULT} ==> Op(mem, es[p]) == GOTO
  {
    assert forall p :: 0 <= p < |es| ==> EntryFits(mem, es[p], m + 6, t);
  }

  // ---- Reading the entries one by one.

  function EntryOrSwitch(es: seq<int>, i: nat, m: int): int {
    if i < |es| then es[i] else m
  }

  /** Entry i is in the memory; only behind the last entry there is the SWITCH. */
  lemma EntryAt(mem: seq<int>, es: seq<int>, m: int, t: int, i: nat)
    requires Listing(mem, es, m, t)
    ensures var e := EntryOrSwitch(es, i, m);
            && 0 <= e < |mem| && mem[e] == Op(mem, e) && (mem[e] == SWITCH <==> i >= |es|)
            && (mem[e] == GOTO ==> e + 2 < |mem|) && (i < |es| ==> mem[e] in {CASE, DEFAULT, GOTO})
  {
    if i < |es| {
      assert EntryFits(mem, es[i], m + 6, t);
    }
  }

  lemma PatchedNone(mem: seq<int>, m: int, t: int, end: int)
    requires 0 <= t < |mem|
    ensures Patched(mem, [], m, t, end) == mem[t := 0] && CaseList(mem, []) == []
  {
  }

  /** One more entry. */
  lemma PatchedSnoc(mem: seq<int>, done: seq<int>, e: int, m: int, t: int, end: int)
    ensures var prev, cs := Patched(mem, done, m, t, end), CaseList(mem, done);
            && Patched(mem, done + [e], m, t, end) == Entered(prev, Op(mem, e), e, m, t, t + 1 + |cs|, end)
            && CaseList(mem, done + [e]) == cs + if Op(mem, e) == CASE then [e] else []
  {
    assert (done + [e])[..|done|] == done;
  }

  /** The entries not yet popped are still there, and so are their opcodes. */
  lemma NextEntry(mem: seq<int>, es: seq<int>, n: nat, m: int, t: int, top: int, end: int)
    requires Listing(mem, es, m, t) && n <= |es| && t + 1 <= top && top + |es| < |mem|
    requires At(mem, top, es) && mem[top + |es|] == m
    ensures var now, e := Patched(mem, es[..n], m, t, end), EntryOrSwitch(es, n, m);
            now[top + n] == e && 0 <= e < |mem| && now[e] == mem[e]
  {
    hide Patched, CaseList, At;
    var e := EntryOrSwitch(es, n, m);
    EntryAt(mem, es, m, t, n);
    if n < |es| { WordAt(mem, top, es, n); }
    EntryIsNoArgument(mem, es, n, m, t);
    PatchedElsewhere(mem, es[..n], m, t, end, top + n);
    PatchedElsewhere(mem, es[..n], m, t, end, e);
  }

  lemma EntryIsNoArgument(mem: seq<int>, es: seq<int>, n: nat, m: int, t: int)
    requires Listing(mem, es, m, t) && n <= |es|
    ensures EntryOrSwitch(es, n, m) < t
    ensures forall p :: 0 <= p < n && Op(mem, es[..n][p]) !in {CASE, DEFAULT} ==>
              EntryOrSwitch(es, n, m) != es[..n][p] + 2 && es[..n][p] + 2 < t
  {
    forall p | 0 <= p < n && Op(mem, es[..n][p]) !in {CASE, DEFAULT}
      ensures EntryOrSwitch(es, n, m) != es[..n][p] + 2 && es[..n][p] + 2 < t
    {
      assert EntryFits(mem, es[p], m + 6, t);
      if n < |es| { assert EntryFits(mem, es[n], m + 6, t) && es[n] + Width(mem, es[n]) <= es[p]; }
    }
    if n < |es| { assert EntryFits(mem, es[n], m + 6, t); }
  }

  lemma CaseListPrefix(mem: seq<int>, es: seq<int>, n: nat)
    requires n < |es|
    ensures CaseList(mem, es[..n + 1]) == CaseList(mem, es[..n]) + if Op(mem, es[n]) == CASE then [es[n]] else []
  {
    assert es[..n + 1][..n] == es[..n];
  }
}
