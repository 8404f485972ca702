/** GOTOs to labels that are not defined yet: their arguments thread a list through the code. */
module Labels {
  import opened Opcodes
  import opened Options
  import opened Code

  /** The locations in list are threaded from head on; the last link is what there was before them. */
  predicate Chain(mem: seq<int>, head: int, list: seq<int>, rest: int) {
    AsOne(
      && head == Next(list, 0, rest)
      && (forall i :: 0 <= i < |list| ==> Linked(mem, list, rest, i)))
  }

  function Next(list: seq<int>, i: nat, rest: int): int {
    if i < |list| then list[i] else rest
  }

  predicate Linked(mem: seq<int>, list: seq<int>, rest: int, i: nat)
    requires i < |list|
  {
    0 <= list[i] && list[i] + 2 < |mem| && mem[list[i] + 2] == Next(list, i + 1, rest)
  }

  /** No two of the locations are in the same instruction. */
  predicate Apart(list: seq<int>) {
    AsOne(
      forall i, j :: 0 <= i < |list| && 0 <= j < |list| && i != j ==>
        list[i] + 3 <= list[j] || list[j] + 3 <= list[i])
  }

  function Without(list: seq<int>, i: nat): seq<int>
    requires i < |list|
  {
    list[..i] + list[i + 1..]
  }

  lemma ChainPush(mem: seq<int>, head: int, list: seq<int>, rest: int, loc: int)
    requires Chain(mem, head, list, rest) && Apart([loc] + list) && 0 <= loc && loc + 2 < |mem|
    ensures Chain(mem[loc + 2 := head], loc, [loc] + list, rest)
  {
    var all, after := [loc] + list, mem[loc + 2 := head];
    forall i | 0 <= i < |all| ensures Linked(after, all, rest, i) {
      if i > 0 {
        assert all[i] == list[i - 1] && all[0] == loc && Linked(mem, list, rest, i - 1);
        assert all[0] + 3 <= all[i] || all[i] + 3 <= all[0];
      }
    }
  }

  /** The list bypasses its element i. */
  lemma ChainBypass(mem: seq<int>, list: seq<int>, rest: int, i: nat)
    requires 0 < i < |list| && Chain(mem, list[0], list, rest) && Apart(list)
    ensures list[i - 1] + 2 < |mem| && 0 <= list[i - 1]
    ensures Chain(mem[list[i - 1] + 2 := Next(list, i + 1, rest)], list[0], Without(list, i), rest)
  {
    assert Linked(mem, list, rest, i - 1);
    var after, without := mem[list[i - 1] + 2 := Next(list, i + 1, rest)], Without(list, i);
    forall k | 0 <= k < |without| ensures Linked(after, without, rest, k) {
      BypassAt(mem, after, list, rest, i, k);
    }
  }

  lemma BypassAt(mem: seq<int>, after: seq<int>, list: seq<int>, rest: int, i: nat, k: nat)
    requires 0 < i < |list| && k < |list| - 1
    requires 0 <= list[i - 1] && list[i - 1] + 2 < |mem| && after == mem[list[i - 1] + 2 := Next(list, i + 1, rest)]
    requires Chain(mem, list[0], list, rest) && Apart(list)
    ensures Linked(after, Without(list, i), rest, k)
  {
    var k' := if k < i then k else k + 1;
    assert Linked(mem, list, rest, k');
    assert Without(list, i)[k] == list[k'];
    if k' != i - 1 {
      assert list[i - 1] + 3 <= list[k'] || list[k'] + 3 <= list[i - 1];
    }
  }

  lemma ChainAt(mem: seq<int>, list: seq<int>, rest: int, i: nat)
    requires i < |list| && Chain(mem, Next(list, 0, rest), list, rest)
    ensures 0 <= list[i] && list[i] + 2 < |mem| && mem[list[i] + 2] == Next(list, i + 1, rest)
  {
    assert Linked(mem, list, rest, i);
  }

  // ---- The list in the stack.

  class PendingGotos {
    const stack: array<int>
    var igoto1: int

    constructor (stack: array<int>, igoto1: int)
      ensures this.stack == stack && this.igoto1 == igoto1
    {
      this.stack, this.igoto1 := stack, igoto1;
    }

    /** Put the GOTO at loc in front of the list. */
    method SetIgoto(loc: int, ghost list: seq<int>, ghost rest: int)
      requires 0 <= loc && loc + 2 < stack.Length && igoto1 >= -1
      requires Chain(stack[..], igoto1, list, rest) && Apart([loc] + list)
      modifies this, stack
      ensures Chain(stack[..], igoto1, [loc] + list, rest)
      ensures stack[..] == old(stack[..])[loc + 2 := old(igoto1)] && igoto1 == loc
    {
      ChainPush(stack[..], igoto1, list, rest, loc);
      if igoto1 < 0 {
        stack[loc + 2] := -1;
      } else {
        stack[loc + 2] := igoto1;
      }
      igoto1 := loc;
    }

    /** Take the GOTO at list[i] out of the list. That leaves exactly the others, in their order, unless
        the element before it is at location 0: then everything up to it is lost. */
    method UnsetIgoto(loc: int, ghost list: seq<int>, ghost rest: int, ghost i: nat)
      requires Chain(stack[..], igoto1, list, rest) && Apart(list) && i < |list| && list[i] == loc
      modifies this, stack
      ensures i == 0 || list[i - 1] != 0 ==> Chain(stack[..], igoto1, Without(list, i), rest)
      ensures i > 0 && list[i - 1] == 0 ==> Chain(stack[..], igoto1, list[i + 1..], rest)
      ensures forall c :: 0 <= c < stack.Length && (i == 0 || c != list[i - 1] + 2) ==> stack[c] == old(stack[c])
    {
      hide Chain, Linked, Apart, Without;
      ghost var mem := stack[..];
      HeadOf(mem, igoto1, list, rest);
      var last, curr := 0, igoto1;
      ghost var k := 0;
      while curr != loc
        invariant 0 <= k <= i && curr == list[k] && last == if k == 0 then 0 else list[k - 1]
        decreases i - k
        modifies {}
      {
        ChainAt(mem, list, rest, k);
        last := curr;
        curr := stack[curr + 2];
        k := k + 1;
      }
      SameElement(list, k, i);
      ChainAt(mem, list, rest, i);
      assert stack[..] == mem;
      if last == 0 {
        ChainTail(mem, list, rest, i);
        igoto1 := stack[curr + 2];
        assert stack[..] == mem;
      } else {
        ChainBypass(mem, list, rest, i);
        stack[last + 2] := stack[curr + 2];
        assert stack[..] == mem[list[i - 1] + 2 := Next(list, i + 1, rest)];
      }
    }

    /** Take a GOTO out of the list and give it its target. */
    method Resolve(loc: int, target: int, ghost list: seq<int>, ghost rest: int, ghost i: nat)
      requires Chain(stack[..], igoto1, list, rest) && Apart(list) && i < |list| && list[i] == loc
      requires 0 <= loc && loc + 2 < stack.Length && (i > 0 ==> list[i - 1] != 0) && rest >= -1
      modifies this, stack
      ensures Chain(stack[..], igoto1, Without(list, i), rest) && igoto1 >= -1
      ensures stack[loc + 2] == target - loc - 3
      ensures forall c :: 0 <= c < stack.Length && c != loc + 2 && (i == 0 || c != list[i - 1] + 2) ==>
                stack[c] == old(stack[c])
    {
      UnsetIgoto(loc, list, rest, i);
      ghost var cut := stack[..];
      HeadIsPlace(cut, igoto1, Without(list, i), rest);
      stack[loc + 2] := target - loc - 3;
      ChainElsewhere(cut, stack[..], igoto1, Without(list, i), rest, loc, list, i);
    }
  }

  lemma HeadIsPlace(mem: seq<int>, head: int, list: seq<int>, rest: int)
    requires Chain(mem, head, list, rest) && rest >= -1
    ensures head >= -1
  {
    if list != [] { assert Linked(mem, list, rest, 0); }
  }

  /** The argument of a GOTO that has left the list does not matter to it. */
  lemma ChainElsewhere(mem: seq<int>, after: seq<int>, head: int, list: seq<int>, rest: int, loc: int, all: seq<int>,
                       i: nat)
    requires i < |all| && Apart(all) && list == Without(all, i) && all[i] == loc && 0 <= loc && loc + 2 < |mem|
    requires Chain(mem, head, list, rest) && |after| == |mem| && after == mem[loc + 2 := after[loc + 2]]
    ensures Chain(after, head, list, rest)
  {
    forall k | 0 <= k < |list| ensures Linked(after, list, rest, k) {
      assert Linked(mem, list, rest, k);
      var k' := if k < i then k else k + 1;
      assert list[k] == all[k'] && (all[k'] + 3 <= all[i] || all[i] + 3 <= all[k']);
    }
  }

  lemma HeadOf(mem: seq<int>, head: int, list: seq<int>, rest: int)
    requires Chain(mem, head, list, rest)
    ensures head == Next(list, 0, rest)
  {
  }

  lemma SameElement(list: seq<int>, k: nat, i: nat)
    requires k <= i < |list| && list[k] == list[i] && Apart(list)
    ensures k == i
  {
  }

  lemma ChainTail(mem: seq<int>, list: seq<int>, rest: int, i: nat)
    requires i < |list| && Chain(mem, list[0], list, rest)
    ensures Chain(mem, Next(list, i + 1, rest), list[i + 1..], rest)
    ensures i == 0 ==> list[i + 1..] == Without(list, i)
  {
    var tail := list[i + 1..];
    forall k | 0 <= k < |tail| ensures Linked(mem, tail, rest, k) {
      assert tail[k] == list[i + 1 + k] && Linked(mem, list, rest, i + 1 + k);
    }
  }

  // ---- The labels of a procedure.

  /** Where a label's first GOTO is, if that came before the label, otherwise the place of the label. */
  datatype Label = Label(loc: int, defined: bool)

  /** Code up to pc; jumps tells for every GOTO to a label which one it is, places where the labels are,
      and pending which GOTOs wait for theirs. */
  datatype View = View(mem: seq<int>, pc: int, labels: map<string, Label>, jumps: map<int, string>,
                       places: map<string, int>, pending: seq<int>)

  function Target(mem: seq<int>, p: int): int {
    if 0 <= p && p + 2 < |mem| then p + 3 + mem[p + 2] else -1
  }

  ghost predicate Sound(v: View) {
    && 0 <= v.pc <= |v.mem|
    && (forall p :: p in v.jumps ==> GotoThere(v, p))
    && (forall p, q :: p in v.jumps && q in v.jumps && p < q ==> p + 3 <= q)
    && (forall n :: n in v.labels ==> Known(v, n))
    && (forall i :: 0 <= i < |v.pending| ==> FirstTo(v, v.pending[i]))
    && Falling(v.pending, v.pc)
  }

  /** A GOTO that is the first one to its label, or goes where that label's entry says. */
  predicate GotoThere(v: View, p: int) {
    && p in v.jumps && 0 <= p && p + 3 <= v.pc <= |v.mem| && v.mem[p] == GOTO && v.mem[p + 1] == 3
    && v.jumps[p] in v.labels
    && (p == v.labels[v.jumps[p]].loc || Target(v.mem, p) == v.labels[v.jumps[p]].loc)
  }

  predicate Known(v: View, n: string) {
    && n in v.labels
    && var l := v.labels[n];
       if l.defined then
         n in v.places && (l.loc == v.places[n] || (IsJump(v, l.loc, n) && Target(v.mem, l.loc) == v.places[n]))
       else IsJump(v, l.loc, n) && l.loc in v.pending
  }

  predicate IsJump(v: View, p: int, n: string) {
    p in v.jumps && v.jumps[p] == n
  }

  predicate FirstTo(v: View, p: int) {
    p in v.jumps && v.jumps[p] in v.labels && !v.labels[v.jumps[p]].defined && v.labels[v.jumps[p]].loc == p
  }

  /** Descending locations below top, as the compiler produces them. */
  predicate Falling(list: seq<int>, top: int) {
    AsOne(
      && (forall i :: 0 <= i < |list| ==> 0 <= list[i] && list[i] + 3 <= top)
      && (forall i, j :: 0 <= i < j < |list| ==> list[j] + 3 <= list[i]))
  }

  lemma FallingApart(list: seq<int>, top: int, loc: int)
    requires Falling(list, top) && 0 <= top <= loc
    ensures Apart(list) && Apart([loc] + list) && Falling([loc] + list, loc + 3)
  {
    var all := [loc] + list;
    assert forall i :: 0 < i < |all| ==> all[i] == list[i - 1];
  }

  lemma FallingWithout(list: seq<int>, top: int, i: nat)
    requires Falling(list, top) && i < |list|
    ensures Falling(Without(list, i), top) && (i > 0 ==> list[i - 1] != 0)
    ensures list[i] !in Without(list, i)
  {
    var without := Without(list, i);
    forall k | 0 <= k < |without| ensures without[k] == list[OldIndex(i, k)] && without[k] != list[i] {
    }
    forall k | 0 <= k < |without| ensures 0 <= without[k] && without[k] + 3 <= top {
      assert without[k] == list[OldIndex(i, k)];
    }
    forall k, l | 0 <= k < l < |without| ensures without[l] + 3 <= without[k] {
      assert without[k] == list[OldIndex(i, k)] && without[l] == list[OldIndex(i, l)];
    }
    if i > 0 { assert list[i] + 3 <= list[i - 1]; }
  }

  /** Where the element k was before element i was left out. */
  function OldIndex(i: nat, k: nat): nat {
    if k < i then k else k + 1
  }

  /** More code that has no GOTO to a label. */
  lemma SoundGrows(v: View, w: View)
    requires Sound(v) && w == v.(mem := w.mem, pc := w.pc)
    requires v.pc <= w.pc <= |w.mem| == |v.mem| && w.mem[..v.pc] == v.mem[..v.pc]
    ensures Sound(w)
  {
    forall p | p in w.jumps ensures GotoThere(w, p) && Target(w.mem, p) == Target(v.mem, p) {
      assert GotoThere(v, p);
      SameBelow(v.mem, w.mem, v.pc, p);
    }
    forall n | n in w.labels ensures Known(w, n) {
      assert Known(v, n);
    }
    forall i | 0 <= i < |w.pending| ensures FirstTo(w, w.pending[i]) {
      assert FirstTo(v, v.pending[i]);
    }
  }

  lemma SameBelow(a: seq<int>, b: seq<int>, k: int, p: int)
    requires 0 <= p && p + 3 <= k <= |a| && k <= |b| && a[..k] == b[..k]
    ensures a[p] == b[p] && a[p + 1] == b[p + 1] && a[p + 2] == b[p + 2]
  {
    assert a[..k][p] == a[p] && a[..k][p + 1] == a[p + 1] && a[..k][p + 2] == a[p + 2];
    assert b[..k][p] == b[p] && b[..k][p + 1] == b[p + 1] && b[..k][p + 2] == b[p + 2];
  }

  /** A GOTO to a label that has an entry already. */
  lemma GotoKnown(v: View, w: View, n: string)
    requires Sound(v) && n in v.labels && v.pc + 3 <= |v.mem| == |w.mem|
    requires w == v.(mem := w.mem, pc := v.pc + 3, jumps := v.jumps[v.pc := n])
    requires w.mem[..v.pc] == v.mem[..v.pc] && At(w.mem, v.pc, Branch(GOTO, v.pc, v.labels[n].loc))
    ensures Sound(w)
  {
    var mid := v.(mem := w.mem, pc := w.pc);
    SoundGrows(v, mid);
    var ws := Branch(GOTO, v.pc, v.labels[n].loc);
    WordAt(w.mem, v.pc, ws, 0);
    WordAt(w.mem, v.pc, ws, 1);
    WordAt(w.mem, v.pc, ws, 2);
    JumpAdded(v, mid, w, n);
  }

  lemma JumpAdded(v: View, mid: View, w: View, n: string)
    requires Sound(v) && Sound(mid) && mid == v.(mem := mid.mem, pc := v.pc + 3)
    requires w == mid.(jumps := mid.jumps[v.pc := n]) && n in v.labels && GotoThere(w, v.pc)
    ensures Sound(w)
  {
    hide Falling, Target, GotoThere, Known, FirstTo;
    forall p | p in v.jumps ensures p + 3 <= v.pc {
      JumpBelow(v, p);
    }
    forall p | p in w.jumps ensures GotoThere(w, p) {
      if p != v.pc { JumpElse(mid, w, p); }
    }
    forall m | m in w.labels ensures Known(w, m) {
      KnownElse(mid, w, v.pc, n, m);
    }
    forall i | 0 <= i < |w.pending| ensures FirstTo(w, w.pending[i]) {
      assert FirstTo(mid, mid.pending[i]);
      FirstElse(mid, w, v.pc, n, mid.pending[i]);
    }
  }

  lemma JumpElse(v: View, w: View, p: int)
    requires GotoThere(v, p) && w == v.(jumps := w.jumps) && p in w.jumps && w.jumps[p] == v.jumps[p]
    ensures GotoThere(w, p)
  {
  }

  lemma KnownElse(v: View, w: View, q: int, n: string, m: string)
    requires Known(v, m) && w == v.(jumps := v.jumps[q := n]) && q !in v.jumps
    ensures Known(w, m)
  {
  }

  lemma FirstElse(v: View, w: View, q: int, n: string, p: int)
    requires FirstTo(v, p) && w == v.(jumps := v.jumps[q := n]) && q !in v.jumps
    ensures FirstTo(w, p)
  {
  }

  /** In w, behind the code of v, there is the first GOTO to the label n. */
  predicate GoesFirst(v: View, w: View, n: string) {
    AsOne(
      && n !in v.labels && 0 <= v.pc && v.pc + 3 <= |v.mem| == |w.mem|
      && w == v.(mem := w.mem, pc := v.pc + 3, jumps := v.jumps[v.pc := n], labels := v.labels[n := Label(v.pc, false)],
                 pending := [v.pc] + v.pending)
      && w.mem[..v.pc] == v.mem[..v.pc] && w.mem[v.pc] == GOTO && w.mem[v.pc + 1] == 3)
  }

  /** The first GOTO to a label, which is not defined yet. */
  lemma GotoFirst(v: View, w: View, n: string)
    requires Sound(v) && GoesFirst(v, w, n)
    ensures Sound(w)
  {
    hide Falling, Apart, GotoThere, Known, FirstTo;
    var mid := v.(mem := w.mem, pc := w.pc);
    SoundGrows(v, mid);
    FallingApart(v.pending, v.pc, v.pc);
    forall p | p in v.jumps ensures p + 3 <= v.pc { JumpBelow(v, p); }
    forall p | p in w.jumps ensures GotoThere(w, p) { FirstGoto(v, mid, w, n, p); }
    forall m | m in w.labels ensures Known(w, m) { FirstKnown(v, mid, w, n, m); }
    forall i | 0 <= i < |w.pending| ensures FirstTo(w, w.pending[i]) { FirstPending(v, w, n, i); }
  }

  lemma JumpBelow(v: View, p: int)
    requires Sound(v) && p in v.jumps
    ensures 0 <= p && p + 3 <= v.pc
  {
    assert GotoThere(v, p);
  }

  lemma FirstGoto(v: View, mid: View, w: View, n: string, p: int)
    requires GoesFirst(v, w, n) && p in w.jumps && mid == v.(mem := w.mem, pc := w.pc)
    requires p in v.jumps ==> GotoThere(mid, p) && p + 3 <= v.pc
    ensures GotoThere(w, p)
  {
    hide Target;
  }

  lemma FirstKnown(v: View, mid: View, w: View, n: string, m: string)
    requires Sound(v) && Sound(mid) && GoesFirst(v, w, n) && m in w.labels && mid == v.(mem := w.mem, pc := w.pc)
    ensures Known(w, m)
  {
    hide Target, GotoThere, FirstTo, Falling;
    if m == n {
      assert w.pending[0] == v.pc;
    } else {
      assert Known(mid, m);
      forall p | p in v.jumps ensures p + 3 <= v.pc { JumpBelow(v, p); }
      assert forall p :: p in v.pending ==> p in w.pending;
    }
  }

  lemma FirstPending(v: View, w: View, n: string, i: nat)
    requires Sound(v) && GoesFirst(v, w, n) && i < |w.pending|
    ensures FirstTo(w, w.pending[i])
  {
    hide Falling, GotoThere, Known;
    if i > 0 {
      assert w.pending[i] == v.pending[i - 1] && FirstTo(v, v.pending[i - 1]);
      JumpBelow(v, v.pending[i - 1]);
    }
  }

  /** A label before any GOTO to it. */
  lemma LabelFirst(v: View, w: View, n: string)
    requires Sound(v) && n !in v.labels
    requires w == v.(labels := v.labels[n := Label(v.pc, true)], places := v.places[n := v.pc])
    ensures Sound(w)
  {
    forall p | p in w.jumps ensures GotoThere(w, p) {
      assert GotoThere(v, p);
    }
    forall m | m in w.labels ensures Known(w, m) {
      if m != n { assert Known(v, m); }
    }
    forall i | 0 <= i < |w.pending| ensures FirstTo(w, w.pending[i]) {
      assert FirstTo(v, v.pending[i]);
    }
  }

  /** In w the label n has been put at pc; the GOTO that waited for it at v.pending[i] goes there. */
  ghost predicate Resolves(v: View, w: View, n: string, i: nat) {
    AsOne(
      && n in v.labels && !v.labels[n].defined && i < |v.pending| && v.pending[i] == v.labels[n].loc
      && w == v.(mem := w.mem, labels := v.labels[n := Label(v.labels[n].loc, true)], places := v.places[n := v.pc],
                 pending := Without(v.pending, i))
      && |w.mem| == |v.mem| && Target(w.mem, v.pending[i]) == v.pc
      && (forall c :: 0 <= c < |v.mem| && c != v.pending[i] + 2 && (i == 0 || c != v.pending[i - 1] + 2) ==>
             w.mem[c] == v.mem[c]))
  }

  /** A label for which a GOTO waits. */
  lemma LabelAwaited(v: View, w: View, n: string, i: nat)
    requires Sound(v) && Resolves(v, w, n, i)
    ensures Sound(w)
  {
    hide Falling, Apart, Target, Without, GotoThere, Known, FirstTo;
    forall p | p in w.jumps ensures GotoThere(w, p) { AwaitedGoto(v, w, n, i, p); }
    forall m | m in w.labels ensures Known(w, m) { AwaitedKnown(v, w, n, i, m); }
    forall k | 0 <= k < |w.pending| ensures FirstTo(w, w.pending[k]) { AwaitedPending(v, w, n, i, k); }
    FallingWithout(v.pending, v.pc, i);
  }

  lemma Resolved(v: View, w: View, n: string, i: nat)
    requires n in v.labels && !v.labels[n].defined && i < |v.pending| && v.pending[i] == v.labels[n].loc
    requires w == v.(mem := w.mem, labels := v.labels[n := Label(v.labels[n].loc, true)], places := v.places[n := v.pc],
                     pending := Without(v.pending, i))
    requires |w.mem| == |v.mem| && 0 <= v.pending[i] && v.pending[i] + 2 < |v.mem|
    requires w.mem[v.pending[i] + 2] == v.pc - v.pending[i] - 3
    requires forall c :: 0 <= c < |v.mem| && c != v.pending[i] + 2 && (i == 0 || c != v.pending[i - 1] + 2) ==>
               w.mem[c] == v.mem[c]
    ensures Resolves(v, w, n, i)
  {
  }

  lemma ResolvedOnly(v: View, w: View, n: string, i: nat)
    requires Sound(v) && Resolves(v, w, n, i)
    ensures OnlyArguments(v.mem, w.mem, v.jumps, v.pc)
  {
    hide Sound, Without;
    PendingIsJump(v, i);
    if i > 0 { PendingIsJump(v, i - 1); }
  }

  lemma PendingIsJump(v: View, k: nat)
    requires Sound(v) && k < |v.pending|
    ensures v.pending[k] in v.jumps
  {
    assert FirstTo(v, v.pending[k]);
  }

  lemma AwaitedGoto(v: View, w: View, n: string, i: nat, p: int)
    requires Sound(v) && Resolves(v, w, n, i) && p in v.jumps
    ensures GotoThere(w, p)
    ensures p !in v.pending ==> Target(w.mem, p) == Target(v.mem, p)
  {
    hide Falling, Apart, Without, Known;
    ArgumentStays(v, w, i, p);
    if p in v.pending {
      var k :| 0 <= k < |v.pending| && v.pending[k] == p;
      assert FirstTo(v, v.pending[k]);
    }
  }

  lemma AwaitedKnown(v: View, w: View, n: string, i: nat, m: string)
    requires Sound(v) && Resolves(v, w, n, i) && m in v.labels
    ensures Known(w, m)
  {
    hide Falling, Apart, Without, GotoThere, Target;
    var l := v.labels[m];
    assert Known(v, m) && FirstTo(v, v.pending[i]);
    if m != n && l.defined {
      if l.loc in v.pending {
        var k :| 0 <= k < |v.pending| && v.pending[k] == l.loc;
        assert FirstTo(v, v.pending[k]);
      } else if l.loc in v.jumps {
        AwaitedGoto(v, w, n, i, l.loc);
      }
    } else if m != n {
      StillPending(v.pending, i, l.loc);
    }
  }

  lemma AwaitedPending(v: View, w: View, n: string, i: nat, k: nat)
    requires Sound(v) && Resolves(v, w, n, i) && k < |w.pending|
    ensures FirstTo(w, w.pending[k])
  {
    var k' := if k < i then k else k + 1;
    assert w.pending[k] == v.pending[k'] && FirstTo(v, v.pending[k']) && FirstTo(v, v.pending[i]);
    assert k' < i ==> v.pending[i] + 3 <= v.pending[k'];
    assert i < k' ==> v.pending[k'] + 3 <= v.pending[i];
  }

  lemma StillPending(list: seq<int>, i: nat, p: int)
    requires i < |list| && p in list && p != list[i]
    ensures p in Without(list, i)
  {
    var k :| 0 <= k < |list| && list[k] == p;
    assert Without(list, i)[if k < i then k else k - 1] == p;
  }

  lemma ArgumentStays(v: View, w: View, i: nat, p: int)
    requires Sound(v) && i < |v.pending| && p in v.jumps && |w.mem| == |v.mem|
    requires forall c :: 0 <= c < |v.mem| && c != v.pending[i] + 2 && (i == 0 || c != v.pending[i - 1] + 2) ==>
               w.mem[c] == v.mem[c]
    ensures GotoThere(v, p) && w.mem[p] == v.mem[p] && w.mem[p + 1] == v.mem[p + 1]
    ensures p !in v.pending ==> w.mem[p + 2] == v.mem[p + 2]
  {
    assert GotoThere(v, p) && FirstTo(v, v.pending[i]);
    if i > 0 { assert FirstTo(v, v.pending[i - 1]); }
  }

  /** The GOTO at p leads to its label, with any data. */
  ghost predicate Arrives(v: View, p: int) {
    p in v.jumps && v.jumps[p] in v.places
    && forall d :: Leads(v.mem, Running(p, d), Running(v.places[v.jumps[p]], d))
  }

  /** Every GOTO to a defined label leads to that label. */
  lemma GotoArrives(v: View, p: int)
    requires Sound(v) && p in v.jumps && v.labels[v.jumps[p]].defined
    ensures Arrives(v, p)
  {
    assert GotoThere(v, p) && Known(v, v.jumps[p]);
    forall d ensures Leads(v.mem, Running(p, d), Running(v.places[v.jumps[p]], d)) {
      GotoArrivesWith(v, p, d);
    }
  }

  lemma GotoArrivesWith(v: View, p: int, d: Data)
    requires Sound(v) && p in v.jumps && v.labels[v.jumps[p]].defined
    ensures v.jumps[p] in v.places && Leads(v.mem, Running(p, d), Running(v.places[v.jumps[p]], d))
  {
    var n := v.jumps[p];
    var loc := v.labels[n].loc;
    assert GotoThere(v, p) && Known(v, n);
    LeadsStep(v.mem, Running(p, d));
    assert Step(v.mem, Running(p, d)) == Running(Target(v.mem, p), d);
    if loc != v.places[n] {
      assert GotoThere(v, loc);
      LeadsStep(v.mem, Running(loc, d));
      assert Step(v.mem, Running(loc, d)) == Running(Target(v.mem, loc), d);
      if p != loc {
        LeadsTo(v.mem, Running(p, d), Running(loc, d), Running(v.places[n], d));
      }
    }
  }

  // ---- The actions of the grammar.

  datatype Result = Compiled | NoRoom | Duplicate

  /** A piece of a procedure: a label, a GOTO to one, or other code. */
  datatype Item = Put(n: string) | Jump(n: string) | Other(ws: seq<int>)

  function Length(item: Item): nat {
    match item
    case Put(_) => 0
    case Jump(_) => 3
    case Other(ws) => |ws|
  }

  /** Where item n begins, if the first one begins at pc. */
  function PcAt(pc: int, items: seq<Item>, n: nat): int
    requires n <= |items|
  {
    if n == 0 then pc else PcAt(pc, items, n - 1) + Length(items[n - 1])
  }

  /** The GOTOs after the first n items: each at the place where it begins. */
  function JumpsAfter(jumps: map<int, string>, pc: int, items: seq<Item>, n: nat): map<int, string>
    requires n <= |items|
  {
    if n == 0 then jumps
    else match items[n - 1]
      case Jump(m) => JumpsAfter(jumps, pc, items, n - 1)[PcAt(pc, items, n - 1) := m]
      case _ => JumpsAfter(jumps, pc, items, n - 1)
  }

  /** The places of the labels after the first n items. */
  function PlacesAfter(places: map<string, int>, pc: int, items: seq<Item>, n: nat): map<string, int>
    requires n <= |items|
  {
    if n == 0 then places
    else match items[n - 1]
      case Put(m) => PlacesAfter(places, pc, items, n - 1)[m := PcAt(pc, items, n - 1)]
      case _ => PlacesAfter(places, pc, items, n - 1)
  }

  /** Item n cannot be compiled: its label is there already, or there is no room. */
  predicate Refused(places: map<string, int>, pc: int, items: seq<Item>, n: nat, topcs: int)
    requires n < |items|
  {
    match items[n]
    case Put(m) => m in PlacesAfter(places, pc, items, n)
    case _ => PcAt(pc, items, n) > topcs - MARGIN
  }

  lemma NoItemYet(jumps: map<int, string>, places: map<string, int>, pc: int, items: seq<Item>)
    ensures PcAt(pc, items, 0) == pc && JumpsAfter(jumps, pc, items, 0) == jumps
    ensures PlacesAfter(places, pc, items, 0) == places
  {
  }

  lemma NextItem(jumps: map<int, string>, places: map<string, int>, pc: int, items: seq<Item>, n: nat, topcs: int)
    requires n < |items|
    ensures PcAt(pc, items, n + 1) == PcAt(pc, items, n) + Length(items[n])
    ensures var j := JumpsAfter(jumps, pc, items, n);
            JumpsAfter(jumps, pc, items, n + 1) == if items[n].Jump? then j[PcAt(pc, items, n) := items[n].n] else j
    ensures var l := PlacesAfter(places, pc, items, n);
            && (Refused(places, pc, items, n, topcs) <==>
                if items[n].Put? then items[n].n in l else PcAt(pc, items, n) > topcs - MARGIN)
            && PlacesAfter(places, pc, items, n + 1) == if items[n].Put? then l[items[n].n := PcAt(pc, items, n)] else l
  {
  }

  /** Items follow each other without a gap: a label takes no room, a GOTO 3 words, other code what it has. */
  lemma ItemsFollow(pc: int, items: seq<Item>, i: nat)
    requires i < |items|
    ensures PcAt(pc, items, 0) == pc
    ensures PcAt(pc, items, i + 1) == PcAt(pc, items, i) + match items[i]
                                                           case Put(_) => 0
                                                           case Jump(_) => 3
                                                           case Other(ws) => |ws|
  {
  }

  /** A label is where the code begins that follows it. */
  lemma {:induction false} PlaceOfLabel(places: map<string, int>, pc: int, items: seq<Item>, n: nat, i: nat)
    requires i < n <= |items| && items[i].Put? && forall k :: i < k < n ==> items[k] != items[i]
    ensures items[i].n in PlacesAfter(places, pc, items, n)
    ensures PlacesAfter(places, pc, items, n)[items[i].n] == PcAt(pc, items, i)
    decreases n
  {
    hide PcAt;
    if i < n - 1 { PlaceOfLabel(places, pc, items, n - 1, i); }
  }

  /** Every GOTO is noted at its place with the label that it names. */
  lemma {:induction false} LabelOfGoto(jumps: map<int, string>, pc: int, items: seq<Item>, n: nat, i: nat)
    requires i < n <= |items| && items[i].Jump?
    ensures PcAt(pc, items, i) in JumpsAfter(jumps, pc, items, n)
    ensures JumpsAfter(jumps, pc, items, n)[PcAt(pc, items, i)] == items[i].n
    decreases n
  {
    hide PcAt;
    if i < n - 1 {
      LabelOfGoto(jumps, pc, items, n - 1, i);
      PcGrows(pc, items, i, n - 1);
    }
  }

  /** Running the code from a on comes to b, with the same data, whatever these are. */
  ghost predicate GoesTo(mem: seq<int>, a: int, b: int) {
    forall d :: Leads(mem, Running(a, d), Running(b, d))
  }

  /** Where no item is refused, no label is put twice. */
  lemma NotTwice(places: map<string, int>, pc: int, items: seq<Item>, n: nat, topcs: int, j: nat, k: nat)
    requires j < k < n <= |items| && items[j].Put? && !Refused(places, pc, items, k, topcs)
    requires forall l :: j < l < k ==> items[l] != items[j]
    ensures items[k] != items[j]
  {
    PlaceOfLabel(places, pc, items, k, j);
  }

  lemma {:induction false} NeverTwice(places: map<string, int>, pc: int, items: seq<Item>, n: nat, topcs: int, j: nat,
                                      k: nat)
    requires j < k <= n <= |items| && items[j].Put?
    requires forall i :: 0 <= i < n ==> !Refused(places, pc, items, i, topcs)
    ensures forall l :: j < l < k ==> items[l] != items[j]
    decreases k
  {
    hide Refused;
    if j < k - 1 {
      NeverTwice(places, pc, items, n, topcs, j, k - 1);
      NotTwice(places, pc, items, n, topcs, j, k - 1);
    }
  }

  /** Every GOTO among the items goes to the item that puts its label, before it or behind it. */
  lemma GotosGo(v: View, jumps: map<int, string>, places: map<string, int>, pc: int, items: seq<Item>, n: nat,
                topcs: int)
    requires n <= |items| && forall i :: 0 <= i < n ==> !Refused(places, pc, items, i, topcs)
    requires v.jumps == JumpsAfter(jumps, pc, items, n) && v.places == PlacesAfter(places, pc, items, n)
    requires forall p :: p in v.jumps && v.jumps[p] in v.places ==> Arrives(v, p)
    ensures forall i, j :: 0 <= i < n && 0 <= j < n && items[i].Jump? && items[j] == Put(items[i].n) ==>
              GoesTo(v.mem, PcAt(pc, items, i), PcAt(pc, items, j))
  {
    hide Refused, PcAt, JumpsAfter, PlacesAfter;
    forall i, j | 0 <= i < n && 0 <= j < n && items[i].Jump? && items[j] == Put(items[i].n)
      ensures GoesTo(v.mem, PcAt(pc, items, i), PcAt(pc, items, j))
    {
      LabelOfGoto(jumps, pc, items, n, i);
      NeverTwice(places, pc, items, n, topcs, j, n);
      PlaceOfLabel(places, pc, items, n, j);
      assert Arrives(v, PcAt(pc, items, i));
    }
  }

  /** Other code lies where it has been put. */
  ghost predicate Laid(mem: seq<int>, pc: int, items: seq<Item>, n: nat)
    requires n <= |items|
  {
    forall k :: 0 <= k < n && items[k].Other? ==> At(mem, PcAt(pc, items, k), items[k].ws)
  }

  /** A GOTO lies below the code of the first n items, or is one of them. */
  ghost predicate IsOld(p: int, pc: int, items: seq<Item>, n: nat)
    requires n <= |items|
  {
    p + 3 <= pc || exists k :: 0 <= k < n && items[k].Jump? && p == PcAt(pc, items, k)
  }

  ghost predicate AllOld(jumps: map<int, string>, pc: int, items: seq<Item>, n: nat)
    requires n <= |items|
  {
    forall p :: p in jumps ==> IsOld(p, pc, items, n)
  }

  /** Only arguments of GOTOs have changed below the place pc. */
  ghost predicate OnlyArguments(before: seq<int>, after: seq<int>, jumps: map<int, string>, pc: int) {
    && |after| == |before|
    && forall c :: 0 <= c < pc && c < |before| && after[c] != before[c] ==> c - 2 in jumps
  }

  lemma {:induction false} PcGrows(pc: int, items: seq<Item>, j: nat, k: nat)
    requires j < k <= |items|
    ensures PcAt(pc, items, j) + Length(items[j]) <= PcAt(pc, items, k)
    decreases k
  {
    if j < k - 1 { PcGrows(pc, items, j, k - 1); }
  }

  /** Other code is not where a GOTO is. */
  lemma OtherApart(p: int, pc: int, items: seq<Item>, n: nat, k: nat)
    requires k < n <= |items| && items[k].Other? && IsOld(p, pc, items, n)
    ensures p + 3 <= PcAt(pc, items, k) || PcAt(pc, items, k) + |items[k].ws| <= p
  {
    if p + 3 <= pc {
      if k > 0 { PcGrows(pc, items, 0, k); }
    } else {
      var j :| 0 <= j < n && items[j].Jump? && p == PcAt(pc, items, j);
      if j < k { PcGrows(pc, items, j, k); } else { PcGrows(pc, items, k, j); }
    }
  }

  lemma LaidStays(before: seq<int>, after: seq<int>, jumps: map<int, string>, pc: int, items: seq<Item>, n: nat)
    requires n <= |items| && Laid(before, pc, items, n) && AllOld(jumps, pc, items, n)
    requires OnlyArguments(before, after, jumps, PcAt(pc, items, n))
    ensures Laid(after, pc, items, n)
  {
    forall k | 0 <= k < n && items[k].Other? ensures At(after, PcAt(pc, items, k), items[k].ws) {
      var b, ws := PcAt(pc, items, k), items[k].ws;
      PcGrows(pc, items, k, n);
      assert At(before, b, ws);
      forall c | b <= c < b + |ws| ensures after[c] == before[c] {
        if after[c] != before[c] { OtherApart(c - 2, pc, items, n, k); }
      }
      assert after[b..b + |ws|] == before[b..b + |ws|];
    }
  }

  /** One more item has been compiled. */
  lemma LaidMore(before: seq<int>, after: seq<int>, jumps: map<int, string>, jumps': map<int, string>, pc: int,
                 items: seq<Item>, n: nat)
    requires n < |items| && Laid(before, pc, items, n) && AllOld(jumps, pc, items, n)
    requires OnlyArguments(before, after, jumps, PcAt(pc, items, n))
    requires items[n].Other? ==> At(after, PcAt(pc, items, n), items[n].ws)
    requires jumps' == if items[n].Jump? then jumps[PcAt(pc, items, n) := items[n].n] else jumps
    ensures Laid(after, pc, items, n + 1) && AllOld(jumps', pc, items, n + 1)
  {
    LaidStays(before, after, jumps, pc, items, n);
    forall p | p in jumps' ensures IsOld(p, pc, items, n + 1) {
      if p in jumps { assert IsOld(p, pc, items, n); }
    }
  }

  lemma JumpsAreOld(v: View, items: seq<Item>)
    requires Sound(v)
    ensures AllOld(v.jumps, v.pc, items, 0)
  {
    forall p | p in v.jumps ensures IsOld(p, v.pc, items, 0) {
      assert GotoThere(v, p);
    }
  }

  /** Every label that has a place is entered as defined. */
  predicate AllDefined(labels: map<string, Label>, places: map<string, int>) {
    forall n :: n in places ==> n in labels && labels[n].defined
  }

  class ProcedureCompiler {
    const stack: array<int>
    const gotos: PendingGotos
    const topcs: int
    var pc: int
    var labels: map<string, Label>
    ghost var jumps: map<int, string>
    ghost var places: map<string, int>
    ghost var pending: seq<int>
    ghost var rest: int

    ghost function Now(): (v: View)
      reads this, stack
      ensures v.pc == pc && v.labels == labels && v.jumps == jumps && v.pending == pending && |v.mem| == stack.Length
    {
      View(stack[..], pc, labels, jumps, places, pending)
    }

    ghost predicate Valid()
      reads this, stack, gotos
    {
      && gotos.stack == stack && 0 <= topcs <= stack.Length && gotos.igoto1 >= -1 && rest >= -1
      && Sound(Now()) && Chain(stack[..], gotos.igoto1, pending, rest)
      && AllDefined(labels, places)
    }

    /** A new procedure starts without labels; GOTOs that an earlier one has left pending stay in the list. */
    constructor (stack: array<int>, pc: int, igoto1: int)
      requires 0 <= pc <= stack.Length && igoto1 >= -1
      ensures Valid() && this.stack == stack && this.pc == pc && labels == map[] && pending == [] && fresh(gotos)
    {
      this.stack, this.pc, this.topcs := stack, pc, stack.Length;
      gotos := new PendingGotos(stack, igoto1);
      labels, jumps, places, pending, rest := map[], map[], map[], [], igoto1;
    }

    /** The label is defined here. */
    method PutLabel(n: string) returns (r: Result)
      requires Valid()
      modifies this, stack, gotos
      ensures Valid()
      ensures r == Duplicate <==> n in old(labels) && old(labels)[n].defined
      ensures r == Duplicate ==> Now() == old(Now())
      ensures r != Duplicate ==> r == Compiled && places == old(places)[n := pc] && n in labels && labels[n].defined
      ensures pc == old(pc) && jumps == old(jumps)
      ensures OnlyArguments(old(stack[..]), stack[..], jumps, pc)
      ensures forall m :: m != n ==>
                (m in labels <==> m in old(labels)) && (m in labels ==> labels[m] == old(labels)[m])
    {
      hide Sound, Chain, Apart, Without, AllDefined;
      ghost var v := Now();
      LabelClosed(labels, places, n, pc, pc);
      if n !in labels {
        labels, places := labels[n := Label(pc, true)], places[n := pc];
        LabelFirst(v, Now(), n);
        return Compiled;
      }
      var l := labels[n];
      if l.defined {
        return Duplicate;
      }
      ResolveLabel(n, l.loc);
      r := Compiled;
    }

    /** The label, for which the GOTO at loc waits, is defined here. */
    method ResolveLabel(n: string, loc: int)
      requires Valid() && n in labels && !labels[n].defined && labels[n].loc == loc
      modifies this, stack, gotos
      ensures Valid()
      ensures pc == old(pc) && jumps == old(jumps)
      ensures OnlyArguments(old(stack[..]), stack[..], jumps, pc)
      ensures places == old(places)[n := pc] && labels == old(labels)[n := Label(loc, true)]
    {
      hide Sound, Chain, Apart, Without, Resolves, OnlyArguments, AllDefined;
      ghost var v := Now();
      LabelClosed(labels, places, n, loc, pc);
      ghost var i := AwaitedAt(v, n);
      FallingPlaces(v, i);
      gotos.Resolve(loc, pc, pending, rest, i);
      pending := Without(pending, i);
      labels, places := labels[n := Label(loc, true)], places[n := pc];
      Resolved(v, Now(), n, i);
      LabelAwaited(v, Now(), n, i);
      ResolvedOnly(v, Now(), n, i);
    }

    /** A GOTO to a label, defined or not. */
    method Goto(n: string) returns (r: Result)
      requires Valid()
      modifies this, stack, gotos
      ensures Valid()
      ensures r == NoRoom <==> old(pc) > topcs - MARGIN
      ensures r == NoRoom ==> Now() == old(Now())
      ensures r != NoRoom ==>
                r == Compiled && pc == old(pc) + 3 && jumps == old(jumps)[old(pc) := n] && places == old(places)
      ensures OnlyArguments(old(stack[..]), stack[..], old(jumps), old(pc))
      ensures r != NoRoom ==> n in labels && (n in old(labels) ==> labels == old(labels))
      ensures r != NoRoom && n !in old(labels) ==> labels == old(labels)[n := Label(old(pc), false)]
    {
      hide Chain, Sound, Apart, GoesFirst, Falling, OnlyArguments, AllDefined;
      SoundRange(Now());
      NothingBelow(stack[..], stack[..], jumps, pc);
      if pc > topcs - MARGIN {
        return NoRoom;
      }
      ghost var v := Now();
      SoundRange(v);
      if n in labels {
        WriteGoto(labels[n].loc - pc - 3);
        assert Chain(stack[..], gotos.igoto1, pending, rest);
        NothingBelow(v.mem, stack[..], jumps, pc);
        jumps := jumps[pc := n];
        pc := pc + 3;
        GotoKnown(v, Now(), n);
      } else {
        FirstGotoTo(n);
      }
      r := Compiled;
    }

    /** The first GOTO to a label that is not there yet has to wait for it. */
    method FirstGotoTo(n: string)
      requires Valid() && n !in labels && pc + 3 <= stack.Length
      modifies this, stack, gotos
      ensures Valid()
      ensures pc == old(pc) + 3 && jumps == old(jumps)[old(pc) := n] && places == old(places)
      ensures OnlyArguments(old(stack[..]), stack[..], old(jumps), old(pc))
      ensures labels == old(labels)[n := Label(old(pc), false)]
    {
      hide Chain, Sound, Apart, GoesFirst, Falling, OnlyArguments, AllDefined, At;
      ghost var v := Now();
      SoundRange(v);
      LabelOpened(labels, places, n, pc);
      labels := labels[n := Label(pc, false)];
      WriteGoto(0);
      FallingNew(v);
      assert Chain(stack[..], gotos.igoto1, pending, rest);
      ghost var mem, head := stack[..], gotos.igoto1;
      gotos.SetIgoto(pc, pending, rest);
      jumps, pending := jumps[pc := n], [pc] + pending;
      pc := pc + 3;
      GoingFirst(v, Now(), n, mem, head);
      GotoFirst(v, Now(), n);
    }

    method WriteGoto(arg: int)
      requires gotos.stack == stack && 0 <= pc && pc + 3 <= stack.Length
      modifies stack
      ensures stack[..pc] == old(stack[..pc]) && At(stack[..], pc, [GOTO, 3, arg])
      ensures forall head, list, rest :: Chain(old(stack[..]), head, list, rest) && Falling(list, pc) ==>
                Chain(stack[..], head, list, rest)
    {
      ghost var mem := stack[..];
      stack[pc], stack[pc + 1], stack[pc + 2] := GOTO, 3, arg;
      forall head, list, rest | Chain(mem, head, list, rest) && Falling(list, pc)
        ensures Chain(stack[..], head, list, rest)
      {
        ChainBelow(mem, stack[..], pc, head, list, rest);
      }
    }

    /** Other code, without GOTOs to labels. */
    method Append(ws: seq<int>) returns (r: Result)
      requires Valid() && (pc > topcs - MARGIN || pc + |ws| <= stack.Length)
      modifies this, stack
      ensures Valid()
      ensures r == NoRoom <==> old(pc) > topcs - MARGIN
      ensures r == NoRoom ==> Now() == old(Now())
      ensures r != NoRoom ==> r == Compiled && pc == old(pc) + |ws| && At(stack[..], old(pc), ws)
      ensures labels == old(labels) && jumps == old(jumps) && places == old(places)
      ensures OnlyArguments(old(stack[..]), stack[..], jumps, old(pc))
    {
      hide Chain, Sound, OnlyArguments, AllDefined;
      ghost var v := Now();
      SoundRange(v);
      NothingBelow(v.mem, v.mem, jumps, pc);
      if pc > topcs - MARGIN {
        return NoRoom;
      }
      for k := 0 to |ws|
        invariant pc == v.pc
        invariant stack[..pc] == v.mem[..pc] && stack[pc..pc + k] == ws[..k]
        invariant labels == v.labels && jumps == v.jumps && places == v.places && pending == v.pending
        invariant rest == old(rest) && gotos.igoto1 == old(gotos.igoto1)
      {
        stack[pc + k] := ws[k];
      }
      ChainBeyond(v, stack[..], gotos.igoto1, rest);
      NothingBelow(v.mem, stack[..], jumps, pc);
      pc := pc + |ws|;
      SoundGrows(v, Now());
      r := Compiled;
    }

    /** One item of a procedure. */
    method CompileItem(item: Item) returns (r: Result)
      requires Valid() && (item.Other? ==> pc > topcs - MARGIN || pc + |item.ws| <= stack.Length)
      modifies this, stack, gotos
      ensures Valid()
      ensures r == Duplicate <==> item.Put? && item.n in old(places)
      ensures r == NoRoom <==> !item.Put? && old(pc) > topcs - MARGIN
      ensures r == Compiled ==> pc == old(pc) + Length(item)
      ensures r == Compiled ==> jumps == if item.Jump? then old(jumps)[old(pc) := item.n] else old(jumps)
      ensures r == Compiled ==> places == if item.Put? then old(places)[item.n := old(pc)] else old(places)
      ensures r == Compiled && item.Other? ==> At(stack[..], old(pc), item.ws)
      ensures OnlyArguments(old(stack[..]), stack[..], old(jumps), old(pc))
      ensures r != Compiled ==> pc == old(pc) && jumps == old(jumps) && places == old(places)
    {
      DefinedPlaces();
      hide Sound, Chain, At, OnlyArguments, AllDefined;
      match item {
        case Put(n) => r := PutLabel(n);
        case Jump(n) => r := Goto(n);
        case Other(ws) => r := Append(ws);
      }
    }

    lemma DefinedPlaces()
      requires Valid()
      ensures forall n :: n in places <==> n in labels && labels[n].defined
    {
      forall n | n in labels && labels[n].defined ensures n in places {
        assert Known(Now(), n);
      }
    }

    /** A whole procedure: items are compiled one behind the other, up to the first one that is refused, if
        any; every GOTO and every label is where its item begins, and other code is left as it is. Every
        GOTO to a label that is defined by the end leads to that label, whether it came before it or after it. */
    method Process(items: seq<Item>) returns (ok: bool, n: nat)
      requires Valid()
      requires forall i :: 0 <= i < |items| && items[i].Other? ==>
                 PcAt(pc, items, i) > topcs - MARGIN || PcAt(pc, items, i) + |items[i].ws| <= stack.Length
      modifies this, stack, gotos
      ensures Valid() && n <= |items| && (ok <==> n == |items|)
      ensures forall i :: 0 <= i < n ==> !Refused(old(places), old(pc), items, i, topcs)
      ensures !ok ==> Refused(old(places), old(pc), items, n, topcs)
      ensures pc == PcAt(old(pc), items, n)
      ensures jumps == JumpsAfter(old(jumps), old(pc), items, n)
              && places == PlacesAfter(old(places), old(pc), items, n)
      ensures Laid(stack[..], old(pc), items, n)
      ensures forall p :: p in jumps && jumps[p] in places ==> Arrives(Now(), p)
      ensures forall i, j :: 0 <= i < n && 0 <= j < n && items[i].Jump? && items[j] == Put(items[i].n) ==>
                GoesTo(stack[..], PcAt(old(pc), items, i), PcAt(old(pc), items, j))
    {
      hide Sound, Chain, Laid, AllOld, At, OnlyArguments, Arrives, AllDefined;
      hide PcAt, JumpsAfter, PlacesAfter, Refused, Length, GoesTo;
      NoItemYet(jumps, places, pc, items);
      ok, n := true, 0;
      ghost var pc0 := pc;
      JumpsAreOld(Now(), items);
      NothingLaid(stack[..], pc, items);
      while n < |items|
        invariant n <= |items| && ok && Valid()
        invariant forall i :: 0 <= i < n ==> !Refused(old(places), pc0, items, i, topcs)
        invariant pc == PcAt(pc0, items, n)
        invariant jumps == JumpsAfter(old(jumps), pc0, items, n) && places == PlacesAfter(old(places), pc0, items, n)
        invariant Laid(stack[..], pc0, items, n) && AllOld(jumps, pc0, items, n)
      {
        ghost var mem, before := stack[..], jumps;
        NextItem(old(jumps), old(places), pc0, items, n, topcs);
        var r := CompileItem(items[n]);
        if r != Compiled {
          LaidStays(mem, stack[..], before, pc0, items, n);
          ok := false;
          break;
        }
        LaidMore(mem, stack[..], before, jumps, pc0, items, n);
        n := n + 1;
      }
      AllArrive();
      GotosGo(Now(), old(jumps), old(places), pc0, items, n, topcs);
    }

    lemma AllArrive()
      requires Valid()
      ensures forall p :: p in jumps && jumps[p] in places ==> Arrives(Now(), p)
    {
      hide Arrives;
      ghost var v := Now();
      forall p | p in jumps && jumps[p] in places ensures Arrives(v, p) {
        GotoArrives(v, p);
      }
    }
  }

  lemma NothingBelow(before: seq<int>, after: seq<int>, jumps: map<int, string>, pc: int)
    requires 0 <= pc <= |before| == |after| && before[..pc] == after[..pc]
    ensures OnlyArguments(before, after, jumps, pc)
  {
    forall c | 0 <= c < pc ensures after[c] == before[c] {
      assert after[..pc][c] == before[..pc][c];
    }
  }

  lemma NothingLaid(mem: seq<int>, pc: int, items: seq<Item>)
    ensures Laid(mem, pc, items, 0)
  {
  }

  lemma SoundRange(v: View)
    requires Sound(v)
    ensures 0 <= v.pc <= |v.mem| && Falling(v.pending, v.pc)
  {
  }

  lemma FallingNew(v: View)
    requires Sound(v)
    ensures Apart([v.pc] + v.pending)
  {
    FallingApart(v.pending, v.pc, v.pc);
  }

  lemma FallingPlaces(v: View, i: nat)
    requires Sound(v) && i < |v.pending|
    ensures Apart(v.pending) && (i > 0 ==> v.pending[i - 1] != 0)
    ensures 0 <= v.pending[i] && v.pending[i] + 2 < |v.mem|
  {
    FallingApart(v.pending, v.pc, v.pc);
    FallingWithout(v.pending, v.pc, i);
  }

  /** Where the first GOTO to an undefined label stands in the list. */
  lemma AwaitedAt(v: View, n: string) returns (i: nat)
    requires Sound(v) && n in v.labels && !v.labels[n].defined
    ensures i < |v.pending| && v.pending[i] == v.labels[n].loc
  {
    assert Known(v, n);
    i :| i < |v.pending| && v.pending[i] == v.labels[n].loc;
  }

  lemma GoingFirst(v: View, w: View, n: string, mem: seq<int>, head: int)
    requires n !in v.labels && 0 <= v.pc && v.pc + 3 <= |v.mem| == |mem|
    requires mem[..v.pc] == v.mem[..v.pc] && At(mem, v.pc, [GOTO, 3, 0]) && w.mem == mem[v.pc + 2 := head]
    requires w == v.(mem := w.mem, pc := v.pc + 3, jumps := v.jumps[v.pc := n],
                     labels := v.labels[n := Label(v.pc, false)], pending := [v.pc] + v.pending)
    ensures GoesFirst(v, w, n) && OnlyArguments(v.mem, w.mem, v.jumps, v.pc)
  {
    hide OnlyArguments;
    WordAt(mem, v.pc, [GOTO, 3, 0], 0);
    WordAt(mem, v.pc, [GOTO, 3, 0], 1);
    NothingBelow(v.mem, w.mem, v.jumps, v.pc);
  }

  lemma LabelOpened(labels: map<string, Label>, places: map<string, int>, n: string, loc: int)
    requires AllDefined(labels, places) && n !in labels
    ensures AllDefined(labels[n := Label(loc, false)], places)
  {
  }

  lemma LabelClosed(labels: map<string, Label>, places: map<string, int>, n: string, loc: int, place: int)
    requires AllDefined(labels, places)
    ensures AllDefined(labels[n := Label(loc, true)], places[n := place])
  {
  }

  lemma ChainBeyond(v: View, mem: seq<int>, head: int, rest: int)
    requires Sound(v) && Chain(v.mem, head, v.pending, rest) && |mem| == |v.mem| && mem[..v.pc] == v.mem[..v.pc]
    ensures Chain(mem, head, v.pending, rest)
  {
    ChainBelow(v.mem, mem, v.pc, head, v.pending, rest);
  }

  /** The list lies below pc. */
  lemma ChainBelow(mem: seq<int>, after: seq<int>, pc: int, head: int, list: seq<int>, rest: int)
    requires Falling(list, pc) && Chain(mem, head, list, rest) && 0 <= pc <= |after| == |mem|
             && after[..pc] == mem[..pc]
    ensures Chain(after, head, list, rest)
  {
    forall i | 0 <= i < |list| ensures Linked(after, list, rest, i) {
      assert Linked(mem, list, rest, i);
      SameBelow(mem, after, pc, list[i]);
    }
  }
}
