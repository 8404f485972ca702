/** Lists threaded through a memory of links: the dictionary's packages, ltasks, pfiles and params. */
module Chains {
  const NULL: int := -1

  /** From head, the links lead through the addresses s, in that order, to NULL. */
  predicate Linked(next: map<int, int>, head: int, s: seq<int>)
    decreases |s|
  {
    if s == [] then head == NULL
    else head == s[0] && head >= 0 && head in next && Linked(next, next[head], s[1..])
  }

  ghost predicate Descending(s: seq<int>) {
    forall i, j :: 0 <= i < j < |s| ==> s[i] > s[j]
  }

  ghost predicate Ascending(s: seq<int>) {
    forall i, j :: 0 <= i < j < |s| ==> s[i] < s[j]
  }

  /** What is left of a chain when the memory is cut off at top. */
  function Below(s: seq<int>, top: int): (r: seq<int>)
    ensures |r| <= |s|
    ensures forall a :: a in r <==> a in s && a < top
  {
    if s == [] then []
    else if s[0] < top then [s[0]] + Below(s[1..], top)
    else Below(s[1..], top)
  }

  ghost predicate AllBelow(s: seq<int>, top: int) {
    forall a :: a in s ==> a < top
  }

  /** The same head and links make the same chain. */
  lemma {:induction false} LinkedUnique(next: map<int, int>, head: int, s: seq<int>, t: seq<int>)
    requires Linked(next, head, s) && Linked(next, head, t)
    ensures s == t
    decreases |s|
  {
    if s != [] {
      LinkedUnique(next, next[head], s[1..], t[1..]);
      assert s == [s[0]] + s[1..] && t == [t[0]] + t[1..];
    }
  }

  lemma {:induction false} LinkedFrom(next: map<int, int>, head: int, s: seq<int>, k: nat)
    requires Linked(next, head, s) && k <= |s|
    ensures k < |s| ==> s[k] >= 0 && s[k] in next && Linked(next, s[k], s[k..])
    ensures k < |s| ==> Linked(next, next[s[k]], s[k + 1..])
    decreases |s|
  {
    if k == 0 {
      assert s[0..] == s;
    } else {
      LinkedFrom(next, next[head], s[1..], k - 1);
      assert k < |s| ==> s[1..][k - 1..] == s[k..] && s[1..][k..] == s[k + 1..];
    }
  }

  lemma SuffixFacts(s: seq<int>, k: nat)
    requires k <= |s|
    ensures forall a :: a in s[k..] ==> a in s
    ensures Descending(s) ==> Descending(s[k..])
  {
  }

  /** One step along a chain. */
  lemma LinkedStep(next: map<int, int>, at: int, s: seq<int>, k: nat)
    requires k <= |s| && Linked(next, at, s[k..]) && at != NULL
    ensures k < |s| && at == s[k] && at in next && Linked(next, next[at], s[k + 1..])
  {
    assert s[k..][1..] == s[k + 1..];
  }

  /** A chain does not notice changes elsewhere. */
  lemma {:induction false} LinkedFrame(next: map<int, int>, next': map<int, int>, head: int, s: seq<int>)
    requires Linked(next, head, s)
    requires forall a :: a in s && a in next ==> a in next' && next'[a] == next[a]
    ensures Linked(next', head, s)
    decreases |s|
  {
    if s != [] {
      LinkedFrame(next, next', next[head], s[1..]);
    }
  }

  /** Cutting a chain after its first k elements. */
  lemma {:induction false} LinkedCut(next: map<int, int>, head: int, s: seq<int>, k: nat)
    requires Linked(next, head, s) && 1 <= k <= |s|
    requires forall i, j :: 0 <= i < j < |s| ==> s[i] != s[j]
    ensures Linked(next[s[k - 1] := NULL], head, s[..k])
    decreases |s|
  {
    var next' := next[s[k - 1] := NULL];
    if k == 1 {
      assert s[..1][1..] == [];
    } else {
      LinkedCut(next, next[head], s[1..], k - 1);
      assert s[1..][..k - 1] == s[..k][1..];
    }
  }

  /** Appending to a chain at its last element. */
  lemma {:induction false} LinkedAppend(next: map<int, int>, head: int, s: seq<int>, a: int)
    requires Linked(next, head, s) && s != [] && a >= 0 && a !in s
    requires forall i, j :: 0 <= i < j < |s| ==> s[i] != s[j]
    ensures Linked(next[a := NULL][s[|s| - 1] := a], head, s + [a])
    decreases |s|
  {
    var next' := next[a := NULL][s[|s| - 1] := a];
    if |s| == 1 {
      assert (s + [a])[1..] == [a];
      assert Linked(next', a, [a]);
    } else {
      LinkedAppend(next, next[head], s[1..], a);
      assert (s + [a])[1..] == s[1..] + [a];
    }
  }

  /** A descending chain loses its front, */
  lemma {:induction false} BelowDescending(s: seq<int>, top: int, k: nat)
    requires Descending(s) && k <= |s|
    requires forall i :: 0 <= i < k ==> s[i] >= top
    requires k < |s| ==> s[k] < top
    ensures Below(s, top) == s[k..]
    decreases |s|
  {
    if s != [] {
      if k == 0 {
        BelowDescending(s[1..], top, 0);
        assert s == [s[0]] + s[1..];
      } else {
        BelowDescending(s[1..], top, k - 1);
        assert s[1..][k - 1..] == s[k..];
      }
    }
  }

  /** and an ascending one its end. */
  lemma {:induction false} BelowAscending(s: seq<int>, top: int, k: nat)
    requires Ascending(s) && k <= |s|
    requires forall i :: 0 <= i < k ==> s[i] < top
    requires k < |s| ==> s[k] >= top
    ensures Below(s, top) == s[..k]
    decreases |s|
  {
    if s != [] {
      if k == 0 {
        BelowAscending(s[1..], top, 0);
      } else {
        BelowAscending(s[1..], top, k - 1);
        assert s[..k] == [s[0]] + s[1..][..k - 1];
      }
    }
  }

  lemma {:induction false} BelowAll(s: seq<int>, top: int)
    requires AllBelow(s, top)
    ensures Below(s, top) == s
    decreases |s|
  {
    if s != [] {
      assert s[0] in s && forall a :: a in s[1..] ==> a in s;
      BelowAll(s[1..], top);
      assert s == [s[0]] + s[1..];
    }
  }

  lemma AllBelowAt(s: seq<int>, top: int)
    requires AllBelow(s, top)
    ensures forall i :: 0 <= i < |s| ==> s[i] < top
  {
    forall i | 0 <= i < |s| ensures s[i] < top {
      assert s[i] in s;
    }
  }

  /** Cutting at top and then at a mark below it is cutting at the mark. */
  lemma {:induction false} BelowBelow(s: seq<int>, top: int, mark: int)
    requires mark <= top
    ensures Below(Below(s, top), mark) == Below(s, mark)
    decreases |s|
  {
    if s != [] {
      BelowBelow(s[1..], top, mark);
      if s[0] < top {
        assert ([s[0]] + Below(s[1..], top))[1..] == Below(s[1..], top);
      }
    }
  }
}
