/** Putting the parameters of a procedure into the order of its procedure statement. */
module ProcParams {
  import opened Chains
  import opened Options

  const M_AUTO: bv16 := 1
  const M_HIDDEN: bv16 := 4

  /** The parameters in memory: their names, modes and links. */
  datatype Params = Params(names: map<int, string>, modes: map<int, bv16>, np: map<int, int>)

  ghost predicate Distinct(s: seq<int>) {
    forall i, j :: 0 <= i < j < |s| ==> s[i] != s[j]
  }

  ghost predicate Known(m: Params, s: seq<int>) {
    forall p :: p in s ==> p in m.names && p in m.modes
  }

  /** From head on there is the list s. */
  ghost predicate IsList(m: Params, head: int, s: seq<int>) {
    AsOne(Linked(m.np, head, s) && Distinct(s) && Known(m, s))
  }

  // ---- The order that is asked for.

  function Without(s: seq<int>, k: nat): seq<int>
    requires k < |s|
  {
    s[..k] + s[k + 1..]
  }

  /** The first parameter with a name, |s| if there is none. */
  function Find(names: map<int, string>, s: seq<int>, name: string): (k: nat)
    ensures k <= |s| && (k < |s| ==> s[k] in names && names[s[k]] == name)
    ensures forall i :: 0 <= i < k && s[i] in names ==> names[s[i]] != name
  {
    if s == [] || (s[0] in names && names[s[0]] == name) then 0 else 1 + Find(names, s[1..], name)
  }

  /** Take the parameters with the given names out of s, the last name first: what is taken, in the order of
      the names, and what is left; None if there is none for a name. */
  function Pick(names: map<int, string>, s: seq<int>, wanted: seq<string>): Option<(seq<int>, seq<int>)> {
    if wanted == [] then Some(([], s))
    else
      var k := Find(names, s, wanted[|wanted| - 1]);
      if k == |s| then None
      else match Pick(names, Without(s, k), wanted[..|wanted| - 1])
        case None => None
        case Some((taken, left)) => Some((taken + [s[k]], left))
  }

  function ListedMode(mode: bv16): bv16 {
    if mode & M_HIDDEN != 0 then (mode & !M_HIDDEN) | M_AUTO else if mode == 0 then M_AUTO else mode
  }

  function OtherMode(mode: bv16): bv16 {
    if mode == 0 then M_HIDDEN else mode
  }

  lemma ModesAreSet(mode: bv16)
    ensures ListedMode(mode) != 0 && ListedMode(mode) & M_HIDDEN == 0 && OtherMode(mode) != 0
    ensures mode & M_HIDDEN == 0 && mode != 0 ==> ListedMode(mode) == mode
    ensures mode != 0 ==> OtherMode(mode) == mode
  {
  }

  /** No other bits change: 4 is hidden mode, which gives way to 1, automatic mode. */
  lemma BitsStay(mode: bv16)
    ensures ListedMode(mode) & 0xFFFA == mode & 0xFFFA && OtherMode(mode) & 0xFFFB == mode & 0xFFFB
    ensures mode & 4 != 0 || mode == 0 ==> ListedMode(mode) & 1 == 1
    ensures OtherMode(0) == 4
  {
  }

  /** What of s is not in taken, in the order of s. */
  function Rest(s: seq<int>, taken: set<int>): (r: seq<int>)
    ensures forall p :: p in r <==> p in s && p !in taken
  {
    if s == [] then [] else (if s[0] in taken then [] else [s[0]]) + Rest(s[1..], taken)
  }

  /** The names come out in their order, the other parameters keep theirs, and none gets lost or doubled. */
  lemma PickPermutes(names: map<int, string>, s: seq<int>, wanted: seq<string>)
    requires Distinct(s) && Pick(names, s, wanted).Some?
    ensures var (taken, left) := Pick(names, s, wanted).value;
            && |taken| == |wanted|
            && (forall i :: 0 <= i < |taken| ==> taken[i] in names && names[taken[i]] == wanted[i])
            && multiset(taken + left) == multiset(s) && Distinct(taken + left)
            && left == Rest(s, Elements(taken))
  {
    PickNames(names, s, wanted);
    PickElements(names, s, wanted);
    PickRest(names, s, wanted);
    var (taken, left) := Pick(names, s, wanted).value;
    SameDistinct(s, taken + left);
  }

  ghost function Elements(s: seq<int>): set<int> {
    set p | p in s
  }

  lemma ElementsSnoc(s: seq<int>, p: int)
    ensures Elements(s + [p]) == Elements(s) + {p}
  {
  }

  lemma {:induction false} PickNames(names: map<int, string>, s: seq<int>, wanted: seq<string>)
    requires Pick(names, s, wanted).Some?
    ensures var (taken, left) := Pick(names, s, wanted).value;
            |taken| == |wanted| && forall i :: 0 <= i < |taken| ==> taken[i] in names && names[taken[i]] == wanted[i]
    decreases |wanted|
  {
    if wanted != [] {
      var k := Find(names, s, wanted[|wanted| - 1]);
      PickNames(names, Without(s, k), wanted[..|wanted| - 1]);
    }
  }

  lemma {:induction false} PickElements(names: map<int, string>, s: seq<int>, wanted: seq<string>)
    requires Pick(names, s, wanted).Some?
    ensures var (taken, left) := Pick(names, s, wanted).value; multiset(taken + left) == multiset(s)
    decreases |wanted|
  {
    if wanted == [] {
      assert [] + s == s;
    } else {
      var k := Find(names, s, wanted[|wanted| - 1]);
      PickElements(names, Without(s, k), wanted[..|wanted| - 1]);
      var (taken, left) := Pick(names, Without(s, k), wanted[..|wanted| - 1]).value;
      OneBetween(taken, s[k], left, s, k);
    }
  }

  lemma OneBetween(taken: seq<int>, p: int, left: seq<int>, s: seq<int>, k: nat)
    requires k < |s| && s[k] == p && multiset(taken + left) == multiset(Without(s, k))
    ensures multiset(taken + [p] + left) == multiset(s)
  {
    assert multiset(taken + [p] + left) == multiset(taken + left) + multiset{p};
    assert s == s[..k] + [s[k]] + s[k + 1..];
  }

  lemma {:induction false} PickRest(names: map<int, string>, s: seq<int>, wanted: seq<string>)
    requires Distinct(s) && Pick(names, s, wanted).Some?
    ensures var (taken, left) := Pick(names, s, wanted).value; left == Rest(s, Elements(taken))
    decreases |wanted|
  {
    if wanted == [] {
      assert Elements([]) == {};
      RestOfNone(s);
    } else {
      var k := Find(names, s, wanted[|wanted| - 1]);
      WithoutFacts(s, k);
      PickRest(names, Without(s, k), wanted[..|wanted| - 1]);
      var (taken, left) := Pick(names, Without(s, k), wanted[..|wanted| - 1]).value;
      RestWithout(s, k, Elements(taken));
      ElementsSnoc(taken, s[k]);
    }
  }

  lemma {:induction false} RestOfNone(s: seq<int>)
    ensures Rest(s, {}) == s
  {
    if s != [] {
      RestOfNone(s[1..]);
    }
  }

  lemma WithoutFacts(s: seq<int>, k: nat)
    requires k < |s| && Distinct(s)
    ensures Distinct(Without(s, k)) && s[k] !in Without(s, k) && |Without(s, k)| == |s| - 1
    ensures multiset(s) == multiset(Without(s, k)) + multiset{s[k]}
    ensures forall p :: p in Without(s, k) ==> p in s
  {
    assert s == s[..k] + [s[k]] + s[k + 1..];
  }

  /** A list with the elements of a list without repetitions has none either. */
  lemma SameDistinct(s: seq<int>, t: seq<int>)
    requires Distinct(s) && multiset(s) == multiset(t)
    ensures Distinct(t)
  {
    forall i, j | 0 <= i < j < |t| ensures t[i] != t[j] {
      Twice(t, i, j);
      Once(s, t[i]);
    }
  }

  lemma Twice(t: seq<int>, i: nat, j: nat)
    requires i < j < |t|
    ensures t[i] == t[j] ==> multiset(t)[t[i]] >= 2
  {
    assert t == t[..i] + [t[i]] + t[i + 1..j] + [t[j]] + t[j + 1..];
  }

  lemma {:induction false} Once(s: seq<int>, p: int)
    requires Distinct(s)
    ensures multiset(s)[p] <= 1
  {
    if s != [] {
      Once(s[1..], p);
      assert s == [s[0]] + s[1..];
      assert s[0] !in s[1..];
    }
  }

  lemma {:induction false} RestWithout(s: seq<int>, k: nat, taken: set<int>)
    requires k < |s| && Distinct(s)
    ensures Rest(Without(s, k), taken) == Rest(s, taken + {s[k]})
    decreases |s|
  {
    if k == 0 {
      assert Without(s, 0) == s[1..];
      RestExtra(s[1..], taken, s[0]);
    } else {
      assert Without(s, k) == [s[0]] + Without(s[1..], k - 1);
      RestWithout(s[1..], k - 1, taken);
    }
  }

  lemma {:induction false} RestExtra(s: seq<int>, taken: set<int>, p: int)
    requires p !in s
    ensures Rest(s, taken + {p}) == Rest(s, taken)
  {
    if s != [] {
      RestExtra(s[1..], taken, p);
    }
  }

  // ---- Links.

  /** Element k is taken out of a list. */
  lemma ListWithout(m: Params, head: int, s: seq<int>, k: nat)
    requires IsList(m, head, s) && k < |s|
    ensures s[k] in m.np && (k > 0 ==> s[k - 1] in m.np)
    ensures IsList(if k == 0 then m else m.(np := m.np[s[k - 1] := m.np[s[k]]]),
                   if k == 0 then m.np[s[k]] else head, Without(s, k))
  {
    LinkedFrom(m.np, head, s, k);
    WithoutFacts(s, k);
    if k > 0 {
      LinkedFrom(m.np, head, s, k - 1);
      LinkedBypass(m.np, head, s, k);
    } else {
      assert Without(s, 0) == s[1..];
    }
  }

  lemma {:induction false} LinkedBypass(next: map<int, int>, head: int, s: seq<int>, k: nat)
    requires Linked(next, head, s) && Distinct(s) && 0 < k < |s| && s[k] in next
    ensures Linked(next[s[k - 1] := next[s[k]]], head, Without(s, k))
    decreases |s|
  {
    var next' := next[s[k - 1] := next[s[k]]];
    assert Without(s, k) == [s[0]] + Without(s, k)[1..];
    if k == 1 {
      LinkedFrom(next, head, s, 1);
      assert Without(s, 1)[1..] == s[2..];
      LinkedFrame(next, next', next[s[1]], s[2..]);
    } else {
      assert Without(s, k)[1..] == Without(s[1..], k - 1);
      LinkedBypass(next, next[head], s[1..], k - 1);
    }
  }

  lemma LinkedCons(next: map<int, int>, head: int, s: seq<int>, p: int)
    requires Linked(next, head, s) && p !in s && p >= 0
    ensures Linked(next[p := head], p, [p] + s)
  {
    LinkedFrame(next, next[p := head], head, s);
    assert ([p] + s)[1..] == s;
  }

  lemma {:induction false} LinkedJoin(next: map<int, int>, head: int, s: seq<int>, head': int, t: seq<int>)
    requires Linked(next, head, s) && Linked(next, head', t) && s != [] && Distinct(s + t)
    ensures Linked(next[s[|s| - 1] := head'], head, s + t)
    decreases |s|
  {
    var next' := next[s[|s| - 1] := head'];
    assert (s + t)[1..] == s[1..] + t && (s + t)[0] == s[0];
    assert forall i :: 0 <= i < |t| ==> (s + t)[|s| + i] == t[i];
    if |s| == 1 {
      LinkedFrame(next, next', head', t);
    } else {
      assert (s + t)[|s| - 1] == s[|s| - 1] && s[1..][|s| - 2] == s[|s| - 1];
      LinkedJoin(next, next[head], s[1..], head', t);
    }
  }

  // ---- The operation.

  /** The state of the work: rest is still in the list of the pfile, done is in the new list. */
  ghost predicate Split(m: Params, pp: int, rest: seq<int>, fp: int, done: seq<int>) {
    AsOne(Linked(m.np, pp, rest) && Linked(m.np, fp, done) && Distinct(done + rest) && Known(m, done + rest))
  }

  lemma SplitStart(m: Params, pp: int, s: seq<int>)
    requires IsList(m, pp, s)
    ensures Split(m, pp, s, NULL, [])
  {
    assert [] + s == s;
  }

  /** One parameter moves to the new list. */
  lemma SplitMove(m: Params, pp: int, rest: seq<int>, fp: int, done: seq<int>, k: nat)
    requires Split(m, pp, rest, fp, done) && k < |rest|
    ensures var p := rest[k];
            && p in m.np && p in m.modes && (k > 0 ==> rest[k - 1] in m.np)
            && var cut := if k == 0 then m.np else m.np[rest[k - 1] := m.np[p]];
               Split(m.(np := cut[p := fp]), if k == 0 then m.np[p] else pp, Without(rest, k), p, [p] + done)
  {
    var p := rest[k];
    Halves(done, rest);
    ListWithout(m, pp, rest, k);
    var cut := if k == 0 then m.np else m.np[rest[k - 1] := m.np[p]];
    Apart(done, rest, k);
    LinkedFrame(m.np, cut, fp, done);
    LinkedFrom(m.np, pp, rest, k);
    LinkedCons(cut, fp, done, p);
    WithoutFacts(rest, k);
    LinkedFrame(cut, cut[p := fp], if k == 0 then m.np[p] else pp, Without(rest, k));
    assert multiset([p] + done + Without(rest, k)) == multiset(done) + multiset(rest) == multiset(done + rest);
    SameDistinct(done + rest, [p] + done + Without(rest, k));
    SameElements(done + rest, [p] + done + Without(rest, k));
  }

  lemma SameElements(s: seq<int>, t: seq<int>)
    requires multiset(s) == multiset(t)
    ensures forall p :: p in t ==> p in s
  {
    forall p | p in t ensures p in s {
      assert p in multiset(t);
    }
  }

  lemma Halves(s: seq<int>, t: seq<int>)
    requires Distinct(s + t)
    ensures Distinct(s) && Distinct(t)
    ensures forall p :: p in s ==> p !in t
  {
    assert forall i :: 0 <= i < |s| ==> (s + t)[i] == s[i];
    assert forall i :: 0 <= i < |t| ==> (s + t)[|s| + i] == t[i];
  }

  lemma Apart(done: seq<int>, rest: seq<int>, k: nat)
    requires Distinct(done + rest) && k < |rest|
    ensures rest[k] !in done && (k > 0 ==> rest[k - 1] !in done)
  {
    Halves(done, rest);
    assert rest[k] in rest && (k > 0 ==> rest[k - 1] in rest);
  }

  class Procedure {
    var m: Params
    var pp: int
    var lastpp: int

    constructor (m: Params, pp: int, lastpp: int)
      ensures this.m == m && this.pp == pp && this.lastpp == lastpp
    {
      this.m, this.pp, this.lastpp := m, pp, lastpp;
    }

    /** The first parameter in the list with a name, NULL if there is none. */
    method ParamFind(name: string, ghost s: seq<int>) returns (p: int)
      requires Linked(m.np, pp, s) && Known(m, s)
      ensures p == if Find(m.names, s, name) == |s| then NULL else s[Find(m.names, s, name)]
    {
      p := pp;
      ghost var k := 0;
      assert s[0..] == s;
      while p != NULL && (p !in m.names || m.names[p] != name)
        invariant 0 <= k <= |s| && Linked(m.np, p, s[k..])
        invariant Find(m.names, s, name) == k + Find(m.names, s[k..], name)
        decreases |s| - k
      {
        LinkedStep(m.np, p, s, k);
        assert s[k..][1..] == s[k + 1..] && p in s;
        p := m.np[p];
        k := k + 1;
      }
    }

    /** Take a parameter out of the list of the pfile and put it in front of the list fp. */
    method Move(p: int, fp: int, ghost rest: seq<int>, ghost done: seq<int>, ghost k: nat)
      requires Split(m, pp, rest, fp, done) && k < |rest| && rest[k] == p
      modifies `m, `pp
      ensures Split(m, pp, Without(rest, k), p, [p] + done)
      ensures m.names == old(m.names) && m.modes == old(m.modes)
    {
      SplitMove(m, pp, rest, fp, done, k);
      Halves(done, rest);
      var tp, op := pp, NULL;
      ghost var i := 0;
      assert rest[0..] == rest;
      while tp != p
        invariant 0 <= i <= k && Linked(m.np, tp, rest[i..]) && op == (if i == 0 then NULL else rest[i - 1])
        invariant i > 0 ==> op != NULL
        decreases k - i
        modifies {}
      {
        LinkedHead(m.np, tp, rest, i);
        LinkedStep(m.np, tp, rest, i);
        op := tp;
        tp := m.np[tp];
        i := i + 1;
      }
      LinkedHead(m.np, tp, rest, i);
      LinkedStep(m.np, tp, rest, i);
      assert i == k;
      if op == NULL {
        pp := m.np[tp];
      } else {
        m := m.(np := m.np[op := m.np[tp]]);
      }
      m := m.(np := m.np[tp := fp]);
    }

    /** Move the parameter with a name to the front of the list fp, and set its mode; NULL if there is none left. */
    method PutInFront(name: string, fp: int, ghost rest: seq<int>, ghost done: seq<int>, ghost before: map<int, bv16>)
      returns (p: int)
      requires Split(m, pp, rest, fp, done) && ModesOf(m.modes, before, done, rest)
      modifies `m, `pp
      ensures m.names == old(m.names)
      ensures var k := Find(old(m.names), rest, name);
              if k == |rest| then p == NULL && m == old(m) && pp == old(pp)
              else p >= 0 && p == rest[k] && Split(m, pp, Without(rest, k), p, [p] + done)
                   && ModesOf(m.modes, before, [p] + done, Without(rest, k))
    {
      hide Split, ModesOf, Find;
      SplitKnown(m, pp, rest, fp, done);
      ghost var k := Find(m.names, rest, name);
      p := ParamFind(name, rest);
      FoundIsAddress(m, pp, rest, k);
      if p != NULL {
        SetListedMode(p, fp, rest, done, k, before);
        Move(p, fp, rest, done, k);
      }
    }

    /** Put the parameters named in the procedure statement in front, in its order, and give every parameter a
        mode. It fails exactly if, going back from the last name, there is no parameter left for a name. */
    method ProcParams(wanted: seq<string>, ghost s: seq<int>) returns (ok: bool)
      requires IsList(m, pp, s)
      modifies this
      ensures ok <==> Pick(m.names, s, wanted).Some?
      ensures m.names == old(m.names)
      ensures ok ==> var (taken, left) := Pick(m.names, s, wanted).value;
                     && IsList(m, pp, taken + left)
                     && lastpp == (if wanted == [] then old(lastpp) else (taken + left)[|taken + left| - 1])
                     && FinalModes(m.modes, old(m.modes), taken, left)
    {
      hide Split, IsList, Picking, ModesOf, Pick, Find;
      var npar, fp, lp := |wanted|, NULL, NULL;
      ghost var rest, done := s, [];
      SplitStart(m, pp, s);
      PickingStart(m.names, s, wanted);
      ModesStart(m.modes, s);
      while npar > 0
        invariant 0 <= npar <= |wanted| && Split(m, pp, rest, fp, done) && Picking(m.names, s, wanted, npar, rest, done)
        invariant m.names == old(m.names) && ModesOf(m.modes, old(m.modes), done, rest) && lastpp == old(lastpp)
        invariant |done| == |wanted| - npar && lp == (if done == [] then NULL else done[|done| - 1])
        invariant done != [] ==> lp >= 0
      {
        npar := npar - 1;
        SplitKnown(m, pp, rest, fp, done);
        PickingStep(m.names, s, wanted, npar + 1, rest, done);
        ghost var k := Find(m.names, rest, wanted[npar]);
        var p := PutInFront(wanted[npar], fp, rest, done, old(m.modes));
        if p == NULL {
          return false;
        }
        if lp == NULL {
          lp := p;
        }
        fp := p;
        rest, done := Without(rest, k), [p] + done;
      }
      PickingEnd(m.names, s, wanted, rest, done);
      if wanted != [] {
        Join(fp, lp, rest, done);
      } else {
        SplitIsList(m, pp, rest, fp);
      }
      SetModes(rest, done, old(m.modes));
      ok := true;
    }

    /** A parameter of the procedure statement is not hidden. */
    method SetListedMode(p: int, fp: int, ghost rest: seq<int>, ghost done: seq<int>, ghost k: nat,
                         ghost before: map<int, bv16>)
      requires Split(m, pp, rest, fp, done) && k < |rest| && rest[k] == p && ModesOf(m.modes, before, done, rest)
      modifies `m
      ensures Split(m, pp, rest, fp, done) && m.names == old(m.names)
      ensures ModesOf(m.modes, before, [p] + done, Without(rest, k))
    {
      SplitFacts(m, pp, rest, fp, done, k);
      ModesMove(m.modes, before, done, rest, k);
      if m.modes[p] & M_HIDDEN != 0 {
        m := m.(modes := m.modes[p := (m.modes[p] & !M_HIDDEN) | M_AUTO]);
      } else if m.modes[p] == 0 {
        m := m.(modes := m.modes[p := M_AUTO]);
      } else {
        assert m.modes[p := ListedMode(m.modes[p])] == m.modes;
      }
    }

    /** The rest of the list follows the new one. */
    method Join(fp: int, lp: int, ghost rest: seq<int>, ghost done: seq<int>)
      requires Split(m, pp, rest, fp, done) && done != [] && lp == done[|done| - 1]
      modifies `m, `pp, `lastpp
      ensures IsList(m, pp, done + rest) && m.names == old(m.names) && m.modes == old(m.modes)
      ensures lastpp == (done + rest)[|done + rest| - 1]
    {
      LinkedJoin(m.np, fp, done, pp, rest);
      m := m.(np := m.np[lp := pp]);
      pp := fp;
      ghost var all, i := done + rest, 0;
      assert all[0..] == all;
      var last := fp;
      LinkedHead(m.np, last, all, 0);
      LinkedStep(m.np, last, all, 0);
      while m.np[last] != NULL
        invariant 0 <= i < |all| && last == all[i] && last in m.np && Linked(m.np, m.np[last], all[i + 1..])
        decreases |all| - i
        modifies {}
      {
        last := m.np[last];
        i := i + 1;
        LinkedHead(m.np, last, all, i);
        LinkedStep(m.np, last, all, i);
      }
      lastpp := last;
    }

    /** Whatever has no mode is hidden. */
    method SetModes(ghost left: seq<int>, ghost taken: seq<int>, ghost before: map<int, bv16>)
      requires IsList(m, pp, taken + left) && ModesOf(m.modes, before, taken, left)
      modifies `m
      ensures IsList(m, pp, taken + left) && m.names == old(m.names)
      ensures FinalModes(m.modes, before, taken, left)
    {
      hide OtherMode, SetSoFar, IsList, ModesOf, FinalModes, Linked;
      ghost var all, i := taken + left, 0;
      ghost var start := m;
      var tp := pp;
      NoneSet(m, pp, all);
      while tp != NULL
        invariant 0 <= i <= |all| && Linked(start.np, tp, all[i..])
        invariant m == start.(modes := m.modes)
        invariant SetSoFar(start.modes, m.modes, all, i)
        decreases |all| - i
      {
        LinkedStep(start.np, tp, all, i);
        OneSet(start, start.modes, m.modes, all, i);
        if m.modes[tp] == 0 {
          m := m.(modes := m.modes[tp := M_HIDDEN]);
        }
        tp := m.np[tp];
        i := i + 1;
      }
      LinkedEnds(start.np, all, i);
      ListKept(start, m, pp, all);
      ModesFinal(start, m.modes, before, taken, left);
    }
  }

  /** Picking is as far as the names from n on: they are done, and rest is left. */
  ghost predicate Picking(names: map<int, string>, s: seq<int>, wanted: seq<string>, n: nat, rest: seq<int>,
                          done: seq<int>)
    requires n <= |wanted|
  {
    AsOne(Pick(names, s, wanted) == match Pick(names, rest, wanted[..n])
                                     case None => None
                                     case Some((taken, left)) => Some((taken + done, left)))
  }

  lemma PickingStart(names: map<int, string>, s: seq<int>, wanted: seq<string>)
    ensures Picking(names, s, wanted, |wanted|, s, [])
  {
    assert wanted[..|wanted|] == wanted;
    match Pick(names, s, wanted)
    case None =>
    case Some((taken, left)) => assert taken + [] == taken;
  }

  lemma PickingStep(names: map<int, string>, s: seq<int>, wanted: seq<string>, n: nat, rest: seq<int>, done: seq<int>)
    requires 0 < n <= |wanted| && Picking(names, s, wanted, n, rest, done)
    ensures var k := Find(names, rest, wanted[n - 1]);
            if k == |rest| then Pick(names, s, wanted) == None
            else Picking(names, s, wanted, n - 1, Without(rest, k), [rest[k]] + done)
  {
    hide Find;
    var k := Find(names, rest, wanted[n - 1]);
    assert wanted[..n][..n - 1] == wanted[..n - 1];
    if k < |rest| {
      match Pick(names, Without(rest, k), wanted[..n - 1])
      case None =>
      case Some((taken, left)) => assert taken + [rest[k]] + done == taken + ([rest[k]] + done);
    }
  }

  lemma PickingEnd(names: map<int, string>, s: seq<int>, wanted: seq<string>, rest: seq<int>, done: seq<int>)
    requires Picking(names, s, wanted, 0, rest, done)
    ensures Pick(names, s, wanted) == Some((done, rest))
  {
    assert [] + done == done;
  }

  lemma SplitFacts(m: Params, pp: int, rest: seq<int>, fp: int, done: seq<int>, k: nat)
    requires Split(m, pp, rest, fp, done) && k < |rest|
    ensures rest[k] in m.names && rest[k] in m.modes && Distinct(done + rest)
  {
    assert (done + rest)[|done| + k] == rest[k];
  }

  lemma SplitKnown(m: Params, pp: int, rest: seq<int>, fp: int, done: seq<int>)
    requires Split(m, pp, rest, fp, done)
    ensures Linked(m.np, pp, rest) && Known(m, rest)
  {
    assert forall i :: 0 <= i < |rest| ==> (done + rest)[|done| + i] == rest[i];
  }

  lemma FoundIsAddress(m: Params, pp: int, rest: seq<int>, k: nat)
    requires Linked(m.np, pp, rest)
    ensures k < |rest| ==> rest[k] >= 0
  {
    if k < |rest| { LinkedFrom(m.np, pp, rest, k); }
  }

  lemma SplitIsList(m: Params, pp: int, rest: seq<int>, fp: int)
    requires Split(m, pp, rest, fp, [])
    ensures IsList(m, pp, [] + rest)
  {
    assert [] + rest == rest;
  }

  lemma LinkedEnds(next: map<int, int>, s: seq<int>, k: nat)
    requires k <= |s| && Linked(next, NULL, s[k..])
    ensures k == |s|
  {
  }

  lemma ModesStart(modes: map<int, bv16>, s: seq<int>)
    ensures ModesOf(modes, modes, [], s)
  {
  }

  /** Those before i have a mode now. */
  predicate SetSoFar(before: map<int, bv16>, modes: map<int, bv16>, all: seq<int>, i: nat) {
    && modes.Keys == before.Keys
    && forall k :: 0 <= k < |all| && all[k] in before ==>
         modes[all[k]] == if k < i then OtherMode(before[all[k]]) else before[all[k]]
  }

  lemma NoneSet(m: Params, head: int, all: seq<int>)
    requires IsList(m, head, all)
    ensures SetSoFar(m.modes, m.modes, all, 0) && Linked(m.np, head, all[0..])
    ensures Distinct(all) && Known(m, all)
  {
    assert all[0..] == all;
  }

  lemma ListKept(m: Params, m': Params, head: int, all: seq<int>)
    requires IsList(m, head, all) && m' == m.(modes := m'.modes) && SetSoFar(m.modes, m'.modes, all, |all|)
    ensures IsList(m', head, all) && head == Head(m', all)
  {
    assert forall p :: p in m.modes ==> p in m'.modes;
  }

  lemma OneSet(m: Params, before: map<int, bv16>, modes: map<int, bv16>, all: seq<int>, i: nat)
    requires i < |all| && SetSoFar(before, modes, all, i) && before == m.modes && Distinct(all) && Known(m, all)
    ensures all[i] in modes
    ensures SetSoFar(before, if modes[all[i]] == 0 then modes[all[i] := M_HIDDEN] else modes, all, i + 1)
  {
    assert all[i] in all;
  }

  lemma ModesFinal(m: Params, modes: map<int, bv16>, before: map<int, bv16>, taken: seq<int>, left: seq<int>)
    requires IsList(m, Head(m, taken + left), taken + left) && ModesOf(m.modes, before, taken, left)
    requires SetSoFar(m.modes, modes, taken + left, |taken + left|)
    ensures FinalModes(modes, before, taken, left)
  {
    forall p | p in taken ensures p in modes && p in before && modes[p] == ListedMode(before[p]) {
      var k :| 0 <= k < |taken| && taken[k] == p;
      assert (taken + left)[k] == p && p in taken + left;
      ModesAreSet(before[p]);
    }
    forall p | p in left ensures p in modes && p in before && modes[p] == OtherMode(before[p]) {
      var k :| 0 <= k < |left| && left[k] == p;
      assert (taken + left)[|taken| + k] == p && p in taken + left;
    }
  }

  function Head(m: Params, s: seq<int>): int {
    if s == [] then NULL else s[0]
  }

  /** The modes while the names are being worked on. */
  ghost predicate ModesOf(modes: map<int, bv16>, before: map<int, bv16>, done: seq<int>, rest: seq<int>) {
    AsOne(
      && modes.Keys == before.Keys
      && (forall p :: p in done && p in before ==> modes[p] == ListedMode(before[p]))
      && (forall p :: p in rest && p in before ==> modes[p] == before[p]))
  }

  /** The modes in the end. */
  ghost predicate FinalModes(modes: map<int, bv16>, before: map<int, bv16>, taken: seq<int>, left: seq<int>) {
    && (forall p :: p in taken ==> p in modes && p in before && modes[p] == ListedMode(before[p]))
    && (forall p :: p in left ==> p in modes && p in before && modes[p] == OtherMode(before[p]))
  }

  lemma ModesMove(modes: map<int, bv16>, before: map<int, bv16>, done: seq<int>, rest: seq<int>, k: nat)
    requires ModesOf(modes, before, done, rest) && Distinct(done + rest) && k < |rest| && rest[k] in before
    ensures ModesOf(modes[rest[k] := ListedMode(modes[rest[k]])], before, [rest[k]] + done, Without(rest, k))
  {
    Halves(done, rest);
    WithoutFacts(rest, k);
    assert rest[k] in rest;
  }

  lemma LinkedHead(next: map<int, int>, at: int, s: seq<int>, k: nat)
    requires k < |s| && Linked(next, at, s[k..])
    ensures at == s[k] && at >= 0
  {
  }
}
