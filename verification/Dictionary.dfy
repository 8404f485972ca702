/** The dictionary: packages, ltasks, pfiles and params in a memory that only grows at its top,
    and that is cut back to a mark when a task ends. */
module Dictionary {
  import opened Chains
  import opened Options

  // ---- The links and flags of the structures in the dictionary, by address.

  datatype PackageMem = PackageMem(
    head: int,              // pachead: the most recently added package
    npk: map<int, int>,     // package: next package
    ltp: map<int, int>,     // package: most recently added ltask
    nlt: map<int, int>)     // ltask: next ltask

  datatype PfileMem = PfileMem(
    head: int,              // parhead: the most recently added pfile
    npf: map<int, int>,     // pfile: next pfile
    pp: map<int, int>,      // pfile: first param
    lastpp: map<int, int>,  // pfile: last param
    n: map<int, int>,       // pfile: number of params
    updated: set<int>,      // pfile: PF_UPDATE is set
    copies: set<int>,       // pfile: PF_COPY is set
    np: map<int, int>,      // param: next param
    lists: set<int>,        // param: PT_LIST is set
    changed: set<int>)      // param: P_SET is set

  // ---- The lists they make: packages, ltasks and pfiles newest first, params oldest first.

  datatype PackageView = PackageView(packages: seq<int>, ltasks: map<int, seq<int>>)

  datatype PfileView = PfileView(pfiles: seq<int>, params: map<int, seq<int>>)

  ghost predicate PackagesValid(m: PackageMem, v: PackageView) {
    && Linked(m.npk, m.head, v.packages)
    && Descending(v.packages)
    && forall p :: p in v.packages ==>
         p in m.ltp && p in v.ltasks && Linked(m.nlt, m.ltp[p], v.ltasks[p]) && Descending(v.ltasks[p])
  }

  ghost predicate PfilesValid(m: PfileMem, v: PfileView) {
    && Linked(m.npf, m.head, v.pfiles)
    && Descending(v.pfiles)
    && forall f :: f in v.pfiles ==>
         f in m.pp && f in v.params && Linked(m.np, m.pp[f], v.params[f]) && Ascending(v.params[f])
  }

  /** No param is on two lists. */
  ghost predicate ParamsApart(v: PfileView) {
    forall f, g, a :: f in v.pfiles && g in v.pfiles && f != g && f in v.params && g in v.params && a in v.params[f] ==>
      a !in v.params[g]
  }

  predicate LastIs(lastpp: map<int, int>, f: int, params: seq<int>) {
    params != [] ==> f in lastpp && lastpp[f] == params[|params| - 1]
  }

  /** Where a pfile has params, pf_lastpp is the last one. */
  ghost predicate LastIsLast(m: PfileMem, v: PfileView) {
    forall f :: f in v.pfiles && f in v.params ==> LastIs(m.lastpp, f, v.params[f])
  }

  /** All packages and ltasks that can be reached lie below top. */
  ghost predicate PackagesTight(top: int, v: PackageView) {
    AllBelow(v.packages, top) && forall p :: p in v.packages && p in v.ltasks ==> AllBelow(v.ltasks[p], top)
  }

  /** All pfiles and params that can be reached lie below top. */
  ghost predicate PfilesTight(top: int, v: PfileView) {
    AllBelow(v.pfiles, top) && forall f :: f in v.pfiles && f in v.params ==> AllBelow(v.params[f], top)
  }

  // ---- Cutting the packages.

  /** The packages below top are left, each with its ltasks below top. */
  ghost predicate PackagesCut(top: int, v: PackageView, v': PackageView) {
    && v'.packages == Below(v.packages, top)
    && forall p :: p in v'.packages ==> p in v.ltasks && p in v'.ltasks && v'.ltasks[p] == Below(v.ltasks[p], top)
  }

  /** The first package below top, or NULL. */
  method PackageBelow(m: PackageMem, ghost v: PackageView, top: int) returns (pkp: int)
    requires PackagesValid(m, v)
    ensures pkp == if Below(v.packages, top) == [] then NULL else Below(v.packages, top)[0]
    ensures pkp != NULL <==> Below(v.packages, top) != []
    ensures Linked(m.npk, pkp, Below(v.packages, top)) && Descending(Below(v.packages, top))
  {
    pkp := m.head;
    ghost var chain, k := v.packages, 0;
    while pkp != NULL && pkp >= top
      invariant k <= |chain| && Linked(m.npk, pkp, chain[k..])
      invariant forall i :: 0 <= i < k ==> chain[i] >= top
      decreases |chain| - k
    {
      LinkedStep(m.npk, pkp, chain, k);
      pkp := m.npk[pkp];
      k := k + 1;
    }
    BelowDescending(chain, top, k);
  }

  /** The first ltask of a package below top, or NULL. */
  method LtaskBelow(m: PackageMem, ghost v: PackageView, pkp: int, top: int) returns (ltp: int)
    requires PackagesValid(m, v) && pkp in v.packages
    ensures Linked(m.nlt, ltp, Below(v.ltasks[pkp], top)) && Descending(Below(v.ltasks[pkp], top))
  {
    ltp := m.ltp[pkp];
    ghost var chain, k := v.ltasks[pkp], 0;
    while ltp != NULL && ltp >= top
      invariant k <= |chain| && Linked(m.nlt, ltp, chain[k..])
      invariant forall i :: 0 <= i < k ==> chain[i] >= top
      decreases |chain| - k
    {
      LinkedStep(m.nlt, ltp, chain, k);
      ltp := m.nlt[ltp];
      k := k + 1;
    }
    BelowDescending(chain, top, k);
  }

  /** Cut the list of packages back to those below top, and their ltasks likewise. */
  method CutPackages(m: PackageMem, ghost v: PackageView, top: int)
    returns (ok: bool, m': PackageMem, ghost v': PackageView)
    requires PackagesValid(m, v)
    ensures ok <==> Below(v.packages, top) != []
    ensures if ok then PackagesCut(top, v, v') else m' == m && v' == v
    ensures PackagesValid(m', v') && (ok ==> PackagesTight(top, v'))
  {
    m', v' := m, v;
    var pkp := PackageBelow(m, v, top);
    if pkp == NULL {
      return false, m', v';
    }
    ok := true;
    m', v' := CutLtasks(m.(head := pkp), v.(packages := Below(v.packages, top)), top);
  }

  /** Cut the ltasks of one package. */
  method CutOne(m: PackageMem, ghost v: PackageView, pkp: int, top: int) returns (m': PackageMem, ghost v': PackageView)
    requires PackagesValid(m, v) && pkp in v.packages
    ensures PackagesValid(m', v') && m'.npk == m.npk && m'.head == m.head
    ensures v' == v.(ltasks := v.ltasks[pkp := Below(v.ltasks[pkp], top)])
  {
    var ltp := LtaskBelow(m, v, pkp, top);
    m', v' := m.(ltp := m.ltp[pkp := ltp]), v.(ltasks := v.ltasks[pkp := Below(v.ltasks[pkp], top)]);
  }

  /** The ltasks of the first k packages have been cut, and the others not yet. */
  ghost predicate CutUpTo(top: int, k: nat, v: PackageView, v': PackageView) {
    && (forall p :: p in v.packages ==> p in v.ltasks && p in v'.ltasks)
    && (forall i :: k <= i < |v.packages| ==> v'.ltasks[v.packages[i]] == v.ltasks[v.packages[i]])
    && (forall i :: 0 <= i < k && i < |v.packages| ==> v'.ltasks[v.packages[i]] == Below(v.ltasks[v.packages[i]], top))
  }

  lemma CutOneMore(top: int, k: nat, v: PackageView, v': PackageView)
    requires CutUpTo(top, k, v, v') && k < |v.packages| && Descending(v.packages)
    ensures var p := v.packages[k];
            CutUpTo(top, k + 1, v, v'.(ltasks := v'.ltasks[p := Below(v'.ltasks[p], top)]))
  {
    forall i | 0 <= i < |v.packages| && i != k ensures v.packages[i] != v.packages[k] {
    }
  }

  /** Cut the ltasks of all the packages in the list. */
  method CutLtasks(m: PackageMem, ghost v: PackageView, top: int) returns (m': PackageMem, ghost v': PackageView)
    requires PackagesValid(m, v)
    ensures PackagesValid(m', v') && v'.packages == v.packages
    ensures forall p :: p in v.packages ==> v'.ltasks[p] == Below(v.ltasks[p], top)
  {
    m', v' := m, v;
    var pkp := m.head;
    ghost var chain, k := v.packages, 0;
    while pkp != NULL
      invariant k <= |chain| && Linked(m'.npk, pkp, chain[k..])
      invariant PackagesValid(m', v') && v'.packages == chain
      invariant CutUpTo(top, k, v, v')
      decreases |chain| - k
    {
      LinkedStep(m'.npk, pkp, chain, k);
      CutOneMore(top, k, v, v');
      m', v' := CutOne(m', v', pkp, top);
      pkp := m'.npk[pkp];
      k := k + 1;
    }
  }

  // ---- Dropping the pfiles above the cut.

  datatype Event =
    | CloseList(param: int)    // a list file is closed
    | UpdatePfile(pfile: int)  // a pfile is written out

  /** What happens to a pfile that is dropped: its list files are closed, and it is written out if
      `update` says so. */
  function Farewell(pfile: int, params: seq<int>, lists: set<int>, update: bool): seq<Event> {
    if params == [] then (if update then [UpdatePfile(pfile)] else [])
    else (if params[0] in lists then [CloseList(params[0])] else []) + Farewell(pfile, params[1..], lists, update)
  }

  /** A pfile is written out if it or one of its params has been changed, unless it is a working copy
      or this is a background job. */
  ghost predicate MustUpdate(m: PfileMem, f: int, params: seq<int>, batch: bool) {
    !batch && f !in m.copies && (f in m.updated || exists i :: 0 <= i < |params| && params[i] in m.changed)
  }

  /** What happens to a row of pfiles that are dropped. */
  ghost function Farewells(m: PfileMem, params: map<int, seq<int>>, pfiles: seq<int>, batch: bool): seq<Event> {
    if pfiles == [] then []
    else
      var f := pfiles[|pfiles| - 1];
      var pp := if f in params then params[f] else [];
      Farewells(m, params, pfiles[..|pfiles| - 1], batch) + Farewell(f, pp, m.lists, MustUpdate(m, f, pp, batch))
  }

  lemma FarewellsExtend(m: PfileMem, params: map<int, seq<int>>, pfiles: seq<int>, k: nat, batch: bool)
    requires k < |pfiles| && pfiles[k] in params
    ensures Farewells(m, params, pfiles[..k + 1], batch)
         == Farewells(m, params, pfiles[..k], batch)
            + Farewell(pfiles[k], params[pfiles[k]], m.lists, MustUpdate(m, pfiles[k], params[pfiles[k]], batch))
  {
    assert pfiles[..k + 1][..k] == pfiles[..k];
  }

  lemma FarewellStep(pfile: int, params: seq<int>, k: nat, lists: set<int>, update: bool)
    requires k < |params|
    ensures Farewell(pfile, params[k..], lists, update)
         == (if params[k] in lists then [CloseList(params[k])] else [])
            + Farewell(pfile, params[k + 1..], lists, update)
  {
    assert params[k..][1..] == params[k + 1..];
  }

  lemma FarewellEnd(pfp: int, lists: set<int>, must: bool)
    ensures Farewell(pfp, [], lists, must) == if must then [UpdatePfile(pfp)] else []
  {
  }

  /** Close the list files of a pfile that is dropped, and write it out if needed. */
  method DropPfile(m: PfileMem, ghost v: PfileView, pfp: int, batch: bool) returns (events: seq<Event>)
    requires PfilesValid(m, v) && pfp in v.pfiles
    ensures events == Farewell(pfp, v.params[pfp], m.lists, MustUpdate(m, pfp, v.params[pfp], batch))
  {
    hide Farewell, Ascending;
    ghost var chain, k := v.params[pfp], 0;
    ghost var must := MustUpdate(m, pfp, chain, batch);
    var pp, update := m.pp[pfp], pfp in m.updated;
    events := [];
    while pp != NULL
      invariant k <= |chain| && Linked(m.np, pp, chain[k..])
      invariant update <==> pfp in m.updated || exists i :: 0 <= i < k && chain[i] in m.changed
      invariant events + Farewell(pfp, chain[k..], m.lists, must) == Farewell(pfp, chain, m.lists, must)
      decreases |chain| - k
    {
      LinkedStep(m.np, pp, chain, k);
      FarewellStep(pfp, chain, k, m.lists, must);
      if pp in m.lists {
        events := events + [CloseList(pp)];
      }
      if pp in m.changed {
        update := true;
      }
      pp := m.np[pp];
      k := k + 1;
    }
    FarewellEnd(pfp, m.lists, must);
    if update && pfp !in m.copies && !batch {
      events := events + [UpdatePfile(pfp)];
    }
  }

  /** What is dropped of a descending chain when it is cut off at top. */
  function Dropped(s: seq<int>, top: int): seq<int> {
    s[..|s| - |Below(s, top)|]
  }

  /** Drop the pfiles from top on; pfp is the first one that stays, or NULL. */
  method DropPfiles(m: PfileMem, ghost v: PfileView, top: int, batch: bool) returns (pfp: int, events: seq<Event>)
    requires PfilesValid(m, v)
    ensures pfp != NULL <==> Below(v.pfiles, top) != []
    ensures pfp == if Below(v.pfiles, top) == [] then NULL else Below(v.pfiles, top)[0]
    ensures Linked(m.npf, pfp, Below(v.pfiles, top)) && Descending(Below(v.pfiles, top))
    ensures events == Farewells(m, v.params, Dropped(v.pfiles, top), batch)
  {
    pfp, events := m.head, [];
    ghost var chain, k := v.pfiles, 0;
    while pfp != NULL && pfp >= top
      invariant k <= |chain| && Linked(m.npf, pfp, chain[k..])
      invariant forall i :: 0 <= i < k ==> chain[i] >= top
      invariant events == Farewells(m, v.params, chain[..k], batch)
      decreases |chain| - k
    {
      LinkedStep(m.npf, pfp, chain, k);
      FarewellsExtend(m, v.params, chain, k, batch);
      var more := DropPfile(m, v, pfp, batch);
      events := events + more;
      pfp := m.npf[pfp];
      k := k + 1;
    }
    BelowDescending(chain, top, k);
  }

  // ---- Cutting the params of the surviving pfiles.

  /** The params of a surviving pfile can be cut: it has none, or its first one stays. */
  predicate Choppable(params: seq<int>, top: int) {
    params == [] || params[0] < top
  }

  /** What becomes of a surviving pfile: its params are cut, and pf_lastpp and pf_n are adjusted. If
      even its first param is above top, pf_pp goes on pointing above top. */
  ghost predicate Chopped(top: int, f: int, m: PfileMem, v: PfileView, m': PfileMem, v': PfileView) {
    && f in v.params
    && f in v'.params
    && var before := v.params[f];
    && (if Choppable(before, top)
        then v'.params[f] == Below(before, top) && LastIs(m'.lastpp, f, v'.params[f])
        else v'.params[f] == before && f in m'.lastpp && m'.lastpp[f] == NULL)
    && (if Below(before, top) == before then Same(f, m.n, m'.n) else f in m'.n && m'.n[f] == |Below(before, top)|)
  }

  predicate Same<T(==)>(f: int, m: map<int, T>, m': map<int, T>) {
    (f in m <==> f in m') && (f in m ==> m'[f] == m[f])
  }

  predicate Untouched(f: int, m: PfileMem, v: PfileView, m': PfileMem, v': PfileView) {
    Same(f, v.params, v'.params) && Same(f, m.lastpp, m'.lastpp) && Same(f, m.n, m'.n)
  }

  /** The first param that does not lie below top, the one before it, and how many come before. */
  method ParamAbove(m: PfileMem, ghost v: PfileView, pfp: int, top: int) returns (lastPp: int, pp: int, n: nat)
    requires PfilesValid(m, v) && pfp in v.pfiles
    ensures var params := v.params[pfp];
            && n <= |params| && Below(params, top) == params[..n]
            && (n < |params| <==> pp != NULL)
            && lastPp == (if n == 0 then NULL else params[n - 1])
            && (n > 0 ==> lastPp != NULL && params[0] < top)
            && (n < |params| ==> params[n] >= top)
  {
    ghost var chain := v.params[pfp];
    lastPp, n := NULL, 0;
    pp := m.pp[pfp];
    while pp != NULL && pp < top
      invariant n <= |chain| && Linked(m.np, pp, chain[n..])
      invariant lastPp == if n == 0 then NULL else chain[n - 1]
      invariant n > 0 ==> lastPp >= 0
      invariant forall i :: 0 <= i < n ==> chain[i] < top
      decreases |chain| - n
    {
      LinkedStep(m.np, pp, chain, n);
      lastPp := pp;
      pp := m.np[pp];
      n := n + 1;
    }
    BelowAscending(chain, top, n);
  }

  /** Cutting the params of one pfile leaves those of the others alone. */
  lemma ChopValid(m: PfileMem, v: PfileView, f: int, k: nat, m': PfileMem, v': PfileView)
    requires PfilesValid(m, v) && ParamsApart(v)
    requires f in v.pfiles && 1 <= k <= |v.params[f]|
    requires m'.head == m.head && m'.npf == m.npf && m'.pp == m.pp
    requires m'.np == m.np[v.params[f][k - 1] := NULL]
    requires v' == v.(params := v.params[f := v.params[f][..k]])
    ensures PfilesValid(m', v') && ParamsApart(v')
  {
    forall g | g in v.pfiles
      ensures Linked(m'.np, m.pp[g], v'.params[g]) && Ascending(v'.params[g])
    {
      if g == f {
        LinkedCut(m.np, m.pp[f], v.params[f], k);
      } else {
        LinkedFrame(m.np, m'.np, m.pp[g], v.params[g]);
      }
    }
  }

  /** Cut the params of a surviving pfile. */
  method ChopPfile(m: PfileMem, ghost v: PfileView, pfp: int, top: int) returns (m': PfileMem, ghost v': PfileView)
    requires PfilesValid(m, v) && ParamsApart(v) && pfp in v.pfiles
    requires LastIs(m.lastpp, pfp, v.params[pfp])
    ensures PfilesValid(m', v') && ParamsApart(v')
    ensures v'.pfiles == v.pfiles && m'.npf == m.npf && m'.head == m.head
    ensures Chopped(top, pfp, m, v, m', v')
    ensures forall g :: g != pfp ==> Untouched(g, m, v, m', v')
  {
    m', v' := m, v;
    ghost var chain := v.params[pfp];
    if pfp in m.lastpp && m.lastpp[pfp] < top {
      BelowAscending(chain, top, |chain|);
      return;   // quick check
    }
    var lastPp, pp, n := ParamAbove(m, v, pfp, top);
    if pp != NULL {
      if lastPp != NULL {
        m' := m'.(np := m'.np[lastPp := NULL]);
        v' := v'.(params := v'.params[pfp := chain[..n]]);
        ChopValid(m, v, pfp, n, m', v');
      }
      m' := m'.(lastpp := m'.lastpp[pfp := lastPp]);
      m' := m'.(n := m'.n[pfp := n]);
    }
  }

  /** The first k pfiles have been dealt with, and the others not yet. */
  ghost predicate ChoppedUpTo(top: int, k: nat, pfiles: seq<int>, m: PfileMem, v: PfileView, m': PfileMem,
                              v': PfileView) {
    && (forall i :: k <= i < |pfiles| ==> Untouched(pfiles[i], m, v, m', v'))
    && (forall i :: 0 <= i < k <= |pfiles| ==> Chopped(top, pfiles[i], m, v, m', v'))
  }

  lemma ChopOneMore(top: int, k: nat, pfiles: seq<int>, m: PfileMem, v: PfileView, m0: PfileMem, v0: PfileView,
                    m': PfileMem, v': PfileView)
    requires Descending(pfiles) && k < |pfiles| && pfiles[k] in v.params
    requires ChoppedUpTo(top, k, pfiles, m, v, m0, v0)
    requires Chopped(top, pfiles[k], m0, v0, m', v')
    requires forall g :: g != pfiles[k] ==> Untouched(g, m0, v0, m', v')
    ensures ChoppedUpTo(top, k + 1, pfiles, m, v, m', v')
  {
    forall i | 0 <= i < |pfiles| && i != k ensures Untouched(pfiles[i], m0, v0, m', v') {
      assert pfiles[i] != pfiles[k];
    }
    assert Untouched(pfiles[k], m, v, m0, v0);
  }

  /** Cut the params of all the pfiles in the list. */
  method ChopPfiles(m: PfileMem, ghost v: PfileView, top: int) returns (m': PfileMem, ghost v': PfileView)
    requires PfilesValid(m, v) && ParamsApart(v) && LastIsLast(m, v)
    ensures PfilesValid(m', v') && ParamsApart(v') && v'.pfiles == v.pfiles
    ensures forall f :: f in v.pfiles ==> Chopped(top, f, m, v, m', v')
  {
    m', v' := m, v;
    var pfp := m.head;
    ghost var chain, k := v.pfiles, 0;
    while pfp != NULL
      invariant k <= |chain| && Linked(m'.npf, pfp, chain[k..])
      invariant PfilesValid(m', v') && ParamsApart(v') && v'.pfiles == chain
      invariant ChoppedUpTo(top, k, chain, m, v, m', v')
      decreases |chain| - k
    {
      LinkedStep(m'.npf, pfp, chain, k);
      ghost var m0, v0 := m', v';
      assert LastIs(m'.lastpp, pfp, v'.params[pfp]) by { assert Untouched(chain[k], m, v, m', v'); }
      m', v' := ChopPfile(m', v', pfp, top);
      ChopOneMore(top, k, chain, m, v, m0, v0, m', v');
      pfp := m'.npf[pfp];
      k := k + 1;
    }
  }

  /** The pfiles below top are left, if there are any, each with what can be kept of its params. */
  ghost predicate PfilesCut(top: int, m: PfileMem, v: PfileView, m': PfileMem, v': PfileView) {
    && v'.pfiles == (if Below(v.pfiles, top) == [] then v.pfiles else Below(v.pfiles, top))
    && forall f :: f in Below(v.pfiles, top) ==> Chopped(top, f, m, v, m', v')
  }

  /** A surviving pfile exists, if there are pfiles at all, and no surviving pfile has its first param
      above top: the condition under which nothing is left dangling. */
  ghost predicate Restorable(top: int, v: PfileView) {
    && (v.pfiles == [] || Below(v.pfiles, top) != [])
    && forall f :: f in Below(v.pfiles, top) ==> f in v.params && Choppable(v.params[f], top)
  }

  lemma TightIffRestorable(top: int, m: PfileMem, v: PfileView, m': PfileMem, v': PfileView)
    requires PfilesCut(top, m, v, m', v')
    ensures PfilesTight(top, v') <==> Restorable(top, v)
    ensures Restorable(top, v) ==> LastIsLast(m', v') && v'.pfiles == Below(v.pfiles, top)
  {
    if v.pfiles != [] && Below(v.pfiles, top) == [] {
      assert v'.pfiles[0] in v'.pfiles;
    }
    forall f | f in Below(v.pfiles, top) && !Choppable(v.params[f], top)
      ensures !PfilesTight(top, v')
    {
      assert v'.params[f][0] in v'.params[f];
    }
  }

  /** Cut the list of pfiles back to those below top, and their params likewise. */
  method CutPfiles(m: PfileMem, ghost v: PfileView, top: int, batch: bool)
    returns (m': PfileMem, ghost v': PfileView, events: seq<Event>)
    requires PfilesValid(m, v) && ParamsApart(v) && LastIsLast(m, v)
    ensures PfilesValid(m', v') && ParamsApart(v')
    ensures PfilesCut(top, m, v, m', v')
    ensures events == Farewells(m, v.params, Dropped(v.pfiles, top), batch)
    ensures PfilesTight(top, v') <==> Restorable(top, v)
    ensures Restorable(top, v) ==> LastIsLast(m', v') && v'.pfiles == Below(v.pfiles, top)
  {
    var pfp;
    pfp, events := DropPfiles(m, v, top, batch);
    m', v' := m, v;
    if pfp != NULL {
      m', v' := m.(head := pfp), v.(pfiles := Below(v.pfiles, top));
      m', v' := ChopPfiles(m', v', top);
    }
    TightIffRestorable(top, m, v, m', v');
  }

  // ---- Which list files are closed.

  lemma {:induction false} FarewellCloses(pfile: int, params: seq<int>, lists: set<int>, update: bool, p: int)
    ensures CloseList(p) in Farewell(pfile, params, lists, update) <==> p in params && p in lists
    decreases |params|
  {
    if params != [] {
      FarewellCloses(pfile, params[1..], lists, update, p);
      assert p in params <==> p == params[0] || p in params[1..];
    }
  }

  ghost predicate OfSome(p: int, pfiles: seq<int>, params: map<int, seq<int>>) {
    exists f :: f in pfiles && f in params && p in params[f]
  }

  /** The list files that are closed are those of the params of the pfiles that are dropped. */
  lemma {:induction false} FarewellsClose(m: PfileMem, params: map<int, seq<int>>, pfiles: seq<int>, batch: bool,
                                          p: int)
    ensures CloseList(p) in Farewells(m, params, pfiles, batch) <==> p in m.lists && OfSome(p, pfiles, params)
    decreases |pfiles|
  {
    if pfiles != [] {
      var f, front := pfiles[|pfiles| - 1], pfiles[..|pfiles| - 1];
      var pp := if f in params then params[f] else [];
      FarewellsClose(m, params, front, batch, p);
      FarewellCloses(f, pp, m.lists, MustUpdate(m, f, pp, batch), p);
      assert forall g :: g in pfiles <==> g == f || g in front;
      assert OfSome(p, pfiles, params) <==> OfSome(p, front, params) || p in pp;
    }
  }

  /** A param with a list file that cannot be reached any more when the dictionary has been cut at top:
      its pfile has been dropped, or it has been cut off one that survives. */
  ghost predicate ListLost(m: PfileMem, v: PfileView, top: int, p: int) {
    && p in m.lists
    && (|| OfSome(p, Dropped(v.pfiles, top), v.params)
        || (OfSome(p, Below(v.pfiles, top), v.params) && p >= top))
  }

  /** A list file of a param that is cut off a surviving pfile is not closed. */
  lemma CutOffStaysOpen(m: PfileMem, v: PfileView, top: int, batch: bool, f: int, p: int)
    requires PfilesValid(m, v) && ParamsApart(v)
    requires f in Below(v.pfiles, top) && f in v.params && p in v.params[f]
    ensures CloseList(p) !in Farewells(m, v.params, Dropped(v.pfiles, top), batch)
  {
    hide Below, Dropped, Farewells, Linked, Ascending;
    FarewellsClose(m, v.params, Dropped(v.pfiles, top), batch, p);
    DroppedIs(v.pfiles, top);
    assert !OfSome(p, Dropped(v.pfiles, top), v.params);
  }

  /** A list file is lost open. */
  ghost predicate LostOpen(m: PfileMem, v: PfileView, top: int, batch: bool, p: int) {
    ListLost(m, v, top, p) && CloseList(p) !in Farewells(m, v.params, Dropped(v.pfiles, top), batch)
  }

  /** Exactly those list files are lost without being closed that belong to params, from top on, of
      surviving pfiles. */
  lemma ListsClosed(m: PfileMem, v: PfileView, top: int, batch: bool, p: int)
    requires PfilesValid(m, v) && ParamsApart(v)
    ensures LostOpen(m, v, top, batch, p) <==> p in m.lists && p >= top && OfSome(p, Below(v.pfiles, top), v.params)
  {
    hide Below, Dropped, Farewells, PfilesValid, ParamsApart, OfSome;
    FarewellsClose(m, v.params, Dropped(v.pfiles, top), batch, p);
    if OfSome(p, Below(v.pfiles, top), v.params) {
      var f := FileOf(p, Below(v.pfiles, top), v.params);
      CutOffStaysOpen(m, v, top, batch, f, p);
    }
  }

  lemma FileOf(p: int, pfiles: seq<int>, params: map<int, seq<int>>) returns (f: int)
    requires OfSome(p, pfiles, params)
    ensures f in pfiles && f in params && p in params[f]
  {
    f :| f in pfiles && f in params && p in params[f];
  }

  /** No list file is lost open if and only if no surviving pfile has a param with a list file from top on. */
  lemma NoneLostOpen(m: PfileMem, v: PfileView, top: int, batch: bool)
    requires PfilesValid(m, v) && ParamsApart(v)
    ensures (forall p :: !LostOpen(m, v, top, batch, p))
            <==> forall f, p :: f in Below(v.pfiles, top) && p in v.params[f] && p in m.lists ==> p < top
  {
    hide Below, LostOpen, PfilesValid, ParamsApart, Linked;
    forall p | LostOpen(m, v, top, batch, p)
      ensures p in m.lists && p >= top && exists f :: f in Below(v.pfiles, top) && f in v.params && p in v.params[f]
    {
      ListsClosed(m, v, top, batch, p);
    }
    forall f, p | f in Below(v.pfiles, top) && f in v.params && p in v.params[f] && p in m.lists && p >= top
      ensures LostOpen(m, v, top, batch, p)
    {
      assert OfSome(p, Below(v.pfiles, top), v.params);
      ListsClosed(m, v, top, batch, p);
    }
    assert forall f :: f in Below(v.pfiles, top) ==> f in v.params by { FilesHaveParams(m, v); }
  }

  lemma FilesHaveParams(m: PfileMem, v: PfileView)
    requires PfilesValid(m, v)
    ensures forall f :: f in v.pfiles ==> f in v.params
  {
  }

  lemma DroppedIs(s: seq<int>, top: int)
    requires Descending(s)
    ensures forall a :: a in Dropped(s, top) <==> a in s && a >= top
  {
    var k := if exists i :: 0 <= i < |s| && s[i] < top then FirstUnder(s, top) else |s|;
    BelowDescending(s, top, k);
    assert Dropped(s, top) == s[..k];
    forall a | a in s && a >= top ensures a in s[..k] {
      var i :| 0 <= i < |s| && s[i] == a;
      assert i < k && s[..k][i] == a;
    }
  }

  function FirstUnder(s: seq<int>, top: int): (k: nat)
    ensures k <= |s| && (forall i :: 0 <= i < k ==> s[i] >= top) && (k < |s| ==> s[k] < top)
  {
    if s == [] || s[0] < top then 0 else 1 + FirstUnder(s[1..], top)
  }

  /** A pfile that survives a cut at 6 with its param 2, while its param 8, with a list file, is cut off: the
      list file is not closed. */
  lemma CutOffListStaysOpen() returns (m: PfileMem, v: PfileView)
    ensures PfilesValid(m, v) && ParamsApart(v) && LastIsLast(m, v) && Restorable(6, v)
    ensures v.pfiles == [0] && v.params[0] == [2, 8] && m.lists == {8}
    ensures ListLost(m, v, 6, 8) && Farewells(m, v.params, Dropped(v.pfiles, 6), false) == []
  {
    m := PfileMem(0, map[0 := NULL], map[0 := 2], map[0 := 8], map[0 := 2], {}, {}, map[2 := 8, 8 := NULL], {8}, {});
    v := PfileView([0], map[0 := [2, 8]]);
    assert Linked(m.npf, NULL, []) && Linked(m.np, 8, [8]);
    assert [2, 8][1..] == [8];
    assert Below([0], 6) == [0];
    assert OfSome(8, Below(v.pfiles, 6), v.params) by { assert 0 in Below(v.pfiles, 6); }
  }

  // ---- What is written out.

  lemma {:induction false} FarewellWrites(pfile: int, params: seq<int>, lists: set<int>, update: bool, f: int)
    ensures UpdatePfile(f) in Farewell(pfile, params, lists, update) <==> f == pfile && update
    decreases |params|
  {
    if params != [] { FarewellWrites(pfile, params[1..], lists, update, f); }
  }

  lemma {:induction false} FarewellsWrite(m: PfileMem, params: map<int, seq<int>>, pfiles: seq<int>, batch: bool,
                                          f: int)
    ensures UpdatePfile(f) in Farewells(m, params, pfiles, batch) <==>
              f in pfiles && MustUpdate(m, f, if f in params then params[f] else [], batch)
    decreases |pfiles|
  {
    hide MustUpdate, Farewell;
    if pfiles != [] {
      var g, front := pfiles[|pfiles| - 1], pfiles[..|pfiles| - 1];
      var pp := if g in params then params[g] else [];
      FarewellsWrite(m, params, front, batch, f);
      FarewellWrites(g, pp, m.lists, MustUpdate(m, g, pp, batch), f);
      assert f in pfiles <==> f == g || f in front;
    }
  }

  /** Exactly those parameter files are written out that are dropped and have been changed, in themselves or in a
      param, unless they are working copies or this is a background job. */
  lemma FilesWritten(m: PfileMem, v: PfileView, top: int, batch: bool, f: int)
    requires PfilesValid(m, v)
    ensures UpdatePfile(f) in Farewells(m, v.params, Dropped(v.pfiles, top), batch) <==>
              && f in v.pfiles && f >= top && !batch && f !in m.copies
              && (f in m.updated || exists p :: p in v.params[f] && p in m.changed)
  {
    FarewellsWrite(m, v.params, Dropped(v.pfiles, top), batch, f);
    DroppedIs(v.pfiles, top);
  }

  // ---- Both together.

  ghost predicate DictValid(pk: PackageMem, pkv: PackageView, pf: PfileMem, pfv: PfileView) {
    PackagesValid(pk, pkv) && PfilesValid(pf, pfv) && ParamsApart(pfv) && LastIsLast(pf, pfv)
  }

  ghost predicate DictTight(top: int, pkv: PackageView, pfv: PfileView) {
    PackagesTight(top, pkv) && PfilesTight(top, pfv)
  }

  ghost predicate DictCut(top: int, pkv: PackageView, pf: PfileMem, pfv: PfileView,
                          pkv': PackageView, pf': PfileMem, pfv': PfileView)
  {
    PackagesCut(top, pkv, pkv') && PfilesCut(top, pf, pfv, pf', pfv')
  }

  /** Cut everything back to top: every chain keeps exactly its part below top. */
  method CutAll(pk: PackageMem, ghost pkv: PackageView, pf: PfileMem, ghost pfv: PfileView, top: int, batch: bool)
    returns (ok: bool, pk': PackageMem, ghost pkv': PackageView, pf': PfileMem, ghost pfv': PfileView,
             events: seq<Event>)
    requires DictValid(pk, pkv, pf, pfv)
    ensures ok <==> Below(pkv.packages, top) != []
    ensures !ok ==> pk' == pk && pkv' == pkv && pf' == pf && pfv' == pfv && events == []
    ensures ok ==> DictCut(top, pkv, pf, pfv, pkv', pf', pfv')
    ensures ok ==> events == Farewells(pf, pfv.params, Dropped(pfv.pfiles, top), batch)
    ensures ok ==> (DictTight(top, pkv', pfv') <==> Restorable(top, pfv))
    ensures ok && Restorable(top, pfv) ==> DictValid(pk', pkv', pf', pfv')
  {
    pf', pfv', events := pf, pfv, [];
    ok, pk', pkv' := CutPackages(pk, pkv, top);
    if ok {
      pf', pfv', events := CutPfiles(pf, pfv, top, batch);
    }
  }

  // ---- Linking in a new structure, at an address above all that is reachable.

  function AddPackage(m: PackageMem, a: int): PackageMem {
    m.(npk := m.npk[a := m.head], ltp := m.ltp[a := NULL], head := a)
  }

  lemma AddPackageValid(m: PackageMem, v: PackageView, a: int)
    requires PackagesValid(m, v) && a >= 0 && PackagesTight(a, v)
    ensures PackagesValid(AddPackage(m, a), PackageView([a] + v.packages, v.ltasks[a := []]))
    ensures PackagesTight(a + 1, PackageView([a] + v.packages, v.ltasks[a := []]))
  {
    hide Linked, Descending;
    PushLinked(m.npk, m.head, v.packages, a);
    EmptyList(m.nlt);
  }

  function AddLtask(m: PackageMem, pkp: int, a: int): PackageMem
    requires pkp in m.ltp
  {
    m.(nlt := m.nlt[a := m.ltp[pkp]], ltp := m.ltp[pkp := a])
  }

  lemma AddLtaskValid(m: PackageMem, v: PackageView, p: int, a: int)
    requires PackagesValid(m, v) && a >= 0 && PackagesTight(a, v) && p in v.packages
    ensures PackagesValid(AddLtask(m, p, a), v.(ltasks := v.ltasks[p := [a] + v.ltasks[p]]))
    ensures PackagesTight(a + 1, v.(ltasks := v.ltasks[p := [a] + v.ltasks[p]]))
  {
    var m', ltasks' := AddLtask(m, p, a), v.ltasks[p := [a] + v.ltasks[p]];
    forall q | q in v.packages
      ensures Linked(m'.nlt, m'.ltp[q], ltasks'[q]) && Descending(ltasks'[q]) && AllBelow(ltasks'[q], a + 1)
    {
      LinkedFrame(m.nlt, m'.nlt, m.ltp[q], v.ltasks[q]);
      AllBelowAt(v.ltasks[q], a);
      assert ([a] + v.ltasks[q])[1..] == v.ltasks[q];
    }
  }

  /** pf_lastpp is left as it is. */
  function AddPfile(m: PfileMem, a: int): PfileMem {
    m.(npf := m.npf[a := m.head], pp := m.pp[a := NULL], n := m.n[a := 0],
       updated := m.updated - {a}, copies := m.copies - {a}, head := a)
  }

  lemma AddPfileValid(m: PfileMem, v: PfileView, a: int)
    requires PfilesValid(m, v) && ParamsApart(v) && LastIsLast(m, v) && a >= 0 && PfilesTight(a, v)
    ensures var v' := PfileView([a] + v.pfiles, v.params[a := []]);
            PfilesValid(AddPfile(m, a), v') && ParamsApart(v') && LastIsLast(AddPfile(m, a), v')
              && PfilesTight(a + 1, v')
    ensures m.head < a
  {
    hide Linked, Ascending;
    var s := [a] + v.pfiles;
    PushLinked(m.npf, m.head, v.pfiles, a);
    assert forall f :: f in s <==> f == a || f in v.pfiles;
    EmptyList(m.np);
  }

  lemma PushLinked(next: map<int, int>, head: int, s: seq<int>, a: int)
    requires Linked(next, head, s) && Descending(s) && AllBelow(s, a) && a >= 0
    ensures Linked(next[a := head], a, [a] + s) && Descending([a] + s) && AllBelow([a] + s, a + 1)
    ensures head < a && a !in s
  {
    LinkedFrame(next, next[a := head], head, s);
    assert ([a] + s)[1..] == s;
    AllBelowAt(s, a);
  }

  lemma EmptyList(next: map<int, int>)
    ensures Linked(next, NULL, []) && Ascending([]) && Descending([])
  {
  }

  function AddParam(m: PfileMem, pfp: int, a: int): PfileMem
    requires pfp in m.pp && (m.pp[pfp] != NULL ==> pfp in m.lastpp)
  {
    var np := m.np[a := NULL];
    m.(pp := if m.pp[pfp] == NULL then m.pp[pfp := a] else m.pp,
       np := if m.pp[pfp] == NULL then np else np[m.lastpp[pfp] := a],
       lastpp := m.lastpp[pfp := a], lists := m.lists - {a}, changed := m.changed - {a})
  }

  lemma AddParamValid(m: PfileMem, v: PfileView, f: int, a: int) returns (m': PfileMem, v': PfileView)
    requires PfilesValid(m, v) && ParamsApart(v) && LastIsLast(m, v) && a >= 0 && PfilesTight(a, v) && f in v.pfiles
    ensures m.pp[f] != NULL ==> f in m.lastpp
    ensures m' == AddParam(m, f, a) && v' == v.(params := v.params[f := v.params[f] + [a]])
    ensures PfilesValid(m', v') && ParamsApart(v') && LastIsLast(m', v') && PfilesTight(a + 1, v')
  {
    AddParamOne(m, v, f, a, f);
    m', v' := AddParam(m, f, a), v.(params := v.params[f := v.params[f] + [a]]);
    forall g | g in v.pfiles ensures HasList(m', v', g, a + 1) {
      AddParamHas(m, v, f, a, g);
    }
    hide Linked, Ascending, Descending, ParamsApart, AllBelow, LastIs;
    BelowNext(v.pfiles, a);
    AddParamApart(v, f, a);
    ListsMake(m', v', a + 1);
  }

  /** One pfile and its params. */
  ghost predicate HasList(m: PfileMem, v: PfileView, g: int, top: int) {
    && g in m.pp && g in v.params && Linked(m.np, m.pp[g], v.params[g]) && Ascending(v.params[g])
    && AllBelow(v.params[g], top) && LastIs(m.lastpp, g, v.params[g])
  }

  lemma ListsMake(m: PfileMem, v: PfileView, top: int)
    requires Linked(m.npf, m.head, v.pfiles) && Descending(v.pfiles) && AllBelow(v.pfiles, top)
    requires forall g :: g in v.pfiles ==> HasList(m, v, g, top)
    ensures PfilesValid(m, v) && LastIsLast(m, v) && PfilesTight(top, v)
  {
    hide Linked, Ascending, Descending, AllBelow, LastIs;
  }

  lemma BelowNext(s: seq<int>, top: int)
    requires AllBelow(s, top)
    ensures AllBelow(s, top + 1)
  {
  }

  lemma AddParamHas(m: PfileMem, v: PfileView, f: int, a: int, g: int)
    requires PfilesValid(m, v) && ParamsApart(v) && LastIsLast(m, v) && a >= 0 && PfilesTight(a, v)
    requires f in v.pfiles && g in v.pfiles && (m.pp[f] != NULL ==> f in m.lastpp)
    ensures HasList(AddParam(m, f, a), v.(params := v.params[f := v.params[f] + [a]]), g, a + 1)
  {
    hide Linked, Ascending, Descending, AllBelow, ParamsApart;
    AddParamOne(m, v, f, a, g);
  }

  lemma AddParamApart(v: PfileView, f: int, a: int)
    requires ParamsApart(v) && PfilesTight(a, v) && f in v.pfiles && f in v.params
    ensures ParamsApart(v.(params := v.params[f := v.params[f] + [a]]))
  {
  }

  /** What becomes of the params of one pfile g. */
  ghost predicate AddParamList(m: PfileMem, v: PfileView, f: int, a: int, g: int)
    requires f in m.pp && (m.pp[f] != NULL ==> f in m.lastpp) && g in m.pp && f in v.params && g in v.params
  {
    var m', params := AddParam(m, f, a), if g == f then v.params[f] + [a] else v.params[g];
    Linked(m'.np, m'.pp[g], params) && Ascending(params) && AllBelow(params, a + 1)
  }

  lemma AddParamOne(m: PfileMem, v: PfileView, f: int, a: int, g: int)
    requires PfilesValid(m, v) && ParamsApart(v) && LastIsLast(m, v) && a >= 0 && PfilesTight(a, v)
    requires f in v.pfiles && g in v.pfiles
    ensures m.pp[f] != NULL ==> f in m.lastpp
    ensures AddParamList(m, v, f, a, g)
  {
    AllBelowAt(v.params[g], a);
    if g != f {
      if v.params[f] != [] { assert m.lastpp[f] in v.params[f]; }
      LinkedFrame(m.np, AddParam(m, f, a).np, m.pp[g], v.params[g]);
    } else if v.params[f] != [] {
      LinkedAppend(m.np, m.pp[f], v.params[f], a);
    }
  }

  /** The top of the dictionary stays even. */
  function Rounded(n: nat): nat {
    n + n % 2
  }

  /** The dictionary. */
  class Dict {
    const maxd: nat
    const batch: bool         // this is a background job
    var topd: nat             // next address available
    var pk: PackageMem
    var pf: PfileMem
    var events: seq<Event>    // files closed and written so far
    ghost var pkv: PackageView
    ghost var pfv: PfileView

    ghost predicate Valid()
      reads this
    {
      DictValid(pk, pkv, pf, pfv)
    }

    /** Everything that can be reached lies below top. */
    ghost predicate Tight(top: int)
      reads this
    {
      DictTight(top, pkv, pfv)
    }

    /** Take incr words from the top of the dictionary, which stays even; None is the error "dictionary full". */
    method Memneed(incr: nat) returns (start: Option<int>)
      modifies `topd
      ensures topd == Rounded(old(topd) + incr)
      ensures topd % 2 == 0 && old(topd) + incr <= topd <= old(topd) + incr + 1
      ensures start == if topd > maxd then None else Some(old(topd))
    {
      var at := topd;
      topd := topd + incr;
      if topd % 2 == 1 {
        topd := topd + 1;
      }
      return if topd > maxd then None else Some(at);
    }

    /** Add a package at the head of the list of packages; size is that of the structure with its strings. */
    method NewPackage(size: nat) returns (start: Option<int>)
      requires Valid() && Tight(topd) && size > 0
      modifies `topd, `pk, `pkv
      ensures Valid() && Tight(topd) && topd > old(topd)
      ensures topd == Rounded(old(topd) + size) && (start.Some? <==> topd <= maxd)
      ensures start == None ==> pkv == old(pkv)
      ensures start.Some? ==> start == Some(old(topd))
                              && pkv == PackageView([old(topd)] + old(pkv.packages), old(pkv.ltasks)[old(topd) := []])
    {
      start := Memneed(size);
      if start.Some? {
        var a := start.value;
        AddPackageValid(pk, pkv, a);
        pk, pkv := AddPackage(pk, a), PackageView([a] + pkv.packages, pkv.ltasks[a := []]);
      }
    }

    /** Add an ltask at the head of the list of a package. */
    method NewLtask(pkp: int, size: nat) returns (start: Option<int>)
      requires Valid() && Tight(topd) && size > 0 && pkp in pkv.packages
      modifies `topd, `pk, `pkv
      ensures Valid() && Tight(topd) && topd > old(topd)
      ensures topd == Rounded(old(topd) + size) && (start.Some? <==> topd <= maxd)
      ensures start == None ==> pkv == old(pkv)
      ensures start.Some? ==> start == Some(old(topd))
                              && pkv == old(pkv).(ltasks := old(pkv.ltasks)[pkp := [old(topd)] + old(pkv.ltasks[pkp])])
    {
      start := Memneed(size);
      if start.Some? {
        var a := start.value;
        AddLtaskValid(pk, pkv, pkp, a);
        pk, pkv := AddLtask(pk, pkp, a), pkv.(ltasks := pkv.ltasks[pkp := [a] + pkv.ltasks[pkp]]);
      }
    }

    /** Add a pfile without params at the head of the list of pfiles. The test "parhead exceeds topd" never fails. */
    method NewPfile(size: nat) returns (start: Option<int>)
      requires Valid() && Tight(topd) && size > 0
      modifies `topd, `pf, `pfv
      ensures Valid() && Tight(topd) && topd > old(topd)
      ensures topd == Rounded(old(topd) + size) && (start.Some? <==> topd <= maxd)
      ensures start == None ==> pf == old(pf) && pfv == old(pfv)
      ensures start.Some? ==> start == Some(old(topd)) && old(pf.head) < old(topd)
                              && pfv == PfileView([old(topd)] + old(pfv.pfiles), old(pfv.params)[old(topd) := []])
    {
      start := Memneed(size);
      if start.Some? {
        var a := start.value;
        AddPfileValid(pf, pfv, a);
        pf, pfv := AddPfile(pf, a), PfileView([a] + pfv.pfiles, pfv.params[a := []]);
      }
    }

    /** Add a param at the end of the list of a pfile. */
    method NewParam(pfp: int, size: nat) returns (start: Option<int>)
      requires Valid() && Tight(topd) && size > 0 && pfp in pfv.pfiles
      modifies `topd, `pf, `pfv
      ensures Valid() && Tight(topd) && topd > old(topd)
      ensures topd == Rounded(old(topd) + size) && (start.Some? <==> topd <= maxd)
      ensures start == None ==> pfv == old(pfv)
      ensures start.Some? ==> start == Some(old(topd))
                              && pfv == old(pfv).(params := old(pfv.params)[pfp := old(pfv.params[pfp]) + [old(topd)]])
    {
      start := Memneed(size);
      if start.Some? {
        var a := start.value;
        ghost var m', v' := AddParamValid(pf, pfv, pfp, a);
        pf, pfv := AddParam(pf, pfp, a), v';
      }
    }

    /** Unlink the most recently added pfile and set the top of the dictionary back, without looking at any list. */
    method Retract(top: nat)
      requires Valid() && pfv.pfiles != []
      modifies `topd, `pf, `pfv
      ensures Valid() && topd == top
      ensures pfv == old(pfv).(pfiles := old(pfv.pfiles)[1..])
    {
      topd := top;
      LinkedFrom(pf.npf, pf.head, pfv.pfiles, 0);
      SuffixFacts(pfv.pfiles, 1);
      pf, pfv := pf.(head := pf.npf[pf.head]), pfv.(pfiles := pfv.pfiles[1..]);
    }

    /** Set the top of the dictionary and the head of the list of pfiles back to what they were before the
        newest n pfiles were loaded, without looking at any list. */
    method Forget(head: int, ghost n: nat, top: nat)
      requires Valid() && n <= |pfv.pfiles| && Linked(pf.npf, head, pfv.pfiles[n..])
      modifies `topd, `pf, `pfv
      ensures Valid() && topd == top
      ensures pfv == old(pfv).(pfiles := old(pfv.pfiles)[n..])
    {
      topd := top;
      SuffixFacts(pfv.pfiles, n);
      pf, pfv := pf.(head := head), pfv.(pfiles := pfv.pfiles[n..]);
    }

    /** Cut the dictionary back to top: drop every package, ltask, pfile and param from there on.
        False is the fatal error "package list broken". */
    method CutBack(top: nat) returns (ok: bool)
      requires Valid()
      modifies this
      ensures topd == top
      ensures ok <==> Below(old(pkv.packages), top) != []
      ensures ok ==> DictCut(top, old(pkv), old(pf), old(pfv), pkv, pf, pfv)
      ensures ok ==> events == old(events) + Farewells(old(pf), old(pfv.params), Dropped(old(pfv.pfiles), top), batch)
      ensures ok ==> (Tight(top) <==> Restorable(top, old(pfv)))
      ensures ok && Tight(top) ==> Valid()
    {
      topd := top;
      var said;
      ok, pk, pkv, pf, pfv, said := CutAll(pk, pkv, pf, pfv, top, batch);
      events := events + said;
    }
  }
}
