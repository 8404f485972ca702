/** The stack of running tasks. Every task that has called another one remembers how far the
    dictionary reached at that time, and the dictionary is cut back to that mark when the called task ends. */
module TaskMachine {
  import opened Chains
  import opened Options
  import opened Dictionary
  import opened TaskSpec
  import opened TaskLaws
  import opened TaskSteps

  // ---- What holds of the tasks and the dictionary at any time.

  /** Saved marks do not decrease from the first task to the current one, and do not exceed top. */
  ghost predicate Ordered(tasks: seq<Task>, top: int) {
    && (forall i, j :: 0 <= i < j < |tasks| && tasks[i].mark.Some? && tasks[j].mark.Some? ==>
         tasks[i].mark.value <= tasks[j].mark.value)
    && (forall i :: 0 <= i < |tasks| && tasks[i].mark.Some? ==> tasks[i].mark.value <= top)
  }

  /** The dictionary can be cut back to a mark: a package and a pfile lie below it, and no pfile
      starts below it and has its first param above it. */
  ghost predicate SafeMark(mark: int, pkv: PackageView, pfv: PfileView) {
    Below(pkv.packages, mark) != [] && Below(pfv.pfiles, mark) != [] && Restorable(mark, pfv)
  }

  ghost predicate Safe(tasks: seq<Task>, pkv: PackageView, pfv: PfileView) {
    forall i :: 0 <= i < |tasks| && tasks[i].mark.Some? ==> SafeMark(tasks[i].mark.value, pkv, pfv)
  }

  /** All tasks that have called another one have a mark, and so have interactive ones like the first. */
  ghost predicate Marked(tasks: seq<Task>) {
    && tasks != []
    && tasks[0].interactive
    && (forall i :: 0 <= i < |tasks| && tasks[i].interactive ==> tasks[i].mark.Some?)
    && forall i :: 0 <= i < |tasks| - 1 ==> tasks[i].mark.Some?
  }

  ghost predicate HasParams(pfv: PfileView, pfile: int) {
    pfile in pfv.pfiles && pfile in pfv.params && pfv.params[pfile] != []
  }

  ghost predicate OwnsFile(t: Task, pfv: PfileView) {
    t.pfile.Some? ==> HasParams(pfv, t.pfile.value)
  }

  ghost predicate OwnBelow(t: Task, u: Task) {
    t.pfile.Some? && u.mark.Some? ==> t.pfile.value < u.mark.value
  }

  /** The pfile of a running task has params, and lies below its own mark and those of later tasks. */
  ghost predicate Owning(tasks: seq<Task>, pfv: PfileView) {
    && (forall i :: 0 <= i < |tasks| ==> OwnsFile(tasks[i], pfv))
    && (forall i, j :: 0 <= i <= j < |tasks| ==> OwnBelow(tasks[i], tasks[j]))
  }

  ghost predicate TasksOk(tasks: seq<Task>, top: int, pkv: PackageView, pfv: PfileView) {
    Marked(tasks) && Ordered(tasks, top) && Safe(tasks, pkv, pfv) && Owning(tasks, pfv)
  }

  /** While a new task with a fresh pfile is being prepared, nothing but pfiles has been added since the
      current task's mark: n of them after the new task's own. */
  ghost predicate Pending(mark: int, own: int, n: nat, pkv: PackageView, pfv: PfileView) {
    && PackagesTight(mark, pkv)
    && n < |pfv.pfiles|
    && pfv.pfiles[n] == own
    && (forall i :: 0 <= i <= n ==> pfv.pfiles[i] >= mark)
    && PfilesTight(mark, PfileView(pfv.pfiles[n + 1..], pfv.params))
  }

  ghost predicate NewTaskOk(tasks: seq<Task>, newtask: Option<NewTask>, n: nat, pkv: PackageView, pfv: PfileView) {
    newtask.Some? ==>
      && tasks != []
      && tasks[|tasks| - 1].mark.Some?
      && match newtask.value
         case Fake(own) => Pending(tasks[|tasks| - 1].mark.value, own, n, pkv, pfv)
         case Real(pfile) => HasParams(pfv, pfile)
         case Cl => true
  }

  // ---- Marks.

  /** The present top of the dictionary is always a safe mark. */
  lemma TopIsSafe(top: int, pk: PackageMem, pkv: PackageView, pf: PfileMem, pfv: PfileView)
    requires DictValid(pk, pkv, pf, pfv) && DictTight(top, pkv, pfv) && pkv.packages != [] && pfv.pfiles != []
    ensures SafeMark(top, pkv, pfv)
  {
    BelowAll(pkv.packages, top);
    BelowAll(pfv.pfiles, top);
    forall f | f in Below(pfv.pfiles, top) ensures Choppable(pfv.params[f], top) {
      if pfv.params[f] != [] { assert pfv.params[f][0] in pfv.params[f]; }
    }
  }

  /** Marks below a cut stay safe. */
  lemma SafeAfterCut(mark: int, top: int, pkv: PackageView, pf: PfileMem, pfv: PfileView,
                     pkv': PackageView, pf': PfileMem, pfv': PfileView)
    requires mark <= top && SafeMark(mark, pkv, pfv) && SafeMark(top, pkv, pfv)
    requires DictCut(top, pkv, pf, pfv, pkv', pf', pfv')
    ensures SafeMark(mark, pkv', pfv')
  {
    BelowBelow(pkv.packages, top, mark);
    BelowBelow(pfv.pfiles, top, mark);
    forall f | f in Below(pfv'.pfiles, mark) ensures f in pfv'.params && Choppable(pfv'.params[f], mark) {
      assert Chopped(top, f, pf, pfv, pf', pfv');
      if pfv'.params[f] != [] {
        assert pfv'.params[f] == Below(pfv.params[f], top);
        FirstBelow(pfv.params[f], top);
      }
    }
  }

  lemma FirstBelow(s: seq<int>, top: int)
    requires Choppable(s, top)
    ensures s != [] ==> Below(s, top) != [] && Below(s, top)[0] == s[0]
  {
  }

  /** A pfile with params that lies below a safe mark keeps some when the dictionary is cut. */
  lemma FileAfterCut(f: int, top: int, pkv: PackageView, pf: PfileMem, pfv: PfileView,
                     pkv': PackageView, pf': PfileMem, pfv': PfileView)
    requires HasParams(pfv, f) && f < top && SafeMark(top, pkv, pfv)
    requires DictCut(top, pkv, pf, pfv, pkv', pf', pfv')
    ensures HasParams(pfv', f)
  {
    assert f in Below(pfv.pfiles, top);
    assert Chopped(top, f, pf, pfv, pf', pfv');
    FirstBelow(pfv.params[f], top);
  }

  /** Marks do not notice what is added above them. */
  lemma SafeAfterPackage(mark: int, pkv: PackageView, pfv: PfileView, a: int, pkv': PackageView)
    requires SafeMark(mark, pkv, pfv) && mark <= a && pkv'.packages == [a] + pkv.packages
    ensures SafeMark(mark, pkv', pfv)
  {
    assert pkv'.packages[1..] == pkv.packages;
  }

  lemma SafeAfterPfile(mark: int, pkv: PackageView, pfv: PfileView, a: int, pfv': PfileView)
    requires SafeMark(mark, pkv, pfv) && mark <= a
    requires pfv' == PushPfile(pfv, a)
    ensures SafeMark(mark, pkv, pfv')
  {
    assert pfv'.pfiles[1..] == pfv.pfiles;
  }

  lemma SafeAfterParam(mark: int, pkv: PackageView, pfv: PfileView, f: int, a: int, pfv': PfileView)
    requires SafeMark(mark, pkv, pfv) && f in pfv.params
    requires f >= mark || pfv.params[f] != []
    requires pfv' == AppendParam(pfv, f, a)
    ensures SafeMark(mark, pkv, pfv')
  {
  }

  function PushPfile(v: PfileView, a: int): PfileView {
    PfileView([a] + v.pfiles, v.params[a := []])
  }

  function AppendParam(v: PfileView, f: int, a: int): PfileView
    requires f in v.params
  {
    v.(params := v.params[f := v.params[f] + [a]])
  }

  /** Nothing but the params of one pfile has changed. */
  ghost predicate OnlyGrew(f: int, v: PfileView, v': PfileView) {
    && v'.pfiles == v.pfiles
    && f in v'.params
    && forall g :: g != f ==> Same(g, v.params, v'.params)
  }

  lemma GrewMore(f: int, v: PfileView, v': PfileView, a: int)
    requires OnlyGrew(f, v, v')
    ensures OnlyGrew(f, v, AppendParam(v', f, a))
    ensures f in v.pfiles ==> HasParams(AppendParam(v', f, a), f)
  {
    forall g | g != f ensures Same(g, v.params, AppendParam(v', f, a).params) {
      assert Same(g, v.params, v'.params);
    }
  }

  /** A pfile has been loaded, with some params. */
  ghost predicate Loaded(a: int, v: PfileView, v': PfileView) {
    && v'.pfiles == [a] + v.pfiles
    && a !in v.pfiles
    && forall g :: g != a ==> Same(g, v.params, v'.params)
  }

  lemma LoadedFirst(a: int, v: PfileView)
    requires a !in v.pfiles
    ensures Loaded(a, v, PushPfile(v, a))
  {
  }

  lemma LoadedThen(a: int, v: PfileView, v': PfileView, v'': PfileView)
    requires Loaded(a, v, v') && OnlyGrew(a, v', v'')
    ensures Loaded(a, v, v'')
  {
    forall g | g != a ensures Same(g, v.params, v''.params) {
      assert Same(g, v.params, v'.params) && Same(g, v'.params, v''.params);
    }
  }

  lemma AboveMarks(tasks: seq<Task>, top: int, pkv: PackageView, pfv: PfileView)
    requires TasksOk(tasks, top, pkv, pfv)
    ensures forall i :: 0 <= i < |tasks| && tasks[i].mark.Some? ==> tasks[i].mark.value <= top
  {
  }

  /** The mark of one task is raised to the top. */
  lemma MarkRaised(tasks: seq<Task>, i: nat, top: nat, pkv: PackageView, pfv: PfileView)
    requires TasksOk(tasks, top, pkv, pfv) && i < |tasks| && SafeMark(top, pkv, pfv) && AllBelow(pfv.pfiles, top)
    ensures var after := WithMark(tasks, i, top);
            && Marked(after) && Safe(after, pkv, pfv) && Owning(after, pfv)
            && (Ordered(after, top) <==>
                forall j :: i < j < |after| && after[j].mark.Some? ==> after[j].mark.value == top)
  {
    hide SafeMark;
    var after := WithMark(tasks, i, top);
    forall j | i < j < |tasks| && tasks[j].mark.Some? && tasks[j].mark.value != top ensures !Ordered(after, top) {
      assert tasks[j].mark.value <= top;
      assert after[j] == tasks[j] && after[i].mark == Some(top);
    }
    forall k, j | 0 <= k <= j < |tasks| ensures OwnBelow(after[k], after[j]) {
      assert OwnBelow(tasks[k], tasks[j]) && OwnsFile(tasks[k], pfv);
    }
    forall k | 0 <= k < |tasks| ensures OwnsFile(after[k], pfv) {
      assert OwnsFile(tasks[k], pfv);
    }
  }

  lemma MarkOfNew(tasks: seq<Task>, i: nat, top: nat, newtask: Option<NewTask>, n: nat, pkv: PackageView,
                  pfv: PfileView)
    requires NewTaskOk(tasks, newtask, n, pkv, pfv) && i < |tasks| && (newtask == None || newtask == Some(Cl))
    ensures NewTaskOk(WithMark(tasks, i, top), newtask, n, pkv, pfv)
  {
  }

  /** n pfiles have been loaded. */
  ghost predicate Extends(n: nat, v: PfileView, v': PfileView) {
    && n <= |v'.pfiles|
    && v'.pfiles[n..] == v.pfiles
    && forall g :: g in v.pfiles ==> Same(g, v.params, v'.params)
  }

  lemma ExtendsNone(v: PfileView)
    ensures Extends(0, v, v)
  {
  }

  lemma ExtendsMore(n: nat, a: int, v: PfileView, v': PfileView, v'': PfileView)
    requires Extends(n, v, v') && Loaded(a, v', v'')
    ensures Extends(n + 1, v, v'')
  {
    assert v''.pfiles[n + 1..] == v'.pfiles[n..];
    forall g | g in v.pfiles ensures Same(g, v.params, v''.params) {
      SuffixIn(v'.pfiles, n, g);
      assert Same(g, v.params, v'.params) && Same(g, v'.params, v''.params);
    }
  }

  lemma SuffixIn(s: seq<int>, n: nat, g: int)
    requires n <= |s| && g in s[n..]
    ensures g in s
  {
  }

  /** All marks are at most the current task's. */
  lemma MarksBelowLast(tasks: seq<Task>, top: int, i: nat)
    requires Marked(tasks) && Ordered(tasks, top) && i < |tasks|
    requires tasks[i].mark.Some? && tasks[|tasks| - 1].mark.Some?
    ensures tasks[i].mark.value <= tasks[|tasks| - 1].mark.value
  {
  }

  // ---- The tasks, when something is added to the dictionary.

  lemma TasksAfterMemory(tasks: seq<Task>, top: int, top': int, pkv: PackageView, pfv: PfileView)
    requires TasksOk(tasks, top, pkv, pfv) && top <= top'
    ensures TasksOk(tasks, top', pkv, pfv)
  {
  }

  lemma TasksAfterPfile(tasks: seq<Task>, top: int, top': int, pkv: PackageView, pfv: PfileView, pfv': PfileView)
    requires TasksOk(tasks, top, pkv, pfv) && top <= top' && AllBelow(pfv.pfiles, top)
    requires pfv' == PushPfile(pfv, top)
    ensures TasksOk(tasks, top', pkv, pfv')
  {
    hide SafeMark, AllBelow;
    forall i | 0 <= i < |tasks| && tasks[i].mark.Some? ensures SafeMark(tasks[i].mark.value, pkv, pfv') {
      SafeAfterPfile(tasks[i].mark.value, pkv, pfv, top, pfv');
    }
    forall i | 0 <= i < |tasks| ensures OwnsFile(tasks[i], pfv') {
      assert OwnsFile(tasks[i], pfv);
      NotBelow(pfv.pfiles, top);
    }
  }

  lemma NotBelow(s: seq<int>, top: int)
    requires AllBelow(s, top)
    ensures top !in s
  {
  }

  lemma TasksAfterParam(tasks: seq<Task>, top: int, top': int, pkv: PackageView, pfv: PfileView, f: int,
                        pfv': PfileView)
    requires TasksOk(tasks, top, pkv, pfv) && top <= top' && f in pfv.params
    requires pfv.params[f] != [] || forall i :: 0 <= i < |tasks| && tasks[i].mark.Some? ==> tasks[i].mark.value <= f
    requires pfv' == AppendParam(pfv, f, top)
    ensures TasksOk(tasks, top', pkv, pfv')
  {
    hide SafeMark;
    forall i | 0 <= i < |tasks| && tasks[i].mark.Some? ensures SafeMark(tasks[i].mark.value, pkv, pfv') {
      SafeAfterParam(tasks[i].mark.value, pkv, pfv, f, top, pfv');
    }
    forall i | 0 <= i < |tasks| ensures OwnsFile(tasks[i], pfv') {
      assert OwnsFile(tasks[i], pfv);
    }
  }

  /** A param for a pfile that has some harms neither marks nor running tasks. */
  lemma LooseAfterParam(tasks: seq<Task>, pkv: PackageView, pfv: PfileView, f: int, a: int)
    requires Safe(tasks, pkv, pfv) && Owning(tasks, pfv) && HasParams(pfv, f)
    ensures Safe(tasks, pkv, AppendParam(pfv, f, a)) && Owning(tasks, AppendParam(pfv, f, a))
    ensures HasParams(AppendParam(pfv, f, a), f)
  {
    hide SafeMark;
    var pfv' := AppendParam(pfv, f, a);
    forall i | 0 <= i < |tasks| && tasks[i].mark.Some? ensures SafeMark(tasks[i].mark.value, pkv, pfv') {
      SafeAfterParam(tasks[i].mark.value, pkv, pfv, f, a, pfv');
    }
    forall i | 0 <= i < |tasks| ensures OwnsFile(tasks[i], pfv') {
      assert OwnsFile(tasks[i], pfv);
    }
  }

  lemma TasksAfterPackage(tasks: seq<Task>, top: int, top': int, pkv: PackageView, pfv: PfileView, pkv': PackageView)
    requires TasksOk(tasks, top, pkv, pfv) && top <= top'
    requires pkv'.packages == pkv.packages || pkv'.packages == [top] + pkv.packages
    ensures TasksOk(tasks, top', pkv', pfv)
  {
    hide Restorable;
    forall i | 0 <= i < |tasks| && tasks[i].mark.Some? ensures SafeMark(tasks[i].mark.value, pkv', pfv) {
      if pkv'.packages != pkv.packages {
        SafeAfterPackage(tasks[i].mark.value, pkv, pfv, top, pkv');
      }
    }
  }

  /** Params of pfiles that are not on the list do not matter. */
  ghost predicate SameFiles(v: PfileView, v': PfileView) {
    && v'.pfiles == v.pfiles
    && forall f :: f in v.pfiles ==> Same(f, v.params, v'.params)
  }

  lemma TasksSameFiles(tasks: seq<Task>, top: int, pkv: PackageView, v: PfileView, v': PfileView)
    requires TasksOk(tasks, top, pkv, v) && SameFiles(v, v')
    ensures TasksOk(tasks, top, pkv, v')
    ensures PfilesTight(top, v) ==> PfilesTight(top, v')
  {
    forall i | 0 <= i < |tasks| && tasks[i].mark.Some? ensures SafeMark(tasks[i].mark.value, pkv, v') {
      assert SafeMark(tasks[i].mark.value, pkv, v);
      assert forall f :: f in Below(v.pfiles, tasks[i].mark.value) ==> Same(f, v.params, v'.params);
    }
    forall i | 0 <= i < |tasks| ensures OwnsFile(tasks[i], v') {
      assert OwnsFile(tasks[i], v);
    }
  }

  // ---- The tasks, when one is pushed or some are popped.

  /** No mark exceeds top. */
  ghost predicate UpTo(tasks: seq<Task>, top: int) {
    forall i :: 0 <= i < |tasks| && tasks[i].mark.Some? ==> tasks[i].mark.value <= top
  }

  lemma MarksUpTo(tasks: seq<Task>, top: int)
    requires Ordered(tasks, top)
    ensures UpTo(tasks, top)
  {
  }

  lemma MarkUpTo(tasks: seq<Task>, i: nat, top: nat)
    requires UpTo(tasks, top) && i < |tasks|
    ensures UpTo(WithMark(tasks, i, top), top)
  {
  }

  lemma PushedOwning(tasks: seq<Task>, t: Task, mark: int, pfv: PfileView)
    requires Owning(tasks, pfv) && OwnsFile(t, pfv) && AllBelow(pfv.pfiles, mark)
    requires t.mark.Some? ==> t.mark.value == mark
    ensures Owning(tasks + [t], pfv)
  {
    var pushed := tasks + [t];
    forall i, j | 0 <= i <= j < |pushed| ensures OwnBelow(pushed[i], pushed[j]) {
      assert OwnsFile(if i < |tasks| then tasks[i] else t, pfv);
      if j < |tasks| { assert OwnBelow(tasks[i], tasks[j]); }
    }
    forall i | 0 <= i < |pushed| ensures OwnsFile(pushed[i], pfv) {
      if i < |tasks| { assert OwnsFile(tasks[i], pfv); }
    }
  }

  /** Pushing a task whose mark, if any, is not below the others does not touch the order of those. */
  lemma PushedOrder(tasks: seq<Task>, t: Task, mark: int, top: int, pkv: PackageView, pfv: PfileView)
    requires Marked(tasks) && Safe(tasks, pkv, pfv) && Owning(tasks, pfv) && SafeMark(mark, pkv, pfv)
    requires tasks[|tasks| - 1].mark.Some? && AllBelow(pfv.pfiles, mark) && UpTo(tasks, mark) && mark <= top
    requires if t.mark == None then !t.interactive else t.mark.value == mark
    requires OwnsFile(t, pfv)
    ensures TasksOk(tasks + [t], top, pkv, pfv) <==> Ordered(tasks, mark)
  {
    hide SafeMark, OwnsFile, OwnBelow;
    var pushed := tasks + [t];
    PushedOwning(tasks, t, mark, pfv);
    assert forall i :: 0 <= i < |tasks| ==> pushed[i] == tasks[i];
    if Ordered(pushed, top) {
      forall i, j | 0 <= i < j < |tasks| && tasks[i].mark.Some? && tasks[j].mark.Some?
        ensures tasks[i].mark.value <= tasks[j].mark.value
      {
        assert pushed[i].mark.value <= pushed[j].mark.value;
      }
    }
  }

  /** A task without a mark may always be pushed. */
  lemma PushUnmarked(tasks: seq<Task>, t: Task, top: int, pkv: PackageView, pfv: PfileView)
    requires TasksOk(tasks, top, pkv, pfv) && tasks[|tasks| - 1].mark.Some?
    requires t.mark == None && !t.interactive && OwnsFile(t, pfv)
    ensures TasksOk(tasks + [t], top, pkv, pfv)
  {
    hide SafeMark, HasParams;
    var pushed := tasks + [t];
    forall i, j | 0 <= i <= j < |pushed| ensures OwnBelow(pushed[i], pushed[j]) {
      if j < |tasks| { assert OwnBelow(tasks[i], tasks[j]); }
    }
    forall i | 0 <= i < |pushed| ensures OwnsFile(pushed[i], pfv) {
      if i < |tasks| { assert OwnsFile(tasks[i], pfv); }
    }
  }

  /** The stack after some tasks have been popped. */
  lemma TasksPopped(tasks: seq<Task>, n: nat, top: int, pkv: PackageView, pfv: PfileView)
    requires TasksOk(tasks, top, pkv, pfv) && 1 <= n <= |tasks|
    ensures TasksOk(tasks[..n], top, pkv, pfv)
    ensures n < |tasks| ==> tasks[n - 1].mark.Some?
  {
    hide SafeMark, OwnsFile, OwnBelow;
  }

  /** The stack after the dictionary has been cut back to the mark of its last task. */
  lemma TasksAfterCut(tasks: seq<Task>, top: int, pkv: PackageView, pf: PfileMem, pfv: PfileView,
                      pkv': PackageView, pf': PfileMem, pfv': PfileView)
    requires TasksOk(tasks, top, pkv, pfv) && tasks[|tasks| - 1].mark.Some?
    requires DictCut(tasks[|tasks| - 1].mark.value, pkv, pf, pfv, pkv', pf', pfv')
    ensures TasksOk(tasks, tasks[|tasks| - 1].mark.value, pkv', pfv')
  {
    hide SafeMark, DictCut, HasParams;
    var cut := tasks[|tasks| - 1].mark.value;
    forall i | 0 <= i < |tasks| && tasks[i].mark.Some?
      ensures tasks[i].mark.value <= cut && SafeMark(tasks[i].mark.value, pkv', pfv')
    {
      MarksBelowLast(tasks, top, i);
      SafeAfterCut(tasks[i].mark.value, cut, pkv, pf, pfv, pkv', pf', pfv');
    }
    forall i | 0 <= i < |tasks| ensures OwnsFile(tasks[i], pfv') {
      assert OwnsFile(tasks[i], pfv) && OwnBelow(tasks[i], tasks[|tasks| - 1]);
      if tasks[i].pfile.Some? { FileAfterCut(tasks[i].pfile.value, cut, pkv, pf, pfv, pkv', pf', pfv'); }
    }
  }

  /** The stack after the newest pfile, which lies above the current task's mark, has been unlinked. */
  lemma TasksRetracted(tasks: seq<Task>, top: int, pkv: PackageView, v: PfileView)
    requires TasksOk(tasks, top, pkv, v) && v.pfiles != []
    requires tasks[|tasks| - 1].mark.Some? && v.pfiles[0] >= tasks[|tasks| - 1].mark.value
    ensures TasksOk(tasks, tasks[|tasks| - 1].mark.value, pkv, v.(pfiles := v.pfiles[1..]))
  {
    var v' := v.(pfiles := v.pfiles[1..]);
    forall i | 0 <= i < |tasks| && tasks[i].mark.Some?
      ensures tasks[i].mark.value <= tasks[|tasks| - 1].mark.value
      ensures SafeMark(tasks[i].mark.value, pkv, v')
    {
      MarksBelowLast(tasks, top, i);
      assert Below(v.pfiles[1..], tasks[i].mark.value) == Below(v.pfiles, tasks[i].mark.value);
    }
    forall i | 0 <= i < |tasks| ensures OwnsFile(tasks[i], v') {
      assert OwnsFile(tasks[i], v) && OwnBelow(tasks[i], tasks[|tasks| - 1]);
    }
  }

  // ---- Preparing a task.

  lemma PendingAfterParam(mark: int, own: int, n: nat, pkv: PackageView, v: PfileView, f: int, a: int, v': PfileView)
    requires Pending(mark, own, n, pkv, v) && Descending(v.pfiles) && f in v.params && f >= mark
    requires v' == AppendParam(v, f, a)
    ensures Pending(mark, own, n, pkv, v')
  {
  }

  lemma PendingAfterPfile(mark: int, own: int, n: nat, pkv: PackageView, v: PfileView, a: int, v': PfileView)
    requires Pending(mark, own, n, pkv, v) && mark <= a && AllBelow(v.pfiles, a)
    requires v' == PushPfile(v, a)
    ensures Pending(mark, own, n + 1, pkv, v')
  {
    assert v'.pfiles[n + 2..] == v.pfiles[n + 1..];
    SuffixFacts(v.pfiles, n + 1);
  }

  lemma NewTaskAfterParam(tasks: seq<Task>, newtask: Option<NewTask>, n: nat, pkv: PackageView, v: PfileView, f: int,
                          a: int)
    requires NewTaskOk(tasks, newtask, n, pkv, v) && Descending(v.pfiles) && f in v.params
    requires newtask.Some? && newtask.value.Fake? ==> f >= tasks[|tasks| - 1].mark.value
    ensures NewTaskOk(tasks, newtask, n, pkv, AppendParam(v, f, a))
  {
    hide Pending;
    if newtask.Some? && newtask.value.Fake? {
      PendingAfterParam(tasks[|tasks| - 1].mark.value, newtask.value.pfile, n, pkv, v, f, a, AppendParam(v, f, a));
    }
  }

  lemma NewTaskAfterPfile(tasks: seq<Task>, newtask: Option<NewTask>, n: nat, top: int, pkv: PackageView, v: PfileView)
    requires NewTaskOk(tasks, newtask, n, pkv, v) && AllBelow(v.pfiles, top)
    requires forall i :: 0 <= i < |tasks| && tasks[i].mark.Some? ==> tasks[i].mark.value <= top
    ensures NewTaskOk(tasks, newtask, n + 1, pkv, PushPfile(v, top))
  {
    hide Pending;
    if newtask.Some? && newtask.value.Fake? {
      PendingAfterPfile(tasks[|tasks| - 1].mark.value, newtask.value.pfile, n, pkv, v, top, PushPfile(v, top));
    }
  }

  lemma FreshPending(top: int, pkv: PackageView, v: PfileView)
    requires DictTight(top, pkv, v)
    ensures Pending(top, top, 0, pkv, PushPfile(v, top))
  {
    assert PushPfile(v, top).pfiles[1..] == v.pfiles;
    NotBelow(v.pfiles, top);
  }

  lemma PendingFirst(mark: int, own: int, n: nat, pkv: PackageView, v: PfileView)
    requires Pending(mark, own, n, pkv, v)
    ensures v.pfiles != [] && v.pfiles[0] >= mark
  {
  }

  lemma NoNewTask(tasks: seq<Task>, n: nat, pkv: PackageView, pfv: PfileView)
    ensures NewTaskOk(tasks, None, n, pkv, pfv)
  {
  }

  /** Unlinking the most recent pfile leaves the dictionary tight if and only if that is the new task's own. */
  lemma PendingRetract(mark: int, own: int, n: nat, pkv: PackageView, m: PfileMem, v: PfileView)
    requires Pending(mark, own, n, pkv, v) && PfilesValid(m, v)
    ensures DictTight(mark, pkv, v.(pfiles := v.pfiles[1..])) <==> m.head == own
    ensures m.head == v.pfiles[0]
  {
    if n > 0 {
      assert v.pfiles[1] in v.pfiles[1..];
    }
  }

  // ---- The dictionary as chains.

  function ChainsOf(order: seq<int>, items: map<int, seq<int>>): (r: seq<Chain>)
    ensures |r| == |order|
  {
    seq(|order|, i requires 0 <= i < |order| => Chain(order[i], if order[i] in items then items[order[i]] else []))
  }

  lemma ChainsPush(order: seq<int>, items: map<int, seq<int>>, a: int)
    requires a !in order
    ensures ChainsOf([a] + order, items[a := []]) == Push(ChainsOf(order, items), a)
  {
  }

  lemma ChainsAddFirst(order: seq<int>, items: map<int, seq<int>>, at: int, a: int)
    requires at in items
    ensures ChainsOf(order, items[at := [a] + items[at]]) == AddFirst(ChainsOf(order, items), at, a)
  {
  }

  lemma ChainsAddLast(order: seq<int>, items: map<int, seq<int>>, at: int, a: int)
    requires at in items
    ensures ChainsOf(order, items[at := items[at] + [a]]) == AddLast(ChainsOf(order, items), at, a)
  {
  }

  lemma ChainsStep(first: int, rest: seq<int>, items: map<int, seq<int>>)
    ensures ChainsOf([first] + rest, items)
         == [Chain(first, if first in items then items[first] else [])] + ChainsOf(rest, items)
    ensures ChainsOf([first] + rest, items)[1..] == ChainsOf(rest, items)
  {
  }

  lemma {:induction false} ChainsCut(order: seq<int>, items: map<int, seq<int>>, top: int, items': map<int, seq<int>>)
    requires forall f :: f in order && f < top ==> f in items && f in items' && items'[f] == Below(items[f], top)
    ensures ChainsOf(Below(order, top), items') == Cut(ChainsOf(order, items), top)
    decreases |order|
  {
    if order != [] {
      var first, rest := order[0], order[1..];
      assert order == [first] + rest;
      ChainsStep(first, rest, items);
      ChainsStep(first, Below(rest, top), items');
      hide ChainsOf;
      ChainsCut(rest, items, top, items');
    }
  }

  /** A cut of the dictionary to a safe mark, as chains. */
  lemma CutIsCut(top: int, pkv: PackageView, pf: PfileMem, pfv: PfileView, pkv': PackageView, pf': PfileMem,
                 pfv': PfileView)
    requires SafeMark(top, pkv, pfv) && DictCut(top, pkv, pf, pfv, pkv', pf', pfv')
    ensures ChainsOf(pkv'.packages, pkv'.ltasks) == Cut(ChainsOf(pkv.packages, pkv.ltasks), top)
    ensures ChainsOf(pfv'.pfiles, pfv'.params) == Cut(ChainsOf(pfv.pfiles, pfv.params), top)
  {
    hide Below, Cut, ChainsOf;
    ChainsCut(pkv.packages, pkv.ltasks, top, pkv'.ltasks);
    forall f | f in pfv.pfiles && f < top
      ensures f in pfv.params && f in pfv'.params && pfv'.params[f] == Below(pfv.params[f], top)
    {
      assert f in Below(pfv.pfiles, top);
      assert Chopped(top, f, pf, pfv, pf', pfv');
    }
    ChainsCut(pfv.pfiles, pfv.params, top, pfv'.params);
  }

  lemma ChainsSame(v: PfileView, v': PfileView)
    requires SameFiles(v, v')
    ensures ChainsOf(v'.pfiles, v'.params) == ChainsOf(v.pfiles, v.params)
  {
    forall i | 0 <= i < |v.pfiles| ensures Same(v.pfiles[i], v.params, v'.params) {
      assert v.pfiles[i] in v.pfiles;
    }
  }

  lemma ChainsSuffix(order: seq<int>, items: map<int, seq<int>>, n: nat)
    requires n <= |order|
    ensures ChainsOf(order[n..], items) == ChainsOf(order, items)[n..]
  {
  }

  lemma TightMore(top: int, top': int, pkv: PackageView, pfv: PfileView)
    requires DictTight(top, pkv, pfv) && top <= top'
    ensures DictTight(top', pkv, pfv)
  {
  }

  /** The root of a script: going down the stack from task p, the last one met that shares its input. */
  method FindRoot(tasks: seq<Task>, p: nat) returns (root: nat)
    requires 1 <= p < |tasks|
    ensures root == FirstReader(tasks, tasks[p].input, 1, p)
  {
    var tp := p;
    root := p;
    while tp != 0
      invariant tp <= p && tp <= root <= p && 1 <= root
      invariant tasks[root].input == tasks[p].input
      invariant forall i :: tp < i < root ==> tasks[i].input != tasks[p].input
    {
      if tasks[tp].input == tasks[p].input {
        root := tp;
      }
      tp := tp - 1;
    }
  }

  lemma FirstMarked(tasks: seq<Task>)
    requires Marked(tasks)
    ensures tasks != [] && tasks[0].interactive && tasks[0].mark.Some?
  {
  }

  lemma InteractiveMarked(tasks: seq<Task>)
    requires Marked(tasks) && tasks[|tasks| - 1].interactive
    ensures tasks[|tasks| - 1].mark.Some?
  {
  }

  lemma PfileAdded(tasks: seq<Task>, newtask: Option<NewTask>, n: nat, ok: bool, top: int, top': int,
                   pkv: PackageView, v: PfileView, v': PfileView)
    requires TasksOk(tasks, top, pkv, v) && NewTaskOk(tasks, newtask, n, pkv, v)
    requires AllBelow(v.pfiles, top) && top <= top' && v' == if ok then PushPfile(v, top) else v
    ensures TasksOk(tasks, top', pkv, v') && NewTaskOk(tasks, newtask, if ok then n + 1 else n, pkv, v')
    ensures top !in v.pfiles
    ensures ChainsOf(v'.pfiles, v'.params)
         == var chains := ChainsOf(v.pfiles, v.params); if ok then Push(chains, top) else chains
  {
    hide TasksOk, NewTaskOk, AllBelow, ChainsOf, Push;
    NotBelow(v.pfiles, top);
    AboveMarks(tasks, top, pkv, v);
    TasksAfterMemory(tasks, top, top', pkv, v);
    if ok {
      ChainsPush(v.pfiles, v.params, top);
      TasksAfterPfile(tasks, top, top', pkv, v, v');
      NewTaskAfterPfile(tasks, newtask, n, top, pkv, v);
    }
  }

  lemma FileOutcome(s: State, s': State, size: nat, ok: bool)
    requires s'.top == Rounded(s.top + size) && (ok <==> s'.top <= s.maxd)
    requires s'.tasks == s.tasks && s'.newtask == s.newtask && s'.alldone == s.alldone && s'.maxd == s.maxd
    requires s'.packages == s.packages && s'.pfiles == if ok then Push(s.pfiles, s.top) else s.pfiles
    ensures Outcome(ok, s') == NewFile(s, size)
  {
  }

  class Machine {
    const dict: Dict
    var tasks: seq<Task>          // the control stack: firstask first, currentask last
    var newtask: Option<NewTask>
    var alldone: bool
    ghost var loaded: nat         // how many pfiles have been loaded since the new task's own

    ghost predicate Inv()
      reads this, dict
    {
      && dict.Valid()
      && dict.Tight(dict.topd)
      && TasksOk(tasks, dict.topd, dict.pkv, dict.pfv)
      && NewTaskOk(tasks, newtask, loaded, dict.pkv, dict.pfv)
    }

    /** The machine as a value. */
    ghost function Now(): (s: State)
      reads this, dict
      ensures s.tasks == tasks && s.newtask == newtask && s.alldone == alldone && s.top == dict.topd
              && s.maxd == dict.maxd
      ensures s.packages == ChainsOf(dict.pkv.packages, dict.pkv.ltasks)
      ensures s.pfiles == ChainsOf(dict.pfv.pfiles, dict.pfv.params)
    {
      State(tasks, newtask, alldone, dict.topd, dict.maxd,
            ChainsOf(dict.pkv.packages, dict.pkv.ltasks), ChainsOf(dict.pfv.pfiles, dict.pfv.params))
    }

    constructor (d: Dict, input: int, pfile: int)
      requires d.Valid() && d.Tight(d.topd) && d.pkv.packages != [] && HasParams(d.pfv, pfile)
      ensures dict == d && Inv() && tasks == [Task(Some(d.topd), input, true, Some(pfile))] && newtask == None
              && !alldone
    {
      dict := d;
      tasks := [Task(Some(d.topd), input, true, Some(pfile))];
      newtask, alldone, loaded := None, false, 0;
      new;
      TopIsSafe(d.topd, d.pk, d.pkv, d.pf, d.pfv);
      assert OwnsFile(tasks[0], d.pfv) && OwnBelow(tasks[0], tasks[0]);
    }

    /** There is always a package and a pfile, and the present top is a safe mark. */
    lemma Top()
      requires Inv()
      ensures SafeMark(dict.topd, dict.pkv, dict.pfv) && AllBelow(dict.pfv.pfiles, dict.topd)
      ensures tasks != [] && dict.pkv.packages != [] && dict.pfv.pfiles != []
    {
      assert SafeMark(tasks[0].mark.value, dict.pkv, dict.pfv);
      TopIsSafe(dict.topd, dict.pk, dict.pkv, dict.pf, dict.pfv);
    }

    // ---- Marks.

    /** Set the mark of task i to the present top of the dictionary: `keep` for one task. The marks stay
        in order if and only if no later task has a mark below the top. */
    method Keep(i: nat)
      requires Inv() && i < |tasks| && (newtask == None || newtask == Some(Cl))
      modifies `tasks
      ensures tasks == WithMark(old(tasks), i, dict.topd) && Now() == Kept(old(Now()), i)
      ensures Marked(tasks) && Safe(tasks, dict.pkv, dict.pfv) && Owning(tasks, dict.pfv)
      ensures dict.Valid() && dict.Tight(dict.topd) && NewTaskOk(tasks, newtask, loaded, dict.pkv, dict.pfv)
      ensures Ordered(tasks, dict.topd) <==>
                forall j :: i < j < |tasks| && tasks[j].mark.Some? ==> tasks[j].mark.value == dict.topd
      ensures Inv() <==> Ordered(tasks, dict.topd)
    {
      Top();
      MarkRaised(tasks, i, dict.topd, dict.pkv, dict.pfv);
      MarkOfNew(tasks, i, dict.topd, newtask, loaded, dict.pkv, dict.pfv);
      hide SafeMark, DictValid, DictTight, ChainsOf, Marked, Safe, Owning, Ordered, NewTaskOk;
      tasks := tasks[i := tasks[i].(mark := Some(dict.topd))];
    }

    /** The mark that is set before a command is read, or a task is called. */
    method MarkCurrent()
      requires Inv() && newtask == None
      modifies `tasks
      ensures Inv() && Now() == KeptCurrent(old(Now()))
    {
      Keep(|tasks| - 1);
    }

    // ---- Adding to the dictionary.

    /** Put something into the dictionary that is on no list, such as strings. */
    method Reserve(size: nat) returns (ok: bool)
      requires Inv()
      modifies dict`topd
      ensures Inv() && Outcome(ok, Now()) == NewMemory(old(Now()), size)
    {
      ghost var top := dict.topd;
      var start := dict.Memneed(size);
      ok := start.Some?;
      TightMore(top, dict.topd, dict.pkv, dict.pfv);
      TasksAfterMemory(tasks, top, dict.topd, dict.pkv, dict.pfv);
    }

    /** A param may be added to a pfile that has one already, or is newer than all marks; and while a task
        with a fresh pfile is being prepared, only to a pfile that is newer than the call. */
    ghost predicate MayGrow(pfp: int)
      reads this, dict
    {
      && pfp in dict.pfv.pfiles && pfp in dict.pfv.params
      && (|| dict.pfv.params[pfp] != []
          || forall i :: 0 <= i < |tasks| && tasks[i].mark.Some? ==> tasks[i].mark.value <= pfp)
      && (newtask.Some? && newtask.value.Fake? && tasks != [] && tasks[|tasks| - 1].mark.Some? ==>
            pfp >= tasks[|tasks| - 1].mark.value)
    }

    lemma FreshMayGrow(a: int, v: PfileView)
      requires dict.pfv == PushPfile(v, a) && TasksOk(tasks, a, dict.pkv, v)
      ensures MayGrow(a)
    {
    }

    /** Add a param to a pfile. */
    method AddParam(pfp: int, size: nat) returns (ok: bool)
      requires Inv() && size > 0 && MayGrow(pfp)
      modifies dict
      ensures Inv() && MayGrow(pfp) && Outcome(ok, Now()) == NewParam(old(Now()), pfp, size)
      ensures dict.pkv == old(dict.pkv) && dict.topd > old(dict.topd)
      ensures dict.pfv == if ok then AppendParam(old(dict.pfv), pfp, old(dict.topd)) else old(dict.pfv)
    {
      hide PackagesValid, ParamsApart, LastIsLast, SafeMark, Pending, TasksOk, ChainsOf, DictTight;
      ghost var v, top := dict.pfv, dict.topd;
      var start := dict.NewParam(pfp, size);
      ok := start.Some?;
      TasksAfterMemory(tasks, top, dict.topd, dict.pkv, v);
      if ok {
        ChainsAddLast(v.pfiles, v.params, pfp, top);
        TasksAfterParam(tasks, top, dict.topd, dict.pkv, v, pfp, dict.pfv);
        NewTaskAfterParam(tasks, newtask, loaded, dict.pkv, v, pfp, top);
      }
    }

    /** Add params to a pfile. */
    method AddParams(pfp: int, sizes: seq<nat>) returns (ok: bool)
      requires Inv() && MayGrow(pfp) && forall i :: 0 <= i < |sizes| ==> sizes[i] > 0
      modifies dict
      ensures Inv() && MayGrow(pfp) && Outcome(ok, Now()) == NewParams(old(Now()), pfp, sizes)
      ensures dict.pkv == old(dict.pkv) && dict.topd >= old(dict.topd) && OnlyGrew(pfp, old(dict.pfv), dict.pfv)
      ensures ok && sizes != [] ==> HasParams(dict.pfv, pfp)
    {
      assert pfp in dict.pfv.pfiles;
      hide Inv, MayGrow, NewParam;
      var i := 0;
      ok := true;
      while i < |sizes|
        invariant i <= |sizes| && Inv() && MayGrow(pfp)
        invariant NewParams(Now(), pfp, sizes[i..]) == NewParams(old(Now()), pfp, sizes)
        invariant dict.pkv == old(dict.pkv) && dict.topd >= old(dict.topd) && OnlyGrew(pfp, old(dict.pfv), dict.pfv)
        invariant i > 0 ==> HasParams(dict.pfv, pfp)
      {
        assert sizes[i..][1..] == sizes[i + 1..];
        ghost var v, top := dict.pfv, dict.topd;
        ok := AddParam(pfp, sizes[i]);
        if ok { GrewMore(pfp, old(dict.pfv), v, top); }
        if !ok {
          return;
        }
        i := i + 1;
      }
    }

    lemma InvOpened()
      requires Inv()
      ensures dict.Valid() && dict.Tight(dict.topd) && AllBelow(dict.pfv.pfiles, dict.topd)
      ensures TasksOk(tasks, dict.topd, dict.pkv, dict.pfv) && NewTaskOk(tasks, newtask, loaded, dict.pkv, dict.pfv)
    {
      Top();
    }

    lemma InvClosed()
      requires dict.Valid() && dict.Tight(dict.topd)
      requires TasksOk(tasks, dict.topd, dict.pkv, dict.pfv) && NewTaskOk(tasks, newtask, loaded, dict.pkv, dict.pfv)
      ensures Inv()
    {
    }

    /** Add a pfile without params. This may happen at any time, also while a new task is being prepared. */
    method AddFile(size: nat) returns (ok: bool)
      requires Inv() && size > 0
      modifies `loaded, dict
      ensures Inv() && Outcome(ok, Now()) == NewFile(old(Now()), size)
      ensures dict.pkv == old(dict.pkv) && dict.topd > old(dict.topd)
      ensures if ok then dict.pfv == PushPfile(old(dict.pfv), old(dict.topd))
                         && MayGrow(old(dict.topd)) && old(dict.topd) !in old(dict.pfv.pfiles)
              else dict.pfv == old(dict.pfv)
    {
      hide DictValid, DictTight, NewTaskOk, TasksOk, ChainsOf, AllBelow, MayGrow, Push, Rounded, NewFile, Inv, Now;
      InvOpened();
      ghost var before, v, top := Now(), dict.pfv, dict.topd;
      var start := dict.NewPfile(size);
      ok := start.Some?;
      PfileAdded(tasks, newtask, loaded, ok, top, dict.topd, dict.pkv, v, dict.pfv);
      loaded := if ok then loaded + 1 else loaded;
      InvClosed();
      if ok { FreshMayGrow(top, v); }
      FileOutcome(before, Now(), size, ok);
    }

    /** Load a pfile with its params. */
    method Load(file: FileSize) returns (ok: bool)
      requires Inv() && Positive(file)
      modifies `loaded, dict
      ensures Inv() && Outcome(ok, Now()) == LoadFile(old(Now()), file)
      ensures dict.pkv == old(dict.pkv) && dict.topd >= old(dict.topd)
      ensures ok ==> Loaded(old(dict.topd), old(dict.pfv), dict.pfv)
    {
      hide Inv, MayGrow, NewFile, NewParams;
      if |file.params| == 0 {
        return false;
      }
      ghost var v := dict.pfv;
      var start := dict.topd;
      ok := AddFile(file.head);
      if ok {
        LoadedFirst(start, v);
        ghost var v' := dict.pfv;
        ok := AddParams(start, file.params);
        LoadedThen(start, v, v', dict.pfv);
      }
    }

    /** Load pfiles one after the other. */
    method LoadAll(files: seq<FileSize>) returns (ok: bool, ghost n: nat)
      requires Inv() && forall i :: 0 <= i < |files| ==> Positive(files[i])
      modifies `loaded, dict
      ensures Inv() && Outcome(ok, Now()) == LoadFiles(old(Now()), files)
      ensures dict.pkv == old(dict.pkv) && dict.topd >= old(dict.topd)
      ensures ok ==> Extends(n, old(dict.pfv), dict.pfv)
    {
      hide Inv, LoadFile;
      n, ok := 0, true;
      var i := 0;
      ExtendsNone(dict.pfv);
      while i < |files|
        invariant i <= |files| && Inv()
        invariant LoadFiles(Now(), files[i..]) == LoadFiles(old(Now()), files)
        invariant dict.pkv == old(dict.pkv) && dict.topd >= old(dict.topd)
        invariant Extends(n, old(dict.pfv), dict.pfv)
      {
        assert files[i..][1..] == files[i + 1..];
        ghost var v, top := dict.pfv, dict.topd;
        ok := Load(files[i]);
        if !ok {
          return;
        }
        ExtendsMore(n, top, old(dict.pfv), v, dict.pfv);
        n := n + 1;
        i := i + 1;
      }
    }

    /** Define a package. */
    method DefinePackage(size: nat) returns (ok: bool)
      requires Inv() && newtask == None && size > 0
      modifies dict
      ensures Inv() && Outcome(ok, Now()) == NewPackage(old(Now()), size)
    {
      hide PfilesValid, ParamsApart, LastIsLast, SafeMark, TasksOk, ChainsOf;
      ghost var v, top := dict.pkv, dict.topd;
      NotBelow(v.packages, top);
      var start := dict.NewPackage(size);
      ok := start.Some?;
      TasksAfterPackage(tasks, top, dict.topd, v, dict.pfv, dict.pkv);
      if ok { ChainsPush(v.packages, v.ltasks, top); }
    }

    /** Define an ltask in a package. */
    method DefineLtask(pkp: int, size: nat) returns (ok: bool)
      requires Inv() && newtask == None && size > 0 && pkp in dict.pkv.packages
      modifies dict
      ensures Inv() && Outcome(ok, Now()) == NewLtask(old(Now()), pkp, size)
    {
      hide PfilesValid, ParamsApart, LastIsLast, SafeMark, TasksOk, ChainsOf;
      ghost var v, top := dict.pkv, dict.topd;
      var start := dict.NewLtask(pkp, size);
      ok := start.Some?;
      TasksAfterPackage(tasks, top, dict.topd, v, dict.pfv, dict.pkv);
      if ok { ChainsAddFirst(v.packages, v.ltasks, pkp, top); }
    }

    /** A declaration: the current task's pfile gets a param, and the task's mark is raised above it. Its
        pfile always has params, so that no mark is harmed. */
    method Declare(size: nat) returns (ok: bool)
      requires Inv() && newtask == None && size > 0
      requires tasks[|tasks| - 1].pfile.Some? && tasks[|tasks| - 1].mark == Some(dict.topd)
      modifies `tasks, dict
      ensures Inv() && Outcome(ok, Now()) == Declared(old(Now()), old(tasks)[|old(tasks)| - 1].pfile.value, size)
    {
      assert OwnsFile(tasks[|tasks| - 1], dict.pfv);
      ok := AddParam(tasks[|tasks| - 1].pfile.value, size);
      if ok {
        MarkCurrent();
      }
    }

    // ---- Calling tasks.

    /** A turn of the main loop up to the running of the code: the mark is set, the command is parsed, and
        what the parser has put into the dictionary is forgotten, with the pfiles it has loaded. */
    method Execute(consts: nat, files: seq<FileSize>) returns (ok: bool)
      requires Inv() && newtask == None && forall i :: 0 <= i < |files| ==> Positive(files[i])
      modifies `tasks, `loaded, dict
      ensures Inv() && Outcome(ok, Now()) == Turned(old(Now()), consts, files)
    {
      MarkCurrent();
      Top();
      var mark, oldParhead := dict.topd, dict.pf.head;
      ghost var v := dict.pfv;
      assert TasksOk(tasks, mark, dict.pkv, v) && DictTight(mark, dict.pkv, v) && oldParhead == v.pfiles[0];
      hide Inv, Now, TasksOk, DictTight, LoadFiles;
      ok := Reserve(consts);
      if !ok {
        return;
      }
      ghost var n;
      ok, n := LoadAll(files);
      if !ok {
        return;
      }
      ForgetLoads(oldParhead, mark, n, v);
    }

    /** Forget the n pfiles that the parser has loaded, and whatever else it has put into the dictionary. */
    method ForgetLoads(oldParhead: int, mark: nat, ghost n: nat, ghost v: PfileView)
      requires Inv() && newtask == None && Extends(n, v, dict.pfv)
      requires TasksOk(tasks, mark, dict.pkv, v) && DictTight(mark, dict.pkv, v)
      requires v.pfiles != [] && oldParhead == v.pfiles[0]
      modifies dict
      ensures Inv() && Now() == old(Now()).(top := mark, pfiles := ChainsOf(v.pfiles, v.params))
    {
      assert oldParhead == dict.pfv.pfiles[n];
      LinkedFrom(dict.pf.npf, dict.pf.head, dict.pfv.pfiles, n);
      hide TasksOk, ChainsOf, SafeMark, Linked, DictValid, PackagesTight, PfilesTight;
      dict.Forget(oldParhead, n, mark);
      TasksSameFiles(tasks, mark, dict.pkv, v, dict.pfv);
      ChainsSame(v, dict.pfv);
      NoNewTask(tasks, loaded, dict.pkv, dict.pfv);
    }

    /** Call a task that has no pfile on disk: it gets a fresh one. */
    method Call(size: nat) returns (ok: bool)
      requires Inv() && newtask == None && size > 0
      modifies this, dict
      ensures Inv() && Outcome(ok, Now()) == Called(old(Now()), size)
    {
      hide Inv, MayGrow, DictTight, Pending, Now, TasksOk, NewTaskOk, AllBelow, NewFile;
      MarkCurrent();
      InvOpened();
      ghost var v := dict.pfv;
      var start := dict.topd;
      ok := AddFile(size);
      if ok {
        FreshPending(start, dict.pkv, v);
        SetFresh(start);
      }
    }

    method SetFresh(own: nat)
      requires Inv() && newtask == None && tasks[|tasks| - 1].mark == Some(own)
               && Pending(own, own, 0, dict.pkv, dict.pfv)
      modifies `newtask, `loaded
      ensures Inv() && Now() == old(Now()).(newtask := Some(Fake(own)))
    {
      assert tasks != [];
      hide TasksOk, ChainsOf, DictValid, DictTight, Pending;
      newtask, loaded := Some(Fake(own)), 0;
    }

    /** Call a task with a pfile on disk. That and a copy are loaded unless they are there; which of the
        pfiles is then the task's own is found on the list. */
    method CallWithFile(files: seq<FileSize>, which: nat) returns (ok: bool)
      requires Inv() && newtask == None && forall i :: 0 <= i < |files| ==> Positive(files[i])
      modifies this, dict
      ensures Inv() && Outcome(ok, Now()) == CalledWithFile(old(Now()), files, which)
    {
      hide Inv, LoadFiles, HasParams, Now;
      MarkCurrent();
      ghost var n;
      ok, n := LoadAll(files);
      if ok {
        var pfp := FileAt(which);
        ok := pfp.Some?;
        if ok {
          SetNewTask(Real(pfp.value));
        }
      }
    }

    method SetNewTask(t: NewTask)
      requires Inv() && newtask == None && tasks[|tasks| - 1].mark.Some?
      requires !t.Fake? && (t.Real? ==> HasParams(dict.pfv, t.pfile))
      modifies `newtask
      ensures Inv() && Now() == old(Now()).(newtask := Some(t))
    {
      assert tasks != [];
      hide TasksOk, ChainsOf, DictValid, DictTight;
      newtask := Some(t);
    }

    /** The pfile at a place of the list, if it has params. */
    method FileAt(which: nat) returns (pfp: Option<int>)
      requires Inv()
      ensures pfp.Some? <==> which < |Now().pfiles| && Now().pfiles[which].items != []
      ensures pfp.Some? ==> pfp.value == Now().pfiles[which].at && HasParams(dict.pfv, pfp.value)
    {
      var at, k := dict.pf.head, 0;
      ghost var chain := dict.pfv.pfiles;
      while at != NULL && k < which
        invariant k <= which && k <= |chain| && Linked(dict.pf.npf, at, chain[k..])
        decreases |chain| - k
      {
        LinkedStep(dict.pf.npf, at, chain, k);
        at := dict.pf.npf[at];
        k := k + 1;
      }
      if at == NULL {
        return None;
      }
      LinkedStep(dict.pf.npf, at, chain, k);
      assert at in chain;
      return if dict.pf.pp[at] == NULL then None else Some(at);
    }

    /** Call a cl, which has no pfile of its own. */
    method CallCl()
      requires Inv() && newtask == None
      modifies this
      ensures Inv() && Now() == CalledCl(old(Now()))
    {
      MarkCurrent();
      SetNewTask(Cl);
    }

    /** The new task's fresh pfile may be given params. */
    lemma OwnMayGrow()
      requires Inv() && newtask.Some? && !newtask.value.Cl?
      ensures MayGrow(newtask.value.pfile) && tasks[|tasks| - 1].mark.Some?
    {
      match newtask.value {
        case Fake(own) =>
          assert dict.pfv.pfiles[loaded] in dict.pfv.pfiles;
          forall i | 0 <= i < |tasks| && tasks[i].mark.Some? ensures tasks[i].mark.value <= own {
            MarksBelowLast(tasks, dict.topd, i);
          }
        case Real(_) =>
      }
    }

    /** A command line argument: a fresh pfile gets a param; in others the param is there already. */
    method PosArg(size: nat) returns (ok: bool)
      requires Inv() && newtask.Some? && size > 0
      modifies dict
      ensures Inv() && Outcome(ok, Now()) == Argued(old(Now()), size)
    {
      ok := true;
      if newtask.value.Fake? {
        OwnMayGrow();
        ok := AddParam(newtask.value.pfile, size);
      }
    }

    // ---- Starting tasks.

    /** Start a builtin: the most recent pfile is unlinked, on the assumption that it is the new task's own,
        and the dictionary is set back to the caller's mark, so that the builtin can make definitions there.
        Nothing is left dangling if and only if the assumption holds. */
    method ExecBuiltin()
      requires Inv() && newtask.Some? && newtask.value.Fake?
      modifies this, dict
      ensures old(Now().pfiles) != [] && old(Current(Now()).mark).Some? && Now() == StartedBuiltin(old(Now()))
      ensures old(dict.pf.head) == old(newtask.value.pfile) <==> dict.Tight(dict.topd)
      ensures old(dict.pf.head) == old(newtask.value.pfile) <==> Inv()
    {
      hide Now, TasksOk, ChainsOf, SafeMark, DictTight, NewTaskOk, DictValid;
      OwnUnlinked();
      var caller := tasks[|tasks| - 1];
      dict.Retract(caller.mark.value);
      PushUnmarked(tasks, Task(None, caller.input, false, None), caller.mark.value, dict.pkv, dict.pfv);
      tasks := tasks + [Task(None, caller.input, false, None)];
      newtask := None;
      NoNewTask(tasks, loaded, dict.pkv, dict.pfv);
    }

    /** What becomes of the invariant when the newest pfile is unlinked. */
    lemma OwnUnlinked()
      requires Inv() && newtask.Some? && newtask.value.Fake?
      ensures tasks != [] && tasks[|tasks| - 1].mark.Some? && dict.pfv.pfiles != []
      ensures var mark, v' := tasks[|tasks| - 1].mark.value, dict.pfv.(pfiles := dict.pfv.pfiles[1..]);
              && TasksOk(tasks, mark, dict.pkv, v')
              && (DictTight(mark, dict.pkv, v') <==> dict.pf.head == newtask.value.pfile)
              && ChainsOf(v'.pfiles, v'.params) == Now().pfiles[1..]
    {
      Top();
      hide TasksOk, ChainsOf, SafeMark, Pending, PfilesValid, DictTight;
      var mark := tasks[|tasks| - 1].mark.value;
      PendingRetract(mark, newtask.value.pfile, loaded, dict.pkv, dict.pf, dict.pfv);
      PendingFirst(mark, newtask.value.pfile, loaded, dict.pkv, dict.pfv);
      TasksRetracted(tasks, dict.topd, dict.pkv, dict.pfv);
      ChainsSuffix(dict.pfv.pfiles, dict.pfv.params, 1);
    }

    /** Start a script or an executable task: its pfile gets the params "$nargs" and "mode" if they are missing. */
    method ExecTask(params: seq<nat>, input: int) returns (ok: bool)
      requires Inv() && newtask.Some? && !newtask.value.Cl?
      requires (newtask.value.Fake? ==> params != []) && forall i :: 0 <= i < |params| ==> params[i] > 0
      modifies this, dict
      ensures Inv() && Outcome(ok, Now()) == StartedTask(old(Now()), old(newtask.value.pfile), params, input)
    {
      OwnMayGrow();
      hide Inv, NewParams, MayGrow, HasParams, Now;
      var own := newtask.value.pfile;
      ok := AddParams(own, params);
      if ok {
        OwnHasParams();
        PushTask(Task(None, input, false, Some(own)));
      }
    }

    lemma OwnHasParams()
      requires Inv() && newtask.Some?
      ensures newtask.value.Real? ==> HasParams(dict.pfv, newtask.value.pfile)
      ensures tasks != [] && tasks[|tasks| - 1].mark.Some?
    {
    }

    /** Push a task that has no mark yet. */
    method PushTask(t: Task)
      requires Inv() && tasks[|tasks| - 1].mark.Some? && t.mark == None && !t.interactive && OwnsFile(t, dict.pfv)
      modifies `tasks, `newtask
      ensures Inv() && Now() == Started(old(Now()), t)
    {
      hide DictValid, DictTight, SafeMark, ChainsOf, TasksOk, NewTaskOk;
      PushUnmarked(tasks, t, dict.topd, dict.pkv, dict.pfv);
      tasks := tasks + [t];
      newtask := None;
      NoNewTask(tasks, loaded, dict.pkv, dict.pfv);
    }

    /** All of the invariant but the order of the marks. */
    ghost predicate Loose()
      reads this, dict
    {
      && dict.Valid()
      && dict.Tight(dict.topd)
      && Marked(tasks) && Safe(tasks, dict.pkv, dict.pfv) && Owning(tasks, dict.pfv)
      && NewTaskOk(tasks, newtask, loaded, dict.pkv, dict.pfv)
    }

    lemma Parts()
      requires Inv()
      ensures Loose() && Ordered(tasks, dict.topd) && tasks != [] && OwnsFile(tasks[0], dict.pfv)
      ensures Marked(tasks) && Safe(tasks, dict.pkv, dict.pfv) && Owning(tasks, dict.pfv)
      ensures SafeMark(dict.topd, dict.pkv, dict.pfv) && AllBelow(dict.pfv.pfiles, dict.topd)
      ensures newtask.Some? ==> tasks[|tasks| - 1].mark.Some?
    {
      Top();
    }

    /** Start a cl, which has no pfile of its own but may add "$nargs" to that of the first task. When a script
        called by a script runs a cl, the caller of the calling script is kept. Then the marks stay in order
        if and only if nothing has been added to the dictionary since the cl was called. */
    method ExecCl(nargs: Option<nat>, input: int, interactive: bool, implicitKeep: bool) returns (ok: bool)
      requires Inv() && newtask == Some(Cl) && nargs != Some(0)
      requires implicitKeep ==> |tasks| >= 2
      modifies `tasks, `newtask, dict
      ensures Outcome(ok, Now()) == StartedCl(old(Now()), nargs, input, interactive, implicitKeep)
      ensures Inv() <==> (implicitKeep ==> old(tasks)[|old(tasks)| - 1].mark == Some(old(dict.topd)))
    {
      hide Inv, Now, Loose, Ordered, Marked, Safe, Owning, HasParams, SafeMark, AllBelow, Restorable;
      Parts();
      ghost var before := tasks;
      var mark := dict.topd;
      MarksUpTo(tasks, mark);
      if implicitKeep {
        Keep(|tasks| - 2);
        assert tasks[|tasks| - 1] == before[|tasks| - 1];
        KeptIsLoose();
        MarkUpTo(before, |before| - 2, mark);
      }
      var file := tasks[0].pfile;
      ok := true;
      if nargs.Some? && file.Some? {
        ok := AddNargs(file.value, nargs.value, mark);
      }
      if ok {
        PushMarked(Task(if interactive then Some(mark) else None, input, interactive, file), mark);
      } else {
        LooseIsInv(mark);
      }
    }

    lemma KeptIsLoose()
      requires dict.Valid() && dict.Tight(dict.topd) && NewTaskOk(tasks, newtask, loaded, dict.pkv, dict.pfv)
      requires Marked(tasks) && Safe(tasks, dict.pkv, dict.pfv) && Owning(tasks, dict.pfv)
      ensures Loose()
    {
    }

    /** The order of marks that do not exceed an earlier top does not depend on the present one. */
    lemma LooseIsInv(top: nat)
      requires Loose() && UpTo(tasks, top) && top <= dict.topd
      ensures Inv() <==> Ordered(tasks, top)
    {
      hide SafeMark, DictValid, DictTight, HasParams, NewTaskOk, Owning;
    }

    /** Add "$nargs" to the pfile of the first task; mark is the top before. */
    method AddNargs(pfp: int, size: nat, ghost mark: nat) returns (ok: bool)
      requires Loose() && newtask == Some(Cl) && size > 0 && mark == dict.topd && HasParams(dict.pfv, pfp)
      requires SafeMark(mark, dict.pkv, dict.pfv) && AllBelow(dict.pfv.pfiles, mark)
      modifies dict
      ensures Loose() && HasParams(dict.pfv, pfp) && Outcome(ok, Now()) == NewParam(old(Now()), pfp, size)
      ensures mark <= dict.topd && SafeMark(mark, dict.pkv, dict.pfv) && AllBelow(dict.pfv.pfiles, mark)
    {
      hide PackagesValid, PfilesValid, ParamsApart, LastIsLast, SafeMark, DictTight, ChainsOf, AllBelow, Safe, Owning;
      ghost var v := dict.pfv;
      var start := dict.NewParam(pfp, size);
      ok := start.Some?;
      if ok {
        ChainsAddLast(v.pfiles, v.params, pfp, mark);
        LooseAfterParam(tasks, dict.pkv, v, pfp, mark);
        SafeAfterParam(mark, dict.pkv, v, pfp, mark, dict.pfv);
      }
    }

    /** Push a task that may have a mark, on a stack whose marks may be out of order. */
    method PushMarked(t: Task, ghost mark: nat)
      requires Loose() && newtask == Some(Cl) && UpTo(tasks, mark) && mark <= dict.topd
      requires SafeMark(mark, dict.pkv, dict.pfv) && AllBelow(dict.pfv.pfiles, mark)
      requires OwnsFile(t, dict.pfv)
      requires if t.mark == None then !t.interactive else t.mark.value == mark
      modifies `tasks, `newtask
      ensures Now() == Started(old(Now()), t) && (Inv() <==> Ordered(old(tasks), mark))
    {
      PushedOrder(tasks, t, mark, dict.topd, dict.pkv, dict.pfv);
      hide TasksOk, Ordered, Marked, Safe, Owning, ChainsOf, DictValid, DictTight, NewTaskOk, UpTo;
      tasks := tasks + [t];
      newtask := None;
      NoNewTask(tasks, loaded, dict.pkv, dict.pfv);
    }

    method ForgetNewTask()
      requires Inv()
      modifies `newtask
      ensures Inv() && Now() == old(Now()).(newtask := None)
    {
      hide TasksOk, ChainsOf, DictValid, DictTight;
      newtask := None;
    }

    // ---- The end of tasks.

    /** Cut the dictionary back to the current task's mark. The error "package list broken" never occurs. */
    method Restore()
      requires Inv() && newtask == None && tasks[|tasks| - 1].mark.Some?
      modifies dict
      ensures Inv() && Now() == Restored(old(Now()))
    {
      ghost var pkv, pf, pfv, top := dict.pkv, dict.pf, dict.pfv, dict.topd;
      var mark := tasks[|tasks| - 1].mark.value;
      assert SafeMark(mark, pkv, pfv);
      var ok := dict.CutBack(mark);
      hide TasksOk, ChainsOf, DictCut, DictValid, DictTight;
      TasksAfterCut(tasks, top, pkv, pf, pfv, dict.pkv, dict.pf, dict.pfv);
      CutIsCut(mark, pkv, pf, pfv, dict.pkv, dict.pf, dict.pfv);
      NoNewTask(tasks, loaded, dict.pkv, dict.pfv);
    }

    /** Pop the current task. */
    method Pop()
      requires Inv() && newtask == None && |tasks| > 1
      modifies `tasks
      ensures Inv() && Now() == old(Now()).(tasks := old(tasks)[..|old(tasks)| - 1]) && tasks[|tasks| - 1].mark.Some?
    {
      hide TasksOk, ChainsOf, DictValid, DictTight;
      TasksPopped(tasks, |tasks| - 1, dict.topd, dict.pkv, dict.pfv);
      tasks := tasks[..|tasks| - 1];
      NoNewTask(tasks, loaded, dict.pkv, dict.pfv);
    }

    /** The current task has ended, by `bye` or end of file: return to the task that called it and cut the
        dictionary back to its mark. */
    method Eof()
      requires Inv() && newtask == None
      modifies this, dict
      ensures Inv() && Now() == Ended(old(Now()))
    {
      hide Now, TasksOk, DictValid, DictTight, ChainsOf, Cut;
      Parts();
      FirstMarked(tasks);
      if |tasks| == 1 {
        alldone := true;
      } else {
        Pop();
      }
      Restore();
    }

    /** After an error: return to the last interactive task, and cut the dictionary back to its mark. */
    method Unwind()
      requires Inv()
      modifies this, dict
      ensures Inv() && newtask == None && Now() == Unwound(old(Now()))
      ensures tasks[|tasks| - 1].interactive && dict.topd == tasks[|tasks| - 1].mark.value
      ensures DownToInteractive(old(tasks), tasks)
    {
      hide Inv, Now, Marked, Ordered, Safe, Owning, SafeMark, Cut, ChainsOf, DownToInteractive;
      hide Loose, OwnsFile, AllBelow, UpToInteractive;
      Parts();
      UnwindIs(tasks);
      ForgetNewTask();
      PopToInteractive();
      Parts();
      InteractiveMarked(tasks);
      Restore();
    }

    /** Pop tasks until the current one is interactive. */
    method PopToInteractive()
      requires Inv() && newtask == None
      modifies `tasks
      ensures Inv() && tasks != [] && tasks[|tasks| - 1].interactive && old(tasks) != []
      ensures tasks == UpToInteractive(old(tasks)) && Now() == old(Now()).(tasks := tasks)
    {
      hide Inv, Now, Marked, Ordered, Safe, Owning, SafeMark, Cut, ChainsOf, Loose, OwnsFile, AllBelow;
      Parts();
      FirstMarked(tasks);
      while !tasks[|tasks| - 1].interactive
        invariant Inv() && newtask == None && tasks != [] && tasks[0].interactive
        invariant UpToInteractive(tasks) == UpToInteractive(old(tasks))
        invariant Now() == old(Now()).(tasks := tasks)
        decreases |tasks|
      {
        Pop();
      }
    }

    // ---- The command "keep".

    /** What has been added to the dictionary outlives the task that issued the command and, if that reads
        from a script, all tasks that read from the same script. */
    method KeepCommand()
      requires Inv() && newtask == None && |tasks| >= 2
      requires tasks[|tasks| - 1].mark == None && tasks[|tasks| - 2].mark == Some(dict.topd)
      modifies `tasks
      ensures Inv() && Now() == KeptAll(old(Now()))
    {
      hide Inv, Now, ChainsOf;
      var p := |tasks| - 2;
      if p == 0 {
        return;
      }
      if tasks[p].input == tasks[0].input {
        KeepCallersDownTo(p);
        return;
      }
      var root := FindRoot(tasks, p);
      KeepCallersDownTo(root);
    }

    /** Keep the callers of the tasks from the previous task down to root. */
    method KeepCallersDownTo(root: nat)
      requires Inv() && newtask == None && 1 <= root <= |tasks| - 2
      requires tasks[|tasks| - 1].mark == None && tasks[|tasks| - 2].mark == Some(dict.topd)
      modifies `tasks
      ensures Inv() && Now() == old(Now()).(tasks := KeptFrom(old(tasks), root - 1, |old(tasks)| - 2, dict.topd))
    {
      hide Inv, Now, ChainsOf, Marked, Safe, Owning;
      var p := |tasks| - 2;
      var tp := p;
      while true
        invariant root <= tp <= p
        invariant Inv() && Now() == old(Now()).(tasks := tasks)
        invariant tasks == KeptFrom(old(tasks), tp, p, dict.topd)
        decreases tp
      {
        assert forall j :: tp - 1 < j < |tasks| && tasks[j].mark.Some? ==> tasks[j].mark.value == dict.topd;
        Keep(tp - 1);
        assert tasks == KeptFrom(old(tasks), tp - 1, p, dict.topd);
        if tp == root {
          break;
        }
        tp := tp - 1;
      }
    }

    // ---- Steps and runs.

    /** Whether a package is on the list. */
    method Listed(package: int) returns (found: bool)
      requires Inv()
      ensures found <==> HasPackage(Now(), package)
      ensures found ==> package in dict.pkv.packages
    {
      var at, k := dict.pk.head, 0;
      ghost var chain := dict.pkv.packages;
      while at != NULL && at != package
        invariant k <= |chain| && Linked(dict.pk.npk, at, chain[k..])
        invariant forall i :: 0 <= i < k ==> chain[i] != package
        decreases |chain| - k
      {
        LinkedStep(dict.pk.npk, at, chain, k);
        at := dict.pk.npk[at];
        k := k + 1;
      }
      found := at != NULL;
      if found {
        LinkedStep(dict.pk.npk, at, chain, k);
        assert Now().packages[k].at == package;
      } else {
        assert forall i :: 0 <= i < |chain| ==> Now().packages[i].at == chain[i];
      }
    }

    /** What the guards of steps look at. */
    lemma Guards()
      requires Inv()
      ensures tasks != [] && (newtask.Some? ==> tasks[|tasks| - 1].mark.Some?)
      ensures Now().pfiles != [] && Now().pfiles[0].at == dict.pf.head
    {
      Top();
    }

    /** A step that adds to the dictionary. */
    method TakeAddition(step: Step)
      requires Inv() && (step.Text? || step.Load? || step.Package? || step.Ltask? || step.Declare? || step.Argument?)
      modifies this, dict
      ensures Inv() && Now() == Next(old(Now()), step)
    {
      hide Inv, Now, ChainsOf, Unwound, NewMemory, LoadFile, NewPackage, NewLtask, Declared, Argued, HasPackage;
      Guards();
      var ok := true;
      match step {
        case Text(size) => ok := Reserve(size);
        case Load(file) => if Positive(file) { ok := Load(file); }
        case Package(size) => if newtask == None && size > 0 { ok := DefinePackage(size); }
        case Ltask(package, size) =>
          if newtask == None && size > 0 {
            var found := Listed(package);
            if found { ok := DefineLtask(package, size); }
          }
        case Declare(size) =>
          if && newtask == None && size > 0 && tasks[|tasks| - 1].pfile.Some?
             && tasks[|tasks| - 1].mark == Some(dict.topd)
          {
            ok := Declare(size);
          }
        case Argument(size) => if newtask.Some? && size > 0 { ok := PosArg(size); }
      }
      if !ok { Unwind(); }
    }

    /** A step that calls a task. */
    method TakeCall(step: Step)
      requires Inv() && (step.Turn? || step.Prepare? || step.PrepareWithFile? || step.PrepareCl?)
      modifies this, dict
      ensures Inv() && Now() == Next(old(Now()), step)
    {
      hide Inv, Now, ChainsOf, Unwound, Turned, Called, CalledWithFile, CalledCl, Positive;
      Guards();
      var ok := true;
      match step {
        case Turn(consts, files) =>
          if newtask == None && forall i :: 0 <= i < |files| ==> Positive(files[i]) { ok := Execute(consts, files); }
        case Prepare(size) => if newtask == None && size > 0 { ok := Call(size); }
        case PrepareWithFile(files, which) =>
          if newtask == None && forall i :: 0 <= i < |files| ==> Positive(files[i]) {
            ok := CallWithFile(files, which);
          }
        case PrepareCl => if newtask == None { CallCl(); }
      }
      if !ok { Unwind(); }
    }

    /** A step that starts a task. */
    method TakeStart(step: Step)
      requires Inv() && (step.StartBuiltin? || step.StartTask? || step.StartCl?)
      modifies this, dict
      ensures Inv() && Now() == Next(old(Now()), step)
    {
      hide Inv, Now, ChainsOf, Unwound, StartedBuiltin, StartedTask, StartedCl;
      Guards();
      match step {
        case StartBuiltin => if newtask == Some(Fake(dict.pf.head)) { ExecBuiltin(); }
        case StartTask(params, input) =>
          if && newtask.Some? && !newtask.value.Cl?
             && (newtask.value.Fake? ==> params != [])
             && forall i :: 0 <= i < |params| ==> params[i] > 0
          {
            var ok := ExecTask(params, input);
            if !ok { Unwind(); }
          }
        case StartCl(nargs, input, interactive, implicitKeep) =>
          if && newtask == Some(Cl) && nargs != Some(0)
             && (implicitKeep ==> |tasks| >= 2 && tasks[|tasks| - 1].mark == Some(dict.topd))
          {
            var ok := ExecCl(nargs, input, interactive, implicitKeep);
            if !ok { Unwind(); }
          }
      }
    }

    /** A step that keeps something, or ends a task. */
    method TakeEnd(step: Step)
      requires Inv() && (step.KeepCaller? || step.KeepAll? || step.End? || step.Error?)
      modifies this, dict
      ensures Inv() && Now() == Next(old(Now()), step)
    {
      hide Inv, Now, ChainsOf, Unwound, KeptAll, Ended;
      Guards();
      match step {
        case KeepCaller =>
          if newtask == None && |tasks| >= 2 && tasks[|tasks| - 1].mark == None { KeepCaller(); }
        case KeepAll =>
          if && newtask == None && |tasks| >= 2 && tasks[|tasks| - 1].mark == None
             && tasks[|tasks| - 2].mark == Some(dict.topd)
          {
            KeepCommand();
          }
        case End => if newtask == None { Eof(); }
        case Error => Unwind();
      }
    }

    /** A builtin keeps what has been added to the dictionary for its caller. */
    method KeepCaller()
      requires Inv() && newtask == None && |tasks| >= 2 && tasks[|tasks| - 1].mark == None
      modifies `tasks
      ensures Inv() && Now() == Kept(old(Now()), |old(tasks)| - 2)
    {
      Keep(|tasks| - 2);
    }

    /** One step of a run, taken if the state allows it. */
    method Take(step: Step)
      requires Inv()
      modifies this, dict
      ensures Inv() && Now() == Next(old(Now()), step)
    {
      hide Inv, Now, Next;
      match step {
        case Text(_) | Load(_) | Package(_) | Ltask(_, _) | Declare(_) | Argument(_) => TakeAddition(step);
        case Turn(_, _) | Prepare(_) | PrepareWithFile(_, _) | PrepareCl => TakeCall(step);
        case StartBuiltin | StartTask(_, _) | StartCl(_, _, _, _) => TakeStart(step);
        case KeepCaller | KeepAll | End | Error => TakeEnd(step);
      }
    }

    /** Over all runs the machine is where the steps lead; saved marks never decrease from the first task to
        the current one and never exceed the top, nothing that can be reached lies above the top, and every
        saved mark can be cut back to. */
    method Run(steps: seq<Step>)
      requires Inv()
      modifies this, dict
      ensures old(tasks) != [] && Now() == RunOf(old(Now()), steps)
      ensures Inv()
    {
      Guards();
      hide Inv, Now, Next;
      for i := 0 to |steps|
        invariant Inv() && tasks != [] && RunOf(Now(), steps[i..]) == RunOf(old(Now()), steps)
      {
        assert steps[i..][1..] == steps[i + 1..];
        Take(steps[i]);
        Guards();
      }
    }

    /** The machine meets the assumptions of the laws. */
    lemma Lawful()
      requires Inv()
      ensures Orderly(Now()) && Tidy(Now())
    {
      NewTaskOrderly();
      forall i | 0 <= i < |Now().packages|
        ensures Now().packages[i].at < dict.topd && AllBelow(Now().packages[i].items, dict.topd)
      {
        assert dict.pkv.packages[i] in dict.pkv.packages;
      }
      forall i | 0 <= i < |Now().pfiles|
        ensures Now().pfiles[i].at < dict.topd && AllBelow(Now().pfiles[i].items, dict.topd)
      {
        assert dict.pfv.pfiles[i] in dict.pfv.pfiles;
      }
    }

    lemma NewTaskOrderly()
      requires Inv()
      ensures newtask.Some? ==> Current(Now()).mark.Some?
      ensures newtask.Some? && newtask.value.Fake? ==> newtask.value.pfile >= Current(Now()).mark.value
    {
    }

    /** A directive like "task", "package" or "cache" from beginning to end: with keep it is as good as
        defining the same at the place where it is called, without keep it changes nothing. */
    method Directive(size: nat, arguments: seq<Step>, definitions: seq<Step>, keepIt: bool)
      requires Inv() && AllSucceed(Now(), TaskLaws.Directive(size, arguments, definitions, keepIt))
      requires forall i :: 0 <= i < |arguments| ==> IsArgument(arguments[i])
      requires forall i :: 0 <= i < |definitions| ==> IsDefinition(definitions[i])
      modifies this, dict
      ensures Inv() && old(tasks) != []
      ensures Now() == KeptCurrent(if keepIt then RunOf(old(Now()), definitions) else old(Now()))
    {
      hide Inv, Now, Tidy, AllSucceed, RunOf;
      Lawful();
      Guards();
      DirectiveLaw(Now(), size, arguments, definitions, keepIt);
      Run(TaskLaws.Directive(size, arguments, definitions, keepIt));
    }

    /** A task is called, anything happens, and the task returns: unless its caller has been kept, the
        dictionary is what it was before the call. */
    method CallAndReturn(call: Step, body: seq<Step>)
      requires Inv() && IsCall(call) && Enabled(Now(), call) && Attempt(Now(), call).ok
      requires HoldsThroughout(Next(Now(), call), body, |tasks| - 1, dict.topd)
      requires var x := RunOf(Next(Now(), call), body); x.newtask == None && |x.tasks| == |tasks| + 1
      modifies this, dict
      ensures Inv() && |tasks| == |old(tasks)| && dict.topd == old(dict.topd)
      ensures Now().packages == old(Now().packages) && Now().pfiles == old(Now().pfiles)
    {
      hide Inv, Now, Tidy, Orderly, Enabled, Attempt, HoldsThroughout, RunOf, Next;
      Lawful();
      Guards();
      CallLaw(Now(), call, body);
      Take(call);
      Run(body);
      Take(End);
    }

    /** A builtin one of whose arguments makes a pfile be loaded starts with a dangling list: the new task's
        own pfile is still linked in, above the top. That happens whenever there is memory for both files. */
    method BuiltinWithLoadingArgument(size: nat, file: FileSize) returns (ok: bool)
      requires Inv() && newtask == None && size > 0 && Positive(file)
      modifies this, dict
      ensures old(tasks) != []
      ensures var called := Called(old(Now()), size);
              var loaded := LoadFile(called.s, file);
              && (ok <==> called.ok && loaded.ok)
              && (ok ==> loaded.s.pfiles != [] && loaded.s.tasks != [] && Current(loaded.s).mark.Some?
                         && Now() == StartedBuiltin(loaded.s))
      ensures ok <==> !dict.Tight(dict.topd)
    {
      Guards();
      ok := Call(size);
      if ok {
        ghost var top := dict.topd;
        ok := Load(file);
        assert ok ==> dict.pf.head >= top;
      }
      if ok {
        ExecBuiltin();
      }
    }
  }
}
