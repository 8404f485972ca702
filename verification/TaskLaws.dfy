/** What follows for whole runs of the task machine: what lies below a saved mark never changes, so that a
    task which is not kept leaves nothing behind; and what a builtin that is kept leaves behind is exactly
    what it has defined. */
module TaskLaws {
  import opened Chains
  import opened Options
  import opened Dictionary
  import opened TaskSpec

  // ---- Cutting chains.

  /** Everything on the chains lies below top. */
  ghost predicate Tight(chains: seq<Chain>, top: int) {
    forall i :: 0 <= i < |chains| ==> chains[i].at < top && AllBelow(chains[i].items, top)
  }

  lemma {:induction false} CutTight(chains: seq<Chain>, top: int)
    requires Tight(chains, top)
    ensures Cut(chains, top) == chains
    decreases |chains|
  {
    if chains != [] {
      assert chains[0] == Chain(chains[0].at, chains[0].items);
      BelowAll(chains[0].items, top);
      CutTight(chains[1..], top);
    }
  }

  lemma CutPush(chains: seq<Chain>, a: int, top: int)
    requires a >= top
    ensures Cut(Push(chains, a), top) == Cut(chains, top)
  {
    assert Push(chains, a)[1..] == chains;
  }

  lemma {:induction false} BelowAppend(s: seq<int>, a: int, top: int)
    requires a >= top
    ensures Below(s + [a], top) == Below(s, top)
    decreases |s|
  {
    if s != [] {
      assert (s + [a])[1..] == s[1..] + [a];
      BelowAppend(s[1..], a, top);
    }
  }

  lemma {:induction false} CutAddFirst(chains: seq<Chain>, at: int, a: int, top: int)
    requires a >= top
    ensures Cut(AddFirst(chains, at, a), top) == Cut(chains, top)
    decreases |chains|
  {
    if chains != [] {
      CutAddFirst(chains[1..], at, a, top);
      assert AddFirst(chains, at, a)[1..] == AddFirst(chains[1..], at, a);
      assert ([a] + chains[0].items)[1..] == chains[0].items;
    }
  }

  lemma {:induction false} CutAddLast(chains: seq<Chain>, at: int, a: int, top: int)
    requires a >= top
    ensures Cut(AddLast(chains, at, a), top) == Cut(chains, top)
    decreases |chains|
  {
    if chains != [] {
      CutAddLast(chains[1..], at, a, top);
      assert AddLast(chains, at, a)[1..] == AddLast(chains[1..], at, a);
      BelowAppend(chains[0].items, a, top);
    }
  }

  lemma {:induction false} CutTwice(chains: seq<Chain>, top: int, mark: int)
    requires mark <= top
    ensures Cut(Cut(chains, top), mark) == Cut(chains, mark)
    decreases |chains|
  {
    if chains != [] {
      CutTwice(chains[1..], top, mark);
      if chains[0].at < top {
        var first := Chain(chains[0].at, Below(chains[0].items, top));
        assert Cut(chains, top)[0] == first && Cut(chains, top)[1..] == Cut(chains[1..], top);
        BelowBelow(chains[0].items, top, mark);
      } else {
        assert Cut(chains, top) == Cut(chains[1..], top);
      }
    }
  }

  lemma StaysTight(chains: seq<Chain>, top: int, top': int)
    requires Tight(chains, top) && top <= top'
    ensures Tight(chains, top')
  {
  }

  // ---- What lies below a mark never changes.

  /** The dictionary of s', as far as it lies below the mark, is that of s. */
  predicate SameBelow(s: State, s': State, mark: int) {
    Cut(s'.packages, mark) == Cut(s.packages, mark) && Cut(s'.pfiles, mark) == Cut(s.pfiles, mark)
  }

  /** The order of the marks, and what may be unlinked lies above the current one. */
  ghost predicate Orderly(s: State) {
    && s.tasks != []
    && s.tasks[0].interactive
    && (forall i :: 0 <= i < |s.tasks| && s.tasks[i].interactive ==> s.tasks[i].mark.Some?)
    && (forall i :: 0 <= i < |s.tasks| - 1 ==> s.tasks[i].mark.Some?)
    && (forall i, j :: 0 <= i < j < |s.tasks| && s.tasks[i].mark.Some? && s.tasks[j].mark.Some? ==>
         s.tasks[i].mark.value <= s.tasks[j].mark.value)
    && (forall i :: 0 <= i < |s.tasks| && s.tasks[i].mark.Some? ==> s.tasks[i].mark.value <= s.top)
    && (s.newtask.Some? ==> Current(s).mark.Some?
                            && (s.newtask.value.Fake? ==> s.newtask.value.pfile >= Current(s).mark.value))
  }

  /** Additions lie at the top. */
  lemma {:induction false} ParamsAbove(s: State, pfile: int, sizes: seq<nat>, mark: int)
    requires mark <= s.top
    ensures var s' := NewParams(s, pfile, sizes).s;
            s'.top >= s.top && SameBelow(s, s', mark) && s' == s.(top := s'.top, pfiles := s'.pfiles)
    decreases |sizes|
  {
    hide Cut, AddLast;
    if sizes != [] {
      CutAddLast(s.pfiles, pfile, s.top, mark);
      ParamsAbove(NewParam(s, pfile, sizes[0]).s, pfile, sizes[1..], mark);
    }
  }

  lemma FileAbove(s: State, file: FileSize, mark: int)
    requires mark <= s.top
    ensures var s' := LoadFile(s, file).s;
            s'.top >= s.top && SameBelow(s, s', mark) && s' == s.(top := s'.top, pfiles := s'.pfiles)
  {
    hide Cut;
    CutPush(s.pfiles, s.top, mark);
    ParamsAbove(NewFile(s, file.head).s, s.top, file.params, mark);
  }

  lemma {:induction false} FilesAbove(s: State, files: seq<FileSize>, mark: int)
    requires mark <= s.top
    ensures var s' := LoadFiles(s, files).s;
            s'.top >= s.top && SameBelow(s, s', mark) && s' == s.(top := s'.top, pfiles := s'.pfiles)
    decreases |files|
  {
    hide Cut, LoadFile;
    if files != [] {
      FileAbove(s, files[0], mark);
      FilesAbove(LoadFile(s, files[0]).s, files[1..], mark);
    }
  }

  /** Task i is on the stack and has the mark. */
  predicate Holds(s: State, i: nat, mark: nat) {
    i < |s.tasks| && s.tasks[i].mark == Some(mark)
  }

  lemma RestoredAbove(s: State, i: nat, mark: nat)
    requires Orderly(s) && Holds(s, i, mark) && Current(s).mark.Some?
    ensures Restored(s).top == Current(s).mark.value && SameBelow(s, Restored(s), mark)
    ensures s.newtask == None ==> Orderly(Restored(s))
  {
    hide Cut;
    CutTwice(s.packages, Current(s).mark.value, mark);
    CutTwice(s.pfiles, Current(s).mark.value, mark);
  }

  lemma UnwoundAbove(s: State, i: nat, mark: nat)
    requires Orderly(s) && Holds(s, i, mark) && Holds(Unwound(s), i, mark)
    ensures SameBelow(s, Unwound(s), mark) && Orderly(Unwound(s))
  {
    var popped := s.(tasks := UpToInteractive(s.tasks), newtask := None);
    InteractiveLast(s.tasks);
    PrefixOrderly(s, |popped.tasks|);
    RestoredAbove(popped, i, mark);
  }

  lemma {:induction false} InteractiveLast(tasks: seq<Task>)
    requires tasks != [] && tasks[0].interactive
    ensures var r := UpToInteractive(tasks); r[|r| - 1].interactive && r == tasks[..|r|]
    decreases |tasks|
  {
    if |tasks| > 1 && !tasks[|tasks| - 1].interactive {
      InteractiveLast(tasks[..|tasks| - 1]);
    }
  }

  lemma PrefixOrderly(s: State, n: nat)
    requires Orderly(s) && 1 <= n <= |s.tasks|
    ensures Orderly(s.(tasks := s.tasks[..n], newtask := None))
  {
  }

  lemma OrderlyMore(s: State, s': State)
    requires Orderly(s) && s'.tasks == s.tasks && s'.newtask == s.newtask && s'.top >= s.top
    ensures Orderly(s')
  {
  }

  lemma KeptOrderly(s: State)
    requires Orderly(s) && s.newtask == None
    ensures Orderly(KeptCurrent(s)) && Current(KeptCurrent(s)).mark == Some(s.top)
    ensures KeptCurrent(s) == s.(tasks := KeptCurrent(s).tasks)
  {
  }

  lemma StartedOrderly(s: State, t: Task)
    requires Orderly(s) && Current(s).mark.Some?
    requires if t.mark == None then !t.interactive else AboveAll(s, t.mark.value)
    ensures Orderly(Started(s, t))
  {
  }

  /** A mark that may come next on the stack. */
  ghost predicate AboveAll(s: State, mark: nat) {
    mark <= s.top && forall i :: 0 <= i < |s.tasks| && s.tasks[i].mark.Some? ==> s.tasks[i].mark.value <= mark
  }

  lemma TopAboveAll(s: State, s': State)
    requires Orderly(s) && s'.tasks == s.tasks && s'.top >= s.top
    ensures AboveAll(s', s.top)
  {
  }

  lemma SameBelowAfter(s: State, s': State, s'': State, mark: int)
    requires SameBelow(s, s', mark) && SameBelow(s', s'', mark)
    ensures SameBelow(s, s'', mark)
  {
  }

  /** What the steps that only add to the dictionary leave as it is. */
  lemma AdditionAbove(s: State, step: Step, i: nat, mark: nat)
    requires Orderly(s) && Holds(s, i, mark) && Enabled(s, step)
    requires step.Text? || step.Load? || step.Package? || step.Ltask? || step.Argument?
    ensures var s' := Attempt(s, step).s;
            SameBelow(s, s', mark) && Orderly(s') && s'.tasks == s.tasks && s'.top >= s.top
  {
    hide Cut, Push, AddFirst, AddLast, LoadFile, Orderly;
    MarkBelowTop(s, i, mark);
    match step {
      case Text(_) =>
      case Load(file) => FileAbove(s, file, mark);
      case Package(_) => CutPush(s.packages, s.top, mark);
      case Ltask(package, _) => CutAddFirst(s.packages, package, s.top, mark);
      case Argument(_) =>
        if s.newtask.value.Fake? { CutAddLast(s.pfiles, s.newtask.value.pfile, s.top, mark); }
      case _ =>
    }
    OrderlyMore(s, Attempt(s, step).s);
  }

  lemma MarkBelowTop(s: State, i: nat, mark: nat)
    requires Orderly(s) && Holds(s, i, mark)
    ensures mark <= s.top
  {
  }

  /** Steps that call a task. */
  lemma CallAbove(s: State, step: Step, i: nat, mark: nat)
    requires Orderly(s) && Holds(s, i, mark) && Enabled(s, step)
    requires step.Turn? || step.Prepare? || step.PrepareWithFile? || step.PrepareCl?
    ensures var s' := Attempt(s, step).s; SameBelow(s, s', mark) && Orderly(s')
  {
    hide Cut, Push, LoadFiles, Orderly;
    MarkBelowTop(s, i, mark);
    var marked := KeptCurrent(s);
    KeptOrderly(s);
    match step {
      case Turn(consts, files) =>
        FilesAbove(NewMemory(marked, consts).s, files, mark);
        if Attempt(s, step).ok { OrderlyMore(marked, marked); } else { OrderlyMore(marked, Attempt(s, step).s); }
      case Prepare(size) =>
        CutPush(s.pfiles, s.top, mark);
        OrderlyMore(marked, NewFile(marked, size).s);
        OrderlyCalled(NewFile(marked, size).s, Fake(s.top));
      case PrepareWithFile(files, which) =>
        FilesAbove(marked, files, mark);
        var o := LoadFiles(marked, files);
        OrderlyMore(marked, o.s);
        if o.ok && which < |o.s.pfiles| { OrderlyCalled(o.s, Real(o.s.pfiles[which].at)); }
      case PrepareCl => OrderlyCalled(marked, Cl);
      case _ =>
    }
  }

  lemma OrderlyCalled(s: State, t: NewTask)
    requires Orderly(s) && Current(s).mark.Some? && (t.Fake? ==> t.pfile >= Current(s).mark.value)
    ensures Orderly(s.(newtask := Some(t)))
  {
  }

  /** Steps that start a task. */
  lemma StartAbove(s: State, step: Step, i: nat, mark: nat)
    requires Orderly(s) && Holds(s, i, mark) && Enabled(s, step)
    requires step.StartBuiltin? || step.StartTask? || step.StartCl?
    requires Holds(Attempt(s, step).s, i, mark)
    ensures var s' := Attempt(s, step).s; SameBelow(s, s', mark) && Orderly(s')
  {
    hide Cut, NewParams, Orderly;
    MarkBelowTop(s, i, mark);
    NewTaskCalled(s, i, mark);
    match step {
      case StartBuiltin =>
        assert s.pfiles == [s.pfiles[0]] + s.pfiles[1..];
        CutHead(s.pfiles, mark);
        BackToMark(s, s.pfiles[1..]);
        StartedOrderly(s.(top := Current(s).mark.value, pfiles := s.pfiles[1..]),
                       Task(None, Current(s).input, false, None));
      case StartTask(params, input) =>
        var pfile := s.newtask.value.pfile;
        ParamsAbove(s, pfile, params, mark);
        OrderlyMore(s, NewParams(s, pfile, params).s);
        StartedOrderly(NewParams(s, pfile, params).s, Task(None, input, false, Some(pfile)));
      case StartCl(nargs, input, interactive, implicitKeep) =>
        ClAbove(s, nargs, input, interactive, implicitKeep, mark);
      case _ =>
    }
  }

  lemma ClAbove(s: State, nargs: Option<nat>, input: int, interactive: bool, implicitKeep: bool, mark: nat)
    requires Orderly(s) && s.newtask == Some(Cl) && mark <= s.top
    requires implicitKeep ==> |s.tasks| >= 2 && Current(s).mark == Some(s.top)
    ensures var s' := StartedCl(s, nargs, input, interactive, implicitKeep).s; SameBelow(s, s', mark) && Orderly(s')
  {
    hide Cut, NewParam, Orderly, AboveAll, Kept, SameBelow;
    ClCaller(s);
    var kept := if implicitKeep then Kept(s, |s.tasks| - 2) else s;
    KeptOnly(s, implicitKeep);
    if implicitKeep { KeptBeforeLast(s); }
    var file := s.tasks[0].pfile;
    var o := if nargs.Some? && file.Some? then NewParam(kept, file.value, nargs.value) else Outcome(true, kept);
    if nargs.Some? && file.Some? {
      ParamOrderly(s, kept, file.value, nargs.value, mark);
    } else {
      SameAsBefore(s, kept, mark);
    }
    if o.ok {
      TopAboveAll(kept, o.s);
      StartedOrderly(o.s, Task(if interactive then Some(s.top) else None, input, interactive, file));
      StartedBelow(s, o.s, Task(if interactive then Some(s.top) else None, input, interactive, file), mark);
    }
  }

  lemma KeptOnly(s: State, implicitKeep: bool)
    requires s.tasks != [] && (implicitKeep ==> |s.tasks| >= 2)
    ensures var kept := if implicitKeep then Kept(s, |s.tasks| - 2) else s; kept == s.(tasks := kept.tasks)
  {
  }

  /** "$nargs" goes into the first task's pfile. */
  lemma ParamOrderly(s: State, kept: State, pfile: int, size: nat, mark: nat)
    requires Orderly(kept) && kept == s.(tasks := kept.tasks) && mark <= s.top
    ensures var s' := NewParam(kept, pfile, size).s;
            && SameBelow(s, s', mark) && Orderly(s') && s'.top >= s.top
            && s'.tasks == kept.tasks && s'.newtask == kept.newtask
  {
    hide Cut, AddLast, Orderly;
    CutAddLast(s.pfiles, pfile, s.top, mark);
    OrderlyMore(kept, NewParam(kept, pfile, size).s);
  }

  lemma SameAsBefore(s: State, kept: State, mark: int)
    requires kept == s.(tasks := kept.tasks)
    ensures SameBelow(s, kept, mark)
  {
  }

  lemma StartedBelow(s: State, s': State, t: Task, mark: int)
    requires SameBelow(s, s', mark)
    ensures SameBelow(s, Started(s', t), mark)
  {
  }

  lemma ClCaller(s: State)
    requires Orderly(s) && s.newtask.Some?
    ensures s.tasks != [] && Current(s).mark.Some?
  {
  }

  lemma NewTaskCalled(s: State, i: nat, mark: nat)
    requires Orderly(s) && s.newtask.Some? && Holds(s, i, mark)
    ensures Current(s).mark.Some? && mark <= Current(s).mark.value
    ensures s.newtask.value.Fake? ==> s.newtask.value.pfile >= mark
  {
  }

  lemma CutHead(chains: seq<Chain>, mark: int)
    requires chains != [] && chains[0].at >= mark
    ensures Cut(chains[1..], mark) == Cut(chains, mark)
  {
  }

  lemma BackToMark(s: State, pfiles: seq<Chain>)
    requires Orderly(s) && Current(s).mark.Some?
    ensures Orderly(s.(top := Current(s).mark.value, pfiles := pfiles))
  {
  }

  lemma KeptBeforeLast(s: State)
    requires Orderly(s) && |s.tasks| >= 2 && (Current(s).mark == None || Current(s).mark == Some(s.top))
    ensures Orderly(Kept(s, |s.tasks| - 2)) && Current(Kept(s, |s.tasks| - 2)) == Current(s)
  {
  }

  /** Steps that keep something, or end a task. */
  lemma EndAbove(s: State, step: Step, i: nat, mark: nat)
    requires Orderly(s) && Holds(s, i, mark) && Enabled(s, step)
    requires step.KeepCaller? || step.KeepAll? || step.End? || step.Error?
    requires Holds(Attempt(s, step).s, i, mark)
    ensures var s' := Attempt(s, step).s; SameBelow(s, s', mark) && Orderly(s')
  {
    hide Cut, Orderly;
    match step {
      case KeepCaller => KeptBeforeLast(s);
      case KeepAll => KeptAllOrderly(s);
      case End =>
        var popped := if |s.tasks| == 1 then s.(alldone := true) else s.(tasks := s.tasks[..|s.tasks| - 1]);
        PoppedOrderly(s);
        RestoredAbove(popped, i, mark);
      case Error => UnwoundAbove(s, i, mark);
      case _ =>
    }
  }

  lemma PoppedOrderly(s: State)
    requires Orderly(s) && s.newtask == None
    ensures var popped := if |s.tasks| == 1 then s.(alldone := true) else s.(tasks := s.tasks[..|s.tasks| - 1]);
            Orderly(popped) && Current(popped).mark.Some?
  {
  }

  lemma KeptAllOrderly(s: State)
    requires Orderly(s) && Enabled(s, KeepAll)
    ensures Orderly(KeptAll(s)) && KeptAll(s) == s.(tasks := KeptAll(s).tasks)
  {
    var p := |s.tasks| - 2;
    if p > 0 {
      var from :=
        if s.tasks[p].input == s.tasks[0].input then p - 1 else FirstReader(s.tasks, s.tasks[p].input, 1, p) - 1;
      KeptFromOrderly(s, from, p);
    }
  }

  lemma KeptFromOrderly(s: State, from: nat, p: nat)
    requires Orderly(s) && s.newtask == None && from <= p && p == |s.tasks| - 2
    requires Current(s).mark == None && s.tasks[p].mark == Some(s.top)
    ensures Orderly(s.(tasks := KeptFrom(s.tasks, from, p, s.top)))
  {
  }

  lemma DeclareAbove(s: State, size: nat, i: nat, mark: nat)
    requires Orderly(s) && Holds(s, i, mark) && Enabled(s, Declare(size))
    ensures var s' := Attempt(s, Declare(size)).s; SameBelow(s, s', mark) && Orderly(s')
  {
    hide Cut, AddLast, Orderly;
    MarkBelowTop(s, i, mark);
    CutAddLast(s.pfiles, Current(s).pfile.value, s.top, mark);
    var o := NewParam(s, Current(s).pfile.value, size);
    OrderlyMore(s, o.s);
    if o.ok { KeptOrderly(o.s); }
  }

  /** No step changes what lies below a mark that it leaves in place. */
  lemma NextAbove(s: State, step: Step, i: nat, mark: nat)
    requires Orderly(s) && Holds(s, i, mark) && Holds(Next(s, step), i, mark)
    ensures SameBelow(s, Next(s, step), mark) && Orderly(Next(s, step))
  {
    hide Cut, Orderly, Attempt, Enabled;
    if Enabled(s, step) {
      var o := Attempt(s, step);
      if !o.ok { UnwoundHolds(o.s, i, mark); }
      match step {
        case Text(_) | Load(_) | Package(_) | Ltask(_, _) | Argument(_) => AdditionAbove(s, step, i, mark);
        case Turn(_, _) | Prepare(_) | PrepareWithFile(_, _) | PrepareCl => CallAbove(s, step, i, mark);
        case StartBuiltin | StartTask(_, _) | StartCl(_, _, _, _) => StartAbove(s, step, i, mark);
        case KeepCaller | KeepAll | End | Error => EndAbove(s, step, i, mark);
        case Declare(size) => DeclareAbove(s, size, i, mark);
      }
      if !o.ok {
        UnwoundAbove(o.s, i, mark);
        SameBelowAfter(s, o.s, Unwound(o.s), mark);
      }
    }
  }

  lemma UnwoundHolds(s: State, i: nat, mark: nat)
    requires s.tasks != [] && Holds(Unwound(s), i, mark)
    ensures Holds(s, i, mark)
  {
  }

  /** Task i has the mark before every step of the run and after it. */
  predicate HoldsThroughout(s: State, steps: seq<Step>, i: nat, mark: nat)
    requires s.tasks != []
    decreases |steps|
  {
    Holds(s, i, mark) && (steps != [] ==> HoldsThroughout(Next(s, steps[0]), steps[1..], i, mark))
  }

  /** As long as a task is on the stack with its mark, what lies below that mark does not change. */
  lemma {:induction false} RunAbove(s: State, steps: seq<Step>, i: nat, mark: nat)
    requires Orderly(s) && HoldsThroughout(s, steps, i, mark)
    ensures SameBelow(s, RunOf(s, steps), mark) && Orderly(RunOf(s, steps))
    decreases |steps|
  {
    assert s.tasks != [];
    hide Cut, Orderly, Next, Holds;
    if steps != [] {
      NextAbove(s, steps[0], i, mark);
      RunAbove(Next(s, steps[0]), steps[1..], i, mark);
      SameBelowAfter(s, Next(s, steps[0]), RunOf(s, steps), mark);
    }
  }

  ghost predicate Tidy(s: State) {
    Tight(s.packages, s.top) && Tight(s.pfiles, s.top)
  }

  predicate IsCall(step: Step) {
    step.Prepare? || step.PrepareWithFile? || step.PrepareCl?
  }

  lemma MarkedBefore(s: State, call: Step)
    requires Orderly(s) && IsCall(call) && Enabled(s, call) && Attempt(s, call).ok
    ensures var n := |s.tasks| - 1;
            && Next(s, call) == Attempt(KeptCurrent(s), call).s
            && Enabled(KeptCurrent(s), call)
            && Holds(KeptCurrent(s), n, s.top) && Holds(Next(s, call), n, s.top)
  {
    assert KeptCurrent(KeptCurrent(s)).tasks == KeptCurrent(s).tasks;
    if call.PrepareWithFile? { FilesKeepTasks(KeptCurrent(s), call.files); }
  }

  /** A task is called, anything happens, and the task returns: unless its caller has been kept, the
      dictionary is exactly what it was before the call. */
  lemma CallLaw(s: State, call: Step, body: seq<Step>)
    requires Orderly(s) && Tidy(s)
    requires IsCall(call) && Enabled(s, call) && Attempt(s, call).ok
    requires HoldsThroughout(Next(s, call), body, |s.tasks| - 1, s.top)
    requires var x := RunOf(Next(s, call), body); x.newtask == None && |x.tasks| == |s.tasks| + 1
    ensures var e := Next(RunOf(Next(s, call), body), End);
            && e.packages == s.packages && e.pfiles == s.pfiles && e.top == s.top
            && e.newtask == None && |e.tasks| == |s.tasks| && Current(e).mark == Some(s.top)
  {
    var n, marked, x := |s.tasks| - 1, KeptCurrent(s), RunOf(Next(s, call), body);
    CutTight(s.packages, s.top);
    CutTight(s.pfiles, s.top);
    CallIdle(s, call);
    hide Cut, Attempt, Enabled, HoldsThroughout, Next, Orderly, Tight, Holds, RunOf;
    MarkedBefore(s, call);
    KeptOrderly(s);
    CallAbove(marked, call, n, s.top);
    RunAbove(Next(s, call), body, n, s.top);
    RunHolds(Next(s, call), body, n, s.top);
    EndsAt(x, n, s.top);
  }

  lemma CallIdle(s: State, call: Step)
    requires s.tasks != [] && IsCall(call) && Enabled(s, call)
    ensures s.newtask == None
  {
  }

  /** The return to task n. */
  lemma EndsAt(x: State, n: nat, mark: nat)
    requires x.newtask == None && |x.tasks| == n + 2 && Holds(x, n, mark)
    ensures var e := Next(x, End);
            && e.packages == Cut(x.packages, mark) && e.pfiles == Cut(x.pfiles, mark) && e.top == mark
            && e == x.(tasks := x.tasks[..n + 1], top := mark, packages := e.packages, pfiles := e.pfiles)
            && Current(e).mark == Some(mark)
  {
  }

  lemma {:induction false} RunHolds(s: State, steps: seq<Step>, i: nat, mark: nat)
    requires s.tasks != [] && HoldsThroughout(s, steps, i, mark)
    ensures Holds(RunOf(s, steps), i, mark)
    decreases |steps|
  {
    hide Next, Holds;
    if steps != [] { RunHolds(Next(s, steps[0]), steps[1..], i, mark); }
  }

  // ---- Builtins that define something.

  predicate Succeeds(s: State, step: Step)
    requires s.tasks != []
  {
    Enabled(s, step) && Attempt(s, step).ok
  }

  /** Every step of the run can be taken, and none fails. */
  predicate AllSucceed(s: State, steps: seq<Step>)
    requires s.tasks != []
    decreases |steps|
  {
    steps != [] ==> Succeeds(s, steps[0]) && AllSucceed(Next(s, steps[0]), steps[1..])
  }

  lemma {:induction false} RunJoin(s: State, a: seq<Step>, b: seq<Step>)
    requires s.tasks != []
    ensures RunOf(s, a + b) == RunOf(RunOf(s, a), b)
    ensures AllSucceed(s, a + b) <==> AllSucceed(s, a) && AllSucceed(RunOf(s, a), b)
    decreases |a|
  {
    hide Next, Succeeds;
    if a == [] {
      assert a + b == b;
    } else {
      assert (a + b)[1..] == a[1..] + b;
      RunJoin(Next(s, a[0]), a[1..], b);
    }
  }

  predicate IsArgument(step: Step) {
    step.Argument? || step.Text?
  }

  predicate IsDefinition(step: Step) {
    step.Package? || step.Ltask? || step.Load? || step.Text?
  }

  /** The run of a builtin like "task", "package" or "cache": it is called, gets any number of arguments,
      makes any number of definitions, which it may keep for its caller, and returns. */
  function Directive(size: nat, arguments: seq<Step>, definitions: seq<Step>, keepIt: bool): seq<Step> {
    [Prepare(size)] + (arguments + ([StartBuiltin] + (definitions + ((if keepIt then [KeepCaller] else []) + [End]))))
  }

  /** Arguments only go into the new task's own pfile, the newest one. */
  lemma {:induction false} ArgumentsOnly(s: State, own: int, arguments: seq<Step>)
    requires s.tasks != [] && s.newtask == Some(Fake(own)) && s.pfiles != [] && s.pfiles[0].at == own
    requires forall i :: 0 < i < |s.pfiles| ==> s.pfiles[i].at != own
    requires AllSucceed(s, arguments) && forall i :: 0 <= i < |arguments| ==> IsArgument(arguments[i])
    ensures var s' := RunOf(s, arguments);
            && s' == s.(top := s'.top, pfiles := s'.pfiles)
            && s'.pfiles != [] && s'.pfiles[0].at == own && s'.pfiles[1..] == s.pfiles[1..]
    decreases |arguments|
  {
    if arguments != [] {
      var s1 := Next(s, arguments[0]);
      assert IsArgument(arguments[0]);
      OneArgument(s, own, arguments[0]);
      hide Next, Succeeds;
      assert forall i :: 0 < i < |s1.pfiles| ==> s1.pfiles[i] == s1.pfiles[1..][i - 1];
      assert forall i :: 0 < i < |s.pfiles| ==> s.pfiles[i] == s.pfiles[1..][i - 1];
      ArgumentsOnly(s1, own, arguments[1..]);
    }
  }

  lemma OneArgument(s: State, own: int, step: Step)
    requires s.tasks != [] && s.newtask == Some(Fake(own)) && s.pfiles != [] && s.pfiles[0].at == own
    requires forall i :: 0 < i < |s.pfiles| ==> s.pfiles[i].at != own
    requires Succeeds(s, step) && IsArgument(step)
    ensures var s' := Next(s, step);
            && s' == s.(top := s'.top, pfiles := s'.pfiles)
            && s'.pfiles != [] && s'.pfiles[0].at == own && s'.pfiles[1..] == s.pfiles[1..]
  {
  }

  /** Nothing but the dictionary has changed. */
  predicate OnlyDictionary(s: State, s': State) {
    s' == s.(top := s'.top, packages := s'.packages, pfiles := s'.pfiles)
  }

  /** Definitions do not look at the tasks. */
  lemma {:induction false} ParamsForget(s: State, tasks: seq<Task>, pfile: int, sizes: seq<nat>)
    ensures var o := NewParams(s, pfile, sizes);
            NewParams(s.(tasks := tasks), pfile, sizes) == Outcome(o.ok, o.s.(tasks := tasks))
    decreases |sizes|
  {
    if sizes != [] { ParamsForget(NewParam(s, pfile, sizes[0]).s, tasks, pfile, sizes[1..]); }
  }

  /** A step goes the same with other tasks, and does nothing to them. */
  predicate Forgets(s: State, tasks: seq<Task>, step: Step)
    requires s.tasks != [] && tasks != []
  {
    && (Enabled(s.(tasks := tasks), step) <==> Enabled(s, step))
    && (Enabled(s, step) ==>
          var o, o' := Attempt(s, step), Attempt(s.(tasks := tasks), step);
          o' == Outcome(o.ok, o.s.(tasks := tasks)) && OnlyDictionary(s, o.s))
  }

  lemma TextForgets(s: State, tasks: seq<Task>, size: nat)
    requires s.tasks != [] && tasks != []
    ensures Forgets(s, tasks, Text(size))
  {
  }

  lemma PackageForgets(s: State, tasks: seq<Task>, size: nat)
    requires s.tasks != [] && tasks != []
    ensures Forgets(s, tasks, Package(size))
  {
    hide Push;
  }

  lemma LtaskForgets(s: State, tasks: seq<Task>, package: int, size: nat)
    requires s.tasks != [] && tasks != []
    ensures Forgets(s, tasks, Ltask(package, size))
  {
    hide AddFirst;
  }

  lemma LoadForgets(s: State, tasks: seq<Task>, file: FileSize)
    requires s.tasks != [] && tasks != []
    ensures Forgets(s, tasks, Load(file))
  {
    hide NewParams, AddLast, AddFirst, Push, Cut;
    ParamsForget(NewFile(s, file.head).s, tasks, s.top, file.params);
    ParamsOnly(NewFile(s, file.head).s, s.top, file.params);
  }

  lemma {:induction false} ParamsOnly(s: State, pfile: int, sizes: seq<nat>)
    ensures OnlyDictionary(s, NewParams(s, pfile, sizes).s)
    decreases |sizes|
  {
    hide AddLast;
    if sizes != [] { ParamsOnly(NewParam(s, pfile, sizes[0]).s, pfile, sizes[1..]); }
  }

  lemma OneDefinition(s: State, tasks: seq<Task>, step: Step)
    requires s.tasks != [] && tasks != [] && s.newtask == None && IsDefinition(step)
    ensures Succeeds(s.(tasks := tasks), step) <==> Succeeds(s, step)
    ensures Succeeds(s, step) ==>
              && Next(s.(tasks := tasks), step) == Next(s, step).(tasks := tasks)
              && OnlyDictionary(s, Next(s, step))
  {
    hide Enabled, Attempt;
    match step {
      case Text(size) => TextForgets(s, tasks, size);
      case Package(size) => PackageForgets(s, tasks, size);
      case Ltask(package, size) => LtaskForgets(s, tasks, package, size);
      case Load(file) => LoadForgets(s, tasks, file);
    }
  }

  lemma {:induction false} DefinitionsForget(s: State, tasks: seq<Task>, definitions: seq<Step>)
    requires s.tasks != [] && tasks != [] && s.newtask == None
    requires forall i :: 0 <= i < |definitions| ==> IsDefinition(definitions[i])
    ensures AllSucceed(s.(tasks := tasks), definitions) <==> AllSucceed(s, definitions)
    ensures AllSucceed(s, definitions) ==>
              && RunOf(s.(tasks := tasks), definitions) == RunOf(s, definitions).(tasks := tasks)
              && OnlyDictionary(s, RunOf(s, definitions))
    decreases |definitions|
  {
    if definitions != [] {
      assert IsDefinition(definitions[0]);
      OneDefinition(s, tasks, definitions[0]);
      hide Next, Succeeds;
      if Succeeds(s, definitions[0]) {
        DefinitionsForget(Next(s, definitions[0]), tasks, definitions[1..]);
      }
    }
  }

  /** The dictionary after definitions, as far as it lies below the old top, is the old one. */
  lemma {:induction false} DefinitionsAbove(s: State, definitions: seq<Step>, mark: nat)
    requires s.tasks != [] && s.newtask == None && mark <= s.top && AllSucceed(s, definitions)
    requires forall i :: 0 <= i < |definitions| ==> IsDefinition(definitions[i])
    ensures var s' := RunOf(s, definitions); s'.top >= s.top && SameBelow(s, s', mark)
    decreases |definitions|
  {
    if definitions != [] {
      assert IsDefinition(definitions[0]);
      OneDefinition(s, s.tasks, definitions[0]);
      DefinitionAbove(s, definitions[0], mark);
      hide Next, Succeeds, Cut;
      DefinitionsAbove(Next(s, definitions[0]), definitions[1..], mark);
      SameBelowAfter(s, Next(s, definitions[0]), RunOf(s, definitions), mark);
    }
  }

  lemma DefinitionAbove(s: State, step: Step, mark: nat)
    requires s.tasks != [] && s.newtask == None && mark <= s.top && Succeeds(s, step) && IsDefinition(step)
    ensures var s' := Next(s, step); s'.top >= s.top && SameBelow(s, s', mark)
  {
    hide Cut, Push, AddFirst, AddLast, LoadFile;
    match step {
      case Text(_) =>
      case Load(file) => FileAbove(s, file, mark);
      case Package(_) => CutPush(s.packages, s.top, mark);
      case Ltask(package, _) => CutAddFirst(s.packages, package, s.top, mark);
      case _ =>
    }
  }

  /** A builtin has been called and got its arguments: when it starts, the dictionary is what it was. */
  lemma EnterLaw(s: State, size: nat, arguments: seq<Step>)
    requires s.tasks != [] && Tidy(s)
    requires AllSucceed(s, [Prepare(size)] + (arguments + [StartBuiltin]))
    requires forall i :: 0 <= i < |arguments| ==> IsArgument(arguments[i])
    ensures RunOf(s, [Prepare(size)] + (arguments + [StartBuiltin]))
         == s.(tasks := KeptCurrent(s).tasks + [Task(None, Current(s).input, false, None)])
  {
    var called := Next(s, Prepare(size));
    RunJoin(s, [Prepare(size)], arguments + [StartBuiltin]);
    RunJoin(called, arguments, [StartBuiltin]);
    OneStep(s, Prepare(size));
    CalledLaw(s, size);
    hide Next, Succeeds, Tight;
    ArgumentsOnly(called, s.top, arguments);
    var ready := RunOf(called, arguments);
    OneStep(ready, StartBuiltin);
    StartLaw(s, ready);
  }

  lemma OneStep(s: State, step: Step)
    requires s.tasks != []
    ensures RunOf(s, [step]) == Next(s, step) && (AllSucceed(s, [step]) <==> Succeeds(s, step))
  {
    assert [step][1..] == [];
  }

  lemma CalledLaw(s: State, size: nat)
    requires s.tasks != [] && Tidy(s) && Succeeds(s, Prepare(size))
    ensures var called := Next(s, Prepare(size));
            && called == s.(tasks := KeptCurrent(s).tasks, newtask := Some(Fake(s.top)), top := called.top,
                            pfiles := Push(s.pfiles, s.top))
            && s.newtask == None
    ensures forall i :: 0 < i < |Push(s.pfiles, s.top)| ==> Push(s.pfiles, s.top)[i].at != s.top
  {
    forall i | 0 < i < |Push(s.pfiles, s.top)| ensures Push(s.pfiles, s.top)[i].at != s.top {
      assert Push(s.pfiles, s.top)[i] == s.pfiles[i - 1];
    }
  }

  lemma StartLaw(s: State, ready: State)
    requires s.tasks != [] && s.newtask == None
    requires ready == s.(tasks := KeptCurrent(s).tasks, newtask := Some(Fake(s.top)), top := ready.top,
                         pfiles := ready.pfiles)
    requires ready.pfiles != [] && ready.pfiles[1..] == s.pfiles && Succeeds(ready, StartBuiltin)
    ensures Next(ready, StartBuiltin) == s.(tasks := KeptCurrent(s).tasks + [Task(None, Current(s).input, false, None)])
  {
  }

  /** What the end of a builtin leaves, which may keep what it has defined. */
  function Left(s: State, mark: nat): State
    requires |s.tasks| >= 2
  {
    s.(tasks := WithMark(s.tasks[..|s.tasks| - 1], |s.tasks| - 2, mark), top := mark,
       packages := Cut(s.packages, mark), pfiles := Cut(s.pfiles, mark))
  }

  lemma LeaveLaw(s: State, keepIt: bool)
    requires s.newtask == None && |s.tasks| >= 2 && Current(s).mark == None && s.tasks[|s.tasks| - 2].mark.Some?
    ensures RunOf(s, (if keepIt then [KeepCaller] else []) + [End])
         == Left(s, if keepIt then s.top else s.tasks[|s.tasks| - 2].mark.value)
  {
    if keepIt {
      KeepNext(s);
      LeaveKept(s);
      hide Next, Left, Kept, RunOf, AllSucceed, Succeeds;
      RunJoin(s, [KeepCaller], [End]);
      OneStep(s, KeepCaller);
      OneStep(Kept(s, |s.tasks| - 2), End);
    } else {
      LeaveUnkept(s);
      hide Next, Left, RunOf, AllSucceed, Succeeds;
      assert [] + [End] == [End];
      OneStep(s, End);
    }
  }

  lemma LeaveKept(s: State)
    requires s.newtask == None && |s.tasks| >= 2 && Current(s).mark == None
    ensures Next(Kept(s, |s.tasks| - 2), End) == Left(s, s.top)
  {
    hide Cut, Next;
    var n := |s.tasks| - 2;
    EndsAt(Kept(s, n), n, s.top);
    TaskTaken(s.tasks, n, s.top);
  }

  lemma TaskTaken(tasks: seq<Task>, n: nat, mark: nat)
    requires n < |tasks|
    ensures WithMark(tasks, n, mark)[..n + 1] == WithMark(tasks[..n + 1], n, mark)
  {
  }

  lemma LeaveUnkept(s: State)
    requires s.newtask == None && |s.tasks| >= 2 && Current(s).mark == None && s.tasks[|s.tasks| - 2].mark.Some?
    ensures Next(s, End) == Left(s, s.tasks[|s.tasks| - 2].mark.value)
  {
    hide Cut, Next;
    var n := |s.tasks| - 2;
    EndsAt(s, n, s.tasks[n].mark.value);
    assert s.tasks[..n + 1] == WithMark(s.tasks[..n + 1], n, s.tasks[n].mark.value);
  }

  lemma KeepNext(s: State)
    requires s.newtask == None && |s.tasks| >= 2 && Current(s).mark == None
    ensures Next(s, KeepCaller) == Kept(s, |s.tasks| - 2)
  {
  }

  /** Everything that is defined lies below the new top. */
  lemma {:induction false} ParamsTidy(s: State, pfile: int, sizes: seq<nat>)
    requires Tidy(s) && forall i :: 0 <= i < |sizes| ==> sizes[i] > 0
    ensures Tidy(NewParams(s, pfile, sizes).s)
    decreases |sizes|
  {
    if sizes != [] {
      StaysTight(s.packages, s.top, Rounded(s.top + sizes[0]));
      ParamsTidy(NewParam(s, pfile, sizes[0]).s, pfile, sizes[1..]);
    }
  }

  lemma DefinitionTidy(s: State, step: Step)
    requires s.tasks != [] && s.newtask == None && Tidy(s) && Succeeds(s, step) && IsDefinition(step)
    ensures Tidy(Next(s, step))
  {
    match step {
      case Load(file) => ParamsTidy(NewFile(s, file.head).s, s.top, file.params);
      case _ =>
    }
  }

  lemma {:induction false} DefinitionsTidy(s: State, definitions: seq<Step>)
    requires s.tasks != [] && s.newtask == None && Tidy(s) && AllSucceed(s, definitions)
    requires forall i :: 0 <= i < |definitions| ==> IsDefinition(definitions[i])
    ensures Tidy(RunOf(s, definitions))
    decreases |definitions|
  {
    if definitions != [] {
      assert IsDefinition(definitions[0]);
      OneDefinition(s, s.tasks, definitions[0]);
      DefinitionTidy(s, definitions[0]);
      hide Next, Succeeds, Tidy;
      DefinitionsTidy(Next(s, definitions[0]), definitions[1..]);
    }
  }

  /** A directive that keeps its definitions is as good as making them at the place where it is called; one
      that does not leaves nothing behind. Its arguments never do. */
  lemma DirectiveLaw(s: State, size: nat, arguments: seq<Step>, definitions: seq<Step>, keepIt: bool)
    requires s.tasks != [] && Tidy(s)
    requires AllSucceed(s, Directive(size, arguments, definitions, keepIt))
    requires forall i :: 0 <= i < |arguments| ==> IsArgument(arguments[i])
    requires forall i :: 0 <= i < |definitions| ==> IsDefinition(definitions[i])
    ensures RunOf(s, Directive(size, arguments, definitions, keepIt))
         == KeptCurrent(if keepIt then RunOf(s, definitions) else s)
  {
    hide RunOf, AllSucceed, Tidy, Directive, SameBelow, OnlyDictionary, Cut, KeptCurrent;
    var enter, leave := [Prepare(size)] + (arguments + [StartBuiltin]), (if keepIt then [KeepCaller] else []) + [End];
    DirectiveParts(size, arguments, definitions, keepIt);
    RunJoin(s, enter, definitions + leave);
    EnterLaw(s, size, arguments);
    EnterIdle(s, size, arguments);
    var tasks := KeptCurrent(s).tasks + [Task(None, Current(s).input, false, None)];
    RunJoin(s.(tasks := tasks), definitions, leave);
    DefinitionsForget(s, tasks, definitions);
    DefinitionsAbove(s, definitions, s.top);
    DefinitionsTidy(s, definitions);
    DirectiveEnd(s, RunOf(s, definitions), tasks, keepIt);
  }

  lemma DirectiveParts(size: nat, arguments: seq<Step>, definitions: seq<Step>, keepIt: bool)
    ensures Directive(size, arguments, definitions, keepIt)
         == ([Prepare(size)] + (arguments + [StartBuiltin]))
            + (definitions + ((if keepIt then [KeepCaller] else []) + [End]))
  {
  }

  lemma EnterIdle(s: State, size: nat, arguments: seq<Step>)
    requires s.tasks != [] && AllSucceed(s, [Prepare(size)] + (arguments + [StartBuiltin]))
    ensures s.newtask == None
  {
    assert ([Prepare(size)] + (arguments + [StartBuiltin]))[0] == Prepare(size);
  }

  lemma DirectiveEnd(s: State, done: State, tasks: seq<Task>, keepIt: bool)
    requires s.tasks != [] && s.newtask == None && Tidy(s) && Tidy(done)
    requires SameBelow(s, done, s.top) && OnlyDictionary(s, done)
    requires tasks == KeptCurrent(s).tasks + [Task(None, Current(s).input, false, None)]
    ensures RunOf(done.(tasks := tasks), (if keepIt then [KeepCaller] else []) + [End])
         == KeptCurrent(if keepIt then done else s)
  {
    CutTight(s.packages, s.top);
    CutTight(s.pfiles, s.top);
    CutTight(done.packages, done.top);
    CutTight(done.pfiles, done.top);
    LeaveLaw(done.(tasks := tasks), keepIt);
    hide RunOf, Cut, Tight;
    assert tasks[..|tasks| - 1] == KeptCurrent(s).tasks;
    LeftIs(s, done, tasks, keepIt);
  }

  lemma LeftIs(s: State, done: State, tasks: seq<Task>, keepIt: bool)
    requires s.tasks != [] && OnlyDictionary(s, done) && |tasks| == |s.tasks| + 1
    requires tasks[..|tasks| - 1] == KeptCurrent(s).tasks
    requires Cut(done.packages, s.top) == s.packages && Cut(done.pfiles, s.top) == s.pfiles
    requires Cut(done.packages, done.top) == done.packages && Cut(done.pfiles, done.top) == done.pfiles
    ensures Left(done.(tasks := tasks), if keepIt then done.top else s.top) == KeptCurrent(if keepIt then done else s)
  {
    hide Cut;
    var n := |s.tasks| - 1;
    assert WithMark(WithMark(s.tasks, n, s.top), n, done.top) == WithMark(s.tasks, n, done.top);
    assert WithMark(WithMark(s.tasks, n, s.top), n, s.top) == WithMark(s.tasks, n, s.top);
  }
}
