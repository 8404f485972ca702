/** What the single steps of the tasks mean, list by list and task by task, and who survives an error. */
module TaskSteps {
  import opened Chains
  import opened Dictionary
  import opened Options
  import opened TaskSpec
  import opened TaskLaws

  // ---- The dictionary.

  /** The next even address at which the new block is over; it must not lie beyond the end of the memory. */
  lemma MemoryIs(s: State, size: nat)
    ensures var o := NewMemory(s, size);
            && (o.s.top == s.top + size || o.s.top == s.top + size + 1) && o.s.top % 2 == 0
            && (o.ok <==> o.s.top <= s.maxd) && o.s == s.(top := o.s.top)
  {
  }

  /** The new block is the old top, and first on its list; only a param is the last one of its pfile. */
  lemma AdditionsAre(s: State, size: nat, at: int)
    ensures var o := NewPackage(s, size);
            o.ok ==> |o.s.packages| == |s.packages| + 1 && o.s.packages[1..] == s.packages
                     && o.s.packages[0] == Chain(s.top, []) && o.s.pfiles == s.pfiles
    ensures var o := NewFile(s, size);
            o.ok ==> |o.s.pfiles| == |s.pfiles| + 1 && o.s.pfiles[1..] == s.pfiles
                     && o.s.pfiles[0] == Chain(s.top, []) && o.s.packages == s.packages
    ensures var o := NewLtask(s, at, size);
            o.ok ==> o.s.pfiles == s.pfiles && |o.s.packages| == |s.packages|
                     && forall i :: 0 <= i < |s.packages| ==>
                          o.s.packages[i].at == s.packages[i].at
                          && o.s.packages[i].items
                             == if s.packages[i].at == at then [s.top] + s.packages[i].items else s.packages[i].items
    ensures var o := NewParam(s, at, size);
            o.ok ==> o.s.packages == s.packages && |o.s.pfiles| == |s.pfiles|
                     && forall i :: 0 <= i < |s.pfiles| ==>
                          o.s.pfiles[i].at == s.pfiles[i].at
                          && o.s.pfiles[i].items
                             == if s.pfiles[i].at == at then s.pfiles[i].items + [s.top] else s.pfiles[i].items
  {
  }

  /** The params of a pfile that is loaded follow each other, and nothing else changes. */
  lemma {:induction false} ParamsFollow(s: State, own: int, sizes: seq<nat>)
    requires s.pfiles != [] && s.pfiles[0].at == own && forall i :: 0 < i < |s.pfiles| ==> s.pfiles[i].at != own
    requires NewParams(s, own, sizes).ok
    ensures var s' := NewParams(s, own, sizes).s;
            && s'.pfiles != [] && s'.pfiles[0].at == own && s'.pfiles[1..] == s.pfiles[1..]
            && |s'.pfiles[0].items| == |s.pfiles[0].items| + |sizes| && s.pfiles[0].items <= s'.pfiles[0].items
    decreases |sizes|
  {
    if sizes != [] {
      var o := NewParam(s, own, sizes[0]);
      AdditionsAre(s, sizes[0], own);
      assert o.s.pfiles[1..] == s.pfiles[1..];
      ParamsFollow(o.s, own, sizes[1..]);
    }
  }

  /** A pfile is loaded exactly if it has params and there is memory for all; it has as many as on disk. */
  lemma LoadIs(s: State, file: FileSize)
    requires forall i :: 0 <= i < |s.pfiles| ==> s.pfiles[i].at != s.top
    ensures var o := LoadFile(s, file);
            o.ok ==> |o.s.pfiles| == |s.pfiles| + 1 && o.s.pfiles[1..] == s.pfiles
                     && o.s.pfiles[0].at == s.top && |o.s.pfiles[0].items| == |file.params| > 0
  {
    if LoadFile(s, file).ok {
      var o := NewFile(s, file.head);
      assert forall i :: 0 < i < |o.s.pfiles| ==> o.s.pfiles[i] == s.pfiles[i - 1];
      ParamsFollow(o.s, s.top, file.params);
    }
  }

  // ---- Keeping.

  /** The mark of one task is raised to the top. */
  lemma KeepIs(s: State, i: nat)
    requires i < |s.tasks|
    ensures var s' := Kept(s, i);
            && s'.tasks[i].mark == Some(s.top) && SameTask(s.tasks[i], s'.tasks[i])
            && (forall j :: 0 <= j < |s.tasks| && j != i ==> s'.tasks[j] == s.tasks[j])
            && s' == s.(tasks := s'.tasks)
  {
  }

  /** The same task, whatever its mark. */
  predicate SameTask(t: Task, u: Task) {
    u.input == t.input && u.interactive == t.interactive && u.pfile == t.pfile
  }

  /** The command "keep" of a task that task p runs: if p reads from the terminal, its caller is kept; otherwise
      all tasks are kept that called it or a task, not before its script, that reads from the same stream. */
  predicate ToBeKept(s: State, i: nat)
    requires i < |s.tasks| && |s.tasks| >= 2
  {
    var p := |s.tasks| - 2;
    && i < p
    && (if s.tasks[p].input == s.tasks[0].input then i == p - 1
        else exists r :: 1 <= r <= i + 1 && s.tasks[r].input == s.tasks[p].input)
  }

  lemma KeepCommandIs(s: State)
    requires |s.tasks| >= 2
    ensures var s' := KeptAll(s);
            && s' == s.(tasks := s'.tasks) && |s'.tasks| == |s.tasks|
            && forall i :: 0 <= i < |s.tasks| ==>
                 s'.tasks[i] == if ToBeKept(s, i) then s.tasks[i].(mark := Some(s.top)) else s.tasks[i]
  {
    var p, s' := |s.tasks| - 2, KeptAll(s);
    if p > 0 && s.tasks[p].input != s.tasks[0].input {
      var root := FirstReader(s.tasks, s.tasks[p].input, 1, p);
      forall i | 0 <= i < |s.tasks| ensures ToBeKept(s, i) <==> root - 1 <= i < p {
      }
    }
  }

  // ---- The main loop and the calls.

  /** A command that is parsed leaves nothing of what the parser has added, and raises the task's mark. */
  lemma TurnIs(s: State, consts: nat, files: seq<FileSize>)
    requires s.tasks != [] && Turned(s, consts, files).ok
    ensures var s' := Turned(s, consts, files).s;
            && s'.packages == s.packages && s'.pfiles == s.pfiles && s'.top == s.top
            && s'.newtask == s.newtask && s'.alldone == s.alldone && |s'.tasks| == |s.tasks|
            && s'.tasks[..|s.tasks| - 1] == s.tasks[..|s.tasks| - 1]
            && Current(s').mark == Some(s.top) && SameTask(Current(s), Current(s'))
  {
  }

  /** A task that has been called has a fresh pfile at the old top, which is its caller's mark. */
  lemma CallIs(s: State, size: nat)
    requires s.tasks != [] && Called(s, size).ok
    ensures var s' := Called(s, size).s;
            && s'.newtask == Some(Fake(s.top)) && Current(s').mark == Some(s.top) && |s'.tasks| == |s.tasks|
            && |s'.pfiles| == |s.pfiles| + 1 && s'.pfiles[0] == Chain(s.top, []) && s'.pfiles[1..] == s.pfiles
            && s'.packages == s.packages && s'.top >= s.top + size
  {
  }

  /** A task with a pfile on disk has one that is in memory, with params. */
  lemma CallWithFileIs(s: State, files: seq<FileSize>, which: nat)
    requires s.tasks != [] && CalledWithFile(s, files, which).ok
    ensures var s' := CalledWithFile(s, files, which).s;
            && which < |s'.pfiles| && s'.newtask == Some(Real(s'.pfiles[which].at)) && s'.pfiles[which].items != []
            && |s'.tasks| == |s.tasks| && Current(s').mark == Some(s.top) && s'.packages == s.packages
  {
    FilesAbove(KeptCurrent(s), files, s.top);
    FilesKeepTasks(KeptCurrent(s), files);
    FilesKeepPackages(KeptCurrent(s), files);
  }

  lemma {:induction false} FilesKeepPackages(s: State, files: seq<FileSize>)
    ensures LoadFiles(s, files).s.packages == s.packages
    decreases |files|
  {
    hide LoadFile;
    if files != [] {
      FileAbove(s, files[0], s.top);
      FilesKeepPackages(LoadFile(s, files[0]).s, files[1..]);
    }
  }

  lemma CallClIs(s: State)
    requires s.tasks != []
    ensures var s' := CalledCl(s);
            && s'.newtask == Some(Cl) && |s'.tasks| == |s.tasks| && Current(s').mark == Some(s.top)
            && s'.packages == s.packages && s'.pfiles == s.pfiles && s'.top == s.top
  {
  }

  /** A declaration goes to the end of the file of the current task, which is kept. */
  lemma DeclarationIs(s: State, pfile: int, size: nat)
    requires s.tasks != [] && Declared(s, pfile, size).ok
    ensures var s' := Declared(s, pfile, size).s;
            && s'.top >= s.top + size && Current(s').mark == Some(s'.top) && |s'.tasks| == |s.tasks|
            && |s'.pfiles| == |s.pfiles|
            && forall i :: 0 <= i < |s.pfiles| ==>
                 s'.pfiles[i].at == s.pfiles[i].at
                 && s'.pfiles[i].items
                    == if s.pfiles[i].at == pfile then s.pfiles[i].items + [s.top] else s.pfiles[i].items
  {
  }

  /** What can be done between commands, in every state. */
  lemma PossibleSteps(s: State, size: nat, files: seq<FileSize>)
    requires s.tasks != [] && s.newtask == None && size > 0
    requires forall i :: 0 <= i < |files| ==> Positive(files[i])
    ensures Enabled(s, Turn(size, files)) && Enabled(s, Prepare(size)) && Enabled(s, PrepareWithFile(files, 0))
    ensures Enabled(s, PrepareCl) && Enabled(s, Package(size)) && Enabled(s, Text(size))
    ensures Enabled(s, End) && Enabled(s, Error)
    ensures files != [] ==> Enabled(s, Load(files[0]))
    ensures s.packages != [] ==> Enabled(s, Ltask(s.packages[0].at, size))
    ensures Current(s).pfile.Some? && Current(s).mark == Some(s.top) ==> Enabled(s, Declare(size))
    ensures |s.tasks| >= 2 && Current(s).mark == None ==>
              Enabled(s, KeepCaller) && (s.tasks[|s.tasks| - 2].mark == Some(s.top) ==> Enabled(s, KeepAll))
  {
  }

  /** What can be done with a task that is being prepared. */
  lemma PossibleStarts(s: State, size: nat, input: int)
    requires s.tasks != [] && s.newtask.Some? && size > 0
    ensures Enabled(s, Argument(size)) && Enabled(s, Error)
    ensures !s.newtask.value.Cl? ==> Enabled(s, StartTask([size], input))
    ensures s.newtask.value.Real? ==> Enabled(s, StartTask([], input))
    ensures s.newtask.value.Cl? ==>
              Enabled(s, StartCl(None, input, true, false)) && Enabled(s, StartCl(Some(size), input, false, false))
    ensures s.pfiles != [] && s.newtask.value == Fake(s.pfiles[0].at) && Current(s).mark.Some? ==>
              Enabled(s, StartBuiltin)
  {
  }

  // ---- Starting and ending.

  /** Whatever starts is a new current task, above all others, and nothing is being prepared any more. */
  predicate OnTop(s: State, s': State, t: Task) {
    |s'.tasks| == |s.tasks| + 1 && s'.tasks[|s.tasks|] == t && s'.newtask == None
  }

  lemma StartsAre(s: State, pfile: int, params: seq<nat>, input: int)
    requires s.tasks != []
    ensures s.pfiles != [] && Current(s).mark.Some? ==>
              var s' := StartedBuiltin(s);
              && OnTop(s, s', Task(None, Current(s).input, false, None)) && s'.tasks[..|s.tasks|] == s.tasks
              && Some(s'.top) == Current(s).mark && s'.pfiles == s.pfiles[1..] && s'.packages == s.packages
    ensures var o := StartedTask(s, pfile, params, input);
            o.ok ==> OnTop(s, o.s, Task(None, input, false, Some(pfile))) && o.s.tasks[..|s.tasks|] == s.tasks
                     && o.s.packages == s.packages && o.s.top >= s.top
  {
    ParamsKeepTasks(s, pfile, params);
    ParamsAbove(s, pfile, params, s.top);
  }

  /** A cl shares the file of the first task; an interactive one is marked at the top, below "$nargs". */
  lemma ClStartIs(s: State, nargs: Option<nat>, input: int, interactive: bool, implicitKeep: bool)
    requires s.tasks != [] && (implicitKeep ==> |s.tasks| >= 2)
    ensures var o := StartedCl(s, nargs, input, interactive, implicitKeep);
            o.ok ==>
              && OnTop(s, o.s, Task(if interactive then Some(s.top) else None, input, interactive, s.tasks[0].pfile))
              && (forall i :: 0 <= i < |s.tasks| ==>
                    if implicitKeep && i == |s.tasks| - 2 then o.s.tasks[i] == s.tasks[i].(mark := Some(s.top))
                    else o.s.tasks[i] == s.tasks[i])
              && o.s.packages == s.packages
              && (nargs == None || s.tasks[0].pfile == None ==> o.s.pfiles == s.pfiles && o.s.top == s.top)
  {
  }

  /** What is cut off: a list element stays exactly if it lies below top, and so does the list it is on. */
  lemma {:induction false} CutIs(chains: seq<Chain>, top: int, c: Chain)
    ensures c in Cut(chains, top) <==> exists d :: d in chains && d.at < top && c == Chain(d.at, Below(d.items, top))
    decreases |chains|
  {
    hide Below;
    if chains != [] {
      CutIs(chains[1..], top, c);
      assert forall d :: d in chains <==> d == chains[0] || d in chains[1..];
    }
  }

  /** The end of a task, of the last one as well: the next one's mark is the new top. */
  lemma EndIs(s: State)
    requires s.tasks != []
    ensures var s' := Ended(s);
            && (|s.tasks| == 1 ==> s'.alldone && s'.tasks == s.tasks)
            && (|s.tasks| > 1 ==> s'.alldone == s.alldone && s'.tasks == s.tasks[..|s.tasks| - 1])
            && (Current(s').mark.Some? ==>
                  s'.top == Current(s').mark.value
                  && s'.packages == Cut(s.packages, s'.top) && s'.pfiles == Cut(s.pfiles, s'.top))
  {
  }

  // ---- Errors.

  /** What is left are the first tasks, up to the last interactive one. */
  predicate DownToInteractive(tasks: seq<Task>, left: seq<Task>) {
    && 1 <= |left| <= |tasks| && left == tasks[..|left|] && (|left| == 1 || left[|left| - 1].interactive)
    && forall i :: |left| <= i < |tasks| ==> !tasks[i].interactive
  }

  /** An error ends exactly the tasks above the last interactive one. */
  lemma {:induction false} UnwindIs(tasks: seq<Task>)
    requires tasks != []
    ensures DownToInteractive(tasks, UpToInteractive(tasks))
    decreases |tasks|
  {
    if |tasks| > 1 && !tasks[|tasks| - 1].interactive {
      UnwindIs(tasks[..|tasks| - 1]);
    }
  }

  /** Task i is still there. */
  predicate Stays(s: State, s': State, i: nat) {
    i < |s.tasks| && i < |s'.tasks| && SameTask(s.tasks[i], s'.tasks[i])
  }

  lemma UnwoundStays(s: State, i: nat)
    requires i < |s.tasks| && s.tasks[i].interactive
    ensures Stays(s, Unwound(s), i)
  {
    UnwindIs(s.tasks);
  }

  /** Nothing that is added touches the tasks, but for a mark. */
  lemma AdditionStays(s: State, step: Step, i: nat)
    requires i < |s.tasks| && Enabled(s, step)
    requires step.Argument? || step.Load? || step.Text? || step.Package? || step.Ltask? || step.Declare?
    ensures Stays(s, Attempt(s, step).s, i)
  {
    hide LoadFile, Push, AddFirst, AddLast, Rounded, HasPackage;
    if step.Load? { FileKeepsTasks(s, step.file); }
  }

  lemma CallStays(s: State, step: Step, i: nat)
    requires i < |s.tasks| && Enabled(s, step)
    requires step.Turn? || step.Prepare? || step.PrepareWithFile? || step.PrepareCl?
    ensures Stays(s, Attempt(s, step).s, i)
  {
    hide LoadFiles, Push, Rounded;
    if step.Turn? { TasksStay(KeptCurrent(s), step.consts, step.files); }
    if step.PrepareWithFile? { FilesKeepTasks(KeptCurrent(s), step.files); }
  }

  lemma StartStays(s: State, step: Step, i: nat)
    requires i < |s.tasks| && Enabled(s, step)
    requires step.StartBuiltin? || step.StartTask? || step.StartCl? || step.KeepCaller? || step.KeepAll?
    ensures Stays(s, Attempt(s, step).s, i)
  {
    hide NewParams, AddLast, Rounded, FirstReader;
    if step.StartTask? { ParamsKeepTasks(s, s.newtask.value.pfile, step.params); }
  }

  /** An operation, done or not, ends no task. */
  lemma AttemptStays(s: State, step: Step, i: nat)
    requires i < |s.tasks| && Enabled(s, step) && !step.End? && !step.Error?
    ensures Stays(s, Attempt(s, step).s, i)
  {
    hide Enabled, Attempt, Stays;
    if step.Argument? || step.Load? || step.Text? || step.Package? || step.Ltask? || step.Declare? {
      AdditionStays(s, step, i);
    } else if step.Turn? || step.Prepare? || step.PrepareWithFile? || step.PrepareCl? {
      CallStays(s, step, i);
    } else {
      StartStays(s, step, i);
    }
  }

  /** No error and no failing step ends an interactive task; only its own end does. */
  lemma StepStays(s: State, step: Step, i: nat)
    requires i < |s.tasks| && s.tasks[i].interactive && (step.End? && |s.tasks| == i + 1 ==> i == 0)
    ensures Stays(s, Next(s, step), i) && Next(s, step).tasks[i].interactive
  {
    hide Unwound;
    if Enabled(s, step) && !step.End? && !step.Error? {
      AttemptStays(s, step, i);
      UnwoundStays(Attempt(s, step).s, i);
    } else if Enabled(s, step) && step.Error? {
      UnwoundStays(s, i);
    }
  }

  /** The run has no `End` of task i. */
  predicate NotEnded(s: State, steps: seq<Step>, i: nat)
    requires s.tasks != []
    decreases |steps|
  {
    steps != [] ==> (steps[0].End? ==> |s.tasks| != i + 1) && NotEnded(Next(s, steps[0]), steps[1..], i)
  }

  /** Over all runs, whatever fails: an interactive task is there until it ends itself. */
  lemma {:induction false} RunStays(s: State, steps: seq<Step>, i: nat)
    requires i < |s.tasks| && s.tasks[i].interactive && (i == 0 || NotEnded(s, steps, i))
    ensures Stays(s, RunOf(s, steps), i)
    decreases |steps|
  {
    hide Next;
    if steps != [] {
      StepStays(s, steps[0], i);
      RunStays(Next(s, steps[0]), steps[1..], i);
    }
  }

  /** An error in a script that a package's cl has called: the package's cl is current, with its definitions. */
  lemma ErrorInPackage()
    ensures var a, b := Task(Some(2), 0, true, Some(0)), Task(Some(10), 0, true, Some(0));
            var c, packages := Task(None, 1, false, Some(12)), [Chain(8, [9]), Chain(1, [])];
            var s := State([a, b, c], None, false, 16, 100, packages, [Chain(12, [14]), Chain(0, [1])]);
            Next(s, Error) == State([a, b], None, false, 10, 100, packages, [Chain(0, [1])])
  {
    var a, b := Task(Some(2), 0, true, Some(0)), Task(Some(10), 0, true, Some(0));
    var c := Task(None, 1, false, Some(12));
    assert [a, b, c][..2] == [a, b];
    assert UpToInteractive([a, b, c]) == [a, b];
    var packages, pfiles := [Chain(8, [9]), Chain(1, [])], [Chain(12, [14]), Chain(0, [1])];
    assert packages[1..] == [Chain(1, [])] && pfiles[1..] == [Chain(0, [1])];
    assert Below([9], 10) == [9] && Below([1], 10) == [1];
    assert Cut([Chain(1, [])], 10) == [Chain(1, [])] && Cut([Chain(0, [1])], 10) == [Chain(0, [1])];
  }
}
