/** What the stack of running tasks does with the dictionary, as a machine on values: tasks are called and
    end, things are defined, and everything from a saved mark on is forgotten again. */
module TaskSpec {
  import opened Chains
  import opened Dictionary
  import opened Options

  /** A package with its ltasks, newest first, or a pfile with its params, oldest first. */
  datatype Chain = Chain(at: int, items: seq<int>)

  /** mark is t_topd, None until it is first set; input is the command stream t_in; pfile is t_pfp, None
      for a builtin, whose pfile has been unlinked when it starts. */
  datatype Task = Task(mark: Option<nat>, input: int, interactive: bool, pfile: Option<int>)

  /** A task that has been called but not started: with a fresh pfile of its own, with one that is loaded
      or copied from disk, or a cl, which shares that of the first task. */
  datatype NewTask = Fake(pfile: int) | Real(pfile: int) | Cl

  datatype State = State(
    tasks: seq<Task>,          // the control stack: firstask first, currentask last
    newtask: Option<NewTask>,
    alldone: bool,
    top: nat,                  // topd
    maxd: nat,
    packages: seq<Chain>,      // newest first
    pfiles: seq<Chain>)        // newest first

  /** What one operation leads to; not ok is an error, after which the stack is unwound. */
  datatype Outcome = Outcome(ok: bool, s: State)

  /** The sizes of a pfile and its params in memory. */
  datatype FileSize = FileSize(head: nat, params: seq<nat>)

  // ---- Memory.

  function Push(chains: seq<Chain>, a: int): seq<Chain> {
    [Chain(a, [])] + chains
  }

  function AddFirst(chains: seq<Chain>, at: int, a: int): (r: seq<Chain>) {
    seq(|chains|, i requires 0 <= i < |chains| =>
      if chains[i].at == at then Chain(at, [a] + chains[i].items) else chains[i])
  }

  function AddLast(chains: seq<Chain>, at: int, a: int): (r: seq<Chain>) {
    seq(|chains|, i requires 0 <= i < |chains| =>
      if chains[i].at == at then Chain(at, chains[i].items + [a]) else chains[i])
  }

  /** What is left of the chains when the memory is cut off at top. */
  function Cut(chains: seq<Chain>, top: int): seq<Chain> {
    if chains == [] then []
    else (if chains[0].at < top then [Chain(chains[0].at, Below(chains[0].items, top))] else []) + Cut(chains[1..], top)
  }

  function NewMemory(s: State, size: nat): Outcome {
    Outcome(Rounded(s.top + size) <= s.maxd, s.(top := Rounded(s.top + size)))
  }

  function NewPackage(s: State, size: nat): Outcome {
    var o := NewMemory(s, size);
    if o.ok then Outcome(true, o.s.(packages := Push(s.packages, s.top))) else o
  }

  function NewLtask(s: State, package: int, size: nat): Outcome {
    var o := NewMemory(s, size);
    if o.ok then Outcome(true, o.s.(packages := AddFirst(s.packages, package, s.top))) else o
  }

  function NewFile(s: State, size: nat): Outcome {
    var o := NewMemory(s, size);
    if o.ok then Outcome(true, o.s.(pfiles := Push(s.pfiles, s.top))) else o
  }

  function NewParam(s: State, pfile: int, size: nat): Outcome {
    var o := NewMemory(s, size);
    if o.ok then Outcome(true, o.s.(pfiles := AddLast(s.pfiles, pfile, s.top))) else o
  }

  function NewParams(s: State, pfile: int, sizes: seq<nat>): Outcome
    decreases |sizes|
  {
    if sizes == [] then Outcome(true, s)
    else
      var o := NewParam(s, pfile, sizes[0]);
      if o.ok then NewParams(o.s, pfile, sizes[1..]) else o
  }

  /** A pfile without params cannot be loaded. */
  function LoadFile(s: State, file: FileSize): Outcome {
    if file.params == [] then Outcome(false, s)
    else
      var o := NewFile(s, file.head);
      if o.ok then NewParams(o.s, s.top, file.params) else o
  }

  function LoadFiles(s: State, files: seq<FileSize>): Outcome
    decreases |files|
  {
    if files == [] then Outcome(true, s)
    else
      var o := LoadFile(s, files[0]);
      if o.ok then LoadFiles(o.s, files[1..]) else o
  }

  // ---- Tasks.

  function WithMark(tasks: seq<Task>, i: int, mark: nat): (r: seq<Task>)
    requires 0 <= i < |tasks|
    ensures |r| == |tasks|
  {
    tasks[i := tasks[i].(mark := Some(mark))]
  }

  /** Set the mark of task i to the top. */
  function Kept(s: State, i: nat): (s': State)
    requires i < |s.tasks|
    ensures |s'.tasks| == |s.tasks|
  {
    s.(tasks := WithMark(s.tasks, i, s.top))
  }

  function Current(s: State): Task
    requires s.tasks != []
  {
    s.tasks[|s.tasks| - 1]
  }

  function KeptCurrent(s: State): (s': State)
    requires s.tasks != []
    ensures s'.tasks != []
  {
    Kept(s, |s.tasks| - 1)
  }

  /** A turn of the main loop: the mark is set, the parser adds constants and loads pfiles, and all that it
      has added is forgotten. */
  function Turned(s: State, consts: nat, files: seq<FileSize>): Outcome
    requires s.tasks != []
  {
    var marked := KeptCurrent(s);
    var o := NewMemory(marked, consts);
    var p := if o.ok then LoadFiles(o.s, files) else o;
    if p.ok then Outcome(true, marked) else p
  }

  /** Call a task that has no pfile on disk. */
  function Called(s: State, size: nat): Outcome
    requires s.tasks != []
  {
    var marked := KeptCurrent(s);
    var o := NewFile(marked, size);
    if o.ok then Outcome(true, o.s.(newtask := Some(Fake(s.top)))) else o
  }

  /** Call a task whose pfile is on disk, or is loaded already: it and a copy may be loaded, and the task
      gets one of the pfiles there are. */
  function CalledWithFile(s: State, files: seq<FileSize>, which: nat): Outcome
    requires s.tasks != []
  {
    var marked := KeptCurrent(s);
    var o := LoadFiles(marked, files);
    if o.ok && which < |o.s.pfiles| && o.s.pfiles[which].items != []
    then Outcome(true, o.s.(newtask := Some(Real(o.s.pfiles[which].at))))
    else Outcome(false, o.s)
  }

  function CalledCl(s: State): State
    requires s.tasks != []
  {
    KeptCurrent(s).(newtask := Some(Cl))
  }

  function Started(s: State, t: Task): (s': State)
    ensures s'.tasks != []
  {
    s.(tasks := s.tasks + [t], newtask := None)
  }

  /** Start a builtin: the newest pfile is unlinked and the top set back to the caller's mark. */
  function StartedBuiltin(s: State): (s': State)
    requires s.tasks != [] && Current(s).mark.Some? && s.pfiles != []
    ensures s'.tasks != []
  {
    Started(s.(top := Current(s).mark.value, pfiles := s.pfiles[1..]), Task(None, Current(s).input, false, None))
  }

  /** Start a script or an executable task: "$nargs" and "mode" are added where its pfile lacks them. */
  function StartedTask(s: State, pfile: int, params: seq<nat>, input: int): Outcome {
    var o := NewParams(s, pfile, params);
    if o.ok then Outcome(true, Started(o.s, Task(None, input, false, Some(pfile)))) else o
  }

  /** Start a cl, with the caller of the calling task kept on demand. "$nargs" is added to the first task's
      pfile if that lacks it, above the mark of the cl. */
  function StartedCl(s: State, nargs: Option<nat>, input: int, interactive: bool, implicitKeep: bool): (o: Outcome)
    requires s.tasks != [] && (implicitKeep ==> |s.tasks| >= 2)
    ensures o.s.tasks != []
  {
    var kept := if implicitKeep then Kept(s, |s.tasks| - 2) else s;
    var file := s.tasks[0].pfile;
    var o := if nargs.Some? && file.Some? then NewParam(kept, file.value, nargs.value) else Outcome(true, kept);
    if o.ok then Outcome(true, Started(o.s, Task(if interactive then Some(s.top) else None, input, interactive, file)))
    else o
  }

  /** A positional argument: a fresh pfile gets a param, in others the param is there already. */
  function Argued(s: State, size: nat): Outcome
    requires s.newtask.Some?
  {
    if s.newtask.value.Fake? then NewParam(s, s.newtask.value.pfile, size) else Outcome(true, s)
  }

  /** A declaration: the current task's pfile gets a param, and its mark is raised above it. */
  function Declared(s: State, pfile: int, size: nat): Outcome
    requires s.tasks != []
  {
    var o := NewParam(s, pfile, size);
    if o.ok then Outcome(true, KeptCurrent(o.s)) else o
  }

  /** Forget whatever the dictionary holds from the current task's mark on. */
  function Restored(s: State): (s': State)
    requires s.tasks != []
    ensures s'.tasks == s.tasks && s'.newtask == s.newtask
  {
    match Current(s).mark
    case None => s
    case Some(mark) => s.(top := mark, packages := Cut(s.packages, mark), pfiles := Cut(s.pfiles, mark))
  }

  /** The current task ends. */
  function Ended(s: State): (s': State)
    requires s.tasks != []
    ensures s'.tasks != []
  {
    Restored(if |s.tasks| == 1 then s.(alldone := true) else s.(tasks := s.tasks[..|s.tasks| - 1]))
  }

  /** The tasks up to the last interactive one. */
  function UpToInteractive(tasks: seq<Task>): (r: seq<Task>)
    requires tasks != []
    ensures r != [] && r <= tasks
  {
    if |tasks| == 1 || tasks[|tasks| - 1].interactive then tasks else UpToInteractive(tasks[..|tasks| - 1])
  }

  /** What is left after an error. */
  function Unwound(s: State): (s': State)
    requires s.tasks != []
    ensures s'.tasks != []
  {
    Restored(s.(tasks := UpToInteractive(s.tasks), newtask := None))
  }

  function Done(o: Outcome): (s': State)
    requires o.s.tasks != []
    ensures s'.tasks != []
  {
    if o.ok then o.s else Unwound(o.s)
  }

  /** The earliest task from i on that reads from the stream. */
  function FirstReader(tasks: seq<Task>, input: int, i: nat, p: nat): (r: nat)
    requires i <= p < |tasks| && tasks[p].input == input
    ensures i <= r <= p && tasks[r].input == input && forall j :: i <= j < r ==> tasks[j].input != input
    decreases p - i
  {
    if i == p || tasks[i].input == input then i else FirstReader(tasks, input, i + 1, p)
  }

  /** The tasks from `from` to p - 1 are kept. */
  function KeptFrom(tasks: seq<Task>, from: nat, p: nat, mark: nat): (r: seq<Task>)
    ensures |r| == |tasks|
  {
    seq(|tasks|, i requires 0 <= i < |tasks| => if from <= i < p then tasks[i].(mark := Some(mark)) else tasks[i])
  }

  /** The command "keep", issued by task p: whoever called a task that reads from the same script is kept. */
  function KeptAll(s: State): (s': State)
    requires |s.tasks| >= 2
    ensures s'.tasks != []
  {
    var p := |s.tasks| - 2;
    if p == 0 then s
    else if s.tasks[p].input == s.tasks[0].input then s.(tasks := KeptFrom(s.tasks, p - 1, p, s.top))
    else s.(tasks := KeptFrom(s.tasks, FirstReader(s.tasks, s.tasks[p].input, 1, p) - 1, p, s.top))
  }

  // ---- Steps and runs.

  datatype Step =
    | Turn(consts: nat, files: seq<FileSize>)
    | Prepare(size: nat)
    | PrepareWithFile(files: seq<FileSize>, which: nat)
    | PrepareCl
    | Argument(size: nat)
    | Load(file: FileSize)
    | Text(size: nat)
    | Package(size: nat)
    | Ltask(package: int, size: nat)
    | Declare(size: nat)
    | StartBuiltin
    | StartTask(params: seq<nat>, input: int)
    | StartCl(nargs: Option<nat>, input: int, interactive: bool, implicitKeep: bool)
    | KeepCaller
    | KeepAll
    | End
    | Error

  predicate Positive(file: FileSize) {
    file.head > 0 && forall i :: 0 <= i < |file.params| ==> file.params[i] > 0
  }

  predicate HasPackage(s: State, package: int) {
    exists i :: 0 <= i < |s.packages| && s.packages[i].at == package
  }

  /** Whether a step can be taken. Structures are never of size 0. A builtin starts on the assumption that
      the newest pfile is its own, and a cl with implicit keep on the assumption that nothing has been
      added since it was called; without these assumptions the marks and lists would be broken. */
  predicate Enabled(s: State, step: Step)
    requires s.tasks != []
  {
    match step
    case Turn(_, files) => s.newtask == None && forall i :: 0 <= i < |files| ==> Positive(files[i])
    case Prepare(size) => s.newtask == None && size > 0
    case PrepareWithFile(files, _) => s.newtask == None && forall i :: 0 <= i < |files| ==> Positive(files[i])
    case PrepareCl => s.newtask == None
    case Argument(size) => s.newtask.Some? && size > 0
    case Load(file) => Positive(file)
    case Text(_) => true
    case Package(size) => s.newtask == None && size > 0
    case Ltask(package, size) => s.newtask == None && size > 0 && HasPackage(s, package)
    case Declare(size) => s.newtask == None && size > 0 && Current(s).pfile.Some? && Current(s).mark == Some(s.top)
    case StartBuiltin => s.pfiles != [] && s.newtask == Some(Fake(s.pfiles[0].at)) && Current(s).mark.Some?
    case StartTask(params, _) =>
      && s.newtask.Some? && !s.newtask.value.Cl?
      && (s.newtask.value.Fake? ==> params != [])
      && forall i :: 0 <= i < |params| ==> params[i] > 0
    case StartCl(nargs, _, _, implicitKeep) =>
      && s.newtask == Some(Cl) && nargs != Some(0)
      && (implicitKeep ==> |s.tasks| >= 2 && Current(s).mark == Some(s.top))
    case KeepCaller => s.newtask == None && |s.tasks| >= 2 && Current(s).mark == None
    case KeepAll =>
      s.newtask == None && |s.tasks| >= 2 && Current(s).mark == None && s.tasks[|s.tasks| - 2].mark == Some(s.top)
    case End => s.newtask == None
    case Error => true
  }

  /** What a step that can be taken leads to. */
  function Attempt(s: State, step: Step): (o: Outcome)
    requires s.tasks != [] && Enabled(s, step)
    ensures o.s.tasks != []
  {
    match step
    case Turn(consts, files) => TasksStay(KeptCurrent(s), consts, files); Turned(s, consts, files)
    case Prepare(size) => Called(s, size)
    case PrepareWithFile(files, which) => FilesKeepTasks(KeptCurrent(s), files); CalledWithFile(s, files, which)
    case PrepareCl => Outcome(true, CalledCl(s))
    case Argument(size) => Argued(s, size)
    case Load(file) => FileKeepsTasks(s, file); LoadFile(s, file)
    case Text(size) => NewMemory(s, size)
    case Package(size) => NewPackage(s, size)
    case Ltask(package, size) => NewLtask(s, package, size)
    case Declare(size) => Declared(s, Current(s).pfile.value, size)
    case StartBuiltin => Outcome(true, StartedBuiltin(s))
    case StartTask(params, input) =>
      ParamsKeepTasks(s, s.newtask.value.pfile, params);
      StartedTask(s, s.newtask.value.pfile, params, input)
    case StartCl(nargs, input, interactive, implicitKeep) => StartedCl(s, nargs, input, interactive, implicitKeep)
    case KeepCaller => Outcome(true, Kept(s, |s.tasks| - 2))
    case KeepAll => Outcome(true, KeptAll(s))
    case End => Outcome(true, Ended(s))
    case Error => Outcome(true, Unwound(s))
  }

  /** One step: a step that cannot be taken changes nothing, and one that fails is an error. */
  function Next(s: State, step: Step): (s': State)
    requires s.tasks != []
    ensures s'.tasks != []
  {
    if Enabled(s, step) then Done(Attempt(s, step)) else s
  }

  function RunOf(s: State, steps: seq<Step>): (s': State)
    requires s.tasks != []
    ensures s'.tasks != []
    decreases |steps|
  {
    if steps == [] then s else RunOf(Next(s, steps[0]), steps[1..])
  }

  lemma {:induction false} ParamsKeepTasks(s: State, pfile: int, sizes: seq<nat>)
    ensures NewParams(s, pfile, sizes).s.tasks == s.tasks && NewParams(s, pfile, sizes).s.newtask == s.newtask
    decreases |sizes|
  {
    if sizes != [] { ParamsKeepTasks(NewParam(s, pfile, sizes[0]).s, pfile, sizes[1..]); }
  }

  lemma FileKeepsTasks(s: State, file: FileSize)
    ensures LoadFile(s, file).s.tasks == s.tasks && LoadFile(s, file).s.newtask == s.newtask
  {
    ParamsKeepTasks(NewFile(s, file.head).s, s.top, file.params);
  }

  lemma {:induction false} FilesKeepTasks(s: State, files: seq<FileSize>)
    ensures LoadFiles(s, files).s.tasks == s.tasks && LoadFiles(s, files).s.newtask == s.newtask
    decreases |files|
  {
    if files != [] {
      FileKeepsTasks(s, files[0]);
      FilesKeepTasks(LoadFile(s, files[0]).s, files[1..]);
    }
  }

  lemma TasksStay(s: State, consts: nat, files: seq<FileSize>)
    ensures LoadFiles(NewMemory(s, consts).s, files).s.tasks == s.tasks
  {
    FilesKeepTasks(NewMemory(s, consts).s, files);
  }
}
