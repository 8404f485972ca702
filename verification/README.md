# A model of the IRAF command language

The IRAF CL (`pkg/cl`) reads commands, compiles them into a stack of code words, runs that code, and keeps
packages, tasks and parameters in a dictionary that grows and is cut back with the tasks. This project models the
parts of it that work over hand-managed memory, and proves what they are relied on for.

| files | what they model |
|---|---|
| `HistorySpec`, `HistorySearch`, `History`, `HistoryRuns` | the ring of commands, its cached backward search from any state, searching for a command, and whole runs with and without full laps |
| `Stredit` | the substitution used when a command is edited |
| `Chains`, `Dictionary` | the dictionary with its lists, and cutting it back |
| `TaskSpec`, `TaskLaws`, `TaskSteps`, `TaskExamples`, `TaskMachine` | the task stack with its saved marks as a machine on values, its laws over whole runs, what each step does list by list and task by task, concrete runs, and the machine in place |
| `Opcodes`, `Code`, `Statements`, `CompiledMeaning` | the code words, their execution, the structured statements, and that compiled code means the same |
| `CodeFrames`, `JumpTables`, `Emission`, `StatementCompiler` | the compiler of structured statements, with its control stack and its patches |
| `Expressions`, `SourceCompiler` | programs as they are written, with their meaning in numbers, their translation to instructions, and that through the compiler and the machine |
| `Labels` | GOTOs to labels, with the list of pending ones that is threaded through their arguments |
| `CodeStream` | the encoding of instructions with all their kinds of arguments |
| `Scanner` | the table-driven scanner with its push-back |
| `ProcParams` | the reordering of a procedure's parameters |
| `StringInt`, `ArrayIndex`, `StrTable` | string arithmetic, array indices, tables in columns |
| `JobTable` | the slots of background jobs |
| `Modes` | ranges, effective modes, queries, and the command line that starts a task |

What the program changes step by step is a class or a method with loops; it is proved against functions and
predicates over values, and the laws are lemmas about these. Pointers into the dictionary are addresses, `NULL` is
-1; the lists of the dictionary are records of maps, together with a ghost view of their contents as sequences.
`cl_error` is an outcome of the operation; writing a parameter file and closing a list file are recorded events.

Where the code and its comments differ, the model follows the code:

- `restor` closes the list files of parameter files that are dropped as a whole, but not those of single params that
  are cut off a surviving one; `Dictionary.NoneLostOpen` says exactly when this makes a difference (`exec.c:1089-1136`).
- A full lap of the history ring between two searches is not noticed. The search ends nevertheless, even from the place
  just behind `op`, where one turn costs a whole lap; when it is right is the subject of `HistoryRuns.LapLaw` and
  `HistorySearch.SearchIsRight` (`history.c:842-897`).
- The assumption at `restor` that the params of a surviving parameter file lie all above or all below the mark does not
  hold for declarations; their params are cut off one by one, and what is needed is only that the first one stays, which
  holds because the file of a running script or cl is never empty (`exec.c:1013-1016`, `grammar.y:415-450`).
- `inrange` is documented to reject indefinite file names, but the type of strings has the bits of integers and reals,
  so that every indefinite value is in range before file names are looked at (`modes.c:926-942`).
- A legal value of an enumerated parameter that another legal value begins with is rejected as ambiguous, although it
  is given in full; it can never be given (`modes.c:961-994`).
- `bkg_spawn` never takes the slot used last, so it can report that there is no slot while that one is idle.
- A pending GOTO at location 0 would be taken for the end of the list; it does no harm because the compiler produces
  the locations in ascending order.
- A label that is never defined is not reported, and the list of pending GOTOs is not emptied between procedures; what
  is left over does not disturb a later procedure.

## Model

| member | source | states |
|---|---|---|
| `History.HistoryBuffer.Put` | iraf.v2161/pkg/cl/history.c:752-777 | the log of commands grows by the normalised command, and the ring mirrors the last bytes of that log; in every state all records have one newline, at the end, and no blank before it |
| `History.Terminated` | iraf.v2161/pkg/cl/history.c:757-764 | a command loses exactly the blanks, tabs, newlines, vertical tabs, form feeds and returns at its end, and gets one newline and an EOS |
| `HistorySpec.TrailingBlank` | iraf.v2161/pkg/cl/history.c:756-761 | any one of these six characters at the end makes no difference |
| `HistorySpec.NoTrailingBlank` | iraf.v2161/pkg/cl/history.c:756-761 | a command that ends in none of them is remembered with a newline |
| `HistorySpec.ClipFits` | iraf.v2161/pkg/cl/history.c:808-829 | a text and its EOS fit into the caller's buffer and into the ring, and no character is left off that would fit |
| `HistorySpec.MatchesAre` | iraf.v2161/pkg/cl/history.c:484-507 | matching at the beginning, character by character, or anywhere, as a part of the command |
| `History.HistoryBuffer.Write` | iraf.v2161/pkg/cl/history.c:766-776 | the bytes are appended to the stream that the ring mirrors, through wrap-around and the full flag |
| `History.HistoryBuffer.Find` | iraf.v2161/pkg/cl/history.c:842-897 | in every state of the ring and the remembered position, the place where the walk from that position ends; this is the place of the k-th most recent record, or rightly none, if and only if the walk starts right |
| `History.HistoryBuffer.ScanBack` | iraf.v2161/pkg/cl/history.c:866-890 | one turn of the search, from any place: to the nearest place before it at which a record starts, or nothing if that is overwritten; from just behind op a turn goes once round to op |
| `History.HistoryBuffer.StepBack` | iraf.v2161/pkg/cl/history.c:866-890 | the same turn in terms of the log of commands |
| `History.HistoryBuffer.SearchBack` | iraf.v2161/pkg/cl/history.c:866-895 | turn after turn up to the record, or as far as records are left; the position reached is remembered |
| `History.HistoryBuffer.Fetch` | iraf.v2161/pkg/cl/history.c:808-829 | the text from a place of the ring up to its EOS, or as much as there is room for |
| `History.CopyOutStored` | iraf.v2161/pkg/cl/history.c:808-829 | a stored record comes out of the ring whole, never with bytes of a newer one |
| `History.HistoryBuffer.Get` | iraf.v2161/pkg/cl/history.c:784-800 | in every state the text at the place that the search reaches; what a list of commands would answer whenever the remembered position is right or that of an older record |
| `History.HistoryBuffer.Search` | iraf.v2161/pkg/cl/history.c:484-507 | in every state the search ends, with the first text that matches among those that it comes to; this is the most recent stored command that matches, or rightly none, if the remembered position is right or that of record 2 or older |
| `HistorySearch.SearchIsRight` | iraf.v2161/pkg/cl/history.c:484-507 | after a full lap at record 1, exactly when the search finds the right command nevertheless: the wrong first text does not match, and the commands left out do not either, or what is found reads the same |
| `HistorySearch.SearchFromLastPlace` | iraf.v2161/pkg/cl/history.c:484-507 | the same for the place just behind op, from which two wrong texts are met and then all commands |
| `History.IsMatch` | iraf.v2161/pkg/cl/history.c:484-507 | whether a command starts with the pattern or, on demand, contains it |
| `HistoryRuns.Replay` | iraf.v2161/pkg/cl/history.c:752-897 | every sequence of puts and gets, laps included, is answered by the texts at the places that the walks reach; and as by a list of commands, whenever all walks start right, as without laps |
| `HistoryRuns.KthLastCommand` | iraf.v2161/pkg/cl/history.c:784-829 | what a list of commands answers: record k is what was put as the k-th last command, normalised and clipped |
| `HistoryRuns.Serve` | iraf.v2161/pkg/cl/history.c:752-897 | one put or get in any state, with what is remembered after it |
| `HistorySpec.WalkLands` | iraf.v2161/pkg/cl/history.c:866-895 | the whole search in one step: as many stored records further on as the request is from the remembered number, counted from where the search starts in truth |
| `HistorySpec.ReachedIsRight` | iraf.v2161/pkg/cl/history.c:842-897 | the search gives the right place, or rightly none, if and only if it starts at the place of its record, or in the record before it when it has to go on, or both answers are none |
| `HistoryRuns.FindAfterPuts` | iraf.v2161/pkg/cl/history.c:842-897 | after a search that stopped at record c, any commands, and a search for record k: right if and only if op stands elsewhere, k is more recent than c, or what lies at the old place of record c fits |
| `HistoryRuns.LapLaw` | iraf.v2161/pkg/cl/history.c:852-860 | the condition in terms of the two logs: for k = c the record is stored at the same distance; for k > c its distance now is at most the old one and that of the record before it is greater, or nothing is there to be found and nothing is |
| `HistoryRuns.RepliesAreAnswers` | iraf.v2161/pkg/cl/history.c:752-897 | if every search of a run starts right, all its answers are those of a list of commands |
| `HistoryRuns.LapFreeIsRight` | iraf.v2161/pkg/cl/history.c:852-860 | without full laps between searches every search starts right |
| `HistoryRuns.LapGoesUnnoticed` | iraf.v2161/pkg/cl/history.c:842-896 | a concrete run with a full lap, in which the repeated search gives the end of an old command |
| `HistorySpec.StoredIsRecent` | iraf.v2161/pkg/cl/history.c:842-897 | once a record is out of reach, all older ones are |
| `HistorySpec.MirrorsStep` | iraf.v2161/pkg/cl/history.c:766-776 | a new byte replaces exactly the one written a ring's length before |
| `Stredit.Edit` | iraf.v2161/pkg/cl/history.c:580-613 | the first occurrence, or all occurrences from left to right, are replaced; inserted text is not looked at again; no match is an error |
| `Stredit.Advance` | iraf.v2161/pkg/cl/history.c:580-590 | the text up to the first match from a position on, or to the end |
| `Stredit.CutUnique` | iraf.v2161/pkg/cl/history.c:580-612 | there is only one way to cut a text at leftmost occurrences that do not overlap |
| `Stredit.CutJoins` | iraf.v2161/pkg/cl/history.c:580-612 | replacing the pattern by itself changes nothing |
| `Dictionary.CutPackages` | iraf.v2161/pkg/cl/exec.c:1058-1064 | the package list becomes its part below the mark |
| `Dictionary.PackageBelow` | iraf.v2161/pkg/cl/exec.c:1058-1064 | the first package below the mark, if there is one |
| `Dictionary.LtaskBelow` | iraf.v2161/pkg/cl/exec.c:1067-1075 | the first ltask of a package below the mark, if there is one |
| `Dictionary.CutLtasks` | iraf.v2161/pkg/cl/exec.c:1066-1075 | the ltask list of every package becomes its part below the mark |
| `Dictionary.DropPfile` | iraf.v2161/pkg/cl/exec.c:1098-1109 | list files of a dropped parameter file are closed, and it is written out exactly if it was changed, is no copy, and this is no background job |
| `Dictionary.DropPfiles` | iraf.v2161/pkg/cl/exec.c:1089-1109 | exactly the parameter files from the mark on are dropped, the others stay in order |
| `Dictionary.FilesWritten` | iraf.v2161/pkg/cl/exec.c:1089-1109 | exactly those parameter files are written out that are dropped and changed, in themselves or in a param, and are no working copies, and that in the foreground |
| `Dictionary.ChopPfile` | iraf.v2161/pkg/cl/exec.c:1115-1136 | the params of a surviving file become those below the mark, with the right last one |
| `Dictionary.ParamAbove` | iraf.v2161/pkg/cl/exec.c:1119-1135 | where the params of a file reach the mark |
| `Dictionary.ChopPfiles` | iraf.v2161/pkg/cl/exec.c:1115-1136 | the params of every surviving file become those below the mark |
| `Dictionary.CutPfiles` | iraf.v2161/pkg/cl/exec.c:1089-1136 | nothing above the mark can be reached afterwards if and only if some parameter file survives and none has its first param above the mark |
| `Dictionary.ListsClosed` | iraf.v2161/pkg/cl/exec.c:1089-1136 | exactly those list files are lost without being closed that belong to params, from the mark on, of surviving files |
| `Dictionary.NoneLostOpen` | iraf.v2161/pkg/cl/exec.c:1089-1136 | all list files that fall away are closed if and only if no surviving file has a param with a list file from the mark on |
| `Dictionary.CutOffListStaysOpen` | iraf.v2161/pkg/cl/exec.c:1115-1136 | a dictionary in which a list file is lost open |
| `Dictionary.CutAll` | iraf.v2161/pkg/cl/exec.c:1036-1136 | every list becomes exactly its part below the mark; it fails exactly if no package lies below |
| `Dictionary.Dict.CutBack` | iraf.v2161/pkg/cl/exec.c:1036-1136 | the same for the dictionary in place, with its top |
| `Dictionary.Dict.Memneed` | iraf.v2161/pkg/cl/main.c:550-567 | new memory starts at the old top, the new top is even and lies above it |
| `Dictionary.Dict.NewPackage` | iraf.v2161/pkg/cl/task.c:558-580 | the package list grows at its head, everything that can be reached lies below the top |
| `Dictionary.Dict.NewLtask` | iraf.v2161/pkg/cl/task.c:506-549 | the same for the ltasks of a package |
| `Dictionary.Dict.NewPfile` | iraf.v2161/pkg/cl/pfiles.c:42-68 | the same for parameter files |
| `Dictionary.Dict.NewParam` | iraf.v2161/pkg/cl/param.c:674-699 | the params of a file grow at their end, which is the last one |
| `Dictionary.Dict.Retract` | iraf.v2161/pkg/cl/exec.c:271-298 | unlinking the newest parameter file, as builtins do |
| `Dictionary.Dict.Forget` | iraf.v2161/pkg/cl/main.c:310-325 | the files that the parser has loaded are taken off the list again, with the top set back |
| `TaskMachine.Machine.Keep` | iraf.v2161/pkg/cl/builtin.c:2387-2397 | a task's mark is raised to the top; the marks stay in order if and only if all later ones are there already |
| `TaskMachine.Machine.KeepCommand` | iraf.v2161/pkg/cl/builtin.c:721-752 | exactly the marks of the callers that read from the same stream are raised, and the order of marks is kept |
| `TaskMachine.FindRoot` | iraf.v2161/pkg/cl/builtin.c:738-743 | the earliest task that reads from the same stream |
| `TaskMachine.Machine.KeepCallersDownTo` | iraf.v2161/pkg/cl/builtin.c:745-751 | the marks of the callers of a stretch of tasks are raised, and the order of marks is kept |
| `TaskMachine.Machine.Execute` | iraf.v2161/pkg/cl/main.c:302-325 | the mark set before each command keeps everything that came before; constants and parameter files that the parser adds are forgotten |
| `TaskMachine.Machine.Call` | iraf.v2161/pkg/cl/exec.c:120-201 | a task without a file on disk gets a fresh one above the mark |
| `TaskMachine.Machine.CallWithFile` | iraf.v2161/pkg/cl/exec.c:159-175 | a task with a file on disk gets one of the files there are after it and a copy have been loaded |
| `TaskMachine.Machine.CallCl` | iraf.v2161/pkg/cl/exec.c:141-157 | a cl is called without a file of its own |
| `TaskMachine.Machine.PosArg` | iraf.v2161/pkg/cl/opcodes.c:729-762 | a positional argument becomes a param of the new task's own fresh file, and adds nothing where the file has been loaded with its params; marks, lists and the file of every running task stay in order |
| `TaskMachine.Machine.Load` | iraf.v2161/pkg/cl/pfiles.c:453-590 | a file is loaded with its params, at any time, also while a task is being prepared; one without params is refused |
| `TaskMachine.Machine.Declare` | iraf.v2161/pkg/cl/grammar.y:415-450 | a declaration adds a param to the file of the current task and raises its mark above it; no mark of any task is harmed |
| `TaskMachine.Machine.DefinePackage` | iraf.v2161/pkg/cl/task.c:558-580 | a new package comes first on its list, at the old top, and no mark is harmed |
| `TaskMachine.Machine.DefineLtask` | iraf.v2161/pkg/cl/task.c:506-549 | a new ltask comes first on the list of its package, at the old top, and no mark is harmed |
| `TaskMachine.Machine.ExecBuiltin` | iraf.v2161/pkg/cl/exec.c:271-308 | unlinking the newest parameter file leaves nothing dangling if and only if it is the builtin's own |
| `TaskMachine.Machine.ExecTask` | iraf.v2161/pkg/cl/exec.c:366-396 | the params that are missing are added to the file of the new task, which then has some for as long as the task runs |
| `TaskMachine.Machine.ExecCl` | iraf.v2161/pkg/cl/exec.c:322-380 | a cl starts with "$nargs" added to the first task's file if that lacks it, above the mark of the cl; the implicit keep of a caller leaves the marks in order if and only if nothing has been added since the cl was called |
| `TaskMachine.Machine.Eof` | iraf.v2161/pkg/cl/exec.c:1199-1208 | back to the caller, whose mark is the new top; every list is cut to its part below |
| `TaskMachine.Machine.Restore` | iraf.v2161/pkg/cl/exec.c:1019-1150 | the dictionary is cut back to the current task's mark, every list to exactly its part below |
| `TaskMachine.Machine.Unwind` | iraf.v2161/pkg/cl/task.c:387-395 | after an error exactly the tasks above the last interactive one are gone, and the dictionary is cut back to its mark |
| `TaskSteps.UnwindIs` | iraf.v2161/pkg/cl/task.c:387-395 | the tasks that are left are the first ones, up to the last interactive one; none that is gone was interactive |
| `TaskSteps.StepStays` | iraf.v2161/pkg/cl/task.c:387-395 | no error and no step that fails ends an interactive task or changes what it is |
| `TaskSteps.RunStays` | iraf.v2161/pkg/cl/task.c:387-395 | over all runs, whatever fails, an interactive task is there until it ends itself |
| `TaskSteps.ErrorInPackage` | iraf.v2161/pkg/cl/task.c:387-395 | an error in a script that a package's cl has called: that cl goes on, with its definitions |
| `TaskMachine.Machine.BuiltinWithLoadingArgument` | iraf.v2161/pkg/cl/exec.c:271-308 | a builtin whose argument makes a parameter file be loaded: it starts exactly if the call and the load succeed, and then with a dangling list |
| `TaskExamples.LoadingArgument` | iraf.v2161/pkg/cl/exec.c:271-308 | the run exists: on a concrete dictionary a builtin is called, a file is loaded, and the start unlinks that file and leaves the builtin's own one above the top |
| `TaskExamples.ImplicitKeep` | iraf.v2161/pkg/cl/exec.c:322-345 | the run exists: a script called by a script calls a cl, a file is loaded, and the implicit keep puts the marks out of order |
| `TaskMachine.Machine.Directive` | iraf.v2161/pkg/cl/builtin.c:1408-1471 | a builtin with any arguments and any definitions: with keep it is as good as making the definitions where it is called, without keep it changes nothing |
| `TaskMachine.Machine.CallAndReturn` | iraf.v2161/pkg/cl/exec.c:113-125 | a task is called, anything happens, and it returns: unless its caller has been kept, the dictionary is exactly what it was before the call |
| `TaskMachine.Machine.Take` | iraf.v2161/pkg/cl/main.c:281-346 | one step of a run, with an error wherever memory runs out, is the step of the machine on values |
| `TaskLaws.NextAbove` | iraf.v2161/pkg/cl/exec.c:1036-1136 | no step changes what lies below a mark that it leaves in place, and the marks stay in order |
| `TaskLaws.RunAbove` | iraf.v2161/pkg/cl/exec.c:1036-1136 | the same over whole runs: as long as a task is on the stack with its mark, nothing below that mark is lost or changed |
| `TaskSteps.MemoryIs` | iraf.v2161/pkg/cl/main.c:550-567 | a block ends at the next even address, and fails exactly if that lies beyond the memory |
| `TaskSteps.AdditionsAre` | iraf.v2161/pkg/cl/task.c:558-580 | element by element, what a package, an ltask, a parameter file and a param add, and where |
| `TaskSteps.LoadIs` | iraf.v2161/pkg/cl/pfiles.c:453-590 | a file that is loaded is new, first on the list, and has as many params as on disk |
| `TaskSteps.KeepIs` | iraf.v2161/pkg/cl/builtin.c:2387-2397 | one mark becomes the top, and nothing else changes |
| `TaskSteps.KeepCommandIs` | iraf.v2161/pkg/cl/builtin.c:721-752 | task by task, which marks the command keep raises: that of the caller, or for a script those of all callers from the first task that reads from it on |
| `TaskSteps.TurnIs` | iraf.v2161/pkg/cl/main.c:302-325 | a command that is parsed leaves packages, files and top as they were, and raises the mark of the current task only |
| `TaskSteps.CallIs` | iraf.v2161/pkg/cl/exec.c:120-201 | a task that is called has a fresh file at the old top, which is its caller's mark |
| `TaskSteps.CallWithFileIs` | iraf.v2161/pkg/cl/exec.c:159-175 | a task with a file on disk has one that is in memory, with params; its caller's mark is the old top |
| `TaskSteps.CallClIs` | iraf.v2161/pkg/cl/exec.c:141-157 | a cl is called without anything being added; its caller's mark is the old top |
| `TaskSteps.PossibleSteps` | iraf.v2161/pkg/cl/main.c:281-346 | which steps can be taken between commands, in every state |
| `TaskSteps.PossibleStarts` | iraf.v2161/pkg/cl/exec.c:213-396 | which steps can be taken with a task that has been called |
| `TaskSteps.DeclarationIs` | iraf.v2161/pkg/cl/grammar.y:415-450 | a declaration is the last param of its file, the mark is above it |
| `TaskSteps.StartsAre` | iraf.v2161/pkg/cl/exec.c:271-396 | a builtin or a task starts on top of all others; a builtin without the newest file and with its caller's mark as top |
| `TaskSteps.ClStartIs` | iraf.v2161/pkg/cl/exec.c:322-380 | a cl shares the first task's file; an interactive one is marked at the top, and one caller is kept on demand |
| `TaskSteps.CutIs` | iraf.v2161/pkg/cl/exec.c:1036-1136 | exactly the list elements below the mark are left, each list that is left with exactly its elements below |
| `TaskSteps.EndIs` | iraf.v2161/pkg/cl/exec.c:1199-1208 | the end of a task: the next one's mark is the new top and everything is cut to it; the first task stays |
| `TaskLaws.CallLaw` | iraf.v2161/pkg/cl/exec.c:1164-1209 | what a task that is not kept has added is gone when it returns, and everything else is there |
| `TaskLaws.DirectiveLaw` | iraf.v2161/pkg/cl/builtin.c:1408-1471 | exactly the definitions made by a builtin are there afterwards if it has kept them, and none if not |
| `TaskExamples.TaskCommand` | iraf.v2161/pkg/cl/builtin.c:1408-1471 | the command task with one argument, on a small dictionary: its ltask is there afterwards exactly if it has been kept |
| `TaskLaws.EnterLaw` | iraf.v2161/pkg/cl/exec.c:252-308 | a builtin that has been called and has got its arguments starts with the dictionary as it was before the call |
| `TaskLaws.LeaveLaw` | iraf.v2161/pkg/cl/exec.c:1164-1209 | the end of a builtin cuts everything back to its caller's mark, which keep has raised or not |
| `TaskMachine.Machine.Run` | iraf.v2161/pkg/cl/exec.c:113-125 | over all runs the machine is where the steps lead; the marks do not decrease along the stack, never exceed the top, every one of them can be cut back to, and nothing above the top can be reached |
| `Code.EndIsUnique` | iraf.v2161/pkg/cl/exec.c:57-78 | running code has at most one end |
| `Statements.ChoiceIs` | iraf.v2161/pkg/cl/opcodes.c:1220-1282 | the arm of a switch is the last CASE with the value, otherwise the first DEFAULT, otherwise none |
| `CompiledMeaning.SwitchGoesToChosen` | iraf.v2161/pkg/cl/opcodes.c:1220-1282 | searching the jump table at run time leads to the chosen arm, or past the switch |
| `CompiledMeaning.Meaning` | iraf.v2161/pkg/cl/grammar.y:1340-1620 | wherever the code of a statement lies, it does what the statement means: end, break, next, failure, or going on for as many steps as loops turn |
| `CompiledMeaning.ProgramIsRight` | iraf.v2161/pkg/cl/exec.c:57-78 | the code of a program halts exactly with the data with which the program finishes, and fails exactly if the program does |
| `Expressions.ExpressionPushes` | iraf.v2161/pkg/cl/opcodes.c:1186-1189 | the code of an expression pushes its value, written in numbers, and does nothing else; it fails exactly if a parameter is missing |
| `Expressions.ValuesAre` | iraf.v2161/pkg/cl/binop.c:418-428 | sum, difference, equality and order of any two numbers: the operand pushed first is the left one |
| `Expressions.UsePerforms` | iraf.v2161/pkg/cl/opcodes.c:255-267 | an assignment changes exactly one parameter to the value, a print prints exactly that number; operands below are left alone |
| `Expressions.PickedIsChosen` | iraf.v2161/pkg/cl/opcodes.c:1220-1282 | the block of a switch: the last one that lists the value, otherwise the first DEFAULT |
| `Expressions.StatementMeans` | iraf.v2161/pkg/cl/grammar.y:1340-1620 | assignments, prints, IF, IF with ELSE, WHILE, break, next and SWITCH, translated, do what is meant by them in numbers |
| `Expressions.TranslationIsRight` | iraf.v2161/pkg/cl/exec.c:57-78 | the code halts exactly with the parameters and the output with which the program as written ends, and fails exactly if that does |
| `Expressions.CountingPrints` | iraf.v2161/pkg/cl/grammar.y:1396-1420 | a loop with a test, a break, a print and an assignment prints exactly the numbers up to its bound |
| `SourceCompiler.CompileSource` | iraf.v2161/pkg/cl/grammar.y:1340-1620 | any program as written is compiled unless a break or next is misplaced, loops are nested too deeply, or room is lacking; its code does what is meant for all parameters |
| `CodeFrames.Kept` | iraf.v2161/pkg/cl/gram.c:1010-1033 | compiled code survives every change outside its words and the patching of its first break |
| `JumpTables.PatchedCases` | iraf.v2161/pkg/cl/gram.c:1091-1093 | each slot of the table is the offset of one CASE, in the order in which they are popped |
| `JumpTables.PatchedDefault` | iraf.v2161/pkg/cl/gram.c:1087-1089 | slot 0 is the offset of the deepest DEFAULT, or 0 |
| `JumpTables.PatchedGoto` | iraf.v2161/pkg/cl/gram.c:1095-1098 | the GOTO at the end of every block lands just past the table |
| `JumpTables.FinishedElsewhere` | iraf.v2161/pkg/cl/gram.c:1044-1119 | making the table changes no other word |
| `JumpTables.FinishedTable` | iraf.v2161/pkg/cl/gram.c:1044-1119 | the table holds exactly the CASEs of this switch, ended by 0 |
| `JumpTables.ArmsClosed` | iraf.v2161/pkg/cl/gram.c:1095-1098 | with the GOTOs filled in, the blocks are compiled blocks of the switch |
| `Emission.ThenEmitted` | iraf.v2161/pkg/cl/grammar.y:985-1010 | two statements compiled one after the other, sharing the place of the first break |
| `Emission.IfEmitted` | iraf.v2161/pkg/cl/grammar.y:1340-1371 | the BIFF of an IF goes just past it |
| `Emission.IfElseEmitted` | iraf.v2161/pkg/cl/grammar.y:1373-1394 | the BIFF goes to the ELSE part, the GOTO before that past it |
| `Emission.WhileEmitted` | iraf.v2161/pkg/cl/grammar.y:1396-1420 | a loop with its conditional exit, its way back, and its breaks resolved |
| `Emission.SwitchEmitted` | iraf.v2161/pkg/cl/grammar.y:1522-1538 | a switch with its blocks, its table, and the GOTO behind it |
| `Emission.UnderStatement` | iraf.v2161/pkg/cl/stack.c:51-73 | what is pushed before a statement is there again after it |
| `StatementCompiler.Compiler.Compile` | iraf.v2161/pkg/cl/compile.c:40-60 | an instruction is appended unless code and control stack are closer than the margin |
| `StatementCompiler.Compiler.Push` | iraf.v2161/pkg/cl/stack.c:51-58 | the control stack grows downwards in the same array, unless there is no room |
| `StatementCompiler.Compiler.Pop` | iraf.v2161/pkg/cl/stack.c:65-73 | the top of the control stack, or the error value if it is empty |
| `StatementCompiler.Compiler.FillIn` | iraf.v2161/pkg/cl/grammar.y:1391-1392 | the argument of an instruction is supplied |
| `StatementCompiler.Compiler.CompileList` | iraf.v2161/pkg/cl/grammar.y:1001-1010 | instructions without branches, one behind the other |
| `StatementCompiler.Compiler.LoopIncr` | iraf.v2161/pkg/cl/gram.c:1010-1018 | a loop is opened unless there are too many |
| `StatementCompiler.Compiler.LoopDecr` | iraf.v2161/pkg/cl/gram.c:1026-1033 | a loop is closed, its first break goes to the present place |
| `StatementCompiler.Compiler.InSwitch` | iraf.v2161/pkg/cl/gram.c:1126-1155 | a block may follow exactly behind a SWITCH or behind another block; then the stack is as before |
| `StatementCompiler.Compiler.SetSwitch` | iraf.v2161/pkg/cl/gram.c:1044-1119 | the entries down to the SWITCH are popped, the table made of them lies at the old pc, and pc behind it |
| `StatementCompiler.Compiler.PopEntries` | iraf.v2161/pkg/cl/gram.c:1079-1108 | the loop over the entries does what the table is defined by |
| `StatementCompiler.Compiler.CountJumps` | iraf.v2161/pkg/cl/gram.c:1050-1065 | the size of the table and the place of the SWITCH, from the entries |
| `StatementCompiler.Compiler.PopEntry` | iraf.v2161/pkg/cl/gram.c:1104-1105 | the entries not yet popped are still there |
| `StatementCompiler.Compiler.EnterOne` | iraf.v2161/pkg/cl/gram.c:1086-1102 | one entry goes into the table, or is a GOTO that gets its target |
| `StatementCompiler.Compiler.CompileSelection` | iraf.v2161/pkg/cl/grammar.y:1522-1531 | the value, the SWITCH and the GOTO behind it |
| `StatementCompiler.Compiler.CompileArm` | iraf.v2161/pkg/cl/grammar.y:1540-1583 | a block of a switch, with its two places on the control stack |
| `StatementCompiler.Compiler.CompileArms` | iraf.v2161/pkg/cl/grammar.y:1540-1583 | all blocks of a switch; a further block may always follow |
| `StatementCompiler.Compiler.CompileSwitch` | iraf.v2161/pkg/cl/grammar.y:1522-1538 | the same for a switch with its table |
| `StatementCompiler.Compiler.CompileGuarded` | iraf.v2161/pkg/cl/grammar.y:1340-1345 | a condition, a BIFF whose place is on the control stack meanwhile, and a statement |
| `StatementCompiler.Compiler.CompileIf` | iraf.v2161/pkg/cl/grammar.y:1340-1371 | the code of the whole IF is right wherever it has been laid, with the control stack as before |
| `StatementCompiler.Compiler.CompileIfElse` | iraf.v2161/pkg/cl/grammar.y:1373-1394 | the same for an IF with ELSE |
| `StatementCompiler.Compiler.CompileTurn` | iraf.v2161/pkg/cl/grammar.y:1396-1417 | what is repeated in a loop, with the way back |
| `StatementCompiler.Compiler.CompileWhile` | iraf.v2161/pkg/cl/grammar.y:1396-1420 | the same for a loop, whose breaks and nexts are resolved when it is closed |
| `StatementCompiler.Compiler.CompileBreak` | iraf.v2161/pkg/cl/grammar.y:1600-1620 | the first break of a loop is noted, later ones go to it |
| `StatementCompiler.Compiler.CompileNext` | iraf.v2161/pkg/cl/grammar.y:1585-1598 | a GOTO to the start of the innermost loop |
| `StatementCompiler.Compiler.CompileStatement` | iraf.v2161/pkg/cl/grammar.y:1340-1620 | the code of the statement lies at the old pc, all other code and the control stack are as before; it fails on misplaced break or next, too many loops, or lack of room, and never if there is room for twice the code |
| `StatementCompiler.Compiler.CompileProgram` | iraf.v2161/pkg/cl/main.c:261-346 | the compiled array halts exactly with the results of the program it was compiled from |
| `Labels.PendingGotos.SetIgoto` | iraf.v2161/pkg/cl/gram.c:1247-1257 | the GOTO is put in front of the pending ones |
| `Labels.PendingGotos.UnsetIgoto` | iraf.v2161/pkg/cl/gram.c:1264-1282 | exactly the GOTO is taken out, the others keep their order; what happens instead behind an element at location 0 |
| `Labels.PendingGotos.Resolve` | iraf.v2161/pkg/cl/grammar.y:1668-1680 | a pending GOTO leaves the list and gets its target |
| `Labels.ChainBypass` | iraf.v2161/pkg/cl/gram.c:1264-1282 | redirecting one link leaves a list without one element |
| `Labels.ProcedureCompiler.PutLabel` | iraf.v2161/pkg/cl/grammar.y:1652-1684 | a label is defined once; the GOTO waiting for it gets its target |
| `Labels.ProcedureCompiler.ResolveLabel` | iraf.v2161/pkg/cl/grammar.y:1668-1680 | a label that a GOTO waits for |
| `Labels.ProcedureCompiler.Goto` | iraf.v2161/pkg/cl/grammar.y:1686-1706 | a GOTO to a label that may not be there yet keeps the invariant of labels and pending GOTOs |
| `Labels.ProcedureCompiler.FirstGotoTo` | iraf.v2161/pkg/cl/grammar.y:1696-1702 | the first GOTO to a label becomes a pending one |
| `Labels.ProcedureCompiler.Append` | iraf.v2161/pkg/cl/compile.c:40-199 | other code does not disturb labels and pending GOTOs |
| `Labels.LabelAwaited` | iraf.v2161/pkg/cl/grammar.y:1668-1684 | defining a label for which a GOTO waits keeps the invariant |
| `Labels.GotoFirst` | iraf.v2161/pkg/cl/grammar.y:1696-1704 | so does the first GOTO to a label |
| `Labels.GotoKnown` | iraf.v2161/pkg/cl/grammar.y:1693-1694 | and a GOTO to a label that has an entry |
| `Labels.GotoArrives` | iraf.v2161/pkg/cl/grammar.y:1652-1706 | every GOTO to a defined label leads there, directly or by way of the first GOTO to it |
| `Labels.ProcedureCompiler.Process` | iraf.v2161/pkg/cl/grammar.y:1652-1706 | any procedure of labels, GOTOs and other code: every item lies at its place, up to the first one that is refused, if any; running any GOTO from its place comes to the place where the item behind its label begins, before it or behind it |
| `Labels.ItemsFollow` | iraf.v2161/pkg/cl/grammar.y:1652-1706 | items follow each other without a gap, a label taking no room and a GOTO three words |
| `Labels.PlaceOfLabel` | iraf.v2161/pkg/cl/grammar.y:1652-1684 | a label is where the code begins that follows it |
| `Labels.LabelOfGoto` | iraf.v2161/pkg/cl/grammar.y:1686-1706 | every GOTO is known at its place with the label that it names |
| `CodeStream.Stream.ComStr` | iraf.v2161/pkg/cl/compile.c:209-220 | a string with its end fills whole words, nothing else changes |
| `CodeStream.Stream.Compile` | iraf.v2161/pkg/cl/compile.c:40-199 | the instruction with its arguments lies at the old pc; it stays below the control stack exactly if it is not longer than the room there is, and always if it has at most 20 words |
| `CodeStream.Stream.CompileArguments` | iraf.v2161/pkg/cl/compile.c:63-190 | the arguments of every kind of instruction |
| `CodeStream.WordsOf` | iraf.v2161/pkg/cl/compile.c:63-190 | word by word, what each kind of instruction looks like |
| `CodeStream.PackedAt` | iraf.v2161/pkg/cl/compile.c:209-220 | word k of a string has its characters from 8 k on |
| `CodeStream.WordsAre` | iraf.v2161/pkg/cl/compile.c:209-220 | a string takes no more words than it needs |
| `CodeStream.Stream.CompileAll` | iraf.v2161/pkg/cl/compile.c:40-199 | a list of instructions lies one behind the other |
| `CodeStream.LongStringCollides` | iraf.v2161/pkg/cl/compile.c:47-50 | a long string gets past the guard and over the control stack |
| `CodeStream.ReadPacked` | iraf.v2161/pkg/cl/compile.c:209-220 | a packed string is read back |
| `CodeStream.DecodeIsInverse` | iraf.v2161/pkg/cl/compile.c:40-199 | opcode and arguments of every kind of instruction are read back |
| `CodeStream.NumbersDecode` | iraf.v2161/pkg/cl/compile.c:40-199 | the instructions of the structured statements, laid as numbers, are decoded in the same way |
| `CodeStream.WalkVisits` | iraf.v2161/pkg/cl/exec.c:66-77 | going on by the lengths visits exactly the compiled instructions |
| `CodeStream.Stream.Rerun` | iraf.v2161/pkg/cl/gram.c:90-98 | ends where the compiler ended |
| `CodeStream.Stream.CompileAndWalk` | iraf.v2161/pkg/cl/exec.c:66-77 | compiling, walking and running over a list of instructions together |
| `Scanner.Scanner.Input` | iraf.v2161/pkg/cl/lexyy.c:13-13 | the next character, pushed back or from the file, 0 at its end; lines are counted |
| `Scanner.Scanner.Unput` | iraf.v2161/pkg/cl/lexyy.c:14-14 | undoes the reading of a character, with the count of lines |
| `Scanner.Scanner.Next` | iraf.v2161/pkg/cl/lexyy.c:764-818 | the next state, by way of compressed rows and the states fallen back to |
| `Scanner.StepIs` | iraf.v2161/pkg/cl/lexyy.c:774-818 | in terms of the table: the next state is in the entry of the first state on the way back that has one, its own or that for the class of the character, and there is none if that entry stands for an error or the way back ends |
| `Scanner.Scanner.Lookup` | iraf.v2161/pkg/cl/lexyy.c:774-780 | an entry of the table, if it belongs to the state |
| `Scanner.Scanner.Advance` | iraf.v2161/pkg/cl/lexyy.c:747-826 | the longest way through the states, stacked up |
| `Scanner.Scanner.Settle` | iraf.v2161/pkg/cl/lexyy.c:836-860 | the longest beginning with a rule; the characters after it are pushed back |
| `Scanner.Scanner.Try` | iraf.v2161/pkg/cl/lexyy.c:744-860 | the longest token at a position, or none |
| `Scanner.Scanner.Echo` | iraf.v2161/pkg/cl/lexyy.c:866-869 | a character that begins no token goes to the output |
| `Scanner.NoWayOn` | iraf.v2161/pkg/cl/lexyy.c:747-826 | where there is no next state, no longer text is accepted either |
| `Scanner.Scanner.Look` | iraf.v2161/pkg/cl/lexyy.c:727-874 | maximal munch: the longest token at the first position that has one, its first rule, the skipped characters echoed, and nothing of the input lost or doubled |
| `Scanner.TokenPath` | iraf.v2161/pkg/cl/lexyy.c:744-860 | a token is what a path of states from the start accepts, from the second start state at the beginning of a line, with the first rule of the last state |
| `Scanner.NoLongerPath` | iraf.v2161/pkg/cl/lexyy.c:744-860 | no path through more characters from there ends in a state with a rule |
| `ProcParams.PickPermutes` | iraf.v2161/pkg/cl/decl.c:609-694 | the listed parameters come in the order of the statement, the others keep theirs, none is lost or doubled |
| `ProcParams.ModesAreSet` | iraf.v2161/pkg/cl/decl.c:636-646 | no mode is 0, no listed parameter is hidden |
| `ProcParams.BitsStay` | iraf.v2161/pkg/cl/decl.c:636-693 | no bits change but hidden and automatic mode |
| `ProcParams.SplitMove` | iraf.v2161/pkg/cl/decl.c:648-675 | one node moves from one list to the other |
| `ProcParams.Procedure.ParamFind` | iraf.v2161/pkg/cl/param.c:102-108 | the first parameter with the name |
| `ProcParams.Procedure.Move` | iraf.v2161/pkg/cl/decl.c:648-675 | a parameter is unlinked and put in front of the new list |
| `ProcParams.Procedure.SetListedMode` | iraf.v2161/pkg/cl/decl.c:636-646 | a listed parameter's mode |
| `ProcParams.Procedure.Join` | iraf.v2161/pkg/cl/decl.c:677-683 | the rest follows the new list, whose last node is found |
| `ProcParams.Procedure.SetModes` | iraf.v2161/pkg/cl/decl.c:685-693 | whatever has no mode is hidden |
| `ProcParams.Procedure.ProcParams` | iraf.v2161/pkg/cl/decl.c:609-694 | the list in place is the reordered one, with its true tail and its modes; it fails exactly if a name has no parameter left |
| `StringInt.PlusMeans` | iraf.v2161/pkg/cl/binop.c:192-217 | the prefix stays, the number grows by the addend, its digits do not get fewer |
| `StringInt.NextNames` | iraf.v2161/pkg/cl/binop.c:192-217 | im099 plus 1 is im100, and other concrete sums |
| `StringInt.DigitValues` | iraf.v2161/pkg/cl/binop.c:203-206 | the ten digits and their values |
| `StringInt.PlusIsShortest` | iraf.v2161/pkg/cl/binop.c:192-217 | for a string with a number at its end, the result is the shortest string with the same prefix, the grown number and no fewer digits; the error is exactly that there is no such string |
| `StringInt.PlusIsAction` | iraf.v2161/pkg/cl/binop.c:192-217 | adding two numbers that are not negative one after the other is adding their sum |
| `StringInt.PlusTwice` | iraf.v2161/pkg/cl/binop.c:192-217 | for any integers and a string that ends in a number, exactly when adding one after the other is adding their sum, also where a sum is an error |
| `StringInt.TextTwice` | iraf.v2161/pkg/cl/binop.c:192-217 | exactly when this holds for a string that does not end in a number |
| `StringInt.TakingAwayLeavesZero` | iraf.v2161/pkg/cl/binop.c:192-217 | a case in which it does not |
| `StringInt.MinusIsNotRead` | iraf.v2161/pkg/cl/binop.c:208-214 | another one, for a string that does not end in a number |
| `StringInt.StrInt` | iraf.v2161/pkg/cl/binop.c:44-61 | where the digits at the end begin |
| `StringInt.Atoi` | iraf.v2161/pkg/cl/binop.c:203-203 | a string of digits is cracked |
| `StringInt.Format` | iraf.v2161/pkg/cl/binop.c:204-206 | a number is printed with zeros in front |
| `StringInt.AddInt` | iraf.v2161/pkg/cl/binop.c:192-217 | the loops compute the sum |
| `StringInt.LastOccurrence` | iraf.v2161/pkg/cl/binop.c:361-410 | the last occurrence of a string, 0 exactly if there is none |
| `ArrayIndex.OffsetOfIndices` | iraf.v2161/pkg/cl/modes.c:694-717 | the indices of an offset lie within their limits and give the offset again |
| `ArrayIndex.IndicesOfOffset` | iraf.v2161/pkg/cl/param.c:1341-1385 | indices within their limits have an offset within the array and are what that offset decodes to |
| `ArrayIndex.FirstIsFastest` | iraf.v2161/pkg/cl/param.c:1341-1385 | a step of the first index is one element, and the first indices are the first element |
| `ArrayIndex.StepOfIndex` | iraf.v2161/pkg/cl/param.c:1341-1385 | a step of any index is as many elements as the dimensions before it have together |
| `ArrayIndex.GetOffset` | iraf.v2161/pkg/cl/param.c:1341-1385 | the offset for the indices on the stack, an error exactly if one is out of its limits or missing; in direct mode the offset that is on the stack |
| `ArrayIndex.PrintIndices` | iraf.v2161/pkg/cl/modes.c:701-715 | the loop prints the indices of the offset |
| `ArrayIndex.GetLimits` | iraf.v2161/pkg/cl/decl.c:39-71 | the limits of an index, which hold for every element |
| `ArrayIndex.LimitsAreReached` | iraf.v2161/pkg/cl/decl.c:39-71 | there are elements with the least and with the greatest index, so that no narrower limits would do |
| `JobTable.Jobs.FindSlot` | iraf.v2161/pkg/cl/bkg.c:163-174 | the loop finds the first idle slot of the circular order, and ends |
| `JobTable.FirstIdleIsFirst` | iraf.v2161/pkg/cl/bkg.c:163-174 | the slot found is the first idle one after the last one used, going round; there is none exactly if all others are busy |
| `JobTable.NextIsSound` | iraf.v2161/pkg/cl/bkg.c:152-209 | no event gives a busy slot away; none is busy before the first job, so that the search ends |
| `JobTable.KillIs` | iraf.v2161/pkg/cl/bkg.c:246-270 | slot by slot, which jobs run on after a kill or an update |
| `JobTable.RunIsSound` | iraf.v2161/pkg/cl/bkg.c:152-417 | over all runs no job gets a slot that is busy at that time, and "no slot" is answered only if all slots but the last one used are busy then |
| `JobTable.Jobs.Serve` | iraf.v2161/pkg/cl/bkg.c:152-417 | the table goes through every sequence of spawns, updates and kills as the abstract slots do |
| `JobTable.Jobs.Spawn` | iraf.v2161/pkg/cl/bkg.c:152-209 | a new job never gets a running job's slot; the running jobs are those still running and the new one |
| `JobTable.Jobs.Update` | iraf.v2161/pkg/cl/bkg.c:364-384 | exactly the jobs that are done leave the running ones |
| `JobTable.Jobs.Close` | iraf.v2161/pkg/cl/bkg.c:391-417 | one slot becomes idle, with its exit status |
| `JobTable.Jobs.Kill` | iraf.v2161/pkg/cl/bkg.c:246-270 | the job, or all jobs, run no longer |
| `StrTable.PlaceOf` | iraf.v2161/pkg/cl/clprintf.c:195-199 | every string has exactly one row and column |
| `StrTable.ColumnsAlign` | iraf.v2161/pkg/cl/clprintf.c:195-210 | every column begins at a fixed offset |
| `StrTable.CellIsSpaced` | iraf.v2161/pkg/cl/clprintf.c:200-207 | two spaces or more follow a string before the next one |
| `StrTable.RowsAreShort` | iraf.v2161/pkg/cl/clprintf.c:180-212 | no line passes the last column if the longest string and two spaces fit |
| `StrTable.ComputeShape` | iraf.v2161/pkg/cl/clprintf.c:173-189 | as many columns as fit, or as are asked for, places for all strings, and no row to spare |
| `StrTable.ColumnsAreWide` | iraf.v2161/pkg/cl/clprintf.c:180-188 | the longest string and two spaces fit in a column |
| `StrTable.Longest` | iraf.v2161/pkg/cl/clprintf.c:173-177 | the greatest length |
| `StrTable.PrintRow` | iraf.v2161/pkg/cl/clprintf.c:192-212 | one row |
| `StrTable.PrintCell` | iraf.v2161/pkg/cl/clprintf.c:195-208 | one string with its spaces |
| `StrTable.PrintTable` | iraf.v2161/pkg/cl/clprintf.c:159-214 | the loops print these rows; if no string has a newline, string k is found, clipped, in line k mod numrow at the offset of the margin and k / numrow columns, whatever the width |
| `StrTable.StringIsFound` | iraf.v2161/pkg/cl/clprintf.c:192-212 | the same for the rows of any shape that has a place for each string and columns wide enough |
| `StrTable.TextInColumns` | iraf.v2161/pkg/cl/clprintf.c:195-208 | in its row a string stands behind exactly the columns before it, newlines or not |
| `Modes.InRange` | iraf.v2161/pkg/cl/modes.c:912-1018 | in range exactly if the value is legal; an enumerated value is completed |
| `Modes.Match` | iraf.v2161/pkg/cl/modes.c:961-994 | the one legal value that an abbreviation stands for, or none |
| `Modes.RangesCount` | iraf.v2161/pkg/cl/modes.c:1027-1062 | a range counts for a parameter exactly if there is a value that it refuses |
| `Modes.LegalNumbers` | iraf.v2161/pkg/cl/modes.c:926-1018 | for all limits and numbers, between which limits a number is legal, and when limits do not count |
| `Modes.LegalOthers` | iraf.v2161/pkg/cl/modes.c:926-1018 | the same for undefined and indefinite values, switches, structures and strings |
| `Modes.StrLeIs` | iraf.v2161/pkg/cl/modes.c:996-1010 | the order of strings |
| `Modes.ListedParts` | iraf.v2161/pkg/cl/modes.c:961-994 | legal values written with bars between them are read back |
| `Modes.GivenInFull` | iraf.v2161/pkg/cl/modes.c:961-994 | a legal value given in full is in range exactly if no other legal value begins with it |
| `Modes.ShorterValueIsLost` | iraf.v2161/pkg/cl/modes.c:961-994 | of the legal values a and ab, a cannot be given at all |
| `Modes.FullIsLegal` | iraf.v2161/pkg/cl/modes.c:991-993 | completing a legal value gives a legal value |
| `Modes.EffMode` | iraf.v2161/pkg/cl/modes.c:69-188 | the mode is that of the first of parameter, task, package and CL with a bit that is admitted, level by level; there is a query exactly if that level wants it and nothing defeats it, or the value is not legal |
| `Modes.QueryIs` | iraf.v2161/pkg/cl/modes.c:106-149 | level by level, when a query is wanted for a legal value; the levels after the one that decides do not matter |
| `Modes.Ask` | iraf.v2161/pkg/cl/modes.c:264-500 | the outcome is that of the first reply that settles something: end of list, an error exactly for a file without its attributes or an illegal value with nobody to ask again, or the legal value, completed and stored |
| `Modes.TypedValue` | iraf.v2161/pkg/cl/modes.c:420-460 | the value of a reply is what is typed before the newline, leading blanks left off unless the parameter is a string and no file name |
| `Modes.CurrentValue` | iraf.v2161/pkg/cl/modes.c:378-440 | the end of the file, an empty line and a line without newline stand for the current value, an undefined string becoming empty |
| `Modes.ListEnds` | iraf.v2161/pkg/cl/modes.c:384-450 | a list ends exactly with the file or with EOF or eof on a line |
| `Modes.StartupMessage` | iraf.v2161/pkg/cl/exec.c:521-671 | header, then the assignments of exactly the parameters that need no query, in order and as long as there is room; it fails if and only if a parameter that is looked at names a file without its attributes |
| `Modes.AddFile` | iraf.v2161/pkg/cl/exec.c:593-659 | the assignments of one parameter file up to the first one without room, and exactly when a test fails on the way |
| `Modes.MayBeSent` | iraf.v2161/pkg/cl/exec.c:595-611 | whether a parameter may be passed, and exactly when its test fails |
| `Modes.OnlyLegalIsSent` | iraf.v2161/pkg/cl/exec.c:585-660 | whatever is passed of a parameter that is not local is a legal value |
| `Modes.SentIs` | iraf.v2161/pkg/cl/exec.c:585-611 | which parameters are passed when their own mode or the task's decides |
| `Modes.SentByOuter` | iraf.v2161/pkg/cl/exec.c:585-611 | the same for the package's or the CL's |
| `Modes.SentInOrder` | iraf.v2161/pkg/cl/exec.c:585-660 | each of them once, in order, and no others |
| `Modes.FilesInOrder` | iraf.v2161/pkg/cl/exec.c:585-587 | file after file |
| `Modes.AssignmentIs` | iraf.v2161/pkg/cl/exec.c:613-645 | name, equals sign and value, quoted for strings, with the name of the parameter set in front |
| `Modes.LinesAre` | iraf.v2161/pkg/cl/exec.c:653-659 | each assignment behind a backslash and a newline |
| `Modes.EscapeValue` | iraf.v2161/pkg/cl/exec.c:633-642 | newlines and quotes are escaped, nothing else |
| `Modes.EscapeIs` | iraf.v2161/pkg/cl/exec.c:633-642 | what becomes of a newline, a quote and any other character |
| `Modes.EscapesJoin` | iraf.v2161/pkg/cl/exec.c:633-642 | each character by itself |
| `Modes.EscapedIsRead` | iraf.v2161/pkg/cl/exec.c:633-642 | a value without backslashes can be read back |

## Left out

- StatementCompiler.Compiler.Compile: instructions longer than the margin are excluded in `StatementCompiler`; their effect is stated in
  `CodeStream`, where memory beyond the stack array is excluded. After a collision the original goes on with the error code
  as an address; the model stops.
- StatementCompiler.Compiler.CompileStatement: has no FOR, RETURN and implicit array loops; a switch consists of its blocks only; GOTO and labels are
  in `Labels`.
- SourceCompiler.CompileSource: names that take more than the margin; expressions are sums, differences and comparisons of integers.
- StatementCompiler.Compiler.CompileProgram: the language of `Statements`; the loop of execute around it is in `TaskMachine`.
- StatementCompiler.Compiler.CompileArm: puts the values of a CASE into it at once, where the original pops them from the control stack first.
- StatementCompiler.Compiler.Push: takes the operand stack to be empty, as it is while code is compiled.
- StatementCompiler.Compiler.SetSwitch: requires entries of a switch, as do PopEntries and CountJumps; that is so at every call, so that
  the error "Corrupt stack in SWITCH analysis" does not occur.
- StatementCompiler.Compiler.PopEntries: see SetSwitch.
- StatementCompiler.Compiler.CountJumps: see SetSwitch.
- CompiledMeaning.ProgramIsRight: opcodes beyond the selection in `Code` (arithmetic, comparison, parameters and printing stand for all
  that do not branch), RETURN and EXEC, and operands other than integers.
- Labels.ProcedureCompiler.Append: code that reaches beyond the stack array.
- Scanner.Scanner.Look: a table whose start states have no transitions at all, or have transitions on 0; characters that have no class in the
  table, for which the original reads beyond it; the sizes of the character buffers.
- Scanner.Scanner.Settle: trailing context.
- CodeStream.Stream.ComStr: the bytes behind the end of a string in its last word.
- Stredit.Edit: reading the pattern, the replacement and the options from the edit directive, and the length returned.
- Dictionary.Dict.NewLtask: redefining an ltask uses its block again and puts at most a string into the dictionary; in `TaskSpec` that
  is the step `Text`.
- TaskMachine.Machine.DefineLtask: redefinition, as for NewLtask.
- TaskMachine.Machine.CallWithFile: parameter sets that hang on the main file, and which of the files on disk is the right one.
- TaskMachine.Machine.ExecTask: connecting to a process, pseudo-files and menu mode.
- TaskMachine.Machine.Eof: copying the values of a working copy back into the original file, which changes no list.
- TaskMachine.Machine.Unwind: the cleaning up of processes and streams.
- ProcParams.Procedure.ProcParams: the table of operands that is kept for positional arguments, and its limit of 100.
- ArrayIndex.GetOffset: 16-bit overflow.
- Modes.Ask: arrays, cursors and queries of background jobs; the conversion of a reply to a value is a parameter.
- Modes.StartupMessage: the printing of a value is a parameter; values longer than a line.
- Modes.EffMode: modes are sets; unreadable mode strings count as none.
- Modes.InRange: integers and reals are compared as reals; file access is a parameter.
- JobTable.Jobs.Spawn: the file passed to the job, clocks and messages; what the system answers is a parameter.
- StringInt.AddInt: overflow of integers and the length of the format.
- The environment and the process cache, which `restor` cuts back likewise.
- `OP_STRSTR`: after a partial match it does not go back, so that it can miss an occurrence.
- Array initialisation, abbreviations of names, the quoted-string branch of the history macros, and the editors.
- Files, processes, signals, terminals and the host's floating point arithmetic.
