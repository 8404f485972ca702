/** The task machine on small dictionaries: a builtin that defines something, and the two ways in which the
    original can break its lists or the order of its marks. */
module TaskExamples {
  import opened Chains
  import opened Options
  import opened Dictionary
  import opened TaskSpec
  import opened TaskLaws

  // ---- A builtin that defines something.

  /** The first cl with one package and its pfile. */
  function Login(): State {
    State([Task(Some(10), 0, true, Some(2))], None, false, 10, 100, [Chain(0, [])], [Chain(2, [4])])
  }

  lemma Cons(s: State, step: Step, rest: seq<Step>)
    requires s.tasks != []
    ensures AllSucceed(s, [step] + rest) <==> Succeeds(s, step) && AllSucceed(Next(s, step), rest)
    ensures RunOf(s, [step] + rest) == RunOf(Next(s, step), rest)
  {
    assert ([step] + rest)[1..] == rest;
  }

  function CalledExample(): State {
    Login().(newtask := Some(Fake(10)), top := 12, pfiles := [Chain(10, []), Chain(2, [4])])
  }

  function ReadyExample(): State {
    CalledExample().(top := 14, pfiles := [Chain(10, [12]), Chain(2, [4])])
  }

  function InsideExample(): State {
    Login().(tasks := Login().tasks + [Task(None, 0, false, None)])
  }

  function DefinedExample(): State {
    InsideExample().(top := 12, packages := [Chain(0, [10])])
  }

  lemma CallStep()
    ensures Succeeds(Login(), Prepare(2)) && Next(Login(), Prepare(2)) == CalledExample()
  {
  }

  lemma ArgumentStep()
    ensures Succeeds(CalledExample(), Argument(2)) && Next(CalledExample(), Argument(2)) == ReadyExample()
  {
    assert [] + [12] == [12];
    assert AddLast(CalledExample().pfiles, 10, 12) == ReadyExample().pfiles;
  }

  lemma StartStep()
    ensures Succeeds(ReadyExample(), StartBuiltin) && Next(ReadyExample(), StartBuiltin) == InsideExample()
  {
    assert ReadyExample().pfiles[1..] == [Chain(2, [4])];
  }

  lemma DefineStep()
    ensures Succeeds(InsideExample(), Ltask(0, 2)) && Next(InsideExample(), Ltask(0, 2)) == DefinedExample()
  {
    assert HasPackage(InsideExample(), 0) by { assert InsideExample().packages[0].at == 0; }
    assert [10] + [] == [10];
    assert AddFirst(InsideExample().packages, 0, 10) == DefinedExample().packages;
  }

  /** The command "task" with one argument: the ltask is there afterwards exactly if it has been kept. */
  lemma TaskCommand(keepIt: bool)
    ensures var steps := Directive(2, [Argument(2)], [Ltask(0, 2)], keepIt);
            && AllSucceed(Login(), steps)
            && RunOf(Login(), steps).packages == [Chain(0, if keepIt then [10] else [])]
            && RunOf(Login(), steps).pfiles == Login().pfiles
  {
    CallStep();
    ArgumentStep();
    StartStep();
    DefineStep();
    LeaveSucceeds(DefinedExample(), keepIt);
    LeaveLaw(DefinedExample(), keepIt);
    CutExample();
    hide Next, Succeeds, RunOf, AllSucceed, Cut;
    var leave := (if keepIt then [KeepCaller] else []) + [End];
    Cons(InsideExample(), Ltask(0, 2), leave);
    Cons(ReadyExample(), StartBuiltin, [Ltask(0, 2)] + leave);
    Cons(CalledExample(), Argument(2), [StartBuiltin] + ([Ltask(0, 2)] + leave));
    Cons(Login(), Prepare(2), [Argument(2)] + ([StartBuiltin] + ([Ltask(0, 2)] + leave)));
  }

  lemma CutExample()
    ensures Cut([Chain(0, [10])], 12) == [Chain(0, [10])] && Cut([Chain(0, [10])], 10) == [Chain(0, [])]
    ensures Cut([Chain(2, [4])], 12) == [Chain(2, [4])] && Cut([Chain(2, [4])], 10) == [Chain(2, [4])]
  {
    CutSingle(0, 10, 12);
    CutSingle(0, 10, 10);
    CutSingle(2, 4, 12);
    CutSingle(2, 4, 10);
  }

  lemma CutSingle(at: int, a: int, top: int)
    ensures Cut([Chain(at, [a])], top) == if at >= top then [] else [Chain(at, if a < top then [a] else [])]
  {
    assert [a][1..] == [] && [Chain(at, [a])][1..] == [];
    assert Below([a], top) == if a < top then [a] else [];
  }

  lemma LeaveSucceeds(s: State, keepIt: bool)
    requires s.newtask == None && |s.tasks| >= 2 && Current(s).mark == None
    ensures AllSucceed(s, (if keepIt then [KeepCaller] else []) + [End])
  {
    hide Next, Succeeds, AllSucceed, Kept;
    if keepIt {
      KeepNext(s);
      KeepSucceeds(s);
      Cons(s, KeepCaller, [End]);
      OneStep(Kept(s, |s.tasks| - 2), End);
    } else {
      assert [] + [End] == [End];
      EndSucceeds(s);
      OneStep(s, End);
    }
  }

  lemma EndSucceeds(s: State)
    requires s.newtask == None && s.tasks != []
    ensures Succeeds(s, End)
  {
  }

  lemma KeepSucceeds(s: State)
    requires s.newtask == None && |s.tasks| >= 2 && Current(s).mark == None
    ensures Succeeds(s, KeepCaller) && Succeeds(Kept(s, |s.tasks| - 2), End)
  {
    EndSucceeds(Kept(s, |s.tasks| - 2));
  }

  // ---- A builtin one of whose arguments makes a pfile be loaded.

  function LoadedExample(): State {
    CalledExample().(top := 16, pfiles := [Chain(12, [14]), Chain(10, []), Chain(2, [4])])
  }

  lemma LoadStep()
    ensures Succeeds(CalledExample(), Load(FileSize(2, [2])))
    ensures Next(CalledExample(), Load(FileSize(2, [2]))) == LoadedExample()
  {
    var loaded := CalledExample().(top := 14, pfiles := [Chain(12, [])] + CalledExample().pfiles);
    assert NewFile(CalledExample(), 2) == Outcome(true, loaded);
    assert AddLast(loaded.pfiles, 12, 14) == LoadedExample().pfiles by { assert [] + [14] == [14]; }
    assert NewParam(loaded, 12, 2) == Outcome(true, LoadedExample());
    assert [2][1..] == [];
    assert NewParams(loaded, 12, [2]) == Outcome(true, LoadedExample());
  }

  /** The builtin unlinks the file that was loaded. Its own one stays on the list, but lies above the top, where
      the builtin goes on to make its definitions. */
  lemma LoadingArgument()
    ensures var steps := [Prepare(2), Load(FileSize(2, [2]))];
            && AllSucceed(Login(), steps)
            && RunOf(Login(), steps) == LoadedExample()
            && LoadedExample().newtask == Some(Fake(10)) && Tidy(LoadedExample())
    ensures var started := StartedBuiltin(LoadedExample());
            started.top == 10 && started.pfiles == [Chain(10, []), Chain(2, [4])] && !Tidy(started)
  {
    assert LoadedExample().pfiles[1..] == [Chain(10, []), Chain(2, [4])];
    assert StartedBuiltin(LoadedExample()).pfiles[0].at == 10;
    LoadingRun();
  }

  lemma LoadingRun()
    ensures AllSucceed(Login(), [Prepare(2), Load(FileSize(2, [2]))])
    ensures RunOf(Login(), [Prepare(2), Load(FileSize(2, [2]))]) == LoadedExample()
  {
    hide Next, Succeeds, RunOf, AllSucceed, LoadedExample;
    var load := Load(FileSize(2, [2]));
    CallStep();
    LoadStep();
    OneStep(CalledExample(), load);
    Cons(Login(), Prepare(2), [load]);
    assert [Prepare(2)] + [load] == [Prepare(2), load];
  }

  // ---- A cl that is run by a script called by a script, with a pfile loaded before it starts.

  function First(mark: nat): Task {
    Task(Some(mark), 0, true, Some(2))
  }

  function Script1(): State {
    State([First(10), Task(None, 1, false, Some(10))], None, false, 16, 100, [Chain(0, [])],
          [Chain(10, [12, 14]), Chain(2, [4])])
  }

  function Called2(): State {
    State([First(10), Task(Some(16), 1, false, Some(10))], Some(Fake(16)), false, 18, 100, [Chain(0, [])],
          [Chain(16, []), Chain(10, [12, 14]), Chain(2, [4])])
  }

  function Script2(): State {
    State([First(10), Task(Some(16), 1, false, Some(10)), Task(None, 2, false, Some(16))], None, false, 22, 100,
          [Chain(0, [])], [Chain(16, [18, 20]), Chain(10, [12, 14]), Chain(2, [4])])
  }

  function ClCalled(): State {
    Script2().(newtask := Some(Cl),
               tasks := [First(10), Task(Some(16), 1, false, Some(10)), Task(Some(22), 2, false, Some(16))])
  }

  function ClLoaded(): State {
    ClCalled().(top := 26, pfiles := [Chain(22, [24])] + Script2().pfiles)
  }

  /** Two params for a fresh pfile. */
  lemma TwoParams(s: State, own: int, rest: seq<Chain>)
    requires s.pfiles == [Chain(own, [])] + rest && s.top % 2 == 0 && s.top + 4 <= s.maxd
    requires forall i :: 0 <= i < |rest| ==> rest[i].at != own
    ensures NewParams(s, own, [2, 2])
         == Outcome(true, s.(top := s.top + 4, pfiles := [Chain(own, [s.top, s.top + 2])] + rest))
  {
    var one := s.(top := s.top + 2, pfiles := [Chain(own, [s.top])] + rest);
    var two := s.(top := s.top + 4, pfiles := [Chain(own, [s.top, s.top + 2])] + rest);
    assert AddLast(s.pfiles, own, s.top) == one.pfiles by { assert [] + [s.top] == [s.top]; }
    assert AddLast(one.pfiles, own, s.top + 2) == two.pfiles by { assert [s.top] + [s.top + 2] == [s.top, s.top + 2]; }
    assert NewParam(s, own, 2) == Outcome(true, one) && NewParam(one, own, 2) == Outcome(true, two);
    assert [2, 2][1..] == [2] && [2][1..] == [];
    assert NewParams(one, own, [2]) == Outcome(true, two);
  }

  lemma ScriptStep1()
    ensures Succeeds(CalledExample(), StartTask([2, 2], 1)) && Next(CalledExample(), StartTask([2, 2], 1)) == Script1()
  {
    TwoParams(CalledExample(), 10, [Chain(2, [4])]);
  }

  lemma CallStep2()
    ensures Succeeds(Script1(), Prepare(2)) && Next(Script1(), Prepare(2)) == Called2()
  {
  }

  lemma ScriptStep2()
    ensures Succeeds(Called2(), StartTask([2, 2], 2)) && Next(Called2(), StartTask([2, 2], 2)) == Script2()
  {
    TwoParams(Called2(), 16, [Chain(10, [12, 14]), Chain(2, [4])]);
  }

  lemma ClStep()
    ensures Succeeds(Script2(), PrepareCl) && Next(Script2(), PrepareCl) == ClCalled()
  {
  }

  lemma ClLoadStep()
    ensures Succeeds(ClCalled(), Load(FileSize(2, [2]))) && Next(ClCalled(), Load(FileSize(2, [2]))) == ClLoaded()
  {
    var loaded := ClCalled().(top := 24, pfiles := [Chain(22, [])] + ClCalled().pfiles);
    assert NewFile(ClCalled(), 2) == Outcome(true, loaded);
    assert AddLast(loaded.pfiles, 22, 24) == ClLoaded().pfiles by { assert [] + [24] == [24]; }
    assert NewParam(loaded, 22, 2) == Outcome(true, ClLoaded());
    assert [2][1..] == [];
    assert NewParams(loaded, 22, [2]) == Outcome(true, ClLoaded());
  }

  function ClRun(): seq<Step> {
    [Prepare(2), StartTask([2, 2], 1), Prepare(2), StartTask([2, 2], 2), PrepareCl, Load(FileSize(2, [2]))]
  }

  /** The implicit keep raises the mark of the first script above that of the second one. */
  lemma ImplicitKeep()
    ensures AllSucceed(Login(), ClRun()) && RunOf(Login(), ClRun()) == ClLoaded() && Orderly(ClLoaded())
    ensures var o := StartedCl(ClLoaded(), None, 2, false, true);
            o.ok && o.s.tasks[1].mark == Some(26) && o.s.tasks[2].mark == Some(22) && !Orderly(o.s)
  {
    CallStep();
    ScriptStep1();
    CallStep2();
    ScriptStep2();
    ClStep();
    ClLoadStep();
    hide Next, Succeeds, RunOf, AllSucceed;
    var load := [Load(FileSize(2, [2]))];
    OneStep(ClCalled(), load[0]);
    Cons(Script2(), PrepareCl, load);
    Cons(Called2(), StartTask([2, 2], 2), [PrepareCl] + load);
    Cons(Script1(), Prepare(2), [StartTask([2, 2], 2)] + ([PrepareCl] + load));
    Cons(CalledExample(), StartTask([2, 2], 1), [Prepare(2)] + ([StartTask([2, 2], 2)] + ([PrepareCl] + load)));
    Cons(Login(), Prepare(2),
         [StartTask([2, 2], 1)] + ([Prepare(2)] + ([StartTask([2, 2], 2)] + ([PrepareCl] + load))));
    assert ClRun() == [Prepare(2)] + ([StartTask([2, 2], 1)]
                      + ([Prepare(2)] + ([StartTask([2, 2], 2)] + ([PrepareCl] + load))));
  }
}
