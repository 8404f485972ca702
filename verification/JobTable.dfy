/** The table of background jobs, with its circular search for a slot. */
module JobTable {
  const NBKG: nat := 32

  /** A slot: the number that the system gave the job, the flags of its state, and its exit status. */
  datatype Job = Job(jobno: int, running: bool, service: bool, killed: bool, exitcode: int)

  /** What a look at the system shows of a job: whether it is done, whether it waits for an answer to a
      query, and its exit status. */
  datatype Look = Look(done: bool, waiting: bool, exitcode: int)

  predicate IsSlot(j: int) {
    1 <= j <= NBKG
  }

  /** How far slot j comes after the last one used, going round. */
  function After(last: int, j: int): int {
    if j > last then j - last else j + NBKG - last
  }

  /** Only slots are busy, and none is busy as long as no slot has been used. */
  predicate Sound(busy: set<int>, last: int) {
    0 <= last <= NBKG && (forall j :: j in busy ==> IsSlot(j)) && (last == 0 ==> busy == {})
  }

  predicate IsRunning(jobs: seq<Job>, j: int) {
    IsSlot(j) && j <= |jobs| && jobs[j - 1].running
  }

  ghost function BusySlots(jobs: seq<Job>): set<int> {
    set j | 1 <= j <= NBKG && IsRunning(jobs, j)
  }

  // ---- The jobs as an abstract machine: which slots are busy, and which was used last.

  datatype Slots = Slots(busy: set<int>, last: int)

  datatype Event =
    | SpawnJob(looks: seq<Look>, pid: int)
    | UpdateJobs(looks: seq<Look>)
    | KillJobs(job: int, looks: seq<Look>, gone: seq<bool>)

  predicate Fits(e: Event) {
    |e.looks| == NBKG && (e.KillJobs? ==> |e.gone| == NBKG)
  }

  /** The slot d places after the last one. */
  function SlotAt(last: int, d: int): int {
    if last + d <= NBKG then last + d else last + d - NBKG
  }

  /** The first idle slot from d places after the last one on, going round; the last one if there is none. */
  function FirstIdle(busy: set<int>, last: int, d: nat): int
    decreases NBKG - d
  {
    if d >= NBKG || SlotAt(last, d) !in busy then SlotAt(last, d) else FirstIdle(busy, last, d + 1)
  }

  /** The jobs that are not done. */
  function Still(busy: set<int>, looks: seq<Look>): set<int>
    requires |looks| == NBKG
  {
    set j | j in busy && IsSlot(j) && !looks[j - 1].done
  }

  /** What an event makes of the slots, and what a spawn comes to. */
  function Next(s: Slots, e: Event): (Slots, Spawned)
    requires Fits(e)
  {
    var still := Still(s.busy, e.looks);
    match e
    case SpawnJob(_, pid) =>
      var slot := FirstIdle(still, s.last, 1);
      if slot == s.last then (Slots(still, s.last), NoSlots)
      else if pid == 0 then (Slots(still, s.last), CannotSpawn)
      else (Slots(still + {slot}, slot), Started(slot))
    case UpdateJobs(_) => (Slots(still, s.last), NoSpawn)
    case KillJobs(job, _, _) =>
      (Slots(if job < 0 || job > NBKG then still else if job == 0 then {} else still - {job}, s.last), NoSpawn)
  }

  /** The states and answers of a run. */
  function RunOf(s: Slots, events: seq<Event>): (Slots, seq<Spawned>)
    requires forall i :: 0 <= i < |events| ==> Fits(events[i])
  {
    if events == [] then (s, [])
    else
      var (before, answers) := RunOf(s, events[..|events| - 1]);
      var (after, answer) := Next(before, events[|events| - 1]);
      (after, answers + [answer])
  }

  /** The search finds the first idle slot, going round, apart from the last one used; it finds that one
      exactly if all others are busy. */
  lemma {:induction false} FirstIdleIsFirst(busy: set<int>, last: int, d: nat)
    requires Sound(busy, last) && 1 <= d <= NBKG && (last == 0 ==> d == 1)
    requires forall i :: IsSlot(i) && i != last && After(last, i) < d ==> i in busy
    ensures var j := FirstIdle(busy, last, d);
            && (j != last ==> IsSlot(j) && j !in busy)
            && (forall i :: IsSlot(i) && i != last && After(last, i) < After(last, j) ==> i in busy)
            && (j == last <==> forall i :: IsSlot(i) && i != last ==> i in busy)
    decreases NBKG - d
  {
    var j := SlotAt(last, d);
    assert last > 0 ==> After(last, j) == d;
    if d < NBKG && j in busy {
      assert forall i :: IsSlot(i) && i != last && After(last, i) == d ==> i == j;
      FirstIdleIsFirst(busy, last, d + 1);
    }
  }

  // ---- The steps of the search.

  lemma IdleFirst(busy: set<int>, last: int)
    requires Sound(busy, last)
    ensures 0 <= last <= NBKG && (last == 0 ==> 1 !in busy)
    ensures After(last, if last == NBKG then 1 else last + 1) == 1
  {
  }

  lemma IdleFurther(busy: set<int>, last: int, slot: int)
    requires 0 < last <= NBKG && IsSlot(slot) && slot != last && slot in busy
    ensures var next := if slot >= NBKG then 1 else slot + 1;
            && After(last, next) == After(last, slot) + 1 <= NBKG
            && FirstIdle(busy, last, After(last, slot)) == FirstIdle(busy, last, After(last, next))
  {
    assert SlotAt(last, After(last, slot)) == slot;
  }

  lemma IdleHere(busy: set<int>, last: int, slot: int)
    requires 0 <= last <= NBKG && IsSlot(slot) && (slot == last || slot !in busy)
    ensures FirstIdle(busy, last, After(last, slot)) == slot
  {
  }

  lemma IdleSlot(busy: set<int>, last: int)
    requires Sound(busy, last)
    ensures var j := FirstIdle(busy, last, 1); j != last ==> IsSlot(j) && j !in busy
  {
    FirstIdleIsFirst(busy, last, 1);
  }

  /** No event gives a busy slot away or breaks the rule that none is busy before the first job. */
  lemma NextIsSound(s: Slots, e: Event)
    requires Sound(s.busy, s.last) && Fits(e)
    ensures var (after, answer) := Next(s, e);
            && Sound(after.busy, after.last)
            && (answer.Started? ==> answer.slot !in Still(s.busy, e.looks) && answer.slot != s.last
                                    && after.busy == Still(s.busy, e.looks) + {answer.slot}
                                    && after.last == answer.slot)
            && (answer.NoSlots? ==> forall j :: IsSlot(j) && j != s.last ==> j in Still(s.busy, e.looks))
            && (answer.NoSlots? || answer.CannotSpawn? ==> after == Slots(Still(s.busy, e.looks), s.last))
            && (e.SpawnJob? ==> !answer.NoSpawn? && (answer.CannotSpawn? <==> !answer.NoSlots? && e.pid == 0))
  {
    FirstIdleIsFirst(Still(s.busy, e.looks), s.last, 1);
  }

  /** A kill ends the job that is named, or all jobs, and no others; an update ends those that are done. */
  lemma KillIs(s: Slots, job: int, looks: seq<Look>, gone: seq<bool>, j: int)
    requires |looks| == |gone| == 32 && (j in s.busy ==> IsSlot(j))
    ensures j in Next(s, KillJobs(job, looks, gone)).0.busy <==>
              j in s.busy && !looks[j - 1].done && job != 0 && job != j
    ensures j in Next(s, UpdateJobs(looks)).0.busy <==> j in s.busy && !looks[j - 1].done
    ensures Next(s, KillJobs(job, looks, gone)).0.last == Next(s, UpdateJobs(looks)).0.last == s.last
  {
  }

  /** The answer to event k of a run: a job that starts gets a slot that is idle then, and it is told that
      there is no slot only if all slots but the last one used are busy then. */
  ghost predicate RightlyAnswered(s: Slots, events: seq<Event>, k: nat)
    requires k < |events| && forall i :: 0 <= i < |events| ==> Fits(events[i])
  {
    var before, answers := RunOf(s, events[..k]).0, RunOf(s, events).1;
    var busy := Still(before.busy, events[k].looks);
    && |answers| == |events|
    && (answers[k].Started? ==> IsSlot(answers[k].slot) && answers[k].slot !in busy
                                && RunOf(s, events[..k + 1]).0 == Slots(busy + {answers[k].slot}, answers[k].slot))
    && (answers[k].NoSlots? ==> forall j :: IsSlot(j) && j != before.last ==> j in busy)
  }

  /** Over all runs, the table stays sound and every answer is right. */
  lemma {:induction false} RunIsSound(s: Slots, events: seq<Event>)
    requires Sound(s.busy, s.last) && forall i :: 0 <= i < |events| ==> Fits(events[i])
    ensures var after := RunOf(s, events).0; Sound(after.busy, after.last)
    ensures |RunOf(s, events).1| == |events|
    ensures forall k :: 0 <= k < |events| ==> RightlyAnswered(s, events, k)
    decreases |events|
  {
    NoRun(s);
    hide Next, RunOf, RightlyAnswered, Sound, Fits;
    if events != [] {
      var n := |events| - 1;
      var front := events[..n];
      RunIsSound(s, front);
      LastAnswer(s, events, n);
      forall k | 0 <= k < n ensures RightlyAnswered(s, events, k) {
        assert RightlyAnswered(s, front, k);
        EarlierAnswer(s, events, n, k);
      }
    }
  }

  lemma NoRun(s: Slots)
    ensures RunOf(s, []) == (s, [])
  {
  }

  lemma LastAnswer(s: Slots, events: seq<Event>, n: nat)
    requires |events| == n + 1 && forall i :: 0 <= i < |events| ==> Fits(events[i])
    requires var before := RunOf(s, events[..n]).0; Sound(before.busy, before.last) && |RunOf(s, events[..n]).1| == n
    ensures RightlyAnswered(s, events, n) && |RunOf(s, events).1| == n + 1
    ensures var after := RunOf(s, events).0; Sound(after.busy, after.last)
  {
    hide Next;
    assert events[..n + 1] == events;
    NextIsSound(RunOf(s, events[..n]).0, events[n]);
  }

  lemma EarlierAnswer(s: Slots, events: seq<Event>, n: nat, k: nat)
    requires |events| == n + 1 && k < n && forall i :: 0 <= i < |events| ==> Fits(events[i])
    requires RightlyAnswered(s, events[..n], k)
    ensures RightlyAnswered(s, events, k)
  {
    hide Next;
    assert events[..n][..k] == events[..k] && events[..n][..k + 1] == events[..k + 1];
  }

  datatype Spawned = Started(slot: int) | NoSlots | CannotSpawn | NoSpawn

  class Jobs {
    const table: array<Job>
    var lastjobno: int

    predicate Busy(j: int)
      requires table.Length == NBKG && IsSlot(j)
      reads table
    {
      table[j - 1].running
    }

    ghost function Running(): set<int>
      requires table.Length == NBKG
      reads table
    {
      BusySlots(table[..])
    }

    ghost predicate Valid()
      reads this, table
    {
      table.Length == NBKG && Sound(Running(), lastjobno)
    }

    constructor ()
      ensures Valid() && fresh(table) && Running() == {} && lastjobno == 0
    {
      table := new Job[NBKG](_ => Job(0, false, false, false, 0));
      lastjobno := 0;
    }

    ghost function Now(): Slots
      requires table.Length == NBKG
      reads this, table
    {
      Slots(Running(), lastjobno)
    }

    /** The first idle slot after the last one used, going round, or the last one used if there is none. */
    method FindSlot() returns (slot: int)
      requires Valid()
      ensures slot == FirstIdle(Running(), lastjobno, 1) && (slot != lastjobno ==> IsSlot(slot))
    {
      hide Sound, FirstIdle, Running;
      ghost var busy := Running();
      IdleFirst(busy, lastjobno);
      slot := if lastjobno == NBKG then 1 else lastjobno + 1;
      BusyIsIn(slot);
      while slot != lastjobno && Busy(slot)
        invariant IsSlot(slot) && (Busy(slot) <==> slot in busy) && (lastjobno == 0 ==> slot == 1)
        invariant FirstIdle(busy, lastjobno, 1) == FirstIdle(busy, lastjobno, After(lastjobno, slot))
        decreases NBKG - After(lastjobno, slot)
      {
        IdleFurther(busy, lastjobno, slot);
        slot := if slot >= NBKG then 1 else slot + 1;
        BusyIsIn(slot);
      }
      IdleHere(busy, lastjobno, slot);
    }

    lemma BusyIsIn(j: int)
      requires table.Length == NBKG && IsSlot(j)
      ensures Busy(j) <==> j in Running()
    {
    }

    /** Start a job; looks is what the update before it sees, and pid what the system answers (0 if it fails). */
    method Spawn(looks: seq<Look>, pid: int) returns (r: Spawned)
      requires Valid() && |looks| == NBKG
      modifies this, table
      ensures Valid()
      ensures Next(old(Now()), SpawnJob(looks, pid)) == (Now(), r)
      ensures r.Started? ==> table[r.slot - 1].jobno == pid
    {
      hide Sound, FirstIdle, Still, BusySlots;
      Update(looks);
      ghost var still, before := Running(), table[..];
      NextIsSound(old(Now()), SpawnJob(looks, pid));
      var slot := FindSlot();
      if slot == lastjobno {
        return NoSlots;
      }
      BusyIsIn(slot);
      IdleSlot(still, lastjobno);
      table[slot - 1] := table[slot - 1].(jobno := pid);
      SlotIsSet(before, table[..], slot);
      before := table[..];
      if pid == 0 {
        return CannotSpawn;
      }
      table[slot - 1] := table[slot - 1].(running := true, service := false, killed := false);
      SlotIsSet(before, table[..], slot);
      lastjobno := slot;
      r := Started(slot);
    }

    /** See which jobs are done and which ones wait for service. */
    method Update(looks: seq<Look>)
      requires Valid() && |looks| == NBKG
      modifies table
      ensures Valid()
      ensures Running() == Still(old(Running()), looks)
      ensures forall j :: j in old(Running()) && looks[j - 1].done ==> table[j - 1].exitcode == looks[j - 1].exitcode
      ensures forall j :: j in old(Running()) && !looks[j - 1].done ==> (table[j - 1].service <==> looks[j - 1].waiting)
      ensures forall j :: IsSlot(j) && j !in old(Running()) ==> table[j - 1] == old(table[j - 1])
    {
      for j := 1 to NBKG + 1
        invariant forall k :: IsSlot(k) && k >= j ==> table[k - 1] == old(table[k - 1])
        invariant forall k :: IsSlot(k) && k < j ==> table[k - 1] == Seen(old(table[k - 1]), looks[k - 1])
      {
        if Busy(j) {
          if looks[j - 1].done {
            Close(j, looks[j - 1].exitcode);
          } else {
            table[j - 1] := table[j - 1].(service := looks[j - 1].waiting);
          }
        }
      }
      RunningIs(table, Still(old(Running()), looks));
    }

    /** A job has ended. */
    method Close(job: int, exitcode: int)
      requires table.Length == NBKG && IsSlot(job)
      modifies table
      ensures table[job - 1] == old(table[job - 1]).(running := false, service := false, exitcode := exitcode)
      ensures forall j :: IsSlot(j) && j != job ==> table[j - 1] == old(table[j - 1])
    {
      table[job - 1] := table[job - 1].(exitcode := exitcode, running := false, service := false);
    }

    /** Kill a job, or all jobs if job is 0. */
    method Kill(job: int, looks: seq<Look>, gone: seq<bool>) returns (ok: bool)
      requires Valid() && |looks| == |gone| == NBKG
      modifies table
      ensures Valid()
      ensures ok <==> 0 <= job <= NBKG
      ensures 1 <= job <= 32 ==> !table[job - 1].running
      ensures job == 0 ==> forall j :: IsSlot(j) ==> !table[j - 1].running
      ensures lastjobno == old(lastjobno) && Next(old(Now()), KillJobs(job, looks, gone)) == (Now(), NoSpawn)
    {
      Update(looks);
      ghost var still := Running();
      ghost var before := table[..];
      ok := 0 <= job <= NBKG;
      if ok {
        for j := 1 to NBKG + 1
          invariant forall k :: IsSlot(k) && k >= j ==> table[k - 1] == before[k - 1]
          invariant forall k :: IsSlot(k) && k < j ==>
                      (table[k - 1].running <==> before[k - 1].running && job != 0 && job != k)
        {
          if (job == 0 && Busy(j)) || job == j {
            if Busy(j) {
              if !gone[j - 1] {
                table[j - 1] := table[j - 1].(killed := true);
              }
              Close(j, looks[j - 1].exitcode);
            }
          }
        }
      }
      RunningIs(table, if !ok then still else if job == 0 then {} else still - {job});
    }

    /** Any sequence of events goes as it does for the abstract slots. */
    method Serve(events: seq<Event>) returns (answers: seq<Spawned>)
      requires Valid() && forall i :: 0 <= i < |events| ==> Fits(events[i])
      modifies this, table
      ensures Valid() && RunOf(old(Now()), events) == (Now(), answers)
    {
      answers := [];
      var i := 0;
      while i < |events|
        invariant 0 <= i <= |events| && Valid() && RunOf(old(Now()), events[..i]) == (Now(), answers)
      {
        assert events[..i + 1][..i] == events[..i];
        var answer := NoSpawn;
        match events[i] {
          case SpawnJob(looks, pid) => answer := Spawn(looks, pid);
          case UpdateJobs(looks) => Update(looks);
          case KillJobs(job, looks, gone) => var ok := Kill(job, looks, gone);
        }
        answers := answers + [answer];
        i := i + 1;
      }
      assert events[..|events|] == events;
    }
  }

  /** What an update makes of a slot. */
  function Seen(j: Job, l: Look): Job {
    if !j.running then j
    else if l.done then j.(exitcode := l.exitcode, running := false, service := false)
    else j.(service := l.waiting)
  }

  lemma SlotIsSet(before: seq<Job>, after: seq<Job>, j: int)
    requires |before| == |after| == NBKG && IsSlot(j) && after == before[j - 1 := after[j - 1]]
    ensures BusySlots(after) == if after[j - 1].running then BusySlots(before) + {j} else BusySlots(before) - {j}
    ensures j !in BusySlots(before) && !after[j - 1].running ==> BusySlots(after) == BusySlots(before)
  {
    assert forall i :: i != j ==> (IsRunning(after, i) <==> IsRunning(before, i));
  }

  lemma RunningIs(table: array<Job>, s: set<int>)
    requires table.Length == NBKG && (forall j :: j in s ==> IsSlot(j))
    requires forall j :: IsSlot(j) ==> (table[j - 1].running <==> j in s)
    ensures BusySlots(table[..]) == s
  {
    assert forall j :: IsRunning(table[..], j) <==> j in s;
  }
}
