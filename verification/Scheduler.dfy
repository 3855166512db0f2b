/**
 Starting and reaping jobs (run_threads and reap_threads in fio/backend.c),
 with the jobs' own state changes interleaved at every point.

 `nr_started` and `nr_running` gate stonewall jobs: such a job may be created
 only when both are zero.  The model follows the main thread through its
 passes: create, wait for the created jobs to initialise, start them, reap.
 Delays, wait_for fences, failed thread creation, a hung startup, jobs that
 exit early, processes that die and terminations are all free choices of the
 environment.  A job raises startup_sem only after it has become initialised
 and then sleeps until main starts it, so main gets past its wait for a job
 only when that job is initialised.
 */
module Scheduler {
  import opened Common
  import opened Sums

  datatype RunState = NotCreated | Created | Initialized | Running | Exited | Reaped

  // The last five fields record history: whether pthread_create failed for the
  // job, whether it was ever created, whether it is part of nr_started and of
  // nr_running, and how often a pass skipped it because it was terminated.
  datatype Job = Job(
    state: RunState,
    stonewall: bool,
    group: nat,
    exitAll: bool,             // exit_what=all
    delayed: bool,             // start_delay not over
    fenced: bool,              // the job it waits for is running
    terminate: bool,
    stillborn: bool,
    created: bool,
    started: bool,
    counted: bool,
    passes: nat)

  datatype Main =
    | Creating(i: nat, batch: set<nat>)      // the for_each_td of a pass; batch is map[]
    | Startup(i: nat, batch: set<nat>)       // in fio_sem_down_timeout(startup_sem)
    | Waiting(pending: set<nat>)             // non-NULL entries of map[]
    | Starting(i: nat)
    | Reaping(i: nat)
    | EndOfPass
    | Draining                               // at the test of while (nr_running): nothing is created any more
    | Sweeping(i: nat)                       // in the reap_threads of that loop
    | Finished

  // `todo` is kept unreduced and taken modulo 2^32 where the code tests it.
  datatype State = State(jobs: seq<Job>, main: Main, nrStarted: int, nrRunning: int, todo: int)

  function SetJob(s: State, i: nat, j: Job): State
    requires i < |s.jobs|
  {
    s.(jobs := s.jobs[i := j])
  }

  // A job that has been created and not reaped.
  predicate Live(j: Job) { j.created && j.state != Reaped }

  // ---------------------------------------------------------------- steps

  // What job i does by itself.
  ghost predicate JobStep(s: State, s': State, i: nat) {
    && i < |s.jobs|
    && var j := s.jobs[i];
       || (j.state == Created && !j.stillborn && s' == SetJob(s, i, j.(state := Initialized)))
       || (j.state == Created && !j.stillborn && s' == SetJob(s, i, j.(state := Exited)))
       || (j.state == Running && s' == SetJob(s, i, j.(state := Exited)))
  }

  // Running job i, or the steady-state check on its behalf, terminates job k:
  // one of its group, one that has run, or any if it is told to end them all.
  ghost predicate MarkStep(s: State, s': State, i: nat, k: nat) {
    && i < |s.jobs| && k < |s.jobs| && s.jobs[i].state == Running
    && (s.jobs[i].exitAll || s.jobs[i].group == s.jobs[k].group || s.jobs[k].state in {Running, Exited, Reaped})
    && s' == SetJob(s, k, s.jobs[k].(terminate := true))
  }

  // A delay runs out, or the job waited for is gone.
  ghost predicate ElapseStep(s: State, s': State, i: nat) {
    && i < |s.jobs|
    && (s' == SetJob(s, i, s.jobs[i].(delayed := false)) || s' == SetJob(s, i, s.jobs[i].(fenced := false)))
  }

  // A signal, or the end of all real jobs, terminates every job.
  predicate MarkAllStep(s: State, s': State) {
    s' == s.(jobs := seq(|s.jobs|, i requires 0 <= i < |s.jobs| => s.jobs[i].(terminate := true)))
  }

  predicate Gate(s: State) { s.nrStarted != 0 || s.nrRunning != 0 }

  // td_set_runstate(td, TD_CREATED) with its bookkeeping.
  function Create(s: State, i: nat): State
    requires i < |s.jobs| && s.main.Creating?
  {
    SetJob(s, i, s.jobs[i].(state := Created, created := true, started := true))
      .(nrStarted := s.nrStarted + 1, main := Startup(i, s.main.batch + {i}))
  }

  // One iteration of the creation loop.
  ghost predicate CreateStep(s: State, s': State) {
    && s.main.Creating?
    && var i := s.main.i;
       if i >= |s.jobs| then s' == s.(main := Waiting(s.main.batch))
       else
         var j := s.jobs[i];
         var skip := s.(main := Creating(i + 1, s.main.batch));
         if j.state != NotCreated then s' == skip
         else if j.terminate then s' == SetJob(skip, i, j.(passes := j.passes + 1)).(todo := s.todo - 1)
         else if j.delayed then s' == skip
         else if j.stonewall && Gate(s) then s' == s.(main := Waiting(s.main.batch))
         else if j.fenced then s' == skip
         else s' == Create(s, i)
  }

  // pthread_create fails, startup_sem times out, or the job is on its way.
  ghost predicate StartupStep(s: State, s': State) {
    && s.main.Startup? && s.main.i < |s.jobs|
    && var i, batch := s.main.i, s.main.batch;
       || (s.jobs[i].state == Initialized && s' == s.(main := Creating(i + 1, batch)))
       || (&& s.jobs[i].state == Created
           && s' == SetJob(s, i, s.jobs[i].(stillborn := true, started := false))
                      .(nrStarted := s.nrStarted - 1, main := Waiting(batch)))
       || s' == SetJob(s, i, s.jobs[i].(started := false)).(nrStarted := s.nrStarted - 1, main := Draining)
  }

  ghost predicate WaitStep(s: State, s': State) {
    && s.main.Waiting?
    && var pending := s.main.pending;
       if pending == {} then s' == s.(main := Starting(0))
       else
         || s' == s.(main := Draining)                     // timeout: jobs failed to start
         || exists k :: Poll(s, s', k)
  }

  // One look at map[k].
  ghost predicate Poll(s: State, s': State, k: nat) {
    && s.main.Waiting? && k in s.main.pending && k < |s.jobs|
    && var rest := s.(main := Waiting(s.main.pending - {k}));
       if s.jobs[k].state == Initialized then s' == rest
       else s.jobs[k].state in {Exited, Reaped} &&
            s' == SetJob(rest, k, s.jobs[k].(counted := true))
                    .(nrRunning := s.nrRunning + 1, todo := s.todo - 1)
  }

  ghost predicate StartStep(s: State, s': State) {
    && s.main.Starting?
    && var i := s.main.i;
       if i >= |s.jobs| then s' == s.(main := Reaping(0))
       else
         var next := s.(main := Starting(i + 1));
         if s.jobs[i].state != Initialized then s' == next
         else s' == SetJob(next, i, s.jobs[i].(state := Running, started := false, counted := true))
                      .(nrRunning := s.nrRunning + 1, nrStarted := s.nrStarted - 1, todo := s.todo - 1)
  }

  // A job without a pid (never created) or already reaped is passed over; any
  // other may be found exited, or be a process that is gone.
  ghost predicate ReapStep(s: State, s': State) {
    && s.main.Reaping?
    && var i := s.main.i;
       if i >= |s.jobs| then s' == s.(main := EndOfPass)
       else
         var next := s.(main := Reaping(i + 1));
         || s' == next
         || (Live(s.jobs[i]) &&
             s' == SetJob(next, i, s.jobs[i].(state := Reaped, counted := false)).(nrRunning := s.nrRunning - 1))
  }

  ghost predicate PassStep(s: State, s': State) {
    s.main.EndOfPass? && s' == s.(main := if s.todo % UINT_MOD != 0 then Creating(0, {}) else Draining)
  }

  ghost predicate DrainStep(s: State, s': State) {
    match s.main
    case Draining => s' == s.(main := if s.nrRunning % UINT_MOD != 0 then Sweeping(0) else Finished)
    case Sweeping(i) =>
      if i >= |s.jobs| then s' == s.(main := Draining)
      else
        var next := s.(main := Sweeping(i + 1));
        || s' == next
        || (Live(s.jobs[i]) &&
            s' == SetJob(next, i, s.jobs[i].(state := Reaped, counted := false)).(nrRunning := s.nrRunning - 1))
    case _ => false
  }

  // No job is created any more.
  predicate Over(main: Main) { main.Draining? || main.Sweeping? || main.Finished? }

  ghost predicate MainStep(s: State, s': State) {
    || CreateStep(s, s') || StartupStep(s, s') || WaitStep(s, s') || StartStep(s, s')
    || ReapStep(s, s') || PassStep(s, s') || DrainStep(s, s')
  }

  ghost predicate OutsideStep(s: State, s': State) {
    MarkAllStep(s, s') || (exists i, k :: MarkStep(s, s', i, k)) || (exists i :: ElapseStep(s, s', i))
  }

  ghost predicate Next(s: State, s': State) {
    MainStep(s, s') || (exists i :: JobStep(s, s', i)) || OutsideStep(s, s')
  }

  // After file setup: jobs whose setup failed are already reaped.
  ghost predicate Init(s: State) {
    && s.main == EndOfPass && s.nrStarted == 0 && s.nrRunning == 0
    && s.todo == Sum(OwedFlags(s.jobs))
    && forall i :: 0 <= i < |s.jobs| ==>
         && (s.jobs[i].state == NotCreated || s.jobs[i].state == Reaped)
         && !s.jobs[i].stillborn && !s.jobs[i].created && !s.jobs[i].started
         && !s.jobs[i].counted && s.jobs[i].passes == 0
  }

  ghost predicate Run(run: seq<State>) {
    |run| > 0 && Init(run[0]) && forall k :: 0 <= k < |run| - 1 ==> Next(run[k], run[k + 1])
  }

  // ------------------------------------------------------------ invariant

  function StartedFlags(jobs: seq<Job>): (f: seq<nat>) {
    seq(|jobs|, i requires 0 <= i < |jobs| => One(jobs[i].started))
  }

  function CountedFlags(jobs: seq<Job>): (f: seq<nat>) {
    seq(|jobs|, i requires 0 <= i < |jobs| => One(jobs[i].counted))
  }

  // Jobs still to be created or started.
  predicate Owed(j: Job) { j.state == NotCreated || j.started }

  function OwedFlags(jobs: seq<Job>): (f: seq<nat>) {
    seq(|jobs|, i requires 0 <= i < |jobs| => One(Owed(jobs[i])))
  }

  function Passes(jobs: seq<Job>): (f: seq<nat>) {
    seq(|jobs|, i requires 0 <= i < |jobs| => jobs[i].passes)
  }

  // A created job that main has not started yet, by where main is.
  predicate Unstarted(main: Main, k: nat, j: Job) {
    match main
    case Creating(_, batch) => k in batch
    case Startup(_, batch) => k in batch
    case Waiting(pending) => k in pending || j.state == Initialized
    case Starting(i) => j.state == Initialized && k >= i
    case _ => false
  }

  predicate JobOk(main: Main, k: nat, j: Job) {
    && !j.stillborn
    && (!j.created ==> j.state in {NotCreated, Reaped} && !j.started && !j.counted)
    && (j.created ==> j.state != NotCreated)
    && (j.state == Running ==> j.counted)
    && (j.counted ==> j.state in {Running, Exited})
    && (j.started <==> Live(j) && Unstarted(main, k, j))
    && (Live(j) ==> j.counted || Unstarted(main, k, j))
    && (Live(j) && Unstarted(main, k, j) ==> !j.counted)
    && (main.Startup? && main.i == k ==> k in main.batch)
    && (InBatch(main, k) ==> Live(j) && (j.state == Initialized || (main.Startup? && main.i == k)))
    && (j.passes > 0 ==> j.state == NotCreated && j.terminate)
  }

  predicate InBatch(main: Main, k: nat) {
    match main
    case Creating(_, batch) => k in batch
    case Startup(_, batch) => k in batch
    case Waiting(pending) => k in pending
    case _ => false
  }

  // The counters are exact, and every created, unreaped job is in one of them.
  ghost predicate Exact(s: State) {
    && s.nrStarted == Sum(StartedFlags(s.jobs))
    && s.nrRunning == Sum(CountedFlags(s.jobs))
    && s.todo == Sum(OwedFlags(s.jobs)) - Sum(Passes(s.jobs))
    && forall k :: 0 <= k < |s.jobs| ==> JobOk(s.main, k, s.jobs[k])
  }

  // A job whose thread could not be created.
  predicate Stillborn(j: Job) { j.stillborn && j.state == Created }

  // Main waits for a job that can never come up: it will break out of the loop.
  ghost predicate Doomed(s: State) {
    && s.main.Waiting?
    && (exists k :: k in s.main.pending && k < |s.jobs| && Stillborn(s.jobs[k]))
    && (forall k :: k in s.main.pending && k < |s.jobs| ==> s.jobs[k].state == Initialized || Stillborn(s.jobs[k]))
  }

  ghost predicate Inv(s: State) {
    Over(s.main) || Doomed(s) || Exact(s)
  }

  lemma FlagsMove(jobs: seq<Job>, i: nat, j: Job)
    requires i < |jobs|
    ensures Sum(StartedFlags(jobs[i := j])) == Sum(StartedFlags(jobs)) - One(jobs[i].started) + One(j.started)
    ensures Sum(CountedFlags(jobs[i := j])) == Sum(CountedFlags(jobs)) - One(jobs[i].counted) + One(j.counted)
    ensures Sum(OwedFlags(jobs[i := j])) == Sum(OwedFlags(jobs)) - One(Owed(jobs[i])) + One(Owed(j))
    ensures Sum(Passes(jobs[i := j])) == Sum(Passes(jobs)) - jobs[i].passes + j.passes
  {
    assert OwedFlags(jobs[i := j]) == OwedFlags(jobs)[i := One(Owed(j))];
    SumUpdate(OwedFlags(jobs), i, One(Owed(j)));
    assert StartedFlags(jobs[i := j]) == StartedFlags(jobs)[i := One(j.started)];
    assert CountedFlags(jobs[i := j]) == CountedFlags(jobs)[i := One(j.counted)];
    SumUpdate(StartedFlags(jobs), i, One(j.started));
    SumUpdate(CountedFlags(jobs), i, One(j.counted));
    assert Passes(jobs[i := j]) == Passes(jobs)[i := j.passes];
    SumUpdate(Passes(jobs), i, j.passes);
  }

  // An initialised job sleeps until main starts it, a stillborn one never wakes.
  lemma JobStepDoomed(s: State, s': State, i: nat)
    requires JobStep(s, s', i) && Doomed(s)
    ensures Doomed(s')
  {
    var k :| k in s.main.pending && k < |s.jobs| && Stillborn(s.jobs[k]);
    assert Stillborn(s'.jobs[k]);
  }

  lemma JobStepExact(s: State, s': State, i: nat)
    requires Exact(s) && JobStep(s, s', i)
    ensures Exact(s')
  {
    FlagsMove(s.jobs, i, s'.jobs[i]);
    assert JobOk(s.main, i, s.jobs[i]);
  }

  lemma JobStepInv(s: State, s': State, i: nat)
    requires Inv(s) && JobStep(s, s', i)
    ensures Inv(s')
  {
    if !Over(s.main) {
      if Doomed(s) {
        JobStepDoomed(s, s', i);
      } else {
        JobStepExact(s, s', i);
      }
    }
  }

  // The marks set from outside: they never take a termination back.
  predicate OnlyMarked(j: Job, j': Job) {
    && j' == j.(terminate := j'.terminate, delayed := j'.delayed, fenced := j'.fenced)
    && (j.terminate ==> j'.terminate)
  }

  lemma OutsideMarks(s: State, s': State)
    requires OutsideStep(s, s')
    ensures s' == s.(jobs := s'.jobs) && |s'.jobs| == |s.jobs|
    ensures forall k :: 0 <= k < |s.jobs| ==> OnlyMarked(s.jobs[k], s'.jobs[k])
  {
  }

  // They change nothing else.
  lemma MarksInv(s: State, s': State)
    requires Inv(s) && s' == s.(jobs := s'.jobs) && |s'.jobs| == |s.jobs|
    requires forall k :: 0 <= k < |s.jobs| ==> OnlyMarked(s.jobs[k], s'.jobs[k])
    ensures Inv(s')
  {
    if Doomed(s) {
      var k :| k in s.main.pending && k < |s.jobs| && Stillborn(s.jobs[k]);
      assert Stillborn(s'.jobs[k]);
      assert Doomed(s');
    } else if !Over(s.main) {
      assert StartedFlags(s'.jobs) == StartedFlags(s.jobs) && CountedFlags(s'.jobs) == CountedFlags(s.jobs);
      assert OwedFlags(s'.jobs) == OwedFlags(s.jobs) && Passes(s'.jobs) == Passes(s.jobs);
      forall k | 0 <= k < |s'.jobs| ensures JobOk(s'.main, k, s'.jobs[k]) {
        assert JobOk(s.main, k, s.jobs[k]);
      }
    }
  }

  lemma CreateExact(s: State)
    requires Exact(s) && s.main.Creating? && s.main.i < |s.jobs| && s.jobs[s.main.i].state == NotCreated
    requires !s.jobs[s.main.i].terminate
    ensures Exact(Create(s, s.main.i))
  {
    var i := s.main.i;
    assert JobOk(s.main, i, s.jobs[i]);
    FlagsMove(s.jobs, i, Create(s, i).jobs[i]);
  }

  lemma CreateStepInv(s: State, s': State)
    requires Exact(s) && CreateStep(s, s')
    ensures Exact(s')
  {
    var i := s.main.i;
    if i < |s.jobs| {
      if s'.main.Startup? {
        CreateExact(s);
      } else {
        assert JobOk(s.main, i, s.jobs[i]);
        FlagsMove(s.jobs, i, s'.jobs[i]);
      }
    }
  }

  lemma StartupStepInv(s: State, s': State)
    requires Exact(s) && StartupStep(s, s')
    ensures Inv(s')
  {
    assert JobOk(s.main, s.main.i, s.jobs[s.main.i]);
    if s'.main.Waiting? {
      assert Stillborn(s'.jobs[s.main.i]);
      forall k | k in s'.main.pending && k < |s'.jobs|
        ensures s'.jobs[k].state == Initialized || Stillborn(s'.jobs[k])
      {
        assert JobOk(s.main, k, s.jobs[k]);
      }
    }
  }

  lemma WaitStepInv(s: State, s': State)
    requires Exact(s) && WaitStep(s, s')
    ensures Inv(s')
  {
    if s'.main.Waiting? {
      var k :| Poll(s, s', k);
      PollInv(s, s', k);
    }
  }

  lemma PollInv(s: State, s': State, k: nat)
    requires Exact(s) && Poll(s, s', k)
    ensures Exact(s')
  {
    assert JobOk(s.main, k, s.jobs[k]);
    FlagsMove(s.jobs, k, s'.jobs[k]);
    forall m | 0 <= m < |s'.jobs| ensures JobOk(s'.main, m, s'.jobs[m]) {
      assert JobOk(s.main, m, s.jobs[m]);
    }
  }

  lemma StartStepInv(s: State, s': State)
    requires Exact(s) && StartStep(s, s')
    ensures Exact(s')
  {
    var i := s.main.i;
    if i < |s.jobs| {
      assert JobOk(s.main, i, s.jobs[i]);
      FlagsMove(s.jobs, i, s'.jobs[i]);
    }
  }

  lemma ReapStepInv(s: State, s': State)
    requires Exact(s) && ReapStep(s, s')
    ensures Exact(s')
  {
    var i := s.main.i;
    if i < |s.jobs| {
      assert JobOk(s.main, i, s.jobs[i]);
      FlagsMove(s.jobs, i, s'.jobs[i]);
    }
  }

  // A stillborn job never leaves `pending`, so the wait ends in the break.
  lemma DoomedStepInv(s: State, s': State)
    requires Doomed(s) && MainStep(s, s')
    ensures s'.main.Draining? || Doomed(s')
  {
    var k :| k in s.main.pending && k < |s.jobs| && Stillborn(s.jobs[k]);
    assert WaitStep(s, s');
    if !s'.main.Draining? {
      assert k in s'.main.pending && Stillborn(s'.jobs[k]);
    }
  }

  lemma MainStepInv(s: State, s': State)
    requires Inv(s) && MainStep(s, s')
    ensures Inv(s')
  {
    if Over(s.main) {
    } else if Doomed(s) {
      DoomedStepInv(s, s');
    } else {
      match s.main
      case Creating(_, _) => CreateStepInv(s, s');
      case Startup(_, _) => StartupStepInv(s, s');
      case Waiting(_) => WaitStepInv(s, s');
      case Starting(_) => StartStepInv(s, s');
      case Reaping(_) => ReapStepInv(s, s');
      case EndOfPass => assert forall k :: 0 <= k < |s.jobs| ==> JobOk(s.main, k, s.jobs[k]);
    }
  }

  lemma NextInv(s: State, s': State)
    requires Inv(s) && Next(s, s')
    ensures Inv(s')
  {
    if MainStep(s, s') {
      MainStepInv(s, s');
    } else if i :| JobStep(s, s', i) {
      JobStepInv(s, s', i);
    } else {
      OutsideMarks(s, s');
      MarksInv(s, s');
    }
  }

  lemma InitInv(s: State)
    requires Init(s)
    ensures Exact(s)
  {
    SumZero(StartedFlags(s.jobs));
    SumZero(CountedFlags(s.jobs));
    SumZero(Passes(s.jobs));
  }

  lemma {:induction false} RunInv(run: seq<State>, k: nat)
    requires Run(run) && k < |run|
    ensures Inv(run[k])
  {
    if k == 0 {
      InitInv(run[0]);
    } else {
      RunInv(run, k - 1);
      assert Next(run[k - 1], run[k - 1 + 1]);
      NextInv(run[k - 1], run[k]);
    }
  }

  // ------------------------------------------------------------- theorems

  // The counters that gate a stonewall job are zero exactly when every job
  // created so far has been reaped.
  lemma GateExact(run: seq<State>, k: nat)
    requires Run(run) && k < |run| && run[k].main.Creating?
    ensures Gate(run[k]) <==> exists j :: 0 <= j < |run[k].jobs| && Live(run[k].jobs[j])
  {
    RunInv(run, k);
    var s := run[k];
    SumZero(StartedFlags(s.jobs));
    SumZero(CountedFlags(s.jobs));
    forall j | 0 <= j < |s.jobs|
      ensures Live(s.jobs[j]) <==> s.jobs[j].started || s.jobs[j].counted
    {
      assert JobOk(s.main, j, s.jobs[j]);
    }
    if Gate(s) {
      var j :| 0 <= j < |s.jobs| && (StartedFlags(s.jobs)[j] != 0 || CountedFlags(s.jobs)[j] != 0);
      assert Live(s.jobs[j]);
    } else {
      forall j | 0 <= j < |s.jobs| ensures !Live(s.jobs[j]) {
        assert StartedFlags(s.jobs)[j] == 0 && CountedFlags(s.jobs)[j] == 0;
      }
    }
  }

  // Which job is created: the one main looks at becomes TD_CREATED exactly when
  // it is not created and not terminated, its delay is over, nothing it waits
  // for runs, and, if it is a stonewall job, every job created before has been
  // reaped.
  lemma CreatedExactlyWhen(run: seq<State>, k: nat, i: nat)
    requires Run(run) && k + 1 < |run| && MainStep(run[k], run[k + 1]) && run[k].main.Creating?
    requires run[k].main.i == i < |run[k].jobs|
    ensures |run[k + 1].jobs| == |run[k].jobs|
    ensures var j := run[k].jobs[i];
            (j.state == NotCreated && run[k + 1].jobs[i].state == Created) <==>
            && j.state == NotCreated && !j.terminate && !j.delayed && !j.fenced
            && (j.stonewall ==> forall m :: 0 <= m < |run[k].jobs| ==> !Live(run[k].jobs[m]))
  {
    GateExact(run, k);
  }

  // A stonewall job whose turn has come, with a job before it not reaped, ends
  // the pass: no later job is looked at.
  lemma StonewallStops(run: seq<State>, k: nat, i: nat, m: nat)
    requires Run(run) && k + 1 < |run| && MainStep(run[k], run[k + 1]) && run[k].main.Creating?
    requires run[k].main.i == i < |run[k].jobs| && m < |run[k].jobs| && Live(run[k].jobs[m])
    requires run[k].jobs[i].stonewall && run[k].jobs[i].state == NotCreated
    requires !run[k].jobs[i].terminate && !run[k].jobs[i].delayed
    ensures run[k + 1] == run[k].(main := Waiting(run[k].main.batch))
  {
    GateExact(run, k);
  }

  // Stonewall barrier: when a stonewall job becomes TD_CREATED, every job
  // created before it is TD_REAPED.
  lemma StonewallBarrier(run: seq<State>, k: nat, i: nat)
    requires Run(run) && k + 1 < |run| && i < |run[k].jobs| == |run[k + 1].jobs|
    requires run[k].jobs[i].stonewall
    requires run[k].jobs[i].state == NotCreated && run[k + 1].jobs[i].state == Created
    ensures forall j :: 0 <= j < |run[k].jobs| && run[k].jobs[j].created ==> run[k].jobs[j].state == Reaped
  {
    assert Next(run[k], run[k + 1]);
    OnlyCreateCreates(run[k], run[k + 1], i);
    GateExact(run, k);
  }

  lemma OnlyCreateCreates(s: State, s': State, i: nat)
    requires Next(s, s') && i < |s.jobs| == |s'.jobs| && s.jobs[i].stonewall
    requires s.jobs[i].state == NotCreated && s'.jobs[i].state == Created
    ensures s.main.Creating? && s.main.i == i && !Gate(s)
  {
    OnlyMainCreates(s, s', i);
    MainCreates(s, s', i);
  }

  lemma OnlyMainCreates(s: State, s': State, i: nat)
    requires Next(s, s') && i < |s.jobs| == |s'.jobs|
    requires s.jobs[i].state == NotCreated && s'.jobs[i].state == Created
    ensures MainStep(s, s')
  {
    if OutsideStep(s, s') {
      OutsideMarks(s, s');
    }
  }

  lemma OtherStepsCreateNone(s: State, s': State, i: nat)
    requires MainStep(s, s') && !s.main.Creating? && i < |s.jobs| == |s'.jobs| && s.jobs[i].state == NotCreated
    ensures s'.jobs[i].state != Created
  {
    if StartupStep(s, s') {
    } else if WaitStep(s, s') {
    } else if StartStep(s, s') {
    } else if ReapStep(s, s') {
    }
  }

  lemma MainCreates(s: State, s': State, i: nat)
    requires MainStep(s, s') && i < |s.jobs| == |s'.jobs| && s.jobs[i].stonewall
    requires s.jobs[i].state == NotCreated && s'.jobs[i].state == Created
    ensures s.main.Creating? && s.main.i == i && !Gate(s)
  {
    if !s.main.Creating? {
      OtherStepsCreateNone(s, s', i);
    } else {
      assert CreateStep(s, s');
    }
  }

  // When main comes to reaping, every job it created and has not reaped has been
  // started and is in nr_running.
  lemma AllStarted(run: seq<State>, k: nat, i: nat)
    requires Run(run) && k < |run| && (run[k].main.Reaping? || run[k].main.EndOfPass?) && i < |run[k].jobs|
    requires Live(run[k].jobs[i])
    ensures run[k].jobs[i].state in {Running, Exited} && run[k].jobs[i].counted
  {
    RunInv(run, k);
    assert JobOk(run[k].main, i, run[k].jobs[i]);
  }

  // While main waits for the jobs it created, each is initialised or could not
  // be created: none is ever found exited, and the branch that counts such a
  // job as running is dead.
  lemma NoneExitsEarly(run: seq<State>, k: nat, j: nat)
    requires Run(run) && k < |run| && run[k].main.Waiting? && j in run[k].main.pending && j < |run[k].jobs|
    ensures run[k].jobs[j].state == Initialized || Stillborn(run[k].jobs[j])
  {
    RunInv(run, k);
    if !Doomed(run[k]) {
      assert JobOk(run[k].main, j, run[k].jobs[j]);
    }
  }

  // ------------------------------------------------------------ draining

  // Counted in nr_running exactly while created and not reaped.
  predicate DrainedJob(j: Job) {
    (j.counted <==> Live(j)) && (j.counted ==> j.state in {Running, Exited})
  }

  ghost predicate DrainOk(s: State) {
    && Over(s.main) && s.nrRunning == Sum(CountedFlags(s.jobs))
    && (forall i :: 0 <= i < |s.jobs| ==> DrainedJob(s.jobs[i]))
    && (s.main.Finished? ==> s.nrRunning % UINT_MOD == 0)
  }

  lemma DrainStarts(s: State, s': State)
    requires Inv(s) && PassesEnd(s, s')
    ensures DrainOk(s')
  {
    forall i | 0 <= i < |s'.jobs| ensures DrainedJob(s'.jobs[i]) {
      assert JobOk(s.main, i, s.jobs[i]);
    }
  }

  // One job changes, and the count with it.
  lemma DrainMoves(s: State, s': State, i: nat)
    requires DrainOk(s) && i < |s.jobs| == |s'.jobs| && s'.jobs == s.jobs[i := s'.jobs[i]] && DrainedJob(s'.jobs[i])
    requires s'.nrRunning == s.nrRunning - One(s.jobs[i].counted) + One(s'.jobs[i].counted)
    requires Over(s'.main) && (s'.main.Finished? ==> s'.nrRunning % UINT_MOD == 0)
    ensures DrainOk(s')
  {
    FlagsMove(s.jobs, i, s'.jobs[i]);
  }

  lemma DrainMain(s: State, s': State)
    requires DrainOk(s) && MainStep(s, s')
    ensures DrainOk(s')
  {
    assert DrainStep(s, s');
    if s.main.Sweeping? && s.main.i < |s.jobs| {
      assert DrainedJob(s.jobs[s.main.i]);
      DrainMoves(s, s', s.main.i);
    }
  }

  lemma DrainJob(s: State, s': State, i: nat)
    requires DrainOk(s) && JobStep(s, s', i)
    ensures DrainOk(s')
  {
    assert DrainedJob(s.jobs[i]);
    DrainMoves(s, s', i);
  }

  lemma DrainMarks(s: State, s': State)
    requires DrainOk(s) && s' == s.(jobs := s'.jobs) && |s'.jobs| == |s.jobs|
    requires forall k :: 0 <= k < |s.jobs| ==> OnlyMarked(s.jobs[k], s'.jobs[k])
    ensures DrainOk(s')
  {
    assert CountedFlags(s'.jobs) == CountedFlags(s.jobs);
    forall i | 0 <= i < |s'.jobs| ensures DrainedJob(s'.jobs[i]) {
      assert DrainedJob(s.jobs[i]);
    }
  }

  lemma DrainNext(s: State, s': State)
    requires DrainOk(s) && Next(s, s')
    ensures DrainOk(s')
  {
    if MainStep(s, s') {
      DrainMain(s, s');
    } else if i: nat :| JobStep(s, s', i) {
      DrainJob(s, s', i);
    } else {
      OutsideMarks(s, s');
      DrainMarks(s, s');
    }
  }

  lemma RunNext(run: seq<State>, k: nat)
    requires Run(run) && k + 1 < |run|
    ensures Next(run[k], run[k + 1])
  {
  }

  lemma DrainsAtOnce(run: seq<State>, k: nat)
    requires Run(run) && k + 1 < |run| && PassesEnd(run[k], run[k + 1])
    ensures DrainOk(run[k + 1])
  {
    RunInv(run, k);
    DrainStarts(run[k], run[k + 1]);
  }

  lemma DrainKept(run: seq<State>, m: nat)
    requires Run(run) && m + 1 < |run| && DrainOk(run[m])
    ensures DrainOk(run[m + 1])
  {
    RunNext(run, m);
    DrainNext(run[m], run[m + 1]);
  }

  lemma DrainAlways(run: seq<State>)
    requires Run(run)
    ensures forall m :: 0 <= m < |run| - 1 && DrainOk(run[m]) ==> DrainOk(run[m + 1])
  {
    forall m | 0 <= m < |run| - 1 && DrainOk(run[m]) ensures DrainOk(run[m + 1]) {
      DrainKept(run, m);
    }
  }

  lemma {:induction false} DrainsFrom(run: seq<State>, k: nat, j: nat)
    requires k <= j < |run| && DrainOk(run[k])
    requires forall m :: 0 <= m < |run| - 1 && DrainOk(run[m]) ==> DrainOk(run[m + 1])
    ensures DrainOk(run[j])
  {
    if j != k {
      DrainsFrom(run, k, j - 1);
      assert DrainOk(run[j - 1 + 1]);
    }
  }

  lemma RunDrains(run: seq<State>, k: nat, j: nat)
    requires Run(run) && k < j < |run| && PassesEnd(run[k], run[k + 1])
    ensures DrainOk(run[j])
  {
    DrainsAtOnce(run, k);
    DrainAlways(run);
    DrainsFrom(run, k + 1, j);
  }

  // After the passes have come to their regular end, nr_running is zero exactly
  // when every job created has been reaped; so that is when the last loop ends.
  lemma DrainEndsIff(run: seq<State>, k: nat, j: nat)
    requires Run(run) && k < j < |run| && PassesEnd(run[k], run[k + 1]) && |run[j].jobs| < UINT_MOD
    ensures Over(run[j].main)
    ensures run[j].nrRunning % UINT_MOD == 0 <==> forall i :: 0 <= i < |run[j].jobs| ==> !Live(run[j].jobs[i])
    ensures run[j].main.Finished? ==> forall i :: 0 <= i < |run[j].jobs| ==> !Live(run[j].jobs[i])
  {
    RunDrains(run, k, j);
    var s := run[j];
    SumOfFlags(CountedFlags(s.jobs));
    SumZero(CountedFlags(s.jobs));
    forall i | 0 <= i < |s.jobs| ensures Live(s.jobs[i]) <==> CountedFlags(s.jobs)[i] != 0 {
      assert DrainedJob(s.jobs[i]);
    }
  }

  // A startup that hangs ends the passes otherwise: the job was never counted
  // as running, and the last loop ends with it created and not reaped.
  function Hanging(k: nat): State {
    var job := Job(if k <= 1 then NotCreated else Created, false, 0, false, false, false, false, false,
                   k >= 2, k == 2, false, 0);
    var main := if k == 0 then EndOfPass
                else if k == 1 then Creating(0, {})
                else if k == 2 then Startup(0, {0})
                else if k == 3 then Draining
                else Finished;
    State([job], main, if k == 2 then 1 else 0, 0, 1)
  }

  lemma HangingStep(k: nat)
    requires k < 4
    ensures MainStep(Hanging(k), Hanging(k + 1))
  {
    if k == 1 {
      assert Hanging(1).main.batch + {0} == {0};
      assert Hanging(2) == Create(Hanging(1), 0);
    }
  }

  lemma LeftUnreaped() returns (run: seq<State>)
    ensures Run(run) && |run| == 5 && run[4].main.Finished?
    ensures |run[4].jobs| == 1 && Live(run[4].jobs[0])
  {
    assert OwedFlags(Hanging(0).jobs) == [1];
    assert [1][1..] == [];
    run := seq(5, (k: nat) => Hanging(k));
    forall k | 0 <= k < 4 ensures Next(run[k], run[k + 1]) { HangingStep(k); }
  }

  // ------------------------------------------------- jobs left uncreated

  predicate Lost(j: Job) { j.state == NotCreated && j.terminate }

  function LostFlags(jobs: seq<Job>): (f: seq<nat>) {
    seq(|jobs|, i requires 0 <= i < |jobs| => One(Lost(jobs[i])))
  }

  // The step by which the passes over the jobs come to their regular end.
  ghost predicate PassesEnd(s: State, s': State) { s.main.EndOfPass? && PassStep(s, s') && s'.main.Draining? }

  // At the end of a pass everything still owed is a job not created.
  lemma OwedAtEnd(s: State, j: nat)
    requires Exact(s) && s.main.EndOfPass? && j < |s.jobs|
    ensures Owed(s.jobs[j]) <==> s.jobs[j].state == NotCreated
  {
    assert JobOk(s.main, j, s.jobs[j]);
  }

  lemma LostAgainstOwed(s: State)
    requires Exact(s) && s.main.EndOfPass?
    ensures Sum(LostFlags(s.jobs)) <= Sum(OwedFlags(s.jobs)) <= |s.jobs|
    ensures Sum(LostFlags(s.jobs)) == Sum(OwedFlags(s.jobs)) <==>
            forall j :: 0 <= j < |s.jobs| && s.jobs[j].state == NotCreated ==> s.jobs[j].terminate
  {
    var x, y := LostFlags(s.jobs), OwedFlags(s.jobs);
    forall j | 0 <= j < |s.jobs|
      ensures x[j] <= y[j] && (x[j] == y[j] <==> (s.jobs[j].state == NotCreated ==> s.jobs[j].terminate))
    {
      OwedAtEnd(s, j);
    }
    SumBelow(x, y);
    SumOfFlags(y);
    if forall j :: 0 <= j < |s.jobs| && s.jobs[j].state == NotCreated ==> s.jobs[j].terminate {
      assert x == y;
    }
    if x == y {
      forall j | 0 <= j < |s.jobs| && s.jobs[j].state == NotCreated ensures s.jobs[j].terminate {
        assert x[j] == y[j];
      }
    }
  }

  // todo counts the jobs not created, less one for every pass over a job
  // terminated before creation.  So the passes end exactly when the jobs not
  // created equal those decrements (modulo 2^32).
  lemma PassesEndWhen(run: seq<State>, k: nat)
    requires Run(run) && k + 1 < |run| && run[k].main.EndOfPass? && MainStep(run[k], run[k + 1])
    ensures run[k + 1].main.Draining? <==>
            (Sum(OwedFlags(run[k].jobs)) - Sum(Passes(run[k].jobs))) % UINT_MOD == 0
    ensures forall j :: 0 <= j < |run[k].jobs| ==> (Owed(run[k].jobs[j]) <==> run[k].jobs[j].state == NotCreated)
  {
    RunInv(run, k);
    forall j | 0 <= j < |run[k].jobs| ensures Owed(run[k].jobs[j]) <==> run[k].jobs[j].state == NotCreated {
      OwedAtEnd(run[k], j);
    }
  }

  lemma SmallMod(a: int, b: int)
    requires 0 <= a < UINT_MOD
    ensures (a - b) % UINT_MOD == 0 <==> a == b % UINT_MOD
  {
  }

  // When the passes end, no job has been forgotten (every job not created was
  // terminated) if and only if todo was lowered once for each terminated job,
  // over all passes together.
  lemma NoneForgottenIff(run: seq<State>, k: nat)
    requires Run(run) && k + 1 < |run| && PassesEnd(run[k], run[k + 1]) && |run[k].jobs| < UINT_MOD
    ensures (forall j :: 0 <= j < |run[k].jobs| && run[k].jobs[j].state == NotCreated ==> run[k].jobs[j].terminate) <==>
            Sum(Passes(run[k].jobs)) % UINT_MOD == Sum(LostFlags(run[k].jobs))
  {
    RunInv(run, k);
    var s := run[k];
    LostAgainstOwed(s);
    SmallMod(Sum(OwedFlags(s.jobs)), Sum(Passes(s.jobs)));
  }

  // So none is forgotten as long as no terminated job is passed over twice.
  lemma NoneForgottenIfOnce(run: seq<State>, k: nat)
    requires Run(run) && k + 1 < |run| && PassesEnd(run[k], run[k + 1]) && |run[k].jobs| < UINT_MOD
    requires forall j :: 0 <= j < |run[k].jobs| ==> run[k].jobs[j].passes <= 1
    ensures forall j :: 0 <= j < |run[k].jobs| && run[k].jobs[j].state == NotCreated ==> run[k].jobs[j].terminate
  {
    RunInv(run, k);
    var s := run[k];
    LostAgainstOwed(s);
    forall j | 0 <= j < |s.jobs| ensures Passes(s.jobs)[j] <= LostFlags(s.jobs)[j] {
      assert JobOk(s.main, j, s.jobs[j]);
    }
    SumBelow(Passes(s.jobs), LostFlags(s.jobs));
    SmallMod(Sum(OwedFlags(s.jobs)), Sum(Passes(s.jobs)));
  }

  // Three jobs: 0 and 1 in one group, 2 in another; 0 and 2 have a start delay.
  // Job 1 comes up in the first pass and, running, terminates its group.
  function Three(passes: nat, marked: bool, job1: Job): seq<Job> {
    [Job(NotCreated, false, 0, false, true, false, marked, false, false, false, false, passes),
     job1,
     Job(NotCreated, false, 1, false, true, false, false, false, false, false, false, 0)]
  }

  function FirstPass(k: nat): State {
    var state := if k <= 2 then NotCreated else if k == 3 then Created else if k <= 10 then Initialized else Running;
    var job1 := Job(state, false, 0, false, false, false, false, false, k >= 3, 3 <= k <= 10, k >= 11, 0);
    var main := if k == 0 then EndOfPass
                else if k <= 2 then Creating(k - 1, {})
                else if k <= 4 then Startup(1, {1})
                else if k <= 6 then Creating(k - 3, {1})
                else if k == 7 then Waiting({1})
                else if k == 8 then Waiting({})
                else if k <= 12 then Starting(k - 9)
                else if k <= 16 then Reaping(k - 13)
                else EndOfPass;
    State(Three(0, k == 18, job1), main,
          if 3 <= k <= 10 then 1 else 0, if k >= 11 then 1 else 0, if k <= 10 then 3 else 2)
  }

  // Stage m of a later pass, of which p have gone before: job 0 is counted off
  // in each.
  function LaterPass(p: nat, m: nat): State {
    var passes := if m == 0 then p else p + 1;
    var main := if m <= 3 then Creating(m, {})
                else if m == 4 then Waiting({})
                else if m <= 8 then Starting(m - 5)
                else if m <= 12 then Reaping(m - 9)
                else EndOfPass;
    var job1 := Job(Running, false, 0, false, false, false, false, false, true, false, true, 0);
    State(Three(passes, true, job1), main, 0, 1, 2 - passes)
  }

  lemma FirstPassStep(k: nat)
    requires k < 18
    ensures Next(FirstPass(k), FirstPass(k + 1))
  {
    var s, s' := FirstPass(k), FirstPass(k + 1);
    if k == 2 {
      assert s.main.batch + {1} == {1};
      assert s' == Create(s, 1);
      assert CreateStep(s, s');
    } else if k == 3 {
      assert JobStep(s, s', 1);
    } else if k == 7 {
      assert s.main.pending - {1} == {};
      assert Poll(s, s', 1);
      assert WaitStep(s, s');
    } else if k == 17 {
      assert MarkStep(s, s', 1, 0);
    } else {
      assert MainStep(s, s');
    }
  }

  lemma LaterPassStep(p: nat, m: nat)
    requires m < 13 && p <= 1
    ensures MainStep(LaterPass(p, m), LaterPass(p, m + 1))
  {
  }

  function Forgetting(k: nat): State {
    if k <= 18 then FirstPass(k)
    else if k <= 32 then LaterPass(0, k - 19)
    else if k <= 46 then LaterPass(1, k - 33)
    else LaterPass(1, 13).(main := Draining)
  }

  lemma ForgettingStep(k: nat)
    requires k <= 46
    ensures Next(Forgetting(k), Forgetting(k + 1))
  {
    if k < 18 {
      FirstPassStep(k);
    } else if 19 <= k < 32 {
      LaterPassStep(0, k - 19);
    } else if 33 <= k < 46 {
      LaterPassStep(1, k - 33);
    } else {
      assert PassStep(Forgetting(k), Forgetting(k + 1));
    }
  }

  lemma ForgettingInit()
    ensures Init(Forgetting(0))
  {
    assert OwedFlags(Forgetting(0).jobs) == [1, 1, 1];
    assert [1, 1, 1][1..] == [1, 1] && [1, 1][1..] == [1];
  }

  // The passes end with job 2 neither created nor terminated.
  lemma JobForgotten() returns (run: seq<State>)
    ensures Run(run) && |run| == 48 && PassesEnd(run[46], run[47]) && |run[46].jobs| == 3
    ensures run[47].jobs[2].state == NotCreated && !run[47].jobs[2].terminate
  {
    ForgettingInit();
    run := seq(48, (k: nat) => Forgetting(k));
    forall k | 0 <= k < 47 ensures Next(run[k], run[k + 1]) { ForgettingStep(k); }
    assert run[46] == LaterPass(1, 13) && run[47] == LaterPass(1, 13).(main := Draining);
  }
}
