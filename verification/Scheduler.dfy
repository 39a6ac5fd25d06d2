/**
 The job scheduler of backend.c: `run_threads`, `reap_threads`, `waitee_running`
 and the start-up handshake of `thread_main`.

 Every pass of `run_threads` creates a batch of jobs, waits until each of them is
 initialized or has exited, starts the initialized ones and reaps the dead.  One
 iteration of one of its loops is one step; the steps of the jobs come in between.
 Start delays, termination requests and clock timeouts are free choices, and so is
 skipping a job: the loop that only reaps, once nothing is left to create, is a
 sequence of passes that create nothing.  The forced reap of a job that appears
 stuck is not part of the model.
 */
module Scheduler {

  import opened Options

  // enum td runstates
  const NOT_CREATED: nat := 0
  const CREATED: nat := 1
  const INITIALIZED: nat := 2
  const RAMP: nat := 3
  const RUNNING: nat := 5
  const EXITED: nat := 10
  const REAPED: nat := 11

  /** Which of the two counters a created job is counted in. */
  datatype Account = Nowhere | Started | Running

  /** Options, runstate, and for the handshake: startup_sem raised, td->sem raised by
      the scheduler, td->sem passed by the job.  `dead` is a job without a living
      thread or process, `batch` the pass that created it. */
  datatype Job = Job(
    stonewall: bool, name: nat, waitFor: Option<nat>,
    runstate: nat, account: Account, batch: nat,
    pid: bool, upped: bool, released: bool, passed: bool, dead: bool)

  predicate Created(j: Job) {
    j.batch > 0
  }

  datatype Phase =
    | Creating(i: nat)
    | AwaitSem(i: nat)
    | Waiting(rest: set<nat>)
    | Starting(i: nat)
    | Reaping(i: nat)
    | Final

  /** `order` lists the created jobs, `current` those of this pass; `doomed` is the
      job whose creation failed. */
  datatype State = State(
    jobs: seq<Job>, phase: Phase, nrStarted: int, nrRunning: int, startupSem: nat,
    round: nat, current: set<nat>, abort: bool,
    order: seq<nat>, failed: bool, doomed: nat)

  /** `waitee_running`: some job of that name, other than namesakes of the waiter,
      has not exited. */
  predicate WaiteeRunning(jobs: seq<Job>, i: nat)
    requires i < |jobs|
  {
    jobs[i].waitFor.Some? &&
    exists k :: 0 <= k < |jobs| && Fences(jobs[i], jobs[k]) && jobs[k].runstate < EXITED
  }

  predicate Fences(me: Job, other: Job) {
    me.waitFor == Some(other.name) && other.name != me.name
  }

  /** Of the awaited name, not the waiter's own, and not at TD_EXITED or TD_REAPED. */
  predicate IsLiveWaitee(me: Job, other: Job) {
    me.waitFor == Some(other.name) && me.name != other.name && other.runstate != EXITED && other.runstate < REAPED
  }

  method WaiteeRunningScan(jobs: seq<Job>, i: nat) returns (running: bool)
    requires i < |jobs|
    ensures running == WaiteeRunning(jobs, i)
    ensures running <==> exists k :: 0 <= k < |jobs| && IsLiveWaitee(jobs[i], jobs[k])
  {
    if jobs[i].waitFor.None? { return false; }
    for k := 0 to |jobs|
      invariant forall m :: 0 <= m < k ==> !(Fences(jobs[i], jobs[m]) && jobs[m].runstate < EXITED)
    {
      if jobs[k].name == jobs[i].name || jobs[k].name != jobs[i].waitFor.value { continue; }
      if jobs[k].runstate < EXITED { return true; }
    }
    return false;
  }

  // --------------------------------------------------------------------- steps

  datatype Step =
    // the scheduler
    | Pass                 // skip this job, or leave a finished loop
    | StonewallWait
    | Create(spawned: bool)
    | StartupOk
    | StartupHung
    | Observe(j: nat)
    | GiveUp
    | StartJob(ramp: bool)
    | ReapJob
    | NextBatch
    | ReapLate(j: nat)
    // the jobs
    | SetPid(j: nat)
    | Initialize(j: nat)
    | RaiseStartup(j: nat)
    | Err(j: nat)
    | PassSem(j: nat)
    | Move(j: nat, to: nat)
    | Die(j: nat)

  predicate Alive(s: State, j: nat) {
    j < |s.jobs| && Created(s.jobs[j]) && !s.jobs[j].dead
  }

  predicate Reapable(j: Job) {
    j.pid && Created(j) && j.runstate != REAPED && (j.runstate == EXITED || j.dead)
  }

  predicate Enabled(s: State, step: Step) {
    var n := |s.jobs|;
    match step
    case Pass => (s.phase.Creating? || s.phase.Starting? || s.phase.Reaping?) && s.phase.i < n
                 && (s.phase.Starting? ==> s.jobs[s.phase.i].runstate != INITIALIZED)
                 && (s.phase.Reaping? ==> !Reapable(s.jobs[s.phase.i]))
    case StonewallWait => s.phase.Creating? && s.phase.i < n && s.jobs[s.phase.i].runstate == NOT_CREATED
                          && s.jobs[s.phase.i].stonewall && (s.nrStarted != 0 || s.nrRunning != 0)
    case Create(_) => s.phase.Creating? && s.phase.i < n && s.jobs[s.phase.i].runstate == NOT_CREATED
                      && !(s.jobs[s.phase.i].stonewall && (s.nrStarted != 0 || s.nrRunning != 0))
                      && !WaiteeRunning(s.jobs, s.phase.i)
    case StartupOk => s.phase.AwaitSem? && s.startupSem > 0
    case StartupHung => s.phase.AwaitSem?
    case Observe(j) => s.phase.Waiting? && !s.abort && j in s.phase.rest && j < n
                       && (s.jobs[j].runstate == INITIALIZED || s.jobs[j].runstate >= EXITED)
    case GiveUp => s.phase.Waiting? && s.phase.rest != {}
    case StartJob(_) => s.phase.Starting? && s.phase.i < n && s.jobs[s.phase.i].runstate == INITIALIZED
    case ReapJob => s.phase.Reaping? && s.phase.i < n && Reapable(s.jobs[s.phase.i])
    case NextBatch => (s.phase.Creating? && s.phase.i == n) || (s.phase.Waiting? && s.phase.rest == {})
                      || (s.phase.Starting? && s.phase.i == n) || (s.phase.Reaping? && s.phase.i == n)
    case ReapLate(j) => s.phase.Final? && j < n && Reapable(s.jobs[j])
    case SetPid(j) => Alive(s, j)
    case Initialize(j) => Alive(s, j) && s.jobs[j].runstate == CREATED
    case RaiseStartup(j) => Alive(s, j) && s.jobs[j].runstate == INITIALIZED && !s.jobs[j].upped
    case Err(j) => Alive(s, j) && s.jobs[j].runstate == CREATED
    case PassSem(j) => Alive(s, j) && s.jobs[j].upped && s.jobs[j].released
    case Move(j, to) => Alive(s, j) && s.jobs[j].passed && s.jobs[j].runstate < EXITED && RAMP <= to <= EXITED
    case Die(j) => Alive(s, j)
  }

  function Put(s: State, j: nat, job: Job): State
    requires j < |s.jobs|
  {
    s.(jobs := s.jobs[j := job])
  }

  function Reap(s: State, j: nat): State
    requires j < |s.jobs|
  {
    Put(s, j, s.jobs[j].(runstate := REAPED, account := Nowhere)).(nrRunning := s.nrRunning - 1)
  }

  function Apply(s: State, step: Step): State
    requires Enabled(s, step)
  {
    match step
    case Pass => s.(phase := Advance(s.phase))
    case StonewallWait => s.(phase := Waiting(s.current))
    case Create(spawned) =>
      var i := s.phase.i;
      var t := Put(s, i, s.jobs[i].(runstate := CREATED, account := Started, batch := s.round, dead := !spawned)).(
        current := s.current + {i}, order := s.order + [i]);
      if spawned then t.(nrStarted := s.nrStarted + 1, phase := AwaitSem(i))
      else t.(failed := true, doomed := i, phase := Waiting(t.current))
    case StartupOk => s.(startupSem := s.startupSem - 1, phase := Creating(s.phase.i + 1))
    case StartupHung =>
      s.(abort := true, failed := true, doomed := s.phase.i, nrStarted := s.nrStarted - 1, phase := Waiting(s.current))
    case Observe(j) =>
      var t := s.(phase := Waiting(s.phase.rest - {j}));
      if s.jobs[j].runstate == INITIALIZED then t
      else Put(t, j, s.jobs[j].(account := Running)).(nrRunning := s.nrRunning + 1)
    case GiveUp => s.(phase := Final)
    case StartJob(ramp) =>
      var i := s.phase.i;
      Put(s, i, s.jobs[i].(runstate := if ramp then RAMP else RUNNING, account := Running, released := true)).(
        nrStarted := s.nrStarted - 1, nrRunning := s.nrRunning + 1, phase := Starting(i + 1))
    case ReapJob => Reap(s, s.phase.i).(phase := Reaping(s.phase.i + 1))
    case NextBatch =>
      (match s.phase
       case Creating(_) => s.(phase := Waiting(s.current))
       case Waiting(_) => s.(phase := Starting(0))
       case Starting(_) => s.(phase := Reaping(0))
       case _ => s.(phase := Creating(0), round := s.round + 1, current := {}))
    case ReapLate(j) => Reap(s, j)
    case SetPid(j) => Put(s, j, s.jobs[j].(pid := true))
    case Initialize(j) => Put(s, j, s.jobs[j].(runstate := INITIALIZED))
    case RaiseStartup(j) => Put(s, j, s.jobs[j].(upped := true)).(startupSem := s.startupSem + 1)
    case Err(j) => Put(s, j, s.jobs[j].(runstate := EXITED))
    case PassSem(j) => Put(s, j, s.jobs[j].(passed := true))
    case Move(j, to) => Put(s, j, s.jobs[j].(runstate := to))
    case Die(j) => Put(s, j, s.jobs[j].(dead := true))
  }

  function Advance(p: Phase): Phase
    requires p.Creating? || p.Starting? || p.Reaping?
  {
    if p.Creating? then Creating(p.i + 1) else if p.Starting? then Starting(p.i + 1) else Reaping(p.i + 1)
  }

  ghost predicate Next(s: State, t: State) {
    exists step :: Enabled(s, step) && t == Apply(s, step)
  }

  /** Before the main loop: jobs whose file setup failed are already reaped. */
  ghost predicate Initial(s: State) {
    && (forall j :: 0 <= j < |s.jobs| ==> Untouched(s.jobs[j]))
    && s.phase == Creating(0) && s.nrStarted == s.nrRunning == 0 && s.startupSem == 0 && s.round == 1 && s.current == {}
    && s.order == [] && !s.failed && !s.abort
  }

  predicate Untouched(j: Job) {
    j.runstate in {NOT_CREATED, REAPED} && j.account.Nowhere? && j.batch == 0 && !j.upped && !j.released && !j.passed
  }

  ghost predicate IsRun(run: seq<State>) {
    && run != [] && Initial(run[0])
    && forall i :: 0 <= i < |run| - 1 ==> Next(run[i], run[i + 1])
  }

  // ------------------------------------------------------------------ counting

  function Count(jobs: seq<Job>, a: Account): nat {
    if jobs == [] then 0 else (if jobs[0].account == a then 1 else 0) + Count(jobs[1..], a)
  }

  lemma {:induction false} CountUpdate(jobs: seq<Job>, j: nat, job: Job, a: Account)
    requires j < |jobs|
    ensures Count(jobs[j := job], a) ==
            Count(jobs, a) - (if jobs[j].account == a then 1 else 0) + (if job.account == a then 1 else 0)
  {
    if j > 0 {
      CountUpdate(jobs[1..], j - 1, job, a);
      assert jobs[j := job][1..] == jobs[1..][j - 1 := job];
    } else {
      assert jobs[j := job][1..] == jobs[1..];
    }
  }

  lemma {:induction false} CountZero(jobs: seq<Job>, a: Account)
    ensures Count(jobs, a) == 0 <==> forall j :: 0 <= j < |jobs| ==> jobs[j].account != a
  {
    if jobs != [] {
      CountZero(jobs[1..], a);
      assert forall j :: 0 <= j < |jobs| ==> jobs[j] == if j == 0 then jobs[0] else jobs[1..][j - 1];
    }
  }

  /** The counters, while creation has not failed. */
  ghost predicate CountersOk(s: State) {
    !s.failed && !s.phase.Final? ==>
      s.nrStarted == Count(s.jobs, Started) && s.nrRunning == Count(s.jobs, Running)
  }

  /** Only the job just created can have raised startup_sem without being waited for. */
  ghost predicate SemOk(s: State) {
    !s.failed && !s.phase.Final? ==>
      s.startupSem == if s.phase.AwaitSem? && s.phase.i < |s.jobs| && s.jobs[s.phase.i].upped then 1 else 0
  }

  // ----------------------------------------------------------------- invariant

  /** What a job's fields say about each other, in any phase. */
  ghost predicate FieldsOk(j: Job) {
    && j.runstate <= REAPED
    && (!Created(j) ==> Untouched(j))
    && (Created(j) ==> j.runstate >= CREATED)
    && (j.account.Nowhere? <==> !Created(j) || j.runstate == REAPED)
    && (j.account.Started? ==> j.runstate in {CREATED, INITIALIZED, EXITED} && !j.released)
    && (j.account.Running? ==> j.runstate >= RAMP && j.released)
    && (j.released ==> j.runstate >= RAMP && j.upped)
    && (j.upped ==> j.runstate >= INITIALIZED && (j.account.Started? ==> j.runstate == INITIALIZED))
    && (j.passed ==> j.released)
  }

  /** Where a job may be in each phase of the current pass. */
  ghost predicate PhaseOk(s: State, j: nat)
    requires j < |s.jobs|
  {
    var job := s.jobs[j];
    && job.batch <= s.round
    && match s.phase
       case Creating(_) => (job.account.Started? ==> j in s.current) && (job.released ==> job.batch < s.round)
                           && (j in s.current ==> job.account.Started? && job.batch == s.round && job.upped)
       case AwaitSem(i) => (job.account.Started? ==> j in s.current) && (job.released ==> job.batch < s.round)
                           && (j in s.current ==> job.account.Started? && job.batch == s.round && (job.upped || j == i))
       case Waiting(rest) => (job.account.Started? ==> job.batch == s.round)
                             && (job.account.Started? ==> j in rest || job.runstate == INITIALIZED)
                             && (j in rest ==> job.account.Started?)
                             && (job.released ==> job.batch < s.round)
                             && (Created(job) && job.batch == s.round ==> job.upped || (s.failed && j == s.doomed))
       case Starting(i) => (job.account.Started? ==> job.batch == s.round && job.runstate == INITIALIZED && j >= i)
                           && (Created(job) && job.batch == s.round ==> job.upped)
       case Reaping(_) => !job.account.Started?
       case Final => true
  }

  ghost predicate BatchClosed(s: State, j: nat)
    requires j < |s.jobs|
  {
    s.phase.Creating? || s.phase.AwaitSem? ==> Created(s.jobs[j]) && s.jobs[j].batch == s.round ==> j in s.current
  }

  /** A failed creation leaves a job that can never be observed ready, so the pass
      ends in giving up. */
  ghost predicate FailureOk(s: State) {
    s.failed ==> s.phase.Final? || (s.phase.Waiting? && NeverReady(s))
  }

  ghost predicate NeverReady(s: State)
    requires s.phase.Waiting?
  {
    && s.doomed in s.phase.rest && s.doomed < |s.jobs|
    && (s.abort || (s.jobs[s.doomed].dead && s.jobs[s.doomed].runstate == CREATED))
  }

  ghost predicate OrderOk(s: State) {
    && (forall k :: 0 <= k < |s.order| ==> s.order[k] < |s.jobs| && Created(s.jobs[s.order[k]]))
    && (forall k, m :: 0 <= m < k < |s.order| && s.jobs[s.order[k]].stonewall ==> s.jobs[s.order[m]].runstate == REAPED)
  }

  ghost predicate FencesOk(s: State) {
    forall j, k :: 0 <= j < |s.jobs| && 0 <= k < |s.jobs| && Created(s.jobs[j]) && Fences(s.jobs[j], s.jobs[k]) ==>
      s.jobs[k].runstate >= EXITED
  }

  predicate SameBatch(a: Job, b: Job) {
    Created(b) && b.batch == a.batch
  }

  ghost predicate HandshakeOk(s: State) {
    forall j, k :: 0 <= j < |s.jobs| && 0 <= k < |s.jobs| && s.jobs[j].released && SameBatch(s.jobs[j], s.jobs[k]) ==>
      s.jobs[k].upped
  }

  ghost predicate Inv(s: State) {
    && s.round > 0
    && (forall j :: 0 <= j < |s.jobs| ==> FieldsOk(s.jobs[j]) && PhaseOk(s, j) && BatchClosed(s, j))
    && (forall j :: j in s.current ==> j < |s.jobs|)
    && (s.phase.AwaitSem? ==> s.phase.i in s.current)
    && CountersOk(s) && SemOk(s) && FailureOk(s) && OrderOk(s) && FencesOk(s) && HandshakeOk(s)
  }

  lemma InitialInv(s: State)
    requires Initial(s)
    ensures Inv(s)
  {
    CountZero(s.jobs, Started);
    CountZero(s.jobs, Running);
  }

  // ------------------------------------------------------------------- job steps

  /** A job's own steps: its account and options stay, its runstate moves only in
      ways the scheduler can rely on. */
  ghost predicate OwnMove(a: Job, b: Job) {
    && b.account == a.account && b.batch == a.batch && b.released == a.released
    && b.stonewall == a.stonewall && b.name == a.name && b.waitFor == a.waitFor
    && Created(a)
    && (b.runstate == a.runstate
        || (!a.dead && a.runstate == CREATED && (b.runstate == INITIALIZED || b.runstate == EXITED))
        || (a.passed && RAMP <= a.runstate < EXITED && RAMP <= b.runstate <= EXITED))
    && (b.passed ==> b.released) && (a.dead ==> b.dead)
    && (b.upped == a.upped || (a.runstate == b.runstate == INITIALIZED && b.upped))
  }

  lemma OwnMoveJobs(s: State, j: nat, job: Job)
    requires Inv(s) && j < |s.jobs| && OwnMove(s.jobs[j], job)
    ensures var t := Put(s, j, job);
      && (forall k :: 0 <= k < |t.jobs| ==> FieldsOk(t.jobs[k]) && PhaseOk(t, k) && BatchClosed(t, k))
      && CountersOk(t) && FailureOk(t)
  {
    var t := Put(s, j, job);
    CountUpdate(s.jobs, j, job, Started);
    CountUpdate(s.jobs, j, job, Running);
    forall k | 0 <= k < |t.jobs| ensures FieldsOk(t.jobs[k]) && PhaseOk(t, k) && BatchClosed(t, k) {
      assert FieldsOk(s.jobs[k]) && PhaseOk(s, k) && BatchClosed(s, k);
    }
  }

  lemma OwnMoveFences(s: State, j: nat, job: Job)
    requires Inv(s) && j < |s.jobs| && OwnMove(s.jobs[j], job)
    ensures var t := Put(s, j, job); OrderOk(t) && FencesOk(t) && HandshakeOk(t)
  {
    assert FieldsOk(s.jobs[j]);
    KeepFences(s, j, job);
  }

  /** Updating one job keeps the fences if it never goes back. */
  lemma KeepFences(s: State, j: nat, job: Job)
    requires Inv(s) && j < |s.jobs|
    requires Created(s.jobs[j]) && job.batch == s.jobs[j].batch && job.released == s.jobs[j].released
    requires job.stonewall == s.jobs[j].stonewall && job.name == s.jobs[j].name && job.waitFor == s.jobs[j].waitFor
    requires s.jobs[j].upped ==> job.upped
    requires s.jobs[j].runstate >= EXITED ==> job.runstate >= EXITED
    requires s.jobs[j].runstate == REAPED ==> job.runstate == REAPED
    ensures var t := Put(s, j, job); OrderOk(t) && FencesOk(t) && HandshakeOk(t)
  {
    var t := Put(s, j, job);
    forall a, k | 0 <= a < |t.jobs| && 0 <= k < |t.jobs| && Created(t.jobs[a]) && Fences(t.jobs[a], t.jobs[k])
      ensures t.jobs[k].runstate >= EXITED
    {
      assert Created(s.jobs[a]) && Fences(s.jobs[a], s.jobs[k]);
    }
    forall a, k | 0 <= a < |t.jobs| && 0 <= k < |t.jobs| && t.jobs[a].released && SameBatch(t.jobs[a], t.jobs[k])
      ensures t.jobs[k].upped
    {
      assert s.jobs[a].released && SameBatch(s.jobs[a], s.jobs[k]);
    }
  }

  lemma OwnMoveInv(s: State, j: nat, job: Job, sem: nat)
    requires Inv(s) && j < |s.jobs| && OwnMove(s.jobs[j], job)
    requires SemOk(Put(s, j, job).(startupSem := sem))
    ensures Inv(Put(s, j, job).(startupSem := sem))
  {
    var t := Put(s, j, job);
    OwnMoveJobs(s, j, job);
    OwnMoveFences(s, j, job);
    var u := t.(startupSem := sem);
    forall k | 0 <= k < |u.jobs| ensures FieldsOk(u.jobs[k]) && PhaseOk(u, k) && BatchClosed(u, k) {
      assert FieldsOk(t.jobs[k]) && PhaseOk(t, k) && BatchClosed(t, k);
    }
  }

  /** The semaphore is raised only by the job the scheduler is waiting for. */
  lemma RaiseInv(s: State, j: nat)
    requires Inv(s) && Enabled(s, RaiseStartup(j))
    ensures Inv(Apply(s, RaiseStartup(j)))
  {
    assert FieldsOk(s.jobs[j]) && PhaseOk(s, j);
    OwnMoveInv(s, j, s.jobs[j].(upped := true), s.startupSem + 1);
  }

  lemma JobStepInv(s: State, step: Step)
    requires Inv(s) && Enabled(s, step)
    requires step.SetPid? || step.Initialize? || step.Err? || step.PassSem? || step.Move? || step.Die?
    ensures Inv(Apply(s, step))
  {
    var j := step.j;
    assert FieldsOk(s.jobs[j]);
    OwnMoves(s, step);
    OwnMoveInv(s, j, Apply(s, step).jobs[j], s.startupSem);
  }

  lemma OwnMoves(s: State, step: Step)
    requires Enabled(s, step)
    requires step.SetPid? || step.Initialize? || step.Err? || step.PassSem? || step.Move? || step.Die?
    requires FieldsOk(s.jobs[step.j])
    ensures Apply(s, step) == Put(s, step.j, Apply(s, step).jobs[step.j])
    ensures OwnMove(s.jobs[step.j], Apply(s, step).jobs[step.j])
    ensures Apply(s, step).jobs[step.j].upped == s.jobs[step.j].upped
  {
  }

  // -------------------------------------------------------------- scheduler steps

  /** Steps that only move from one phase to another. */
  lemma PhaseInv(s: State, t: State)
    requires Inv(s) && t.jobs == s.jobs && t.order == s.order && t.failed == s.failed
    requires t.nrStarted == s.nrStarted && t.nrRunning == s.nrRunning && t.round >= s.round
    requires s.phase.Final? ==> t.phase.Final?
    requires forall j :: 0 <= j < |t.jobs| ==> PhaseOk(t, j) && BatchClosed(t, j)
    requires (forall j :: j in t.current ==> j < |t.jobs|) && FailureOk(t) && SemOk(t) && !t.phase.AwaitSem?
    ensures Inv(t)
  {
    forall j | 0 <= j < |t.jobs| ensures FieldsOk(t.jobs[j]) { assert FieldsOk(s.jobs[j]); }
  }

  predicate MovesPhase(step: Step) {
    step.Pass? || step.StonewallWait? || step.StartupOk? || step.GiveUp? || step.NextBatch?
  }

  lemma MovePhaseInv(s: State, step: Step)
    requires Inv(s) && Enabled(s, step) && MovesPhase(step)
    ensures Inv(Apply(s, step))
  {
    var t := Apply(s, step);
    forall j | 0 <= j < |t.jobs| ensures PhaseOk(t, j) && BatchClosed(t, j) {
      assert FieldsOk(s.jobs[j]) && PhaseOk(s, j) && BatchClosed(s, j);
    }
    PhaseInv(s, t);
  }

  /** With both counters at zero every created job has been reaped. */
  lemma AllReaped(s: State)
    requires Inv(s) && !s.failed && !s.phase.Final? && s.nrStarted == 0 && s.nrRunning == 0
    ensures forall j :: 0 <= j < |s.jobs| && Created(s.jobs[j]) ==> s.jobs[j].runstate == REAPED
  {
    CountZero(s.jobs, Started);
    CountZero(s.jobs, Running);
    forall j | 0 <= j < |s.jobs| && Created(s.jobs[j]) ensures s.jobs[j].runstate == REAPED {
      assert FieldsOk(s.jobs[j]);
    }
  }

  lemma CreateJobs(s: State, spawned: bool)
    requires Inv(s) && Enabled(s, Create(spawned))
    ensures var t := Apply(s, Create(spawned));
      && (forall j :: 0 <= j < |t.jobs| ==> FieldsOk(t.jobs[j]) && PhaseOk(t, j) && BatchClosed(t, j))
      && CountersOk(t) && SemOk(t) && FailureOk(t)
  {
    var t := Apply(s, Create(spawned));
    var i := s.phase.i;
    assert FieldsOk(s.jobs[i]);
    CountUpdate(s.jobs, i, t.jobs[i], Started);
    CountUpdate(s.jobs, i, t.jobs[i], Running);
    forall j | 0 <= j < |t.jobs| ensures FieldsOk(t.jobs[j]) && PhaseOk(t, j) && BatchClosed(t, j) {
      assert FieldsOk(s.jobs[j]) && PhaseOk(s, j) && BatchClosed(s, j);
    }
  }

  lemma CreateOrder(s: State, spawned: bool)
    requires Inv(s) && Enabled(s, Create(spawned))
    ensures OrderOk(Apply(s, Create(spawned)))
  {
    var t := Apply(s, Create(spawned));
    var i := s.phase.i;
    assert FieldsOk(s.jobs[i]);
    if s.jobs[i].stonewall { AllReaped(s); }
    assert forall k :: 0 <= k < |s.order| ==> t.order[k] == s.order[k] != i;
  }

  lemma CreateFences(s: State, spawned: bool)
    requires Inv(s) && Enabled(s, Create(spawned))
    ensures var t := Apply(s, Create(spawned)); FencesOk(t) && HandshakeOk(t)
  {
    var t := Apply(s, Create(spawned));
    var i := s.phase.i;
    assert FieldsOk(s.jobs[i]);
    forall j, k | 0 <= j < |t.jobs| && 0 <= k < |t.jobs| && Created(t.jobs[j]) && Fences(t.jobs[j], t.jobs[k])
      ensures t.jobs[k].runstate >= EXITED
    {
      assert Fences(s.jobs[j], s.jobs[k]);
    }
    forall j, k | 0 <= j < |t.jobs| && 0 <= k < |t.jobs| && t.jobs[j].released && SameBatch(t.jobs[j], t.jobs[k])
      ensures t.jobs[k].upped
    {
      assert PhaseOk(s, j) && s.jobs[j].released;
      if k != i { assert SameBatch(s.jobs[j], s.jobs[k]); }
    }
  }

  lemma CreateInv(s: State, spawned: bool)
    requires Inv(s) && Enabled(s, Create(spawned))
    ensures Inv(Apply(s, Create(spawned)))
  {
    CreateJobs(s, spawned);
    CreateOrder(s, spawned);
    CreateFences(s, spawned);
  }

  lemma HungInv(s: State)
    requires Inv(s) && Enabled(s, StartupHung)
    ensures Inv(Apply(s, StartupHung))
  {
    var t := Apply(s, StartupHung);
    forall j | 0 <= j < |t.jobs| ensures FieldsOk(t.jobs[j]) && PhaseOk(t, j) && BatchClosed(t, j) {
      assert FieldsOk(s.jobs[j]) && PhaseOk(s, j) && BatchClosed(s, j);
    }
  }

  /** A job the wait loop can settle is initialized: one that failed before has not
      raised startup_sem, which ended the pass. */
  lemma ObservedReady(s: State, j: nat)
    requires Inv(s) && Enabled(s, Observe(j))
    ensures s.jobs[j].runstate == INITIALIZED
  {
    assert FieldsOk(s.jobs[j]) && PhaseOk(s, j);
  }

  lemma ObserveInv(s: State, j: nat)
    requires Inv(s) && Enabled(s, Observe(j))
    ensures Inv(Apply(s, Observe(j)))
  {
    var t := Apply(s, Observe(j));
    ObservedReady(s, j);
    forall k | 0 <= k < |t.jobs| ensures FieldsOk(t.jobs[k]) && PhaseOk(t, k) && BatchClosed(t, k) {
      assert FieldsOk(s.jobs[k]) && PhaseOk(s, k) && BatchClosed(s, k);
    }
  }

  lemma StartJobs(s: State, ramp: bool)
    requires Inv(s) && Enabled(s, StartJob(ramp))
    ensures var t := Apply(s, StartJob(ramp));
      && (forall k :: 0 <= k < |t.jobs| ==> FieldsOk(t.jobs[k]) && PhaseOk(t, k) && BatchClosed(t, k))
      && CountersOk(t) && SemOk(t) && FailureOk(t)
  {
    var t := Apply(s, StartJob(ramp));
    var i := s.phase.i;
    CountUpdate(s.jobs, i, t.jobs[i], Started);
    CountUpdate(s.jobs, i, t.jobs[i], Running);
    forall k | 0 <= k < |t.jobs| ensures FieldsOk(t.jobs[k]) && PhaseOk(t, k) && BatchClosed(t, k) {
      assert FieldsOk(s.jobs[k]) && PhaseOk(s, k) && BatchClosed(s, k);
    }
  }

  /** The whole batch is past initialization when the first of it is released. */
  lemma StartFences(s: State, ramp: bool)
    requires Inv(s) && Enabled(s, StartJob(ramp))
    ensures var t := Apply(s, StartJob(ramp)); OrderOk(t) && FencesOk(t) && HandshakeOk(t)
  {
    var t := Apply(s, StartJob(ramp));
    var i := s.phase.i;
    assert FieldsOk(s.jobs[i]) && PhaseOk(s, i);
    forall j, k | 0 <= j < |t.jobs| && 0 <= k < |t.jobs| && Created(t.jobs[j]) && Fences(t.jobs[j], t.jobs[k])
      ensures t.jobs[k].runstate >= EXITED
    {
      assert Fences(s.jobs[j], s.jobs[k]);
    }
    forall j, k | 0 <= j < |t.jobs| && 0 <= k < |t.jobs| && t.jobs[j].released && SameBatch(t.jobs[j], t.jobs[k])
      ensures t.jobs[k].upped
    {
      assert PhaseOk(s, k) && SameBatch(s.jobs[j], s.jobs[k]);
    }
  }

  lemma StartInv(s: State, ramp: bool)
    requires Inv(s) && Enabled(s, StartJob(ramp))
    ensures Inv(Apply(s, StartJob(ramp)))
  {
    StartJobs(s, ramp);
    StartFences(s, ramp);
  }

  lemma ReapInv(s: State, j: nat, phase: Phase)
    requires Inv(s) && j < |s.jobs| && Reapable(s.jobs[j])
    requires (s.phase == Reaping(j) && phase == Reaping(j + 1)) || (s.phase.Final? && phase.Final?)
    ensures Inv(Reap(s, j).(phase := phase))
  {
    var t := Reap(s, j).(phase := phase);
    CountUpdate(s.jobs, j, t.jobs[j], Started);
    CountUpdate(s.jobs, j, t.jobs[j], Running);
    assert FieldsOk(s.jobs[j]) && PhaseOk(s, j);
    KeepFences(s, j, t.jobs[j]);
    forall k | 0 <= k < |t.jobs| ensures FieldsOk(t.jobs[k]) && PhaseOk(t, k) && BatchClosed(t, k) {
      assert FieldsOk(s.jobs[k]) && PhaseOk(s, k) && BatchClosed(s, k);
    }
  }

  lemma ReapStepInv(s: State, step: Step)
    requires Inv(s) && Enabled(s, step) && (step.ReapJob? || step.ReapLate?)
    ensures Inv(Apply(s, step))
  {
    if step.ReapJob? { ReapInv(s, s.phase.i, Reaping(s.phase.i + 1)); } else { ReapInv(s, step.j, Final); }
  }

  lemma StepInv(s: State, step: Step)
    requires Inv(s) && Enabled(s, step)
    ensures Inv(Apply(s, step))
  {
    match step
    case Create(spawned) => CreateInv(s, spawned);
    case StartupHung => HungInv(s);
    case Observe(j) => ObserveInv(s, j);
    case StartJob(ramp) => StartInv(s, ramp);
    case ReapJob => ReapStepInv(s, step);
    case ReapLate(_) => ReapStepInv(s, step);
    case RaiseStartup(j) => RaiseInv(s, j);
    case _ => if MovesPhase(step) { MovePhaseInv(s, step); } else { JobStepInv(s, step); }
  }

  lemma NextInv(s: State, t: State)
    requires Inv(s) && Next(s, t)
    ensures Inv(t)
  {
    var step :| Enabled(s, step) && t == Apply(s, step);
    StepInv(s, step);
  }

  lemma {:induction false} RunInv(run: seq<State>, i: nat)
    requires IsRun(run) && i < |run|
    ensures Inv(run[i])
  {
    if i == 0 {
      InitialInv(run[0]);
    } else {
      RunInv(run, i - 1);
      assert Next(run[i - 1], run[i - 1 + 1]);
      NextInv(run[i - 1], run[i]);
    }
  }

  // ------------------------------------------------------------------ theorems

  /** Whenever a stonewall job has been created, every job created before it is
      reaped. */
  lemma StonewallFence(run: seq<State>, i: nat, m: nat, k: nat)
    requires IsRun(run) && i < |run| && m < k < |run[i].order|
    ensures run[i].order[k] < |run[i].jobs| && run[i].order[m] < |run[i].jobs|
    ensures run[i].jobs[run[i].order[k]].stonewall ==> run[i].jobs[run[i].order[m]].runstate == REAPED
  {
    RunInv(run, i);
  }

  /** A job that waits for others is created only when all of them, other than its
      own namesakes, are at or past TD_EXITED, and they stay there. */
  lemma WaitForFence(run: seq<State>, i: nat, j: nat, k: nat)
    requires IsRun(run) && i < |run| && j < |run[i].jobs| && k < |run[i].jobs|
    requires Created(run[i].jobs[j]) && Fences(run[i].jobs[j], run[i].jobs[k])
    ensures run[i].jobs[k].runstate >= EXITED
  {
    RunInv(run, i);
  }

  /** No job is past td->sem before every job of its batch has been initialized and
      has raised startup_sem. */
  lemma StartTogether(run: seq<State>, i: nat, j: nat, k: nat)
    requires IsRun(run) && i < |run| && j < |run[i].jobs| && k < |run[i].jobs|
    requires run[i].jobs[j].passed && SameBatch(run[i].jobs[j], run[i].jobs[k])
    ensures run[i].jobs[k].upped && run[i].jobs[k].runstate >= INITIALIZED
  {
    RunInv(run, i);
    assert FieldsOk(run[i].jobs[j]) && FieldsOk(run[i].jobs[k]);
  }

  /** When a stonewall job is about to become TD_CREATED, every job ever created is
      TD_REAPED. */
  lemma StonewallCreation(run: seq<State>, i: nat, spawned: bool, j: nat)
    requires IsRun(run) && i < |run| && Enabled(run[i], Create(spawned))
    requires run[i].jobs[run[i].phase.i].stonewall
    requires j < |run[i].jobs| && Created(run[i].jobs[j])
    ensures run[i].jobs[j].runstate == REAPED
  {
    RunInv(run, i);
    AllReaped(run[i]);
  }

  /** Created, not yet released through td->sem. */
  predicate Unstarted(j: Job) {
    Created(j) && !j.released && j.runstate != REAPED
  }

  /** Released through td->sem, not yet reaped. */
  predicate Active(j: Job) {
    j.released && j.runstate != REAPED
  }

  function Number(jobs: seq<Job>, p: Job -> bool): nat {
    if jobs == [] then 0 else (if p(jobs[0]) then 1 else 0) + Number(jobs[1..], p)
  }

  lemma {:induction false} CountIsNumber(jobs: seq<Job>, a: Account, p: Job -> bool)
    requires forall j :: 0 <= j < |jobs| ==> (p(jobs[j]) <==> jobs[j].account == a)
    ensures Count(jobs, a) == Number(jobs, p)
  {
    if jobs != [] {
      assert forall j :: 0 <= j < |jobs[1..]| ==> jobs[1..][j] == jobs[j + 1];
      CountIsNumber(jobs[1..], a, p);
    }
  }

  /** What the two accounts mean. */
  lemma AccountsMean(s: State)
    requires Inv(s)
    ensures Count(s.jobs, Started) == Number(s.jobs, Unstarted)
    ensures Count(s.jobs, Running) == Number(s.jobs, Active)
  {
    forall j | 0 <= j < |s.jobs|
      ensures Unstarted(s.jobs[j]) <==> s.jobs[j].account == Started
      ensures Active(s.jobs[j]) <==> s.jobs[j].account == Running
    {
      assert FieldsOk(s.jobs[j]);
    }
    CountIsNumber(s.jobs, Started, Unstarted);
    CountIsNumber(s.jobs, Running, Active);
  }

  /** Until creation fails, nr_started counts the created jobs that are not started
      and nr_running the started ones that are not reaped. */
  lemma CountersExact(run: seq<State>, i: nat)
    requires IsRun(run) && i < |run| && !run[i].failed && !run[i].phase.Final?
    ensures run[i].nrStarted == Number(run[i].jobs, Unstarted)
    ensures run[i].nrRunning == Number(run[i].jobs, Active)
  {
    RunInv(run, i);
    AccountsMean(run[i]);
  }

  /** The branch of the wait loop for a job that has already exited, which counts it in
      nr_running without taking it off nr_started, is never taken. */
  lemma WaitSeesNoExit(run: seq<State>, i: nat, j: nat)
    requires IsRun(run) && i < |run| && Enabled(run[i], Observe(j))
    ensures run[i].jobs[j].runstate == INITIALIZED
  {
    RunInv(run, i);
    ObservedReady(run[i], j);
  }

  /** A step makes a job TD_REAPED only if it has exited or died. */
  lemma ReapsOnlyTheDead(s: State, step: Step, j: nat)
    requires Enabled(s, step) && j < |s.jobs|
    ensures |Apply(s, step).jobs| == |s.jobs|
    ensures s.jobs[j].runstate < EXITED && !s.jobs[j].dead ==> Apply(s, step).jobs[j].runstate != REAPED
  {
  }

  /** A created job that has reached TD_EXITED or lost its thread or process. */
  predicate Departed(s: State, j: nat) {
    j < |s.jobs| && Created(s.jobs[j]) && (s.jobs[j].runstate == EXITED || s.jobs[j].dead)
  }

  lemma StepReaps(s: State, step: Step, j: nat)
    requires Enabled(s, step) && j < |s.jobs| == |Apply(s, step).jobs|
    requires Created(Apply(s, step).jobs[j]) && Apply(s, step).jobs[j].runstate == REAPED
    requires s.jobs[j].runstate <= REAPED
    ensures Departed(s, j) || (Created(s.jobs[j]) && s.jobs[j].runstate == REAPED)
  {
    ReapsOnlyTheDead(s, step, j);
  }

  lemma Lengths(s: State, step: Step)
    requires Enabled(s, step)
    ensures |Apply(s, step).jobs| == |s.jobs|
  {
  }

  lemma NewlyReaped(s: State, t: State, j: nat)
    requires (forall k :: 0 <= k < |s.jobs| ==> s.jobs[k].runstate <= REAPED) && Next(s, t)
    requires j < |t.jobs| && Created(t.jobs[j]) && t.jobs[j].runstate == REAPED
    ensures Departed(s, j) || (j < |s.jobs| && Created(s.jobs[j]) && s.jobs[j].runstate == REAPED)
  {
    var step :| Enabled(s, step) && t == Apply(s, step);
    Lengths(s, step);
    StepReaps(s, step, j);
  }

  /** A created job that is TD_REAPED had exited or died in an earlier state. */
  lemma {:induction false} ReapedHadDeparted(run: seq<State>, i: nat, j: nat) returns (m: nat)
    requires IsRun(run) && i < |run| && j < |run[i].jobs|
    requires Created(run[i].jobs[j]) && run[i].jobs[j].runstate == REAPED
    ensures m < i && Departed(run[m], j)
  {
    RunInv(run, i);
    if i == 0 {
      assert false;
    }
    RunInv(run, i - 1);
    var s := run[i - 1];
    assert forall k :: 0 <= k < |s.jobs| ==> FieldsOk(s.jobs[k]);
    assert Next(s, run[i - 1 + 1]);
    NewlyReaped(s, run[i], j);
    if Departed(run[i - 1], j) { m := i - 1; } else { m := ReapedHadDeparted(run, i - 1, j); }
  }

  /** When a stonewall job is about to be created, every job created before has exited
      or died. */
  lemma StonewallAfterExit(run: seq<State>, i: nat, spawned: bool, j: nat) returns (m: nat)
    requires IsRun(run) && i < |run| && Enabled(run[i], Create(spawned))
    requires run[i].jobs[run[i].phase.i].stonewall
    requires j < |run[i].jobs| && Created(run[i].jobs[j])
    ensures m < i && Departed(run[m], j)
  {
    StonewallCreation(run, i, spawned, j);
    m := ReapedHadDeparted(run, i, j);
  }

  /** The create loop takes a job exactly when it is not created yet, no waitee of another
      name is short of TD_EXITED and, for a stonewall job, all created jobs are reaped. */
  lemma CreateExactly(run: seq<State>, i: nat, spawned: bool)
    requires IsRun(run) && i < |run| && run[i].phase.Creating? && run[i].phase.i < |run[i].jobs|
    ensures var jobs, me := run[i].jobs, run[i].jobs[run[i].phase.i];
      Enabled(run[i], Create(spawned)) <==>
        && me.runstate == NOT_CREATED
        && (me.stonewall ==> forall j :: 0 <= j < |jobs| && Created(jobs[j]) ==> jobs[j].runstate == REAPED)
        && (forall k :: 0 <= k < |jobs| && me.waitFor == Some(jobs[k].name) && jobs[k].name != me.name ==>
          jobs[k].runstate >= EXITED)
  {
    RunInv(run, i);
    var s := run[i];
    CountZero(s.jobs, Started);
    CountZero(s.jobs, Running);
    assert forall j :: 0 <= j < |s.jobs| ==> FieldsOk(s.jobs[j]);
    assert (s.nrStarted == 0 && s.nrRunning == 0) <==>
      forall j :: 0 <= j < |s.jobs| && Created(s.jobs[j]) ==> s.jobs[j].runstate == REAPED;
  }

  /** What ends the create loop: a stonewall job that has to wait, a failed creation and a
      hung one; a hung one also aborts. */
  lemma CreateLoopEnds(s: State)
    ensures Enabled(s, StonewallWait) ==> Apply(s, StonewallWait) == s.(phase := Waiting(s.current))
    ensures Enabled(s, Create(false)) ==>
      var t := Apply(s, Create(false));
      t.phase == Waiting(s.current + {s.phase.i}) && t.nrStarted == s.nrStarted && t.jobs[s.phase.i].runstate == CREATED
    ensures Enabled(s, StartupHung) ==>
      var t := Apply(s, StartupHung);
      t.abort && t.phase == Waiting(s.current) && t.nrStarted == s.nrStarted - 1 && t.jobs == s.jobs
  {
  }

  // ------------------------------------------------------------ a complete run

  lemma Extend(run: seq<State>, step: Step, t: State)
    requires IsRun(run) && Enabled(run[|run| - 1], step) && t == Apply(run[|run| - 1], step)
    ensures IsRun(run + [t])
  {
    var longer := run + [t];
    forall i | 0 <= i < |longer| - 1 ensures Next(longer[i], longer[i + 1]) {
      if i < |run| - 1 { assert Next(run[i], run[i + 1]); } else { assert Next(run[|run| - 1], t); }
    }
  }

  /** The state of a scheduler with one job. */
  function One(runstate: nat, account: Account, upped: bool, released: bool, phase: Phase, current: set<nat>): State {
    var started := if account.Started? then 1 else 0;
    var running := if account.Running? then 1 else 0;
    var sem := if upped && phase.AwaitSem? then 1 else 0;
    var batch := if runstate == NOT_CREATED then 0 else 1;
    var order := if runstate == NOT_CREATED then [] else [0];
    State([Job(false, 0, None, runstate, account, batch, released, upped, released, released, false)],
          phase, started, running, sem, 1, current, false, order, false, 0)
  }

  /** A job is created, initialized and waited for. */
  lemma OneCreated() returns (run: seq<State>)
    ensures IsRun(run) && run[|run| - 1] == One(INITIALIZED, Started, true, false, Creating(1), {0})
  {
    run := [One(NOT_CREATED, Nowhere, false, false, Creating(0), {})];
    Extend(run, Create(true), One(CREATED, Started, false, false, AwaitSem(0), {0}));
    run := run + [One(CREATED, Started, false, false, AwaitSem(0), {0})];
    Extend(run, Initialize(0), One(INITIALIZED, Started, false, false, AwaitSem(0), {0}));
    run := run + [One(INITIALIZED, Started, false, false, AwaitSem(0), {0})];
    Extend(run, RaiseStartup(0), One(INITIALIZED, Started, true, false, AwaitSem(0), {0}));
    run := run + [One(INITIALIZED, Started, true, false, AwaitSem(0), {0})];
    Extend(run, StartupOk, One(INITIALIZED, Started, true, false, Creating(1), {0}));
    run := run + [One(INITIALIZED, Started, true, false, Creating(1), {0})];
  }

  /** Then seen ready, and about to be started. */
  lemma OneReady() returns (run: seq<State>)
    ensures IsRun(run) && run[|run| - 1] == One(INITIALIZED, Started, true, false, Starting(0), {0})
  {
    run := OneCreated();
    Extend(run, NextBatch, One(INITIALIZED, Started, true, false, Waiting({0}), {0}));
    run := run + [One(INITIALIZED, Started, true, false, Waiting({0}), {0})];
    Extend(run, Observe(0), One(INITIALIZED, Started, true, false, Waiting({}), {0}));
    run := run + [One(INITIALIZED, Started, true, false, Waiting({}), {0})];
    Extend(run, NextBatch, One(INITIALIZED, Started, true, false, Starting(0), {0}));
    run := run + [One(INITIALIZED, Started, true, false, Starting(0), {0})];
  }

  /** Then started; its pid is known and it has passed td->sem. */
  lemma OneRunning() returns (run: seq<State>)
    ensures IsRun(run) && run[|run| - 1] == One(RUNNING, Running, true, true, Reaping(0), {0})
  {
    run := OneReady();
    var started := Apply(run[|run| - 1], StartJob(false));
    Extend(run, StartJob(false), started);
    run := run + [started];
    var withPid := Apply(started, SetPid(0));
    Extend(run, SetPid(0), withPid);
    run := run + [withPid];
    Extend(run, PassSem(0), One(RUNNING, Running, true, true, Starting(1), {0}));
    run := run + [One(RUNNING, Running, true, true, Starting(1), {0})];
    Extend(run, NextBatch, One(RUNNING, Running, true, true, Reaping(0), {0}));
    run := run + [One(RUNNING, Running, true, true, Reaping(0), {0})];
  }

  /** The protocol can be completed: a job is created, initialized, started, exits and is
      reaped, and both counters return to zero. */
  lemma CompleteRun() returns (run: seq<State>)
    ensures IsRun(run) && run[|run| - 1] == One(REAPED, Nowhere, true, true, Reaping(1), {0})
  {
    run := OneRunning();
    Extend(run, Move(0, EXITED), One(EXITED, Running, true, true, Reaping(0), {0}));
    run := run + [One(EXITED, Running, true, true, Reaping(0), {0})];
    Extend(run, ReapJob, One(REAPED, Nowhere, true, true, Reaping(1), {0}));
    run := run + [One(REAPED, Nowhere, true, true, Reaping(1), {0})];
  }

  // ------------------------------------------------------------ the loops in place

  /** The rest of one `reap_threads` with no step of a job in between. */
  function ReapPass(s: State): (t: State)
    requires s.phase.Reaping? && s.phase.i <= |s.jobs|
    ensures |t.jobs| == |s.jobs| && t.phase == Reaping(|s.jobs|)
    decreases |s.jobs| - s.phase.i
  {
    if s.phase.i == |s.jobs| then s
    else ReapPass(Apply(s, if Reapable(s.jobs[s.phase.i]) then ReapJob else Pass))
  }

  /** The rest of the start loop; `ramp` says which jobs have a ramp period. */
  function StartPass(s: State, ramp: seq<bool>): (t: State)
    requires s.phase.Starting? && s.phase.i <= |s.jobs| == |ramp|
    ensures |t.jobs| == |s.jobs| && t.phase == Starting(|s.jobs|)
    decreases |s.jobs| - s.phase.i
  {
    if s.phase.i == |s.jobs| then s
    else
      var step := if s.jobs[s.phase.i].runstate == INITIALIZED then StartJob(ramp[s.phase.i]) else Pass;
      StartPass(Apply(s, step), ramp)
  }

  lemma {:induction false} ReapPassAt(s: State, k: nat)
    requires s.phase.Reaping? && s.phase.i <= |s.jobs| && k < |s.jobs|
    ensures ReapPass(s).jobs[k] ==
            if k >= s.phase.i && Reapable(s.jobs[k]) then s.jobs[k].(runstate := REAPED, account := Nowhere)
            else s.jobs[k]
    decreases |s.jobs| - s.phase.i
  {
    if s.phase.i < |s.jobs| {
      ReapPassAt(Apply(s, if Reapable(s.jobs[s.phase.i]) then ReapJob else Pass), k);
    }
  }

  lemma {:induction false} ReapPassCounts(s: State)
    requires Inv(s) && s.phase.Reaping? && s.phase.i <= |s.jobs|
    ensures Inv(ReapPass(s))
    ensures ReapPass(s).nrRunning == s.nrRunning - Count(s.jobs, Running) + Count(ReapPass(s).jobs, Running)
    decreases |s.jobs| - s.phase.i
  {
    if s.phase.i < |s.jobs| {
      var step := if Reapable(s.jobs[s.phase.i]) then ReapJob else Pass;
      ReapStepCounts(s, step);
      ReapPassCounts(Apply(s, step));
    }
  }

  lemma {:induction false} NumberReaped(before: seq<Job>, after: seq<Job>)
    requires |after| == |before|
    requires forall k :: 0 <= k < |before| ==>
      && (Reapable(before[k]) ==> Active(before[k]) && !Active(after[k]))
      && (!Reapable(before[k]) ==> after[k] == before[k])
    ensures Number(after, Active) == Number(before, Active) - Number(before, Reapable)
  {
    if before != [] {
      assert forall k :: 0 <= k < |before[1..]| ==> before[1..][k] == before[k + 1] && after[1..][k] == after[k + 1];
      NumberReaped(before[1..], after[1..]);
    }
  }

  /** A reap pass reaps exactly the jobs that can be reaped, touches no other job, and
      takes their number off nr_running. */
  lemma ReapPassExact(s: State)
    requires Inv(s) && s.phase == Reaping(0)
    ensures var t := ReapPass(s);
      && Inv(t)
      && (forall k :: 0 <= k < |s.jobs| ==>
        t.jobs[k] == if Reapable(s.jobs[k]) then s.jobs[k].(runstate := REAPED, account := Nowhere) else s.jobs[k])
      && t.nrRunning == s.nrRunning - Number(s.jobs, Reapable)
  {
    ReapPassCounts(s);
    forall k | 0 <= k < |s.jobs|
      ensures ReapPass(s).jobs[k] ==
              if Reapable(s.jobs[k]) then s.jobs[k].(runstate := REAPED, account := Nowhere) else s.jobs[k]
    {
      ReapPassAt(s, k);
    }
    AccountsMean(s);
    AccountsMean(ReapPass(s));
    forall k | 0 <= k < |s.jobs| && Reapable(s.jobs[k]) ensures Active(s.jobs[k]) {
      assert FieldsOk(s.jobs[k]) && PhaseOk(s, k);
    }
    NumberReaped(s.jobs, ReapPass(s).jobs);
  }

  lemma ReapStepCounts(s: State, step: Step)
    requires Inv(s) && s.phase.Reaping? && s.phase.i < |s.jobs| && Enabled(s, step)
    requires step == if Reapable(s.jobs[s.phase.i]) then ReapJob else Pass
    ensures Inv(Apply(s, step))
    ensures Apply(s, step).nrRunning - Count(Apply(s, step).jobs, Running) == s.nrRunning - Count(s.jobs, Running)
  {
    StepInv(s, step);
    assert FieldsOk(s.jobs[s.phase.i]) && PhaseOk(s, s.phase.i);
    CountUpdate(s.jobs, s.phase.i, Apply(s, step).jobs[s.phase.i], Running);
  }

  lemma {:induction false} StartPassAt(s: State, ramp: seq<bool>, k: nat)
    requires s.phase.Starting? && s.phase.i <= |s.jobs| == |ramp| && k < |s.jobs|
    ensures StartPass(s, ramp).jobs[k] ==
            if k >= s.phase.i && s.jobs[k].runstate == INITIALIZED
            then s.jobs[k].(runstate := if ramp[k] then RAMP else RUNNING, account := Running, released := true)
            else s.jobs[k]
    decreases |s.jobs| - s.phase.i
  {
    if s.phase.i < |s.jobs| {
      var step := if s.jobs[s.phase.i].runstate == INITIALIZED then StartJob(ramp[s.phase.i]) else Pass;
      StartPassAt(Apply(s, step), ramp, k);
    }
  }

  /** After the start loop every job that was initialized has been released, and
      nr_started is zero. */
  lemma {:induction false} StartPassExact(s: State, ramp: seq<bool>, k: nat)
    requires Inv(s) && s.phase.Starting? && s.phase.i <= |s.jobs| == |ramp| && k < |s.jobs|
    ensures Inv(StartPass(s, ramp)) && StartPass(s, ramp).nrStarted == 0
    ensures StartPass(s, ramp).jobs[k] ==
            if k >= s.phase.i && s.jobs[k].runstate == INITIALIZED
            then s.jobs[k].(runstate := if ramp[k] then RAMP else RUNNING, account := Running, released := true)
            else s.jobs[k]
    decreases |s.jobs| - s.phase.i
  {
    var i := s.phase.i;
    if i < |s.jobs| {
      var step := if s.jobs[i].runstate == INITIALIZED then StartJob(ramp[i]) else Pass;
      StepInv(s, step);
      StartPassExact(Apply(s, step), ramp, k);
    } else {
      forall j | 0 <= j < |s.jobs| ensures s.jobs[j].account != Started { assert PhaseOk(s, j); }
      CountZero(s.jobs, Started);
    }
  }

  /** The job table and the two counters, updated in place. */
  class Backend {
    const jobs: array<Job>
    var nrStarted: int
    var nrRunning: int

    constructor (jobs: array<Job>)
      ensures this.jobs == jobs && nrStarted == 0 && nrRunning == 0
    {
      this.jobs := jobs;
      nrStarted, nrRunning := 0, 0;
    }

    ghost predicate Shows(s: State)
      reads this, jobs
    {
      jobs[..] == s.jobs && nrStarted == s.nrStarted && nrRunning == s.nrRunning
    }

    method ReapThreads(ghost s: State)
      requires Shows(s) && s.phase == Reaping(0)
      modifies this, jobs
      ensures Shows(ReapPass(s))
      ensures forall k :: 0 <= k < jobs.Length ==>
        var was := old(jobs[k]);
        jobs[k] == if was.pid && was.batch > 0 && was.runstate != REAPED && (was.runstate == EXITED || was.dead)
                   then was.(runstate := REAPED, account := Nowhere)
                   else was
    {
      ghost var t := s;
      for i := 0 to jobs.Length
        invariant t.phase == Reaping(i) && |t.jobs| == jobs.Length && Shows(t) && ReapPass(t) == ReapPass(s)
      {
        var job := jobs[i];
        assert job == t.jobs[i];
        if job.pid && Created(job) && job.runstate != REAPED && (job.runstate == EXITED || job.dead) {
          jobs[i] := job.(runstate := REAPED, account := Nowhere);
          nrRunning := nrRunning - 1;
          t := Apply(t, ReapJob);
        } else {
          t := Apply(t, Pass);
        }
      }
      forall k: nat | k < |s.jobs| { ReapPassAt(s, k); }
    }

    method StartThreads(ramp: seq<bool>, ghost s: State)
      requires Shows(s) && s.phase == Starting(0) && |ramp| == jobs.Length
      modifies this, jobs
      ensures Shows(StartPass(s, ramp))
      ensures forall k :: 0 <= k < jobs.Length ==>
        var was := old(jobs[k]);
        jobs[k] == if was.runstate == INITIALIZED
                   then was.(runstate := if ramp[k] then RAMP else RUNNING, account := Running, released := true)
                   else was
    {
      ghost var t := s;
      for i := 0 to jobs.Length
        invariant t.phase == Starting(i) && |t.jobs| == jobs.Length && Shows(t)
        invariant StartPass(t, ramp) == StartPass(s, ramp)
      {
        var job := jobs[i];
        assert job == t.jobs[i];
        if job.runstate == INITIALIZED {
          jobs[i] := job.(runstate := if ramp[i] then RAMP else RUNNING, account := Running, released := true);
          nrRunning := nrRunning + 1;
          nrStarted := nrStarted - 1;
          t := Apply(t, StartJob(ramp[i]));
        } else {
          t := Apply(t, Pass);
        }
      }
      forall k: nat | k < |s.jobs| { StartPassAt(s, ramp, k); }
    }
  }
}
