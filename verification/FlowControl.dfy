/**
 Weighted flow control of flow.c.

 Jobs of one flow group share a counter and a total weight.  A job issues its
 next I/O only while its own share of the counter does not exceed its share of
 the weight.  The two ratios, doubles in the source, are compared exactly here by
 cross-multiplication.  The loads, the comparison, the atomic add and the
 increment of the job's own counter are separate steps that interleave.
 */
module FlowControl {

  /** Where a job is with respect to the group: outside, between taking its
      reference and adding its weight, or somewhere in `flow_threshold_exceeded`. */
  datatype Pc = Out | Joining | Idle | Loaded(seen: nat) | Passed | Added

  datatype Job = Job(weight: nat, counter: nat, pc: Pc) {
    /** Grants of this job that the shared counter already includes. */
    function Granted(): nat {
      if pc.Out? then 0 else if pc.Added? then counter + 1 else counter
    }

    function Weighed(): nat {
      if pc.Out? || pc.Joining? then 0 else weight
    }

    function Refs(): nat {
      if pc.Out? then 0 else 1
    }
  }

  /** One group.  `leaked` counts the jobs that left between the shared add and
      their own increment since the group was created. */
  datatype State = State(counter: nat, total: nat, refs: nat, jobs: seq<Job>, leaked: nat, aborted: bool)

  datatype Step =
    | Join(i: nat, weight: nat)
    | Weigh(i: nat)
    | Load(i: nat)
    | Decide(i: nat)
    | Add(i: nat)
    | Count(i: nat)
    | Exit(i: nat)

  /** counter / shared > weight / total, without division. */
  predicate Exceeds(counter: nat, shared: nat, weight: nat, total: nat) {
    counter * total > weight * shared
  }

  /** The comparison is that of the two ratios of the source. */
  lemma ExceedsIsRatio(counter: nat, shared: nat, weight: nat, total: nat)
    requires shared > 0 && total > 0
    ensures Exceeds(counter, shared, weight, total) <==> Ratio(counter, shared) > Ratio(weight, total)
  {
    CrossMultiply(counter as real, shared as real, weight as real, total as real);
    assert (counter * total) as real == counter as real * total as real;
    assert (weight * shared) as real == weight as real * shared as real;
  }

  function Ratio(part: nat, whole: nat): real
    requires whole > 0
  {
    part as real / whole as real
  }

  lemma CrossMultiply(a: real, b: real, c: real, d: real)
    requires b > 0.0 && d > 0.0
    ensures a / b > c / d <==> a * d > c * b
  {
    var x, y := a / b, c / d;
    assert a * d == x * (b * d) && c * b == y * (b * d);
    assert b * d > 0.0;
    MonotoneTimes(x, y, b * d);
  }

  lemma MonotoneTimes(x: real, y: real, m: real)
    requires m > 0.0
    ensures x > y <==> x * m > y * m
  {
  }

  predicate Enabled(s: State, step: Step) {
    && !s.aborted && step.i < |s.jobs|
    && var j := s.jobs[step.i];
       match step
       case Join(_, weight) => j.pc.Out? && weight > 0
       case Weigh(_) => j.pc.Joining?
       case Load(_) => j.pc.Idle?
       case Decide(_) => j.pc.Loaded?
       case Add(_) => j.pc.Passed?
       case Count(_) => j.pc.Added?
       case Exit(_) => !j.pc.Out? && !j.pc.Joining? && s.counter >= j.counter && s.total >= j.weight && s.refs > 0
  }

  function Put(s: State, step: Step, j: Job): State
    requires step.i < |s.jobs|
  {
    s.(jobs := s.jobs[step.i := j])
  }

  function Apply(s: State, step: Step): State
    requires Enabled(s, step)
  {
    var j := s.jobs[step.i];
    match step
    case Join(_, weight) =>
      var group := if s.refs == 0 then s.(counter := 1, total := 0, leaked := 0) else s;
      Put(group, step, Job(weight, 0, Joining)).(refs := s.refs + 1)
    case Weigh(_) => Put(s, step, j.(pc := Idle)).(total := s.total + j.weight)
    case Load(_) => Put(s, step, j.(pc := Loaded(s.counter)))
    case Decide(_) => Put(s, step, j.(pc := if Exceeds(j.counter, j.pc.seen, j.weight, s.total) then Idle else Passed))
    case Add(_) => Put(s, step, j.(pc := Added)).(counter := s.counter + 1)
    case Count(_) => Put(s, step, j.(counter := j.counter + 1, pc := Idle))
    case Exit(_) =>
      var t := Put(s, step, j.(pc := Out)).(
        counter := s.counter - j.counter, total := s.total - j.weight, refs := s.refs - 1,
        leaked := if j.pc.Added? then s.leaked + 1 else s.leaked);
      t.(aborted := t.refs == 0 && t.counter != 1)
  }

  ghost predicate Next(s: State, t: State) {
    exists step :: Enabled(s, step) && t == Apply(s, step)
  }

  ghost predicate Initial(s: State) {
    && s.refs == 0 && s.total == 0 && s.counter == 1 && s.leaked == 0 && !s.aborted
    && forall i :: 0 <= i < |s.jobs| ==> s.jobs[i].pc.Out?
  }

  ghost predicate IsRun(run: seq<State>) {
    && run != [] && Initial(run[0])
    && forall i :: 0 <= i < |run| - 1 ==> Next(run[i], run[i + 1])
  }

  // --------------------------------------------------------------------- sums

  function Total(jobs: seq<Job>, f: Job -> nat): nat {
    if jobs == [] then 0 else f(jobs[0]) + Total(jobs[1..], f)
  }

  lemma {:induction false} TotalUpdate(jobs: seq<Job>, i: nat, j: Job, f: Job -> nat)
    requires i < |jobs|
    ensures Total(jobs[i := j], f) == Total(jobs, f) - f(jobs[i]) + f(j)
  {
    if i > 0 {
      TotalUpdate(jobs[1..], i - 1, j, f);
      assert jobs[i := j][1..] == jobs[1..][i - 1 := j];
    } else {
      assert jobs[i := j][1..] == jobs[1..];
    }
  }

  lemma {:induction false} TotalAtLeast(jobs: seq<Job>, i: nat, f: Job -> nat)
    requires i < |jobs|
    ensures f(jobs[i]) <= Total(jobs, f)
  {
    if i > 0 { TotalAtLeast(jobs[1..], i - 1, f); }
  }

  lemma {:induction false} TotalZero(jobs: seq<Job>, f: Job -> nat)
    ensures Total(jobs, f) == 0 <==> forall i :: 0 <= i < |jobs| ==> f(jobs[i]) == 0
  {
    if jobs != [] {
      TotalZero(jobs[1..], f);
      assert forall i :: 0 <= i < |jobs| ==> jobs[i] == if i == 0 then jobs[0] else jobs[1..][i - 1];
    }
  }

  const granted: Job -> nat := (j: Job) => j.Granted()
  const weighed: Job -> nat := (j: Job) => j.Weighed()
  const refs: Job -> nat := (j: Job) => j.Refs()

  // -------------------------------------------------------------- conservation

  /** The shared counter is one plus all grants of the members, plus what killed
      members left behind; the total weight and the references are sums too. */
  ghost predicate Conserved(s: State) {
    && (s.refs > 0 ==> s.counter == 1 + Total(s.jobs, granted) + s.leaked)
    && s.total == Total(s.jobs, weighed)
    && s.refs == Total(s.jobs, refs)
    && (forall i :: 0 <= i < |s.jobs| && !s.jobs[i].pc.Out? ==> s.jobs[i].weight > 0)
  }

  lemma Sums(s: State, step: Step, j: Job)
    requires step.i < |s.jobs|
    ensures var t := Put(s, step, j);
      && Total(t.jobs, granted) == Total(s.jobs, granted) - s.jobs[step.i].Granted() + j.Granted()
      && Total(t.jobs, weighed) == Total(s.jobs, weighed) - s.jobs[step.i].Weighed() + j.Weighed()
      && Total(t.jobs, refs) == Total(s.jobs, refs) - s.jobs[step.i].Refs() + j.Refs()
  {
    TotalUpdate(s.jobs, step.i, j, granted);
    TotalUpdate(s.jobs, step.i, j, weighed);
    TotalUpdate(s.jobs, step.i, j, refs);
  }

  lemma NoMembers(s: State)
    requires Conserved(s) && s.refs == 0
    ensures Total(s.jobs, granted) == 0 && Total(s.jobs, weighed) == 0
  {
    TotalZero(s.jobs, refs);
    forall i | 0 <= i < |s.jobs| ensures granted(s.jobs[i]) == 0 && weighed(s.jobs[i]) == 0 {
      assert refs(s.jobs[i]) == 0;
    }
    TotalZero(s.jobs, granted);
    TotalZero(s.jobs, weighed);
  }

  lemma ExitConserved(s: State, i: nat)
    requires Conserved(s) && Enabled(s, Exit(i))
    ensures Conserved(Apply(s, Exit(i)))
  {
    var t := Apply(s, Exit(i));
    Sums(s, Exit(i), t.jobs[i]);
    TotalAtLeast(s.jobs, i, refs);
  }

  lemma StepConserved(s: State, step: Step)
    requires Conserved(s) && Enabled(s, step)
    ensures Conserved(Apply(s, step))
  {
    if step.Exit? {
      ExitConserved(s, step.i);
    } else {
      var t := Apply(s, step);
      Sums(s, step, t.jobs[step.i]);
      if step.Join? && s.refs == 0 { NoMembers(s); }
    }
  }

  lemma {:induction false} RunConserved(run: seq<State>, i: nat)
    requires IsRun(run) && i < |run|
    ensures Conserved(run[i])
  {
    if i == 0 {
      TotalZero(run[0].jobs, granted);
      TotalZero(run[0].jobs, weighed);
      TotalZero(run[0].jobs, refs);
    } else {
      RunConserved(run, i - 1);
      assert Next(run[i - 1], run[i - 1 + 1]);
      var step :| Enabled(run[i - 1], step) && run[i] == Apply(run[i - 1], step);
      StepConserved(run[i - 1], step);
    }
  }

  /** The subtractions of `flow_put` never go below zero: leaving is always possible
      for a weighed member. */
  lemma ExitEnabled(run: seq<State>, k: nat, i: nat)
    requires IsRun(run) && k < |run| && !run[k].aborted
    requires i < |run[k].jobs| && !run[k].jobs[i].pc.Out? && !run[k].jobs[i].pc.Joining?
    ensures Enabled(run[k], Exit(i))
  {
    RunConserved(run, k);
    TotalAtLeast(run[k].jobs, i, granted);
    TotalAtLeast(run[k].jobs, i, weighed);
    TotalAtLeast(run[k].jobs, i, refs);
  }

  /** The assert of the last release holds exactly when no member ever left between
      the shared add and its own increment. */
  lemma LastReleaseAssert(run: seq<State>, k: nat, i: nat)
    requires IsRun(run) && k < |run| && Enabled(run[k], Exit(i)) && run[k].refs == 1
    ensures !Apply(run[k], Exit(i)).aborted <==> run[k].leaked == 0 && !run[k].jobs[i].pc.Added?
  {
    var s := run[k];
    RunConserved(run, k);
    var t := Apply(s, Exit(i));
    StepConserved(s, Exit(i));
    Sums(s, Exit(i), t.jobs[i]);
    TotalZero(t.jobs, refs);
    forall a | 0 <= a < |t.jobs| ensures granted(t.jobs[a]) == 0 { assert refs(t.jobs[a]) == 0; }
    TotalZero(t.jobs, granted);
  }

  lemma Extend(run: seq<State>, step: Step)
    requires IsRun(run) && Enabled(run[|run| - 1], step)
    ensures IsRun(run + [Apply(run[|run| - 1], step)])
  {
    var longer := run + [Apply(run[|run| - 1], step)];
    forall i | 0 <= i < |longer| - 1 ensures Next(longer[i], longer[i + 1]) {
      if i < |run| - 1 { assert Next(run[i], run[i + 1]); }
    }
  }

  /** A run in which one job joins and finds itself below its threshold. */
  lemma OnePassed() returns (run: seq<State>)
    ensures IsRun(run) && run[|run| - 1] == State(1, 1, 1, [Job(1, 0, Passed)], 0, false)
  {
    run := [State(1, 0, 0, [Job(0, 0, Out)], 0, false)];
    Extend(run, Join(0, 1));
    run := run + [State(1, 0, 1, [Job(1, 0, Joining)], 0, false)];
    Extend(run, Weigh(0));
    run := run + [State(1, 1, 1, [Job(1, 0, Idle)], 0, false)];
    Extend(run, Load(0));
    run := run + [State(1, 1, 1, [Job(1, 0, Loaded(1))], 0, false)];
    Extend(run, Decide(0));
    run := run + [State(1, 1, 1, [Job(1, 0, Passed)], 0, false)];
  }

  /** The failing side does occur: that job is stopped between its two increments. */
  lemma LastReleaseCanAbort() returns (run: seq<State>)
    ensures IsRun(run) && run[|run| - 1].aborted
  {
    run := OnePassed();
    Extend(run, Add(0));
    run := run + [State(2, 1, 1, [Job(1, 0, Added)], 0, false)];
    Extend(run, Exit(0));
    run := run + [State(2, 0, 0, [Job(1, 0, Out)], 1, true)];
  }

  // ------------------------------------------------------------------ progress

  ghost predicate Stalled(s: State, j: Job) {
    !j.pc.Out? && !j.pc.Joining? ==> Exceeds(j.counter, s.counter, j.weight, s.total)
  }

  lemma {:induction false} StalledSum(jobs: seq<Job>, shared: nat, total: nat)
    requires forall i :: 0 <= i < |jobs| && !jobs[i].pc.Out? && !jobs[i].pc.Joining? ==>
      Exceeds(jobs[i].counter, shared, jobs[i].weight, total)
    ensures Total(jobs, granted) * total >= Total(jobs, weighed) * shared
  {
    if jobs != [] {
      StalledSum(jobs[1..], shared, total);
      var j := jobs[0];
      if j.Weighed() != 0 { Larger(j.counter, j.Granted(), total); }
      AddProducts(j.Granted(), Total(jobs[1..], granted), total, j.Weighed(), Total(jobs[1..], weighed), shared);
    }
  }

  lemma Larger(a: nat, b: nat, c: nat)
    requires a <= b
    ensures a * c <= b * c
  {
  }

  lemma AddProducts(a: nat, b: nat, x: nat, c: nat, d: nat, y: nat)
    requires a * x >= c * y && b * x >= d * y
    ensures (a + b) * x >= (c + d) * y
  {
  }

  /** As long as some member has joined, at least one member passes the threshold
      on fresh loads, in every reachable state. */
  lemma SomebodyPasses(run: seq<State>, k: nat)
    requires IsRun(run) && k < |run| && run[k].total > 0
    ensures exists i :: 0 <= i < |run[k].jobs| && !Stalled(run[k], run[k].jobs[i])
  {
    var s := run[k];
    RunConserved(run, k);
    if s.refs == 0 { NoMembers(s); }
    if forall i :: 0 <= i < |s.jobs| ==> Stalled(s, s.jobs[i]) {
      forall i | 0 <= i < |s.jobs| && !s.jobs[i].pc.Out? && !s.jobs[i].pc.Joining?
        ensures Exceeds(s.jobs[i].counter, s.counter, s.jobs[i].weight, s.total)
      {
        assert Stalled(s, s.jobs[i]);
      }
      StalledSum(s.jobs, s.counter, s.total);
      TooMany(Total(s.jobs, granted), s.counter, s.total);
      assert false;
    }
  }

  lemma TooMany(g: nat, shared: nat, total: nat)
    requires total > 0 && g * total >= total * shared
    ensures g >= shared
  {
  }

  // -------------------------------------------------------- proportional share

  /** All jobs have joined and nobody has issued anything yet. */
  ghost predicate Fresh(s: State) {
    && s.jobs != [] && s.counter == 1 && s.leaked == 0 && !s.aborted && Conserved(s)
    && forall i :: 0 <= i < |s.jobs| ==> s.jobs[i].pc.Idle? && s.jobs[i].counter == 0
  }

  /** A run with fixed membership. */
  ghost predicate IsGrantRun(run: seq<State>) {
    && run != [] && Fresh(run[0])
    && forall i :: 0 <= i < |run| - 1 ==> GrantStep(run[i], run[i + 1])
  }

  ghost predicate GrantStep(s: State, t: State) {
    exists step :: Enabled(s, step) && !step.Join? && !step.Weigh? && !step.Exit? && t == Apply(s, step)
  }

  /** grants * W <= weight * N + W for N grants in all, and what a job that has
      compared, or is about to, knows about stale loads. */
  ghost predicate WithinShare(s: State, j: Job) {
    && (j.pc.Idle? || j.pc.Added? || (j.pc.Loaded? && j.pc.seen <= s.counter)
        || (j.pc.Passed? && !Exceeds(j.counter, s.counter, j.weight, s.total)))
    && s.counter >= 1
    && j.Granted() * s.total <= j.weight * (s.counter - 1) + s.total
  }

  ghost predicate ShareInv(s: State) {
    && Conserved(s) && s.refs > 0 && s.leaked == 0
    && forall i :: 0 <= i < |s.jobs| ==> WithinShare(s, s.jobs[i])
  }

  /** More grants in all leave a job within its share. */
  lemma ShareLater(s: State, t: State, j: Job)
    requires WithinShare(s, j) && t.total == s.total && (t.counter == s.counter || t.counter == s.counter + 1)
    ensures WithinShare(t, j)
  {
    Grow(j.weight, s.counter);
  }

  /** The job that moves stays within its share: it decided on a count no larger than
      the present one. */
  lemma OwnShare(s: State, step: Step)
    requires Enabled(s, step) && !step.Join? && !step.Weigh? && !step.Exit?
    requires WithinShare(s, s.jobs[step.i])
    ensures WithinShare(Apply(s, step), Apply(s, step).jobs[step.i])
  {
    var j := s.jobs[step.i];
    match step
    case Load(_) =>
    case Decide(_) => Larger(j.pc.seen, s.counter, j.weight);
    case Add(_) =>
      Grow(j.weight, s.counter);
      Grow(s.total, j.counter);
    case Count(_) =>
  }

  lemma StepShare(s: State, step: Step)
    requires ShareInv(s) && Enabled(s, step) && !step.Join? && !step.Weigh? && !step.Exit?
    ensures ShareInv(Apply(s, step))
  {
    var t := Apply(s, step);
    StepConserved(s, step);
    forall i | 0 <= i < |t.jobs| ensures WithinShare(t, t.jobs[i]) {
      if i == step.i { OwnShare(s, step); } else { ShareLater(s, t, s.jobs[i]); }
    }
  }

  lemma Grow(w: nat, c: nat)
    ensures w * (c + 1) == w * c + w == (c + 1) * w
    ensures c >= 1 ==> w * (c - 1) + w == w * c
  {
  }

  lemma GrantKeeps(s: State, step: Step)
    requires Enabled(s, step) && !step.Join? && !step.Weigh? && !step.Exit?
    ensures var t := Apply(s, step);
      && |t.jobs| == |s.jobs| && t.total == s.total
      && forall i :: 0 <= i < |s.jobs| ==> t.jobs[i].weight == s.jobs[i].weight
  {
  }

  lemma FreshShare(s: State)
    requires Fresh(s)
    ensures ShareInv(s)
  {
    TotalAtLeast(s.jobs, 0, refs);
  }

  lemma {:induction false} RunShare(run: seq<State>, k: nat)
    requires IsGrantRun(run) && k < |run|
    ensures ShareInv(run[k])
    ensures |run[k].jobs| == |run[0].jobs| && run[k].total == run[0].total
    ensures forall i :: 0 <= i < |run[0].jobs| ==> run[k].jobs[i].weight == run[0].jobs[i].weight
  {
    if k == 0 {
      FreshShare(run[0]);
    } else {
      RunShare(run, k - 1);
      assert GrantStep(run[k - 1], run[k - 1 + 1]);
      var step :|
        Enabled(run[k - 1], step) && !step.Join? && !step.Weigh? && !step.Exit? && run[k] == Apply(run[k - 1], step);
      StepShare(run[k - 1], step);
      GrantKeeps(run[k - 1], step);
    }
  }

  /** How far a job is below its upper bound. */
  function Slack(s: State, j: Job): int {
    j.weight * (s.counter - 1) + s.total - j.Granted() * s.total
  }

  ghost function SlackTotal(s: State, jobs: seq<Job>): int {
    if jobs == [] then 0 else Slack(s, jobs[0]) + SlackTotal(s, jobs[1..])
  }

  lemma {:induction false} SlackSum(s: State, jobs: seq<Job>)
    requires forall i :: 0 <= i < |jobs| ==> !jobs[i].pc.Out? && !jobs[i].pc.Joining?
    ensures SlackTotal(s, jobs) ==
            Total(jobs, weighed) * (s.counter - 1) + |jobs| * s.total - Total(jobs, granted) * s.total
  {
    if jobs != [] {
      SlackSum(s, jobs[1..]);
      var j := jobs[0];
      Distribute(j.weight, Total(jobs[1..], weighed), s.counter - 1);
      Distribute(1, |jobs| - 1, s.total);
      Distribute(j.Granted(), Total(jobs[1..], granted), s.total);
    }
  }

  lemma Distribute(a: int, b: int, c: int)
    ensures (a + b) * c == a * c + b * c
  {
  }

  lemma {:induction false} SlackAtMost(s: State, jobs: seq<Job>, i: nat)
    requires forall k :: 0 <= k < |jobs| ==> Slack(s, jobs[k]) >= 0
    ensures SlackTotal(s, jobs) >= 0
    ensures i < |jobs| ==> Slack(s, jobs[i]) <= SlackTotal(s, jobs)
  {
    if jobs != [] { SlackAtMost(s, jobs[1..], if i > 0 then i - 1 else 0); }
  }

  /** With fixed membership of n jobs, after N grants in any interleaving, a job of
      weight w out of W has between w*N/W - (n-1) and w*N/W + 1 of them. */
  lemma ProportionalShare(run: seq<State>, k: nat, i: nat)
    requires IsGrantRun(run) && k < |run| && i < |run[0].jobs|
    ensures i < |run[k].jobs|
    ensures var n, N, W, w := |run[0].jobs|, Total(run[k].jobs, granted), run[0].total, run[0].jobs[i].weight;
            w * N - (n - 1) * W <= run[k].jobs[i].Granted() * W <= w * N + W
  {
    RunShare(run, k);
    var s := run[k];
    assert WithinShare(s, s.jobs[i]);
    forall a | 0 <= a < |s.jobs| ensures Slack(s, s.jobs[a]) >= 0 && !s.jobs[a].pc.Out? && !s.jobs[a].pc.Joining? {
      assert WithinShare(s, s.jobs[a]);
    }
    SlackSum(s, s.jobs);
    SlackAtMost(s, s.jobs, i);
    Bracket(s.jobs[i].weight, s.counter - 1, s.total, s.jobs[i].Granted(), |s.jobs|);
  }

  lemma Bracket(w: int, N: int, W: int, g: int, n: int)
    requires 0 <= w * N + W - g * W <= W * N + n * W - N * W
    ensures w * N - (n - 1) * W <= g * W <= w * N + W
  {
    Distribute(n - 1, 1, W);
  }

  // -------------------------------------------------------- the objects in place

  class Flow {
    const id: nat
    var refs: nat
    var counter: int
    var total: int

    constructor (id: nat)
      ensures this.id == id && refs == 0 && counter == 1 && total == 0
    {
      this.id := id;
      refs, counter, total := 0, 1, 0;
    }
  }

  /** The global list of flow groups, under `flow_lock`. */
  class FlowList {
    var flows: seq<Flow>

    ghost predicate Valid()
      reads this
    {
      forall a, b :: 0 <= a < b < |flows| ==> flows[a].id != flows[b].id
    }

    constructor ()
      ensures Valid() && flows == []
    {
      flows := [];
    }

    /** `flow_get`: the group with this id, created on first use. */
    method Get(id: nat) returns (f: Flow)
      requires Valid()
      modifies this, flows
      ensures Valid() && f in flows && f.id == id
      ensures f in old(flows) ==> flows == old(flows) && f.refs == old(f.refs) + 1
      ensures f in old(flows) ==> f.counter == old(f.counter) && f.total == old(f.total)
      ensures f !in old(flows) ==> fresh(f) && flows == old(flows) + [f]
      ensures f !in old(flows) ==> f.refs == 1 && f.counter == 1 && f.total == 0
      ensures (forall g :: g in old(flows) ==> g.id != id) <==> f !in old(flows)
      ensures forall g :: g in old(flows) && g != f ==>
        g.refs == old(g.refs) && g.counter == old(g.counter) && g.total == old(g.total)
    {
      var found: Flow? := null;
      for n := 0 to |flows|
        invariant found == null
        invariant forall a :: 0 <= a < n ==> flows[a].id != id
      {
        if flows[n].id == id {
          found := flows[n];
          break;
        }
      }
      if found == null {
        f := new Flow(id);
        flows := flows + [f];
      } else {
        f := found;
      }
      f.refs := f.refs + 1;
    }

    /** `flow_put`: subtract the job's contribution; the last reference removes the
        group and `ok` tells whether its assert holds. */
    method Put(f: Flow, flowCounter: nat, weight: nat) returns (ok: bool)
      requires Valid() && f in flows && f.refs > 0
      modifies this, f
      ensures Valid()
      ensures f.refs == old(f.refs) - 1 && f.counter == old(f.counter) - flowCounter && f.total == old(f.total) - weight
      ensures f.refs > 0 ==> ok && flows == old(flows)
      ensures f.refs == 0 ==> ok == (f.counter == 1) && f !in flows && |flows| == |old(flows)| - 1
      ensures forall g :: g in flows ==> g in old(flows)
      ensures forall g :: g in old(flows) && g != f ==> g in flows
    {
      f.counter := f.counter - flowCounter;
      f.total := f.total - weight;
      f.refs := f.refs - 1;
      ok := true;
      if f.refs == 0 {
        ok := f.counter == 1;
        var n := 0;
        while flows[n] != f
          invariant 0 <= n < |flows| && f !in flows[..n]
          decreases |flows| - n
        {
          n := n + 1;
        }
        flows := flows[..n] + flows[n + 1..];
      }
    }
  }

  /** The flow fields of a job. */
  class JobFlow {
    const weight: nat
    var flow: Flow?
    var flowCounter: nat

    constructor (weight: nat)
      ensures this.weight == weight && flow == null && flowCounter == 0
    {
      this.weight := weight;
      flow, flowCounter := null, 0;
    }

    /** `flow_threshold_exceeded`, run without interruption: a grant moves both
        counters by one, a refusal moves nothing. */
    method ThresholdExceeded() returns (exceeded: bool)
      requires flow != null ==> flow.counter > 0 && flow.total > 0
      modifies this, flow
      ensures flow == old(flow)
      ensures flow == null ==> !exceeded && flowCounter == old(flowCounter)
      ensures flow != null ==>
        (exceeded <==> Ratio(old(flowCounter), old(flow.counter)) > Ratio(weight, old(flow.total)))
      ensures flow != null ==> flow.total == old(flow.total) && flow.refs == old(flow.refs)
      ensures flow != null ==>
        flow.counter - old(flow.counter) == flowCounter - old(flowCounter) == if exceeded then 0 else 1
    {
      if flow == null { return false; }
      ExceedsIsRatio(flowCounter, flow.counter, weight, flow.total);
      if flowCounter * flow.total > weight * flow.counter { return true; }
      flow.counter := flow.counter + 1;
      flowCounter := flowCounter + 1;
      return false;
    }

    /** `flow_init_job` for a job with the flow option set. */
    method InitJob(flows: FlowList, flowId: nat)
      requires flows.Valid() && weight > 0
      modifies this, flows, flows.flows
      ensures flows.Valid() && flow != null && flow in flows.flows && flow.id == flowId && flowCounter == 0
      ensures flow !in old(flows.flows) ==> flow.refs == 1 && flow.counter == 1 && flow.total == weight
      ensures flow in old(flows.flows) ==>
        var f := flow as Flow;
        f.refs == old(f.refs) + 1 && f.counter == old(f.counter) && f.total == old(f.total) + weight
    {
      flow := flows.Get(flowId);
      flowCounter := 0;
      flow.total := flow.total + weight;
    }

    /** `flow_exit_job`. */
    method ExitJob(flows: FlowList) returns (ok: bool)
      requires flows.Valid() && (flow != null ==> flow in flows.flows && flow.refs > 0)
      modifies this, flows, flow
      ensures flows.Valid() && flow == null
      ensures old(flow) == null ==> ok && flows.flows == old(flows.flows)
      ensures old(flow) != null ==>
        && old(flow).counter == old(flow.counter) - old(flowCounter)
        && old(flow).total == old(flow.total) - weight
        && old(flow).refs == old(flow.refs) - 1
        && (ok <==> old(flow).refs > 0 || old(flow).counter == 1)
    {
      ok := true;
      if flow != null {
        ok := flows.Put(flow, flowCounter, weight);
        flow := null;
      }
    }
  }
}
