/**
 The multi-core CPU clock test of gettime.c.

 Threads race on a shared 32-bit sequence number: each loads it, samples the
 clock and claims the number with a compare-and-swap, retrying when it lost.
 Afterwards all samples are sorted by number and must not go backwards.  The
 machine below interleaves loads, samples and swaps of any number of threads
 over a clock whose readings never decrease; `claimed` records, for the proofs,
 the sample that won each number.
 */
module ClockTest {

  const UINT_MAX: nat := 0xffff_ffff
  const INT_MIN_MAGNITUDE: nat := 0x8000_0000

  datatype Entry = Entry(seqno: nat, cpu: nat, tsc: nat)

  datatype Pc = AtLoop | Loaded(seqno: nat) | Sampled(seqno: nat, tsc: nat) | OutOfNumbers

  datatype Thread = Thread(pc: Pc, entries: seq<Entry>)

  datatype State = State(seqno: nat, clock: nat, threads: seq<Thread>, claimed: seq<Entry>)

  datatype Step = Load(t: nat) | Sample(t: nat, tsc: nat) | Swap(t: nat)

  predicate Enabled(s: State, n: nat, step: Step) {
    && step.t < |s.threads|
    && var th := s.threads[step.t];
       match step
       case Load(_) => th.pc.AtLoop? && |th.entries| < n
       case Sample(_, tsc) => th.pc.Loaded? && s.clock <= tsc
       case Swap(_) => th.pc.Sampled?
  }

  function Apply(s: State, n: nat, step: Step): State
    requires Enabled(s, n, step)
  {
    var t := step.t;
    var th := s.threads[t];
    match step
    case Load(_) =>
      s.(threads := s.threads[t := th.(pc := if s.seqno == UINT_MAX then OutOfNumbers else Loaded(s.seqno))])
    case Sample(_, tsc) =>
      s.(clock := tsc, threads := s.threads[t := th.(pc := Sampled(th.pc.seqno, tsc))])
    case Swap(_) =>
      if s.seqno == th.pc.seqno then
        var e := Entry(th.pc.seqno, t, th.pc.tsc);
        s.(seqno := s.seqno + 1,
           threads := s.threads[t := Thread(AtLoop, th.entries + [e])],
           claimed := s.claimed + [e])
      else
        s.(threads := s.threads[t := th.(pc := AtLoop)])
  }

  ghost predicate Next(s: State, n: nat, t: State) {
    exists step :: Enabled(s, n, step) && t == Apply(s, n, step)
  }

  ghost predicate Initial(s: State) {
    && s.seqno == 0 && s.claimed == []
    && forall t :: 0 <= t < |s.threads| ==> s.threads[t] == Thread(AtLoop, [])
  }

  /** A run in which each thread records at most n samples. */
  ghost predicate IsRun(run: seq<State>, n: nat) {
    && run != [] && Initial(run[0])
    && forall i :: 0 <= i < |run| - 1 ==> Next(run[i], n, run[i + 1])
  }

  predicate Finished(s: State, n: nat) {
    forall t :: 0 <= t < |s.threads| ==> |s.threads[t].entries| == n || s.threads[t].pc.OutOfNumbers?
  }

  // ---------------------------------------------------------------- invariant

  ghost function Samples(ths: seq<Thread>): multiset<Entry> {
    if ths == [] then multiset{} else multiset(ths[0].entries) + Samples(ths[1..])
  }

  ghost function Count(ths: seq<Thread>): nat {
    if ths == [] then 0 else |ths[0].entries| + Count(ths[1..])
  }

  ghost predicate Ordered(es: seq<Entry>) {
    forall i, j :: 0 <= i < j < |es| ==> es[i].tsc <= es[j].tsc
  }

  ghost predicate Numbered(es: seq<Entry>) {
    forall k :: 0 <= k < |es| ==> es[k].seqno == k
  }

  /** A pending sample is at least as late as every sample below its number. */
  ghost predicate PcOk(s: State, pc: Pc) {
    match pc
    case AtLoop => true
    case Loaded(q) => q <= s.seqno && q < UINT_MAX
    case Sampled(q, v) =>
      q <= s.seqno && q < UINT_MAX && v <= s.clock
      && forall k :: 0 <= k < q && k < |s.claimed| ==> s.claimed[k].tsc <= v
    case OutOfNumbers => s.seqno == UINT_MAX
  }

  ghost predicate Inv(s: State, n: nat) {
    && |s.claimed| == s.seqno <= UINT_MAX
    && Numbered(s.claimed) && Ordered(s.claimed)
    && (forall k :: 0 <= k < |s.claimed| ==> s.claimed[k].tsc <= s.clock)
    && Samples(s.threads) == multiset(s.claimed)
    && (forall t :: 0 <= t < |s.threads| ==> ThreadOk(s, n, s.threads[t]))
  }

  ghost predicate ThreadOk(s: State, n: nat, th: Thread) {
    PcOk(s, th.pc) && |th.entries| <= n && (th.pc.AtLoop? || |th.entries| < n)
  }

  lemma {:induction false} SamplesUpdate(ths: seq<Thread>, t: nat, pc: Pc, es: seq<Entry>)
    requires t < |ths|
    ensures Samples(ths[t := Thread(pc, ths[t].entries + es)]) == Samples(ths) + multiset(es)
    decreases |ths|
  {
    var th := Thread(pc, ths[t].entries + es);
    if t > 0 {
      SamplesUpdate(ths[1..], t - 1, pc, es);
      assert ths[t := th][1..] == ths[1..][t - 1 := th];
    } else {
      assert ths[t := th][1..] == ths[1..];
    }
  }

  lemma {:induction false} SamplesInitially(ths: seq<Thread>)
    requires forall t :: 0 <= t < |ths| ==> ths[t].entries == []
    ensures Samples(ths) == multiset{} && Count(ths) == 0
  {
    if ths != [] { SamplesInitially(ths[1..]); }
  }

  /** Loads, samples and lost swaps claim nothing: they move one program counter
      and may advance the clock. */
  lemma MovePc(s: State, n: nat, t: nat, pc: Pc, clock: nat)
    requires Inv(s, n) && t < |s.threads| && s.clock <= clock
    requires PcOk(s.(clock := clock), pc) && (pc.AtLoop? || |s.threads[t].entries| < n)
    ensures Inv(s.(clock := clock, threads := s.threads[t := s.threads[t].(pc := pc)]), n)
  {
    var r := s.(clock := clock, threads := s.threads[t := s.threads[t].(pc := pc)]);
    assert s.threads[t].entries + [] == s.threads[t].entries;
    SamplesUpdate(s.threads, t, pc, []);
    forall u | 0 <= u < |r.threads| ensures ThreadOk(r, n, r.threads[u]) {
      if u != t { ThreadLater(s, r, n, s.threads[u]); }
    }
  }

  /** The clock moving on disturbs nobody. */
  lemma ThreadLater(s: State, r: State, n: nat, th: Thread)
    requires ThreadOk(s, n, th) && r.seqno == s.seqno && r.claimed == s.claimed && s.clock <= r.clock
    ensures ThreadOk(r, n, th)
  {
  }

  /** A swap that wins: its sample is no earlier than all the claimed ones. */
  lemma WinInv(s: State, n: nat, t: nat)
    requires Inv(s, n) && Enabled(s, n, Swap(t)) && s.seqno == s.threads[t].pc.seqno
    ensures Inv(Apply(s, n, Swap(t)), n)
  {
    var r := Apply(s, n, Swap(t));
    var th := s.threads[t];
    var e := Entry(s.seqno, t, th.pc.tsc);
    assert ThreadOk(s, n, th);
    SamplesUpdate(s.threads, t, AtLoop, [e]);
    assert r.claimed == s.claimed + [e];
    forall u | 0 <= u < |r.threads| ensures ThreadOk(r, n, r.threads[u]) {
      assert ThreadOk(s, n, s.threads[u]);
    }
  }

  lemma StepInv(s: State, n: nat, step: Step)
    requires Inv(s, n) && Enabled(s, n, step)
    ensures Inv(Apply(s, n, step), n)
  {
    assert ThreadOk(s, n, s.threads[step.t]);
    match step
    case Load(t) => MovePc(s, n, t, if s.seqno == UINT_MAX then OutOfNumbers else Loaded(s.seqno), s.clock);
    case Sample(t, tsc) => MovePc(s, n, t, Sampled(s.threads[t].pc.seqno, tsc), tsc);
    case Swap(t) =>
      if s.seqno == s.threads[t].pc.seqno { WinInv(s, n, t); } else { MovePc(s, n, t, AtLoop, s.clock); }
  }

  lemma {:induction false} RunInv(run: seq<State>, n: nat, i: nat)
    requires IsRun(run, n) && i < |run|
    ensures Inv(run[i], n) && |run[i].threads| == |run[0].threads|
  {
    if i == 0 {
      SamplesInitially(run[0].threads);
    } else {
      RunInv(run, n, i - 1);
      assert Next(run[i - 1], n, run[i - 1 + 1]);
      var step :| Enabled(run[i - 1], n, step) && run[i] == Apply(run[i - 1], n, step);
      StepInv(run[i - 1], n, step);
    }
  }

  // --------------------------------------------------------- sort and comparison

  /** A 32-bit pattern read as a signed int. */
  function AsInt(x: nat): int
    requires x <= UINT_MAX
  {
    if x < INT_MIN_MAGNITUDE then x else x - UINT_MAX - 1
  }

  /** `clock_cmp`: an unsigned difference returned as an int. */
  function ClockCmp(a: nat, b: nat): int
    requires a <= UINT_MAX && b <= UINT_MAX
  {
    AsInt((a - b) % (UINT_MAX + 1))
  }

  ghost predicate CmpAgrees(a: nat, b: nat)
    requires a <= UINT_MAX && b <= UINT_MAX
  {
    && (ClockCmp(a, b) < 0 <==> a < b)
    && (ClockCmp(a, b) == 0 <==> a == b)
  }

  lemma CmpValue(a: nat, b: nat)
    requires a <= UINT_MAX && b <= UINT_MAX
    ensures ClockCmp(a, b) == if a >= b then AsInt(a - b) else AsInt(a - b + UINT_MAX + 1)
  {
  }

  /** The comparison orders the numbers below `total` correctly exactly when there
      are at most 2^31 of them; beyond that the difference changes sign. */
  lemma CmpCorrectExactly(total: nat)
    requires total <= UINT_MAX + 1
    ensures (forall a: nat, b: nat :: a < total && b < total ==> CmpAgrees(a, b)) <==> total <= INT_MIN_MAGNITUDE
  {
    if total <= INT_MIN_MAGNITUDE {
      forall a: nat, b: nat | a < total && b < total ensures CmpAgrees(a, b) { CmpValue(a, b); }
    } else {
      CmpValue(INT_MIN_MAGNITUDE, 0);
      assert !CmpAgrees(INT_MIN_MAGNITUDE, 0);
    }
  }

  /** What `qsort` promises: the same entries, in comparison order. */
  ghost predicate IsSorted(sorted: seq<Entry>, entries: multiset<Entry>) {
    && multiset(sorted) == entries
    && (forall i :: 0 <= i < |sorted| ==> sorted[i].seqno <= UINT_MAX)
    && forall i, j :: 0 <= i < j < |sorted| ==> ClockCmp(sorted[i].seqno, sorted[j].seqno) <= 0
  }

  lemma NumberedDistinct(es: seq<Entry>, x: Entry)
    requires Numbered(es)
    ensures multiset(es)[x] <= 1
  {
    if x in es {
      var k :| 0 <= k < |es| && es[k] == x;
      assert es == es[..k] + [x] + es[k + 1..];
      assert x !in es[..k] && x !in es[k + 1..];
    }
  }

  lemma TwiceMeansTwo(es: seq<Entry>, i: nat, j: nat)
    requires i < j < |es| && es[i] == es[j]
    ensures multiset(es)[es[i]] >= 2
  {
    assert es == es[..i] + [es[i]] + es[i + 1..j] + [es[j]] + es[j + 1..];
  }

  lemma {:induction false} Climbs(es: seq<Entry>, i: nat)
    requires i < |es| && forall i, j :: 0 <= i < j < |es| ==> es[i].seqno < es[j].seqno
    ensures es[i].seqno >= i
  {
    if i > 0 { Climbs(es, i - 1); }
  }

  lemma {:induction false} Descends(es: seq<Entry>, i: nat)
    requires i < |es| && forall i, j :: 0 <= i < j < |es| ==> es[i].seqno < es[j].seqno
    requires es[|es| - 1].seqno < |es|
    ensures es[i].seqno <= i
    decreases |es| - i
  {
    if i < |es| - 1 { Descends(es, i + 1); }
  }

  /** Any correct sort of numbered entries is those entries in number order. */
  lemma SortRestoresOrder(claimed: seq<Entry>, sorted: seq<Entry>)
    requires Numbered(claimed) && |claimed| <= INT_MIN_MAGNITUDE
    requires IsSorted(sorted, multiset(claimed))
    ensures sorted == claimed
  {
    CmpCorrectExactly(|claimed|);
    assert |sorted| == |multiset(sorted)| == |claimed|;
    forall i | 0 <= i < |sorted| ensures sorted[i] in claimed { assert sorted[i] in multiset(sorted); }
    forall i, j | 0 <= i < j < |sorted| ensures sorted[i].seqno < sorted[j].seqno {
      assert sorted[i] in claimed && sorted[j] in claimed;
      assert CmpAgrees(sorted[i].seqno, sorted[j].seqno);
      if sorted[i].seqno == sorted[j].seqno {
        assert sorted[i] == claimed[sorted[i].seqno] == sorted[j];
        TwiceMeansTwo(sorted, i, j);
        NumberedDistinct(claimed, sorted[i]);
      }
    }
    forall i | 0 <= i < |sorted| ensures sorted[i] == claimed[i] {
      assert sorted[i] in claimed && sorted[|sorted| - 1] in claimed;
      Climbs(sorted, i);
      Descends(sorted, i);
    }
  }

  // ------------------------------------------------------------- the final check

  /** The scan for backward steps; without debug it stops at the first one. */
  method CountMismatches(sorted: seq<Entry>, debug: bool) returns (failed: nat)
    ensures failed == 0 <==> forall i :: 0 <= i < |sorted| - 1 ==> sorted[i].tsc <= sorted[i + 1].tsc
    ensures !debug ==> failed <= 1
  {
    failed := 0;
    var i := 0;
    while i < |sorted|
      invariant 0 <= i <= |sorted|
      invariant failed == 0 <==> forall k :: 0 <= k < i - 1 ==> sorted[k].tsc <= sorted[k + 1].tsc
      invariant !debug ==> failed == 0
    {
      if i > 0 && sorted[i - 1].tsc > sorted[i].tsc {
        failed := failed + 1;
        if !debug { break; }
      }
      i := i + 1;
    }
  }

  /** A thread's clock seems stuck: it has two samples or more, and the first and the
      last of them are zero. */
  ghost predicate StuckAtZero(es: seq<Entry>) {
    exists first: Entry, last: Entry, mid: seq<Entry> ::
      es == [first] + mid + [last] && first.tsc == 0 && last.tsc == 0
  }

  lemma StuckFields(es: seq<Entry>)
    ensures StuckAtZero(es) <==> |es| > 1 && es[|es| - 1].tsc == 0 && es[0].tsc == 0
  {
    if |es| > 1 { assert es == [es[0]] + es[1..|es| - 1] + [es[|es| - 1]]; }
  }

  /** The end of `fio_monotonic_clocktest`: stuck threads first, then the scan. */
  method Verdict(threads: seq<Thread>, sorted: seq<Entry>, debug: bool) returns (failed: bool)
    ensures !failed <==>
      && (forall t :: 0 <= t < |threads| ==> !StuckAtZero(threads[t].entries))
      && (forall i :: 0 <= i < |sorted| - 1 ==> sorted[i].tsc <= sorted[i + 1].tsc)
  {
    var stuck := 0;
    for i := 0 to |threads|
      invariant stuck >= 0
      invariant stuck == 0 <==> forall t :: 0 <= t < i ==> !StuckAtZero(threads[t].entries)
    {
      var es := threads[i].entries;
      StuckFields(es);
      if |es| > 1 && es[|es| - 1].tsc == 0 && es[0].tsc == 0 { stuck := stuck + 1; }
    }
    if stuck > 0 { return true; }
    var mismatches := CountMismatches(sorted, debug);
    return mismatches > 0;
  }

  // ----------------------------------------------------------------- theorems

  lemma {:induction false} CountIsSize(ths: seq<Thread>)
    ensures |Samples(ths)| == Count(ths)
  {
    if ths != [] { CountIsSize(ths[1..]); }
  }

  lemma {:induction false} CountBound(ths: seq<Thread>, n: nat)
    requires forall t :: 0 <= t < |ths| ==> |ths[t].entries| <= n
    ensures Count(ths) <= |ths| * n
    ensures Count(ths) == |ths| * n <==> forall t :: 0 <= t < |ths| ==> |ths[t].entries| == n
  {
    if ths != [] {
      CountBound(ths[1..], n);
      assert |ths| * n == n + (|ths| - 1) * n;
      assert forall t :: 0 <= t < |ths| ==> ths[t] == if t == 0 then ths[0] else ths[1..][t - 1];
      if Count(ths) == |ths| * n {
        assert Count(ths[1..]) == |ths[1..]| * n;
      }
    }
  }

  /** In every interleaving the claimed numbers are 0, 1, 2, ... without gap or
      repetition, and the samples in number order never decrease. */
  lemma ClaimsInOrder(run: seq<State>, n: nat, i: nat)
    requires IsRun(run, n) && i < |run|
    ensures Samples(run[i].threads) == multiset(run[i].claimed)
    ensures |run[i].claimed| == run[i].seqno == Count(run[i].threads)
    ensures Numbered(run[i].claimed) && Ordered(run[i].claimed)
  {
    RunInv(run, n, i);
    CountIsSize(run[i].threads);
  }

  /** A swap succeeds exactly when nobody claimed a number since it was loaded: then the
      thread records that number with its own sample, otherwise it starts over. */
  lemma SwapExactly(run: seq<State>, n: nat, i: nat, t: nat)
    requires IsRun(run, n) && i < |run| && Enabled(run[i], n, Swap(t))
    ensures var s, r, pc := run[i], Apply(run[i], n, Swap(t)), run[i].threads[t].pc;
      && |r.threads| == |s.threads| && (forall u :: 0 <= u < |s.threads| && u != t ==> r.threads[u] == s.threads[u])
      && r.threads[t].pc.AtLoop? && r.clock == s.clock
      && if |s.claimed| == pc.seqno
         then r.claimed == s.claimed + [Entry(pc.seqno, t, pc.tsc)]
           && r.threads[t].entries == s.threads[t].entries + [Entry(pc.seqno, t, pc.tsc)]
         else r.claimed == s.claimed && r.threads[t].entries == s.threads[t].entries
  {
    RunInv(run, n, i);
  }

  /** A load sees the next number to be claimed, or that there is none left. */
  lemma LoadExactly(run: seq<State>, n: nat, i: nat, t: nat)
    requires IsRun(run, n) && i < |run| && Enabled(run[i], n, Load(t))
    ensures var s, r := run[i], Apply(run[i], n, Load(t));
      && r.claimed == s.claimed && r.threads[t].entries == s.threads[t].entries
      && r.threads[t].pc == if |s.claimed| == UINT_MAX then OutOfNumbers else Loaded(|s.claimed|)
  {
    RunInv(run, n, i);
  }

  /** The test can finish: one thread takes one sample at any clock value. */
  lemma OneSample(tsc: nat) returns (run: seq<State>)
    ensures IsRun(run, 1) && Finished(run[|run| - 1], 1) && run[|run| - 1].claimed == [Entry(0, 0, tsc)]
  {
    var s0 := State(0, tsc, [Thread(AtLoop, [])], []);
    var s1 := State(0, tsc, [Thread(Loaded(0), [])], []);
    var s2 := State(0, tsc, [Thread(Sampled(0, tsc), [])], []);
    var s3 := State(1, tsc, [Thread(AtLoop, [Entry(0, 0, tsc)])], [Entry(0, 0, tsc)]);
    assert Next(s0, 1, s1) by { assert s1 == Apply(s0, 1, Load(0)); }
    assert Next(s1, 1, s2) by { assert s2 == Apply(s1, 1, Sample(0, tsc)); }
    assert Next(s2, 1, s3) by {
      var e := Entry(0, 0, tsc);
      assert [] + [e] == [e];
      assert s3 == Apply(s2, 1, Swap(0));
    }
    run := [s0, s1, s2, s3];
  }

  /** When all threads are done, with room for all samples below 2^31, every thread
      has its n samples, the sorted array holds each number exactly once at its own
      place (so equal numbers are never compared) and the scan finds no mismatch. */
  lemma TestNeverReportsMismatch(run: seq<State>, n: nat, i: nat, sorted: seq<Entry>)
    requires IsRun(run, n) && i < |run| && Finished(run[i], n)
    requires |run[0].threads| * n <= INT_MIN_MAGNITUDE
    requires IsSorted(sorted, Samples(run[i].threads))
    ensures |sorted| == |run[0].threads| * n
    ensures forall t :: 0 <= t < |run[i].threads| ==> |run[i].threads[t].entries| == n
    ensures forall k :: 0 <= k < |sorted| ==> sorted[k].seqno == k
    ensures forall k :: 0 <= k < |sorted| - 1 ==> sorted[k].tsc <= sorted[k + 1].tsc
  {
    var s := run[i];
    RunInv(run, n, i);
    CountIsSize(s.threads);
    CountBound(s.threads, n);
    forall t | 0 <= t < |s.threads| ensures |s.threads[t].entries| == n {
      assert ThreadOk(s, n, s.threads[t]);
    }
    SortRestoresOrder(s.claimed, sorted);
  }

  /** On a finished run of a clock that never decreases, the test fails if and only if
      some thread saw zero in its first and its last sample. */
  method TestRun(ghost run: seq<State>, ghost n: nat, ghost i: nat,
                 threads: seq<Thread>, sorted: seq<Entry>, debug: bool)
    returns (failed: bool)
    requires IsRun(run, n) && i < |run| && Finished(run[i], n) && threads == run[i].threads
    requires |run[0].threads| * n <= INT_MIN_MAGNITUDE
    requires IsSorted(sorted, Samples(threads))
    ensures failed <==> exists t :: 0 <= t < |threads| && StuckAtZero(threads[t].entries)
  {
    TestNeverReportsMismatch(run, n, i, sorted);
    failed := Verdict(threads, sorted, debug);
  }
}
