/**
 The in-flight write log of backend.c and the verify-state snapshot of verify.c.

 `Log` is the value of the log: one slot per unit of queue depth, the circular
 search index, the number of issued writes, and the io_us.  `InflightLog` is the
 structure in place.  `State` interleaves the job thread, which stores a slot and
 then publishes the counter, with a thread that snapshots the log one load at a
 time.
 */
module InflightLogs {

  const INVALID_NUMBERIO: nat := 0xffff_ffff_ffff_ffff

  import opened Options

  /** The fields of an io_u that the log uses; `patternDone` is IO_U_F_PATTERN_DONE. */
  datatype IoU = IoU(write: bool, numberio: nat, idx: int, patternDone: bool)

  /** No slots means that logging is disabled. */
  datatype Log = Log(slots: seq<nat>, next: nat, issued: nat, ios: seq<IoU>)

  /** The exits of `log_inflight` and `invalidate_inflight`. */
  datatype Outcome = Skipped | Done | AbortSet | AbortNumber | AbortFull | AbortInvalid | AbortOther

  predicate Aborts(o: Outcome) {
    !o.Skipped? && !o.Done?
  }

  // --------------------------------------------------------------- operations

  /** The circular search: n probes starting at idx. */
  function Scan(slots: seq<nat>, idx: nat, n: nat): (r: Option<nat>)
    requires idx < |slots|
    ensures r.Some? ==> r.value < |slots| && slots[r.value] == INVALID_NUMBERIO
    decreases n
  {
    if n == 0 then None
    else if slots[idx] == INVALID_NUMBERIO then Some(idx)
    else Scan(slots, (idx + 1) % |slots|, n - 1)
  }

  /** First store of `log_inflight`: protect the write in slot i. */
  function StoreSlot(l: Log, u: nat, i: nat): Log
    requires u < |l.ios| && i < |l.slots|
  {
    l.(slots := l.slots[i := l.ios[u].numberio],
       next := (i + 1) % |l.slots|,
       ios := l.ios[u := l.ios[u].(idx := i)])
  }

  /** Second store: make it visible in the counter. */
  function Publish(l: Log, u: nat): Log
    requires u < |l.ios|
  {
    l.(issued := l.ios[u].numberio + 1)
  }

  /** The checks and the search, before anything is stored. */
  function Claim(l: Log, u: nat): (r: (Outcome, nat))
    requires u < |l.ios| && (l.slots != [] ==> l.next < |l.slots|)
    ensures r.0.Done? ==> r.1 < |l.slots| && l.slots[r.1] == INVALID_NUMBERIO
  {
    var io := l.ios[u];
    if l.slots == [] || !io.write then (Skipped, 0)
    else if io.idx != -1 then (AbortSet, 0)
    else if l.issued != io.numberio then (AbortNumber, 0)
    else match Scan(l.slots, l.next, |l.slots|)
         case None => (AbortFull, 0)
         case Some(i) => (Done, i)
  }

  function LogInflight(l: Log, u: nat): (Log, Outcome)
    requires u < |l.ios| && (l.slots != [] ==> l.next < |l.slots|)
  {
    var (o, i) := Claim(l, u);
    if o.Done? then (Publish(StoreSlot(l, u, i), u), Done) else (l, o)
  }

  function Invalidate(l: Log, u: nat): (Log, Outcome)
    requires u < |l.ios| && OwnsInRange(l, u)
  {
    var io := l.ios[u];
    if l.slots == [] || !io.write || io.idx == -1 then (l, Skipped)
    else if l.slots[io.idx] == INVALID_NUMBERIO then (l, AbortInvalid)
    else if l.slots[io.idx] != io.numberio then (l, AbortOther)
    else (l.(slots := l.slots[io.idx := INVALID_NUMBERIO], ios := l.ios[u := io.(idx := -1)]), Done)
  }

  /** `clear_inflight`, between loops; k is the job's count of issued writes. */
  function Clear(l: Log, k: nat): Log {
    if l.slots == [] then l
    else l.(slots := seq(|l.slots|, i => INVALID_NUMBERIO), next := 0, issued := k)
  }

  // ---------------------------------------------------------------- invariant

  /** Occupied slots and io_us that own a slot correspond one to one, with equal
      numbers, all numbers distinct and below the bound. */
  ghost predicate LogOk(l: Log, bound: nat) {
    && 0 < |l.slots| == |l.ios| && l.next < |l.slots| && bound <= INVALID_NUMBERIO
    && (forall u :: 0 <= u < |l.ios| ==> OwnerOk(l, l.ios[u]))
    && (forall u, v :: 0 <= u < v < |l.ios| && l.ios[u].idx != -1 ==> l.ios[u].idx != l.ios[v].idx)
    && (forall i :: 0 <= i < |l.slots| && l.slots[i] != INVALID_NUMBERIO ==> l.slots[i] < bound && Owned(l, i))
    && (forall i, j :: 0 <= i < j < |l.slots| && l.slots[i] != INVALID_NUMBERIO ==> l.slots[i] != l.slots[j])
  }

  ghost predicate OwnerOk(l: Log, io: IoU) {
    || io.idx == -1
    || (0 <= io.idx < |l.slots| && io.write && io.numberio != INVALID_NUMBERIO && l.slots[io.idx] == io.numberio)
  }

  ghost predicate Owned(l: Log, i: nat) {
    exists u :: 0 <= u < |l.ios| && l.ios[u].idx == i
  }

  lemma Advance(idx: nat, d: nat)
    requires idx < d
    ensures (idx + 1) % d == if idx + 1 < d then idx + 1 else 0
  {
  }

  /** The slot reached after k probes. */
  function Around(idx: nat, k: nat, d: nat): (r: nat)
    requires idx < d && k < d
    ensures r < d
  {
    if idx + k < d then idx + k else idx + k - d
  }

  /** A search that fails has seen every slot occupied, from any start index. */
  lemma {:induction false} ScanCoversAll(slots: seq<nat>, idx: nat, n: nat, k: nat)
    requires idx < |slots| && k < n <= |slots| && Scan(slots, idx, n).None?
    ensures slots[Around(idx, k, |slots|)] != INVALID_NUMBERIO
    decreases n
  {
    if k > 0 {
      Advance(idx, |slots|);
      ScanCoversAll(slots, (idx + 1) % |slots|, n - 1, k - 1);
    }
  }

  lemma SearchFinds(slots: seq<nat>, next: nat, j: nat)
    requires next < |slots| && j < |slots| && slots[j] == INVALID_NUMBERIO
    ensures Scan(slots, next, |slots|).Some?
  {
    if Scan(slots, next, |slots|).None? {
      ScanCoversAll(slots, next, |slots|, if j >= next then j - next else j + |slots| - next);
    }
  }

  ghost function Range(n: nat): (r: set<int>)
    ensures |r| == n
    ensures forall i: int :: i in r <==> 0 <= i < n
  {
    if n == 0 then {} else Range(n - 1) + {n - 1}
  }

  ghost function IdxSet(ios: seq<IoU>): (r: set<int>)
    ensures |r| <= |ios|
    ensures forall u :: 0 <= u < |ios| ==> ios[u].idx in r
  {
    if ios == [] then {} else
      {ios[0].idx} + IdxSet(ios[1..])
  }

  /** If every slot is owned, there are more io_us than slots as soon as one owns none. */
  lemma OwnersOutnumber(l: Log, u: nat)
    requires u < |l.ios| && l.ios[u].idx == -1
    requires forall i :: 0 <= i < |l.slots| ==> Owned(l, i)
    ensures |l.slots| < |l.ios|
  {
    var owned := IdxSet(l.ios);
    var need := Range(|l.slots|) + {-1};
    forall i | i in Range(|l.slots|) ensures i in owned { assert Owned(l, i); }
    assert owned == need + (owned - need);
  }

  /** With as many io_us as slots, an io_u that owns no slot leaves a slot free. */
  lemma FreeSlotExists(l: Log, bound: nat, u: nat) returns (j: nat)
    requires LogOk(l, bound) && u < |l.ios| && l.ios[u].idx == -1
    ensures j < |l.slots| && l.slots[j] == INVALID_NUMBERIO
  {
    if forall i :: 0 <= i < |l.slots| ==> l.slots[i] != INVALID_NUMBERIO {
      OwnersOutnumber(l, u);
      assert false;
    }
    j :| 0 <= j < |l.slots| && l.slots[j] == INVALID_NUMBERIO;
  }

  /** The branches of `log_inflight` that abort are unreachable when the number
      logged is the next one, whatever the search start. */
  lemma ClaimSucceeds(l: Log, u: nat)
    requires LogOk(l, l.issued) && u < |l.ios|
    requires l.ios[u].write && l.ios[u].idx == -1 && l.ios[u].numberio == l.issued
    ensures Claim(l, u).0.Done?
  {
    var j := FreeSlotExists(l, l.issued, u);
    SearchFinds(l.slots, l.next, j);
  }

  lemma StoreKeeps(l: Log, u: nat)
    requires LogOk(l, l.issued) && u < |l.ios| && l.issued < INVALID_NUMBERIO
    requires l.ios[u].write && l.ios[u].idx == -1 && l.ios[u].numberio == l.issued
    ensures Claim(l, u).0.Done? && LogOk(StoreSlot(l, u, Claim(l, u).1), l.issued + 1)
  {
    ClaimSucceeds(l, u);
    var i := Claim(l, u).1;
    var m := StoreSlot(l, u, i);
    forall v | 0 <= v < |l.ios| && v != u ensures l.ios[v].idx != i { assert OwnerOk(l, l.ios[v]); }
    forall v | 0 <= v < |m.ios| ensures OwnerOk(m, m.ios[v]) { assert v != u ==> OwnerOk(l, l.ios[v]); }
    forall k | 0 <= k < |m.slots| && m.slots[k] != INVALID_NUMBERIO ensures m.slots[k] < l.issued + 1 && Owned(m, k) {
      if k == i { assert m.ios[u].idx == i; } else {
        assert Owned(l, k);
        var v :| 0 <= v < |l.ios| && l.ios[v].idx == k;
        assert m.ios[v].idx == k;
      }
    }
  }

  /** The branches of `invalidate_inflight` that abort are unreachable too. */
  lemma InvalidateKeeps(l: Log, bound: nat, u: nat)
    requires LogOk(l, bound) && u < |l.ios|
    ensures OwnerOk(l, l.ios[u])
    ensures !Aborts(Invalidate(l, u).1) && LogOk(Invalidate(l, u).0, bound)
  {
    assert OwnerOk(l, l.ios[u]);
    var m := Invalidate(l, u).0;
    if m != l {
      var k := l.ios[u].idx;
      forall v | 0 <= v < |m.ios| ensures OwnerOk(m, m.ios[v]) { assert OwnerOk(l, l.ios[v]); }
      forall i | 0 <= i < |m.slots| && m.slots[i] != INVALID_NUMBERIO ensures m.slots[i] < bound && Owned(m, i) {
        assert i != k && Owned(l, i);
        var v :| 0 <= v < |l.ios| && l.ios[v].idx == i;
        assert m.ios[v].idx == i;
      }
    }
  }

  /** Marks do not matter to the log. */
  lemma UnmarkKeeps(l: Log, bound: nat, u: nat)
    requires LogOk(l, bound) && u < |l.ios|
    ensures LogOk(Unmark(l, u), bound)
  {
    var m := Unmark(l, u);
    forall v | 0 <= v < |m.ios| ensures OwnerOk(m, m.ios[v]) { assert OwnerOk(l, l.ios[v]); }
    forall i | 0 <= i < |m.slots| && m.slots[i] != INVALID_NUMBERIO ensures Owned(m, i) {
      assert Owned(l, i);
      var v :| 0 <= v < |l.ios| && l.ios[v].idx == i;
      assert m.ios[v].idx == i;
    }
  }

  lemma CompleteKeeps(l: Log, bound: nat, u: nat)
    requires LogOk(l, bound) && Marked(l) && u < |l.ios|
    ensures OwnsInRange(Unmark(l, u), u)
    ensures var (m, o) := Invalidate(Unmark(l, u), u); !Aborts(o) && LogOk(m, bound) && Marked(m)
  {
    UnmarkKeeps(l, bound, u);
    InvalidateKeeps(Unmark(l, u), bound, u);
    assert OwnerOk(l, l.ios[u]);
  }

  /** A clear keeps the correspondence exactly when no io_u owns a slot; completing one
      that did aborts. */
  lemma ClearExactly(l: Log, bound: nat, k: nat)
    requires LogOk(l, bound) && k <= INVALID_NUMBERIO
    ensures LogOk(Clear(l, k), k) <==> forall u :: 0 <= u < |l.ios| ==> l.ios[u].idx == -1
    ensures forall u :: 0 <= u < |l.ios| && l.ios[u].idx != -1 ==>
      OwnsInRange(Clear(l, k), u) && Invalidate(Clear(l, k), u).1 == AbortInvalid
  {
    var m := Clear(l, k);
    forall u | 0 <= u < |l.ios| && l.ios[u].idx != -1
      ensures !LogOk(m, k) && OwnsInRange(m, u) && Invalidate(m, u).1 == AbortInvalid
    {
      assert OwnerOk(l, l.ios[u]) && !OwnerOk(m, m.ios[u]);
    }
  }

  // ---------------------------------------------------- job thread and snapshot

  /** The job thread: between writes, past the stop check of `get_io_u` with an
      io_u about to be logged, or between the two stores of `log_inflight`. */
  datatype Writer = Ready | Armed(u: nat) | Stored(u: nat)

  /** `get_all_io_list` asks the job to stop, loads the slots and then the counter.
      The comment in `log_inflight` has the opposite order in mind, and a reader in
      that order does not stop the job. */
  datatype Order = SlotsFirst | CounterFirst

  datatype Reader = Away | Reader(order: Order, counter: Option<nat>, seen: seq<nat>)

  datatype State = State(log: Log, w: Writer, stop: bool, r: Reader, aborted: bool)

  /** `Arm` marks a write as filled and numbers it with the job's own count of issued
      writes; `ClearLog` sets the counter to that count.  The model leaves it free: it can
      also be set back.  `Complete` clears the mark; a requeued io_u keeps it. */
  datatype Step =
    | Arm(u: nat, numberio: nat)
    | Store
    | PublishCounter
    | Complete(u: nat)
    | ClearLog(k: nat)
    | Begin(order: Order)
    | LoadSlot
    | LoadCounter

  predicate Finished(s: State) {
    s.r.Reader? && s.r.counter.Some? && |s.r.seen| == |s.log.slots|
  }

  predicate Enabled(s: State, step: Step) {
    !s.aborted &&
    match step
    case Arm(u, _) =>
      s.w.Ready? && !s.stop && u < |s.log.ios| && !s.log.ios[u].patternDone && s.log.issued < INVALID_NUMBERIO
    case Store => s.w.Armed? && s.w.u < |s.log.ios| && (s.log.slots != [] ==> s.log.next < |s.log.slots|)
    case PublishCounter => s.w.Stored? && s.w.u < |s.log.ios|
    case Complete(u) => u < |s.log.ios| && (s.w.Ready? || s.w.u != u) && OwnsInRange(s.log, u)
    case ClearLog(k) => s.w.Ready? && k <= INVALID_NUMBERIO && Drained(s)
    case Begin(_) => s.r.Away?
    case LoadSlot => s.r.Reader? && |s.r.seen| < |s.log.slots| && (s.r.order.CounterFirst? ==> s.r.counter.Some?)
    case LoadCounter => s.r.Reader? && s.r.counter.None? && (s.r.order.SlotsFirst? ==> |s.r.seen| == |s.log.slots|)
  }

  /** Between loops every write has completed. */
  predicate Drained(s: State) {
    forall u :: 0 <= u < |s.log.ios| ==> !s.log.ios[u].patternDone
  }

  predicate OwnsInRange(l: Log, u: nat)
    requires u < |l.ios|
  {
    l.slots != [] && l.ios[u].idx != -1 ==> 0 <= l.ios[u].idx < |l.slots|
  }

  function Unmark(l: Log, u: nat): Log
    requires u < |l.ios|
  {
    l.(ios := l.ios[u := l.ios[u].(patternDone := false)])
  }

  function Apply(s: State, step: Step): State
    requires Enabled(s, step)
  {
    match step
    case Arm(u, numberio) =>
      var io := s.log.ios[u].(write := true, numberio := numberio, patternDone := true);
      s.(log := s.log.(ios := s.log.ios[u := io]), w := Armed(u))
    case Store =>
      var (o, i) := Claim(s.log, s.w.u);
      if o.Done? then s.(log := StoreSlot(s.log, s.w.u, i), w := Stored(s.w.u)) else s.(aborted := true)
    case PublishCounter => s.(log := Publish(s.log, s.w.u), w := Ready)
    case Complete(u) =>
      var (l, o) := Invalidate(Unmark(s.log, u), u);
      s.(log := l, aborted := s.aborted || Aborts(o))
    case ClearLog(k) => s.(log := Clear(s.log, k))
    case Begin(order) => s.(stop := s.stop || order.SlotsFirst?, r := Reader(order, None, []))
    case LoadSlot => s.(r := s.r.(seen := s.r.seen + [s.log.slots[|s.r.seen|]]))
    case LoadCounter => s.(r := s.r.(counter := Some(s.log.issued)))
  }

  ghost predicate Next(s: State, t: State) {
    exists step :: Enabled(s, step) && t == Apply(s, step)
  }

  ghost predicate IsRunFrom(s: State, run: seq<State>) {
    && run != [] && run[0] == s
    && forall i :: 0 <= i < |run| - 1 ==> Next(run[i], run[i + 1])
  }

  /** A job after `init_io_u`: empty slots, no io_u owns one, nothing issued. */
  ghost predicate Initial(s: State) {
    && 0 < |s.log.slots| == |s.log.ios| && s.log.next == 0 && s.log.issued == 0
    && (forall i :: 0 <= i < |s.log.slots| ==> s.log.slots[i] == INVALID_NUMBERIO)
    && (forall u :: 0 <= u < |s.log.ios| ==> s.log.ios[u].idx == -1 && !s.log.ios[u].patternDone)
    && s.w.Ready? && s.r.Away? && !s.stop && !s.aborted
  }

  function Bound(s: State): nat {
    if s.w.Stored? then s.log.issued + 1 else s.log.issued
  }

  /** An io_u that owns a slot is marked as filled, so it is not filled and logged
      again before it completes. */
  ghost predicate Marked(l: Log) {
    forall u :: 0 <= u < |l.ios| && l.ios[u].idx != -1 ==> l.ios[u].patternDone
  }

  ghost predicate Inv(s: State) {
    && LogOk(s.log, Bound(s)) && Marked(s.log)
    && (s.w.Armed? ==>
      && s.w.u < |s.log.ios| && s.log.issued < INVALID_NUMBERIO
      && s.log.ios[s.w.u].write && s.log.ios[s.w.u].idx == -1 && s.log.ios[s.w.u].patternDone)
    && (s.w.Stored? ==>
      s.w.u < |s.log.ios| && s.log.ios[s.w.u].idx != -1 && s.log.ios[s.w.u].numberio == s.log.issued)
    && (s.r.Reader? ==> |s.r.seen| <= |s.log.slots| && (s.r.order.SlotsFirst? ==> s.stop))
  }

  /** The write about to be logged carries the number the log expects. */
  predicate Agrees(s: State) {
    s.w.Armed? && s.w.u < |s.log.ios| ==> s.log.ios[s.w.u].numberio == s.log.issued
  }

  /** Past the stop check with a write that `log_inflight` will accept. */
  predicate ToBeLogged(s: State) {
    !s.aborted && s.w.Armed? && Agrees(s)
  }

  /** What a counter-first reader relies on while it scans. */
  ghost predicate Protected(s: State) {
    s.r.Reader? && s.r.order.CounterFirst? ==>
      && (s.r.counter.None? ==> s.r.seen == [])
      && (s.r.counter.Some? ==> s.r.counter.value <= s.log.issued)
      && forall j :: 0 <= j < |s.r.seen| && j < |s.log.slots| ==>
           s.log.slots[j] in {s.r.seen[j], INVALID_NUMBERIO} || s.log.slots[j] >= s.r.counter.value
  }

  /** What a slots-first reader relies on: no write is about to be logged. */
  ghost predicate Quiet(s: State) {
    s.r.Reader? && s.r.order.SlotsFirst? && !ToBeLogged(s)
    && forall j :: 0 <= j < |s.r.seen| && j < |s.log.slots| ==> s.log.slots[j] in {s.r.seen[j], INVALID_NUMBERIO}
  }

  predicate InFlight(l: Log, n: nat) {
    n != INVALID_NUMBERIO && n in l.slots
  }

  /** `verify_state_should_stop` on the saved snapshot. */
  predicate ShouldStop(r: Reader, n: nat)
    requires r.Reader? && r.counter.Some?
  {
    n >= r.counter.value || n in r.seen
  }

  /** Whatever the snapshot lets a later run verify has really completed. */
  ghost predicate Safe(s: State)
    requires Finished(s)
  {
    forall n: nat :: !ShouldStop(s.r, n) ==> !InFlight(s.log, n)
  }

  lemma InitialInv(s: State)
    requires Initial(s)
    ensures Inv(s) && Protected(s)
  {
  }

  lemma ArmInv(s: State, u: nat, numberio: nat)
    requires Inv(s) && Enabled(s, Arm(u, numberio))
    ensures Inv(Apply(s, Arm(u, numberio)))
  {
    var t := Apply(s, Arm(u, numberio));
    forall v | 0 <= v < |t.log.ios| ensures OwnerOk(t.log, t.log.ios[v]) { assert OwnerOk(s.log, s.log.ios[v]); }
    forall i | 0 <= i < |t.log.slots| && t.log.slots[i] != INVALID_NUMBERIO ensures Owned(t.log, i) {
      assert Owned(s.log, i);
      var v :| 0 <= v < |s.log.ios| && s.log.ios[v].idx == i;
      assert t.log.ios[v].idx == i;
    }
  }

  lemma ClearInv(s: State, k: nat)
    requires Inv(s) && Enabled(s, ClearLog(k))
    ensures Inv(Apply(s, ClearLog(k)))
  {
  }

  lemma StoreInv(s: State)
    requires Inv(s) && Enabled(s, Store)
    ensures Inv(Apply(s, Store))
  {
    if Agrees(s) { StoreKeeps(s.log, s.w.u); }
  }

  lemma CompleteInv(s: State, u: nat)
    requires Inv(s) && Enabled(s, Complete(u))
    ensures Inv(Apply(s, Complete(u)))
  {
    CompleteKeeps(s.log, Bound(s), u);
  }

  /** Reading changes nothing but the reader and the stop flag. */
  lemma ReaderInv(s: State, step: Step)
    requires Inv(s) && Enabled(s, step) && (step.Begin? || step.LoadSlot? || step.LoadCounter?)
    ensures Inv(Apply(s, step))
  {
  }

  lemma PublishInv(s: State)
    requires Inv(s) && Enabled(s, PublishCounter)
    ensures Inv(Apply(s, PublishCounter))
  {
    assert LogOk(Publish(s.log, s.w.u), s.log.issued + 1);
  }

  lemma StepInv(s: State, step: Step)
    requires Inv(s) && Enabled(s, step)
    ensures Inv(Apply(s, step))
  {
    match step
    case Arm(u, numberio) => ArmInv(s, u, numberio);
    case Store => StoreInv(s);
    case PublishCounter => PublishInv(s);
    case Complete(u) => CompleteInv(s, u);
    case ClearLog(k) => ClearInv(s, k);
    case _ => ReaderInv(s, step);
  }

  /** A clear that sets the counter below what the reader has loaded. */
  predicate SetsBack(s: State, step: Step) {
    step.ClearLog? && Loaded(s.r) && step.k < s.r.counter.value
  }

  predicate Loaded(r: Reader) {
    r.Reader? && r.order.CounterFirst? && r.counter.Some?
  }

  /** The protection of a counter-first reader is lost exactly by such a clear. */
  lemma StepProtected(s: State, step: Step)
    requires Inv(s) && Protected(s) && Enabled(s, step)
    ensures Protected(Apply(s, step)) <==> !SetsBack(s, step)
  {
  }

  /** The counter is not below what the reader has loaded. */
  predicate NotBehind(s: State) {
    Loaded(s.r) ==> s.r.counter.value <= s.log.issued
  }

  lemma NextProtected(s: State, t: State)
    requires Inv(s) && Protected(s) && Next(s, t) && NotBehind(t)
    ensures Protected(t)
  {
    var step :| Enabled(s, step) && t == Apply(s, step);
    StepProtected(s, step);
  }

  lemma {:induction false} RunProtected(run: seq<State>, i: nat)
    requires i < |run| && IsRunFrom(run[0], run) && Inv(run[0]) && Protected(run[0])
    requires forall m :: 0 <= m <= i ==> NotBehind(run[m])
    ensures Protected(run[i])
  {
    if i > 0 {
      RunProtected(run, i - 1);
      RunInv(run, i - 1);
      assert Next(run[i - 1], run[i - 1 + 1]);
      NextProtected(run[i - 1], run[i]);
    }
  }

  lemma StepQuiet(s: State, step: Step)
    requires Inv(s) && Quiet(s) && Enabled(s, step)
    ensures Quiet(Apply(s, step))
  {
  }

  lemma {:induction false} RunInv(run: seq<State>, i: nat)
    requires i < |run| && IsRunFrom(run[0], run) && Inv(run[0])
    ensures Inv(run[i])
    ensures Quiet(run[0]) ==> Quiet(run[i])
  {
    if i > 0 {
      RunInv(run, i - 1);
      var s := run[i - 1];
      assert Next(s, run[i - 1 + 1]);
      var step :| Enabled(s, step) && run[i] == Apply(s, step);
      StepInv(s, step);
      if Quiet(s) { StepQuiet(s, step); }
    }
  }

  // ----------------------------------------------------------------- theorems

  /** The two stores of the job thread, with nothing in between, are `log_inflight`. */
  lemma LogInflightSteps(s: State)
    requires Inv(s) && Enabled(s, Store) && Agrees(s)
    ensures Enabled(Apply(s, Store), PublishCounter)
    ensures var (l, o) := LogInflight(s.log, s.w.u);
      o.Done? && Apply(Apply(s, Store), PublishCounter) == s.(log := l, w := Ready)
  {
    ClaimSucceeds(s.log, s.w.u);
  }

  /** The circular search takes the first free slot from its start index. */
  lemma {:induction false} ScanTakesFirst(slots: seq<nat>, idx: nat, n: nat) returns (k: nat)
    requires idx < |slots| && n <= |slots| && Scan(slots, idx, n).Some?
    ensures k < n && Scan(slots, idx, n) == Some(Around(idx, k, |slots|))
    ensures forall m :: 0 <= m < k ==> slots[Around(idx, m, |slots|)] != INVALID_NUMBERIO
    decreases n
  {
    if slots[idx] == INVALID_NUMBERIO {
      k := 0;
    } else {
      Advance(idx, |slots|);
      var rest := ScanTakesFirst(slots, (idx + 1) % |slots|, n - 1);
      k := rest + 1;
      forall m | 0 <= m < k ensures slots[Around(idx, m, |slots|)] != INVALID_NUMBERIO {
        if m > 0 { assert Around(idx, m, |slots|) == Around((idx + 1) % |slots|, m - 1, |slots|); }
      }
    }
  }

  /** The index guards of Store and Complete, and that of PublishCounter, restrict
      nothing in a reachable state. */
  lemma StepsPossible(run: seq<State>, i: nat, u: nat)
    requires i < |run| && IsRunFrom(run[0], run) && Initial(run[0]) && !run[i].aborted
    ensures run[i].w.Armed? ==> Enabled(run[i], Store)
    ensures run[i].w.Stored? ==> Enabled(run[i], PublishCounter)
    ensures u < |run[i].log.ios| && (run[i].w.Ready? || run[i].w.u != u) ==> Enabled(run[i], Complete(u))
  {
    InitialInv(run[0]);
    RunInv(run, i);
    if u < |run[i].log.ios| { assert OwnerOk(run[i].log, run[i].log.ios[u]); }
  }

  lemma StepAborts(s: State, step: Step)
    requires Inv(s) && Enabled(s, step)
    ensures Apply(s, step).aborted <==> step.Store? && !Agrees(s)
  {
    match step
    case Store => if Agrees(s) { ClaimSucceeds(s.log, s.w.u); }
    case Complete(u) => CompleteKeeps(s.log, Bound(s), u);
    case _ =>
  }

  lemma NextAborts(s: State, t: State)
    requires Inv(s) && Next(s, t) && Agrees(s)
    ensures !t.aborted
  {
    var step :| Enabled(s, step) && t == Apply(s, step);
    StepAborts(s, step);
  }

  /** In every reachable state, the only step that aborts is logging a write whose
      number is not the one the log expects; that one always does. */
  lemma AbortsExactly(run: seq<State>, i: nat, step: Step)
    requires i < |run| && IsRunFrom(run[0], run) && Initial(run[0]) && Enabled(run[i], step)
    ensures Apply(run[i], step).aborted <==> step.Store? && !Agrees(run[i])
  {
    InitialInv(run[0]);
    RunInv(run, i);
    StepAborts(run[i], step);
  }

  lemma {:induction false} AgreeingRun(run: seq<State>, i: nat)
    requires i < |run| && IsRunFrom(run[0], run) && Initial(run[0])
    requires forall k :: 0 <= k <= i ==> Agrees(run[k])
    ensures !run[i].aborted
  {
    if i > 0 {
      InitialInv(run[0]);
      RunInv(run, i - 1);
      assert Next(run[i - 1], run[i - 1 + 1]);
      NextAborts(run[i - 1], run[i]);
    }
  }

  lemma LogAt(s: State)
    requires Inv(s) && Agrees(s)
    ensures LogOk(s.log, if s.w.Stored? then s.log.issued + 1 else s.log.issued)
    ensures s.w.Armed? ==> s.w.u < |s.log.ios| && Claim(s.log, s.w.u).0.Done?
  {
    if s.w.Armed? { ClaimSucceeds(s.log, s.w.u); }
  }

  /** A run whose writes carry the numbers the log expects never aborts: the log stays
      in one-to-one correspondence with the io_us that own a slot, and a write about to
      be logged finds a free one. */
  lemma AbortsUnreachable(run: seq<State>, i: nat)
    requires i < |run| && IsRunFrom(run[0], run) && Initial(run[0])
    requires forall k :: 0 <= k <= i ==> Agrees(run[k])
    ensures !run[i].aborted
    ensures LogOk(run[i].log, if run[i].w.Stored? then run[i].log.issued + 1 else run[i].log.issued)
    ensures run[i].w.Armed? ==> run[i].w.u < |run[i].log.ios| && Claim(run[i].log, run[i].w.u).0.Done?
  {
    AgreeingRun(run, i);
    InitialInv(run[0]);
    RunInv(run, i);
    LogAt(run[i]);
  }

  /** A reader that loads the counter before the slots gets a safe snapshot in
      every interleaving, while the job keeps logging, completing and clearing, as
      long as no clear sets the counter below what the reader has loaded. */
  lemma CounterFirstIsSafe(run: seq<State>, i: nat)
    requires i < |run| && IsRunFrom(run[0], run) && Initial(run[0])
    requires Finished(run[i]) && run[i].r.order.CounterFirst?
    requires forall m :: 0 <= m <= i ==> NotBehind(run[m])
    ensures Safe(run[i])
  {
    InitialInv(run[0]);
    RunInv(run, i);
    RunProtected(run, i);
    SafeIfSeen(run[i]);
  }

  lemma SafeIfSeen(s: State)
    requires Inv(s) && Finished(s)
    requires (Protected(s) && s.r.order.CounterFirst?) || Quiet(s)
    ensures Safe(s)
  {
    forall n: nat | !ShouldStop(s.r, n) && InFlight(s.log, n) ensures false {
      var j :| 0 <= j < |s.log.slots| && s.log.slots[j] == n;
    }
  }

  /** The reader of verify.c, from the moment it has asked the job to stop: every
      continuation yields a safe snapshot exactly when the job thread is not past
      its stop check with a write still to be logged. */
  lemma SlotsFirstExact(s: State)
    requires Inv(s) && s.r == Reader(SlotsFirst, None, [])
    ensures (forall run, i :: IsRunFrom(s, run) && 0 <= i < |run| && Finished(run[i]) ==> Safe(run[i]))
       <==> !ToBeLogged(s)
  {
    if ToBeLogged(s) {
      var run := MissedWrite(s);
      assert Finished(run[|run| - 1]);
    } else {
      forall run, i | IsRunFrom(s, run) && 0 <= i < |run| && Finished(run[i]) ensures Safe(run[i]) {
        RunInv(run, i);
        SafeIfSeen(run[i]);
      }
    }
  }

  lemma {:induction false} ScanRun(s: State) returns (run: seq<State>)
    requires !s.aborted && s.r.Reader? && (s.r.order.SlotsFirst? || s.r.counter.Some?)
    requires |s.r.seen| <= |s.log.slots|
    requires s.r.seen == s.log.slots[..|s.r.seen|]
    ensures IsRunFrom(s, run) && run[|run| - 1] == s.(r := s.r.(seen := s.log.slots))
    decreases |s.log.slots| - |s.r.seen|
  {
    if |s.r.seen| == |s.log.slots| {
      run := [s];
    } else {
      var t := Apply(s, LoadSlot);
      assert Next(s, t);
      var rest := ScanRun(t);
      run := [s] + rest;
      RunCons(s, rest);
    }
  }

  lemma RunCons(s: State, rest: seq<State>)
    requires rest != [] && IsRunFrom(rest[0], rest) && Next(s, rest[0])
    ensures IsRunFrom(s, [s] + rest)
  {
    var run := [s] + rest;
    forall i | 0 <= i < |run| - 1 ensures Next(run[i], run[i + 1]) {
      if i > 0 { assert run[i] == rest[i - 1] && run[i + 1] == rest[i - 1 + 1]; }
    }
  }

  lemma RunSnoc(run: seq<State>, t: State)
    requires run != [] && IsRunFrom(run[0], run) && Next(run[|run| - 1], t)
    ensures IsRunFrom(run[0], run + [t])
  {
    var next := run + [t];
    forall i | 0 <= i < |next| - 1 ensures Next(next[i], next[i + 1]) {
      if i < |run| - 1 { assert next[i] == run[i] && next[i + 1] == run[i + 1]; }
    }
  }

  /** The failing interleaving: the slots are scanned, the write is logged and
      published, and only then is the counter loaded. */
  lemma MissedWrite(s: State) returns (run: seq<State>)
    requires Inv(s) && s.r == Reader(SlotsFirst, None, []) && ToBeLogged(s)
    ensures IsRunFrom(s, run) && Finished(run[|run| - 1]) && !Safe(run[|run| - 1])
  {
    var n := s.log.issued;
    run := ScanRun(s);
    var s1 := run[|run| - 1];
    ClaimSucceeds(s.log, s.w.u);
    var i := Claim(s.log, s.w.u).1;
    var s2 := Apply(s1, Store);
    assert Next(s1, s2);
    RunSnoc(run, s2);
    run := run + [s2];
    var s3 := Apply(s2, PublishCounter);
    assert Next(s2, s3);
    RunSnoc(run, s3);
    run := run + [s3];
    var s4 := Apply(s3, LoadCounter);
    assert Next(s3, s4);
    RunSnoc(run, s4);
    run := run + [s4];
    assert s4.log.slots[i] == n && InFlight(s4.log, n);
    assert n !in s4.r.seen;
    assert !ShouldStop(s4.r, n);
  }

  /** Every job has a run, from its initial state, whose snapshot misses a write. */
  lemma SnapshotCanMiss(s: State) returns (run: seq<State>)
    requires Initial(s)
    ensures IsRunFrom(s, run) && Finished(run[|run| - 1]) && !Safe(run[|run| - 1])
  {
    InitialInv(s);
    var s1 := Apply(s, Arm(0, 0));
    assert Next(s, s1);
    StepInv(s, Arm(0, 0));
    var s2 := Apply(s1, Begin(SlotsFirst));
    assert Next(s1, s2);
    StepInv(s1, Begin(SlotsFirst));
    var rest := MissedWrite(s2);
    RunCons(s1, rest);
    RunCons(s, [s1] + rest);
    run := [s] + ([s1] + rest);
  }

  lemma Then(run: seq<State>, step: Step) returns (longer: seq<State>)
    requires run != [] && IsRunFrom(run[0], run) && Enabled(run[|run| - 1], step)
    ensures longer == run + [Apply(run[|run| - 1], step)] && IsRunFrom(run[0], longer)
  {
    var t := Apply(run[|run| - 1], step);
    assert Next(run[|run| - 1], t);
    RunSnoc(run, t);
    longer := run + [t];
  }

  lemma AllFree(s: State)
    requires Inv(s)
    ensures Drained(s) ==> forall i :: 0 <= i < |s.log.slots| ==> s.log.slots[i] == INVALID_NUMBERIO
  {
    forall i | 0 <= i < |s.log.slots| && s.log.slots[i] != INVALID_NUMBERIO
      ensures exists u :: 0 <= u < |s.log.ios| && s.log.ios[u].patternDone
    {
      assert Owned(s.log, i);
    }
  }

  /** Whenever a clear can set the counter back while a reader has loaded it, the
      snapshot can miss the write that reuses the number: the slots are scanned, the log
      is cleared, and the write is stored. */
  lemma SetBackMisses(s: State, k: nat) returns (run: seq<State>)
    requires Inv(s) && !s.stop && Loaded(s.r) && s.r.seen == []
    requires Enabled(s, ClearLog(k)) && SetsBack(s, ClearLog(k)) && k < INVALID_NUMBERIO
    ensures IsRunFrom(s, run) && Finished(run[|run| - 1]) && run[|run| - 1].r.order.CounterFirst?
    ensures !Safe(run[|run| - 1])
  {
    AllFree(s);
    run := ScanRun(s);
    var s1 := run[|run| - 1];
    run := Then(run, ClearLog(k));
    var s2 := run[|run| - 1];
    run := Then(run, Arm(0, k));
    var s3 := run[|run| - 1];
    assert Inv(s1) && s1.r.seen == s.log.slots;
    StepInv(s1, ClearLog(k));
    StepInv(s2, Arm(0, k));
    ClaimSucceeds(s3.log, 0);
    run := Then(run, Store);
    var s4 := run[|run| - 1];
    assert s4.log.slots[Claim(s3.log, 0).1] == k && InFlight(s4.log, k);
    assert k !in s4.r.seen && !ShouldStop(s4.r, k);
  }

  /** A job that has written once and completed it. */
  lemma OneWritten(s: State) returns (run: seq<State>)
    requires Initial(s)
    ensures IsRunFrom(s, run) && Inv(run[|run| - 1])
    ensures var t := run[|run| - 1];
      t.w.Ready? && Drained(t) && t.log.issued == 1 && !t.stop && !t.aborted && t.r.Away?
  {
    InitialInv(s);
    run := Then([s], Arm(0, 0));
    var s1 := run[1];
    StepInv(s, Arm(0, 0));
    ClaimSucceeds(s1.log, 0);
    run := Then(run, Store);
    StepInv(s1, Store);
    var s2 := run[2];
    run := Then(run, PublishCounter);
    StepInv(s2, PublishCounter);
    var s3 := run[3];
    CompleteKeeps(s3.log, Bound(s3), 0);
    run := Then(run, Complete(0));
    StepInv(s3, Complete(0));
  }

  lemma RunJoin(run: seq<State>, rest: seq<State>)
    requires run != [] && IsRunFrom(run[0], run) && rest != [] && IsRunFrom(run[|run| - 1], rest)
    ensures IsRunFrom(run[0], run + rest[1..])
    ensures (run + rest[1..])[|run + rest[1..]| - 1] == rest[|rest| - 1]
  {
    var all := run + rest[1..];
    forall i | 0 <= i < |all| - 1 ensures Next(all[i], all[i + 1]) {
      if i < |run| - 1 {
        assert Next(run[i], run[i + 1]);
      } else {
        var j := i - (|run| - 1);
        assert all[i] == rest[j] && all[i + 1] == rest[j + 1];
      }
    }
  }

  /** Every job has a run, from its initial state, in which a counter-first snapshot
      misses a write because the counter was set back. */
  lemma CounterFirstCanMiss(s: State) returns (run: seq<State>)
    requires Initial(s)
    ensures IsRunFrom(s, run) && Finished(run[|run| - 1]) && run[|run| - 1].r.order.CounterFirst?
    ensures !Safe(run[|run| - 1])
  {
    var r := OneWritten(s);
    var t := r[|r| - 1];
    StepInv(t, Begin(CounterFirst));
    r := Then(r, Begin(CounterFirst));
    var t1 := r[|r| - 1];
    StepInv(t1, LoadCounter);
    r := Then(r, LoadCounter);
    var rest := SetBackMisses(r[|r| - 1], 0);
    RunJoin(r, rest);
    run := r + rest[1..];
  }

  // ----------------------------------------------------- the structure in place

  /** The log fields of `thread_data`; a null array means logging is disabled. */
  class InflightLog {
    var slots: array?<nat>
    var next: nat
    var issued: nat
    const ios: array<IoU>

    ghost function View(): Log
      reads this, slots, ios
    {
      Log(if slots == null then [] else slots[..], next, issued, ios[..])
    }

    ghost predicate Valid()
      reads this, slots, ios
    {
      slots != null ==>
        && 0 < slots.Length && next < slots.Length
        && forall u :: 0 <= u < ios.Length ==> OwnsInRange(View(), u)
    }

    /** `init_io_u` and `init_inflight_logging`. */
    constructor (iodepth: nat, enabled: bool)
      requires iodepth > 0
      ensures Valid() && fresh(ios) && (slots != null ==> fresh(slots))
      ensures View().slots == if enabled then seq(iodepth, i => INVALID_NUMBERIO) else []
      ensures View().next == View().issued == 0 && View().ios == seq(iodepth, i => IoU(false, 0, -1, false))
    {
      var none: array?<nat> := null;
      if enabled { none := new nat[iodepth](i => INVALID_NUMBERIO); }
      slots, next, issued := none, 0, 0;
      ios := new IoU[iodepth](i => IoU(false, 0, -1, false));
    }

    method LogIo(u: nat) returns (o: Outcome)
      requires Valid() && u < ios.Length
      modifies this, slots, ios
      ensures (View(), o) == LogInflight(old(View()), u)
      ensures slots == old(slots)
      ensures o.Skipped? <==> slots == null || !old(ios[u]).write
      ensures !o.Done? ==> View() == old(View())
      ensures o.Done? ==>
        && issued == old(ios[u]).numberio + 1 == old(issued) + 1
        && 0 <= ios[u].idx < slots.Length && slots[ios[u].idx] == ios[u].numberio == old(ios[u]).numberio
        && old(slots[..])[ios[u].idx] == INVALID_NUMBERIO && next == (ios[u].idx + 1) % slots.Length
    {
      if slots == null || !ios[u].write { return Skipped; }
      if ios[u].idx != -1 { return AbortSet; }
      if issued != ios[u].numberio { return AbortNumber; }
      var d := slots.Length;
      var idx, i := next, 0;
      while i < d
        invariant 0 <= i <= d && 0 <= idx < d
        invariant Scan(slots[..], next, d) == Scan(slots[..], idx, d - i)
      {
        if slots[idx] == INVALID_NUMBERIO {
          slots[idx] := ios[u].numberio;
          next := (idx + 1) % d;
          ios[u] := ios[u].(idx := idx);
          issued := ios[u].numberio + 1;
          return Done;
        }
        idx, i := (idx + 1) % d, i + 1;
      }
      return AbortFull;
    }

    method InvalidateInflight(u: nat) returns (o: Outcome)
      requires Valid() && u < ios.Length
      modifies slots, ios
      ensures (View(), o) == Invalidate(old(View()), u)
      ensures o.Skipped? <==> slots == null || !old(ios[u]).write || old(ios[u]).idx == -1
      ensures !o.Done? ==> View() == old(View())
      ensures o.Done? ==>
        && old(slots[..])[old(ios[u]).idx] == old(ios[u]).numberio != INVALID_NUMBERIO
        && slots[old(ios[u]).idx] == INVALID_NUMBERIO && ios[u] == old(ios[u]).(idx := -1)
    {
      assert slots != null ==> OwnsInRange(View(), u);
      if slots == null || !ios[u].write || ios[u].idx == -1 { return Skipped; }
      if slots[ios[u].idx] == INVALID_NUMBERIO { return AbortInvalid; }
      if slots[ios[u].idx] != ios[u].numberio { return AbortOther; }
      slots[ios[u].idx] := INVALID_NUMBERIO;
      ios[u] := ios[u].(idx := -1);
      return Done;
    }

    method ClearInflight(ioIssues: nat)
      requires Valid()
      modifies this, slots
      ensures View() == Clear(old(View()), ioIssues) && slots == old(slots)
      ensures slots != null ==> next == 0 && issued == ioIssues
      ensures slots != null ==> forall i :: 0 <= i < slots.Length ==> slots[i] == INVALID_NUMBERIO
    {
      if slots == null { return; }
      for i := 0 to slots.Length
        invariant slots == old(slots) && next == old(next) && issued == old(issued)
        invariant forall k :: 0 <= k < i ==> slots[k] == INVALID_NUMBERIO
      {
        slots[i] := INVALID_NUMBERIO;
      }
      next, issued := 0, ioIssues;
    }
  }

  /** `verify_state_should_stop` on a loaded snapshot. */
  method VerifyStateShouldStop(r: Reader, n: nat) returns (stop: bool)
    requires r.Reader? && r.counter.Some?
    ensures stop == ShouldStop(r, n)
    ensures !stop <==> n < r.counter.value && forall i :: 0 <= i < |r.seen| ==> r.seen[i] != n
  {
    if n < r.counter.value {
      for i := 0 to |r.seen|
        invariant n !in r.seen[..i]
      {
        if r.seen[i] == n { return true; }
      }
      return false;
    }
    return true;
  }
}
