/**
 Overlap serialisation of backend.c: with serialize_overlap set, an io_u whose
 byte range meets one in flight is refused.  The scan is skipped when the depth
 counter says that no other io_u is taken; both the counter and the in-flight
 flags are kept by get, submit, complete, requeue and put, modelled as steps.
 */
module Overlap {

  /** `flight` is IO_U_F_FLIGHT; `taken` is IO_U_F_IN_CUR_DEPTH while off the free list. */
  datatype IoU = IoU(offset: nat, buflen: nat, flight: bool, taken: bool)

  /** The outcome of handing an io_u to the engine. */
  datatype Status = Completed | Queued | Busy

  datatype State = State(ios: seq<IoU>, curDepth: nat)

  predicate Overlaps(a: IoU, b: IoU) {
    a.offset < b.offset + b.buflen && b.offset < a.offset + a.buflen
  }

  predicate Covers(a: IoU, byte: nat) {
    a.offset <= byte < a.offset + a.buflen
  }

  /** `in_flight_overlap`: a scan of all io_us that stops at the first hit. */
  method InFlightOverlap(ios: seq<IoU>, io: IoU) returns (overlap: bool)
    ensures overlap == AnyOverlap(ios, io)
  {
    var x1, x2 := io.offset, io.offset + io.buflen;
    overlap := false;
    for i := 0 to |ios|
      invariant !overlap
      invariant forall k :: 0 <= k < i ==> !(ios[k].flight && Overlaps(io, ios[k]))
    {
      if ios[i].flight {
        var y1, y2 := ios[i].offset, ios[i].offset + ios[i].buflen;
        if x1 < y2 && y1 < x2 {
          overlap := true;
          break;
        }
      }
    }
  }

  predicate AnyOverlap(ios: seq<IoU>, io: IoU) {
    exists i :: 0 <= i < |ios| && ios[i].flight && Overlaps(io, ios[i])
  }

  /** The guard of `io_u_submit`. */
  predicate Refused(s: State, u: nat)
    requires u < |s.ios|
  {
    s.curDepth > 1 && AnyOverlap(s.ios, s.ios[u])
  }

  datatype Step =
    | Get(u: nat, offset: nat, buflen: nat)
    | Submit(u: nat, engine: Status)
    | Complete(u: nat)
    | Requeue(u: nat, done: nat)
    | PutBack(u: nat)

  /** Get fills a free or requeued io_u; a requeued one after a short transfer
      continues `done` bytes further on, with its buflen unchanged. */
  predicate Enabled(s: State, step: Step) {
    && step.u < |s.ios|
    && var io := s.ios[step.u];
       match step
       case Get(_, _, _) => !io.taken
       case Submit(_, _) => io.taken && !io.flight
       case Complete(_) => io.flight
       case Requeue(_, _) => io.taken && s.curDepth > 0
       case PutBack(_) => io.taken && !io.flight && s.curDepth > 0
  }

  function Set(s: State, u: nat, io: IoU): State
    requires u < |s.ios|
  {
    s.(ios := s.ios[u := io])
  }

  /** `td_io_queue` raises the flag and lowers it again when the engine is busy. */
  function Apply(s: State, step: Step): State
    requires Enabled(s, step)
  {
    var io := s.ios[step.u];
    match step
    case Get(u, offset, buflen) => Set(s, u, IoU(offset, buflen, io.flight, true)).(curDepth := s.curDepth + 1)
    case Submit(u, engine) => if Refused(s, u) || engine.Busy? then s else Set(s, u, io.(flight := true))
    case Complete(u) => Set(s, u, io.(flight := false))
    case Requeue(u, done) => Set(s, u, IoU(io.offset + done, io.buflen, false, false)).(curDepth := s.curDepth - 1)
    case PutBack(u) => Set(s, u, io.(taken := false)).(curDepth := s.curDepth - 1)
  }

  ghost predicate Next(s: State, t: State) {
    exists step :: Enabled(s, step) && t == Apply(s, step)
  }

  ghost predicate Initial(s: State) {
    s.curDepth == 0 && forall i :: 0 <= i < |s.ios| ==> !s.ios[i].flight && !s.ios[i].taken
  }

  ghost predicate IsRun(run: seq<State>) {
    && run != [] && Initial(run[0])
    && forall i :: 0 <= i < |run| - 1 ==> Next(run[i], run[i + 1])
  }

  // ---------------------------------------------------------------- invariant

  function Taken(ios: seq<IoU>): nat {
    if ios == [] then 0 else (if ios[0].taken then 1 else 0) + Taken(ios[1..])
  }

  lemma {:induction false} TakenUpdate(ios: seq<IoU>, u: nat, io: IoU)
    requires u < |ios|
    ensures Taken(ios[u := io]) == Taken(ios) - (if ios[u].taken then 1 else 0) + (if io.taken then 1 else 0)
  {
    if u > 0 {
      TakenUpdate(ios[1..], u - 1, io);
      assert ios[u := io][1..] == ios[1..][u - 1 := io];
    } else {
      assert ios[u := io][1..] == ios[1..];
    }
  }

  lemma {:induction false} TakenCounts(ios: seq<IoU>, u: nat, v: nat)
    requires u < |ios| && ios[u].taken
    ensures Taken(ios) >= 1
    ensures v < |ios| && v != u && ios[v].taken ==> Taken(ios) >= 2
  {
    if u > 0 && v > 0 { TakenCounts(ios[1..], u - 1, v - 1); }
    else if u > 0 { TakenCounts(ios[1..], u - 1, u - 1); }
    else if 0 < v < |ios| && ios[v].taken { TakenCounts(ios[1..], v - 1, v - 1); }
  }

  lemma {:induction false} NoneTaken(ios: seq<IoU>)
    requires forall i :: 0 <= i < |ios| ==> !ios[i].taken
    ensures Taken(ios) == 0
  {
    if ios != [] { NoneTaken(ios[1..]); }
  }

  ghost predicate Inv(s: State) {
    && s.curDepth == Taken(s.ios)
    && (forall i :: 0 <= i < |s.ios| ==> s.ios[i].flight ==> s.ios[i].taken)
    && (forall i, j :: 0 <= i < j < |s.ios| && s.ios[i].flight && s.ios[j].flight ==> !Overlaps(s.ios[i], s.ios[j]))
  }

  /** The shortcut on the depth skips nothing: if the guard lets an io_u through,
      no other io_u in flight overlaps it. */
  lemma ShortcutSound(s: State, u: nat, v: nat)
    requires Inv(s) && u < |s.ios| && v < |s.ios| && u != v
    requires s.ios[u].taken && !Refused(s, u) && s.ios[v].flight
    ensures !Overlaps(s.ios[u], s.ios[v])
  {
    TakenCounts(s.ios, u, v);
  }

  lemma StepInv(s: State, step: Step)
    requires Inv(s) && Enabled(s, step)
    ensures Inv(Apply(s, step))
  {
    var t := Apply(s, step);
    TakenUpdate(s.ios, step.u, t.ios[step.u]);
    if step.Submit? && t != s {
      forall v | 0 <= v < |s.ios| && v != step.u && s.ios[v].flight ensures !Overlaps(s.ios[step.u], s.ios[v]) {
        ShortcutSound(s, step.u, v);
      }
    }
  }

  lemma {:induction false} RunInv(run: seq<State>, i: nat)
    requires IsRun(run) && i < |run|
    ensures Inv(run[i])
  {
    if i == 0 {
      NoneTaken(run[0].ios);
    } else {
      RunInv(run, i - 1);
      assert Next(run[i - 1], run[i - 1 + 1]);
      var step :| Enabled(run[i - 1], step) && run[i] == Apply(run[i - 1], step);
      StepInv(run[i - 1], step);
    }
  }

  // ----------------------------------------------------------------- theorems

  /** No byte is ever covered by two io_us in flight, in any run. */
  lemma InFlightDisjoint(run: seq<State>, i: nat, u: nat, v: nat, byte: nat)
    requires IsRun(run) && i < |run| && u < |run[i].ios| && v < |run[i].ios| && u != v
    requires run[i].ios[u].flight && run[i].ios[v].flight
    ensures !(Covers(run[i].ios[u], byte) && Covers(run[i].ios[v], byte))
  {
    RunInv(run, i);
    var a, b := if u < v then u else v, if u < v then v else u;
    assert !Overlaps(run[i].ios[a], run[i].ios[b]);
  }

  /** cur_depth never goes below zero: a taken io_u can always be requeued, and put back
      once it is not in flight. */
  lemma ReturnPossible(run: seq<State>, i: nat, u: nat, done: nat)
    requires IsRun(run) && i < |run| && u < |run[i].ios| && run[i].ios[u].taken
    ensures Enabled(run[i], Requeue(u, done))
    ensures !run[i].ios[u].flight ==> Enabled(run[i], PutBack(u))
  {
    RunInv(run, i);
    TakenCounts(run[i].ios, u, u);
  }

  /** What a submission does: the io_u becomes in flight exactly when its range meets none
      in flight and the engine takes it; nothing else changes. */
  lemma SubmitOutcome(run: seq<State>, i: nat, u: nat, engine: Status)
    requires IsRun(run) && i < |run| && Enabled(run[i], Submit(u, engine))
    ensures var s, t := run[i], Apply(run[i], Submit(u, engine));
      && |t.ios| == |s.ios| && t.curDepth == s.curDepth
      && (forall v :: 0 <= v < |s.ios| && v != u ==> t.ios[v] == s.ios[v])
      && t.ios[u] == s.ios[u].(flight := t.ios[u].flight)
      && (t.ios[u].flight <==>
        engine != Busy && forall v :: 0 <= v < |s.ios| && s.ios[v].flight ==> !Meet(s.ios[u], s.ios[v]))
  {
    SubmitExact(run, i, u);
  }

  /** An io_u obtained carries the given range and counts in cur_depth. */
  lemma GetOutcome(run: seq<State>, i: nat, u: nat, offset: nat, buflen: nat)
    requires IsRun(run) && i < |run| && Enabled(run[i], Get(u, offset, buflen))
    ensures var s, t := run[i], Apply(run[i], Get(u, offset, buflen));
      t.ios == s.ios[u := IoU(offset, buflen, false, true)] && t.curDepth == s.curDepth + 1
  {
    RunInv(run, i);
  }

  /** A completed io_u is no longer in flight; a requeued one continues behind what was
      done and, like one put back, is no longer taken. */
  lemma ReturnOutcome(run: seq<State>, i: nat, u: nat, done: nat)
    requires IsRun(run) && i < |run| && u < |run[i].ios|
    ensures var s := run[i]; var io := s.ios[u];
      && (Enabled(s, Complete(u)) <==> io.flight)
      && (io.flight ==> Apply(s, Complete(u)) == s.(ios := s.ios[u := io.(flight := false)]))
      && (Enabled(s, Requeue(u, done)) ==>
        var t := Apply(s, Requeue(u, done));
        t.ios == s.ios[u := IoU(io.offset + done, io.buflen, false, false)] && t.curDepth + 1 == s.curDepth)
      && (Enabled(s, PutBack(u)) ==>
        var t := Apply(s, PutBack(u)); t.ios == s.ios[u := io.(taken := false)] && t.curDepth + 1 == s.curDepth)
  {
  }

  /** `a` is empty and lies strictly inside `b`: the scan reports that as well. */
  predicate Inside(a: IoU, b: IoU) {
    a.buflen == 0 && b.offset < a.offset < b.offset + b.buflen
  }

  ghost predicate ShareByte(a: IoU, b: IoU) {
    exists byte: nat :: Covers(a, byte) && Covers(b, byte)
  }

  ghost predicate Meet(a: IoU, b: IoU) {
    ShareByte(a, b) || Inside(a, b) || Inside(b, a)
  }

  lemma OverlapsExactly(a: IoU, b: IoU)
    ensures Overlaps(a, b) <==> Meet(a, b)
  {
    if Overlaps(a, b) && a.buflen > 0 && b.buflen > 0 {
      var byte := if a.offset < b.offset then b.offset else a.offset;
      assert Covers(a, byte) && Covers(b, byte);
    }
  }

  /** An io_u ready for submission is held back exactly when its range shares a byte
      with one in flight, or one of the two is empty inside the other; the shortcut on
      curDepth changes nothing. */
  lemma SubmitExact(run: seq<State>, i: nat, u: nat)
    requires IsRun(run) && i < |run| && Enabled(run[i], Submit(u, Queued))
    ensures Refused(run[i], u) <==>
      exists v :: 0 <= v < |run[i].ios| && run[i].ios[v].flight && Meet(run[i].ios[u], run[i].ios[v])
  {
    RunInv(run, i);
    var s := run[i];
    if Refused(s, u) {
      var v :| 0 <= v < |s.ios| && s.ios[v].flight && Overlaps(s.ios[u], s.ios[v]);
      OverlapsExactly(s.ios[u], s.ios[v]);
    } else {
      forall v | 0 <= v < |s.ios| && s.ios[v].flight ensures !Meet(s.ios[u], s.ios[v]) {
        ShortcutSound(s, u, v);
        OverlapsExactly(s.ios[u], s.ios[v]);
      }
    }
  }
}
