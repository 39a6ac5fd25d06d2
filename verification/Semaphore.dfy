/**
 The semaphore of fio_sem.c, built from a mutex and a condition variable.

 Each section executed under the mutex is one step.  A thread waiting on the
 condition variable sleeps until a signal, a spurious wakeup (POSIX allows them)
 or, for a timed wait, the deadline; POSIX also lets a timed wait that reports
 the deadline consume a signal sent at the same time.
 */
module Semaphores {

  datatype Sem = Sem(value: nat, waiters: nat)

  // ------------------------------------------------------ sections on the fields

  /** `fio_sem_up`: signal only on the transition from zero. */
  function UpSem(s: Sem): (Sem, bool) {
    (s.(value := s.value + 1), s.value == 0 && s.waiters > 0)
  }

  /** `fio_sem_down_trylock`; true means not acquired. */
  function TrySem(s: Sem): (Sem, bool) {
    if s.value > 0 then (s.(value := s.value - 1), false) else (s, true)
  }

  /** One pass through the loop of `fio_sem_down`: acquire, or register and wait. */
  function DownSem(s: Sem): (Sem, bool) {
    if s.value > 0 then (s.(value := s.value - 1), true) else (s.(waiters := s.waiters + 1), false)
  }

  /** Deregistering when a wait ends. */
  function Leave(s: Sem): Sem
    requires s.waiters > 0
  {
    s.(waiters := s.waiters - 1)
  }

  // ------------------------------------------------------------- threads and runs

  /** Sleeping: in the condition wait.  Woken: signalled or woken spuriously, on its
      way to recheck the value.  Expired: past its deadline, about to give up. */
  datatype Pc = Out | Sleeping(timed: bool) | Woken(timed: bool) | Expired

  datatype State = State(sem: Sem, pc: map<nat, Pc>, ups: nat, downs: nat)

  /** `timed` distinguishes `fio_sem_down_timeout` from `fio_sem_down`; `pick` is
      the sleeper the signal of an up reaches. */
  datatype Step =
    | Down(a: nat, timed: bool)
    | Trylock(a: nat)
    | Up(pick: nat)
    | Spurious(a: nat)
    | Resume(a: nat)
    | Deadline(a: nat)
    | GiveUp(a: nat)

  ghost function Sleepers(pc: map<nat, Pc>): set<nat> {
    set a | a in pc && pc[a].Sleeping?
  }

  ghost function Wakers(pc: map<nat, Pc>): set<nat> {
    set a | a in pc && pc[a].Woken?
  }

  ghost function Waiting(pc: map<nat, Pc>): set<nat> {
    set a | a in pc && !pc[a].Out?
  }

  ghost predicate Enabled(s: State, step: Step) {
    match step
    case Down(a, _) => a in s.pc && s.pc[a].Out?
    case Trylock(a) => a in s.pc && s.pc[a].Out?
    case Up(pick) => UpSem(s.sem).1 && Sleepers(s.pc) != {} ==> pick in Sleepers(s.pc)
    case Spurious(a) => a in s.pc && s.pc[a].Sleeping?
    case Resume(a) => a in s.pc && s.pc[a].Woken? && s.sem.waiters > 0
    case Deadline(a) => a in s.pc && ((s.pc[a].Sleeping? && s.pc[a].timed) || (s.pc[a].Woken? && s.pc[a].timed))
    case GiveUp(a) => a in s.pc && s.pc[a].Expired? && s.sem.waiters > 0
  }

  /** Acquire or go to sleep; a timed wait stays registered across rechecks, which
      leaves the same counts. */
  ghost function Attempt(s: State, sem: Sem, a: nat, timed: bool): State {
    var (next, acquired) := DownSem(sem);
    if acquired then State(next, s.pc[a := Out], s.ups, s.downs + 1)
    else State(next, s.pc[a := Sleeping(timed)], s.ups, s.downs)
  }

  ghost function Apply(s: State, step: Step): State
    requires Enabled(s, step)
  {
    match step
    case Down(a, timed) => Attempt(s, s.sem, a, timed)
    case Trylock(a) =>
      var (next, failed) := TrySem(s.sem);
      s.(sem := next, downs := if failed then s.downs else s.downs + 1)
    case Up(pick) =>
      var (next, wake) := UpSem(s.sem);
      var pc := if wake && Sleepers(s.pc) != {} then s.pc[pick := Woken(s.pc[pick].timed)] else s.pc;
      State(next, pc, s.ups + 1, s.downs)
    case Spurious(a) => s.(pc := s.pc[a := Woken(s.pc[a].timed)])
    case Resume(a) => Attempt(s, Leave(s.sem), a, s.pc[a].timed)
    case Deadline(a) => s.(pc := s.pc[a := Expired])
    case GiveUp(a) => s.(sem := Leave(s.sem), pc := s.pc[a := Out])
  }

  ghost predicate Next(s: State, t: State) {
    exists step :: Enabled(s, step) && t == Apply(s, step)
  }

  ghost predicate Initial(s: State, value: nat) {
    s.sem == Sem(value, 0) && s.ups == s.downs == 0 && forall a :: a in s.pc ==> s.pc[a].Out?
  }

  ghost predicate IsRun(run: seq<State>, value: nat) {
    && run != [] && Initial(run[0], value)
    && forall i :: 0 <= i < |run| - 1 ==> Next(run[i], run[i + 1])
  }

  // ------------------------------------------------------------------ accounting

  ghost predicate Counted(s: State, value: nat) {
    && s.sem.waiters == |Waiting(s.pc)|
    && s.sem.value + s.downs == value + s.ups
  }

  lemma Retarget(pc: map<nat, Pc>, a: nat, next: Pc)
    requires a in pc
    ensures Waiting(pc[a := next]) == if next.Out? then Waiting(pc) - {a} else Waiting(pc) + {a}
    ensures a in Waiting(pc) <==> !pc[a].Out?
    ensures next.Out? == pc[a].Out? ==> Waiting(pc[a := next]) == Waiting(pc)
  {
  }

  lemma StepCounted(s: State, step: Step, value: nat)
    requires Counted(s, value) && Enabled(s, step)
    ensures Counted(Apply(s, step), value)
  {
    var t := Apply(s, step);
    match step
    case Down(a, _) => Retarget(s.pc, a, t.pc[a]);
    case Trylock(_) =>
    case Up(pick) =>
      if UpSem(s.sem).1 && Sleepers(s.pc) != {} { Retarget(s.pc, pick, t.pc[pick]); }
    case Spurious(a) => Retarget(s.pc, a, t.pc[a]);
    case Resume(a) => Retarget(s.pc, a, t.pc[a]);
    case Deadline(a) => Retarget(s.pc, a, t.pc[a]);
    case GiveUp(a) => Retarget(s.pc, a, t.pc[a]);
  }

  /** In every run the value is the initial value plus ups minus successful downs,
      timed and trylocked ones included, and `waiters` counts the waiting threads. */
  lemma {:induction false} RunCounted(run: seq<State>, value: nat, i: nat)
    requires IsRun(run, value) && i < |run|
    ensures Counted(run[i], value)
  {
    if i == 0 {
      assert Waiting(run[0].pc) == {};
    } else {
      RunCounted(run, value, i - 1);
      assert Next(run[i - 1], run[i - 1 + 1]);
      var step :| Enabled(run[i - 1], step) && run[i] == Apply(run[i - 1], step);
      StepCounted(run[i - 1], step, value);
    }
  }

  // --------------------------------------------------------------- lost wakeups

  /** A thread inside a wait is counted, so leaving never decrements zero waiters: the
      guards of Resume and GiveUp restrict nothing. */
  lemma LeavePossible(run: seq<State>, value: nat, i: nat, a: nat)
    requires IsRun(run, value) && i < |run| && a in run[i].pc
    ensures run[i].pc[a].Woken? ==> Enabled(run[i], Resume(a))
    ensures run[i].pc[a].Expired? ==> Enabled(run[i], GiveUp(a))
  {
    RunCounted(run, value, i);
    assert a in Waiting(run[i].pc) <==> !run[i].pc[a].Out?;
  }

  /** Who gets in: a down, a trylock or a woken waiter acquires exactly when the value is
      positive; otherwise a trylock leaves everything as it is and the others sleep. */
  lemma AcquireExactly(run: seq<State>, value: nat, i: nat, a: nat, timed: bool)
    requires IsRun(run, value) && i < |run| && a in run[i].pc
    ensures var s := run[i];
      && (Enabled(s, Down(a, timed)) ==> Acquires(s, Apply(s, Down(a, timed)), a, Sleeping(timed)))
      && (Enabled(s, Trylock(a)) ==> Acquires(s, Apply(s, Trylock(a)), a, Out))
      && (s.pc[a].Woken? ==>
        Enabled(s, Resume(a)) && Acquires(s, Apply(s, Resume(a)), a, Sleeping(s.pc[a].timed)))
  {
    LeavePossible(run, value, i, a);
  }

  ghost predicate Acquires(s: State, t: State, a: nat, otherwise: Pc) {
    && a in s.pc
    && if s.sem.value > 0
       then t.downs == s.downs + 1 && t.sem.value == s.sem.value - 1 && t.pc == s.pc[a := Out]
       else t.downs == s.downs && t.sem.value == 0 && t.pc == s.pc[a := otherwise]
  }

  /** A positive value never meets a sleeper without some woken thread on its way. */
  ghost predicate NoLostWakeup(s: State) {
    s.sem.value > 0 && Sleepers(s.pc) != {} ==> Wakers(s.pc) != {}
  }

  /** How a semaphore is used: only as a binary one, with at most one waiter at a
      time, or with timed waits. */
  datatype Use = Use(binary: bool, single: bool, timed: bool)

  ghost predicate Respects(s: State, u: Use) {
    && (u.binary ==> s.sem.value <= 1)
    && (u.single ==> s.sem.waiters <= 1)
    && (!u.timed ==> NoneTimed(s.pc))
  }

  predicate NoneTimed(pc: map<nat, Pc>) {
    forall a :: a in pc ==> pc[a] in {Out, Sleeping(false), Woken(false)}
  }

  ghost predicate RunRespects(run: seq<State>, u: Use) {
    forall i :: 0 <= i < |run| ==> Respects(run[i], u)
  }

  lemma OnlyWaiter(pc: map<nat, Pc>, a: nat, b: nat)
    requires |Waiting(pc)| <= 1 && a in Waiting(pc) && b in Waiting(pc)
    ensures a == b
  {
    var rest := Waiting(pc) - {a};
    assert |rest| == 0;
    assert b !in rest;
  }

  /** With at most one waiter, a sleeper only ever sees the value zero. */
  lemma StepSingle(s: State, step: Step, value: nat)
    requires Counted(s, value) && s.sem.waiters <= 1 && NoLostWakeup(s) && Enabled(s, step)
    requires Apply(s, step).sem.waiters <= 1
    ensures NoLostWakeup(Apply(s, step))
  {
    var t := Apply(s, step);
    StepCounted(s, step, value);
    forall b | b in Sleepers(t.pc) && t.sem.value > 0 ensures Wakers(t.pc) != {} {
      assert b in Waiting(t.pc);
      if b in s.pc && s.pc[b].Sleeping? {
        assert b in Sleepers(s.pc) && b in Waiting(s.pc);
        forall c | c in Wakers(s.pc) ensures c == b { OnlyWaiter(s.pc, b, c); }
        assert s.sem.value == 0;
        assert step.Up?;
        assert step.pick in Sleepers(s.pc) && step.pick in Wakers(t.pc);
      }
    }
  }

  /** With values up to one and no timed waits, any number of waiters. */
  lemma StepBinary(s: State, step: Step, value: nat)
    requires Counted(s, value) && s.sem.value <= 1 && NoLostWakeup(s) && Enabled(s, step)
    requires Apply(s, step).sem.value <= 1 && !step.Deadline?
    ensures NoLostWakeup(Apply(s, step))
  {
    var t := Apply(s, step);
    match step
    case Down(a, _) =>
    case Trylock(_) =>
    case Up(pick) =>
      if Sleepers(s.pc) != {} {
        var b :| b in Sleepers(s.pc);
        assert b in Waiting(s.pc);
        assert pick in Wakers(t.pc);
      }
    case Spurious(a) => assert a in Wakers(t.pc);
    case Resume(a) =>
    case GiveUp(a) => assert Wakers(t.pc) == Wakers(s.pc) && Sleepers(t.pc) == Sleepers(s.pc);
  }

  /** The condition under which no use of the semaphore can lose a wakeup. */
  predicate SafeUse(u: Use) {
    u.single || (u.binary && !u.timed)
  }

  lemma {:induction false} RunKeepsWakeup(run: seq<State>, value: nat, u: Use, i: nat)
    requires IsRun(run, value) && RunRespects(run, u) && SafeUse(u) && i < |run|
    ensures NoLostWakeup(run[i])
  {
    if i == 0 {
      assert Sleepers(run[0].pc) == {};
    } else {
      RunKeepsWakeup(run, value, u, i - 1);
      RunCounted(run, value, i - 1);
      var s := run[i - 1];
      assert Respects(s, u) && Respects(run[i], u);
      assert Next(s, run[i - 1 + 1]);
      var step :| Enabled(s, step) && run[i] == Apply(s, step);
      if u.single { StepSingle(s, step, value); } else { StepBinary(s, step, value); }
    }
  }

  // ------------------------------------------------------------ failing schedules

  ghost predicate Loses(run: seq<State>, u: Use) {
    && (exists value :: IsRun(run, value))
    && RunRespects(run, u)
    && exists i :: 0 <= i < |run| && !NoLostWakeup(run[i])
  }

  lemma Extend(run: seq<State>, value: nat, t: State)
    requires IsRun(run, value) && Next(run[|run| - 1], t)
    ensures IsRun(run + [t], value)
  {
    var longer := run + [t];
    forall i | 0 <= i < |longer| - 1 ensures Next(longer[i], longer[i + 1]) {
      if i < |run| - 1 { assert Next(run[i], run[i + 1]); }
    }
  }

  /** Two threads go to sleep, and one of them is signalled. */
  lemma OneOfTwoSignalled(timed: bool) returns (run: seq<State>)
    ensures IsRun(run, 0) && |run| == 4
    ensures run[0].sem == Sem(0, 0) && run[1].sem == Sem(0, 1) && run[2].sem == Sem(0, 2)
    ensures !timed ==> forall i :: 0 <= i < 4 ==> NoneTimed(run[i].pc)
    ensures run[3] == State(Sem(1, 2), map[0 := Woken(timed), 1 := Sleeping(false)], 1, 0)
  {
    var s0 := State(Sem(0, 0), map[0 := Out, 1 := Out], 0, 0);
    var s1 := State(Sem(0, 1), map[0 := Sleeping(timed), 1 := Out], 0, 0);
    var s2 := State(Sem(0, 2), map[0 := Sleeping(timed), 1 := Sleeping(false)], 0, 0);
    var s3 := State(Sem(1, 2), map[0 := Woken(timed), 1 := Sleeping(false)], 1, 0);
    assert Next(s0, s1) by { assert s1 == Apply(s0, Down(0, timed)); }
    assert Next(s1, s2) by { assert s2 == Apply(s1, Down(1, false)); }
    assert Next(s2, s3) by { assert 0 in Sleepers(s2.pc); assert s3 == Apply(s2, Up(0)); }
    run := [s0, s1, s2, s3];
  }

  /** Two sleepers and two ups in a row: only the first up signals, so one sleeper
      is left behind a positive value once the woken one has acquired. */
  lemma CountingLoses(u: Use) returns (run: seq<State>)
    requires !u.single && !u.binary
    ensures Loses(run, u)
  {
    var r := OneOfTwoSignalled(false);
    var s4 := State(Sem(2, 2), map[0 := Woken(false), 1 := Sleeping(false)], 2, 0);
    var s5 := State(Sem(1, 1), map[0 := Out, 1 := Sleeping(false)], 2, 1);
    assert Next(r[3], s4) by { assert s4 == Apply(r[3], Up(0)); }
    assert Next(s4, s5) by { assert s5 == Apply(s4, Resume(0)); }
    Extend(r, 0, s4);
    Extend(r + [s4], 0, s5);
    run := r + [s4] + [s5];
    assert run[5] == s5 && !NoLostWakeup(s5) by { assert 1 in Sleepers(s5.pc) && Wakers(s5.pc) == {}; }
  }

  /** A timed waiter that reports its deadline after being signalled leaves another
      sleeper behind a value of one. */
  lemma TimeoutLoses(u: Use) returns (run: seq<State>)
    requires !u.single && u.timed
    ensures Loses(run, u)
  {
    var r := OneOfTwoSignalled(true);
    var s4 := State(Sem(1, 2), map[0 := Expired, 1 := Sleeping(false)], 1, 0);
    assert Next(r[3], s4) by { assert s4 == Apply(r[3], Deadline(0)); }
    Extend(r, 0, s4);
    run := r + [s4];
    assert run[4] == s4 && !NoLostWakeup(s4) by { assert 1 in Sleepers(s4.pc) && Wakers(s4.pc) == {}; }
  }

  /** Exactly the uses with one waiter at a time, or binary ones without timed
      waits, never lose a wakeup in any run. */
  lemma NoLostWakeupExactly(u: Use)
    ensures (forall run :: !Loses(run, u)) <==> SafeUse(u)
  {
    if SafeUse(u) {
      forall run ensures !Loses(run, u) {
        if Loses(run, u) {
          var value :| IsRun(run, value);
          var i :| 0 <= i < |run| && !NoLostWakeup(run[i]);
          RunKeepsWakeup(run, value, u, i);
        }
      }
    } else if !u.binary {
      var run := CountingLoses(u);
    } else {
      var run := TimeoutLoses(u);
    }
  }

  // ------------------------------------------------------------ the fields in place

  class FioSem {
    var value: nat
    var waiters: nat

    ghost function View(): Sem
      reads this
    {
      Sem(value, waiters)
    }

    constructor (v: nat)
      ensures View() == Sem(v, 0)
    {
      value, waiters := v, 0;
    }

    method UpSection() returns (wake: bool)
      modifies this
      ensures (View(), wake) == UpSem(old(View()))
      ensures value == old(value) + 1 && waiters == old(waiters)
      ensures wake <==> old(value) == 0 && old(waiters) > 0
    {
      wake := false;
      if value == 0 && waiters > 0 { wake := true; }
      value := value + 1;
    }

    method DownTrylock() returns (failed: bool)
      modifies this
      ensures (View(), failed) == TrySem(old(View()))
      ensures failed <==> old(value) == 0
      ensures value == (if failed then old(value) else old(value) - 1) && waiters == old(waiters)
    {
      failed := true;
      if value > 0 {
        value := value - 1;
        failed := false;
      }
    }

    /** From the head of the loop of `fio_sem_down` to the wait or the return. */
    method DownSection() returns (acquired: bool)
      modifies this
      ensures (View(), acquired) == DownSem(old(View()))
      ensures acquired <==> old(value) > 0
      ensures value == (if acquired then old(value) - 1 else 0)
      ensures waiters == (if acquired then old(waiters) else old(waiters) + 1)
    {
      if value == 0 {
        waiters := waiters + 1;
        return false;
      }
      value := value - 1;
      return true;
    }

    /** The same for `fio_sem_down_timeout`, which registers before the test and
        deregisters after the loop; `expired` is a deadline confirmed by the clock. */
    method TimeoutSection(entering: bool, expired: bool) returns (done: bool, acquired: bool)
      requires !entering ==> waiters > 0
      requires entering ==> !expired
      modifies this
      ensures expired ==> done && !acquired && View() == Leave(old(View()))
      ensures !expired ==> done == acquired
      ensures !expired ==> (View(), acquired) == DownSem(if entering then old(View()) else Leave(old(View())))
    {
      if entering { waiters := waiters + 1; }
      if value == 0 && !expired { return false, false; }
      waiters := waiters - 1;
      if !expired { value := value - 1; }
      return true, !expired;
    }
  }
}
