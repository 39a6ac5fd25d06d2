/**
 The filename lock pool of filelock.c.

 A fixed array of lock objects is split between an active list, searched by
 hash, and a free list.  `Pool` is the value of that structure and the functions
 on it are the critical sections executed under the global lock; `FileLockData`
 is the structure itself, updated in place, each method proved to compute one
 of those functions.  `State` adds any number of agents, one per outstanding
 lock request, each with a program counter; its steps interleave freely.
 */
module FileLocks {

  const MAX_FILELOCKS: nat := 1024

  import opened Options

  /** One lock object: filename hash, reference count, value of its semaphore. */
  datatype FileLock = FileLock(hash: nat, references: nat, sem: nat)

  /** Lists hold indices into `ffs`, front first. */
  datatype Pool = Pool(ffs: seq<FileLock>, list: seq<nat>, free: seq<nat>)

  /** How a locking section ends: an object, no object for a trylock, or the
      global lock dropped while waiting for a free object. */
  datatype Outcome = Got(f: nat) | NoObject | Dropped

  ghost function Ids(n: nat): (r: set<nat>)
    ensures forall i: nat :: i in r <==> i < n
  {
    if n == 0 then {} else Ids(n - 1) + {n - 1}
  }

  /** Every object is on exactly one of the two lists, exactly once. */
  ghost predicate Conserved(p: Pool) {
    multiset(p.list) + multiset(p.free) == multiset(Ids(|p.ffs|))
  }

  predicate InRange(p: Pool) {
    && (forall i :: 0 <= i < |p.list| ==> p.list[i] < |p.ffs|)
    && (forall i :: 0 <= i < |p.free| ==> p.free[i] < |p.ffs|)
  }

  ghost predicate HashesUnique(p: Pool)
    requires InRange(p)
  {
    forall f, g :: f in p.list && g in p.list && f != g ==> p.ffs[f].hash != p.ffs[g].hash
  }

  lemma ConservedFacts(p: Pool)
    requires Conserved(p)
    ensures InRange(p)
    ensures forall f :: f in p.list ==> f !in p.free
    ensures forall f: nat :: f < |p.ffs| ==> f in p.list || f in p.free
  {
    forall f: nat
      ensures f in p.list ==> f < |p.ffs| && f !in p.free
      ensures f in p.free ==> f < |p.ffs|
      ensures f < |p.ffs| ==> f in p.list || f in p.free
    {
      assert multiset(p.list)[f] + multiset(p.free)[f] == multiset(Ids(|p.ffs|))[f] <= 1;
      assert f in p.list <==> multiset(p.list)[f] > 0;
      assert f in p.free <==> multiset(p.free)[f] > 0;
    }
    forall i | 0 <= i < |p.list| ensures p.list[i] < |p.ffs| { assert p.list[i] in p.list; }
    forall i | 0 <= i < |p.free| ensures p.free[i] < |p.ffs| { assert p.free[i] in p.free; }
  }

  // ---------------------------------------------------------------- sections

  /** First active entry with the given hash. */
  function FindFrom(p: Pool, h: nat, i: nat): (r: Option<nat>)
    requires InRange(p) && i <= |p.list|
    ensures r.Some? ==> r.value in p.list && r.value < |p.ffs| && p.ffs[r.value].hash == h
    ensures r.None? ==> forall j :: i <= j < |p.list| ==> p.ffs[p.list[j]].hash != h
    decreases |p.list| - i
  {
    if i == |p.list| then None
    else if p.ffs[p.list[i]].hash == h then Some(p.list[i])
    else FindFrom(p, h, i + 1)
  }

  function Find(p: Pool, h: nat): Option<nat>
    requires InRange(p)
  {
    FindFrom(p, h, 0)
  }

  function AddRef(p: Pool, f: nat): Pool
    requires f < |p.ffs|
  {
    p.(ffs := p.ffs[f := p.ffs[f].(references := p.ffs[f].references + 1)])
  }

  /** Move the first free object to the front of the active list, under hash h. */
  function Activate(p: Pool, h: nat): Pool
    requires InRange(p) && p.free != []
  {
    var f := p.free[0];
    Pool(p.ffs[f := FileLock(h, 0, p.ffs[f].sem)], [f] + p.list, p.free[1..])
  }

  /** The section that starts a lock call (filelock.c:228-232 up to a possible drop). */
  function Enter(p: Pool, h: nat, trylock: bool): (Pool, Outcome)
    requires InRange(p)
  {
    match Find(p, h)
    case Some(f) => (AddRef(p, f), Got(f))
    case None =>
      if p.free == [] then (p, if trylock then NoObject else Dropped)
      else (AddRef(Activate(p, h), p.free[0]), Got(p.free[0]))
  }

  /** The section entered when the global lock is retaken after a drop: a free
      object is required even if the hash has meanwhile been added. */
  function Reenter(p: Pool, h: nat): (Pool, Outcome)
    requires InRange(p)
  {
    if p.free == [] then (p, Dropped) else Enter(p, h, false)
  }

  /** After a failed trylock: keep the reference only if it is the sole one. */
  function Recheck(p: Pool, f: nat): (Pool, bool)
    requires f < |p.ffs|
  {
    if p.ffs[f].references != 1
    then (p.(ffs := p.ffs[f := p.ffs[f].(references := Dec(p.ffs[f].references))]), false)
    else (p, true)
  }

  /** Unsigned decrement; the invariant shows zero is never decremented. */
  function Dec(n: nat): nat {
    if n == 0 then 0xffff_ffff else n - 1
  }

  function Without(s: seq<nat>, f: nat): (r: seq<nat>)
    ensures multiset(r) == multiset(s) - multiset{f}
    ensures forall x :: x in r ==> x in s
  {
    if s == [] then []
    else
      assert s == [s[0]] + s[1..];
      if s[0] == f then s[1..] else [s[0]] + Without(s[1..], f)
  }

  /** The unlock section; an unknown hash changes nothing. */
  function Release(p: Pool, h: nat): Pool
    requires InRange(p)
  {
    match Find(p, h)
    case None => p
    case Some(f) =>
      var refs := Dec(p.ffs[f].references);
      var ffs := p.ffs[f := p.ffs[f].(references := refs, sem := p.ffs[f].sem + 1)];
      if refs == 0 then Pool(ffs, Without(p.list, f), [f] + p.free)
      else Pool(ffs, p.list, p.free)
  }

  function InitialPool(n: nat): Pool {
    Pool(seq(n, i => FileLock(0, 0, 1)), [], seq(n, i => i))
  }

  // ----------------------------------------------------------- agents and runs

  /** Where an agent is in `__fio_lock_file` or in the code it protects:
      - Asleep: global lock dropped, waiting for a free object;
      - Waiting: reference taken, blocked in `fio_sem_down(&ff->lock)`;
      - Trying: reference taken, about to trylock; Refused: trylock failed;
      - Holding: lock acquired. */
  datatype Pc =
    | Idle
    | Asleep(h: nat)
    | Waiting(f: nat, h: nat)
    | Trying(f: nat, h: nat)
    | Refused(f: nat, h: nat)
    | Holding(f: nat, h: nat)

  predicate Refers(pc: Pc, f: nat) {
    !pc.Idle? && !pc.Asleep? && pc.f == f
  }

  predicate Holds(pc: Pc, f: nat) {
    pc.Holding? && pc.f == f
  }

  datatype State = State(pool: Pool, pc: map<nat, Pc>)

  datatype Step =
    | Lock(a: nat, h: nat, trylock: bool)
    | Wake(a: nat)
    | Down(a: nat)
    | Try(a: nat)
    | Settle(a: nat)
    | Unlock(a: nat)
    | UnlockUnknown(a: nat, h: nat)

  /** The source demands only that a caller unlocks what it holds; unlocking a
      name nobody has active is handled (an error message) and is a step too. */
  predicate Enabled(s: State, step: Step) {
    && InRange(s.pool)
    && step.a in s.pc
    && var pc := s.pc[step.a];
       match step
       case Lock(_, _, _) => pc.Idle?
       case Wake(_) => pc.Asleep?
       case Down(_) => pc.Waiting? && pc.f < |s.pool.ffs| && s.pool.ffs[pc.f].sem > 0
       case Try(_) => pc.Trying? && pc.f < |s.pool.ffs|
       case Settle(_) => pc.Refused? && pc.f < |s.pool.ffs|
       case Unlock(_) => pc.Holding?
       case UnlockUnknown(_, h) => Find(s.pool, h).None?
  }

  function AfterSection(r: (Pool, Outcome), pc: map<nat, Pc>, a: nat, h: nat, trylock: bool): State {
    var next := match r.1
      case Got(f) => if trylock then Trying(f, h) else Waiting(f, h)
      case NoObject => Idle
      case Dropped => Asleep(h);
    State(r.0, pc[a := next])
  }

  function TakeSem(p: Pool, f: nat): Pool
    requires f < |p.ffs| && p.ffs[f].sem > 0
  {
    p.(ffs := p.ffs[f := p.ffs[f].(sem := p.ffs[f].sem - 1)])
  }

  function Apply(s: State, step: Step): State
    requires Enabled(s, step)
  {
    var a := step.a;
    var pc := s.pc[a];
    match step
    case Lock(_, h, trylock) => AfterSection(Enter(s.pool, h, trylock), s.pc, a, h, trylock)
    case Wake(_) => AfterSection(Reenter(s.pool, pc.h), s.pc, a, pc.h, false)
    case Down(_) => State(TakeSem(s.pool, pc.f), s.pc[a := Holding(pc.f, pc.h)])
    case Try(_) =>
      if s.pool.ffs[pc.f].sem > 0
      then State(TakeSem(s.pool, pc.f), s.pc[a := Holding(pc.f, pc.h)])
      else State(s.pool, s.pc[a := Refused(pc.f, pc.h)])
    case Settle(_) =>
      var (pool, sole) := Recheck(s.pool, pc.f);
      State(pool, s.pc[a := if sole then Waiting(pc.f, pc.h) else Idle])
    case Unlock(_) => State(Release(s.pool, pc.h), s.pc[a := Idle])
    case UnlockUnknown(_, h) => State(Release(s.pool, h), s.pc)
  }

  ghost predicate Next(s: State, t: State) {
    exists step :: Enabled(s, step) && t == Apply(s, step)
  }

  ghost predicate Initial(s: State) {
    && s.pool == InitialPool(|s.pool.ffs|)
    && forall a :: a in s.pc ==> s.pc[a].Idle?
  }

  ghost predicate IsRun(run: seq<State>) {
    && run != []
    && Initial(run[0])
    && forall i :: 0 <= i < |run| - 1 ==> Next(run[i], run[i + 1])
  }

  ghost function Referrers(pc: map<nat, Pc>, f: nat): set<nat> {
    set a | a in pc && Refers(pc[a], f)
  }

  ghost function Holders(pc: map<nat, Pc>, f: nat): set<nat> {
    set a | a in pc && Holds(pc[a], f)
  }

  // --------------------------------------------------------------- invariant

  /** The references of an object are its referring agents, its semaphore is one
      minus its holders, a free object has no referrers and an active one has some. */
  ghost predicate ObjectOk(s: State, f: nat)
    requires f < |s.pool.ffs|
  {
    var o := s.pool.ffs[f];
    && o.sem + |Holders(s.pc, f)| == 1
    && (f in s.pool.list ==> o.references == |Referrers(s.pc, f)| > 0)
    && (f in s.pool.free ==> Referrers(s.pc, f) == {})
  }

  ghost predicate AgentOk(s: State, pc: Pc) {
    pc.Idle? || pc.Asleep? || (pc.f in s.pool.list && pc.f < |s.pool.ffs| && s.pool.ffs[pc.f].hash == pc.h)
  }

  ghost predicate Inv(s: State) {
    && InRange(s.pool)
    && Conserved(s.pool)
    && HashesUnique(s.pool)
    && (forall f: nat :: f < |s.pool.ffs| ==> ObjectOk(s, f))
    && (forall a :: a in s.pc ==> AgentOk(s, s.pc[a]))
  }

  lemma RetargetReferrers(pc: map<nat, Pc>, a: nat, next: Pc, f: nat)
    requires a in pc
    ensures Referrers(pc[a := next], f) == if Refers(next, f) then Referrers(pc, f) + {a} else Referrers(pc, f) - {a}
    ensures Holders(pc[a := next], f) == if Holds(next, f) then Holders(pc, f) + {a} else Holders(pc, f) - {a}
    ensures a in Referrers(pc, f) <==> Refers(pc[a], f)
    ensures a in Holders(pc, f) <==> Holds(pc[a], f)
  {
  }

  lemma InitialInv(s: State)
    requires Initial(s)
    ensures Inv(s)
  {
    var n := |s.pool.ffs|;
    InitialFree(n);
    forall f: nat | f < n ensures ObjectOk(s, f) {
      assert Referrers(s.pc, f) == {} && Holders(s.pc, f) == {};
    }
  }

  lemma {:induction false} InitialFree(n: nat)
    ensures multiset(seq(n, i => i)) == multiset(Ids(n))
  {
    var all := seq(n, i => i);
    if n > 0 {
      InitialFree(n - 1);
      assert all == seq(n - 1, i => i) + [n - 1];
    }
  }

  // ------------------------------------------------ every section keeps the pool

  lemma FindActive(p: Pool, f: nat)
    requires InRange(p) && HashesUnique(p)
    requires f in p.list
    ensures f < |p.ffs| && Find(p, p.ffs[f].hash) == Some(f)
  {
  }

  lemma ActivateKeeps(p: Pool, h: nat)
    requires InRange(p) && Conserved(p) && HashesUnique(p)
    requires Find(p, h).None? && p.free != []
    ensures var q := Activate(p, h); InRange(q) && Conserved(q) && HashesUnique(q)
  {
    var q := Activate(p, h);
    var f := p.free[0];
    assert p.free == [f] + p.free[1..];
    assert multiset(q.list) + multiset(q.free) == multiset(p.list) + multiset(p.free);
    ConservedFacts(p);
    assert forall g :: g in q.list <==> g == f || g in p.list;
  }

  lemma ActivateShape(p: Pool, h: nat)
    requires InRange(p) && Conserved(p) && p.free != []
    ensures var q, f := Activate(p, h), p.free[0];
      && f in q.list && f !in q.free && f !in p.list
      && forall g :: g != f ==> (g in q.list <==> g in p.list) && (g in q.free <==> g in p.free)
  {
    var f, rest := p.free[0], p.free[1..];
    assert p.free == [f] + rest;
    assert multiset(p.list)[f] + multiset(p.free)[f] == multiset(Ids(|p.ffs|))[f] <= 1;
    assert multiset(p.free)[f] == 1 + multiset(rest)[f];
    assert f in rest <==> multiset(rest)[f] > 0;
    assert f in p.list <==> multiset(p.list)[f] > 0;
  }

  lemma ListedOnce(p: Pool, f: nat)
    requires Conserved(p) && f in p.list
    ensures multiset(p.list)[f] == 1 && f !in p.free
  {
    assert multiset(p.list)[f] + multiset(p.free)[f] == multiset(Ids(|p.ffs|))[f] <= 1;
    assert f in multiset(p.list);
    assert f in p.free <==> multiset(p.free)[f] > 0;
  }

  lemma WithoutMembers(list: seq<nat>, f: nat)
    requires multiset(list)[f] == 1
    ensures forall g :: g in Without(list, f) <==> g in list && g != f
  {
    forall g ensures g in Without(list, f) <==> g in list && g != f {
      assert g in Without(list, f) <==> multiset(Without(list, f))[g] > 0;
      assert g in list <==> multiset(list)[g] > 0;
    }
  }

  lemma MovedOver(list: seq<nat>, free: seq<nat>, f: nat)
    requires f in list
    ensures multiset(Without(list, f)) + multiset([f] + free) == multiset(list) + multiset(free)
  {
    assert multiset(list)[f] > 0;
  }

  lemma ReleaseKeeps(p: Pool, h: nat)
    requires InRange(p) && Conserved(p) && HashesUnique(p)
    ensures var q := Release(p, h); InRange(q) && Conserved(q) && HashesUnique(q)
  {
    var q := Release(p, h);
    if Find(p, h).Some? {
      var f := Find(p, h).value;
      assert Conserved(q) by { MovedOver(p.list, p.free, f); }
      assert InRange(q) by { ConservedFacts(q); }
      assert forall g :: g in q.list ==> g in p.list && g < |q.ffs| && q.ffs[g].hash == p.ffs[g].hash;
    }
  }

  // ------------------------------------------------- every step keeps the invariant

  /** Objects whose record and list membership did not change, and which agent a
      refers to neither before nor after, stay well accounted. */
  lemma Frame(s: State, t: State, a: nat, g: nat)
    requires a in s.pc && g < |s.pool.ffs| == |t.pool.ffs| && ObjectOk(s, g)
    requires a in t.pc && t.pc == s.pc[a := t.pc[a]]
    requires Refers(s.pc[a], g) == Refers(t.pc[a], g) && Holds(s.pc[a], g) == Holds(t.pc[a], g)
    requires t.pool.ffs[g] == s.pool.ffs[g]
    requires (g in t.pool.list <==> g in s.pool.list) && (g in t.pool.free <==> g in s.pool.free)
    ensures ObjectOk(t, g)
  {
    RetargetReferrers(s.pc, a, t.pc[a], g);
    if Refers(s.pc[a], g) { assert Referrers(t.pc, g) == Referrers(s.pc, g); }
    else { assert Referrers(t.pc, g) == Referrers(s.pc, g); }
    assert Holders(t.pc, g) == Holders(s.pc, g);
  }

  /** Updating counts in place moves nothing and renames nothing. */
  lemma SameShape(s: State, t: State, a: nat)
    requires InRange(s.pool) && Conserved(s.pool) && HashesUnique(s.pool)
    requires forall b :: b in s.pc ==> AgentOk(s, s.pc[b])
    requires t.pool.list == s.pool.list && t.pool.free == s.pool.free && |t.pool.ffs| == |s.pool.ffs|
    requires forall f: nat :: f < |s.pool.ffs| ==> t.pool.ffs[f].hash == s.pool.ffs[f].hash
    requires a in s.pc && a in t.pc && t.pc == s.pc[a := t.pc[a]] && AgentOk(t, t.pc[a])
    ensures InRange(t.pool) && Conserved(t.pool) && HashesUnique(t.pool)
    ensures forall b :: b in t.pc ==> AgentOk(t, t.pc[b])
  {
    forall b | b in t.pc ensures AgentOk(t, t.pc[b]) { if b != a { assert AgentOk(s, s.pc[b]); } }
  }

  /** Taking a reference on an active object. */
  lemma JoinInv(s: State, a: nat, f: nat, next: Pc)
    requires Inv(s) && a in s.pc && (s.pc[a].Idle? || s.pc[a].Asleep?)
    requires f in s.pool.list && f < |s.pool.ffs|
    requires next == Waiting(f, s.pool.ffs[f].hash) || next == Trying(f, s.pool.ffs[f].hash)
    ensures Inv(State(AddRef(s.pool, f), s.pc[a := next]))
  {
    var t := State(AddRef(s.pool, f), s.pc[a := next]);
    SameShape(s, t, a);
    forall g: nat | g < |t.pool.ffs| ensures ObjectOk(t, g) {
      if g == f {
        RetargetReferrers(s.pc, a, next, f);
        assert ObjectOk(s, f);
      } else {
        Frame(s, t, a, g);
      }
    }
  }

  lemma ActivatedObject(s: State, t: State, a: nat)
    requires a in s.pc && (s.pc[a].Idle? || s.pc[a].Asleep?) && a in t.pc
    requires (t.pc[a].Waiting? || t.pc[a].Trying?) && t.pc == s.pc[a := t.pc[a]]
    requires t.pc[a].f < |s.pool.ffs| == |t.pool.ffs| && ObjectOk(s, t.pc[a].f)
    requires t.pc[a].f in s.pool.free && t.pc[a].f !in t.pool.free
    requires t.pool.ffs[t.pc[a].f].references == 1
    requires t.pool.ffs[t.pc[a].f].sem == s.pool.ffs[t.pc[a].f].sem
    ensures ObjectOk(t, t.pc[a].f)
  {
    var f := t.pc[a].f;
    RetargetReferrers(s.pc, a, t.pc[a], f);
    assert Referrers(t.pc, f) == {a};
    assert Holders(t.pc, f) == Holders(s.pc, f);
  }

  /** Bringing in a fresh object and taking its first reference. */
  lemma ActivateInv(s: State, a: nat, h: nat, next: Pc)
    requires Inv(s) && a in s.pc && (s.pc[a].Idle? || s.pc[a].Asleep?)
    requires Find(s.pool, h).None? && s.pool.free != []
    requires next == Waiting(s.pool.free[0], h) || next == Trying(s.pool.free[0], h)
    ensures Inv(State(AddRef(Activate(s.pool, h), s.pool.free[0]), s.pc[a := next]))
  {
    var f := s.pool.free[0];
    var q := Activate(s.pool, h);
    var t := State(AddRef(q, f), s.pc[a := next]);
    ActivateKeeps(s.pool, h);
    ActivateShape(s.pool, h);
    forall g: nat | g < |t.pool.ffs| ensures ObjectOk(t, g) {
      assert ObjectOk(s, g);
      if g == f { ActivatedObject(s, t, a); } else { Frame(s, t, a, g); }
    }
    forall b | b in t.pc ensures AgentOk(t, t.pc[b]) { if b != a { assert AgentOk(s, s.pc[b]); } }
  }

  lemma EnterInv(s: State, a: nat, h: nat, trylock: bool)
    requires Inv(s) && a in s.pc && (s.pc[a].Idle? || s.pc[a].Asleep?)
    ensures Inv(AfterSection(Enter(s.pool, h, trylock), s.pc, a, h, trylock))
  {
    var t := AfterSection(Enter(s.pool, h, trylock), s.pc, a, h, trylock);
    match Find(s.pool, h)
    case Some(f) => JoinInv(s, a, f, t.pc[a]);
    case None =>
      if s.pool.free == [] {
        ParkInv(s, a, t.pc[a]);
      } else {
        ActivateInv(s, a, h, t.pc[a]);
      }
  }

  /** Moving between two program points that hold no reference. */
  lemma ParkInv(s: State, a: nat, next: Pc)
    requires Inv(s) && a in s.pc && (s.pc[a].Idle? || s.pc[a].Asleep?)
    requires next.Idle? || next.Asleep?
    ensures Inv(s.(pc := s.pc[a := next]))
  {
    var t := s.(pc := s.pc[a := next]);
    forall g: nat | g < |t.pool.ffs| ensures ObjectOk(t, g) { Frame(s, t, a, g); }
    forall b | b in t.pc ensures AgentOk(t, t.pc[b]) { if b != a { assert AgentOk(s, s.pc[b]); } }
  }

  lemma TakenObject(s: State, t: State, a: nat)
    requires a in s.pc && (s.pc[a].Waiting? || s.pc[a].Trying?) && s.pc[a].f < |s.pool.ffs|
    requires ObjectOk(s, s.pc[a].f) && s.pool.ffs[s.pc[a].f].sem > 0
    requires t == State(TakeSem(s.pool, s.pc[a].f), s.pc[a := Holding(s.pc[a].f, s.pc[a].h)])
    ensures ObjectOk(t, s.pc[a].f)
  {
    var f := s.pc[a].f;
    RetargetReferrers(s.pc, a, t.pc[a], f);
    assert Referrers(t.pc, f) == Referrers(s.pc, f);
  }

  /** Acquiring the semaphore turns a referrer into a holder. */
  lemma TakeInv(s: State, a: nat)
    requires Inv(s) && a in s.pc && (s.pc[a].Waiting? || s.pc[a].Trying?)
    requires s.pc[a].f < |s.pool.ffs| && s.pool.ffs[s.pc[a].f].sem > 0
    ensures Inv(State(TakeSem(s.pool, s.pc[a].f), s.pc[a := Holding(s.pc[a].f, s.pc[a].h)]))
  {
    var f, next := s.pc[a].f, Holding(s.pc[a].f, s.pc[a].h);
    var t := State(TakeSem(s.pool, f), s.pc[a := next]);
    assert AgentOk(s, s.pc[a]);
    SameShape(s, t, a);
    forall g: nat | g < |t.pool.ffs| ensures ObjectOk(t, g) {
      assert ObjectOk(s, g);
      if g == f { TakenObject(s, t, a); } else { Frame(s, t, a, g); }
    }
  }

  lemma RefuseInv(s: State, a: nat, next: Pc)
    requires Inv(s) && a in s.pc
    requires (s.pc[a].Trying? && next == Refused(s.pc[a].f, s.pc[a].h))
          || (s.pc[a].Refused? && next == Waiting(s.pc[a].f, s.pc[a].h))
    ensures Inv(s.(pc := s.pc[a := next]))
  {
    var t := s.(pc := s.pc[a := next]);
    forall g: nat | g < |t.pool.ffs| ensures ObjectOk(t, g) { Frame(s, t, a, g); }
    forall b | b in t.pc ensures AgentOk(t, t.pc[b]) { assert AgentOk(s, s.pc[b]); }
  }

  /** A refused trylock that is not the sole referrer drops its reference; others remain. */
  lemma WithdrawInv(s: State, a: nat)
    requires Inv(s) && a in s.pc && s.pc[a].Refused? && s.pc[a].f < |s.pool.ffs|
    requires s.pool.ffs[s.pc[a].f].references != 1
    ensures Inv(State(Recheck(s.pool, s.pc[a].f).0, s.pc[a := Idle]))
  {
    var f := s.pc[a].f;
    var t := State(Recheck(s.pool, f).0, s.pc[a := Idle]);
    SameShape(s, t, a);
    forall g: nat | g < |t.pool.ffs| ensures ObjectOk(t, g) {
      if g == f {
        RetargetReferrers(s.pc, a, Idle, f);
        assert ObjectOk(s, f) && AgentOk(s, s.pc[a]);
        assert a in Referrers(s.pc, f);
        assert Holders(t.pc, f) == Holders(s.pc, f);
      } else {
        Frame(s, t, a, g);
      }
    }
  }

  /** What an unlock does to the pool: one object changes, and leaves the active list
      with its last reference. */
  lemma ReleaseShape(p: Pool, f: nat)
    requires InRange(p) && Conserved(p) && HashesUnique(p) && f in p.list && f < |p.ffs| && p.ffs[f].references > 0
    ensures var q, o := Release(p, p.ffs[f].hash), p.ffs[f];
      && q.ffs == p.ffs[f := o.(references := o.references - 1, sem := o.sem + 1)]
      && (forall g :: g != f ==> (g in q.list <==> g in p.list) && (g in q.free <==> g in p.free))
      && (f in q.list <==> o.references > 1) && (f in q.free <==> o.references == 1)
  {
    FindActive(p, f);
    ListedOnce(p, f);
    WithoutMembers(p.list, f);
  }

  /** The released object: one holder and one referrer fewer. */
  lemma ReleasedObject(s: State, t: State, a: nat)
    requires a in s.pc && s.pc[a].Holding? && s.pc[a].f < |s.pool.ffs| == |t.pool.ffs| && ObjectOk(s, s.pc[a].f)
    requires t.pc == s.pc[a := Idle] && s.pool.ffs[s.pc[a].f].references == |Referrers(s.pc, s.pc[a].f)|
    requires t.pool.ffs[s.pc[a].f].references == s.pool.ffs[s.pc[a].f].references - 1
    requires t.pool.ffs[s.pc[a].f].sem == s.pool.ffs[s.pc[a].f].sem + 1
    requires s.pc[a].f in t.pool.list <==> s.pool.ffs[s.pc[a].f].references > 1
    requires s.pc[a].f in t.pool.free <==> s.pool.ffs[s.pc[a].f].references == 1
    ensures ObjectOk(t, s.pc[a].f)
  {
    RetargetReferrers(s.pc, a, Idle, s.pc[a].f);
  }

  /** The other agents still refer to active objects. */
  lemma ReleasedAgent(s: State, t: State, a: nat, b: nat)
    requires a in s.pc && s.pc[a].Holding? && b in s.pc && b != a && t.pc == s.pc[a := Idle]
    requires AgentOk(s, s.pc[b]) && |t.pool.ffs| == |s.pool.ffs| && s.pc[a].f < |t.pool.ffs| && ObjectOk(t, s.pc[a].f)
    requires forall g: nat :: g < |s.pool.ffs| ==> t.pool.ffs[g].hash == s.pool.ffs[g].hash
    requires forall g :: g != s.pc[a].f && g in s.pool.list ==> g in t.pool.list
    requires s.pc[a].f in t.pool.list || s.pc[a].f in t.pool.free
    ensures AgentOk(t, t.pc[b])
  {
    if Refers(t.pc[b], s.pc[a].f) { assert b in Referrers(t.pc, s.pc[a].f); }
  }

  /** Unlocking by the holder, including the return of an unreferenced object. */
  lemma UnlockInv(s: State, a: nat)
    requires Inv(s) && a in s.pc && s.pc[a].Holding?
    ensures Inv(State(Release(s.pool, s.pc[a].h), s.pc[a := Idle]))
  {
    var f := s.pc[a].f;
    var t := State(Release(s.pool, s.pc[a].h), s.pc[a := Idle]);
    assert AgentOk(s, s.pc[a]) && ObjectOk(s, f);
    ReleaseShape(s.pool, f);
    ReleaseKeeps(s.pool, s.pc[a].h);
    ReleasedObject(s, t, a);
    forall g: nat | g < |t.pool.ffs| ensures ObjectOk(t, g) {
      assert ObjectOk(s, g);
      if g != f { Frame(s, t, a, g); }
    }
    forall b | b in t.pc ensures AgentOk(t, t.pc[b]) {
      if b != a { ReleasedAgent(s, t, a, b); }
    }
  }

  lemma StepInv(s: State, step: Step)
    requires Inv(s) && Enabled(s, step)
    ensures Inv(Apply(s, step))
  {
    var a := step.a;
    match step
    case Lock(_, h, trylock) => EnterInv(s, a, h, trylock);
    case Wake(_) => if s.pool.free != [] { EnterInv(s, a, s.pc[a].h, false); } else { ParkInv(s, a, s.pc[a]); }
    case Down(_) => TakeInv(s, a);
    case Try(_) =>
      if s.pool.ffs[s.pc[a].f].sem > 0 { TakeInv(s, a); } else { RefuseInv(s, a, Refused(s.pc[a].f, s.pc[a].h)); }
    case Settle(_) =>
      if s.pool.ffs[s.pc[a].f].references == 1 {
        RefuseInv(s, a, Waiting(s.pc[a].f, s.pc[a].h));
      } else {
        WithdrawInv(s, a);
      }
    case Unlock(_) => UnlockInv(s, a);
    case UnlockUnknown(_, h) =>
  }

  lemma {:induction false} RunInv(run: seq<State>, i: nat)
    requires IsRun(run) && i < |run|
    ensures Inv(run[i])
  {
    if i == 0 {
      InitialInv(run[0]);
    } else {
      RunInv(run, i - 1);
      assert Next(run[i - 1], run[i - 1 + 1]);
      var step :| Enabled(run[i - 1], step) && run[i] == Apply(run[i - 1], step);
      StepInv(run[i - 1], step);
    }
  }

  // ----------------------------------------------------------------- theorems

  /** At most one agent holds the lock of a hash, in every state of every run. */
  lemma MutualExclusion(run: seq<State>, i: nat, a: nat, b: nat)
    requires IsRun(run) && i < |run|
    requires a in run[i].pc && run[i].pc[a].Holding?
    requires b in run[i].pc && run[i].pc[b].Holding?
    requires run[i].pc[a].h == run[i].pc[b].h
    ensures a == b
  {
    RunInv(run, i);
    var s := run[i];
    assert AgentOk(s, s.pc[a]) && AgentOk(s, s.pc[b]);
    var f := s.pc[a].f;
    assert ObjectOk(s, f);
    assert a in Holders(s.pc, f) && b in Holders(s.pc, f);
    if a != b { assert {a, b} <= Holders(s.pc, f); SubsetSize({a, b}, Holders(s.pc, f)); }
  }

  lemma {:induction false} SubsetSize(x: set<nat>, y: set<nat>)
    requires x <= y
    ensures |x| <= |y|
  {
    assert y == x + (y - x);
  }

  // What each step does for its caller, in terms of lists and other agents.

  ghost predicate Active(p: Pool, h: nat)
    requires InRange(p)
  {
    exists f :: f in p.list && p.ffs[f].hash == h
  }

  /** A lock call gets an object under its hash exactly when the hash is active or an
      object is free; without one only a trylock returns, and a blocking call sleeps. */
  lemma LockOutcome(run: seq<State>, i: nat, a: nat, h: nat, trylock: bool)
    requires IsRun(run) && i < |run| && Enabled(run[i], Lock(a, h, trylock))
    ensures var pc := Apply(run[i], Lock(a, h, trylock)).pc;
      && pc.Keys == run[i].pc.Keys && (forall b :: b in pc && b != a ==> pc[b] == run[i].pc[b])
      && (trylock ==> pc[a].Trying? || pc[a].Idle?)
      && (!trylock ==> pc[a].Waiting? || pc[a].Asleep?)
      && (pc[a].Trying? || pc[a].Waiting? <==> Active(run[i].pool, h) || run[i].pool.free != [])
      && (!pc[a].Idle? ==> pc[a].h == h)
  {
    RunInv(run, i);
    ActiveIsFound(run[i].pool, h);
  }

  lemma ActiveIsFound(p: Pool, h: nat)
    requires InRange(p)
    ensures Active(p, h) <==> Find(p, h).Some?
  {
    if Active(p, h) {
      var f :| f in p.list && p.ffs[f].hash == h;
      var j :| 0 <= j < |p.list| && p.list[j] == f;
    }
  }

  /** A sleeper goes on with its call exactly when an object has become free. */
  lemma WakeOutcome(run: seq<State>, i: nat, a: nat)
    requires IsRun(run) && i < |run| && Enabled(run[i], Wake(a))
    ensures var t := Apply(run[i], Wake(a));
      && t.pc.Keys == run[i].pc.Keys && (forall b :: b in t.pc && b != a ==> t.pc[b] == run[i].pc[b])
      && (t.pc[a].Waiting? <==> run[i].pool.free != []) && (t.pc[a].Waiting? ==> t.pc[a].h == run[i].pc[a].h)
      && (!t.pc[a].Waiting? ==> t == run[i])
  {
  }

  /** A trylock succeeds exactly when nobody holds the lock, and one that failed gives
      up exactly when somebody else is at the lock. */
  lemma TrylockOutcome(run: seq<State>, i: nat, a: nat)
    requires IsRun(run) && i < |run| && a in run[i].pc
    ensures Enabled(run[i], Try(a)) ==>
      var f, h := run[i].pc[a].f, run[i].pc[a].h;
      Apply(run[i], Try(a)).pc == run[i].pc[a := if Holders(run[i].pc, f) == {} then Holding(f, h) else Refused(f, h)]
    ensures Enabled(run[i], Settle(a)) ==>
      var f, h := run[i].pc[a].f, run[i].pc[a].h;
      Apply(run[i], Settle(a)).pc == run[i].pc[a := if Referrers(run[i].pc, f) == {a} then Waiting(f, h) else Idle]
  {
    RunInv(run, i);
    var s := run[i];
    if s.pc[a].Trying? || s.pc[a].Refused? {
      var f := s.pc[a].f;
      assert AgentOk(s, s.pc[a]) && ObjectOk(s, f);
      assert a in Referrers(s.pc, f);
      if Referrers(s.pc, f) != {a} { OneMore(Referrers(s.pc, f), a); }
    }
  }

  lemma OneMore(x: set<nat>, a: nat)
    requires a in x && x != {a}
    ensures |x| > 1
  {
    assert x == (x - {a}) + {a};
    assert |x| == |x - {a}| + 1;
  }

  /** Taking the semaphore makes the holder; unlocking leaves the caller idle. */
  lemma HoldOutcome(run: seq<State>, i: nat, a: nat)
    requires IsRun(run) && i < |run| && a in run[i].pc
    ensures Enabled(run[i], Down(a)) ==>
      Apply(run[i], Down(a)).pc == run[i].pc[a := Holding(run[i].pc[a].f, run[i].pc[a].h)]
    ensures Enabled(run[i], Unlock(a)) ==> Apply(run[i], Unlock(a)).pc == run[i].pc[a := Idle]
    ensures run[i].pc[a].Holding? ==> Enabled(run[i], Unlock(a))
  {
    RunInv(run, i);
  }

  /** A refused trylock that finds itself the only referrer finds the lock free: it can
      grab it, as long as nobody else comes first. */
  lemma SoleReferenceFree(run: seq<State>, i: nat, a: nat)
    requires IsRun(run) && i < |run| && a in run[i].pc && run[i].pc[a].Refused?
    requires run[i].pc[a].f < |run[i].pool.ffs| && run[i].pool.ffs[run[i].pc[a].f].references == 1
    ensures run[i].pool.ffs[run[i].pc[a].f].sem == 1
    ensures Enabled(run[i], Settle(a)) && Enabled(Apply(run[i], Settle(a)), Down(a))
  {
    RunInv(run, i);
    var s := run[i];
    var f := s.pc[a].f;
    assert AgentOk(s, s.pc[a]) && ObjectOk(s, f);
    assert a in Referrers(s.pc, f) && a !in Holders(s.pc, f);
    SubsetSize(Holders(s.pc, f) + {a}, Referrers(s.pc, f));
  }

  lemma Extend(run: seq<State>, step: Step, t: State)
    requires IsRun(run) && Enabled(run[|run| - 1], step) && t == Apply(run[|run| - 1], step)
    ensures IsRun(run + [t])
  {
    var longer := run + [t];
    forall i | 0 <= i < |longer| - 1 ensures Next(longer[i], longer[i + 1]) {
      if i < |run| - 1 { assert Next(run[i], run[i + 1]); } else { assert Next(run[|run| - 1], t); }
    }
  }

  /** One object, with the given counts, and three agents. */
  function Three(references: nat, sem: nat, a: Pc, b: Pc, c: Pc): State {
    State(Pool([FileLock(0, references, sem)], [0], []), map[0 := a, 1 := b, 2 := c])
  }

  lemma HeldByOne() returns (run: seq<State>)
    ensures IsRun(run) && run[|run| - 1] == Three(1, 0, Idle, Holding(0, 0), Idle)
  {
    var s0 := State(InitialPool(1), map[0 := Idle, 1 := Idle, 2 := Idle]);
    assert s0.pool == Pool([FileLock(0, 0, 1)], [], [0]);
    var s1 := Three(1, 1, Idle, Waiting(0, 0), Idle);
    assert IsRun([s0]);
    Extend([s0], Lock(1, 0, false), s1);
    Extend([s0] + [s1], Down(1), Three(1, 0, Idle, Holding(0, 0), Idle));
    run := [s0] + [s1] + [Three(1, 0, Idle, Holding(0, 0), Idle)];
  }

  lemma RefusedByHolder() returns (run: seq<State>)
    ensures IsRun(run) && run[|run| - 1] == Three(2, 0, Refused(0, 0), Holding(0, 0), Idle)
  {
    var r := HeldByOne();
    var s1 := Three(2, 0, Trying(0, 0), Holding(0, 0), Idle);
    Extend(r, Lock(0, 0, true), s1);
    Extend(r + [s1], Try(0), Three(2, 0, Refused(0, 0), Holding(0, 0), Idle));
    run := r + [s1] + [Three(2, 0, Refused(0, 0), Holding(0, 0), Idle)];
  }

  /** Agent 1 holds the lock, agent 0's trylock is refused, and agent 1 unlocks. */
  lemma RefusedThenFree() returns (run: seq<State>)
    ensures IsRun(run) && run[|run| - 1] == Three(1, 1, Refused(0, 0), Idle, Idle)
  {
    var r := RefusedByHolder();
    Extend(r, Unlock(1), Three(1, 1, Refused(0, 0), Idle, Idle));
    run := r + [Three(1, 1, Refused(0, 0), Idle, Idle)];
  }

  /** Somebody else can come first: agent 0's trylock keeps its reference, agent 2 locks
      and takes the semaphore, and the trylock is left waiting for it. */
  lemma TrylockCanBlock() returns (run: seq<State>, i: nat)
    ensures IsRun(run) && i + 3 == |run| - 1 && 0 in run[i].pc && run[i].pc[0].Refused?
    ensures run[i + 1] == Three(1, 1, Waiting(0, 0), Idle, Idle)
    ensures run[i + 3] == Three(2, 0, Waiting(0, 0), Idle, Holding(0, 0)) && !Enabled(run[i + 3], Down(0))
  {
    run := RefusedThenFree();
    i := |run| - 1;
    Extend(run, Settle(0), Three(1, 1, Waiting(0, 0), Idle, Idle));
    run := run + [Three(1, 1, Waiting(0, 0), Idle, Idle)];
    Extend(run, Lock(2, 0, false), Three(2, 1, Waiting(0, 0), Idle, Waiting(0, 0)));
    run := run + [Three(2, 1, Waiting(0, 0), Idle, Waiting(0, 0))];
    Extend(run, Down(2), Three(2, 0, Waiting(0, 0), Idle, Holding(0, 0)));
    run := run + [Three(2, 0, Waiting(0, 0), Idle, Holding(0, 0))];
  }

  /** Reference counts, semaphore values and hashes of active entries, over every run. */
  lemma Accounting(run: seq<State>, i: nat, f: nat)
    requires IsRun(run) && i < |run|
    requires f in run[i].pool.list
    ensures f < |run[i].pool.ffs|
    ensures run[i].pool.ffs[f].references == |Referrers(run[i].pc, f)| > 0
    ensures run[i].pool.ffs[f].sem == 1 - |Holders(run[i].pc, f)|
    ensures forall g :: g in run[i].pool.list && g != f ==>
      g < |run[i].pool.ffs| && run[i].pool.ffs[g].hash != run[i].pool.ffs[f].hash
  {
    RunInv(run, i);
    ConservedFacts(run[i].pool);
    assert ObjectOk(run[i], f);
  }

  /** Objects are never lost or duplicated, and nobody refers to a free one. */
  lemma Conservation(run: seq<State>, i: nat)
    requires IsRun(run) && i < |run|
    ensures |run[i].pool.ffs| == |run[0].pool.ffs|
    ensures multiset(run[i].pool.list) + multiset(run[i].pool.free) == multiset(Ids(|run[0].pool.ffs|))
    ensures |run[i].pool.list| + |run[i].pool.free| == |run[0].pool.ffs|
    ensures forall a, f :: f in run[i].pool.free && a in run[i].pc ==> !Refers(run[i].pc[a], f)
  {
    RunInv(run, i);
    var p := run[i].pool;
    SizeConstant(run, i);
    IdsSize(|p.ffs|);
    assert |multiset(p.list) + multiset(p.free)| == |p.list| + |p.free|;
    ConservedFacts(p);
    forall a, f | f in p.free && a in run[i].pc ensures !Refers(run[i].pc[a], f) {
      assert ObjectOk(run[i], f);
      assert a !in Referrers(run[i].pc, f);
    }
  }

  lemma {:induction false} IdsSize(n: nat)
    ensures |multiset(Ids(n))| == |Ids(n)| == n
  {
    if n > 0 { IdsSize(n - 1); }
  }

  lemma {:induction false} SizeConstant(run: seq<State>, i: nat)
    requires IsRun(run) && i < |run|
    ensures |run[i].pool.ffs| == |run[0].pool.ffs|
  {
    if i > 0 {
      SizeConstant(run, i - 1);
      assert Next(run[i - 1], run[i - 1 + 1]);
    }
  }

  /** When every lock call has returned and every lock is released, the active
      list is empty, which is what `fio_filelock_exit` asserts, and the free list
      that it drains holds every object. */
  lemma ExitAssertHolds(run: seq<State>, i: nat)
    requires IsRun(run) && i < |run|
    requires forall a :: a in run[i].pc ==> run[i].pc[a].Idle? || run[i].pc[a].Asleep?
    ensures run[i].pool.list == []
    ensures multiset(run[i].pool.free) == multiset(Ids(|run[0].pool.ffs|))
  {
    RunInv(run, i);
    SizeConstant(run, i);
    var s := run[i];
    assert s.pool.list == [] || s.pool.list[0] in s.pool.list;
    forall f: nat | f < |s.pool.ffs| ensures f !in s.pool.list {
      assert ObjectOk(s, f);
      assert Referrers(s.pc, f) == {};
    }
    ConservedFacts(s.pool);
  }

  /** A blocked agent can proceed at once or somebody holds what it waits for, and
      an agent short of a free object sees every object in use by some agent. */
  lemma NobodyStranded(run: seq<State>, i: nat, a: nat)
    requires IsRun(run) && i < |run| && a in run[i].pc
    ensures run[i].pc[a].Waiting? ==> Enabled(run[i], Down(a)) || Holders(run[i].pc, run[i].pc[a].f) != {}
    ensures run[i].pool.free == [] ==> forall f: nat :: f < |run[0].pool.ffs| ==> Referrers(run[i].pc, f) != {}
  {
    RunInv(run, i);
    SizeConstant(run, i);
    var s := run[i];
    ConservedFacts(s.pool);
    if s.pc[a].Waiting? {
      assert AgentOk(s, s.pc[a]);
      assert ObjectOk(s, s.pc[a].f);
    }
    if s.pool.free == [] {
      forall f: nat | f < |s.pool.ffs| ensures Referrers(s.pc, f) != {} { assert ObjectOk(s, f); }
    }
  }

  // ----------------------------------------------------- the structure in place

  /** `struct filelock_data`: the preallocated objects and the two lists. */
  class FileLockData {
    const ffs: array<FileLock>
    var list: seq<nat>
    var free: seq<nat>

    ghost function View(): Pool
      reads this, ffs
    {
      Pool(ffs[..], list, free)
    }

    constructor ()
      ensures fresh(ffs) && View() == InitialPool(MAX_FILELOCKS)
      ensures ffs.Length == 1024 == |free| && list == []
      ensures forall i :: 0 <= i < 1024 ==> ffs[i].sem == 1 && free[i] == i
    {
      ffs := new FileLock[MAX_FILELOCKS](i => FileLock(0, 0, 1));
      list, free := [], [];
      new;
      for i := 0 to MAX_FILELOCKS
        invariant ffs[..] == seq(MAX_FILELOCKS, k => FileLock(0, 0, 1))
        invariant list == [] && free == seq(i, k => k)
      {
        free := free + [i];
      }
    }

    method HashFind(h: nat) returns (r: Option<nat>)
      requires InRange(View())
      ensures r == Find(View(), h)
    {
      var i := 0;
      while i < |list|
        invariant 0 <= i <= |list|
        invariant Find(View(), h) == FindFrom(View(), h, i)
      {
        if ffs[list[i]].hash == h { return Some(list[i]); }
        i := i + 1;
      }
      return None;
    }

    /** `__get_filelock`: pop the first free object, if any. */
    method PopFree() returns (r: Option<nat>)
      modifies this
      ensures list == old(list)
      ensures if old(free) == [] then r == None && free == [] else r == Some(old(free)[0]) && free == old(free)[1..]
    {
      if free == [] { return None; }
      r := Some(free[0]);
      free := free[1..];
    }

    /** `put_filelock` pushes on the front of the free list. */
    method PutFilelock(f: nat)
      modifies this
      ensures list == old(list) && free == [f] + old(free)
    {
      free := [f] + free;
    }

    /** The tail of `fio_hash_get` once an unused object is in hand, and the reference. */
    method Install(f: nat, h: nat)
      requires f < ffs.Length
      modifies this, ffs
      ensures list == [f] + old(list) && free == old(free)
      ensures ffs[..] == old(ffs[..])[f := FileLock(h, 1, old(ffs[f]).sem)]
    {
      ffs[f] := ffs[f].(hash := h, references := 0);
      list := [f] + list;
      ffs[f] := ffs[f].(references := ffs[f].references + 1);
    }

    method Reference(f: nat)
      requires f < ffs.Length
      modifies ffs
      ensures View() == AddRef(old(View()), f)
    {
      ffs[f] := ffs[f].(references := ffs[f].references + 1);
    }

    /** The locking section up to its end or to the first drop of the global lock. */
    method LockSection(h: nat, trylock: bool) returns (r: Outcome)
      requires InRange(View())
      modifies this, ffs
      ensures (View(), r) == Enter(old(View()), h, trylock)
      ensures (r.NoObject? ==> trylock) && (r.Dropped? ==> !trylock)
      ensures r.Got? <==> old(free) != [] || exists k :: 0 <= k < |old(list)| && old(ffs[list[k]]).hash == h
      ensures !r.Got? ==> View() == old(View())
      ensures r.Got? ==> r.f in list && r.f < ffs.Length && ffs[r.f].hash == h
    {
      ghost var before := View();
      var found := HashFind(h);
      match found
      case Some(f) =>
        Reference(f);
        return Got(f);
      case None =>
        var popped := PopFree();
        match popped {
          case None => return if trylock then NoObject else Dropped;
          case Some(f) =>
            Install(f, h);
            assert View().ffs == AddRef(Activate(before, h), f).ffs;
            return Got(f);
        }
    }

    /** The section after a drop: pop again, and put the object back if the hash
        was added by somebody else in the meantime. */
    method RetrySection(h: nat) returns (r: Outcome)
      requires InRange(View())
      modifies this, ffs
      ensures (View(), r) == Reenter(old(View()), h)
      ensures r.Got? <==> old(free) != []
      ensures !r.Got? ==> r.Dropped? && View() == old(View())
      ensures r.Got? ==> r.f in list && r.f < ffs.Length && ffs[r.f].hash == h
    {
      ghost var before := View();
      var popped := PopFree();
      if popped.None? { return Dropped; }
      FindIgnoresFree(before, View(), h);
      var found := HashFind(h);
      match found
      case Some(g) =>
        PutFilelock(popped.value);
        assert View() == before;
        Reference(g);
        return Got(g);
      case None =>
        Install(popped.value, h);
        assert View().ffs == AddRef(Activate(before, h), popped.value).ffs;
        return Got(popped.value);
    }

    /** The section after a failed trylock; true means the sole reference is kept. */
    method SettleSection(f: nat) returns (sole: bool)
      requires f < ffs.Length
      modifies ffs
      ensures (View(), sole) == Recheck(old(View()), f)
      ensures sole <==> old(ffs[f]).references == 1
      ensures sole ==> View() == old(View())
      ensures !sole && old(ffs[f]).references > 0 ==> ffs[f].references == old(ffs[f]).references - 1
    {
      sole := true;
      if ffs[f].references != 1 {
        ffs[f] := ffs[f].(references := Dec(ffs[f].references));
        sole := false;
      }
    }

    method UnlockSection(h: nat)
      requires InRange(View())
      modifies this, ffs
      ensures View() == Release(old(View()), h)
    {
      var found := HashFind(h);
      if found.Some? {
        var f := found.value;
        var refs := Dec(ffs[f].references);
        ffs[f] := ffs[f].(references := refs);
        ffs[f] := ffs[f].(sem := ffs[f].sem + 1);
        if refs == 0 {
          list := Without(list, f);
          PutFilelock(f);
        }
      }
    }
  }

  lemma {:induction false} FindIgnoresFree(p: Pool, q: Pool, h: nat, i: nat := 0)
    requires InRange(p) && InRange(q) && q.list == p.list && q.ffs == p.ffs && i <= |p.list|
    ensures FindFrom(q, h, i) == FindFrom(p, h, i)
    decreases |p.list| - i
  {
    if i < |p.list| { FindIgnoresFree(p, q, h, i + 1); }
  }
}
