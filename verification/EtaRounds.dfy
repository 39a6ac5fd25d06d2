/**
 The ETA rounds of client.c: one aggregate per round with a pending count, which
 replies, timeouts and client removals settle; the last one displays and frees it.

 Rounds and requests are named by fresh identifiers.  `World` is the value of
 all the data involved, each handler is a function on it, and `EtaClient` holds
 the same data in place.
 */
module EtaRounds {

  import opened Options

  /** `listed` is "on eta_list"; `cmds` are the SEND_ETA requests still expecting a
      reply, each named by the round it belongs to. */
  datatype Client = Client(running: bool, listed: bool, eta: Option<nat>, cmds: set<nat>)

  /** What a round was created with: the number of clients, and how many of them
      were idle but not running. */
  datatype Origin = Origin(total: nat, stuck: nat)

  /** `pending` holds the live rounds, `shown` counts displays, `crashed` records a
      failed assert, a null dereference or the use of a freed round. */
  datatype World = World(
    clients: map<nat, Client>,
    pending: map<nat, nat>,
    origins: seq<Origin>,
    shown: multiset<nat>,
    crashed: bool)

  // ------------------------------------------------------------------ handlers

  /** `fio_client_dec_jobs_eta` */
  function DecJobsEta(w: World, r: nat): World {
    if r !in w.pending || w.pending[r] == 0 then w.(crashed := true)
    else if w.pending[r] == 1 then w.(pending := w.pending - {r}, shown := w.shown + multiset{r})
    else w.(pending := w.pending[r := w.pending[r] - 1])
  }

  /** `assert(client->eta_in_flight == eta)` of `handle_eta` */
  function HandleReply(w: World, c: nat, tag: nat): World
    requires c in w.clients
  {
    var cl := w.clients[c];
    if tag !in cl.cmds then w
    else if cl.eta != Some(tag) then w.(crashed := true)
    else DecJobsEta(w.(clients := w.clients[c := cl.(listed := false, eta := None, cmds := cl.cmds - {tag})]), tag)
  }

  /** `handle_cmd_timeout` for a SEND_ETA request */
  function HandleTimeout(w: World, c: nat, tag: nat): World
    requires c in w.clients
  {
    var cl := w.clients[c];
    if tag !in cl.cmds then w else
      var next := w.(clients := w.clients[c := cl.(listed := false, eta := None, cmds := cl.cmds - {tag})]);
      if cl.eta.Some? then DecJobsEta(next, cl.eta.value) else next
  }

  /** The ETA part of `remove_client` */
  function RemoveClient(w: World, c: nat): World
    requires c in w.clients
  {
    var cl := w.clients[c];
    var next := w.(clients := w.clients - {c});
    if !cl.listed then next
    else if cl.eta.None? then next.(crashed := true)
    else DecJobsEta(next, cl.eta.value)
  }

  /** A client asked for its ETA; the request is tracked only if it could be sent. */
  function Asked(cl: Client, r: nat, sent: bool): Client {
    if cl.listed || !cl.running then cl
    else cl.(listed := true, eta := Some(r), cmds := if sent then cl.cmds + {r} else cl.cmds)
  }

  ghost function Busy(cs: map<nat, Client>): set<nat> {
    set c | c in cs && cs[c].listed
  }

  ghost function Stuck(cs: map<nat, Client>): set<nat> {
    set c | c in cs && !cs[c].listed && !cs[c].running
  }

  ghost function Free(cs: map<nat, Client>): set<nat> {
    set c | c in cs && !cs[c].listed && cs[c].running
  }

  /** Settle n clients of round r, stopping when the round is gone. */
  function Settle(w: World, r: nat, n: nat): World
    decreases n
  {
    if n == 0 || r !in w.pending then w else Settle(DecJobsEta(w, r), r, n - 1)
  }

  ghost function AskAll(cs: map<nat, Client>, part: set<nat>, r: nat, unsent: set<nat>): map<nat, Client> {
    map c | c in cs :: if c in part then Asked(cs[c], r, c !in unsent) else cs[c]
  }

  /** An idle running client that still points at a round fails the assert of
      `request_client_etas`. */
  predicate Stale(cl: Client) {
    !cl.listed && cl.running && cl.eta.Some?
  }

  ghost predicate AnyStale(cs: map<nat, Client>) {
    exists c :: c in cs && Stale(cs[c])
  }

  /** The round is created with one pending count per client; the clients that are
      still busy with an earlier round are then discounted. */
  ghost function RequestEtas(w: World, unsent: set<nat>): World {
    if AnyStale(w.clients) then w.(crashed := true) else
    var r := |w.origins|;
    var created := w.(
      clients := AskAll(w.clients, w.clients.Keys, r, unsent),
      pending := w.pending[r := |w.clients|],
      origins := w.origins + [Origin(|w.clients|, |Stuck(w.clients)|)]);
    Settle(created, r, |Busy(w.clients)|)
  }

  // ---------------------------------------------------------------------- runs

  datatype Step =
    | Request(unsent: set<nat>)
    | Reply(c: nat, tag: nat)
    | Timeout(c: nat, tag: nat)
    | Remove(c: nat)
    | Connect(c: nat)
    | SetState(c: nat, running: bool)

  predicate Enabled(w: World, step: Step) {
    && !w.crashed
    && match step
       case Request(_) => true
       case Connect(c) => c !in w.clients
       case Reply(c, _) => c in w.clients
       case Timeout(c, _) => c in w.clients
       case Remove(c) => c in w.clients
       case SetState(c, _) => c in w.clients
  }

  ghost function Apply(w: World, step: Step): World
    requires Enabled(w, step)
  {
    match step
    case Request(unsent) => RequestEtas(w, unsent)
    case Reply(c, tag) => HandleReply(w, c, tag)
    case Timeout(c, tag) => HandleTimeout(w, c, tag)
    case Remove(c) => RemoveClient(w, c)
    case Connect(c) => w.(clients := w.clients[c := Client(false, false, None, {})])
    case SetState(c, running) => w.(clients := w.clients[c := w.clients[c].(running := running)])
  }

  ghost predicate Next(w: World, v: World) {
    exists step :: Enabled(w, step) && v == Apply(w, step)
  }

  ghost predicate IsRun(run: seq<World>) {
    && run != [] && run[0] == World(map[], map[], [], multiset{}, false)
    && forall i :: 0 <= i < |run| - 1 ==> Next(run[i], run[i + 1])
  }

  // ---------------------------------------------------------------- invariant

  ghost function InFlight(cs: map<nat, Client>, r: nat): set<nat> {
    set c | c in cs && cs[c].eta == Some(r)
  }

  ghost predicate ClientOk(w: World, cl: Client) {
    && (cl.listed <==> cl.eta.Some?)
    && (cl.eta.Some? ==> cl.eta.value in w.pending)
    && (cl.cmds == {} || (cl.eta.Some? && cl.cmds == {cl.eta.value}))
  }

  /** A live round counts its in-flight clients plus the stuck ones; a round that is
      gone was displayed once and had no stuck client. */
  ghost predicate RoundOk(w: World, r: nat)
    requires r < |w.origins|
  {
    var o := w.origins[r];
    if r in w.pending then
      && w.pending[r] == |InFlight(w.clients, r)| + o.stuck
      && (w.pending[r] > 0 <==> o.total > 0)
      && w.shown[r] == 0
    else
      && w.shown[r] == 1 && o.stuck == 0 && o.total > 0
      && InFlight(w.clients, r) == {}
  }

  ghost predicate Inv(w: World) {
    && !w.crashed
    && (forall c :: c in w.clients ==> ClientOk(w, w.clients[c]))
    && (forall r :: r in w.pending ==> r < |w.origins|)
    && (forall r :: r in w.shown ==> r < |w.origins|)
    && (forall r: nat :: r < |w.origins| ==> RoundOk(w, r))
  }

  lemma InFlightWithout(cs: map<nat, Client>, c: nat, r: nat)
    requires c in cs
    ensures InFlight(cs - {c}, r) == InFlight(cs, r) - {c}
    ensures c in InFlight(cs, r) <==> cs[c].eta == Some(r)
  {
  }

  lemma InFlightUpdate(cs: map<nat, Client>, c: nat, cl: Client, r: nat)
    requires c in cs
    ensures InFlight(cs[c := cl], r) == if cl.eta == Some(r) then InFlight(cs, r) + {c} else InFlight(cs, r) - {c}
    ensures c in InFlight(cs, r) <==> cs[c].eta == Some(r)
  {
  }

  /** Client c is gone, or idle again with nothing outstanding. */
  ghost predicate Released(cs: map<nat, Client>, c: nat, next: map<nat, Client>)
    requires c in cs
  {
    || next == cs - {c}
    || (c in next && next == cs[c := next[c]] && next[c].eta.None? && !next[c].listed && next[c].cmds == {})
  }

  lemma ReleasedInFlight(cs: map<nat, Client>, c: nat, next: map<nat, Client>, q: nat)
    requires c in cs && Released(cs, c, next)
    ensures InFlight(next, q) == InFlight(cs, q) - {c}
    ensures c in InFlight(cs, q) <==> cs[c].eta == Some(q)
  {
    InFlightWithout(cs, c, q);
    if c in next { InFlightUpdate(cs, c, next[c], q); }
  }

  lemma SettledRound(w: World, c: nat, next: map<nat, Client>, q: nat)
    requires Inv(w) && c in w.clients && w.clients[c].eta.Some? && Released(w.clients, c, next)
    requires q < |w.origins|
    ensures !DecJobsEta(w.(clients := next), w.clients[c].eta.value).crashed
    ensures RoundOk(DecJobsEta(w.(clients := next), w.clients[c].eta.value), q)
  {
    var r := w.clients[c].eta.value;
    assert ClientOk(w, w.clients[c]) && RoundOk(w, r) && RoundOk(w, q);
    ReleasedInFlight(w.clients, c, next, r);
    ReleasedInFlight(w.clients, c, next, q);
    assert |InFlight(next, r)| == |InFlight(w.clients, r)| - 1;
  }

  /** One client of a round settles: it leaves the round and the count drops. */
  lemma SettleOne(w: World, c: nat, next: map<nat, Client>)
    requires Inv(w) && c in w.clients && w.clients[c].eta.Some? && Released(w.clients, c, next)
    ensures Inv(DecJobsEta(w.(clients := next), w.clients[c].eta.value))
  {
    var r := w.clients[c].eta.value;
    assert ClientOk(w, w.clients[c]);
    var v := DecJobsEta(w.(clients := next), r);
    forall q: nat | q < |v.origins| ensures RoundOk(v, q) { SettledRound(w, c, next, q); }
    SettledRound(w, c, next, r);
    forall d | d in next ensures ClientOk(v, next[d]) {
      if d != c {
        assert ClientOk(w, w.clients[d]);
        if next[d].eta == Some(r) { assert d in InFlight(next, r); assert RoundOk(v, r); }
      }
    }
  }

  /** Clients that change nothing about rounds. */
  lemma SameEtas(w: World, next: map<nat, Client>)
    requires Inv(w)
    requires forall r: nat :: InFlight(next, r) == InFlight(w.clients, r)
    requires forall c :: c in next ==> ClientOk(w, next[c])
    ensures Inv(w.(clients := next))
  {
    var v := w.(clients := next);
    forall q: nat | q < |v.origins| ensures RoundOk(v, q) { assert RoundOk(w, q); }
    forall c | c in next ensures ClientOk(v, next[c]) { assert ClientOk(w, next[c]); }
  }

  lemma ReplyInv(w: World, c: nat, tag: nat)
    requires Inv(w) && c in w.clients
    ensures Inv(HandleReply(w, c, tag)) && Inv(HandleTimeout(w, c, tag))
  {
    var cl := w.clients[c];
    assert ClientOk(w, cl);
    if tag in cl.cmds {
      SettleOne(w, c, w.clients[c := cl.(listed := false, eta := None, cmds := cl.cmds - {tag})]);
    }
  }

  lemma RemoveInv(w: World, c: nat)
    requires Inv(w) && c in w.clients
    ensures Inv(RemoveClient(w, c))
  {
    assert ClientOk(w, w.clients[c]);
    if w.clients[c].listed {
      SettleOne(w, c, w.clients - {c});
    } else {
      forall r: nat ensures InFlight(w.clients - {c}, r) == InFlight(w.clients, r) { InFlightWithout(w.clients, c, r); }
      forall d | d in w.clients - {c} ensures ClientOk(w, (w.clients - {c})[d]) { assert ClientOk(w, w.clients[d]); }
      SameEtas(w, w.clients - {c});
    }
  }

  lemma ConnectInv(w: World, c: nat)
    requires Inv(w) && c !in w.clients
    ensures Inv(w.(clients := w.clients[c := Client(false, false, None, {})]))
  {
    var next := w.clients[c := Client(false, false, None, {})];
    forall r: nat ensures InFlight(next, r) == InFlight(w.clients, r) { }
    forall d | d in next ensures ClientOk(w, next[d]) { if d != c { assert ClientOk(w, w.clients[d]); } }
    SameEtas(w, next);
  }

  lemma SetStateInv(w: World, c: nat, running: bool)
    requires Inv(w) && c in w.clients
    ensures Inv(w.(clients := w.clients[c := w.clients[c].(running := running)]))
  {
    var next := w.clients[c := w.clients[c].(running := running)];
    assert ClientOk(w, w.clients[c]);
    forall r: nat ensures InFlight(next, r) == InFlight(w.clients, r) { InFlightUpdate(w.clients, c, next[c], r); }
    forall d | d in next ensures ClientOk(w, next[d]) { if d != c { assert ClientOk(w, w.clients[d]); } }
    SameEtas(w, next);
  }

  /** Clients split into busy, stuck and free ones. */
  lemma Partition(cs: map<nat, Client>)
    ensures |cs| == |Busy(cs)| + |Stuck(cs)| + |Free(cs)|
  {
    assert cs.Keys == Busy(cs) + Stuck(cs) + Free(cs);
    assert |Busy(cs) + Stuck(cs)| == |Busy(cs)| + |Stuck(cs)|;
    assert |Busy(cs) + Stuck(cs) + Free(cs)| == |Busy(cs) + Stuck(cs)| + |Free(cs)|;
  }

  /** Discounting n of at least n pending clients. */
  lemma {:induction false} SettleMany(w: World, r: nat, n: nat)
    requires !w.crashed && r in w.pending && w.pending[r] >= n
    ensures Settle(w, r, n) ==
      if n > 0 && w.pending[r] == n then w.(pending := w.pending - {r}, shown := w.shown + multiset{r})
      else w.(pending := w.pending[r := w.pending[r] - n])
    decreases n
  {
    if n == 0 {
      assert w.pending[r := w.pending[r]] == w.pending;
    } else {
      var v := DecJobsEta(w, r);
      if w.pending[r] > 1 {
        SettleMany(v, r, n - 1);
        assert v.pending - {r} == w.pending - {r};
      }
    }
  }

  /** A new round is accounted as it starts: its free clients are in flight, its
      busy ones have been discounted. */
  lemma RequestRounds(w: World, unsent: set<nat>, q: nat)
    requires Inv(w) && q <= |w.origins|
    ensures !RequestEtas(w, unsent).crashed && |RequestEtas(w, unsent).origins| == |w.origins| + 1
    ensures RoundOk(RequestEtas(w, unsent), q)
    ensures forall p :: p in w.pending ==> p in RequestEtas(w, unsent).pending
    ensures Free(w.clients) != {} ==> |w.origins| in RequestEtas(w, unsent).pending
  {
    var r := |w.origins|;
    var asked := AskAll(w.clients, w.clients.Keys, r, unsent);
    var created := w.(
      clients := asked,
      pending := w.pending[r := |w.clients|],
      origins := w.origins + [Origin(|w.clients|, |Stuck(w.clients)|)]);
    NoneStale(w);
    Partition(w.clients);
    SettleMany(created, r, |Busy(w.clients)|);
    AskedInFlight(w, asked, r, unsent);
    assert r !in w.shown && r !in w.pending;
    if q < r { assert RoundOk(w, q); }
  }

  lemma NoneStale(w: World)
    requires Inv(w)
    ensures !AnyStale(w.clients)
  {
    forall c | c in w.clients ensures !Stale(w.clients[c]) { assert ClientOk(w, w.clients[c]); }
  }

  lemma RequestInv(w: World, unsent: set<nat>)
    requires Inv(w)
    ensures Inv(RequestEtas(w, unsent))
  {
    var v := RequestEtas(w, unsent);
    var r := |w.origins|;
    RequestRounds(w, unsent, r);
    RequestShape(w, unsent);
    forall q: nat | q < |v.origins| ensures RoundOk(v, q) { RequestRounds(w, unsent, q); }
    forall c | c in v.clients ensures ClientOk(v, v.clients[c]) {
      assert ClientOk(w, w.clients[c]);
      assert v.clients[c] == Asked(w.clients[c], r, c !in unsent);
      if v.clients[c].eta == Some(r) { assert c in Free(w.clients); }
    }
  }

  lemma RequestShape(w: World, unsent: set<nat>)
    requires Inv(w)
    ensures var v := RequestEtas(w, unsent);
      && v.clients == AskAll(w.clients, w.clients.Keys, |w.origins|, unsent)
      && v.origins == w.origins + [Origin(|w.clients|, |Stuck(w.clients)|)]
      && (forall q :: q in v.pending || q in v.shown ==> q <= |w.origins|)
  {
    NoneStale(w);
    Partition(w.clients);
    var r := |w.origins|;
    SettleMany(w.(
      clients := AskAll(w.clients, w.clients.Keys, r, unsent),
      pending := w.pending[r := |w.clients|],
      origins := w.origins + [Origin(|w.clients|, |Stuck(w.clients)|)]), r, |Busy(w.clients)|);
  }

  /** Exactly the free clients join the new round; older rounds are untouched. */
  lemma AskedInFlight(w: World, asked: map<nat, Client>, r: nat, unsent: set<nat>)
    requires Inv(w) && r == |w.origins|
    requires asked == AskAll(w.clients, w.clients.Keys, r, unsent)
    ensures InFlight(asked, r) == Free(w.clients)
    ensures forall q: nat :: q < r ==> InFlight(asked, q) == InFlight(w.clients, q)
  {
    forall c | c in w.clients ensures w.clients[c].eta != Some(r) && (w.clients[c].listed <==> w.clients[c].eta.Some?) {
      assert ClientOk(w, w.clients[c]);
    }
    assert InFlight(asked, r) == Free(w.clients);
    forall q: nat | q < r ensures InFlight(asked, q) == InFlight(w.clients, q) { }
  }

  lemma StepInv(w: World, step: Step)
    requires Inv(w) && Enabled(w, step)
    ensures Inv(Apply(w, step))
  {
    match step
    case Request(unsent) => RequestInv(w, unsent);
    case Reply(c, tag) => ReplyInv(w, c, tag);
    case Timeout(c, tag) => ReplyInv(w, c, tag);
    case Remove(c) => RemoveInv(w, c);
    case Connect(c) => ConnectInv(w, c);
    case SetState(c, running) => SetStateInv(w, c, running);
  }

  lemma {:induction false} RunInv(run: seq<World>, i: nat)
    requires IsRun(run) && i < |run|
    ensures Inv(run[i])
  {
    if i > 0 {
      RunInv(run, i - 1);
      assert Next(run[i - 1], run[i - 1 + 1]);
      var step :| Enabled(run[i - 1], step) && run[i] == Apply(run[i - 1], step);
      StepInv(run[i - 1], step);
    }
  }

  // ----------------------------------------------------------------- theorems

  /** Over any order of requests, replies, late replies, timeouts and removals the
      asserts hold, no freed round is used, and the pending count of a live round is
      its in-flight clients plus the clients that were not running when it began. */
  lemma PendingAccounted(run: seq<World>, i: nat, r: nat)
    requires IsRun(run) && i < |run|
    ensures !run[i].crashed
    ensures r in run[i].pending ==>
      r < |run[i].origins| && run[i].pending[r] == |InFlight(run[i].clients, r)| + run[i].origins[r].stuck
    ensures r !in run[i].pending ==> InFlight(run[i].clients, r) == {}
  {
    RunInv(run, i);
    var w := run[i];
    if r < |w.origins| { assert RoundOk(w, r); }
    forall c | c in w.clients && w.clients[c].eta == Some(r) ensures r in w.pending {
      assert ClientOk(w, w.clients[c]);
    }
  }

  /** A round is displayed at most once; once all its clients have settled it has
      been displayed exactly when it began with some client and every idle client
      was running.  Otherwise it is never displayed and never freed. */
  lemma DisplayedExactly(run: seq<World>, i: nat, r: nat)
    requires IsRun(run) && i < |run| && r < |run[i].origins|
    ensures run[i].shown[r] <= 1
    ensures InFlight(run[i].clients, r) != {} ==> run[i].shown[r] == 0
    ensures InFlight(run[i].clients, r) == {} ==>
      (run[i].shown[r] == 1 <==> run[i].origins[r].stuck == 0 && run[i].origins[r].total > 0)
    ensures run[i].shown[r] == 1 <==> r !in run[i].pending
  {
    RunInv(run, i);
    assert RoundOk(run[i], r);
  }

  /** A request that was made and no longer expects a reply. */
  ghost predicate Spent(w: World, c: nat, tag: nat) {
    tag < |w.origins| && (c in w.clients ==> tag !in w.clients[c].cmds)
  }

  /** New requests carry new tags, so a spent one stays spent. */
  lemma StepSpent(w: World, step: Step, c: nat, tag: nat)
    requires Inv(w) && Enabled(w, step) && Spent(w, c, tag)
    ensures Spent(Apply(w, step), c, tag)
  {
    if step.Request? { RequestShape(w, step.unsent); }
  }

  lemma NextSpent(w: World, v: World, c: nat, tag: nat)
    requires Inv(w) && Next(w, v) && Spent(w, c, tag)
    ensures Spent(v, c, tag)
  {
    var step :| Enabled(w, step) && v == Apply(w, step);
    StepSpent(w, step, c, tag);
  }

  lemma SpentAt(run: seq<World>, j: nat, c: nat, tag: nat)
    requires IsRun(run) && 0 < j < |run| && Spent(run[j - 1], c, tag)
    ensures Spent(run[j], c, tag)
  {
    RunInv(run, j - 1);
    StepAt(run, j);
    NextSpent(run[j - 1], run[j], c, tag);
  }

  lemma StepAt(run: seq<World>, j: nat)
    requires IsRun(run) && 0 < j < |run|
    ensures Next(run[j - 1], run[j])
  {
    assert Next(run[j - 1], run[j - 1 + 1]);
  }

  lemma {:induction false} RunSpent(run: seq<World>, i: nat, j: nat, c: nat, tag: nat)
    requires IsRun(run) && i <= j < |run| && Spent(run[i], c, tag)
    ensures Spent(run[j], c, tag)
    decreases j
  {
    if i < j {
      RunSpent(run, i, j - 1, c, tag);
      SpentAt(run, j, c, tag);
    }
  }

  /** A request is settled once: after its reply, its timeout or the removal of its
      client, whatever happens in between, a reply or timeout for it changes nothing. */
  lemma LateReplyIgnored(run: seq<World>, i: nat, j: nat, c: nat, tag: nat)
    requires IsRun(run) && i < j < |run| && c in run[i].clients && tag in run[i].clients[c].cmds
    requires || run[i + 1] == HandleReply(run[i], c, tag)
             || run[i + 1] == HandleTimeout(run[i], c, tag)
             || run[i + 1] == RemoveClient(run[i], c)
    ensures c in run[j].clients ==> HandleReply(run[j], c, tag) == run[j] == HandleTimeout(run[j], c, tag)
  {
    RunInv(run, i);
    RunInv(run, i + 1);
    assert ClientOk(run[i], run[i].clients[c]);
    assert Spent(run[i + 1], c, tag);
    RunSpent(run, i + 1, j, c, tag);
  }

  // What the handlers do together: a request is tracked, its reply settles it, and a round
  // all of whose clients reply is displayed.

  /** Every idle running client is asked, and expects a reply exactly if the request could
      be sent; nobody else is touched. */
  lemma RequestTracks(w: World, unsent: set<nat>, c: nat)
    requires Inv(w) && c in w.clients
    ensures var v, r := RequestEtas(w, unsent), |w.origins|;
      && v.clients.Keys == w.clients.Keys
      && if w.clients[c].running && !w.clients[c].listed
         then v.clients[c].listed && v.clients[c].running && v.clients[c].eta == Some(r)
           && (r in v.clients[c].cmds <==> c !in unsent)
         else v.clients[c] == w.clients[c]
  {
    RequestShape(w, unsent);
    assert ClientOk(w, w.clients[c]);
  }

  /** A tracked reply, or its timeout, takes the client out of its round and leaves all
      others where they are. */
  lemma ReplySettles(w: World, c: nat, tag: nat, timeout: bool)
    requires Inv(w) && c in w.clients && tag in w.clients[c].cmds
    ensures var v := if timeout then HandleTimeout(w, c, tag) else HandleReply(w, c, tag);
      && Inv(v) && v.origins == w.origins
      && v.clients == w.clients[c := Client(w.clients[c].running, false, None, w.clients[c].cmds - {tag})]
      && (forall q: nat :: InFlight(v.clients, q) == InFlight(w.clients, q) - {c})
  {
    ReplyInv(w, c, tag);
    assert ClientOk(w, w.clients[c]);
    var next := w.clients[c := Client(w.clients[c].running, false, None, w.clients[c].cmds - {tag})];
    forall q: nat ensures InFlight(next, q) == InFlight(w.clients, q) - {c} {
      InFlightUpdate(w.clients, c, next[c], q);
    }
  }

  /** What counts as a crash: a tracked reply for another round than the client's, an idle
      running client asked again while it points at a round, a listed client without one,
      and a decrement of a round that is gone or at zero. */
  lemma CrashesExactly(w: World, c: nat, tag: nat, unsent: set<nat>)
    requires !w.crashed && c in w.clients
    ensures var cl := w.clients[c];
      && (HandleReply(w, c, tag).crashed <==> tag in cl.cmds && (cl.eta != Some(tag) || Gone(w, tag)))
      && (HandleTimeout(w, c, tag).crashed <==> tag in cl.cmds && cl.eta != None && Gone(w, cl.eta.value))
      && (RemoveClient(w, c).crashed <==> cl.listed && (cl.eta == None || Gone(w, cl.eta.value)))
      && (cl.running && !cl.listed && cl.eta != None ==> RequestEtas(w, unsent).crashed)
  {
  }

  ghost predicate Gone(w: World, r: nat) {
    r in w.pending ==> w.pending[r] == 0
  }

  /** A removed client is gone, from its round too. */
  lemma RemoveSettles(w: World, c: nat)
    requires Inv(w) && c in w.clients
    ensures var v := RemoveClient(w, c);
      && Inv(v) && v.origins == w.origins && v.clients == w.clients - {c}
      && (forall q: nat :: InFlight(v.clients, q) == InFlight(w.clients, q) - {c})
  {
    RemoveInv(w, c);
    assert ClientOk(w, w.clients[c]);
    forall q: nat ensures InFlight(w.clients - {c}, q) == InFlight(w.clients, q) - {c} {
      InFlightWithout(w.clients, c, q);
    }
  }

  /** The replies of the listed clients to one request, in that order. */
  function ReplyAll(w: World, list: seq<nat>, tag: nat): World
    decreases |list|
  {
    if list == [] then w
    else ReplyAll(if list[0] in w.clients then HandleReply(w, list[0], tag) else w, list[1..], tag)
  }

  /** Every client in flight for the round expects its reply. */
  ghost predicate AllTracked(w: World, tag: nat) {
    forall c :: c in InFlight(w.clients, tag) ==> c in w.clients && tag in w.clients[c].cmds
  }

  lemma {:induction false} RepliesSettle(w: World, list: seq<nat>, tag: nat)
    requires Inv(w) && AllTracked(w, tag)
    ensures var v := ReplyAll(w, list, tag);
      && Inv(v) && v.origins == w.origins
      && forall c :: c in InFlight(v.clients, tag) ==> c in InFlight(w.clients, tag) && c !in list
    decreases |list|
  {
    if list != [] {
      var c := list[0];
      var next := if c in w.clients then HandleReply(w, c, tag) else w;
      if c in w.clients && tag in w.clients[c].cmds {
        ReplySettles(w, c, tag, false);
      }
      assert next.origins == w.origins && Inv(next);
      assert forall d :: d in InFlight(next.clients, tag) ==> d in InFlight(w.clients, tag) && d != c;
      RepliesSettle(next, list[1..], tag);
      assert forall d :: d in list ==> d == c || d in list[1..];
    }
  }

  /** A round started while every client was running, with all requests sent, is
      displayed once all the clients asked have replied, in whatever order. */
  lemma RoundCompletes(w: World, unsent: set<nat>, list: seq<nat>)
    requires Inv(w) && |w.clients| > 0 && Stuck(w.clients) == {} && unsent !! Free(w.clients)
    requires forall c :: c in Free(w.clients) ==> c in list
    ensures var v := ReplyAll(RequestEtas(w, unsent), list, |w.origins|);
      Inv(v) && v.shown[|w.origins|] == 1 && |w.origins| !in v.pending
  {
    var r, asked := |w.origins|, RequestEtas(w, unsent);
    RequestInv(w, unsent);
    RequestShape(w, unsent);
    AskedInFlight(w, asked.clients, r, unsent);
    forall c | c in InFlight(asked.clients, r) ensures c in asked.clients && r in asked.clients[c].cmds {
      RequestTracks(w, unsent, c);
    }
    RepliesSettle(asked, list, r);
    var v := ReplyAll(asked, list, r);
    assert InFlight(v.clients, r) == {};
    assert RoundOk(v, r);
  }

  /** The failing side of DisplayedExactly does occur: a round started with one client
      that is not running has nobody left to settle it and is not displayed. */
  lemma RoundCanStick() returns (run: seq<World>)
    ensures IsRun(run)
    ensures var w := run[|run| - 1];
      && w.origins == [Origin(1, 1)] && InFlight(w.clients, 0) == {}
      && w.pending == map[0 := 1] && w.shown[0] == 0
  {
    var w0 := World(map[], map[], [], multiset{}, false);
    var w1 := Apply(w0, Connect(0));
    assert Next(w0, w1);
    var w2 := Apply(w1, Request({}));
    assert Next(w1, w2);
    assert Busy(w1.clients) == {} && Stuck(w1.clients) == {0};
    run := [w0, w1, w2];
  }

  // --------------------------------------------------------- the data in place

  /** The clients and the number of busy ones after the request loop has gone
      through list[i..]. */
  function AskFrom(list: seq<nat>, cs: map<nat, Client>, n: nat, i: nat, r: nat, unsent: set<nat>)
    : (map<nat, Client>, nat)
    requires i <= |list| && forall k :: 0 <= k < |list| ==> list[k] in cs
    decreases |list| - i
  {
    if i == |list| then (cs, n) else
      var c := list[i];
      AskFrom(list, cs[c := Asked(cs[c], r, c !in unsent)], if cs[c].listed then n + 1 else n, i + 1, r, unsent)
  }

  method AskIdle(list: seq<nat>, cs: map<nat, Client>, r: nat, unsent: set<nat>)
    returns (asked: map<nat, Client>, skipped: nat, failed: bool)
    requires forall k :: 0 <= k < |list| ==> list[k] in cs
    ensures failed <==> exists k :: 0 <= k < |list| && Stale(cs[list[k]])
    ensures failed <==> exists k :: 0 <= k < |list| && var cl := cs[list[k]]; cl.running && !cl.listed && cl.eta != None
    ensures !failed ==> (asked, skipped) == AskFrom(list, cs, 0, 0, r, unsent)
  {
    asked, skipped := cs, 0;
    for i := 0 to |list|
      invariant forall k :: 0 <= k < |list| ==> list[k] in asked && (Stale(asked[list[k]]) <==> Stale(cs[list[k]]))
      invariant forall k :: 0 <= k < i ==> !Stale(cs[list[k]])
      invariant AskFrom(list, cs, 0, 0, r, unsent) == AskFrom(list, asked, skipped, i, r, unsent)
    {
      var c := list[i];
      if Stale(asked[c]) { return asked, skipped, true; }
      var cl, busy := AskOne(asked[c], r, c !in unsent);
      asked := asked[c := cl];
      if busy { skipped := skipped + 1; }
    }
    return asked, skipped, false;
  }

  /** On a list of all clients without repetition, the loop asks everybody once. */
  lemma {:induction false} AskFromAll(list: seq<nat>, cs: map<nat, Client>, i: nat, r: nat, unsent: set<nat>)
    requires i <= |list| && forall c :: c in cs <==> c in list
    requires forall a, b :: 0 <= a < b < |list| ==> list[a] != list[b]
    ensures AskAll(cs, Prefix(list, i), r, unsent).Keys == cs.Keys
    ensures AskFrom(list, AskAll(cs, Prefix(list, i), r, unsent), |Busy(cs) * Prefix(list, i)|, i, r, unsent)
      == (AskAll(cs, cs.Keys, r, unsent), |Busy(cs)|)
    decreases |list| - i
  {
    WholePrefix(list, cs, r, unsent);
    if i < |list| {
      LoopStep(list, cs, i, r, unsent);
      AskFromAll(list, cs, i + 1, r, unsent);
    }
  }

  /** The body of that loop: busy clients are only counted. */
  method AskOne(cl: Client, r: nat, sent: bool) returns (next: Client, busy: bool)
    ensures next == Asked(cl, r, sent) && busy == cl.listed
  {
    if cl.listed { return cl, true; }
    if !cl.running { return cl, false; }
    next := cl.(listed := true, eta := Some(r));
    if sent { next := next.(cmds := cl.cmds + {r}); }
    return next, false;
  }

  /** The client list and its rounds; `origins` only serves the specification. */
  class EtaClient {
    var list: seq<nat>
    var clients: map<nat, Client>
    var pending: map<nat, nat>
    var nextRound: nat
    var shown: multiset<nat>
    var crashed: bool
    ghost var origins: seq<Origin>

    ghost function View(): World
      reads this
    {
      World(clients, pending, origins, shown, crashed)
    }

    ghost predicate Valid()
      reads this
    {
      && nextRound == |origins|
      && (forall a, b :: 0 <= a < b < |list| ==> list[a] != list[b])
      && (forall c :: c in clients <==> c in list)
    }

    constructor ()
      ensures Valid() && View() == World(map[], map[], [], multiset{}, false)
    {
      list, clients, pending, nextRound, shown, crashed, origins := [], map[], map[], 0, multiset{}, false, [];
    }

    /** Returns whether the round is still live, as the source does. */
    method Dec(r: nat) returns (live: bool)
      requires Valid()
      modifies this`pending, this`shown, this`crashed
      ensures Valid() && View() == DecJobsEta(old(View()), r)
      ensures r in old(pending) && old(pending)[r] > 0 ==> (live <==> r in pending)
    {
      live := true;
      if r !in pending || pending[r] == 0 {
        crashed := true;
      } else if pending[r] == 1 {
        shown := shown + multiset{r};
        pending := pending - {r};
        live := false;
      } else {
        pending := pending[r := pending[r] - 1];
      }
    }

    method Reply(c: nat, tag: nat)
      requires Valid() && c in clients
      modifies this
      ensures Valid() && View() == HandleReply(old(View()), c, tag)
    {
      var cl := clients[c];
      if tag !in cl.cmds { return; }
      if cl.eta != Some(tag) {
        crashed := true;
        return;
      }
      clients := clients[c := cl.(listed := false, eta := None, cmds := cl.cmds - {tag})];
      var live := Dec(tag);
    }

    method CmdTimeout(c: nat, tag: nat)
      requires Valid() && c in clients
      modifies this
      ensures Valid() && View() == HandleTimeout(old(View()), c, tag)
    {
      var cl := clients[c];
      if tag !in cl.cmds { return; }
      clients := clients[c := cl.(listed := false, eta := None, cmds := cl.cmds - {tag})];
      if cl.eta.Some? { var live := Dec(cl.eta.value); }
    }

    /** nth is the position of the client on the list. */
    method Remove(nth: nat)
      requires Valid() && nth < |list|
      modifies this
      ensures Valid() && View() == RemoveClient(old(View()), old(list)[nth])
    {
      var c := list[nth];
      var cl := clients[c];
      list := list[..nth] + list[nth + 1..];
      clients := clients - {c};
      assert Valid();
      if cl.listed {
        if cl.eta.None? { crashed := true; } else { var live := Dec(cl.eta.value); }
      }
    }

    /** The loop that settles the skipped clients, until the round is gone. */
    method Discount(r: nat, n: nat)
      requires Valid() && !crashed && r in pending && pending[r] >= n
      modifies this`pending, this`shown, this`crashed
      ensures Valid() && View() == Settle(old(View()), r, n)
    {
      var skipped := n;
      while skipped > 0
        invariant skipped >= 0 && Valid() && !crashed
        invariant r in pending && pending[r] >= skipped
        invariant Settle(old(View()), r, n) == Settle(View(), r, skipped)
      {
        var live := Dec(r);
        skipped := skipped - 1;
        if !live { break; }
      }
    }

    /** What remains once the loop has gone through all clients. */
    method StartRound(asked: map<nat, Client>, skipped: nat, ghost unsent: set<nat>)
      requires Valid() && !crashed && !AnyStale(clients)
      requires (asked, skipped) == AskFrom(list, clients, 0, 0, nextRound, unsent)
      modifies this
      ensures Valid() && View() == RequestEtas(old(View()), unsent)
    {
      var r := nextRound;
      KeysCount(list, clients);
      ghost var stuck := |Stuck(clients)|;
      nextRound := nextRound + 1;
      origins := origins + [Origin(|list|, stuck)];
      pending := pending[r := |list|];
      AskedEverybody(list, clients, r, unsent);
      clients := asked;
      Discount(r, skipped);
    }

    /** A failed assert ends the program, so what the loop changed before it is dropped. */
    method Request(unsent: set<nat>)
      requires Valid() && !crashed
      modifies this
      ensures Valid() && View() == RequestEtas(old(View()), unsent)
    {
      var asked, skipped, failed := AskIdle(list, clients, nextRound, unsent);
      assert failed <==> AnyStale(clients) by { assert forall c :: c in clients <==> c in list; }
      if failed { crashed := true; } else { StartRound(asked, skipped, unsent); }
    }
  }

  /** Asking one more client; a busy or stopped one stays as it is. */
  lemma AskStep(cs: map<nat, Client>, part: set<nat>, c: nat, r: nat, unsent: set<nat>)
    requires c in cs && c !in part
    ensures AskAll(cs, part, r, unsent).Keys == cs.Keys && AskAll(cs, part, r, unsent)[c] == cs[c]
    ensures AskAll(cs, part + {c}, r, unsent) == AskAll(cs, part, r, unsent)[c := Asked(cs[c], r, c !in unsent)]
  {
  }

  /** Nothing is asked before the loop, everybody after it. */
  lemma WholePrefix(list: seq<nat>, cs: map<nat, Client>, r: nat, unsent: set<nat>)
    requires forall c :: c in cs <==> c in list
    ensures AskAll(cs, Prefix(list, 0), r, unsent) == cs && Busy(cs) * Prefix(list, 0) == {}
    ensures Prefix(list, |list|) == cs.Keys && Busy(cs) * Prefix(list, |list|) == Busy(cs)
  {
    assert list[..|list|] == list;
  }

  lemma AskedEverybody(list: seq<nat>, cs: map<nat, Client>, r: nat, unsent: set<nat>)
    requires forall c :: c in cs <==> c in list
    requires forall a, b :: 0 <= a < b < |list| ==> list[a] != list[b]
    ensures AskFrom(list, cs, 0, 0, r, unsent) == (AskAll(cs, cs.Keys, r, unsent), |Busy(cs)|)
  {
    WholePrefix(list, cs, r, unsent);
    AskFromAll(list, cs, 0, r, unsent);
  }

  lemma LoopStep(list: seq<nat>, cs: map<nat, Client>, i: nat, r: nat, unsent: set<nat>)
    requires i < |list| && forall c :: c in cs <==> c in list
    requires forall a, b :: 0 <= a < b < |list| ==> list[a] != list[b]
    ensures var c, now := list[i], AskAll(cs, Prefix(list, i), r, unsent);
      && c in now
      && AskAll(cs, Prefix(list, i + 1), r, unsent) == now[c := Asked(now[c], r, c !in unsent)]
      && |Busy(cs) * Prefix(list, i + 1)| == |Busy(cs) * Prefix(list, i)| + if now[c].listed then 1 else 0
  {
    assert list[i] in cs;
    PrefixGrows(list, i, Busy(cs));
    AskStep(cs, Prefix(list, i), list[i], r, unsent);
  }

  lemma PrefixGrows(list: seq<nat>, i: nat, busy: set<nat>)
    requires i < |list|
    requires forall a, b :: 0 <= a < b < |list| ==> list[a] != list[b]
    ensures Prefix(list, i + 1) == Prefix(list, i) + {list[i]} && list[i] !in Prefix(list, i)
    ensures |busy * Prefix(list, i + 1)| == |busy * Prefix(list, i)| + if list[i] in busy then 1 else 0
  {
    var c := list[i];
    assert list[..i + 1] == list[..i] + [c];
    assert busy * Prefix(list, i + 1) == if c in busy then busy * Prefix(list, i) + {c} else busy * Prefix(list, i);
  }

  ghost function Prefix(list: seq<nat>, i: nat): set<nat>
    requires i <= |list|
  {
    set c | c in list[..i]
  }

  lemma {:induction false} ListSize(list: seq<nat>, keys: set<nat>)
    requires forall a, b :: 0 <= a < b < |list| ==> list[a] != list[b]
    requires forall c :: c in keys <==> c in list
    ensures |keys| == |list|
    decreases |list|
  {
    if list != [] {
      var c := list[0];
      assert forall d :: d in keys - {c} <==> d in list[1..];
      ListSize(list[1..], keys - {c});
    }
  }

  lemma KeysCount(list: seq<nat>, cs: map<nat, Client>)
    requires forall a, b :: 0 <= a < b < |list| ==> list[a] != list[b]
    requires forall c :: c in cs <==> c in list
    ensures |cs| == |list| && |Busy(cs)| <= |cs|
  {
    ListSize(list, cs.Keys);
    Partition(cs);
  }
}
