/** The driver of route synchronisation and the route table as one machine.

    Whenever the driver flushes, the update is really built by the table, and whenever the core settles
    a transaction, the table is told which update was answered. So nothing has to be assumed of the
    order in which responses reach the table: the driver's single flight provides it, and what an update
    withholds is safe in every run of the two together. The machine is that of one network; no step
    of the relay concerns two. */
module RelayRuns {
  import opened Words
  import opened ConnBitmap
  import opened RouteTable
  import opened RouteInvariants
  import opened RouteAcks
  import Driver = RouteSync
  import Runs = RouteSyncRuns

  /** The relay's id, what it says of itself, and the network. */
  datatype Site = Site(me: PeerId, info: RouteInfo, network: string)

  /** `trail` is all that happened to the table, `at` says which of its updates a numbered build was. */
  datatype Relay = Relay(
    sys: Driver.Sys,
    log: seq<Driver.Entry>,
    clock: nat,
    trail: seq<WorldEvent>,
    at: map<nat, nat>)

  const NEW_RELAY := Relay(Driver.EMPTY_SYS, [], 0, [], map[])

  /** What an attempt to send takes from outside: the connection's session id, the random transaction
      ids, and whether the transport takes the packet. */
  datatype Chance = Chance(sid: u64, draws: seq<nat>, sent: bool)

  datatype RelayEvent =
    | Joins(id: PeerId, now: nat)
    | Leaves(id: PeerId, now: nat)
    | Requested(id: PeerId, full: bool, now: nat, x: Chance)
    | Maintained(id: PeerId, now: nat, x: Chance)
    | Answered(id: PeerId, tx: nat, kind: Driver.ResponseKind, sid: u64, weAreInitiator: bool, now: nat, x: Chance)
    | Cleaned(order: seq<PeerId>, now: nat, xs: PeerId -> Chance)
    | Reported(from: PeerId, req: SyncRequest, now: nat)
    | Restyled(details: int, now: nat)

  function PeerOf(c: Site, id: PeerId): Driver.Peer {
    Driver.Peer(c.network, id)
  }

  function Routes(c: Site, r: Relay): World {
    RunWorld(c.info, c.me, r.trail)
  }

  // ----- steps

  function Noted(r: Relay, ev: WorldEvent): Relay {
    r.(trail := r.trail + [ev])
  }

  /** Whether the table can build is what the driver learns. */
  function AttemptOf(c: Site, r: Relay, id: PeerId, now: nat, x: Chance): Driver.Attempt
    requires PeerOf(c, id) in r.sys.states
  {
    var full := r.sys.states[PeerOf(c, id)].forceFull;
    Driver.Attempt(Build(Routes(c, r).g, c.me, id, x.sid, full, now).1.Some?, x.draws, x.sent)
  }

  function Flush(c: Site, r: Relay, id: PeerId, now: nat, x: Chance): Relay
    requires PeerOf(c, id) in r.sys.states
  {
    var s := r.sys.states[PeerOf(c, id)];
    var f := Driver.Flush(r.sys, PeerOf(c, id), now, AttemptOf(c, r, id, now, x));
    r.(sys := f.sys,
       log := r.log + f.entries,
       trail := if Driver.Wants(s) then r.trail + [BuildFor(id, x.sid, s.forceFull, now)] else r.trail,
       at := if f.sys.builds > r.sys.builds then r.at[r.sys.builds := |Routes(c, r).built|] else r.at)
  }

  function Request(c: Site, r: Relay, id: PeerId, full: bool, now: nat, x: Chance): Relay {
    var p := PeerOf(c, id);
    Flush(c, r.(sys := Driver.Mark(r.sys, p, full), log := r.log + [Driver.Requested(p, full)]), id, now, x)
  }

  function Maintain(c: Site, r: Relay, id: PeerId, now: nat, x: Chance): Relay {
    var p := PeerOf(c, id);
    if p !in r.sys.states || r.sys.states[p].inFlight
       || SatSub(now, r.sys.states[p].lastCompletedAt) < Driver.ROUTE_MAINTENANCE_INTERVAL_MS
    then r
    else Request(c, r, id, false, now, x)
  }

  function Settle(c: Site, r: Relay, id: PeerId, tx: nat, kind: Driver.ResponseKind, sid: u64, weAreInitiator: bool,
                  now: nat)
    : Relay
  {
    var key := Driver.TxKey(PeerOf(c, id), tx);
    var answer := Driver.Answer(r.sys, PeerOf(c, id), tx, kind, now);
    var settled := r.(sys := answer.sys, log := r.log + answer.entries);
    if answer.ok && kind.Accepted? && r.sys.outstanding[key].build in r.at
    then Noted(settled, Answer(id, sid, weAreInitiator, r.at[r.sys.outstanding[key].build], now))
    else settled
  }

  function Respond(c: Site, r: Relay, id: PeerId, tx: nat, kind: Driver.ResponseKind, sid: u64, weAreInitiator: bool,
                   now: nat, x: Chance)
    : Relay
  {
    var p := PeerOf(c, id);
    var settled := Settle(c, r, id, tx, kind, sid, weAreInitiator, now);
    if !Driver.Answer(r.sys, p, tx, kind, now).ok then settled
    else
      var landed := settled.(sys := Driver.Land(settled.sys, p, now));
      if p !in landed.sys.states then landed else Flush(c, landed, id, now, x)
  }

  function RetryOne(c: Site, r: Relay, id: PeerId, now: nat, x: Chance): Relay {
    var p := PeerOf(c, id);
    if p !in r.sys.states || !Driver.Overdue(r.sys.states[p], now) then r
    else Flush(c, r.(sys := Driver.Reopen(r.sys, p)), id, now, x)
  }

  function Retry(c: Site, r: Relay, order: seq<PeerId>, now: nat, xs: PeerId -> Chance): Relay {
    if order == [] then r
    else
      var last := order[|order| - 1];
      RetryOne(c, Retry(c, r, order[..|order| - 1], now, xs), last, now, xs(last))
  }

  /** The core cleans its transactions and sweeps the table; then the driver retries what is overdue,
      for peers just swept as well. */
  function CleanExpired(c: Site, r: Relay, order: seq<PeerId>, now: nat, xs: PeerId -> Chance): Relay {
    var swept := r.(sys := r.sys.(outstanding := Driver.Cleaned(r.sys.outstanding, now)));
    Retry(c, Noted(swept, Table(SweepAt(now))), order, now, xs)
  }

  function Handle(c: Site, r: Relay, ev: RelayEvent): Relay {
    match ev
    case Joins(id, now) =>
      var out := Driver.AddPeer(r.sys, PeerOf(c, id));
      Noted(r.(sys := out.sys, log := r.log + out.entries), Table(Join(id, now)))
    case Leaves(id, now) =>
      var out := Driver.RemovePeer(r.sys, PeerOf(c, id));
      Noted(r.(sys := out.sys, log := r.log + out.entries), Table(Leave(id)))
    case Requested(id, full, now, x) => Request(c, r, id, full, now, x)
    case Maintained(id, now, x) => Maintain(c, r, id, now, x)
    case Answered(id, tx, kind, sid, weAreInitiator, now, x) => Respond(c, r, id, tx, kind, sid, weAreInitiator, now, x)
    case Cleaned(order, now, xs) => CleanExpired(c, r, order, now, xs)
    case Reported(from, req, now) => Noted(r, Table(Sync(from, req, now)))
    case Restyled(details, now) => Noted(r, Table(MyInfo(details)))
  }

  function StepRelay(c: Site, r: Relay, ev: RelayEvent): Relay {
    Handle(c, r, ev).(clock := if ev.Reported? || ev.Restyled? then r.clock else ev.now)
  }

  function RunRelay(c: Site, evs: seq<RelayEvent>): Relay {
    if evs == [] then NEW_RELAY else StepRelay(c, RunRelay(c, evs[..|evs| - 1]), evs[|evs| - 1])
  }

  predicate Distinct(order: seq<PeerId>) {
    forall i, j :: 0 <= i < j < |order| ==> order[i] != order[j]
  }

  /** Time does not go back; peers answer only what was sent to them; a peer is added anew only when
      none of its transactions is live; the retry loop meets each peer once. */
  ghost predicate Orderly(c: Site, r: Relay, ev: RelayEvent) {
    match ev
    case Joins(id, now) => r.clock <= now && Runs.NothingLive(r.sys, PeerOf(c, id), now)
    case Answered(id, tx, kind, sid, weAreInitiator, now, x) =>
      var key := Driver.TxKey(PeerOf(c, id), tx);
      r.clock <= now && (key in r.sys.outstanding ==> r.sys.outstanding[key].sent)
    case Cleaned(order, now, xs) => r.clock <= now && Distinct(order)
    case Reported(from, req, now) => true
    case Restyled(details, now) => true
    case _ => r.clock <= ev.now
  }

  ghost predicate OrderlyRelay(c: Site, evs: seq<RelayEvent>) {
    evs == [] ||
    (OrderlyRelay(c, evs[..|evs| - 1]) && Orderly(c, RunRelay(c, evs[..|evs| - 1]), evs[|evs| - 1]))
  }

  // ----- the driver's part is a run of the driver

  /** `r'` is `r` after the driver's call `out`. */
  predicate Follows(r: Relay, r': Relay, out: Driver.Out) {
    r'.sys == out.sys && r'.log == r.log + out.entries
  }

  lemma RequestFollows(c: Site, r: Relay, id: PeerId, full: bool, now: nat, x: Chance) returns (a: Driver.Attempt)
    ensures Follows(r, Request(c, r, id, full, now, x), Driver.SendRouteUpdate(r.sys, PeerOf(c, id), full, now, a))
  {
    var p := PeerOf(c, id);
    var marked := r.(sys := Driver.Mark(r.sys, p, full), log := r.log + [Driver.Requested(p, full)]);
    a := AttemptOf(c, marked, id, now, x);
    var f := Driver.Flush(marked.sys, p, now, a);
    hide AttemptOf, Driver.Flush;
    assert r.log + ([Driver.Requested(p, full)] + f.entries) == marked.log + f.entries;
  }

  lemma RespondFollows(c: Site, r: Relay, id: PeerId, tx: nat, kind: Driver.ResponseKind, sid: u64,
                       weAreInitiator: bool, now: nat, x: Chance)
    returns (a: Driver.Attempt)
    ensures Follows(r, Respond(c, r, id, tx, kind, sid, weAreInitiator, now, x),
                    Driver.HandleResponse(r.sys, PeerOf(c, id), tx, kind, now, a))
  {
    var p := PeerOf(c, id);
    var answer := Driver.Answer(r.sys, p, tx, kind, now);
    var settled := Settle(c, r, id, tx, kind, sid, weAreInitiator, now);
    assert Follows(r, settled, answer);
    hide Settle, Driver.Answer, AttemptOf, Driver.Flush;
    a := Driver.Attempt(false, [], false);
    if answer.ok {
      var landed := settled.(sys := Driver.Land(settled.sys, p, now));
      if p in landed.sys.states {
        a := AttemptOf(c, landed, id, now, x);
        var f := Driver.Flush(landed.sys, p, now, a);
        assert r.log + (answer.entries + f.entries) == landed.log + f.entries;
      }
    }
  }

  /** The retry loop depends only on the attempts of the peers it meets. */
  lemma {:induction false} RetryAgrees(sys: Driver.Sys, order: seq<Driver.Peer>, now: nat, f: Driver.Attempts,
                                       g: Driver.Attempts)
    requires forall p :: p in order ==> f(p) == g(p)
    ensures Driver.Retry(sys, order, now, f) == Driver.Retry(sys, order, now, g)
  {
    if order != [] {
      assert order[|order| - 1] in order;
      RetryAgrees(sys, order[..|order| - 1], now, f, g);
    }
  }

  function Peers(c: Site, order: seq<PeerId>): seq<Driver.Peer> {
    seq(|order|, i requires 0 <= i < |order| => PeerOf(c, order[i]))
  }

  lemma RetryOneFollows(c: Site, r: Relay, id: PeerId, now: nat, x: Chance) returns (a: Driver.Attempt)
    ensures Follows(r, RetryOne(c, r, id, now, x), Driver.RetryOne(r.sys, PeerOf(c, id), now, a))
  {
    var p := PeerOf(c, id);
    a := Driver.Attempt(false, [], false);
    hide AttemptOf, Driver.Flush;
    if p in r.sys.states && Driver.Overdue(r.sys.states[p], now) {
      a := AttemptOf(c, r.(sys := Driver.Reopen(r.sys, p)), id, now, x);
    }
  }

  /** One peer more, met after attempts that do not concern it. */
  lemma RetryNext(c: Site, r: Relay, order: seq<PeerId>, last: PeerId, now: nat, xs: PeerId -> Chance,
                  earlier: Driver.Attempts)
    returns (attempts: Driver.Attempts)
    requires last !in order
    requires Follows(r, Retry(c, r, order, now, xs), Driver.Retry(r.sys, Peers(c, order), now, earlier))
    ensures Follows(r, RetryOne(c, Retry(c, r, order, now, xs), last, now, xs(last)),
                    Driver.Retry(r.sys, Peers(c, order) + [PeerOf(c, last)], now, attempts))
  {
    var before := Retry(c, r, order, now, xs);
    hide RetryOne, Driver.RetryOne, Driver.Retry, Retry;
    var a := RetryOneFollows(c, before, last, now, xs(last));
    var p := PeerOf(c, last);
    attempts := q => if q == p then a else earlier(q);
    assert forall q :: q in Peers(c, order) ==> q != p;
    RetryAgrees(r.sys, Peers(c, order), now, earlier, attempts);
    Driver.RetrySnoc(r.sys, Peers(c, order), p, now, attempts);
    hide Peers;
    var out := Driver.Retry(r.sys, Peers(c, order), now, attempts);
    var one := Driver.RetryOne(out.sys, p, now, attempts(p));
    assert r.log + (out.entries + one.entries) == before.log + one.entries;
  }

  lemma {:induction false} RetryFollows(c: Site, r: Relay, order: seq<PeerId>, now: nat, xs: PeerId -> Chance)
    returns (attempts: Driver.Attempts)
    requires Distinct(order)
    ensures Follows(r, Retry(c, r, order, now, xs), Driver.Retry(r.sys, Peers(c, order), now, attempts))
  {
    if order == [] {
      attempts := p => Driver.Attempt(false, [], false);
    } else {
      var init, last := order[..|order| - 1], order[|order| - 1];
      var earlier := RetryFollows(c, r, init, now, xs);
      assert Peers(c, order) == Peers(c, init) + [PeerOf(c, last)];
      assert Retry(c, r, order, now, xs) == RetryOne(c, Retry(c, r, init, now, xs), last, now, xs(last));
      hide RetryOne, Driver.Retry, Retry, Peers;
      attempts := RetryNext(c, r, init, last, now, xs, earlier);
    }
  }

  /** Every event is at most one call of the driver. */
  lemma StepFollows(c: Site, r: Relay, ev: RelayEvent) returns (call: Option<Runs.Event>)
    requires Orderly(c, r, ev)
    ensures var r', t := StepRelay(c, r, ev), Runs.Trace(r.sys, r.log, r.clock);
            if call.None? then r'.sys == r.sys && r'.log == r.log && r'.clock == r.clock
            else Runs.Orderly(t, call.value) && Runs.Step(t, call.value) == Runs.Trace(r'.sys, r'.log, r'.clock)
  {
    hide Request, Respond, Retry, Driver.SendRouteUpdate, Driver.HandleResponse, Driver.Retry, Runs.NothingLive;
    assert r.log + [] == r.log;
    match ev {
      case Joins(id, now) => call := Some(Runs.Add(PeerOf(c, id), now));
      case Leaves(id, now) => call := Some(Runs.Remove(PeerOf(c, id), now));
      case Requested(id, full, now, x) =>
        var a := RequestFollows(c, r, id, full, now, x);
        call := Some(Runs.Request(PeerOf(c, id), full, now, a));
      case Maintained(id, now, x) =>
        var a := RequestFollows(c, r, id, false, now, x);
        call := Some(Runs.Maintain(PeerOf(c, id), now, a));
      case Answered(id, tx, kind, sid, weAreInitiator, now, x) =>
        var a := RespondFollows(c, r, id, tx, kind, sid, weAreInitiator, now, x);
        call := Some(Runs.Response(PeerOf(c, id), tx, kind, now, a));
      case Cleaned(order, now, xs) =>
        var swept := r.(sys := r.sys.(outstanding := Driver.Cleaned(r.sys.outstanding, now)));
        var attempts := RetryFollows(c, Noted(swept, Table(SweepAt(now))), order, now, xs);
        call := Some(Runs.Clean(Peers(c, order), now, attempts));
      case Reported(from, req, now) => call := None;
      case Restyled(details, now) => call := None;
    }
  }

  /** So the driver's part of an orderly run is an orderly run of the driver alone. */
  lemma {:induction false} RunFollows(c: Site, evs: seq<RelayEvent>) returns (calls: seq<Runs.Event>)
    requires OrderlyRelay(c, evs)
    ensures Runs.OrderlyRun(calls)
    ensures var r := RunRelay(c, evs); Runs.Run(calls) == Runs.Trace(r.sys, r.log, r.clock)
  {
    if evs == [] {
      calls := [];
    } else {
      var init, ev := evs[..|evs| - 1], evs[|evs| - 1];
      var before := RunFollows(c, init);
      hide StepRelay, Orderly, Runs.Step, Runs.Orderly;
      var call := StepFollows(c, RunRelay(c, init), ev);
      if call.None? {
        calls := before;
      } else {
        calls := before + [call.value];
        assert calls[..|calls| - 1] == before;
      }
    }
  }

  // ----- what the table is told

  /** From `r` to `r'` the books only grew, and for every update sent to a peer one was built for it, full or
      not alike. */
  ghost predicate Tells(c: Site, r: Relay, r': Relay) {
    && r.log <= r'.log && r.trail <= r'.trail
    && (forall i :: |r.log| <= i < |r'.log| && r'.log[i].Sent? ==> BuiltFor(c, r'.log[i], r'.trail, |r.trail|))
  }

  ghost predicate BuiltFor(c: Site, e: Driver.Entry, trail: seq<WorldEvent>, since: nat)
    requires e.Sent?
  {
    exists k :: since <= k < |trail| && trail[k].BuildFor? && PeerOf(c, trail[k].target) == e.peer
                && trail[k].forceFull == e.full && trail[k].now == e.at
  }

  lemma TellsTrans(c: Site, a: Relay, b: Relay, d: Relay)
    requires Tells(c, a, b) && Tells(c, b, d)
    ensures Tells(c, a, d)
  {
    forall i | |a.log| <= i < |d.log| && d.log[i].Sent?
      ensures BuiltFor(c, d.log[i], d.trail, |a.trail|)
    {
      if i < |b.log| {
        assert b.log[i] == d.log[i];
        var k :| |a.trail| <= k < |b.trail| && b.trail[k].BuildFor? && PeerOf(c, b.trail[k].target) == b.log[i].peer
                 && b.trail[k].forceFull == b.log[i].full && b.trail[k].now == b.log[i].at;
        assert d.trail[k] == b.trail[k];
      }
    }
  }

  lemma FlushTells(c: Site, r: Relay, id: PeerId, now: nat, x: Chance)
    requires PeerOf(c, id) in r.sys.states
    ensures Tells(c, r, Flush(c, r, id, now, x))
  {
    var r' := Flush(c, r, id, now, x);
    hide RunWorld, Build, Driver.NextTransactionId;
    forall i | |r.log| <= i < |r'.log| && r'.log[i].Sent?
      ensures BuiltFor(c, r'.log[i], r'.trail, |r.trail|)
    {
      assert r'.trail[|r.trail|] == BuildFor(id, x.sid, r.sys.states[PeerOf(c, id)].forceFull, now);
    }
  }

  lemma RequestTells(c: Site, r: Relay, id: PeerId, full: bool, now: nat, x: Chance)
    ensures Tells(c, r, Request(c, r, id, full, now, x))
  {
    var p := PeerOf(c, id);
    var marked := r.(sys := Driver.Mark(r.sys, p, full), log := r.log + [Driver.Requested(p, full)]);
    assert Tells(c, r, marked);
    hide Flush, Tells;
    FlushTells(c, marked, id, now, x);
    TellsTrans(c, r, marked, Request(c, r, id, full, now, x));
  }

  lemma {:induction false} RetryTells(c: Site, r: Relay, order: seq<PeerId>, now: nat, xs: PeerId -> Chance)
    ensures Tells(c, r, Retry(c, r, order, now, xs))
  {
    if order != [] {
      var init, last := order[..|order| - 1], order[|order| - 1];
      RetryTells(c, r, init, now, xs);
      var before := Retry(c, r, init, now, xs);
      var p := PeerOf(c, last);
      if p in before.sys.states && Driver.Overdue(before.sys.states[p], now) {
        FlushTells(c, before.(sys := Driver.Reopen(before.sys, p)), last, now, xs(last));
        assert Tells(c, before, RetryOne(c, before, last, now, xs(last)));
      }
      hide RetryOne, Tells;
      TellsTrans(c, r, before, Retry(c, r, order, now, xs));
    }
  }

  /** The first thing an event tells the table, if it always tells it something. */
  function FirstTold(ev: RelayEvent): Option<WorldEvent> {
    match ev
    case Joins(id, now) => Some(Table(Join(id, now)))
    case Leaves(id, now) => Some(Table(Leave(id)))
    case Cleaned(order, now, xs) => Some(Table(SweepAt(now)))
    case Reported(from, req, now) => Some(Table(Sync(from, req, now)))
    case Restyled(details, now) => Some(Table(MyInfo(details)))
    case _ => None
  }

  /** The table hears of everything: of joins, leaves, sweeps, requests and changes of the relay's info, of every
      update before it is sent, and of every update the driver commits, which is the one its number stands for. */
  lemma StepTells(c: Site, r: Relay, ev: RelayEvent)
    requires Good(c, r)
    ensures var r' := StepRelay(c, r, ev);
            && Tells(c, r, r')
            && (FirstTold(ev).Some? ==> |r'.trail| > |r.trail| && r'.trail[|r.trail|] == FirstTold(ev).value)
            && (ev.Answered? ==>
                  forall i :: |r.log| <= i < |r'.log| && r'.log[i].Committed? ==>
                    && r'.log[i].build in r.at && |r'.trail| > |r.trail|
                    && r'.trail[|r.trail|] == Answer(ev.id, ev.sid, ev.weAreInitiator, r.at[r'.log[i].build], ev.now))
  {
    hide Good, Request, Respond, Retry, RunWorld;
    var r' := StepRelay(c, r, ev);
    match ev {
      case Requested(id, full, now, x) => RequestTells(c, r, id, full, now, x);
      case Maintained(id, now, x) => RequestTells(c, r, id, false, now, x);
      case Answered(id, tx, kind, sid, weAreInitiator, now, x) =>
        RespondTells(c, r, id, tx, kind, sid, weAreInitiator, now, x);
      case Cleaned(order, now, xs) =>
        var swept := r.(sys := r.sys.(outstanding := Driver.Cleaned(r.sys.outstanding, now)));
        var noted := Noted(swept, Table(SweepAt(now)));
        RetryTells(c, noted, order, now, xs);
        assert Tells(c, r, noted);
        hide Tells;
        TellsTrans(c, r, noted, Retry(c, noted, order, now, xs));
        TellsGrows(c, noted, Retry(c, noted, order, now, xs));
        TellsClock(c, r, Handle(c, r, ev), r');
      case _ =>
    }
  }

  lemma TellsGrows(c: Site, r: Relay, r': Relay)
    requires Tells(c, r, r')
    ensures r.trail <= r'.trail
  {
  }

  lemma TellsClock(c: Site, r: Relay, a: Relay, b: Relay)
    requires Tells(c, r, a) && b == a.(clock := b.clock)
    ensures Tells(c, r, b)
  {
  }

  lemma RespondTells(c: Site, r: Relay, id: PeerId, tx: nat, kind: Driver.ResponseKind, sid: u64, weAreInitiator: bool,
                     now: nat, x: Chance)
    requires Good(c, r)
    ensures var r' := Respond(c, r, id, tx, kind, sid, weAreInitiator, now, x);
            && Tells(c, r, r')
            && forall i :: |r.log| <= i < |r'.log| && r'.log[i].Committed? ==>
                 && r'.log[i].build in r.at && |r'.trail| > |r.trail|
                 && r'.trail[|r.trail|] == Answer(id, sid, weAreInitiator, r.at[r'.log[i].build], now)
  {
    var p := PeerOf(c, id);
    var settled := Settle(c, r, id, tx, kind, sid, weAreInitiator, now);
    assert Driver.TxKey(p, tx) in r.sys.outstanding ==> r.sys.outstanding[Driver.TxKey(p, tx)].build in r.at;
    hide Good, Flush, RunWorld;
    assert Tells(c, r, settled);
    var landed := settled.(sys := Driver.Land(settled.sys, p, now));
    if Driver.Answer(r.sys, p, tx, kind, now).ok && p in landed.sys.states {
      FlushTells(c, landed, id, now, x);
      FlushDoesNotCommit(c, landed, id, now, x);
      assert Tells(c, r, landed);
      TellsTrans(c, r, landed, Flush(c, landed, id, now, x));
    }
  }

  lemma FlushDoesNotCommit(c: Site, r: Relay, id: PeerId, now: nat, x: Chance)
    requires PeerOf(c, id) in r.sys.states
    ensures var r' := Flush(c, r, id, now, x);
            r.log <= r'.log && r.trail <= r'.trail && forall i :: |r.log| <= i < |r'.log| ==> !r'.log[i].Committed?
  {
    hide RunWorld, Build, Driver.NextTransactionId;
  }

  /** The acknowledgement is a commit of the driver, of the update of that number, built for that peer. */
  ghost predicate Committed(c: Site, log: seq<Driver.Entry>, at: map<nat, nat>, a: Ack) {
    exists i :: 0 <= i < |log| && log[i].Committed? && log[i].peer == PeerOf(c, a.peer) && log[i].build in at
                && at[log[i].build] == a.idx
  }

  /** Builds are numbered in the order of the table's updates, what is outstanding is an update built for
      that peer, and what was acknowledged was committed. */
  ghost predicate Linked(c: Site, r: Relay, w: World) {
    && (forall b :: b in r.at ==> b < r.sys.builds && r.at[b] < |w.built|)
    && (forall a, b :: a in r.at && b in r.at && a < b ==> r.at[a] < r.at[b])
    && (forall k :: k in r.sys.outstanding ==>
          && k.peer.network == c.network
          && r.sys.outstanding[k].build in r.at
          && w.built[r.at[r.sys.outstanding[k].build]].target == k.peer.id)
    && (forall n :: 0 <= n < |w.acks| ==>
          && w.acks[n].idx < |w.built| && w.built[w.acks[n].idx].target == w.acks[n].peer
          && Committed(c, r.log, r.at, w.acks[n]))
  }

  lemma CommittedStays(c: Site, log: seq<Driver.Entry>, at: map<nat, nat>, log': seq<Driver.Entry>, at': map<nat, nat>,
                       a: Ack)
    requires Committed(c, log, at, a) && log <= log' && forall b :: b in at ==> b in at' && at'[b] == at[b]
    ensures Committed(c, log', at', a)
  {
    var i :| 0 <= i < |log| && log[i].Committed? && log[i].peer == PeerOf(c, a.peer) && log[i].build in at
             && at[log[i].build] == a.idx;
    assert log'[i] == log[i];
  }

  /** Steps of the driver that build nothing, and of the table that neither build nor acknowledge. */
  lemma QuietLinks(c: Site, r: Relay, w: World, r': Relay, w': World)
    requires Linked(c, r, w) && r'.at == r.at && r.log <= r'.log && r'.sys.builds >= r.sys.builds
    requires forall k :: k in r'.sys.outstanding ==>
             k in r.sys.outstanding && r'.sys.outstanding[k] == r.sys.outstanding[k]
    requires w.built <= w'.built && w'.acks == w.acks
    ensures Linked(c, r', w')
  {
    hide Committed;
    forall n | 0 <= n < |w'.acks|
      ensures Committed(c, r'.log, r'.at, w'.acks[n])
    {
      CommittedStays(c, r.log, r.at, r'.log, r'.at, w.acks[n]);
    }
  }

  /** One update more, outstanding under the next number. */
  lemma BuildLinks(c: Site, r: Relay, w: World, r': Relay, w': World, key: Driver.TxKey, b: Built)
    requires Linked(c, r, w) && r.log <= r'.log
    requires w'.built == w.built + [b] && w'.acks == w.acks
    requires key.peer == PeerOf(c, b.target) && key in r'.sys.outstanding
             && r'.sys.outstanding[key].build == r.sys.builds
    requires r'.sys.builds == r.sys.builds + 1 && r'.at == r.at[r.sys.builds := |w.built|]
    requires forall k :: k in r'.sys.outstanding && k != key ==>
               k in r.sys.outstanding && r'.sys.outstanding[k] == r.sys.outstanding[k]
    ensures Linked(c, r', w')
  {
    hide Committed;
    forall n | 0 <= n < |w'.acks|
      ensures Committed(c, r'.log, r'.at, w'.acks[n])
    {
      CommittedStays(c, r.log, r.at, r'.log, r'.at, w.acks[n]);
    }
  }

  /** What is known of the machine between steps. */
  ghost predicate Good(c: Site, r: Relay) {
    Linked(c, r, Routes(c, r)) && OrderedRun(c.info, c.me, r.trail)
  }

  lemma QuietIsGood(c: Site, r: Relay, r': Relay)
    requires Good(c, r) && r'.trail == r.trail && r'.at == r.at && r.log <= r'.log && r'.sys.builds >= r.sys.builds
    requires forall k :: k in r'.sys.outstanding ==>
             k in r.sys.outstanding && r'.sys.outstanding[k] == r.sys.outstanding[k]
    ensures Good(c, r')
  {
    hide Linked;
    QuietLinks(c, r, Routes(c, r), r', Routes(c, r'));
  }

  lemma NotedIsGood(c: Site, r: Relay, ev: TableEvent)
    requires Good(c, r)
    ensures Good(c, Noted(r, Table(ev)))
  {
    hide Linked;
    RunStep(c.info, c.me, r.trail, Table(ev));
    QuietLinks(c, r, Routes(c, r), Noted(r, Table(ev)), Routes(c, Noted(r, Table(ev))));
  }

  lemma FlushIsGood(c: Site, r: Relay, id: PeerId, now: nat, x: Chance)
    requires Good(c, r) && PeerOf(c, id) in r.sys.states
    ensures Good(c, Flush(c, r, id, now, x))
  {
    var p := PeerOf(c, id);
    var s := r.sys.states[p];
    var w, r' := Routes(c, r), Flush(c, r, id, now, x);
    hide Linked, Build, Driver.NextTransactionId, RunWorld, OrderedRun;
    if Driver.Wants(s) {
      var ev := BuildFor(id, x.sid, s.forceFull, now);
      RunStep(c.info, c.me, r.trail, ev);
      var w' := Routes(c, r');
      if r'.sys.builds > r.sys.builds {
        var cleaned := Driver.Cleaned(r.sys.outstanding, now);
        var tx := Driver.NextTransactionId(cleaned, p, x.draws).value;
        BuildLinks(c, r, w, r', w', Driver.TxKey(p, tx), w'.built[|w.built|]);
      } else {
        QuietLinks(c, r, w, r', w');
      }
    } else {
      QuietLinks(c, r, w, r', w);
    }
  }

  lemma RequestIsGood(c: Site, r: Relay, id: PeerId, full: bool, now: nat, x: Chance)
    requires Good(c, r)
    ensures Good(c, Request(c, r, id, full, now, x))
  {
    hide Good, Flush;
    var p := PeerOf(c, id);
    var marked := r.(sys := Driver.Mark(r.sys, p, full), log := r.log + [Driver.Requested(p, full)]);
    QuietIsGood(c, r, marked);
    FlushIsGood(c, marked, id, now, x);
  }

  /** The committed update is newer than any the peer has acknowledged: the driver commits in build order. */
  lemma CommitIsInOrder(c: Site, r: Relay, id: PeerId, build: nat, now: nat, ev: WorldEvent)
    requires Linked(c, r, Routes(c, r)) && build in r.at && ev.Answer? && ev.peer == id && ev.idx == r.at[build]
    requires Runs.InBuildOrder(r.log + [Driver.Committed(PeerOf(c, id), build, now)])
    ensures InOrder(Routes(c, r), ev)
  {
    var w := Routes(c, r);
    var log := r.log + [Driver.Committed(PeerOf(c, id), build, now)];
    hide Routes;
    forall n | 0 <= n < |w.acks| && w.acks[n].peer == id
      ensures w.acks[n].idx <= ev.idx
    {
      var i :| 0 <= i < |r.log| && r.log[i].Committed? && r.log[i].peer == PeerOf(c, id) && r.log[i].build in r.at
               && r.at[r.log[i].build] == w.acks[n].idx;
      assert log[i] == r.log[i] && log[|r.log|].build == build;
    }
  }

  lemma CommitLinks(c: Site, r: Relay, w: World, r': Relay, w': World, key: Driver.TxKey, a: Ack, now: nat)
    requires Linked(c, r, w) && key in r.sys.outstanding && key.peer == PeerOf(c, a.peer)
    requires r.sys.outstanding[key].build in r.at && a.idx == r.at[r.sys.outstanding[key].build]
    requires r'.at == r.at && r'.sys.builds == r.sys.builds && r'.sys.outstanding == r.sys.outstanding - {key}
    requires r.log + [Driver.Committed(key.peer, r.sys.outstanding[key].build, now)] <= r'.log
    requires w'.built == w.built && w'.acks == w.acks + [a]
    ensures Linked(c, r', w')
  {
    assert r'.log[|r.log|] == Driver.Committed(key.peer, r.sys.outstanding[key].build, now);
    assert Committed(c, r'.log, r'.at, a);
    hide Committed;
    forall n | 0 <= n < |w.acks|
      ensures Committed(c, r'.log, r'.at, w.acks[n])
    {
      CommittedStays(c, r.log, r.at, r'.log, r'.at, w.acks[n]);
    }
  }

  /** The driver's invariants at a moment `now`. */
  ghost predicate DriverGood(r: Relay, now: nat) {
    Runs.Ordered(r.sys, r.log) && Runs.CommitsSound(r.sys, r.log) && Runs.SingleFlight(r.sys, r.log, now)
  }

  lemma SettleIsGood(c: Site, r: Relay, id: PeerId, tx: nat, kind: Driver.ResponseKind, sid: u64, weAreInitiator: bool,
                     now: nat)
    requires Good(c, r) && DriverGood(r, now)
    requires var key := Driver.TxKey(PeerOf(c, id), tx); key in r.sys.outstanding ==> r.sys.outstanding[key].sent
    ensures Good(c, Settle(c, r, id, tx, kind, sid, weAreInitiator, now))
  {
    var p := PeerOf(c, id);
    var key := Driver.TxKey(p, tx);
    var answer := Driver.Answer(r.sys, p, tx, kind, now);
    var r' := Settle(c, r, id, tx, kind, sid, weAreInitiator, now);
    if answer.ok && kind.Accepted? {
      assert Good(c, r) && r.sys.outstanding[key].build in r.at;
      var build := r.sys.outstanding[key].build;
      var ev := Answer(id, sid, weAreInitiator, r.at[build], now);
      InOrderAfter(r, p, tx, kind, now);
      CommitIsInOrder(c, r, id, build, now, ev);
      RunStep(c.info, c.me, r.trail, ev);
      assert r.at[build] < |Routes(c, r).built|;
      hide Linked, RunWorld, OrderedRun, InOrder, DriverGood, Acknowledge;
      CommitLinks(c, r, Routes(c, r), r', Routes(c, r'), key, Ack(id, sid, r.at[build], now), now);
    } else {
      hide Good, DriverGood;
      QuietIsGood(c, r, r');
    }
  }

  lemma InOrderAfter(r: Relay, p: Driver.Peer, tx: nat, kind: Driver.ResponseKind, now: nat)
    requires DriverGood(r, now) && Driver.Answer(r.sys, p, tx, kind, now).ok && kind.Accepted?
    requires var key := Driver.TxKey(p, tx); key in r.sys.outstanding ==> r.sys.outstanding[key].sent
    ensures Runs.InBuildOrder(r.log + [Driver.Committed(p, r.sys.outstanding[Driver.TxKey(p, tx)].build, now)])
  {
    hide Runs.Ordered, Runs.CommitsSound, Runs.SingleFlight;
    Runs.CommitKeepsOrder(r.sys, r.log, Driver.Answer(r.sys, p, tx, kind, now).sys, Driver.TxKey(p, tx), now);
    OrderedIsInOrder(Driver.Answer(r.sys, p, tx, kind, now).sys,
                     r.log + [Driver.Committed(p, r.sys.outstanding[Driver.TxKey(p, tx)].build, now)]);
  }

  lemma OrderedIsInOrder(sys: Driver.Sys, log: seq<Driver.Entry>)
    requires Runs.Ordered(sys, log)
    ensures Runs.InBuildOrder(log)
  {
  }

  lemma RespondIsGood(c: Site, r: Relay, id: PeerId, tx: nat, kind: Driver.ResponseKind, sid: u64,
                      weAreInitiator: bool, now: nat, x: Chance)
    requires Good(c, r) && DriverGood(r, now)
    requires var key := Driver.TxKey(PeerOf(c, id), tx); key in r.sys.outstanding ==> r.sys.outstanding[key].sent
    ensures Good(c, Respond(c, r, id, tx, kind, sid, weAreInitiator, now, x))
  {
    hide Good, DriverGood, Flush, Settle, Driver.Answer;
    SettleIsGood(c, r, id, tx, kind, sid, weAreInitiator, now);
    var settled := Settle(c, r, id, tx, kind, sid, weAreInitiator, now);
    var landed := settled.(sys := Driver.Land(settled.sys, PeerOf(c, id), now));
    QuietIsGood(c, settled, landed);
    if PeerOf(c, id) in landed.sys.states {
      FlushIsGood(c, landed, id, now, x);
    }
  }

  lemma {:induction false} RetryIsGood(c: Site, r: Relay, order: seq<PeerId>, now: nat, xs: PeerId -> Chance)
    requires Good(c, r)
    ensures Good(c, Retry(c, r, order, now, xs))
  {
    hide Good, Flush;
    if order != [] {
      var init, last := order[..|order| - 1], order[|order| - 1];
      RetryIsGood(c, r, init, now, xs);
      var before := Retry(c, r, init, now, xs);
      var p := PeerOf(c, last);
      if p in before.sys.states && Driver.Overdue(before.sys.states[p], now) {
        var reopened := before.(sys := Driver.Reopen(before.sys, p));
        QuietIsGood(c, before, reopened);
        FlushIsGood(c, reopened, last, now, xs(last));
      }
    }
  }

  lemma StepIsGood(c: Site, r: Relay, ev: RelayEvent)
    requires Good(c, r) && Orderly(c, r, ev) && DriverGood(r, if ev.Reported? || ev.Restyled? then r.clock else ev.now)
    ensures Good(c, StepRelay(c, r, ev))
  {
    hide Good, DriverGood, Request, Respond, Retry, Runs.NothingLive;
    match ev {
      case Joins(id, now) =>
        var out := Driver.AddPeer(r.sys, PeerOf(c, id));
        var added := r.(sys := out.sys, log := r.log + out.entries);
        QuietIsGood(c, r, added);
        NotedIsGood(c, added, Join(id, now));
      case Leaves(id, now) =>
        var out := Driver.RemovePeer(r.sys, PeerOf(c, id));
        var gone := r.(sys := out.sys, log := r.log + out.entries);
        QuietIsGood(c, r, gone);
        NotedIsGood(c, gone, Leave(id));
      case Requested(id, full, now, x) => RequestIsGood(c, r, id, full, now, x);
      case Maintained(id, now, x) => RequestIsGood(c, r, id, false, now, x);
      case Answered(id, tx, kind, sid, weAreInitiator, now, x) =>
        RespondIsGood(c, r, id, tx, kind, sid, weAreInitiator, now, x);
      case Cleaned(order, now, xs) =>
        var swept := r.(sys := r.sys.(outstanding := Driver.Cleaned(r.sys.outstanding, now)));
        QuietIsGood(c, r, swept);
        NotedIsGood(c, swept, SweepAt(now));
        RetryIsGood(c, Noted(swept, Table(SweepAt(now))), order, now, xs);
      case Reported(from, req, now) => NotedIsGood(c, r, Sync(from, req, now));
      case Restyled(details, now) => NotedIsGood(c, r, MyInfo(details));
    }
    QuietIsGood(c, Handle(c, r, ev), StepRelay(c, r, ev));
  }

  lemma DriverIsGood(c: Site, evs: seq<RelayEvent>, now: nat)
    requires OrderlyRelay(c, evs) && RunRelay(c, evs).clock <= now
    ensures DriverGood(RunRelay(c, evs), now)
  {
    var calls := RunFollows(c, evs);
    Runs.RunsStaySound(calls);
    Runs.CommitsOnceInTime(calls);
    Runs.CommitsInBuildOrder(calls);
    hide RunRelay, OrderlyRelay, Runs.Run, Runs.OrderlyRun, Runs.SingleFlight, Runs.NothingLost, Runs.Ordered,
        Runs.CommitsSound;
    var r := RunRelay(c, evs);
    Runs.LaterSound(r.sys, r.log, r.clock, now);
  }

  /** In every orderly run of driver and table together, responses reach the table in the order of the
      updates they answer, each for the peer the update was built for. */
  lemma {:induction false} ResponsesComeInOrder(c: Site, evs: seq<RelayEvent>)
    requires OrderlyRelay(c, evs)
    ensures Good(c, RunRelay(c, evs))
    ensures OrderedRun(c.info, c.me, RunRelay(c, evs).trail)
    ensures var w := Routes(c, RunRelay(c, evs));
            forall n :: 0 <= n < |w.acks| ==>
                w.acks[n].idx < |w.built| && w.built[w.acks[n].idx].target == w.acks[n].peer
  {
    if evs != [] {
      var init, ev := evs[..|evs| - 1], evs[|evs| - 1];
      ResponsesComeInOrder(c, init);
      assert Orderly(c, RunRelay(c, init), ev);
      DriverIsGood(c, init, if ev.Reported? || ev.Restyled? then RunRelay(c, init).clock else ev.now);
      hide Good, DriverGood, Orderly, StepRelay;
      StepIsGood(c, RunRelay(c, init), ev);
    }
    assert Good(c, RunRelay(c, evs));
  }

  /** So in every orderly run of the two together, whatever it builds and for whomever: unless the cache
      is spoiled, an update without connections leaves out only a topology that the current session
      acknowledged as it is now, within 60 s. */
  lemma RelayWithholdsSafely(c: Site, evs: seq<RelayEvent>, target: PeerId, sid: u64, forceFull: bool, now: nat)
    requires OrderlyRelay(c, evs) && LegalRun(c.info, c.me, RunRelay(c, evs).trail)
    ensures var w := Routes(c, RunRelay(c, evs));
            !SpoiledRun(c.info, c.me, RunRelay(c, evs).trail) ==>
              WithholdsTopology(w.g, c.me, target, sid, forceFull, now) ==> TopologyAcknowledged(w, c.me, target, now)
  {
    ResponsesComeInOrder(c, evs);
    if !SpoiledRun(c.info, c.me, RunRelay(c, evs).trail) {
      WithheldTopologyIsSafe(c.info, c.me, RunRelay(c, evs).trail, target, sid, forceFull, now);
    }
  }

  /** The same while the cache is spoiled: what was acknowledged has the current version, and describes the
      topology unless it is the spoiled matrix itself, built since the spoiling. */
  lemma RelayWithholdsWhatWasSent(c: Site, evs: seq<RelayEvent>, target: PeerId, sid: u64, forceFull: bool, now: nat)
    requires OrderlyRelay(c, evs) && LegalRun(c.info, c.me, RunRelay(c, evs).trail)
    ensures var w := Routes(c, RunRelay(c, evs));
            WithholdsTopology(w.g, c.me, target, sid, forceFull, now) ==>
              VersionAcknowledged(w, c.me, target, now, SpoiledSince(c.info, c.me, RunRelay(c, evs).trail))
  {
    ResponsesComeInOrder(c, evs);
    WithheldTopologyWasSent(c.info, c.me, RunRelay(c, evs).trail, target, sid, forceFull, now);
  }

  /** A peer that has just left may be added at any later time: nothing of it is live. The server removes a
      connection before it adds the one replacing it. */
  lemma JoinAfterLeaveIsOrderly(c: Site, r: Relay, id: PeerId, now: nat, later: nat)
    requires now <= later
    ensures Orderly(c, StepRelay(c, r, Leaves(id, now)), Joins(id, later))
  {
    var sys := StepRelay(c, r, Leaves(id, now)).sys;
    assert forall key: Driver.TxKey :: key in sys.outstanding ==> key.peer != PeerOf(c, id);
  }
}
