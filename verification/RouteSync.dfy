/** The per-peer route-synchronisation driver on top of the core's table of outstanding
    transactions.

    Two layers keep time independently: the driver's `inFlight` with its 3 s timeout, and the core's
    entry with its 3 s deadline. The functions here are the driver's calls on both layers at once,
    each in small steps; `RouteSyncRuns` proves what holds over whole runs. */
module RouteSync {
  import opened Words

  const ROUTE_RPC_TIMEOUT_MS: nat := 3_000
  const ROUTE_SYNC_TIMEOUT_MS: nat := 3_000
  const ROUTE_MAINTENANCE_INTERVAL_MS: nat := 10_000

  datatype Peer = Peer(network: string, id: u32)
  datatype TxKey = TxKey(peer: Peer, tx: nat)

  datatype SyncState = SyncState(inFlight: bool, dirty: bool, forceFull: bool, sentAt: nat, lastCompletedAt: nat)

  const IDLE := SyncState(false, false, false, 0, 0)

  /** A built update awaiting its response. `build` numbers the update, `sent` records that the
      transport took it. */
  datatype Outstanding = Outstanding(deadline: nat, build: nat, sent: bool)

  datatype Sys = Sys(states: map<Peer, SyncState>, outstanding: map<TxKey, Outstanding>, builds: nat)

  const EMPTY_SYS := Sys(map[], map[], 0)

  /** What the world contributes to one attempt: whether the route layer can build, the random
      transaction ids, and whether the transport takes the packet. */
  datatype Attempt = Attempt(buildable: bool, draws: seq<nat>, sent: bool)

  datatype ResponseKind = Unusable | RemoteError | Accepted

  datatype Entry =
    | Requested(peer: Peer, full: bool)
    | Built(peer: Peer, tx: nat, build: nat, deadline: nat)
    | Sent(peer: Peer, tx: nat, build: nat, full: bool, at: nat)
    | Answered(peer: Peer, tx: nat, build: nat, at: nat)
    | Committed(peer: Peer, build: nat, at: nat)
    | Reset(peer: Peer)

  /** The result of a call: the new state, what happened, and whether it returned normally. */
  datatype Out = Out(sys: Sys, entries: seq<Entry>, ok: bool)

  // ----- the core

  function Cleaned(o: map<TxKey, Outstanding>, now: nat): map<TxKey, Outstanding> {
    map k | k in o && now <= o[k].deadline :: o[k]
  }

  predicate FreeId(o: map<TxKey, Outstanding>, peer: Peer, tx: nat) {
    tx != 0 && TxKey(peer, tx) !in o
  }

  function NextTransactionId(o: map<TxKey, Outstanding>, peer: Peer, draws: seq<nat>): Option<nat> {
    if draws == [] then None
    else if FreeId(o, peer, draws[0]) then Some(draws[0])
    else NextTransactionId(o, peer, draws[1..])
  }

  lemma {:induction false} NextTransactionIdIsFree(o: map<TxKey, Outstanding>, peer: Peer, draws: seq<nat>)
    ensures NextTransactionId(o, peer, draws).Some? ==> FreeId(o, peer, NextTransactionId(o, peer, draws).value)
    ensures NextTransactionId(o, peer, draws).None? ==> forall i :: 0 <= i < |draws| ==> !FreeId(o, peer, draws[i])
  {
    if draws != [] && !FreeId(o, peer, draws[0]) {
      NextTransactionIdIsFree(o, peer, draws[1..]);
      assert forall i :: 1 <= i < |draws| ==> draws[i] == draws[1..][i - 1];
    }
  }

  // ----- the driver, in small steps

  function Mark(sys: Sys, peer: Peer, full: bool): Sys {
    var s := if peer in sys.states then sys.states[peer] else IDLE;
    sys.(states := sys.states[peer := s.(dirty := true, forceFull := s.forceFull || full)])
  }

  predicate Wants(s: SyncState) {
    !s.inFlight && (s.dirty || s.forceFull)
  }

  /** Build, and send if built. Nothing happens while an update is in flight or none is wanted. */
  function Flush(sys: Sys, peer: Peer, now: nat, a: Attempt): Out
    requires peer in sys.states
  {
    var s := sys.states[peer];
    if !Wants(s) then Out(sys, [], true)
    else
      var cleaned := Cleaned(sys.outstanding, now);
      var tx := NextTransactionId(cleaned, peer, a.draws);
      if !a.buildable || tx.None? then Out(sys.(outstanding := cleaned), [], false)
      else
        var build := sys.builds;
        var deadline := now + ROUTE_RPC_TIMEOUT_MS;
        var outstanding := cleaned[TxKey(peer, tx.value) := Outstanding(deadline, build, a.sent)];
        var built := Built(peer, tx.value, build, deadline);
        if a.sent then
          Out(Sys(sys.states[peer := s.(inFlight := true, dirty := false, forceFull := false, sentAt := now)],
                  outstanding, build + 1),
              [built, Sent(peer, tx.value, build, s.forceFull, now)], true)
        else
          Out(Sys(sys.states[peer := s.(dirty := true, sentAt := now)], outstanding, build + 1), [built], false)
  }

  function SendRouteUpdate(sys: Sys, peer: Peer, full: bool, now: nat, a: Attempt): Out {
    var f := Flush(Mark(sys, peer, full), peer, now, a);
    f.(entries := [Requested(peer, full)] + f.entries)
  }

  function MaintainPeer(sys: Sys, peer: Peer, now: nat, a: Attempt): Out {
    if peer !in sys.states || sys.states[peer].inFlight
       || SatSub(now, sys.states[peer].lastCompletedAt) < ROUTE_MAINTENANCE_INTERVAL_MS
    then Out(sys, [], true)
    else SendRouteUpdate(sys, peer, false, now, a)
  }

  /** The core's verdict on a response: `ok` says whether it settled a transaction. */
  function Answer(sys: Sys, peer: Peer, tx: nat, kind: ResponseKind, now: nat): Out {
    var key := TxKey(peer, tx);
    if key !in sys.outstanding then Out(sys, [], false)
    else
      var o := sys.outstanding[key];
      var without := sys.(outstanding := sys.outstanding - {key});
      if now > o.deadline then Out(without, [], false)
      else if kind.Unusable? then Out(sys, [], false)
      else if kind.RemoteError? then Out(without, [Answered(peer, tx, o.build, now)], true)
      else Out(without, [Committed(peer, o.build, now), Answered(peer, tx, o.build, now)], true)
  }

  function Land(sys: Sys, peer: Peer, now: nat): Sys {
    if peer !in sys.states then sys
    else sys.(states := sys.states[peer := sys.states[peer].(inFlight := false, sentAt := 0, lastCompletedAt := now)])
  }

  function HandleResponse(sys: Sys, peer: Peer, tx: nat, kind: ResponseKind, now: nat, a: Attempt): Out {
    var answer := Answer(sys, peer, tx, kind, now);
    if !answer.ok then answer.(ok := true)
    else
      var landed := Land(answer.sys, peer, now);
      if peer !in landed.states then Out(landed, answer.entries, true)
      else
        var f := Flush(landed, peer, now, a);
        f.(entries := answer.entries + f.entries)
  }

  predicate Overdue(s: SyncState, now: nat) {
    s.inFlight && SatSub(now, s.sentAt) > ROUTE_SYNC_TIMEOUT_MS
  }

  function Reopen(sys: Sys, peer: Peer): Sys
    requires peer in sys.states
  {
    sys.(states := sys.states[peer := sys.states[peer].(inFlight := false, dirty := true, forceFull := true)])
  }

  function RetryOne(sys: Sys, peer: Peer, now: nat, a: Attempt): Out {
    if peer !in sys.states || !Overdue(sys.states[peer], now) then Out(sys, [], true)
    else Flush(Reopen(sys, peer), peer, now, a)
  }

  type Attempts = Peer -> Attempt

  /** The retry loop over the first peers of `order`; failures are collected, not thrown. */
  function Retry(sys: Sys, order: seq<Peer>, now: nat, attempts: Attempts): Out {
    if order == [] then Out(sys, [], true)
    else
      var before := Retry(sys, order[..|order| - 1], now, attempts);
      var peer := order[|order| - 1];
      var one := RetryOne(before.sys, peer, now, attempts(peer));
      Out(one.sys, before.entries + one.entries, true)
  }

  function CleanExpired(sys: Sys, order: seq<Peer>, now: nat, attempts: Attempts): Out {
    Retry(sys.(outstanding := Cleaned(sys.outstanding, now)), order, now, attempts)
  }

  function AddPeer(sys: Sys, peer: Peer): Out {
    Out(sys.(states := sys.states - {peer}), [Reset(peer)], true)
  }

  function RemovePeer(sys: Sys, peer: Peer): Out {
    Out(sys.(states := sys.states - {peer},
             outstanding := map k | k in sys.outstanding && k.peer != peer :: sys.outstanding[k]),
        [Reset(peer)], true)
  }

  // ----- what the driver gets done

  /** The outside lets an update to this peer through: it can be built, some drawn id is free among the
      transactions not yet past their deadline, and the transport takes the packet. */
  ghost predicate LetsThrough(o: map<TxKey, Outstanding>, peer: Peer, now: nat, a: Attempt) {
    a.buildable && a.sent
    && exists i :: 0 <= i < |a.draws| && a.draws[i] != 0
                   && (TxKey(peer, a.draws[i]) in o ==> now > o[TxKey(peer, a.draws[i])].deadline)
  }

  /** An update was sent to this peer now, under a number of its own. */
  ghost predicate SentNow(entries: seq<Entry>, peer: Peer, full: bool, now: nat) {
    exists i, tx, build :: 0 <= i < |entries| && entries[i] == Sent(peer, tx, build, full, now)
  }

  /** Only this peer, and of its transactions only new ones and those past their deadline. */
  ghost predicate Touches(sys: Sys, sys': Sys, peer: Peer, now: nat) {
    && sys'.states.Keys == sys.states.Keys
    && (forall p :: p in sys.states && p != peer ==> sys'.states[p] == sys.states[p])
    && (forall k :: k in sys.outstanding && k !in sys'.outstanding ==> now > sys.outstanding[k].deadline)
    && (forall k :: k in sys'.outstanding && k.peer != peer ==>
          k in sys.outstanding && sys'.outstanding[k] == sys.outstanding[k])
  }

  /** A flush that is wanted sends whenever the outside lets it through, and is then in flight from now on,
      recorded for 3 s, with nothing more wanted; if it is not let through, the wish is kept. */
  lemma FlushSends(sys: Sys, peer: Peer, now: nat, a: Attempt)
    requires peer in sys.states && Wants(sys.states[peer])
    ensures var s, f := sys.states[peer], Flush(sys, peer, now, a);
            && Touches(sys, f.sys, peer, now)
            && (LetsThrough(sys.outstanding, peer, now, a) <==> SentNow(f.entries, peer, s.forceFull, now))
            && (if LetsThrough(sys.outstanding, peer, now, a)
                then f.ok && f.sys.states[peer]
                    == s.(inFlight := true, dirty := false, forceFull := false, sentAt := now)
                     && exists k :: k in f.sys.outstanding && k.peer == peer
                                    && f.sys.outstanding[k] == Outstanding(now + 3_000, sys.builds, true)
                else !f.ok && !f.sys.states[peer].inFlight && (f.sys.states[peer].dirty || f.sys.states[peer].forceFull)
                     && (s.dirty ==> f.sys.states[peer].dirty) && (s.forceFull ==> f.sys.states[peer].forceFull))
            && (forall e :: e in f.entries ==> e.peer == peer && (e.Built? || e.Sent?))
  {
    var cleaned := Cleaned(sys.outstanding, now);
    NextTransactionIdIsFree(cleaned, peer, a.draws);
    var tx := NextTransactionId(cleaned, peer, a.draws);
    if tx.Some? {
      NextTransactionIdIsDrawn(cleaned, peer, a.draws);
    }
    var f := Flush(sys, peer, now, a);
    hide NextTransactionId;
    if a.buildable && tx.Some? && a.sent {
      assert f.entries[1] == Sent(peer, tx.value, sys.builds, sys.states[peer].forceFull, now);
      assert TxKey(peer, tx.value) in f.sys.outstanding;
    }
  }

  lemma {:induction false} NextTransactionIdIsDrawn(o: map<TxKey, Outstanding>, peer: Peer, draws: seq<nat>)
    requires NextTransactionId(o, peer, draws).Some?
    ensures NextTransactionId(o, peer, draws).value in draws
  {
    if !FreeId(o, peer, draws[0]) {
      NextTransactionIdIsDrawn(o, peer, draws[1..]);
    }
  }

  /** A request to a peer with nothing in flight is sent at once, in full if that was ever asked; while
      something is in flight nothing is sent, and the wish is noted. */
  lemma RequestSends(sys: Sys, peer: Peer, full: bool, now: nat, a: Attempt)
    ensures var s := if peer in sys.states then sys.states[peer] else IDLE;
            var f := SendRouteUpdate(sys, peer, full, now, a);
            && peer in f.sys.states
            && (!s.inFlight && LetsThrough(sys.outstanding, peer, now, a) ==>
                  SentNow(f.entries, peer, full || s.forceFull, now) && f.sys.states[peer].inFlight)
            && (s.inFlight ==> (forall e :: e in f.entries ==> !e.Sent? && !e.Built?)
                               && f.sys.states[peer] == s.(dirty := true, forceFull := full || s.forceFull))
  {
    var s := if peer in sys.states then sys.states[peer] else IDLE;
    var marked := Mark(sys, peer, full);
    var f := Flush(marked, peer, now, a);
    if !s.inFlight {
      FlushSends(marked, peer, now, a);
      hide Flush;
      if LetsThrough(sys.outstanding, peer, now, a) {
        var i, tx, build :| 0 <= i < |f.entries| && f.entries[i] == Sent(peer, tx, build, full || s.forceFull, now);
        assert SendRouteUpdate(sys, peer, full, now, a).entries[i + 1] == f.entries[i];
      }
    }
  }

  /** Maintenance asks a synchronised peer again exactly when it has nothing in flight and has been
      answered, or never was, 10 s ago or more. */
  lemma MaintainSends(sys: Sys, peer: Peer, now: nat, a: Attempt)
    requires LetsThrough(sys.outstanding, peer, now, a)
    ensures var f := MaintainPeer(sys, peer, now, a);
            if peer in sys.states && !sys.states[peer].inFlight && now >= sys.states[peer].lastCompletedAt + 10_000
            then SentNow(f.entries, peer, sys.states[peer].forceFull, now)
            else f == Out(sys, [], true)
  {
    hide Flush;
    RequestSends(sys, peer, false, now, a);
  }

  /** What the core does with a response: it settles a transaction of that peer up to its deadline, commits
      the update if the response accepts it, and drops the transaction unless the response is unusable. */
  lemma AnswerSettles(sys: Sys, peer: Peer, tx: nat, kind: ResponseKind, now: nat)
    ensures var key := TxKey(peer, tx);
            var f := Answer(sys, peer, tx, kind, now);
            var known := key in sys.outstanding;
            var inTime := known && now <= sys.outstanding[key].deadline;
            && (f.ok <==> inTime && !kind.Unusable?)
            && (inTime && kind.Accepted? <==> exists e :: e in f.entries && e.Committed?)
            && (forall e :: e in f.entries && e.Committed? ==> e == Committed(peer, sys.outstanding[key].build, now))
            && f.sys.states == sys.states && f.sys.builds == sys.builds
            && (forall k :: k in f.sys.outstanding <==> k in sys.outstanding && (k == key ==> inTime && kind.Unusable?))
            && (forall k :: k in f.sys.outstanding ==> f.sys.outstanding[k] == sys.outstanding[k])
  {
    var f := Answer(sys, peer, tx, kind, now);
    if f.ok && kind.Accepted? {
      assert f.entries[0].Committed?;
    }
  }

  /** A settled transaction ends the flight of its peer, and what was wanted meanwhile is sent at once. */
  lemma ResponseReleases(sys: Sys, peer: Peer, tx: nat, kind: ResponseKind, now: nat, a: Attempt)
    requires peer in sys.states && Answer(sys, peer, tx, kind, now).ok
    ensures var s, f := sys.states[peer], HandleResponse(sys, peer, tx, kind, now, a);
            && peer in f.sys.states && f.sys.states[peer].lastCompletedAt == now
            && (!s.dirty && !s.forceFull ==> !f.sys.states[peer].inFlight)
            && ((s.dirty || s.forceFull) && LetsThrough(sys.outstanding, peer, now, a) ==>
                  SentNow(f.entries, peer, s.forceFull, now) && f.sys.states[peer].inFlight)
  {
    var s := sys.states[peer];
    var answer := Answer(sys, peer, tx, kind, now);
    var landed := Land(answer.sys, peer, now);
    var f := Flush(landed, peer, now, a);
    if s.dirty || s.forceFull {
      FlushSends(landed, peer, now, a);
      hide Flush;
      if LetsThrough(sys.outstanding, peer, now, a) {
        assert LetsThrough(landed.outstanding, peer, now, a);
        var i, t, build :| 0 <= i < |f.entries| && f.entries[i] == Sent(peer, t, build, s.forceFull, now);
        assert (answer.entries + f.entries)[|answer.entries| + i] == f.entries[i];
      }
    }
  }

  /** A response that settles nothing, because it is unknown, late or unusable, is no error, and nothing follows
      from it; nor is one for a peer that is not synchronised. */
  lemma UnsettledIsIgnored(sys: Sys, peer: Peer, tx: nat, kind: ResponseKind, now: nat, a: Attempt)
    requires !Answer(sys, peer, tx, kind, now).ok || peer !in sys.states
    ensures var f := HandleResponse(sys, peer, tx, kind, now, a);
            && f.ok && f.entries == Answer(sys, peer, tx, kind, now).entries && f.sys.states == sys.states
            && f.sys.outstanding == Answer(sys, peer, tx, kind, now).sys.outstanding
  {
    hide Flush;
  }

  // ----- the retry loop

  /** In flight for more than 3 s. */
  predicate Lost(s: SyncState, now: nat) {
    s.inFlight && now > s.sentAt + 3_000
  }

  /** What becomes of a peer whose update was lost: it is sent again in full, at once if the outside lets it
      through, else as soon as something asks. */
  ghost predicate SentAgain(o: map<TxKey, Outstanding>, s': SyncState, entries: seq<Entry>, peer: Peer, now: nat,
                            a: Attempt) {
    if LetsThrough(o, peer, now, a)
    then SentNow(entries, peer, true, now) && s'.inFlight && s'.sentAt == now
    else !s'.inFlight && s'.dirty && s'.forceFull
  }

  /** The loop over all peers: every lost update is sent again, and no other peer is touched. */
  ghost predicate RetriedAll(sys: Sys, states': map<Peer, SyncState>, entries: seq<Entry>, now: nat,
                             attempts: Attempts) {
    && states'.Keys == sys.states.Keys
    && (forall p :: p in sys.states ==>
          if Lost(sys.states[p], now) then SentAgain(sys.outstanding, states'[p], entries, p, now, attempts(p))
          else states'[p] == sys.states[p])
    && (forall p :: p in states' ==> !Lost(states'[p], now))
    && (forall e :: e in entries ==> e.peer in sys.states && Lost(sys.states[e.peer], now))
  }

  /** The outside lets a peer through just as well after other peers were retried. */
  lemma StillLetsThrough(sys: Sys, sys': Sys, peer: Peer, now: nat, a: Attempt)
    requires forall k: TxKey :: k.peer == peer && k in sys'.outstanding ==>
               k in sys.outstanding && sys'.outstanding[k] == sys.outstanding[k]
    requires forall k: TxKey :: k.peer == peer && k in sys.outstanding && k !in sys'.outstanding ==>
               now > sys.outstanding[k].deadline
    ensures LetsThrough(sys'.outstanding, peer, now, a) <==> LetsThrough(sys.outstanding, peer, now, a)
  {
    if i :| 0 <= i < |a.draws| && a.draws[i] != 0
            && (TxKey(peer, a.draws[i]) in sys.outstanding ==>
                now > sys.outstanding[TxKey(peer, a.draws[i])].deadline) {
      assert TxKey(peer, a.draws[i]) in sys'.outstanding ==> now > sys'.outstanding[TxKey(peer, a.draws[i])].deadline;
    }
    if i :| 0 <= i < |a.draws| && a.draws[i] != 0
            && (TxKey(peer, a.draws[i]) in sys'.outstanding ==>
                now > sys'.outstanding[TxKey(peer, a.draws[i])].deadline) {
      assert TxKey(peer, a.draws[i]) in sys.outstanding ==> now > sys.outstanding[TxKey(peer, a.draws[i])].deadline;
    }
  }

  lemma RetryOneDoes(sys: Sys, peer: Peer, now: nat, a: Attempt)
    requires peer in sys.states
    ensures var f := RetryOne(sys, peer, now, a);
            && Touches(sys, f.sys, peer, now)
            && (if Lost(sys.states[peer], now)
                then SentAgain(sys.outstanding, f.sys.states[peer], f.entries, peer, now, a)
                     && forall e :: e in f.entries ==> e.peer == peer
                else f.sys == sys && f.entries == [])
  {
    if Lost(sys.states[peer], now) {
      FlushSends(Reopen(sys, peer), peer, now, a);
      hide Flush;
    }
  }

  /** The loop over the first peers of an order without repetitions. */
  ghost predicate RetriedSome(sys: Sys, f: Out, order: seq<Peer>, now: nat, attempts: Attempts) {
    && f.sys.states.Keys == sys.states.Keys
    && (forall p :: p in sys.states ==>
          if p in order && Lost(sys.states[p], now)
          then SentAgain(sys.outstanding, f.sys.states[p], f.entries, p, now, attempts(p))
          else f.sys.states[p] == sys.states[p])
    && (forall e :: e in f.entries ==> e.peer in order && e.peer in sys.states && Lost(sys.states[e.peer], now))
    && (forall k :: k in f.sys.outstanding && k.peer !in order ==>
          k in sys.outstanding && f.sys.outstanding[k] == sys.outstanding[k])
    && (forall k :: k in sys.outstanding && k.peer !in order && k !in f.sys.outstanding ==>
          now > sys.outstanding[k].deadline)
  }

  lemma SentAgainStays(o: map<TxKey, Outstanding>, s': SyncState, entries: seq<Entry>, more: seq<Entry>, peer: Peer,
                       now: nat,
                       a: Attempt)
    requires SentAgain(o, s', entries, peer, now, a)
    ensures SentAgain(o, s', entries + more, peer, now, a)
  {
    hide LetsThrough;
    if i, tx, build :| 0 <= i < |entries| && entries[i] == Sent(peer, tx, build, true, now) {
      assert (entries + more)[i] == entries[i];
    }
  }

  lemma SentAgainLast(o: map<TxKey, Outstanding>, s': SyncState, before: seq<Entry>, entries: seq<Entry>, peer: Peer,
                      now: nat,
                      a: Attempt)
    requires SentAgain(o, s', entries, peer, now, a)
    ensures SentAgain(o, s', before + entries, peer, now, a)
  {
    hide LetsThrough;
    if i, tx, build :| 0 <= i < |entries| && entries[i] == Sent(peer, tx, build, true, now) {
      assert (before + entries)[|before| + i] == entries[i];
    }
  }

  predicate Once(order: seq<Peer>) {
    forall i, j :: 0 <= i < j < |order| ==> order[i] != order[j]
  }

  lemma RetriedNone(sys: Sys, now: nat, attempts: Attempts)
    ensures RetriedSome(sys, Out(sys, [], true), [], now, attempts)
  {
  }

  lemma RetryNothing(sys: Sys, now: nat, attempts: Attempts)
    ensures Retry(sys, [], now, attempts) == Out(sys, [], true)
  {
  }

  /** One turn more of the loop. */
  lemma RetrySnoc(sys: Sys, order: seq<Peer>, peer: Peer, now: nat, attempts: Attempts)
    ensures var before := Retry(sys, order, now, attempts);
            var one := RetryOne(before.sys, peer, now, attempts(peer));
            Retry(sys, order + [peer], now, attempts) == Out(one.sys, before.entries + one.entries, true)
  {
    assert (order + [peer])[..|order|] == order;
  }

  lemma RetriedKeeps(sys: Sys, f: Out, order: seq<Peer>, now: nat, attempts: Attempts)
    requires RetriedSome(sys, f, order, now, attempts)
    ensures f.sys.states.Keys == sys.states.Keys
  {
    hide SentAgain;
  }

  lemma {:induction false} RetryDoes(sys: Sys, order: seq<Peer>, now: nat, attempts: Attempts)
    requires Once(order) && forall p :: p in order ==> p in sys.states
    ensures RetriedSome(sys, Retry(sys, order, now, attempts), order, now, attempts)
  {
    if order == [] {
      RetriedNone(sys, now, attempts);
    } else {
      var init, peer := order[..|order| - 1], order[|order| - 1];
      assert order == init + [peer] && peer !in init;
      RetryDoes(sys, init, now, attempts);
      hide RetryOne, Retry, SentAgain, RetriedSome, Touches, Once;
      var before := Retry(sys, init, now, attempts);
      RetriedKeeps(sys, before, init, now, attempts);
      RetryOneDoes(before.sys, peer, now, attempts(peer));
      RetriedOneMore(sys, before, RetryOne(before.sys, peer, now, attempts(peer)), init, peer, now, attempts);
      RetrySnoc(sys, init, peer, now, attempts);
    }
  }

  lemma RetriedOneMore(sys: Sys, before: Out, one: Out, init: seq<Peer>, peer: Peer, now: nat, attempts: Attempts)
    requires RetriedSome(sys, before, init, now, attempts) && peer in sys.states && peer !in init
    requires Touches(before.sys, one.sys, peer, now)
    requires if Lost(before.sys.states[peer], now)
             then SentAgain(before.sys.outstanding, one.sys.states[peer], one.entries, peer, now, attempts(peer))
                  && forall e :: e in one.entries ==> e.peer == peer
             else one.sys == before.sys && one.entries == []
    ensures RetriedSome(sys, Out(one.sys, before.entries + one.entries, true), init + [peer], now, attempts)
  {
    hide SentAgain;
    var entries := before.entries + one.entries;
    forall p | p in sys.states
      ensures if p in init + [peer] && Lost(sys.states[p], now)
              then SentAgain(sys.outstanding, one.sys.states[p], entries, p, now, attempts(p))
              else one.sys.states[p] == sys.states[p]
    {
      if p != peer && p in init && Lost(sys.states[p], now) {
        SentAgainStays(sys.outstanding, one.sys.states[p], before.entries, one.entries, p, now, attempts(p));
      } else if p == peer && Lost(sys.states[p], now) {
        StillLetsThrough(sys, before.sys, p, now, attempts(p));
        SentAgainSame(before.sys.outstanding, sys.outstanding, one.sys.states[p], one.entries, p, now, attempts(p));
        SentAgainLast(sys.outstanding, one.sys.states[p], before.entries, one.entries, p, now, attempts(p));
      }
    }
  }

  lemma SentAgainSame(o: map<TxKey, Outstanding>, o': map<TxKey, Outstanding>, s': SyncState, entries: seq<Entry>,
                      peer: Peer,
                      now: nat, a: Attempt)
    requires SentAgain(o, s', entries, peer, now, a)
             && (LetsThrough(o, peer, now, a) <==> LetsThrough(o', peer, now, a))
    ensures SentAgain(o', s', entries, peer, now, a)
  {
  }

  /** Cleaning, over every peer once in whatever order: afterwards no update is lost, every peer whose update
      was lost is sent a full one at once or has it wanted, and no other peer is touched. */
  lemma CleaningRetriesAll(sys: Sys, order: seq<Peer>, now: nat, attempts: Attempts)
    requires Once(order) && forall p :: p in order <==> p in sys.states
    ensures var f := CleanExpired(sys, order, now, attempts); RetriedAll(sys, f.sys.states, f.entries, now, attempts)
  {
    var cleaned := sys.(outstanding := Cleaned(sys.outstanding, now));
    RetryDoes(cleaned, order, now, attempts);
    var f := CleanExpired(sys, order, now, attempts);
    hide Retry, SentAgain;
    forall p | p in sys.states
      ensures if Lost(sys.states[p], now)
              then SentAgain(sys.outstanding, f.sys.states[p], f.entries, p, now, attempts(p))
              else f.sys.states[p] == sys.states[p]
      ensures !Lost(f.sys.states[p], now)
    {
      if Lost(sys.states[p], now) {
        StillLetsThrough(sys, cleaned, p, now, attempts(p));
        SentAgainSame(cleaned.outstanding, sys.outstanding, f.sys.states[p], f.entries, p, now, attempts(p));
        SentAgainIsNotLost(sys.outstanding, f.sys.states[p], f.entries, p, now, attempts(p));
      }
    }
  }

  lemma SentAgainIsNotLost(o: map<TxKey, Outstanding>, s': SyncState, entries: seq<Entry>, peer: Peer, now: nat,
                           a: Attempt)
    requires SentAgain(o, s', entries, peer, now, a)
    ensures !Lost(s', now)
  {
  }

  // ----- the program's form

  class EasyTierRpc {
    var states: map<Peer, SyncState>
    var outstanding: map<TxKey, Outstanding>
    var builds: nat
    ghost var log: seq<Entry>

    ghost function Now(): Sys
      reads this
    {
      Sys(states, outstanding, builds)
    }

    constructor ()
      ensures Now() == EMPTY_SYS && log == []
    {
      states, outstanding, builds, log := map[], map[], 0, [];
    }

    method DrawTransactionId(peer: Peer, draws: seq<nat>) returns (tx: Option<nat>)
      ensures tx == NextTransactionId(outstanding, peer, draws)
    {
      for i := 0 to |draws|
        invariant NextTransactionId(outstanding, peer, draws) == NextTransactionId(outstanding, peer, draws[i..])
      {
        if draws[i] != 0 && TxKey(peer, draws[i]) !in outstanding {
          return Some(draws[i]);
        }
        assert draws[i..][1..] == draws[i + 1..];
      }
      return None;
    }

    method BuildRouteUpdate(peer: Peer, now: nat, a: Attempt) returns (tx: Option<nat>)
      modifies this`outstanding, this`builds, this`log
      ensures var cleaned := Cleaned(old(outstanding), now);
              && tx == (if a.buildable then NextTransactionId(cleaned, peer, a.draws) else None)
              && (tx.None? ==> outstanding == cleaned && builds == old(builds) && log == old(log))
              && (tx.Some? ==>
                    && outstanding == cleaned[TxKey(peer, tx.value) :=
                                              Outstanding(now + ROUTE_RPC_TIMEOUT_MS, old(builds), a.sent)]
                    && builds == old(builds) + 1
                    && log == old(log) + [Built(peer, tx.value, old(builds), now + ROUTE_RPC_TIMEOUT_MS)])
    {
      outstanding := map k | k in outstanding && now <= outstanding[k].deadline :: outstanding[k];
      if !a.buildable {
        return None;
      }
      tx := DrawTransactionId(peer, a.draws);
      if tx.None? {
        return;
      }
      outstanding := outstanding[TxKey(peer, tx.value) := Outstanding(now + ROUTE_RPC_TIMEOUT_MS, builds, a.sent)];
      log := log + [Built(peer, tx.value, builds, now + ROUTE_RPC_TIMEOUT_MS)];
      builds := builds + 1;
    }

    method FlushRouteUpdate(peer: Peer, now: nat, a: Attempt) returns (ok: bool)
      requires peer in states
      modifies this
      ensures Out(Now(), log, ok) == var f := Flush(old(Now()), peer, now, a); f.(entries := old(log) + f.entries)
    {
      var state := states[peer];
      if state.inFlight || (!state.dirty && !state.forceFull) {
        return true;
      }
      var forceFull := state.forceFull;
      var tx := BuildRouteUpdate(peer, now, a);
      if tx.None? {
        return false;
      }
      state := state.(dirty := false, forceFull := false, inFlight := true, sentAt := now);
      ok := a.sent;
      if ok {
        log := log + [Sent(peer, tx.value, builds - 1, forceFull, now)];
      } else {
        state := state.(inFlight := false, dirty := true, forceFull := state.forceFull || forceFull);
      }
      states := states[peer := state];
    }

    method SendUpdate(peer: Peer, forceFull: bool, now: nat, a: Attempt) returns (ok: bool)
      modifies this
      ensures Out(Now(), log, ok)
           == var f := SendRouteUpdate(old(Now()), peer, forceFull, now, a); f.(entries := old(log) + f.entries)
    {
      if peer !in states {
        states := states[peer := SyncState(false, false, false, 0, 0)];
      }
      var state := states[peer];
      states := states[peer := state.(dirty := true, forceFull := state.forceFull || forceFull)];
      log := log + [Requested(peer, forceFull)];
      ghost var marked := Mark(old(Now()), peer, forceFull);
      assert Now() == marked;
      ok := FlushRouteUpdate(peer, now, a);
      ghost var f := Flush(marked, peer, now, a);
      assert old(log) + ([Requested(peer, forceFull)] + f.entries)
          == old(log) + [Requested(peer, forceFull)] + f.entries;
    }

    method Maintain(peer: Peer, now: nat, a: Attempt) returns (ok: bool)
      modifies this
      ensures Out(Now(), log, ok)
           == var f := MaintainPeer(old(Now()), peer, now, a); f.(entries := old(log) + f.entries)
    {
      hide Flush;
      if peer !in states || states[peer].inFlight
         || SatSub(now, states[peer].lastCompletedAt) < ROUTE_MAINTENANCE_INTERVAL_MS {
        return true;
      }
      ok := SendUpdate(peer, false, now, a);
    }

    method CoreResponse(peer: Peer, tx: nat, kind: ResponseKind, now: nat) returns (complete: bool)
      modifies this`outstanding, this`log
      ensures Out(Now(), log, complete)
           == var f := Answer(old(Now()), peer, tx, kind, now); f.(entries := old(log) + f.entries)
    {
      var key := TxKey(peer, tx);
      if key !in outstanding {
        return false;
      }
      var o := outstanding[key];
      if now > o.deadline {
        outstanding := outstanding - {key};
        return false;
      }
      if kind.Unusable? {
        return false;
      }
      outstanding := outstanding - {key};
      log := log + if kind.Accepted? then [Committed(peer, o.build, now), Answered(peer, tx, o.build, now)]
                   else [Answered(peer, tx, o.build, now)];
      return true;
    }

    method OnResponse(peer: Peer, tx: nat, kind: ResponseKind, now: nat, a: Attempt) returns (ok: bool)
      modifies this
      ensures Out(Now(), log, ok)
           == var f := HandleResponse(old(Now()), peer, tx, kind, now, a); f.(entries := old(log) + f.entries)
    {
      ghost var answer := Answer(old(Now()), peer, tx, kind, now);
      var complete := CoreResponse(peer, tx, kind, now);
      hide Answer, Flush;
      if !complete || peer !in states {
        return true;
      }
      states := states[peer := states[peer].(inFlight := false, sentAt := 0, lastCompletedAt := now)];
      ghost var landed := Land(answer.sys, peer, now);
      assert Now() == landed;
      if states[peer].dirty || states[peer].forceFull {
        ok := FlushRouteUpdate(peer, now, a);
      } else {
        ok := true;
        NothingToFlush(landed, peer, now, a);
      }
      ghost var f := Flush(landed, peer, now, a);
      assert old(log) + (answer.entries + f.entries) == old(log) + answer.entries + f.entries;
    }

    /** One turn of the retry loop. */
    method RetryPeer(peer: Peer, now: nat, a: Attempt)
      requires peer in states
      modifies this
      ensures var f := RetryOne(old(Now()), peer, now, a); Now() == f.sys && log == old(log) + f.entries
      ensures states.Keys == old(states).Keys
    {
      hide Flush;
      var state := states[peer];
      if state.inFlight && SatSub(now, state.sentAt) > ROUTE_SYNC_TIMEOUT_MS {
        states := states[peer := state.(inFlight := false, dirty := true, forceFull := true)];
        assert Now() == Reopen(old(Now()), peer);
        var ok := FlushRouteUpdate(peer, now, a);
        FlushKeepsPeers(Reopen(old(Now()), peer), peer, now, a);
      }
    }

    /** `order` is the iteration order of the table of states. Every lost update is sent again in full, or
        wanted in full, and no other peer is touched. */
    method Clean(order: seq<Peer>, now: nat, attempts: Attempts)
      requires Once(order) && forall peer :: peer in order <==> peer in states
      modifies this
      ensures old(log) <= log && RetriedAll(old(Now()), states, log[|old(log)|..], now, attempts)
      ensures Out(Now(), log, true)
           == var f := CleanExpired(old(Now()), order, now, attempts); f.(entries := old(log) + f.entries)
    {
      hide RetryOne, RetriedAll, Once, Retry;
      CleaningRetriesAll(Now(), order, now, attempts);
      outstanding := map k | k in outstanding && now <= outstanding[k].deadline :: outstanding[k];
      ghost var start := Now();
      RetryNothing(start, now, attempts);
      for i := 0 to |order|
        invariant Out(Now(), log, true)
               == var f := Retry(start, order[..i], now, attempts); f.(entries := old(log) + f.entries)
        invariant states.Keys == old(states).Keys
      {
        ghost var before := Retry(start, order[..i], now, attempts);
        assert order[..i + 1] == order[..i] + [order[i]] && order[i] in order;
        RetrySnoc(start, order[..i], order[i], now, attempts);
        ghost var one := RetryOne(before.sys, order[i], now, attempts(order[i]));
        RetryPeer(order[i], now, attempts(order[i]));
        assert old(log) + (before.entries + one.entries) == old(log) + before.entries + one.entries;
      }
      assert order[..|order|] == order;
    }

    method Add(peer: Peer)
      modifies this
      ensures Out(Now(), log, true) == var f := AddPeer(old(Now()), peer); f.(entries := old(log) + f.entries)
    {
      states := states - {peer};
      log := log + [Reset(peer)];
    }

    method Remove(peer: Peer)
      modifies this
      ensures Out(Now(), log, true) == var f := RemovePeer(old(Now()), peer); f.(entries := old(log) + f.entries)
    {
      outstanding := map k | k in outstanding && k.peer != peer :: outstanding[k];
      states := states - {peer};
      log := log + [Reset(peer)];
    }
  }

  lemma NothingToFlush(sys: Sys, peer: Peer, now: nat, a: Attempt)
    requires peer in sys.states && !sys.states[peer].dirty && !sys.states[peer].forceFull
    ensures Flush(sys, peer, now, a) == Out(sys, [], true)
  {
  }

  lemma FlushKeepsPeers(sys: Sys, peer: Peer, now: nat, a: Attempt)
    requires peer in sys.states
    ensures Flush(sys, peer, now, a).sys.states.Keys == sys.states.Keys
  {
  }
}
