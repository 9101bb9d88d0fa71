/** What the two layers of route synchronisation keep over whole runs: one live transaction per
    peer, no lost update, and at most one commit per built update, never past its deadline. */
module RouteSyncRuns {
  import opened Words
  import opened RouteSync

  datatype Event =
    | Request(peer: Peer, full: bool, now: nat, a: Attempt)
    | Maintain(peer: Peer, now: nat, a: Attempt)
    | Response(peer: Peer, tx: nat, kind: ResponseKind, now: nat, a: Attempt)
    | Clean(order: seq<Peer>, now: nat, attempts: Attempts)
    | Add(peer: Peer, now: nat)
    | Remove(peer: Peer, now: nat)

  datatype Trace = Trace(sys: Sys, log: seq<Entry>, clock: nat)

  function Call(sys: Sys, ev: Event): Out {
    match ev
    case Request(peer, full, now, a) => SendRouteUpdate(sys, peer, full, now, a)
    case Maintain(peer, now, a) => MaintainPeer(sys, peer, now, a)
    case Response(peer, tx, kind, now, a) => HandleResponse(sys, peer, tx, kind, now, a)
    case Clean(order, now, attempts) => CleanExpired(sys, order, now, attempts)
    case Add(peer, now) => AddPeer(sys, peer)
    case Remove(peer, now) => RemovePeer(sys, peer)
  }

  function Step(t: Trace, ev: Event): Trace {
    Trace(Call(t.sys, ev).sys, t.log + Call(t.sys, ev).entries, ev.now)
  }

  function Run(evs: seq<Event>): Trace {
    if evs == [] then Trace(EMPTY_SYS, [], 0) else Step(Run(evs[..|evs| - 1]), evs[|evs| - 1])
  }

  /** An entry the core would still commit: sent and not past its deadline. */
  predicate LiveEntry(sys: Sys, key: TxKey, clock: nat) {
    key in sys.outstanding && sys.outstanding[key].sent && clock <= sys.outstanding[key].deadline
  }

  ghost predicate NothingLive(sys: Sys, peer: Peer, clock: nat) {
    forall key: TxKey :: key.peer == peer ==> !LiveEntry(sys, key, clock)
  }

  /** Time does not go back; peers answer only what was sent to them; a peer is added anew only when
      none of its transactions is live. */
  ghost predicate Orderly(t: Trace, ev: Event) {
    && t.clock <= ev.now
    && (ev.Response? && TxKey(ev.peer, ev.tx) in t.sys.outstanding ==> t.sys.outstanding[TxKey(ev.peer, ev.tx)].sent)
    && (ev.Add? ==> NothingLive(t.sys, ev.peer, ev.now))
  }

  ghost predicate OrderlyRun(evs: seq<Event>) {
    evs == [] || (OrderlyRun(evs[..|evs| - 1]) && Orderly(Run(evs[..|evs| - 1]), evs[|evs| - 1]))
  }

  predicate SentTo(e: Entry, peer: Peer) {
    e.Sent? && e.peer == peer
  }

  /** Entry `j` is the last update sent to `peer`. */
  ghost predicate IsLast(log: seq<Entry>, peer: Peer, j: int) {
    && 0 <= j < |log| && SentTo(log[j], peer)
    && forall k :: j < k < |log| ==> !SentTo(log[k], peer)
  }

  // ----- one live transaction per peer

  /** A live transaction is the one the driver holds in flight, down to its time and its id. */
  ghost predicate InStep(sys: Sys, log: seq<Entry>, key: TxKey)
    requires key in sys.outstanding
  {
    && key.peer in sys.states
    && sys.states[key.peer].inFlight
    && sys.outstanding[key].deadline == sys.states[key.peer].sentAt + ROUTE_RPC_TIMEOUT_MS
    && exists j :: IsLast(log, key.peer, j) && log[j].tx == key.tx && log[j].build == sys.outstanding[key].build
  }

  ghost predicate SingleFlight(sys: Sys, log: seq<Entry>, clock: nat) {
    forall key :: LiveEntry(sys, key, clock) ==> InStep(sys, log, key)
  }

  lemma LastStays(log: seq<Entry>, more: seq<Entry>, peer: Peer, j: int)
    requires IsLast(log, peer, j) && forall e :: e in more ==> !SentTo(e, peer)
    ensures IsLast(log + more, peer, j) && (log + more)[j] == log[j]
  {
    forall k | j < k < |log + more|
      ensures !SentTo((log + more)[k], peer)
    {
      if k >= |log| {
        assert (log + more)[k] in more;
      }
    }
  }

  /** Steps that send nothing to the peer, keep its flight and its transaction. */
  lemma InStepStays(sys: Sys, log: seq<Entry>, sys': Sys, more: seq<Entry>, key: TxKey)
    requires key in sys.outstanding && InStep(sys, log, key)
    requires key in sys'.outstanding && sys'.outstanding[key] == sys.outstanding[key]
    requires key.peer in sys'.states && sys'.states[key.peer].inFlight
             && sys'.states[key.peer].sentAt == sys.states[key.peer].sentAt
    requires forall e :: e in more ==> !SentTo(e, key.peer)
    ensures InStep(sys', log + more, key)
  {
    var j :| IsLast(log, key.peer, j) && log[j].tx == key.tx && log[j].build == sys.outstanding[key].build;
    LastStays(log, more, key.peer, j);
  }

  lemma MarkKeepsSingleFlight(sys: Sys, log: seq<Entry>, clock: nat, peer: Peer, full: bool)
    requires SingleFlight(sys, log, clock)
    ensures SingleFlight(Mark(sys, peer, full), log + [Requested(peer, full)], clock)
  {
    var sys' := Mark(sys, peer, full);
    forall key | LiveEntry(sys', key, clock)
      ensures InStep(sys', log + [Requested(peer, full)], key)
    {
      assert LiveEntry(sys, key, clock);
      InStepStays(sys, log, sys', [Requested(peer, full)], key);
    }
  }

  lemma FewerLive(sys: Sys, log: seq<Entry>, clock: nat, o: map<TxKey, Outstanding>)
    requires SingleFlight(sys, log, clock) && forall k :: k in o ==> k in sys.outstanding && o[k] == sys.outstanding[k]
    ensures SingleFlight(sys.(outstanding := o), log, clock)
  {
    forall key | LiveEntry(sys.(outstanding := o), key, clock)
      ensures InStep(sys.(outstanding := o), log, key)
    {
      assert LiveEntry(sys, key, clock);
    }
  }

  lemma FlushKeepsSingleFlight(sys: Sys, log: seq<Entry>, peer: Peer, now: nat, a: Attempt)
    requires peer in sys.states && SingleFlight(sys, log, now)
    ensures SingleFlight(Flush(sys, peer, now, a).sys, log + Flush(sys, peer, now, a).entries, now)
  {
    hide NextTransactionId, InStep;
    var f := Flush(sys, peer, now, a);
    var cleaned := Cleaned(sys.outstanding, now);
    FewerLive(sys, log, now, cleaned);
    assert log + [] == log;
    var tx := NextTransactionId(cleaned, peer, a.draws);
    if Wants(sys.states[peer]) && a.buildable && tx.Some? {
      NextTransactionIdIsFree(cleaned, peer, a.draws);
      forall key | LiveEntry(f.sys, key, now)
        ensures InStep(f.sys, log + f.entries, key)
      {
        if key == TxKey(peer, tx.value) {
          SentIsInStep(sys, log, peer, now, a);
        } else {
          assert LiveEntry(sys.(outstanding := cleaned), key, now);
          StartsAlone(sys, log, peer, now);
          assert LiveEntry(sys, key, now) && key.peer != peer;
          OtherPeerInStep(sys, log, f.sys, f.entries, key, peer);
        }
      }
    }
  }

  lemma OtherPeerInStep(sys: Sys, log: seq<Entry>, sys': Sys, more: seq<Entry>, key: TxKey, peer: Peer)
    requires key in sys.outstanding && InStep(sys, log, key) && key.peer != peer
    requires key in sys'.outstanding && sys'.outstanding[key] == sys.outstanding[key]
    requires forall p :: p != peer && p in sys.states ==> p in sys'.states && sys'.states[p] == sys.states[p]
    requires forall e :: e in more ==> e.peer == peer
    ensures InStep(sys', log + more, key)
  {
    InStepStays(sys, log, sys', more, key);
  }

  lemma SentIsInStep(sys: Sys, log: seq<Entry>, peer: Peer, now: nat, a: Attempt)
    requires peer in sys.states && Wants(sys.states[peer]) && a.buildable && a.sent
    requires NextTransactionId(Cleaned(sys.outstanding, now), peer, a.draws).Some?
    ensures var f := Flush(sys, peer, now, a);
            var key := TxKey(peer, NextTransactionId(Cleaned(sys.outstanding, now), peer, a.draws).value);
            key in f.sys.outstanding && InStep(f.sys, log + f.entries, key)
  {
    var f := Flush(sys, peer, now, a);
    var j := |log| + 1;
    assert |f.entries| == 2 && (log + f.entries)[j] == f.entries[1];
    assert IsLast(log + f.entries, peer, j);
  }

  /** The single-flight theorem at the moment it matters: whenever the driver is free to start a new
      transaction, no earlier one of that peer can still be committed. */
  lemma StartsAlone(sys: Sys, log: seq<Entry>, peer: Peer, now: nat)
    requires SingleFlight(sys, log, now) && peer in sys.states && Wants(sys.states[peer])
    ensures NothingLive(sys, peer, now)
  {
  }

  /** And at any moment at most one is live. */
  lemma AtMostOneLive(sys: Sys, log: seq<Entry>, clock: nat, k: TxKey, l: TxKey)
    requires SingleFlight(sys, log, clock) && LiveEntry(sys, k, clock) && LiveEntry(sys, l, clock) && k.peer == l.peer
    ensures k == l
  {
    var i :| IsLast(log, k.peer, i) && log[i].tx == k.tx && log[i].build == sys.outstanding[k].build;
    var j :| IsLast(log, l.peer, j) && log[j].tx == l.tx && log[j].build == sys.outstanding[l].build;
    LastIsUnique(log, k.peer, i, j);
  }

  lemma LastIsUnique(log: seq<Entry>, peer: Peer, i: int, j: int)
    requires IsLast(log, peer, i) && IsLast(log, peer, j)
    ensures i == j
  {
  }

  lemma AnswerKeepsSingleFlight(sys: Sys, log: seq<Entry>, peer: Peer, tx: nat, kind: ResponseKind, now: nat)
    requires SingleFlight(sys, log, now)
    requires TxKey(peer, tx) in sys.outstanding ==> sys.outstanding[TxKey(peer, tx)].sent
    ensures var f := Answer(sys, peer, tx, kind, now);
            SingleFlight(if f.ok then Land(f.sys, peer, now) else f.sys, log + f.entries, now)
  {
    hide InStep;
    var f := Answer(sys, peer, tx, kind, now);
    assert log + [] == log;
    if f.ok {
      var sys' := Land(f.sys, peer, now);
      forall key | LiveEntry(sys', key, now)
        ensures InStep(sys', log + f.entries, key)
      {
        assert LiveEntry(sys, key, now) && LiveEntry(sys, TxKey(peer, tx), now);
        if key.peer == peer {
          AtMostOneLive(sys, log, now, key, TxKey(peer, tx));
        }
        OtherPeerInStep(sys, log, sys', f.entries, key, peer);
      }
    } else {
      FewerLive(sys, log, now, f.sys.outstanding);
    }
  }

  lemma ReopenKeepsSingleFlight(sys: Sys, log: seq<Entry>, peer: Peer, now: nat)
    requires SingleFlight(sys, log, now) && peer in sys.states && Overdue(sys.states[peer], now)
    ensures SingleFlight(Reopen(sys, peer), log, now)
  {
    var sys' := Reopen(sys, peer);
    assert log + [] == log;
    forall key | LiveEntry(sys', key, now)
      ensures InStep(sys', log, key)
    {
      assert LiveEntry(sys, key, now);
      OtherPeerInStep(sys, log, sys', [], key, peer);
    }
  }

  lemma ForgetKeepsSingleFlight(sys: Sys, log: seq<Entry>, clock: nat, sys': Sys, peer: Peer)
    requires SingleFlight(sys, log, clock) && NothingLive(sys', peer, clock)
    requires forall k :: k in sys'.outstanding ==> k in sys.outstanding && sys'.outstanding[k] == sys.outstanding[k]
    requires sys'.states == sys.states - {peer}
    ensures SingleFlight(sys', log + [Reset(peer)], clock)
  {
    forall key | LiveEntry(sys', key, clock)
      ensures InStep(sys', log + [Reset(peer)], key)
    {
      assert LiveEntry(sys, key, clock);
      OtherPeerInStep(sys, log, sys', [Reset(peer)], key, peer);
    }
  }

  /** Adding a peer keeps the two layers in step exactly when none of its transactions is live. */
  lemma AddIsExact(sys: Sys, log: seq<Entry>, clock: nat, peer: Peer)
    requires SingleFlight(sys, log, clock)
    ensures SingleFlight(AddPeer(sys, peer).sys, log + [Reset(peer)], clock) <==> NothingLive(sys, peer, clock)
  {
    var sys' := AddPeer(sys, peer).sys;
    if NothingLive(sys, peer, clock) {
      ForgetKeepsSingleFlight(sys, log, clock, sys', peer);
    } else {
      var key: TxKey :| key.peer == peer && LiveEntry(sys, key, clock);
      assert LiveEntry(sys', key, clock) && !InStep(sys', log + [Reset(peer)], key);
    }
  }

  // ----- no lost update

  /** Entry `j` answers a request for `peer`, with a full update if one was asked for. */
  predicate Serves(e: Entry, peer: Peer, full: bool) {
    SentTo(e, peer) && (full ==> e.full)
  }

  ghost predicate AnsweredLater(log: seq<Entry>, j: int)
    requires 0 <= j < |log| && log[j].Sent?
  {
    exists k :: j < k < |log| && log[k].Answered? && log[k].peer == log[j].peer && log[k].tx == log[j].tx
        && log[k].build == log[j].build
  }

  ghost predicate Settled(s: SyncState, log: seq<Entry>, peer: Peer, j: int)
    requires 0 <= j < |log| && SentTo(log[j], peer)
  {
    (s.inFlight && IsLast(log, peer, j)) || AnsweredLater(log, j)
  }

  ghost predicate ServedAt(s: SyncState, log: seq<Entry>, i: int, peer: Peer, full: bool, j: int) {
    0 <= i < j < |log| && Serves(log[j], peer, full) && Settled(s, log, peer, j)
  }

  /** A request is kept as a flag, or an update built after it was sent and is in flight or answered. */
  ghost predicate Met(sys: Sys, log: seq<Entry>, i: int, peer: Peer, full: bool) {
    && peer in sys.states
    && var s := sys.states[peer];
       s.forceFull || (!full && s.dirty) || exists j :: ServedAt(s, log, i, peer, full, j)
  }

  ghost predicate Standing(log: seq<Entry>, i: int) {
    0 <= i < |log| && log[i].Requested? && forall k :: i < k < |log| ==> log[k] != Reset(log[i].peer)
  }

  ghost predicate NothingLost(sys: Sys, log: seq<Entry>) {
    forall i :: Standing(log, i) ==> Met(sys, log, i, log[i].peer, log[i].full)
  }

  lemma ServedStays(s: SyncState, log: seq<Entry>, s': SyncState, more: seq<Entry>, i: int, peer: Peer, full: bool,
                    j: int)
    requires ServedAt(s, log, i, peer, full, j)
    requires s.inFlight ==> s'.inFlight && forall e :: e in more ==> !SentTo(e, peer)
    ensures ServedAt(s', log + more, i, peer, full, j)
  {
    assert (log + more)[j] == log[j];
    if AnsweredLater(log, j) {
      var k :| j < k < |log| && log[k].Answered? && log[k].peer == log[j].peer && log[k].tx == log[j].tx
          && log[k].build == log[j].build;
      assert (log + more)[k] == log[k];
      assert AnsweredLater(log + more, j);
    } else {
      LastStays(log, more, peer, j);
    }
  }

  /** A request of a peer whose flags only rise and whose flight, if any, goes on. */
  lemma MetStays(sys: Sys, log: seq<Entry>, sys': Sys, more: seq<Entry>, i: int, peer: Peer, full: bool)
    requires Met(sys, log, i, peer, full)
    requires peer in sys'.states
    requires var s, s' := sys.states[peer], sys'.states[peer];
             && (s.forceFull ==> s'.forceFull) && (s.dirty ==> s'.dirty)
             && (s.inFlight ==> s'.inFlight && forall e :: e in more ==> !SentTo(e, peer))
    ensures Met(sys', log + more, i, peer, full)
  {
    hide ServedAt;
    var s, s' := sys.states[peer], sys'.states[peer];
    if j :| ServedAt(s, log, i, peer, full, j) {
      ServedStays(s, log, s', more, i, peer, full, j);
    }
  }

  lemma StandingBefore(log: seq<Entry>, more: seq<Entry>, i: int)
    requires Standing(log + more, i) && i < |log|
    ensures Standing(log, i) && (log + more)[i] == log[i]
  {
    forall k | i < k < |log|
      ensures log[k] != Reset(log[i].peer)
    {
      assert (log + more)[k] == log[k];
    }
  }

  /** One step: old requests stay met, new ones are met. */
  lemma StepLosesNothing(sys: Sys, log: seq<Entry>, sys': Sys, more: seq<Entry>)
    requires NothingLost(sys, log)
    requires forall i :: Standing(log, i) && Standing(log + more, i) ==>
             Met(sys', log + more, i, log[i].peer, log[i].full)
    requires forall i :: |log| <= i < |log| + |more| && Standing(log + more, i) ==>
               Met(sys', log + more, i, (log + more)[i].peer, (log + more)[i].full)
    ensures NothingLost(sys', log + more)
  {
    hide Met;
    forall i | Standing(log + more, i)
      ensures Met(sys', log + more, i, (log + more)[i].peer, (log + more)[i].full)
    {
      if i < |log| {
        StandingBefore(log, more, i);
      }
    }
  }

  lemma MarkLosesNothing(sys: Sys, log: seq<Entry>, peer: Peer, full: bool)
    requires NothingLost(sys, log)
    ensures NothingLost(Mark(sys, peer, full), log + [Requested(peer, full)])
  {
    var sys' := Mark(sys, peer, full);
    forall i | Standing(log, i)
      ensures Met(sys', log + [Requested(peer, full)], i, log[i].peer, log[i].full)
    {
      assert Met(sys, log, i, log[i].peer, log[i].full);
      MetStays(sys, log, sys', [Requested(peer, full)], i, log[i].peer, log[i].full);
    }
    assert Met(sys', log + [Requested(peer, full)], |log|, peer, full);
    StepLosesNothing(sys, log, sys', [Requested(peer, full)]);
  }

  lemma FlushLosesNothing(sys: Sys, log: seq<Entry>, peer: Peer, now: nat, a: Attempt)
    requires peer in sys.states && NothingLost(sys, log)
    ensures NothingLost(Flush(sys, peer, now, a).sys, log + Flush(sys, peer, now, a).entries)
  {
    hide NextTransactionId, Met;
    var f := Flush(sys, peer, now, a);
    forall i | Standing(log, i)
      ensures Met(f.sys, log + f.entries, i, log[i].peer, log[i].full)
    {
      assert Met(sys, log, i, log[i].peer, log[i].full);
      if log[i].peer == peer && f.ok && Wants(sys.states[peer]) {
        SendingServes(sys, log, peer, now, a, i, log[i].full);
      } else {
        MetNeedsState(sys, log, i, log[i].peer, log[i].full);
        MetStays(sys, log, f.sys, f.entries, i, log[i].peer, log[i].full);
      }
    }
    StepLosesNothing(sys, log, f.sys, f.entries);
  }

  /** The update that clears the flags serves every request that stood on them. */
  lemma SendingServes(sys: Sys, log: seq<Entry>, peer: Peer, now: nat, a: Attempt, i: int, full: bool)
    requires peer in sys.states && Wants(sys.states[peer]) && Flush(sys, peer, now, a).ok
    requires 0 <= i < |log| && Met(sys, log, i, peer, full)
    ensures Met(Flush(sys, peer, now, a).sys, log + Flush(sys, peer, now, a).entries, i, peer, full)
  {
    hide NextTransactionId;
    var f := Flush(sys, peer, now, a);
    var s, s' := sys.states[peer], f.sys.states[peer];
    var log' := log + f.entries;
    if s.forceFull || (!full && s.dirty) {
      var j := |log| + 1;
      assert log'[j] == f.entries[1];
      assert IsLast(log', peer, j);
      assert ServedAt(s', log', i, peer, full, j);
    } else {
      var j :| ServedAt(s, log, i, peer, full, j);
      ServedStays(s, log, s', f.entries, i, peer, full, j);
    }
  }

  lemma AnswerLosesNothing(sys: Sys, log: seq<Entry>, peer: Peer, tx: nat, kind: ResponseKind, now: nat)
    requires NothingLost(sys, log) && SingleFlight(sys, log, now)
    requires TxKey(peer, tx) in sys.outstanding ==> sys.outstanding[TxKey(peer, tx)].sent
    ensures var f := Answer(sys, peer, tx, kind, now);
            NothingLost(if f.ok then Land(f.sys, peer, now) else f.sys, log + f.entries)
  {
    hide Met;
    var f := Answer(sys, peer, tx, kind, now);
    var sys' := if f.ok then Land(f.sys, peer, now) else f.sys;
    forall i | Standing(log, i)
      ensures Met(sys', log + f.entries, i, log[i].peer, log[i].full)
    {
      assert Met(sys, log, i, log[i].peer, log[i].full);
      if f.ok && log[i].peer == peer {
        LandingSettles(sys, log, peer, tx, kind, now, i, log[i].full);
      } else {
        MetNeedsState(sys, log, i, log[i].peer, log[i].full);
        MetStays(sys, log, sys', f.entries, i, log[i].peer, log[i].full);
      }
    }
    StepLosesNothing(sys, log, sys', f.entries);
  }

  /** The answered transaction is the one in flight, so what stood on the flight is now answered. */
  lemma LandingSettles(sys: Sys, log: seq<Entry>, peer: Peer, tx: nat, kind: ResponseKind, now: nat, i: int, full: bool)
    requires SingleFlight(sys, log, now) && LiveEntry(sys, TxKey(peer, tx), now)
    requires Answer(sys, peer, tx, kind, now).ok && Met(sys, log, i, peer, full)
    ensures var f := Answer(sys, peer, tx, kind, now); Met(Land(f.sys, peer, now), log + f.entries, i, peer, full)
  {
    var f := Answer(sys, peer, tx, kind, now);
    var s, s' := sys.states[peer], Land(f.sys, peer, now).states[peer];
    var key := TxKey(peer, tx);
    var log' := log + f.entries;
    if !s.forceFull && (full || !s.dirty) {
      var j :| ServedAt(s, log, i, peer, full, j);
      assert log'[j] == log[j];
      if AnsweredLater(log, j) {
        ServedStays(s.(inFlight := false), log, s', f.entries, i, peer, full, j);
      } else {
        assert InStep(sys, log, key);
        var l :| IsLast(log, peer, l) && log[l].tx == tx && log[l].build == sys.outstanding[key].build;
        LastIsUnique(log, peer, j, l);
        assert log'[|log'| - 1] == f.entries[|f.entries| - 1];
        assert AnsweredLater(log', j);
        assert ServedAt(s', log', i, peer, full, j);
      }
    }
  }

  lemma ReopenLosesNothing(sys: Sys, log: seq<Entry>, peer: Peer)
    requires NothingLost(sys, log) && peer in sys.states
    ensures NothingLost(Reopen(sys, peer), log)
  {
    forall i | Standing(log, i)
      ensures Met(Reopen(sys, peer), log, i, log[i].peer, log[i].full)
    {
      assert Met(sys, log, i, log[i].peer, log[i].full);
    }
  }

  lemma ResetLosesNothing(sys: Sys, log: seq<Entry>, sys': Sys, peer: Peer)
    requires NothingLost(sys, log) && sys'.states == sys.states - {peer}
    ensures NothingLost(sys', log + [Reset(peer)])
  {
    hide Met;
    forall i | Standing(log, i) && Standing(log + [Reset(peer)], i)
      ensures Met(sys', log + [Reset(peer)], i, log[i].peer, log[i].full)
    {
      assert (log + [Reset(peer)])[|log|] == Reset(peer);
      assert Met(sys, log, i, log[i].peer, log[i].full);
      MetNeedsState(sys, log, i, log[i].peer, log[i].full);
      MetStays(sys, log, sys', [Reset(peer)], i, log[i].peer, log[i].full);
    }
    StepLosesNothing(sys, log, sys', [Reset(peer)]);
  }

  lemma MetNeedsState(sys: Sys, log: seq<Entry>, i: int, peer: Peer, full: bool)
    requires Met(sys, log, i, peer, full)
    ensures peer in sys.states
  {
  }

  // ----- both invariants over whole runs

  ghost predicate Sound(sys: Sys, log: seq<Entry>, clock: nat) {
    SingleFlight(sys, log, clock) && NothingLost(sys, log)
  }

  lemma LaterSound(sys: Sys, log: seq<Entry>, clock: nat, now: nat)
    requires Sound(sys, log, clock) && clock <= now
    ensures Sound(sys, log, now)
  {
    forall key | LiveEntry(sys, key, now)
      ensures InStep(sys, log, key)
    {
      assert LiveEntry(sys, key, clock);
    }
  }

  lemma FlushSound(sys: Sys, log: seq<Entry>, peer: Peer, now: nat, a: Attempt)
    requires peer in sys.states && Sound(sys, log, now)
    ensures Sound(Flush(sys, peer, now, a).sys, log + Flush(sys, peer, now, a).entries, now)
  {
    hide SingleFlight, NothingLost, Flush;
    FlushKeepsSingleFlight(sys, log, peer, now, a);
    FlushLosesNothing(sys, log, peer, now, a);
  }

  lemma RequestSound(sys: Sys, log: seq<Entry>, peer: Peer, full: bool, now: nat, a: Attempt)
    requires Sound(sys, log, now)
    ensures var f := SendRouteUpdate(sys, peer, full, now, a); Sound(f.sys, log + f.entries, now)
  {
    hide SingleFlight, NothingLost, Flush;
    MarkKeepsSingleFlight(sys, log, now, peer, full);
    MarkLosesNothing(sys, log, peer, full);
    var marked := Mark(sys, peer, full);
    var log1 := log + [Requested(peer, full)];
    FlushSound(marked, log1, peer, now, a);
    var f := Flush(marked, peer, now, a);
    assert log + ([Requested(peer, full)] + f.entries) == log1 + f.entries;
  }

  lemma ResponseSound(sys: Sys, log: seq<Entry>, peer: Peer, tx: nat, kind: ResponseKind, now: nat, a: Attempt)
    requires Sound(sys, log, now)
    requires TxKey(peer, tx) in sys.outstanding ==> sys.outstanding[TxKey(peer, tx)].sent
    ensures var f := HandleResponse(sys, peer, tx, kind, now, a); Sound(f.sys, log + f.entries, now)
  {
    hide SingleFlight, NothingLost, Flush, Answer;
    AnswerKeepsSingleFlight(sys, log, peer, tx, kind, now);
    AnswerLosesNothing(sys, log, peer, tx, kind, now);
    var answer := Answer(sys, peer, tx, kind, now);
    if answer.ok {
      var landed := Land(answer.sys, peer, now);
      if peer in landed.states {
        FlushSound(landed, log + answer.entries, peer, now, a);
        var f := Flush(landed, peer, now, a);
        assert log + (answer.entries + f.entries) == log + answer.entries + f.entries;
      }
    }
  }

  lemma RetryOneSound(sys: Sys, log: seq<Entry>, peer: Peer, now: nat, a: Attempt)
    requires Sound(sys, log, now)
    ensures var f := RetryOne(sys, peer, now, a); Sound(f.sys, log + f.entries, now)
  {
    hide SingleFlight, NothingLost, Flush;
    assert log + [] == log;
    if peer in sys.states && Overdue(sys.states[peer], now) {
      ReopenKeepsSingleFlight(sys, log, peer, now);
      ReopenLosesNothing(sys, log, peer);
      FlushSound(Reopen(sys, peer), log, peer, now, a);
    }
  }

  lemma {:induction false} RetrySound(sys: Sys, log: seq<Entry>, order: seq<Peer>, now: nat, attempts: Attempts)
    requires Sound(sys, log, now)
    ensures var f := Retry(sys, order, now, attempts); Sound(f.sys, log + f.entries, now)
  {
    hide Sound, RetryOne;
    assert log + [] == log;
    if order != [] {
      RetrySound(sys, log, order[..|order| - 1], now, attempts);
      var before := Retry(sys, order[..|order| - 1], now, attempts);
      var peer := order[|order| - 1];
      RetryOneSound(before.sys, log + before.entries, peer, now, attempts(peer));
      var one := RetryOne(before.sys, peer, now, attempts(peer));
      assert log + (before.entries + one.entries) == log + before.entries + one.entries;
    }
  }

  lemma StepSound(t: Trace, ev: Event)
    requires Sound(t.sys, t.log, t.clock) && Orderly(t, ev)
    ensures Sound(Step(t, ev).sys, Step(t, ev).log, Step(t, ev).clock)
  {
    LaterSound(t.sys, t.log, t.clock, ev.now);
    hide SingleFlight, NothingLost, SendRouteUpdate, HandleResponse, Retry;
    assert t.log + [] == t.log;
    match ev
    case Request(peer, full, now, a) => RequestSound(t.sys, t.log, peer, full, now, a);
    case Maintain(peer, now, a) => RequestSound(t.sys, t.log, peer, false, now, a);
    case Response(peer, tx, kind, now, a) => ResponseSound(t.sys, t.log, peer, tx, kind, now, a);
    case Clean(order, now, attempts) =>
      FewerLive(t.sys, t.log, now, Cleaned(t.sys.outstanding, now));
      CleanedLosesNothing(t.sys, t.log, Cleaned(t.sys.outstanding, now));
      RetrySound(t.sys.(outstanding := Cleaned(t.sys.outstanding, now)), t.log, order, now, attempts);
    case Add(peer, now) =>
      ForgetKeepsSingleFlight(t.sys, t.log, now, AddPeer(t.sys, peer).sys, peer);
      ResetLosesNothing(t.sys, t.log, AddPeer(t.sys, peer).sys, peer);
    case Remove(peer, now) =>
      ForgetKeepsSingleFlight(t.sys, t.log, now, RemovePeer(t.sys, peer).sys, peer);
      ResetLosesNothing(t.sys, t.log, RemovePeer(t.sys, peer).sys, peer);
  }

  lemma CleanedLosesNothing(sys: Sys, log: seq<Entry>, o: map<TxKey, Outstanding>)
    requires NothingLost(sys, log)
    ensures NothingLost(sys.(outstanding := o), log)
  {
    forall i | Standing(log, i)
      ensures Met(sys.(outstanding := o), log, i, log[i].peer, log[i].full)
    {
      assert Met(sys, log, i, log[i].peer, log[i].full);
    }
  }

  /** In every orderly run: the core can commit at most the transaction the driver holds in flight,
      and no request for an update is lost. */
  lemma {:induction false} RunsStaySound(evs: seq<Event>)
    requires OrderlyRun(evs)
    ensures SingleFlight(Run(evs).sys, Run(evs).log, Run(evs).clock)
    ensures NothingLost(Run(evs).sys, Run(evs).log)
  {
    if evs != [] {
      RunsStaySound(evs[..|evs| - 1]);
      hide SingleFlight, NothingLost, Orderly, Step;
      StepSound(Run(evs[..|evs| - 1]), evs[|evs| - 1]);
    }
  }

  // ----- commits

  ghost predicate BuiltAs(log: seq<Entry>, peer: Peer, build: nat, deadline: nat) {
    exists b :: 0 <= b < |log| && log[b].Built? && log[b].peer == peer && log[b].build == build
        && log[b].deadline == deadline
  }

  /** Builds are numbered apart; what is outstanding is uncommitted; what is committed was built,
      in time, and only once. */
  ghost predicate CommitsSound(sys: Sys, log: seq<Entry>) {
    && (forall k :: k in sys.outstanding ==> sys.outstanding[k].build < sys.builds)
    && (forall k :: k in sys.outstanding ==>
        BuiltAs(log, k.peer, sys.outstanding[k].build, sys.outstanding[k].deadline))
    && (forall k, l :: k in sys.outstanding && l in sys.outstanding && k != l ==>
        sys.outstanding[k].build != sys.outstanding[l].build)
    && (forall i :: 0 <= i < |log| && (log[i].Committed? || log[i].Built?) ==> log[i].build < sys.builds)
    && (forall i, k :: 0 <= i < |log| && log[i].Committed? && k in sys.outstanding ==>
        log[i].build != sys.outstanding[k].build)
    && (forall i, j :: 0 <= i < j < |log| && log[i].Built? && log[j].Built? ==> log[i].build != log[j].build)
    && OncePerBuild(log)
    && InTime(log)
  }

  ghost predicate OncePerBuild(log: seq<Entry>) {
    forall i, j :: 0 <= i < j < |log| && log[i].Committed? && log[j].Committed? ==> log[i].build != log[j].build
  }

  ghost predicate InTime(log: seq<Entry>) {
    forall i :: 0 <= i < |log| && log[i].Committed? ==>
      exists deadline :: BuiltAs(log, log[i].peer, log[i].build, deadline) && log[i].at <= deadline
  }

  lemma BuiltStays(log: seq<Entry>, more: seq<Entry>, peer: Peer, build: nat, deadline: nat)
    requires BuiltAs(log, peer, build, deadline)
    ensures BuiltAs(log + more, peer, build, deadline)
  {
    var b :| 0 <= b < |log| && log[b].Built? && log[b].peer == peer && log[b].build == build
        && log[b].deadline == deadline;
    assert (log + more)[b] == log[b];
  }

  lemma InTimeStays(log: seq<Entry>, more: seq<Entry>)
    requires InTime(log) && forall e :: e in more ==> !e.Committed?
    ensures InTime(log + more)
  {
    var log' := log + more;
    assert forall i :: |log| <= i < |log'| ==> log'[i] in more;
    forall i | 0 <= i < |log'| && log'[i].Committed?
      ensures exists deadline :: BuiltAs(log', log'[i].peer, log'[i].build, deadline) && log'[i].at <= deadline
    {
      var deadline :| BuiltAs(log, log[i].peer, log[i].build, deadline) && log[i].at <= deadline;
      BuiltStays(log, more, log[i].peer, log[i].build, deadline);
    }
  }

  /** Entries that neither build nor commit, with nothing new outstanding. */
  lemma QuietKeepsCommits(sys: Sys, log: seq<Entry>, sys': Sys, more: seq<Entry>)
    requires CommitsSound(sys, log) && sys'.builds == sys.builds
    requires forall k :: k in sys'.outstanding ==> k in sys.outstanding && sys'.outstanding[k] == sys.outstanding[k]
    requires forall e :: e in more ==> !e.Committed? && !e.Built?
    ensures CommitsSound(sys', log + more)
  {
    hide InTime, BuiltAs;
    var log' := log + more;
    assert forall i :: |log| <= i < |log'| ==> log'[i] in more;
    assert forall i :: 0 <= i < |log| ==> log'[i] == log[i];
    InTimeStays(log, more);
    forall k | k in sys'.outstanding
      ensures BuiltAs(log', k.peer, sys'.outstanding[k].build, sys'.outstanding[k].deadline)
    {
      BuiltStays(log, more, k.peer, sys'.outstanding[k].build, sys'.outstanding[k].deadline);
    }
  }

  lemma BuildKeepsCommits(sys: Sys, log: seq<Entry>, sys': Sys, key: TxKey, deadline: nat, sent: bool)
    requires CommitsSound(sys, log) && key !in sys.outstanding
    requires sys'.builds == sys.builds + 1
    requires sys'.outstanding == sys.outstanding[key := Outstanding(deadline, sys.builds, sent)]
    ensures CommitsSound(sys', log + [Built(key.peer, key.tx, sys.builds, deadline)])
  {
    hide InTime, BuiltAs;
    var more := [Built(key.peer, key.tx, sys.builds, deadline)];
    var log' := log + more;
    assert forall i :: 0 <= i < |log| ==> log'[i] == log[i];
    assert log'[|log|] == more[0];
    InTimeStays(log, more);
    forall k | k in sys'.outstanding
      ensures BuiltAs(log', k.peer, sys'.outstanding[k].build, sys'.outstanding[k].deadline)
    {
      if k == key {
        BuiltNow(log, key.peer, key.tx, sys.builds, deadline);
      } else {
        BuiltStays(log, more, k.peer, sys'.outstanding[k].build, sys'.outstanding[k].deadline);
      }
    }
  }

  lemma BuiltNow(log: seq<Entry>, peer: Peer, tx: nat, build: nat, deadline: nat)
    ensures BuiltAs(log + [Built(peer, tx, build, deadline)], peer, build, deadline)
  {
    assert (log + [Built(peer, tx, build, deadline)])[|log|] == Built(peer, tx, build, deadline);
  }

  lemma FlushKeepsCommits(sys: Sys, log: seq<Entry>, peer: Peer, now: nat, a: Attempt)
    requires peer in sys.states && CommitsSound(sys, log)
    ensures var f := Flush(sys, peer, now, a); CommitsSound(f.sys, log + f.entries)
  {
    hide CommitsSound, NextTransactionId;
    var f := Flush(sys, peer, now, a);
    var cleaned := Cleaned(sys.outstanding, now);
    var s0 := sys.(outstanding := cleaned);
    QuietKeepsCommits(sys, log, s0, []);
    QuietKeepsCommits(sys, log, sys, []);
    assert log + [] == log;
    var tx := NextTransactionId(cleaned, peer, a.draws);
    if Wants(sys.states[peer]) && a.buildable && tx.Some? {
      NextTransactionIdIsFree(cleaned, peer, a.draws);
      BuildKeepsCommits(s0, log, f.sys, TxKey(peer, tx.value), now + ROUTE_RPC_TIMEOUT_MS, a.sent);
      var log1 := log + [f.entries[0]];
      if a.sent {
        QuietKeepsCommits(f.sys, log1, f.sys, [f.entries[1]]);
        assert log1 + [f.entries[1]] == log + f.entries;
      }
    }
  }

  lemma AnswerKeepsCommits(sys: Sys, log: seq<Entry>, peer: Peer, tx: nat, kind: ResponseKind, now: nat)
    requires CommitsSound(sys, log)
    ensures var f := Answer(sys, peer, tx, kind, now); CommitsSound(f.sys, log + f.entries)
  {
    var f := Answer(sys, peer, tx, kind, now);
    if f.ok && kind.Accepted? {
      hide CommitsSound;
      CommitKeepsCommits(sys, log, TxKey(peer, tx), now);
      var log1 := log + [f.entries[0]];
      QuietKeepsCommits(f.sys, log1, f.sys, [f.entries[1]]);
      assert log1 + [f.entries[1]] == log + f.entries;
    } else {
      hide CommitsSound;
      QuietKeepsCommits(sys, log, f.sys, f.entries);
    }
  }

  lemma CommitKeepsCommits(sys: Sys, log: seq<Entry>, key: TxKey, now: nat)
    requires CommitsSound(sys, log) && key in sys.outstanding && now <= sys.outstanding[key].deadline
    ensures CommitsSound(sys.(outstanding := sys.outstanding - {key}),
                         log + [Committed(key.peer, sys.outstanding[key].build, now)])
  {
    hide BuiltAs, InTime;
    var o := sys.outstanding[key];
    var more := [Committed(key.peer, o.build, now)];
    var log' := log + more;
    assert forall i :: 0 <= i < |log| ==> log'[i] == log[i];
    assert log'[|log|] == more[0];
    forall k | k in sys.outstanding
      ensures BuiltAs(log', k.peer, sys.outstanding[k].build, sys.outstanding[k].deadline)
    {
      BuiltStays(log, more, k.peer, sys.outstanding[k].build, sys.outstanding[k].deadline);
    }
    CommitInTime(log, key.peer, o.build, o.deadline, now);
  }

  lemma CommitInTime(log: seq<Entry>, peer: Peer, build: nat, deadline: nat, now: nat)
    requires InTime(log) && BuiltAs(log, peer, build, deadline) && now <= deadline
    ensures InTime(log + [Committed(peer, build, now)])
  {
    hide BuiltAs;
    var more := [Committed(peer, build, now)];
    var log' := log + more;
    assert forall i :: 0 <= i < |log| ==> log'[i] == log[i];
    assert log'[|log|] == more[0];
    BuiltStays(log, more, peer, build, deadline);
    forall i | 0 <= i < |log| && log'[i].Committed?
      ensures exists d :: BuiltAs(log', log'[i].peer, log'[i].build, d) && log'[i].at <= d
    {
      var d :| BuiltAs(log, log[i].peer, log[i].build, d) && log[i].at <= d;
      BuiltStays(log, more, log[i].peer, log[i].build, d);
    }
  }

  lemma {:induction false} RetryKeepsCommits(sys: Sys, log: seq<Entry>, order: seq<Peer>, now: nat, attempts: Attempts)
    requires CommitsSound(sys, log)
    ensures var f := Retry(sys, order, now, attempts); CommitsSound(f.sys, log + f.entries)
  {
    hide CommitsSound, Flush;
    assert log + [] == log;
    if order != [] {
      RetryKeepsCommits(sys, log, order[..|order| - 1], now, attempts);
      var before := Retry(sys, order[..|order| - 1], now, attempts);
      var peer := order[|order| - 1];
      var log1 := log + before.entries;
      var one := RetryOne(before.sys, peer, now, attempts(peer));
      if peer in before.sys.states && Overdue(before.sys.states[peer], now) {
        QuietKeepsCommits(before.sys, log1, Reopen(before.sys, peer), []);
        assert log1 + [] == log1;
        FlushKeepsCommits(Reopen(before.sys, peer), log1, peer, now, attempts(peer));
      } else {
        assert log1 + [] == log1;
      }
      assert log + (before.entries + one.entries) == log1 + one.entries;
    }
  }

  lemma RequestKeepsCommits(sys: Sys, log: seq<Entry>, peer: Peer, full: bool, now: nat, a: Attempt)
    requires CommitsSound(sys, log)
    ensures var f := SendRouteUpdate(sys, peer, full, now, a); CommitsSound(f.sys, log + f.entries)
  {
    hide CommitsSound, Flush;
    var marked := Mark(sys, peer, full);
    QuietKeepsCommits(sys, log, marked, [Requested(peer, full)]);
    var log1 := log + [Requested(peer, full)];
    FlushKeepsCommits(marked, log1, peer, now, a);
    var f := Flush(marked, peer, now, a);
    assert log + ([Requested(peer, full)] + f.entries) == log1 + f.entries;
  }

  lemma ResponseKeepsCommits(sys: Sys, log: seq<Entry>, peer: Peer, tx: nat, kind: ResponseKind, now: nat, a: Attempt)
    requires CommitsSound(sys, log)
    ensures var f := HandleResponse(sys, peer, tx, kind, now, a); CommitsSound(f.sys, log + f.entries)
  {
    hide CommitsSound, Flush, Answer;
    AnswerKeepsCommits(sys, log, peer, tx, kind, now);
    var answer := Answer(sys, peer, tx, kind, now);
    var log1 := log + answer.entries;
    if answer.ok {
      var landed := Land(answer.sys, peer, now);
      QuietKeepsCommits(answer.sys, log1, landed, []);
      assert log1 + [] == log1;
      if peer in landed.states {
        FlushKeepsCommits(landed, log1, peer, now, a);
        var f := Flush(landed, peer, now, a);
        assert log + (answer.entries + f.entries) == log1 + f.entries;
      }
    }
  }

  lemma CallKeepsCommits(sys: Sys, log: seq<Entry>, ev: Event)
    requires CommitsSound(sys, log)
    ensures CommitsSound(Call(sys, ev).sys, log + Call(sys, ev).entries)
  {
    hide CommitsSound, SendRouteUpdate, HandleResponse, Retry;
    assert log + [] == log;
    match ev
    case Request(peer, full, now, a) => RequestKeepsCommits(sys, log, peer, full, now, a);
    case Maintain(peer, now, a) => RequestKeepsCommits(sys, log, peer, false, now, a);
    case Response(peer, tx, kind, now, a) => ResponseKeepsCommits(sys, log, peer, tx, kind, now, a);
    case Clean(order, now, attempts) =>
      var cleaned := sys.(outstanding := Cleaned(sys.outstanding, now));
      QuietKeepsCommits(sys, log, cleaned, []);
      RetryKeepsCommits(cleaned, log, order, now, attempts);
    case Add(peer, now) => QuietKeepsCommits(sys, log, AddPeer(sys, peer).sys, [Reset(peer)]);
    case Remove(peer, now) => QuietKeepsCommits(sys, log, RemovePeer(sys, peer).sys, [Reset(peer)]);
  }

  /** In every run, orderly or not, each built update is committed at most once and never after its
      deadline, which is the one deadline it was built with. */
  lemma {:induction false} CommitsOnceInTime(evs: seq<Event>)
    ensures CommitsSound(Run(evs).sys, Run(evs).log)
    ensures OncePerBuild(Run(evs).log) && InTime(Run(evs).log)
  {
    if evs != [] {
      CommitsOnceInTime(evs[..|evs| - 1]);
      hide CommitsSound, Call;
      CallKeepsCommits(Run(evs[..|evs| - 1]).sys, Run(evs[..|evs| - 1]).log, evs[|evs| - 1]);
    }
    assert CommitsSound(Run(evs).sys, Run(evs).log);
  }

  // ----- commits come in build order

  /** Sent builds rise along the log, and what was committed had been sent. */
  ghost predicate SendsRise(sys: Sys, log: seq<Entry>) {
    && (forall i :: 0 <= i < |log| && log[i].Sent? ==> log[i].build < sys.builds)
    && (forall i, j :: 0 <= i < j < |log| && log[i].Sent? && log[j].Sent? ==> log[i].build < log[j].build)
    && (forall i :: 0 <= i < |log| && log[i].Committed? ==> SentBefore(log, i))
  }

  ghost predicate SentBefore(log: seq<Entry>, i: int)
    requires 0 <= i < |log| && log[i].Committed?
  {
    exists s :: 0 <= s < i && SentTo(log[s], log[i].peer) && log[s].build == log[i].build
  }

  ghost predicate InBuildOrder(log: seq<Entry>) {
    forall i, j :: 0 <= i < j < |log| && log[i].Committed? && log[j].Committed? && log[i].peer == log[j].peer ==>
      log[i].build < log[j].build
  }

  ghost predicate Ordered(sys: Sys, log: seq<Entry>) {
    SendsRise(sys, log) && InBuildOrder(log)
  }

  lemma QuietKeepsOrder(sys: Sys, log: seq<Entry>, sys': Sys, more: seq<Entry>)
    requires Ordered(sys, log) && sys'.builds >= sys.builds && forall e :: e in more ==> !e.Sent? && !e.Committed?
    ensures Ordered(sys', log + more)
  {
    var log' := log + more;
    assert forall i :: |log| <= i < |log'| ==> log'[i] in more;
    assert forall i :: 0 <= i < |log| ==> log'[i] == log[i];
    forall i | 0 <= i < |log'| && log'[i].Committed?
      ensures SentBefore(log', i)
    {
      assert SentBefore(log, i);
      var s :| 0 <= s < i && SentTo(log[s], log[i].peer) && log[s].build == log[i].build;
      assert log'[s] == log[s];
    }
  }

  lemma SendKeepsOrder(sys: Sys, log: seq<Entry>, sys': Sys, e: Entry)
    requires Ordered(sys, log) && e.Sent? && e.build == sys.builds < sys'.builds
    ensures Ordered(sys', log + [e])
  {
    var log' := log + [e];
    assert forall i :: 0 <= i < |log| ==> log'[i] == log[i];
    assert log'[|log|] == e;
    forall i | 0 <= i < |log'| && log'[i].Committed?
      ensures SentBefore(log', i)
    {
      assert SentBefore(log, i);
      var s :| 0 <= s < i && SentTo(log[s], log[i].peer) && log[s].build == log[i].build;
      assert log'[s] == log[s];
    }
  }

  lemma FlushKeepsOrder(sys: Sys, log: seq<Entry>, peer: Peer, now: nat, a: Attempt)
    requires peer in sys.states && Ordered(sys, log)
    ensures var f := Flush(sys, peer, now, a); Ordered(f.sys, log + f.entries)
  {
    hide Ordered, NextTransactionId;
    var f := Flush(sys, peer, now, a);
    if |f.entries| == 2 {
      QuietKeepsOrder(sys, log, sys, [f.entries[0]]);
      SendKeepsOrder(sys, log + [f.entries[0]], f.sys, f.entries[1]);
      assert log + [f.entries[0]] + [f.entries[1]] == log + f.entries;
    } else {
      QuietKeepsOrder(sys, log, f.sys, f.entries);
    }
  }

  /** The committed update is the last one sent, so it is newer than every update committed before. */
  lemma CommitKeepsOrder(sys: Sys, log: seq<Entry>, sys': Sys, key: TxKey, now: nat)
    requires Ordered(sys, log) && CommitsSound(sys, log) && SingleFlight(sys, log, now) && LiveEntry(sys, key, now)
    requires sys'.builds == sys.builds
    ensures Ordered(sys', log + [Committed(key.peer, sys.outstanding[key].build, now)])
  {
    var build := sys.outstanding[key].build;
    var log' := log + [Committed(key.peer, build, now)];
    assert forall i :: 0 <= i < |log| ==> log'[i] == log[i];
    assert log'[|log|] == Committed(key.peer, build, now);
    assert InStep(sys, log, key);
    var last :| IsLast(log, key.peer, last) && log[last].tx == key.tx && log[last].build == build;
    assert log'[last] == log[last];
    forall i | 0 <= i < |log'| && log'[i].Committed?
      ensures SentBefore(log', i)
    {
      if i < |log| {
        assert SentBefore(log, i);
        var s :| 0 <= s < i && SentTo(log[s], log[i].peer) && log[s].build == log[i].build;
        assert log'[s] == log[s];
      }
    }
    forall i | 0 <= i < |log| && log[i].Committed? && log[i].peer == key.peer
      ensures log[i].build < build
    {
      CommittedIsOlder(sys, log, key, i, last);
    }
  }

  lemma CommittedIsOlder(sys: Sys, log: seq<Entry>, key: TxKey, i: int, last: int)
    requires SendsRise(sys, log) && CommitsSound(sys, log) && key in sys.outstanding
    requires 0 <= i < |log| && log[i].Committed? && log[i].peer == key.peer
    requires IsLast(log, key.peer, last) && log[last].build == sys.outstanding[key].build
    ensures log[i].build < sys.outstanding[key].build
  {
    assert SentBefore(log, i);
    var s :| 0 <= s < i && SentTo(log[s], log[i].peer) && log[s].build == log[i].build;
    assert s <= last;
  }

  lemma AnswerKeepsOrder(sys: Sys, log: seq<Entry>, peer: Peer, tx: nat, kind: ResponseKind, now: nat)
    requires Ordered(sys, log) && CommitsSound(sys, log) && SingleFlight(sys, log, now)
    requires TxKey(peer, tx) in sys.outstanding ==> sys.outstanding[TxKey(peer, tx)].sent
    ensures var f := Answer(sys, peer, tx, kind, now); Ordered(f.sys, log + f.entries)
  {
    hide Ordered, CommitsSound, SingleFlight;
    var f := Answer(sys, peer, tx, kind, now);
    if f.ok && kind.Accepted? {
      CommitKeepsOrder(sys, log, f.sys, TxKey(peer, tx), now);
      QuietKeepsOrder(f.sys, log + [f.entries[0]], f.sys, [f.entries[1]]);
      assert log + [f.entries[0]] + [f.entries[1]] == log + f.entries;
    } else {
      QuietKeepsOrder(sys, log, f.sys, f.entries);
    }
  }

  lemma {:induction false} RetryKeepsOrder(sys: Sys, log: seq<Entry>, order: seq<Peer>, now: nat, attempts: Attempts)
    requires Ordered(sys, log)
    ensures var f := Retry(sys, order, now, attempts); Ordered(f.sys, log + f.entries)
  {
    hide Ordered, Flush;
    assert log + [] == log;
    if order != [] {
      RetryKeepsOrder(sys, log, order[..|order| - 1], now, attempts);
      var before := Retry(sys, order[..|order| - 1], now, attempts);
      var peer := order[|order| - 1];
      var log1 := log + before.entries;
      var one := RetryOne(before.sys, peer, now, attempts(peer));
      assert log1 + [] == log1;
      if peer in before.sys.states && Overdue(before.sys.states[peer], now) {
        QuietKeepsOrder(before.sys, log1, Reopen(before.sys, peer), []);
        FlushKeepsOrder(Reopen(before.sys, peer), log1, peer, now, attempts(peer));
      }
      assert log + (before.entries + one.entries) == log1 + one.entries;
    }
  }

  lemma RequestKeepsOrder(sys: Sys, log: seq<Entry>, peer: Peer, full: bool, now: nat, a: Attempt)
    requires Ordered(sys, log)
    ensures var f := SendRouteUpdate(sys, peer, full, now, a); Ordered(f.sys, log + f.entries)
  {
    hide Ordered, Flush;
    var marked := Mark(sys, peer, full);
    var log1 := log + [Requested(peer, full)];
    QuietKeepsOrder(sys, log, marked, [Requested(peer, full)]);
    FlushKeepsOrder(marked, log1, peer, now, a);
    var f := Flush(marked, peer, now, a);
    assert log + ([Requested(peer, full)] + f.entries) == log1 + f.entries;
  }

  lemma ResponseKeepsOrder(sys: Sys, log: seq<Entry>, peer: Peer, tx: nat, kind: ResponseKind, now: nat, a: Attempt)
    requires Ordered(sys, log) && CommitsSound(sys, log) && SingleFlight(sys, log, now)
    requires TxKey(peer, tx) in sys.outstanding ==> sys.outstanding[TxKey(peer, tx)].sent
    ensures var f := HandleResponse(sys, peer, tx, kind, now, a); Ordered(f.sys, log + f.entries)
  {
    hide Ordered, Flush, Answer, CommitsSound, SingleFlight;
    AnswerKeepsOrder(sys, log, peer, tx, kind, now);
    var answer := Answer(sys, peer, tx, kind, now);
    var log1 := log + answer.entries;
    if answer.ok {
      var landed := Land(answer.sys, peer, now);
      QuietKeepsOrder(answer.sys, log1, landed, []);
      assert log1 + [] == log1;
      if peer in landed.states {
        FlushKeepsOrder(landed, log1, peer, now, a);
        var f := Flush(landed, peer, now, a);
        assert log + (answer.entries + f.entries) == log1 + f.entries;
      }
    }
  }

  lemma StepKeepsOrder(t: Trace, ev: Event)
    requires Ordered(t.sys, t.log) && CommitsSound(t.sys, t.log) && Sound(t.sys, t.log, t.clock) && Orderly(t, ev)
    ensures Ordered(Step(t, ev).sys, Step(t, ev).log)
  {
    LaterSound(t.sys, t.log, t.clock, ev.now);
    hide Ordered, CommitsSound, SingleFlight, NothingLost, SendRouteUpdate, HandleResponse, Retry;
    assert t.log + [] == t.log;
    match ev
    case Request(peer, full, now, a) => RequestKeepsOrder(t.sys, t.log, peer, full, now, a);
    case Maintain(peer, now, a) => RequestKeepsOrder(t.sys, t.log, peer, false, now, a);
    case Response(peer, tx, kind, now, a) => ResponseKeepsOrder(t.sys, t.log, peer, tx, kind, now, a);
    case Clean(order, now, attempts) =>
      var cleaned := t.sys.(outstanding := Cleaned(t.sys.outstanding, now));
      QuietKeepsOrder(t.sys, t.log, cleaned, []);
      RetryKeepsOrder(cleaned, t.log, order, now, attempts);
    case Add(peer, now) => QuietKeepsOrder(t.sys, t.log, AddPeer(t.sys, peer).sys, [Reset(peer)]);
    case Remove(peer, now) => QuietKeepsOrder(t.sys, t.log, RemovePeer(t.sys, peer).sys, [Reset(peer)]);
  }

  /** In every orderly run, a peer's updates are committed in the order they were built. */
  lemma {:induction false} CommitsInBuildOrder(evs: seq<Event>)
    requires OrderlyRun(evs)
    ensures Ordered(Run(evs).sys, Run(evs).log) && InBuildOrder(Run(evs).log)
  {
    if evs != [] {
      var init := evs[..|evs| - 1];
      CommitsInBuildOrder(init);
      RunsStaySound(init);
      CommitsOnceInTime(init);
      hide Ordered, CommitsSound, SingleFlight, NothingLost, Orderly, Step;
      StepKeepsOrder(Run(init), evs[|evs| - 1]);
    }
    assert Ordered(Run(evs).sys, Run(evs).log);
  }

  /** The premise on adding peers is needed: adding a peer again while its transaction is live starts
      a second one beside it, and the core would commit both. */
  lemma ReAddOverlaps(p: Peer)
    ensures var a1, a2 := Attempt(true, [1], true), Attempt(true, [2], true);
            var t := Run([Request(p, false, 0, a1), Add(p, 0), Request(p, false, 0, a2)]);
            LiveEntry(t.sys, TxKey(p, 1), 0) && LiveEntry(t.sys, TxKey(p, 2), 0)
  {
    var a1, a2 := Attempt(true, [1], true), Attempt(true, [2], true);
    var e1, e2, e3 := Request(p, false, 0, a1), Add(p, 0), Request(p, false, 0, a2);
    assert [e1, e2, e3][..2] == [e1, e2] && [e1, e2][..1] == [e1] && [e1][..0] == [];
    var t1 := Step(Trace(EMPTY_SYS, [], 0), e1);
    assert Run([e1]) == t1;
    assert t1.sys.outstanding == map[TxKey(p, 1) := Outstanding(3_000, 0, true)];
    var t2 := Step(t1, e2);
    assert Run([e1, e2]) == t2;
    assert Cleaned(t2.sys.outstanding, 0) == t2.sys.outstanding;
    assert Run([e1, e2, e3]) == Step(t2, e3);
  }
}
