/** One WebSocket connection's secure endpoint, working on the shared table of sessions.

    A connection keeps a copy of its session in its own fields. Every packet first reloads the
    copy and writes it back afterwards, so whatever another connection did in between is kept: the
    contracts below say that each call performs one whole operation on the table entry, with no
    trace of the stale copy the connection may have held. */
module SecurePeer {
  import opened Words
  import opened ReplayWindow
  import opened ReceiveEpochs
  import opened SecureSession
  import opened SessionStore

  datatype Header = Header(fromPeer: u32, toPeer: u32, encrypted: bool)

  datatype Reception =
    | Rejected            // an error the host answers by closing the connection
    | Ignored             // dropped without a trace
    | Passed              // not encrypted, handed on as it is
    | Clear               // decrypted

  class Table {
    var sessions: Sessions

    constructor ()
      ensures sessions == map[]
    {
      sessions := map[];
    }

    method UpsertSession(key: SessionKey, generation: Option<u32>, algorithm: string, now: nat, root: Option<Key>)
      returns (selection: Option<Selection>)
      modifies this
      ensures (sessions, selection) == Upsert(old(sessions), key, generation, algorithm, now, root)
    {
      sessions := map k | k in sessions
          && (sessions[k].attachments > 0 || SatSub(now, sessions[k].lastTouchMs) < SESSION_IDLE_MS) :: sessions[k];
      if key in sessions {
        var session := sessions[key];
        if session.clientAlgorithm != algorithm {
          return None;
        }
        if generation == Some(session.generation) {
          sessions := sessions[key := session.(lastTouchMs := now)];
          return Some(Selection(Join, session.generation, None, session.rootKey, 0));
        }
        var syncEpoch := HighestEpoch(session);
        session := session.(nextEpoch := WrapInc32(syncEpoch), sendSeq := [0, 0], epochStartedMs := now,
                            packetsSinceEpoch := 0,
                            grace := SyncRxGrace(session.rxSlots, now + SYNC_RX_GRACE_AFTER_MS, true));
        session := session.(rxSlots := EMPTY_TABLE, decryptFailCount := 0, lastTouchMs := now);
        sessions := sessions[key := session];
        return Some(Selection(Sync, session.generation, Some(session.rootKey), session.rootKey, session.nextEpoch));
      }
      if |sessions| >= MAX_STORED_SESSIONS || root.None? {
        return None;
      }
      var created := StoredSession(root.value, 1, 0, [0, 0], now, 0, EMPTY_TABLE, EMPTY_GRACE, 0, algorithm, None,
                                   now, 0);
      sessions := sessions[key := created];
      return Some(Selection(Create, 1, root, root.value, 0));
    }

    method ConfirmSessionPublicKey(key: SessionKey, remote: Key, now: nat) returns (ok: bool)
      modifies this
      ensures (sessions, ok) == ConfirmKey(old(sessions), key, remote, now)
      ensures ok <==> key in old(sessions)
                      && (old(sessions)[key].remotePublicKey == None
                          || old(sessions)[key].remotePublicKey == Some(remote))
      ensures ok ==> key in sessions && sessions[key].remotePublicKey == Some(remote)
      ensures !ok ==> sessions == old(sessions)
    {
      if key !in sessions || (sessions[key].remotePublicKey.Some? && sessions[key].remotePublicKey.value != remote) {
        return false;
      }
      sessions := sessions[key := sessions[key].(remotePublicKey := Some(remote), lastTouchMs := now)];
      return true;
    }
  }

  /** The running maximum of the nested loop over slots, after `d` directions and `k` slots of the next. */
  function EpochAfter(s: StoredSession, d: nat, k: nat): u32
    requires d <= 2 && k <= 2
    requires d == 2 ==> k == 0
    decreases d, k
  {
    if k > 0 then Max(EpochAfter(s, d, k - 1), SlotEpoch(s.rxSlots[d][k - 1]))
    else if d > 0 then EpochAfter(s, d - 1, 2)
    else s.nextEpoch
  }

  method HighestEpoch(session: StoredSession) returns (epoch: u32)
    ensures epoch == SyncEpoch(session)
  {
    epoch := session.nextEpoch;
    for d := 0 to 2
      invariant epoch == EpochAfter(session, d, 0)
    {
      for k := 0 to 2
        invariant epoch == EpochAfter(session, d, k)
      {
        if session.rxSlots[d][k].valid {
          epoch := Max(epoch, session.rxSlots[d][k].epoch);
        }
      }
    }
    EpochAfterAll(session);
  }

  lemma EpochAfterAll(s: StoredSession)
    ensures EpochAfter(s, 2, 0) == SyncEpoch(s)
  {
    assert EpochAfter(s, 0, 1) == Max(s.nextEpoch, SlotEpoch(s.rxSlots[0][0]));
    assert EpochAfter(s, 0, 2) == Max(EpochAfter(s, 0, 1), SlotEpoch(s.rxSlots[0][1]));
    assert EpochAfter(s, 1, 0) == EpochAfter(s, 0, 2);
    assert EpochAfter(s, 1, 1) == Max(EpochAfter(s, 1, 0), SlotEpoch(s.rxSlots[1][0]));
  }

  lemma FreshAccepts(epoch: u32, sn: u64, now: nat)
    ensures CanAccept(EMPTY_WINDOW, sn)
    ensures Offered(EpochRxSlot(epoch, EMPTY_WINDOW, now, true), sn, now) == Opened(epoch, sn, now)
  {
  }

  class Peer {
    const serverPeerId: u32
    const serverPublicKey: Key
    const peerId: u32
    const networkName: string
    const clientAlgorithm: string
    const offeredGeneration: Option<u32>
    var handshakeOpen: bool
    var rootKey: Option<Key>
    var sessionKey: Option<SessionKey>
    var sessionAttached: bool
    var sendEpoch: u32
    var sendSeq: SendSeqs
    var epochStartedMs: nat
    var packetsSinceEpoch: u64
    var rxSlots: SlotTable
    var grace: SyncRxGrace
    var decryptFailCount: u32
    var authenticated: bool

    /** A connection that has read message 1. */
    constructor (serverPeerId: u32, serverPublicKey: Key, peerId: u32, networkName: string, clientAlgorithm: string,
                 offeredGeneration: Option<u32>, now: nat)
      ensures !authenticated && sessionKey.None? && !sessionAttached && handshakeOpen
    {
      this.serverPeerId, this.serverPublicKey, this.peerId := serverPeerId, serverPublicKey, peerId;
      this.networkName, this.clientAlgorithm, this.offeredGeneration := networkName, clientAlgorithm, offeredGeneration;
      handshakeOpen, rootKey, sessionKey, sessionAttached := true, None, None, false;
      sendEpoch, sendSeq, epochStartedMs, packetsSinceEpoch := 0, [0, 0], now, 0;
      rxSlots, grace, decryptFailCount, authenticated := EMPTY_TABLE, EMPTY_GRACE, 0, false;
    }

    /** This connection's copy, seen as the session `base` with the copied fields replaced. */
    ghost function Copy(base: StoredSession): StoredSession
      reads this
    {
      base.(nextEpoch := sendEpoch, sendSeq := sendSeq, epochStartedMs := epochStartedMs,
            packetsSinceEpoch := packetsSinceEpoch, rxSlots := rxSlots, grace := grace,
            decryptFailCount := decryptFailCount)
    }

    method LoadSessionState(table: Table) returns (ok: bool)
      modifies this
      ensures ok <==> sessionKey.Some? && sessionKey.value in table.sessions
      ensures ok ==> Copy(table.sessions[sessionKey.value]) == table.sessions[sessionKey.value]
      ensures ok ==> rootKey == Some(table.sessions[sessionKey.value].rootKey)
      ensures sessionKey == old(sessionKey) && authenticated == old(authenticated)
              && sessionAttached == old(sessionAttached)
      ensures handshakeOpen == old(handshakeOpen)
      ensures !ok ==> rootKey == old(rootKey)
    {
      if sessionKey.None? || sessionKey.value !in table.sessions {
        return false;
      }
      var session := table.sessions[sessionKey.value];
      rootKey := Some(session.rootKey);
      sendEpoch := session.nextEpoch;
      sendSeq := session.sendSeq;
      epochStartedMs := session.epochStartedMs;
      packetsSinceEpoch := session.packetsSinceEpoch;
      rxSlots := session.rxSlots;
      grace := session.grace;
      decryptFailCount := session.decryptFailCount;
      return true;
    }

    method PersistSessionState(table: Table, now: nat) returns (ok: bool)
      modifies table
      ensures ok <==> sessionKey.Some? && sessionKey.value in old(table.sessions)
      ensures table.sessions ==
              if ok then old(table.sessions)[sessionKey.value :=
                                             Copy(old(table.sessions)[sessionKey.value]).(lastTouchMs := now)]
              else old(table.sessions)
    {
      if sessionKey.None? || sessionKey.value !in table.sessions {
        return false;
      }
      var session := table.sessions[sessionKey.value];
      table.sessions := table.sessions[sessionKey.value :=
        session.(nextEpoch := sendEpoch, sendSeq := sendSeq, epochStartedMs := epochStartedMs,
                 packetsSinceEpoch := packetsSinceEpoch, rxSlots := rxSlots, grace := grace,
                 decryptFailCount := decryptFailCount, lastTouchMs := now)];
      return true;
    }

    method AttachSession(table: Table, now: nat) returns (ok: bool)
      modifies table, this`sessionAttached
      ensures sessionKey.None? ==> !ok && table.sessions == old(table.sessions)
      ensures sessionKey.Some? ==> (table.sessions, ok) == Attach(old(table.sessions), sessionKey.value, now)
      ensures sessionAttached == (ok || old(sessionAttached))
    {
      if sessionKey.None? || sessionKey.value !in table.sessions
          || table.sessions[sessionKey.value].attachments == U32_MAX {
        return false;
      }
      var session := table.sessions[sessionKey.value];
      table.sessions :=
          table.sessions[sessionKey.value := session.(attachments := session.attachments + 1, lastTouchMs := now)];
      sessionAttached := true;
      return true;
    }

    /** Freed when the connection goes away. */
    method Drop(table: Table, now: nat)
      modifies table
      ensures table.sessions ==
              if sessionAttached && sessionKey.Some? then Detach(old(table.sessions), sessionKey.value, now)
              else old(table.sessions)
    {
      if !sessionAttached || sessionKey.None? || sessionKey.value !in table.sessions {
        return;
      }
      var session := table.sessions[sessionKey.value];
      table.sessions := table.sessions[sessionKey.value :=
        session.(attachments := if session.attachments == 0 then 0 else session.attachments - 1, lastTouchMs := now)];
    }

    /** Message 2: select the session, attach to it and copy it in. `written` is whether Noise could
        write the message. */
    method BuildMsg2(table: Table, secret: string, now: nat, root: Option<Key>, written: bool)
        returns (selection: Option<Selection>)
      modifies table, this
      ensures secret == "" || old(sessionKey).Some? || !old(handshakeOpen) ==>
        selection.None? && table.sessions == old(table.sessions) && sessionKey == old(sessionKey)
      ensures handshakeOpen == old(handshakeOpen) && authenticated == old(authenticated)
      ensures secret != "" && old(sessionKey).None? && old(handshakeOpen) ==>
        var key := SessionKey(networkName, peerId, serverPeerId, serverPublicKey);
        var (upserted, chosen) := Upsert(old(table.sessions), key, offeredGeneration, clientAlgorithm, now, root);
        && (selection.Some? ==> selection == chosen)
        && (chosen.None? || !written ==> selection.None? && table.sessions == upserted)
        && (chosen.Some? && written ==>
              && sessionKey == Some(key)
              && table.sessions == Attach(upserted, key, now).0
              && (selection.Some? <==> Attach(upserted, key, now).1))
    {
      if secret == "" || sessionKey.Some? || !handshakeOpen {
        return None;
      }
      var key := SessionKey(networkName, peerId, serverPeerId, serverPublicKey);
      selection := table.UpsertSession(key, offeredGeneration, clientAlgorithm, now, root);
      if selection.None? || !written {
        return None;
      }
      rootKey := Some(selection.value.sessionRootKey);
      sessionKey := Some(key);
      var attached := AttachSession(table, now);
      if !attached {
        return None;
      }
      var loaded := LoadSessionState(table);
      if !loaded {
        return None;
      }
    }

    /** Message 3, given whether its envelope is right and whether what it carries proves the network
        secret; the static key must match the stored one. Only a right envelope uses the handshake up. */
    method FinishMsg3(table: Table, envelope: bool, proved: bool, remote: Key, now: nat) returns (ok: bool)
      modifies table, this`authenticated, this`handshakeOpen
      ensures ok <==> envelope && old(handshakeOpen) && proved && sessionKey.Some?
                      && sessionKey.value in old(table.sessions)
                      && (old(table.sessions)[sessionKey.value].remotePublicKey == None
                          || old(table.sessions)[sessionKey.value].remotePublicKey == Some(remote))
      ensures ok ==> sessionKey.value in table.sessions
      ensures ok ==> table.sessions[sessionKey.value].remotePublicKey == Some(remote)
      ensures table.sessions ==
              if envelope && old(handshakeOpen) && proved && sessionKey.Some?
              then ConfirmKey(old(table.sessions), sessionKey.value, remote, now).0
              else old(table.sessions)
      ensures authenticated == (ok || old(authenticated))
      ensures handshakeOpen == (old(handshakeOpen) && !envelope)
    {
      if !envelope || !handshakeOpen {
        return false;
      }
      handshakeOpen := false;
      if !proved || sessionKey.None? {
        return false;
      }
      ok := table.ConfirmSessionPublicKey(sessionKey.value, remote, now);
      if ok {
        authenticated := true;
      }
    }

    // ----- sending

    method MaybeRotateEpoch(now: nat)
      modifies this`sendEpoch, this`epochStartedMs, this`packetsSinceEpoch
      ensures forall base: StoredSession :: Copy(base) == Rotate(old(Copy(base)), now)
    {
      if packetsSinceEpoch < U64_MAX {
        packetsSinceEpoch := packetsSinceEpoch + 1;
      }
      if packetsSinceEpoch < ROTATE_AFTER_PACKETS && SatSub(now, epochStartedMs) < ROTATE_AFTER_MS {
        return;
      }
      sendEpoch := WrapInc32(sendEpoch);
      epochStartedMs := now;
      packetsSinceEpoch := 0;
    }

    method EncryptPayload(dir: Direction, now: nat) returns (nonce: Option<(u32, u64)>)
      modifies this`sendEpoch, this`epochStartedMs, this`packetsSinceEpoch, this`sendSeq
      ensures forall base: StoredSession ::
                (Copy(base).(lastTouchMs := now), nonce) == Send(old(Copy(base)), dir, now)
    {
      MaybeRotateEpoch(now);
      var epoch := sendEpoch;
      var sequence := sendSeq[dir];
      if sequence == U64_MAX {
        return None;
      }
      sendSeq := sendSeq[dir := sequence + 1];
      return Some((epoch, sequence));
    }

    predicate Usable()
      reads this
    {
      authenticated && rootKey.Some?
    }

    /** A packet of the relay to this peer. Nothing happens unless the connection is authenticated,
        its session is stored and the header is right; otherwise the stored session sends one packet. */
    method EncryptPacket(table: Table, header: Header, now: nat) returns (nonce: Option<(u32, u64)>)
      modifies table, this
      ensures sessionKey == old(sessionKey) && authenticated == old(authenticated)
      ensures var key := sessionKey;
              if old(Usable()) && key.Some? && key.value in old(table.sessions)
                 && header == Header(serverPeerId, peerId, false)
              then (table.sessions, nonce)
                   == (old(table.sessions)[key.value :=
                         Send(old(table.sessions)[key.value], DirectionIndex(serverPeerId, peerId), now).0],
                       Send(old(table.sessions)[key.value], DirectionIndex(serverPeerId, peerId), now).1)
              else table.sessions == old(table.sessions) && nonce.None?
    {
      if !Usable() {
        return None;
      }
      var loaded := LoadSessionState(table);
      if !loaded || header.fromPeer != serverPeerId || header.toPeer != peerId || header.encrypted {
        return None;
      }
      ghost var session := table.sessions[sessionKey.value];
      assert Copy(session) == session;
      nonce := EncryptPayload(DirectionIndex(header.fromPeer, header.toPeer), now);
      var saved := PersistSessionState(table, now);
    }

    // ----- receiving

    method EvictSlots(table: SlotTable, now: nat) returns (evicted: SlotTable)
      ensures evicted == EvictTable(table, now)
    {
      hide EvictSlot;
      evicted := table;
      for d := 0 to 2
        invariant forall i :: 0 <= i < d ==> evicted[i] == EvictPair(table[i], now)
        invariant forall i :: d <= i < 2 ==> evicted[i] == table[i]
      {
        var pair := evicted[d];
        for k := 0 to 2
          invariant forall i :: 0 <= i < k ==> pair[i] == EvictSlot(table[d][i], now)
          invariant forall i :: k <= i < 2 ==> pair[i] == table[d][i]
        {
          pair := pair[k := EvictSlot(pair[k], now)];
        }
        assert pair == EvictPair(table[d], now);
        evicted := evicted[d := pair];
      }
    }

    method EvictOldRxSlots(now: nat)
      modifies this`rxSlots, this`grace
      ensures forall base: StoredSession :: Copy(base) == Evict(old(Copy(base)), now)
    {
      rxSlots := EvictSlots(rxSlots, now);
      if grace.valid && now >= grace.expiresAtMs {
        grace := EMPTY_GRACE;
      } else if grace.valid {
        var slots := EvictSlots(grace.slots, now);
        grace := grace.(slots := slots);
      }
    }

    ghost function MyLane(dir: Direction): Lane
      reads this
    {
      Lane(rxSlots[dir], if grace.valid then grace.slots[dir] else EMPTY_PAIR)
    }

    method PrecheckReplay(epoch: u32, sn: u64, dir: Direction) returns (ok: bool)
      ensures ok == Precheck(MyLane(dir), sendEpoch, epoch, sn)
    {
      if grace.valid {
        for k := 0 to 2
          invariant forall i :: 0 <= i < k ==> !Holds(grace.slots[dir][i], epoch)
        {
          var slot := grace.slots[dir][k];
          if slot.valid && slot.epoch == epoch {
            return CanAccept(slot.window, sn);
          }
        }
      }
      var slots := rxSlots[dir];
      if !slots[0].valid {
        return true;
      }
      if slots[0].epoch == epoch {
        return CanAccept(slots[0].window, sn);
      }
      if slots[1].valid && slots[1].epoch == epoch {
        return CanAccept(slots[1].window, sn);
      }
      if epoch > slots[0].epoch {
        var baseline := Max(sendEpoch, slots[0].epoch);
        if slots[1].valid {
          baseline := Max(baseline, slots[1].epoch);
        }
        var ahead := baseline + MAX_ACCEPTED_RX_EPOCH_AHEAD;
        return epoch <= if ahead > U32_MAX then U32_MAX else ahead;
      }
      return false;
    }

    method CommitReplay(epoch: u32, sn: u64, dir: Direction, now: nat) returns (ok: bool)
      modifies this`rxSlots, this`grace
      ensures ok == Commit(old(MyLane(dir)), epoch, sn, now).1
      ensures MyLane(dir) == Commit(old(MyLane(dir)), epoch, sn, now).0
      ensures rxSlots == old(rxSlots)[dir := MyLane(dir).main]
      ensures grace == if old(grace).valid then old(grace).(slots := old(grace).slots[dir := MyLane(dir).grace])
          else old(grace)
    {
      hide CanAccept, Record;
      if grace.valid {
        for k := 0 to 2
          invariant forall i :: 0 <= i < k ==> !Holds(grace.slots[dir][i], epoch)
          invariant rxSlots == old(rxSlots) && grace == old(grace)
        {
          var slot := grace.slots[dir][k];
          if slot.valid && slot.epoch == epoch {
            var pair := grace.slots[dir][k := Offered(slot, sn, now)];
            grace := grace.(slots := grace.slots[dir := pair]);
            assert k == 0 || k == 1;
            return CanAccept(slot.window, sn);
          }
        }
      }
      var slots := rxSlots[dir];
      if !slots[0].valid {
        slots := slots[0 := EpochRxSlot(epoch, EMPTY_WINDOW, now, true)];
        FreshAccepts(epoch, sn, now);
        ok := CanAccept(EMPTY_WINDOW, sn);
        slots := slots[0 := Offered(slots[0], sn, now)];
      } else if slots[0].epoch == epoch {
        ok := CanAccept(slots[0].window, sn);
        slots := slots[0 := Offered(slots[0], sn, now)];
      } else if slots[1].valid && slots[1].epoch == epoch {
        ok := CanAccept(slots[1].window, sn);
        slots := slots[1 := Offered(slots[1], sn, now)];
      } else if epoch > slots[0].epoch {
        FreshAccepts(epoch, sn, now);
        ok := CanAccept(EMPTY_WINDOW, sn);
        slots := [Offered(EpochRxSlot(epoch, EMPTY_WINDOW, now, true), sn, now), slots[0]];
      } else {
        ok := false;
      }
      rxSlots := rxSlots[dir := slots];
    }

    method DecryptPayload(dir: Direction, p: Payload, now: nat) returns (verdict: Verdict)
      modifies this`rxSlots, this`grace, this`decryptFailCount
      ensures forall base: StoredSession ::
                (Copy(base).(lastTouchMs := now), verdict) == Receive(old(Copy(base)), dir, p, now)
    {
      hide Precheck, Commit, EvictTable;
      if p.TooShort? {
        return Failed;
      }
      EvictOldRxSlots(now);
      var admitted := PrecheckReplay(p.epoch, p.sn, dir);
      if !admitted {
        return Dropped;
      }
      if !p.opens {
        decryptFailCount := if decryptFailCount == U32_MAX then U32_MAX else decryptFailCount + 1;
        return if decryptFailCount >= DECRYPT_FAIL_THRESHOLD then Failed else Dropped;
      }
      decryptFailCount := 0;
      var committed := CommitReplay(p.epoch, p.sn, dir, now);
      return if committed then Delivered else Dropped;
    }

    /** A packet of this peer to the relay: one receive operation on the stored session. */
    method DecryptPacket(table: Table, header: Header, p: Payload, now: nat) returns (r: Reception)
      modifies table, this
      ensures sessionKey == old(sessionKey) && authenticated == old(authenticated)
      ensures var key := sessionKey;
              if old(Usable()) && key.Some? && key.value in old(table.sessions)
                 && header == Header(peerId, serverPeerId, true)
              then
                var (session, verdict) :=
                    Receive(old(table.sessions)[key.value], DirectionIndex(peerId, serverPeerId), p, now);
                && table.sessions == old(table.sessions)[key.value := session]
                && r == match verdict { case Delivered => Clear case Dropped => Ignored case Failed => Rejected }
              else table.sessions == old(table.sessions) && (r == Rejected || r == Passed)
    {
      if !Usable() {
        return Rejected;
      }
      var loaded := LoadSessionState(table);
      if !loaded || header.fromPeer != peerId || header.toPeer != serverPeerId {
        return Rejected;
      }
      if !header.encrypted {
        return Passed;
      }
      ghost var session := table.sessions[sessionKey.value];
      assert Copy(session) == session;
      var verdict := DecryptPayload(DirectionIndex(header.fromPeer, header.toPeer), p, now);
      var saved := PersistSessionState(table, now);
      return match verdict { case Delivered => Clear case Dropped => Ignored case Failed => Rejected };
    }
  }
}
