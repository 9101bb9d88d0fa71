/** The table of stored sessions and the nonces that leave it.

    Any number of connections act on the table in any order. The module proves that, per root key
    and direction, the (epoch, sequence number) pairs that reach the cipher strictly increase, and
    that the only thing that can break this is the 32-bit epoch wrapping around. */
module SessionStore {
  import opened Words
  import opened ReplayWindow
  import opened ReceiveEpochs
  import opened SecureSession

  const SESSION_IDLE_MS: nat := 60_000
  const MAX_STORED_SESSIONS: nat := 2_048

  datatype SessionKey = SessionKey(network: string, peerId: u32, serverPeerId: u32, serverPublicKey: Key)

  type Sessions = map<SessionKey, StoredSession>

  datatype Action = Join | Sync | Create

  datatype Selection = Selection(action: Action, generation: u32, rootKeyForPeer: Option<Key>, sessionRootKey: Key,
                                 initialEpoch: u32)

  // ----- operations on the table

  function Retained(m: Sessions, now: nat): Sessions {
    map k | k in m && (m[k].attachments > 0 || SatSub(now, m[k].lastTouchMs) < SESSION_IDLE_MS) :: m[k]
  }

  /** Selects the session for a handshake: join it, synchronise it, or create it. `root` is the
      random source, absent when it fails. */
  function Upsert(m: Sessions, key: SessionKey, generation: Option<u32>, algorithm: string, now: nat, root: Option<Key>)
    : (Sessions, Option<Selection>)
  {
    var kept := Retained(m, now);
    if key in kept then
      var s := kept[key];
      if s.clientAlgorithm != algorithm then (kept, None)
      else if generation == Some(s.generation) then
        (kept[key := s.(lastTouchMs := now)], Some(Selection(Join, s.generation, None, s.rootKey, 0)))
      else
        var s' := Synced(s, now);
        (kept[key := s'], Some(Selection(Sync, s'.generation, Some(s'.rootKey), s'.rootKey, s'.nextEpoch)))
    else if |kept| >= MAX_STORED_SESSIONS || root.None? then (kept, None)
    else (kept[key := Created(root.value, algorithm, now)], Some(Selection(Create, 1, root, root.value, 0)))
  }

  function Attach(m: Sessions, key: SessionKey, now: nat): (Sessions, bool) {
    if key !in m || m[key].attachments == U32_MAX then (m, false)
    else (m[key := m[key].(attachments := m[key].attachments + 1, lastTouchMs := now)], true)
  }

  function Detach(m: Sessions, key: SessionKey, now: nat): Sessions {
    if key !in m then m
    else m[key := m[key].(attachments := SatSub(m[key].attachments, 1), lastTouchMs := now)]
  }

  function ConfirmKey(m: Sessions, key: SessionKey, remote: Key, now: nat): (Sessions, bool) {
    if key !in m || (m[key].remotePublicKey.Some? && m[key].remotePublicKey.value != remote) then (m, false)
    else (m[key := m[key].(remotePublicKey := Some(remote), lastTouchMs := now)], true)
  }

  /** What the handshake tells the peer is what the table now holds, and which action it names is
      decided by whether a session was kept and whether the generations agree. */
  lemma SelectionMatchesTable(m: Sessions, key: SessionKey, generation: Option<u32>, algorithm: string, now: nat,
                              root: Option<Key>)
    requires Upsert(m, key, generation, algorithm, now, root).1.Some?
    ensures var (m', chosen) := Upsert(m, key, generation, algorithm, now, root);
            var sel := chosen.value;
            && key in m' && m'[key].clientAlgorithm == algorithm
            && sel.sessionRootKey == m'[key].rootKey && sel.generation == m'[key].generation
            && (sel.rootKeyForPeer.Some? <==> sel.action != Join)
            && (sel.rootKeyForPeer.Some? ==> sel.rootKeyForPeer.value == m'[key].rootKey)
            && (sel.action != Join ==> sel.initialEpoch == m'[key].nextEpoch)
            && (sel.action == Create <==> key !in Retained(m, now))
            && (sel.action == Join <==> key in Retained(m, now) && generation == Some(m[key].generation))
            && (sel.action != Create ==> m'[key].rootKey == m[key].rootKey)
  {
  }

  /** A handshake keeps the sessions that are attached or were used less than a minute ago, and no others. */
  lemma RetentionTimes(m: Sessions, now: nat, k: SessionKey)
    ensures k in Retained(m, now) <==> k in m && (m[k].attachments > 0 || now < m[k].lastTouchMs + 60_000)
    ensures k in Retained(m, now) ==> Retained(m, now)[k] == m[k]
  {
  }

  /** A session is selected exactly when a kept one has the peer's algorithm, or none is kept, the random source
      works and fewer than 2048 are kept. Other sessions stay as they are. */
  lemma SelectionExists(m: Sessions, key: SessionKey, generation: Option<u32>, algorithm: string, now: nat,
                        root: Option<Key>)
    ensures var kept := Retained(m, now);
            var (m', chosen) := Upsert(m, key, generation, algorithm, now, root);
            && (chosen.Some? <==> if key in kept then kept[key].clientAlgorithm == algorithm
                                  else root.Some? && |kept| < 2_048)
            && (forall k :: k != key ==> (k in m' <==> k in kept) && (k in kept ==> m'[k] == kept[k]))
            && (chosen.None? ==> m' == kept)
  {
    hide Synced, Created;
  }

  /** What a selected session looks like: created, it sends its first packet under epoch 0 and number 0 and has
      received nothing; joined, it is unchanged; synchronised, it sends from number 0 under an epoch after every
      one in use, and has its slots set aside. */
  lemma SelectedSession(m: Sessions, key: SessionKey, generation: Option<u32>, algorithm: string, now: nat,
                        root: Option<Key>)
    requires Upsert(m, key, generation, algorithm, now, root).1.Some?
    ensures var (m', chosen) := Upsert(m, key, generation, algorithm, now, root);
            var s := m'[key];
            && s.lastTouchMs == now
            && (chosen.value.action == Create ==>
                  s.rootKey == root.value && s.generation == 1 && s.nextEpoch == 0 && s.sendSeq == [0, 0]
                  && s.rxSlots == EMPTY_TABLE && !s.grace.valid && s.remotePublicKey.None? && s.attachments == 0
                  && s.epochStartedMs == now && s.packetsSinceEpoch == 0 && s.decryptFailCount == 0)
            && (chosen.value.action == Join ==> s == m[key].(lastTouchMs := now))
            && (chosen.value.action == Sync ==>
                  s.sendSeq == [0, 0] && s.rxSlots == EMPTY_TABLE && s.grace.slots == m[key].rxSlots
                  && s.grace.valid && s.grace.expiresAtMs == now + 5_000 && s.remotePublicKey == m[key].remotePublicKey
                  && s.generation == m[key].generation && s.attachments == m[key].attachments
                  && s.epochStartedMs == now && s.packetsSinceEpoch == 0 && s.decryptFailCount == 0
                  && (SyncEpoch(m[key]) < U32_MAX ==>
                        s.nextEpoch > m[key].nextEpoch
                        && forall d: Direction, k: Direction :: m[key].rxSlots[d][k].valid ==>
                             s.nextEpoch > m[key].rxSlots[d][k].epoch))
  {
    if key in Retained(m, now) {
      hide Retained;
      forall d: Direction, k: Direction | m[key].rxSlots[d][k].valid
        ensures m[key].rxSlots[d][k].epoch <= SyncEpoch(m[key])
      {
        assert (d == 0 || d == 1) && (k == 0 || k == 1);
      }
    }
  }

  /** A session someone is attached to is never dropped. */
  lemma AttachedSessionsStay(m: Sessions, key: SessionKey, generation: Option<u32>, algorithm: string, now: nat,
                             root: Option<Key>, k: SessionKey)
    requires k in m && m[k].attachments > 0
    ensures var m' := Upsert(m, key, generation, algorithm, now, root).0;
            k in m' && m'[k].attachments == m[k].attachments && m'[k].rootKey == m[k].rootKey
  {
    assert k in Retained(m, now);
  }

  /** The table never outgrows its limit. */
  lemma TableStaysSmall(m: Sessions, key: SessionKey, generation: Option<u32>, algorithm: string, now: nat,
                        root: Option<Key>)
    requires |m| <= 2_048
    ensures |Upsert(m, key, generation, algorithm, now, root).0| <= 2_048
  {
    hide Synced, Created;
    var kept := Retained(m, now);
    RetainedIsSmaller(m, now);
    var m' := Upsert(m, key, generation, algorithm, now, root).0;
    if key in kept {
      KeysKeepSize(kept, m');
    } else if m' != kept {
      hide Retained;
      assert m'.Keys == kept.Keys + {key};
      assert |m'.Keys| == |kept.Keys| + 1;
    }
  }

  lemma RetainedIsSmaller(m: Sessions, now: nat)
    ensures |Retained(m, now)| <= |m|
  {
    var kept := Retained(m, now);
    assert m.Keys == kept.Keys + (m.Keys - kept.Keys);
    assert |kept.Keys| == |kept| && |m.Keys| == |m|;
  }

  lemma KeysKeepSize(a: Sessions, b: Sessions)
    requires a.Keys == b.Keys
    ensures |a| == |b|
  {
    assert |a.Keys| == |a| && |b.Keys| == |b|;
  }

  // ----- what leaves the table

  /** One sealed packet: its root key, direction, and the nonce it used. */
  datatype Emission = Emission(root: Key, dir: Direction, epoch: u32, sn: u64)

  datatype TableEvent =
    | Handshake(key: SessionKey, generation: Option<u32>, algorithm: string, now: nat, root: Option<Key>)
    | Attached(key: SessionKey, now: nat)
    | Detached(key: SessionKey, now: nat)
    | Confirmed(key: SessionKey, remote: Key, now: nat)
    | Encrypt(key: SessionKey, dir: Direction, now: nat)
    | Decrypt(key: SessionKey, dir: Direction, payload: Payload, now: nat)

  /** `used` holds every root key ever drawn. */
  datatype World = World(sessions: Sessions, used: set<Key>, log: seq<Emission>)

  function Next(w: World, ev: TableEvent): World {
    match ev
    case Handshake(key, generation, algorithm, now, root) =>
      World(Upsert(w.sessions, key, generation, algorithm, now, root).0,
            if root.Some? then w.used + {root.value} else w.used, w.log)
    case Attached(key, now) => w.(sessions := Attach(w.sessions, key, now).0)
    case Detached(key, now) => w.(sessions := Detach(w.sessions, key, now))
    case Confirmed(key, remote, now) => w.(sessions := ConfirmKey(w.sessions, key, remote, now).0)
    case Decrypt(key, dir, payload, now) =>
      if key !in w.sessions then w
      else w.(sessions := w.sessions[key := Receive(w.sessions[key], dir, payload, now).0])
    case Encrypt(key, dir, now) =>
      if key !in w.sessions then w
      else
        var (s, nonce) := Send(w.sessions[key], dir, now);
        w.(sessions := w.sessions[key := s],
           log := if nonce.None? then w.log
                  else w.log + [Emission(s.rootKey, dir, nonce.value.0, nonce.value.1)])
  }

  /** Lexicographic order on (epoch, sequence number). */
  predicate Before(e: nat, q: nat, f: nat, r: nat) {
    e < f || (e == f && q < r)
  }

  predicate Synchronises(m: Sessions, key: SessionKey, generation: Option<u32>, algorithm: string, now: nat) {
    key in Retained(m, now) && m[key].clientAlgorithm == algorithm && generation != Some(m[key].generation)
  }

  /** `root` is not drawn a second time, and the epoch of its session does not wrap. Other sessions may do
      as they like. */
  predicate Admissible(w: World, ev: TableEvent, root: Key) {
    match ev
    case Handshake(key, generation, algorithm, now, drawn) =>
      && (drawn == Some(root) ==> root !in w.used)
      && (Synchronises(w.sessions, key, generation, algorithm, now) && w.sessions[key].rootKey == root ==>
            SyncEpoch(w.sessions[key]) < U32_MAX)
    case Encrypt(key, dir, now) =>
      key in w.sessions && w.sessions[key].rootKey == root && RotationDue(w.sessions[key], now) ==>
        w.sessions[key].nextEpoch < U32_MAX
    case _ => true
  }

  predicate AdmissibleRun(evs: seq<TableEvent>, root: Key) {
    evs == [] ||
    (AdmissibleRun(evs[..|evs| - 1], root) && Admissible(RunTable(evs[..|evs| - 1]), evs[|evs| - 1], root))
  }

  function RunTable(evs: seq<TableEvent>): World {
    if evs == [] then World(map[], {}, []) else Next(RunTable(evs[..|evs| - 1]), evs[|evs| - 1])
  }

  /** Every emission under `root` lies strictly before the next nonce of the session that owns it. */
  ghost predicate Ahead(sessions: Sessions, log: seq<Emission>, root: Key) {
    forall k, i :: k in sessions && sessions[k].rootKey == root && 0 <= i < |log| && log[i].root == root ==>
      Before(log[i].epoch, log[i].sn, sessions[k].nextEpoch, sessions[k].sendSeq[log[i].dir])
  }

  /** At most one session has this root key, and only once it was drawn. */
  ghost predicate OwnedOnce(sessions: Sessions, used: set<Key>, root: Key) {
    && (forall k :: k in sessions && sessions[k].rootKey == root ==> root in used)
    && (forall k, l :: k in sessions && l in sessions && sessions[k].rootKey == sessions[l].rootKey == root ==> k == l)
  }

  /** Under `root`, per direction, the log strictly increases. */
  ghost predicate Increasing(log: seq<Emission>, root: Key) {
    forall i, j :: 0 <= i < j < |log| && log[i].root == log[j].root == root && log[i].dir == log[j].dir ==>
      Before(log[i].epoch, log[i].sn, log[j].epoch, log[j].sn)
  }

  ghost predicate Sound(w: World, root: Key) {
    && OwnedOnce(w.sessions, w.used, root)
    && (forall i :: 0 <= i < |w.log| && w.log[i].root == root ==> root in w.used)
    && Ahead(w.sessions, w.log, root)
    && Increasing(w.log, root)
  }

  /** The counters of `s'` are nowhere behind those of `s`. */
  ghost predicate NotBehind(s: StoredSession, s': StoredSession) {
    && s'.rootKey == s.rootKey
    && forall d: Direction ::
         (s'.nextEpoch == s.nextEpoch && s'.sendSeq[d] == s.sendSeq[d])
         || Before(s.nextEpoch, s.sendSeq[d], s'.nextEpoch, s'.sendSeq[d])
  }

  /** Replacing a session by one with the same root key, whose counters are not behind if that is `root`. */
  lemma ReplaceKeepsSound(w: World, key: SessionKey, s': StoredSession, root: Key)
    requires Sound(w, root) && key in w.sessions && s'.rootKey == w.sessions[key].rootKey
    requires s'.rootKey == root ==> NotBehind(w.sessions[key], s')
    ensures Sound(w.(sessions := w.sessions[key := s']), root)
  {
    var s := w.sessions[key];
    forall i | 0 <= i < |w.log| && w.log[i].root == s'.rootKey == root
      ensures Before(w.log[i].epoch, w.log[i].sn, s'.nextEpoch, s'.sendSeq[w.log[i].dir])
    {
      assert Before(w.log[i].epoch, w.log[i].sn, s.nextEpoch, s.sendSeq[w.log[i].dir]);
    }
  }

  lemma DropKeepsSound(w: World, fewer: Sessions, root: Key)
    requires Sound(w, root) && forall k :: k in fewer ==> k in w.sessions && fewer[k] == w.sessions[k]
    ensures Sound(w.(sessions := fewer), root)
  {
  }

  lemma CreateKeepsSound(w: World, key: SessionKey, drawn: Key, algorithm: string, now: nat, root: Key)
    requires Sound(w, root) && key !in w.sessions && (drawn == root ==> root !in w.used)
    ensures Sound(World(w.sessions[key := Created(drawn, algorithm, now)], w.used + {drawn}, w.log), root)
  {
  }

  lemma UsedGrows(w: World, drawn: Key, root: Key)
    requires Sound(w, root)
    ensures Sound(w.(used := w.used + {drawn}), root)
  {
  }

  /** A `Sync` moves both counters strictly forward exactly when the epoch it starts from is not the last. */
  lemma SyncAdvances(s: StoredSession, now: nat)
    ensures (forall d: Direction ::
             Before(s.nextEpoch, s.sendSeq[d], Synced(s, now).nextEpoch, Synced(s, now).sendSeq[d]))
       <==> SyncEpoch(s) < U32_MAX
  {
    var s' := Synced(s, now);
    assert s'.nextEpoch == if SyncEpoch(s) == U32_MAX then 0 else SyncEpoch(s) + 1;
    assert s'.sendSeq[0] == 0;
    if SyncEpoch(s) == U32_MAX {
      var zero: Direction := 0;
      assert !Before(s.nextEpoch, s.sendSeq[zero], s'.nextEpoch, s'.sendSeq[zero]);
    }
  }

  /** The nonce is not behind the old counters, and the new counters are past it. */
  ghost predicate MovesPast(s: StoredSession, s': StoredSession, dir: Direction, epoch: u32, sn: u64) {
    && NotBehind(s, s')
    && !Before(epoch, sn, s.nextEpoch, s.sendSeq[dir])
    && Before(epoch, sn, s'.nextEpoch, s'.sendSeq[dir])
  }

  /** A sent packet moves the counters past its nonce exactly when it does not rotate away from the
      last epoch. */
  lemma SendAdvances(s: StoredSession, dir: Direction, now: nat)
    requires Send(s, dir, now).1.Some?
    ensures MovesPast(s, Send(s, dir, now).0, dir, Send(s, dir, now).1.value.0, Send(s, dir, now).1.value.1)
       <==> (RotationDue(s, now) ==> s.nextEpoch < U32_MAX)
  {
    var r := Rotate(s, now);
    if RotationDue(s, now) && s.nextEpoch == U32_MAX {
      assert Before(r.nextEpoch, r.sendSeq[dir], s.nextEpoch, s.sendSeq[dir]);
    }
  }

  lemma SilentSendAdvances(s: StoredSession, dir: Direction, now: nat)
    requires Send(s, dir, now).1.None? && (RotationDue(s, now) ==> s.nextEpoch < U32_MAX)
    ensures NotBehind(s, Send(s, dir, now).0)
  {
  }

  lemma ReceiveKeepsCounters(s: StoredSession, dir: Direction, p: Payload, now: nat)
    ensures var s' := Receive(s, dir, p, now).0;
            s'.rootKey == s.rootKey && s'.nextEpoch == s.nextEpoch && s'.sendSeq == s.sendSeq
  {
    hide Precheck, Commit, CanAccept;
  }

  lemma HandshakeKeepsSound(w: World, key: SessionKey, generation: Option<u32>, algorithm: string, now: nat,
                            drawn: Option<Key>, root: Key)
    requires Sound(w, root) && Admissible(w, Handshake(key, generation, algorithm, now, drawn), root)
    ensures Sound(Next(w, Handshake(key, generation, algorithm, now, drawn)), root)
  {
    hide Sound, Created;
    var kept := Retained(w.sessions, now);
    DropKeepsSound(w, kept, root);
    var w1 := w.(sessions := kept);
    if key in kept {
      hide Synced;
      if drawn.Some? {
        UsedGrows(w1, drawn.value, root);
      }
      var w2 := if drawn.Some? then w1.(used := w1.used + {drawn.value}) else w1;
      var s := kept[key];
      if s.clientAlgorithm == algorithm {
        if generation == Some(s.generation) {
          ReplaceKeepsSound(w2, key, s.(lastTouchMs := now), root);
        } else {
          SyncAdvances(s, now);
          SyncKeepsRoot(s, now);
          ReplaceKeepsSound(w2, key, Synced(s, now), root);
        }
      }
    } else if drawn.Some? {
      if |kept| < MAX_STORED_SESSIONS {
        CreateKeepsSound(w1, key, drawn.value, algorithm, now, root);
      } else {
        UsedGrows(w1, drawn.value, root);
      }
    }
  }

  lemma SyncKeepsRoot(s: StoredSession, now: nat)
    ensures Synced(s, now).rootKey == s.rootKey
  {
  }

  lemma SendKeepsRoot(s: StoredSession, dir: Direction, now: nat)
    ensures Send(s, dir, now).0.rootKey == s.rootKey
  {
  }

  lemma EncryptKeepsSound(w: World, key: SessionKey, dir: Direction, now: nat, root: Key)
    requires Sound(w, root) && Admissible(w, Encrypt(key, dir, now), root) && key in w.sessions
    ensures Sound(Next(w, Encrypt(key, dir, now)), root)
  {
    hide Sound, Send;
    var s := w.sessions[key];
    var (s', nonce) := Send(s, dir, now);
    SendKeepsRoot(s, dir, now);
    if nonce.None? {
      if s.rootKey == root {
        SilentSendAdvances(s, dir, now);
      }
      ReplaceKeepsSound(w, key, s', root);
    } else {
      if s.rootKey == root {
        SendAdvances(s, dir, now);
      }
      ReplaceKeepsSound(w, key, s', root);
      LogKeepsSound(w, key, s', dir, nonce.value.0, nonce.value.1, root);
    }
  }

  lemma LogKeepsSound(w: World, key: SessionKey, s': StoredSession, dir: Direction, epoch: u32, sn: u64, root: Key)
    requires Sound(w, root) && key in w.sessions && s'.rootKey == w.sessions[key].rootKey
    requires s'.rootKey == root ==>
               && !Before(epoch, sn, w.sessions[key].nextEpoch, w.sessions[key].sendSeq[dir])
               && Before(epoch, sn, s'.nextEpoch, s'.sendSeq[dir])
    requires Sound(w.(sessions := w.sessions[key := s']), root)
    ensures Sound(World(w.sessions[key := s'], w.used, w.log + [Emission(s'.rootKey, dir, epoch, sn)]), root)
  {
    var sessions := w.sessions[key := s'];
    var log := w.log + [Emission(s'.rootKey, dir, epoch, sn)];
    var n := |w.log|;
    forall i, j | 0 <= i < j < |log| && log[i].root == log[j].root == root && log[i].dir == log[j].dir
      ensures Before(log[i].epoch, log[i].sn, log[j].epoch, log[j].sn)
    {
      if j == n {
        assert Before(log[i].epoch, log[i].sn, w.sessions[key].nextEpoch, w.sessions[key].sendSeq[dir]);
      }
    }
    forall k, i | k in sessions && sessions[k].rootKey == root && 0 <= i < |log| && log[i].root == root
      ensures Before(log[i].epoch, log[i].sn, sessions[k].nextEpoch, sessions[k].sendSeq[log[i].dir])
    {
      if i == n {
        assert sessions[key].rootKey == s'.rootKey && k == key;
      }
    }
  }

  lemma NextKeepsSound(w: World, ev: TableEvent, root: Key)
    requires Sound(w, root) && Admissible(w, ev, root)
    ensures Sound(Next(w, ev), root)
  {
    hide Sound, Upsert, Send, Receive;
    match ev
    case Handshake(key, generation, algorithm, now, drawn) =>
      HandshakeKeepsSound(w, key, generation, algorithm, now, drawn, root);
    case Attached(key, now) =>
      if Attach(w.sessions, key, now).1 {
        ReplaceKeepsSound(w, key, Attach(w.sessions, key, now).0[key], root);
      }
    case Detached(key, now) =>
      if key in w.sessions {
        ReplaceKeepsSound(w, key, Detach(w.sessions, key, now)[key], root);
      }
    case Confirmed(key, remote, now) =>
      if ConfirmKey(w.sessions, key, remote, now).1 {
        ReplaceKeepsSound(w, key, ConfirmKey(w.sessions, key, remote, now).0[key], root);
      }
    case Decrypt(key, dir, payload, now) =>
      if key in w.sessions {
        ReceiveKeepsCounters(w.sessions[key], dir, payload, now);
        ReplaceKeepsSound(w, key, Receive(w.sessions[key], dir, payload, now).0, root);
      }
    case Encrypt(key, dir, now) =>
      if key in w.sessions {
        EncryptKeepsSound(w, key, dir, now, root);
      }
  }

  /** Over every interleaving of handshakes, joins, syncs, rotations and packets by any number of
      connections, the nonces under one root key strictly increase per direction, as long as the epoch
      of its own session does not wrap. */
  lemma {:induction false} NoncesIncrease(evs: seq<TableEvent>, root: Key)
    requires AdmissibleRun(evs, root)
    ensures Sound(RunTable(evs), root)
    ensures Increasing(RunTable(evs).log, root)
  {
    if evs != [] {
      NoncesIncrease(evs[..|evs| - 1], root);
      hide Sound, Admissible, Next;
      NextKeepsSound(RunTable(evs[..|evs| - 1]), evs[|evs| - 1], root);
    }
    assert Sound(RunTable(evs), root);
  }

  /** Hence no cipher key derived from that root key ever sees the same nonce twice. */
  lemma NoNonceReuse(evs: seq<TableEvent>, root: Key, i: nat, j: nat)
    requires AdmissibleRun(evs, root) && i < j < |RunTable(evs).log| && RunTable(evs).log[i].root == root
    ensures var a, b := RunTable(evs).log[i], RunTable(evs).log[j];
            (TrafficKey(a.root, a.epoch, a.dir), a.epoch, a.sn) != (TrafficKey(b.root, b.epoch, b.dir), b.epoch, b.sn)
  {
    NoncesIncrease(evs, root);
  }

  // ----- the static key of a session

  /** The event does not drop this session: it is no handshake that finds it idle and unattached. */
  predicate Lasts(w: World, ev: TableEvent, key: SessionKey) {
    ev.Handshake? ==> key in Retained(w.sessions, ev.now)
  }

  predicate LastsThrough(evs: seq<TableEvent>, more: seq<TableEvent>, key: SessionKey) {
    more == [] ||
    var init := more[..|more| - 1];
    LastsThrough(evs, init, key) && Lasts(RunTable(evs + init), more[|more| - 1], key)
  }

  predicate Bound(w: World, key: SessionKey, remote: Key) {
    key in w.sessions && w.sessions[key].remotePublicKey == Some(remote)
  }

  lemma StepKeepsBound(w: World, ev: TableEvent, key: SessionKey, remote: Key)
    requires Bound(w, key, remote) && Lasts(w, ev, key)
    ensures Bound(Next(w, ev), key, remote)
  {
    match ev {
      case Handshake(k, generation, algorithm, now, root) =>
      case Attached(k, now) =>
      case Detached(k, now) =>
      case Confirmed(k, other, now) =>
      case Decrypt(k, dir, payload, now) =>
        if k in w.sessions {
          ReceiveKeepsAttachments(w.sessions[k], dir, payload, now);
        }
      case Encrypt(k, dir, now) =>
    }
  }

  /** Once a stored session is bound to a static key it stays bound to it for as long as it stays in the table,
      through joins, syncs, packets and every other connection's handshake, and no other key is confirmed. */
  lemma {:induction false} KeyStaysBound(evs: seq<TableEvent>, more: seq<TableEvent>, key: SessionKey, remote: Key)
    requires Bound(RunTable(evs), key, remote) && LastsThrough(evs, more, key)
    ensures Bound(RunTable(evs + more), key, remote)
    ensures forall other: Key, now: nat :: other != remote ==>
              ConfirmKey(RunTable(evs + more).sessions, key, other, now) == (RunTable(evs + more).sessions, false)
  {
    if more == [] {
      assert evs + more == evs;
    } else {
      var init := more[..|more| - 1];
      KeyStaysBound(evs, init, key, remote);
      assert (evs + more)[..|evs + more| - 1] == evs + init;
      hide Next, Lasts;
      StepKeepsBound(RunTable(evs + init), more[|more| - 1], key, remote);
    }
  }

  // ----- attachments

  /** How many connections are attached to a session: those that attached, less those dropped. */
  function Holders(evs: seq<TableEvent>, key: SessionKey): nat {
    if evs == [] then 0
    else
      var before, ev := Holders(evs[..|evs| - 1], key), evs[|evs| - 1];
      match ev
      case Attached(k, now) =>
        if k == key && Attach(RunTable(evs[..|evs| - 1]).sessions, k, now).1 then before + 1 else before
      case Detached(k, now) => if k == key && before > 0 then before - 1 else before
      case _ => before
  }

  /** Only a connection that is attached is dropped from the table. */
  predicate Paired(evs: seq<TableEvent>) {
    evs == [] ||
    var before, ev := evs[..|evs| - 1], evs[|evs| - 1];
    Paired(before) && (ev.Detached? ==> Holders(before, ev.key) > 0)
  }

  /** The table's count for a session, none if it is gone. */
  function Count(m: Sessions, key: SessionKey): nat {
    if key in m then m[key].attachments else 0
  }

  lemma UpsertKeepsCount(m: Sessions, key: SessionKey, generation: Option<u32>, algorithm: string, now: nat,
                         root: Option<Key>, k: SessionKey)
    ensures Count(Upsert(m, key, generation, algorithm, now, root).0, k) == Count(m, k)
  {
  }

  lemma ReceiveKeepsAttachments(s: StoredSession, dir: Direction, p: Payload, now: nat)
    ensures Receive(s, dir, p, now).0.attachments == s.attachments
    ensures Receive(s, dir, p, now).0.remotePublicKey == s.remotePublicKey
  {
    hide Precheck, Commit, CanAccept;
  }

  /** Over every run the count is exactly the number of connections attached. So the session of an
      attached connection is always in the table, and no operation of such a connection misses it. */
  lemma {:induction false} AttachmentsCountHolders(evs: seq<TableEvent>, key: SessionKey)
    requires Paired(evs)
    ensures Count(RunTable(evs).sessions, key) == Holders(evs, key)
    ensures Holders(evs, key) > 0 ==> key in RunTable(evs).sessions
  {
    if evs != [] {
      var before, ev := evs[..|evs| - 1], evs[|evs| - 1];
      AttachmentsCountHolders(before, key);
      var m := RunTable(before).sessions;
      hide Upsert, Send, Receive;
      match ev
      case Handshake(k, generation, algorithm, now, root) =>
        UpsertKeepsCount(m, k, generation, algorithm, now, root, key);
      case Attached(k, now) =>
      case Detached(k, now) =>
      case Confirmed(k, remote, now) =>
      case Decrypt(k, dir, payload, now) =>
        if k in m {
          ReceiveKeepsAttachments(m[k], dir, payload, now);
        }
      case Encrypt(k, dir, now) =>
        if k in m {
          SendKeepsAttachments(m[k], dir, now);
        }
    }
  }

  lemma SendKeepsAttachments(s: StoredSession, dir: Direction, now: nat)
    ensures Send(s, dir, now).0.attachments == s.attachments
  {
  }

  /** The wrap is real: a peer that has sent in the last epoch and synchronises again makes the relay
      repeat the nonce of its very first packet. */
  lemma WrapReusesNonce(root: Key)
    ensures var s1 := Send(Created(root, "aes-gcm", 1), 0, 1);
            var s2 := Receive(s1.0, 1, Sealed(U32_MAX, 0, true), 1);
            var s3 := Synced(s2.0, 1);
            && s2.1 == Delivered
            && s1.1 == Some((0, 0)) && Send(s3, 0, 1).1 == Some((0, 0))
            && s3.rootKey == root
  {
    var s0 := Created(root, "aes-gcm", 1);
    var s1 := Send(s0, 0, 1).0;
    assert LaneOf(s1, 1) == Lane(EMPTY_PAIR, EMPTY_PAIR);
    assert EvictPair(EMPTY_PAIR, 1) == EMPTY_PAIR;
    EvictedLane(s1, 1, 1);
    var e := Evict(s1, 1).(lastTouchMs := 1);
    assert LaneOf(e, 1) == Lane(EMPTY_PAIR, EMPTY_PAIR);
    var l := Lane([Opened(U32_MAX, 0, 1), EMPTY_SLOT], EMPTY_PAIR);
    assert Commit(LaneOf(e, 1), U32_MAX, 0, 1) == (l, true);
    var s2 := WithLane(e, 1, l).(decryptFailCount := 0);
    assert Receive(s1, 1, Sealed(U32_MAX, 0, true), 1) == (s2, Delivered);
    assert SyncEpoch(s2) == U32_MAX;
  }
}
