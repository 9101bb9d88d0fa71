/** A stored secure session and what one operation does to it.

    Every connection of a peer works on the same stored session: it copies it in, acts, and copies
    it back. The functions here are those whole operations; `SecurePeer` shows that a connection,
    whatever stale copy it started from, performs exactly them. */
module SecureSession {
  import opened Words
  import opened ReplayWindow
  import opened ReceiveEpochs

  const ROTATE_AFTER_PACKETS: nat := 1_000_000
  const ROTATE_AFTER_MS: nat := 600_000
  const DECRYPT_FAIL_THRESHOLD: nat := 10

  type Key = seq<bv8>
  type SendSeqs = s: seq<u64> | |s| == 2 witness [0, 0]

  datatype StoredSession = StoredSession(
    rootKey: Key,
    generation: u32,
    nextEpoch: u32,
    sendSeq: SendSeqs,
    epochStartedMs: nat,
    packetsSinceEpoch: u64,
    rxSlots: SlotTable,
    grace: SyncRxGrace,
    decryptFailCount: u32,
    clientAlgorithm: string,
    remotePublicKey: Option<Key>,
    lastTouchMs: nat,
    attachments: u32)

  /** HKDF seen as a collision-free function of its inputs. */
  datatype TrafficKey = TrafficKey(root: Key, epoch: u32, dir: Direction)

  function DirectionIndex(sender: u32, receiver: u32): Direction {
    if sender >= receiver then 1 else 0
  }

  /** The two directions of a connection use different traffic keys, whatever the epochs, exactly
      when the two peers have different ids; the lower id sends in direction 0. */
  lemma DirectionsNeverShareAKey(root: Key, a: u32, b: u32)
    ensures (forall e: u32, f: u32 ::
             TrafficKey(root, e, DirectionIndex(a, b)) != TrafficKey(root, f, DirectionIndex(b, a)))
       <==> a != b
    ensures a < b ==> DirectionIndex(a, b) == 0 && DirectionIndex(b, a) == 1
  {
    if a == b {
      assert TrafficKey(root, 0, DirectionIndex(a, b)) == TrafficKey(root, 0, DirectionIndex(b, a));
    }
  }

  // ----- sending

  predicate RotationDue(s: StoredSession, now: nat) {
    s.packetsSinceEpoch + 1 >= ROTATE_AFTER_PACKETS || SatSub(now, s.epochStartedMs) >= ROTATE_AFTER_MS
  }

  function Rotate(s: StoredSession, now: nat): StoredSession {
    if RotationDue(s, now)
    then s.(nextEpoch := WrapInc32(s.nextEpoch), epochStartedMs := now, packetsSinceEpoch := 0)
    else s.(packetsSinceEpoch := s.packetsSinceEpoch + 1)
  }

  /** The session after sending one packet, and the epoch and sequence number that went into its
      nonce; none when the sequence numbers of this direction are used up. */
  function Send(s: StoredSession, dir: Direction, now: nat): (StoredSession, Option<(u32, u64)>) {
    var r := Rotate(s, now).(lastTouchMs := now);
    var sn := r.sendSeq[dir];
    if sn == U64_MAX then (r, None)
    else (r.(sendSeq := r.sendSeq[dir := sn + 1]), Some((r.nextEpoch, sn)))
  }

  // ----- receiving

  function LaneOf(s: StoredSession, dir: Direction): Lane {
    Lane(s.rxSlots[dir], if s.grace.valid then s.grace.slots[dir] else EMPTY_PAIR)
  }

  function WithLane(s: StoredSession, dir: Direction, l: Lane): StoredSession {
    s.(rxSlots := s.rxSlots[dir := l.main],
       grace := if s.grace.valid then s.grace.(slots := s.grace.slots[dir := l.grace]) else s.grace)
  }

  predicate GraceOver(s: StoredSession, now: nat) {
    s.grace.valid && now >= s.grace.expiresAtMs
  }

  function EvictTable(t: SlotTable, now: nat): SlotTable {
    [EvictPair(t[0], now), EvictPair(t[1], now)]
  }

  function Evict(s: StoredSession, now: nat): StoredSession {
    s.(rxSlots := EvictTable(s.rxSlots, now),
       grace := if GraceOver(s, now) then EMPTY_GRACE
                else if s.grace.valid then s.grace.(slots := EvictTable(s.grace.slots, now))
                else s.grace)
  }

  /** A received payload: too short to carry a nonce, or a nonce and whether the AEAD opens it. */
  datatype Payload = TooShort | Sealed(epoch: u32, sn: u64, opens: bool)

  datatype Verdict = Delivered | Dropped | Failed

  function Receive(s: StoredSession, dir: Direction, p: Payload, now: nat): (StoredSession, Verdict) {
    if p.TooShort? then (s.(lastTouchMs := now), Failed)
    else
      var e := Evict(s, now).(lastTouchMs := now);
      if !Precheck(LaneOf(e, dir), e.nextEpoch, p.epoch, p.sn) then (e, Dropped)
      else if !p.opens then
        var fails := if e.decryptFailCount == U32_MAX then U32_MAX else e.decryptFailCount + 1;
        (e.(decryptFailCount := fails), if fails >= DECRYPT_FAIL_THRESHOLD then Failed else Dropped)
      else
        var (l, ok) := Commit(LaneOf(e, dir), p.epoch, p.sn, now);
        (WithLane(e, dir, l).(decryptFailCount := 0), if ok then Delivered else Dropped)
  }

  // ----- Create and Sync

  function Created(root: Key, algorithm: string, now: nat): StoredSession {
    StoredSession(root, 1, 0, [0, 0], now, 0, EMPTY_TABLE, EMPTY_GRACE, 0, algorithm, None, now, 0)
  }

  function SlotEpoch(slot: EpochRxSlot): u32 {
    if slot.valid then slot.epoch else 0
  }

  /** The highest epoch the session has sent in or currently receives in. */
  function SyncEpoch(s: StoredSession): u32 {
    Max(s.nextEpoch,
        Max(Max(SlotEpoch(s.rxSlots[0][0]), SlotEpoch(s.rxSlots[0][1])),
            Max(SlotEpoch(s.rxSlots[1][0]), SlotEpoch(s.rxSlots[1][1]))))
  }

  function Synced(s: StoredSession, now: nat): StoredSession {
    s.(nextEpoch := WrapInc32(SyncEpoch(s)),
       sendSeq := [0, 0],
       epochStartedMs := now,
       packetsSinceEpoch := 0,
       grace := SyncRxGrace(s.rxSlots, now + SYNC_RX_GRACE_AFTER_MS, true),
       rxSlots := EMPTY_TABLE,
       decryptFailCount := 0,
       lastTouchMs := now)
  }

  // ----- lanes of whole operations

  lemma EvictedLane(s: StoredSession, now: nat, dir: Direction)
    ensures LaneOf(Evict(s, now), dir) == EvictLane(LaneOf(s, dir), now, GraceOver(s, now))
  {
    assert EvictPair(EMPTY_PAIR, now) == EMPTY_PAIR;
    assert dir == 0 || dir == 1;
  }

  lemma WithLaneLanes(s: StoredSession, dir: Direction, l: Lane, other: Direction)
    requires !s.grace.valid ==> l.grace == EMPTY_PAIR
    ensures LaneOf(WithLane(s, dir, l), other) == if other == dir then l else LaneOf(s, other)
  {
  }

  lemma SyncedLane(s: StoredSession, now: nat, dir: Direction)
    ensures LaneOf(Synced(s, now), dir) == SyncLane(LaneOf(s, dir))
  {
    assert EMPTY_TABLE[dir] == EMPTY_PAIR;
  }

  /** A packet that is refused, too short or does not open leaves every window as the eviction left it. */
  lemma RefusedPacketsLeaveWindows(s: StoredSession, dir: Direction, p: Payload, now: nat, other: Direction)
    requires p.Sealed? ==> !p.opens || !Precheck(LaneOf(Evict(s, now), dir), s.nextEpoch, p.epoch, p.sn)
    ensures Receive(s, dir, p, now).1 != Delivered
    ensures LaneOf(Receive(s, dir, p, now).0, other) == if p.TooShort? then LaneOf(s, other)
        else LaneOf(Evict(s, now), other)
  {
  }

  // ----- at-most-once delivery over whole runs of a session

  datatype Event = OnPacket(dir: Direction, payload: Payload, now: nat) | OnSync(now: nat)
      | OnSend(dir: Direction, now: nat)

  datatype Delivery = Delivery(dir: Direction, epoch: u32, sn: u64)

  datatype Life = Life(s: StoredSession, delivered: seq<Delivery>)

  function Step(t: Life, ev: Event): Life {
    match ev
    case OnPacket(dir, p, now) =>
      var (s, verdict) := Receive(t.s, dir, p, now);
      Life(s, if verdict.Delivered? then t.delivered + [Delivery(dir, p.epoch, p.sn)] else t.delivered)
    case OnSync(now) => Life(Synced(t.s, now), t.delivered)
    case OnSend(dir, now) => Life(Send(t.s, dir, now).0, t.delivered)
  }

  function Run(s: StoredSession, evs: seq<Event>): Life {
    if evs == [] then Life(s, []) else Step(Run(s, evs[..|evs| - 1]), evs[|evs| - 1])
  }

  /** What each direction had delivered before the run under consideration began. */
  type Past = s: seq<History> | |s| == 2 witness [{}, {}]

  const NO_PAST: Past := [{}, {}]

  ghost function HistoryOf(past: Past, delivered: seq<Delivery>, dir: Direction): History {
    past[dir] + set i | 0 <= i < |delivered| && delivered[i].dir == dir :: (delivered[i].epoch, delivered[i].sn)
  }

  /** The one thing each event must not do, as a condition on the state before it. Packets that do
      not open or fail the check may carry any numbers. */
  ghost predicate Harmless(past: Past, t: Life, ev: Event) {
    match ev
    case OnPacket(dir, p, now) =>
      p.Sealed? ==>
        && (forall d: Direction :: EvictionIsHarmless(LaneOf(t.s, d), now, GraceOver(t.s, now)))
        && var l := LaneOf(Evict(t.s, now), dir);
           p.opens && Precheck(l, t.s.nextEpoch, p.epoch, p.sn) ==> CastsWell(l, p.epoch, p.sn)
    case OnSync(now) => forall d: Direction :: SyncIsHarmless(LaneOf(t.s, d), HistoryOf(past, t.delivered, d))
    case OnSend(dir, now) => true
  }

  ghost predicate HarmlessRun(past: Past, s: StoredSession, evs: seq<Event>) {
    evs == [] || (HarmlessRun(past, s, evs[..|evs| - 1]) && Harmless(past, Run(s, evs[..|evs| - 1]), evs[|evs| - 1]))
  }

  /** The session refuses everything it has delivered, in both directions. */
  ghost predicate SessionGuarded(past: Past, t: Life) {
    forall d: Direction :: Guarded(LaneOf(t.s, d), HistoryOf(past, t.delivered, d))
  }

  /** No two deliveries are the same, and none repeats the past. */
  ghost predicate OnceEach(past: Past, delivered: seq<Delivery>) {
    && (forall i, j :: 0 <= i < j < |delivered| ==> delivered[i] != delivered[j])
    && (forall i :: 0 <= i < |delivered| ==> (delivered[i].epoch, delivered[i].sn) !in past[delivered[i].dir])
  }

  lemma HistoryGrows(past: Past, delivered: seq<Delivery>, dir: Direction, epoch: u32, sn: u64, d: Direction)
    ensures HistoryOf(past, delivered + [Delivery(dir, epoch, sn)], d)
         == HistoryOf(past, delivered, d) + if d == dir then {(epoch, sn)} else {}
  {
    var longer := delivered + [Delivery(dir, epoch, sn)];
    assert forall i :: 0 <= i < |delivered| ==> longer[i] == delivered[i];
    assert longer[|delivered|] == Delivery(dir, epoch, sn);
  }

  lemma InHistory(past: Past, delivered: seq<Delivery>, x: Delivery)
    ensures x in delivered || (x.epoch, x.sn) in past[x.dir] <==> (x.epoch, x.sn) in HistoryOf(past, delivered, x.dir)
  {
  }

  /** Neither delivered in this run nor remembered from before. */
  predicate New(past: Past, delivered: seq<Delivery>, x: Delivery) {
    x !in delivered && (x.epoch, x.sn) !in past[x.dir]
  }

  lemma PacketKeepsGuard(past: Past, t: Life, dir: Direction, p: Payload, now: nat)
    requires SessionGuarded(past, t) && Harmless(past, t, OnPacket(dir, p, now))
    ensures SessionGuarded(past, Step(t, OnPacket(dir, p, now)))
    ensures Receive(t.s, dir, p, now).1.Delivered? ==> New(past, t.delivered, Delivery(dir, p.epoch, p.sn))
  {
    hide Guarded, CastsWell, EvictionIsHarmless, Precheck, EvictLane, Commit;
    if p.Sealed? {
      var e := Evict(t.s, now);
      forall d: Direction
        ensures LaneOf(e, d) == EvictLane(LaneOf(t.s, d), now, GraceOver(t.s, now))
        ensures Guarded(LaneOf(e, d), HistoryOf(past, t.delivered, d))
      {
        EvictedLane(t.s, now, d);
        HarmlessEvictionKeepsGuard(LaneOf(t.s, d), HistoryOf(past, t.delivered, d), now, GraceOver(t.s, now));
      }
      if p.opens && Precheck(LaneOf(e, dir), e.nextEpoch, p.epoch, p.sn) {
        DeliveryKeepsGuard(past, t, e.(lastTouchMs := now), dir, p.epoch, p.sn, now);
      }
    }
  }

  lemma CommitKeepsNoGrace(l: Lane, epoch: u32, sn: u64, now: nat)
    ensures l.grace == EMPTY_PAIR ==> Commit(l, epoch, sn, now).0.grace == EMPTY_PAIR
  {
  }

  lemma DeliveryKeepsGuard(past: Past, t: Life, e: StoredSession, dir: Direction, epoch: u32, sn: u64, now: nat)
    requires forall d: Direction :: Guarded(LaneOf(e, d), HistoryOf(past, t.delivered, d))
    requires Precheck(LaneOf(e, dir), e.nextEpoch, epoch, sn) && CastsWell(LaneOf(e, dir), epoch, sn)
    ensures Commit(LaneOf(e, dir), epoch, sn, now).1
    ensures SessionGuarded(past,
                           Life(WithLane(e, dir, Commit(LaneOf(e, dir), epoch, sn, now).0).(decryptFailCount := 0),
                                       t.delivered + [Delivery(dir, epoch, sn)]))
    ensures New(past, t.delivered, Delivery(dir, epoch, sn))
  {
    hide Guarded, CastsWell, Precheck, Commit;
    var h := HistoryOf(past, t.delivered, dir);
    InHistory(past, t.delivered, Delivery(dir, epoch, sn));
    if (epoch, sn) in h {
      GuardedRefuses(LaneOf(e, dir), h, e.nextEpoch, (epoch, sn));
    }
    CommitKeepsGuard(LaneOf(e, dir), h, e.nextEpoch, epoch, sn, now);
    var l := Commit(LaneOf(e, dir), epoch, sn, now).0;
    CommitKeepsNoGrace(LaneOf(e, dir), epoch, sn, now);
    forall d: Direction
      ensures LaneOf(WithLane(e, dir, l), d) == if d == dir then l else LaneOf(e, d)
      ensures HistoryOf(past, t.delivered + [Delivery(dir, epoch, sn)], d)
           == HistoryOf(past, t.delivered, d) + if d == dir then {(epoch, sn)} else {}
    {
      WithLaneLanes(e, dir, l, d);
      HistoryGrows(past, t.delivered, dir, epoch, sn, d);
    }
    assert forall d: Direction :: HistoryOf(past, t.delivered, d) + {} == HistoryOf(past, t.delivered, d);
  }

  lemma SyncKeepsGuard(past: Past, t: Life, now: nat)
    requires SessionGuarded(past, t) && Harmless(past, t, OnSync(now))
    ensures SessionGuarded(past, Step(t, OnSync(now)))
  {
    hide Guarded, SyncIsHarmless;
    forall d: Direction
      ensures Guarded(LaneOf(Synced(t.s, now), d), HistoryOf(past, t.delivered, d))
    {
      SyncedLane(t.s, now, d);
      HarmlessSyncKeepsGuard(LaneOf(t.s, d), HistoryOf(past, t.delivered, d));
    }
  }

  lemma SendKeepsLanes(s: StoredSession, dir: Direction, now: nat, d: Direction)
    ensures LaneOf(Send(s, dir, now).0, d) == LaneOf(s, d)
  {
  }

  lemma StepKeepsGuard(past: Past, t: Life, ev: Event)
    requires SessionGuarded(past, t) && Harmless(past, t, ev)
    ensures SessionGuarded(past, Step(t, ev))
    ensures OnceEach(past, t.delivered) ==> OnceEach(past, Step(t, ev).delivered)
  {
    hide Guarded, Harmless;
    match ev {
      case OnPacket(dir, p, now) => PacketKeepsGuard(past, t, dir, p, now);
      case OnSync(now) => SyncKeepsGuard(past, t, now);
      case OnSend(dir, now) =>
        forall d: Direction
          ensures LaneOf(Send(t.s, dir, now).0, d) == LaneOf(t.s, d)
        {
          SendKeepsLanes(t.s, dir, now, d);
        }
    }
  }

  /** From any session that refuses its past: over every run that does no harm, no packet is
      delivered twice, and none of the past is delivered again. */
  lemma {:induction false} GuardLasts(past: Past, s: StoredSession, evs: seq<Event>)
    requires SessionGuarded(past, Life(s, [])) && HarmlessRun(past, s, evs)
    ensures SessionGuarded(past, Run(s, evs))
    ensures OnceEach(past, Run(s, evs).delivered)
  {
    if evs != [] {
      GuardLasts(past, s, evs[..|evs| - 1]);
      hide SessionGuarded, Harmless, Step;
      StepKeepsGuard(past, Run(s, evs[..|evs| - 1]), evs[|evs| - 1]);
    }
  }

  /** From a fresh session: over every run that does no harm, no packet is delivered twice. */
  lemma AtMostOnce(root: Key, algorithm: string, now: nat, evs: seq<Event>)
    requires HarmlessRun(NO_PAST, Created(root, algorithm, now), evs)
    ensures SessionGuarded(NO_PAST, Run(Created(root, algorithm, now), evs))
    ensures OnceEach(NO_PAST, Run(Created(root, algorithm, now), evs).delivered)
  {
    var s := Created(root, algorithm, now);
    assert forall d: Direction :: LaneOf(s, d) == Lane(EMPTY_PAIR, EMPTY_PAIR);
    GuardLasts(NO_PAST, s, evs);
  }

  // ----- what is delivered

  /** A packet that opens, of an epoch some slot holds, is delivered exactly when that slot's window accepts
      its number. */
  lemma HeldEpochIsDecided(s: StoredSession, dir: Direction, epoch: u32, sn: u64, now: nat)
    requires Consulted(LaneOf(Evict(s, now), dir), epoch).Some?
    ensures Receive(s, dir, Sealed(epoch, sn, true), now).1 == Delivered
       <==> CanAccept(Consulted(LaneOf(Evict(s, now), dir), epoch).value.window, sn)
  {
    var e := Evict(s, now).(lastTouchMs := now);
    assert LaneOf(e, dir) == LaneOf(Evict(s, now), dir);
    hide Evict, CanAccept, Record;
  }

  /** A packet that opens, of an epoch no slot holds, is delivered exactly when there is no newest slot, or its
      epoch is newer than that slot's and at most 3 past the send epoch or a slot's epoch. */
  lemma NewEpochIsDelivered(s: StoredSession, dir: Direction, epoch: u32, sn: u64, now: nat)
    requires var l := LaneOf(Evict(s, now), dir);
             forall slot :: slot in l.grace + l.main ==> !Holds(slot, epoch)
    ensures var l := LaneOf(Evict(s, now), dir);
            Receive(s, dir, Sealed(epoch, sn, true), now).1 == Delivered
            <==> || !l.main[0].valid
                 || (&& epoch > l.main[0].epoch
                     && (epoch <= s.nextEpoch + 3 || epoch <= l.main[0].epoch + 3
                         || (l.main[1].valid && epoch <= l.main[1].epoch + 3)))
  {
    var e := Evict(s, now).(lastTouchMs := now);
    var l := LaneOf(e, dir);
    assert l == LaneOf(Evict(s, now), dir);
    assert l.grace[0] in l.grace + l.main && l.grace[1] in l.grace + l.main;
    assert l.main[0] in l.grace + l.main && l.main[1] in l.grace + l.main;
    hide Evict, CanAccept, Record;
  }

  /** Completeness beside `AtMostOnce`: in a guarded session, as long as the eviction does no harm, whatever was
      not delivered yet and lies less than 256 behind the window of its epoch is delivered. */
  lemma UndeliveredIsDelivered(past: Past, t: Life, dir: Direction, epoch: u32, sn: u64, now: nat)
    requires SessionGuarded(past, t) && EvictionIsHarmless(LaneOf(t.s, dir), now, GraceOver(t.s, now))
    requires Consulted(LaneOf(Evict(t.s, now), dir), epoch).Some?
    requires New(past, t.delivered, Delivery(dir, epoch, sn))
    requires Consulted(LaneOf(Evict(t.s, now), dir), epoch).value.window.maxSeq < sn + 256
    ensures Receive(t.s, dir, Sealed(epoch, sn, true), now).1 == Delivered
  {
    var l, h := LaneOf(Evict(t.s, now), dir), HistoryOf(past, t.delivered, dir);
    hide EvictionIsHarmless, CastsWell, Precheck;
    EvictedLane(t.s, now, dir);
    HarmlessEvictionKeepsGuard(LaneOf(t.s, dir), h, now, GraceOver(t.s, now));
    HeldEpochIsDecided(t.s, dir, epoch, sn, now);
    InHistory(past, t.delivered, Delivery(dir, epoch, sn));
    var slot := Consulted(l, epoch).value;
    hide Evict, EvictLane, Receive;
    SlotTakesNew(slot, h, sn);
  }

  /** Ten packets in a row that pass the check and do not open end the connection; a delivery starts the count
      again. */
  lemma FailuresCount(s: StoredSession, dir: Direction, p: Payload, now: nat)
    requires p.Sealed?
    ensures var (s', verdict) := Receive(s, dir, p, now);
            var passes := Precheck(LaneOf(Evict(s, now), dir), s.nextEpoch, p.epoch, p.sn);
            && (passes && !p.opens ==>
                s'.decryptFailCount == if s.decryptFailCount == U32_MAX then U32_MAX else s.decryptFailCount + 1)
            && (passes && p.opens ==> s'.decryptFailCount == 0)
            && (!passes ==> s'.decryptFailCount == s.decryptFailCount)
            && (verdict == Failed <==> passes && !p.opens && s'.decryptFailCount >= 10)
  {
    var e := Evict(s, now).(lastTouchMs := now);
    assert LaneOf(e, dir) == LaneOf(Evict(s, now), dir);
    hide Precheck, Commit;
  }

  // ----- times

  /** A session sends in a new epoch exactly with its millionth packet in the old one, or 10 minutes after it
      began. */
  lemma RotationTimes(s: StoredSession, dir: Direction, now: nat)
    ensures var s' := Send(s, dir, now).0;
            if s.packetsSinceEpoch >= 999_999 || now >= s.epochStartedMs + 600_000
            then s'.nextEpoch == (s.nextEpoch + 1) % 0x1_0000_0000 && s'.epochStartedMs == now
                && s'.packetsSinceEpoch == 0
            else s'.nextEpoch == s.nextEpoch && s'.epochStartedMs == s.epochStartedMs
                 && s'.packetsSinceEpoch == s.packetsSinceEpoch + 1
    ensures Send(s, dir, now).1.Some? ==>
              && Send(s, dir, now).1.value == (Send(s, dir, now).0.nextEpoch, s.sendSeq[dir])
              && Send(s, dir, now).0.sendSeq == s.sendSeq[dir := s.sendSeq[dir] + 1]
    ensures Send(s, dir, now).1.Some? <==> s.sendSeq[dir] < U64_MAX
  {
  }

  /** A slot last heard at a known time lasts 30 s after it, and is gone from then on. */
  lemma SlotsLast(s: StoredSession, dir: Direction, now: nat, k: Direction)
    ensures var slot, slot' := s.rxSlots[dir][k], Evict(s, now).rxSlots[dir][k];
            if slot.valid && slot.lastRxMs != 0 && now > slot.lastRxMs + 30_000 then !slot'.valid else slot' == slot
  {
  }

  /** After a `Sync` the old slots last 5 s, as long as they are heard every 30 s, and then are gone. */
  lemma GraceLasts(s: StoredSession, synced: nat, dir: Direction, now: nat, k: Direction)
    ensures var slot, slot' := s.rxSlots[dir][k], LaneOf(Evict(Synced(s, synced), now), dir).grace[k];
            && (now >= synced + 5_000 ==> !slot'.valid)
            && (now < synced + 5_000 ==>
                  if slot.valid && slot.lastRxMs != 0
                      && now > slot.lastRxMs + 30_000 then !slot'.valid else slot' == slot)
  {
    assert (dir == 0 || dir == 1) && (k == 0 || k == 1);
  }

  // ----- starting again at a `Sync`, whatever happened before

  /** The clock does not go back, and is past 0. */
  predicate ClockRuns(start: nat, evs: seq<Event>) {
    if evs == [] then start > 0
    else ClockRuns(start, evs[..|evs| - 1]) && LastTime(start, evs[..|evs| - 1]) <= evs[|evs| - 1].now
  }

  function LastTime(start: nat, evs: seq<Event>): nat {
    if evs == [] then start else evs[|evs| - 1].now
  }

  predicate SaneSession(s: StoredSession, now: nat) {
    forall d: Direction :: SaneLane(LaneOf(s, d), now)
  }

  /** What a packet does to a direction's slots, if anything. */
  lemma ReceivedLane(s: StoredSession, dir: Direction, p: Payload, now: nat, d: Direction)
    ensures var l, e := LaneOf(Receive(s, dir, p, now).0, d), EvictLane(LaneOf(s, d), now, GraceOver(s, now));
            l == LaneOf(s, d) || l == e || (p.Sealed? && l == Commit(e, p.epoch, p.sn, now).0)
    ensures Receive(s, dir, p, now).0.nextEpoch == s.nextEpoch
  {
    hide Precheck, Commit, EvictLane;
    EvictedLane(s, now, d);
    EvictedLane(s, now, dir);
    if p.Sealed? {
      var e := Evict(s, now).(lastTouchMs := now);
      assert LaneOf(e, d) == LaneOf(Evict(s, now), d) && LaneOf(e, dir) == LaneOf(Evict(s, now), dir);
      CommitKeepsNoGrace(LaneOf(e, dir), p.epoch, p.sn, now);
      WithLaneLanes(e, dir, Commit(LaneOf(e, dir), p.epoch, p.sn, now).0, d);
    }
  }

  lemma ReceiveIsSane(s: StoredSession, dir: Direction, p: Payload, before: nat, now: nat)
    requires SaneSession(s, before) && before <= now && now > 0
    ensures SaneSession(Receive(s, dir, p, now).0, now)
  {
    hide SaneLane, Receive, EvictLane, Commit;
    forall d: Direction
      ensures SaneLane(LaneOf(Receive(s, dir, p, now).0, d), now)
    {
      ReceivedLane(s, dir, p, now, d);
      SaneLater(LaneOf(s, d), before, now);
      EvictIsSane(LaneOf(s, d), now, GraceOver(s, now));
      if p.Sealed? {
        CommitIsSane(EvictLane(LaneOf(s, d), now, GraceOver(s, now)), p.epoch, p.sn, now);
      }
    }
  }

  lemma SaneLater(l: Lane, before: nat, now: nat)
    requires SaneLane(l, before) && before <= now
    ensures SaneLane(l, now)
  {
  }

  /** In every run at all, windows stay sane. */
  lemma {:induction false} RunsStaySane(root: Key, algorithm: string, start: nat, evs: seq<Event>)
    requires ClockRuns(start, evs)
    ensures SaneSession(Run(Created(root, algorithm, start), evs).s, LastTime(start, evs)) && LastTime(start, evs) > 0
  {
    var s := Created(root, algorithm, start);
    if evs == [] {
      assert forall d: Direction :: LaneOf(s, d) == Lane(EMPTY_PAIR, EMPTY_PAIR);
    } else {
      var before, ev := evs[..|evs| - 1], evs[|evs| - 1];
      RunsStaySane(root, algorithm, start, before);
      var t, last := Run(s, before).s, LastTime(start, before);
      assert Run(s, evs) == Step(Run(s, before), ev);
      hide Run, SaneLane, Receive, Send, Synced;
      match ev {
        case OnPacket(dir, p, now) => ReceiveIsSane(t, dir, p, last, now);
        case OnSync(now) => SyncIsSane(t, last, now);
        case OnSend(dir, now) =>
          forall d: Direction
            ensures SaneLane(LaneOf(Send(t, dir, now).0, d), now)
          {
            SendKeepsLanes(t, dir, now, d);
            SaneLater(LaneOf(t, d), last, now);
          }
      }
    }
  }

  lemma SyncIsSane(s: StoredSession, before: nat, now: nat)
    requires SaneSession(s, before) && before <= now
    ensures SaneSession(Synced(s, now), now)
  {
    forall d: Direction
      ensures SaneLane(LaneOf(Synced(s, now), d), now)
    {
      SyncedLane(s, now, d);
      SaneLater(LaneOf(s, d), before, now);
    }
  }

  /** What the windows of a session remember. */
  ghost function Remembered(s: StoredSession): Past {
    [Marked(LaneOf(s, 0)), Marked(LaneOf(s, 1))]
  }

  /** From a session just synchronised, whatever happened before: over every run that does no harm, no
      packet is delivered twice, and nothing the grace slots remember is delivered again. */
  lemma AtMostOnceAfterSync(root: Key, algorithm: string, start: nat, before: seq<Event>, now: nat, evs: seq<Event>)
    requires ClockRuns(start, before) && LastTime(start, before) <= now
    requires var s := Synced(Run(Created(root, algorithm, start), before).s, now); HarmlessRun(Remembered(s), s, evs)
    ensures var s := Synced(Run(Created(root, algorithm, start), before).s, now);
            OnceEach(Remembered(s), Run(s, evs).delivered)
  {
    RunsStaySane(root, algorithm, start, before);
    var t := Run(Created(root, algorithm, start), before).s;
    SyncIsSane(t, LastTime(start, before), now);
    var s := Synced(t, now);
    hide Run, Synced, HarmlessRun;
    SyncedIsGuarded(t, now);
    GuardLasts(Remembered(s), s, evs);
  }

  lemma SyncedIsGuarded(s: StoredSession, now: nat)
    requires SaneSession(Synced(s, now), now)
    ensures SessionGuarded(Remembered(Synced(s, now)), Life(Synced(s, now), []))
  {
    hide SaneLane, Guarded, Synced;
    var past := Remembered(Synced(s, now));
    forall d: Direction
      ensures Guarded(LaneOf(Synced(s, now), d), HistoryOf(past, [], d))
    {
      SyncedLane(s, now, d);
      MarkedIsGuarded(LaneOf(Synced(s, now), d), now);
      assert d == 0 || d == 1;
      assert HistoryOf(past, [], d) == past[d];
    }
  }

  // ----- the conditions are exact

  /** Epochs in grace are not ahead of the epoch the session sends in. */
  ghost predicate GraceBehind(s: StoredSession) {
    forall d: Direction, k: Direction :: LaneOf(s, d).grace[k].valid ==> LaneOf(s, d).grace[k].epoch <= s.nextEpoch
  }

  predicate Wraps(s: StoredSession, ev: Event) {
    (ev.OnSync? && SyncEpoch(s) == U32_MAX) || (ev.OnSend? && s.nextEpoch == U32_MAX)
  }

  /** That stays so until the send epoch wraps. */
  lemma GraceStaysBehind(t: Life, ev: Event)
    requires GraceBehind(t.s) && !Wraps(t.s, ev)
    ensures GraceBehind(Step(t, ev).s)
  {
    match ev {
      case OnPacket(dir, p, now) => ReceiveKeepsGraceBehind(t.s, dir, p, now);
      case OnSync(now) =>
        forall d: Direction, k: Direction | LaneOf(Synced(t.s, now), d).grace[k].valid
          ensures LaneOf(Synced(t.s, now), d).grace[k].epoch <= SyncEpoch(t.s)
        {
          assert (d == 0 || d == 1) && (k == 0 || k == 1);
        }
      case OnSend(dir, now) =>
        assert forall d: Direction :: LaneOf(Send(t.s, dir, now).0, d) == LaneOf(t.s, d);
    }
  }

  lemma CommitKeepsGraceEpochs(l: Lane, epoch: u32, sn: u64, now: nat)
    ensures forall k: Direction :: var after := Commit(l, epoch, sn, now).0.grace[k];
              after.valid == l.grace[k].valid && after.epoch == l.grace[k].epoch
  {
  }

  lemma ReceiveKeepsGraceBehind(s: StoredSession, dir: Direction, p: Payload, now: nat)
    requires GraceBehind(s)
    ensures GraceBehind(Receive(s, dir, p, now).0)
  {
    hide Receive, Commit;
    forall d: Direction, k: Direction | LaneOf(Receive(s, dir, p, now).0, d).grace[k].valid
      ensures LaneOf(Receive(s, dir, p, now).0, d).grace[k].epoch <= Receive(s, dir, p, now).0.nextEpoch
    {
      ReceivedLane(s, dir, p, now, d);
      if p.Sealed? {
        CommitKeepsGraceEpochs(EvictLane(LaneOf(s, d), now, GraceOver(s, now)), p.epoch, p.sn, now);
      }
    }
  }

  /** The eviction condition is exact: past it, some delivered packet arriving again now is
      delivered a second time. */
  lemma HarmfulEvictionRedelivers(t: Life, dir: Direction, now: nat)
    requires SessionGuarded(NO_PAST, t) && SaneSession(t.s, now) && GraceBehind(t.s)
    requires !EvictionIsHarmless(LaneOf(t.s, dir), now, GraceOver(t.s, now))
    ensures exists x :: x in t.delivered && Receive(t.s, x.dir, Sealed(x.epoch, x.sn, true), now).1 == Delivered
  {
    hide Guarded, SaneLane, EvictionIsHarmless, Unshadows, Precheck, EvictLane, Commit;
    var h := HistoryOf(NO_PAST, t.delivered, dir);
    var l := LaneOf(t.s, dir);
    ShadowsGoTogether(l, now, GraceOver(t.s, now));
    assert forall k :: 0 <= k < 2 && l.grace[k].valid ==> l.grace[k].epoch <= t.s.nextEpoch;
    HarmfulEvictionReplays(l, h, t.s.nextEpoch, now, GraceOver(t.s, now));
    EvictedLane(t.s, now, dir);
    var e := Evict(t.s, now).(lastTouchMs := now);
    var p :| p in h && Precheck(LaneOf(e, dir), t.s.nextEpoch, p.0, p.1);
    PrecheckPredictsCommit(LaneOf(e, dir), t.s.nextEpoch, p.0, p.1, now);
    var x := Delivery(dir, p.0, p.1);
    InHistory(NO_PAST, t.delivered, x);
    assert x in t.delivered && Receive(t.s, x.dir, Sealed(x.epoch, x.sn, true), now).1 == Delivered;
  }

  /** So is the condition on `Sync`: past it, some delivered packet is delivered again at once. */
  lemma HarmfulSyncRedelivers(t: Life, dir: Direction, now: nat)
    requires !SyncIsHarmless(LaneOf(t.s, dir), HistoryOf(NO_PAST, t.delivered, dir))
    ensures exists x ::
            x in t.delivered && Receive(Synced(t.s, now), x.dir, Sealed(x.epoch, x.sn, true), now).1 == Delivered
  {
    var p :| p in HistoryOf(NO_PAST, t.delivered, dir) && !Live(LaneOf(t.s, dir).main, p.0);
    var s' := Synced(t.s, now);
    SyncedLane(t.s, now, dir);
    EvictedLane(s', now, dir);
    var x := Delivery(dir, p.0, p.1);
    InHistory(NO_PAST, t.delivered, x);
    hide Synced, Record, CanAccept;
    var l := LaneOf(Evict(s', now), dir);
    assert !l.main[0].valid && !Live(l.grace, p.0);
    assert x in t.delivered && Receive(s', x.dir, Sealed(x.epoch, x.sn, true), now).1 == Delivered;
  }

  /** The limits are needed: after 30 s of silence a packet already delivered is delivered again. */
  lemma SilenceRedelivers(root: Key)
    ensures var packet := Sealed(0, 0, true);
            Run(Created(root, "aes-gcm", 1), [OnPacket(1, packet, 1), OnPacket(1, packet, 30_002)]).delivered
            == [Delivery(1, 0, 0), Delivery(1, 0, 0)]
  {
    var packet := Sealed(0, 0, true);
    var s0 := Created(root, "aes-gcm", 1);
    var first := OnPacket(1, packet, 1);
    assert EvictPair(EMPTY_PAIR, 1) == EMPTY_PAIR;
    assert LaneOf(s0, 1) == Lane(EMPTY_PAIR, EMPTY_PAIR);
    EvictedLane(s0, 1, 1);
    WithLaneLanes(Evict(s0, 1), 1, Lane([Opened(0, 0, 1), EMPTY_SLOT], EMPTY_PAIR), 1);
    var t := Step(Life(s0, []), first);
    assert t.delivered == [Delivery(1, 0, 0)];
    assert LaneOf(t.s, 1) == Lane([Opened(0, 0, 1), EMPTY_SLOT], EMPTY_PAIR);
    EvictedLane(t.s, 30_002, 1);
    assert !LaneOf(Evict(t.s, 30_002), 1).main[0].valid;
    assert [first][..0] == [];
    assert Run(s0, [first]) == t;
    assert [first, OnPacket(1, packet, 30_002)][..1] == [first];
  }
}
