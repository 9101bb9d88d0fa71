/** Which (epoch, sequence number) pairs one receiving direction still accepts.

    A direction keeps two epoch slots, each with its own replay window, and for a while after a
    `Sync` the two slots it had before. `Lane` is that state for one direction. The module proves
    when a lane refuses everything it has delivered: it does, through every packet and every slot
    rotation, until an idle eviction, a grace expiry or a `Sync` drops a slot that was still
    needed; and it says exactly which drops those are. */
module ReceiveEpochs {
  import opened Words
  import opened ReplayWindow

  const RX_EPOCH_IDLE_MS: nat := 30_000
  const SYNC_RX_GRACE_AFTER_MS: nat := 5_000
  const MAX_ACCEPTED_RX_EPOCH_AHEAD: nat := 3

  datatype EpochRxSlot = EpochRxSlot(epoch: u32, window: Window, lastRxMs: nat, valid: bool)

  const EMPTY_SLOT := EpochRxSlot(0, EMPTY_WINDOW, 0, false)

  type SlotPair = s: seq<EpochRxSlot> | |s| == 2 witness [EMPTY_SLOT, EMPTY_SLOT]
  type SlotTable = t: seq<SlotPair> | |t| == 2 witness [[EMPTY_SLOT, EMPTY_SLOT], [EMPTY_SLOT, EMPTY_SLOT]]
  type Direction = d: nat | d < 2

  const EMPTY_PAIR: SlotPair := [EMPTY_SLOT, EMPTY_SLOT]
  const EMPTY_TABLE: SlotTable := [EMPTY_PAIR, EMPTY_PAIR]

  datatype SyncRxGrace = SyncRxGrace(slots: SlotTable, expiresAtMs: nat, valid: bool)

  const EMPTY_GRACE := SyncRxGrace(EMPTY_TABLE, 0, false)

  // ----- one direction

  /** `main` is the current pair of slots, newest first; `grace` the pair kept across a `Sync`
      (empty when no grace period is running). */
  datatype Lane = Lane(main: SlotPair, grace: SlotPair)

  predicate Holds(slot: EpochRxSlot, epoch: u32) {
    slot.valid && slot.epoch == epoch
  }

  /** The furthest epoch a new slot may be opened for. */
  function Horizon(l: Lane, sendEpoch: u32): u32 {
    var top := Max(Max(sendEpoch, l.main[0].epoch), if l.main[1].valid then l.main[1].epoch else 0);
    if top + MAX_ACCEPTED_RX_EPOCH_AHEAD > U32_MAX then U32_MAX else top + MAX_ACCEPTED_RX_EPOCH_AHEAD
  }

  predicate Precheck(l: Lane, sendEpoch: u32, epoch: u32, sn: u64) {
    if Holds(l.grace[0], epoch) then CanAccept(l.grace[0].window, sn)
    else if Holds(l.grace[1], epoch) then CanAccept(l.grace[1].window, sn)
    else if !l.main[0].valid then true
    else if l.main[0].epoch == epoch then CanAccept(l.main[0].window, sn)
    else if Holds(l.main[1], epoch) then CanAccept(l.main[1].window, sn)
    else l.main[0].epoch < epoch <= Horizon(l, sendEpoch)
  }

  /** A slot offered a sequence number: the window moves only when it is accepted, the time always. */
  function Offered(slot: EpochRxSlot, sn: u64, now: nat): EpochRxSlot {
    slot.(lastRxMs := now, window := if CanAccept(slot.window, sn) then Record(slot.window, sn) else slot.window)
  }

  function Opened(epoch: u32, sn: u64, now: nat): EpochRxSlot {
    EpochRxSlot(epoch, Record(EMPTY_WINDOW, sn), now, true)
  }

  function CommitMain(main: SlotPair, epoch: u32, sn: u64, now: nat): (SlotPair, bool) {
    if !main[0].valid then ([Opened(epoch, sn, now), main[1]], true)
    else if main[0].epoch == epoch then ([Offered(main[0], sn, now), main[1]], CanAccept(main[0].window, sn))
    else if Holds(main[1], epoch) then ([main[0], Offered(main[1], sn, now)], CanAccept(main[1].window, sn))
    else if epoch > main[0].epoch then ([Opened(epoch, sn, now), main[0]], true)
    else (main, false)
  }

  function Commit(l: Lane, epoch: u32, sn: u64, now: nat): (Lane, bool) {
    if Holds(l.grace[0], epoch) then
      (l.(grace := [Offered(l.grace[0], sn, now), l.grace[1]]), CanAccept(l.grace[0].window, sn))
    else if Holds(l.grace[1], epoch) then
      (l.(grace := [l.grace[0], Offered(l.grace[1], sn, now)]), CanAccept(l.grace[1].window, sn))
    else
      var (main, ok) := CommitMain(l.main, epoch, sn, now);
      (l.(main := main), ok)
  }

  predicate Idle(slot: EpochRxSlot, now: nat) {
    slot.valid && slot.lastRxMs != 0 && SatSub(now, slot.lastRxMs) > RX_EPOCH_IDLE_MS
  }

  function EvictSlot(slot: EpochRxSlot, now: nat): EpochRxSlot {
    if Idle(slot, now) then EMPTY_SLOT else slot
  }

  function EvictPair(pair: SlotPair, now: nat): SlotPair {
    [EvictSlot(pair[0], now), EvictSlot(pair[1], now)]
  }

  function EvictLane(l: Lane, now: nat, graceOver: bool): Lane {
    Lane(EvictPair(l.main, now), if graceOver then EMPTY_PAIR else EvictPair(l.grace, now))
  }

  /** A `Sync` empties the current slots and keeps them aside as the grace pair. */
  function SyncLane(l: Lane): Lane {
    Lane(EMPTY_PAIR, l.main)
  }

  /** What the check before decryption promises, the commit after it grants. */
  lemma PrecheckPredictsCommit(l: Lane, sendEpoch: u32, epoch: u32, sn: u64, now: nat)
    requires Precheck(l, sendEpoch, epoch, sn)
    ensures Commit(l, epoch, sn, now).1
  {
  }

  // ----- a lane against everything it has delivered

  type History = set<(u32, u64)>

  ghost function SeqsOf(h: History, epoch: u32): set<nat> {
    set p | p in h && p.0 == epoch :: p.1
  }

  /** The slot whose window decides on packets of this epoch, if there is one. */
  function Consulted(l: Lane, epoch: u32): Option<EpochRxSlot> {
    if Holds(l.grace[0], epoch) then Some(l.grace[0])
    else if Holds(l.grace[1], epoch) then Some(l.grace[1])
    else if Holds(l.main[0], epoch) then Some(l.main[0])
    else if l.main[0].valid && Holds(l.main[1], epoch) then Some(l.main[1])
    else None
  }

  /** The window that decides on this packet loses nothing by the cast to 32 bits. */
  predicate CastsWell(l: Lane, epoch: u32, sn: u64) {
    var slot := Consulted(l, epoch);
    slot.Some? ==> CastIsHarmless(slot.value.window, sn)
  }

  ghost predicate Faithful(slot: EpochRxSlot, h: History) {
    slot.valid ==> slot.window.valid && Represents(slot.window, SeqsOf(h, slot.epoch))
  }

  predicate Live(pair: SlotPair, epoch: u32) {
    Holds(pair[0], epoch) || Holds(pair[1], epoch)
  }

  predicate Ordered(main: SlotPair) {
    main[1].valid ==> main[0].valid && main[1].epoch < main[0].epoch
  }

  ghost predicate Distinguished(l: Lane) {
    forall i, j :: 0 <= i < 2 && 0 <= j < 2 && l.grace[i].valid && l.main[j].valid ==>
        l.grace[i].epoch != l.main[j].epoch
  }

  /** Both slots have the same epoch, so the second is never asked. This happens when the newest slot
      is evicted before the older one and the older epoch is then opened again. */
  predicate Shadowed(pair: SlotPair) {
    pair[0].valid && pair[1].valid && pair[0].epoch == pair[1].epoch
  }

  predicate Covered(l: Lane, epoch: u32) {
    Live(l.grace, epoch) || (l.main[0].valid && epoch <= l.main[0].epoch)
  }

  /** The commit, on its own, grants exactly what the asked window accepts, and of epochs no slot holds the
      newer ones. */
  lemma CommitGrants(l: Lane, epoch: u32, sn: u64, now: nat)
    ensures Commit(l, epoch, sn, now).1
       <==> match Consulted(l, epoch)
            case Some(slot) => CanAccept(slot.window, sn)
            case None => !l.main[0].valid || epoch > l.main[0].epoch
    ensures !Commit(l, epoch, sn, now).1 && Consulted(l, epoch).None? ==> Commit(l, epoch, sn, now).0 == l
  {
    hide CanAccept, Record;
  }

  /** Every window that can be asked is exactly the delivered numbers of its epoch, and no delivered
      epoch can still be opened afresh. */
  ghost predicate Guarded(l: Lane, h: History) {
    && Ordered(l.main)
    && Distinguished(l)
    && Faithful(l.main[0], h) && Faithful(l.main[1], h)
    && Faithful(l.grace[0], h) && (Shadowed(l.grace) || Faithful(l.grace[1], h))
    && (forall p :: p in h ==> Covered(l, p.0))
  }

  lemma SeqsOfAdd(h: History, epoch: u32, sn: u64, other: u32)
    ensures SeqsOf(h + {(epoch, sn)}, other) == if other == epoch then SeqsOf(h, epoch) + {sn} else SeqsOf(h, other)
  {
    forall q: nat
      ensures q in SeqsOf(h + {(epoch, sn)}, other) <==>
              q in if other == epoch then SeqsOf(h, epoch) + {sn} else SeqsOf(h, other)
    {
      if other == epoch && q == sn {
        assert (epoch, sn) in h + {(epoch, sn)};
      }
      if q in SeqsOf(h, other) {
        assert exists p :: p in h && p.0 == other && p.1 == q;
        var p :| p in h && p.0 == other && p.1 == q;
        assert p in h + {(epoch, sn)};
      }
    }
  }

  lemma InSeqsOf(h: History, p: (u32, u64))
    requires p in h
    ensures p.1 in SeqsOf(h, p.0)
  {
  }

  /** A slot faithful to the history refuses every delivered number of its epoch. */
  lemma SlotRefuses(slot: EpochRxSlot, h: History, sn: u64)
    requires slot.valid && Faithful(slot, h) && CastIsHarmless(slot.window, sn) && (slot.epoch, sn) in h
    ensures !CanAccept(slot.window, sn)
  {
    hide Represents, CanAccept, Record, CastIsHarmless;
    InSeqsOf(h, (slot.epoch, sn));
    SeenIsRefused(slot.window, SeqsOf(h, slot.epoch), sn);
  }

  lemma MaxIsDelivered(slot: EpochRxSlot, h: History)
    requires slot.valid && Faithful(slot, h)
    ensures (slot.epoch, slot.window.maxSeq) in h
  {
    assert slot.window.maxSeq in SeqsOf(h, slot.epoch);
    var p :| p in h && p.0 == slot.epoch && p.1 == slot.window.maxSeq;
    assert p == (slot.epoch, slot.window.maxSeq);
  }

  /** A guarded lane refuses everything in its history. */
  lemma GuardedRefuses(l: Lane, h: History, sendEpoch: u32, p: (u32, u64))
    requires Guarded(l, h) && CastsWell(l, p.0, p.1) && p in h
    ensures !Precheck(l, sendEpoch, p.0, p.1)
  {
    hide Faithful, CanAccept, CastIsHarmless, Horizon;
    assert Covered(l, p.0);
    if Holds(l.grace[0], p.0) {
      SlotRefuses(l.grace[0], h, p.1);
    } else if Holds(l.grace[1], p.0) {
      SlotRefuses(l.grace[1], h, p.1);
    } else if l.main[0].epoch == p.0 {
      SlotRefuses(l.main[0], h, p.1);
    } else if Holds(l.main[1], p.0) {
      SlotRefuses(l.main[1], h, p.1);
    }
  }

  lemma FromSeqsOf(h: History, epoch: u32, sn: u64)
    requires sn in SeqsOf(h, epoch)
    ensures (epoch, sn) in h
  {
    var p :| p in h && p.0 == epoch && p.1 == sn;
    assert p == (epoch, sn);
  }

  /** A slot faithful to the history takes every undelivered number less than 256 behind its maximum. */
  lemma SlotTakesNew(slot: EpochRxSlot, h: History, sn: u64)
    requires slot.valid && Faithful(slot, h) && (slot.epoch, sn) !in h && slot.window.maxSeq < sn + 256
    ensures CanAccept(slot.window, sn)
  {
    if sn in SeqsOf(h, slot.epoch) {
      FromSeqsOf(h, slot.epoch, sn);
    }
    hide CanAccept, SeqsOf;
    DecisionIsExact(slot.window, SeqsOf(h, slot.epoch), sn);
  }

  /** Recording into the slot of the packet's own epoch keeps it faithful. */
  lemma OfferedFaithful(slot: EpochRxSlot, h: History, sn: u64, now: nat)
    requires slot.valid && Faithful(slot, h) && CanAccept(slot.window, sn) && CastIsHarmless(slot.window, sn)
    ensures Faithful(Offered(slot, sn, now), h + {(slot.epoch, sn)})
  {
    hide Represents, CanAccept, CastIsHarmless;
    RecordIsExact(slot.window, SeqsOf(h, slot.epoch), sn);
    SeqsOfAdd(h, slot.epoch, sn, slot.epoch);
  }

  lemma OpenedFaithful(h: History, epoch: u32, sn: u64, now: nat)
    requires forall p :: p in h ==> p.0 != epoch
    ensures Faithful(Opened(epoch, sn, now), h + {(epoch, sn)})
  {
    assert SeqsOf(h, epoch) == {};
    SeqsOfAdd(h, epoch, sn, epoch);
    RecordRepresents(EMPTY_WINDOW, {}, sn);
  }

  lemma OtherFaithful(slot: EpochRxSlot, h: History, epoch: u32, sn: u64)
    requires Faithful(slot, h) && (slot.valid ==> slot.epoch != epoch)
    ensures Faithful(slot, h + {(epoch, sn)})
  {
    SeqsOfAdd(h, epoch, sn, slot.epoch);
  }

  /** Delivering a packet that passed the check keeps the lane guarded, rotation included. */
  lemma CommitKeepsGuard(l: Lane, h: History, sendEpoch: u32, epoch: u32, sn: u64, now: nat)
    requires Guarded(l, h) && Precheck(l, sendEpoch, epoch, sn) && CastsWell(l, epoch, sn)
    ensures Commit(l, epoch, sn, now).1
    ensures Guarded(Commit(l, epoch, sn, now).0, h + {(epoch, sn)})
  {
    PrecheckPredictsCommit(l, sendEpoch, epoch, sn, now);
    if Live(l.grace, epoch) {
      GraceCommitKeepsGuard(l, h, epoch, sn, now);
    } else {
      MainCommitKeepsGuard(l, h, sendEpoch, epoch, sn, now);
    }
  }

  lemma GraceCommitKeepsGuard(l: Lane, h: History, epoch: u32, sn: u64, now: nat)
    requires Guarded(l, h) && Live(l.grace, epoch) && Commit(l, epoch, sn, now).1 && CastsWell(l, epoch, sn)
    ensures Guarded(Commit(l, epoch, sn, now).0, h + {(epoch, sn)})
  {
    hide Faithful, CanAccept, CastIsHarmless, Record;
    var k := if Holds(l.grace[0], epoch) then 0 else 1;
    OfferedFaithful(l.grace[k], h, sn, now);
    if !Shadowed(l.grace) {
      OtherFaithful(l.grace[1 - k], h, epoch, sn);
    }
    OtherFaithful(l.main[0], h, epoch, sn);
    OtherFaithful(l.main[1], h, epoch, sn);
  }

  lemma MainCommitKeepsGuard(l: Lane, h: History, sendEpoch: u32, epoch: u32, sn: u64, now: nat)
    requires Guarded(l, h) && !Live(l.grace, epoch) && Precheck(l, sendEpoch, epoch, sn) && CastsWell(l, epoch, sn)
    ensures Guarded(Commit(l, epoch, sn, now).0, h + {(epoch, sn)})
  {
    hide Faithful, CanAccept, CastIsHarmless, Record, Horizon;
    OtherFaithful(l.grace[0], h, epoch, sn);
    if !Shadowed(l.grace) {
      OtherFaithful(l.grace[1], h, epoch, sn);
    }
    if Holds(l.main[0], epoch) {
      OfferedFaithful(l.main[0], h, sn, now);
      OtherFaithful(l.main[1], h, epoch, sn);
    } else if l.main[0].valid && Holds(l.main[1], epoch) {
      OfferedFaithful(l.main[1], h, sn, now);
      OtherFaithful(l.main[0], h, epoch, sn);
    } else {
      assert forall p :: p in h ==> p.0 != epoch;
      OpenedFaithful(h, epoch, sn, now);
      OtherFaithful(l.main[0], h, epoch, sn);
      OtherFaithful(l.main[1], h, epoch, sn);
    }
  }

  // ----- dropping slots

  predicate GraceGoes(l: Lane, k: Direction, now: nat, graceOver: bool) {
    l.grace[k].valid && (graceOver || Idle(l.grace[k], now))
  }

  predicate Superseded(l: Lane, epoch: u32) {
    l.main[0].valid && epoch < l.main[0].epoch
  }

  /** The slot that was asked goes and the one it shadowed comes to light. */
  predicate Unshadows(l: Lane, now: nat, graceOver: bool) {
    Shadowed(l.grace) && GraceGoes(l, 0, now, graceOver) && !GraceGoes(l, 1, now, graceOver)
  }

  /** An eviction at `now` drops nothing that is still needed: the newest slot stays, and a grace
      slot that is asked goes only once a newer epoch has taken over. */
  predicate EvictionIsHarmless(l: Lane, now: nat, graceOver: bool) {
    && !Idle(l.main[0], now)
    && !Unshadows(l, now, graceOver)
    && (GraceGoes(l, 0, now, graceOver) ==> Superseded(l, l.grace[0].epoch))
    && (GraceGoes(l, 1, now, graceOver) && !Shadowed(l.grace) ==> Superseded(l, l.grace[1].epoch))
  }

  lemma HarmlessEvictionKeepsGuard(l: Lane, h: History, now: nat, graceOver: bool)
    requires Guarded(l, h) && EvictionIsHarmless(l, now, graceOver)
    ensures Guarded(EvictLane(l, now, graceOver), h)
  {
    hide Represents;
    var l' := EvictLane(l, now, graceOver);
    forall p | p in h
      ensures Covered(l', p.0)
    {
      assert Covered(l, p.0);
    }
  }

  /** An eviction that is not harmless reopens the lane for something already delivered. */
  lemma HarmfulEvictionReplays(l: Lane, h: History, sendEpoch: u32, now: nat, graceOver: bool)
    requires Guarded(l, h) && !EvictionIsHarmless(l, now, graceOver) && !Unshadows(l, now, graceOver)
    requires forall k :: 0 <= k < 2 && l.grace[k].valid ==> l.grace[k].epoch <= sendEpoch
    ensures exists p :: p in h && Precheck(EvictLane(l, now, graceOver), sendEpoch, p.0, p.1)
  {
    hide Represents, CanAccept;
    var dropped := if Idle(l.main[0], now) then l.main[0]
                   else if GraceGoes(l, 0, now, graceOver) && !Superseded(l, l.grace[0].epoch) then l.grace[0]
                   else l.grace[1];
    MaxIsDelivered(dropped, h);
    var p := (dropped.epoch, dropped.window.maxSeq);
    assert p in h && Precheck(EvictLane(l, now, graceOver), sendEpoch, p.0, p.1);
  }

  /** A `Sync` keeps the guard exactly when everything delivered belongs to one of the two slots
      that become the grace pair. */
  ghost predicate SyncIsHarmless(l: Lane, h: History) {
    forall p :: p in h ==> Live(l.main, p.0)
  }

  lemma HarmlessSyncKeepsGuard(l: Lane, h: History)
    requires Guarded(l, h) && SyncIsHarmless(l, h)
    ensures Guarded(SyncLane(l), h)
  {
  }

  lemma HarmfulSyncReplays(l: Lane, h: History, sendEpoch: u32)
    requires !SyncIsHarmless(l, h)
    ensures exists p :: p in h && Precheck(SyncLane(l), sendEpoch, p.0, p.1)
  {
    var p :| p in h && !Live(l.main, p.0);
    assert Precheck(SyncLane(l), sendEpoch, p.0, p.1);
  }

  // ----- lanes with an unknown past

  /** Whatever happened, a window remembers its maximum and nothing out of its reach. */
  predicate SaneWindow(w: Window) {
    w.valid && 0 in w.marks && forall d :: d in w.marks ==> d < WINDOW && d <= w.maxSeq
  }

  predicate SaneSlot(slot: EpochRxSlot, now: nat) {
    slot.valid ==> SaneWindow(slot.window) && 0 < slot.lastRxMs <= now
  }

  /** A shadowed slot was not heard later than the one shadowing it. */
  predicate SanePair(pair: SlotPair, now: nat) {
    SaneSlot(pair[0], now) && SaneSlot(pair[1], now) && (Shadowed(pair) ==> pair[1].lastRxMs <= pair[0].lastRxMs)
  }

  predicate SaneLane(l: Lane, now: nat) {
    SanePair(l.main, now) && SanePair(l.grace, now)
  }

  lemma RecordIsSane(w: Window, sn: u64)
    requires SaneWindow(w) && CanAccept(w, sn)
    ensures SaneWindow(Record(w, sn))
  {
    assert forall d :: d in Record(w, sn).marks ==> d < WINDOW && d <= Record(w, sn).maxSeq;
  }

  lemma CommitIsSane(l: Lane, epoch: u32, sn: u64, now: nat)
    requires SaneLane(l, now) && now > 0
    ensures SaneLane(Commit(l, epoch, sn, now).0, now)
  {
    hide SaneWindow, Record, CanAccept;
    forall slot: EpochRxSlot | slot.valid && SaneSlot(slot, now)
      ensures SaneSlot(Offered(slot, sn, now), now)
    {
      if CanAccept(slot.window, sn) {
        RecordIsSane(slot.window, sn);
      }
    }
    OpenedIsSane(epoch, sn, now);
  }

  lemma OpenedIsSane(epoch: u32, sn: u64, now: nat)
    requires now > 0
    ensures SaneSlot(Opened(epoch, sn, now), now)
  {
  }

  lemma EvictIsSane(l: Lane, now: nat, graceOver: bool)
    requires SaneLane(l, now)
    ensures SaneLane(EvictLane(l, now, graceOver), now)
  {
  }

  /** A shadowed slot never outlives the one shadowing it. */
  lemma ShadowsGoTogether(l: Lane, now: nat, graceOver: bool)
    requires SaneLane(l, now)
    ensures !Unshadows(l, now, graceOver)
  {
  }

  /** The pairs a slot's marks stand for. */
  ghost function MarkedIn(slot: EpochRxSlot): History {
    if !slot.valid then {}
    else set d | d in slot.window.marks && d <= slot.window.maxSeq :: (slot.epoch, slot.window.maxSeq - d)
  }

  /** Everything a lane remembers having delivered. */
  ghost function Marked(l: Lane): History {
    MarkedIn(l.main[0]) + MarkedIn(l.main[1]) + MarkedIn(l.grace[0])
    + if Shadowed(l.grace) then {} else MarkedIn(l.grace[1])
  }

  lemma MarkedUnder(slot: EpochRxSlot)
    ensures forall p :: p in MarkedIn(slot) ==> Holds(slot, p.0)
  {
  }

  lemma MarkedIsFaithful(slot: EpochRxSlot, h: History, now: nat)
    requires SaneSlot(slot, now) && MarkedIn(slot) <= h
    requires slot.valid ==> forall p :: p in h && p.0 == slot.epoch ==> p in MarkedIn(slot)
    ensures Faithful(slot, h)
  {
    if slot.valid {
      var w, seen := slot.window, SeqsOf(h, slot.epoch);
      forall d: nat | d < WINDOW && d <= w.maxSeq
        ensures d in w.marks <==> w.maxSeq - d in seen
      {
        if d in w.marks {
          assert (slot.epoch, w.maxSeq - d) in MarkedIn(slot);
        }
      }
      assert w.maxSeq in seen by {
        assert (slot.epoch, w.maxSeq - 0) in MarkedIn(slot);
      }
    }
  }

  /** A lane whose windows are sane and whose slots are in order is guarded for what it remembers,
      whatever it has forgotten. A `Sync` leaves every lane so. */
  lemma MarkedIsGuarded(l: Lane, now: nat)
    requires SaneLane(l, now) && Ordered(l.main) && Distinguished(l)
    ensures Guarded(l, Marked(l))
  {
    var h := Marked(l);
    MarkedUnder(l.main[0]);
    MarkedUnder(l.main[1]);
    MarkedUnder(l.grace[0]);
    MarkedUnder(l.grace[1]);
    hide SaneSlot, MarkedIn, Faithful;
    MarkedIsFaithful(l.main[0], h, now);
    MarkedIsFaithful(l.main[1], h, now);
    MarkedIsFaithful(l.grace[0], h, now);
    if !Shadowed(l.grace) {
      MarkedIsFaithful(l.grace[1], h, now);
    }
  }
}
