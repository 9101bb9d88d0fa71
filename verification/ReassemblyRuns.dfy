/** Whole runs of fragment traffic: the quotas hold throughout, and a split message comes out whole. */
module ReassemblyRuns {
  import opened Words
  import opened Reassembly

  datatype Op =
    | Deliver(network: string, peerId: u32, packet: RpcPacket, now: nat)
    | Forget(network: string, peerId: u32)     // the peer is removed
    | Clean(now: nat)                          // periodic cleaning

  ghost function Step(m: Partials, op: Op): (Partials, Merged) {
    match op
    case Deliver(network, peerId, packet, now) => Merge(m, network, peerId, packet, now)
    case Forget(network, peerId) => (WithoutPeer(m, network, peerId), Pending)
    case Clean(now) => (Fresh(m, now), Pending)
  }

  ghost function Run(start: Partials, ops: seq<Op>): Partials {
    if ops == [] then start else Step(Run(start, ops[..|ops| - 1]), ops[|ops| - 1]).0
  }

  lemma NothingWithinQuotas()
    ensures WithinQuotas(map[])
  {
    var none: Partials := map[];
    forall network, peerId
      ensures |KeysOf(none.Keys, network, peerId)| <= MAX_PENDING_TRANSACTIONS_PER_PEER
    {
      assert KeysOf(none.Keys, network, peerId) == {};
    }
  }

  /** The three quotas hold in every reachable state. */
  lemma {:induction false} QuotasAlwaysHold(ops: seq<Op>)
    ensures WithinQuotas(Run(map[], ops))
  {
    if ops == [] {
      NothingWithinQuotas();
    } else {
      hide WithinQuotas, Merge;
      var m, op := Run(map[], ops[..|ops| - 1]), ops[|ops| - 1];
      QuotasAlwaysHold(ops[..|ops| - 1]);
      match op
      case Deliver(network, peerId, packet, now) => MergeKeepsQuotas(m, network, peerId, packet, now);
      case Forget(network, peerId) => FewerWithinQuotas(m, WithoutPeer(m, network, peerId));
      case Clean(now) => FewerWithinQuotas(m, Fresh(m, now));
    }
  }

  // ----- one message among the traffic

  /** A message cut into at least two pieces; `head` is the packet that carries piece 0. */
  datatype Message = Message(key: RpcKey, parts: seq<Bytes>, head: RpcPacket)

  function Concat(parts: seq<Bytes>): Bytes {
    if parts == [] then [] else Concat(parts[..|parts| - 1]) + parts[|parts| - 1]
  }

  predicate Proper(w: Message) {
    && 2 <= |w.parts| <= MAX_RPC_PIECES
    && w.head.descriptor.Some?
    && Genuine(w, w.head) && w.head.pieceIdx == 0
  }

  /** A packet of this message: its piece count, its piece, and for piece 0 the whole head packet. */
  predicate Genuine(w: Message, packet: RpcPacket) {
    && packet.totalPieces == |w.parts| && packet.pieceIdx < |w.parts|
    && packet.body == w.parts[packet.pieceIdx]
    && (packet.pieceIdx == 0 ==> packet == w.head)
  }

  predicate Mine(w: Message, op: Op) {
    op.Deliver? && KeyOf(op.network, op.peerId, op.packet) == w.key
  }

  /** What has been delivered of the message, and when last. */
  datatype Progress = Progress(seen: set<nat>, last: nat)

  function Seen(w: Message, ops: seq<Op>): Progress {
    if ops == [] then Progress({}, 0)
    else
      var p, op := Seen(w, ops[..|ops| - 1]), ops[|ops| - 1];
      if Mine(w, op) then Progress(p.seen + {op.packet.pieceIdx}, op.now) else p
  }

  function All(w: Message): set<nat> {
    set i: nat | i < |w.parts| && IsPiece(w, i)
  }

  predicate IsPiece(w: Message, i: nat) {
    i < |w.parts|
  }

  predicate Recent(p: Progress, now: nat) {
    p.seen != {} ==> SatSub(now, p.last) < RPC_FRAGMENT_TTL_MS
  }

  /** The quotas have room for this packet. */
  ghost predicate Roomy(w: Message, m: Partials, packet: RpcPacket, now: nat)
    requires Proper(w) && Genuine(w, packet)
  {
    var kept := Fresh(m, now);
    && (w.key !in kept ==>
          && |KeysOf(kept.Keys, w.key.network, w.key.peerId)| < MAX_PENDING_TRANSACTIONS_PER_PEER
          && PiecesIn(kept) + |w.parts| <= MAX_PENDING_PIECES)
    && (|Entry(kept, w.key, packet, now).pieces| == |w.parts| ==>
          BytesIn(kept[w.key := Received(Entry(kept, w.key, packet, now), packet, now)]) <= MAX_PENDING_BYTES)
  }

  /** Nothing forgets the message, no gap reaches the time limit, and its own packets are genuine and fit. */
  ghost predicate Calm(w: Message, m: Partials, p: Progress, op: Op)
    requires Proper(w)
  {
    match op
    case Deliver(network, peerId, packet, now) =>
      Recent(p, now) && (Mine(w, op) ==> Genuine(w, packet) && Roomy(w, m, packet, now))
    case Forget(network, peerId) => p.seen == {} || network != w.key.network || peerId != w.key.peerId
    case Clean(now) => Recent(p, now)
  }

  ghost predicate CalmRun(w: Message, start: Partials, ops: seq<Op>)
    requires Proper(w)
  {
    ops == [] ||
    var before := ops[..|ops| - 1];
    CalmRun(w, start, before) && Calm(w, Run(start, before), Seen(w, before), ops[|ops| - 1])
  }

  function ExpectedPieces(w: Message, seen: set<nat>): Pieces {
    seq(|w.parts|, i requires 0 <= i < |w.parts| => if i in seen then Some(w.parts[i]) else None)
  }

  function Expected(w: Message, p: Progress): Partial {
    Partial(ExpectedPieces(w, p.seen), if 0 in p.seen then Some(w.head) else None, p.last)
  }

  /** The table holds exactly what was delivered of the message. */
  predicate Tracks(w: Message, m: Partials, p: Progress) {
    && p.seen <= All(w)
    && (p.seen == {} ==> w.key !in m)
    && (p.seen != {} ==> w.key in m && m[w.key] == Expected(w, p))
  }

  lemma FreshTracks(w: Message, m: Partials, p: Progress, now: nat)
    requires Tracks(w, m, p) && Recent(p, now)
    ensures Tracks(w, Fresh(m, now), p)
  {
  }

  lemma OtherOpKeeps(w: Message, m: Partials, p: Progress, op: Op)
    requires Proper(w) && Tracks(w, m, p) && Calm(w, m, p, op) && !Mine(w, op)
    ensures Tracks(w, Step(m, op).0, p)
  {
    if op.Deliver? {
      FreshTracks(w, m, p, op.now);
      hide Expected, Received, AllPresent, Objection, BytesIn;
    }
  }

  lemma ExpectedAdds(w: Message, p: Progress, packet: RpcPacket, now: nat)
    requires Proper(w) && Genuine(w, packet)
    ensures packet.pieceIdx < |Expected(w, p).pieces|
    ensures Received(Expected(w, p), packet, now) == Expected(w, Progress(p.seen + {packet.pieceIdx}, now))
  {
    assert ExpectedPieces(w, p.seen)[packet.pieceIdx := Some(packet.body)]
        == ExpectedPieces(w, p.seen + {packet.pieceIdx});
  }

  lemma ExpectedNothing(w: Message, now: nat)
    ensures Empty(|w.parts|, now) == Expected(w, Progress({}, now))
  {
    assert ExpectedPieces(w, {}) == seq(|w.parts|, i => None);
  }

  lemma ExpectedComplete(w: Message, seen: set<nat>)
    requires seen <= All(w)
    ensures AllPresent(ExpectedPieces(w, seen)) <==> seen == All(w)
  {
    var ps := ExpectedPieces(w, seen);
    if AllPresent(ps) {
      forall i | i in All(w)
        ensures i in seen
      {
        assert ps[i].Some?;
      }
    }
  }

  lemma {:induction false} JoinedIsConcat(parts: seq<Bytes>, ps: Pieces)
    requires |ps| == |parts| && forall i :: 0 <= i < |ps| ==> ps[i] == Some(parts[i])
    ensures Joined(ps) == Concat(parts)
  {
    if ps != [] {
      JoinedIsConcat(parts[..|parts| - 1], ps[..|ps| - 1]);
    }
  }

  /** The original message as one packet. */
  function Original(w: Message): RpcPacket {
    w.head.(body := Concat(w.parts), totalPieces := 1, pieceIdx := 0)
  }

  /** One genuine packet: the message completes exactly when this was its last missing piece. */
  lemma OwnPiece(w: Message, m: Partials, p: Progress, op: Op)
    requires Proper(w) && Tracks(w, m, p) && Calm(w, m, p, op) && Mine(w, op) && p.seen != All(w)
    ensures var p' := Progress(p.seen + {op.packet.pieceIdx}, op.now);
            if p'.seen == All(w) then Step(m, op).1 == Complete(Original(w)) && w.key !in Step(m, op).0
            else Step(m, op).1 == Pending && Tracks(w, Step(m, op).0, p')
  {
    var packet, now := op.packet, op.now;
    var kept := Fresh(m, now);
    var p' := Progress(p.seen + {packet.pieceIdx}, now);
    FreshTracks(w, m, p, now);
    ExpectedNothing(w, now);
    var base := if p.seen == {} then Progress({}, now) else p;
    assert Entry(kept, w.key, packet, now) == Expected(w, base);
    ExpectedAdds(w, base, packet, now);
    assert base.seen + {packet.pieceIdx} == p'.seen;
    var e := Expected(w, p');
    ExpectedComplete(w, p'.seen);
    assert Immediate(packet).None?;
    assert Objection(kept, w.key, packet).None?;
    if p'.seen == All(w) {
      JoinedIsConcat(w.parts, e.pieces);
      assert IsPiece(w, 0);
    }
    assert MergeKept(kept, w.key, packet, now) == AddPiece(kept, w.key, packet, now);
  }

  /** As long as a piece is missing, every packet of the message was answered with "pending". */
  ghost predicate OwnAllPending(w: Message, start: Partials, ops: seq<Op>) {
    ops == [] ||
    var before := ops[..|ops| - 1];
    OwnAllPending(w, start, before)
        && (Mine(w, ops[|ops| - 1]) ==> Step(Run(start, before), ops[|ops| - 1]).1 == Pending)
  }

  lemma {:induction false} PendingWhileIncomplete(w: Message, start: Partials, ops: seq<Op>)
    requires Proper(w) && w.key !in start && CalmRun(w, start, ops) && Seen(w, ops).seen != All(w)
    ensures Tracks(w, Run(start, ops), Seen(w, ops))
    ensures OwnAllPending(w, start, ops)
  {
    if ops != [] {
      var before, op := ops[..|ops| - 1], ops[|ops| - 1];
      if Mine(w, op) {
        SeenStaysWithin(w, start, before);
        assert IsPiece(w, op.packet.pieceIdx);
        assert Seen(w, before).seen + {op.packet.pieceIdx} != All(w);
        assert Seen(w, before).seen != All(w);
        PendingWhileIncomplete(w, start, before);
        OwnPiece(w, Run(start, before), Seen(w, before), op);
      } else {
        PendingWhileIncomplete(w, start, before);
        OtherOpKeeps(w, Run(start, before), Seen(w, before), op);
      }
    }
  }

  lemma {:induction false} SeenStaysWithin(w: Message, start: Partials, ops: seq<Op>)
    requires Proper(w) && CalmRun(w, start, ops)
    ensures Seen(w, ops).seen <= All(w)
  {
    if ops != [] {
      SeenStaysWithin(w, start, ops[..|ops| - 1]);
    }
  }

  /** The round trip: whatever the order, the repetitions and the other traffic, the message is
      pending up to its last missing piece and comes out whole with it, made of nothing but its
      own pieces. It may start from any table that holds nothing under its key, so a key finished,
      dropped or timed out before may be used again. */
  lemma RoundTrip(w: Message, start: Partials, before: seq<Op>, op: Op)
    requires Proper(w) && w.key !in start && CalmRun(w, start, before + [op]) && Mine(w, op)
    requires Seen(w, before).seen != All(w) && Seen(w, before + [op]).seen == All(w)
    ensures OwnAllPending(w, start, before)
    ensures Step(Run(start, before), op).1 == Complete(Original(w))
    ensures w.key !in Run(start, before + [op])
  {
    assert (before + [op])[..|before|] == before;
    PendingWhileIncomplete(w, start, before);
    OwnPiece(w, Run(start, before), Seen(w, before), op);
  }
}
