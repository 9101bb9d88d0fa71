/** Reassembly of fragmented RPC messages.

    The simple form is a map from transactions to the pieces received so far; its quotas are sums
    over the map. `Reassembler` is the program's form, which keeps the byte, piece and received
    counts incrementally. The module proves that the counters never drift from the sums, that the
    quotas hold in every reachable state, and that a message split into pieces comes out whole
    whatever the order, the repetitions and the traffic in between. */
module Reassembly {
  import opened Words
  import opened Sums

  const MAX_RPC_PIECES: nat := 32_768
  const MAX_PENDING_TRANSACTIONS_PER_PEER: nat := 64
  const MAX_PENDING_BYTES: nat := 33_554_432
  const MAX_PENDING_PIECES: nat := 32_768
  const RPC_FRAGMENT_TTL_MS: nat := 10_000

  type Bytes = seq<bv8>

  datatype Descriptor = Descriptor(domainName: string, protoName: string, serviceName: string, methodIndex: u32)

  datatype RpcPacket = RpcPacket(
    fromPeer: u32,
    toPeer: u32,
    transactionId: int,
    descriptor: Option<Descriptor>,
    body: Bytes,
    isRequest: bool,
    totalPieces: u32,
    pieceIdx: u32,
    traceId: int,
    compression: Option<int>)

  datatype RpcKey = RpcKey(network: string, peerId: u32, transactionId: int, isRequest: bool)

  datatype Refusal =
    | BadEnvelope
    | NoDescriptor
    | PieceCountChanged
    | TooManyTransactions
    | TooManyPieces
    | TooManyBytes
    | Internal            // "disappeared", "first piece was not received", "missing piece"

  datatype Merged = Pending | Complete(packet: RpcPacket) | Refused(why: Refusal)

  function KeyOf(network: string, peerId: u32, packet: RpcPacket): RpcKey {
    RpcKey(network, peerId, packet.transactionId, packet.isRequest)
  }

  // ----- rows of pieces

  type Pieces = seq<Option<Bytes>>

  function Len(piece: Option<Bytes>): nat {
    if piece.None? then 0 else |piece.value|
  }

  function TotalLen(ps: Pieces): nat {
    if ps == [] then 0 else TotalLen(ps[..|ps| - 1]) + Len(ps[|ps| - 1])
  }

  function Filled(ps: Pieces): nat {
    if ps == [] then 0 else Filled(ps[..|ps| - 1]) + if ps[|ps| - 1].Some? then 1 else 0
  }

  /** The present pieces one after another. */
  function Joined(ps: Pieces): Bytes {
    if ps == [] then []
    else Joined(ps[..|ps| - 1]) + if ps[|ps| - 1].Some? then ps[|ps| - 1].value else []
  }

  predicate AllPresent(ps: Pieces) {
    forall i :: 0 <= i < |ps| ==> ps[i].Some?
  }

  lemma {:induction false} FillOne(ps: Pieces, i: nat, body: Bytes)
    requires i < |ps|
    ensures TotalLen(ps[i := Some(body)]) + Len(ps[i]) == TotalLen(ps) + |body|
    ensures Filled(ps[i := Some(body)]) == Filled(ps) + if ps[i].None? then 1 else 0
    ensures Len(ps[i]) <= TotalLen(ps)
  {
    var n := |ps| - 1;
    var ps' := ps[i := Some(body)];
    if i < n {
      assert ps'[..n] == ps[..n][i := Some(body)];
      FillOne(ps[..n], i, body);
    } else {
      assert ps'[..n] == ps[..n];
    }
  }

  lemma {:induction false} FilledBound(ps: Pieces)
    ensures Filled(ps) <= |ps|
    ensures Filled(ps) == |ps| <==> AllPresent(ps)
  {
    if ps != [] {
      FilledBound(ps[..|ps| - 1]);
      assert AllPresent(ps) <==> AllPresent(ps[..|ps| - 1]) && ps[|ps| - 1].Some?;
    }
  }

  lemma {:induction false} NothingFilled(ps: Pieces)
    requires forall i :: 0 <= i < |ps| ==> ps[i].None?
    ensures Filled(ps) == 0 && TotalLen(ps) == 0
  {
    if ps != [] {
      NothingFilled(ps[..|ps| - 1]);
    }
  }

  // ----- the simple form

  datatype Partial = Partial(pieces: Pieces, first: Option<RpcPacket>, updatedAtMs: nat)

  type Partials = map<RpcKey, Partial>

  function BytesOf(p: Partial): nat {
    TotalLen(p.pieces)
  }

  function PiecesOf(p: Partial): nat {
    |p.pieces|
  }

  ghost function BytesIn(m: Partials): nat {
    SumBy(m, BytesOf)
  }

  ghost function PiecesIn(m: Partials): nat {
    SumBy(m, PiecesOf)
  }

  function KeysOf(keys: set<RpcKey>, network: string, peerId: u32): set<RpcKey> {
    set k | k in keys && k.network == network && k.peerId == peerId
  }

  predicate Stale(p: Partial, now: nat) {
    SatSub(now, p.updatedAtMs) >= RPC_FRAGMENT_TTL_MS
  }

  function Fresh(m: Partials, now: nat): Partials {
    map k | k in m && !Stale(m[k], now) :: m[k]
  }

  function WithoutPeer(m: Partials, network: string, peerId: u32): Partials {
    m - KeysOf(m.Keys, network, peerId)
  }

  function Empty(total: nat, now: nat): Partial {
    Partial(seq(total, i => None), None, now)
  }

  function Received(e: Partial, packet: RpcPacket, now: nat): Partial
    requires packet.pieceIdx < |e.pieces|
  {
    Partial(e.pieces[packet.pieceIdx := Some(packet.body)], if packet.pieceIdx == 0 then Some(packet) else e.first, now)
  }

  function Whole(first: RpcPacket, ps: Pieces): RpcPacket {
    first.(body := Joined(ps), totalPieces := 1, pieceIdx := 0)
  }

  /** What is answered before the table is looked at, if anything. */
  function Immediate(packet: RpcPacket): Option<Merged> {
    if packet.totalPieces == 0 && packet.pieceIdx == 0 then Some(Complete(packet))
    else if packet.totalPieces == 0 || packet.totalPieces > MAX_RPC_PIECES || packet.pieceIdx >= packet.totalPieces
    then Some(Refused(BadEnvelope))
    else if packet.totalPieces == 1 then Some(Complete(packet))
    else if packet.pieceIdx == 0 && packet.descriptor.None? then Some(Refused(NoDescriptor))
    else None
  }

  /** Why a packet that needs the table is turned away, if it is. */
  ghost function Objection(kept: Partials, key: RpcKey, packet: RpcPacket): Option<Refusal> {
    if key in kept then
      if |kept[key].pieces| != packet.totalPieces then Some(PieceCountChanged) else None
    else if |KeysOf(kept.Keys, key.network, key.peerId)| >= MAX_PENDING_TRANSACTIONS_PER_PEER
    then Some(TooManyTransactions)
    else if PiecesIn(kept) + packet.totalPieces > MAX_PENDING_PIECES then Some(TooManyPieces)
    else None
  }

  /** Adding one piece to its transaction, present or new. */
  ghost function AddPiece(kept: Partials, key: RpcKey, packet: RpcPacket, now: nat): (Partials, Merged)
    requires Immediate(packet).None? && Objection(kept, key, packet).None?
  {
    var e := Received(Entry(kept, key, packet, now), packet, now);
    if BytesIn(kept[key := e]) > MAX_PENDING_BYTES then (kept - {key}, Refused(TooManyBytes))
    else if !AllPresent(e.pieces) then (kept[key := e], Pending)
    else if e.first.None? then (kept - {key}, Refused(Internal))
    else (kept - {key}, Complete(Whole(e.first.value, e.pieces)))
  }

  function Entry(kept: Partials, key: RpcKey, packet: RpcPacket, now: nat): (e: Partial)
    ensures key !in kept ==> |e.pieces| == packet.totalPieces
  {
    if key in kept then kept[key] else Empty(packet.totalPieces, now)
  }

  ghost function MergeKept(kept: Partials, key: RpcKey, packet: RpcPacket, now: nat): (Partials, Merged)
    requires Immediate(packet).None?
  {
    var objection := Objection(kept, key, packet);
    if objection.None? then AddPiece(kept, key, packet, now)
    else (if objection.value == PieceCountChanged then kept - {key} else kept, Refused(objection.value))
  }

  ghost function Merge(m: Partials, network: string, peerId: u32, packet: RpcPacket, now: nat): (Partials, Merged) {
    if Immediate(packet).Some? then (m, Immediate(packet).value)
    else MergeKept(Fresh(m, now), KeyOf(network, peerId, packet), packet, now)
  }

  // ----- what is refused, in numbers

  /** Cleaning keeps exactly the transactions heard within the last 10 s. */
  lemma FreshIsRecent(m: Partials, now: nat, k: RpcKey)
    ensures k in Fresh(m, now) <==> k in m && now < m[k].updatedAtMs + 10_000
    ensures k in Fresh(m, now) ==> Fresh(m, now)[k] == m[k]
  {
  }

  /** What needs no table: an empty or single piece is complete as it is; more than 32768 pieces, or a piece out
      of range, is refused; so is a first piece without a descriptor. */
  lemma ImmediateIs(packet: RpcPacket)
    ensures Immediate(packet) == Some(Complete(packet))
       <==> packet.pieceIdx == 0 && packet.totalPieces <= 1
    ensures Immediate(packet) == Some(Refused(BadEnvelope))
       <==> var pieces := if packet.totalPieces == 0 then 1 else packet.totalPieces;
            packet.totalPieces > 32_768 || packet.pieceIdx >= pieces
    ensures Immediate(packet) == Some(Refused(NoDescriptor))
       <==> 2 <= packet.totalPieces <= 32_768 && packet.pieceIdx == 0 && packet.descriptor.None?
    ensures Immediate(packet).None? ==>
              2 <= packet.totalPieces <= 32_768 && packet.pieceIdx < packet.totalPieces
              && (packet.pieceIdx == 0 ==> packet.descriptor.Some?)
  {
  }

  /** A further packet is turned away exactly when its piece count differs from the transaction's, when its peer
      has 64 others pending, or when 32768 pieces would be exceeded. */
  lemma TurnedAwayExactly(kept: Partials, key: RpcKey, packet: RpcPacket)
    ensures Objection(kept, key, packet) == Some(PieceCountChanged)
       <==> key in kept && |kept[key].pieces| != packet.totalPieces
    ensures Objection(kept, key, packet) == Some(TooManyTransactions)
       <==> key !in kept && |KeysOf(kept.Keys, key.network, key.peerId)| >= 64
    ensures Objection(kept, key, packet) == Some(TooManyPieces)
       <==> key !in kept && |KeysOf(kept.Keys, key.network, key.peerId)| < 64
            && PiecesIn(kept) + packet.totalPieces > 32_768
    ensures Objection(kept, key, packet).Some? ==>
              Objection(kept, key, packet).value in {PieceCountChanged, TooManyTransactions, TooManyPieces}
  {
  }

  /** What a merge does with it: turned away, it leaves the table as cleaned, without the transaction if the piece
      count changed; else it is stored, unless 32 MiB would be exceeded and the transaction is dropped, or it was
      the last missing piece and the transaction is done. */
  lemma MergeDoes(m: Partials, network: string, peerId: u32, packet: RpcPacket, now: nat)
    requires Immediate(packet).None?
    ensures var key, kept := KeyOf(network, peerId, packet), Fresh(m, now);
            var (m', answer) := Merge(m, network, peerId, packet, now);
            var objection := Objection(kept, key, packet);
            && (objection == Some(PieceCountChanged) ==> m' == kept - {key} && answer == Refused(PieceCountChanged))
            && (objection.Some? && objection.value != PieceCountChanged ==>
                m' == kept && answer == Refused(objection.value))
            && (objection.None? ==>
                  packet.pieceIdx < |Entry(kept, key, packet, now).pieces|
                  && var e := Received(Entry(kept, key, packet, now), packet, now);
                     && (BytesIn(kept[key := e]) > 33_554_432 ==> m' == kept - {key} && answer == Refused(TooManyBytes))
                     && (BytesIn(kept[key := e]) <= 33_554_432 ==>
                           if AllPresent(e.pieces) then m' == kept - {key} && (e.first.Some? ==> answer.Complete?)
                           else m' == kept[key := e] && answer == Pending))
  {
    hide SumBy, KeysOf, AllPresent;
  }

  // ----- quotas, in every reachable state

  predicate WellFormed(p: Partial) {
    && 2 <= |p.pieces| <= MAX_RPC_PIECES
    && (p.first.Some? <==> p.pieces[0].Some?)
    && !AllPresent(p.pieces)
  }

  ghost predicate WithinQuotas(m: Partials) {
    && (forall k :: k in m ==> WellFormed(m[k]))
    && BytesIn(m) <= MAX_PENDING_BYTES
    && PiecesIn(m) <= MAX_PENDING_PIECES
    && PeersWithinLimit(m.Keys)
  }

  ghost predicate PeersWithinLimit(keys: set<RpcKey>) {
    forall network, peerId :: |KeysOf(keys, network, peerId)| <= MAX_PENDING_TRANSACTIONS_PER_PEER
  }

  lemma KeysOfMonotone(a: set<RpcKey>, b: set<RpcKey>, network: string, peerId: u32)
    requires a <= b
    ensures |KeysOf(a, network, peerId)| <= |KeysOf(b, network, peerId)|
  {
    SubsetSize(KeysOf(a, network, peerId), KeysOf(b, network, peerId));
  }

  lemma FewerWithinQuotas(m: Partials, n: Partials)
    requires WithinQuotas(m) && forall k :: k in n ==> k in m && n[k] == m[k]
    ensures WithinQuotas(n)
  {
    SumSubmap(m, n, BytesOf);
    SumSubmap(m, n, PiecesOf);
    forall network, peerId
      ensures |KeysOf(n.Keys, network, peerId)| <= MAX_PENDING_TRANSACTIONS_PER_PEER
    {
      KeysOfMonotone(n.Keys, m.Keys, network, peerId);
    }
  }

  lemma ExtendedWithinQuotas(m: Partials, key: RpcKey, e: Partial)
    requires WithinQuotas(m) && WellFormed(e) && BytesIn(m[key := e]) <= MAX_PENDING_BYTES
    requires key in m ==> |e.pieces| == |m[key].pieces|
    requires key !in m ==> PiecesIn(m) + |e.pieces| <= MAX_PENDING_PIECES
    requires key !in m ==> |KeysOf(m.Keys, key.network, key.peerId)| < MAX_PENDING_TRANSACTIONS_PER_PEER
    ensures WithinQuotas(m[key := e])
  {
    hide SumBy, WellFormed, KeysOf, PeersWithinLimit;
    var m' := m[key := e];
    if key in m {
      SumReplace(m, PiecesOf, key, e);
      assert m'.Keys == m.Keys;
    } else {
      SumInsert(m, PiecesOf, key, e);
      PeerCountGrowsByOne(m.Keys, key);
      assert m'.Keys == m.Keys + {key};
    }
  }

  lemma PeerCountGrowsByOne(keys: set<RpcKey>, key: RpcKey)
    requires PeersWithinLimit(keys)
    requires |KeysOf(keys, key.network, key.peerId)| < MAX_PENDING_TRANSACTIONS_PER_PEER
    ensures PeersWithinLimit(keys + {key})
  {
    forall network, peerId
      ensures |KeysOf(keys + {key}, network, peerId)| <= MAX_PENDING_TRANSACTIONS_PER_PEER
    {
      if network == key.network && peerId == key.peerId {
        assert KeysOf(keys + {key}, network, peerId) == KeysOf(keys, network, peerId) + {key};
      } else {
        assert KeysOf(keys + {key}, network, peerId) == KeysOf(keys, network, peerId);
      }
    }
  }

  lemma ReceivedShape(e: Partial, packet: RpcPacket, now: nat)
    requires packet.pieceIdx < |e.pieces|
    requires e.first.Some? <==> |e.pieces| > 0 && e.pieces[0].Some?
    ensures var r := Received(e, packet, now); r.first.Some? <==> r.pieces[0].Some?
  {
  }

  /** Every merge keeps all three quotas, and the errors that would mean a corrupted table do not occur. */
  lemma MergeKeepsQuotas(m: Partials, network: string, peerId: u32, packet: RpcPacket, now: nat)
    requires WithinQuotas(m)
    ensures WithinQuotas(Merge(m, network, peerId, packet, now).0)
    ensures Merge(m, network, peerId, packet, now).1 != Refused(Internal)
  {
    hide WithinQuotas, AddPiece, Objection, Immediate;
    if Immediate(packet).None? {
      var kept := Fresh(m, now);
      var key := KeyOf(network, peerId, packet);
      FewerWithinQuotas(m, kept);
      FewerWithinQuotas(kept, kept - {key});
      ObjectionIsNotInternal(kept, key, packet);
      if Objection(kept, key, packet).None? {
        AddPieceKeepsQuotas(kept, key, packet, now);
      }
    } else {
      ImmediateIsNotInternal(packet);
    }
  }

  lemma ObjectionIsNotInternal(kept: Partials, key: RpcKey, packet: RpcPacket)
    ensures Objection(kept, key, packet) != Some(Internal)
  {
  }

  lemma ImmediateIsNotInternal(packet: RpcPacket)
    ensures Immediate(packet) != Some(Refused(Internal))
  {
  }

  lemma AddPieceKeepsQuotas(kept: Partials, key: RpcKey, packet: RpcPacket, now: nat)
    requires WithinQuotas(kept) && Immediate(packet).None? && Objection(kept, key, packet).None?
    ensures WithinQuotas(AddPiece(kept, key, packet, now).0)
    ensures AddPiece(kept, key, packet, now).1 != Refused(Internal)
  {
    hide WithinQuotas, SumBy, KeysOf;
    var e0 := Entry(kept, key, packet, now);
    var e := Received(e0, packet, now);
    EntriesAreWellFormed(kept);
    FewerWithinQuotas(kept, kept - {key});
    assert 2 <= |e0.pieces| <= MAX_RPC_PIECES;
    ReceivedShape(e0, packet, now);
    if !AllPresent(e.pieces) && BytesIn(kept[key := e]) <= MAX_PENDING_BYTES {
      ExtendedWithinQuotas(kept, key, e);
    }
  }

  lemma EntriesAreWellFormed(m: Partials)
    requires WithinQuotas(m)
    ensures forall k :: k in m ==> WellFormed(m[k])
  {
  }

  // ----- the program's form

  datatype PendingRpc = PendingRpc(
    totalPieces: u32,
    pieces: Pieces,
    first: Option<RpcPacket>,
    receivedPieces: nat,
    bodyBytes: nat,
    updatedAtMs: nat)
  {
    function Plain(): Partial {
      Partial(pieces, first, updatedAtMs)
    }

    ghost predicate Counted() {
      totalPieces == |pieces| && receivedPieces == Filled(pieces) && bodyBytes == TotalLen(pieces)
    }
  }

  lemma ReceivedAll(entry: PendingRpc)
    requires entry.Counted()
    ensures entry.totalPieces == |entry.pieces|
    ensures entry.receivedPieces == entry.totalPieces <==> AllPresent(entry.pieces)
  {
    FilledBound(entry.pieces);
  }

  function Plain(pending: map<RpcKey, PendingRpc>): Partials {
    map k | k in pending :: pending[k].Plain()
  }

  lemma PlainAt(pending: map<RpcKey, PendingRpc>, key: RpcKey)
    ensures key in Plain(pending) <==> key in pending
    ensures key in pending ==> Plain(pending)[key] == pending[key].Plain()
  {
  }

  class Reassembler {
    var pending: map<RpcKey, PendingRpc>
    var pendingBytes: nat
    var pendingPieces: nat

    ghost function View(): Partials
      reads this
    {
      Plain(pending)
    }

    /** The counters are exactly the sums they stand for. */
    ghost predicate Accounted()
      reads this
    {
      && (forall k :: k in pending ==> pending[k].Counted())
      && pendingBytes == BytesIn(View())
      && pendingPieces == PiecesIn(View())
    }

    ghost predicate Valid()
      reads this
    {
      Accounted() && WithinQuotas(View())
    }

    constructor ()
      ensures Valid() && View() == map[]
    {
      pending, pendingBytes, pendingPieces := map[], 0, 0;
      new;
      assert forall network, peerId :: KeysOf({}, network, peerId) == {};
      assert View() == map[];
    }

    method RemovePending(key: RpcKey)
      requires Accounted()
      modifies this
      ensures Accounted() && View() == old(View()) - {key}
    {
      hide SumBy;
      if key in pending {
        var gone := pending[key];
        SumRemove(View(), BytesOf, key);
        SumRemove(View(), PiecesOf, key);
        assert gone.bodyBytes <= pendingBytes && gone.totalPieces <= pendingPieces;
        pending := pending - {key};
        pendingBytes := SatSub(pendingBytes, gone.bodyBytes);
        pendingPieces := SatSub(pendingPieces, gone.totalPieces);
      }
      assert View() == old(View()) - {key};
    }

    method RemoveAll(keys: set<RpcKey>)
      requires Accounted()
      modifies this
      ensures Accounted() && View() == old(View()) - keys
    {
      hide Accounted, View;
      var rest := keys;
      ghost var done: set<RpcKey> := {};
      assert View() == old(View()) - done;
      while rest != {}
        invariant done == keys - rest && rest <= keys
        invariant Accounted() && View() == old(View()) - done
        decreases |rest|
      {
        var key :| key in rest;
        RemovePending(key);
        rest, done := rest - {key}, done + {key};
      }
    }

    method CleanPending(now: nat)
      requires Valid()
      modifies this
      ensures Valid() && View() == Fresh(old(View()), now)
    {
      var expired := set k | k in pending && SatSub(now, pending[k].updatedAtMs) >= RPC_FRAGMENT_TTL_MS;
      assert Fresh(View(), now) == View() - expired;
      RemoveAll(expired);
      FewerWithinQuotas(old(View()), View());
    }

    method RemovePeer(network: string, peerId: u32)
      requires Valid()
      modifies this
      ensures Valid() && View() == WithoutPeer(old(View()), network, peerId)
    {
      var keys := KeysOf(pending.Keys, network, peerId);
      assert View().Keys == pending.Keys;
      RemoveAll(keys);
      FewerWithinQuotas(old(View()), View());
    }

    method Declare(key: RpcKey, total: u32, now: nat)
      requires Accounted() && key !in pending
      modifies this
      ensures Accounted() && View() == old(View())[key := Empty(total, now)]
      ensures pending == old(pending)[key := PendingRpc(total, seq(total, i => None), None, 0, 0, now)]
    {
      hide SumBy;
      var entry := PendingRpc(total, seq(total, i => None), None, 0, 0, now);
      NothingFilled(entry.pieces);
      SumInsert(View(), BytesOf, key, entry.Plain());
      SumInsert(View(), PiecesOf, key, entry.Plain());
      pending := pending[key := entry];
      assert View() == old(View())[key := Empty(total, now)];
      pendingPieces := pendingPieces + total;
    }

    /** Stores one piece, or drops the whole transaction when it would exceed the byte limit. */
    method Store(key: RpcKey, packet: RpcPacket, now: nat) returns (stored: bool)
      requires Accounted() && key in pending && packet.pieceIdx < |pending[key].pieces|
      modifies this
      ensures Accounted()
      ensures var e := Received(old(View())[key], packet, now);
              stored == (BytesIn(old(View())[key := e]) <= MAX_PENDING_BYTES)
              && View() == if stored then old(View())[key := e] else old(View()) - {key}
      ensures stored ==> key in pending && pending[key].Counted()
      ensures stored ==> pending[key].Plain() == Received(old(View())[key], packet, now)
    {
      hide SumBy;
      var entry := pending[key];
      var previous := Len(entry.pieces[packet.pieceIdx]);
      ghost var e := Received(View()[key], packet, now);
      FillOne(entry.pieces, packet.pieceIdx, packet.body);
      SumReplace(View(), BytesOf, key, e);
      SumReplace(View(), PiecesOf, key, e);
      SumRemove(View(), BytesOf, key);
      assert previous <= entry.bodyBytes <= pendingBytes;
      var nextTotal := SatSub(pendingBytes, previous) + |packet.body|;
      if nextTotal > MAX_PENDING_BYTES {
        RemovePending(key);
        return false;
      }
      entry := entry.(receivedPieces := entry.receivedPieces + if entry.pieces[packet.pieceIdx].None? then 1 else 0,
                      bodyBytes := SatSub(entry.bodyBytes, previous) + |packet.body|);
      pendingBytes := nextTotal;
      entry := entry.(pieces := entry.pieces[packet.pieceIdx := Some(packet.body)], updatedAtMs := now);
      if packet.pieceIdx == 0 {
        entry := entry.(first := Some(packet));
      }
      pending := pending[key := entry];
      assert View() == old(View())[key := e];
      return true;
    }

    method Assemble(entry: PendingRpc) returns (merged: Merged)
      ensures merged == if entry.first.None? || !AllPresent(entry.pieces) then Refused(Internal)
                        else Complete(Whole(entry.first.value, entry.pieces))
    {
      if entry.first.None? {
        return Refused(Internal);
      }
      var body := [];
      for i := 0 to |entry.pieces|
        invariant AllPresent(entry.pieces[..i]) && body == Joined(entry.pieces[..i])
      {
        if entry.pieces[i].None? {
          return Refused(Internal);
        }
        assert entry.pieces[..i + 1][..i] == entry.pieces[..i];
        body := body + entry.pieces[i].value;
      }
      assert entry.pieces[..|entry.pieces|] == entry.pieces;
      return Complete(entry.first.value.(body := body, totalPieces := 1, pieceIdx := 0));
    }

    method MergePacket(network: string, peerId: u32, packet: RpcPacket, now: nat) returns (merged: Merged)
      requires Valid()
      modifies this
      ensures Valid()
      ensures (View(), merged) == Merge(old(View()), network, peerId, packet, now)
      ensures merged != Refused(Internal)
    {
      hide WithinQuotas, MergeKept, Fresh;
      MergeKeepsQuotas(View(), network, peerId, packet, now);
      var total := packet.totalPieces;
      if total == 0 && packet.pieceIdx == 0 {
        return Complete(packet);
      }
      if total == 0 || total > MAX_RPC_PIECES || packet.pieceIdx >= total {
        return Refused(BadEnvelope);
      }
      if total == 1 {
        return Complete(packet);
      }
      if packet.pieceIdx == 0 && packet.descriptor.None? {
        return Refused(NoDescriptor);
      }
      CleanPending(now);
      merged := MergeFresh(RpcKey(network, peerId, packet.transactionId, packet.isRequest), packet, now);
    }

    /** The merge once stale transactions are gone. */
    method MergeFresh(key: RpcKey, packet: RpcPacket, now: nat) returns (merged: Merged)
      requires Accounted() && Immediate(packet).None?
      modifies this
      ensures Accounted()
      ensures (View(), merged) == MergeKept(old(View()), key, packet, now)
    {
      hide SumBy, KeysOf, AddPiece;
      ghost var kept := View();
      assert kept.Keys == pending.Keys;
      if key in pending {
        if pending[key].totalPieces != packet.totalPieces {
          RemovePending(key);
          return Refused(PieceCountChanged);
        }
      } else {
        if |KeysOf(pending.Keys, key.network, key.peerId)| >= MAX_PENDING_TRANSACTIONS_PER_PEER {
          return Refused(TooManyTransactions);
        }
        if pendingPieces + packet.totalPieces > MAX_PENDING_PIECES {
          return Refused(TooManyPieces);
        }
        Declare(key, packet.totalPieces, now);
      }
      assert View() == kept[key := Entry(kept, key, packet, now)];
      merged := Deposit(kept, key, packet, now);
    }

    /** Hands the message out once every piece is there. */
    method Finish(key: RpcKey, entry: PendingRpc, total: u32) returns (merged: Merged)
      requires Accounted() && entry.Counted() && |entry.pieces| == total
      modifies this
      ensures Accounted()
      ensures View() == if AllPresent(entry.pieces) then old(View()) - {key} else old(View())
      ensures merged == if !AllPresent(entry.pieces) then Pending
                        else if entry.first.None? then Refused(Internal)
                        else Complete(Whole(entry.first.value, entry.pieces))
    {
      ReceivedAll(entry);
      if entry.receivedPieces != total {
        return Pending;
      }
      RemovePending(key);
      merged := Assemble(entry);
    }

    method Deposit(ghost kept: Partials, key: RpcKey, packet: RpcPacket, now: nat) returns (merged: Merged)
      requires Accounted() && Immediate(packet).None? && Objection(kept, key, packet).None?
      requires View() == kept[key := Entry(kept, key, packet, now)]
      modifies this
      ensures Accounted()
      ensures (View(), merged) == AddPiece(kept, key, packet, now)
    {
      ghost var e := Received(Entry(kept, key, packet, now), packet, now);
      assert |e.pieces| == packet.totalPieces && packet.pieceIdx < |Entry(kept, key, packet, now).pieces|;
      PlainAt(pending, key);
      hide SumBy, KeysOf, Received, Objection, Immediate, Entry, AllPresent, PendingRpc.Counted, BytesIn, Whole;
      assert View()[key := e] == kept[key := e] && View() - {key} == kept - {key};
      assert kept[key := e] - {key} == kept - {key};
      var stored := Store(key, packet, now);
      if !stored {
        return Refused(TooManyBytes);
      }
      var entry := pending[key];
      merged := Finish(key, entry, packet.totalPieces);
    }

  }
}
