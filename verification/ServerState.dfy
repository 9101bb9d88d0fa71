/** The bookkeeping of the connection server as a value: which connections exist and in which phase,
    what the admission counters count, and what the registries may refer to. */
module ServerState {
  import opened Words
  import opened Sums
  import opened Rooms

  const MAX_CONNECTIONS: nat := 2_048
  const MAX_PENDING_HANDSHAKES: nat := 256

  datatype Phase = Msg1 | Msg3 | Ready | Closed

  datatype Conn = Conn(phase: Phase, network: string, peerId: u32, clientIp: string)

  /** Every connection ever accepted, by identity. */
  type Conns = map<ConnId, Conn>

  datatype RouteKey = RouteKey(network: string, peerId: u32)

  function KeyOf(c: Conn): RouteKey {
    RouteKey(c.network, c.peerId)
  }

  function Live(conns: Conns): set<ConnId> {
    set c | c in conns && conns[c].phase != Closed
  }

  /** Connections still in their handshake. */
  function Pending(conns: Conns): set<ConnId> {
    set c | c in conns && (conns[c].phase == Msg1 || conns[c].phase == Msg3)
  }

  function FromIp(conns: Conns, ids: set<ConnId>, ip: string): set<ConnId> {
    set c | c in ids && c in conns && conns[c].clientIp == ip
  }

  /** The admission counters count exactly `ids`, and an address is listed exactly when it counts someone. */
  ghost predicate Count(conns: Conns, ids: set<ConnId>, total: nat, byIp: map<string, nat>) {
    && total == |ids|
    && (forall ip :: ip in byIp <==> FromIp(conns, ids, ip) != {})
    && (forall ip :: ip in byIp ==> byIp[ip] == |FromIp(conns, ids, ip)|)
  }

  ghost predicate Limited(conns: Conns, maxPerIp: nat) {
    && |Live(conns)| <= MAX_CONNECTIONS
    && |Pending(conns)| <= MAX_PENDING_HANDSHAKES
    && forall ip :: |FromIp(conns, Pending(conns), ip)| <= maxPerIp
  }

  /** Room entries are ready connections under their own name, save that `joining` may be entered while
      still in its handshake; ready connections are room entries, save `leaving`. */
  ghost predicate Registered(conns: Conns, rooms: Rooms, joining: set<ConnId>, leaving: set<ConnId>) {
    && NoEmptyRoom(rooms)
    && (forall n, p :: Lookup(rooms, n, p).Some? ==>
          var c := Lookup(rooms, n, p).value;
          && c in conns && conns[c].network == n && conns[c].peerId == p
          && (if c in joining then c in Pending(conns) else conns[c].phase == Ready))
    && (forall c :: c in joining ==> c in Pending(conns) && Lookup(rooms, conns[c].network, conns[c].peerId) == Some(c))
    && (forall c :: c in conns && conns[c].phase == Ready && c !in leaving ==>
          Lookup(rooms, conns[c].network, conns[c].peerId) == Some(c))
  }

  /** Route-sync states refer to ready connections under their own key. */
  predicate SyncsReady(conns: Conns, sync: map<RouteKey, ConnId>) {
    forall k :: k in sync ==> sync[k] in conns && conns[sync[k]].phase == Ready && KeyOf(conns[sync[k]]) == k
  }

  /** From `a` to `b` ready connections, and those of `extra`, may have closed; nothing else changed. */
  predicate OnlyCloses(a: Conns, b: Conns, extra: set<ConnId>) {
    && b.Keys == a.Keys
    && forall c :: c in a ==> b[c] == a[c] || ((a[c].phase == Ready || c in extra) && b[c] == a[c].(phase := Closed))
  }

  /** Closing connections keeps every limit. */
  lemma ClosingKeepsLimits(a: Conns, b: Conns, extra: set<ConnId>, maxPerIp: nat)
    requires OnlyCloses(a, b, extra) && Limited(a, maxPerIp)
    ensures Limited(b, maxPerIp)
  {
    SubsetSize(Live(b), Live(a));
    SubsetSize(Pending(b), Pending(a));
    forall ip
      ensures |FromIp(b, Pending(b), ip)| <= maxPerIp
    {
      SubsetSize(FromIp(b, Pending(b), ip), FromIp(a, Pending(a), ip));
    }
  }

  // ----- counters

  lemma FromIpWithout(conns: Conns, ids: set<ConnId>, c: ConnId, ip: string)
    requires c !in ids && c in conns
    ensures FromIp(conns, ids + {c}, ip) == if conns[c].clientIp == ip then FromIp(conns, ids, ip) + {c}
        else FromIp(conns, ids, ip)
  {
  }

  /** What giving back one handshake slot does to the counters. */
  function Released(byIp: map<string, nat>, ip: string): map<string, nat> {
    if ip in byIp && byIp[ip] > 1 then byIp[ip := byIp[ip] - 1] else byIp - {ip}
  }

  lemma ReleaseCounts(conns: Conns, ids: set<ConnId>, c: ConnId, total: nat, byIp: map<string, nat>)
    requires c in conns && c !in ids && Count(conns, ids + {c}, total, byIp)
    ensures total > 0 && conns[c].clientIp in byIp && byIp[conns[c].clientIp] > 0
    ensures Count(conns, ids, total - 1, Released(byIp, conns[c].clientIp))
  {
    var mine := conns[c].clientIp;
    assert |ids + {c}| == |ids| + 1;
    FromIpWithout(conns, ids, c, mine);
    assert |FromIp(conns, ids, mine) + {c}| == |FromIp(conns, ids, mine)| + 1;
    var byIp' := Released(byIp, mine);
    forall ip
      ensures ip in byIp' <==> FromIp(conns, ids, ip) != {}
      ensures ip in byIp' ==> byIp'[ip] == |FromIp(conns, ids, ip)|
    {
      FromIpWithout(conns, ids, c, ip);
    }
  }

  lemma AdmitCounts(conns: Conns, ids: set<ConnId>, c: ConnId, conn: Conn, total: nat, byIp: map<string, nat>)
    requires c !in conns && ids <= conns.Keys && Count(conns, ids, total, byIp)
    ensures var ip := conn.clientIp;
            Count(conns[c := conn], ids + {c}, total + 1, byIp[ip := (if ip in byIp then byIp[ip] else 0) + 1])
  {
    var conns' := conns[c := conn];
    CountIgnoresPhases(conns, conns', ids, total, byIp);
    hide Count;
    AddCounts(conns', ids, c, total, byIp);
  }

  lemma AddCounts(conns: Conns, ids: set<ConnId>, c: ConnId, total: nat, byIp: map<string, nat>)
    requires c in conns && c !in ids && Count(conns, ids, total, byIp)
    ensures var ip := conns[c].clientIp;
            Count(conns, ids + {c}, total + 1, byIp[ip := (if ip in byIp then byIp[ip] else 0) + 1])
  {
    var mine := conns[c].clientIp;
    var byIp' := byIp[mine := (if mine in byIp then byIp[mine] else 0) + 1];
    assert |ids + {c}| == |ids| + 1;
    assert |FromIp(conns, ids, mine) + {c}| == |FromIp(conns, ids, mine)| + 1;
    forall ip
      ensures FromIp(conns, ids + {c}, ip) == if mine == ip then FromIp(conns, ids, ip) + {c}
          else FromIp(conns, ids, ip)
    {
      FromIpWithout(conns, ids, c, ip);
    }
    hide FromIp;
    forall ip
      ensures ip in byIp' <==> FromIp(conns, ids + {c}, ip) != {}
      ensures ip in byIp' ==> byIp'[ip] == |FromIp(conns, ids + {c}, ip)|
    {
    }
  }

  /** The counters do not depend on phases. */
  lemma CountIgnoresPhases(a: Conns, b: Conns, ids: set<ConnId>, total: nat, byIp: map<string, nat>)
    requires Count(a, ids, total, byIp) && a.Keys <= b.Keys && ids <= a.Keys
    requires forall c :: c in a ==> b[c].clientIp == a[c].clientIp
    ensures Count(b, ids, total, byIp)
  {
    forall ip
      ensures FromIp(b, ids, ip) == FromIp(a, ids, ip)
    {
    }
  }

  // ----- registries

  /** At most one ready connection per network and peer. */
  lemma OneReadyPerPeer(conns: Conns, rooms: Rooms, c: ConnId, d: ConnId)
    requires Registered(conns, rooms, {}, {}) && c in conns && d in conns
    requires conns[c].phase == Ready && conns[d].phase == Ready && KeyOf(conns[c]) == KeyOf(conns[d])
    ensures c == d
  {
  }

  /** Closing a connection and dropping its room entry. */
  lemma CloseKeepsRegistered(conns: Conns, rooms: Rooms, c: ConnId, joining: set<ConnId>, leaving: set<ConnId>)
    requires Registered(conns, rooms, joining, leaving) && c in conns && leaving <= {c}
    ensures var conn := conns[c];
            Registered(conns[c := conn.(phase := Closed)], Dropped(rooms, conn.network, conn.peerId, c), joining - {c},
                       {})
  {
    var conn := conns[c];
    var conns' := conns[c := conn.(phase := Closed)];
    var rooms' := Dropped(rooms, conn.network, conn.peerId, c);
    DroppedKeepsRooms(rooms, conn.network, conn.peerId, c);
    forall n, p
      ensures Lookup(rooms', n, p)
           == if n == conn.network && p == conn.peerId && Lookup(rooms, n, p) == Some(c) then None
              else Lookup(rooms, n, p)
    {
      DroppedLookup(rooms, conn.network, conn.peerId, c, n, p);
    }
    hide Dropped, Lookup, NoEmptyRoom;
    forall n, p | Lookup(rooms', n, p).Some?
      ensures var d := Lookup(rooms', n, p).value;
              && d in conns' && conns'[d].network == n && conns'[d].peerId == p
              && (if d in joining - {c} then d in Pending(conns') else conns'[d].phase == Ready)
    {
      var d := Lookup(rooms', n, p).value;
      assert Lookup(rooms, n, p) == Some(d);
      assert d != c;
    }
  }

  /** Entering a connection that has just finished its handshake over whoever held its place. */
  lemma EnterKeepsRegistered(conns: Conns, rooms: Rooms, c: ConnId)
    requires Registered(conns, rooms, {}, {}) && c in Pending(conns)
    ensures var conn := conns[c];
            var previous := Lookup(rooms, conn.network, conn.peerId);
            && (previous.Some? ==> previous.value != c)
            && Registered(conns, Placed(rooms, conn.network, conn.peerId, c), {c},
                          if previous.Some? then {previous.value} else {})
  {
    var conn := conns[c];
    var rooms' := Placed(rooms, conn.network, conn.peerId, c);
    PlacedKeepsRooms(rooms, conn.network, conn.peerId, c);
    forall n, p
      ensures Lookup(rooms', n, p) == if n == conn.network && p == conn.peerId then Some(c) else Lookup(rooms, n, p)
    {
      PlacedLookup(rooms, conn.network, conn.peerId, c, n, p);
    }
    hide Placed, Lookup, NoEmptyRoom;
    assert conns[c].phase != Ready;
  }

  /** The entered connection turns ready. */
  lemma ReadyKeepsRegistered(conns: Conns, rooms: Rooms, c: ConnId)
    requires Registered(conns, rooms, {c}, {}) && c in conns
             && Lookup(rooms, conns[c].network, conns[c].peerId) == Some(c)
    ensures Registered(conns[c := conns[c].(phase := Ready)], rooms, {}, {})
  {
    hide NoEmptyRoom, Lookup;
    var conns' := conns[c := conns[c].(phase := Ready)];
    forall n, p | Lookup(rooms, n, p).Some?
      ensures var d := Lookup(rooms, n, p).value;
              d in conns' && conns'[d].network == n && conns'[d].peerId == p && conns'[d].phase == Ready
    {
      var d := Lookup(rooms, n, p).value;
      if d != c {
        assert conns[d].phase == Ready;
      }
    }
  }

  /** Changing a connection that is still in its handshake and in no room. */
  lemma NewNameKeepsRegistered(conns: Conns, rooms: Rooms, c: ConnId, conn: Conn)
    requires Registered(conns, rooms, {}, {}) && (c in conns ==> c in Pending(conns))
    requires conn.phase == Msg1 || conn.phase == Msg3
    ensures Registered(conns[c := conn], rooms, {}, {})
  {
    hide NoEmptyRoom, Lookup;
  }

  // ----- all the books together

  datatype Books = Books(
    conns: Conns,
    connections: set<ConnId>,
    rooms: Rooms,
    sync: map<RouteKey, ConnId>,
    pending: nat,
    pendingByIp: map<string, nat>,
    nextId: ConnId)

  /** The books are right, up to one connection entering its room and one leaving it. */
  ghost predicate Right(b: Books, maxPerIp: nat, joining: set<ConnId>, leaving: set<ConnId>) {
    && b.connections == Live(b.conns)
    && Count(b.conns, Pending(b.conns), b.pending, b.pendingByIp)
    && Limited(b.conns, maxPerIp)
    && Registered(b.conns, b.rooms, joining, leaving)
    && SyncsReady(b.conns, b.sync)
    && (forall c :: c in b.conns ==> c < b.nextId)
  }

  lemma EmptyIsRight(maxPerIp: nat)
    ensures Right(Books(map[], {}, map[], map[], 0, map[], 0), maxPerIp, {}, {})
  {
    var none: Conns := map[];
    assert forall ip :: FromIp(none, {}, ip) == {};
    assert Pending(none) == {} && Live(none) == {};
  }

  predicate HasRoomFor(b: Books, ip: string, maxPerIp: nat) {
    && |b.connections| < MAX_CONNECTIONS
    && b.pending < MAX_PENDING_HANDSHAKES
    && (if ip in b.pendingByIp then b.pendingByIp[ip] else 0) < maxPerIp
  }

  function Admitted(b: Books, ip: string): Books {
    b.(conns := b.conns[b.nextId := Conn(Msg1, "", 0, ip)],
       connections := b.connections + {b.nextId},
       pending := b.pending + 1,
       pendingByIp := b.pendingByIp[ip := (if ip in b.pendingByIp then b.pendingByIp[ip] else 0) + 1],
       nextId := b.nextId + 1)
  }

  /** The three admission tests read off the counters what they are meant to test. */
  lemma RoomIsReal(b: Books, ip: string, maxPerIp: nat)
    requires Right(b, maxPerIp, {}, {})
    ensures HasRoomFor(b, ip, maxPerIp) <==>
            && |Live(b.conns)| < MAX_CONNECTIONS
            && |Pending(b.conns)| < MAX_PENDING_HANDSHAKES
            && |FromIp(b.conns, Pending(b.conns), ip)| < maxPerIp
  {
    hide Limited, Registered, SyncsReady, Live, Pending;
    if ip !in b.pendingByIp {
      assert FromIp(b.conns, Pending(b.conns), ip) == {};
    }
  }

  lemma AdmitSets(conns: Conns, id: ConnId, conn: Conn)
    requires id !in conns && conn.phase == Msg1
    ensures Live(conns[id := conn]) == Live(conns) + {id}
    ensures Pending(conns[id := conn]) == Pending(conns) + {id}
  {
  }

  lemma AdmitSyncs(conns: Conns, id: ConnId, conn: Conn, sync: map<RouteKey, ConnId>)
    requires id !in conns && SyncsReady(conns, sync)
    ensures SyncsReady(conns[id := conn], sync)
  {
  }

  lemma PendingExist(conns: Conns)
    ensures Pending(conns) <= conns.Keys
  {
  }

  lemma AdmitLimits(conns: Conns, id: ConnId, conn: Conn, maxPerIp: nat)
    requires id !in conns && conn.phase == Msg1 && Limited(conns, maxPerIp)
    requires |Live(conns)| < MAX_CONNECTIONS && |Pending(conns)| < MAX_PENDING_HANDSHAKES
    requires |FromIp(conns, Pending(conns), conn.clientIp)| < maxPerIp
    ensures Limited(conns[id := conn], maxPerIp)
  {
    var conns' := conns[id := conn];
    AdmitSets(conns, id, conn);
    assert Pending(conns) <= conns.Keys;
    hide Live, Pending;
    forall ip
      ensures |FromIp(conns', Pending(conns'), ip)| <= maxPerIp
    {
      FromIpWithout(conns', Pending(conns), id, ip);
      assert FromIp(conns', Pending(conns), ip) == FromIp(conns, Pending(conns), ip);
    }
  }

  lemma AdmitIsRight(b: Books, ip: string, maxPerIp: nat)
    requires Right(b, maxPerIp, {}, {}) && HasRoomFor(b, ip, maxPerIp)
    ensures b.nextId !in b.conns && Right(Admitted(b, ip), maxPerIp, {}, {})
  {
    hide Count, Limited, Registered, Live, Pending, SyncsReady, FromIp;
    var id, conn := b.nextId, Conn(Msg1, "", 0, ip);
    RoomIsReal(b, ip, maxPerIp);
    AdmitSets(b.conns, id, conn);
    PendingExist(b.conns);
    AdmitSyncs(b.conns, id, conn, b.sync);
    AdmitLimits(b.conns, id, conn, maxPerIp);
    AdmitCounts(b.conns, Pending(b.conns), id, conn, b.pending, b.pendingByIp);
    NewNameKeepsRegistered(b.conns, b.rooms, id, conn);
  }

  /** Closing one connection, as far as its own books go. */
  function ClosedOne(b: Books, c: ConnId): Books
    requires c in b.conns
  {
    var conn := b.conns[c];
    var ready := conn.phase == Ready;
    b.(conns := b.conns[c := conn.(phase := Closed)],
       connections := b.connections - {c},
       pending := if ready || b.pending == 0 then b.pending else b.pending - 1,
       pendingByIp := if ready then b.pendingByIp else Released(b.pendingByIp, conn.clientIp),
       rooms := Dropped(b.rooms, conn.network, conn.peerId, c),
       sync := if ready then b.sync - {KeyOf(conn)} else b.sync)
  }

  lemma CloseSets(conns: Conns, c: ConnId)
    requires c in conns
    ensures var conns' := conns[c := conns[c].(phase := Closed)];
            Live(conns') == Live(conns) - {c} && Pending(conns') == Pending(conns) - {c}
                && OnlyCloses(conns, conns', {c})
  {
  }

  lemma CloseCounts(conns: Conns, c: ConnId, total: nat, byIp: map<string, nat>)
    requires c in conns && conns[c].phase != Closed && Count(conns, Pending(conns), total, byIp)
    ensures var conns' := conns[c := conns[c].(phase := Closed)];
            if conns[c].phase == Ready then Count(conns', Pending(conns'), total, byIp)
            else total > 0 && Count(conns', Pending(conns'), total - 1, Released(byIp, conns[c].clientIp))
  {
    var conns' := conns[c := conns[c].(phase := Closed)];
    CloseSets(conns, c);
    assert Pending(conns) <= conns.Keys;
    CountIgnoresPhases(conns, conns', Pending(conns), total, byIp);
    if conns[c].phase == Ready {
      assert Pending(conns') == Pending(conns);
    } else {
      assert Pending(conns') + {c} == Pending(conns);
      hide Count, Pending;
      ReleaseCounts(conns', Pending(conns'), c, total, byIp);
    }
  }

  lemma CloseSyncs(conns: Conns, c: ConnId, sync: map<RouteKey, ConnId>)
    requires c in conns && SyncsReady(conns, sync)
    ensures SyncsReady(conns[c := conns[c].(phase := Closed)],
                       if conns[c].phase == Ready then sync - {KeyOf(conns[c])} else sync)
  {
  }

  lemma CloseIsRight(b: Books, maxPerIp: nat, c: ConnId, joining: set<ConnId>, leaving: set<ConnId>)
    requires Right(b, maxPerIp, joining, leaving) && c in b.conns && b.conns[c].phase != Closed && leaving <= {c}
    ensures Right(ClosedOne(b, c), maxPerIp, joining - {c}, {})
    ensures c in b.connections && OnlyCloses(b.conns, ClosedOne(b, c).conns, {c})
  {
    assert c in Live(b.conns);
    CloseSets(b.conns, c);
    hide Count, Limited, Registered, Live, Pending, SyncsReady;
    CloseCounts(b.conns, c, b.pending, b.pendingByIp);
    CloseSyncs(b.conns, c, b.sync);
    CloseKeepsRegistered(b.conns, b.rooms, c, joining, leaving);
    ClosingKeepsLimits(b.conns, ClosedOne(b, c).conns, {c}, maxPerIp);
  }

  lemma SyncIsRight(b: Books, maxPerIp: nat, c: ConnId, joining: set<ConnId>, leaving: set<ConnId>)
    requires Right(b, maxPerIp, joining, leaving) && c in b.conns && b.conns[c].phase == Ready
    ensures Right(b.(sync := b.sync[KeyOf(b.conns[c]) := c]), maxPerIp, joining, leaving)
  {
    hide Count, Limited, Registered, Live, Pending;
  }

  lemma UnsyncIsRight(b: Books, maxPerIp: nat, k: RouteKey, joining: set<ConnId>, leaving: set<ConnId>)
    requires Right(b, maxPerIp, joining, leaving)
    ensures Right(b.(sync := b.sync - {k}), maxPerIp, joining, leaving)
  {
    hide Count, Limited, Registered, Live, Pending;
  }

  /** A handshake message names the connection and moves it on. */
  lemma NameIsRight(b: Books, maxPerIp: nat, c: ConnId, conn: Conn)
    requires Right(b, maxPerIp, {}, {}) && c in Pending(b.conns)
    requires (conn.phase == Msg1 || conn.phase == Msg3) && conn.clientIp == b.conns[c].clientIp
    ensures Right(b.(conns := b.conns[c := conn]), maxPerIp, {}, {})
  {
    var conns' := b.conns[c := conn];
    assert Live(conns') == Live(b.conns) && Pending(conns') == Pending(b.conns);
    assert SyncsReady(conns', b.sync);
    assert Pending(b.conns) <= b.conns.Keys;
    NewNameKeepsRegistered(b.conns, b.rooms, c, conn);
    CountIgnoresPhases(b.conns, conns', Pending(b.conns), b.pending, b.pendingByIp);
    hide Count, Registered, SyncsReady;
    assert forall ip :: FromIp(conns', Pending(b.conns), ip) == FromIp(b.conns, Pending(b.conns), ip);
  }

  lemma EnterIsRight(b: Books, maxPerIp: nat, c: ConnId)
    requires Right(b, maxPerIp, {}, {}) && c in Pending(b.conns)
    ensures var conn := b.conns[c];
            var previous := Lookup(b.rooms, conn.network, conn.peerId);
            && (previous.Some? ==>
                previous.value != c && previous.value in b.conns && b.conns[previous.value].phase == Ready)
            && Right(b.(rooms := Placed(b.rooms, conn.network, conn.peerId, c)), maxPerIp, {c},
                     if previous.Some? then {previous.value} else {})
  {
    EnterKeepsRegistered(b.conns, b.rooms, c);
    hide Count, Limited, SyncsReady, Live;
  }

  /** The entered connection turns ready and gives its slot back. */
  function MadeReady(b: Books, c: ConnId): Books
    requires c in b.conns
  {
    b.(conns := b.conns[c := b.conns[c].(phase := Ready)],
       pending := if b.pending == 0 then 0 else b.pending - 1,
       pendingByIp := Released(b.pendingByIp, b.conns[c].clientIp))
  }

  lemma ReadyIsRight(b: Books, maxPerIp: nat, c: ConnId)
    requires Right(b, maxPerIp, {c}, {}) && c in Pending(b.conns)
    requires Lookup(b.rooms, b.conns[c].network, b.conns[c].peerId) == Some(c)
    ensures Right(MadeReady(b, c), maxPerIp, {}, {})
  {
    hide Count, Registered, SyncsReady, Live, Pending, Limited;
    PendingExist(b.conns);
    var conns' := b.conns[c := b.conns[c].(phase := Ready)];
    ReadySets(b.conns, c, b.sync);
    ReadyKeepsRegistered(b.conns, b.rooms, c);
    CountIgnoresPhases(b.conns, conns', Pending(b.conns), b.pending, b.pendingByIp);
    ReleaseCounts(conns', Pending(conns'), c, b.pending, b.pendingByIp);
    ReadyLimits(b.conns, c, maxPerIp);
  }

  lemma ReadySets(conns: Conns, c: ConnId, sync: map<RouteKey, ConnId>)
    requires c in Pending(conns)
    ensures var conns' := conns[c := conns[c].(phase := Ready)];
            && Live(conns') == Live(conns)
            && c !in Pending(conns') && Pending(conns') + {c} == Pending(conns)
            && (SyncsReady(conns, sync) ==> SyncsReady(conns', sync))
  {
  }

  lemma ReadyLimits(conns: Conns, c: ConnId, maxPerIp: nat)
    requires c in Pending(conns) && Limited(conns, maxPerIp)
    ensures Limited(conns[c := conns[c].(phase := Ready)], maxPerIp)
  {
    var conns' := conns[c := conns[c].(phase := Ready)];
    assert Live(conns') == Live(conns);
    SubsetSize(Pending(conns'), Pending(conns));
    forall ip
      ensures |FromIp(conns', Pending(conns'), ip)| <= maxPerIp
    {
      SubsetSize(FromIp(conns', Pending(conns'), ip), FromIp(conns, Pending(conns), ip));
    }
  }

  lemma MembersExist(b: Books, maxPerIp: nat, joining: set<ConnId>, network: string, members: seq<ConnId>)
    requires Right(b, maxPerIp, joining, {})
    requires forall c :: c in members <==> exists p :: Lookup(b.rooms, network, p) == Some(c)
    ensures forall c :: c in members ==> c in b.conns
  {
    forall c | c in members
      ensures c in b.conns
    {
      var p :| Lookup(b.rooms, network, p) == Some(c);
    }
  }

  /** Every ready connection of the network is among its members. */
  lemma ReadyAreMembers(b: Books, maxPerIp: nat, joining: set<ConnId>, network: string, members: seq<ConnId>)
    requires Right(b, maxPerIp, joining, {})
    requires forall c :: c in members <==> exists p :: Lookup(b.rooms, network, p) == Some(c)
    ensures forall c :: c in b.conns && b.conns[c].phase == Ready && b.conns[c].network == network ==> c in members
  {
    forall c | c in b.conns && b.conns[c].phase == Ready && b.conns[c].network == network
      ensures c in members
    {
      assert Lookup(b.rooms, network, b.conns[c].peerId) == Some(c);
    }
  }

  lemma ReadyIsFound(b: Books, maxPerIp: nat, joining: set<ConnId>, c: ConnId)
    requires Right(b, maxPerIp, joining, {})
    ensures c in b.conns && b.conns[c].phase == Ready ==>
            Lookup(b.rooms, b.conns[c].network, b.conns[c].peerId) == Some(c)
  {
  }

  /** The limits, in numbers. */
  lemma LimitsHold(b: Books, maxPerIp: nat, joining: set<ConnId>, leaving: set<ConnId>)
    requires Right(b, maxPerIp, joining, leaving)
    ensures |Live(b.conns)| <= 2_048 && |Pending(b.conns)| <= 256
    ensures forall ip :: |FromIp(b.conns, Pending(b.conns), ip)| <= maxPerIp
    ensures b.pending == |Pending(b.conns)|
    ensures forall ip :: ip in b.pendingByIp <==> FromIp(b.conns, Pending(b.conns), ip) != {}
    ensures forall ip :: ip in b.pendingByIp ==> b.pendingByIp[ip] == |FromIp(b.conns, Pending(b.conns), ip)|
  {
  }

  lemma NamedIsReady(b: Books, maxPerIp: nat, network: string, peerId: u32)
    requires Right(b, maxPerIp, {}, {})
    ensures forall d: ConnId :: Lookup(b.rooms, network, peerId) == Some(d) <==> ReadyAs(b.conns, network, peerId, d)
  {
  }

  /** This is the ready connection of that name. */
  predicate ReadyAs(conns: Conns, network: string, peerId: u32, c: ConnId) {
    c in conns && conns[c].phase == Ready && conns[c].network == network && conns[c].peerId == peerId
  }

  lemma ReadyIsNotJoining(b: Books, maxPerIp: nat, joining: set<ConnId>, network: string, c: ConnId)
    requires Right(b, maxPerIp, joining, {}) && c in b.conns && b.conns[c].phase == Ready
    requires Lookup(b.rooms, network, b.conns[c].peerId) == Some(c)
    ensures joining - {c} == joining
  {
  }

  /** Between events, whoever is found under a name is ready and bears it, and whoever is ready is found. */
  lemma LookupIsReady(b: Books, maxPerIp: nat, network: string, peerId: u32, c: ConnId)
    requires Right(b, maxPerIp, {}, {})
    ensures Lookup(b.rooms, network, peerId) == Some(c)
       <==> c in b.conns && b.conns[c].phase == Ready && b.conns[c].network == network && b.conns[c].peerId == peerId
  {
  }
}
