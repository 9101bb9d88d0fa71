/** What every operation of the route table keeps: the caches describe the current topology, rows
    belong to their owners, the relay's row is the member set, and sweeps remove exactly the silent. */
module RouteInvariants {
  import opened Words
  import opened ConnBitmap
  import opened Ordered
  import opened RouteTable

  datatype Event =
    | Join(pid: PeerId, now: nat)
    | Leave(pid: PeerId)
    | SweepAt(now: nat)
    | Sync(from: PeerId, req: SyncRequest, now: nat)
    | Send(target: PeerId, sid: u64, forceFull: bool, now: nat)
    | Response(peer: PeerId, sid: u64, weAreInitiator: bool, u: Update, now: nat)
    | MyInfo(details: int)

  function Apply(g: Group, me: PeerId, ev: Event): Group {
    match ev
    case Join(pid, now) => AddPeer(g, me, pid, now)
    case Leave(pid) => RemovePeer(g, me, pid)
    case SweepAt(now) => Sweep(g, me, now).g
    case Sync(from, req, now) => Handle(g, me, from, req, now).0
    case Send(target, sid, forceFull, now) => Build(g, me, target, sid, forceFull, now).0
    case Response(peer, sid, weAreInitiator, u, now) => Acknowledge(g, peer, sid, weAreInitiator, u, now)
    case MyInfo(details) => ChangeMyInfo(g, details)
  }

  function Run(g: Group, me: PeerId, evs: seq<Event>): Group {
    if evs == [] then g else Apply(Run(g, me, evs[..|evs| - 1]), me, evs[|evs| - 1])
  }

  // ----- what a topology is

  /** The whole topology: one row for every peer the table knows of, in ascending order. */
  function Topology(g: Group, me: PeerId): seq<PeerRow> {
    RowsFor(g, Sorted(Known(g, me)))
  }

  /** Each cached encoding tagged with the current version is the one rebuilt from scratch. */
  predicate Coherent(g: Group, me: PeerId) {
    && (g.cachedList.Some? && g.cachedList.value.0 == g.topologyVersion ==> g.cachedList.value.1 == Topology(g, me))
    && (g.cachedBitmap.Some? && g.cachedBitmap.value.0 == g.topologyVersion ==>
        g.cachedBitmap.value.1 == MatrixOf(Topology(g, me)))
  }

  /** The relay is not its own peer, and its row is the member set. */
  predicate OwnRow(g: Group, me: PeerId) {
    me !in g.peers && me !in g.infos && RowOf(g, me).connected == g.peers
  }

  /** Besides, rows belong to peers the table has. */
  predicate Structured(g: Group, me: PeerId) {
    OwnRow(g, me) && g.rows.Keys <= g.peers + g.infos.Keys + {me}
  }

  /** Nothing of the topology changed, or its version moved on and both caches are gone. */
  predicate Accounted(g: Group, g': Group, me: PeerId) {
    || (g'.topologyVersion == g.topologyVersion && Topology(g', me) == Topology(g, me)
        && g'.cachedList == g.cachedList && g'.cachedBitmap == g.cachedBitmap)
    || (g'.topologyVersion > g.topologyVersion && g'.cachedList.None? && g'.cachedBitmap.None?)
  }

  lemma SameRowsSameTopology(g: Group, g': Group, me: PeerId)
    requires Known(g', me) == Known(g, me) && forall pid :: pid in Known(g, me) ==> RowOf(g', pid) == RowOf(g, pid)
    ensures Topology(g', me) == Topology(g, me)
  {
    var ids := Sorted(Known(g, me));
    SortedIsSorted(Known(g, me));
    assert forall i :: 0 <= i < |ids| ==> ids[i] in Known(g, me);
  }

  /** A topology determines which peers it has a row for, and the rows. */
  lemma TopologyDetermines(g: Group, g': Group, me: PeerId)
    requires Topology(g', me) == Topology(g, me)
    ensures Known(g', me) == Known(g, me) && forall pid :: pid in Known(g, me) ==> RowOf(g', pid) == RowOf(g, pid)
  {
    var x, y := Sorted(Known(g, me)), Sorted(Known(g', me));
    var t := Topology(g, me);
    assert t == RowsFor(g, x) && t == RowsFor(g', y);
    SortedIsSorted(Known(g, me));
    SortedIsSorted(Known(g', me));
    hide Known, Sorted, Topology;
    assert |x| == |t| && |y| == |t|;
    forall i | 0 <= i < |x|
      ensures x[i] == y[i] && RowOf(g', x[i]) == RowOf(g, x[i])
    {
      assert t[i] == RowsFor(g, x)[i] && t[i] == RowsFor(g', y)[i];
    }
    assert x == y;
    forall pid
      ensures pid in Known(g', me) <==> pid in Known(g, me)
    {
      assert pid in x <==> pid in y;
    }
    forall pid | pid in Known(g, me)
      ensures RowOf(g', pid) == RowOf(g, pid)
    {
      assert pid in x;
    }
  }

  lemma AccountedKeepsCoherent(g: Group, g': Group, me: PeerId)
    requires Coherent(g, me) && Accounted(g, g', me)
    ensures Coherent(g', me)
  {
  }

  lemma AccountedTrans(a: Group, b: Group, c: Group, me: PeerId)
    requires Accounted(a, b, me) && Accounted(b, c, me)
    ensures Accounted(a, c, me)
  {
  }

  // ----- every mutator accounts for what it changes

  lemma JoinAccounts(g: Group, me: PeerId, pid: PeerId, now: nat)
    requires Structured(g, me) && pid != me && g.topologyVersion < U64_MAX
    ensures Structured(AddPeer(g, me, pid, now), me)
    ensures Accounted(g, AddPeer(g, me, pid, now), me)
    ensures AddPeer(g, me, pid, now).topologyVersion == g.topologyVersion <==>
            Topology(AddPeer(g, me, pid, now), me) == Topology(g, me)
    ensures RowOf(AddPeer(g, me, pid, now), me).version
         == if AddPeer(g, me, pid, now).peers == g.peers then RowOf(g, me).version else WrapInc32(RowOf(g, me).version)
  {
    hide Topology;
    if pid in g.peers {
      SameRowsSameTopology(g, AddPeer(g, me, pid, now), me);
    } else {
      assert pid in g.peers + {pid} && g.peers + {pid} != g.peers;
      if Topology(AddPeer(g, me, pid, now), me) == Topology(g, me) {
        TopologyDetermines(g, AddPeer(g, me, pid, now), me);
      }
    }
  }

  lemma LeaveAccounts(g: Group, me: PeerId, pid: PeerId)
    requires Structured(g, me) && pid != me && g.topologyVersion < U64_MAX
    ensures Structured(RemovePeer(g, me, pid), me)
    ensures Accounted(g, RemovePeer(g, me, pid), me)
    ensures RemovePeer(g, me, pid).topologyVersion == g.topologyVersion <==>
            Topology(RemovePeer(g, me, pid), me) == Topology(g, me)
    ensures RowOf(RemovePeer(g, me, pid), me).version
         == if RemovePeer(g, me, pid).peers == g.peers then RowOf(g, me).version else WrapInc32(RowOf(g, me).version)
    ensures RemovePeer(g, me, pid).topologyVersion <= g.topologyVersion + 1
  {
    hide Topology;
    if pid !in g.peers && pid !in g.infos {
      assert pid !in g.rows;
      SameRowsSameTopology(g, RemovePeer(g, me, pid), me);
    } else {
      assert pid in Known(g, me) && pid !in Known(RemovePeer(g, me, pid), me);
      if Topology(RemovePeer(g, me, pid), me) == Topology(g, me) {
        TopologyDetermines(g, RemovePeer(g, me, pid), me);
      }
    }
  }

  lemma PurgeAccounts(g: Group, me: PeerId, gone: set<PeerId>)
    requires Structured(g, me) && gone <= g.infos.Keys && g.topologyVersion < U64_MAX
    ensures Structured(Purge(g, gone), me)
    ensures Accounted(g, Purge(g, gone), me)
  {
    hide Topology;
  }

  lemma {:induction false} RemoveEachAccounts(g: Group, me: PeerId, pids: seq<PeerId>)
    requires Structured(g, me) && me !in pids && g.topologyVersion + |pids| <= U64_MAX
    ensures Structured(RemoveEach(g, me, pids), me)
    ensures Accounted(g, RemoveEach(g, me, pids), me)
    ensures RemoveEach(g, me, pids).topologyVersion <= g.topologyVersion + |pids|
  {
    if pids != [] {
      var init, last := pids[..|pids| - 1], pids[|pids| - 1];
      RemoveEachAccounts(g, me, init);
      hide Structured, Accounted, RemovePeer;
      LeaveAccounts(RemoveEach(g, me, init), me, last);
      AccountedTrans(g, RemoveEach(g, me, init), RemoveEach(g, me, pids), me);
    }
  }

  lemma DeadAreMembers(g: Group, now: nat)
    ensures forall pid :: pid in Sorted(DeadPeers(g, now)) <==> pid in g.peers && Silent(g, pid, now)
  {
    SortedIsSorted(DeadPeers(g, now));
  }

  lemma SweepAccounts(g: Group, me: PeerId, now: nat)
    requires Structured(g, me) && g.topologyVersion + |Sorted(DeadPeers(g, now))| < U64_MAX
    ensures Structured(Sweep(g, me, now).g, me)
    ensures Accounted(g, Sweep(g, me, now).g, me)
  {
    DeadAreMembers(g, now);
    var dead := Sorted(DeadPeers(g, now));
    RemoveEachAccounts(g, me, dead);
    var g1 := RemoveEach(g, me, dead);
    hide Structured, Accounted, Outdated;
    PurgeAccounts(g1, me, OutdatedInfos(g1, now));
    AccountedTrans(g, g1, Sweep(g, me, now).g, me);
  }

  /** Storing infos adds at most the sender to the table. */
  lemma {:induction false} StoreInfosEffect(g: Group, from: PeerId, infos: seq<RouteInfo>, now: nat)
    ensures var r := StoreInfos(g, from, infos, now);
            && r.g == g.(infos := r.g.infos, sessions := r.g.sessions)
            && g.infos.Keys <= r.g.infos.Keys <= g.infos.Keys + {from}
            && r.isNew == (from in r.g.infos && from !in g.infos)
            && r.g.sessions.Keys == g.sessions.Keys
  {
    if infos != [] {
      StoreInfosEffect(g, from, infos[..|infos| - 1], now);
    }
  }

  /** Storing rows touches at most the sender's row, and says when it did. */
  lemma {:induction false} StoreRowsEffect(g: Group, me: PeerId, from: PeerId, reported: seq<PeerRow>)
    ensures var (g', changed) := StoreRows(g, me, from, reported);
            && g' == g.(rows := g'.rows)
            && (forall pid :: pid != from ==> (pid in g'.rows <==> pid in g.rows) && RowOf(g', pid) == RowOf(g, pid))
            && (from in g.rows ==> from in g'.rows)
            && (from == me ==> g'.rows == g.rows)
            && (!changed ==> g'.rows == g.rows)
            && (changed ==> RowOf(g', from).version > RowOf(g, from).version && FromReport(g', me, from, reported))
  {
    if reported != [] {
      var init := reported[..|reported| - 1];
      StoreRowsEffect(g, me, from, init);
      var (before, changed) := StoreRows(g, me, from, init);
      if changed && !AcceptsRow(before, me, from, reported[|reported| - 1]) {
        var i :| 0 <= i < |init| && Accepted(before, me, from, init[i]);
        assert Accepted(before, me, from, reported[i]);
      } else if AcceptsRow(before, me, from, reported[|reported| - 1]) {
        assert Accepted(StoreRows(g, me, from, reported).0, me, from, reported[|reported| - 1]);
      }
    }
  }

  /** The stored row is this reported row, cut down to the relay and the peers known now. */
  ghost predicate Accepted(g: Group, me: PeerId, from: PeerId, row: PeerRow) {
    && row.id == from && RowOf(g, from).version == row.version
    && forall n :: n in RowOf(g, from).connected <==> n in row.connected && (n == me || n in g.peers || n in g.infos)
  }

  ghost predicate FromReport(g: Group, me: PeerId, from: PeerId, reported: seq<PeerRow>) {
    exists i :: 0 <= i < |reported| && Accepted(g, me, from, reported[i])
  }

  lemma SyncAccounts(g: Group, me: PeerId, from: PeerId, req: SyncRequest, now: nat)
    requires Structured(g, me) && from in g.peers && g.topologyVersion < U64_MAX
    ensures Structured(Handle(g, me, from, req, now).0, me)
    ensures Accounted(g, Handle(g, me, from, req, now).0, me)
  {
    hide Topology, StoreInfos, StoreRows, FromReport, Reported, Greeted;
    if req.peerId == from {
      var g1 := g.(sessions := g.sessions[from := Greeted(SessionOf(g, from), req.sessionId, req.isInitiator, now)]);
      var infos := StoreInfos(g1, from, req.infos, now);
      StoreInfosEffect(g1, from, req.infos, now);
      StoreRowsEffect(infos.g, me, from, Reported(req.conn));
      var (g3, rowsChanged) := StoreRows(infos.g, me, from, Reported(req.conn));
      assert RowOf(g3, me) == RowOf(g, me);
      assert g3.rows.Keys <= g3.peers + g3.infos.Keys + {me};
      if !(infos.isNew || rowsChanged) {
        assert g3.infos.Keys == g.infos.Keys;
        SameRowsSameTopology(g, g3, me);
      }
    } else {
      SameRowsSameTopology(g, g, me);
    }
  }

  lemma SessionsOnlyAccount(g: Group, g': Group, me: PeerId)
    requires Structured(g, me)
             && g' == g.(sessions := g'.sessions, myInfo := g'.myInfo, myInfoVersion := g'.myInfoVersion)
    ensures Structured(g', me) && Accounted(g, g', me)
  {
    hide Topology;
    SameRowsSameTopology(g, g', me);
  }

  // ----- building, and the caches

  lemma RowsForIgnoresSessions(g: Group, g': Group, pids: seq<PeerId>)
    requires g'.rows == g.rows
    ensures RowsFor(g', pids) == RowsFor(g, pids)
  {
    assert forall pid :: RowOf(g', pid) == RowOf(g, pid);
  }

  /** Different sets of peers give different lists of rows. */
  lemma RowsDetermineIds(g: Group, a: set<PeerId>, b: set<PeerId>)
    requires Versions(RowsFor(g, Sorted(a))) == Versions(RowsFor(g, Sorted(b)))
    ensures a == b
  {
    SortedIsSorted(a);
    SortedIsSorted(b);
    var x, y := Versions(RowsFor(g, Sorted(a))), Versions(RowsFor(g, Sorted(b)));
    assert |Sorted(a)| == |Sorted(b)| by {
      assert |x| == |Sorted(a)| && |y| == |Sorted(b)|;
    }
    forall i | 0 <= i < |Sorted(a)|
      ensures Sorted(a)[i] == Sorted(b)[i]
    {
      assert x[i].id == Sorted(a)[i] && y[i].id == Sorted(b)[i];
    }
    assert Sorted(a) == Sorted(b);
    assert forall p :: p in a <==> p in b;
  }

  /** What a build does to the table: the target's session learns our id, and at most one cache is
      filled with the rows of the peers known then, the target among them. */
  lemma BuildEffect(g: Group, me: PeerId, target: PeerId, sid: u64, forceFull: bool, now: nat)
    ensures var g' := Build(g, me, target, sid, forceFull, now).0;
            var rows := RowsFor(g, Sorted(Known(g, me) + {target}));
            && g' == g.(sessions := g'.sessions, cachedList := g'.cachedList, cachedBitmap := g'.cachedBitmap)
            && g'.sessions == g.sessions[target := SessionOf(g, target).(mySessionId := Some(sid))]
            && (g'.cachedList == g.cachedList || g'.cachedList == Some((g.topologyVersion, rows)))
            && (g'.cachedBitmap == g.cachedBitmap || g'.cachedBitmap == Some((g.topologyVersion, MatrixOf(rows))))
  {
    hide RowsFor, MatrixOf, Picked, Known, Sorted;
    var g1 := g.(sessions := g.sessions[target := SessionOf(g, target).(mySessionId := Some(sid))]);
    RowsForIgnoresSessions(g, g1, Sorted(Known(g, me) + {target}));
  }

  /** Building for a peer the table does not know fills no cache: the topology is acknowledged, the
      matrix is already there, or it would be too large. */
  predicate FillsNoCache(g: Group, me: PeerId, target: PeerId, now: nat) {
    || TopologyAcked(SessionOf(g, target), g.topologyVersion, now)
    || (g.cachedBitmap.Some? && g.cachedBitmap.value.0 == g.topologyVersion)
    || |Known(g, me) + {target}| > 8_192
  }

  /** A build leaves the caches coherent exactly when its target is a peer the table knows of, or it
      fills no cache. */
  lemma BuildCoherenceIsExact(g: Group, me: PeerId, target: PeerId, sid: u64, forceFull: bool, now: nat)
    requires Coherent(g, me)
    ensures Coherent(Build(g, me, target, sid, forceFull, now).0, me) <==>
            target in Known(g, me) || FillsNoCache(g, me, target, now)
  {
    hide Coherent;
    CoherentUnlessFilled(g, me, target, sid, forceFull, now);
    if target !in Known(g, me) {
      StrangerFillsBitmap(g, me, target, sid, forceFull, now);
    }
  }

  /** Of the connections, a build for a peer without an info does what `BuildConn` does for a matrix. */
  lemma StrangerConn(g: Group, me: PeerId, target: PeerId, sid: u64, forceFull: bool, now: nat)
      returns (g1: Group, relevant: seq<PeerId>)
    requires target !in g.infos
    ensures g1 == g.(sessions := g.sessions[target := SessionOf(g, target).(mySessionId := Some(sid))])
    ensures relevant == Sorted(Known(g, me) + {target}) != [] && |relevant| == |Known(g, me) + {target}|
    ensures var (g', u) := Build(g, me, target, sid, forceFull, now);
            var (g2, conn) := BuildConn(g1, relevant, target, false, now);
            g' == g2 && (u.Some? && u.value.conn.Some? ==> conn == Included(u.value.conn.value))
  {
    SortedIsSorted(Known(g, me) + {target});
    SortedLength(Known(g, me) + {target});
    g1 := g.(sessions := g.sessions[target := SessionOf(g, target).(mySessionId := Some(sid))]);
    relevant := Sorted(Known(g, me) + {target});
    assert me in relevant;
    hide Picked, RowsFor, MatrixOf, Sorted, Known, BuildConn;
  }

  lemma StrangerFillsBitmap(g: Group, me: PeerId, target: PeerId, sid: u64, forceFull: bool, now: nat)
    requires target !in Known(g, me)
    ensures var g' := Build(g, me, target, sid, forceFull, now).0;
            g'.cachedList == g.cachedList && g'.cachedBitmap == g.cachedBitmap <==> FillsNoCache(g, me, target, now)
  {
    hide Build, BuildConn, Sorted;
    var g1, relevant := StrangerConn(g, me, target, sid, forceFull, now);
    ConnFillsBitmap(g1, relevant, target, now);
  }

  lemma ConnFillsBitmap(g: Group, relevant: seq<PeerId>, target: PeerId, now: nat)
    requires relevant != [] && target in g.sessions
    ensures var g' := BuildConn(g, relevant, target, false, now).0;
            && g'.cachedList == g.cachedList
            && (g'.cachedBitmap == g.cachedBitmap
                <==> || TopologyAcked(g.sessions[target], g.topologyVersion, now)
                     || (g.cachedBitmap.Some? && g.cachedBitmap.value.0 == g.topologyVersion)
                     || |relevant| > 8_192)
  {
    hide RowsFor, MatrixOf, TopologyAcked;
  }

  /** A matrix that is sent without being built is the current one of the cache. */
  lemma ConnFromCache(g: Group, relevant: seq<PeerId>, target: PeerId, now: nat)
    requires relevant != [] && target in g.sessions
    requires || TopologyAcked(g.sessions[target], g.topologyVersion, now)
             || (g.cachedBitmap.Some? && g.cachedBitmap.value.0 == g.topologyVersion)
             || |relevant| > 8_192
    ensures var conn := BuildConn(g, relevant, target, false, now).1;
            conn.Included? ==> && g.cachedBitmap.Some? && g.cachedBitmap.value.0 == g.topologyVersion
                               && conn.conn == ConnBitmap(g.cachedBitmap.value.1)
  {
    hide RowsFor, MatrixOf, TopologyAcked;
  }

  lemma CoherentUnlessFilled(g: Group, me: PeerId, target: PeerId, sid: u64, forceFull: bool, now: nat)
    requires Coherent(g, me)
    ensures var g' := Build(g, me, target, sid, forceFull, now).0;
            Coherent(g', me) <==>
                target in Known(g, me) || (g'.cachedList == g.cachedList && g'.cachedBitmap == g.cachedBitmap)
  {
    var g' := Build(g, me, target, sid, forceFull, now).0;
    BuildEffect(g, me, target, sid, forceFull, now);
    hide Build, Sorted, MatrixOf;
    assert Known(g', me) == Known(g, me);
    RowsForIgnoresSessions(g, g', Sorted(Known(g, me)));
    assert Topology(g', me) == Topology(g, me);
    var a, b := Known(g, me) + {target}, Known(g, me);
    if target in Known(g, me) {
      assert a == b;
    } else {
      hide RowsFor, Topology, Versions;
      assert target in a && a != b;
      DifferentTopology(g, a, b);
      assert Topology(g, me) == RowsFor(g, Sorted(b)) by { TopologyIs(g, me); }
    }
  }

  lemma TopologyIs(g: Group, me: PeerId)
    ensures Topology(g, me) == RowsFor(g, Sorted(Known(g, me)))
  {
  }

  lemma DifferentTopology(g: Group, a: set<PeerId>, b: set<PeerId>)
    requires a != b
    ensures RowsFor(g, Sorted(a)) != RowsFor(g, Sorted(b))
    ensures MatrixOf(RowsFor(g, Sorted(a))) != MatrixOf(RowsFor(g, Sorted(b)))
  {
    hide Versions, RowsFor, Matrix, Sorted;
    if Versions(RowsFor(g, Sorted(a))) == Versions(RowsFor(g, Sorted(b))) {
      RowsDetermineIds(g, a, b);
    }
  }

  /** The connections an update carries, if any, are the current topology in one of its encodings. */
  predicate Describes(conn: ConnInfo, topology: seq<PeerRow>) {
    conn == ConnPeerList(topology) || conn == ConnBitmap(MatrixOf(topology))
  }

  /** A matrix no larger than the relay builds reads back as the symmetric closure of the topology,
      row by row, with the rows' own ids and versions. */
  lemma MatrixReadsBack(topology: seq<PeerRow>, i: nat)
    requires i < |topology| <= 8_192
    ensures var read := Reported(Some(ReceivedMatrix(MatrixOf(topology))));
            |read| == |topology| && read[i] == PeerRow(topology[i].id, topology[i].version, Closure(topology, i))
  {
    hide DecodedRow, Closure, Matrix;
    MulMono(|topology|, MAX_LEGACY_BITMAP_PEERS, |topology|);
    EncodingsAgree(topology, i);
    assert PeerIds(Versions(topology)) == Ids(topology);
  }

  // ----- whole runs

  /** Requests come from current members, nobody else bears the relay's id, and the topology version
      does not wrap. Updates may be built for anyone. */
  predicate Ordinary(g: Group, me: PeerId, ev: Event) {
    match ev
    case Join(pid, now) => pid != me && g.topologyVersion < U64_MAX
    case Leave(pid) => pid != me && g.topologyVersion < U64_MAX
    case SweepAt(now) => g.topologyVersion + |Sorted(DeadPeers(g, now))| < U64_MAX
    case Sync(from, req, now) => from in g.peers && g.topologyVersion < U64_MAX
    case _ => true
  }

  predicate OrdinaryRun(g: Group, me: PeerId, evs: seq<Event>) {
    evs == [] ||
    (OrdinaryRun(g, me, evs[..|evs| - 1]) && Ordinary(Run(g, me, evs[..|evs| - 1]), me, evs[|evs| - 1]))
  }

  /** Every event other than a build accounts for what it changes. */
  lemma StepAccounts(g: Group, me: PeerId, ev: Event)
    requires Structured(g, me) && Ordinary(g, me, ev) && !ev.Send?
    ensures Structured(Apply(g, me, ev), me) && Accounted(g, Apply(g, me, ev), me)
  {
    hide Structured, Accounted, Handle, Acknowledge, Sweep, AddPeer, RemovePeer;
    var g' := Apply(g, me, ev);
    match ev
    case Join(pid, now) => JoinAccounts(g, me, pid, now);
    case Leave(pid) => LeaveAccounts(g, me, pid);
    case SweepAt(now) => SweepAccounts(g, me, now);
    case Sync(from, req, now) => SyncAccounts(g, me, from, req, now);
    case Response(peer, sid, weAreInitiator, u, now) =>
      AcknowledgeSessionsOnly(g, peer, sid, weAreInitiator, u, now);
      SessionsOnlyAccount(g, g', me);
    case MyInfo(details) => SessionsOnlyAccount(g, g', me);
  }

  lemma AcknowledgeSessionsOnly(g: Group, pid: PeerId, sid: u64, weAreInitiator: bool, u: Update, now: nat)
    ensures var g' := Acknowledge(g, pid, sid, weAreInitiator, u, now); g' == g.(sessions := g'.sessions)
  {
  }

  lemma NewGroupKeeps(me: PeerId, info: RouteInfo)
    ensures Structured(NewGroup(info), me) && Coherent(NewGroup(info), me)
  {
  }

  /** The cached matrix is tagged with the current version but is not the current topology. */
  predicate BadMatrix(g: Group, me: PeerId) {
    && g.cachedBitmap.Some? && g.cachedBitmap.value.0 == g.topologyVersion
    && g.cachedBitmap.value.1 != MatrixOf(Topology(g, me))
  }

  /** This build fills the cache for a peer the table does not know. */
  predicate Spoils(g: Group, me: PeerId, ev: Event) {
    ev.Send? && ev.target !in Known(g, me) && !FillsNoCache(g, me, ev.target, ev.now)
  }

  /** Some build spoiled the cache since the topology last changed. */
  predicate Spoiled(g: Group, me: PeerId, evs: seq<Event>) {
    evs != [] &&
    var before, ev := Run(g, me, evs[..|evs| - 1]), evs[|evs| - 1];
    && Apply(before, me, ev).topologyVersion == before.topologyVersion
    && (Spoiled(g, me, evs[..|evs| - 1]) || Spoils(before, me, ev))
  }

  /** A build for anyone keeps the structure, the version and the topology. */
  lemma BuildKeepsTopology(g: Group, me: PeerId, target: PeerId, sid: u64, forceFull: bool, now: nat)
    ensures var g' := Build(g, me, target, sid, forceFull, now).0;
            && (Structured(g, me) ==> Structured(g', me))
            && g'.topologyVersion == g.topologyVersion && Topology(g', me) == Topology(g, me)
            && Known(g', me) == Known(g, me)
  {
    BuildEffect(g, me, target, sid, forceFull, now);
    var g' := Build(g, me, target, sid, forceFull, now).0;
    hide Build, RowsFor, MatrixOf, Sorted;
    assert Known(g', me) == Known(g, me);
    assert RowOf(g', me) == RowOf(g, me);
    RowsForIgnoresSessions(g, g', Sorted(Known(g, me)));
  }

  /** Unless the build spoils the cache, the connections it carries, if any, are the current topology,
      cached or not. */
  lemma BuildDescribes(g: Group, me: PeerId, target: PeerId, sid: u64, forceFull: bool, now: nat)
    requires Coherent(g, me) && !Spoils(g, me, Send(target, sid, forceFull, now))
    ensures var u := Build(g, me, target, sid, forceFull, now).1;
            u.Some? && u.value.conn.Some? ==> Describes(u.value.conn.value, Topology(g, me))
  {
    hide Build, Coherent, Topology, FillsNoCache;
    if target in Known(g, me) {
      KnownBuildDescribes(g, me, target, sid, forceFull, now);
    } else {
      StrangerBuildDescribes(g, me, target, sid, forceFull, now);
    }
  }

  lemma KnownBuildDescribes(g: Group, me: PeerId, target: PeerId, sid: u64, forceFull: bool, now: nat)
    requires Coherent(g, me) && target in Known(g, me)
    ensures var u := Build(g, me, target, sid, forceFull, now).1;
            u.Some? && u.value.conn.Some? ==> Describes(u.value.conn.value, Topology(g, me))
  {
    assert Known(g, me) + {target} == Known(g, me);
    hide Picked, Sorted, RowsFor, MatrixOf;
    var g1 := g.(sessions := g.sessions[target := SessionOf(g, target).(mySessionId := Some(sid))]);
    RowsForIgnoresSessions(g, g1, Sorted(Known(g, me)));
  }

  lemma StrangerBuildDescribes(g: Group, me: PeerId, target: PeerId, sid: u64, forceFull: bool, now: nat)
    requires Coherent(g, me) && target !in Known(g, me) && FillsNoCache(g, me, target, now)
    ensures var u := Build(g, me, target, sid, forceFull, now).1;
            u.Some? && u.value.conn.Some? ==> Describes(u.value.conn.value, Topology(g, me))
  {
    hide Build, BuildConn, Sorted, Topology, MatrixOf;
    var g1, relevant := StrangerConn(g, me, target, sid, forceFull, now);
    ConnFromCache(g1, relevant, target, now);
  }

  lemma BadMatrixIsIncoherent(g: Group, me: PeerId)
    requires BadMatrix(g, me)
    ensures !Coherent(g, me)
  {
  }

  /** What a spoiling build leaves is a bad matrix. */
  lemma SpoilingLeavesBadMatrix(g: Group, me: PeerId, target: PeerId, sid: u64, forceFull: bool, now: nat)
    requires Coherent(g, me) && Spoils(g, me, Send(target, sid, forceFull, now))
    ensures BadMatrix(Build(g, me, target, sid, forceFull, now).0, me)
  {
    var g' := Build(g, me, target, sid, forceFull, now).0;
    BuildEffect(g, me, target, sid, forceFull, now);
    StrangerKeepsList(g, me, target, sid, forceFull, now);
    StrangerFillsBitmap(g, me, target, sid, forceFull, now);
    BuildKeepsTopology(g, me, target, sid, forceFull, now);
    TopologyIs(g, me);
    assert target in Known(g, me) + {target};
    DifferentTopology(g, Known(g, me) + {target}, Known(g, me));
    hide Build, Topology, RowsFor, MatrixOf, FillsNoCache;
  }

  lemma StrangerKeepsList(g: Group, me: PeerId, target: PeerId, sid: u64, forceFull: bool, now: nat)
    requires target !in Known(g, me)
    ensures Build(g, me, target, sid, forceFull, now).0.cachedList == g.cachedList
  {
    hide Picked, RowsFor, MatrixOf, Sorted;
  }

  /** A current matrix is not replaced by any build. */
  lemma BadMatrixStays(g: Group, me: PeerId, target: PeerId, sid: u64, forceFull: bool, now: nat)
    requires BadMatrix(g, me)
    ensures BadMatrix(Build(g, me, target, sid, forceFull, now).0, me)
  {
    BuildKeepsTopology(g, me, target, sid, forceFull, now);
    MatrixStays(g, me, target, sid, forceFull, now);
    hide Build, Topology, MatrixOf;
  }

  lemma MatrixStays(g: Group, me: PeerId, target: PeerId, sid: u64, forceFull: bool, now: nat)
    requires g.cachedBitmap.Some? && g.cachedBitmap.value.0 == g.topologyVersion
    ensures Build(g, me, target, sid, forceFull, now).0.cachedBitmap == g.cachedBitmap
  {
    hide Picked, RowsFor, MatrixOf, Sorted;
  }

  /** One step: a topology change heals, a spoiling build spoils, anything else leaves things as they are. */
  lemma StepSpoils(g: Group, me: PeerId, ev: Event, spoiled: bool)
    requires Structured(g, me) && Ordinary(g, me, ev)
    requires if spoiled then BadMatrix(g, me) else Coherent(g, me)
    ensures var g' := Apply(g, me, ev);
            && Structured(g', me)
            && var after := g'.topologyVersion == g.topologyVersion && (spoiled || Spoils(g, me, ev));
               if after then BadMatrix(g', me) else Coherent(g', me)
  {
    var g' := Apply(g, me, ev);
    if ev.Send? {
      hide Structured, Coherent, BadMatrix, Spoils, Build, Topology;
      BuildKeepsTopology(g, me, ev.target, ev.sid, ev.forceFull, ev.now);
      if spoiled {
        BadMatrixStays(g, me, ev.target, ev.sid, ev.forceFull, ev.now);
      } else if Spoils(g, me, ev) {
        SpoilingLeavesBadMatrix(g, me, ev.target, ev.sid, ev.forceFull, ev.now);
      } else {
        HarmlessBuild(g, me, ev);
      }
    } else {
      hide Apply, Structured, Ordinary, Topology;
      StepAccounts(g, me, ev);
    }
  }

  lemma HarmlessBuild(g: Group, me: PeerId, ev: Event)
    requires ev.Send? && Coherent(g, me) && !Spoils(g, me, ev)
    ensures Coherent(Apply(g, me, ev), me)
  {
    BuildCoherenceIsExact(g, me, ev.target, ev.sid, ev.forceFull, ev.now);
    hide Build, Coherent, FillsNoCache;
  }

  lemma {:induction false} CachesFollowSpoiling(me: PeerId, info: RouteInfo, evs: seq<Event>)
    requires OrdinaryRun(NewGroup(info), me, evs)
    ensures var g := Run(NewGroup(info), me, evs);
            && Structured(g, me)
            && if Spoiled(NewGroup(info), me, evs) then BadMatrix(g, me) else Coherent(g, me)
  {
    if evs == [] {
      NewGroupKeeps(me, info);
    } else {
      var init := evs[..|evs| - 1];
      CachesFollowSpoiling(me, info, init);
      hide Structured, Coherent, BadMatrix, Ordinary, Apply, Spoils;
      StepSpoils(Run(NewGroup(info), me, init), me, evs[|evs| - 1], Spoiled(NewGroup(info), me, init));
    }
  }

  /** Cache coherence over every ordinary run, exactly: a cached encoding tagged with the current version
      is the one rebuilt from scratch, whichever member asks, unless a build for an unknown peer filled
      the cache since the topology last changed; every change of the topology heals it. */
  lemma CachesStayCoherent(me: PeerId, info: RouteInfo, evs: seq<Event>)
    requires OrdinaryRun(NewGroup(info), me, evs)
    ensures Structured(Run(NewGroup(info), me, evs), me)
    ensures Coherent(Run(NewGroup(info), me, evs), me) <==> !Spoiled(NewGroup(info), me, evs)
  {
    CachesFollowSpoiling(me, info, evs);
    if Spoiled(NewGroup(info), me, evs) {
      BadMatrixIsIncoherent(Run(NewGroup(info), me, evs), me);
    }
  }

  /** The retry loop spoils the cache: a member falls silent, the sweep removes it, and the update it
      had in flight is rebuilt for it in the same call. */
  function SweptThenBuilt(p: PeerId): seq<Event> {
    [] + [Join(p, 1)] + [SweepAt(90_002)] + [Send(p, 7, true, 90_002)]
  }

  lemma RunSnoc(g: Group, me: PeerId, evs: seq<Event>, ev: Event)
    ensures Run(g, me, evs + [ev]) == Apply(Run(g, me, evs), me, ev)
    ensures OrdinaryRun(g, me, evs + [ev]) <==> OrdinaryRun(g, me, evs) && Ordinary(Run(g, me, evs), me, ev)
    ensures Spoiled(g, me, evs + [ev])
       <==> && Apply(Run(g, me, evs), me, ev).topologyVersion == Run(g, me, evs).topologyVersion
            && (Spoiled(g, me, evs) || Spoils(Run(g, me, evs), me, ev))
  {
    assert (evs + [ev])[..|evs|] == evs;
  }

  /** The table after its only member was swept. */
  predicate Emptied(g: Group, me: PeerId) {
    Known(g, me) == {me} && g.sessions == map[] && g.cachedBitmap.None? && g.topologyVersion == 3
  }

  lemma SweepEmpties(info: RouteInfo, me: PeerId, p: PeerId)
    requires p != me
    ensures var g := AddPeer(NewGroup(info), me, p, 1);
            && Ordinary(NewGroup(info), me, Join(p, 1)) && Ordinary(g, me, SweepAt(90_002))
            && Emptied(Sweep(g, me, 90_002).g, me)
  {
    var g := AddPeer(NewGroup(info), me, p, 1);
    assert {} + {p} == {p};
    assert DeadPeers(g, 90_002) == {p};
    OnlyOne(p);
    var g1 := RemovePeer(g, me, p);
    assert [p][..0] == [];
    assert RemoveEach(g, me, [p]) == g1;
    assert g1.peers == {} && g1.infos == map[] && g1.sessions == map[];
    assert OutdatedInfos(g1, 90_002) == {};
    hide Sorted;
    assert Sweep(g, me, 90_002).g == g1;
    assert g1.rows.Keys == {me};
  }

  lemma OnlyOne(p: PeerId)
    ensures Sorted({p}) == [p]
  {
    SortedIsSorted({p});
    SortedLength({p});
    assert Sorted({p})[0] in Sorted({p});
  }

  lemma EmptiedIsSpoilt(g: Group, me: PeerId, p: PeerId)
    requires Emptied(g, me) && p != me
    ensures Ordinary(g, me, Send(p, 7, true, 90_002)) && Spoils(g, me, Send(p, 7, true, 90_002))
  {
    assert Known(g, me) + {p} == {me, p};
  }

  lemma BuildKeepsVersion(g: Group, me: PeerId, target: PeerId, sid: u64, forceFull: bool, now: nat)
    ensures Build(g, me, target, sid, forceFull, now).0.topologyVersion == g.topologyVersion
  {
    BuildKeepsTopology(g, me, target, sid, forceFull, now);
  }

  /** After it, the cached matrix has a row for a peer the table does not know. */
  lemma StrangerSpoilsCache(me: PeerId, info: RouteInfo, p: PeerId)
    requires p != me
    ensures OrdinaryRun(NewGroup(info), me, SweptThenBuilt(p))
    ensures !Coherent(Run(NewGroup(info), me, SweptThenBuilt(p)), me)
  {
    var g0 := NewGroup(info);
    var j, s, b := Join(p, 1), SweepAt(90_002), Send(p, 7, true, 90_002);
    RunSnoc(g0, me, [], j);
    RunSnoc(g0, me, [] + [j], s);
    RunSnoc(g0, me, [] + [j] + [s], b);
    assert OrdinaryRun(g0, me, []) && Run(g0, me, []) == g0;
    assert Apply(Sweep(AddPeer(g0, me, p, 1), me, 90_002).g, me, b)
        == Build(Sweep(AddPeer(g0, me, p, 1), me, 90_002).g, me, p, 7, true, 90_002).0;
    hide Run, OrdinaryRun, Ordinary, Spoiled, Spoils, Coherent, Structured, AddPeer, Sweep, Build, Emptied;
    SweepEmpties(info, me, p);
    var g := Sweep(AddPeer(g0, me, p, 1), me, 90_002).g;
    EmptiedIsSpoilt(g, me, p);
    BuildKeepsVersion(g, me, p, 7, true, 90_002);
    CachesStayCoherent(me, info, SweptThenBuilt(p));
  }

  // ----- a row that names its own peer

  /** A client that lists itself among its neighbours gets a row that names it, and the matrix built
      from such a topology has its diagonal bit set. */
  function ListsItself(p: PeerId): seq<Event> {
    var report := SyncRequest(p, 5, true, [], Some(ReceivedList([ListedRow(Some(PeerVersion(p, 1)), [p])])));
    [] + [Join(p, 1)] + [Sync(p, report, 1)]
  }

  ghost predicate DiagonalSet(topology: seq<PeerRow>, p: PeerId) {
    exists i :: 0 <= i < |topology| && topology[i].id == p
                && BitAt(MatrixOf(topology).bitmap, Pos(|topology|, i, i))
  }

  lemma SelfLoopIsBuilt(me: PeerId, info: RouteInfo, p: PeerId)
    requires p != me
    ensures OrdinaryRun(NewGroup(info), me, ListsItself(p))
    ensures DiagonalSet(Topology(Run(NewGroup(info), me, ListsItself(p)), me), p)
  {
    var g0 := NewGroup(info);
    var report := SyncRequest(p, 5, true, [], Some(ReceivedList([ListedRow(Some(PeerVersion(p, 1)), [p])])));
    RunSnoc(g0, me, [], Join(p, 1));
    RunSnoc(g0, me, [] + [Join(p, 1)], Sync(p, report, 1));
    SelfRowIsStored(AddPeer(g0, me, p, 1), me, p);
    SelfRowSetsDiagonal(Run(g0, me, ListsItself(p)), me, p);
  }

  lemma SelfRowSetsDiagonal(g: Group, me: PeerId, p: PeerId)
    requires RowOf(g, p).connected == {p} && p in Known(g, me)
    ensures DiagonalSet(Topology(g, me), p)
  {
    SortedIsSorted(Known(g, me));
    assert p in Sorted(Known(g, me));
    var i :| 0 <= i < |Sorted(Known(g, me))| && Sorted(Known(g, me))[i] == p;
    var topology := Topology(g, me);
    assert topology[i] == PeerRow(p, RowOf(g, p).version, RowOf(g, p).connected);
    DiagonalFollowsRow(topology, i);
    hide BitAt, Matrix, Pos, Sorted;
  }

  lemma NamedOne(p: PeerId)
    ensures Named([ListedRow(Some(PeerVersion(p, 1)), [p])]) == [PeerRow(p, 1, {p})]
  {
    var listed := [ListedRow(Some(PeerVersion(p, 1)), [p])];
    assert listed[..0] == [];
    assert Named([]) == [] && Elements([p]) == {p};
  }

  lemma SelfRowIsStored(g: Group, me: PeerId, p: PeerId)
    requires p != me && p in g.peers && RowOf(g, p).version == 0
    ensures var report := SyncRequest(p, 5, true, [], Some(ReceivedList([ListedRow(Some(PeerVersion(p, 1)), [p])])));
            RowOf(Handle(g, me, p, report, 1).0, p).connected == {p} && p in Known(Handle(g, me, p, report, 1).0, me)
  {
    var row := PeerRow(p, 1, {p});
    assert [row][..0] == [];
    NamedOne(p);
    hide Named;
    var g1 := g.(sessions := g.sessions[p := Greeted(SessionOf(g, p), 5, true, 1)]);
    assert StoreRows(g1, me, p, [row]) == (StoreRow(g1, me, p, row), AcceptsRow(g1, me, p, row));
    assert KnownNeighbours(g1, me, {p}) == {p};
  }

  // ----- rows belong to their owners

  /** How one event can change the row of a client. */
  ghost predicate RowStep(g: Group, g': Group, me: PeerId, ev: Event, pid: PeerId) {
    if pid in g'.rows then
      (pid in g.rows && g'.rows[pid] == g.rows[pid])
      || (ev.Sync? && ev.from == pid && g'.rows[pid].version > RowOf(g, pid).version
          && FromReport(g', me, pid, Reported(ev.req.conn)))
    else pid in g.rows ==> (ev.Leave? && ev.pid == pid) || ev.SweepAt?
  }

  lemma {:induction false} RemoveEachRows(g: Group, me: PeerId, pids: seq<PeerId>, pid: PeerId)
    requires pid != me
    ensures pid in RemoveEach(g, me, pids).rows <==> pid in g.rows && pid !in pids
    ensures pid in RemoveEach(g, me, pids).rows ==> RemoveEach(g, me, pids).rows[pid] == g.rows[pid]
  {
    if pids != [] {
      RemoveEachRows(g, me, pids[..|pids| - 1], pid);
      assert pids == pids[..|pids| - 1] + [pids[|pids| - 1]];
    }
  }

  /** Only its owner's report, its removal or a sweep touches a client's row; a report raises the
      version, and the content is the report cut down to the peers known at that moment. */
  lemma RowsAreOwnerControlled(g: Group, me: PeerId, ev: Event, pid: PeerId)
    requires pid != me
    ensures RowStep(g, Apply(g, me, ev), me, ev, pid)
  {
    match ev {
      case Join(p, now) =>
      case Leave(p) =>
      case SweepAt(now) => RemoveEachRows(g, me, Sorted(DeadPeers(g, now)), pid);
      case Sync(from, req, now) => SyncRowStep(g, me, from, req, now, pid);
      case Send(target, sid, forceFull, now) => BuildEffect(g, me, target, sid, forceFull, now);
      case Response(peer, sid, weAreInitiator, u, now) =>
      case MyInfo(details) =>
    }
  }

  lemma SyncRowStep(g: Group, me: PeerId, from: PeerId, req: SyncRequest, now: nat, pid: PeerId)
    requires pid != me
    ensures RowStep(g, Apply(g, me, Sync(from, req, now)), me, Sync(from, req, now), pid)
  {
    hide StoreInfos, StoreRows, Reported, Greeted, FromReport;
    if req.peerId == from {
      var g1 := g.(sessions := g.sessions[from := Greeted(SessionOf(g, from), req.sessionId, req.isInitiator, now)]);
      var infos := StoreInfos(g1, from, req.infos, now);
      StoreInfosEffect(g1, from, req.infos, now);
      StoreRowsEffect(infos.g, me, from, Reported(req.conn));
      var (g3, changed) := StoreRows(infos.g, me, from, Reported(req.conn));
      var g' := Handle(g, me, from, req, now).0;
      assert g'.rows == g3.rows && g'.peers == g3.peers && g'.infos == g3.infos;
      FromReportSame(g3, g', me, from, Reported(req.conn));
    }
  }

  lemma FromReportSame(g: Group, g': Group, me: PeerId, from: PeerId, reported: seq<PeerRow>)
    requires g'.rows == g.rows && g'.peers == g.peers && g'.infos == g.infos
    ensures FromReport(g, me, from, reported) ==> FromReport(g', me, from, reported)
  {
    if i :| 0 <= i < |reported| && Accepted(g, me, from, reported[i]) {
      assert KnownNeighbours(g', me, reported[i].connected) == KnownNeighbours(g, me, reported[i].connected);
      assert Accepted(g', me, from, reported[i]);
    }
  }

  /** A client's newer row is always stored, and a change is claimed exactly when there is one. */
  lemma {:induction false} NewerRowsAreStored(g: Group, me: PeerId, from: PeerId, reported: seq<PeerRow>)
    requires from != me
    ensures var (g', changed) := StoreRows(g, me, from, reported);
            && RowOf(g', from).version >= RowOf(g, from).version
            && (forall i :: 0 <= i < |reported| && reported[i].id == from ==>
                  RowOf(g', from).version >= reported[i].version)
            && (changed <==> RowOf(g', from).version > RowOf(g, from).version)
            && (changed <==> exists i :: 0 <= i < |reported| && reported[i].id == from
                                         && reported[i].version > RowOf(g, from).version)
  {
    if reported != [] {
      var init, last := reported[..|reported| - 1], reported[|reported| - 1];
      NewerRowsAreStored(g, me, from, init);
      var (before, changed) := StoreRows(g, me, from, init);
      assert forall i :: 0 <= i < |init| ==> reported[i] == init[i];
      assert reported[|reported| - 1] == last;
    }
  }

  /** A peer's last report counts: it is what is stored, dated now, unless the same instance is stored under a
      version at least as high. */
  lemma LastInfoIsStored(g: Group, from: PeerId, infos: seq<RouteInfo>, last: RouteInfo, now: nat)
    requires last.peerId == from
    ensures var g' := StoreInfos(g, from, infos + [last], now).g;
            && from in g'.infos
            && (|| g'.infos[from] == last.(lastUpdateSec := Some(now / 1_000))
                || (g'.infos[from].instId == last.instId && g'.infos[from].version >= last.version
                    && g'.infos[from] == StoreInfos(g, from, infos, now).g.infos[from]))
  {
    assert (infos + [last])[..|infos|] == infos;
  }

  /** What a request leaves in the session: its id and its time, and nothing remembered under another id. */
  lemma GreetingIsRecorded(g: Group, me: PeerId, from: PeerId, req: SyncRequest, now: nat)
    requires req.peerId == from
    ensures var (g', outcome) := Handle(g, me, from, req, now);
            var s := SessionOf(g, from);
            && outcome.Some? && from in g'.sessions
            && g'.sessions[from].dstSessionId == Some(req.sessionId) && g'.sessions[from].lastTouchMs == now
            && g'.sessions[from].mySessionId == s.mySessionId && g'.sessions[from].weAreInitiator == !req.isInitiator
            && (outcome.value.sessionChanged <==> s.dstSessionId != Some(req.sessionId))
            && outcome.value.sessionId == (match s.mySessionId case None => 1 case Some(id) => id)
            && (outcome.value.sessionChanged ==>
                  g'.sessions[from].saved == map[] && g'.sessions[from].lastTopologyVersion == 0)
            && (!outcome.value.sessionChanged ==> g'.sessions[from].lastTopologyVersion == s.lastTopologyVersion)
  {
    var g1 := g.(sessions := g.sessions[from := Greeted(SessionOf(g, from), req.sessionId, req.isInitiator, now)]);
    StoreInfosSession(g1, from, req.infos, now, from);
    StoreRowsEffect(StoreInfos(g1, from, req.infos, now).g, me, from, Reported(req.conn));
    hide StoreInfos, StoreRows, Reported, FromReport;
  }

  lemma {:induction false} StoreInfosSession(g: Group, from: PeerId, infos: seq<RouteInfo>, now: nat, t: PeerId)
    requires t in g.sessions
    ensures var g' := StoreInfos(g, from, infos, now).g;
            t in g'.sessions && g'.sessions[t] == g.sessions[t].(saved := g'.sessions[t].saved)
            && forall pid :: pid in g'.sessions[t].saved ==> pid in g.sessions[t].saved
  {
    if infos != [] {
      StoreInfosSession(g, from, infos[..|infos| - 1], now, t);
    }
  }

  /** A request of somebody else's is refused without a trace. */
  lemma ForeignRequestIsRefused(g: Group, me: PeerId, from: PeerId, req: SyncRequest, now: nat)
    ensures Handle(g, me, from, req, now).1.None? <==> req.peerId != from
    ensures req.peerId != from ==> Handle(g, me, from, req, now).0 == g
  {
    hide StoreInfos, StoreRows, Reported;
  }

  /** A peer that leaves is gone from everywhere, and every session forgets it and the topology. */
  lemma LeavingLeavesNothing(g: Group, me: PeerId, pid: PeerId)
    requires pid != me
    ensures var g' := RemovePeer(g, me, pid);
            && g'.peers == g.peers - {pid} && g'.infos == g.infos - {pid}
            && g'.sessions.Keys == g.sessions.Keys - {pid}
            && pid !in g'.rows && (forall p :: p != me ==> (p in g'.rows <==> p in g.rows && p != pid))
            && (forall p :: p in g'.rows && p != me ==> g'.rows[p] == g.rows[p])
            && (forall t :: t in g'.sessions ==>
                  && g'.sessions[t] == g.sessions[t].(saved := g.sessions[t].saved - {pid}, lastTopologyVersion := 0))
  {
  }

  /** Throughout a stretch in which a client's row stays stored, its version never falls, and stays
      equal only while the row does. */
  lemma {:induction false} RowVersionsRise(g: Group, me: PeerId, evs: seq<Event>, pid: PeerId)
    requires pid != me && forall n :: 0 <= n <= |evs| ==> pid in Run(g, me, evs[..n]).rows
    ensures pid in g.rows && pid in Run(g, me, evs).rows
    ensures Run(g, me, evs).rows[pid].version >= g.rows[pid].version
    ensures Run(g, me, evs).rows[pid].version == g.rows[pid].version ==> Run(g, me, evs).rows[pid] == g.rows[pid]
  {
    assert evs[..0] == [] && evs[..|evs|] == evs;
    assert pid in Run(g, me, evs[..0]).rows;
    if evs != [] {
      var init := evs[..|evs| - 1];
      forall n | 0 <= n <= |init|
        ensures pid in Run(g, me, init[..n]).rows
      {
        assert init[..n] == evs[..n];
      }
      RowVersionsRise(g, me, init, pid);
      RowsAreOwnerControlled(Run(g, me, init), me, evs[|evs| - 1], pid);
      hide Apply, Reported, FromReport;
      assert pid in Run(g, me, evs[..|evs|]).rows;
    }
  }

  // ----- the relay's own row

  /** How many members joined and left between two tables. */
  function MembersChanged(g: Group, g': Group): nat {
    |g'.peers - g.peers| + |g.peers - g'.peers|
  }

  /** The row is the member set, and its version has counted the changes of membership. */
  predicate MyRowCounts(g: Group, g': Group, me: PeerId, changes: nat) {
    RowOf(g', me) == ConnRow(Later(RowOf(g, me).version, changes), g'.peers)
  }

  /** A version `n` steps on, wrapping at 2^32. */
  function Later(version: u32, n: nat): u32 {
    (version + n) % TWO_32
  }

  lemma LaterSteps(version: u32)
    ensures Later(version, 0) == version && Later(version, 1) == WrapInc32(version)
  {
  }

  lemma LaterAdds(version: u32, m: nat, n: nat)
    ensures Later(Later(version, m), n) == Later(version, m + n)
  {
  }

  lemma {:induction false} RemoveEachCounts(g: Group, me: PeerId, pids: seq<PeerId>)
    requires OwnRow(g, me)
    requires forall i :: 0 <= i < |pids| ==> pids[i] in g.peers
    requires forall i, j :: 0 <= i < j < |pids| ==> pids[i] != pids[j]
    ensures MyRowCounts(g, RemoveEach(g, me, pids), me, |pids|)
    ensures RemoveEach(g, me, pids).peers == g.peers - set i | 0 <= i < |pids| :: pids[i]
  {
    if pids != [] {
      var init, last := pids[..|pids| - 1], pids[|pids| - 1];
      RemoveEachCounts(g, me, init);
      var before := RemoveEach(g, me, init);
      LaterSteps(RowOf(before, me).version);
      LaterAdds(RowOf(g, me).version, |init|, 1);
      hide Later;
      assert last in before.peers;
      assert before.peers - {last} != before.peers;
    }
  }

  /** Members lost, none gained. */
  lemma OnlyLost(g: Group, g': Group, lost: set<PeerId>)
    requires lost <= g.peers && g'.peers == g.peers - lost
    ensures MembersChanged(g, g') == |lost|
  {
    assert g'.peers - g.peers == {} && g.peers - g'.peers == lost;
  }

  lemma OnlyGained(g: Group, g': Group, gained: set<PeerId>)
    requires gained !! g.peers && g'.peers == g.peers + gained
    ensures MembersChanged(g, g') == |gained|
  {
    assert g'.peers - g.peers == gained && g.peers - g'.peers == {};
  }

  lemma PurgeKeepsMyRow(g: Group, me: PeerId, gone: set<PeerId>)
    requires me !in gone
    ensures RowOf(Purge(g, gone), me) == RowOf(g, me) && Purge(g, gone).peers == g.peers
  {
  }

  lemma SweepCounts(g: Group, me: PeerId, now: nat)
    requires OwnRow(g, me)
    ensures MyRowCounts(g, Sweep(g, me, now).g, me, MembersChanged(g, Sweep(g, me, now).g))
  {
    hide Outdated, Silent, MembersChanged, RemoveEach, Purge, Forgetting;
    SortedLength(DeadPeers(g, now));
    SortedIsSorted(DeadPeers(g, now));
    var dead := Sorted(DeadPeers(g, now));
    hide Sorted;
    assert forall k :: 0 <= k < |dead| ==> dead[k] in dead;
    RemoveEachCounts(g, me, dead);
    RemoveEachEffect(g, me, dead);
    var g1 := RemoveEach(g, me, dead);
    PurgeKeepsMyRow(g1, me, OutdatedInfos(g1, now));
    assert (set k | 0 <= k < |dead| :: dead[k]) == DeadPeers(g, now);
    OnlyLost(g, Sweep(g, me, now).g, DeadPeers(g, now));
  }

  lemma JoinedRow(g: Group, me: PeerId, pid: PeerId, now: nat)
    requires OwnRow(g, me) && pid != me
    ensures var g' := AddPeer(g, me, pid, now);
            && g'.peers == g.peers + (if pid in g.peers then {} else {pid})
            && RowOf(g', me)
               == if pid in g.peers then RowOf(g, me) else ConnRow(WrapInc32(RowOf(g, me).version), g'.peers)
  {
    assert pid in g.peers + {pid};
  }

  lemma JoinCounts(g: Group, me: PeerId, pid: PeerId, now: nat)
    requires OwnRow(g, me) && pid != me
    ensures MyRowCounts(g, AddPeer(g, me, pid, now), me, MembersChanged(g, AddPeer(g, me, pid, now)))
    ensures MembersChanged(g, AddPeer(g, me, pid, now)) <= 1
  {
    JoinedRow(g, me, pid, now);
    hide MembersChanged, Later, AddPeer;
    LaterSteps(RowOf(g, me).version);
    OnlyGained(g, AddPeer(g, me, pid, now), if pid in g.peers then {} else {pid});
  }

  lemma LeaveCounts(g: Group, me: PeerId, pid: PeerId)
    requires OwnRow(g, me) && pid != me
    ensures MyRowCounts(g, RemovePeer(g, me, pid), me, MembersChanged(g, RemovePeer(g, me, pid)))
    ensures MembersChanged(g, RemovePeer(g, me, pid)) <= 1
  {
    hide MembersChanged, Forgetting, Later;
    LaterSteps(RowOf(g, me).version);
    var lost := if pid in g.peers then {pid} else {};
    OnlyLost(g, RemovePeer(g, me, pid), lost);
    assert pid in g.peers ==> g.peers - {pid} != g.peers;
  }

  lemma OthersKeepMyRow(g: Group, me: PeerId, ev: Event)
    requires !ev.Join? && !ev.Leave? && !ev.SweepAt?
    ensures RowOf(Apply(g, me, ev), me) == RowOf(g, me) && Apply(g, me, ev).peers == g.peers
  {
    match ev {
      case Sync(from, req, now) => SyncKeepsMyRow(g, me, from, req, now);
      case Send(target, sid, forceFull, now) => BuildEffect(g, me, target, sid, forceFull, now);
      case Response(peer, sid, weAreInitiator, u, now) =>
      case MyInfo(details) =>
    }
  }

  /** No join, leave or request bears the relay's own id. */
  predicate SparesRelay(me: PeerId, ev: Event) {
    && (ev.Join? || ev.Leave? ==> ev.pid != me)
    && (ev.Sync? ==> ev.from != me)
  }

  lemma StaysApart(g: Group, me: PeerId, ev: Event)
    requires OwnRow(g, me) && SparesRelay(me, ev)
    ensures me !in Apply(g, me, ev).peers && me !in Apply(g, me, ev).infos
  {
    match ev {
      case Join(pid, now) =>
      case Leave(pid) =>
      case SweepAt(now) => RemoveEachEffect(g, me, Sorted(DeadPeers(g, now)));
      case Sync(from, req, now) =>
        var g1 := g.(sessions := g.sessions[from := Greeted(SessionOf(g, from), req.sessionId, req.isInitiator, now)]);
        StoreInfosEffect(g1, from, req.infos, now);
        hide StoreInfos, StoreRows, Reported, FromReport;
        StoreRowsEffect(StoreInfos(g1, from, req.infos, now).g, me, from, Reported(req.conn));
      case Send(target, sid, forceFull, now) => BuildEffect(g, me, target, sid, forceFull, now);
      case Response(peer, sid, weAreInitiator, u, now) =>
      case MyInfo(details) =>
    }
  }

  /** In every event at all: the relay's row is the member set, and its version rises by the number
      of members gained and lost, which is none exactly when membership stays. */
  lemma MyRowFollowsMembers(g: Group, me: PeerId, ev: Event)
    requires OwnRow(g, me) && SparesRelay(me, ev)
    ensures OwnRow(Apply(g, me, ev), me)
    ensures MyRowCounts(g, Apply(g, me, ev), me, MembersChanged(g, Apply(g, me, ev)))
    ensures MembersChanged(g, Apply(g, me, ev)) == 0 <==> Apply(g, me, ev).peers == g.peers
    ensures MembersChanged(g, Apply(g, me, ev)) > 1 ==> ev.SweepAt?
  {
    NoChange(g, Apply(g, me, ev));
    LaterSteps(RowOf(g, me).version);
    StaysApart(g, me, ev);
    hide Later, MembersChanged, AddPeer, RemovePeer, Sweep;
    match ev {
      case Join(pid, now) => JoinCounts(g, me, pid, now);
      case Leave(pid) => LeaveCounts(g, me, pid);
      case SweepAt(now) => SweepCounts(g, me, now);
      case _ =>
        OthersKeepMyRow(g, me, ev);
        hide Apply;
    }
  }

  lemma NoChange(g: Group, g': Group)
    ensures MembersChanged(g, g') == 0 <==> g'.peers == g.peers
  {
    if MembersChanged(g, g') == 0 {
      assert g'.peers - g.peers == {} && g.peers - g'.peers == {};
      assert forall p :: p in g'.peers <==> p in g.peers;
    }
  }

  lemma SyncKeepsMyRow(g: Group, me: PeerId, from: PeerId, req: SyncRequest, now: nat)
    ensures RowOf(Handle(g, me, from, req, now).0, me) == RowOf(g, me)
            && Handle(g, me, from, req, now).0.peers == g.peers
  {
    hide StoreInfos, StoreRows, Reported, Greeted, FromReport;
    if req.peerId == from {
      var g1 := g.(sessions := g.sessions[from := Greeted(SessionOf(g, from), req.sessionId, req.isInitiator, now)]);
      var infos := StoreInfos(g1, from, req.infos, now);
      StoreInfosEffect(g1, from, req.infos, now);
      StoreRowsEffect(infos.g, me, from, Reported(req.conn));
    }
  }

  /** Members gained and lost over a whole run. */
  function TotalChanged(g: Group, me: PeerId, evs: seq<Event>): nat {
    if evs == [] then 0
    else
      var before := Run(g, me, evs[..|evs| - 1]);
      TotalChanged(g, me, evs[..|evs| - 1]) + MembersChanged(before, Apply(before, me, evs[|evs| - 1]))
  }

  lemma CountsAddUp(a: Group, b: Group, c: Group, me: PeerId, m: nat, n: nat)
    requires MyRowCounts(a, b, me, m) && MyRowCounts(b, c, me, n)
    ensures MyRowCounts(a, c, me, m + n)
  {
    hide Later;
    LaterAdds(RowOf(a, me).version, m, n);
  }

  lemma CountsGoOn(a: Group, g: Group, me: PeerId, ev: Event, changes: nat)
    requires OwnRow(g, me) && SparesRelay(me, ev) && MyRowCounts(a, g, me, changes)
    ensures OwnRow(Apply(g, me, ev), me)
    ensures MyRowCounts(a, Apply(g, me, ev), me, changes + MembersChanged(g, Apply(g, me, ev)))
  {
    hide OwnRow, SparesRelay, MyRowCounts, Apply, MembersChanged, Later;
    MyRowFollowsMembers(g, me, ev);
    CountsAddUp(a, g, Apply(g, me, ev), me, changes, MembersChanged(g, Apply(g, me, ev)));
  }

  lemma NewRowCounts(me: PeerId, info: RouteInfo)
    ensures OwnRow(NewGroup(info), me) && MyRowCounts(NewGroup(info), NewGroup(info), me, 0)
  {
  }

  /** Over every run in which nobody else bears the relay's id, the relay's row is the member set and
      its version is the number of members gained and lost. */
  lemma {:induction false} MyRowCountsMembers(me: PeerId, info: RouteInfo, evs: seq<Event>)
    requires forall i :: 0 <= i < |evs| ==> SparesRelay(me, evs[i])
    ensures OwnRow(Run(NewGroup(info), me, evs), me)
    ensures MyRowCounts(NewGroup(info), Run(NewGroup(info), me, evs), me, TotalChanged(NewGroup(info), me, evs))
  {
    hide SparesRelay, OwnRow, Apply, MyRowCounts, MembersChanged, NewGroup;
    if evs == [] {
      NewRowCounts(me, info);
    } else {
      var init := evs[..|evs| - 1];
      MyRowCountsMembers(me, info, init);
      CountsGoOn(NewGroup(info), Run(NewGroup(info), me, init), me, evs[|evs| - 1],
                 TotalChanged(NewGroup(info), me, init));
    }
  }

  /** A request answered with "nothing changed" changed neither an info nor a row, so no peer needs
      to hear of it. */
  lemma UnreportedMeansUnchanged(g: Group, me: PeerId, from: PeerId, req: SyncRequest, now: nat)
    requires Handle(g, me, from, req, now).1.Some? && !Handle(g, me, from, req, now).1.value.routeChanged
    ensures Handle(g, me, from, req, now).0.infos == g.infos && Handle(g, me, from, req, now).0.rows == g.rows
    ensures Handle(g, me, from, req, now).0.topologyVersion == g.topologyVersion
  {
    var g1 := g.(sessions := g.sessions[from := Greeted(SessionOf(g, from), req.sessionId, req.isInitiator, now)]);
    UnchangedInfos(g1, from, req.infos, now);
    hide StoreInfos, StoreRows, Reported, FromReport, Greeted;
    StoreRowsEffect(StoreInfos(g1, from, req.infos, now).g, me, from, Reported(req.conn));
  }

  lemma {:induction false} UnchangedInfos(g: Group, from: PeerId, infos: seq<RouteInfo>, now: nat)
    ensures !StoreInfos(g, from, infos, now).changed ==>
            StoreInfos(g, from, infos, now).g == g && !StoreInfos(g, from, infos, now).isNew
  {
    if infos != [] {
      UnchangedInfos(g, from, infos[..|infos| - 1], now);
    }
  }

  /** An info of the sender that is of another instance than the stored one, or of a higher version. */
  predicate NewInfo(g: Group, from: PeerId, info: RouteInfo) {
    && info.peerId == from
    && (from in g.infos ==> g.infos[from].instId != info.instId || info.version > g.infos[from].version)
  }

  predicate NewRow(g: Group, me: PeerId, from: PeerId, row: PeerRow) {
    row.id == from && from != me && row.version > RowOf(g, from).version
  }

  lemma {:induction false} NewInfosAreClaimed(g: Group, from: PeerId, infos: seq<RouteInfo>, now: nat)
    ensures StoreInfos(g, from, infos, now).changed <==> exists i :: 0 <= i < |infos| && NewInfo(g, from, infos[i])
  {
    if infos != [] {
      var init := infos[..|infos| - 1];
      NewInfosAreClaimed(g, from, init, now);
      UnchangedInfos(g, from, init, now);
      assert forall i :: 0 <= i < |init| ==> infos[i] == init[i];
      assert forall i :: 0 <= i < |infos| && NewInfo(g, from, infos[i]) ==> i == |init| || NewInfo(g, from, init[i]);
    }
  }

  /** A request is reported as a change exactly if it brings something new: against the table before it, an info
      of another instance or a higher version, or a row of a higher version, of the sender's own. */
  lemma ReportedExactly(g: Group, me: PeerId, from: PeerId, req: SyncRequest, now: nat)
    requires req.peerId == from
    ensures Handle(g, me, from, req, now).1.Some?
    ensures Handle(g, me, from, req, now).1.value.routeChanged
       <==> || (exists i :: 0 <= i < |req.infos| && NewInfo(g, from, req.infos[i]))
            || (exists i :: 0 <= i < |Reported(req.conn)| && NewRow(g, me, from, Reported(req.conn)[i]))
  {
    var g1 := g.(sessions := g.sessions[from := Greeted(SessionOf(g, from), req.sessionId, req.isInitiator, now)]);
    NewInfosAreClaimed(g1, from, req.infos, now);
    assert forall info :: NewInfo(g1, from, info) <==> NewInfo(g, from, info);
    var g2 := StoreInfos(g1, from, req.infos, now).g;
    StoreInfosEffect(g1, from, req.infos, now);
    hide StoreInfos, StoreRows, Reported, FromReport, Greeted, NewInfo;
    StoreRowsEffect(g2, me, from, Reported(req.conn));
    if from != me {
      NewerRowsAreStored(g2, me, from, Reported(req.conn));
    }
  }

  // ----- sweeping

  lemma {:induction false} RemoveEachEffect(g: Group, me: PeerId, pids: seq<PeerId>)
    ensures var g' := RemoveEach(g, me, pids);
            && (forall p :: p in g'.peers <==> p in g.peers && p !in pids)
            && (forall p :: p in g'.infos ==> p in g.infos && g'.infos[p] == g.infos[p])
            && (forall p :: p in g'.sessions <==> p in g.sessions && p !in pids)
            && (forall p :: p in g'.sessions ==> g'.sessions[p].lastTouchMs == g.sessions[p].lastTouchMs)
  {
    if pids != [] {
      RemoveEachEffect(g, me, pids[..|pids| - 1]);
      assert pids == pids[..|pids| - 1] + [pids[|pids| - 1]];
    }
  }

  lemma PurgeEffect(g: Group, gone: set<PeerId>)
    ensures var g' := Purge(g, gone);
            && g'.peers == g.peers && g'.infos == g.infos - gone
            && g'.sessions.Keys == g.sessions.Keys
            && forall p :: p in g'.sessions ==> g'.sessions[p].lastTouchMs == g.sessions[p].lastTouchMs
  {
  }

  /** Heard within the last 90 s. */
  predicate HeardRecently(g: Group, pid: PeerId, now: nat) {
    pid in g.sessions && now <= g.sessions[pid].lastTouchMs + 90_000
  }

  /** An info lasts 90 s after it was reported, and up to 61 minutes while its peer is heard. */
  predicate Lasts(g: Group, pid: PeerId, now: nat)
    requires pid in g.infos
  {
    var at := g.infos[pid].lastUpdateSec;
    && at.Some?
    && var ms := (if at.value < 0 then 0 else at.value) * 1_000;
       now <= ms + 90_000 || (now <= ms + 3_660_000 && HeardRecently(g, pid, now))
  }

  lemma LastsUnlessOutdated(g: Group, pid: PeerId, now: nat)
    requires pid in g.infos
    ensures Lasts(g, pid, now) <==> !Outdated(g, pid, now)
  {
  }

  /** A sweep, exactly: the dead are the members not heard within 90 s; they go, with their infos; of the other
      infos those go that do not last; what stays is unchanged; and it says whether anything went. */
  lemma SweepIsSound(g: Group, me: PeerId, now: nat)
    ensures var r := Sweep(g, me, now);
            && (forall p :: p in r.dead <==> p in g.peers && !HeardRecently(g, p, now))
            && (forall p :: p in r.g.peers <==> p in g.peers && p !in r.dead)
            && (forall p :: p in r.g.infos <==> p in g.infos && p !in r.dead && Lasts(g, p, now))
            && (forall p :: p in r.g.infos ==> r.g.infos[p] == g.infos[p])
            && (forall p :: p in r.g.peers ==> HeardRecently(r.g, p, now))
            && (r.changed <==> r.g.peers != g.peers || r.g.infos.Keys != g.infos.Keys)
  {
    DeadAreMembers(g, now);
    var dead := Sorted(DeadPeers(g, now));
    RemoveEachEffect(g, me, dead);
    RemoveEachInfos(g, me, dead);
    var g1 := RemoveEach(g, me, dead);
    var gone := OutdatedInfos(g1, now);
    PurgeEffect(g1, gone);
    hide Sorted, RemoveEach, Purge;
    forall p | p in g1.infos
      ensures p in gone <==> !Lasts(g, p, now)
    {
      LastsUnlessOutdated(g1, p, now);
    }
    var r := Sweep(g, me, now);
    SweepSaysChange(g, r, g1, gone);
  }

  lemma SweepSaysChange(g: Group, r: Swept, g1: Group, gone: set<PeerId>)
    requires r.changed == (r.dead != [] || gone != {}) && gone <= g1.infos.Keys && r.g.infos == g1.infos - gone
    requires forall p :: p in r.dead ==> p in g.peers && p !in r.g.peers
    requires forall p :: p in r.g.peers <==> p in g.peers && p !in r.dead
    requires forall p :: p in g1.infos <==> p in g.infos && p !in r.dead
    ensures r.changed <==> r.g.peers != g.peers || r.g.infos.Keys != g.infos.Keys
  {
    if r.dead != [] {
      assert r.dead[0] in r.dead;
    } else {
      assert g1.infos.Keys == g.infos.Keys;
    }
  }

  lemma {:induction false} RemoveEachInfos(g: Group, me: PeerId, pids: seq<PeerId>)
    ensures forall p :: p in RemoveEach(g, me, pids).infos <==> p in g.infos && p !in pids
    ensures forall p :: p in RemoveEach(g, me, pids).sessions && p in g.peers && p !in pids ==> p in g.sessions
  {
    if pids != [] {
      RemoveEachInfos(g, me, pids[..|pids| - 1]);
      assert pids == pids[..|pids| - 1] + [pids[|pids| - 1]];
    }
  }

  /** When a peer was last heard of, as far as the table knows. */
  function LastTouch(g: Group, pid: PeerId): nat {
    if pid in g.sessions then g.sessions[pid].lastTouchMs else 0
  }

  /** Something received from the peer: its connection, a request, or a response. */
  predicate TrafficOf(ev: Event, pid: PeerId) {
    match ev
    case Join(p, now) => p == pid
    case Sync(from, req, now) => from == pid
    case Response(peer, sid, weAreInitiator, u, now) => peer == pid
    case _ => false
  }

  lemma {:induction false} StoreInfosTouches(g: Group, from: PeerId, infos: seq<RouteInfo>, now: nat, pid: PeerId)
    ensures LastTouch(StoreInfos(g, from, infos, now).g, pid) == LastTouch(g, pid)
  {
    if infos != [] {
      StoreInfosTouches(g, from, infos[..|infos| - 1], now, pid);
    }
  }

  /** Only received traffic makes a peer look alive; building updates for it does not. */
  lemma OnlyTrafficTouches(g: Group, me: PeerId, ev: Event, pid: PeerId)
    requires !TrafficOf(ev, pid)
    ensures LastTouch(Apply(g, me, ev), pid) <= LastTouch(g, pid)
  {
    match ev {
      case Join(p, now) =>
      case Leave(p) =>
      case SweepAt(now) =>
        RemoveEachEffect(g, me, Sorted(DeadPeers(g, now)));
        PurgeEffect(RemoveEach(g, me, Sorted(DeadPeers(g, now))),
                    OutdatedInfos(RemoveEach(g, me, Sorted(DeadPeers(g, now))), now));
      case Sync(from, req, now) =>
        hide StoreInfos, StoreRows, Reported, FromReport;
        var g1 := g.(sessions := g.sessions[from := Greeted(SessionOf(g, from), req.sessionId, req.isInitiator, now)]);
        StoreInfosTouches(g1, from, req.infos, now, pid);
        StoreRowsEffect(StoreInfos(g1, from, req.infos, now).g, me, from, Reported(req.conn));
      case Send(target, sid, forceFull, now) => BuildEffect(g, me, target, sid, forceFull, now);
      case Response(peer, sid, weAreInitiator, u, now) =>
      case MyInfo(details) =>
    }
  }

  lemma {:induction false} SilenceLasts(g: Group, me: PeerId, evs: seq<Event>, pid: PeerId)
    requires forall ev :: ev in evs ==> !TrafficOf(ev, pid)
    ensures LastTouch(Run(g, me, evs), pid) <= LastTouch(g, pid)
  {
    if evs != [] {
      SilenceLasts(g, me, evs[..|evs| - 1], pid);
      OnlyTrafficTouches(Run(g, me, evs[..|evs| - 1]), me, evs[|evs| - 1], pid);
    }
  }

  /** Completeness: a peer that stays silent is gone after the first sweep past 90 s, however many
      updates were built for it in the meantime. */
  lemma SilentPeersAreSwept(g: Group, me: PeerId, evs: seq<Event>, pid: PeerId, now: nat)
    requires forall ev :: ev in evs ==> !TrafficOf(ev, pid)
    requires now > LastTouch(g, pid) + 90_000
    ensures pid !in Apply(Run(g, me, evs), me, SweepAt(now)).peers
    ensures pid in Run(g, me, evs).peers ==> pid in Sweep(Run(g, me, evs), me, now).dead
  {
    SilenceLasts(g, me, evs, pid);
    SweepIsSound(Run(g, me, evs), me, now);
    hide Sweep, Run;
    assert !HeardRecently(Run(g, me, evs), pid, now);
  }

  function TimeOf(ev: Event): nat {
    match ev
    case Join(_, now) => now
    case Sync(_, _, now) => now
    case Response(_, _, _, _, now) => now
    case _ => 0
  }

  /** What one event does to the time a member was last heard. */
  lemma MemberTouched(g: Group, me: PeerId, ev: Event, pid: PeerId)
    requires pid in Apply(g, me, ev).peers
    ensures var g' := Apply(g, me, ev);
            || (pid in g.peers && LastTouch(g', pid) == LastTouch(g, pid))
            || (TrafficOf(ev, pid) && LastTouch(g', pid) == TimeOf(ev))
  {
    match ev {
      case Join(p, now) =>
      case Leave(p) =>
      case SweepAt(now) =>
        var dead := Sorted(DeadPeers(g, now));
        RemoveEachEffect(g, me, dead);
        PurgeEffect(RemoveEach(g, me, dead), OutdatedInfos(RemoveEach(g, me, dead), now));
      case Sync(from, req, now) =>
        hide StoreInfos, StoreRows, Reported, FromReport;
        var g1 := g.(sessions := g.sessions[from := Greeted(SessionOf(g, from), req.sessionId, req.isInitiator, now)]);
        StoreInfosTouches(g1, from, req.infos, now, pid);
        StoreInfosEffect(g1, from, req.infos, now);
        StoreRowsEffect(StoreInfos(g1, from, req.infos, now).g, me, from, Reported(req.conn));
      case Send(target, sid, forceFull, now) => BuildEffect(g, me, target, sid, forceFull, now);
      case Response(peer, sid, weAreInitiator, u, now) =>
      case MyInfo(details) =>
    }
  }

  ghost predicate HeardAt(evs: seq<Event>, pid: PeerId, time: nat) {
    exists i :: 0 <= i < |evs| && TrafficOf(evs[i], pid) && TimeOf(evs[i]) == time
  }

  lemma {:induction false} MembersWereHeard(me: PeerId, info: RouteInfo, evs: seq<Event>, pid: PeerId)
    requires pid in Run(NewGroup(info), me, evs).peers
    ensures HeardAt(evs, pid, LastTouch(Run(NewGroup(info), me, evs), pid))
  {
    if evs != [] {
      var init, ev := evs[..|evs| - 1], evs[|evs| - 1];
      var g := Run(NewGroup(info), me, init);
      MemberTouched(g, me, ev, pid);
      hide Apply, TrafficOf, LastTouch, TimeOf;
      if pid in g.peers && LastTouch(Run(NewGroup(info), me, evs), pid) == LastTouch(g, pid) {
        MembersWereHeard(me, info, init, pid);
        var i :| 0 <= i < |init| && TrafficOf(init[i], pid) && TimeOf(init[i]) == LastTouch(g, pid);
        assert TrafficOf(evs[i], pid);
      } else {
        assert TrafficOf(evs[|evs| - 1], pid);
      }
    }
  }

  /** Soundness over every run: whoever a sweep leaves was heard, by a connection, a request or a
      response of its own, within the last 90 s. */
  lemma SurvivorsWereHeard(me: PeerId, info: RouteInfo, evs: seq<Event>, now: nat, pid: PeerId)
    requires pid in Apply(Run(NewGroup(info), me, evs), me, SweepAt(now)).peers
    ensures exists i ::
              && 0 <= i < |evs| && TrafficOf(evs[i], pid)
              && now <= TimeOf(evs[i]) + 90_000
  {
    var g := Run(NewGroup(info), me, evs);
    SweepIsSound(g, me, now);
    hide Sweep, Run;
    MembersWereHeard(me, info, evs, pid);
    assert HeardRecently(g, pid, now);
    var i :| 0 <= i < |evs| && TrafficOf(evs[i], pid) && TimeOf(evs[i]) == LastTouch(g, pid);
  }
}
