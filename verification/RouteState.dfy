/** The route store as the program holds it: a map of networks to their tables, updated in place.
    Every method is shown to perform the table operation of the same name on its network and to
    leave the other networks alone. */
module RouteState {
  import opened Words
  import opened ConnBitmap
  import opened Ordered
  import opened RouteTable
  import opened RouteInvariants
  import T = RouteTable

  class RouteState {
    const me: PeerId
    const newInfo: RouteInfo
    var groups: map<string, Group>

    constructor (me: PeerId, newInfo: RouteInfo)
      ensures groups == map[]
    {
      this.me, this.newInfo := me, newInfo;
      groups := map[];
    }

    /** The table of a network, created on first use. */
    function GroupOf(network: string): Group
      reads this
    {
      if network in groups then groups[network] else NewGroup(newInfo)
    }

    method AddPeer(network: string, pid: PeerId, publicKeyLen: nat, now: nat) returns (ok: bool)
      modifies this
      ensures ok <==> publicKeyLen == 0 || publicKeyLen == 32
      ensures groups == if ok then old(groups)[network := T.AddPeer(old(GroupOf(network)), me, pid, now)]
          else old(groups)
    {
      if publicKeyLen != 0 && publicKeyLen != 32 {
        return false;
      }
      var g := GroupOf(network);
      g := g.(sessions := g.sessions[pid := SessionOf(g, pid).(lastTouchMs := now)]);
      var isNew := pid !in g.peers;
      g := g.(peers := g.peers + {pid});
      if isNew {
        g := UpdateMyConnRow(g, me);
        g := NoteTopologyChange(g);
      } else {
        assert GroupOf(network).peers + {pid} == GroupOf(network).peers;
      }
      groups := groups[network := g];
      return true;
    }

    method RemovePeer(network: string, pid: PeerId)
      modifies this
      ensures groups == old(groups)[network := T.RemovePeer(old(GroupOf(network)), me, pid)]
    {
      var g := GroupOf(network);
      var wasPresent, hadInfo := pid in g.peers, pid in g.infos;
      g := g.(peers := g.peers - {pid}, infos := g.infos - {pid});
      g := g.(sessions := g.sessions - {pid}, rows := g.rows - {pid});
      g := g.(sessions := map t | t in g.sessions ::
                            g.sessions[t].(saved := g.sessions[t].saved - {pid}, lastTopologyVersion := 0));
      if wasPresent || hadInfo {
        g := UpdateMyConnRow(g, me);
        g := NoteTopologyChange(g);
      }
      groups := groups[network := g];
    }

    /** First pass: whole removal of every silent member. */
    method RemoveDead(network: string, dead: seq<PeerId>)
      requires network in groups
      modifies this
      ensures groups == old(groups)[network := RemoveEach(old(groups)[network], me, dead)]
    {
      hide T.RemovePeer;
      for i := 0 to |dead|
        invariant groups == old(groups)[network := RemoveEach(old(groups)[network], me, dead[..i])]
      {
        assert dead[..i + 1][..i] == dead[..i];
        RemovePeer(network, dead[i]);
      }
      assert dead[..|dead|] == dead;
    }

    /** Second pass: the infos, rows and records of every outdated entry. */
    method PurgeInfos(g: Group, purge: set<PeerId>) returns (r: Group)
      ensures r == Purge(g, purge)
    {
      r := g;
      assert r == PurgedBy(g, {});
      if purge == {} {
        return;
      }
      var rest := purge;
      ghost var done: set<PeerId> := {};
      hide PurgedBy, Forgetting;
      while rest != {}
        invariant done == purge - rest && rest <= purge
        invariant r == PurgedBy(g, done)
        decreases |rest|
      {
        var pid :| pid in rest;
        PurgeOneMore(g, done, pid);
        r := r.(infos := r.infos - {pid}, rows := r.rows - {pid}, sessions := Forgetting(r.sessions, {pid}));
        rest, done := rest - {pid}, done + {pid};
      }
      assert done == purge;
      PurgedAll(g, purge);
      r := NoteTopologyChange(r);
    }

    method SweepGroup(network: string, now: nat) returns (dead: seq<PeerId>, changed: bool)
      requires network in groups
      modifies this
      ensures var swept := Sweep(old(groups)[network], me, now);
              groups == old(groups)[network := swept.g] && dead == swept.dead && changed == swept.changed
    {
      hide RemoveEach, Outdated, Purge, Sorted;
      var g := groups[network];
      dead := Sorted(set pid | pid in g.peers && Silent(g, pid, now));
      RemoveDead(network, dead);
      changed := dead != [];
      g := groups[network];
      var purge := OutdatedInfos(g, now);
      var purged := PurgeInfos(g, purge);
      groups := groups[network := purged];
      changed := changed || purge != {};
    }

    /** The periodic sweep over all networks: which ones changed, and who is dead where. */
    method SweepExpiredRouteInfo(now: nat) returns (changedNetworks: set<string>, deadPeers: set<(string, PeerId)>)
      modifies this
      ensures groups == map k | k in old(groups) :: Sweep(old(groups)[k], me, now).g
      ensures forall k :: k in changedNetworks <==> k in old(groups) && Sweep(old(groups)[k], me, now).changed
      ensures forall k, pid :: (k, pid) in deadPeers <==> k in old(groups) && pid in Sweep(old(groups)[k], me, now).dead
    {
      hide Sweep;
      changedNetworks, deadPeers := {}, {};
      var rest := groups.Keys;
      ghost var start := groups;
      while rest != {}
        invariant rest <= start.Keys && groups.Keys == start.Keys
        invariant forall k :: k in rest ==> groups[k] == start[k]
        invariant forall k :: k in start && k !in rest ==> groups[k] == Sweep(start[k], me, now).g
        invariant forall k :: k in changedNetworks <==> k in start && k !in rest && Sweep(start[k], me, now).changed
        invariant forall k, pid :: (k, pid) in deadPeers <==>
                  k in start && k !in rest && pid in Sweep(start[k], me, now).dead
        decreases |rest|
      {
        var network :| network in rest;
        var dead, changed := SweepGroup(network, now);
        deadPeers := deadPeers + set pid | pid in dead :: (network, pid);
        if changed {
          changedNetworks := changedNetworks + {network};
        }
        rest := rest - {network};
      }
    }

    method OnRouteSessionAck(network: string, pid: PeerId, theirSessionId: u64, weAreInitiator: bool, now: nat)
      modifies this
      ensures groups == old(groups)[network :=
                                    SessionAck(old(GroupOf(network)), pid, theirSessionId, weAreInitiator, now)]
    {
      var g := GroupOf(network);
      var s := SessionOf(g, pid);
      if s.dstSessionId != Some(theirSessionId) {
        s := s.(saved := map[], lastTopologyVersion := 0);
      }
      s := s.(dstSessionId := Some(theirSessionId), weAreInitiator := weAreInitiator, lastTouchMs := now);
      groups := groups[network := g.(sessions := g.sessions[pid := s])];
    }

    method CommitRouteUpdate(network: string, pid: PeerId, versions: seq<PeerVersion>, topologyVersion: Option<u64>,
                             now: nat)
      modifies this
      ensures groups == old(groups)[network := CommitUpdate(old(GroupOf(network)), pid, versions, topologyVersion, now)]
    {
      var g := GroupOf(network);
      var s := SessionOf(g, pid);
      var saved := s.saved;
      for i := 0 to |versions|
        invariant saved == SaveVersions(s.saved, versions[..i], now)
      {
        assert versions[..i + 1][..i] == versions[..i];
        var v := versions[i];
        if v.id in saved {
          saved := saved[v.id := SavedVersion(Max(saved[v.id].version, v.version), now)];
        } else {
          saved := saved[v.id := SavedVersion(v.version, now)];
        }
      }
      assert versions[..|versions|] == versions;
      var s' := s.(saved := saved);
      if topologyVersion.Some? {
        s' := s'.(lastTopologyVersion := Max(s.lastTopologyVersion, topologyVersion.value), lastTopologyTouchMs := now);
      }
      s' := s'.(lastTouchMs := now);
      groups := groups[network := g.(sessions := g.sessions[pid := s'])];
    }

    /** Which infos go into an update, in ascending order of their peers. */
    method SelectInfos(g: Group, relevant: seq<PeerId>, target: PeerId, session: Session, full: bool, now: nat)
      returns (infos: seq<RouteInfo>, versions: seq<PeerVersion>)
      ensures infos == InfosFor(g, me, Picked(g, me, session, target, full, now, relevant))
      ensures versions == VersionsFor(g, me, Picked(g, me, session, target, full, now, relevant))
    {
      infos, versions := [], [];
      for i := 0 to |relevant|
        invariant infos == InfosFor(g, me, Picked(g, me, session, target, full, now, relevant[..i]))
        invariant versions == VersionsFor(g, me, Picked(g, me, session, target, full, now, relevant[..i]))
      {
        assert relevant[..i + 1][..i] == relevant[..i];
        ghost var before := Picked(g, me, session, target, full, now, relevant[..i]);
        var pid := relevant[i];
        var info := InfoOf(g, me, pid);
        if pid != target && info.Some? {
          var version := Normal(info.value);
          var previous := if full then 0 else SavedFor(session, pid, now);
          if full || version > previous {
            assert Picked(g, me, session, target, full, now, relevant[..i + 1]) == before + [pid];
            versions := versions + [PeerVersion(pid, version)];
            infos := infos + [info.value];
          }
        }
      }
      assert relevant[..|relevant|] == relevant;
    }

    method BuildConnInfo(g: Group, relevant: seq<PeerId>, target: PeerId, list: bool, now: nat)
        returns (r: Group, conn: BuiltConn)
      requires forall i, j :: 0 <= i < j < |relevant| ==> relevant[i] != relevant[j]
      ensures (r, conn) == BuildConn(g, relevant, target, list, now)
    {
      r := g;
      if relevant == [] {
        return g, Withheld;
      }
      var v := g.topologyVersion;
      if target in g.sessions && TopologyAcked(g.sessions[target], v, now) {
        return g, Withheld;
      }
      if list {
        if g.cachedList.Some? && g.cachedList.value.0 == v {
          return g, Included(ConnPeerList(g.cachedList.value.1));
        }
      } else if g.cachedBitmap.Some? && g.cachedBitmap.value.0 == v {
        return g, Included(ConnBitmap(g.cachedBitmap.value.1));
      }
      var rows := RowsFor(g, relevant);
      if list {
        r := g.(cachedList := Some((v, rows)));
        return r, Included(ConnPeerList(rows));
      }
      if |relevant| > MAX_LEGACY_BITMAP_PEERS {
        return g, TooLarge;
      }
      var bitmap := Encode(rows);
      var m := BitmapMsg(Versions(rows), bitmap[..]);
      r := g.(cachedBitmap := Some((v, m)));
      return r, Included(ConnBitmap(m));
    }

    method BuildSyncRouteInfoRequest(network: string, target: PeerId, serverSessionId: u64, forceFull: bool, now: nat)
        returns (u: Option<Update>)
      modifies this
      ensures (groups, u)
              == (old(groups)[network := Build(old(GroupOf(network)), me, target, serverSessionId, forceFull, now).0],
                              Build(old(GroupOf(network)), me, target, serverSessionId, forceFull, now).1)
    {
      var g := GroupOf(network);
      var session := SessionOf(g, target).(mySessionId := Some(serverSessionId));
      var g1 := g.(sessions := g.sessions[target := session]);
      var full := forceFull || session.dstSessionId.None?;
      var relevant := Sorted(g.peers + g.infos.Keys + g.rows.Keys + {me} + {target});
      SortedIsSorted(Known(g, me) + {target});
      hide Sorted, Picked, BuildConn;
      var infos, versions := SelectInfos(g, relevant, target, session, full, now);
      var list := target in g.infos && g.infos[target].supportsConnList;
      var g2, conn := BuildConnInfo(g1, relevant, target, list, now);
      groups := groups[network := g2];
      if conn.TooLarge? {
        return None;
      }
      return Some(Update(infos, versions,
                         if conn.Withheld? then None else Some(conn.conn),
                         if conn.Withheld? then None else Some(g.topologyVersion)));
    }

    method StoreReportedInfos(g: Group, from: PeerId, infos: seq<RouteInfo>, now: nat) returns (r: Stored)
      ensures r == StoreInfos(g, from, infos, now)
    {
      r := Stored(g, false, false);
      for i := 0 to |infos|
        invariant r == StoreInfos(g, from, infos[..i], now)
      {
        assert infos[..i + 1][..i] == infos[..i];
        var info := infos[i];
        if info.peerId == from {
          var isNew := from !in r.g.infos;
          var instanceChanged := from in r.g.infos && r.g.infos[from].instId != info.instId;
          if instanceChanged || from !in r.g.infos || info.version > r.g.infos[from].version {
            var sessions := r.g.sessions;
            if instanceChanged {
              sessions := map t | t in sessions :: sessions[t].(saved := sessions[t].saved - {from});
            }
            r := Stored(r.g.(infos := r.g.infos[from := info.(lastUpdateSec := Some(now / 1_000))],
                             sessions := sessions),
                        true, r.isNew || isNew);
          }
        }
      }
      assert infos[..|infos|] == infos;
    }

    /** The rows a message reports; a bitmap is read bit by bit. */
    method ReadRows(conn: Option<ReceivedConn>) returns (rows: seq<PeerRow>)
      ensures rows == Reported(conn)
    {
      if conn.None? {
        return [];
      }
      match conn.value
      case ReceivedList(list) =>
        rows := [];
        for i := 0 to |list|
          invariant rows == Named(list[..i])
        {
          assert list[..i + 1][..i] == list[..i];
          if list[i].peer.Some? {
            var peer := list[i].peer.value;
            rows := rows + [PeerRow(peer.id, peer.version, Elements(list[i].neighbours))];
          }
        }
        assert list[..|list|] == list;
      case ReceivedMatrix(m) =>
        var neighbours := Decode(PeerIds(m.peers), m.bitmap);
        rows := seq(|m.peers|, i requires 0 <= i < |m.peers| && i < |neighbours| =>
                      PeerRow(m.peers[i].id, m.peers[i].version, neighbours[i]));
    }

    method StoreConnRows(g: Group, conn: Option<ReceivedConn>, from: PeerId) returns (r: Group, changed: bool)
      ensures (r, changed) == StoreRows(g, me, from, Reported(conn))
      ensures r == g.(rows := r.rows) && (!changed ==> r == g)
      ensures changed ==> RowOf(r, from).version > RowOf(g, from).version && FromReport(r, me, from, Reported(conn))
      ensures from != me ==> forall i :: 0 <= i < |Reported(conn)| && Reported(conn)[i].id == from ==>
                RowOf(r, from).version >= Reported(conn)[i].version
    {
      hide Reported, FromReport;
      StoreRowsEffect(g, me, from, Reported(conn));
      if from != me {
        NewerRowsAreStored(g, me, from, Reported(conn));
      }
      r, changed := g, false;
      var rows := ReadRows(conn);
      for i := 0 to |rows|
        invariant (r, changed) == StoreRows(g, me, from, rows[..i])
      {
        assert rows[..i + 1][..i] == rows[..i];
        var row := rows[i];
        if row.id == from && row.id != me && row.version != 0 {
          var known := set n | n in row.connected && (n == me || n in r.peers || n in r.infos);
          if row.version > RowOf(r, row.id).version {
            r := r.(rows := r.rows[row.id := ConnRow(row.version, known)]);
            changed := true;
          }
        }
      }
      assert rows[..|rows|] == rows;
    }

    method HandleSyncRouteInfoRequest(network: string, from: PeerId, req: SyncRequest, now: nat)
        returns (outcome: Option<Outcome>)
      modifies this
      ensures outcome == Handle(old(GroupOf(network)), me, from, req, now).1
      ensures groups == if outcome.None? then old(groups)
                        else old(groups)[network := Handle(old(GroupOf(network)), me, from, req, now).0]
    {
      hide StoreInfos, StoreRows, Reported;
      if req.peerId != from {
        return None;
      }
      var g := GroupOf(network);
      var s := SessionOf(g, from);
      var session := s.(lastTouchMs := now);
      var sessionChanged := session.dstSessionId != Some(req.sessionId);
      if sessionChanged {
        session := session.(saved := map[], lastTopologyVersion := 0);
      }
      session := session.(dstSessionId := Some(req.sessionId), weAreInitiator := !req.isInitiator);
      g := g.(sessions := g.sessions[from := session]);
      assert session == Greeted(s, req.sessionId, req.isInitiator, now);
      var stored := StoreReportedInfos(g, from, req.infos, now);
      var g3, rowsChanged := StoreConnRows(stored.g, req.conn, from);
      if stored.isNew || rowsChanged {
        g3 := NoteTopologyChange(g3);
      }
      groups := groups[network := g3];
      return Some(Outcome(if s.mySessionId.Some? then s.mySessionId.value else 1,
                          stored.changed || rowsChanged,
                          sessionChanged));
    }

    method GetNextHop(network: string, target: PeerId) returns (hop: Option<PeerId>)
      ensures hop.Some? <==> network in groups && target in groups[network].peers
      ensures hop.Some? ==> hop.value == target
    {
      if network !in groups || target !in groups[network].peers {
        return None;
      }
      return Some(target);
    }
  }

  /** A table in the middle of the second pass. */
  function PurgedBy(g: Group, done: set<PeerId>): Group {
    if done == {} then g
    else g.(infos := g.infos - done, rows := g.rows - done, sessions := Forgetting(g.sessions, done))
  }

  lemma PurgeOneMore(g: Group, done: set<PeerId>, pid: PeerId)
    ensures var r := PurgedBy(g, done);
            r.(infos := r.infos - {pid}, rows := r.rows - {pid}, sessions := Forgetting(r.sessions, {pid}))
                == PurgedBy(g, done + {pid})
  {
    var r := PurgedBy(g, done);
    assert r.infos - {pid} == g.infos - (done + {pid}) && r.rows - {pid} == g.rows - (done + {pid});
    forall t | t in g.sessions
      ensures Forgetting(r.sessions, {pid})[t] == Forgetting(g.sessions, done + {pid})[t]
    {
      assert (if done == {} then g.sessions[t].saved else g.sessions[t].saved - done) - {pid}
          == g.sessions[t].saved - (done + {pid});
    }
    assert Forgetting(r.sessions, {pid}) == Forgetting(g.sessions, done + {pid});
  }

  lemma PurgedAll(g: Group, purge: set<PeerId>)
    requires purge != {}
    ensures NoteTopologyChange(PurgedBy(g, purge)) == Purge(g, purge)
  {
  }
}
