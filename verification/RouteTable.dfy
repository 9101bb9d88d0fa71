/** The link-state route table of one network, as a value, and what each operation does to it. */
module RouteTable {
  import opened Words
  import opened ConnBitmap
  import opened Ordered

  const MAX_LEGACY_BITMAP_PEERS: nat := 8_192
  const SAVED_ROUTE_VERSION_TTL_MS: nat := 60_000
  const REMOVE_UNREACHABLE_PEER_INFO_AFTER_MS: nat := 90_000
  const REMOVE_DEAD_PEER_INFO_AFTER_MS: nat := 3_660_000

  /** What a peer reports of itself. `details` stands for the fields the table only passes on. */
  datatype RouteInfo = RouteInfo(
    peerId: PeerId,
    instId: Option<int>,
    version: u32,
    lastUpdateSec: Option<int>,
    supportsConnList: bool,
    details: int)

  datatype ConnRow = ConnRow(version: u32, connected: set<PeerId>)

  const NO_ROW := ConnRow(0, {})

  datatype SavedVersion = SavedVersion(version: u32, touchedAtMs: nat)

  datatype Session = Session(
    mySessionId: Option<u64>,
    dstSessionId: Option<u64>,
    weAreInitiator: bool,
    saved: map<PeerId, SavedVersion>,
    lastTouchMs: nat,
    lastTopologyVersion: u64,
    lastTopologyTouchMs: nat)

  const NEW_SESSION := Session(None, None, false, map[], 0, 0, 0)

  datatype Group = Group(
    peers: set<PeerId>,
    infos: map<PeerId, RouteInfo>,
    sessions: map<PeerId, Session>,
    rows: map<PeerId, ConnRow>,
    topologyVersion: u64,
    cachedBitmap: Option<(u64, BitmapMsg)>,
    cachedList: Option<(u64, seq<PeerRow>)>,
    myInfo: RouteInfo,
    myInfoVersion: u32)

  datatype ConnInfo = ConnPeerList(rows: seq<PeerRow>) | ConnBitmap(matrix: BitmapMsg)

  /** A built update: the infos it carries with their versions, and the connections if not withheld. */
  datatype Update = Update(infos: seq<RouteInfo>, versions: seq<PeerVersion>, conn: Option<ConnInfo>,
                           topologyVersion: Option<u64>)

  /** A row of a received list, whose peer may be missing. */
  datatype ListedRow = ListedRow(peer: Option<PeerVersion>, neighbours: seq<PeerId>)

  datatype ReceivedConn = ReceivedList(rows: seq<ListedRow>) | ReceivedMatrix(matrix: BitmapMsg)

  datatype SyncRequest = SyncRequest(
    peerId: PeerId,
    sessionId: u64,
    isInitiator: bool,
    infos: seq<RouteInfo>,
    conn: Option<ReceivedConn>)

  datatype Outcome = Outcome(sessionId: u64, routeChanged: bool, sessionChanged: bool)

  function NewGroup(myInfo: RouteInfo): Group {
    Group({}, map[], map[], map[], 1, None, None, myInfo.(version := 1), 1)
  }

  function SessionOf(g: Group, pid: PeerId): Session {
    if pid in g.sessions then g.sessions[pid] else NEW_SESSION
  }

  function RowOf(g: Group, pid: PeerId): ConnRow {
    if pid in g.rows then g.rows[pid] else NO_ROW
  }

  // ----- topology changes

  function NextTopology(v: u64): u64 {
    if v == U64_MAX then 1 else v + 1
  }

  function NoteTopologyChange(g: Group): Group {
    g.(topologyVersion := NextTopology(g.topologyVersion), cachedBitmap := None, cachedList := None)
  }

  function UpdateMyConnRow(g: Group, me: PeerId): Group {
    var row := RowOf(g, me);
    g.(rows := g.rows[me := if row.connected == g.peers then row else ConnRow(WrapInc32(row.version), g.peers)])
  }

  function AddPeer(g: Group, me: PeerId, pid: PeerId, now: nat): Group {
    var touched := g.(sessions := g.sessions[pid := SessionOf(g, pid).(lastTouchMs := now)]);
    if pid in g.peers then touched
    else NoteTopologyChange(UpdateMyConnRow(touched.(peers := g.peers + {pid}), me))
  }

  /** Every session forgets these peers' versions and any acknowledged topology. */
  function Forgetting(sessions: map<PeerId, Session>, gone: set<PeerId>): map<PeerId, Session> {
    map t | t in sessions :: sessions[t].(saved := sessions[t].saved - gone, lastTopologyVersion := 0)
  }

  function RemovePeer(g: Group, me: PeerId, pid: PeerId): Group {
    var removed := g.(peers := g.peers - {pid}, infos := g.infos - {pid}, rows := g.rows - {pid},
                      sessions := Forgetting(g.sessions - {pid}, {pid}));
    if pid in g.peers || pid in g.infos then NoteTopologyChange(UpdateMyConnRow(removed, me)) else removed
  }

  // ----- sweeping

  predicate Silent(g: Group, pid: PeerId, now: nat) {
    !(pid in g.sessions && SatSub(now, g.sessions[pid].lastTouchMs) <= REMOVE_UNREACHABLE_PEER_INFO_AFTER_MS)
  }

  function Age(info: RouteInfo, now: nat): nat {
    if info.lastUpdateSec.None? then U64_MAX
    else SatSub(now, (if info.lastUpdateSec.value < 0 then 0 else info.lastUpdateSec.value) * 1_000)
  }

  predicate Outdated(g: Group, pid: PeerId, now: nat)
    requires pid in g.infos
  {
    var age := Age(g.infos[pid], now);
    age > REMOVE_UNREACHABLE_PEER_INFO_AFTER_MS && (age > REMOVE_DEAD_PEER_INFO_AFTER_MS || Silent(g, pid, now))
  }

  function RemoveEach(g: Group, me: PeerId, pids: seq<PeerId>): Group {
    if pids == [] then g else RemovePeer(RemoveEach(g, me, pids[..|pids| - 1]), me, pids[|pids| - 1])
  }

  function DeadPeers(g: Group, now: nat): set<PeerId> {
    set pid | pid in g.peers && Silent(g, pid, now)
  }

  function OutdatedInfos(g: Group, now: nat): set<PeerId> {
    set pid | pid in g.infos && Outdated(g, pid, now)
  }

  function Purge(g: Group, gone: set<PeerId>): Group {
    if gone == {} then g
    else NoteTopologyChange(g.(infos := g.infos - gone, rows := g.rows - gone,
                               sessions := Forgetting(g.sessions, gone)))
  }

  datatype Swept = Swept(g: Group, dead: seq<PeerId>, changed: bool)

  function Sweep(g: Group, me: PeerId, now: nat): Swept {
    var dead := Sorted(DeadPeers(g, now));
    var g1 := RemoveEach(g, me, dead);
    var gone := OutdatedInfos(g1, now);
    Swept(Purge(g1, gone), dead, dead != [] || gone != {})
  }

  // ----- acknowledgements

  function SessionAck(g: Group, pid: PeerId, sid: u64, weAreInitiator: bool, now: nat): Group {
    var s := SessionOf(g, pid);
    var kept := if s.dstSessionId == Some(sid) then s else s.(saved := map[], lastTopologyVersion := 0);
    g.(sessions := g.sessions[pid :=
                              kept.(dstSessionId := Some(sid), weAreInitiator := weAreInitiator, lastTouchMs := now)])
  }

  function SaveVersion(saved: map<PeerId, SavedVersion>, v: PeerVersion, now: nat): map<PeerId, SavedVersion> {
    saved[v.id := SavedVersion(if v.id in saved then Max(saved[v.id].version, v.version) else v.version, now)]
  }

  function SaveVersions(saved: map<PeerId, SavedVersion>, versions: seq<PeerVersion>, now: nat)
    : map<PeerId, SavedVersion>
  {
    if versions == [] then saved
    else SaveVersion(SaveVersions(saved, versions[..|versions| - 1], now), versions[|versions| - 1], now)
  }

  function Committed(s: Session, versions: seq<PeerVersion>, topologyVersion: Option<u64>, now: nat): Session {
    var s1 := s.(saved := SaveVersions(s.saved, versions, now), lastTouchMs := now);
    if topologyVersion.None? then s1
    else s1.(lastTopologyVersion := Max(s.lastTopologyVersion, topologyVersion.value), lastTopologyTouchMs := now)
  }

  function CommitUpdate(g: Group, pid: PeerId, versions: seq<PeerVersion>, topologyVersion: Option<u64>, now: nat)
    : Group
  {
    g.(sessions := g.sessions[pid := Committed(SessionOf(g, pid), versions, topologyVersion, now)])
  }

  /** A response: the session is acknowledged, then what the update carried. */
  function Acknowledge(g: Group, pid: PeerId, sid: u64, weAreInitiator: bool, u: Update, now: nat): Group {
    CommitUpdate(SessionAck(g, pid, sid, weAreInitiator, now), pid, u.versions, u.topologyVersion, now)
  }

  // ----- building an update

  /** Every peer the table knows anything of, the relay included. */
  function Known(g: Group, me: PeerId): set<PeerId> {
    g.peers + g.infos.Keys + g.rows.Keys + {me}
  }

  function InfoOf(g: Group, me: PeerId, pid: PeerId): Option<RouteInfo> {
    if pid == me then Some(g.myInfo) else if pid in g.infos then Some(g.infos[pid]) else None
  }

  function Normal(info: RouteInfo): u32 {
    if info.version == 0 then 1 else info.version
  }

  predicate FreshVersion(saved: SavedVersion, now: nat) {
    SatSub(now, saved.touchedAtMs) < SAVED_ROUTE_VERSION_TTL_MS
  }

  function SavedFor(s: Session, pid: PeerId, now: nat): nat {
    if pid in s.saved && FreshVersion(s.saved[pid], now) then s.saved[pid].version else 0
  }

  predicate Picks(g: Group, me: PeerId, s: Session, target: PeerId, full: bool, now: nat, pid: PeerId) {
    pid != target && InfoOf(g, me, pid).Some?
    && (full || Normal(InfoOf(g, me, pid).value) > SavedFor(s, pid, now))
  }

  function Picked(g: Group, me: PeerId, s: Session, target: PeerId, full: bool, now: nat, pids: seq<PeerId>)
    : (r: seq<PeerId>)
    ensures forall pid :: pid in r <==> pid in pids && Picks(g, me, s, target, full, now, pid)
  {
    if pids == [] then []
    else
      var rest := Picked(g, me, s, target, full, now, pids[..|pids| - 1]);
      var last := pids[|pids| - 1];
      assert pids == pids[..|pids| - 1] + [last];
      if Picks(g, me, s, target, full, now, last) then rest + [last] else rest
  }

  function RowsFor(g: Group, pids: seq<PeerId>): seq<PeerRow> {
    seq(|pids|, i requires 0 <= i < |pids| => PeerRow(pids[i], RowOf(g, pids[i]).version, RowOf(g, pids[i]).connected))
  }

  function Versions(rows: seq<PeerRow>): seq<PeerVersion> {
    seq(|rows|, i requires 0 <= i < |rows| => PeerVersion(rows[i].id, rows[i].version))
  }

  function MatrixOf(rows: seq<PeerRow>): BitmapMsg {
    BitmapMsg(Versions(rows), Matrix(rows))
  }

  predicate TopologyAcked(s: Session, version: u64, now: nat) {
    s.lastTopologyVersion == version && SatSub(now, s.lastTopologyTouchMs) < SAVED_ROUTE_VERSION_TTL_MS
  }

  datatype BuiltConn = Withheld | Included(conn: ConnInfo) | TooLarge

  function BuildConn(g: Group, relevant: seq<PeerId>, target: PeerId, list: bool, now: nat): (Group, BuiltConn) {
    var v := g.topologyVersion;
    if relevant == [] || (target in g.sessions && TopologyAcked(g.sessions[target], v, now)) then (g, Withheld)
    else if list && g.cachedList.Some? && g.cachedList.value.0 == v
    then (g, Included(ConnPeerList(g.cachedList.value.1)))
    else if !list && g.cachedBitmap.Some? && g.cachedBitmap.value.0 == v
    then (g, Included(ConnBitmap(g.cachedBitmap.value.1)))
    else
      var rows := RowsFor(g, relevant);
      if list then (g.(cachedList := Some((v, rows))), Included(ConnPeerList(rows)))
      else if |relevant| > MAX_LEGACY_BITMAP_PEERS then (g, TooLarge)
      else (g.(cachedBitmap := Some((v, MatrixOf(rows)))), Included(ConnBitmap(MatrixOf(rows))))
  }

  function InfosFor(g: Group, me: PeerId, picked: seq<PeerId>): seq<RouteInfo>
    requires forall pid :: pid in picked ==> InfoOf(g, me, pid).Some?
  {
    seq(|picked|, i requires 0 <= i < |picked| => assert picked[i] in picked; InfoOf(g, me, picked[i]).value)
  }

  function VersionsFor(g: Group, me: PeerId, picked: seq<PeerId>): seq<PeerVersion>
    requires forall pid :: pid in picked ==> InfoOf(g, me, pid).Some?
  {
    seq(|picked|, i requires 0 <= i < |picked| =>
      assert picked[i] in picked; PeerVersion(picked[i], Normal(InfoOf(g, me, picked[i]).value)))
  }

  function Build(g: Group, me: PeerId, target: PeerId, sid: u64, forceFull: bool, now: nat): (Group, Option<Update>) {
    var s := SessionOf(g, target).(mySessionId := Some(sid));
    var g1 := g.(sessions := g.sessions[target := s]);
    var full := forceFull || s.dstSessionId.None?;
    var relevant := Sorted(Known(g, me) + {target});
    var picked := Picked(g, me, s, target, full, now, relevant);
    var list := target in g.infos && g.infos[target].supportsConnList;
    var (g2, conn) := BuildConn(g1, relevant, target, list, now);
    if conn.TooLarge? then (g2, None)
    else
      (g2, Some(Update(
        InfosFor(g, me, picked),
        VersionsFor(g, me, picked),
        if conn.Withheld? then None else Some(conn.conn),
        if conn.Withheld? then None else Some(g.topologyVersion))))
  }

  // ----- handling a request

  function ForgetVersion(sessions: map<PeerId, Session>, pid: PeerId): map<PeerId, Session> {
    map t | t in sessions :: sessions[t].(saved := sessions[t].saved - {pid})
  }

  /** The table, whether a route changed, and whether the peer is new to the table. */
  datatype Stored = Stored(g: Group, changed: bool, isNew: bool)

  predicate Supersedes(g: Group, info: RouteInfo) {
    info.peerId !in g.infos || g.infos[info.peerId].instId != info.instId || info.version > g.infos[info.peerId].version
  }

  function StoreInfo(g: Group, from: PeerId, info: RouteInfo, now: nat): Stored {
    if info.peerId != from || !Supersedes(g, info) then Stored(g, false, false)
    else
      var replaced := from in g.infos && g.infos[from].instId != info.instId;
      Stored(g.(infos := g.infos[from := info.(lastUpdateSec := Some(now / 1_000))],
                sessions := if replaced then ForgetVersion(g.sessions, from) else g.sessions),
             true, from !in g.infos)
  }

  function StoreInfos(g: Group, from: PeerId, infos: seq<RouteInfo>, now: nat): Stored {
    if infos == [] then Stored(g, false, false)
    else
      var before := StoreInfos(g, from, infos[..|infos| - 1], now);
      var one := StoreInfo(before.g, from, infos[|infos| - 1], now);
      Stored(one.g, before.changed || one.changed, before.isNew || one.isNew)
  }

  function KnownNeighbours(g: Group, me: PeerId, connected: set<PeerId>): set<PeerId> {
    set n | n in connected && (n == me || n in g.peers || n in g.infos)
  }

  predicate AcceptsRow(g: Group, me: PeerId, from: PeerId, row: PeerRow) {
    row.id == from && row.id != me && row.version > RowOf(g, row.id).version
  }

  function StoreRow(g: Group, me: PeerId, from: PeerId, row: PeerRow): Group {
    if AcceptsRow(g, me, from, row)
    then g.(rows := g.rows[row.id := ConnRow(row.version, KnownNeighbours(g, me, row.connected))])
    else g
  }

  function StoreRows(g: Group, me: PeerId, from: PeerId, reported: seq<PeerRow>): (Group, bool) {
    if reported == [] then (g, false)
    else
      var (before, changed) := StoreRows(g, me, from, reported[..|reported| - 1]);
      var row := reported[|reported| - 1];
      (StoreRow(before, me, from, row), changed || AcceptsRow(before, me, from, row))
  }

  function PeerIds(peers: seq<PeerVersion>): seq<PeerId> {
    seq(|peers|, i requires 0 <= i < |peers| => peers[i].id)
  }

  function Elements(ids: seq<PeerId>): set<PeerId> {
    set n | n in ids
  }

  /** The rows of a list that name their peer; the others are skipped. */
  function Named(rows: seq<ListedRow>): seq<PeerRow> {
    if rows == [] then []
    else
      var before, row := Named(rows[..|rows| - 1]), rows[|rows| - 1];
      if row.peer.None? then before
      else before + [PeerRow(row.peer.value.id, row.peer.value.version, Elements(row.neighbours))]
  }

  /** The rows a message reports, whichever encoding it uses. */
  function Reported(conn: Option<ReceivedConn>): seq<PeerRow> {
    if conn.None? then []
    else match conn.value
      case ReceivedList(rows) => Named(rows)
      case ReceivedMatrix(m) =>
        seq(|m.peers|, i requires 0 <= i < |m.peers| =>
          PeerRow(m.peers[i].id, m.peers[i].version, DecodedRow(PeerIds(m.peers), m.bitmap, i)))
  }

  function Greeted(s: Session, sid: u64, isInitiator: bool, now: nat): Session {
    var kept := if s.dstSessionId == Some(sid) then s else s.(saved := map[], lastTopologyVersion := 0);
    kept.(lastTouchMs := now, dstSessionId := Some(sid), weAreInitiator := !isInitiator)
  }

  function Handle(g: Group, me: PeerId, from: PeerId, req: SyncRequest, now: nat): (Group, Option<Outcome>) {
    if req.peerId != from then (g, None)
    else
      var s := SessionOf(g, from);
      var g1 := g.(sessions := g.sessions[from := Greeted(s, req.sessionId, req.isInitiator, now)]);
      var infos := StoreInfos(g1, from, req.infos, now);
      var (g3, rowsChanged) := StoreRows(infos.g, me, from, Reported(req.conn));
      var g4 := if infos.isNew || rowsChanged then NoteTopologyChange(g3) else g3;
      (g4, Some(Outcome(if s.mySessionId.Some? then s.mySessionId.value else 1,
                        infos.changed || rowsChanged,
                        s.dstSessionId != Some(req.sessionId))))
  }

  /** The relay changes something in its own info. */
  function ChangeMyInfo(g: Group, details: int): Group {
    var v := WrapInc32(g.myInfoVersion);
    g.(myInfo := g.myInfo.(details := details, version := v), myInfoVersion := v)
  }
}
