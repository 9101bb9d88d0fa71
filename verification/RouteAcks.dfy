/** What an update leaves out was acknowledged.

    The world remembers every update ever built and every response that acknowledged one. Over
    whole runs the module proves that an update without connections leaves out nothing the peer's
    current session has not acknowledged, and the same for every peer info left out. */
module RouteAcks {
  import opened Words
  import opened ConnBitmap
  import opened Ordered
  import opened RouteTable
  import opened RouteInvariants

  datatype Built = Built(target: PeerId, u: Update)

  /** A response from `peer` under session `sid` that acknowledged update number `idx`. */
  datatype Ack = Ack(peer: PeerId, sid: u64, idx: nat, now: nat)

  datatype World = World(g: Group, built: seq<Built>, acks: seq<Ack>)

  /** What happens to the table otherwise than by a build or a response. */
  type TableEvent = e: Event | !e.Send? && !e.Response? witness MyInfo(0)

  datatype WorldEvent =
    | Table(ev: TableEvent)
    | BuildFor(target: PeerId, sid: u64, forceFull: bool, now: nat)
    | Answer(peer: PeerId, sid: u64, weAreInitiator: bool, idx: nat, now: nat)

  function Step(w: World, me: PeerId, ev: WorldEvent): World {
    match ev
    case Table(e) => w.(g := Apply(w.g, me, e))
    case BuildFor(target, sid, forceFull, now) =>
      var (g, u) := Build(w.g, me, target, sid, forceFull, now);
      w.(g := g, built := if u.Some? then w.built + [Built(target, u.value)] else w.built)
    case Answer(peer, sid, weAreInitiator, idx, now) =>
      if idx >= |w.built| then w
      else w.(g := Acknowledge(w.g, peer, sid, weAreInitiator, w.built[idx].u, now),
              acks := w.acks + [Ack(peer, sid, idx, now)])
  }

  function RunWorld(info: RouteInfo, me: PeerId, evs: seq<WorldEvent>): World {
    if evs == [] then World(NewGroup(info), [], []) else Step(RunWorld(info, me, evs[..|evs| - 1]), me, evs[|evs| - 1])
  }

  /** Requests come from members, nobody else bears the relay's id, the topology version does not wrap.
      Updates may be built for anyone. */
  predicate Legal(w: World, me: PeerId, ev: WorldEvent) {
    ev.Table? ==> Ordinary(w.g, me, ev.ev)
  }

  predicate LegalRun(info: RouteInfo, me: PeerId, evs: seq<WorldEvent>) {
    evs == [] ||
    (LegalRun(info, me, evs[..|evs| - 1]) && Legal(RunWorld(info, me, evs[..|evs| - 1]), me, evs[|evs| - 1]))
  }

  /** Responses of one peer come in the order of the updates. */
  ghost predicate InOrder(w: World, ev: WorldEvent) {
    ev.Answer? ==> forall k :: 0 <= k < |w.acks| && w.acks[k].peer == ev.peer ==> w.acks[k].idx <= ev.idx
  }

  ghost predicate Regular(w: World, me: PeerId, ev: WorldEvent) {
    Legal(w, me, ev) && InOrder(w, ev)
  }

  ghost predicate OrderedRun(info: RouteInfo, me: PeerId, evs: seq<WorldEvent>) {
    evs == [] ||
    (OrderedRun(info, me, evs[..|evs| - 1]) && InOrder(RunWorld(info, me, evs[..|evs| - 1]), evs[|evs| - 1]))
  }

  ghost predicate RegularRun(info: RouteInfo, me: PeerId, evs: seq<WorldEvent>) {
    LegalRun(info, me, evs) && OrderedRun(info, me, evs)
  }

  predicate SpoilsWorld(w: World, me: PeerId, ev: WorldEvent) {
    ev.BuildFor? && Spoils(w.g, me, Send(ev.target, ev.sid, ev.forceFull, ev.now))
  }

  /** A build for a peer the table did not know filled the cache since the topology last changed. */
  predicate SpoiledRun(info: RouteInfo, me: PeerId, evs: seq<WorldEvent>) {
    evs != [] &&
    var w, ev := RunWorld(info, me, evs[..|evs| - 1]), evs[|evs| - 1];
    && Step(w, me, ev).g.topologyVersion == w.g.topologyVersion
    && (SpoiledRun(info, me, evs[..|evs| - 1]) || SpoilsWorld(w, me, ev))
  }

  // ----- the invariants

  /** Built connections never carry a version from the future, and unless the cache is spoiled one
      carrying the current version describes the current topology. */
  ghost predicate BuiltSound(g: Group, me: PeerId, built: seq<Built>, spoiled: bool) {
    && g.topologyVersion >= 1
    && (forall i :: 0 <= i < |built| && built[i].u.topologyVersion.Some? ==>
          && built[i].u.conn.Some?
          && 0 < built[i].u.topologyVersion.value <= g.topologyVersion
          && (built[i].u.topologyVersion.value == g.topologyVersion && !spoiled ==>
                Describes(built[i].u.conn.value, Topology(g, me))))
    && (forall i, j :: 0 <= i < j < |built| && built[i].u.topologyVersion.Some? && built[j].u.topologyVersion.Some? ==>
          built[i].u.topologyVersion.value <= built[j].u.topologyVersion.value)
  }

  /** Acknowledgement `k` was given by `t` under the session now recorded. */
  predicate Under(s: Session, t: PeerId, a: Ack) {
    a.peer == t && s.dstSessionId == Some(a.sid)
  }

  predicate Names(u: Update, pid: PeerId) {
    exists n :: 0 <= n < |u.versions| && u.versions[n].id == pid
  }

  ghost predicate AckedTopologyAt(s: Session, t: PeerId, built: seq<Built>, acks: seq<Ack>, k: int) {
    && 0 <= k < |acks| && Under(s, t, acks[k]) && acks[k].idx < |built|
    && built[acks[k].idx].u.topologyVersion == Some(s.lastTopologyVersion)
    && acks[k].now == s.lastTopologyTouchMs
  }

  ghost predicate AckedVersionAt(s: Session, t: PeerId, built: seq<Built>, acks: seq<Ack>, v: PeerVersion, k: int) {
    0 <= k < |acks| && Under(s, t, acks[k]) && acks[k].idx < |built| && v in built[acks[k].idx].u.versions
  }

  ghost predicate NamedAt(s: Session, t: PeerId, built: seq<Built>, acks: seq<Ack>, pid: PeerId, at: nat, k: int) {
    0 <= k < |acks| && Under(s, t, acks[k]) && acks[k].idx < |built| && Names(built[acks[k].idx].u, pid)
        && acks[k].now == at
  }

  /** The topology a session remembers as acknowledged was acknowledged, under that very session. */
  ghost predicate TopologyBacked(s: Session, t: PeerId, built: seq<Built>, acks: seq<Ack>) {
    s.lastTopologyVersion != 0 ==> exists k :: AckedTopologyAt(s, t, built, acks, k)
  }

  /** So was every version it remembers, and its peer was named when it says. */
  ghost predicate SavedBacked(s: Session, t: PeerId, built: seq<Built>, acks: seq<Ack>) {
    forall pid :: pid in s.saved ==>
      && (exists k :: AckedVersionAt(s, t, built, acks, PeerVersion(pid, s.saved[pid].version), k))
      && (exists k :: NamedAt(s, t, built, acks, pid, s.saved[pid].touchedAtMs, k))
  }

  ghost predicate TopologiesBacked(g: Group, built: seq<Built>, acks: seq<Ack>) {
    forall t :: t in g.sessions ==> TopologyBacked(g.sessions[t], t, built, acks)
  }

  ghost predicate AllSavedBacked(g: Group, built: seq<Built>, acks: seq<Ack>) {
    forall t :: t in g.sessions ==> SavedBacked(g.sessions[t], t, built, acks)
  }

  ghost predicate Sound(w: World, me: PeerId, spoiled: bool) {
    && Structured(w.g, me)
    && (if spoiled then BadMatrix(w.g, me) else Coherent(w.g, me))
    && BuiltSound(w.g, me, w.built, spoiled)
    && TopologiesBacked(w.g, w.built, w.acks)
  }

  // ----- sessions that only forget

  /** `s'` remembers nothing that `s` did not, under the same session or under a new one nothing at all. */
  predicate Forgets(s: Session, s': Session) {
    || (s'.saved == map[] && s'.lastTopologyVersion == 0)
    || (&& s'.dstSessionId == s.dstSessionId
        && (forall pid :: pid in s'.saved ==> pid in s.saved && s'.saved[pid] == s.saved[pid])
        && (s'.lastTopologyVersion == 0
            || (s'.lastTopologyVersion == s.lastTopologyVersion && s'.lastTopologyTouchMs == s.lastTopologyTouchMs)))
  }

  predicate SessionsForget(g: Group, g': Group) {
    forall t :: t in g'.sessions ==> Forgets(SessionOf(g, t), g'.sessions[t])
  }

  lemma ForgetsTrans(a: Session, b: Session, c: Session)
    requires Forgets(a, b) && Forgets(b, c)
    ensures Forgets(a, c)
  {
  }

  lemma SessionsForgetTrans(a: Group, b: Group, c: Group)
    requires SessionsForget(a, b) && SessionsForget(b, c)
    ensures SessionsForget(a, c)
  {
    forall t | t in c.sessions
      ensures Forgets(SessionOf(a, t), c.sessions[t])
    {
      if t in b.sessions {
        ForgetsTrans(SessionOf(a, t), b.sessions[t], c.sessions[t]);
      }
    }
  }

  lemma {:induction false} RemoveEachForgets(g: Group, me: PeerId, pids: seq<PeerId>)
    ensures SessionsForget(g, RemoveEach(g, me, pids))
  {
    if pids != [] {
      var init, last := pids[..|pids| - 1], pids[|pids| - 1];
      RemoveEachForgets(g, me, init);
      LeaveForgets(RemoveEach(g, me, init), me, last);
      hide SessionsForget, RemovePeer;
      SessionsForgetTrans(g, RemoveEach(g, me, init), RemoveEach(g, me, pids));
    }
  }

  lemma LeaveForgets(g: Group, me: PeerId, pid: PeerId)
    ensures SessionsForget(g, RemovePeer(g, me, pid))
  {
  }

  lemma PurgeForgets(g: Group, gone: set<PeerId>)
    ensures SessionsForget(g, Purge(g, gone))
  {
  }

  lemma {:induction false} StoreInfosForgets(g: Group, from: PeerId, infos: seq<RouteInfo>, now: nat)
    ensures SessionsForget(g, StoreInfos(g, from, infos, now).g)
  {
    if infos != [] {
      StoreInfosForgets(g, from, infos[..|infos| - 1], now);
      var before := StoreInfos(g, from, infos[..|infos| - 1], now).g;
      StoreInfoForgets(before, from, infos[|infos| - 1], now);
      hide SessionsForget, StoreInfo;
      SessionsForgetTrans(g, before, StoreInfos(g, from, infos, now).g);
    }
  }

  lemma StoreInfoForgets(g: Group, from: PeerId, info: RouteInfo, now: nat)
    ensures SessionsForget(g, StoreInfo(g, from, info, now).g)
  {
  }

  /** No event of the table itself makes a session remember more. */
  lemma TableForgets(g: Group, me: PeerId, ev: TableEvent)
    ensures SessionsForget(g, Apply(g, me, ev))
  {
    match ev {
      case Join(pid, now) =>
      case Leave(pid) => LeaveForgets(g, me, pid);
      case SweepAt(now) =>
        hide SessionsForget, Outdated;
        var g1 := RemoveEach(g, me, Sorted(DeadPeers(g, now)));
        RemoveEachForgets(g, me, Sorted(DeadPeers(g, now)));
        PurgeForgets(g1, OutdatedInfos(g1, now));
        SessionsForgetTrans(g, g1, Apply(g, me, ev));
      case Sync(from, req, now) => SyncForgets(g, me, from, req, now);
      case MyInfo(details) =>
    }
  }

  lemma SyncForgets(g: Group, me: PeerId, from: PeerId, req: SyncRequest, now: nat)
    ensures SessionsForget(g, Handle(g, me, from, req, now).0)
  {
    if req.peerId == from {
      var g1 := g.(sessions := g.sessions[from := Greeted(SessionOf(g, from), req.sessionId, req.isInitiator, now)]);
      assert SessionsForget(g, g1);
      hide SessionsForget, StoreInfos, StoreRows, Reported, FromReport;
      StoreInfosForgets(g1, from, req.infos, now);
      var g2 := StoreInfos(g1, from, req.infos, now).g;
      StoreRowsEffect(g2, me, from, Reported(req.conn));
      SessionsForgetTrans(g, g1, g2);
      SameSessionsForget(g, g2, Handle(g, me, from, req, now).0);
    }
  }

  lemma SameSessionsForget(g: Group, a: Group, b: Group)
    requires SessionsForget(g, a) && b.sessions == a.sessions
    ensures SessionsForget(g, b)
  {
  }

  lemma TopologyStays(s: Session, s': Session, t: PeerId, built: seq<Built>, acks: seq<Ack>, built': seq<Built>)
    requires TopologyBacked(s, t, built, acks) && Forgets(s, s') && built <= built'
    ensures TopologyBacked(s', t, built', acks)
  {
    if s'.lastTopologyVersion != 0 {
      var k :| AckedTopologyAt(s, t, built, acks, k);
      assert AckedTopologyAt(s', t, built', acks, k);
    }
  }

  lemma SavedStays(s: Session, s': Session, t: PeerId, built: seq<Built>, acks: seq<Ack>, built': seq<Built>)
    requires SavedBacked(s, t, built, acks) && Forgets(s, s') && built <= built'
    ensures SavedBacked(s', t, built', acks)
  {
    forall pid | pid in s'.saved
      ensures exists k :: AckedVersionAt(s', t, built', acks, PeerVersion(pid, s'.saved[pid].version), k)
      ensures exists k :: NamedAt(s', t, built', acks, pid, s'.saved[pid].touchedAtMs, k)
    {
      var k :| AckedVersionAt(s, t, built, acks, PeerVersion(pid, s.saved[pid].version), k);
      assert AckedVersionAt(s', t, built', acks, PeerVersion(pid, s'.saved[pid].version), k);
      var l :| NamedAt(s, t, built, acks, pid, s.saved[pid].touchedAtMs, l);
      assert NamedAt(s', t, built', acks, pid, s'.saved[pid].touchedAtMs, l);
    }
  }

  lemma NewSessionBacked(t: PeerId, built: seq<Built>, acks: seq<Ack>)
    ensures TopologyBacked(NEW_SESSION, t, built, acks) && SavedBacked(NEW_SESSION, t, built, acks)
  {
  }

  lemma TopologiesStay(g: Group, g': Group, built: seq<Built>, acks: seq<Ack>, built': seq<Built>)
    requires TopologiesBacked(g, built, acks) && SessionsForget(g, g') && built <= built'
    ensures TopologiesBacked(g', built', acks)
  {
    hide TopologyBacked, SavedBacked, Forgets;
    forall t | t in g'.sessions
      ensures TopologyBacked(g'.sessions[t], t, built', acks)
    {
      NewSessionBacked(t, built, acks);
      TopologyStays(SessionOf(g, t), g'.sessions[t], t, built, acks, built');
    }
  }

  lemma AllSavedStay(g: Group, g': Group, built: seq<Built>, acks: seq<Ack>, built': seq<Built>)
    requires AllSavedBacked(g, built, acks) && SessionsForget(g, g') && built <= built'
    ensures AllSavedBacked(g', built', acks)
  {
    hide TopologyBacked, SavedBacked, Forgets;
    forall t | t in g'.sessions
      ensures SavedBacked(g'.sessions[t], t, built', acks)
    {
      NewSessionBacked(t, built, acks);
      SavedStays(SessionOf(g, t), g'.sessions[t], t, built, acks, built');
    }
  }

  // ----- one response

  /** What saving acknowledged versions leaves for one peer. */
  lemma {:induction false} SaveVersionsEffect(saved: map<PeerId, SavedVersion>, versions: seq<PeerVersion>, now: nat,
                                              pid: PeerId)
    requires pid in SaveVersions(saved, versions, now)
    ensures var r := SaveVersions(saved, versions, now)[pid];
            && ((pid in saved && r.version == saved[pid].version) || PeerVersion(pid, r.version) in versions)
            && ((pid in saved && r == saved[pid])
                || (r.touchedAtMs == now && exists n :: 0 <= n < |versions| && versions[n].id == pid))
  {
    if versions != [] {
      var init, last := versions[..|versions| - 1], versions[|versions| - 1];
      var before := SaveVersions(saved, init, now);
      if pid in before {
        SaveVersionsEffect(saved, init, now, pid);
        if n :| 0 <= n < |init| && init[n].id == pid {
          assert versions[n].id == pid;
        }
      }
      if last.id == pid {
        assert versions[|versions| - 1].id == pid;
      }
    }
  }

  /** The topology remembered after a response: backed by what backed it, or by the response itself,
      if that does not answer an older one. */
  lemma ResponseBacksTopology(s: Session, t: PeerId, built: seq<Built>, acks: seq<Ack>, a: Ack)
    requires TopologyBacked(s, t, built, acks) && Under(s, t, a) && a.idx < |built|
    requires built[a.idx].u.topologyVersion.Some? ==> s.lastTopologyVersion <= built[a.idx].u.topologyVersion.value
    ensures var u := built[a.idx].u;
            TopologyBacked(Committed(s, u.versions, u.topologyVersion, a.now), t, built, acks + [a])
  {
    var u := built[a.idx].u;
    var s' := Committed(s, u.versions, u.topologyVersion, a.now);
    var acks' := acks + [a];
    hide SaveVersions;
    assert acks'[|acks|] == a;
    if s'.lastTopologyVersion != 0 {
      if u.topologyVersion.Some? {
        assert AckedTopologyAt(s', t, built, acks', |acks|);
      } else {
        var k :| AckedTopologyAt(s, t, built, acks, k);
        assert AckedTopologyAt(s', t, built, acks', k);
      }
    }
  }

  /** The versions remembered after a response, in whatever order it comes. */
  lemma ResponseBacksSaved(s: Session, t: PeerId, built: seq<Built>, acks: seq<Ack>, a: Ack)
    requires SavedBacked(s, t, built, acks) && Under(s, t, a) && a.idx < |built|
    ensures var u := built[a.idx].u;
            SavedBacked(Committed(s, u.versions, u.topologyVersion, a.now), t, built, acks + [a])
  {
    var u := built[a.idx].u;
    var s' := Committed(s, u.versions, u.topologyVersion, a.now);
    var acks' := acks + [a];
    forall pid | pid in s'.saved
      ensures exists k :: AckedVersionAt(s', t, built, acks', PeerVersion(pid, s'.saved[pid].version), k)
      ensures exists k :: NamedAt(s', t, built, acks', pid, s'.saved[pid].touchedAtMs, k)
    {
      SavingBacked(s, t, built, acks, a, pid);
      var k :| AckedVersionAt(s, t, built, acks', PeerVersion(pid, s'.saved[pid].version), k);
      assert AckedVersionAt(s', t, built, acks', PeerVersion(pid, s'.saved[pid].version), k);
      var l :| NamedAt(s, t, built, acks', pid, s'.saved[pid].touchedAtMs, l);
      assert NamedAt(s', t, built, acks', pid, s'.saved[pid].touchedAtMs, l);
    }
  }

  lemma SavingBacked(s: Session, t: PeerId, built: seq<Built>, acks: seq<Ack>, a: Ack, pid: PeerId)
    requires SavedBacked(s, t, built, acks) && Under(s, t, a) && a.idx < |built|
    requires pid in SaveVersions(s.saved, built[a.idx].u.versions, a.now)
    ensures var r := SaveVersions(s.saved, built[a.idx].u.versions, a.now)[pid];
            && (exists k :: AckedVersionAt(s, t, built, acks + [a], PeerVersion(pid, r.version), k))
            && (exists k :: NamedAt(s, t, built, acks + [a], pid, r.touchedAtMs, k))
  {
    var u := built[a.idx].u;
    SaveVersionsEffect(s.saved, u.versions, a.now, pid);
    var r := SaveVersions(s.saved, u.versions, a.now)[pid];
    hide SaveVersions;
    var acks' := acks + [a];
    var n := |acks|;
    assert acks'[n] == a;
    if pid in s.saved && r.version == s.saved[pid].version {
      var k :| AckedVersionAt(s, t, built, acks, PeerVersion(pid, s.saved[pid].version), k);
      assert AckedVersionAt(s, t, built, acks', PeerVersion(pid, r.version), k);
    } else {
      assert AckedVersionAt(s, t, built, acks', PeerVersion(pid, r.version), n);
    }
    if pid in s.saved && r == s.saved[pid] {
      var k :| NamedAt(s, t, built, acks, pid, s.saved[pid].touchedAtMs, k);
      assert NamedAt(s, t, built, acks', pid, r.touchedAtMs, k);
    } else {
      assert NamedAt(s, t, built, acks', pid, r.touchedAtMs, n);
    }
  }

  lemma MoreAcksTopology(s: Session, t: PeerId, built: seq<Built>, acks: seq<Ack>, a: Ack)
    requires TopologyBacked(s, t, built, acks)
    ensures TopologyBacked(s, t, built, acks + [a])
  {
    if s.lastTopologyVersion != 0 {
      var k :| AckedTopologyAt(s, t, built, acks, k);
      assert (acks + [a])[k] == acks[k];
      assert AckedTopologyAt(s, t, built, acks + [a], k);
    }
  }

  lemma MoreAcksSaved(s: Session, t: PeerId, built: seq<Built>, acks: seq<Ack>, a: Ack)
    requires SavedBacked(s, t, built, acks)
    ensures SavedBacked(s, t, built, acks + [a])
  {
    var acks' := acks + [a];
    assert forall k :: 0 <= k < |acks| ==> acks'[k] == acks[k];
    forall pid | pid in s.saved
      ensures exists k :: AckedVersionAt(s, t, built, acks', PeerVersion(pid, s.saved[pid].version), k)
      ensures exists k :: NamedAt(s, t, built, acks', pid, s.saved[pid].touchedAtMs, k)
    {
      var k :| AckedVersionAt(s, t, built, acks, PeerVersion(pid, s.saved[pid].version), k);
      assert AckedVersionAt(s, t, built, acks', PeerVersion(pid, s.saved[pid].version), k);
      var l :| NamedAt(s, t, built, acks, pid, s.saved[pid].touchedAtMs, l);
      assert NamedAt(s, t, built, acks', pid, s.saved[pid].touchedAtMs, l);
    }
  }

  /** In build order, an acknowledged topology is never older than the one already recorded. */
  lemma OrderedAcks(w: World, me: PeerId, t: PeerId, idx: nat, spoiled: bool)
    requires BuiltSound(w.g, me, w.built, spoiled) && idx < |w.built|
    requires forall k :: 0 <= k < |w.acks| && w.acks[k].peer == t ==> w.acks[k].idx <= idx
    requires t in w.g.sessions && TopologyBacked(w.g.sessions[t], t, w.built, w.acks)
    requires w.built[idx].u.topologyVersion.Some?
    ensures w.g.sessions[t].lastTopologyVersion <= w.built[idx].u.topologyVersion.value
  {
    var s := w.g.sessions[t];
    if s.lastTopologyVersion != 0 {
      var k :| AckedTopologyAt(s, t, w.built, w.acks, k);
    }
  }

  /** The session a response leaves forgets, under its own id, and then remembers the update. */
  lemma AnsweredSession(g: Group, peer: PeerId, sid: u64, weAreInitiator: bool, u: Update, now: nat)
      returns (s1: Session)
    ensures Forgets(SessionOf(g, peer), s1) && s1.dstSessionId == Some(sid)
    ensures peer in Acknowledge(g, peer, sid, weAreInitiator, u, now).sessions
    ensures Acknowledge(g, peer, sid, weAreInitiator, u, now).sessions[peer]
         == Committed(s1, u.versions, u.topologyVersion, now)
    ensures forall t :: t != peer ==>
      && (t in Acknowledge(g, peer, sid, weAreInitiator, u, now).sessions <==> t in g.sessions)
      && (t in g.sessions ==> Acknowledge(g, peer, sid, weAreInitiator, u, now).sessions[t] == g.sessions[t])
  {
    s1 := SessionAck(g, peer, sid, weAreInitiator, now).sessions[peer];
    hide SaveVersions;
  }

  lemma AnswerKeepsTopologies(w: World, me: PeerId, peer: PeerId, sid: u64, weAreInitiator: bool, idx: nat, now: nat,
                              spoiled: bool)
    requires BuiltSound(w.g, me, w.built, spoiled) && TopologiesBacked(w.g, w.built, w.acks) && idx < |w.built|
    requires InOrder(w, Answer(peer, sid, weAreInitiator, idx, now))
    ensures var w' := Step(w, me, Answer(peer, sid, weAreInitiator, idx, now));
            TopologiesBacked(w'.g, w'.built, w'.acks)
  {
    var u := w.built[idx].u;
    var a := Ack(peer, sid, idx, now);
    var s1 := AnsweredSession(w.g, peer, sid, weAreInitiator, u, now);
    NewSessionBacked(peer, w.built, w.acks);
    if u.topologyVersion.Some? && peer in w.g.sessions {
      OrderedAcks(w, me, peer, idx, spoiled);
    }
    hide TopologyBacked, SavedBacked, Acknowledge, BuiltSound, Committed;
    assert TopologyBacked(SessionOf(w.g, peer), peer, w.built, w.acks);
    TopologyStays(SessionOf(w.g, peer), s1, peer, w.built, w.acks, w.built);
    ResponseBacksTopology(s1, peer, w.built, w.acks, a);
    var g' := Acknowledge(w.g, peer, sid, weAreInitiator, u, now);
    forall t | t in g'.sessions
      ensures TopologyBacked(g'.sessions[t], t, w.built, w.acks + [a])
    {
      if t != peer {
        MoreAcksTopology(w.g.sessions[t], t, w.built, w.acks, a);
      }
    }
  }

  lemma AnswerKeepsSaved(w: World, me: PeerId, peer: PeerId, sid: u64, weAreInitiator: bool, idx: nat, now: nat)
    requires AllSavedBacked(w.g, w.built, w.acks) && idx < |w.built|
    ensures var w' := Step(w, me, Answer(peer, sid, weAreInitiator, idx, now)); AllSavedBacked(w'.g, w'.built, w'.acks)
  {
    var u := w.built[idx].u;
    var a := Ack(peer, sid, idx, now);
    var s1 := AnsweredSession(w.g, peer, sid, weAreInitiator, u, now);
    NewSessionBacked(peer, w.built, w.acks);
    hide TopologyBacked, SavedBacked, Acknowledge, Committed;
    assert SavedBacked(SessionOf(w.g, peer), peer, w.built, w.acks);
    SavedStays(SessionOf(w.g, peer), s1, peer, w.built, w.acks, w.built);
    ResponseBacksSaved(s1, peer, w.built, w.acks, a);
    var g' := Acknowledge(w.g, peer, sid, weAreInitiator, u, now);
    forall t | t in g'.sessions
      ensures SavedBacked(g'.sessions[t], t, w.built, w.acks + [a])
    {
      if t != peer {
        MoreAcksSaved(w.g.sessions[t], t, w.built, w.acks, a);
      }
    }
  }

  /** In every run at all, every version a session remembers was acknowledged under that session. */
  lemma {:induction false} SavedIsAlwaysBacked(info: RouteInfo, me: PeerId, evs: seq<WorldEvent>)
    ensures var w := RunWorld(info, me, evs); AllSavedBacked(w.g, w.built, w.acks)
  {
    if evs != [] {
      SavedIsAlwaysBacked(info, me, evs[..|evs| - 1]);
      hide AllSavedBacked, Apply, Acknowledge, Build, SessionsForget;
      var w := RunWorld(info, me, evs[..|evs| - 1]);
      match evs[|evs| - 1]
      case Table(e) =>
        TableForgets(w.g, me, e);
        AllSavedStay(w.g, Apply(w.g, me, e), w.built, w.acks, w.built);
      case BuildFor(target, sid, forceFull, now) =>
        BuildForgets(w.g, me, target, sid, forceFull, now);
        var w' := Step(w, me, evs[|evs| - 1]);
        AllSavedStay(w.g, w'.g, w.built, w.acks, w'.built);
      case Answer(peer, sid, weAreInitiator, idx, now) =>
        if idx < |w.built| {
          AnswerKeepsSaved(w, me, peer, sid, weAreInitiator, idx, now);
        }
    }
  }

  // ----- the table's own events, and builds

  lemma BuildForgets(g: Group, me: PeerId, target: PeerId, sid: u64, forceFull: bool, now: nat)
    ensures SessionsForget(g, Build(g, me, target, sid, forceFull, now).0)
  {
    BuildEffect(g, me, target, sid, forceFull, now);
    hide Build;
  }

  lemma BuiltSoundStays(g: Group, g': Group, me: PeerId, built: seq<Built>, spoiled: bool)
    requires BuiltSound(g, me, built, spoiled) && Accounted(g, g', me)
    ensures BuiltSound(g', me, built, spoiled && g'.topologyVersion == g.topologyVersion)
  {
    hide Topology, Describes;
  }

  lemma TableKeepsSound(w: World, me: PeerId, ev: TableEvent, spoiled: bool)
    requires Sound(w, me, spoiled) && Legal(w, me, Table(ev))
    ensures var w' := Step(w, me, Table(ev)); Sound(w', me, spoiled && w'.g.topologyVersion == w.g.topologyVersion)
  {
    var g' := Apply(w.g, me, ev);
    hide Topology, BuiltSound, TopologiesBacked, Structured, Coherent, BadMatrix, Accounted, SessionsForget, Apply;
    StepSpoils(w.g, me, ev, spoiled);
    StepAccounts(w.g, me, ev);
    BuiltSoundStays(w.g, g', me, w.built, spoiled);
    TableForgets(w.g, me, ev);
    TopologiesStay(w.g, g', w.built, w.acks, w.built);
  }

  /** A build's update carries the current version with its connections, or neither. */
  lemma BuildVersion(g: Group, me: PeerId, target: PeerId, sid: u64, forceFull: bool, now: nat)
    ensures var u := Build(g, me, target, sid, forceFull, now).1;
            u.Some? ==> u.value.topologyVersion == if u.value.conn.Some? then Some(g.topologyVersion) else None
  {
    hide Picked, Sorted, RowsFor, MatrixOf;
  }

  /** One update more, no older than the version it was built at. */
  lemma OneMoreBuilt(g: Group, g': Group, me: PeerId, built: seq<Built>, b: Built, spoiled: bool)
    requires BuiltSound(g, me, built, spoiled)
    requires g'.topologyVersion == g.topologyVersion && Topology(g', me) == Topology(g, me)
    requires b.u.topologyVersion == if b.u.conn.Some? then Some(g.topologyVersion) else None
    requires b.u.conn.Some? && !spoiled ==> Describes(b.u.conn.value, Topology(g, me))
    ensures BuiltSound(g', me, built, spoiled) && BuiltSound(g', me, built + [b], spoiled)
  {
    hide Topology, Describes;
    assert forall i :: 0 <= i < |built| ==> (built + [b])[i] == built[i];
  }

  lemma LessIsClaimed(g: Group, me: PeerId, built: seq<Built>, spoiled: bool, after: bool)
    requires BuiltSound(g, me, built, spoiled) && (spoiled ==> after)
    ensures BuiltSound(g, me, built, after)
  {
    hide Topology, Describes;
  }

  lemma BuildKeepsBuilt(w: World, me: PeerId, target: PeerId, sid: u64, forceFull: bool, now: nat, spoiled: bool)
    requires BuiltSound(w.g, me, w.built, spoiled) && (!spoiled ==> Coherent(w.g, me))
    ensures var ev := BuildFor(target, sid, forceFull, now);
            var w' := Step(w, me, ev);
            BuiltSound(w'.g, me, w'.built, spoiled || SpoilsWorld(w, me, ev))
  {
    BuildKeepsTopology(w.g, me, target, sid, forceFull, now);
    BuildVersion(w.g, me, target, sid, forceFull, now);
    hide Topology, Coherent, Structured, Describes, Build, Spoils, Known, BuiltSound;
    var after := spoiled || Spoils(w.g, me, Send(target, sid, forceFull, now));
    if !after {
      BuildDescribes(w.g, me, target, sid, forceFull, now);
    }
    LessIsClaimed(w.g, me, w.built, spoiled, after);
    var (g', u) := Build(w.g, me, target, sid, forceFull, now);
    OneMoreBuilt(w.g, g', me, w.built, Built(target, if u.Some? then u.value else Update([], [], None, None)), after);
  }

  lemma BuildKeepsSound(w: World, me: PeerId, target: PeerId, sid: u64, forceFull: bool, now: nat, spoiled: bool)
    requires Sound(w, me, spoiled)
    ensures var ev := BuildFor(target, sid, forceFull, now);
            Sound(Step(w, me, ev), me, spoiled || SpoilsWorld(w, me, ev))
  {
    hide Topology, TopologiesBacked, Coherent, BadMatrix, Structured, BuiltSound, Build, Spoils, SessionsForget;
    BuildKeepsBuilt(w, me, target, sid, forceFull, now, spoiled);
    BuildKeepsVersion(w.g, me, target, sid, forceFull, now);
    StepSpoils(w.g, me, Send(target, sid, forceFull, now), spoiled);
    BuildForgets(w.g, me, target, sid, forceFull, now);
    var w' := Step(w, me, BuildFor(target, sid, forceFull, now));
    TopologiesStay(w.g, w'.g, w.built, w.acks, w'.built);
  }

  lemma AnswerKeepsSound(w: World, me: PeerId, peer: PeerId, sid: u64, weAreInitiator: bool, idx: nat, now: nat,
                         spoiled: bool)
    requires Sound(w, me, spoiled) && InOrder(w, Answer(peer, sid, weAreInitiator, idx, now))
    ensures var w' := Step(w, me, Answer(peer, sid, weAreInitiator, idx, now));
            Sound(w', me, spoiled) && w'.g.topologyVersion == w.g.topologyVersion
  {
    if idx < |w.built| {
      var u := w.built[idx].u;
      AnswerKeepsTopologies(w, me, peer, sid, weAreInitiator, idx, now, spoiled);
      var g' := Acknowledge(w.g, peer, sid, weAreInitiator, u, now);
      AcknowledgeSessionsOnly(w.g, peer, sid, weAreInitiator, u, now);
      SessionsOnlyAccount(w.g, g', me);
      StepSpoils(w.g, me, Response(peer, sid, weAreInitiator, u, now), spoiled);
      hide Acknowledge, Coherent, BadMatrix, Structured, BuiltSound, Accounted, TopologiesBacked, Topology;
      BuiltSoundStays(w.g, g', me, w.built, spoiled);
    }
  }

  lemma StepKeepsSound(w: World, me: PeerId, ev: WorldEvent, spoiled: bool)
    requires Sound(w, me, spoiled) && Legal(w, me, ev) && InOrder(w, ev)
    ensures var w' := Step(w, me, ev);
            Sound(w', me, w'.g.topologyVersion == w.g.topologyVersion && (spoiled || SpoilsWorld(w, me, ev)))
  {
    hide Sound, Build, Apply, Acknowledge;
    match ev
    case Table(e) => TableKeepsSound(w, me, e, spoiled);
    case BuildFor(target, sid, forceFull, now) =>
      BuildKeepsSound(w, me, target, sid, forceFull, now, spoiled);
      BuildKeepsVersion(w.g, me, target, sid, forceFull, now);
    case Answer(peer, sid, weAreInitiator, idx, now) =>
      AnswerKeepsSound(w, me, peer, sid, weAreInitiator, idx, now, spoiled);
  }

  /** The invariants hold after every regular run. */
  lemma {:induction false} RunsStaySound(info: RouteInfo, me: PeerId, evs: seq<WorldEvent>)
    requires RegularRun(info, me, evs)
    ensures Sound(RunWorld(info, me, evs), me, SpoiledRun(info, me, evs))
  {
    if evs == [] {
      NewGroupKeeps(me, info);
    } else {
      var init, ev := evs[..|evs| - 1], evs[|evs| - 1];
      RunsStaySound(info, me, init);
      hide Sound, Step, Legal, InOrder, SpoilsWorld;
      StepKeepsSound(RunWorld(info, me, init), me, ev, SpoiledRun(info, me, init));
    }
  }

  // ----- what is left out

  /** Some response under the session now recorded acknowledged connections describing the topology,
      less than 60 s ago. */
  ghost predicate TopologyAcknowledged(w: World, me: PeerId, target: PeerId, now: nat) {
    exists k :: 0 <= k < |w.acks| && target in w.g.sessions && Under(w.g.sessions[target], target, w.acks[k])
      && w.acks[k].idx < |w.built|
      && w.built[w.acks[k].idx].u.conn.Some? && Describes(w.built[w.acks[k].idx].u.conn.value, Topology(w.g, me))
      && now < w.acks[k].now + 60_000
  }

  /** The update is built, without connections. */
  predicate WithholdsTopology(g: Group, me: PeerId, target: PeerId, sid: u64, forceFull: bool, now: nat) {
    var u := Build(g, me, target, sid, forceFull, now).1;
    u.Some? && u.value.conn.None?
  }

  /** Connections are withheld exactly when the session recorded an acknowledgement of the current version
      less than 60 s ago, full update or not. */
  lemma WithheldIffAcked(g: Group, me: PeerId, target: PeerId, sid: u64, forceFull: bool, now: nat)
    ensures WithholdsTopology(g, me, target, sid, forceFull, now)
       <==> var s := SessionOf(g, target);
            s.lastTopologyVersion == g.topologyVersion && now < s.lastTopologyTouchMs + 60_000
  {
    SortedIsSorted(Known(g, me) + {target});
    assert me in Sorted(Known(g, me) + {target});
    hide Picked, RowsFor, MatrixOf, Sorted, Known;
  }

  /** In every regular run in which the cache is not spoiled, an update built without connections leaves
      out only a topology that was acknowledged under the current session, as it is now, within 60 s. */
  lemma WithheldTopologyIsSafe(info: RouteInfo, me: PeerId, evs: seq<WorldEvent>, target: PeerId, sid: u64,
                               forceFull: bool, now: nat)
    requires RegularRun(info, me, evs) && !SpoiledRun(info, me, evs)
    ensures var w := RunWorld(info, me, evs);
            WithholdsTopology(w.g, me, target, sid, forceFull, now) ==> TopologyAcknowledged(w, me, target, now)
  {
    RunsStaySound(info, me, evs);
    var w := RunWorld(info, me, evs);
    hide RunWorld, RegularRun;
    if WithholdsTopology(w.g, me, target, sid, forceFull, now) {
      WithheldIffAcked(w.g, me, target, sid, forceFull, now);
      hide WithholdsTopology;
      AckedIsAcknowledged(w, me, target, now);
    }
  }

  lemma AckedIsAcknowledged(w: World, me: PeerId, target: PeerId, now: nat)
    requires Sound(w, me, false) && TopologyAcked(SessionOf(w.g, target), w.g.topologyVersion, now)
    ensures TopologyAcknowledged(w, me, target, now)
  {
    hide Topology, Coherent, Structured, Describes;
    var s := SessionOf(w.g, target);
    assert s.lastTopologyVersion == w.g.topologyVersion >= 1;
    assert target in w.g.sessions;
    assert TopologyBacked(s, target, w.built, w.acks);
    var k :| AckedTopologyAt(s, target, w.built, w.acks, k);
    assert Describes(w.built[w.acks[k].idx].u.conn.value, Topology(w.g, me));
  }

  /** A spoiled cache is sent on: any peer that reads matrices and has acknowledged nothing yet is sent
      one that is not the topology, and once it answers, connections are withheld from it. */
  lemma SpoiledIsWithheld(info: RouteInfo, me: PeerId, evs: seq<WorldEvent>, q: PeerId, now: nat)
    requires RegularRun(info, me, evs) && SpoiledRun(info, me, evs)
    requires var w := RunWorld(info, me, evs);
             && (forall k :: 0 <= k < |w.acks| ==> w.acks[k].peer != q)
             && !(q in w.g.infos && w.g.infos[q].supportsConnList)
    ensures var w := RunWorld(info, me, evs);
            var w2 := Step(Step(w, me, BuildFor(q, 7, false, now)), me, Answer(q, 9, true, |w.built|, now));
            WithholdsTopology(w2.g, me, q, 7, false, now) && !TopologyAcknowledged(w2, me, q, now)
  {
    RunsStaySound(info, me, evs);
    var w := RunWorld(info, me, evs);
    hide RunWorld, RegularRun, SpoiledRun, Sound, Step, BadMatrix;
    NothingAcked(w, me, q);
    BadMatrixIsAnswered(w, me, q, now);
  }

  lemma BadMatrixIsAnswered(w: World, me: PeerId, q: PeerId, now: nat)
    requires BadMatrix(w.g, me) && SessionOf(w.g, q).lastTopologyVersion == 0 < w.g.topologyVersion
    requires forall k :: 0 <= k < |w.acks| ==> w.acks[k].peer != q
    requires !(q in w.g.infos && w.g.infos[q].supportsConnList)
    ensures var w2 := Step(Step(w, me, BuildFor(q, 7, false, now)), me, Answer(q, 9, true, |w.built|, now));
            WithholdsTopology(w2.g, me, q, 7, false, now) && !TopologyAcknowledged(w2, me, q, now)
  {
    hide BadMatrix, Topology, Describes, Known, RowsFor, MatrixOf, Structured;
    BadMatrixIsSent(w.g, me, q, now);
    BuildEffect(w.g, me, q, 7, false, now);
    BuildKeepsTopology(w.g, me, q, 7, false, now);
    BuildVersion(w.g, me, q, 7, false, now);
    hide Build;
    var w1 := Step(w, me, BuildFor(q, 7, false, now));
    BadUpdateIsAnswered(w1, me, q, now);
  }

  /** The last update is for `q`, carries the current version but not the topology, and is answered first. */
  lemma BadUpdateIsAnswered(w: World, me: PeerId, q: PeerId, now: nat)
    requires |w.built| > 0 && SessionOf(w.g, q).lastTopologyVersion == 0
    requires var u := w.built[|w.built| - 1].u;
             u.topologyVersion == Some(w.g.topologyVersion) && u.conn.Some?
                 && !Describes(u.conn.value, Topology(w.g, me))
    requires forall k :: 0 <= k < |w.acks| ==> w.acks[k].peer != q
    ensures var w' := Step(w, me, Answer(q, 9, true, |w.built| - 1, now));
            WithholdsTopology(w'.g, me, q, 7, false, now) && !TopologyAcknowledged(w', me, q, now)
  {
    hide Topology, Describes;
    var u := w.built[|w.built| - 1].u;
    var w' := Step(w, me, Answer(q, 9, true, |w.built| - 1, now));
    AcknowledgeSessionsOnly(w.g, q, 9, true, u, now);
    TopologyIgnoresSessions(w.g, w'.g, me);
    AnswerRecords(w.g, q, u, now);
    WithheldIffAcked(w'.g, me, q, 7, false, now);
    hide WithholdsTopology, Acknowledge;
    assert forall k :: 0 <= k < |w'.acks| && w'.acks[k].peer == q ==> k == |w.acks|;
  }

  // ----- what is acknowledged while the cache is spoiled

  /** Since which update the cache is spoiled, if it is. */
  function SpoiledSince(info: RouteInfo, me: PeerId, evs: seq<WorldEvent>): Option<nat> {
    if evs == [] then None
    else
      var w, ev := RunWorld(info, me, evs[..|evs| - 1]), evs[|evs| - 1];
      var before := SpoiledSince(info, me, evs[..|evs| - 1]);
      if Step(w, me, ev).g.topologyVersion != w.g.topologyVersion then None
      else if before.None? && SpoilsWorld(w, me, ev) then Some(|w.built|)
      else before
  }

  lemma {:induction false} SinceMeansSpoiled(info: RouteInfo, me: PeerId, evs: seq<WorldEvent>)
    ensures SpoiledSince(info, me, evs).Some? <==> SpoiledRun(info, me, evs)
  {
    if evs != [] {
      SinceMeansSpoiled(info, me, evs[..|evs| - 1]);
    }
  }

  /** The cached list, which no build for an unknown peer touches. */
  predicate ListCoherent(g: Group, me: PeerId) {
    g.cachedList.Some? && g.cachedList.value.0 == g.topologyVersion ==> g.cachedList.value.1 == Topology(g, me)
  }

  /** The connections describe the topology, or are the matrix of the spoiled cache. */
  predicate DescribesOrSpoiled(g: Group, me: PeerId, conn: ConnInfo, spoiled: bool) {
    || Describes(conn, Topology(g, me))
    || (spoiled && g.cachedBitmap.Some? && conn == ConnBitmap(g.cachedBitmap.value.1))
  }

  /** Updates of the current version describe the topology, lists and those built before the spoiling
      without exception. */
  ghost predicate SentSound(w: World, me: PeerId, since: Option<nat>) {
    && ListCoherent(w.g, me)
    && (forall i :: 0 <= i < |w.built| && w.built[i].u.topologyVersion == Some(w.g.topologyVersion) ==>
          && w.built[i].u.conn.Some?
          && DescribesOrSpoiled(w.g, me, w.built[i].u.conn.value, since.Some? && i >= since.value))
  }

  lemma AccountedKeepsSent(w: World, w': World, me: PeerId, since: Option<nat>)
    requires SentSound(w, me, since) && Accounted(w.g, w'.g, me) && w'.built == w.built
    requires forall i :: 0 <= i < |w.built| && w.built[i].u.topologyVersion.Some? ==>
               w.built[i].u.topologyVersion.value <= w.g.topologyVersion
    ensures SentSound(w', me, if w'.g.topologyVersion != w.g.topologyVersion then None else since)
  {
    hide Topology, Describes;
  }

  lemma BuildKeepsList(g: Group, me: PeerId, target: PeerId, sid: u64, forceFull: bool, now: nat)
    requires ListCoherent(g, me)
    ensures ListCoherent(Build(g, me, target, sid, forceFull, now).0, me)
  {
    BuildKeepsTopology(g, me, target, sid, forceFull, now);
    if target in Known(g, me) {
      BuildEffect(g, me, target, sid, forceFull, now);
      assert Known(g, me) + {target} == Known(g, me);
      TopologyIs(g, me);
    } else {
      BuildKeepsVersion(g, me, target, sid, forceFull, now);
      StrangerKeepsList(g, me, target, sid, forceFull, now);
    }
    hide Build, Topology, RowsFor, Known;
  }

  /** With a current matrix in the cache, an update carries that matrix, or a list, which describes. */
  lemma CachedMatrixIsSent(g: Group, me: PeerId, target: PeerId, sid: u64, forceFull: bool, now: nat)
    requires ListCoherent(g, me) && g.cachedBitmap.Some? && g.cachedBitmap.value.0 == g.topologyVersion
    ensures var u := Build(g, me, target, sid, forceFull, now).1;
            u.Some? && u.value.conn.Some? ==>
              u.value.conn.value == ConnBitmap(g.cachedBitmap.value.1) || Describes(u.value.conn.value, Topology(g, me))
  {
    if target in g.infos {
      assert Known(g, me) + {target} == Known(g, me);
    }
    var g1 := g.(sessions := g.sessions[target := SessionOf(g, target).(mySessionId := Some(sid))]);
    hide Picked, Sorted, RowsFor, MatrixOf, Known;
    RowsForIgnoresSessions(g, g1, Sorted(Known(g, me)));
  }

  /** A spoiling build sends what it leaves in the cache. */
  lemma SpoilingIsSent(g: Group, me: PeerId, target: PeerId, sid: u64, forceFull: bool, now: nat)
    requires target !in Known(g, me) && !FillsNoCache(g, me, target, now)
    ensures var (g', u) := Build(g, me, target, sid, forceFull, now);
            u.Some? && u.value.conn.Some? ==>
              g'.cachedBitmap.Some? && u.value.conn.value == ConnBitmap(g'.cachedBitmap.value.1)
  {
    assert target !in g.infos;
    hide Picked, Sorted, RowsFor, MatrixOf, Known;
  }

  /** The new update of a build. */
  lemma NewUpdateIsSent(g: Group, me: PeerId, ev: WorldEvent, spoiled: bool)
    requires ev.BuildFor? && ListCoherent(g, me) && (if spoiled then BadMatrix(g, me) else Coherent(g, me))
    ensures var (g', u) := Build(g, me, ev.target, ev.sid, ev.forceFull, ev.now);
            u.Some? && u.value.conn.Some? ==>
              DescribesOrSpoiled(g', me, u.value.conn.value,
                                 spoiled || Spoils(g, me, Send(ev.target, ev.sid, ev.forceFull, ev.now)))
  {
    BuildKeepsTopology(g, me, ev.target, ev.sid, ev.forceFull, ev.now);
    if spoiled {
      CachedMatrixIsSent(g, me, ev.target, ev.sid, ev.forceFull, ev.now);
      MatrixStays(g, me, ev.target, ev.sid, ev.forceFull, ev.now);
    } else if Spoils(g, me, Send(ev.target, ev.sid, ev.forceFull, ev.now)) {
      SpoilingIsSent(g, me, ev.target, ev.sid, ev.forceFull, ev.now);
    } else {
      BuildDescribes(g, me, ev.target, ev.sid, ev.forceFull, ev.now);
    }
    hide Build, Topology, Known, Coherent, FillsNoCache;
  }

  /** One update more at most, and the older ones described as before. */
  lemma OneMoreSent(w: World, w': World, me: PeerId, since: Option<nat>, since': Option<nat>)
    requires SentSound(w, me, since) && ListCoherent(w'.g, me)
    requires w'.g.topologyVersion == w.g.topologyVersion && Topology(w'.g, me) == Topology(w.g, me)
    requires w.built <= w'.built && |w'.built| <= |w.built| + 1
    requires since' == since || (since.None? && since' == Some(|w.built|))
    requires since.Some? ==> since.value <= |w.built| && w'.g.cachedBitmap == w.g.cachedBitmap
    requires |w'.built| > |w.built| ==>
               var u := w'.built[|w.built|].u;
               && (u.topologyVersion.Some? ==> u.conn.Some?)
               && (u.conn.Some? ==> DescribesOrSpoiled(w'.g, me, u.conn.value, since'.Some?))
    ensures SentSound(w', me, since')
  {
    hide Topology, Describes, ListCoherent;
    assert forall i :: 0 <= i < |w.built| ==> w'.built[i] == w.built[i];
  }

  lemma BuildKeepsSent(w: World, me: PeerId, ev: WorldEvent, since: Option<nat>)
    requires ev.BuildFor? && SentSound(w, me, since)
    requires if since.Some? then BadMatrix(w.g, me) && since.value <= |w.built| else Coherent(w.g, me)
    ensures SentSound(Step(w, me, ev), me, if since.None? && SpoilsWorld(w, me, ev) then Some(|w.built|) else since)
  {
    BuildKeepsList(w.g, me, ev.target, ev.sid, ev.forceFull, ev.now);
    BuildKeepsTopology(w.g, me, ev.target, ev.sid, ev.forceFull, ev.now);
    BuildVersion(w.g, me, ev.target, ev.sid, ev.forceFull, ev.now);
    NewUpdateIsSent(w.g, me, ev, since.Some?);
    if since.Some? {
      MatrixStays(w.g, me, ev.target, ev.sid, ev.forceFull, ev.now);
    }
    hide Build, Topology, Coherent, Spoils, Structured, Known, ListCoherent, SentSound, DescribesOrSpoiled;
    var since' := if since.None? && SpoilsWorld(w, me, ev) then Some(|w.built|) else since;
    OneMoreSent(w, Step(w, me, ev), me, since, since');
  }

  lemma BuiltIsNotAhead(w: World, me: PeerId, spoiled: bool)
    requires Sound(w, me, spoiled)
    ensures forall i :: 0 <= i < |w.built| && w.built[i].u.topologyVersion.Some? ==>
              w.built[i].u.topologyVersion.value <= w.g.topologyVersion
    ensures Structured(w.g, me) && if spoiled then BadMatrix(w.g, me) else Coherent(w.g, me)
  {
    hide Topology, Describes, Structured, BadMatrix, Coherent;
  }

  lemma StepKeepsSent(w: World, me: PeerId, ev: WorldEvent, since: Option<nat>)
    requires Sound(w, me, since.Some?) && Legal(w, me, ev) && SentSound(w, me, since)
    requires since.Some? ==> since.value <= |w.built|
    ensures var w' := Step(w, me, ev);
            SentSound(w', me, if w'.g.topologyVersion != w.g.topologyVersion then None
                              else if since.None? && SpoilsWorld(w, me, ev) then Some(|w.built|)
                              else since)
  {
    BuiltIsNotAhead(w, me, since.Some?);
    hide Sound, SentSound, Structured, Coherent, BadMatrix, Apply, Acknowledge, Build, Accounted, Topology;
    match ev
    case Table(e) =>
      StepAccounts(w.g, me, e);
      AccountedKeepsSent(w, Step(w, me, ev), me, since);
    case BuildFor(target, sid, forceFull, now) =>
      BuildKeepsVersion(w.g, me, target, sid, forceFull, now);
      BuildKeepsSent(w, me, ev, since);
    case Answer(peer, sid, weAreInitiator, idx, now) =>
      if idx < |w.built| {
        AcknowledgeSessionsOnly(w.g, peer, sid, weAreInitiator, w.built[idx].u, now);
        SessionsOnlyAccount(w.g, Step(w, me, ev).g, me);
        AccountedKeepsSent(w, Step(w, me, ev), me, since);
      }
  }

  lemma {:induction false} RunsStaySentSound(info: RouteInfo, me: PeerId, evs: seq<WorldEvent>)
    requires RegularRun(info, me, evs)
    ensures SentSound(RunWorld(info, me, evs), me, SpoiledSince(info, me, evs))
    ensures SpoiledSince(info, me, evs).Some? ==> SpoiledSince(info, me, evs).value <= |RunWorld(info, me, evs).built|
  {
    if evs != [] {
      var init, ev := evs[..|evs| - 1], evs[|evs| - 1];
      RunsStaySentSound(info, me, init);
      RunsStaySound(info, me, init);
      SinceMeansSpoiled(info, me, init);
      BooksGrow(RunWorld(info, me, init), me, ev);
      hide Sound, SentSound, Step, Legal, InOrder, SpoilsWorld;
      StepKeepsSent(RunWorld(info, me, init), me, ev, SpoiledSince(info, me, init));
    }
  }

  lemma BooksGrow(w: World, me: PeerId, ev: WorldEvent)
    ensures |Step(w, me, ev).built| >= |w.built|
  {
    hide Build, Apply, Acknowledge;
  }

  /** Some response under the session now recorded, less than 60 s ago, acknowledged an update of the
      current version that describes the topology, or is the spoiled matrix, built since the spoiling. */
  ghost predicate VersionAcknowledged(w: World, me: PeerId, target: PeerId, now: nat, since: Option<nat>) {
    exists k :: 0 <= k < |w.acks| && target in w.g.sessions && Under(w.g.sessions[target], target, w.acks[k])
      && w.acks[k].idx < |w.built| && now < w.acks[k].now + 60_000
      && w.built[w.acks[k].idx].u.topologyVersion == Some(w.g.topologyVersion)
      && w.built[w.acks[k].idx].u.conn.Some?
      && DescribesOrSpoiled(w.g, me, w.built[w.acks[k].idx].u.conn.value, since.Some? && w.acks[k].idx >= since.value)
  }

  /** The same theorem for every regular run, with the cache spoiled or not. */
  lemma WithheldTopologyWasSent(info: RouteInfo, me: PeerId, evs: seq<WorldEvent>, target: PeerId, sid: u64,
                                forceFull: bool, now: nat)
    requires RegularRun(info, me, evs)
    ensures var w := RunWorld(info, me, evs);
            WithholdsTopology(w.g, me, target, sid, forceFull, now) ==>
              VersionAcknowledged(w, me, target, now, SpoiledSince(info, me, evs))
  {
    RunsStaySound(info, me, evs);
    RunsStaySentSound(info, me, evs);
    var w := RunWorld(info, me, evs);
    hide RunWorld, RegularRun, SpoiledSince, SpoiledRun;
    if WithholdsTopology(w.g, me, target, sid, forceFull, now) {
      WithheldIffAcked(w.g, me, target, sid, forceFull, now);
      hide WithholdsTopology, Topology, Coherent, BadMatrix, Structured, Describes, DescribesOrSpoiled;
      var s := SessionOf(w.g, target);
      assert s.lastTopologyVersion == w.g.topologyVersion >= 1 && target in w.g.sessions;
      assert TopologyBacked(s, target, w.built, w.acks);
      var k :| AckedTopologyAt(s, target, w.built, w.acks, k);
    }
  }

  lemma NothingAcked(w: World, me: PeerId, q: PeerId)
    requires Sound(w, me, true) && forall k :: 0 <= k < |w.acks| ==> w.acks[k].peer != q
    ensures SessionOf(w.g, q).lastTopologyVersion == 0 < w.g.topologyVersion && BadMatrix(w.g, me)
  {
    hide Topology, Structured, BadMatrix;
    if q in w.g.sessions {
      assert TopologyBacked(w.g.sessions[q], q, w.built, w.acks);
    }
  }

  lemma BadMatrixIsSent(g: Group, me: PeerId, q: PeerId, now: nat)
    requires BadMatrix(g, me) && SessionOf(g, q).lastTopologyVersion != g.topologyVersion
    requires !(q in g.infos && g.infos[q].supportsConnList)
    ensures var u := Build(g, me, q, 7, false, now).1;
            u.Some? && u.value.conn.Some? && !Describes(u.value.conn.value, Topology(g, me))
  {
    SortedIsSorted(Known(g, me) + {q});
    assert me in Sorted(Known(g, me) + {q});
    hide Picked, RowsFor, MatrixOf, Sorted, Topology, Known;
  }

  /** A first response records the topology it acknowledges. */
  lemma AnswerRecords(g: Group, q: PeerId, u: Update, now: nat)
    requires SessionOf(g, q).lastTopologyVersion == 0 && u.topologyVersion.Some?
    ensures var s := SessionOf(Acknowledge(g, q, 9, true, u, now), q);
            s.lastTopologyVersion == u.topologyVersion.value && s.lastTopologyTouchMs == now
  {
    hide SaveVersions;
  }

  /** Build order matters: an acknowledgement of an older topology leaves the newer version recorded
      but moves its time on, unless it comes at that very time; in build order it cannot. */
  lemma LateAckRefreshes(s: Session, versions: seq<PeerVersion>, acked: u64, now: nat)
    ensures var s' := Committed(s, versions, Some(acked), now);
            (s'.lastTopologyVersion == acked
             || (s'.lastTopologyVersion, s'.lastTopologyTouchMs) == (s.lastTopologyVersion, s.lastTopologyTouchMs))
            <==> acked >= s.lastTopologyVersion || now == s.lastTopologyTouchMs
  {
  }

  // ----- what an update carries, and what a response records

  /** No update is built exactly when it would carry a matrix of more than 8192 peers: the topology is not
      acknowledged, the peer does not read lists, and no current matrix is cached. */
  lemma BuildFailsExactly(g: Group, me: PeerId, target: PeerId, sid: u64, forceFull: bool, now: nat)
    ensures Build(g, me, target, sid, forceFull, now).1.None?
       <==> && !TopologyAcked(SessionOf(g, target), g.topologyVersion, now)
            && !(target in g.infos && g.infos[target].supportsConnList)
            && !(g.cachedBitmap.Some? && g.cachedBitmap.value.0 == g.topologyVersion)
            && |Known(g, me) + {target}| > 8_192
  {
    var relevant := Sorted(Known(g, me) + {target});
    SortedIsSorted(Known(g, me) + {target});
    SortedLength(Known(g, me) + {target});
    assert me in relevant;
    hide Picked, RowsFor, MatrixOf, Sorted, Known, TopologyAcked;
    var g1 := g.(sessions := g.sessions[target := SessionOf(g, target).(mySessionId := Some(sid))]);
    var list := target in g.infos && g.infos[target].supportsConnList;
    SameRecord(SessionOf(g, target), sid, g.topologyVersion, now);
    TooLargeExactly(g1, relevant, target, list, now);
  }

  lemma SameRecord(s: Session, sid: u64, version: u64, now: nat)
    ensures TopologyAcked(s.(mySessionId := Some(sid)), version, now) <==> TopologyAcked(s, version, now)
  {
  }

  lemma TooLargeExactly(g: Group, relevant: seq<PeerId>, target: PeerId, list: bool, now: nat)
    requires relevant != [] && target in g.sessions
    ensures BuildConn(g, relevant, target, list, now).1.TooLarge?
       <==> && !TopologyAcked(g.sessions[target], g.topologyVersion, now) && !list
            && !(g.cachedBitmap.Some? && g.cachedBitmap.value.0 == g.topologyVersion)
            && |relevant| > 8_192
  {
    hide RowsFor, MatrixOf, TopologyAcked;
  }

  /** Connections come as a list exactly to peers that read lists. */
  lemma EncodingFollowsPeer(g: Group, me: PeerId, target: PeerId, sid: u64, forceFull: bool, now: nat)
    ensures var u := Build(g, me, target, sid, forceFull, now).1;
            u.Some? && u.value.conn.Some? ==>
              (u.value.conn.value.ConnPeerList? <==> target in g.infos && g.infos[target].supportsConnList)
  {
    hide Picked, RowsFor, MatrixOf, Sorted, Known;
  }

  /** A response is recorded: the session has its id and time, remembers every version the update carried, and
      the topology it carried, from now. */
  lemma ResponseIsRecorded(g: Group, pid: PeerId, sid: u64, weAreInitiator: bool, u: Update, now: nat)
    ensures var g' := Acknowledge(g, pid, sid, weAreInitiator, u, now);
            && pid in g'.sessions
            && var s, s' := SessionOf(g, pid), g'.sessions[pid];
               && s'.dstSessionId == Some(sid) && s'.lastTouchMs == now && s'.weAreInitiator == weAreInitiator
               && s'.mySessionId == s.mySessionId
               && (forall i :: 0 <= i < |u.versions| ==>
                     && u.versions[i].id in s'.saved && s'.saved[u.versions[i].id].version >= u.versions[i].version
                     && s'.saved[u.versions[i].id].touchedAtMs == now)
               && (u.topologyVersion.Some? ==>
                     s'.lastTopologyVersion >= u.topologyVersion.value && s'.lastTopologyTouchMs == now)
               && (s.dstSessionId == Some(sid) ==> s'.lastTopologyVersion >= s.lastTopologyVersion)
               && (s.dstSessionId != Some(sid) ==>
                   s'.lastTopologyVersion == if u.topologyVersion.Some? then u.topologyVersion.value else 0)
  {
    forall i | 0 <= i < |u.versions|
      ensures var saved := Acknowledge(g, pid, sid, weAreInitiator, u, now).sessions[pid].saved;
              && u.versions[i].id in saved && saved[u.versions[i].id].version >= u.versions[i].version
              && saved[u.versions[i].id].touchedAtMs == now
    {
      SavedCovers(SessionAck(g, pid, sid, weAreInitiator, now).sessions[pid].saved, u.versions, now, i);
    }
    hide SaveVersions;
  }

  /** A saved version is at least as high as every version saved with it. */
  lemma {:induction false} SavedCovers(saved: map<PeerId, SavedVersion>, versions: seq<PeerVersion>, now: nat, n: nat)
    requires n < |versions|
    ensures var r := SaveVersions(saved, versions, now);
            versions[n].id in r && r[versions[n].id].version >= versions[n].version
            && r[versions[n].id].touchedAtMs == now
  {
    if n < |versions| - 1 {
      SavedCovers(saved, versions[..|versions| - 1], now, n);
    }
  }

  // ----- runs that show what the premises are for

  lemma RunStep(info: RouteInfo, me: PeerId, evs: seq<WorldEvent>, ev: WorldEvent)
    ensures RunWorld(info, me, evs + [ev]) == Step(RunWorld(info, me, evs), me, ev)
    ensures LegalRun(info, me, evs + [ev]) <==> LegalRun(info, me, evs) && Legal(RunWorld(info, me, evs), me, ev)
    ensures OrderedRun(info, me, evs + [ev]) <==> OrderedRun(info, me, evs) && InOrder(RunWorld(info, me, evs), ev)
    ensures SpoiledRun(info, me, evs + [ev])
       <==> && RunWorld(info, me, evs + [ev]).g.topologyVersion == RunWorld(info, me, evs).g.topologyVersion
            && (SpoiledRun(info, me, evs) || SpoilsWorld(RunWorld(info, me, evs), me, ev))
  {
    assert (evs + [ev])[..|evs|] == evs;
  }

  /** A small network whose caches and books are right. */
  predicate Small(g: Group, me: PeerId, members: set<PeerId>, version: u64) {
    && Structured(g, me) && Coherent(g, me)
    && g.peers == members && g.infos.Keys <= members && |members| < 100 && g.topologyVersion == version
  }

  lemma SmallKnown(g: Group, me: PeerId, members: set<PeerId>, version: u64)
    requires Small(g, me, members, version)
    ensures Known(g, me) == members + {me} && |Topology(g, me)| == |members| + 1
  {
    hide Coherent;
    assert Known(g, me) == members + {me};
    SortedLength(Known(g, me));
    hide Known, Sorted, Structured;
  }

  lemma JoinEffect(g: Group, me: PeerId, pid: PeerId, now: nat)
    requires pid !in g.peers && g.topologyVersion < U64_MAX
    ensures var g' := AddPeer(g, me, pid, now);
            && g'.peers == g.peers + {pid} && g'.infos == g.infos && g'.topologyVersion == g.topologyVersion + 1
            && g'.sessions == g.sessions[pid := SessionOf(g, pid).(lastTouchMs := now)]
  {
  }

  lemma JoinSmall(g: Group, me: PeerId, members: set<PeerId>, version: u64, pid: PeerId, now: nat)
    requires Small(g, me, members, version) && pid != me && pid !in members && |members| < 99 && version < 1_000
    ensures var g' := AddPeer(g, me, pid, now);
            && Small(g', me, members + {pid}, version + 1) && g'.infos == g.infos
            && g'.sessions == g.sessions[pid := SessionOf(g, pid).(lastTouchMs := now)]
  {
    hide Structured, Coherent, Accounted, Topology, AddPeer;
    JoinAccounts(g, me, pid, now);
    JoinEffect(g, me, pid, now);
    AccountedKeepsCoherent(g, AddPeer(g, me, pid, now), me);
  }

  lemma BuildKeepsSmall(g: Group, me: PeerId, members: set<PeerId>, version: u64, target: PeerId, sid: u64,
                        forceFull: bool, now: nat)
    requires Small(g, me, members, version) && target in members
    ensures var g' := Build(g, me, target, sid, forceFull, now).0;
            && Small(g', me, members, version) && g'.infos == g.infos && Topology(g', me) == Topology(g, me)
            && g'.sessions == g.sessions[target := SessionOf(g, target).(mySessionId := Some(sid))]
  {
    BuildKeepsTopology(g, me, target, sid, forceFull, now);
    BuildCoherenceIsExact(g, me, target, sid, forceFull, now);
    BuildEffect(g, me, target, sid, forceFull, now);
    hide Build, Structured, Coherent, Topology, FillsNoCache;
  }

  /** A build for a member of a small network that has not acknowledged the topology carries it. */
  lemma BuildSmall(g: Group, me: PeerId, members: set<PeerId>, version: u64, target: PeerId, sid: u64, forceFull: bool,
                   now: nat)
    requires Small(g, me, members, version) && target in members && SessionOf(g, target).lastTopologyVersion != version
    ensures var u := Build(g, me, target, sid, forceFull, now).1;
            && u.Some? && u.value.topologyVersion == Some(version)
            && u.value.conn.Some? && Describes(u.value.conn.value, Topology(g, me))
  {
    SmallKnown(g, me, members, version);
    assert Known(g, me) + {target} == Known(g, me);
    hide Build, Structured, Coherent, Topology, Describes, Known;
    BuildDescribes(g, me, target, sid, forceFull, now);
    BuildVersion(g, me, target, sid, forceFull, now);
    WithheldIffAcked(g, me, target, sid, forceFull, now);
    BuildFits(g, me, target, sid, forceFull, now);
  }

  lemma BuildFits(g: Group, me: PeerId, target: PeerId, sid: u64, forceFull: bool, now: nat)
    requires |Known(g, me) + {target}| <= MAX_LEGACY_BITMAP_PEERS
    ensures Build(g, me, target, sid, forceFull, now).1.Some?
  {
    SortedLength(Known(g, me) + {target});
    hide Picked, Sorted, Known, RowsFor, MatrixOf;
  }

  /** Topologies of different sizes are not confused. */
  lemma SizeTells(conn: ConnInfo, a: seq<PeerRow>, b: seq<PeerRow>)
    requires Describes(conn, a) && |a| != |b|
    ensures !Describes(conn, b)
  {
    hide Matrix;
    assert |Versions(a)| == |a| && |Versions(b)| == |b|;
  }

  /** `p` joins and gets an update. */
  function Greeting(p: PeerId): seq<WorldEvent> {
    [Table(Join(p, 1)), BuildFor(p, 7, false, 1)]
  }

  predicate HasGreeted(w: World, me: PeerId, p: PeerId) {
    && Small(w.g, me, {p}, 2) && w.acks == []
    && SessionOf(w.g, p) == NEW_SESSION.(lastTouchMs := 1, mySessionId := Some(7))
    && |w.built| == 1 && w.built[0].target == p
    && w.built[0].u.topologyVersion == Some(2)
    && w.built[0].u.conn.Some? && Describes(w.built[0].u.conn.value, Topology(w.g, me))
  }

  lemma FirstUpdate(info: RouteInfo, me: PeerId, p: PeerId)
    requires p != me
    ensures var w := World(NewGroup(info), [], []);
            var e1, e2 := Table(Join(p, 1)), BuildFor(p, 7, false, 1);
            && Regular(w, me, e1) && Regular(Step(w, me, e1), me, e2)
            && !SpoilsWorld(w, me, e1) && !SpoilsWorld(Step(w, me, e1), me, e2)
            && HasGreeted(Step(Step(w, me, e1), me, e2), me, p)
  {
    hide Structured, Coherent, Topology, Describes, Build, AddPeer;
    NewSmall(info, me);
    JoinSmall(NewGroup(info), me, {}, 1, p, 1);
    assert {} + {p} == {p};
    BuildSmall(AddPeer(NewGroup(info), me, p, 1), me, {p}, 2, p, 7, false, 1);
    BuildKeepsSmall(AddPeer(NewGroup(info), me, p, 1), me, {p}, 2, p, 7, false, 1);
  }

  lemma AfterGreeting(info: RouteInfo, me: PeerId, p: PeerId)
    requires p != me
    ensures RegularRun(info, me, Greeting(p)) && !SpoiledRun(info, me, Greeting(p))
    ensures HasGreeted(RunWorld(info, me, Greeting(p)), me, p)
  {
    var e1, e2 := Table(Join(p, 1)), BuildFor(p, 7, false, 1);
    RunStep(info, me, [], e1);
    RunStep(info, me, [e1], e2);
    assert [] + [e1] == [e1] && [e1] + [e2] == Greeting(p);
    assert RunWorld(info, me, []) == World(NewGroup(info), [], []) && RegularRun(info, me, [])
        && !SpoiledRun(info, me, []);
    hide RunWorld, RegularRun, SpoiledRun, SpoilsWorld, Step, Regular, HasGreeted, Greeting;
    FirstUpdate(info, me, p);
  }

  lemma NewSmall(info: RouteInfo, me: PeerId)
    ensures Small(NewGroup(info), me, {}, 1)
  {
    NewGroupKeeps(me, info);
  }

  /** Even a full update withholds connections: here, ten milliseconds after they were acknowledged. */
  lemma FullUpdateWithholds(info: RouteInfo, me: PeerId, p: PeerId)
    requires p != me
    ensures var evs := Greeting(p) + [Answer(p, 9, true, 0, 10)];
            RegularRun(info, me, evs) && WithholdsTopology(RunWorld(info, me, evs).g, me, p, 7, true, 20)
  {
    AfterGreeting(info, me, p);
    RunStep(info, me, Greeting(p), Answer(p, 9, true, 0, 10));
    hide RunWorld, RegularRun, Greeting, HasGreeted, Step, Regular, WithholdsTopology;
    AnsweredWithholds(RunWorld(info, me, Greeting(p)), me, p);
  }

  lemma AnsweredWithholds(w: World, me: PeerId, p: PeerId)
    requires HasGreeted(w, me, p)
    ensures var a := Answer(p, 9, true, 0, 10);
            Regular(w, me, a) && WithholdsTopology(Step(w, me, a).g, me, p, 7, true, 20)
  {
    hide Structured, Coherent, Topology, Describes, SaveVersions, WithholdsTopology;
    WithheldIffAcked(Step(w, me, Answer(p, 9, true, 0, 10)).g, me, p, 7, true, 20);
  }

  /** Two updates were built for `p`, the second for a topology of version 3 that the first does not
      describe, and neither is answered. */
  ghost predicate TwoUnanswered(w: World, me: PeerId, p: PeerId) {
    && w.g.topologyVersion == 3 && w.acks == []
    && SessionOf(w.g, p) == NEW_SESSION.(lastTouchMs := 1, mySessionId := Some(7))
    && |w.built| == 2 && w.built[0].target == p && w.built[1].target == p
    && w.built[0].u.topologyVersion == Some(2) && w.built[1].u.topologyVersion == Some(3)
    && w.built[0].u.conn.Some? && !Describes(w.built[0].u.conn.value, Topology(w.g, me))
  }

  lemma JoinAndBuild(g: Group, me: PeerId, p: PeerId, q: PeerId, conn: ConnInfo)
    requires p != me && q != me && p != q && Small(g, me, {p}, 2)
    requires SessionOf(g, p).lastTopologyVersion == 0 && Describes(conn, Topology(g, me))
    ensures var g1 := AddPeer(g, me, q, 2);
            var (g2, u) := Build(g1, me, p, 7, false, 2);
            && p in g1.peers && g2.topologyVersion == 3 && SessionOf(g2, p) == SessionOf(g, p).(mySessionId := Some(7))
            && u.Some? && u.value.topologyVersion == Some(3) && !Describes(conn, Topology(g2, me))
  {
    hide Structured, Coherent, Topology, Describes, Build, AddPeer;
    JoinSmall(g, me, {p}, 2, q, 2);
    var g1 := AddPeer(g, me, q, 2);
    BuildSmall(g1, me, {p} + {q}, 3, p, 7, false, 2);
    BuildKeepsSmall(g1, me, {p} + {q}, 3, p, 7, false, 2);
    SmallKnown(g, me, {p}, 2);
    SmallKnown(g1, me, {p} + {q}, 3);
    SizeTells(conn, Topology(g, me), Topology(g1, me));
  }

  lemma SecondUpdate(w: World, me: PeerId, p: PeerId, q: PeerId)
    requires p != me && q != me && p != q && HasGreeted(w, me, p)
    ensures var e1, e2 := Table(Join(q, 2)), BuildFor(p, 7, false, 2);
            && Regular(w, me, e1) && Regular(Step(w, me, e1), me, e2)
            && !SpoilsWorld(w, me, e1) && !SpoilsWorld(Step(w, me, e1), me, e2)
            && TwoUnanswered(Step(Step(w, me, e1), me, e2), me, p)
  {
    hide Structured, Coherent, Topology, Describes, Build, AddPeer;
    JoinAndBuild(w.g, me, p, q, w.built[0].u.conn.value);
  }

  /** The run that breaks build order and nothing else: `q` joins, `p` gets a second update and
      answers it before the first, both within 3 s of being built. */
  function TwoUpdates(p: PeerId, q: PeerId): seq<WorldEvent> {
    Greeting(p) + [Table(Join(q, 2))] + [BuildFor(p, 7, false, 2)] + [Answer(p, 9, true, 1, 10)]
  }

  lemma LateAnswer(w: World, me: PeerId, p: PeerId)
    requires TwoUnanswered(w, me, p)
    ensures var a, b := Answer(p, 9, true, 1, 10), Answer(p, 9, true, 0, 3_001);
            var w2 := Step(Step(w, me, a), me, b);
            && Regular(w, me, a) && Legal(Step(w, me, a), me, b)
            && WithholdsTopology(w2.g, me, p, 7, false, 60_500)
            && !TopologyAcknowledged(w2, me, p, 60_500)
  {
    hide Topology, Describes, SaveVersions;
    var w1 := Step(w, me, Answer(p, 9, true, 1, 10));
    var w2 := Step(w1, me, Answer(p, 9, true, 0, 3_001));
    AcknowledgeSessionsOnly(w.g, p, 9, true, w.built[1].u, 10);
    AcknowledgeSessionsOnly(w1.g, p, 9, true, w.built[0].u, 3_001);
    TopologyIgnoresSessions(w.g, w2.g, me);
    WithheldIffAcked(w2.g, me, p, 7, false, 60_500);
  }

  /** Connections are then withheld at 60 500 ms although the current topology was acknowledged only
      at 10 ms, because the answer to the older update came at 3 001 ms. */
  lemma LateAckExample(info: RouteInfo, me: PeerId, p: PeerId, q: PeerId)
    requires p != me && q != me && p != q
    ensures var late := Answer(p, 9, true, 0, 3_001);
            var w := RunWorld(info, me, TwoUpdates(p, q) + [late]);
            && RegularRun(info, me, TwoUpdates(p, q)) && LegalRun(info, me, TwoUpdates(p, q) + [late])
            && !SpoiledRun(info, me, TwoUpdates(p, q) + [late])
            && WithholdsTopology(w.g, me, p, 7, false, 60_500) && !TopologyAcknowledged(w, me, p, 60_500)
  {
    AfterGreeting(info, me, p);
    var w := RunWorld(info, me, Greeting(p));
    var e1, e2, a, b := Table(Join(q, 2)), BuildFor(p, 7, false, 2), Answer(p, 9, true, 1, 10),
        Answer(p, 9, true, 0, 3_001);
    RunStep(info, me, Greeting(p), e1);
    RunStep(info, me, Greeting(p) + [e1], e2);
    RunStep(info, me, Greeting(p) + [e1] + [e2], a);
    RunStep(info, me, TwoUpdates(p, q), b);
    hide RunWorld, LegalRun, OrderedRun, SpoiledRun, Step, Legal, InOrder, HasGreeted, TwoUnanswered;
    hide WithholdsTopology, TopologyAcknowledged, Spoils;
    SecondUpdate(w, me, p, q);
    LateAnswer(Step(Step(w, me, e1), me, e2), me, p);
  }

  lemma TopologyIgnoresSessions(g: Group, g': Group, me: PeerId)
    requires g' == g.(sessions := g'.sessions)
    ensures Topology(g', me) == Topology(g, me)
  {
    hide Topology;
    SameRowsSameTopology(g, g', me);
  }
}
