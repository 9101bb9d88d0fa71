/** Peer infos an update leaves out, one peer at a time: each was acknowledged by the session the update
    belongs to, unless a response to an older update brought back a version higher than the stored one. */
module RouteInfoAcks {
  import opened Words
  import opened Sums
  import opened ConnBitmap
  import opened Ordered
  import opened RouteTable
  import opened RouteInvariants
  import opened RouteAcks

  /** Position `n` of update `i` carries a version of `pid`. */
  predicate Carries(built: seq<Built>, i: int, n: int, pid: PeerId) {
    0 <= i < |built| && 0 <= n < |built[i].u.versions| && built[i].u.versions[n].id == pid
  }

  /** No session remembers a version of `pid` above this one. */
  predicate RememberedUpTo(g: Group, pid: PeerId, version: nat) {
    forall t :: t in g.sessions && pid in g.sessions[t].saved ==> g.sessions[t].saved[pid].version <= version
  }

  /** What an event must not do to `pid`, as a condition on the state before it: a response must not answer
      an update that carried a higher version than the one stored, and the first report after an absence
      must not come under a version below one still remembered. The relay's own version must not wrap.
      Whatever happens to other peers, and a restart of `pid` itself under any version, is allowed. */
  ghost predicate KeepsUp(w: World, me: PeerId, ev: WorldEvent, pid: PeerId) {
    var before := InfoOf(w.g, me, pid);
    match ev
    case Table(e) =>
      && (e.Sync? && e.from == pid && before.None? ==>
            var after := InfoOf(Apply(w.g, me, e), me, pid);
            after.Some? ==> RememberedUpTo(w.g, pid, Normal(after.value)))
      && (e.MyInfo? && pid == me ==> w.g.myInfoVersion < U32_MAX)
    case Answer(peer, sid, weAreInitiator, idx, now) =>
      before.Some? ==> forall n :: Carries(w.built, idx, n, pid) ==>
          w.built[idx].u.versions[n].version <= Normal(before.value)
    case BuildFor(target, sid, forceFull, now) => true
  }

  ghost predicate KeepsUpRun(info: RouteInfo, me: PeerId, evs: seq<WorldEvent>, pid: PeerId) {
    evs == [] || (KeepsUpRun(info, me, evs[..|evs| - 1], pid)
                  && KeepsUp(RunWorld(info, me, evs[..|evs| - 1]), me, evs[|evs| - 1], pid))
  }

  /** The same for content: an answered update carried an older version of `pid` or the stored info itself,
      and a changed info of the same instance comes under a higher version than any remembered. */
  ghost predicate KeepsContent(w: World, me: PeerId, ev: WorldEvent, pid: PeerId) {
    var before := InfoOf(w.g, me, pid);
    match ev
    case Table(e) =>
      && (e.Sync? && e.from == pid ==>
            var after := InfoOf(Apply(w.g, me, e), me, pid);
            after.Some? && after != before && !(before.Some? && before.value.instId != after.value.instId) ==>
              RememberedUpTo(w.g, pid, Normal(after.value) - 1))
      && (e.MyInfo? && pid == me ==> w.g.myInfoVersion < U32_MAX)
    case Answer(peer, sid, weAreInitiator, idx, now) =>
      before.Some? ==> forall n :: Carries(w.built, idx, n, pid) ==> Current(w.built[idx].u, n, before.value)
    case BuildFor(target, sid, forceFull, now) => true
  }

  /** Position `n` of the update is older than this info, or is this info. */
  predicate Current(u: Update, n: int, info: RouteInfo)
    requires 0 <= n < |u.versions|
  {
    u.versions[n].version < Normal(info)
    || (u.versions[n].version == Normal(info) && n < |u.infos| && u.infos[n] == info)
  }

  ghost predicate KeepsContentRun(info: RouteInfo, me: PeerId, evs: seq<WorldEvent>, pid: PeerId) {
    evs == [] || (KeepsContentRun(info, me, evs[..|evs| - 1], pid)
                  && KeepsContent(RunWorld(info, me, evs[..|evs| - 1]), me, evs[|evs| - 1], pid))
  }

  // ----- which events change which infos

  lemma {:induction false} StoreInfosKeepsOthers(g: Group, me: PeerId, from: PeerId, infos: seq<RouteInfo>, now: nat,
                                                 pid: PeerId)
    requires pid != from
    ensures InfoOf(StoreInfos(g, from, infos, now).g, me, pid) == InfoOf(g, me, pid)
  {
    if infos != [] {
      StoreInfosKeepsOthers(g, me, from, infos[..|infos| - 1], now, pid);
    }
  }

  predicate Owns(ev: Event, me: PeerId, pid: PeerId) {
    (ev.Sync? && ev.from == pid) || (ev.MyInfo? && pid == me)
  }

  /** Only its owner changes an info; anything else at most removes it. */
  lemma OnlyOwnersChangeInfos(g: Group, me: PeerId, ev: TableEvent, pid: PeerId)
    requires !Owns(ev, me, pid)
    ensures InfoOf(Apply(g, me, ev), me, pid) == InfoOf(g, me, pid) || InfoOf(Apply(g, me, ev), me, pid).None?
  {
    match ev {
      case Join(p, now) =>
      case Leave(p) =>
      case SweepAt(now) =>
        var dead := Sorted(DeadPeers(g, now));
        var g1 := RemoveEach(g, me, dead);
        RemoveEachEffect(g, me, dead);
        RemoveEachMyInfo(g, me, dead);
        hide RemoveEach, Sorted, Outdated;
        PurgeEffect(g1, OutdatedInfos(g1, now));
      case Sync(from, req, now) =>
        var g1 := g.(sessions := g.sessions[from := Greeted(SessionOf(g, from), req.sessionId, req.isInitiator, now)]);
        StoreInfosKeepsOthers(g1, me, from, req.infos, now, pid);
        hide StoreInfos, StoreRows, Reported, FromReport;
        StoreRowsEffect(StoreInfos(g1, from, req.infos, now).g, me, from, Reported(req.conn));
      case MyInfo(details) =>
    }
  }

  lemma {:induction false} RemoveEachMyInfo(g: Group, me: PeerId, pids: seq<PeerId>)
    ensures RemoveEach(g, me, pids).myInfo == g.myInfo && RemoveEach(g, me, pids).myInfoVersion == g.myInfoVersion
  {
    if pids != [] {
      RemoveEachMyInfo(g, me, pids[..|pids| - 1]);
    }
  }

  lemma MyInfoStays(g: Group, me: PeerId, ev: TableEvent)
    requires !ev.MyInfo?
    ensures Apply(g, me, ev).myInfo == g.myInfo && Apply(g, me, ev).myInfoVersion == g.myInfoVersion
  {
    match ev {
      case Join(p, now) =>
      case Leave(p) =>
      case SweepAt(now) => RemoveEachMyInfo(g, me, Sorted(DeadPeers(g, now)));
      case Sync(from, req, now) =>
        var g1 := g.(sessions := g.sessions[from := Greeted(SessionOf(g, from), req.sessionId, req.isInitiator, now)]);
        StoreInfosEffect(g1, from, req.infos, now);
        hide StoreInfos, StoreRows, Reported, FromReport;
        StoreRowsEffect(StoreInfos(g1, from, req.infos, now).g, me, from, Reported(req.conn));
    }
  }

  // ----- what sessions remember of one peer

  predicate Forgotten(g: Group, pid: PeerId) {
    forall t :: t in g.sessions ==> pid !in g.sessions[t].saved
  }

  /** Storing reports of one peer: its info stays, or every session forgets it, or it rises. */
  lemma {:induction false} StoreInfosReplaces(g: Group, from: PeerId, infos: seq<RouteInfo>, now: nat)
    requires from in g.infos
    ensures var g' := StoreInfos(g, from, infos, now).g;
            && from in g'.infos
            && (|| g'.infos[from] == g.infos[from]
                || Forgotten(g', from)
                || (g'.infos[from].version > g.infos[from].version && g'.infos[from].instId == g.infos[from].instId))
  {
    if infos != [] {
      StoreInfosReplaces(g, from, infos[..|infos| - 1], now);
    }
  }

  /** How an event of the table changes an info that stays stored. */
  predicate Replaced(g: Group, g': Group, me: PeerId, pid: PeerId)
    requires InfoOf(g, me, pid).Some? && InfoOf(g', me, pid).Some?
  {
    var before, after := InfoOf(g, me, pid).value, InfoOf(g', me, pid).value;
    || after == before
    || Forgotten(g', pid)
    || (after.version > before.version && after.instId == before.instId)
  }

  lemma TableReplaces(g: Group, me: PeerId, ev: TableEvent, pid: PeerId)
    requires InfoOf(g, me, pid).Some? && InfoOf(Apply(g, me, ev), me, pid).Some?
    requires ev.MyInfo? && pid == me ==> g.myInfo.version == g.myInfoVersion < U32_MAX
    ensures Replaced(g, Apply(g, me, ev), me, pid)
  {
    if !Owns(ev, me, pid) {
      OnlyOwnersChangeInfos(g, me, ev, pid);
    } else if ev.Sync? {
      SyncReplaces(g, me, ev.from, ev.req, ev.now);
    }
  }

  lemma SyncReplaces(g: Group, me: PeerId, from: PeerId, req: SyncRequest, now: nat)
    requires InfoOf(g, me, from).Some?
    ensures InfoOf(Handle(g, me, from, req, now).0, me, from).Some?
    ensures Replaced(g, Handle(g, me, from, req, now).0, me, from)
  {
    var g1 := g.(sessions := g.sessions[from := Greeted(SessionOf(g, from), req.sessionId, req.isInitiator, now)]);
    StoreInfosEffect(g1, from, req.infos, now);
    if from in g.infos {
      StoreInfosReplaces(g1, from, req.infos, now);
    }
    hide StoreInfos, StoreRows, Reported, FromReport, Greeted;
    StoreRowsEffect(StoreInfos(g1, from, req.infos, now).g, me, from, Reported(req.conn));
  }

  /** No session remembers more of `pid` than is stored. */
  predicate NotAbove(g: Group, me: PeerId, pid: PeerId) {
    && (pid == me ==> g.myInfo.version == g.myInfoVersion >= 1)
    && (InfoOf(g, me, pid).Some? ==> RememberedUpTo(g, pid, Normal(InfoOf(g, me, pid).value)))
  }

  /** What sessions forget does not raise what they remember. */
  lemma ForgettingKeepsBound(g: Group, g': Group, pid: PeerId, version: nat)
    requires SessionsForget(g, g') && RememberedUpTo(g, pid, version)
    ensures RememberedUpTo(g', pid, version)
  {
    forall t | t in g'.sessions && pid in g'.sessions[t].saved
      ensures g'.sessions[t].saved[pid].version <= version
    {
      assert Forgets(SessionOf(g, t), g'.sessions[t]);
      assert t in g.sessions;
    }
  }

  lemma MyVersionFollows(g: Group, me: PeerId, ev: TableEvent)
    requires g.myInfo.version == g.myInfoVersion >= 1 && (ev.MyInfo? ==> g.myInfoVersion < U32_MAX)
    ensures Apply(g, me, ev).myInfo.version == Apply(g, me, ev).myInfoVersion >= 1
  {
    if !ev.MyInfo? {
      MyInfoStays(g, me, ev);
    }
  }

  lemma TableKeepsNotAbove(w: World, me: PeerId, ev: TableEvent, pid: PeerId)
    requires NotAbove(w.g, me, pid) && KeepsUp(w, me, Table(ev), pid)
    ensures NotAbove(Apply(w.g, me, ev), me, pid)
  {
    var g, g' := w.g, Apply(w.g, me, ev);
    TableForgets(g, me, ev);
    if pid == me {
      MyVersionFollows(g, me, ev);
    }
    var before, after := InfoOf(g, me, pid), InfoOf(g', me, pid);
    if after.Some? {
      if before.Some? {
        TableReplaces(g, me, ev, pid);
        hide Apply, SessionsForget;
        ForgettingKeepsBound(g, g', pid, Normal(before.value));
      } else {
        if !Owns(ev, me, pid) {
          OnlyOwnersChangeInfos(g, me, ev, pid);
        }
        hide Apply, SessionsForget;
        ForgettingKeepsBound(g, g', pid, Normal(after.value));
      }
    }
  }

  /** What a response leaves in a session for `pid`: what was there, or what the update carried. */
  lemma AnswerRemembers(w: World, peer: PeerId, sid: u64, weAreInitiator: bool, idx: nat, now: nat, t: PeerId,
                        pid: PeerId)
    requires idx < |w.built|
    requires var g' := Acknowledge(w.g, peer, sid, weAreInitiator, w.built[idx].u, now);
             t in g'.sessions && pid in g'.sessions[t].saved
    ensures var g' := Acknowledge(w.g, peer, sid, weAreInitiator, w.built[idx].u, now);
            var v := g'.sessions[t].saved[pid].version;
            || (t in w.g.sessions && pid in w.g.sessions[t].saved && w.g.sessions[t].saved[pid].version == v
                && g'.sessions[t].dstSessionId == w.g.sessions[t].dstSessionId)
            || (t == peer && g'.sessions[t].dstSessionId == Some(sid)
                && exists n :: Carries(w.built, idx, n, pid) && w.built[idx].u.versions[n].version == v)
  {
    var u := w.built[idx].u;
    var s1 := AnsweredSession(w.g, peer, sid, weAreInitiator, u, now);
    if t == peer {
      SaveVersionsEffect(s1.saved, u.versions, now, pid);
      var g' := Acknowledge(w.g, peer, sid, weAreInitiator, u, now);
      var v := g'.sessions[t].saved[pid].version;
      hide Acknowledge, SaveVersions;
      if PeerVersion(pid, v) in u.versions {
        var n :| 0 <= n < |u.versions| && u.versions[n] == PeerVersion(pid, v);
        assert Carries(w.built, idx, n, pid);
      }
    }
  }

  lemma AnswerKeepsNotAbove(w: World, me: PeerId, peer: PeerId, sid: u64, weAreInitiator: bool, idx: nat, now: nat,
                            pid: PeerId)
    requires NotAbove(w.g, me, pid) && KeepsUp(w, me, Answer(peer, sid, weAreInitiator, idx, now), pid)
    ensures NotAbove(Step(w, me, Answer(peer, sid, weAreInitiator, idx, now)).g, me, pid)
  {
    if idx < |w.built| {
      var g' := Acknowledge(w.g, peer, sid, weAreInitiator, w.built[idx].u, now);
      AcknowledgeSessionsOnly(w.g, peer, sid, weAreInitiator, w.built[idx].u, now);
      hide Acknowledge;
      forall t | t in g'.sessions && pid in g'.sessions[t].saved && InfoOf(w.g, me, pid).Some?
        ensures g'.sessions[t].saved[pid].version <= Normal(InfoOf(w.g, me, pid).value)
      {
        AnswerRemembers(w, peer, sid, weAreInitiator, idx, now, t, pid);
      }
    }
  }

  lemma BuildKeepsNotAbove(g: Group, me: PeerId, target: PeerId, sid: u64, forceFull: bool, now: nat, pid: PeerId)
    requires NotAbove(g, me, pid)
    ensures NotAbove(Build(g, me, target, sid, forceFull, now).0, me, pid)
  {
    BuildEffect(g, me, target, sid, forceFull, now);
    BuildForgets(g, me, target, sid, forceFull, now);
    var g' := Build(g, me, target, sid, forceFull, now).0;
    hide Build, SessionsForget;
    if InfoOf(g, me, pid).Some? {
      ForgettingKeepsBound(g, g', pid, Normal(InfoOf(g, me, pid).value));
    }
  }

  lemma {:induction false} RunsStayNotAbove(info: RouteInfo, me: PeerId, evs: seq<WorldEvent>, pid: PeerId)
    requires KeepsUpRun(info, me, evs, pid)
    ensures NotAbove(RunWorld(info, me, evs).g, me, pid)
  {
    if evs != [] {
      var init := evs[..|evs| - 1];
      RunsStayNotAbove(info, me, init, pid);
      var w := RunWorld(info, me, init);
      hide NotAbove, KeepsUp, Apply, Build, Acknowledge;
      match evs[|evs| - 1]
      case Table(e) => TableKeepsNotAbove(w, me, e, pid);
      case BuildFor(target, sid, forceFull, now) => BuildKeepsNotAbove(w.g, me, target, sid, forceFull, now, pid);
      case Answer(peer, sid, weAreInitiator, idx, now) =>
        AnswerKeepsNotAbove(w, me, peer, sid, weAreInitiator, idx, now, pid);
    }
  }

  /** The infos and versions of a build, position by position. */
  lemma BuildCarries(g: Group, me: PeerId, target: PeerId, sid: u64, forceFull: bool, now: nat, n: nat)
    requires Build(g, me, target, sid, forceFull, now).1.Some?
    requires n < |Build(g, me, target, sid, forceFull, now).1.value.versions|
    ensures var u := Build(g, me, target, sid, forceFull, now).1.value;
            var pid := u.versions[n].id;
            && n < |u.infos| && InfoOf(g, me, pid) == Some(u.infos[n]) && u.versions[n].version == Normal(u.infos[n])
  {
    hide Sorted, Known;
    var s := SessionOf(g, target).(mySessionId := Some(sid));
    var picked := Picked(g, me, s, target, forceFull || s.dstSessionId.None?, now, Sorted(Known(g, me) + {target}));
    hide Picked;
    assert picked[n] in picked;
  }

  // ----- what is left out

  /** Acknowledgement `k`, under the session now recorded, covers an update carrying exactly this info. */
  ghost predicate InfoAcked(w: World, s: Session, t: PeerId, info: RouteInfo, pid: PeerId, k: int) {
    && 0 <= k < |w.acks| && Under(s, t, w.acks[k]) && w.acks[k].idx < |w.built|
    && exists n :: Carries(w.built, w.acks[k].idx, n, pid) && n < |w.built[w.acks[k].idx].u.infos|
                && w.built[w.acks[k].idx].u.infos[n] == info
  }

  ghost predicate RecentlyNamed(w: World, s: Session, t: PeerId, pid: PeerId, now: nat, k: int) {
    && 0 <= k < |w.acks| && Under(s, t, w.acks[k]) && w.acks[k].idx < |w.built|
    && Names(w.built[w.acks[k].idx].u, pid) && now < w.acks[k].now + 60_000
  }

  /** An info is left out exactly when the update is incremental, the session is known, and it has a record
      less than 60 s old of a version at least as high, where 0 counts as 1. */
  lemma LeftOutIff(g: Group, me: PeerId, target: PeerId, sid: u64, forceFull: bool, now: nat, pid: PeerId)
    requires pid != target && InfoOf(g, me, pid).Some? && Build(g, me, target, sid, forceFull, now).1.Some?
    ensures var s, version := SessionOf(g, target), InfoOf(g, me, pid).value.version;
            !Names(Build(g, me, target, sid, forceFull, now).1.value, pid)
            <==> && !forceFull && s.dstSessionId.Some?
                 && pid in s.saved && now < s.saved[pid].touchedAtMs + 60_000
                 && s.saved[pid].version >= (if version == 0 then 1 else version)
  {
    SortedIsSorted(Known(g, me) + {target});
    var s := SessionOf(g, target).(mySessionId := Some(sid));
    var full := forceFull || s.dstSessionId.None?;
    var relevant := Sorted(Known(g, me) + {target});
    var picked := Picked(g, me, s, target, full, now, relevant);
    var u := Build(g, me, target, sid, forceFull, now).1.value;
    assert pid in relevant;
    assert pid in picked <==> Picks(g, me, s, target, full, now, pid);
    hide Picked, Sorted, RowsFor, MatrixOf;
    assert |u.versions| == |picked| && forall n :: 0 <= n < |picked| ==> u.versions[n].id == picked[n];
    assert Names(u, pid) <==> pid in picked;
  }

  /** A change of the relay's own info reaches every peer: the next update carries the changed info under the
      next version, whatever the peer has acknowledged of the old one. */
  lemma OwnChangeIsCarried(g: Group, me: PeerId, details: int, target: PeerId, sid: u64, forceFull: bool, now: nat)
    requires target != me && g.myInfoVersion < U32_MAX
    requires target in g.sessions && me in g.sessions[target].saved ==>
               g.sessions[target].saved[me].version <= g.myInfoVersion
    requires Build(Apply(g, me, MyInfo(details)), me, target, sid, forceFull, now).1.Some?
    ensures var u := Build(Apply(g, me, MyInfo(details)), me, target, sid, forceFull, now).1.value;
            exists n :: && 0 <= n < |u.versions| == |u.infos| && u.versions[n] == PeerVersion(me, g.myInfoVersion + 1)
                        && u.infos[n] == g.myInfo.(details := details, version := g.myInfoVersion + 1)
  {
    var g' := Apply(g, me, MyInfo(details));
    LeftOutIff(g', me, target, sid, forceFull, now, me);
    var u := Build(g', me, target, sid, forceFull, now).1.value;
    hide Picked, Sorted, RowsFor, MatrixOf;
    assert Names(u, me);
  }

  /** The update is built, and the info of a third peer, though known, is not in it. */
  predicate WithholdsInfo(g: Group, me: PeerId, target: PeerId, sid: u64, forceFull: bool, now: nat, pid: PeerId) {
    var u := Build(g, me, target, sid, forceFull, now).1;
    pid != target && InfoOf(g, me, pid).Some? && u.Some? && !Names(u.value, pid)
  }

  /** In every run in which responses keep up with `pid`, whatever other peers do and however `pid` restarts:
      if an update leaves out the info of `pid`, the current session has acknowledged its normalised
      version, and a response naming it came within 60 s. */
  lemma WithheldVersionIsSafe(info: RouteInfo, me: PeerId, evs: seq<WorldEvent>, target: PeerId, sid: u64,
                              forceFull: bool, now: nat, pid: PeerId)
    requires KeepsUpRun(info, me, evs, pid)
    ensures var w := RunWorld(info, me, evs);
            var s := SessionOf(w.g, target);
            WithholdsInfo(w.g, me, target, sid, forceFull, now, pid) ==>
            && !forceFull
            && (exists k ::
                AckedVersionAt(s, target, w.built, w.acks, PeerVersion(pid, Normal(InfoOf(w.g, me, pid).value)), k))
            && (exists k :: RecentlyNamed(w, s, target, pid, now, k))
  {
    SavedIsAlwaysBacked(info, me, evs);
    RunsStayNotAbove(info, me, evs, pid);
    var w := RunWorld(info, me, evs);
    hide RunWorld, KeepsUpRun, AllSavedBacked;
    if WithholdsInfo(w.g, me, target, sid, forceFull, now, pid) {
      LeftOutIff(w.g, me, target, sid, forceFull, now, pid);
      hide Build;
      LeftOutVersionIsAcked(w, me, target, now, pid);
    }
  }

  lemma LeftOutVersionIsAcked(w: World, me: PeerId, target: PeerId, now: nat, pid: PeerId)
    requires AllSavedBacked(w.g, w.built, w.acks) && NotAbove(w.g, me, pid) && InfoOf(w.g, me, pid).Some?
    requires Normal(InfoOf(w.g, me, pid).value) <= SavedFor(SessionOf(w.g, target), pid, now)
    ensures var s := SessionOf(w.g, target);
            && target in w.g.sessions && pid in s.saved
            && s.saved[pid].version == Normal(InfoOf(w.g, me, pid).value)
            && (exists k ::
                AckedVersionAt(s, target, w.built, w.acks, PeerVersion(pid, Normal(InfoOf(w.g, me, pid).value)), k))
            && (exists k :: RecentlyNamed(w, s, target, pid, now, k))
  {
    var s := SessionOf(w.g, target);
    assert target in w.g.sessions && pid in s.saved && FreshVersion(s.saved[pid], now);
    assert SavedBacked(s, target, w.built, w.acks);
    var l :| NamedAt(s, target, w.built, w.acks, pid, s.saved[pid].touchedAtMs, l);
    assert RecentlyNamed(w, s, target, pid, now, l);
  }

  /** The condition on responses is exact: whenever an update that carried a version of `pid` at least as high
      as the stored one is answered, the stored info is left out of the next incremental update. */
  lemma AnswerHides(w: World, me: PeerId, target: PeerId, sid: u64, weAreInitiator: bool, idx: nat, now: nat,
                    pid: PeerId, n: int)
    requires Carries(w.built, idx, n, pid) && pid != target && InfoOf(w.g, me, pid).Some?
    requires Normal(InfoOf(w.g, me, pid).value) <= w.built[idx].u.versions[n].version
    ensures var g' := Step(w, me, Answer(target, sid, weAreInitiator, idx, now)).g;
            && InfoOf(g', me, pid) == InfoOf(w.g, me, pid)
            && (Build(g', me, target, sid, false, now).1.Some? ==> WithholdsInfo(g', me, target, sid, false, now, pid))
  {
    var u := w.built[idx].u;
    var g' := Step(w, me, Answer(target, sid, weAreInitiator, idx, now)).g;
    SavedCovers(SessionAck(w.g, target, sid, weAreInitiator, now).sessions[target].saved, u.versions, now, n);
    AcknowledgeSessionsOnly(w.g, target, sid, weAreInitiator, u, now);
    hide SaveVersions, Build;
    if Build(g', me, target, sid, false, now).1.Some? {
      LeftOutIff(g', me, target, sid, false, now, pid);
    }
  }

  // ----- versions that never fall

  /** Nothing sent of `pid` is above this version. */
  ghost predicate SentUpTo(built: seq<Built>, pid: PeerId, version: nat) {
    forall i, n :: Carries(built, i, n, pid) ==> built[i].u.versions[n].version <= version
  }

  /** `pid` never reports an info under a version lower than one sent of it. */
  ghost predicate NeverFalls(w: World, me: PeerId, ev: WorldEvent, pid: PeerId) {
    && (ev.Table? && ev.ev.Sync? && ev.ev.from == pid ==>
          var after := InfoOf(Apply(w.g, me, ev.ev), me, pid);
          after.Some? && after != InfoOf(w.g, me, pid) ==> SentUpTo(w.built, pid, Normal(after.value)))
    && (ev.Table? && ev.ev.MyInfo? && pid == me ==> w.g.myInfoVersion < U32_MAX)
  }

  ghost predicate NeverFallsRun(info: RouteInfo, me: PeerId, evs: seq<WorldEvent>, pid: PeerId) {
    evs == [] || (NeverFallsRun(info, me, evs[..|evs| - 1], pid)
                  && NeverFalls(RunWorld(info, me, evs[..|evs| - 1]), me, evs[|evs| - 1], pid))
  }

  ghost predicate NotAhead(w: World, me: PeerId, pid: PeerId) {
    && (pid == me ==> w.g.myInfo.version == w.g.myInfoVersion >= 1)
    && (InfoOf(w.g, me, pid).Some? ==> SentUpTo(w.built, pid, Normal(InfoOf(w.g, me, pid).value)))
  }

  /** What is remembered was sent. */
  lemma RememberedWasSent(w: World, pid: PeerId, version: nat)
    requires AllSavedBacked(w.g, w.built, w.acks) && SentUpTo(w.built, pid, version)
    ensures RememberedUpTo(w.g, pid, version)
  {
    forall t | t in w.g.sessions && pid in w.g.sessions[t].saved
      ensures w.g.sessions[t].saved[pid].version <= version
    {
      assert SavedBacked(w.g.sessions[t], t, w.built, w.acks);
      var v := PeerVersion(pid, w.g.sessions[t].saved[pid].version);
      var k :| AckedVersionAt(w.g.sessions[t], t, w.built, w.acks, v, k);
      var i := w.acks[k].idx;
      var n :| 0 <= n < |w.built[i].u.versions| && w.built[i].u.versions[n] == v;
      assert Carries(w.built, i, n, pid);
    }
  }

  lemma StepStaysBehind(w: World, me: PeerId, ev: WorldEvent, pid: PeerId)
    requires NotAhead(w, me, pid) && NeverFalls(w, me, ev, pid)
    ensures NotAhead(Step(w, me, ev), me, pid)
  {
    match ev {
      case Table(e) =>
        if pid == me {
          MyVersionFollows(w.g, me, e);
        }
        if !Owns(e, me, pid) {
          OnlyOwnersChangeInfos(w.g, me, e, pid);
        }
      case BuildFor(target, sid, forceFull, now) => BuildStaysBehind(w, me, target, sid, forceFull, now, pid);
      case Answer(peer, sid, weAreInitiator, idx, now) =>
        if idx < |w.built| {
          AcknowledgeSessionsOnly(w.g, peer, sid, weAreInitiator, w.built[idx].u, now);
        }
    }
  }

  lemma BuildStaysBehind(w: World, me: PeerId, target: PeerId, sid: u64, forceFull: bool, now: nat, pid: PeerId)
    requires NotAhead(w, me, pid)
    ensures NotAhead(Step(w, me, BuildFor(target, sid, forceFull, now)), me, pid)
  {
    var w' := Step(w, me, BuildFor(target, sid, forceFull, now));
    BuildEffect(w.g, me, target, sid, forceFull, now);
    hide RowsFor, MatrixOf;
    forall i, n | InfoOf(w'.g, me, pid).Some? && Carries(w'.built, i, n, pid)
      ensures w'.built[i].u.versions[n].version <= Normal(InfoOf(w'.g, me, pid).value)
    {
      if i < |w.built| {
        assert Carries(w.built, i, n, pid);
      } else {
        BuildCarries(w.g, me, target, sid, forceFull, now, n);
      }
    }
  }

  /** A peer whose versions never fall is always kept up with, so the theorem above holds of it without
      any condition on responses. */
  lemma {:induction false} NeverFallingKeepsUp(info: RouteInfo, me: PeerId, evs: seq<WorldEvent>, pid: PeerId)
    requires NeverFallsRun(info, me, evs, pid)
    ensures NotAhead(RunWorld(info, me, evs), me, pid)
    ensures KeepsUpRun(info, me, evs, pid)
  {
    if evs != [] {
      var init, ev := evs[..|evs| - 1], evs[|evs| - 1];
      NeverFallingKeepsUp(info, me, init, pid);
      SavedIsAlwaysBacked(info, me, init);
      var w := RunWorld(info, me, init);
      hide NotAhead, KeepsUp, NeverFalls, AllSavedBacked, Step;
      StepStaysBehind(w, me, ev, pid);
      StepKeepsUp(w, me, ev, pid);
    }
  }

  lemma StepKeepsUp(w: World, me: PeerId, ev: WorldEvent, pid: PeerId)
    requires NotAhead(w, me, pid) && NeverFalls(w, me, ev, pid) && AllSavedBacked(w.g, w.built, w.acks)
    ensures KeepsUp(w, me, ev, pid)
  {
    hide Apply, AllSavedBacked, RememberedUpTo;
    if ev.Table? && ev.ev.Sync? && ev.ev.from == pid {
      var after := InfoOf(Apply(w.g, me, ev.ev), me, pid);
      if InfoOf(w.g, me, pid).None? && after.Some? {
        RememberedWasSent(w, pid, Normal(after.value));
      }
    }
  }

  // ----- content

  /** A session that remembers the stored version acknowledged the stored info. */
  ghost predicate ContentBacked(w: World, me: PeerId, pid: PeerId) {
    InfoOf(w.g, me, pid).Some? ==>
      forall t :: t in w.g.sessions && pid in w.g.sessions[t].saved
                  && w.g.sessions[t].saved[pid].version == Normal(InfoOf(w.g, me, pid).value) ==>
        exists k :: InfoAcked(w, w.g.sessions[t], t, InfoOf(w.g, me, pid).value, pid, k)
  }

  lemma ContentImpliesVersion(w: World, me: PeerId, ev: WorldEvent, pid: PeerId)
    requires KeepsContent(w, me, ev, pid)
    ensures KeepsUp(w, me, ev, pid)
  {
    hide Apply;
  }

  /** An acknowledgement stays one while the session does and the books only grow. */
  lemma InfoAckedStays(w: World, s: Session, w': World, s': Session, t: PeerId, info: RouteInfo, pid: PeerId, k: int)
    requires InfoAcked(w, s, t, info, pid, k) && s'.dstSessionId == s.dstSessionId
    requires w.built <= w'.built && w.acks <= w'.acks
    ensures InfoAcked(w', s', t, info, pid, k)
  {
    var n :| Carries(w.built, w.acks[k].idx, n, pid) && n < |w.built[w.acks[k].idx].u.infos|
             && w.built[w.acks[k].idx].u.infos[n] == info;
    assert w'.acks[k] == w.acks[k] && w'.built[w.acks[k].idx] == w.built[w.acks[k].idx];
    assert Carries(w'.built, w'.acks[k].idx, n, pid);
  }

  /** Where sessions only forget and the info stays, so does its backing. */
  lemma ContentStays(w: World, w': World, me: PeerId, pid: PeerId)
    requires ContentBacked(w, me, pid) && SessionsForget(w.g, w'.g) && InfoOf(w'.g, me, pid) == InfoOf(w.g, me, pid)
    requires w.built <= w'.built && w.acks <= w'.acks
    ensures ContentBacked(w', me, pid)
  {
    hide InfoAcked;
    if InfoOf(w.g, me, pid).Some? {
      var info := InfoOf(w.g, me, pid).value;
      forall t | t in w'.g.sessions && pid in w'.g.sessions[t].saved
          && w'.g.sessions[t].saved[pid].version == Normal(info)
        ensures exists k :: InfoAcked(w', w'.g.sessions[t], t, info, pid, k)
      {
        assert Forgets(SessionOf(w.g, t), w'.g.sessions[t]);
        assert t in w.g.sessions;
        var k :| InfoAcked(w, w.g.sessions[t], t, info, pid, k);
        InfoAckedStays(w, w.g.sessions[t], w', w'.g.sessions[t], t, info, pid, k);
      }
    }
  }

  /** A changed info is above everything remembered, or nothing is remembered. */
  lemma ChangedIsAbove(w: World, me: PeerId, ev: TableEvent, pid: PeerId)
    requires NotAbove(w.g, me, pid) && KeepsContent(w, me, Table(ev), pid)
    requires var after := InfoOf(Apply(w.g, me, ev), me, pid); after.Some? && after != InfoOf(w.g, me, pid)
    ensures var g' := Apply(w.g, me, ev);
            Forgotten(g', pid) || RememberedUpTo(g', pid, Normal(InfoOf(g', me, pid).value) - 1)
  {
    var g, g' := w.g, Apply(w.g, me, ev);
    TableForgets(g, me, ev);
    var before, after := InfoOf(g, me, pid), InfoOf(g', me, pid);
    if !Owns(ev, me, pid) {
      OnlyOwnersChangeInfos(g, me, ev, pid);
    }
    if before.Some? {
      TableReplaces(g, me, ev, pid);
    }
    if ev.MyInfo? {
      assert before.Some? && Normal(before.value) == Normal(after.value) - 1;
    }
    hide Apply, SessionsForget;
    if !(before.Some? && before.value.instId != after.value.instId) {
      ForgettingKeepsBound(g, g', pid, Normal(after.value) - 1);
    }
  }

  lemma TableKeepsContent(w: World, me: PeerId, ev: TableEvent, pid: PeerId)
    requires NotAbove(w.g, me, pid) && ContentBacked(w, me, pid) && KeepsContent(w, me, Table(ev), pid)
    ensures ContentBacked(Step(w, me, Table(ev)), me, pid)
  {
    var w' := Step(w, me, Table(ev));
    hide Apply, NotAbove, KeepsContent;
    if InfoOf(w'.g, me, pid) == InfoOf(w.g, me, pid) {
      TableForgets(w.g, me, ev);
      ContentStays(w, w', me, pid);
    } else if InfoOf(w'.g, me, pid).Some? {
      ChangedIsAbove(w, me, ev, pid);
    }
  }

  lemma AnswerKeepsContent(w: World, me: PeerId, peer: PeerId, sid: u64, weAreInitiator: bool, idx: nat, now: nat,
                           pid: PeerId)
    requires ContentBacked(w, me, pid) && KeepsContent(w, me, Answer(peer, sid, weAreInitiator, idx, now), pid)
    ensures ContentBacked(Step(w, me, Answer(peer, sid, weAreInitiator, idx, now)), me, pid)
  {
    if idx < |w.built| && InfoOf(w.g, me, pid).Some? {
      var w' := Step(w, me, Answer(peer, sid, weAreInitiator, idx, now));
      var info := InfoOf(w.g, me, pid).value;
      AcknowledgeSessionsOnly(w.g, peer, sid, weAreInitiator, w.built[idx].u, now);
      hide Acknowledge;
      forall t | t in w'.g.sessions && pid in w'.g.sessions[t].saved
          && w'.g.sessions[t].saved[pid].version == Normal(info)
        ensures exists k :: InfoAcked(w', w'.g.sessions[t], t, info, pid, k)
      {
        AnswerRemembers(w, peer, sid, weAreInitiator, idx, now, t, pid);
        var s := w'.g.sessions[t];
        if n :| t == peer && s.dstSessionId == Some(sid)
                && Carries(w.built, idx, n, pid) && w.built[idx].u.versions[n].version == Normal(info) {
          assert InfoAcked(w', s, t, info, pid, |w.acks|);
        } else {
          var k :| InfoAcked(w, w.g.sessions[t], t, info, pid, k);
          InfoAckedStays(w, w.g.sessions[t], w', s, t, info, pid, k);
        }
      }
    } else if idx < |w.built| {
      AcknowledgeSessionsOnly(w.g, peer, sid, weAreInitiator, w.built[idx].u, now);
      hide Acknowledge;
    }
  }

  lemma BuildKeepsContent(w: World, me: PeerId, target: PeerId, sid: u64, forceFull: bool, now: nat, pid: PeerId)
    requires ContentBacked(w, me, pid)
    ensures ContentBacked(Step(w, me, BuildFor(target, sid, forceFull, now)), me, pid)
  {
    BuildEffect(w.g, me, target, sid, forceFull, now);
    BuildForgets(w.g, me, target, sid, forceFull, now);
    hide Build, SessionsForget, ContentBacked;
    ContentStays(w, Step(w, me, BuildFor(target, sid, forceFull, now)), me, pid);
  }

  lemma {:induction false} RunsBackContent(info: RouteInfo, me: PeerId, evs: seq<WorldEvent>, pid: PeerId)
    requires KeepsContentRun(info, me, evs, pid)
    ensures KeepsUpRun(info, me, evs, pid) && ContentBacked(RunWorld(info, me, evs), me, pid)
  {
    if evs != [] {
      var init, ev := evs[..|evs| - 1], evs[|evs| - 1];
      RunsBackContent(info, me, init, pid);
      RunsStayNotAbove(info, me, init, pid);
      var w := RunWorld(info, me, init);
      hide NotAbove, ContentBacked, KeepsContent, KeepsUp, Step;
      ContentImpliesVersion(w, me, ev, pid);
      match ev
      case Table(e) => TableKeepsContent(w, me, e, pid);
      case BuildFor(target, sid, forceFull, now) => BuildKeepsContent(w, me, target, sid, forceFull, now, pid);
      case Answer(peer, sid, weAreInitiator, idx, now) =>
        AnswerKeepsContent(w, me, peer, sid, weAreInitiator, idx, now, pid);
    }
  }

  /** In every run in which responses keep the content of `pid`, whatever other peers do: if an update
      leaves out the info of `pid`, the current session has acknowledged that very info, and a response
      naming it came within 60 s. */
  lemma WithheldInfoIsSafe(info: RouteInfo, me: PeerId, evs: seq<WorldEvent>, target: PeerId, sid: u64,
                           forceFull: bool, now: nat, pid: PeerId)
    requires KeepsContentRun(info, me, evs, pid)
    ensures var w := RunWorld(info, me, evs);
            var s := SessionOf(w.g, target);
            WithholdsInfo(w.g, me, target, sid, forceFull, now, pid) ==>
            && !forceFull
            && (exists k :: InfoAcked(w, s, target, InfoOf(w.g, me, pid).value, pid, k))
            && (exists k :: RecentlyNamed(w, s, target, pid, now, k))
  {
    SavedIsAlwaysBacked(info, me, evs);
    RunsBackContent(info, me, evs, pid);
    RunsStayNotAbove(info, me, evs, pid);
    var w := RunWorld(info, me, evs);
    hide RunWorld, KeepsContentRun, KeepsUpRun, AllSavedBacked, NotAbove, InfoAcked;
    if WithholdsInfo(w.g, me, target, sid, forceFull, now, pid) {
      LeftOutIff(w.g, me, target, sid, forceFull, now, pid);
      hide Build;
      LeftOutVersionIsAcked(w, me, target, now, pid);
    }
  }

  // ----- runs that show what rising versions are for

  function Report(info: RouteInfo): SyncRequest {
    SyncRequest(info.peerId, 5, true, [info], None)
  }

  function Dated(info: RouteInfo): RouteInfo {
    info.(lastUpdateSec := Some(0))
  }

  /** `p` and `q` are members, what is known of `q` is this, and little else. */
  predicate Pair(g: Group, me: PeerId, p: PeerId, q: PeerId, infos: map<PeerId, RouteInfo>) {
    g.peers == {p, q} && g.infos == infos && g.topologyVersion < 10 && Known(g, me) <= {me, p, q}
  }

  lemma PairJoins(info: RouteInfo, me: PeerId, p: PeerId, q: PeerId)
    requires me != p && me != q && p != q
    ensures Pair(AddPeer(AddPeer(NewGroup(info), me, p, 1), me, q, 1), me, p, q, map[])
    ensures AddPeer(NewGroup(info), me, p, 1).topologyVersion == 2
  {
    assert {} + {p} + {q} == {p, q};
  }

  lemma PairFits(g: Group, me: PeerId, p: PeerId, q: PeerId, infos: map<PeerId, RouteInfo>, sid: u64, forceFull: bool,
                 now: nat)
    requires Pair(g, me, p, q, infos)
    ensures Build(g, me, p, sid, forceFull, now).1.Some?
  {
    SubsetSize(Known(g, me) + {p}, {me, p, q});
    hide Known;
    BuildFits(g, me, p, sid, forceFull, now);
  }

  lemma PairReports(g: Group, me: PeerId, p: PeerId, q: PeerId, infos: map<PeerId, RouteInfo>, info: RouteInfo,
                    now: nat)
    requires Pair(g, me, p, q, infos) && g.topologyVersion < 9 && infos.Keys <= {q}
    requires info.peerId == q && Supersedes(g, info) && now < 1_000
    ensures Pair(Handle(g, me, q, Report(info), now).0, me, p, q, map[q := Dated(info)])
    ensures Handle(g, me, q, Report(info), now).0.topologyVersion == g.topologyVersion + if q in infos then 0 else 1
  {
    var g1 := g.(sessions := g.sessions[q := Greeted(SessionOf(g, q), 5, true, now)]);
    assert [info][..0] == [];
    assert StoreInfos(g1, q, [info], now) == StoreInfo(g1, q, info, now);
    assert Reported(Report(info).conn) == [];
    assert infos[q := Dated(info)] == map[q := Dated(info)];
  }

  /** One update was built for `p`, and what it carries of `q` is `info`. */
  ghost predicate SentOnce(w: World, p: PeerId, q: PeerId, info: RouteInfo) {
    && |w.built| == 1 && w.built[0].target == p && w.acks == [] && Names(w.built[0].u, q)
    && forall n :: Carries(w.built, 0, n, q) ==>
         n < |w.built[0].u.infos| && w.built[0].u.infos[n] == info && w.built[0].u.versions[n].version == Normal(info)
  }

  lemma PairSends(w: World, me: PeerId, p: PeerId, q: PeerId, info: RouteInfo)
    requires me != p && me != q && p != q && Pair(w.g, me, p, q, map[q := info]) && w.built == [] && w.acks == []
    ensures var w' := Step(w, me, BuildFor(p, 7, true, 2));
            Pair(w'.g, me, p, q, map[q := info]) && w'.g.topologyVersion == w.g.topologyVersion
                && SentOnce(w', p, q, info)
  {
    PairFits(w.g, me, p, q, map[q := info], 7, true, 2);
    BuildEffect(w.g, me, p, 7, true, 2);
    LeftOutIff(w.g, me, p, 7, true, 2, q);
    var (g', u) := Build(w.g, me, p, 7, true, 2);
    forall n: nat | n < |u.value.versions| && u.value.versions[n].id == q
      ensures n < |u.value.infos| && u.value.infos[n] == info && u.value.versions[n].version == Normal(info)
    {
      BuildCarries(w.g, me, p, 7, true, 2, n);
    }
    hide Build, RowsFor, MatrixOf;
  }

  lemma PairAnswers(w: World, me: PeerId, p: PeerId, q: PeerId, a: RouteInfo, b: RouteInfo)
    requires p != me && q != me && p != q && Pair(w.g, me, p, q, map[q := b]) && SentOnce(w, p, q, a)
             && Normal(b) <= Normal(a) && a != b
    ensures var w' := Step(w, me, Answer(p, 9, true, 0, 4));
            && WithholdsInfo(w'.g, me, p, 7, false, 5, q)
            && !exists k :: InfoAcked(w', SessionOf(w'.g, p), p, b, q, k)
  {
    var u := w.built[0].u;
    var w' := Step(w, me, Answer(p, 9, true, 0, 4));
    var n :| 0 <= n < |u.versions| && u.versions[n].id == q;
    assert Carries(w.built, 0, n, q);
    SavedCovers(SessionAck(w.g, p, 9, true, 4).sessions[p].saved, u.versions, 4, n);
    AcknowledgeSessionsOnly(w.g, p, 9, true, u, 4);
    hide SaveVersions, Build;
    assert Pair(w'.g, me, p, q, map[q := b]);
    PairFits(w'.g, me, p, q, map[q := b], 7, false, 5);
    LeftOutIff(w'.g, me, p, 7, false, 5, q);
    assert forall k :: !InfoAcked(w', SessionOf(w'.g, p), p, b, q, k);
  }

  /** Both join, `q` reports, and `p` gets an update. */
  function ReportedOnce(p: PeerId, q: PeerId, a: RouteInfo): seq<WorldEvent> {
    [] + [Table(Join(p, 1))] + [Table(Join(q, 1))] + [Table(Sync(q, Report(a), 1))] + [BuildFor(p, 7, true, 2)]
  }

  /** Then `q` reports again, and only then `p` answers. */
  function ReportedTwice(p: PeerId, q: PeerId, a: RouteInfo, b: RouteInfo): seq<WorldEvent> {
    ReportedOnce(p, q, a) + [Table(Sync(q, Report(b), 3))] + [Answer(p, 9, true, 0, 4)]
  }

  ghost predicate HasReported(w: World, me: PeerId, p: PeerId, q: PeerId, a: RouteInfo) {
    Pair(w.g, me, p, q, map[q := Dated(a)]) && w.g.topologyVersion < 9 && SentOnce(w, p, q, Dated(a))
  }

  lemma FirstReport(info: RouteInfo, me: PeerId, p: PeerId, q: PeerId, a: RouteInfo)
    requires me != p && me != q && p != q && a.peerId == q
    ensures var w0 := World(NewGroup(info), [], []);
            var w1 := Step(w0, me, Table(Join(p, 1)));
            var w2 := Step(w1, me, Table(Join(q, 1)));
            var w3 := Step(w2, me, Table(Sync(q, Report(a), 1)));
            && Regular(w0, me, Table(Join(p, 1))) && Regular(w1, me, Table(Join(q, 1)))
            && Regular(w2, me, Table(Sync(q, Report(a), 1))) && Regular(w3, me, BuildFor(p, 7, true, 2))
            && HasReported(Step(w3, me, BuildFor(p, 7, true, 2)), me, p, q, a)
  {
    PairJoins(info, me, p, q);
    var w0 := World(NewGroup(info), [], []);
    var w2 := Step(Step(w0, me, Table(Join(p, 1))), me, Table(Join(q, 1)));
    assert AddPeer(AddPeer(NewGroup(info), me, p, 1), me, q, 1).topologyVersion == 3;
    hide AddPeer, Handle, Build, Known, SentOnce;
    PairReports(w2.g, me, p, q, map[], a, 1);
    var w3 := Step(w2, me, Table(Sync(q, Report(a), 1)));
    PairSends(w3, me, p, q, Dated(a));
  }

  lemma SecondReport(w: World, me: PeerId, p: PeerId, q: PeerId, a: RouteInfo, b: RouteInfo)
    requires me != p && me != q && p != q && a.peerId == q && b.peerId == q && HasReported(w, me, p, q, a)
    requires (b.instId != a.instId || b.version > a.version) && Normal(b) <= Normal(a)
    ensures var w1 := Step(w, me, Table(Sync(q, Report(b), 3)));
            var w2 := Step(w1, me, Answer(p, 9, true, 0, 4));
            && Regular(w, me, Table(Sync(q, Report(b), 3))) && Regular(w1, me, Answer(p, 9, true, 0, 4))
            && InfoOf(w2.g, me, q) == Some(Dated(b))
            && WithholdsInfo(w2.g, me, p, 7, false, 5, q)
            && !exists k :: InfoAcked(w2, SessionOf(w2.g, p), p, Dated(b), q, k)
  {
    hide Handle, Known, WithholdsInfo, InfoAcked, Acknowledge;
    PairReports(w.g, me, p, q, map[q := Dated(a)], b, 3);
    var w1 := Step(w, me, Table(Sync(q, Report(b), 3)));
    AcknowledgeSessionsOnly(w1.g, p, 9, true, w1.built[0].u, 4);
    PairAnswers(w1, me, p, q, Dated(a), Dated(b));
  }

  /** The premise on versions is needed: whenever a second report replaces the first without a higher
      normalised version, because it comes from a new instance or is 1 after 0, the run in which it
      falls between an update and its answer is regular, and leaves the new info out though nobody
      acknowledged it. */
  lemma LateAckHidesNewInfo(info: RouteInfo, me: PeerId, p: PeerId, q: PeerId, a: RouteInfo, b: RouteInfo)
    requires me != p && me != q && p != q && a.peerId == q && b.peerId == q
    requires (b.instId != a.instId || b.version > a.version) && Normal(b) <= Normal(a)
    ensures var evs := ReportedTwice(p, q, a, b);
            var w := RunWorld(info, me, evs);
            && RegularRun(info, me, evs)
            && InfoOf(w.g, me, q) == Some(Dated(b))
            && WithholdsInfo(w.g, me, p, 7, false, 5, q)
            && !exists k :: InfoAcked(w, SessionOf(w.g, p), p, Dated(b), q, k)
  {
    var j, k, l, m := Table(Join(p, 1)), Table(Join(q, 1)), Table(Sync(q, Report(a), 1)), BuildFor(p, 7, true, 2);
    RunStep(info, me, [], j);
    RunStep(info, me, [] + [j], k);
    RunStep(info, me, [] + [j] + [k], l);
    RunStep(info, me, [] + [j] + [k] + [l], m);
    RunStep(info, me, ReportedOnce(p, q, a), Table(Sync(q, Report(b), 3)));
    RunStep(info, me, ReportedOnce(p, q, a) + [Table(Sync(q, Report(b), 3))], Answer(p, 9, true, 0, 4));
    assert RunWorld(info, me, []) == World(NewGroup(info), [], []) && RegularRun(info, me, []);
    hide RunWorld, RegularRun, Step, Regular, HasReported, WithholdsInfo, InfoAcked, InfoOf;
    FirstReport(info, me, p, q, a);
    SecondReport(RunWorld(info, me, ReportedOnce(p, q, a)), me, p, q, a, b);
  }
}
