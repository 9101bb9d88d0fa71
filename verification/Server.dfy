/** The connection server: admission, phases, replacement on reconnect, and the closing cascade.

    Everything outside the server is left open: whether a message is well formed, whether a send
    throws, which peers the route layer reports. Whatever the outside does, and whatever cascade of
    closings a failed broadcast sets off, every event leaves the counters equal to what they count
    and the registries equal to the ready connections; and every cascade ends. */
module Server {
  import opened Words
  import opened Sums
  import opened Rooms
  import opened ServerState
  import opened Offers

  /** What a first handshake message turns out to be: whether the answer could be sent, and for a legacy
      greeting whether the route layer took the peer. */
  datatype Greeting = Malformed | UnknownNetwork | Known(network: string, peerId: u32, answered: bool, taken: bool)

  /** A received frame, as far as the outcome of parsing, decrypting and sending matters. `hop` is the route
      layer's next hop for a frame to another peer, 0 for none. */
  datatype Frame =
    | Broken
    | Legacy(greeting: Greeting)
    | Noise1(greeting: Greeting)
    | Noise3(proved: bool, taken: bool)
    | Forward(to: u32, hop: u32, sent: bool)
    | Ignored
    | Request(handled: bool, routeChanged: bool, sessionChanged: bool)
    | Response(handled: bool)

  class EasyTierServer {
    const maxPendingPerIp: nat
    const rooms: RoomRegistry
    var conns: Conns
    var connections: set<ConnId>
    var pendingHandshakes: nat
    var pendingHandshakesByIp: map<string, nat>
    var resyncPending: set<string>
    var syncStates: map<RouteKey, ConnId>
    ghost var offers: seq<Tried>      // every update asked of the route layer
    var nextId: ConnId

    ghost function View(): Books
      reads this, rooms
    {
      Books(conns, connections, rooms.rooms, syncStates, pendingHandshakes, pendingHandshakesByIp, nextId)
    }

    ghost predicate Holds(joining: set<ConnId>, leaving: set<ConnId>)
      reads this, rooms
    {
      Right(View(), maxPendingPerIp, joining, leaving)
    }

    /** Between events: the counters count exactly the connections in their handshake, within every
        limit; the ready connections are exactly the room entries; and no route-sync state refers to
        anything else. */
    ghost predicate Valid()
      reads this, rooms
    {
      Holds({}, {})
    }

    constructor (maxPendingPerIp: nat, resync: set<string>)
      ensures Valid() && conns == map[] && resyncPending == resync && fresh(rooms)
    {
      this.maxPendingPerIp := maxPendingPerIp;
      rooms := new RoomRegistry();
      conns, connections, pendingHandshakes, pendingHandshakesByIp := map[], {}, 0, map[];
      resyncPending, syncStates, offers, nextId := resync, map[], [], 0;
      new;
      EmptyIsRight(maxPendingPerIp);
    }

    /** Accepts a socket unless one of the three limits is reached. */
    method Fetch(ip: string) returns (accepted: Option<ConnId>)
      requires Valid()
      modifies this
      ensures Valid()
      ensures accepted.Some? <==>
        && |Live(old(conns))| < 2_048
        && |Pending(old(conns))| < 256
        && |FromIp(old(conns), Pending(old(conns)), ip)| < maxPendingPerIp
      ensures accepted.None? ==> conns == old(conns)
      ensures accepted.Some? ==>
              accepted.value !in old(conns) && conns == old(conns)[accepted.value := Conn(Msg1, "", 0, ip)]
    {
      hide Right, Live, Pending, FromIp;
      RoomIsReal(View(), ip, maxPendingPerIp);
      if |connections| >= MAX_CONNECTIONS || pendingHandshakes >= MAX_PENDING_HANDSHAKES
         || (if ip in pendingHandshakesByIp then pendingHandshakesByIp[ip] else 0) >= maxPendingPerIp {
        return None;
      }
      AdmitIsRight(View(), ip, maxPendingPerIp);
      var id := nextId;
      nextId := nextId + 1;
      conns := conns[id := Conn(Msg1, "", 0, ip)];
      connections := connections + {id};
      pendingHandshakes := pendingHandshakes + 1;
      pendingHandshakesByIp :=
          pendingHandshakesByIp[ip := (if ip in pendingHandshakesByIp then pendingHandshakesByIp[ip] else 0) + 1];
      assert View() == Admitted(old(View()), ip);
      return Some(id);
    }

    /** Gives one handshake slot back. */
    method ReleaseHandshakeSlot(c: ConnId)
      requires c in conns
      modifies this`pendingHandshakes, this`pendingHandshakesByIp
      ensures pendingHandshakes == if old(pendingHandshakes) == 0 then 0 else old(pendingHandshakes) - 1
      ensures pendingHandshakesByIp == Released(old(pendingHandshakesByIp), conns[c].clientIp)
    {
      var ip := conns[c].clientIp;
      if pendingHandshakes > 0 {
        pendingHandshakes := pendingHandshakes - 1;
      }
      var held: int := if ip in pendingHandshakesByIp then pendingHandshakesByIp[ip] else 1;
      var remaining := held - 1;
      if remaining > 0 {
        pendingHandshakesByIp := pendingHandshakesByIp[ip := remaining];
      } else {
        pendingHandshakesByIp := pendingHandshakesByIp - {ip};
      }
    }

    // ----- closing

    method Close(c: ConnId, ghost joining: set<ConnId>, ghost leaving: set<ConnId>)
      requires c in conns && leaving <= {c} && Holds(joining, leaving)
      requires conns[c].phase == Closed ==> joining == {} && leaving == {}
      modifies this, rooms
      ensures conns.Keys == old(conns).Keys && old(offers) <= offers
      ensures Holds(joining - {c}, {}) && conns[c].phase == Closed
      ensures Justified(old(conns), conns, {c}, offers, |old(offers)|)
      ensures old(conns)[c].phase == Ready ==> Told(conns, conns[c].network, None, false, offers, |old(offers)|)
      ensures connections <= old(connections) && resyncPending == old(resyncPending)
      ensures old(conns)[c].phase != Ready ==> offers == old(offers)
      decreases |connections|, 1
    {
      hide Right, Justified, Told;
      if conns[c].phase == Closed {
        assert joining - {c} == {};
        ClosingJustified(conns, c, offers);
        JustifiedExtra(old(conns), conns, {c}, offers, |old(offers)|);
        return;
      }
      RemoveConnection(c, joining, leaving);
    }

    /** Closes a connection on every book, and tells its network. The cascade this may set off ends,
        because each closing leaves one live connection fewer. */
    method RemoveConnection(c: ConnId, ghost joining: set<ConnId>, ghost leaving: set<ConnId>)
      requires c in conns && leaving <= {c} && Holds(joining, leaving)
      requires conns[c].phase == Closed ==> joining == {} && leaving == {}
      modifies this, rooms
      ensures conns.Keys == old(conns).Keys && old(offers) <= offers
      ensures Holds(joining - {c}, {}) && conns[c].phase == Closed
      ensures Justified(old(conns), conns, {c}, offers, |old(offers)|)
      ensures old(conns)[c].phase == Ready ==> Told(conns, conns[c].network, None, false, offers, |old(offers)|)
      ensures connections <= old(connections) && resyncPending == old(resyncPending)
      ensures old(conns)[c].phase != Ready ==> offers == old(offers)
      decreases |connections|, 0
    {
      hide Right, Dropped, Released, OnlyCloses, Justified, Told;
      ClosingJustified(conns, c, offers);
      if conns[c].phase == Closed {
        assert joining - {c} == {};
        return;
      }
      CloseIsRight(View(), maxPendingPerIp, c, joining, leaving);
      var conn := conns[c];
      var wasReady := conn.phase == Ready;
      conns := conns[c := conn.(phase := Closed)];
      connections := connections - {c};
      if !wasReady {
        ReleaseHandshakeSlot(c);
      }
      var deleted := rooms.Delete(conn.network, conn.peerId, c);
      if wasReady {
        syncStates := syncStates - {KeyOf(conn)};
      }
      assert View() == ClosedOne(old(View()), c);
      if wasReady {
        label closed:
        BroadcastRouteUpdate(conn.network, None, false, joining - {c});
        JustifiedTrans(old(conns), old@closed(conns), conns, {c}, {}, old(offers), old(offers), offers);
        assert {c} + {} == {c};
        JustifiedKeepsClosed(old@closed(conns), conns, c, offers, |old(offers)|);
      }
    }

    /** Marks the peer's route-sync state and tries to send; the outside decides whether that throws. */
    method SendRouteUpdate(c: ConnId, forceFull: bool) returns (thrown: bool)
      requires c in conns && conns[c].phase == Ready
      modifies this`syncStates, this`offers
      ensures syncStates == old(syncStates)[KeyOf(conns[c]) := c]
      ensures offers == old(offers) + [Tried(c, forceFull, thrown)]
    {
      syncStates := syncStates[KeyOf(conns[c]) := c];
      thrown := *;
      offers := offers + [Tried(c, forceFull, thrown)];
    }

    /** Offers an update to every ready connection of a network, closing those it cannot be sent to.
        Closing one takes it out of the room being walked over, and may close more in turn. */
    method BroadcastRouteUpdate(network: string, exclude: Option<u32>, forceFull: bool, ghost joining: set<ConnId>)
      requires Holds(joining, {})
      modifies this, rooms
      ensures Holds(joining, {})
      ensures conns.Keys == old(conns).Keys && old(offers) <= offers
      ensures Justified(old(conns), conns, {}, offers, |old(offers)|)
      ensures Told(conns, network, exclude, forceFull, offers, |old(offers)|)
      ensures connections <= old(connections) && resyncPending == old(resyncPending)
      decreases |connections|, 3
    {
      hide Right, Offered, OnlyCloses, Justified, Told;
      NothingTried(conns, offers);
      var members := rooms.Peers(network);
      MembersExist(View(), maxPendingPerIp, joining, network, members);
      ReadyAreMembers(View(), maxPendingPerIp, joining, network, members);
      for i := 0 to |members|
        invariant Holds(joining, {})
        invariant conns.Keys == old(conns).Keys && old(offers) <= offers
        invariant Justified(old(conns), conns, {}, offers, |old(offers)|)
        invariant connections <= old(connections) && resyncPending == old(resyncPending)
        invariant AllOffered(conns, network, exclude, members[..i], offers, |old(offers)|, forceFull)
      {
        var c := members[i];
        assert c in members && members[..i + 1] == members[..i] + [c];
        JustifiedKeeps(old(conns), conns, offers, |old(offers)|);
        label turn:
        var still := rooms.Get(network, conns[c].peerId);
        ReadyIsFound(View(), maxPendingPerIp, joining, c);
        if still == Some(c) && exclude != Some(conns[c].peerId) && conns[c].phase == Ready {
          SubsetSize(connections, old(connections));
          Offer(c, network, forceFull, joining);
          MoreTried(old(offers), old@turn(offers), offers);
          JustifiedAgain(old(conns), old@turn(conns), conns, old(offers), old@turn(offers), offers);
        } else {
          NothingTried(conns, offers);
        }
        JustifiedKeeps(old@turn(conns), conns, offers, |old@turn(offers)|);
        OneMoreOffered(old@turn(conns), conns, network, exclude, members[..i], c, old(offers), old@turn(offers), offers,
                       forceFull);
      }
      assert members[..|members|] == members;
      JustifiedKeeps(old(conns), conns, offers, |old(offers)|);
      AllAreTold(conns, network, exclude, members, offers, |old(offers)|, forceFull);
    }

    /** One turn of the broadcast. */
    method Offer(c: ConnId, network: string, forceFull: bool, ghost joining: set<ConnId>)
      requires Holds(joining, {}) && c in conns && conns[c].phase == Ready
      requires Lookup(rooms.rooms, network, conns[c].peerId) == Some(c)
      modifies this, rooms
      ensures Holds(joining, {})
      ensures conns.Keys == old(conns).Keys && old(offers) <= offers
      ensures Justified(old(conns), conns, {}, offers, |old(offers)|)
      ensures Offered(offers, |old(offers)|, c, forceFull)
      ensures connections <= old(connections) && resyncPending == old(resyncPending)
      decreases |connections|, 2
    {
      hide Right, Justified, Offered, Told;
      ReadyIsNotJoining(View(), maxPendingPerIp, joining, network, c);
      SyncIsRight(View(), maxPendingPerIp, c, joining, {});
      var thrown := SendRouteUpdate(c, forceFull);
      ghost var x := Tried(c, forceFull, thrown);
      LastIsTried(old(offers), x);
      if thrown {
        Close(c, joining, {});
        MoreTried(old(offers), old(offers) + [x], offers);
        FailureJustified(old(conns), conns, c, old(offers), x, offers);
      } else {
        SuccessJustified(conns, old(offers), x);
      }
    }

    /** Every ready connection of the network is offered an update; the network's first arrival after a
        restart makes it a full one, once. */
    method AnnouncePeer(network: string)
      requires Valid()
      modifies this, rooms
      ensures Valid() && resyncPending == old(resyncPending) - {network}
      ensures conns.Keys == old(conns).Keys && old(offers) <= offers
      ensures Justified(old(conns), conns, {}, offers, |old(offers)|)
      ensures Told(conns, network, None, network in old(resyncPending), offers, |old(offers)|)
    {
      hide Right, Justified, Told;
      var forceFull := network in resyncPending;
      resyncPending := resyncPending - {network};
      BroadcastRouteUpdate(network, None, forceFull, {});
    }

    /** Between events, a connection is closed for whatever went wrong with it. */
    method FailConnection(c: ConnId)
      requires Valid() && c in conns
      modifies this, rooms
      ensures conns.Keys == old(conns).Keys && old(offers) <= offers
      ensures Valid() && conns[c].phase == Closed && resyncPending == old(resyncPending)
      ensures old(conns)[c].phase != Ready ==> offers == old(offers)
      ensures Justified(old(conns), conns, {c}, offers, |old(offers)|)
      ensures old(conns)[c].phase == Ready ==> Told(conns, conns[c].network, None, false, offers, |old(offers)|)
    {
      hide Right, Justified, Told;
      Close(c, {}, {});
      assert {} - {c} == {};
    }

    // ----- handshakes

    /** Enters the connection in its room, closing whoever it replaces. `taken` is whether the route layer takes
        the peer. */
    method RegisterConnection(c: ConnId, taken: bool) returns (ghost replaced: set<ConnId>)
      requires Valid() && c in Pending(conns)
      modifies this, rooms
      ensures Holds({c}, {}) && c in conns && conns[c] == old(conns[c]) && resyncPending == old(resyncPending)
      ensures forall d: ConnId :: d in replaced <==> ReadyAs(old(conns), conns[c].network, conns[c].peerId, d)
      ensures forall d :: d in replaced ==> d in conns && conns[d].phase == Closed
      ensures conns.Keys == old(conns).Keys && old(offers) <= offers
      ensures Justified(old(conns), conns, replaced, offers, |old(offers)|)
    {
      hide Right, Placed, Justified, Told;
      var conn := conns[c];
      assert forall d: ConnId :: Lookup(rooms.rooms, conn.network, conn.peerId) == Some(d)
                         <==> ReadyAs(conns, conn.network, conn.peerId, d) by {
        NamedIsReady(View(), maxPendingPerIp, conn.network, conn.peerId);
      }
      EnterIsRight(View(), maxPendingPerIp, c);
      NothingTried(conns, offers);
      var previous := rooms.Set(conn.network, conn.peerId, c);
      replaced := {};
      if previous.Some? && previous.value != c {
        replaced := {previous.value};
        assert {c} - {previous.value} == {c};
        Close(previous.value, {c}, {previous.value});
      }
      PendingStays(old(conns), conns, c, replaced, offers, |old(offers)|);
      UnsyncIsRight(View(), maxPendingPerIp, KeyOf(conn), {c}, {});
      if taken {
        syncStates := syncStates - {KeyOf(conn)};
      }
    }

    /** The end of either handshake: register, turn ready, give the slot back, announce. Afterwards the
        connection is ready, unless the route layer did not take it or its own update could not be sent; then
        it is closed. Whoever it replaced is closed, and everyone else as far as a send to it failed. */
    method FinishHandshake(c: ConnId, taken: bool)
      requires Valid() && c in Pending(conns)
      modifies this, rooms
      ensures Valid() && conns.Keys == old(conns).Keys && old(offers) <= offers
      ensures Finished(old(conns), conns, c, taken, offers, |old(offers)|)
      ensures taken ==>
              Told(conns, conns[c].network, None, conns[c].network in old(resyncPending), offers, |old(offers)|)
                        && resyncPending == old(resyncPending) - {conns[c].network}
    {
      hide Right, Released, Justified, Told;
      ghost var replaced := RegisterConnection(c, taken);
      label entered:
      JoiningIsPending(View(), maxPendingPerIp, c);
      if !taken {
        assert {c} - {c} == {};
        Close(c, {c}, {});
        JustifiedTrans(old(conns), old@entered(conns), conns, replaced, {c}, old(offers), old@entered(offers), offers);
        JustifiedExtra(old@entered(conns), conns, {c}, offers, |old@entered(offers)|);
        NotTaken(old(conns), conns, c, replaced, offers, |old(offers)|);
        return;
      }
      ReadyIsRight(View(), maxPendingPerIp, c);
      conns := conns[c := conns[c].(phase := Ready)];
      ReleaseHandshakeSlot(c);
      assert View() == MadeReady(old@entered(View()), c);
      label ready:
      AnnouncePeer(conns[c].network);
      JustifiedExtra(old@ready(conns), conns, {}, offers, |old@ready(offers)|);
      TakenIsFinished(old(conns), old@entered(conns), conns, c, replaced, old(offers), old@ready(offers), offers);
      ToldEarlier(conns, conns[c].network, None, conns[c].network in old(resyncPending), old(offers),
                  old@ready(offers), offers);
    }

    method OnLegacyHandshake(c: ConnId, greeting: Greeting)
      requires Valid() && c in Pending(conns)
      modifies this, rooms
      ensures Valid() && conns.Keys == old(conns).Keys && old(offers) <= offers
      ensures if greeting.Known? && greeting.answered
              then Finished(old(conns)[c :=
                                       old(conns)[c].(network := greeting.network, peerId := greeting.peerId,
                                                      phase := Msg1)],
                            conns, c, greeting.taken, offers, |old(offers)|)
              else conns[c].phase == Closed
    {
      hide Right, Justified, Told, Finished;
      match greeting
      case Malformed => FailConnection(c);
      case UnknownNetwork => FailConnection(c);
      case Known(network, peerId, answered, taken) =>
        NameIsRight(View(), maxPendingPerIp, c, conns[c].(phase := Msg1, network := network, peerId := peerId));
        conns := conns[c := conns[c].(phase := Msg1, network := network, peerId := peerId)];
        if answered {
          FinishHandshake(c, taken);
        } else {
          FailConnection(c);
        }
    }

    method OnHandshakeMessage1(c: ConnId, greeting: Greeting)
      requires Valid() && c in Pending(conns)
      modifies this, rooms
      ensures Valid() && conns.Keys == old(conns).Keys && offers == old(offers)
      ensures if greeting.Known? && greeting.answered
              then conns == old(conns)[c :=
                                       old(conns)[c].(phase := Msg3, network := greeting.network,
                                                      peerId := greeting.peerId)]
              else conns[c].phase == Closed
      ensures forall d :: d in old(conns) && d != c ==> d in conns && conns[d] == old(conns)[d]
    {
      hide Right, Justified, Told;
      match greeting
      case Malformed => FailConnection(c); NobodyElse(old(conns), conns, c, offers);
      case UnknownNetwork => FailConnection(c); NobodyElse(old(conns), conns, c, offers);
      case Known(network, peerId, answered, taken) =>
        NameIsRight(View(), maxPendingPerIp, c, conns[c].(phase := Msg3, network := network, peerId := peerId));
        conns := conns[c := conns[c].(phase := Msg3, network := network, peerId := peerId)];
        if !answered {
          ghost var named := conns;
          FailConnection(c);
          NobodyElse(named, conns, c, offers);
        }
    }

    method OnHandshakeMessage3(c: ConnId, proved: bool, taken: bool)
      requires Valid() && c in Pending(conns)
      modifies this, rooms
      ensures Valid() && conns.Keys == old(conns).Keys && old(offers) <= offers
      ensures if proved then Finished(old(conns), conns, c, taken, offers, |old(offers)|) else conns[c].phase == Closed
    {
      hide Right, Justified, Told, Finished;
      if proved {
        FinishHandshake(c, taken);
      } else {
        FailConnection(c);
      }
    }

    // ----- ready connections

    /** Who gets a frame for another peer: the peer itself if it is here, else the hop the route layer
        names, if it names another. */
    method ResolveRecipient(network: string, to: u32, hop: u32) returns (target: Option<ConnId>)
      requires Valid()
      ensures forall d: ConnId :: target == Some(d) <==>
                || ReadyAs(conns, network, to, d)
                || (hop != 0 && hop != to && ReadyAs(conns, network, hop, d)
                    && forall e: ConnId :: !ReadyAs(conns, network, to, e))
    {
      forall p: u32, d: ConnId
        ensures Lookup(rooms.rooms, network, p) == Some(d)
           <==> ReadyAs(conns, network, p, d)
      {
        LookupIsReady(View(), maxPendingPerIp, network, p, d);
      }
      hide Right;
      var direct := rooms.Get(network, to);
      if direct.Some? {
        return if conns[direct.value].phase == Ready then direct else None;
      }
      if hop == 0 || hop == to {
        return None;
      }
      var gateway := rooms.Get(network, hop);
      return if gateway.Some? && conns[gateway.value].phase == Ready then gateway else None;
    }

    /** A forwarded frame reaches the ready connection of its destination in the sender's own network, if there
        is one; if it cannot take the frame (`sent`), it is closed. */
    method ForwardFrame(c: ConnId, to: u32, hop: u32, sent: bool) returns (delivered: Option<ConnId>)
      requires Valid() && c in conns && conns[c].phase == Ready && (hop == 0 || hop == to)
      modifies this, rooms
      ensures Valid() && conns.Keys == old(conns).Keys && old(offers) <= offers
      ensures forall d: ConnId :: delivered == Some(d) <==> sent && ReadyAs(old(conns), old(conns)[c].network, to, d)
      ensures sent ==> conns == old(conns) && offers == old(offers)
      ensures Forwarded(old(conns), conns, old(conns)[c].network, to, sent, offers, |old(offers)|)
    {
      hide Right, Justified, Told;
      NothingTried(conns, offers);
      var target := ResolveRecipient(conns[c].network, to, hop);
      if target.None? || sent {
        NothingForwarded(conns, conns[c].network, to, sent, offers);
        return target;
      }
      assert forall d: ConnId :: d == target.value <==> ReadyAs(conns, conns[c].network, to, d);
      FailConnection(target.value);
      TargetClosed(old(conns), conns, old(conns)[c].network, to, target.value, offers, |old(offers)|);
      return None;
    }

    /** A request of a ready connection, handled by the route layer or not. If a route or the session changed,
        the sender is offered an update; if a route changed, so is everyone else in its network. The sender is
        closed exactly if the request was refused or sending to it failed. */
    method OnRequest(c: ConnId, handled: bool, routeChanged: bool, sessionChanged: bool) returns (thrown: bool)
      requires Valid() && c in conns && conns[c].phase == Ready
      modifies this, rooms
      ensures Valid() && conns.Keys == old(conns).Keys && old(offers) <= offers
      ensures Justified(old(conns), conns, if handled then {} else {c}, offers, |old(offers)|)
      ensures !handled ==> thrown
      ensures handled && !routeChanged && !sessionChanged ==> !thrown
      ensures thrown ==> conns[c].phase == Closed && Told(conns, conns[c].network, None, false, offers, |old(offers)|)
      ensures handled && (routeChanged || sessionChanged) ==> Offered(offers, |old(offers)|, c, false)
      ensures !thrown && routeChanged ==>
                Told(conns, conns[c].network, Some(conns[c].peerId), false, offers, |old(offers)|)
      ensures !thrown && !routeChanged ==>
                conns == old(conns) && offers == old(offers) + if sessionChanged then [Tried(c, false, false)] else []
    {
      hide Right, Offered, Justified, Told;
      NothingTried(conns, offers);
      if !handled {
        FailConnection(c);
        return true;
      }
      var conn := conns[c];
      if routeChanged || sessionChanged {
        SyncIsRight(View(), maxPendingPerIp, c, {}, {});
        thrown := SendRouteUpdate(c, false);
        ghost var x := Tried(c, false, thrown);
        LastIsTried(old(offers), x);
        label sent:
        if thrown {
          FailConnection(c);
          FailureJustified(old(conns), conns, c, old(offers), x, offers);
          ToldEarlier(conns, conns[c].network, None, false, old(offers), old(offers) + [x], offers);
        } else {
          SuccessJustified(conns, old(offers), x);
          if routeChanged {
            BroadcastRouteUpdate(conn.network, Some(conn.peerId), false, {});
            JustifiedAgain(old(conns), old@sent(conns), conns, old(offers), old@sent(offers), offers);
            JustifiedExtra(old@sent(conns), conns, {}, offers, |old@sent(offers)|);
            ToldEarlier(conns, conns[c].network, Some(conns[c].peerId), false, old(offers), old@sent(offers), offers);
          }
        }
        MoreTried(old(offers), old(offers) + [x], offers);
      } else {
        thrown := false;
      }
    }

    /** One received frame, dispatched on the phase; whatever throws closes the connection. */
    method HandleMessage(c: ConnId, frame: Frame)
      requires Valid() && c in conns && (frame.Forward? ==> frame.hop == 0 || frame.hop == frame.to)
      modifies this, rooms
      ensures Valid() && conns.Keys == old(conns).Keys && old(offers) <= offers
      ensures match old(conns)[c].phase
              case Msg1 => HeededFirst(old(conns), conns, c, frame, offers, |old(offers)|)
              case Msg3 =>
                if frame.Noise3? && frame.proved then Finished(old(conns), conns, c, frame.taken, offers, |old(offers)|)
                else conns[c].phase == Closed
              case Ready => Heeded(old(conns), conns, c, frame, offers, |old(offers)|)
              case Closed => conns == old(conns) && offers == old(offers)
    {
      hide Right, Justified, Told, Finished, Heeded;
      match conns[c].phase
      case Msg1 =>
        assert c in Pending(conns);
        if frame.Legacy? {
          OnLegacyHandshake(c, frame.greeting);
        } else if frame.Noise1? {
          OnHandshakeMessage1(c, frame.greeting);
        } else {
          FailConnection(c);
        }
      case Msg3 =>
        assert c in Pending(conns);
        if frame.Noise3? {
          OnHandshakeMessage3(c, frame.proved, frame.taken);
        } else {
          FailConnection(c);
        }
      case Ready =>
        OnReadyFrame(c, frame);
      case Closed =>
    }

    method OnReadyFrame(c: ConnId, frame: Frame)
      requires Valid() && c in conns && conns[c].phase == Ready
               && (frame.Forward? ==> frame.hop == 0 || frame.hop == frame.to)
      modifies this, rooms
      ensures Valid() && conns.Keys == old(conns).Keys && old(offers) <= offers
      ensures Heeded(old(conns), conns, c, frame, offers, |old(offers)|)
    {
      hide Right, Justified, Told, Offered;
      NothingTried(conns, offers);
      match frame
      case Forward(to, hop, sent) =>
        var delivered := ForwardFrame(c, to, hop, sent);
      case Request(handled, routeChanged, sessionChanged) =>
        var thrown := OnRequest(c, handled, routeChanged, sessionChanged);
        JustifiedExtra(old(conns), conns, if handled then {} else {c}, offers, |old(offers)|);
        if thrown {
          ToldAll(conns, conns[c].network, Some(conns[c].peerId), false, offers, |old(offers)|);
        }
      case Response(handled) =>
        if !handled {
          FailConnection(c);
          JustifiedExtra(old(conns), conns, {c}, offers, |old(offers)|);
        }
      case Broken =>
        FailConnection(c);
        JustifiedExtra(old(conns), conns, {c}, offers, |old(offers)|);
      case _ =>
    }

    /** The handshake timer, or the socket's own close or error event. */
    method OnTimeoutOrSocketClosed(c: ConnId)
      requires Valid() && c in conns
      modifies this, rooms
      ensures Valid() && conns.Keys == old(conns).Keys && conns[c].phase == Closed && old(offers) <= offers
      ensures Justified(old(conns), conns, {c}, offers, |old(offers)|)
      ensures old(conns)[c].phase == Ready ==> Told(conns, conns[c].network, None, false, offers, |old(offers)|)
    {
      hide Right, Justified, Told;
      RemoveConnection(c, {}, {});
      assert {} - {c} == {};
    }

    /** The maintenance timer: close what the route layer gave up, tell the networks that changed, and offer an
        update to every connection that is due one. `order` is the iteration order of the connections. Nobody
        is closed but those given up and those to which sending failed. */
    method Maintain(failures: seq<RouteKey>, changedNetworks: seq<string>, order: seq<ConnId>, due: set<ConnId>)
      requires Valid() && (forall c :: c in order ==> c in conns) && (forall c :: c in connections ==> c in order)
      modifies this, rooms
      ensures Valid() && conns.Keys == old(conns).Keys && old(offers) <= offers
      ensures Justified(old(conns), conns, GivenUp(old(conns), failures), offers, |old(offers)|)
      ensures forall d :: d in GivenUp(old(conns), failures) ==> d in conns && conns[d].phase == Closed
      ensures AllTold(conns, changedNetworks, offers, |old(offers)|)
      ensures forall c :: c in due && c in conns && conns[c].phase == Ready ==> Offered(offers, |old(offers)|, c, false)
    {
      hide Right, Justified, Told, Offered, AllTold, DueOffered, OnlyCloses;
      ConnectionsAreLive(View(), maxPendingPerIp);
      CloseFailures(failures);
      ghost var gone := GivenUp(old(conns), failures);
      label closed:
      TellChanged(changedNetworks);
      JustifiedWithin(old(conns), old@closed(conns), conns, gone, {}, old(offers), old@closed(offers), offers);
      ReadyIsOld(old@closed(conns), conns, {}, offers, |old@closed(offers)|);
      AllToldEarlier(conns, changedNetworks, old(offers), old@closed(offers), offers);
      label told:
      MaintainPeers(order, due);
      JustifiedWithin(old(conns), old@told(conns), conns, gone, {}, old(offers), old@told(offers), offers);
      ReadyIsOld(old@told(conns), conns, {}, offers, |old@told(offers)|);
      JustifiedKeeps(old@told(conns), conns, offers, |old@told(offers)|);
      AllToldStays(old@told(conns), conns, changedNetworks, old(offers), old@told(offers), offers);
      AllDueOffered(old(conns), conns, old(connections), gone, order, due, old(offers), old@told(offers), offers);
    }

    method TellChanged(networks: seq<string>)
      requires Valid()
      modifies this, rooms
      ensures Valid() && conns.Keys == old(conns).Keys && old(offers) <= offers
      ensures Justified(old(conns), conns, {}, offers, |old(offers)|)
      ensures AllTold(conns, networks, offers, |old(offers)|)
    {
      hide Right, Justified, Told, AllTold, OnlyCloses;
      NothingTried(conns, offers);
      NoneToldYet(conns, offers, |old(offers)|);
      for i := 0 to |networks|
        invariant Valid() && conns.Keys == old(conns).Keys && old(offers) <= offers
        invariant Justified(old(conns), conns, {}, offers, |old(offers)|)
        invariant AllTold(conns, networks[..i], offers, |old(offers)|)
      {
        label turn:
        BroadcastRouteUpdate(networks[i], None, false, {});
        assert networks[..i + 1] == networks[..i] + [networks[i]];
        JustifiedAgain(old(conns), old@turn(conns), conns, old(offers), old@turn(offers), offers);
        JustifiedKeeps(old@turn(conns), conns, offers, |old@turn(offers)|);
        AllToldStays(old@turn(conns), conns, networks[..i], old(offers), old@turn(offers), offers);
        ToldEarlier(conns, networks[i], None, false, old(offers), old@turn(offers), offers);
        OneMoreTold(conns, networks[..i], networks[i], offers, |old(offers)|);
      }
      assert networks[..|networks|] == networks;
    }

    method MaintainPeers(order: seq<ConnId>, due: set<ConnId>)
      requires Valid() && forall c :: c in order ==> c in conns
      modifies this, rooms
      ensures Valid() && conns.Keys == old(conns).Keys && old(offers) <= offers
      ensures Justified(old(conns), conns, {}, offers, |old(offers)|)
      ensures DueOffered(conns, order, due, offers, |old(offers)|)
    {
      hide Right, Justified, Told, Offered, DueOffered, OnlyCloses;
      NothingTried(conns, offers);
      NoneDueYet(conns, due, offers, |old(offers)|);
      for i := 0 to |order|
        invariant Valid() && conns.Keys == old(conns).Keys && old(offers) <= offers
        invariant Justified(old(conns), conns, {}, offers, |old(offers)|)
        invariant DueOffered(conns, order[..i], due, offers, |old(offers)|)
      {
        var c := order[i];
        assert c in order;
        label turn:
        MaintainPeer(c, c in due);
        assert order[..i + 1] == order[..i] + [c];
        JustifiedAgain(old(conns), old@turn(conns), conns, old(offers), old@turn(offers), offers);
        JustifiedKeeps(old@turn(conns), conns, offers, |old@turn(offers)|);
        OneMoreDue(old@turn(conns), conns, order[..i], c, due, old(offers), old@turn(offers), offers);
      }
      assert order[..|order|] == order;
    }

    method CloseFailures(failures: seq<RouteKey>)
      requires Valid()
      modifies this, rooms
      ensures Valid() && conns.Keys == old(conns).Keys && old(offers) <= offers
      ensures Justified(old(conns), conns, GivenUp(old(conns), failures), offers, |old(offers)|)
      ensures forall d :: d in GivenUp(old(conns), failures) ==> d in conns && conns[d].phase == Closed
    {
      hide Right, Justified, Told;
      ghost var gone := GivenUp(old(conns), failures);
      NothingYet(conns, gone, offers);
      for i := 0 to |failures|
        invariant Valid() && conns.Keys == old(conns).Keys && old(offers) <= offers
        invariant Justified(old(conns), conns, gone, offers, |old(offers)|)
        invariant AllGone(old(conns), conns, failures, i)
      {
        var k := failures[i];
        var found := rooms.Get(k.network, k.peerId);
        FoundIsOnly(View(), maxPendingPerIp, k, found);
        ReadyIsOld(old(conns), conns, gone, offers, |old(offers)|);
        if found.Some? {
          label turn:
          FailConnection(found.value);
          assert found.value in gone;
          JustifiedWithin(old(conns), old@turn(conns), conns, gone, {found.value}, old(offers), old@turn(offers),
                          offers);
          ReadyIsOld(old@turn(conns), conns, {found.value}, offers, |old@turn(offers)|);
        }
      }
    }

    method MaintainPeer(c: ConnId, due: bool)
      requires Valid() && c in conns
      modifies this, rooms
      ensures Valid() && conns.Keys == old(conns).Keys && old(offers) <= offers
      ensures Justified(old(conns), conns, {}, offers, |old(offers)|)
      ensures due && old(conns)[c].phase == Ready ==> Offered(offers, |old(offers)|, c, false)
    {
      hide Right, Justified, Told, Offered;
      NothingTried(conns, offers);
      if conns[c].phase == Ready && due {
        SyncIsRight(View(), maxPendingPerIp, c, {}, {});
        var thrown := SendRouteUpdate(c, false);
        ghost var x := Tried(c, false, thrown);
        LastIsTried(old(offers), x);
        if thrown {
          FailConnection(c);
          FailureJustified(old(conns), conns, c, old(offers), x, offers);
        } else {
          SuccessJustified(conns, old(offers), x);
        }
        MoreTried(old(offers), old(offers) + [x], offers);
      }
    }
  }

  lemma NoneToldYet(conns: Conns, log: seq<Tried>, since: nat)
    ensures AllTold(conns, [], log, since)
  {
  }

  lemma NoneDueYet(conns: Conns, due: set<ConnId>, log: seq<Tried>, since: nat)
    ensures DueOffered(conns, [], due, log, since)
  {
  }

  /** The order lists every live connection, so everyone still ready was in it. */
  lemma AllDueOffered(a: Conns, b: Conns, live: set<ConnId>, gone: set<ConnId>, order: seq<ConnId>, due: set<ConnId>,
                      first: seq<Tried>, l: seq<Tried>, m: seq<Tried>)
    requires first <= l <= m
    requires DueOffered(b, order, due, m, |l|) && Justified(a, b, gone, m, |first|)
    requires gone <= a.Keys && (forall d :: d in gone ==> a[d].phase == Ready)
    requires live == Live(a) && forall c :: c in live ==> c in order
    ensures forall c :: c in due && c in b && b[c].phase == Ready ==> Offered(m, |first|, c, false)
  {
    hide Offered;
    MoreTried(first, l, m);
    ReadyIsOld(a, b, gone, m, |first|);
  }

  /** What a first frame brings about: a legacy greeting that is answered finishes the handshake, a first Noise
      message that is answered leads to the third, anything else closes the connection. */
  ghost predicate HeededFirst(a: Conns, b: Conns, c: ConnId, frame: Frame, log: seq<Tried>, since: nat)
    requires c in a && c in b
  {
    match frame
    case Legacy(Known(network, peerId, true, taken)) =>
      Finished(a[c := a[c].(phase := Msg1, network := network, peerId := peerId)], b, c, taken, log, since)
    case Noise1(Known(network, peerId, true, taken)) =>
      b == a[c := a[c].(phase := Msg3, network := network, peerId := peerId)]
    case _ => b[c].phase == Closed
  }

  /** What a frame of a ready connection brings about. A forwarded one is sent or its target closed. A broken
      frame, and a refused request or response, closes the connection and tells its network. A change of
      session or route is offered to the sender, and a change of route to its whole network. */
  ghost predicate Heeded(a: Conns, b: Conns, c: ConnId, frame: Frame, log: seq<Tried>, since: nat)
    requires c in a && c in b
  {
    match frame
    case Forward(to, hop, sent) => Forwarded(a, b, a[c].network, to, sent, log, since)
    case Request(true, routeChanged, sessionChanged) =>
      && Justified(a, b, {}, log, since)
      && (routeChanged || sessionChanged ==> Offered(log, since, c, false))
      && (routeChanged ==> Told(b, a[c].network, Some(a[c].peerId), false, log, since))
      && (!routeChanged && !sessionChanged ==> b == a && |log| == since)
    case Response(true) => b == a && |log| == since
    case Request(false, _, _) => Refused(a, b, c, log, since)
    case Response(false) => Refused(a, b, c, log, since)
    case Broken => Refused(a, b, c, log, since)
    case _ => b == a && |log| == since
  }

  ghost predicate Refused(a: Conns, b: Conns, c: ConnId, log: seq<Tried>, since: nat)
    requires c in a && c in b
  {
    && Justified(a, b, {c}, log, since) && b[c].phase == Closed
    && Told(b, a[c].network, None, false, log, since)
  }

  /** Whoever was ready under one of the first `n` names is closed by now. */
  predicate AllGone(a: Conns, b: Conns, failures: seq<RouteKey>, n: nat)
    requires n <= |failures|
  {
    forall i :: 0 <= i < n ==>
      forall d :: d in a && a[d].phase == Ready && KeyOf(a[d]) == failures[i] ==> d in b && b[d].phase == Closed
  }

  lemma ConnectionsAreLive(b: Books, maxPerIp: nat)
    requires Right(b, maxPerIp, {}, {})
    ensures b.connections == Live(b.conns)
  {
  }

  lemma FoundIsOnly(b: Books, maxPerIp: nat, k: RouteKey, found: Option<ConnId>)
    requires Right(b, maxPerIp, {}, {}) && found == Lookup(b.rooms, k.network, k.peerId)
    ensures found.Some? ==>
            found.value in b.conns && b.conns[found.value].phase == Ready && KeyOf(b.conns[found.value]) == k
    ensures forall d :: d in b.conns && b.conns[d].phase == Ready && KeyOf(b.conns[d]) == k ==> found == Some(d)
  {
  }

  lemma JoiningIsPending(b: Books, maxPerIp: nat, c: ConnId)
    requires Right(b, maxPerIp, {c}, {})
    ensures c in Pending(b.conns) && Lookup(b.rooms, b.conns[c].network, b.conns[c].peerId) == Some(c)
  {
  }
}
