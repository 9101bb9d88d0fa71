/** The registry of authenticated connections: network, then peer id. Connections are referred to by
    identity, so two connections with equal fields stay distinct. */
module Rooms {
  import opened Words

  type ConnId = nat
  type Rooms = map<string, map<u32, ConnId>>

  function Lookup(rooms: Rooms, network: string, peerId: u32): Option<ConnId> {
    if network in rooms && peerId in rooms[network] then Some(rooms[network][peerId]) else None
  }

  function Placed(rooms: Rooms, network: string, peerId: u32, c: ConnId): Rooms {
    rooms[network := (if network in rooms then rooms[network] else map[])[peerId := c]]
  }

  function Dropped(rooms: Rooms, network: string, peerId: u32, c: ConnId): Rooms {
    if Lookup(rooms, network, peerId) != Some(c) then rooms
    else if rooms[network] - {peerId} == map[] then rooms - {network}
    else rooms[network := rooms[network] - {peerId}]
  }

  predicate NoEmptyRoom(rooms: Rooms) {
    forall network :: network in rooms ==> rooms[network] != map[]
  }

  lemma PlacedLookup(rooms: Rooms, network: string, peerId: u32, c: ConnId, n: string, p: u32)
    ensures Lookup(Placed(rooms, network, peerId, c), n, p)
         == if n == network && p == peerId then Some(c) else Lookup(rooms, n, p)
  {
  }

  /** Removal takes out the entry only if it is this very connection's, and an emptied room goes too. */
  lemma DroppedLookup(rooms: Rooms, network: string, peerId: u32, c: ConnId, n: string, p: u32)
    ensures Lookup(Dropped(rooms, network, peerId, c), n, p)
         == if n == network && p == peerId && Lookup(rooms, n, p) == Some(c) then None else Lookup(rooms, n, p)
  {
    if network in rooms {
      assert p in rooms[network] - {peerId} <==> p in rooms[network] && p != peerId;
    }
  }

  lemma PlacedKeepsRooms(rooms: Rooms, network: string, peerId: u32, c: ConnId)
    requires NoEmptyRoom(rooms)
    ensures NoEmptyRoom(Placed(rooms, network, peerId, c))
  {
    var room := Placed(rooms, network, peerId, c)[network];
    assert peerId in room;
  }

  lemma DroppedKeepsRooms(rooms: Rooms, network: string, peerId: u32, c: ConnId)
    requires NoEmptyRoom(rooms)
    ensures NoEmptyRoom(Dropped(rooms, network, peerId, c))
  {
  }

  class RoomRegistry {
    var rooms: Rooms

    constructor ()
      ensures rooms == map[]
    {
      rooms := map[];
    }

    method Get(network: string, peerId: u32) returns (c: Option<ConnId>)
      ensures c == Lookup(rooms, network, peerId)
    {
      if network in rooms && peerId in rooms[network] {
        return Some(rooms[network][peerId]);
      }
      return None;
    }

    method Set(network: string, peerId: u32, c: ConnId) returns (previous: Option<ConnId>)
      modifies this
      ensures rooms == Placed(old(rooms), network, peerId, c)
      ensures previous == Lookup(old(rooms), network, peerId)
    {
      var room := map[];
      if network in rooms {
        room := rooms[network];
      } else {
        rooms := rooms[network := room];
      }
      previous := if peerId in room then Some(room[peerId]) else None;
      room := room[peerId := c];
      rooms := rooms[network := room];
    }

    method Delete(network: string, peerId: u32, c: ConnId) returns (deleted: bool)
      modifies this
      ensures rooms == Dropped(old(rooms), network, peerId, c)
      ensures deleted == (Lookup(old(rooms), network, peerId) == Some(c))
    {
      if network !in rooms || peerId !in rooms[network] || rooms[network][peerId] != c {
        return false;
      }
      var room := rooms[network] - {peerId};
      if room == map[] {
        rooms := rooms - {network};
      } else {
        rooms := rooms[network := room];
      }
      return true;
    }

    /** The connections of a network, in some order of iteration. */
    method Peers(network: string) returns (members: seq<ConnId>)
      ensures forall c :: c in members <==> exists p :: Lookup(rooms, network, p) == Some(c)
    {
      members := [];
      if network !in rooms {
        return;
      }
      var rest := rooms[network].Keys;
      while rest != {}
        invariant rest <= rooms[network].Keys
        invariant forall c :: c in members <==> exists p :: p in rooms[network] && p !in rest && rooms[network][p] == c
        decreases |rest|
      {
        var p :| p in rest;
        ghost var before, was := members, rest;
        members := members + [rooms[network][p]];
        rest := rest - {p};
        forall c
          ensures c in members <==> exists q :: q in rooms[network] && q !in rest && rooms[network][q] == c
        {
          if c in before {
            var q :| q in rooms[network] && q !in was && rooms[network][q] == c;
            assert q in rooms[network] && q !in rest && rooms[network][q] == c;
          }
          if q :| q in rooms[network] && q !in rest && rooms[network][q] == c {
            if q != p {
              assert q !in was;
            }
          }
        }
      }
      forall c
        ensures c in members <==> exists p :: Lookup(rooms, network, p) == Some(c)
      {
        if c in members {
          var p :| p in rooms[network] && p !in rest && rooms[network][p] == c;
          assert Lookup(rooms, network, p) == Some(c);
        }
        if p :| Lookup(rooms, network, p) == Some(c) {
          assert p in rooms[network] && p !in rest && rooms[network][p] == c;
        }
      }
    }
  }
}
