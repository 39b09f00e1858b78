/** The process-local registry of live connections: room (call session id)
    to user id to connection handle (SessionRegistry.java). */
module SessionRegistry {

  type RoomId = string
  type UserId = string
  /** A connection handle: the transport's id of a WebSocket session. */
  type ConnId = string

  type Rooms = map<RoomId, map<UserId, ConnId>>

  /** `get`: the room's members, or the empty map for a room never seen. */
  function Room(rooms: Rooms, s: RoomId): map<UserId, ConnId> {
    if s in rooms then rooms[s] else map[]
  }

  /** `register`: create the room on first use, then put the handle under the
      user, replacing any earlier handle of that user. */
  function Registered(rooms: Rooms, s: RoomId, u: UserId, ws: ConnId): Rooms {
    rooms[s := Room(rooms, s)[u := ws]]
  }

  /** `unregister`: drop the user's entry when the room exists; the room key
      itself stays. */
  function Unregistered(rooms: Rooms, s: RoomId, u: UserId): Rooms {
    if s in rooms then rooms[s := rooms[s] - {u}] else rooms
  }

  /** After `register(s, u, ws)`, `get(s)` maps `u` to `ws`, and every other
      member of `s` keeps its handle. */
  lemma GetAfterRegister(rooms: Rooms, s: RoomId, u: UserId, ws: ConnId)
    ensures u in Room(Registered(rooms, s, u, ws), s)
    ensures Room(Registered(rooms, s, u, ws), s)[u] == ws
    ensures forall v | v != u && v in Room(rooms, s) ::
      v in Room(Registered(rooms, s, u, ws), s) && Room(Registered(rooms, s, u, ws), s)[v] == Room(rooms, s)[v]
  {
  }

  /** Re-registering the same user replaces the handle: only the last
      register counts. */
  lemma LastWriterWins(rooms: Rooms, s: RoomId, u: UserId, a: ConnId, b: ConnId)
    ensures Registered(Registered(rooms, s, u, a), s, u, b) == Registered(rooms, s, u, b)
  {
    var r1 := Registered(Registered(rooms, s, u, a), s, u, b);
    var r2 := Registered(rooms, s, u, b);
    assert Room(r1, s) == Room(r2, s);
  }

  /** The room grows by one when the user was absent and keeps its size when
      the user re-registers. */
  lemma RegisterRoomSize(rooms: Rooms, s: RoomId, u: UserId, ws: ConnId)
    ensures u !in Room(rooms, s) ==> |Room(Registered(rooms, s, u, ws), s)| == |Room(rooms, s)| + 1
    ensures u in Room(rooms, s) ==> |Room(Registered(rooms, s, u, ws), s)| == |Room(rooms, s)|
  {
    var before := Room(rooms, s);
    var after := Room(Registered(rooms, s, u, ws), s);
    if u in before {
      assert after.Keys == before.Keys;
    } else {
      assert after.Keys == before.Keys + {u};
    }
  }

  /** `register` and `unregister` on room `s` leave every other room, and the
      set of rooms apart from `s`, as they were. */
  lemma OtherRoomsUnchanged(rooms: Rooms, s: RoomId, u: UserId, ws: ConnId, t: RoomId)
    requires t != s
    ensures (t in Registered(rooms, s, u, ws) <==> t in rooms) && Room(Registered(rooms, s, u, ws), t) == Room(rooms, t)
    ensures (t in Unregistered(rooms, s, u) <==> t in rooms) && Room(Unregistered(rooms, s, u), t) == Room(rooms, t)
  {
  }

  /** `unregister` on an unknown room, or of a user who is not in the room,
      changes nothing. */
  lemma UnregisterAbsentIsNoop(rooms: Rooms, s: RoomId, u: UserId)
    requires s !in rooms || u !in rooms[s]
    ensures Unregistered(rooms, s, u) == rooms
  {
    if s in rooms {
      assert rooms[s] - {u} == rooms[s];
    }
  }

  /** `unregister` removes only the user's entry: the room key stays in
      `all()`, possibly with no members left. */
  lemma UnregisterKeepsRoom(rooms: Rooms, s: RoomId, u: UserId)
    requires s in rooms
    ensures s in Unregistered(rooms, s, u)
    ensures Unregistered(rooms, s, u)[s].Keys == rooms[s].Keys - {u}
    ensures forall v | v in Unregistered(rooms, s, u)[s] :: Unregistered(rooms, s, u)[s][v] == rooms[s][v]
  {
  }

  /** `get` on a room never registered is the empty map, not a failure. */
  lemma GetUnknownRoomIsEmpty(rooms: Rooms, s: RoomId)
    requires s !in rooms
    ensures Room(rooms, s) == map[]
  {
  }

  /** The registry object. Its one field is the nested map, updated in place. */
  class SessionRegistry {
    var sessions: Rooms

    constructor ()
      ensures sessions == map[]
    {
      sessions := map[];
    }

    method Register(s: RoomId, u: UserId, ws: ConnId)
      modifies this
      ensures sessions == Registered(old(sessions), s, u, ws)
    {
      var room := if s in sessions then sessions[s] else map[];
      sessions := sessions[s := room[u := ws]];
    }

    method Unregister(s: RoomId, u: UserId)
      modifies this
      ensures sessions == Unregistered(old(sessions), s, u)
    {
      if s in sessions {
        sessions := sessions[s := sessions[s] - {u}];
      }
    }

    function Get(s: RoomId): map<UserId, ConnId>
      reads this
    {
      Room(sessions, s)
    }

    function All(): Rooms
      reads this
    {
      sessions
    }
  }
}
