/** The server's room registry: the process-wide `rooms` map, and for each
    socket the two closure variables `currentRoom` and `currentUser` of its
    `connection` handler, the transport rooms it has joined, and how many
    copies of the room listeners its `join` handler has registered.

    Each handler is written twice: as a ghost function from the state before
    the event to the state after it (the `...Step` functions, about which the
    lemmas speak), and as a method of `Server` that changes the fields step by
    step, in the order the handler does, and is proved to reach that state. */
module Registry {
  import opened Base
  import opened Protocol
  import opened Rooms

  /** What the server holds for one socket. `listeners` counts the successful
      joins: each one registers one more copy of the `codeChange`, `typing`,
      `languageChange`, `draw`, `leaveRoom` and `disconnect` listeners. */
  datatype Conn = Conn(
    currentRoom: Option<string>,
    currentUser: Option<string>,
    transport: set<string>,
    listeners: nat,
    connected: bool)

  /** One emit: the sockets it reaches and the event. */
  datatype Delivery = Delivery(to: set<SocketId>, event: ServerEvent)

  datatype State = State(rooms: map<string, Room>, conns: map<SocketId, Conn>, outbox: seq<Delivery>)

  const TakenMessage := "This username is already taken in this room."

  /** What holds between events: every room's names are unique keys, a
      socket's `currentRoom` always names a room that exists (rooms are never
      deleted), and a closed socket is in no transport room. */
  ghost predicate Inv(s: State) {
    && (forall r :: r in s.rooms ==> UniqueNames(s.rooms[r]))
    && (forall id :: id in s.conns && s.conns[id].currentRoom.Some? ==> s.conns[id].currentRoom.value in s.rooms)
    && (forall id :: id in s.conns && !s.conns[id].connected ==> s.conns[id].transport == {})
  }

  /** The transport delivers events only from open sockets. */
  predicate Live(s: State, sid: SocketId) {
    sid in s.conns && s.conns[sid].connected
  }

  /** The sockets `io.to(room)` reaches. */
  function Audience(conns: map<SocketId, Conn>, room: string): set<SocketId> {
    set id | id in conns && room in conns[id].transport
  }

  /** `n` identical emits, one per registered listener copy. */
  function Copies(d: Delivery, n: nat): seq<Delivery> {
    seq(n, _ => d)
  }

  /** A new socket starts with no association, no room listeners, and in the
      transport room named by its own id. */
  ghost function ConnectStep(s: State, sid: SocketId): (r: State)
    requires Inv(s) && sid !in s.conns
    ensures Inv(r) && Live(r, sid)
  {
    s.(conns := s.conns[sid := Conn(None, None, {sid}, 0, true)])
  }

  /** Lines 29-33 of the `join` handler: when `currentRoom` is truthy, leave
      it, delete the REQUESTED name from it and broadcast its names. */
  ghost function LeavePrevious(s: State, sid: SocketId, userName: string): (r: State)
    requires Inv(s) && Live(s, sid)
    ensures Inv(r) && Live(r, sid) && r.rooms.Keys == s.rooms.Keys
  {
    var c := s.conns[sid];
    if Truthy(c.currentRoom) then
      var prev := c.currentRoom.value;
      var conns' := s.conns[sid := c.(transport := c.transport - {prev})];
      var rooms' := s.rooms[prev := Delete(s.rooms[prev], userName)];
      State(rooms', conns', s.outbox + [Delivery(Audience(conns', prev), UserJoined(Names(rooms'[prev])))])
    else
      s
  }

  /** Lines 35-42: switch the association, join the transport room and create
      the room entry on first use. */
  ghost function Associate(s: State, sid: SocketId, roomId: string, userName: string): (r: State)
    requires Inv(s) && Live(s, sid)
    ensures Inv(r) && Live(r, sid) && r.rooms.Keys == s.rooms.Keys + {roomId}
  {
    var c := s.conns[sid];
    var conns' := s.conns[sid := c.(currentRoom := Some(roomId), currentUser := Some(userName), transport := c.transport + {roomId})];
    var rooms' := if roomId in s.rooms then s.rooms else s.rooms[roomId := []];
    State(rooms', conns', s.outbox)
  }

  /** Lines 44-56: refuse a name that is already a key, else record it,
      broadcast the names and register one more copy of the room listeners. */
  ghost function Admit(s: State, sid: SocketId, roomId: string, userName: string): (r: State)
    requires Inv(s) && Live(s, sid) && roomId in s.rooms
    ensures Inv(r) && Live(r, sid) && r.rooms.Keys == s.rooms.Keys
  {
    var roomUsers := s.rooms[roomId];
    if HasName(roomUsers, userName) then
      s.(outbox := s.outbox + [Delivery({sid}, UsernameTaken(TakenMessage))])
    else
      AppendKeepsUnique(roomUsers, Member(userName, sid));
      var rooms' := s.rooms[roomId := roomUsers + [Member(userName, sid)]];
      var c := s.conns[sid];
      var conns' := s.conns[sid := c.(listeners := c.listeners + 1)];
      State(rooms', conns', s.outbox + [Delivery(Audience(conns', roomId), UserJoined(Names(rooms'[roomId])))])
  }

  /** The `join` handler. */
  ghost function JoinStep(s: State, sid: SocketId, roomId: string, userName: string): (r: State)
    requires Inv(s) && Live(s, sid)
    ensures Inv(r) && Live(r, sid)
    ensures r.rooms.Keys == s.rooms.Keys + {roomId}
  {
    Admit(Associate(LeavePrevious(s, sid, userName), sid, roomId, userName), sid, roomId, userName)
  }

  /** The events handled by a room listener that only re-emits. */
  predicate Relayed(ev: ClientEvent) {
    ev.CodeChange? || ev.Typing? || ev.LanguageChange? || ev.Draw?
  }

  /** The emit one copy of a room listener makes for a relayed event
      (lines 56-83): `codeChange`, `typing` and `draw` go to the payload's room
      minus the sender, `languageChange` to the whole payload room. */
  function Routed(conns: map<SocketId, Conn>, sid: SocketId, ev: ClientEvent): Delivery
    requires Relayed(ev)
  {
    match ev
    case CodeChange(roomId, code) => Delivery(Audience(conns, roomId) - {sid}, CodeUpdate(code))
    case Typing(roomId, userName) => Delivery(Audience(conns, roomId) - {sid}, UserTyping(userName))
    case LanguageChange(roomId, language) => Delivery(Audience(conns, roomId), LanguageUpdate(language))
    case Draw(roomId, stroke) => Delivery(Audience(conns, roomId) - {sid}, DrawRelay(stroke))
  }

  /** Every registered copy of the listener emits once. */
  ghost function RelayStep(s: State, sid: SocketId, d: Delivery): (r: State)
    requires Inv(s) && Live(s, sid)
    ensures Inv(r) && Live(r, sid) && r.rooms == s.rooms && r.conns == s.conns
  {
    s.(outbox := s.outbox + Copies(d, s.conns[sid].listeners))
  }

  /** One copy of the `leaveRoom` listener (lines 85-93): delete `currentUser`
      from `currentRoom` and broadcast while both are truthy, then leave the
      transport room and clear the association. The broadcast precedes
      `socket.leave`, so the leaving socket receives it too. */
  ghost function LeaveOnce(s: State, sid: SocketId): (r: State)
    requires Inv(s) && Live(s, sid)
    ensures Inv(r) && Live(r, sid) && r.rooms.Keys == s.rooms.Keys
    ensures r.conns[sid].listeners == s.conns[sid].listeners
  {
    var c := s.conns[sid];
    var s1 :=
      if Truthy(c.currentRoom) && Truthy(c.currentUser) then
        var room := c.currentRoom.value;
        var rooms' := s.rooms[room := Delete(s.rooms[room], c.currentUser.value)];
        State(rooms', s.conns, s.outbox + [Delivery(Audience(s.conns, room), UserJoined(Names(rooms'[room])))])
      else s;
    var transport' := if c.currentRoom.Some? then c.transport - {c.currentRoom.value} else c.transport;
    s1.(conns := s1.conns[sid := c.(transport := transport', currentRoom := None, currentUser := None)])
  }

  /** `n` copies of the `leaveRoom` listener, run in registration order. */
  ghost function LeaveN(s: State, sid: SocketId, n: nat): (r: State)
    requires Inv(s) && Live(s, sid)
    ensures Inv(r) && Live(r, sid) && r.rooms.Keys == s.rooms.Keys
    ensures r.conns[sid].listeners == s.conns[sid].listeners
  {
    if n == 0 then s else LeaveOnce(LeaveN(s, sid, n - 1), sid)
  }

  /** The `leaveRoom` event: every registered copy runs. */
  ghost function LeaveStep(s: State, sid: SocketId): (r: State)
    requires Inv(s) && Live(s, sid)
    ensures Inv(r) && Live(r, sid) && r.rooms.Keys == s.rooms.Keys
  {
    LeaveN(s, sid, s.conns[sid].listeners)
  }

  /** One copy of the `disconnect` listener (lines 95-101): delete and
      broadcast while both closure variables are truthy; it clears nothing. */
  ghost function DisconnectOnce(s: State, sid: SocketId): (r: State)
    requires Inv(s) && sid in s.conns
    ensures Inv(r) && r.conns == s.conns && r.rooms.Keys == s.rooms.Keys
  {
    var c := s.conns[sid];
    if Truthy(c.currentRoom) && Truthy(c.currentUser) then
      var room := c.currentRoom.value;
      var rooms' := s.rooms[room := Delete(s.rooms[room], c.currentUser.value)];
      State(rooms', s.conns, s.outbox + [Delivery(Audience(s.conns, room), UserJoined(Names(rooms'[room])))])
    else s
  }

  ghost function DisconnectN(s: State, sid: SocketId, n: nat): (r: State)
    requires Inv(s) && sid in s.conns
    ensures Inv(r) && r.conns == s.conns && r.rooms.Keys == s.rooms.Keys
  {
    if n == 0 then s else DisconnectOnce(DisconnectN(s, sid, n - 1), sid)
  }

  /** Closing the socket: the transport takes it out of every room before it
      fires `disconnect`, then every registered copy of the listener runs. */
  ghost function DisconnectStep(s: State, sid: SocketId): (r: State)
    requires Inv(s) && Live(s, sid)
    ensures Inv(r) && sid in r.conns && !r.conns[sid].connected && r.rooms.Keys == s.rooms.Keys
  {
    var c := s.conns[sid];
    var closed := s.(conns := s.conns[sid := c.(transport := {}, connected := false)]);
    DisconnectN(closed, sid, c.listeners)
  }

  /** Dispatch of a client event on an open socket. The server registers no
      listener for `joinCall`, `leaveCall`, `requestParticipants` or the
      `webrtc-*` events, so those change nothing. */
  ghost function Step(s: State, sid: SocketId, ev: ClientEvent): (r: State)
    requires Inv(s) && Live(s, sid)
    ensures Inv(r) && Live(r, sid)
    ensures s.rooms.Keys <= r.rooms.Keys
  {
    if ev.Join? then JoinStep(s, sid, ev.roomId, ev.userName)
    else if ev.LeaveRoom? then LeaveStep(s, sid)
    else if Relayed(ev) then RelayStep(s, sid, Routed(s.conns, sid, ev))
    else s
  }

  /** The registry as the server process holds it. */
  class Server {
    var rooms: map<string, Room>
    var conns: map<SocketId, Conn>
    var outbox: seq<Delivery>

    ghost function Snapshot(): State
      reads this
    {
      State(rooms, conns, outbox)
    }

    ghost predicate Valid()
      reads this
    {
      Inv(Snapshot())
    }

    /** `const rooms = new Map()` at start-up. */
    constructor ()
      ensures Valid() && rooms == map[] && conns == map[] && outbox == []
    {
      rooms, conns, outbox := map[], map[], [];
    }

    method Connect(sid: SocketId)
      requires Valid() && sid !in conns
      modifies this
      ensures Valid() && Snapshot() == ConnectStep(old(Snapshot()), sid)
    {
      conns := conns[sid := Conn(None, None, {sid}, 0, true)];
    }

    /** Lines 29-33 of the `join` handler. */
    method LeavePreviousRoom(sid: SocketId, userName: string)
      requires Valid() && Live(Snapshot(), sid)
      modifies this
      ensures Valid() && Snapshot() == LeavePrevious(old(Snapshot()), sid, userName)
    {
      var c := conns[sid];
      if Truthy(c.currentRoom) {
        var prev := c.currentRoom.value;
        conns := conns[sid := c.(transport := c.transport - {prev})];
        rooms := rooms[prev := Delete(rooms[prev], userName)];
        outbox := outbox + [Delivery(Audience(conns, prev), UserJoined(Names(rooms[prev])))];
      }
    }

    /** Lines 35-42 of the `join` handler. */
    method AssociateWith(sid: SocketId, roomId: string, userName: string)
      requires Valid() && Live(Snapshot(), sid)
      modifies this
      ensures Valid() && Snapshot() == Associate(old(Snapshot()), sid, roomId, userName)
    {
      var c := conns[sid];
      conns := conns[sid := c.(currentRoom := Some(roomId), currentUser := Some(userName))];
      c := conns[sid];
      conns := conns[sid := c.(transport := c.transport + {roomId})];
      if roomId !in rooms {
        rooms := rooms[roomId := []];
      }
      assert conns == old(conns)[sid := c.(transport := c.transport + {roomId})];
      assert Snapshot() == Associate(old(Snapshot()), sid, roomId, userName);
    }

    /** Lines 44-56 of the `join` handler. */
    method AdmitTo(sid: SocketId, roomId: string, userName: string)
      requires Valid() && Live(Snapshot(), sid) && roomId in rooms
      modifies this
      ensures Valid() && Snapshot() == Admit(old(Snapshot()), sid, roomId, userName)
    {
      var roomUsers := rooms[roomId];
      if HasName(roomUsers, userName) {
        outbox := outbox + [Delivery({sid}, UsernameTaken(TakenMessage))];
        assert Snapshot() == Admit(old(Snapshot()), sid, roomId, userName);
        return;
      }
      AppendKeepsUnique(roomUsers, Member(userName, sid));
      rooms := rooms[roomId := roomUsers + [Member(userName, sid)]];
      var c := conns[sid];
      conns := conns[sid := c.(listeners := c.listeners + 1)];
      outbox := outbox + [Delivery(Audience(conns, roomId), UserJoined(Names(rooms[roomId])))];
      assert Snapshot() == Admit(old(Snapshot()), sid, roomId, userName);
    }

    method Join(sid: SocketId, roomId: string, userName: string)
      requires Valid() && Live(Snapshot(), sid)
      modifies this
      ensures Valid() && Snapshot() == JoinStep(old(Snapshot()), sid, roomId, userName)
    {
      LeavePreviousRoom(sid, userName);
      AssociateWith(sid, roomId, userName);
      AdmitTo(sid, roomId, userName);
    }

    /** Runs every registered copy of a relay listener. */
    method Relay(sid: SocketId, d: Delivery)
      requires Valid() && Live(Snapshot(), sid)
      modifies this
      ensures Valid() && Snapshot() == RelayStep(old(Snapshot()), sid, d)
    {
      var n := conns[sid].listeners;
      for i := 0 to n
        invariant rooms == old(rooms) && conns == old(conns)
        invariant outbox == old(outbox) + Copies(d, i)
      {
        outbox := outbox + [d];
      }
    }

    /** One copy of the `leaveRoom` listener. */
    method LeaveRoomListener(sid: SocketId)
      requires Valid() && Live(Snapshot(), sid)
      modifies this
      ensures Valid() && Snapshot() == LeaveOnce(old(Snapshot()), sid)
    {
      var c := conns[sid];
      if Truthy(c.currentRoom) && Truthy(c.currentUser) {
        var room := c.currentRoom.value;
        rooms := rooms[room := Delete(rooms[room], c.currentUser.value)];
        outbox := outbox + [Delivery(Audience(conns, room), UserJoined(Names(rooms[room])))];
      }
      var transport := if c.currentRoom.Some? then c.transport - {c.currentRoom.value} else c.transport;
      conns := conns[sid := c.(transport := transport, currentRoom := None, currentUser := None)];
    }

    method LeaveRoom(sid: SocketId)
      requires Valid() && Live(Snapshot(), sid)
      modifies this
      ensures Valid() && Snapshot() == LeaveStep(old(Snapshot()), sid)
    {
      var n := conns[sid].listeners;
      for i := 0 to n
        invariant Valid() && Live(Snapshot(), sid)
        invariant Snapshot() == LeaveN(old(Snapshot()), sid, i)
      {
        LeaveRoomListener(sid);
      }
    }

    /** One copy of the `disconnect` listener. */
    method DisconnectListener(sid: SocketId)
      requires Valid() && sid in conns
      modifies this
      ensures Valid() && Snapshot() == DisconnectOnce(old(Snapshot()), sid)
    {
      var c := conns[sid];
      if Truthy(c.currentRoom) && Truthy(c.currentUser) {
        var room := c.currentRoom.value;
        rooms := rooms[room := Delete(rooms[room], c.currentUser.value)];
        outbox := outbox + [Delivery(Audience(conns, room), UserJoined(Names(rooms[room])))];
      }
    }

    method Disconnect(sid: SocketId)
      requires Valid() && Live(Snapshot(), sid)
      modifies this
      ensures Valid() && Snapshot() == DisconnectStep(old(Snapshot()), sid)
    {
      var c := conns[sid];
      conns := conns[sid := c.(transport := {}, connected := false)];
      ghost var closed := Snapshot();
      for i := 0 to c.listeners
        invariant Valid() && sid in conns
        invariant Snapshot() == DisconnectN(closed, sid, i)
      {
        DisconnectListener(sid);
      }
    }

    /** An event arriving on an open socket. */
    method Receive(sid: SocketId, ev: ClientEvent)
      requires Valid() && Live(Snapshot(), sid)
      modifies this
      ensures Valid() && Snapshot() == Step(old(Snapshot()), sid, ev)
    {
      if ev.Join? {
        Join(sid, ev.roomId, ev.userName);
      } else if ev.LeaveRoom? {
        LeaveRoom(sid);
      } else if Relayed(ev) {
        Relay(sid, Routed(conns, sid, ev));
      }
    }
  }
}
