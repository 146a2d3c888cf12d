/** What the registry's handlers promise, stated over the step functions of
    `Registry`. Line numbers refer to backend/index.js. */
module RegistryProperties {
  import opened Base
  import opened Protocol
  import opened Rooms
  import opened Registry

  /** The room `roomId` as the join handler finds it after lines 29-42. */
  function RoomOr(rooms: map<string, Room>, roomId: string): Room {
    if roomId in rooms then rooms[roomId] else []
  }

  /** A join whose name is already a key of the target room (lines 44-49):
      that room keeps its entries, only the joining socket is told, and the
      association and the transport room have switched all the same, so the
      refused socket now receives the room's broadcasts. No listener is added. */
  lemma JoinRefused(s: State, sid: SocketId, roomId: string, userName: string)
    requires Inv(s) && Live(s, sid)
    requires roomId in s.rooms && HasName(s.rooms[roomId], userName)
    requires !(Truthy(s.conns[sid].currentRoom) && s.conns[sid].currentRoom.value == roomId)
    ensures var r := JoinStep(s, sid, roomId, userName);
      && r.rooms[roomId] == s.rooms[roomId]
      && r.outbox[|r.outbox| - 1] == Delivery({sid}, UsernameTaken(TakenMessage))
      && r.conns[sid].currentRoom == Some(roomId) && r.conns[sid].currentUser == Some(userName)
      && sid in Audience(r.conns, roomId)
      && r.conns[sid].listeners == s.conns[sid].listeners
  {
  }

  /** A join whose name is free in the target room (lines 51-52): the name is
      recorded last, against this socket, and the room's names in insertion
      order go to every socket in the transport room, the joiner included. */
  lemma JoinAdmitted(s: State, sid: SocketId, roomId: string, userName: string)
    requires Inv(s) && Live(s, sid)
    requires !HasName(RoomOr(s.rooms, roomId), userName)
    ensures var r := JoinStep(s, sid, roomId, userName);
      && r.rooms[roomId] == RoomOr(s.rooms, roomId) + [Member(userName, sid)]
      && r.outbox[|r.outbox| - 1] == Delivery(Audience(r.conns, roomId), UserJoined(Names(RoomOr(s.rooms, roomId)) + [userName]))
      && sid in Audience(r.conns, roomId)
      && r.conns[sid].listeners == s.conns[sid].listeners + 1
  {
    var s1 := LeavePrevious(s, sid, userName);
    var c := s.conns[sid];
    if Truthy(c.currentRoom) && c.currentRoom.value == roomId {
      DeleteAbsent(s.rooms[roomId], userName);
    }
    assert RoomOr(s1.rooms, roomId) == RoomOr(s.rooms, roomId);
    NamesAppend(RoomOr(s.rooms, roomId), Member(userName, sid));
  }

  /** Switching rooms (lines 29-33) deletes the REQUESTED name from the old
      room, not `currentUser`: the old entry of this socket stays behind when
      the names differ. The old room's broadcast no longer reaches the socket. */
  lemma SwitchDeletesRequestedName(s: State, sid: SocketId, roomId: string, userName: string)
    requires Inv(s) && Live(s, sid)
    requires Truthy(s.conns[sid].currentRoom) && s.conns[sid].currentRoom.value != roomId
    ensures var prev := s.conns[sid].currentRoom.value;
      var r := JoinStep(s, sid, roomId, userName);
      && r.rooms[prev] == Delete(s.rooms[prev], userName)
      && (forall n :: n != userName && HasName(s.rooms[prev], n) ==> HasName(r.rooms[prev], n))
      && r.outbox[|s.outbox|] == Delivery(Audience(r.conns, prev), UserJoined(Names(r.rooms[prev])))
      && sid !in Audience(r.conns, prev)
  {
    var prev := s.conns[sid].currentRoom.value;
    var s1 := LeavePrevious(s, sid, userName);
    assert s1.rooms[prev] == Delete(s.rooms[prev], userName);
    assert s1.outbox == s.outbox + [Delivery(Audience(s1.conns, prev), UserJoined(Names(s1.rooms[prev])))];
    assert prev !in s1.conns[sid].transport;
    JoinRestKeepsRoom(s1, sid, roomId, userName, prev);
    var r := JoinStep(s, sid, roomId, userName);
    assert r.rooms[prev] == s1.rooms[prev];
    forall n | n != userName && HasName(s.rooms[prev], n)
      ensures HasName(r.rooms[prev], n)
    {
      DeleteKeepsOthers(s.rooms[prev], userName, n);
    }
  }

  /** After the previous room is left, the rest of `join` leaves another
      room, its audience and the emits so far alone. */
  lemma JoinRestKeepsRoom(s1: State, sid: SocketId, roomId: string, userName: string, prev: string)
    requires Inv(s1) && Live(s1, sid) && prev in s1.rooms && prev != roomId
    ensures var r := Admit(Associate(s1, sid, roomId, userName), sid, roomId, userName);
      && r.rooms[prev] == s1.rooms[prev]
      && Audience(r.conns, prev) == Audience(s1.conns, prev)
      && |s1.outbox| <= |r.outbox| && r.outbox[..|s1.outbox|] == s1.outbox
  {
    var s2 := Associate(s1, sid, roomId, userName);
    AssociateKeepsRoom(s1, sid, roomId, userName, prev);
    AdmitKeepsRoom(s2, sid, roomId, userName, prev);
  }

  lemma AssociateKeepsRoom(s1: State, sid: SocketId, roomId: string, userName: string, prev: string)
    requires Inv(s1) && Live(s1, sid) && prev in s1.rooms && prev != roomId
    ensures var s2 := Associate(s1, sid, roomId, userName);
      s2.rooms[prev] == s1.rooms[prev] && Audience(s2.conns, prev) == Audience(s1.conns, prev) && s2.outbox == s1.outbox
  {
    var s2 := Associate(s1, sid, roomId, userName);
    assert forall id :: id in s2.conns ==> (prev in s2.conns[id].transport <==> prev in s1.conns[id].transport);
  }

  lemma AdmitKeepsRoom(s2: State, sid: SocketId, roomId: string, userName: string, prev: string)
    requires Inv(s2) && Live(s2, sid) && roomId in s2.rooms && prev in s2.rooms && prev != roomId
    ensures var r := Admit(s2, sid, roomId, userName);
      && r.rooms[prev] == s2.rooms[prev]
      && Audience(r.conns, prev) == Audience(s2.conns, prev)
      && |s2.outbox| <= |r.outbox| && r.outbox[..|s2.outbox|] == s2.outbox
  {
    var r := Admit(s2, sid, roomId, userName);
    assert forall id :: id in r.conns ==> r.conns[id].transport == s2.conns[id].transport;
  }

  /** A member who re-joins its own room under a name another member holds is
      not refused: line 31 deletes the holder first, and the socket ends up
      under both names. */
  lemma RejoinUnderTakenNameEvictsHolder(s: State, sid: SocketId, roomId: string, userName: string)
    requires Inv(s) && Live(s, sid)
    requires s.conns[sid].currentRoom == Some(roomId) && roomId != ""
    requires HasName(s.rooms[roomId], userName)
    ensures var r := JoinStep(s, sid, roomId, userName);
      && r.rooms[roomId] == Delete(s.rooms[roomId], userName) + [Member(userName, sid)]
      && !r.outbox[|r.outbox| - 1].event.UsernameTaken?
  {
  }

  /** More copies of the `leaveRoom` listener act like one: after the first,
      the association is cleared and the others only re-clear it. */
  lemma {:induction false} LeaveNCollapses(s: State, sid: SocketId, n: nat)
    requires Inv(s) && Live(s, sid) && n >= 1
    ensures LeaveN(s, sid, n) == LeaveOnce(s, sid)
  {
    if n > 1 {
      LeaveNCollapses(s, sid, n - 1);
      var t := LeaveOnce(s, sid);
      assert LeaveOnce(t, sid).conns[sid] == t.conns[sid];
    }
  }

  /** `leaveRoom` on a socket that joined successfully at least once
      (lines 85-93): `currentUser` leaves `currentRoom`, the room's names go
      to every socket in it including the leaver, and the association is
      cleared. */
  lemma LeaveRoomEffect(s: State, sid: SocketId)
    requires Inv(s) && Live(s, sid) && s.conns[sid].listeners >= 1
    requires Truthy(s.conns[sid].currentRoom) && Truthy(s.conns[sid].currentUser)
    requires s.conns[sid].currentRoom.value in s.conns[sid].transport
    ensures var c := s.conns[sid];
      var room := c.currentRoom.value;
      var r := LeaveStep(s, sid);
      && r.rooms == s.rooms[room := Delete(s.rooms[room], c.currentUser.value)]
      && r.outbox == s.outbox + [Delivery(Audience(s.conns, room), UserJoined(Names(r.rooms[room])))]
      && sid in r.outbox[|r.outbox| - 1].to
      && r.conns[sid].currentRoom == None && r.conns[sid].currentUser == None
      && room !in r.conns[sid].transport
  {
    LeaveNCollapses(s, sid, s.conns[sid].listeners);
  }

  /** A socket whose joins were all refused has no `leaveRoom` listener. */
  lemma LeaveRoomWithoutListener(s: State, sid: SocketId)
    requires Inv(s) && Live(s, sid) && s.conns[sid].listeners == 0
    ensures LeaveStep(s, sid) == s
  {
  }

  /** A second `leaveRoom` changes nothing. */
  lemma LeaveRoomTwice(s: State, sid: SocketId)
    requires Inv(s) && Live(s, sid)
    ensures LeaveStep(LeaveStep(s, sid), sid) == LeaveStep(s, sid)
  {
    var t := LeaveStep(s, sid);
    var n := s.conns[sid].listeners;
    if n >= 1 {
      LeaveNCollapses(s, sid, n);
      LeaveNCollapses(t, sid, n);
      assert LeaveOnce(t, sid).conns[sid] == t.conns[sid];
    }
  }

  /** `disconnect` after `leaveRoom` deletes nothing and broadcasts nothing. */
  lemma DisconnectAfterLeave(s: State, sid: SocketId)
    requires Inv(s) && Live(s, sid)
    ensures var t := LeaveStep(s, sid);
      var u := DisconnectStep(t, sid);
      u.rooms == t.rooms && u.outbox == t.outbox
  {
    var t := LeaveStep(s, sid);
    var n := s.conns[sid].listeners;
    if n >= 1 {
      LeaveNCollapses(s, sid, n);
      var c := t.conns[sid];
      assert c.currentRoom == None;
      var closed := t.(conns := t.conns[sid := c.(transport := {}, connected := false)]);
      DisconnectNSilent(closed, sid, n);
    }
  }

  lemma {:induction false} DisconnectNSilent(s: State, sid: SocketId, n: nat)
    requires Inv(s) && sid in s.conns
    requires !(Truthy(s.conns[sid].currentRoom) && Truthy(s.conns[sid].currentUser))
    ensures DisconnectN(s, sid, n) == s
  {
    if n > 0 {
      DisconnectNSilent(s, sid, n - 1);
    }
  }

  /** `n` copies of the `disconnect` listener delete the user once and emit
      the same names `n` times. */
  lemma {:induction false} DisconnectNEffect(s: State, sid: SocketId, n: nat)
    requires Inv(s) && sid in s.conns && n >= 1
    requires Truthy(s.conns[sid].currentRoom) && Truthy(s.conns[sid].currentUser)
    ensures var c := s.conns[sid];
      var room := c.currentRoom.value;
      var rooms' := s.rooms[room := Delete(s.rooms[room], c.currentUser.value)];
      var r := DisconnectN(s, sid, n);
      && r.rooms == rooms'
      && r.outbox == s.outbox + Copies(Delivery(Audience(s.conns, room), UserJoined(Names(rooms'[room]))), n)
  {
    var c := s.conns[sid];
    var room := c.currentRoom.value;
    var rooms' := s.rooms[room := Delete(s.rooms[room], c.currentUser.value)];
    var d := Delivery(Audience(s.conns, room), UserJoined(Names(rooms'[room])));
    if n > 1 {
      DisconnectNEffect(s, sid, n - 1);
      DisconnectOnceAgain(DisconnectN(s, sid, n - 1), sid);
      CopiesSnoc(d, n - 1);
    } else {
      CopiesSnoc(d, 0);
    }
  }

  lemma CopiesSnoc(d: Delivery, n: nat)
    ensures Copies(d, n) + [d] == Copies(d, n + 1)
  {
    assert forall i :: 0 <= i < n + 1 ==> (Copies(d, n) + [d])[i] == d;
  }

  /** A `disconnect` listener copy run after the user is already gone only
      re-emits the names. */
  lemma DisconnectOnceAgain(t: State, sid: SocketId)
    requires Inv(t) && sid in t.conns
    requires Truthy(t.conns[sid].currentRoom) && Truthy(t.conns[sid].currentUser)
    requires !HasName(t.rooms[t.conns[sid].currentRoom.value], t.conns[sid].currentUser.value)
    ensures var room := t.conns[sid].currentRoom.value;
      DisconnectOnce(t, sid) == t.(outbox := t.outbox + [Delivery(Audience(t.conns, room), UserJoined(Names(t.rooms[room])))])
  {
    var c := t.conns[sid];
    DeleteAbsent(t.rooms[c.currentRoom.value], c.currentUser.value);
  }

  /** `disconnect` (lines 95-101) on a socket associated with a truthy room
      and user: the user is deleted once, the room's names are sent once per
      successful join the socket made, never to the closed socket itself, and
      `currentRoom`/`currentUser` are left as they were. */
  lemma DisconnectEffect(s: State, sid: SocketId)
    requires Inv(s) && Live(s, sid) && s.conns[sid].listeners >= 1
    requires Truthy(s.conns[sid].currentRoom) && Truthy(s.conns[sid].currentUser)
    ensures var c := s.conns[sid];
      var room := c.currentRoom.value;
      var r := DisconnectStep(s, sid);
      && r.rooms == s.rooms[room := Delete(s.rooms[room], c.currentUser.value)]
      && |r.outbox| == |s.outbox| + c.listeners
      && (forall i :: |s.outbox| <= i < |r.outbox| ==>
            r.outbox[i] == Delivery(Audience(r.conns, room), UserJoined(Names(r.rooms[room]))))
      && sid !in Audience(r.conns, room)
      && r.conns[sid].currentRoom == c.currentRoom && r.conns[sid].currentUser == c.currentUser
  {
    var c := s.conns[sid];
    var closed := s.(conns := s.conns[sid := c.(transport := {}, connected := false)]);
    DisconnectNEffect(closed, sid, c.listeners);
  }

  /** The refused joiner of `JoinRefused`, once it has joined successfully
      before, deletes the OTHER holder of the name when it leaves or
      disconnects: its `currentUser` is the name it was refused (lines 35-36,
      86-87, 96-97). */
  lemma RefusedJoinerEvictsHolder(s: State, sid: SocketId, roomId: string, userName: string)
    requires Inv(s) && Live(s, sid) && s.conns[sid].listeners >= 1
    requires roomId != "" && userName != ""
    requires roomId in s.rooms && HasName(s.rooms[roomId], userName)
    requires !(Truthy(s.conns[sid].currentRoom) && s.conns[sid].currentRoom.value == roomId)
    ensures var t := JoinStep(s, sid, roomId, userName);
      && HasName(t.rooms[roomId], userName)
      && !HasName(LeaveStep(t, sid).rooms[roomId], userName)
      && !HasName(DisconnectStep(t, sid).rooms[roomId], userName)
  {
    var t := JoinStep(s, sid, roomId, userName);
    JoinRefused(s, sid, roomId, userName);
    LeaveRoomEffect(t, sid);
    DisconnectEffect(t, sid);
  }

  /** An empty user name is stored like any other (lines 46-51) but is falsy
      at line 86, so `leaveRoom` never deletes it: the entry outlives the
      leave. */
  lemma EmptyNameOutlivesLeave(s: State, sid: SocketId, roomId: string)
    requires Inv(s) && Live(s, sid)
    requires !HasName(RoomOr(s.rooms, roomId), "")
    ensures var t := JoinStep(s, sid, roomId, "");
      && HasName(t.rooms[roomId], "")
      && HasName(LeaveStep(t, sid).rooms[roomId], "")
  {
    var t := JoinStep(s, sid, roomId, "");
    JoinAdmitted(s, sid, roomId, "");
    NamesAppend(RoomOr(s.rooms, roomId), Member("", sid));
    LeaveNCollapses(t, sid, t.conns[sid].listeners);
  }

  /** An empty room id is falsy at line 29: joining elsewhere afterwards
      neither leaves transport room `""` nor deletes anything from it. */
  lemma EmptyRoomIsNeverLeftByJoin(s: State, sid: SocketId, roomId: string, userName: string)
    requires Inv(s) && Live(s, sid)
    requires s.conns[sid].currentRoom == Some("") && "" in s.conns[sid].transport && roomId != ""
    ensures var r := JoinStep(s, sid, roomId, userName);
      && "" in r.conns[sid].transport
      && r.rooms[""] == s.rooms[""]
  {
  }

  /** The relay listeners (lines 56-83): each registered copy emits once to
      the room named in the PAYLOAD; the sender never receives its own
      `codeUpdate`, `userTyping` or `draw`, and receives its `languageUpdate`
      exactly when it is in that room. Nothing else changes. */
  lemma RelayRules(s: State, sid: SocketId, ev: ClientEvent)
    requires Inv(s) && Live(s, sid) && Relayed(ev)
    ensures var r := Step(s, sid, ev);
      var d := Routed(s.conns, sid, ev);
      && r.rooms == s.rooms && r.conns == s.conns
      && |r.outbox| == |s.outbox| + s.conns[sid].listeners
      && (forall i :: |s.outbox| <= i < |r.outbox| ==> r.outbox[i] == d)
      && d.to == Audience(s.conns, ev.roomId) - (if ev.LanguageChange? then {} else {sid})
      && (sid in d.to <==> ev.LanguageChange? && ev.roomId in s.conns[sid].transport)
  {
  }

  /** Before its first successful join a socket has no relay, `leaveRoom`
      or `disconnect` listener: those events change nothing. */
  lemma NoListenersBeforeJoin(s: State, sid: SocketId, ev: ClientEvent)
    requires Inv(s) && Live(s, sid) && s.conns[sid].listeners == 0 && !ev.Join?
    ensures Step(s, sid, ev) == s
  {
  }

  /** The server has no handler for the voice-call events. */
  lemma CallEventsIgnored(s: State, sid: SocketId, ev: ClientEvent)
    requires Inv(s) && Live(s, sid)
    requires ev.JoinCall? || ev.LeaveCall? || ev.RequestParticipants?
          || ev.WebrtcOffer? || ev.WebrtcAnswer? || ev.WebrtcIceCandidate?
    ensures Step(s, sid, ev) == s
  {
  }

  /** Everything that can happen to the registry. Events for a socket id that
      is not open are not delivered, and a connect reuses no id. */
  datatype Event = Open(sid: SocketId) | Message(sid: SocketId, ev: ClientEvent) | Close(sid: SocketId)

  const Initial := State(map[], map[], [])

  ghost function Apply(s: State, e: Event): (r: State)
    requires Inv(s)
    ensures Inv(r) && s.rooms.Keys <= r.rooms.Keys
  {
    match e
    case Open(sid) => if sid in s.conns then s else ConnectStep(s, sid)
    case Message(sid, ev) => if Live(s, sid) then Step(s, sid, ev) else s
    case Close(sid) => if Live(s, sid) then DisconnectStep(s, sid) else s
  }

  ghost function Run(s: State, es: seq<Event>): (r: State)
    requires Inv(s)
    ensures Inv(r)
    decreases |es|
  {
    if es == [] then s else Run(Apply(s, es[0]), es[1..])
  }

  /** Along any run from start-up, at every point, every room's names are
      unique keys and no room has been deleted. */
  lemma {:induction false} RunKeepsRooms(s: State, es: seq<Event>)
    requires Inv(s)
    ensures Inv(Run(s, es)) && s.rooms.Keys <= Run(s, es).rooms.Keys
    decreases |es|
  {
    if es != [] {
      RunKeepsRooms(Apply(s, es[0]), es[1..]);
    }
  }

  /** A connected socket is in the transport room its `currentRoom` names.
      This is not part of `Inv`: between lines 30 and 37 of `join` the socket
      has left its old room while still associated with it. */
  ghost predicate Attached(s: State) {
    forall id :: id in s.conns && s.conns[id].connected && s.conns[id].currentRoom.Some? ==> s.conns[id].currentRoom.value in s.conns[id].transport
  }

  /** `join` changes only the joining socket, which ends up associated with
      the target room and in its transport room. */
  lemma JoinAttached(s: State, sid: SocketId, roomId: string, userName: string)
    requires Inv(s) && Live(s, sid) && Attached(s)
    ensures Attached(JoinStep(s, sid, roomId, userName))
  {
    var s1 := LeavePrevious(s, sid, userName);
    var s2 := Associate(s1, sid, roomId, userName);
    var r := Admit(s2, sid, roomId, userName);
    assert SameOthers(s, s1, sid);
    assert SameOthers(s1, s2, sid) && s2.conns[sid].currentRoom == Some(roomId) && roomId in s2.conns[sid].transport;
    AdmitSameOthers(s2, sid, roomId, userName);
    AttachedFrom(s, r, sid);
  }

  /** `t` differs from `s` at most in socket `sid`. */
  ghost predicate SameOthers(s: State, t: State, sid: SocketId) {
    t.conns.Keys == s.conns.Keys && forall id :: id in t.conns && id != sid ==> t.conns[id] == s.conns[id]
  }

  lemma AdmitSameOthers(s2: State, sid: SocketId, roomId: string, userName: string)
    requires Inv(s2) && Live(s2, sid) && roomId in s2.rooms
    ensures var r := Admit(s2, sid, roomId, userName);
      && SameOthers(s2, r, sid)
      && r.conns[sid].currentRoom == s2.conns[sid].currentRoom && r.conns[sid].transport == s2.conns[sid].transport
  {
  }

  /** A change confined to one socket that leaves that socket attached keeps
      every socket attached. */
  lemma AttachedFrom(s: State, r: State, sid: SocketId)
    requires Attached(s) && SameOthers(s, r, sid)
    requires sid in r.conns && r.conns[sid].currentRoom.Some? ==> r.conns[sid].currentRoom.value in r.conns[sid].transport
    ensures Attached(r)
  {
  }

  lemma LeaveOnceAttached(t: State, sid: SocketId)
    requires Inv(t) && Live(t, sid) && Attached(t)
    ensures Attached(LeaveOnce(t, sid))
  {
    var r := LeaveOnce(t, sid);
    assert SameOthers(t, r, sid);
    AttachedFrom(t, r, sid);
  }

  lemma {:induction false} LeaveNAttached(s: State, sid: SocketId, n: nat)
    requires Inv(s) && Live(s, sid) && Attached(s)
    ensures Attached(LeaveN(s, sid, n))
  {
    if n > 0 {
      LeaveNAttached(s, sid, n - 1);
      LeaveOnceAttached(LeaveN(s, sid, n - 1), sid);
    }
  }

  lemma ApplyAttached(s: State, e: Event)
    requires Inv(s) && Attached(s)
    ensures Attached(Apply(s, e))
  {
    match e
    case Open(sid) =>
    case Message(sid, ev) =>
      if Live(s, sid) {
        if ev.Join? {
          JoinAttached(s, sid, ev.roomId, ev.userName);
        } else if ev.LeaveRoom? {
          LeaveNAttached(s, sid, s.conns[sid].listeners);
        }
      }
    case Close(sid) =>
  }

  lemma {:induction false} RunAttached(s: State, es: seq<Event>)
    requires Inv(s) && Attached(s)
    ensures Attached(Run(s, es))
    decreases |es|
  {
    if es != [] {
      ApplyAttached(s, es[0]);
      RunAttached(Apply(s, es[0]), es[1..]);
    }
  }

  /** In every state reachable from start-up, each connected socket is in its
      `currentRoom`'s transport room, as `LeaveRoomEffect` requires. */
  lemma ReachableAttached(es: seq<Event>)
    ensures Attached(Run(Initial, es))
  {
    RunAttached(Initial, es);
  }

  lemma FromStartUp(es: seq<Event>)
    ensures Inv(Run(Initial, es))
    ensures forall r :: r in Run(Initial, es).rooms ==> UniqueNames(Run(Initial, es).rooms[r])
  {
    RunKeepsRooms(Initial, es);
  }
}
