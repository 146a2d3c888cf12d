/** One room of the server's registry: a JavaScript `Map` from user name to
    socket id. A `Map` keeps its keys in insertion order, so a room is a list
    of entries; `Array.from(room.keys())` is `Names`. */
module Rooms {
  import opened Base

  type SocketId = string

  datatype Member = Member(name: string, socket: SocketId)

  type Room = seq<Member>

  function Names(room: Room): (ns: seq<string>)
    ensures |ns| == |room|
    ensures forall i :: 0 <= i < |room| ==> ns[i] == room[i].name
  {
    if room == [] then [] else [room[0].name] + Names(room[1..])
  }

  /** `room.has(name)` */
  predicate HasName(room: Room, name: string) {
    name in Names(room)
  }

  /** The keys of a `Map` are unique. */
  predicate UniqueNames(room: Room) {
    forall i, j :: 0 <= i < j < |room| ==> room[i].name != room[j].name
  }

  /** `room.delete(name)`: removes the entry for `name`, if any; the other
      entries keep their order. */
  function Delete(room: Room, name: string): (r: Room)
    ensures forall m :: m in r <==> m in room && m.name != name
    ensures !HasName(r, name)
    ensures |r| <= |room|
    ensures UniqueNames(room) ==> UniqueNames(r)
  {
    if room == [] then []
    else if room[0].name == name then Delete(room[1..], name)
    else [room[0]] + Delete(room[1..], name)
  }

  lemma HasNameAt(room: Room, name: string) returns (i: nat)
    requires HasName(room, name)
    ensures i < |room| && room[i].name == name
  {
    var ns := Names(room);
    i :| i < |ns| && ns[i] == name;
  }

  /** `set` of a key that is not yet there appends it: the new name is last. */
  lemma NamesAppend(room: Room, m: Member)
    ensures Names(room + [m]) == Names(room) + [m.name]
  {
    assert |Names(room + [m])| == |Names(room) + [m.name]|;
  }

  /** Appending a name that is not yet a key keeps the keys unique. */
  lemma AppendKeepsUnique(room: Room, m: Member)
    requires UniqueNames(room) && !HasName(room, m.name)
    ensures UniqueNames(room + [m])
  {
    forall i | 0 <= i < |room|
      ensures room[i].name != m.name
    {
      assert Names(room)[i] == room[i].name;
    }
  }

  /** Deleting a name that is not a key changes nothing. */
  lemma {:induction false} DeleteAbsent(room: Room, name: string)
    requires !HasName(room, name)
    ensures Delete(room, name) == room
  {
    if room != [] {
      DeleteAbsent(room[1..], name);
    }
  }

  /** The tail of a room with unique names has unique names. */
  lemma TailUnique(room: Room)
    requires UniqueNames(room) && room != []
    ensures UniqueNames(room[1..]) && !HasName(room[1..], room[0].name)
  {
    var rest := room[1..];
    forall a, b | 0 <= a < b < |rest|
      ensures rest[a].name != rest[b].name
    {
      assert rest[a] == room[a + 1] && rest[b] == room[b + 1];
    }
    forall k | 0 <= k < |rest|
      ensures Names(rest)[k] != room[0].name
    {
      assert rest[k] == room[k + 1];
    }
  }

  /** Cutting position `i > 0` out of a list is keeping its head and cutting
      position `i - 1` out of its tail. */
  lemma CutCons<T>(s: seq<T>, i: nat)
    requires 0 < i < |s|
    ensures [s[0]] + (s[1..][..i - 1] + s[1..][i..]) == s[..i] + s[i + 1..]
  {
    assert s[1..][..i - 1] == s[1..i] && s[1..][i..] == s[i + 1..];
    assert [s[0]] + s[1..i] == s[..i];
  }

  /** In a room with unique names, deleting the name at position `i` cuts out
      exactly that entry and keeps everyone else in join order. */
  lemma {:induction false} DeleteAt(room: Room, i: nat)
    requires UniqueNames(room) && i < |room|
    ensures Delete(room, room[i].name) == room[..i] + room[i + 1..]
  {
    if i == 0 {
      DeleteAtHead(room);
    } else {
      TailUnique(room);
      assert room[0].name != room[i].name;
      DeleteAt(room[1..], i - 1);
      DeleteAtStep(room, i);
    }
  }

  /** `DeleteAt` at the head of the room. */
  lemma DeleteAtHead(room: Room)
    requires UniqueNames(room) && room != []
    ensures Delete(room, room[0].name) == room[..0] + room[1..]
  {
    TailUnique(room);
    DeleteAbsent(room[1..], room[0].name);
    assert room[..0] + room[1..] == room[1..];
  }

  /** The step of `DeleteAt` past the head of the room. */
  lemma DeleteAtStep(room: Room, i: nat)
    requires 0 < i < |room| && room[0].name != room[i].name
    requires Delete(room[1..], room[1..][i - 1].name) == room[1..][..i - 1] + room[1..][i..]
    ensures Delete(room, room[i].name) == room[..i] + room[i + 1..]
  {
    assert room[1..][i - 1] == room[i];
    CutCons(room, i);
  }

  /** Deleting one name keeps every other name. */
  lemma DeleteKeepsOthers(room: Room, name: string, other: string)
    requires other != name && HasName(room, other)
    ensures HasName(Delete(room, name), other)
  {
    var i := HasNameAt(room, other);
    var r := Delete(room, name);
    assert room[i] in r;
    var j :| 0 <= j < |r| && r[j] == room[i];
    assert Names(r)[j] == other;
  }

  /** Deleting twice is deleting once. */
  lemma DeleteTwice(room: Room, name: string)
    ensures Delete(Delete(room, name), name) == Delete(room, name)
  {
    DeleteAbsent(Delete(room, name), name);
  }
}
