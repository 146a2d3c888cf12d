/** The session state of the page (App.jsx): whether this client has joined,
    its room and name, the editor's language and code, the room's user list,
    and who is typing, with one pending expiry timer per typing user.

    Timers are not clocks here: arming one hands out an id, and its expiry is
    the separate event `FireTimer`. */
module Session {
  import opened Base
  import opened Protocol

  const InitialCode := "//start code here"

  /** The event names the page subscribes to (lines 35-73). The language
      listener is registered as `langaugeUpdate`. */
  const Listened: set<string> := {"userJoined", "codeUpdate", "userTyping", "langaugeUpdate"}

  class App {
    var joined: bool
    var roomId: string
    var userName: string
    var language: string
    var code: string
    var users: seq<string>
    var typing: seq<string>
    /** `typingTimeouts`: the last timer armed for each user. Entries are
        never removed, so an entry may name a timer that has fired. */
    var typingTimeouts: map<string, nat>
    /** The armed timers that have neither fired nor been cleared, each with
        the user it expires. */
    var pendingTimers: map<nat, string>
    var nextTimer: nat
    /** The event names with a registered listener. */
    const listening: set<string>
    /** What this client has emitted, in order. */
    var outbox: seq<ClientEvent>

    /** The typing list holds each name once; each typing user is expired by
        exactly one pending timer, its last one; timer ids are positive, so
        a stored one is truthy. */
    ghost predicate Valid()
      reads this
    {
      && NoDup(typing)
      && nextTimer >= 1
      && (forall u :: u in typing ==> u in typingTimeouts && typingTimeouts[u] in pendingTimers)
      && (forall id :: id in pendingTimers ==> 1 <= id < nextTimer)
      && (forall u :: u in typingTimeouts ==> typingTimeouts[u] < nextTimer)
      && (forall u :: u in typingTimeouts && typingTimeouts[u] in pendingTimers ==> pendingTimers[typingTimeouts[u]] == u)
      && (forall id :: id in pendingTimers ==> pendingTimers[id] in typingTimeouts && typingTimeouts[pendingTimers[id]] == id)
    }

    /** The initial state of lines 8-15, with the listeners of lines 35-73. */
    constructor ()
      ensures Valid() && listening == Listened
      ensures !joined && roomId == "" && userName == "" && language == "javascript" && code == InitialCode
      ensures users == [] && typing == [] && typingTimeouts == map[] && pendingTimers == map[] && outbox == []
    {
      joined, roomId, userName, language, code := false, "", "", "javascript", InitialCode;
      users, typing, typingTimeouts, pendingTimers, nextTimer := [], [], map[], map[], 1;
      listening := Listened;
      outbox := [];
    }

    /** `handleJoin` (lines 17-24), called by the join form, which is shown
        only before joining and whose two fields are `required`
        (Form.jsx:58,85). The page switches to the room at once, whatever
        the server answers. */
    method HandleJoin(room: string, name: string)
      requires Valid() && !joined && room != "" && name != ""
      modifies this
      ensures Valid()
      ensures outbox == old(outbox) + [Join(room, name)]
      ensures joined && roomId == room && userName == name
      ensures code == old(code) && users == old(users) && typing == old(typing) && language == old(language)
      ensures typingTimeouts == old(typingTimeouts) && pendingTimers == old(pendingTimers) && nextTimer == old(nextTimer)
    {
      outbox := outbox + [Join(room, name)];
      roomId := room;
      userName := name;
      joined := true;
    }

    /** `handleCodeChange` (lines 28-32), the editor's change callback: the
        editor is shown only after joining. The code is set locally, then
        `codeChange` and `typing` are sent, in that order. */
    method HandleCodeChange(newCode: string)
      requires Valid() && joined
      modifies this
      ensures Valid()
      ensures code == newCode
      ensures outbox == old(outbox) + [CodeChange(roomId, newCode), Typing(roomId, userName)]
      ensures joined && roomId == old(roomId) && userName == old(userName)
      ensures users == old(users) && typing == old(typing) && language == old(language)
      ensures typingTimeouts == old(typingTimeouts) && pendingTimers == old(pendingTimers) && nextTimer == old(nextTimer)
    {
      code := newCode;
      outbox := outbox + [CodeChange(roomId, newCode)];
      outbox := outbox + [Typing(roomId, userName)];
    }

    /** The `userTyping` listener (lines 44-68): the user is appended unless
        already typing, the user's previous timer is cleared, and a new one
        is armed and recorded. */
    method OnUserTyping(user: string)
      requires Valid()
      modifies this
      ensures Valid()
      ensures typing == AppendIfAbsent(old(typing), user)
      ensures typingTimeouts == old(typingTimeouts)[user := old(nextTimer)] && nextTimer == old(nextTimer) + 1
      ensures pendingTimers == (if user in old(typingTimeouts) then old(pendingTimers) - {old(typingTimeouts)[user]} else old(pendingTimers))[old(nextTimer) := user]
      ensures joined == old(joined) && code == old(code) && users == old(users) && outbox == old(outbox)
      ensures roomId == old(roomId) && userName == old(userName) && language == old(language)
    {
      Rearm(user);
      typing := AppendIfAbsent(typing, user);
    }

    /** The timer half of the `userTyping` listener (lines 53-67): the user's
        previous timer is cleared and a new one armed and recorded. Both
        halves only schedule state updates, so their order is immaterial. */
    method Rearm(user: string)
      requires Valid()
      modifies this
      ensures Valid()
      ensures user in typingTimeouts && typingTimeouts[user] == old(nextTimer) && typingTimeouts[user] in pendingTimers
      ensures pendingTimers == (if user in old(typingTimeouts) then old(pendingTimers) - {old(typingTimeouts)[user]} else old(pendingTimers))[old(nextTimer) := user]
      ensures typingTimeouts == old(typingTimeouts)[user := old(nextTimer)]
      ensures typing == old(typing) && nextTimer == old(nextTimer) + 1
      ensures joined == old(joined) && code == old(code) && users == old(users) && outbox == old(outbox)
      ensures roomId == old(roomId) && userName == old(userName) && language == old(language)
    {
      if user in typingTimeouts {
        pendingTimers := pendingTimers - {typingTimeouts[user]};
      }
      var id := nextTimer;
      nextTimer := nextTimer + 1;
      pendingTimers := pendingTimers[id := user];
      typingTimeouts := typingTimeouts[user := id];
    }

    /** A pending typing timer expires (lines 59-61): its user leaves the
        typing list and everyone else stays, in order. */
    method FireTimer(id: nat)
      requires Valid() && id in pendingTimers
      modifies this
      ensures Valid()
      ensures typing == Without(old(typing), old(pendingTimers)[id])
      ensures old(pendingTimers)[id] !in typing
      ensures pendingTimers == old(pendingTimers) - {id}
      ensures typingTimeouts == old(typingTimeouts)
      ensures joined == old(joined) && code == old(code) && users == old(users) && outbox == old(outbox)
      ensures roomId == old(roomId) && userName == old(userName) && language == old(language)
    {
      var user := pendingTimers[id];
      typing := Without(typing, user);
      pendingTimers := pendingTimers - {id};
    }

    /** A server event reaching the page (lines 35-73). Only events whose name
        has a listener act: `userJoined` replaces the user list wholesale,
        `codeUpdate` replaces the code, `userTyping` is `OnUserTyping`, and a
        language update would set the language if its name were listened to. */
    method Receive(e: ServerEvent)
      requires Valid()
      modifies this
      ensures Valid()
      ensures EventName(e) !in listening ==> users == old(users) && code == old(code) && typing == old(typing) && language == old(language)
      ensures e.UserJoined? && EventName(e) in listening ==> users == e.names
      ensures e.CodeUpdate? && EventName(e) in listening ==> code == e.code
      ensures e.UserTyping? && EventName(e) in listening ==>
        && typing == AppendIfAbsent(old(typing), e.user)
        && typingTimeouts == old(typingTimeouts)[e.user := old(nextTimer)] && nextTimer == old(nextTimer) + 1
        && pendingTimers == (if e.user in old(typingTimeouts) then old(pendingTimers) - {old(typingTimeouts)[e.user]} else old(pendingTimers))[old(nextTimer) := e.user]
      ensures e.LanguageUpdate? ==> language == (if EventName(e) in listening then e.language else old(language))
      ensures !e.UserJoined? ==> users == old(users)
      ensures !e.CodeUpdate? ==> code == old(code)
      ensures !e.LanguageUpdate? ==> language == old(language)
      ensures !(e.UserTyping? && EventName(e) in listening) ==>
        typing == old(typing) && typingTimeouts == old(typingTimeouts) && pendingTimers == old(pendingTimers) && nextTimer == old(nextTimer)
      ensures joined == old(joined) && roomId == old(roomId) && userName == old(userName) && outbox == old(outbox)
    {
      if EventName(e) !in listening {
        return;
      }
      match e {
        case UserJoined(names) => users := names;
        case CodeUpdate(c) => code := c;
        case UserTyping(u) => OnUserTyping(u);
        case LanguageUpdate(l) => language := l;
        case UsernameTaken(_) =>
        case DrawRelay(_) =>
      }
    }

    /** The `beforeunload` listener (lines 84-95): registered for the whole
        life of the page, so it sends `leaveRoom` even when not in a room. */
    method BeforeUnload()
      requires Valid()
      modifies this
      ensures Valid()
      ensures outbox == old(outbox) + [LeaveRoom]
      ensures joined == old(joined) && roomId == old(roomId) && userName == old(userName)
      ensures code == old(code) && users == old(users) && typing == old(typing) && language == old(language)
      ensures typingTimeouts == old(typingTimeouts) && pendingTimers == old(pendingTimers) && nextTimer == old(nextTimer)
    {
      outbox := outbox + [LeaveRoom];
    }
  }

  /** The server's language updates are never applied: the name it emits them
      under is not the one the page listens to (backend/index.js:65 against
      App.jsx:71). */
  lemma LanguageUpdatesUnheard(language: string)
    ensures EventName(LanguageUpdate(language)) !in Listened
  {
  }

  /** A refusal is never heard by the page: there is no `usernameTaken`
      listener anywhere in the client. */
  lemma RefusalUnheard(message: string)
    ensures EventName(UsernameTaken(message)) !in Listened
  {
  }
}
