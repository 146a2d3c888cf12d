# Collaborative code room: a Dafny model

This project models the collaborative code-room application: a socket.io
server that keeps a registry of rooms and relays editor, typing, language and
whiteboard events between the members of a room, and the browser client that
drives it (session state, voice-call bookkeeping, the assistant chat and its
code-block splitter, and the whiteboard).

The model is split into these modules:

- `Base` (base.dfy) holds the JavaScript idioms the code leans on. `Option` with
  truthiness stands for a nullable string, where `""` is falsy.
  `AppendIfAbsent` is the `includes` guard before a spread append, `Without` is
  `filter(x => x !== v)`, and `Distinct` is the `new Set(list)` order.
- `Protocol` (protocol.dfy) lists the events the client emits and the events
  the server emits, with their payloads.
- `Rooms` (rooms.dfy) models one room's `Map` from user name to socket id. It is
  a sequence of members in insertion order, with `delete` and
  `Array.from(keys())`.
- `Registry` (registry.dfy) models the server (backend/index.js).
  - The state is the `rooms` map, each socket's `currentRoom`/`currentUser`
    closure variables, the transport rooms each socket is in, the number of
    listener copies each socket has registered, and an outbox of emits, each
    with its recipients.
  - Each handler appears twice: as a ghost step function, and as a method of
    class `Server`. The method changes the fields in the handler's order and
    is proved to reach the step function's state.
- `RegistryProperties` (registry_props.dfy) proves what the handlers promise
  over the step functions. This includes the quirks of the code (listed
  below), and that along every run from start-up the user names in each room
  stay unique and no room is ever removed.
- `VoiceCall` (voice_chat.dfy) models the voice-call component's bookkeeping:
  its peer-connection and audio-sink dictionaries, the participant set, the
  local stream, mute, call status and microphone permission.
- `Session` (session.dfy) models the page state of App.jsx, with the typing
  list and its expiry timers.
- `LeaveRoomButton` (leave_room.dfy) models the leave button's reset.
- `CodeFence` (code_fence.dfy) is the pure splitter of the assistant's replies
  into prose and code blocks.
- `AssistantChat` (assistant.dfy) models the chat log of the assistant.
- `SharedWhiteboard` (whiteboard.dfy) models the drawing state machine and the
  stroke parameters.

## Modelling choices

Several modelling choices shape what the model says:

- **Environment outcomes are parameters.** The success or failure of every
  browser and network operation is passed in: microphone access, creating an
  `RTCPeerConnection`, offer/answer negotiation, applying a remote
  description or candidate, and the assistant's reply.
- **Timers are events.** A timer is modelled as an event that happens later,
  not as time.
- **Handlers run whole.** Each handler runs to completion and sees the latest
  state.
- **UI guards become preconditions.** Some handlers are reachable only
  through a control the page disables or hides otherwise: the call buttons,
  the mute and end-call buttons, the submit button while loading, the join
  form's `required` fields, the width range, and the disabled colour input.
  For these, the guard is a precondition.

The server code has these quirks, and the model reproduces them:

- **Join switches first.** `join` switches the association and the transport
  room before it checks the name. A refused joiner therefore hears the room's
  broadcasts. If the socket still has a `leaveRoom` and `disconnect`
  listener from an earlier successful join, its later `leaveRoom` or
  `disconnect` then deletes the member who holds the name it was refused. A
  socket whose joins were all refused has no such listener, and its
  `leaveRoom` and `disconnect` change nothing.
- **Room switch deletes the new name.** Switching rooms deletes the
  *requested* name from the old room, not the name the socket was known by.
- **Empty strings are absent.** An empty room id or user name is falsy:
  - it is stored like any other value;
  - leave and disconnect never delete it;
  - a later join never leaves that room.
- **Listeners register inside `join`.** The relay, `leaveRoom` and
  `disconnect` listeners are registered inside `join`, once per successful
  join, so:
  - a socket that never joined has none;
  - one that joined k times relays each event k times;
  - it broadcasts k identical lists on disconnect.
- **`disconnect` clears nothing.** `disconnect` does not clear the
  association. `leaveRoom` broadcasts before the socket leaves, so the leaver
  receives its own departure.

The client code has these quirks:

- **The language listener is misspelt.** The page listens for
  `langaugeUpdate`, but the server emits `languageUpdate`, so remote language
  changes are never applied.
- **No `usernameTaken` listener.** There is none, so the page enters a room
  whatever the server answers.
- **Six backticks render as code.** A reply made only of six backticks is not
  a fence match, yet it starts and ends with three backticks. It is therefore
  shown as an empty code block.

Four behaviours of the server are worth stating on their own:

- **A refused join still switches.** The socket ends up associated with the
  room whose name check refused it, and in its transport room
  (`JoinRefused`).
- **Rejoining one's own room evicts the holder.** Rejoining the current room
  under a name another member holds is not refused. The join first deletes
  that name from the room, because the room is the socket's previous room,
  and then admits the joiner under it (`RejoinUnderTakenNameEvictsHolder`).
- **No call handling.** The server has no handlers for the call and
  offer/answer/ICE events, so those events change nothing on it
  (`CallEventsIgnored`).
- **Disconnect repeats itself.** `disconnect` broadcasts once per registered
  listener copy (`DisconnectEffect`). `leaveRoom` acts once however many
  copies run (`LeaveNCollapses`), a second `leaveRoom` changes nothing
  (`LeaveRoomTwice`), and a `disconnect` after it deletes and broadcasts
  nothing (`DisconnectAfterLeave`).

In every state reachable from start-up, a connected socket is in the
transport room its `currentRoom` names (`ReachableAttached`). This is the
precondition under which `LeaveRoomEffect` describes `leaveRoom`. It is kept
apart from the registry invariant because `join` breaks it for a moment:
after leaving the old room and before associating with the new one.

## Model

| member | source | states |
|---|---|---|
| Base.AppendIfAbsent | frontend/src/App.jsx:46-51 | the name is in the result, which keeps the old list as a prefix, adds nothing else, and stays duplicate-free |
| Base.Without | frontend/src/App.jsx:60 | exactly the other elements remain, the list never grows, and duplicate-freedom is kept |
| Base.WithoutAppend | frontend/src/App.jsx:60 | filtering distributes over concatenation, so with the one-element cases the other elements stay in their order |
| Base.WithoutCount | frontend/src/App.jsx:60 | every other element keeps its number of occurrences, and the removed one has none left |
| Base.Distinct | frontend/src/components/VoiceChat.jsx:53 | the `Set` of a list holds each element once and exactly the list's elements |
| Base.WithoutAt | frontend/src/App.jsx:60 | filtering out an element that occurs once at index i removes exactly position i |
| Rooms.Names | backend/index.js:32 | `Array.from(keys())` lists the members' names in insertion order, one per member |
| Rooms.Delete | backend/index.js:31 | `Map.delete` removes exactly the member with that name, keeps everyone else, and keeps names unique |
| Rooms.DeleteAt | backend/index.js:87 | in a room with unique names, deleting a name present at index i removes exactly that position |
| Rooms.DeleteAbsent | backend/index.js:97 | deleting a name that is not a key leaves the room as it was |
| Rooms.DeleteKeepsOthers | backend/index.js:31 | deleting one name never removes another |
| Rooms.DeleteTwice | backend/index.js:87 | a second delete of the same name changes nothing |
| Rooms.AppendKeepsUnique | backend/index.js:46-51 | setting a name that is not yet a key keeps the names unique |
| Rooms.NamesAppend | backend/index.js:51-52 | the broadcast list after a set is the old list plus the new name |
| Registry.ConnectStep | backend/index.js:23-26 | a new socket starts with no association, no listeners, in its own transport room, and the invariant holds |
| Registry.LeavePrevious | backend/index.js:29-33 | leaving the previous room keeps the invariant and creates or removes no room |
| Registry.Associate | backend/index.js:35-42 | the association switch keeps the invariant and adds exactly the target room to the room keys |
| Registry.Admit | backend/index.js:44-56 | the name check and set keep names unique and the room keys unchanged |
| Registry.JoinStep | backend/index.js:28-54 | a join keeps the invariant and the room keys grow by exactly the target room |
| Registry.RelayStep | backend/index.js:56-83 | relays change neither rooms nor sockets, only the outbox |
| Registry.LeaveOnce | backend/index.js:85-93 | one `leaveRoom` listener keeps the invariant, the room keys and the listener count |
| Registry.LeaveN | backend/index.js:85-93 | n listener copies keep the invariant, the room keys and the listener count |
| Registry.LeaveStep | backend/index.js:85-93 | `leaveRoom` keeps the invariant and the room keys |
| Registry.DisconnectOnce | backend/index.js:95-101 | one `disconnect` listener keeps the invariant and the room keys and leaves every socket's state alone |
| Registry.DisconnectN | backend/index.js:95-101 | n listener copies keep the invariant and the room keys and leave every socket's state alone |
| Registry.DisconnectStep | backend/index.js:95-101 | a closed socket is in no room and stays known, and no room is removed |
| Registry.Step | backend/index.js:28-101 | every client event keeps the invariant and never removes a room |
| Registry.Server.constructor | backend/index.js:21 | the registry starts with no rooms, no sockets and no emits |
| Registry.Server.Connect | backend/index.js:23-26 | the fields reach `ConnectStep` of the old state |
| Registry.Server.LeavePreviousRoom | backend/index.js:29-33 | the fields reach `LeavePrevious` of the old state |
| Registry.Server.AssociateWith | backend/index.js:35-42 | the fields reach `Associate` of the old state |
| Registry.Server.AdmitTo | backend/index.js:44-56 | the fields reach `Admit` of the old state |
| Registry.Server.Join | backend/index.js:28-54 | the fields reach `JoinStep` of the old state |
| Registry.Server.Relay | backend/index.js:56-83 | running every listener copy appends exactly `listeners` copies of the emit |
| Registry.Server.LeaveRoomListener | backend/index.js:85-93 | the fields reach `LeaveOnce` of the old state |
| Registry.Server.LeaveRoom | backend/index.js:85-93 | running every listener copy reaches `LeaveStep` of the old state |
| Registry.Server.DisconnectListener | backend/index.js:95-101 | the fields reach `DisconnectOnce` of the old state |
| Registry.Server.Disconnect | backend/index.js:95-101 | closing and running every listener copy reaches `DisconnectStep` of the old state |
| Registry.Server.Receive | backend/index.js:28-101 | dispatch on the event name reaches `Step` of the old state |
| RegistryProperties.JoinRefused | backend/index.js:35-49 | a taken name leaves the target room unchanged and sends the fixed refusal to the joiner alone, yet the association and transport room switch and no listener is added |
| RegistryProperties.JoinAdmitted | backend/index.js:40-52 | a free name is appended to the (lazily created) room and the names in insertion order go to every socket in the room, joiner included; one more listener copy is registered |
| RegistryProperties.SwitchDeletesRequestedName | backend/index.js:29-33 | switching rooms deletes the requested name from the old room, keeps every other name, broadcasts to the old room without the switching socket |
| RegistryProperties.JoinRestKeepsRoom | backend/index.js:35-52 | once the previous room is left, the rest of `join` leaves that room, its audience and the emits so far alone |
| RegistryProperties.RejoinUnderTakenNameEvictsHolder | backend/index.js:29-52 | rejoining one's own room under a held name evicts the holder and admits the joiner |
| RegistryProperties.RefusedJoinerEvictsHolder | backend/index.js:35-101 | after a refused join by a socket with a listener from an earlier successful join, its `leaveRoom`, and equally its `disconnect`, deletes the member who holds the refused name |
| RegistryProperties.LeaveNCollapses | backend/index.js:85-93 | any number of `leaveRoom` listener copies act exactly like one |
| RegistryProperties.LeaveRoomEffect | backend/index.js:85-93 | `leaveRoom` deletes the current user, broadcasts once to the room including the leaver, then leaves and clears the association |
| RegistryProperties.LeaveRoomWithoutListener | backend/index.js:85 | a socket that never joined successfully has no `leaveRoom` listener |
| RegistryProperties.LeaveRoomTwice | backend/index.js:85-93 | a second `leaveRoom` changes nothing |
| RegistryProperties.DisconnectAfterLeave | backend/index.js:85-101 | `disconnect` after `leaveRoom` deletes and broadcasts nothing |
| RegistryProperties.DisconnectNSilent | backend/index.js:96 | without a truthy association, disconnect listeners change nothing |
| RegistryProperties.DisconnectNEffect | backend/index.js:95-101 | n disconnect listeners delete the user once and emit the same list n times |
| RegistryProperties.DisconnectOnceAgain | backend/index.js:96-98 | a further `disconnect` listener copy, with the user already gone, only re-emits the same names |
| RegistryProperties.DisconnectEffect | backend/index.js:95-101 | disconnect deletes the current user once, emits the names once per listener copy to the room (not the closed socket), and keeps `currentRoom`/`currentUser` |
| RegistryProperties.EmptyNameOutlivesLeave | backend/index.js:46-93 | an empty name is stored by join but survives `leaveRoom` |
| RegistryProperties.EmptyRoomIsNeverLeftByJoin | backend/index.js:29 | after joining room `""`, a join elsewhere neither leaves `""` nor deletes from it |
| RegistryProperties.RelayRules | backend/index.js:56-83 | each listener copy emits once to exactly the sockets in the payload room, less the sender except for `languageUpdate`; the sender receives only `languageUpdate`, and only if it is in that room; rooms and sockets are unchanged |
| Registry.Audience | backend/index.js:56-83 | the sockets `io.to(room)` reaches; `RelayRules` states each relay's recipients through it |
| Registry.Copies | backend/index.js:56-83 | one identical emit per registered listener copy; `RelayRules` and `DisconnectNEffect` count them |
| Registry.Routed | backend/index.js:56-83 | the emit one listener copy makes; `RelayRules` states its audience and event |
| RegistryProperties.NoListenersBeforeJoin | backend/index.js:55-101 | before a first successful join, relay, leave and disconnect events change nothing |
| RegistryProperties.CallEventsIgnored | backend/index.js:23-102 | call and signalling events change nothing on the server |
| RegistryProperties.Apply | backend/index.js:23-101 | connect, message and close keep the invariant and never remove a room |
| RegistryProperties.RunKeepsRooms | backend/index.js:21-101 | along any sequence of events the invariant holds and no room is removed |
| RegistryProperties.FromStartUp | backend/index.js:21 | from start-up, after any events, the names of every room are unique |
| RegistryProperties.JoinAttached | backend/index.js:28-54 | `join` leaves every connected socket in the transport room of its `currentRoom` |
| RegistryProperties.LeaveNAttached | backend/index.js:85-93 | `leaveRoom` listener copies keep every connected socket in the transport room of its `currentRoom` |
| RegistryProperties.ApplyAttached | backend/index.js:23-101 | connect, message and close keep every connected socket in the transport room of its `currentRoom` |
| RegistryProperties.RunAttached | backend/index.js:21-101 | along any sequence of events every connected socket stays in the transport room of its `currentRoom` |
| RegistryProperties.ReachableAttached | backend/index.js:21-101 | from start-up, every connected socket is in the transport room of its `currentRoom`, as `LeaveRoomEffect` requires |
| VoiceCall.Offers | frontend/src/components/VoiceChat.jsx:281-284 | an offer goes to exactly the listed peers whose connection is set up, each addressed from this user in this room |
| VoiceCall.ReachedSnoc | frontend/src/components/VoiceChat.jsx:281-284 | one more loop iteration adds that peer's offer last and its connection, if it is set up |
| VoiceCall.FreshLinks | frontend/src/components/VoiceChat.jsx:144-165 | exactly one connection per given peer, each carrying the local track with no remote description or candidates |
| VoiceCall.FreshLinksAdd | frontend/src/components/VoiceChat.jsx:281-284 | setting up one more peer adds exactly its fresh connection |
| VoiceCall.VoiceChat.constructor | frontend/src/components/VoiceChat.jsx:4-14 | no configuration, no participants, no connections, no stream, idle and unmuted |
| VoiceCall.VoiceChat.ConfigurationLoaded | frontend/src/components/VoiceChat.jsx:17-60 | once a configuration exists, the handlers subscribe (with both names truthy) and participants are requested; the participants, connections, sinks, stream, call status, mute flag and permission stay |
| VoiceCall.VoiceChat.Unmount | frontend/src/components/VoiceChat.jsx:62-70 | the clean-up unsubscribes and releases every connection, sink and the stream |
| VoiceCall.VoiceChat.CleanupPeer | frontend/src/components/VoiceChat.jsx:292-301 | exactly that peer's connection and sink are removed; nothing else changes |
| VoiceCall.VoiceChat.CleanupAll | frontend/src/components/VoiceChat.jsx:303-312 | both dictionaries become empty, the stream and the permission null |
| VoiceCall.VoiceChat.CreatePeerConnection | frontend/src/components/VoiceChat.jsx:73-142 | without a configuration nothing is stored and the result is null; otherwise the old entry is cleaned up first and at most one connection per peer is stored, sending audio iff a stream exists |
| VoiceCall.VoiceChat.InitiateConnectionWithPeer | frontend/src/components/VoiceChat.jsx:144-165 | an offer is sent iff the connection is set up, and then exactly that peer's entry is a fresh link; a failed setup removes that peer's connection; only that peer's sink goes; every other connection, every other sink and all call state stay |
| VoiceCall.VoiceChat.OnCurrentParticipants | frontend/src/components/VoiceChat.jsx:52-54 | the set becomes the distinct names of the received list, minus the local name, in first-occurrence order; connections, sinks, stream and call state stay |
| VoiceCall.VoiceChat.OnUserJoinedCall | frontend/src/components/VoiceChat.jsx:167-175 | the local name is ignored; any other is added once, and offered a connection only while in a call with a stream: then exactly that peer's connection is replaced or removed and its sink goes; all other connections, sinks and the call state stay |
| VoiceCall.VoiceChat.OnUserLeftCall | frontend/src/components/VoiceChat.jsx:177-184 | that peer's connection, sink and name go; other peers' entries and the call state stay |
| VoiceCall.VoiceChat.InitLocalStream | frontend/src/components/VoiceChat.jsx:235-263 | media is acquired at most once; success enables the track iff unmuted and grants, failure returns false and denies |
| VoiceCall.VoiceChat.InitiateCall | frontend/src/components/VoiceChat.jsx:265-290 | without media the status reverts to idle and nothing is sent; with it `joinCall` is sent, every participant is offered in order, the stored connections are exactly fresh ones for the reached participants, and the call is connected |
| VoiceCall.VoiceChat.ConnectAll | frontend/src/components/VoiceChat.jsx:281-284 | the loop sends `Offers` and stores exactly a fresh connection for each reached peer |
| VoiceCall.VoiceChat.ConnectNext | frontend/src/components/VoiceChat.jsx:282-283 | one iteration offers the next name and adds exactly its fresh connection when it is set up; every other connection stays |
| VoiceCall.VoiceChat.OnOffer | frontend/src/components/VoiceChat.jsx:186-210 | the microphone is acquired first when no stream is held (granted or denied); an answer is sent iff a stream is available and the connection is set up, and then the sender's entry is a fresh link with the remote description set; otherwise the sender's connection is removed; only the sender's sink goes; other peers and the call state stay |
| VoiceCall.VoiceChat.OnAnswer | frontend/src/components/VoiceChat.jsx:212-222 | an answer applies only to an open connection for the sender and changes only its remote-description flag; its failure removes that connection and sink; the call state stays |
| VoiceCall.VoiceChat.OnRemoteCandidate | frontend/src/components/VoiceChat.jsx:224-233 | a candidate applies only to an open connection for the sender; its failure removes nothing; sinks, stream and call state stay |
| VoiceCall.VoiceChat.OnLocalCandidate | frontend/src/components/VoiceChat.jsx:84-93 | a local candidate is sent to that peer; the end-of-candidates signal sends nothing; nothing else changes |
| VoiceCall.VoiceChat.OnTrack | frontend/src/components/VoiceChat.jsx:106-127 | a sink is created for the peer only when none exists; connections, stream and call state stay |
| VoiceCall.VoiceChat.OnConnectionFailed | frontend/src/components/VoiceChat.jsx:95-98 | a failed connection and its sink are cleaned up; other peers, the stream and the call state stay |
| VoiceCall.VoiceChat.ToggleMute | frontend/src/components/VoiceChat.jsx:314-322 | with a stream, mute flips and the track stays enabled iff unmuted; without one nothing changes; the permission and everything else stay |
| VoiceCall.VoiceChat.EndCall | frontend/src/components/VoiceChat.jsx:324-329 | `leaveCall` is sent, every connection and the stream released, and the status is idle out of the call |
| Session.App.constructor | frontend/src/App.jsx:8-15 | not joined, empty names, `javascript`, the initial code, empty lists |
| Session.App.HandleJoin | frontend/src/App.jsx:17-24 | `join` is sent and the page enters the room unconditionally; code, users, typing, language and every timer stay |
| Session.App.HandleCodeChange | frontend/src/App.jsx:28-32 | the code is set, then `codeChange` and `typing` are sent in that order; users, typing, language and every timer stay |
| Session.App.OnUserTyping | frontend/src/App.jsx:44-68 | the name is appended only if absent; the user's earlier timer is cleared, a new one armed and recorded as the user's only new entry, and the timer counter advances by one; the typing list stays duplicate-free |
| Session.App.Rearm | frontend/src/App.jsx:53-67 | the user's earlier timer is cleared and a fresh one, pending and recorded as the user's, is armed |
| Session.App.FireTimer | frontend/src/App.jsx:59-61 | expiry removes that user and keeps the others in order |
| Session.App.Receive | frontend/src/App.jsx:35-73 | `userJoined` replaces the users, `codeUpdate` the code, a heard `userTyping` updates the typing list and re-arms that user's timer exactly as `OnUserTyping`; a language update is never applied; every field an event does not name stays |
| Session.App.BeforeUnload | frontend/src/App.jsx:84-95 | unloading sends `leaveRoom` and changes nothing else, timers included |
| Session.LanguageUpdatesUnheard | frontend/src/App.jsx:71-73 | the server's `languageUpdate` is not among the event names the page listens to |
| Session.RefusalUnheard | frontend/src/App.jsx:35-73 | `usernameTaken` is not among the event names the page listens to |
| LeaveRoomButton.HandleLeave | frontend/src/components/LeaveRoom.jsx:5-14 | `leaveRoom` is sent, then the page leaves the room with empty names and the initial code; language, users, typing and every timer stay |
| CodeFence.RunLength | frontend/src/components/AICodeAssistant.jsx:38 | the greedy `[^`]+` run: only non-backticks, ending at a backtick or the end |
| CodeFence.RunLengthIs | frontend/src/components/AICodeAssistant.jsx:38 | any maximal non-backtick run is the one `RunLength` finds |
| CodeFence.MatchAt | frontend/src/components/AICodeAssistant.jsx:38 | a match at a position spans at least seven characters within the text |
| CodeFence.MatchAtShaped | frontend/src/components/AICodeAssistant.jsx:38 | the pattern matches from q to e iff the text there is three backticks, one or more non-backticks, three backticks |
| CodeFence.SplitFrom | frontend/src/components/AICodeAssistant.jsx:38 | the pieces alternate text without a match and complete fences, starting and ending with text |
| CodeFence.ConcatSplitFrom | frontend/src/components/AICodeAssistant.jsx:38 | joining the pieces from p reproduces the rest of the text |
| CodeFence.Split | frontend/src/components/AICodeAssistant.jsx:38 | concatenating the pieces reproduces the content; odd pieces are fences, even pieces contain none; no match of the whole content starts inside a text piece, so each fence is the leftmost match |
| CodeFence.SplitFromLeftmost | frontend/src/components/AICodeAssistant.jsx:38 | the left-to-right scan never passes over a position where the pattern matches |
| CodeFence.SplitUnique | frontend/src/components/AICodeAssistant.jsx:38 | any cut of the content into alternating text and fences at leftmost matches is the split |
| CodeFence.SplitFromUnique | frontend/src/components/AICodeAssistant.jsx:38 | from position p, pieces that rebuild the rest of the text, alternate and are cut at leftmost matches are the scan's pieces |
| CodeFence.SliceInner | frontend/src/components/AICodeAssistant.jsx:43 | put back between the part's first and last three characters the result rebuilds the part; a part shorter than six gives empty text; a fence gives non-empty text without backticks |
| CodeFence.IsCodePart | frontend/src/components/AICodeAssistant.jsx:41 | the `startsWith`/`endsWith` test; `FenceIsCodePart` shows every fence passes it and `Format` uses it to choose code |
| CodeFence.ExtractCode | frontend/src/components/AICodeAssistant.jsx:43 | the slice and tag removal for a code part; `StripTagDropsTag` and `FormatTaggedBlock` state what it leaves |
| CodeFence.Render | frontend/src/components/AICodeAssistant.jsx:40-79 | one piece shown as code or as a paragraph; `Format` states the choice per piece |
| CodeFence.LetterRun | frontend/src/components/AICodeAssistant.jsx:43 | the greedy `[a-z]+` run under the `i` flag |
| CodeFence.StripTag | frontend/src/components/AICodeAssistant.jsx:43 | the result is a suffix; what is removed is one or more letters and a newline |
| CodeFence.StripTagDropsTag | frontend/src/components/AICodeAssistant.jsx:43 | a letter tag and a newline are removed, leaving the body |
| CodeFence.StripTagKeepsUntagged | frontend/src/components/AICodeAssistant.jsx:43 | text not starting with a letter is kept whole |
| CodeFence.Format | frontend/src/components/AICodeAssistant.jsx:36-81 | one fragment per piece; a piece is code iff it starts and ends with three backticks, so every fence is code; plain pieces are shown as they are |
| CodeFence.FenceIsCodePart | frontend/src/components/AICodeAssistant.jsx:38-41 | every fence starts and ends with three backticks |
| CodeFence.SplitFromUnmatched | frontend/src/components/AICodeAssistant.jsx:38 | text with no match is a single piece |
| CodeFence.SplitOfFence | frontend/src/components/AICodeAssistant.jsx:38 | a reply that is one fence splits into empty text, the fence, empty text |
| CodeFence.FormatOfFence | frontend/src/components/AICodeAssistant.jsx:36-81 | a reply that is one fence is shown as empty text, its extracted code, empty text |
| CodeFence.TaggedBlockIsFence | frontend/src/components/AICodeAssistant.jsx:38-43 | a tagged block without backticks is a fence whose inside is the tag line and the body |
| CodeFence.FormatTaggedBlock | frontend/src/components/AICodeAssistant.jsx:36-81 | a tagged block is shown as exactly its body in a code block between two empty paragraphs |
| CodeFence.SixBackticksShownAsCode | frontend/src/components/AICodeAssistant.jsx:38-43 | six backticks are no match, yet are shown as an empty code block |
| AssistantChat.TrimStart | frontend/src/components/AICodeAssistant.jsx:85 | the result is a suffix, everything dropped is white space, and the result does not start with white space |
| AssistantChat.TrimEnd | frontend/src/components/AICodeAssistant.jsx:85 | the result is a prefix, everything dropped is white space, and the result does not end with white space |
| AssistantChat.Trim | frontend/src/components/AICodeAssistant.jsx:85 | the result is no longer than the input and neither starts nor ends with white space; `TrimEmptyIffBlank` states when it is empty |
| AssistantChat.TrimEmptyIffBlank | frontend/src/components/AICodeAssistant.jsx:85 | `trim` gives the empty string exactly for input made only of white space, the empty input included |
| AssistantChat.Chat.constructor | frontend/src/components/AICodeAssistant.jsx:5-7 | an empty log, empty input, not loading |
| AssistantChat.Chat.Type | frontend/src/components/AICodeAssistant.jsx:166-172 | typing sets only the input |
| AssistantChat.Chat.Submit | frontend/src/components/AICodeAssistant.jsx:83-91 | input whose trim is empty appends nothing; otherwise the user's message is appended untrimmed, the input cleared and loading starts |
| AssistantChat.Chat.Respond | frontend/src/components/AICodeAssistant.jsx:93-120 | exactly one assistant message is appended, the reply or else the fixed error text, and loading ends; the input typed meanwhile is kept |
| AssistantChat.ReplyMessage | frontend/src/components/AICodeAssistant.jsx:106-117 | the assistant's message: the reply text, or the fixed error text on failure; `Respond` appends it |
| SharedWhiteboard.RemoteMatchesLocal | frontend/src/components/Whiteboard.jsx:22-79 | a receiver paints a segment in the style the sender painted it, given the same style beforehand |
| SharedWhiteboard.AssignWidth | frontend/src/components/Whiteboard.jsx:28 | a non-positive width is ignored, so a positive context width stays positive; nothing but the width changes |
| SharedWhiteboard.LocalStyle | frontend/src/components/Whiteboard.jsx:56-63 | the drawing client's style; `RemoteMatchesLocal` and `StyleIgnoresHistory` state its properties |
| SharedWhiteboard.RemoteStyle | frontend/src/components/Whiteboard.jsx:22-29 | a receiver's style; `RemoteMatchesLocal` and `StyleIgnoresHistory` state its properties |
| SharedWhiteboard.Payload | frontend/src/components/Whiteboard.jsx:70-79 | the emitted stroke; `Whiteboard.Draw` sends it and `RemoteMatchesLocal` shows it reproduces the sender's style |
| SharedWhiteboard.StrokeColor | frontend/src/components/Whiteboard.jsx:76 | red for the pen, else the chosen colour; used by `Payload` and `LocalStyle` |
| SharedWhiteboard.StrokeWidth | frontend/src/components/Whiteboard.jsx:77 | 20 for the eraser, else the chosen width; used by `Payload` |
| SharedWhiteboard.StyleIgnoresHistory | frontend/src/components/Whiteboard.jsx:22-63 | on the one context local and remote segments share, a drawing segment with a positive width does not depend on what was painted before it, and an erasing segment always erases at width 20, so an eraser segment never leaves the next one erasing; a received segment with a width that is not positive keeps the previous width |
| SharedWhiteboard.Whiteboard.constructor | frontend/src/components/Whiteboard.jsx:6-17 | black, width 2, pencil, not drawing, at the origin |
| SharedWhiteboard.Whiteboard.StartDrawing | frontend/src/components/Whiteboard.jsx:42-47 | drawing starts at the cursor with a new drag |
| SharedWhiteboard.ChainedSnoc | frontend/src/components/Whiteboard.jsx:65-82 | a segment starting where the drag ends keeps the drag chained |
| SharedWhiteboard.Whiteboard.Draw | frontend/src/components/Whiteboard.jsx:49-83 | nothing happens unless drawing; otherwise the segment from the stored point to the cursor is painted and sent, the cursor is stored, and the drag's segments chain |
| SharedWhiteboard.Whiteboard.StopDrawing | frontend/src/components/Whiteboard.jsx:85-87 | drawing stops; nothing is painted or sent, and the tool, colour, width, style, stored point and drag stay |
| SharedWhiteboard.Whiteboard.SetTool | frontend/src/components/Whiteboard.jsx:90-107 | the tool changes and nothing else |
| SharedWhiteboard.Whiteboard.SetColor | frontend/src/components/Whiteboard.jsx:109-115 | the colour changes and nothing else |
| SharedWhiteboard.Whiteboard.SetLineWidth | frontend/src/components/Whiteboard.jsx:116-122 | the width changes, stays within 1 to 20, and nothing else changes |
| SharedWhiteboard.Whiteboard.OnRemoteDraw | frontend/src/components/Whiteboard.jsx:19-35 | a remote segment is painted in its carried style, a non-positive width leaving the previous one; the local drag, tool, colour, width, stored point and outbox are untouched |

## Left out

- Express setup, static file serving, the catch-all route and `server.listen` (backend/index.js:1-18,105-116) are bootstrapping and I/O.
- The socket.io transport is reduced to sets of recipients per emit; frontend/src/utils/socket.js is not part of this model. Delivery order between sockets and network loss are not modelled.
- Sockets are identified by id. Reconnection and socket-id reuse are not modelled, since a connect never reuses an id.
- The TURN-credential fetch (VoiceChat.jsx:17-44) is reduced to the moment a configuration exists; the ICE servers and their content are not modelled.
- The media and WebRTC objects themselves are not modelled: `RTCPeerConnection`, `getUserMedia`, SDP and ICE content, `Audio.play` and its click-to-play fallback. Their success or failure is a parameter.
- VoiceCall.VoiceChat.OnConnectionFailed: the one-second reconnect attempt after a failure (VoiceChat.jsx:100-102), with its stale `isInCall`, is not modelled, because timers are not part of the model.
- The voice-call handlers run to completion. The interleavings possible at their `await` points, and React's batching and stale closures of state, are not modelled.
- Connection identity is reduced to presence in the dictionary: a closed connection left in the dictionary is treated as removed.
- Session.App.OnUserTyping: the listener reads `typingTimeouts` from the closure of its last registration. The model reads the latest map.
- The clean-up of the page's listeners removes `languageChange` rather than `langaugeUpdate` (App.jsx:80). Repeated registrations of the misspelt listener therefore pile up, but none of them ever fires.
- The language-dependent editor loading and the editor itself (App.jsx:97-176) are presentation.
- The copy button and its timers, the assistant's model request, scrolling and the clipboard (AICodeAssistant.jsx:12-33,95-103) are I/O.
- Characters are Unicode scalar values rather than UTF-16 code units.
- CodeFence.Split does not model the `limit` argument of `split`, which the code never passes. It also leaves out the empty-match branch of the splitting algorithm, which cannot occur because every match is at least seven characters long.
- Canvas rendering is reduced to the style and the list of painted segments. Pixels, `beginPath`/`stroke` and the canvas size are not modelled.
- SharedWhiteboard.RemoteStyle: a received colour is assumed to parse as a CSS colour. The browser keeps the previous `strokeStyle` for one that does not, which the model does not capture, because CSS colour parsing is not modelled.
- SharedWhiteboard.RemoteStyle: widths are integers. A fractional, infinite or NaN width from another client is not represented; an ignored width is modelled only for zero and negative values.
- Payload fields the sender leaves undefined are not modelled; every event carries all its fields.
- frontend/src/components/VideoCall.jsx is not part of this model. It emits events the server never handles.
- Form.jsx, Sidebar.jsx, UserList.jsx, RoomInfo.jsx and LanguageSelector.jsx are presentation. Only the `required` fields of the join form are used, as the precondition of `HandleJoin`.
- Server-side call participation and signalling relay are not modelled, because the server has no such handlers.
