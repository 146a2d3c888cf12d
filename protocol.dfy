/** The socket events exchanged between the browser client and the server,
    one constructor per event name, with the payload fields the code reads. */
module Protocol {

  /** A whiteboard segment as the `draw` event carries it. */
  datatype Stroke = Stroke(x1: int, y1: int, x2: int, y2: int, color: string, width: int, isEraser: bool)

  /** Events a client emits. The last six are emitted by the voice chat; the
      server registers no listener for any of them. */
  datatype ClientEvent =
    | Join(roomId: string, userName: string)
    | CodeChange(roomId: string, code: string)
    | Typing(roomId: string, userName: string)
    | LanguageChange(roomId: string, language: string)
    | Draw(roomId: string, stroke: Stroke)
    | LeaveRoom
    | JoinCall(roomId: string, userName: string)
    | LeaveCall(roomId: string, userName: string)
    | RequestParticipants(roomId: string)
    | WebrtcOffer(roomId: string, sender: string, receiver: string)
    | WebrtcAnswer(roomId: string, sender: string, receiver: string)
    | WebrtcIceCandidate(roomId: string, sender: string, receiver: string)

  /** Events the server emits. */
  datatype ServerEvent =
    | UserJoined(names: seq<string>)
    | UsernameTaken(message: string)
    | CodeUpdate(code: string)
    | UserTyping(user: string)
    | LanguageUpdate(language: string)
    | DrawRelay(stroke: Stroke)

  /** The event name each server event is emitted under. */
  function EventName(e: ServerEvent): string {
    match e
    case UserJoined(_) => "userJoined"
    case UsernameTaken(_) => "usernameTaken"
    case CodeUpdate(_) => "codeUpdate"
    case UserTyping(_) => "userTyping"
    case LanguageUpdate(_) => "languageUpdate"
    case DrawRelay(_) => "draw"
  }
}
