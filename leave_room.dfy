/** The "Leave Room" button (LeaveRoom.jsx), which the sidebar shows only
    inside a room. */
module LeaveRoomButton {
  import opened Protocol
  import opened Session

  /** `handleLeave` (lines 7-14): `leaveRoom` is sent first, then the page
      goes back to the join form with empty room and name fields and the
      initial code. The language, the user list and the typing list are
      kept: `setLanguage` is passed in but never called. */
  method HandleLeave(app: App)
    requires app.Valid() && app.joined
    modifies app
    ensures app.Valid()
    ensures app.outbox == old(app.outbox) + [LeaveRoom]
    ensures !app.joined && app.userName == "" && app.roomId == ""
    ensures app.code == InitialCode
    ensures app.language == old(app.language)
    ensures app.users == old(app.users) && app.typing == old(app.typing)
    ensures app.typingTimeouts == old(app.typingTimeouts) && app.pendingTimers == old(app.pendingTimers) && app.nextTimer == old(app.nextTimer)
  {
    app.outbox := app.outbox + [LeaveRoom];
    app.joined := false;
    app.userName := "";
    app.roomId := "";
    app.code := InitialCode;
  }
}
