/** The bookkeeping of the voice-call component (VoiceChat.jsx): who is in
    the call, one peer connection and at most one remote audio sink per peer,
    the local microphone stream, and the call and permission status.

    Browser media and WebRTC are not modelled: each call into them is a
    parameter saying whether it succeeded. A connection is closed exactly
    when it is removed from its map, so every stored connection is open;
    the SDP and ICE payloads are opaque and not represented. */
module VoiceCall {
  import opened Base
  import opened Protocol

  datatype CallStatus = Idle | Connecting | Connected

  datatype MicPermission = Requesting | Granted | Denied

  /** The local microphone stream; `enabled` is its audio track's flag. */
  datatype Stream = Stream(enabled: bool)

  /** A stored `RTCPeerConnection`: `sendsAudio` when the local track was
      added at creation, `remoteSet` once a remote description has been
      applied, `candidates` the remote ICE candidates added to it. */
  datatype Link = Link(sendsAudio: bool, remoteSet: bool, candidates: nat)

  /** An `Audio` element playing a peer's remote stream. */
  datatype Sink = Sink

  /** What the browser does when a connection with a peer is set up:
      `created` when `new RTCPeerConnection` succeeds, `negotiated` when
      the offer or answer steps that follow succeed. */
  datatype LinkOutcome = LinkOutcome(created: bool, negotiated: bool)

  predicate Succeeds(o: LinkOutcome) {
    o.created && o.negotiated
  }

  /** The offers `initiateCall` sends, one per participant in order whose
      connection is set up. */
  function Offers(roomId: string, userName: string, ps: seq<string>, outcome: string -> LinkOutcome): (r: seq<ClientEvent>)
    ensures |r| <= |ps|
    ensures forall p :: p in ps && Succeeds(outcome(p)) ==> WebrtcOffer(roomId, userName, p) in r
    ensures forall e :: e in r ==> e.WebrtcOffer? && e == WebrtcOffer(roomId, userName, e.receiver) && e.receiver in ps && Succeeds(outcome(e.receiver))
  {
    if ps == [] then []
    else
      var last := ps[|ps| - 1];
      Offers(roomId, userName, ps[..|ps| - 1], outcome) + (if Succeeds(outcome(last)) then [WebrtcOffer(roomId, userName, last)] else [])
  }

  /** The peers of `ps` whose connection is set up. */
  function Reached(ps: seq<string>, outcome: string -> LinkOutcome): set<string> {
    set p | p in ps && Succeeds(outcome(p))
  }

  /** One more name: its offer goes last and its connection is added. */
  lemma ReachedSnoc(roomId: string, userName: string, ps: seq<string>, i: nat, outcome: string -> LinkOutcome)
    requires NoDup(ps) && i < |ps|
    ensures ps[i] !in Reached(ps[..i], outcome)
    ensures Reached(ps[..i + 1], outcome) == Reached(ps[..i], outcome) + (if Succeeds(outcome(ps[i])) then {ps[i]} else {})
    ensures Offers(roomId, userName, ps[..i + 1], outcome) == Offers(roomId, userName, ps[..i], outcome) + (if Succeeds(outcome(ps[i])) then [WebrtcOffer(roomId, userName, ps[i])] else [])
  {
    assert ps[..i + 1][..i] == ps[..i];
    assert ps[..i + 1] == ps[..i] + [ps[i]];
  }

  /** The connections `initiateCall` has set up: one per reached peer, each
      carrying the local track, with no remote description and no remote
      candidates yet. */
  function FreshLinks(peers: set<string>): (r: map<string, Link>)
    ensures r.Keys == peers
  {
    map p | p in peers :: Link(true, false, 0)
  }

  /** Setting up one more peer adds exactly its fresh connection. */
  lemma FreshLinksAdd(peers: set<string>, p: string)
    ensures FreshLinks(peers + {p}) == FreshLinks(peers)[p := Link(true, false, 0)]
  {
  }

  class VoiceChat {
    const roomId: string
    const userName: string
    var rtcConfigured: bool
    var subscribed: bool
    var isInCall: bool
    var isMuted: bool
    var callStatus: CallStatus
    var micPermission: Option<MicPermission>
    /** The `participants` set, in insertion order. */
    var participants: seq<string>
    var localStream: Option<Stream>
    /** `peerConnectionsRef.current` */
    var links: map<string, Link>
    /** `audioElements.current` */
    var sinks: map<string, Sink>
    /** What this client has emitted, in order. */
    var outbox: seq<ClientEvent>

    /** The participant set holds each name once and never the local user;
        the call flag and the status agree; the local track is enabled
        exactly when not muted; no audio sink outlives its peer's
        connection. */
    ghost predicate Valid()
      reads this
    {
      && NoDup(participants) && userName !in participants
      && (subscribed ==> rtcConfigured)
      && (isInCall <==> callStatus == Connected)
      && (localStream.Some? ==> localStream.value.enabled == !isMuted)
      && sinks.Keys <= links.Keys
    }

    constructor (roomId: string, userName: string)
      ensures Valid() && this.roomId == roomId && this.userName == userName
      ensures !rtcConfigured && !subscribed && !isInCall && !isMuted && callStatus == Idle
      ensures micPermission == None && participants == [] && localStream == None
      ensures links == map[] && sinks == map[] && outbox == []
    {
      this.roomId := roomId;
      this.userName := userName;
      rtcConfigured, subscribed, isInCall, isMuted, callStatus := false, false, false, false, Idle;
      micPermission, participants, localStream := None, [], None;
      links, sinks, outbox := map[], map[], [];
    }

    /** The TURN-credential fetch settles (lines 17-44, either branch sets a
        configuration), and the subscription effect runs (lines 46-60): when
        room and user name are non-empty it asks for the participants and
        starts listening. */
    method ConfigurationLoaded()
      requires Valid() && !rtcConfigured
      modifies this
      ensures Valid() && rtcConfigured
      ensures subscribed <==> roomId != "" && userName != ""
      ensures outbox == old(outbox) + (if subscribed then [RequestParticipants(roomId)] else [])
      ensures participants == old(participants) && links == old(links) && sinks == old(sinks)
      ensures isInCall == old(isInCall) && localStream == old(localStream)
      ensures callStatus == old(callStatus) && isMuted == old(isMuted) && micPermission == old(micPermission)
    {
      rtcConfigured := true;
      if roomId != "" && userName != "" {
        outbox := outbox + [RequestParticipants(roomId)];
        subscribed := true;
      }
    }

    /** The effect's clean-up (lines 62-70): stop listening and release every
        connection and the microphone. */
    method Unmount()
      requires Valid()
      modifies this
      ensures Valid() && !subscribed
      ensures old(subscribed) ==> links == map[] && sinks == map[] && localStream == None && micPermission == None
      ensures !old(subscribed) ==> links == old(links) && sinks == old(sinks) && localStream == old(localStream) && micPermission == old(micPermission)
      ensures outbox == old(outbox) && participants == old(participants) && rtcConfigured == old(rtcConfigured)
      ensures isInCall == old(isInCall) && callStatus == old(callStatus) && isMuted == old(isMuted)
    {
      if subscribed {
        subscribed := false;
        CleanupAll();
      }
    }

    /** `cleanupPeerConnection` (lines 292-301): close and forget the peer's
        connection and its audio sink; every other peer keeps its own. */
    method CleanupPeer(peer: string)
      requires Valid()
      modifies this
      ensures Valid()
      ensures links == old(links) - {peer} && sinks == old(sinks) - {peer}
      ensures participants == old(participants) && localStream == old(localStream) && outbox == old(outbox)
      ensures isInCall == old(isInCall) && callStatus == old(callStatus) && micPermission == old(micPermission)
      ensures isMuted == old(isMuted) && subscribed == old(subscribed) && rtcConfigured == old(rtcConfigured)
    {
      if peer in links {
        links := links - {peer};
      }
      if peer in sinks {
        sinks := sinks - {peer};
      }
    }

    /** `cleanupAllConnections` (lines 303-312): close every connection,
        stop and drop the local stream, empty both maps and forget the
        permission status. */
    method CleanupAll()
      requires Valid()
      modifies this
      ensures Valid()
      ensures links == map[] && sinks == map[] && localStream == None && micPermission == None
      ensures participants == old(participants) && outbox == old(outbox)
      ensures isInCall == old(isInCall) && callStatus == old(callStatus) && isMuted == old(isMuted)
      ensures subscribed == old(subscribed) && rtcConfigured == old(rtcConfigured)
    {
      while links != map[]
        invariant Valid()
        invariant links.Keys <= old(links).Keys
        invariant forall p :: p in links ==> links[p] == old(links)[p]
        invariant participants == old(participants) && outbox == old(outbox) && localStream == old(localStream)
        invariant isInCall == old(isInCall) && callStatus == old(callStatus) && isMuted == old(isMuted)
        invariant subscribed == old(subscribed) && rtcConfigured == old(rtcConfigured)
        decreases |links.Keys|
      {
        var p :| p in links;
        CleanupPeer(p);
      }
      localStream := None;
      sinks := map[];
      micPermission := None;
    }

    /** `createPeerConnection` (lines 73-142). Without a configuration it
        stores nothing. Otherwise any connection already held for the peer
        is cleaned up first, so there is at most one per peer; a new one
        carries the local track when a stream exists. */
    method CreatePeerConnection(peer: string, created: bool) returns (ok: bool)
      requires Valid()
      modifies this
      ensures Valid()
      ensures ok <==> rtcConfigured && created
      ensures !rtcConfigured ==> links == old(links) && sinks == old(sinks)
      ensures rtcConfigured ==> sinks == old(sinks) - {peer}
      ensures rtcConfigured && !ok ==> links == old(links) - {peer}
      ensures ok ==> links == old(links)[peer := Link(localStream.Some?, false, 0)]
      ensures participants == old(participants) && localStream == old(localStream) && outbox == old(outbox)
      ensures isInCall == old(isInCall) && callStatus == old(callStatus) && micPermission == old(micPermission)
      ensures isMuted == old(isMuted) && subscribed == old(subscribed)
      ensures rtcConfigured == old(rtcConfigured)
    {
      if !rtcConfigured {
        return false;
      }
      if peer in links {
        CleanupPeer(peer);
      }
      if !created {
        return false;
      }
      links := links[peer := Link(localStream.Some?, false, 0)];
      return true;
    }

    /** `initiateConnectionWithPeer` (lines 144-165): create a connection and
        send an offer; if the offer steps fail, the new connection is
        cleaned up. */
    method InitiateConnectionWithPeer(peer: string, outcome: LinkOutcome)
      requires Valid()
      modifies this
      ensures Valid()
      ensures var ok := rtcConfigured && Succeeds(outcome);
        && outbox == old(outbox) + (if ok then [WebrtcOffer(roomId, userName, peer)] else [])
        && (rtcConfigured ==> (peer in links <==> ok))
      ensures !rtcConfigured ==> links == old(links) && sinks == old(sinks)
      ensures rtcConfigured && Succeeds(outcome) ==> links == old(links)[peer := Link(localStream.Some?, false, 0)]
      ensures rtcConfigured && !Succeeds(outcome) ==> links == old(links) - {peer}
      ensures rtcConfigured ==> sinks == old(sinks) - {peer}
      ensures participants == old(participants) && localStream == old(localStream)
      ensures isInCall == old(isInCall) && callStatus == old(callStatus) && micPermission == old(micPermission)
      ensures isMuted == old(isMuted) && subscribed == old(subscribed)
      ensures rtcConfigured == old(rtcConfigured)
    {
      var ok := CreatePeerConnection(peer, outcome.created);
      if ok {
        if outcome.negotiated {
          outbox := outbox + [WebrtcOffer(roomId, userName, peer)];
        } else {
          CleanupPeer(peer);
        }
      }
    }

    /** The `currentParticipants` listener (lines 52-54): the set becomes the
        received list without the local user. */
    method OnCurrentParticipants(list: seq<string>)
      requires Valid() && subscribed
      modifies this
      ensures Valid()
      ensures participants == Distinct(Without(list, userName))
      ensures forall p :: p in participants <==> p in list && p != userName
      ensures NoDup(list) ==> participants == Without(list, userName)
      ensures links == old(links) && sinks == old(sinks) && outbox == old(outbox) && localStream == old(localStream)
      ensures isInCall == old(isInCall) && callStatus == old(callStatus) && isMuted == old(isMuted) && micPermission == old(micPermission)
      ensures subscribed == old(subscribed) && rtcConfigured == old(rtcConfigured)
    {
      participants := Distinct(Without(list, userName));
      if NoDup(list) {
        DistinctOfNoDup(Without(list, userName));
      }
    }

    /** `handleUserJoined` (lines 167-175): a message naming the local user
        is ignored; another name is added to the set, and while in a call
        with a microphone, a connection is offered to it. */
    method OnUserJoinedCall(joined: string, outcome: LinkOutcome)
      requires Valid() && subscribed
      modifies this
      ensures Valid()
      ensures joined == userName ==> participants == old(participants) && links == old(links) && outbox == old(outbox)
      ensures joined != userName ==> participants == AppendIfAbsent(old(participants), joined)
      ensures var offered := joined != userName && isInCall && localStream.Some? && rtcConfigured && Succeeds(outcome);
        outbox == old(outbox) + (if offered then [WebrtcOffer(roomId, userName, joined)] else [])
      ensures var attempted := joined != userName && isInCall && localStream.Some? && rtcConfigured;
        && (!attempted ==> links == old(links) && sinks == old(sinks))
        && (attempted ==> sinks == old(sinks) - {joined})
        && (attempted && Succeeds(outcome) ==> links == old(links)[joined := Link(true, false, 0)])
        && (attempted && !Succeeds(outcome) ==> links == old(links) - {joined})
      ensures isInCall == old(isInCall) && localStream == old(localStream)
      ensures callStatus == old(callStatus) && isMuted == old(isMuted) && micPermission == old(micPermission)
      ensures subscribed == old(subscribed) && rtcConfigured == old(rtcConfigured)
    {
      if joined == userName {
        return;
      }
      participants := AppendIfAbsent(participants, joined);
      if isInCall && localStream.Some? {
        InitiateConnectionWithPeer(joined, outcome);
      }
    }

    /** `handleUserLeft` (lines 177-184): the peer's connection and sink go,
        and so does its name; every other peer is untouched. */
    method OnUserLeftCall(left: string)
      requires Valid() && subscribed
      modifies this
      ensures Valid()
      ensures left !in links && left !in sinks && left !in participants
      ensures links == old(links) - {left} && sinks == old(sinks) - {left}
      ensures participants == Without(old(participants), left)
      ensures outbox == old(outbox) && localStream == old(localStream) && isInCall == old(isInCall)
      ensures callStatus == old(callStatus) && isMuted == old(isMuted) && micPermission == old(micPermission)
      ensures subscribed == old(subscribed) && rtcConfigured == old(rtcConfigured)
    {
      CleanupPeer(left);
      participants := Without(participants, left);
    }

    /** `initLocalStream` (lines 235-263): the microphone is requested only
        when no stream is held; the track starts enabled unless muted. */
    method InitLocalStream(mediaOk: bool) returns (ok: bool)
      requires Valid()
      modifies this
      ensures Valid()
      ensures old(localStream).Some? ==> ok && localStream == old(localStream) && micPermission == old(micPermission)
      ensures old(localStream).None? ==> (ok <==> mediaOk)
      ensures old(localStream).None? && mediaOk ==> localStream == Some(Stream(!isMuted)) && micPermission == Some(Granted)
      ensures old(localStream).None? && !mediaOk ==> localStream == None && micPermission == Some(Denied)
      ensures links == old(links) && sinks == old(sinks) && participants == old(participants) && outbox == old(outbox)
      ensures isInCall == old(isInCall) && callStatus == old(callStatus) && isMuted == old(isMuted)
      ensures subscribed == old(subscribed)
      ensures rtcConfigured == old(rtcConfigured)
    {
      if localStream.Some? {
        return true;
      }
      micPermission := Some(Requesting);
      if !mediaOk {
        micPermission := Some(Denied);
        return false;
      }
      localStream := Some(Stream(!isMuted));
      micPermission := Some(Granted);
      return true;
    }

    /** `initiateCall` (lines 265-290), reachable only through the call
        button, which is shown outside a call and disabled while connecting,
        after a refused microphone and before a configuration (lines 334-337).
        Everything held is released first; without a microphone the status
        goes back to idle and nothing is sent; otherwise `joinCall` is sent
        and a connection is offered to each participant in turn. */
    method InitiateCall(mediaOk: bool, outcome: string -> LinkOutcome)
      requires Valid() && rtcConfigured
      requires !isInCall && callStatus != Connecting && micPermission != Some(Denied)
      modifies this
      ensures Valid()
      ensures !mediaOk ==> && !isInCall && callStatus == Idle && outbox == old(outbox)
                           && links == map[] && localStream == None && micPermission == Some(Denied)
      ensures mediaOk ==> && isInCall && callStatus == Connected && micPermission == Some(Granted)
                          && localStream == Some(Stream(!isMuted))
                          && outbox == old(outbox) + [JoinCall(roomId, userName)] + Offers(roomId, userName, participants, outcome)
                          && links == FreshLinks(Reached(participants, outcome))
      ensures sinks == map[] && participants == old(participants) && isMuted == old(isMuted)
      ensures subscribed == old(subscribed) && rtcConfigured == old(rtcConfigured)
    {
      callStatus := Connecting;
      CleanupAll();
      var ok := InitLocalStream(mediaOk);
      if !ok {
        callStatus := Idle;
        return;
      }
      outbox := outbox + [JoinCall(roomId, userName)];
      isInCall := true;
      callStatus := Connected;
      ConnectAll(participants, outcome);
    }

    /** The loop of `initiateCall` (lines 281-284): a connection is offered
        to each name in turn, starting from no connections at all. */
    method ConnectAll(ps: seq<string>, outcome: string -> LinkOutcome)
      requires Valid() && rtcConfigured && NoDup(ps) && links == map[] && sinks == map[] && localStream.Some?
      modifies this
      ensures Valid()
      ensures outbox == old(outbox) + Offers(roomId, userName, ps, outcome)
      ensures links == FreshLinks(Reached(ps, outcome))
      ensures sinks == map[]
      ensures participants == old(participants) && localStream == old(localStream) && isMuted == old(isMuted)
      ensures isInCall == old(isInCall) && callStatus == old(callStatus) && micPermission == old(micPermission)
      ensures subscribed == old(subscribed) && rtcConfigured == old(rtcConfigured)
    {
      assert Reached(ps[..0], outcome) == {};
      assert FreshLinks({}) == map[];
      assert Offers(roomId, userName, ps[..0], outcome) == [];
      for i := 0 to |ps|
        invariant Valid() && rtcConfigured
        invariant outbox == old(outbox) + Offers(roomId, userName, ps[..i], outcome)
        invariant links == FreshLinks(Reached(ps[..i], outcome))
        invariant sinks == map[]
        invariant participants == old(participants) && localStream == old(localStream) && isMuted == old(isMuted)
        invariant isInCall == old(isInCall) && callStatus == old(callStatus) && micPermission == old(micPermission)
        invariant subscribed == old(subscribed)
      {
        ghost var sent := outbox;
        ConnectNext(ps, i, outcome);
        assert outbox == old(outbox) + Offers(roomId, userName, ps[..i], outcome) + (outbox[|sent|..]);
      }
      assert ps[..|ps|] == ps;
    }

    /** One iteration of that loop: the next name is offered a connection. */
    method ConnectNext(ps: seq<string>, i: nat, outcome: string -> LinkOutcome)
      requires Valid() && rtcConfigured && NoDup(ps) && i < |ps| && sinks == map[] && localStream.Some?
      requires links == FreshLinks(Reached(ps[..i], outcome))
      modifies this
      ensures Valid() && rtcConfigured
      ensures outbox == old(outbox) + (if Succeeds(outcome(ps[i])) then [WebrtcOffer(roomId, userName, ps[i])] else [])
      ensures Offers(roomId, userName, ps[..i + 1], outcome) == Offers(roomId, userName, ps[..i], outcome) + (if Succeeds(outcome(ps[i])) then [WebrtcOffer(roomId, userName, ps[i])] else [])
      ensures links == FreshLinks(Reached(ps[..i + 1], outcome))
      ensures links == (if Succeeds(outcome(ps[i])) then old(links)[ps[i] := Link(true, false, 0)] else old(links))
      ensures sinks == map[]
      ensures participants == old(participants) && localStream == old(localStream) && isMuted == old(isMuted)
      ensures isInCall == old(isInCall) && callStatus == old(callStatus) && micPermission == old(micPermission)
      ensures subscribed == old(subscribed)
    {
      ReachedSnoc(roomId, userName, ps, i, outcome);
      InitiateConnectionWithPeer(ps[i], outcome(ps[i]));
      if Succeeds(outcome(ps[i])) {
        FreshLinksAdd(Reached(ps[..i], outcome), ps[i]);
      } else {
        assert old(links) - {ps[i]} == old(links);
      }
    }

    /** `handleWebRTCOffer` (lines 186-210): the microphone is acquired first
        if needed, even outside a call; then a fresh connection for the
        sender answers the offer, or is cleaned up if that fails. */
    method OnOffer(sender: string, mediaOk: bool, outcome: LinkOutcome)
      requires Valid() && subscribed
      modifies this
      ensures Valid()
      ensures var streamOk := old(localStream).Some? || mediaOk;
        var answered := streamOk && rtcConfigured && Succeeds(outcome);
        && outbox == old(outbox) + (if answered then [WebrtcAnswer(roomId, userName, sender)] else [])
        && (answered ==> links == old(links)[sender := Link(true, true, 0)])
        && (streamOk && rtcConfigured && !answered ==> links == old(links) - {sender})
        && (streamOk && rtcConfigured ==> sinks == old(sinks) - {sender})
        && (!(streamOk && rtcConfigured) ==> links == old(links) && sinks == old(sinks))
      ensures old(localStream).Some? ==> localStream == old(localStream) && micPermission == old(micPermission)
      ensures old(localStream).None? && mediaOk ==> localStream == Some(Stream(!isMuted)) && micPermission == Some(Granted)
      ensures old(localStream).None? && !mediaOk ==> localStream == None && micPermission == Some(Denied)
      ensures participants == old(participants) && isInCall == old(isInCall) && callStatus == old(callStatus)
      ensures isMuted == old(isMuted) && subscribed == old(subscribed) && rtcConfigured == old(rtcConfigured)
    {
      if localStream.None? {
        var ok := InitLocalStream(mediaOk);
        if !ok {
          return;
        }
      }
      var created := CreatePeerConnection(sender, outcome.created);
      if !created {
        return;
      }
      if outcome.negotiated {
        links := links[sender := links[sender].(remoteSet := true)];
        outbox := outbox + [WebrtcAnswer(roomId, userName, sender)];
      } else {
        CleanupPeer(sender);
      }
    }

    /** `handleWebRTCAnswer` (lines 212-222): applied only to an open
        connection held for the sender; a failure removes that connection. */
    method OnAnswer(sender: string, applied: bool)
      requires Valid() && subscribed
      modifies this
      ensures Valid()
      ensures old(sender in links) && applied ==> links == old(links)[sender := old(links[sender]).(remoteSet := true)] && sinks == old(sinks)
      ensures old(sender in links) && !applied ==> links == old(links) - {sender} && sinks == old(sinks) - {sender}
      ensures old(sender !in links) ==> links == old(links) && sinks == old(sinks)
      ensures participants == old(participants) && outbox == old(outbox)
      ensures localStream == old(localStream) && isInCall == old(isInCall) && callStatus == old(callStatus)
      ensures isMuted == old(isMuted) && micPermission == old(micPermission)
      ensures subscribed == old(subscribed) && rtcConfigured == old(rtcConfigured)
    {
      if sender in links {
        if applied {
          links := links[sender := links[sender].(remoteSet := true)];
        } else {
          CleanupPeer(sender);
        }
      }
    }

    /** `handleICECandidate` (lines 224-233): added only to an open
        connection held for the sender; a failure is only logged. */
    method OnRemoteCandidate(sender: string, applied: bool)
      requires Valid() && subscribed
      modifies this
      ensures Valid()
      ensures old(sender in links) && applied ==> links == old(links)[sender := old(links[sender]).(candidates := old(links[sender]).candidates + 1)]
      ensures !(old(sender in links) && applied) ==> links == old(links)
      ensures sinks == old(sinks) && participants == old(participants) && outbox == old(outbox)
      ensures localStream == old(localStream) && isInCall == old(isInCall) && callStatus == old(callStatus)
      ensures isMuted == old(isMuted) && micPermission == old(micPermission)
      ensures subscribed == old(subscribed) && rtcConfigured == old(rtcConfigured)
    {
      if sender in links && applied {
        links := links[sender := links[sender].(candidates := links[sender].candidates + 1)];
      }
    }

    /** `onicecandidate` of the connection held for `peer` (lines 84-93): a
        gathered candidate is sent to that peer; the end-of-candidates event
        sends nothing. */
    method OnLocalCandidate(peer: string, hasCandidate: bool)
      requires Valid() && peer in links
      modifies this
      ensures Valid()
      ensures outbox == old(outbox) + (if hasCandidate then [WebrtcIceCandidate(roomId, userName, peer)] else [])
      ensures links == old(links) && sinks == old(sinks) && participants == old(participants)
      ensures localStream == old(localStream) && isInCall == old(isInCall) && callStatus == old(callStatus)
      ensures isMuted == old(isMuted) && micPermission == old(micPermission)
      ensures subscribed == old(subscribed) && rtcConfigured == old(rtcConfigured)
    {
      if hasCandidate {
        outbox := outbox + [WebrtcIceCandidate(roomId, userName, peer)];
      }
    }

    /** `ontrack` of the connection held for `peer` (lines 106-127): an audio
        sink is created only when the peer has none. */
    method OnTrack(peer: string)
      requires Valid() && peer in links
      modifies this
      ensures Valid()
      ensures peer in sinks
      ensures peer in old(sinks) ==> sinks == old(sinks)
      ensures peer !in old(sinks) ==> sinks == old(sinks)[peer := Sink]
      ensures links == old(links) && participants == old(participants) && outbox == old(outbox)
      ensures localStream == old(localStream) && isInCall == old(isInCall) && callStatus == old(callStatus)
      ensures isMuted == old(isMuted) && micPermission == old(micPermission)
      ensures subscribed == old(subscribed) && rtcConfigured == old(rtcConfigured)
    {
      if peer !in sinks {
        sinks := sinks[peer := Sink];
      }
    }

    /** `onconnectionstatechange` reporting `failed` for the connection held
        for `peer` (lines 95-98). */
    method OnConnectionFailed(peer: string)
      requires Valid() && peer in links
      modifies this
      ensures Valid()
      ensures links == old(links) - {peer} && sinks == old(sinks) - {peer}
      ensures participants == old(participants) && outbox == old(outbox)
      ensures localStream == old(localStream) && isInCall == old(isInCall) && callStatus == old(callStatus)
      ensures isMuted == old(isMuted) && micPermission == old(micPermission)
      ensures subscribed == old(subscribed) && rtcConfigured == old(rtcConfigured)
    {
      CleanupPeer(peer);
    }

    /** `toggleMute` (lines 314-322), whose button is shown only in a call:
        with a stream, the flag flips and the track follows it; without
        one, nothing changes. */
    method ToggleMute()
      requires Valid() && isInCall
      modifies this
      ensures Valid()
      ensures old(localStream).Some? ==> isMuted == !old(isMuted) && localStream == Some(Stream(!isMuted))
      ensures old(localStream).None? ==> isMuted == old(isMuted) && localStream == None
      ensures links == old(links) && sinks == old(sinks) && participants == old(participants) && outbox == old(outbox)
      ensures isInCall == old(isInCall) && callStatus == old(callStatus) && micPermission == old(micPermission)
      ensures subscribed == old(subscribed) && rtcConfigured == old(rtcConfigured)
    {
      if localStream.Some? {
        localStream := Some(localStream.value.(enabled := isMuted));
        isMuted := !isMuted;
      }
    }

    /** `endCall` (lines 324-329), whose button is shown only in a call:
        `leaveCall` is sent, everything is released, and the status is idle.
        The mute flag is kept for the next call. */
    method EndCall()
      requires Valid() && isInCall
      modifies this
      ensures Valid()
      ensures outbox == old(outbox) + [LeaveCall(roomId, userName)]
      ensures links == map[] && sinks == map[] && localStream == None && micPermission == None
      ensures !isInCall && callStatus == Idle && isMuted == old(isMuted)
      ensures participants == old(participants) && subscribed == old(subscribed) && rtcConfigured == old(rtcConfigured)
    {
      outbox := outbox + [LeaveCall(roomId, userName)];
      CleanupAll();
      isInCall := false;
      callStatus := Idle;
    }
  }
}
