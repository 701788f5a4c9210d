/**
 * The room page as the object the browser code mutates: the refs
 * (`streamRef`, `peersRef`, `localVideoRef`) and the React state are fields,
 * and every socket handler, media callback and button handler is a method
 * that updates them in place, in the order the page does. Each method is
 * proved to perform exactly the transition of the same name in `RoomSpec`,
 * where the invariant `RoomSpec.Wf` and the other properties are proved.
 */
module RoomPage {
  import opened Media
  import opened Participants
  import RoomSpec

  class Room {
    const role: string
    const selfId: PeerId
    const name: string
    const roomId: string
    var tracks: map<TrackId, Track>
    var nextTrack: TrackId
    var conns: map<ConnId, Conn>
    var nextConn: ConnId
    var hasStream: bool
    var localStream: seq<TrackId>
    var preview: Option<seq<TrackId>>
    var peers: map<PeerId, ConnId>
    var remoteStreams: map<PeerId, StreamId>
    var participants: seq<Participant>
    var isMicMuted: bool
    var isVideoOff: bool
    var isSharingScreen: bool
    var hasLeft: bool
    var listening: bool
    var connected: bool
    var emitted: seq<RoomSpec.Emit>

    /** The page's state as a value. */
    function Snapshot(): RoomSpec.RoomState
      reads this
    {
      RoomSpec.RoomState(role, selfId, name, roomId, tracks, nextTrack, conns, nextConn, hasStream, localStream,
                         preview, peers, remoteStreams, participants, isMicMuted, isVideoOff, isSharingScreen,
                         hasLeft, listening, connected, emitted)
    }

    /** The page as first rendered: query parameters read, no stream, no peers, handlers not yet registered. */
    constructor (role: string, selfId: PeerId, name: string, roomId: string)
      ensures Snapshot() == RoomSpec.Initial(role, selfId, name, roomId)
    {
      this.role, this.selfId, this.name, this.roomId := role, selfId, name, roomId;
      tracks, nextTrack, conns, nextConn := map[], 0, map[], 0;
      hasStream, localStream, preview := false, [], None;
      peers, remoteStreams, participants := map[], map[], [];
      isMicMuted, isVideoOff, isSharingScreen, hasLeft := false, false, false, false;
      listening, connected, emitted := false, true, [];
    }

    /** A capture primitive (`getUserMedia`, `getDisplayMedia`) that succeeded: a new live track. */
    method Capture(k: Kind) returns (t: TrackId)
      modifies this
      ensures t == old(nextTrack)
      ensures Snapshot() == RoomSpec.AllocTrack(old(Snapshot()), k)
    {
      t := nextTrack;
      tracks := tracks[t := Track(k, true, true)];
      nextTrack := nextTrack + 1;
    }

    /** `peersRef.current.forEach(pc => { sender = first video sender; if (sender) sender.replaceTrack(t) })`. */
    method ReplaceVideoSenders(t: TrackId)
      modifies this
      ensures Snapshot() == RoomSpec.RetargetPeers(old(Snapshot()), t)
    {
      conns := ForEachConn(conns, peers.Values, Retarget(t));
    }

    /** `socket.emit(...)`. */
    method Emit(e: RoomSpec.Emit)
      modifies this
      ensures Snapshot() == old(Snapshot()).(emitted := old(emitted) + [e])
    {
      emitted := emitted + [e];
    }

    /** `localVideoRef.current.srcObject = ...`; `None` is `null`. */
    method ShowPreview(p: Option<seq<TrackId>>)
      modifies this
      ensures Snapshot() == old(Snapshot()).(preview := p)
    {
      preview := p;
    }

    /** `streamRef.current = stream`. */
    method SetStream(stream: seq<TrackId>)
      modifies this
      ensures Snapshot() == old(Snapshot()).(hasStream := true, localStream := stream)
    {
      hasStream, localStream := true, stream;
    }

    /** `streamRef.current.addTrack(t)`. */
    method AddLocalTrack(t: TrackId)
      modifies this
      ensures Snapshot() == old(Snapshot()).(localStream := old(localStream) + [t])
    {
      localStream := localStream + [t];
    }

    /** `setParticipants(...)`, the updater already applied. */
    method SetParticipants(list: seq<Participant>)
      modifies this
      ensures Snapshot() == old(Snapshot()).(participants := list)
    {
      participants := list;
    }

    /** `setIsSharingScreen(b)`. */
    method SetIsSharingScreen(b: bool)
      modifies this
      ensures Snapshot() == old(Snapshot()).(isSharingScreen := b)
    {
      isSharingScreen := b;
    }

    /** `setIsVideoOff(b)`. */
    method SetIsVideoOff(b: bool)
      modifies this
      ensures Snapshot() == old(Snapshot()).(isVideoOff := b)
    {
      isVideoOff := b;
    }

    /** `pc.close()` for the one connection `c`. */
    method CloseConn(c: ConnId)
      modifies this
      ensures Snapshot() == old(Snapshot()).(conns := EditConns(old(conns), {c}, Close))
    {
      conns := ForEachConn(conns, {c}, Close);
    }

    /** `delete peersRef.current[id]`. */
    method DropPeer(id: PeerId)
      modifies this
      ensures Snapshot() == old(Snapshot()).(peers := old(peers) - {id})
    {
      peers := peers - {id};
    }

    /** The `setRemoteStreams` updater that deletes the entry of `id`. */
    method DropRemoteStream(id: PeerId)
      modifies this
      ensures Snapshot() == old(Snapshot()).(remoteStreams := old(remoteStreams) - {id})
    {
      remoteStreams := remoteStreams - {id};
    }

    /**
     * A new connection to `p`: the live tracks of `streamRef` become its
     * senders, and `onTrack` says whether an `ontrack` handler is set.
     */
    method NewConn(p: PeerId, state: SignalingState, onTrack: bool, desc: Option<Description>) returns (c: Conn)
      ensures c == Conn(p, state, onTrack, LiveOfKind(tracks, localStream, Audio), LiveOfKind(tracks, localStream, Video), desc, [])
    {
      var audio, video := AddLiveTracks(tracks, localStream);
      c := Conn(p, state, onTrack, audio, video, desc, []);
    }

    /** `new RTCPeerConnection(...)`: `conn` gets the next connection id. */
    method AddConn(conn: Conn) returns (c: ConnId)
      modifies this
      ensures c == old(nextConn)
      ensures Snapshot() == old(Snapshot()).(conns := old(conns)[c := conn], nextConn := c + 1)
    {
      c := nextConn;
      conns := conns[c := conn];
      nextConn := nextConn + 1;
    }

    /** `peersRef.current[p] = pc`. */
    method SetPeer(p: PeerId, c: ConnId)
      modifies this
      ensures Snapshot() == old(Snapshot()).(peers := old(peers)[p := c])
    {
      peers := peers[p := c];
    }

    /**
     * A new connection to `p` (by `createPeer` when `onTrack`, by the host's
     * `user-connected` handler otherwise) stored in `peersRef` under `p`,
     * brought into `state`, announced with `e`.
     */
    method CreatePeer(p: PeerId, state: SignalingState, onTrack: bool, desc: Option<Description>, e: RoomSpec.Emit)
      modifies this
      ensures Snapshot() == RoomSpec.AddPeer(old(Snapshot()), p, state, onTrack, desc, e)
    {
      var conn := NewConn(p, state, onTrack, desc);
      var c := AddConn(conn);
      SetPeer(p, c);
      Emit(e);
    }

    /** `start`, once `getUserMedia` has answered (`acquired`) or failed. */
    method Start(acquired: bool)
      modifies this
      ensures Snapshot() == RoomSpec.Start(old(Snapshot()), acquired)
    {
      if roomId == "" || name == "" || role == "" || !acquired {
        return;
      }
      var a := Capture(Audio);
      var v := Capture(Video);
      Join(a, v);
    }

    /** The rest of `start`: keep and show the stream, send `join-room`, list oneself, register the handlers. */
    method Join(a: TrackId, v: TrackId)
      modifies this
      ensures Snapshot() == RoomSpec.Joined(old(Snapshot()), a, v)
    {
      SetStream([a, v]);
      if preview.None? {
        ShowPreview(Some([a, v]));
      }
      Emit(RoomSpec.JoinRoom(roomId, name, role));
      SetParticipants([Participant(selfId, name, false, false)]);
      Listen();
    }

    /** The socket handlers of `start` are registered. */
    method Listen()
      modifies this
      ensures Snapshot() == old(Snapshot()).(listening := true)
    {
      listening := true;
    }

    /** The `all-users` handler. */
    method OnAllUsers(users: seq<Participant>)
      modifies this
      ensures Snapshot() == RoomSpec.AllUsers(old(Snapshot()), users)
    {
      if !listening {
        return;
      }
      participants := AppendNewUsers(participants, users);
      var i := 0;
      while i < |users|
        invariant 0 <= i <= |users|
        invariant RoomSpec.OfferAll(Snapshot(), users[i..]) == RoomSpec.AllUsers(old(Snapshot()), users)
      {
        OfferAllStep(Snapshot(), users, i);
        CreatePeer(users[i].socketId, HaveLocalOffer, true, None, RoomSpec.SendOffer(users[i].socketId));
        i := i + 1;
      }
    }

    /** The `user-connected` handler. */
    method OnUserConnected(id: PeerId, userName: string)
      modifies this
      ensures Snapshot() == RoomSpec.UserConnected(old(Snapshot()), id, userName)
    {
      if !listening {
        return;
      }
      SetParticipants(AddIfAbsent(participants, Participant(id, userName, false, false)));
      if role == RoomSpec.HostRole && hasStream {
        CreatePeer(id, HaveLocalOffer, false, None, RoomSpec.SendOffer(id));
      }
    }

    /** The `receive-offer` handler. */
    method OnReceiveOffer(from: PeerId, offer: Description)
      modifies this
      ensures Snapshot() == RoomSpec.ReceiveOffer(old(Snapshot()), from, offer)
    {
      if listening {
        CreatePeer(from, Stable, true, Some(offer), RoomSpec.SendAnswer(from));
      }
    }

    /** The `receive-answer` handler. */
    method OnReceiveAnswer(from: PeerId, answer: Description)
      modifies this
      ensures Snapshot() == RoomSpec.ReceiveAnswer(old(Snapshot()), from, answer)
    {
      if listening && from in peers && peers[from] in conns && conns[peers[from]].state == HaveLocalOffer {
        var c := peers[from];
        conns := conns[c := conns[c].(state := Stable, remoteDescription := Some(answer))];
      }
    }

    /** The `receive-ice-candidate` handler. */
    method OnReceiveIceCandidate(from: PeerId, candidate: Candidate)
      requires RoomSpec.PeersIn(peers, conns)
      modifies this
      ensures Snapshot() == RoomSpec.ReceiveIceCandidate(old(Snapshot()), from, candidate)
    {
      if listening && from in peers {
        var c := peers[from];
        conns := conns[c := conns[c].(candidates := conns[c].candidates + [candidate])];
      }
    }

    /** The `user-disconnected` handler. */
    method OnUserDisconnected(id: PeerId)
      modifies this
      ensures Snapshot() == RoomSpec.UserDisconnected(old(Snapshot()), id)
    {
      if !listening {
        return;
      }
      if id in peers {
        CloseConn(peers[id]);
      }
      DropPeer(id);
      DropRemoteStream(id);
      SetParticipants(RemoveById(participants, id));
    }

    /** The `ontrack` event of connection `c`. */
    method OnTrack(c: ConnId, stream: StreamId)
      modifies this
      ensures Snapshot() == RoomSpec.OnTrack(old(Snapshot()), c, stream)
    {
      if !(c in conns && conns[c].state != Closed && conns[c].hasOnTrack) {
        return;
      }
      var peerId := conns[c].remote;
      if !(peerId in remoteStreams && remoteStreams[peerId] == stream) {
        remoteStreams := remoteStreams[peerId := stream];
      }
    }

    /** The `onicecandidate` event of connection `c`. */
    method OnLocalIceCandidate(c: ConnId, candidate: Option<Candidate>)
      modifies this
      ensures Snapshot() == RoomSpec.LocalIceCandidate(old(Snapshot()), c, candidate)
    {
      if c in conns && conns[c].state != Closed && candidate.Some? {
        emitted := emitted + [RoomSpec.SendIceCandidate(conns[c].remote, candidate.value)];
      }
    }

    /** The `user-camera-toggle` handler. */
    method OnUserCameraToggle(userId: string, off: bool)
      modifies this
      ensures Snapshot() == RoomSpec.UserCameraToggle(old(Snapshot()), userId, off)
    {
      participants := SetCameraOffByName(participants, userId, off);
    }

    /** The `screen-share-request` handler; `granted` is the host's answer to `confirm`. */
    method OnScreenShareRequest(from: PeerId, granted: bool)
      modifies this
      ensures Snapshot() == RoomSpec.ScreenShareRequest(old(Snapshot()), from, granted)
    {
      if role == RoomSpec.HostRole {
        emitted := emitted + [RoomSpec.ScreenShareResponse(from, granted)];
      }
    }

    /** `actuallyShareScreen`, with `acquired` telling whether `getDisplayMedia` succeeded. */
    method ActuallyShareScreen(acquired: bool)
      modifies this
      ensures Snapshot() == RoomSpec.ActuallyShareScreen(old(Snapshot()), acquired)
    {
      if !acquired {
        return;
      }
      var screen := Capture(Video);
      SetIsSharingScreen(true);
      ReplaceVideoSenders(screen);
      ShowPreview(Some([screen]));
      Emit(RoomSpec.ScreenShareStarted);
    }

    /** The `screen-share-response` handler. */
    method OnScreenShareResponse(granted: bool, acquired: bool)
      modifies this
      ensures Snapshot() == RoomSpec.ScreenShareResponded(old(Snapshot()), granted, acquired)
    {
      if granted {
        ActuallyShareScreen(acquired);
      }
    }

    /** The page's `shareScreen` button. */
    method ShareScreen(acquired: bool)
      modifies this
      ensures Snapshot() == RoomSpec.ShareScreen(old(Snapshot()), acquired)
    {
      if role != RoomSpec.HostRole {
        emitted := emitted + [RoomSpec.RequestScreenShare(roomId, name)];
      } else {
        ActuallyShareScreen(acquired);
      }
    }

    /** The screen track's `onended` callback installed by `actuallyShareScreen`. */
    method OnScreenTrackEnded()
      modifies this
      ensures Snapshot() == RoomSpec.ScreenTrackEnded(old(Snapshot()))
    {
      var video := OfKind(tracks, localStream, Video);
      var audio := OfKind(tracks, localStream, Audio);
      if audio == [] || video == [] {
        return;
      }
      assert video[0] in video;
      ShowPreview(Some([audio[0], video[0]]));
      ReplaceVideoSenders(video[0]);
      SetIsSharingScreen(false);
      Emit(RoomSpec.ScreenShareStopped);
    }

    /** The first step of `stopScreenShare`: stop the preview's first video track, if any. */
    method StopPreviewVideo()
      modifies this
      ensures Snapshot() == RoomSpec.StopPreviewVideo(old(Snapshot()))
    {
      var screen := RoomSpec.PreviewVideo(Snapshot());
      if screen != [] {
        tracks := ForEachTrack(tracks, [screen[0]], Stop);
      }
    }

    /** The end of `stopScreenShare`: `[audio, cam]` becomes the local stream and the preview, `cam` is sent. */
    method ShowCamera(audio: TrackId, cam: TrackId)
      modifies this
      ensures Snapshot() == RoomSpec.CameraBack(old(Snapshot()), audio, cam)
    {
      var combined := [audio, cam];
      ShowPreview(Some(combined));
      SetStream(combined);
      ReplaceVideoSenders(cam);
      Emit(RoomSpec.ScreenShareStopped);
      SetIsSharingScreen(false);
      SetParticipants(SetSharingById(participants, selfId, false));
    }

    /** `stopScreenShare`, with `acquired` telling whether the camera could be restarted. */
    method StopScreenShare(acquired: bool)
      modifies this
      ensures Snapshot() == RoomSpec.StopScreenShare(old(Snapshot()), acquired)
    {
      StopPreviewVideo();
      if !acquired {
        return;
      }
      // The new camera track is not in `streamRef`: its audio tracks are those from before.
      var audio := OfKind(tracks, localStream, Audio);
      var cam := Capture(Video);
      if audio == [] {
        return;
      }
      ShowCamera(audio[0], cam);
    }

    /** The page's `toggleOwnMic`. */
    method ToggleOwnMic()
      modifies this
      ensures Snapshot() == RoomSpec.ToggleOwnMic(old(Snapshot()))
    {
      var audio := OfKind(tracks, localStream, Audio);
      if audio != [] {
        var newMuted := !isMicMuted;
        EnableTracks(audio, !newMuted);
        SetIsMicMuted(newMuted);
      }
    }

    /** The page's `toggleOwnVideo`, with `acquired` telling whether `getUserMedia` succeeded. */
    method ToggleOwnVideo(acquired: bool)
      modifies this
      ensures Snapshot() == RoomSpec.ToggleOwnVideo(old(Snapshot()), acquired)
    {
      var video := OfKind(tracks, localStream, Video);
      if video == [] {
        return;
      }
      if !isVideoOff {
        CameraOff();
      } else if acquired {
        CameraOn();
      }
    }

    /** The camera-off branch of `toggleOwnVideo`: the video tracks are stopped. */
    method CameraOff()
      requires OfKind(tracks, localStream, Video) != [] && !isVideoOff
      modifies this
      ensures Snapshot() == RoomSpec.ToggleOwnVideo(old(Snapshot()), false)
    {
      var video := OfKind(tracks, localStream, Video);
      StopTracks(video);
      ShowPreview(Some([]));
      SetIsVideoOff(true);
      Emit(RoomSpec.CameraToggle(roomId, name, true));
    }

    /** The camera-on branch of `toggleOwnVideo`, once a new camera track was obtained. */
    method CameraOn()
      modifies this
      ensures Snapshot() == RoomSpec.CameraOn(old(Snapshot()))
    {
      // `getAudioTracks()` after `addTrack` of a video track: the audio tracks from before.
      var audio := OfKind(tracks, localStream, Audio);
      var cam := Capture(Video);
      AddLocalTrack(cam);
      ReplaceVideoSenders(cam);
      ShowPreview(Some(audio + [cam]));
      SetIsVideoOff(false);
      Emit(RoomSpec.CameraToggle(roomId, name, false));
    }

    /** `track.enabled = on` for each track of `ids`. */
    method EnableTracks(ids: seq<TrackId>, on: bool)
      modifies this
      ensures Snapshot() == old(Snapshot()).(tracks := EditTracks(old(tracks), ids, SetEnabled(on)))
    {
      tracks := ForEachTrack(tracks, ids, SetEnabled(on));
    }

    /** `setIsMicMuted(b)`. */
    method SetIsMicMuted(b: bool)
      modifies this
      ensures Snapshot() == old(Snapshot()).(isMicMuted := b)
    {
      isMicMuted := b;
    }

    /** `track.stop()` for each track of `ids`. */
    method StopTracks(ids: seq<TrackId>)
      modifies this
      ensures Snapshot() == old(Snapshot()).(tracks := EditTracks(old(tracks), ids, Stop))
    {
      tracks := ForEachTrack(tracks, ids, Stop);
    }

    /** Every track of `streamRef` is stopped. */
    method StopLocalTracks()
      modifies this
      ensures Snapshot() == RoomSpec.StopLocal(old(Snapshot()))
    {
      tracks := ForEachTrack(tracks, localStream, Stop);
    }

    /** Every connection of `peersRef` is closed. */
    method ClosePeers()
      modifies this
      ensures Snapshot() == RoomSpec.CloseAll(old(Snapshot()))
    {
      conns := ForEachConn(conns, peers.Values, Close);
    }

    /** `setHasLeft(true)`. */
    method SetHasLeft()
      modifies this
      ensures Snapshot() == old(Snapshot()).(hasLeft := true)
    {
      hasLeft := true;
    }

    /** `peersRef.current.clear()`. */
    method ClearPeers()
      modifies this
      ensures Snapshot() == old(Snapshot()).(peers := map[])
    {
      peers := map[];
    }

    /** `socket.disconnect()`. */
    method Disconnect()
      modifies this
      ensures Snapshot() == old(Snapshot()).(connected := false)
    {
      connected := false;
    }

    /** The socket handlers are unregistered (`socket.off(...)`). */
    method Unlisten()
      modifies this
      ensures Snapshot() == old(Snapshot()).(listening := false)
    {
      listening := false;
    }

    /** The page's `leaveRoom`; the redirect is not modelled. */
    method LeaveRoom()
      modifies this
      ensures Snapshot() == RoomSpec.Leave(old(Snapshot()))
    {
      SetHasLeft();
      StopLocalTracks();
      ClosePeers();
      ClearPeers();
      Emit(RoomSpec.LeaveRoom(roomId, name));
      Disconnect();
    }

    /** The clean-up returned by the main effect. */
    method Unmount()
      modifies this
      ensures Snapshot() == RoomSpec.Unmount(old(Snapshot()))
    {
      if roomId == "" || name == "" || role == "" {
        return;
      }
      Disconnect();
      Unlisten();
      StopLocalTracks();
      ClosePeers();
    }
  }

  /** One turn of the `all-users` loop is one `OfferTo`. */
  lemma OfferAllStep(s: RoomSpec.RoomState, users: seq<Participant>, i: nat)
    requires i < |users|
    ensures RoomSpec.OfferAll(s, users[i..])
         == RoomSpec.OfferAll(RoomSpec.AddPeer(s, users[i].socketId, HaveLocalOffer, true, None, RoomSpec.SendOffer(users[i].socketId)), users[i + 1..])
  {
    assert users[i..][0] == users[i] && users[i..][1..] == users[i + 1..];
  }
}
