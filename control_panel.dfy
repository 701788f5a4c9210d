/**
 * The control panel component: its buttons update, in place, the room page
 * whose refs and setters it was given. Each method is proved to perform the
 * transition of the same name in `PanelSpec` (or, for the microphone, in
 * `RoomSpec`).
 */
module ControlPanel {
  import opened Media
  import RoomSpec
  import RoomPage
  import PanelSpec

  /**
   * A rendered control panel: the room page whose refs and setters it was
   * given, and whether a `leaveRoomCallback` prop was passed.
   */
  class Panel {
    const room: RoomPage.Room
    const hasCallback: bool

    constructor (room: RoomPage.Room, hasCallback: bool)
      ensures this.room == room && this.hasCallback == hasCallback
    {
      this.room, this.hasCallback := room, hasCallback;
    }

    /** The panel's `toggleOwnMic`, the same steps as the page's. */
    method ToggleOwnMic()
      modifies room
      ensures room.Snapshot() == RoomSpec.ToggleOwnMic(old(room.Snapshot()))
    {
      var audio := OfKind(room.tracks, room.localStream, Audio);
      if audio != [] {
        var newMuted := !room.isMicMuted;
        room.EnableTracks(audio, !newMuted);
        room.SetIsMicMuted(newMuted);
      }
    }

    /** The panel's `shareScreen`; `acquired` tells whether `getDisplayMedia` succeeded. */
    method ShareScreen(acquired: bool)
      modifies room
      ensures room.Snapshot() == PanelSpec.ShareScreen(old(room.Snapshot()), acquired)
    {
      if room.role != RoomSpec.HostRole {
        room.Emit(RoomSpec.RequestScreenShareBare);
        return;
      }
      if !acquired {
        return;
      }
      var screen := room.Capture(Video);
      var combined := OfKind(room.tracks, room.localStream, Audio) + [screen];
      room.SetStream(combined);
      room.ReplaceVideoSenders(screen);
      room.ShowPreview(Some(combined));
      room.SetIsSharingScreen(true);
      room.Emit(RoomSpec.ScreenShareStarted);
    }

    /**
     * The `onended` callback the panel's `shareScreen` sets on the screen
     * track: it calls the `stopScreenShare` prop, the page's own;
     * `acquired` tells whether its `getUserMedia` succeeded.
     */
    method OnScreenTrackEnded(acquired: bool)
      modifies room
      ensures room.Snapshot() == RoomSpec.StopScreenShare(old(room.Snapshot()), acquired)
    {
      room.StopScreenShare(acquired);
    }

    /** The panel's `toggleOwnVideo`; `acquired` tells whether `getUserMedia` succeeded. */
    method ToggleOwnVideo(acquired: bool)
      modifies room
      ensures room.Snapshot() == PanelSpec.ToggleOwnVideo(old(room.Snapshot()), acquired)
    {
      var video := OfKind(room.tracks, room.localStream, Video);
      if video == [] {
        return;
      }
      if !room.isVideoOff {
        room.StopTracks(video);
        room.ShowPreview(None);
        room.SetIsVideoOff(true);
      } else if acquired {
        TurnCameraOn();
      }
    }

    /** The camera-on branch of the panel's `toggleOwnVideo`. */
    method TurnCameraOn()
      modifies room
      ensures room.Snapshot() == PanelSpec.CameraOn(old(room.Snapshot()))
    {
      var cam := room.Capture(Video);
      room.ReplaceVideoSenders(cam);
      room.AddLocalTrack(cam);
      var audio := OfKind(room.tracks, room.localStream, Audio);
      room.ShowPreview(Some(audio + [cam]));
      room.SetIsVideoOff(false);
    }

    /**
     * The panel's `leaveRoom`; `delegated` is true when the work was handed
     * to the `leaveRoomCallback` instead.
     */
    method LeaveRoom() returns (delegated: bool)
      modifies room
      ensures delegated == hasCallback
      ensures room.Snapshot() == PanelSpec.Leave(old(room.Snapshot()), hasCallback)
    {
      delegated := hasCallback;
      if hasCallback {
        return;
      }
      room.StopLocalTracks();
      room.ClosePeers();
      room.ClearPeers();
      room.Emit(RoomSpec.LeaveRoomBare);
      room.Disconnect();
    }
  }
}
