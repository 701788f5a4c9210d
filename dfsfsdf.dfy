/**
 * A stray copy of the control panel's `toggleOwnVideo`, written against the
 * same refs and setters. It performs the panel's transition.
 */
module Dfsfsdf {
  import opened Media
  import RoomPage
  import PanelSpec

  /** `toggleOwnVideo`; `acquired` tells whether `getUserMedia` succeeded. */
  method ToggleOwnVideo(room: RoomPage.Room, acquired: bool)
    modifies room
    ensures room.Snapshot() == PanelSpec.ToggleOwnVideo(old(room.Snapshot()), acquired)
  {
    var videoTracks := OfKind(room.tracks, room.localStream, Video);
    if videoTracks == [] {
      return;
    }
    if !room.isVideoOff {
      room.StopTracks(videoTracks);
      room.ShowPreview(None);
      room.SetIsVideoOff(true);
    } else if acquired {
      RestartVideo(room);
    }
  }

  /** The restart branch: the new track goes to the first video sender of every connection in the peer map, the local stream and the preview. */
  method RestartVideo(room: RoomPage.Room)
    modifies room
    ensures room.Snapshot() == PanelSpec.CameraOn(old(room.Snapshot()))
  {
    var newTrack := room.Capture(Video);
    room.ReplaceVideoSenders(newTrack);
    room.AddLocalTrack(newTrack);
    var updatedStream := OfKind(room.tracks, room.localStream, Audio) + [newTrack];
    room.ShowPreview(Some(updatedStream));
    room.SetIsVideoOff(false);
  }
}
