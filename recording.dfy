/**
 * The recording controls component: its state and refs are fields updated in
 * place, and it updates, through the refs and socket it was given, the room
 * page it belongs to. Each method is proved to perform the transition of the
 * same name in `RecordingSpec`, where the invariant and the other properties
 * are proved.
 */
module Recording {
  import opened Media
  import RoomSpec
  import RoomPage
  import opened RecordingSpec

  /**
   * The forEach over `Object.values(remoteStreams)` in `startRecordingWithCanvas`,
   * after the host microphone was connected: every remote stream whose
   * `getAudioTracks()[0]` exists has that track connected to the mix.
   */
  method MixAudio(mic: TrackId, remote: seq<RemoteStream>) returns (mix: seq<AudioInput>)
    ensures mix == Mix(mic, remote)
  {
    mix := [HostMic(mic)];
    var i := 0;
    while i < |remote|
      invariant 0 <= i <= |remote|
      invariant mix == Mix(mic, remote[..i])
    {
      assert remote[..i + 1][..i] == remote[..i];
      var audio := remote[i].audio;
      if audio != [] {
        mix := mix + [RemoteAudio(remote[i].id, audio[0])];
      }
      i := i + 1;
    }
    assert remote[..|remote|] == remote;
  }

  class Recorder {
    const role: string
    const room: RoomPage.Room
    var isRecording: bool
    var currentSource: Source
    var hasRecorder: bool
    var chunks: seq<Blob>
    var videoElement: Option<TrackId>
    var drawing: bool
    var frame: Option<TrackId>
    var mix: seq<AudioInput>

    /** The component's own state as a value. */
    function Snapshot(): RecorderState
      reads this
    {
      RecorderState(isRecording, currentSource, hasRecorder, chunks, videoElement, drawing, frame, mix)
    }

    /** The controls as first rendered for `room`, with the `role` prop. */
    constructor (role: string, room: RoomPage.Room)
      ensures this.role == role && this.room == room
      ensures Snapshot() == Initial()
    {
      this.role, this.room := role, room;
      isRecording, currentSource, hasRecorder, chunks := false, Camera, false, [];
      videoElement, drawing, frame, mix := None, false, None, [];
    }

    /**
     * `startRecordingWithCanvas`; `hasCanvas` tells whether the hidden canvas
     * is mounted, `micOk` and `camOk` whether each `getUserMedia` succeeded,
     * and `remote` lists the values of `remoteStreams` at that moment.
     */
    method StartRecording(hasCanvas: bool, micOk: bool, camOk: bool, remote: seq<RemoteStream>)
      modifies this, room
      ensures (Snapshot(), room.Snapshot())
           == RecordingSpec.Start(old(Snapshot()), old(room.Snapshot()), role, hasCanvas, micOk, camOk, remote)
    {
      if role != RoomSpec.HostRole || !hasCanvas || !micOk {
        return;
      }
      var mic := room.Capture(Audio);
      if !camOk {
        return;
      }
      var cam := room.Capture(Video);
      Record(cam, mic, remote);
    }

    /**
     * The steps of `startRecordingWithCanvas` once both tracks were obtained:
     * the camera goes to the drawing element, the draw tick is set, the mix
     * is built, the buffer is emptied and the recorder starts.
     */
    method Record(cam: TrackId, mic: TrackId, remote: seq<RemoteStream>)
      modifies this
      ensures Snapshot() == old(Snapshot()).(isRecording := true, currentSource := Camera, hasRecorder := true,
                                             chunks := [], videoElement := Some(cam), drawing := true,
                                             mix := Mix(mic, remote))
    {
      videoElement := Some(cam);
      drawing := true;
      mix := MixAudio(mic, remote);
      chunks := [];
      hasRecorder := true;
      isRecording := true;
      currentSource := Camera;
    }

    /** The recorder's `ondataavailable`. */
    method OnDataAvailable(b: Blob)
      modifies this
      ensures Snapshot() == DataAvailable(old(Snapshot()), b)
    {
      if b.size > 0 {
        chunks := chunks + [b];
      }
    }

    /** One tick of the draw interval; `videoWidth` is what the drawing element reports. */
    method OnDrawTick(videoWidth: nat)
      modifies this
      ensures Snapshot() == DrawTick(old(Snapshot()), videoWidth)
    {
      if drawing && videoElement.Some? && videoWidth > 0 {
        frame := videoElement;
      }
    }

    /** `stopCanvasRecording`. */
    method StopRecording()
      modifies this
      ensures Snapshot() == RecordingSpec.Stop(old(Snapshot()))
    {
      if hasRecorder {
        isRecording := false;
        drawing := false;
      }
    }

    /** The recorder's `onstop`: returns the recording made of the buffered chunks. */
    method OnStop() returns (recording: seq<Blob>)
      modifies this
      ensures (Snapshot(), recording) == Finalize(old(Snapshot()))
    {
      drawing := false;
      recording := chunks;
    }

    /** `switchRecordingSource`; `acquired` tells whether capturing the new source succeeded. */
    method SwitchSource(acquired: bool)
      modifies this, room
      ensures (Snapshot(), room.Snapshot()) == RecordingSpec.Switch(old(Snapshot()), old(room.Snapshot()), acquired)
    {
      if videoElement.None? {
        return;
      }
      var newSource := Flip(currentSource);
      if !acquired {
        return;
      }
      var track := room.Capture(Video);
      videoElement := Some(track);
      UseNewTrack(track, newSource);
      currentSource := newSource;
    }

    /**
     * The room side of `switchRecordingSource` once `track` was obtained: the
     * audio tracks of `streamRef` and the track become `streamRef` and the
     * preview, the video senders get the track, and the switch is announced.
     */
    method UseNewTrack(track: TrackId, newSource: Source)
      modifies room
      ensures room.Snapshot() == RecordingSpec.UseNewTrack(old(room.Snapshot()), track, newSource)
    {
      var audio := if room.hasStream then OfKind(room.tracks, room.localStream, Audio) else [];
      var combined := audio + [track];
      room.SetStream(combined);
      room.ShowPreview(Some(combined));
      room.ReplaceVideoSenders(track);
      room.Emit(if newSource == Screen then RoomSpec.ScreenShareStarted else RoomSpec.ScreenShareStopped);
    }
  }
}
