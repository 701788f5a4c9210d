# Room bookkeeping of the WebRTC meeting front end

This project models, in Dafny, the bookkeeping core of a browser front end for
WebRTC video meetings. It covers:

- the room page (`RoomPageClient`): its socket handlers, the peer
  connections it creates, its local stream and preview, screen sharing,
  camera and microphone toggles, leaving and unmounting;
- the control panel (`ControlPanel`) and its stray duplicate of the camera
  toggle (`dfsfsdf.js`);
- the host's canvas recorder (`RecordingControls`);
- the validator of the join form (`join-room/page.js`).

Media objects are opaque ids, and only what the code does with them is
modelled:

- Every `MediaStreamTrack` the page obtains is an entry of a track table (kind,
  live or ended, enabled). Every `RTCPeerConnection` it creates is an entry of a
  connection table (remote peer, signaling state, whether an `ontrack`
  handler is set, the tracks of the audio senders and of the video senders in
  `addTrack` order, remote description, the candidates handed to
  `addIceCandidate`). Both tables
  only grow, and each has an allocator of fresh ids.
- So object identity survives. `peersRef` is a map from peer ids to connection
  ids. A connection that is overwritten or removed from that map stays in the
  table, closed or not, exactly as it does in the browser.
- `getUserMedia`/`getDisplayMedia` are may-fail producers of fresh tracks: a
  `bool` parameter says whether acquisition succeeded. `confirm()` is a
  `bool` parameter too. `socket.emit` appends a message to an output log,
  `emitted`.
- Each handler is one atomic step; `await` points are not interleaved.

Modules and files:

- `Media` (`media.dfy`): tracks, connections, the `getAudioTracks`/`getVideoTracks`
  filters, and the `forEach` loops over tracks and connections. Each loop is a
  method with invariants, proved against a function.
- `Participants` (`participants.dfy`): the participants-list updaters.
- `RoomSpec` (`room_spec.dfy`): the whole page as a value `RoomState`, one
  transition function per handler, and the lemmas about them:
  - the well-formedness invariant `Wf` (every id the page holds refers to an
    existing track or connection of the right kind, and the allocators are
    fresh) is preserved by every transition;
  - frame lemmas say what each transition leaves alone;
  - further lemmas relate several transitions.
- `RoomPage` (`room_page.dfy`): class `Room` with the same fields, updated in
  place. Each handler method is proved to end in
  `Snapshot() == RoomSpec.X(old(Snapshot()), …)`.
- `PanelSpec` and `ControlPanel` (`panel_spec.dfy`, `control_panel.dfy`): the
  control panel's own handlers, as functions and as methods of class `Panel`
  working on the page's `Room`. `Dfsfsdf` (`dfsfsdf.dfy`) is the duplicate
  camera toggle, proved to behave as the panel's.
- `RecordingSpec` and `Recording` (`recording_spec.dfy`, `recording.dfy`): the
  recorder's state as a value next to the room it works on. Class `Recorder`
  updates its own fields and the page's `Room` in place.
- `JoinRoom` (`join_room.dfy`):
  - JavaScript's `String.prototype.trim` (its exact whitespace set) and the
    UTF-16 `length`;
  - the error map of `validateForm`, built in the code's overwrite order;
  - `handleJoin` and `handleInputChange`, as class `JoinPage`.

Behaviour of the code worth knowing:

- A host that receives `user-connected` creates a connection and offers,
  so both sides can offer: there is no glare resolution.
- A replayed roster creates new connections and sends new offers; a
  replayed offer creates a new connection and sends a new `send-answer`.
  The connection either overwrites in `peersRef` is not closed.
- The connection a host builds on `user-connected` has no `ontrack`
  handler, so tracks arriving on it never reach the remote streams.
- A connection receives a sender for every live track of the local stream;
  `replaceTrack` reaches only the first video sender.
- ICE candidates are handed to the connection at once and are not buffered.
  A candidate for an unknown peer is dropped.
- The recording's audio mix is built once at start. It is not updated
  when participants join or leave.
- The end of a screen track shared by the page's `actuallyShareScreen`
  restores the preview and the senders through its own callback, not
  through `stopScreenShare`. The panel's `shareScreen` instead sets an
  `onended` that calls the `stopScreenShare` prop.
- `leaveRoom` is not idempotent: each call sends `leave-room` again.

Modelling choices:

- `RoomSpec.ReceiveIceCandidate` requires that the peer map refers only to
  existing connections. That is part of `Wf`, the representation's
  invariant.
- The first message of `validateForm` (line 16) is always overwritten by
  the one of line 18, because an empty trimmed name is also shorter than two.
  The model keeps both assignments in order, and `JoinRoom.ErrorsFound`
  proves which message survives.

## Model

| member | source | states |
|---|---|---|
| Media.OfKind | room/RoomPageClient.js:241 | `getAudioTracks()`/`getVideoTracks()`: a track is in the result iff it is in the stream and has that kind; never longer than the stream |
| Media.OfKindSnoc | room/RoomPageClient.js:258 | filtering a stream extended by `addTrack` is filtering the old stream, plus the new track when it has the kind |
| Media.OfKindOfKind | room/RoomPageClient.js:265-268 | filtering an already filtered stream by the same kind changes nothing |
| Media.OfKindOther | room/RoomPageClient.js:265-268 | the audio tracks of a stream have no video tracks, and the other way round |
| Media.OfKindSameKinds | room/ControlPanel.js:78-83 | a track-table change that keeps every track's presence and kind keeps the filters |
| Media.FreshVideoAfterAudio | room/RecordingControls.js:169-170 | after a fresh video track, the stream made of the old audio tracks and that track has the same audio tracks, and that track is its only video track |
| Media.LiveOfKind | room/RoomPageClient.js:116-120 | a track is in the result iff it is in the stream, has that kind and is live |
| Media.AddLiveTracks | room/RoomPageClient.js:114-121 | the `forEach` of `createPeer`: every live track gets a sender, so the audio senders are the live audio tracks and the video senders the live video tracks, each in stream order |
| Media.ApplyConn | room/RoomPageClient.js:260-263 | `replaceTrack` on the video sender `find` returns changes the first video sender only, and never the number of senders; `close()` changes only the state |
| Media.EditConns | room/RoomPageClient.js:359-362 | an edit of the connections named: every connection is kept, and those not named are unchanged |
| Media.ForEachConn | room/RoomPageClient.js:235 | the loop over connections performs exactly `EditConns` |
| Media.EditTracks | room/RoomPageClient.js:244 | an edit of the tracks named: every track is kept with its kind, and those not named are unchanged |
| Media.ForEachTrack | room/RoomPageClient.js:234 | the loop over tracks performs exactly `EditTracks` |
| Participants.Unlisted | room/RoomPageClient.js:140 | a user is kept iff it is in the roster and its socket id is not listed yet |
| Participants.UnlistedOne | room/RoomPageClient.js:140 | a one-user roster is kept exactly when the user's id is not listed |
| Participants.UnlistedAppend | room/RoomPageClient.js:140 | filtering a concatenated roster is the concatenation of the filtered parts, so the kept users stay in roster order |
| Participants.AppendNewUsers | room/RoomPageClient.js:139-142 | the result is the previous list followed by the roster's unlisted users, in roster order; the appended users are exactly those unlisted; the listed ids become the old ids plus the roster's |
| Participants.UnlistedOfListed | room/RoomPageClient.js:139-142 | a roster whose ids are all listed adds nothing |
| Participants.AppendNewUsersIdempotent | room/RoomPageClient.js:139-142 | applying the same roster twice lists the same users as applying it once |
| Participants.AddIfAbsent | room/RoomPageClient.js:155-158 | a listed id leaves the list unchanged; otherwise exactly one entry is appended |
| Participants.AddIfAbsentIdempotent | room/RoomPageClient.js:155-158 | adding the same user twice is adding it once |
| Participants.RemoveById | room/RoomPageClient.js:217 | an entry is kept iff it is listed and has another socket id; the id is gone; nothing changes when it was absent |
| Participants.RemoveByIdOne | room/RoomPageClient.js:217 | a one-entry list keeps its entry exactly when the id differs |
| Participants.RemoveByIdAppend | room/RoomPageClient.js:217 | removal from a concatenated list is the concatenation of the removals, so the other entries keep their order |
| Participants.SetCameraOffByName | room/RoomPageClient.js:57-59 | same length and order; entries whose name matches get the flag, every other field and entry is unchanged |
| Participants.SetSharingById | room/RoomPageClient.js:306-310 | same length and order; the entry with the id gets the sharing flag, every other field and entry is unchanged |
| RoomSpec.Initial | room/RoomPageClient.js:40-53 | the page before `start`: well-formed, no peers, no connections, nobody listed, no stream, no handlers |
| RoomSpec.AllocTrack | room/RoomPageClient.js:128 | a capture yields a new live, enabled track of the kind under the fresh id, and nothing else changes |
| RoomSpec.AllocTrackWf | room/RoomPageClient.js:128 | the fresh id was unused, the invariant holds after the capture, and the local stream's audio and video tracks are unchanged |
| RoomSpec.RetargetPeers | room/RoomPageClient.js:359-362 | every connection in `peersRef` with a video sender now sends the track on its first one, the later ones unchanged; the ones without one and the ones outside the map are unchanged, and nothing else changes |
| RoomSpec.RetargetPeersWf | room/RoomPageClient.js:359-362 | pointing the senders at an existing video track keeps the invariant |
| RoomSpec.AddPeer | room/RoomPageClient.js:95-124 | `createPeer` stored in `peersRef`: a new connection to the peer whose audio senders are the live local audio tracks and whose video senders are the live local video tracks, in stream order, with or without an `ontrack` handler as asked, no candidates, and one emit |
| RoomSpec.AddPeerWf | room/RoomPageClient.js:95-124 | the new connection id was unused and the invariant holds after |
| RoomSpec.OfferTo | room/RoomPageClient.js:145-150 | one roster step: a new connection in `have-local-offer` for the user, stored in `peersRef`, and `send-offer` to it |
| RoomSpec.Offers | room/RoomPageClient.js:144-151 | one `send-offer` per roster user |
| RoomSpec.OfferAll | room/RoomPageClient.js:144-151 | the roster loop sends `send-offer` to every user in roster order and changes only the connections, `peersRef` and the emits |
| RoomSpec.OfferAllWf | room/RoomPageClient.js:144-151 | the roster loop keeps the invariant |
| RoomSpec.OfferToFresh | room/RoomPageClient.js:145-146 | each roster step uses an unused connection id and keeps the allocator fresh |
| RoomSpec.OfferAllKeeps | room/RoomPageClient.js:144-151 | the roster loop only adds connections: every earlier one is unchanged, including one overwritten in `peersRef` (it is not closed) |
| RoomSpec.OfferAllPeerKeys | room/RoomPageClient.js:144-151 | `peersRef` gains exactly the roster's ids, and other entries are untouched |
| RoomSpec.OfferAllPeers | room/RoomPageClient.js:144-151 | after the loop every roster user maps to a new connection waiting for an answer |
| RoomSpec.AllUsers | room/RoomPageClient.js:138-152 | `all-users` does nothing before the handlers exist; otherwise the list gains the unlisted users and every roster user gets an offer, in order |
| RoomSpec.AllUsersWf | room/RoomPageClient.js:138-152 | `all-users` keeps the invariant |
| RoomSpec.AllUsersFrame | room/RoomPageClient.js:138-152 | `all-users` changes only the connections, `peersRef`, the emits and the list |
| RoomSpec.AllUsersOffers | room/RoomPageClient.js:138-152 | every roster user maps to a connection that did not exist before and waits for an answer; every earlier connection is unchanged |
| RoomSpec.UserConnected | room/RoomPageClient.js:154-185 | the user is listed unless already listed; a host with a stream also creates a connection to it in `have-local-offer`, with senders for every live local track and no `ontrack` handler, and sends `send-offer` |
| RoomSpec.UserConnectedWf | room/RoomPageClient.js:154-185 | `user-connected` keeps the invariant |
| RoomSpec.UserConnectedFrame | room/RoomPageClient.js:154-185 | without the host branch only the list changes; with it, only the connections, `peersRef`, the emits and the list |
| RoomSpec.UserConnectedIdempotentOnParticipants | room/RoomPageClient.js:155-158 | announcing the same user twice leaves the list as announcing it once |
| RoomSpec.ReceiveOffer | room/RoomPageClient.js:187-194 | a new connection for the sender replaces its `peersRef` entry, holds the offer as remote description, is stable, and `send-answer` goes back |
| RoomSpec.ReceiveOfferWf | room/RoomPageClient.js:187-194 | `receive-offer` keeps the invariant |
| RoomSpec.ReceiveOfferFrame | room/RoomPageClient.js:187-194 | `receive-offer` changes only the connections, `peersRef` and the emits |
| RoomSpec.ReceiveAnswer | room/RoomPageClient.js:196-201 | the answer is applied iff the sender has a connection in `have-local-offer`; then only that connection changes, to stable with the answer; otherwise nothing changes |
| RoomSpec.ReceiveAnswerWf | room/RoomPageClient.js:196-201 | `receive-answer` keeps the invariant |
| RoomSpec.ReceiveAnswerFrame | room/RoomPageClient.js:196-201 | `receive-answer` changes only the connection table |
| RoomSpec.ReceiveIceCandidate | room/RoomPageClient.js:203-206 | a candidate from a known peer is appended to its connection's candidates and nothing else changes; from an unknown peer it is dropped with no change |
| RoomSpec.ReceiveIceCandidateWf | room/RoomPageClient.js:203-206 | `receive-ice-candidate` keeps the invariant and changes only the connection table |
| RoomSpec.UserDisconnected | room/RoomPageClient.js:208-218 | the peer's connection is closed, and the id leaves `peersRef`, the remote streams and the list; every other connection is unchanged |
| RoomSpec.DropPeerWf | room/RoomPageClient.js:211-217 | dropping a `peersRef` entry and changing the remote streams or the list keeps the invariant |
| RoomSpec.UserDisconnectedWf | room/RoomPageClient.js:208-218 | `user-disconnected` keeps the invariant |
| RoomSpec.UserDisconnectedFrame | room/RoomPageClient.js:208-218 | `user-disconnected` changes only the connections, `peersRef`, the remote streams and the list |
| RoomSpec.UserDisconnectedForgets | room/RoomPageClient.js:208-218 | afterwards the id is in none of `peersRef`, the remote streams and the list, and the list keeps exactly the other entries (their order is `Participants.RemoveByIdAppend`) |
| RoomSpec.OnTrack | room/RoomPageClient.js:104-112 | a track event on an open connection with the handler stores its stream under the peer the connection was created for (the same state when already stored); on a closed connection, one without the handler or an unknown one it changes nothing; nothing else changes |
| RoomSpec.LocalIceCandidate | room/RoomPageClient.js:98-102 | a non-null candidate of an open connection is sent to the peer the connection was created for; a null one, or one from a closed or unknown connection, changes nothing |
| RoomSpec.OnTrackWf | room/RoomPageClient.js:104-112 | a track event keeps the invariant |
| RoomSpec.LocalIceCandidateWf | room/RoomPageClient.js:98-102 | a local candidate keeps the invariant |
| RoomSpec.UserConnectedIgnoresTracks | room/RoomPageClient.js:161-175 | the connection a host builds on `user-connected` is the peer's entry and a track event on it changes nothing |
| RoomSpec.ReceiveOfferDeliversTracks | room/RoomPageClient.js:187-188 | a track event on the connection built for an offer stores its stream under the offerer's id |
| RoomSpec.UserDisconnectedSilencesConn | room/RoomPageClient.js:208-211 | after `user-disconnected`, a track or a candidate on the peer's closed connection changes nothing, and the peer stays out of the remote streams |
| RoomSpec.UserCameraToggle | room/RoomPageClient.js:56-60 | entries whose name is the user id get the camera flag, the rest of the list and of the page is unchanged |
| RoomSpec.UserCameraToggleWf | room/RoomPageClient.js:56-60 | `user-camera-toggle` keeps the invariant |
| RoomSpec.ScreenShareRequest | room/RoomPageClient.js:66-71 | only a host answers, with its choice; a participant changes nothing |
| RoomSpec.ScreenShareRequestWf | room/RoomPageClient.js:66-71 | `screen-share-request` keeps the invariant |
| RoomSpec.ActuallyShareScreen | room/RoomPageClient.js:337-369 | with a display track: the first video sender of every connection in `peersRef` (the other connections untouched) gets it, the preview shows it alone, sharing is on and `screen-share-started` is sent; a failed capture changes nothing |
| RoomSpec.ActuallyShareScreenWf | room/RoomPageClient.js:337-369 | sharing keeps the invariant |
| RoomSpec.ActuallyShareScreenFrame | room/RoomPageClient.js:337-369 | sharing does not touch `streamRef`, `peersRef`, the list or the other flags |
| RoomSpec.ScreenShareResponded | room/RoomPageClient.js:73-79 | a grant shares the screen, a denial changes nothing |
| RoomSpec.ScreenShareRespondedWf | room/RoomPageClient.js:73-79 | `screen-share-response` keeps the invariant |
| RoomSpec.ShareScreen | room/RoomPageClient.js:317-323 | a participant only sends `request-screen-share`; a host shares directly |
| RoomSpec.ShareScreenWf | room/RoomPageClient.js:317-323 | `shareScreen` keeps the invariant |
| RoomSpec.ScreenTrackEnded | room/RoomPageClient.js:343-357 | the preview goes back to the first audio and video track of `streamRef`, the first video sender of every connection in `peersRef` (the other connections untouched) to that video track, sharing is off and `screen-share-stopped` is sent; with either track missing nothing changes |
| RoomSpec.ScreenTrackEndedWf | room/RoomPageClient.js:343-357 | the end of the screen track keeps the invariant |
| RoomSpec.ScreenTrackEndedFrame | room/RoomPageClient.js:343-357 | it changes only the connections, the preview, the sharing flag and the emits |
| RoomSpec.PreviewVideo | room/RoomPageClient.js:280 | a track is a video track of the preview iff it is in the shown stream and is a video track; none without a preview |
| RoomSpec.StopPreviewVideo | room/RoomPageClient.js:280-283 | the preview's first video track is stopped, every other track is unchanged, and the local audio tracks stay |
| RoomSpec.StopPreviewVideoWf | room/RoomPageClient.js:280-283 | stopping that track keeps the invariant |
| RoomSpec.StopPreviewVideoFrame | room/RoomPageClient.js:280-283 | only the track table changes |
| RoomSpec.StopScreenShare | room/RoomPageClient.js:277-314 | after stopping the preview's video: a new camera track joins the first audio track as `streamRef` and preview, the first video sender of every connection in `peersRef` (the other connections untouched) gets it, sharing is off in the flag and in one's own list entry, and `screen-share-stopped` is sent; a capture failure or a stream without audio stops after the steps already taken |
| RoomSpec.CameraBack | room/RoomPageClient.js:290-310 | the successful end of `stopScreenShare`: `streamRef` and the preview are the audio track and the new camera, sharing is off in the flag and in one's own list entry, `screen-share-stopped` is sent, and besides these only the connections change |
| RoomSpec.StopScreenShareWf | room/RoomPageClient.js:277-314 | `stopScreenShare` keeps the invariant |
| RoomSpec.StopScreenShareFrame | room/RoomPageClient.js:277-314 | it leaves `peersRef`, the remote streams and the other flags alone |
| RoomSpec.ToggleOwnMic | room/RoomPageClient.js:240-247 | without audio tracks nothing changes; otherwise the muted flag flips and every audio track is enabled iff not muted, every other track unchanged |
| RoomSpec.ToggleOwnMicWf | room/RoomPageClient.js:240-247 | the toggle keeps the invariant |
| RoomSpec.ToggleOwnMicFrame | room/RoomPageClient.js:240-247 | it changes only the tracks and the muted flag |
| RoomSpec.EnabledRestored | room/RoomPageClient.js:244 | setting `enabled` to the opposite and back restores tracks that agreed on it |
| RoomSpec.ToggleOwnMicTwice | room/RoomPageClient.js:240-247 | when the audio tracks agree with the flag, toggling twice restores the page |
| RoomSpec.ToggleOwnVideo | room/RoomPageClient.js:249-276 | without video tracks nothing changes; off stops every video track and shows an empty stream; on adds a new camera to `streamRef`, the first video sender of every connection in `peersRef` (the other connections untouched) and the preview with the audio tracks; either way `camera-toggle` carries the new state |
| RoomSpec.CameraOn | room/RoomPageClient.js:256-268 | the camera-on branch changes only the tracks, connections, stream, preview, flag and emits |
| RoomSpec.ToggleOwnVideoWf | room/RoomPageClient.js:249-276 | the toggle keeps the invariant |
| RoomSpec.CameraOffWf | room/RoomPageClient.js:270-271 | the camera-off branch keeps the invariant |
| RoomSpec.CameraOnWf | room/RoomPageClient.js:256-268 | the camera-on branch keeps the invariant |
| RoomSpec.ToggleOwnVideoFrame | room/RoomPageClient.js:249-276 | the toggle leaves `peersRef` and the list alone, and turning off leaves the connections and `streamRef` alone |
| RoomSpec.StopLocal | room/RoomPageClient.js:327 | every track of `streamRef` is stopped, and nothing else changes |
| RoomSpec.StopLocalWf | room/RoomPageClient.js:327 | stopping keeps the invariant |
| RoomSpec.CloseAll | room/RoomPageClient.js:328 | every connection of `peersRef` is closed, and nothing else changes |
| RoomSpec.CloseAllWf | room/RoomPageClient.js:328 | closing keeps the invariant |
| RoomSpec.Leave | room/RoomPageClient.js:324-336 | every local track is stopped, every peer closed, `peersRef` empty, `leave-room` sent, disconnected and marked as left |
| RoomSpec.LeaveWf | room/RoomPageClient.js:324-336 | leaving keeps the invariant |
| RoomSpec.LeaveFrame | room/RoomPageClient.js:324-336 | leaving changes nothing else |
| RoomSpec.Unmount | room/RoomPageClient.js:90-236 | without a room id, a name or a role no clean-up was registered and nothing changes; otherwise the clean-up disconnects, unregisters the handlers, stops every local track and closes every peer |
| RoomSpec.UnmountWf | room/RoomPageClient.js:223-236 | the clean-up keeps the invariant |
| RoomSpec.UnmountFrame | room/RoomPageClient.js:223-236 | with a room id, a name and a role, the clean-up changes nothing else, and keeps `peersRef` |
| RoomSpec.Start | room/RoomPageClient.js:89-137 | without a room id, name or role, or without a stream, nothing; otherwise a new audio and video track become `streamRef`, shown unless the preview is set, `join-room` is sent, the list is oneself and the handlers are registered |
| RoomSpec.StartWf | room/RoomPageClient.js:126-137 | `start` keeps the invariant |
| RoomSpec.StartLocalTracks | room/RoomPageClient.js:126-137 | after `start` the stream holds exactly one live audio and one live video track |
| RoomSpec.StartFrame | room/RoomPageClient.js:126-137 | `start` changes nothing else |
| RoomSpec.ReplayedAnswerIgnored | room/RoomPageClient.js:196-201 | a second answer from the same peer changes nothing |
| RoomSpec.LateMessagesAfterDisconnectDropped | room/RoomPageClient.js:203-218 | after `user-disconnected`, candidates and answers from that peer change nothing |
| RoomPage.Room.constructor | room/RoomPageClient.js:40-53 | the page as first rendered is `RoomSpec.Initial` |
| RoomPage.Room.Capture | room/RoomPageClient.js:128 | returns the fresh track id and performs `AllocTrack` |
| RoomPage.Room.CreatePeer | room/RoomPageClient.js:95-124 | `createPeer` (or the host's connection of `user-connected`) and the `peersRef.set` perform `AddPeer` |
| RoomPage.Room.Start | room/RoomPageClient.js:126-137 | performs `RoomSpec.Start` |
| RoomPage.Room.OnAllUsers | room/RoomPageClient.js:138-152 | the roster loop over `peersRef` performs `RoomSpec.AllUsers` |
| RoomPage.OfferAllStep | room/RoomPageClient.js:144-151 | one iteration of the roster loop is one `AddPeer` followed by the rest of the roster |
| RoomPage.Room.OnUserConnected | room/RoomPageClient.js:154-185 | performs `RoomSpec.UserConnected` |
| RoomPage.Room.OnReceiveOffer | room/RoomPageClient.js:187-194 | performs `RoomSpec.ReceiveOffer` |
| RoomPage.Room.OnReceiveAnswer | room/RoomPageClient.js:196-201 | performs `RoomSpec.ReceiveAnswer` |
| RoomPage.Room.OnReceiveIceCandidate | room/RoomPageClient.js:203-206 | performs `RoomSpec.ReceiveIceCandidate` |
| RoomPage.Room.OnUserDisconnected | room/RoomPageClient.js:208-218 | performs `RoomSpec.UserDisconnected` |
| RoomPage.Room.OnTrack | room/RoomPageClient.js:104-112 | performs `RoomSpec.OnTrack` |
| RoomPage.Room.OnLocalIceCandidate | room/RoomPageClient.js:98-102 | performs `RoomSpec.LocalIceCandidate` |
| RoomPage.Room.OnUserCameraToggle | room/RoomPageClient.js:56-60 | performs `RoomSpec.UserCameraToggle` |
| RoomPage.Room.OnScreenShareRequest | room/RoomPageClient.js:66-71 | performs `RoomSpec.ScreenShareRequest` |
| RoomPage.Room.ActuallyShareScreen | room/RoomPageClient.js:337-369 | performs `RoomSpec.ActuallyShareScreen` |
| RoomPage.Room.OnScreenShareResponse | room/RoomPageClient.js:73-79 | performs `RoomSpec.ScreenShareResponded` |
| RoomPage.Room.ShareScreen | room/RoomPageClient.js:317-323 | performs `RoomSpec.ShareScreen` |
| RoomPage.Room.OnScreenTrackEnded | room/RoomPageClient.js:343-357 | performs `RoomSpec.ScreenTrackEnded` |
| RoomPage.Room.StopPreviewVideo | room/RoomPageClient.js:280-283 | performs `RoomSpec.StopPreviewVideo` |
| RoomPage.Room.ShowCamera | room/RoomPageClient.js:290-310 | performs `RoomSpec.CameraBack` |
| RoomPage.Room.StopScreenShare | room/RoomPageClient.js:277-314 | performs `RoomSpec.StopScreenShare` |
| RoomPage.Room.ToggleOwnMic | room/RoomPageClient.js:240-247 | performs `RoomSpec.ToggleOwnMic` |
| RoomPage.Room.ToggleOwnVideo | room/RoomPageClient.js:249-276 | performs `RoomSpec.ToggleOwnVideo` |
| RoomPage.Room.CameraOff | room/RoomPageClient.js:270-275 | performs the camera-off branch of `RoomSpec.ToggleOwnVideo` |
| RoomPage.Room.CameraOn | room/RoomPageClient.js:256-268 | performs `RoomSpec.CameraOn` |
| RoomPage.Room.StopLocalTracks | room/RoomPageClient.js:327 | performs `RoomSpec.StopLocal` |
| RoomPage.Room.ClosePeers | room/RoomPageClient.js:328 | performs `RoomSpec.CloseAll` |
| RoomPage.Room.LeaveRoom | room/RoomPageClient.js:324-336 | performs `RoomSpec.Leave` |
| RoomPage.Room.Unmount | room/RoomPageClient.js:90-236 | performs `RoomSpec.Unmount` |
| RoomPage.Room.ReplaceVideoSenders | room/RoomPageClient.js:260-263 | the `forEach` over `peersRef` calling `replaceTrack` performs `RoomSpec.RetargetPeers` |
| RoomPage.Room.Emit | room/RoomPageClient.js:275 | `socket.emit` appends one message to the emit log and changes nothing else |
| RoomPage.Room.ShowPreview | room/RoomPageClient.js:265-268 | assigning `srcObject` changes only the preview |
| RoomPage.Room.SetStream | room/RoomPageClient.js:130 | assigning `streamRef.current` changes only the local stream |
| RoomPage.Room.AddLocalTrack | room/RoomPageClient.js:258 | `streamRef.current.addTrack` appends the track to the local stream and changes nothing else |
| RoomPage.Room.SetParticipants | room/RoomPageClient.js:136 | `setParticipants` changes only the list |
| RoomPage.Room.SetIsSharingScreen | room/RoomPageClient.js:341 | `setIsSharingScreen` changes only that flag |
| RoomPage.Room.SetIsVideoOff | room/RoomPageClient.js:274 | `setIsVideoOff` changes only that flag |
| RoomPage.Room.CloseConn | room/RoomPageClient.js:210 | `pc.close()` closes that one connection and changes nothing else |
| RoomPage.Room.DropPeer | room/RoomPageClient.js:211 | `peersRef.current.delete` removes that one entry and changes nothing else |
| RoomPage.Room.DropRemoteStream | room/RoomPageClient.js:212-216 | the `setRemoteStreams` updater deleting the id changes only the remote streams |
| RoomPage.Room.NewConn | room/RoomPageClient.js:95-124 | the connection built for the peer has senders for the live local audio and video tracks in stream order and the handler choice given |
| RoomPage.Room.AddConn | room/RoomPageClient.js:96 | `new RTCPeerConnection` adds the connection under the next id and advances the allocator |
| RoomPage.Room.SetPeer | room/RoomPageClient.js:146 | `peersRef.current.set` maps the peer to the connection and changes nothing else |
| RoomPage.Room.Join | room/RoomPageClient.js:130-138 | the rest of `start` performs `RoomSpec.Joined` |
| RoomPage.Room.Listen | room/RoomPageClient.js:138 | registering the socket handlers changes only the `listening` flag |
| RoomPage.Room.EnableTracks | room/RoomPageClient.js:244 | `t.enabled = on` over the tracks performs `EditTracks` with `SetEnabled` |
| RoomPage.Room.SetIsMicMuted | room/RoomPageClient.js:245 | `setIsMicMuted` changes only that flag |
| RoomPage.Room.StopTracks | room/RoomPageClient.js:270 | `track.stop()` over the tracks performs `EditTracks` with `Stop` |
| RoomPage.Room.SetHasLeft | room/RoomPageClient.js:325 | `setHasLeft(true)` changes only that flag |
| RoomPage.Room.ClearPeers | room/RoomPageClient.js:329 | `peersRef.current.clear()` empties the peer map and changes nothing else |
| RoomPage.Room.Disconnect | room/RoomPageClient.js:332 | `socket.disconnect()` changes only the connected flag |
| RoomPage.Room.Unlisten | room/RoomPageClient.js:225-232 | `socket.off` for every handler changes only the `listening` flag |
| PanelSpec.ShareScreen | room/ControlPanel.js:30-59 | a participant only sends the bare request; a host with a display track makes `streamRef` and the preview the audio tracks plus the screen track, points the first video sender of every connection in `peersRef` (the other connections untouched) at it, turns sharing on and sends `screen-share-started`; a failed capture changes nothing |
| PanelSpec.ShareScreenFrame | room/ControlPanel.js:30-59 | sharing leaves `peersRef`, the list and the other flags alone |
| PanelSpec.ShareScreenStream | room/ControlPanel.js:42-44 | the new `streamRef` keeps the old audio tracks and has the screen track as its only video track |
| PanelSpec.SharedPreview | room/ControlPanel.js:42-51 | after the panel's share the screen track is the preview's only video track, and the audio tracks are kept |
| PanelSpec.EndStopsPreviewVideo | room/RoomPageClient.js:277-283 | `stopScreenShare` on a page whose preview shows one video track stops that track, and with a camera and audio turns sharing off and makes `[first audio, camera]` the stream |
| PanelSpec.ShareThenEnd | room/ControlPanel.js:38-40 | when the panel's screen track ends, `stopScreenShare` stops exactly that screen track, and with a camera and audio the page is back on the camera with sharing off |
| PanelSpec.ShareScreenWf | room/ControlPanel.js:30-59 | sharing keeps the invariant |
| PanelSpec.ToggleOwnVideo | room/ControlPanel.js:61-88 | without video tracks nothing; off stops exactly the video tracks, clears the preview and leaves the senders; on adds a new camera to `streamRef` and the first video sender of every connection in `peersRef` (the other connections untouched) and shows it with the audio tracks; no emit |
| PanelSpec.CameraOn | room/ControlPanel.js:69-87 | the camera-on branch changes only the tracks, connections, stream, preview and flag |
| PanelSpec.ToggleOwnVideoFrame | room/ControlPanel.js:61-88 | the toggle changes nothing else |
| PanelSpec.ToggleOwnVideoWf | room/ControlPanel.js:61-88 | the toggle keeps the invariant |
| PanelSpec.CameraOnWf | room/ControlPanel.js:69-87 | the camera-on branch keeps the invariant |
| PanelSpec.CameraOnPreview | room/ControlPanel.js:80-84 | the preview is the old audio tracks followed by the new camera track |
| PanelSpec.OffThenOn | room/ControlPanel.js:61-88 | off then on: the old video tracks stay stopped, the new live camera is appended, and it is the stream's last video track |
| PanelSpec.PageToggleAnnounces | room/ControlPanel.js:61-88 | the panel's toggle and the page's do the same to tracks, connections and stream; they differ only in the page's `camera-toggle` emit and its empty (rather than null) preview when off |
| PanelSpec.Leave | room/ControlPanel.js:90-103 | with a callback the page's state is left to the callback (`Panel.LeaveRoom` reports the delegation); otherwise every local track stopped, every peer closed, `peersRef` empty, the bare `leave-room` sent and disconnected |
| PanelSpec.LeaveWf | room/ControlPanel.js:90-103 | leaving keeps the invariant |
| PanelSpec.PageLeaveIsPanelLeave | room/ControlPanel.js:90-103 | the page's `leaveRoom` is the panel's plus `hasLeft` and the message's payload |
| ControlPanel.Panel.constructor | room/ControlPanel.js:6-20 | the panel holds the page and whether a leave callback was given |
| ControlPanel.Panel.ToggleOwnMic | room/ControlPanel.js:21-28 | performs `RoomSpec.ToggleOwnMic` on the page |
| ControlPanel.Panel.ShareScreen | room/ControlPanel.js:30-59 | performs `PanelSpec.ShareScreen` on the page |
| ControlPanel.Panel.OnScreenTrackEnded | room/ControlPanel.js:38-40 | the screen track's `onended` performs the page's `RoomSpec.StopScreenShare` |
| ControlPanel.Panel.ToggleOwnVideo | room/ControlPanel.js:61-88 | performs `PanelSpec.ToggleOwnVideo` on the page |
| ControlPanel.Panel.TurnCameraOn | room/ControlPanel.js:69-87 | performs `PanelSpec.CameraOn` on the page |
| ControlPanel.Panel.LeaveRoom | room/ControlPanel.js:90-103 | reports whether it handed over to `leaveRoomCallback`, exactly when there is one, and performs `PanelSpec.Leave` on the page |
| Dfsfsdf.ToggleOwnVideo | dfsfsdf.js:1-32 | performs `PanelSpec.ToggleOwnVideo`, so it has all the panel's proved properties |
| Dfsfsdf.RestartVideo | dfsfsdf.js:10-31 | performs `PanelSpec.CameraOn` |
| RecordingSpec.InitialInv | room/RecordingControls.js:13-22 | the controls as first rendered satisfy the recorder invariant in any well-formed room |
| RecordingSpec.RemoteInputs | room/RecordingControls.js:89-96 | every remote stream with an audio track contributes its first audio track, and every input comes from such a stream; no more inputs than streams |
| RecordingSpec.Mix | room/RecordingControls.js:85-96 | the host microphone comes first, then only remote inputs |
| RecordingSpec.MixSize | room/RecordingControls.js:85-96 | the mix has one input per remote stream with audio, plus the microphone; streams without audio are skipped |
| RecordingSpec.RemoteInputsAppend | room/RecordingControls.js:89-96 | the inputs keep the order of the streams |
| Recording.MixAudio | room/RecordingControls.js:85-96 | the loop over the remote streams builds exactly `Mix` |
| RecordingSpec.Start | room/RecordingControls.js:46-132 | nothing unless host and canvas; a failed microphone capture changes nothing, a failed camera capture keeps only the microphone track; on success the camera is drawn, the mix is built, the buffer is empty and recording is on from the camera |
| RecordingSpec.NewTrackInv | room/RecordingControls.js:57-58 | a new track keeps the recorder invariant |
| RecordingSpec.StartInv | room/RecordingControls.js:46-132 | start keeps the recorder invariant |
| RecordingSpec.DataAvailable | room/RecordingControls.js:107-109 | the buffer only grows, keeping its prefix, and nothing else changes |
| RecordingSpec.NonEmpty | room/RecordingControls.js:108 | a chunk is kept iff it arrived and is non-empty |
| RecordingSpec.NonEmptyAppend | room/RecordingControls.js:108 | filtering concatenated arrivals is concatenating the filtered parts |
| RecordingSpec.DeliverKeepsNonEmpty | room/RecordingControls.js:107-109 | a run of chunk events appends exactly their non-empty chunks, in arrival order, and changes nothing else |
| RecordingSpec.StartThenDeliver | room/RecordingControls.js:105-109 | after a start the buffer holds exactly the non-empty chunks delivered since |
| RecordingSpec.DataAvailableInv | room/RecordingControls.js:107-109 | a chunk event keeps the invariant (every buffered chunk non-empty) |
| RecordingSpec.DrawTick | room/RecordingControls.js:68-72 | only the canvas frame changes, and only to the element's picture when drawing and the width is positive; otherwise the last frame stays |
| RecordingSpec.DrawTickInv | room/RecordingControls.js:68-72 | a tick keeps the invariant |
| RecordingSpec.Stop | room/RecordingControls.js:134-141 | without a recorder nothing; otherwise recording and drawing stop and nothing else changes |
| RecordingSpec.StopInv | room/RecordingControls.js:134-141 | stopping keeps the invariant |
| RecordingSpec.Finalize | room/RecordingControls.js:111-114 | `onstop` clears the interval and the recording is exactly the buffered chunks, in order |
| RecordingSpec.RecordingIsNonEmptyChunks | room/RecordingControls.js:105-114 | from start to `onstop` the recording is exactly the non-empty chunks delivered, in order, including those delivered after `stop()` and before `onstop` |
| RecordingSpec.FinalizeInv | room/RecordingControls.js:111-114 | `onstop` keeps the invariant |
| RecordingSpec.Flip | room/RecordingControls.js:146 | the new source differs from the current one |
| RecordingSpec.FlipFlip | room/RecordingControls.js:146 | flipping twice gives the source back |
| RecordingSpec.UseNewTrack | room/RecordingControls.js:168-186 | the room side of a switch changes only the connections, `streamRef`, the preview and the emits |
| RecordingSpec.SwitchRoom | room/RecordingControls.js:150-186 | the capture plus the room side changes only the tracks, connections, stream, preview and emits |
| RecordingSpec.Switch | room/RecordingControls.js:143-194 | no element or failed capture: nothing changes; otherwise the element shows the new track, `streamRef` and the preview are the old audio tracks plus it, the first video sender of every connection in `peersRef` (the other connections untouched) gets it, `screen-share-started` is sent iff the new source is screen, and then the source flips |
| RecordingSpec.SwitchStream | room/RecordingControls.js:168-173 | after a switch the stream keeps its audio tracks and the new track is its only video track |
| RecordingSpec.SwitchRoomWf | room/RecordingControls.js:150-186 | the room side of a switch keeps the room invariant |
| RecordingSpec.SwitchInv | room/RecordingControls.js:143-194 | a switch keeps the recorder invariant |
| RecordingSpec.SwitchTwice | room/RecordingControls.js:143-194 | two switches restore the source after announcing a start and a stop of screen sharing, in the order the source dictates |
| Recording.Recorder.constructor | room/RecordingControls.js:13-22 | the controls start as `RecordingSpec.Initial` |
| Recording.Recorder.StartRecording | room/RecordingControls.js:46-132 | performs `RecordingSpec.Start` on the controls and the page |
| Recording.Recorder.Record | room/RecordingControls.js:62-130 | sets the element, the tick, the mix, the empty buffer and the flags |
| Recording.Recorder.OnDataAvailable | room/RecordingControls.js:107-109 | performs `RecordingSpec.DataAvailable` |
| Recording.Recorder.OnDrawTick | room/RecordingControls.js:68-72 | performs `RecordingSpec.DrawTick` |
| Recording.Recorder.StopRecording | room/RecordingControls.js:134-141 | performs `RecordingSpec.Stop` |
| Recording.Recorder.OnStop | room/RecordingControls.js:111-114 | performs `RecordingSpec.Finalize` and returns the recording |
| Recording.Recorder.SwitchSource | room/RecordingControls.js:143-194 | performs `RecordingSpec.Switch` on the controls and the page |
| Recording.Recorder.UseNewTrack | room/RecordingControls.js:168-186 | performs `RecordingSpec.UseNewTrack` on the page |
| JoinRoom.TrimStart | app/join-room/page.js:16 | no longer than the input, and does not start with JavaScript whitespace |
| JoinRoom.TrimStartSplit | app/join-room/page.js:16 | the input is a run of whitespace followed by the result |
| JoinRoom.TrimEnd | app/join-room/page.js:16 | no longer than the input, and does not end with JavaScript whitespace |
| JoinRoom.TrimEndSplit | app/join-room/page.js:16 | the input is the result followed by a run of whitespace |
| JoinRoom.Trim | app/join-room/page.js:16 | `trim()` gives a string without whitespace at either end, no longer than the input |
| JoinRoom.TrimStartPadded | app/join-room/page.js:16 | leading whitespace before a string that starts with a non-space is removed exactly |
| JoinRoom.TrimEndPadded | app/join-room/page.js:16 | trailing whitespace after a string that ends with a non-space is removed exactly |
| JoinRoom.TrimPadded | app/join-room/page.js:16 | trimming whitespace-padded trimmed text gives the text back |
| JoinRoom.TrimIdempotent | app/join-room/page.js:16 | trimming twice is trimming once |
| JoinRoom.TrimEmpty | app/join-room/page.js:16-17 | the trimmed string is empty iff the input is all whitespace |
| JoinRoom.Utf16Length | app/join-room/page.js:18 | the UTF-16 `length` lies between the number of code points and twice that |
| JoinRoom.Text | app/join-room/page.js:16-18 | every message has a text |
| JoinRoom.ErrorsFound | app/join-room/page.js:14-21 | a name error iff the trimmed name is shorter than two, always 'Name must be at least 2 characters'; a room error iff the trimmed room id is empty |
| JoinRoom.ShortName | app/join-room/page.js:18 | a trimmed name is too short iff it is empty or one character of the Basic Multilingual Plane |
| JoinRoom.NewErrors | app/join-room/page.js:15-18 | the three assignments in order build exactly `Errors` |
| JoinRoom.Recorded | app/join-room/page.js:19 | the stored errors have the same fields and messages |
| JoinRoom.JoinTarget | app/join-room/page.js:23-31 | there is a destination iff there is no error, and it carries the trimmed name and room id and the role |
| JoinRoom.JoinTargetClean | app/join-room/page.js:23-31 | a destination's name is at least two long, its room id is non-empty, and both are already trimmed |
| JoinRoom.ClearError | app/join-room/page.js:37-39 | the field's error is no longer shown, the other fields' errors are unchanged, and nothing changes when none was shown |
| JoinRoom.ClearErrorIdempotent | app/join-room/page.js:37-39 | clearing twice is clearing once |
| JoinRoom.JoinPage.constructor | app/join-room/page.js:8-12 | empty name and room id, role 'participant', not loading, no errors, no navigation |
| JoinRoom.JoinPage.ValidateForm | app/join-room/page.js:14-21 | stores the errors and returns true iff there are none; nothing else changes |
| JoinRoom.JoinPage.HandleJoin | app/join-room/page.js:23-31 | a failed validation only stores the errors; otherwise loading starts and the navigation goes to `JoinTarget` |
| JoinRoom.JoinPage.HandleInputChange | app/join-room/page.js:33-40 | sets the edited field and clears only that field's error, if shown |

## Left out

- Network and signaling I/O: `utils/socket.js` is not part of this model. `socket.emit` is an output log, and incoming messages are handler calls.
- SDP: `createOffer`, `createAnswer` and `setLocalDescription` are not modelled. Descriptions and candidates are opaque values, and a connection's state moves as the code's `signalingState` checks expect.
- Async interleaving: each handler is one atomic step, and the `await`s inside a handler are not interleaved with other events.
- Timers: the 30 fps `setInterval` is modelled as single ticks. The 500 ms `setTimeout` of `handleJoin` is taken as already fired. Real time and `Date.now()` are not modelled.
- Browser dialogs and navigation: `alert`, `confirm` (a `bool` parameter) and `window.location` are not modelled. This includes the `camera-toggle-rejected` handler, which only alerts.
- Capture: `getUserMedia`/`getDisplayMedia` are modelled only as may-fail producers of fresh tracks.
- Media encoding and drawing are not modelled: `MediaRecorder` encoding, `captureStream`, the `AudioContext` graph, canvas `drawImage` and `play()` (taken to succeed).
- Upload and download of the recording (`uploadRecording`, the download anchor) are not modelled. The recording is the returned chunk sequence.
- `encodeURIComponent`: the navigation target is modelled as its decoded query parameters.
- The role select's `setRole` (app/join-room/page.js:115) is not modelled as an operation. The role is a field of `JoinPage`.
- The contents of `remoteStreams` as `MediaStream` objects are not modelled. The recorder receives them as a parameter listing each stream's audio tracks.
- Recording.Recorder.SwitchSource: assumes the page's preview element is mounted, so the `if (localVideoRef.current)` guard at line 173 always holds.
- Events after a disconnect: the socket delivers nothing once `socket.disconnect()` has run, but the handlers here are guarded only by `listening`. After `RoomSpec.Leave` the model still lets a handler act, so it allows more event sequences than the page can see.
- The `stopScreenShare` prop of the control panel is taken to be the page's `stopScreenShare`. No file of this model renders the panel.
- RoomSpec.ScreenTrackEnded: does not require a share to be in progress, and does not mark the screen track as ended. The browser, not the code, sets its `readyState`. The handler is meant to run after `RoomSpec.ActuallyShareScreen`.
- Sender objects: a connection records the tracks of its senders, not `RTCRtpSender` objects. Audio and video senders are two sequences, so their interleaving in `getSenders()` is not kept; only the first video sender is ever looked up.
- The presentation layer is not part of this model: `VideoBox`, `app/room/page.js`, `room/ChatBox.js` and the JSX.
- `app/join/page.js` is not part of this model. It only calls the `livekit-client` library and an HTTP token service.
- Behaviour the code does not have is not asserted: glare resolution, ICE-candidate buffering, idempotent offers on a replayed roster, a guard against overlapping swaps, and updating the recording mix as participants join or leave.
