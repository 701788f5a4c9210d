/**
 * Opaque media handles and the bookkeeping the room code performs on them.
 *
 * A MediaStreamTrack is an id into a table of Track records (kind, whether its
 * readyState is 'live', and its `enabled` flag); an RTCPeerConnection is an id
 * into a table of Conn records. Keeping the tables separate from the places
 * that refer to them (the local stream, the preview, the peer map, the
 * senders) keeps the aliasing of the browser objects: stopping a track is seen
 * through every stream that holds it, and a connection dropped from the peer
 * map still exists, open or closed.
 */
module Media {

  type TrackId = nat
  type ConnId = nat
  type StreamId = nat
  type PeerId = string
  type Candidate = nat
  type Description = nat

  datatype Option<+T> = None | Some(value: T)

  datatype Kind = Audio | Video

  /** A MediaStreamTrack: its kind, `readyState === 'live'`, and `enabled`. */
  datatype Track = Track(kind: Kind, live: bool, enabled: bool)

  /** The signaling states the room code can bring a connection into. */
  datatype SignalingState = Stable | HaveLocalOffer | Closed

  /**
   * An RTCPeerConnection as far as the room code touches it: the remote socket
   * id it was created for, its signaling state, whether an `ontrack` handler
   * was set, the tracks of the audio senders and of the video senders in
   * `addTrack` order (the first video sender is the one
   * `getSenders().find(s => s.track?.kind === 'video')` finds), the remote
   * description once set, and the candidates handed to `addIceCandidate`.
   */
  datatype Conn = Conn(
    remote: PeerId,
    state: SignalingState,
    hasOnTrack: bool,
    audioSenders: seq<TrackId>,
    videoSenders: seq<TrackId>,
    remoteDescription: Option<Description>,
    candidates: seq<Candidate>)

  /** `getAudioTracks()` / `getVideoTracks()`: the tracks of `stream` of kind `k`, in stream order. */
  function OfKind(tracks: map<TrackId, Track>, stream: seq<TrackId>, k: Kind): (r: seq<TrackId>)
    ensures forall t :: t in r <==> t in stream && t in tracks && tracks[t].kind == k
    ensures |r| <= |stream|
  {
    if stream == [] then []
    else
      var last := stream[|stream| - 1];
      OfKind(tracks, stream[..|stream| - 1], k)
        + (if last in tracks && tracks[last].kind == k then [last] else [])
  }

  /** Filtering a stream with one more track at the end. */
  lemma OfKindSnoc(tracks: map<TrackId, Track>, stream: seq<TrackId>, t: TrackId, k: Kind)
    ensures OfKind(tracks, stream + [t], k)
         == OfKind(tracks, stream, k) + (if t in tracks && tracks[t].kind == k then [t] else [])
  {
    assert (stream + [t])[..|stream|] == stream;
  }

  /** Filtering an already filtered stream again changes nothing. */
  lemma {:induction false} OfKindOfKind(tracks: map<TrackId, Track>, stream: seq<TrackId>, k: Kind)
    ensures OfKind(tracks, OfKind(tracks, stream, k), k) == OfKind(tracks, stream, k)
  {
    if stream != [] {
      var init, last := stream[..|stream| - 1], stream[|stream| - 1];
      var once := OfKind(tracks, init, k);
      OfKindOfKind(tracks, init, k);
      if last in tracks && tracks[last].kind == k {
        assert OfKind(tracks, stream, k) == once + [last];
        OfKindSnoc(tracks, once, last, k);
      } else {
        assert OfKind(tracks, stream, k) == once;
      }
    }
  }

  /** Filtering the tracks of one kind for another kind leaves nothing. */
  lemma {:induction false} OfKindOther(tracks: map<TrackId, Track>, stream: seq<TrackId>, k: Kind, j: Kind)
    requires j != k
    ensures OfKind(tracks, OfKind(tracks, stream, k), j) == []
  {
    if stream != [] {
      var init, last := stream[..|stream| - 1], stream[|stream| - 1];
      var once := OfKind(tracks, init, k);
      OfKindOther(tracks, init, k, j);
      if last in tracks && tracks[last].kind == k {
        assert OfKind(tracks, stream, k) == once + [last];
        OfKindSnoc(tracks, once, last, j);
      } else {
        assert OfKind(tracks, stream, k) == once;
      }
    }
  }

  /** Filtering by kind only looks at the kinds of the listed tracks. */
  lemma {:induction false} OfKindSameKinds(a: map<TrackId, Track>, b: map<TrackId, Track>, stream: seq<TrackId>, k: Kind)
    requires forall t :: t in stream ==> (t in a <==> t in b) && (t in a ==> a[t].kind == b[t].kind)
    ensures OfKind(a, stream, k) == OfKind(b, stream, k)
  {
    if stream != [] {
      var init := stream[..|stream| - 1];
      assert forall t :: t in init ==> t in stream;
      OfKindSameKinds(a, b, init, k);
    }
  }

  /**
   * A fresh video track `n` placed after the audio tracks of `stream`: the new
   * stream's audio tracks are the old ones and its only video track is `n`.
   */
  lemma FreshVideoAfterAudio(tracks: map<TrackId, Track>, stream: seq<TrackId>, n: TrackId, tr: map<TrackId, Track>)
    requires forall t :: t in stream ==> t in tracks
    requires n !in tracks && tr == tracks[n := Track(Video, true, true)]
    ensures OfKind(tr, stream, Audio) == OfKind(tracks, stream, Audio)
    ensures OfKind(tr, OfKind(tracks, stream, Audio) + [n], Audio) == OfKind(tracks, stream, Audio)
    ensures OfKind(tr, OfKind(tracks, stream, Audio) + [n], Video) == [n]
  {
    var audio := OfKind(tracks, stream, Audio);
    OfKindSameKinds(tracks, tr, stream, Audio);
    OfKindSnoc(tr, audio, n, Audio);
    OfKindSnoc(tr, audio, n, Video);
    OfKindSameKinds(tracks, tr, audio, Audio);
    OfKindSameKinds(tracks, tr, audio, Video);
    OfKindOfKind(tracks, stream, Audio);
    OfKindOther(tracks, stream, Audio, Video);
  }

  /** The tracks of `stream` of kind `k` whose readyState is 'live', in stream order. */
  function LiveOfKind(tracks: map<TrackId, Track>, stream: seq<TrackId>, k: Kind): (r: seq<TrackId>)
    ensures forall t :: t in r <==> t in stream && t in tracks && tracks[t].kind == k && tracks[t].live
    ensures |r| <= |stream|
  {
    if stream == [] then []
    else
      var last := stream[|stream| - 1];
      LiveOfKind(tracks, stream[..|stream| - 1], k)
        + (if last in tracks && tracks[last].kind == k && tracks[last].live then [last] else [])
  }

  /**
   * The `getTracks().forEach(track => { if live, pc.addTrack(track) })` loop of
   * `createPeer`: every live track gets a sender, so the live audio tracks and
   * the live video tracks of the stream, each in stream order.
   */
  method AddLiveTracks(tracks: map<TrackId, Track>, stream: seq<TrackId>)
    returns (audio: seq<TrackId>, video: seq<TrackId>)
    ensures audio == LiveOfKind(tracks, stream, Audio)
    ensures video == LiveOfKind(tracks, stream, Video)
  {
    audio, video := [], [];
    var i := 0;
    while i < |stream|
      invariant 0 <= i <= |stream|
      invariant audio == LiveOfKind(tracks, stream[..i], Audio)
      invariant video == LiveOfKind(tracks, stream[..i], Video)
    {
      var t := stream[i];
      assert stream[..i + 1][..i] == stream[..i];
      if t in tracks && tracks[t].live {
        if tracks[t].kind == Audio {
          audio := audio + [t];
        } else {
          video := video + [t];
        }
      }
      i := i + 1;
    }
    assert stream[..|stream|] == stream;
  }

  /** What a `forEach` over the peer map does to one connection. */
  datatype ConnEdit =
    | Retarget(track: TrackId)  // the first video sender, if any, gets `replaceTrack(track)`
    | Close                     // `pc.close()`

  function ApplyConn(e: ConnEdit, c: Conn): (r: Conn)
    ensures |r.videoSenders| == |c.videoSenders|
    ensures e.Retarget? && c.videoSenders != [] ==>
      r.videoSenders[0] == e.track && r.videoSenders[1..] == c.videoSenders[1..]
    ensures !(e.Retarget? && c.videoSenders != []) ==> r.videoSenders == c.videoSenders
    ensures r.remote == c.remote && r.hasOnTrack == c.hasOnTrack && r.audioSenders == c.audioSenders
    ensures r.state == (if e.Close? then Closed else c.state)
  {
    match e
    case Retarget(t) => if c.videoSenders != [] then c.(videoSenders := [t] + c.videoSenders[1..]) else c
    case Close => c.(state := Closed)
  }

  /** The connection table after `e` was applied to every connection in `targets`. */
  function EditConns(conns: map<ConnId, Conn>, targets: set<ConnId>, e: ConnEdit): (r: map<ConnId, Conn>)
    ensures r.Keys == conns.Keys
    ensures forall c :: c in conns && c !in targets ==> r[c] == conns[c]
  {
    map c | c in conns :: if c in targets then ApplyConn(e, conns[c]) else conns[c]
  }

  /** A `peersRef.current.forEach(pc => ...)` loop applying `e` to each connection. */
  method ForEachConn(conns: map<ConnId, Conn>, targets: set<ConnId>, e: ConnEdit)
    returns (r: map<ConnId, Conn>)
    ensures r == EditConns(conns, targets, e)
  {
    r := conns;
    var todo := targets;
    while todo != {}
      invariant todo <= targets
      invariant r.Keys == conns.Keys
      invariant forall c :: c in conns ==>
        r[c] == if c in targets - todo then ApplyConn(e, conns[c]) else conns[c]
      decreases todo
    {
      var c :| c in todo;
      if c in r {
        r := r[c := ApplyConn(e, r[c])];
      }
      todo := todo - {c};
    }
  }

  /** What a `forEach` over an array of tracks does to one track. */
  datatype TrackEdit =
    | Stop                      // `track.stop()`
    | SetEnabled(on: bool)      // `track.enabled = on`

  function ApplyTrack(e: TrackEdit, t: Track): Track
  {
    match e
    case Stop => t.(live := false)
    case SetEnabled(on) => t.(enabled := on)
  }

  /** The track table after `e` was applied to every track listed in `ids`. */
  function EditTracks(tracks: map<TrackId, Track>, ids: seq<TrackId>, e: TrackEdit): (r: map<TrackId, Track>)
    ensures r.Keys == tracks.Keys
    ensures forall t :: t in tracks && t !in ids ==> r[t] == tracks[t]
    ensures forall t :: t in tracks ==> r[t].kind == tracks[t].kind
  {
    map t | t in tracks :: if t in ids then ApplyTrack(e, tracks[t]) else tracks[t]
  }

  /** A `tracks.forEach(track => ...)` loop applying `e` to each listed track. */
  method ForEachTrack(tracks: map<TrackId, Track>, ids: seq<TrackId>, e: TrackEdit)
    returns (r: map<TrackId, Track>)
    ensures r == EditTracks(tracks, ids, e)
  {
    r := tracks;
    var i := 0;
    while i < |ids|
      invariant 0 <= i <= |ids|
      invariant r.Keys == tracks.Keys
      invariant forall t :: t in tracks ==>
        r[t] == if t in ids[..i] then ApplyTrack(e, tracks[t]) else tracks[t]
    {
      var t := ids[i];
      assert forall u :: u in ids[..i + 1] <==> u in ids[..i] || u == t;
      if t in r {
        r := r[t := ApplyTrack(e, r[t])];
      }
      i := i + 1;
    }
    assert ids[..|ids|] == ids;
  }
}
