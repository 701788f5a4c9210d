/**
 * The participants list of the room page and the pure state updaters the
 * socket handlers pass to `setParticipants` (filters, maps and spreads over
 * the previous list).
 */
module Participants {
  import opened Media

  /**
   * One entry of the participants list. Entries built by the page from a
   * `{socketId, name}` pair leave the two flags undefined, which reads as false.
   */
  datatype Participant = Participant(socketId: PeerId, name: string, isCameraOff: bool, isSharingScreen: bool)

  /** The socket ids listed: `prev.find(p => p.socketId === id)` succeeds iff `id in Ids(prev)`. */
  function Ids(ps: seq<Participant>): set<PeerId>
  {
    set p | p in ps :: p.socketId
  }

  /** `users.filter(u => !prev.find(p => p.socketId === u.socketId))`. */
  function Unlisted(users: seq<Participant>, prev: seq<Participant>): (r: seq<Participant>)
    ensures forall u :: u in r <==> u in users && u.socketId !in Ids(prev)
    ensures |r| <= |users|
  {
    if users == [] then []
    else (if users[0].socketId in Ids(prev) then [] else [users[0]]) + Unlisted(users[1..], prev)
  }

  /** The `all-users` updater `[...prev, ...newUsers]`. */
  function AppendNewUsers(prev: seq<Participant>, users: seq<Participant>): (r: seq<Participant>)
    ensures r == prev + Unlisted(users, prev)
    ensures |prev| <= |r| && r[..|prev|] == prev
    ensures forall u :: u in r[|prev|..] <==> u in users && u.socketId !in Ids(prev)
    ensures Ids(r) == Ids(prev) + Ids(users)
  {
    var r := prev + Unlisted(users, prev);
    assert r[|prev|..] == Unlisted(users, prev);
    forall id | id in Ids(users) ensures id in Ids(r) {
      var u :| u in users && u.socketId == id;
      if id !in Ids(prev) { assert u in r[|prev|..]; }
    }
    r
  }

  /** Filtering keeps one user exactly when it is not listed. */
  lemma UnlistedOne(u: Participant, prev: seq<Participant>)
    ensures Unlisted([u], prev) == if u.socketId in Ids(prev) then [] else [u]
  {
    assert [u][1..] == [];
  }

  /**
   * Filtering distributes over concatenation: together with `UnlistedOne`
   * this says the kept users stay in roster order.
   */
  lemma {:induction false} UnlistedAppend(a: seq<Participant>, b: seq<Participant>, prev: seq<Participant>)
    ensures Unlisted(a + b, prev) == Unlisted(a, prev) + Unlisted(b, prev)
  {
    if a != [] {
      assert (a + b)[0] == a[0];
      assert (a + b)[1..] == a[1..] + b;
      UnlistedAppend(a[1..], b, prev);
    } else {
      assert a + b == b;
    }
  }

  /** Once every user of a batch is listed, filtering the batch leaves nothing. */
  lemma {:induction false} UnlistedOfListed(users: seq<Participant>, prev: seq<Participant>)
    requires Ids(users) <= Ids(prev)
    ensures Unlisted(users, prev) == []
  {
    if users != [] {
      assert users[0] in users;
      assert Ids(users[1..]) <= Ids(users) by {
        forall id | id in Ids(users[1..]) ensures id in Ids(users) {
          var u :| u in users[1..] && u.socketId == id;
          assert u in users;
        }
      }
      UnlistedOfListed(users[1..], prev);
    }
  }

  /** Replaying the same roster adds no participant a second time. */
  lemma AppendNewUsersIdempotent(prev: seq<Participant>, users: seq<Participant>)
    ensures AppendNewUsers(AppendNewUsers(prev, users), users) == AppendNewUsers(prev, users)
  {
    var once := AppendNewUsers(prev, users);
    UnlistedOfListed(users, once);
  }

  /** The `user-connected` updater: `prev` if the id is listed, otherwise `[...prev, entry]`. */
  function AddIfAbsent(prev: seq<Participant>, entry: Participant): (r: seq<Participant>)
    ensures entry.socketId in Ids(prev) ==> r == prev
    ensures entry.socketId !in Ids(prev) ==> r == prev + [entry]
    ensures Ids(r) == Ids(prev) + {entry.socketId}
  {
    if entry.socketId in Ids(prev) then prev
    else
      var r := prev + [entry];
      assert entry in r;
      r
  }

  /** Announcing the same user twice changes the list once. */
  lemma AddIfAbsentIdempotent(prev: seq<Participant>, entry: Participant)
    ensures AddIfAbsent(AddIfAbsent(prev, entry), entry) == AddIfAbsent(prev, entry)
  {
  }

  /** The `user-disconnected` updater `prev.filter(p => p.socketId !== id)`. */
  function RemoveById(prev: seq<Participant>, id: PeerId): (r: seq<Participant>)
    ensures forall p :: p in r <==> p in prev && p.socketId != id
    ensures id !in Ids(r)
    ensures Ids(r) == Ids(prev) - {id}
    ensures |r| <= |prev|
    ensures id !in Ids(prev) ==> r == prev
  {
    if prev == [] then []
    else
      var rest := RemoveById(prev[1..], id);
      assert prev == [prev[0]] + prev[1..];
      if prev[0].socketId == id then rest else [prev[0]] + rest
  }

  /** Removing by id keeps one entry exactly when its id differs. */
  lemma RemoveByIdOne(p: Participant, id: PeerId)
    ensures RemoveById([p], id) == if p.socketId == id then [] else [p]
  {
    assert [p][1..] == [];
  }

  /**
   * Removal distributes over concatenation: together with `RemoveByIdOne`
   * this says the remaining entries keep their order.
   */
  lemma {:induction false} RemoveByIdAppend(a: seq<Participant>, b: seq<Participant>, id: PeerId)
    ensures RemoveById(a + b, id) == RemoveById(a, id) + RemoveById(b, id)
  {
    if a != [] {
      assert (a + b)[0] == a[0];
      assert (a + b)[1..] == a[1..] + b;
      RemoveByIdAppend(a[1..], b, id);
    } else {
      assert a + b == b;
    }
  }

  /** The `user-camera-toggle` updater: entries whose NAME equals `userId` get the flag. */
  function SetCameraOffByName(prev: seq<Participant>, userId: string, off: bool): (r: seq<Participant>)
    ensures |r| == |prev|
    ensures forall i :: 0 <= i < |prev| ==>
      r[i].socketId == prev[i].socketId && r[i].name == prev[i].name
      && r[i].isSharingScreen == prev[i].isSharingScreen
      && r[i].isCameraOff == (if prev[i].name == userId then off else prev[i].isCameraOff)
  {
    seq(|prev|, i requires 0 <= i < |prev| =>
      if prev[i].name == userId then prev[i].(isCameraOff := off) else prev[i])
  }

  /** The `stopScreenShare` updater: the entry with socket id `id` gets `isSharingScreen`. */
  function SetSharingById(prev: seq<Participant>, id: PeerId, sharing: bool): (r: seq<Participant>)
    ensures |r| == |prev|
    ensures forall i :: 0 <= i < |prev| ==>
      r[i].socketId == prev[i].socketId && r[i].name == prev[i].name
      && r[i].isCameraOff == prev[i].isCameraOff
      && r[i].isSharingScreen == (if prev[i].socketId == id then sharing else prev[i].isSharingScreen)
  {
    seq(|prev|, i requires 0 <= i < |prev| =>
      if prev[i].socketId == id then prev[i].(isSharingScreen := sharing) else prev[i])
  }
}
