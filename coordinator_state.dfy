/**
 * The coordinator's registries (server.js) as values, and one specification
 * function per handler giving the registries and the emitted events after it.
 * The `Registry` class in `CoordinatorRegistry` performs the same updates
 * step by step and is proved equal to these functions.
 */
module Coordinator {
  import opened Common
  import opened Encoding
  import ServerCrypto

  const RoomNotFound := "Room not found"
  const RoomExpiredError := "Room expired"
  const InvalidPassword := "Invalid password"
  const NoChallenge := "No challenge found"

  /** Challenges older than five minutes are swept. */
  const ChallengeTimeout := 5 * 60 * 1000

  // ------------------------------------------------------------ records

  /** A connected socket's entry in `peers`. */
  datatype Peer = Peer(
    roomId: Option<RoomId>,
    identity: Option<Identity>,
    publicKey: Option<string>,
    globalFiles: seq<FileId>,
    roomFiles: seq<FileId>)

  datatype Activity = Activity(timestamp: int, peerId: SocketId, identity: string, action: string, fileName: Option<string>)

  /** A private room; its `peers` set and `files` / `publicKeys` maps change as sockets join and share. */
  datatype Room = Room(
    createdAt: int,
    expiresAt: Option<int>,
    passwordHash: Option<string>,
    peers: set<SocketId>,
    files: map<FileId, FileRecord>,
    publicKeys: map<SocketId, string>,
    activityLog: seq<Activity>)

  /** A pending password challenge, with what the socket sent along with `join-room`. */
  datatype Challenge = Challenge(challenge: string, timestamp: int, roomId: RoomId, identity: Option<Identity>, publicKey: Option<string>)

  /** One entry of the `room-joined` member list. */
  datatype Member = Member(identity: Option<Identity>, publicKey: Option<string>)

  datatype SignalKind = Offer | Answer | IceCandidate

  datatype Event =
    | RoomError(error: string)
    | PasswordChallenge(challenge: string)
    | RoomJoined(roomId: RoomId, members: map<SocketId, Member>, files: map<FileId, FileRecord>, publicKeys: map<SocketId, string>)
    | PeerJoinedRoom(peerId: SocketId, identity: Option<Identity>, publicKey: Option<string>)
    | PeersList(peers: map<SocketId, Peer>)
    | FilesList(files: map<FileId, FileRecord>)
    | PeerJoined(id: SocketId)
    | FileAvailable(file: FileRecord)
    | FileSharedConfirmation(fileId: FileId, originalName: string)
    | Signal(kind: SignalKind, payload: string, fromPeerId: SocketId)
    | FileRemoved(fileId: FileId, fileRoomId: Option<RoomId>)
    | PeerLeftRoom(leaverId: SocketId, filesRemoved: seq<FileId>)
    | PeerLeft(leftId: SocketId)
    | RoomExpired(expiredRoomId: RoomId)

  /** An event and the sockets it reaches. */
  datatype Emit = Emit(to: set<SocketId>, event: Event)

  /**
   * The four registries, and the Socket.io transport rooms (`socket.join` /
   * `socket.leave`), which `io.to(roomId)` addresses. The keys of `peers` are
   * exactly the connected sockets.
   */
  datatype State = State(
    peers: map<SocketId, Peer>,
    sharedFiles: map<FileId, FileRecord>,
    rooms: map<RoomId, Room>,
    challenges: map<SocketId, Challenge>,
    ioRooms: map<string, set<SocketId>>)

  /** What a handler leaves behind: the new registries and the events, in emission order. */
  datatype Step = Step(state: State, emits: seq<Emit>)

  // ------------------------------------------------------------ helpers

  /** `room.expiresAt && now > room.expiresAt`. */
  predicate Expired(room: Room, now: int) {
    TruthyNumber(room.expiresAt) && now > room.expiresAt.value
  }

  /** `identity?.displayName || 'Anonymous'`. */
  function DisplayName(identity: Option<Identity>): string {
    if identity.Some? && identity.value.displayName != "" then identity.value.displayName else "Anonymous"
  }

  /** The sockets that joined the transport room `name`. */
  function Joined(s: State, name: string): set<SocketId> {
    if name in s.ioRooms then s.ioRooms[name] else {}
  }

  /** The audience of `io.to(name)`: the joined sockets, and the socket whose own id is `name`. */
  function Audience(s: State, name: string): set<SocketId> {
    Joined(s, name) + (if name in s.peers then {name} else {})
  }

  /** The audience of `io.emit`. */
  function Everyone(s: State): set<SocketId> {
    s.peers.Keys
  }

  /** The `room-joined` member list: every id in the room, with its identity and public key. */
  function Snapshot(s: State, room: Room): (m: map<SocketId, Member>)
    ensures m.Keys == room.peers
  {
    map p | p in room.peers ::
      Member(if p in s.peers then s.peers[p].identity else None,
             if p in room.publicKeys then Some(room.publicKeys[p]) else None)
  }

  /** A map after `ids.forEach(id => m.delete(id))`. */
  function Without<V>(m: map<FileId, V>, ids: seq<FileId>): map<FileId, V> {
    map k | k in m && k !in ids :: m[k]
  }

  /** The id `share-file` gives a file: socket id, clock reading and name, joined by `-`. */
  function FileIdOf(id: SocketId, now: int, name: string): FileId {
    id + "-" + Decimal(now) + "-" + name
  }

  /** `peer?.roomId` is truthy: the socket shares into a room. */
  predicate InRoom(s: State, id: SocketId) {
    id in s.peers && Truthy(s.peers[id].roomId)
  }

  /** The string `verifyProof` concatenates with the challenge: a null hash reads `"null"`. */
  function StoredHashText(room: Room): string {
    if room.passwordHash.Some? then room.passwordHash.value else "null"
  }

  // ------------------------------------------------------------ the invariant

  /**
   * What every handler keeps true: challenges and transport rooms belong to
   * connected sockets, a room's public keys belong to its members, a file is
   * filed under its own id and scope, and a socket whose room still exists
   * is a member of it.
   */
  predicate Valid(s: State) {
    && s.challenges.Keys <= s.peers.Keys
    && (forall name :: name in s.ioRooms ==> s.ioRooms[name] <= s.peers.Keys)
    && (forall r :: r in s.rooms ==> s.rooms[r].publicKeys.Keys <= s.rooms[r].peers)
    && (forall r, f :: r in s.rooms && f in s.rooms[r].files ==>
          s.rooms[r].files[f].id == f && s.rooms[r].files[f].roomId == Some(r))
    && (forall f :: f in s.sharedFiles ==> s.sharedFiles[f].id == f && s.sharedFiles[f].roomId == None)
    && (forall p :: p in s.peers && s.peers[p].roomId.Some? && s.peers[p].roomId.value in s.rooms ==>
          p in s.rooms[s.peers[p].roomId.value].peers)
  }

  // ------------------------------------------------------------ rooms over HTTP

  /**
   * The room `POST /api/rooms/create` stores: empty, hashed password exactly
   * when a password is given, expiry exactly when `expiresIn` is truthy.
   */
  function NewRoom(sha256: Hasher, password: Option<string>, expiresIn: Option<int>, now: int): (room: Room)
    ensures room.peers == {} && room.files == map[] && room.publicKeys == map[] && room.activityLog == []
    ensures room.createdAt == now
    ensures room.passwordHash.Some? <==> Truthy(password)
    ensures Truthy(password) ==> room.passwordHash == Some(ServerCrypto.HashPassword(sha256, password.value))
    ensures room.expiresAt.Some? <==> TruthyNumber(expiresIn)
    ensures TruthyNumber(expiresIn) ==> room.expiresAt == Some(now + expiresIn.value)
  {
    Room(now,
         if TruthyNumber(expiresIn) then Some(now + expiresIn.value) else None,
         if Truthy(password) then Some(ServerCrypto.HashPassword(sha256, password.value)) else None,
         {}, map[], map[], [])
  }

  datatype InfoResponse =
    | NotFound
    | Gone
    | Info(id: RoomId, requiresPassword: bool, peerCount: nat, fileCount: nat, createdAt: int, expiresAt: Option<int>)

  /**
   * `GET /api/rooms/:roomId`: the rooms after the call and the response. An
   * expired room is deleted and reported gone; otherwise nothing changes and
   * the public summary is returned.
   */
  function RoomInfoStep(rooms: map<RoomId, Room>, roomId: RoomId, now: int): (r: (map<RoomId, Room>, InfoResponse))
    ensures r.1.NotFound? <==> roomId !in rooms
    ensures r.1.Gone? <==> roomId in rooms && Expired(rooms[roomId], now)
    ensures r.0 == if r.1.Gone? then rooms - {roomId} else rooms
    ensures r.1.Info? ==> && r.1.id == roomId
                          && r.1.requiresPassword == Truthy(rooms[roomId].passwordHash)
                          && r.1.peerCount == |rooms[roomId].peers|
                          && r.1.fileCount == |rooms[roomId].files|
                          && r.1.expiresAt == rooms[roomId].expiresAt
  {
    if roomId !in rooms then (rooms, NotFound)
    else
      var room := rooms[roomId];
      if Expired(room, now) then (rooms - {roomId}, Gone)
      else (rooms, Info(roomId, Truthy(room.passwordHash), |room.peers|, |room.files|, room.createdAt, room.expiresAt))
  }

  // ------------------------------------------------------------ sockets

  /** The entry a new connection stores. */
  const FreshPeer := Peer(None, None, None, [], [])

  /**
   * A new connection: registered with no room, sent every peer and every
   * global file, and announced to every other socket.
   */
  function ConnectStep(s: State, id: SocketId): Step
  {
    var st := s.(peers := s.peers[id := FreshPeer]);
    Step(st, [Emit({id}, PeersList(st.peers)), Emit({id}, FilesList(st.sharedFiles)), Emit(Everyone(st) - {id}, PeerJoined(id))])
  }

  lemma ConnectEffects(s: State, id: SocketId, r: Step)
    requires r == ConnectStep(s, id)
    ensures r.state == s.(peers := s.peers[id := FreshPeer])
    ensures |r.emits| == 3
    ensures r.emits[0].to == {id} && r.emits[0].event == PeersList(r.state.peers) && id in r.emits[0].event.peers
    ensures r.emits[1] == Emit({id}, FilesList(s.sharedFiles))
    ensures r.emits[2].to == Everyone(r.state) - {id} && r.emits[2].event == PeerJoined(id)
  {
  }

  /**
   * Admission into a room, shared by `join-room` and `password-proof`: the
   * socket becomes a member and the room becomes its room, a truthy public
   * key is recorded, the joiner gets a snapshot listing exactly the room's
   * members and files, and the other members are told.
   */
  function Admit(s: State, id: SocketId, roomId: RoomId, identity: Option<Identity>, publicKey: Option<string>, now: int): Step
    requires id in s.peers && roomId in s.rooms
  {
    var peer := s.peers[id];
    var room := s.rooms[roomId];
    var peer1 := peer.(identity := if identity.Some? then identity else peer.identity,
                       publicKey := if Truthy(publicKey) then publicKey else peer.publicKey,
                       roomId := Some(roomId));
    var room1 := room.(peers := room.peers + {id},
                       publicKeys := if Truthy(publicKey) then room.publicKeys[id := publicKey.value] else room.publicKeys,
                       activityLog := room.activityLog + [Activity(now, id, DisplayName(identity), "joined", None)]);
    var st := State(s.peers[id := peer1], s.sharedFiles, s.rooms[roomId := room1], s.challenges,
                    s.ioRooms[roomId := Joined(s, roomId) + {id}]);
    Step(st, [Emit({id}, RoomJoined(roomId, Snapshot(st, room1), room1.files, room1.publicKeys)),
              Emit(Audience(st, roomId) - {id}, PeerJoinedRoom(id, identity, publicKey))])
  }

  lemma AdmitEffects(s: State, id: SocketId, roomId: RoomId, identity: Option<Identity>, publicKey: Option<string>, now: int, r: Step)
    requires id in s.peers && roomId in s.rooms
    requires r == Admit(s, id, roomId, identity, publicKey, now)
    ensures roomId in r.state.rooms && r.state.peers.Keys == s.peers.Keys
    ensures r.state.rooms[roomId].peers == s.rooms[roomId].peers + {id}
    ensures r.state.peers[id].roomId == Some(roomId)
    ensures r.state.peers[id].identity == if identity.Some? then identity else s.peers[id].identity
    ensures r.state.rooms[roomId].publicKeys ==
              if Truthy(publicKey) then s.rooms[roomId].publicKeys[id := publicKey.value] else s.rooms[roomId].publicKeys
    ensures r.state.rooms[roomId].files == s.rooms[roomId].files
    ensures r.state.peers[id].roomFiles == s.peers[id].roomFiles && r.state.peers[id].globalFiles == s.peers[id].globalFiles
    ensures forall p :: p in s.peers && p != id ==> r.state.peers[p] == s.peers[p]
    ensures forall q :: q in s.rooms && q != roomId ==> q in r.state.rooms && r.state.rooms[q] == s.rooms[q]
    ensures r.state.rooms.Keys == s.rooms.Keys
    ensures r.state.sharedFiles == s.sharedFiles && r.state.challenges == s.challenges
    ensures Joined(r.state, roomId) == Joined(s, roomId) + {id}
    ensures forall n :: n != roomId ==> Joined(r.state, n) == Joined(s, n)
    ensures |r.emits| == 2
    ensures r.emits[0].to == {id} && r.emits[0].event.RoomJoined?
    ensures r.emits[0].event.members.Keys == r.state.rooms[roomId].peers
    ensures r.emits[0].event.files == r.state.rooms[roomId].files
    ensures r.emits[1].to == Audience(r.state, roomId) - {id} && r.emits[1].event == PeerJoinedRoom(id, identity, publicKey)
  {
  }

  /** `join-room` admits the socket at once: the room exists, is not expired, and needs no password or gets the right one. */
  predicate JoinAdmits(s: State, roomId: RoomId, password: Option<string>, sha256: Hasher, now: int) {
    && roomId in s.rooms
    && !Expired(s.rooms[roomId], now)
    && (Truthy(s.rooms[roomId].passwordHash) ==>
          Truthy(password) && ServerCrypto.HashPassword(sha256, password.value) == s.rooms[roomId].passwordHash.value)
  }

  /** `join-room` answers a challenge: a password room and no password. */
  predicate JoinChallenges(s: State, roomId: RoomId, password: Option<string>, now: int) {
    roomId in s.rooms && !Expired(s.rooms[roomId], now) && Truthy(s.rooms[roomId].passwordHash) && !Truthy(password)
  }

  /**
   * `join-room`. Rejections leave every peer entry and the room's members
   * alone and answer the joiner only; an expired room is deleted; a password
   * room asked without a password stores (or replaces) the socket's
   * challenge; otherwise the socket is admitted.
   */
  function JoinRoomStep(s: State, id: SocketId, roomId: RoomId, password: Option<string>, identity: Option<Identity>,
                        publicKey: Option<string>, now: int, sha256: Hasher, challengeBytes: seq<Byte>): Step
    requires id in s.peers && |challengeBytes| == 32
  {
    if roomId !in s.rooms then Step(s, [Emit({id}, RoomError(RoomNotFound))])
    else
      var room := s.rooms[roomId];
      if Expired(room, now) then Step(s.(rooms := s.rooms - {roomId}), [Emit({id}, RoomError(RoomExpiredError))])
      else if Truthy(room.passwordHash) && !Truthy(password) then
        var challenge := ServerCrypto.GenerateChallenge(challengeBytes);
        Step(s.(challenges := s.challenges[id := Challenge(challenge, now, roomId, identity, publicKey)]),
             [Emit({id}, PasswordChallenge(challenge))])
      else if Truthy(room.passwordHash) && ServerCrypto.HashPassword(sha256, password.value) != room.passwordHash.value then
        Step(s, [Emit({id}, RoomError(InvalidPassword))])
      else Admit(s, id, roomId, identity, publicKey, now)
  }

  lemma JoinRoomOutcomes(s: State, id: SocketId, roomId: RoomId, password: Option<string>, identity: Option<Identity>,
                        publicKey: Option<string>, now: int, sha256: Hasher, challengeBytes: seq<Byte>, r: Step)
    requires id in s.peers && |challengeBytes| == 32
    requires r == JoinRoomStep(s, id, roomId, password, identity, publicKey, now, sha256, challengeBytes)
    ensures JoinAdmits(s, roomId, password, sha256, now) ==> r == Admit(s, id, roomId, identity, publicKey, now)
    ensures !JoinAdmits(s, roomId, password, sha256, now) ==>
              && r.state.peers == s.peers
              && r.state.ioRooms == s.ioRooms
              && (roomId in s.rooms && roomId in r.state.rooms ==> r.state.rooms[roomId] == s.rooms[roomId])
              && |r.emits| == 1 && r.emits[0].to == {id}
    ensures r.state.rooms.Keys == if roomId in s.rooms && Expired(s.rooms[roomId], now) then s.rooms.Keys - {roomId} else s.rooms.Keys
    ensures forall q :: q in s.rooms && q in r.state.rooms && q != roomId ==> r.state.rooms[q] == s.rooms[q]
    ensures r.state.challenges ==
              if JoinChallenges(s, roomId, password, now)
              then s.challenges[id := Challenge(ServerCrypto.GenerateChallenge(challengeBytes), now, roomId, identity, publicKey)]
              else s.challenges
    ensures roomId !in s.rooms ==> r.emits == [Emit({id}, RoomError(RoomNotFound))]
    ensures !JoinAdmits(s, roomId, password, sha256, now) && !JoinChallenges(s, roomId, password, now) ==>
              r.emits[0].event.RoomError?
  {
  }

  /** `verifyProof` accepts the proof for the socket's stored challenge. */
  predicate ProofAccepted(s: State, id: SocketId, proof: string, sha256: Hasher)
    requires id in s.challenges && s.challenges[id].roomId in s.rooms
  {
    ServerCrypto.VerifyProof(sha256, proof, StoredHashText(s.rooms[s.challenges[id].roomId]), s.challenges[id].challenge) == Ok(true)
  }

  /**
   * `password-proof`. Without a stored challenge nothing changes. A proof
   * that does not decode to 32 bytes makes `verifyProof` throw and the
   * handler stops with nothing changed. Otherwise the challenge is consumed on
   * every outcome, and an accepted proof admits the socket to the
   * challenge's room with the identity and key captured at challenge time.
   */
  function PasswordProofStep(s: State, id: SocketId, proof: string, now: int, sha256: Hasher): Result<Step>
    requires id in s.peers
  {
    if id !in s.challenges then Ok(Step(s, [Emit({id}, RoomError(NoChallenge))]))
    else
      var c := s.challenges[id];
      if c.roomId !in s.rooms then Ok(Step(s.(challenges := s.challenges - {id}), [Emit({id}, RoomError(RoomNotFound))]))
      else
        var room := s.rooms[c.roomId];
        match ServerCrypto.VerifyProof(sha256, proof, StoredHashText(room), c.challenge)
        case Throws(e) => Throws(e)
        case Ok(isValid) =>
          var s1 := s.(challenges := s.challenges - {id});
          if !isValid then Ok(Step(s1, [Emit({id}, RoomError(InvalidPassword))]))
          else Ok(Admit(s1, id, c.roomId, c.identity, c.publicKey, now))
  }

  lemma PasswordProofOutcomes(s: State, id: SocketId, proof: string, now: int, sha256: Hasher, r: Result<Step>)
    requires id in s.peers
    requires r == PasswordProofStep(s, id, proof, now, sha256)
    ensures id !in s.challenges ==> r == Ok(Step(s, [Emit({id}, RoomError(NoChallenge))]))
    ensures r.Throws? <==> id in s.challenges && s.challenges[id].roomId in s.rooms && |HexDecode(proof)| != 32
    ensures r.Ok? && id in s.challenges ==> r.value.state.challenges == s.challenges - {id}
    ensures r.Ok? && id in s.challenges && s.challenges[id].roomId in s.rooms && ProofAccepted(s, id, proof, sha256) ==>
              var c := s.challenges[id];
              r.value == Admit(s.(challenges := s.challenges - {id}), id, c.roomId, c.identity, c.publicKey, now)
    ensures r.Ok? && id in s.challenges && !(s.challenges[id].roomId in s.rooms && ProofAccepted(s, id, proof, sha256)) ==>
              && r.value.state == s.(challenges := s.challenges - {id})
              && r.value.emits == [Emit({id}, RoomError(if s.challenges[id].roomId in s.rooms then InvalidPassword else RoomNotFound))]
  {
  }

  /**
   * A proof that does not decode to 32 bytes, the empty string for one,
   * makes `verifyProof` throw inside the `password-proof` listener. Nothing
   * in the server catches it, so the Node process exits, and every room,
   * peer and challenge it held is gone.
   */
  lemma EmptyProofThrows(s: State, id: SocketId, now: int, sha256: Hasher)
    requires id in s.peers && id in s.challenges && s.challenges[id].roomId in s.rooms
    ensures PasswordProofStep(s, id, "", now, sha256).Throws?
  {
    assert |HexDecode("")| == 0;
  }

  /**
   * `password-proof` with the exception caught: a proof that makes
   * `verifyProof` throw is answered like a wrong one, and the challenge is
   * consumed.
   */
  function PasswordProofCaughtStep(s: State, id: SocketId, proof: string, now: int, sha256: Hasher): Step
    requires id in s.peers
  {
    match PasswordProofStep(s, id, proof, now, sha256)
    case Ok(step) => step
    case Throws(_) => Step(s.(challenges := s.challenges - {id}), [Emit({id}, RoomError(InvalidPassword))])
  }

  /** The catalogue entry of a file shared into room `roomId`. */
  function RoomFile(s: State, id: SocketId, roomId: RoomId, name: string, size: int, mime: string, now: int): (f: FileRecord)
    requires id in s.peers
    ensures f.roomId == Some(roomId) && f.peerId == id && f.id == FileIdOf(id, now, name)
  {
    FileRecord(FileIdOf(id, now, name), name, size, mime, id, s.peers[id].identity, Some(roomId), Some(now))
  }

  /** The catalogue entry of a globally shared file: no identity, no room, no share time. */
  function GlobalFile(id: SocketId, name: string, size: int, mime: string, now: int): (f: FileRecord)
    ensures f.roomId == None && f.peerId == id && f.id == FileIdOf(id, now, name)
  {
    FileRecord(FileIdOf(id, now, name), name, size, mime, id, None, None, None)
  }

  /**
   * `share-file`. A socket in a room files the share in that room only and
   * announces it to that room; a socket whose room is gone shares nothing;
   * any other socket files it in the global catalogue and announces it to
   * every connected socket.
   */
  function ShareFileStep(s: State, id: SocketId, name: string, size: int, mime: string, now: int): Step
  {
    if InRoom(s, id) then
      var roomId := s.peers[id].roomId.value;
      if roomId !in s.rooms then Step(s, [])
      else
        var room := s.rooms[roomId];
        var peer := s.peers[id];
        var f := RoomFile(s, id, roomId, name, size, mime, now);
        var room1 := room.(files := room.files[f.id := f],
                           activityLog := room.activityLog + [Activity(now, id, DisplayName(peer.identity), "uploaded", Some(name))]);
        var st := s.(rooms := s.rooms[roomId := room1], peers := s.peers[id := peer.(roomFiles := peer.roomFiles + [f.id])]);
        Step(st, [Emit(Audience(st, roomId), FileAvailable(f)), Emit({id}, FileSharedConfirmation(f.id, name))])
    else
      var f := GlobalFile(id, name, size, mime, now);
      var peers := if id in s.peers then s.peers[id := s.peers[id].(globalFiles := s.peers[id].globalFiles + [f.id])] else s.peers;
      var st := s.(sharedFiles := s.sharedFiles[f.id := f], peers := peers);
      Step(st, [Emit(Everyone(st), FileAvailable(f)), Emit({id}, FileSharedConfirmation(f.id, name))])
  }

  lemma ShareFileScoping(s: State, id: SocketId, name: string, size: int, mime: string, now: int, r: Step)
    requires r == ShareFileStep(s, id, name, size, mime, now)
    ensures InRoom(s, id) ==> r.state.sharedFiles == s.sharedFiles
    ensures !InRoom(s, id) ==> r.state.rooms == s.rooms
    ensures InRoom(s, id) && s.peers[id].roomId.value !in s.rooms ==> r == Step(s, [])
    ensures InRoom(s, id) && s.peers[id].roomId.value in s.rooms ==>
              var roomId := s.peers[id].roomId.value;
              var f := RoomFile(s, id, roomId, name, size, mime, now);
              && roomId in r.state.rooms
              && r.state.rooms == s.rooms[roomId := r.state.rooms[roomId]]
              && r.state.rooms[roomId].files == s.rooms[roomId].files[f.id := f]
              && r.state.rooms[roomId].peers == s.rooms[roomId].peers
              && r.state.peers == s.peers[id := s.peers[id].(roomFiles := s.peers[id].roomFiles + [f.id])]
              && r.emits == [Emit(Audience(r.state, roomId), FileAvailable(f)), Emit({id}, FileSharedConfirmation(f.id, name))]
    ensures !InRoom(s, id) ==>
              var f := GlobalFile(id, name, size, mime, now);
              && r.state.sharedFiles == s.sharedFiles[f.id := f]
              && r.state.peers == (if id in s.peers then s.peers[id := s.peers[id].(globalFiles := s.peers[id].globalFiles + [f.id])] else s.peers)
              && r.emits == [Emit(Everyone(r.state), FileAvailable(f)), Emit({id}, FileSharedConfirmation(f.id, name))]
    ensures r.state.challenges == s.challenges && r.state.ioRooms == s.ioRooms
  {
  }

  /** `offer` / `answer` / `ice-candidate`: forwarded to the target socket, never back to the sender; nothing changes. */
  function RelayStep(s: State, id: SocketId, kind: SignalKind, payload: string, targetPeerId: SocketId): (r: Step)
    ensures r.state == s && |r.emits| == 1
    ensures id !in r.emits[0].to
    ensures r.emits[0].to <= Joined(s, targetPeerId) + {targetPeerId}
    ensures targetPeerId in s.peers && targetPeerId != id ==> targetPeerId in r.emits[0].to
    ensures r.emits[0].event == Signal(kind, payload, id)
  {
    Step(s, [Emit(Audience(s, targetPeerId) - {id}, Signal(kind, payload, id))])
  }

  /**
   * `unshare-file`. For a connected socket: with a truthy `roomId` naming a
   * room, the file leaves that room's catalogue, whoever shared it; without
   * one, it leaves the global catalogue. Only the caller's own file lists
   * are filtered.
   */
  function UnshareFileStep(s: State, id: SocketId, fileId: FileId, roomId: Option<RoomId>): Step
  {
    if id !in s.peers then Step(s, [])
    else
      var peer := s.peers[id];
      if Truthy(roomId) then
        if roomId.value !in s.rooms then Step(s, [])
        else
          var room := s.rooms[roomId.value];
          var st := s.(rooms := s.rooms[roomId.value := room.(files := room.files - {fileId})],
                       peers := s.peers[id := peer.(roomFiles := Filter(peer.roomFiles, fileId))]);
          Step(st, [Emit(Audience(st, roomId.value), FileRemoved(fileId, roomId)),
                    Emit(Audience(st, roomId.value), FilesList(st.rooms[roomId.value].files))])
      else
        var st := s.(sharedFiles := s.sharedFiles - {fileId},
                     peers := s.peers[id := peer.(globalFiles := Filter(peer.globalFiles, fileId))]);
        Step(st, [Emit(Everyone(st), FileRemoved(fileId, None)), Emit(Everyone(st), FilesList(st.sharedFiles))])
  }

  lemma UnshareFileEffects(s: State, id: SocketId, fileId: FileId, roomId: Option<RoomId>, r: Step)
    requires r == UnshareFileStep(s, id, fileId, roomId)
    ensures r.state.peers.Keys == s.peers.Keys && forall p :: p in s.peers && p != id ==> r.state.peers[p] == s.peers[p]
    ensures id !in s.peers ==> r == Step(s, [])
    ensures Truthy(roomId) ==> r.state.sharedFiles == s.sharedFiles && r.state.rooms.Keys == s.rooms.Keys
    ensures id in s.peers && Truthy(roomId) && roomId.value in s.rooms ==>
              && r.state.rooms == s.rooms[roomId.value := s.rooms[roomId.value].(files := s.rooms[roomId.value].files - {fileId})]
              && r.state.peers[id].roomFiles == Filter(s.peers[id].roomFiles, fileId)
              && r.emits == [Emit(Audience(r.state, roomId.value), FileRemoved(fileId, roomId)),
                             Emit(Audience(r.state, roomId.value), FilesList(r.state.rooms[roomId.value].files))]
    ensures id in s.peers && !Truthy(roomId) ==>
              && r.state.sharedFiles == s.sharedFiles - {fileId}
              && r.state.rooms == s.rooms
              && r.state.peers[id].globalFiles == Filter(s.peers[id].globalFiles, fileId)
              && r.emits == [Emit(Everyone(r.state), FileRemoved(fileId, None)), Emit(Everyone(r.state), FilesList(r.state.sharedFiles))]
    ensures r.state.challenges == s.challenges && r.state.ioRooms == s.ioRooms
  {
  }

  /** `ids.filter(x => x !== id)`. */
  function Filter(ids: seq<FileId>, id: FileId): (r: seq<FileId>)
    ensures id !in r
    ensures forall x :: x in ids && x != id ==> x in r
    ensures forall x :: x in r ==> x in ids
  {
    if ids == [] then []
    else if ids[0] == id then Filter(ids[1..], id)
    else [ids[0]] + Filter(ids[1..], id)
  }

  /** A room after the socket `id` leaves it, taking the files it shared there along. */
  function RoomWithout(room: Room, id: SocketId, roomFiles: seq<FileId>, action: string, now: int, identity: Option<Identity>): (r: Room)
    ensures r.peers == room.peers - {id}
    ensures r.publicKeys == room.publicKeys - {id}
    ensures r.files == Without(room.files, roomFiles)
  {
    room.(peers := room.peers - {id},
          publicKeys := room.publicKeys - {id},
          files := Without(room.files, roomFiles),
          activityLog := room.activityLog + [Activity(now, id, DisplayName(identity), action, None)])
  }

  /** The rooms after a room update that deletes the room once nobody is left in it. */
  function StoreOrDrop(rooms: map<RoomId, Room>, roomId: RoomId, room: Room): (r: map<RoomId, Room>)
    ensures roomId in r <==> room.peers != {}
    ensures roomId in r ==> r[roomId] == room
    ensures forall q :: q != roomId ==> (q in r <==> q in rooms) && (q in r ==> r[q] == rooms[q])
  {
    if room.peers == {} then rooms - {roomId} else rooms[roomId := room]
  }

  /** The peers-list a socket gets on leaving a room: the peers in no room. */
  function GlobalPeers(peers: map<SocketId, Peer>): (m: map<SocketId, Peer>)
    ensures forall p :: p in m <==> p in peers && !Truthy(peers[p].roomId)
  {
    map p | p in peers && !Truthy(peers[p].roomId) :: peers[p]
  }

  /** A field of an event's payload as it arrives: left out (`undefined`), `null`, or a value. */
  datatype Field<+T> = Absent | Null | Given(value: T)

  /**
   * `peer.roomId === roomId` (the negation of the handler's `!==`) between a
   * peer's room, null or an id, and a payload field: a missing field equals
   * neither.
   */
  predicate SameRoom(peerRoom: Option<RoomId>, roomId: Field<RoomId>) {
    match roomId
    case Absent => false
    case Null => peerRoom.None?
    case Given(r) => peerRoom == Some(r)
  }

  /**
   * `leave-room`. Ignored unless the socket's room is exactly `roomId`.
   * Otherwise, when the room exists, the socket leaves its members and
   * public keys, exactly the files in its room-file list leave the room
   * catalogue and are reported to the remaining members, and the room is
   * deleted once empty; in every case the socket's room becomes null, its
   * global files stay, and it is sent the global catalogue and the peers in
   * no room.
   */
  function LeaveRoomStep(s: State, id: SocketId, roomId: Field<RoomId>, now: int): Step
  {
    if id !in s.peers || !SameRoom(s.peers[id].roomId, roomId) then Step(s, [])
    else if roomId.Given? && roomId.value in s.rooms then
      var peer := s.peers[id];
      var rid := roomId.value;
      var room := RoomWithout(s.rooms[rid], id, peer.roomFiles, "left", now, peer.identity);
      var st := s.(rooms := StoreOrDrop(s.rooms, rid, room),
                   peers := s.peers[id := peer.(roomFiles := [], roomId := None)],
                   ioRooms := s.ioRooms[rid := Joined(s, rid) - {id}]);
      Step(st, [Emit(Audience(s, rid) - {id}, PeerLeftRoom(id, peer.roomFiles)),
                Emit(Audience(s, rid) - {id}, FilesList(room.files)),
                Emit({id}, FilesList(st.sharedFiles)), Emit({id}, PeersList(GlobalPeers(st.peers)))])
    else
      var st := s.(peers := s.peers[id := s.peers[id].(roomId := None)]);
      Step(st, [Emit({id}, FilesList(st.sharedFiles)), Emit({id}, PeersList(GlobalPeers(st.peers)))])
  }

  lemma LeaveRoomEffects(s: State, id: SocketId, roomId: Field<RoomId>, now: int, r: Step)
    requires r == LeaveRoomStep(s, id, roomId, now)
    ensures roomId.Absent? ==> r == Step(s, [])
    ensures id !in s.peers || !SameRoom(s.peers[id].roomId, roomId) ==> r == Step(s, [])
    ensures id in s.peers && SameRoom(s.peers[id].roomId, roomId) ==>
              && id in r.state.peers
              && r.state.peers == s.peers[id := r.state.peers[id]]
              && r.state.peers[id].roomId == None
              && r.state.peers[id].globalFiles == s.peers[id].globalFiles
              && r.state.sharedFiles == s.sharedFiles
              && r.state.challenges == s.challenges
              && |r.emits| >= 2
              && r.emits[|r.emits| - 2] == Emit({id}, FilesList(s.sharedFiles))
              && r.emits[|r.emits| - 1] == Emit({id}, PeersList(GlobalPeers(r.state.peers)))
    ensures id in s.peers && SameRoom(s.peers[id].roomId, roomId) && roomId.Given? && roomId.value in s.rooms ==>
              var rid := roomId.value;
              var room := s.rooms[rid];
              var removed := s.peers[id].roomFiles;
              && (rid in r.state.rooms <==> room.peers - {id} != {})
              && (rid in r.state.rooms ==> && r.state.rooms[rid].peers == room.peers - {id}
                                           && r.state.rooms[rid].publicKeys == room.publicKeys - {id}
                                           && r.state.rooms[rid].files == Without(room.files, removed))
              && (forall q :: q != rid ==> (q in r.state.rooms <==> q in s.rooms) && (q in r.state.rooms ==> r.state.rooms[q] == s.rooms[q]))
              && r.state.peers[id].roomFiles == []
              && Joined(r.state, rid) == Joined(s, rid) - {id}
              && |r.emits| == 4
              && r.emits[0] == Emit(Audience(s, rid) - {id}, PeerLeftRoom(id, removed))
              && r.emits[1] == Emit(Audience(s, rid) - {id}, FilesList(Without(room.files, removed)))
    ensures id in s.peers && SameRoom(s.peers[id].roomId, roomId) && !(roomId.Given? && roomId.value in s.rooms) ==>
              r.state.rooms == s.rooms && r.state.ioRooms == s.ioRooms && |r.emits| == 2
  {
  }

  /** Every transport room after Socket.io drops a closed socket from all of them. */
  function LeaveAll(ioRooms: map<string, set<SocketId>>, id: SocketId): (r: map<string, set<SocketId>>)
    ensures r.Keys == ioRooms.Keys
    ensures forall n :: n in r ==> r[n] == ioRooms[n] - {id}
  {
    map n | n in ioRooms :: ioRooms[n] - {id}
  }

  /**
   * `disconnect` (which Socket.io delivers after the socket has left every
   * transport room). The socket's current room loses it, its public key and
   * its room files, and is deleted once empty; its global files leave the
   * global catalogue; its peer entry and its challenge are deleted; every
   * socket still connected is told.
   */
  function DisconnectStep(s: State, id: SocketId, now: int): Step
  {
    var ioRooms := LeaveAll(s.ioRooms, id);
    var sharedFiles := if id in s.peers then Without(s.sharedFiles, s.peers[id].globalFiles) else s.sharedFiles;
    if InRoom(s, id) && s.peers[id].roomId.value in s.rooms then
      var peer := s.peers[id];
      var rid := peer.roomId.value;
      var room := RoomWithout(s.rooms[rid], id, peer.roomFiles, "disconnected", now, peer.identity);
      var st := State(s.peers - {id}, sharedFiles, StoreOrDrop(s.rooms, rid, room), s.challenges - {id}, ioRooms);
      Step(st, [Emit(Audience(s.(ioRooms := ioRooms), rid), PeerLeftRoom(id, peer.roomFiles)),
                Emit(Everyone(st), PeerLeft(id)), Emit(Everyone(st), FilesList(st.sharedFiles))])
    else
      var st := State(s.peers - {id}, sharedFiles, s.rooms, s.challenges - {id}, ioRooms);
      Step(st, [Emit(Everyone(st), PeerLeft(id)), Emit(Everyone(st), FilesList(st.sharedFiles))])
  }

  lemma DisconnectEffects(s: State, id: SocketId, now: int, r: Step)
    requires r == DisconnectStep(s, id, now)
    ensures r.state.peers == s.peers - {id}
    ensures r.state.challenges == s.challenges - {id}
    ensures r.state.ioRooms == LeaveAll(s.ioRooms, id)
    ensures r.state.sharedFiles == if id in s.peers then Without(s.sharedFiles, s.peers[id].globalFiles) else s.sharedFiles
    ensures InRoom(s, id) && s.peers[id].roomId.value in s.rooms ==>
              var rid := s.peers[id].roomId.value;
              var room := s.rooms[rid];
              && (rid in r.state.rooms <==> room.peers - {id} != {})
              && (rid in r.state.rooms ==> && r.state.rooms[rid].peers == room.peers - {id}
                                           && r.state.rooms[rid].publicKeys == room.publicKeys - {id}
                                           && r.state.rooms[rid].files == Without(room.files, s.peers[id].roomFiles))
              && (forall q :: q != rid ==> (q in r.state.rooms <==> q in s.rooms) && (q in r.state.rooms ==> r.state.rooms[q] == s.rooms[q]))
              && |r.emits| == 3
              && r.emits[0] == Emit(Audience(s.(ioRooms := LeaveAll(s.ioRooms, id)), rid), PeerLeftRoom(id, s.peers[id].roomFiles))
    ensures !(InRoom(s, id) && s.peers[id].roomId.value in s.rooms) ==> r.state.rooms == s.rooms
    ensures |r.emits| >= 2
    ensures r.emits[|r.emits| - 2] == Emit(Everyone(r.state), PeerLeft(id))
    ensures r.emits[|r.emits| - 1] == Emit(Everyone(r.state), FilesList(r.state.sharedFiles))
  {
  }

  // ------------------------------------------------------------ sweeps

  /** The room ids the room sweep deletes: rooms with a truthy expiry in the past. */
  function ExpiredRooms(s: State, now: int): (e: set<RoomId>)
    ensures forall r :: r in e <==> r in s.rooms && Expired(s.rooms[r], now)
  {
    set r | r in s.rooms && Expired(s.rooms[r], now)
  }

  /**
   * The registries after the room sweep: exactly the expired rooms are gone,
   * and their connected members have left the transport rooms. The peer
   * entries are not touched.
   */
  function SweptRooms(s: State, now: int): (t: State)
    ensures forall r :: r in t.rooms <==> r in s.rooms && !Expired(s.rooms[r], now)
    ensures forall r :: r in t.rooms ==> t.rooms[r] == s.rooms[r]
    ensures t.peers == s.peers && t.sharedFiles == s.sharedFiles && t.challenges == s.challenges
  {
    s.(rooms := map r | r in s.rooms && !Expired(s.rooms[r], now) :: s.rooms[r],
       ioRooms := map n | n in s.ioRooms ::
                    if n in s.rooms && Expired(s.rooms[n], now) then s.ioRooms[n] - (s.rooms[n].peers * s.peers.Keys) else s.ioRooms[n])
  }

  /** `now - timestamp > 5 minutes`. */
  predicate Stale(c: Challenge, now: int) {
    now - c.timestamp > ChallengeTimeout
  }

  /** The challenges the challenge sweep keeps: exactly those at most five minutes old. */
  function SweptChallenges(challenges: map<SocketId, Challenge>, now: int): (m: map<SocketId, Challenge>)
    ensures forall id :: id in m <==> id in challenges && !Stale(challenges[id], now)
    ensures forall id :: id in m ==> m[id] == challenges[id]
  {
    map id | id in challenges && !Stale(challenges[id], now) :: challenges[id]
  }
}
