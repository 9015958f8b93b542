/**
 * The coordinator process (server.js) as one object: the registries are its
 * fields, every socket event and HTTP route is a method that updates them in
 * place, step by step as the handler does, and appends what it emits to
 * `outbox`. Each method is proved to leave exactly the registries and events
 * the matching specification function of `Coordinator` describes.
 */
module CoordinatorRegistry {
  import opened Common
  import opened Coordinator
  import ServerCrypto

  /**
   * `ids.forEach(id => files.delete(id))`: the map without exactly the listed
   * keys, whatever their order and repetitions.
   */
  method DeleteEach<V>(files: map<FileId, V>, ids: seq<FileId>) returns (r: map<FileId, V>)
    ensures r == Without(files, ids)
  {
    r := files;
    var i := 0;
    while i < |ids|
      invariant 0 <= i <= |ids|
      invariant r == Without(files, ids[..i])
    {
      assert ids[..i + 1] == ids[..i] + [ids[i]];
      r := r - {ids[i]};
      i := i + 1;
    }
    assert ids[..i] == ids;
  }

  /** A `room-expired` event for each room of `order`, in that order, each addressed to the room's audience in `s`. */
  function Announcements(s: State, order: seq<RoomId>): seq<Emit> {
    seq(|order|, k requires 0 <= k < |order| => Emit(Audience(s, order[k]), RoomExpired(order[k])))
  }

  /** `order` lists each room of `done` exactly once. */
  ghost predicate Enumerates(order: seq<RoomId>, done: set<RoomId>) {
    && (forall i, j :: 0 <= i < j < |order| ==> order[i] != order[j])
    && (forall r :: r in order <==> r in done)
  }

  /** Announcing one more room that was not yet announced. */
  lemma AnnounceNext(s: State, order: seq<RoomId>, done: set<RoomId>, roomId: RoomId)
    requires Enumerates(order, done) && roomId !in done
    ensures Enumerates(order + [roomId], done + {roomId})
    ensures Announcements(s, order + [roomId]) == Announcements(s, order) + [Emit(Audience(s, roomId), RoomExpired(roomId))]
  {
    var longer := order + [roomId];
    forall i, j | 0 <= i < j < |longer| ensures longer[i] != longer[j] {
      if j == |order| {
        assert longer[i] == order[i] && order[i] in done;
      } else {
        assert longer[i] == order[i] && longer[j] == order[j];
      }
    }
    forall r ensures r in longer <==> r in done + {roomId} {
      assert r in longer <==> r in order || r == roomId;
    }
  }

  /**
   * The room sweep part-way: the rooms still `pending` are untouched, the
   * others are gone exactly when expired, and the transport room of each
   * swept expired room has lost its connected members.
   */
  ghost predicate SweepState(s: State, now: int, pending: set<RoomId>, rooms: map<RoomId, Room>, ioRooms: map<string, set<SocketId>>) {
    && pending <= s.rooms.Keys
    && rooms.Keys <= s.rooms.Keys
    && (forall r :: r in rooms ==> rooms[r] == s.rooms[r])
    && (forall r :: r in s.rooms ==> (r in rooms <==> r in pending || !Expired(s.rooms[r], now)))
    && ioRooms.Keys == s.ioRooms.Keys
    && (forall n :: n in s.ioRooms ==>
          ioRooms[n] == if n in s.rooms && n !in pending && Expired(s.rooms[n], now)
                        then s.ioRooms[n] - (s.rooms[n].peers * s.peers.Keys) else s.ioRooms[n])
  }

  lemma SweepStart(s: State, now: int)
    ensures SweepState(s, now, s.rooms.Keys, s.rooms, s.ioRooms)
  {
  }

  /** Who `io.to(roomId)` reaches while `roomId` is still pending: its audience before the sweep. */
  lemma PendingAudience(s: State, now: int, pending: set<RoomId>, rooms: map<RoomId, Room>, ioRooms: map<string, set<SocketId>>, roomId: RoomId)
    requires SweepState(s, now, pending, rooms, ioRooms) && roomId in pending
    ensures Audience(s, roomId) == (if roomId in ioRooms then ioRooms[roomId] else {}) + (if roomId in s.peers then {roomId} else {})
  {
  }

  /** Sweeping an expired pending room: it is deleted and its transport room loses its connected members. */
  lemma SweepExpired(s: State, now: int, pending: set<RoomId>, rooms: map<RoomId, Room>, ioRooms: map<string, set<SocketId>>,
                     roomId: RoomId, ioRooms': map<string, set<SocketId>>)
    requires SweepState(s, now, pending, rooms, ioRooms)
    requires roomId in pending && Expired(s.rooms[roomId], now)
    requires ioRooms'.Keys == ioRooms.Keys
    requires forall n :: n in ioRooms && n != roomId ==> ioRooms'[n] == ioRooms[n]
    requires roomId in ioRooms ==> ioRooms'[roomId] == ioRooms[roomId] - (s.rooms[roomId].peers * s.peers.Keys)
    ensures SweepState(s, now, pending - {roomId}, rooms - {roomId}, ioRooms')
  {
  }

  /** A pending expired room is not yet announced; afterwards it is. */
  lemma ExpiredNext(s: State, now: int, pending: set<RoomId>, roomId: RoomId)
    requires roomId in pending && roomId in s.rooms && Expired(s.rooms[roomId], now)
    ensures roomId !in ExpiredRooms(s, now) - pending
    ensures ExpiredRooms(s, now) - (pending - {roomId}) == (ExpiredRooms(s, now) - pending) + {roomId}
  {
  }

  /** Passing over a pending room that has not expired changes nothing. */
  lemma SweepKept(s: State, now: int, pending: set<RoomId>, rooms: map<RoomId, Room>, ioRooms: map<string, set<SocketId>>, roomId: RoomId)
    requires SweepState(s, now, pending, rooms, ioRooms)
    requires roomId in pending && !Expired(s.rooms[roomId], now)
    ensures SweepState(s, now, pending - {roomId}, rooms, ioRooms)
    ensures ExpiredRooms(s, now) - (pending - {roomId}) == ExpiredRooms(s, now) - pending
  {
    assert ExpiredRooms(s, now) - (pending - {roomId}) == ExpiredRooms(s, now) - pending;
  }

  /** With nothing pending, the loop state is the swept registry. */
  lemma SweepDone(s: State, now: int, rooms: map<RoomId, Room>, ioRooms: map<string, set<SocketId>>)
    requires SweepState(s, now, {}, rooms, ioRooms)
    ensures rooms == SweptRooms(s, now).rooms && ioRooms == SweptRooms(s, now).ioRooms
  {
  }

  /** `socket.leave(roomId)` for every listed member still connected, on the transport-room table. */
  method LeaveTransportRoom(ioRooms: map<string, set<SocketId>>, connected: set<SocketId>, roomId: RoomId, members: set<SocketId>)
    returns (r: map<string, set<SocketId>>)
    ensures r.Keys == ioRooms.Keys
    ensures forall n :: n in ioRooms && n != roomId ==> r[n] == ioRooms[n]
    ensures roomId in ioRooms ==> r[roomId] == ioRooms[roomId] - (members * connected)
  {
    r := ioRooms;
    var pending := members;
    ghost var left: set<SocketId> := {};
    while pending != {}
      invariant pending + left == members && pending !! left
      invariant r.Keys == ioRooms.Keys
      invariant forall n :: n in ioRooms && n != roomId ==> r[n] == ioRooms[n]
      invariant roomId in ioRooms ==> r[roomId] == ioRooms[roomId] - (left * connected)
      decreases pending
    {
      var peerId :| peerId in pending;
      assert (left + {peerId}) * connected == left * connected + (if peerId in connected then {peerId} else {});
      if peerId in connected && roomId in r {
        r := r[roomId := r[roomId] - {peerId}];
      }
      pending := pending - {peerId};
      left := left + {peerId};
    }
  }

  /**
   * One pass of the room sweep's loop over the pending room `roomId`: if it
   * has expired, `room-expired` goes to its transport room, its connected
   * members leave that room and the room is deleted; otherwise nothing changes.
   */
  method SweepOne(ghost s: State, now: int, connected: set<SocketId>, ghost pending: set<RoomId>, roomId: RoomId,
                  rooms: map<RoomId, Room>, ioRooms: map<string, set<SocketId>>, ghost order: seq<RoomId>)
    returns (rooms': map<RoomId, Room>, ioRooms': map<string, set<SocketId>>, announced: seq<Emit>, ghost order': seq<RoomId>)
    requires roomId in pending && connected == s.peers.Keys
    requires SweepState(s, now, pending, rooms, ioRooms)
    requires Enumerates(order, ExpiredRooms(s, now) - pending)
    ensures SweepState(s, now, pending - {roomId}, rooms', ioRooms')
    ensures Enumerates(order', ExpiredRooms(s, now) - (pending - {roomId}))
    ensures Announcements(s, order') == Announcements(s, order) + announced
  {
    var room := rooms[roomId];
    if Expired(room, now) {
      var audience := (if roomId in ioRooms then ioRooms[roomId] else {}) + (if roomId in connected then {roomId} else {});
      PendingAudience(s, now, pending, rooms, ioRooms, roomId);
      announced := [Emit(audience, RoomExpired(roomId))];
      ioRooms' := LeaveTransportRoom(ioRooms, connected, roomId, room.peers);
      rooms' := rooms - {roomId};
      SweepExpired(s, now, pending, rooms, ioRooms, roomId, ioRooms');
      ExpiredNext(s, now, pending, roomId);
      AnnounceNext(s, order, ExpiredRooms(s, now) - pending, roomId);
      order' := order + [roomId];
    } else {
      SweepKept(s, now, pending, rooms, ioRooms, roomId);
      rooms', ioRooms', announced, order' := rooms, ioRooms, [], order;
    }
  }

  /**
   * The room sweep's loop over every room of `s`, in some order: the expired
   * rooms are deleted, their connected members leave their transport rooms,
   * and each is announced once.
   */
  method SweepLoop(ghost s: State, now: int, connected: set<SocketId>, rooms: map<RoomId, Room>, ioRooms: map<string, set<SocketId>>)
    returns (rooms': map<RoomId, Room>, ioRooms': map<string, set<SocketId>>, announced: seq<Emit>, ghost order: seq<RoomId>)
    requires connected == s.peers.Keys && rooms == s.rooms && ioRooms == s.ioRooms
    ensures rooms' == SweptRooms(s, now).rooms && ioRooms' == SweptRooms(s, now).ioRooms
    ensures Enumerates(order, ExpiredRooms(s, now))
    ensures announced == Announcements(s, order)
  {
    rooms', ioRooms' := rooms, ioRooms;
    SweepStart(s, now);
    order, announced := [], [];
    var pending := rooms.Keys;
    while pending != {}
      invariant SweepState(s, now, pending, rooms', ioRooms')
      invariant Enumerates(order, ExpiredRooms(s, now) - pending)
      invariant announced == Announcements(s, order)
      decreases pending
    {
      var roomId :| roomId in pending;
      var next;
      rooms', ioRooms', next, order := SweepOne(s, now, connected, pending, roomId, rooms', ioRooms', order);
      announced := announced + next;
      pending := pending - {roomId};
    }
    SweepDone(s, now, rooms', ioRooms');
  }

  /**
   * The room side of a departure, shared by `leave-room` and `disconnect`:
   * `id` leaves room `rid` and its key goes, the room files it shared are
   * deleted, the departure is logged, and a room left empty is deleted.
   */
  method DepartRoom(rooms: map<RoomId, Room>, rid: RoomId, id: SocketId, roomFiles: seq<FileId>, action: string, now: int,
                    identity: Option<Identity>) returns (rooms': map<RoomId, Room>, room: Room)
    requires rid in rooms
    ensures room == RoomWithout(rooms[rid], id, roomFiles, action, now, identity)
    ensures rooms' == StoreOrDrop(rooms, rid, room)
  {
    room := rooms[rid];
    room := room.(peers := room.peers - {id}, publicKeys := room.publicKeys - {id});
    var files := DeleteEach(room.files, roomFiles);
    room := room.(files := files);
    room := room.(activityLog := room.activityLog + [Activity(now, id, DisplayName(identity), action, None)]);
    if room.peers == {} {
      rooms' := rooms - {rid};
    } else {
      rooms' := rooms[rid := room];
    }
  }

  class Registry {
    var peers: map<SocketId, Peer>
    var sharedFiles: map<FileId, FileRecord>
    var rooms: map<RoomId, Room>
    var challenges: map<SocketId, Challenge>
    var ioRooms: map<string, set<SocketId>>
    /** Every event emitted so far, with its audience, in order. */
    var outbox: seq<Emit>

    function View(): State
      reads this
    {
      State(peers, sharedFiles, rooms, challenges, ioRooms)
    }

    /** The process at start-up: every registry empty. */
    constructor ()
      ensures View() == State(map[], map[], map[], map[], map[]) && outbox == []
      ensures Valid(View())
    {
      peers, sharedFiles, rooms, challenges, ioRooms := map[], map[], map[], map[], map[];
      outbox := [];
    }

    /**
     * `POST /api/rooms/create`, given the nine random bytes of the room id:
     * stores the new room under the generated id, replacing any room that
     * already had it.
     */
    method CreateRoom(sha256: Hasher, randomBytes: seq<Byte>, password: Option<string>, expiresIn: Option<int>, now: int)
      returns (roomId: RoomId)
      requires |randomBytes| == 9
      modifies this`rooms
      ensures |roomId| == 9 && forall i :: 0 <= i < 9 ==> ServerCrypto.IsAlphanumeric(roomId[i])
      ensures rooms == old(rooms)[roomId := NewRoom(sha256, password, expiresIn, now)]
    {
      roomId := ServerCrypto.GenerateRoomId(randomBytes);
      var expiresAt := if TruthyNumber(expiresIn) then Some(now + expiresIn.value) else None;
      var passwordHash := if Truthy(password) then Some(ServerCrypto.HashPassword(sha256, password.value)) else None;
      var room := Room(now, expiresAt, passwordHash, {}, map[], map[], []);
      rooms := rooms[roomId := room];
    }

    /** `GET /api/rooms/:roomId`. */
    method RoomInfo(roomId: RoomId, now: int) returns (response: InfoResponse)
      modifies this`rooms
      ensures (rooms, response) == RoomInfoStep(old(rooms), roomId, now)
    {
      if roomId !in rooms {
        return NotFound;
      }
      var room := rooms[roomId];
      if Expired(room, now) {
        rooms := rooms - {roomId};
        return Gone;
      }
      response := Info(roomId, Truthy(room.passwordHash), |room.peers|, |room.files|, room.createdAt, room.expiresAt);
    }

    /** `connection`: the socket is registered and greeted. */
    method Connect(id: SocketId)
      modifies this
      ensures View() == ConnectStep(old(View()), id).state
      ensures outbox == old(outbox) + ConnectStep(old(View()), id).emits
    {
      peers := peers[id := FreshPeer];
      outbox := outbox + [Emit({id}, PeersList(peers))];
      outbox := outbox + [Emit({id}, FilesList(sharedFiles))];
      outbox := outbox + [Emit(peers.Keys - {id}, PeerJoined(id))];
    }

    /** The join steps `join-room` and `password-proof` share. */
    method AdmitPeer(id: SocketId, roomId: RoomId, identity: Option<Identity>, publicKey: Option<string>, now: int)
      requires id in peers && roomId in rooms
      modifies this
      ensures View() == Admit(old(View()), id, roomId, identity, publicKey, now).state
      ensures outbox == old(outbox) + Admit(old(View()), id, roomId, identity, publicKey, now).emits
    {
      var s := View();
      var room := rooms[roomId];
      room := room.(peers := room.peers + {id});
      var peer := peers[id];
      if identity.Some? {
        peer := peer.(identity := identity);
      }
      if Truthy(publicKey) {
        room := room.(publicKeys := room.publicKeys[id := publicKey.value]);
        peer := peer.(publicKey := publicKey);
      }
      peer := peer.(roomId := Some(roomId));
      room := room.(activityLog := room.activityLog + [Activity(now, id, DisplayName(identity), "joined", None)]);
      var t := s.(peers := s.peers[id := peer], rooms := s.rooms[roomId := room], ioRooms := s.ioRooms[roomId := Joined(s, roomId) + {id}]);
      peers, rooms, ioRooms := t.peers, t.rooms, t.ioRooms;
      outbox := outbox + [Emit({id}, RoomJoined(roomId, Snapshot(t, room), room.files, room.publicKeys)),
                          Emit(Audience(t, roomId) - {id}, PeerJoinedRoom(id, identity, publicKey))];
    }

    /** `join-room`, given the 32 random bytes a challenge would be made of. */
    method JoinRoom(id: SocketId, roomId: RoomId, password: Option<string>, identity: Option<Identity>,
                    publicKey: Option<string>, now: int, sha256: Hasher, challengeBytes: seq<Byte>)
      requires id in peers && |challengeBytes| == 32
      modifies this
      ensures View() == JoinRoomStep(old(View()), id, roomId, password, identity, publicKey, now, sha256, challengeBytes).state
      ensures outbox == old(outbox) + JoinRoomStep(old(View()), id, roomId, password, identity, publicKey, now, sha256, challengeBytes).emits
    {
      if roomId !in rooms {
        outbox := outbox + [Emit({id}, RoomError(RoomNotFound))];
        return;
      }
      var room := rooms[roomId];
      if Expired(room, now) {
        rooms := rooms - {roomId};
        outbox := outbox + [Emit({id}, RoomError(RoomExpiredError))];
        return;
      }
      if Truthy(room.passwordHash) {
        if !Truthy(password) {
          var challenge := ServerCrypto.GenerateChallenge(challengeBytes);
          challenges := challenges[id := Challenge(challenge, now, roomId, identity, publicKey)];
          outbox := outbox + [Emit({id}, PasswordChallenge(challenge))];
          return;
        }
        var passwordHash := ServerCrypto.HashPassword(sha256, password.value);
        if passwordHash != room.passwordHash.value {
          outbox := outbox + [Emit({id}, RoomError(InvalidPassword))];
          return;
        }
      }
      AdmitPeer(id, roomId, identity, publicKey, now);
    }

    /**
     * `password-proof`. Returns the exception `verifyProof` throws, if any; a
     * throw leaves everything as it was.
     */
    method PasswordProof(id: SocketId, proof: string, now: int, sha256: Hasher) returns (thrown: Option<string>)
      requires id in peers
      modifies this
      ensures var r := PasswordProofStep(old(View()), id, proof, now, sha256);
              if r.Ok? then thrown == None && View() == r.value.state && outbox == old(outbox) + r.value.emits
              else thrown == Some(r.error) && View() == old(View()) && outbox == old(outbox)
    {
      thrown := None;
      if id !in challenges {
        outbox := outbox + [Emit({id}, RoomError(NoChallenge))];
        return;
      }
      var challengeData := challenges[id];
      if challengeData.roomId !in rooms {
        challenges := challenges - {id};
        outbox := outbox + [Emit({id}, RoomError(RoomNotFound))];
        return;
      }
      var room := rooms[challengeData.roomId];
      var isValid := ServerCrypto.VerifyProof(sha256, proof, StoredHashText(room), challengeData.challenge);
      if isValid.Throws? {
        return Some(isValid.error);
      }
      if !isValid.value {
        challenges := challenges - {id};
        outbox := outbox + [Emit({id}, RoomError(InvalidPassword))];
        return;
      }
      challenges := challenges - {id};
      AdmitPeer(id, challengeData.roomId, challengeData.identity, challengeData.publicKey, now);
    }

    /** `share-file`. */
    method ShareFile(id: SocketId, name: string, size: int, mime: string, now: int)
      modifies this
      ensures View() == ShareFileStep(old(View()), id, name, size, mime, now).state
      ensures outbox == old(outbox) + ShareFileStep(old(View()), id, name, size, mime, now).emits
    {
      if id in peers && Truthy(peers[id].roomId) {
        var peer := peers[id];
        var roomId := peer.roomId.value;
        if roomId !in rooms {
          return;
        }
        var room := rooms[roomId];
        var fileId := FileIdOf(id, now, name);
        var fileData := FileRecord(fileId, name, size, mime, id, peer.identity, Some(roomId), Some(now));
        room := room.(files := room.files[fileId := fileData]);
        peer := peer.(roomFiles := peer.roomFiles + [fileId]);
        peers := peers[id := peer];
        room := room.(activityLog := room.activityLog + [Activity(now, id, DisplayName(peer.identity), "uploaded", Some(name))]);
        rooms := rooms[roomId := room];
        outbox := outbox + [Emit(Audience(View(), roomId), FileAvailable(fileData))];
        outbox := outbox + [Emit({id}, FileSharedConfirmation(fileId, name))];
      } else {
        var fileId := FileIdOf(id, now, name);
        var fileData := FileRecord(fileId, name, size, mime, id, None, None, None);
        sharedFiles := sharedFiles[fileId := fileData];
        if id in peers {
          peers := peers[id := peers[id].(globalFiles := peers[id].globalFiles + [fileId])];
        }
        outbox := outbox + [Emit(peers.Keys, FileAvailable(fileData))];
        outbox := outbox + [Emit({id}, FileSharedConfirmation(fileId, name))];
      }
    }

    /** `offer`, `answer` and `ice-candidate`. */
    method Relay(id: SocketId, kind: SignalKind, payload: string, targetPeerId: SocketId)
      modifies this`outbox
      ensures outbox == old(outbox) + RelayStep(View(), id, kind, payload, targetPeerId).emits
    {
      outbox := outbox + [Emit(Audience(View(), targetPeerId) - {id}, Signal(kind, payload, id))];
    }

    /** `unshare-file`. */
    method UnshareFile(id: SocketId, fileId: FileId, roomId: Option<RoomId>)
      modifies this
      ensures View() == UnshareFileStep(old(View()), id, fileId, roomId).state
      ensures outbox == old(outbox) + UnshareFileStep(old(View()), id, fileId, roomId).emits
    {
      if id !in peers {
        return;
      }
      var peer := peers[id];
      if Truthy(roomId) {
        if roomId.value in rooms {
          var room := rooms[roomId.value];
          room := room.(files := room.files - {fileId});
          rooms := rooms[roomId.value := room];
          peers := peers[id := peer.(roomFiles := Filter(peer.roomFiles, fileId))];
          outbox := outbox + [Emit(Audience(View(), roomId.value), FileRemoved(fileId, roomId))];
          outbox := outbox + [Emit(Audience(View(), roomId.value), FilesList(room.files))];
        }
      } else {
        sharedFiles := sharedFiles - {fileId};
        peers := peers[id := peer.(globalFiles := Filter(peer.globalFiles, fileId))];
        outbox := outbox + [Emit(peers.Keys, FileRemoved(fileId, None))];
        outbox := outbox + [Emit(peers.Keys, FilesList(sharedFiles))];
      }
    }

    /** `leave-room`. */
    method LeaveRoom(id: SocketId, roomId: Field<RoomId>, now: int)
      modifies this
      ensures View() == LeaveRoomStep(old(View()), id, roomId, now).state
      ensures outbox == old(outbox) + LeaveRoomStep(old(View()), id, roomId, now).emits
    {
      if id !in peers || !SameRoom(peers[id].roomId, roomId) {
        return;
      }
      var s := View();
      var peer := peers[id];
      var announced := [];
      if roomId.Given? && roomId.value in s.rooms {
        var rid := roomId.value;
        var audience := Audience(s, rid) - {id};
        var rs, room := DepartRoom(s.rooms, rid, id, peer.roomFiles, "left", now, peer.identity);
        announced := [Emit(audience, PeerLeftRoom(id, peer.roomFiles)), Emit(audience, FilesList(room.files))];
        peer := peer.(roomFiles := []);
        rooms, ioRooms := rs, s.ioRooms[rid := Joined(s, rid) - {id}];
      }
      peers := s.peers[id := peer.(roomId := None)];
      outbox := outbox + announced + [Emit({id}, FilesList(sharedFiles)), Emit({id}, PeersList(GlobalPeers(peers)))];
    }

    /** `disconnect`, delivered once Socket.io has dropped the socket from every transport room. */
    method Disconnect(id: SocketId, now: int)
      modifies this
      ensures View() == DisconnectStep(old(View()), id, now).state
      ensures outbox == old(outbox) + DisconnectStep(old(View()), id, now).emits
    {
      var s := View();
      var io := LeaveAll(s.ioRooms, id);
      var rs := s.rooms;
      var announced := [];
      if id in s.peers && Truthy(s.peers[id].roomId) && s.peers[id].roomId.value in rs {
        var peer := s.peers[id];
        var rid := peer.roomId.value;
        announced := [Emit(Audience(s.(ioRooms := io), rid), PeerLeftRoom(id, peer.roomFiles))];
        var room;
        rs, room := DepartRoom(rs, rid, id, peer.roomFiles, "disconnected", now, peer.identity);
      }
      var shared := s.sharedFiles;
      if id in s.peers {
        shared := DeleteEach(shared, s.peers[id].globalFiles);
      }
      var rest := s.peers - {id};
      announced := announced + [Emit(rest.Keys, PeerLeft(id)), Emit(rest.Keys, FilesList(shared))];
      peers, sharedFiles, rooms, challenges, ioRooms := rest, shared, rs, s.challenges - {id}, io;
      outbox := outbox + announced;
    }

    /**
     * The five-minute room sweep: every expired room is announced to its
     * transport room, its connected members leave that transport room, and
     * it is deleted. Map iteration order is not modelled, so the events come
     * in some order, exactly one per expired room.
     */
    method SweepRooms(now: int) returns (ghost order: seq<RoomId>)
      modifies this`rooms, this`ioRooms, this`outbox
      ensures View() == SweptRooms(old(View()), now)
      ensures Enumerates(order, ExpiredRooms(old(View()), now))
      ensures outbox == old(outbox) + Announcements(old(View()), order)
    {
      var rs, io, announced;
      rs, io, announced, order := SweepLoop(View(), now, peers.Keys, rooms, ioRooms);
      rooms, ioRooms, outbox := rs, io, outbox + announced;
    }

    /** The one-minute challenge sweep: exactly the challenges more than five minutes old are deleted. */
    method SweepChallenges(now: int)
      modifies this`challenges
      ensures challenges == SweptChallenges(old(challenges), now)
    {
      ghost var original := challenges;
      var pending := challenges.Keys;
      while pending != {}
        invariant pending <= original.Keys
        invariant challenges == map id | id in original && (id in pending || !Stale(original[id], now)) :: original[id]
        decreases pending
      {
        var socketId :| socketId in pending;
        if Stale(challenges[socketId], now) {
          challenges := challenges - {socketId};
        }
        pending := pending - {socketId};
      }
    }
  }
}
