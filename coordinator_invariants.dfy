/**
 * What the coordinator's handlers keep true of the registries, and what they
 * let through: every handler preserves `Valid`; room creation does so only
 * when the new id is not already in use; a file can be unshared by any
 * member of its room; a socket that joins a second room without leaving the
 * first stays listed in the first, even after it disconnects; and a member of
 * a swept room can no longer share anything.
 */
module CoordinatorInvariants {
  import opened Common
  import opened Coordinator
  import ServerCrypto

  // ------------------------------------------------------- preservation

  lemma ConnectKeepsValid(s: State, id: SocketId)
    requires Valid(s) && id !in s.peers
    ensures Valid(ConnectStep(s, id).state)
  {
  }

  /** Admission keeps the invariant: the joiner becomes a member of the room it now names. */
  lemma AdmitKeepsValid(s: State, id: SocketId, roomId: RoomId, identity: Option<Identity>, publicKey: Option<string>, now: int)
    requires Valid(s) && id in s.peers && roomId in s.rooms
    ensures Valid(Admit(s, id, roomId, identity, publicKey, now).state)
  {
    var t := Admit(s, id, roomId, identity, publicKey, now).state;
    AdmitEffects(s, id, roomId, identity, publicKey, now, Admit(s, id, roomId, identity, publicKey, now));
    forall name | name in t.ioRooms ensures t.ioRooms[name] <= t.peers.Keys {
      assert Joined(t, name) == t.ioRooms[name];
    }
  }

  lemma JoinRoomKeepsValid(s: State, id: SocketId, roomId: RoomId, password: Option<string>, identity: Option<Identity>,
                           publicKey: Option<string>, now: int, sha256: Hasher, challengeBytes: seq<Byte>)
    requires Valid(s) && id in s.peers && |challengeBytes| == 32
    ensures Valid(JoinRoomStep(s, id, roomId, password, identity, publicKey, now, sha256, challengeBytes).state)
  {
    if JoinAdmits(s, roomId, password, sha256, now) {
      AdmitKeepsValid(s, id, roomId, identity, publicKey, now);
    }
  }

  lemma PasswordProofKeepsValid(s: State, id: SocketId, proof: string, now: int, sha256: Hasher)
    requires Valid(s) && id in s.peers
    requires PasswordProofStep(s, id, proof, now, sha256).Ok?
    ensures Valid(PasswordProofStep(s, id, proof, now, sha256).value.state)
  {
    if id in s.challenges && s.challenges[id].roomId in s.rooms {
      var c := s.challenges[id];
      var s1 := s.(challenges := s.challenges - {id});
      assert Valid(s1);
      if ProofAccepted(s, id, proof, sha256) {
        AdmitKeepsValid(s1, id, c.roomId, c.identity, c.publicKey, now);
      }
    }
  }

  /**
   * With the exception caught, every `password-proof` yields a step, which
   * keeps the invariant: the handler's own step when `verifyProof` returns,
   * and otherwise the challenge consumed and "Invalid password" answered.
   */
  lemma PasswordProofCaughtKeepsValid(s: State, id: SocketId, proof: string, now: int, sha256: Hasher)
    requires Valid(s) && id in s.peers
    ensures var r := PasswordProofCaughtStep(s, id, proof, now, sha256);
            && Valid(r.state)
            && (PasswordProofStep(s, id, proof, now, sha256).Ok? ==> r == PasswordProofStep(s, id, proof, now, sha256).value)
            && (PasswordProofStep(s, id, proof, now, sha256).Throws? ==>
                  && r.state == s.(challenges := s.challenges - {id})
                  && r.emits == [Emit({id}, RoomError(InvalidPassword))])
  {
    if PasswordProofStep(s, id, proof, now, sha256).Ok? {
      PasswordProofKeepsValid(s, id, proof, now, sha256);
    } else {
      assert Valid(s.(challenges := s.challenges - {id}));
    }
  }

  lemma ShareFileKeepsValid(s: State, id: SocketId, name: string, size: int, mime: string, now: int)
    requires Valid(s)
    ensures Valid(ShareFileStep(s, id, name, size, mime, now).state)
  {
    ShareFileScoping(s, id, name, size, mime, now, ShareFileStep(s, id, name, size, mime, now));
  }

  lemma UnshareFileKeepsValid(s: State, id: SocketId, fileId: FileId, roomId: Option<RoomId>)
    requires Valid(s)
    ensures Valid(UnshareFileStep(s, id, fileId, roomId).state)
  {
    UnshareFileEffects(s, id, fileId, roomId, UnshareFileStep(s, id, fileId, roomId));
  }

  lemma LeaveRoomKeepsValid(s: State, id: SocketId, roomId: Field<RoomId>, now: int)
    requires Valid(s)
    ensures Valid(LeaveRoomStep(s, id, roomId, now).state)
  {
    var t := LeaveRoomStep(s, id, roomId, now).state;
    LeaveRoomEffects(s, id, roomId, now, LeaveRoomStep(s, id, roomId, now));
    if id in s.peers && SameRoom(s.peers[id].roomId, roomId) && roomId.Given? && roomId.value in s.rooms {
      forall name | name in t.ioRooms ensures t.ioRooms[name] <= t.peers.Keys {
        assert Joined(t, name) == t.ioRooms[name];
      }
    }
  }

  lemma DisconnectKeepsValid(s: State, id: SocketId, now: int)
    requires Valid(s)
    ensures Valid(DisconnectStep(s, id, now).state)
  {
    DisconnectEffects(s, id, now, DisconnectStep(s, id, now));
  }

  lemma SweepRoomsKeepsValid(s: State, now: int)
    requires Valid(s)
    ensures Valid(SweptRooms(s, now))
  {
  }

  lemma SweepChallengesKeepsValid(s: State, now: int)
    requires Valid(s)
    ensures Valid(s.(challenges := SweptChallenges(s.challenges, now)))
  {
  }

  lemma RoomInfoKeepsValid(s: State, roomId: RoomId, now: int)
    requires Valid(s)
    ensures Valid(s.(rooms := RoomInfoStep(s.rooms, roomId, now).0))
  {
  }

  /**
   * Storing a new room keeps the invariant when its id is not in use: no room
   * has it and no socket still names it as its room.
   */
  lemma CreateRoomKeepsValid(s: State, roomId: RoomId, room: Room)
    requires Valid(s)
    requires room.peers == {} && room.files == map[] && room.publicKeys == map[]
    requires roomId !in s.rooms && forall p :: p in s.peers ==> s.peers[p].roomId != Some(roomId)
    ensures Valid(s.(rooms := s.rooms[roomId := room]))
  {
  }

  /**
   * Without that check the invariant can break: a room id that a connected
   * socket still names (its room was swept) and that `crypto.randomBytes`
   * draws again gives that socket an empty room it is not a member of.
   */
  lemma CreateRoomOverStaleIdBreaksValid(roomId: RoomId, room: Room)
    requires room.peers == {} && room.files == map[] && room.publicKeys == map[]
    ensures var s := State(map["sock" := Peer(Some(roomId), None, None, [], [])], map[], map[], map[], map[]);
            Valid(s) && !Valid(s.(rooms := s.rooms[roomId := room]))
  {
    var s := State(map["sock" := Peer(Some(roomId), None, None, [], [])], map[], map[], map[], map[]);
    var t := s.(rooms := s.rooms[roomId := room]);
    assert "sock" in t.peers && t.peers["sock"].roomId.value in t.rooms && "sock" !in t.rooms[roomId].peers;
  }

  // ------------------------------------------------------- exposures

  /** `unshare-file` checks no ownership: any connected socket removes any file from a room it names. */
  lemma UnshareIgnoresOwnership(s: State, id: SocketId, fileId: FileId, roomId: RoomId)
    requires id in s.peers && roomId != "" && roomId in s.rooms && fileId in s.rooms[roomId].files
    requires s.rooms[roomId].files[fileId].peerId != id
    ensures var t := UnshareFileStep(s, id, fileId, Some(roomId)).state;
            roomId in t.rooms && fileId !in t.rooms[roomId].files
  {
    UnshareFileEffects(s, id, fileId, Some(roomId), UnshareFileStep(s, id, fileId, Some(roomId)));
  }

  /**
   * `join-room` does not take a socket out of the room it was in: it stays in
   * that room's member set while its entry names the new room.
   */
  lemma JoinKeepsOldMembership(s: State, id: SocketId, oldRoom: RoomId, roomId: RoomId, password: Option<string>,
                               identity: Option<Identity>, publicKey: Option<string>, now: int, sha256: Hasher, challengeBytes: seq<Byte>)
    requires id in s.peers && |challengeBytes| == 32
    requires oldRoom in s.rooms && id in s.rooms[oldRoom].peers && oldRoom != roomId
    requires JoinAdmits(s, roomId, password, sha256, now)
    ensures var t := JoinRoomStep(s, id, roomId, password, identity, publicKey, now, sha256, challengeBytes).state;
            && oldRoom in t.rooms && id in t.rooms[oldRoom].peers
            && t.peers[id].roomId == Some(roomId)
  {
    var r := JoinRoomStep(s, id, roomId, password, identity, publicKey, now, sha256, challengeBytes);
    JoinRoomOutcomes(s, id, roomId, password, identity, publicKey, now, sha256, challengeBytes, r);
    AdmitEffects(s, id, roomId, identity, publicKey, now, r);
  }

  /**
   * `disconnect` cleans up only the room the entry names, so a socket listed
   * in another room stays listed there after it is gone.
   */
  lemma DisconnectLeavesStaleMember(s: State, id: SocketId, otherRoom: RoomId, now: int)
    requires id in s.peers && otherRoom in s.rooms && id in s.rooms[otherRoom].peers
    requires s.peers[id].roomId != Some(otherRoom)
    ensures var t := DisconnectStep(s, id, now).state;
            id !in t.peers && otherRoom in t.rooms && id in t.rooms[otherRoom].peers
  {
    DisconnectEffects(s, id, now, DisconnectStep(s, id, now));
  }

  /**
   * The room sweep leaves the members' entries naming the deleted room, so
   * a later `share-file` from one of them changes nothing and emits nothing.
   */
  lemma SweptMemberCannotShare(s: State, now: int, id: SocketId, name: string, size: int, mime: string, later: int)
    requires InRoom(s, id) && s.peers[id].roomId.value in s.rooms
    requires Expired(s.rooms[s.peers[id].roomId.value], now)
    ensures var t := SweptRooms(s, now);
            && t.peers[id].roomId == s.peers[id].roomId
            && ShareFileStep(t, id, name, size, mime, later) == Step(t, [])
  {
    var t := SweptRooms(s, now);
    ShareFileScoping(t, id, name, size, mime, later, ShareFileStep(t, id, name, size, mime, later));
  }
}
