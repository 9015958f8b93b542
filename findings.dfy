/**
 * Two places where the browser's crypto helpers and the coordinator's disagree.
 * Each is shown as written, on a concrete digest function that tells inputs
 * apart by their length, and next to it the corrected definition with the
 * property the two sides evidently meant to share.
 */
module Findings {
  import opened Common
  import opened Encoding
  import ServerCrypto
  import ClientCrypto
  import Coordinator

  /** A digest that records the input length in its first byte and nothing else. */
  function LengthDigest(bytes: seq<Byte>): (d: Digest)
    ensures d[0] == |bytes| % 256
  {
    seq(32, i => if i == 0 then |bytes| % 256 else 0)
  }

  /** The digest function the counterexamples use. */
  const LengthHasher: Hasher := (bytes: seq<Byte>) => LengthDigest(bytes)

  // ------------------------------------------------------ password proofs

  /**
   * As written, the browser answers a challenge with the digest of
   * `password + challenge`, while the coordinator checks it against the digest
   * of `hashPassword(password) + challenge`. With the length digest, a browser
   * that knows the room's password "a" is refused for every challenge.
   */
  lemma ClientProofRejected(challenge: string)
    ensures ServerCrypto.VerifyProof(LengthHasher, ClientCrypto.ComputeProof(LengthHasher, "a", challenge),
                                     ServerCrypto.HashPassword(LengthHasher, "a"), challenge) == Ok(false)
  {
    var h := LengthHasher;
    var stored := ServerCrypto.HashPassword(h, "a");
    HexIsAscii(stored);
    Utf8Ascii(stored);
    assert Utf8("a") == [97];
    var sent := h(Utf8("a") + Utf8(challenge));
    var expected := h(Utf8(stored) + Utf8(challenge));
    assert sent[0] == (1 + |Utf8(challenge)|) % 256;
    assert expected[0] == (64 + |Utf8(challenge)|) % 256;
    assert sent != expected;
  }

  /**
   * The same refusal at the coordinator: in a room created with password "a",
   * the proof the browser sends for its stored challenge is not accepted, so
   * `password-proof` answers "Invalid password".
   */
  lemma ClientProofNotAccepted(s: Coordinator.State, id: SocketId)
    requires id in s.challenges && s.challenges[id].roomId in s.rooms
    requires s.rooms[s.challenges[id].roomId].passwordHash == Some(ServerCrypto.HashPassword(LengthHasher, "a"))
    ensures !Coordinator.ProofAccepted(s, id, ClientCrypto.ComputeProof(LengthHasher, "a", s.challenges[id].challenge), LengthHasher)
  {
    ClientProofRejected(s.challenges[id].challenge);
  }

  /** The corrected browser proof: the digest of the password's hash followed by the challenge. */
  function HashedProof(sha256: Hasher, password: string, challenge: string): (proof: string)
    ensures HexDecode(proof) == sha256(Utf8(ServerCrypto.HashPassword(sha256, password)) + Utf8(challenge))
  {
    ClientCrypto.ComputeProof(sha256, ClientCrypto.HashPassword(sha256, password), challenge)
  }

  /**
   * With the corrected proof, the coordinator accepts a password exactly when
   * the two digests agree; in particular the right password is accepted for
   * every digest function and every challenge.
   */
  lemma HashedProofAccepted(sha256: Hasher, password: string, stored: string, challenge: string)
    ensures ServerCrypto.VerifyProof(sha256, HashedProof(sha256, password, challenge),
                                     ServerCrypto.HashPassword(sha256, stored), challenge) == Ok(
              sha256(Utf8(ServerCrypto.HashPassword(sha256, password)) + Utf8(challenge)) ==
              sha256(Utf8(ServerCrypto.HashPassword(sha256, stored)) + Utf8(challenge)))
    ensures ServerCrypto.VerifyProof(sha256, HashedProof(sha256, password, challenge),
                                     ServerCrypto.HashPassword(sha256, password), challenge) == Ok(true)
  {
  }

  /** At the coordinator, the corrected proof for the room's password admits the socket. */
  lemma HashedProofAdmits(s: Coordinator.State, id: SocketId, password: string, sha256: Hasher)
    requires id in s.challenges && s.challenges[id].roomId in s.rooms
    requires s.rooms[s.challenges[id].roomId].passwordHash == Some(ServerCrypto.HashPassword(sha256, password))
    ensures Coordinator.ProofAccepted(s, id, HashedProof(sha256, password, s.challenges[id].challenge), sha256)
  {
    HashedProofAccepted(sha256, password, password, s.challenges[id].challenge);
  }

  // ------------------------------------------------------------ hash chain

  /**
   * As written, the browser chain starts from "00000000" and feeds the UTF-8
   * text of the previous hash, the coordinator's from "0" (no bytes) and the
   * decoded previous digest. With the length digest, the chain the browser
   * builds over one empty chunk fails the coordinator's `verifyChunk`.
   */
  lemma ClientChainRejectedByServer(hashes: seq<string>)
    requires ClientCrypto.IsClientChain(LengthHasher, [[]], hashes)
    ensures !ServerCrypto.VerifyChunk(LengthHasher, [], 0, hashes, ServerCrypto.Genesis)
  {
    var h := LengthHasher;
    Utf8Ascii(ClientCrypto.Genesis);
    var browser := h(Utf8(ClientCrypto.Genesis) + []);
    ClientCrypto.DigestHexIsHex(browser);
    assert ClientCrypto.ClientLink(h, [[]], hashes, 0);
    assert hashes[0] == Hex(browser);
    ShortHexDecodesEmpty(ServerCrypto.Genesis);
    var server := h(HexDecode(ServerCrypto.Genesis) + []);
    assert browser[0] == 8 && server[0] == 0;
    HexRoundTrip(browser);
    HexRoundTrip(server);
  }

  /**
   * The corrected browser chain: it starts from the coordinator's genesis "0"
   * and feeds the hex-decoded previous hash, so it is exactly the chain the
   * coordinator builds.
   */
  method CreatePortableChain(sha256: Hasher, chunks: seq<seq<Byte>>) returns (hashes: seq<string>)
    ensures ServerCrypto.IsServerChain(sha256, chunks, hashes)
  {
    hashes := [];
    var previousHash := ServerCrypto.Genesis;
    for i := 0 to |chunks|
      invariant |hashes| == i
      invariant previousHash == ServerCrypto.PreviousHash(hashes, i, ServerCrypto.Genesis)
      invariant forall j :: 0 <= j < i ==> ServerCrypto.ServerLink(sha256, chunks, hashes, j)
    {
      var digest := sha256(HexDecode(previousHash) + chunks[i]);
      ClientCrypto.DigestHexIsHex(digest);
      var hashHex := ClientCrypto.DigestHex(digest);
      ServerCrypto.ExtendServerChain(sha256, chunks, hashes, hashHex);
      hashes := hashes + [hashHex];
      previousHash := hashHex;
    }
  }

  /**
   * A chain the coordinator accepts is determined by its chunks: the
   * corrected browser chain is the very chain the coordinator's
   * `createHashChain` builds for the same chunks, so each of its chunks
   * passes `verifyChunk`.
   */
  lemma PortableChainIsServerChain(sha256: Hasher, chunks: seq<seq<Byte>>, portable: seq<string>, server: seq<string>)
    requires ServerCrypto.IsServerChain(sha256, chunks, portable)
    requires ServerCrypto.IsServerChain(sha256, chunks, server)
    ensures portable == server
  {
    forall i | 0 <= i < |chunks| ensures portable[i] == server[i] {
      ServerCrypto.ServerChainDigests(sha256, chunks, portable, i);
      ServerCrypto.ServerChainDigests(sha256, chunks, server, i);
    }
  }
}
