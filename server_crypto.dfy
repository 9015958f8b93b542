/**
 * The structural part of the coordinator's crypto helpers (utils/crypto.js):
 * room ids, random strings, identity prefixes, the password hash and the
 * challenge proof, the key-material choice for the room key, and the file
 * hash chain. SHA-256 and PBKDF2 are parameters; random bytes are inputs.
 */
module ServerCrypto {
  import opened Common
  import opened Encoding

  /** PBKDF2-SHA256 with 100000 iterations and a 32-byte output: (password bytes, salt) to key. */
  type Kdf = (seq<Byte>, seq<Byte>) -> seq<Byte>

  // ---------------------------------------------------------------- room ids

  /** The 62 characters `A`-`Z`, `a`-`z`, `0`-`9`, in that order. */
  const RoomIdAlphabet: string :=
    seq(26, i requires 0 <= i < 26 => ('A' as int + i) as char) +
    seq(26, i requires 0 <= i < 26 => ('a' as int + i) as char) +
    seq(10, i requires 0 <= i < 10 => ('0' as int + i) as char)

  predicate IsAlphanumeric(c: char) {
    'A' <= c <= 'Z' || 'a' <= c <= 'z' || '0' <= c <= '9'
  }

  /**
   * `CryptoUtils.generateRoomId`, given the nine bytes `crypto.randomBytes(9)`
   * returned: character i is the alphabet entry at `randomBytes[i] % 62`.
   */
  method GenerateRoomId(randomBytes: seq<Byte>) returns (roomId: string)
    requires |randomBytes| == 9
    ensures |roomId| == 9
    ensures forall i :: 0 <= i < 9 ==> roomId[i] == RoomIdAlphabet[randomBytes[i] % |RoomIdAlphabet|]
    ensures forall i :: 0 <= i < 9 ==> IsAlphanumeric(roomId[i])
  {
    roomId := "";
    var i := 0;
    while i < 9
      invariant 0 <= i <= 9
      invariant |roomId| == i
      invariant forall j :: 0 <= j < i ==> roomId[j] == RoomIdAlphabet[randomBytes[j] % |RoomIdAlphabet|]
    {
      roomId := roomId + [RoomIdAlphabet[randomBytes[i] % |RoomIdAlphabet|]];
      i := i + 1;
    }
  }

  // ------------------------------------------------------- random strings

  /**
   * `CryptoUtils.randomString(length)`, given the `ceil(length / 2)` random
   * bytes: their hex, cut to `length` characters.
   */
  function RandomString(length: nat, randomBytes: seq<Byte>): (s: string)
    requires |randomBytes| == (length + 1) / 2
    ensures |s| == length
    ensures IsLowerHex(s)
  {
    Hex(randomBytes)[..length]
  }

  /** `RoomCrypto.generateChallenge`: the hex of 32 random bytes. */
  function GenerateChallenge(randomBytes: seq<Byte>): (c: string)
    requires |randomBytes| == 32
    ensures |c| == 64 && IsLowerHex(c)
    ensures HexDecode(c) == randomBytes
  {
    HexRoundTrip(randomBytes);
    Hex(randomBytes)
  }

  /**
   * `CryptoUtils.generateIdentityHash`: the first six hex characters of the
   * digest of `displayName + Date.now() + Math.random()`; the clock reading
   * and the rendered random number are inputs.
   */
  function GenerateIdentityHash(sha256: Hasher, displayName: string, now: int, randomText: string): (h: string)
    ensures |h| == 6 && IsLowerHex(h)
    ensures h <= Hex(sha256(Utf8(displayName + Decimal(now) + randomText)))
  {
    Hex(sha256(Utf8(displayName + Decimal(now) + randomText)))[..6]
  }

  // ------------------------------------------------------ password proofs

  /** `RoomCrypto.hashPassword`: lowercase hex SHA-256 of the UTF-8 password. */
  function HashPassword(sha256: Hasher, password: string): (h: string)
    ensures |h| == 64 && IsLowerHex(h)
    ensures HexDecode(h) == sha256(Utf8(password))
  {
    HexRoundTrip(sha256(Utf8(password)));
    Hex(sha256(Utf8(password)))
  }

  /** `RoomCrypto.computeProof`: the hex digest of `password + challenge`. */
  function ComputeProof(sha256: Hasher, password: string, challenge: string): (proof: string)
    ensures |proof| == 64 && IsLowerHex(proof)
    ensures HexDecode(proof) == sha256(Utf8(password) + Utf8(challenge))
  {
    Utf8Append(password, challenge);
    HashPassword(sha256, password + challenge)
  }

  const LengthMismatch := "Input buffers must have the same byte length"

  /**
   * `RoomCrypto.verifyProof`: recomputes the digest of `passwordHash +
   * challenge` and compares it with the hex-decoded proof by
   * `crypto.timingSafeEqual`, which throws when the two buffers differ in
   * length. So a proof is accepted exactly when it decodes to that digest, and
   * any proof that does not decode to 32 bytes makes the call throw.
   */
  function VerifyProof(sha256: Hasher, proof: string, passwordHash: string, challenge: string): (r: Result<bool>)
    ensures |HexDecode(proof)| != 32 <==> r.Throws?
    ensures r.Ok? ==> (r.value <==> HexDecode(proof) == sha256(Utf8(passwordHash) + Utf8(challenge)))
  {
    var expectedProof := ComputeProof(sha256, passwordHash, challenge);
    var given := HexDecode(proof);
    var expected := HexDecode(expectedProof);
    if |given| != |expected| then Throws(LengthMismatch) else Ok(given == expected)
  }

  /** The server's own proof of a stored hash is always accepted. */
  lemma VerifyAcceptsProofOfHash(sha256: Hasher, passwordHash: string, challenge: string)
    ensures VerifyProof(sha256, ComputeProof(sha256, passwordHash, challenge), passwordHash, challenge) == Ok(true)
  {
  }

  // ------------------------------------------------------------- room keys

  /** The PBKDF2 key material of `deriveRoomKey`: `password || roomId`. */
  function KeyMaterial(roomId: string, password: string): string {
    if password != "" then password else roomId
  }

  /**
   * `RoomCrypto.deriveRoomKey`: PBKDF2 over the password when there is one and
   * over the room id otherwise, salted with the raw SHA-256 digest of the room id.
   */
  function DeriveRoomKey(sha256: Hasher, pbkdf2: Kdf, roomId: string, password: string): (key: seq<Byte>)
    ensures password != "" ==> key == pbkdf2(Utf8(password), sha256(Utf8(roomId)))
    ensures password == "" ==> key == pbkdf2(Utf8(roomId), sha256(Utf8(roomId)))
  {
    pbkdf2(Utf8(KeyMaterial(roomId, password)), sha256(Utf8(roomId)))
  }

  /**
   * Without a password the room key is the one a password equal to the room id
   * would give: whoever holds the room id (the share link) can derive it.
   */
  lemma RoomIdAloneDeterminesKey(sha256: Hasher, pbkdf2: Kdf, roomId: string)
    ensures DeriveRoomKey(sha256, pbkdf2, roomId, "") == DeriveRoomKey(sha256, pbkdf2, roomId, roomId)
  {
  }

  // ------------------------------------------------------------ hash chain

  /** The server chain's genesis value. */
  const Genesis := "0"

  /** The previous-hash string the chain uses for entry i. */
  function PreviousHash(hashes: seq<string>, i: nat, genesis: string): string
    requires i <= |hashes|
  {
    if i == 0 then genesis else hashes[i - 1]
  }

  /**
   * What `IntegrityCrypto.createHashChain` returns: one hex hash per chunk,
   * hash i being the digest of the hex-decoded previous hash followed by the
   * chunk.
   */
  ghost predicate IsServerChain(sha256: Hasher, chunks: seq<seq<Byte>>, hashes: seq<string>) {
    && |hashes| == |chunks|
    && forall i :: 0 <= i < |chunks| ==> ServerLink(sha256, chunks, hashes, i)
  }

  /** Link i of a coordinator chain: hash i is the hex digest of the decoded hash before it followed by chunk i. */
  ghost predicate ServerLink(sha256: Hasher, chunks: seq<seq<Byte>>, hashes: seq<string>, i: nat)
    requires i < |hashes| && i < |chunks|
  {
    hashes[i] == Hex(sha256(HexDecode(PreviousHash(hashes, i, Genesis)) + chunks[i]))
  }

  /** `IntegrityCrypto.createHashChain`. */
  method CreateHashChain(sha256: Hasher, chunks: seq<seq<Byte>>) returns (hashes: seq<string>)
    ensures IsServerChain(sha256, chunks, hashes)
  {
    hashes := [];
    var previousHash := Genesis;
    for i := 0 to |chunks|
      invariant |hashes| == i
      invariant previousHash == PreviousHash(hashes, i, Genesis)
      invariant forall j :: 0 <= j < i ==> ServerLink(sha256, chunks, hashes, j)
    {
      var combined := HexDecode(previousHash) + chunks[i];
      var hash := Hex(sha256(combined));
      ExtendServerChain(sha256, chunks, hashes, hash);
      hashes := hashes + [hash];
      previousHash := hash;
    }
  }

  /** Appending the next link keeps every earlier link, since each one only looks back. */
  lemma ExtendServerChain(sha256: Hasher, chunks: seq<seq<Byte>>, hashes: seq<string>, hash: string)
    requires |hashes| < |chunks|
    requires forall j :: 0 <= j < |hashes| ==> ServerLink(sha256, chunks, hashes, j)
    requires hash == Hex(sha256(HexDecode(PreviousHash(hashes, |hashes|, Genesis)) + chunks[|hashes|]))
    ensures forall j :: 0 <= j < |hashes| + 1 ==> ServerLink(sha256, chunks, hashes + [hash], j)
  {
    var longer := hashes + [hash];
    forall j | 0 <= j < |longer|
      ensures ServerLink(sha256, chunks, longer, j)
    {
      assert PreviousHash(longer, j, Genesis) == PreviousHash(hashes, j, Genesis);
      if j < |hashes| {
        assert ServerLink(sha256, chunks, hashes, j);
        assert longer[j] == hashes[j];
      }
    }
  }

  /** The raw digest chain: digest i covers digest i-1 (nothing before the first) and chunk i. */
  function ChainDigest(sha256: Hasher, chunks: seq<seq<Byte>>, i: nat): Digest
    requires i < |chunks|
  {
    sha256((if i == 0 then [] else ChainDigest(sha256, chunks, i - 1)) + chunks[i])
  }

  /**
   * The server chain is the hex of the raw digest chain: the genesis `'0'`
   * decodes to no bytes, and each previous hex hash decodes back to its digest.
   */
  lemma {:induction false} ServerChainDigests(sha256: Hasher, chunks: seq<seq<Byte>>, hashes: seq<string>, i: nat)
    requires IsServerChain(sha256, chunks, hashes)
    requires i < |chunks|
    ensures hashes[i] == Hex(ChainDigest(sha256, chunks, i))
  {
    assert ServerLink(sha256, chunks, hashes, i);
    if i == 0 {
      ShortHexDecodesEmpty(Genesis);
    } else {
      ServerChainDigests(sha256, chunks, hashes, i - 1);
      HexRoundTrip(ChainDigest(sha256, chunks, i - 1));
    }
  }

  /** `IntegrityCrypto.verifyChunk`: an index outside the chain reads `undefined` and fails. */
  function VerifyChunk(sha256: Hasher, chunk: seq<Byte>, index: int, hashChain: seq<string>, previousHash: string): (ok: bool)
    ensures ok ==> 0 <= index < |hashChain|
  {
    0 <= index < |hashChain| && Hex(sha256(HexDecode(previousHash) + chunk)) == hashChain[index]
  }

  /** Every chunk verifies against the chain built from it, given the matching previous hash. */
  lemma ServerChainVerifies(sha256: Hasher, chunks: seq<seq<Byte>>, hashes: seq<string>, i: nat)
    requires IsServerChain(sha256, chunks, hashes)
    requires i < |chunks|
    ensures VerifyChunk(sha256, chunks[i], i, hashes, PreviousHash(hashes, i, Genesis))
  {
    assert ServerLink(sha256, chunks, hashes, i);
  }
}
