/**
 * The structural part of the browser's crypto helpers (public/crypto-client.js):
 * the hex rendering of digests, the password hash and proof, the client hash
 * chain, the identity prefix, the room-key material and the byte loops of the
 * base64 helpers. WebCrypto's SHA-256 and PBKDF2 are parameters.
 */
module ClientCrypto {
  import opened Common
  import opened Encoding
  import ServerCrypto

  // ------------------------------------------------------------- hex text

  /** `Number.prototype.toString(16)` for a non-negative integer. */
  function ToBase16(n: nat): (s: string)
    ensures |s| >= 1
  {
    if n < 16 then [HexDigit(n)] else ToBase16(n / 16) + [HexDigit(n % 16)]
  }

  /** `String.prototype.padStart(width, fill)` with a one-character fill. */
  function PadStart(s: string, width: nat, fill: char): (r: string)
    ensures |r| == if |s| >= width then |s| else width
  {
    if |s| >= width then s else seq(width - |s|, _ => fill) + s
  }

  /** `hashArray.map(b => b.toString(16).padStart(2, '0')).join('')`. */
  function DigestHex(bytes: seq<Byte>): string {
    if bytes == [] then "" else PadStart(ToBase16(bytes[0]), 2, '0') + DigestHex(bytes[1..])
  }

  /** One padded byte is exactly the pair of digits Node's `'hex'` writes. */
  lemma PaddedByte(b: Byte)
    ensures PadStart(ToBase16(b), 2, '0') == [HexDigit(b / 16), HexDigit(b % 16)]
  {
    if b >= 16 {
      assert ToBase16(b / 16) == [HexDigit(b / 16)];
    }
  }

  /** The browser's hex rendering agrees with Node's `'hex'` encoding on every byte string. */
  lemma {:induction false} DigestHexIsHex(bytes: seq<Byte>)
    ensures DigestHex(bytes) == Hex(bytes)
  {
    if bytes != [] {
      PaddedByte(bytes[0]);
      DigestHexIsHex(bytes[1..]);
    }
  }

  // ------------------------------------------------------ password proofs

  /**
   * `RoomCrypto.hashPassword`: 64 lowercase hex characters, two per digest
   * byte, and the same string the coordinator's `hashPassword` computes.
   */
  function HashPassword(sha256: Hasher, password: string): (h: string)
    ensures |h| == 64 && IsLowerHex(h)
    ensures h == ServerCrypto.HashPassword(sha256, password)
  {
    DigestHexIsHex(sha256(Utf8(password)));
    DigestHex(sha256(Utf8(password)))
  }

  /** `RoomCrypto.computeProof`: the client hashes `password + challenge`, exactly as the server's `computeProof`. */
  function ComputeProof(sha256: Hasher, password: string, challenge: string): (proof: string)
    ensures proof == ServerCrypto.ComputeProof(sha256, password, challenge)
    ensures HexDecode(proof) == sha256(Utf8(password) + Utf8(challenge))
  {
    HashPassword(sha256, password + challenge)
  }

  // ------------------------------------------------------------- room keys

  /** `deriveRoomKey`'s PBKDF2 key material, `password || roomId`. */
  function KeyMaterial(roomId: string, password: string): string {
    if password != "" then password else roomId
  }

  /**
   * `RoomCrypto.deriveRoomKey`: the browser derives the same 256-bit key as the
   * coordinator's `deriveRoomKey` from the same room id and password.
   */
  function DeriveRoomKey(sha256: Hasher, pbkdf2: ServerCrypto.Kdf, roomId: string, password: string): (key: seq<Byte>)
    ensures key == ServerCrypto.DeriveRoomKey(sha256, pbkdf2, roomId, password)
  {
    pbkdf2(Utf8(KeyMaterial(roomId, password)), sha256(Utf8(roomId)))
  }

  // ------------------------------------------------------------ identities

  /** `IntegrityCrypto.hashFile`: hex digest of the bytes. */
  function HashFile(sha256: Hasher, data: seq<Byte>): (h: string)
    ensures h == Hex(sha256(data))
    ensures |h| == 64 && IsLowerHex(h)
  {
    DigestHexIsHex(sha256(data));
    DigestHex(sha256(data))
  }

  /**
   * `CryptoUtils.generateIdentityHash`: the first six characters of the hex
   * digest, the same prefix the coordinator's helper computes for the same
   * name, clock reading and random text.
   */
  function GenerateIdentityHash(sha256: Hasher, displayName: string, now: int, randomText: string): (h: string)
    ensures |h| == 6 && IsLowerHex(h)
    ensures h == ServerCrypto.GenerateIdentityHash(sha256, displayName, now, randomText)
  {
    DigestHexIsHex(sha256(Utf8(displayName + Decimal(now) + randomText)));
    HashFile(sha256, Utf8(displayName + Decimal(now) + randomText))[..6]
  }

  // ------------------------------------------------------------ hash chain

  /** The browser chain's genesis value. */
  const Genesis := "00000000"

  /**
   * What `IntegrityCrypto.createHashChain` returns: one hex hash per chunk,
   * hash i being the digest of the UTF-8 text of the previous hash followed by
   * the chunk.
   */
  ghost predicate IsClientChain(sha256: Hasher, chunks: seq<seq<Byte>>, hashes: seq<string>) {
    && |hashes| == |chunks|
    && forall i :: 0 <= i < |chunks| ==> ClientLink(sha256, chunks, hashes, i)
  }

  /** Link i of a browser chain: hash i is the hex digest of the UTF-8 text of the hash before it followed by chunk i. */
  ghost predicate ClientLink(sha256: Hasher, chunks: seq<seq<Byte>>, hashes: seq<string>, i: nat)
    requires i < |hashes| && i < |chunks|
  {
    hashes[i] == DigestHex(sha256(Utf8(ServerCrypto.PreviousHash(hashes, i, Genesis)) + chunks[i]))
  }

  /** `IntegrityCrypto.createHashChain`. */
  method CreateHashChain(sha256: Hasher, chunks: seq<seq<Byte>>) returns (hashes: seq<string>)
    ensures IsClientChain(sha256, chunks, hashes)
  {
    hashes := [];
    var previousHash := Genesis;
    for i := 0 to |chunks|
      invariant |hashes| == i
      invariant previousHash == ServerCrypto.PreviousHash(hashes, i, Genesis)
      invariant forall j :: 0 <= j < i ==> ClientLink(sha256, chunks, hashes, j)
    {
      var prevHashBytes := Utf8(previousHash);
      var combined := prevHashBytes + chunks[i];
      var hashHex := DigestHex(sha256(combined));
      ExtendClientChain(sha256, chunks, hashes, hashHex);
      hashes := hashes + [hashHex];
      previousHash := hashHex;
    }
  }

  /** Appending the next link keeps every earlier link, since each one only looks back. */
  lemma ExtendClientChain(sha256: Hasher, chunks: seq<seq<Byte>>, hashes: seq<string>, hash: string)
    requires |hashes| < |chunks|
    requires forall j :: 0 <= j < |hashes| ==> ClientLink(sha256, chunks, hashes, j)
    requires hash == DigestHex(sha256(Utf8(ServerCrypto.PreviousHash(hashes, |hashes|, Genesis)) + chunks[|hashes|]))
    ensures forall j :: 0 <= j < |hashes| + 1 ==> ClientLink(sha256, chunks, hashes + [hash], j)
  {
    var longer := hashes + [hash];
    forall j | 0 <= j < |longer|
      ensures ClientLink(sha256, chunks, longer, j)
    {
      assert ServerCrypto.PreviousHash(longer, j, Genesis) == ServerCrypto.PreviousHash(hashes, j, Genesis);
      if j < |hashes| {
        assert ClientLink(sha256, chunks, hashes, j);
        assert longer[j] == hashes[j];
      }
    }
  }

  /** The raw digests behind the browser chain: each covers the previous hash's hex text, then the chunk. */
  function ChainDigest(sha256: Hasher, chunks: seq<seq<Byte>>, i: nat): Digest
    requires i < |chunks|
  {
    sha256(Utf8(if i == 0 then Genesis else Hex(ChainDigest(sha256, chunks, i - 1))) + chunks[i])
  }

  /** The browser chain is the hex of that digest chain, whose links run through the 64-byte hex text. */
  lemma {:induction false} ClientChainDigests(sha256: Hasher, chunks: seq<seq<Byte>>, hashes: seq<string>, i: nat)
    requires IsClientChain(sha256, chunks, hashes)
    requires i < |chunks|
    ensures hashes[i] == Hex(ChainDigest(sha256, chunks, i))
  {
    var previous := ServerCrypto.PreviousHash(hashes, i, Genesis);
    assert ClientLink(sha256, chunks, hashes, i);
    assert hashes[i] == DigestHex(sha256(Utf8(previous) + chunks[i]));
    if i > 0 {
      ClientChainDigests(sha256, chunks, hashes, i - 1);
      assert previous == Hex(ChainDigest(sha256, chunks, i - 1));
    }
    DigestHexIsHex(ChainDigest(sha256, chunks, i));
  }

  /** `IntegrityCrypto.verifyChunk`: an index outside the chain reads `undefined` and fails. */
  function VerifyChunk(sha256: Hasher, chunk: seq<Byte>, index: int, hashChain: seq<string>, previousHash: string): (ok: bool)
    ensures ok ==> 0 <= index < |hashChain|
  {
    0 <= index < |hashChain| && DigestHex(sha256(Utf8(previousHash) + chunk)) == hashChain[index]
  }

  /** Every chunk verifies against the chain built from it, given the matching previous hash. */
  lemma ClientChainVerifies(sha256: Hasher, chunks: seq<seq<Byte>>, hashes: seq<string>, i: nat)
    requires IsClientChain(sha256, chunks, hashes)
    requires i < |chunks|
    ensures VerifyChunk(sha256, chunks[i], i, hashes, ServerCrypto.PreviousHash(hashes, i, Genesis))
  {
    assert ClientLink(sha256, chunks, hashes, i);
  }

  // ------------------------------------------------- base64 helper loops

  /**
   * The loop of `arrayBufferToBase64` / `uint8ArrayToBase64` before `btoa`:
   * one character per byte, whose code is the byte.
   */
  method BytesToBinary(bytes: seq<Byte>) returns (binary: string)
    ensures |binary| == |bytes|
    ensures forall i :: 0 <= i < |bytes| ==> binary[i] as int == bytes[i]
  {
    binary := "";
    var i := 0;
    while i < |bytes|
      invariant 0 <= i <= |bytes|
      invariant |binary| == i
      invariant forall j :: 0 <= j < i ==> binary[j] as int == bytes[j]
    {
      binary := binary + [bytes[i] as char];
      i := i + 1;
    }
  }

  /**
   * The loop of `base64ToArrayBuffer` / `base64ToUint8Array` after `atob`: a
   * fresh `Uint8Array` as long as the string, element i being the character
   * code truncated to a byte.
   */
  method BinaryToBytes(binary: string) returns (bytes: array<Byte>)
    ensures fresh(bytes)
    ensures bytes.Length == |binary|
    ensures forall i :: 0 <= i < |binary| ==> bytes[i] == binary[i] as int % 256
  {
    bytes := new Byte[|binary|](_ => 0);
    for i := 0 to |binary|
      invariant forall j :: 0 <= j < i ==> bytes[j] == binary[j] as int % 256
    {
      bytes[i] := binary[i] as int % 256;
    }
  }

  /**
   * Encoding a buffer and decoding the result gives the same bytes back, given
   * that `atob` undoes `btoa`: the two loops are inverse.
   */
  method BinaryRoundTrip(buffer: seq<Byte>) returns (decoded: seq<Byte>)
    ensures decoded == buffer
  {
    var binary := BytesToBinary(buffer);
    var bytes := BinaryToBytes(binary);
    decoded := bytes[..];
  }
}
