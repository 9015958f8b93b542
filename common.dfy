/** Values shared by the coordinator, the browser client and the crypto helpers. */
module Common {

  datatype Option<+T> = None | Some(value: T)

  /** A call that returns a value or throws (a JavaScript exception). */
  datatype Result<+T> = Ok(value: T) | Throws(error: string)

  /** A JavaScript byte (a Buffer or Uint8Array element). */
  type Byte = b: int | 0 <= b < 256

  /** A SHA-256 digest: exactly 32 bytes. */
  type Digest = s: seq<Byte> | |s| == 32 witness seq(32, i => 0)

  /** SHA-256 itself is never modelled; every user takes it as this parameter. */
  type Hasher = seq<Byte> -> Digest

  type SocketId = string
  type RoomId = string
  type FileId = string

  /** The identity object a browser sends with `join-room`. */
  datatype Identity = Identity(displayName: string, hash: string, fullIdentity: string)

  /**
   * A catalogue entry as the coordinator broadcasts it. Global files carry no
   * room, no identity and no share time; room files carry all three.
   */
  datatype FileRecord = FileRecord(
    id: FileId,
    name: string,
    size: int,
    mime: string,
    peerId: SocketId,
    identity: Option<Identity>,
    roomId: Option<RoomId>,
    sharedAt: Option<int>)

  /** JavaScript truthiness of a string that may be null or undefined. */
  predicate Truthy(s: Option<string>) {
    s.Some? && s.value != ""
  }

  /** JavaScript truthiness of a number that may be null or undefined. */
  predicate TruthyNumber(n: Option<int>) {
    n.Some? && n.value != 0
  }
}
