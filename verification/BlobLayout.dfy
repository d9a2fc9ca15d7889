/** Where every payload byte of a blob lives, as functions on values: the meaning of the
    encoder's cursors and buffers, and the decoder that inverts it. */
module BlobLayout {
  import opened TopBytes
  import opened Wrappers

  const METADATA_LENGTH := 4
  const FIELDS_PER_ITERATION := 4
  const DATA_SIZE_PER_ITERATION := FIELDS_PER_ITERATION * 31 + 3
  const MAX_ITERATIONS := 1024
  const MAX_BLOB_DATA_SIZE := DATA_SIZE_PER_ITERATION * MAX_ITERATIONS - METADATA_LENGTH
  const ENCODING_VERSION: byte := 0
  const BYTES_PER_BLOB := 131072

  function Min(a: nat, b: nat): nat {
    if a <= b then a else b
  }

  /** The length as the encoder narrows it before writing the header. */
  function AsU32(n: nat): nat {
    n % 0x1_0000_0000
  }

  /** The truncating cast to one byte. */
  function AsU8(n: nat): byte {
    (n % 0x100) as byte
  }

  /** The version byte followed by the low 24 bits of the size, big-endian. */
  function SizeHeader(size: nat): seq<byte> {
    [ENCODING_VERSION, AsU8(size / 0x1_0000), AsU8(size / 0x100), AsU8(size)]
  }

  /** What a blob carries: header and data. */
  function Payload(data: seq<byte>): (p: seq<byte>)
    ensures |p| == METADATA_LENGTH + |data| && p[METADATA_LENGTH..] == data
  {
    SizeHeader(AsU32(|data|)) + data
  }

  /** A byte string followed by zeros without end. */
  function Padded(p: seq<byte>, k: nat): byte {
    if k < |p| then p[k] else 0
  }

  /** The number of rounds the encoder runs. */
  function Rounds(length: nat): nat {
    Min(MAX_ITERATIONS, length / DATA_SIZE_PER_ITERATION + 1)
  }

  /** The number of rounds that holds header and data completely. */
  function EnoughRounds(length: nat): nat {
    (length + METADATA_LENGTH + DATA_SIZE_PER_ITERATION - 1) / DATA_SIZE_PER_ITERATION
  }

  /** Byte `j` of the 128 bytes that round `r` writes for payload `p`: four words, each a six-bit
      top byte and 31 payload bytes. The payload bytes 31, 63 and 95 of the round are spread over
      the top bytes. */
  function RoundByte(p: seq<byte>, r: nat, j: nat): byte {
    if j == 0 then TopX(Padded(p, 127 * r + 31))
    else if j == 32 then TopXY(Padded(p, 127 * r + 31), Padded(p, 127 * r + 63))
    else if j == 64 then TopZ(Padded(p, 127 * r + 95))
    else if j == 96 then TopYZ(Padded(p, 127 * r + 63), Padded(p, 127 * r + 95))
    else Padded(p, 127 * r + (j - 1))
  }

  function EncodedByte(p: seq<byte>, rounds: nat, i: nat): byte {
    if i / 128 < rounds then RoundByte(p, i / 128, i % 128) else 0
  }

  /** The blob that `rounds` rounds produce. */
  function Encoded(p: seq<byte>, rounds: nat): seq<byte> {
    seq(BYTES_PER_BLOB, i requires 0 <= i < BYTES_PER_BLOB => EncodedByte(p, rounds, i))
  }

  /** Payload byte `k` as it is read back from a blob. */
  function StoredByte(blob: seq<byte>, k: nat): byte
    requires |blob| == BYTES_PER_BLOB && k < DATA_SIZE_PER_ITERATION * MAX_ITERATIONS
  {
    var b, q := k / 127 * 128, k % 127;
    if q == 31 then JoinX(blob[b], blob[b + 32])
    else if q == 63 then JoinY(blob[b + 32], blob[b + 96])
    else if q == 95 then JoinZ(blob[b + 64], blob[b + 96])
    else blob[b + q + 1]
  }

  /** The size a blob's header announces. */
  function StoredSize(blob: seq<byte>): nat
    requires |blob| == BYTES_PER_BLOB
  {
    StoredByte(blob, 1) as int * 0x1_0000 + StoredByte(blob, 2) as int * 0x100 + StoredByte(blob, 3) as int
  }

  /** A field element is canonical when the two top bits of its first byte are clear. */
  ghost predicate CanonicalWords(blob: seq<byte>) {
    |blob| == BYTES_PER_BLOB && forall w | 0 <= w < 4096 :: blob[32 * w] < 0x40
  }

  /** The inverse of the encoder: refuses an unknown version, a size that cannot fit, and words
      that are not canonical. */
  ghost function Decode(blob: seq<byte>): Option<seq<byte>>
    requires |blob| == BYTES_PER_BLOB
  {
    if StoredByte(blob, 0) != ENCODING_VERSION || StoredSize(blob) > MAX_BLOB_DATA_SIZE || !CanonicalWords(blob) then
      None
    else Some(seq(StoredSize(blob), i requires 0 <= i < StoredSize(blob) => StoredByte(blob, METADATA_LENGTH + i)))
  }

  /** The payload of one transaction list, cut into the pieces that get a blob each. */
  function Chunks(bytes: seq<byte>): seq<seq<byte>> {
    if |bytes| == 0 then []
    else if |bytes| <= MAX_BLOB_DATA_SIZE then [bytes]
    else [bytes[..MAX_BLOB_DATA_SIZE]] + Chunks(bytes[MAX_BLOB_DATA_SIZE..])
  }

  /** The blob the encoder makes of one piece. */
  function BlobOf(data: seq<byte>): (blob: seq<byte>)
    ensures |blob| == BYTES_PER_BLOB
  {
    Encoded(Payload(data), Rounds(|data|))
  }

  /** The blobs of a whole payload. */
  function BlobsOf(bytes: seq<byte>): seq<seq<byte>> {
    var chunks := Chunks(bytes);
    seq(|chunks|, i requires 0 <= i < |chunks| => BlobOf(chunks[i]))
  }
}
