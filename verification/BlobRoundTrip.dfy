/** What decoding gives back, exactly: when the round count of the encoder loses bytes, which
    bytes it loses, and which round count would lose none. */
module BlobRoundTrip {
  import opened Wrappers
  import opened BlobLayout
  import opened FieldElements
  import opened TopBytes

  /** Byte `j` of the stretch of the blob that belongs to round `r`. */
  lemma EncodedAt(p: seq<byte>, rounds: nat, r: nat, j: nat)
    requires r < MAX_ITERATIONS && j < 128
    ensures Encoded(p, rounds)[128 * r + j] == if r < rounds then RoundByte(p, r, j) else 0
  {
    assert (128 * r + j) / 128 == r && (128 * r + j) % 128 == j;
  }

  /** Reading payload position `k` back gives what was written there. */
  lemma StoredByteOfEncoded(p: seq<byte>, rounds: nat, k: nat)
    requires k < 127 * rounds && k < DATA_SIZE_PER_ITERATION * MAX_ITERATIONS
    ensures StoredByte(Encoded(p, rounds), k) == Padded(p, k)
  {
    assert k == 127 * (k / 127) + k % 127;
    StoredByteInRound(p, rounds, k / 127, k % 127);
  }

  lemma StoredByteInRound(p: seq<byte>, rounds: nat, r: nat, q: nat)
    requires r < rounds && r < MAX_ITERATIONS && q < 127
    ensures StoredByte(Encoded(p, rounds), 127 * r + q) == Padded(p, 127 * r + q)
  {
    if q == 31 || q == 63 || q == 95 {
      StoredSpreadBytes(p, rounds, r);
    } else {
      StoredPlainByte(p, rounds, r, q);
    }
  }

  lemma StoredPlainByte(p: seq<byte>, rounds: nat, r: nat, q: nat)
    requires r < rounds && r < MAX_ITERATIONS && q < 127 && q != 31 && q != 63 && q != 95
    ensures StoredByte(Encoded(p, rounds), 127 * r + q) == Padded(p, 127 * r + q)
  {
    StoredBytePlain(Encoded(p, rounds), r, q);
    EncodedAt(p, rounds, r, q + 1);
  }

  /** All but three payload bytes of a round are stored as they are. */
  lemma StoredBytePlain(blob: seq<byte>, r: nat, q: nat)
    requires |blob| == BYTES_PER_BLOB && r < MAX_ITERATIONS && q < 127 && q != 31 && q != 63 && q != 95
    ensures StoredByte(blob, 127 * r + q) == blob[128 * r + q + 1]
  {
    assert (127 * r + q) / 127 == r && (127 * r + q) % 127 == q;
  }

  /** The first payload bytes behind the last round read as zeros. */
  lemma StoredBytePastRounds(p: seq<byte>, rounds: nat, k: nat)
    requires 127 * rounds <= k < 127 * rounds + 31 && k < DATA_SIZE_PER_ITERATION * MAX_ITERATIONS
    ensures StoredByte(Encoded(p, rounds), k) == 0
  {
    assert k / 127 == rounds;
    EncodedAt(p, rounds, rounds, k % 127 + 1);
  }

  lemma StoredByteJoins(blob: seq<byte>, r: nat)
    requires |blob| == BYTES_PER_BLOB && r < MAX_ITERATIONS
    ensures StoredByte(blob, 127 * r + 31) == JoinX(blob[128 * r], blob[128 * r + 32])
    ensures StoredByte(blob, 127 * r + 63) == JoinY(blob[128 * r + 32], blob[128 * r + 96])
    ensures StoredByte(blob, 127 * r + 95) == JoinZ(blob[128 * r + 64], blob[128 * r + 96])
  {
    assert (127 * r + 31) / 127 == (127 * r + 63) / 127 == (127 * r + 95) / 127 == r;
  }

  lemma StoredSpreadBytes(p: seq<byte>, rounds: nat, r: nat)
    requires r < rounds && r < MAX_ITERATIONS
    ensures StoredByte(Encoded(p, rounds), 127 * r + 31) == Padded(p, 127 * r + 31)
    ensures StoredByte(Encoded(p, rounds), 127 * r + 63) == Padded(p, 127 * r + 63)
    ensures StoredByte(Encoded(p, rounds), 127 * r + 95) == Padded(p, 127 * r + 95)
  {
    StoredByteJoins(Encoded(p, rounds), r);
    TopBytesOfRound(p, rounds, r);
    SpreadBytesRejoin(Padded(p, 127 * r + 31), Padded(p, 127 * r + 63), Padded(p, 127 * r + 95));
  }

  lemma TopBytesOfRound(p: seq<byte>, rounds: nat, r: nat)
    requires r < rounds && r < MAX_ITERATIONS
    ensures Encoded(p, rounds)[128 * r] == TopX(Padded(p, 127 * r + 31))
    ensures Encoded(p, rounds)[128 * r + 32] == TopXY(Padded(p, 127 * r + 31), Padded(p, 127 * r + 63))
    ensures Encoded(p, rounds)[128 * r + 64] == TopZ(Padded(p, 127 * r + 95))
    ensures Encoded(p, rounds)[128 * r + 96] == TopYZ(Padded(p, 127 * r + 63), Padded(p, 127 * r + 95))
  {
    EncodedAt(p, rounds, r, 0);
    EncodedAt(p, rounds, r, 32);
    EncodedAt(p, rounds, r, 64);
    EncodedAt(p, rounds, r, 96);
  }

  // ---- canonical words -----------------------------------------------------------------------

  /** No word reaches 2^254, whatever the data and however many rounds ran. */
  lemma EncodedWordsCanonical(p: seq<byte>, rounds: nat)
    ensures CanonicalWords(Encoded(p, rounds))
  {
    var blob := Encoded(p, rounds);
    forall w | 0 <= w < 4096
      ensures blob[32 * w] < 0x40
    {
      var r := w / 4;
      EncodedAt(p, rounds, r, 32 * (w % 4));
      TopBytesAreSmall(Padded(p, 127 * r + 31), Padded(p, 127 * r + 63), Padded(p, 127 * r + 95));
    }
  }

  /** The encoder's blob, for data of any length: every word is below 2^254, hence a field element,
      and nothing is written past the last round. */
  lemma BlobIsCanonical(data: seq<byte>)
    ensures |BlobOf(data)| == 131072
    ensures forall w | 0 <= w < 4096 :: BigEndian(BlobOf(data)[32 * w..32 * w + 32]) < TWO_254 < BLS_MODULUS
    ensures forall i | 128 * Rounds(|data|) <= i < 131072 :: BlobOf(data)[i] == 0
  {
    EncodedWordsCanonical(Payload(data), Rounds(|data|));
    Pow256Of31();
    forall w | 0 <= w < 4096
      ensures BigEndian(BlobOf(data)[32 * w..32 * w + 32]) < TWO_254 < BLS_MODULUS
    {
      BigEndianBound(BlobOf(data)[32 * w..32 * w + 32]);
    }
  }

  // ---- round trip ----------------------------------------------------------------------------

  /** What survives `rounds` rounds: the rest of the data reads as zeros. */
  function Kept(data: seq<byte>, rounds: nat): (r: seq<byte>)
    ensures |r| == |data|
  {
    seq(|data|, i requires 0 <= i < |data| => if i + METADATA_LENGTH < 127 * rounds then data[i] else 0)
  }

  /** The number of trailing bytes the encoder never reads. */
  function Lost(length: nat): nat {
    if length % 127 <= 123 then 0 else length % 127 - 123
  }

  function Zeros(n: nat): (r: seq<byte>)
    ensures |r| == n
  {
    seq(n, _ => 0)
  }

  /** What comes back: everything but the last `lost` bytes, which read as zeros. */
  function Blanked(bytes: seq<byte>, lost: nat): (r: seq<byte>)
    requires lost <= |bytes|
    ensures |r| == |bytes|
  {
    bytes[..|bytes| - lost] + Zeros(lost)
  }

  /** The 24-bit size field announces every size that a blob can hold. */
  lemma SizeHeaderValue(size: nat)
    requires size < 0x100_0000
    ensures SizeHeader(size)[1] as int == size / 0x1_0000
    ensures SizeHeader(size)[2] as int == size / 0x100 % 0x100
    ensures SizeHeader(size)[3] as int == size % 0x100
  {
  }

  lemma HeaderOfPayload(data: seq<byte>, k: nat)
    requires |data| < 0x1_0000_0000 && k < METADATA_LENGTH
    ensures Padded(Payload(data), k) == SizeHeader(|data|)[k]
  {
    assert AsU32(|data|) == |data|;
  }

  lemma SizeOfBytes(blob: seq<byte>, size: nat)
    requires |blob| == BYTES_PER_BLOB && size < 0x100_0000
    requires forall k: nat | k < METADATA_LENGTH :: StoredByte(blob, k) == SizeHeader(size)[k]
    ensures StoredByte(blob, 0) == ENCODING_VERSION && StoredSize(blob) == size
  {
    SizeHeaderValue(size);
    assert StoredByte(blob, 0) == SizeHeader(size)[0];
    assert size == size / 0x1_0000 * 0x1_0000 + size / 0x100 % 0x100 * 0x100 + size % 0x100;
  }

  lemma SizeSurvives(data: seq<byte>, rounds: nat)
    requires |data| <= MAX_BLOB_DATA_SIZE && rounds >= 1
    ensures StoredByte(Encoded(Payload(data), rounds), 0) == ENCODING_VERSION == 0
    ensures StoredSize(Encoded(Payload(data), rounds)) == |data|
  {
    forall k: nat | k < METADATA_LENGTH
      ensures StoredByte(Encoded(Payload(data), rounds), k) == SizeHeader(|data|)[k]
    {
      HeaderOfPayload(data, k);
      StoredByteOfEncoded(Payload(data), rounds, k);
    }
    SizeOfBytes(Encoded(Payload(data), rounds), |data|);
  }

  /** What decoding an acceptable blob returns, byte by byte. */
  lemma DecodeAccepts(blob: seq<byte>, data: seq<byte>)
    requires CanonicalWords(blob) && StoredByte(blob, 0) == ENCODING_VERSION
    requires StoredSize(blob) == |data| <= MAX_BLOB_DATA_SIZE
    requires forall i: nat | i < |data| :: StoredByte(blob, METADATA_LENGTH + i) == data[i]
    ensures Decode(blob) == Some(data)
  {
    assert Decode(blob).value == data;
  }

  /** Decoding after a number of rounds gives the surviving data. */
  lemma DecodeOfEncoded(data: seq<byte>, rounds: nat)
    requires |data| <= MAX_BLOB_DATA_SIZE && rounds >= 1 && |data| + METADATA_LENGTH <= 127 * rounds + 31
    ensures Decode(Encoded(Payload(data), rounds)) == Some(Kept(data, rounds))
  {
    var p := Payload(data);
    SizeSurvives(data, rounds);
    EncodedWordsCanonical(p, rounds);
    forall i: nat | i < |data|
      ensures StoredByte(Encoded(p, rounds), METADATA_LENGTH + i) == Kept(data, rounds)[i]
    {
      DataByteSurvives(data, rounds, i);
    }
    DecodeAccepts(Encoded(p, rounds), Kept(data, rounds));
  }

  lemma DataByteSurvives(data: seq<byte>, rounds: nat, i: nat)
    requires |data| <= MAX_BLOB_DATA_SIZE && |data| + METADATA_LENGTH <= 127 * rounds + 31 && i < |data|
    ensures StoredByte(Encoded(Payload(data), rounds), METADATA_LENGTH + i) == Kept(data, rounds)[i]
  {
    if METADATA_LENGTH + i < 127 * rounds {
      StoredByteOfEncoded(Payload(data), rounds, METADATA_LENGTH + i);
      assert Payload(data)[METADATA_LENGTH..][i] == data[i];
    } else {
      StoredBytePastRounds(Payload(data), rounds, METADATA_LENGTH + i);
    }
  }

  /** The encoder as it is: the trailing `Lost` bytes come back as zeros. */
  lemma BlobDecodes(data: seq<byte>)
    requires |data| <= 130044
    ensures Lost(|data|) <= |data|
    ensures Decode(BlobOf(data)) == Some(Blanked(data, Lost(|data|)))
  {
    var rounds := |data| / 127 + 1;
    DecodeOfEncoded(data, Rounds(|data|));
    assert Rounds(|data|) == rounds;
    assert |data| == 127 * (rounds - 1) + |data| % 127;
    assert Kept(data, rounds) == Blanked(data, Lost(|data|));
  }

  /** Behind the data, every payload position of the rounds that ran is zero. */
  lemma RestIsZero(data: seq<byte>, k: nat)
    requires METADATA_LENGTH + |data| <= k < 127 * Rounds(|data|)
    ensures StoredByte(BlobOf(data), k) == 0
  {
    StoredByteOfEncoded(Payload(data), Rounds(|data|), k);
  }

  lemma BlankedIsSame(bytes: seq<byte>, lost: nat)
    requires lost <= |bytes|
    ensures Blanked(bytes, lost) == bytes <==> forall i | |bytes| - lost <= i < |bytes| :: bytes[i] == 0
  {
  }

  /** The encoder round-trips exactly when it reads everything or what it skips is zero anyway. */
  lemma BlobRoundTripsIff(data: seq<byte>)
    requires |data| <= 130044
    ensures Decode(BlobOf(data)) == Some(data) <==>
            |data| % 127 <= 123 || forall i | |data| - (|data| % 127 - 123) <= i < |data| :: data[i] == 0
  {
    BlobDecodes(data);
    BlankedIsSame(data, Lost(|data|));
  }

  lemma NonZeroTailFails(data: seq<byte>)
    requires |data| <= 130044 && |data| % 127 > 123 && data[|data| - 1] != 0
    ensures Decode(BlobOf(data)) != Some(data)
  {
    BlobRoundTripsIff(data);
  }

  /** 124 bytes of ones do not come back. */
  lemma RoundTripFailsFor124() returns (data: seq<byte>)
    ensures data == seq(124, _ => 1) && Decode(BlobOf(data)) != Some(data)
  {
    data := seq(124, _ => 1);
    NonZeroTailFails(data);
  }

  /** With the round count rounded up over header and data, every size fits and nothing is lost. */
  lemma EnoughRoundsAreLossless(data: seq<byte>)
    requires |data| <= 130044
    ensures 1 <= EnoughRounds(|data|) <= 1024
    ensures Decode(Encoded(Payload(data), EnoughRounds(|data|))) == Some(data)
  {
    EnoughRoundsHoldAll(|data|);
    DecodeOfEncoded(data, EnoughRounds(|data|));
    assert Kept(data, EnoughRounds(|data|)) == data;
  }

  lemma EnoughRoundsHoldAll(length: nat)
    requires length <= 130044
    ensures 1 <= EnoughRounds(length) <= 1024 && length + METADATA_LENGTH <= 127 * EnoughRounds(length)
  {
  }

  // ---- payloads of several blobs -------------------------------------------------------------

  /** The concatenated contents of a list of blobs. */
  ghost function DecodeAll(blobs: seq<seq<byte>>): Option<seq<byte>>
    requires forall blob | blob in blobs :: |blob| == BYTES_PER_BLOB
  {
    if |blobs| == 0 then Some([])
    else match (Decode(blobs[0]), DecodeAll(blobs[1..]))
      case (Some(first), Some(rest)) => Some(first + rest)
      case _ => None
  }

  /** The size of the last piece of a payload. */
  function LastChunk(length: nat): nat {
    if length <= MAX_BLOB_DATA_SIZE then length else LastChunk(length - MAX_BLOB_DATA_SIZE)
  }

  lemma {:induction false} LastChunkIsRemainder(length: nat)
    requires length > 0
    ensures LastChunk(length) == (length - 1) % 130044 + 1
  {
    if length > MAX_BLOB_DATA_SIZE {
      LastChunkIsRemainder(length - MAX_BLOB_DATA_SIZE);
    }
  }

  lemma {:induction false} ChunkCount(bytes: seq<byte>)
    ensures |Chunks(bytes)| == (|bytes| + 130043) / 130044
  {
    if |bytes| > MAX_BLOB_DATA_SIZE {
      ChunkCount(bytes[MAX_BLOB_DATA_SIZE..]);
    }
  }

  lemma BlobsOfSplit(bytes: seq<byte>)
    requires |bytes| > MAX_BLOB_DATA_SIZE
    ensures BlobsOf(bytes) == [BlobOf(bytes[..MAX_BLOB_DATA_SIZE])] + BlobsOf(bytes[MAX_BLOB_DATA_SIZE..])
  {
  }

  lemma DecodeAllCons(blobs: seq<seq<byte>>, first: seq<byte>, rest: seq<byte>)
    requires forall blob | blob in blobs :: |blob| == BYTES_PER_BLOB
    requires |blobs| > 0 && Decode(blobs[0]) == Some(first) && DecodeAll(blobs[1..]) == Some(rest)
    ensures DecodeAll(blobs) == Some(first + rest)
  {
  }

  lemma DecodeAllSingle(blobs: seq<seq<byte>>, only: seq<byte>)
    requires forall blob | blob in blobs :: |blob| == BYTES_PER_BLOB
    requires |blobs| == 1 && Decode(blobs[0]) == Some(only)
    ensures DecodeAll(blobs) == Some(only)
  {
    assert only + [] == only;
  }

  lemma OneBlobDecodes(bytes: seq<byte>)
    requires 0 < |bytes| <= MAX_BLOB_DATA_SIZE
    ensures Lost(LastChunk(|bytes|)) <= |bytes|
    ensures DecodeAll(BlobsOf(bytes)) == Some(Blanked(bytes, Lost(LastChunk(|bytes|))))
  {
    BlobDecodes(bytes);
    DecodeAllSingle(BlobsOf(bytes), Blanked(bytes, Lost(|bytes|)));
  }

  lemma BlankedAfter(bytes: seq<byte>, cut: nat, lost: nat)
    requires cut <= |bytes| && lost <= |bytes| - cut
    ensures bytes[..cut] + Blanked(bytes[cut..], lost) == Blanked(bytes, lost)
  {
  }

  /** Decoding the first blob and then the rest. */
  lemma BlobsDecodeStep(bytes: seq<byte>, rest: seq<byte>)
    requires |bytes| > MAX_BLOB_DATA_SIZE
    requires DecodeAll(BlobsOf(bytes[MAX_BLOB_DATA_SIZE..])) == Some(rest)
    ensures DecodeAll(BlobsOf(bytes)) == Some(bytes[..MAX_BLOB_DATA_SIZE] + rest)
  {
    BlobsOfSplit(bytes);
    FullBlobDecodes(bytes[..MAX_BLOB_DATA_SIZE]);
    DecodeAllCons(BlobsOf(bytes), bytes[..MAX_BLOB_DATA_SIZE], rest);
  }

  /** A whole payload decodes to itself up to the bytes lost at its very end. */
  lemma {:induction false} BlobsDecode(bytes: seq<byte>)
    ensures Lost(LastChunk(|bytes|)) <= |bytes|
    ensures DecodeAll(BlobsOf(bytes)) == Some(Blanked(bytes, Lost(LastChunk(|bytes|))))
  {
    if |bytes| == 0 {
      assert BlobsOf(bytes) == [];
    } else if |bytes| <= MAX_BLOB_DATA_SIZE {
      OneBlobDecodes(bytes);
    } else {
      var tail := bytes[MAX_BLOB_DATA_SIZE..];
      var last := LastChunk(|tail|);
      assert LastChunk(|bytes|) == last;
      BlobsDecode(tail);
      var lost := Lost(last);
      BlobsDecodeStep(bytes, Blanked(tail, lost));
      BlankedAfter(bytes, MAX_BLOB_DATA_SIZE, lost);
    }
  }

  lemma FullBlobDecodes(data: seq<byte>)
    requires |data| == MAX_BLOB_DATA_SIZE
    ensures Decode(BlobOf(data)) == Some(data)
  {
    BlobRoundTripsIff(data);
  }

  /** A non-empty payload round-trips through its blobs exactly when its last piece does. */
  lemma BlobsRoundTripIff(bytes: seq<byte>)
    requires |bytes| > 0
    ensures |BlobsOf(bytes)| == (|bytes| + 130043) / 130044
    ensures DecodeAll(BlobsOf(bytes)) == Some(bytes) <==>
            LastChunk(|bytes|) % 127 <= 123 ||
            forall i | |bytes| - Lost(LastChunk(|bytes|)) <= i < |bytes| :: bytes[i] == 0
  {
    ChunkCount(bytes);
    BlobsDecode(bytes);
    BlankedIsSame(bytes, Lost(LastChunk(|bytes|)));
  }
}
