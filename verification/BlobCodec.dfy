/** The encoder as it runs: a reading cursor, a writing cursor, one 32-byte word buffer and the
    blob, all updated in place. Every method is tied to the layout functions. */
module BlobCodec {
  import opened BlobLayout
  import opened TopBytes

  class ByteWriter {
    var writtenBytes: nat

    constructor ()
      ensures writtenBytes == 0
    {
      writtenBytes := 0;
    }

    /** Copies one word to the cursor. The slice bounds are the caller's to keep. */
    method Write(blobBytes: array<byte>, buffer: array<byte>)
      requires blobBytes != buffer && buffer.Length == 32
      requires writtenBytes + 32 <= blobBytes.Length
      modifies this, blobBytes
      ensures writtenBytes == old(writtenBytes) + 32
      ensures forall i | 0 <= i < blobBytes.Length ::
                blobBytes[i] ==
                if old(writtenBytes) <= i < writtenBytes then buffer[i - old(writtenBytes)] else old(blobBytes[i])
    {
      forall i | writtenBytes <= i < writtenBytes + 32 {
        blobBytes[i] := buffer[i - writtenBytes];
      }
      writtenBytes := writtenBytes + 32;
    }
  }

  class ByteReader {
    var readBytes: nat

    constructor ()
      ensures readBytes == 0
    {
      readBytes := 0;
    }

    /** The cursor stands for position `k` of the payload `p`, whose data start at byte 4. Past
        the end the exact value is immaterial, since only zeros follow. */
    ghost predicate Reads(p: seq<byte>, k: nat)
      reads this
    {
      k == readBytes + METADATA_LENGTH || (readBytes + METADATA_LENGTH >= |p| && k >= |p|)
    }

    method ReadByte(data: seq<byte>) returns (result: byte)
      modifies this
      ensures result == Padded(data, old(readBytes))
      ensures readBytes == old(readBytes) + 1
    {
      result := if readBytes >= |data| then 0 else data[readBytes];
      readBytes := readBytes + 1;
    }

    /** Fills `buf[start..]` with up to `length` data bytes and then zeros. Nothing is consumed
        once the data is exhausted. */
    method ReadBytes(data: seq<byte>, buf: array<byte>, start: nat, length: nat)
      requires start <= buf.Length
      requires readBytes < |data| ==> Min(length, |data| - readBytes) <= buf.Length - start
      modifies this, buf
      ensures readBytes
              == old(readBytes) + (if old(readBytes) >= |data| then 0 else Min(length, |data| - old(readBytes)))
      ensures forall i | 0 <= i < start :: buf[i] == old(buf[i])
      ensures forall i | start <= i < buf.Length ::
                buf[i] == if i - start < length then Padded(data, old(readBytes) + (i - start)) else 0
    {
      if readBytes >= |data| {
        forall i | start <= i < buf.Length {
          buf[i] := 0;
        }
        return;
      }
      var n := Min(length, |data| - readBytes);
      forall i | start <= i < buf.Length {
        buf[i] := if i - start < n then data[readBytes + (i - start)] else 0;
      }
      readBytes := readBytes + n;
    }
  }

  method WriteVersionAndDataSize(size: nat, buffer: array<byte>) returns (written: nat)
    requires buffer.Length == 32
    modifies buffer
    ensures written == METADATA_LENGTH
    ensures buffer[1..5] == SizeHeader(size)
    ensures forall i | 0 <= i < 32 && !(1 <= i < 5) :: buffer[i] == old(buffer[i])
  {
    buffer[1] := ENCODING_VERSION;
    buffer[2] := AsU8(size / 0x1_0000);
    buffer[3] := AsU8(size / 0x100);
    buffer[4] := AsU8(size);
    written := 4;
  }

  /** The word buffer holds the 31 payload bytes from position `k`. */
  ghost predicate Holds(buffer: array<byte>, p: seq<byte>, k: nat)
    reads buffer
  {
    buffer.Length == 32 && forall i | 1 <= i < 32 :: buffer[i] == Padded(p, k + (i - 1))
  }

  /** Reads the next 31 payload bytes. */
  method ReadBody(reader: ByteReader, data: seq<byte>, buffer: array<byte>, ghost p: seq<byte>, ghost k: nat)
    requires buffer.Length == 32
    requires |p| >= METADATA_LENGTH && p[METADATA_LENGTH..] == data && reader.Reads(p, k)
    modifies reader, buffer
    ensures Holds(buffer, p, k) && reader.Reads(p, k + 31)
  {
    reader.ReadBytes(data, buffer, 1, 31);
  }

  /** Reads the payload byte that goes into the top bytes. */
  method ReadSpread(reader: ByteReader, data: seq<byte>, ghost p: seq<byte>, ghost k: nat) returns (b: byte)
    requires |p| >= METADATA_LENGTH && p[METADATA_LENGTH..] == data
    requires reader.Reads(p, k) && k >= METADATA_LENGTH
    modifies reader
    ensures b == Padded(p, k) && reader.Reads(p, k + 1)
  {
    b := reader.ReadByte(data);
  }

  /** Reads a body and the spread byte behind it. */
  method ReadBodyAndSpread(reader: ByteReader, data: seq<byte>, buffer: array<byte>, ghost p: seq<byte>, ghost k: nat)
    returns (b: byte)
    requires buffer.Length == 32
    requires |p| >= METADATA_LENGTH && p[METADATA_LENGTH..] == data && reader.Reads(p, k)
    modifies reader, buffer
    ensures Holds(buffer, p, k) && b == Padded(p, k + 31) && reader.Reads(p, k + 32)
  {
    ReadBody(reader, data, buffer, p, k);
    b := ReadSpread(reader, data, p, k + 31);
  }

  /** The word at `base` has the given top byte and the 31 payload bytes from position `k`. */
  ghost predicate WordAt(blobBytes: array<byte>, base: nat, top: byte, p: seq<byte>, k: nat)
    reads blobBytes
  {
    base + 32 <= blobBytes.Length && blobBytes[base] == top &&
    forall i | base < i < base + 32 :: blobBytes[i] == Padded(p, k + (i - base - 1))
  }

  /** Puts a top byte in front of the buffered word and appends the word to the blob. */
  method WriteWord(writer: ByteWriter, blobBytes: array<byte>, buffer: array<byte>, top: byte,
                   ghost p: seq<byte>, ghost k: nat)
    requires blobBytes != buffer && Holds(buffer, p, k)
    requires writer.writtenBytes + 32 <= blobBytes.Length
    modifies writer, blobBytes, buffer
    ensures writer.writtenBytes == old(writer.writtenBytes) + 32
    ensures WordAt(blobBytes, old(writer.writtenBytes), top, p, k)
    ensures forall i | 0 <= i < blobBytes.Length && !(old(writer.writtenBytes) <= i < writer.writtenBytes) ::
              blobBytes[i] == old(blobBytes[i])
  {
    buffer[0] := top;
    writer.Write(blobBytes, buffer);
  }

  /** The blob holds the bytes `lo..hi` of round `r` of payload `p`. */
  ghost predicate RoundAt(blobBytes: array<byte>, p: seq<byte>, r: nat, lo: nat, hi: nat)
    requires lo <= hi <= 128
    reads blobBytes
  {
    128 * (r + 1) <= blobBytes.Length && forall j: nat | lo <= j < hi :: blobBytes[128 * r + j] == RoundByte(p, r, j)
  }

  /** Two consecutive words with the right top bytes are half a round. */
  lemma WordsAreHalfRound(blobBytes: array<byte>, p: seq<byte>, r: nat, lo: nat)
    requires lo == 0 || lo == 64
    requires 128 * (r + 1) <= blobBytes.Length
    requires WordAt(blobBytes, 128 * r + lo, RoundByte(p, r, lo), p, 127 * r + lo)
    requires WordAt(blobBytes, 128 * r + lo + 32, RoundByte(p, r, lo + 32), p, 127 * r + lo + 32)
    ensures RoundAt(blobBytes, p, r, lo, lo + 64)
  {
  }

  /** The top bytes of a round, from the spread payload bytes. */
  lemma RoundTopBytes(p: seq<byte>, r: nat)
    ensures RoundByte(p, r, 0) == TopX(Padded(p, 127 * r + 31))
    ensures RoundByte(p, r, 32) == TopXY(Padded(p, 127 * r + 31), Padded(p, 127 * r + 63))
    ensures RoundByte(p, r, 64) == TopZ(Padded(p, 127 * r + 95))
    ensures RoundByte(p, r, 96) == TopYZ(Padded(p, 127 * r + 63), Padded(p, 127 * r + 95))
  {
  }

  /** The first two words of a pass of the encoding loop. */
  method EncodeFirstHalf(data: seq<byte>, idx: nat, reader: ByteReader, writer: ByteWriter,
                         blobBytes: array<byte>, buffer: array<byte>, ghost p: seq<byte>)
    returns (y: byte)
    requires blobBytes != buffer && blobBytes.Length == BYTES_PER_BLOB && buffer.Length == 32
    requires |p| >= METADATA_LENGTH && p[METADATA_LENGTH..] == data
    requires idx < MAX_ITERATIONS && writer.writtenBytes == 128 * idx
    requires if idx == 0 then reader.Reads(p, 31) && Holds(buffer, p, 0) else reader.Reads(p, 127 * idx)
    modifies reader, writer, blobBytes, buffer
    ensures writer.writtenBytes == 128 * idx + 64 && reader.Reads(p, 127 * idx + 64)
    ensures y == Padded(p, 127 * idx + 63) && RoundAt(blobBytes, p, idx, 0, 64)
    ensures forall i | 0 <= i < BYTES_PER_BLOB && !(128 * idx <= i < 128 * idx + 64) ::
              blobBytes[i] == old(blobBytes[i])
  {
    hide Padded, RoundByte, TopX, TopXY;
    ghost var k := 127 * idx;
    RoundTopBytes(p, idx);
    if idx != 0 {
      ReadBody(reader, data, buffer, p, k);
    }
    var x := ReadSpread(reader, data, p, k + 31);
    WriteWord(writer, blobBytes, buffer, TopX(x), p, k);
    y := ReadBodyAndSpread(reader, data, buffer, p, k + 32);
    WriteWord(writer, blobBytes, buffer, TopXY(x, y), p, k + 32);
    WordsAreHalfRound(blobBytes, p, idx, 0);
  }

  /** The last two words of a pass of the encoding loop. */
  method EncodeSecondHalf(data: seq<byte>, idx: nat, reader: ByteReader, writer: ByteWriter,
                          blobBytes: array<byte>, buffer: array<byte>, y: byte, ghost p: seq<byte>)
    requires blobBytes != buffer && blobBytes.Length == BYTES_PER_BLOB && buffer.Length == 32
    requires |p| >= METADATA_LENGTH && p[METADATA_LENGTH..] == data
    requires idx < MAX_ITERATIONS && writer.writtenBytes == 128 * idx + 64
    requires reader.Reads(p, 127 * idx + 64) && y == Padded(p, 127 * idx + 63)
    modifies reader, writer, blobBytes, buffer
    ensures writer.writtenBytes == 128 * (idx + 1) && reader.Reads(p, 127 * (idx + 1))
    ensures RoundAt(blobBytes, p, idx, 64, 128)
    ensures forall i | 0 <= i < BYTES_PER_BLOB && !(128 * idx + 64 <= i < 128 * (idx + 1)) ::
              blobBytes[i] == old(blobBytes[i])
  {
    hide Padded, RoundByte, TopZ, TopYZ;
    ghost var k := 127 * idx;
    RoundTopBytes(p, idx);
    var z := ReadBodyAndSpread(reader, data, buffer, p, k + 64);
    WriteWord(writer, blobBytes, buffer, TopZ(z), p, k + 64);
    ReadBody(reader, data, buffer, p, k + 96);
    WriteWord(writer, blobBytes, buffer, TopYZ(y, z), p, k + 96);
    WordsAreHalfRound(blobBytes, p, idx, 64);
  }

  /** One pass of the encoding loop: four words, 127 payload bytes. */
  method EncodeRound(data: seq<byte>, idx: nat, reader: ByteReader, writer: ByteWriter,
                     blobBytes: array<byte>, buffer: array<byte>, ghost p: seq<byte>)
    requires blobBytes != buffer && blobBytes.Length == BYTES_PER_BLOB && buffer.Length == 32
    requires |p| >= METADATA_LENGTH && p[METADATA_LENGTH..] == data
    requires idx < MAX_ITERATIONS && writer.writtenBytes == 128 * idx
    requires if idx == 0 then reader.Reads(p, 31) && Holds(buffer, p, 0) else reader.Reads(p, 127 * idx)
    requires forall i | 0 <= i < BYTES_PER_BLOB :: blobBytes[i] == EncodedByte(p, idx, i)
    modifies reader, writer, blobBytes, buffer
    ensures writer.writtenBytes == 128 * (idx + 1) && reader.Reads(p, 127 * (idx + 1))
    ensures forall i | 0 <= i < BYTES_PER_BLOB :: blobBytes[i] == EncodedByte(p, idx + 1, i)
  {
    var y := EncodeFirstHalf(data, idx, reader, writer, blobBytes, buffer, p);
    EncodeSecondHalf(data, idx, reader, writer, blobBytes, buffer, y, p);
    forall i | 0 <= i < BYTES_PER_BLOB
      ensures blobBytes[i] == EncodedByte(p, idx + 1, i)
    {
      if i / 128 == idx {
        assert i == 128 * idx + i % 128;
      }
    }
  }

  /** The encoding loop. */
  method EncodeRounds(data: seq<byte>, iterations: nat, reader: ByteReader, writer: ByteWriter,
                      blobBytes: array<byte>, buffer: array<byte>, ghost p: seq<byte>)
    requires blobBytes != buffer && blobBytes.Length == BYTES_PER_BLOB && buffer.Length == 32
    requires |p| >= METADATA_LENGTH && p[METADATA_LENGTH..] == data
    requires iterations <= MAX_ITERATIONS && writer.writtenBytes == 0 && reader.Reads(p, 31) && Holds(buffer, p, 0)
    requires forall i | 0 <= i < BYTES_PER_BLOB :: blobBytes[i] == 0
    modifies reader, writer, blobBytes, buffer
    ensures blobBytes[..] == Encoded(p, iterations)
  {
    var idx := 0;
    while idx < iterations
      invariant 0 <= idx <= iterations
      invariant writer.writtenBytes == 128 * idx
      invariant if idx == 0 then reader.Reads(p, 31) && Holds(buffer, p, 0) else reader.Reads(p, 127 * idx)
      invariant forall i | 0 <= i < BYTES_PER_BLOB :: blobBytes[i] == EncodedByte(p, idx, i)
    {
      EncodeRound(data, idx, reader, writer, blobBytes, buffer, p);
      idx := idx + 1;
    }
  }

  method CreateBlob(data: seq<byte>) returns (blob: seq<byte>)
    ensures blob == BlobOf(data)
  {
    var blobBytes := new byte[BYTES_PER_BLOB](_ => 0);
    var buffer := new byte[32](_ => 0);
    var reader := new ByteReader();
    var writer := new ByteWriter();
    FillFirstWord(data, reader, buffer);
    var iterations := Min(MAX_ITERATIONS, |data| / DATA_SIZE_PER_ITERATION + 1);
    EncodeRounds(data, iterations, reader, writer, blobBytes, buffer, Payload(data));
    blob := blobBytes[..];
  }

  /** Version, size and the first 27 data bytes, before the loop starts. */
  method FillFirstWord(data: seq<byte>, reader: ByteReader, buffer: array<byte>)
    requires buffer.Length == 32 && reader.readBytes == 0
    modifies reader, buffer
    ensures reader.Reads(Payload(data), 31) && Holds(buffer, Payload(data), 0)
  {
    var written := WriteVersionAndDataSize(AsU32(|data|), buffer);
    ghost var header := buffer[1..5];
    var remaining := Min(31 - written, |data|);
    reader.ReadBytes(data, buffer, 1 + written, remaining);
    assert forall i | 1 <= i < 5 :: buffer[i] == header[i - 1];
  }

  /** One blob for every piece of at most `MAX_BLOB_DATA_SIZE` bytes, in order. */
  method TxBytesToBlobs(txBytes: seq<byte>) returns (blobs: seq<seq<byte>>)
    ensures blobs == BlobsOf(txBytes)
  {
    var chunks := Chunks(txBytes);
    blobs := [];
    for i := 0 to |chunks|
      invariant blobs == BlobsOf(txBytes)[..i]
    {
      var blob := CreateBlob(chunks[i]);
      blobs := blobs + [blob];
    }
  }
}
