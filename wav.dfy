/** The audio download of the conversation lab (`handleDownloadAudio`): the decoded PCM
    string copied into a byte array, and the 44-byte header of the Microsoft RIFF WAVE
    format for 16-bit mono PCM at 24 kHz placed in front of it. Multi-byte fields are
    little-endian and, as a `DataView` setter does, taken modulo their width. */
module Wav {
  type byte = b: int | 0 <= b < 256

  const SampleRate := 24000
  const NumChannels := 1
  const BitsPerSample := 16
  const HeaderSize := 44

  /** A character code stored into a byte array: the code modulo 256. */
  function CodeByte(c: char): byte {
    (c as int) % 256
  }

  /** The bytes of a string, one per character. */
  function Codes(s: string): (r: seq<byte>)
    ensures |r| == |s|
    ensures forall i :: 0 <= i < |s| ==> r[i] == CodeByte(s[i])
  {
    seq(|s|, i requires 0 <= i < |s| => CodeByte(s[i]))
  }

  /** `setUint16(offset, v, true)`: `v` modulo 2^16, low byte first. */
  function LE16(v: int): (r: seq<byte>)
    ensures |r| == 2
  {
    var u := v % 0x1_0000;
    [u % 256, u / 256]
  }

  /** `setUint32(offset, v, true)`: `v` modulo 2^32, low byte first. */
  function LE32(v: int): (r: seq<byte>)
    ensures |r| == 4
  {
    var u := v % 0x1_0000_0000;
    [u % 256, (u / 256) % 256, (u / 0x1_0000) % 256, u / 0x100_0000]
  }

  /** Reading a little-endian 16-bit field back. */
  function ReadLE16(b: seq<byte>, offset: nat): int
    requires offset + 2 <= |b|
  {
    b[offset] as int + 256 * b[offset + 1] as int
  }

  /** Reading a little-endian 32-bit field back. */
  function ReadLE32(b: seq<byte>, offset: nat): int
    requires offset + 4 <= |b|
  {
    b[offset] as int + 256 * b[offset + 1] as int + 0x1_0000 * b[offset + 2] as int + 0x100_0000 * b[offset + 3] as int
  }

  lemma LE16RoundTrip(v: int)
    ensures ReadLE16(LE16(v), 0) == v % 0x1_0000
  {
    var u := v % 0x1_0000;
    assert u == u % 256 + 256 * (u / 256);
  }

  lemma LE32RoundTrip(v: int)
    ensures ReadLE32(LE32(v), 0) == v % 0x1_0000_0000
  {
    var u := v % 0x1_0000_0000;
    var q1 := u / 256;
    var q2 := u / 0x1_0000;
    var q3 := u / 0x100_0000;
    assert u == u % 256 + 256 * q1;
    assert q1 == q1 % 256 + 256 * (q1 / 256);
    assert q1 / 256 == q2;
    assert q2 == q2 % 256 + 256 * (q2 / 256);
    assert q2 / 256 == q3;
    assert q1 % 256 == (u / 256) % 256 && q2 % 256 == (u / 0x1_0000) % 256;
  }

  const ByteRate := SampleRate * NumChannels * BitsPerSample / 8
  const BlockAlign := NumChannels * BitsPerSample / 8

  /** Bytes 0 to 11: the `RIFF` tag, the RIFF chunk size `36 + dataLength` and the `WAVE`
      form type. */
  function RiffDescriptor(dataLength: int): (r: seq<byte>)
    ensures |r| == 12
  {
    Codes("RIFF") + LE32(36 + dataLength) + Codes("WAVE")
  }

  /** Bytes 12 to 35: the `fmt ` chunk, 16 bytes of format 1 (PCM), the channel count, the
      sample rate, the byte rate, the block size and the sample width. */
  function FormatChunk(): (r: seq<byte>)
    ensures |r| == 24
  {
    Codes("fmt ") + LE32(16) + LE16(1) + LE16(NumChannels) + LE32(SampleRate) + LE32(ByteRate)
    + LE16(BlockAlign) + LE16(BitsPerSample)
  }

  /** Bytes 36 to 43: the `data` tag and the sample byte count. */
  function DataChunkHeader(dataLength: int): (r: seq<byte>)
    ensures |r| == 8
  {
    Codes("data") + LE32(dataLength)
  }

  /** The header for `dataLength` bytes of samples. */
  function WavHeader(dataLength: int): (h: seq<byte>)
    ensures |h| == HeaderSize
  {
    RiffDescriptor(dataLength) + FormatChunk() + DataChunkHeader(dataLength)
  }

  /** The 4 bytes at `offset` are `t`. */
  lemma ReadLE32At(s: seq<byte>, offset: nat, t: seq<byte>)
    requires offset + 4 <= |s| && |t| == 4
    requires forall i :: 0 <= i < 4 ==> s[offset + i] == t[i]
    ensures ReadLE32(s, offset) == ReadLE32(t, 0)
  {
    assert s[offset] == t[0] && s[offset + 1] == t[1] && s[offset + 2] == t[2] && s[offset + 3] == t[3];
  }

  /** The 2 bytes at `offset` are `t`. */
  lemma ReadLE16At(s: seq<byte>, offset: nat, t: seq<byte>)
    requires offset + 2 <= |s| && |t| == 2
    requires forall i :: 0 <= i < 2 ==> s[offset + i] == t[i]
    ensures ReadLE16(s, offset) == ReadLE16(t, 0)
  {
    assert s[offset] == t[0] && s[offset + 1] == t[1];
  }

  /** A 32-bit field inside `a` reads the same once more bytes follow. */
  lemma ReadLE32Prefix(a: seq<byte>, b: seq<byte>, offset: nat)
    requires offset + 4 <= |a|
    ensures ReadLE32(a + b, offset) == ReadLE32(a, offset)
  {
    ReadLE32At(a + b, offset, a[offset..offset + 4]);
  }

  /** A 32-bit field inside `b` reads the same once `a` comes first. */
  lemma ReadLE32Suffix(a: seq<byte>, b: seq<byte>, offset: nat)
    requires offset + 4 <= |b|
    ensures ReadLE32(a + b, |a| + offset) == ReadLE32(b, offset)
  {
    ReadLE32At(a + b, |a| + offset, b[offset..offset + 4]);
  }

  /** A 16-bit field inside `b` reads the same once `a` comes first. */
  lemma ReadLE16Suffix(a: seq<byte>, b: seq<byte>, offset: nat)
    requires offset + 2 <= |b|
    ensures ReadLE16(a + b, |a| + offset) == ReadLE16(b, offset)
  {
    ReadLE16At(a + b, |a| + offset, b[offset..offset + 2]);
  }

  /** The RIFF descriptor reads back as the `RIFF` tag, the chunk size
      `36 + dataLength` modulo 2^32 and the `WAVE` form type. */
  lemma RiffDescriptorFields(dataLength: int)
    ensures WavHeader(dataLength)[0..4] == Codes("RIFF")
    ensures ReadLE32(WavHeader(dataLength), 4) == (36 + dataLength) % 0x1_0000_0000
    ensures WavHeader(dataLength)[8..12] == Codes("WAVE")
  {
    var r := RiffDescriptor(dataLength);
    ReadLE32At(r, 4, LE32(36 + dataLength));
    LE32RoundTrip(36 + dataLength);
    ReadLE32Prefix(r + FormatChunk(), DataChunkHeader(dataLength), 4);
    ReadLE32Prefix(r, FormatChunk(), 4);
  }

  /** The format chunk's bytes: `fmt `, then 16, 1, 1, 24000, 48000, 2 and 16 in
      little-endian order. */
  lemma FormatChunkBytes()
    ensures FormatChunk() == [102, 109, 116, 32, 16, 0, 0, 0, 1, 0, 1, 0, 0xC0, 0x5D, 0, 0, 0x80, 0xBB, 0, 0, 2, 0, 16, 0]
  {
    FormatTagBytes();
    FormatSizesBytes();
    FormatRatesBytes();
  }

  lemma FormatTagBytes()
    ensures Codes("fmt ") == [102, 109, 116, 32]
  {
  }

  lemma FormatSizesBytes()
    ensures LE32(16) == [16, 0, 0, 0] && LE16(1) == [1, 0]
    ensures LE16(BlockAlign) == [2, 0] && LE16(BitsPerSample) == [16, 0]
  {
  }

  lemma FormatRatesBytes()
    ensures LE32(SampleRate) == [0xC0, 0x5D, 0, 0]
    ensures LE32(ByteRate) == [0x80, 0xBB, 0, 0]
  {
    SampleRateBytes();
    ByteRateBytes();
  }

  lemma SampleRateBytes()
    ensures LE32(SampleRate) == [0xC0, 0x5D, 0, 0]
  {
  }

  lemma ByteRateBytes()
    ensures LE32(ByteRate) == [0x80, 0xBB, 0, 0]
  {
  }

  /** The format chunk reads back as a 16-byte `fmt ` chunk of format 1 (PCM), one
      channel, 24000 samples and 48000 bytes per second, 2-byte blocks of 16-bit
      samples. */
  lemma FormatChunkValues()
    ensures FormatChunk()[0..4] == Codes("fmt ")
    ensures ReadLE32(FormatChunk(), 4) == 16
    ensures ReadLE16(FormatChunk(), 8) == 1
    ensures ReadLE16(FormatChunk(), 10) == NumChannels
    ensures ReadLE32(FormatChunk(), 12) == SampleRate
    ensures ReadLE32(FormatChunk(), 16) == 48000
    ensures ReadLE16(FormatChunk(), 20) == 2
    ensures ReadLE16(FormatChunk(), 22) == BitsPerSample
  {
    FormatChunkBytes();
    assert Codes("fmt ") == [102, 109, 116, 32];
  }

  /** In the whole header, bytes 12 to 35 read back as the format chunk's fields. */
  lemma FormatChunkFields(dataLength: int)
    ensures WavHeader(dataLength)[12..16] == Codes("fmt ")
    ensures ReadLE32(WavHeader(dataLength), 16) == 16
    ensures ReadLE16(WavHeader(dataLength), 20) == 1
    ensures ReadLE16(WavHeader(dataLength), 22) == NumChannels
    ensures ReadLE32(WavHeader(dataLength), 24) == SampleRate
    ensures ReadLE32(WavHeader(dataLength), 28) == 48000
    ensures ReadLE16(WavHeader(dataLength), 32) == 2
    ensures ReadLE16(WavHeader(dataLength), 34) == BitsPerSample
  {
    var r, f, d := RiffDescriptor(dataLength), FormatChunk(), DataChunkHeader(dataLength);
    var h := WavHeader(dataLength);
    FormatChunkValues();
    assert h == r + (f + d);
    ReadLE32Suffix(r, f + d, 4);
    ReadLE32Prefix(f, d, 4);
    ReadLE16Suffix(r, f + d, 8);
    ReadLE16Suffix(r, f + d, 10);
    ReadLE32Suffix(r, f + d, 12);
    ReadLE32Prefix(f, d, 12);
    ReadLE32Suffix(r, f + d, 16);
    ReadLE32Prefix(f, d, 16);
    ReadLE16Suffix(r, f + d, 20);
    ReadLE16Suffix(r, f + d, 22);
    ReadLE16At(f + d, 8, f[8..10]);
    ReadLE16At(f + d, 10, f[10..12]);
    ReadLE16At(f + d, 20, f[20..22]);
    ReadLE16At(f + d, 22, f[22..24]);
  }

  /** The `data` chunk header reads back as the `data` tag and the sample byte count
      modulo 2^32. */
  lemma DataChunkFields(dataLength: int)
    ensures WavHeader(dataLength)[36..40] == Codes("data")
    ensures ReadLE32(WavHeader(dataLength), 40) == dataLength % 0x1_0000_0000
  {
    var d := DataChunkHeader(dataLength);
    ReadLE32At(d, 4, LE32(dataLength));
    LE32RoundTrip(dataLength);
    ReadLE32Suffix(RiffDescriptor(dataLength) + FormatChunk(), d, 4);
  }

  /** The downloaded file: the header followed by the samples. */
  function WavFile(samples: seq<byte>): (f: seq<byte>)
    ensures |f| == HeaderSize + |samples|
  {
    WavHeader(|samples|) + samples
  }

  /** In the file, the RIFF chunk size is the file length less the 8 bytes of the RIFF
      tag and size, and the `data` chunk size is the number of samples, as long as the
      sizes fit in 32 bits. */
  lemma WavFileSizes(samples: seq<byte>)
    requires 36 + |samples| < 0x1_0000_0000
    ensures ReadLE32(WavFile(samples), 4) == |WavFile(samples)| - 8
    ensures ReadLE32(WavFile(samples), 40) == |samples|
  {
    RiffDescriptorFields(|samples|);
    DataChunkFields(|samples|);
    SizesFromHeader(WavHeader(|samples|), samples);
  }

  lemma SizesFromHeader(h: seq<byte>, samples: seq<byte>)
    requires |h| == HeaderSize && 36 + |samples| < 0x1_0000_0000
    requires ReadLE32(h, 4) == (36 + |samples|) % 0x1_0000_0000
    requires ReadLE32(h, 40) == |samples| % 0x1_0000_0000
    ensures ReadLE32(h + samples, 4) == |h + samples| - 8
    ensures ReadLE32(h + samples, 40) == |samples|
  {
    ReadLE32Prefix(h, samples, 4);
    ReadLE32Prefix(h, samples, 40);
  }

  /** The samples follow the header unchanged. */
  lemma WavFileSamples(samples: seq<byte>)
    ensures WavFile(samples)[HeaderSize..] == samples
  {
    var h := WavHeader(|samples|);
    assert (h + samples)[|h|..] == samples;
  }

  /** `writeString(offset, s)`: the character codes of `s` stored from `offset` on, one
      byte at a time. */
  method WriteString(view: array<byte>, offset: nat, s: string)
    requires offset + |s| <= view.Length
    modifies view
    ensures view[..offset + |s|] == old(view[..offset]) + Codes(s)
    ensures view[offset + |s|..] == old(view[offset + |s|..])
  {
    for i := 0 to |s|
      invariant view[..offset + i] == old(view[..offset]) + Codes(s)[..i]
      invariant view[offset + |s|..] == old(view[offset + |s|..])
    {
      view[offset + i] := CodeByte(s[i]);
      assert Codes(s)[..i + 1] == Codes(s)[..i] + [CodeByte(s[i])];
    }
  }

  /** `setUint16(offset, v, true)`. */
  method SetUint16(view: array<byte>, offset: nat, v: int)
    requires offset + 2 <= view.Length
    modifies view
    ensures view[..offset + 2] == old(view[..offset]) + LE16(v)
    ensures view[offset + 2..] == old(view[offset + 2..])
  {
    var bytes := LE16(v);
    view[offset], view[offset + 1] := bytes[0], bytes[1];
    assert view[..offset + 2] == old(view[..offset]) + bytes;
  }

  /** `setUint32(offset, v, true)`. */
  method SetUint32(view: array<byte>, offset: nat, v: int)
    requires offset + 4 <= view.Length
    modifies view
    ensures view[..offset + 4] == old(view[..offset]) + LE32(v)
    ensures view[offset + 4..] == old(view[offset + 4..])
  {
    var bytes := LE32(v);
    view[offset], view[offset + 1], view[offset + 2], view[offset + 3] := bytes[0], bytes[1], bytes[2], bytes[3];
    assert view[..offset + 4] == old(view[..offset]) + bytes;
  }

  /** The header of `handleDownloadAudio`, written into a fresh 44-byte buffer. */
  method BuildHeader(dataLength: int) returns (header: array<byte>)
    ensures fresh(header)
    ensures header[..] == WavHeader(dataLength)
  {
    header := new byte[HeaderSize](_ => 0);
    WriteRiffDescriptor(header, dataLength);
    WriteFormatChunk(header);
    WriteDataChunkHeader(header, dataLength);
    assert header[..] == header[..HeaderSize];
  }

  method WriteRiffDescriptor(header: array<byte>, dataLength: int)
    requires header.Length == HeaderSize
    modifies header
    ensures header[..12] == RiffDescriptor(dataLength)
    ensures header[12..] == old(header[12..])
  {
    WriteString(header, 0, "RIFF");
    SetUint32(header, 4, 36 + dataLength);
    WriteString(header, 8, "WAVE");
  }

  method WriteFormatChunk(header: array<byte>)
    requires header.Length == HeaderSize
    modifies header
    ensures header[..36] == old(header[..12]) + FormatChunk()
    ensures header[36..] == old(header[36..])
  {
    WriteFormatHead(header);
    WriteFormatRates(header);
  }

  /** Bytes 12 to 23: the tag, the chunk size, the format and the channel count. */
  method WriteFormatHead(header: array<byte>)
    requires header.Length == HeaderSize
    modifies header
    ensures header[..24] == old(header[..12]) + (Codes("fmt ") + LE32(16) + LE16(1) + LE16(NumChannels))
    ensures header[24..] == old(header[24..])
  {
    ghost var written := old(header[..12]);
    ghost var tail := old(header[24..]);
    WriteString(header, 12, "fmt ");
    written := written + Codes("fmt ");
    assert header[24..] == header[16..][8..];
    SetUint32(header, 16, 16);
    written := written + LE32(16);
    assert header[24..] == tail by { assert header[24..] == header[20..][4..]; }
    SetUint16(header, 20, 1);
    written := written + LE16(1);
    assert header[24..] == tail by { assert header[24..] == header[22..][2..]; }
    SetUint16(header, 22, NumChannels);
    assert header[..24] == written + LE16(NumChannels);
  }

  /** Bytes 24 to 35: the sample rate, the byte rate, the block size and the sample width. */
  method WriteFormatRates(header: array<byte>)
    requires header.Length == HeaderSize
    modifies header
    ensures header[..36] == old(header[..24]) + (LE32(SampleRate) + LE32(ByteRate) + LE16(BlockAlign) + LE16(BitsPerSample))
    ensures header[36..] == old(header[36..])
  {
    ghost var written := old(header[..24]);
    ghost var tail := old(header[36..]);
    SetUint32(header, 24, SampleRate);
    written := written + LE32(SampleRate);
    assert header[36..] == tail by { assert header[36..] == header[28..][8..]; }
    SetUint32(header, 28, ByteRate);
    written := written + LE32(ByteRate);
    assert header[36..] == tail by { assert header[36..] == header[32..][4..]; }
    SetUint16(header, 32, BlockAlign);
    written := written + LE16(BlockAlign);
    assert header[36..] == tail by { assert header[36..] == header[34..][2..]; }
    SetUint16(header, 34, BitsPerSample);
    assert header[..36] == written + LE16(BitsPerSample);
  }

  method WriteDataChunkHeader(header: array<byte>, dataLength: int)
    requires header.Length == HeaderSize
    modifies header
    ensures header[..] == old(header[..36]) + DataChunkHeader(dataLength)
  {
    WriteString(header, 36, "data");
    SetUint32(header, 40, dataLength);
    assert header[..] == header[..HeaderSize];
  }

  /** The sample buffer: byte `i` is the code of character `i` of the decoded string,
      modulo 256 as a byte array stores it. */
  method DecodeSamples(binary: string) returns (bytes: array<byte>)
    ensures fresh(bytes)
    ensures bytes[..] == Codes(binary)
  {
    bytes := new byte[|binary|](_ => 0);
    for i := 0 to |binary|
      invariant bytes[..i] == Codes(binary)[..i]
    {
      bytes[i] := CodeByte(binary[i]);
      assert Codes(binary)[..i + 1] == Codes(binary)[..i] + [CodeByte(binary[i])];
    }
  }

  /** The downloaded file: the header written for the decoded samples, then the samples. */
  method DownloadFile(binary: string) returns (file: seq<byte>)
    ensures file == WavFile(Codes(binary))
  {
    var bytes := DecodeSamples(binary);
    var header := BuildHeader(bytes.Length);
    file := header[..] + bytes[..];
  }
}
