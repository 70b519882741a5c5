/** The WAV header of a PCM segment: `write_wav_header` of `native/src/audio.rs`. */
module Wav {
  import opened Prelude

  const BYTES_PER_SAMPLE: nat := 2
  const HEADER_BYTES: nat := 44

  /** Sample rate, channels and segment length of a recorder, all positive. */
  datatype Format = Format(sampleRate: nat, channels: nat, segmentFrames: nat)

  predicate FormatOk(f: Format) {
    0 < f.sampleRate <= U32_MAX && 0 < f.channels <= U16_MAX && f.segmentFrames > 0
  }

  function FrameBytes(f: Format): nat { f.channels * BYTES_PER_SAMPLE }

  function ByteRate(f: Format): nat { f.sampleRate * FrameBytes(f) }

  // Little-endian numbers

  function Le16(n: nat): seq<Byte>
    requires n <= U16_MAX
  {
    [n % 256, n / 256]
  }

  function Le32(n: nat): seq<Byte>
    requires n <= U32_MAX
  {
    [n % 256, n / 256 % 256, n / 65_536 % 256, n / 16_777_216]
  }

  function Value(bytes: seq<Byte>): nat {
    if |bytes| == 0 then 0 else bytes[0] + 256 * Value(bytes[1..])
  }

  lemma {:induction false} ValueOfTwo(b: seq<Byte>)
    requires |b| == 2
    ensures Value(b) == b[0] as int + 256 * b[1] as int
  {
    assert b[1..][1..] == [];
    assert Value(b[1..]) == b[1] + 256 * Value(b[1..][1..]);
  }

  lemma {:induction false} ValueOfFour(b: seq<Byte>)
    requires |b| == 4
    ensures Value(b) == b[0] as int + 256 * b[1] as int + 65_536 * b[2] as int + 16_777_216 * b[3] as int
  {
    ValueOfTwo(b[2..]);
    assert b[1..][1..] == b[2..];
    assert Value(b[1..]) == b[1] + 256 * Value(b[2..]);
  }

  lemma {:induction false} LeReadsBack(n: nat)
    ensures n <= U16_MAX ==> Value(Le16(n)) == n
    ensures n <= U32_MAX ==> Value(Le32(n)) == n
  {
    if n <= U16_MAX {
      ValueOfTwo(Le16(n));
    }
    if n <= U32_MAX {
      ValueOfFour(Le32(n));
    }
  }

  // The header

  const RIFF: seq<Byte> := [0x52, 0x49, 0x46, 0x46]
  const WAVE: seq<Byte> := [0x57, 0x41, 0x56, 0x45]
  const FMT: seq<Byte> := [0x66, 0x6d, 0x74, 0x20]
  const DATA: seq<Byte> := [0x64, 0x61, 0x74, 0x61]

  /** "RIFF", the size of what follows it, "WAVE". */
  function RiffPart(size: seq<Byte>): seq<Byte> {
    RIFF + size + WAVE
  }

  /** "fmt ", its length 16, the PCM tag 1, the format, 16 bits per sample. */
  function FormatPart(channels: seq<Byte>, rate: seq<Byte>, byteRate: seq<Byte>, align: seq<Byte>): seq<Byte> {
    FMT + [16, 0, 0, 0, 1, 0] + channels + rate + byteRate + align + [16, 0]
  }

  /** "data" and its size. */
  function DataPart(size: seq<Byte>): seq<Byte> {
    DATA + size
  }

  function WavHeader(f: Format, dataBytes: nat): Result<seq<Byte>> {
    if dataBytes > U32_MAX || 36 + dataBytes > U32_MAX then Err(AudioTooLarge)
    else if FrameBytes(f) > U16_MAX then Err(InvalidArgument)
    else if ByteRate(f) > U32_MAX || f.sampleRate > U32_MAX then Err(InvalidArgument)
    else
      Ok(RiffPart(Le32(36 + dataBytes))
         + FormatPart(Le16(f.channels), Le32(f.sampleRate), Le32(ByteRate(f)), Le16(FrameBytes(f)))
         + DataPart(Le32(dataBytes)))
  }

  /** A field of the header. */
  function Field(h: seq<Byte>, at: nat, size: nat): nat
    requires at + size <= |h|
  {
    Value(h[at..at + size])
  }

  lemma {:induction false} FormatFields(channels: seq<Byte>, rate: seq<Byte>, byteRate: seq<Byte>, align: seq<Byte>)
    requires |channels| == 2 && |rate| == 4 && |byteRate| == 4 && |align| == 2
    ensures var b := FormatPart(channels, rate, byteRate, align);
            |b| == 24 && b[10..12] == channels && b[12..16] == rate && b[16..20] == byteRate && b[20..22] == align
  {
  }

  lemma {:induction false} FormatConstants(channels: seq<Byte>, rate: seq<Byte>, byteRate: seq<Byte>, align: seq<Byte>)
    requires |channels| == 2 && |rate| == 4 && |byteRate| == 4 && |align| == 2
    ensures var b := FormatPart(channels, rate, byteRate, align);
            |b| == 24 && b[..4] == FMT && b[4..8] == [16, 0, 0, 0] && b[8..10] == [1, 0] && b[22..24] == [16, 0]
  {
  }

  lemma {:induction false} MiddlePart(a: seq<Byte>, b: seq<Byte>, d: seq<Byte>, at: nat, size: nat)
    requires at + size <= |b|
    ensures (a + b + d)[|a| + at..|a| + at + size] == b[at..at + size]
  {
  }

  lemma {:induction false} Parts(riff: seq<Byte>, format: seq<Byte>, size: seq<Byte>, dataSize: seq<Byte>)
    requires |size| == 4 && |dataSize| == 4 && |format| == 24
    requires riff == RiffPart(size)
    ensures var h := riff + format + DataPart(dataSize);
            && |riff| == 12 && |h| == HEADER_BYTES && h[4..8] == size && h[40..44] == dataSize
            && h[..4] == RIFF && h[8..12] == WAVE && h[36..40] == DATA
  {
  }

  /** A file whose header names it as 16-bit PCM of the recorder's format, `dataBytes` of it behind the header. */
  predicate IsWavOf(f: Format, file: seq<Byte>, dataBytes: nat) {
    && |file| >= HEADER_BYTES
    && file[..4] == RIFF && file[8..12] == WAVE && file[12..16] == FMT && file[36..40] == DATA
    && Field(file, 4, 4) + 8 == HEADER_BYTES + dataBytes
    && Field(file, 16, 4) == 16 && Field(file, 20, 2) == 1 && Field(file, 34, 2) == 16
    && Field(file, 22, 2) == f.channels
    && Field(file, 24, 4) == f.sampleRate
    && Field(file, 28, 4) == f.sampleRate * (2 * f.channels)
    && Field(file, 32, 2) == 2 * f.channels
    && Field(file, 40, 4) == dataBytes
  }

  lemma {:induction false} HeaderFields(size: seq<Byte>, channels: seq<Byte>, rate: seq<Byte>, byteRate: seq<Byte>,
                                        align: seq<Byte>, dataSize: seq<Byte>)
    requires |size| == |rate| == |byteRate| == |dataSize| == 4 && |channels| == |align| == 2
    ensures var h := RiffPart(size) + FormatPart(channels, rate, byteRate, align) + DataPart(dataSize);
            && |h| == HEADER_BYTES && h[4..8] == size && h[40..44] == dataSize
            && h[22..24] == channels && h[24..28] == rate && h[28..32] == byteRate && h[32..34] == align
  {
    var riff, format := RiffPart(size), FormatPart(channels, rate, byteRate, align);
    FormatFields(channels, rate, byteRate, align);
    Parts(riff, format, size, dataSize);
    MiddlePart(riff, format, DataPart(dataSize), 10, 2);
    MiddlePart(riff, format, DataPart(dataSize), 12, 4);
    MiddlePart(riff, format, DataPart(dataSize), 16, 4);
    MiddlePart(riff, format, DataPart(dataSize), 20, 2);
  }

  lemma {:induction false} HeaderConstants(size: seq<Byte>, channels: seq<Byte>, rate: seq<Byte>, byteRate: seq<Byte>,
                                           align: seq<Byte>, dataSize: seq<Byte>)
    requires |size| == |rate| == |byteRate| == |dataSize| == 4 && |channels| == |align| == 2
    ensures var h := RiffPart(size) + FormatPart(channels, rate, byteRate, align) + DataPart(dataSize);
            && |h| == HEADER_BYTES && h[..4] == RIFF && h[8..12] == WAVE && h[12..16] == FMT && h[36..40] == DATA
            && h[16..20] == [16, 0, 0, 0] && h[20..22] == [1, 0] && h[34..36] == [16, 0]
  {
    var riff, format := RiffPart(size), FormatPart(channels, rate, byteRate, align);
    FormatConstants(channels, rate, byteRate, align);
    Parts(riff, format, size, dataSize);
    MiddlePart(riff, format, DataPart(dataSize), 0, 4);
    MiddlePart(riff, format, DataPart(dataSize), 4, 4);
    MiddlePart(riff, format, DataPart(dataSize), 8, 2);
    MiddlePart(riff, format, DataPart(dataSize), 22, 2);
  }

  lemma {:induction false} FixedFields()
    ensures Value([16, 0, 0, 0]) == 16 && Value([1, 0]) == 1 && Value([16, 0]) == 16
  {
    ValueOfFour([16, 0, 0, 0]);
    ValueOfTwo([1, 0]);
    ValueOfTwo([16, 0]);
  }

  lemma {:induction false} HeaderIsWav(f: Format, dataBytes: nat, size: seq<Byte>, channels: seq<Byte>, rate: seq<Byte>,
                                       byteRate: seq<Byte>, align: seq<Byte>, dataSize: seq<Byte>)
    requires |size| == |rate| == |byteRate| == |dataSize| == 4 && |channels| == |align| == 2
    requires Value(size) == 36 + dataBytes && Value(dataSize) == dataBytes && Value(channels) == f.channels
    requires Value(rate) == f.sampleRate && Value(align) == FrameBytes(f)
    requires Value(byteRate) == ByteRate(f)
    ensures var h := RiffPart(size) + FormatPart(channels, rate, byteRate, align) + DataPart(dataSize);
            |h| == HEADER_BYTES && IsWavOf(f, h, dataBytes)
  {
    HeaderFields(size, channels, rate, byteRate, align, dataSize);
    HeaderConstants(size, channels, rate, byteRate, align, dataSize);
    FixedFields();
  }

  lemma {:induction false} Bytes16(n: nat) returns (b: seq<Byte>)
    requires n <= U16_MAX
    ensures b == Le16(n) && |b| == 2 && Value(b) == n
  {
    b := Le16(n);
    LeReadsBack(n);
  }

  lemma {:induction false} Bytes32(n: nat) returns (b: seq<Byte>)
    requires n <= U32_MAX
    ensures b == Le32(n) && |b| == 4 && Value(b) == n
  {
    b := Le32(n);
    LeReadsBack(n);
  }

  /** A file that follows its header is as long as the header says, and reads back in the recorder's own format. */
  lemma {:induction false} HeaderReadsBack(f: Format, dataBytes: nat)
    requires WavHeader(f, dataBytes).Ok?
    ensures var h := WavHeader(f, dataBytes).value; |h| == HEADER_BYTES && IsWavOf(f, h, dataBytes)
  {
    var size := Bytes32(36 + dataBytes);
    var channels := Bytes16(f.channels);
    var rate := Bytes32(f.sampleRate);
    var byteRate := Bytes32(ByteRate(f));
    var align := Bytes16(FrameBytes(f));
    var dataSize := Bytes32(dataBytes);
    HeaderIsWav(f, dataBytes, size, channels, rate, byteRate, align, dataSize);
  }

  /** A header is refused exactly if one of its numbers does not fit its field. */
  lemma {:induction false} HeaderExistsExactly(f: Format, dataBytes: nat)
    requires f.sampleRate <= U32_MAX
    ensures WavHeader(f, dataBytes).Ok? <==>
              36 + dataBytes < 0x1_0000_0000 && 2 * f.channels < 0x1_0000
              && f.sampleRate * (2 * f.channels) < 0x1_0000_0000
  {
  }

  lemma {:induction false} PartOfPrefix(file: seq<Byte>, head: seq<Byte>, a: nat, b: nat)
    requires head <= file && a <= b <= |head|
    ensures file[a..b] == head[a..b]
  {
  }

  /** What the header says is said of the whole file. */
  lemma {:induction false} FileOfHeader(f: Format, header: seq<Byte>, file: seq<Byte>, dataBytes: nat)
    requires |header| == HEADER_BYTES && IsWavOf(f, header, dataBytes) && header <= file
    ensures IsWavOf(f, file, dataBytes)
  {
    PartOfPrefix(file, header, 0, 4);
    PartOfPrefix(file, header, 4, 8);
    PartOfPrefix(file, header, 8, 12);
    PartOfPrefix(file, header, 12, 16);
    PartOfPrefix(file, header, 16, 20);
    PartOfPrefix(file, header, 20, 22);
    PartOfPrefix(file, header, 22, 24);
    PartOfPrefix(file, header, 24, 28);
    PartOfPrefix(file, header, 28, 32);
    PartOfPrefix(file, header, 32, 34);
    PartOfPrefix(file, header, 34, 36);
    PartOfPrefix(file, header, 36, 40);
    PartOfPrefix(file, header, 40, 44);
  }
}
