/**
 * The VB-Audio VBAN packet format as the transcriber's sender and receiver
 * use it: the 28-byte header (magic "VBAN", sample-rate index and protocol
 * bits, samples-1, channels-1, data format and codec bits, a 16-byte
 * NUL-padded stream name and a little-endian 32-bit frame counter), signed
 * 16-bit little-endian PCM payloads.
 */
module Vban {
  import opened Wrappers

  type Byte = x: int | 0 <= x < 256

  const HeaderSize: nat := 28
  /** "VBAN" in ASCII. */
  const Magic: seq<Byte> := [0x56, 0x42, 0x41, 0x4E]
  const SrTable: seq<nat> := [
    6000, 12000, 24000, 48000, 96000, 192000, 384000,
    8000, 16000, 32000, 64000, 128000, 256000, 512000,
    11025, 22050, 44100, 88200, 176400, 352800, 705600
  ]
  const DataTypeInt16: nat := 0x01
  const ProtocolAudio: nat := 0x00
  const CodecPcm: nat := 0x00
  const SamplesPerPacket: nat := 256

  /* ---------------------------------------------------------------- */
  /* Sample-rate lookup                                                */
  /* ---------------------------------------------------------------- */

  function IndexFrom(rate: int, i: nat): (r: Option<nat>)
    requires i <= |SrTable|
    ensures r.Some? ==> i <= r.value < |SrTable| && SrTable[r.value] == rate
    ensures r.Some? ==> forall j :: i <= j < r.value ==> SrTable[j] != rate
    ensures r.None? ==> forall j :: i <= j < |SrTable| ==> SrTable[j] != rate
    decreases |SrTable| - i
  {
    if i == |SrTable| then None
    else if SrTable[i] == rate then Some(i)
    else IndexFrom(rate, i + 1)
  }

  /** `sr_index`: the table position of a listed rate; None stands for the ValueError. */
  function SrIndex(rate: int): (r: Option<nat>)
    ensures r.Some? ==> r.value < |SrTable| && SrTable[r.value] == rate
    ensures r.Some? ==> forall j :: 0 <= j < r.value ==> SrTable[j] != rate
    ensures r.None? <==> rate !in SrTable
  {
    IndexFrom(rate, 0)
  }

  /* ---------------------------------------------------------------- */
  /* Fixed-width little-endian integers                               */
  /* ---------------------------------------------------------------- */

  /** `struct.pack("<I", n)`. */
  function U32Le(n: nat): (b: seq<Byte>)
    requires n < 0x1_0000_0000
    ensures |b| == 4
  {
    [n % 256, (n / 256) % 256, (n / 65536) % 256, n / 16777216]
  }

  /** `struct.unpack("<I", b)[0]`. */
  function ReadU32Le(b: seq<Byte>): (n: nat)
    requires |b| == 4
    ensures n < 0x1_0000_0000
  {
    b[0] as int + 256 * b[1] as int + 65536 * b[2] as int + 16777216 * b[3] as int
  }

  lemma DivDiv256(n: nat)
    ensures n / 65536 == (n / 256) / 256
    ensures n / 16777216 == (n / 65536) / 256
  {
  }

  lemma U32RoundTrip(n: nat)
    requires n < 0x1_0000_0000
    ensures ReadU32Le(U32Le(n)) == n
  {
    var q1, q2, q3 := n / 256, n / 65536, n / 16777216;
    DivDiv256(n);
    assert n == n % 256 + 256 * q1;
    assert q1 == q1 % 256 + 256 * q2;
    assert q2 == q2 % 256 + 256 * q3;
  }

  lemma U32RoundTripBytes(b: seq<Byte>)
    requires |b| == 4
    ensures U32Le(ReadU32Le(b)) == b
  {
    var n := ReadU32Le(b);
    var m2 := b[2] as int + 256 * b[3] as int;
    var m1 := b[1] as int + 256 * m2;
    assert n == b[0] as int + 256 * m1;
    Split256(b[0], m1);
    Split256(b[1], m2);
    Split256(b[2], b[3]);
    DivDiv256(n);
  }

  lemma Split256(r: int, q: int)
    requires 0 <= r < 256 && q >= 0
    ensures (r + 256 * q) / 256 == q && (r + 256 * q) % 256 == r
  {
  }

  /** One int16 sample as `ndarray.tobytes()` writes it on a little-endian host. */
  function Int16Le(v: int): (b: seq<Byte>)
    ensures |b| == 2
  {
    var u := v % 65536;
    [u % 256, u / 256]
  }

  /** `np.frombuffer(..., dtype=np.int16)` for one sample. */
  function ReadInt16Le(lo: Byte, hi: Byte): (v: int)
    ensures -32768 <= v < 32768
  {
    var u := lo as int + 256 * hi as int;
    if u >= 32768 then u - 65536 else u
  }

  lemma Int16RoundTrip(v: int)
    requires -32768 <= v < 32768
    ensures ReadInt16Le(Int16Le(v)[0], Int16Le(v)[1]) == v
  {
  }

  predicate IsSample(v: int) { -32768 <= v < 32768 }

  predicate AllSamples(s: seq<int>) { forall i :: 0 <= i < |s| ==> IsSample(s[i]) }

  /** `chunk.tobytes()` for a block of int16 samples. */
  function PcmBytes(samples: seq<int>): (b: seq<Byte>)
    ensures |b| == 2 * |samples|
    decreases |samples|
  {
    if |samples| == 0 then [] else Int16Le(samples[0]) + PcmBytes(samples[1..])
  }

  /** `np.frombuffer(data, dtype=np.int16)` for an even number of bytes. */
  function PcmSamples(b: seq<Byte>): (s: seq<int>)
    requires |b| % 2 == 0
    ensures |s| == |b| / 2 && AllSamples(s)
    decreases |b|
  {
    if |b| == 0 then [] else [ReadInt16Le(b[0], b[1])] + PcmSamples(b[2..])
  }

  lemma {:induction false} PcmRoundTrip(samples: seq<int>)
    requires AllSamples(samples)
    ensures PcmSamples(PcmBytes(samples)) == samples
    decreases |samples|
  {
    if |samples| > 0 {
      var b := PcmBytes(samples);
      Int16RoundTrip(samples[0]);
      assert b[2..] == PcmBytes(samples[1..]);
      PcmRoundTrip(samples[1..]);
    }
  }

  /* ---------------------------------------------------------------- */
  /* Stream name field                                                */
  /* ---------------------------------------------------------------- */

  predicate IsAscii(name: string) { forall i :: 0 <= i < |name| ==> name[i] as int < 128 }

  function Min(a: int, b: int): int { if a <= b then a else b }

  /** `name.encode("ascii")` for an ASCII name. */
  function AsciiBytes(name: string): (b: seq<Byte>)
    requires IsAscii(name)
    ensures |b| == |name|
    ensures forall i :: 0 <= i < |name| ==> b[i] == name[i] as int
  {
    seq(|name|, i requires 0 <= i < |name| => name[i] as int)
  }

  /** Bytes 8..24: the name truncated to 16 bytes and padded with NUL. */
  function NameField(name: string): (f: seq<Byte>)
    requires IsAscii(name)
    ensures |f| == 16
  {
    var b := AsciiBytes(name)[..Min(16, |name|)];
    b + seq(16 - |b|, _ => 0)
  }

  /** `b.decode("ascii", errors="replace")` for one byte. */
  function DecodeByte(b: Byte): char
  {
    if b < 128 then b as char else '\U{FFFD}'
  }

  /** The bytes of `f` before its first NUL, i.e. `f.split(b"\x00")[0]`. */
  function UntilNul(f: seq<Byte>): (r: seq<Byte>)
    ensures |r| <= |f| && r == f[..|r|]
    ensures 0 !in r
    ensures |r| < |f| ==> f[|r|] == 0
    decreases |f|
  {
    if |f| == 0 || f[0] == 0 then [] else [f[0]] + UntilNul(f[1..])
  }

  function DecodeName(f: seq<Byte>): (name: string)
  {
    var b := UntilNul(f);
    seq(|b|, i requires 0 <= i < |b| => DecodeByte(b[i]))
  }

  /* ---------------------------------------------------------------- */
  /* Header                                                           */
  /* ---------------------------------------------------------------- */

  /**
   * `build_header`. The bit-field ORs of the source combine disjoint
   * fields, so they are written here as sums. None stands for the
   * UnicodeEncodeError raised for a name that is not ASCII.
   */
  function BuildHeader(srIdx: int, samplesPerFrame: int, channels: int, frameCounter: int, streamName: string): (r: Option<seq<Byte>>)
    ensures r.Some? <==> IsAscii(streamName)
    ensures r.Some? ==> |r.value| == HeaderSize && r.value[..4] == Magic
    ensures r.Some? ==> r.value[4] == srIdx % 32 && r.value[4] / 32 == ProtocolAudio
    ensures r.Some? ==> r.value[5] == (samplesPerFrame - 1) % 256 && r.value[6] == (channels - 1) % 256
    ensures r.Some? ==> r.value[7] == 0x01
    ensures r.Some? ==> r.value[8..24] == NameField(streamName)
    ensures r.Some? ==> ReadU32Le(r.value[24..28]) == frameCounter % 0x1_0000_0000
  {
    if !IsAscii(streamName) then None
    else
      var srSubProtocol := srIdx % 32 + (ProtocolAudio % 8) * 32;
      var nSamples := (samplesPerFrame - 1) % 256;
      var nChannels := (channels - 1) % 256;
      var dataFormat := DataTypeInt16 % 8 + (CodecPcm % 32) * 8;
      var h := Magic + [srSubProtocol, nSamples, nChannels, dataFormat] + NameField(streamName) + U32Le(frameCounter % 0x1_0000_0000);
      assert h[24..28] == U32Le(frameCounter % 0x1_0000_0000);
      U32RoundTrip(frameCounter % 0x1_0000_0000);
      Some(h)
  }

  datatype Header = Header(
    sampleRate: nat,
    samples: nat,
    channels: nat,
    format: nat,
    codec: nat,
    streamName: string,
    frameCounter: nat)

  /** `parse_header`: None for a short packet, a wrong magic or a non-audio protocol. */
  function ParseHeader(data: seq<Byte>): (r: Option<Header>)
    ensures r.None? <==> |data| < HeaderSize || data[..4] != Magic || (data[4] / 32) % 8 != ProtocolAudio
    ensures r.Some? ==> r.value.samples == data[5] as int + 1 && r.value.channels == data[6] as int + 1
    ensures r.Some? ==> 1 <= r.value.samples <= 256 && 1 <= r.value.channels <= 256
    ensures r.Some? ==> r.value.format == data[7] % 8 && r.value.codec == (data[7] / 8) % 32
    ensures r.Some? ==> r.value.streamName == DecodeName(data[8..24])
    ensures r.Some? ==> r.value.frameCounter == ReadU32Le(data[24..28])
    ensures r.Some? ==> r.value.sampleRate == (if data[4] % 32 < |SrTable| then SrTable[data[4] % 32] else 0)
  {
    if |data| < HeaderSize then None
    else if data[..4] != Magic then None
    else
      var srSub := data[4];
      var srIndex := srSub % 32;
      var protocol := (srSub / 32) % 8;
      if protocol != ProtocolAudio then None
      else
        var rate := if srIndex < |SrTable| then SrTable[srIndex] else 0;
        Some(Header(rate, data[5] as int + 1, data[6] as int + 1, data[7] % 8, (data[7] / 8) % 32,
                    DecodeName(data[8..24]), ReadU32Le(data[24..28])))
  }

  lemma {:induction false} NameRoundTrip(name: string)
    requires IsAscii(name)
    requires forall i :: 0 <= i < |name| && i < 16 ==> name[i] != '\0'
    ensures DecodeName(NameField(name)) == name[..Min(16, |name|)]
  {
    var f := NameField(name);
    var k := Min(16, |name|);
    assert f[..k] == AsciiBytes(name)[..k];
    assert 0 !in f[..k];
    UntilNulPrefix(f, k);
  }

  lemma {:induction false} UntilNulPrefix(f: seq<Byte>, k: nat)
    requires k <= |f| && 0 !in f[..k]
    requires k == |f| || f[k] == 0
    ensures UntilNul(f) == f[..k]
    decreases k
  {
    if k > 0 {
      assert f[0] in f[..k];
      assert f[1..][..k - 1] == f[1..k];
      UntilNulPrefix(f[1..], k - 1);
    }
  }

  /**
   * What the receiver reads back from a header the sender built: the
   * table rate, the sample and channel counts, format 1 (int16), codec 0
   * (PCM), the name cut to 16 characters and the counter modulo 2^32.
   */
  lemma HeaderRoundTrip(srIdx: nat, samples: int, channels: int, frameCounter: int, name: string)
    requires srIdx < |SrTable|
    requires 1 <= samples <= 256 && 1 <= channels <= 256
    requires IsAscii(name)
    requires forall i :: 0 <= i < |name| && i < 16 ==> name[i] != '\0'
    ensures BuildHeader(srIdx, samples, channels, frameCounter, name).Some?
    ensures ParseHeader(BuildHeader(srIdx, samples, channels, frameCounter, name).value)
         == Some(Header(SrTable[srIdx], samples, channels, 1, 0, name[..Min(16, |name|)], frameCounter % 0x1_0000_0000))
  {
    var h := BuildHeader(srIdx, samples, channels, frameCounter, name).value;
    NameRoundTrip(name);
    assert h[4] % 32 == srIdx && h[4] / 32 == 0;
    assert h[5] as int + 1 == samples && h[6] as int + 1 == channels;
    var p := ParseHeader(h).value;
    assert p.sampleRate == SrTable[srIdx] && p.samples == samples && p.channels == channels;
    assert p.format == 1 && p.codec == 0;
    assert p.streamName == name[..Min(16, |name|)] && p.frameCounter == frameCounter % 0x1_0000_0000;
  }

  /** The samples of a run of chunks, in order. */
  function Flatten(cs: seq<seq<int>>): (s: seq<int>)
    decreases |cs|
  {
    if |cs| == 0 then [] else cs[0] + Flatten(cs[1..])
  }

  lemma FlattenAppend(a: seq<seq<int>>, b: seq<seq<int>>)
    ensures Flatten(a + b) == Flatten(a) + Flatten(b)
    decreases |a|
  {
    if |a| > 0 {
      assert (a + b)[0] == a[0];
      assert (a + b)[1..] == a[1..] + b;
      FlattenAppend(a[1..], b);
    } else {
      assert a + b == b;
    }
  }
}
