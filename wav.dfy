/** The WAV serialiser: a canonical 44-byte RIFF/WAVE PCM header followed
    by 16-bit little-endian samples, mono as written by the clamping
    converter, several channels interleaved frame by frame. Values are
    written the way a DataView stores them: unsigned fields modulo 2^16 or
    2^32, signed 16-bit fields truncated toward zero and then wrapped. */
module Wav {
  import opened Types

  newtype byte = b: int | 0 <= b < 256

  const Two16: int := 0x1_0000
  const Two32: int := 0x1_0000_0000

  /** `setUint16(offset, v, true)`: the low 16 bits, low byte first. */
  function LE16(v: int): (r: seq<byte>)
    ensures |r| == 2
  {
    var w := v % Two16;
    [(w % 256) as byte, (w / 256) as byte]
  }

  /** `setUint32(offset, v, true)`: the low 32 bits, low byte first. */
  function LE32(v: int): (r: seq<byte>)
    ensures |r| == 4
  {
    var w := v % Two32;
    [(w % 256) as byte, ((w / 0x100) % 256) as byte, ((w / 0x1_0000) % 256) as byte, (w / 0x100_0000) as byte]
  }

  function U16(b0: byte, b1: byte): (v: int)
    ensures 0 <= v < Two16
  {
    b0 as int + 256 * b1 as int
  }

  function U32(b0: byte, b1: byte, b2: byte, b3: byte): (v: int)
    ensures 0 <= v < Two32
  {
    b0 as int + 0x100 * b1 as int + 0x1_0000 * b2 as int + 0x100_0000 * b3 as int
  }

  /** The two's-complement reading of a 16-bit pattern. */
  function Signed16(u: int): int {
    if u >= 0x8000 then u - Two16 else u
  }

  lemma U16RoundTrip(v: int)
    ensures U16Of(LE16(v)) == v % Two16
  {
  }

  lemma U32RoundTrip(v: int)
    ensures U32Of(LE32(v)) == v % Two32
  {
    var w := v % Two32;
    var q1 := w / 0x100;
    var q2 := w / 0x1_0000;
    var q3 := w / 0x100_0000;
    assert q2 == q1 / 0x100;
    assert q3 == q2 / 0x100;
    assert w == w % 256 + 0x100 * q1;
    assert q1 == q1 % 256 + 0x100 * q2;
    assert q2 == q2 % 256 + 0x100 * q3;
  }

  /** A 16-bit signed value survives being written and read back. */
  lemma S16RoundTrip(v: int)
    requires -0x8000 <= v < 0x8000
    ensures Signed16(U16Of(LE16(v))) == v
  {
    U16RoundTrip(v);
  }

  /** `string.charCodeAt(i)` stored by `setUint8`: the code modulo 256. */
  function Ascii(s: string): (r: seq<byte>)
    ensures |r| == |s|
    ensures forall i :: 0 <= i < |s| ==> r[i] as int == s[i] as int % 256
  {
    seq(|s|, i requires 0 <= i < |s| => (s[i] as int % 256) as byte)
  }

  /** The fields of the canonical 44-byte header. */
  datatype WavHeader = WavHeader(
    riffSize: int, fmtSize: int, format: int, channels: int, sampleRate: int,
    byteRate: int, blockAlign: int, bitsPerSample: int, dataSize: int)

  predicate InRange(h: WavHeader) {
    0 <= h.riffSize < Two32 && 0 <= h.fmtSize < Two32 && 0 <= h.format < Two16 &&
    0 <= h.channels < Two16 && 0 <= h.sampleRate < Two32 && 0 <= h.byteRate < Two32 &&
    0 <= h.blockAlign < Two16 && 0 <= h.bitsPerSample < Two16 && 0 <= h.dataSize < Two32
  }

  /** The header a PCM file of `numFrames` frames of `numChan` channels at
      `sampleRate` carries. */
  function HeaderFor(numChan: int, sampleRate: int, numFrames: int): (h: WavHeader)
    ensures h.riffSize == numFrames * numChan * 2 + 44 - 8
    ensures h.dataSize == numFrames * numChan * 2
  {
    WavHeader(numFrames * numChan * 2 + 44 - 8, 16, 1, numChan, sampleRate,
              sampleRate * numChan * 2, numChan * 2, 16, numFrames * numChan * 2)
  }

  const RiffTag: string := "RIFF"
  const WaveTag: string := "WAVE"
  const FmtTag: string := "fmt "
  const DataTag: string := "data"

  /** Byte `i` of the header, in file order: the tags and fields at
      consecutive offsets 0, 4, 8, 12, 16, 20, 22, 24, 28, 32, 34, 36, 40. */
  function HeaderByte(h: WavHeader, i: int): byte
    requires 0 <= i < 44
  {
    if i < 4 then Ascii(RiffTag)[i]
    else if i < 8 then LE32(h.riffSize)[i - 4]
    else if i < 12 then Ascii(WaveTag)[i - 8]
    else if i < 16 then Ascii(FmtTag)[i - 12]
    else if i < 20 then LE32(h.fmtSize)[i - 16]
    else if i < 22 then LE16(h.format)[i - 20]
    else if i < 24 then LE16(h.channels)[i - 22]
    else if i < 28 then LE32(h.sampleRate)[i - 24]
    else if i < 32 then LE32(h.byteRate)[i - 28]
    else if i < 34 then LE16(h.blockAlign)[i - 32]
    else if i < 36 then LE16(h.bitsPerSample)[i - 34]
    else if i < 40 then Ascii(DataTag)[i - 36]
    else LE32(h.dataSize)[i - 40]
  }

  function EncodeHeader(h: WavHeader): (r: seq<byte>)
    ensures |r| == 44
  {
    seq(44, i requires 0 <= i < 44 => HeaderByte(h, i))
  }

  function U16Of(b: seq<byte>): (v: int)
    requires |b| == 2
    ensures 0 <= v < Two16
  {
    U16(b[0], b[1])
  }

  function U32Of(b: seq<byte>): (v: int)
    requires |b| == 4
    ensures 0 <= v < Two32
  {
    U32(b[0], b[1], b[2], b[3])
  }

  function U16At(bs: seq<byte>, k: int): int
    requires 0 <= k && k + 2 <= |bs|
  {
    U16Of(bs[k..k + 2])
  }

  function U32At(bs: seq<byte>, k: int): int
    requires 0 <= k && k + 4 <= |bs|
  {
    U32Of(bs[k..k + 4])
  }

  /** Reads a canonical header back: the four tags must be in place. */
  function DecodeHeader(bs: seq<byte>): (r: Option<WavHeader>)
    ensures r.Some? ==> InRange(r.value)
    ensures r.Some? <==> |bs| >= 44 && bs[0..4] == Ascii(RiffTag) && bs[8..12] == Ascii(WaveTag) &&
                          bs[12..16] == Ascii(FmtTag) && bs[36..40] == Ascii(DataTag)
  {
    if |bs| < 44 || bs[0..4] != Ascii(RiffTag) || bs[8..12] != Ascii(WaveTag) ||
       bs[12..16] != Ascii(FmtTag) || bs[36..40] != Ascii(DataTag) then None
    else Some(WavHeader(U32At(bs, 4), U32At(bs, 16), U16At(bs, 20), U16At(bs, 22), U32At(bs, 24),
                        U32At(bs, 28), U16At(bs, 32), U16At(bs, 34), U32At(bs, 40)))
  }

  /** Where each field of an encoded header sits. */
  lemma HeaderLayout(h: WavHeader)
    ensures var e := EncodeHeader(h);
      e[0..4] == Ascii(RiffTag) && e[4..8] == LE32(h.riffSize) && e[8..12] == Ascii(WaveTag) &&
      e[12..16] == Ascii(FmtTag) && e[16..20] == LE32(h.fmtSize) && e[20..22] == LE16(h.format) &&
      e[22..24] == LE16(h.channels) && e[24..28] == LE32(h.sampleRate) && e[28..32] == LE32(h.byteRate) &&
      e[32..34] == LE16(h.blockAlign) && e[34..36] == LE16(h.bitsPerSample) &&
      e[36..40] == Ascii(DataTag) && e[40..44] == LE32(h.dataSize)
  {
    var e := EncodeHeader(h);
    FieldAt(e, h, 0, Ascii(RiffTag));
    FieldAt(e, h, 4, LE32(h.riffSize));
    FieldAt(e, h, 8, Ascii(WaveTag));
    FieldAt(e, h, 12, Ascii(FmtTag));
    FieldAt(e, h, 16, LE32(h.fmtSize));
    FieldAt(e, h, 20, LE16(h.format));
    FieldAt(e, h, 22, LE16(h.channels));
    FieldAt(e, h, 24, LE32(h.sampleRate));
    FieldAt(e, h, 28, LE32(h.byteRate));
    FieldAt(e, h, 32, LE16(h.blockAlign));
    FieldAt(e, h, 34, LE16(h.bitsPerSample));
    FieldAt(e, h, 36, Ascii(DataTag));
    FieldAt(e, h, 40, LE32(h.dataSize));
  }

  lemma FieldAt(e: seq<byte>, h: WavHeader, k: int, f: seq<byte>)
    requires e == EncodeHeader(h) && 0 <= k && k + |f| <= 44
    requires forall j :: 0 <= j < |f| ==> HeaderByte(h, k + j) == f[j]
    ensures e[k..k + |f|] == f
  {
  }

  /** A sequence of 44 or more bytes is its 13 header slices in order. */
  lemma HeaderSlices(b: seq<byte>)
    requires |b| >= 44
    ensures b[..44] == b[0..4] + b[4..8] + b[8..12] + b[12..16] + b[16..20] + b[20..22] + b[22..24] +
                       b[24..28] + b[28..32] + b[32..34] + b[34..36] + b[36..40] + b[40..44]
  {
  }

  /** Decoding an encoded header, whatever follows it, gives the header
      back once every field fits its width. */
  lemma HeaderRoundTrip(h: WavHeader, rest: seq<byte>)
    requires InRange(h)
    ensures DecodeHeader(EncodeHeader(h) + rest) == Some(h)
  {
    var e := EncodeHeader(h);
    var bs := e + rest;
    HeaderLayout(h);
    assert bs[..44] == e;
    SlicesOfPrefix(bs, e);
    Field32(bs, 4, h.riffSize);
    Field32(bs, 16, h.fmtSize);
    Field16(bs, 20, h.format);
    Field16(bs, 22, h.channels);
    Field32(bs, 24, h.sampleRate);
    Field32(bs, 28, h.byteRate);
    Field16(bs, 32, h.blockAlign);
    Field16(bs, 34, h.bitsPerSample);
    Field32(bs, 40, h.dataSize);
  }

  lemma Field16(bs: seq<byte>, k: int, v: int)
    requires 0 <= k && k + 2 <= |bs| && bs[k..k + 2] == LE16(v) && 0 <= v < Two16
    ensures U16At(bs, k) == v
  {
    U16RoundTrip(v);
  }

  lemma Field32(bs: seq<byte>, k: int, v: int)
    requires 0 <= k && k + 4 <= |bs| && bs[k..k + 4] == LE32(v) && 0 <= v < Two32
    ensures U32At(bs, k) == v
  {
    U32RoundTrip(v);
  }

  lemma SlicesOfPrefix(bs: seq<byte>, e: seq<byte>)
    requires |e| == 44 && |bs| >= 44 && bs[..44] == e
    ensures forall i, j :: 0 <= i <= j <= 44 ==> bs[i..j] == e[i..j]
  {
    forall i, j | 0 <= i <= j <= 44 ensures bs[i..j] == e[i..j] {
      assert bs[i..j] == bs[..44][i..j];
    }
  }

  /** And the other way: a header that decodes is re-encoded to its bytes. */
  lemma HeaderDecodeEncode(bs: seq<byte>)
    requires DecodeHeader(bs).Some?
    ensures EncodeHeader(DecodeHeader(bs).value) == bs[..44]
  {
    var h := DecodeHeader(bs).value;
    var e := EncodeHeader(h);
    HeaderLayout(h);
    U32Inverse(bs[4..8]);
    U32Inverse(bs[16..20]);
    U16Inverse(bs[20..22]);
    U16Inverse(bs[22..24]);
    U32Inverse(bs[24..28]);
    U32Inverse(bs[28..32]);
    U16Inverse(bs[32..34]);
    U16Inverse(bs[34..36]);
    U32Inverse(bs[40..44]);
    HeaderSlices(bs);
    HeaderSlices(e);
    assert e[..44] == e;
  }

  lemma U16Inverse(b: seq<byte>)
    requires |b| == 2
    ensures LE16(U16Of(b)) == b
  {
    var v := U16Of(b);
    assert v % Two16 == v;
    assert v % 256 == b[0] as int;
    assert v / 256 == b[1] as int;
  }

  lemma U32Inverse(b: seq<byte>)
    requires |b| == 4
    ensures LE32(U32Of(b)) == b
  {
    var v := U32Of(b);
    var b0, b1, b2, b3 := b[0] as int, b[1] as int, b[2] as int, b[3] as int;
    assert v % Two32 == v;
    assert v / 0x100 == b1 + 0x100 * b2 + 0x1_0000 * b3;
    assert v / 0x1_0000 == b2 + 0x100 * b3;
    assert v / 0x100_0000 == b3;
  }

  /** Truncation toward zero, as the DataView integer setters apply it. */
  function Trunc(x: real): (n: int)
    ensures x >= 0.0 ==> n as real <= x < n as real + 1.0
    ensures x < 0.0 ==> n as real - 1.0 < x <= n as real
  {
    if x >= 0.0 then x.Floor else -((-x).Floor)
  }

  /** `Math.max(-1, Math.min(1, x))`. */
  function ClampUnit(x: real): (r: real)
    ensures -1.0 <= r <= 1.0
    ensures -1.0 <= x <= 1.0 ==> r == x
  {
    if x > 1.0 then 1.0 else if x < -1.0 then -1.0 else x
  }

  /** Negative samples scale by 0x8000, the others by 0x7FFF. */
  function PcmScale(s: real): real {
    if s < 0.0 then s * 32768.0 else s * 32767.0
  }

  /** The 16-bit value of one mono sample. */
  function Pcm16(x: real): (v: int)
    ensures -0x8000 <= v <= 0x7FFF
    ensures x >= 0.0 ==> v >= 0
    ensures x < 0.0 ==> v <= 0
    ensures x >= 1.0 ==> v == 0x7FFF
    ensures x <= -1.0 ==> v == -0x8000
  {
    Trunc(PcmScale(ClampUnit(x)))
  }

  /** The mono payload: two bytes per sample. */
  function MonoPayload(s: seq<real>): (r: seq<byte>)
    ensures |r| == 2 * |s|
  {
    if |s| == 0 then [] else MonoPayload(s[..|s| - 1]) + LE16(Pcm16(s[|s| - 1]))
  }

  /** Sample `i` of a mono payload sits at bytes 2i and 2i+1. */
  lemma {:induction false} MonoPayloadAt(s: seq<real>, i: int)
    requires 0 <= i < |s|
    ensures MonoPayload(s)[2 * i..2 * i + 2] == LE16(Pcm16(s[i]))
  {
    var n := |s| - 1;
    var init := s[..n];
    if i < n {
      MonoPayloadAt(init, i);
      assert MonoPayload(s)[..2 * n] == MonoPayload(init);
      assert init[i] == s[i];
    } else {
      assert MonoPayload(s)[2 * n..] == LE16(Pcm16(s[n]));
    }
  }

  /** The value a channel sample is written with when there are several
      channels: the same scaling, with no clamp, wrapped to 16 bits. */
  function Interleaved16(x: real): int {
    Trunc(PcmScale(x))
  }

  /** Every channel holds `n` frames. */
  predicate Rect(channels: seq<seq<real>>, n: int) {
    forall k :: 0 <= k < |channels| ==> |channels[k]| == n
  }

  /** An audio buffer: at least one channel, all of the same length. */
  predicate ValidChannels(channels: seq<seq<real>>) {
    |channels| >= 1 && Rect(channels, |channels[0]|)
  }

  /** Frame `i`'s bytes for channels 0 .. c-1. */
  function FrameBytes(channels: seq<seq<real>>, n: int, i: int, c: int): (r: seq<byte>)
    requires Rect(channels, n) && 0 <= i < n && 0 <= c <= |channels|
    ensures |r| == c * 2
  {
    if c == 0 then [] else FrameBytes(channels, n, i, c - 1) + LE16(Interleaved16(channels[c - 1][i]))
  }

  /** The interleaved payload of frames 0 .. m-1. */
  function InterleavedPayload(channels: seq<seq<real>>, n: int, m: int): (r: seq<byte>)
    requires Rect(channels, n) && 0 <= m <= n
    ensures |r| == m * |channels| * 2
  {
    if m == 0 then [] else InterleavedPayload(channels, n, m - 1) + FrameBytes(channels, n, m - 1, |channels|)
  }

  lemma {:induction false} FrameBytesAt(channels: seq<seq<real>>, n: int, i: int, c: int, k: int)
    requires Rect(channels, n) && 0 <= i < n && 0 <= k < c <= |channels|
    ensures FrameBytes(channels, n, i, c)[2 * k..2 * k + 2] == LE16(Interleaved16(channels[k][i]))
  {
    if k < c - 1 {
      FrameBytesAt(channels, n, i, c - 1, k);
      assert FrameBytes(channels, n, i, c)[..2 * (c - 1)] == FrameBytes(channels, n, i, c - 1);
    }
  }

  lemma MulMonotone(a: int, b: int, c: int)
    requires 0 <= a <= b && 0 <= c
    ensures a * c <= b * c
  {
  }

  /** Channel `k` of frame `i` sits at bytes 2(i·C + k) and the next. */
  lemma {:induction false} InterleavedAt(channels: seq<seq<real>>, n: int, m: int, i: int, k: int)
    requires Rect(channels, n) && 0 <= i < m <= n && 0 <= k < |channels|
    ensures 2 * (i * |channels| + k) + 2 <= m * |channels| * 2
    ensures InterleavedPayload(channels, n, m)[2 * (i * |channels| + k)..2 * (i * |channels| + k) + 2]
            == LE16(Interleaved16(channels[k][i]))
  {
    var c := |channels|;
    var at := 2 * (i * c + k);
    var prev := InterleavedPayload(channels, n, m - 1);
    var last := FrameBytes(channels, n, m - 1, c);
    var p := InterleavedPayload(channels, n, m);
    assert p == prev + last;
    assert |prev| == (m - 1) * c * 2;
    assert m * c == (m - 1) * c + c;
    if i < m - 1 {
      InterleavedAt(channels, n, m - 1, i, k);
      assert p[at..at + 2] == prev[at..at + 2];
    } else {
      FrameBytesAt(channels, n, i, c, k);
      assert at == |prev| + 2 * k;
      assert p[at..at + 2] == last[2 * k..2 * k + 2];
    }
    MulMonotone(i + 1, m, c);
  }

  /** The bytes of the file for `channels` at `sampleRate`. */
  function WavBytes(channels: seq<seq<real>>, sampleRate: int): (r: seq<byte>)
    requires ValidChannels(channels)
    ensures |r| == |channels[0]| * |channels| * 2 + 44
  {
    var numChan := |channels|;
    var n := |channels[0]|;
    EncodeHeader(HeaderFor(numChan, sampleRate, n)) +
    (if numChan == 1 then MonoPayload(channels[0]) else InterleavedPayload(channels, n, n))
  }

  lemma PayloadSlice(e: seq<byte>, p: seq<byte>, at: int)
    requires |e| == 44 && 0 <= at && at + 2 <= |p|
    ensures (e + p)[44 + at..44 + at + 2] == p[at..at + 2]
  {
  }

  /** The RIFF size field reads back as the file length minus 8 (modulo
      2^32 for files of 4 GiB and more). */
  lemma RiffSizeIsLengthMinus8(channels: seq<seq<real>>, sampleRate: int)
    requires ValidChannels(channels)
    ensures var b := WavBytes(channels, sampleRate);
      U32At(b, 4) == (|b| - 8) % Two32
  {
    var h := HeaderFor(|channels|, sampleRate, |channels[0]|);
    var b := WavBytes(channels, sampleRate);
    HeaderLayout(h);
    assert b[..44] == EncodeHeader(h);
    assert b[4..8] == EncodeHeader(h)[4..8];
    U32RoundTrip(h.riffSize);
  }

  /** A mono file's header decodes to one channel at the sample rate, 16
      bits per sample and 2N data bytes, when those fit their fields. */
  lemma MonoHeaderDecodes(s: seq<real>, sampleRate: int)
    requires 0 <= sampleRate && sampleRate * 2 < Two32
    requires 2 * |s| + 36 < Two32
    ensures var h := DecodeHeader(WavBytes([s], sampleRate));
      h.Some? && h.value.channels == 1 && h.value.sampleRate == sampleRate &&
      h.value.bitsPerSample == 16 && h.value.dataSize == 2 * |s| &&
      h.value == HeaderFor(1, sampleRate, |s|)
  {
    var h := HeaderFor(1, sampleRate, |s|);
    assert InRange(h);
    HeaderRoundTrip(h, MonoPayload(s));
  }

  /** Every mono sample reads back from offset 44 + 2i as its clamped,
      scaled, truncated 16-bit value. */
  lemma MonoSampleDecodes(s: seq<real>, sampleRate: int, i: int)
    requires 0 <= i < |s|
    ensures var b := WavBytes([s], sampleRate);
      44 + 2 * i + 2 <= |b| && Signed16(U16At(b, 44 + 2 * i)) == Pcm16(s[i])
  {
    var b := WavBytes([s], sampleRate);
    var e := EncodeHeader(HeaderFor(1, sampleRate, |s|));
    var p := MonoPayload(s);
    assert b == e + p;
    MonoPayloadAt(s, i);
    PayloadSlice(e, p, 2 * i);
    S16RoundTrip(Pcm16(s[i]));
  }

  /** With several channels, channel k of frame i reads back from offset
      44 + 2(i·C + k) as its scaled, truncated value wrapped to 16 bits; for
      samples within [-1, 1] that is the mono value. */
  lemma InterleavedSampleDecodes(channels: seq<seq<real>>, sampleRate: int, i: int, k: int)
    requires ValidChannels(channels) && |channels| >= 2
    requires 0 <= i < |channels[0]| && 0 <= k < |channels|
    ensures var b := WavBytes(channels, sampleRate);
      var at := 44 + 2 * (i * |channels| + k);
      at + 2 <= |b| &&
      U16At(b, at) == Interleaved16(channels[k][i]) % Two16 &&
      (-1.0 <= channels[k][i] <= 1.0 ==> Signed16(U16At(b, at)) == Pcm16(channels[k][i]))
  {
    var n := |channels[0]|;
    var e := EncodeHeader(HeaderFor(|channels|, sampleRate, n));
    var p := InterleavedPayload(channels, n, n);
    var at := 2 * (i * |channels| + k);
    assert WavBytes(channels, sampleRate) == e + p;
    InterleavedAt(channels, n, n, i, k);
    PayloadSlice(e, p, at);
    SampleCodes(channels[k][i]);
  }

  /** What a sample's two bytes read back as, with and without the clamp. */
  lemma SampleCodes(x: real)
    ensures U16Of(LE16(Interleaved16(x))) == Interleaved16(x) % Two16
    ensures -1.0 <= x <= 1.0 ==> Signed16(U16Of(LE16(Interleaved16(x)))) == Pcm16(x)
  {
    U16RoundTrip(Interleaved16(x));
    if -1.0 <= x <= 1.0 {
      assert Interleaved16(x) == Pcm16(x);
      S16RoundTrip(Pcm16(x));
    }
  }

  /** The unclamped converter wraps: a full-scale-and-a-half sample comes
      back negative. */
  lemma InterleavedOverflowWraps()
    ensures Interleaved16(1.5) == 49150
    ensures Signed16(Interleaved16(1.5) % Two16) == -16386
    ensures Pcm16(1.5) == 0x7FFF
  {
  }

  /** `after` is `before` with `bs` written at `offset` and nothing else
      changed. */
  predicate Spliced(after: seq<byte>, before: seq<byte>, offset: int, bs: seq<byte>) {
    |after| == |before| && 0 <= offset && offset + |bs| <= |before| &&
    (forall j :: 0 <= j < |before| && !(offset <= j < offset + |bs|) ==> after[j] == before[j]) &&
    (forall j :: 0 <= j < |bs| ==> after[offset + j] == bs[j])
  }

  /** Two adjacent writes are one write of their concatenation. */
  lemma SplicedThen(a: seq<byte>, b: seq<byte>, c: seq<byte>, offset: int, p: seq<byte>, q: seq<byte>)
    requires Spliced(b, a, offset, p) && Spliced(c, b, offset + |p|, q)
    ensures Spliced(c, a, offset, p + q)
  {
    forall j | 0 <= j < |p + q| ensures c[offset + j] == (p + q)[j] {
      if j < |p| {
        assert c[offset + j] == b[offset + j];
      } else {
        assert c[offset + j] == q[j - |p|];
      }
    }
  }

  /** A write that covers the whole buffer leaves exactly its bytes. */
  lemma SplicedWhole(after: seq<byte>, before: seq<byte>, bs: seq<byte>)
    requires Spliced(after, before, 0, bs) && |bs| == |before|
    ensures after == bs
  {
    forall j | 0 <= j < |bs| ensures after[j] == bs[j] {
      assert after[0 + j] == bs[j];
    }
  }

  /** `writeString`: the code of character i at offset + i, nothing else. */
  method WriteString(view: array<byte>, offset: int, s: string)
    requires 0 <= offset && offset + |s| <= view.Length
    modifies view
    ensures Spliced(view[..], old(view[..]), offset, Ascii(s))
  {
    for i := 0 to |s|
      invariant forall j :: 0 <= j < view.Length && !(offset <= j < offset + i) ==> view[j] == old(view[j])
      invariant forall j :: 0 <= j < i ==> view[offset + j] == Ascii(s)[j]
    {
      view[offset + i] := (s[i] as int % 256) as byte;
    }
  }

  /** `setUint16(offset, v, true)`. */
  method SetUint16(view: array<byte>, offset: int, v: int)
    requires 0 <= offset && offset + 2 <= view.Length
    modifies view
    ensures Spliced(view[..], old(view[..]), offset, LE16(v))
  {
    var b := LE16(v);
    view[offset] := b[0];
    view[offset + 1] := b[1];
  }

  /** `setUint32(offset, v, true)`. */
  method SetUint32(view: array<byte>, offset: int, v: int)
    requires 0 <= offset && offset + 4 <= view.Length
    modifies view
    ensures Spliced(view[..], old(view[..]), offset, LE32(v))
  {
    var b := LE32(v);
    view[offset] := b[0];
    view[offset + 1] := b[1];
    view[offset + 2] := b[2];
    view[offset + 3] := b[3];
  }

  /** `setInt16(offset, v, true)`: truncated toward zero, then the low 16
      bits. */
  method SetInt16(view: array<byte>, offset: int, v: real)
    requires 0 <= offset && offset + 2 <= view.Length
    modifies view
    ensures Spliced(view[..], old(view[..]), offset, LE16(Trunc(v)))
  {
    SetUint16(view, offset, Trunc(v));
  }

  /** `floatTo16BitPCM`: clamp, scale and write each sample in turn. */
  method FloatTo16BitPCM(output: array<byte>, offset: int, input: seq<real>)
    requires 0 <= offset && offset + 2 * |input| <= output.Length
    modifies output
    ensures Spliced(output[..], old(output[..]), offset, MonoPayload(input))
  {
    var at := offset;
    for i := 0 to |input|
      invariant at == offset + 2 * i
      invariant Spliced(output[..], old(output[..]), offset, MonoPayload(input[..i]))
    {
      ghost var before := output[..];
      var s := ClampUnit(input[i]);
      SetInt16(output, at, if s < 0.0 then s * 32768.0 else s * 32767.0);
      assert input[..i + 1][..i] == input[..i];
      SplicedThen(old(output[..]), before, output[..], offset, MonoPayload(input[..i]), LE16(Pcm16(input[i])));
      at := at + 2;
    }
    assert input[..|input|] == input;
  }

  /** One frame of the interleaving loop: each channel's sample at frame
      `i`, in channel order. */
  method WriteFrame(view: array<byte>, offset: int, channels: seq<seq<real>>, n: int, i: int)
    requires Rect(channels, n) && 0 <= i < n
    requires 0 <= offset && offset + |channels| * 2 <= view.Length
    modifies view
    ensures Spliced(view[..], old(view[..]), offset, FrameBytes(channels, n, i, |channels|))
  {
    var at := offset;
    for chan := 0 to |channels|
      invariant at == offset + chan * 2
      invariant Spliced(view[..], old(view[..]), offset, FrameBytes(channels, n, i, chan))
    {
      ghost var before := view[..];
      var sample := channels[chan][i];
      SetInt16(view, at, if sample < 0.0 then sample * 32768.0 else sample * 32767.0);
      SplicedThen(old(view[..]), before, view[..], offset,
                  FrameBytes(channels, n, i, chan), LE16(Interleaved16(sample)));
      at := at + 2;
    }
  }

  lemma FrameFits(i: int, n: int, c: int)
    requires 0 <= i < n && 0 <= c
    ensures i * c * 2 + c * 2 == (i + 1) * c * 2 <= n * c * 2
  {
    MulMonotone(i + 1, n, c * 2);
  }

  /** The interleaving loop of the multi-channel branch. */
  method WriteInterleaved(view: array<byte>, offset: int, channels: seq<seq<real>>, n: int)
    requires Rect(channels, n) && 0 <= n
    requires 0 <= offset && offset + n * |channels| * 2 <= view.Length
    modifies view
    ensures Spliced(view[..], old(view[..]), offset, InterleavedPayload(channels, n, n))
  {
    var numOfChan := |channels|;
    var at := offset;
    for i := 0 to n
      invariant at == offset + i * numOfChan * 2
      invariant Spliced(view[..], old(view[..]), offset, InterleavedPayload(channels, n, i))
    {
      FrameFits(i, n, numOfChan);
      ghost var before := view[..];
      WriteFrame(view, at, channels, n, i);
      SplicedThen(old(view[..]), before, view[..], offset,
                  InterleavedPayload(channels, n, i), FrameBytes(channels, n, i, numOfChan));
      at := at + numOfChan * 2;
    }
  }

  /** The RIFF chunk header: the tag, the size field and the form type. */
  function RiffChunkHeader(riffSize: int): seq<byte> {
    Ascii(RiffTag) + LE32(riffSize) + Ascii(WaveTag)
  }

  /** The "fmt " chunk of 16-bit integer PCM. */
  function FmtChunk(numChan: int, sampleRate: int): seq<byte> {
    Ascii(FmtTag) + LE32(16) + LE16(1) + LE16(numChan) + LE32(sampleRate) +
    LE32(sampleRate * numChan * 2) + LE16(numChan * 2) + LE16(16)
  }

  /** The "data" chunk header. */
  function DataChunkHeader(dataSize: int): seq<byte> {
    Ascii(DataTag) + LE32(dataSize)
  }

  /** The header is the three chunk headers back to back. */
  lemma HeaderChunks(numChan: int, sampleRate: int, numFrames: int)
    ensures var h := HeaderFor(numChan, sampleRate, numFrames);
      EncodeHeader(h) == RiffChunkHeader(h.riffSize) + FmtChunk(numChan, sampleRate) + DataChunkHeader(h.dataSize)
  {
    var h := HeaderFor(numChan, sampleRate, numFrames);
    var e := EncodeHeader(h);
    HeaderLayout(h);
    assert e[0..12] == e[0..4] + e[4..8] + e[8..12];
    assert e[0..12] == RiffChunkHeader(h.riffSize);
    assert e[12..36] == e[12..16] + e[16..20] + e[20..22] + e[22..24] + e[24..28] + e[28..32] + e[32..34] + e[34..36];
    assert e[12..36] == FmtChunk(numChan, sampleRate);
    assert e[36..44] == e[36..40] + e[40..44];
    assert e[36..44] == DataChunkHeader(h.dataSize);
    assert e == e[0..12] + e[12..36] + e[36..44];
  }

  method WriteRiffChunkHeader(view: array<byte>, offset: int, riffSize: int)
    requires 0 <= offset && offset + 12 <= view.Length
    modifies view
    ensures Spliced(view[..], old(view[..]), offset, RiffChunkHeader(riffSize))
  {
    ghost var v0 := view[..];
    WriteString(view, offset, RiffTag);
    ghost var v1 := view[..];
    SetUint32(view, offset + 4, riffSize);
    SplicedThen(v0, v1, view[..], offset, Ascii(RiffTag), LE32(riffSize));
    ghost var v2 := view[..];
    WriteString(view, offset + 8, WaveTag);
    SplicedThen(v0, v2, view[..], offset, Ascii(RiffTag) + LE32(riffSize), Ascii(WaveTag));
  }

  method WriteFmtChunk(view: array<byte>, offset: int, numOfChan: int, sampleRate: int)
    requires 0 <= offset && offset + 24 <= view.Length
    modifies view
    ensures Spliced(view[..], old(view[..]), offset, FmtChunk(numOfChan, sampleRate))
  {
    ghost var v0 := view[..];
    WriteString(view, offset, FmtTag);
    ghost var w := Ascii(FmtTag);
    ghost var v := view[..];
    SetUint32(view, offset + 4, 16);
    SplicedThen(v0, v, view[..], offset, w, LE32(16));
    w := w + LE32(16);
    v := view[..];
    SetUint16(view, offset + 8, 1);
    SplicedThen(v0, v, view[..], offset, w, LE16(1));
    w := w + LE16(1);
    v := view[..];
    SetUint16(view, offset + 10, numOfChan);
    SplicedThen(v0, v, view[..], offset, w, LE16(numOfChan));
    w := w + LE16(numOfChan);
    v := view[..];
    SetUint32(view, offset + 12, sampleRate);
    SplicedThen(v0, v, view[..], offset, w, LE32(sampleRate));
    w := w + LE32(sampleRate);
    v := view[..];
    SetUint32(view, offset + 16, sampleRate * numOfChan * 2);
    SplicedThen(v0, v, view[..], offset, w, LE32(sampleRate * numOfChan * 2));
    w := w + LE32(sampleRate * numOfChan * 2);
    v := view[..];
    SetUint16(view, offset + 20, numOfChan * 2);
    SplicedThen(v0, v, view[..], offset, w, LE16(numOfChan * 2));
    w := w + LE16(numOfChan * 2);
    v := view[..];
    SetUint16(view, offset + 22, 16);
    SplicedThen(v0, v, view[..], offset, w, LE16(16));
  }

  method WriteDataChunkHeader(view: array<byte>, offset: int, dataSize: int)
    requires 0 <= offset && offset + 8 <= view.Length
    modifies view
    ensures Spliced(view[..], old(view[..]), offset, DataChunkHeader(dataSize))
  {
    ghost var v0 := view[..];
    WriteString(view, offset, DataTag);
    ghost var v1 := view[..];
    SetUint32(view, offset + 4, dataSize);
    SplicedThen(v0, v1, view[..], offset, Ascii(DataTag), LE32(dataSize));
  }

  /** `audioBufferToWavBlob`: the header fields in order, then the payload;
      the bytes written are exactly `WavBytes`. */
  method AudioBufferToWavBlob(channels: seq<seq<real>>, sampleRate: int) returns (view: array<byte>)
    requires ValidChannels(channels)
    ensures fresh(view)
    ensures view[..] == WavBytes(channels, sampleRate)
  {
    var numOfChan := |channels|;
    var n := |channels[0]|;
    var length := n * numOfChan * 2 + 44;
    view := new byte[length];
    ghost var h := HeaderFor(numOfChan, sampleRate, n);
    HeaderChunks(numOfChan, sampleRate, n);
    ghost var v0 := view[..];
    var offset := 0;
    WriteRiffChunkHeader(view, offset, length - 8);
    offset := offset + 12;
    ghost var v := view[..];
    WriteFmtChunk(view, offset, numOfChan, sampleRate);
    SplicedThen(v0, v, view[..], 0, RiffChunkHeader(length - 8), FmtChunk(numOfChan, sampleRate));
    offset := offset + 24;
    v := view[..];
    WriteDataChunkHeader(view, offset, n * numOfChan * 2);
    SplicedThen(v0, v, view[..], 0, RiffChunkHeader(length - 8) + FmtChunk(numOfChan, sampleRate),
                DataChunkHeader(n * numOfChan * 2));
    offset := offset + 8;
    assert EncodeHeader(h) == RiffChunkHeader(length - 8) + FmtChunk(numOfChan, sampleRate) + DataChunkHeader(n * numOfChan * 2);
    v := view[..];
    ghost var payload := if numOfChan == 1 then MonoPayload(channels[0]) else InterleavedPayload(channels, n, n);
    if numOfChan == 1 {
      FloatTo16BitPCM(view, offset, channels[0]);
    } else {
      WriteInterleaved(view, offset, channels, n);
    }
    SplicedThen(v0, v, view[..], 0, EncodeHeader(h), payload);
    SplicedWhole(view[..], v0, EncodeHeader(h) + payload);
  }
}
