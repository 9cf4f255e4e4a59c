/** The offline renderer behind export: a mono buffer of
    floor(sampleRate * duration) frames, each the sum of the contributing
    partials, shaped by a 5 ms fade at both ends, scaled by the master
    volume, then peak-normalised to 0.98. The value of the sinusoid of
    harmonic `id` at frame `i`, sin(2 pi f0 id i / sampleRate), is the
    parameter `wave(id, i)`; arithmetic is exact. */
module Render {
  import opened Types
  import opened HarmonicList
  import opened Resolver

  /** Peak level above which the buffer is scaled down. */
  const Headroom: real := 0.98

  /** `Math.floor(sampleRate * duration)`. */
  function NumFrames(sampleRate: int, duration: real): (n: int)
    ensures n as real <= sampleRate as real * duration < n as real + 1.0
  {
    (sampleRate as real * duration).Floor
  }

  /** `Math.floor(sampleRate * 0.005)`: the length of each 5 ms fade. */
  function FadeSamples(sampleRate: int): (n: int)
    ensures n as real <= sampleRate as real * 0.005 < n as real + 1.0
  {
    (sampleRate as real * 0.005).Floor
  }

  /** Fades are applied only when the buffer is longer than 10 ms. */
  predicate FadesApply(duration: real) {
    duration * 1000.0 > 10.0
  }

  datatype Region = FadeIn | FadeOut | Flat

  /** Which part of the envelope frame `i` falls in; fade-in wins where the
      two fades would overlap. */
  function RegionOf(i: int, numFrames: int, fadeSamples: int, fades: bool): Region {
    if fades && i < fadeSamples then FadeIn
    else if fades && i >= numFrames - fadeSamples then FadeOut
    else Flat
  }

  /** The fade envelope at frame `i`: a ramp 0 -> 1 over the first
      `fadeSamples` frames, a ramp down to 0 over the last ones, 1 between. */
  function Envelope(i: int, numFrames: int, fadeSamples: int, fades: bool): (e: real)
    requires 0 <= i < numFrames
    ensures 0.0 <= e <= 1.0
    ensures RegionOf(i, numFrames, fadeSamples, fades) == Flat <==> e == 1.0
    ensures RegionOf(i, numFrames, fadeSamples, fades) == FadeIn ==>
              e == (i as real) / (fadeSamples as real)
    ensures RegionOf(i, numFrames, fadeSamples, fades) == FadeOut ==>
              e == ((numFrames - 1 - i) as real) / (fadeSamples as real)
  {
    if fades && i < fadeSamples then
      RatioBelowOne(i, fadeSamples);
      (i as real) / (fadeSamples as real)
    else if fades && i >= numFrames - fadeSamples then
      RatioBelowOne(numFrames - 1 - i, fadeSamples);
      ((numFrames - 1 - i) as real) / (fadeSamples as real)
    else 1.0
  }

  lemma RatioBelowOne(a: int, d: int)
    requires 0 <= a < d
    ensures 0.0 <= (a as real) / (d as real) < 1.0
  {
    assert (a as real) / (d as real) * (d as real) == a as real;
  }

  /** Without fades the envelope is flat; with fades, the first and the last
      frame are silent and the ramps are strictly monotone. */
  lemma EnvelopeShape(n: int, fs: int, fades: bool)
    requires n >= 1
    ensures !fades ==> forall i :: 0 <= i < n ==> Envelope(i, n, fs, fades) == 1.0
    ensures fades && fs > 0 ==> Envelope(0, n, fs, fades) == 0.0
    ensures fades && 0 < fs <= n - 1 ==> Envelope(n - 1, n, fs, fades) == 0.0
    ensures forall i, j :: 0 <= i < j < n && RegionOf(j, n, fs, fades) == FadeIn ==>
              Envelope(i, n, fs, fades) < Envelope(j, n, fs, fades)
    ensures forall i, j :: 0 <= i < j < n && RegionOf(i, n, fs, fades) == FadeOut ==>
              Envelope(i, n, fs, fades) > Envelope(j, n, fs, fades)
  {
    forall i, j | 0 <= i < j < n && RegionOf(j, n, fs, fades) == FadeIn
      ensures Envelope(i, n, fs, fades) < Envelope(j, n, fs, fades)
    {
      DivideMonotone(i as real, j as real, fs as real);
    }
    forall i, j | 0 <= i < j < n && RegionOf(i, n, fs, fades) == FadeOut
      ensures Envelope(i, n, fs, fades) > Envelope(j, n, fs, fades)
    {
      assert RegionOf(j, n, fs, fades) == FadeOut;
      DivideMonotone((n - 1 - j) as real, (n - 1 - i) as real, fs as real);
    }
  }

  lemma DivideMonotone(a: real, b: real, d: real)
    requires a < b && d > 0.0
    ensures a / d < b / d
  {
    assert b / d - a / d == (b - a) / d;
  }

  /** The contributing set as the renderer selects it: when any harmonic is
      soloed, only the soloed, unmuted ones; otherwise the unmuted ones. */
  function ContributingAsWritten(hs: seq<Harmonic>): (r: seq<Harmonic>)
    ensures (exists i :: 0 <= i < |hs| && hs[i].isSoloed) ==>
              forall x :: x in r <==> x in hs && x.isSoloed && !x.isMuted
    ensures (forall i :: 0 <= i < |hs| ==> !hs[i].isSoloed) ==>
              forall x :: x in r <==> x in hs && !x.isMuted
  {
    var anySolo := exists i :: 0 <= i < |hs| && hs[i].isSoloed;
    if anySolo then Select(hs, true) else Select(hs, false)
  }

  /** The corrected selection: solo counts only when a soloed harmonic is
      unmuted and positive, as in the resolver. */
  function Contributing(hs: seq<Harmonic>): (r: seq<Harmonic>)
    ensures HasSoloActive(hs) ==> forall x :: x in r <==> x in hs && x.isSoloed && !x.isMuted
    ensures !HasSoloActive(hs) ==> forall x :: x in r <==> x in hs && !x.isMuted
  {
    Select(hs, HasSoloActive(hs))
  }

  /** The unmuted harmonics, and only the soloed ones when `solo` holds. */
  function Select(hs: seq<Harmonic>, solo: bool): (r: seq<Harmonic>)
    ensures forall x :: x in r <==> x in hs && !x.isMuted && (solo ==> x.isSoloed)
  {
    if |hs| == 0 then []
    else if !hs[0].isMuted && (solo ==> hs[0].isSoloed) then [hs[0]] + Select(hs[1..], solo)
    else Select(hs[1..], solo)
  }

  /** The summed partials at frame `i`; non-positive amplitudes add nothing. */
  function Mix(cs: seq<Harmonic>, i: int, wave: (int, int) -> real): real {
    if |cs| == 0 then 0.0
    else (if cs[0].amplitude > 0.0 then cs[0].amplitude * wave(cs[0].id, i) else 0.0)
         + Mix(cs[1..], i, wave)
  }

  /** Every harmonic of `todo` weighted by its resolved gain within `ctx`. */
  function ResolvedMix(todo: seq<Harmonic>, ctx: seq<Harmonic>, i: int, wave: (int, int) -> real): real {
    if |todo| == 0 then 0.0
    else TargetGain(todo[0], ctx) * wave(todo[0].id, i) + ResolvedMix(todo[1..], ctx, i, wave)
  }

  lemma {:induction false} SelectMixIsResolved(todo: seq<Harmonic>, ctx: seq<Harmonic>, i: int, wave: (int, int) -> real)
    requires forall k :: 0 <= k < |todo| ==> todo[k].amplitude >= 0.0
    ensures Mix(Select(todo, HasSoloActive(ctx)), i, wave) == ResolvedMix(todo, ctx, i, wave)
  {
    if |todo| > 0 {
      SelectMixIsResolved(todo[1..], ctx, i, wave);
    }
  }

  /** With the corrected selection, each frame's mix is the sum of every
      harmonic's resolved gain times its partial: the renderer and the live
      graph agree on who is heard and how loud. */
  lemma MixMatchesResolver(hs: seq<Harmonic>, i: int, wave: (int, int) -> real)
    requires forall k :: 0 <= k < |hs| ==> hs[k].amplitude >= 0.0
    ensures Mix(Contributing(hs), i, wave) == ResolvedMix(hs, hs, i, wave)
  {
    SelectMixIsResolved(hs, hs, i, wave);
  }

  /** A harmonic of the set adds to the corrected mix exactly when the
      resolver gives it a positive gain. */
  lemma ContributesIffAudible(hs: seq<Harmonic>, h: Harmonic)
    requires h in hs
    ensures (h in Contributing(hs) && h.amplitude > 0.0) <==> TargetGain(h, hs) > 0.0
  {
  }

  /** No contributing harmonic with positive amplitude: every frame is 0. */
  lemma {:induction false} MixOfSilent(cs: seq<Harmonic>, i: int, wave: (int, int) -> real)
    requires forall k :: 0 <= k < |cs| ==> cs[k].amplitude <= 0.0
    ensures Mix(cs, i, wave) == 0.0
  {
    if |cs| > 0 {
      MixOfSilent(cs[1..], i, wave);
    }
  }

  /** The frame loop over an already selected list `cs`: each frame is the
      mix times the envelope times the master volume. */
  function Frames(cs: seq<Harmonic>, settings: AudioSettings, sampleRate: int, wave: (int, int) -> real)
    : (s: seq<real>)
    ensures |s| == if NumFrames(sampleRate, settings.duration) < 0 then 0 else NumFrames(sampleRate, settings.duration)
  {
    var n := NumFrames(sampleRate, settings.duration);
    var fs := FadeSamples(sampleRate);
    seq(if n < 0 then 0 else n, i requires 0 <= i < n =>
      Mix(cs, i, wave) * Envelope(i, n, fs, FadesApply(settings.duration)) * settings.masterVolume)
  }

  /** The buffer before normalisation, as the renderer computes it: the
      frames of its own selection. */
  function RawSamples(hs: seq<Harmonic>, settings: AudioSettings, sampleRate: int, wave: (int, int) -> real)
    : (s: seq<real>)
    ensures |s| == if NumFrames(sampleRate, settings.duration) < 0 then 0 else NumFrames(sampleRate, settings.duration)
  {
    Frames(ContributingAsWritten(hs), settings, sampleRate, wave)
  }

  /** The buffer before normalisation with the corrected selection. */
  function CorrectedRawSamples(hs: seq<Harmonic>, settings: AudioSettings, sampleRate: int, wave: (int, int) -> real)
    : (s: seq<real>)
    ensures |s| == if NumFrames(sampleRate, settings.duration) < 0 then 0 else NumFrames(sampleRate, settings.duration)
  {
    Frames(Contributing(hs), settings, sampleRate, wave)
  }

  /** The two selections, and so the two renders, differ only when some
      soloed harmonic is muted or silent while no audible one is soloed. */
  lemma RenderAgreesWithoutInaudibleSolo(hs: seq<Harmonic>, settings: AudioSettings, sampleRate: int, wave: (int, int) -> real)
    requires (exists i :: 0 <= i < |hs| && hs[i].isSoloed) <==> HasSoloActive(hs)
    ensures ContributingAsWritten(hs) == Contributing(hs)
    ensures RawSamples(hs, settings, sampleRate, wave) == CorrectedRawSamples(hs, settings, sampleRate, wave)
  {
  }

  /** With the corrected selection each rendered frame is the resolved live
      mix, weighted by the envelope and the master volume. */
  lemma CorrectedRenderIsResolved(hs: seq<Harmonic>, settings: AudioSettings, sampleRate: int, wave: (int, int) -> real)
    requires forall k :: 0 <= k < |hs| ==> hs[k].amplitude >= 0.0
    ensures var s := CorrectedRawSamples(hs, settings, sampleRate, wave);
      forall i :: 0 <= i < |s| ==>
        s[i] == ResolvedMix(hs, hs, i, wave) *
                Envelope(i, NumFrames(sampleRate, settings.duration), FadeSamples(sampleRate), FadesApply(settings.duration)) *
                settings.masterVolume
  {
    var s := CorrectedRawSamples(hs, settings, sampleRate, wave);
    forall i | 0 <= i < |s|
      ensures Mix(Contributing(hs), i, wave) == ResolvedMix(hs, hs, i, wave)
    {
      MixMatchesResolver(hs, i, wave);
    }
  }

  function Abs(x: real): (r: real)
    ensures r >= 0.0 && (r == x || r == -x)
  {
    if x < 0.0 then -x else x
  }

  function Max(a: real, b: real): (m: real)
    ensures m >= a && m >= b && (m == a || m == b)
  {
    if a < b then b else a
  }

  /** The largest absolute sample, 0 for an empty buffer; the running
      maximum the renderer's peak scan keeps. */
  function Peak(s: seq<real>): (p: real)
    ensures p >= 0.0
  {
    if |s| == 0 then 0.0 else Max(Peak(s[..|s| - 1]), Abs(s[|s| - 1]))
  }

  /** The peak bounds every sample and is attained by one (or is 0). */
  lemma {:induction false} PeakBounds(s: seq<real>)
    ensures forall i :: 0 <= i < |s| ==> Abs(s[i]) <= Peak(s)
    ensures Peak(s) == 0.0 || exists i :: 0 <= i < |s| && Abs(s[i]) == Peak(s)
  {
    if |s| > 0 {
      var init := s[..|s| - 1];
      PeakBounds(init);
      assert forall i :: 0 <= i < |init| ==> init[i] == s[i];
    }
  }

  /** A buffer of zeros has peak 0. */
  lemma PeakOfSilence(s: seq<real>)
    requires forall i :: 0 <= i < |s| ==> s[i] == 0.0
    ensures Peak(s) == 0.0
  {
    PeakBounds(s);
  }

  function Scale(s: seq<real>, g: real): (r: seq<real>)
    ensures |r| == |s|
  {
    seq(|s|, i requires 0 <= i < |s| => s[i] * g)
  }

  /** Peak normalisation: scale down to the headroom level if louder. */
  function Normalize(s: seq<real>): (r: seq<real>)
    ensures |r| == |s|
  {
    NormalizeBy(s, Peak(s))
  }

  /** Normalisation of a buffer whose peak level is `p`. */
  function NormalizeBy(s: seq<real>, p: real): (r: seq<real>)
    ensures |r| == |s|
  {
    if p > Headroom then Scale(s, Headroom / p) else s
  }

  /** The peak is the only level that bounds every sample and is attained
      (or is 0). */
  lemma PeakUnique(s: seq<real>, m: real)
    requires m >= 0.0
    requires forall i :: 0 <= i < |s| ==> Abs(s[i]) <= m
    requires m == 0.0 || exists i :: 0 <= i < |s| && Abs(s[i]) == m
    ensures Peak(s) == m
  {
    PeakBounds(s);
  }

  /** The same, with the sample at the level given. */
  lemma PeakAt(s: seq<real>, m: real, k: int)
    requires forall i :: 0 <= i < |s| ==> Abs(s[i]) <= m
    requires 0 <= k < |s| && Abs(s[k]) == m
    ensures Peak(s) == m
  {
    PeakUnique(s, m);
  }

  lemma AbsScale(x: real, g: real)
    requires g >= 0.0
    ensures Abs(x * g) == Abs(x) * g
  {
    if x < 0.0 {
      assert x * g <= 0.0;
      assert -(x * g) == (-x) * g;
    } else {
      assert x * g >= 0.0;
    }
  }

  lemma ScaledSample(x: real, p: real, g: real)
    requires Abs(x) <= p && g >= 0.0
    ensures Abs(x * g) <= p * g && p * g >= 0.0
  {
    AbsScale(x, g);
    assert p * g - Abs(x) * g == (p - Abs(x)) * g;
  }

  lemma ScaledPeakSample(x: real, p: real, g: real)
    requires Abs(x) == p && g >= 0.0
    ensures Abs(x * g) == p * g
  {
    AbsScale(x, g);
  }

  /** Scaling samples bounded by `p` gives samples bounded by `p * g`. */
  lemma ScaleBounded(s: seq<real>, g: real, p: real)
    requires g >= 0.0 && p >= 0.0
    requires forall i :: 0 <= i < |s| ==> Abs(s[i]) <= p
    ensures forall i :: 0 <= i < |s| ==> Abs(Scale(s, g)[i]) <= p * g
  {
    forall i | 0 <= i < |s| ensures Abs(Scale(s, g)[i]) <= p * g {
      ScaledSample(s[i], p, g);
    }
  }

  /** A sample at the peak level, when the peak is positive. */
  lemma PeakWitness(s: seq<real>) returns (k: int)
    requires Peak(s) > 0.0
    ensures 0 <= k < |s| && Abs(s[k]) == Peak(s)
  {
    PeakBounds(s);
    k :| 0 <= k < |s| && Abs(s[k]) == Peak(s);
  }

  lemma MulOfQuotient(a: real, p: real)
    requires p != 0.0
    ensures p * (a / p) == a
  {
  }

  lemma QuotientNonNegative(a: real, p: real)
    requires a >= 0.0 && p > 0.0
    ensures a / p >= 0.0
  {
  }

  /** Normalisation leaves a buffer within the headroom alone; a louder one
      ends with every sample within the headroom and the samples that were
      at the peak at exactly 0.98. */
  lemma NormalizeBound(s: seq<real>)
    ensures Peak(s) <= Headroom ==> Normalize(s) == s
    ensures Peak(s) > Headroom ==> forall i :: 0 <= i < |s| ==> Abs(Normalize(s)[i]) <= Headroom
    ensures Peak(s) > Headroom ==>
              forall i :: 0 <= i < |s| && Abs(s[i]) == Peak(s) ==> Abs(Normalize(s)[i]) == Headroom
  {
    PeakBounds(s);
    NormalizeByBound(s, Peak(s));
  }

  lemma NormalizeByBound(s: seq<real>, p: real)
    requires p >= 0.0
    requires forall i :: 0 <= i < |s| ==> Abs(s[i]) <= p
    ensures p <= Headroom ==> NormalizeBy(s, p) == s
    ensures p > Headroom ==> forall i :: 0 <= i < |s| ==> Abs(NormalizeBy(s, p)[i]) <= Headroom
    ensures p > Headroom ==>
              forall i :: 0 <= i < |s| && Abs(s[i]) == p ==> Abs(NormalizeBy(s, p)[i]) == Headroom
  {
    if p > Headroom {
      var g := Headroom / p;
      QuotientNonNegative(Headroom, p);
      MulOfQuotient(Headroom, p);
      var t := NormalizeBy(s, p);
      assert t == Scale(s, g);
      LoudWithinHeadroom(s, g, t, p);
      LoudPeakAtHeadroom(s, g, t, p);
    }
  }

  lemma LoudWithinHeadroom(s: seq<real>, g: real, t: seq<real>, p: real)
    requires g >= 0.0 && p >= 0.0 && p * g == Headroom && t == Scale(s, g)
    requires forall i :: 0 <= i < |s| ==> Abs(s[i]) <= p
    ensures forall i :: 0 <= i < |t| ==> Abs(t[i]) <= Headroom
  {
    ScaleBounded(s, g, p);
  }

  lemma LoudPeakAtHeadroom(s: seq<real>, g: real, t: seq<real>, p: real)
    requires g >= 0.0 && p * g == Headroom && t == Scale(s, g)
    ensures forall i :: 0 <= i < |s| && Abs(s[i]) == p ==> Abs(t[i]) == Headroom
  {
    forall i | 0 <= i < |s| && Abs(s[i]) == p
      ensures Abs(t[i]) == Headroom
    {
      ScaledPeakSample(s[i], p, g);
      assert t[i] == s[i] * g;
    }
  }

  /** A buffer louder than the headroom comes out with its peak at 0.98. */
  lemma NormalizedPeak(s: seq<real>)
    requires Peak(s) > Headroom
    ensures Peak(Normalize(s)) == Headroom
  {
    NormalizeBound(s);
    var k := PeakWitness(s);
    PeakAt(Normalize(s), Headroom, k);
  }

  /** A selection with no positive amplitude renders silence of the full
      length. */
  lemma SilentFrames(cs: seq<Harmonic>, settings: AudioSettings, sampleRate: int, wave: (int, int) -> real)
    requires forall k :: 0 <= k < |cs| ==> cs[k].amplitude <= 0.0
    ensures var out := Normalize(Frames(cs, settings, sampleRate, wave));
      forall i :: 0 <= i < |out| ==> out[i] == 0.0
  {
    var raw := Frames(cs, settings, sampleRate, wave);
    forall i | 0 <= i < |raw| ensures raw[i] == 0.0 {
      MixOfSilent(cs, i, wave);
    }
    PeakOfSilence(raw);
  }

  /** When the renderer's selection holds nothing audible, the rendered
      buffer is silent. */
  lemma SilentRender(hs: seq<Harmonic>, settings: AudioSettings, sampleRate: int, wave: (int, int) -> real)
    requires forall k :: 0 <= k < |ContributingAsWritten(hs)| ==> ContributingAsWritten(hs)[k].amplitude <= 0.0
    ensures var out := Normalize(RawSamples(hs, settings, sampleRate, wave));
      forall i :: 0 <= i < |out| ==> out[i] == 0.0
  {
    SilentFrames(ContributingAsWritten(hs), settings, sampleRate, wave);
  }

  /** With fades applied, the first frame is silent (before and after
      normalisation). */
  lemma FirstFrameSilent(hs: seq<Harmonic>, settings: AudioSettings, sampleRate: int, wave: (int, int) -> real)
    requires NumFrames(sampleRate, settings.duration) >= 1
    requires FadesApply(settings.duration) && FadeSamples(sampleRate) > 0
    ensures Normalize(RawSamples(hs, settings, sampleRate, wave))[0] == 0.0
  {
    var raw := RawSamples(hs, settings, sampleRate, wave);
    assert Envelope(0, NumFrames(sampleRate, settings.duration), FadeSamples(sampleRate), true) == 0.0;
    assert raw[0] == 0.0;
  }

  datatype RenderResult = InvalidLength | Rendered(samples: seq<real>)

  /** The peak scan over the filled buffer. */
  method FindPeak(a: array<real>) returns (max: real)
    ensures max == Peak(a[..])
  {
    max := 0.0;
    for i := 0 to a.Length
      invariant max == Peak(a[..i])
    {
      assert a[..i + 1][..i] == a[..i];
      if Abs(a[i]) > max {
        max := Abs(a[i]);
      }
    }
    assert a[..a.Length] == a[..];
  }

  /** Multiplies every sample by `gain` in place. */
  method ScaleInPlace(a: array<real>, gain: real)
    modifies a
    ensures a[..] == Scale(old(a[..]), gain)
  {
    for i := 0 to a.Length
      invariant forall j :: 0 <= j < i ==> a[j] == old(a[j]) * gain
      invariant forall j :: i <= j < a.Length ==> a[j] == old(a[j])
    {
      a[i] := a[i] * gain;
    }
    assert forall j :: 0 <= j < a.Length ==> a[..][j] == Scale(old(a[..]), gain)[j];
  }

  /** Writes every frame of a fresh buffer of `numFrames` samples from the
      selected harmonics `contributing`. */
  method FillFrames(contributing: seq<Harmonic>, settings: AudioSettings, sampleRate: int, wave: (int, int) -> real,
                    numFrames: int)
    returns (channelData: array<real>)
    requires numFrames == NumFrames(sampleRate, settings.duration) && numFrames >= 1
    ensures fresh(channelData)
    ensures channelData[..] == Frames(contributing, settings, sampleRate, wave)
  {
    channelData := new real[numFrames];
    var fadeSamples := FadeSamples(sampleRate);
    var fades := FadesApply(settings.duration);
    ghost var raw := Frames(contributing, settings, sampleRate, wave);
    for i := 0 to numFrames
      invariant forall j :: 0 <= j < i ==> channelData[j] == raw[j]
    {
      var sampleValue := Mix(contributing, i, wave);
      var envelope := Envelope(i, numFrames, fadeSamples, fades);
      channelData[i] := sampleValue * envelope * settings.masterVolume;
    }
    assert forall j :: 0 <= j < numFrames ==> channelData[..][j] == raw[j];
  }

  /** `synthesizeSound`: a zero-length buffer cannot be created; otherwise
      the harmonics are selected by the renderer's own solo test, every
      frame is written once, then the peak is found and the buffer scaled
      down if it exceeds the headroom. */
  method SynthesizeSound(hs: seq<Harmonic>, settings: AudioSettings, sampleRate: int, wave: (int, int) -> real)
    returns (r: RenderResult)
    requires sampleRate > 0
    ensures r.InvalidLength? <==> NumFrames(sampleRate, settings.duration) < 1
    ensures r.Rendered? ==> |r.samples| == NumFrames(sampleRate, settings.duration)
    ensures r.Rendered? ==> r.samples == Normalize(RawSamples(hs, settings, sampleRate, wave))
  {
    var numFrames := NumFrames(sampleRate, settings.duration);
    if numFrames < 1 {
      return InvalidLength;
    }
    var contributing := ContributingAsWritten(hs);
    var channelData := FillFrames(contributing, settings, sampleRate, wave, numFrames);
    var max := FindPeak(channelData);
    if max > Headroom {
      ScaleInPlace(channelData, Headroom / max);
    }
    return Rendered(channelData[..]);
  }

  /** A set the export check lets through, whose only soloed harmonic is
      muted: the renderer as written drops the audible harmonic 1 and
      renders silence, which the corrected selection does not. */
  lemma MutedSoloSilencesRender(settings: AudioSettings, sampleRate: int, i: int, wave: (int, int) -> real)
    ensures var hs := [Harmonic(1, 1.0, false, false, false), Harmonic(2, 0.5, false, true, true)];
      var out := Normalize(RawSamples(hs, settings, sampleRate, wave));
      ExportDecision(true, false, hs) == Synthesize &&
      ContributingAsWritten(hs) == [] && (forall j :: 0 <= j < |out| ==> out[j] == 0.0) &&
      Contributing(hs) == [hs[0]] && Mix(Contributing(hs), i, wave) == wave(1, i)
  {
    var hs := [Harmonic(1, 1.0, false, false, false), Harmonic(2, 0.5, false, true, true)];
    assert !Inaudible(hs[0], hs);
    assert !HasSoloActive(hs);
    assert hs[1..] == [hs[1]];
    assert Select(hs, false) == [hs[0]] + Select([hs[1]], false);
    assert Select(hs, true) == Select([hs[1]], true);
    SilentRender(hs, settings, sampleRate, wave);
  }

  /** A set the export check lets through, whose only soloed harmonic has
      amplitude 0: the renderer as written keeps only that silent harmonic. */
  lemma SilentSoloSilencesRender(settings: AudioSettings, sampleRate: int, i: int, wave: (int, int) -> real)
    ensures var hs := [Harmonic(1, 0.5, false, false, false), Harmonic(2, 0.0, false, false, true)];
      var out := Normalize(RawSamples(hs, settings, sampleRate, wave));
      ExportDecision(true, false, hs) == Synthesize &&
      ContributingAsWritten(hs) == [hs[1]] && (forall j :: 0 <= j < |out| ==> out[j] == 0.0) &&
      Mix(Contributing(hs), i, wave) == 0.5 * wave(1, i)
  {
    var hs := [Harmonic(1, 0.5, false, false, false), Harmonic(2, 0.0, false, false, true)];
    assert !Inaudible(hs[0], hs);
    assert !HasSoloActive(hs);
    assert hs[1..] == [hs[1]];
    assert Select(hs, true) == Select([hs[1]], true);
    assert Select([hs[1]], true) == [hs[1]] + Select([], true);
    assert Select(hs, false) == [hs[0]] + Select([hs[1]], false);
    assert Select([hs[1]], false) == [hs[1]] + Select([], false);
    var cs := Contributing(hs);
    assert cs == [hs[0], hs[1]] && cs[1..] == [hs[1]];
    MixOfSilent([hs[1]], i, wave);
    SilentRender(hs, settings, sampleRate, wave);
  }

}
