/** Mute/solo resolution of a harmonic's audible gain, and the refusal rules
    of the export button, which replay the same resolution. */
module Resolver {
  import opened Types
  import opened HarmonicList

  /** Some harmonic is soloed, unmuted and has positive amplitude. */
  predicate HasSoloActive(hs: seq<Harmonic>) {
    exists i :: 0 <= i < |hs| && hs[i].amplitude > 0.0 && hs[i].isSoloed && !hs[i].isMuted
  }

  /** The gain target the live graph ramps a harmonic towards, given the
      whole active set. */
  function TargetGain(h: Harmonic, hs: seq<Harmonic>): (r: real)
    ensures h.isMuted ==> r == 0.0
    ensures !h.isMuted && HasSoloActive(hs) && !h.isSoloed ==> r == 0.0
    ensures !h.isMuted && (HasSoloActive(hs) ==> h.isSoloed) ==> r == h.amplitude
  {
    if h.isMuted then 0.0
    else if HasSoloActive(hs) && !h.isSoloed then 0.0
    else h.amplitude
  }

  /** Without any soloed harmonic, muting is the only thing that silences. */
  lemma NoSoloResolvesToUnmuted(h: Harmonic, hs: seq<Harmonic>)
    requires forall i :: 0 <= i < |hs| ==> !hs[i].isSoloed
    ensures TargetGain(h, hs) == if h.isMuted then 0.0 else h.amplitude
  {
  }

  /** With an audible soloed harmonic, every non-soloed one is silenced and
      every soloed, unmuted one keeps its amplitude. */
  lemma SoloSuppressesOthers(hs: seq<Harmonic>, k: nat)
    requires k < |hs| && hs[k].amplitude > 0.0 && hs[k].isSoloed && !hs[k].isMuted
    ensures forall i :: 0 <= i < |hs| && !hs[i].isSoloed ==> TargetGain(hs[i], hs) == 0.0
    ensures forall i :: 0 <= i < |hs| && hs[i].isSoloed && !hs[i].isMuted ==>
              TargetGain(hs[i], hs) == hs[i].amplitude
  {
    assert HasSoloActive(hs);
  }

  /** Soloed harmonics that are muted or silent do not switch solo on. */
  lemma MutedSoloDoesNotCount(hs: seq<Harmonic>)
    requires forall i :: 0 <= i < |hs| && hs[i].isSoloed ==> hs[i].isMuted || hs[i].amplitude <= 0.0
    ensures !HasSoloActive(hs)
  {
  }

  /** The resolved gain never exceeds the configured amplitude. */
  lemma TargetGainBounds(h: Harmonic, hs: seq<Harmonic>)
    requires ValidHarmonic(h)
    ensures 0.0 <= TargetGain(h, hs) <= h.amplitude
    ensures ValidAmplitude(TargetGain(h, hs))
  {
  }

  /** The per-harmonic test of the export check: muted, silenced by solo,
      or at amplitude zero. */
  predicate Inaudible(h: Harmonic, hs: seq<Harmonic>) {
    if h.isMuted then true
    else if HasSoloActive(hs) && !h.isSoloed then true
    else h.amplitude == 0.0
  }

  lemma InaudibleIsZeroGain(h: Harmonic, hs: seq<Harmonic>)
    ensures Inaudible(h, hs) <==> TargetGain(h, hs) == 0.0
  {
  }

  datatype ExportOutcome = NoAudioContext | RefusedWhilePlaying | NoAudibleSound | Synthesize

  /** What the export button does before any rendering happens. */
  function ExportDecision(hasContext: bool, isPlaying: bool, hs: seq<Harmonic>): (r: ExportOutcome)
    ensures !hasContext ==> r == NoAudioContext
    ensures hasContext && isPlaying ==> r == RefusedWhilePlaying
    ensures hasContext && !isPlaying && |hs| == 0 ==> r == NoAudibleSound
  {
    if !hasContext then NoAudioContext
    else if isPlaying then RefusedWhilePlaying
    else if |hs| == 0 || forall i :: 0 <= i < |hs| ==> Inaudible(hs[i], hs) then NoAudibleSound
    else Synthesize
  }

  /** Export renders exactly when playback is stopped and some harmonic of
      the set resolves to a positive gain. */
  lemma ExportRendersIffAudible(isPlaying: bool, hs: seq<Harmonic>)
    requires forall i :: 0 <= i < |hs| ==> hs[i].amplitude >= 0.0
    ensures ExportDecision(true, isPlaying, hs) == Synthesize <==>
              !isPlaying && exists i :: 0 <= i < |hs| && TargetGain(hs[i], hs) > 0.0
  {
    if !isPlaying {
      if exists i :: 0 <= i < |hs| && TargetGain(hs[i], hs) > 0.0 {
        var i :| 0 <= i < |hs| && TargetGain(hs[i], hs) > 0.0;
        InaudibleIsZeroGain(hs[i], hs);
      } else {
        forall i | 0 <= i < |hs| ensures Inaudible(hs[i], hs) {
          InaudibleIsZeroGain(hs[i], hs);
        }
      }
    }
  }
}
