/** The editor's updates of the active harmonic set: each handler maps the
    previous list to the next one, as a React state updater does. */
module Editor {
  import opened Types
  import opened HarmonicList

  /** The set the application starts with: harmonic 1 at full amplitude. */
  function InitialHarmonics(): (r: seq<Harmonic>)
    ensures ValidSet(r) && |r| == 1 && r[0].id == 1 && r[0].amplitude == 1.0
  {
    [Harmonic(1, 1.0, false, false, false)]
  }

  /** Every entry with the given id gets amplitude `a`; nothing else moves. */
  function SetAmplitude(hs: seq<Harmonic>, id: int, a: real): (r: seq<Harmonic>)
    ensures |r| == |hs|
    ensures forall i :: 0 <= i < |hs| ==>
              r[i] == if hs[i].id == id then hs[i].(amplitude := a) else hs[i]
  {
    seq(|hs|, i requires 0 <= i < |hs| => if hs[i].id == id then hs[i].(amplitude := a) else hs[i])
  }

  /** A new, unlocked, unmuted, unsoloed harmonic. */
  function Fresh(id: int, amplitude: real): Harmonic {
    Harmonic(id, amplitude, false, false, false)
  }

  /** The amplitude write of a drag, a numeric field or a graph bar. */
  function AmplitudeChange(prev: seq<Harmonic>, id: int, newAmplitude: real): (r: seq<Harmonic>)
    ensures FindId(prev, id).Some? && prev[FindId(prev, id).value].isLocked ==> r == prev
    ensures !HasId(prev, id) && Clamp01(newAmplitude) <= ActivationThreshold ==> r == prev
  {
    var clamped := Clamp01(newAmplitude);
    match FindId(prev, id)
    case Some(k) =>
      if prev[k].isLocked then prev else SetAmplitude(prev, id, clamped)
    case None =>
      if clamped > ActivationThreshold then SortById(prev + [Fresh(id, clamped)]) else prev
  }

  /** Writing to an unlocked present harmonic changes only its amplitude,
      to the clamped value; length and every other entry stay. */
  lemma AmplitudeChangeExisting(prev: seq<Harmonic>, id: int, x: real)
    requires HasId(prev, id) && !prev[FindId(prev, id).value].isLocked
    ensures var r := AmplitudeChange(prev, id, x);
      |r| == |prev| &&
      (forall i :: 0 <= i < |prev| && prev[i].id != id ==> r[i] == prev[i]) &&
      (forall i :: 0 <= i < |prev| && prev[i].id == id ==>
         r[i].amplitude == Clamp01(x) && ValidAmplitude(r[i].amplitude) &&
         r[i].id == id && r[i].isLocked == prev[i].isLocked &&
         r[i].isMuted == prev[i].isMuted && r[i].isSoloed == prev[i].isSoloed)
  {
  }

  /** Writing above the activation threshold to an absent id inserts exactly
      one fresh harmonic in id order, keeping the set's invariant. */
  lemma AmplitudeChangeActivates(prev: seq<Harmonic>, id: int, x: real)
    requires ValidSet(prev) && ValidId(id) && !HasId(prev, id)
    requires Clamp01(x) > ActivationThreshold
    ensures var r := AmplitudeChange(prev, id, x);
      ValidSet(r) && |r| == |prev| + 1 &&
      multiset(r) == multiset(prev) + multiset{Fresh(id, Clamp01(x))} &&
      r == InsertById(prev, Fresh(id, Clamp01(x)))
  {
    AppendAndSort(prev, Fresh(id, Clamp01(x)));
  }

  /** Every amplitude write keeps ranges and strictly increasing ids. */
  lemma AmplitudeChangePreservesValid(prev: seq<Harmonic>, id: int, x: real)
    requires ValidSet(prev) && ValidId(id)
    ensures ValidSet(AmplitudeChange(prev, id, x))
  {
    if !HasId(prev, id) && Clamp01(x) > ActivationThreshold {
      AmplitudeChangeActivates(prev, id, x);
    }
  }

  /** What the add form hands to the application. */
  datatype AddHarmonicData = AddHarmonicData(id: int, amplitude: real)

  /** Adding from the form: a present id leaves the list as it was. */
  function AddViaModal(prev: seq<Harmonic>, d: AddHarmonicData): (r: seq<Harmonic>)
    ensures HasId(prev, d.id) ==> r == prev
    ensures !HasId(prev, d.id) ==> multiset(r) == multiset(prev) + multiset{Fresh(d.id, d.amplitude)}
    ensures !HasId(prev, d.id) ==> SortedById(r) && |r| == |prev| + 1
  {
    if HasId(prev, d.id) then prev
    else
      SortByIdCorrect(prev + [Fresh(d.id, d.amplitude)]);
      SortById(prev + [Fresh(d.id, d.amplitude)])
  }

  lemma AddViaModalPreservesValid(prev: seq<Harmonic>, d: AddHarmonicData)
    requires ValidSet(prev) && ValidId(d.id) && ValidAmplitude(d.amplitude)
    ensures ValidSet(AddViaModal(prev, d))
    ensures !HasId(prev, d.id) ==> AddViaModal(prev, d) == InsertById(prev, Fresh(d.id, d.amplitude))
  {
    if !HasId(prev, d.id) {
      AppendAndSort(prev, Fresh(d.id, d.amplitude));
    }
  }

  datatype Flag = Mute | Lock | Solo

  function FlagOf(h: Harmonic, f: Flag): bool {
    match f
    case Mute => h.isMuted
    case Lock => h.isLocked
    case Solo => h.isSoloed
  }

  function Flip(h: Harmonic, f: Flag): Harmonic {
    match f
    case Mute => h.(isMuted := !h.isMuted)
    case Lock => h.(isLocked := !h.isLocked)
    case Solo => h.(isSoloed := !h.isSoloed)
  }

  /** The mute, lock and solo buttons of a row. */
  function Toggle(prev: seq<Harmonic>, id: int, f: Flag): (r: seq<Harmonic>)
    ensures |r| == |prev|
  {
    seq(|prev|, i requires 0 <= i < |prev| => if prev[i].id == id then Flip(prev[i], f) else prev[i])
  }

  /** A toggle flips the chosen flag of the matching entries and changes
      nothing else. */
  lemma ToggleFlipsOneFlag(prev: seq<Harmonic>, id: int, f: Flag)
    ensures var r := Toggle(prev, id, f);
      forall i :: 0 <= i < |prev| ==>
        (prev[i].id != id ==> r[i] == prev[i]) &&
        (prev[i].id == id ==>
           FlagOf(r[i], f) == !FlagOf(prev[i], f) &&
           r[i].id == prev[i].id && r[i].amplitude == prev[i].amplitude &&
           (forall g: Flag :: g != f ==> FlagOf(r[i], g) == FlagOf(prev[i], g)))
  {
  }

  /** Pressing the same toggle twice restores the list. */
  lemma ToggleTwiceIsIdentity(prev: seq<Harmonic>, id: int, f: Flag)
    ensures Toggle(Toggle(prev, id, f), id, f) == prev
  {
    var r := Toggle(Toggle(prev, id, f), id, f);
    assert forall i :: 0 <= i < |prev| ==> r[i] == prev[i];
  }

  lemma TogglePreservesValid(prev: seq<Harmonic>, id: int, f: Flag)
    requires ValidSet(prev)
    ensures ValidSet(Toggle(prev, id, f))
  {
  }

  /** The entries of `hs` that satisfy `keep`, in their order. */
  function Filter(hs: seq<Harmonic>, keep: Harmonic -> bool): (r: seq<Harmonic>)
    ensures |r| <= |hs|
    ensures forall x :: x in r <==> x in hs && keep(x)
  {
    if |hs| == 0 then []
    else if keep(hs[0]) then [hs[0]] + Filter(hs[1..], keep)
    else Filter(hs[1..], keep)
  }

  lemma FilterPreservesValid(hs: seq<Harmonic>, keep: Harmonic -> bool)
    requires ValidSet(hs)
    ensures ValidSet(Filter(hs, keep))
  {
    FilterStrictlySorted(hs, keep);
    var r := Filter(hs, keep);
    forall j | 0 <= j < |r| ensures ValidHarmonic(r[j]) {
      assert r[j] in hs;
    }
  }

  lemma {:induction false} FilterIdempotent(hs: seq<Harmonic>, keep: Harmonic -> bool)
    ensures Filter(Filter(hs, keep), keep) == Filter(hs, keep)
  {
    if |hs| > 0 {
      FilterIdempotent(hs[1..], keep);
    }
  }

  /** "Clear all" keeps the locked harmonics and drops the rest. */
  function ClearAll(prev: seq<Harmonic>): (r: seq<Harmonic>)
    ensures forall x :: x in r <==> x in prev && x.isLocked
  {
    Filter(prev, (h: Harmonic) => h.isLocked)
  }

  /** Clearing keeps the set's invariant, so the kept entries stay in id
      order, and clearing twice is clearing once. */
  lemma ClearAllProperties(prev: seq<Harmonic>)
    ensures ClearAll(ClearAll(prev)) == ClearAll(prev)
    ensures ValidSet(prev) ==> ValidSet(ClearAll(prev))
  {
    FilterIdempotent(prev, (h: Harmonic) => h.isLocked);
    if ValidSet(prev) {
      FilterPreservesValid(prev, (h: Harmonic) => h.isLocked);
    }
  }

  /** The row's remove button. */
  function Remove(prev: seq<Harmonic>, id: int): (r: seq<Harmonic>)
    ensures forall x :: x in r <==> x in prev && x.id != id
    ensures !HasId(r, id)
  {
    Filter(prev, (h: Harmonic) => h.id != id)
  }

  lemma RemovePreservesValid(prev: seq<Harmonic>, id: int)
    requires ValidSet(prev)
    ensures ValidSet(Remove(prev, id))
  {
    FilterPreservesValid(prev, (h: Harmonic) => h.id != id);
  }

  /** Removing the only entry with its id shortens the list by one. */
  lemma {:induction false} RemoveDropsOne(prev: seq<Harmonic>, k: nat)
    requires k < |prev| && UniqueIds(prev)
    ensures |Remove(prev, prev[k].id)| == |prev| - 1
  {
    var id := prev[k].id;
    if k == 0 {
      assert forall j :: 0 <= j < |prev| - 1 ==> prev[1..][j].id != id by {
        forall j | 0 <= j < |prev| - 1 ensures prev[1..][j].id != id {
          assert prev[1..][j] == prev[j + 1];
        }
      }
      FilterKeepsAll(prev[1..], (h: Harmonic) => h.id != id);
    } else {
      assert prev[1..][k - 1] == prev[k];
      RemoveDropsOne(prev[1..], k - 1);
    }
  }

  lemma {:induction false} FilterKeepsAll(hs: seq<Harmonic>, keep: Harmonic -> bool)
    requires forall j :: 0 <= j < |hs| ==> keep(hs[j])
    ensures Filter(hs, keep) == hs
  {
    if |hs| > 0 {
      FilterKeepsAll(hs[1..], keep);
    }
  }

  /** The active set as the id-keyed map built by `forEach(set)`: a later
      entry with the same id replaces an earlier one. */
  function ToMap(hs: seq<Harmonic>): (m: map<int, Harmonic>)
    decreases |hs|
  {
    if |hs| == 0 then map[]
    else ToMap(hs[..|hs| - 1])[hs[|hs| - 1].id := hs[|hs| - 1]]
  }

  lemma {:induction false} ToMapCorrect(hs: seq<Harmonic>)
    ensures forall id :: id in ToMap(hs) <==> HasId(hs, id)
    ensures forall id :: id in ToMap(hs) ==> ToMap(hs)[id].id == id && ToMap(hs)[id] in hs
    ensures UniqueIds(hs) ==> forall i :: 0 <= i < |hs| ==> hs[i].id in ToMap(hs) && ToMap(hs)[hs[i].id] == hs[i]
    decreases |hs|
  {
    if |hs| > 0 {
      var init := hs[..|hs| - 1];
      ToMapCorrect(init);
      assert forall i :: 0 <= i < |init| ==> init[i] == hs[i];
      assert hs == init + [hs[|hs| - 1]];
    }
  }

  /** All 32 slots of the graph: the active harmonic when present, else the
      inactive default. */
  function AllGraphHarmonics(active: seq<Harmonic>): (r: seq<Harmonic>)
    ensures |r| == MaxPotentialHarmonics
  {
    var m := ToMap(active);
    seq(MaxPotentialHarmonics, i requires 0 <= i < MaxPotentialHarmonics =>
      if i + 1 in m then m[i + 1] else Inactive(i + 1))
  }

  /** Slot i holds id i+1: the active entry with that id when there is one,
      the zero default otherwise. */
  lemma AllGraphHarmonicsSlots(active: seq<Harmonic>)
    requires UniqueIds(active)
    ensures var r := AllGraphHarmonics(active);
      forall i :: 0 <= i < MaxPotentialHarmonics ==>
        r[i].id == i + 1 &&
        (!HasId(active, i + 1) ==> r[i] == Inactive(i + 1)) &&
        (forall j :: 0 <= j < |active| && active[j].id == i + 1 ==> r[i] == active[j])
  {
    ToMapCorrect(active);
  }

  /** Filling the slots of a valid set gives 32 valid records in id order. */
  lemma AllGraphHarmonicsValid(active: seq<Harmonic>)
    requires ValidSet(active)
    ensures ValidSet(AllGraphHarmonics(active))
  {
    ToMapCorrect(active);
    var r := AllGraphHarmonics(active);
    forall i | 0 <= i < |r| ensures ValidHarmonic(r[i]) && r[i].id == i + 1 {
      if i + 1 in ToMap(active) {
        var j :| 0 <= j < |active| && active[j] == ToMap(active)[i + 1];
      }
    }
  }

  /** The graph's "any audible" flag over the slots asks the same as over
      the active set. */
  function AnyPositiveAmplitude(hs: seq<Harmonic>): bool {
    exists i :: 0 <= i < |hs| && hs[i].amplitude > 0.0
  }

  lemma AnyPositiveOverSlots(active: seq<Harmonic>)
    requires ValidSet(active)
    ensures AnyPositiveAmplitude(AllGraphHarmonics(active)) == AnyPositiveAmplitude(active)
  {
    ToMapCorrect(active);
    var r := AllGraphHarmonics(active);
    if AnyPositiveAmplitude(active) {
      var j :| 0 <= j < |active| && active[j].amplitude > 0.0;
      AllGraphHarmonicsSlots(active);
      assert r[active[j].id - 1] == active[j];
    }
    if AnyPositiveAmplitude(r) {
      var i :| 0 <= i < |r| && r[i].amplitude > 0.0;
      assert i + 1 in ToMap(active);
      var j :| 0 <= j < |active| && active[j] == ToMap(active)[i + 1];
    }
  }

  /** The fields a settings control changes; absent fields keep their value. */
  datatype SettingsPatch = SettingsPatch(
    fundamentalFrequency: Option<real>,
    duration: Option<real>,
    masterVolume: Option<real>)

  function Pick(o: Option<real>, current: real): real {
    if o.Some? then o.value else current
  }

  /** `{ ...prev, ...newSettings }`. */
  function ApplySettings(prev: AudioSettings, p: SettingsPatch): (r: AudioSettings)
    ensures p.fundamentalFrequency.None? ==> r.fundamentalFrequency == prev.fundamentalFrequency
    ensures p.duration.None? ==> r.duration == prev.duration
    ensures p.masterVolume.None? ==> r.masterVolume == prev.masterVolume
    ensures p.fundamentalFrequency.Some? ==> r.fundamentalFrequency == p.fundamentalFrequency.value
    ensures p.duration.Some? ==> r.duration == p.duration.value
    ensures p.masterVolume.Some? ==> r.masterVolume == p.masterVolume.value
  {
    AudioSettings(
      Pick(p.fundamentalFrequency, prev.fundamentalFrequency),
      Pick(p.duration, prev.duration),
      Pick(p.masterVolume, prev.masterVolume))
  }

  /** The settings the application starts with. */
  function InitialSettings(): (s: AudioSettings)
    ensures ValidSettings(s) && s.fundamentalFrequency == 220.0 && s.duration == 2.0 && s.masterVolume == 0.75
  {
    AudioSettings(220.0, 2.0, 0.75)
  }

  /** Slot `i` is held by a locked harmonic of `prev`. */
  predicate LockedSlot(prev: seq<Harmonic>, i: int) {
    FindId(prev, i).Some? && prev[FindId(prev, i).value].isLocked
  }

  /** The mute state a re-drawn slot inherits from the harmonic it replaces. */
  predicate InheritedMute(prev: seq<Harmonic>, id: int) {
    FindId(prev, id).Some? && prev[FindId(prev, id).value].isMuted
  }

  /** How many `Math.random()` draws the loop has taken before slot `i`:
      one for every earlier slot not held by a locked harmonic. */
  function DrawIndex(prev: seq<Harmonic>, i: int): (k: nat)
    ensures i >= 1 ==> k <= i - 1
    decreases i
  {
    if i <= 1 then 0
    else DrawIndex(prev, i - 1) + (if LockedSlot(prev, i - 1) then 0 else 1)
  }

  /** The harmonic an unlocked slot `i` is redrawn as: the slot's own draw,
      unlocked, unsoloed, keeping the mute state of the harmonic it
      replaces. */
  function Redrawn(prev: seq<Harmonic>, draws: seq<real>, i: int): (h: Harmonic)
    requires 1 <= i <= MaxPotentialHarmonics && |draws| >= MaxPotentialHarmonics
    ensures h.id == i && !h.isLocked && !h.isSoloed && h.isMuted == InheritedMute(prev, i)
  {
    Harmonic(i, draws[DrawIndex(prev, i)], false, InheritedMute(prev, i), false)
  }

  /** What randomizing puts into slot `x.id`: the locked harmonic of `prev`
      as it was, or the slot redrawn. */
  predicate RandomizedEntry(prev: seq<Harmonic>, draws: seq<real>, x: Harmonic)
    requires |draws| >= MaxPotentialHarmonics
  {
    ValidId(x.id) &&
    (if LockedSlot(prev, x.id) then x == prev[FindId(prev, x.id).value] else x == Redrawn(prev, draws, x.id))
  }

  /** `setup` holds what the slot loop has pushed for slots 1..i-1. */
  predicate SlotsDone(prev: seq<Harmonic>, draws: seq<real>, setup: seq<Harmonic>, i: int)
    requires |draws| >= MaxPotentialHarmonics && 1 <= i <= MaxPotentialHarmonics + 1
  {
    (forall j :: 0 <= j < |setup| ==> setup[j].id < i) &&
    StrictlySortedById(setup) &&
    (forall x :: x in setup ==> RandomizedEntry(prev, draws, x)) &&
    LockedKept(prev, setup, i) &&
    RedrawsRecorded(prev, draws, setup, i)
  }

  /** Every locked slot below `i` has its entry in `setup`. */
  predicate LockedKept(prev: seq<Harmonic>, setup: seq<Harmonic>, i: int) {
    forall j :: 1 <= j < i && LockedSlot(prev, j) ==> prev[FindId(prev, j).value] in setup
  }

  /** An unlocked slot `j` has its redrawn entry in `setup` exactly when its
      draw clears the threshold or the slot was active. */
  predicate SlotRecorded(prev: seq<Harmonic>, draws: seq<real>, setup: seq<Harmonic>, j: int)
    requires |draws| >= MaxPotentialHarmonics && 1 <= j <= MaxPotentialHarmonics
  {
    !LockedSlot(prev, j) ==>
      (Redrawn(prev, draws, j) in setup <==>
       draws[DrawIndex(prev, j)] > ActivationThreshold || HasId(prev, j))
  }

  /** Every slot below `i` is recorded. */
  predicate RedrawsRecorded(prev: seq<Harmonic>, draws: seq<real>, setup: seq<Harmonic>, i: int)
    requires |draws| >= MaxPotentialHarmonics && i <= MaxPotentialHarmonics + 1
  {
    forall j :: 1 <= j < i ==> SlotRecorded(prev, draws, setup, j)
  }

  /** Pushing slot `i`'s entry extends the loop's record to slot `i`. */
  lemma PushSlot(prev: seq<Harmonic>, draws: seq<real>, setup: seq<Harmonic>, i: int, x: Harmonic)
    requires |draws| >= MaxPotentialHarmonics && 1 <= i <= MaxPotentialHarmonics
    requires SlotsDone(prev, draws, setup, i)
    requires x.id == i && RandomizedEntry(prev, draws, x)
    requires !LockedSlot(prev, i) ==> draws[DrawIndex(prev, i)] > ActivationThreshold || HasId(prev, i)
    ensures SlotsDone(prev, draws, setup + [x], i + 1)
  {
    var s := setup + [x];
    assert forall y :: y in s <==> y in setup || y == x;
    forall j | 1 <= j < i
      ensures SlotRecorded(prev, draws, s, j)
    {
      SlotRecordedSnoc(prev, draws, setup, x, j);
    }
    if !LockedSlot(prev, i) {
      assert Redrawn(prev, draws, i) == x;
    }
    assert SlotRecorded(prev, draws, s, i);
    forall j | 1 <= j < i && LockedSlot(prev, j)
      ensures prev[FindId(prev, j).value] in s
    {
    }
  }

  /** Appending an entry of another slot keeps slot `j` recorded. */
  lemma SlotRecordedSnoc(prev: seq<Harmonic>, draws: seq<real>, setup: seq<Harmonic>, x: Harmonic, j: int)
    requires |draws| >= MaxPotentialHarmonics && 1 <= j <= MaxPotentialHarmonics
    requires SlotRecorded(prev, draws, setup, j) && x.id != j
    ensures SlotRecorded(prev, draws, setup + [x], j)
  {
    assert Redrawn(prev, draws, j) in setup + [x] <==> Redrawn(prev, draws, j) in setup;
  }

  /** Extending the record of locked slots past a slot that is not locked. */
  lemma LockedKeptPast(prev: seq<Harmonic>, setup: seq<Harmonic>, i: int)
    requires LockedKept(prev, setup, i) && !LockedSlot(prev, i)
    ensures LockedKept(prev, setup, i + 1)
  {
    forall j | 1 <= j < i + 1 && LockedSlot(prev, j)
      ensures prev[FindId(prev, j).value] in setup
    {
      assert j != i;
    }
  }

  /** Extending the record of redrawn slots past slot `i`, given its entry. */
  lemma RedrawsRecordedPast(prev: seq<Harmonic>, draws: seq<real>, setup: seq<Harmonic>, i: int)
    requires |draws| >= MaxPotentialHarmonics && 1 <= i <= MaxPotentialHarmonics
    requires RedrawsRecorded(prev, draws, setup, i) && SlotRecorded(prev, draws, setup, i)
    ensures RedrawsRecorded(prev, draws, setup, i + 1)
  {
  }

  /** Skipping an unlocked slot whose draw is too small and that was not
      active extends the loop's record to slot `i`. */
  lemma SkipSlot(prev: seq<Harmonic>, draws: seq<real>, setup: seq<Harmonic>, i: int)
    requires |draws| >= MaxPotentialHarmonics && 1 <= i <= MaxPotentialHarmonics
    requires SlotsDone(prev, draws, setup, i)
    requires !LockedSlot(prev, i) && !(draws[DrawIndex(prev, i)] > ActivationThreshold || HasId(prev, i))
    ensures SlotsDone(prev, draws, setup, i + 1)
  {
    var r := Redrawn(prev, draws, i);
    forall j | 0 <= j < |setup|
      ensures setup[j] != r
    {
      assert setup[j].id < i;
    }
    assert r !in setup;
    LockedKeptPast(prev, setup, i);
    RedrawsRecordedPast(prev, draws, setup, i);
  }

  /** One pass of the slot loop's body, for slot `i`; `k` counts the draws
      taken so far. */
  method TakeSlot(prev: seq<Harmonic>, draws: seq<real>, setup: seq<Harmonic>, i: int, k: nat)
    returns (setup': seq<Harmonic>, k': nat)
    requires |draws| >= MaxPotentialHarmonics && 1 <= i <= MaxPotentialHarmonics
    requires k == DrawIndex(prev, i) && SlotsDone(prev, draws, setup, i)
    ensures k' == DrawIndex(prev, i + 1) && SlotsDone(prev, draws, setup', i + 1)
  {
    var found := FindId(prev, i);
    if found.Some? && prev[found.value].isLocked {
      setup', k' := setup + [prev[found.value]], k;
      PushSlot(prev, draws, setup, i, prev[found.value]);
    } else {
      var a := draws[k];
      k' := k + 1;
      if a > ActivationThreshold || HasId(prev, i) {
        var muted := if found.Some? then prev[found.value].isMuted else false;
        var x := Harmonic(i, a, false, muted, false);
        assert x == Redrawn(prev, draws, i);
        setup' := setup + [x];
        PushSlot(prev, draws, setup, i, x);
      } else {
        setup' := setup;
        SkipSlot(prev, draws, setup, i);
      }
    }
  }

  /** The slot loop of "Randomize": slots 1..32 in order, each either the
      locked harmonic kept, or redrawn and pushed when its draw exceeds the
      threshold or the slot was active. */
  method RandomizeSlots(prev: seq<Harmonic>, draws: seq<real>) returns (setup: seq<Harmonic>)
    requires |draws| >= MaxPotentialHarmonics
    ensures StrictlySortedById(setup)
    ensures forall x :: x in setup ==> RandomizedEntry(prev, draws, x)
    ensures forall j :: 1 <= j <= MaxPotentialHarmonics && LockedSlot(prev, j) ==>
              prev[FindId(prev, j).value] in setup
    ensures forall j :: 1 <= j <= MaxPotentialHarmonics && !LockedSlot(prev, j) ==>
              (Redrawn(prev, draws, j) in setup <==>
               draws[DrawIndex(prev, j)] > ActivationThreshold || HasId(prev, j))
  {
    setup := [];
    var k := 0;
    for i := 1 to MaxPotentialHarmonics + 1
      invariant k == DrawIndex(prev, i)
      invariant SlotsDone(prev, draws, setup, i)
    {
      setup, k := TakeSlot(prev, draws, setup, i, k);
    }
    assert RedrawsRecorded(prev, draws, setup, MaxPotentialHarmonics + 1);
    assert LockedKept(prev, setup, MaxPotentialHarmonics + 1);
    forall j | 1 <= j <= MaxPotentialHarmonics && !LockedSlot(prev, j)
      ensures Redrawn(prev, draws, j) in setup <==>
              draws[DrawIndex(prev, j)] > ActivationThreshold || HasId(prev, j)
    {
      assert SlotRecorded(prev, draws, setup, j);
    }
  }

  /** Entries drawn from a valid set and from draws in [0, 1) are valid. */
  lemma RandomizedEntriesValid(prev: seq<Harmonic>, draws: seq<real>, setup: seq<Harmonic>)
    requires ValidSet(prev) && |draws| >= MaxPotentialHarmonics
    requires forall k :: 0 <= k < |draws| ==> 0.0 <= draws[k] < 1.0
    requires forall x :: x in setup ==> RandomizedEntry(prev, draws, x)
    ensures forall j :: 0 <= j < |setup| ==> ValidHarmonic(setup[j])
  {
    forall j | 0 <= j < |setup| ensures ValidHarmonic(setup[j]) {
      var x := setup[j];
      assert RandomizedEntry(prev, draws, x);
      if LockedSlot(prev, x.id) {
        assert prev[FindId(prev, x.id).value] == x;
      } else {
        assert draws[DrawIndex(prev, x.id)] == x.amplitude;
      }
    }
  }

  /** "Randomize": every slot 1..32 not held by a locked harmonic takes the
      next of the successive `Math.random()` values in `draws`; the slot
      stays (or becomes) active exactly when its draw exceeds the activation
      threshold; locked harmonics are kept as they are. */
  method Randomize(prev: seq<Harmonic>, draws: seq<real>) returns (next: seq<Harmonic>)
    requires |draws| >= MaxPotentialHarmonics
    requires forall k :: 0 <= k < |draws| ==> 0.0 <= draws[k] < 1.0
    ensures StrictlySortedById(next)
    ensures ValidSet(prev) ==> ValidSet(next)
    ensures forall i :: 1 <= i <= MaxPotentialHarmonics && LockedSlot(prev, i) ==>
              prev[FindId(prev, i).value] in next
    ensures forall i :: 1 <= i <= MaxPotentialHarmonics && !LockedSlot(prev, i) ==>
              (Redrawn(prev, draws, i) in next <==> draws[DrawIndex(prev, i)] > ActivationThreshold)
    ensures forall x :: x in next ==> RandomizedEntry(prev, draws, x)
    ensures forall x :: x in next ==> x.isLocked || x.amplitude > ActivationThreshold
  {
    var setup := RandomizeSlots(prev, draws);
    SortByIdOfSorted(setup);
    var sorted := SortById(setup);
    next := Filter(sorted, (h: Harmonic) => h.amplitude > ActivationThreshold || h.isLocked);
    if ValidSet(prev) {
      RandomizedEntriesValid(prev, draws, setup);
      FilterPreservesValid(sorted, (h: Harmonic) => h.amplitude > ActivationThreshold || h.isLocked);
    } else {
      FilterStrictlySorted(sorted, (h: Harmonic) => h.amplitude > ActivationThreshold || h.isLocked);
    }
  }

  lemma {:induction false} FilterStrictlySorted(hs: seq<Harmonic>, keep: Harmonic -> bool)
    requires StrictlySortedById(hs)
    ensures StrictlySortedById(Filter(hs, keep))
  {
    if |hs| > 0 {
      FilterStrictlySorted(hs[1..], keep);
      var rest := Filter(hs[1..], keep);
      forall j | 0 <= j < |rest| ensures hs[0].id < rest[j].id {
        assert rest[j] in hs[1..];
      }
    }
  }
}
