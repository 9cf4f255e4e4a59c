/** The bar graph of all 32 slots: what each bar shows, its colour, which
    ticks are labelled, and the drag that writes amplitudes back. */
module AmplitudeGraph {
  import opened Types
  import opened HarmonicList
  import opened Resolver
  import opened Editor

  /** Solo is in force for the graph when an active slot is soloed, unmuted
      and positive. */
  predicate HasSolo(harmonics: seq<Harmonic>, activeIds: set<int>) {
    exists i :: 0 <= i < |harmonics| && harmonics[i].id in activeIds &&
      harmonics[i].amplitude > 0.0 && harmonics[i].isSoloed && !harmonics[i].isMuted
  }

  /** The height of one bar; solo silences only active slots. */
  function DisplayAmplitude(h: Harmonic, hasSolo: bool, isActive: bool): (r: real)
    ensures h.isMuted ==> r == 0.0
    ensures !h.isMuted && hasSolo && !h.isSoloed && isActive ==> r == 0.0
    ensures !h.isMuted && !(hasSolo && !h.isSoloed && isActive) ==> r == h.amplitude
  {
    if h.isMuted then 0.0
    else if hasSolo && !h.isSoloed && isActive then 0.0
    else h.amplitude
  }

  function BarName(id: int): string {
    "H" + IntToDecimal(id)
  }

  function ToPoint(h: Harmonic, hasSolo: bool, activeIds: set<int>): GraphDataPoint {
    GraphDataPoint(BarName(h.id), DisplayAmplitude(h, hasSolo, h.id in activeIds),
                   h.amplitude, h.isMuted, h.isLocked, h.isSoloed, h.id)
  }

  /** One point per input harmonic, in input order. */
  function GraphData(harmonics: seq<Harmonic>, activeIds: set<int>): (r: seq<GraphDataPoint>)
    ensures |r| == |harmonics|
    ensures forall i :: 0 <= i < |r| ==>
              var h := harmonics[i];
              r[i].id == h.id && r[i].name == BarName(h.id) &&
              r[i].originalAmplitude == h.amplitude &&
              r[i].isMuted == h.isMuted && r[i].isLocked == h.isLocked && r[i].isSoloed == h.isSoloed &&
              r[i].amplitude == DisplayAmplitude(h, HasSolo(harmonics, activeIds), h.id in activeIds)
  {
    var hasSolo := HasSolo(harmonics, activeIds);
    seq(|harmonics|, i requires 0 <= i < |harmonics| => ToPoint(harmonics[i], hasSolo, activeIds))
  }

  /** Over the slots of a valid active set, the graph's solo test is the
      resolver's. */
  lemma HasSoloOverSlots(active: seq<Harmonic>)
    requires ValidSet(active)
    ensures HasSolo(AllGraphHarmonics(active), IdSet(active)) == HasSoloActive(active)
  {
    var slots := AllGraphHarmonics(active);
    StrictlySortedIsUnique(active);
    AllGraphHarmonicsSlots(active);
    if HasSoloActive(active) {
      var j :| 0 <= j < |active| && active[j].amplitude > 0.0 && active[j].isSoloed && !active[j].isMuted;
      var i := active[j].id - 1;
      assert slots[i] == active[j];
    }
    if HasSolo(slots, IdSet(active)) {
      var i :| 0 <= i < |slots| && slots[i].id in IdSet(active) &&
        slots[i].amplitude > 0.0 && slots[i].isSoloed && !slots[i].isMuted;
      var j :| 0 <= j < |active| && active[j].id == slots[i].id;
      assert slots[i] == active[j];
    }
  }

  /** The bar of an active harmonic shows exactly its resolved gain, and an
      inactive slot shows zero. */
  lemma DisplayMatchesResolver(active: seq<Harmonic>)
    requires ValidSet(active)
    ensures var data := GraphData(AllGraphHarmonics(active), IdSet(active));
      (forall j :: 0 <= j < |active| ==>
         data[active[j].id - 1].amplitude == TargetGain(active[j], active)) &&
      (forall i :: 0 <= i < |data| && !HasId(active, i + 1) ==>
         data[i].amplitude == 0.0 && data[i].originalAmplitude == 0.0)
  {
    HasSoloOverSlots(active);
    StrictlySortedIsUnique(active);
    AllGraphHarmonicsSlots(active);
    var slots := AllGraphHarmonics(active);
    forall j | 0 <= j < |active|
      ensures slots[active[j].id - 1] == active[j] && active[j].id in IdSet(active)
    {
    }
  }

  /** The colour classes of a bar, in the order they are tested. */
  datatype BarColor = LockedBar | InactiveBar | MutedBar | SuppressedBar | SoloedBar | ActiveBar | DefaultBar {
    function Hex(): string {
      match this
      case LockedBar => "#0ea5e9"
      case InactiveBar => "#334155"
      case MutedBar => "#64748b"
      case SuppressedBar => "#475569"
      case SoloedBar => "#f59e0b"
      case ActiveBar => "#3b82f6"
      case DefaultBar => "#334155"
    }
  }

  /** Each colour is chosen exactly when its own test holds and no earlier
      test does. */
  function BarFillColor(p: GraphDataPoint, activeIds: set<int>, hasSolo: bool): (c: BarColor)
    ensures c == LockedBar <==> p.isLocked
    ensures c == InactiveBar <==> !p.isLocked && p.id !in activeIds && p.originalAmplitude == 0.0
    ensures c == MutedBar <==>
              !p.isLocked && !(p.id !in activeIds && p.originalAmplitude == 0.0) && p.isMuted
    ensures c == SuppressedBar <==>
              !p.isLocked && !(p.id !in activeIds && p.originalAmplitude == 0.0) && !p.isMuted &&
              p.id in activeIds && hasSolo && !p.isSoloed && p.originalAmplitude > 0.0
    ensures c == SoloedBar <==>
              !p.isLocked && !(p.id !in activeIds && p.originalAmplitude == 0.0) && !p.isMuted &&
              !(p.id in activeIds && hasSolo && !p.isSoloed && p.originalAmplitude > 0.0) && p.isSoloed
    ensures c == DefaultBar ==> p.id !in activeIds && p.originalAmplitude < 0.0
  {
    var isActive := p.id in activeIds;
    if p.isLocked then LockedBar
    else if !isActive && p.originalAmplitude == 0.0 then InactiveBar
    else if p.isMuted then MutedBar
    else if isActive && hasSolo && !p.isSoloed && p.originalAmplitude > 0.0 then SuppressedBar
    else if p.isSoloed then SoloedBar
    else if isActive || p.originalAmplitude > 0.0 then ActiveBar
    else DefaultBar
  }

  /** On the graph of a valid set, a bar drawn muted or suppressed shows
      zero, and an unlocked bar drawn soloed or active shows its configured
      amplitude. */
  lemma BarColorMatchesHeight(active: seq<Harmonic>, i: nat)
    requires ValidSet(active) && i < MaxPotentialHarmonics
    ensures var slots := AllGraphHarmonics(active);
      var data := GraphData(slots, IdSet(active));
      var c := BarFillColor(data[i], IdSet(active), HasSolo(slots, IdSet(active)));
      (c == MutedBar || c == SuppressedBar ==> data[i].amplitude == 0.0) &&
      (c == SoloedBar || c == ActiveBar ==> data[i].amplitude == data[i].originalAmplitude) &&
      c != DefaultBar
  {
    AllGraphHarmonicsValid(active);
  }

  /** Labelled x-axis ticks: names of the points at even indices and of the
      point at index 31. */
  function XAxisTicks(data: seq<GraphDataPoint>): seq<string> {
    TicksFrom(data, 0)
  }

  function TicksFrom(data: seq<GraphDataPoint>, start: nat): seq<string>
    decreases |data| - start
  {
    if start >= |data| then []
    else (if start % 2 == 0 || start == MaxPotentialHarmonics - 1 then [data[start].name] else [])
         + TicksFrom(data, start + 1)
  }

  /** The ticks from index `30 - 2m` on: `m + 1` even indices, then 31. */
  lemma {:induction false} TicksFromEven(data: seq<GraphDataPoint>, m: nat)
    requires |data| == MaxPotentialHarmonics && m <= 15
    ensures var t := TicksFrom(data, 30 - 2 * m);
      |t| == m + 2 &&
      (forall k :: 0 <= k <= m ==> t[k] == data[30 - 2 * m + 2 * k].name) &&
      t[m + 1] == data[31].name
  {
    var s := 30 - 2 * m;
    var t := TicksFrom(data, s);
    var odd := TicksFrom(data, s + 1);
    assert t == [data[s].name] + odd;
    if m == 0 {
      assert TicksFrom(data, 32) == [];
      assert odd == [data[31].name] + TicksFrom(data, 32);
    } else {
      TicksFromEven(data, m - 1);
      var rest := TicksFrom(data, s + 2);
      assert 30 - 2 * (m - 1) == s + 2;
      assert odd == [] + rest;
      forall k | 0 <= k <= m ensures t[k] == data[s + 2 * k].name {
        if k > 0 {
          assert t[k] == rest[k - 1];
          assert 30 - 2 * (m - 1) + 2 * (k - 1) == s + 2 * k;
        }
      }
    }
  }

  /** On the 32 bars, the ticks are H-names of indices 0, 2, ..., 30 and 31. */
  lemma XAxisTicksOf32(data: seq<GraphDataPoint>)
    requires |data| == MaxPotentialHarmonics
    ensures var t := XAxisTicks(data);
      |t| == 17 &&
      (forall k :: 0 <= k < 16 ==> t[k] == data[2 * k].name) &&
      t[16] == data[31].name
  {
    TicksFromEven(data, 15);
  }

  /** The bar drag: which harmonic is being dragged, if any. The pixel
      geometry that turns a mouse position into an amplitude is not part of
      the model; `boundsReady` says the y-axis bounds are known. */
  class DragController {
    var draggingId: Option<int>

    constructor ()
      ensures draggingId == None
    {
      draggingId := None;
    }

    /** Pressing on a bar; a locked harmonic never starts a drag. */
    method MouseDownOnBar(harmonicId: int, harmonics: seq<Harmonic>, boundsReady: bool)
      modifies this
      ensures var f := FindId(harmonics, harmonicId);
        draggingId ==
          if !boundsReady || (f.Some? && harmonics[f.value].isLocked) then old(draggingId)
          else Some(harmonicId)
      ensures draggingId.Some? && draggingId != old(draggingId) ==> !LockedIn(harmonics, draggingId.value)
    {
      if !boundsReady {
        return;
      }
      var target := FindId(harmonics, harmonicId);
      if target.Some? && harmonics[target.value].isLocked {
        return;
      }
      draggingId := Some(harmonicId);
    }

    /** Moving the mouse during a drag. `rawAmplitude` is the amplitude the
        mouse position maps to; `boundsUsable` says the axis is taller than
        10 pixels. Returns the amplitude write handed to the application. */
    method MouseMove(harmonics: seq<Harmonic>, boundsUsable: bool, rawAmplitude: real)
      returns (emitted: Option<(int, real)>)
      modifies this
      ensures old(draggingId).None? || !boundsUsable ==>
                emitted == None && draggingId == old(draggingId)
      ensures old(draggingId).Some? && boundsUsable && LockedIn(harmonics, old(draggingId).value) ==>
                emitted == None && draggingId == None
      ensures old(draggingId).Some? && boundsUsable && !LockedIn(harmonics, old(draggingId).value) ==>
                emitted == Some((old(draggingId).value, Clamp01(rawAmplitude))) &&
                draggingId == old(draggingId)
      ensures emitted.Some? ==> ValidAmplitude(emitted.value.1) && !LockedIn(harmonics, emitted.value.0)
    {
      if draggingId.None? || !boundsUsable {
        return None;
      }
      var id := draggingId.value;
      var target := FindId(harmonics, id);
      if target.Some? && harmonics[target.value].isLocked {
        draggingId := None;
        return None;
      }
      emitted := Some((id, Clamp01(rawAmplitude)));
    }

    method MouseUp()
      modifies this
      ensures draggingId == None
    {
      if draggingId.Some? {
        draggingId := None;
      }
    }
  }

  /** The first harmonic with this id in the graph's list is locked. */
  predicate LockedIn(harmonics: seq<Harmonic>, id: int) {
    FindId(harmonics, id).Some? && harmonics[FindId(harmonics, id).value].isLocked
  }

  /** The graph's slot for a valid id is locked exactly when the active set
      holds that id locked. */
  lemma SlotLockedIff(active: seq<Harmonic>, id: int)
    requires UniqueIds(active) && ValidId(id)
    ensures LockedIn(AllGraphHarmonics(active), id) <==> LockedIn(active, id)
  {
    var slots := AllGraphHarmonics(active);
    AllGraphHarmonicsSlots(active);
    assert slots[id - 1].id == id;
    assert FindId(slots, id) == Some(id - 1);
    if HasId(active, id) {
      var k := FindId(active, id).value;
      assert slots[id - 1] == active[k];
    }
  }

  /** One drag gesture on bar `id` of the graph of the active set: press,
      move to `rawAmplitude`, release, and hand the emitted write to the
      application. A locked harmonic's bar leaves the active set as it was;
      any other bar writes the clamped amplitude. */
  method DragBar(active: seq<Harmonic>, id: int, rawAmplitude: real) returns (next: seq<Harmonic>)
    requires ValidSet(active) && ValidId(id)
    ensures LockedIn(active, id) ==> next == active
    ensures !LockedIn(active, id) ==> next == AmplitudeChange(active, id, Clamp01(rawAmplitude))
  {
    StrictlySortedIsUnique(active);
    SlotLockedIff(active, id);
    var slots := AllGraphHarmonics(active);
    var drag := new DragController();
    drag.MouseDownOnBar(id, slots, true);
    var emitted := drag.MouseMove(slots, true, rawAmplitude);
    drag.MouseUp();
    next := if emitted.Some? then AmplitudeChange(active, emitted.value.0, emitted.value.1) else active;
  }
}
