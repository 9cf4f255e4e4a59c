/** The list of active-harmonic rows: the add form and its checks, the
    amplitude field with its blur correction, and the row buttons. The text
    parsing itself (`parseInt`, `parseFloat`) is not modelled: callers pass
    the parsed values. */
module TogglesList {
  import opened Types
  import opened HarmonicList
  import opened Editor

  const MaxHarmonicId: int := 32

  /** What `parseFloat` returns. */
  datatype ParsedNum = NaN | Num(value: real)

  /** What `parseInt(text, 10)` returns. */
  datatype ParsedInt = IntNaN | IntValue(value: int)

  datatype SubmitOutcome = BadId | BadAmplitude | Duplicate | Added(data: AddHarmonicData)

  predicate IdAcceptable(id: ParsedInt) {
    id.IntValue? && 1 <= id.value <= MaxHarmonicId
  }

  predicate AmplitudeAcceptable(a: ParsedNum) {
    a.Num? && 0.0 <= a.value <= 1.0
  }

  /** The add form's submit: the id check, then the amplitude check, then
      the duplicate check; only when all pass is the harmonic added. */
  function SubmitDecision(id: ParsedInt, amplitude: ParsedNum, harmonics: seq<Harmonic>): (r: SubmitOutcome)
    ensures r == BadId <==> !IdAcceptable(id)
    ensures r == BadAmplitude <==> IdAcceptable(id) && !AmplitudeAcceptable(amplitude)
    ensures r == Duplicate <==>
              IdAcceptable(id) && AmplitudeAcceptable(amplitude) && HasId(harmonics, id.value)
    ensures r.Added? <==>
              IdAcceptable(id) && AmplitudeAcceptable(amplitude) && !HasId(harmonics, id.value)
    ensures r.Added? ==> r.data == AddHarmonicData(id.value, amplitude.value)
  {
    if id.IntNaN? || id.value < 1 || id.value > MaxHarmonicId then BadId
    else if amplitude.NaN? || amplitude.value < 0.0 || amplitude.value > 1.0 then BadAmplitude
    else if HasId(harmonics, id.value) then Duplicate
    else Added(AddHarmonicData(id.value, amplitude.value))
  }

  /** A submit that passes the form's checks always grows a valid active set
      by exactly the new harmonic; the application's own duplicate check
      never fires. */
  lemma SubmitThenAdd(id: ParsedInt, amplitude: ParsedNum, hs: seq<Harmonic>)
    requires ValidSet(hs)
    requires SubmitDecision(id, amplitude, hs).Added?
    ensures var d := SubmitDecision(id, amplitude, hs).data;
      var next := AddViaModal(hs, d);
      ValidSet(next) && |next| == |hs| + 1 &&
      next == InsertById(hs, Fresh(d.id, d.amplitude)) && HasId(next, d.id)
  {
    var d := SubmitDecision(id, amplitude, hs).data;
    AppendAndSort(hs, Fresh(d.id, d.amplitude));
    var next := AddViaModal(hs, d);
    assert Fresh(d.id, d.amplitude) in multiset(next);
  }

  /** The live-typing handler of an amplitude field forwards only a parsed
      value in [0, 1]. No event reaches it: the field's change handler
      leaves its call commented out, so values are committed on blur. */
  function AmplitudeInputChange(parsed: ParsedNum): (r: Option<real>)
    ensures r.Some? <==> AmplitudeAcceptable(parsed)
    ensures r.Some? ==> r.value == parsed.value
  {
    if parsed.Num? && parsed.value >= 0.0 && parsed.value <= 1.0 then Some(parsed.value) else None
  }

  /** The value a field is corrected to when it loses focus. */
  function BlurCorrection(parsed: ParsedNum): (v: real)
    ensures ValidAmplitude(v)
    ensures parsed.NaN? ==> v == 0.0
    ensures parsed.Num? ==> v == Clamp01(parsed.value)
  {
    if parsed.NaN? || parsed.value < 0.0 then 0.0
    else if parsed.value > 1.0 then 1.0
    else parsed.value
  }

  /** Blur: write the corrected value when it differs from the current
      amplitude or when the text needed correcting. */
  function AmplitudeInputBlur(current: real, parsed: ParsedNum): (r: Option<real>)
    ensures r.Some? ==> r.value == BlurCorrection(parsed) && ValidAmplitude(r.value)
  {
    var finalValue := BlurCorrection(parsed);
    if finalValue != current || parsed != Num(finalValue) then Some(finalValue) else None
  }

  /** Blur writes nothing exactly when the field holds the current
      amplitude and that amplitude is in range. */
  lemma BlurSilentIff(current: real, parsed: ParsedNum)
    ensures AmplitudeInputBlur(current, parsed).None? <==>
              parsed == Num(current) && ValidAmplitude(current)
  {
  }

  /** After a blur's write has been applied, blurring the same text again
      writes nothing. */
  lemma BlurIdempotent(hs: seq<Harmonic>, id: int, current: real, parsed: ParsedNum)
    requires FindId(hs, id).Some? && !hs[FindId(hs, id).value].isLocked
    requires AmplitudeInputBlur(current, parsed).Some?
    requires parsed.Num? && ValidAmplitude(parsed.value)
    ensures var v := AmplitudeInputBlur(current, parsed).value;
      var next := AmplitudeChange(hs, id, v);
      next[FindId(hs, id).value].amplitude == v &&
      AmplitudeInputBlur(next[FindId(hs, id).value].amplitude, parsed).None?
  {
  }

  /** The controls of one row. */
  datatype RowEvent = BlurAmplitude(text: ParsedNum) | PressRemove | PressMute | PressLock | PressSolo

  /** The amplitude field and the remove button are disabled on locked rows. */
  predicate RowControlEnabled(h: Harmonic, ev: RowEvent) {
    (ev.BlurAmplitude? || ev.PressRemove?) ==> !h.isLocked
  }

  /** What a row event does to the active set when the row shows `h`. */
  function ApplyRowEvent(hs: seq<Harmonic>, h: Harmonic, ev: RowEvent): (r: seq<Harmonic>)
    ensures !RowControlEnabled(h, ev) ==> r == hs
  {
    if !RowControlEnabled(h, ev) then hs
    else
      match ev
      case BlurAmplitude(text) =>
        (match AmplitudeInputBlur(h.amplitude, text)
         case Some(v) => AmplitudeChange(hs, h.id, v)
         case None => hs)
      case PressRemove => Remove(hs, h.id)
      case PressMute => Toggle(hs, h.id, Mute)
      case PressLock => Toggle(hs, h.id, Lock)
      case PressSolo => Toggle(hs, h.id, Solo)
  }

  /** From its row, a locked harmonic can be neither re-valued nor removed;
      only its flags change, and every row event keeps a valid set valid. */
  lemma LockedRowKeepsHarmonic(hs: seq<Harmonic>, k: nat, ev: RowEvent)
    requires ValidSet(hs) && k < |hs|
    ensures ValidSet(ApplyRowEvent(hs, hs[k], ev))
    ensures hs[k].isLocked && (ev.BlurAmplitude? || ev.PressRemove?) ==> ApplyRowEvent(hs, hs[k], ev) == hs
  {
    var h := hs[k];
    if RowControlEnabled(h, ev) {
      match ev
      case BlurAmplitude(text) => {
        match AmplitudeInputBlur(h.amplitude, text)
        case Some(v) => AmplitudeChangePreservesValid(hs, h.id, v);
        case None =>
      }
      case PressRemove => RemovePreservesValid(hs, h.id);
      case PressMute => TogglePreservesValid(hs, h.id, Mute);
      case PressLock => TogglePreservesValid(hs, h.id, Lock);
      case PressSolo => TogglePreservesValid(hs, h.id, Solo);
    }
  }

  /** The add form's state. */
  class AddHarmonicForm {
    var isAdding: bool
    var idText: string
    var amplitudeText: string

    constructor ()
      ensures !isAdding && idText == "" && amplitudeText == "0.50"
    {
      isAdding := false;
      idText := "";
      amplitudeText := "0.50";
    }

    /** The "Add New Harmonic" / "Cancel Add" button; opening resets the
        fields. */
    method ToggleAddForm()
      modifies this
      ensures isAdding == !old(isAdding)
      ensures !old(isAdding) ==> idText == "" && amplitudeText == "0.50"
      ensures old(isAdding) ==> idText == old(idText) && amplitudeText == old(amplitudeText)
    {
      if !isAdding {
        idText := "";
        amplitudeText := "0.50";
      }
      isAdding := !isAdding;
    }

    method EditId(text: string)
      modifies this
      ensures idText == text && amplitudeText == old(amplitudeText) && isAdding == old(isAdding)
    {
      idText := text;
    }

    method EditAmplitude(text: string)
      modifies this
      ensures amplitudeText == text && idText == old(idText) && isAdding == old(isAdding)
    {
      amplitudeText := text;
    }

    /** Submitting; `parsedId` and `parsedAmplitude` are what the parsers
        make of the two fields. The form closes only after a successful
        add. */
    method Submit(harmonics: seq<Harmonic>, parsedId: ParsedInt, parsedAmplitude: ParsedNum)
      returns (outcome: SubmitOutcome)
      modifies this
      ensures outcome == SubmitDecision(parsedId, parsedAmplitude, harmonics)
      ensures isAdding == (old(isAdding) && !outcome.Added?)
      ensures idText == old(idText) && amplitudeText == old(amplitudeText)
    {
      outcome := SubmitDecision(parsedId, parsedAmplitude, harmonics);
      if outcome.Added? {
        isAdding := false;
      }
    }
  }
}
