# additiveXP core in Dafny

additiveXP is a browser additive synthesizer. A sound is the sum of up to 32
sine partials ("harmonics") of one fundamental frequency. Each harmonic has
an amplitude in [0, 1] and three flags:

- **locked**: the editors neither change it nor remove it;
- **muted**: it is silent;
- **soloed**: when some audible harmonic is soloed, only the soloed ones sound.

The user edits the *active set*, a list of harmonics kept sorted by id. There
are three editors: bar dragging on a 32-bar graph, a list of rows with text
fields and buttons, and an add form. The user can play the set live through
one oscillator and one gain node per harmonic, or render it offline and
export it as a 16-bit PCM WAV file.

The model has nine modules:

| module | file | models |
|---|---|---|
| `Types` | `types.dfy` | the records `Harmonic`, `AudioSettings` and `GraphDataPoint`; the constants 32 and 0.005; clamping; decimal printing for bar names |
| `HarmonicList` | `harmonic_list.dfy` | id lookup (`find`), id sets, and the "append then sort by id" step used by every editor |
| `Resolver` | `resolver.dfy` | the mute/solo rule that turns a harmonic into the gain it gets; the export guard |
| `Editor` | `editor.dfy` | the application's state updates: amplitude change, add, toggles, randomize, clear, remove, settings, the 32-slot graph view |
| `AmplitudeGraph` | `amplitude_graph.dfy` | the graph's bar heights and colours, axis ticks, and the drag controller as a class |
| `TogglesList` | `toggles_list.dfy` | the add form's checks (and its state as a class), the amplitude field's typing and blur rules, row buttons |
| `LiveGraph` | `live_graph.dfy` | the live audio graph as a class `AudioEngine` whose maps of gain targets and oscillator frequencies the effects update; pending teardown timers |
| `Render` | `render.dfy` | offline synthesis: frame count, fade envelope, the contributing harmonics, the mix, peak normalisation to 0.98, and the imperative fill/peak/scale loops |
| `Wav` | `wav.dfy` | the WAV byte layout as pure functions, its decoder and round trips, and the imperative writers over an `array<byte>` proved to produce exactly those bytes |

Conventions:

- Where the browser supplies something, the model takes it as a parameter:
  - `Math.sin` is a `wave` function;
  - `Math.random()` is a sequence of draws in [0, 1);
  - `parseInt`/`parseFloat` results are the `ParsedInt`/`ParsedNum` datatypes;
  - the mouse position becomes the raw amplitude it maps to, plus a flag
    saying whether the axis bounds are usable.
- Numbers are mathematical reals and integers.
- Web Audio nodes are reduced to the one value each carries:
  - a gain node is the target its last ramp aims at;
  - an oscillator is its frequency.
- A `setTimeout` callback is a pending `Timer` that `FireTimer` runs, in any
  order.

## Model

| member | source | states |
|---|---|---|
| Types.Inactive | App.tsx:334-337 | the placeholder for an empty graph slot has the slot's id, amplitude 0 and no flags, and is a valid harmonic for ids 1..32 |
| Types.Clamp01 | App.tsx:238 | the result lies in [0, 1]; in-range values are unchanged; negatives go to 0 and values above 1 go to 1 |
| Types.NatToDecimal | components/AmplitudeGraph.tsx:33 | the id in a bar name is printed as a non-empty string of decimal digits |
| Types.DecimalRoundTrip | components/AmplitudeGraph.tsx:33 | reading back the printed decimal gives the original number |
| Types.NatToDecimalInjective | components/AmplitudeGraph.tsx:33 | distinct ids get distinct bar names |
| HarmonicList.FindId | App.tsx:294 | `find` by id: none exactly when no element has the id; otherwise the first index holding it |
| HarmonicList.IdSetHasId | App.tsx:150 | the set of ids built from the list contains exactly the ids that occur in it |
| HarmonicList.StrictlySortedIsUnique | App.tsx:232 | a list strictly sorted by id has unique ids and is sorted |
| HarmonicList.InsertById | App.tsx:231-232 | inserting into a sorted list grows it by one and adds exactly that element |
| HarmonicList.SortById | App.tsx:232 | sorting by id keeps the length and the elements (a permutation) |
| HarmonicList.InsertSorted | App.tsx:231-232 | insertion keeps a list sorted by id |
| HarmonicList.InsertStrictlySorted | App.tsx:231-232 | inserting a harmonic whose id is absent keeps the list strictly sorted |
| HarmonicList.SameElementsSameIds | App.tsx:231-232 | two permutations of each other have the same id sets |
| HarmonicList.SortByIdCorrect | App.tsx:232 | the sort's result is sorted by id and a permutation of its input, and strictly sorted when ids are unique |
| HarmonicList.SortByIdOfSorted | App.tsx:310 | sorting a list already strictly sorted by id returns it unchanged |
| HarmonicList.InsertAtEnd | App.tsx:231-232 | an element whose id is not below any other is placed last |
| HarmonicList.AppendAndSort | App.tsx:231-233 | appending a harmonic with a new id and sorting gives a valid set one longer: the sorted insertion of that harmonic |
| Resolver.TargetGain | App.tsx:57-66 | muted gives 0; an unmuted non-soloed harmonic gives 0 while some audible solo exists; otherwise the gain is its amplitude |
| Resolver.NoSoloResolvesToUnmuted | App.tsx:59-66 | with no soloed harmonic at all, the gain is 0 when muted and the amplitude otherwise |
| Resolver.SoloSuppressesOthers | App.tsx:59-66 | one audible solo silences every non-soloed harmonic and lets every unmuted soloed one sound at its amplitude |
| Resolver.MutedSoloDoesNotCount | App.tsx:59 | solos that are muted or at zero amplitude do not switch solo mode on |
| Resolver.TargetGainBounds | App.tsx:57-66 | the gain of a valid harmonic lies between 0 and its amplitude |
| Resolver.InaudibleIsZeroGain | App.tsx:205-209 | the export guard's "inaudible" test holds exactly when the live gain is 0 |
| Resolver.ExportDecision | App.tsx:197-215 | no context: nothing; playing: refused; empty set: nothing audible; otherwise synthesis only when some harmonic is audible |
| Resolver.ExportRendersIffAudible | App.tsx:204-215 | with a context and stopped playback, export synthesizes exactly when some harmonic has positive gain |
| Editor.InitialHarmonics | App.tsx:14-17 | the initial active set is the valid one-element set holding H1 at amplitude 1 |
| Editor.SetAmplitude | App.tsx:245 | only the harmonic with the given id changes, and only in its amplitude |
| Editor.AmplitudeChange | App.tsx:237-263 | a locked harmonic is left alone; an absent id at or below the 0.005 threshold changes nothing |
| Editor.AmplitudeChangeExisting | App.tsx:242-245 | for an existing unlocked harmonic only its amplitude changes, to the clamped value |
| Editor.AmplitudeChangeActivates | App.tsx:248-259 | an absent id above the threshold is added, unflagged, in id order, at the clamped amplitude |
| Editor.AmplitudeChangePreservesValid | App.tsx:237-263 | every amplitude change keeps the active set valid (ids 1..32, unique, sorted, amplitudes in range) |
| Editor.AddViaModal | App.tsx:219-235 | a duplicate id changes nothing; otherwise exactly the new unflagged harmonic is added and the set stays sorted |
| Editor.AddViaModalPreservesValid | App.tsx:219-235 | adding keeps the active set valid and is the sorted insertion of the new harmonic |
| Editor.Toggle | App.tsx:266-282 | toggling keeps the list's length |
| Editor.ToggleFlipsOneFlag | App.tsx:266-282 | toggling flips exactly one flag of the harmonic with that id and changes nothing else |
| Editor.ToggleTwiceIsIdentity | App.tsx:266-282 | toggling the same flag twice restores the set |
| Editor.TogglePreservesValid | App.tsx:266-282 | toggles keep the active set valid |
| Editor.Filter | App.tsx:311 | filtering keeps exactly the elements that satisfy the predicate and never grows the list |
| Editor.FilterPreservesValid | App.tsx:318 | filtering a valid set gives a valid set |
| Editor.FilterIdempotent | App.tsx:318 | filtering twice by the same predicate is filtering once |
| Editor.FilterKeepsAll | App.tsx:311 | a filter that every element passes returns the list unchanged |
| Editor.FilterStrictlySorted | App.tsx:311 | filtering keeps a list strictly sorted by id |
| Editor.ClearAll | App.tsx:315-323 | clearing keeps exactly the locked harmonics |
| Editor.ClearAllProperties | App.tsx:315-323 | clearing is idempotent and keeps the active set valid |
| Editor.Remove | App.tsx:325-328 | removal keeps exactly the harmonics with other ids, so the id is gone |
| Editor.RemovePreservesValid | App.tsx:325-328 | removal keeps the active set valid |
| Editor.RemoveDropsOne | App.tsx:325-328 | removing an id present in a set with unique ids shortens it by exactly one |
| Editor.ToMapCorrect | App.tsx:331-332 | the id map has a key for exactly the ids present, and with unique ids maps each to its harmonic |
| Editor.AllGraphHarmonics | App.tsx:330-338 | the graph view always has 32 slots |
| Editor.AllGraphHarmonicsSlots | App.tsx:330-338 | slot i holds the active harmonic with id i+1 if there is one, and the inactive placeholder otherwise |
| Editor.AllGraphHarmonicsValid | App.tsx:330-338 | the 32-slot view of a valid set is itself a valid set |
| Editor.AnyPositiveOverSlots | App.tsx:340 | some graph slot has positive amplitude exactly when some active harmonic does |
| Editor.ApplySettings | App.tsx:284-286 | a partial settings update overwrites exactly the fields it supplies |
| Editor.InitialSettings | App.tsx:18-22 | the initial settings are valid: 220 Hz, 2 s and master volume 0.75 |
| Editor.DrawIndex | App.tsx:292-306 | slot i consumes the draw after those of the unlocked slots below it, so it never reads past draw i-1 |
| Editor.Redrawn | App.tsx:300-305 | a redrawn slot has the slot's id, is unlocked and unsoloed, and keeps the old mute flag of its slot |
| Editor.TakeSlot | App.tsx:293-306 | one pass of the slot loop keeps a locked slot's harmonic, otherwise consumes the next draw and pushes the redrawn entry exactly when the draw clears the threshold or the slot was active |
| Editor.RandomizeSlots | App.tsx:292-307 | the loop's list is sorted by id, keeps every locked slot, and for each unlocked slot i holds its redrawn entry exactly when its draw clears the threshold or i was active |
| Editor.RandomizedEntriesValid | App.tsx:292-307 | for a valid set and draws in [0, 1), every entry of the loop's list is a valid harmonic |
| Editor.Randomize | App.tsx:288-313 | the result is strictly sorted and valid; every locked slot is kept as it was; for each unlocked slot i, the entry with id i, unlocked, unsoloed, at draw d and with the old mute flag, is present exactly when d > 0.005, and no other entry has id i |
| AmplitudeGraph.DisplayAmplitude | components/AmplitudeGraph.tsx:23-30 | a muted bar shows 0; an unmuted, unsoloed active bar shows 0 under solo; otherwise the bar shows its amplitude |
| AmplitudeGraph.GraphData | components/AmplitudeGraph.tsx:21-41 | one point per harmonic, with name H<id>, the displayed and original amplitude and the flags |
| AmplitudeGraph.HasSoloOverSlots | components/AmplitudeGraph.tsx:19 | the graph's solo test over the 32 slots agrees with the application's solo test over the active set |
| AmplitudeGraph.DisplayMatchesResolver | components/AmplitudeGraph.tsx:19-41 | the height of each active harmonic's bar is exactly the gain the live graph gives it; an empty slot shows 0 |
| AmplitudeGraph.BarFillColor | components/AmplitudeGraph.tsx:227-240 | each colour is chosen exactly when its guard holds and no earlier one does: locked, inactive-and-zero, muted, suppressed by solo, soloed, active or positive; the fallback only for inactive negative amplitudes |
| AmplitudeGraph.BarColorMatchesHeight | components/AmplitudeGraph.tsx:227-240 | for a valid set, a bar in the muted or suppressed colour has height 0, a soloed or active one shows its full amplitude, and the fallback colour never appears |
| AmplitudeGraph.TicksFromEven | components/AmplitudeGraph.tsx:242-247 | from an even index, the ticks are the names at every second index, ending with the last one |
| AmplitudeGraph.XAxisTicksOf32 | components/AmplitudeGraph.tsx:242-247 | over 32 points the ticks are H1, H3, ..., H31, H32: 17 labels |
| AmplitudeGraph.DragController.constructor | components/AmplitudeGraph.tsx:16 | no bar is being dragged at first |
| AmplitudeGraph.DragController.MouseDownOnBar | components/AmplitudeGraph.tsx:158-173 | dragging starts only when the bounds are ready and the bar is not locked; otherwise the state is unchanged |
| AmplitudeGraph.DragController.MouseMove | components/AmplitudeGraph.tsx:175-199 | no drag or unusable bounds: nothing; dragging a locked bar: the drag ends; otherwise the clamped amplitude is emitted for the dragged id, which is never locked |
| AmplitudeGraph.DragController.MouseUp | components/AmplitudeGraph.tsx:201-205 | releasing ends any drag |
| AmplitudeGraph.SlotLockedIff | App.tsx:330-338 | the graph's slot for id i is locked exactly when the active set holds i locked |
| AmplitudeGraph.DragBar | components/AmplitudeGraph.tsx:158-205 | a press, move and release on a locked harmonic's bar leaves the active set as it was; on any other bar the application receives the clamped amplitude for that id |
| TogglesList.SubmitDecision | components/HarmonicTogglesList.tsx:82-101 | the id check (1..32), then the amplitude check ([0, 1]), then the duplicate check, each as an if-and-only-if; only when all pass is the pair added |
| TogglesList.SubmitThenAdd | components/HarmonicTogglesList.tsx:95-100 | a submit that passes the form's checks grows a valid set by exactly the new harmonic, in order |
| TogglesList.AmplitudeInputChange | components/HarmonicTogglesList.tsx:104-111 | the handler forwards a value exactly when the text parses to a number in [0, 1], and forwards that number; the program never calls it, since its only call site is commented out at components/HarmonicTogglesList.tsx:217 |
| TogglesList.BlurCorrection | components/HarmonicTogglesList.tsx:114-119 | the corrected value is in [0, 1]: 0 for unparsable text, otherwise the clamped number |
| TogglesList.AmplitudeInputBlur | components/HarmonicTogglesList.tsx:113-124 | a blur writes only the corrected value |
| TogglesList.BlurSilentIff | components/HarmonicTogglesList.tsx:121 | a blur writes nothing exactly when the text is the current amplitude and that amplitude is in range |
| TogglesList.BlurIdempotent | components/HarmonicTogglesList.tsx:113-124 | when the blur's write has been applied, blurring the same text again writes nothing |
| TogglesList.ApplyRowEvent | components/HarmonicTogglesList.tsx:223-262 | a disabled control (amplitude field or remove on a locked row) leaves the set unchanged |
| TogglesList.LockedRowKeepsHarmonic | components/HarmonicTogglesList.tsx:223-262 | every row event keeps a valid set valid; a locked row can be neither re-valued nor removed |
| TogglesList.AddHarmonicForm.constructor | components/HarmonicTogglesList.tsx:70-72 | the form starts closed with an empty id and amplitude "0.50" |
| TogglesList.AddHarmonicForm.ToggleAddForm | components/HarmonicTogglesList.tsx:74-80 | the button flips the form open or closed, and opening resets both fields |
| TogglesList.AddHarmonicForm.EditId | components/HarmonicTogglesList.tsx:71 | editing the id field changes only that field |
| TogglesList.AddHarmonicForm.EditAmplitude | components/HarmonicTogglesList.tsx:72 | editing the amplitude field changes only that field |
| TogglesList.AddHarmonicForm.Submit | components/HarmonicTogglesList.tsx:82-102 | the outcome is the submit decision, and the form closes exactly on a successful add |
| LiveGraph.Except | App.tsx:164-168 | the timers are scheduled for exactly the node ids not in the given set, without repeats |
| LiveGraph.Teardowns | App.tsx:93-102 | one teardown timer per id, in order |
| LiveGraph.Fade | App.tsx:158-159 | fading ramps exactly the listed nodes to 0 and keeps the key set |
| LiveGraph.PlayTargetsSpec | App.tsx:152-154 | updating every active harmonic gives a node for each old or active id; each active one aims at its resolved gain; other nodes keep their targets |
| LiveGraph.PlayFrequenciesSpec | App.tsx:68-80 | existing oscillators keep their frequency; a new one gets fundamental * id |
| LiveGraph.ReconcileTargets | App.tsx:145-169 | after a playing reconcile, active ids aim at their resolved gain, stale ids at 0, and no node is lost |
| LiveGraph.AudioEngine.constructor | App.tsx:25-28 | no context, no nodes, no timers, not playing |
| LiveGraph.AudioEngine.Mount | App.tsx:30-53 | the first mount creates the context and sets the master gain to the volume, a later one keeps them; the cleanup closes over the playing flag of that render |
| LiveGraph.AudioEngine.CreateOrUpdateNode | App.tsx:56-86 | the harmonic's gain node aims at its resolved gain; an oscillator at fundamental * id is created only for a new id |
| LiveGraph.AudioEngine.RemoveNode | App.tsx:88-104 | an existing node is ramped to 0 and one teardown timer is queued; an absent id changes nothing |
| LiveGraph.AudioEngine.FireTimer | App.tsx:93-102 | the timer leaves the queue; a single teardown deletes that id's gain node and oscillator, even when the harmonic has become active again since; the unmount teardown deletes all |
| LiveGraph.AudioEngine.UpdateAll | App.tsx:152-154 | every active harmonic's node is created or updated as by the pure fold |
| LiveGraph.AudioEngine.StartSoundEngine | App.tsx:106-124 | with no context or an empty set, playback stops and no node changes; otherwise the master gain aims at the volume, every node is created or updated, only active ids are added to the creation order, and playback starts |
| LiveGraph.AudioEngine.StopSoundEngine | App.tsx:126-134 | with a context, every node ramps to 0 and playback stops; without one nothing changes |
| LiveGraph.AudioEngine.PlaybackEffect | App.tsx:136-142 | playing with harmonics: the whole new state of a start (master gain, node targets, oscillators, creation order, flag, or a refused start without a context); otherwise the whole new state of a stop (every node ramped to 0 with a context, nothing without one) |
| LiveGraph.AudioEngine.MuteListed | App.tsx:155-161 | while stopped, every listed harmonic's node ramps to 0 |
| LiveGraph.AudioEngine.RemoveStale | App.tsx:164-168 | every node whose id is not current ramps to 0 and gets one teardown timer, in map insertion order |
| LiveGraph.AudioEngine.Reconcile | App.tsx:145-169 | playing: active nodes aim at their gains, stale ones at 0, and only active ids join the creation order; stopped: every node ramps to 0 and the order is kept; in both, a teardown is queued for each stale id; nothing happens without a context |
| LiveGraph.AudioEngine.SetFundamental | App.tsx:171-179 | every existing oscillator retunes to new fundamental * id |
| LiveGraph.AudioEngine.SetMasterVolume | App.tsx:181-186 | with a context, the master gain aims at the new volume |
| LiveGraph.AudioEngine.Unmount | App.tsx:37-53 | when the flag captured at mount holds, every node ramps to 0 and a teardown-all timer is queued; otherwise no node changes; the context is closed either way |
| LiveGraph.PlayThenUnmount | App.tsx:23-53 | after mount, play and the playback effect, the unmount finds the captured flag false even while playing: the gains are not ramped down, no timer is queued, and only the context is closed |
| LiveGraph.AudioEngine.HandlePlay | App.tsx:188-191 | play is refused exactly for an empty set; otherwise playing becomes true |
| LiveGraph.AudioEngine.HandleStop | App.tsx:193-195 | playing becomes false and nothing else changes |
| Render.NumFrames | services/audioService.ts:11 | the frame count is the floor of sample rate * duration |
| Render.FadeSamples | services/audioService.ts:15 | the fade length is the floor of 5 ms of samples |
| Render.Envelope | services/audioService.ts:37-44 | the envelope lies in [0, 1]; it is 1 exactly on the flat part; on the fades it is i / fade and (n-1-i) / fade |
| Render.EnvelopeShape | services/audioService.ts:37-44 | without fades the envelope is 1 everywhere; with fades it starts and ends at 0, rises strictly on the fade-in and falls strictly on the fade-out |
| Render.ContributingAsWritten | services/audioService.ts:17-24 | the renderer's own solo test: any soloed flag, however muted or silent, restricts the mix to unmuted soloed harmonics |
| Render.Contributing | services/audioService.ts:17-24 | corrected selection: unmuted soloed harmonics when an audible solo exists, otherwise all unmuted ones |
| Render.Select | services/audioService.ts:20-24 | the selection keeps exactly the unmuted harmonics, and only soloed ones in solo mode |
| Render.SelectMixIsResolved | services/audioService.ts:29-35 | mixing the selected harmonics equals mixing every harmonic at its resolved live gain |
| Render.MixMatchesResolver | services/audioService.ts:17-35 | with the corrected selection, the rendered mix equals the sum of live gains times the wave |
| Render.ContributesIffAudible | services/audioService.ts:17-31 | a harmonic adds to the corrected mix exactly when its live gain is positive |
| Render.MixOfSilent | services/audioService.ts:31 | a mix of harmonics none of which has a positive amplitude is 0 |
| Render.Frames | services/audioService.ts:26-46 | one sample per frame of the floored frame count, none when it is negative |
| Render.RawSamples | services/audioService.ts:17-46 | the renderer's raw samples, with its own solo test, one per frame |
| Render.CorrectedRawSamples | services/audioService.ts:17-46 | the raw samples with the corrected solo test, one per frame |
| Render.RenderAgreesWithoutInaudibleSolo | services/audioService.ts:17-24 | when every soloed flag belongs to an audible solo (including when none is set), the renderer's selection and samples are the corrected ones |
| Render.CorrectedRenderIsResolved | services/audioService.ts:26-46 | every corrected raw sample is the sum of the live gains times the wave, times the envelope and the master volume |
| Render.SilentFrames | services/audioService.ts:26-59 | frames mixed from harmonics none of which has a positive amplitude normalise to silence |
| Render.Peak | services/audioService.ts:48-53 | the peak is non-negative |
| Render.PeakBounds | services/audioService.ts:48-53 | the peak bounds every magnitude and is attained unless it is 0 |
| Render.PeakOfSilence | services/audioService.ts:48-53 | the peak of silence is 0 |
| Render.NormalizeBound | services/audioService.ts:54-59 | a signal at or below 0.98 is left alone; a louder one is scaled so that every magnitude is at most 0.98 and its loudest samples reach exactly 0.98 |
| Render.NormalizedPeak | services/audioService.ts:54-59 | a loud signal has peak exactly 0.98 after normalisation |
| Render.SilentRender | services/audioService.ts:17-59 | when none of the harmonics the renderer selects has a positive amplitude, every rendered sample is 0 |
| Render.FirstFrameSilent | services/audioService.ts:37-41 | with fades and a non-empty fade, the first rendered sample is 0 |
| Render.FindPeak | services/audioService.ts:48-53 | the peak loop returns the largest magnitude in the buffer |
| Render.ScaleInPlace | services/audioService.ts:54-59 | the scaling loop multiplies every sample by the gain in place |
| Render.FillFrames | services/audioService.ts:26-46 | the fill loop writes a fresh buffer holding exactly the frames of the harmonics it is given |
| Render.SynthesizeSound | services/audioService.ts:4-62 | a length below one frame is an error case; otherwise the buffer has one sample per frame and holds the normalised raw render with the renderer's own solo test |
| Render.MutedSoloSilencesRender | services/audioService.ts:17-24 | as written, a muted solo makes the whole render silent for an export that the guard lets through, while the corrected mix is H1's wave |
| Render.SilentSoloSilencesRender | services/audioService.ts:17-24 | as written, a solo at amplitude 0 makes the whole render silent for an export that the guard lets through, while the corrected mix is half H1's wave |
| Wav.LE16 | services/audioService.ts:95 | a 16-bit field is two bytes |
| Wav.LE32 | services/audioService.ts:91 | a 32-bit field is four bytes |
| Wav.U16RoundTrip | services/audioService.ts:95 | reading a written 16-bit field gives the value modulo 2^16 |
| Wav.U32RoundTrip | services/audioService.ts:91 | reading a written 32-bit field gives the value modulo 2^32 |
| Wav.S16RoundTrip | services/audioService.ts:73 | a signed 16-bit value in range is read back unchanged |
| Wav.U16Inverse | services/audioService.ts:95 | writing the value read from two bytes gives those bytes back |
| Wav.U32Inverse | services/audioService.ts:91 | writing the value read from four bytes gives those bytes back |
| Wav.Ascii | services/audioService.ts:64-68 | a string is written one byte per character, the low 8 bits of its code |
| Wav.HeaderFor | services/audioService.ts:79-102 | the RIFF size is the file length minus 8 and the data size is frames * channels * 2 |
| Wav.EncodeHeader | services/audioService.ts:90-102 | the header is 44 bytes |
| Wav.HeaderLayout | services/audioService.ts:90-102 | each tag and field sits at its fixed offset in the 44 bytes |
| Wav.DecodeHeader | services/audioService.ts:90-102 | a header decodes exactly when the four tags are in place, and a decoded header is in range |
| Wav.HeaderRoundTrip | services/audioService.ts:90-102 | decoding an encoded in-range header, whatever follows it, gives it back |
| Wav.HeaderDecodeEncode | services/audioService.ts:90-102 | re-encoding a decoded header gives the same 44 bytes |
| Wav.Trunc | services/audioService.ts:73 | the conversion in `setInt16` truncates towards zero |
| Wav.ClampUnit | services/audioService.ts:72 | the clamp lands in [-1, 1] and keeps values already there |
| Wav.Pcm16 | services/audioService.ts:72-73 | the mono code is a signed 16-bit value with the sample's sign; full scale is 32767 and -32768 |
| Wav.MonoPayload | services/audioService.ts:70-75 | the mono payload has two bytes per sample |
| Wav.MonoPayloadAt | services/audioService.ts:70-75 | sample i sits at bytes 2i and 2i+1 |
| Wav.FrameBytes | services/audioService.ts:108-112 | a frame has two bytes per channel |
| Wav.InterleavedPayload | services/audioService.ts:107-113 | the interleaved payload has frames * channels * 2 bytes |
| Wav.FrameBytesAt | services/audioService.ts:108-112 | channel k's sample sits at bytes 2k and 2k+1 of its frame |
| Wav.InterleavedAt | services/audioService.ts:107-113 | channel k of frame i sits at byte 2(i * channels + k) |
| Wav.WavBytes | services/audioService.ts:77-117 | the file is 44 + frames * channels * 2 bytes |
| Wav.RiffSizeIsLengthMinus8 | services/audioService.ts:79-91 | the RIFF size field holds the file length minus 8 |
| Wav.MonoHeaderDecodes | services/audioService.ts:90-105 | a mono file's header decodes to PCM: one channel, the sample rate, 16 bits and the right sizes |
| Wav.MonoSampleDecodes | services/audioService.ts:104-105 | each mono sample reads back as its clamped 16-bit code |
| Wav.InterleavedSampleDecodes | services/audioService.ts:106-114 | each multichannel sample reads back, at its interleaved position, as its unclamped code modulo 2^16 |
| Wav.SampleCodes | services/audioService.ts:73-110 | the two sample conversions agree on [-1, 1] |
| Wav.InterleavedOverflowWraps | services/audioService.ts:110 | an out-of-range multichannel sample wraps: 1.5 is stored as -16386 where the mono path stores 32767 |
| Wav.SplicedThen | services/audioService.ts:90-102 | two adjacent writes make one write of the concatenated bytes |
| Wav.SplicedWhole | services/audioService.ts:77-117 | a write that covers the whole buffer determines it |
| Wav.WriteString | services/audioService.ts:64-68 | the loop writes the string's bytes at the offset and nothing else |
| Wav.SetUint16 | services/audioService.ts:95 | the two little-endian bytes of the value are written at the offset and nothing else |
| Wav.SetUint32 | services/audioService.ts:91 | the four little-endian bytes of the value are written at the offset and nothing else |
| Wav.SetInt16 | services/audioService.ts:73 | the truncated value is written as two little-endian bytes at the offset and nothing else |
| Wav.FloatTo16BitPCM | services/audioService.ts:70-75 | the loop writes exactly the mono payload at the offset and nothing else |
| Wav.WriteFrame | services/audioService.ts:108-112 | the inner loop writes exactly one frame's bytes |
| Wav.WriteInterleaved | services/audioService.ts:106-114 | the nested loop writes exactly the interleaved payload |
| Wav.FrameFits | services/audioService.ts:107-111 | frame i's bytes end where frame i+1's begin, within the payload |
| Wav.HeaderChunks | services/audioService.ts:90-102 | the header is the RIFF chunk header, the format chunk and the data chunk header in order |
| Wav.WriteRiffChunkHeader | services/audioService.ts:90-92 | the three writes produce exactly the RIFF chunk header |
| Wav.WriteFmtChunk | services/audioService.ts:93-100 | the eight writes produce exactly the format chunk |
| Wav.WriteDataChunkHeader | services/audioService.ts:101-102 | the two writes produce exactly the data chunk header |
| Wav.AudioBufferToWavBlob | services/audioService.ts:77-117 | a freshly allocated buffer, written step by step, equals the specified WAV file, byte for byte |

## Left out

- Web Audio scheduling is left out: `currentTime`, `cancelScheduledValues`,
  the 10 ms ramp shapes (`RAMP_TIME`, App.tsx:10), `connect`/`disconnect`, oscillator `start`/`stop`,
  and the context's `state`/`resume`. A gain node is modelled only as the
  target of its last ramp.
- Timer delays (ramp + 50 ms and ramp + 100 ms) are left out. Pending timers
  may fire in any order. In the source the delays make removal teardowns
  fire before the unmount teardown.
- `Math.sin`, `Math.PI` and `Math.random` are parameters (`wave`, `draws`).
- Floating point is left out:
  - Float32 storage of samples;
  - rounding;
  - NaN and infinities, including NaN through `Math.max(-1, Math.min(1, x))`.
- `parseInt`/`parseFloat` string parsing is left out; the model starts from
  their results. So are `alert` messages, `console` output, the SVG/DOM
  geometry behind the axis bounds, and event-listener registration.
- JSX rendering, CSS classes, the tooltip and the `GlobalControls` component
  are presentation only.
- `exportWav` (services/audioService.ts:120-159) is file-system and
  download I/O; only the bytes it saves are modelled.
- The `Blob` wrapper is left out: `Wav.AudioBufferToWavBlob` returns the
  byte array.
- `Wav.Ascii`: `charCodeAt` yields UTF-16 code units while Dafny characters
  are code points, so tags containing characters beyond U+FFFF are outside
  the model. All the tags used are ASCII.
- The sample rate is modelled as an integer. The 32-bit fields take their
  values modulo 2^32, so the model covers files over 4 GiB only in that sense.
- `Render.SynthesizeSound`: `createBuffer` rejecting zero frames is modelled
  as the `InvalidLength` result rather than an exception.
- `LiveGraph.AudioEngine.Unmount`: `close()` is modelled as a flag. The
  source keeps `audioContextRef` set after closing, and so does the model
  (`hasContext` stays true).

## Findings

| source | as written | input that shows it | evidently intended | confidence | as-written member | corrected member |
|---|---|---|---|---|---|---|
| services/audioService.ts:17 | solo mode in the renderer starts when any harmonic has the solo flag, even a muted or silent one; the export guard (App.tsx:205) and the live graph (App.tsx:59) count only unmuted solos with positive amplitude | H1 at 1.0, and H2 at 0.5, muted and soloed: the guard finds H1 audible, yet the renderer keeps only unmuted soloed harmonics (none) and exports silence; the same happens for H2 soloed at amplitude 0 | the renderer uses the same solo test as the live graph and the export guard | not executed | Render.ContributingAsWritten, Render.MutedSoloSilencesRender | Render.Contributing, Render.MixMatchesResolver, Render.CorrectedRenderIsResolved |

Behaviours of the source that the model reproduces as they are:

- The multichannel WAV path writes samples unclamped. A sample outside
  [-1, 1] wraps modulo 2^16 (`Wav.InterleavedOverflowWraps`). The renderer
  produces mono only, so exports never reach this path.
- The unmount cleanup closes over the `isPlaying` of the first render,
  which is always false (App.tsx:23; the effect's dependency list is empty,
  App.tsx:53). So in the program the unmount never ramps the gains down or
  schedules the full teardown: it only closes the context
  (`LiveGraph.PlayThenUnmount`). `LiveGraph.AudioEngine.Unmount` still
  models both branches, driven by the captured flag.
- A harmonic removed and re-added within the 60 ms teardown delay
  (`RAMP_TIME * 1000 + 50`, App.tsx:102) gets no new node: the update reuses
  the old node still in the map (App.tsx:69), and the pending timer then
  disconnects and deletes it (App.tsx:93-101), so the harmonic goes silent
  while it is active (`LiveGraph.AudioEngine.FireTimer`).
