/** The bookkeeping App.tsx keeps for live playback: one gain node and one
    oscillator per harmonic id, a master gain, and the deferred teardowns
    scheduled with `setTimeout`. Every Web Audio call is replaced by the
    state it leaves behind: a gain node is its last scheduled target, an
    oscillator its last scheduled frequency. A pending teardown is an
    explicit `Timer`; `FireTimer` runs one of them, in any order, since the
    delays race against later events. */
module LiveGraph {
  import opened Types
  import opened HarmonicList
  import opened Resolver

  /** A `setTimeout` callback not yet run: the teardown of one node,
      scheduled when that node is removed, or of every node, scheduled when
      the application unmounts while playing. */
  datatype Timer = TeardownOne(id: int) | TeardownAll

  /** Gain targets after `createOrUpdateHarmonicNode` has run for each
      harmonic of `todo` in turn, resolved against the set `ctx`. */
  function PlayTargets(m: map<int, real>, todo: seq<Harmonic>, ctx: seq<Harmonic>): map<int, real>
    decreases |todo|
  {
    if todo == [] then m
    else PlayTargets(m, todo[..|todo| - 1], ctx)[todo[|todo| - 1].id := TargetGain(todo[|todo| - 1], ctx)]
  }

  /** Oscillator frequencies after the same pass: an id without a node gets
      a new oscillator at `fundamental * id`; existing ones keep theirs. */
  function PlayFrequencies(f: map<int, real>, todo: seq<Harmonic>, fundamental: real): map<int, real>
    decreases |todo|
  {
    if todo == [] then f
    else WithOscillator(PlayFrequencies(f, todo[..|todo| - 1], fundamental), todo[|todo| - 1].id, fundamental)
  }

  /** The oscillators after one node creation check for `id`. */
  function WithOscillator(f: map<int, real>, id: int, fundamental: real): map<int, real> {
    if id in f then f else f[id := Frequency(fundamental, id)]
  }

  /** The frequency an oscillator for harmonic `id` is scheduled at. */
  function Frequency(fundamental: real, id: int): real {
    fundamental * id as real
  }

  lemma PlayFrequenciesStep(f: map<int, real>, todo: seq<Harmonic>, i: int, fundamental: real)
    requires 0 <= i < |todo|
    ensures PlayFrequencies(f, todo[..i + 1], fundamental) ==
              WithOscillator(PlayFrequencies(f, todo[..i], fundamental), todo[i].id, fundamental)
  {
    assert todo[..i + 1][..i] == todo[..i];
  }

  /** The gains of `ids` ramped to 0, the others untouched. */
  function Fade(m: map<int, real>, ids: set<int>): (r: map<int, real>)
    ensures r.Keys == m.Keys
  {
    map id | id in m :: if id in ids then 0.0 else m[id]
  }

  lemma FadeStep(m: map<int, real>, done: set<int>, id: int)
    requires id in m
    ensures Fade(m, done)[id := 0.0] == Fade(m, done + {id})
  {
  }

  lemma ExceptStep(order: seq<int>, k: int, ids: set<int>)
    requires 0 <= k < |order|
    ensures forall x :: x in order[..k + 1] <==> x in order[..k] || x == order[k]
    ensures Teardowns(Except(order[..k + 1], ids)) ==
              Teardowns(Except(order[..k], ids)) + (if order[k] in ids then [] else [TeardownOne(order[k])])
  {
    assert order[..k + 1][..k] == order[..k];
    assert order[..k + 1] == order[..k] + [order[k]];
  }

  lemma SameMembers(done: set<int>, order: seq<int>, m: map<int, real>, ids: set<int>)
    requires forall x :: x in done <==> x in order && x !in ids
    requires forall x :: x in order <==> x in m
    ensures done == m.Keys - ids
  {
    forall x ensures x in done <==> x in m.Keys - ids {
      assert x in m.Keys <==> x in m;
    }
  }

  predicate Distinct(order: seq<int>) {
    forall i, j :: 0 <= i < j < |order| ==> order[i] != order[j]
  }

  /** The keys of `order` outside `ids`, in their order. */
  function Except(order: seq<int>, ids: set<int>): (r: seq<int>)
    ensures forall x :: x in r <==> x in order && x !in ids
    ensures Distinct(order) ==> Distinct(r)
    ensures |r| <= |order|
    decreases |order|
  {
    if order == [] then []
    else
      var init := Except(order[..|order| - 1], ids);
      var last := order[|order| - 1];
      assert forall x :: x in order[..|order| - 1] ==> x in order;
      assert Distinct(order) ==> last !in order[..|order| - 1];
      if last in ids then init else init + [last]
  }

  /** The teardown timers `removeHarmonicNode` schedules for `ids`, in turn. */
  function Teardowns(ids: seq<int>): (r: seq<Timer>)
    ensures |r| == |ids|
    ensures forall k :: 0 <= k < |ids| ==> r[k] == TeardownOne(ids[k])
  {
    seq(|ids|, k requires 0 <= k < |ids| => TeardownOne(ids[k]))
  }

  lemma IdSetSnoc(todo: seq<Harmonic>)
    requires |todo| > 0
    ensures IdSet(todo) == IdSet(todo[..|todo| - 1]) + {todo[|todo| - 1].id}
  {
    var init := todo[..|todo| - 1];
    forall id | id in IdSet(todo) ensures id in IdSet(init) + {todo[|todo| - 1].id} {
      var i :| 0 <= i < |todo| && todo[i].id == id;
      if i < |todo| - 1 {
        assert init[i].id == id;
      }
    }
    forall id | id in IdSet(init) ensures id in IdSet(todo) {
      var i :| 0 <= i < |init| && init[i].id == id;
      assert todo[i].id == id;
    }
  }

  /** With unique ids, one pass gives every harmonic of the set a node whose
      gain is its resolved target, and leaves every other node as it was. */
  lemma {:induction false} PlayTargetsSpec(m: map<int, real>, todo: seq<Harmonic>, ctx: seq<Harmonic>)
    requires UniqueIds(todo)
    ensures PlayTargets(m, todo, ctx).Keys == m.Keys + IdSet(todo)
    ensures forall k :: 0 <= k < |todo| ==> PlayTargets(m, todo, ctx)[todo[k].id] == TargetGain(todo[k], ctx)
    ensures forall id :: id in m && id !in IdSet(todo) ==> PlayTargets(m, todo, ctx)[id] == m[id]
  {
    if todo != [] {
      var init := todo[..|todo| - 1];
      var last := todo[|todo| - 1];
      PlayTargetsSpec(m, init, ctx);
      IdSetSnoc(todo);
      forall k | 0 <= k < |todo| ensures PlayTargets(m, todo, ctx)[todo[k].id] == TargetGain(todo[k], ctx) {
        if k < |todo| - 1 {
          assert init[k] == todo[k];
          assert todo[k].id != last.id;
        }
      }
    }
  }

  /** One pass creates an oscillator at `fundamental * id` for exactly the
      ids that had none, and retunes none of the existing ones. */
  lemma {:induction false} PlayFrequenciesSpec(f: map<int, real>, todo: seq<Harmonic>, fundamental: real)
    ensures PlayFrequencies(f, todo, fundamental).Keys == f.Keys + IdSet(todo)
    ensures forall id :: id in f ==> PlayFrequencies(f, todo, fundamental)[id] == f[id]
    ensures forall id :: id in IdSet(todo) && id !in f ==>
              PlayFrequencies(f, todo, fundamental)[id] == Frequency(fundamental, id)
  {
    if todo != [] {
      PlayFrequenciesSpec(f, todo[..|todo| - 1], fundamental);
      IdSetSnoc(todo);
    }
  }

  /** The gain targets a playing reconcile leaves: every harmonic of the set
      at its resolved target, every node whose harmonic left the set ramped
      to 0, and no other node. */
  lemma ReconcileTargets(m: map<int, real>, active: seq<Harmonic>)
    requires UniqueIds(active)
    ensures var r := Fade(PlayTargets(m, active, active), m.Keys - IdSet(active));
      r.Keys == m.Keys + IdSet(active) &&
      (forall k :: 0 <= k < |active| ==> r[active[k].id] == TargetGain(active[k], active)) &&
      (forall id :: id in m && id !in IdSet(active) ==> r[id] == 0.0)
  {
    PlayTargetsSpec(m, active, active);
    forall k | 0 <= k < |active| ensures active[k].id in IdSet(active) {
    }
  }

  class AudioEngine {
    /** The audio context and master gain node exist. */
    var hasContext: bool
    /** The context has been closed on unmount. */
    var closed: bool
    /** The master gain's scheduled target. */
    var masterTarget: real
    /** Gain node per harmonic id, as its last scheduled target. */
    var gainTargets: map<int, real>
    /** The ids of the gain nodes in the order they were created, the order
        in which the node map is iterated. */
    var keyOrder: seq<int>
    /** Oscillator per harmonic id, as its scheduled frequency. */
    var frequencies: map<int, real>
    /** Teardowns scheduled and not yet run. */
    var pending: seq<Timer>
    /** The playing flag of the application state. */
    var isPlaying: bool
    /** The playing flag the unmount cleanup closed over when the mount
        effect ran. */
    var playingAtMount: bool

    /** Gain nodes and oscillators are created and torn down together, and
        the creation order lists each node once. */
    ghost predicate Valid()
      reads this
    {
      gainTargets.Keys == frequencies.Keys &&
      Distinct(keyOrder) && (forall id :: id in keyOrder <==> id in gainTargets)
    }

    constructor ()
      ensures Valid() && !hasContext && !closed && !isPlaying && !playingAtMount
      ensures gainTargets == map[] && frequencies == map[] && keyOrder == [] && pending == []
    {
      hasContext := false;
      closed := false;
      masterTarget := 0.0;
      gainTargets := map[];
      keyOrder := [];
      frequencies := map[];
      pending := [];
      isPlaying := false;
      playingAtMount := false;
    }

    /** The mount effect: the context and the master gain, at the current
        volume, are created once, and the cleanup closes over the playing
        flag of this render. */
    method Mount(masterVolume: real)
      requires Valid()
      modifies this
      ensures Valid() && hasContext
      ensures masterTarget == if old(hasContext) then old(masterTarget) else masterVolume
      ensures playingAtMount == old(isPlaying)
      ensures gainTargets == old(gainTargets) && frequencies == old(frequencies) && keyOrder == old(keyOrder)
      ensures pending == old(pending) && isPlaying == old(isPlaying) && closed == old(closed)
    {
      if !hasContext {
        hasContext := true;
        masterTarget := masterVolume;
      }
      playingAtMount := isPlaying;
    }

    /** `createOrUpdateHarmonicNode`: a new id gets a gain node and an
        oscillator at `fundamental * id`; either way its gain is ramped to
        the resolved target. */
    method CreateOrUpdateNode(h: Harmonic, active: seq<Harmonic>, fundamental: real)
      requires Valid()
      modifies this
      ensures Valid()
      ensures gainTargets == old(gainTargets)[h.id := TargetGain(h, active)]
      ensures frequencies == WithOscillator(old(frequencies), h.id, fundamental)
      ensures keyOrder == if h.id in old(gainTargets) then old(keyOrder) else old(keyOrder) + [h.id]
      ensures hasContext == old(hasContext) && closed == old(closed) && masterTarget == old(masterTarget)
      ensures playingAtMount == old(playingAtMount)
      ensures pending == old(pending) && isPlaying == old(isPlaying)
    {
      var targetGainValue := TargetGain(h, active);
      if h.id !in gainTargets {
        keyOrder := keyOrder + [h.id];
        frequencies := frequencies[h.id := Frequency(fundamental, h.id)];
      }
      gainTargets := gainTargets[h.id := targetGainValue];
    }

    /** `removeHarmonicNode`: an existing node is ramped to 0 and its
        teardown scheduled; the node itself stays until the timer runs. */
    method RemoveNode(id: int)
      requires Valid()
      modifies this
      ensures Valid()
      ensures id in old(gainTargets) ==>
                gainTargets == old(gainTargets)[id := 0.0] && pending == old(pending) + [TeardownOne(id)]
      ensures id !in old(gainTargets) ==> gainTargets == old(gainTargets) && pending == old(pending)
      ensures frequencies == old(frequencies) && keyOrder == old(keyOrder)
      ensures hasContext == old(hasContext) && closed == old(closed) && masterTarget == old(masterTarget)
      ensures playingAtMount == old(playingAtMount)
      ensures isPlaying == old(isPlaying)
    {
      if id in gainTargets {
        gainTargets := gainTargets[id := 0.0];
        pending := pending + [TeardownOne(id)];
      }
    }

    /** Runs the `k`th pending timer: one teardown deletes that id from both
        maps, the unmount teardown empties them. */
    method FireTimer(k: nat)
      requires Valid() && k < |pending|
      modifies this
      ensures Valid()
      ensures pending == old(pending[..k] + pending[k + 1..])
      ensures old(pending[k]).TeardownOne? ==>
                gainTargets == old(gainTargets) - {old(pending[k]).id} &&
                frequencies == old(frequencies) - {old(pending[k]).id} &&
                keyOrder == Except(old(keyOrder), {old(pending[k]).id})
      ensures old(pending[k]).TeardownAll? ==> gainTargets == map[] && frequencies == map[] && keyOrder == []
      ensures hasContext == old(hasContext) && closed == old(closed) && masterTarget == old(masterTarget)
      ensures playingAtMount == old(playingAtMount)
      ensures isPlaying == old(isPlaying)
    {
      var t := pending[k];
      pending := pending[..k] + pending[k + 1..];
      match t
      case TeardownOne(id) =>
        gainTargets := gainTargets - {id};
        frequencies := frequencies - {id};
        keyOrder := Except(keyOrder, {id});
      case TeardownAll =>
        gainTargets := map[];
        frequencies := map[];
        keyOrder := [];
    }

    /** One `createOrUpdateHarmonicNode` per harmonic of `active`, in order. */
    method UpdateAll(active: seq<Harmonic>, fundamental: real)
      requires Valid()
      modifies this
      ensures Valid()
      ensures gainTargets == PlayTargets(old(gainTargets), active, active)
      ensures frequencies == PlayFrequencies(old(frequencies), active, fundamental)
      ensures forall ids :: IdSet(active) <= ids ==> Except(keyOrder, ids) == Except(old(keyOrder), ids)
      ensures hasContext == old(hasContext) && closed == old(closed) && masterTarget == old(masterTarget)
      ensures playingAtMount == old(playingAtMount)
      ensures pending == old(pending) && isPlaying == old(isPlaying)
    {
      for i := 0 to |active|
        invariant Valid()
        invariant gainTargets == PlayTargets(old(gainTargets), active[..i], active)
        invariant frequencies == PlayFrequencies(old(frequencies), active[..i], fundamental)
        invariant forall ids :: IdSet(active) <= ids ==> Except(keyOrder, ids) == Except(old(keyOrder), ids)
        invariant hasContext == old(hasContext) && closed == old(closed) && masterTarget == old(masterTarget)
        invariant playingAtMount == old(playingAtMount)
        invariant pending == old(pending) && isPlaying == old(isPlaying)
      {
        assert active[..i + 1][..i] == active[..i];
        PlayFrequenciesStep(old(frequencies), active, i, fundamental);
        ghost var before := keyOrder;
        CreateOrUpdateNode(active[i], active, fundamental);
        forall ids | IdSet(active) <= ids ensures Except(keyOrder, ids) == Except(old(keyOrder), ids) {
          if keyOrder != before {
            assert active[i].id in IdSet(active);
            assert keyOrder[..|keyOrder| - 1] == before;
          }
        }
      }
      assert active[..|active|] == active;
    }

    /** `startSoundEngine`: without a context or harmonics playback is
        refused; otherwise the master gain is ramped to the volume, every
        harmonic's node created or updated, and playback flagged. */
    method StartSoundEngine(active: seq<Harmonic>, masterVolume: real, fundamental: real)
      requires Valid()
      modifies this
      ensures Valid()
      ensures !old(hasContext) || |active| == 0 ==>
                !isPlaying && masterTarget == old(masterTarget) && keyOrder == old(keyOrder) &&
                gainTargets == old(gainTargets) && frequencies == old(frequencies)
      ensures old(hasContext) && |active| > 0 ==>
                isPlaying && masterTarget == masterVolume &&
                gainTargets == PlayTargets(old(gainTargets), active, active) &&
                frequencies == PlayFrequencies(old(frequencies), active, fundamental)
      ensures old(hasContext) && |active| > 0 ==>
                forall ids :: IdSet(active) <= ids ==> Except(keyOrder, ids) == Except(old(keyOrder), ids)
      ensures hasContext == old(hasContext) && closed == old(closed) && pending == old(pending)
      ensures playingAtMount == old(playingAtMount)
    {
      if !hasContext || |active| == 0 {
        isPlaying := false;
        return;
      }
      masterTarget := masterVolume;
      UpdateAll(active, fundamental);
      isPlaying := true;
    }

    /** `stopSoundEngine`: with a context, every gain is ramped to 0 and
        playback unflagged; without one nothing happens. */
    method StopSoundEngine()
      requires Valid()
      modifies this
      ensures Valid()
      ensures old(hasContext) ==> gainTargets == Fade(old(gainTargets), old(gainTargets).Keys) && !isPlaying
      ensures !old(hasContext) ==> gainTargets == old(gainTargets) && isPlaying == old(isPlaying)
      ensures frequencies == old(frequencies) && masterTarget == old(masterTarget) && keyOrder == old(keyOrder)
      ensures hasContext == old(hasContext) && closed == old(closed) && pending == old(pending)
      ensures playingAtMount == old(playingAtMount)
    {
      if !hasContext {
        return;
      }
      gainTargets := Fade(gainTargets, gainTargets.Keys);
      isPlaying := false;
    }

    /** The playback effect: start while playing with harmonics, stop
        otherwise. */
    method PlaybackEffect(active: seq<Harmonic>, masterVolume: real, fundamental: real)
      requires Valid()
      modifies this
      ensures Valid()
      // started: as "StartSoundEngine"
      ensures old(isPlaying) && |active| > 0 && !old(hasContext) ==>
                !isPlaying && masterTarget == old(masterTarget) && keyOrder == old(keyOrder) &&
                gainTargets == old(gainTargets) && frequencies == old(frequencies)
      ensures old(isPlaying) && |active| > 0 && old(hasContext) ==>
                isPlaying && masterTarget == masterVolume &&
                gainTargets == PlayTargets(old(gainTargets), active, active) &&
                frequencies == PlayFrequencies(old(frequencies), active, fundamental) &&
                forall ids :: IdSet(active) <= ids ==> Except(keyOrder, ids) == Except(old(keyOrder), ids)
      // stopped: as "StopSoundEngine"
      ensures !(old(isPlaying) && |active| > 0) && old(hasContext) ==>
                gainTargets == Fade(old(gainTargets), old(gainTargets).Keys) && !isPlaying
      ensures !(old(isPlaying) && |active| > 0) && !old(hasContext) ==>
                gainTargets == old(gainTargets) && isPlaying == old(isPlaying)
      ensures !(old(isPlaying) && |active| > 0) ==>
                frequencies == old(frequencies) && masterTarget == old(masterTarget) && keyOrder == old(keyOrder)
      ensures old(hasContext) ==> (isPlaying <==> old(isPlaying) && |active| > 0)
      ensures !old(hasContext) ==> (isPlaying <==> old(isPlaying) && |active| == 0)
      ensures hasContext == old(hasContext) && closed == old(closed) && pending == old(pending)
      ensures playingAtMount == old(playingAtMount)
    {
      if isPlaying && |active| > 0 {
        StartSoundEngine(active, masterVolume, fundamental);
      } else {
        StopSoundEngine();
      }
    }

    /** The first loop of the reconcile effect while stopped: the gains of
        the listed ids that have nodes are ramped to 0. */
    method MuteListed(active: seq<Harmonic>)
      requires Valid()
      modifies this
      ensures Valid()
      ensures gainTargets == Fade(old(gainTargets), IdSet(active))
      ensures frequencies == old(frequencies) && masterTarget == old(masterTarget) && keyOrder == old(keyOrder)
      ensures hasContext == old(hasContext) && closed == old(closed)
      ensures playingAtMount == old(playingAtMount)
      ensures pending == old(pending) && isPlaying == old(isPlaying)
    {
      for i := 0 to |active|
        invariant gainTargets == Fade(old(gainTargets), IdSet(active[..i]))
        invariant frequencies == old(frequencies) && masterTarget == old(masterTarget) && keyOrder == old(keyOrder)
        invariant hasContext == old(hasContext) && closed == old(closed)
        invariant playingAtMount == old(playingAtMount)
        invariant pending == old(pending) && isPlaying == old(isPlaying)
      {
        IdSetSnoc(active[..i + 1]);
        assert active[..i + 1][..i] == active[..i];
        if active[i].id in gainTargets {
          gainTargets := gainTargets[active[i].id := 0.0];
        }
        assert gainTargets == Fade(old(gainTargets), IdSet(active[..i + 1]));
      }
      assert active[..|active|] == active;
    }

    /** The second loop of the reconcile effect: in creation order, every
        node whose id is not in `ids` is passed to `RemoveNode`. */
    method RemoveStale(ids: set<int>)
      requires Valid()
      modifies this
      ensures Valid()
      ensures gainTargets == Fade(old(gainTargets), old(gainTargets).Keys - ids)
      ensures pending == old(pending) + Teardowns(Except(old(keyOrder), ids))
      ensures frequencies == old(frequencies) && masterTarget == old(masterTarget) && keyOrder == old(keyOrder)
      ensures hasContext == old(hasContext) && closed == old(closed) && isPlaying == old(isPlaying)
      ensures playingAtMount == old(playingAtMount)
    {
      var order := keyOrder;
      ghost var done: set<int> := {};
      for k := 0 to |order|
        invariant Valid() && keyOrder == order
        invariant forall x :: x in done <==> x in order[..k] && x !in ids
        invariant gainTargets == Fade(old(gainTargets), done)
        invariant pending == old(pending) + Teardowns(Except(order[..k], ids))
        invariant frequencies == old(frequencies) && masterTarget == old(masterTarget)
        invariant hasContext == old(hasContext) && closed == old(closed) && isPlaying == old(isPlaying)
        invariant playingAtMount == old(playingAtMount)
      {
        var id := order[k];
        ExceptStep(order, k, ids);
        if id !in ids {
          RemoveNode(id);
          FadeStep(old(gainTargets), done, id);
          done := done + {id};
        }
      }
      assert order[..|order|] == order;
      SameMembers(done, order, old(gainTargets), ids);
    }

    /** The reconcile effect after each change of the set: with a context,
        every harmonic is updated (playing) or silenced (stopped), then, in
        creation order, every node whose harmonic left the set is removed. */
    method Reconcile(active: seq<Harmonic>, fundamental: real)
      requires Valid()
      modifies this
      ensures Valid()
      ensures !old(hasContext) ==>
                gainTargets == old(gainTargets) && frequencies == old(frequencies) &&
                keyOrder == old(keyOrder) && pending == old(pending)
      ensures old(hasContext) && isPlaying ==>
                gainTargets == Fade(PlayTargets(old(gainTargets), active, active), old(gainTargets).Keys - IdSet(active)) &&
                frequencies == PlayFrequencies(old(frequencies), active, fundamental) &&
                forall ids :: IdSet(active) <= ids ==> Except(keyOrder, ids) == Except(old(keyOrder), ids)
      ensures old(hasContext) && !isPlaying ==>
                gainTargets == Fade(Fade(old(gainTargets), IdSet(active)), old(gainTargets).Keys - IdSet(active)) &&
                frequencies == old(frequencies) && keyOrder == old(keyOrder)
      ensures old(hasContext) ==> pending == old(pending) + Teardowns(Except(old(keyOrder), IdSet(active)))
      ensures hasContext == old(hasContext) && closed == old(closed)
      ensures playingAtMount == old(playingAtMount)
      ensures isPlaying == old(isPlaying) && masterTarget == old(masterTarget)
    {
      if !hasContext {
        return;
      }
      var currentActiveIds := IdSet(active);
      if isPlaying {
        UpdateAll(active, fundamental);
        PlayFrequenciesSpec(old(frequencies), active, fundamental);
      } else {
        MuteListed(active);
      }
      assert gainTargets.Keys - currentActiveIds == old(gainTargets).Keys - currentActiveIds;
      RemoveStale(currentActiveIds);
    }

    /** The fundamental-frequency effect: every oscillator is retuned to
        `fundamental * id`. */
    method SetFundamental(fundamental: real)
      requires Valid()
      modifies this
      ensures Valid()
      ensures old(hasContext) ==> frequencies.Keys == old(frequencies).Keys
      ensures old(hasContext) ==> forall id :: id in frequencies ==> frequencies[id] == Frequency(fundamental, id)
      ensures !old(hasContext) ==> frequencies == old(frequencies)
      ensures gainTargets == old(gainTargets) && masterTarget == old(masterTarget) && keyOrder == old(keyOrder)
      ensures hasContext == old(hasContext) && closed == old(closed)
      ensures playingAtMount == old(playingAtMount)
      ensures pending == old(pending) && isPlaying == old(isPlaying)
    {
      if hasContext {
        frequencies := map id | id in frequencies :: Frequency(fundamental, id);
      }
    }

    /** The master-volume effect. */
    method SetMasterVolume(masterVolume: real)
      requires Valid()
      modifies this
      ensures Valid()
      ensures masterTarget == if old(hasContext) then masterVolume else old(masterTarget)
      ensures gainTargets == old(gainTargets) && frequencies == old(frequencies) && keyOrder == old(keyOrder)
      ensures hasContext == old(hasContext) && closed == old(closed)
      ensures playingAtMount == old(playingAtMount)
      ensures pending == old(pending) && isPlaying == old(isPlaying)
    {
      if hasContext {
        masterTarget := masterVolume;
      }
    }

    /** The unmount cleanup: only when the flag it closed over at mount
        holds are the gains ramped down and the full teardown scheduled.
        The context is closed either way. */
    method Unmount()
      requires Valid()
      modifies this
      ensures Valid()
      ensures playingAtMount ==>
                gainTargets == Fade(old(gainTargets), old(gainTargets).Keys) && pending == old(pending) + [TeardownAll]
      ensures !playingAtMount ==> gainTargets == old(gainTargets) && pending == old(pending)
      ensures closed == (old(closed) || old(hasContext))
      ensures frequencies == old(frequencies) && masterTarget == old(masterTarget) && keyOrder == old(keyOrder)
      ensures hasContext == old(hasContext) && isPlaying == old(isPlaying) && playingAtMount == old(playingAtMount)
    {
      if playingAtMount {
        gainTargets := Fade(gainTargets, gainTargets.Keys);
        pending := pending + [TeardownAll];
      }
      if hasContext {
        closed := true;
      }
    }

    /** `handlePlay`: playback is requested only with harmonics present;
        `refused` is the alert. */
    method HandlePlay(active: seq<Harmonic>) returns (refused: bool)
      modifies this
      ensures refused <==> |active| == 0
      ensures isPlaying == (old(isPlaying) || |active| > 0)
      ensures gainTargets == old(gainTargets) && frequencies == old(frequencies) && keyOrder == old(keyOrder)
      ensures hasContext == old(hasContext) && closed == old(closed)
      ensures playingAtMount == old(playingAtMount)
      ensures pending == old(pending) && masterTarget == old(masterTarget)
    {
      refused := |active| == 0;
      if !refused {
        isPlaying := true;
      }
    }

    /** `handleStop`. */
    method HandleStop()
      modifies this
      ensures !isPlaying
      ensures gainTargets == old(gainTargets) && frequencies == old(frequencies) && keyOrder == old(keyOrder)
      ensures hasContext == old(hasContext) && closed == old(closed)
      ensures playingAtMount == old(playingAtMount)
      ensures pending == old(pending) && masterTarget == old(masterTarget)
    {
      isPlaying := false;
    }
  }

  /** The component's lifecycle around one play: mount, press play, run the
      playback effect, unmount. The cleanup closed over the playing flag of
      the first render, which is false, so even while playing the unmount
      neither ramps the gains down nor schedules the teardown: it only
      closes the context. */
  method PlayThenUnmount(active: seq<Harmonic>, masterVolume: real, fundamental: real)
    returns (playing: bool, gains: map<int, real>, timers: seq<Timer>, closed: bool)
    ensures playing <==> |active| > 0
    ensures |active| > 0 ==> gains == PlayTargets(map[], active, active)
    ensures |active| == 0 ==> gains == map[]
    ensures timers == [] && closed
  {
    var e := new AudioEngine();
    e.Mount(masterVolume);
    var refused := e.HandlePlay(active);
    e.PlaybackEffect(active, masterVolume, fundamental);
    playing := e.isPlaying;
    e.Unmount();
    gains, timers, closed := e.gainTargets, e.pending, e.closed;
  }
}
