/**
  EUTelNoisyClusterRemover: the processor that copies the pulses of one named
  collection whose noisy-cluster bit is clear into another named collection,
  and counts the dropped pulses per sensor.
 */
module NoisyClusterRemover {
  import opened Pulses
  import opened Tallies
  import opened Filtering
  import opened Events

  /** The two steering parameters, as resolved before the first event. */
  datatype Config = Config(inputCollectionName: string, outputCollectionName: string)

  /** The registered defaults of the two parameters. */
  const DefaultConfig: Config := Config("noisy_cluster", "noisefree_clusters")

  /** The state of one processor instance. */
  datatype Remover = Remover(config: Config, iRun: int, iEvt: int, removed: Tally)

  /** The constructor: counters at zero and an empty tally. */
  function Construct(config: Config): (r: Remover)
    ensures r.config == config && r.removed == map[]
    ensures r.iRun == 0 && r.iEvt == 0
  {
    Remover(config, 0, 0, map[])
  }

  /** `init`: both counters back to zero; the tally is not cleared. */
  function Init(rm: Remover): (r: Remover)
    ensures r.iRun == 0 && r.iEvt == 0
    ensures r.removed == rm.removed && r.config == rm.config
  {
    rm.(iRun := 0, iEvt := 0)
  }

  /** `processRunHeader`: one more run, and the event counter restarts. */
  function ProcessRunHeader(rm: Remover): (r: Remover)
    ensures r.iRun == rm.iRun + 1 && r.iEvt == 0
    ensures r.removed == rm.removed && r.config == rm.config
  {
    rm.(iRun := rm.iRun + 1, iEvt := 0)
  }

  /** The sentinel stored as the initial output size of a fresh collection. */
  const FreshSentinel: int := -1

  /** What becomes of the output collection once the loop is done. */
  datatype OutputFate =
    | UpdatedInPlace   // it was already in the event and was appended to there
    | Attached         // it was created here and is added to the event
    | Deleted          // it was created here and is destroyed

  /** The two post-loop tests of `processEvent`: add the collection when it is
      new and its size differs from the recorded initial size; delete it when
      it is new and its size equals the recorded initial size. */
  function Fate(outputExisted: bool, finalSize: nat, initialSize: int): (f: OutputFate)
    // an output that was already in the event is neither added nor deleted
    ensures f == UpdatedInPlace <==> outputExisted
    // a new output is deleted exactly when its size is the recorded one
    ensures f == Deleted <==> !outputExisted && finalSize == initialSize
    ensures f == Attached <==> !outputExisted && finalSize != initialSize
  {
    if outputExisted then UpdatedInPlace
    else if finalSize != initialSize then Attached
    else Deleted
  }

  /** A fresh collection carries the sentinel, which no size equals, so it is
      always attached and never deleted, whatever the loop added. */
  lemma FreshOutputNeverDeleted(finalSize: nat)
    ensures Fate(false, finalSize, FreshSentinel) == Attached
  {
  }

  /** Input and output name the same collection, and it has a clean pulse: the
      loop then keeps appending copies to the collection it is scanning. */
  predicate SelfFeeding(config: Config, ev: Event, lcio: Lcio) {
    && config.inputCollectionName == config.outputCollectionName
    && config.inputCollectionName in ev
    && Clean(DecoderOf(lcio, ev[config.inputCollectionName]), ev[config.inputCollectionName].pulses) != []
  }

  /** The processor state and the event after one `processEvent`. */
  datatype Step = Step(remover: Remover, event: Event)

  /** `processEvent`. */
  function ProcessEvent(rm: Remover, ev: Event, lcio: Lcio): (r: Step)
    requires !SelfFeeding(rm.config, ev, lcio)
    // only the tally may change in the processor
    ensures r.remover.config == rm.config
    ensures r.remover.iRun == rm.iRun && r.remover.iEvt == rm.iEvt
    // a missing input collection leaves everything as it was
    ensures rm.config.inputCollectionName !in ev ==> r.remover == rm && r.event == ev
    ensures rm.config.inputCollectionName in ev ==>
      var input := ev[rm.config.inputCollectionName];
      var dec := DecoderOf(lcio, input);
      var out := rm.config.outputCollectionName;
      var before := if out in ev then ev[out] else NewPulseCollection;
      // the output is in the event: the old pulses, then exactly the clean input pulses
      && out in r.event
      && r.event[out].pulses == before.pulses + Clean(dec, input.pulses)
      && r.event[out].params == lcio.copyParameters(before.params, input.params)
      // each sensor's count grows by its number of noisy input pulses
      && (forall s :: Count(r.remover.removed, s) == Count(rm.removed, s) + NoisyCount(dec, input.pulses, s))
      && r.remover.removed.Keys == rm.removed.Keys + NoisySensors(dec, input.pulses)
      // no other collection is added, removed or changed
      && r.event.Keys == ev.Keys + {out}
      && (forall name :: name in ev && name != out ==> r.event[name] == ev[name])
  {
    match GetCollection(ev, rm.config.inputCollectionName)
    case Missing => Step(rm, ev)
    case Found(input) =>
      var dec := DecoderOf(lcio, input);
      var out := rm.config.outputCollectionName;
      var existing := GetCollection(ev, out);
      var target := existing.Or(NewPulseCollection);
      var initialSize := if existing.Found? then |target.pulses| else FreshSentinel;
      var params := lcio.copyParameters(target.params, input.params);
      var acc := Scan(dec, input.pulses, Acc(target.pulses, rm.removed));
      var output := Collection(acc.kept, params);
      var event :=
        match Fate(existing.Found?, |output.pulses|, initialSize)
        case UpdatedInPlace => ev[out := output]
        case Attached => ev[out := output]
        case Deleted => ev;
      Step(rm.(removed := acc.removed), event)
  }

  /** Skipping an event without the input collection is idempotent: doing it
      twice is doing it once. */
  lemma SkipIsIdempotent(rm: Remover, ev: Event, lcio: Lcio)
    requires rm.config.inputCollectionName !in ev
    ensures ProcessEvent(rm, ev, lcio) == Step(rm, ev)
    ensures var once := ProcessEvent(rm, ev, lcio);
            ProcessEvent(once.remover, once.event, lcio) == once
  {
  }

  /** When the output collection is new, it is added to the event even if no
      pulse survives: an empty or all-noisy input still yields an (empty)
      output collection. */
  lemma FreshOutputAlwaysAttached(rm: Remover, ev: Event, lcio: Lcio)
    requires rm.config.inputCollectionName in ev
    requires rm.config.outputCollectionName !in ev
    ensures var input := ev[rm.config.inputCollectionName];
            var r := ProcessEvent(rm, ev, lcio);
            && rm.config.outputCollectionName in r.event
            && |r.event[rm.config.outputCollectionName].pulses| == |input.pulses| - NoisyTotal(DecoderOf(lcio, input), input.pulses)
  {
    var input := ev[rm.config.inputCollectionName];
    KeptPlusDropped(DecoderOf(lcio, input), input.pulses);
  }

  /** An existing output collection keeps its old pulses, unchanged and in
      place, as a prefix; only clean pulses follow them. */
  lemma ExistingOutputKeepsPrefix(rm: Remover, ev: Event, lcio: Lcio)
    requires rm.config.inputCollectionName in ev
    requires rm.config.outputCollectionName in ev
    requires !SelfFeeding(rm.config, ev, lcio)
    ensures var input := ev[rm.config.inputCollectionName];
            var prior := ev[rm.config.outputCollectionName].pulses;
            var now := ProcessEvent(rm, ev, lcio).event[rm.config.outputCollectionName].pulses;
            && |now| == |prior| + |Clean(DecoderOf(lcio, input), input.pulses)|
            && now[..|prior|] == prior
            && forall j :: |prior| <= j < |now| ==> !IsNoisy(DecoderOf(lcio, input), now[j])
  {
    var input := ev[rm.config.inputCollectionName];
    var dec := DecoderOf(lcio, input);
    var prior := ev[rm.config.outputCollectionName].pulses;
    var now := ProcessEvent(rm, ev, lcio).event[rm.config.outputCollectionName].pulses;
    assert now == prior + Clean(dec, input.pulses);
    forall j | |prior| <= j < |now|
      ensures !IsNoisy(dec, now[j])
    {
      assert now[j] in Clean(dec, input.pulses);
      CleanMembers(dec, input.pulses, now[j]);
    }
  }

  /** Over one event the tally's sum grows by the number of dropped pulses,
      and dropped plus kept is the whole input. */
  lemma EventAccounting(rm: Remover, ev: Event, lcio: Lcio)
    requires rm.config.inputCollectionName in ev
    requires !SelfFeeding(rm.config, ev, lcio)
    ensures var input := ev[rm.config.inputCollectionName];
            var dec := DecoderOf(lcio, input);
            var r := ProcessEvent(rm, ev, lcio);
            && Total(r.remover.removed) == Total(rm.removed) + NoisyTotal(dec, input.pulses)
            && |Clean(dec, input.pulses)| + NoisyTotal(dec, input.pulses) == |input.pulses|
  {
    var input := ev[rm.config.inputCollectionName];
    var dec := DecoderOf(lcio, input);
    var out := rm.config.outputCollectionName;
    var target := if out in ev then ev[out] else NewPulseCollection;
    ScanTotal(dec, input.pulses, Acc(target.pulses, rm.removed));
    KeptPlusDropped(dec, input.pulses);
  }

  /** One iteration of the pulse loop when input and output are one
      collection: the loop re-reads the size on every pass, and a clean pulse
      is appended to the very sequence being scanned. */
  function SharedIteration(dec: PulseReader, ps: seq<Pulse>, i: nat): (r: seq<Pulse>)
    requires i < |ps|
    ensures |r| >= |ps| && r[..|ps|] == ps
  {
    if IsNoisy(dec, ps[i]) then ps else ps + [CopyPulse(ps[i])]
  }

  /** A clean pulse lies at position `i` or later. */
  predicate CleanPulseAhead(dec: PulseReader, ps: seq<Pulse>, i: nat) {
    exists j :: i <= j < |ps| && !IsNoisy(dec, ps[j])
  }

  /** While a clean pulse lies ahead the loop condition holds, and after one
      more iteration a clean pulse still lies ahead: the loop condition never
      fails, and the call does not terminate normally. */
  lemma SharedLoopNeverExits(dec: PulseReader, ps: seq<Pulse>, i: nat)
    requires CleanPulseAhead(dec, ps, i)
    ensures i < |ps|
    ensures CleanPulseAhead(dec, SharedIteration(dec, ps, i), i + 1)
  {
    var j :| i <= j < |ps| && !IsNoisy(dec, ps[j]);
    var next := SharedIteration(dec, ps, i);
    if !IsNoisy(dec, ps[i]) {
      assert next[|ps|] == ps[i];
      assert i + 1 <= |ps| < |next|;
    } else {
      assert j != i;
      assert next[j] == ps[j];
    }
  }

  /** The excluded configuration is exactly one where the loop starts with a
      clean pulse ahead of it. */
  lemma SelfFeedingStartsLoop(config: Config, ev: Event, lcio: Lcio)
    requires SelfFeeding(config, ev, lcio)
    ensures var input := ev[config.inputCollectionName];
            CleanPulseAhead(DecoderOf(lcio, input), input.pulses, 0)
  {
    var input := ev[config.inputCollectionName];
    var dec := DecoderOf(lcio, input);
    var kept := Clean(dec, input.pulses);
    CleanMembers(dec, input.pulses, kept[0]);
    var j :| 0 <= j < |input.pulses| && input.pulses[j] == kept[0];
  }
}
