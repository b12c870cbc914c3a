/**
  A processor instance driven by the host through a sequence of callbacks:
  `init`, run headers and events, in any order the host chooses.
 */
module Lifecycle {
  import opened Tallies
  import opened Filtering
  import opened Events
  import opened NoisyClusterRemover

  datatype Call = InitCall | RunHeaderCall | EventCall(event: Event)

  /** No event in `calls` makes the loop scan its own output. */
  predicate Admissible(config: Config, calls: seq<Call>, lcio: Lcio) {
    forall i :: 0 <= i < |calls| && calls[i].EventCall? ==> !SelfFeeding(config, calls[i].event, lcio)
  }

  /** The processor state after one callback. */
  function Apply(rm: Remover, call: Call, lcio: Lcio): (r: Remover)
    requires call.EventCall? ==> !SelfFeeding(rm.config, call.event, lcio)
    ensures r.config == rm.config
  {
    match call
    case InitCall => Init(rm)
    case RunHeaderCall => ProcessRunHeader(rm)
    case EventCall(ev) => ProcessEvent(rm, ev, lcio).remover
  }

  /** The processor state after the callbacks `calls`, in order. */
  function Replay(rm: Remover, calls: seq<Call>, lcio: Lcio): (r: Remover)
    requires Admissible(rm.config, calls, lcio)
    ensures r.config == rm.config
    decreases |calls|
  {
    if |calls| == 0 then rm
    else Replay(Apply(rm, calls[0], lcio), calls[1..], lcio)
  }

  lemma AdmissibleTail(config: Config, calls: seq<Call>, lcio: Lcio)
    requires |calls| > 0 && Admissible(config, calls, lcio)
    ensures Admissible(config, calls[1..], lcio)
  {
  }

  /** The noisy pulses of sensor `sensor` in one event, as the processor
      configured by `config` would see them (none when the input is absent). */
  function NoisyInEvent(config: Config, ev: Event, lcio: Lcio, sensor: int): nat {
    if config.inputCollectionName in ev then
      var input := ev[config.inputCollectionName];
      NoisyCount(DecoderOf(lcio, input), input.pulses, sensor)
    else 0
  }

  /** The noisy pulses of sensor `sensor` over all events of `calls`. */
  function NoisyInCalls(config: Config, calls: seq<Call>, lcio: Lcio, sensor: int): nat
    decreases |calls|
  {
    if |calls| == 0 then 0
    else (if calls[0].EventCall? then NoisyInEvent(config, calls[0].event, lcio, sensor) else 0)
         + NoisyInCalls(config, calls[1..], lcio, sensor)
  }

  /** The number of run headers in `calls`. */
  function RunHeaders(calls: seq<Call>): nat
    decreases |calls|
  {
    if |calls| == 0 then 0
    else (if calls[0].RunHeaderCall? then 1 else 0) + RunHeaders(calls[1..])
  }

  /** The tally accumulates over every event the instance sees, across runs
      and across `init`: each sensor's count grows by exactly the number of
      its noisy pulses in all events. */
  lemma {:induction false} TallyAccumulates(rm: Remover, calls: seq<Call>, lcio: Lcio, sensor: int)
    requires Admissible(rm.config, calls, lcio)
    ensures Count(Replay(rm, calls, lcio).removed, sensor)
         == Count(rm.removed, sensor) + NoisyInCalls(rm.config, calls, lcio, sensor)
    decreases |calls|
  {
    if |calls| > 0 {
      var next := Apply(rm, calls[0], lcio);
      AdmissibleTail(rm.config, calls, lcio);
      TallyAccumulates(next, calls[1..], lcio, sensor);
    }
  }

  /** Without an `init`, the run counter counts the run headers, events leave
      both counters alone, and the event counter is reset by any run header. */
  lemma {:induction false} CountersFollowRunHeaders(rm: Remover, calls: seq<Call>, lcio: Lcio)
    requires Admissible(rm.config, calls, lcio)
    requires forall i :: 0 <= i < |calls| ==> !calls[i].InitCall?
    ensures Replay(rm, calls, lcio).iRun == rm.iRun + RunHeaders(calls)
    ensures Replay(rm, calls, lcio).iEvt == (if RunHeaders(calls) == 0 then rm.iEvt else 0)
    decreases |calls|
  {
    if |calls| > 0 {
      var next := Apply(rm, calls[0], lcio);
      AdmissibleTail(rm.config, calls, lcio);
      assert forall i :: 0 <= i < |calls| - 1 ==> calls[1..][i] == calls[i + 1];
      CountersFollowRunHeaders(next, calls[1..], lcio);
    }
  }

  /** Nothing ever advances the event counter: once it is zero it stays zero. */
  lemma {:induction false} EventCounterStaysZero(rm: Remover, calls: seq<Call>, lcio: Lcio)
    requires Admissible(rm.config, calls, lcio)
    requires rm.iEvt == 0
    ensures Replay(rm, calls, lcio).iEvt == 0
    decreases |calls|
  {
    if |calls| > 0 {
      var next := Apply(rm, calls[0], lcio);
      AdmissibleTail(rm.config, calls, lcio);
      EventCounterStaysZero(next, calls[1..], lcio);
    }
  }
}
