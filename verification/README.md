# Noisy cluster remover — a Dafny model

This project models `EUTelNoisyClusterRemover`, the EUTelescope (Marlin)
processor that removes masked noisy clusters from a collection of tracker
pulses. For each event it copies the pulses of an input collection whose
decoded quality does not carry the `kNoisyCluster` bit to an output
collection. The output collection is either appended to in place, when it is
already in the event, or created and added to the event. Every dropped pulse
is counted against its decoded sensor id, in a per-sensor tally (a
`std::map<int, int>`) that lives as long as the processor instance. At the end
of the job each instance reports its tally. A generic banner is printed before
the reports, and a flag shared by all instances of the processor type lets it
appear only once.

The model is functional: a pulse is an immutable record, an event is a map
from collection names to collections, and `init`, `processRunHeader`,
`processEvent` and `end` are pure functions of the processor state. The
shared "summary printed" flag is passed in and returned explicitly.

Modules, one per file:

- `Pulses` (`pulses.dfy`): the pulse record, the cell-ID decoder, the
  truncation of decoded values to a C++ `int`, the `kNoisyCluster` bit test
  (with C++ `&` written out bit by bit) and the field-by-field pulse copy.
- `Tallies` (`tallies.dfy`): the per-sensor tally and `tally[sensor]++`.
- `Filtering` (`filtering.dfy`): the pulse loop (`Scan`) and the reference
  definitions it is proved against (`Clean`, `NoisyCount`, `NoisySensors`).
- `Events` (`events.dfy`): events, collections, parameter blocks, the
  collection lookup whose `Missing` outcome stands for the "data not
  available" exception, and what the processor takes from outside its own
  source file (`Lcio`).
- `NoisyClusterRemover` (`remover.dfy`): the processor's state, its
  callbacks, and what happens to the output collection after the loop.
- `Lifecycle` (`lifecycle.dfy`): an instance driven through any sequence of
  `init`, run-header and event callbacks.
- `Summary` (`summary.dfy`): `end`, for one instance and for several
  instances in turn.
- `Scenarios` (`scenarios.dfy`): a worked three-pulse event.

Parameters stand in for what the processor gets from outside:

- The steering parameters `InputCollectionName` and `OutputCollectionName` are
  a `Config`. Their registered defaults are `noisy_cluster` and
  `noisefree_clusters`.
- The cell-ID decoder is `Lcio.decoderFor`, applied to the input
  collection's `CellIDEncoding` parameter. It yields two total functions of
  the two cell-ID words, "quality" and "sensorID".
- `Utility::copyLCCollectionParameters` is `Lcio.copyParameters`.
- The bit position of `kNoisyCluster` is `Lcio.noisyBit`, any of the 32 bits
  of an `int`. The constant is defined in the EUTelescope headers, which are
  not part of this model, so no proof relies on a particular value.
- Log output is a sequence of `SummaryLine` values.

Points where the model settles a question:

- `init` (processors/src/EUTelNoisyClusterRemover.cc:63-71) resets only the
  run and event counters; it does not touch `_removedNoisyPulses`. The tally
  is empty only after construction (lines 40-43) and accumulates over every
  event afterwards (`Lifecycle.TallyAccumulates`).
- A new output collection starts with the initial size `-1`. A size is never
  `-1`, so the "add" test at lines 155-156 always holds for a new
  collection and the `delete` at lines 163-166 can never run
  (`NoisyClusterRemover.FreshOutputNeverDeleted`). An empty or all-noisy
  input therefore still adds an empty output collection to the event.
- `_iEvt` is reset but never incremented anywhere, so after `init` it is
  always 0 (`Lifecycle.EventCounterStaysZero`).
- Suppose the input and output names are equal and the collection holds a
  clean pulse. The loop re-reads the collection's size on every pass and
  appends a fresh copy to the collection it is scanning, so the loop
  condition never fails and the call does not terminate normally: the
  collection grows until memory runs out
  (`NoisyClusterRemover.SharedLoopNeverExits`). `processEvent` is modelled
  only for the other inputs.

## Model

| member | source | states |
|---|---|---|
| `Pulses.ToInt32` | processors/src/EUTelNoisyClusterRemover.cc:127-128 | storing a decoded field in an `int` gives a value in the 32-bit range that is congruent to the field modulo 2^32, and equal to it when it already fits |
| `Pulses.DecodedQuality` | processors/src/EUTelNoisyClusterRemover.cc:127 | the decoded "quality" field, stored in an `int`: in the 32-bit range and congruent modulo 2^32 to the decoder's value for the pulse's two cell-ID words |
| `Pulses.SensorID` | processors/src/EUTelNoisyClusterRemover.cc:128 | the decoded "sensorID" field, stored in an `int`: in the 32-bit range and congruent modulo 2^32 to the decoder's value for the pulse's two cell-ID words |
| `Pulses.HasNoisyFlag` | processors/src/EUTelNoisyClusterRemover.cc:131 | bit `noisyBit` of the quality's 32-bit two's-complement pattern; its agreement with the source's `&` test is `Pulses.HasNoisyFlagIsMaskTest` |
| `Pulses.HasNoisyFlagIsMaskTest` | processors/src/EUTelNoisyClusterRemover.cc:131 | for every `int` quality and every bit position b, the model's test (bit b of the quality's two's-complement pattern) agrees with `quality & (1 << b)` being non-zero, with `&` defined bit by bit over 32 bits |
| `Pulses.IsNoisy` | processors/src/EUTelNoisyClusterRemover.cc:127-131 | a pulse is dropped when the kNoisyCluster bit of its decoded quality is set, read with the decoder of the input collection's encoding |
| `Pulses.CopyPulse` | processors/src/EUTelNoisyClusterRemover.cc:133-143 | the output pulse built setter by setter from the input pulse equals the input pulse: no field is lost or altered, including the tracker-data link, so it also decodes alike |
| `Events.GetCollection` | processors/src/EUTelNoisyClusterRemover.cc:87-92 | looking a name up succeeds exactly when the event holds that name, and then yields that name's collection; a miss stands for `DataNotAvailableException` |
| `Tallies.Bump` | processors/src/EUTelNoisyClusterRemover.cc:150 | `tally[sensor]++` raises that sensor's count by one, starting from 0 when the key is missing, adds only that key, and leaves every other count alone |
| `Tallies.TotalBump` | processors/src/EUTelNoisyClusterRemover.cc:150 | one increment raises the sum of all counts by exactly one |
| `Filtering.Visit` | processors/src/EUTelNoisyClusterRemover.cc:130-151 | one iteration: a clean pulse goes onto the end of the output and the tally is untouched; a noisy pulse leaves the output alone and adds one to its own sensor's count and to no other |
| `Filtering.Scan` | processors/src/EUTelNoisyClusterRemover.cc:121-152 | the loop leaves the old output followed by exactly the clean input pulses in input order; each sensor's count grows by its number of noisy pulses; the tally's keys become the old keys plus the sensors that had a noisy pulse |
| `Filtering.KeptIndices` | processors/src/EUTelNoisyClusterRemover.cc:121-147 | the kept pulses are the input pulses at a strictly increasing list of positions, and a position is on that list exactly when its pulse has the noisy bit clear |
| `Filtering.CleanAppend` | processors/src/EUTelNoisyClusterRemover.cc:121-147 | filtering a concatenation gives the filtered parts in the same order, so relative order is preserved |
| `Filtering.CleanMembers` | processors/src/EUTelNoisyClusterRemover.cc:131-145 | a pulse is in the output exactly when it is in the input with its noisy bit clear |
| `Filtering.KeptPlusDropped` | processors/src/EUTelNoisyClusterRemover.cc:121-151 | kept pulses plus dropped pulses equals the number of input pulses |
| `Filtering.CleanIdempotent` | processors/src/EUTelNoisyClusterRemover.cc:131-142 | filtering the output again keeps all of it and drops nothing |
| `Filtering.ScanTotal` | processors/src/EUTelNoisyClusterRemover.cc:148-151 | the loop raises the sum of the tally by exactly the number of dropped pulses |
| `NoisyClusterRemover.Construct` | processors/src/EUTelNoisyClusterRemover.cc:40-43 | a new instance has both counters at 0 and an empty tally |
| `NoisyClusterRemover.Init` | processors/src/EUTelNoisyClusterRemover.cc:63-71 | `init` zeroes the run and event counters and keeps the tally and the configuration |
| `NoisyClusterRemover.ProcessRunHeader` | processors/src/EUTelNoisyClusterRemover.cc:73-81 | a run header adds one to the run counter, restarts the event counter at 0, and keeps the tally |
| `NoisyClusterRemover.Fate` | processors/src/EUTelNoisyClusterRemover.cc:155-166 | an output that was already in the event is neither added nor deleted; a new one is deleted exactly when its final size equals the recorded initial size, and added exactly when it differs |
| `NoisyClusterRemover.FreshOutputNeverDeleted` | processors/src/EUTelNoisyClusterRemover.cc:155-166 | with the `-1` sentinel a new output collection is added to the event whatever its final size, and the delete branch is never taken |
| `NoisyClusterRemover.ProcessEvent` | processors/src/EUTelNoisyClusterRemover.cc:83-168 | without an input collection nothing changes. Otherwise the output name is in the event and holds its old pulses followed by exactly the clean input pulses. Its parameters are the input's copied onto the old ones. Each sensor's count grows by its noisy pulses. The counters and all other collections are unchanged |
| `NoisyClusterRemover.SkipIsIdempotent` | processors/src/EUTelNoisyClusterRemover.cc:86-92 | an event without the input collection is returned unchanged with an unchanged tally, and processing the result again changes nothing more |
| `NoisyClusterRemover.FreshOutputAlwaysAttached` | processors/src/EUTelNoisyClusterRemover.cc:107-161 | when the output collection is new it ends up in the event holding input size minus dropped pulses, so it is there even for an empty or all-noisy input |
| `NoisyClusterRemover.ExistingOutputKeepsPrefix` | processors/src/EUTelNoisyClusterRemover.cc:102-157 | an existing output collection with M pulses keeps those M pulses unchanged as its prefix, followed by the N clean input pulses, and only pulses with the noisy bit clear follow the prefix |
| `NoisyClusterRemover.EventAccounting` | processors/src/EUTelNoisyClusterRemover.cc:121-151 | over one event the total tally grows by the number of dropped pulses, and kept plus dropped equals the input size |
| `NoisyClusterRemover.SharedIteration` | processors/src/EUTelNoisyClusterRemover.cc:121-145 | when input and output are one collection, one pass of the loop keeps everything already in it and can only make it longer |
| `NoisyClusterRemover.SharedLoopNeverExits` | processors/src/EUTelNoisyClusterRemover.cc:121-145 | while a clean pulse lies at or after the loop index, the loop condition holds, and after one more pass a clean pulse still lies ahead, so the loop does not terminate |
| `NoisyClusterRemover.SelfFeedingStartsLoop` | processors/src/EUTelNoisyClusterRemover.cc:86-121 | the one input excluded from `ProcessEvent` (same names, some clean pulse) starts that endless loop |
| `Lifecycle.TallyAccumulates` | processors/src/EUTelNoisyClusterRemover.cc:63-151 | over any sequence of `init`, run headers and events, each sensor's count grows by its noisy pulses in all the events: runs and `init` do not reset it |
| `Lifecycle.CountersFollowRunHeaders` | processors/src/EUTelNoisyClusterRemover.cc:73-81 | without `init`, the run counter goes up by the number of run headers, events leave the counters alone, and any run header leaves the event counter at 0 |
| `Lifecycle.EventCounterStaysZero` | processors/src/EUTelNoisyClusterRemover.cc:63-81 | no callback ever advances the event counter, so once zero it stays zero |
| `Summary.SortedKeys` | processors/src/EUTelNoisyClusterRemover.cc:183-184 | the map's keys are listed each once, in strictly ascending order, and nothing else is listed |
| `Summary.ReportContents` | processors/src/EUTelNoisyClusterRemover.cc:179-188 | an instance reports "none removed" exactly when its tally is empty. Otherwise it reports one line per sensor with that sensor's count, in ascending sensor order, and every sensor of the tally appears |
| `Summary.Report` | processors/src/EUTelNoisyClusterRemover.cc:179-188 | an instance's own lines: one line for an empty tally, otherwise one per sensor, and never a banner line |
| `Summary.EndLines` | processors/src/EUTelNoisyClusterRemover.cc:173-188 | given the shared flag and a report: the flag is set afterwards, the two banner lines lead exactly when the flag was clear, and the report follows whole |
| `Summary.End` | processors/src/EUTelNoisyClusterRemover.cc:170-189 | one `end` prints each banner line once when the shared flag was clear and not at all otherwise, sets the flag, and ends with the instance's whole report whatever the flag was |
| `Summary.TeardownShape` | processors/src/EUTelNoisyClusterRemover.cc:170-189 | the `end` calls of several instances print the banner first, and only if the flag was clear and some instance ended, then every instance's report in order; the flag is set once any instance ended |
| `Summary.BannerAtMostOnce` | processors/src/EUTelNoisyClusterRemover.cc:38-178 | across the `end` calls of any number of instances each banner line appears once if the shared flag started clear and some instance ended, and never otherwise |
| `Summary.ReportsNotGated` | processors/src/EUTelNoisyClusterRemover.cc:179-188 | every instance's report appears in full in the teardown output, whatever the shared flag was |
| `Scenarios.FlatQualities` | processors/src/EUTelNoisyClusterRemover.cc:127-131 | whatever bit kNoisyCluster occupies, a pulse of decoded quality 0 is kept and one whose decoded quality is kNoisyCluster itself is dropped |
| `Scenarios.ThreePulseLoop` | processors/src/EUTelNoisyClusterRemover.cc:121-151 | for every bit position of kNoisyCluster, over pulses with (quality, sensor) (0,1), (kNoisyCluster,1), (0,2) the filtering loop keeps the first and third, and only sensor 1 is charged, once |
| `Scenarios.FreshRemoverOutcome` | processors/src/EUTelNoisyClusterRemover.cc:40-166 | a newly constructed instance meeting an event without its output collection attaches an output holding exactly the clean input pulses, and its tally is exactly the per-sensor noisy counts |
| `Scenarios.ThreePulseEvent` | processors/src/EUTelNoisyClusterRemover.cc:121-166 | for every bit position of kNoisyCluster, pulses with (quality, sensor) (0,1), (kNoisyCluster,1), (0,2) and no output collection give an attached output holding the first and third pulses, in that order, and the tally {1: 1} |

## Left out

- The LCIO collection types: `dynamic_cast` to `LCCollectionVec` and
  `TrackerPulseImpl` is taken to succeed, so a collection of another type
  (which would be dereferenced as null) is not modelled.
- Memory ownership (`new`, `delete`, `unique_ptr`): collections are values.
  When a new output collection is not added to the event, the model leaves
  the event as it was.
- The cell-ID encoding: how the encoding string lays out the "quality" and
  "sensorID" fields is not modelled. The decoder is an arbitrary pair of
  total functions of the two cell-ID words.
- The value of `kNoisyCluster`: it comes from EUTELESCOPE.h, which is not
  part of this model. Its bit position is a parameter (`Lcio.noisyBit`), and
  every lemma, the worked scenarios included, holds for each of the 32
  positions.
- `Utility::copyLCCollectionParameters` and the `CellIDEncoder` constructor's
  write of the encoding string to the output collection are external code.
  Together they are one uninterpreted function from (destination, source)
  parameter blocks to the destination's new block. Parameter blocks keep
  only string values.
- Run-header provenance (`EUTelRunHeaderImpl::addProcessor`),
  `printParameters`, and parameter registration beyond the two defaults have
  no effect on the modelled state.
- `streamlog_out` debug lines in `processEvent` are not modelled. The
  `end()` messages are modelled as `SummaryLine` values, not formatted text.
- Time, charge and the covariance matrix are carried as 32-bit float bit
  patterns and only ever copied.
- Tallies.Bump: counts are unbounded integers; a count passing the 32-bit
  `int` limit is not wrapped.
- NoisyClusterRemover.ProcessRunHeader: the run counter is unbounded; a
  32-bit `int` wrap is not modelled.
- NoisyClusterRemover.FreshOutputNeverDeleted: the size test is done on
  integers. In C++ the `-1` is converted to `size_t` and becomes 2^64 - 1,
  which no vector size reaches; the outcome is the same.
- NoisyClusterRemover.ProcessEvent: it requires that the input and output
  names are not the same collection with a clean pulse in it. On that input
  the C++ loop does not terminate normally (see `SharedLoopNeverExits`): it
  appends copies until memory runs out, which a total function cannot
  return.
- NoisyClusterRemover.ProcessEvent: the member `_initialOutputCollectionSize`
  is treated as a local of the call, since nothing else reads it.
- The shared "summary printed" flag assumes instances end one after another.
  Concurrent teardown is not modelled.
