/**
  A worked event: three pulses whose (decoded quality, sensor) are
  (0, 1), (kNoisyCluster, 1) and (0, 2), and no output collection yet,
  for every bit position kNoisyCluster may occupy.
 */
module Scenarios {
  import opened Pulses
  import opened Tallies
  import opened Filtering
  import opened Events
  import opened NoisyClusterRemover

  /** A layout where cell ID 0 is the quality and cell ID 1 the sensor. */
  const FlatDecoder: CellIDDecoder := CellIDDecoder((c0, c1) => c0, (c0, c1) => c1)

  function FlatLcio(noisyBit: BitIndex): Lcio {
    Lcio(encoding => FlatDecoder, (destination, source) => source, noisyBit)
  }

  function PulseAt(quality: int, sensor: int): Pulse {
    Pulse(quality, sensor, Float32(0), Float32(0), [], 0, NoTrackerData)
  }

  /** No bit of zero is set. */
  lemma {:induction false} NoBitOfZero(k: nat)
    ensures !BitSet(0, k)
    decreases k
  {
    if k > 0 {
      NoBitOfZero(k - 1);
    }
  }

  /** The flag `1 << k` has bit `k` set. */
  lemma {:induction false} FlagHasItsBit(k: nat)
    ensures BitSet(Pow2(k), k)
    decreases k
  {
    if k > 0 {
      FlagHasItsBit(k - 1);
      assert Pow2(k) / 2 == Pow2(k - 1);
    }
  }

  /** A higher bit position gives a larger flag. */
  lemma {:induction false} FlagGrows(k: nat, n: nat)
    requires k <= n
    ensures Pow2(k) <= Pow2(n)
    decreases n
  {
    if k < n {
      FlagGrows(k, n - 1);
    }
  }

  /** Every 32-bit flag fits in 32 bits. */
  lemma FlagFits(k: BitIndex)
    ensures Pow2(k) <= TwoTo31
  {
    FlagGrows(k, 31);
    TopFlag();
  }

  /** The flag of the top bit of a 32-bit `int`. */
  lemma TopFlag()
    ensures Pow2(31) == TwoTo31
  {
    assert Pow2(1) == 0x2;
    assert Pow2(2) == 0x4;
    assert Pow2(3) == 0x8;
    assert Pow2(4) == 0x10;
    assert Pow2(5) == 0x20;
    assert Pow2(6) == 0x40;
    assert Pow2(7) == 0x80;
    assert Pow2(8) == 0x100;
    assert Pow2(9) == 0x200;
    assert Pow2(10) == 0x400;
    assert Pow2(11) == 0x800;
    assert Pow2(12) == 0x1000;
    assert Pow2(13) == 0x2000;
    assert Pow2(14) == 0x4000;
    assert Pow2(15) == 0x8000;
    assert Pow2(16) == 0x10000;
    assert Pow2(17) == 0x20000;
    assert Pow2(18) == 0x40000;
    assert Pow2(19) == 0x80000;
    assert Pow2(20) == 0x100000;
    assert Pow2(21) == 0x200000;
    assert Pow2(22) == 0x400000;
    assert Pow2(23) == 0x800000;
    assert Pow2(24) == 0x1000000;
    assert Pow2(25) == 0x2000000;
    assert Pow2(26) == 0x4000000;
    assert Pow2(27) == 0x8000000;
    assert Pow2(28) == 0x10000000;
    assert Pow2(29) == 0x20000000;
    assert Pow2(30) == 0x40000000;
  }

  /** A pulse whose decoded quality is 0 is clean; one whose decoded quality
      is the kNoisyCluster flag itself is noisy. */
  lemma FlatQualities(bit: BitIndex, sensor: int)
    ensures !IsNoisy(PulseReader(FlatDecoder, bit), PulseAt(0, sensor))
    ensures IsNoisy(PulseReader(FlatDecoder, bit), PulseAt(Pow2(bit), sensor))
  {
    var dec := PulseReader(FlatDecoder, bit);
    NoBitOfZero(bit);
    assert DecodedQuality(dec, PulseAt(0, sensor)) == 0;
    FlagHasItsBit(bit);
    FlagFits(bit);
    var q := DecodedQuality(dec, PulseAt(Pow2(bit), sensor));
    assert (Pow2(bit) - q) % TwoTo32 == 0;
    assert Int32Pattern(q) == Pow2(bit);
  }

  /** The loop over the three pulses keeps the first and third and charges
      sensor 1 once. */
  lemma ThreePulseLoop(bit: BitIndex, a: Pulse, b: Pulse, c: Pulse)
    requires a == PulseAt(0, 1) && b == PulseAt(Pow2(bit), 1) && c == PulseAt(0, 2)
    ensures var dec := PulseReader(FlatDecoder, bit);
            && Clean(dec, [a, b, c]) == [a, c]
            && NoisySensors(dec, [a, b, c]) == {1}
            && NoisyCount(dec, [a, b, c], 1) == 1
  {
    var dec := PulseReader(FlatDecoder, bit);
    var ps := [a, b, c];
    FlatQualities(bit, 1);
    FlatQualities(bit, 2);
    assert SensorID(dec, b) == 1;
    assert ps[1..] == [b, c] && ps[1..][1..] == [c] && ps[1..][1..][1..] == [];
    assert Clean(dec, [c]) == [c];
    assert Clean(dec, [b, c]) == [c];
    assert NoisyCount(dec, [c], 1) == 0;
    assert NoisyCount(dec, [b, c], 1) == 1;
    assert ps[1] == b;
  }

  /** A freshly constructed remover meeting an event without its output
      collection: the attached output holds exactly the clean input pulses,
      and the tally is exactly the per-sensor noisy counts. */
  lemma FreshRemoverOutcome(config: Config, ev: Event, lcio: Lcio, kept: seq<Pulse>, removed: Tally)
    requires config.inputCollectionName in ev && config.outputCollectionName !in ev
    requires var input := ev[config.inputCollectionName];
             var dec := DecoderOf(lcio, input);
             && Clean(dec, input.pulses) == kept
             && NoisySensors(dec, input.pulses) == removed.Keys
             && forall s :: s in removed ==> NoisyCount(dec, input.pulses, s) == removed[s]
    ensures !SelfFeeding(config, ev, lcio)
    ensures var r := ProcessEvent(Construct(config), ev, lcio);
            && config.outputCollectionName in r.event
            && r.event[config.outputCollectionName].pulses == kept
            && r.remover.removed == removed
  {
    var input := ev[config.inputCollectionName];
    var dec := DecoderOf(lcio, input);
    var r := ProcessEvent(Construct(config), ev, lcio);
    TallyOfFreshRemover(r.remover.removed, dec, input.pulses, removed);
  }

  /** A tally that started empty and grew by the noisy counts of `ps` is
      exactly the tally holding those counts. */
  lemma TallyOfFreshRemover(t: Tally, dec: PulseReader, ps: seq<Pulse>, removed: Tally)
    requires forall s :: Count(t, s) == Count(map[], s) + NoisyCount(dec, ps, s)
    requires t.Keys == NoisySensors(dec, ps)
    requires NoisySensors(dec, ps) == removed.Keys
    requires forall s :: s in removed ==> NoisyCount(dec, ps, s) == removed[s]
    ensures t == removed
  {
    forall s | s in removed ensures t[s] == removed[s] {
      assert Count(t, s) == Count(map[], s) + NoisyCount(dec, ps, s);
    }
  }

  /** The clean pulses of sensors 1 and 2 reach a freshly attached output, in
      that order, and sensor 1 is charged with one removed pulse. */
  lemma ThreePulseEvent(bit: BitIndex)
    ensures var a, b, c := PulseAt(0, 1), PulseAt(Pow2(bit), 1), PulseAt(0, 2);
            var ev: Event := map["noisy_cluster" := Collection([a, b, c], map[])];
            var r := ProcessEvent(Construct(DefaultConfig), ev, FlatLcio(bit));
            && "noisefree_clusters" in r.event
            && r.event["noisefree_clusters"].pulses == [a, c]
            && r.remover.removed == map[1 := 1]
  {
    var a, b, c := PulseAt(0, 1), PulseAt(Pow2(bit), 1), PulseAt(0, 2);
    ThreePulseLoop(bit, a, b, c);
    var input := Collection([a, b, c], map[]);
    var ev: Event := map["noisy_cluster" := input];
    assert DecoderOf(FlatLcio(bit), input) == PulseReader(FlatDecoder, bit);
    FreshRemoverOutcome(DefaultConfig, ev, FlatLcio(bit), [a, c], map[1 := 1]);
  }
}
