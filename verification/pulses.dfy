/**
  Tracker pulse records as the noisy-cluster remover sees them: the fields it
  copies, and the two cell-ID sub-fields ("quality" and "sensorID") it decodes.
 */
module Pulses {

  /** A single-precision float field, carried as its IEEE-754 bit pattern:
      the remover copies these values and never computes with them. */
  datatype Float32 = Float32(bits: bv32)

  /** The tracker-data link of a pulse. A copy shares the link; the data it
      points to is not duplicated. */
  datatype TrackerDataRef = NoTrackerData | TrackerDataAt(address: nat)

  /** An LCIO TrackerPulse. `quality` is the pulse's own quality word; the
      quality the remover tests is the one decoded from the cell IDs. */
  datatype Pulse = Pulse(
    cellID0: int,
    cellID1: int,
    time: Float32,
    charge: Float32,
    covMatrix: seq<Float32>,
    quality: int,
    trackerData: TrackerDataRef)

  /** A cell-ID decoder bound to one encoding string: each named sub-field is
      some function of the two packed cell-ID words. The bit layout itself
      belongs to the encoding and is not modelled. */
  datatype CellIDDecoder = CellIDDecoder(quality: (int, int) -> int, sensorID: (int, int) -> int)

  /** The bit positions of a 32-bit C++ `int`. */
  type BitIndex = b: nat | b < 32

  /** What the remover reads each input pulse with: the decoder of the input
      collection's encoding, and the position of the kNoisyCluster bit.
      kNoisyCluster is one of the cluster-quality flags of the EUTelescope
      headers, which are not part of this model, so its position is a
      parameter here rather than a fixed value. */
  datatype PulseReader = PulseReader(decoder: CellIDDecoder, noisyBit: BitIndex)

  const TwoTo32: int := 0x1_0000_0000
  const TwoTo31: int := 0x8000_0000

  /** Conversion of a decoded field value to a C++ `int`: the value modulo
      2^32, read as two's complement. */
  function ToInt32(x: int): (r: int)
    ensures -TwoTo31 <= r < TwoTo31
    ensures (x - r) % TwoTo32 == 0
    ensures -TwoTo31 <= x < TwoTo31 ==> r == x
  {
    var m := x % TwoTo32;
    if m < TwoTo31 then m else m - TwoTo32
  }

  /** Decoded "quality" sub-field, as the `int` the remover stores it in. */
  function DecodedQuality(dec: PulseReader, p: Pulse): (q: int)
    ensures -TwoTo31 <= q < TwoTo31
    ensures (dec.decoder.quality(p.cellID0, p.cellID1) - q) % TwoTo32 == 0
  {
    ToInt32(dec.decoder.quality(p.cellID0, p.cellID1))
  }

  /** Decoded "sensorID" sub-field, as the `int` the remover stores it in. */
  function SensorID(dec: PulseReader, p: Pulse): (s: int)
    ensures -TwoTo31 <= s < TwoTo31
    ensures (dec.decoder.sensorID(p.cellID0, p.cellID1) - s) % TwoTo32 == 0
  {
    ToInt32(dec.decoder.sensorID(p.cellID0, p.cellID1))
  }

  /** 2 to the power `n`: the single-bit flag `1 << n`. */
  function Pow2(n: nat): (r: nat)
    ensures r >= 1
  {
    if n == 0 then 1 else 2 * Pow2(n - 1)
  }

  /** The 32-bit two's-complement pattern of a C++ `int`, read as a number. */
  function Int32Pattern(x: int): (r: nat)
    requires -TwoTo31 <= x < TwoTo31
    ensures r < TwoTo32 && (x - r) % TwoTo32 == 0
  {
    x % TwoTo32
  }

  /** Bit `k` (counting from the least significant) of a number. */
  predicate BitSet(x: nat, k: nat)
    decreases k
  {
    if k == 0 then x % 2 == 1 else BitSet(x / 2, k - 1)
  }

  /** C++ `&` on the low `width` bits of two bit patterns, defined bit by bit:
      a bit of the result is set exactly when it is set in both operands. */
  function BitAnd(a: nat, b: nat, width: nat): nat
    decreases width
  {
    if width == 0 then 0
    else (if a % 2 == 1 && b % 2 == 1 then 1 else 0) + 2 * BitAnd(a / 2, b / 2, width - 1)
  }

  /** Bit `bit` of the two's-complement pattern of a C++ `int`. */
  predicate HasNoisyFlag(quality: int, bit: BitIndex)
    requires -TwoTo31 <= quality < TwoTo31
  {
    BitSet(Int32Pattern(quality), bit)
  }

  /** The remover's test is `quality & kNoisyCluster` being non-zero, with
      kNoisyCluster the single-bit flag `1 << noisyBit`; it agrees with
      `HasNoisyFlag` on every `int` and for every bit position. */
  lemma HasNoisyFlagIsMaskTest(quality: int, bit: BitIndex)
    requires -TwoTo31 <= quality < TwoTo31
    ensures HasNoisyFlag(quality, bit) <==> BitAnd(Int32Pattern(quality), Pow2(bit), 32) != 0
  {
    SingleBitMask(Int32Pattern(quality), bit, 32);
  }

  /** Masking with a single-bit flag keeps exactly that bit. */
  lemma {:induction false} SingleBitMask(a: nat, k: nat, width: nat)
    requires k < width
    ensures BitAnd(a, Pow2(k), width) != 0 <==> BitSet(a, k)
    decreases k
  {
    if k == 0 {
      AndWithZero(a / 2, width - 1);
    } else {
      assert Pow2(k) == 2 * Pow2(k - 1);
      SingleBitMask(a / 2, k - 1, width - 1);
    }
  }

  /** Masking with no bits set clears everything. */
  lemma {:induction false} AndWithZero(a: nat, width: nat)
    ensures BitAnd(a, 0, width) == 0
    decreases width
  {
    if width > 0 {
      AndWithZero(a / 2, width - 1);
    }
  }

  /** The remover's keep/drop test: a pulse is noisy when the kNoisyCluster
      bit of its decoded quality is set. */
  predicate IsNoisy(dec: PulseReader, p: Pulse) {
    HasNoisyFlag(DecodedQuality(dec, p), dec.noisyBit)
  }

  /** The output pulse built from an input pulse, one setter per getter. */
  function CopyPulse(p: Pulse): (q: Pulse)
    ensures q == p
  {
    Pulse(p.cellID0, p.cellID1, p.time, p.charge, p.covMatrix, p.quality, p.trackerData)
  }
}
