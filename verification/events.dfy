/**
  The parts of an LCIO event the remover touches: named collections of
  pulses, each with a parameter block, and the library calls it relies on.
 */
module Events {
  import opened Pulses

  /** A collection's parameter block, reduced to its string-valued keys. */
  type Params = map<string, string>

  /** The parameter key holding a collection's cell-ID encoding string. */
  const CellIDEncodingKey: string := "CellIDEncoding"

  /** The encoding string of a parameter block; a missing key reads as "". */
  function EncodingString(params: Params): string {
    if CellIDEncodingKey in params then params[CellIDEncodingKey] else ""
  }

  /** A collection of tracker pulses. */
  datatype Collection = Collection(pulses: seq<Pulse>, params: Params)

  /** A freshly constructed pulse collection: no pulses, no parameters. */
  const NewPulseCollection: Collection := Collection([], map[])

  /** An event: its collections by name. */
  type Event = map<string, Collection>

  /** The outcome of looking a collection up by name: `Missing` stands for
      the "data not available" exception the event throws. */
  datatype Lookup = Missing | Found(collection: Collection) {

    /** The collection found, or `fallback` when the lookup missed. */
    function Or(fallback: Collection): Collection {
      if Found? then collection else fallback
    }
  }

  /** Collection lookup by name: it succeeds exactly for the names the event
      holds, and then yields that name's collection. */
  function GetCollection(ev: Event, name: string): (r: Lookup)
    ensures r.Found? <==> name in ev
    ensures r.Found? ==> r.collection == ev[name]
  {
    if name in ev then Found(ev[name]) else Missing
  }

  /**
    What the remover takes from outside its own source file, none of which is
    part of this model:
    - `decoderFor` builds the LCIO cell-ID decoder for an encoding string;
    - `copyParameters(destination, source)` is the destination's parameter
      block after the source's parameters have been copied onto it and the
      encoder has recorded the encoding string there;
    - `noisyBit` is the bit position of kNoisyCluster in the EUTelescope
      cluster-quality flags.
   */
  datatype Lcio = Lcio(
    decoderFor: string -> CellIDDecoder,
    copyParameters: (Params, Params) -> Params,
    noisyBit: BitIndex)

  /** How the pulses of a collection are read: with the decoder bound to the
      collection's own encoding string, testing the kNoisyCluster bit. */
  function DecoderOf(lcio: Lcio, c: Collection): PulseReader {
    PulseReader(lcio.decoderFor(EncodingString(c.params)), lcio.noisyBit)
  }
}
