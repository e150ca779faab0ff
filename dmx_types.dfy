/** Entities of the DMX playback source (DmxPlayback.h): frames, recorded
    sequences, layers, and the fixed dimensions of the engine. */
module DmxTypes {

  /** `std::uint8_t` */
  type byte = x: int | 0 <= x < 0x100
  /** `std::uint16_t` */
  type u16 = x: int | 0 <= x < 0x1_0000

  /** Number of layers and of recording slots per layer. */
  const NumLayers: nat := 16
  const NumSequencesPerLayer: nat := 10
  /** Number of addressable DMX channels (one universe). */
  const NumChannels: nat := 512
  /** Bytes in the 32x16 two-plane pixel buffer. */
  const DataFrameLength: nat := 32 * 16 * 2

  /** Parameter IDs owned by one layer: its recording slots, then active clip,
      frame position and opacity. */
  const IdsPerLayer: nat := NumSequencesPerLayer + 3

  /** A channel of the DMX universe. */
  predicate InUniverse(c: int) { 1 <= c <= NumChannels }

  /** Index of the colour byte of channel `c` in the pixel buffer. */
  function ColourIndex(c: int): (i: nat)
    requires InUniverse(c)
    ensures i % 2 == 0 && i + 1 < DataFrameLength
    ensures i / 2 + 1 == c
  {
    (c - 1) * 2
  }

  /** Index of the alpha byte of channel `c` in the pixel buffer. */
  function AlphaIndex(c: int): (i: nat)
    requires InUniverse(c)
    ensures i % 2 == 1 && i < DataFrameLength
    ensures i / 2 + 1 == c
  {
    ColourIndex(c) + 1
  }

  /** The channel whose colour or alpha byte sits at buffer index `i`. */
  function ChannelAt(i: nat): (c: int)
    requires i < DataFrameLength
    ensures InUniverse(c)
    ensures ColourIndex(c) == i || AlphaIndex(c) == i
  {
    i / 2 + 1
  }

  /** One recorded time step: at most one 8-bit value per 16-bit channel key. */
  datatype Frame = Frame(values: map<u16, byte>)

  /** One recording slot of a layer. The path is kept as a string, not as the
      caller's pointer. */
  datatype RecordedSequence = RecordedSequence(
    sequenceNumber: byte,
    recordingParameterId: nat,
    recordingParameterValue: string,
    frames: seq<Frame>)

  /** One layer: its slots and the three float parameters that drive it. */
  datatype Layer = Layer(
    layerNumber: byte,
    recordedSequences: seq<RecordedSequence>,
    activeClipParameterId: nat,
    activeClipParameterValue: real,
    activeClipIndex: byte,
    framePositionParameterId: nat,
    framePositionParameterValue: real,
    opacityParameterId: nat,
    opacityParameterValue: real)

  /** Every frame of a sequence only addresses channels of the universe. */
  predicate FramesInUniverse(frames: seq<Frame>)
  {
    forall t, c :: 0 <= t < |frames| && c in frames[t].values ==> InUniverse(c)
  }

  predicate LayerFramesInUniverse(layer: Layer)
  {
    forall s :: 0 <= s < |layer.recordedSequences| ==>
      FramesInUniverse(layer.recordedSequences[s].frames)
  }
}
