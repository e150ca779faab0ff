/** The DMX playback source (`DmxPlayback`, DmxPlayback.cpp / DmxPlayback.h):
    sixteen layers of ten recording slots, a 2048-byte pixel buffer that each
    tick composites the layers' current frames into, and the parameter
    setters and getters the host calls. The methods work in place, as the
    source does, and are proved against the functions of `Compositor`,
    `ParameterRouting` and `SequenceDecoder`. */
module Playback {
  import opened Wrappers
  import opened DmxTypes
  import opened Compositor
  import opened CsvReader
  import opened SequenceDecoder
  import opened ParameterRouting
  import opened FfglPluginManager
  import opened CsvRoundTrip

  /** What a recording parameter's slot is set to: the path and frames to
      store, or the `std::logic_error` that escapes. An empty path, a file
      that cannot be opened and a file without columns all clear the slot. */
  function Recording(path: string, file: FileContent): (r: Result<(string, seq<Frame>), LogicError>)
    ensures r.Success? ==> FramesInUniverse(r.value.1)
    ensures r.Success? ==> r.value.0 == path || r.value == ("", [])
  {
    if path == "" then Success(("", []))
    else match ReadCsv(file)
      case CouldNotOpen => Success(("", []))
      case Escaped(e) => Failure(e)
      case Parsed(cols) =>
        if cols == [] then Success(("", []))
        else match Decode(cols)
          case Failure(e) => Failure(e)
          case Success(frames) => DecodedInUniverse(cols); Success((path, frames))
  }

  /** The outcome of `SetTextParameter(index, path)` on `layers`, where `file`
      is what opening `path` yields: the result code and the new layers, or
      the escaping error (the layers are then left as they were). */
  function SetText(layers: seq<Layer>, index: nat, path: string, file: FileContent)
    : (r: Result<(FFResult, seq<Layer>), LogicError>)
    ensures r.Success? ==> |r.value.1| == |layers|
    ensures r.Success? && r.value.0 == FFFail ==> r.value.1 == layers
    ensures r.Failure? ==> FindSlot(layers, index).Some? && path != ""
  {
    match FindSlot(layers, index)
    case None => Success((FFFail, layers))
    case Some((l, s)) =>
      match Recording(path, file)
      case Failure(e) => Failure(e)
      case Success((p, frames)) => Success((FFSuccess, WithSlot(layers, l, s, p, frames)))
  }

  /** Every slot of every layer only addresses channels of the universe. */
  predicate AllInUniverse(layers: seq<Layer>)
  {
    forall l :: 0 <= l < |layers| ==> LayerFramesInUniverse(layers[l])
  }

  class DmxPlayback {
    var layers: seq<Layer>
    /** `dmxPixelDataFrame`: colour byte 2(c-1) and alpha byte 2(c-1)+1 of channel c. */
    const pixels: array<byte>

    ghost predicate Valid()
      reads this
    {
      Layout(layers) && AllInUniverse(layers) && pixels.Length == DataFrameLength
    }

    /** Allocates the parameter IDs with a counter from 0: per layer its ten
        recording slots, then active clip, frame position and opacity. */
    constructor()
      ensures layers == InitialLayers()
      ensures Valid() && fresh(pixels)
    {
      pixels := new byte[DataFrameLength](_ => 0);
      var nextParameterId: nat := 0;
      var built: seq<Layer> := [];
      var layerIndex: nat := 0;
      while layerIndex < NumLayers
        invariant layerIndex <= NumLayers
        invariant nextParameterId == IdsPerLayer * layerIndex
        invariant built == InitialLayers()[..layerIndex]
      {
        var layerRecordedSequences: seq<RecordedSequence> := [];
        var sequenceIndex: nat := 0;
        while sequenceIndex < NumSequencesPerLayer
          invariant sequenceIndex <= NumSequencesPerLayer
          invariant nextParameterId == IdsPerLayer * layerIndex + sequenceIndex
          invariant layerRecordedSequences == InitialLayer(layerIndex).recordedSequences[..sequenceIndex]
        {
          layerRecordedSequences := layerRecordedSequences +
            [RecordedSequence(sequenceIndex + 1, nextParameterId, "", [])];
          nextParameterId := nextParameterId + 1;
          sequenceIndex := sequenceIndex + 1;
        }
        var layer := Layer(layerIndex + 1, layerRecordedSequences,
          nextParameterId, 1.0, 0,
          nextParameterId + 1, 1.0,
          nextParameterId + 2, 1.0);
        nextParameterId := nextParameterId + 3;
        assert layer == InitialLayer(layerIndex);
        built := built + [layer];
        layerIndex := layerIndex + 1;
      }
      layers := built;
    }

    /** One tick of `ProcessOpenGL` up to the texture upload: zero the buffer,
        then composite every layer's current frame, highest value first.
        `completed` is false when a layer's `.at` throws
        `std::out_of_range`; the buffer then holds the layers before it. */
    method ProcessOpenGL() returns (completed: bool)
      requires Valid()
      modifies pixels
      ensures completed <==> FirstThrow(layers) == |layers|
      ensures pixels[..] == Composite(layers[..FirstThrow(layers)])
    {
      Clear();
      assert pixels[..0] == [];
      completed := CompositeLayers(layers);
    }

    /** The layer loop of `ProcessOpenGL`: composite each layer in order, and
        stop at the first whose `.at` throws. */
    method CompositeLayers(ls: seq<Layer>) returns (completed: bool)
      requires pixels.Length == DataFrameLength && AllInUniverse(ls)
      requires pixels[..] == Zeros()
      modifies pixels
      ensures completed <==> FirstThrow(ls) == |ls|
      ensures pixels[..] == Composite(ls[..FirstThrow(ls)])
    {
      var li := 0;
      while li < |ls|
        invariant li <= |ls|
        invariant forall j :: 0 <= j < li ==> !ActiveFrame(ls[j]).Throws?
        invariant pixels[..] == Composite(ls[..li])
      {
        assert LayerFramesInUniverse(ls[li]);
        var threw := CompositeLayer(ls[li]);
        if threw {
          FirstThrowAt(ls, li);
          return false;
        }
        CompositeNext(ls, li);
        li := li + 1;
      }
      assert ls[..li] == ls;
      return true;
    }

    /** `memset` of the whole buffer to 0. */
    method Clear()
      requires pixels.Length == DataFrameLength
      modifies pixels
      ensures pixels[..] == Zeros()
    {
      var i := 0;
      while i < DataFrameLength
        invariant i <= DataFrameLength
        invariant forall j :: 0 <= j < i ==> pixels[j] == 0
      {
        pixels[i] := 0;
        i := i + 1;
      }
    }

    /** One pass of the layer loop: pick the layer's current frame and offer
        its channels, or report the `std::out_of_range` of `.at`. */
    method CompositeLayer(layer: Layer) returns (threw: bool)
      requires pixels.Length == DataFrameLength && LayerFramesInUniverse(layer)
      modifies pixels
      ensures threw <==> ActiveFrame(layer).Throws?
      ensures threw ==> pixels[..] == old(pixels[..])
      ensures !threw ==> pixels[..] == ApplyLayer(old(pixels[..]), layer)
    {
      if layer.activeClipIndex >= |layer.recordedSequences| {
        return true;
      }
      var activeSequenceForLayer := layer.recordedSequences[layer.activeClipIndex];
      if |activeSequenceForLayer.frames| == 0 {
        return false;
      }
      var numberOfFramesInSequence := |activeSequenceForLayer.frames|;
      var currentFrameNumberInSequence :=
        (layer.framePositionParameterValue * numberOfFramesInSequence as real).Floor;
      if currentFrameNumberInSequence == numberOfFramesInSequence {
        currentFrameNumberInSequence := currentFrameNumberInSequence - 1;
      }
      assert currentFrameNumberInSequence == FrameIndex(layer.framePositionParameterValue, numberOfFramesInSequence);
      if !(0 <= currentFrameNumberInSequence < numberOfFramesInSequence) {
        return true;
      }
      var currentFrameForLayer := activeSequenceForLayer.frames[currentFrameNumberInSequence];
      assert FramesInUniverse(activeSequenceForLayer.frames);
      ApplyFrame(currentFrameForLayer.values, layer.opacityParameterValue);
      return false;
    }

    /** The channel loop of one layer: every entry of the frame, in the
        unspecified order of the `unordered_map`, overwrites its colour byte
        and sets its alpha byte only when the scaled value is strictly greater. */
    method ApplyFrame(dmxChannelValues: map<u16, byte>, opacity: real)
      requires pixels.Length == DataFrameLength
      requires forall c :: c in dmxChannelValues ==> InUniverse(c)
      modifies pixels
      ensures pixels[..] == ApplyChannels(old(pixels[..]), dmxChannelValues, opacity, dmxChannelValues.Keys)
    {
      ghost var start := pixels[..];
      var todo := dmxChannelValues.Keys;
      ghost var done: set<u16> := {};
      while todo != {}
        invariant todo + done == dmxChannelValues.Keys && todo !! done
        invariant pixels[..] == ApplyChannels(start, dmxChannelValues, opacity, done)
        decreases |todo|
      {
        var channel :| channel in todo;
        OfferChannel(start, dmxChannelValues, opacity, done, channel);
        todo := todo - {channel};
        done := done + {channel};
      }
      assert done == dmxChannelValues.Keys;
    }

    /** One entry of the channel loop: the colour byte takes the scaled value
        and the alpha byte 255, only when the value is strictly greater. */
    method OfferChannel(ghost start: seq<byte>, dmxChannelValues: map<u16, byte>, opacity: real,
                        ghost done: set<u16>, channel: u16)
      requires pixels.Length == DataFrameLength && |start| == DataFrameLength
      requires InUniverse(channel) && channel in dmxChannelValues && channel !in done
      requires pixels[..] == ApplyChannels(start, dmxChannelValues, opacity, done)
      modifies pixels
      ensures pixels[..] == ApplyChannels(start, dmxChannelValues, opacity, done + {channel})
    {
      ApplyChannelsStep(start, dmxChannelValues, opacity, done, channel);
      var colorChannelIndex := (channel - 1) * 2;
      var alphaChannelIndex := colorChannelIndex + 1;
      var newDmxValue := ToUint8(dmxChannelValues[channel] as real * opacity);
      if newDmxValue <= pixels[colorChannelIndex] {
        return;
      }
      pixels[colorChannelIndex] := newDmxValue;
      pixels[alphaChannelIndex] := 255;
    }

    /** Sets the first float field whose ID is `index`; for the active clip
        also its slot index `(std::uint8_t)value - 1`. */
    method SetFloatParameter(index: nat, value: real) returns (r: FFResult)
      requires Valid()
      modifies this
      ensures Valid()
      ensures layers == UpdateFloat(old(layers), index, value)
      ensures r == if FloatOwner(old(layers), index) < |old(layers)| then FFSuccess else FFFail
    {
      SetFloatChangesOnlyItsField(layers, index, value, index + 1);
      var k := 0;
      while k < |layers|
        invariant k <= |layers|
        invariant forall j :: 0 <= j < k ==> !FloatMatch(layers[j], index)
      {
        var layer := layers[k];
        if layer.activeClipParameterId == index {
          assert FloatOwner(layers, index) == k;
          layers := layers[k := layer.(activeClipParameterValue := value,
                                       activeClipIndex := (ToUint8(value) - 1) % 0x100)];
          return FFSuccess;
        }
        if layer.framePositionParameterId == index {
          assert FloatOwner(layers, index) == k;
          layers := layers[k := layer.(framePositionParameterValue := value)];
          return FFSuccess;
        }
        if layer.opacityParameterId == index {
          assert FloatOwner(layers, index) == k;
          layers := layers[k := layer.(opacityParameterValue := value)];
          return FFSuccess;
        }
        k := k + 1;
      }
      return FFFail;
    }

    /** Sets recording parameter `index` to `path`, whose file reads as
        `file`. A logic error of the reader or the decoder escapes, with
        every slot as it was. */
    method SetTextParameter(index: nat, path: string, file: FileContent) returns (r: Result<FFResult, LogicError>)
      requires Valid()
      modifies this
      ensures Valid()
      ensures r.Failure? ==> layers == old(layers) && SetText(old(layers), index, path, file) == Failure(r.error)
      ensures r.Success? ==> SetText(old(layers), index, path, file) == Success((r.value, layers))
    {
      var l := 0;
      while l < |layers|
        invariant l <= |layers|
        invariant forall j :: 0 <= j < l ==> !HasSlot(layers[j], index)
      {
        var s := 0;
        while s < |layers[l].recordedSequences|
          invariant s <= |layers[l].recordedSequences|
          invariant forall t :: 0 <= t < s ==> layers[l].recordedSequences[t].recordingParameterId != index
        {
          if layers[l].recordedSequences[s].recordingParameterId == index {
            SlotAt(layers, index, l, s);
            r := StoreRecording(l, s, path, file);
            return;
          }
          s := s + 1;
        }
        assert !HasSlot(layers[l], index);
        l := l + 1;
      }
      assert FindSlot(layers, index).None?;
      return Success(FFFail);
    }

    /** The body of `SetTextParameter` once slot `s` of layer `l` matched. */
    method StoreRecording(l: nat, s: nat, path: string, file: FileContent) returns (r: Result<FFResult, LogicError>)
      requires Valid() && l < |layers| && s < |layers[l].recordedSequences|
      modifies this
      ensures Valid()
      ensures r.Failure? ==> layers == old(layers) && Recording(path, file) == Failure(r.error)
      ensures r.Success? ==> (r.value == FFSuccess && Recording(path, file).Success? &&
        layers == WithSlot(old(layers), l, s, Recording(path, file).value.0, Recording(path, file).value.1))
    {
      if path == "" {
        Store(l, s, "", []);
        return Success(FFSuccess);
      }
      var dmxRecordingData := ReadCsvRecording(file);
      if dmxRecordingData.CouldNotOpen? {
        Store(l, s, "", []);
        return Success(FFSuccess);
      }
      if dmxRecordingData.Escaped? {
        return Failure(dmxRecordingData.error);
      }
      if dmxRecordingData.columns == [] {
        Store(l, s, "", []);
        return Success(FFSuccess);
      }
      var recordedFrames := DecodeFrames(dmxRecordingData.columns);
      if recordedFrames.Failure? {
        return Failure(recordedFrames.error);
      }
      DecodedInUniverse(dmxRecordingData.columns);
      Store(l, s, path, recordedFrames.value);
      return Success(FFSuccess);
    }

    /** Assigns a slot's path and frames. */
    method Store(l: nat, s: nat, path: string, frames: seq<Frame>)
      requires Valid() && l < |layers| && s < |layers[l].recordedSequences|
      requires FramesInUniverse(frames)
      modifies this
      ensures Valid()
      ensures layers == WithSlot(old(layers), l, s, path, frames)
    {
      WithSlotLayout(layers, l, s, path, frames);
      WithSlotInUniverse(layers, l, s, path, frames);
      layers := WithSlot(layers, l, s, path, frames);
    }

    /** `GetFloatParameter`: the field the ID names, 0.0 for an unknown ID. */
    function GetFloatParameter(index: nat): (v: real)
      reads this
      ensures Layout(layers) && index < NumLayers * IdsPerLayer ==>
        var layer := layers[index / IdsPerLayer];
        && (index % IdsPerLayer == NumSequencesPerLayer ==> v == layer.activeClipParameterValue)
        && (index % IdsPerLayer == NumSequencesPerLayer + 1 ==> v == layer.framePositionParameterValue)
        && (index % IdsPerLayer == NumSequencesPerLayer + 2 ==> v == layer.opacityParameterValue)
      ensures Layout(layers) && (index >= NumLayers * IdsPerLayer || index % IdsPerLayer < NumSequencesPerLayer) ==>
        v == 0.0
    {
      FloatValueInLayout(layers, index);
      FloatValue(layers, index)
    }

    /** `GetTextParameter`: the slot's path, `None` for an unknown ID. */
    function GetTextParameter(index: nat): (v: Option<string>)
      reads this
      ensures Layout(layers) ==>
        (v.Some? <==> index < NumLayers * IdsPerLayer && index % IdsPerLayer < NumSequencesPerLayer)
      ensures Layout(layers) && v.Some? ==>
        v.value == layers[index / IdsPerLayer].recordedSequences[index % IdsPerLayer].recordingParameterValue
    {
      TextValueInLayout(layers, index);
      TextValue(layers, index)
    }
  }

  /** Compositing one more layer extends the composite of the layers before it. */
  lemma CompositeNext(ls: seq<Layer>, li: nat)
    requires li < |ls|
    ensures Composite(ls[..li + 1]) == ApplyLayer(Composite(ls[..li]), ls[li])
  {
    assert ls[..li + 1][..li] == ls[..li];
  }

  /** A layer that throws after layers that do not is the first to throw. */
  lemma FirstThrowAt(ls: seq<Layer>, li: nat)
    requires li < |ls| && ActiveFrame(ls[li]).Throws?
    requires forall j :: 0 <= j < li ==> !ActiveFrame(ls[j]).Throws?
    ensures FirstThrow(ls) == li
  {
  }

  /** The slot the nested search loop stops at is the one `FindSlot` names. */
  lemma SlotAt(layers: seq<Layer>, index: nat, l: nat, s: nat)
    requires l < |layers| && s < |layers[l].recordedSequences|
    requires layers[l].recordedSequences[s].recordingParameterId == index
    requires forall j :: 0 <= j < l ==> !HasSlot(layers[j], index)
    requires forall t :: 0 <= t < s ==> layers[l].recordedSequences[t].recordingParameterId != index
    ensures FindSlot(layers, index) == Some((l, s))
  {
    var seqs := layers[l].recordedSequences;
    var t := SlotIndex(seqs, index);
    assert !(t < s) && !(s < t);
    assert HasSlot(layers[l], index);
    var k := SlotOwner(layers, index);
    assert !(k < l) && !(l < k);
  }

  lemma WithSlotInUniverse(layers: seq<Layer>, l: nat, s: nat, path: string, frames: seq<Frame>)
    requires AllInUniverse(layers) && l < |layers| && s < |layers[l].recordedSequences|
    requires FramesInUniverse(frames)
    ensures AllInUniverse(WithSlot(layers, l, s, path, frames))
  {
    var after := WithSlot(layers, l, s, path, frames);
    forall m, t | 0 <= m < |after| && 0 <= t < |after[m].recordedSequences|
      ensures FramesInUniverse(after[m].recordedSequences[t].frames)
    {
      if (m, t) != (l, s) {
        assert LayerFramesInUniverse(layers[m]);
      }
    }
  }

  /** A float getter in the engine's layout reads the field its ID names. */
  lemma FloatValueInLayout(layers: seq<Layer>, index: nat)
    ensures Layout(layers) && index < NumLayers * IdsPerLayer ==>
      var layer := layers[index / IdsPerLayer];
      && (index % IdsPerLayer == NumSequencesPerLayer ==> FloatValue(layers, index) == layer.activeClipParameterValue)
      && (index % IdsPerLayer == NumSequencesPerLayer + 1 ==> FloatValue(layers, index) == layer.framePositionParameterValue)
      && (index % IdsPerLayer == NumSequencesPerLayer + 2 ==> FloatValue(layers, index) == layer.opacityParameterValue)
    ensures Layout(layers) && (index >= NumLayers * IdsPerLayer || index % IdsPerLayer < NumSequencesPerLayer) ==>
      FloatValue(layers, index) == 0.0
  {
    if Layout(layers) {
      FloatRouting(layers, index);
      var l, r := index / IdsPerLayer, index % IdsPerLayer;
      if index < NumLayers * IdsPerLayer && r >= NumSequencesPerLayer {
        SplitId(index);
        OwnedFloat(layers, index, l, r);
      } else {
        assert FloatOwner(layers, index) == |layers|;
      }
    }
  }

  /** An ID is its layer's block start plus its offset in the block. */
  lemma SplitId(index: nat)
    ensures index == IdsPerLayer * (index / IdsPerLayer) + index % IdsPerLayer
    ensures index < NumLayers * IdsPerLayer ==> index / IdsPerLayer < NumLayers
  {
  }

  /** The float field an owned ID at offset `r` of layer `l` names. */
  lemma OwnedFloat(layers: seq<Layer>, index: nat, l: nat, r: nat)
    requires Layout(layers) && l < NumLayers && NumSequencesPerLayer <= r < IdsPerLayer
    requires index == IdsPerLayer * l + r && FloatOwner(layers, index) == l
    ensures r == NumSequencesPerLayer ==> FloatValue(layers, index) == layers[l].activeClipParameterValue
    ensures r == NumSequencesPerLayer + 1 ==> FloatValue(layers, index) == layers[l].framePositionParameterValue
    ensures r == NumSequencesPerLayer + 2 ==> FloatValue(layers, index) == layers[l].opacityParameterValue
  {
    assert LayerLayout(layers[l], l);
  }

  /** A text getter in the engine's layout reads the slot its ID names. */
  lemma TextValueInLayout(layers: seq<Layer>, index: nat)
    ensures Layout(layers) ==>
      (TextValue(layers, index).Some? <==> index < NumLayers * IdsPerLayer && index % IdsPerLayer < NumSequencesPerLayer)
    ensures Layout(layers) && TextValue(layers, index).Some? ==>
      TextValue(layers, index).value ==
        layers[index / IdsPerLayer].recordedSequences[index % IdsPerLayer].recordingParameterValue
  {
    if Layout(layers) {
      SlotRouting(layers, index);
    }
  }

  /** An ID that names no recording slot reports `FF_FAIL` and changes
      nothing; every other ID reports success or escapes. */
  lemma UnknownRecordingIdFails(layers: seq<Layer>, index: nat, path: string, file: FileContent)
    requires Layout(layers)
    ensures SetText(layers, index, path, file) == Success((FFFail, layers)) <==>
      !(index < NumLayers * IdsPerLayer && index % IdsPerLayer < NumSequencesPerLayer)
  {
    SlotRouting(layers, index);
  }

  /** An empty path, a file that cannot be opened, or a file without columns
      clears the slot: path "" and no frames, reported as success, with every
      other slot and every float parameter as it was. */
  lemma ClearingKeepsOtherSlots(layers: seq<Layer>, index: nat, path: string, file: FileContent, other: nat)
    requires Layout(layers) && FindSlot(layers, index).Some?
    requires path == "" || file == Unopenable || ReadCsv(file) == Parsed([])
    ensures var (l, s) := FindSlot(layers, index).value;
      SetText(layers, index, path, file) == Success((FFSuccess, WithSlot(layers, l, s, "", [])))
    ensures var after := SetText(layers, index, path, file).value.1;
      && TextValue(after, index) == Some("")
      && FloatValue(after, other) == FloatValue(layers, other)
  {
    var (l, s) := FindSlot(layers, index).value;
    if file == Unopenable {
      assert ReadCsv(file) == CouldNotOpen;
    }
    TextAfterStore(layers, index, "", []);
    WithSlotKeepsFloats(layers, l, s, "", [], other);
  }

  /** The outcome escapes exactly when the slot exists, the path is not
      empty, and either the reader throws or the decoder finds a column
      shorter than the first. */
  lemma EscapesOnlyOnLogicError(layers: seq<Layer>, index: nat, path: string, file: FileContent)
    ensures SetText(layers, index, path, file).Failure? <==>
      && FindSlot(layers, index).Some? && path != ""
      && (|| ReadCsv(file).Escaped?
          || (ReadCsv(file).Parsed? && ReadCsv(file).columns != [] &&
              exists k :: 0 <= k < |ReadCsv(file).columns| &&
                InUniverse(ReadCsv(file).columns[k].channel) &&
                |ReadCsv(file).columns[k].values| < |ReadCsv(file).columns[0].values|))
  {
    if ReadCsv(file).Parsed? && ReadCsv(file).columns != [] {
      DecodeOutcome(ReadCsv(file).columns);
    }
  }

  /** A file read without error into columns stores the decoded frames under
      the path, and `GetTextParameter` reads the path back. */
  lemma StoreDecodedRecording(layers: seq<Layer>, index: nat, path: string, file: FileContent)
    requires Layout(layers) && FindSlot(layers, index).Some? && path != ""
    requires ReadCsv(file).Parsed? && ReadCsv(file).columns != []
    requires Decode(ReadCsv(file).columns).Success?
    ensures var (l, s) := FindSlot(layers, index).value;
      SetText(layers, index, path, file) ==
        Success((FFSuccess, WithSlot(layers, l, s, path, Decode(ReadCsv(file).columns).value)))
    ensures TextValue(SetText(layers, index, path, file).value.1, index) == Some(path)
  {
    TextAfterStore(layers, index, path, Decode(ReadCsv(file).columns).value);
  }

  /** End to end: a recording written with distinct channel keys of the
      universe, stored under a recording parameter of the engine, plays back
      as one frame per data line, mapping exactly those keys to that line's
      values. */
  lemma StoredRecordingPlaysBack(layers: seq<Layer>, index: nat, path: string,
                                 keys: seq<u16>, table: seq<seq<byte>>)
    requires Layout(layers)
    requires index < NumLayers * IdsPerLayer && index % IdsPerLayer < NumSequencesPerLayer
    requires path != "" && |keys| > 0
    requires forall k :: 0 <= k < |keys| ==> InUniverse(keys[k])
    requires forall i, j :: 0 <= i < j < |keys| ==> keys[i] != keys[j]
    requires forall j :: 0 <= j < |table| ==> |table[j]| == |keys|
    ensures var r := SetText(layers, index, path, Opened(Lines(keys, table)));
      var l, s := index / IdsPerLayer, index % IdsPerLayer;
      && r.Success? && r.value.0 == FFSuccess
      && l < |r.value.1| && s < |r.value.1[l].recordedSequences|
      && r.value.1[l].recordedSequences[s].recordingParameterValue == path
      && |r.value.1[l].recordedSequences[s].frames| == |table|
      && forall t :: 0 <= t < |table| ==> PlaysRow(r.value.1[l].recordedSequences[s].frames[t], keys, table[t])
  {
    var file := Opened(Lines(keys, table));
    WrittenFramesPlayBack(keys, table);
    var frames := Decode(Transpose(keys, table)).value;
    assert Recording(path, file) == Success((path, frames));
    SlotRouting(layers, index);
    var l, s := index / IdsPerLayer, index % IdsPerLayer;
    assert SetText(layers, index, path, file) == Success((FFSuccess, WithSlot(layers, l, s, path, frames)));
  }

  /** The written recording reads back as its columns and decodes into one
      frame per data line. */
  lemma WrittenFramesPlayBack(keys: seq<u16>, table: seq<seq<byte>>)
    requires |keys| > 0
    requires forall k :: 0 <= k < |keys| ==> InUniverse(keys[k])
    requires forall i, j :: 0 <= i < j < |keys| ==> keys[i] != keys[j]
    requires forall j :: 0 <= j < |table| ==> |table[j]| == |keys|
    ensures ReadCsv(Opened(Lines(keys, table))) == Parsed(Transpose(keys, table))
    ensures Decode(Transpose(keys, table)).Success?
    ensures |Decode(Transpose(keys, table)).value| == |table|
    ensures forall t :: 0 <= t < |table| ==> PlaysRow(Decode(Transpose(keys, table)).value[t], keys, table[t])
  {
    var cols := Transpose(keys, table);
    ReadWrittenRecording(keys, table);
    DecodeOutcome(cols);
    assert forall k :: 0 <= k < |cols| ==> cols[k].channel == keys[k] && |cols[k].values| == |table|;
    var frames := Decode(cols).value;
    forall t | 0 <= t < |table| ensures PlaysRow(frames[t], keys, table[t]) {
      TransposedFrame(keys, table, t);
    }
  }

  /** Frame `t` of the decoded columns is data line `t`. */
  lemma TransposedFrame(keys: seq<u16>, table: seq<seq<byte>>, t: nat)
    requires |keys| > 0 && t < |table|
    requires forall k :: 0 <= k < |keys| ==> InUniverse(keys[k])
    requires forall i, j :: 0 <= i < j < |keys| ==> keys[i] != keys[j]
    requires forall j :: 0 <= j < |table| ==> |table[j]| == |keys|
    requires Decode(Transpose(keys, table)).Success?
    ensures t < |Decode(Transpose(keys, table)).value|
    ensures PlaysRow(Decode(Transpose(keys, table)).value[t], keys, table[t])
  {
    var cols := Transpose(keys, table);
    assert forall k :: 0 <= k < |cols| ==> cols[k].channel == keys[k];
    assert |cols[0].values| == |table|;
    DistinctChannelsFrame(cols, t);
    var f := Decode(cols).value[t];
    forall k | 0 <= k < |keys| ensures keys[k] in f.values && f.values[keys[k]] == table[t][k] {
      assert cols[k].channel == keys[k] && cols[k].values[t] == table[t][k];
    }
  }

  /** Frame `f` maps exactly the keys `keys`, key `k` to `row[k]`. */
  predicate PlaysRow(f: Frame, keys: seq<u16>, row: seq<byte>)
    requires |row| == |keys|
  {
    && |f.values| == |keys|
    && forall k :: 0 <= k < |keys| ==> keys[k] in f.values && f.values[keys[k]] == row[k]
  }
}
