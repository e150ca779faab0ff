/** Parameter IDs of the DMX playback source and how `DmxPlayback`'s
    setters and getters route an ID to a layer field or a recording slot
    (DmxPlayback.cpp:55-83, 242-270, 273-351, 353-391), stated as functions
    over the layers. The class `Playback.DmxPlayback` is proved against them. */
module ParameterRouting {
  import opened Wrappers
  import opened DmxTypes
  import opened Compositor

  /** IDs the constructor gives layer `l` (0-based): its recording slots
      first, then active clip, frame position and opacity. */
  function SlotId(l: nat, s: nat): nat { IdsPerLayer * l + s }
  function ClipId(l: nat): nat { IdsPerLayer * l + NumSequencesPerLayer }
  function PositionId(l: nat): nat { IdsPerLayer * l + NumSequencesPerLayer + 1 }
  function OpacityId(l: nat): nat { IdsPerLayer * l + NumSequencesPerLayer + 2 }

  /** Layer `layer` sits at index `l` with the slots and IDs the constructor
      gave it. */
  predicate LayerLayout(layer: Layer, l: nat)
  {
    && layer.layerNumber == l + 1
    && |layer.recordedSequences| == NumSequencesPerLayer
    && (forall s :: 0 <= s < NumSequencesPerLayer ==>
          layer.recordedSequences[s].sequenceNumber == s + 1 &&
          layer.recordedSequences[s].recordingParameterId == SlotId(l, s))
    && layer.activeClipParameterId == ClipId(l)
    && layer.framePositionParameterId == PositionId(l)
    && layer.opacityParameterId == OpacityId(l)
  }

  /** Every layer of `layers` has the layout of its index. */
  predicate LaidOut(layers: seq<Layer>)
  {
    forall l :: 0 <= l < |layers| ==> l < 0x100 && LayerLayout(layers[l], l)
  }

  /** The layout of the whole engine: 16 layers of 10 slots. */
  predicate Layout(layers: seq<Layer>)
  {
    |layers| == NumLayers && LaidOut(layers)
  }

  /** Layer `l` as the constructor leaves it. Its `activeClipIndex` is left
      uninitialised by the constructor; here it starts at 0, the slot that
      the active-clip value 1.0 selects. */
  function InitialLayer(l: nat): (layer: Layer)
    requires l < NumLayers
    ensures LayerLayout(layer, l)
  {
    Layer(
      l + 1,
      seq(NumSequencesPerLayer, s requires 0 <= s < NumSequencesPerLayer =>
        RecordedSequence(s + 1, SlotId(l, s), "", [])),
      ClipId(l), 1.0, 0,
      PositionId(l), 1.0,
      OpacityId(l), 1.0)
  }

  /** The layers as the constructor leaves them. */
  function InitialLayers(): (layers: seq<Layer>)
    ensures Layout(layers)
  {
    seq(NumLayers, l requires 0 <= l < NumLayers => InitialLayer(l))
  }

  /** The IDs of one layer, in the order the constructor allocates them. */
  function LayerIds(layer: Layer): (ids: seq<nat>)
    ensures |ids| == |layer.recordedSequences| + 3
  {
    seq(|layer.recordedSequences|, s requires 0 <= s < |layer.recordedSequences| =>
      layer.recordedSequences[s].recordingParameterId)
    + [layer.activeClipParameterId, layer.framePositionParameterId, layer.opacityParameterId]
  }

  /** All IDs of the engine, in allocation order. */
  function AllIds(layers: seq<Layer>): seq<nat>
  {
    if layers == [] then [] else AllIds(layers[..|layers| - 1]) + LayerIds(layers[|layers| - 1])
  }

  /** `nextParameterId` counts up from 0: the IDs are exactly 0, 1, 2, ...
      in allocation order, so they are distinct and contiguous. */
  lemma {:induction false} IdsAreContiguous(layers: seq<Layer>)
    requires LaidOut(layers)
    ensures AllIds(layers) == seq(IdsPerLayer * |layers|, i => i)
  {
    if layers != [] {
      var n := |layers| - 1;
      var init := layers[..n];
      assert LaidOut(init) by {
        forall l | 0 <= l < |init| ensures l < 0x100 && LayerLayout(init[l], l) {
          assert init[l] == layers[l];
        }
      }
      IdsAreContiguous(init);
      LayerIdsOf(layers[n], n);
      assert seq(IdsPerLayer * n, i => i) + seq(IdsPerLayer, i => IdsPerLayer * n + i)
          == seq(IdsPerLayer * |layers|, i => i);
    }
  }

  /** The IDs of the layer at index `n`: 13n, 13n + 1, ..., 13n + 12. */
  lemma LayerIdsOf(layer: Layer, n: nat)
    requires LayerLayout(layer, n)
    ensures LayerIds(layer) == seq(IdsPerLayer, i => IdsPerLayer * n + i)
  {
    var ids := LayerIds(layer);
    forall i | 0 <= i < IdsPerLayer ensures ids[i] == IdsPerLayer * n + i {
    }
  }

  /** The engine's 208 IDs are 0..207. */
  lemma EngineIds(layers: seq<Layer>)
    requires Layout(layers)
    ensures |AllIds(layers)| == NumLayers * IdsPerLayer == 208
    ensures forall i :: 0 <= i < 208 ==> AllIds(layers)[i] == i
  {
    IdsAreContiguous(layers);
  }

  // ----- Float parameters -----

  /** The layer owns float parameter `index`. */
  predicate FloatMatch(layer: Layer, index: nat)
  {
    layer.activeClipParameterId == index || layer.framePositionParameterId == index ||
    layer.opacityParameterId == index
  }

  /** The first layer owning float parameter `index`, or `|layers|`. */
  function FloatOwner(layers: seq<Layer>, index: nat): (k: nat)
    ensures k <= |layers|
    ensures forall j :: 0 <= j < k ==> !FloatMatch(layers[j], index)
    ensures k < |layers| ==> FloatMatch(layers[k], index)
  {
    if layers == [] then 0
    else if FloatMatch(layers[0], index) then 0
    else 1 + FloatOwner(layers[1..], index)
  }

  /** `(std::uint8_t)value - 1`, stored back into a `std::uint8_t`. */
  function ClipIndex(value: real): (i: byte)
    ensures ToUint8(value) >= 1 ==> i == ToUint8(value) - 1
    ensures ToUint8(value) == 0 ==> i == 0xFF
  {
    (ToUint8(value) - 1) % 0x100
  }

  /** The layer after float parameter `index`, which it owns, was set. The
      fields are tested in the order of the source: active clip, frame
      position, opacity. */
  function SetField(layer: Layer, index: nat, value: real): (r: Layer)
    ensures FloatMatch(layer, index) ==> FieldValue(r, index) == value
    ensures !FloatMatch(layer, index) ==> r == layer
    ensures SameIds(layer, r)
    ensures layer.activeClipParameterId == index ==> r.activeClipIndex == ClipIndex(value)
    ensures layer.activeClipParameterId != index ==> r.activeClipIndex == layer.activeClipIndex
  {
    if layer.activeClipParameterId == index then
      layer.(activeClipParameterValue := value, activeClipIndex := ClipIndex(value))
    else if layer.framePositionParameterId == index then
      layer.(framePositionParameterValue := value)
    else if layer.opacityParameterId == index then
      layer.(opacityParameterValue := value)
    else layer
  }

  /** The value of the float field that `index` names in `layer`. */
  function FieldValue(layer: Layer, index: nat): real
  {
    if layer.activeClipParameterId == index then layer.activeClipParameterValue
    else if layer.framePositionParameterId == index then layer.framePositionParameterValue
    else if layer.opacityParameterId == index then layer.opacityParameterValue
    else 0.0
  }

  /** The layers after `SetFloatParameter(index, value)`. */
  function UpdateFloat(layers: seq<Layer>, index: nat, value: real): (r: seq<Layer>)
    ensures |r| == |layers|
  {
    var k := FloatOwner(layers, index);
    if k < |layers| then layers[k := SetField(layers[k], index, value)] else layers
  }

  /** What `GetFloatParameter(index)` returns. */
  function FloatValue(layers: seq<Layer>, index: nat): (v: real)
    ensures FloatOwner(layers, index) == |layers| ==> v == 0.0
  {
    var k := FloatOwner(layers, index);
    if k < |layers| then FieldValue(layers[k], index) else 0.0
  }

  /** In the engine's layout, float parameter `index` belongs to layer
      `index / 13` exactly when it is one of that layer's last three IDs. */
  lemma FloatRouting(layers: seq<Layer>, index: nat)
    requires Layout(layers)
    ensures FloatOwner(layers, index) < |layers| <==>
      index < NumLayers * IdsPerLayer && index % IdsPerLayer >= NumSequencesPerLayer
    ensures FloatOwner(layers, index) < |layers| ==> FloatOwner(layers, index) == index / IdsPerLayer
  {
    var k := FloatOwner(layers, index);
    if index < NumLayers * IdsPerLayer && index % IdsPerLayer >= NumSequencesPerLayer {
      var l := index / IdsPerLayer;
      assert LayerLayout(layers[l], l);
      assert FloatMatch(layers[l], index);
    }
    if k < |layers| {
      assert LayerLayout(layers[k], k);
    }
  }

  /** Setting a float parameter and reading it back gives the value set. */
  lemma GetAfterSetFloat(layers: seq<Layer>, index: nat, value: real)
    requires FloatOwner(layers, index) < |layers|
    ensures FloatValue(UpdateFloat(layers, index, value), index) == value
  {
    var k := FloatOwner(layers, index);
    var after := UpdateFloat(layers, index, value);
    FloatOwnerSameIds(layers, after, index);
  }

  /** Two layer lists with the same IDs route every ID alike. */
  lemma {:induction false} FloatOwnerSameIds(ls: seq<Layer>, ms: seq<Layer>, index: nat)
    requires |ls| == |ms|
    requires forall j :: 0 <= j < |ls| ==> SameIds(ls[j], ms[j])
    ensures FloatOwner(ls, index) == FloatOwner(ms, index)
  {
    if ls != [] {
      FloatOwnerSameIds(ls[1..], ms[1..], index);
    }
  }

  /** The layers carry the same parameter IDs. */
  predicate SameIds(a: Layer, b: Layer)
  {
    && a.activeClipParameterId == b.activeClipParameterId
    && a.framePositionParameterId == b.framePositionParameterId
    && a.opacityParameterId == b.opacityParameterId
    && |a.recordedSequences| == |b.recordedSequences|
    && forall s :: 0 <= s < |a.recordedSequences| ==>
         a.recordedSequences[s].recordingParameterId == b.recordedSequences[s].recordingParameterId
  }

  /** In the engine's layout, setting float parameter `index` changes no other
      float parameter, leaves every recording slot and the layout as they
      were, and an unknown ID changes nothing. */
  lemma SetFloatChangesOnlyItsField(layers: seq<Layer>, index: nat, value: real, other: nat)
    requires Layout(layers) && other != index
    ensures Layout(UpdateFloat(layers, index, value))
    ensures FloatValue(UpdateFloat(layers, index, value), other) == FloatValue(layers, other)
    ensures forall l :: 0 <= l < |layers| ==>
      UpdateFloat(layers, index, value)[l].recordedSequences == layers[l].recordedSequences
    ensures FloatOwner(layers, index) == |layers| ==> UpdateFloat(layers, index, value) == layers
  {
    var after := UpdateFloat(layers, index, value);
    var k := FloatOwner(layers, index);
    if k < |layers| {
      assert LayerLayout(layers[k], k);
      assert LayerLayout(after[k], k);
      assert LaidOut(after) by {
        forall l | 0 <= l < |after| ensures l < 0x100 && LayerLayout(after[l], l) {
          assert LayerLayout(layers[l], l);
        }
      }
    }
    FloatOwnerSameIds(layers, after, other);
  }

  /** In the engine's layout, setting a float parameter re-selects the active
      clip of the layer whose active-clip ID it is, and of no other layer. */
  lemma SetFloatActiveClip(layers: seq<Layer>, index: nat, value: real)
    requires Layout(layers)
    ensures forall l :: 0 <= l < |layers| ==>
      UpdateFloat(layers, index, value)[l].activeClipIndex ==
        if layers[l].activeClipParameterId == index then ClipIndex(value) else layers[l].activeClipIndex
  {
    forall l | 0 <= l < |layers|
      ensures UpdateFloat(layers, index, value)[l].activeClipIndex ==
        if layers[l].activeClipParameterId == index then ClipIndex(value) else layers[l].activeClipIndex
    {
      if layers[l].activeClipParameterId == index {
        assert LayerLayout(layers[l], l);
        ClipOwner(layers, l);
      }
    }
  }

  /** Active-clip value n in 1..10 selects slot n - 1 of that layer. */
  lemma ClipValueSelectsSlot(layers: seq<Layer>, l: nat, n: nat)
    requires Layout(layers) && l < NumLayers && 1 <= n <= NumSequencesPerLayer
    ensures UpdateFloat(layers, ClipId(l), n as real)[l].activeClipIndex == n - 1
    ensures UpdateFloat(layers, ClipId(l), n as real)[l].activeClipParameterValue == n as real
  {
    ClipOwner(layers, l);
    ClipIndexOfWhole(n);
  }

  /** Active-clip value 0 wraps to slot index 255, so that layer's next
      composite throws `std::out_of_range`. */
  lemma ClipValueZeroThrows(layers: seq<Layer>, l: nat)
    requires Layout(layers) && l < NumLayers
    ensures UpdateFloat(layers, ClipId(l), 0.0)[l].activeClipIndex == 255
    ensures ActiveFrame(UpdateFloat(layers, ClipId(l), 0.0)[l]).Throws?
  {
    ClipOwner(layers, l);
    ClipIndexOfWhole(0);
    var after := UpdateFloat(layers, ClipId(l), 0.0)[l];
    assert |after.recordedSequences| == NumSequencesPerLayer;
  }

  /** The active-clip ID of layer `l` belongs to layer `l` and to no earlier one. */
  lemma ClipOwner(layers: seq<Layer>, l: nat)
    requires Layout(layers) && l < NumLayers
    ensures FloatOwner(layers, ClipId(l)) == l
    ensures layers[l].activeClipParameterId == ClipId(l)
    ensures |layers[l].recordedSequences| == NumSequencesPerLayer
  {
    FloatRouting(layers, ClipId(l));
    IdDecodes(l, NumSequencesPerLayer);
    assert LayerLayout(layers[l], l);
  }

  /** `(std::uint8_t)n - 1` for a whole value `n` below 256. */
  lemma ClipIndexOfWhole(n: nat)
    requires n < 0x100
    ensures ClipIndex(n as real) == (n - 1) % 0x100
  {
    assert (n as real).Floor == n;
    assert Trunc(n as real) == n;
  }

  // ----- Text (recording file) parameters -----

  /** Index of the first slot of `seqs` with ID `index`, or `|seqs|`. */
  function SlotIndex(seqs: seq<RecordedSequence>, index: nat): (s: nat)
    ensures s <= |seqs|
    ensures forall j :: 0 <= j < s ==> seqs[j].recordingParameterId != index
    ensures s < |seqs| ==> seqs[s].recordingParameterId == index
  {
    if seqs == [] then 0
    else if seqs[0].recordingParameterId == index then 0
    else 1 + SlotIndex(seqs[1..], index)
  }

  predicate HasSlot(layer: Layer, index: nat)
  {
    SlotIndex(layer.recordedSequences, index) < |layer.recordedSequences|
  }

  /** The first layer holding a slot with ID `index`, or `|layers|`. */
  function SlotOwner(layers: seq<Layer>, index: nat): (k: nat)
    ensures k <= |layers|
    ensures forall j :: 0 <= j < k ==> !HasSlot(layers[j], index)
    ensures k < |layers| ==> HasSlot(layers[k], index)
  {
    if layers == [] then 0
    else if HasSlot(layers[0], index) then 0
    else 1 + SlotOwner(layers[1..], index)
  }

  /** Layer and slot of recording parameter `index`, if any. */
  function FindSlot(layers: seq<Layer>, index: nat): (r: Option<(nat, nat)>)
    ensures r.Some? ==> r.value.0 < |layers| && r.value.1 < |layers[r.value.0].recordedSequences|
    ensures r.Some? ==> layers[r.value.0].recordedSequences[r.value.1].recordingParameterId == index
    ensures r.None? <==> forall l, s :: 0 <= l < |layers| && 0 <= s < |layers[l].recordedSequences| ==>
      layers[l].recordedSequences[s].recordingParameterId != index
  {
    var l := SlotOwner(layers, index);
    if l < |layers| then Some((l, SlotIndex(layers[l].recordedSequences, index)))
    else
      assert forall l, s :: 0 <= l < |layers| && 0 <= s < |layers[l].recordedSequences| ==>
        layers[l].recordedSequences[s].recordingParameterId != index by {
        forall l, s | 0 <= l < |layers| && 0 <= s < |layers[l].recordedSequences|
          ensures layers[l].recordedSequences[s].recordingParameterId != index
        {
          assert !HasSlot(layers[l], index);
        }
      }
      None
  }

  /** The layers with slot `s` of layer `l` holding `path` and `frames`. */
  function WithSlot(layers: seq<Layer>, l: nat, s: nat, path: string, frames: seq<Frame>): (r: seq<Layer>)
    requires l < |layers| && s < |layers[l].recordedSequences|
    ensures |r| == |layers|
    ensures |r[l].recordedSequences| == |layers[l].recordedSequences|
    ensures r[l].recordedSequences[s].recordingParameterValue == path
    ensures r[l].recordedSequences[s].frames == frames
    ensures forall m, t :: 0 <= m < |layers| && 0 <= t < |layers[m].recordedSequences| && (m, t) != (l, s) ==>
      t < |r[m].recordedSequences| && r[m].recordedSequences[t] == layers[m].recordedSequences[t]
  {
    var layer := layers[l];
    var slot := layer.recordedSequences[s];
    layers[l := layer.(recordedSequences :=
      layer.recordedSequences[s := slot.(recordingParameterValue := path, frames := frames)])]
  }

  /** What `GetTextParameter(index)` returns: the slot's path, or `None` for
      the `(char*)FF_FAIL` of an unknown ID. */
  function TextValue(layers: seq<Layer>, index: nat): (v: Option<string>)
    ensures v.Some? <==> FindSlot(layers, index).Some?
  {
    match FindSlot(layers, index)
    case Some((l, s)) => Some(layers[l].recordedSequences[s].recordingParameterValue)
    case None => None
  }

  /** In the engine's layout, recording parameter `index` is slot
      `index % 13` of layer `index / 13` exactly when `index % 13 < 10`. */
  lemma SlotRouting(layers: seq<Layer>, index: nat)
    requires Layout(layers)
    ensures FindSlot(layers, index).Some? <==>
      index < NumLayers * IdsPerLayer && index % IdsPerLayer < NumSequencesPerLayer
    ensures FindSlot(layers, index).Some? ==>
      FindSlot(layers, index) == Some((index / IdsPerLayer, index % IdsPerLayer))
  {
    if index < NumLayers * IdsPerLayer && index % IdsPerLayer < NumSequencesPerLayer {
      SlotExists(layers, index);
    }
    if FindSlot(layers, index).Some? {
      SlotFound(layers, index);
    }
  }

  lemma SlotExists(layers: seq<Layer>, index: nat)
    requires Layout(layers)
    requires index < NumLayers * IdsPerLayer && index % IdsPerLayer < NumSequencesPerLayer
    ensures FindSlot(layers, index).Some?
  {
    var l := index / IdsPerLayer;
    var s := index % IdsPerLayer;
    SlotIdOf(layers, l, s);
    assert SlotId(l, s) == index;
    assert layers[l].recordedSequences[s].recordingParameterId == index;
  }

  lemma SlotFound(layers: seq<Layer>, index: nat)
    requires Layout(layers) && FindSlot(layers, index).Some?
    ensures index < NumLayers * IdsPerLayer && index % IdsPerLayer < NumSequencesPerLayer
    ensures FindSlot(layers, index) == Some((index / IdsPerLayer, index % IdsPerLayer))
  {
    var (l, s) := FindSlot(layers, index).value;
    assert s < NumSequencesPerLayer by {
      assert LayerLayout(layers[l], l);
    }
    SlotIdOf(layers, l, s);
    IdDecodes(l, s);
  }

  /** The ID of slot `s` of layer `l` in the engine's layout. */
  lemma SlotIdOf(layers: seq<Layer>, l: nat, s: nat)
    requires Layout(layers) && l < |layers| && s < NumSequencesPerLayer
    ensures s < |layers[l].recordedSequences|
    ensures layers[l].recordedSequences[s].recordingParameterId == SlotId(l, s)
  {
    assert LayerLayout(layers[l], l);
  }

  /** An ID names its layer and its position within the layer. */
  lemma IdDecodes(l: nat, s: nat)
    requires s < IdsPerLayer
    ensures (IdsPerLayer * l + s) / IdsPerLayer == l
    ensures (IdsPerLayer * l + s) % IdsPerLayer == s
  {
  }

  /** Storing into a slot changes no float parameter. */
  lemma WithSlotKeepsFloats(layers: seq<Layer>, l: nat, s: nat, path: string, frames: seq<Frame>, other: nat)
    requires Layout(layers) && l < |layers| && s < |layers[l].recordedSequences|
    ensures FloatValue(WithSlot(layers, l, s, path, frames), other) == FloatValue(layers, other)
  {
    WithSlotLayout(layers, l, s, path, frames);
    FloatOwnerSameIds(layers, WithSlot(layers, l, s, path, frames), other);
  }

  /** After storing into the slot of recording parameter `index`,
      `GetTextParameter(index)` returns the stored path. */
  lemma TextAfterStore(layers: seq<Layer>, index: nat, path: string, frames: seq<Frame>)
    requires Layout(layers) && FindSlot(layers, index).Some?
    ensures var (l, s) := FindSlot(layers, index).value;
      TextValue(WithSlot(layers, l, s, path, frames), index) == Some(path)
  {
    var (l, s) := FindSlot(layers, index).value;
    var after := WithSlot(layers, l, s, path, frames);
    WithSlotLayout(layers, l, s, path, frames);
    SlotRouting(layers, index);
    SlotRouting(after, index);
  }

  lemma WithSlotLayout(layers: seq<Layer>, l: nat, s: nat, path: string, frames: seq<Frame>)
    requires Layout(layers) && l < |layers| && s < |layers[l].recordedSequences|
    ensures Layout(WithSlot(layers, l, s, path, frames))
    ensures forall m :: 0 <= m < |layers| ==> SameIds(layers[m], WithSlot(layers, l, s, path, frames)[m])
  {
    var after := WithSlot(layers, l, s, path, frames);
    forall m | 0 <= m < |after| ensures m < 0x100 && LayerLayout(after[m], m) {
      assert LayerLayout(layers[m], m);
    }
  }
}
