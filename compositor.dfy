/** The playback cursor and the highest-takes-precedence (HTP) compositor of
    `DmxPlayback::ProcessOpenGL` (DmxPlayback.cpp:160-201), stated as functions
    over the layers. The in-place version over the pixel array is
    `Playback.DmxPlayback.ProcessOpenGL`, proved equal to `Composite`.

    Floats are modelled as reals: `p * N` and `raw * opacity` are exact here. */
module Compositor {
  import opened DmxTypes

  /** C++ float-to-integer conversion: truncation toward zero. */
  function Trunc(x: real): (n: int)
    ensures 0.0 <= x ==> n as real <= x < n as real + 1.0
    ensures x < 0.0 ==> x <= n as real < x + 1.0
  {
    if x >= 0.0 then x.Floor else -((-x).Floor)
  }

  /** `(unsigned char)x`. Within [0, 256) this truncates; outside it C++ leaves
      the result undefined, and the model wraps modulo 256. */
  function ToUint8(x: real): (b: byte)
    ensures 0.0 <= x < 256.0 ==> b as real <= x < b as real + 1.0
  {
    Trunc(x) % 0x100
  }

  /** The value a layer writes for a raw channel value: `raw * opacity`, cast. */
  function Scale(raw: byte, opacity: real): byte
  {
    ToUint8(Scaled(raw, opacity))
  }

  /** `raw * opacity` before the cast. */
  function Scaled(raw: byte, opacity: real): real
  {
    raw as real * opacity
  }

  /** With an opacity in [0, 1] a layer never brightens a channel, and at full
      opacity it writes the recorded value itself. */
  lemma ScaleWithinRaw(raw: byte, opacity: real)
    requires 0.0 <= opacity <= 1.0
    ensures Scale(raw, opacity) <= raw
    ensures opacity == 1.0 ==> Scale(raw, opacity) == raw
  {
    ScaledWithin(raw, opacity);
    Uint8Below(Scaled(raw, opacity), raw, Scale(raw, opacity));
  }

  lemma ScaledWithin(raw: byte, opacity: real)
    requires 0.0 <= opacity <= 1.0
    ensures 0.0 <= Scaled(raw, opacity) <= raw as real
    ensures opacity == 1.0 ==> Scaled(raw, opacity) == raw as real
  {
    ProductWithin(raw as real, opacity, raw as real * opacity);
  }

  lemma Uint8Below(x: real, bound: byte, b: byte)
    requires 0.0 <= x <= bound as real && b == ToUint8(x)
    ensures b <= bound
    ensures x == bound as real ==> b == bound
  {
    assert b as real <= x < b as real + 1.0;
  }

  lemma ProductWithin(a: real, o: real, x: real)
    requires 0.0 <= a && 0.0 <= o <= 1.0 && x == a * o
    ensures 0.0 <= x <= a
    ensures o == 1.0 ==> x == a
  {
    assert a * (1.0 - o) >= 0.0;
  }

  /** Frame picked for scrub position `p` in a sequence of `n` frames:
      `size_t(floor(p * n))`, stepped back by one when it equals `n`. */
  function FrameIndex(p: real, n: nat): (i: int)
    requires n > 0
    ensures 0.0 <= p <= 1.0 ==> 0 <= i < n
    ensures 0.0 <= p < 1.0 ==> i as real <= p * n as real < i as real + 1.0
    ensures p == 1.0 ==> i == n - 1
    ensures 0 <= i < n <==> 0.0 <= p && p * n as real < n as real + 1.0
  {
    var x := p * n as real;
    var i := x.Floor;
    assert i as real <= x < i as real + 1.0;
    assert 0.0 <= x <==> 0.0 <= p by { SignOfProduct(p, n as real, x); }
    if 0.0 <= p <= 1.0 then
      ProductWithin(n as real, p, x);
      if i == n then n - 1 else i
    else if i == n then n - 1 else i
  }

  /** With a positive factor, a product has the sign of its other factor. */
  lemma SignOfProduct(p: real, n: real, x: real)
    requires n > 0.0 && x == p * n
    ensures 0.0 <= x <==> 0.0 <= p
  {
    if p < 0.0 {
      assert x == p * n < 0.0 * n;
    }
  }

  /** What a layer does in one tick. */
  datatype Choice =
    | Idle                   // its active sequence has no frames
    | Throws                 // `.at` is out of range (clip index or frame index)
    | Current(frame: Frame)  // it composites this frame

  /** The frame a layer composites this tick (DmxPlayback.cpp:164-178). */
  function ActiveFrame(layer: Layer): (ch: Choice)
    ensures ch.Idle? <==>
      layer.activeClipIndex < |layer.recordedSequences| &&
      layer.recordedSequences[layer.activeClipIndex].frames == []
    ensures layer.activeClipIndex >= |layer.recordedSequences| ==> ch.Throws?
    ensures (layer.activeClipIndex < |layer.recordedSequences| &&
             0.0 <= layer.framePositionParameterValue <= 1.0) ==> !ch.Throws?
    ensures layer.activeClipIndex < |layer.recordedSequences| ==>
      var p, n := layer.framePositionParameterValue, |layer.recordedSequences[layer.activeClipIndex].frames|;
      n > 0 ==> (ch.Throws? <==> !(0.0 <= p && p * n as real < n as real + 1.0))
    ensures ch.Current? ==>
      var frames := layer.recordedSequences[layer.activeClipIndex].frames;
      && frames != []
      && 0 <= FrameIndex(layer.framePositionParameterValue, |frames|) < |frames|
      && ch.frame == frames[FrameIndex(layer.framePositionParameterValue, |frames|)]
  {
    if layer.activeClipIndex >= |layer.recordedSequences| then Throws
    else
      var frames := layer.recordedSequences[layer.activeClipIndex].frames;
      if |frames| == 0 then Idle
      else
        var i := FrameIndex(layer.framePositionParameterValue, |frames|);
        if 0 <= i < |frames| then Current(frames[i]) else Throws
  }

  /** Index of the first layer whose tick throws, or `|layers|` if none does. */
  function FirstThrow(layers: seq<Layer>): (k: nat)
    ensures k <= |layers|
    ensures forall j :: 0 <= j < k ==> !ActiveFrame(layers[j]).Throws?
    ensures k < |layers| ==> ActiveFrame(layers[k]).Throws?
  {
    if layers == [] then 0
    else if ActiveFrame(layers[0]).Throws? then 0
    else 1 + FirstThrow(layers[1..])
  }

  predicate NoneThrows(layers: seq<Layer>)
  {
    forall j :: 0 <= j < |layers| ==> !ActiveFrame(layers[j]).Throws?
  }

  /** The scaled value a layer offers channel `c` this tick (0 when it has none;
      a 0 never wins the strict comparison, so it is the same as none). */
  function Contribution(layer: Layer, c: u16): (v: byte)
    ensures v > 0 ==> ActiveFrame(layer).Current? && c in ActiveFrame(layer).frame.values
  {
    match ActiveFrame(layer)
    case Current(f) => if c in f.values then Scale(f.values[c], layer.opacityParameterValue) else 0
    case _ => 0
  }

  function Max(a: byte, b: byte): byte { if a < b then b else a }

  /** HTP value of channel `c`: the largest contribution of any layer. */
  function Colour(layers: seq<Layer>, c: u16): byte
  {
    if layers == [] then 0
    else Max(Colour(layers[..|layers| - 1], c), Contribution(layers[|layers| - 1], c))
  }

  /** The buffer `std::fill_n` leaves at the start of a tick. */
  function Zeros(): (px: seq<byte>)
    ensures |px| == DataFrameLength
    ensures forall i :: 0 <= i < DataFrameLength ==> px[i] == 0
  {
    seq(DataFrameLength, _ => 0)
  }

  /** The buffer after the channels `cs` of frame values `f` have been offered,
      at `opacity`, to buffer `px`: a channel's colour byte is overwritten, and
      its alpha byte set to 255, only when the scaled value is strictly greater. */
  function ApplyChannels(px: seq<byte>, f: map<u16, byte>, opacity: real, cs: set<u16>): (r: seq<byte>)
    requires |px| == DataFrameLength
    ensures |r| == DataFrameLength
  {
    seq(DataFrameLength, i requires 0 <= i < DataFrameLength =>
      var c := ChannelAt(i) as u16;
      if c in cs && c in f && Scale(f[c], opacity) > px[ColourIndex(c)] then
        (if i == ColourIndex(c) then Scale(f[c], opacity) else 255)
      else px[i])
  }

  /** One layer's pass over the buffer (DmxPlayback.cpp:180-201). */
  function ApplyLayer(px: seq<byte>, layer: Layer): (r: seq<byte>)
    requires |px| == DataFrameLength
    ensures |r| == DataFrameLength
  {
    match ActiveFrame(layer)
    case Current(f) => ApplyChannels(px, f.values, layer.opacityParameterValue, f.values.Keys)
    case _ => px
  }

  /** The buffer after all `layers` have been composited in order, from zero. */
  function Composite(layers: seq<Layer>): (px: seq<byte>)
    ensures |px| == DataFrameLength
  {
    if layers == [] then Zeros()
    else ApplyLayer(Composite(layers[..|layers| - 1]), layers[|layers| - 1])
  }

  /** One step of the channel loop: offering one more channel changes at most
      that channel's two bytes, and only on a strictly greater value. */
  lemma ApplyChannelsStep(px: seq<byte>, f: map<u16, byte>, opacity: real, done: set<u16>, c: u16)
    requires |px| == DataFrameLength
    requires InUniverse(c) && c in f && c !in done
    ensures var before := ApplyChannels(px, f, opacity, done);
            var v := Scale(f[c], opacity);
            ApplyChannels(px, f, opacity, done + {c}) ==
              if v > before[ColourIndex(c)]
              then before[ColourIndex(c) := v][AlphaIndex(c) := 255]
              else before
  {
    var before := ApplyChannels(px, f, opacity, done);
    var after := ApplyChannels(px, f, opacity, done + {c});
    var v := Scale(f[c], opacity);
    assert before[ColourIndex(c)] == px[ColourIndex(c)];
    if v > before[ColourIndex(c)] {
      var expected := before[ColourIndex(c) := v][AlphaIndex(c) := 255];
      forall i | 0 <= i < DataFrameLength ensures after[i] == expected[i] {
        if ChannelAt(i) != c as int {
          assert i != ColourIndex(c) && i != AlphaIndex(c);
        }
      }
    } else {
      forall i | 0 <= i < DataFrameLength ensures after[i] == before[i] {
      }
    }
  }

  /** After compositing, the colour byte of channel `c` is the HTP maximum and
      its alpha byte is 255 exactly when that maximum is non-zero. */
  lemma {:induction false} CompositeChannel(layers: seq<Layer>, c: u16)
    requires InUniverse(c)
    ensures Composite(layers)[ColourIndex(c)] == Colour(layers, c)
    ensures Composite(layers)[AlphaIndex(c)] == if Colour(layers, c) > 0 then 255 else 0
  {
    if layers != [] {
      var init := layers[..|layers| - 1];
      CompositeChannel(init, c);
      var prev := Composite(init);
      var last := layers[|layers| - 1];
      assert ChannelAt(ColourIndex(c)) == c as int && ChannelAt(AlphaIndex(c)) == c as int;
      match ActiveFrame(last)
      case Current(f) =>
        assert Composite(layers) == ApplyChannels(prev, f.values, last.opacityParameterValue, f.values.Keys);
      case Idle =>
      case Throws =>
    }
  }

  /** `Colour` is the maximum over the layers: no contribution exceeds it, and
      it is one of them unless it is 0. */
  lemma {:induction false} ColourIsMaximum(layers: seq<Layer>, c: u16)
    ensures forall j :: 0 <= j < |layers| ==> Contribution(layers[j], c) <= Colour(layers, c)
    ensures Colour(layers, c) == 0 ||
            exists j :: 0 <= j < |layers| && Contribution(layers[j], c) == Colour(layers, c)
  {
    if layers != [] {
      var init := layers[..|layers| - 1];
      ColourIsMaximum(init, c);
      forall j | 0 <= j < |layers| ensures Contribution(layers[j], c) <= Colour(layers, c) {
        if j < |init| {
          assert layers[j] == init[j];
        }
      }
      if Colour(layers, c) != Colour(init, c) {
        assert Contribution(layers[|layers| - 1], c) == Colour(layers, c);
      } else if Colour(init, c) != 0 {
        var j :| 0 <= j < |init| && Contribution(init[j], c) == Colour(init, c);
        assert layers[j] == init[j];
      }
    }
  }

  /** The maximum is determined by the set of layers, not their order. */
  lemma ColourDependsOnlyOnMembers(ls: seq<Layer>, ms: seq<Layer>, c: u16)
    requires forall l :: l in ls <==> l in ms
    ensures Colour(ls, c) == Colour(ms, c)
  {
    ColourIsMaximum(ls, c);
    ColourIsMaximum(ms, c);
    if Colour(ms, c) != 0 {
      var j :| 0 <= j < |ms| && Contribution(ms[j], c) == Colour(ms, c);
      var l := ms[j];
      assert l in ls;
      var i :| 0 <= i < |ls| && ls[i] == l;
    }
    if Colour(ls, c) != 0 {
      var j :| 0 <= j < |ls| && Contribution(ls[j], c) == Colour(ls, c);
      var l := ls[j];
      assert l in ms;
      var i :| 0 <= i < |ms| && ms[i] == l;
    }
  }

  /** HTP is commutative: compositing the same layers in any order yields the
      same buffer, colour and alpha bytes alike. */
  lemma CompositeOrderIndependent(ls: seq<Layer>, ms: seq<Layer>)
    requires multiset(ls) == multiset(ms)
    ensures Composite(ls) == Composite(ms)
  {
    forall l ensures l in ls <==> l in ms {
      assert l in ls <==> l in multiset(ls);
      assert l in ms <==> l in multiset(ms);
    }
    forall i | 0 <= i < DataFrameLength ensures Composite(ls)[i] == Composite(ms)[i] {
      var c := ChannelAt(i) as u16;
      ColourDependsOnlyOnMembers(ls, ms, c);
      CompositeChannel(ls, c);
      CompositeChannel(ms, c);
    }
  }

  /** One tick's outcome does not depend on the order of the layers: a tick
      completes for one order exactly when it completes for the other, and
      then both leave the same buffer. */
  lemma TickOrderIndependent(ls: seq<Layer>, ms: seq<Layer>)
    requires multiset(ls) == multiset(ms)
    ensures FirstThrow(ls) == |ls| <==> FirstThrow(ms) == |ms|
    ensures FirstThrow(ls) == |ls| ==> Composite(ls[..FirstThrow(ls)]) == Composite(ms[..FirstThrow(ms)])
  {
    NoneThrowsOfMembers(ls, ms);
    NoneThrowsOfMembers(ms, ls);
    if FirstThrow(ls) == |ls| {
      WholeTickOrderIndependent(ls, ms, FirstThrow(ls), FirstThrow(ms));
    }
  }

  /** The whole-list case of TickOrderIndependent, stated on the prefix lengths. */
  lemma WholeTickOrderIndependent(ls: seq<Layer>, ms: seq<Layer>, a: nat, b: nat)
    requires multiset(ls) == multiset(ms) && a == |ls| && b == |ms|
    ensures Composite(ls[..a]) == Composite(ms[..b])
  {
    assert ls[..a] == ls && ms[..b] == ms;
    CompositeOrderIndependent(ls, ms);
  }

  /** A tick completes exactly when no layer throws; that depends only on
      which layers are present. */
  lemma NoneThrowsOfMembers(ls: seq<Layer>, ms: seq<Layer>)
    requires multiset(ls) == multiset(ms)
    ensures FirstThrow(ls) == |ls| <==> NoneThrows(ls)
    ensures NoneThrows(ms) ==> NoneThrows(ls)
  {
    if NoneThrows(ms) {
      forall j | 0 <= j < |ls| ensures !ActiveFrame(ls[j]).Throws? {
        assert ls[j] in multiset(ms);
        var i :| 0 <= i < |ms| && ms[i] == ls[j];
      }
    }
  }

  /** A channel that no layer offers a non-zero value keeps colour 0 and
      alpha 0; in particular a recorded 0 stays transparent. */
  lemma UnlitChannelStaysClear(layers: seq<Layer>, c: u16)
    requires InUniverse(c)
    requires forall j :: 0 <= j < |layers| ==> Contribution(layers[j], c) == 0
    ensures Composite(layers)[ColourIndex(c)] == 0
    ensures Composite(layers)[AlphaIndex(c)] == 0
  {
    ColourIsMaximum(layers, c);
    CompositeChannel(layers, c);
  }

  /** Alpha is 255 exactly where colour is non-zero, and 0 elsewhere. */
  lemma AlphaMarksLitChannels(layers: seq<Layer>, c: u16)
    requires InUniverse(c)
    ensures Composite(layers)[AlphaIndex(c)] == 255 <==> Composite(layers)[ColourIndex(c)] > 0
    ensures Composite(layers)[AlphaIndex(c)] == 0 <==> Composite(layers)[ColourIndex(c)] == 0
  {
    CompositeChannel(layers, c);
  }

  /** An offered value equal to the current colour overwrites nothing: the
      first layer among equals keeps the channel. */
  lemma EqualValueKeepsPixel(px: seq<byte>, f: map<u16, byte>, opacity: real, cs: set<u16>, c: u16)
    requires |px| == DataFrameLength && InUniverse(c)
    requires c in f && Scale(f[c], opacity) <= px[ColourIndex(c)]
    ensures ApplyChannels(px, f, opacity, cs)[ColourIndex(c)] == px[ColourIndex(c)]
    ensures ApplyChannels(px, f, opacity, cs)[AlphaIndex(c)] == px[AlphaIndex(c)]
  {
    assert ChannelAt(ColourIndex(c)) == c as int && ChannelAt(AlphaIndex(c)) == c as int;
  }
}
