/** The decoding half of `DmxPlayback::SetTextParameter` (DmxPlayback.cpp:314-340):
    parsed columns become a sequence of frames, one per value of the first
    column, each mapping the in-universe channel keys to their value at that
    time step. */
module SequenceDecoder {
  import opened Wrappers
  import opened DmxTypes
  import opened CsvReader

  /** Every column of an in-universe channel has a value at time step `t`. */
  predicate Covers(cols: seq<Column>, t: nat)
  {
    forall k :: 0 <= k < |cols| && InUniverse(cols[k].channel) ==> t < |cols[k].values|
  }

  /** The channel values of time step `t`: every in-universe column in order,
      so that a later column with the same key overwrites an earlier one. */
  function Entries(cols: seq<Column>, t: nat): (m: map<u16, byte>)
    requires Covers(cols, t)
    ensures forall c :: c in m ==> InUniverse(c)
  {
    if cols == [] then map[]
    else
      var last := cols[|cols| - 1];
      var earlier := Entries(cols[..|cols| - 1], t);
      if InUniverse(last.channel) then earlier[last.channel := last.values[t]] else earlier
  }

  /** The frames of a recording, or the `std::out_of_range` that
      `.at(frameIndex)` throws when an in-universe column is shorter than the
      first column. */
  function Decode(cols: seq<Column>): (r: Result<seq<Frame>, LogicError>)
    requires |cols| > 0
    ensures r.Failure? ==> r.error == OutOfRange
  {
    var n := |cols[0].values|;
    if forall t :: 0 <= t < n ==> Covers(cols, t) then
      Success(seq(n, t requires 0 <= t < n => Frame(Entries(cols, t))))
    else Failure(OutOfRange)
  }

  /** The frame loop of `SetTextParameter`, with its inner column loop. */
  method DecodeFrames(cols: seq<Column>) returns (r: Result<seq<Frame>, LogicError>)
    requires |cols| > 0
    ensures r == Decode(cols)
  {
    var numFrames := |cols[0].values|;
    var recordedFrames: seq<Frame> := [];
    var frameIndex := 0;
    while frameIndex < numFrames
      invariant frameIndex <= numFrames
      invariant forall t :: 0 <= t < frameIndex ==> Covers(cols, t)
      invariant recordedFrames == seq(frameIndex, t requires 0 <= t < frameIndex => Frame(Entries(cols, t)))
    {
      var values := FrameValues(cols, frameIndex);
      if values.Failure? {
        assert !Covers(cols, frameIndex);
        return Failure(OutOfRange);
      }
      recordedFrames := recordedFrames + [Frame(values.value)];
      frameIndex := frameIndex + 1;
    }
    return Success(recordedFrames);
  }

  /** The column loop for one time step: `dmxChannelValues[dmxChannel] = dmxValue`
      for every in-universe column, or the throw of `.at(frameIndex)`. */
  method FrameValues(cols: seq<Column>, frameIndex: nat) returns (r: Result<map<u16, byte>, LogicError>)
    ensures Covers(cols, frameIndex) ==> r == Success(Entries(cols, frameIndex))
    ensures !Covers(cols, frameIndex) ==> r == Failure(OutOfRange)
  {
    var dmxChannelValues: map<u16, byte> := map[];
    var k := 0;
    while k < |cols|
      invariant k <= |cols|
      invariant Covers(cols[..k], frameIndex)
      invariant dmxChannelValues == Entries(cols[..k], frameIndex)
    {
      var dmxChannelData := cols[k];
      if !InUniverse(dmxChannelData.channel) {
        assert cols[..k + 1][..k] == cols[..k];
        k := k + 1;
        continue;
      }
      if frameIndex >= |dmxChannelData.values| {
        return Failure(OutOfRange);
      }
      assert cols[..k + 1][..k] == cols[..k];
      dmxChannelValues := dmxChannelValues[dmxChannelData.channel := dmxChannelData.values[frameIndex]];
      k := k + 1;
    }
    assert cols[..k] == cols;
    return Success(dmxChannelValues);
  }

  /** A frame holds exactly the in-universe channels of the header. */
  lemma {:induction false} EntriesKeys(cols: seq<Column>, t: nat, c: u16)
    requires Covers(cols, t)
    ensures c in Entries(cols, t) <==>
      InUniverse(c) && exists k :: 0 <= k < |cols| && cols[k].channel == c
  {
    if cols != [] {
      var init := cols[..|cols| - 1];
      EntriesKeys(init, t, c);
      if c in Entries(init, t) {
        var k :| 0 <= k < |init| && init[k].channel == c;
        assert cols[k].channel == c;
      }
      if InUniverse(c) && exists k :: 0 <= k < |cols| && cols[k].channel == c {
        var k :| 0 <= k < |cols| && cols[k].channel == c;
        if k < |init| {
          assert init[k].channel == c;
        }
      }
    }
  }

  /** A channel's value at step `t` is that of the last column with its key. */
  lemma {:induction false} EntriesLaterWins(cols: seq<Column>, t: nat, k: nat)
    requires Covers(cols, t)
    requires k < |cols| && InUniverse(cols[k].channel)
    requires forall j :: k < j < |cols| ==> cols[j].channel != cols[k].channel
    ensures cols[k].channel in Entries(cols, t)
    ensures Entries(cols, t)[cols[k].channel] == cols[k].values[t]
  {
    var init := cols[..|cols| - 1];
    if k < |init| {
      assert Covers(init, t);
      EntriesLaterWins(init, t, k);
    }
  }

  /** Decoding fails exactly when some in-universe column is shorter than the
      first; otherwise it yields one frame per value of the first column. */
  lemma DecodeOutcome(cols: seq<Column>)
    requires |cols| > 0
    ensures Decode(cols).Failure? <==>
      exists k :: 0 <= k < |cols| && InUniverse(cols[k].channel) && |cols[k].values| < |cols[0].values|
    ensures Decode(cols).Success? ==> |Decode(cols).value| == |cols[0].values|
  {
    var n := |cols[0].values|;
    if exists k :: 0 <= k < |cols| && InUniverse(cols[k].channel) && |cols[k].values| < n {
      var k :| 0 <= k < |cols| && InUniverse(cols[k].channel) && |cols[k].values| < n;
      assert !Covers(cols, |cols[k].values|);
    }
  }

  /** Decoded frames only address channels of the universe. */
  lemma DecodedInUniverse(cols: seq<Column>)
    requires |cols| > 0 && Decode(cols).Success?
    ensures FramesInUniverse(Decode(cols).value)
  {
    var frames := Decode(cols).value;
    forall t, c | 0 <= t < |frames| && c in frames[t].values ensures InUniverse(c) {
      EntriesKeys(cols, t, c);
    }
  }

  /** With distinct in-universe keys (a header such as 1,2,3), frame `t` maps
      every column's key to that column's value at `t`, and nothing else. */
  lemma DistinctChannelsFrame(cols: seq<Column>, t: nat)
    requires |cols| > 0 && Decode(cols).Success? && t < |cols[0].values|
    requires forall k :: 0 <= k < |cols| ==> InUniverse(cols[k].channel)
    requires forall i, j :: 0 <= i < j < |cols| ==> cols[i].channel != cols[j].channel
    ensures |Decode(cols).value[t].values| == |cols|
    ensures forall k :: 0 <= k < |cols| ==>
      && t < |cols[k].values|
      && cols[k].channel in Decode(cols).value[t].values
      && Decode(cols).value[t].values[cols[k].channel] == cols[k].values[t]
  {
    var m := Decode(cols).value[t].values;
    assert Covers(cols, t);
    forall k | 0 <= k < |cols|
      ensures t < |cols[k].values| && cols[k].channel in m && m[cols[k].channel] == cols[k].values[t]
    {
      EntriesLaterWins(cols, t, k);
    }
    var keys := set k | 0 <= k < |cols| :: cols[k].channel;
    assert m.Keys == keys by {
      forall c ensures c in m <==> c in keys {
        EntriesKeys(cols, t, c);
      }
    }
    ChannelCount(cols);
  }

  /** Distinct keys: as many keys as columns. */
  lemma {:induction false} ChannelCount(cols: seq<Column>)
    requires forall i, j :: 0 <= i < j < |cols| ==> cols[i].channel != cols[j].channel
    ensures |set k | 0 <= k < |cols| :: cols[k].channel| == |cols|
  {
    if cols != [] {
      var init := cols[..|cols| - 1];
      ChannelCount(init);
      var last := cols[|cols| - 1].channel;
      var before := set k | 0 <= k < |init| :: init[k].channel;
      var after := set k | 0 <= k < |cols| :: cols[k].channel;
      assert after == before + {last} by {
        forall c ensures c in after <==> c in before + {last} {
          if c in after {
            var k :| 0 <= k < |cols| && cols[k].channel == c;
            if k < |init| { assert init[k].channel == c; }
          }
          if c in before {
            var k :| 0 <= k < |init| && init[k].channel == c;
            assert cols[k].channel == c;
          }
        }
      }
      assert last !in before;
    }
  }
}
