# DMX playback engine and FFGL parameter table

This project models the core of the `DmxPlayback` FFGL plugin in Dafny.
The plugin plays back recorded DMX data as a 32x16 texture. It has sixteen
layers with ten recording slots each. Every recording slot is a text
parameter that names a CSV file. Three float parameters drive each layer:
active clip, frame position and opacity. On every tick, the plugin composites
the current frame of each layer into a 2048-byte buffer. Each DMX channel owns
one colour byte and one alpha byte of that buffer, and the layers are merged
highest-takes-precedence (HTP). The project also models the SDK class
`CFFGLPluginManager`, the plugin's table of parameter descriptions.

The modules follow the source files:

| module | file | what it holds |
|---|---|---|
| `DmxTypes` | `dmx_types.dfy` | `Frame`, `RecordedSequence` and `Layer`, the fixed dimensions, and the buffer indices of a channel (DmxPlayback.h) |
| `CsvReader` | `csv_reader.dfy` | `read_csv_recording` as a function over the file's lines, the same reader as loops, and its properties (CsvReader.cpp) |
| `CsvRoundTrip` | `csv_round_trip.dfy` | a CSV writer, and the proof that the reader gives back what the writer wrote |
| `SequenceDecoder` | `sequence_decoder.dfy` | the frame building of `SetTextParameter`: columns to frames, only channels 1..512, later column wins |
| `Compositor` | `compositor.dfy` | the playback cursor and the HTP compositor of `ProcessOpenGL` as functions, with their properties |
| `ParameterRouting` | `parameter_routing.dfy` | parameter ID allocation and routing of an ID to a layer field or a slot |
| `Playback` | `dmx_playback.dfy` | the `DmxPlayback` class: a `layers` field and the pixel `array`, methods that update them in place, and end-to-end lemmas |
| `FfglPluginManager` | `ffgl_plugin_manager.dfy` | the `PluginManager` class over a `seq<ParamInfo>`, with setters, getters and the first-match scan (FFGLPluginManager.cpp) |
| `Wrappers` | `wrappers.dfy` | `Option` and `Result` |

How the source's behaviour is represented:

- **Exceptions.** A `std::logic_error` that escapes `SetTextParameter` becomes a `Failure` result, and the layers are left as they were. This covers `std::invalid_argument` or `std::out_of_range` from `std::stoi` on a header field, a row with more values than header columns, and a column shorter than the first. An exception thrown in `ProcessOpenGL` ends compositing; the method then returns `completed == false`, and the buffer holds the composite of the layers before the one that threw.
- **The methods keep the source's imperative form.** `ProcessOpenGL` clears and updates the pixel array in place. The setters reassign the `layers` field, `read_csv_recording` keeps its three loops (header fields, data rows, and the values of a row), and `FindParamInfo` is a scan. Each method is proved against a specification function. The properties are lemmas about those functions.
- **Unspecified source behaviour is fixed as follows.** `activeClipIndex` starts at 0, because the constructor leaves it unset. The active clip value 0 gives index 255 (the 8-bit `value - 1`), so the next tick throws. A scaled value of 0 never passes the strict `>` test, so it never sets alpha: after compositing, alpha is 255 exactly when the colour byte is positive.

## Model

| member | source | states |
|---|---|---|
| DmxTypes.ColourIndex | source/plugins/DmxPlayback/DmxPlayback.cpp:183 | channel c in 1..512 has its colour byte at the even index 2(c-1), and its alpha byte after it lies inside the 2048-byte buffer |
| DmxTypes.AlphaIndex | source/plugins/DmxPlayback/DmxPlayback.cpp:184 | channel c's alpha byte is the odd index 2(c-1)+1 < 2048 and belongs to channel c |
| DmxTypes.ChannelAt | source/plugins/DmxPlayback/DmxPlayback.h:61-62 | every byte of the buffer is the colour or alpha byte of exactly one channel of the universe |
| Compositor.ToUint8 | source/plugins/DmxPlayback/DmxPlayback.cpp:187 | the `(std::uint8_t)` cast of a value in [0, 256) is its integer part |
| Compositor.ScaleWithinRaw | source/plugins/DmxPlayback/DmxPlayback.cpp:187 | for opacity in [0, 1], `trunc(raw * opacity)` is at most raw, and equals raw at opacity 1 |
| Compositor.Trunc | source/plugins/DmxPlayback/DmxPlayback.cpp:187 | the C++ float-to-integer conversion rounds toward zero: the integer part for x >= 0, and within 1 above x for x < 0 |
| Compositor.Scale | source/plugins/DmxPlayback/DmxPlayback.cpp:187 | `(std::uint8_t)(raw * opacity)`; ScaleWithinRaw bounds it by raw for opacity in [0, 1] |
| Compositor.FrameIndex | source/plugins/DmxPlayback/DmxPlayback.cpp:171-176 | for N > 0 frames, the index is in [0, N) exactly when 0 <= p and p*N < N+1; it is floor(p*N) for p in [0, 1) and N-1 for p = 1 |
| Compositor.ActiveFrame | source/plugins/DmxPlayback/DmxPlayback.cpp:164-178 | an empty active sequence contributes nothing; a clip index past the slots throws; with frames present, the lookup throws exactly when p < 0 or p*N >= N+1 (for p < 0, where the `size_t` conversion is undefined in C++, the throw is the model's choice); otherwise the frame is the one at FrameIndex |
| Compositor.FirstThrow | source/plugins/DmxPlayback/DmxPlayback.cpp:162-178 | the index of the first layer whose frame lookup throws, with no throwing layer before it |
| Compositor.Contribution | source/plugins/DmxPlayback/DmxPlayback.cpp:178-194 | what a layer offers channel c this tick; it is positive only when the layer's current frame holds c, since a 0 never passes the strict test |
| Compositor.Colour | source/plugins/DmxPlayback/DmxPlayback.cpp:187-196 | the HTP value of channel c over the layers; ColourIsMaximum proves it is the largest contribution |
| Compositor.ApplyChannels | source/plugins/DmxPlayback/DmxPlayback.cpp:180-201 | the buffer after offering a set of a frame's channels; ApplyChannelsStep gives one channel's effect and EqualValueKeepsPixel the non-overwrite on an equal value |
| Compositor.ApplyLayer | source/plugins/DmxPlayback/DmxPlayback.cpp:163-201 | one layer's current frame merged into the buffer; an idle layer leaves it as it was |
| Compositor.Composite | source/plugins/DmxPlayback/DmxPlayback.cpp:160-201 | the cleared buffer with the layers merged in order; CompositeChannel characterises every byte of it |
| Compositor.ApplyChannelsStep | source/plugins/DmxPlayback/DmxPlayback.cpp:180-201 | offering one more channel writes the scaled value and alpha 255 when it is strictly greater than the colour byte, and otherwise leaves the buffer as it was |
| Compositor.CompositeChannel | source/plugins/DmxPlayback/DmxPlayback.cpp:160-201 | after compositing, channel c's colour byte is the HTP maximum over the layers, and its alpha byte is 255 if that maximum is positive and 0 if not |
| Compositor.ColourIsMaximum | source/plugins/DmxPlayback/DmxPlayback.cpp:187-196 | the HTP value bounds every layer's contribution and is 0 or reached by some layer |
| Compositor.ColourDependsOnlyOnMembers | source/plugins/DmxPlayback/DmxPlayback.cpp:162-202 | the HTP value depends only on which layers are present, not on their order or repetition |
| Compositor.CompositeOrderIndependent | source/plugins/DmxPlayback/DmxPlayback.cpp:162-202 | compositing any permutation of the layers gives the same buffer |
| Compositor.NoneThrowsOfMembers | source/plugins/DmxPlayback/DmxPlayback.cpp:162-178 | the tick completes exactly when no layer's lookup throws, and whether one throws depends only on which layers are present |
| Compositor.TickOrderIndependent | source/plugins/DmxPlayback/DmxPlayback.cpp:152-202 | for any permutation of the layers, a tick completes exactly when it completes for the original order, and then leaves the same buffer |
| Compositor.UnlitChannelStaysClear | source/plugins/DmxPlayback/DmxPlayback.cpp:160 | a channel no layer contributes to keeps colour 0 and alpha 0 |
| Compositor.AlphaMarksLitChannels | source/plugins/DmxPlayback/DmxPlayback.cpp:191-200 | alpha is 255 exactly when the colour byte is positive, and 0 exactly when it is 0 |
| Compositor.EqualValueKeepsPixel | source/plugins/DmxPlayback/DmxPlayback.cpp:191-194 | a scaled value that is not larger than the colour byte changes neither that byte nor the channel's alpha |
| CsvReader.ScanInt | source/plugins/DmxPlayback/CsvReader.cpp:55 | an extracted `int` consumes at least one character and lies in the 32-bit range |
| CsvReader.Stoi | source/plugins/DmxPlayback/CsvReader.cpp:41 | `std::stoi` succeeds only with a 32-bit value, and fails with invalid_argument or out_of_range otherwise |
| CsvReader.FieldEnd | source/plugins/DmxPlayback/CsvReader.cpp:38 | the first field of a line ends at its first ',' or at the end of the line |
| CsvReader.Fields | source/plugins/DmxPlayback/CsvReader.cpp:38 | the fields `getline(ss, colname, ',')` yields: an empty line has none, a non-empty one at least one, and no field contains a ',' |
| CsvReader.ChannelKey | source/plugins/DmxPlayback/CsvReader.cpp:41 | the `(std::uint16_t)` narrowing of a key: a value in [0, 65536) is kept, any other is reduced mod 65536 |
| CsvReader.HeaderKeys | source/plugins/DmxPlayback/CsvReader.cpp:38-42 | the keys of the header fields, or the first `stoi` error; HeaderKeysSuccess and HeaderKeysFailure characterise both outcomes |
| CsvReader.SkipComma | source/plugins/DmxPlayback/CsvReader.cpp:61-62 | after a value, at most one ',' directly after it is skipped |
| CsvReader.RowValues | source/plugins/DmxPlayback/CsvReader.cpp:55-63 | the integers `while (ss >> val)` extracts from a row: never more than the row has characters, each within the 32-bit range |
| CsvReader.Table | source/plugins/DmxPlayback/CsvReader.cpp:46-66 | one list of integers per data row, in file order |
| CsvReader.Cell | source/plugins/DmxPlayback/CsvReader.cpp:58 | what a row adds to column k: one value exactly when the row has a k-th value |
| CsvReader.Series | source/plugins/DmxPlayback/CsvReader.cpp:46-66 | the values column k collects over the rows; SeriesAtMostRows, SeriesOfFullRows and LaterColumnsNoLonger state its shape |
| CsvReader.RowsFit | source/plugins/DmxPlayback/CsvReader.cpp:58 | no row has more values than there are columns, so `.at(colIdx)` never throws; RowsEscape proves the read escapes exactly when it fails |
| CsvReader.HeaderKeysSuccess | source/plugins/DmxPlayback/CsvReader.cpp:38-42 | a header that parses gives one key per field, in order: `stoi(field)` narrowed to 16 bits |
| CsvReader.HeaderKeysFailure | source/plugins/DmxPlayback/CsvReader.cpp:38-42 | the header fails exactly when some field is not an `int`, and it fails with the error of the first such field |
| CsvReader.Columns | source/plugins/DmxPlayback/CsvReader.cpp:38-66 | one column per key, in header order, whose series holds the rows' k-th values |
| CsvReader.AddRow | source/plugins/DmxPlayback/CsvReader.cpp:55-66 | a data row appends its k-th value mod 256 to column k and leaves later columns untouched |
| CsvReader.ReadCsv | source/plugins/DmxPlayback/CsvReader.cpp:16-22 | the reader reports "could not open" exactly for a file that cannot be opened, and an empty file gives no columns |
| CsvReader.ReadCsvRecording | source/plugins/DmxPlayback/CsvReader.cpp:10-73 | the loops over header fields and data rows compute exactly ReadCsv |
| CsvReader.ReadHeader | source/plugins/DmxPlayback/CsvReader.cpp:29-43 | the header loop yields one empty column per key, or the first `stoi` error |
| CsvReader.ReadField | source/plugins/DmxPlayback/CsvReader.cpp:38-42 | one `getline`/`stoi` step consumes one field and keeps the columns so far consistent with the header's keys |
| CsvReader.AppendRow | source/plugins/DmxPlayback/CsvReader.cpp:46-66 | a row's value loop adds its values column by column, or fails out_of_range when the row has more values than columns |
| CsvReader.PlaceCell | source/plugins/DmxPlayback/CsvReader.cpp:58 | one scanned value is pushed onto the column it belongs to |
| CsvReader.ReadCsvOfParts | source/plugins/DmxPlayback/CsvReader.cpp:29-67 | with a parsed header and rows that fit, the result is the header's columns filled from the rows in file order |
| CsvReader.ReadCsvParsed | source/plugins/DmxPlayback/CsvReader.cpp:29-67 | a successful read has one column per header field, keyed by that field's `stoi`, with the k-th values of the rows as its series |
| CsvReader.SeriesAtMostRows | source/plugins/DmxPlayback/CsvReader.cpp:46-66 | no column holds more values than there are data rows |
| CsvReader.SeriesOfFullRows | source/plugins/DmxPlayback/CsvReader.cpp:46-66 | when every row reaches column k, that column is the rows' k-th values mod 256, in row order |
| CsvReader.LaterColumnsNoLonger | source/plugins/DmxPlayback/CsvReader.cpp:55-62 | short rows leave later columns no longer than earlier ones |
| CsvReader.ReadCsvEscapes | source/plugins/DmxPlayback/CsvReader.cpp:41-58 | the reader throws exactly when a header field is not an `int` or some row has more values than header fields; once the header parses, the error is out_of_range |
| CsvReader.RowsEscape | source/plugins/DmxPlayback/CsvReader.cpp:58 | under a parsed header, the reader throws out_of_range exactly when some row has more values than keys |
| CsvRoundTrip.ReadWrittenRecording | source/plugins/DmxPlayback/CsvReader.cpp:10-73 | a header of keys and rows of bytes written as CSV read back as exactly those columns |
| CsvRoundTrip.HeaderReadsBack | source/plugins/DmxPlayback/CsvReader.cpp:38-42 | a written header line parses back to its keys |
| CsvRoundTrip.RowReadsBack | source/plugins/DmxPlayback/CsvReader.cpp:55-62 | a written data row of 32-bit naturals scans back to the same values |
| CsvRoundTrip.StoiOfDigits | source/plugins/DmxPlayback/CsvReader.cpp:41 | `stoi` of a natural's decimal notation is that natural |
| SequenceDecoder.DecodeFrames | source/plugins/DmxPlayback/DmxPlayback.cpp:314-340 | the frame loop computes the decoder's specification: frames or the out_of_range error |
| SequenceDecoder.Covers | source/plugins/DmxPlayback/DmxPlayback.cpp:326-332 | every in-universe column has a value at time step t, so `.at(frameIndex)` does not throw; FrameValues fails with out_of_range exactly when it does not hold |
| SequenceDecoder.Entries | source/plugins/DmxPlayback/DmxPlayback.cpp:320-338 | the channel values of one time step; only channels 1..512 appear (EntriesKeys gives the exact key set, EntriesLaterWins the value) |
| SequenceDecoder.Decode | source/plugins/DmxPlayback/DmxPlayback.cpp:314-340 | the frames of a recording, or out_of_range and no other error; DecodeOutcome states when each happens |
| SequenceDecoder.FrameValues | source/plugins/DmxPlayback/DmxPlayback.cpp:320-338 | one frame maps the universe's columns to their values at that index, or fails out_of_range when a column is too short |
| SequenceDecoder.EntriesKeys | source/plugins/DmxPlayback/DmxPlayback.cpp:326-332 | a frame has a value for channel c exactly when c is in 1..512 and some column has key c |
| SequenceDecoder.EntriesLaterWins | source/plugins/DmxPlayback/DmxPlayback.cpp:326-332 | when header channels repeat, the last column with that channel gives the frame's value |
| SequenceDecoder.DecodeOutcome | source/plugins/DmxPlayback/DmxPlayback.cpp:314-340 | decoding fails exactly when some column of the universe is shorter than the first; otherwise it gives as many frames as the first column has values |
| SequenceDecoder.DecodedInUniverse | source/plugins/DmxPlayback/DmxPlayback.cpp:326-329 | decoded frames only hold channels 1..512 |
| SequenceDecoder.DistinctChannelsFrame | source/plugins/DmxPlayback/DmxPlayback.cpp:318-340 | with distinct universe channels, frame t maps exactly those channels, each to its column's t-th value |
| ParameterRouting.InitialLayer | source/plugins/DmxPlayback/DmxPlayback.cpp:57-83 | the layer built at index l has the slots and IDs of the engine's layout for l |
| ParameterRouting.InitialLayers | source/plugins/DmxPlayback/DmxPlayback.cpp:55-83 | the sixteen layers the constructor builds are in the engine's layout |
| ParameterRouting.IdsAreContiguous | source/plugins/DmxPlayback/DmxPlayback.cpp:55-83 | layers in the layout own IDs 0, 1, 2, … in order: ten slots, then active clip, frame position and opacity |
| ParameterRouting.LayerIdsOf | source/plugins/DmxPlayback/DmxPlayback.cpp:57-83 | layer L owns exactly IDs 13L..13L+12 |
| ParameterRouting.EngineIds | source/plugins/DmxPlayback/DmxPlayback.cpp:55-83 | the engine owns exactly the 208 distinct IDs 0..207 |
| ParameterRouting.FindSlot | source/plugins/DmxPlayback/DmxPlayback.cpp:275-279 | the slot scan finds a slot with the ID, or reports that no slot has it |
| ParameterRouting.WithSlot | source/plugins/DmxPlayback/DmxPlayback.cpp:342-345 | storing a recording sets one slot's path and frames and leaves every other slot as it was |
| ParameterRouting.FloatRouting | source/plugins/DmxPlayback/DmxPlayback.cpp:242-270 | in the layout, an ID names a float parameter exactly when it is below 208 at an offset of 10 or more, and it belongs to layer ID / 13 |
| ParameterRouting.SetField | source/plugins/DmxPlayback/DmxPlayback.cpp:246-266 | setting an owned float ID sets that field to the value, keeps every ID, and leaves a layer that does not own the ID as it was; the active-clip ID also sets `activeClipIndex` to ClipIndex(value), and every other ID keeps it |
| ParameterRouting.UpdateFloat | source/plugins/DmxPlayback/DmxPlayback.cpp:242-270 | the layers after `SetFloatParameter`, one per layer as before; SetFloatChangesOnlyItsField and GetAfterSetFloat state its effect |
| ParameterRouting.FloatValue | source/plugins/DmxPlayback/DmxPlayback.cpp:353-374 | what `GetFloatParameter` returns; 0.0 when no layer owns the ID |
| ParameterRouting.GetAfterSetFloat | source/plugins/DmxPlayback/DmxPlayback.cpp:242-270 | reading a float parameter after setting it gives the value set |
| ParameterRouting.SetFloatChangesOnlyItsField | source/plugins/DmxPlayback/DmxPlayback.cpp:242-270 | setting a float keeps the layout, keeps every other float and every slot, and changes nothing for an unknown ID |
| ParameterRouting.SetFloatActiveClip | source/plugins/DmxPlayback/DmxPlayback.cpp:246-249 | setting a float ID sets `activeClipIndex` to ClipIndex(value) in the layer whose active-clip ID it is, and leaves it unchanged in every other layer |
| ParameterRouting.ClipValueSelectsSlot | source/plugins/DmxPlayback/DmxPlayback.cpp:246-252 | active-clip value n in 1..10 selects slot n-1 and is stored as given |
| ParameterRouting.ClipValueZeroThrows | source/plugins/DmxPlayback/DmxPlayback.cpp:249 | active-clip value 0 sets index 255, and the layer's frame lookup then throws |
| ParameterRouting.ClipIndexOfWhole | source/plugins/DmxPlayback/DmxPlayback.cpp:249 | the 8-bit `value - 1` of a whole value n is (n-1) mod 256 |
| ParameterRouting.ClipIndex | source/plugins/DmxPlayback/DmxPlayback.cpp:249 | `(std::uint8_t)value - 1` stored in 8 bits: one less than the cast value, and 255 when the cast value is 0 |
| ParameterRouting.SlotRouting | source/plugins/DmxPlayback/DmxPlayback.cpp:275-279 | in the layout, an ID names a slot exactly when it is below 208 at an offset below 10, and that slot is (ID / 13, ID % 13) |
| ParameterRouting.TextValue | source/plugins/DmxPlayback/DmxPlayback.cpp:377-391 | what `GetTextParameter` returns: a path exactly when some slot has the ID |
| ParameterRouting.TextAfterStore | source/plugins/DmxPlayback/DmxPlayback.cpp:342-345 | after a path is stored in a slot, that slot's text parameter reads the path |
| ParameterRouting.WithSlotKeepsFloats | source/plugins/DmxPlayback/DmxPlayback.cpp:342-345 | storing a recording changes no float parameter |
| ParameterRouting.WithSlotLayout | source/plugins/DmxPlayback/DmxPlayback.cpp:342-345 | storing a recording keeps the layout and every ID |
| Playback.Recording | source/plugins/DmxPlayback/DmxPlayback.cpp:283-343 | the slot receives the path and frames in the universe, or it is cleared to "" with no frames |
| Playback.SetText | source/plugins/DmxPlayback/DmxPlayback.cpp:273-351 | the outcome of `SetTextParameter`: the layers keep their number, FF_FAIL changes nothing, and an error escapes only for a found slot with a non-empty path |
| Playback.DmxPlayback.constructor | source/plugins/DmxPlayback/DmxPlayback.cpp:47-83 | the counter loops build the engine's initial layers, and the pixel buffer has 2048 bytes |
| Playback.DmxPlayback.ProcessOpenGL | source/plugins/DmxPlayback/DmxPlayback.cpp:152-202 | the tick completes exactly when no layer throws, and the buffer is the composite of the layers before the first that throws |
| Playback.DmxPlayback.CompositeLayers | source/plugins/DmxPlayback/DmxPlayback.cpp:162-202 | the layer loop composites layer after layer into the cleared buffer and stops at the first throw |
| Playback.DmxPlayback.Clear | source/plugins/DmxPlayback/DmxPlayback.cpp:160 | `std::fill_n` leaves every byte of the buffer at 0 |
| Playback.DmxPlayback.CompositeLayer | source/plugins/DmxPlayback/DmxPlayback.cpp:163-201 | one layer either throws and leaves the buffer unchanged, or merges its current frame into the buffer |
| Playback.DmxPlayback.ApplyFrame | source/plugins/DmxPlayback/DmxPlayback.cpp:180-201 | the channel loop merges every entry of the frame into the buffer |
| Playback.DmxPlayback.OfferChannel | source/plugins/DmxPlayback/DmxPlayback.cpp:182-200 | one channel's strict greater-than test and its two writes |
| Playback.DmxPlayback.SetFloatParameter | source/plugins/DmxPlayback/DmxPlayback.cpp:242-270 | the layer whose ID matches gets the new field value, and the result is FF_FAIL exactly for an unknown ID |
| Playback.DmxPlayback.SetTextParameter | source/plugins/DmxPlayback/DmxPlayback.cpp:273-351 | the new layers and result code are those of the slot store, or the layers are unchanged and the logic error escapes |
| Playback.DmxPlayback.StoreRecording | source/plugins/DmxPlayback/DmxPlayback.cpp:283-345 | a found slot is cleared, loaded with the decoded frames, or left unchanged when an error escapes |
| Playback.DmxPlayback.Store | source/plugins/DmxPlayback/DmxPlayback.cpp:342-345 | assigning a slot's path and frames keeps the engine's layout and universe |
| Playback.DmxPlayback.GetFloatParameter | source/plugins/DmxPlayback/DmxPlayback.cpp:353-374 | an owned ID reads its layer's active clip, frame position or opacity; any other ID reads 0.0 |
| Playback.DmxPlayback.GetTextParameter | source/plugins/DmxPlayback/DmxPlayback.cpp:377-391 | a recording ID reads its slot's path, and any other ID reads nothing |
| Playback.FloatValueInLayout | source/plugins/DmxPlayback/DmxPlayback.cpp:353-374 | in the layout, the float getter routes by ID / 13 and ID % 13, and gives 0.0 for slot IDs and unknown IDs |
| Playback.TextValueInLayout | source/plugins/DmxPlayback/DmxPlayback.cpp:377-391 | in the layout, the text getter answers exactly the slot IDs, with that slot's path |
| Playback.UnknownRecordingIdFails | source/plugins/DmxPlayback/DmxPlayback.cpp:275-279 | the text setter returns FF_FAIL and changes nothing exactly for an ID that names no slot |
| Playback.ClearingKeepsOtherSlots | source/plugins/DmxPlayback/DmxPlayback.cpp:283-312 | an empty path, an unopenable file or no columns clears the slot and reports success; the path reads back as "" and every float is kept |
| Playback.EscapesOnlyOnLogicError | source/plugins/DmxPlayback/DmxPlayback.cpp:294-332 | the text setter throws exactly when the reader throws, or when a universe column is shorter than the first |
| Playback.StoreDecodedRecording | source/plugins/DmxPlayback/DmxPlayback.cpp:314-345 | a file that reads and decodes stores its frames under the path, and the path reads back |
| Playback.WrittenFramesPlayBack | source/plugins/DmxPlayback/DmxPlayback.cpp:314-340 | a written recording with distinct universe keys decodes into one frame per data line, mapping exactly those keys to the line's values |
| Playback.StoredRecordingPlaysBack | source/plugins/DmxPlayback/DmxPlayback.cpp:273-351 | end to end: storing such a recording under a slot ID succeeds, and the slot holds the path and one frame per data line |
| FfglPluginManager.NameOf | source/lib/ffgl/FFGLPluginManager.cpp:79-81 | the stored name is the first min(16, len) characters of the input, padded with NULs |
| FfglPluginManager.StoredDefault | source/lib/ffgl/FFGLPluginManager.cpp:84-90 | a standard parameter's default is clamped into [0, 1]; any other type keeps it as given |
| FfglPluginManager.Fresh | source/lib/ffgl/FFGLPluginManager.cpp:71-94 | a new entry carries its ID, name and type, with range [0, 1], standard usage, and no elements or extensions |
| FfglPluginManager.Blank | source/lib/ffgl/FFGLPluginManager.cpp:76 | `elements.resize(n)`: n value-initialised elements with an empty name and value 0.0 |
| FfglPluginManager.WithElement | source/lib/ffgl/FFGLPluginManager.cpp:132-143 | replacing one element of one entry leaves every other entry and element as it was |
| FfglPluginManager.Find | source/lib/ffgl/FFGLPluginManager.cpp:338-347 | the first entry with the ID, or none when no entry has it |
| FfglPluginManager.FindAfterAppend | source/lib/ffgl/FFGLPluginManager.cpp:338-347 | appending an entry never changes what an existing ID finds; only a new ID finds the new entry |
| FfglPluginManager.PluginManager.constructor | source/lib/ffgl/FFGLPluginManager.cpp:32-37 | an empty table, no inputs, time supported |
| FfglPluginManager.PluginManager.GetNumParams | source/lib/ffgl/FFGLPluginManager.cpp:56-59 | the number of entries in the table |
| FfglPluginManager.PluginManager.GetMinInputs | source/lib/ffgl/FFGLPluginManager.cpp:46-49 | the minimum input count, which SetMinInputs sets |
| FfglPluginManager.PluginManager.GetMaxInputs | source/lib/ffgl/FFGLPluginManager.cpp:51-54 | the maximum input count, which SetMaxInputs sets |
| FfglPluginManager.PluginManager.GetTimeSupported | source/lib/ffgl/FFGLPluginManager.cpp:333-336 | the time flag, which SetTimeSupported sets |
| FfglPluginManager.PluginManager.SetMinInputs | source/lib/ffgl/FFGLPluginManager.cpp:61-64 | sets the minimum input count and nothing else |
| FfglPluginManager.PluginManager.SetMaxInputs | source/lib/ffgl/FFGLPluginManager.cpp:66-69 | sets the maximum input count and nothing else |
| FfglPluginManager.PluginManager.SetTimeSupported | source/lib/ffgl/FFGLPluginManager.cpp:193-196 | sets the time flag and nothing else |
| FfglPluginManager.PluginManager.SetParamInfo | source/lib/ffgl/FFGLPluginManager.cpp:71-94 | appends one entry with one element and the clamped default; a new ID then reads back that name, one element and that default, and an existing ID keeps finding its earlier entry |
| FfglPluginManager.PluginManager.SetBoolParamInfo | source/lib/ffgl/FFGLPluginManager.cpp:145-157 | appends one entry whose default is 1.0 or 0.0, and a new ID reads that default back |
| FfglPluginManager.PluginManager.SetTextParamInfo | source/lib/ffgl/FFGLPluginManager.cpp:159-174 | appends one entry with one element and the string default, and a new text or file ID reads it back |
| FfglPluginManager.PluginManager.SetBufferParamInfo | source/lib/ffgl/FFGLPluginManager.cpp:96-112 | appends one buffer entry with numElements blank elements and the given usage, which a new ID reads back |
| FfglPluginManager.PluginManager.SetOptionParamInfo | source/lib/ffgl/FFGLPluginManager.cpp:114-130 | appends one option entry with numElements blank elements and the default, which a new ID reads back |
| FfglPluginManager.PluginManager.SetFileParamInfo | source/lib/ffgl/FFGLPluginManager.cpp:176-191 | appends one file entry with the extensions, which a new ID reads back one by one |
| FfglPluginManager.PluginManager.FindParamInfo | source/lib/ffgl/FFGLPluginManager.cpp:338-347 | the scan returns the first index with the ID, or none |
| FfglPluginManager.PluginManager.SetParamElementInfo | source/lib/ffgl/FFGLPluginManager.cpp:132-143 | names and values exactly one element of a found entry, reads back as set, and does nothing for an unknown ID or an index past the elements |
| FfglPluginManager.PluginManager.SetParamElementValue | source/lib/ffgl/FFGLPluginManager.cpp:270-281 | sets exactly one element's value, which reads back; FF_FAIL and no change for an unknown ID or an index past the elements |
| FfglPluginManager.PluginManager.SetParamRange | source/lib/ffgl/FFGLPluginManager.cpp:198-203 | sets the found entry's range, which reads back; an unknown ID changes nothing |
| FfglPluginManager.PluginManager.GetParamRange | source/lib/ffgl/FFGLPluginManager.cpp:205-212 | the found entry's range, or [0, 1] for an unknown ID |
| FfglPluginManager.PluginManager.GetParamName | source/lib/ffgl/FFGLPluginManager.cpp:214-221 | the found entry's name, or nothing for an unknown ID |
| FfglPluginManager.PluginManager.GetParamType | source/lib/ffgl/FFGLPluginManager.cpp:223-230 | the found entry's type, or `None` (the `FF_FAIL` code) for an unknown ID |
| FfglPluginManager.PluginManager.GetNumParamElements | source/lib/ffgl/FFGLPluginManager.cpp:232-239 | the found entry's element count, or `None` (the `FF_FAIL` code) for an unknown ID |
| FfglPluginManager.PluginManager.Element | source/lib/ffgl/FFGLPluginManager.cpp:240-269 | the bounds-checked element lookup both element getters share |
| FfglPluginManager.PluginManager.GetParamElementName | source/lib/ffgl/FFGLPluginManager.cpp:240-255 | the element's name, or nothing for an unknown ID or an index past the elements |
| FfglPluginManager.PluginManager.GetParamElementDefault | source/lib/ffgl/FFGLPluginManager.cpp:256-269 | the element's value, or `None` (the `FF_FAIL` code) for an unknown ID or an index past the elements |
| FfglPluginManager.PluginManager.GetParamUsage | source/lib/ffgl/FFGLPluginManager.cpp:283-290 | the found entry's usage, or `None` (the `FF_FAIL` code) for an unknown ID |
| FfglPluginManager.PluginManager.GetParamDefault | source/lib/ffgl/FFGLPluginManager.cpp:292-306 | the string default of a text or file entry, the float default of any other, `None` (the `FF_FAIL` code) for an unknown ID |
| FfglPluginManager.PluginManager.GetNumFileParamExtensions | source/lib/ffgl/FFGLPluginManager.cpp:308-315 | the found entry's extension count, or 0 for an unknown ID |
| FfglPluginManager.PluginManager.GetFileParamExtension | source/lib/ffgl/FFGLPluginManager.cpp:316-331 | the extension at a valid index, or nothing |

## Left out

- OpenGL: shaders, texture creation and upload, the swizzle and the quad drawing (DmxPlayback.cpp:19-45, 133-150 and 204-240) are not modelled. `ProcessOpenGL`'s model ends with the composited buffer. The GL failure paths of `InitGL` are not modelled either.
- Host glue: `PluginInfo` registration, the `SetParamInfo` and `SetParamGroup` calls that publish the layers' parameters to the host (DmxPlayback.cpp:85-131), and `FFGLLog::LogToHost` messages are not modelled. Only the IDs they use are modelled.
- Playback.DmxPlayback.constructor: the `SetMinInputs(0)` / `SetMaxInputs(0)` calls on the plugin base are not modelled on the engine. `PluginManager`'s own setters model them.
- File access: opening the file with `std::ifstream` is an input, `FileContent`: either the file's lines or `Unopenable`. How `std::getline` splits the bytes into lines is not modelled.
- Compositor.Scale: IEEE single-precision arithmetic is modelled with reals. `p * N` and `raw * opacity` are exact, and the `(std::uint8_t)` cast truncates and then wraps mod 256. Out of range that cast is undefined in C++.
- ParameterRouting.ClipIndex: the `(std::uint8_t)value` cast uses the same `ToUint8` truncate-then-wrap as Compositor.Scale. Out of range (a value below 0 or of 256 or more) that cast is undefined in C++.
- Compositor.ActiveFrame: NaN and infinite positions are not modelled. A position p < 0, or one whose p*N is at least 2^64, converts out of range in the `size_t(floor(p*N))` of DmxPlayback.cpp:172, which is undefined in C++; the model treats it as the throw of `.at`. A position with N+1 <= p*N < 2^64 throws at DmxPlayback.cpp:178, and a position in (1, (N+1)/N) plays the last frame, as in the source.
- Playback.DmxPlayback.constructor: `activeClipIndex`, which the constructor leaves uninitialised, starts at 0.
- Pointers: a slot's path is a string copy, not the caller's `char*`. The `(char*)FF_FAIL` and `nullptr` results of the text getters are `None`.
- FfglPluginManager.PluginManager.GetParamDefault: the float-to-`FFUInt32` bit casts are not modelled; the getter returns the stored default, and `None` in place of the `FF_FAIL` code.
- FfglPluginManager.PluginManager.GetParamElementDefault: returns `None` in place of the `FF_FAIL` code.
- FfglPluginManager.PluginManager.GetParamType: returns `None` in place of the `FF_FAIL` code.
- FfglPluginManager.PluginManager.GetNumParamElements: returns `None` in place of the `FF_FAIL` code.
- FfglPluginManager.PluginManager.GetParamUsage: returns `None` in place of the `FF_FAIL` code.
- FFGL headers: FFGLPluginManager.h and FFGL.h are not part of this model. Parameter types are a datatype rather than `FF_TYPE_*` codes. The name buffer size 16, the fresh entry's range [0, 1], usage `FF_USAGE_STANDARD` = 0 and its float default 0.0 are taken from the SDK headers' usual values.
- FfglPluginManager.NameOf: the stored name is the 16-character buffer; the NUL-terminated reading of it by the host is not modelled.
- FfglPluginManager.PluginManager.SetBoolParamInfo: it leaves the element list empty and the usage at the fresh default, as the overload does not set them.
- The `const` overload of `FindParamInfo` (FFGLPluginManager.cpp:348-357) is the same scan and shares `Find`.
- Iteration over a `Frame`'s `std::unordered_map` has no fixed order. The model picks channels in any order, and the compositor's result is proved to be the same for every order.
- Concurrency between the host's parameter calls and `ProcessOpenGL` is not modelled; calls are sequential.
