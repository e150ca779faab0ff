/** `read_csv_recording` (CsvReader.cpp): reads a recording whose first line
    holds integer channel keys and whose other lines hold integer values, one
    column per key.

    The file is given as the lines `std::getline` yields from it (without
    their line terminators), or as `Unopenable` when the stream does not open.
    `std::getline`, `operator>>` and `std::stoi` are library calls; they are
    modelled as functions over the rest of the line, and the three loops of
    the reader as loops of `ReadCsvRecording`. */
module CsvReader {
  import opened Wrappers
  import opened DmxTypes

  datatype FileContent = Unopenable | Opened(lines: seq<string>)

  /** The two `std::logic_error`s the reader can raise: `std::invalid_argument`
      and `std::out_of_range`. Unlike "could not open", they are not caught by
      the caller. */
  datatype LogicError = InvalidArgument | OutOfRange

  /** One column of the recording: its 16-bit channel key and its 8-bit values. */
  datatype Column = Column(channel: u16, values: seq<byte>)

  datatype CsvOutcome =
    | Parsed(columns: seq<Column>)
    | CouldNotOpen              // the `std::runtime_error("Could not open file")`
    | Escaped(error: LogicError)

  /** Range of a 32-bit `int`. */
  const IntMin: int := -0x8000_0000
  const IntMax: int := 0x7FFF_FFFF

  /** White space as the C locale's `isspace` sees it. */
  predicate IsSpace(ch: char)
  {
    ch == ' ' || ch == '\t' || ch == '\n' || ch == '\U{B}' || ch == '\U{C}' || ch == '\r'
  }

  predicate IsDigit(ch: char) { '0' <= ch <= '9' }

  /** Number of leading white-space characters of `s`. */
  function SpaceRun(s: string): (n: nat)
    ensures n <= |s|
    ensures forall i :: 0 <= i < n ==> IsSpace(s[i])
    ensures n < |s| ==> !IsSpace(s[n])
  {
    if s != [] && IsSpace(s[0]) then 1 + SpaceRun(s[1..]) else 0
  }

  /** Number of leading decimal digits of `s`. */
  function DigitRun(s: string): (n: nat)
    ensures n <= |s|
    ensures forall i :: 0 <= i < n ==> IsDigit(s[i])
    ensures n < |s| ==> !IsDigit(s[n])
  {
    if s != [] && IsDigit(s[0]) then 1 + DigitRun(s[1..]) else 0
  }

  /** Value of a string of decimal digits, most significant first. */
  function DecimalValue(ds: string): nat
    requires forall i :: 0 <= i < |ds| ==> IsDigit(ds[i])
  {
    if ds == [] then 0
    else DecimalValue(ds[..|ds| - 1]) * 10 + DigitValue(ds[|ds| - 1])
  }

  function DigitValue(ch: char): (d: nat)
    requires IsDigit(ch)
    ensures d < 10
  {
    ch as int - '0' as int
  }

  /** Result of extracting one `int` from the front of a string. */
  datatype IntScan =
    | NoInt                       // no digits: extraction fails / `std::invalid_argument`
    | TooLarge                    // outside `int`: extraction fails / `std::out_of_range`
    | Int(value: int, used: nat)  // the value and the number of characters consumed

  /** One `int` extracted the way `operator>>` and `std::stoi` do it: leading
      white space, an optional sign, then the longest run of decimal digits,
      which must fit in 32 bits. */
  function ScanInt(s: string): (r: IntScan)
    ensures r.Int? ==> 0 < r.used <= |s| && IntMin <= r.value <= IntMax
  {
    var p := SpaceRun(s);
    var signed := p < |s| && (s[p] == '-' || s[p] == '+');
    var q := if signed then p + 1 else p;
    var digits := s[q..];
    var n := DigitRun(digits);
    if n == 0 then NoInt
    else
      var magnitude := DecimalValue(digits[..n]);
      var v: int := if signed && s[p] == '-' then -(magnitude as int) else magnitude;
      if v < IntMin || v > IntMax then TooLarge else Int(v, q + n)
  }

  /** `std::stoi`, which ignores whatever follows the digits. */
  function Stoi(field: string): (r: Result<int, LogicError>)
    ensures r.Success? ==> IntMin <= r.value <= IntMax
  {
    match ScanInt(field)
    case NoInt => Failure(InvalidArgument)
    case TooLarge => Failure(OutOfRange)
    case Int(v, _) => Success(v)
  }

  /** Index of the first ',' of `s`, or `|s|`. */
  function FieldEnd(s: string): (e: nat)
    ensures e <= |s|
    ensures forall i :: 0 <= i < e ==> s[i] != ','
    ensures e < |s| ==> s[e] == ','
  {
    if s == [] || s[0] == ',' then 0 else 1 + FieldEnd(s[1..])
  }

  /** The fields `std::getline(ss, colname, ',')` yields from a line: split on
      ',', but an empty line yields none and a trailing ',' adds no empty field. */
  function Fields(s: string): (fs: seq<string>)
    ensures s != [] <==> fs != []
    ensures forall i, j :: 0 <= i < |fs| && 0 <= j < |fs[i]| ==> fs[i][j] != ','
  {
    if s == [] then []
    else
      var e := FieldEnd(s);
      [s[..e]] + (if e == |s| then [] else Fields(s[e + 1..]))
  }

  /** `(std::uint16_t)`: the key a header field gives its column. */
  function ChannelKey(v: int): (k: u16)
    ensures 0 <= v < 0x1_0000 ==> k == v
    ensures (v - k) % 0x1_0000 == 0
  {
    v % 0x1_0000
  }

  /** The keys of the header fields, or the error of the first field `std::stoi`
      rejects. */
  function HeaderKeys(fields: seq<string>): Result<seq<u16>, LogicError>
  {
    if fields == [] then Success([])
    else
      match Stoi(fields[0])
      case Failure(e) => Failure(e)
      case Success(v) => Prepend([ChannelKey(v)], HeaderKeys(fields[1..]))
  }

  /** The header gives one key per field, in field order: each field's
      `std::stoi` value narrowed to 16 bits. */
  lemma {:induction false} HeaderKeysSuccess(fields: seq<string>)
    requires HeaderKeys(fields).Success?
    ensures |HeaderKeys(fields).value| == |fields|
    ensures forall k :: 0 <= k < |fields| ==>
      Stoi(fields[k]).Success? && HeaderKeys(fields).value[k] == ChannelKey(Stoi(fields[k]).value)
  {
    if fields != [] {
      HeaderKeysSuccess(fields[1..]);
      forall k | 0 < k < |fields| ensures fields[k] == fields[1..][k - 1] { }
    }
  }

  /** The header fails exactly when some field is not a 32-bit integer, with
      the error of the first such field. */
  lemma {:induction false} HeaderKeysFailure(fields: seq<string>)
    ensures HeaderKeys(fields).Failure? <==> exists k :: 0 <= k < |fields| && Stoi(fields[k]).Failure?
    ensures HeaderKeys(fields).Failure? ==>
      exists k :: 0 <= k < |fields| && Stoi(fields[k]) == Failure(HeaderKeys(fields).error) &&
        forall j :: 0 <= j < k ==> Stoi(fields[j]).Success?
  {
    if fields != [] {
      var later := fields[1..];
      HeaderKeysFailure(later);
      if Stoi(fields[0]).Success? {
        if HeaderKeys(later).Failure? {
          var k :| 0 <= k < |later| && Stoi(later[k]) == Failure(HeaderKeys(later).error) &&
            forall j :: 0 <= j < k ==> Stoi(later[j]).Success?;
          LaterFieldFails(fields, k);
        } else {
          LaterFieldsSucceed(fields);
        }
      }
    }
  }

  /** Past a first `int` field, the later field `k` that fails first makes
      the header fail with its error. */
  lemma LaterFieldFails(fields: seq<string>, k: nat)
    requires fields != [] && Stoi(fields[0]).Success? && k < |fields[1..]|
    requires HeaderKeys(fields[1..]).Failure?
    requires Stoi(fields[1..][k]) == Failure(HeaderKeys(fields[1..]).error)
    requires forall j :: 0 <= j < k ==> Stoi(fields[1..][j]).Success?
    ensures HeaderKeys(fields) == Failure(HeaderKeys(fields[1..]).error)
    ensures Stoi(fields[k + 1]) == Failure(HeaderKeys(fields).error)
    ensures forall j :: 0 <= j < k + 1 ==> Stoi(fields[j]).Success?
  {
    var later := fields[1..];
    assert fields[k + 1] == later[k];
    forall j | 0 < j < k + 1 ensures Stoi(fields[j]).Success? {
      assert fields[j] == later[j - 1];
    }
  }

  /** Past a first `int` field, a header whose later fields all succeed
      succeeds, and then every field is an `int`. */
  lemma LaterFieldsSucceed(fields: seq<string>)
    requires fields != [] && Stoi(fields[0]).Success?
    requires HeaderKeys(fields[1..]).Success?
    requires forall k :: 0 <= k < |fields[1..]| ==> Stoi(fields[1..][k]).Success?
    ensures HeaderKeys(fields).Success?
    ensures forall k :: 0 <= k < |fields| ==> Stoi(fields[k]).Success?
  {
    var later := fields[1..];
    assert fields == [fields[0]] + later;
    forall k | 0 < k < |fields| ensures fields[k] == later[k - 1] { }
  }

  /** The rest of a line after one extracted value: `ss.peek() == ','` then
      `ss.ignore()`, so at most one ',' directly after the value is skipped. */
  function SkipComma(s: string): (t: string)
    ensures |t| <= |s|
  {
    if s != [] && s[0] == ',' then s[1..] else s
  }

  /** The integers `while (ss >> val)` extracts from a data line: the longest
      prefix of integers, each optionally followed directly by one ','. */
  function RowValues(s: string): (vs: seq<int>)
    ensures |vs| <= |s|
    ensures forall i :: 0 <= i < |vs| ==> IntMin <= vs[i] <= IntMax
    decreases |s|
  {
    match ScanInt(s)
    case Int(v, n) => [v] + RowValues(SkipComma(s[n..]))
    case _ => []
  }

  /** The line `std::getline` reads first (an empty file yields an empty line). */
  function Header(lines: seq<string>): string { if lines == [] then "" else lines[0] }

  /** The lines read after the header. */
  function DataRows(lines: seq<string>): seq<string> { if lines == [] then [] else lines[1..] }

  /** The integers of each data row, in file order. */
  function Table(rows: seq<string>): (t: seq<seq<int>>)
    ensures |t| == |rows|
    ensures forall j :: 0 <= j < |rows| ==> t[j] == RowValues(rows[j])
  {
    seq(|rows|, j requires 0 <= j < |rows| => RowValues(rows[j]))
  }

  /** What a row's integers add to column `k`: the k-th narrowed to 8 bits, if any. */
  function Cell(vs: seq<int>, k: nat): (cell: seq<byte>)
    ensures |cell| == 1 <==> k < |vs|
    ensures |cell| <= 1
  {
    if k < |vs| then [vs[k] % 0x100] else []
  }

  /** The values column `k` collects from the rows of `table`, in row order. */
  function Series(table: seq<seq<int>>, k: nat): seq<byte>
  {
    if table == [] then [] else Series(table[..|table| - 1], k) + Cell(table[|table| - 1], k)
  }

  /** The columns built from header keys `keys` and the rows of `table`. */
  function Columns(keys: seq<u16>, table: seq<seq<int>>): (cs: seq<Column>)
    ensures |cs| == |keys|
    ensures forall k :: 0 <= k < |keys| ==> cs[k] == Column(keys[k], Series(table, k))
  {
    seq(|keys|, k requires 0 <= k < |keys| => Column(keys[k], Series(table, k)))
  }

  /** Every row has at most `width` values. */
  predicate RowsFit(table: seq<seq<int>>, width: nat)
  {
    forall j :: 0 <= j < |table| ==> |table[j]| <= width
  }

  /** What `read_csv_recording` returns or throws for a file. */
  function ReadCsv(file: FileContent): (r: CsvOutcome)
    ensures r == CouldNotOpen <==> file == Unopenable
    ensures file == Opened([]) ==> r == Parsed([])
  {
    match file
    case Unopenable => CouldNotOpen
    case Opened(lines) =>
      match HeaderKeys(Fields(Header(lines)))
      case Failure(e) => Escaped(e)
      case Success(keys) =>
        if RowsFit(Table(DataRows(lines)), |keys|) then Parsed(Columns(keys, Table(DataRows(lines))))
        else Escaped(OutOfRange)
  }

  /** The outcome of a file whose header and rows are both accepted. */
  lemma ReadCsvOfParts(lines: seq<string>, keys: seq<u16>)
    requires HeaderKeys(Fields(Header(lines))) == Success(keys)
    requires RowsFit(Table(DataRows(lines)), |keys|)
    ensures ReadCsv(Opened(lines)) == Parsed(Columns(keys, Table(DataRows(lines))))
  {
  }

  /** The columns after one more row: each gains that row's cell. */
  function AddRow(cols: seq<Column>, vs: seq<int>): (r: seq<Column>)
    ensures |r| == |cols|
    ensures forall k :: 0 <= k < |cols| ==>
      r[k] == Column(cols[k].channel, cols[k].values + Cell(vs, k))
  {
    seq(|cols|, k requires 0 <= k < |cols| => Column(cols[k].channel, cols[k].values + Cell(vs, k)))
  }

  /** The reader itself: the header loop, then the row loop. */
  method ReadCsvRecording(file: FileContent) returns (r: CsvOutcome)
    ensures r == ReadCsv(file)
  {
    if file.Unopenable? {
      return CouldNotOpen;
    }
    var lines := file.lines;

    // A freshly opened stream is good: the first line is the header.
    var line := if |lines| == 0 then "" else lines[0];
    var header := ReadHeader(line);
    if header.Failure? {
      return Escaped(header.error);
    }
    var result := header.value;
    ghost var keys := HeaderKeys(Fields(line)).value;

    var rows := if |lines| == 0 then [] else lines[1..];
    var ri := 0;
    while ri < |rows|
      invariant 0 <= ri <= |rows|
      invariant RowsFit(Table(rows[..ri]), |keys|)
      invariant result == Columns(keys, Table(rows[..ri]))
    {
      var next := AppendRow(result, rows[ri]);
      if next.Failure? {
        return Escaped(next.error);
      }
      ColumnsAddRow(keys, Table(rows[..ri]), RowValues(rows[ri]));
      TableGrows(rows, ri, |keys|);
      result := next.value;
      ri := ri + 1;
    }
    assert rows[..ri] == rows;
    return Parsed(result);
  }

  /** The header loop: one empty column per field of the first line. */
  method ReadHeader(line: string) returns (r: Result<seq<Column>, LogicError>)
    ensures HeaderKeys(Fields(line)).Success? ==>
      r == Success(Columns(HeaderKeys(Fields(line)).value, []))
    ensures HeaderKeys(Fields(line)).Failure? ==> r == Failure(HeaderKeys(Fields(line)).error)
  {
    var result: seq<Column> := [];
    var rest := line;
    assert Channels(result) == [];
    match HeaderKeys(Fields(rest)) {
      case Success(ks) => assert Channels(result) + ks == ks;
      case Failure(_) =>
    }
    while rest != []
      invariant forall k :: 0 <= k < |result| ==> result[k].values == []
      invariant HeaderKeys(Fields(line)) == Prepend(Channels(result), HeaderKeys(Fields(rest)))
      decreases |rest|
    {
      var next, tail := ReadField(line, result, rest);
      if next.Failure? {
        return Failure(next.error);
      }
      result, rest := next.value, tail;
    }
    HeaderDone(line, result);
    return Success(result);
  }

  /** One pass of the header loop: `std::getline` up to the next ',', then
      `std::stoi` of that field pushes one more empty column, or throws. */
  method ReadField(ghost line: string, result: seq<Column>, rest: string)
    returns (r: Result<seq<Column>, LogicError>, tail: string)
    requires rest != []
    requires forall k :: 0 <= k < |result| ==> result[k].values == []
    requires HeaderKeys(Fields(line)) == Prepend(Channels(result), HeaderKeys(Fields(rest)))
    ensures |tail| < |rest|
    ensures r.Failure? ==> HeaderKeys(Fields(line)) == Failure(r.error)
    ensures r.Success? ==> forall k :: 0 <= k < |r.value| ==> r.value[k].values == []
    ensures r.Success? ==> HeaderKeys(Fields(line)) == Prepend(Channels(r.value), HeaderKeys(Fields(tail)))
  {
    var colname := rest[..FieldEnd(rest)];
    tail := FieldTail(rest);
    HeaderField(line, result, rest);
    var key := Stoi(colname);
    if key.Failure? {
      return Failure(key.error), tail;
    }
    var next := result + [Column(ChannelKey(key.value), [])];
    EmptyColumnsAppend(result, ChannelKey(key.value));
    r := Success(next);
  }

  /** The rest of the line after the field `std::getline` takes. */
  function FieldTail(rest: string): (tail: string)
    requires rest != []
    ensures |tail| < |rest|
  {
    var e := FieldEnd(rest);
    if e == |rest| then [] else rest[e + 1..]
  }

  /** One field of the header loop, stated on the line that remains. */
  lemma HeaderField(line: string, result: seq<Column>, rest: string)
    requires rest != []
    requires HeaderKeys(Fields(line)) == Prepend(Channels(result), HeaderKeys(Fields(rest)))
    ensures var f := rest[..FieldEnd(rest)];
      Stoi(f).Failure? ==> HeaderKeys(Fields(line)) == Failure(Stoi(f).error)
    ensures var f := rest[..FieldEnd(rest)];
      Stoi(f).Success? ==>
        HeaderKeys(Fields(line)) ==
          Prepend(Channels(result + [Column(ChannelKey(Stoi(f).value), [])]), HeaderKeys(Fields(FieldTail(rest))))
  {
    FieldsSplit(rest);
    HeaderStep(line, result, rest[..FieldEnd(rest)], Fields(FieldTail(rest)));
  }

  /** Appending a column with no values keeps every column empty. */
  lemma EmptyColumnsAppend(result: seq<Column>, key: u16)
    requires forall k :: 0 <= k < |result| ==> result[k].values == []
    ensures var next := result + [Column(key, [])];
      forall k :: 0 <= k < |next| ==> next[k].values == []
  {
  }

  /** `std::getline` takes the line up to the first ',' as the next field. */
  lemma FieldsSplit(rest: string)
    requires rest != []
    ensures Fields(rest) == [rest[..FieldEnd(rest)]] + Fields(FieldTail(rest))
  {
  }

  /** One field of the header loop: `std::stoi` either throws the header's
      error or adds one more key in front of the keys of the later fields. */
  lemma HeaderStep(line: string, result: seq<Column>, f: string, later: seq<string>)
    requires HeaderKeys(Fields(line)) == Prepend(Channels(result), HeaderKeys([f] + later))
    ensures Stoi(f).Failure? ==> HeaderKeys(Fields(line)) == Failure(Stoi(f).error)
    ensures Stoi(f).Success? ==>
      HeaderKeys(Fields(line)) == Prepend(Channels(result + [Column(ChannelKey(Stoi(f).value), [])]), HeaderKeys(later))
  {
    HeaderKeysCons(f, later);
    if Stoi(f).Success? {
      var k := ChannelKey(Stoi(f).value);
      PrependTwice(Channels(result), k, HeaderKeys(later));
      assert Channels(result + [Column(k, [])]) == Channels(result) + [k];
    }
  }

  /** The end of the header loop: every field has become an empty column. */
  lemma HeaderDone(line: string, result: seq<Column>)
    requires forall k :: 0 <= k < |result| ==> result[k].values == []
    requires HeaderKeys(Fields(line)) == Prepend(Channels(result), HeaderKeys(Fields([])))
    ensures HeaderKeys(Fields(line)) == Success(Channels(result))
    ensures result == Columns(Channels(result), [])
  {
    assert Fields([]) == [];
    assert Channels(result) + [] == Channels(result);
  }

  /** The extraction loop over one data row: the k-th integer goes to column
      `colIdx == k`; one integer more than there are columns makes
      `result.at(colIdx)` throw. */
  method AppendRow(result: seq<Column>, row: string) returns (r: Result<seq<Column>, LogicError>)
    ensures r == if |RowValues(row)| <= |result| then Success(AddRow(result, RowValues(row))) else Failure(OutOfRange)
  {
    var cols := result;
    var colIdx := 0;
    var cursor := row;
    ghost var scanned: seq<int> := [];
    AddCellsNone(result);
    var s := ScanInt(cursor);
    while s.Int?
      invariant s == ScanInt(cursor)
      invariant colIdx == |scanned| <= |result|
      invariant scanned + RowValues(cursor) == RowValues(row)
      invariant cols == AddCells(result, scanned)
      decreases |cursor|
    {
      RowValuesStep(scanned, cursor);
      if colIdx >= |cols| {
        return Failure(OutOfRange);
      }
      cols := PlaceCell(result, scanned, cols, colIdx, s.value);
      cursor := SkipComma(cursor[s.used..]);
      scanned := scanned + [s.value];
      colIdx := colIdx + 1;
      s := ScanInt(cursor);
    }
    assert scanned == RowValues(row);
    AddCellsOfRow(result, scanned);
    return Success(cols);
  }

  /** Columns before any value of the row was placed. */
  lemma AddCellsNone(cols: seq<Column>)
    ensures AddCells(cols, []) == cols
  {
    forall k | 0 <= k < |cols| ensures AddCells(cols, [])[k] == cols[k] {
      assert cols[k].values + [] == cols[k].values;
    }
  }

  /** `result.at(colIdx).values.push_back(val)` for the next column. */
  method PlaceCell(result: seq<Column>, ghost scanned: seq<int>, cols: seq<Column>, colIdx: nat, v: int)
    returns (next: seq<Column>)
    requires colIdx == |scanned| < |result|
    requires cols == AddCells(result, scanned)
    ensures next == AddCells(result, scanned + [v])
  {
    AddCellsStep(result, scanned, v);
    assert cols[colIdx] == result[colIdx] by {
      assert result[colIdx].values + [] == result[colIdx].values;
    }
    next := cols[colIdx := Column(cols[colIdx].channel, cols[colIdx].values + [v % 0x100])];
  }

  /** One extraction: the scanned values so far gain the extracted one. */
  lemma RowValuesStep(scanned: seq<int>, cursor: string)
    requires ScanInt(cursor).Int?
    ensures scanned + RowValues(cursor) ==
      (scanned + [ScanInt(cursor).value]) + RowValues(SkipComma(cursor[ScanInt(cursor).used..]))
  {
    var rest := RowValues(SkipComma(cursor[ScanInt(cursor).used..]));
    assert RowValues(cursor) == [ScanInt(cursor).value] + rest;
  }

  /** Columns `cols` after the first `|vs|` values of a row went to the first
      `|vs|` columns. */
  function AddCells(cols: seq<Column>, vs: seq<int>): (r: seq<Column>)
    ensures |r| == |cols|
  {
    seq(|cols|, k requires 0 <= k < |cols| =>
      Column(cols[k].channel, cols[k].values + (if k < |vs| then [vs[k] % 0x100] else [])))
  }

  lemma AddCellsOfRow(cols: seq<Column>, vs: seq<int>)
    ensures AddCells(cols, vs) == AddRow(cols, vs)
  {
  }

  lemma AddCellsStep(cols: seq<Column>, vs: seq<int>, v: int)
    requires |vs| < |cols|
    ensures AddCells(cols, vs + [v]) ==
      AddCells(cols, vs)[|vs| := Column(cols[|vs|].channel, cols[|vs|].values + [v % 0x100])]
  {
  }

  lemma HeaderKeysCons(f: string, tail: seq<string>)
    ensures Stoi(f).Failure? ==> HeaderKeys([f] + tail) == Failure(Stoi(f).error)
    ensures Stoi(f).Success? ==>
      HeaderKeys([f] + tail) == Prepend([ChannelKey(Stoi(f).value)], HeaderKeys(tail))
  {
    assert ([f] + tail)[1..] == tail;
  }

  lemma PrependTwice(ks: seq<u16>, k: u16, r: Result<seq<u16>, LogicError>)
    ensures Prepend(ks, Prepend([k], r)) == Prepend(ks + [k], r)
  {
    if r.Success? {
      assert ks + ([k] + r.value) == (ks + [k]) + r.value;
    }
  }

  /** The table of one more row, which fits when that row fits. */
  lemma TableGrows(rows: seq<string>, i: nat, width: nat)
    requires i < |rows|
    ensures Table(rows[..i + 1]) == Table(rows[..i]) + [RowValues(rows[i])]
    ensures RowsFit(Table(rows[..i]), width) && |RowValues(rows[i])| <= width ==>
      RowsFit(Table(rows[..i + 1]), width)
  {
    assert rows[..i + 1] == rows[..i] + [rows[i]];
  }

  /** Reading one more row extends every column by that row's cell. */
  lemma ColumnsAddRow(keys: seq<u16>, table: seq<seq<int>>, vs: seq<int>)
    ensures Columns(keys, table + [vs]) == AddRow(Columns(keys, table), vs)
  {
    assert (table + [vs])[..|table|] == table;
  }

  /** `r` with the keys `ks` in front when it is a success. */
  function Prepend(ks: seq<u16>, r: Result<seq<u16>, LogicError>): Result<seq<u16>, LogicError>
  {
    match r
    case Success(rest) => Success(ks + rest)
    case Failure(e) => Failure(e)
  }

  /** The channel keys of a list of columns. */
  function Channels(cs: seq<Column>): (ks: seq<u16>)
    ensures |ks| == |cs|
    ensures forall k :: 0 <= k < |cs| ==> ks[k] == cs[k].channel
  {
    seq(|cs|, k requires 0 <= k < |cs| => cs[k].channel)
  }

  /** Column `k` gains at most one value per row. */
  lemma {:induction false} SeriesAtMostRows(table: seq<seq<int>>, k: nat)
    ensures |Series(table, k)| <= |table|
  {
    if table != [] {
      SeriesAtMostRows(table[..|table| - 1], k);
    }
  }

  /** When every row has a k-th integer, column `k` holds exactly those
      integers, in row order, narrowed to 8 bits. */
  lemma {:induction false} SeriesOfFullRows(table: seq<seq<int>>, k: nat)
    requires forall j :: 0 <= j < |table| ==> k < |table[j]|
    ensures Series(table, k) == seq(|table|, j requires 0 <= j < |table| => table[j][k] % 0x100)
  {
    if table != [] {
      var init := table[..|table| - 1];
      SeriesOfFullRows(init, k);
    }
  }

  /** A row stops at its first non-integer, so a later column is never longer
      than an earlier one. */
  lemma {:induction false} LaterColumnsNoLonger(table: seq<seq<int>>, k: nat)
    ensures |Series(table, k + 1)| <= |Series(table, k)|
  {
    if table != [] {
      LaterColumnsNoLonger(table[..|table| - 1], k);
    }
  }

  /** A parsed file has one column per header field, keyed by the field's
      `std::stoi` value narrowed to 16 bits, holding column `k` of the rows. */
  lemma ReadCsvParsed(lines: seq<string>)
    requires ReadCsv(Opened(lines)).Parsed?
    ensures var cs := ReadCsv(Opened(lines)).columns;
      var fields := Fields(Header(lines));
      |cs| == |fields| &&
      forall k :: 0 <= k < |cs| ==>
        Stoi(fields[k]).Success? &&
        cs[k] == Column(ChannelKey(Stoi(fields[k]).value), Series(Table(DataRows(lines)), k))
  {
    HeaderKeysSuccess(Fields(Header(lines)));
  }

  /** The reader throws a logic error exactly when a header field is not an
      `int`, or when a data row holds more integers than there are columns;
      the latter throws `std::out_of_range`. */
  lemma ReadCsvEscapes(lines: seq<string>)
    ensures ReadCsv(Opened(lines)).Escaped? <==>
      (exists k :: 0 <= k < |Fields(Header(lines))| && Stoi(Fields(Header(lines))[k]).Failure?) ||
      (exists j :: 0 <= j < |DataRows(lines)| && |RowValues(DataRows(lines)[j])| > |Fields(Header(lines))|)
    ensures ((forall k :: 0 <= k < |Fields(Header(lines))| ==> Stoi(Fields(Header(lines))[k]).Success?) &&
      ReadCsv(Opened(lines)).Escaped?) ==> ReadCsv(Opened(lines)).error == OutOfRange
  {
    if HeaderKeys(Fields(Header(lines))).Failure? {
      HeaderEscapes(lines);
    } else {
      HeaderKeysSuccess(Fields(Header(lines)));
      RowsEscape(lines, HeaderKeys(Fields(Header(lines))).value);
    }
  }

  /** A header field that is not an `int` makes the reader throw that error. */
  lemma HeaderEscapes(lines: seq<string>)
    requires HeaderKeys(Fields(Header(lines))).Failure?
    ensures ReadCsv(Opened(lines)) == Escaped(HeaderKeys(Fields(Header(lines))).error)
    ensures exists k :: 0 <= k < |Fields(Header(lines))| && Stoi(Fields(Header(lines))[k]).Failure?
  {
    HeaderKeysFailure(Fields(Header(lines)));
  }

  /** Past a good header, the reader throws `std::out_of_range` exactly when
      a data row holds more integers than there are columns. */
  lemma RowsEscape(lines: seq<string>, keys: seq<u16>)
    requires HeaderKeys(Fields(Header(lines))) == Success(keys)
    ensures ReadCsv(Opened(lines)).Escaped? <==>
      exists j :: 0 <= j < |DataRows(lines)| && |RowValues(DataRows(lines)[j])| > |keys|
    ensures ReadCsv(Opened(lines)).Escaped? ==> ReadCsv(Opened(lines)).error == OutOfRange
  {
    var rows := DataRows(lines);
    var table := Table(rows);
    assert ReadCsv(Opened(lines)) ==
      if RowsFit(table, |keys|) then Parsed(Columns(keys, table)) else Escaped(OutOfRange);
    if !RowsFit(table, |keys|) {
      var j :| 0 <= j < |table| && |table[j]| > |keys|;
      assert |RowValues(rows[j])| > |keys|;
    } else {
      forall j | 0 <= j < |rows| ensures |RowValues(rows[j])| <= |keys| {
        assert table[j] == RowValues(rows[j]);
      }
    }
  }
}
