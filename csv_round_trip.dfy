/** The recording file format read back: a table written as decimal CSV (a
    header of channel keys, then one line of 8-bit values per time step) is
    read by `read_csv_recording` as exactly the columns it was written from. */
module CsvRoundTrip {
  import opened Wrappers
  import opened DmxTypes
  import opened CsvReader

  function DigitChar(d: nat): (ch: char)
    requires d < 10
    ensures IsDigit(ch) && DigitValue(ch) == d
  {
    ('0' as int + d) as char
  }

  /** Decimal notation of `n`, most significant digit first, no leading zeros. */
  function Digits(n: nat): string
  {
    if n < 10 then [DigitChar(n)] else Digits(n / 10) + [DigitChar(n % 10)]
  }

  /** The integers of `vs`, separated by ','. */
  function Join(vs: seq<nat>): string
  {
    if |vs| == 0 then ""
    else if |vs| == 1 then Digits(vs[0])
    else Digits(vs[0]) + "," + Join(vs[1..])
  }

  /** The lines of a recording with header keys `keys` and one row per time
      step of `table`. */
  function Lines(keys: seq<u16>, table: seq<seq<byte>>): (lines: seq<string>)
    ensures |lines| == |table| + 1
  {
    [Join(keys)] + seq(|table|, j requires 0 <= j < |table| => Join(table[j]))
  }

  /** The columns the table was written from: column `k` is the k-th value of
      every row, under key `keys[k]`. */
  function Transpose(keys: seq<u16>, table: seq<seq<byte>>): (cs: seq<Column>)
    requires forall j :: 0 <= j < |table| ==> |table[j]| == |keys|
    ensures |cs| == |keys|
  {
    seq(|keys|, k requires 0 <= k < |keys| =>
      Column(keys[k], seq(|table|, j requires 0 <= j < |table| => table[j][k])))
  }

  /** Reading back a rectangular table of 8-bit values under 16-bit keys gives
      the columns it was written from. */
  lemma ReadWrittenRecording(keys: seq<u16>, table: seq<seq<byte>>)
    requires forall j :: 0 <= j < |table| ==> |table[j]| == |keys|
    ensures ReadCsv(Opened(Lines(keys, table))) == Parsed(Transpose(keys, table))
  {
    var lines := Lines(keys, table);
    HeaderReadsBack(keys);
    RowsReadBack(table);
    ReadCsvOfParts(lines, keys);
    var cs := Columns(keys, table);
    forall k | 0 <= k < |keys| ensures cs[k] == Transpose(keys, table)[k] {
      SeriesOfBytes(table, k);
    }
  }

  /** Column `k` of a rectangular table of bytes holds the bytes themselves. */
  lemma SeriesOfBytes(table: seq<seq<byte>>, k: nat)
    requires forall j :: 0 <= j < |table| ==> k < |table[j]|
    ensures Series(table, k) == seq(|table|, j requires 0 <= j < |table| => table[j][k])
  {
    SeriesOfFullRows(table, k);
    var narrowed := seq(|table|, j requires 0 <= j < |table| => table[j][k] % 0x100);
    forall j | 0 <= j < |table| ensures narrowed[j] == table[j][k] { }
  }

  /** Every data line is scanned back as the row it was written from. */
  lemma RowsReadBack(table: seq<seq<byte>>)
    ensures Table(seq(|table|, j requires 0 <= j < |table| => Join(table[j]))) == table
  {
    var rows := seq(|table|, j requires 0 <= j < |table| => Join(table[j]));
    forall j | 0 <= j < |table| ensures RowValues(rows[j]) == table[j] {
      RowReadsBack(table[j]);
    }
  }

  /** A header of 16-bit keys is read back as those keys. */
  lemma HeaderReadsBack(keys: seq<u16>)
    ensures HeaderKeys(Fields(Join(keys))) == Success(keys)
  {
    FieldsOfJoin(keys);
    HeaderKeysOfDigits(keys);
  }

  /** The notations of `vs`, one per field. */
  function Notations(vs: seq<nat>): (fs: seq<string>)
    ensures |fs| == |vs|
  {
    if vs == [] then [] else [Digits(vs[0])] + Notations(vs[1..])
  }

  lemma {:induction false} HeaderKeysOfDigits(keys: seq<u16>)
    ensures HeaderKeys(Notations(keys)) == Success(keys)
  {
    if keys != [] {
      HeaderKeysOfDigits(keys[1..]);
      HeaderKeysStep(keys[0], keys[1..]);
      assert [keys[0]] + keys[1..] == keys;
    }
  }

  lemma HeaderKeysStep(k: u16, rest: seq<u16>)
    requires HeaderKeys(Notations(rest)) == Success(rest)
    ensures HeaderKeys(Notations([k] + rest)) == Success([k] + rest)
  {
    assert ([k] + rest)[1..] == rest;
    StoiOfDigits(k);
    HeaderKeysCons(Digits(k), Notations(rest));
  }

  /** A data row of integers is scanned back as those integers. */
  lemma {:induction false} RowReadsBack(vs: seq<nat>)
    requires forall i :: 0 <= i < |vs| ==> vs[i] <= IntMax
    ensures RowValues(Join(vs)) == vs
  {
    if |vs| == 0 {
      assert ScanInt("") == NoInt;
    } else if |vs| == 1 {
      LastValueReadsBack(vs[0]);
    } else {
      RowReadsBack(vs[1..]);
      FirstValueReadsBack(vs);
    }
  }

  /** A row of two or more values reads back its first value, then the rest. */
  lemma FirstValueReadsBack(vs: seq<nat>)
    requires |vs| >= 2 && vs[0] <= IntMax
    requires RowValues(Join(vs[1..])) == vs[1..]
    ensures RowValues(Join(vs)) == vs
  {
    JoinSplit(vs);
    ValueThenCommaReadsBack(vs[0], Join(vs[1..]));
    assert [vs[0]] + vs[1..] == vs;
  }

  lemma LastValueReadsBack(v: nat)
    requires v <= IntMax
    ensures RowValues(Digits(v)) == [v]
  {
    ScanDigits(v, "");
    assert Digits(v) + "" == Digits(v);
    RowValuesOfScan(Digits(v), v, |Digits(v)|);
    assert ScanInt("") == NoInt;
  }

  lemma ValueThenCommaReadsBack(v: nat, rest: string)
    requires v <= IntMax
    ensures RowValues(Digits(v) + ("," + rest)) == [v] + RowValues(rest)
  {
    var s := Digits(v) + ("," + rest);
    ScanDigits(v, "," + rest);
    RowValuesOfScan(s, v, |Digits(v)|);
    assert s[|Digits(v)|..] == "," + rest;
    assert ("," + rest)[1..] == rest;
  }

  /** One extraction of `while (ss >> val)`. */
  lemma RowValuesOfScan(s: string, v: int, n: nat)
    requires ScanInt(s) == Int(v, n)
    ensures RowValues(s) == [v] + RowValues(SkipComma(s[n..]))
  {
  }

  lemma JoinSplit(vs: seq<nat>)
    requires |vs| > 1
    ensures Join(vs) == Digits(vs[0]) + ("," + Join(vs[1..]))
  {
  }

  /** The header line splits into the notations of its keys. */
  lemma {:induction false} FieldsOfJoin(vs: seq<nat>)
    ensures Fields(Join(vs)) == Notations(vs)
  {
    if |vs| == 1 {
      DigitsShape(vs[0]);
      FieldEndOfDigits(Digits(vs[0]), "");
      assert Digits(vs[0]) + "" == Digits(vs[0]);
    } else if |vs| > 1 {
      var d := Digits(vs[0]);
      var rest := Join(vs[1..]);
      DigitsShape(vs[0]);
      FieldEndOfDigits(d, "," + rest);
      assert Join(vs) == d + ("," + rest);
      assert Join(vs)[..|d|] == d;
      assert Join(vs)[|d| + 1..] == rest;
      FieldsOfJoin(vs[1..]);
    }
  }

  /** `std::stoi` reads the notation of a 32-bit value back. */
  lemma StoiOfDigits(n: nat)
    requires n <= IntMax
    ensures Stoi(Digits(n)) == Success(n)
  {
    ScanDigits(n, "");
    assert Digits(n) + "" == Digits(n);
  }

  /** A notation followed by nothing or by ',' scans as its value, consuming
      exactly the notation. */
  lemma ScanDigits(n: nat, rest: string)
    requires n <= IntMax
    requires rest == [] || rest[0] == ','
    ensures ScanInt(Digits(n) + rest) == Int(n, |Digits(n)|)
  {
    var d := Digits(n);
    var s := d + rest;
    DigitsShape(n);
    assert s[0] == d[0] && IsDigit(s[0]);
    assert SpaceRun(s) == 0;
    DigitRunOfDigits(d, rest);
    assert s[0..] == s;
    assert s[0..|d|] == d;
  }

  /** The notation is a non-empty run of digits whose value is `n`. */
  lemma {:induction false} DigitsShape(n: nat)
    ensures |Digits(n)| > 0
    ensures forall i :: 0 <= i < |Digits(n)| ==> IsDigit(Digits(n)[i])
    ensures DecimalValue(Digits(n)) == n
  {
    if n >= 10 {
      DigitsShape(n / 10);
      var d := Digits(n);
      assert d[..|d| - 1] == Digits(n / 10);
    }
  }

  lemma {:induction false} DigitRunOfDigits(d: string, rest: string)
    requires forall i :: 0 <= i < |d| ==> IsDigit(d[i])
    requires rest == [] || rest[0] == ','
    ensures DigitRun(d + rest) == |d|
  {
    if d != [] {
      assert (d + rest)[1..] == d[1..] + rest;
      DigitRunOfDigits(d[1..], rest);
    }
  }

  lemma {:induction false} FieldEndOfDigits(d: string, rest: string)
    requires forall i :: 0 <= i < |d| ==> IsDigit(d[i])
    requires rest == [] || rest[0] == ','
    ensures FieldEnd(d + rest) == |d|
  {
    if d != [] {
      assert (d + rest)[1..] == d[1..] + rest;
      FieldEndOfDigits(d[1..], rest);
    }
  }
}
