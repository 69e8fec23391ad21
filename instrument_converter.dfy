// The subscriber side's instrument converter: a 31-field instrument record
// written as a CSV line or as the 31 texts of a database row, CSV text read
// back line by line, and the test that routes an instrument payload to the
// binary (protobuf) reader.
module InstrumentConverter {
  import opened Wrappers
  import opened Numbers
  import opened Fields
  import Text
  import opened CtpStructs
  import LineCodec

  predicate IsInstrument(r: Record)
  {
    WellTyped(r, InstrumentKinds)
  }

  // ---------------------------------------------------------------------
  // Writers

  /**
   * `convertToCSV`: the 31 fields in declaration order, comma-separated,
   * IsTrading as "1" or "0" and each `char` as one character.
   */
  function ConvertToCSV(r: Record): (line: string)
    requires IsInstrument(r)
  {
    Encode(r, Identity(31), false)
  }

  /** `convertBatchToCSV`: every instrument's line followed by "\n", in order. */
  method ConvertBatchToCSV(rs: seq<Record>) returns (text: string)
    requires LineCodec.Conforms(rs, InstrumentKinds)
    ensures var lines := LineCodec.Lines(rs, InstrumentKinds, Identity(31));
      && text == Text.Terminated(lines, '\n')
      && forall i :: 0 <= i < |rs| ==> lines[i] == ConvertToCSV(rs[i])
  {
    Sizes();
    text := LineCodec.WriteLines(rs, InstrumentKinds, Identity(31));
  }

  /**
   * `convertToDatabaseFormat`: the 31 field texts of a row, in declaration
   * order.
   */
  function ConvertToDatabaseFormat(r: Record): (row: seq<string>)
    requires IsInstrument(r)
  {
    Rendered(r, Identity(31), false)
  }

  /**
   * The database row has exactly 31 texts; IsTrading is "1" or "0", each
   * `char` field is a one-character text, and every text field is carried
   * as it is.
   */
  lemma DatabaseFormatFields(r: Record)
    requires IsInstrument(r)
    ensures var row := ConvertToDatabaseFormat(r);
      && |row| == 31
      && row[InstrumentIsTrading] == (if r[InstrumentIsTrading].b then "1" else "0")
      && (forall i :: 0 <= i < 31 && InstrumentKinds[i] == CharKind ==> row[i] == [r[i].c])
      && (forall i :: 0 <= i < 31 && InstrumentKinds[i] == StrKind ==> row[i] == r[i].s)
  {
    Sizes();
  }

  /** `convertBatchToDatabaseFormat`: one row per instrument, in order. */
  method ConvertBatchToDatabaseFormat(rs: seq<Record>) returns (rows: seq<seq<string>>)
    requires LineCodec.Conforms(rs, InstrumentKinds)
    ensures |rows| == |rs|
    ensures forall i :: 0 <= i < |rs| ==> rows[i] == ConvertToDatabaseFormat(rs[i])
  {
    Sizes();
    rows := LineCodec.WriteRows(rs, InstrumentKinds, Identity(31));
  }

  // ---------------------------------------------------------------------
  // Format tests

  /** `isCSVFormat`: non-empty and holding a comma. */
  predicate IsCSVFormat(d: string)
  {
    d != [] && ',' in d
  }

  /** Every line the CSV writer emits passes the CSV test. */
  lemma CSVLineIsCSV(r: Record)
    requires IsInstrument(r)
    ensures IsCSVFormat(ConvertToCSV(r))
  {
    var fs := Rendered(r, Identity(31), false);
    assert Text.Join(fs, ',') == fs[0] + [','] + Text.Join(fs[1..], ',');
    assert Text.Join(fs, ',')[|fs[0]|] == ',';
  }

  /**
   * The decision `isProtobufFormat` makes: a non-empty payload that holds a
   * non-ASCII byte, or whose first byte is at most 0x7F.
   */
  predicate ProtobufFormat(d: string)
  {
    d != [] && ((exists j :: 0 <= j < |d| && Text.NonAscii(d[j])) || d[0] as int % 256 <= 0x7F)
  }

  /**
   * Without a non-ASCII byte the first byte is at most 0x7F, so the second
   * test accepts: every non-empty payload is taken for protobuf.
   */
  lemma ProtobufFormatNonEmpty(d: string)
    ensures ProtobufFormat(d) <==> d != []
  {
    if d != [] && !Text.NonAscii(d[0]) {
      assert d[0] as int % 256 == d[0] as int;
    }
  }

  /**
   * `isProtobufFormat`.  The scan for a non-ASCII byte stops at the first
   * one; then the first byte is tested.
   */
  method IsProtobufFormat(d: string) returns (b: bool)
    ensures b == ProtobufFormat(d)
    ensures b <==> d != []
  {
    if d == [] {
      return false;
    }
    var hasNonAscii := false;
    var i := 0;
    while i < |d|
      invariant 0 <= i <= |d|
      invariant forall j :: 0 <= j < i ==> !Text.NonAscii(d[j])
    {
      if Text.NonAscii(d[i]) {
        hasNonAscii := true;
        break;
      }
      i := i + 1;
    }
    if hasNonAscii {
      return true;
    }
    var firstByte := d[0] as int % 256;
    if firstByte <= 0x7F {
      return true;
    }
    return false;
  }

  // ---------------------------------------------------------------------
  // Reader

  /**
   * `parseCSV`: one instrument per non-empty line with at least 31 fields,
   * in line order; a field `std::stoi` or `std::stod` rejects fails the
   * whole read.
   */
  method ParseCSV(d: string) returns (r: Result<seq<Record>, NumError>)
    ensures r == LineCodec.ParseLines(InstrumentKinds, Text.Split(d, '\n'))
    ensures r.Ok? ==> LineCodec.Conforms(r.value, InstrumentKinds)
  {
    r := LineCodec.ReadLines(InstrumentKinds, d);
    LineCodec.ParseLinesConform(InstrumentKinds, Text.Split(d, '\n'));
  }

  /**
   * A line with at least 31 fields whose numbers all convert gives an
   * instrument whose IsTrading is `fields[20] == "1"`, whose `char` fields
   * are the first character of their text (or '\0' when it is empty) and
   * whose text fields are the texts as they are.
   */
  lemma LineFields(line: string)
    requires line != [] && |Text.Split(line, ',')| >= 31
    requires LineCodec.ParseLine(InstrumentKinds, line).Ok?
    ensures var fs := Text.Split(line, ','); var p := LineCodec.ParseLine(InstrumentKinds, line);
      && p.value.Some?
      && p.value.value[InstrumentIsTrading] == Flag(fs[InstrumentIsTrading] == "1")
      && (forall i :: 0 <= i < 31 && InstrumentKinds[i] == CharKind ==> p.value.value[i] == Chr(CharOf(fs[i])))
      && (forall i :: 0 <= i < 31 && InstrumentKinds[i] == StrKind ==> p.value.value[i] == Str(fs[i]))
  {
    Sizes();
    LineCodec.LineFields(InstrumentKinds, line);
  }

  /**
   * `parseCSV` undoes `convertBatchToCSV`: a batch of instruments with no
   * comma or line break in any value, and a last field that is not empty,
   * is read back as the same batch, in order.
   */
  lemma BatchCSVRoundTrip(rs: seq<Record>)
    requires LineCodec.Conforms(rs, InstrumentKinds) && forall i :: 0 <= i < |rs| ==> CsvSafe(rs[i])
    ensures LineCodec.ParseLines(InstrumentKinds,
      Text.Split(Text.Terminated(LineCodec.Lines(rs, InstrumentKinds, Identity(31)), '\n'), '\n')) == Ok(rs)
  {
    Sizes();
    LineCodec.BatchRoundTrip(rs, InstrumentKinds);
  }

  /** `parseProtobufBatch`: a stub that yields no instrument for any payload. */
  function ParseProtobufBatch(d: string): (rs: seq<Record>)
    ensures |rs| == 0
  {
    []
  }
}
