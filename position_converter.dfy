// The subscriber side's investor-position converter: a 49-field position
// record written as a CSV line or as the 49 texts of a database row, CSV
// text read back line by line, and the test that routes a position payload
// to the CSV reader.  Record positions follow the CSV reader's order.
module PositionConverter {
  import opened Wrappers
  import opened Numbers
  import opened Fields
  import Text
  import opened CtpStructs
  import LineCodec

  predicate IsPosition(r: Record)
  {
    WellTyped(r, PositionKinds)
  }

  /** The positions `a`, `a + 1`, ..., `b - 1`. */
  function Range(a: nat, b: nat): (l: seq<nat>)
    requires a <= b
    ensures |l| == b - a
    ensures forall i :: 0 <= i < b - a ==> l[i] == a + i
  {
    seq(b - a, i requires 0 <= i < b - a => a + i)
  }

  /**
   * The order `convertToCSV` writes: the five identifying fields, then
   * TradingDay, then Position through SettlementPrice, then SettlementID
   * through TasCost.  PositionDate and YdPosition are not written.
   */
  const CsvLayout: seq<nat> := Range(0, 5) + [PositionTradingDay] + Range(7, 28) + Range(29, 49)

  /**
   * The order `convertToDatabaseFormat` writes: InstrumentID through
   * Position, then TradingDay, then LongFrozen through SettlementPrice,
   * then SettlementID through TasCost.
   */
  const DbLayout: seq<nat> := Range(0, 8) + [PositionTradingDay] + Range(8, 28) + Range(29, 49)

  /** The shape of the two writer layouts. */
  lemma Layouts()
    ensures |CsvLayout| == 47 && InLayout(CsvLayout, 49)
    ensures forall i :: 0 <= i < 47 ==> CsvLayout[i] != PositionPositionDate && CsvLayout[i] != PositionYdPosition
    ensures CsvLayout[5] == PositionTradingDay && CsvLayout[6] == 7
    ensures |DbLayout| == 49 && InLayout(DbLayout, 49)
    ensures forall i :: 0 <= i < 8 ==> DbLayout[i] == i
    ensures DbLayout[8] == PositionTradingDay && DbLayout[9] == PositionLongFrozen
    ensures forall i :: 9 <= i < 29 ==> DbLayout[i] == i - 1
    ensures forall i :: 29 <= i < 49 ==> DbLayout[i] == i
  {
  }

  // ---------------------------------------------------------------------
  // Writers

  /** `convertToCSV`: 47 comma-separated fields in `CsvLayout` order. */
  function ConvertToCSV(r: Record): (line: string)
    requires IsPosition(r)
  {
    Layouts();
    Encode(r, CsvLayout, false)
  }

  /** `convertBatchToCSV`: every position's line followed by "\n", in order. */
  method ConvertBatchToCSV(rs: seq<Record>) returns (text: string)
    requires LineCodec.Conforms(rs, PositionKinds)
    ensures
      var lines := LineCodec.Lines(rs, PositionKinds, CsvLayout);
      && text == Text.Terminated(lines, '\n')
      && forall i :: 0 <= i < |rs| ==> lines[i] == ConvertToCSV(rs[i])
  {
    Sizes();
    Layouts();
    text := LineCodec.WriteLines(rs, PositionKinds, CsvLayout);
  }

  /**
   * A written line splits into exactly 47 fields, when no value holds a
   * comma or line break.
   */
  lemma CSVLineFields(r: Record)
    requires IsPosition(r) && CsvSafe(r)
    ensures |Text.Split(ConvertToCSV(r), ',')| == 47
  {
    Sizes();
    Layouts();
    RenderNonEmpty(r[48]);
    SplitRendered(r, CsvLayout, false);
  }

  /**
   * So the reader, which needs 49 fields, skips every line the writer
   * emits: a written batch reads back as no position at all.
   */
  lemma CSVBatchReadsNothing(rs: seq<Record>)
    requires LineCodec.Conforms(rs, PositionKinds) && forall i :: 0 <= i < |rs| ==> CsvSafe(rs[i])
    ensures
      LineCodec.ParseLines(PositionKinds,
        Text.Split(Text.Terminated(LineCodec.Lines(rs, PositionKinds, CsvLayout), '\n'), '\n')) == Ok([])
  {
    Sizes();
    Layouts();
    var lines := LineCodec.Lines(rs, PositionKinds, CsvLayout);
    forall i | 0 <= i < |rs| ensures '\n' !in lines[i] {
      LineCodec.LineUnbroken(rs[i], CsvLayout);
    }
    Text.SplitTerminated(lines, '\n');
    var res := LineCodec.LineResults(PositionKinds, lines);
    forall i | 0 <= i < |rs| ensures res[i] == Ok(None) {
      CSVLineFields(rs[i]);
    }
    LineCodec.CollectNone(res);
  }

  /** The writer the reader expects: all 49 fields in the reader's order. */
  function ConvertToCSVFull(r: Record): (line: string)
    requires IsPosition(r)
  {
    Sizes();
    Encode(r, Identity(49), false)
  }

  /** With the full layout, a written batch reads back as itself, in order. */
  lemma CSVFullRoundTrip(rs: seq<Record>)
    requires LineCodec.Conforms(rs, PositionKinds) && forall i :: 0 <= i < |rs| ==> CsvSafe(rs[i])
    ensures
      LineCodec.ParseLines(PositionKinds,
        Text.Split(Text.Terminated(LineCodec.Lines(rs, PositionKinds, Identity(49)), '\n'), '\n')) == Ok(rs)
  {
    Sizes();
    LineCodec.BatchRoundTrip(rs, PositionKinds);
  }

  /** `convertToDatabaseFormat`: the 49 field texts in `DbLayout` order. */
  function ConvertToDatabaseFormat(r: Record): (row: seq<string>)
    requires IsPosition(r)
  {
    Layouts();
    Rendered(r, DbLayout, false)
  }

  /**
   * The database row has 49 texts: the first eight fields in order,
   * TradingDay at index 8 and LongFrozen at index 9, and every field from
   * SettlementID on at its own index.
   */
  lemma DatabaseFormatFields(r: Record)
    requires IsPosition(r)
    ensures var row := ConvertToDatabaseFormat(r);
      && |row| == 49
      && row[8] == r[PositionTradingDay].s
      && row[9] == Render(r[PositionLongFrozen])
      && row[28] == r[PositionSettlementPrice].t
      && (forall i :: 0 <= i < 8 ==> row[i] == Render(r[i]))
      && (forall i :: 9 <= i < 29 ==> row[i] == Render(r[i - 1]))
      && (forall i :: 29 <= i < 49 ==> row[i] == Render(r[i]))
  {
    Sizes();
    Layouts();
    PositionLayout();
    assert HasKind(r[27], PositionKinds[27]);
  }

  /** `convertBatchToDatabaseFormat`: one row per position, in order. */
  method ConvertBatchToDatabaseFormat(rs: seq<Record>) returns (rows: seq<seq<string>>)
    requires LineCodec.Conforms(rs, PositionKinds)
    ensures |rows| == |rs|
    ensures forall i :: 0 <= i < |rs| ==> rows[i] == ConvertToDatabaseFormat(rs[i])
  {
    Sizes();
    Layouts();
    rows := LineCodec.WriteRows(rs, PositionKinds, DbLayout);
  }

  // ---------------------------------------------------------------------
  // Format test and readers

  /**
   * `isCSVFormat`: false for the empty payload and as soon as a byte with
   * the high bit set is met; otherwise whether the payload holds a comma.
   */
  method IsCSVFormat(d: string) returns (b: bool)
    ensures b <==> d != [] && (forall i :: 0 <= i < |d| ==> !Text.NonAscii(d[i])) && ',' in d
  {
    if d == [] {
      return false;
    }
    var i := 0;
    while i < |d|
      invariant 0 <= i <= |d|
      invariant forall j :: 0 <= j < i ==> !Text.NonAscii(d[j])
    {
      if Text.NonAscii(d[i]) {
        return false;
      }
      i := i + 1;
    }
    return ',' in d;
  }

  /**
   * `parseCSV`: one position per non-empty line with at least 49 fields,
   * in line order; a field `std::stoi` or `std::stod` rejects fails the
   * whole read.
   */
  method ParseCSV(d: string) returns (r: Result<seq<Record>, NumError>)
    ensures r == LineCodec.ParseLines(PositionKinds, Text.Split(d, '\n'))
    ensures r.Ok? ==> LineCodec.Conforms(r.value, PositionKinds)
  {
    r := LineCodec.ReadLines(PositionKinds, d);
    LineCodec.ParseLinesConform(PositionKinds, Text.Split(d, '\n'));
  }

  /**
   * A line with at least 49 fields whose numbers all convert gives a
   * position whose TradingDay is `fields[28]` and whose identifying texts
   * are `fields[0..3]`.
   */
  lemma LineFields(line: string)
    requires line != [] && |Text.Split(line, ',')| >= 49
    requires LineCodec.ParseLine(PositionKinds, line).Ok?
    ensures var fs := Text.Split(line, ','); var p := LineCodec.ParseLine(PositionKinds, line);
      && p.value.Some?
      && p.value.value[PositionTradingDay] == Str(fs[28])
      && p.value.value[0] == Str(fs[0]) && p.value.value[1] == Str(fs[1]) && p.value.value[2] == Str(fs[2])
  {
    PositionLayout();
    LineCodec.LineFields(PositionKinds, line);
  }

  /** `parseProtobufBatch`: a stub that yields no position for any payload. */
  function ParseProtobufBatch(d: string): (rs: seq<Record>)
    ensures |rs| == 0
  {
    []
  }
}
