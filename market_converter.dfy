// The subscriber's reader and writer of depth-market lines: a ticker line
// "EL/CTP_TICKER/<id>/T/1 || <44 comma-separated fields>" is read into a
// depth-market record, and a record is written as the row text the market
// batch insert takes apart again.
module MarketConverter {
  import opened Wrappers
  import opened Numbers
  import opened Fields
  import Text
  import opened CtpStructs

  const Separator: string := "||"
  const TickerTag: string := "EL/CTP_TICKER"

  /** A payload is taken for a CSV ticker line when it holds both "||" and the ticker tag. */
  predicate IsCSVFormat(d: string)
  {
    Text.Contains(d, Separator) && Text.Contains(d, TickerTag)
  }

  /** The same test stated with occurrences instead of searches. */
  lemma IsCSVFormatOccurs(d: string)
    ensures IsCSVFormat(d) <==>
      (exists i :: 0 <= i <= |d| && Text.OccursAt(d, Separator, i))
      && (exists j :: 0 <= j <= |d| && Text.OccursAt(d, TickerTag, j))
  {
    if exists i :: 0 <= i <= |d| && Text.OccursAt(d, Separator, i) {
      var i :| 0 <= i <= |d| && Text.OccursAt(d, Separator, i);
      Text.ContainsAt(d, Separator, i);
    }
    if exists j :: 0 <= j <= |d| && Text.OccursAt(d, TickerTag, j) {
      var j :| 0 <= j <= |d| && Text.OccursAt(d, TickerTag, j);
      Text.ContainsAt(d, TickerTag, j);
    }
  }

  /** A line with the ticker topic in front of its "||" passes the test, whatever follows. */
  lemma TickerLineIsCSV(id: string, body: string)
    ensures IsCSVFormat(TickerTag + "/" + id + "/T/1 " + Separator + body)
  {
    var d := TickerTag + "/" + id + "/T/1 " + Separator + body;
    var k := |TickerTag| + 1 + |id| + 5;
    assert d[k..k + 2] == Separator;
    assert d[0..|TickerTag|] == TickerTag;
    Text.ContainsAt(d, Separator, k);
    Text.ContainsAt(d, TickerTag, 0);
  }

  /**
   * `parseCSV`: the fields after the first "||", split with `getline`,
   * are read positionally with the safe conversions.  No "||", or fewer
   * than 44 fields after it, gives the zero-initialised record.
   */
  function ParseCSV(d: string): (r: Record)
    ensures WellTyped(r, MarketKinds)
    ensures Text.Find(d, Separator).None? ==> r == DefaultRecord(MarketKinds)
  {
    match Text.Find(d, Separator)
    case None => DefaultRecord(MarketKinds)
    case Some(p) =>
      var fields := Text.Split(d[p + 2..], ',');
      if |fields| < 44 then DefaultRecord(MarketKinds) else DecodeSafe(MarketKinds, fields)
  }

  /** The fields `parseCSV` reads: those after the first "||". */
  function FieldsAfterSeparator(d: string): (fs: seq<string>)
    requires Text.Find(d, Separator).Some?
  {
    Text.Split(d[Text.Find(d, Separator).value + 2..], ',')
  }

  /** A payload `parseCSV` cannot read leaves the instrument empty, so the subscriber drops it. */
  lemma ParseCSVRejects(d: string)
    requires Text.Find(d, Separator).None? || |FieldsAfterSeparator(d)| < 44
    ensures ParseCSV(d) == DefaultRecord(MarketKinds)
    ensures ParseCSV(d)[MarketInstrumentID] == Str("")
  {
    MarketLayout();
  }

  /**
   * Positions of the fields after "||": 0 is the trading day, 1 the
   * instrument, 20 the update time, 43 the action day; 4 (the last price)
   * is read as a real and 11 (the volume) as an int.
   */
  lemma ParseCSVPositions(d: string)
    requires Text.Find(d, Separator).Some? && |FieldsAfterSeparator(d)| >= 44
    ensures var fs := FieldsAfterSeparator(d); var r := ParseCSV(d);
      && r[MarketTradingDay] == Str(fs[0]) && r[MarketInstrumentID] == Str(fs[1])
      && r[MarketUpdateTime] == Str(fs[20]) && r[MarketActionDay] == Str(fs[43])
      && r[4] == Real(SafeReal(fs[4])) && r[11] == Int(SafeInt(fs[11]))
  {
    var fs := FieldsAfterSeparator(d);
    var r := DecodeSafe(MarketKinds, fs);
    MarketLayout();
    assert ParseCSV(d) == r;
  }

  /**
   * Reading back a line written field by field after a header with no '|'
   * gives the record, for every CSV-safe record whose reals are not among
   * the texts the safe conversion maps to zero.
   */
  lemma ParseCSVRoundTrip(header: string, r: Record)
    requires '|' !in header
    requires WellTyped(r, MarketKinds) && CsvSafe(r) && NoSpecialReals(r)
    ensures ParseCSV(header + Separator + Encode(r, Identity(|r|), false)) == r
  {
    var body := Encode(r, Identity(|r|), false);
    var d := header + Separator + body;
    Text.FindAfter(header, Separator, body);
    assert d[|header| + 2..] == body;
    DecodeSafeEncode(r, MarketKinds);
  }

  /**
   * `convertToDatabaseFormat`: the 44 values in field order, the six text
   * fields wrapped in single quotes.
   */
  function ConvertToDatabaseFormat(r: Record): (row: string)
    requires WellTyped(r, MarketKinds)
  {
    Encode(r, Identity(44), true)
  }

  /**
   * Split at commas, the row text gives 44 pieces, one per field in
   * order, the text fields in quotes, when no value holds a comma.
   */
  lemma DatabaseFormatFields(r: Record)
    requires WellTyped(r, MarketKinds)
    requires forall i :: 0 <= i < |r| ==> CsvSafeValue(r[i])
    ensures var fs := Text.Split(ConvertToDatabaseFormat(r), ',');
      && |fs| == 44
      && (forall i :: 0 <= i < 44 ==> fs[i] == RenderQuoted(r[i]))
      && (forall i :: 0 <= i < 44 && r[i].Str? ==> fs[i] == "'" + r[i].s + "'")
  {
    MarketLayout();
    var fs := Rendered(r, Identity(44), true);
    assert fs[43] == RenderQuoted(r[43]);
    SplitRendered(r, Identity(44), true);
  }
}
