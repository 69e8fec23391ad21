// The subscriber's reader and writer of trading-account lines: a line
// "CTP_TRADING_ACCOUNT,<46 values>[,BizType[,FrozenSwap[,RemainSwap]]]" is
// read into a trading-account record, and a record is written as row text
// with its five text fields in single quotes.
module AccountConverter {
  import opened Wrappers
  import opened Numbers
  import opened Fields
  import Text
  import opened CtpStructs

  const AccountTag: string := "CTP_TRADING_ACCOUNT"

  /** A payload is taken for a trading-account line when it holds the tag anywhere. */
  predicate IsCSVFormat(d: string)
  {
    Text.Contains(d, AccountTag)
  }

  /** Every line that starts with the tag passes, and so does any text with the tag inside. */
  lemma IsCSVFormatTagged(a: string, b: string)
    ensures IsCSVFormat(a + AccountTag + b)
  {
    var d := a + AccountTag + b;
    assert d[|a|..|a| + |AccountTag|] == AccountTag;
    Text.ContainsAt(d, AccountTag, |a|);
  }

  /** The read of an index past the end of the field vector (undefined behaviour in `parseCSV`). */
  datatype ParseError = ReadPastEnd(index: nat)

  /** Record field `j` read from its text with the safe conversions. */
  function FieldAt(fs: seq<string>, j: nat): (v: Value)
    requires j < |AccountKinds| && j + 1 < |fs|
  {
    ParseSafe(AccountKinds[j], fs[j + 1])
  }

  /**
   * `parseCSV` as written.  Field 0 is the tag, so record field `j` is read
   * from `fields[j + 1]`; but the guards count as if it were read from
   * `fields[j]`: fewer than 46 fields gives the zero-initialised record,
   * 46 fields reads `fields[46]`, and the optional BizType, FrozenSwap and
   * RemainSwap, guarded by "more than 46/47/48 fields", read `fields[47]`,
   * `fields[48]` and `fields[49]`.  So every field count from 46 to 49
   * reads one element past the end.
   */
  function ParseCSVAsWritten(d: string): (r: Result<Record, ParseError>)
  {
    var fs := Text.Split(d, ',');
    if |fs| < 46 then Ok(DefaultRecord(AccountKinds))
    else if |fs| < 50 then Err(ReadPastEnd(|fs|))
    else Ok(seq(49, j requires 0 <= j < 49 => FieldAt(fs, j)))
  }

  /** The read past the end happens for exactly the field counts 46 to 49. */
  lemma AsWrittenReadsPastEnd(d: string)
    ensures var n := |Text.Split(d, ',')|;
      ParseCSVAsWritten(d).Err? <==> 46 <= n <= 49
    ensures ParseCSVAsWritten(d).Err? ==> ParseCSVAsWritten(d).error.index == |Text.Split(d, ',')|
  {
  }

  /**
   * A line with the tag and the 46 mandatory values but no optional field
   * (47 fields) is one of them: the BizType guard admits it and the read
   * goes to `fields[47]`.
   */
  lemma AsWrittenMandatoryOnly(values: seq<string>)
    requires |values| == 46 && forall i :: 0 <= i < 46 ==> ',' !in values[i]
    requires values[45] != []
    ensures ParseCSVAsWritten(Text.Join([AccountTag] + values, ',')) == Err(ReadPastEnd(47))
  {
    var parts := [AccountTag] + values;
    assert forall i :: 0 <= i < |parts| ==> ',' !in parts[i] by {
      forall i | 0 <= i < |parts| ensures ',' !in parts[i] {
        if i > 0 { assert parts[i] == values[i - 1]; }
      }
    }
    Text.SplitJoin(parts, ',');
  }

  /** An optional tail field: read when the line has `fields[i]`, zero-initialised otherwise. */
  function Optional(fs: seq<string>, i: nat, k: Kind): (v: Value)
    ensures HasKind(v, k)
    ensures i >= |fs| ==> v == Default(k)
  {
    if i < |fs| then ParseSafe(k, fs[i]) else Default(k)
  }

  /**
   * `parseCSV` with the guards counting the tag: at least 47 fields for the
   * 46 mandatory values, and BizType, FrozenSwap and RemainSwap taken when
   * `fields[47]`, `fields[48]` and `fields[49]` exist.
   */
  function ParseCSV(d: string): (r: Record)
    ensures WellTyped(r, AccountKinds)
    ensures |Text.Split(d, ',')| < 47 ==> r == DefaultRecord(AccountKinds)
  {
    var fs := Text.Split(d, ',');
    AccountLayout();
    if |fs| < 47 then DefaultRecord(AccountKinds)
    else
      seq(49, j requires 0 <= j < 49 =>
        if j < 46 then FieldAt(fs, j) else Optional(fs, j + 1, AccountKinds[j]))
  }

  /** Wherever the code as written reads no element past the end, the corrected reader agrees with it. */
  lemma ParseCSVAgrees(d: string)
    requires ParseCSVAsWritten(d).Ok?
    ensures ParseCSVAsWritten(d).value == ParseCSV(d)
  {
    AccountLayout();
  }

  /** An unreadable line leaves AccountID empty, so the subscriber drops it. */
  lemma ShortLineHasNoAccount(d: string)
    requires |Text.Split(d, ',')| < 47
    ensures ParseCSV(d)[AccountAccountID] == Str("")
  {
    AccountLayout();
  }

  /** The missing optional fields keep their zero values: BizType "" and both swaps 0. */
  lemma MissingTailIsDefault(d: string)
    requires 47 <= |Text.Split(d, ',')| < 50
    ensures var r := ParseCSV(d); var n := |Text.Split(d, ',')|;
      && (n <= 47 ==> r[AccountBizType] == Str(""))
      && (n <= 48 ==> r[47] == Real(RealZero))
      && r[48] == Real(RealZero)
  {
    AccountLayout();
    var fs := Text.Split(d, ',');
    var r := ParseCSV(d);
    assert r[46] == Optional(fs, 47, AccountKinds[46]);
    assert r[47] == Optional(fs, 48, AccountKinds[47]);
    assert r[48] == Optional(fs, 49, AccountKinds[48]);
  }

  /** With all three optional fields present, the record is the safe reading of `fields[1..50]`. */
  lemma FullLineFields(d: string)
    requires |Text.Split(d, ',')| >= 50
    ensures ParseCSV(d) == DecodeSafe(AccountKinds, Text.Split(d, ',')[1..50])
  {
    var fs := Text.Split(d, ',');
    ParseCSVAt(d, 0);
    var p := ParseCSV(d);
    var q := DecodeSafe(AccountKinds, fs[1..50]);
    assert |p| == 49 == |q|;
    forall j | 0 <= j < 49 ensures p[j] == q[j] {
      ParseCSVAt(d, j);
      assert fs[1..50][j] == fs[j + 1];
    }
  }

  /** On a line with all 50 fields, record field `j` is the safe reading of `fields[j + 1]`. */
  lemma ParseCSVAt(d: string, j: nat)
    requires |Text.Split(d, ',')| >= 50 && j < 49
    ensures |AccountKinds| == 49 && |ParseCSV(d)| == 49
    ensures ParseCSV(d)[j] == ParseSafe(AccountKinds[j], Text.Split(d, ',')[j + 1])
  {
    AccountLayout();
  }

  /** The tag is the first field of a line that starts with it. */
  lemma SplitTagged(body: string)
    ensures Text.Split(AccountTag + "," + body, ',') == [AccountTag] + Text.Split(body, ',')
  {
    assert AccountTag + "," + body == AccountTag + [','] + body;
    Text.SplitAfterDelim(AccountTag, ',', body);
  }

  /** After the tag, the reader takes the next 49 fields positionally. */
  lemma ParseTagged(body: string)
    requires |Text.Split(body, ',')| == 49
    ensures ParseCSV(AccountTag + "," + body) == DecodeSafe(AccountKinds, Text.Split(body, ','))
  {
    var line := AccountTag + "," + body;
    SplitTagged(body);
    FullLineFields(line);
    assert Text.Split(line, ',')[1..50] == Text.Split(body, ',');
  }

  /**
   * Reading back the tag followed by a record written field by field gives
   * the record, for every CSV-safe record whose reals are not texts the
   * safe conversion maps to zero.
   */
  lemma ParseCSVRoundTrip(r: Record)
    requires WellTyped(r, AccountKinds) && CsvSafe(r) && NoSpecialReals(r)
    ensures ParseCSV(AccountTag + "," + Encode(r, Identity(|r|), false)) == r
  {
    DecodeSafeEncode(r, AccountKinds);
    ParseTagged(Encode(r, Identity(|r|), false));
  }

  /** `convertToDatabaseFormat`: the 49 values in field order, text fields in single quotes. */
  function ConvertToDatabaseFormat(r: Record): (row: string)
    requires WellTyped(r, AccountKinds)
  {
    Encode(r, Identity(49), true)
  }

  /**
   * Split at commas, the row text gives 49 pieces, one per field in order,
   * BrokerID, AccountID, TradingDay, CurrencyID and BizType in quotes, when
   * no value holds a comma.
   */
  lemma DatabaseFormatFields(r: Record)
    requires WellTyped(r, AccountKinds)
    requires forall i :: 0 <= i < |r| ==> CsvSafeValue(r[i])
    ensures var fs := Text.Split(ConvertToDatabaseFormat(r), ',');
      && |fs| == 49
      && (forall i :: 0 <= i < 49 ==> fs[i] == RenderQuoted(r[i]))
      && (forall i :: 0 <= i < 49 && r[i].Str? ==> fs[i] == "'" + r[i].s + "'")
  {
    AccountLayout();
    var fs := Rendered(r, Identity(49), true);
    assert fs[48] == RenderQuoted(r[48]);
    RenderNonEmpty(r[48]);
    SplitRendered(r, Identity(49), true);
  }
}
