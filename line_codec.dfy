// The line-oriented CSV codec shared by the instrument and investor-position
// converters: a batch is written one record per line, each line ended by
// "\n", and read back with `getline`, one record per non-empty line that
// holds at least as many fields as the record has, converted with
// `std::stoi`/`std::stod` (whose first failure escapes the reader).
module LineCodec {
  import opened Wrappers
  import opened Numbers
  import opened Fields
  import Text

  /** Every record of the batch has the given field kinds. */
  predicate Conforms(rs: seq<Record>, kinds: seq<Kind>)
  {
    forall i :: 0 <= i < |rs| ==> WellTyped(rs[i], kinds)
  }

  // ---------------------------------------------------------------------
  // Writing

  /** The line written for each record through `layout`. */
  function Lines(rs: seq<Record>, kinds: seq<Kind>, layout: seq<nat>): (lines: seq<string>)
    requires Conforms(rs, kinds) && InLayout(layout, |kinds|)
    ensures |lines| == |rs|
    ensures forall i :: 0 <= i < |rs| ==> lines[i] == Encode(rs[i], layout, false)
  {
    seq(|rs|, i requires 0 <= i < |rs| => Encode(rs[i], layout, false))
  }

  /** A batch written as text: each record's line followed by "\n", in order. */
  method WriteLines(rs: seq<Record>, kinds: seq<Kind>, layout: seq<nat>) returns (text: string)
    requires Conforms(rs, kinds) && InLayout(layout, |kinds|)
    ensures text == Text.Terminated(Lines(rs, kinds, layout), '\n')
  {
    ghost var lines := Lines(rs, kinds, layout);
    text := "";
    var i := 0;
    while i < |rs|
      invariant 0 <= i <= |rs|
      invariant text == Text.Terminated(lines[..i], '\n')
    {
      var line := Encode(rs[i], layout, false);
      Text.TerminatedAppend(lines[..i], line, '\n');
      assert lines[..i + 1] == lines[..i] + [line];
      text := text + line + "\n";
      i := i + 1;
    }
    assert lines[..i] == lines;
  }

  /** A batch written as rows of texts, one row per record, in order. */
  method WriteRows(rs: seq<Record>, kinds: seq<Kind>, layout: seq<nat>) returns (rows: seq<seq<string>>)
    requires Conforms(rs, kinds) && InLayout(layout, |kinds|)
    ensures |rows| == |rs|
    ensures forall i :: 0 <= i < |rs| ==> rows[i] == Rendered(rs[i], layout, false)
  {
    rows := [];
    var i := 0;
    while i < |rs|
      invariant 0 <= i <= |rs| && |rows| == i
      invariant forall j :: 0 <= j < i ==> rows[j] == Rendered(rs[j], layout, false)
    {
      rows := rows + [Rendered(rs[i], layout, false)];
      i := i + 1;
    }
  }

  // ---------------------------------------------------------------------
  // Reading

  /**
   * One line: an empty line, or one with fewer fields than `kinds`, gives
   * nothing; otherwise the first `|kinds|` fields are converted strictly.
   */
  function ParseLine(kinds: seq<Kind>, line: string): (r: Result<Option<Record>, NumError>)
    ensures r.Ok? && r.value.Some? ==> WellTyped(r.value.value, kinds)
  {
    var fields := Text.Split(line, ',');
    if line == [] || |fields| < |kinds| then Ok(None)
    else match DecodeStrict(kinds, fields)
      case Err(e) => Err(e)
      case Ok(rec) => Ok(Some(rec))
  }

  /** Each line's outcome, in line order. */
  function LineResults(kinds: seq<Kind>, lines: seq<string>): (res: seq<Result<Option<Record>, NumError>>)
    ensures |res| == |lines|
    ensures forall i :: 0 <= i < |lines| ==> res[i] == ParseLine(kinds, lines[i])
  {
    seq(|lines|, i requires 0 <= i < |lines| => ParseLine(kinds, lines[i]))
  }

  /** The records of the line outcomes, in order, or the first failure. */
  function Collect(res: seq<Result<Option<Record>, NumError>>): (r: Result<seq<Record>, NumError>)
    ensures r.Ok? ==> |r.value| <= |res|
    decreases |res|
  {
    if res == [] then Ok([])
    else
      var n := |res| - 1;
      match Collect(res[..n])
      case Err(e) => Err(e)
      case Ok(rs) =>
        match res[n]
        case Err(e) => Err(e)
        case Ok(None) => Ok(rs)
        case Ok(Some(rec)) => Ok(rs + [rec])
  }

  /** The records read from `lines`, in line order, or the first conversion failure. */
  function ParseLines(kinds: seq<Kind>, lines: seq<string>): (r: Result<seq<Record>, NumError>)
    ensures r.Ok? ==> |r.value| <= |lines|
  {
    Collect(LineResults(kinds, lines))
  }

  /** The `getline` loop over the text: one outcome per line, stopping at the first failure. */
  method ReadLines(kinds: seq<Kind>, d: string) returns (r: Result<seq<Record>, NumError>)
    ensures r == ParseLines(kinds, Text.Split(d, '\n'))
  {
    var lines := Text.Split(d, '\n');
    ghost var res := LineResults(kinds, lines);
    var records: seq<Record> := [];
    var i := 0;
    while i < |lines|
      invariant 0 <= i <= |lines|
      invariant Collect(res[..i]) == Ok(records)
    {
      assert res[..i + 1][..i] == res[..i];
      var line := ParseLine(kinds, lines[i]);
      assert res[i] == line;
      if line.Err? {
        assert Collect(res[..i + 1]) == Err(line.error);
        CollectFails(res, i + 1);
        return Err(line.error);
      }
      if line.value.Some? {
        records := records + [line.value.value];
      }
      i := i + 1;
    }
    assert res[..i] == res;
    return Ok(records);
  }

  /** Once a prefix fails, the whole collection fails with the same error. */
  lemma {:induction false} CollectFails(res: seq<Result<Option<Record>, NumError>>, k: nat)
    requires k <= |res| && Collect(res[..k]).Err?
    ensures Collect(res) == Collect(res[..k])
    decreases |res|
  {
    if k < |res| {
      var n := |res| - 1;
      assert res[..n][..k] == res[..k];
      CollectFails(res[..n], k);
    } else {
      assert res[..k] == res;
    }
  }

  lemma {:induction false} CollectRecords(res: seq<Result<Option<Record>, NumError>>, kinds: seq<Kind>)
    requires forall i :: 0 <= i < |res| ==> res[i].Ok? && res[i].value.Some? ==> WellTyped(res[i].value.value, kinds)
    ensures Collect(res).Ok? ==> Conforms(Collect(res).value, kinds)
    decreases |res|
  {
    if res != [] {
      var n := |res| - 1;
      assert forall i :: 0 <= i < n ==> res[..n][i] == res[i];
      CollectRecords(res[..n], kinds);
    }
  }

  /** Every record read has the kinds it was read with. */
  lemma ParseLinesConform(kinds: seq<Kind>, lines: seq<string>)
    ensures ParseLines(kinds, lines).Ok? ==> Conforms(ParseLines(kinds, lines).value, kinds)
  {
    CollectRecords(LineResults(kinds, lines), kinds);
  }

  lemma {:induction false} CollectOk(res: seq<Result<Option<Record>, NumError>>)
    ensures Collect(res).Ok? <==> forall i :: 0 <= i < |res| ==> res[i].Ok?
    decreases |res|
  {
    if res != [] {
      var n := |res| - 1;
      assert forall i :: 0 <= i < n ==> res[..n][i] == res[i];
      CollectOk(res[..n]);
    }
  }

  /** A conversion failure in any line fails the whole read; without one the read succeeds. */
  lemma ParseLinesOk(kinds: seq<Kind>, lines: seq<string>)
    ensures ParseLines(kinds, lines).Ok? <==> forall i :: 0 <= i < |lines| ==> ParseLine(kinds, lines[i]).Ok?
  {
    CollectOk(LineResults(kinds, lines));
  }

  /** Outcomes that all hold a record collect to those records, in order. */
  lemma {:induction false} CollectAll(res: seq<Result<Option<Record>, NumError>>, rs: seq<Record>)
    requires |res| == |rs| && forall i :: 0 <= i < |rs| ==> res[i] == Ok(Some(rs[i]))
    ensures Collect(res) == Ok(rs)
    decreases |rs|
  {
    if rs != [] {
      var n := |rs| - 1;
      assert forall i :: 0 <= i < n ==> res[..n][i] == res[i];
      CollectAll(res[..n], rs[..n]);
      assert rs[..n] + [rs[n]] == rs;
    }
  }

  /** Outcomes that all hold nothing collect to no record. */
  lemma {:induction false} CollectNone(res: seq<Result<Option<Record>, NumError>>)
    requires forall i :: 0 <= i < |res| ==> res[i] == Ok(None)
    ensures Collect(res) == Ok([])
    decreases |res|
  {
    if res != [] {
      var n := |res| - 1;
      assert forall i :: 0 <= i < n ==> res[..n][i] == res[i];
      CollectNone(res[..n]);
    }
  }

  /** A line the reader skips: empty, or with fewer fields than the record has. */
  lemma ShortLineSkipped(kinds: seq<Kind>, line: string)
    requires line == [] || |Text.Split(line, ',')| < |kinds|
    ensures ParseLine(kinds, line) == Ok(None)
  {
  }

  /**
   * A line with enough fields gives a record exactly when every field
   * converts, and then each field is its text's strict conversion.
   */
  lemma LineFields(kinds: seq<Kind>, line: string)
    requires line != [] && |Text.Split(line, ',')| >= |kinds|
    ensures var fs := Text.Split(line, ',');
      && (ParseLine(kinds, line).Ok? <==> forall i :: 0 <= i < |kinds| ==> ParseStrict(kinds[i], fs[i]).Ok?)
      && (ParseLine(kinds, line).Ok? ==>
           ParseLine(kinds, line).value.Some?
           && forall i :: 0 <= i < |kinds| ==> ParseStrict(kinds[i], fs[i]) == Ok(ParseLine(kinds, line).value.value[i]))
  {
    var fs := Text.Split(line, ',');
    var dec := DecodeStrict(kinds, fs);
    if dec.Err? {
      var i :| 0 <= i < |kinds| && ParseStrict(kinds[i], fs[i]) == Err(dec.error);
    }
  }

  // ---------------------------------------------------------------------
  // Round trips

  /** A record written in field order reads back as itself. */
  lemma LineRoundTrip(r: Record, kinds: seq<Kind>)
    requires WellTyped(r, kinds) && CsvSafe(r) && |kinds| > 0
    ensures ParseLine(kinds, Encode(r, Identity(|kinds|), false)) == Ok(Some(r))
  {
    DecodeEncode(r, kinds);
  }

  /** A written line holds no line break. */
  lemma LineUnbroken(r: Record, layout: seq<nat>)
    requires InLayout(layout, |r|) && CsvSafe(r)
    ensures '\n' !in Encode(r, layout, false)
  {
    var fs := Rendered(r, layout, false);
    forall j | 0 <= j < |fs| ensures '\n' !in fs[j] {
      RenderNoDelimiter(r[layout[j]]);
    }
    Text.JoinNoChar(fs, ',', '\n');
  }

  /**
   * Writing a batch in field order and reading the text back gives the
   * batch, when no value holds a comma or line break and no last field is
   * empty text.
   */
  lemma BatchRoundTrip(rs: seq<Record>, kinds: seq<Kind>)
    requires Conforms(rs, kinds) && |kinds| > 0
    requires forall i :: 0 <= i < |rs| ==> CsvSafe(rs[i])
    ensures ParseLines(kinds, Text.Split(Text.Terminated(Lines(rs, kinds, Identity(|kinds|)), '\n'), '\n')) == Ok(rs)
  {
    var lines := Lines(rs, kinds, Identity(|kinds|));
    forall i | 0 <= i < |rs| ensures '\n' !in lines[i] {
      LineUnbroken(rs[i], Identity(|kinds|));
    }
    Text.SplitTerminated(lines, '\n');
    var res := LineResults(kinds, lines);
    forall i | 0 <= i < |rs| ensures res[i] == Ok(Some(rs[i])) {
      LineRoundTrip(rs[i], kinds);
    }
    CollectAll(res, rs);
  }
}
