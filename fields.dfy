// Positional field layouts.  Every converter of the model reads a
// comma-separated line into a record — a sequence of typed values, one per
// field of the entity, in the order the converter's parser assigns them —
// and writes records back out through a layout, the list of record
// positions in the order the writer emits them.
module Fields {
  import opened Wrappers
  import opened Numbers
  import Text

  datatype Kind = StrKind | CharKind | IntKind | RealKind | FlagKind

  /** A field value.  `Real` carries the decimal text of a `double` (opaque). */
  datatype Value = Str(s: string) | Chr(c: char) | Int(i: int) | Real(t: string) | Flag(b: bool)

  type Record = seq<Value>

  predicate HasKind(v: Value, k: Kind)
  {
    match k
    case StrKind => v.Str?
    case CharKind => v.Chr?
    case IntKind => v.Int? && IsInt32(v.i)
    case RealKind => v.Real?
    case FlagKind => v.Flag?
  }

  predicate WellTyped(r: Record, kinds: seq<Kind>)
  {
    |r| == |kinds| && forall i :: 0 <= i < |r| ==> HasKind(r[i], kinds[i])
  }

  /** The value a zero-initialised struct (`= {}` or `memset`) holds. */
  function Default(k: Kind): (v: Value)
    ensures HasKind(v, k)
  {
    match k
    case StrKind => Str("")
    case CharKind => Chr('\0')
    case IntKind => Int(0)
    case RealKind => Real(RealZero)
    case FlagKind => Flag(false)
  }

  function DefaultRecord(kinds: seq<Kind>): (r: Record)
    ensures WellTyped(r, kinds)
    ensures forall i :: 0 <= i < |r| ==> r[i] == Default(kinds[i])
  {
    seq(|kinds|, i requires 0 <= i < |kinds| => Default(kinds[i]))
  }

  /** A `char` field read from text: its first character, or '\0' when empty. */
  function CharOf(s: string): (c: char)
    ensures s != [] ==> c == s[0]
    ensures s == [] ==> c == '\0'
  {
    if s == [] then '\0' else s[0]
  }

  /**
   * A field converted as the parsers without a `try` do it: `std::stoi`,
   * `std::stod`, the first character, or the comparison with "1".
   */
  function ParseStrict(k: Kind, s: string): (r: Result<Value, NumError>)
    ensures r.Ok? ==> HasKind(r.value, k)
    ensures k == StrKind ==> r == Ok(Str(s))
    ensures k == FlagKind ==> r == Ok(Flag(s == "1"))
    ensures k == IntKind ==> (r.Ok? <==> Stoi(s).Ok?)
    ensures k == RealKind ==> (r.Ok? <==> StodAccepts(s))
  {
    match k
    case StrKind => Ok(Str(s))
    case CharKind => Ok(Chr(CharOf(s)))
    case IntKind => (match Stoi(s) case Ok(n) => Ok(Int(n)) case Err(e) => Err(e))
    case RealKind => (match Stod(s) case Ok(t) => Ok(Real(t)) case Err(e) => Err(e))
    case FlagKind => Ok(Flag(s == "1"))
  }

  /** A field converted with `safeStringToInt`/`safeStringToDouble`: never fails. */
  function ParseSafe(k: Kind, s: string): (v: Value)
    ensures HasKind(v, k)
    ensures k == IntKind ==> v == Int(SafeInt(s))
    ensures k == RealKind ==> v == Real(SafeReal(s))
  {
    match k
    case StrKind => Str(s)
    case CharKind => Chr(CharOf(s))
    case IntKind => Int(SafeInt(s))
    case RealKind => Real(SafeReal(s))
    case FlagKind => Flag(s == "1")
  }

  /**
   * A value written out: text as it is, a `char` as one character, an
   * `int` by `std::to_string`, a `bool` as "1" or "0".  The real's text is
   * written as carried (the writers' precision settings are not modelled).
   */
  function Render(v: Value): (r: string)
    ensures v.Chr? ==> r == [v.c]
    ensures v.Flag? ==> r == (if v.b then "1" else "0")
  {
    match v
    case Str(s) => s
    case Chr(c) => [c]
    case Int(n) => IntToString(n)
    case Real(t) => t
    case Flag(b) => if b then "1" else "0"
  }

  /** As `Render`, with text wrapped in single quotes (the database formats). */
  function RenderQuoted(v: Value): (r: string)
    ensures v.Str? ==> r == "'" + v.s + "'"
    ensures !v.Str? ==> r == Render(v)
  {
    if v.Str? then "'" + v.s + "'" else Render(v)
  }

  /** The first record position's fields parsed strictly; the first failure, in field order, wins. */
  function DecodeStrict(kinds: seq<Kind>, fields: seq<string>): (r: Result<Record, NumError>)
    requires |fields| >= |kinds|
    ensures r.Ok? ==> WellTyped(r.value, kinds)
    ensures r.Ok? ==> forall i :: 0 <= i < |kinds| ==> ParseStrict(kinds[i], fields[i]) == Ok(r.value[i])
    ensures r.Err? ==> exists i :: 0 <= i < |kinds| && ParseStrict(kinds[i], fields[i]) == Err(r.error)
    decreases |kinds|
  {
    if kinds == [] then Ok([])
    else match ParseStrict(kinds[0], fields[0])
      case Err(e) => Err(e)
      case Ok(v) =>
        match DecodeStrict(kinds[1..], fields[1..])
        case Err(e) =>
          assert exists i :: 0 <= i < |kinds| - 1 && ParseStrict(kinds[1..][i], fields[1..][i]) == Err(e);
          var i :| 0 <= i < |kinds| - 1 && ParseStrict(kinds[1..][i], fields[1..][i]) == Err(e);
          assert ParseStrict(kinds[i + 1], fields[i + 1]) == Err(e);
          Err(e)
        case Ok(rest) => Ok([v] + rest)
  }

  /** The fields parsed with the safe conversions, position by position. */
  function DecodeSafe(kinds: seq<Kind>, fields: seq<string>): (r: Record)
    requires |fields| >= |kinds|
    ensures WellTyped(r, kinds)
    ensures forall i :: 0 <= i < |kinds| ==> r[i] == ParseSafe(kinds[i], fields[i])
  {
    seq(|kinds|, i requires 0 <= i < |kinds| => ParseSafe(kinds[i], fields[i]))
  }

  predicate InLayout(layout: seq<nat>, n: nat)
  {
    forall i :: 0 <= i < |layout| ==> layout[i] < n
  }

  /** The identity layout: positions 0 .. n-1 in order. */
  function Identity(n: nat): (l: seq<nat>)
    ensures |l| == n && InLayout(l, n)
    ensures forall i :: 0 <= i < n ==> l[i] == i
  {
    seq(n, i requires 0 <= i < n => i)
  }

  /** The texts a writer emits for record `r` through `layout`. */
  function Rendered(r: Record, layout: seq<nat>, quote: bool): (fs: seq<string>)
    requires InLayout(layout, |r|)
    ensures |fs| == |layout|
    ensures forall i :: 0 <= i < |layout| ==>
      fs[i] == (if quote then RenderQuoted(r[layout[i]]) else Render(r[layout[i]]))
  {
    seq(|layout|, i requires 0 <= i < |layout| =>
      if quote then RenderQuoted(r[layout[i]]) else Render(r[layout[i]]))
  }

  /** The comma-separated line a writer emits for `r` through `layout`. */
  function Encode(r: Record, layout: seq<nat>, quote: bool): (line: string)
    requires InLayout(layout, |r|)
  {
    Text.Join(Rendered(r, layout, quote), ',')
  }

  // ---------------------------------------------------------------------
  // Round trips

  /** A value survives the comma-separated, line-oriented formats. */
  predicate CsvSafeValue(v: Value)
  {
    match v
    case Str(s) => ',' !in s && '\n' !in s
    case Chr(c) => c != ',' && c != '\n'
    case Int(n) => IsInt32(n)
    case Real(t) => StodAccepts(t) && ',' !in t && '\n' !in t
    case Flag(_) => true
  }

  /** Every value survives and the last one is not empty text (`getline` drops a trailing empty field). */
  predicate CsvSafe(r: Record)
  {
    (forall i :: 0 <= i < |r| ==> CsvSafeValue(r[i]))
    && (|r| > 0 ==> r[|r| - 1] != Str(""))
  }

  lemma RenderNoDelimiter(v: Value)
    requires CsvSafeValue(v)
    ensures ',' !in Render(v) && '\n' !in Render(v)
  {
    if v.Int? {
      var n := v.i;
      if n < 0 {
        assert Render(v) == "-" + NatToString(-n);
      }
    }
  }

  lemma {:induction false} RenderParse(v: Value, k: Kind)
    requires HasKind(v, k) && CsvSafeValue(v)
    ensures ParseStrict(k, Render(v)) == Ok(v)
  {
    match v
    case Int(n) => StoiRoundTrip(n);
    case _ =>
  }

  /**
   * Writing a well-typed, CSV-safe record in field order and reading the
   * line back with `getline` and the strict conversions gives the record.
   */
  lemma DecodeEncode(r: Record, kinds: seq<Kind>)
    requires WellTyped(r, kinds) && CsvSafe(r)
    ensures |Text.Split(Encode(r, Identity(|r|), false), ',')| == |r|
    ensures DecodeStrict(kinds, Text.Split(Encode(r, Identity(|r|), false), ',')) == Ok(r)
  {
    var fs := Rendered(r, Identity(|r|), false);
    RenderedSplits(r, fs);
    DecodeFields(r, kinds, fs);
  }

  /** The rendered fields of a CSV-safe record come back from splitting their comma-joined line. */
  lemma RenderedSplits(r: Record, fs: seq<string>)
    requires CsvSafe(r) && fs == Rendered(r, Identity(|r|), false)
    ensures Text.Split(Text.Join(fs, ','), ',') == fs
  {
    forall i | 0 <= i < |fs| ensures ',' !in fs[i] {
      RenderNoDelimiter(r[i]);
    }
    if |r| > 0 {
      RenderNonEmpty(r[|r| - 1]);
    }
    Text.SplitJoin(fs, ',');
  }

  /**
   * Any layout, quoted or not: splitting the written line at commas gives
   * back the written fields, provided no value holds a comma and the last
   * field written is not empty.
   */
  lemma SplitRendered(r: Record, layout: seq<nat>, quote: bool)
    requires InLayout(layout, |r|)
    requires forall i :: 0 <= i < |layout| ==> CsvSafeValue(r[layout[i]])
    requires |layout| > 0 ==> Rendered(r, layout, quote)[|layout| - 1] != []
    ensures Text.Split(Encode(r, layout, quote), ',') == Rendered(r, layout, quote)
  {
    var fs := Rendered(r, layout, quote);
    forall i | 0 <= i < |fs| ensures ',' !in fs[i] {
      RenderNoDelimiter(r[layout[i]]);
    }
    Text.SplitJoin(fs, ',');
  }

  /** No real of the record is text the safe conversion maps to zero. */
  predicate NoSpecialReals(r: Record)
  {
    forall i :: 0 <= i < |r| ==> (r[i].Real? ==> !SpecialReal(r[i].t))
  }

  lemma RenderParseSafe(v: Value, k: Kind)
    requires HasKind(v, k) && CsvSafeValue(v) && (v.Real? ==> !SpecialReal(v.t))
    ensures ParseSafe(k, Render(v)) == v
  {
    if v.Int? { SafeIntRoundTrip(v.i); }
  }

  /**
   * Writing a well-typed, CSV-safe record in field order and reading the
   * line back with the safe conversions gives the record, as long as no
   * real is one of the texts the safe conversion maps to zero.
   */
  lemma DecodeSafeEncode(r: Record, kinds: seq<Kind>)
    requires WellTyped(r, kinds) && CsvSafe(r) && NoSpecialReals(r)
    ensures |Text.Split(Encode(r, Identity(|r|), false), ',')| == |r|
    ensures DecodeSafe(kinds, Text.Split(Encode(r, Identity(|r|), false), ',')) == r
  {
    var fs := Rendered(r, Identity(|r|), false);
    RenderedSplits(r, fs);
    forall i | 0 <= i < |r| ensures DecodeSafe(kinds, fs)[i] == r[i] {
      RenderParseSafe(r[i], kinds[i]);
    }
  }

  /** Only empty text renders as nothing. */
  lemma RenderNonEmpty(v: Value)
    requires CsvSafeValue(v) && v != Str("")
    ensures Render(v) != []
  {
  }

  lemma {:induction false} DecodeFields(r: Record, kinds: seq<Kind>, fs: seq<string>)
    requires WellTyped(r, kinds) && |fs| == |r|
    requires forall i :: 0 <= i < |r| ==> CsvSafeValue(r[i]) && fs[i] == Render(r[i])
    ensures DecodeStrict(kinds, fs) == Ok(r)
    decreases |r|
  {
    if r != [] {
      RenderParse(r[0], kinds[0]);
      DecodeFields(r[1..], kinds[1..], fs[1..]);
      assert [r[0]] + r[1..] == r;
    }
  }

  /** The safe conversions agree with the strict ones on every text the strict ones accept, except the special reals. */
  lemma SafeAgreesWithStrict(k: Kind, s: string, v: Value)
    requires ParseStrict(k, s) == Ok(v)
    requires s != "nan" && s != "inf" && s != "-inf"
    ensures ParseSafe(k, s) == v
  {
  }
}
