// Decimal text and the C++ conversions the converters apply to it:
// `std::stoi` and `std::to_string` on 32-bit `int`, whether `std::stod`
// accepts a text, and the converters' "safe" wrappers that turn a failed
// conversion into zero.  Floating-point values stay opaque: a real number
// is carried as the decimal text it was read from.
module Numbers {
  import opened Wrappers
  import Text

  const IntMin: int := -0x8000_0000
  const IntMax: int := 0x7FFF_FFFF

  predicate IsInt32(n: int) { IntMin <= n <= IntMax }

  predicate IsDigit(c: char) { '0' <= c <= '9' }

  /** C `isspace` in the "C" locale: space, and tab through carriage return. */
  predicate IsSpace(c: char) { c == ' ' || '\t' <= c <= '\r' }

  /** The two exceptions `std::stoi` and `std::stod` throw. */
  datatype NumError = InvalidArgument | OutOfRange

  function SkipSpace(s: string): (r: string)
    ensures |r| <= |s| && r == s[|s| - |r|..]
    ensures forall i :: 0 <= i < |s| - |r| ==> IsSpace(s[i])
    ensures r != [] ==> !IsSpace(r[0])
  {
    if s != [] && IsSpace(s[0]) then SkipSpace(s[1..]) else s
  }

  /** What is left after one optional '+' or '-'. */
  function Unsigned(t: string): (r: string)
    ensures |r| <= |t| <= |r| + 1 && r == t[|t| - |r|..]
  {
    if t != [] && (t[0] == '+' || t[0] == '-') then t[1..] else t
  }

  /** The longest prefix made of decimal digits. */
  function DigitRun(s: string): (r: string)
    ensures |r| <= |s| && r == s[..|r|]
    ensures forall i :: 0 <= i < |r| ==> IsDigit(r[i])
    ensures |r| < |s| ==> !IsDigit(s[|r|])
  {
    if s != [] && IsDigit(s[0]) then [s[0]] + DigitRun(s[1..]) else []
  }

  function DigitValue(c: char): (r: nat)
    requires IsDigit(c)
    ensures r < 10
  {
    c as int - '0' as int
  }

  function DigitsValue(ds: string): nat
    requires forall i :: 0 <= i < |ds| ==> IsDigit(ds[i])
  {
    if ds == [] then 0 else DigitsValue(ds[..|ds| - 1]) * 10 + DigitValue(ds[|ds| - 1])
  }

  /**
   * `std::stoi(s)`, base 10: leading white space is skipped, one sign is
   * allowed, and the longest digit run that follows is read; the rest of
   * the text is ignored.  No digit there throws `invalid_argument`, a value
   * outside `int` throws `out_of_range`.
   */
  function Stoi(s: string): (r: Result<int, NumError>)
    ensures r.Ok? ==> IsInt32(r.value)
  {
    var t := SkipSpace(s);
    var ds := DigitRun(Unsigned(t));
    if ds == [] then Err(InvalidArgument)
    else
      var v: int := if t[0] == '-' then -(DigitsValue(ds) as int) else DigitsValue(ds);
      if IsInt32(v) then Ok(v) else Err(OutOfRange)
  }

  /** A text without any digit is always rejected. */
  lemma StoiNoDigit(s: string)
    requires forall i :: 0 <= i < |s| ==> !IsDigit(s[i])
    ensures Stoi(s) == Err(InvalidArgument)
  {
    var t := SkipSpace(s);
    var u := Unsigned(t);
    if u != [] {
      assert u[0] == s[|s| - |u|];
    }
  }

  function DigitChar(n: nat): (c: char)
    requires n < 10
    ensures IsDigit(c) && DigitValue(c) == n
  {
    ('0' as int + n) as char
  }

  /** Decimal digits of `n`, most significant first, without leading zeros. */
  function NatToString(n: nat): (r: string)
    ensures r != []
    ensures forall i :: 0 <= i < |r| ==> IsDigit(r[i])
    ensures |r| > 1 ==> r[0] != '0'
  {
    if n < 10 then [DigitChar(n)] else NatToString(n / 10) + [DigitChar(n % 10)]
  }

  /** `std::to_string(int)`. */
  function IntToString(n: int): (r: string)
    ensures r != [] && (IsDigit(r[0]) || r[0] == '-')
  {
    if n < 0 then "-" + NatToString(-n) else NatToString(n)
  }

  lemma {:induction false} NatToStringValue(n: nat)
    ensures DigitsValue(NatToString(n)) == n
  {
    if n >= 10 {
      NatToStringValue(n / 10);
      var r := NatToString(n);
      assert r[..|r| - 1] == NatToString(n / 10);
    }
  }

  lemma {:induction false} DigitRunAppend(a: string, rest: string)
    requires forall i :: 0 <= i < |a| ==> IsDigit(a[i])
    requires rest == [] || !IsDigit(rest[0])
    ensures DigitRun(a + rest) == a
  {
    if a != [] {
      assert (a + rest)[1..] == a[1..] + rest;
      DigitRunAppend(a[1..], rest);
    } else {
      assert a + rest == rest;
    }
  }

  /**
   * `std::stoi` reads back what `std::to_string` wrote, also when other text
   * that does not start with a digit follows.
   */
  lemma StoiPrefix(n: int, rest: string)
    requires IsInt32(n)
    requires rest == [] || !IsDigit(rest[0])
    ensures Stoi(IntToString(n) + rest) == Ok(n)
  {
    var s := IntToString(n) + rest;
    var m: nat := if n < 0 then -n else n;
    var a := NatToString(m);
    assert SkipSpace(s) == s by {
      assert s[0] == '-' || IsDigit(s[0]);
      SkipSpaceNone(s);
    }
    assert DigitRun(Unsigned(s)) == a by {
      assert Unsigned(s) == a + rest by {
        if n < 0 { assert s == "-" + (a + rest); }
      }
      DigitRunAppend(a, rest);
    }
    assert DigitsValue(a) == m by { NatToStringValue(m); }
    assert s[0] == '-' <==> n < 0;
  }

  lemma SkipSpaceNone(s: string)
    requires s != [] && !IsSpace(s[0])
    ensures SkipSpace(s) == s
  {
  }

  lemma StoiRoundTrip(n: int)
    requires IsInt32(n)
    ensures Stoi(IntToString(n)) == Ok(n)
  {
    StoiPrefix(n, []);
    assert IntToString(n) + [] == IntToString(n);
  }

  function Pow10(n: nat): (p: nat)
    ensures p >= 1
  {
    if n == 0 then 1 else 10 * Pow10(n - 1)
  }

  /** A run of `n` digits is worth less than 10^n. */
  lemma {:induction false} DigitsBelow(ds: string)
    requires forall i :: 0 <= i < |ds| ==> IsDigit(ds[i])
    ensures DigitsValue(ds) < Pow10(|ds|)
    decreases |ds|
  {
    if ds != [] {
      var n := |ds| - 1;
      DigitsBelow(ds[..n]);
      var v := DigitsValue(ds[..n]);
      assert v + 1 <= Pow10(n);
      assert v * 10 + 10 <= Pow10(n) * 10;
    }
  }

  /**
   * A text of at most nine characters that starts with a digit is taken by
   * `std::stoi` (its digit run fits an `int`) and by `std::stod`.
   */
  lemma ShortNumberAccepted(s: string)
    requires 0 < |s| <= 9 && IsDigit(s[0])
    ensures Stoi(s).Ok? && StodAccepts(s)
  {
    SkipSpaceNone(s);
    assert SkipSpace(s) == s && Unsigned(s) == s;
    var ds := DigitRun(s);
    assert ds != [];
    DigitsBelow(ds);
    Pow10Grows(|ds|, 9);
    assert Pow10(9) == 1000000000;
    assert IsInt32(DigitsValue(ds));
  }

  /** More digits, a larger power of ten. */
  lemma {:induction false} Pow10Grows(a: nat, b: nat)
    requires a <= b
    ensures Pow10(a) <= Pow10(b)
    decreases b - a
  {
    if a < b {
      Pow10Grows(a, b - 1);
    }
  }

  /**
   * Whether `std::stod` (that is, `strtod`) finds a number at the start of
   * `s`: after white space and one sign, a digit, a '.' followed by a digit,
   * or "inf" or "nan" in any case.  Otherwise it throws `invalid_argument`.
   */
  predicate StodAccepts(s: string)
  {
    var u := Unsigned(SkipSpace(s));
    (|u| > 0 && IsDigit(u[0]))
    || (|u| > 1 && u[0] == '.' && IsDigit(u[1]))
    || (|u| >= 3 && InfOrNan(LowerChar3(u)))
  }

  /** The first three characters of `u`, lower-cased. */
  function LowerChar3(u: string): (w: (char, char, char))
    requires |u| >= 3
  {
    (Text.LowerChar(u[0]), Text.LowerChar(u[1]), Text.LowerChar(u[2]))
  }

  predicate InfOrNan(w: (char, char, char))
  {
    w == ('i', 'n', 'f') || w == ('n', 'a', 'n')
  }

  /**
   * `std::stod(s)`: the real read from `s`, represented by `s` itself.  A
   * magnitude too large for a `double` (which throws `out_of_range`) is not
   * modelled.
   */
  function Stod(s: string): (r: Result<string, NumError>)
    ensures r.Ok? <==> StodAccepts(s)
    ensures r.Ok? ==> r.value == s
    ensures r.Err? ==> r.error == InvalidArgument
  {
    if StodAccepts(s) then Ok(s) else Err(InvalidArgument)
  }

  /** The zero of an opaque real. */
  const RealZero: string := "0"

  lemma ZeroAccepted()
    ensures StodAccepts(RealZero)
  {
    SkipSpaceNone(RealZero);
    assert Unsigned(RealZero) == RealZero;
  }

  lemma StodAcceptsInt(n: int)
    ensures StodAccepts(IntToString(n))
  {
    var s := IntToString(n);
    assert SkipSpace(s) == s;
    if n < 0 {
      assert Unsigned(s) == NatToString(-n);
    }
  }

  /**
   * `safeStringToInt` of the market-data and trading-account converters:
   * `std::stoi`, with 0 for the empty text and for every text `stoi`
   * rejects.
   */
  function SafeInt(s: string): (r: int)
    ensures IsInt32(r)
    ensures s == [] || Stoi(s).Err? ==> r == 0
    ensures Stoi(s).Ok? ==> r == Stoi(s).value
  {
    if s == [] then 0
    else match Stoi(s)
      case Ok(v) => v
      case Err(_) => 0
  }

  lemma SafeIntRoundTrip(n: int)
    requires IsInt32(n)
    ensures SafeInt(IntToString(n)) == n
  {
    StoiRoundTrip(n);
  }

  /** The texts `safeStringToDouble` maps to zero before trying `std::stod`. */
  predicate SpecialReal(s: string)
  {
    s == "" || s == "nan" || s == "inf" || s == "-inf"
  }

  /**
   * `safeStringToDouble` of the same converters: "", "nan", "inf" and
   * "-inf" give zero, a text `std::stod` rejects gives zero, and any other
   * text is read as it is.
   */
  function SafeReal(s: string): (r: string)
    ensures r == s || r == RealZero
    ensures StodAccepts(r)
    ensures SpecialReal(s) || !StodAccepts(s) ==> r == RealZero
    ensures StodAccepts(s) && !SpecialReal(s) ==> r == s
  {
    ZeroAccepted();
    if SpecialReal(s) then RealZero
    else match Stod(s)
      case Ok(v) => v
      case Err(_) => RealZero
  }
}
