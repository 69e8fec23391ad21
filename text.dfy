// String helpers shared by the converters and the configuration readers:
// `getline`-style splitting, joining, substring search and trimming.  The
// scans work on positions, as the C++ library calls they stand for do.
module Text {
  import opened Wrappers

  // ---------------------------------------------------------------------
  // Splitting

  /** Position of the first `d` at or after `i`, or `|s|` when there is none. */
  function NextDelim(s: string, d: char, i: nat): (j: nat)
    requires i <= |s|
    ensures i <= j <= |s|
    ensures j < |s| ==> s[j] == d
    decreases |s| - i
  {
    if i == |s| || s[i] == d then i else NextDelim(s, d, i + 1)
  }

  /** Every position the scan passes over holds something other than `d`. */
  lemma {:induction false} NextDelimSkips(s: string, d: char, i: nat, m: nat)
    requires i <= |s| && i <= m < NextDelim(s, d, i)
    ensures s[m] != d
    decreases |s| - i
  {
    if m > i { NextDelimSkips(s, d, i + 1, m); }
  }

  /**
   * The tokens `std::getline(stream, token, d)` yields when run until it
   * fails: "" gives no token, a trailing delimiter gives no final empty
   * token, interior empty tokens are kept.
   */
  function Split(s: string, d: char): (r: seq<string>)
    ensures s == [] <==> r == []
    decreases |s|
  {
    if s == [] then []
    else
      var j := NextDelim(s, d, 0);
      [s[..j]] + (if j < |s| then Split(s[j + 1..], d) else [])
  }

  /** The parts written out with `d` between each two of them. */
  function Join(parts: seq<string>, d: char): (r: string)
    ensures |parts| == 1 ==> r == parts[0]
    ensures parts == [] ==> r == []
  {
    if |parts| == 0 then []
    else if |parts| == 1 then parts[0]
    else parts[0] + [d] + Join(parts[1..], d)
  }

  /** The lines written out, each followed by `d`. */
  function Terminated(lines: seq<string>, d: char): (r: string)
    ensures |r| >= |lines|
  {
    if lines == [] then [] else lines[0] + [d] + Terminated(lines[1..], d)
  }

  /** No token holds the delimiter. */
  lemma {:induction false} SplitNoDelim(s: string, d: char)
    ensures forall k :: 0 <= k < |Split(s, d)| ==> d !in Split(s, d)[k]
    decreases |s|
  {
    if s != [] {
      var j := NextDelim(s, d, 0);
      BeforeDelim(s, d);
      if j < |s| { SplitNoDelim(s[j + 1..], d); }
    }
  }

  /** In a text with no `d` before position `|a|` and `d` at it, the next delimiter is at `|a|`. */
  lemma {:induction false} NextDelimAt(a: string, d: char, rest: string, i: nat)
    requires d !in a && i <= |a|
    ensures NextDelim(a + [d] + rest, d, i) == |a|
    decreases |a| - i
  {
    var t := a + [d] + rest;
    if i < |a| {
      assert t[i] == a[i];
      NextDelimAt(a, d, rest, i + 1);
    } else {
      assert t[i] == d;
    }
  }

  /** The text before the first delimiter holds no delimiter. */
  lemma BeforeDelim(s: string, d: char)
    ensures d !in s[..NextDelim(s, d, 0)]
  {
    var j := NextDelim(s, d, 0);
    forall m | 0 <= m < j ensures s[..j][m] != d { NextDelimSkips(s, d, 0, m); }
  }

  /** The first token ends at the first delimiter. */
  lemma SplitAfterDelim(a: string, d: char, rest: string)
    requires d !in a
    ensures Split(a + [d] + rest, d) == [a] + Split(rest, d)
  {
    var t := a + [d] + rest;
    NextDelimAt(a, d, rest, 0);
    assert t[..|a|] == a;
    assert t[|a| + 1..] == rest;
  }

  /** Splitting undoes joining when no part holds the delimiter and the last part is not empty. */
  lemma {:induction false} SplitJoin(parts: seq<string>, d: char)
    requires forall i :: 0 <= i < |parts| ==> d !in parts[i]
    requires |parts| > 0 ==> parts[|parts| - 1] != []
    ensures Split(Join(parts, d), d) == parts
  {
    if |parts| == 1 {
      var t := parts[0];
      var j := NextDelim(t, d, 0);
      assert j == |t|;
      assert t[..j] == t;
    } else if |parts| > 1 {
      SplitJoin(parts[1..], d);
      SplitAfterDelim(parts[0], d, Join(parts[1..], d));
    }
  }

  /** Splitting undoes writing each line followed by the delimiter. */
  lemma {:induction false} SplitTerminated(lines: seq<string>, d: char)
    requires forall i :: 0 <= i < |lines| ==> d !in lines[i]
    ensures Split(Terminated(lines, d), d) == lines
  {
    if lines != [] {
      SplitTerminated(lines[1..], d);
      SplitAfterDelim(lines[0], d, Terminated(lines[1..], d));
    }
  }

  /** Writing one more line appends it and its delimiter. */
  lemma {:induction false} TerminatedAppend(lines: seq<string>, x: string, d: char)
    ensures Terminated(lines + [x], d) == Terminated(lines, d) + x + [d]
  {
    if lines != [] {
      assert (lines + [x])[1..] == lines[1..] + [x];
      TerminatedAppend(lines[1..], x, d);
    }
  }

  /** A character that is neither the delimiter nor in any part is not in the joined text. */
  lemma {:induction false} JoinNoChar(parts: seq<string>, d: char, c: char)
    requires c != d && forall i :: 0 <= i < |parts| ==> c !in parts[i]
    ensures c !in Join(parts, d)
  {
    if |parts| > 1 { JoinNoChar(parts[1..], d, c); }
  }

  lemma {:induction false} JoinLength(parts: seq<string>, d: char)
    requires |parts| > 0
    ensures |Join(parts, d)| >= |parts| - 1
  {
    if |parts| > 1 { JoinLength(parts[1..], d); }
  }

  /** The scan `getline` makes for the end of the current token. */
  method TokenEnd(s: string, d: char, i: nat) returns (j: nat)
    requires i <= |s|
    ensures j == NextDelim(s, d, i)
  {
    j := i;
    while j < |s| && s[j] != d
      invariant i <= j <= |s|
      invariant NextDelim(s, d, j) == NextDelim(s, d, i)
    {
      j := j + 1;
    }
  }

  /** One pass of the `getline` loop: the first token, then what follows its delimiter. */
  lemma SplitFirst(tokens: seq<string>, rest: string, d: char)
    requires rest != []
    ensures var j := NextDelim(rest, d, 0);
      tokens + Split(rest, d)
        == (tokens + [rest[..j]]) + Split(if j < |rest| then rest[j + 1..] else [], d)
  {
    var j := NextDelim(rest, d, 0);
    var more := if j < |rest| then rest[j + 1..] else [];
    assert Split(rest, d) == [rest[..j]] + Split(more, d);
  }

  /**
   * The `getline` loop of the converters' `split`: one token per pass,
   * appended with `push_back`; `rest` is what the stream has not yet
   * handed out.
   */
  method SplitTokens(s: string, d: char) returns (tokens: seq<string>)
    ensures tokens == Split(s, d)
  {
    tokens := [];
    var rest := s;
    while rest != []
      invariant tokens + Split(rest, d) == Split(s, d)
      decreases |rest|
    {
      var j := TokenEnd(rest, d, 0);
      var more := if j < |rest| then rest[j + 1..] else [];
      SplitFirst(tokens, rest, d);
      tokens := tokens + [rest[..j]];
      rest := more;
    }
  }

  // ---------------------------------------------------------------------
  // Substring search

  predicate OccursAt(s: string, p: string, k: nat)
  {
    k + |p| <= |s| && s[k..k + |p|] == p
  }

  function FindFrom(s: string, p: string, i: nat): (r: Option<nat>)
    requires i <= |s|
    ensures r.Some? ==> i <= r.value && OccursAt(s, p, r.value)
    ensures r.Some? ==> forall j :: i <= j < r.value ==> !OccursAt(s, p, j)
    ensures r.None? ==> forall j :: i <= j <= |s| ==> !OccursAt(s, p, j)
    decreases |s| - i
  {
    if OccursAt(s, p, i) then Some(i)
    else if i == |s| then None
    else FindFrom(s, p, i + 1)
  }

  /** `std::string::find`: the first position where `p` occurs in `s`. */
  function Find(s: string, p: string): (r: Option<nat>)
    ensures r.Some? ==> OccursAt(s, p, r.value)
    ensures r.Some? ==> forall j :: 0 <= j < r.value ==> !OccursAt(s, p, j)
    ensures r.None? ==> forall j :: 0 <= j <= |s| ==> !OccursAt(s, p, j)
  {
    FindFrom(s, p, 0)
  }

  predicate Contains(s: string, p: string)
  {
    Find(s, p).Some?
  }

  lemma ContainsAt(s: string, p: string, k: nat)
    requires OccursAt(s, p, k)
    ensures Contains(s, p)
  {
    var r := Find(s, p);
  }

  lemma ContainsAppend(a: string, b: string, p: string)
    requires Contains(b, p)
    ensures Contains(a + b, p)
  {
    var k := Find(b, p).value;
    assert (a + b)[|a| + k..|a| + k + |p|] == b[k..k + |p|];
    ContainsAt(a + b, p, |a| + k);
  }

  lemma ContainsPrefix(a: string, b: string, p: string)
    requires Contains(a, p)
    ensures Contains(a + b, p)
  {
    var k := Find(a, p).value;
    assert (a + b)[k..k + |p|] == a[k..k + |p|];
    ContainsAt(a + b, p, k);
  }

  /** A string contains a one-character pattern exactly when that character occurs in it. */
  lemma ContainsChar(s: string, c: char)
    ensures Contains(s, [c]) <==> c in s
  {
    if c in s {
      var k :| 0 <= k < |s| && s[k] == c;
      assert s[k..k + 1] == [c];
      ContainsAt(s, [c], k);
    }
    if Contains(s, [c]) {
      var k := Find(s, [c]).value;
      assert s[k..k + 1][0] == s[k];
    }
  }

  /** A pattern whose first character does not occur in `a` is first found right after `a`. */
  lemma FindAfter(a: string, p: string, b: string)
    requires p != [] && p[0] !in a
    ensures Find(a + p + b, p) == Some(|a|)
  {
    var s := a + p + b;
    assert s[|a|..|a| + |p|] == p;
    forall j | 0 <= j < |a| ensures !OccursAt(s, p, j) {
      assert s[j] == a[j] != p[0];
      assert s[j..j + |p|][0] == s[j];
    }
    assert OccursAt(s, p, |a|);
  }

  /** `std::string::find(c)`: the first position of `c` in `s`, if any. */
  function FindChar(s: string, c: char): (r: Option<nat>)
    ensures r.None? <==> c !in s
    ensures r.Some? ==> r.value < |s| && s[r.value] == c && c !in s[..r.value]
  {
    if s == [] then None
    else if s[0] == c then Some(0)
    else match FindChar(s[1..], c)
      case None => None
      case Some(i) =>
        assert s[..i + 1] == [s[0]] + s[1..][..i];
        Some(i + 1)
  }

  /** Text made of `a` without `c`, then `c`, has its first `c` right after `a`. */
  lemma FindCharAfter(a: string, c: char, b: string)
    requires c !in a
    ensures FindChar(a + [c] + b, c) == Some(|a|)
  {
    var s := a + [c] + b;
    assert s[|a|] == c;
    assert s[..|a|] == a;
  }

  // ---------------------------------------------------------------------
  // Trimming with a set of blank characters

  /** `find_first_not_of(ws)` from `i` on: the first non-blank position, or `|s|`. */
  function FirstNotIn(s: string, ws: set<char>, i: nat): (b: nat)
    requires i <= |s|
    ensures i <= b <= |s|
    ensures forall m :: i <= m < b ==> s[m] in ws
    ensures b < |s| ==> s[b] !in ws
    decreases |s| - i
  {
    if i == |s| || s[i] !in ws then i else FirstNotIn(s, ws, i + 1)
  }

  /** One past `find_last_not_of(ws)` below `e`: the end of the text without its trailing blanks. */
  function LastNotIn(s: string, ws: set<char>, e: nat): (r: nat)
    requires e <= |s|
    ensures r <= e
    ensures forall m :: r <= m < e ==> s[m] in ws
    ensures r > 0 ==> s[r - 1] !in ws
  {
    if e == 0 || s[e - 1] !in ws then e else LastNotIn(s, ws, e - 1)
  }

  /**
   * The trims of the modelled code (`find_first_not_of`/`find_last_not_of`
   * with `substr` or `erase`): `s` without its leading and trailing blanks,
   * and "" when `s` is blank throughout.
   */
  function Strip(s: string, ws: set<char>): (r: string)
  {
    var b := FirstNotIn(s, ws, 0);
    if b == |s| then [] else s[b..LastNotIn(s, ws, |s|)]
  }

  /**
   * What a trim gives: a piece of `s` that starts and ends with a
   * non-blank character, with only blanks before and after it in `s`, and
   * nothing exactly when `s` is blank throughout.
   */
  lemma StripFacts(s: string, ws: set<char>)
    ensures var r := Strip(s, ws);
      && (r != [] ==> r[0] !in ws && r[|r| - 1] !in ws)
      && ((forall i :: 0 <= i < |s| ==> s[i] in ws) <==> r == [])
      && (var b := FirstNotIn(s, ws, 0);
          && b + |r| <= |s| && r == s[b..b + |r|]
          && (forall m :: 0 <= m < b ==> s[m] in ws)
          && (forall m :: b + |r| <= m < |s| ==> s[m] in ws))
  {
    var b := FirstNotIn(s, ws, 0);
    var e := LastNotIn(s, ws, |s|);
    var r := Strip(s, ws);
    if b < |s| {
      assert s[b] !in ws;
      assert b < e;
      assert r == s[b..e];
      assert r[0] == s[b] && r[|r| - 1] == s[e - 1];
      assert b + |r| == e;
    } else {
      assert r == s[b..b + |r|];
    }
  }

  /** Trimming a trimmed text changes nothing. */
  lemma StripIdempotent(s: string, ws: set<char>)
    ensures Strip(Strip(s, ws), ws) == Strip(s, ws)
  {
    StripFacts(s, ws);
    var r := Strip(s, ws);
    if r != [] {
      assert FirstNotIn(r, ws, 0) == 0;
      assert LastNotIn(r, ws, |r|) == |r|;
      assert r[0..|r|] == r;
    }
  }

  /** A text that starts and ends with a non-blank is its own trim. */
  lemma StripUnchanged(s: string, ws: set<char>)
    requires s != [] && s[0] !in ws && s[|s| - 1] !in ws
    ensures Strip(s, ws) == s
  {
    assert FirstNotIn(s, ws, 0) == 0;
    assert LastNotIn(s, ws, |s|) == |s|;
    assert s[0..|s|] == s;
  }

  /** Blanks in front of such a text are trimmed away. */
  lemma {:induction false} StripLeading(b: string, s: string, ws: set<char>)
    requires forall i :: 0 <= i < |b| ==> b[i] in ws
    requires s != [] && s[0] !in ws && s[|s| - 1] !in ws
    ensures Strip(b + s, ws) == s
  {
    var t := b + s;
    StripFacts(t, ws);
    var k := FirstNotIn(t, ws, 0);
    assert t[|b|] == s[0];
    assert k == |b|;
    assert LastNotIn(t, ws, |t|) == |t|;
    assert t[|b|..|t|] == s;
  }

  // ---------------------------------------------------------------------
  // ASCII case

  /**
   * A byte the test `c < 0 || c > 127` on a signed `char` flags: one with
   * the high bit set (characters are taken as byte values).
   */
  predicate NonAscii(c: char)
  {
    c as int > 127
  }

  function LowerChar(c: char): (r: char)
    ensures 'A' <= c <= 'Z' ==> 'a' <= r <= 'z'
    ensures !('A' <= c <= 'Z') ==> r == c
  {
    if 'A' <= c <= 'Z' then (c as int + 32) as char else c
  }

  /** `std::transform` with `::tolower` over the whole string. */
  function Lower(s: string): (r: string)
    ensures |r| == |s|
    ensures forall i :: 0 <= i < |s| ==> r[i] == LowerChar(s[i])
  {
    seq(|s|, i requires 0 <= i < |s| => LowerChar(s[i]))
  }
}
