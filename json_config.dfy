// The market recorder's configuration reader: a line-oriented reader of a
// flat JSON-like file.  Lines are trimmed; blank lines and lines starting
// with '/' or '#' are skipped; a line holding '{' opens the object and one
// holding '}' closes it; inside the object a line "key": value stores the
// pair, a later line with the same key overwriting an earlier one.  The
// file's lines are an input of the model.
module JsonConfig {
  import opened Wrappers
  import Text

  /** The characters `Trim` removes: space, tab, carriage return and line feed. */
  const Blanks: set<char> := {' ', '\t', '\r', '\n'}

  /** `Trim`: the text without leading and trailing blanks, "" when it is all blanks. */
  function Trim(s: string): (r: string)
    ensures r == [] <==> forall i :: 0 <= i < |s| ==> s[i] in Blanks
    ensures r != [] ==> r[0] !in Blanks && r[|r| - 1] !in Blanks
    ensures |r| <= |s|
  {
    Text.StripFacts(s, Blanks);
    Text.Strip(s, Blanks)
  }

  /** Trimming twice is trimming once. */
  lemma TrimIdempotent(s: string)
    ensures Trim(Trim(s)) == Trim(s)
  {
    Text.StripIdempotent(s, Blanks);
  }

  /** A trim is a piece of its text, so it holds no character the text lacks. */
  lemma TrimWithin(s: string, c: char)
    requires c !in s
    ensures c !in Trim(s)
  {
    Text.StripFacts(s, Blanks);
  }

  /** One enclosing pair of double quotes removed, when the text has one. */
  function Unquote(s: string): (r: string)
    ensures |s| >= 2 && s[0] == '"' && s[|s| - 1] == '"' ==> s == "\"" + r + "\""
    ensures !(|s| >= 2 && s[0] == '"' && s[|s| - 1] == '"') ==> r == s
  {
    if |s| >= 2 && s[0] == '"' && s[|s| - 1] == '"' then s[1..|s| - 1] else s
  }

  /** `ExtractKey`: the trimmed text before the first ':', unquoted; "" without a ':'. */
  function ExtractKey(line: string): (key: string)
    ensures ':' !in line ==> key == []
    ensures ':' !in key
  {
    match Text.FindChar(line, ':')
    case None => []
    case Some(p) =>
      TrimWithin(line[..p], ':');
      Unquote(Trim(line[..p]))
  }

  /** One trailing comma removed. */
  function DropComma(s: string): (r: string)
    ensures s != [] && s[|s| - 1] == ',' ==> s == r + ","
    ensures !(s != [] && s[|s| - 1] == ',') ==> r == s
  {
    if s != [] && s[|s| - 1] == ',' then s[..|s| - 1] else s
  }

  /**
   * `ExtractValue`: the trimmed text after the first ':', without one
   * trailing comma, unquoted; "" without a ':'.
   */
  function ExtractValue(line: string): (value: string)
    ensures ':' !in line ==> value == []
  {
    match Text.FindChar(line, ':')
    case None => []
    case Some(p) => Unquote(DropComma(Trim(line[p + 1..])))
  }

  /** `IsValidJsonLine`: some text, with a ':' in it. */
  predicate IsValidJsonLine(line: string)
  {
    Trim(line) != [] && ':' in Trim(line)
  }

  // ---------------------------------------------------------------------
  // The line state machine

  /** The reader's state between lines: the pairs so far and whether the object is open. */
  datatype Scan = Scan(contents: map<string, string>, inObject: bool)

  /** A trimmed line the reader skips: empty, or a comment starting with '/' or '#'. */
  predicate Skipped(line: string)
  {
    line == [] || line[0] == '/' || line[0] == '#'
  }

  /** Whether a trimmed line stores a pair in state `st`. */
  predicate StoresPair(st: Scan, line: string)
  {
    !Skipped(line) && '{' !in line && '}' !in line
    && st.inObject && IsValidJsonLine(line) && ExtractKey(line) != []
  }

  /** What one raw line does to the state. */
  function Step(st: Scan, raw: string): (st': Scan)
    ensures StoresPair(st, Trim(raw)) ==>
      st' == Scan(st.contents[ExtractKey(Trim(raw)) := ExtractValue(Trim(raw))], st.inObject)
    ensures !StoresPair(st, Trim(raw)) ==> st'.contents == st.contents
  {
    var line := Trim(raw);
    if Skipped(line) then st
    else if '{' in line then Scan(st.contents, true)
    else if '}' in line then Scan(st.contents, false)
    else if st.inObject && IsValidJsonLine(line) && ExtractKey(line) != [] then
      Scan(st.contents[ExtractKey(line) := ExtractValue(line)], st.inObject)
    else st
  }

  /** The state after the given lines, from an empty map outside the object. */
  function Loaded(lines: seq<string>): (st: Scan)
    decreases |lines|
  {
    if lines == [] then Scan(map[], false)
    else Step(Loaded(lines[..|lines| - 1]), lines[|lines| - 1])
  }

  /** Line `i` stores a pair with key `k`. */
  predicate StoresKey(lines: seq<string>, i: nat, k: string)
    requires i < |lines|
  {
    StoresPair(Loaded(lines[..i]), Trim(lines[i])) && ExtractKey(Trim(lines[i])) == k
  }

  // ---------------------------------------------------------------------
  // The object

  /** `KeyNotFound` and `FileNotFound`, with the key or file name they carry. */
  datatype ConfigError = KeyNotFound(key: string) | FileNotFound(filename: string)

  class Config {
    /** `m_Contents`. */
    var contents: map<string, string>
    /** `m_filename`. */
    var filename: string

    /** The default constructor: no file, no pairs. */
    constructor()
      ensures contents == map[] && filename == ""
    {
      contents := map[];
      filename := "";
    }

    /**
     * `LoadFile`: the name is recorded and the pairs cleared first; a file
     * that cannot be opened (`file` is None) then throws `FileNotFound`,
     * leaving no pairs; otherwise the pairs are those of the file's lines.
     */
    method LoadFile(name: string, file: Option<seq<string>>) returns (r: Result<bool, ConfigError>)
      modifies this
      ensures filename == name
      ensures file.None? ==> r == Err(FileNotFound(name)) && contents == map[]
      ensures file.Some? ==> r == Ok(true) && contents == Loaded(file.value).contents
    {
      filename := name;
      contents := map[];
      if file.None? {
        return Err(FileNotFound(name));
      }
      var lines := file.value;
      var inObject := false;
      var i := 0;
      while i < |lines|
        invariant 0 <= i <= |lines|
        invariant Loaded(lines[..i]) == Scan(contents, inObject)
        invariant filename == name
      {
        assert lines[..i + 1][..i] == lines[..i];
        var line := Trim(lines[i]);
        if Skipped(line) {
        } else if '{' in line {
          inObject := true;
        } else if '}' in line {
          inObject := false;
        } else if inObject && IsValidJsonLine(line) {
          var key := ExtractKey(line);
          var value := ExtractValue(line);
          if key != [] {
            contents := contents[key := value];
          }
        }
        i := i + 1;
      }
      assert lines[..i] == lines;
      return Ok(true);
    }

    predicate KeyExists(key: string)
      reads this
    {
      key in contents
    }

    /** `Read<std::string>(key)`: the stored text as it is, or `KeyNotFound(key)`. */
    function ReadString(key: string): (r: Result<string, ConfigError>)
      reads this
      ensures r.Ok? <==> KeyExists(key)
      ensures r.Ok? ==> r.value == contents[key]
      ensures r.Err? ==> r.error == KeyNotFound(key)
    {
      if key in contents then Ok(contents[key]) else Err(KeyNotFound(key))
    }

    /** `Read<std::string>(key, default)`: the stored text, or the default when the key is absent. */
    function ReadStringOr(key: string, default: string): (r: string)
      reads this
      ensures !KeyExists(key) ==> r == default
      ensures KeyExists(key) ==> r == contents[key]
    {
      if key in contents then contents[key] else default
    }

    /**
     * The generic `Read<T>(key)`: the stored text read with `extract` (the
     * stream extraction for `T`), or `KeyNotFound(key)`.
     */
    function Read<T>(key: string, extract: string -> T): (r: Result<T, ConfigError>)
      reads this
      ensures r.Ok? <==> KeyExists(key)
      ensures r.Ok? ==> r.value == extract(contents[key])
    {
      if key in contents then Ok(extract(contents[key])) else Err(KeyNotFound(key))
    }

    /** The generic `Read<T>(key, default)`: the default whenever the key is absent. */
    function ReadOr<T>(key: string, default: T, extract: string -> T): (r: T)
      reads this
      ensures !KeyExists(key) ==> r == default
      ensures KeyExists(key) ==> r == extract(contents[key])
    {
      if key in contents then extract(contents[key]) else default
    }

    /** `ReadArray(key)`: the stored text split at commas into trimmed, non-empty tokens. */
    method ReadArray(key: string) returns (r: Result<seq<string>, ConfigError>)
      ensures r.Ok? <==> KeyExists(key)
      ensures r.Ok? ==> r.value == Tokens(contents[key], ',')
      ensures r.Err? ==> r.error == KeyNotFound(key)
    {
      var value := ReadString(key);
      if value.Err? {
        return Err(value.error);
      }
      var tokens := SplitString(value.value, ',');
      return Ok(tokens);
    }

    /** `ReadArray(key, default)`: the default when the key is absent. */
    method ReadArrayOr(key: string, default: seq<string>) returns (r: seq<string>)
      ensures !KeyExists(key) ==> r == default
      ensures KeyExists(key) ==> r == Tokens(contents[key], ',')
    {
      if !KeyExists(key) {
        return default;
      }
      var tokens := ReadArray(key);
      return tokens.value;
    }
  }

  // ---------------------------------------------------------------------
  // Splitting

  /** The pieces between delimiters that are not blank throughout, each trimmed. */
  function Tokens(s: string, d: char): (ts: seq<string>)
  {
    Kept(Text.Split(s, d))
  }

  function Kept(pieces: seq<string>): (ts: seq<string>)
    ensures |ts| <= |pieces|
    decreases |pieces|
  {
    if pieces == [] then []
    else
      var n := |pieces| - 1;
      var t := Trim(pieces[n]);
      Kept(pieces[..n]) + (if t == [] then [] else [t])
  }

  /** `SplitString`: each `getline` piece trimmed, and kept when not empty. */
  method SplitString(s: string, d: char) returns (tokens: seq<string>)
    ensures tokens == Tokens(s, d)
  {
    var pieces := Text.Split(s, d);
    tokens := [];
    var i := 0;
    while i < |pieces|
      invariant 0 <= i <= |pieces|
      invariant tokens == Kept(pieces[..i])
    {
      assert pieces[..i + 1][..i] == pieces[..i];
      var token := Trim(pieces[i]);
      if token != [] {
        tokens := tokens + [token];
      }
      i := i + 1;
    }
    assert pieces[..i] == pieces;
  }

  /** Every token is non-empty, trimmed, and free of the delimiter. */
  lemma {:induction false} KeptShape(pieces: seq<string>, d: char)
    requires forall i :: 0 <= i < |pieces| ==> d !in pieces[i]
    ensures forall i :: 0 <= i < |Kept(pieces)| ==>
      Kept(pieces)[i] != [] && Trim(Kept(pieces)[i]) == Kept(pieces)[i] && d !in Kept(pieces)[i]
    decreases |pieces|
  {
    if pieces != [] {
      var n := |pieces| - 1;
      KeptShape(pieces[..n], d);
      TrimIdempotent(pieces[n]);
      TrimWithin(pieces[n], d);
    }
  }

  lemma TokensShape(s: string, d: char)
    ensures forall i :: 0 <= i < |Tokens(s, d)| ==>
      Tokens(s, d)[i] != [] && Trim(Tokens(s, d)[i]) == Tokens(s, d)[i] && d !in Tokens(s, d)[i]
  {
    Text.SplitNoDelim(s, d);
    KeptShape(Text.Split(s, d), d);
  }

  // ---------------------------------------------------------------------
  // Properties of the reader

  /** Blank and comment lines change nothing. */
  lemma SkippedLine(st: Scan, raw: string)
    requires Skipped(Trim(raw))
    ensures Step(st, raw) == st
  {
  }

  /** A line with '{' opens the object and one with '}' closes it; neither stores a pair. */
  lemma BraceLines(st: Scan, raw: string)
    requires !Skipped(Trim(raw))
    ensures '{' in Trim(raw) ==> Step(st, raw) == Scan(st.contents, true)
    ensures '{' !in Trim(raw) && '}' in Trim(raw) ==> Step(st, raw) == Scan(st.contents, false)
  {
  }

  /** Outside the object no line stores anything. */
  lemma OutsideObject(st: Scan, raw: string)
    requires !st.inObject
    ensures Step(st, raw).contents == st.contents
  {
  }

  /** Whether line `j` stores `k` does not depend on the lines after it. */
  lemma StoresKeyPrefix(lines: seq<string>, n: nat, j: nat, k: string)
    requires j < n <= |lines|
    ensures StoresKey(lines[..n], j, k) == StoresKey(lines, j, k)
  {
    assert lines[..n][..j] == lines[..j];
  }

  /** A line that does not store `k` leaves the entry of `k` as it was. */
  lemma OtherLineKeeps(lines: seq<string>, k: string)
    requires lines != [] && !StoresKey(lines, |lines| - 1, k)
    ensures var pre := lines[..|lines| - 1];
      && (k in Loaded(lines).contents <==> k in Loaded(pre).contents)
      && (k in Loaded(pre).contents ==> Loaded(lines).contents[k] == Loaded(pre).contents[k])
  {
  }

  /** A last line that stores `k` sets its entry to the line's value. */
  lemma LastLineStores(lines: seq<string>, k: string)
    requires lines != [] && StoresKey(lines, |lines| - 1, k)
    ensures k in Loaded(lines).contents
    ensures Loaded(lines).contents[k] == ExtractValue(Trim(lines[|lines| - 1]))
  {
  }

  /** With the last line not storing `k`, no line after `i` stores it when none before the last does. */
  lemma NoLaterStore(lines: seq<string>, i: int, k: string)
    requires lines != [] && -1 <= i < |lines| && !StoresKey(lines, |lines| - 1, k)
    requires forall j :: i < j < |lines| - 1 ==> !StoresKey(lines, j, k)
    ensures forall j :: i < j < |lines| ==> !StoresKey(lines, j, k)
  {
  }

  /** A key is in the loaded map exactly when some line stored it. */
  lemma {:induction false} KeyStored(lines: seq<string>, k: string)
    ensures k in Loaded(lines).contents <==> exists i :: 0 <= i < |lines| && StoresKey(lines, i, k)
    decreases |lines|
  {
    if lines == [] {
      return;
    }
    var n := |lines| - 1;
    var pre := lines[..n];
    if StoresKey(lines, n, k) {
      LastLineStores(lines, k);
      return;
    }
    OtherLineKeeps(lines, k);
    KeyStored(pre, k);
    if k in Loaded(lines).contents {
      var i :| 0 <= i < n && StoresKey(pre, i, k);
      StoresKeyPrefix(lines, n, i, k);
    } else {
      forall i | 0 <= i < n ensures !StoresKey(lines, i, k) {
        assert !StoresKey(pre, i, k);
        StoresKeyPrefix(lines, n, i, k);
      }
      NoLaterStore(lines, -1, k);
    }
  }

  /** The value of a loaded key is the one of the last line that stored it: later duplicates overwrite. */
  lemma {:induction false} LastPairWins(lines: seq<string>, k: string)
    requires k in Loaded(lines).contents
    ensures exists i :: (0 <= i < |lines| && StoresKey(lines, i, k)
                         && Loaded(lines).contents[k] == ExtractValue(Trim(lines[i]))
                         && forall j :: i < j < |lines| ==> !StoresKey(lines, j, k))
    decreases |lines|
  {
    var n := |lines| - 1;
    var pre := lines[..n];
    if StoresKey(lines, n, k) {
      LastLineStores(lines, k);
      return;
    }
    OtherLineKeeps(lines, k);
    LastPairWins(pre, k);
    var i :| 0 <= i < n && StoresKey(pre, i, k) && Loaded(pre).contents[k] == ExtractValue(Trim(pre[i]))
      && forall j :: i < j < n ==> !StoresKey(pre, j, k);
    StoresKeyPrefix(lines, n, i, k);
    forall j | i < j < n ensures !StoresKey(lines, j, k) {
      assert !StoresKey(pre, j, k);
      StoresKeyPrefix(lines, n, j, k);
    }
    NoLaterStore(lines, i, k);
    assert pre[i] == lines[i];
  }

  /** The line a writer of the file would put for a pair: `"key": "value",`. */
  function PairLine(k: string, v: string): (line: string)
  {
    "\"" + k + "\": \"" + v + "\","
  }

  /** Key and value read back from such a line, for any key without a ':'. */
  lemma PairLineRoundTrip(k: string, v: string)
    requires ':' !in k
    ensures Trim(PairLine(k, v)) == PairLine(k, v)
    ensures ExtractKey(PairLine(k, v)) == k
    ensures ExtractValue(PairLine(k, v)) == v
  {
    var line := PairLine(k, v);
    Text.StripUnchanged(line, Blanks);
    PairLineColon(k, v);
    PairLineKey(k, v);
    PairLineValue(k, v);
  }

  lemma PairLineColon(k: string, v: string)
    requires ':' !in k
    ensures Text.FindChar(PairLine(k, v), ':') == Some(|k| + 2)
  {
    var qk := "\"" + k + "\"";
    var rest := " \"" + v + "\",";
    assert PairLine(k, v) == qk + [':'] + rest;
    assert ':' !in qk by {
      forall i | 0 <= i < |qk| ensures qk[i] != ':' {
        if 0 < i < |qk| - 1 {
          assert qk[i] == k[i - 1];
        }
      }
    }
    Text.FindCharAfter(qk, ':', rest);
  }

  lemma PairLineKey(k: string, v: string)
    requires Text.FindChar(PairLine(k, v), ':') == Some(|k| + 2)
    ensures ExtractKey(PairLine(k, v)) == k
  {
    var qk := "\"" + k + "\"";
    assert PairLine(k, v)[..|k| + 2] == qk;
    Text.StripUnchanged(qk, Blanks);
  }

  lemma PairLineValue(k: string, v: string)
    requires Text.FindChar(PairLine(k, v), ':') == Some(|k| + 2)
    ensures ExtractValue(PairLine(k, v)) == v
  {
    var qv := "\"" + v + "\",";
    assert PairLine(k, v)[|k| + 3..] == " " + qv;
    Text.StripLeading(" ", qv, Blanks);
    assert DropComma(qv) == "\"" + v + "\"";
  }

  /** Inside the object, such a line stores its pair when the key is not empty and nothing in it is a brace. */
  lemma PairLineStores(m: map<string, string>, k: string, v: string)
    requires k != [] && ':' !in k && '{' !in k && '}' !in k && '{' !in v && '}' !in v
    ensures StoresPair(Scan(m, true), PairLine(k, v))
    ensures Step(Scan(m, true), PairLine(k, v)) == Scan(m[k := v], true)
  {
    var line := PairLine(k, v);
    PairLineRoundTrip(k, v);
    PairLineColon(k, v);
    assert line[|k| + 2] == ':';
    PairLineNoBraces(k, v);
  }

  lemma PairLineNoBraces(k: string, v: string)
    requires '{' !in k && '}' !in k && '{' !in v && '}' !in v
    ensures '{' !in PairLine(k, v) && '}' !in PairLine(k, v)
  {
    assert PairLine(k, v) == "\"" + k + "\": \"" + v + "\",";
  }

  /**
   * A file holding one object with one pair, key free of ':', '{' and
   * '}', value free of braces, loads to exactly that pair.
   */
  lemma OnePairFile(k: string, v: string)
    requires k != [] && ':' !in k && '{' !in k && '}' !in k && '{' !in v && '}' !in v
    ensures Loaded(["{", PairLine(k, v), "}"]).contents == map[k := v]
  {
    var line := PairLine(k, v);
    var lines := ["{", line, "}"];
    Text.StripUnchanged("{", Blanks);
    Text.StripUnchanged("}", Blanks);
    assert lines[..1] == ["{"] && lines[..2] == ["{", line];
    assert Loaded(["{"]) == Scan(map[], true) by {
      assert ["{"][..0] == [];
    }
    assert Loaded(lines[..2]) == Scan(map[k := v], true) by {
      PairLineStores(map[], k, v);
    }
  }
}
