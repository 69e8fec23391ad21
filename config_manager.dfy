// The subscriber's `key=value` settings file: lines read in order, blank
// and '#' lines skipped, each remaining line split at its first '=', both
// sides trimmed of spaces and tabs, and later assignments overwriting
// earlier ones; typed getters with defaults on top.
module ConfigManager {
  import opened Wrappers
  import Numbers
  import Text

  /** The characters trimmed from both sides of a setting: space and tab. */
  const Blanks: set<char> := {' ', '\t'}

  /** The file the default constructor names. */
  const DefaultFile: string := "config.ini"

  /** A text with no blank at either end (the empty text included). */
  predicate Trimmed(s: string)
  {
    s == [] || (s[0] !in Blanks && s[|s| - 1] !in Blanks)
  }

  /**
   * What one line of the file assigns: nothing for an empty line, a line
   * whose very first character is '#', or a line without '='; otherwise
   * the trimmed text before the first '=' as key and the trimmed rest as
   * value.  The key may be empty, and the value may hold further '='.
   */
  function Assignment(line: string): (a: Option<(string, string)>)
    ensures line == [] || line[0] == '#' || '=' !in line ==> a.None?
    ensures a.Some? ==> '=' !in a.value.0 && Trimmed(a.value.0) && Trimmed(a.value.1)
  {
    if line == [] || line[0] == '#' then None
    else
      match Text.FindChar(line, '=')
      case None => None
      case Some(p) =>
        var key := Text.Strip(line[..p], Blanks);
        var value := Text.Strip(line[p + 1..], Blanks);
        Text.StripFacts(line[..p], Blanks);
        Text.StripFacts(line[p + 1..], Blanks);
        Some((key, value))
  }

  /** The settings after the given lines were read into `m`, one line at a time. */
  function Assigned(m: map<string, string>, lines: seq<string>): (m': map<string, string>)
    decreases |lines|
  {
    if lines == [] then m
    else
      var n := |lines| - 1;
      var prev := Assigned(m, lines[..n]);
      match Assignment(lines[n])
      case None => prev
      case Some((k, v)) => prev[k := v]
  }

  /** The value the last line assigning `k` gives it, scanning from the end; None when no line does. */
  function LastAssigned(lines: seq<string>, k: string): (v: Option<string>)
    decreases |lines|
  {
    if lines == [] then None
    else
      var a := Assignment(lines[|lines| - 1]);
      if a.Some? && a.value.0 == k then Some(a.value.1)
      else LastAssigned(lines[..|lines| - 1], k)
  }

  /**
   * `getIntValue`'s reading of a stored text: the default for an empty
   * text or one `std::stoi` rejects, the converted number otherwise.
   */
  function IntSetting(v: string, default: int): (n: int)
    ensures v == [] || Numbers.Stoi(v).Err? ==> n == default
    ensures v != [] && Numbers.Stoi(v).Ok? ==> n == Numbers.Stoi(v).value && Numbers.IsInt32(n)
  {
    if v == [] then default
    else
      match Numbers.Stoi(v)
      case Ok(n) => n
      case Err(_) => default
  }

  /** The lower-case spellings `getBoolValue` takes for true. */
  const TrueWords: set<string> := {"true", "1", "yes"}

  /**
   * `getBoolValue`'s reading of a stored text: the default for an empty
   * text, otherwise whether its lower-case form is one of the true words.
   */
  function BoolSetting(v: string, default: bool): (b: bool)
    ensures v == [] ==> b == default
    ensures v != [] ==> (b <==> Text.Lower(v) in TrueWords)
  {
    if v == [] then default else Text.Lower(v) in TrueWords
  }

  class ConfigManager {
    /** `config`: the settings read so far. */
    var config: map<string, string>
    /** `configFile`: the file `loadConfig` reads. */
    const configFile: string

    /** Names the file; nothing is read yet. */
    constructor(filename: string)
      ensures configFile == filename && config == map[]
    {
      configFile := filename;
      config := map[];
    }

    /** The constructor's default argument: the file "config.ini"; nothing is read yet. */
    constructor Default()
      ensures configFile == DefaultFile && config == map[]
    {
      configFile := DefaultFile;
      config := map[];
    }

    /**
     * `loadConfig`.  `file` is the file's lines, or None when it cannot be
     * opened: then false is returned and nothing changes.  Otherwise every
     * line is applied on top of the settings already held (the map is not
     * cleared first) and true is returned.
     */
    method LoadConfig(file: Option<seq<string>>) returns (ok: bool)
      modifies this
      ensures ok <==> file.Some?
      ensures file.None? ==> config == old(config)
      ensures file.Some? ==> config == Assigned(old(config), file.value)
    {
      if file.None? {
        return false;
      }
      var lines := file.value;
      var i := 0;
      while i < |lines|
        invariant 0 <= i <= |lines|
        invariant config == Assigned(old(config), lines[..i])
      {
        assert lines[..i + 1][..i] == lines[..i];
        var line := lines[i];
        if line == [] || line[0] == '#' {
        } else {
          var pos := Text.FindChar(line, '=');
          if pos.Some? {
            var key := Text.Strip(line[..pos.value], Blanks);
            var value := Text.Strip(line[pos.value + 1..], Blanks);
            config := config[key := value];
          }
        }
        i := i + 1;
      }
      assert lines[..i] == lines;
      return true;
    }

    /** `getValue(key, default)`: the stored text, or the default when the key is absent. */
    function GetValue(key: string, default: string): (v: string)
      reads this
      ensures key in config ==> v == config[key]
      ensures key !in config ==> v == default
    {
      if key in config then config[key] else default
    }

    /** `getIntValue(key, default)`: the stored text read as a number, with the default when absent or unreadable. */
    function GetIntValue(key: string, default: int): (n: int)
      reads this
      ensures key !in config ==> n == default
      ensures key in config ==> n == IntSetting(config[key], default)
    {
      IntSetting(GetValue(key, ""), default)
    }

    /** `getBoolValue(key, default)`: the stored text read as a flag, with the default when absent or empty. */
    function GetBoolValue(key: string, default: bool): (b: bool)
      reads this
      ensures key !in config ==> b == default
      ensures key in config ==> b == BoolSetting(config[key], default)
    {
      BoolSetting(GetValue(key, ""), default)
    }

    /** `getZMQAddress`: "zmq.address", by default "tcp://localhost:8888". */
    function GetZmqAddress(): (a: string)
      reads this
      ensures "zmq.address" !in config ==> a == "tcp://localhost:8888"
      ensures "zmq.address" in config ==> a == config["zmq.address"]
    {
      GetValue("zmq.address", "tcp://localhost:8888")
    }

    /** `getDBHost`: "database.host", by default "localhost". */
    function GetDbHost(): (h: string)
      reads this
      ensures "database.host" !in config ==> h == "localhost"
      ensures "database.host" in config ==> h == config["database.host"]
    {
      GetValue("database.host", "localhost")
    }

    /** `getDBPort`: "database.port" as a number, by default 3306. */
    function GetDbPort(): (p: int)
      reads this
      ensures "database.port" !in config ==> p == 3306
      ensures "database.port" in config ==> p == IntSetting(config["database.port"], 3306)
      ensures Numbers.IsInt32(p)
    {
      GetIntValue("database.port", 3306)
    }

    /** `getDBUser`: "database.user", by default "root". */
    function GetDbUser(): (u: string)
      reads this
      ensures "database.user" !in config ==> u == "root"
      ensures "database.user" in config ==> u == config["database.user"]
    {
      GetValue("database.user", "root")
    }

    /** `getDBPassword`: "database.password", by default empty. */
    function GetDbPassword(): (p: string)
      reads this
      ensures "database.password" !in config ==> p == ""
      ensures "database.password" in config ==> p == config["database.password"]
    {
      GetValue("database.password", "")
    }

    /** `getDBName`: "database.name", by default "test". */
    function GetDbName(): (n: string)
      reads this
      ensures "database.name" !in config ==> n == "test"
      ensures "database.name" in config ==> n == config["database.name"]
    {
      GetValue("database.name", "test")
    }

    /** `getLogFile`: "log.file", by default "zmq_subscriber.log". */
    function GetLogFile(): (f: string)
      reads this
      ensures "log.file" !in config ==> f == "zmq_subscriber.log"
      ensures "log.file" in config ==> f == config["log.file"]
    {
      GetValue("log.file", "zmq_subscriber.log")
    }

    /** `getLogLevel`: "log.level" as a number, by default 1. */
    function GetLogLevel(): (l: int)
      reads this
      ensures "log.level" !in config ==> l == 1
      ensures "log.level" in config ==> l == IntSetting(config["log.level"], 1)
      ensures Numbers.IsInt32(l)
    {
      GetIntValue("log.level", 1)
    }
  }

  // ---------------------------------------------------------------------
  // Properties

  /**
   * Reading lines into `m` keeps every setting no line assigns and gives
   * every assigned key the value of the last line assigning it.
   */
  lemma {:induction false} AssignedLookup(m: map<string, string>, lines: seq<string>, k: string)
    ensures k in Assigned(m, lines) <==> LastAssigned(lines, k).Some? || k in m
    ensures LastAssigned(lines, k).Some? ==> Assigned(m, lines)[k] == LastAssigned(lines, k).value
    ensures LastAssigned(lines, k).None? && k in m ==> Assigned(m, lines)[k] == m[k]
    decreases |lines|
  {
    if lines != [] {
      AssignedLookup(m, lines[..|lines| - 1], k);
    }
  }

  /** A line `key=value` written with a trimmed key and value is read back as that pair. */
  lemma PairRoundTrip(k: string, v: string)
    requires k != [] && k[0] != '#' && '=' !in k && Trimmed(k) && Trimmed(v)
    ensures Assignment(k + "=" + v) == Some((k, v))
  {
    var line := k + "=" + v;
    Text.FindCharAfter(k, '=', v);
    assert line[..|k|] == k;
    assert line[|k| + 1..] == v;
    Text.StripUnchanged(k, Blanks);
    if v != [] {
      Text.StripUnchanged(v, Blanks);
    }
  }

  /**
   * A '#' counts as a comment only in the first column: a line with blanks
   * before its '#' still assigns, with the '#' part of the key (so
   * " # a=b" assigns "b" to the key "# a").
   */
  lemma IndentedCommentAssigns(blanks: string, k: string, v: string)
    requires blanks != [] && forall i :: 0 <= i < |blanks| ==> blanks[i] in Blanks
    requires k != [] && k[0] == '#' && '=' !in k && Trimmed(k) && Trimmed(v)
    ensures Assignment(blanks + k + "=" + v) == Some((k, v))
  {
    assert blanks + k + "=" + v == (blanks + k) + "=" + v;
    assert (blanks + k)[0] == blanks[0];
    assert '=' !in blanks + k by {
      forall i | 0 <= i < |blanks + k| ensures (blanks + k)[i] != '=' {
        if i >= |blanks| {
          assert (blanks + k)[i] == k[i - |blanks|];
        }
      }
    }
    AssignmentSplit(blanks + k, v);
    Text.StripLeading(blanks, k, Blanks);
    if v != [] {
      Text.StripUnchanged(v, Blanks);
    }
  }

  /** A line that does not start with '#' assigns the trimmed sides of its first '='. */
  lemma AssignmentSplit(a: string, b: string)
    requires a != [] && a[0] != '#' && '=' !in a
    ensures Assignment(a + "=" + b) == Some((Text.Strip(a, Blanks), Text.Strip(b, Blanks)))
  {
    var line := a + "=" + b;
    Text.FindCharAfter(a, '=', b);
    assert line[..|a|] == a;
    assert line[|a| + 1..] == b;
  }

  /** `getIntValue` reads back a number stored in its decimal form. */
  lemma IntSettingRoundTrip(n: int, default: int)
    requires Numbers.IsInt32(n)
    ensures IntSetting(Numbers.IntToString(n), default) == n
  {
    Numbers.StoiRoundTrip(n);
  }

  /** `getBoolValue` ignores the letter case of the stored text. */
  lemma BoolSettingIgnoresCase(v: string, default: bool)
    ensures BoolSetting(Text.Lower(v), default) == BoolSetting(v, default)
  {
    assert Text.Lower(Text.Lower(v)) == Text.Lower(v);
  }
}
