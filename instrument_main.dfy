// The instrument query launcher: a per-day counter file named after the
// local date limits the query to two runs a day, the count is written
// before the query starts, and the advised time windows only log.
module InstrumentMain {
  import opened Wrappers
  import opened Numbers

  /** The advised windows in minutes after midnight: 8:30-9:00 and 15:30-16:00, both ends included. */
  const MorningStart: int := 8 * 60 + 30
  const MorningEnd: int := 9 * 60
  const EveningStart: int := 15 * 60 + 30
  const EveningEnd: int := 16 * 60

  /** Runs allowed per day. */
  const MaxRuns: int := 2

  /** `isInTradingTime`, given the local minute of the day. */
  function IsInTradingTime(t: int): (b: bool)
  {
    (t >= MorningStart && t <= MorningEnd) || (t >= EveningStart && t <= EveningEnd)
  }

  /** On a clock reading `hour:minute`: from 8:30 to 9:00 and from 15:30 to 16:00, both ends included. */
  lemma WindowOnClock(hour: int, minute: int)
    requires 0 <= hour < 24 && 0 <= minute < 60
    ensures IsInTradingTime(hour * 60 + minute) <==>
      (hour == 8 && minute >= 30) || (hour == 9 && minute == 0)
      || (hour == 15 && minute >= 30) || (hour == 16 && minute == 0)
  {
  }

  // ---------------------------------------------------------------------
  // Counter file name

  /** `setfill('0') << setw(2) << n`: at least two digits, a '0' in front of a single one. */
  function Pad2(n: nat): (r: string)
    ensures |r| >= 2 && forall i :: 0 <= i < |r| ==> IsDigit(r[i])
  {
    if n < 10 then "0" + NatToString(n) else NatToString(n)
  }

  /** Below 100, the padded text is exactly two digits that read back as `n`. */
  lemma Pad2Value(n: nat)
    requires n < 100
    ensures |Pad2(n)| == 2 && DigitsValue(Pad2(n)) == n
  {
    var r := Pad2(n);
    if n < 10 {
      assert r == ['0', DigitChar(n)];
      assert r[..1] == ['0'] && r[..1][..0] == [];
      assert DigitsValue(r[..1]) == 0;
      assert DigitsValue(r) == DigitsValue(r[..1]) * 10 + DigitValue(r[1]);
    } else {
      NatToStringValue(n);
      assert NatToString(n) == NatToString(n / 10) + [DigitChar(n % 10)];
    }
  }

  /** The part of the file name after the year: `-MM-DD.count`. */
  function DateSuffix(month: nat, day: nat): (s: string)
  {
    "-" + Pad2(month) + "-" + Pad2(day) + ".count"
  }

  /**
   * `getCounterFilePath`: the program's directory, then
   * `/instrument_query_YYYY-MM-DD.count` with the calendar year and the
   * month and day of the local date, zero-padded to two digits.
   */
  function CounterFilePath(dir: string, year: int, month: nat, day: nat): (p: string)
  {
    dir + "/instrument_query_" + IntToString(year) + DateSuffix(month, day)
  }

  /** Two different dates name two different counter files, so each day counts its own runs. */
  lemma CounterFilePathInjective(dir: string, y1: int, m1: nat, d1: nat, y2: int, m2: nat, d2: nat)
    requires 1 <= m1 <= 12 && 1 <= d1 <= 31 && 1 <= m2 <= 12 && 1 <= d2 <= 31
    requires CounterFilePath(dir, y1, m1, d1) == CounterFilePath(dir, y2, m2, d2)
    ensures y1 == y2 && m1 == m2 && d1 == d2
  {
    var s1 := DateSuffix(m1, d1);
    var s2 := DateSuffix(m2, d2);
    Pad2Value(m1); Pad2Value(d1); Pad2Value(m2); Pad2Value(d2);
    assert |s1| == 12 && |s2| == 12;
    var head := dir + "/instrument_query_";
    var p1 := head + IntToString(y1);
    var p2 := head + IntToString(y2);
    assert CounterFilePath(dir, y1, m1, d1) == p1 + s1;
    assert CounterFilePath(dir, y2, m2, d2) == p2 + s2;
    SplitEqual(p1, s1, p2, s2);
    assert IntToString(y1) == IntToString(y2) by {
      assert IntToString(y1) == p1[|head|..];
      assert IntToString(y2) == p2[|head|..];
    }
    IntToStringInjective(y1, y2);
    assert Pad2(m1) == Pad2(m2) by {
      assert Pad2(m1) == s1[1..3];
      assert Pad2(m2) == s2[1..3];
    }
    assert Pad2(d1) == Pad2(d2) by {
      assert Pad2(d1) == s1[4..6];
      assert Pad2(d2) == s2[4..6];
    }
  }

  /** Equal texts made of pieces whose tails have the same length have equal pieces. */
  lemma SplitEqual(a: string, b: string, c: string, d: string)
    requires a + b == c + d && |b| == |d|
    ensures a == c && b == d
  {
    assert a == (a + b)[..|a|];
    assert c == (c + d)[..|c|];
    assert b == (a + b)[|a|..];
    assert d == (c + d)[|c|..];
  }

  /** `std::to_string` gives different numbers different texts. */
  lemma IntToStringInjective(a: int, b: int)
    requires IntToString(a) == IntToString(b)
    ensures a == b
  {
    if a < 0 && b < 0 {
      assert NatToString(-a) == IntToString(a)[1..];
      assert NatToString(-b) == IntToString(b)[1..];
      NatToStringValue(-a);
      NatToStringValue(-b);
    } else if a >= 0 && b >= 0 {
      NatToStringValue(a);
      NatToStringValue(b);
    }
  }

  // ---------------------------------------------------------------------
  // Run counter

  /**
   * `file >> count` on an `int`: leading white space skipped, an optional
   * sign and the digits that follow read; without a digit the extraction
   * fails and stores 0, and a value beyond `int` stores its largest or
   * smallest value.
   */
  function StreamInt(s: string): (n: int)
    ensures IsInt32(n)
    ensures Stoi(s).Ok? ==> n == Stoi(s).value
    ensures Stoi(s) == Err(InvalidArgument) ==> n == 0
  {
    match Stoi(s)
    case Ok(v) => v
    case Err(InvalidArgument) => 0
    case Err(OutOfRange) =>
      var t := SkipSpace(s);
      if t != [] && t[0] == '-' then IntMin else IntMax
  }

  /** `getRunCount`: 0 when the counter file cannot be opened, its number otherwise. */
  function RunCount(counter: Option<string>): (n: int)
    ensures counter.None? ==> n == 0
    ensures counter.Some? ==> n == StreamInt(counter.value)
  {
    match counter
    case None => 0
    case Some(text) => StreamInt(text)
  }

  /** A count the launcher wrote reads back as itself. */
  lemma RunCountRoundTrip(n: int)
    requires IsInt32(n)
    ensures RunCount(Some(IntToString(n))) == n
  {
    StoiRoundTrip(n);
  }

  /** A counter file holding a count the launcher wrote reads back as that count. */
  lemma WrittenCountReads(c: Option<string>, cur: int)
    requires IsInt32(cur + 1) && c == Some(IntToString(cur + 1))
    ensures RunCount(c) == cur + 1
  {
    RunCountRoundTrip(cur + 1);
  }

  /**
   * What one launch decides from the day's counter and the local minute:
   * the count read, whether the query goes ahead, and whether the time is
   * in an advised window (which is only logged).
   */
  datatype Launch = Launch(runCount: int, proceeds: bool, advised: bool)

  function Decide(counter: Option<string>, minute: int): (l: Launch)
    ensures l.runCount == RunCount(counter)
    ensures l.proceeds <==> RunCount(counter) < MaxRuns
    ensures l.advised == IsInTradingTime(minute)
  {
    var c := RunCount(counter);
    Launch(c, c < MaxRuns, IsInTradingTime(minute))
  }

  /** Being outside the advised windows never stops a run. */
  lemma WindowOnlyAdvises(counter: Option<string>, m1: int, m2: int)
    ensures Decide(counter, m1).proceeds == Decide(counter, m2).proceeds
  {
  }

  /** The files the launcher sees, by path. */
  class CounterFiles {
    var files: map<string, string>

    constructor(files: map<string, string>)
      ensures this.files == files
    {
      this.files := files;
    }

    /** The counter file's text, or None when there is none. */
    function Counter(path: string): (c: Option<string>)
      reads this
      ensures c.Some? <==> path in files
      ensures c.Some? ==> c.value == files[path]
    {
      if path in files then Some(files[path]) else None
    }

    /**
     * The launcher's `main` from the count check on.  A count of 2 or more exits with 0
     * and writes nothing.  Otherwise `count + 1` is written (when the file
     * can be opened for writing) before the trading interface is created;
     * the query runs when that succeeds, and the exit code is -1 when it
     * does not, with the run already counted.
     */
    method LaunchQuery(dir: string, year: int, month: nat, day: nat, minute: int, writeOk: bool, createOk: bool)
      returns (exitCode: int, queried: bool)
      modifies this
      ensures var path := CounterFilePath(dir, year, month, day);
        var l := Decide(old(Counter(path)), minute);
        && (!l.proceeds ==> files == old(files) && exitCode == 0 && !queried)
        && (l.proceeds && writeOk ==> files == old(files)[path := IntToString(l.runCount + 1)])
        && (l.proceeds && !writeOk ==> files == old(files))
        && (l.proceeds ==> queried == createOk && exitCode == (if createOk then 0 else -1))
    {
      var path := CounterFilePath(dir, year, month, day);
      var runCount := RunCount(Counter(path));
      if runCount >= MaxRuns {
        return 0, false;
      }
      if writeOk {
        files := files[path := IntToString(runCount + 1)];
      }
      if createOk {
        return 0, true;
      }
      return -1, false;
    }

    /**
     * One launch whose counter write succeeds, seen from the counter: it
     * goes ahead exactly when the count read is below 2, and then leaves a
     * counter reading one more; otherwise the counter stays as it was.
     */
    method CountedLaunch(dir: string, year: int, month: nat, day: nat, minute: int, createOk: bool)
      returns (wentAhead: bool, queried: bool)
      modifies this
      ensures var path := CounterFilePath(dir, year, month, day);
        var cur := RunCount(old(Counter(path)));
        && (wentAhead <==> cur < MaxRuns)
        && (wentAhead ==> RunCount(Counter(path)) == cur + 1)
        && (!wentAhead ==> Counter(path) == old(Counter(path)))
        && (queried ==> wentAhead)
    {
      var path := CounterFilePath(dir, year, month, day);
      ghost var cur := RunCount(Counter(path));
      var exitCode: int;
      exitCode, queried := LaunchQuery(dir, year, month, day, minute, true, createOk);
      wentAhead := queried || exitCode != 0;
      if wentAhead {
        WrittenCountReads(Counter(path), cur);
      }
    }

    /**
     * A day of launches on one date, one after the other, each writing its
     * count successfully: `launches` gives each launch's local minute and
     * whether the trading interface is created.  `goAheads` counts the
     * launches that pass the count check and `queries` those that also
     * query.  A day that starts without a counter file sees at most two
     * go-aheads, and two once it has two launches.
     */
    method LaunchDay(dir: string, year: int, month: nat, day: nat, launches: seq<(int, bool)>)
      returns (goAheads: nat, queries: nat)
      modifies this
      ensures goAheads == QueriesFrom(RunCount(old(Counter(CounterFilePath(dir, year, month, day)))), |launches|)
      ensures queries <= goAheads
      ensures old(Counter(CounterFilePath(dir, year, month, day))).None? ==>
        goAheads <= MaxRuns && (|launches| >= 2 ==> goAheads == MaxRuns)
    {
      ghost var first := Counter(CounterFilePath(dir, year, month, day));
      goAheads, queries := Launches(dir, year, month, day, launches);
      if first.None? {
        AtMostTwoQueriesADay(|launches|);
      }
    }

    /** The launches of `LaunchDay` in turn: the go-aheads are `QueriesFrom` the count read before the first. */
    method Launches(dir: string, year: int, month: nat, day: nat, launches: seq<(int, bool)>)
      returns (goAheads: nat, queries: nat)
      modifies this
      ensures goAheads == QueriesFrom(RunCount(old(Counter(CounterFilePath(dir, year, month, day)))), |launches|)
      ensures queries <= goAheads
      decreases |launches|
    {
      if launches == [] {
        return 0, 0;
      }
      ghost var path := CounterFilePath(dir, year, month, day);
      ghost var c := RunCount(Counter(path));
      ghost var n := |launches| - 1;
      assert |launches[1..]| == n;
      var wentAhead, queried := CountedLaunch(dir, year, month, day, launches[0].0, launches[0].1);
      ghost var c1 := RunCount(Counter(path));
      assert c1 == if wentAhead then c + 1 else c;
      goAheads, queries := Launches(dir, year, month, day, launches[1..]);
      assert goAheads == QueriesFrom(c1, n);
      if wentAhead {
        goAheads := goAheads + 1;
        if queried {
          queries := queries + 1;
        }
      }
      assert QueriesFrom(c, n + 1) == if c < MaxRuns then 1 + QueriesFrom(c + 1, n) else QueriesFrom(c, n);
    }
  }

  function Min(a: int, b: int): int
  {
    if a < b then a else b
  }

  /** `QueriesFrom` in closed form: `2 - count` when below 2 and that many launches come, else what the launches allow. */
  lemma {:induction false} QueriesFromClosed(count: int, n: nat)
    ensures QueriesFrom(count, n) == (if count < MaxRuns then Min(n, MaxRuns - count) else 0)
    decreases n
  {
    if n > 0 {
      if count < MaxRuns {
        QueriesFromClosed(count + 1, n - 1);
      } else {
        QueriesFromClosed(count, n - 1);
      }
    }
  }

  /**
   * The queries made by `n` launches on one day, each writing its count
   * successfully, when the counter reads `count` before the first: a
   * launch that goes ahead leaves a counter that reads `count + 1` (see
   * `RunCountRoundTrip`), one that stops leaves it as it was.
   */
  function QueriesFrom(count: int, n: nat): (q: nat)
    ensures q <= n
    decreases n
  {
    if n == 0 then 0
    else if count < MaxRuns then 1 + QueriesFrom(count + 1, n - 1)
    else QueriesFrom(count, n - 1)
  }

  /** From a counter reading `k` (0, 1 or 2), at most `2 - k` more queries run that day. */
  lemma {:induction false} QueriesAfterCount(k: int, n: nat)
    requires 0 <= k <= MaxRuns
    ensures QueriesFrom(k, n) <= MaxRuns - k
    decreases n
  {
    if n > 0 {
      if k < MaxRuns {
        QueriesAfterCount(k + 1, n - 1);
      } else {
        QueriesAfterCount(k, n - 1);
      }
    }
  }

  /**
   * A day that starts without a counter file sees at most two queries,
   * however often the launcher runs, and the counter then reads 2.
   */
  lemma AtMostTwoQueriesADay(n: nat)
    ensures QueriesFrom(RunCount(None), n) <= MaxRuns
    ensures n >= 2 ==> QueriesFrom(RunCount(None), n) == MaxRuns
  {
    QueriesAfterCount(0, n);
    if n >= 2 {
      assert QueriesFrom(1, n - 1) == 1 + QueriesFrom(2, n - 2);
    }
  }
}
