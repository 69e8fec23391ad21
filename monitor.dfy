// The position and account monitor: a trading-session test on the minute
// of the day, two polling threads that ask the trading front for
// positions (every 30 s) and for the account (every 10 s) while connected
// and in session, and the connection flag the monitor thread raises.
// Threads are modelled as their loop iterations, each fed the clock
// readings and answers it would observe.
module Monitor {
  /** Session boundaries in minutes after midnight: 9:00, 15:00, 21:00 and 2:30. */
  const DayStart: int := 9 * 60
  const DayEnd: int := 15 * 60
  const NightStart: int := 21 * 60
  const NightEnd: int := 2 * 60 + 30

  /** Seconds between position queries and between account queries. */
  const PositionInterval: int := 30
  const AccountInterval: int := 10

  /**
   * `isInTradingSession`, given the local minute of the day: the day
   * session and the night session that runs past midnight, both ends
   * included.
   */
  function IsInTradingSession(t: int): (b: bool)
  {
    if DayStart <= t <= DayEnd then true
    else if t >= NightStart || t <= NightEnd then true
    else false
  }

  /**
   * On a clock reading `hour:minute`: in session from 9:00 up to and
   * including 15:00, from 21:00 on, and up to and including 2:30.
   */
  lemma SessionOnClock(hour: int, minute: int)
    requires 0 <= hour < 24 && 0 <= minute < 60
    ensures IsInTradingSession(hour * 60 + minute) <==>
      (9 <= hour < 15) || (hour == 15 && minute == 0) || hour >= 21 || hour < 2 || (hour == 2 && minute <= 30)
  {
  }

  /** The boundaries: 15:00 and 2:30 are in, 15:01, 2:31, 8:59 and 20:59 are out. */
  lemma SessionBoundaries()
    ensures IsInTradingSession(15 * 60) && IsInTradingSession(2 * 60 + 30)
    ensures IsInTradingSession(9 * 60) && IsInTradingSession(21 * 60) && IsInTradingSession(0)
    ensures !IsInTradingSession(15 * 60 + 1) && !IsInTradingSession(2 * 60 + 31)
    ensures !IsInTradingSession(8 * 60 + 59) && !IsInTradingSession(20 * 60 + 59)
  {
  }

  // ---------------------------------------------------------------------
  // Polling threads

  /**
   * What one pass of a query thread observes: the steady-clock reading in
   * seconds, whether the trading front is connected, the minute of the
   * day at the first session test and at the second one, and whether the
   * answer arrives within the wait.
   */
  datatype Sample = Sample(now: int, connected: bool, firstMinute: int, secondMinute: int, answered: bool)

  /**
   * A thread's state: the time of the last query (or of the last skip
   * outside the session), the ready flag the answer sets, and the times of
   * the queries issued so far.
   */
  datatype PollState = PollState(lastQueryTime: int, ready: bool, requests: seq<int>)

  /** Whether a pass issues a query: the interval elapsed, connected, in session. */
  predicate Queries(st: PollState, interval: int, s: Sample)
  {
    s.now - st.lastQueryTime >= interval && s.connected && IsInTradingSession(s.firstMinute)
  }

  /**
   * One pass of the loop.  Once the interval has elapsed: when connected
   * and in session the ready flag is cleared, the query issued, and the
   * flag then holds whether the answer came; `lastQueryTime` moves to
   * `now`.  Otherwise, when the second session test finds the time out of
   * session, only `lastQueryTime` moves; disconnected within the session
   * nothing changes, so the next pass tries again.
   */
  function Poll(st: PollState, interval: int, s: Sample): (st': PollState)
    ensures Queries(st, interval, s) ==>
      st' == PollState(s.now, s.answered, st.requests + [s.now])
    ensures !Queries(st, interval, s) ==> st'.requests == st.requests && st'.ready == st.ready
    ensures st'.lastQueryTime == st.lastQueryTime || st'.lastQueryTime == s.now
    ensures s.now - st.lastQueryTime < interval ==> st' == st
  {
    if s.now - st.lastQueryTime >= interval then
      if s.connected && IsInTradingSession(s.firstMinute) then
        PollState(s.now, s.answered, st.requests + [s.now])
      else if !IsInTradingSession(s.secondMinute) then
        st.(lastQueryTime := s.now)
      else st
    else st
  }

  /** The state after the given passes. */
  function Rounds(st: PollState, interval: int, samples: seq<Sample>): (st': PollState)
    decreases |samples|
  {
    if samples == [] then st
    else
      var n := |samples| - 1;
      Poll(Rounds(st, interval, samples[..n]), interval, samples[n])
  }

  /** Queries at least `interval` apart, none after `lastQueryTime`. */
  predicate Spaced(st: PollState, interval: int)
  {
    (forall i :: 0 <= i < |st.requests| ==> st.requests[i] <= st.lastQueryTime)
    && (forall i :: 0 < i < |st.requests| ==> st.requests[i - 1] + interval <= st.requests[i])
  }

  /** Steady-clock readings that never go back, starting no earlier than `t0`. */
  predicate Steady(t0: int, samples: seq<Sample>)
  {
    (samples != [] ==> t0 <= samples[0].now)
    && forall i :: 0 < i < |samples| ==> samples[i - 1].now <= samples[i].now
  }

  class QueryThread {
    /** `queryInterval`, in seconds. */
    const interval: int
    /** `lastQueryTime`. */
    var lastQueryTime: int
    /** `isPositionReady` or `isTradingAccountReady`. */
    var ready: bool
    /** The times at which `ReqInvestorPositions` or `ReqTradingAccount` was called. */
    var requests: seq<int>

    function State(): PollState
      reads this
    {
      PollState(lastQueryTime, ready, requests)
    }

    /** The thread starts with `lastQueryTime` at the start time and nothing asked. */
    constructor(interval: int, start: int)
      ensures this.interval == interval && State() == PollState(start, false, [])
    {
      this.interval := interval;
      lastQueryTime := start;
      ready := false;
      requests := [];
    }

    /** One pass of `positionQueryThread` or `accountQueryThread`. */
    method Step(s: Sample)
      modifies this
      ensures State() == Poll(old(State()), interval, s)
    {
      if s.now - lastQueryTime >= interval {
        if s.connected && IsInTradingSession(s.firstMinute) {
          ready := false;
          requests := requests + [s.now];
          ready := s.answered;
          lastQueryTime := s.now;
        } else if !IsInTradingSession(s.secondMinute) {
          lastQueryTime := s.now;
        }
      }
    }

    /** The `while (running)` loop, over the passes made before `running` was cleared. */
    method Run(samples: seq<Sample>)
      modifies this
      ensures State() == Rounds(old(State()), interval, samples)
    {
      var i := 0;
      while i < |samples|
        invariant 0 <= i <= |samples|
        invariant State() == Rounds(old(State()), interval, samples[..i])
      {
        assert samples[..i + 1][..i] == samples[..i];
        Step(samples[i]);
        i := i + 1;
      }
      assert samples[..i] == samples;
    }
  }

  // ---------------------------------------------------------------------
  // Properties of the polling rule

  /** A pass adds a query exactly when the interval elapsed, the front is connected and the time is in session. */
  lemma QueryExactlyWhen(st: PollState, interval: int, s: Sample)
    ensures |Poll(st, interval, s).requests| == |st.requests| + 1 <==> Queries(st, interval, s)
    ensures |Poll(st, interval, s).requests| != |st.requests| + 1 ==> |Poll(st, interval, s).requests| == |st.requests|
  {
  }

  /** Disconnected within the session, `lastQueryTime` stays, so the query is retried on the next pass. */
  lemma DisconnectedKeepsTime(st: PollState, interval: int, s: Sample)
    requires !s.connected && IsInTradingSession(s.secondMinute)
    ensures Poll(st, interval, s) == st
  {
  }

  /** Out of session (by the second test) with the interval elapsed and no query, `lastQueryTime` moves to now. */
  lemma OutOfSessionMovesTime(st: PollState, interval: int, s: Sample)
    requires s.now - st.lastQueryTime >= interval && !Queries(st, interval, s)
    requires !IsInTradingSession(s.secondMinute)
    ensures Poll(st, interval, s).lastQueryTime == s.now
  {
  }

  /** A pass keeps the queries at least `interval` apart. */
  lemma PollSpaced(st: PollState, interval: int, s: Sample)
    requires Spaced(st, interval) && st.lastQueryTime <= s.now
    ensures Spaced(Poll(st, interval, s), interval)
  {
    if Queries(st, interval, s) {
      var r := st.requests + [s.now];
      assert forall i :: 0 <= i < |st.requests| ==> r[i] == st.requests[i];
    }
  }

  /**
   * Over passes with a steady clock, the queries a thread issues stay at
   * least `interval` apart: positions every 30 s at most, the account
   * every 10 s at most.
   */
  lemma {:induction false} RoundsSpaced(st: PollState, interval: int, samples: seq<Sample>)
    requires Spaced(st, interval) && Steady(st.lastQueryTime, samples)
    ensures Spaced(Rounds(st, interval, samples), interval)
    ensures samples != [] ==> Rounds(st, interval, samples).lastQueryTime <= samples[|samples| - 1].now
    ensures samples == [] ==> Rounds(st, interval, samples).lastQueryTime == st.lastQueryTime
    decreases |samples|
  {
    if samples != [] {
      var n := |samples| - 1;
      var pre := samples[..n];
      assert Steady(st.lastQueryTime, pre);
      RoundsSpaced(st, interval, pre);
      if n > 0 {
        assert samples[n - 1].now <= samples[n].now;
      }
      PollSpaced(Rounds(st, interval, pre), interval, samples[n]);
    }
  }

  // ---------------------------------------------------------------------
  // Connection flag

  /** `connectionMonitorThread`'s `ctpConnected`. */
  class ConnectionMonitor {
    var ctpConnected: bool

    /** `ctpConnected(false)`. */
    constructor()
      ensures !ctpConnected
    {
      ctpConnected := false;
    }

    /**
     * One pass: with a trader object in place the flag is raised; it is
     * never lowered.
     */
    method Check(traderExists: bool)
      modifies this
      ensures ctpConnected == Raised(old(ctpConnected), traderExists)
    {
      if traderExists {
        if !ctpConnected {
          ctpConnected := true;
        }
      }
    }
  }

  /** The flag after one check. */
  function Raised(connected: bool, traderExists: bool): (c: bool)
  {
    connected || traderExists
  }

  /** The flag after a run of checks, one per pass. */
  function RaisedAfter(connected: bool, checks: seq<bool>): (c: bool)
    decreases |checks|
  {
    if checks == [] then connected
    else Raised(RaisedAfter(connected, checks[..|checks| - 1]), checks[|checks| - 1])
  }

  /**
   * The flag only goes from false to true: it holds after a run of checks
   * exactly when it held before or some check saw the trader object.
   */
  lemma {:induction false} RaisedMonotone(connected: bool, checks: seq<bool>)
    ensures RaisedAfter(connected, checks) <==> connected || true in checks
    decreases |checks|
  {
    if checks != [] {
      var n := |checks| - 1;
      RaisedMonotone(connected, checks[..n]);
      assert checks == checks[..n] + [checks[n]];
      assert true in checks <==> true in checks[..n] || checks[n];
    }
  }
}
