// The main program of the older, string-based quote publisher.  It first
// runs the trader session until the instrument list is complete, then
// starts the market-data session, connects a ZMQ push socket, sends one
// ready message, and loops: drain the overflow queue (a line whose send
// fails goes back to its tail), then send at most one fresh line from the
// primary queue (a failed one goes to the overflow queue, or to standard
// error when that is full), until the wall clock passes the exit time.
//
// As in the raw-tick program, the clock, the outcome of every send and the
// callbacks' arrivals are inputs; the drain has no way out while a line
// keeps failing, so it is given a finite list of send outcomes.
module LegacyMain {
  import opened Wrappers
  import opened Queues
  import Trader
  import RawQuote
  import LegacyQuote

  const PrimaryCapacity: nat := 10000
  const OverflowCapacity: nat := 500000
  const SendHighWaterMark: int := 10000
  const SendTimeoutMs: int := 200
  const ReadyMessage: string := "EL/CTP_READY/CTP/H/1 || ctp_ready"

  // ---------------------------------------------------------------------
  // The push socket

  /** The ZMQ push socket: its options, where it is connected, and every message it accepted. */
  class PushSocket {
    var sndhwm: int
    var sndtimeo: int
    var endpoint: Option<string>
    var sent: seq<string>

    constructor ()
      ensures endpoint == None && sent == []
    {
      sndhwm := 1000;
      sndtimeo := -1;
      endpoint := None;
      sent := [];
    }

    /** The two `setsockopt` calls before connecting. */
    method SetOptions()
      modifies this
      ensures sndhwm == SendHighWaterMark && sndtimeo == SendTimeoutMs
      ensures endpoint == old(endpoint) && sent == old(sent)
    {
      sndhwm := SendHighWaterMark;
      sndtimeo := SendTimeoutMs;
    }

    method Connect(server: string)
      modifies this
      ensures endpoint == Some(server)
      ensures sndhwm == old(sndhwm) && sndtimeo == old(sndtimeo) && sent == old(sent)
    {
      endpoint := Some(server);
    }

    /**
     * `send`: `accepted` is whether the socket took the message within the
     * send timeout; the result says so and an accepted message is sent.
     */
    method Send(msg: string, accepted: bool) returns (ok: bool)
      modifies this
      ensures ok == accepted
      ensures sent == old(sent) + (if accepted then [msg] else [])
      ensures sndhwm == old(sndhwm) && sndtimeo == old(sndtimeo) && endpoint == old(endpoint)
    {
      ok := accepted;
      if accepted {
        sent := sent + [msg];
      }
    }
  }

  // ---------------------------------------------------------------------
  // The overflow drain

  /** Where the drain has got to: the lines still queued, the send outcomes used, what the socket took. */
  datatype LDrained = LDrained(rest: seq<string>, used: nat, sent: seq<string>)

  /** One pass of the drain loop: the head line is sent with the next outcome, and put back at the tail when the send fails. */
  function LDrainStep(d: LDrained, attempts: seq<bool>): (e: LDrained)
    requires d.rest != [] && d.used < |attempts|
    ensures e.used == d.used + 1
  {
    var m := d.rest[0];
    if attempts[d.used] then LDrained(d.rest[1..], d.used + 1, d.sent + [m])
    else LDrained(d.rest[1..] + [m], d.used + 1, d.sent)
  }

  /** The drain run to its end: it ends when the queue is empty, or when the send outcomes run out. */
  function LDrainFrom(d: LDrained, attempts: seq<bool>): (r: LDrained)
    decreases |attempts| - d.used
  {
    if d.rest == [] || d.used >= |attempts| then d
    else LDrainFrom(LDrainStep(d, attempts), attempts)
  }

  /**
   * No line is lost by the drain: each one is still queued or was sent, the
   * lines sent before are kept in front, and the drain stops only when the
   * queue is empty or every send outcome is used.
   */
  lemma {:induction false} LDrainFacts(d: LDrained, attempts: seq<bool>)
    requires d.used <= |attempts|
    ensures var r := LDrainFrom(d, attempts);
      && multiset(r.rest) + multiset(r.sent) == multiset(d.rest) + multiset(d.sent)
      && |r.sent| >= |d.sent| && r.sent[..|d.sent|] == d.sent
      && (r.rest == [] || r.used == |attempts|)
      && d.used <= r.used <= |attempts|
    decreases |attempts| - d.used
  {
    if d.rest != [] && d.used < |attempts| {
      var m := d.rest[0];
      assert d.rest == [m] + d.rest[1..];
      var e := LDrainStep(d, attempts);
      LDrainFacts(e, attempts);
      var r := LDrainFrom(e, attempts);
      assert r.sent[..|e.sent|][..|d.sent|] == r.sent[..|d.sent|];
    }
  }

  /**
   * Every send fails: the queue never empties and nothing is sent, however
   * many attempts are made; the program's drain loop does not terminate.
   */
  lemma {:induction false} LDrainLivelock(d: LDrained, attempts: seq<bool>)
    requires d.rest != [] && d.used <= |attempts|
    requires forall i :: d.used <= i < |attempts| ==> !attempts[i]
    ensures var r := LDrainFrom(d, attempts);
      r.rest != [] && r.sent == d.sent && r.used == |attempts| && multiset(r.rest) == multiset(d.rest)
    decreases |attempts| - d.used
  {
    if d.used < |attempts| {
      var m := d.rest[0];
      assert d.rest == [m] + d.rest[1..];
      assert LDrainStep(d, attempts) == LDrained(d.rest[1..] + [m], d.used + 1, d.sent);
      LDrainLivelock(LDrainStep(d, attempts), attempts);
    }
  }

  /** Every send succeeds and there are enough of them: the queue is sent out in order. */
  lemma {:induction false} LDrainInOrder(d: LDrained, attempts: seq<bool>)
    requires d.used + |d.rest| <= |attempts|
    requires forall i :: d.used <= i < |attempts| ==> attempts[i]
    ensures var r := LDrainFrom(d, attempts);
      r.rest == [] && r.sent == d.sent + d.rest && r.used == d.used + |d.rest|
    decreases |attempts| - d.used
  {
    if d.rest != [] {
      var m := d.rest[0];
      assert LDrainStep(d, attempts) == LDrained(d.rest[1..], d.used + 1, d.sent + [m]);
      LDrainInOrder(LDrainStep(d, attempts), attempts);
      assert d.sent + [m] + d.rest[1..] == d.sent + d.rest;
    }
  }

  /**
   * The `while (bufq.try_dequeue(msg))` loop over the real queue and
   * socket.  The dequeue just freed a slot, so putting a failed line back
   * never reaches the standard-error branch.
   */
  method Drain(bufq: BoundedQueue<string>, sock: PushSocket, attempts: seq<bool>) returns (used: nat)
    requires bufq.Valid()
    modifies bufq, sock
    ensures bufq.Valid()
    ensures LDrained(bufq.items, used, sock.sent) == LDrainFrom(LDrained(old(bufq.items), 0, old(sock.sent)), attempts)
    ensures sock.sndhwm == old(sock.sndhwm) && sock.sndtimeo == old(sock.sndtimeo) && sock.endpoint == old(sock.endpoint)
  {
    ghost var whole := LDrainFrom(LDrained(bufq.items, 0, sock.sent), attempts);
    used := 0;
    while bufq.items != [] && used < |attempts|
      invariant bufq.Valid()
      invariant LDrainFrom(LDrained(bufq.items, used, sock.sent), attempts) == whole
      invariant sock.sndhwm == old(sock.sndhwm) && sock.sndtimeo == old(sock.sndtimeo)
      invariant sock.endpoint == old(sock.endpoint)
      decreases |attempts| - used
    {
      ghost var d := LDrained(bufq.items, used, sock.sent);
      var m := bufq.TryDequeue();
      var msg := m.value;
      var ok := sock.Send(msg, attempts[used]);
      if !ok {
        var back := bufq.TryEnqueue(msg);
        assert back;
      }
      used := used + 1;
      assert LDrained(bufq.items, used, sock.sent) == LDrainStep(d, attempts);
    }
  }

  // ---------------------------------------------------------------------
  // One iteration

  /** The queues, what the socket took, and the lines written to standard error. */
  datatype LState = LState(q: seq<string>, bufq: seq<string>, sent: seq<string>, lost: seq<string>)

  datatype LOutcome = Exit | Stuck | Idle | Sent | Requeued | Spilled

  datatype LStepResult = LStepResult(state: LState, out: LOutcome)

  /**
   * The fresh line, once the overflow queue is empty: sleep when `q` is
   * empty; otherwise take its head and send it, putting it in the overflow
   * queue when the send fails, or on standard error when that is full.
   */
  function LFresh(s: LState, bufCap: nat, freshOk: bool): LStepResult
  {
    if s.q == [] then LStepResult(s, Idle)
    else
      var m := s.q[0];
      var s1 := s.(q := s.q[1..]);
      if freshOk then LStepResult(s1.(sent := s.sent + [m]), Sent)
      else if |s.bufq| < bufCap then LStepResult(s1.(bufq := s.bufq + [m]), Requeued)
      else LStepResult(s1.(lost := s.lost + [m]), Spilled)
  }

  /**
   * One pass of the `for (;;)` body: exit when the exit time is behind
   * `now`; drain the overflow queue; then handle one fresh line.
   */
  function LStep(s: LState, now: int, exitTs: int, bufCap: nat, attempts: seq<bool>, freshOk: bool): LStepResult
  {
    if exitTs < now then LStepResult(s, Exit)
    else
      var d := LDrainFrom(LDrained(s.bufq, 0, s.sent), attempts);
      var s1 := s.(bufq := d.rest, sent := d.sent);
      if d.rest != [] then LStepResult(s1, Stuck)
      else LFresh(s1, bufCap, freshOk)
  }

  /** Every line the state accounts for: waiting in `q` or on standard error, and in the overflow queue or sent. */
  function Held(s: LState): multiset<string>
  {
    (multiset(s.q) + multiset(s.lost)) + (multiset(s.bufq) + multiset(s.sent))
  }

  /** What the one fresh line keeps: it is sent, requeued or spilled, and taken from the head of `q`. */
  lemma LFreshFacts(s: LState, bufCap: nat, freshOk: bool)
    ensures var r := LFresh(s, bufCap, freshOk);
      && Held(r.state) == Held(s)
      && (r.state.q == s.q || (s.q != [] && r.state.q == s.q[1..]))
      && (r.out == Idle <==> s.q == [])
      && |r.state.sent| >= |s.sent| && r.state.sent[..|s.sent|] == s.sent
      && |r.state.lost| <= |s.lost| + 1
  {
    if s.q != [] {
      var m := s.q[0];
      assert s.q == [m] + s.q[1..];
      assert multiset(s.q) == multiset(s.q[1..]) + multiset{m};
      var r := LFresh(s, bufCap, freshOk);
      if freshOk {
        assert r.state.sent == s.sent + [m];
        assert r.state.sent[..|s.sent|] == s.sent;
      } else if |s.bufq| < bufCap {
        assert multiset(r.state.bufq) == multiset(s.bufq) + multiset{m};
      } else {
        assert multiset(r.state.lost) == multiset(s.lost) + multiset{m};
      }
    }
  }

  /**
   * What one iteration keeps: every line is still queued, sent or on
   * standard error; at most one line leaves `q`, and only from its head;
   * lines sent before stay in front; nothing is ever put back in `q`; the
   * loop exits exactly when the exit time is behind `now`.
   */
  lemma LStepFacts(s: LState, now: int, exitTs: int, bufCap: nat, attempts: seq<bool>, freshOk: bool)
    ensures var r := LStep(s, now, exitTs, bufCap, attempts, freshOk);
      && Held(r.state) == Held(s)
      && (r.state.q == s.q || (s.q != [] && r.state.q == s.q[1..]))
      && (r.out == Exit <==> exitTs < now)
      && (r.out == Exit ==> r.state == s)
      && |r.state.sent| >= |s.sent| && r.state.sent[..|s.sent|] == s.sent
      && |r.state.lost| <= |s.lost| + 1
  {
    if exitTs >= now {
      var d := LDrainFrom(LDrained(s.bufq, 0, s.sent), attempts);
      LDrainFacts(LDrained(s.bufq, 0, s.sent), attempts);
      var s1 := s.(bufq := d.rest, sent := d.sent);
      assert multiset(s1.bufq) + multiset(s1.sent) == multiset(s.bufq) + multiset(s.sent);
      if d.rest != [] {
        assert LStep(s, now, exitTs, bufCap, attempts, freshOk) == LStepResult(s1, Stuck);
      } else {
        assert LStep(s, now, exitTs, bufCap, attempts, freshOk) == LFresh(s1, bufCap, freshOk);
        LFreshFacts(s1, bufCap, freshOk);
        var r := LFresh(s1, bufCap, freshOk);
        assert r.state.sent[..|s1.sent|][..|s.sent|] == r.state.sent[..|s.sent|];
      }
    }
  }

  /** One iteration over the real queues and socket. */
  method Iteration(now: int, exitTs: int, q: BoundedQueue<string>, bufq: BoundedQueue<string>, sock: PushSocket,
                   attempts: seq<bool>, freshOk: bool, lost0: seq<string>)
    returns (out: LOutcome, lost: seq<string>)
    requires q.Valid() && bufq.Valid() && q != bufq
    modifies q, bufq, sock
    ensures q.Valid() && bufq.Valid()
    ensures LStep(LState(old(q.items), old(bufq.items), old(sock.sent), lost0), now, exitTs, bufq.capacity, attempts, freshOk)
      == LStepResult(LState(q.items, bufq.items, sock.sent, lost), out)
    ensures sock.sndhwm == old(sock.sndhwm) && sock.sndtimeo == old(sock.sndtimeo) && sock.endpoint == old(sock.endpoint)
  {
    lost := lost0;
    if exitTs < now {
      return Exit, lost;
    }
    ghost var s0 := LState(q.items, bufq.items, sock.sent, lost0);
    var used := Drain(bufq, sock, attempts);
    ghost var s1 := LState(q.items, bufq.items, sock.sent, lost0);
    assert s1 == s0.(bufq := bufq.items, sent := sock.sent);
    if bufq.items != [] {
      return Stuck, lost;
    }
    var m := q.TryDequeue();
    if m.None? {
      return Idle, lost;
    }
    var msg := m.value;
    var ok := sock.Send(msg, freshOk);
    if ok {
      return Sent, lost;
    }
    var kept := bufq.TryEnqueue(msg);
    if kept {
      out := Requeued;
    } else {
      lost := lost + [msg];
      out := Spilled;
    }
  }

  // ---------------------------------------------------------------------
  // The whole program

  /** A tick as the callback receives it, with the local date and receive time it is stamped with. */
  datatype Arrival = Arrival(tick: LegacyQuote.Tick, localDate: string, stamp: string)

  /** What happens before and during one iteration: the clock, the callback's arrivals, the send outcomes. */
  datatype LSlot = LSlot(now: int, arrivals: seq<Arrival>, attempts: seq<bool>, freshOk: bool)

  /** How the program ends: with an exit code, waiting for ever, or beyond the given schedule. */
  datatype Ending = Returned(code: int) | NeverReady | ExitedAt(slot: nat) | StuckAt(slot: nat) | OutOfSchedule

  /** A line the market callback made: it starts with the tick topic. */
  predicate IsTickLine(m: string)
  {
    |m| >= 10 && m[..10] == "EL/CTP_XZ/"
  }

  predicate AllTickLines(s: seq<string>)
  {
    forall i :: 0 <= i < |s| ==> IsTickLine(s[i])
  }

  /** The ready message is not a tick line. */
  lemma ReadyIsNoTick()
    ensures !IsTickLine(ReadyMessage)
  {
    assert ReadyMessage[7] == 'R';
  }

  lemma AllTickLinesAppend(a: seq<string>, b: seq<string>)
    requires AllTickLines(a) && AllTickLines(b)
    ensures AllTickLines(a + b)
  {
  }

  /** The callback delivers each arrival in turn; the lines the full queue refused are returned. */
  method Deliver(arrivals: seq<Arrival>, decSymbols: seq<string>, tooHigh: string -> bool, q: BoundedQueue<string>)
    returns (spilled: seq<string>)
    requires q.Valid()
    modifies q
    ensures q.Valid()
    ensures |q.items| >= |old(q.items)| && q.items[..|old(q.items)|] == old(q.items)
    ensures AllTickLines(q.items[|old(q.items)|..]) && AllTickLines(spilled)
    ensures |q.items| - |old(q.items)| + |spilled| == |arrivals|
  {
    spilled := [];
    var i := 0;
    while i < |arrivals|
      invariant 0 <= i <= |arrivals| && q.Valid()
      invariant |q.items| >= |old(q.items)| && q.items[..|old(q.items)|] == old(q.items)
      invariant AllTickLines(q.items[|old(q.items)|..]) && AllTickLines(spilled)
      invariant |q.items| - |old(q.items)| + |spilled| == i
    {
      var a := arrivals[i];
      ghost var before := q.items;
      var line, s := LegacyQuote.OnRtnDepthMarketData(a.tick, decSymbols, a.localDate, a.stamp, tooHigh, q);
      LegacyQuote.LineTopic(a.tick, decSymbols, a.localDate, a.stamp, tooHigh);
      if s.Some? {
        spilled := spilled + [line];
      } else {
        assert q.items[|old(q.items)|..] == before[|old(q.items)|..] + [line];
      }
      i := i + 1;
    }
  }

  /** The drain moves tick lines only: queued and sent lines after position `k` stay tick lines. */
  lemma {:induction false} LDrainLines(d: LDrained, attempts: seq<bool>, k: nat)
    requires k <= |d.sent| && AllTickLines(d.rest) && AllTickLines(d.sent[k..])
    ensures var r := LDrainFrom(d, attempts);
      k <= |r.sent| && AllTickLines(r.rest) && AllTickLines(r.sent[k..])
    decreases |attempts| - d.used
  {
    if d.rest != [] && d.used < |attempts| {
      var m := d.rest[0];
      var e := LDrainStep(d, attempts);
      if attempts[d.used] {
        assert e.sent[k..] == d.sent[k..] + [m];
      } else {
        assert e.rest == d.rest[1..] + [m];
      }
      LDrainLines(e, attempts, k);
    }
  }

  /** One iteration moves tick lines only. */
  lemma LStepLines(s: LState, now: int, exitTs: int, bufCap: nat, attempts: seq<bool>, freshOk: bool, k: nat)
    requires k <= |s.sent| && AllTickLines(s.q) && AllTickLines(s.bufq) && AllTickLines(s.sent[k..])
    ensures var r := LStep(s, now, exitTs, bufCap, attempts, freshOk);
      k <= |r.state.sent| && AllTickLines(r.state.q) && AllTickLines(r.state.bufq) && AllTickLines(r.state.sent[k..])
  {
    if exitTs >= now {
      var d := LDrainFrom(LDrained(s.bufq, 0, s.sent), attempts);
      LDrainLines(LDrained(s.bufq, 0, s.sent), attempts, k);
      var s1 := s.(bufq := d.rest, sent := d.sent);
      if d.rest == [] && s1.q != [] {
        var m := s1.q[0];
        var r := LFresh(s1, bufCap, freshOk);
        if freshOk {
          assert r.state.sent[k..] == s1.sent[k..] + [m];
        } else if |s1.bufq| < bufCap {
          assert r.state.bufq == s1.bufq + [m];
        }
      }
    }
  }

  /** The lines the socket has taken: the ready message first when it was taken, tick lines after it. */
  predicate ReadyFirst(sent: seq<string>, readyTaken: bool)
  {
    var k := if readyTaken then 1 else 0;
    && k <= |sent| && sent[..k] == (if readyTaken then [ReadyMessage] else [])
    && AllTickLines(sent[k..])
  }

  /** Where the ready message can be found in what the socket took: at the front, and nowhere else. */
  lemma ReadyOnlyFirst(sent: seq<string>, readyTaken: bool)
    requires ReadyFirst(sent, readyTaken)
    ensures readyTaken ==> sent[0] == ReadyMessage
    ensures forall i :: 0 <= i < |sent| && sent[i] == ReadyMessage ==> readyTaken && i == 0
  {
    ReadyIsNoTick();
    var k := if readyTaken then 1 else 0;
    forall i | k <= i < |sent| ensures sent[i] != ReadyMessage {
      assert sent[i] == sent[k..][i - k];
    }
    if readyTaken {
      assert sent[0] == sent[..1][0];
    }
  }

  /**
   * One slot: the callback delivers the slot's arrivals, then the loop
   * runs one iteration.  Lines that reach the socket are tick lines.
   */
  method RunSlot(q: BoundedQueue<string>, bufq: BoundedQueue<string>, sock: PushSocket, exitTs: int,
                 slot: LSlot, decSymbols: seq<string>, tooHigh: string -> bool, ghost readyTaken: bool,
                 lost0: seq<string>)
    returns (out: LOutcome, lost: seq<string>)
    requires q.Valid() && bufq.Valid() && q != bufq
    requires AllTickLines(q.items) && AllTickLines(bufq.items) && ReadyFirst(sock.sent, readyTaken)
    modifies q, bufq, sock
    ensures q.Valid() && bufq.Valid()
    ensures AllTickLines(q.items) && AllTickLines(bufq.items) && ReadyFirst(sock.sent, readyTaken)
    ensures out == Exit <==> exitTs < slot.now
    ensures sock.sndhwm == old(sock.sndhwm) && sock.sndtimeo == old(sock.sndtimeo) && sock.endpoint == old(sock.endpoint)
  {
    ghost var k := if readyTaken then 1 else 0;
    ghost var q0 := q.items;
    var spilled := Deliver(slot.arrivals, decSymbols, tooHigh, q);
    assert q.items == q0 + q.items[|q0|..];
    ghost var s := LState(q.items, bufq.items, sock.sent, lost0 + spilled);
    out, lost := Iteration(slot.now, exitTs, q, bufq, sock, slot.attempts, slot.freshOk, lost0 + spilled);
    LStepLines(s, slot.now, exitTs, bufq.capacity, slot.attempts, slot.freshOk, k);
    LStepFacts(s, slot.now, exitTs, bufq.capacity, slot.attempts, slot.freshOk);
    assert sock.sent[..|s.sent|][..k] == sock.sent[..k];
  }

  /**
   * The `for (;;)` loop with the callback delivering lines between its
   * iterations, one slot after the other, until the loop exits, a drain
   * runs out of send outcomes, or the slots run out.
   */
  method MarketLoop(q: BoundedQueue<string>, bufq: BoundedQueue<string>, sock: PushSocket, exitTs: int,
                    slots: seq<LSlot>, decSymbols: seq<string>, tooHigh: string -> bool, ghost readyTaken: bool)
    returns (end: Ending, lost: seq<string>)
    requires q.Valid() && bufq.Valid() && q != bufq
    requires AllTickLines(q.items) && AllTickLines(bufq.items) && ReadyFirst(sock.sent, readyTaken)
    modifies q, bufq, sock
    ensures ReadyFirst(sock.sent, readyTaken)
    ensures end.ExitedAt? || end.StuckAt? || end == OutOfSchedule
    ensures end.ExitedAt? ==> end.slot < |slots| && exitTs < slots[end.slot].now
    ensures forall j :: 0 <= j < |slots| && (end.ExitedAt? ==> j < end.slot) && (end.StuckAt? ==> j <= end.slot) ==>
      slots[j].now <= exitTs
    ensures sock.sndhwm == old(sock.sndhwm) && sock.sndtimeo == old(sock.sndtimeo) && sock.endpoint == old(sock.endpoint)
  {
    lost := [];
    end := OutOfSchedule;
    var i := 0;
    while i < |slots|
      invariant 0 <= i <= |slots|
      invariant q.Valid() && bufq.Valid()
      invariant AllTickLines(q.items) && AllTickLines(bufq.items) && ReadyFirst(sock.sent, readyTaken)
      invariant forall j :: 0 <= j < i ==> slots[j].now <= exitTs
      invariant sock.sndhwm == old(sock.sndhwm) && sock.sndtimeo == old(sock.sndtimeo)
      invariant sock.endpoint == old(sock.endpoint)
    {
      var out;
      out, lost := RunSlot(q, bufq, sock, exitTs, slots[i], decSymbols, tooHigh, readyTaken, lost);
      if out == Exit {
        return ExitedAt(i), lost;
      }
      if out == Stuck {
        return StuckAt(i), lost;
      }
      i := i + 1;
    }
  }

  lemma SawLastPrefix(events: seq<Trader.Event>, n: nat)
    requires n <= |events| && Trader.SawLast(events[..n])
    ensures Trader.SawLast(events)
  {
    var i :| 0 <= i < n && events[..n][i].RspQryInstrument? && events[..n][i].rspInfo.None?
              && events[..n][i].instrument.Some? && events[..n][i].isLast;
    assert events[i] == events[..n][i];
  }

  /**
   * `main` after its logging set-up: the trader session must come up and
   * complete the instrument list before the market session starts; an empty
   * push server ends the program with -1 before anything is sent; the ready
   * message is offered once, before the loop.  `sent` is what the socket
   * took, `lost` what went to standard error.
   */
  method Program(traderCreated: bool, events: seq<Trader.Event>, mdCreated: bool,
                 now: int, today: int, dayend: RawQuote.ClockTime, nightend: RawQuote.ClockTime,
                 pushServer: string, readyTaken: bool, decSymbols: seq<string>, tooHigh: string -> bool,
                 slots: seq<LSlot>)
    returns (end: Ending, sent: seq<string>, lost: seq<string>)
    requires today <= now < today + 86400
    ensures !traderCreated ==> end == Returned(-1)
    ensures traderCreated && !Trader.SawLast(events) ==> end == NeverReady
    ensures traderCreated && Trader.SawLast(events) && !mdCreated ==> end == Returned(0)
    ensures traderCreated && Trader.SawLast(events) && mdCreated && pushServer == [] ==> end == Returned(-1)
    ensures end.ExitedAt? || end.StuckAt? || end == OutOfSchedule ==>
      traderCreated && Trader.SawLast(events) && mdCreated && pushServer != []
    ensures end.ExitedAt? || end.StuckAt? || end == OutOfSchedule ==> (readyTaken <==> sent != [] && sent[0] == ReadyMessage)
    ensures forall i :: 0 <= i < |sent| && sent[i] == ReadyMessage ==> i == 0
    ensures end.Returned? || end == NeverReady ==> sent == []
    ensures end.ExitedAt? ==>
      (end.slot < |slots| && RawQuote.ExitTime(now, today, dayend, nightend) < slots[end.slot].now)
  {
    sent, lost := [], [];
    var td := new Trader.TraderSpi();
    var ok := td.Create(traderCreated);
    if !ok {
      return Returned(-1), sent, lost;
    }
    var n := td.AwaitReady(events);
    if !td.isReady {
      return NeverReady, sent, lost;
    }
    SawLastPrefix(events, n);
    var md := new RawQuote.MarketSpi();
    ok := md.Create(mdCreated, now, today, dayend, nightend);
    if !ok {
      return Returned(0), sent, lost;
    }
    var sock := new PushSocket();
    sock.SetOptions();
    if pushServer == [] {
      return Returned(-1), sent, lost;
    }
    sock.Connect(pushServer);
    var taken := sock.Send(ReadyMessage, readyTaken);
    assert sock.sent[..(if readyTaken then 1 else 0)] == sock.sent;
    var q := new BoundedQueue<string>(PrimaryCapacity);
    var bufq := new BoundedQueue<string>(OverflowCapacity);
    end, lost := MarketLoop(q, bufq, sock, md.exitTs, slots, decSymbols, tooHigh, readyTaken);
    sent := sock.sent;
    ReadyOnlyFirst(sent, readyTaken);
    if !readyTaken && sent != [] {
      ReadyIsNoTick();
      assert sent[0] == sent[0..][0];
    }
  }
}
