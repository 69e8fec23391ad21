// The distribution program of the raw-tick publisher: the subscription
// list it builds, and its main loop, which first drains the overflow queue
// (putting every tick whose publish fails back at its tail), then takes at
// most one fresh tick from the primary queue, and stops once the wall clock
// is past the exit time.
//
// The loop is taken one iteration at a time.  The clock reading, the
// outcome of every send and the serialisation of a tick are inputs.  The
// drain has no way out while the overflow queue holds a tick whose publish
// keeps failing, so it is given a finite list of send outcomes; when they
// run out with such a tick at the head, the iteration is reported `Stuck`.
module MarketMain {
  import opened Wrappers
  import opened Fields
  import opened Queues
  import opened Publisher
  import RawQuote

  const PrimaryCapacity: nat := 10000
  const OverflowCapacity: nat := 500000
  const MarketAddress: string := "tcp://*:9999"
  const MessageType: string := "MARKET_DATA_PROTOBUF"

  // ---------------------------------------------------------------------
  // The subscription list

  const Products: seq<string> :=
    ["cu", "al", "zn", "au", "ag", "rb", "hc", "i", "j", "jm",
     "m", "y", "p", "a", "b", "c", "cs", "jd",
     "CF", "SR", "TA", "MA", "FG", "RM", "OI", "SF", "SM"]

  const Months: seq<string> := ["2508", "2509", "2510"]

  /** One product followed by each month. */
  function Row(product: string, months: seq<string>): (r: seq<string>)
    ensures |r| == |months|
    ensures forall k :: 0 <= k < |months| ==> r[k] == product + months[k]
  {
    seq(|months|, k requires 0 <= k < |months| => product + months[k])
  }

  /** Every product with every month, product-major. */
  function Contracts(products: seq<string>, months: seq<string>): seq<string>
  {
    if products == [] then []
    else Contracts(products[..|products| - 1], months) + Row(products[|products| - 1], months)
  }

  lemma {:induction false} ContractsAt(products: seq<string>, months: seq<string>, p: nat, m: nat)
    requires p < |products| && m < |months|
    ensures |Contracts(products, months)| == |products| * |months|
    ensures p * |months| + m < |products| * |months|
    ensures Contracts(products, months)[p * |months| + m] == products[p] + months[m]
  {
    var n, k := |products|, |months|;
    var init := products[..n - 1];
    ContractsLength(products, months);
    ContractsLength(init, months);
    MulBound(p, n, k, m);
    assert Contracts(products, months) == Contracts(init, months) + Row(products[n - 1], months);
    if p < n - 1 {
      MulBound(p, n - 1, k, m);
      ContractsAt(init, months, p, m);
      assert init[p] == products[p];
    } else {
      assert p * k + m == (n - 1) * k + m;
    }
  }

  lemma MulBound(p: nat, n: nat, k: nat, m: nat)
    requires p < n && m < k
    ensures p * k + m < n * k
  {
    assert (p + 1) * k <= n * k;
  }

  lemma {:induction false} ContractsLength(products: seq<string>, months: seq<string>)
    ensures |Contracts(products, months)| == |products| * |months|
  {
    if products != [] {
      var n := |products|;
      ContractsLength(products[..n - 1], months);
      assert (n - 1) * |months| + |months| == n * |months|;
    }
  }

  /** The program subscribes to 27 products times 3 months, 81 names; the first is "cu2508", the last "SM2510". */
  lemma SubscriptionList()
    ensures |Contracts(Products, Months)| == 81
    ensures Contracts(Products, Months)[0] == "cu2508"
    ensures Contracts(Products, Months)[80] == "SM2510"
  {
    ContractsAt(Products, Months, 0, 0);
    ContractsAt(Products, Months, 26, 2);
  }

  /** The nested `push_back` loops. */
  method BuildContracts(products: seq<string>, months: seq<string>) returns (contracts: seq<string>)
    ensures contracts == Contracts(products, months)
  {
    contracts := [];
    var i := 0;
    while i < |products|
      invariant 0 <= i <= |products|
      invariant contracts == Contracts(products[..i], months)
    {
      var j := 0;
      while j < |months|
        invariant 0 <= j <= |months|
        invariant contracts == Contracts(products[..i], months) + Row(products[i], months[..j])
      {
        contracts := contracts + [products[i] + months[j]];
        j := j + 1;
        assert Row(products[i], months[..j]) == Row(products[i], months[..j - 1]) + [products[i] + months[j - 1]];
      }
      assert months[..j] == months;
      assert products[..i + 1][..i] == products[..i];
      i := i + 1;
    }
    assert products[..i] == products;
  }

  // ---------------------------------------------------------------------
  // The overflow drain

  /**
   * Where the drain has got to: the ticks still in the overflow queue, how
   * many send outcomes it has used, the ticks published, the frames handed
   * to the socket, and the ticks whose serialisation was empty.
   */
  datatype Drained = Drained(rest: seq<Record>, used: nat, published: seq<Record>,
                             frames: seq<Frame>, discarded: seq<Record>)

  /** The state a drain starts from. */
  function DrainStart(items: seq<Record>): (d: Drained)
    ensures d.rest == items && d.used == 0 && d.published == [] && d.frames == [] && d.discarded == []
  {
    Drained(items, 0, [], [], [])
  }

  /**
   * `while (bufq.try_dequeue(...))` ends when the queue is empty; in the
   * model it also ends when no send outcome is left for a head that needs
   * one.
   */
  predicate DrainFinished(d: Drained, attempts: seq<SendAttempt>, ser: Record -> string)
  {
    d.rest == [] || (d.used >= |attempts| && ser(d.rest[0]) != [])
  }

  /**
   * One pass of the drain loop: the head tick is taken; one serialising to
   * "" is discarded; any other is published with the next send outcome,
   * and put back at the tail when the publish fails.
   */
  function DrainStep(d: Drained, attempts: seq<SendAttempt>, ready: bool, ser: Record -> string): (e: Drained)
    requires !DrainFinished(d, attempts, ser)
    ensures multiset(e.rest) + multiset(e.published) + multiset(e.discarded)
      == multiset(d.rest) + multiset(d.published) + multiset(d.discarded)
    ensures e.used == d.used || (e.used == d.used + 1 && e.used <= |attempts|)
    ensures e.used == d.used ==> |e.rest| < |d.rest|
  {
    var t := d.rest[0];
    var data := ser(t);
    assert d.rest == [t] + d.rest[1..];
    if data == [] then d.(rest := d.rest[1..], discarded := d.discarded + [t])
    else
      var a := attempts[d.used];
      var e := d.(used := d.used + 1, frames := d.frames + PublishFrames(ready, MessageType, data, a));
      if PublishOk(ready, a) then e.(rest := d.rest[1..], published := d.published + [t])
      else e.(rest := d.rest[1..] + [t])
  }

  /** The drain run to its end from `d`. */
  function DrainFrom(d: Drained, attempts: seq<SendAttempt>, ready: bool, ser: Record -> string): Drained
    decreases |attempts| - d.used, |d.rest|
  {
    if DrainFinished(d, attempts, ser) then d
    else DrainFrom(DrainStep(d, attempts, ready, ser), attempts, ready, ser)
  }

  /** The drain of one iteration over the overflow queue's ticks. */
  function DrainSpec(items: seq<Record>, attempts: seq<SendAttempt>, ready: bool, ser: Record -> string): Drained
  {
    DrainFrom(DrainStart(items), attempts, ready, ser)
  }

  /**
   * No tick is lost by the drain: each one is still queued, published or
   * discarded.  The drain stops only where it must, uses no more send
   * outcomes than it has, and publishes at most one tick per send.
   */
  lemma {:induction false} DrainFromFacts(d: Drained, attempts: seq<SendAttempt>, ready: bool, ser: Record -> string)
    requires d.used <= |attempts| && |d.published| <= d.used
    ensures var r := DrainFrom(d, attempts, ready, ser);
      && multiset(r.rest) + multiset(r.published) + multiset(r.discarded)
         == multiset(d.rest) + multiset(d.published) + multiset(d.discarded)
      && DrainFinished(r, attempts, ser)
      && d.used <= r.used <= |attempts| && |r.published| <= r.used
    decreases |attempts| - d.used, |d.rest|
  {
    if !DrainFinished(d, attempts, ser) {
      DrainFromFacts(DrainStep(d, attempts, ready, ser), attempts, ready, ser);
    }
  }

  lemma DrainFacts(items: seq<Record>, attempts: seq<SendAttempt>, ready: bool, ser: Record -> string)
    ensures var r := DrainSpec(items, attempts, ready, ser);
      && multiset(items) == multiset(r.rest) + multiset(r.published) + multiset(r.discarded)
      && (r.rest == [] || (r.used == |attempts| && ser(r.rest[0]) != []))
      && r.used <= |attempts| && |r.published| <= r.used
  {
    DrainFromFacts(DrainStart(items), attempts, ready, ser);
  }

  /**
   * With a publisher that is not ready, a drain over ticks that all
   * serialise never empties the overflow queue, whatever number of sends it
   * is given: the loop of the program does not terminate.
   */
  lemma {:induction false} DrainFromLivelock(d: Drained, attempts: seq<SendAttempt>, ser: Record -> string)
    requires d.rest != [] && d.used <= |attempts|
    requires forall i :: 0 <= i < |d.rest| ==> ser(d.rest[i]) != []
    ensures var r := DrainFrom(d, attempts, false, ser);
      r.rest != [] && r.published == d.published && r.used == |attempts| && multiset(r.rest) == multiset(d.rest)
    decreases |attempts| - d.used
  {
    if !DrainFinished(d, attempts, ser) {
      var e := DrainStep(d, attempts, false, ser);
      var t := d.rest[0];
      assert e.rest == d.rest[1..] + [t] && e.published == d.published;
      assert d.rest == [t] + d.rest[1..];
      assert multiset(e.rest) == multiset(d.rest);
      forall i | 0 <= i < |e.rest| ensures ser(e.rest[i]) != [] {
        if i < |d.rest| - 1 { assert e.rest[i] == d.rest[i + 1]; } else { assert e.rest[i] == t; }
      }
      DrainFromLivelock(e, attempts, ser);
    }
  }

  lemma DrainLivelock(items: seq<Record>, attempts: seq<SendAttempt>, ser: Record -> string)
    requires items != []
    requires forall i :: 0 <= i < |items| ==> ser(items[i]) != []
    ensures var r := DrainSpec(items, attempts, false, ser);
      r.rest != [] && r.published == [] && r.used == |attempts| && multiset(r.rest) == multiset(items)
  {
    DrainFromLivelock(DrainStart(items), attempts, ser);
  }

  /** Frames already on the wire before the drain only stay in front of the ones it adds. */
  lemma {:induction false} DrainFromWire(d: Drained, w: seq<Frame>, attempts: seq<SendAttempt>, ready: bool, ser: Record -> string)
    ensures var r := DrainFrom(d, attempts, ready, ser);
      DrainFrom(d.(frames := w + d.frames), attempts, ready, ser) == r.(frames := w + r.frames)
    decreases |attempts| - d.used, |d.rest|
  {
    if !DrainFinished(d, attempts, ser) {
      var e := DrainStep(d, attempts, ready, ser);
      assert DrainStep(d.(frames := w + d.frames), attempts, ready, ser) == e.(frames := w + e.frames);
      DrainFromWire(e, w, attempts, ready, ser);
    }
  }

  /**
   * One pass of the drain loop over the real queue and publisher; the
   * frames of the state are what the socket has been handed.  The dequeue
   * just freed a slot, so putting a failed tick back never fails.
   */
  method DrainOne(bufq: BoundedQueue<Record>, pub: ZmqPublisher, attempts: seq<SendAttempt>, ser: Record -> string,
                  used0: nat, published0: seq<Record>, discarded0: seq<Record>)
    returns (used: nat, published: seq<Record>, discarded: seq<Record>)
    requires bufq.Valid() && pub.Valid()
    requires !DrainFinished(Drained(bufq.items, used0, published0, pub.wire, discarded0), attempts, ser)
    modifies bufq, pub`wire
    ensures bufq.Valid()
    ensures Drained(bufq.items, used, published, pub.wire, discarded)
      == DrainStep(Drained(old(bufq.items), used0, published0, old(pub.wire), discarded0), attempts,
                   pub.initialized && pub.hasSocket, ser)
  {
    ghost var ready := pub.initialized && pub.hasSocket;
    ghost var items0 := bufq.items;
    ghost var wire0 := pub.wire;
    ghost var e := DrainStep(Drained(items0, used0, published0, wire0, discarded0), attempts, ready, ser);
    used, published, discarded := used0, published0, discarded0;
    var m := bufq.TryDequeue();
    var t := m.value;
    assert t == items0[0] && bufq.items == items0[1..];
    var data := ser(t);
    if data != [] {
      var ok := pub.PublishMessage(MessageType, data, attempts[used]);
      assert pub.wire == e.frames;
      used := used + 1;
      if ok {
        published := published + [t];
        assert e == Drained(items0[1..], used, published, pub.wire, discarded);
      } else {
        var back := bufq.TryEnqueue(t);
        assert back;
        assert e == Drained(items0[1..] + [t], used, published, pub.wire, discarded);
      }
    } else {
      discarded := discarded + [t];
      assert e == Drained(items0[1..], used, published, wire0, discarded);
    }
  }

  /** The drain of one iteration: `DrainOne` until the drain is finished. */
  method Drain(bufq: BoundedQueue<Record>, pub: ZmqPublisher, attempts: seq<SendAttempt>, ser: Record -> string)
    returns (used: nat, published: seq<Record>, discarded: seq<Record>)
    requires bufq.Valid() && pub.Valid()
    modifies bufq, pub`wire
    ensures bufq.Valid()
    ensures var r := DrainSpec(old(bufq.items), attempts, pub.initialized && pub.hasSocket, ser);
      && bufq.items == r.rest && used == r.used && published == r.published
      && discarded == r.discarded && pub.wire == old(pub.wire) + r.frames
  {
    ghost var ready := pub.initialized && pub.hasSocket;
    ghost var whole := DrainFrom(Drained(bufq.items, 0, [], pub.wire, []), attempts, ready, ser);
    DrainFromWire(DrainStart(bufq.items), pub.wire, attempts, ready, ser);
    assert pub.wire + [] == pub.wire;
    used, published, discarded := 0, [], [];
    while bufq.items != [] && (used < |attempts| || ser(bufq.items[0]) == [])
      invariant bufq.Valid() && pub.Valid() && ready == (pub.initialized && pub.hasSocket)
      invariant DrainFrom(Drained(bufq.items, used, published, pub.wire, discarded), attempts, ready, ser) == whole
      decreases |attempts| - used, |bufq.items|
    {
      used, published, discarded := DrainOne(bufq, pub, attempts, ser, used, published, discarded);
    }
  }

  // ---------------------------------------------------------------------
  // One iteration of the main loop

  /**
   * The state the loop works on: both queues, the frames on the wire and
   * `messageCount`, with the accounting of where each tick went.
   */
  datatype Pipeline = Pipeline(q: seq<Record>, bufq: seq<Record>, wire: seq<Frame>, count: nat,
                               published: seq<Record>, discarded: seq<Record>, dropped: seq<Record>)

  datatype FreshOutcome = Idle | Published | Requeued | Dropped | Discarded

  datatype IterationOutcome = Exit | Stuck | Fresh(kind: FreshOutcome)

  datatype StepResult = StepResult(next: Pipeline, out: IterationOutcome)

  /** Every tick the pipeline has held: still queued, published, discarded or dropped. */
  ghost function Accounted(p: Pipeline): multiset<Record>
  {
    multiset(p.q) + multiset(p.bufq) + multiset(p.published) + multiset(p.discarded) + multiset(p.dropped)
  }

  /** The drain, applied to the pipeline. */
  function DrainPhase(p: Pipeline, ready: bool, drain: seq<SendAttempt>, ser: Record -> string): (p1: Pipeline)
    ensures p1.q == p.q && p1.dropped == p.dropped
  {
    var d := DrainSpec(p.bufq, drain, ready, ser);
    p.(bufq := d.rest, wire := p.wire + d.frames, count := p.count + |d.published|,
       published := p.published + d.published, discarded := p.discarded + d.discarded)
  }

  /**
   * The fresh tick: sleep when the primary queue is empty; otherwise take
   * its head, discard it when it serialises to "", publish it, and when
   * that fails put it in the overflow queue, or drop it when that is full.
   */
  function FreshPhase(p: Pipeline, bufCap: nat, ready: bool, send: SendAttempt, ser: Record -> string): StepResult
  {
    if p.q == [] then StepResult(p, Fresh(Idle))
    else
      var t := p.q[0];
      var p2 := p.(q := p.q[1..]);
      var data := ser(t);
      if data == [] then StepResult(p2.(discarded := p2.discarded + [t]), Fresh(Discarded))
      else
        var p3 := p2.(wire := p2.wire + PublishFrames(ready, MessageType, data, send));
        if PublishOk(ready, send) then
          StepResult(p3.(count := p3.count + 1, published := p3.published + [t]), Fresh(Published))
        else if |p.bufq| < bufCap then StepResult(p3.(bufq := p.bufq + [t]), Fresh(Requeued))
        else StepResult(p3.(dropped := p3.dropped + [t]), Fresh(Dropped))
  }

  /**
   * One pass of the `for (;;)` body: exit when the exit time is behind
   * `now`; otherwise drain the overflow queue, then handle one fresh tick.
   */
  function StepSpec(p: Pipeline, now: int, exitTs: int, bufCap: nat, ready: bool,
                    drain: seq<SendAttempt>, send: SendAttempt, ser: Record -> string): StepResult
  {
    if exitTs < now then StepResult(p, Exit)
    else
      var p1 := DrainPhase(p, ready, drain, ser);
      if p1.bufq != [] then StepResult(p1, Stuck)
      else FreshPhase(p1, bufCap, ready, send, ser)
  }

  lemma DrainPhaseFacts(p: Pipeline, ready: bool, drain: seq<SendAttempt>, ser: Record -> string)
    ensures var p1 := DrainPhase(p, ready, drain, ser);
      && Accounted(p1) == Accounted(p)
      && p1.count - p.count == |p1.published| - |p.published|
  {
    DrainFacts(p.bufq, drain, ready, ser);
    var d := DrainSpec(p.bufq, drain, ready, ser);
    var p1 := DrainPhase(p, ready, drain, ser);
    assert multiset(p1.published) == multiset(p.published) + multiset(d.published);
    assert multiset(p1.discarded) == multiset(p.discarded) + multiset(d.discarded);
  }

  lemma FreshPhaseFacts(p: Pipeline, bufCap: nat, ready: bool, send: SendAttempt, ser: Record -> string)
    ensures var s := FreshPhase(p, bufCap, ready, send, ser);
      && Accounted(s.next) == Accounted(p)
      && s.next.count - p.count == |s.next.published| - |p.published|
      && s.out.Fresh?
      && (if p.q == [] then s.out == Fresh(Idle) && s.next == p
          else s.out != Fresh(Idle) && s.next.q == p.q[1..])
  {
    if p.q != [] {
      FreshPhaseAccounted(p, bufCap, ready, send, ser);
    }
  }

  /** A fresh tick taken from `q` ends up in exactly one of the other lists. */
  lemma FreshPhaseAccounted(p: Pipeline, bufCap: nat, ready: bool, send: SendAttempt, ser: Record -> string)
    requires p.q != []
    ensures Accounted(FreshPhase(p, bufCap, ready, send, ser).next) == Accounted(p)
  {
    var t := p.q[0];
    var n := FreshPhase(p, bufCap, ready, send, ser).next;
    if ser(t) == [] {
      assert n == p.(q := p.q[1..], discarded := p.discarded + [t]);
    } else if PublishOk(ready, send) {
      assert n.q == p.q[1..] && n.bufq == p.bufq && n.discarded == p.discarded && n.dropped == p.dropped;
      assert n.published == p.published + [t];
    } else if |p.bufq| < bufCap {
      assert n.q == p.q[1..] && n.published == p.published && n.discarded == p.discarded && n.dropped == p.dropped;
      assert n.bufq == p.bufq + [t];
    } else {
      assert n.q == p.q[1..] && n.bufq == p.bufq && n.published == p.published && n.discarded == p.discarded;
      assert n.dropped == p.dropped + [t];
    }
    HeadMoved(p, n);
  }

  /** Moving the head of `q` to the end of one other list keeps every tick accounted for. */
  lemma HeadMoved(p: Pipeline, n: Pipeline)
    requires p.q != [] && n.q == p.q[1..]
    requires var t := [p.q[0]];
      || (n.bufq == p.bufq + t && n.published == p.published && n.discarded == p.discarded && n.dropped == p.dropped)
      || (n.bufq == p.bufq && n.published == p.published + t && n.discarded == p.discarded && n.dropped == p.dropped)
      || (n.bufq == p.bufq && n.published == p.published && n.discarded == p.discarded + t && n.dropped == p.dropped)
      || (n.bufq == p.bufq && n.published == p.published && n.discarded == p.discarded && n.dropped == p.dropped + t)
    ensures Accounted(n) == Accounted(p)
  {
    assert p.q == [p.q[0]] + p.q[1..];
  }

  /**
   * The loop leaves exactly when the exit time is behind `now`, before
   * touching anything; an iteration never loses a tick; `messageCount`
   * grows by the number of ticks published; the primary queue only loses
   * its head, and only when the drain finished.
   */
  lemma StepFacts(p: Pipeline, now: int, exitTs: int, bufCap: nat, ready: bool,
                  drain: seq<SendAttempt>, send: SendAttempt, ser: Record -> string)
    ensures var s := StepSpec(p, now, exitTs, bufCap, ready, drain, send, ser);
      && (s.out == Exit <==> exitTs < now)
      && (s.out == Exit ==> s.next == p)
      && Accounted(s.next) == Accounted(p)
      && s.next.count - p.count == |s.next.published| - |p.published|
      && (s.next.q == p.q || (p.q != [] && s.next.q == p.q[1..] && s.out.Fresh? && s.out.kind != Idle))
  {
    if exitTs >= now {
      DrainPhaseFacts(p, ready, drain, ser);
      var p1 := DrainPhase(p, ready, drain, ser);
      if p1.bufq == [] {
        FreshPhaseFacts(p1, bufCap, ready, send, ser);
      }
    }
  }

  /** `StepFacts` for a result already known to be the step's. */
  lemma StepSummary(p: Pipeline, now: int, exitTs: int, bufCap: nat, ready: bool,
                    drain: seq<SendAttempt>, send: SendAttempt, ser: Record -> string, s: StepResult)
    requires s == StepSpec(p, now, exitTs, bufCap, ready, drain, send, ser)
    ensures s.out == Exit <==> exitTs < now
    ensures Accounted(s.next) == Accounted(p)
    ensures s.next.count - p.count == |s.next.published| - |p.published|
  {
    StepFacts(p, now, exitTs, bufCap, ready, drain, send, ser);
  }

  /**
   * In the sequential model a fresh tick is never dropped: the drain that
   * precedes the dequeue leaves the overflow queue empty, so putting a tick
   * whose publish failed there always succeeds.  A failed fresh tick goes
   * to the overflow queue and never back to the primary one.
   */
  lemma FreshNeverDropped(p: Pipeline, now: int, exitTs: int, bufCap: nat, ready: bool,
                          drain: seq<SendAttempt>, send: SendAttempt, ser: Record -> string)
    requires bufCap > 0
    ensures var s := StepSpec(p, now, exitTs, bufCap, ready, drain, send, ser);
      && s.out != Fresh(Dropped)
      && (s.out == Fresh(Requeued) ==> p.q != [] && s.next.bufq == [p.q[0]] && s.next.q == p.q[1..] && !PublishOk(ready, send))
      && (s.out == Fresh(Idle) ==> p.q == [] && s.next.q == [])
  {
  }

  /** The fresh-tick half of an iteration over the real queues and publisher. */
  method FreshTick(q: BoundedQueue<Record>, bufq: BoundedQueue<Record>, pub: ZmqPublisher, send: SendAttempt,
                   ser: Record -> string, count0: nat, published0: seq<Record>, discarded0: seq<Record>, dropped0: seq<Record>)
    returns (out: IterationOutcome, count: nat, published: seq<Record>, discarded: seq<Record>, dropped: seq<Record>)
    requires q.Valid() && bufq.Valid() && pub.Valid() && q != bufq
    modifies q, bufq, pub`wire
    ensures q.Valid() && bufq.Valid()
    ensures FreshPhase(Pipeline(old(q.items), old(bufq.items), old(pub.wire), count0, published0, discarded0, dropped0),
                       bufq.capacity, pub.initialized && pub.hasSocket, send, ser)
      == StepResult(Pipeline(q.items, bufq.items, pub.wire, count, published, discarded, dropped), out)
  {
    count, published, discarded, dropped := count0, published0, discarded0, dropped0;
    var m := q.TryDequeue();
    if m.None? {
      return Fresh(Idle), count, published, discarded, dropped;
    }
    var t := m.value;
    var data := ser(t);
    if data == [] {
      discarded := discarded + [t];
      return Fresh(Discarded), count, published, discarded, dropped;
    }
    var ok := pub.PublishMessage(MessageType, data, send);
    if ok {
      count := count + 1;
      published := published + [t];
      return Fresh(Published), count, published, discarded, dropped;
    }
    ok := bufq.TryEnqueue(t);
    if ok {
      out := Fresh(Requeued);
    } else {
      dropped := dropped + [t];
      out := Fresh(Dropped);
    }
  }

  /**
   * One iteration of the main loop over the real queues and publisher,
   * carrying `messageCount` and the accounting along.
   */
  method Iteration(now: int, exitTs: int, q: BoundedQueue<Record>, bufq: BoundedQueue<Record>, pub: ZmqPublisher,
                   drain: seq<SendAttempt>, send: SendAttempt, ser: Record -> string,
                   count0: nat, published0: seq<Record>, discarded0: seq<Record>, dropped0: seq<Record>)
    returns (out: IterationOutcome, count: nat, published: seq<Record>, discarded: seq<Record>, dropped: seq<Record>)
    requires q.Valid() && bufq.Valid() && pub.Valid() && q != bufq
    modifies q, bufq, pub`wire
    ensures q.Valid() && bufq.Valid()
    ensures StepSpec(Pipeline(old(q.items), old(bufq.items), old(pub.wire), count0, published0, discarded0, dropped0),
                     now, exitTs, bufq.capacity, pub.initialized && pub.hasSocket, drain, send, ser)
      == StepResult(Pipeline(q.items, bufq.items, pub.wire, count, published, discarded, dropped), out)
  {
    count, published, discarded, dropped := count0, published0, discarded0, dropped0;
    if exitTs < now {
      return Exit, count, published, discarded, dropped;
    }
    ghost var ready := pub.initialized && pub.hasSocket;
    ghost var p0 := Pipeline(q.items, bufq.items, pub.wire, count0, published0, discarded0, dropped0);
    var used, p, d := Drain(bufq, pub, drain, ser);
    count, published, discarded := count + |p|, published + p, discarded + d;
    ghost var p1 := Pipeline(q.items, bufq.items, pub.wire, count, published, discarded, dropped);
    assert p1 == DrainPhase(p0, ready, drain, ser);
    if bufq.items != [] {
      return Stuck, count, published, discarded, dropped;
    }
    out, count, published, discarded, dropped := FreshTick(q, bufq, pub, send, ser, count, published, discarded, dropped);
  }

  // ---------------------------------------------------------------------
  // The whole run, with the callback delivering ticks between iterations

  /** What happens before and during one iteration: the clock, the ticks the callback receives, the send outcomes. */
  datatype Slot = Slot(now: int, arrivals: seq<Option<Record>>, drain: seq<SendAttempt>, send: SendAttempt)

  datatype RunEnd = Exited(at: nat) | StuckAt(at: nat) | OutOfSchedule

  /** The callback delivers each arrival in turn; `accepted` are the ticks it queued, `lost` those it dropped. */
  method Deliver(spi: RawQuote.MarketSpi, arrivals: seq<Option<Record>>, q: BoundedQueue<Record>, bufq: BoundedQueue<Record>)
    returns (accepted: seq<Record>, lost: seq<Record>)
    requires q.Valid() && bufq.Valid() && q != bufq
    modifies q, bufq
    ensures q.Valid() && bufq.Valid()
    ensures multiset(q.items) + multiset(bufq.items) == multiset(old(q.items)) + multiset(old(bufq.items)) + multiset(accepted)
    ensures |accepted| + |lost| <= |arrivals|
  {
    accepted, lost := [], [];
    var i := 0;
    while i < |arrivals|
      invariant 0 <= i <= |arrivals|
      invariant q.Valid() && bufq.Valid()
      invariant multiset(q.items) + multiset(bufq.items) == multiset(old(q.items)) + multiset(old(bufq.items)) + multiset(accepted)
      invariant |accepted| + |lost| <= i
    {
      ghost var q0, b0 := q.items, bufq.items;
      var d := spi.OnRtnDepthMarketData(arrivals[i], q, bufq);
      if d == RawQuote.ToPrimary || d == RawQuote.ToOverflow {
        var t := arrivals[i].value;
        assert multiset(q.items) + multiset(bufq.items) == multiset(q0) + multiset(b0) + multiset{t};
        accepted := accepted + [t];
      } else {
        assert q.items == q0 && bufq.items == b0;
        if d == RawQuote.Dropped {
          lost := lost + [arrivals[i].value];
        }
      }
      i := i + 1;
    }
  }

  lemma AccountedQueues(p: Pipeline, q: seq<Record>, bufq: seq<Record>, extra: multiset<Record>)
    requires multiset(q) + multiset(bufq) == multiset(p.q) + multiset(p.bufq) + extra
    ensures Accounted(p.(q := q, bufq := bufq)) == Accounted(p) + extra
  {
  }

  /**
   * One slot of the run: the callback delivers the slot's ticks, then the
   * loop makes one iteration.  The accounting of every tick carries over:
   * what was held before, with the newly accepted ticks, is still held.
   */
  method RunSlot(spi: RawQuote.MarketSpi, q: BoundedQueue<Record>, bufq: BoundedQueue<Record>, pub: ZmqPublisher,
                 slot: Slot, exitTs: int, ser: Record -> string, ghost origin: multiset<Record>, accepted0: seq<Record>,
                 count0: nat, published0: seq<Record>, discarded0: seq<Record>, dropped0: seq<Record>)
    returns (out: IterationOutcome, accepted: seq<Record>, count: nat, published: seq<Record>,
             discarded: seq<Record>, dropped: seq<Record>)
    requires q.Valid() && bufq.Valid() && pub.Valid() && q != bufq
    requires count0 == |published0|
    requires Accounted(Pipeline(q.items, bufq.items, pub.wire, count0, published0, discarded0, dropped0))
      == origin + multiset(accepted0)
    modifies q, bufq, pub`wire
    ensures q.Valid() && bufq.Valid()
    ensures Accounted(Pipeline(q.items, bufq.items, pub.wire, count, published, discarded, dropped))
      == origin + multiset(accepted)
    ensures count == |published|
    ensures out == Exit <==> exitTs < slot.now
  {
    ghost var p0 := Pipeline(q.items, bufq.items, pub.wire, count0, published0, discarded0, dropped0);
    var acc, lost := Deliver(spi, slot.arrivals, q, bufq);
    AccountedQueues(p0, q.items, bufq.items, multiset(acc));
    accepted := accepted0 + acc;
    ghost var p1 := Pipeline(q.items, bufq.items, pub.wire, count0, published0, discarded0, dropped0);
    ghost var ready := pub.initialized && pub.hasSocket;
    out, count, published, discarded, dropped :=
      Iteration(slot.now, exitTs, q, bufq, pub, slot.drain, slot.send, ser, count0, published0, discarded0, dropped0);
    StepSummary(p1, slot.now, exitTs, bufq.capacity, ready, slot.drain, slot.send, ser,
                StepResult(Pipeline(q.items, bufq.items, pub.wire, count, published, discarded, dropped), out));
  }

  /**
   * The program from `Create` on: before each iteration the callback
   * delivers that slot's ticks; the loop runs until it exits, gets stuck in
   * a drain, or the schedule ends.  Every tick the queues held or the
   * callback accepted is queued, published, discarded or dropped, and
   * `messageCount` is the number of ticks published.
   */
  method Run(spi: RawQuote.MarketSpi, q: BoundedQueue<Record>, bufq: BoundedQueue<Record>, pub: ZmqPublisher,
             schedule: seq<Slot>, ser: Record -> string)
    returns (end: RunEnd, messageCount: nat, accepted: seq<Record>, published: seq<Record>,
             discarded: seq<Record>, dropped: seq<Record>)
    requires q.Valid() && bufq.Valid() && pub.Valid() && q != bufq
    modifies q, bufq, pub`wire
    ensures q.Valid() && bufq.Valid()
    ensures Accounted(Pipeline(q.items, bufq.items, pub.wire, messageCount, published, discarded, dropped))
      == multiset(old(q.items)) + multiset(old(bufq.items)) + multiset(accepted)
    ensures messageCount == |published|
    ensures end.Exited? || end.StuckAt? ==> end.at < |schedule|
    ensures end.Exited? ==> spi.exitTs < schedule[end.at].now
    ensures end.StuckAt? ==> schedule[end.at].now <= spi.exitTs
    ensures end.Exited? || end.StuckAt? ==> forall k :: 0 <= k < end.at ==> schedule[k].now <= spi.exitTs
    ensures end == OutOfSchedule ==> forall k :: 0 <= k < |schedule| ==> schedule[k].now <= spi.exitTs
  {
    messageCount, accepted, published, discarded, dropped := 0, [], [], [], [];
    ghost var origin := multiset(q.items) + multiset(bufq.items);
    var exitTs := spi.exitTs;
    var i := 0;
    end := OutOfSchedule;
    while i < |schedule|
      invariant 0 <= i <= |schedule|
      invariant q.Valid() && bufq.Valid() && pub.Valid()
      invariant Accounted(Pipeline(q.items, bufq.items, pub.wire, messageCount, published, discarded, dropped))
        == origin + multiset(accepted)
      invariant messageCount == |published|
      invariant spi.exitTs == exitTs
      invariant end == OutOfSchedule
      invariant forall k :: 0 <= k < i ==> schedule[k].now <= exitTs
    {
      var out;
      out, accepted, messageCount, published, discarded, dropped :=
        RunSlot(spi, q, bufq, pub, schedule[i], exitTs, ser, origin, accepted, messageCount, published, discarded, dropped);
      if out == Exit {
        end := Exited(i);
        break;
      }
      if out == Stuck {
        end := StuckAt(i);
        break;
      }
      i := i + 1;
    }
  }
}
