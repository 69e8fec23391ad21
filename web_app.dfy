// The web interface's server side: query retries against the database,
// page arithmetic for the listing endpoints, and the market feed that
// keeps the latest tick per instrument and sends 30 of them per round to
// every subscribed client, rotating through the list.
module WebApp {
  import opened Wrappers

  // ---------------------------------------------------------------------
  // Query retries

  /** `max_retries`, and `retry_delay` in milliseconds. */
  const MaxRetries: nat := 3
  const RetryDelayMs: int := 500

  /** What one try of a query gives: its rows, a database `Error`, or another exception. */
  datatype Attempt<T> = Rows(rows: T) | DbError | OtherError

  /** The pause after a failed try numbered `attempt` (from 0): longer after each database error. */
  function Backoff<T>(a: Attempt<T>, attempt: nat): (ms: int)
    requires !a.Rows?
    ensures a.DbError? ==> ms == RetryDelayMs * (attempt + 1)
    ensures a.OtherError? ==> ms == RetryDelayMs
  {
    if a.DbError? then RetryDelayMs * (attempt + 1) else RetryDelayMs
  }

  /**
   * The result and the pauses of the tries from `attempt` on, where
   * `outcome(i)` is what try `i` gives: the rows of the first try that
   * succeeds, or None when the last allowed try fails; no pause follows
   * the last try.
   */
  function RetryFrom<T>(outcome: nat -> Attempt<T>, attempt: nat): (r: (Option<T>, seq<int>))
    decreases MaxRetries - attempt
  {
    if attempt >= MaxRetries then (None, [])
    else if outcome(attempt).Rows? then (Some(outcome(attempt).rows), [])
    else
      var rest := RetryFrom(outcome, attempt + 1);
      var pause := if attempt < MaxRetries - 1 then [Backoff(outcome(attempt), attempt)] else [];
      (rest.0, pause + rest.1)
  }

  /** The pauses taken after the first `n` tries, all of which failed. */
  function Pauses<T>(outcome: nat -> Attempt<T>, n: nat): (s: seq<int>)
    requires forall i :: 0 <= i < n ==> !outcome(i).Rows?
    decreases n
  {
    if n == 0 then []
    else Pauses(outcome, n - 1) + (if n - 1 < MaxRetries - 1 then [Backoff(outcome(n - 1), n - 1)] else [])
  }

  /** After `n` failed tries, the whole run is those pauses followed by the run from try `n`. */
  lemma {:induction false} RetryAfterFailures<T>(outcome: nat -> Attempt<T>, n: nat)
    requires n <= MaxRetries
    requires forall i :: 0 <= i < n ==> !outcome(i).Rows?
    ensures RetryFrom(outcome, 0) == (RetryFrom(outcome, n).0, Pauses(outcome, n) + RetryFrom(outcome, n).1)
    decreases n
  {
    if n > 0 {
      RetryAfterFailures(outcome, n - 1);
      var m := n - 1;
      var p := if m < MaxRetries - 1 then [Backoff(outcome(m), m)] else [];
      assert !outcome(m).Rows?;
      assert RetryFrom(outcome, m) == (RetryFrom(outcome, n).0, p + RetryFrom(outcome, n).1);
      assert Pauses(outcome, n) == Pauses(outcome, m) + p;
      assert Pauses(outcome, m) + (p + RetryFrom(outcome, n).1) == (Pauses(outcome, m) + p) + RetryFrom(outcome, n).1;
    } else {
      assert [] + RetryFrom(outcome, 0).1 == RetryFrom(outcome, 0).1;
    }
  }

  /**
   * `execute_query`: up to `max_retries` tries; after a failed try that is
   * not the last, a pause of `retry_delay * (attempt + 1)` after a
   * database error and of `retry_delay` after any other exception; None
   * once every try failed.  `outcome` stands for the connection and the
   * statement; the pauses are returned instead of slept.
   */
  method ExecuteQuery<T>(outcome: nat -> Attempt<T>) returns (result: Option<T>, pauses: seq<int>)
    ensures (result, pauses) == RetryFrom(outcome, 0)
  {
    pauses := [];
    var attempt := 0;
    while attempt < MaxRetries
      invariant 0 <= attempt <= MaxRetries
      invariant forall i :: 0 <= i < attempt ==> !outcome(i).Rows?
      invariant pauses == Pauses(outcome, attempt)
    {
      var a := outcome(attempt);
      if a.Rows? {
        RetryAfterFailures(outcome, attempt);
        assert RetryFrom(outcome, attempt) == (Some(a.rows), []);
        assert pauses + [] == pauses;
        return Some(a.rows), pauses;
      }
      if attempt < MaxRetries - 1 {
        pauses := pauses + [Backoff(a, attempt)];
      }
      attempt := attempt + 1;
    }
    RetryAfterFailures(outcome, attempt);
    assert pauses + [] == pauses;
    return None, pauses;
  }

  /**
   * The rows come back exactly when one of the three tries succeeds, and
   * they are those of the first that does.
   */
  lemma {:induction false} RetryResult<T>(outcome: nat -> Attempt<T>, attempt: nat)
    requires attempt <= MaxRetries
    ensures RetryFrom(outcome, attempt).0.Some? <==> exists i :: attempt <= i < MaxRetries && outcome(i).Rows?
    ensures RetryFrom(outcome, attempt).0.Some? ==>
      exists i :: (attempt <= i < MaxRetries && outcome(i).Rows?
                   && (forall j :: attempt <= j < i ==> !outcome(j).Rows?)
                   && RetryFrom(outcome, attempt).0.value == outcome(i).rows)
    decreases MaxRetries - attempt
  {
    if attempt < MaxRetries && !outcome(attempt).Rows? {
      RetryResult(outcome, attempt + 1);
    }
  }

  /** At most two pauses, and the `i`-th follows the failure of try `i` with its backoff. */
  lemma {:induction false} RetryPauses<T>(outcome: nat -> Attempt<T>, attempt: nat)
    requires attempt <= MaxRetries
    ensures var s := RetryFrom(outcome, attempt).1;
      && |s| <= MaxRetries - 1 - (if attempt == 0 then 0 else attempt - 1)
      && forall i :: 0 <= i < |s| ==> !outcome(attempt + i).Rows? && s[i] == Backoff(outcome(attempt + i), attempt + i)
    decreases MaxRetries - attempt
  {
    if attempt < MaxRetries && !outcome(attempt).Rows? {
      RetryPauses(outcome, attempt + 1);
    }
  }

  /** Three database errors in a row: pauses of 0.5 s and 1 s, then None. */
  lemma ThreeDbErrors<T>(outcome: nat -> Attempt<T>)
    requires forall i :: 0 <= i < MaxRetries ==> outcome(i).DbError?
    ensures RetryFrom(outcome, 0) == (None, [500, 1000])
  {
    assert outcome(0).DbError? && outcome(1).DbError? && outcome(2).DbError?;
    var r2 := RetryFrom(outcome, 2);
    assert r2.0 == None && r2.1 == [] + [];
    var r1 := RetryFrom(outcome, 1);
    assert r1.0 == None && r1.1 == [1000] + r2.1;
    var r0 := RetryFrom(outcome, 0);
    assert r0.0 == None && r0.1 == [500] + r1.1;
    assert r2.1 == [];
    assert r1.1 == [1000];
    assert r0.1 == [500, 1000];
  }

  // ---------------------------------------------------------------------
  // Pages

  /** Python's `//`: the quotient rounded towards minus infinity. */
  function FloorDiv(a: int, b: int): (q: int)
    requires b != 0
    ensures b > 0 ==> q * b <= a < q * b + b
    ensures b < 0 ==> q * b >= a > q * b + b
  {
    if b > 0 then a / b else (-a) / (-b)
  }

  /** What a listing endpoint answers besides its rows. */
  datatype PageInfo = PageInfo(total: int, page: int, perPage: int, offset: int, pages: int)

  /**
   * A listing endpoint's arithmetic: the total is the count query's, or 0
   * when that query returned nothing; the row offset is `(page - 1) *
   * per_page`; `pages` is `(total + per_page - 1) // per_page`, which
   * raises for `per_page == 0`.
   */
  function Paginate(count: Option<int>, page: int, perPage: int): (r: Result<PageInfo, string>)
    ensures r.Err? <==> perPage == 0
    ensures r.Ok? ==>
      (r.value.total == (if count.Some? then count.value else 0)
       && r.value.offset == (page - 1) * perPage && r.value.page == page && r.value.perPage == perPage)
  {
    var total := if count.Some? then count.value else 0;
    if perPage == 0 then Err("ZeroDivisionError")
    else Ok(PageInfo(total, page, perPage, (page - 1) * perPage, FloorDiv(total + perPage - 1, perPage)))
  }

  /**
   * With a positive page size, `pages` is the ceiling of `total /
   * per_page`: no pages for no rows, and otherwise just enough full pages
   * before the last to leave it between 1 and `per_page` rows.
   */
  lemma PagesCeiling(count: Option<int>, page: int, perPage: int)
    requires perPage > 0 && (count.Some? ==> count.value >= 0)
    ensures var p := Paginate(count, page, perPage).value;
      && p.pages >= 0
      && (p.pages == 0 <==> p.total == 0)
      && (p.total > 0 ==> (p.pages - 1) * perPage < p.total <= p.pages * perPage)
  {
  }

  /** Every row of a positive total lies on exactly one page between 1 and `pages`. */
  lemma RowOnPage(total: nat, perPage: int, row: nat)
    requires perPage > 0 && row < total
    ensures var page := row / perPage + 1;
      && 1 <= page <= Paginate(Some(total), page, perPage).value.pages
      && (page - 1) * perPage <= row < page * perPage
  {
    var q := row / perPage;
    var page := q + 1;
    var pages := Paginate(Some(total), page, perPage).value.pages;
    PagesCeiling(Some(total), page, perPage);
    assert q * perPage <= row < q * perPage + perPage;
    assert page * perPage == q * perPage + perPage;
    FactorLess(q, pages, perPage);
  }

  /** A positive factor keeps the order of the other factors. */
  lemma FactorLess(a: int, b: int, c: int)
    requires c > 0 && a * c < b * c
    ensures a < b
  {
    assert b * c - a * c == (b - a) * c;
  }

  // ---------------------------------------------------------------------
  // Round-robin batches

  /** `batch_size`. */
  const BatchSize: nat := 30

  /**
   * The positions, in the list of latest ticks, of one round's batch:
   * from `offset % total` up to 30 positions on; when fewer than 30 are
   * left and the list holds more than 30, the batch is completed from the
   * head of the list.
   */
  function BatchIndices(total: nat, offset: int): (b: seq<nat>)
    requires total > 0
    ensures forall k :: 0 <= k < |b| ==> b[k] < total
  {
    var start := offset % total;
    var end := if start + BatchSize < total then start + BatchSize else total;
    var run := seq(end - start, k requires 0 <= k < end - start => (start + k) as nat);
    if end - start < BatchSize && total > BatchSize then
      run + seq(BatchSize - (end - start), k requires 0 <= k < BatchSize - (end - start) => k as nat)
    else run
  }

  /** The offset for the next round: `(offset + 30) % total`, always a position in the list. */
  function NextOffset(offset: int, total: nat): (o: int)
    requires total > 0
    ensures 0 <= o < total
  {
    (offset + BatchSize) % total
  }

  /** The batch is never empty: the start is always a position of the list. */
  lemma BatchNotEmpty(total: nat, offset: int)
    requires total > 0
    ensures |BatchIndices(total, offset)| > 0
  {
    assert offset % total < total;
  }

  /**
   * With more than 30 ticks a round sends exactly 30 distinct ones: the 30
   * positions from the start, wrapping to the head of the list.
   */
  lemma LargeBatch(total: nat, offset: int)
    requires total > BatchSize
    ensures var b := BatchIndices(total, offset); var start := offset % total;
      && |b| == BatchSize
      && (forall k :: 0 <= k < |b| ==> b[k] == if start + k < total then start + k else start + k - total)
      && (forall k, m :: 0 <= k < m < |b| ==> b[k] != b[m])
  {
  }

  /**
   * With more than 30 ticks, a position is in the batch exactly when it
   * lies fewer than 30 places on from the start, going round the list.
   */
  lemma LargeBatchCovers(total: nat, offset: int, i: nat)
    requires total > BatchSize && i < total
    ensures var start := offset % total;
      i in BatchIndices(total, offset) <==> (start <= i < start + BatchSize || i + total < start + BatchSize)
  {
    LargeBatch(total, offset);
    var b := BatchIndices(total, offset);
    var start := offset % total;
    if start <= i < start + BatchSize {
      assert b[i - start] == i;
    } else if i + total < start + BatchSize {
      assert b[i + total - start] == i;
    }
  }

  /**
   * With at most 30 ticks a round sends the positions from the start to
   * the end of the list and no more: all of them only when the start is 0.
   */
  lemma SmallBatch(total: nat, offset: int)
    requires 0 < total <= BatchSize
    ensures var b := BatchIndices(total, offset);
      && |b| == total - offset % total
      && (forall k :: 0 <= k < |b| ==> b[k] == offset % total + k)
  {
  }

  /** Twenty ticks after a first round: the offset is 10 and the next round sends only the last 10. */
  lemma SmallListPartialRound()
    ensures NextOffset(0, 20) == 10
    ensures |BatchIndices(20, 0)| == 20 && |BatchIndices(20, 10)| == 10
  {
    SmallBatch(20, 0);
    SmallBatch(20, 10);
  }

  // ---------------------------------------------------------------------
  // Latest ticks

  /** `latest_market_data.items()`: instrument ids with their latest tick, in first-arrival order. */
  type Latest = seq<(string, string)>

  predicate UniqueIds(l: Latest)
  {
    forall i, j :: 0 <= i < j < |l| ==> l[i].0 != l[j].0
  }

  function Ids(l: Latest): (ids: seq<string>)
    ensures |ids| == |l| && forall i :: 0 <= i < |l| ==> ids[i] == l[i].0
  {
    seq(|l|, i requires 0 <= i < |l| => l[i].0)
  }

  /**
   * `latest_market_data[instrument_id] = market_data`: a known instrument
   * keeps its place and gets the new tick; a new one is added at the end.
   */
  function Upsert(l: Latest, id: string, tick: string): (l': Latest)
    requires UniqueIds(l)
    ensures UniqueIds(l')
    ensures id in Ids(l) ==> Ids(l') == Ids(l)
    ensures id !in Ids(l) ==> Ids(l') == Ids(l) + [id]
    ensures exists i :: 0 <= i < |l'| && l'[i] == (id, tick)
    ensures forall i :: 0 <= i < |l| && l[i].0 != id ==> l'[i] == l[i]
  {
    if id in Ids(l) then
      var j :| 0 <= j < |l| && l[j].0 == id;
      var l' := l[j := (id, tick)];
      assert l'[j] == (id, tick);
      l'
    else
      var l' := l + [(id, tick)];
      assert l'[|l|] == (id, tick);
      l'
  }

  // ---------------------------------------------------------------------
  // The feed

  class MarketFeed {
    /** `market_subscribers`. */
    var subscribers: set<string>
    /** `latest_market_data`. */
    var latest: Latest
    /** `send_batch_offset`. */
    var offset: int
    /**
     * The `market_data` emits so far, one entry per tick sent in a round:
     * the tick and the clients whose emit of it went through.
     */
    var emits: seq<(string, set<string>)>

    predicate Valid()
      reads this
    {
      UniqueIds(latest) && offset >= 0
    }

    /** The globals at start-up: no subscriber, no tick, offset 0. */
    constructor()
      ensures Valid() && subscribers == {} && latest == [] && offset == 0 && emits == []
    {
      subscribers := {};
      latest := [];
      offset := 0;
      emits := [];
    }

    /** `subscribe_market`: the client's sid joins the set. */
    method Subscribe(sid: string)
      modifies this
      ensures subscribers == old(subscribers) + {sid}
      ensures latest == old(latest) && offset == old(offset) && emits == old(emits)
    {
      subscribers := subscribers + {sid};
    }

    /** `unsubscribe_market` and `disconnect`: the sid leaves the set, whether or not it was in it. */
    method Discard(sid: string)
      modifies this
      ensures subscribers == old(subscribers) - {sid}
      ensures latest == old(latest) && offset == old(offset) && emits == old(emits)
    {
      subscribers := subscribers - {sid};
    }

    /** The Redis listener's update for one tick message. */
    method StoreTick(id: string, tick: string)
      requires Valid()
      modifies this
      ensures Valid()
      ensures latest == Upsert(old(latest), id, tick)
      ensures subscribers == old(subscribers) && offset == old(offset) && emits == old(emits)
    {
      latest := Upsert(latest, id, tick);
    }

    /**
     * One round of `background_task`.  With ticks and subscribers, the
     * batch is chosen from the offset, the offset moves on by 30 around the
     * list, and every tick of the batch, in batch order, is emitted to every
     * client still subscribed.  `failing(k)` are the clients whose emit of
     * the k-th tick of the batch raises; each is dropped from the set at that
     * emit and gets none of the later ticks.  Returns the number of emits
     * that went through.
     */
    method Round(failing: nat -> set<string>) returns (sent: nat)
      requires Valid()
      modifies this
      ensures Valid() && latest == old(latest)
      ensures old(latest) == [] || old(subscribers) == {} ==>
        subscribers == old(subscribers) && offset == old(offset) && emits == old(emits) && sent == 0
      ensures old(latest) != [] && old(subscribers) != {} ==>
        var b := BatchIndices(|old(latest)|, old(offset));
        && offset == NextOffset(old(offset), |latest|)
        && subscribers == Live(old(subscribers), failing, |b|)
        && emits == old(emits) + Sent(old(latest), b, old(subscribers), failing)
        && sent == EmitCount(old(subscribers), failing, |b|)
    {
      sent := 0;
      if latest == [] || subscribers == {} {
        return;
      }
      var total := |latest|;
      var batch := BatchIndices(total, offset);
      BatchNotEmpty(total, offset);
      offset := NextOffset(offset, total);
      sent := EmitBatch(batch, failing);
    }

    /**
     * The `for instrument_id, market_data in send_items` loop: each tick of
     * the batch in turn is emitted to the clients still subscribed.
     */
    method EmitBatch(batch: seq<nat>, failing: nat -> set<string>) returns (sent: nat)
      requires forall k :: 0 <= k < |batch| ==> batch[k] < |latest|
      modifies this
      ensures latest == old(latest) && offset == old(offset)
      ensures subscribers == Live(old(subscribers), failing, |batch|)
      ensures emits == old(emits) + Sent(latest, batch, old(subscribers), failing)
      ensures sent == EmitCount(old(subscribers), failing, |batch|)
    {
      sent := 0;
      ghost var all := subscribers;
      var k := 0;
      while k < |batch|
        invariant 0 <= k <= |batch|
        invariant subscribers == Live(all, failing, k)
        invariant sent == EmitCount(all, failing, k)
        invariant latest == old(latest) && offset == old(offset)
        invariant emits == old(emits) + Sent(latest, batch[..k], all, failing)
      {
        var emitted := EmitToAll(latest[batch[k]].1, failing(k));
        assert subscribers == Live(all, failing, k + 1);
        SentStep(latest, batch, k, all, failing);
        sent := sent + emitted;
        k := k + 1;
      }
      assert batch[..k] == batch;
    }

    /**
     * The inner loop for one tick: every client in a snapshot of the set
     * gets the tick, and a client whose emit raises is discarded.  The tick
     * is logged with the clients it reached.
     */
    method EmitToAll(tick: string, failing: set<string>) returns (emitted: nat)
      modifies this
      ensures subscribers == old(subscribers) - failing
      ensures emits == old(emits) + [(tick, old(subscribers) - failing)]
      ensures emitted == |old(subscribers) - failing|
      ensures latest == old(latest) && offset == old(offset)
    {
      var clients := subscribers;
      ghost var all := subscribers;
      ghost var done: set<string> := {};
      var reached: set<string> := {};
      emitted := 0;
      while clients != {}
        invariant done + clients == all && done !! clients
        invariant subscribers == all - done * failing
        invariant reached == done - failing && emitted == |reached|
        invariant latest == old(latest) && offset == old(offset) && emits == old(emits)
        decreases |clients|
      {
        var c :| c in clients;
        TakeOne(all, done, clients, c, failing);
        if c in failing {
          subscribers := subscribers - {c};
        } else {
          reached := reached + {c};
          emitted := emitted + 1;
        }
        done := done + {c};
        clients := clients - {c};
      }
      assert done == all;
      emits := emits + [(tick, reached)];
    }
  }

  /**
   * The clients still subscribed after the first k ticks of a round that
   * started with `live`: each tick drops the clients whose emit of it failed.
   */
  function Live(live: set<string>, failing: nat -> set<string>, k: nat): (r: set<string>)
    ensures r <= live
    ensures forall j :: 0 <= j < k ==> r !! failing(j)
  {
    if k == 0 then live else Live(live, failing, k - 1) - failing(k - 1)
  }

  /** The number of emits that go through in the first k ticks of a round. */
  function EmitCount(live: set<string>, failing: nat -> set<string>, k: nat): nat
  {
    if k == 0 then 0 else EmitCount(live, failing, k - 1) + |Live(live, failing, k)|
  }

  /** The emits of one round: each tick of the batch, in batch order, with the clients it reached. */
  function Sent(l: Latest, batch: seq<nat>, live: set<string>, failing: nat -> set<string>): seq<(string, set<string>)>
    requires forall k :: 0 <= k < |batch| ==> batch[k] < |l|
  {
    seq(|batch|, k requires 0 <= k < |batch| => (l[batch[k]].1, Live(live, failing, k + 1)))
  }

  /** One more tick of the batch appends its emit. */
  lemma SentStep(l: Latest, batch: seq<nat>, k: nat, live: set<string>, failing: nat -> set<string>)
    requires forall m :: 0 <= m < |batch| ==> batch[m] < |l|
    requires k < |batch|
    ensures Sent(l, batch[..k + 1], live, failing)
      == Sent(l, batch[..k], live, failing) + [(l[batch[k]].1, Live(live, failing, k + 1))]
  {
    assert batch[..k + 1][..k] == batch[..k];
  }

  /** The clients still subscribed only shrink as a round goes on. */
  lemma {:induction false} LiveShrinks(live: set<string>, failing: nat -> set<string>, j: nat, k: nat)
    requires j <= k
    ensures Live(live, failing, k) <= Live(live, failing, j)
    decreases k - j
  {
    if j < k {
      LiveShrinks(live, failing, j, k - 1);
    }
  }

  /**
   * A client is still subscribed after k ticks exactly when it started
   * subscribed and none of its first k emits failed.
   */
  lemma {:induction false} LiveExactly(live: set<string>, failing: nat -> set<string>, k: nat, c: string)
    ensures c in Live(live, failing, k) <==> c in live && forall j :: 0 <= j < k ==> c !in failing(j)
  {
    if k > 0 {
      LiveExactly(live, failing, k - 1, c);
    }
  }

  /** A round emits at most once per tick per starting subscriber, and exactly that when no emit fails. */
  lemma {:induction false} EmitCountBound(live: set<string>, failing: nat -> set<string>, k: nat)
    ensures EmitCount(live, failing, k) <= k * |live|
    ensures (forall j :: 0 <= j < k ==> failing(j) == {}) ==> EmitCount(live, failing, k) == k * |live|
  {
    if k > 0 {
      EmitCountBound(live, failing, k - 1);
      var r := Live(live, failing, k);
      assert live == r + (live - r);
      assert k * |live| == (k - 1) * |live| + |live|;
      if forall j :: 0 <= j < k ==> failing(j) == {} {
        LiveNoFailure(live, failing, k);
      }
    }
  }

  /** With no failing emit the set of clients stays as it started. */
  lemma {:induction false} LiveNoFailure(live: set<string>, failing: nat -> set<string>, k: nat)
    requires forall j :: 0 <= j < k ==> failing(j) == {}
    ensures Live(live, failing, k) == live
  {
    if k > 0 {
      LiveNoFailure(live, failing, k - 1);
    }
  }

  /**
   * A client whose emit of the j-th tick fails receives the ticks before it
   * it was still subscribed for, and none from the j-th on.
   */
  lemma FailedGetsNoMore(l: Latest, batch: seq<nat>, live: set<string>, failing: nat -> set<string>, j: nat, c: string)
    requires forall k :: 0 <= k < |batch| ==> batch[k] < |l|
    requires j < |batch| && c in failing(j)
    ensures forall k :: j <= k < |batch| ==> c !in Sent(l, batch, live, failing)[k].1
  {
    forall k | j <= k < |batch|
      ensures c !in Sent(l, batch, live, failing)[k].1
    {
      LiveExactly(live, failing, k + 1, c);
    }
  }

  /**
   * With more than 30 ticks, a client still subscribed at the end of a
   * round received in it the latest tick of each instrument fewer than 30
   * places on from the start, going round the list.
   */
  lemma RoundCovers(l: Latest, offset: int, live: set<string>, failing: nat -> set<string>, i: nat, c: string)
    requires |l| > BatchSize && i < |l|
    requires var start := offset % |l|; start <= i < start + BatchSize || i + |l| < start + BatchSize
    requires c in Live(live, failing, |BatchIndices(|l|, offset)|)
    ensures exists k ::
      (0 <= k < |BatchIndices(|l|, offset)|
       && Sent(l, BatchIndices(|l|, offset), live, failing)[k] == (l[i].1, Live(live, failing, k + 1))
       && c in Live(live, failing, k + 1))
  {
    var b := BatchIndices(|l|, offset);
    LargeBatchCovers(|l|, offset, i);
    var k :| 0 <= k < |b| && b[k] == i;
    LiveShrinks(live, failing, k + 1, |b|);
    assert Sent(l, b, live, failing)[k] == (l[i].1, Live(live, failing, k + 1));
  }

  /** Moving one client from the snapshot to the clients already handled. */
  lemma TakeOne(all: set<string>, done: set<string>, clients: set<string>, c: string, failing: set<string>)
    requires done !! clients && c in clients
    ensures all - (done + {c}) * failing == if c in failing then (all - done * failing) - {c} else all - done * failing
    ensures (done + {c}) + (clients - {c}) == done + clients && (done + {c}) !! (clients - {c})
    ensures (done + {c}) * failing == if c in failing then done * failing + {c} else done * failing
    ensures (done + {c}) - failing == if c in failing then done - failing else (done - failing) + {c}
    ensures c !in done - failing
  {
  }

  /** Discarding is idempotent: a second discard of the same sid changes nothing. */
  lemma DiscardIdempotent(s: set<string>, sid: string)
    ensures (s - {sid}) - {sid} == s - {sid}
    ensures sid !in s - {sid}
  {
  }
}
