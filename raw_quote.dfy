// The market-data side of the raw-tick publisher: the depth-market callback
// that hands each tick to the primary queue, or to the overflow queue when
// the primary one is full; the symbol prefix helper; the batched
// subscription request; and the exit-time rule fixed when the API is
// created.
module RawQuote {
  import opened Wrappers
  import opened Fields
  import opened Queues
  import Text
  import Numbers

  // ---------------------------------------------------------------------
  // get_prefix

  /** The longest prefix of `s` without an ASCII digit. */
  function Prefix(s: string): (r: string)
    ensures |r| <= |s| && r == s[..|r|]
    ensures forall i :: 0 <= i < |r| ==> !Numbers.IsDigit(r[i])
    ensures |r| < |s| ==> Numbers.IsDigit(s[|r|])
  {
    if s == [] || Numbers.IsDigit(s[0]) then [] else [s[0]] + Prefix(s[1..])
  }

  /** `get_prefix`: characters are pushed back until the first digit. */
  method GetPrefix(instrID: string) returns (ret: string)
    ensures ret == Prefix(instrID)
  {
    ret := [];
    var i := 0;
    while i < |instrID|
      invariant 0 <= i <= |instrID|
      invariant ret == instrID[..i]
      invariant forall k :: 0 <= k < i ==> !Numbers.IsDigit(instrID[k])
    {
      var c := instrID[i];
      if '0' <= c <= '9' {
        break;
      }
      ret := ret + [c];
      i := i + 1;
    }
    PrefixUnique(instrID, ret);
  }

  /** A digit-free prefix that stops at a digit or at the end is the prefix. */
  lemma {:induction false} PrefixUnique(s: string, p: string)
    requires |p| <= |s| && p == s[..|p|]
    requires forall i :: 0 <= i < |p| ==> !Numbers.IsDigit(p[i])
    requires |p| < |s| ==> Numbers.IsDigit(s[|p|])
    ensures p == Prefix(s)
  {
    if p != [] {
      assert p[0] == s[0];
      PrefixUnique(s[1..], p[1..]);
    }
  }

  /** Taking the prefix twice gives the same prefix. */
  lemma PrefixIdempotent(s: string)
    ensures Prefix(Prefix(s)) == Prefix(s)
  {
    var p := Prefix(s);
    PrefixUnique(p, p);
  }

  // ---------------------------------------------------------------------
  // subscribe

  /**
   * A contract name as `snprintf(buf[idx], 32, "%s", m.c_str())` leaves it
   * in a 32-byte row: the text before the first NUL, at most 31 characters.
   */
  function BufferName(m: string): (r: string)
    ensures |r| <= 31 && |r| <= |m| && r == m[..|r|]
    ensures '\0' !in r
    ensures '\0' !in m && |m| <= 31 ==> r == m
    ensures '\0' !in m && |m| > 31 ==> r == m[..31]
  {
    var s := m[..Text.NextDelim(m, '\0', 0)];
    Text.BeforeDelim(m, '\0');
    if |s| <= 31 then s else s[..31]
  }

  function Names(contracts: seq<string>): (r: seq<string>)
    ensures |r| == |contracts|
    ensures forall i :: 0 <= i < |contracts| ==> r[i] == BufferName(contracts[i])
  {
    seq(|contracts|, i requires 0 <= i < |contracts| => BufferName(contracts[i]))
  }

  /** The names of all subscription requests, one request after the other. */
  function Flatten(calls: seq<seq<string>>): seq<string>
  {
    if calls == [] then [] else Flatten(calls[..|calls| - 1]) + calls[|calls| - 1]
  }

  lemma PendingStep(sent: seq<string>, pending: seq<string>, names: seq<string>, i: nat)
    requires i < |names| && sent + pending == names[..i]
    ensures sent + (pending + [names[i]]) == names[..i + 1]
  {
    assert names[..i + 1] == names[..i] + [names[i]];
  }

  lemma FlattenAppend(calls: seq<seq<string>>, c: seq<string>)
    ensures Flatten(calls + [c]) == Flatten(calls) + c
  {
    assert (calls + [c])[..|calls|] == calls;
  }

  // ---------------------------------------------------------------------
  // Exit time

  /** An hour and minute read with `strptime(..., "%H:%M:%S", ...)`. */
  datatype ClockTime = ClockTime(hour: nat, minute: nat)

  /**
   * The exit rule of `Create`, in seconds.  `today` is the local midnight
   * of `now`; `mktime` normalisation is plain addition and a local day has
   * 86400 seconds.  The cutoff is today at dayend's hour and minute + 5,
   * second 0; when `now` is already past it, tomorrow at nightend's hour
   * and minute, second 59.
   */
  function ExitTime(now: int, today: int, dayend: ClockTime, nightend: ClockTime): (r: int)
    requires today <= now < today + 86400
    ensures r >= now
    ensures now <= today + 3600 * dayend.hour + 60 * (dayend.minute + 5) ==>
      r == today + 3600 * dayend.hour + 60 * (dayend.minute + 5)
    ensures now > today + 3600 * dayend.hour + 60 * (dayend.minute + 5) ==>
      r == today + 86400 + 3600 * nightend.hour + 60 * nightend.minute + 59 && r > today + 86400
  {
    var exitTs := today + 3600 * dayend.hour + 60 * (dayend.minute + 5);
    if now > exitTs then today + 86400 + 3600 * nightend.hour + 60 * nightend.minute + 59
    else exitTs
  }

  // ---------------------------------------------------------------------
  // The market-data callback object

  /** Where the callback put a tick. */
  datatype Delivery = Skipped | ToPrimary | ToOverflow | Dropped

  class MarketSpi {
    var hasApi: bool
    var requestid: int
    var exitTs: int

    constructor ()
      ensures !hasApi
    {
      hasApi := false;
      requestid := 0;
      exitTs := 0;
    }

    /**
     * `Create`: when the vendor API object could be made, the exit time is
     * fixed and the request counter restarts at 0.
     */
    method Create(apiCreated: bool, now: int, today: int, dayend: ClockTime, nightend: ClockTime) returns (ok: bool)
      requires today <= now < today + 86400
      modifies this
      ensures ok == apiCreated && hasApi == apiCreated
      ensures ok ==> exitTs == ExitTime(now, today, dayend, nightend) && exitTs >= now && requestid == 0
      ensures !ok ==> exitTs == old(exitTs) && requestid == old(requestid)
    {
      hasApi := apiCreated;
      if apiCreated {
        exitTs := ExitTime(now, today, dayend, nightend);
        requestid := 0;
      }
      ok := apiCreated;
    }

    /** `login`: the request goes out with `++requestid`, and only when there is an API object. */
    method Login() returns (sent: Option<int>)
      modifies this
      ensures hasApi == old(hasApi) && exitTs == old(exitTs)
      ensures old(hasApi) ==> requestid == old(requestid) + 1 && sent == Some(requestid)
      ensures !old(hasApi) ==> requestid == old(requestid) && sent == None
    {
      if hasApi {
        requestid := requestid + 1;
        sent := Some(requestid);
      } else {
        sent := None;
      }
    }

    /**
     * `OnRtnDepthMarketData`: a null tick is skipped; otherwise the tick goes
     * to `q` when it has room, else to `bufq` when that has room, else it is
     * lost with nothing but a log line.
     */
    method OnRtnDepthMarketData(tick: Option<Record>, q: BoundedQueue<Record>, bufq: BoundedQueue<Record>)
      returns (d: Delivery)
      requires q.Valid() && bufq.Valid() && q != bufq
      modifies q, bufq
      ensures q.Valid() && bufq.Valid()
      ensures tick.None? ==> d == Skipped && q.items == old(q.items) && bufq.items == old(bufq.items)
      ensures tick.Some? && old(|q.items|) < q.capacity ==>
        d == ToPrimary && q.items == old(q.items) + [tick.value] && bufq.items == old(bufq.items)
      ensures tick.Some? && old(|q.items|) >= q.capacity && old(|bufq.items|) < bufq.capacity ==>
        d == ToOverflow && q.items == old(q.items) && bufq.items == old(bufq.items) + [tick.value]
      ensures tick.Some? && old(|q.items|) >= q.capacity && old(|bufq.items|) >= bufq.capacity ==>
        d == Dropped && q.items == old(q.items) && bufq.items == old(bufq.items)
    {
      if tick.None? {
        return Skipped;
      }
      var ok := q.TryEnqueue(tick.value);
      if ok {
        return ToPrimary;
      }
      ok := bufq.TryEnqueue(tick.value);
      d := if ok then ToOverflow else Dropped;
    }

    /** The `memset` of every buffer row. */
    static method ClearRows(buf: array<string>)
      modifies buf
      ensures forall j :: 0 <= j < buf.Length ==> buf[j] == ""
    {
      var j := 0;
      while j < buf.Length
        invariant 0 <= j <= buf.Length
        invariant forall k :: 0 <= k < j ==> buf[k] == ""
      {
        buf[j] := "";
        j := j + 1;
      }
    }

    /**
     * `subscribe`: the names are copied into a 100-row buffer; each time the
     * buffer is full it is sent as one request and cleared; whatever is in
     * it at the end is sent as the last request, even when that is nothing.
     * The result lists the names of each request in the order sent.
     */
    static method Subscribe(contracts: seq<string>) returns (calls: seq<seq<string>>)
      ensures |calls| >= 1
      ensures forall k :: 0 <= k < |calls| - 1 ==> |calls[k]| == 100
      ensures |calls[|calls| - 1]| == |contracts| - 100 * (|calls| - 1)
      ensures contracts != [] ==> 1 <= |calls[|calls| - 1]| <= 100
      ensures contracts == [] ==> calls == [[]]
      ensures Flatten(calls) == Names(contracts)
    {
      var buf := new string[100](_ => "");
      var idx := 0;
      var i := 0;
      calls := [];
      ghost var names := Names(contracts);
      while i < |contracts|
        invariant 0 <= idx <= 100 && 0 <= i <= |contracts|
        invariant i == 100 * |calls| + idx
        invariant i > 0 ==> idx >= 1
        invariant forall k :: 0 <= k < |calls| ==> |calls[k]| == 100
        invariant Flatten(calls) + buf[..idx] == names[..i]
      {
        if idx == 100 {
          var batch := buf[..100];
          FlattenAppend(calls, batch);
          calls := calls + [batch];
          idx := 0;
          ClearRows(buf);
        }
        ghost var pending := buf[..idx];
        var name := BufferName(contracts[i]);
        buf[idx] := name;
        assert buf[..idx + 1] == pending + [name];
        PendingStep(Flatten(calls), pending, names, i);
        idx := idx + 1;
        i := i + 1;
      }
      FlattenAppend(calls, buf[..idx]);
      calls := calls + [buf[..idx]];
    }
  }
}
