// The trader session of the string-based quote program: the handshake
// callbacks chain authentication, login and the instrument query, and the
// instrument replies build the list of contracts to subscribe to and raise
// the ready flag the main program waits for.  The contract list and the
// flag, globals of the program, are fields of the session object here.
module Trader {
  import opened Wrappers
  import Text

  /** A request sent to the trading front, with the request id it carried. */
  datatype Request = ReqAuthenticate(id: int) | ReqUserLogin(id: int) | ReqQryInstrument(id: int)

  /**
   * The vendor callbacks the session reacts to.  An error field is the
   * `ErrorID` of a response that carries one; `rspInfo` is `None` for a null
   * `pRspInfo`, `instrument` is the `ExchangeInstID` of a non-null
   * instrument.
   */
  datatype Event =
    | FrontConnected
    | RspAuthenticate(errorID: int)
    | RspUserLogin(errorID: int)
    | RspQryInstrument(rspInfo: Option<int>, instrument: Option<string>, isLast: bool)

  /** A symbol is kept when it mentions neither "efp" nor "EFP" and has at most six characters. */
  predicate Keep(symbol: string)
  {
    !Text.Contains(symbol, "efp") && !Text.Contains(symbol, "EFP") && |symbol| <= 6
  }

  /** The symbols the instrument replies among `events` add to the contract list, in arrival order. */
  function KeptSymbols(events: seq<Event>): (r: seq<string>)
    ensures |r| <= |events|
    ensures forall i :: 0 <= i < |r| ==> Keep(r[i])
  {
    if events == [] then []
    else
      var e := events[|events| - 1];
      var add := if e.RspQryInstrument? && e.rspInfo.None? && e.instrument.Some? && Keep(e.instrument.value)
                 then [e.instrument.value] else [];
      KeptSymbols(events[..|events| - 1]) + add
  }

  /** Whether some reply among `events` is a non-null last instrument without error information. */
  predicate SawLast(events: seq<Event>)
  {
    exists i :: 0 <= i < |events| && events[i].RspQryInstrument? && events[i].rspInfo.None?
                && events[i].instrument.Some? && events[i].isLast
  }

  class TraderSpi {
    var hasApi: bool
    var requestid: int
    var contracts: seq<string>
    var isReady: bool
    var requests: seq<Request>

    /** The program starts with no contracts and the flag down. */
    constructor ()
      ensures !hasApi && contracts == [] && !isReady && requests == []
    {
      hasApi := false;
      requestid := 0;
      contracts := [];
      isReady := false;
      requests := [];
    }

    /** `Create`: when the vendor API object could be made, the request counter restarts at 0. */
    method Create(apiCreated: bool) returns (ok: bool)
      modifies this`hasApi, this`requestid
      ensures ok == apiCreated && hasApi == apiCreated
      ensures ok ==> requestid == 0
      ensures !ok ==> requestid == old(requestid)
    {
      hasApi := apiCreated;
      if apiCreated {
        requestid := 0;
      }
      ok := apiCreated;
    }

    /** `Authenticate`: the request carries the counter's value, which is then incremented. */
    method Authenticate()
      requires hasApi
      modifies this`requestid, this`requests
      ensures requestid == old(requestid) + 1
      ensures requests == old(requests) + [ReqAuthenticate(old(requestid))]
    {
      requests := requests + [ReqAuthenticate(requestid)];
      requestid := requestid + 1;
    }

    /** `Login`: the counter is incremented first and the request carries the new value; nothing without an API object. */
    method Login()
      modifies this`requestid, this`requests
      ensures hasApi ==> requestid == old(requestid) + 1 && requests == old(requests) + [ReqUserLogin(requestid)]
      ensures !hasApi ==> requestid == old(requestid) && requests == old(requests)
    {
      if hasApi {
        requestid := requestid + 1;
        requests := requests + [ReqUserLogin(requestid)];
      }
    }

    /** `ReqInstruments`: the request carries the counter's value, which is then incremented. */
    method ReqInstruments()
      requires hasApi
      modifies this`requestid, this`requests
      ensures requestid == old(requestid) + 1
      ensures requests == old(requests) + [ReqQryInstrument(old(requestid))]
    {
      requests := requests + [ReqQryInstrument(requestid)];
      requestid := requestid + 1;
    }

    /**
     * `OnRspQryInstrument`: error information ends the call with nothing
     * changed; a kept symbol is appended; a last non-null instrument raises
     * the ready flag, which is never lowered.
     */
    method OnRspQryInstrument(rspInfo: Option<int>, instrument: Option<string>, isLast: bool)
      modifies this`contracts, this`isReady
      ensures rspInfo.Some? || instrument.None? ==> contracts == old(contracts) && isReady == old(isReady)
      ensures rspInfo.None? && instrument.Some? ==>
        contracts == old(contracts) + (if Keep(instrument.value) then [instrument.value] else [])
      ensures rspInfo.None? && instrument.Some? ==> isReady == (old(isReady) || isLast)
    {
      if rspInfo.Some? {
        return;
      }
      if instrument.Some? {
        var symbol := instrument.value;
        if Text.Contains(symbol, "efp") || Text.Contains(symbol, "EFP") {
        } else if |symbol| > 6 {
        } else {
          contracts := contracts + [symbol];
        }
        if isLast {
          isReady := true;
        }
      }
    }

    /**
     * One vendor callback: a connected front starts authentication, a
     * successful authentication the login, a successful login the
     * instrument query; a non-zero `ErrorID` stops the chain there.
     */
    method Handle(e: Event)
      requires hasApi
      modifies this`requestid, this`requests, this`contracts, this`isReady
      ensures hasApi
      ensures e.FrontConnected? || ((e.RspAuthenticate? || e.RspUserLogin?) && e.errorID == 0) ==>
        requestid == old(requestid) + 1
      ensures e.FrontConnected? ==> requests == old(requests) + [ReqAuthenticate(old(requestid))]
      ensures e.RspAuthenticate? && e.errorID == 0 ==> requests == old(requests) + [ReqUserLogin(old(requestid) + 1)]
      ensures e.RspUserLogin? && e.errorID == 0 ==> requests == old(requests) + [ReqQryInstrument(old(requestid))]
      ensures (e.RspAuthenticate? || e.RspUserLogin?) && e.errorID != 0 ==>
        requests == old(requests) && requestid == old(requestid)
      ensures !e.RspQryInstrument? ==> contracts == old(contracts) && isReady == old(isReady)
      ensures e.RspQryInstrument? ==> requests == old(requests) && requestid == old(requestid)
      ensures contracts == old(contracts) + KeptSymbols([e])
      ensures isReady == (old(isReady) || SawLast([e]))
    {
      match e
      case FrontConnected => Authenticate();
      case RspAuthenticate(err) =>
        if err == 0 { Login(); }
      case RspUserLogin(err) =>
        if err == 0 { ReqInstruments(); }
      case RspQryInstrument(info, inst, last) =>
        OnRspQryInstrument(info, inst, last);
    }

    /**
     * The main program's wait: callbacks are taken in turn until the ready
     * flag is up.  `n` is how many were taken; the contract list has grown
     * by exactly the kept symbols among them, in order.
     */
    method AwaitReady(events: seq<Event>) returns (n: nat)
      requires hasApi
      modifies this`requestid, this`requests, this`contracts, this`isReady
      ensures hasApi && n <= |events|
      ensures contracts == old(contracts) + KeptSymbols(events[..n])
      ensures isReady == (old(isReady) || SawLast(events[..n]))
      ensures !isReady ==> n == |events|
      ensures isReady && !old(isReady) ==> n > 0 && !SawLast(events[..n - 1])
    {
      n := 0;
      while n < |events| && !isReady
        invariant n <= |events| && hasApi
        invariant contracts == old(contracts) + KeptSymbols(events[..n])
        invariant isReady == (old(isReady) || SawLast(events[..n]))
        invariant !old(isReady) && n > 0 ==> !SawLast(events[..n - 1])
        invariant old(isReady) ==> n == 0
      {
        Handle(events[n]);
        assert events[..n + 1] == events[..n] + [events[n]];
        SawLastAppend(events[..n], events[n]);
        n := n + 1;
      }
    }
  }

  lemma SawLastAppend(es: seq<Event>, e: Event)
    ensures SawLast(es + [e]) <==> SawLast(es) || SawLast([e])
    ensures KeptSymbols(es + [e]) == KeptSymbols(es) + KeptSymbols([e])
  {
    assert (es + [e])[..|es|] == es;
    assert [e][..0] == [];
    if SawLast(es + [e]) && !SawLast([e]) {
      var i :| 0 <= i < |es + [e]| && (es + [e])[i].RspQryInstrument? && (es + [e])[i].rspInfo.None?
                && (es + [e])[i].instrument.Some? && (es + [e])[i].isLast;
      assert i < |es|;
    }
    if SawLast([e]) { assert (es + [e])[|es|] == e; }
  }

  /**
   * From a fresh session, a connected front followed by successful
   * authentication and login sends ids 0, 2 and 2: the authentication
   * post-increments, the login pre-increments and the instrument query
   * post-increments the counter.
   */
  method Handshake() returns (t: TraderSpi)
    ensures t.requests == [ReqAuthenticate(0), ReqUserLogin(2), ReqQryInstrument(2)]
    ensures t.requestid == 3
  {
    t := new TraderSpi();
    var ok := t.Create(true);
    t.Handle(FrontConnected);
    t.Handle(RspAuthenticate(0));
    t.Handle(RspUserLogin(0));
  }

  /** A failed authentication never gets as far as the login, nor a failed login as far as the query. */
  method FailedHandshake(authError: int, loginError: int) returns (t: TraderSpi)
    requires authError != 0 || loginError != 0
    ensures authError != 0 ==> t.requests == [ReqAuthenticate(0)]
    ensures authError == 0 ==> t.requests == [ReqAuthenticate(0), ReqUserLogin(2)]
  {
    t := new TraderSpi();
    var ok := t.Create(true);
    t.Handle(FrontConnected);
    t.Handle(RspAuthenticate(authError));
    if authError == 0 {
      t.Handle(RspUserLogin(loginError));
    }
  }
}
