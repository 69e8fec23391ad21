// The market-data callback of the older, string-based quote program.  Each
// tick becomes one text line, "EL/CTP_XZ/<id>/O/1 || " followed by thirteen
// comma-separated fields, and the line goes to the one bounded queue, or to
// standard error when that queue is full.  For instruments of the products
// listed in `DECSymbols` the action day of the line is the local date.
//
// Its `Create`, `login`, `subscribe` and `get_prefix` are the same code as
// the raw-tick program's and are modelled once, in `RawQuote`.
module LegacyQuote {
  import opened Wrappers
  import opened Queues
  import Text
  import Numbers
  import RawQuote

  /**
   * The fields of the vendor tick the line is made of.  Prices, open
   * interest and turnover are doubles; they are carried as the text the
   * stream writes for them (precision 12), which the model does not compute.
   */
  datatype Tick = Tick(instrumentID: string, actionDay: string, updateTime: string, updateMillisec: int,
                       bidPrice: string, askPrice: string, bidVolume: int, askVolume: int,
                       lastPrice: string, volume: int, openInterest: string, turnover: string,
                       tradingDay: string)

  /**
   * A bid or ask price as written: `0` when the price is above 1000000.0,
   * the price otherwise.  The comparison of doubles is the input `tooHigh`.
   */
  function Quoted(price: string, tooHigh: string -> bool): (r: string)
    ensures r == price || r == "0"
    ensures !tooHigh(price) ==> r == price
  {
    if tooHigh(price) then "0" else price
  }

  /**
   * The action day written for a tick: the local date (`%Y%m%d`) when the
   * instrument's product prefix is one of `decSymbols`, the tick's own
   * `ActionDay` otherwise.
   */
  function ActionDay(t: Tick, decSymbols: seq<string>, localDate: string): string
  {
    if RawQuote.Prefix(t.instrumentID) in decSymbols then localDate else t.actionDay
  }

  /** The topic in front of every line. */
  function Header(id: string): (h: string)
    ensures |h| == 18 + |id| && h[..10] == "EL/CTP_XZ/"
  {
    "EL/CTP_XZ/" + id + "/O/1 || "
  }

  /**
   * The thirteen fields after the header, in the order they are streamed;
   * the ninth is empty (the `",,"` after the volume).  `stamp` is the local
   * receive time the callback formats from the clock.
   */
  function LineFields(t: Tick, decSymbols: seq<string>, localDate: string, stamp: string,
                      tooHigh: string -> bool): (fs: seq<string>)
    ensures |fs| == 13
  {
    [t.instrumentID,
     ActionDay(t, decSymbols, localDate) + " " + t.updateTime + "." + Numbers.IntToString(t.updateMillisec),
     Quoted(t.bidPrice, tooHigh), Quoted(t.askPrice, tooHigh),
     Numbers.IntToString(t.bidVolume), Numbers.IntToString(t.askVolume),
     t.lastPrice, Numbers.IntToString(t.volume), "",
     t.openInterest, t.turnover, stamp, t.tradingDay]
  }

  /** The line the callback builds with its `ostringstream`. */
  function TickLine(t: Tick, decSymbols: seq<string>, localDate: string, stamp: string,
                    tooHigh: string -> bool): string
  {
    Header(t.instrumentID) + Text.Join(LineFields(t, decSymbols, localDate, stamp, tooHigh), ',')
  }

  /** The texts that go into a line hold no comma. */
  predicate CommaFree(t: Tick, localDate: string, stamp: string)
  {
    && ',' !in t.instrumentID && ',' !in t.actionDay && ',' !in t.updateTime
    && ',' !in t.bidPrice && ',' !in t.askPrice && ',' !in t.lastPrice
    && ',' !in t.openInterest && ',' !in t.turnover && ',' !in t.tradingDay
    && ',' !in localDate && ',' !in stamp
  }

  lemma IntTextNoComma(n: int)
    ensures ',' !in Numbers.IntToString(n)
  {
    if n < 0 {
      assert Numbers.IntToString(n) == "-" + Numbers.NatToString(-n);
    }
  }

  /**
   * Reading a line back: it starts with the header, and when no text in it
   * holds a comma and the trading day is not empty, splitting the rest at
   * commas gives the thirteen fields: the instrument, the action day with
   * the update time, ..., an empty ninth field, ..., the trading day.
   */
  lemma LineLayout(t: Tick, decSymbols: seq<string>, localDate: string, stamp: string, tooHigh: string -> bool)
    requires CommaFree(t, localDate, stamp) && t.tradingDay != []
    ensures var line := TickLine(t, decSymbols, localDate, stamp, tooHigh);
      var h := Header(t.instrumentID);
      && |h| <= |line| && line[..|h|] == h
      && var fs := Text.Split(line[|h|..], ',');
      && |fs| == 13 && fs[0] == t.instrumentID && fs[8] == [] && fs[12] == t.tradingDay
      && fs[1] == (if RawQuote.Prefix(t.instrumentID) in decSymbols then localDate else t.actionDay)
                  + " " + t.updateTime + "." + Numbers.IntToString(t.updateMillisec)
  {
    var fs := LineFields(t, decSymbols, localDate, stamp, tooHigh);
    var h := Header(t.instrumentID);
    var line := TickLine(t, decSymbols, localDate, stamp, tooHigh);
    IntTextNoComma(t.updateMillisec);
    IntTextNoComma(t.bidVolume);
    IntTextNoComma(t.askVolume);
    IntTextNoComma(t.volume);
    forall i | 0 <= i < |fs| ensures ',' !in fs[i] {
    }
    Text.SplitJoin(fs, ',');
    assert line[|h|..] == Text.Join(fs, ',');
  }

  /** Every line starts with the ten characters "EL/CTP_XZ/". */
  lemma LineTopic(t: Tick, decSymbols: seq<string>, localDate: string, stamp: string, tooHigh: string -> bool)
    ensures var line := TickLine(t, decSymbols, localDate, stamp, tooHigh);
      |line| >= 10 && line[..10] == "EL/CTP_XZ/"
  {
    var h := Header(t.instrumentID);
    var line := TickLine(t, decSymbols, localDate, stamp, tooHigh);
    assert line[..10] == h[..10];
  }

  /**
   * `OnRtnDepthMarketData`: the line is built and offered to the one
   * queue; when the queue is full it is written to standard error
   * (`spilled`) and not kept.  The source does not test the tick pointer.
   */
  method OnRtnDepthMarketData(t: Tick, decSymbols: seq<string>, localDate: string, stamp: string,
                              tooHigh: string -> bool, q: BoundedQueue<string>)
    returns (line: string, spilled: Option<string>)
    requires q.Valid()
    modifies q
    ensures q.Valid()
    ensures line == TickLine(t, decSymbols, localDate, stamp, tooHigh)
    ensures old(|q.items|) < q.capacity ==> q.items == old(q.items) + [line] && spilled == None
    ensures old(|q.items|) >= q.capacity ==> q.items == old(q.items) && spilled == Some(line)
  {
    var prefix := RawQuote.GetPrefix(t.instrumentID);
    var actionday := t.actionDay;
    if prefix in decSymbols {
      actionday := localDate;
    }
    var fields := [t.instrumentID,
                   actionday + " " + t.updateTime + "." + Numbers.IntToString(t.updateMillisec),
                   Quoted(t.bidPrice, tooHigh), Quoted(t.askPrice, tooHigh),
                   Numbers.IntToString(t.bidVolume), Numbers.IntToString(t.askVolume),
                   t.lastPrice, Numbers.IntToString(t.volume), "",
                   t.openInterest, t.turnover, stamp, t.tradingDay];
    line := "EL/CTP_XZ/" + t.instrumentID + "/O/1 || " + Text.Join(fields, ',');
    var ok := q.TryEnqueue(line);
    spilled := if ok then None else Some(line);
  }
}
