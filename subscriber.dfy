// The subscriber of the data-update service.  It takes two-frame messages
// (a type tag and a payload) off the wire and routes each by its exact tag
// to a reader: instruments and investor positions go to the database in
// batches straight away, a trading account row by row, and depth-market
// ticks into a buffer that is written out when it reaches 1000 ticks or
// when a 30-second timer finds it due.  The socket, the clock, the
// protobuf decoder and the database driver's answers are inputs.
module Subscriber {
  import opened Wrappers
  import Numbers
  import opened Fields
  import Text
  import opened CtpStructs
  import LineCodec
  import MarketConverter
  import AccountConverter
  import InstrumentConverter
  import PositionConverter
  import ProtobufConverter
  import MarketMain
  import Database

  /** `maxBufferSize`: the buffer is flushed once it holds this many ticks. */
  const MaxBufferSize: nat := 1000
  /** `batchWriteInterval`, in seconds. */
  const BatchWriteInterval: int := 30
  /** The CSV readers skip payloads longer than this many bytes. */
  const MaxCsvBytes: nat := 10000000
  /** The CSV readers read at most this many lines, empty ones included. */
  const MaxCsvLines: nat := 1000
  /** The characters trimmed from both ends of each CSV field. */
  const FieldBlanks: set<char> := {' ', '\t', '"'}

  // ---------------------------------------------------------------------
  // Routing

  datatype Route =
    | TickRoute | InstrumentRoute | PositionRoute
    | MarketCsvRoute | MarketProtobufRoute | AccountRoute
    | Unmatched

  /** The nine tags `defaultMessageHandler` acts on. */
  const KnownTags: set<string> := {
    "TICK", "INSTRUMENT", "CTP_INSTRUMENT_BATCH_UPDATE",
    "CTP_INVESTOR_POSITION_BATCH_UPDATE", "CTP_INVESTOR_POSITION_CSV_UPDATE",
    "MARKET_DATA", "MARKET_DATA_PROTOBUF",
    "CTP_TRADING_ACCOUNT_UPDATE", "CTP_TRADING_ACCOUNT_CSV_UPDATE"}

  /**
   * `defaultMessageHandler`'s choice of reader, by exact comparison of
   * the whole tag; any other tag is only logged.
   */
  function RouteOf(tag: string): (r: Route)
    ensures r == Unmatched <==> tag !in KnownTags
    ensures r == TickRoute <==> tag == "TICK"
    ensures r == InstrumentRoute <==> tag == "INSTRUMENT" || tag == "CTP_INSTRUMENT_BATCH_UPDATE"
    ensures r == PositionRoute <==>
      tag == "CTP_INVESTOR_POSITION_BATCH_UPDATE" || tag == "CTP_INVESTOR_POSITION_CSV_UPDATE"
    ensures r == MarketCsvRoute <==> tag == "MARKET_DATA"
    ensures r == MarketProtobufRoute <==> tag == "MARKET_DATA_PROTOBUF"
    ensures r == AccountRoute <==> tag == "CTP_TRADING_ACCOUNT_UPDATE" || tag == "CTP_TRADING_ACCOUNT_CSV_UPDATE"
  {
    if tag == "TICK" then TickRoute
    else if tag == "INSTRUMENT" || tag == "CTP_INSTRUMENT_BATCH_UPDATE" then InstrumentRoute
    else if tag == "CTP_INVESTOR_POSITION_BATCH_UPDATE" || tag == "CTP_INVESTOR_POSITION_CSV_UPDATE" then PositionRoute
    else if tag == "MARKET_DATA" then MarketCsvRoute
    else if tag == "MARKET_DATA_PROTOBUF" then MarketProtobufRoute
    else if tag == "CTP_TRADING_ACCOUNT_UPDATE" || tag == "CTP_TRADING_ACCOUNT_CSV_UPDATE" then AccountRoute
    else Unmatched
  }

  /**
   * The types the publishers put on their messages reach the matching
   * readers: the market loop's ticks the protobuf tick reader, the
   * protobuf batches the instrument and position readers.
   */
  lemma PublishedTypesRouted()
    ensures RouteOf(MarketMain.MessageType) == MarketProtobufRoute
    ensures RouteOf(ProtobufConverter.InstrumentBatchType) == InstrumentRoute
    ensures RouteOf(ProtobufConverter.PositionBatchType) == PositionRoute
    ensures RouteOf("tick") == Unmatched && RouteOf("MARKET_DATA ") == Unmatched
  {
  }

  // ---------------------------------------------------------------------
  // The bounded CSV line reader

  /** One line's fields: split at ',' with `getline`, each trimmed of spaces, tabs and double quotes. */
  function TrimmedFields(line: string): (fs: seq<string>)
    ensures |fs| == |Text.Split(line, ',')|
    ensures forall i :: 0 <= i < |fs| ==> fs[i] == Text.Strip(Text.Split(line, ',')[i], FieldBlanks)
  {
    var ps := Text.Split(line, ',');
    seq(|ps|, i requires 0 <= i < |ps| => Text.Strip(ps[i], FieldBlanks))
  }

  /** What one line contributes: its fields when it is not empty and has at least `minFields` of them. */
  function KeptRow(line: string, minFields: nat): (rows: seq<seq<string>>)
    ensures |rows| <= 1
  {
    if line != [] && |TrimmedFields(line)| >= minFields then [TrimmedFields(line)] else []
  }

  /** The rows kept from `lines`, in line order. */
  function KeptRows(lines: seq<string>, minFields: nat): (rows: seq<seq<string>>)
    ensures |rows| <= |lines|
    decreases |lines|
  {
    if lines == [] then []
    else
      var n := |lines| - 1;
      KeptRows(lines[..n], minFields) + KeptRow(lines[n], minFields)
  }

  /** The lines the reader looks at: the first 1000. */
  function ReadLines(content: string): (lines: seq<string>)
    ensures |lines| <= MaxCsvLines
  {
    var all := Text.Split(content, '\n');
    if |all| <= MaxCsvLines then all else all[..MaxCsvLines]
  }

  /**
   * The rows a CSV reader collects: none for a payload over 10,000,000
   * bytes, otherwise the rows kept from the first 1000 lines.
   */
  function CsvRows(content: string, minFields: nat): (r: Option<seq<seq<string>>>)
    ensures r.None? <==> |content| > MaxCsvBytes
    ensures r.Some? ==> |r.value| <= MaxCsvLines
  {
    if |content| > MaxCsvBytes then None else Some(KeptRows(ReadLines(content), minFields))
  }

  /** The inner `getline` loop of a CSV reader: each field trimmed in place, in order. */
  method SplitTrimmed(line: string) returns (fields: seq<string>)
    ensures fields == TrimmedFields(line)
  {
    var pieces := Text.Split(line, ',');
    fields := [];
    var j := 0;
    while j < |pieces|
      invariant 0 <= j <= |pieces| && |fields| == j
      invariant forall k :: 0 <= k < j ==> fields[k] == Text.Strip(pieces[k], FieldBlanks)
    {
      var field := Text.Strip(pieces[j], FieldBlanks);
      fields := fields + [field];
      j := j + 1;
    }
  }

  /**
   * The CSV line reader of `processCSVInstrumentMessage` and
   * `processCSVInvestorPositionMessage` (30 and 49 fields): `lineCount`
   * counts every line read, empty ones included, and stops the loop at
   * 1000.
   */
  method ReadCsvRows(content: string, minFields: nat) returns (r: Option<seq<seq<string>>>)
    ensures r == CsvRows(content, minFields)
  {
    if |content| > MaxCsvBytes {
      return None;
    }
    var lines := Text.Split(content, '\n');
    var rows: seq<seq<string>> := [];
    var lineCount := 0;
    var i := 0;
    while i < |lines| && lineCount < MaxCsvLines
      invariant 0 <= i <= |lines| && lineCount == i <= MaxCsvLines
      invariant rows == KeptRows(lines[..i], minFields)
    {
      var line := lines[i];
      assert lines[..i + 1][..i] == lines[..i];
      lineCount := lineCount + 1;
      if line != [] {
        var fields := SplitTrimmed(line);
        if |fields| >= minFields {
          rows := rows + [fields];
        }
      }
      i := i + 1;
    }
    assert lines[..i] == ReadLines(content);
    return Some(rows);
  }

  /** Every kept row has at least `minFields` fields, none starting or ending with a blank. */
  lemma {:induction false} KeptRowsShape(lines: seq<string>, minFields: nat)
    ensures forall k :: 0 <= k < |KeptRows(lines, minFields)| ==>
      var row := KeptRows(lines, minFields)[k];
      |row| >= minFields
      && forall j :: 0 <= j < |row| && row[j] != [] ==> row[j][0] !in FieldBlanks && row[j][|row[j]| - 1] !in FieldBlanks
    decreases |lines|
  {
    if lines != [] {
      var n := |lines| - 1;
      KeptRowsShape(lines[..n], minFields);
      var fs := TrimmedFields(lines[n]);
      forall j | 0 <= j < |fs| {
        Text.StripFacts(Text.Split(lines[n], ',')[j], FieldBlanks);
      }
    }
  }

  /** Every non-empty line among those read that has enough fields is kept. */
  lemma {:induction false} KeptRowsComplete(lines: seq<string>, minFields: nat, i: nat)
    requires i < |lines| && lines[i] != [] && |TrimmedFields(lines[i])| >= minFields
    ensures TrimmedFields(lines[i]) in KeptRows(lines, minFields)
    decreases |lines|
  {
    var n := |lines| - 1;
    if i < n {
      assert lines[..n][i] == lines[i];
      KeptRowsComplete(lines[..n], minFields, i);
    }
  }

  /** Lines that are all empty or short give no row. */
  lemma {:induction false} KeptRowsNone(lines: seq<string>, minFields: nat)
    requires forall i :: 0 <= i < |lines| ==> lines[i] == [] || |Text.Split(lines[i], ',')| < minFields
    ensures KeptRows(lines, minFields) == []
    decreases |lines|
  {
    if lines != [] {
      var n := |lines| - 1;
      var init := lines[..n];
      forall i | 0 <= i < n
        ensures init[i] == [] || |Text.Split(init[i], ',')| < minFields
      {
        assert init[i] == lines[i];
      }
      KeptRowsNone(init, minFields);
      assert KeptRow(lines[n], minFields) == [];
    }
  }

  /**
   * The position converter's CSV batch (47 fields per line) gives the
   * subscriber's position reader (49 fields) no row at all.
   */
  lemma PositionCsvBatchSkipped(rs: seq<Record>)
    requires forall i :: 0 <= i < |rs| ==> PositionConverter.IsPosition(rs[i]) && CsvSafe(rs[i])
    ensures
      var lines := seq(|rs|, i requires 0 <= i < |rs| => PositionConverter.ConvertToCSV(rs[i]));
      CsvRows(Text.Terminated(lines, '\n'), 49) in {None, Some([])}
  {
    var lines := seq(|rs|, i requires 0 <= i < |rs| => PositionConverter.ConvertToCSV(rs[i]));
    forall i | 0 <= i < |rs| ensures '\n' !in lines[i] && |Text.Split(lines[i], ',')| == 47 {
      PositionConverter.Layouts();
      LineCodec.LineUnbroken(rs[i], PositionConverter.CsvLayout);
      PositionConverter.CSVLineFields(rs[i]);
    }
    Text.SplitTerminated(lines, '\n');
    var read := ReadLines(Text.Terminated(lines, '\n'));
    assert forall i :: 0 <= i < |read| ==> read[i] == lines[i];
    KeptRowsNone(read, 49);
  }

  // ---------------------------------------------------------------------
  // What a message does

  /** The database driver's answers: each row's `executeUpdate`, the commit, and a reconnect if one is made. */
  datatype Driver = Driver(execOk: nat -> bool, commitOk: bool, reconnect: Database.ConnectOutcome)

  function ExecOutcomes(drv: Driver, n: nat): (ok: seq<bool>)
    ensures |ok| == n && forall i :: 0 <= i < n ==> ok[i] == drv.execOk(i)
  {
    seq(n, i requires 0 <= i < n => drv.execOk(i))
  }

  /** Buffered ticks are depth-market records. */
  predicate Ticks(buf: seq<Record>)
  {
    forall i :: 0 <= i < |buf| ==> WellTyped(buf[i], MarketKinds)
  }

  /** The row texts a flush hands to the market batch insert: one per buffered tick, in buffer order. */
  function MarketRows(buf: seq<Record>): (rows: seq<string>)
    requires Ticks(buf)
    ensures |rows| == |buf|
    ensures forall i :: 0 <= i < |buf| ==> rows[i] == MarketConverter.ConvertToDatabaseFormat(buf[i])
  {
    seq(|buf|, i requires 0 <= i < |buf| => MarketConverter.ConvertToDatabaseFormat(buf[i]))
  }

  /** What the market batch insert stores for a flushed buffer. */
  function FlushStored(buf: seq<Record>, drv: Driver): (stored: seq<Record>)
    requires Ticks(buf)
    ensures |stored| <= |buf|
  {
    if drv.commitOk then Database.Committed(Database.MarketOutcomes(MarketRows(buf)), ExecOutcomes(drv, |buf|)) else []
  }

  /** The state a message or timer step leaves: the buffer, the last write time, and the rows it stored. */
  datatype Outcome = Outcome(buffer: seq<Record>, lastWriteTime: int, stored: seq<Record>)

  /**
   * `flushMarketDataBuffer`: nothing for an empty buffer or a disconnected
   * database; otherwise every tick is handed over, and the buffer is
   * cleared and the write time reset whatever the insert answered.
   */
  function Flushed(buf: seq<Record>, last: int, connected: bool, now: int, drv: Driver): (o: Outcome)
    requires Ticks(buf)
    ensures buf == [] || !connected ==> o == Outcome(buf, last, [])
    ensures buf != [] && connected ==> o.buffer == [] && o.lastWriteTime == now
  {
    if buf == [] || !connected then Outcome(buf, last, []) else Outcome([], now, FlushStored(buf, drv))
  }

  /** `addMarketDataToBuffer`: the tick appended, then a flush when the buffer holds 1000 or more. */
  function Appended(buf: seq<Record>, last: int, r: Record, connected: bool, now: int, drv: Driver): (o: Outcome)
    requires Ticks(buf) && WellTyped(r, MarketKinds)
  {
    var b := buf + [r];
    if |b| >= MaxBufferSize then Flushed(b, last, connected, now, drv) else Outcome(b, last, [])
  }

  /** A tick to buffer, if the reader produced one. */
  function Buffered(buf: seq<Record>, last: int, tick: Option<Record>, connected: bool, now: int, drv: Driver): (o: Outcome)
    requires Ticks(buf) && (tick.Some? ==> WellTyped(tick.value, MarketKinds))
  {
    match tick
    case None => Outcome(buf, last, [])
    case Some(r) => Appended(buf, last, r, connected, now, drv)
  }

  /**
   * `processMarketDataMessage`: a payload that passes the ticker test is
   * read, and a tick with an empty InstrumentID is dropped.
   */
  function CsvTick(content: string): (t: Option<Record>)
    ensures t.Some? ==> WellTyped(t.value, MarketKinds) && t.value[MarketInstrumentID] != Str("")
    ensures t.Some? <==> MarketConverter.IsCSVFormat(content) && MarketConverter.ParseCSV(content)[MarketInstrumentID] != Str("")
  {
    MarketLayout();
    if !MarketConverter.IsCSVFormat(content) then None
    else
      var r := MarketConverter.ParseCSV(content);
      if r[MarketInstrumentID] == Str("") then None else Some(r)
  }

  /** The row `insertTickData` stores: the four values read from the payload, when all four reads succeed. */
  function TickStored(connected: bool, tickRead: Option<Record>, drv: Driver): (stored: seq<Record>)
    ensures |stored| <= 1
    ensures stored != [] <==> tickRead.Some? && connected && drv.execOk(0)
  {
    if tickRead.Some? && connected && drv.execOk(0) then [tickRead.value] else []
  }

  /**
   * The placeholder instrument `processProtobufInstrumentMessage` inserts
   * when the binary payload yields no instrument: 31 texts for the
   * instrument batch.
   */
  const TestInstrument: seq<string> := [
    "TEST001", "SHFE", "测试合约001", "TEST001", "TEST", "1", "2024", "1",
    "100", "1", "100", "1", "10", "0.01", "20240101", "20240101", "20241231",
    "20241201", "20241231", "1", "1", "1", "1", "0.1", "0.1", "1", "", "0.0", "", "1.0", "1"]

  /** What an instrument batch of `rows` stores. */
  function InstrumentBatchStored(rows: seq<seq<string>>, drv: Driver): (stored: seq<Record>)
    ensures |stored| <= |rows|
  {
    if drv.commitOk then Database.Committed(Database.InstrumentOutcomes(rows), ExecOutcomes(drv, |rows|)) else []
  }

  /**
   * `processInstrumentMessage`: nothing without a connected database or
   * for an empty payload; every other payload passes the protobuf test,
   * the binary reader yields no instrument, and the placeholder row is
   * inserted instead.
   */
  function InstrumentStored(connected: bool, content: string, drv: Driver): (stored: seq<Record>)
    ensures |stored| <= 1
  {
    if !connected || content == [] then [] else InstrumentBatchStored([TestInstrument], drv)
  }

  /** `processCSVInstrumentMessage`: the rows with at least 30 fields, inserted when there are any. */
  function CsvInstrumentStored(connected: bool, content: string, drv: Driver): (stored: seq<Record>)
  {
    match CsvRows(content, 30)
    case None => []
    case Some(rows) => if rows == [] || !connected then [] else InstrumentBatchStored(rows, drv)
  }

  /** `isCSVFormat` of the position converter. */
  predicate PositionCsv(content: string)
  {
    content != [] && (forall i :: 0 <= i < |content| ==> !Text.NonAscii(content[i])) && ',' in content
  }

  /**
   * `processInvestorPositionMessage`: a CSV payload's rows with at least
   * 49 fields go to the position batch; the binary reader yields no
   * position, so any other payload stores nothing.
   */
  function PositionStored(connected: bool, content: string, drv: Driver): (stored: seq<Record>)
  {
    if !PositionCsv(content) then []
    else match CsvRows(content, 49)
      case None => []
      case Some(rows) =>
        if rows == [] || !connected || !drv.commitOk then []
        else Database.Committed(Database.PositionOutcomes(rows), ExecOutcomes(drv, |rows|))
  }

  /**
   * `processTradingAccountMessage`: a payload with the account tag is
   * read; an empty AccountID is dropped, and otherwise the account is
   * inserted when the database is connected.
   */
  function AccountStored(connected: bool, content: string, drv: Driver): (stored: seq<Record>)
    ensures |stored| <= 1
    ensures stored != [] ==> WellTyped(stored[0], AccountKinds) && stored[0][AccountAccountID] != Str("")
  {
    AccountLayout();
    if !AccountConverter.IsCSVFormat(content) then []
    else
      var a := AccountConverter.ParseCSV(content);
      if a[AccountAccountID] == Str("") || !connected || !drv.execOk(0) then [] else [a]
  }

  /** `defaultMessageHandler`: what one message does, by its route. */
  function Handled(buf: seq<Record>, last: int, connected: bool, tag: string, content: string, now: int,
                   drv: Driver, tickRead: Option<Record>, decoded: Option<Record>): (o: Outcome)
    requires Ticks(buf) && (decoded.Some? ==> WellTyped(decoded.value, MarketKinds))
  {
    match RouteOf(tag)
    case TickRoute => Outcome(buf, last, TickStored(connected, tickRead, drv))
    case InstrumentRoute => Outcome(buf, last, InstrumentStored(connected, content, drv))
    case PositionRoute => Outcome(buf, last, PositionStored(connected, content, drv))
    case MarketCsvRoute => Buffered(buf, last, CsvTick(content), connected, now, drv)
    case MarketProtobufRoute => Buffered(buf, last, decoded, connected, now, drv)
    case AccountRoute => Outcome(buf, last, AccountStored(connected, content, drv))
    case Unmatched => Outcome(buf, last, [])
  }

  /** The timer's test: a non-empty buffer last written at least 30 seconds ago. */
  predicate TimerDue(buf: seq<Record>, last: int, now: int)
  {
    buf != [] && now - last >= BatchWriteInterval
  }

  // ---------------------------------------------------------------------
  // The subscriber

  class ZmqSubscriber {
    var running: bool
    /** Whether `initialize` has created the socket. */
    var hasSocket: bool
    /** Whether a custom message handler is set. */
    var hasHandler: bool
    /** `marketDataBuffer`. */
    var buffer: seq<Record>
    /** `lastWriteTime`, in seconds. */
    var lastWriteTime: int
    /** The database manager the subscriber writes to. */
    const db: Database.DatabaseManager

    predicate Valid()
      reads this, db
    {
      Ticks(buffer) && db.Valid()
    }

    /** A stopped subscriber with an empty buffer, last written now. */
    constructor(manager: Database.DatabaseManager, now: int, handler: bool)
      requires manager.Valid()
      ensures db == manager && !running && !hasSocket && hasHandler == handler
      ensures buffer == [] && lastWriteTime == now
      ensures Valid()
    {
      db := manager;
      running := false;
      hasSocket := false;
      hasHandler := handler;
      buffer := [];
      lastWriteTime := now;
    }

    /** `start`: nothing when running; otherwise the socket is created if missing, and on success the subscriber runs. */
    method Start(initOk: bool)
      modifies this
      ensures old(running) ==> running && hasSocket == old(hasSocket)
      ensures !old(running) ==> hasSocket == (old(hasSocket) || initOk) && running == hasSocket
      ensures buffer == old(buffer) && lastWriteTime == old(lastWriteTime) && hasHandler == old(hasHandler)
    {
      if running {
        return;
      }
      if !hasSocket {
        if !initOk {
          return;
        }
        hasSocket := true;
      }
      running := true;
    }

    /** `flushMarketDataBuffer`. */
    method Flush(now: int, drv: Driver) returns (stored: seq<Record>)
      requires Valid()
      modifies this
      ensures Valid()
      ensures Outcome(buffer, lastWriteTime, stored) == Flushed(old(buffer), old(lastWriteTime), db.connected, now, drv)
      ensures running == old(running) && hasSocket == old(hasSocket) && hasHandler == old(hasHandler)
    {
      stored := [];
      if buffer == [] {
        return;
      }
      if !db.connected {
        return;
      }
      var rows: seq<string> := [];
      var i := 0;
      while i < |buffer|
        invariant 0 <= i <= |buffer| && |rows| == i
        invariant forall k :: 0 <= k < i ==> rows[k] == MarketConverter.ConvertToDatabaseFormat(buffer[k])
      {
        rows := rows + [MarketConverter.ConvertToDatabaseFormat(buffer[i])];
        i := i + 1;
      }
      assert rows == MarketRows(buffer);
      var ok;
      ok, stored := db.InsertMarketDataBatch(rows, ExecOutcomes(drv, |rows|), drv.commitOk);
      buffer := [];
      lastWriteTime := now;
    }

    /** `addMarketDataToBuffer`. */
    method AddToBuffer(r: Record, now: int, drv: Driver) returns (stored: seq<Record>)
      requires Valid() && WellTyped(r, MarketKinds)
      modifies this
      ensures Valid()
      ensures Outcome(buffer, lastWriteTime, stored) == Appended(old(buffer), old(lastWriteTime), r, db.connected, now, drv)
      ensures running == old(running) && hasSocket == old(hasSocket) && hasHandler == old(hasHandler)
    {
      buffer := buffer + [r];
      stored := [];
      if |buffer| >= MaxBufferSize {
        stored := Flush(now, drv);
      }
    }

    /**
     * One round of `batchWriterLoop` after its sleep: nothing once the
     * subscriber has stopped; otherwise a flush when the timer is due.
     */
    method TimerStep(now: int, drv: Driver) returns (stored: seq<Record>)
      requires Valid()
      modifies this
      ensures Valid()
      ensures Outcome(buffer, lastWriteTime, stored) ==
        if old(running) && TimerDue(old(buffer), old(lastWriteTime), now)
        then Flushed(old(buffer), old(lastWriteTime), db.connected, now, drv)
        else Outcome(old(buffer), old(lastWriteTime), [])
      ensures running == old(running) && hasSocket == old(hasSocket) && hasHandler == old(hasHandler)
    {
      stored := [];
      if !running {
        return;
      }
      var elapsed := now - lastWriteTime;
      if buffer != [] && elapsed >= BatchWriteInterval {
        stored := Flush(now, drv);
      }
    }

    /** `stop`: nothing when stopped; otherwise the subscriber stops and flushes what is left. */
    method Stop(now: int, drv: Driver) returns (stored: seq<Record>)
      requires Valid()
      modifies this
      ensures Valid() && !running && hasSocket == old(hasSocket) && hasHandler == old(hasHandler)
      ensures Outcome(buffer, lastWriteTime, stored) ==
        if old(running) then Flushed(old(buffer), old(lastWriteTime), db.connected, now, drv)
        else Outcome(old(buffer), old(lastWriteTime), [])
    {
      stored := [];
      if !running {
        return;
      }
      running := false;
      stored := Flush(now, drv);
    }

    // -------------------------------------------------------------------
    // The readers

    /** The `"TICK"` branch: the four values read, stored when the database is connected. */
    method ProcessTick(tickRead: Option<Record>, drv: Driver) returns (stored: seq<Record>)
      ensures stored == TickStored(db.connected, tickRead, drv)
    {
      stored := [];
      if tickRead.Some? && db.connected {
        var ok := db.InsertOne(drv.execOk(0));
        if ok {
          stored := [tickRead.value];
        }
      }
    }

    /** `processCSVInstrumentMessage`. */
    method ProcessCsvInstrument(content: string, drv: Driver) returns (stored: seq<Record>)
      requires db.Valid() && db.connected
      modifies db
      ensures db.Valid() && db.connected && db.hasDriver == old(db.hasDriver)
      ensures stored == CsvInstrumentStored(true, content, drv)
    {
      stored := [];
      var rows := ReadCsvRows(content, 30);
      if rows.None? || rows.value == [] {
        return;
      }
      var ok;
      ok, stored := db.InsertInstrumentBatch(rows.value, drv.reconnect, ExecOutcomes(drv, |rows.value|), drv.commitOk);
    }

    /** `processProtobufInstrumentMessage`: the binary reader yields nothing, so the placeholder row is inserted. */
    method ProcessProtobufInstrument(content: string, drv: Driver) returns (stored: seq<Record>)
      requires db.Valid()
      modifies db
      ensures db.Valid() && db.connected == old(db.connected) && db.hasDriver == old(db.hasDriver)
      ensures stored == (if old(db.connected) then InstrumentBatchStored([TestInstrument], drv) else [])
    {
      stored := [];
      if !db.connected {
        return;
      }
      var instruments := InstrumentConverter.ParseProtobufBatch(content);
      if instruments != [] {
        assert false;
      }
      var rows := [TestInstrument];
      var ok;
      ok, stored := db.InsertInstrumentBatch(rows, drv.reconnect, ExecOutcomes(drv, |rows|), drv.commitOk);
    }

    /** `processInstrumentMessage`. */
    method ProcessInstrument(content: string, drv: Driver) returns (stored: seq<Record>)
      requires db.Valid()
      modifies db
      ensures db.Valid() && db.connected == old(db.connected) && db.hasDriver == old(db.hasDriver)
      ensures stored == InstrumentStored(old(db.connected), content, drv)
    {
      stored := [];
      if !db.connected {
        return;
      }
      if |content| > 0 {
        var isProtobuf := InstrumentConverter.IsProtobufFormat(content);
        if isProtobuf {
          stored := ProcessProtobufInstrument(content, drv);
        } else {
          assert false;
        }
      }
    }

    /** `processCSVInvestorPositionMessage`. */
    method ProcessCsvPosition(content: string, drv: Driver) returns (stored: seq<Record>)
      requires PositionCsv(content)
      ensures stored == PositionStored(db.connected, content, drv)
    {
      stored := [];
      var rows := ReadCsvRows(content, 49);
      if rows.None? || rows.value == [] {
        return;
      }
      var ok;
      ok, stored := db.InsertPositionBatch(rows.value, ExecOutcomes(drv, |rows.value|), drv.commitOk);
    }

    /** `processInvestorPositionMessage`; the binary reader yields no position. */
    method ProcessPosition(content: string, drv: Driver) returns (stored: seq<Record>)
      ensures stored == PositionStored(db.connected, content, drv)
    {
      var isCsv := PositionConverter.IsCSVFormat(content);
      if isCsv {
        stored := ProcessCsvPosition(content, drv);
      } else {
        var positions := PositionConverter.ParseProtobufBatch(content);
        stored := [];
      }
    }

    /** `processMarketDataMessage` with `processCSVMarketDataMessage`. */
    method ProcessCsvMarket(content: string, now: int, drv: Driver) returns (stored: seq<Record>)
      requires Valid()
      modifies this
      ensures Valid()
      ensures Outcome(buffer, lastWriteTime, stored) ==
        Buffered(old(buffer), old(lastWriteTime), CsvTick(content), db.connected, now, drv)
      ensures running == old(running) && hasSocket == old(hasSocket) && hasHandler == old(hasHandler)
    {
      stored := [];
      if !MarketConverter.IsCSVFormat(content) {
        return;
      }
      var tick := MarketConverter.ParseCSV(content);
      MarketLayout();
      if tick[MarketInstrumentID] == Str("") {
        return;
      }
      stored := AddToBuffer(tick, now, drv);
    }

    /**
     * `processProtobufMarketDataMessage`: `decoded` is the tick the protobuf
     * library reads from the payload, with all 44 fields copied, or nothing
     * when it cannot read it.  No InstrumentID test is made here.
     */
    method ProcessProtobufMarket(decoded: Option<Record>, now: int, drv: Driver) returns (stored: seq<Record>)
      requires Valid() && (decoded.Some? ==> WellTyped(decoded.value, MarketKinds))
      modifies this
      ensures Valid()
      ensures Outcome(buffer, lastWriteTime, stored) ==
        Buffered(old(buffer), old(lastWriteTime), decoded, db.connected, now, drv)
      ensures running == old(running) && hasSocket == old(hasSocket) && hasHandler == old(hasHandler)
    {
      stored := [];
      if decoded.None? {
        return;
      }
      stored := AddToBuffer(decoded.value, now, drv);
    }

    /** `processTradingAccountMessage` with `processCSVTradingAccountMessage`. */
    method ProcessAccount(content: string, drv: Driver) returns (stored: seq<Record>)
      ensures stored == AccountStored(db.connected, content, drv)
    {
      stored := [];
      if !AccountConverter.IsCSVFormat(content) {
        return;
      }
      var account := AccountConverter.ParseCSV(content);
      AccountLayout();
      if account[AccountAccountID] == Str("") {
        return;
      }
      if db.connected {
        var ok := db.InsertOne(drv.execOk(0));
        if ok {
          stored := [account];
        }
      }
    }

    /**
     * `processMessage`: a custom handler, when set, takes every message
     * (what it does is not part of this model); otherwise the message is
     * handled by its route.
     */
    method ProcessMessage(tag: string, content: string, now: int, drv: Driver,
                          tickRead: Option<Record>, decoded: Option<Record>) returns (stored: seq<Record>)
      requires Valid() && (decoded.Some? ==> WellTyped(decoded.value, MarketKinds))
      modifies this, db
      ensures Valid() && db.connected == old(db.connected)
      ensures running == old(running) && hasSocket == old(hasSocket) && hasHandler == old(hasHandler)
      ensures Outcome(buffer, lastWriteTime, stored) ==
        if hasHandler then Outcome(old(buffer), old(lastWriteTime), [])
        else Handled(old(buffer), old(lastWriteTime), old(db.connected), tag, content, now, drv, tickRead, decoded)
    {
      stored := [];
      if hasHandler {
        return;
      }
      match RouteOf(tag)
      case TickRoute =>
        stored := ProcessTick(tickRead, drv);
      case InstrumentRoute =>
        stored := ProcessInstrument(content, drv);
      case PositionRoute =>
        stored := ProcessPosition(content, drv);
      case MarketCsvRoute =>
        stored := ProcessCsvMarket(content, now, drv);
      case MarketProtobufRoute =>
        stored := ProcessProtobufMarket(decoded, now, drv);
      case AccountRoute =>
        stored := ProcessAccount(content, drv);
      case Unmatched =>
    }
  }

  // ---------------------------------------------------------------------
  // Properties of the buffer and the readers

  /**
   * With the database connected, an append leaves fewer than 1000 ticks:
   * the 1000th triggers the flush, which empties the buffer.
   */
  lemma AppendBounded(buf: seq<Record>, last: int, r: Record, now: int, drv: Driver)
    requires Ticks(buf) && WellTyped(r, MarketKinds)
    ensures |Appended(buf, last, r, true, now, drv).buffer| < MaxBufferSize
  {
  }

  /** With the database disconnected, an append always keeps the tick: the buffer grows without bound. */
  lemma AppendDisconnected(buf: seq<Record>, last: int, r: Record, now: int, drv: Driver)
    requires Ticks(buf) && WellTyped(r, MarketKinds)
    ensures Appended(buf, last, r, false, now, drv) == Outcome(buf + [r], last, [])
  {
  }

  /**
   * Whatever a message is, a connected subscriber with fewer than 1000
   * buffered ticks still has fewer than 1000 after it, and the buffer
   * either keeps its ticks (with at most one more at the end) or is
   * emptied by a flush.
   */
  lemma HandledBuffer(buf: seq<Record>, last: int, connected: bool, tag: string, content: string, now: int,
                      drv: Driver, tickRead: Option<Record>, decoded: Option<Record>)
    requires Ticks(buf) && (decoded.Some? ==> WellTyped(decoded.value, MarketKinds))
    ensures var o := Handled(buf, last, connected, tag, content, now, drv, tickRead, decoded);
      && (connected && |buf| < MaxBufferSize ==> |o.buffer| < MaxBufferSize)
      && (o.buffer == [] || o.buffer == buf || (|o.buffer| == |buf| + 1 && o.buffer[..|buf|] == buf))
      && (!connected ==> o.buffer[..|buf|] == buf && o.lastWriteTime == last)
  {
    var o := Handled(buf, last, connected, tag, content, now, drv, tickRead, decoded);
    if !connected && |o.buffer| == |buf| + 1 {
      assert (buf + [o.buffer[|buf|]])[..|buf|] == buf;
    }
  }

  /** Only the two market routes touch the buffer. */
  lemma OtherRoutesKeepBuffer(buf: seq<Record>, last: int, connected: bool, tag: string, content: string, now: int,
                              drv: Driver, tickRead: Option<Record>, decoded: Option<Record>)
    requires Ticks(buf) && (decoded.Some? ==> WellTyped(decoded.value, MarketKinds))
    requires RouteOf(tag) != MarketCsvRoute && RouteOf(tag) != MarketProtobufRoute
    ensures var o := Handled(buf, last, connected, tag, content, now, drv, tickRead, decoded);
      o.buffer == buf && o.lastWriteTime == last
    ensures RouteOf(tag) == Unmatched ==> Handled(buf, last, connected, tag, content, now, drv, tickRead, decoded) == Outcome(buf, last, [])
  {
  }

  /**
   * A CSV tick whose InstrumentID is empty is never buffered, while a
   * decoded protobuf tick is buffered whatever its InstrumentID.
   */
  lemma EmptyInstrumentIdPaths(buf: seq<Record>, last: int, content: string, r: Record, now: int, drv: Driver)
    requires Ticks(buf) && WellTyped(r, MarketKinds) && |buf| + 1 < MaxBufferSize
    requires MarketConverter.ParseCSV(content)[MarketInstrumentID] == Str("")
    ensures Handled(buf, last, true, "MARKET_DATA", content, now, drv, None, None) == Outcome(buf, last, [])
    ensures Handled(buf, last, true, "MARKET_DATA_PROTOBUF", content, now, drv, None, Some(r)).buffer == buf + [r]
  {
    assert CsvTick(content).None?;
  }

  /**
   * A flush hands the batch insert one row per tick in buffer order; when
   * every row executes and the commit goes through, the database holds
   * every buffered tick, text fields still in their single quotes.
   */
  lemma FlushStoresEveryTick(buf: seq<Record>, drv: Driver)
    requires Ticks(buf) && forall i :: 0 <= i < |buf| ==> forall j :: 0 <= j < |buf[i]| ==> CsvSafeValue(buf[i][j])
    requires drv.commitOk && forall i :: 0 <= i < |buf| ==> drv.execOk(i)
    ensures |FlushStored(buf, drv)| == |buf|
    ensures forall i :: 0 <= i < |buf| ==> FlushStored(buf, drv)[i] == Database.Quoted(buf[i])
  {
    var outs := Database.MarketOutcomes(MarketRows(buf));
    forall i | 0 <= i < |buf| ensures outs[i] == Database.Bound(Database.Quoted(buf[i])) {
      MarketLayout();
      Database.MarketRowKeepsQuotes(buf[i]);
    }
    Database.CommittedAll(outs, ExecOutcomes(drv, |buf|));
  }

  /** The timer never flushes a buffer written less than 30 seconds ago, nor an empty one. */
  lemma TimerWaits(buf: seq<Record>, last: int, now: int)
    requires buf == [] || now < last + BatchWriteInterval
    ensures !TimerDue(buf, last, now)
  {
  }

  /**
   * The placeholder row binds in full: every non-empty instrument message
   * to a connected database stores the TEST001 instrument when its row
   * executes and the commit goes through, whatever the payload holds.
   */
  lemma InstrumentMessageStoresPlaceholder(content: string, drv: Driver)
    requires content != [] && drv.commitOk && drv.execOk(0)
    ensures |InstrumentStored(true, content, drv)| == 1
    ensures Database.InstrumentRow(TestInstrument).Bound?
    ensures InstrumentStored(true, content, drv) == [Database.InstrumentRow(TestInstrument).params]
  {
    TestInstrumentBinds();
    var outs := Database.InstrumentOutcomes([TestInstrument]);
    Database.CommittedAll(outs, ExecOutcomes(drv, 1));
  }

  /** Every placeholder text but the five names and the two empty ones is a short number. */
  lemma TestInstrumentTexts()
    ensures |TestInstrument| == 31
    ensures forall i :: 5 <= i < 31 && i != 26 && i != 28 ==>
      0 < |TestInstrument[i]| <= 9 && Numbers.IsDigit(TestInstrument[i][0])
  {
  }

  lemma TestInstrumentBinds()
    ensures Database.InstrumentRow(TestInstrument).Bound?
  {
    Sizes();
    TestInstrumentTexts();
    InstrumentTextFields();
    var ks := Database.AsText(InstrumentKinds);
    forall i | 0 <= i < 31 ensures ParseStrict(ks[i], TestInstrument[i]).Ok? {
      if 5 <= i && i != 26 && i != 28 {
        Numbers.ShortNumberAccepted(TestInstrument[i]);
      }
    }
  }

  /**
   * On every account payload the reader as written handles without
   * reading past the end, the account path stores what it would store with
   * that reader: the two differ only on lines of 46 to 49 fields.
   */
  lemma AccountStoredAsWritten(connected: bool, content: string, drv: Driver)
    requires AccountConverter.ParseCSVAsWritten(content).Ok?
    ensures var a := AccountConverter.ParseCSVAsWritten(content).value;
      AccountStored(connected, content, drv) ==
        if !AccountConverter.IsCSVFormat(content) || a[AccountAccountID] == Str("") || !connected || !drv.execOk(0)
        then [] else [a]
  {
    AccountConverter.ParseCSVAgrees(content);
  }

  /**
   * `processInstrumentMessage` never reaches the CSV instrument reader: a
   * non-empty payload always passes the protobuf test, and an empty one is
   * only logged.  Even with "" the CSV reader would store nothing.
   */
  lemma CsvInstrumentUnreachable(content: string, connected: bool, drv: Driver)
    ensures content != [] ==> InstrumentConverter.ProtobufFormat(content)
    ensures CsvInstrumentStored(connected, "", drv) == []
  {
    InstrumentConverter.ProtobufFormatNonEmpty(content);
    assert Text.Split("", '\n') == [];
  }
}
