// The database manager of the subscriber: its connection state and the
// row accounting of the four batch inserts.  Each batch binds every row's
// texts to the statement's parameters (`setString`, `std::stoi`,
// `std::stod`, or the comparison with "1"), executes it, and counts the
// rows that went through; a row that throws is caught and counted out.  The
// MySQL driver's answers (connecting, executing a row, committing) are
// inputs.
module Database {
  import opened Wrappers
  import opened Numbers
  import opened Fields
  import Text
  import opened CtpStructs
  import PositionConverter

  // ---------------------------------------------------------------------
  // Binding one row

  /** What becomes of one row before it is executed. */
  datatype RowOutcome =
    | TooFewFields                     // skipped by the size guard
    | ConversionFailed(e: NumError)    // `std::stoi`/`std::stod` threw; caught per row
    | ReadPastEnd                      // an index at or past the end was read (undefined behaviour)
    | Bound(params: Record)            // every parameter set

  /** The statement's parameter kinds: a `char` field is bound as text. */
  function AsText(kinds: seq<Kind>): (ps: seq<Kind>)
    ensures |ps| == |kinds|
    ensures forall i :: 0 <= i < |kinds| ==> ps[i] == (if kinds[i] == CharKind then StrKind else kinds[i])
  {
    seq(|kinds|, i requires 0 <= i < |kinds| => if kinds[i] == CharKind then StrKind else kinds[i])
  }

  /** A record with each `char` turned into its one-character text. */
  function CharsAsText(r: Record): (p: Record)
    ensures |p| == |r|
    ensures forall i :: 0 <= i < |r| ==> p[i] == (if r[i].Chr? then Str([r[i].c]) else r[i])
  {
    seq(|r|, i requires 0 <= i < |r| => if r[i].Chr? then Str([r[i].c]) else r[i])
  }

  /** The parameters of a row, set in order; the first conversion that throws ends the row. */
  function Bind(kinds: seq<Kind>, fields: seq<string>): (r: RowOutcome)
    requires |fields| >= |kinds|
    ensures r.Bound? || r.ConversionFailed?
    ensures r.Bound? ==> WellTyped(r.params, kinds)
  {
    match DecodeStrict(kinds, fields)
    case Err(e) => ConversionFailed(e)
    case Ok(p) => Bound(p)
  }

  /**
   * `insertInstrumentBatch`'s row as written: rows with fewer than 30
   * texts are skipped, but the 31st parameter is read from `row[30]`, so a
   * row of exactly 30 texts whose first 30 parameters bind reads past its
   * end.
   */
  function InstrumentRowAsWritten(row: seq<string>): (r: RowOutcome)
  {
    Sizes();
    if |row| < 30 then TooFewFields
    else if |row| == 30 then
      match DecodeStrict(AsText(InstrumentKinds)[..30], row)
      case Err(e) => ConversionFailed(e)
      case Ok(_) => ReadPastEnd
    else Bind(AsText(InstrumentKinds), row)
  }

  /** `insertInstrumentBatch`'s row with the guard the 31 reads need: fewer than 31 texts are skipped. */
  function InstrumentRow(row: seq<string>): (r: RowOutcome)
    ensures r.Bound? ==> WellTyped(r.params, AsText(InstrumentKinds))
    ensures |row| < 31 <==> r == TooFewFields
  {
    Sizes();
    if |row| < 31 then TooFewFields else Bind(AsText(InstrumentKinds), row)
  }

  /** The read past the end happens for exactly the 30-text rows whose parameters bind. */
  lemma InstrumentRowReadsPastEnd(row: seq<string>)
    ensures InstrumentRowAsWritten(row) == ReadPastEnd <==>
      |row| == 30 && DecodeStrict(AsText(InstrumentKinds)[..30], row).Ok?
  {
    Sizes();
  }

  /** Wherever the code as written stays in bounds, the corrected guard gives the same outcome. */
  lemma InstrumentRowAgrees(row: seq<string>)
    requires InstrumentRowAsWritten(row) != ReadPastEnd
    ensures |row| != 30 ==> InstrumentRowAsWritten(row) == InstrumentRow(row)
    ensures |row| == 30 ==> InstrumentRowAsWritten(row).ConversionFailed? && InstrumentRow(row) == TooFewFields
  {
    Sizes();
  }

  /** `insertInvestorPositionBatch`'s row: fewer than 49 texts are skipped; texts 0..48 are bound in order. */
  function PositionRow(row: seq<string>): (r: RowOutcome)
    ensures r.Bound? ==> WellTyped(r.params, AsText(PositionKinds)) && |r.params| == 49
    ensures |row| < 49 <==> r == TooFewFields
  {
    PositionLayout();
    if |row| < 49 then TooFewFields else Bind(AsText(PositionKinds), row)
  }

  /** `insertMarketDataBatch`'s row, from its pieces: fewer than 44 are skipped, the rest bound in order. */
  function MarketFields(fields: seq<string>): (r: RowOutcome)
    ensures r.Bound? ==> WellTyped(r.params, MarketKinds)
    ensures |fields| < 44 <==> r == TooFewFields
  {
    MarketLayout();
    if |fields| < 44 then TooFewFields else Bind(MarketKinds, fields)
  }

  /** `insertMarketDataBatch`'s row: the string split with `getline` at ',' and bound. */
  function MarketRow(s: string): (r: RowOutcome)
  {
    MarketFields(Text.Split(s, ','))
  }

  /** An optional amount: converted when `fields[i]` exists, 0.0 otherwise. */
  function OptionalAmount(fields: seq<string>, i: nat): (r: Result<Value, NumError>)
    ensures i >= |fields| ==> r == Ok(Real(RealZero))
    ensures i < |fields| ==> r == ParseStrict(RealKind, fields[i])
  {
    if i < |fields| then ParseStrict(RealKind, fields[i]) else Ok(Real(RealZero))
  }

  /**
   * `insertTradingAccountBatch`'s row, from its pieces: fewer than 46 are
   * skipped, pieces 0..45 are bound in order, then BizType (or ""),
   * FrozenSwap and RemainSwap (or 0.0) when the pieces exist.
   */
  function AccountFields(fields: seq<string>): (r: RowOutcome)
    ensures |fields| < 46 <==> r == TooFewFields
  {
    AccountLayout();
    if |fields| < 46 then TooFewFields
    else match DecodeStrict(AccountKinds[..46], fields)
      case Err(e) => ConversionFailed(e)
      case Ok(p) =>
        var bizType := if |fields| > 46 then Str(fields[46]) else Str("");
        match OptionalAmount(fields, 47)
        case Err(e) => ConversionFailed(e)
        case Ok(frozenSwap) =>
          match OptionalAmount(fields, 48)
          case Err(e) => ConversionFailed(e)
          case Ok(remainSwap) => Bound(p + [bizType, frozenSwap, remainSwap])
  }

  /** `insertTradingAccountBatch`'s row: the string split at ',' and bound. */
  function AccountRow(s: string): (r: RowOutcome)
  {
    AccountFields(Text.Split(s, ','))
  }

  /** A bound account row has the trading-account kinds, pieces 0..45 converted in order. */
  lemma AccountRowHead(fields: seq<string>)
    requires AccountFields(fields).Bound?
    ensures var p := AccountFields(fields).params;
      && WellTyped(p, AccountKinds)
      && (forall i :: 0 <= i < 46 ==> ParseStrict(AccountKinds[i], fields[i]) == Ok(p[i]))
  {
    AccountLayout();
    var p46 := DecodeStrict(AccountKinds[..46], fields).value;
    var p := AccountFields(fields).params;
    assert p[..46] == p46;
    forall i | 0 <= i < 46 ensures HasKind(p[i], AccountKinds[i]) && ParseStrict(AccountKinds[i], fields[i]) == Ok(p[i]) {
      assert p[i] == p46[i] && AccountKinds[..46][i] == AccountKinds[i];
    }
  }

  /** The optional pieces of a bound account row: BizType or "", and each swap or 0.0 when missing. */
  lemma AccountRowTail(fields: seq<string>)
    requires AccountFields(fields).Bound?
    ensures var p := AccountFields(fields).params; var n := |fields|;
      && |p| == 49
      && p[AccountBizType] == (if n > 46 then Str(fields[46]) else Str(""))
      && (n > 47 ==> ParseStrict(RealKind, fields[47]) == Ok(p[47]))
      && (n <= 47 ==> p[47] == Real(RealZero))
      && (n > 48 ==> ParseStrict(RealKind, fields[48]) == Ok(p[48]))
      && (n <= 48 ==> p[48] == Real(RealZero))
  {
    AccountLayout();
    var p46 := DecodeStrict(AccountKinds[..46], fields).value;
    var bizType := if |fields| > 46 then Str(fields[46]) else Str("");
    var p := AccountFields(fields).params;
    assert p == p46 + [bizType, OptionalAmount(fields, 47).value, OptionalAmount(fields, 48).value];
    assert |p46| == 46;
  }

  // ---------------------------------------------------------------------
  // Executing the rows

  /** The parameters of the rows that bound and whose `executeUpdate` went through, in order. */
  function Committed(outs: seq<RowOutcome>, execOk: seq<bool>): (rows: seq<Record>)
    requires |execOk| == |outs|
    ensures |rows| <= |outs|
    decreases |outs|
  {
    if outs == [] then []
    else
      var n := |outs| - 1;
      Committed(outs[..n], execOk[..n]) + Stored(outs[n], execOk[n])
  }

  /** What one row adds to the batch: its parameters when it bound and executed. */
  function Stored(out: RowOutcome, execOk: bool): (rows: seq<Record>)
    ensures |rows| <= 1
  {
    if out.Bound? && execOk then [out.params] else []
  }

  /** The per-row loop: `successCount` rises exactly for the rows that bound and executed. */
  method ExecuteRows(outs: seq<RowOutcome>, execOk: seq<bool>) returns (successCount: nat, rows: seq<Record>)
    requires |execOk| == |outs|
    ensures rows == Committed(outs, execOk) && successCount == |rows|
  {
    successCount := 0;
    rows := [];
    for i := 0 to |outs|
      invariant rows == Committed(outs[..i], execOk[..i]) && successCount == |rows|
    {
      assert outs[..i + 1][..i] == outs[..i] && execOk[..i + 1][..i] == execOk[..i];
      if outs[i].Bound? && execOk[i] {
        rows := rows + [outs[i].params];
        successCount := successCount + 1;
      }
    }
    assert outs[..|outs|] == outs && execOk[..|outs|] == execOk;
  }

  /** Rows are accounted for independently: the outcome of a batch is that of its parts, in order. */
  lemma {:induction false} CommittedAppend(o1: seq<RowOutcome>, e1: seq<bool>, o2: seq<RowOutcome>, e2: seq<bool>)
    requires |e1| == |o1| && |e2| == |o2|
    ensures Committed(o1 + o2, e1 + e2) == Committed(o1, e1) + Committed(o2, e2)
    decreases |o2|
  {
    if o2 == [] {
      assert o1 + o2 == o1 && e1 + e2 == e1;
    } else {
      var n := |o2| - 1;
      var o, e := o1 + o2, e1 + e2;
      assert o[..|o| - 1] == o1 + o2[..n] && e[..|o| - 1] == e1 + e2[..n];
      assert o[|o| - 1] == o2[n] && e[|o| - 1] == e2[n];
      calc {
        Committed(o, e);
        Committed(o1 + o2[..n], e1 + e2[..n]) + Stored(o2[n], e2[n]);
        { CommittedAppend(o1, e1, o2[..n], e2[..n]); }
        Committed(o1, e1) + Committed(o2[..n], e2[..n]) + Stored(o2[n], e2[n]);
        Committed(o1, e1) + Committed(o2, e2);
      }
    }
  }

  /**
   * A row that is skipped, fails to bind, or fails to execute adds nothing
   * and does not stop the rows after it.
   */
  lemma FailedRowContinues(outs: seq<RowOutcome>, execOk: seq<bool>, j: nat)
    requires |execOk| == |outs| && j < |outs| && !(outs[j].Bound? && execOk[j])
    ensures Committed(outs, execOk) == Committed(outs[..j], execOk[..j]) + Committed(outs[j + 1..], execOk[j + 1..])
  {
    var rest := Committed(outs[j + 1..], execOk[j + 1..]);
    assert Committed(outs[j..], execOk[j..]) == rest by {
      assert outs[j..] == [outs[j]] + outs[j + 1..] && execOk[j..] == [execOk[j]] + execOk[j + 1..];
      CommittedSingle(outs[j], execOk[j]);
      CommittedAppend([outs[j]], [execOk[j]], outs[j + 1..], execOk[j + 1..]);
    }
    assert Committed(outs, execOk) == Committed(outs[..j], execOk[..j]) + rest by {
      assert outs == outs[..j] + outs[j..] && execOk == execOk[..j] + execOk[j..];
      CommittedAppend(outs[..j], execOk[..j], outs[j..], execOk[j..]);
    }
  }

  /** A one-row batch stores what its row adds. */
  lemma CommittedSingle(out: RowOutcome, ok: bool)
    ensures Committed([out], [ok]) == Stored(out, ok)
  {
    assert [out][..0] == [] && [ok][..0] == [];
  }

  /** A batch has a successful row exactly when some row bound and executed. */
  lemma {:induction false} CommittedNonEmpty(outs: seq<RowOutcome>, execOk: seq<bool>)
    requires |execOk| == |outs|
    ensures Committed(outs, execOk) != [] <==> exists i :: 0 <= i < |outs| && outs[i].Bound? && execOk[i]
    decreases |outs|
  {
    if outs != [] {
      var n := |outs| - 1;
      var front := Committed(outs[..n], execOk[..n]);
      assert Committed(outs, execOk) == front + Stored(outs[n], execOk[n]);
      CommittedNonEmpty(outs[..n], execOk[..n]);
      if front != [] {
        var i :| 0 <= i < |outs[..n]| && outs[..n][i].Bound? && execOk[..n][i];
        assert outs[i].Bound? && execOk[i];
      } else if outs[n].Bound? && execOk[n] {
      } else {
        forall i | 0 <= i < |outs| ensures !(outs[i].Bound? && execOk[i]) {
          if i < n {
            assert outs[..n][i] == outs[i] && execOk[..n][i] == execOk[i];
          }
        }
      }
    }
  }

  /** Every stored row is the parameter list of some row that bound and executed. */
  lemma {:induction false} CommittedFromBound(outs: seq<RowOutcome>, execOk: seq<bool>)
    requires |execOk| == |outs|
    ensures forall p :: p in Committed(outs, execOk) ==>
      exists i :: 0 <= i < |outs| && outs[i] == Bound(p) && execOk[i]
    decreases |outs|
  {
    if outs != [] {
      var n := |outs| - 1;
      var front := Committed(outs[..n], execOk[..n]);
      assert Committed(outs, execOk) == front + Stored(outs[n], execOk[n]);
      CommittedFromBound(outs[..n], execOk[..n]);
      forall p | p in Committed(outs, execOk)
        ensures exists i :: 0 <= i < |outs| && outs[i] == Bound(p) && execOk[i]
      {
        if p in front {
          var i :| 0 <= i < |outs[..n]| && outs[..n][i] == Bound(p) && execOk[..n][i];
          assert outs[i] == Bound(p) && execOk[i];
        } else {
          assert outs[n] == Bound(p) && execOk[n];
        }
      }
    }
  }

  /** Skipped rows are never stored: with every row too short, nothing is. */
  lemma {:induction false} AllSkippedNothingStored(outs: seq<RowOutcome>, execOk: seq<bool>)
    requires |execOk| == |outs| && forall i :: 0 <= i < |outs| ==> outs[i] == TooFewFields
    ensures Committed(outs, execOk) == []
    decreases |outs|
  {
    if outs != [] {
      var n := |outs| - 1;
      AllSkippedNothingStored(outs[..n], execOk[..n]);
    }
  }

  /** When every row binds and executes, the batch stores every row's parameters, in order. */
  lemma {:induction false} CommittedAll(outs: seq<RowOutcome>, execOk: seq<bool>)
    requires |execOk| == |outs| && forall i :: 0 <= i < |outs| ==> outs[i].Bound? && execOk[i]
    ensures |Committed(outs, execOk)| == |outs|
    ensures forall i :: 0 <= i < |outs| ==> Committed(outs, execOk)[i] == outs[i].params
    decreases |outs|
  {
    if outs != [] {
      var n := |outs| - 1;
      assert Committed(outs, execOk) == Committed(outs[..n], execOk[..n]) + [outs[n].params];
      CommittedAll(outs[..n], execOk[..n]);
    }
  }

  function InstrumentOutcomes(rows: seq<seq<string>>): (outs: seq<RowOutcome>)
    ensures |outs| == |rows| && forall i :: 0 <= i < |rows| ==> outs[i] == InstrumentRow(rows[i])
  {
    seq(|rows|, i requires 0 <= i < |rows| => InstrumentRow(rows[i]))
  }

  function PositionOutcomes(rows: seq<seq<string>>): (outs: seq<RowOutcome>)
    ensures |outs| == |rows| && forall i :: 0 <= i < |rows| ==> outs[i] == PositionRow(rows[i])
  {
    seq(|rows|, i requires 0 <= i < |rows| => PositionRow(rows[i]))
  }

  function MarketOutcomes(list: seq<string>): (outs: seq<RowOutcome>)
    ensures |outs| == |list| && forall i :: 0 <= i < |list| ==> outs[i] == MarketRow(list[i])
  {
    seq(|list|, i requires 0 <= i < |list| => MarketRow(list[i]))
  }

  function AccountOutcomes(list: seq<string>): (outs: seq<RowOutcome>)
    ensures |outs| == |list| && forall i :: 0 <= i < |list| ==> outs[i] == AccountRow(list[i])
  {
    seq(|list|, i requires 0 <= i < |list| => AccountRow(list[i]))
  }

  // ---------------------------------------------------------------------
  // The manager

  /** What the driver does when asked for a connection. */
  datatype ConnectOutcome =
    | Established      // a connection, and the schema selected
    | NullConnection   // the driver hands back no connection
    | ConnectThrows    // the driver throws
    | SchemaThrows     // a connection, but selecting the schema throws

  class DatabaseManager {
    /** Whether the MySQL driver was obtained at construction. */
    var hasDriver: bool
    /** Whether `connection` holds a connection. */
    var hasConnection: bool
    var connected: bool

    /** The manager never claims a connection it does not hold. */
    predicate Valid()
      reads this
    {
      connected ==> hasConnection
    }

    constructor(driverOk: bool)
      ensures hasDriver == driverOk && !hasConnection && !connected
      ensures Valid()
    {
      hasDriver := driverOk;
      hasConnection := false;
      connected := false;
    }

    /**
     * `connect`: without a driver, false and nothing changes.  Otherwise the
     * connection slot takes the driver's answer (unless it throws) and
     * `connected` becomes true only when the schema is selected too; a
     * throw clears it, a null connection leaves it as it was.
     */
    method Connect(outcome: ConnectOutcome) returns (ok: bool)
      modifies this
      ensures ok <==> hasDriver && outcome == Established
      ensures hasDriver == old(hasDriver)
      ensures !hasDriver ==> connected == old(connected) && hasConnection == old(hasConnection)
      ensures hasDriver ==> hasConnection == (match outcome
        case Established => true
        case NullConnection => false
        case ConnectThrows => old(hasConnection)
        case SchemaThrows => true)
      ensures hasDriver ==> connected == (match outcome
        case Established => true
        case NullConnection => old(connected)
        case _ => false)
      ensures old(Valid()) && (!old(connected) || outcome != NullConnection) ==> Valid()
    {
      if !hasDriver {
        return false;
      }
      match outcome
      case Established =>
        hasConnection := true;
        connected := true;
        return true;
      case NullConnection =>
        hasConnection := false;
        return false;
      case ConnectThrows =>
        connected := false;
        return false;
      case SchemaThrows =>
        hasConnection := true;
        connected := false;
        return false;
    }

    /** `disconnect`: the connection is closed and released, and `connected` is false. */
    method Disconnect()
      modifies this
      ensures !hasConnection && !connected && hasDriver == old(hasDriver)
      ensures Valid()
    {
      hasConnection := false;
      connected := false;
    }

    /**
     * `insertInstrumentBatch`.  A manager without a live connection first
     * reconnects and gives up on failure; then the rows are bound and
     * executed one by one and the transaction committed.  The result is
     * `successCount > 0`; a throw outside the rows (`commitOk` false) rolls
     * everything back.
     */
    method InsertInstrumentBatch(instruments: seq<seq<string>>, reconnect: ConnectOutcome,
                                 execOk: seq<bool>, commitOk: bool) returns (ok: bool, stored: seq<Record>)
      requires |execOk| == |instruments|
      modifies this
      ensures var live := (old(connected) && old(hasConnection)) || (hasDriver && reconnect == Established);
        stored == (if live && commitOk then Committed(InstrumentOutcomes(instruments), execOk) else [])
      ensures ok <==> stored != []
      ensures old(connected) && old(hasConnection) ==>
        connected == old(connected) && hasConnection == old(hasConnection)
      ensures hasDriver == old(hasDriver)
      ensures old(Valid()) ==> Valid()
    {
      if !connected || !hasConnection {
        var reconnected := Connect(reconnect);
        if !reconnected {
          return false, [];
        }
      }
      var successCount;
      successCount, stored := ExecuteRows(InstrumentOutcomes(instruments), execOk);
      if !commitOk {
        return false, [];
      }
      ok := successCount > 0;
    }

    /** `insertInvestorPositionBatch`: false when not connected; otherwise as the instrument batch. */
    method InsertPositionBatch(positions: seq<seq<string>>, execOk: seq<bool>, commitOk: bool)
      returns (ok: bool, stored: seq<Record>)
      requires |execOk| == |positions|
      ensures stored == (if connected && commitOk then Committed(PositionOutcomes(positions), execOk) else [])
      ensures ok <==> stored != []
    {
      if !connected {
        return false, [];
      }
      var successCount;
      successCount, stored := ExecuteRows(PositionOutcomes(positions), execOk);
      if !commitOk {
        return false, [];
      }
      ok := successCount > 0;
    }

    /** `insertMarketDataBatch`: false when not connected; each string is split and bound as a market row. */
    method InsertMarketDataBatch(list: seq<string>, execOk: seq<bool>, commitOk: bool)
      returns (ok: bool, stored: seq<Record>)
      requires |execOk| == |list|
      ensures stored == (if connected && commitOk then Committed(MarketOutcomes(list), execOk) else [])
      ensures ok <==> stored != []
    {
      if !connected {
        return false, [];
      }
      var successCount;
      successCount, stored := ExecuteRows(MarketOutcomes(list), execOk);
      if !commitOk {
        return false, [];
      }
      ok := successCount > 0;
    }

    /** `insertTradingAccountBatch`: false when not connected; each string is split and bound as an account row. */
    method InsertTradingAccountBatch(list: seq<string>, execOk: seq<bool>, commitOk: bool)
      returns (ok: bool, stored: seq<Record>)
      requires |execOk| == |list|
      ensures stored == (if connected && commitOk then Committed(AccountOutcomes(list), execOk) else [])
      ensures ok <==> stored != []
    {
      if !connected {
        return false, [];
      }
      var successCount;
      successCount, stored := ExecuteRows(AccountOutcomes(list), execOk);
      if !commitOk {
        return false, [];
      }
      ok := successCount > 0;
    }

    /**
     * A single-row insert (`insertTradingAccount`, `insertTickData`): false
     * when not connected, otherwise whether `executeUpdate` went through.
     */
    method InsertOne(execOk: bool) returns (ok: bool)
      ensures ok <==> connected && execOk
    {
      if !connected {
        return false;
      }
      return execOk;
    }
  }

  // ---------------------------------------------------------------------
  // Batch-level facts

  /** An empty batch stores nothing, so every batch insert returns false for it. */
  lemma EmptyBatchStoresNothing()
    ensures Committed([], []) == []
    ensures InstrumentOutcomes([]) == [] && PositionOutcomes([]) == []
    ensures MarketOutcomes([]) == [] && AccountOutcomes([]) == []
  {
  }

  /** A market batch stores a row exactly when some string has 44 pieces that bind and it executes. */
  lemma MarketBatchStores(list: seq<string>, execOk: seq<bool>)
    requires |execOk| == |list|
    ensures Committed(MarketOutcomes(list), execOk) != [] <==>
      exists i :: 0 <= i < |list| && |Text.Split(list[i], ',')| >= 44 && MarketRow(list[i]).Bound? && execOk[i]
  {
    CommittedNonEmpty(MarketOutcomes(list), execOk);
  }

  // ---------------------------------------------------------------------
  // Rows written by the converters

  /**
   * An instrument's database row (31 texts) binds to the instrument's own
   * values, each `char` as its one-character text, when every value
   * survives its conversion.
   */
  lemma InstrumentRowOfConverter(r: Record)
    requires WellTyped(r, InstrumentKinds) && forall i :: 0 <= i < |r| ==> CsvSafeValue(r[i])
    ensures InstrumentRow(Rendered(r, Identity(31), false)) == Bound(CharsAsText(r))
  {
    Sizes();
    var p := CharsAsText(r);
    var fs := Rendered(r, Identity(31), false);
    forall i | 0 <= i < 31 ensures HasKind(p[i], AsText(InstrumentKinds)[i]) && CsvSafeValue(p[i]) && fs[i] == Render(p[i]) {
    }
    DecodeFields(p, AsText(InstrumentKinds), fs);
  }

  /** A record with its text fields wrapped in single quotes. */
  function Quoted(r: Record): (q: Record)
    ensures |q| == |r|
    ensures forall i :: 0 <= i < |r| ==> q[i] == (if r[i].Str? then Str("'" + r[i].s + "'") else r[i])
  {
    seq(|r|, i requires 0 <= i < |r| => if r[i].Str? then Str("'" + r[i].s + "'") else r[i])
  }

  /**
   * The row text the market converter writes for a tick binds to the
   * tick's values with the single quotes still around TradingDay,
   * InstrumentID, ExchangeID, ExchangeInstID, UpdateTime and ActionDay:
   * the prepared statement stores the quotes as part of the text.
   */
  lemma MarketRowKeepsQuotes(r: Record)
    requires WellTyped(r, MarketKinds) && forall i :: 0 <= i < |r| ==> CsvSafeValue(r[i])
    ensures MarketRow(Encode(r, Identity(44), true)) == Bound(Quoted(r))
  {
    MarketLayout();
    var fs := Rendered(r, Identity(44), true);
    assert fs[43] == RenderQuoted(r[43]);
    SplitRendered(r, Identity(44), true);
    QuotedBinds(r, fs);
  }

  lemma QuotedBinds(r: Record, fs: seq<string>)
    requires WellTyped(r, MarketKinds) && forall i :: 0 <= i < |r| ==> CsvSafeValue(r[i])
    requires fs == Rendered(r, Identity(44), true)
    ensures MarketFields(fs) == Bound(Quoted(r))
  {
    MarketLayout();
    QuotedRendered(r, MarketKinds);
    DecodeFields(Quoted(r), MarketKinds, fs);
  }

  /** Quoting keeps a record's kinds, and its plain rendering is the quoted rendering of the original. */
  lemma QuotedRendered(r: Record, kinds: seq<Kind>)
    requires WellTyped(r, kinds) && forall i :: 0 <= i < |r| ==> CsvSafeValue(r[i])
    ensures var q := Quoted(r); var fs := Rendered(r, Identity(|r|), true);
      WellTyped(q, kinds) && forall i :: 0 <= i < |r| ==> CsvSafeValue(q[i]) && fs[i] == Render(q[i])
  {
  }

  /**
   * The position converter's database row puts TradingDay at index 8, but
   * the batch binds the TradingDay parameter from index 28, where that row
   * holds SettlementPrice: whenever such a row binds, the stored trading
   * day is the settlement price's text.
   */
  lemma PositionRowMisplacesTradingDay(r: Record)
    requires PositionConverter.IsPosition(r)
    requires PositionRow(PositionConverter.ConvertToDatabaseFormat(r)).Bound?
    ensures PositionRow(PositionConverter.ConvertToDatabaseFormat(r)).params[PositionTradingDay]
      == Str(r[PositionSettlementPrice].t)
  {
    PositionConverter.DatabaseFormatFields(r);
    TradingDayParam(PositionConverter.ConvertToDatabaseFormat(r));
  }

  /** The TradingDay parameter of a bound position row is text 28 as it is. */
  lemma TradingDayParam(fs: seq<string>)
    requires PositionRow(fs).Bound?
    ensures PositionRow(fs).params[PositionTradingDay] == Str(fs[28])
  {
    PositionLayout();
    var p := DecodeStrict(AsText(PositionKinds), fs).value;
    assert AsText(PositionKinds)[28] == StrKind;
    assert ParseStrict(StrKind, fs[28]) == Ok(p[28]);
  }

  /** With the reader's order (TradingDay at 28), the row binds to the position's own values. */
  lemma PositionRowInReaderOrder(r: Record)
    requires WellTyped(r, PositionKinds) && forall i :: 0 <= i < |r| ==> CsvSafeValue(r[i])
    ensures PositionRow(Rendered(r, Identity(49), false)) == Bound(CharsAsText(r))
  {
    PositionLayout();
    var p := CharsAsText(r);
    var fs := Rendered(r, Identity(49), false);
    forall i | 0 <= i < 49 ensures HasKind(p[i], AsText(PositionKinds)[i]) && CsvSafeValue(p[i]) && fs[i] == Render(p[i]) {
    }
    DecodeFields(p, AsText(PositionKinds), fs);
  }
}
