// Field kinds of the four CTP records the pipeline moves around.  A record
// of the model lists its fields in the order the subscriber-side parser
// assigns them (for the depth-market, instrument and trading-account records
// that is also the order of the struct declaration).
module CtpStructs {
  import opened Fields

  const S := StrKind
  const C := CharKind
  const I := IntKind
  const R := RealKind
  const F := FlagKind

  /**
   * Depth market data, 44 fields: TradingDay, InstrumentID, ExchangeID,
   * ExchangeInstID, seven prices, Volume, eight prices, UpdateTime,
   * UpdateMillisec, five bid/ask levels (price, volume, price, volume),
   * AveragePrice, ActionDay.
   */
  const MarketKinds: seq<Kind> :=
    [S, S, S, S, R, R, R, R, R, R, R, I, R, R, R, R, R, R, R, R, S, I,
     R, I, R, I, R, I, R, I, R, I, R, I, R, I, R, I, R, I, R, I, R, S]

  /** The kinds the market reader's positional facts rest on. */
  lemma MarketLayout()
    ensures |MarketKinds| == 44
    ensures MarketKinds[MarketTradingDay] == StrKind && MarketKinds[MarketInstrumentID] == StrKind
    ensures MarketKinds[MarketUpdateTime] == StrKind && MarketKinds[MarketActionDay] == StrKind
    ensures MarketKinds[4] == RealKind && MarketKinds[11] == IntKind
  {
  }

  const MarketTradingDay := 0
  const MarketInstrumentID := 1
  const MarketUpdateTime := 20
  const MarketActionDay := 43

  /** Instrument, 31 fields; IsTrading (20) is the only flag. */
  const InstrumentKinds: seq<Kind> :=
    [S, S, S, S, S, C, I, I, I, I, I, I, I, R, S, S, S, S, S, C, F, C, C, R, R, C, S, R, C, R, C]

  const InstrumentIsTrading := 20

  /**
   * Investor position, 49 fields in the order of the CSV parser:
   * InstrumentID, BrokerID, InvestorID, PosiDirection, HedgeFlag,
   * PositionDate, YdPosition, Position, LongFrozen, ShortFrozen, ...,
   * SettlementPrice (27), TradingDay (28), SettlementID (29), ...,
   * ExchangeID (43), YdStrikeFrozen, InvestUnitID, PositionCostOffset,
   * TasPosition, TasCost.
   */
  const PositionKinds: seq<Kind> :=
    [S, S, S] + [C, C, C] + [I, I, I, I] + [R, R, I, I] + Amounts(14)
    + [S, I] + [R, R, I, I, I, R, R, I, R, R, I, R, I] + [S, I, S] + Amounts(3)

  /** The kinds the position reader's facts rest on. */
  lemma PositionLayout()
    ensures |PositionKinds| == 49
    ensures forall i :: 0 <= i < 3 ==> PositionKinds[i] == StrKind
    ensures forall i :: 3 <= i < 6 ==> PositionKinds[i] == CharKind
    ensures PositionKinds[PositionTradingDay] == StrKind && PositionKinds[43] == StrKind
    ensures PositionKinds[45] == StrKind && PositionKinds[48] == RealKind
    ensures PositionKinds[27] == RealKind
  {
  }

  const PositionPositionDate := 5
  const PositionYdPosition := 6
  const PositionLongFrozen := 8
  const PositionSettlementPrice := 27
  const PositionTradingDay := 28

  /**
   * Trading account, 49 fields: BrokerID, AccountID, 21 amounts,
   * TradingDay (23), SettlementID (24), six amounts, CurrencyID (31),
   * 14 amounts, BizType (46), FrozenSwap, RemainSwap.
   */
  const AccountKinds: seq<Kind> :=
    [S, S] + Amounts(21) + [S, I] + Amounts(6) + [S] + Amounts(14) + [S, R, R]

  /** `n` consecutive amounts (doubles). */
  function Amounts(n: nat): (ks: seq<Kind>)
    ensures |ks| == n && forall i :: 0 <= i < n ==> ks[i] == RealKind
  {
    seq(n, _ => R)
  }

  const AccountAccountID := 1
  const AccountBizType := 46

  /** The kinds the trading-account reader's facts rest on: the three optional tail fields. */
  lemma AccountLayout()
    ensures |AccountKinds| == 49
    ensures AccountKinds[0] == StrKind && AccountKinds[AccountAccountID] == StrKind
    ensures AccountKinds[AccountBizType] == StrKind
    ensures AccountKinds[47] == RealKind && AccountKinds[48] == RealKind
  {
  }

  /** The five identifying texts, UnderlyingInstrID (26) and OptionsType (28) take any text. */
  lemma InstrumentTextFields()
    ensures forall i :: 0 <= i < 5 ==> InstrumentKinds[i] == StrKind
    ensures InstrumentKinds[26] == StrKind && InstrumentKinds[28] == CharKind
  {
  }

  lemma Sizes()
    ensures |MarketKinds| == 44 && |InstrumentKinds| == 31
    ensures |PositionKinds| == 49 && |AccountKinds| == 49
    ensures MarketKinds[MarketInstrumentID] == StrKind && MarketKinds[MarketActionDay] == StrKind
    ensures InstrumentKinds[InstrumentIsTrading] == FlagKind
    ensures PositionKinds[PositionTradingDay] == StrKind && AccountKinds[AccountBizType] == StrKind
  {
  }
}
