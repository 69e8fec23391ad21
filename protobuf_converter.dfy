// The protobuf field mapping of the raw-tick program.  A vendor struct is a
// record of typed fields (see `Fields`); its protobuf message is the record
// with every `char` field carried as a one-character string.  Reading a
// message back into a struct copies a string field with `strncpy` into a
// zeroed array of the field's size, so it stops at the first NUL and keeps
// at most size - 1 characters.  The array sizes come from the vendor's
// header, which is not part of this model: they are a parameter.
module ProtobufConverter {
  import opened Wrappers
  import opened Numbers
  import opened Fields
  import Text
  import CtpStructs

  const InstrumentBatchType: string := "CTP_INSTRUMENT_BATCH_UPDATE"
  const PositionBatchType: string := "CTP_INVESTOR_POSITION_BATCH_UPDATE"

  /** The position message carries the first 47 struct fields, up to PositionCostOffset. */
  const PositionMessageFields: nat := 47

  // ---------------------------------------------------------------------
  // Scalars

  /** `safeInt`: the two extreme `int` values, which the vendor uses for "no value", become 0. */
  function SafeInt32(n: int): (r: int)
    ensures n == IntMax || n == IntMin ==> r == 0
    ensures n != IntMax && n != IntMin ==> r == n
  {
    if n == IntMax || n == IntMin then 0 else n
  }

  lemma SafeInt32Idempotent(n: int)
    ensures SafeInt32(SafeInt32(n)) == SafeInt32(n)
    ensures SafeInt32(n) != IntMax && SafeInt32(n) != IntMin
  {
  }

  /** The kind a struct field has in the message: a `char` travels as a string. */
  function MessageKind(k: Kind): Kind
  {
    if k == CharKind then StrKind else k
  }

  function MessageKinds(kinds: seq<Kind>): (mk: seq<Kind>)
    ensures |mk| == |kinds| && forall i :: 0 <= i < |kinds| ==> mk[i] == MessageKind(kinds[i])
  {
    seq(|kinds|, i requires 0 <= i < |kinds| => MessageKind(kinds[i]))
  }

  /** One field set on the message: `std::string(1, c)` for a `char`, the value itself otherwise. */
  function FieldToMessage(v: Value): (m: Value)
    ensures v.Chr? ==> m == Str([v.c])
    ensures !v.Chr? ==> m == v
  {
    if v.Chr? then Str([v.c]) else v
  }

  /** The text of a C string: everything before its first NUL. */
  function CText(s: string): (t: string)
    ensures |t| <= |s| && t == s[..|t|] && '\0' !in t
    ensures '\0' !in s ==> t == s
  {
    var j := Text.NextDelim(s, '\0', 0);
    Text.BeforeDelim(s, '\0');
    s[..j]
  }

  /**
   * `strncpy(field, s.c_str(), size - 1)` into a zeroed array of `size`
   * characters: the text before the first NUL, cut to size - 1 characters.
   */
  function StructText(s: string, size: nat): (t: string)
    requires size >= 1
    ensures |t| <= size - 1 && |t| <= |s| && '\0' !in t
    ensures t == s[..|t|]
    ensures '\0' !in s && |s| < size ==> t == s
  {
    var c := CText(s);
    if |c| <= size - 1 then c else c[..size - 1]
  }

  /** One field read from the message: a string is copied with `StructText`, a `char` is the first character or NUL. */
  function FieldFromMessage(m: Value, k: Kind, size: nat): (v: Value)
    requires size >= 1 && HasKind(m, MessageKind(k))
    ensures HasKind(v, k)
  {
    match k
    case StrKind => Str(StructText(m.s, size))
    case CharKind => Chr(CharOf(m.s))
    case _ => m
  }

  // ---------------------------------------------------------------------
  // Single messages

  /** `convertToProtobuf` for an instrument or a position: the first `n` fields, in order. */
  function ToMessage(r: Record, n: nat): (m: Record)
    requires n <= |r|
    ensures |m| == n
    ensures forall i :: 0 <= i < n ==> m[i] == FieldToMessage(r[i])
  {
    seq(n, i requires 0 <= i < n => FieldToMessage(r[i]))
  }

  /** The struct sizes are those of character arrays: at least one character, the terminator. */
  predicate ValidSizes(kinds: seq<Kind>, sizes: seq<nat>)
  {
    |sizes| == |kinds| && forall i :: 0 <= i < |sizes| ==> sizes[i] >= 1
  }

  /** A struct field fits its array: text shorter than the array and free of NUL. */
  predicate Fits(v: Value, size: nat)
  {
    v.Str? ==> '\0' !in v.s && |v.s| < size
  }

  predicate AllFit(r: Record, sizes: seq<nat>)
  {
    |r| <= |sizes| && forall i :: 0 <= i < |r| ==> Fits(r[i], sizes[i])
  }

  /** `convertFromProtobuf` for an instrument: a zeroed struct filled field by field. */
  function FromMessage(m: Record, kinds: seq<Kind>, sizes: seq<nat>): (r: Record)
    requires ValidSizes(kinds, sizes) && WellTyped(m, MessageKinds(kinds))
    ensures WellTyped(r, kinds)
    ensures AllFit(r, sizes)
  {
    seq(|kinds|, i requires 0 <= i < |kinds| => FieldFromMessage(m[i], kinds[i], sizes[i]))
  }

  /** A `char` survives the message: the one-character string reads back as that character. */
  lemma CharRoundTrip(c: char)
    ensures FieldFromMessage(FieldToMessage(Chr(c)), CharKind, 1) == Chr(c)
  {
  }

  /**
   * A well-typed struct whose strings fit their arrays comes back unchanged
   * from its message.
   */
  lemma FromToMessage(r: Record, kinds: seq<Kind>, sizes: seq<nat>)
    requires WellTyped(r, kinds) && ValidSizes(kinds, sizes)
    requires AllFit(r, sizes)
    ensures WellTyped(ToMessage(r, |r|), MessageKinds(kinds))
    ensures FromMessage(ToMessage(r, |r|), kinds, sizes) == r
  {
    var m := ToMessage(r, |r|);
    forall i | 0 <= i < |r|
      ensures HasKind(m[i], MessageKind(kinds[i]))
      ensures FieldFromMessage(m[i], kinds[i], sizes[i]) == r[i]
    {
      assert m[i] == FieldToMessage(r[i]);
    }
  }

  /** Whatever the message holds, a string field of the struct is a prefix of it, cut to its array. */
  lemma FromMessageTruncates(m: Record, kinds: seq<Kind>, sizes: seq<nat>, i: nat)
    requires ValidSizes(kinds, sizes) && WellTyped(m, MessageKinds(kinds))
    requires i < |kinds| && kinds[i] == StrKind
    ensures var v := FromMessage(m, kinds, sizes)[i];
      v.Str? && |v.s| <= sizes[i] - 1 && v.s == m[i].s[..|v.s|]
  {
  }

  // ---------------------------------------------------------------------
  // Market data

  /** The market-data message: the 44 tick fields, the local receive time and a millisecond time stamp. */
  datatype MarketMessage = MarketMessage(fields: Record, localTimestamp: string, timestamp: int)

  /**
   * One tick field in the market message: strings as they are, integers
   * through `safeInt`, reals through `safeDouble`, whose test for the
   * largest double, NaN and the infinities is the input `notFinite`.
   */
  function MarketField(v: Value, notFinite: string -> bool): (m: Value)
    ensures v.Int? ==> m == Int(SafeInt32(v.i))
    ensures v.Real? ==> m == (if notFinite(v.t) then Real(RealZero) else v)
    ensures v.Str? || v.Chr? || v.Flag? ==> m == v
  {
    match v
    case Int(n) => Int(SafeInt32(n))
    case Real(t) => if notFinite(t) then Real(RealZero) else v
    case _ => v
  }

  /** `convertToProtobuf` for a depth-market tick. */
  function MarketToMessage(r: Record, localTimestamp: string, timestamp: int, notFinite: string -> bool)
    : (msg: MarketMessage)
    requires WellTyped(r, CtpStructs.MarketKinds)
    ensures WellTyped(msg.fields, CtpStructs.MarketKinds)
    ensures forall i :: 0 <= i < |msg.fields| ==> msg.fields[i] == MarketField(r[i], notFinite)
    ensures msg.localTimestamp == localTimestamp && msg.timestamp == timestamp
  {
    MarketMessage(seq(|r|, i requires 0 <= i < |r| => MarketField(r[i], notFinite)), localTimestamp, timestamp)
  }

  /**
   * The message of a tick keeps every text field and every integer that is
   * not one of the two extremes; no integer in it is an extreme.
   */
  lemma MarketMessageKeeps(r: Record, localTimestamp: string, timestamp: int, notFinite: string -> bool)
    requires WellTyped(r, CtpStructs.MarketKinds)
    ensures var f := MarketToMessage(r, localTimestamp, timestamp, notFinite).fields;
      forall i :: 0 <= i < |f| ==>
        && (r[i].Str? ==> f[i] == r[i])
        && (r[i].Int? && r[i].i != IntMax && r[i].i != IntMin ==> f[i] == r[i])
        && (f[i].Int? ==> f[i].i != IntMax && f[i].i != IntMin)
  {
  }

  /**
   * `serializeToString` for the market message: the library's encoding, or
   * "" when it reports a failure.  The encoding is the input `encoded`.
   */
  function SerializeMarket(msg: MarketMessage, encoded: Option<string>): (s: string)
    ensures encoded.None? ==> s == ""
    ensures encoded.Some? ==> s == encoded.value
  {
    match encoded
    case Some(e) => e
    case None => ""
  }

  // ---------------------------------------------------------------------
  // Batches

  /** A batch message: the time stamp, the message type and the entries in order. */
  datatype Batch = Batch(timestamp: int, messageType: string, entries: seq<Record>)

  /** `convertBatchToProtobuf` for instruments: one message per instrument, in order. */
  method InstrumentBatchToProtobuf(instruments: seq<Record>, timestamp: int) returns (b: Batch)
    requires forall i :: 0 <= i < |instruments| ==> |instruments[i]| == |CtpStructs.InstrumentKinds|
    ensures b.timestamp == timestamp && b.messageType == InstrumentBatchType
    ensures |b.entries| == |instruments|
    ensures forall i :: 0 <= i < |instruments| ==>
      b.entries[i] == ToMessage(instruments[i], |CtpStructs.InstrumentKinds|)
  {
    CtpStructs.Sizes();
    var entries: seq<Record> := [];
    var n := 0;
    while n < |instruments|
      invariant 0 <= n <= |instruments| && |entries| == n
      invariant forall i :: 0 <= i < n ==>
        entries[i] == ToMessage(instruments[i], |CtpStructs.InstrumentKinds|)
    {
      entries := entries + [ToMessage(instruments[n], |CtpStructs.InstrumentKinds|)];
      n := n + 1;
    }
    b := Batch(timestamp, InstrumentBatchType, entries);
  }

  /** `convertBatchFromProtobuf`: one struct per message, in order. */
  method InstrumentBatchFromProtobuf(b: Batch, sizes: seq<nat>) returns (instruments: seq<Record>)
    requires ValidSizes(CtpStructs.InstrumentKinds, sizes)
    requires forall i :: 0 <= i < |b.entries| ==> WellTyped(b.entries[i], MessageKinds(CtpStructs.InstrumentKinds))
    ensures |instruments| == |b.entries|
    ensures forall i :: 0 <= i < |b.entries| ==>
      instruments[i] == FromMessage(b.entries[i], CtpStructs.InstrumentKinds, sizes)
  {
    instruments := [];
    var n := 0;
    while n < |b.entries|
      invariant 0 <= n <= |b.entries| && |instruments| == n
      invariant forall i :: 0 <= i < n ==>
        instruments[i] == FromMessage(b.entries[i], CtpStructs.InstrumentKinds, sizes)
    {
      instruments := instruments + [FromMessage(b.entries[n], CtpStructs.InstrumentKinds, sizes)];
      n := n + 1;
    }
  }

  /**
   * A batch of instruments whose strings fit their arrays comes back from
   * its message as the same instruments in the same order.
   */
  lemma InstrumentBatchRoundTrip(instruments: seq<Record>, b: Batch, sizes: seq<nat>, back: seq<Record>)
    requires ValidSizes(CtpStructs.InstrumentKinds, sizes)
    requires forall i :: 0 <= i < |instruments| ==>
      |instruments[i]| == |CtpStructs.InstrumentKinds| && WellTyped(instruments[i], CtpStructs.InstrumentKinds)
    requires forall i :: 0 <= i < |instruments| ==> AllFit(instruments[i], sizes)
    requires |b.entries| == |instruments|
    requires forall i :: 0 <= i < |instruments| ==>
      b.entries[i] == ToMessage(instruments[i], |CtpStructs.InstrumentKinds|)
    requires |back| == |b.entries|
    requires forall i :: 0 <= i < |b.entries| ==> WellTyped(b.entries[i], MessageKinds(CtpStructs.InstrumentKinds))
    requires forall i :: 0 <= i < |b.entries| ==>
      back[i] == FromMessage(b.entries[i], CtpStructs.InstrumentKinds, sizes)
    ensures back == instruments
  {
    forall i | 0 <= i < |instruments| ensures back[i] == instruments[i] {
      FromToMessage(instruments[i], CtpStructs.InstrumentKinds, sizes);
    }
  }

  /** `convertBatchToProtobuf` for positions: one 47-field message per position, in order. */
  method PositionBatchToProtobuf(positions: seq<Record>, timestamp: int) returns (b: Batch)
    requires forall i :: 0 <= i < |positions| ==> |positions[i]| == 49
    ensures b.timestamp == timestamp && b.messageType == PositionBatchType
    ensures |b.entries| == |positions|
    ensures forall i :: 0 <= i < |positions| ==>
      b.entries[i] == ToMessage(positions[i], PositionMessageFields)
  {
    CtpStructs.Sizes();
    var entries: seq<Record> := [];
    var n := 0;
    while n < |positions|
      invariant 0 <= n <= |positions| && |entries| == n
      invariant forall i :: 0 <= i < n ==> entries[i] == ToMessage(positions[i], PositionMessageFields)
    {
      entries := entries + [ToMessage(positions[n], PositionMessageFields)];
      n := n + 1;
    }
    b := Batch(timestamp, PositionBatchType, entries);
  }

  /** A position message drops the last two struct fields (TasPosition and TasCost) and keeps the rest in order. */
  lemma PositionMessageLayout(p: Record)
    requires WellTyped(p, CtpStructs.PositionKinds)
    ensures var m := ToMessage(p, PositionMessageFields);
      |m| == |p| - 2 && forall i :: 0 <= i < |m| ==> m[i] == FieldToMessage(p[i])
  {
    CtpStructs.Sizes();
  }
}
