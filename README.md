# A Dafny model of the ctpAxer market-data pipeline

ctpAxer moves futures market data from the CTP trading front of Chinese
futures exchanges to a MySQL database and a web page. This project models
its core as sequential Dafny code and proves properties of that model.

- **Publishers.** The raw-tick publisher (`ctprawtick`) receives depth-market
  callbacks. It hands each tick to a primary queue sized for 10,000 ticks,
  or to an overflow queue of 500,000 when the primary queue is full. A
  distribution loop drains the overflow queue, retrying failed sends, then
  publishes at most one fresh tick per pass as a two-frame ZMQ message. It
  stops once the wall clock passes an exit time fixed at start-up. The older
  string-based publisher (`ctpquote`) first runs a trader session. That
  session collects the contract list and raises a ready flag. The publisher
  then writes every tick as a text line to a single queue, and its loop
  sends those lines over a push socket. The raw-tick side also maps vendor
  structs to protobuf messages and back.
- **Subscriber.** The data-update service (`zmq-dataupdate`) takes
  two-frame messages and routes each by its exact type tag. Instruments and
  positions go to the database in batches. Trading accounts go row by row.
  Depth-market ticks go to a buffer written out when it reaches 1000 ticks
  or when a 30-second timer finds it due. Four converters read and write
  the comma-separated lines and database rows. The database manager counts
  the rows each batch insert stores.
- **Configuration and utilities.** The model covers the JSON-like
  configuration reader of the publisher, the `key=value` settings file of
  the subscriber, the position and account monitor with its session test
  and polling threads, and the instrument-query launcher with its
  two-runs-a-day counter.
- **Web interface.** The model covers the query retry loop, the page
  arithmetic, and the market feed. The feed keeps the latest tick per
  instrument and sends 30 of them per round to every subscribed client,
  rotating through the list.

The model has one module per source file. `Wrappers`, `Numbers`, `Text`,
`Fields`, `LineCodec` and `CtpStructs` hold what several files share:
`getline` splitting, `std::stoi` and `std::stod` acceptance, and positional
record layouts. Code that changes state in place becomes classes or methods
with loops, proved against specification functions:
- the queues, the publisher, the trader session, the subscriber and the
  database manager;
- the distribution loops, the configuration loaders, the monitor threads
  and the web feed.

The following are inputs or parameters of the model:
- the vendor API and the clock;
- the outcome of every socket send and database call;
- protobuf encoding and the comparison of doubles.

Real numbers are carried as the decimal text they were read from.

## Model

| member | source | states |
|---|---|---|
| AccountConverter.IsCSVFormatTagged | zmq-dataupdate/src/TradingAccountConverter.cpp:6-13 | any text holding the tag `CTP_TRADING_ACCOUNT` is taken for an account line |
| AccountConverter.AsWrittenReadsPastEnd | zmq-dataupdate/src/TradingAccountConverter.cpp:21-84 | the guards as written read one element past the end exactly for lines of 46 to 49 fields |
| AccountConverter.AsWrittenMandatoryOnly | zmq-dataupdate/src/TradingAccountConverter.cpp:21-78 | a line with the tag and the 46 mandatory values only (47 fields) is read past its end |
| AccountConverter.Optional | zmq-dataupdate/src/TradingAccountConverter.cpp:76-84 | an optional tail field is read when present and keeps its zero value otherwise |
| AccountConverter.ParseCSV | zmq-dataupdate/src/TradingAccountConverter.cpp:15-91 | the corrected reader always gives a well-typed record, the zero record below 47 fields |
| AccountConverter.ParseCSVAgrees | zmq-dataupdate/src/TradingAccountConverter.cpp:15-91 | wherever the code as written reads nothing past the end, the corrected reader gives the same record |
| AccountConverter.ShortLineHasNoAccount | zmq-dataupdate/src/TradingAccountConverter.cpp:21-24 | a line too short to read leaves AccountID empty |
| AccountConverter.MissingTailIsDefault | zmq-dataupdate/src/TradingAccountConverter.cpp:76-84 | missing BizType, FrozenSwap and RemainSwap keep "" and 0 |
| AccountConverter.FullLineFields | zmq-dataupdate/src/TradingAccountConverter.cpp:25-85 | with all fields present the record is the safe reading of fields 1 to 49 |
| AccountConverter.SplitTagged | zmq-dataupdate/src/TradingAccountConverter.cpp:151-161 | splitting a tagged line gives the tag and then the body's fields |
| AccountConverter.ParseTagged | zmq-dataupdate/src/TradingAccountConverter.cpp:15-91 | after the tag the fields are read positionally |
| AccountConverter.ParseCSVRoundTrip | zmq-dataupdate/src/TradingAccountConverter.cpp:15-91 | a CSV-safe record written after the tag is read back unchanged |
| AccountConverter.DatabaseFormatFields | zmq-dataupdate/src/TradingAccountConverter.cpp:93-149 | the row text splits into 49 values in field order, the five text fields in single quotes |
| InstrumentConverter.ConvertBatchToCSV | zmq-dataupdate/src/InstrumentConverter.cpp:45-53 | every instrument's CSV line followed by a newline, in order |
| InstrumentConverter.DatabaseFormatFields | zmq-dataupdate/src/InstrumentConverter.cpp:55-91 | 31 texts; IsTrading as "1"/"0", chars as one-character texts, texts unchanged |
| InstrumentConverter.ConvertBatchToDatabaseFormat | zmq-dataupdate/src/InstrumentConverter.cpp:93-101 | one row per instrument, in order |
| InstrumentConverter.CSVLineIsCSV | zmq-dataupdate/src/InstrumentConverter.cpp:103-108 | every line the writer emits passes the CSV test |
| InstrumentConverter.IsProtobufFormat | zmq-dataupdate/src/InstrumentConverter.cpp:170-198 | the scan and first-byte test make the decision ProtobufFormat describes, which accepts exactly the non-empty payloads |
| InstrumentConverter.ProtobufFormatNonEmpty | zmq-dataupdate/src/InstrumentConverter.cpp:170-198 | a payload is taken for protobuf exactly when it is non-empty |
| InstrumentConverter.ParseCSV | zmq-dataupdate/src/InstrumentConverter.cpp:110-168 | one instrument per non-empty line of 31 or more fields, in order; a bad number fails the read |
| InstrumentConverter.LineFields | zmq-dataupdate/src/InstrumentConverter.cpp:120-160 | a readable line gives IsTrading from "1", chars from first characters, texts as they are |
| InstrumentConverter.BatchCSVRoundTrip | zmq-dataupdate/src/InstrumentConverter.cpp:45-53 | the batch reader gives back the batch the writer wrote, for CSV-safe instruments |
| InstrumentConverter.ParseProtobufBatch | zmq-dataupdate/src/InstrumentConverter.cpp:200-215 | the binary batch reader yields no instrument |
| PositionConverter.Layouts | zmq-dataupdate/src/InvestorPositionConverter.cpp:7-125 | the CSV writer emits 47 of the 49 fields, TradingDay sixth; the database row puts TradingDay ninth |
| PositionConverter.ConvertBatchToCSV | zmq-dataupdate/src/InvestorPositionConverter.cpp:61-69 | every position's CSV line followed by a newline, in order |
| PositionConverter.CSVLineFields | zmq-dataupdate/src/InvestorPositionConverter.cpp:7-59 | a written position line has 47 fields |
| PositionConverter.CSVBatchReadsNothing | zmq-dataupdate/src/InvestorPositionConverter.cpp:7-59 | the reader drops every line the writer emits |
| PositionConverter.CSVFullRoundTrip | zmq-dataupdate/src/InvestorPositionConverter.cpp:151-227 | a writer of all 49 fields in reader order round-trips through the reader |
| PositionConverter.DatabaseFormatFields | zmq-dataupdate/src/InvestorPositionConverter.cpp:71-125 | 49 texts; TradingDay at position 8, the fields after it shifted by one |
| PositionConverter.ConvertBatchToDatabaseFormat | zmq-dataupdate/src/InvestorPositionConverter.cpp:127-135 | one row per position, in order |
| PositionConverter.IsCSVFormat | zmq-dataupdate/src/InvestorPositionConverter.cpp:137-149 | CSV exactly when non-empty, all ASCII and holding a comma |
| PositionConverter.ParseCSV | zmq-dataupdate/src/InvestorPositionConverter.cpp:151-227 | one position per non-empty line of 49 or more fields, in order; a bad number fails the read |
| PositionConverter.LineFields | zmq-dataupdate/src/InvestorPositionConverter.cpp:160-220 | a readable line takes TradingDay from field 28 and the ids from fields 0 to 2 |
| PositionConverter.ParseProtobufBatch | zmq-dataupdate/src/InvestorPositionConverter.cpp:229-244 | the binary batch reader yields no position |
| MarketConverter.IsCSVFormatOccurs | zmq-dataupdate/src/MarketDataConverter.cpp:6-14 | CSV exactly when both the separator and the ticker tag occur |
| MarketConverter.TickerLineIsCSV | zmq-dataupdate/src/MarketDataConverter.cpp:6-14 | a published ticker line passes the test |
| MarketConverter.ParseCSV | zmq-dataupdate/src/MarketDataConverter.cpp:16-87 | always a well-typed record; the zero record without a separator |
| MarketConverter.ParseCSVRejects | zmq-dataupdate/src/MarketDataConverter.cpp:22-30 | a line the reader refuses gives the zero record with an empty InstrumentID |
| MarketConverter.ParseCSVPositions | zmq-dataupdate/src/MarketDataConverter.cpp:30-85 | fields after the separator go to their positions with the safe conversions |
| MarketConverter.ParseCSVRoundTrip | zmq-dataupdate/src/MarketDataConverter.cpp:16-87 | a CSV-safe record written after a header and the separator is read back unchanged |
| MarketConverter.DatabaseFormatFields | zmq-dataupdate/src/MarketDataConverter.cpp:89-140 | the row text splits into 44 values in field order, text fields in single quotes |
| ProtobufConverter.SafeInt32 | ctp-master/ctprawtick/src/ProtobufConverter.cpp:356-362 | the two extreme int values become 0; every other value passes unchanged |
| ProtobufConverter.SafeInt32Idempotent | ctp-master/ctprawtick/src/ProtobufConverter.cpp:356-362 | applying the guard twice is applying it once, and its result is never an extreme |
| ProtobufConverter.MessageKinds | ctp-master/ctprawtick/src/ProtobufConverter.cpp:11-48 | the message's field kinds follow the struct's, a char field becoming a string |
| ProtobufConverter.FieldToMessage | ctp-master/ctprawtick/src/ProtobufConverter.cpp:20 | a char field travels as a one-character string; other fields as they are |
| ProtobufConverter.CText | ctp-master/ctprawtick/src/ProtobufConverter.cpp:54-61 | the C-string text is the prefix before the first NUL, the whole text when it has none |
| ProtobufConverter.StructText | ctp-master/ctprawtick/src/ProtobufConverter.cpp:57-61 | a copied string is a NUL-free prefix of the message's text of at most size - 1 characters, the text itself when it fits |
| ProtobufConverter.FieldFromMessage | ctp-master/ctprawtick/src/ProtobufConverter.cpp:50-90 | a field read from the message has the struct field's kind |
| ProtobufConverter.ToMessage | ctp-master/ctprawtick/src/ProtobufConverter.cpp:11-48 | the message holds the struct's fields in order, each mapped by the char-as-string rule |
| ProtobufConverter.FromMessage | ctp-master/ctprawtick/src/ProtobufConverter.cpp:50-90 | the struct read back is well-typed and every string fits its array |
| ProtobufConverter.CharRoundTrip | ctp-master/ctprawtick/src/ProtobufConverter.cpp:20 | a char comes back as itself from its one-character string |
| ProtobufConverter.FromToMessage | ctp-master/ctprawtick/src/ProtobufConverter.cpp:11-90 | a well-typed struct whose strings fit their arrays comes back unchanged from its message |
| ProtobufConverter.FromMessageTruncates | ctp-master/ctprawtick/src/ProtobufConverter.cpp:54-61 | whatever the message holds, each string field of the struct is a prefix of it cut to its array |
| ProtobufConverter.MarketField | ctp-master/ctprawtick/src/ProtobufConverter.cpp:242-317 | integers go through the extreme-value guard, reals through the non-finite guard, texts unchanged |
| ProtobufConverter.MarketToMessage | ctp-master/ctprawtick/src/ProtobufConverter.cpp:242-317 | the tick message is well-typed, each field mapped by its guard, the two timestamps carried |
| ProtobufConverter.MarketMessageKeeps | ctp-master/ctprawtick/src/ProtobufConverter.cpp:242-317 | text fields and non-extreme integers survive; no extreme integer reaches the message |
| ProtobufConverter.SerializeMarket | ctp-master/ctprawtick/src/ProtobufConverter.cpp:319-325 | the encoding on success and "" on failure |
| ProtobufConverter.InstrumentBatchToProtobuf | ctp-master/ctprawtick/src/ProtobufConverter.cpp:92-107 | type CTP_INSTRUMENT_BATCH_UPDATE, the given timestamp, one message per instrument in order |
| ProtobufConverter.InstrumentBatchFromProtobuf | ctp-master/ctprawtick/src/ProtobufConverter.cpp:109-118 | one struct per message, in order |
| ProtobufConverter.InstrumentBatchRoundTrip | ctp-master/ctprawtick/src/ProtobufConverter.cpp:92-118 | instruments whose strings fit their arrays come back from their batch message unchanged and in order |
| ProtobufConverter.PositionBatchToProtobuf | ctp-master/ctprawtick/src/ProtobufConverter.cpp:215-230 | type CTP_INVESTOR_POSITION_BATCH_UPDATE, one message per position in order |
| ProtobufConverter.PositionMessageLayout | ctp-master/ctprawtick/src/ProtobufConverter.cpp:160-213 | a position message keeps the struct's fields in order without the last two |
| MarketMain.Row | ctp-master/ctprawtick/src/main_market.cpp:99-103 | one name per month, each the product followed by that month |
| MarketMain.ContractsAt | ctp-master/ctprawtick/src/main_market.cpp:99-103 | the list has products × months names, product-major: entry p·|months|+m is product p with month m |
| MarketMain.ContractsLength | ctp-master/ctprawtick/src/main_market.cpp:99-103 | the list has products × months names |
| MarketMain.SubscriptionList | ctp-master/ctprawtick/src/main_market.cpp:92-104 | 27 products by 3 months give 81 names, from "cu2508" to "SM2510" |
| MarketMain.BuildContracts | ctp-master/ctprawtick/src/main_market.cpp:99-103 | the nested push_back loops build exactly the product-major list |
| MarketMain.DrainStart | ctp-master/ctprawtick/src/main_market.cpp:137 | a drain starts with the overflow queue's ticks, nothing sent or published |
| MarketMain.DrainStep | ctp-master/ctprawtick/src/main_market.cpp:137-161 | one drain pass loses no tick, uses at most one send outcome, and shortens the queue when it uses none |
| MarketMain.DrainFromFacts | ctp-master/ctprawtick/src/main_market.cpp:137-161 | the drain keeps every tick (queued, published or discarded), ends only where it must, and publishes at most one tick per send |
| MarketMain.DrainFacts | ctp-master/ctprawtick/src/main_market.cpp:137-161 | from the overflow queue's ticks: nothing lost, and the queue is left non-empty only when the send outcomes ran out on a serialisable head |
| MarketMain.DrainFromLivelock | ctp-master/ctprawtick/src/main_market.cpp:137-161 | with a publisher that is not ready and serialisable ticks, the drain never empties the queue however many sends it gets |
| MarketMain.DrainLivelock | ctp-master/ctprawtick/src/main_market.cpp:137-161 | the overflow drain as written does not terminate while the publisher is down: every send fails and every tick goes back |
| MarketMain.DrainFromWire | ctp-master/ctprawtick/src/main_market.cpp:137-161 | frames on the wire before the drain stay in front of those it adds |
| MarketMain.DrainOne | ctp-master/ctprawtick/src/main_market.cpp:137-161 | one dequeue/publish/re-enqueue pass over the real queue and publisher is the specification's drain pass; the re-enqueue never fails |
| MarketMain.Drain | ctp-master/ctprawtick/src/main_market.cpp:137-161 | the drain loop leaves the queue, the sends used, the published and discarded ticks and the wire as the drain specification says |
| MarketMain.DrainPhase | ctp-master/ctprawtick/src/main_market.cpp:137-161 | the drain leaves the primary queue and the dropped ticks alone |
| MarketMain.DrainPhaseFacts | ctp-master/ctprawtick/src/main_market.cpp:137-161 | the drain keeps every tick accounted and raises messageCount by the number it publishes |
| MarketMain.FreshPhaseFacts | ctp-master/ctprawtick/src/main_market.cpp:168-206 | the fresh half keeps every tick accounted, counts each publish once, sleeps exactly when the primary queue is empty and otherwise takes its head |
| MarketMain.StepFacts | ctp-master/ctprawtick/src/main_market.cpp:127-207 | the loop exits exactly when the exit time is behind now, touching nothing; an iteration loses no tick; messageCount rises by the publishes; the primary queue loses at most its head |
| MarketMain.FreshNeverDropped | ctp-master/ctprawtick/src/main_market.cpp:190-203 | a fresh tick whose publish fails goes to the overflow queue, never back to the primary one, and is never dropped in a sequential run |
| MarketMain.FreshTick | ctp-master/ctprawtick/src/main_market.cpp:168-206 | the dequeue/publish/enqueue code over the real queues is the fresh half of the specification |
| MarketMain.Iteration | ctp-master/ctprawtick/src/main_market.cpp:127-207 | one pass of the for(;;) body over the real queues and publisher is the specification's step |
| MarketMain.Deliver | ctp-master/ctprawtick/src/CTPQuote.cpp:150-174 | the queues gain exactly the ticks the callback accepted, and no more ticks are accepted or lost than arrived |
| MarketMain.RunSlot | ctp-master/ctprawtick/src/main_market.cpp:127-207 | a callback slot then an iteration keeps every tick accounted, messageCount equals the publishes, and exits exactly past the exit time |
| MarketMain.Run | ctp-master/ctprawtick/src/main_market.cpp:115-207 | over a schedule, every tick queued or accepted ends queued, published, discarded or dropped; messageCount is the number published; the loop exits at the first slot past the exit time |
| Queues.BoundedQueue.constructor | ctp-master/ctprawtick/src/main_market.cpp:31-33 | a queue starts empty with the given capacity |
| Queues.BoundedQueue.TryEnqueue | ctp-master/ctprawtick/src/CTPQuote.cpp:164-167 | succeeds exactly when there is room, then appends at the tail; otherwise nothing changes |
| Queues.BoundedQueue.TryDequeue | ctp-master/ctprawtick/src/main_market.cpp:137 | gives and removes the head, or reports an empty queue and changes nothing |
| Publisher.Delivered | ctp-master/ctprawtick/src/ZMQPublisher.cpp:62-65 | a frame reaches the socket only when its send queues it |
| Publisher.PublishFrames | ctp-master/ctprawtick/src/ZMQPublisher.cpp:48-65 | nothing unless ready; at most the type frame with sndmore and then the content frame without it; both when both sends queue |
| Publisher.FramesInOrder | ctp-master/ctprawtick/src/ZMQPublisher.cpp:55-77 | the first frame carries sndmore exactly when it was queued; a ready publish fails only if a send throws |
| Publisher.ZmqPublisher.constructor | ctp-master/ctprawtick/src/ZMQPublisher.cpp:6-8 | a fresh publisher is not initialised and owns no socket or context |
| Publisher.ZmqPublisher.Connect | ctp-master/ctprawtick/src/ZMQPublisher.cpp:14-46 | initialized becomes true exactly when no step throws, false on any exception; members made before a failure stay |
| Publisher.ZmqPublisher.PublishMessage | ctp-master/ctprawtick/src/ZMQPublisher.cpp:48-78 | false with nothing sent unless initialised with a socket; the two frames in order; true whenever neither send throws, whatever send returned |
| Publisher.ZmqPublisher.Disconnect | ctp-master/ctprawtick/src/ZMQPublisher.cpp:112-130 | always leaves the publisher uninitialised without socket or context |
| Trader.KeptSymbols | ctp-master/ctpquote/src/CTPTrader.cpp:276-291 | the contract list gains only kept symbols, in arrival order, at most one per reply |
| Trader.TraderSpi.constructor | ctp-master/ctpquote/src/CTPTrader.cpp:18 | no contracts and the ready flag down |
| Trader.TraderSpi.Create | ctp-master/ctpquote/src/CTPTrader.cpp:397-421 | with an API object the request counter restarts at 0 |
| Trader.TraderSpi.Authenticate | ctp-master/ctpquote/src/CTPTrader.cpp:424-434 | the request carries the counter, then the counter goes up (post-increment) |
| Trader.TraderSpi.Login | ctp-master/ctpquote/src/CTPTrader.cpp:436-472 | the counter goes up first and the request carries the new value (pre-increment) |
| Trader.TraderSpi.ReqInstruments | ctp-master/ctpquote/src/CTPTrader.cpp:474-480 | the request carries the counter, then the counter goes up (post-increment) |
| Trader.TraderSpi.OnRspQryInstrument | ctp-master/ctpquote/src/CTPTrader.cpp:264-303 | error information changes nothing; a kept symbol is appended; a last non-null instrument raises the flag, which is never lowered |
| Trader.TraderSpi.Handle | ctp-master/ctpquote/src/CTPTrader.cpp:23-73 | a connected front authenticates, a successful authentication logs in, a successful login queries instruments; a non-zero ErrorID stops the chain |
| Trader.TraderSpi.AwaitReady | ctp-master/ctpquote/src/main.cpp:65-80 | the wait ends at the first reply that raises the flag; the contract list has grown by exactly the kept symbols up to it, in order |
| Trader.SawLastAppend | ctp-master/ctpquote/src/CTPTrader.cpp:264-303 | the flag and the kept symbols over a longer run of replies extend those over its prefix |
| Trader.Handshake | ctp-master/ctpquote/src/CTPTrader.cpp:418-478 | from a fresh session, authentication, login and the instrument query carry ids 0, 2 and 2 |
| Trader.FailedHandshake | ctp-master/ctpquote/src/CTPTrader.cpp:47-73 | a failed authentication sends no login, a failed login no instrument query |
| RawQuote.Prefix | ctp-master/ctprawtick/src/CTPQuote.cpp:136-148 | the result is a prefix of the name without digits, ending at the first digit or at the end |
| RawQuote.GetPrefix | ctp-master/ctprawtick/src/CTPQuote.cpp:136-148 | the push_back loop builds exactly the longest digit-free prefix |
| RawQuote.PrefixUnique | ctp-master/ctprawtick/src/CTPQuote.cpp:136-148 | any digit-free prefix that stops at a digit or at the end is that prefix |
| RawQuote.PrefixIdempotent | ctp-master/ctprawtick/src/CTPQuote.cpp:136-148 | the prefix of the prefix is the prefix |
| RawQuote.BufferName | ctp-master/ctprawtick/src/CTPQuote.cpp:324 | a name in a 32-byte row is its NUL-free prefix of at most 31 characters, the name itself when short enough |
| RawQuote.Names | ctp-master/ctprawtick/src/CTPQuote.cpp:304-332 | one buffered name per contract, in order |
| RawQuote.PendingStep | ctp-master/ctprawtick/src/CTPQuote.cpp:324-325 | the requests sent plus the pending rows grow by the next name |
| RawQuote.FlattenAppend | ctp-master/ctprawtick/src/CTPQuote.cpp:304-332 | sending one more request appends its names after those already sent |
| RawQuote.ExitTime | ctp-master/ctprawtick/src/CTPQuote.cpp:193-212 | today at dayend's hour and minute + 5 when now is not past it, else tomorrow at nightend's hour and minute, second 59; never before now |
| RawQuote.MarketSpi.constructor | ctp-master/ctprawtick/src/CTPQuote.cpp:182-186 | a fresh spi has no API object |
| RawQuote.MarketSpi.Create | ctp-master/ctprawtick/src/CTPQuote.cpp:182-223 | with an API object the exit time follows the exit rule and the request counter restarts at 0 |
| RawQuote.MarketSpi.Login | ctp-master/ctprawtick/src/CTPQuote.cpp:227-263 | the request carries the pre-incremented counter, and nothing goes out without an API object |
| RawQuote.MarketSpi.OnRtnDepthMarketData | ctp-master/ctprawtick/src/CTPQuote.cpp:150-174 | a null tick touches nothing; else into q when it has room, else into bufq when that has room, else lost with both queues unchanged |
| RawQuote.MarketSpi.ClearRows | ctp-master/ctprawtick/src/CTPQuote.cpp:319-322 | the memset leaves every buffer row empty |
| RawQuote.MarketSpi.Subscribe | ctp-master/ctprawtick/src/CTPQuote.cpp:304-332 | requests of exactly 100 names but the last, which holds 1 to 100 (none for an empty list); all requests together are the list in order, each name cut to 31 characters |
| LegacyQuote.Quoted | ctp-master/ctpquote/src/CTPQuote.cpp:175-176 | a bid or ask above 1000000.0 is written as 0, otherwise as it is |
| LegacyQuote.Header | ctp-master/ctpquote/src/CTPQuote.cpp:172 | the topic "EL/CTP_XZ/" + id + "/O/1 \|\| " |
| LegacyQuote.LineFields | ctp-master/ctpquote/src/CTPQuote.cpp:173-183 | thirteen fields after the header |
| LegacyQuote.IntTextNoComma | ctp-master/ctpquote/src/CTPQuote.cpp:174-182 | a number's decimal text holds no comma |
| LegacyQuote.LineLayout | ctp-master/ctpquote/src/CTPQuote.cpp:162-183 | the line starts with the header; split at commas the rest gives 13 fields: the instrument first, the local date (for a DCE product prefix) or the tick's action day with the time second, an empty ninth, the trading day last |
| LegacyQuote.LineTopic | ctp-master/ctpquote/src/CTPQuote.cpp:172 | every line starts with "EL/CTP_XZ/" |
| LegacyQuote.OnRtnDepthMarketData | ctp-master/ctpquote/src/CTPQuote.cpp:149-189 | the line goes to the one queue when it has room; otherwise it is written to standard error and not kept |
| LegacyMain.PushSocket.constructor | ctp-master/ctpquote/src/main.cpp:35 | a fresh push socket is not connected and has taken nothing |
| LegacyMain.PushSocket.SetOptions | ctp-master/ctpquote/src/main.cpp:85-86 | the high-water mark becomes 10000 and the send timeout 200 ms; nothing else changes |
| LegacyMain.PushSocket.Connect | ctp-master/ctpquote/src/main.cpp:88-91 | the socket is connected to the given endpoint, options and sent messages kept |
| LegacyMain.PushSocket.Send | ctp-master/ctpquote/src/main.cpp:119 | the result is whether the socket took the message, and only a taken message is sent |
| LegacyMain.LDrainStep | ctp-master/ctpquote/src/main.cpp:115-126 | one drain pass uses exactly one send outcome |
| LegacyMain.LDrainFacts | ctp-master/ctpquote/src/main.cpp:115-126 | no line is lost by the drain, earlier sends stay in front, and it stops only when the queue is empty or the outcomes run out |
| LegacyMain.LDrainLivelock | ctp-master/ctpquote/src/main.cpp:115-126 | when every send fails the queue never empties and nothing is sent: the drain loop as written does not terminate |
| LegacyMain.LDrainInOrder | ctp-master/ctpquote/src/main.cpp:115-126 | when every send succeeds the overflow queue goes out in order |
| LegacyMain.Drain | ctp-master/ctpquote/src/main.cpp:115-126 | the loop over the real queue and socket is the drain specification; putting a failed line back never reaches the standard-error branch |
| LegacyMain.LFreshFacts | ctp-master/ctpquote/src/main.cpp:130-144 | the fresh line is sent, requeued or spilled, taken from the head of q; the loop sleeps exactly when q is empty |
| LegacyMain.LStepFacts | ctp-master/ctpquote/src/main.cpp:106-145 | an iteration keeps every line queued, sent or spilled; at most q's head leaves q; earlier sends stay in front; exit exactly when the exit time is behind now |
| LegacyMain.Iteration | ctp-master/ctpquote/src/main.cpp:106-145 | one pass over the real queues and socket is the specification's iteration |
| LegacyMain.ReadyIsNoTick | ctp-master/ctpquote/src/main.cpp:101-103 | the ready message is not a tick line |
| LegacyMain.AllTickLinesAppend | ctp-master/ctpquote/src/main.cpp:106-145 | two runs of tick lines joined are tick lines |
| LegacyMain.Deliver | ctp-master/ctpquote/src/CTPQuote.cpp:185-188 | q keeps its lines and gains tick lines; every arrival is queued or spilled |
| LegacyMain.LDrainLines | ctp-master/ctpquote/src/main.cpp:115-126 | the drain moves tick lines only |
| LegacyMain.LStepLines | ctp-master/ctpquote/src/main.cpp:106-145 | an iteration moves tick lines only |
| LegacyMain.ReadyOnlyFirst | ctp-master/ctpquote/src/main.cpp:101-103 | the ready message appears in what the socket took only at the front, and only when it was taken there |
| LegacyMain.RunSlot | ctp-master/ctpquote/src/main.cpp:106-145 | after the callback's lines and one iteration, everything queued is a tick line and the ready message stays alone at the front; exit exactly when the exit time is behind now |
| LegacyMain.MarketLoop | ctp-master/ctpquote/src/main.cpp:106-145 | the loop runs slot by slot until the first slot past the exit time, a drain that runs out of sends, or the end of the slots |
| LegacyMain.SawLastPrefix | ctp-master/ctpquote/src/main.cpp:65-80 | a reply that raised the flag early is among all the replies |
| LegacyMain.Program | ctp-master/ctpquote/src/main.cpp:65-152 | -1 without a trader session; no end until the instrument list is complete; -1 with an empty push server before anything is sent; the ready message is sent once, before every tick line |
| Database.AsText | zmq-dataupdate/src/DatabaseManager.cpp:129-223 | a statement's parameter kinds are the record's, a char bound as text |
| Database.CharsAsText | zmq-dataupdate/src/DatabaseManager.cpp:274-311 | each char turned into its one-character text, everything else kept |
| Database.Bind | zmq-dataupdate/src/DatabaseManager.cpp:276-312 | a row either binds to parameters of the statement's kinds or stops at its first failed conversion |
| Database.InstrumentRow | zmq-dataupdate/src/DatabaseManager.cpp:274-311 | the corrected guard: a row is skipped exactly when it has fewer than 31 texts, and a bound row has the instrument statement's kinds |
| Database.InstrumentRowReadsPastEnd | zmq-dataupdate/src/DatabaseManager.cpp:274-311 | the guard as written reads past the end for exactly the 30-text rows whose first 30 parameters bind |
| Database.InstrumentRowAgrees | zmq-dataupdate/src/DatabaseManager.cpp:274-311 | except at 30 texts, the guard as written and the corrected guard give the same outcome |
| Database.PositionRow | zmq-dataupdate/src/DatabaseManager.cpp:503-558 | skipped exactly below 49 texts; a bound row has 49 parameters of the position kinds |
| Database.MarketFields | zmq-dataupdate/src/DatabaseManager.cpp:709-760 | skipped exactly below 44 pieces; a bound row has the market kinds |
| Database.OptionalAmount | zmq-dataupdate/src/DatabaseManager.cpp:1019-1029 | a missing swap amount becomes 0.0, a present one is converted |
| Database.AccountFields | zmq-dataupdate/src/DatabaseManager.cpp:959-1031 | skipped exactly below 46 pieces |
| Database.AccountRowHead | zmq-dataupdate/src/DatabaseManager.cpp:966-1011 | pieces 0 to 45 are converted in order to the account kinds |
| Database.AccountRowTail | zmq-dataupdate/src/DatabaseManager.cpp:1013-1029 | BizType from piece 46 or "", FrozenSwap and RemainSwap from pieces 47 and 48 or 0.0 |
| Database.Committed | zmq-dataupdate/src/DatabaseManager.cpp:272-318 | at most one stored row per row offered |
| Database.Stored | zmq-dataupdate/src/DatabaseManager.cpp:312-317 | a row adds at most one stored parameter list |
| Database.ExecuteRows | zmq-dataupdate/src/DatabaseManager.cpp:272-318 | the per-row loop stores exactly the rows that bound and executed, and successCount counts them |
| Database.CommittedAppend | zmq-dataupdate/src/DatabaseManager.cpp:272-318 | rows are accounted independently: a batch's outcome is its parts' outcomes in order |
| Database.FailedRowContinues | zmq-dataupdate/src/DatabaseManager.cpp:315-317 | a failing row adds nothing and the rows after it are still processed |
| Database.CommittedSingle | zmq-dataupdate/src/DatabaseManager.cpp:272-318 | a one-row batch stores what its row adds |
| Database.CommittedNonEmpty | zmq-dataupdate/src/DatabaseManager.cpp:325 | the batch reports success exactly when some row bound and executed |
| Database.CommittedFromBound | zmq-dataupdate/src/DatabaseManager.cpp:272-318 | every stored row is the parameter list of a row that bound and executed |
| Database.AllSkippedNothingStored | zmq-dataupdate/src/DatabaseManager.cpp:274-277 | when every row is too short, nothing is stored |
| Database.CommittedAll | zmq-dataupdate/src/DatabaseManager.cpp:272-318 | when every row binds and executes, every row is stored in order |
| Database.InstrumentOutcomes | zmq-dataupdate/src/DatabaseManager.cpp:273-318 | one outcome per instrument row, in order |
| Database.PositionOutcomes | zmq-dataupdate/src/DatabaseManager.cpp:502-565 | one outcome per position row, in order |
| Database.MarketOutcomes | zmq-dataupdate/src/DatabaseManager.cpp:698-766 | one outcome per market string, in order |
| Database.AccountOutcomes | zmq-dataupdate/src/DatabaseManager.cpp:948-1037 | one outcome per account string, in order |
| Database.DatabaseManager.constructor | zmq-dataupdate/src/DatabaseManager.cpp:6-15 | not connected; the driver is there when its creation did not throw |
| Database.DatabaseManager.Connect | zmq-dataupdate/src/DatabaseManager.cpp:21-43 | false without a driver; connected becomes true only when the connection and schema succeed, and a throw clears it |
| Database.DatabaseManager.Disconnect | zmq-dataupdate/src/DatabaseManager.cpp:45-51 | always leaves no connection and connected false |
| Database.DatabaseManager.InsertInstrumentBatch | zmq-dataupdate/src/DatabaseManager.cpp:225-337 | reconnects first when not live and gives up on failure; stores the committed rows, nothing on rollback; true exactly when something was stored |
| Database.DatabaseManager.InsertPositionBatch | zmq-dataupdate/src/DatabaseManager.cpp:456-584 | false at once when not connected; otherwise stores the committed position rows, true exactly when one was stored |
| Database.DatabaseManager.InsertMarketDataBatch | zmq-dataupdate/src/DatabaseManager.cpp:674-785 | false at once when not connected; otherwise stores the committed market rows, true exactly when one was stored |
| Database.DatabaseManager.InsertTradingAccountBatch | zmq-dataupdate/src/DatabaseManager.cpp:903-1056 | false at once when not connected; otherwise stores the committed account rows, true exactly when one was stored |
| Database.DatabaseManager.InsertOne | zmq-dataupdate/src/DatabaseManager.cpp:75-96 | true exactly when connected and the statement executed |
| Database.EmptyBatchStoresNothing | zmq-dataupdate/src/DatabaseManager.cpp:772-773 | an empty batch stores nothing, so every batch insert returns false for it |
| Database.MarketBatchStores | zmq-dataupdate/src/DatabaseManager.cpp:698-773 | a market batch stores a row exactly when some string has 44 pieces that bind and execute |
| Database.InstrumentRowOfConverter | zmq-dataupdate/src/InstrumentConverter.cpp:55-91 | the converter's 31-text row for an instrument binds to the instrument's own values, chars as one-character texts |
| Database.Quoted | zmq-dataupdate/src/MarketDataConverter.cpp:89-140 | the record with each text field wrapped in single quotes |
| Database.MarketRowKeepsQuotes | zmq-dataupdate/src/DatabaseManager.cpp:698-760 | the converter's row text for a tick binds with the single quotes still around its six text fields |
| Database.QuotedBinds | zmq-dataupdate/src/DatabaseManager.cpp:709-760 | the quoted rendering binds to the quoted record |
| Database.QuotedRendered | zmq-dataupdate/src/MarketDataConverter.cpp:89-140 | quoting keeps the kinds and the plain rendering of the quoted record is the converter's output |
| Database.PositionRowMisplacesTradingDay | zmq-dataupdate/src/DatabaseManager.cpp:538 | binding the converter's position row stores the settlement price's text as the trading day |
| Database.TradingDayParam | zmq-dataupdate/src/DatabaseManager.cpp:538 | the bound TradingDay parameter is text 28 as it is |
| Database.PositionRowInReaderOrder | zmq-dataupdate/src/DatabaseManager.cpp:503-558 | a row in the reader's order binds to the position's own values |
| Subscriber.RouteOf | zmq-dataupdate/src/ZMQSubscriber.cpp:342-386 | each reader is chosen exactly by its tags, compared whole; every other tag is only logged |
| Subscriber.PublishedTypesRouted | zmq-dataupdate/src/ZMQSubscriber.cpp:342-386 | the types the publishers put on their messages reach the matching readers; a tag differing in case or spacing does not |
| Subscriber.TrimmedFields | zmq-dataupdate/src/ZMQSubscriber.cpp:220-231 | one field per getline piece, each trimmed of spaces, tabs and double quotes |
| Subscriber.KeptRow | zmq-dataupdate/src/ZMQSubscriber.cpp:215-235 | a line gives at most one row |
| Subscriber.KeptRows | zmq-dataupdate/src/ZMQSubscriber.cpp:211-236 | at most one row per line read |
| Subscriber.ReadLines | zmq-dataupdate/src/ZMQSubscriber.cpp:211-212 | the reader looks at no more than 1000 lines |
| Subscriber.CsvRows | zmq-dataupdate/src/ZMQSubscriber.cpp:199-236 | nothing for a payload over 10,000,000 bytes; otherwise at most 1000 rows |
| Subscriber.SplitTrimmed | zmq-dataupdate/src/ZMQSubscriber.cpp:220-231 | the inner getline loop gives exactly the trimmed fields, in order |
| Subscriber.ReadCsvRows | zmq-dataupdate/src/ZMQSubscriber.cpp:195-236 | the line loop, counting empty lines too and stopping at 1000, gives exactly the specified rows |
| Subscriber.KeptRowsShape | zmq-dataupdate/src/ZMQSubscriber.cpp:220-233 | every kept row has at least the required fields, none starting or ending with a blank |
| Subscriber.KeptRowsComplete | zmq-dataupdate/src/ZMQSubscriber.cpp:215-235 | every non-empty line read that has enough fields is kept |
| Subscriber.KeptRowsNone | zmq-dataupdate/src/ZMQSubscriber.cpp:215-235 | empty or short lines give no row |
| Subscriber.PositionCsvBatchSkipped | zmq-dataupdate/src/ZMQSubscriber.cpp:413-465 | the position converter's CSV batch gives the position reader no row at all |
| Subscriber.ExecOutcomes | zmq-dataupdate/src/DatabaseManager.cpp:312-317 | one execute outcome per row, as the database answers |
| Subscriber.MarketRows | zmq-dataupdate/src/ZMQSubscriber.cpp:718-741 | one row text per buffered tick, in buffer order |
| Subscriber.FlushStored | zmq-dataupdate/src/ZMQSubscriber.cpp:718-741 | a flush stores no more rows than the buffer holds |
| Subscriber.Flushed | zmq-dataupdate/src/ZMQSubscriber.cpp:703-748 | an empty buffer or a disconnected database changes nothing; otherwise the buffer is cleared and the write time reset whatever the insert answered |
| Subscriber.CsvTick | zmq-dataupdate/src/ZMQSubscriber.cpp:509-563 | a tick is buffered exactly when the payload passes the ticker test and its InstrumentID is not empty |
| Subscriber.TickStored | zmq-dataupdate/src/ZMQSubscriber.cpp:342-355 | a TICK row is stored exactly when its four values read, the database is connected and the insert executes |
| Subscriber.InstrumentBatchStored | zmq-dataupdate/src/DatabaseManager.cpp:225-337 | an instrument batch stores no more rows than it is given |
| Subscriber.InstrumentStored | zmq-dataupdate/src/ZMQSubscriber.cpp:152-193 | an instrument message stores at most one row |
| Subscriber.AccountStored | zmq-dataupdate/src/ZMQSubscriber.cpp:565-654 | at most one account is stored, well-typed and with a non-empty AccountID |
| Subscriber.ZmqSubscriber.constructor | zmq-dataupdate/src/ZMQSubscriber.cpp:13-16 | stopped, with an empty buffer last written now |
| Subscriber.ZmqSubscriber.Start | zmq-dataupdate/src/ZMQSubscriber.cpp:53-81 | no effect when running; otherwise the socket is made if missing, and the subscriber runs exactly when it has one |
| Subscriber.ZmqSubscriber.Flush | zmq-dataupdate/src/ZMQSubscriber.cpp:703-748 | the flush specification over the object's buffer and write time |
| Subscriber.ZmqSubscriber.AddToBuffer | zmq-dataupdate/src/ZMQSubscriber.cpp:656-673 | append, then flush when the buffer holds 1000 or more |
| Subscriber.ZmqSubscriber.TimerStep | zmq-dataupdate/src/ZMQSubscriber.cpp:675-701 | nothing once stopped; otherwise a flush exactly when the timer is due |
| Subscriber.ZmqSubscriber.Stop | zmq-dataupdate/src/ZMQSubscriber.cpp:83-108 | nothing when already stopped; otherwise stop and flush what is left |
| Subscriber.ZmqSubscriber.ProcessTick | zmq-dataupdate/src/ZMQSubscriber.cpp:342-355 | the TICK branch stores the specified row |
| Subscriber.ZmqSubscriber.ProcessCsvInstrument | zmq-dataupdate/src/ZMQSubscriber.cpp:195-247 | the kept rows of at least 30 fields go to the instrument batch, which reconnects first when needed |
| Subscriber.ZmqSubscriber.ProcessProtobufInstrument | zmq-dataupdate/src/ZMQSubscriber.cpp:249-305 | the binary reader yields nothing, so the placeholder row is inserted when connected |
| Subscriber.ZmqSubscriber.ProcessInstrument | zmq-dataupdate/src/ZMQSubscriber.cpp:152-193 | nothing without a connected database or for an empty payload; otherwise the binary path |
| Subscriber.ZmqSubscriber.ProcessCsvPosition | zmq-dataupdate/src/ZMQSubscriber.cpp:413-465 | the kept rows of at least 49 fields go to the position batch |
| Subscriber.ZmqSubscriber.ProcessPosition | zmq-dataupdate/src/ZMQSubscriber.cpp:389-411 | a CSV payload goes to the CSV reader; any other stores nothing |
| Subscriber.ZmqSubscriber.ProcessCsvMarket | zmq-dataupdate/src/ZMQSubscriber.cpp:509-563 | a readable tick with an InstrumentID is buffered; anything else leaves the buffer alone |
| Subscriber.ZmqSubscriber.ProcessProtobufMarket | zmq-dataupdate/src/ZMQSubscriber.cpp:750-833 | a decoded tick is buffered with no InstrumentID test |
| Subscriber.ZmqSubscriber.ProcessAccount | zmq-dataupdate/src/ZMQSubscriber.cpp:565-654 | the account path stores as specified |
| Subscriber.ZmqSubscriber.ProcessMessage | zmq-dataupdate/src/ZMQSubscriber.cpp:307-319 | a custom handler replaces dispatch entirely; otherwise the message is handled by its route |
| Subscriber.AppendBounded | zmq-dataupdate/src/ZMQSubscriber.cpp:656-673 | with the database connected an append leaves fewer than 1000 ticks |
| Subscriber.AppendDisconnected | zmq-dataupdate/src/ZMQSubscriber.cpp:656-673 | with the database disconnected the tick is always kept and the buffer grows without bound |
| Subscriber.HandledBuffer | zmq-dataupdate/src/ZMQSubscriber.cpp:321-387 | any message keeps a connected buffer below 1000; the buffer keeps its ticks with at most one more, or is emptied by a flush |
| Subscriber.OtherRoutesKeepBuffer | zmq-dataupdate/src/ZMQSubscriber.cpp:321-387 | only the two market routes touch the buffer; an unknown tag changes nothing |
| Subscriber.EmptyInstrumentIdPaths | zmq-dataupdate/src/ZMQSubscriber.cpp:541-546 | a CSV tick with an empty InstrumentID is never buffered, a decoded protobuf tick always is |
| Subscriber.FlushStoresEveryTick | zmq-dataupdate/src/ZMQSubscriber.cpp:718-741 | when every row executes the database holds every buffered tick in order, text fields still in single quotes |
| Subscriber.TimerWaits | zmq-dataupdate/src/ZMQSubscriber.cpp:685-695 | the timer never flushes an empty buffer or one written less than 30 seconds ago |
| Subscriber.InstrumentMessageStoresPlaceholder | zmq-dataupdate/src/ZMQSubscriber.cpp:249-305 | every non-empty instrument message to a connected database stores the TEST001 placeholder row, whatever the payload |
| Subscriber.TestInstrumentTexts | zmq-dataupdate/src/ZMQSubscriber.cpp:286-289 | the placeholder has 31 texts, the numeric ones short digit strings |
| Subscriber.TestInstrumentBinds | zmq-dataupdate/src/ZMQSubscriber.cpp:286-289 | the placeholder row binds in full |
| Subscriber.CsvInstrumentUnreachable | zmq-dataupdate/src/ZMQSubscriber.cpp:166-181 | `processInstrumentMessage` never reaches the CSV instrument reader: every non-empty payload passes the protobuf test, and an empty one is only logged |
| Subscriber.AccountStoredAsWritten | zmq-dataupdate/src/ZMQSubscriber.cpp:588-616 | wherever the source's account reader does not read past the end, the account path stores exactly what that reader gives: nothing for an empty AccountID, a disconnected database or a failed insert |
| JsonConfig.Trim | ctp-master/ctprawtick/src/JsonConfig.cpp:81-88 | "" exactly for an all-blank text; otherwise a result with no blank at either end, never longer than the text |
| JsonConfig.TrimIdempotent | ctp-master/ctprawtick/src/JsonConfig.cpp:81-88 | trimming twice is trimming once |
| JsonConfig.TrimWithin | ctp-master/ctprawtick/src/JsonConfig.cpp:81-88 | a trim holds no character its text lacks |
| JsonConfig.Unquote | ctp-master/ctprawtick/src/JsonConfig.cpp:100-103 | one enclosing pair of double quotes is removed when present, otherwise the text is kept |
| JsonConfig.ExtractKey | ctp-master/ctprawtick/src/JsonConfig.cpp:90-105 | "" without a ':'; the key never holds a ':' |
| JsonConfig.DropComma | ctp-master/ctprawtick/src/JsonConfig.cpp:116-119 | one trailing comma is removed when present, otherwise the text is kept |
| JsonConfig.ExtractValue | ctp-master/ctprawtick/src/JsonConfig.cpp:107-127 | "" without a ':' |
| JsonConfig.Step | ctp-master/ctprawtick/src/JsonConfig.cpp:29-58 | a line that stores a pair sets its key to its value; any other line leaves the pairs as they were |
| JsonConfig.Config.constructor | ctp-master/ctprawtick/src/JsonConfig.cpp:10-11 | no file name and no pairs |
| JsonConfig.Config.LoadFile | ctp-master/ctprawtick/src/JsonConfig.cpp:17-62 | the name is recorded; an unopenable file throws FileNotFound with no pairs left; otherwise the pairs are those the lines store |
| JsonConfig.Config.ReadString | ctp-master/ctprawtick/include/JsonConfig.h:84-91 | the stored text unchanged when the key is present, KeyNotFound(key) exactly when it is absent |
| JsonConfig.Config.ReadStringOr | ctp-master/ctprawtick/include/JsonConfig.h:93-100 | the default exactly when the key is absent, the stored text otherwise |
| JsonConfig.Config.Read | ctp-master/ctprawtick/include/JsonConfig.h:57-68 | the stored text read for the type when present, an error exactly when absent |
| JsonConfig.Config.ReadOr | ctp-master/ctprawtick/include/JsonConfig.h:70-75 | the default whenever the key is absent |
| JsonConfig.Config.ReadArray | ctp-master/ctprawtick/src/JsonConfig.cpp:68-71 | the stored text split into trimmed non-empty tokens, KeyNotFound when absent |
| JsonConfig.Config.ReadArrayOr | ctp-master/ctprawtick/src/JsonConfig.cpp:73-78 | the default when the key is absent, the tokens otherwise |
| JsonConfig.Kept | ctp-master/ctprawtick/src/JsonConfig.cpp:143-149 | no more tokens than pieces |
| JsonConfig.SplitString | ctp-master/ctprawtick/src/JsonConfig.cpp:139-152 | the getline loop gives exactly the trimmed non-empty pieces, in order |
| JsonConfig.KeptShape | ctp-master/ctprawtick/src/JsonConfig.cpp:143-149 | every kept token is non-empty, trimmed and free of the delimiter |
| JsonConfig.TokensShape | ctp-master/ctprawtick/src/JsonConfig.cpp:139-152 | every token is non-empty, trimmed and free of the delimiter |
| JsonConfig.SkippedLine | ctp-master/ctprawtick/src/JsonConfig.cpp:32-35 | blank and comment lines change nothing |
| JsonConfig.BraceLines | ctp-master/ctprawtick/src/JsonConfig.cpp:38-47 | a '{' line opens the object and a '}' line closes it; neither stores a pair |
| JsonConfig.OutsideObject | ctp-master/ctprawtick/src/JsonConfig.cpp:50 | outside the object no line stores anything |
| JsonConfig.StoresKeyPrefix | ctp-master/ctprawtick/src/JsonConfig.cpp:29-58 | whether a line stores a key does not depend on the lines after it |
| JsonConfig.OtherLineKeeps | ctp-master/ctprawtick/src/JsonConfig.cpp:50-57 | a line that does not store a key leaves its entry as it was |
| JsonConfig.LastLineStores | ctp-master/ctprawtick/src/JsonConfig.cpp:50-57 | a last line storing a key sets its entry to that line's value |
| JsonConfig.NoLaterStore | ctp-master/ctprawtick/src/JsonConfig.cpp:29-58 | with the last line not storing a key, no line after i stores it |
| JsonConfig.KeyStored | ctp-master/ctprawtick/src/JsonConfig.cpp:17-62 | a key is loaded exactly when some line stored it |
| JsonConfig.LastPairWins | ctp-master/ctprawtick/src/JsonConfig.cpp:50-57 | a loaded key's value is that of the last line storing it: later duplicates overwrite |
| JsonConfig.PairLineRoundTrip | ctp-master/ctprawtick/src/JsonConfig.cpp:90-127 | key and value are read back from a written pair line |
| JsonConfig.PairLineColon | ctp-master/ctprawtick/src/JsonConfig.cpp:91 | the first ':' of a pair line follows the quoted key |
| JsonConfig.PairLineKey | ctp-master/ctprawtick/src/JsonConfig.cpp:90-105 | the key is read back from a pair line |
| JsonConfig.PairLineValue | ctp-master/ctprawtick/src/JsonConfig.cpp:107-127 | the value is read back from a pair line |
| JsonConfig.PairLineStores | ctp-master/ctprawtick/src/JsonConfig.cpp:50-57 | inside the object a pair line with a non-empty key stores its pair |
| JsonConfig.PairLineNoBraces | ctp-master/ctprawtick/src/JsonConfig.cpp:38-47 | a pair line of brace-free text holds no brace |
| JsonConfig.OnePairFile | ctp-master/ctprawtick/src/JsonConfig.cpp:17-62 | a file with one object holding one pair loads to exactly that pair |
| ConfigManager.Assignment | zmq-dataupdate/src/ConfigManager.cpp:23-39 | nothing for an empty line, a '#' in the first column or no '='; otherwise a key without '=' and a value, both trimmed of spaces and tabs |
| ConfigManager.ConfigManager.constructor | zmq-dataupdate/include/ConfigManager.h:13 | names the file and holds no settings |
| ConfigManager.ConfigManager.Default | zmq-dataupdate/include/ConfigManager.h:13 | the default argument names "config.ini"; no settings are held |
| ConfigManager.ConfigManager.LoadConfig | zmq-dataupdate/src/ConfigManager.cpp:13-44 | false with the settings unchanged when the file cannot be opened; otherwise true and every line applied on top of the settings already held |
| ConfigManager.ConfigManager.GetValue | zmq-dataupdate/src/ConfigManager.cpp:46-52 | the stored text whenever the key is present (even when empty), the default only when it is absent |
| ConfigManager.ConfigManager.GetIntValue | zmq-dataupdate/src/ConfigManager.cpp:54-65 | the default when the key is absent, or its text is empty or rejected by stoi; the converted number otherwise |
| ConfigManager.ConfigManager.GetBoolValue | zmq-dataupdate/src/ConfigManager.cpp:67-76 | the default when absent or empty; otherwise whether the lower-cased text is "true", "1" or "yes" |
| ConfigManager.IntSetting | zmq-dataupdate/src/ConfigManager.cpp:56-64 | the default for an empty or unreadable text, the stoi value (a 32-bit int) otherwise |
| ConfigManager.BoolSetting | zmq-dataupdate/src/ConfigManager.cpp:69-75 | the default for an empty text, otherwise membership of the lower-cased text in the true words |
| ConfigManager.ConfigManager.GetZmqAddress | zmq-dataupdate/include/ConfigManager.h:22 | "zmq.address", default "tcp://localhost:8888" |
| ConfigManager.ConfigManager.GetDbHost | zmq-dataupdate/include/ConfigManager.h:23 | "database.host", default "localhost" |
| ConfigManager.ConfigManager.GetDbPort | zmq-dataupdate/include/ConfigManager.h:24 | "database.port" read as a number, default 3306 |
| ConfigManager.ConfigManager.GetDbUser | zmq-dataupdate/include/ConfigManager.h:25 | "database.user", default "root" |
| ConfigManager.ConfigManager.GetDbPassword | zmq-dataupdate/include/ConfigManager.h:26 | "database.password", default empty |
| ConfigManager.ConfigManager.GetDbName | zmq-dataupdate/include/ConfigManager.h:27 | "database.name", default "test" |
| ConfigManager.ConfigManager.GetLogFile | zmq-dataupdate/include/ConfigManager.h:28 | "log.file", default "zmq_subscriber.log" |
| ConfigManager.ConfigManager.GetLogLevel | zmq-dataupdate/include/ConfigManager.h:29 | "log.level" read as a number, default 1 |
| ConfigManager.AssignedLookup | zmq-dataupdate/src/ConfigManager.cpp:21-40 | after loading, a key keeps its old value unless some line assigns it, and then holds the last such line's value |
| ConfigManager.PairRoundTrip | zmq-dataupdate/src/ConfigManager.cpp:27-38 | a line "key=value" with a trimmed key and value is read back as that pair |
| ConfigManager.IndentedCommentAssigns | zmq-dataupdate/src/ConfigManager.cpp:23-38 | a line with blanks before its "#" is not a comment: it assigns its value to a key that starts with "#" |
| ConfigManager.AssignmentSplit | zmq-dataupdate/src/ConfigManager.cpp:27-38 | a line not starting with "#" whose key part holds no "=" splits at its first "=" into both sides trimmed of spaces and tabs |
| ConfigManager.IntSettingRoundTrip | zmq-dataupdate/src/ConfigManager.cpp:54-65 | a number stored in its decimal form reads back as itself |
| ConfigManager.BoolSettingIgnoresCase | zmq-dataupdate/src/ConfigManager.cpp:74-75 | the flag reading ignores letter case |
| Monitor.SessionOnClock | ctp-master/ctprawtick/src/main_monitor.cpp:47-73 | in session from 9:00 to 15:00 and from 21:00 to 2:30 the next day, both ends included |
| Monitor.SessionBoundaries | ctp-master/ctprawtick/src/main_monitor.cpp:63-70 | 15:00 and 2:30 are in session, 15:01, 2:31, 8:59 and 20:59 are not |
| Monitor.Poll | ctp-master/ctprawtick/src/main_monitor.cpp:82-112 | a query exactly when the interval elapsed, connected and in session, the flag cleared then set by the answer; otherwise queries and flag stay; lastQueryTime stays or moves to now, and stays while the interval has not elapsed |
| Monitor.QueryThread.constructor | ctp-master/ctprawtick/src/main_monitor.cpp:79-80 | the thread starts with the last query time at start and nothing asked |
| Monitor.QueryThread.Step | ctp-master/ctprawtick/src/main_monitor.cpp:83-112 | one pass is the polling rule on the thread's state |
| Monitor.QueryThread.Run | ctp-master/ctprawtick/src/main_monitor.cpp:82-116 | the loop's passes are the polling rule applied in turn |
| Monitor.QueryExactlyWhen | ctp-master/ctprawtick/src/main_monitor.cpp:86-94 | a pass adds a query exactly when the interval elapsed, the front is connected and the time is in session, and otherwise adds none |
| Monitor.DisconnectedKeepsTime | ctp-master/ctprawtick/src/main_monitor.cpp:107-111 | disconnected in session, nothing changes, so the query is retried on the next pass |
| Monitor.OutOfSessionMovesTime | ctp-master/ctprawtick/src/main_monitor.cpp:108-110 | out of session with the interval elapsed, lastQueryTime moves to now |
| Monitor.PollSpaced | ctp-master/ctprawtick/src/main_monitor.cpp:86-111 | a pass keeps the queries at least the interval apart |
| Monitor.RoundsSpaced | ctp-master/ctprawtick/src/main_monitor.cpp:82-116 | with a steady clock, queries stay at least 30 s apart for positions and 10 s for the account |
| Monitor.ConnectionMonitor.constructor | ctp-master/ctprawtick/src/main_monitor.cpp:171-179 | the flag starts down |
| Monitor.ConnectionMonitor.Check | ctp-master/ctprawtick/src/main_monitor.cpp:172-179 | with a trader object the flag is raised; it is never lowered |
| Monitor.RaisedMonotone | ctp-master/ctprawtick/src/main_monitor.cpp:171-183 | after a run of checks the flag holds exactly when it held before or some check saw the trader object |
| InstrumentMain.WindowOnClock | ctp-master/ctprawtick/src/main_instrument.cpp:76-91 | advised from 8:30 to 9:00 and from 15:30 to 16:00, both ends included |
| InstrumentMain.Pad2 | ctp-master/ctprawtick/src/main_instrument.cpp:36-37 | at least two digits |
| InstrumentMain.Pad2Value | ctp-master/ctprawtick/src/main_instrument.cpp:36-37 | below 100, exactly two digits that read back as the number |
| InstrumentMain.CounterFilePathInjective | ctp-master/ctprawtick/src/main_instrument.cpp:29-40 | two different dates name two different counter files |
| InstrumentMain.StreamInt | ctp-master/ctprawtick/src/main_instrument.cpp:49-50 | the number read when there is one, 0 when extraction fails, the int limits on overflow |
| InstrumentMain.RunCount | ctp-master/ctprawtick/src/main_instrument.cpp:42-53 | 0 when the counter file cannot be opened, its number otherwise |
| InstrumentMain.RunCountRoundTrip | ctp-master/ctprawtick/src/main_instrument.cpp:55-62 | a count the launcher wrote reads back as itself |
| InstrumentMain.WrittenCountReads | ctp-master/ctprawtick/src/main_instrument.cpp:42-62 | a counter file holding the count the launcher wrote reads back as that count |
| InstrumentMain.Decide | ctp-master/ctprawtick/src/main_instrument.cpp:125-138 | the run goes ahead exactly when the count is below 2; the window is only reported |
| InstrumentMain.WindowOnlyAdvises | ctp-master/ctprawtick/src/main_instrument.cpp:134-138 | the time of day never changes whether the run goes ahead |
| InstrumentMain.CounterFiles.constructor | ctp-master/ctprawtick/src/main_instrument.cpp:42-62 | the files the launcher sees |
| InstrumentMain.CounterFiles.Counter | ctp-master/ctprawtick/src/main_instrument.cpp:44-47 | the counter text exactly when the file exists |
| InstrumentMain.CounterFiles.LaunchQuery | ctp-master/ctprawtick/src/main_instrument.cpp:125-168 | a count of 2 or more exits 0 writing nothing; otherwise count + 1 is written before the query, which runs exactly when the interface is created, else -1 |
| InstrumentMain.CounterFiles.CountedLaunch | ctp-master/ctprawtick/src/main_instrument.cpp:55-141 | a launch whose counter write succeeds goes ahead exactly when the count read is below 2 and then leaves a counter reading one more; otherwise the counter is unchanged; it queries only when it went ahead |
| InstrumentMain.CounterFiles.Launches | ctp-master/ctprawtick/src/main_instrument.cpp:125-168 | launches run one after the other on one date go ahead QueriesFrom(count read before the first) times; no more queries than go-aheads |
| InstrumentMain.CounterFiles.LaunchDay | ctp-master/ctprawtick/src/main_instrument.cpp:125-168 | with every counter write succeeding, a day of launches that starts without a counter file has at most two go-aheads, two once there are two launches, and no more queries than go-aheads |
| InstrumentMain.QueriesFrom | ctp-master/ctprawtick/src/main_instrument.cpp:125-141 | n launches whose counter writes succeed make at most n go-aheads |
| InstrumentMain.QueriesAfterCount | ctp-master/ctprawtick/src/main_instrument.cpp:125-141 | from a counter reading k, at most 2 - k more queries run that day |
| InstrumentMain.QueriesFromClosed | ctp-master/ctprawtick/src/main_instrument.cpp:125-141 | from a count c below 2, min(n, 2 - c) of n launches go ahead; from 2 or more, none |
| InstrumentMain.AtMostTwoQueriesADay | ctp-master/ctprawtick/src/main_instrument.cpp:125-141 | counting go-aheads (launches that pass the count check, whether or not the interface is then created) and assuming every counter write succeeds: a day starting without a counter file sees at most two, exactly two once it has two launches |
| WebApp.Backoff | web-interface/websocket_app.py:76-85 | after a database error the pause is 500 ms times the attempt number plus one; after any other error 500 ms |
| WebApp.RetryAfterFailures | web-interface/websocket_app.py:68-85 | the outcome of the whole retry loop is that of the attempts after n failures, with the first n pauses in front |
| WebApp.ExecuteQuery | web-interface/websocket_app.py:66-87 | the for loop over the attempts gives the specified result and pauses |
| WebApp.RetryResult | web-interface/websocket_app.py:66-87 | rows come back exactly when one of the three attempts succeeds, and they are those of the first success |
| WebApp.RetryPauses | web-interface/websocket_app.py:76-85 | no pause after the last attempt; each pause follows a failed attempt and has that failure's length |
| WebApp.ThreeDbErrors | web-interface/websocket_app.py:66-87 | three database errors give None after pauses of 500 and 1000 ms |
| WebApp.FloorDiv | web-interface/websocket_app.py:186 | Python's floor division: the quotient rounds toward minus infinity |
| WebApp.Paginate | web-interface/websocket_app.py:165-187 | a total of 0 when the count query fails; offset (page - 1) * per_page; an error exactly when per_page is 0 |
| WebApp.PagesCeiling | web-interface/websocket_app.py:186 | pages is the ceiling of total / per_page: none exactly for an empty table, and the last page holds the last row |
| WebApp.RowOnPage | web-interface/websocket_app.py:168-186 | every row lies on exactly one page between 1 and pages, within that page's offsets |
| WebApp.BatchIndices | web-interface/websocket_app.py:872-883 | every index sent is a valid position in the list |
| WebApp.NextOffset | web-interface/websocket_app.py:886 | the next offset is always a valid position, 0 ≤ offset < total |
| WebApp.BatchNotEmpty | web-interface/websocket_app.py:872-883 | a round over a non-empty list sends something |
| WebApp.LargeBatch | web-interface/websocket_app.py:872-881 | over more than 30 instruments a round sends exactly 30 distinct ones, wrapping to the head of the list |
| WebApp.LargeBatchCovers | web-interface/websocket_app.py:872-881 | an instrument is sent exactly when it lies in the 30 positions from the start, counted round the end |
| WebApp.SmallBatch | web-interface/websocket_app.py:873-883 | with 30 or fewer, a round sends the tail of the list from the start position, which can be fewer than all |
| WebApp.SmallListPartialRound | web-interface/websocket_app.py:872-886 | with 20 instruments, the first round sends all 20 and the second only the last 10 |
| WebApp.Ids | web-interface/websocket_app.py:719 | the instrument ids of the latest ticks, in order |
| WebApp.Upsert | web-interface/websocket_app.py:719 | one entry per instrument: an update keeps the order and replaces only that instrument's tick; a new instrument is appended |
| WebApp.MarketFeed.constructor | web-interface/websocket_app.py:851-857 | no subscribers, no ticks, offset 0 |
| WebApp.MarketFeed.Subscribe | web-interface/websocket_app.py:779 | the sid is added; nothing else changes |
| WebApp.MarketFeed.Discard | web-interface/websocket_app.py:756 | the sid is removed; nothing else changes |
| WebApp.MarketFeed.StoreTick | web-interface/websocket_app.py:719 | the latest ticks are upserted with the new one |
| WebApp.MarketFeed.Round | web-interface/websocket_app.py:857-900 | nothing without ticks or subscribers; otherwise the offset advances by 30 around the list and the emit log gains the latest tick of each batch position, in batch order, each with the clients still subscribed after that emit; a client is dropped at the first emit that fails for it, whichever tick that is, and the count is the emits that went through |
| WebApp.MarketFeed.EmitToAll | web-interface/websocket_app.py:888-895 | the tick is logged as sent to exactly the subscribers whose emit goes through, and those whose emit fails are removed |
| WebApp.MarketFeed.EmitBatch | web-interface/websocket_app.py:887-895 | each tick of the batch in turn goes to the clients still subscribed, losing those whose emit of it fails; the log and count are those of Sent and EmitCount |
| WebApp.RoundCovers | web-interface/websocket_app.py:872-895 | with more than 30 ticks a client still subscribed at the end of a round received in it the latest tick of each instrument fewer than 30 places on from the start, going round the list |
| WebApp.Live | web-interface/websocket_app.py:887-895 | the clients left after k ticks are among those at the start and none of them failed an emit of those ticks |
| WebApp.LiveShrinks | web-interface/websocket_app.py:887-895 | the set of subscribers only shrinks as a round goes on |
| WebApp.LiveExactly | web-interface/websocket_app.py:887-895 | a client is still subscribed after k ticks exactly when it started subscribed and none of its first k emits failed |
| WebApp.LiveNoFailure | web-interface/websocket_app.py:887-895 | when no emit fails nobody is discarded |
| WebApp.EmitCountBound | web-interface/websocket_app.py:887-895 | at most one emit per tick per starting subscriber goes through, exactly that many when none fails |
| WebApp.FailedGetsNoMore | web-interface/websocket_app.py:887-895 | a client whose emit of a tick fails receives none of that tick and the later ones of the round |
| WebApp.DiscardIdempotent | web-interface/websocket_app.py:825 | discarding twice is discarding once, and leaves the sid out |
| Numbers.Stoi | zmq-dataupdate/src/InvestorPositionConverter.cpp:178-185 | a result is always a 32-bit int; a text without a digit after white space and one sign is rejected as invalid_argument |
| Numbers.StoiRoundTrip | zmq-dataupdate/src/InvestorPositionConverter.cpp:178-185 | std::stoi reads back every int that std::to_string wrote |
| Numbers.StoiPrefix | zmq-dataupdate/src/InvestorPositionConverter.cpp:178-185 | the same when text that does not start with a digit follows the number |
| Numbers.Stod | zmq-dataupdate/src/InvestorPositionConverter.cpp:182-199 | accepted exactly when strtod finds a number at the start (digits, a '.' and a digit, inf, nan), and rejected as invalid_argument otherwise |
| Numbers.SafeInt | zmq-dataupdate/src/MarketDataConverter.cpp:165-174 | 0 for the empty text and for every text std::stoi rejects, std::stoi's value otherwise |
| Numbers.SafeIntRoundTrip | zmq-dataupdate/src/MarketDataConverter.cpp:165-174 | the safe conversion reads back every int written out |
| Numbers.SafeReal | zmq-dataupdate/src/MarketDataConverter.cpp:154-163 | "", "nan", "inf", "-inf" and texts std::stod rejects give zero; every other text is read as it stands |
| Numbers.ShortNumberAccepted | zmq-dataupdate/src/MarketDataConverter.cpp:154-174 | a text of at most nine characters that starts with a digit is accepted by both std::stoi and std::stod |
| Text.Split | zmq-dataupdate/src/MarketDataConverter.cpp:142-152 | the getline tokens: the empty text gives none, and no token holds the delimiter |
| Text.SplitTokens | zmq-dataupdate/src/MarketDataConverter.cpp:142-152 | the getline loop with push_back yields exactly those tokens |
| Text.SplitJoin | zmq-dataupdate/src/MarketDataConverter.cpp:142-152 | splitting undoes joining with the delimiter when no part holds it and the last part is not empty |
| Text.SplitTerminated | zmq-dataupdate/src/InvestorPositionConverter.cpp:60-68 | splitting at line breaks undoes writing each line followed by a line break |
| Text.Find | zmq-dataupdate/src/MarketDataConverter.cpp:21 | std::string::find: the first position where the pattern occurs, or none when it occurs nowhere |
| Text.FindChar | zmq-dataupdate/src/ConfigManager.cpp:27 | the first position of the character; none exactly when it does not occur |
| Fields.ParseStrict | zmq-dataupdate/src/InvestorPositionConverter.cpp:172-205 | a field read without a try: text as it is, a char from the first character or '\0', std::stoi, std::stod, "1" for true; a failure exactly where the conversion throws |
| Fields.ParseSafe | zmq-dataupdate/src/MarketDataConverter.cpp:154-174 | a field read with the safe conversions never fails and has its kind |
| Fields.DecodeEncode | zmq-dataupdate/src/InvestorPositionConverter.cpp:7-60 | a record written in field order and read back with getline and the strict conversions is the record itself |
| Fields.DecodeSafeEncode | zmq-dataupdate/src/MarketDataConverter.cpp:154-174 | the same with the safe conversions, unless a real is one of the texts they map to zero |
| Fields.SplitRendered | zmq-dataupdate/src/InvestorPositionConverter.cpp:7-60 | splitting a written line at commas gives back the written fields, in any field order, quoted or not |
| Fields.SafeAgreesWithStrict | zmq-dataupdate/src/MarketDataConverter.cpp:154-174 | the safe conversions agree with the strict ones wherever the strict ones succeed, except on the special reals |
| LineCodec.ReadLines | zmq-dataupdate/src/InvestorPositionConverter.cpp:150-233 | the getline loop over the text yields the records of the lines in order, or the first conversion failure |
| LineCodec.ParseLine | zmq-dataupdate/src/InvestorPositionConverter.cpp:157-170 | an empty line or one with too few fields yields nothing |
| LineCodec.ShortLineSkipped | zmq-dataupdate/src/InvestorPositionConverter.cpp:157-170 | an empty line or one with too few fields is skipped, not an error |
| LineCodec.LineFields | zmq-dataupdate/src/InvestorPositionConverter.cpp:166-205 | a long enough line yields a record exactly when every field converts, each field being its text's conversion |
| LineCodec.ParseLinesOk | zmq-dataupdate/src/InvestorPositionConverter.cpp:150-233 | the read fails exactly when some line's conversion fails |
| LineCodec.BatchRoundTrip | zmq-dataupdate/src/InvestorPositionConverter.cpp:150-233 | a batch written one line per record in field order reads back as the batch |
| LineCodec.LineUnbroken | zmq-dataupdate/src/InvestorPositionConverter.cpp:7-60 | a written line holds no line break |

## Left out

- Threads, mutexes, condition variables and atomics. Each thread is a sequence of loop iterations or callback steps in one order. The lock-free `ReaderWriterQueue` is a bounded sequence whose capacity is exactly its constructor argument; the library only promises room for at least that many elements, and `try_enqueue` fails only when its allocated block is full.
- Wall-clock and steady-clock readings, `localtime`, `mktime`, `strftime` and the timestamps the programs generate. They are integer or text parameters. `RawQuote.ExitTime` counts seconds from the start of the local day and does not model `mktime`'s normalisation across daylight-saving changes.
- Sleep durations. Only where a sleep happens is modelled, not how long it lasts.
- ZMQ sockets and contexts. They are reduced to whether they exist. What is sent is recorded as frames, and every library outcome (an exception, a send the socket does not queue) is an input.
- The MySQL driver. Connecting, executing a row and committing are inputs. SQL text and prepared-statement plumbing are not modelled; only which texts are bound to which parameter is.
- Protobuf generated code. Encoding and decoding are inputs: an encoded text, or the decoded message a reader receives.
- ProtobufConverter.MarketField: `safeDouble`'s test for NaN or infinity is the input `notFinite`, because doubles are not modelled.
- LegacyQuote.Quoted: the comparison of a price with 1000000.0 is the input `tooHigh`.
- Numbers.Stod: a magnitude too large for a `double` (`out_of_range`) is not modelled. Every text `strtod` accepts is taken as read.
- Fields.Render: `std::fixed`/`setprecision(4)` and `std::to_string` on doubles are not modelled. A real is written as the text it carries.
- File reads in `LoadFile` and `loadConfig`, and the counter file of the instrument launcher. The file's lines, or its absence, are inputs, and writing the counter is a map update.
- Logging, console output and standard error. Where the source only logs, the model records nothing, except that a line sent to standard error is returned as lost.
- The vendor CTP API: request construction, front connect and disconnect, and the log-only callbacks. The struct sizes from the vendor header are a parameter of `ProtobufConverter.FromMessage`.
- Redis pub/sub, Flask routes and Socket.IO. Only the retry loop, page arithmetic, latest-tick map, subscriber set and batch rotation of the web interface are modelled. Which clients' emits of which tick of a round raise is an input.
- The browser scripts, the test-data generators, `market_bridge.py`, `protobuf_parser.py`, `utils.cpp`, `appConfig`, `Logger`, and the process bootstrap files `zmq-dataupdate/src/main.cpp`, `zmq-dataupdate/src/main_market.cpp` and `ctp-master/ctprawtick/src/main.cpp` are not part of this model.
- The overflow drains of both distribution loops have no way out while a tick keeps failing. They are given a finite list of send outcomes. When the list runs out with a failing tick at the head, the pass is reported as stuck (see `MarketMain.DrainLivelock` and `LegacyMain.LDrainLivelock`) rather than looping.
- A custom message handler of the subscriber is represented only by whether one is set. What it does with a message is not modelled.
- Stream extractions with `>>`. The TICK route's `iss >> symbol >> price >> volume >> timestamp` is the input `tickRead` of `Subscriber.TickStored` and `Subscriber.ZmqSubscriber.ProcessTick`, and `JsonConfig::Read<T>`'s `iss >> value` is the input `extract` of `JsonConfig.Config.Read` and `JsonConfig.Config.ReadOr`. What a failed or partial extraction gives (0 for a number, only "0"/"1" for a bool, only the first word for a string) is therefore not modelled.
- Subscriber.AccountStored: the account path reads with the corrected `AccountConverter.ParseCSV`. On payloads of 46 to 49 fields the source's reader reads past the end (undefined behaviour), and there the model stores the corrected record. On every other payload `Subscriber.AccountStoredAsWritten` shows the two agree.
- Subscriber.ZmqSubscriber.ProcessAccount: the same substitution as `Subscriber.AccountStored`, whose result it returns.
- InstrumentMain.CounterFiles.LaunchDay: the two-a-day bound assumes every counter write succeeds. With a write that fails, `updateRunCount` ignores the failure and every launch goes ahead (see `InstrumentMain.CounterFiles.LaunchQuery`). The bound counts go-aheads, including runs whose interface creation fails and exit with -1.

## Findings

| source | as written | input that shows it | evidently intended | confidence | as-written member | corrected member |
|---|---|---|---|---|---|---|
| zmq-dataupdate/src/TradingAccountConverter.cpp:21-84 | the guards count fields as if the tag were not field 0: 46 fields pass the size test and `fields[46]` is read, and the optional tail is guarded by more than 46/47/48 fields but read from 47/48/49 | a line with the tag and the 46 mandatory values (47 fields) reads `fields[47]`, one past the end | at least 47 fields for the mandatory values, and each optional field read only when its index exists | not executed | AccountConverter.AsWrittenReadsPastEnd | AccountConverter.ParseCSV |
| zmq-dataupdate/src/DatabaseManager.cpp:274-311 | rows with fewer than 30 texts are skipped, but texts 0..30 are read | a 30-text row whose texts convert reads text 30, one past the end | skip rows with fewer than 31 texts | not executed | Database.InstrumentRowReadsPastEnd | Database.InstrumentRow |
| zmq-dataupdate/src/InvestorPositionConverter.cpp:7-59 | the CSV writer emits 47 fields (no PositionDate, no YdPosition) while the reader needs 49 | any batch of positions written by `convertBatchToCSV` reads back as no position at all | the writer emits all 49 fields in the reader's order | not executed | PositionConverter.CSVBatchReadsNothing | PositionConverter.CSVFullRoundTrip |
| zmq-dataupdate/src/DatabaseManager.cpp:538 | the position insert binds TradingDay from text 28, but `convertToDatabaseFormat` puts TradingDay at text 8 and SettlementPrice at 28 | any position row from `convertToDatabaseFormat` stores its settlement price as the trading day | the row and the insert agree on one order | not executed | Database.PositionRowMisplacesTradingDay | Database.PositionRowInReaderOrder |
