# Distributed Logger: a verified model of the event path

Distributed Logger turns a C++ header of event functions into client encoders, server decoders and storage code, and moves
the logged events over TCP to a server that batches them into MongoDB or ClickHouse. This project models that path from the
schema to the stored rows and proves that its stages fit together, for every schema, every sequence of log calls, every way
the network cuts writes and reads, and every schedule of the ingester's workers.

`dafny verify dfyconfig.toml` checks everything. The modules, in the order an event meets them:

| module | what it models |
|---|---|
| `Bytes`, `Sequences` | fixed-width big-endian numbers; facts about sequences |
| `Schema`, `CodeGen` | the function list, and both generators as loops that emit small programs instead of text |
| `WireCodec` | the payload format: `encode` in C++ and the Go decoding primitives |
| `PosixBuffers`, `ClientRuntime` | the bounded buffer, and running a generated client function on it |
| `PosixQueue`, `PosixCalls`, `PosixIOs` | the transmit queue as a state machine, what each call does said of its arguments, and the class that implements it on buffers and a socket |
| `Loggers` | a generated client function, from its arguments to `send` |
| `SeastarIOs`, `SeastarProgress`, `SeastarDelivery` | the asynchronous transmit loop, one step per continuation, what it does with each frame, and what the server reads from it |
| `Frames`, `Listener` | the pure length-prefix parser, and the resumable reader of one connection |
| `Ingester` | the bounded channel and its workers: an imperative worker, and all workers under every interleaving |
| `EventDecoder`, `Storage` | running the generated decoders, both `Flush` methods and the filters of the ClickHouse views |
| `ClickHouse` | the database: running the generated migrations, and inserting rows through the views |
| `Compiler` | encoder and decoder generated from one schema, put together |
| `Pipeline`, `Delivery`, `Emptying` | clients, connections, handlers and ingester as one system, what it delivers, and that it can always deliver the rest |

The main results:

* **Delivery.** `Delivery.EventsConserved`: in every reachable state of the whole system the accepted events are, as a
  multiset, those handed to the storage or in a batch, those in the channel, those a handler holds, those that the bytes in
  readers, on wires and in client queues spell, and those stranded on a closed connection. `Delivery.NoEventLost`: none is
  stranded when no read fails and no event is too short for the listener. `Emptying.CanAlwaysFinish`: from every such state
  with a worker left, some further steps hand every accepted event to the storage. `Pipeline.EveryConnectionFaithful` says
  it byte for byte and in order for each connection; `Delivery.EveryConnectionInOrder` keeps each connection's order up to
  the storage when there is one worker, and `Delivery.EventsInOrder` the order of all events when there is one connection
  too; `Delivery.BatchesKept` shows that neither backend filters out anything of what it is handed.
* **Schema compiler.** `Compiler.EncodeAndDecode` runs both generators on one header, then the generated client function,
  then the generated switch and decoder of both servers: they return the event's struct exactly when all strings are shorter
  than 65536 bytes and the frame's size fits a C++ `int`. `Compiler.LogAndStore` does it for a list of events through both
  `Flush` methods and a database on which the generated migrations ran: documents and raw rows are the events, in order, and
  the table named after each event holds exactly its tuples.
* **Exact fit.** `ClientRuntime.ExactFitIff`: the generated `total_length` is what gets encoded, exactly when no parameter has
  another type than `uint64_t` or `string` and the size fits a C++ `int`.
* **Wire conservation, accounting, quota, drain bound** of the POSIX queue, over all runs of calls and partial writes, with
  reconnects only at frame boundaries (`PosixQueue`). `PosixCalls.ConnectionsOpened` says exactly when a call opens a
  connection, `PosixCalls.DrainExact` exactly how far a write opportunity gets.
* **Chunk independence** of the listener and unique parsability of its frames (`Listener`, `Frames`).
* **Worker order, conservation and a backlog bound** of the ingester (`Ingester`). `Ingester.WorkerMain` returns exactly on a
  closed channel or a failed tick flush, and its inputs alone say what every call of `Flush` gets.
* **Seastar**: posting order and byte accounting in every interleaving; at most one outstanding write, exactly as long as no
  reconnect completes while a failed loop has not finished (`SeastarIOs.ReconnectSafeIff`); and on all those runs, whatever
  part of a frame a failed write leaves on the wire, the server takes from each connection the first frames started on it, in
  order and unchanged (`SeastarDelivery.EveryStreamFaithful`). `SeastarProgress.EmptiesIff`: what is queued can go out without
  another `send` exactly when the loop has not stopped.
* **Storage**: when both backends agree, and what the typed ClickHouse tables hold (`Storage`).

Some promises hold only under a condition. The code was kept as it is, and the exact condition is proved:

* `written` in `onWriteOpportunity` is a `size_t` (client/posix_io/PosixIO.cc:217), so the test for -1 in line 226 is never
  reached. A failed write moves the read offset back by one and empties the size counter. `PosixQueue.FailedWriteIff`: one
  pass keeps the accounting if and only if its write did not fail; `PosixQueue.DrainKeepsIff` says the same of a whole call
  and the writes it makes, and `PosixQueue.FailedWriteReachable` breaks it with one queued frame.
* A string's length is cut to 16 bits while all its bytes are sent (client/api/LogAPIs.hh:25-27). `WireCodec.RoundTripIff`,
  and `WireCodec.LongStringLost` with a string that comes back empty.
* The listener ends a connection at a body of 1 to 12 bytes (server/listener/listener.go:51-56). `Compiler.ShortBodyIff`
  says which events have one, `Delivery.ClosedByShortEvent` that the first of them strands all later events of its
  connection, and `Delivery.ClosedIffShortRead` that this and a failed read always close a handler, and nothing else does.
* `total_length` is a C++ `int` (tools/code_gen.py:316), and a parameter that is neither `uint64_t` nor `string` is encoded
  but not counted in it (tools/code_gen.py:326-329). `ClientRuntime.ExactFitIff` has both conditions;
  `ClientRuntime.TotalOverflows` gives a string that makes the size negative and one that is cut off entirely,
  `ClientRuntime.ThirdTypeUncounted` a field that gets no room.
* MongoDB gives up a batch at a packet without an event number, ClickHouse skips the packet (tools/code_gen.py:149-152 and
  249-251). `Storage.BackendsAgreeIff`, and `Storage.FlushBoth` for the two methods run on one batch;
  `Storage.EmptyPacketSplits` is a batch on which they differ. The listener lets no such packet through.
* A Seastar frame posted between the loop's stop check and its `finally` is not written until the next `send`
  (client/seastar_io/SeastarIO.cc:107-137). `SeastarProgress.EmptiesIff` has the exact condition.
* The name of a client function is put together from a function and an event name (tools/code_gen.py:332).
  `ClientRuntime.ClientNames`: one function name never gives the same name twice; `ClientRuntime.ClientNamesMeet`: two can.
* A Seastar reconnect that completes before the failed loop's `finally` has run starts a second writer
  (client/seastar_io/SeastarIO.cc:107-137). `SeastarIOs.OverlapFromIdle` gives the steps from a fresh client.

Where the documentation says something else, the model follows the code: docs/storage.md:167 speaks of a flush interval of
10 ms, the ticker runs every 100 s (server/ingester/ingester.go:16); docs/architecture.md:263 promises no event loss in
blocking mode, while a failed flush, a read error and a short body lose events. tests/test_code_gen.py expects functions
with one parameter to be skipped; the generators keep every function with at least one (tools/code_gen.py:35,
tools/code_gen.py:303).

## Model

| member | source | states |
|---|---|---|
| `Schema.ValidPositions` | tools/code_gen.py:34-35 | the positions of the functions with at least one parameter, all of them, in increasing order |
| `Schema.ValidInOrder` | tools/code_gen.py:34-35 | the kept functions are those at these positions, in that order and each once: this is the numbering of events on both sides |
| `Schema.DistinctEventNames` | tools/code_gen.py:37-47 | in a schema whose generated Go constants are distinct, two events with one name are the same event |
| `Schema.CapitalExports` | tools/code_gen.py:43 | a generated Go name is exported exactly when the parameter name starts with an ASCII letter; nothing but the first letter changes |
| `CodeGen.CppCodeGen.GenerateCode` | tools/code_gen.py:299-346 | the loop over the schema emits one enumerator and one client function per valid function, in schema order |
| `CodeGen.CppCodeGen.SizeComputation` | tools/code_gen.py:315-329 | the first parameter adds 8 and leaves the signature; each other one adds 8, its size plus 2, or nothing |
| `CodeGen.CppCodeGen.EncodeCalls` | tools/code_gen.py:336-340 | the event's enumerator is encoded first, then every other parameter in order |
| `CodeGen.GoCodeGen.GenerateCode` | tools/code_gen.py:33-236 | constants, structs, decoders, ClickHouse cases and migrations come from the same list of valid functions, in the same order |
| `CodeGen.GoCodeGen.Structures` | tools/code_gen.py:51-65 | one struct per valid function, in schema order |
| `CodeGen.GoCodeGen.StructFields` | tools/code_gen.py:56-63 | one capitalised field per parameter, the event number included, with its type |
| `CodeGen.GoCodeGen.EnumConstants` | tools/code_gen.py:37-47 | capitalised event names in schema order, closed by `EventMax` |
| `CodeGen.GoCodeGen.Decoders` | tools/code_gen.py:79-133 | one decoder per valid function, in schema order |
| `CodeGen.GoCodeGen.Decoder` | tools/code_gen.py:80-131 | sets the event variable to its constant, reads every other parameter by its type, returns all of them by field name |
| `CodeGen.GoCodeGen.ClickHouseCases` | tools/code_gen.py:155-178 | one case per valid function with the fields of its JSON payload |
| `CodeGen.GoCodeGen.PayloadFields` | tools/code_gen.py:167-171 | every field but the event number, capitalised, in order |
| `CodeGen.GoCodeGen.Migrations` | tools/code_gen.py:195-231 | per valid function, in schema order, a typed table and a view named after its event, and the view fills that table from the raw table |
| `CodeGen.GoCodeGen.MigrationColumns` | tools/code_gen.py:199-221 | per field, by type, one table column and one JSON extraction of the same name, with text as the fallback |
| `CodeGen.GoCodeGen.GetStorageDefinitionsCode` | tools/code_gen.py:241-279 | the Mongo switch has one case per valid function, in the same order |
| `Bytes.DecodeEncode` | client/api/LogAPIs.hh:20 | big-endian numbers of any width come back from their bytes |
| `Bytes.EncodeDecode` | server/decoder/decoder.go:31-32 | and every byte string of that width is the encoding of the number read from it |
| `Bytes.BigEndianAt` | client/api/LogAPIs.hh:20 | byte i of a number of width w is its digit of weight 256 to the power w - 1 - i: the most significant byte comes first |
| `Bytes.FromBigEndianFirst` | server/decoder/decoder.go:32 | the first byte read is the most significant one, whatever follows |
| `Bytes.NetworkShort` | client/api/LogAPIs.hh:25 | `htons` puts the quotient by 256 first and the remainder second |
| `Bytes.NetworkLong` | client/posix_io/PosixIO.cc:170 | `htonl` puts the four base-256 digits in falling order |
| `Bytes.NetworkQuad` | client/api/LogAPIs.hh:20 | byte i that `htobe64` leaves in memory is the digit of weight 256 to the power 7 - i |
| `WireCodec.DecodeUint16` | server/decoder/decoder.go:11-23 | succeeds exactly on two bytes or more, and returns the number those two bytes encode |
| `WireCodec.DecodeUint64` | server/decoder/decoder.go:25-38 | succeeds exactly on eight bytes or more, and returns the number those eight bytes encode |
| `WireCodec.DecodeString` | server/decoder/decoder.go:40-57 | succeeds exactly when the packet holds two bytes of length and as many bytes behind them; says which part is missing; re-encodes to exactly the bytes consumed |
| `WireCodec.DecodeField` | tools/code_gen.py:109-118 | succeeds exactly when the packet holds a value of the field's kind; the value re-encodes to exactly the bytes consumed |
| `WireCodec.DecodeFieldsEncode` | tools/code_gen.py:92-122 | for every field list, decoding an encoded payload gives back the values and leaves later bytes alone |
| `WireCodec.DecodeFieldsCanonical` | tools/code_gen.py:92-122 | re-encoding a successful result gives exactly the consumed prefix |
| `WireCodec.StrictPrefixRejected` | server/decoder/decoder.go:14-53 | every strict prefix of an encoded payload is rejected |
| `WireCodec.RoundTripIff` | client/api/LogAPIs.hh:19-29 | a payload comes back exactly when all its strings are shorter than 65536 bytes |
| `WireCodec.LongStringLost` | client/api/LogAPIs.hh:25-27 | a string of 65536 bytes comes back empty, with its bytes left over |
| `PosixBuffers.FillBytes` | client/posix_buffer/PosixBuffer.cc:36-43 | a clamped write puts as much of the source as fits at the offset, is cut only at the end of the buffer, and leaves every other byte alone |
| `PosixBuffers.FillTwice` | client/posix_buffer/PosixBuffer.cc:36-43 | two clamped writes in a row are one clamped write of both sources |
| `PosixBuffers.PosixBuffer.constructor` | client/posix_buffer/PosixBuffer.cc:8-13 | a new buffer is zeroed, with both offsets at 0 |
| `PosixBuffers.PosixBuffer.WriteData` | client/posix_buffer/PosixBuffer.cc:36-43 | writes what fits at the write offset and advances it by that much |
| `PosixBuffers.PosixBuffer.ReadData` | client/posix_buffer/PosixBuffer.cc:19-26 | returns the next bytes and advances the read offset by as many |
| `ClientRuntime.Encode` | client/api/LogAPIs.hh:19-29 | both overloads put the canonical encoding at the write offset, cut to the room there is |
| `ClientRuntime.ComputeTotal` | tools/code_gen.py:316-333 | the generated size statements, each storing its sum in an `int`, leave there 4 plus what each parameter contributes, wrapped to 32 bits |
| `ClientRuntime.EncodeAll` | tools/code_gen.py:336-340 | the encode calls fill the buffer with the concatenated encodings, clamped once at the end |
| `ClientRuntime.RunApi` | tools/code_gen.py:331-342 | a client function has a buffer if and only if the wrapped size is at least 4; it leaves 4 bytes free, then the clamped encoding of its calls |
| `ClientRuntime.WellFormedResolves` | tools/code_gen.py:303-341 | a schema whose Go side compiles has distinct C++ enumerators and parameter names, and only fields of the two known types |
| `ClientRuntime.ApiResolves` | tools/code_gen.py:312-341 | every name in a generated client function resolves, and its calls encode the event number and the arguments |
| `ClientRuntime.ClientNames` | tools/code_gen.py:314-332 | client functions made of one function name are named apart by their events |
| `ClientRuntime.ClientNamesMeet` | tools/code_gen.py:314-332 | two function names can give one client function name in a schema that the Go compiler takes |
| `ClientRuntime.ExactFitIff` | tools/code_gen.py:316-341 | `total_length`, an `int`, equals 4 plus all encoded bytes if and only if no field has a third type and that number is below 2^31 |
| `ClientRuntime.TotalOverflows` | tools/code_gen.py:316-329 | in a schema that compiles, a string of 2^31 bytes makes the size negative, and one of 2^32 bytes makes it 14 |
| `ClientRuntime.ThirdTypeUncounted` | tools/code_gen.py:326-329 | a `bool` field leaves a size of 12 for 20 bytes |
| `ClientRuntime.LogCall` | tools/code_gen.py:331-342 | if the frame's size fits an `int`, no write is clamped: the final write offset is the capacity, and bytes 4 on are the canonical encoding of the event; otherwise the wrapped size gives no buffer or a prefix of it |
| `EventDecoder.GeneratedCompiles` | tools/code_gen.py:80-131 | constants in a generated decoder resolve and its struct mentions declared variables only |
| `EventDecoder.OwnStruct` | tools/code_gen.py:52-54 | the struct type a decoder names is declared for its own event and for no other |
| `EventDecoder.RecordFitsStruct` | tools/code_gen.py:125-130 | a decoded struct has exactly the fields the generated Go struct declares, in that order in the literal, each of its kind |
| `EventDecoder.RunDecoder` | tools/code_gen.py:89-131 | the decoder, run statement by statement at its running offset, computes the specified outcome |
| `EventDecoder.VariablesHoldFields` | tools/code_gen.py:92-122 | the named variables hold what the field list decodes to, from any statement on |
| `EventDecoder.DecoderMeaning` | tools/code_gen.py:79-133 | a generated decoder rejects exactly the undecodable payloads, and otherwise returns the struct of the decoded fields |
| `Storage.KnownIsEvent` | tools/code_gen.py:153-164 | a packet taken for an event has that event's fields |
| `Storage.SwitchFindsEvent` | tools/code_gen.py:153-164 | the first matching case of the generated switch is the event with that number, or none |
| `Storage.FindsOwnDecoder` | tools/code_gen.py:158-161 | each case calls the decoder generated for its own event |
| `Storage.Dispatch` | tools/code_gen.py:148-164 | one turn of the switch, run on a packet, computes the specified dispatch |
| `Storage.DispatchMeaning` | tools/code_gen.py:148-164 | generated switch and decoders say of every packet what its bytes mean: no number, no such event, broken, or the event's struct |
| `Storage.KnownEventsAppend` | tools/code_gen.py:147-182 | a batch is handled packet by packet: what two batches give together is what each gives alone, or nothing if either stops the flush |
| `Storage.OnePacket` | tools/code_gen.py:148-164 | by its bytes: a packet below eight bytes is skipped or stops the flush, a number no event has is skipped, and otherwise the fields decode or stop it |
| `Storage.UnknownSkipped` | tools/code_gen.py:153-182 | a packet with an unknown event number anywhere in a batch changes nothing for the others, in either backend |
| `Storage.MongoFlush` | tools/code_gen.py:245-277 | stores the structs of the known events of the batch in order, or nothing when a packet made it give up or the driver failed |
| `Storage.ClickHouseFlush` | tools/code_gen.py:139-187 | stores the rows of the known events of the batch in order but those whose `Append` failed, or nothing when a packet, `PrepareBatch` or `Send` failed |
| `Storage.AppendedAllIff` | tools/code_gen.py:175-178 | all rows are in the batch if and only if no `Append` failed |
| `Storage.AppendedAt` | tools/code_gen.py:175-178 | the rows of a batch are those whose `Append` went well, in order: a failed one costs its own row and no other |
| `Storage.BackendsAgreeIff` | tools/code_gen.py:148-164 | both backends keep the same events if and only if every packet holds an event number or a broken packet stops both |
| `Storage.FlushBoth` | tools/code_gen.py:139-277 | both `Flush` methods run on one batch report the same and store the same events in the same order if and only if every packet holds an event number or some packet is broken; so they do on packets of more than 12 bytes |
| `Storage.EmptyPacketSplits` | tools/code_gen.py:148-152 | on a batch of one empty packet Mongo gives up and ClickHouse stores nothing without an error |
| `Storage.HeadlessIffShort` | server/decoder/decoder.go:14-15 | a packet has no event number exactly when it is shorter than 8 bytes |
| `Storage.RowIsStruct` | tools/code_gen.py:165-175 | a ClickHouse row is the Mongo struct without its event field, next to the event number |
| `Storage.TupleIsArgs` | tools/code_gen.py:203-221 | the generated JSON extractions give back an event's arguments in order |
| `Storage.TypedTable` | tools/code_gen.py:195-231 | the view of an event yields exactly the field tuples of the stored events of that type, in order |
| `Storage.TablesPartition` | tools/code_gen.py:228-231 | each stored row passes the filter of exactly one view, that of its event, and the typed tables together hold one row per event |
| `ClickHouse.NamesApart` | tools/code_gen.py:225-230 | no two typed tables and no two views share a name, and none has the name of another kind or of the raw table |
| `ClickHouse.CellsAreArgs` | tools/code_gen.py:199-230 | what a view selects lands, by column name, in the table as the arguments of the event in order |
| `ClickHouse.RowsFit` | tools/code_gen.py:203-214 | every value in a typed table has the SQL type of its column |
| `ClickHouse.SelectFits` | tools/code_gen.py:206-219 | for parameters of any type and any payload, the selected value has the type of its column |
| `ClickHouse.Database.Execute` | tools/code_gen.py:223-231 | table and view of an event come into being together, and only if they were not there |
| `ClickHouse.Database.Migrate` | tools/codegen/templates/clickhouse_init.go:39-70 | the migrations set up every event not set up before and leave tables of an earlier start, with their rows, alone |
| `ClickHouse.Database.Insert` | tools/code_gen.py:228-231 | an inserted row goes through every view and adds one tuple, to the table named after its event |
| `ClickHouse.Database.InsertAll` | tools/code_gen.py:139-182 | after a batch the table named after each event holds exactly the argument tuples of its events, old ones first, in order |
| `ClickHouse.TableCount` | tools/code_gen.py:225-225 | there are exactly as many typed tables as events |
| `Compiler.Compile` | tools/code_gen.py:33-346 | both generators run on one header give a client and two servers that number and name the events alike |
| `Compiler.FillTables` | tools/codegen/templates/clickhouse_init.go:39-70 | a new database with the generated migrations and one batch: the raw rows, and the typed tables by name with their columns and tuples |
| `Compiler.EncodeAndDecode` | tools/code_gen.py:33-346 | generate both halves, run the client function, dispatch and decode with either server: the event's struct comes back if and only if its strings are shorter than 65536 bytes and its frame fits an `int` |
| `Compiler.LogAndStore` | tools/code_gen.py:33-346 | a list of such events logged by generated code is stored by both generated `Flush` methods in full and in order; after the migrations and the insert there is one typed table per event, named after it and holding exactly its argument tuples |
| `Compiler.DispatchesWholeIff` | tools/code_gen.py:148-164 | the generated server takes a body cut off anywhere for its event if and only if nothing is missing and its strings are short enough |
| `Compiler.DispatchesIff` | tools/code_gen.py:148-164 | the generated server takes an event's body for that event if and only if its strings are shorter than 65536 bytes |
| `Compiler.EventRoundTripIff` | client/api/LogAPIs.hh:19-29 | the reference decoding of an event's reference encoding is that event if and only if its strings are shorter than 65536 bytes |
| `Compiler.TruncatedRejected` | server/decoder/decoder.go:25-57 | an event's packet cut anywhere is never taken for an event |
| `Compiler.MeaningCanonical` | tools/code_gen.py:148-164 | a packet taken for an event starts with that event's encoding |
| `Compiler.ShortBodyIff` | server/listener/listener.go:51-56 | the events too short for the listener: no field, one string of at most two bytes, or two empty strings |
| `PosixQueue.SendKeeps` | client/posix_io/PosixIO.cc:163-203 | accounting and wire conservation survive every `send`: dropped, queued, written whole or in part, failed, reconnected |
| `PosixQueue.ReconnectKeeps` | client/posix_io/PosixIO.cc:191-199 | a reconnect falls on a frame boundary: the closed connection took whole frames |
| `PosixQueue.DirectWrite` | client/posix_io/PosixIO.cc:181-200 | the direct write of `send` does what queueing the frame and one pass of the drain loop would do |
| `PosixQueue.PassKeeps` | client/posix_io/PosixIO.cc:216-238 | one pass keeps the invariant, and the size drops by exactly the bytes written, so the guarded subtraction never clips |
| `PosixQueue.WriteHeadInSizeT` | client/posix_io/PosixIO.cc:217-225 | the pass in `size_t` arithmetic, with -1 as the largest value and wrapping offsets, is the pass of the model |
| `PosixQueue.FailedWriteIff` | client/posix_io/PosixIO.cc:217-232 | one pass keeps the accounting if and only if its write did not fail |
| `PosixQueue.FailedWriteReachable` | client/posix_io/PosixIO.cc:217-232 | one frame queued in asynchronous mode and one failed write break the accounting |
| `PosixQueue.DrainKeepsIff` | client/posix_io/PosixIO.cc:213-240 | a whole `onWriteOpportunity` keeps the invariant if and only if none of the writes it makes fails; answers it does not use do not matter |
| `PosixQueue.DrainKeeps` | client/posix_io/PosixIO.cc:213-240 | `onWriteOpportunity` keeps the invariant and never adds unsent bytes; it removes some if its first write takes some |
| `PosixQueue.RunKeeps` | client/posix_io/PosixIO.cc:163-240 | the invariant holds after any calls: the size is the unsent bytes, only the head is partly sent |
| `PosixQueue.WireConservation` | client/posix_io/PosixIO.cc:163-240 | over all runs, bytes handed to the sockets then unsent bytes are the accepted frames in posting order; closed connections took whole frames |
| `PosixQueue.CountersAddUp` | client/posix_io/PosixIO.cc:164-202 | posted plus dropped counts the calls of `send`; posted is sent plus the queue length |
| `PosixQueue.QuotaHolds` | client/posix_io/PosixIO.cc:164-167 | a fixed nonzero limit is never exceeded |
| `PosixQueue.DrainBound` | client/posix_io/PosixIO.cc:213-240 | as many write opportunities as unsent bytes empty the queue, with sent equal to posted and size 0 |
| `PosixQueue.ApplyGrows` | client/posix_io/PosixIO.cc:163-240 | no call takes back bytes of a connection or opens more than one |
| `PosixCalls.SendOutcome` | client/posix_io/PosixIO.cc:163-203 | a frame is refused if and only if the unsent bytes and the frame together exceed a nonzero limit, and then only counted; otherwise the unsent bytes grow by the frame, less what a synchronous write on an empty queue takes at once |
| `PosixCalls.ConnectionsOpened` | client/posix_io/PosixIO.cc:181-194 | a call opens a connection, and then one, if and only if it is a `send` of an accepted frame, in synchronous mode with nothing queued, whose write takes nothing and leaves `errno` set |
| `PosixCalls.DrainExact` | client/posix_io/PosixIO.cc:213-240 | a write opportunity sends as many buffers as its answers cover whole, moves the next one by the answer that falls short, and uses no further answer |
| `PosixIOs.PosixIO.constructor` | client/posix_io/PosixIO.cc:152-154 | a new client starts in the initial state of the queue |
| `PosixIOs.PosixIO.Send` | client/posix_io/PosixIO.cc:163-203 | on buffers, offsets and counters it is the `send` step, keeps the invariant, hands a buffer back exactly when it does not fit the limit, and reconnects exactly when its own write took nothing and left `errno` set |
| `PosixIOs.PosixIO.AcceptFrame` | client/posix_io/PosixIO.cc:168-172 | counts the frame in and overwrites its first four bytes with its size |
| `PosixIOs.PosixIO.WriteDirectly` | client/posix_io/PosixIO.cc:181-201 | the synchronous write is the specified one, and opens a connection exactly when it takes nothing and leaves `errno` set |
| `PosixIOs.PosixIO.SetAsyncMode` | client/posix_io/PosixIO.cc:205-211 | changes the mode and nothing else |
| `PosixIOs.PosixIO.SetQueueMaxSize` | client/posix_io/PosixIO.hh:26 | changes the limit and nothing else |
| `PosixIOs.PosixIO.OnWriteOpportunity` | client/posix_io/PosixIO.cc:213-240 | for all results of `write`, failed ones too, the loop ends, uses up exactly the answers it needs, and is the drain step; the invariant holds after it if and only if none of those writes failed |
| `PosixIOs.PosixIO.WriteBuffer` | client/posix_io/PosixIO.cc:216-226 | one write of the head buffer in `size_t` arithmetic is the specified pass |
| `Frames.FrameParts` | client/posix_io/PosixIO.cc:169-171 | in front of any bytes, a frame is the 32-bit size of its body and then the body |
| `Frames.ParseResumes` | server/listener/listener.go:26-65 | parsing may stop anywhere and go on later from the unfinished frame |
| `Frames.ParseEnded` | server/listener/listener.go:53-56 | after a short body later bytes produce nothing |
| `Frames.EmptyFrameSkipped` | server/listener/listener.go:40-47 | a frame with length zero between frames is read over as if it were not there |
| `Frames.ParseStream` | server/listener/listener.go:26-65 | a stream of whole frames comes out as its bodies up to the first short one |
| `Frames.UniquelyParsable` | client/posix_io/PosixIO.cc:169-171 | two lists of frames with nonzero 32-bit sizes and the same bytes are equal |
| `Frames.ParsePrefix` | server/listener/listener.go:26-65 | a cut stream gives a prefix of the frame list |
| `Frames.CutStream` | server/listener/listener.go:26-65 | a stream cut anywhere has given its first bodies, and the unfinished frame with the rest is exactly the frames to come |
| `Frames.EndedIff` | server/listener/listener.go:51-56 | a cut stream has ended the connection if and only if it includes all of the first short frame |
| `Frames.SplitStream` | client/posix_io/PosixIO.cc:169-171 | the frames of a byte stream are recovered from its bytes alone |
| `Listener.TakeParses` | server/listener/listener.go:26-60 | one read makes of the unfinished frame and the new bytes what the parser makes of both |
| `Listener.ReadInStep` | server/listener/listener.go:26-65 | chunk independence: after every read the packets are the parser's and the reader's state is exactly the unparsed rest |
| `Listener.HandleConnection` | server/listener/listener.go:19-68 | enqueues exactly the parser's packets of the bytes consumed, each in its own fresh array no later read touches; stops at the first read error or short body and reads nothing behind it |
| `Listener.ReadHeader` | server/listener/listener.go:28-48 | a read in the header branch keeps the reader in step; a zero length starts over |
| `Listener.ReadBody` | server/listener/listener.go:50-64 | a read in the body branch keeps the reader in step; a completed body is passed on or ends the connection |
| `Ingester.WorkerMain` | server/ingester/ingester.go:14-45 | returns if and only if some input is a closed channel, or a failing tick that finds packets waiting; its batches and its calls of `Flush` are those the inputs alone determine |
| `Ingester.WhileAlive` | server/ingester/ingester.go:18-43 | a worker that goes on holds the last n mod B of the n packets since the last tick; each B of them have been handed over when complete and each rest at a tick |
| `Ingester.OnceEnded` | server/ingester/ingester.go:21-40 | the first input that ends a worker makes it hand over what is waiting, once, and later inputs change nothing |
| `Ingester.ReturnsIff` | server/ingester/ingester.go:21-40 | a worker ends if and only if the channel is closed or the flush of a tick fails; failed size flushes never end it |
| `Ingester.OnlyPackets` | server/ingester/ingester.go:25-33 | without ticks and close, n packets make n / B batches of exactly B packets whatever the flushes answer, and n mod B wait |
| `Ingester.Package.Configure` | server/ingester/ingester.go:47-56 | positive numbers are used as given; others fall back to the processor count and to 1024 |
| `Ingester.WorkerRunsAlone` | server/ingester/ingester.go:57-59 | inside any interleaving each worker goes through the turns of its own loop on what it picks |
| `Ingester.TurnTakes` | server/ingester/ingester.go:18-43 | a turn adds exactly the received packet to what a worker handed over or holds, and batches stay in bounds |
| `Ingester.NextValid` | server/ingester/ingester.go:14-64 | every step of every worker or producer keeps the invariant |
| `Ingester.WorkerOrder` | server/ingester/ingester.go:18-45 | what a worker handed over then its batch is a strictly increasing subsequence of the enqueue order; workers' positions are disjoint and cover what was received |
| `Ingester.Conservation` | server/ingester/ingester.go:14-64 | under any interleaving, failed flushes and exits included, each packet is in the channel, one batch, or was handed over once |
| `Ingester.SingleWorkerOrder` | server/ingester/ingester.go:14-64 | with one worker, handed-over packets, batch and channel are the enqueue order |
| `Ingester.FillsUp` | server/ingester/ingester.go:56-64 | an open channel takes packets in order until exactly B of them wait; then `Enqueue` blocks |
| `Ingester.ClosedIsDrained` | server/ingester/ingester.go:20-24 | no worker makes its last flush before the channel is closed and every packet in it has been received |
| `Ingester.BacklogBound` | server/ingester/ingester.go:26-64 | channel at most B, batches below B, non-shutdown flushes of 1 to B packets, backlog at most B + N(B-1) |
| `SeastarIOs.StepKeeps` | client/seastar_io/SeastarIO.cc:91-139 | every continuation keeps posting order and accounting |
| `SeastarIOs.RunKeeps` | client/seastar_io/SeastarIO.cc:91-139 | in every interleaving the frames attempted, connection after connection, are a prefix of the posting order; posted is sent, lost, in flight and queued; the size counts queued, in-flight and lost bytes |
| `SeastarIOs.NothingLost` | client/seastar_io/SeastarIO.cc:122-134 | without failed writes the size is the pending bytes alone |
| `SeastarIOs.RunOnWire` | client/seastar_io/SeastarIO.cc:107-137 | as long as writes do not overlap, each connection has taken a prefix of the frames started on it; only the outstanding or failed one is missing or cut |
| `SeastarIOs.NothingAfterShutDown` | client/seastar_io/SeastarIO.cc:98-116 | once the shutdown flag is set nothing is posted and no write is started, so the closed streams are not used |
| `SeastarDelivery.EveryStreamFaithful` | client/seastar_io/SeastarIO.cc:91-139 | whatever prefix a failed write leaves on the wire and however the server reads, a handler passes on the bodies of the first frames started on its connection, in order and unchanged |
| `SeastarIOs.SingleWriter` | client/seastar_io/SeastarIO.cc:107-137 | if no reconnect completes while a failed loop winds down, at most one write is outstanding in every state |
| `SeastarIOs.OverlapWrites` | client/seastar_io/SeastarIO.cc:129-137 | otherwise two further calls of `send` lead to two outstanding writes |
| `SeastarIOs.OverlapFromIdle` | client/seastar_io/SeastarIO.cc:107-137 | a fresh client gets there: one connection, one `send`, one failed write, a reconnect before the loop has finished |
| `SeastarIOs.ReconnectSafeIff` | client/seastar_io/SeastarIO.cc:29-42 | a reconnect keeps writes single on all continuations if and only if no failed loop is winding down, or the client is shutting down |
| `SeastarProgress.FlagIff` | client/seastar_io/SeastarIO.cc:107-137 | on all such runs the transmitting flag is set if and only if the last loop has neither ended nor failed |
| `SeastarProgress.SendOutcome` | client/seastar_io/SeastarIO.cc:91-106 | a frame is dropped if and only if it and the bytes queued, in flight and lost exceed a nonzero limit; otherwise posted if and only if connected and not shutting down |
| `SeastarProgress.SendStarts` | client/seastar_io/SeastarIO.cc:107-122 | a posted frame with no loop alive leaves exactly one outstanding write, of the front of the queue |
| `SeastarProgress.QuotaHolds` | client/seastar_io/SeastarIO.cc:94-97 | a fixed nonzero limit is never exceeded in any interleaving |
| `SeastarProgress.CanEmpty` | client/seastar_io/SeastarIO.cc:110-137 | a loop that writes or is about to test its condition can send the whole queue, in order, without another `send`, and end |
| `SeastarProgress.EmptiesIff` | client/seastar_io/SeastarIO.cc:107-137 | on an open connection some steps other than `send` empty the queue if and only if the last loop writes or is about to test its condition |
| `SeastarProgress.SentAtLast` | client/seastar_io/SeastarIO.cc:91-139 | from the state after a frame is posted with no loop alive, some steps attempt every accepted frame, lose none, and leave on the wire all frames of the open connection |
| `SeastarIOs.SeastarIO.Send` | client/seastar_io/SeastarIO.cc:91-139 | drops, ignores, queues, or queues and starts the loop, as the step says; accounting holds |
| `SeastarIOs.SeastarIO.Turn` | client/seastar_io/SeastarIO.cc:111-122 | one turn of the loop stops or starts the write of the front frame |
| `SeastarIOs.SeastarIO.WriteSucceeded` | client/seastar_io/SeastarIO.cc:122-128 | the success continuation counts the frame and its bytes out |
| `SeastarIOs.SeastarIO.WriteThrew` | client/seastar_io/SeastarIO.cc:129-134 | the failure continuation marks the connection down and keeps the lost bytes counted, whatever part of the frame was taken |
| `SeastarIOs.SeastarIO.LoopEnded` | client/seastar_io/SeastarIO.cc:135-137 | the `finally` continuation ends its loop and clears the flag, however the loop ended |
| `SeastarIOs.SeastarIO.InitializeConnectedSocket` | client/seastar_io/SeastarIO.cc:29-42 | marks the connection up and gives later writes a stream of their own; accounting holds |
| `SeastarIOs.SeastarIO.FinishDisconnect` | client/seastar_io/SeastarIO.cc:67-68 | raises the shutdown flag and changes nothing else |
| `SeastarIOs.SeastarIO.SetQueueMaxSize` | client/seastar_io/SeastarIO.hh:21 | changes the limit and nothing else |
| `Loggers.Logger.LogEvent` | client/api/LogAPIs.hh:10-31 | a generated client function on a live queue is one `send` of the event's encoding; if accepted, the queue takes on the frame the server parses |
| `Loggers.StampIsFrame` | client/posix_io/PosixIO.cc:169-171 | the client's buffer with its stamped size is the frame the server parses |
| `Pipeline.StepKeeps` | server/listener/listener.go:19-68 | every step of any part keeps all clients, connections and the ingester consistent with each other |
| `Pipeline.RunKeeps` | server/listener/listener.go:19-68 | so does every run |
| `Pipeline.AlwaysReady` | client/posix_io/PosixIO.cc:163-203 | in every reachable state every client may log any event |
| `Pipeline.EveryConnectionFaithful` | server/listener/listener.go:19-68 | in every run, per connection: the packets that came out are the first accepted events, unchanged and in order; reader, wire and queue hold exactly the frames of the rest |
| `Delivery.FramesConserved` | client/posix_io/PosixIO.cc:163-240 | all accepted frames, tagged with their connection, are enqueued, waiting, on the way or stranded, each once |
| `Delivery.EventsConserved` | server/ingester/ingester.go:14-64 | in every reachable state the accepted events are those handed over or batched, in the channel, in handlers, in the bytes on the way, and stranded, as a multiset |
| `Delivery.NoEventLost` | server/ingester/ingester.go:14-64 | when no read fails and no accepted event is too short, none is stranded: all are handed over, batched, in the channel, in handlers or on the way |
| `Emptying.CanAlwaysFinish` | server/ingester/ingester.go:14-64 | from every reachable state with a worker at an open channel, no read error and no event too short, further steps empty queues, connections, channel and batches, and every accepted event has been handed to the storage |
| `Emptying.EmptyClient` | client/posix_io/PosixIO.cc:213-240 | from such a state, write opportunities of one byte each empty a client's queue and change nothing else |
| `Emptying.EmptyKey` | server/listener/listener.go:26-65 | from such a state, single-byte reads and deliveries bring a handler to the end of what its connection took |
| `Delivery.EveryConnectionInOrder` | server/ingester/ingester.go:14-64 | with one worker and any clients and connections, what was handed over from each connection is its first accepted events in order, and batch, channel and handler follow |
| `Delivery.EventsInOrder` | server/ingester/ingester.go:14-64 | with one connection and one worker the handed-over events are the first accepted ones in order, followed by batch, channel, handler and bytes on the way |
| `Delivery.ClosedByShortEvent` | server/listener/listener.go:51-56 | without read error a handler closes exactly at the first event that is too short; all earlier ones came out |
| `Delivery.ClosedIffShortRead` | server/listener/listener.go:51-56 | a handler is closed if and only if a read failed or it has read the whole frame of the first event that is too short |
| `Delivery.HandedKnown` | tools/code_gen.py:148-164 | every packet handed to the storage decodes to an accepted event |
| `Delivery.BatchesKept` | tools/code_gen.py:139-277 | either backend keeps every packet of every batch it is handed |

## Left out

- Delivery.EventsConserved: speaks of events whose strings are shorter than 65536 bytes and whose frame fits a C++ `int`; `Pipeline.EveryConnectionFaithful` asks only the latter.
- Pipeline.EveryConnectionFaithful: clients use `PosixIO`; the Seastar transport is followed to the listener in `SeastarDelivery`.
- Loggers.Logger.LogEvent: an event whose frame does not fit an `int` has no buffer or a cut one (`ClientRuntime.LogCall`), and sending it is left out.
- ClientRuntime.ComputeTotal: a sum that exceeds an `int` wraps around; for `total_length += 8` C++ leaves it undefined.
- PosixIOs.PosixIO.Send: `initialize_connection` (client/posix_io/PosixIO.cc:15-150) is one step that always succeeds; failed connects, DNS, sockets, TLS and `fixAsyncMode` are foreign calls, and the plain and TLS writes share one result type.
- PosixIOs.PosixIO.Send: the buffer comes with a read offset of 0 and is not queued already, as the generated functions send it; capacities stay below 2^64 - 1 and the sum in the quota test does not wrap around.
- PosixQueue.WireConservation: runs in which a write inside `onWriteOpportunity` fails are left out; `PosixQueue.DrainKeepsIff` shows that such a call breaks the invariant.
- ClickHouse.Database.Migrate: statements do not fail; the empty column list of an event without payload fields may be one that ClickHouse refuses.
- ClickHouse.Database.Insert: views see a row when it is inserted, and the tables of one server start are those of one schema; storage engines and the `USE` statement are left out.
- Storage.TypedTable: JSON text and SQL text are a map of field values and filter and projection functions, so the escaping of strings that are not UTF-8 is not modelled.
- SeastarIOs.SeastarIO.InitializeConnectedSocket: the keepalive settings and the input stream are left out.
- SeastarIOs.SeastarIO.FinishDisconnect: the closing of both streams is left out; the step may come at any time, which allows more than waiting for the last loop does.
- CodeGen.GoCodeGen.GenerateCode: the text around the statements is left out; schemas with types that Go cannot declare, names that clash with generated local variables, and events with one parameter, whose decoder leaves variables unused, are rejected by the compilers and not by the model.
- Ingester.WorkerMain: a batch is a value; the code reuses the backing array of a flushed batch, which matters only to a `Flush` that keeps the slice.
- Flushing the Seastar output stream.
- Bytes that the kernel or the network lose when a connection breaks: a wire is what `write` took, and a handler that met a read error leaves the rest stranded.
- Restarting a worker that gave up after a failed tick flush: the code has none, so with no worker left the channel fills up and stays full.
- `SeastarBuffer` (client/seastar_buffer/SeastarBuffer.cc), which clamps like `PosixBuffer`.
- Header parsing in tools/parse_json.py, listener and TLS configuration (server/listener/listener.go:70-132), the storage drivers, configuration files, examples, Docker and shell scripts.
