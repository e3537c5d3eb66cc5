# A verified model of LSEB's event building

LSEB builds events on `n` nodes. The readout unit (RU) of every node takes events from a fixed table,
bundles `bulk` of them into a multievent, and sends multievent `t` to the builder unit (BU) of node
`t mod n`. A BU builds a row once it has a fragment from every RU, checks that all fragments start
with the same event, and posts the receive buffers again. Flow control is by `credits` per
connection, and a table of `bulk * (2 * credits + 1)` events is all the memory there is.

The project follows the program file by file, as classes and methods over the program's own fields
and cursors, and relates each class to counters that only grow. Above them stands the system of `n`
nodes as a transition system over those counters with one FIFO channel per connection. Constructed
nodes start in its initial state, and whatever turns their loops take, in any order and with any
deliveries in between, is a run of it. The system is stated for event tables in which every multievent
can be sent as intended; which payloads lead to such tables is characterised exactly below. A second
part models the message utilities of the launcher: the buffered line reader, the in-place key=value
parser and the bounded string copies.

## What is proved

* **Safety over every run.** All fragments in the queues of a BU agree row by row, not only in the
  front row that is checked; ids follow a closed formula and lengths are never zero. So the check of
  the BU never fails (`Protocol.EventAgreement`). Two RUs never differ by more than `2 * credits`
  sends to the same BU (`Protocol.BoundedSkew`).
* **Progress.** With `n <= 2 * credits` no reachable state is stuck (`Progress.NoDeadlock`), and every
  run that is long enough has built any number of rows at every BU, however its steps are scheduled
  (`Progress.EveryBuilderAdvances`). With `n > 2 * credits` only the RU of the last node ever sends to
  the last BU and every run ends (`Progress.LastBuilderStarves`). Together: the system can run for
  ever if and only if `n <= 2 * credits` (`Progress.RunsForEver`).
* **Refinement.** `Launches.Launch` constructs and connects all nodes, with the sizes of the program;
  what they start in is `Init`. From there every turn of an RU (`Systems.RuTurn`), every turn of a BU
  (`Systems.BuTurn`) and every delivery (`Systems.NetworkDelivers`), whichever comes next, continues the
  run and leaves the fields of all units equal to those of its last state, and the data buffers holding
  what is sent. So safety and progress hold of the program. A turn of an RU is determined by the clock and
  by what the network reports: it acquires as much as memory and clock allow, completes all that is
  reported, and sends if and only if a credit is left and the multievent is there
  (`ReadoutUnits.RoundIsDetermined`, `ReadoutUnits.ReadoutUnit.Iterate`). A turn of a BU polls all that is
  reported and builds all rows that are complete then.
* **No standstill.** A turn of a unit takes a step of the system whenever one of the unit's own steps is
  possible, its arrivals are reported and the clock is due (`Turns.TurnMoves`,
  `BuilderTurns.BuilderMoves`). With `n <= 2 * credits` clock and network can always offer an event, a
  delivery or the turn of a unit that has something to do (`Networks.KeepsGoing`), every such event makes
  the run longer (`Networks.Proceed`), and a long enough run has built any number of rows at every BU
  (`Networks.BuildsRows`).
* **Memory.** The generator's, controller's and accumulator's ring cursors are the counters of
  generated, acquired and released events reduced modulo the table, those of the generator one slot
  behind. Multievents complete in any order and batches; what is given back is always the longest
  completed prefix, and the result depends only on which have completed. What is held is, without
  overlap, what waits in the send buffer and what is in flight on one connection.
* **Messages.** Lines do not depend on how `read` divides the stream; printed pairs are read back
  whatever the portions, and kept as they are if and only if keys have at most 31 and values at most 1023
  characters (`KeyVals.KeptPrint`, `KeyVals.PrintedIsStored`); parsing, printing and parsing again changes
  nothing. The parser accepts exactly the lines whose words are pairs, whatever their blanks
  (`LineWords.ParseByWords`). An answer of the process manager is accepted exactly when it should be, however
  it is delivered (`Clients.PrintedAnswer`, `Clients.GetResponse`).

## Where the code does not do what it says

Each of these is stated as an equivalence, for all inputs, and at an input that shows it.

* An event whose payload is shorter than 8 bytes is rounded down to length zero
  (`Generators.LayoutFits`), and the header of the next event overwrites its own. The mean and deviation
  in the configuration do not exclude such payloads. Inside a multievent nothing relies on it, but the
  check of a BU reads the header at the front: it succeeds on a multievent if and only if, on all nodes,
  the first event that is not empty, in the multievent or after it, has the same number
  (`Tables.CheckOfAllHeaders`). `Tables.ShortPayloadExample` has two generators lay out tables, and on
  what is sent from them first the check fails (`Tables.ShortPayloadFails`).
* With the smallest maximum, one bare header, an event may also take bytes that empty events before it
  did not use, so that a multievent can outgrow the receive chunk, as the second one of
  `Tables.BareHeaderExample` does (`Tables.BareHeaderOutgrows`). Every multievent can be sent as intended,
  with its own header and in one chunk, if and only if no multievent starts with a payload below 8 bytes
  and none takes more than it was given (`Tables.ReadyIsServing` with `Tables.TableIsReady`). `n` nodes are
  a system of the model if and only if that is so on all of them (`Nodes.SetupIsValid`,
  `Launches.Launch`).
* Multievents have different addresses if and only if none but the last of the table is wholly empty
  (`Tables.DistinctAddresses`; `Tables.EmptyMultieventExample` has two with one address). The completion of
  the second of two with one address finds the first, and if that has completed and is still in the queue,
  an assertion fails (`Accumulators.SharedAddressFails`).
* A node count above `2 * credits` is accepted at start-up and always ends in a standstill
  (`Progress.RunsForEver`, `Launches.StandstillExample`).
* `find_in_range` takes an empty range for the whole table and reads a hit in its first entry as no hit
  (`Ring.FindInEmptyRange`, `Ring.EmptyRangeExample`). No caller passes an empty range.
* `MPIU_Strnapp` leaves the promised result if and only if the source fits or the destination was full
  already (`SafeStr.AppendMeetsDescription`); otherwise it keeps one character less
  (`SafeStr.AppendExample`). It reports failure whenever there is room for less than one character, even
  if there is nothing to append (`SafeStr.Strnapp`).
* `PMIU_parse_keyvals` checks no bounds. It writes outside its table if and only if a line has a 65th pair
  or a value so long that the null behind it, which the program does not cut, falls behind the last entry
  (`KeyVals.Table.ParseLine`, `KeyVals.LongValue`). A value of 1024 characters or more is cut, and the null
  lands in a later entry, which has not been filled yet. Lines that have been read with the program's line
  buffer of 1024 characters stay inside the table if and only if they have at most 64 pairs
  (`Messages.ReadLinesFit`); a line of 195 characters can have 65 (`KeyVals.TooManyPairs`).

## Assumptions

* A connection delivers messages in order and without loss, and only into a receive buffer that was
  posted for it. A send is reported as completed only after its message has arrived; completions
  of different connections, and of one connection, are reported in any order and in any portions.
  Arrivals on one connection are reported in their order.
* The clock is the number of events it has asked for so far, which never decreases.
* Connection `i` of a BU leads to RU `peer[k][i]`, for an arbitrary permutation `peer[k]`: the program
  numbers connections as they are accepted.
* Addresses and iterators are offsets and indices; integers are unbounded.

## Model

| member | source | states |
|---|---|---|
| Ring.AdvanceIsModular | common/range.h:34-44 | although the remainder truncates, advancing by any positive or negative number is addition modulo the table size |
| Ring.RangesAreLossless | common/range.h:27-44 | the length of a range built by advancing n entries is n if and only if 0 <= n < size; a full turn reads as empty |
| Ring.FindAgreesWithUnroll | common/range.h:46-61 | in a non-empty cyclic range, one that begins at the end of the table included, the result is the first hit of the unrolled range, and its end exactly when there is none |
| Ring.FindInEmptyRange | common/range.h:46-61 | on an empty range, at the end of the table too, exactly when the search returns its end |
| Ring.EmptyRangeExample | common/range.h:46-61 | in an empty range a hit elsewhere in the table is returned, and one in the first entry is not seen |
| Ring.AccumulateInRange | common/range.h:63-76 | the two-part fold is the fold over the unrolled range: the last of a sequence of results that begins with the start value and in which each comes from the one before and the next entry |
| Buffers.Buffer.constructor | common/utility.h:38-61 | both cursors start at the beginning |
| Buffers.Buffer.Release | common/utility.h:83-86 | takes n records off the ready ones and moves nothing else |
| Buffers.Buffer.Reserve | common/utility.h:87-90 | adds n ready records, one slot always staying unused |
| Buffers.ReadyIsRemainder | common/utility.h:77-82 | the program's remainder expression is the cyclic distance between the cursors |
| Generators.EventSizeFacts | generator/generator.cpp:34-40 | the size chosen for an event: the largest multiple of 32 within 24 + payload bytes, or 24 exactly when that would not leave 24 bytes for every header still to come; it is a multiple of 8 and zero if and only if the payload is below 8 |
| Generators.PlaceEvent | generator/generator.cpp:46-66 | writes exactly one record and one header at the write cursors and claims their space, except for the last record |
| Generators.LayOutNext | generator/generator.cpp:34-67 | one round of the loop keeps the laid-out part back to back, with the exact size of every event and room for all headers still to come |
| Generators.LayOut | generator/generator.cpp:28-71 | the loop fills the whole table: ids in order, events back to back with the exact size for their payloads, headers repeating the records |
| Generators.Generator.constructor | generator/generator.cpp:13-77 | the table and headers it leaves, the length of every event written out by its payload and place, and that the cursors end up on the last slot |
| Generators.Generator.ReleaseEvents | generator/generator.cpp:79-90 | exactly n events become free |
| Generators.Generator.GenerateEvents | generator/generator.cpp:92-111 | as many events as asked for, up to the one slot that stays unused |
| Generators.LayoutFits | generator/generator.cpp:31-66 | every event ends in the data range with room for all later headers, starts on an 8-byte boundary, and is empty if and only if its payload is below 8; its length is the largest multiple of 32 within 24 + payload, or 24 exactly when that leaves too little for the headers after it |
| Generators.SpareIsUnused | generator/generator.cpp:34-66 | what earlier empty events left unused: every event starts that far before the place it would have with full-sized ones, if the maximum is a bare header |
| Tables.TableIsReady | generator/generator.cpp:28-71 | a generated table is what the model asks for if and only if no multievent starts with a payload below 8 bytes and, with a maximum of one bare header, none makes up for earlier empty events |
| Tables.ReadyIsServing | ru/accumulator.cpp:47-76 | that is so if and only if at the address of every multievent lies its own first event's header, not empty, and it fits in a receive chunk |
| Tables.HeaderIsSent | ru/accumulator.cpp:69-76 | the header at the address of multievent t, read from the data buffer |
| Tables.CheckOfAllHeaders | bu/builder_unit.cpp:45-71 | for any number of nodes, the check succeeds on the headers they send for a multievent if and only if on all of them the first event from there on that is not empty has the same number |
| Tables.ShortPayloadExample | generator/generator.cpp:13-77 | two generators lay out tables, one with a first payload of zero bytes, and the headers at the address of the first multievent are those of different events |
| Tables.ShortPayloadFails | bu/builder_unit.cpp:45-71 | the check fails on the headers that lie in those tables' data for the first multievent: their ids are 0 and 1 |
| Tables.BareHeaderExample | generator/generator.cpp:34-66 | a table with a maximum of one bare header and three empty events in the first multievent |
| Tables.BareHeaderOutgrows | ru/accumulator.cpp:59-71 | its second multievent takes 128 bytes of a receive chunk of 96 |
| Tables.SharedAddress | ru/accumulator.cpp:69-76 | two multievents of a table have one address if and only if every event from the start of the first up to the second is empty |
| Tables.DistinctAddresses | ru/accumulator.cpp:69-76 | all addresses of a table differ if and only if no multievent but the last is wholly empty |
| Tables.EmptyMultieventExample | generator/generator.cpp:34-66 | a table in which the first two multievents have one address |
| Controllers.Controller.constructor | ru/controller.cpp:10-21 | starts in step with a generator whose cursors are on the last slot |
| Controllers.Controller.Read | ru/controller.cpp:23-43 | the range read starts where the last one ended and has as many events as were generated: up to what the clock asks for or a full table |
| Controllers.Controller.Release | ru/controller.cpp:45-50 | gives back as many events as the range has |
| Prefix.Mex | ru/accumulator.cpp:87-92 | the length of the longest completed prefix: the first multievent not completed |
| Bundles.BundleFits | ru/accumulator.cpp:47-71 | a multievent is contiguous, as long as its events, at most bulk * maxFragment, and apart from those of other slots |
| Bundles.BasesDiffer | ru/accumulator.cpp:71-72 | multievents held at the same time have different addresses |
| Bundles.OneBundle | ru/accumulator.cpp:47-67 | a bundle ends at or before the end of the table, and one step back from its end is its last event |
| Bundles.NoWrap | ru/accumulator.cpp:55-57 | the check for wrapped data finds nothing |
| Bundles.WhenBundleIsReady | ru/accumulator.cpp:37-45 | after reading, a bundle is there exactly when memory and clock allow one more |
| Bundles.FrontIsPrefix | ru/accumulator.cpp:87-94 | the flagged front of the queue is the longest completed prefix |
| Bundles.BatchingIsIrrelevant | ru/accumulator.cpp:112-124 | releasing addresses batch by batch is releasing them all at once |
| Bundles.ReleaseIsConfluent | ru/accumulator.cpp:112-124 | order and batches of the completed addresses do not matter |
| Accumulators.Accumulator.constructor | ru/accumulator.cpp:10-23 | starts empty at the beginning of the table |
| Accumulators.Accumulator.CheckDataWrap | ru/accumulator.cpp:25-33 | whether some event of the range lies before its first |
| Accumulators.Accumulator.GetMultievent | ru/accumulator.cpp:35-85 | succeeds if and only if fewer than 2 * credits multievents are held and the clock has asked for the events; then bulk records are taken, from the data of the first to the end of the last, and the address is queued |
| Accumulators.Accumulator.MarkCompleted | ru/accumulator.cpp:114-121 | flags the one entry with this address; neither assertion can fire |
| Accumulators.Accumulator.ReleaseContiguousMemory | ru/accumulator.cpp:87-110 | exactly the longest completed prefix is given back |
| Accumulators.Accumulator.ReleaseMultievents | ru/accumulator.cpp:112-124 | flags the addresses and gives the completed prefix back: every entry that is gone was flagged or reported, the first that is left was neither, the others are flagged if they were or are reported, and the cursor moves by the records of those that are gone |
| Accumulators.SharedAddressFails | ru/accumulator.cpp:112-121 | of two multievents in the queue with one address, both completions find the older one, and the second fails the assertion that it has not completed |
| Accumulators.StateIsDetermined | ru/accumulator.cpp:87-124 | queue, cursors and events given back depend only on what was acquired and what has completed |
| Accumulators.ReadyIsAccountedFor | ru/accumulator.cpp:35-110 | the generator's ready events are bulk times the queue plus those not bundled, and the counters stay within one table |
| Schedule.CreateSequence | common/utility.h:111-120 | the order id+1, ..., n-1, 0, ..., id |
| Schedule.RotationIsContentionFree | common/utility.h:111-120 | each order is a permutation, and at each position all units aim at different destinations |
| Schedule.SendIsNth | ru/readout_unit.cpp:119-134 | the q-th send to a destination carries the q-th multievent that belongs to it, despite the rotated order |
| Schedule.SentIsAcquired | ru/readout_unit.cpp:83-91 | only what has been acquired is ever sent |
| Schedule.AcquireKeeps | ru/readout_unit.cpp:83-91 | acquiring keeps the invariant of the counters |
| Schedule.CompleteKeeps | ru/readout_unit.cpp:93-117 | so do completions, in any order |
| Schedule.SendKeeps | ru/readout_unit.cpp:119-134 | so does a send, including its credit limit |
| Schedule.CreditsCanBeUsed | ru/readout_unit.cpp:119-120 | a connection takes as many sends as it has credits before any of them has to complete |
| Schedule.CycleIsFull | ru/readout_unit.cpp:127-133 | at the end of a cycle all n entries have been acquired |
| Sockets.TakeCompleted | transport/libfabric/socket.cpp:92-102 | all reported completions are taken if and only if each names a different pending request; otherwise it stops at the first unknown key |
| Sockets.Socket.PostSend | transport/libfabric/socket.cpp:154-192 | succeeds if and only if there is a credit and the key is not in use, and records the request |
| Sockets.Socket.PostRecv | transport/libfabric/socket.cpp:194-234 | the same for receives |
| Sockets.Socket.PollCompletedSend | transport/verbs/socket.cpp:48-74 | the completed requests leave the table, in the order reported |
| Sockets.Socket.PollCompletedRecv | transport/verbs/socket.cpp:76-102 | the same for receives |
| ReadoutUnits.KeyIsHeld | ru/readout_unit.cpp:93-117 | every pending key is the address of exactly one multievent held, which was sent on that connection |
| ReadoutUnits.KeysDisjoint | ru/readout_unit.cpp:93-101 | no key is pending on two connections |
| ReadoutUnits.KeysAfterSend | ru/readout_unit.cpp:119-124 | a send adds exactly one key, which was not pending |
| ReadoutUnits.AllCreditsAreKeys | ru/readout_unit.cpp:103 | the credits in use on a connection are its multievents in flight |
| ReadoutUnits.CompletionsSound | ru/readout_unit.cpp:93-117 | whatever is reported can be released, and sockets and accumulator agree again afterwards |
| ReadoutUnits.SendSound | ru/readout_unit.cpp:119-134 | a send that passes the guard has a credit, a free key and its own multievent, and leaves everything in order |
| ReadoutUnits.SendIsDecided | ru/readout_unit.cpp:103-120 | a send is possible if and only if fewer than credits requests are pending on the connection of the next destination and the send buffer has an entry for it |
| ReadoutUnits.LeftInFields | ru/readout_unit.cpp:86-91 | after the acquisitions the send buffer has the entry of the next destination, or 2 * credits multievents are held, or the clock has not asked for the next one |
| ReadoutUnits.TurnInFields | ru/readout_unit.cpp:76-134 | what a turn acquires and whether it sends, in lengths of the send buffer, of the queue and of the tables of requests before the turn |
| ReadoutUnits.ReadoutUnit.constructor | ru/readout_unit.cpp:62-74 | starts with nothing acquired or sent |
| ReadoutUnits.ReadoutUnit.AcquireOne | ru/readout_unit.cpp:86-91 | takes one more multievent exactly when memory and clock allow |
| ReadoutUnits.ReadoutUnit.AcquireUpTo | ru/readout_unit.cpp:83-91 | acquires one after the other, and stops only when the buffer has the entry of the next destination, 2 * credits multievents are held, or the clock has not asked for the events of the next one |
| ReadoutUnits.ReadoutUnit.PollAll | ru/readout_unit.cpp:93-111 | collects the completions of all connections in sending order and the credits of the next destination |
| ReadoutUnits.ReadoutUnit.CompleteAll | ru/readout_unit.cpp:93-117 | the reported multievents become completed, and only those |
| ReadoutUnits.ReadoutUnit.SendIfPossible | ru/readout_unit.cpp:119-134 | sends if and only if fewer than credits requests are pending on the connection and the send buffer has an entry for it; the state and the requests afterwards |
| ReadoutUnits.ReadoutUnit.SendNext | ru/readout_unit.cpp:119-134 | posts the next multievent on its connection and moves on; neither error of the socket can occur |
| ReadoutUnits.ReadoutUnit.Iterate | ru/readout_unit.cpp:76-134 | one turn of the loop: all acquisitions that memory and clock allow, all completions reported and only those, and a send if and only if, without the completed requests, fewer than credits are pending on the next connection and its entry is there; position, length of the send buffer and the requests left pending |
| InFlight.HeldIsWaitingOrInFlight | ru/readout_unit.cpp:83-134 | an address is held if and only if it waits in the send buffer or is pending, never both |
| InFlight.UnflaggedEntries | ru/accumulator.cpp:112-121 | the unflagged entries of the queue are the disjoint union of the unsent entries and the pending keys |
| InFlight.NextIsFree | ru/accumulator.cpp:47-76 | the next multievent does not overlap any multievent still held |
| BuilderUnits.ChunksApart | bu/builder_unit.cpp:100-115 | no two receive chunks overlap, of one connection or of two |
| BuilderUnits.ReadConserves | bu/builder_unit.cpp:31-43 | taking fragments in keeps every chunk in exactly one place |
| BuilderUnits.PostConserves | bu/builder_unit.cpp:83-86 | the oldest fragment's chunk can always be posted again: there is a credit and the key is free |
| BuilderUnits.CompleteRows | bu/builder_unit.cpp:138-169 | the rows built are the smallest number of fragments on a connection, queued before or reported now, or credits, if that is less; queues shrink by them if the check succeeds |
| BuilderUnits.BuilderUnit.Connect | bu/builder_unit.cpp:100-115 | posts all chunks of all connections; no credit is missing and no key repeats |
| BuilderUnits.BuilderUnit.constructor | bu/builder_unit.cpp:90-122 | a unit whose connections have exactly their chunks posted, each for its whole length, and nothing queued |
| BuilderUnits.BuilderUnit.ReadData | bu/builder_unit.cpp:31-43 | appends the reported fragments to one queue |
| BuilderUnits.BuilderUnit.CheckData | bu/builder_unit.cpp:45-71 | true if and only if all headers at the front carry the id of the first and none is empty |
| BuilderUnits.BuilderUnit.ReleaseData | bu/builder_unit.cpp:73-88 | takes n fragments off the front of one queue, posts exactly their chunks in addition and returns n times the length of a chunk |
| BuilderUnits.BuilderUnit.ReadAll | bu/builder_unit.cpp:138-152 | reads all connections; the result is the number of complete rows, at most credits |
| BuilderUnits.BuilderUnit.Iterate | bu/builder_unit.cpp:138-169 | one turn of the loop: fragments come in, and all complete rows, counted by the lengths of the queues, are built if and only if the check of the front row succeeds |
| Protocol.StepKeepsInv | ru/readout_unit.cpp:76-134 | every step of the system keeps the invariant that couples units, channels and receive buffers |
| Protocol.RunKeepsInv | bu/builder_unit.cpp:133-169 | so the invariant holds in every state of every run |
| Protocol.StepDelivers | bu/builder_unit.cpp:31-43 | a delivery delivers one fragment on its connection; polling, building and the steps of other connections deliver and forget none |
| Nodes.MessageIsInData | ru/accumulator.cpp:59-76 | the message of multievent t is the header in the data buffer at its address; its id depends on t only: bulk * (t mod (2 * credits + 1)) |
| Protocol.EventAgreement | bu/builder_unit.cpp:45-71 | in every reachable state all queued rows agree, in every row, and the check succeeds |
| Protocol.CheckNeverFails | bu/builder_unit.cpp:154-157 | the error that ends the program cannot occur |
| Protocol.HeldBound | bu/builder_unit.cpp:113-115 | a connection holds at most credits fragments, and that many exactly when nothing is posted |
| Protocol.BoundedSkew | transport/libfabric/socket.cpp:154-158 | two RUs' sends to the same BU differ by at most 2 * credits |
| Progress.NoDeadlock | ru/readout_unit.cpp:83-134 | with n <= 2 * credits every reachable state has an enabled step |
| Progress.EveryBuilderAdvances | bu/builder_unit.cpp:138-169 | every run longer than an explicit bound has built the given number of rows at every BU, without fairness |
| Progress.LastBuilderStarves | ru/readout_unit.cpp:86-91 | with n > 2 * credits only RU n-1 can send to BU n-1, so no row is built there and runs are bounded |
| Progress.RunsForEver | main.cpp:177-184 | runs of every length exist if and only if n <= 2 * credits |
| ReadoutUnits.RoundIsDetermined | ru/readout_unit.cpp:76-134 | clock readings and reported completions determine a turn: what is acquired, whether something is sent, and the state after it |
| Turns.RoundPerforms | ru/readout_unit.cpp:76-134 | a turn of an RU is a sequence of steps of the system: one for each acquisition, one for all completions, one for a send |
| Turns.TurnMoves | ru/readout_unit.cpp:76-134 | if some step of an RU is possible, the clock is due and its arrived sends are reported, its turn takes a step |
| Turns.NoStandstill | ru/readout_unit.cpp:76-134 | with n <= 2 * credits a message can be delivered or some unit has a step to take |
| Turns.ReadoutTurn | ru/readout_unit.cpp:76-134 | the same of the class that models the program: what it acquires, completes and sends is determined, it is that many steps of the system, and it takes one if one is possible |
| BuilderTurns.TurnPerforms | bu/builder_unit.cpp:133-169 | a turn of a BU is a sequence of steps of the system: all that is reported is polled, all rows that are complete then are built, the check succeeds, and queues and memory stay those of the system |
| BuilderTurns.BuilderMoves | bu/builder_unit.cpp:138-169 | if some step of a BU is possible and its arrivals are reported, its turn takes a step |
| BuilderTurns.BuilderTurn | bu/builder_unit.cpp:133-169 | the same of the class that models the program: the rows built are the smallest queue after polling, at most credits, and the queues are what is left |
| BuilderTurns.DeliverPreserves | bu/builder_unit.cpp:111-115 | a delivery into a posted chunk leaves the queues and all headers in use as they are, on all connections |
| Nodes.MakeReadoutUnit | main.cpp:162-215 | with the sizes of the program each part gets what it asks for, whatever lengths are drawn; the unit is in order if and only if the payloads are suitable |
| Nodes.MakeBuilderUnit | bu/builder_unit.cpp:11-29 | the memory has exactly room for the chunks of all connections |
| Nodes.SetupIsValid | main.cpp:162-213 | n nodes set up this way are a valid system if and only if the payloads of all of them are suitable |
| Launches.Launch | main.cpp:162-226 | all nodes are constructed and connected, whatever lengths are drawn; no two units share an object and none owns a data buffer; they are in the initial state of the system, with data buffers that hold what will be sent, if and only if all payloads are suitable |
| Launches.StandstillExample | main.cpp:177-184 | three nodes with one credit start up, and every run of theirs is bounded |
| Systems.RuTurn | ru/readout_unit.cpp:76-134 | whatever has happened before, a turn of any RU continues the run by its steps and leaves all units in agreement with the last state and the data buffers as they were |
| Systems.BuTurn | bu/builder_unit.cpp:133-169 | so does a turn of any BU; its check succeeds |
| Systems.NetworkDelivers | bu/builder_unit.cpp:111-115 | so does a delivery of the oldest message of a connection into any posted chunk |
| Networks.KeepsGoing | main.cpp:225-226 | with n <= 2 * credits the clock and the network can always offer a delivery, or a turn of a unit that has something to do, with reports that are exact |
| Networks.Proceed | main.cpp:225-226 | every such event makes the run of the program longer |
| Networks.BuildsRows | bu/builder_unit.cpp:138-169 | a running program that has taken more steps than an explicit bound has built the rows at every BU |
| SafeStr.Strncpy | launcher/hydra-simple/safestr2.c:55-81 | copies the longest prefix that fits with its null, writes nothing else, and returns 0 exactly when all fits |
| SafeStr.CopiedString | launcher/hydra-simple/safestr2.c:55-81 | what is copied is a string again |
| SafeStr.Strnapp | launcher/hydra-simple/safestr2.c:103-133 | the whole array afterwards, for every n, and exactly when success is reported |
| SafeStr.AppendMeetsDescription | launcher/hydra-simple/safestr2.c:84-133 | for every n above the length of the destination, what is left in the array is the promised result if and only if the source fits or the destination is full already |
| SafeStr.AppendExample | launcher/hydra-simple/safestr2.c:103-133 | "xy" appended to "ab" in four characters leaves "ab", where "abx" is promised |
| LineReaders.Descriptor.Read | launcher/hydra-simple/simple_pmiutil.c:139-141 | interrupts leave no trace in the stream |
| LineReaders.LineReader.ReadLine | launcher/hydra-simple/simple_pmiutil.c:112-172 | returns the text through the first newline, or what fits, or what is left; read-ahead and unread bytes hold exactly the rest; -1 for an error without data or a foreign descriptor |
| LineReaders.PortionsDoNotMatter | launcher/hydra-simple/simple_pmiutil.c:136-158 | however a text is divided and interrupted, the stream is the text |
| LineReaders.NextLineCases | launcher/hydra-simple/simple_pmiutil.c:135-172 | what ends a line of any stream: the room, a newline, the end of file or an error; an error is reported only if nothing was read before it |
| LineReaders.NextLineOfText | launcher/hydra-simple/simple_pmiutil.c:135-165 | the next line of a text ends at the first newline, the limit or the end |
| LineReaders.LinesAreTheText | launcher/hydra-simple/simple_pmiutil.c:112-172 | the lines of a text, one after the other, are the text, for every limit |
| LineReaders.LinesRoundTrip | launcher/hydra-simple/simple_pmiutil.c:112-172 | lines that fit come back as they were written |
| KeyVals.Table.ParseLine | launcher/hydra-simple/simple_pmiutil.c:206-260 | for every line: a write leaves the table, one array of 64 entries of 32 and 1024 characters, if and only if some pair has no entry or the null behind its uncut value falls behind the last entry; otherwise return code, pairs kept and overwritten line are those of the specification, in place |
| KeyVals.Table.Store | launcher/hydra-simple/simple_pmiutil.c:237-254 | copying the tail of the line and ending it afterwards, possibly in a later entry, keeps the key and the value, each cut to its room; the entries before stay |
| KeyVals.Table.GetVal | launcher/hydra-simple/simple_pmiutil.c:269-285 | the value of the first pair with the key is copied, cut to the room, and is the result if it fits with its null; without any room nothing is copied and success is reported |
| KeyVals.Table.ChgVal | launcher/hydra-simple/simple_pmiutil.c:287-297 | replaces the value of every pair with the key, cut to 1022 characters, and nothing else |
| KeyVals.LongValue | launcher/hydra-simple/simple_pmiutil.c:245-254 | for a value alone on its line: it is cut to 1023 characters, and the write behind it stays in the table if and only if it is shorter than 64 * 1056 - 32 |
| KeyVals.ShortLines | launcher/hydra-simple/simple_pmiutil.c:206-260 | a line below 1024 characters stays inside the table if and only if it has at most 64 pairs |
| KeyVals.TooManyPairs | launcher/hydra-simple/simple_pmiutil.c:206-260 | a line of 195 characters that does not |
| KeyVals.ParsedPrint | launcher/hydra-simple/simple_pmiutil.c:206-260 | printed pairs of any length are parsed in order, values with '=' included |
| KeyVals.KeptPrint | launcher/hydra-simple/simple_pmiutil.c:206-260 | the table keeps printed pairs as they are if and only if all keys have at most 31 and all values at most 1023 characters |
| KeyVals.KeptOf | launcher/hydra-simple/simple_pmiutil.c:240-246 | a longer key is cut to 31 characters and a longer value to 1023 |
| KeyVals.PrintedIsStored | launcher/hydra-simple/simple_pmiutil.c:206-285 | at most 64 printed pairs with keys below 32 and values below 1024 characters are parsed with code 0, stored without a write outside the table and as they are, and every key is found at its first pair |
| KeyVals.MaxesExample | launcher/hydra-simple/simple_pmi.c:775-778 | the line "cmd=maxes kvsname_max=256" is stored as its two pairs and "kvsname_max" is found |
| LineWords.ParseByWords | launcher/hydra-simple/simple_pmiutil.c:206-260 | for every line: parsing succeeds if and only if every word before the first newline has a "=" behind at least one character, and what is found are the words up to the first that does not, each divided at its first "=" |
| KeyVals.StoredIsClean | launcher/hydra-simple/simple_pmiutil.c:206-260 | whatever a line holds, what is kept has proper keys and values that fit |
| KeyVals.NormalForm | launcher/hydra-simple/simple_pmiutil.c:206-260 | parsing what was parsed and printed changes nothing, after errors too |
| KeyVals.FindAfterChange | launcher/hydra-simple/simple_pmiutil.c:269-297 | a change is seen by look-ups of the key and by no others |
| KeyVals.LookUpMeans | launcher/hydra-simple/simple_pmiutil.c:269-285 | what a look-up leaves: the value of the first pair with the key if it fits, the front of it if not, and the empty string for a missing key |
| Messages.MessageRoundTrip | launcher/hydra-simple/simple_pmiutil.c:112-260 | a printed message that arrives in any portions is read as one line and parsed to its pairs, and what follows it stays for the next call |
| Messages.ReadLinesFit | launcher/hydra-simple/simple_pmi.c:189-195 | a line read into the program's buffer stays inside the table if and only if it has at most 64 pairs |
| Clients.CheckAnswer | launcher/hydra-simple/simple_pmi.c:824-840 | succeeds if and only if the first "cmd" in the table is the one expected and, if asked for, there is no "rc" or the first is "0" |
| Clients.GetResponse | launcher/hydra-simple/simple_pmi.c:798-844 | whatever the process manager answers: the next line of the stream is taken off it and decides what is returned, what is in the table, and whether a write leaves the table |
| Clients.PrintedAnswer | launcher/hydra-simple/simple_pmi.c:798-844 | an answer printed from at most 64 pairs with keys below 32 characters, in any portions, is accepted if and only if its first "cmd" and "rc" are as they should be, and its pairs are in the table |

## Left out

- KeyVals.Table.ParseLine: stops at the first pair with a write outside the table; what the program does after it is not defined. A null that lands in another entry is a write inside the table.
- KeyVals.Table.GetVal: takes the room as a natural number; a negative one becomes a huge size in the program.
- Clients.GetResponse: the writing of the request is not modelled, its result is a parameter; nothing is logged.
- SafeStr.Strncpy: the size is not truncated to a 32-bit integer as the program's loop counter is.
- LineReaders.LineReader.ReadLine: asks for at least one character of room in the caller's array, into which the program always writes a null.
- Generators.Generator.constructor: payload bytes are not modelled, only the header at the start of each event; the draws of the length generator are an arbitrary sequence, within its maximum where that matters.
- Controllers.Controller.Read: the clock is a parameter; its floating-point product with the frequency and the sleep are not modelled.
- Sockets.Socket.PostSend: errors of the transport libraries and memory registration are not modelled; both transports keep the same tables.
- BuilderUnits.BuilderUnit.ReleaseData: the length returned is an unbounded sum; the program adds in a 32-bit integer.
- Fixed-width integers: sizes, ids and lengths are mathematical integers.
- Connection set-up, process launching, logging, frequency meters and configuration files are input, output and measurement.
- The two threads of a node share no variable apart from the network, so they are separate units of the system.
- PMIU_writeline and the printing of diagnostics are output.
