# Pizzeria seat broker

This is a Dafny model of the seat-allocation broker of a pizzeria simulation. The broker keeps
an inventory of tables. It seats customer groups first-fit; a table may be shared only by
groups of the same size. It gives seats back when a group leaves, and it closes while a fire
alarm is raised. The broker exists in two versions, and the model covers both:

- `src/manager.py` is the FIFO broker. It reads text records `<fifo>:<VERB> a b` from a
  named pipe and writes `LEAVE`/`SEATED`/`REJECTED` lines back. Releases are clamped at zero.
  When the fire clears, it rebuilds the inventory and reopens. It keeps accepted, rejected
  and table-usage counters and a profit total at a random 10..25 per person.
- `src/main.py` is the older queue broker. Messages are `(type, data)` tuples on one shared
  queue. Seating reports `(table id, seats before, seats after)`. Releases are not clamped,
  profit is a fixed 10 per person, and after a fire the broker closes for good.

Files:

- `config.dfy` (module `Config`) holds the constants:
  - the table counts (`src/config.py:8-13`). `src/main.py:14-19` keeps its own copy of
    the same counts, with equal values, so both brokers build from `Config.TableCounts`;
  - the capacities and group sizes the FIFO broker counts (`src/manager.py:33-35`);
  - the FIFO broker's price range (`src/manager.py:175`);
  - the queue broker's fixed price (`src/main.py:108`);
  - the longest numeral Python's `int()` and `str()` convert.
- `inventory.dfy` (module `Inventory`) holds what both brokers share:
  - the inventory layout and the table-building loop;
  - the table invariants;
  - first-fit seating;
  - lookup of a table by id.
- `wire.dfy` (module `Wire`) covers the FIFO broker's text protocol:
  - Python's `strip()`, `split()` and `split(":", 1)`;
  - `int()` and `str()` on integers;
  - record parsing and reply rendering.
- `fifo_broker.dfy` (module `FifoBroker`) is the FIFO broker:
  - the clamped release;
  - the broker state;
  - one record (`Handle`), one loop iteration (`Iteration`) and the whole loop (`Run`);
  - the class `Broker`, whose methods update the state in place and are each proved
    equal to those functions.
- `queue_broker.dfy` (module `QueueBroker`) is the queue broker, built the same way: the
  functions `HandleMsg` and `Drained`, plus a class `Broker`.

Both brokers keep their inventory as one sequence of tables in creation order. The
configured counts are listed in ascending capacity, so this order is exactly the order in
which the source scans the tables: `sorted(tables.keys())`, then each capacity's list in turn.

The environment is given as inputs:

- the fire flag, at each read that decides what the broker does:
  - in the FIFO broker, the two checks at the top of each iteration (`src/manager.py:99,
    113`) and the check before each SEATED or REJECTED reply (`src/manager.py:196, 217`);
  - in the queue broker, the check on each seat request (`src/main.py:98`) and the check
    after the queue is drained (`src/main.py:141`, the `fireAfter` input of `Cycle`).

  The reads inside the write-retry loops (`src/manager.py:205, 226`) are left out with
  those loops;
- the line read from the FIFO (empty when nothing is there);
- the random price;
- the queue's contents.

## Model

| member | source | states |
|---|---|---|
| Inventory.BuildTables | src/manager.py:44-56 | the table-building loop with its running id counter produces exactly the reference layout of the configured counts |
| Inventory.Layout | src/manager.py:44-56 | definition: the runs of each configured capacity in configuration order, ids counted up from the first id |
| Inventory.InitialTables | src/manager.py:58 | definition: the layout of the configured counts with ids from 1, which the broker builds at start-up and again on reopening |
| Inventory.LayoutFresh | src/manager.py:44-56 | a fresh layout has one table per configured seat group, ids consecutive from the first id in configuration order, every table empty and untagged |
| Inventory.InitialTablesExplicit | src/config.py:8-13 | the configured inventory is the eight tables with ids 1..8, two of each capacity 1..4, all empty and untagged |
| Inventory.InitialTablesShape | src/manager.py:44-56 | the initial inventory has ids i+1, capacity rising by one every two tables, is sorted by capacity, has unique ids and satisfies the table invariant |
| Inventory.FirstFit | src/manager.py:63-70 | the index returned is of a table that accepts the group, no earlier table accepts it, and None means no table accepts it |
| Inventory.Fits | src/manager.py:64-70 | definition: a table accepts a group when its capacity is at least the group size, it is untagged or tagged with that size, and it has that many free seats; the queue broker's test at `src/main.py:53-58` is the same |
| Inventory.Occupy | src/manager.py:68-75 | definition: the seats grow by the group size and an untagged table takes the group's size as its tag |
| Inventory.SeatTables | src/manager.py:61-78 | definition: the first-fit table is occupied, and nothing changes when no table fits |
| Inventory.SeatEffect | src/manager.py:68-77 | the chosen table has capacity at least g and is untagged or tagged g; its seats grow by exactly g and stay within capacity; it ends up tagged g; no other table changes; with no fit nothing changes |
| Inventory.FirstFitOrder | src/manager.py:63-70 | over capacity-sorted tables the chosen table has the smallest capacity among all tables that accept the group and is the earliest of that capacity |
| Inventory.OversizeNeverFits | src/manager.py:63-64 | a group larger than every capacity finds no table and seating changes nothing |
| Inventory.SeatKeepsConsistent | src/manager.py:68-75 | seating a group of at least one person keeps 0 <= used <= capacity, tagged exactly when occupied, and every tag a size of at least 1, at every table |
| Inventory.ZeroGroupTagsEmptyTable | src/manager.py:152 | a group of size 0, which nothing rejects, tags an empty table without occupying a seat and breaks the tag invariant |
| Inventory.TableSizesAreCapacities | src/manager.py:35 | the capacities the usage counter is keyed by are exactly the capacities of the configured tables |
| Inventory.IndexOfId | src/manager.py:232-234 | the index returned is the first table with that id, and None means no table has it |
| Inventory.IndexOfOwnId | src/manager.py:232-234 | with unique ids, looking up a table's own id finds that table |
| Wire.TrimLeft | src/manager.py:132 | the result is a suffix of the input that does not start with whitespace, and only whitespace is removed |
| Wire.TrimRight | src/manager.py:132 | the result is a prefix of the input that does not end with whitespace, and only whitespace is removed |
| Wire.Strip | src/manager.py:132 | definition: `strip()` as trimming both ends |
| Wire.WordLen | src/manager.py:143 | the length of the leading whitespace-free run: every character before it is non-whitespace and the one after it is whitespace |
| Wire.Tokens | src/manager.py:143 | definition: `split()` as the maximal whitespace-free runs, in order |
| Wire.SplitAtColon | src/manager.py:138-141 | a split puts the text before the first colon on the left and the rest on the right; None means the line has no colon |
| Wire.ParseInt | src/manager.py:152 | int() accepts only a token shaped like a numeral: a sign or digit first, a digit last, only digits and single underscores after the first character; a negative result comes only from a leading minus; a numeral of more than 4300 digits is refused; a plain digit string within the limit is read as its decimal value |
| Wire.Printable | src/manager.py:187-190 | definition: `str(n)` succeeds exactly when n has at most 4300 decimal digits |
| Wire.FormatNat | src/manager.py:201 | definition: the decimal digits of a natural number, most significant first, as `str()` writes them |
| Wire.FormatInt | src/manager.py:201 | definition: `str()` of an integer, a minus sign before the digits of a negative one |
| Wire.PrintableBelow | src/manager.py:187-190 | every integer whose magnitude is below 10^k, for k from 1 to 4300, can be printed |
| Wire.FormatNatDigits | src/manager.py:201 | a rendered natural number is a digit string whose value is the number |
| Wire.FormatIntWord | src/manager.py:201 | a rendered integer is one non-empty token with no whitespace or colon |
| Wire.IntRoundTrip | src/manager.py:230-231 | int(str(n)) == n for every integer n of at most 4300 digits (beyond that `str()` itself raises) |
| Wire.TokensOfWord | src/manager.py:143 | a word followed by whitespace or the end splits off as one token |
| Wire.TokensSkipSpace | src/manager.py:143 | split() skips a leading space |
| Wire.TokensOfThree | src/manager.py:143-147 | three space-separated words, optionally followed by a newline, split into exactly those three tokens |
| Wire.StripLine | src/manager.py:132 | strip() of a line with content and a trailing newline gives the content |
| Wire.StripWord | src/manager.py:149 | strip() leaves a whitespace-free word unchanged |
| Wire.ColonSplit | src/manager.py:138 | splitting address:rest at the first colon gives back the address and rest when the address has no colon |
| Wire.AddressedLine | src/manager.py:132 | strip() of an address, a colon, a message and a newline gives back address:message when the address has no whitespace and the message does not end with any |
| Wire.RecordStrip | src/manager.py:132 | strip() of a record line as a customer writes it removes exactly the trailing newline |
| Wire.FieldTokens | src/manager.py:143 | split() of a verb and two fields joined by single spaces gives exactly those three tokens |
| Wire.RecordFields | src/manager.py:132-149 | a record line strips to its content, splits into its address and message, and the message into verb and two fields |
| Wire.RecordParsed | src/manager.py:132-153 | a well-formed record line is read from its stripped address and its three tokens alone |
| Wire.RecordLine | src/customer.py:40 | definition: `<fifo>:<verb> <a> <b>` and a newline, the form of both customer lines (`src/customer.py:40` and `75`) |
| Wire.Render | src/manager.py:161-222 | definition: the LEAVE, SEATED and REJECTED lines the broker writes (`src/manager.py:161, 201, 222`), with the size and table id rendered by `str()` |
| Wire.ParseRecord | src/manager.py:131-149 | definition: strip the line, split it at the first colon, split the message into tokens, and skip blank, unaddressed and incomplete lines |
| Wire.ParseFields | src/manager.py:150-251 | definition: dispatch on the verb; REQUEST_SEAT reads its size with `int()`, CUSTOMER_DONE reads size and table id with `int()`, any refusal is an unparsable number, any other verb is unknown |
| Wire.RequestRoundTrip | src/customer.py:40 | the REQUEST_SEAT line a customer writes parses back to a request with the same address, size and customer |
| Wire.RequestParsed | src/manager.py:151-153 | a REQUEST_SEAT record whose size field parses as g is read as a request for g seats |
| Wire.DoneParsed | src/manager.py:229-231 | a CUSTOMER_DONE record whose two fields parse is read as a release of that size at that table |
| Wire.DoneRoundTrip | src/manager.py:201 | the SEATED reply's third token is the table id, and the CUSTOMER_DONE line a customer builds from it parses back to the same size and table |
| Wire.NonNumericSize | src/manager.py:152 | a request whose size field is not shaped like a numeral (a sign or digit first, a digit last, only digits and underscores between) is read as an unparsable number |
| Wire.UnreadableSize | src/manager.py:152 | a request whose size field `int()` refuses is read as an unparsable number |
| Wire.LongNumeralRefused | src/manager.py:152 | `int()` refuses a numeral of more than 4300 digits, with or without a sign |
| Wire.LongSizeRefused | src/manager.py:152 | a request whose size field has more than 4300 digits is read as an unparsable number |
| Wire.NoColonSkipped | src/manager.py:134-141 | a line without a colon is skipped as blank or unaddressed |
| Wire.FewTokensSkipped | src/manager.py:132-146 | every line `a:b` whose address has no colon and whose message splits into fewer than three tokens is skipped as incomplete, whatever whitespace surrounds either part |
| FifoBroker.ReleaseEffect | src/manager.py:230-249 | a release subtracts k from the table with that id and clamps at 0; the tag is cleared when the count reaches 0 and kept otherwise; no other table changes; an unknown id changes nothing |
| FifoBroker.Vacate | src/manager.py:237-244 | definition: k seats given back, clamped at 0, and the tag cleared when the table is empty |
| FifoBroker.ReleaseTables | src/manager.py:229-249 | definition: the table with the id is vacated, and an unknown id changes nothing |
| FifoBroker.ReleaseKeepsConsistent | src/manager.py:239-244 | releasing a non-negative number of seats keeps every table within capacity, tagged exactly when occupied, and every tag a size of at least 1 |
| FifoBroker.SeatReleaseRoundTrip | src/manager.py:61-78 | seating g and then releasing g at the table it got restores the inventory exactly, for every group size, including the 0 and negative sizes nothing rejects |
| FifoBroker.ReleaseShape | src/manager.py:232-249 | a release never changes which tables exist or their capacities |
| FifoBroker.Zeros | src/manager.py:33-35 | a fresh counter map has exactly the configured keys, all zero |
| FifoBroker.InitialState | src/manager.py:29-58 | definition: open, the initial inventory, the accepted and rejected counters keyed by sizes 1-3 and the usage counter keyed by capacities 1-4, all zero, and no profit |
| FifoBroker.Bump | src/manager.py:182-183 | definition: one more for a tracked key, and an untracked key changes nothing; the rejected counter at `src/manager.py:213-214` uses it too |
| FifoBroker.ClosedRequestLeaves | src/manager.py:155-168 | while closed, a request is answered LEAVE with its size and customer, and tables, counters and profit are untouched |
| FifoBroker.Handle | src/manager.py:150-251 | definition: a request is answered, a CUSTOMER_DONE releases, an unknown verb and a skipped line change nothing, and an unparsable number ends the loop |
| FifoBroker.Answer | src/manager.py:155-227 | definition: LEAVE while closed, else seat first-fit, else count a rejection and answer REJECTED unless the fire flag ends the loop |
| FifoBroker.SeatAt | src/manager.py:170-206 | definition: seat, charge and count the group; a capacity with no usage counter raises, and the outcome is that of the log line, the fire check and the SEATED reply |
| FifoBroker.SeatedOutcome | src/manager.py:187-206 | definition: the log line raises when the group profit or the new total has more than 4300 digits; then the fire check ends the loop; otherwise the reply is SEATED |
| FifoBroker.ModestProfitSeats | src/manager.py:187-206 | a seated group whose profit and new total stay below 10^k, for k up to 4300, is answered SEATED unless the fire flag ends the loop |
| FifoBroker.OpenRequestCounted | src/manager.py:170-227 | while open, a request adds one to accepted or rejected for its size and to no other size; on success the chosen table's capacity gets one more use, profit grows by size times price and the reply is SEATED with the first-fit table, or the loop ends if the log line's `str()` raises or the fire flag is seen; on failure tables, usage and profit are unchanged and the reply is REJECTED or the loop ends |
| FifoBroker.SeatedRequest | src/manager.py:170-206 | while open, a request that finds a table never hits a missing usage counter: the group is seated first-fit and counted as accepted, that capacity gets one more use, profit grows by size times price, and the loop ends with an exception when the group profit or the new total has more than 4300 digits, else with the fire flag, else the reply is SEATED with that table; rejections and the open flag are unchanged |
| FifoBroker.RejectedRequest | src/manager.py:207-227 | while open, a request that finds no table changes only the rejected counter and is answered REJECTED unless the fire flag ends the loop |
| FifoBroker.CapacitiesCounted | src/manager.py:185 | every table of a well-formed broker has a capacity that the usage counters track, so the usage update never raises |
| FifoBroker.OversizeRejected | src/manager.py:207-222 | while open, a group larger than every counted capacity is rejected, counted and changes no table |
| FifoBroker.SeatedProfitBounds | src/manager.py:175-176 | with a price from 10 to 25, a seated group adds between 10 and 25 per person to profit |
| FifoBroker.IgnoredRecordsChangeNothing | src/manager.py:134-152 | blank, unaddressed and incomplete lines and unknown verbs change nothing and the loop goes on; an unparsable number changes nothing and ends the loop through the exception handler |
| FifoBroker.HandleKeepsInvariants | src/manager.py:151-251 | handling any record keeps the configured table ids and capacities and the counter keys, and with in-range sizes keeps every table consistent |
| FifoBroker.RequestKeepsInvariants | src/manager.py:151-227 | a seat request keeps the configured shape and counter keys, and a group of at least one person keeps every table consistent |
| FifoBroker.ChecksKeepInvariants | src/manager.py:99-124 | the fire and reopen checks keep the configured shape and table consistency |
| FifoBroker.FireCheck | src/manager.py:99-109 | definition: a raised fire flag closes the broker, and otherwise nothing changes |
| FifoBroker.ClearCheck | src/manager.py:113-124 | definition: a cleared flag on a closed broker rebuilds the initial inventory and reopens it, and otherwise nothing changes |
| FifoBroker.Iteration | src/manager.py:98-251 | definition: the fire check, then the reopen check, then the record parsed from the line read |
| FifoBroker.IterationKeepsInvariants | src/manager.py:98-251 | one loop iteration keeps the configured shape and, with in-range sizes, table consistency |
| FifoBroker.EvacuationScenario | src/manager.py:99-124 | a raised flag closes the broker and raising it again changes nothing; while closed, requests get LEAVE and change nothing; when the flag clears, the tables are the initial, empty, untagged inventory, the broker is open, and the counters and profit are kept |
| FifoBroker.Run | src/manager.py:98-271 | definition: iterations in order until one ends the loop or the inputs run out, collecting the replies |
| FifoBroker.RunKeepsInvariants | src/manager.py:98-251 | over any sequence of loop iterations the configured shape holds, and with in-range sizes every table stays consistent (within capacity, tagged exactly when occupied, every tag at least 1) |
| FifoBroker.AfterKeepsInvariants | src/manager.py:98-251 | what remains of the loop after an iteration keeps the configured shape and, with in-range sizes, table consistency |
| FifoBroker.RunExtendsReplies | src/manager.py:98-251 | the loop only adds to the replies already sent |
| FifoBroker.AfterExtendsReplies | src/manager.py:98-251 | what remains of the loop after an iteration only adds to the replies already sent |
| FifoBroker.Broker.constructor | src/manager.py:29-58 | a new broker is open, with the initial inventory, all counters zero and no profit |
| FifoBroker.Broker.Seat | src/manager.py:61-78 | the in-place first-fit loop leaves the tables as the seating function says and returns the chosen table as updated, or None |
| FifoBroker.Broker.Release | src/manager.py:229-249 | the in-place release loop leaves the tables as the clamped release function says |
| FifoBroker.Broker.ObserveFire | src/manager.py:99-109 | the fire check closes the broker when the flag is set and otherwise changes nothing |
| FifoBroker.Broker.ObserveClear | src/manager.py:113-124 | the reopen check rebuilds the inventory and opens the broker when the flag is clear and the broker is closed |
| FifoBroker.Broker.HandleRecord | src/manager.py:132-251 | parsing and handling a line keeps the broker well formed and has the effect and outcome the record semantics give |
| FifoBroker.Broker.Dispatch | src/manager.py:151-251 | acting on a parsed record has the effect and outcome the record semantics give |
| FifoBroker.Broker.Request | src/manager.py:151-227 | a REQUEST_SEAT updates tables, counters and profit and answers as the record semantics give |
| FifoBroker.Broker.Iterate | src/manager.py:98-251 | one loop iteration keeps the broker well formed and matches the iteration function |
| FifoBroker.Broker.Serve | src/manager.py:98-271 | the broker loop keeps the broker well formed; its replies, final state and way of ending are those of the loop function |
| QueueBroker.SeatReport | src/main.py:50-66 | a report exists exactly when some table accepts the group; it names the first-fit table, after == before + group size, and after stays within capacity |
| QueueBroker.Vacate | src/main.py:132-134 | definition: k seats given back with no clamp, and the tag cleared only at exactly 0 |
| QueueBroker.ReleaseTables | src/main.py:122-135 | definition: the table with the id is vacated, and an unknown id changes nothing |
| QueueBroker.HandleMsg | src/main.py:94-138 | definition: under fire a request is answered LEAVE; otherwise it is seated first-fit for 10 per person or rejected; a CUSTOMER_DONE releases; anything else is ignored |
| QueueBroker.Drained | src/main.py:87-138 | definition: the messages handled in queue order, with the replies collected |
| QueueBroker.FireRequestLeaves | src/main.py:96-102 | while the fire flag is set a request is answered LEAVE and tables and profit are untouched |
| QueueBroker.RequestProfit | src/main.py:104-120 | a seated group adds exactly 10 per person to profit and is answered SEATED; a rejected one leaves tables and profit unchanged and is answered REJECTED |
| QueueBroker.ReleaseEffect | src/main.py:122-135 | a release subtracts k with no clamp; the tag is cleared exactly when the count becomes 0 and kept otherwise; no other table changes; an unknown id changes nothing |
| QueueBroker.ReleaseCanGoNegative | src/main.py:132-134 | releasing more seats than are in use drives the count below zero, keeps the tag and breaks the table invariant |
| QueueBroker.UnknownTableIgnored | src/main.py:126-135 | a release naming table 9999, the id customers send, changes no table of the configured inventory |
| QueueBroker.SeatReleaseRoundTrip | src/main.py:50-135 | seating g and releasing g at the reported table restores the inventory, for every group size, including the 0 and negative sizes nothing rejects |
| QueueBroker.FireBatchEarnsNothing | src/main.py:87-102 | a queue drained while the fire flag stays set adds nothing to profit |
| QueueBroker.ProfitNeverFalls | src/main.py:104-109 | with no negative group sizes, profit never falls while the queue is drained |
| QueueBroker.OneReplyPerRequest | src/main.py:87-138 | draining the queue puts exactly one reply per seat request on the queue and none for other messages |
| QueueBroker.RequestsAppend | src/main.py:96 | the count of seat requests grows by one exactly when a seat request is appended |
| QueueBroker.Broker.constructor | src/main.py:31-47 | a new broker has the configured inventory and no profit |
| QueueBroker.Broker.Seat | src/main.py:50-66 | the in-place first-fit loop leaves the tables as the seating function says and returns the (id, before, after) report |
| QueueBroker.Broker.Release | src/main.py:122-135 | the in-place release loop leaves the tables as the unclamped release function says |
| QueueBroker.Broker.Handle | src/main.py:94-138 | handling one queue message has the effect and reply the message semantics give |
| QueueBroker.Broker.Drain | src/main.py:87-138 | emptying the queue handles every message in order and collects the replies, as the batch function says |
| QueueBroker.Broker.Cycle | src/main.py:84-143 | one pass drains the queue and then signals a permanent close exactly when the fire flag is set |

## Left out

- FIFO creation, opening, reading and writing, and the retry-until-written loops
  (`src/manager.py:83-95, 157-166, 198-206, 219-227`) are OS I/O. A reply is modelled as
  the (fifo name, reply) value the broker would write. When a write gives up because the
  fire or close flag was raised, the model still counts the reply as sent.
- `random.randint(10, 25)` is a parameter of each iteration. Its bounds are used only in
  `FifoBroker.SeatedProfitBounds`.
- The close event is not a flag. The FIFO broker's loop runs over a finite sequence of
  iteration inputs, and running out of them stands for the close event.
- GUI queue messages, printing, the statistics file and timestamps are output only and are
  left out (`src/manager.py:102-107, 118-121, 179, 193, 247, 272-298`). So are
  `setproctitle` and the closing of the FIFO. The one print that changes what the FIFO
  broker does is the SEATED log line (`src/manager.py:187-190`): it converts the group
  profit and the new total with `str()`, which raises beyond 4300 digits, and
  `FifoBroker.SeatAt` models that. The broker's other prints inside the loop convert only
  numbers `int()` has already accepted, which `str()` always converts. The final profit
  print (`src/manager.py:260`) comes after the loop has ended, so its failure changes no
  modelled state.
- QueueBroker.HandleMsg: does not model the ValueError its prints (`src/main.py:100,
  110-114, 117, 129-131`) would raise for an integer of more than 4300 digits. The queue's
  messages come from customer processes with sizes 1 to 3. Such an exception would end the
  broker loop through the handler at `src/main.py:149-151`.
- `src/main.py`'s signal handlers, sleeps, process spawning, `customer_process`,
  `firefighter_process` and `main` (`src/main.py:69-78, 85, 142, 159-282`) are process
  orchestration.
- The `except: continue` around `queue.get_nowait()` in `src/main.py` is not modelled.
  Neither is an exception from unpacking a malformed tuple: the queue's messages are
  well-typed values here.
- The queue broker's replies go back onto the same queue it reads from. A reply it reads
  back itself is handled as an ignored `Other` message. Which process takes which message
  off the shared queue is not modelled.
- `src/customer.py`, `src/firefighter.py`, `src/gui.py`, `src/utils.py` and `src/test.py` are
  not part of this model. The only exception is the two line formats a customer writes
  (`src/customer.py:40, 75`), used in the round-trip lemmas. `src/customer.cpp`,
  `src/customer.h`, `src/table_manager.cpp` and `src/table_manager.h` are empty stubs.
- Both release loops `break` only out of the inner loop over one capacity's tables. The
  model releases at the first table with the given id. With the unique ids the inventory
  always has, this is the same.
- Wire.ParseInt: accepts ASCII digits only. Python's `int()` also accepts other Unicode
  decimal digits. Surrounding whitespace is already removed by `split()`. The 4300-digit
  limit is the default of Python 3.11 and later (`sys.set_int_max_str_digits` can change
  it). Pythons before the 3.7.14, 3.8.14, 3.9.14 and 3.10.7 security releases have no limit.
- Wire.IntRoundTrip, Wire.RequestRoundTrip, Wire.DoneRoundTrip: hold only for integers of
  at most 4300 digits. For a longer one the customer's `str()` raises before any line is
  written, so there is no round trip to model.
- Wire.IsSpace: follows the whitespace set of Python's `str.split()` and `str.strip()`
  on `str`. No normalisation or decoding of the FIFO's bytes is modelled.
- Group sizes are never range-checked by either broker, and the model keeps that. A size
  below 1 in a request, or a negative size in a release, breaks the table invariant:
  see `Inventory.ZeroGroupTagsEmptyTable` and `QueueBroker.ReleaseCanGoNegative`.
  The consistency lemmas therefore assume in-range sizes.
