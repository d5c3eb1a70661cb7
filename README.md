# Spread / order-book load generator: the partition and generation layer

The generator forks one worker per CPU. Worker 0 publishes random
"trigger" events for spreads. A spread is an ordered pair of asset letters
written `X_Y`. Every other worker publishes a fake order book for one
letter, when the asset list has a letter for it (see the edge cases
below). This project models the deterministic part of `index.js`:

- **Asset list** (`Letters`). `"abc…z".toUpperCase().split("")`, cut to
  `numCPUs - 1` entries by `Array.prototype.slice`. The slice's handling of a
  negative end is modelled too.
- **Spread universe** (`Spreads`). The nested `for` loop that pushes every
  `letterArray[i] + "_" + letterArray[j]` with `i != j`. It is a method with
  loop invariants, proved equal to the reference function `AllSpreads`. The
  lemmas show what that function is: how many entries it has, where each
  pair sits, row-major order, both directions of every pair, and no
  duplicates.
- **Role assignment** (`Worker`). `workerId = cluster.worker.id - 1`.
  Index 0 is the active-streams worker. Index `w` owns `letterArray[w - 1]`.
  That entry is JavaScript `undefined` past the end of the list, which the
  model writes as `None`.
- **Events and publish arguments** (`Events`, `Worker`).
  `generateRandomTrigger` and `generateFakeOrderbook`, with their random
  draws passed in: an index, a boolean and six bytes. Also modelled are the
  hex value, the fixed-shape JSON payloads, and the
  `(topic, partition, message, key)` records handed to `producer.produce`.
  A tick is a function. A run is the list of messages published, in tick
  order, plus the error that killed the worker, if any.
- **String helpers** (`JsStrings`). The JavaScript string operations the
  code uses: `toUpperCase` on ASCII, `split("")` and `split("_")`. Also
  `Join`, the inverse used to state the split round-trips (the code never
  joins).

The two TypeErrors the code can throw are modelled as `Failure` results:

- `allSpreads[randomIndex]` is `undefined` when the universe is empty, and
  calling `.split` on it throws.
- `Buffer.from(undefined)` throws when the key is a missing asset.

Such a throw happens inside the interval callback and is not caught, so the
worker process dies and no later tick runs.

Edge cases of the code that the model makes explicit:

- **One or two CPUs.** The universe is empty. `Math.floor(Math.random() * 0)`
  is 0, `allSpreads[0]` is `undefined`, and the trigger worker's first tick
  throws before anything is published (`ActiveStreamsRunFaults`).
- **Restarted workers.** The exit handler forks a new worker (index.js:28).
  Node gives that worker a fresh cluster id, so its index (index.js:47) is
  at least `numCPUs`. This is taken as a premise. From it, the worker is an
  order-book worker with no asset and throws on its first tick, on the
  undefined key (`ReplacementWorkerRole`, `ReplacementWorkerRun`).
- **More than 27 CPUs.** The source's comments say the remaining cores will
  each be assigned a letter (index.js:9-10, 13, 48). The asset list stops at
  "Z", so workers 27 and up have no asset (`PlanBeyondAlphabet`). Each of
  them throws on its first tick, in `Buffer.from(undefined)` on the key
  (`LetterlessWorkerRun`).
- **Order-book value.** The record is built once, on `ready` (index.js:125).
  A run is offered one six-byte draw per tick. Every message it publishes
  carries the value made from the first draw, and later draws are never used
  (`OrderbookRunRepeats`).

Planning is deterministic by construction: `LetterArray`, `AllSpreads` and
`Plan` are functions of `numCPUs` alone.

## Model

| member | source | states |
|---|---|---|
| JsStrings.UpperChar | index.js:11 | `toUpperCase` on one character: a lower-case ASCII letter moves 32 code points down to its capital, any other character is unchanged, and the result is never lower case |
| JsStrings.ToUpperCase | index.js:105 | the upper-cased string has the same length, and each character is `UpperChar` of the one at the same position |
| JsStrings.SplitChars | index.js:11 | `split("")` gives one one-character string per character, in order |
| JsStrings.Split | index.js:79-80 | `split` on a one-character separator gives at least one piece, and no piece contains the separator |
| JsStrings.JoinSplit | index.js:79-80 | joining the pieces of a split with the separator gives the original string back |
| JsStrings.SplitJoin | index.js:79-80 | splitting a join of separator-free pieces gives exactly those pieces back |
| JsStrings.SplitFirstPiece | index.js:79 | the first piece (`asset_one`) is a prefix of the string; a second piece exists exactly when the separator occurs |
| Letters.Alphabet | index.js:11 | no contract of its own; `AlphabetIsAToZ` states it is the one-letter strings "A" to "Z" in order |
| Letters.LetterArray | index.js:13-14 | no contract of its own; `LetterArrayShape`, `LetterArrayOneCpu` and `LetterArrayNoCpu` state its length and contents |
| Letters.SliceTo | index.js:14 | `slice(0, end)` keeps a prefix of length `min(end, n)` for a non-negative end and `max(n + end, 0)` for a negative one |
| Letters.AlphabetIsAToZ | index.js:11 | the upper-cased, split alphabet is the 26 one-letter strings "A" to "Z" in order |
| Letters.LetterArrayShape | index.js:11-14 | for `numCPUs >= 1` the asset list has `min(numCPUs - 1, 26)` entries, is a prefix of A-Z with entry `i` the `i`-th letter, is alphabetical and has no repeats |
| Letters.LetterArrayOneCpu | index.js:14 | with one CPU the asset list is empty |
| Letters.LetterArrayNoCpu | index.js:8-14 | if no CPU is reported, `slice(0, -1)` leaves the first 25 letters |
| Spreads.Spread | index.js:66 | no contract of its own; `SplitSpread` states that splitting it on `_` gives back its two letters |
| Spreads.AllSpreads | index.js:61-69 | no contract of its own; `BuildAllSpreads` states the loop computes it, and `AllSpreadsLength`, `AllSpreadsAt`, `AllSpreadsEntry`, `AllSpreadsDistinct` state its size, contents and order |
| Spreads.Row | index.js:64-68 | row `i` over the first `n` columns has `n - 1` entries when it passes column `i`, `n` otherwise |
| Spreads.Rows | index.js:63-69 | the first `m` rows hold `m * (k - 1)` entries |
| Spreads.BuildAllSpreads | index.js:61-69 | the nested loop leaves exactly `AllSpreads(letterArray)`; the loop invariants say which rows and columns have been pushed |
| Spreads.AllSpreadsLength | index.js:61-69 | the universe over `k` letters has exactly `k * (k - 1)` entries |
| Spreads.AllSpreadsAt | index.js:63-68 | every pair `i != j` is in the universe at position `PairIndex(k, i, j)` as `letters[i] + "_" + letters[j]` |
| Spreads.AllSpreadsEntry | index.js:63-68 | every entry of the universe is `letters[i] + "_" + letters[j]` for some `i != j` and sits at `PairIndex(k, i, j)` |
| Spreads.AllSpreadsBothDirections | index.js:63-68 | for every pair of distinct indices both `X_Y` and `Y_X` are in the universe |
| Spreads.PairIndexRowMajor | index.js:63-64 | pairs earlier in `(i, j)` lexicographic order come strictly earlier in the universe |
| Spreads.AllSpreadsDistinct | index.js:61-69 | over a well-formed asset list every spread splits into two different letters and no spread occurs twice |
| Spreads.SplitSpread | index.js:79-80 | a spread of two `_`-free strings splits on `_` into exactly those two strings |
| Hex.OrderbookValue | index.js:105 | no contract of its own; `OrderbookValueShape`, `DecodeValue` and `ValueOfDecoded` state its digits and that it is a bijection onto the strings the decoder accepts |
| Hex.ToHex | index.js:105 | `toString("hex")` writes two lower-case digits per byte, high nibble first |
| Hex.OrderbookValueShape | index.js:105 | the upper-cased hex has two characters per byte, all in `0-9A-F`, high nibble then low nibble |
| Hex.OrderbookValueOfSixBytes | index.js:105 | six random bytes give exactly twelve upper-case hex digits |
| Hex.DecodeValue | index.js:105 | decoding the value gives back the bytes it was made from |
| Hex.ValueOfDecoded | index.js:105 | every string the decoder accepts is the value of the bytes it decodes to (the converse of DecodeValue) |
| Events.GenerateRandomTrigger | index.js:71-83 | succeeds exactly when the drawn index is inside `allSpreads` and otherwise throws the `split`-of-undefined TypeError; the event carries `allSpreads[index]` and the drawn boolean; `asset_one` is a `_`-free prefix of the spread; `asset_two` is defined exactly when the spread contains `_`, and when it is not, `asset_one` is the whole spread |
| Events.TriggerFromUniverse | index.js:71-83 | over the universe of a well-formed asset list, every event has `spread == asset_one + "_" + asset_two`, with both assets different letters of the list |
| Events.TriggerFaultsOnEmptyUniverse | index.js:73-80 | with fewer than two letters the universe is empty and the tick throws |
| Events.GenerateFakeOrderbook | index.js:102-111 | the order book carries the worker's asset and a 12-digit upper-case hex value that decodes back to the six random bytes |
| Events.TriggerJson | index.js:92 | no contract of its own; `TriggerJsonInjective` states that the payload determines the event (members `spread`, `asset_one`, `asset_two` when defined, `trigger`) |
| Events.OrderbookJson | index.js:130 | no contract of its own; `OrderbookJsonInjective` states that the payload determines the record (members `asset` when defined, `value`) |
| Events.TriggerJsonInjective | index.js:92 | two trigger events with escape-free strings that serialise to the same payload are equal |
| Events.OrderbookJsonInjective | index.js:130 | two order books with escape-free strings that serialise to the same payload are equal |
| Events.GeneratedEventsArePlain | index.js:92 | every string in a generated event is a letter, a spread or hex, so `JSON.stringify` writes it without escapes |
| Worker.RoleOf | index.js:47-49 | no contract of its own; `RoleAssignment`, `PlanShape`, `PlanBeyondAlphabet` and `ReplacementWorkerRole` state which role each index gets |
| Worker.Plan | index.js:19-21 | the pool has one role per forked worker, `numCPUs` in all |
| Worker.RoleAssignment | index.js:47-49 | index 0, and no other, is the active-streams worker; index `w` in `1..k` owns `letterArray[w - 1]`; past `k` the asset is undefined |
| Worker.RoleAssetsDistinct | index.js:97-100 | over a list without repeats, different order-book workers own different assets |
| Worker.PlanShape | index.js:14-21 | for 1 to 27 CPUs, worker 0 is the only trigger worker, worker `w >= 1` owns the `w`-th letter, and every letter of the list has exactly one owner |
| Worker.PlanBeyondAlphabet | index.js:97-100 | past 27 CPUs, workers 1 to 26 own "A" to "Z" and workers 27 and up have no asset |
| Worker.ReplacementWorkerRole | index.js:22-29 | given the premise that a worker forked after an exit has index at least `numCPUs` (its cluster id is fresh, line 47), its role is an order-book stream with no asset |
| Worker.FourCpuScenario | index.js:61-69 | with four CPUs: trigger worker, then "A", "B", "C", and the universe `A_B, A_C, B_A, B_C, C_A, C_B` |
| Worker.TriggerTick | index.js:88-94 | a trigger tick publishes on the active topic with partition -1, key equal to the drawn spread and the event's JSON as message; it throws exactly when the draw misses `allSpreads` |
| Worker.OrderbookTick | index.js:127-132 | an order-book tick publishes the stored record's JSON with partition -1, keyed by the worker's asset; it throws exactly when the asset is undefined |
| Worker.OrderbookTicks | index.js:126-133 | the interval callback over a stored record publishes at most one message per tick, and one per tick unless it crashed |
| Worker.OrderbookRun | index.js:123-134 | no contract of its own; given one byte draw per tick, it builds the record from the first draw on `ready` and runs the interval over it; `OrderbookRunRepeats` states what it publishes |
| Worker.WorkerRun | index.js:47-134 | no contract of its own; `ActiveStreamsRun`, `ActiveStreamsRunFaults`, `OrderbookWorkerRun`, `LetterlessWorkerRun` and `ReplacementWorkerRun` state the run of each kind of worker: trigger worker with a non-empty or an empty universe, starting order-book workers 1 to 26, starting workers 27 and up, and replacements |
| Worker.FloorDraws | index.js:73 | no contract of its own; the index draws `Math.floor(Math.random() * n)` can give: below `n`, or 0 when `n` is 0; `ActiveStreamsRun` takes it as its premise |
| Worker.TriggerRun | index.js:87-95 | a run publishes at most one message per tick, and one per tick unless it crashed |
| Worker.TriggerRunPublishes | index.js:87-95 | with every draw inside the universe, the trigger worker never crashes and tick `t` publishes `TriggerTick` of draw `t`, keyed by `allSpreads[draws[t].index]`, partition -1 |
| Worker.TriggerRunCrashes | index.js:73-80 | a first draw outside the universe kills the worker before it publishes anything |
| Worker.OrderbookRunRepeats | index.js:123-134 | an order-book worker with an asset never crashes and publishes, on every tick, the record whose value is made from the bytes drawn on `ready` (the first draw), keyed by its asset, partition -1; later draws change nothing; without an asset its first tick throws |
| Worker.OrderbookTicksRepeat | index.js:126-133 | every tick over a stored record publishes that record's JSON, keyed by the asset, partition -1; without an asset the first tick throws |
| Worker.TriggerTickFromUniverse | index.js:88-94 | over a well-formed asset list the published key is the event's spread `asset_one + "_" + asset_two`, with two different letters of the list |
| Worker.ActiveStreamsRun | index.js:49-96 | with at least three CPUs worker 0 never crashes and publishes one message per tick to the active topic, partition -1, keyed by the drawn spread |
| Worker.ActiveStreamsRunFaults | index.js:71-94 | with one or two CPUs worker 0 crashes on its first tick without publishing |
| Worker.OrderbookWorkerRun | index.js:97-134 | order-book worker `w` (1 to 26) never crashes and publishes the same message on every tick to the order-book topic, partition -1, keyed by its letter, with the value made from the bytes drawn on `ready` |
| Worker.ReplacementWorkerRun | index.js:127-132 | a replacement worker crashes on its first tick, because its key is undefined |
| Worker.LetterlessWorkerRun | index.js:97-132 | past 27 CPUs, each starting worker 27 to `numCPUs - 1` has no asset and crashes on its first tick without publishing, on the undefined key |

## Left out

- Kafka producer plumbing (index.js:32-46, 52, 85, 113, 123): the config object, `connect`, the `ready` event and delivery. These are calls into a foreign library. `produce` appears only as the record of its four arguments.
- `cluster` fork and restart supervision (index.js:16-29): this is process concurrency. The index a replacement receives is not computed: `ReplacementWorkerRole` and `ReplacementWorkerRun` take it as a premise (`workerId >= numCPUs`).
- `setInterval` timing (index.js:87, 126): ticks are positions in a sequence. There is no wall clock, and no ordering across workers.
- `Math.random` and `crypto.randomBytes` (index.js:73, 76, 105): the drawn index and boolean, and a six-byte draw, are parameters, one of each per tick (an order-book worker uses only the first six-byte draw). Their distribution, including the uniform choice of spread, is not modelled.
- Environment and hardware (index.js:6, 8, 33-39, 50, 99): `dotenv`, the topic names and `os.cpus()` are parameters (`Config`, `numCPUs`).
- Console logging, throughout.
- Events.TriggerJson, Events.OrderbookJson: a fixed-shape serialiser for the two records with no string escaping. `GeneratedEventsArePlain` shows that every string the workers serialise needs none.
- `Buffer.from` (index.js:92-93, 130-131): messages and keys stay strings, with no UTF-8 byte encoding. Every string involved is ASCII.
- JsStrings.ToUpperCase: only ASCII letters are mapped. JavaScript's full Unicode case mapping is not modelled. The strings upper-cased here are ASCII.
- JsStrings.Split: only a one-character separator is modelled, which is the only kind the code uses.
