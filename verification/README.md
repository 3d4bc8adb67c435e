# Verified model of the automation core

This project models the parts of the system whose correctness does not show in any single function,
and proves their properties with Dafny. `dafny verify dfyconfig.toml` checks all of it.

- **Decoding messages** (`Utf8Text`, `MsgPackFormat`, `MsgPackParser`, `MsgPackRoundTrip`, `MsgPackLaws`,
  `MsgPackCache`, `MsgPackDecoder`). The script's MessagePack decoder keeps one cursor over one buffer, two
  ASCII fast paths, a hand-written UTF-8 loop and a key cache that outlives a message. `MsgPackParser` is
  decoding without cache and fast paths as functions, and `MsgPackRoundTrip` proves that it inverts an encoder
  written from the MessagePack specification (section "Formats"), section 3 of RFC 3629 and section 2.1 of
  RFC 2781. `MsgPackLaws` says what decoding gives in terms of the bytes of the wire and the texts of the
  keys alone. `MsgPackCache` is decoding with the cache and proves when the cache makes no difference; the
  class `Decoder` follows the script and is proved equal to it on every buffer.
- **Delivering cards** (`CardStock`, `CardDelivery`, `StockLedger`, `Proofs`, `OrderQuantity`). The stock
  column with its compare-and-set writes, the three senders with every port call recorded, and the ledger
  of any number of senders and edits in any interleaving. Every answer of a port is an arbitrary function
  of the call's number, so the contracts hold for every pattern of failures.
- **Completing deliveries** (`DeliveryActions`, `OrderSpec`, `ReplayPlan`, `DeliveryRefill`). The decision,
  from a frozen plan and a stored proof, whether exactly the missing units can be refilled, and the refill.
- **Leases** (`RunTable`, `RunLease`). Every statement issued against a run's row, the generations and
  expiry they keep, and the lease object with its heartbeat.
- **Order details** (`OrderDetailCoordinator`, `NulKeys`). Single flight, rate limit and success cache as a
  step system whose atomic steps are the locked sections; threads may read the clock long before they
  take the lock.
- **Account supervision** (`AccountManager`), **credential write-back** (`CredentialWriteBack`), **rating
  batches** (`AutoRate`), **price adjustment** (`PriceAdjust`), **planning** (`ActionPlanner`),
  **template substitution** (`Substitution`) and **role evidence** (`RoleEvidence`).

`GoStrings`, `Decimal`, `Options` and `Storage` hold the string functions, decimal texts and small
datatypes that the others share.

## Where a promise fails

Some properties hold only under a condition. Each is proved with that condition, and concrete inputs
show failures where the condition alone does not.

- The key cache is transparent exactly for keys whose UTF-8 decoding ends at their last byte. A short key
  cut inside a multi-byte form reads the bytes after it the first time and not the second time, so the
  same message can decode the first time and be rejected the second time (`LookUpTwice`,
  `DecodeCutKeyTwice`). A key that reaches past the end of the buffer is harmless: the buffer is rejected
  with any cache (`AllIsPlain`).
- Text of more than 64 bytes loses a leading byte order mark, shorter text does not (`Str16TextKept`,
  `ByteOrderMarkIsLost`).
- The number of cards to send is a product in 64-bit arithmetic. If it wraps to a negative number the
  senders send nothing and report success (`SendCountIsProduct`, `SendCountCanBeNegative`, `SendCard`).
- A failed take may have removed a card, and a successful one more than the card it returns; a failed restore
  may have put its card back, and a successful one may have put it back twice. This happens exactly if an
  update finds the column unchanged and takes effect, but reports an error, or its number of rows cannot be
  read, after which the loop goes on (`TakeLosesExactly`, `PutRepeatsExactly`; `LoseOnlyCard`,
  `TakeTwoForOne`, `PutBackUnnoticed`). The ledger has places for these cards (`TakeIsRun`, `PutIsRun`,
  `RunConserves`).
- A card action that stops before any unit is prepared or unknown leaves no stored proof, so its run cannot
  be completed by a refill (`StoppedSenderIsAccepted`).
- Replay counts are added in 64-bit arithmetic too: counts beyond the plan are accepted exactly when their
  sum overflows (`AcceptedUnits`, `OverflowingCountsAreAccepted`).
- The comment on the coordinator's key says that its separator cannot occur in a normalised identifier.
  Trimming does not remove a NUL character, so it can, and then two orders can share a key
  (`SharedKeysExactly`, `DifferentRequestsShareAKey`). The credential fingerprint uses the same join but is
  not affected: its second part is JSON text, which escapes NUL characters (`FingerprintIsInjective`).
- A full stop that returns without error leaves nothing registered unless a second full stop was lifted
  while it ran (`FullStopStopsAll`, `ConcurrentFullStopsMissAccounts`).
- Clearing the delays of actions replaces a configuration that is not an object, such as a stored array, by
  one that names no specification, so an action that matched nothing can start to match; the JSON null
  makes it write into a nil map (`ImmediateCommutesWithPlan`, `ArrayConfigurationStartsToMatch`,
  `ImmediateManualActions`).
- On templates whose placeholders do not open inside one another, substitution depends on map order
  exactly when a value can bring about another variable's placeholder
  (`OrderIsIrrelevantExactlyIfHarmless`, `BracesInValuesMatter`). A placeholder inside another one can
  make it depend on the order too (`NestedOrderMatters`, `NestedBracesMatter`).


## Model

| member | source | states |
|---|---|---|
| MsgPackRoundTrip.RoundTrip | frontend/public/xianyu_js_version_2.js:324-508 | decoding the encoding of any message over the handled formats gives exactly its meaning and leaves the cursor exactly at the end of the buffer |
| MsgPackRoundTrip.ParsesMessage | frontend/public/xianyu_js_version_2.js:324-508 | the same anywhere inside a larger buffer, for arbitrarily nested values |
| MsgPackRoundTrip.FieldsAreEntries | frontend/public/xianyu_js_version_2.js:310-322 | the fields of a decoded map are exactly the entries' names, the last entry of a name winning |
| MsgPackRoundTrip.DistinctFields | frontend/public/xianyu_js_version_2.js:310-322 | a map with distinct names decodes to as many fields as entries, each with its entry's value |
| MsgPackRoundTrip.Str16TextKept | frontend/public/xianyu_js_version_2.js:134-138 | text in the str16 format survives if and only if it has at most 64 bytes or does not start with a byte order mark |
| MsgPackRoundTrip.ByteOrderMarkIsLost | frontend/public/xianyu_js_version_2.js:134-138 | a concrete text that does not survive |
| MsgPackLaws.MapFields | frontend/public/xianyu_js_version_2.js:310-344 | a decoded map of any of the three formats has as fields exactly the JavaScript names of its keys, `__proto__` shortened by one character, each with the value of the last entry of that name |
| MsgPackLaws.TextMapFields | frontend/public/xianyu_js_version_2.js:310-344 | a map with different short texts as keys, none of them `__proto__`, decodes to exactly these texts, each with its entry's value |
| MsgPackLaws.Utf16IsInjective | frontend/public/xianyu_js_version_2.js:134-164 | different texts have different UTF-16 forms |
| MsgPackLaws.OneByteValues | frontend/public/xianyu_js_version_2.js:324-390 | the one-byte messages are the small numbers, null, false and true; nothing, or a tag without its byte, is an error at the end of the data |
| MsgPackLaws.UnsignedOnTheWire | frontend/public/xianyu_js_version_2.js:408-422 | unsigned integers are big-endian, and those of eight bytes are BigInts |
| MsgPackLaws.SignedOnTheWire | frontend/public/xianyu_js_version_2.js:423-439 | signed integers are big-endian in two's complement, and those of eight bytes are BigInts |
| MsgPackLaws.FloatsAndTexts | frontend/public/xianyu_js_version_2.js:358-407 | payloads of floats are kept, and fixstr and str16 bytes are read as their UTF-8 text |
| MsgPackLaws.TrailingBytesAreRejected | frontend/public/xianyu_js_version_2.js:101-132 | bytes after a message are rejected as trailing data |
| MsgPackLaws.CutMessagesAreRejected | frontend/public/xianyu_js_version_2.js:101-132 | a message that is cut anywhere is rejected: no message is the beginning of another one |
| MsgPackFormat.FromToBytes | frontend/public/xianyu_js_version_2.js:414-439 | big-endian integers of every width are read back as the number written |
| MsgPackFormat.FromBytesIsInjective | frontend/public/xianyu_js_version_2.js:45-51 | equal 32-bit words come from equal bytes |
| Utf8Text.LoopDecodesUtf8 | frontend/public/xianyu_js_version_2.js:134-164 | the general loop turns well-formed UTF-8 into the UTF-16 units of the same text, surrogate pairs included, and stops exactly at its end, whatever follows it |
| Utf8Text.LoopDecodesAscii | frontend/public/xianyu_js_version_2.js:134-164 | on ASCII bytes the general loop yields what both fast paths yield, and the same cursor |
| Utf8Text.LoopDecodeIsLocal | frontend/public/xianyu_js_version_2.js:134-164 | whether the loop ends at the last byte, and its text if it does, depend only on the bytes themselves and not on the buffer around them |
| Utf8Text.FromUtf8Inverts | frontend/public/xianyu_js_version_2.js:137-138 | strict UTF-8 decoding inverts UTF-8 encoding |
| MsgPackDecoder.Decoder.ShortAscii | frontend/public/xianyu_js_version_2.js:181-308 | the unrolled path succeeds if and only if all bytes are ASCII; then the text and cursor are those bytes' and their end, otherwise the cursor is restored exactly |
| MsgPackDecoder.Decoder.LoopAscii | frontend/public/xianyu_js_version_2.js:169-179 | the same for the looped path |
| MsgPackDecoder.Decoder.GeneralText | frontend/public/xianyu_js_version_2.js:134-164 | general text reading with its own fast path and chunks equals plain decoding, text and cursor |
| MsgPackDecoder.Decoder.LoopText | frontend/public/xianyu_js_version_2.js:139-164 | the chunked loop accumulates exactly the plain decoding |
| MsgPackCache.PackedCellsAreInjective | frontend/public/xianyu_js_version_2.js:41-61 | equal packed words and tail bytes of keys of one length mean equal keys |
| MsgPackCache.FilledSlotOk | frontend/public/xianyu_js_version_2.js:65-75 | a freshly filled cache slot holds the text of the only key that can match it |
| MsgPackCache.LookUpIsPlain | frontend/public/xianyu_js_version_2.js:31-76 | looking a short key up keeps a sound cache sound, and gives the text and cursor of plain decoding for a key whose decoding ends at its last byte |
| MsgPackCache.LookUpTwice | frontend/public/xianyu_js_version_2.js:31-76 | for every key in the buffer that is not in the cache: looked up twice, the text is the same, and the two cursors agree if and only if the key is self-contained |
| MsgPackCache.ValueIsPlain | frontend/public/xianyu_js_version_2.js:324-508 | decoding any value with any sound cache leaves a sound cache; it is plain decoding if every short key on the way is intact, and both run out of the buffer if the only key that is not reaches to the end of the buffer or past it |
| MsgPackCache.AllIsPlain | frontend/public/xianyu_js_version_2.js:101-132 | the same for a whole message: with a key that reaches past the end it is rejected under every sound cache, as by plain decoding |
| MsgPackCache.CutKeyDecodesTwoWays | frontend/public/xianyu_js_version_2.js:101-132 | a concrete message that decodes to a map the first time and is rejected the second time |
| MsgPackCache.LongBuffersLeaveTheCache | frontend/public/xianyu_js_version_2.js:38-39 | a buffer of 180 bytes or more leaves the cache as it is |
| MsgPackCache.ShortBuffersUseTheCache | frontend/public/xianyu_js_version_2.js:38-75 | in a shorter buffer every short key that was read is in the cache afterwards |
| MsgPackCache.HitIsPlain | frontend/public/xianyu_js_version_2.js:44-64 | a hit in a sound cache gives the text and cursor of plain decoding, for a key whose decoding ends at its last byte |
| MsgPackDecoder.Decoder.CachedKey | frontend/public/xianyu_js_version_2.js:38-75 | on every buffer, truncated ones included, and for every state of the cache: result, cursor and cache are those of the look-up that `LookUpIsPlain` and `LookUpTwice` speak about |
| MsgPackDecoder.Decoder.ReadKey | frontend/public/xianyu_js_version_2.js:31-76 | on every buffer and cache a field name is read as decoding with the cache prescribes |
| MsgPackDecoder.Decoder.ReadKeyTwice | frontend/public/xianyu_js_version_2.js:31-76 | a key read twice from one place leaves the same cursor both times if and only if it is self-contained |
| MsgPackDecoder.Decoder.DecodeCutKeyTwice | frontend/public/xianyu_js_version_2.js:101-132 | a new decoder given one message twice: first a map with the value 2, then an error for trailing data |
| MsgPackCache.TruncatedKeyOvershoots | frontend/public/xianyu_js_version_2.js:134-164 | plain decoding of a key cut inside a two-byte form takes the byte after the key |
| MsgPackDecoder.Decoder.ReadValue | frontend/public/xianyu_js_version_2.js:324-508 | on every buffer and cache a value is read, with fast paths and in-place cache, as decoding with the cache prescribes: value, cursor, error and cache |
| MsgPackDecoder.Decoder.ReadScalar | frontend/public/xianyu_js_version_2.js:400-508 | the unnested formats agree with plain decoding, also on truncated buffers and unhandled tags |
| MsgPackDecoder.Decoder.ReadEntries | frontend/public/xianyu_js_version_2.js:310-322 | the same for the map loop, `__proto__` renamed |
| MsgPackDecoder.Decoder.Decode | frontend/public/xianyu_js_version_2.js:101-132 | on every buffer the result and the new cache are those of decoding with the cache; from any sound cache this is plain decoding if every short key is intact, and a rejection like that of plain decoding if one reaches past the end; the encoding of any message decodes to its meaning with the cursor at the end |
| CardStock.LinesOfJoined | internal/db/delivery.go:354-399 | splitting joined cards gives the same cards back |
| CardStock.LinesOfPrepended | internal/db/delivery.go:217-247 | a line put in front of a column becomes its first card and changes no other |
| CardStock.LinesOfParts | internal/db/delivery.go:354-385 | line feeds and carriage returns separate cards |
| CardStock.LinesOfOneLine | internal/db/delivery.go:354-385 | text without them is one card unless it is white space |
| CardStock.CardRow.Consume | internal/db/delivery.go:173-212 | for every behaviour of the database and of other connections: the answer, the column and each of its own writes are those of the take, which removes first cards only and returns at most the last one removed; if the number of rows can always be read, a success is one write and a card is lost only by a last update that reports an error; undisturbed it succeeds if and only if there is a card |
| CardStock.CardRow.TryTake | internal/db/delivery.go:176-210 | one pass of that loop: what it reads, whether its update finds the column unchanged, how the update ends, and what follows |
| CardStock.TakeLosesExactly | internal/db/delivery.go:173-212 | a take removes a card that it does not return if and only if some attempt's update finds the column unchanged and takes effect without a row count or with an error |
| CardStock.TakeMeans | internal/db/delivery.go:173-212 | a returned card is the last one removed and is not blank; if row counts can be read at most one card is removed |
| CardStock.TakeReaches | internal/db/delivery.go:173-212 | the first attempt that answers decides the take, whatever was interfered with before |
| CardStock.QuietTake | internal/db/delivery.go:173-212 | without other connections the answer, the removed cards and the remaining ones are known exactly |
| CardStock.QuietTakeLosesExactly | internal/db/delivery.go:173-212 | then a take from a non-empty column loses a card if and only if its first update takes effect without saying so |
| CardStock.UnreportedTakeLosesCard | internal/db/delivery.go:200-206 | an update that finds the column unchanged and reports an error although it took effect makes the take fail with its first card gone |
| CardStock.LoseOnlyCard | internal/db/delivery.go:173-212 | a concrete row whose take fails and leaves the column empty |
| CardStock.TakeTwoForOne | internal/db/delivery.go:207-211 | a concrete row on which one take removes two cards and returns the second, because the row count of the first update could not be read |
| CardStock.CardRow.Restore | internal/db/delivery.go:217-247 | for every behaviour of the database and of other connections: the answer, the column and each of its own writes are those of the restore, which puts exactly the trimmed line in front; if the number of rows can always be read there is one copy after a success, and one after a failure only by a last update that reports an error; undisturbed it succeeds if and only if the line is not blank |
| CardStock.CardRow.TryPut | internal/db/delivery.go:222-245 | one pass of that loop |
| CardStock.PutRepeatsExactly | internal/db/delivery.go:217-247 | a restore puts back more copies than it reports if and only if some attempt's update finds the column unchanged and takes effect without a row count or with an error |
| CardStock.PutMeans | internal/db/delivery.go:217-247 | a success put the line back; if row counts can be read there is at most one copy |
| CardStock.PutReaches | internal/db/delivery.go:217-247 | the first attempt that answers decides the restore |
| CardStock.QuietPut | internal/db/delivery.go:217-247 | without other connections the answer and the number of copies are known exactly, and nothing else of the column changes |
| CardStock.UnreportedPutRestores | internal/db/delivery.go:240-245 | an update that finds the column unchanged and reports an error although it took effect makes the restore fail with the line in front again |
| CardStock.PutBackUnnoticed | internal/db/delivery.go:217-247 | concrete rows whose restore fails with the card back, or succeeds with the card there twice |
| StockLedger.TakeIsRun | internal/db/delivery.go:173-212 | what a take does to the row between two versions, interleaved with other connections, is a run of the ledger that ends with the sender's recorded take; the lost cards are exactly those removed and not returned |
| StockLedger.PutIsRun | internal/db/delivery.go:217-247 | what a restore does to the row is a run of the ledger that ends with the sender's recorded restore; a copy written last is the returned or reappeared one, and all other copies are doubled |
| StockLedger.CallMovesCards | internal/automation/card_delivery.go:148-198 | each recorded call of a sender moves a card between the column and one place of its sender, and loses none |
| StockLedger.RunConserves | internal/automation/card_delivery.go:148-198 | in every interleaving of any number of senders, edits and unnoticed writes, every card is in exactly one of: column, hands, delivered, unknown, stranded, taken unnoticed, taken away by an edit; beyond that there are only copies put back unnoticed, and those of failed restores are copies of stranded cards |
| StockLedger.EveryCopyIsOnce | internal/automation/card_delivery.go:148-198 | at every moment the copies of a card in the column and with all senders are as many as came and did not go |
| StockLedger.NoDoubleDelivery | internal/automation/card_delivery.go:148-198 | a card of which at most one copy came by edits and did not go, however many edits it survived, is held, delivered or unknown at most once over all senders, and then it is not in the column; the same of stranded unless it came back unnoticed |
| CardDelivery.Executor.CheckExecution | internal/automation/run_lease.go:101-117 | a check is recorded with its answer, and a refusal closes the record to takes, fetches and deliveries |
| CardDelivery.Executor.Send | internal/automation/action_executor.go:586-624 | nothing is handed to the transport unless the check just before it succeeded; a refused check counts as not sent |
| CardDelivery.Executor.DataUnit | internal/automation/card_delivery.go:155-195 | one stock unit ends delivered, skipped as blank, refused before taking, returned, stranded or unknown, and the ledger says which |
| CardDelivery.Executor.SendDataCard | internal/automation/card_delivery.go:148-198 | at every exit the proof is exactly the delivered lines in order; failure is uncertain if and only if one consumed line is unknown or stranded; success if and only if all requested units were handled; after a refused check nothing is taken or sent |
| CardDelivery.Executor.SendApiCard | internal/automation/card_delivery.go:97-145 | everything the API handed over is in the proof or in the review; failure is uncertain if and only if one claimed card did not end in a confirmed message; units are requested as 1, 2, ... in order |
| CardDelivery.Executor.SendFixedCard | internal/automation/card_delivery.go:44-93 | a text card sends its rendered text and nothing else, an image card its picture, and any other card nothing after one check; failure is uncertain if and only if some delivery's outcome is unknown, and then the review is the proof of exactly that message |
| CardDelivery.Executor.SendCard | internal/automation/card_delivery.go:20-94 | for every kind of card: confirmed messages are the proof's and doubtful ones the review's, a text card sends only its rendered text and an image card only its picture, prepared units are at most the sent units, success means exactly the requested count; for a count of zero or less nothing is called, nothing is sent and success is reported |
| Proofs.AppendBuildsTradeText | internal/automation/action_executor.go:574-583 | appending text by text builds the newline join of the trimmed non-blank texts |
| Proofs.MergeKeepsCoherence | internal/automation/run_coordinator.go:623-635 | merged proofs again have the texts and pictures of their messages |
| Proofs.MergeLosesNothing | internal/automation/run_coordinator.go:623-635 | a merged proof has the messages, pictures and skips of the first and then of the second proof; accounted units and positive expected units add up, and a mark in either stands |
| Proofs.MergeIsAssociative | internal/automation/run_coordinator.go:623-635 | proofs of several actions can be merged in any grouping if and only if the middle one does not expect a negative number of units or the last one expects no positive number |
| OrderQuantity.QuantityRoundTrip | internal/automation/action_executor.go:708-719 | the decimal text of a quantity, with white space around it, is read back as the quantity |
| OrderQuantity.SendCountOfNumber | internal/automation/action_executor.go:693-719 | for a quantity that is any decimal number the count is the product in 64 bits, where a count or quantity that is not positive, or a quantity beyond 64 bits, counts as one |
| OrderQuantity.SendCountOfOtherText | internal/automation/action_executor.go:693-719 | a quantity that is empty or no number counts as one |
| OrderQuantity.SendCountOfSignedNumber | internal/automation/action_executor.go:708-719 | a plus sign before the digits does not matter |
| OrderQuantity.SendCountIsProduct | internal/automation/action_executor.go:693-705 | the send count is units times quantity if and only if the product fits in 64 bits |
| OrderQuantity.SendCountCanBeNegative | internal/automation/action_executor.go:693-705 | a concrete order whose send count wraps to a negative number |
| OrderSpec.EqualMeansSameDimensions | internal/orderspec/spec.go:26-71 | specifications are equal if and only if both are well formed and have the same names and values, dimension by dimension |
| OrderSpec.DimensionsOfParts | internal/orderspec/spec.go:58-71 | the dimensions of a column are the trimmed texts between its semicolons of either kind |
| ReplayPlan.DeliveryReplayPlan | internal/automation/delivery_replay_plan.go:12-80 | accepts if and only if counts, ownership, skips, total and the single refill source are all right; every refusal's reason is true of the run |
| ReplayPlan.AcceptedRunIsSound | internal/automation/delivery_replay_plan.go:12-80 | an accepted run has the plan of its own account and order with the expected units, sound counts and no mark, and its skips are distinct messages of enabled template actions |
| ReplayPlan.ScanPlan | internal/automation/delivery_replay_plan.go:30-48 | the plan's units in 64-bit arithmetic, its delivery actions, its template actions and its last card action |
| ReplayPlan.CheckSkips | internal/automation/delivery_replay_plan.go:49-67 | no problem if and only if all skips are valid template positions and no two are the same |
| ReplayPlan.RefillIsUnambiguous | internal/automation/delivery_replay_plan.go:74-79 | if units remain, the returned action is the plan's only delivery action, nothing was skipped, and it accounts for all units |
| ReplayPlan.SkipsFit | internal/automation/delivery_replay_plan.go:49-67 | valid skips never exceed the template messages of the plan |
| ReplayPlan.AcceptedUnits | internal/automation/delivery_replay_plan.go:68-75 | prepared, unknown, skipped and remaining units make up the plan; none is counted beyond it if and only if the counts add up without overflow |
| ReplayPlan.OverflowingCountsAreAccepted | internal/automation/delivery_replay_plan.go:68-79 | a concrete run with one unit too many that is accepted because its counts overflow |
| ReplayPlan.StoredAfterFirst | internal/automation/run_coordinator.go:482-557 | what the action loop stores after the first card action: its counts if a unit is prepared or unknown or a line is stranded, and nothing otherwise |
| ReplayPlan.StoppedSenderIsAccepted | internal/automation/delivery_replay_plan.go:12-80 | a run whose one card action stopped part-way is accepted if and only if no line was stranded and at least one unit is prepared or unknown, and then exactly its other units remain |
| Decimal.PairTextIsInjective | internal/automation/delivery_replay_plan.go:60-62 | position keys determine their positions |
| DeliveryRefill.Replay.Refill | internal/automation/manual_delivery.go:416-481 | a refill never counts units beyond the plan or loses recorded messages, sends at most the missing units, stores what it sent unless the pending mark stands, and does nothing for a run the planner rejects |
| DeliveryRefill.RefillCount | internal/automation/manual_delivery.go:435-439 | the refilled quantity is exactly the number of missing units |
| DeliveryRefill.ContinuesIsTransitive | internal/automation/manual_delivery.go:416-481 | the promise of one refill carries over any number of refills |
| RunTable.GenerationsGrow | internal/db/automation.go:566-591 | over every history of a run's row generations never go back, and every effective claim starts a new one |
| RunTable.StaleIsPowerless | internal/db/automation.go:729-738 | once a newer generation exists no statement of an older one changes the row |
| RunTable.LeaseProtects | internal/db/automation_execution_lease.go:9-23 | under an unexpired lease no statement but the executing generation's own ends the action or takes the run, and the lease does not move back |
| RunTable.ExecutionIsExclusive | internal/db/automation_execution_lease.go:9-37 | the same over any stretch of history within the lease: only renewals and proof updates of the executing generation take effect |
| RunTable.RenewalOnlyExtends | internal/db/automation_execution_lease.go:9-23 | a renewal never shortens a lease and never revives an expired one |
| RunTable.ChecksAreOrdered | internal/automation/run_lease.go:60-74 | successful checks have non-decreasing generations |
| RunTable.NewerGenerationWaits | internal/automation/run_lease.go:60-74 | before a newer generation's check succeeds, the older one ended its action itself or its lease ran out |
| RunTable.FinishedIsFinal | internal/db/automation.go:566-591 | over every history a run that succeeded or was canceled never changes again |
| RunTable.CursorMovesForward | internal/db/automation_delivery_proof.go:156-180 | the cursor never goes back, and passes an action only when the executing generation advances it or a review is continued by hand |
| RunTable.StartedIsNotRepeated | internal/db/automation.go:566-606 | an action that was started is neither started again nor its run claimed before a statement that gives it up took effect |
| RunTable.RetryWaits | internal/db/automation.go:706-742 | a run that failed with a retriable error is claimed again only a minute later and before its third generation, any other failure never |
| RunTable.AbandonedActionIsReviewed | internal/db/automation_execution_lease.go:25-37 | while an action is in flight, a statement that is not its own generation's changes nothing, or hands the run to review, or cancels it |
| RunTable.StatusChanges | internal/db/automation.go:566-742 | every change of a run's status in any history is one of those that its claims, replays, ends, scans and manual decisions allow |
| RunTable.ReplayHasProof | internal/db/automation_delivery_proof.go:80-104 | a replay is claimed only when a proof was stored before it or was there from the start |
| RunTable.OnlyRunningRunsAreLeased | internal/db/automation.go:632-742 | over every history a run that is not running holds no lease |
| RunTable.ColumnsAfter | internal/db/automation.go:566-742 | which statements set, extend, keep or clear the lease, the retry time, the mark of a started action and the cursor |
| RunTable.ResolvedRunIsClaimable | internal/db/automation_recovery.go:108-170 | a run that was continued or retried by hand can be claimed at any time |
| RunLease.Table.Renew | internal/db/automation_execution_lease.go:9-23 | a renewal is reported only if it took effect; a lost lease means that the row refused it or that it came too late |
| RunLease.RunExecutionLease.Check | internal/automation/run_lease.go:60-74 | success means that the row was executing this generation under an unexpired lease, which then runs at least five minutes from the check, and without interference or faults such a row means success; the first failure is kept and every later check fails without touching the database |
| RunLease.RunExecutionLease.CheckRepeatedly | internal/automation/run_lease.go:77-117 | with heartbeats and cancellation in between, the checks of one action are first granted and, after one refusal, only refused; every grant is a renewal in the history, in order |
| RunLease.GrantsDoNotOverlap | internal/automation/run_lease.go:46-74 | executors of two generations never hold a grant at the same time |
| OrderDetailCoordinator.Coordinator.Enter | internal/adapter/order_detail_coordinator.go:136-160 | the first locked section: a fresh success, the running request, or a new one |
| OrderDetailCoordinator.Coordinator.TrySlot | internal/adapter/order_detail_coordinator.go:188-202 | the slot section grants if and only if the time read before the lock is not before the next slot, which then moves by the gap |
| OrderDetailCoordinator.Coordinator.Finish | internal/adapter/order_detail_coordinator.go:169-178 | the last locked section: the outcome is kept for joiners, only a success with a result is cached, and the request is gone |
| OrderDetailCoordinator.StepKeeps | internal/adapter/order_detail_coordinator.go:123-220 | every step of every thread keeps the invariant of requests, successes, answers and grants, and moves no slot backwards |
| OrderDetailCoordinator.SlotsMoveForward | internal/adapter/order_detail_coordinator.go:188-202 | in every run an account's next slot never moves backwards |
| OrderDetailCoordinator.SingleFlight | internal/adapter/order_detail_coordinator.go:145-160 | in every run at most one request for one account and order is running |
| OrderDetailCoordinator.AnswersAreOwn | internal/adapter/order_detail_coordinator.go:136-185 | every joiner has its owner's outcome for the same key, and every cached answer is a success of the same key that finished less than the lifetime before |
| OrderDetailCoordinator.FreshSuccessBlocksRequests | internal/adapter/order_detail_coordinator.go:136-144 | only successes are cached, and while one is fresh its key gets no new request |
| OrderDetailCoordinator.SuccessAnswersCalls | internal/adapter/order_detail_coordinator.go:136-178 | in every run a success answers every call for its key before it expires, with its result, and no request for the key is registered meanwhile |
| OrderDetailCoordinator.FirstCallAfterFinish | internal/adapter/order_detail_coordinator.go:136-178 | the first call for a key after a request ended is answered from the cache if and only if that was a success that has not expired; otherwise it starts a new request |
| OrderDetailCoordinator.RunningRequestIsJoined | internal/adapter/order_detail_coordinator.go:145-150 | a call for a key whose request is running joins it |
| OrderDetailCoordinator.SlotNeedsGap | internal/adapter/order_detail_coordinator.go:188-202 | a thread gets a slot if and only if the time it read is at least the gap after the one of the account's last slot; the first slot is always granted |
| OrderDetailCoordinator.KeyOfTrimmedTexts | internal/adapter/order_detail_coordinator.go:130-135 | white space around account and order does not matter, a blank one is refused, and without NUL characters equal keys mean equal trimmed texts |
| OrderDetailCoordinator.RateIsBounded | internal/adapter/order_detail_coordinator.go:188-202 | grants of an account are at least the gap apart and any window of length W holds at most W / gap + 1 of them |
| NulKeys.KeyIsInjective | internal/adapter/order_detail_coordinator.go:134-135 | pairs share no key if the first parts, or the second parts, contain no NUL character |
| NulKeys.SharedKeysExactly | internal/adapter/order_detail_coordinator.go:130-135 | among trimmed, non-empty pairs, an account and order share their key with another pair if and only if one of them can be cut at a NUL character without white space at the cut |
| OrderDetailCoordinator.DifferentRequestsShareAKey | internal/adapter/order_detail_coordinator.go:130-135 | two concrete requests for different accounts and orders with the same key |
| AccountManager.Manager.Start | internal/account/manager.go:108-157 | registers only when no full stop is active, the account is not fenced and the replaced instance is done and not being stopped; every instance that is not done stays registered |
| AccountManager.Manager.MarkStopping | internal/account/manager.go:212-219 | the first section of a stop marks exactly the registered instance |
| AccountManager.Manager.Remove | internal/account/manager.go:233-238 | a stopped instance is removed only if it is still the registered one |
| AccountManager.Manager.BeginStopAll | internal/account/manager.go:350-359 | raises the full stop and snapshots each registered account once |
| AccountManager.Manager.EndStopAll | internal/account/manager.go:367-372 | lifts the full stop only when nothing is registered |
| AccountManager.StepKeeps | internal/account/manager.go:108-374 | every step of starts, stops, fences and goroutine exits keeps the invariant |
| AccountManager.OneGoroutinePerAccount | internal/account/manager.go:108-177 | in every run an account has at most one live goroutine, and a live one is registered |
| AccountManager.RegistrationIsAllowed | internal/account/manager.go:112-137 | in every run nothing is registered while the account is fenced, its instance is being stopped or a full stop is active |
| AccountManager.StartsExactly | internal/account/manager.go:112-137 | in every run a start registers a new live instance if and only if no fence, full stop or unfinished or stopping instance is in the way, and changes nothing otherwise |
| AccountManager.StopHolds | internal/account/manager.go:199-237 | an account marked to be stopped stays registered as it is and cannot be started until a stop removes an instance |
| AccountManager.FenceHolds | internal/account/manager.go:181-197 | a fenced account that is not registered stays so, with no live or unfinished goroutine, until its fence is lifted, whatever else happens |
| AccountManager.FullStopStopsAll | internal/account/manager.go:346-374 | when a full stop returns without error every instance it found is done, and if no other full stop was lifted meanwhile nothing is registered |
| AccountManager.ConcurrentFullStopsMissAccounts | internal/account/manager.go:346-374 | a run with two full stops in which the first returns although an account is registered and live |
| CredentialWriteBack.FingerprintIsInjective | internal/automation/action_executor.go:665-669 | equal fingerprints mean equal credentials, for any cookies, when the digest has no collisions and metadata contains no NUL character |
| CredentialWriteBack.TaskSession.Persist | internal/automation/account_tasks.go:599-641 | a task session writes only over the credential it last read or wrote; it writes its own cookie, or the trimmed new one of a client without a session, and puts its snapshot into the metadata or takes any out; every other outcome changes nothing |
| CredentialWriteBack.TradeSession.Persist | internal/automation/action_executor.go:465-519 | a trade session writes only over a credential with the fingerprint that it read, which is the credential that it read when fingerprints are injective; stored metadata stays free of NUL characters |
| CredentialWriteBack.BasisIsOwn | internal/automation/account_tasks.go:599-641 | what a session compares with is always something it read or wrote itself |
| CredentialWriteBack.WriteReplacesBasis | internal/automation/account_tasks.go:619-621 | every change of the stored credential by a session replaces exactly what that session last read or wrote |
| CredentialWriteBack.ConflictLasts | internal/automation/account_tasks.go:619-621 | a session that lost a race changes nothing until it reads again or its content is restored |
| CredentialWriteBack.NoLostUpdate | internal/automation/account_tasks.go:599-641 | a foreign write survives every session that has not seen its content |
| AutoRate.Environment.Claim | internal/db/account_tasks.go:179-223 | a claim succeeds if and only if the run is new, or failed with fewer than six attempts, due and not for good; it adds one attempt, and never opens an order whose rating succeeded |
| AutoRate.Environment.FinishOrQuarantine | internal/automation/account_tasks.go:308-329 | the run ends in the wanted status, or for review, and stays claimed only if both writes failed |
| AutoRate.Environment.RateOne | internal/automation/account_tasks.go:387-442 | a rating that succeeded ends as success, for review or still claimed, never as a retryable failure; a refused one is recorded as failed, for good if the order is too old |
| AutoRate.Environment.Conclude | internal/automation/account_tasks.go:399-441 | after a successful rating the run is not failed, after a refused one it is failed and due in ten minutes, or for good if the order is too old, or the batch ends with an error; a successful rating whose cookies could not be saved goes to review |
| AutoRate.Environment.RunAutoRate | internal/automation/account_tasks.go:357-450 | success means found = success + failed + skipped, and that every new order got a call; no call follows an answer that ends the batch; all rated orders but at most the last are recorded and counted as successes; over any number of batches no order is rated successfully twice, none has more than six calls, and one that was rated, failed for good or had six attempts has none any more |
| PriceAdjust.PriceAdjuster.Attempt | internal/automation/action_executor.go:336-406 | at most two calls, the second only after a recovered session; an attempt whose last call took effect or is unknown never ends as a plain failure |
| PriceAdjust.PriceAdjuster.AdjustWithRetry | internal/automation/action_executor.go:294-323 | at most five attempts and ten calls; no call follows one that succeeded, or one with an unclassified error that reports no expired session; every call but the last ended in a recovered expiry or in a failure whose text has the platform's code or asks to try again later; it gives up only for another end, after five attempts or when cancelled |
| ActionPlanner.MakePlan | internal/automation/event_pipeline.go:151-176 | the plan of a paid order contains exactly the enabled confirmations and the enabled card and template actions whose specification fits the order, any other plan the enabled actions; it is the plan that is shown to be a stable partition and idempotent |
| ActionPlanner.PaidPlanIsStablePartition | internal/automation/event_pipeline.go:151-168 | the paid plan lists every matching delivery once in rule order, then every enabled confirmation once in rule order, and nothing else |
| ActionPlanner.DeliversIfFits | internal/automation/action_executor.go:671-690 | an action delivers if and only if it is enabled, sends cards or templates, and its configuration fits the order: readable, and either without a specification for an order that accepts that, or with the same names and values in the same order |
| ActionPlanner.PlanIsIdempotent | internal/automation/event_pipeline.go:151-176 | planning a plan changes nothing |
| ActionPlanner.HasMatchingDelivery | internal/automation/event_pipeline.go:179-187 | true if and only if some enabled card or template action has a specification that fits the order |
| ActionPlanner.ImmediateManualActions | internal/automation/event_pipeline.go:190-208 | clearing delays fails if and only if a delivery action's configuration is the JSON null; otherwise it sets every delay to zero, marks the configuration of deliveries and changes nothing else |
| ActionPlanner.ImmediateCommutesWithPlan | internal/automation/event_pipeline.go:190-208 | clearing delays and planning can be swapped if and only if no enabled delivery action has an unreadable configuration that the order would then accept |
| ActionPlanner.ArrayConfigurationStartsToMatch | internal/automation/event_pipeline.go:190-208 | a concrete action with a stored array as configuration that is planned only once its delay was cleared |
| Substitution.ReplaceIsFill | internal/automation/action_executor.go:730-750 | one `ReplaceAll` is the simultaneous substitution of that variable, on any template |
| Substitution.FillOfWoven | internal/automation/action_executor.go:730-750 | a template of texts and placeholders is rendered to the texts with the values between them, whatever braces the values contain; a placeholder that is no variable stays |
| Substitution.FillTwice | internal/automation/action_executor.go:730-750 | substituting one set of variables and then another is substituting both at once, on simple templates, when no value of the first can bring about a placeholder of the second |
| Substitution.OpenFreeIsHarmless | internal/automation/action_executor.go:730-750 | values without an opening brace are harmless |
| Substitution.AnyOrderFills | internal/automation/action_executor.go:746-749 | on simple templates every order of the variables gives the simultaneous substitution, for every map of harmless values |
| Substitution.OrderIsIrrelevantExactlyIfHarmless | internal/automation/action_executor.go:746-749 | for every map of variables: all orders fill all simple templates alike if and only if the values are harmless, that is no value contains or ends like the beginning of another variable's placeholder, unless that one stands for itself |
| Substitution.OrderMatters | internal/automation/action_executor.go:746-749 | for every map with a value that is not harmless, a simple template and two orders of all variables with different results |
| Substitution.NestedOrderMatters | internal/automation/action_executor.go:746-749 | for every map in which putting a value inside another placeholder completes it, two orders with different results |
| Substitution.RenderTemplate | internal/automation/action_executor.go:730-750 | whatever order the map is walked in, the result is some sequential replacement, and the simultaneous one for simple templates and harmless values |
| Substitution.BracesInValuesMatter | internal/automation/action_executor.go:734-749 | whatever the other variables are, a specification that reads `{amount}` is filled in order-dependently |
| Substitution.NestedBracesMatter | internal/automation/action_executor.go:734-749 | whatever the other variables are, an empty amount inside the quantity's placeholder is filled in order-dependently |
| Substitution.ReplaceJsonValue | internal/adapter/api_delivery_client.go:585-607 | keys, array lengths and other leaves are kept; every text is substituted simultaneously |
| Substitution.ReplaceJsonMap | internal/adapter/api_delivery_client.go:574-582 | the same for the fields of an object, in any order |
| RoleEvidence.RawFields.SetOrderRole | internal/automation/events.go:495-504 | adds one piece of evidence; a contradiction is a conflict that stays |
| RoleEvidence.RawFields.SupplementByKey | internal/automation/events.go:396-451 | a field adds exactly the role and system mark that its name and text say: role fields by the words buyer and seller, task names by the platform's words for both, addresses by their role parameter |
| RoleEvidence.RawFields.Supplement | internal/automation/events.go:361-393 | any walk adds exactly the evidence of the tree within the depth limit |
| RoleEvidence.HoldsMeansPath | internal/automation/events.go:361-393 | a tree asserts something if and only if a path of at most seventeen nodes from its root ends at a field that does |
| RoleEvidence.EvidenceIsContained | internal/automation/events.go:361-451 | the evidence of an event is what its fields say in the platform's words |
| RoleEvidence.FactKeyOfName | internal/automation/events.go:454-458 | underscores, hyphens and white space around a field name do not matter, and nothing else is dropped |
| RoleEvidence.EmbeddedTexts | internal/automation/events.go:361-393 | only texts that begin like a JSON object or array are looked into |
| RoleEvidence.WalksAgree | internal/automation/events.go:361-451 | two walks agree on conflict, system mark and, without a conflict, role; conflict if and only if both sides are asserted |
| RoleEvidence.RawFields.AdmitsTask | internal/automation/events.go:98-120 | a task is possible if and only if no field at most seventeen nodes deep says that the account is the buyer, there was no buyer or conflict before, and a system message where the direction asks for one; the role found is the side that the fields name |

## Left out

- Utf8Text.FromUtf8Inverts: what the library's `TextDecoder` makes of ill-formed bytes is a parameter.
- CredentialWriteBack.TradeSession.Persist: that equal fingerprints mean equal credentials rests on a digest without collisions and on metadata without NUL characters, which holds of JSON text.
- CredentialWriteBack.NoLostUpdate: assumes that every writer holds the account's credential lock while it compares and writes.
- AutoRate.Environment.RunAutoRate: other workers do not act between the calls of one batch.
- OrderDetailCoordinator.AnswersAreOwn: cancelled callers get the cancellation, whatever their request brings.
- RoleEvidence.RawFields.Supplement: the identifiers that keep the first value found, which do depend on the order of the walk.
- RoleEvidence.RawFields.AdmitsTask: what the fixed places of an event say about roles is given, and the kinds of events that make a task are not modelled.
- MessagePack formats without a handler in the script, and floats as numbers: they are payload bytes.
- Duplicate configuration fields that differ only in case, invalid UTF-8 in Go strings, and JSON texts that the library reads in other ways.
- The order of the fields of a decoded object.
- Timers and wall-clock formatting; waiting is a step that may happen at any later time.
- Notifications to online senders after a cookie was written, and waking blocked tasks.
- HTTP servers and handlers, the frontend, installers, browser and captcha code, cookie merging, and the platform client: the model takes their answers as arbitrary.
- Encryption of stored proofs, and rows other than the run's own.
- Parsing of prices and the texts of errors.
- Profile refresh and long-login write-back, which do not compare before they write, and item polishing, which retries a whole day by design.
