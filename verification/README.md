# Verified model of VOOL's stateful cores

A Dafny 4.11 model of seven parts of VOOL that keep state or run a protocol, with proofs about whole runs of them.
`dafny verify dfyconfig.toml` checks the project.

| part | files |
|---|---|
| context-capsule chain (`core/active_context_capsule.py`, and the receipts it reads: `core/agent_runtime/orchestrator.py`, `core/runtime_continuity.py`) | `Claims`, `CapsuleRecords`, `CapsuleReceipts`, `CapsuleEmission`, `CapsuleChain`, `CapsuleBuild`, `CapsuleTables`, `CapsuleErase`, `CapsuleBackfill`, `CapsuleStore`, `CapsuleRuns`, `CapsuleTamper`, `CapsuleProvenance`, `CapsuleMeaning` |
| UsePod call and settlement (`adapters/usepod_adapter.py`) | `UsePodPricing`, `UsePodAuthority`, `UsePodCall`, `UsePodStream`, `UsePodResume` |
| corpus curation (`core/adaptation_dataset.py`) | `Curation`, `CurationFacts` |
| reasoning retry and Ollama tool batches (`adapters/openai_compatible_adapter.py`) | `ReasoningRetry`, `OllamaToolCalls` |
| mission slot log (`core/active_mission.py`) | `MissionSlots` |
| catalogue cache (`core/addon_discovery.py`) | `CatalogueCache` |
| name registry (`core/agent_name_registry.py`) | `NameRegistry` |

`Wrappers`, `Text`, `Json` and `JsonText` hold what they share.

## How the model is built

* Code that updates state is a class whose methods update its fields, with the same branches in the same order; each
  method is proved equal to a function of the state before it, and the results are proved of those functions.
* SQL tables are sequences of rows, a transaction is one method with an explicit rollback, and a `fault` argument lets
  the storage engine fail at each write. An interleaving of writers is a sequence of such steps; what a writer read
  before its transaction is an argument and may be stale.
* Hashes, JSON text, redaction, `str`, score, fingerprint, time key and `str.lower` are function-valued arguments.
  What is assumed of them is written where it is used: `CapsuleRecords.Sound` says that the content hash has no
  collisions, is never empty and holds no NUL, and that JSON text reads back as its value. JSON numbers are integers and
  64-bit floats. `JsonText` builds an encoder and a hash with these properties, so the assumptions can be met
  (`CapsuleRecords.SoundCodecExists`, `UsePodResume.SoundReadersExist`, `OllamaToolCalls.KeepsApartExists`).
* What the outside world does to one UsePod call (authority, transport, provider, consumer, cancellation) is a `Script`
  and a `Stream`; a statement over all of them covers every path.

## What the code does not do

Each of these is proved as an exact condition, and a further lemma gives a concrete input where the promise fails.

* **The legacy migration can accept a chain that the validator then raises on.** The migration asks that a payload be a
  JSON object; decoding it walks `list(value or [])` for six fields, which raises on a true number or boolean. A
  migrated chat validates if and only if every payload can be walked (`CapsuleBackfill.MigratedChatValidatesIff`,
  `CapsuleBackfill.MigratedChatCanBeUnreadable`).
* **A paid call can end without a terminal record.** `_settle` swallows the authority's refusal, and `dict(usage)` on a
  usable reply runs outside the guarded block. Exactly one terminal is left if and only if neither happens
  (`UsePodCall.ExactlyOneTerminalIff`, `UsePodCall.NumericUsageLeavesNoTerminal`); for a stream, also only if the
  generator is started (`UsePodStream.StreamTerminalIff`). Without a terminal the liability stays pending and held.
* **The catalogue cache counts its 600 seconds from storing an answer, and on disk by the wall clock.** The 600 seconds
  hold of every run if and only if answers are stored with no delay and the wall clock is not set back
  (`CatalogueCache.SixHundredSecondsIff`, `CatalogueCache.StoringLateServesOlder`); any larger bound holds if and only
  if the delay and the set-back fit into what it adds (`CatalogueCache.ServesWithinIff`).
* **A capsule's project check is made against a read before the transaction.** The row carries the project read inside
  it. The named project is the stored one if and only if the two reads agree, so whenever nothing moved the chat in
  between (`CapsuleRuns.NamedProjectIsStoredUnlessMoved`, `CapsuleRuns.MovedChatStoresAnotherProject`).
* **Tampering can make loading raise instead of returning the last capsule or nothing.** The column `version_number` can
  hold text, and `int(row["version_number"] or 1)` runs outside any guard. The validator raises if and only if the
  chat's rows begin as they were written, up to a row whose payload hash and mode hold and whose number cannot be read
  (`CapsuleTamper.TamperingRaisesIff`, `CapsuleTamper.UnreadableNumberMakesLoadingRaise`).
* **A chain that validates can be one to which nothing can be added.** A version number stored as text that still reads
  as the right number, such as empty text for 1, sorts behind every number. The validation after the writes of a create
  on an accepted chain fails if and only if the chat holds such text (`CapsuleTables.PendingRowExtends`,
  `CapsuleTamper.EmptyTextBlocksCreates`); creates and erasures never store any, so from empty tables it never fails
  (`CapsuleRuns.WriteValidationNeverFails`).
* **A receipt stored for an action need not count.** The verifier expects the outcome of the event, while the record's
  outcome also looks at the mode, and it expects the session to be the chat. A receipt counts if and only if a failing
  mode came with a failing event, session, chat and project agree, and summary and date are there
  (`CapsuleEmission.EmittedReceiptVerifiesIff`, `CapsuleEmission.FailedModeIsNeverVerified`).

On the other side, the check for surviving rows that `erase_capsule_versions_for_forget` makes after its delete can never
fail: the outcome function that `CapsuleStore.CapsuleStore.Erase` is proved equal to has no case for it.

## Model

| member | source | states |
|---|---|---|
| Claims.UniqueClaims | core/active_context_capsule.py:567-582 | the reversed, early-exiting loop returns the last `max(1, limit)` claims not restated later |
| Claims.WindowIsMostRecentDistinct | core/active_context_capsule.py:567-582 | the kept claims sit at increasing positions, each the last occurrence of its hash, and a last occurrence is skipped only when the window is full and it is older than everything kept |
| Claims.CarriedWindowIsBatchWindow | core/active_context_capsule.py:777-797 | the window over (previous window + new claims) equals the window over the whole history |
| Claims.WindowIdempotent | core/active_context_capsule.py:567-582 | a window is its own window |
| CapsuleRecords.SoundCodecExists | core/active_context_capsule.py:76-77 | the assumptions on the hash and the JSON text are met by some codec |
| CapsuleRecords.RecordHashBindsEveryField | core/active_context_capsule.py:298-325 | equal record hashes come from equal values in all ten hashed columns, the version number as it is read |
| CapsuleRecords.ReadClaimsOfWritten | core/active_context_capsule.py:264-284 | claims written with `asdict` read back as themselves |
| CapsuleRecords.WalkableIff | core/active_context_capsule.py:278-284 | decoding walks a payload without raising if and only if none of its six lists is a true number or boolean |
| CapsuleRecords.SameHashSameCapsule | core/active_context_capsule.py:413-464 | a row whose number can be read and that is not refused decodes as any decoding row with the same record hash does |
| CapsuleReceipts.VerifiedReceiptIsBound | core/active_context_capsule.py:600-633 | a receipt that verifies does so for one chat and one project only |
| CapsuleReceipts.VerifiedReceiptNamesItsAction | core/active_context_capsule.py:617-636 | a receipt that counts names itself, an action and a tool, and its record names the same |
| CapsuleReceipts.RecordCountsOnce | core/active_context_capsule.py:617-620 | a record copied into another receipt does not count there |
| CapsuleReceipts.VerifiedRecordIsIntact | core/active_context_capsule.py:637-658 | a record that still verifies under the record hash it once had is the same record, its date aside, with the same summary |
| CapsuleReceipts.VerifiedArgumentsAreParameters | core/active_context_capsule.py:642-643 | the arguments of a verified receipt are the recorded parameters |
| CapsuleReceipts.VerifiedHashesName | core/active_context_capsule.py:644-647 | among receipts that count, equal result (parameters) hashes stand for equal results (parameters) |
| CapsuleReceipts.ReceiptRaisesIff | core/active_context_capsule.py:600-612 | reading a receipt raises, and with it the create, if and only if it is stored for this chat and what stands for its action record is no mapping |
| CapsuleEmission.EmittedReceiptVerifiesIff | core/agent_runtime/orchestrator.py:475-556 | the receipt an emitted tool event stores is verified for a chat and project if and only if it was stored in that chat's session for an action of that chat and project, with a summary and a date, and the mode of a failure came with the event of one; the summary quoted is the action's |
| CapsuleEmission.ReemittedReceiptVerifiesIff | core/runtime_continuity.py:4053-4060 | stored again under its key, a receipt keeps its first session, tool, action id and arguments, so the later record is verified if and only if it agrees with them |
| CapsuleEmission.FailedModeIsNeverVerified | core/agent_runtime/orchestrator.py:520-521 | an executed event with the mode of a failure leaves a receipt no capsule can rest on |
| CapsuleBuild.NewRowDecodes | core/active_context_capsule.py:789-867 | the stored row decodes to exactly the capsule that create built and returns, whatever its number column holds that reads as its number |
| CapsuleChain.ChatRowsAppend | core/active_context_capsule.py:473-481 | a new highest version joins the end of its chat's ordered query and changes no other chat's |
| CapsuleChain.ChatRowsOrdered | core/active_context_capsule.py:473-481 | the ordered query: by number, then date, then id, with text and bytes behind every number |
| CapsuleChain.ValidatedCapsuleChain | core/active_context_capsule.py:467-523 | the validator's loop and head check, with its three outcomes: capsules, rejection, and the exception of an unreadable number or an unwalkable payload |
| CapsuleChain.AcceptedIffChain | core/active_context_capsule.py:484-523 | accepted if and only if versions are 1..n, every row decodes, each links to its predecessor, and the head names the last one (or is absent when there is none) |
| CapsuleChain.ValidatorRaisesIff | core/active_context_capsule.py:484-508 | the validator raises if and only if decoding raises on some row and the rows before it are a chain |
| CapsuleTables.PendingRowExtends | core/active_context_capsule.py:824-907 | inserting the new row and moving the head makes a valid chain one link longer, ending in the new capsule, if and only if the chat holds no version number as text or bytes |
| CapsuleTables.PendingNumberIsFree | core/active_context_capsule.py:824-890 | the new version number never collides; only a reused version id can break the INSERT |
| CapsuleStore.CapsuleStore.Create | core/active_context_capsule.py:663-907 | a create that raises, at any check or write, leaves both tables as they were; one that returns appended the returned capsule's row and moved the head |
| CapsuleStore.CapsuleStore.WriteVersion | core/active_context_capsule.py:837-904 | on an accepted chain the writes either all stand, with the new capsule last, or leave both tables as they were; the validation after them fails exactly behind a number stored as text |
| CapsuleStore.CapsuleStore.LoadLatest | core/active_context_capsule.py:526-538 | the last capsule of a chain that validates, nothing for one that does not |
| CapsuleMeaning.LoadGivesNewestCapsule | core/active_context_capsule.py:526-538 | after any run, loading gives the chat's newest capsule, which says what its turns said, or what was there before if none was recorded since |
| CapsuleStore.CapsuleStore.Erase | core/active_context_capsule.py:193-261 | inside the savepoint: result and tables of an erasure, with the delete trigger as it was on every path |
| CapsuleErase.EraseIsAllOrNothing | core/active_context_capsule.py:193-261 | a positive count means every version and the head of that chat are gone, the chat validates as empty, the count is exact and other chats are untouched; otherwise nothing changed |
| CapsuleErase.NothingRemembersAfterErase | core/active_context_capsule.py:219-257 | after an erasure that returns, no stored row of the chat has a payload that carries the token |
| CapsuleErase.EraseForgetsIff | core/active_context_capsule.py:193-261 | with no fault, readable payloads and no foreign head on the chat's rows an erasure returns, and its count is positive if and only if some row of the chat carried the token |
| CapsuleErase.CreateAfterEraseStartsOver | core/active_context_capsule.py:824-825 | the next create after an erasure is version 1 without a predecessor |
| CapsuleStore.CapsuleStore.BackfillLegacyRecordHashes | core/active_context_capsule.py:328-410 | succeeds if and only if every chat is sound; then only record hashes changed, each to its row's hash; otherwise no row is updated and the error is some chat's |
| CapsuleStore.CapsuleStore.CheckLegacyChats | core/active_context_capsule.py:337-399 | all chats are checked before anything is written, and the collected updates cover every row |
| CapsuleStore.CapsuleStore.CheckLegacyChat | core/active_context_capsule.py:341-396 | one chat's rows in order, then its head |
| CapsuleStore.CapsuleStore.CheckLegacyRow | core/active_context_capsule.py:343-381 | one row's problem, or the record hash it is to carry |
| CapsuleBackfill.MigratedChatValidatesIff | core/active_context_capsule.py:328-410 | a migrated chat validates, with all its rows, if and only if every payload can be walked; otherwise the validator raises |
| CapsuleBackfill.LegacySoundIff | core/active_context_capsule.py:341-396 | a legacy chat is accepted if and only if each of its rows is well formed at its place, hashes, links and number, and its head names the last |
| CapsuleBackfill.MigratedChatCanBeUnreadable | core/active_context_capsule.py:278-284 | the payload `{"decisions": 1}` passes the migration and makes the validator raise |
| CapsuleRuns.RunHolds | core/active_context_capsule.py:707-907 | from empty tables or any whose chains validate, after any interleaving of creates, erasures, failures and namespace changes every chat's chain validates, keeps what was there unless erased, and then summarizes, one capsule a turn, the turns since |
| CapsuleRuns.CapsulesEqualBatchRecomputation | core/active_context_capsule.py:777-824 | the capsule of the n-th turn since the start or the last erasure holds the window over all decision (constraint) claims of those n turns, behind what the chain held before, and the hash fold over their source ids |
| CapsuleRuns.FreshChatsCarryTheirWholeHistory | core/active_context_capsule.py:777-824 | from empty tables, version n holds the window over all claims of turns 1..n |
| CapsuleMeaning.WindowReads | core/active_context_capsule.py:567-582 | the window over the claims of sentences holds exactly those of the sentences not said again and with fewer than the limit of different ones after them, in order |
| CapsuleMeaning.SpokenSays | core/active_context_capsule.py:85-100 | a sentence of a turn makes a claim unless cleaning leaves nothing of it |
| CapsuleMeaning.CapsulesSayWhatWasSaid | core/active_context_capsule.py:689-704 | in any run the capsule of the n-th turn holds as decisions exactly what the decision sentences, and as constraints what the constraint sentences, of those turns say, each with its cleaned text, source and hash, and as objective its turn's text |
| CapsuleMeaning.CreatedCapsuleSaysWhatWasAsked | core/active_context_capsule.py:679-867 | every field of a created capsule, from the sentences, requested receipts and names of the call and the chat's last capsule |
| CapsuleMeaning.CreateSucceedsIff | core/active_context_capsule.py:663-907 | exactly when a create returns: an active chat of the named project, hashed rows, a valid chain without numbers as text, readable receipts, a fresh id and no fault |
| CapsuleRuns.ValidTablesAreFounded | core/active_context_capsule.py:467-523 | tables whose every chat validates are a place a run may start from |
| CapsuleRuns.MigratedTablesAreFounded | core/active_context_capsule.py:328-410 | so are migrated tables whose payloads can be walked: every run after a migration keeps the invariant |
| CapsuleRuns.RunsNeverFork | core/active_context_capsule.py:703-707 | in every such run two rows of one chat naming the same predecessor are the same row |
| CapsuleRuns.WriteValidationNeverFails | core/active_context_capsule.py:892-902 | in any run from tables without a version number stored as text, the validation a create repeats after its writes never fails |
| CapsuleRuns.NamedProjectIsStoredUnlessMoved | core/active_context_capsule.py:673-737 | a named project is the stored one if and only if the reads before and inside the transaction agree, hence whenever no step in between moved the chat |
| CapsuleRuns.MovedChatStoresAnotherProject | core/active_context_capsule.py:673-737 | a create that named "old" succeeds and stores "new" after the chat was moved in between |
| CapsuleRuns.TranscriptHeadNamesTheTurns | core/active_context_capsule.py:816-823 | from the empty head, equal transcript heads come from equally many turns with the same source ids in the same order |
| CapsuleRuns.HeadAfterNamesTheTurns | core/active_context_capsule.py:816-823 | from any one head, equally many turns lead to equal heads if and only if they have the same source ids in the same order |
| CapsuleRuns.EqualStoredHeadsNameEqualTurns | core/active_context_capsule.py:816-823 | in any run, chats that began with one head and store equal heads recorded the same source ids in the same order |
| CapsuleTamper.AcceptedMeansIntact | core/active_context_capsule.py:413-523 | after any edits, deletions, copies, reorderings or moves that leave record hashes and the head alone, a chain that validates is exactly the one written |
| CapsuleTamper.TamperingRaisesIff | core/active_context_capsule.py:413-464 | such tampering makes the validator raise if and only if it leaves, behind an unharmed beginning of the chain, a row whose payload hash and mode hold and whose version number cannot be read |
| CapsuleTamper.LoadReturnsWrittenOrNothing | core/active_context_capsule.py:526-538 | loading then raises exactly under that condition, and otherwise returns the last capsule as written, or nothing |
| CapsuleTamper.DeletionIsRejected | core/active_context_capsule.py:484-523 | after deleting one or more of a chat's rows validation never accepts: it raises exactly under that condition, and otherwise rejects |
| CapsuleTamper.EditIsRejected | core/active_context_capsule.py:413-464 | after editing a row so that it no longer decodes as before, or moving it to another chat, likewise |
| CapsuleTamper.UnreadableNumberMakesLoadingRaise | core/active_context_capsule.py:425 | setting the version number of a chat's only row to the text "x", and nothing else, makes loading raise |
| CapsuleTamper.EmptyTextBlocksCreates | core/active_context_capsule.py:892-902 | setting it to empty text leaves a chain that validates and on which a further create fails its write validation |
| CapsuleTamper.RunsAreIntact | core/active_context_capsule.py:663-907 | what a run leaves behind meets the assumptions of the tampering results |
| CapsuleProvenance.CreatedCapsuleIsSourced | core/active_context_capsule.py:738-815 | references are exactly the requested receipts that verify for the chat and project, and verified actions carry only their recorded results |
| CapsuleProvenance.ReceiptsAreNotShared | core/active_context_capsule.py:620-625 | creates for different chats or projects never reference the same receipt |
| CapsuleProvenance.CarriedClaimsWereStated | core/active_context_capsule.py:777-797 | in any run a carried decision (constraint) is what a decision (constraint) sentence of one of this chat's turns since its last erasure says, or was held by the chat before the run |
| UsePodPricing.CeilDivIsCeiling | core/usepod/pricing.py:179-180 | the rounding rule gives the least whole number of microunits that covers the exact amount |
| UsePodPricing.ChargeMonotone | core/usepod/pricing.py:183-190 | the charge bound grows with both token counts, at all rates |
| UsePodPricing.PreparedChargeIsExact | adapters/usepod_adapter.py:548-566 | the prepared charge is the least whole number of microunits that covers the body's bytes plus 512 at the input rate and the output ceiling at the output rate |
| UsePodPricing.SettlementSaysUsage | adapters/usepod_adapter.py:670-707 | a settlement carries the prompt and completion tokens its usage reports, and the least whole charge that covers them at their own rates |
| UsePodPricing.EstimateSaysUsage | adapters/usepod_adapter.py:773-790 | the cost estimate is that charge, or the reserved amount where the usage is not reported |
| UsePodPricing.FlagOfPartialUsage | adapters/usepod_adapter.py:680-707 | with a count missing the exceeds flag answers for the other alone, and the estimate is the whole reservation |
| UsePodPricing.SettlementWithinReservation | adapters/usepod_adapter.py:670-707 | unless usage is flagged as exceeding the bound, the settlement's upper bound and the cost estimate are at most the reserved amount |
| UsePodPricing.PreparedLiabilityIsPositive | adapters/usepod_adapter.py:548-556 | a prepared dispatch always reserves at least one microunit, at its own rates and ceilings |
| UsePodAuthority.MonetaryAuthority.Append | core/usepod/monetary.py:8-20 | the authority's contract: a record its state admits is appended to that operation's trace and to no other |
| UsePodCall.UsePodAdapter.ReservePrepaid | adapters/usepod_adapter.py:602-637 | a granted reservation holds exactly the charge bound; a refused one records nothing |
| UsePodCall.UsePodAdapter.RetainUnknown | adapters/usepod_adapter.py:792-794 | a held liability becomes unknown with the evidence given |
| UsePodCall.UsePodAdapter.Settle | adapters/usepod_adapter.py:966-973 | settles with the evidence, or, when the authority refuses, records nothing and says so |
| UsePodCall.UsePodAdapter.SettleAdmissionRefusal | adapters/usepod_adapter.py:796-811 | leaves exactly one record: the settlement at zero, or the held unknown |
| UsePodCall.UsePodAdapter.Authorize | adapters/usepod_adapter.py:836-858 | the claim is held exactly when reserve, seal, permit and claim all pass; otherwise the trace is already complete |
| UsePodCall.UsePodAdapter.Send | adapters/usepod_adapter.py:859-882 | an answered, recorded dispatch, or the release or retention that ends the call |
| UsePodCall.UsePodAdapter.Dispatch | adapters/usepod_adapter.py:836-882 | returns a response only with the dispatch recorded; on every other path the trace is already complete |
| UsePodCall.UsePodAdapter.RouteGate | adapters/usepod_adapter.py:919-964 | passes exactly 2xx responses of a compliant route; anything else leaves its one terminal |
| UsePodCall.ErrorCodeMeans | core/usepod/transport.py:486-507 | the code of every status that is no success |
| UsePodCall.UsePodAdapter.Invoke | adapters/usepod_adapter.py:1181-1219 | the trace a buffered call leaves on every path, with other operations' traces untouched; an answer is returned exactly when, past the gate, the reply is usable and its usage can be read |
| UsePodCall.ExactlyOneTerminalIff | adapters/usepod_adapter.py:836-973 | a call that holds its reservation never leaves two terminals, and leaves exactly one if and only if its usage can be read and its settlement is accepted; with none, the liability is still pending |
| UsePodCall.NumericUsageLeavesNoTerminal | adapters/usepod_adapter.py:1218-1219 | a usable reply whose usage is the number 7 leaves no terminal record |
| UsePodCall.UnclaimedTraces | adapters/usepod_adapter.py:836-858 | a call that is not granted its claim leaves its reservation and the release of it, nothing when it reserved nothing, and no release after a conflict |
| UsePodCall.UnrecordedDispatchTraces | adapters/usepod_adapter.py:859-882 | the trace of a request that was refused by the transport, lost, or answered without its dispatch being recorded |
| UsePodCall.RefusedAnswerTraces | adapters/usepod_adapter.py:919-945 | the trace of an answer that is no success: zero for an accepted 401 or 402, retained otherwise |
| UsePodCall.OffRouteAnswerTraces | adapters/usepod_adapter.py:946-964 | the trace of a success off the approved route: retained with the usage its body reports |
| UsePodCall.BufferedAnswerTraces | adapters/usepod_adapter.py:1198-1219 | the trace of a buffered success: settled on the usage it reports, retained if unreadable |
| UsePodCall.ReleasedIffUnsent | adapters/usepod_adapter.py:843-868 | buffered or streamed, the liability is released as unsent if and only if the call held it and the request cannot have left |
| UsePodCall.SettledOnlyAfterDispatch | adapters/usepod_adapter.py:875-882 | buffered or streamed, every settlement comes after the dispatch record |
| UsePodCall.ZeroOnlyForAdmissionRefusals | core/usepod/money_law.py:67-68 | only a 401 or a 402, under its documented code, is settled at zero |
| UsePodCall.RecordedCostWithinReservation | adapters/usepod_adapter.py:670-707 | buffered or streamed, whatever a call settles or retains is, unless flagged, at most what it reserved |
| UsePodCall.BufferedCallKeepsMoneyLaw | adapters/usepod_adapter.py:1181-1219 | the four laws of every buffered call |
| UsePodStream.StreamedCallKeepsMoneyLaw | adapters/usepod_adapter.py:1235-1319 | the four laws of every streamed call: started or not, finished, broken off, cancelled or abandoned |
| UsePodStream.StreamReader.StreamChunks | adapters/usepod_adapter.py:1241-1342 | what the generator does, in order: the done chunk is its last event, right after the settlement was offered, and only a finished stream has one; the records are those of the events |
| UsePodStream.StreamReader.ReadLines | adapters/usepod_adapter.py:1257-1293 | the loop: chunks, usage and end are those of the walk over the lines |
| UsePodStream.StreamReader.StreamCall | adapters/usepod_adapter.py:1235-1239 | the whole trace and the events of a streamed call, started or not |
| UsePodStream.StreamedTexts | adapters/usepod_adapter.py:1257-1293 | the text chunks are the event texts before the terminator, all of them unless interrupted and then a prefix; a finished stream had a terminator and one that ran out had none |
| UsePodStream.StreamSettlesOnLastUsage | adapters/usepod_adapter.py:1257-1342 | the settlement, the done chunk and the retained evidence carry the last usage reported before the place where the stream ended, and none if there was none |
| UsePodStream.StreamEndsOneWay | adapters/usepod_adapter.py:1257-1317 | which line ends a stream, and how, by the kinds of the lines before it |
| UsePodStream.LineMeans | adapters/openai_compatible_adapter.py:2863-2875 | what each line of a stream is: nothing, the terminator, an event with its text and usage, or unreadable |
| UsePodStream.LabelIsOptional | adapters/openai_compatible_adapter.py:2863-2875 | a line says the same with and without its `data:` label |
| UsePodStream.BlankLineMeans | adapters/openai_compatible_adapter.py:2863-2868 | a blank line, or a label alone, says nothing |
| UsePodStream.FinishedIffTerminator | adapters/usepod_adapter.py:1257-1317 | a stream finishes if and only if it holds a terminator and nothing before it interrupts: no cancellation, unreadable event or consumer that stops |
| UsePodStream.StreamTerminalIff | adapters/usepod_adapter.py:1241-1322 | exactly one terminal if and only if, past the gate, the generator is started and a finished stream's settlement is accepted; never two |
| UsePodStream.IncompleteStreamIsRetained | adapters/usepod_adapter.py:1292-1305 | a stream without the terminator is retained as unknown |
| UsePodResume.SoundReadersExist | core/usepod/transport.py:1342-1352 | the assumptions on writing and reading texts can be met |
| UsePodResume.ApprovalReadsBack | adapters/usepod_adapter.py:1366-1388 | the approval rebuilt from the context is the one bound at dispatch, through every conversion on the way |
| UsePodResume.EnvelopeReadsBack | core/usepod/transport.py:1188-1209 | the envelope rebuilt from its record is the one sealed, down to its bytes and output ceiling; one that fails its own checks is refused |
| UsePodResume.EnvelopeIsRebuiltIff | core/usepod/transport.py:229-244 | exactly which sealed envelopes are rebuilt |
| UsePodResume.RebuiltBytesAreSealed | core/usepod/transport.py:1201-1209 | whatever was done to its record, an envelope that is rebuilt under the sealed binding sends the sealed bytes to the sealed path |
| UsePodResume.ResumeAgreesWithDispatch | adapters/usepod_adapter.py:1046-1107 | the plan rebuilt from the two recorded texts is the dispatched one: same token counts, cost bound and exceeds flag for every reply |
| UsePodResume.ResumedCallSettlesAsPrepared | adapters/usepod_adapter.py:1046-1107 | a resumed operation settles at the prices, bounds and amount its dispatch prepared |
| Curation.CurateAdaptationRows | core/adaptation_dataset.py:520-611 | score, rank, select under the caps, restore input order; every counter counts the rows returned, or the rows dropped at one step |
| Curation.ScoreRows | core/adaptation_dataset.py:529-539 | the rows that reach their minimum score, and how many do not |
| CurationFacts.EligibleHoldsEvery | core/adaptation_dataset.py:531-539 | no row that reaches its minimum score is left out of the ranking |
| Curation.CountersByIndex | core/adaptation_dataset.py:571-588 | counting in rank order counts the rows in input order |
| Curation.SelectRanked | core/adaptation_dataset.py:548-586 | the loop with its running counts keeps and drops what the caps say, and stops at the size cap |
| CurationFacts.RankedIsRanked | core/adaptation_dataset.py:540 | the ranking is strictly ordered by score, time key and index |
| CurationFacts.RankingFallsInScore | core/adaptation_dataset.py:540 | along the ranking scores never rise, at equal scores time keys never fall, and at equal keys the input order is kept |
| CurationFacts.RankedIffScoresEnough | core/adaptation_dataset.py:531-539 | a row is ranked if and only if it scores at least its minimum, 0.34, or 0.38 for conversation, unless configured otherwise |
| CurationFacts.SizeCapKeepsTheBest | core/adaptation_dataset.py:559-561 | whatever the size cap leaves out scores at most what every kept row scores |
| CurationFacts.ChoiceMeans | core/adaptation_dataset.py:559-568 | what becomes of the row at each rank, in numbers of rows taken before it |
| CurationFacts.TallyIsSize | core/adaptation_dataset.py:559-568 | each drop counter is the number of rows dropped for its reason |
| CurationFacts.ConversationCapAsConfigured | core/adaptation_dataset.py:541-545 | the conversation cap is the whole part of the configured share, 0.55, of the rows allowed or scored, and at least 2 |
| CurationFacts.ConversationCapIff | core/adaptation_dataset.py:541-545 | there is a conversation cap if and only if something else was scored |
| CurationFacts.CapsAsConfigured | core/adaptation_dataset.py:546-547 | the size and duplicate caps as configured, with their defaults and least values |
| CurationFacts.SignalCounts | core/adaptation_dataset.py:572-577 | the high-signal, archive and eligible counters are numbers of returned rows |
| CurationFacts.ProofCounts | core/adaptation_dataset.py:578-584 | so are the proof-backed, finalized and commons counters |
| CurationFacts.RankedIsPermutation | core/adaptation_dataset.py:540 | ranking only reorders |
| CurationFacts.SelectionIsTheGreedyOne | core/adaptation_dataset.py:559-587 | the selection takes each row exactly when the chosen rows ranked before it leave room under every cap, and is the only one that does |
| CurationFacts.SelectionIsMaximal | core/adaptation_dataset.py:559-568 | without a size cap, adding back any dropped row breaks a cap, and a row dropped as a duplicate has cap-many kept rows of its fingerprint ranked before it |
| CurationFacts.DuplicateCapHolds | core/adaptation_dataset.py:565-568 | a kept row has fewer kept rows of its fingerprint before it than its source is allowed |
| CurationFacts.CuratedDuplicatesCapped | core/adaptation_dataset.py:565-568 | of one output fingerprint the result holds no more rows than the largest duplicate cap among the sources of those rows |
| CurationFacts.CuratedRespectsCaps | core/adaptation_dataset.py:541-564 | the result respects the size and conversation caps as configured |
| CurationFacts.CuratedIsSubsequence | core/adaptation_dataset.py:587-588 | the result is a subsequence of the normalised input, in input order, of rows reaching their minimum score |
| CurationFacts.TalliesAddUp | core/adaptation_dataset.py:559-587 | every ranked row meets one fate; only a size cap leaves rows unlooked at |
| CurationFacts.CountsAddUpToInput | core/adaptation_dataset.py:591-598 | without a size cap, kept rows and the three drop counters add up to the input |
| ReasoningRetry.Process.Invoke | adapters/openai_compatible_adapter.py:503-547 | the two nested loops: every post's reasoning form, the resends, and what is learned |
| ReasoningRetry.CallIsOneRun | adapters/openai_compatible_adapter.py:503-547 | a call is one run of posts: which post follows which outcome, and that it returns exactly when one is usable |
| ReasoningRetry.CallLearnsIff | adapters/openai_compatible_adapter.py:1485-1517 | exactly when a call learns that its key refuses a disabled form |
| ReasoningRetry.CallIsBounded | adapters/openai_compatible_adapter.py:503-547 | at most one post an attempt plus one resend, so at most three; at most one downgrade, which every later post keeps |
| ReasoningRetry.EachKeyResendsOnce | adapters/openai_compatible_adapter.py:1485-1517 | over any sequential run each key causes at most one refusal resend, and one exactly when the run learned it; all posts together are at most the attempts plus the learned keys |
| ReasoningRetry.LowestEffortIsLowest | adapters/openai_compatible_adapter.py:91-98 | the downgrade is never "none" and is the cheapest published level above it, or "low" when none is published |
| OllamaToolCalls.ExtractToolCalls | adapters/openai_compatible_adapter.py:2749-2817 | a batch is accepted if and only if every entry is well formed and offered, ids are distinct, and so are the signatures of id-less calls; length and order are kept; the error is that of the first entry that fails |
| OllamaToolCalls.AcceptedIffCallsDiffer | adapters/openai_compatible_adapter.py:2795-2806 | a batch is accepted if and only if its entries are well formed and no two calls share an id or, without ids, both name and arguments: distinct calls are never taken for duplicates |
| OllamaToolCalls.ArgumentsMean | adapters/openai_compatible_adapter.py:2820-2850 | the arguments read are the object given or the one the argument text spells, and nothing else is accepted |
| OllamaToolCalls.EntryMeans | adapters/openai_compatible_adapter.py:2773-2817 | the name, id and arguments of an accepted entry, plain or wrapped |
| OllamaToolCalls.PlainBatchReadsTheSame | adapters/openai_compatible_adapter.py:2785-2850 | dropping wrappers and replacing argument text by the object it spells changes neither acceptance nor the calls |
| MissionSlots.MissionLog.UpsertSlots | core/active_mission.py:184-226 | the table after an upsert, and the number of slots found changed when their turn came |
| MissionSlots.MissionLog.CurrentSlots | core/active_mission.py:229-246 | each live row of the session that is no obsolete rule, once, newest first |
| MissionSlots.RunShowsLastValues | core/active_mission.py:184-226 | after any run each (session, slot) has at most one live row, the live rows are the last values written, and the table has as many rows as the upserts, counting changed slots, returned |
| MissionSlots.RunIsLinked | core/active_mission.py:211-226 | in any run each row is superseded by the next row of its session and slot, at the time and in the turn of that row, which says something else; only the latest row is current |
| MissionSlots.RowsSayWhatWasWritten | core/active_mission.py:216-226 | every row holds a slot, session, turn, time and source, cut to 500 characters, of one upsert |
| MissionSlots.VisibleIff | core/active_mission.py:229-246 | what is shown of a session is each live row that is no obsolete rule, and no other |
| MissionSlots.SupersededStaySuperseded | core/active_mission.py:211-215 | a superseded row stays as it is and in place; no row is removed or otherwise rewritten |
| MissionSlots.RewritingChangesNothing | core/active_mission.py:208-210 | writing the current values again changes nothing and returns zero |
| CatalogueCache.Catalogue.StoreInMemory | core/addon_discovery.py:155-157 | the eviction loop keeps the newest 32 in insertion order |
| CatalogueCache.Catalogue.Api | core/addon_discovery.py:140-158 | memory hit, disk hit, or the origin's answer stored in both tiers; a failed lookup stores nothing |
| CatalogueCache.HitsWereAnsweredRecently | core/addon_discovery.py:59-67 | under any interleaving, loss, eviction and clock change, a value from either tier was answered for the same path less than 600 seconds ago, plus the delay before it was stored and, on disk, the time the wall clock is set back; memory holds at most 32 entries |
| CatalogueCache.ServesWithinIff | core/addon_discovery.py:140-158 | a bound of 600 seconds or more on the age of what is served holds of every run if and only if the storing delay and the set-back fit into what it adds |
| CatalogueCache.SixHundredSecondsIff | core/addon_discovery.py:140-158 | the promised 600 seconds hold of every run if and only if answers are stored with no delay and the wall clock is not set back |
| CatalogueCache.StoringLateServesOlder | core/addon_discovery.py:140-158 | an answer stored 100 seconds late is still served at the age of 699 seconds, and after the wall clock was set back by an hour one is served at 4,199 |
| CatalogueCache.StoredAnswerIsFound | core/addon_discovery.py:155-157 | eviction never removes the answer just stored |
| CatalogueCache.PutKeepsPlaces | core/addon_discovery.py:155 | storing for a known path replaces the entry in its place, storing for a new one adds it last |
| CatalogueCache.StoredAnswerIsServed | core/addon_discovery.py:140-156 | an answer stored in memory is served for 600 seconds unless the process restarts, a newer one for its path is stored, or more answers are stored than the places before it and the free ones, 31 for a new path |
| CatalogueCache.StoredRecordIsServed | core/addon_discovery.py:59-67 | an answer stored on disk is served for 600 seconds of the wall clock unless its file is lost or written again |
| CatalogueCache.ApiStoresAreSteps | core/addon_discovery.py:155-158 | what `_api` stores is what the steps of a run store, with any time between them |
| NameRegistry.Registry.ClaimName | core/agent_name_registry.py:56-111 | claims a valid free name for an unnamed peer; refused, changes nothing |
| NameRegistry.Registry.ReassignName | core/agent_name_registry.py:114-165 | claims, or replaces the peer's name unless another peer holds it; refused, changes nothing |
| NameRegistry.Registry.ReleaseName | core/agent_name_registry.py:168-193 | frees the peer's name; refused, changes nothing |
| NameRegistry.RunKeepsOneToOne | core/agent_name_registry.py:56-193 | over any run peers and canonical names stay one to one |
| NameRegistry.AllowedIff | core/agent_name_registry.py:56-193 | exactly which claims, reassignments and releases are carried out |
| NameRegistry.ValidNameIff | core/agent_name_registry.py:36-53 | which names are valid |
| NameRegistry.NamingSetsTheName | core/agent_name_registry.py:56-165 | after a claim or reassignment that is carried out the peer is named so, and no other peer's name changed |
| NameRegistry.ReleaseFreesTheName | core/agent_name_registry.py:168-193 | after a release the peer has no name, its name is free, and no other name changed |
| NameRegistry.LookupsAreInverse | core/agent_name_registry.py:196-224 | a named peer is found under its name, and whoever is found under a name bears it up to case and surrounding space |
| NameRegistry.CaseVariantsBelongToOnePeer | core/agent_name_registry.py:23-29 | names that differ only in case never belong to two peers |

## Left out

- UsePodCall.ExactlyOneTerminalIff: assumes, beside its two stated conditions, that the transport fails only with its typed error and that record calls the adapter does not guard succeed.
- UsePodResume.ResumeAgreesWithDispatch: leaves out the recorded quote, proof and liability, which the wallet-paid client reads back.
- CatalogueCache.HitsWereAnsweredRecently: leaves the signature over disk records to the assumption that a readable record is one that was written.
- MissionSlots.MissionLog.CurrentSlots: takes the recognition of obsolete forbidden-term rules as given; a slot's confidence is not carried.
- CapsuleTamper.TamperingRaisesIff: text that is not valid UTF-8, on which the SQLite driver itself raises while it reads any column, is not modelled.
- CapsuleReceipts.VerifiedReceiptIsBound: what `dict` makes of a list in place of an action record is a given function to text keys; a record with other keys is not modelled.
- CapsuleEmission.EmittedReceiptVerifiesIff: takes the event's texts and parameters as already cleaned; what redaction changes when the receipt is stored, and receipts held only in memory for private chats, are not modelled.
- CapsuleRuns.MigratedTablesAreFounded: assumes what the schema's keys give, that version ids are unique and that every head belongs to a chat with rows, and that no version id is empty.
- NameRegistry.RunKeepsOneToOne: treats each operation as one atomic step; the UNIQUE constraints that guard two interleaved claims are not modelled as a race.
- The x402 (wallet-paid) dispatch, its journal, chain confirmation and service fee: they live in clients outside the modelled files; only the resume context is modelled.
- The Anthropic stream assembler: the stream model is the OpenAI-protocol branch; finish reasons, attested models and response metadata on chunks are not carried.
- `_evidence`, `call_receipt` and error evidence: reporting built from values the model already has.
- `_prepare` before the charge bound, and `_request` with its cooldown and two slots: single-branch checks.
- `ensure_active_capsule_schema` apart from the migration and its missing-hash check; the erasure's early exits for absent tables.
- Recognizing decisions, constraints, mission slots and forbidden terms in text: the results are inputs.
- The sorted order of receipt ids is an input; the migration visits chats by first appearance rather than by name, which can only change which of several errors is reported.
- The rounded conversation ratio of curation, and the quality score: arithmetic on counts the model already has.
- `list_capsule_versions`, `rebuild_shadow_capsule`, `list_agent_names`, name validation messages and audit logging.
