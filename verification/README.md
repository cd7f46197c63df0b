# Nanci: the model and its theorems

Nanci downloads Brazilian fiscal documents (NF-e, CT-e, NFS-e) from government queues addressed by an
increasing sequence number, the NSU. This project models the parts of it whose correctness spans many
calls, and proves their properties for every input, every history and every reachable state.
`dafny verify dfyconfig.toml` checks everything.

**The BER normalizer** (`Asn1`, `BerGrammar`, `BerReader`, `BerReaderProofs`, `BerWriter`,
`BerNormalizer`, `BerDepth`). PKCS#12 files come in BER, the decoder wants definite, minimal lengths. `BerGrammar`
is an independent grammar: derivation trees that keep every encoding choice, what each prints and what
it denotes, after ITU-T X.690, sections 8.1.2, 8.1.3, 8.7, 10.1 and 10.2. The reader is proved to accept
exactly that grammar, the writer to print exactly its distinguished derivations, and the class with the
mutable flag to compute both. Only lengths and OCTET STRINGs are normalized: the order of a SET and the value of a
BOOLEAN stay as they are, so this is not full DER.

**The pull loop** (`PullProtocol`, `PullSources`, `PullStore`, `PullLoop`). `PullProtocol` is the protocol
of the stored cursor as events over one queue; a history is legal when every event was allowed, and a crash is
a history that stops anywhere and starts again. `PullSources` turns answers into batches and says
exactly which answers are honest. `PullLoop` is the loop itself over the mutable rows of `PullStore`; what
the authority answers, which item can be read, which transaction fails and when the user cancels are left
nondeterministic, and a ghost log remembers them, so that a run without error is tied to its last answer
and a run with one to what went wrong. NSUs are 64-bit integers.

**The request gate** (`RequestGate`, `SourceStore`). When a source may be queried: the hourly budget and
the waits the authority imposes. Times are whole seconds, as stored, and never go back. `SourceStore`
holds the shared tables and proves that any interleaving over companies gives each a legal history.

**Documents and events of an NF-e** (`NfeTypes`, `NfeMerge`, `NfeManifestacao`, `NfeStore`,
`NfeStoreProofs`, `NfeText`, `NfeHistory`, `NfeOrder`, `NfePull`, `NfeLifetime`, `NfeRepository`, `CteMerge`).
Situação and manifestação are caches; the store is consistent when each equals its recomputation from the event rows. `NfeStore` has the tables
and each transaction as a function, `NfeRepository` the same transactions as statements that update fields.

**Company reset** (`DfeReset`), **manifestações** (`NfeManifest`, `NfeAnswers`, `NfeCiencia`), **check digits**
(`CheckDigits`, `AccessKey`) and **log rotation** (`LogRotation`).

Where a claim needs a condition, the condition is a theorem too:

- A wait after catching up is not always kept: a lookup by chave ignores it, and when it finds the budget
  spent it replaces the wait with a shorter one. `RequestGate.ShortenedWaitExactly` says when a pull can
  then query early, `RequestGate.AWaitCanBeShortened` gives a history.
- The NF-e and CT-e loops do not sort: `PullProtocol.CrashSafeExactlyWhenAscending` and
  `PullSources.DeliveryHonestExactly` say what they need of the authority. An answer without documents
  still moves the cursor to its ultNSU (`PullSources.EmptyAnswerHonestExactly`).
- The stored cursor can go back: a reset deletes it, and a first setup commits from the start again. Nothing
  else lowers it (`PullProtocol.LoweredExactly`, `PullProtocol.OnlyFirstSetupLowers`).
- A slot of the budget is free one second after the stored `blocked_until`, not at it. The budget bounds
  payments; a request may be sent later than it is paid for, so an hour may hold 21 sends, and
  `RequestGate.OverLimitExactly` says when it does.
- The resumo of an event and its completa may carry different times; the completa's stands, in whatever order
  they arrive (`NfeHistory.RunTells`).
- Conclusive manifestações of different kinds at one known time are settled by the listing; only when all
  of a company's conclusive events lack a time can the order of arrival change what it is shown
  (`NfeOrder.OrderMattersExactlyWhenUntimed`). The listing orders texts (`NfeText.TextBeforeIsTextLess`), so
  across UTC offsets it is not the order of the instants.
- A registered manifestação whose answer could not be recorded leaves the plan open, so the company may send
  another (`NfeManifest.OpenExactlyWhenUnrecorded`).
- An event of another author that is pulled before its document is skipped, a cancelamento included
  (`NfePull.CancelledExactly`).
- The normalized file may be longer than the input, so the size bound is on three times the input.

## Model

| member | source | states |
|---|---|---|
| `BerNormalizer.NormalizePreservesMeaning` | internal/foundation/cert/ber.go:62-88 | normalization succeeds exactly on the SEQUENCEs of the grammar that fill the input; input and output then denote one object, and the output has only minimal definite lengths and no constructed OCTET STRING |
| `BerDepth.NestingLimit` | internal/foundation/cert/ber.go:95-98 | of the SEQUENCEs that fill the input, however deep they nest, exactly those with at most 64 levels below the root are normalized, and every other one is refused as too deep |
| `BerDepth.TooHigh` | internal/foundation/cert/ber.go:95-98 | any derivation that reaches below level 64 is refused as too deep, wherever it is printed and whatever comes before the level that is too deep |
| `BerNormalizer.ChangedMeansDifferent` | internal/foundation/cert/ber.go:81-87 | the returned flag, and the reader's own flag alone, are true exactly when the octets differ |
| `BerNormalizer.NormalizeIdempotent` | internal/foundation/cert/ber.go:62-88 | normalizing the output succeeds, returns it and reports no change |
| `BerNormalizer.NormalFormIsCanonical` | internal/foundation/cert/ber.go:62-88 | two inputs get the same output if and only if they mean the same |
| `BerNormalizer.EncodeInjective` | internal/foundation/cert/ber.go:22-53 | different objects the reader can return are written differently |
| `BerNormalizer.WrittenIsReadBack` | internal/foundation/cert/ber.go:22-53 | what the writer writes, between any other octets, is read back as the same object, up to its end, unchanged |
| `BerNormalizer.UnchangedIsWrittenBack` | internal/foundation/cert/ber.go:155-233 | an object read without change is written as the very octets it came from |
| `BerNormalizer.NormalizationSize` | internal/foundation/cert/ber.go:62-88 | the output is never three times as long as the input, so within that bound the length guard of the writer cannot fire |
| `BerNormalizer.DistinguishedIsDerTree` | internal/foundation/cert/ber.go:22-53 | the derivation with minimal definite lengths and primitive strings is unique: it is the one the writer prints |
| `BerNormalizer.NormalizePKCS12BER` | internal/foundation/cert/ber.go:62-88 | the entry point computes the specified outcome, errors included, through the imperative reader and writer |
| `BerNormalizer.BerParser.ReadObject` | internal/foundation/cert/ber.go:95-236 | the recursive reader with its mutable flag agrees with the specification reader: value, end offset, error and change |
| `BerNormalizer.BerParser.ReadForest` | internal/foundation/cert/ber.go:180-222 | the children loop agrees with the specification, and the no-progress guard never fires in it |
| `BerNormalizer.BerParser.ParseTag` | internal/foundation/cert/ber.go:101-132 | the tag loop agrees with the specification |
| `BerNormalizer.BerParser.ParseLength` | internal/foundation/cert/ber.go:134-172 | the length loop agrees with the specification and sets the flag exactly on non-minimal definite lengths |
| `BerNormalizer.BerParser.FlattenOctetStrings` | internal/foundation/cert/ber.go:238-250 | chunks are concatenated in order, or refused when one is not a primitive OCTET STRING |
| `BerReaderProofs.ReaderAcceptsExactlyTheGrammar` | internal/foundation/cert/ber.go:95-236 | at any offset and depth the reader succeeds exactly when a well-formed derivation is printed there, with its meaning and its end, and flags change exactly when that derivation is not distinguished |
| `BerReaderProofs.GrammarUnambiguous` | internal/foundation/cert/ber.go:95-236 | one derivation printed as a prefix of another is as long and means the same |
| `BerReaderProofs.HighTagComplete` | internal/foundation/cert/ber.go:111-132 | the high-tag overflow guard rejects exactly the numbers from 2 to the 63 on |
| `BerReaderProofs.LengthOctetsRead` | internal/foundation/cert/ber.go:147-172 | the length overflow guard rejects exactly the lengths from 2 to the 63 on |
| `BerReaderProofs.TagComplete` | internal/foundation/cert/ber.go:101-132 | every valid identifier is read as its number and end |
| `BerReaderProofs.TagSound` | internal/foundation/cert/ber.go:101-132 | every tag read is a valid identifier spelled there |
| `BerReaderProofs.LengthComplete` | internal/foundation/cert/ber.go:134-172 | every valid length form is read as its value, and flagged exactly when not minimal |
| `BerReaderProofs.LengthSound` | internal/foundation/cert/ber.go:134-172 | every length read is a valid length form spelled there |
| `BerReaderProofs.Complete` | internal/foundation/cert/ber.go:95-236 | every well-formed derivation is read as what it denotes, to its end |
| `BerReaderProofs.Sound` | internal/foundation/cert/ber.go:95-236 | every success of the reader comes from a well-formed derivation |
| `BerReader.Read` | internal/foundation/cert/ber.go:95-236 | a successful read moves forward and stays inside the data |
| `BerWriter.EncodeLength` | internal/foundation/cert/ber.go:252-274 | the writer emits the shortest definite form of any length |
| `BerWriter.EncodeTo` | internal/foundation/cert/ber.go:22-53 | the buffer gains exactly the encoding of the object |
| `BerWriter.CountBytes` | internal/foundation/cert/ber.go:262-266 | counts the base-256 digits of the length |
| `BerWriter.WriteBytes` | internal/foundation/cert/ber.go:267-272 | writes those digits, most significant first |
| `Asn1.ShortestLengthIsMinimal` | internal/foundation/cert/ber.go:252-274 | the form written is minimal for its value |
| `Asn1.MinimalLengthIsShortest` | internal/foundation/cert/ber.go:155-177 | a minimal definite form is the one the writer would choose |
| `Asn1.DigitsUnique` | internal/foundation/cert/ber.go:252-274 | a number has one base-256 spelling without leading zero |
| `Asn1.IdentifierFields` | internal/foundation/cert/ber.go:103-108 | the tests on an identifier octet see the class, the constructed bit and the number it is made of |
| `PullProtocol.NoItemIsLost` | internal/sync/loop.go:299-367 | over any runs in any mode, with failures, cancels and crashes between transactions, every queue item up to the stored cursor was committed |
| `PullProtocol.CursorNeverGoesBack` | internal/sync/loop.go:106-159 | from any moment at which nothing left to do lies behind the stored cursor, such as between two runs, and whatever came before it, the stored cursor never decreases while no first setup or reset follows |
| `PullProtocol.EachItemCommittedOnce` | internal/sync/loop.go:336-347 | over all the runs since such a moment, items are committed at most once, in NSU order and above the cursor stored then |
| `PullProtocol.CrashSafeExactlyWhenAscending` | internal/sync/dist.go:79-87 | a crash after any item leaves the rest to be fetched again exactly when items come in strictly ascending order |
| `PullProtocol.OmittedIsLostExactlyBehindTheCursor` | internal/sync/loop.go:336-367 | a batch run to its checkpoint commits exactly its fresh items; what the answer omits and no earlier run committed is lost if and only if the returned cursor lies past it |
| `PullProtocol.LostStaysLost` | internal/sync/loop.go:336-347 | since such a moment, what lies behind the cursor uncommitted is never committed later |
| `PullProtocol.LoweredExactly` | internal/sync/loop.go:106-109 | a step lowers the stored cursor if and only if it resets it from above 0 or commits an item behind it |
| `PullProtocol.OnlyFirstSetupLowers` | internal/sync/loop.go:106-109 | and only a run begun as a first setup commits an item behind it, whatever runs and resets came before |
| `PullProtocol.FirstSetupMovesBack` | internal/sync/loop.go:106-109 | a history in which a first setup moves the stored cursor back |
| `PullProtocol.AttemptsAreConsecutive` | internal/sync/store.go:691-714 | the stored attempts are exactly the length of the last streak of failures of that NSU |
| `PullProtocol.PoisonOnlyAfterThreeFailures` | internal/sync/loop.go:467-503 | an item is given up, as unsupported, only when the last three recorded failures were its own |
| `PullProtocol.ThirdFailureDoesNotStop` | internal/sync/loop.go:484-503 | a recorded failure ends the run in the protocol exactly while fewer than three in a row are recorded |
| `PullProtocol.ThreeFailuresMovePast` | internal/sync/loop.go:467-503 | when the last three recorded failures are of one item and none was cut short, it was committed; the stored cursor is past it when the last failure came after a moment as in CursorNeverGoesBack |
| `PullProtocol.FinishedIsComplete` | internal/sync/loop.go:349-367 | after a checkpointed batch the whole queue up to its next cursor is committed |
| `PullSources.DistBatch` | internal/sync/dist.go:69-108 | the stop rules: items, next cursor, stop reason and wait by cStat; anything else is the rejection |
| `PullSources.DeliveryHonestExactly` | internal/sync/dist.go:69-92 | delivered documents lose nothing exactly when they are complete, ascending and at most ultNSU |
| `PullSources.EmptyAnswerHonestExactly` | internal/sync/dist.go:93-104 | an answer without documents (137 or 656) loses nothing exactly when the queue is empty up to its ultNSU |
| `PullSources.NfseFetch` | internal/sync/source_nfse.go:61-102 | the batch is a sorted permutation, its cursor the highest NSU, and only an empty one ends the run |
| `PullSources.NfseHonestExactly` | internal/sync/source_nfse.go:61-102 | an NFS-e answer loses nothing exactly when it is complete and repeats no new NSU, whatever its order |
| `PullStore.Database.NothingLost` | internal/sync/store.go:405-430 | the rows the loop writes: everything queued up to last_checked_nsu was committed |
| `PullStore.Database.CaughtUpIsComplete` | internal/sync/loop.go:349-367 | after a run whose last batch was checkpointed everything queued up to its next cursor is committed and the stored cursor is at least that |
| `PullStore.Database.ThirdUnreadableRunMovesPast` | internal/sync/loop.go:416-503 | a run in which an item was the last to be unreadable, a second in which it alone was and a third that meets it first, with no failed transaction: the third commits it whatever else it meets, and, in normal mode with its answers in order, leaves the stored cursor past it |
| `PullStore.Database.PersistProgress` | internal/sync/store.go:247-353 | a checkpoint writes state and run rows with the COALESCE rules of the statements, or nothing |
| `PullStore.Database.ApplyWithProgress` | internal/sync/store.go:405-430 | item and checkpoint in one transaction, documents_found raised for an inserted document, or nothing |
| `PullStore.Database.RecordItemFailure` | internal/sync/store.go:691-714 | one more failure in a row, starting over at another NSU |
| `PullStore.Database.GetOrCreateState` | internal/sync/store.go:35-69 | the stored cursor, or a fresh row at 0 |
| `PullLoop.SyncService.Sync` | internal/sync/loop.go:38-175 | a whole run follows the protocol in the stated mode; without error every returned item is accounted for, the counters are those of its answers and the run ended for a stated reason, with an error something is on record that went wrong; the run row tells status, stop reason and last counters; every wait its answers brought is recorded unless recording it failed |
| `PullLoop.SyncService.Walk` | internal/sync/loop.go:111-160 | the loop ends because each non-final batch raises a bounded cursor; without error the last answer was final and stop is its reason, or did not raise the cursor, or the budget was found spent, and its items were all handled; the initial sync is marked exactly by a run that caught up |
| `PullLoop.SyncService.ProcessBatch` | internal/sync/loop.go:301-393 | one answer handled to its checkpoint, stored at least to its next cursor, with its count, empty streak, maximum and last found NSU and the last error cleared; an answer without new items reaches the rows too; the block its wait leaves is in place even when an item or the checkpoint then fails; the initial sync is marked exactly on catching up for the first time |
| `PullLoop.SyncService.PayForRequest` | internal/sync/loop.go:111-131 | a cancel is noticed before a request is paid for; only a budgeted source can find its budget spent |
| `PullLoop.SyncService.FetchBatch` | internal/sync/loop.go:301-334 | counts the answer and its items, keeps a positive maximum NSU, and records the wait before any item; the block it leaves refuses pulls until the wait ends, and lookups by chave too after consumo_indevido, but never after catching up |
| `PullLoop.SyncService.ProcessItems` | internal/sync/loop.go:336-347 | each item is stale or handled, once and in order; the last found NSU only grows |
| `PullLoop.SyncService.CheckpointBatch` | internal/sync/loop.go:349-367 | the run moves to the larger of cursor and last item, empty answers in a row are counted, and both rows are written with the whole run exactly when the cursor rose or the answer held no new item |
| `PullLoop.SyncService.MarkInitialSync` | internal/sync/loop.go:369-376 | the time is kept exactly when the answer ends with empty_limit or caught_up and none was kept, for this source alone |
| `PullLoop.SyncService.ProcessItem` | internal/sync/loop.go:398-465 | without error exactly one commit, one count, and rows that hold the run moved past the item; with an error no commit, the cursor before the item, the error counted and stored, and either something went wrong or the item was unreadable fewer than three times in a row |
| `PullLoop.SyncService.SkipPoisonItem` | internal/sync/loop.go:471-503 | the failure is recorded, and the item committed as unsupported if and only if it is the third in a row, unless a transaction fails |
| `PullLoop.RunState.Count` | internal/sync/loop.go:437-462 | exactly the heading of the outcome rises by one, and only documents move the resumo and completa counts |
| `PullLoop.SyncService.Pull` | internal/sync/manager.go:144-218 | refused exactly for a block in force, a reservation or a missing certificate, in that order and without effect; otherwise a run as Sync states it, status, counters and waits included, with a request sent for each answer of a budgeted source; a refused query is a fetch error and nothing else is; the block of its last answer stands, and the reservation is given back |
| `PullLoop.ThirdPullMovesPast` | internal/sync/manager.go:144-218 | so do three pulls, as the contract of Pull states each of them, when the third is in normal mode and its answers are in order |
| `PullLoop.AnswerWaitHolds` | internal/sync/loop.go:301-334 | the wait of an answer that a pull received and recorded: no request of that source is sent before it ends, when it is for consumo_indevido or the source is never looked up by chave |
| `PullLoop.LookupAfterPull` | internal/app/nfe_fetch.go:70-78 | a lookup by chave after a pull is never refused for the wait after catching up, and not let through before a consumo_indevido wait ends |
| `PullLoop.SyncService.ResetSyncState` | internal/sync/manager.go:515-542 | refused only while a pull holds the source; drops the cursor and the initial-sync flag whatever a crash left, and keeps the wait |
| `RequestGate.NeverOverBudget` | internal/sync/loop.go:246-276 | with pulls and lookups counted together and old rows pruned, no closed hour ever holds more than 20 payments |
| `RequestGate.SentPerHour` | internal/app/nfe_fetch.go:80-99 | no closed hour holds more than 20 sent requests, or 21 when one of them was paid for before it began |
| `RequestGate.SentExactly` | internal/app/nfe_fetch.go:80-99 | the sends of a closed hour are exactly those paid for in it, plus one for a request paid for before it |
| `RequestGate.OverLimitExactly` | internal/app/nfe_fetch.go:80-99 | a closed hour holds more than 20 sends if and only if 20 are paid for and sent in it and one was paid for before it |
| `RequestGate.PromptSendsPerHour` | internal/sync/loop.go:120-131 | 20 when every request is sent in the second it is paid for |
| `RequestGate.TwentyOneInAnHour` | internal/app/nfe_fetch.go:80-99 | a legal history with 21 sends in a closed hour |
| `RequestGate.SlotFreesOneSecondLater` | internal/sync/loop.go:253-262 | at blocked_until the budget is still full, one second later it is not |
| `RequestGate.ExhaustedBudgetIsRespected` | internal/sync/loop.go:253-262 | after an exhausted budget nobody sends up to and including blocked_until |
| `RequestGate.ConsumoIndevidoIsRespected` | internal/app/nfe_fetch.go:70-113 | a recorded consumo_indevido wait holds for pulls and lookups alike |
| `RequestGate.PullsAndResetsRespectWaits` | internal/sync/errors.go:38-46 | over pulls and resets alone nothing is sent before any recorded wait expires |
| `RequestGate.WaitsAreRespected` | internal/sync/errors.go:38-46 | with lookups too, pulls keep every wait no lookup has shortened |
| `RequestGate.ShortenedWaitExactly` | internal/sync/store.go:630-643 | a lookup whose spent budget replaces a longer wait lets a pull send before it ends if and only if the wait outlasts the new block by more than a second |
| `RequestGate.AWaitCanBeShortened` | internal/app/nfe_fetch.go:76-93 | a legal history in which that happens |
| `RequestGate.PruneKeepsRecent` | internal/sync/store.go:645-673 | pruning never changes a count over the retained period |
| `RequestGate.OldestSince` | internal/sync/store.go:675-689 | the oldest request at or after a time, if any |
| `SourceStore.EventAgrees` | internal/sync/store.go:630-689 | any interleaving over companies and sources keeps each one's history legal and the shared tables in step with all of them |
| `SourceStore.PruneRowsOf` | internal/sync/store.go:652-673 | pruning the shared table is pruning each source's rows |
| `SourceStore.Store.NoHourOverBudget` | internal/sync/store.go:652-689 | both bounds, on payments and on sends, for the shared tables as the callers leave them |
| `SourceStore.Store.WaitsHold` | internal/sync/manager.go:266-303 | over the shared tables, whatever else runs in between: after a recorded wait no request of that source is sent before it ends, when it is for consumo_indevido or the source is never looked up by chave |
| `SourceStore.Store.SpendRequest` | internal/sync/loop.go:246-276 | records one request or sets the budget block, by the closed-hour count |
| `SourceStore.Store.RequestsSince` | internal/sync/store.go:675-689 | count and oldest of one source only |
| `SourceStore.Store.RecordRequest` | internal/sync/store.go:645-673 | appends and prunes as the protocol step does: the requests of the last 24 hours stay, whoever made them, and no older ones |
| `SourceStore.Store.SetBlockedUntil` | internal/sync/store.go:630-643 | overwrites the block of one source and no other |
| `SourceStore.Store.BlockedFor` | internal/sync/manager.go:292-303 | the block in force, ignoring caught_up when only hard reasons count |
| `SourceStore.Store.ReserveSource` | internal/sync/manager.go:266-290 | a second reservation is refused, and a granted one finds the source free |
| `SourceStore.Store.FetchByChave` | internal/app/nfe_fetch.go:52-141 | what was done, in order, for each result: blocked, no certificate, budget spent, or one request paid for, sent and answered, with a wait only after a refusal; the reservation is given back |
| `SourceStore.Store.Restart` | internal/sync/manager.go:266-290 | a new process holds no reservation, and every source that was held is free |
| `NfeOrder.ArrivalOrderIsIrrelevant` | internal/store/nfe.go:53-121 | two histories with the same copies and events, in any order, with repetitions and stored at any times, show every company the same situação and manifestação, also when conclusive events share a known time and when the resumo of an event and its completa carry different times |
| `NfeOrder.OrderMattersExactlyWhenUntimed` | internal/store/nfe.go:391-455 | the order of arrival can change what a company sees if and only if its conclusive events, of more than one kind, all lack a time |
| `NfeHistory.RunConsistent` | internal/store/nfe.go:391-455 | after any arrivals and events each stored manifestação and cancelled situação equals its recomputation, links are exact and references resolve |
| `NfeHistory.UpsertTells` | internal/store/nfe.go:157-176 | one upsert keeps the rows at what stands of the copies seen: every completa, and a resumo only of an event without one |
| `NfeHistory.RunTells` | internal/store/queries/nfe.sql:85-112 | so after any arrivals in any order: a resumo never replaces a completa, a completa always replaces a resumo |
| `NfeLifetime.LiveConsistent` | internal/store/nfe.go:391-455 | the same over arrivals, events, recorded manifestações and company resets in any order |
| `NfeLifetime.RepullRestores` | internal/store/dfe.go:186-259 | a company that is reset and pulls its copies and the removed events again is shown exactly what it was shown before |
| `NfePull.PullIsRun` | internal/sync/source_dfe.go:73-113 | pulling is applying the items the policy keeps: documents, own events, and events after their document |
| `NfePull.CancelledExactly` | internal/sync/source_dfe.go:73-113 | a pulled NF-e shows as cancelled exactly when a copy says so or a registered cancelamento came after its document or was the company's own |
| `NfePull.SameKeptSameView` | internal/sync/source_dfe.go:73-113 | two pulls whose policy keeps the same items show every company the same, whatever the order in between |
| `NfePull.KeepItem` | internal/sync/source_dfe.go:73-113 | an event is skipped exactly when another wrote it and the company does not see its document |
| `NfeHistory.RunFacts` | internal/store/nfe.go:157-176 | the event rows of a chave tell exactly what stands of all that happened to it |
| `NfeHistory.RunSituacao` | internal/store/nfe.go:395-455 | the situação is the worst of all copies, or cancelled once a registered cancelamento happened |
| `NfeHistory.CancelledByType` | internal/nfe/merge.go:41-48 | once an event of type 110111 or 110112 is registered the NF-e shows as cancelada, whatever comes before or after |
| `NfeHistory.OtherTypesDoNotCancel` | internal/nfe/merge.go:41-48 | with registered events of other types only, the situação is the worst of the copies |
| `NfeHistory.RunSees` | internal/store/nfe.go:58-121 | a company sees a chave exactly when a copy of it arrived for the company |
| `NfeRepository.Repository.RefreshChave` | internal/store/nfe.go:391-455 | the statement sequence over the tables computes the recomputation |
| `NfeRepository.Repository.ApplyDocumentTx` | internal/store/nfe.go:53-121 | merges or inserts, relates, refreshes; inserted is true exactly when the company did not see it |
| `NfeRepository.Repository.ApplyEventTx` | internal/store/nfe.go:157-176 | upserts and refreshes; inserted is true exactly for a new event key |
| `NfeRepository.Repository.RecordManifestacoes` | internal/store/nfe.go:306-367 | one log row per outcome and an event only for registered ones or unknown already-registered ones |
| `NfeStoreProofs.UpsertRows` | internal/store/nfe.go:469-506 | only the row with the same key changes, otherwise one row is appended |
| `NfeStoreProofs.ListingIsSortedSelection` | internal/store/nfe.go:235-242 | the listing holds exactly the chave's events, ordered as the stored RFC 3339 texts are, then by type and sequence number |
| `NfeText.TextBeforeIsTextLess` | internal/store/queries/nfe.sql:117-120 | the order of the listing is that of the RFC 3339 texts, character by character: local time first, then offsets east of UTC, west of it and Z |
| `NfeText.CreationIsInUtc` | internal/store/queries/nfe.sql:117-120 | an event without times is listed by the creation of its row, written in UTC |
| `NfeStoreProofs.RefreshRestoresConsistency` | internal/store/nfe.go:391-455 | refreshing one chave restores the invariant there and disturbs no other |
| `NfeStoreProofs.DocumentInvariant` | internal/store/nfe.go:53-121 | every document transaction keeps the store consistent |
| `NfeStoreProofs.EventInvariant` | internal/store/nfe.go:157-176 | every event transaction keeps the store consistent |
| `NfeStoreProofs.RecordInvariant` | internal/store/nfe.go:306-367 | recording a lote keeps the store consistent |
| `NfeManifestacao.ManifestacaoAndTimeFromEvents` | internal/nfe/manifestacao.go:98-153 | the loop computes the declared meaning for every list, and its state names the kind of the event in force |
| `NfeManifestacao.DecidingDecides` | internal/nfe/manifestacao.go:105-153 | the event in force is the latest registered conclusive one of the company, ties to the later in the list |
| `NfeManifestacao.DecidesUnique` | internal/nfe/manifestacao.go:105-153 | and it is the only such event |
| `NfeManifestacao.ShownState` | internal/nfe/manifestacao.go:98-153 | confirmada, desconhecida or não realizada exactly when the event in force is of that kind; só ciência exactly when nothing conclusive counts and a ciência does |
| `NfeManifestacao.ShownTime` | internal/nfe/manifestacao.go:98-153 | the time shown is when SEFAZ registered the event in force, or else when it was declared |
| `NfeManifestacao.TypesThatCount` | internal/nfe/manifestacao.go:98-153 | by type number: 210200, 210220 and 210240 conclude and 210210 is ciência, when registered and written by the company; every other type changes nothing |
| `NfeManifestacao.EarliestIsEarliest` | internal/nfe/manifestacao.go:105-153 | the ciência time is the least known one |
| `NfeManifestacao.OrderDoesNotMatter` | internal/nfe/manifestacao.go:98-153 | lists with the same facts and distinct conclusive times agree |
| `NfeManifestacao.OrderMattersExactlyOnTies` | internal/nfe/manifestacao.go:98-153 | for a list in arbitrary order: every order gives the same state if and only if its latest conclusive events are of one kind |
| `NfeManifestacao.ConclusiveIsNeverUndone` | internal/nfe/manifestacao.go:98-153 | more events never undo a conclusive state nor move its time back |
| `NfeMerge.MergeInto` | internal/nfe/merge.go:16-39 | the assignments on the local copy compute the merge |
| `NfeMerge.MergeClosedForm` | internal/nfe/merge.go:16-39 | any sequence of arrivals leaves the row in closed form: last completa or else last resumo, first ID, worst situação, resumo hash of the last resumo |
| `NfeMerge.WorstIsWorst` | internal/nfe/merge.go:50-68 | the situação kept is one of the arrivals' and none is more severe: cancelada if any copy is, autorizada only if every copy is |
| `CteMerge.MergeCteInto` | internal/cte/merge.go:15-23 | the assignments on the local copy compute the merge |
| `CteMerge.MergeCtesClosedForm` | internal/cte/merge.go:15-52 | the last unmasked copy, or else the last masked one, with the first ID and the worst situação: cancelada if any copy is, autorizada only if every copy is |
| `DfeReset.ResetIsolatesCompanies` | internal/store/dfe.go:186-259 | what another company sees, relates, exports and derives is untouched, with all its events |
| `DfeReset.ResetConsistent` | internal/store/dfe.go:186-259 | no document without a company, no event linked to a missing document, derived states still recomputations |
| `DfeReset.ResetForgetsCompany` | internal/store/dfe.go:186-259 | the company keeps no document, mark or documentless event |
| `DfeReset.ResetKeepsEvent` | internal/store/dfe.go:186-259 | an event stays if and only if some other registered company wrote it, its document survives, or it has none and is not the company's |
| `DfeReset.ResetKeepsDocument` | internal/store/dfe.go:187-194 | a document stays, unchanged, if and only if another company sees it |
| `DfeReset.ResetKeepsOthersEvents` | internal/store/dfe.go:196-206 | no event written by another registered company is removed |
| `DfeReset.ResetKeepsManifestacao` | internal/store/dfe.go:214-218 | what another company declared of any chave, seen by it or not, is derived as before |
| `DfeReset.LaterCopyShowsTheSame` | internal/store/dfe.go:214-218 | when another company's copy of any chave arrives after the reset, it is shown the manifestação and time it would have been shown without the reset |
| `DfeReset.CountsAreRowsRemoved` | internal/store/nfe.go:820-858 | preview counts are the rows a reset removes |
| `DfeReset.SentAre` | internal/store/nfe.go:820-858 | the log rows counted as kept are exactly those of the company |
| `DfeReset.ResetTwice` | internal/store/nfe.go:812-858 | a second reset removes nothing |
| `NfeRepository.Repository.ResetCompany` | internal/store/nfe.go:828-858 | the ordered statements compute the reset, or only the counts when previewing |
| `NfeManifest.AtMostOneConclusiveRegistered` | internal/app/nfe_manifest.go:164-191 | after one conclusive manifestação is answered with 135 or 136, and the answer recorded, every later conclusive plan for the pair is blocked and nothing is sent |
| `NfeManifest.ConclusiveBlocks` | internal/app/nfe_manifest.go:195-230 | a stored conclusive event of the company blocks any conclusive plan |
| `NfeManifest.PlanOpenExactly` | internal/app/nfe_manifest.go:330-359 | a manifestação can be sent if and only if the company sees the NF-e as destinatário, it is autorizada and the events hold no conclusive one of the company, nor for a ciência a ciência; the reason given is the first that applies |
| `NfeManifest.RegisteredIsStored` | internal/store/nfe.go:306-367 | an answer 135 or 136 that is recorded leaves a conclusive event of the company in the table, one whose recording failed leaves the tables as they were |
| `NfeManifest.OpenExactlyWhenUnrecorded` | internal/app/nfe_manifest.go:172-191 | after an answer 135 or 136 to a conclusive manifestação a conclusive plan for the pair stays open if and only if the answer could not be recorded |
| `NfeAnswers.RegisteredOrDuplicate` | internal/store/nfe.go:306-367 | 135 and 136 put the event that was sent in the table, with its type number and sequence 1; 573 does too unless the key is there already, and then changes nothing |
| `NfeAnswers.RefusedChangesNothing` | internal/app/nfe_manifest.go:529-542 | any other cStat, and no answer, leave every table but the log and what every company is shown as they were |
| `NfeAnswers.AnswerIsLogged` | internal/app/nfe_manifest.go:425-486 | one log row per recorded answer: registrada for 135 and 136, já registrada for 573, erro without an answer, else rejeitada |
| `NfeAnswers.SentManifestacaoShows` | internal/app/nfe_manifest.go:164-191 | a manifestação of any of the four types that the plan let through, answered with 135, 136 or 573 and recorded, is what the company is shown |
| `NfeCiencia.RegisterManifestacao` | internal/app/nfe_manifest.go:172-191 | refused exactly when not conclusive or blocked, else sent alone and recorded as the history step; the outcome follows the cStat, and a registered or already registered one that is recorded is what the company is shown |
| `NfeCiencia.PlanPartitionsRequest` | internal/app/nfe_manifest.go:284-326 | every requested entry ends in exactly one list for its own reason, and eligible chaves are distinct |
| `NfeCiencia.PlanChaves` | internal/app/nfe_manifest.go:284-326 | the two loops compute that plan |
| `NfeCiencia.EligibleKeysDistinct` | internal/sefaz/evento.go:137-157 | the duplicate check of a lote never fires on a plan |
| `NfeCiencia.MatchAnswers` | internal/sefaz/evento.go:192-239 | each evento gets what the answers that name it leave, whatever their order among other eventos |
| `NfeCiencia.LastRetIsLast` | internal/sefaz/evento.go:208-227 | the status is that of the last answer naming the evento, the date the last one that parsed |
| `NfeCiencia.CheckLote` | internal/sefaz/evento.go:126-157 | refuses exactly empty, oversized or repeating lotes |
| `NfeCiencia.Send` | internal/app/nfe_manifest.go:425-486 | one outcome and one record per evento, in order, each by the cStat of the last answer that names it: 135 and 136 registrada, 573 já registrada, anything else rejeitada |
| `NfeCiencia.RegisterCiencia` | internal/app/nfe_manifest.go:120-153 | one outcome per eligible chave in order, lotes of at most 20, nothing sent or recorded after an interrupted one |
| `CheckDigits.CalculateCheckDigit` | internal/foundation/cnpj/cnpj.go:126-136 | the loop computes the digit of the weighted sum |
| `CheckDigits.DigitCompletes` | internal/foundation/cnpj/cnpj.go:126-136 | the digit is the only one that completes the sum to a multiple of 11, or 0 for a sum one above a multiple |
| `CheckDigits.AccessKeyCheckDigit` | internal/dfe/accesskey.go:83-98 | the right-to-left loop with cycling weight computes the digit of the left-to-right sum |
| `CheckDigits.TablesAreTheCycle` | internal/foundation/cnpj/cnpj.go:20-23 | the CNPJ tables and the cycle give every base one digit at lengths 12 and 13 |
| `CheckDigits.OneWrongDigit` | internal/dfe/accesskey.go:83-98 | one wrong digit goes unnoticed exactly when the sums are 0 and 1 modulo 11 |
| `CheckDigits.SwappedNeighbours` | internal/dfe/accesskey.go:83-98 | so do two swapped unequal neighbours |
| `AccessKey.WrongDigitParsesOnlyWhenBlind` | internal/dfe/accesskey.go:45-63 | a valid all-digit key with one base digit changed parses exactly in that case |
| `AccessKey.SwappedDigitsParseOnlyWhenBlind` | internal/dfe/accesskey.go:45-63 | with two unequal neighbours of the base swapped, exactly in that case too |
| `AccessKey.ParseIsIdempotent` | internal/dfe/accesskey.go:45-63 | a parsed key parses to itself |
| `AccessKey.Parse` | internal/dfe/accesskey.go:45-63 | accepts exactly the cleaned keys of the right shape and digit |
| `AccessKey.AcceptedKey` | internal/dfe/accesskey.go:45-63 | a clean key is accepted if and only if it has 44 characters, digits everywhere and also capitals in places 7 to 20, a valid CNPJ there if it has a letter, and a digit that completes its sum |
| `AccessKey.Cleaned` | internal/dfe/accesskey.go:45-46 | cleaning takes the white space off both ends and turns each small letter into its capital, and nothing else |
| `AccessKey.IndexInvalidKeyChar` | internal/dfe/accesskey.go:69-79 | the first character out of place, or none |
| `AccessKey.CnpjDigitsAreKeyDigits` | internal/foundation/cnpj/cnpj.go:98-107 | a CNPJ that does not repeat one character is valid if and only if both its digits complete the sums the key rule gives |
| `LogRotation.RotatingFileWriter.Write` | internal/desktop/logging.go:67-86 | everything logged stays in order in the files ever written; a new file starts exactly when the limit would be passed |
| `LogRotation.RotatingFileWriter.Rotate` | internal/desktop/logging.go:116-149 | every backup moves one up, the oldest is dropped, the base starts empty |
| `LogRotation.RotatingFileWriter.ShiftBackups` | internal/desktop/logging.go:125-142 | the downward renames overwrite nothing |
| `LogRotation.RotatingFileWriter.CollectRotatedLogPaths` | internal/desktop/logging.go:155-161 | oldest backup first, base last |
| `LogRotation.RotatingFileWriter.ReadsASuffix` | internal/desktop/logging.go:155-161 | reading the files in that order gives the end of everything logged, cut before a whole file |

## Left out

- BerNormalizer.NormalizePKCS12BER: inputs longer than a third of the largest int are excluded, because the output must itself be a slice; `int` is taken as 64 bits wide.
- PullLoop.SyncService.RecordWait: when writing the wait fails the run ends with an error and the wait is lost, as in the source; the wait theorems speak of recorded waits.
- PullLoop.SyncService.Pull: the block is read before the reservation, so it is stated for calls that do not overlap; two pulls that race between the two checks are not modelled. Whether the certificate can be opened is a parameter.
- PullStore.Database.ThirdUnreadableRunMovesPast: a crash or a failed transaction between the recorded failure and the commit leaves the item for the next run, as in the source; so does the theorem.
- PullProtocol.CursorNeverGoesBack: not during a first setup, which restarts at 0, nor across a reset, which deletes the cursor; `PullProtocol.LoweredExactly` and `PullProtocol.OnlyFirstSetupLowers` say that nothing else lowers it.
- RequestGate.NeverOverBudget: a second process on the same database is not modelled.
- RequestGate.WaitsAreRespected: not for a wait that a lookup by chave shortened; `RequestGate.ShortenedWaitExactly` covers that case.
- SourceStore.Store.FetchByChave: storing the fetched documents is the transaction of `NfeRepository` and is not repeated there; failures of single statements are left out.
- NfeOrder.ArrivalOrderIsIrrelevant: copies of one event agree on type, author and registration, and on the time when both are resumos or both completas; between a resumo and a completa the time may differ. When two copies of one completeness contradict each other the last one stays. First-seen and last-seen NSUs and the stored XML depend on the order.
- NfeOrder.OrderMattersExactlyWhenUntimed: events that carry the zero time itself (year 1) are excluded; a missing time is not.
- NfeText.TextBeforeIsTextLess: how a local time is written is a parameter, of which only fixed width and order are used; the offsets are spelled out.
- NfeHistory.CancelledByType: that the kind of a pulled event is the one of its type number is a hypothesis, since the XML parsers are not modelled.
- NfeManifest.AtMostOneConclusiveRegistered: about recorded answers; what an answer that could not be recorded leaves open is `NfeManifest.OpenExactlyWhenUnrecorded`. A reset of the company forgets them.
- NfeCiencia.PlanPartitionsRequest: the plan over all pending resumos is a single query and is not modelled, nor is the tpAmb filter.
- LogRotation.RotatingFileWriter.Write: operations that succeed; a write or rename that fails halfway is not modelled.
- PullSources.SortByNsu: the source calls the library sort, which need not be stable; the one written here is an insertion sort, and the contract does not fix the order of equal NSUs.
- The CT-e store (internal/store/cte.go): the NF-e store without manifestações; its merge is modelled, its transactions would repeat easier members.
- The NFS-e document status (`recomputeDocumentStatus` of internal/sync/store.go) and its upserts.
- How a company participates in a document is a parameter of the arrival; the XML parsers that decide it are not modelled.
- NfeLifetime.RepullRestores: that the queue delivers the removed events again is its hypothesis; ResetCompany also drops the sync cursor, which is `PullLoop.SyncService.ResetSyncState` and is not joined with these tables.
- Earlier runs that a new run marks as interrupted, and last_success_at and updated_at columns.
- Error texts, justificativas, deadlines, protocol numbers of an answer, and Unicode beyond ASCII in trimming and upper-casing.
- HTTP, SOAP, XML signing, gzip, PKCS#12 decoding, SQL text, migrations, exports, the command line and the desktop interface.
- Nothing was executed: the theorems are about this model, not about compiled code.
