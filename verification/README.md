# Recouple: the delivery protocols and their algorithms

Recouple finds, documents and recovers payment deductions. Its web app talks to an environment that
delivers at least once and forgets at the worst moment: Inngest retries steps and drops repeats only
inside a window, Postmark redelivers an email until it is answered, QuickBooks loses replies, and any
process may die at any `await`. This project models the protocols the app runs against that
environment, and the self-contained algorithms beside them, in Dafny 4.11, and proves what every run
keeps.

A protocol is a state and a deterministic step: everything the environment chooses is carried by the
event, and an event out of turn changes nothing. `Run(events)` is the state a list of events leaves,
and each main result is about every list of events. Code that works by changing things in place is a
method or a class proved against a function: the posting job, the inbound route, the graph scrub, the
zip stream, the backfill loop, the grouping pass, the numbering of a recipe, the key's bytes, the CSV
reader.

What a single step does is said a second time, apart from the functions that compute it: by role, stage,
reason and answer (`PostingRules`, `ReadAnswers`, `ReadFailures`, `InboundAnswers`, `CaseRules`), and by
the character, bit or key (`FormRules`, `CsvText`, `EnclosureContents`, `ReadKeys`, `PdfPaths`).

| file | what it models |
|---|---|
| `Posting.dfy`, `PostingFaults.dfy`, `PostingVoids.dfy`, `PostingGuard.dfy`, `PostingCard.dfy`, `PostingRetry.dfy`, `PostingJob.dfy`, `PostingRules.dfy`, `PostingVerified.dfy` | posting an approved write-back to QuickBooks, retries and voids |
| `ReadAttach.dfy`, `ReadAnswers.dfy`, `ReadFailures.dfy`, `PaidReads.dfy`, `OpenedCases.dfy`, `SwallowedUploads.dfy` | reading a document once and filing it on every case that asked |
| `InboundDoor.dfy`, `InboundHandler.dfy`, `InboundAnswers.dfy`, `InboundReads.dfy`, `InboundParts.dfy` | an email at the door, its parts and the job that reads them |
| `FanOut.dfy`, `LedgerSync.dfy`, `LedgerWalk.dfy` | the daily fan-outs, and the syncs two limits admit |
| `CaseWorkflow.dfy`, `CaseRules.dfy`, `CaseHistory.dfy` | deciding, assembling, approving, filing, declining and merging a case |
| `PdfScrub.dfy`, `PdfPaths.dfy` | the removal of active keys from a cyclic PDF object graph |
| `EnclosureZip.dfy`, `EnclosureContents.dfy`, `CaseRowCsv.dfy`, `CsvText.dfy` | a packet's enclosures as a stream, and a case row as CSV |
| `DuplicateNaming.dfy` | the backfill over capped pages |
| `PayerGroups.dfy`, `PayerPlaces.dfy`, `RecipeRows.dfy`, `RecipeOrder.dfy` | grouping by payer, and numbering nested steps |
| `ReadKeys.dfy`, `QueryText.dfy`, `CaseForms.dfy`, `FormRules.dfy`, `Money.dfy`, `Decimal.dfy` | UUID keys, URL text, echoed forms and amounts |

## Where the code does not keep what is said of it

Each of these is a concrete run, with the exact condition under which the statement does hold.

- A settlement the card calls voidable can have an entry in the books: the first run sends, lands and
  dies before it records, and the retry records that it could not look the invoice up
  (`CardVoidableWithAnEntry`). It has one exactly when a landed send was never recorded
  (`CardVoidableExactly`); it never has one exactly when no run may be lost in that gap
  (`VoidableIsSafeExactly`), or the card offers it only with an attempt on record for every run started
  on its rows, a check the store could make if it counted them (`CheckedCardExactly`).
- A settlement can be voided while its entry stands in the books, because the ledger is asked before
  the lock is taken (`VoidedWithAnEntry`). It holds one exactly when a send the answer could not show
  landed and was never recorded (`VoidedHoldsExactly`, `VoidedIsSafeExactly`). A check the store could
  make under its lock closes it: voided on attempts unchanged since the ledger answered, and with no
  send of it on its way then, a settlement never holds an entry (`UnchangedVoidHoldsNothing`); the
  check is enough exactly where no send arrives late (`VoidGuardExactly`).
- Without QuickBooks honouring the request id, one entry for each row holds exactly when keys outlive
  redeliveries, no send arrives late and no retry overtakes a first send (`OneEntryIffNoFaults`).
- An upload to a case is swallowed inside the window of an earlier one, and is served exactly when
  that one's run ends successfully (`SwallowedAttachmentServedExactly`); once it has failed, with
  nothing recorded, no upload to the case in the window is served (`SwallowedAfterFailureIsNeverServed`).
- A remittance, or any reading but a notice, is finished by nobody but the run that recorded it: its
  lines are opened or its hold placed in some continuation exactly when that run stands right before
  that (`FinishedLaterExactly`, `HeldLaterExactly`), so never once the claim is free
  (`RemittanceLinesAreNotResumed`). A run that dies there is retried and ends successfully, with the
  remittance on no case (`RemittanceStranded`), and not held although it arrived by email
  (`HoldNeverPlaced`).
- The reads of one notice can open two cases: a run that opened one dies before its record, and the
  retry reads and opens again. They open at most one exactly when the store recognises the claim of the
  first, or no run is lost in that gap (`OneCaseOpenedExactly`, `TwoCasesOpened`).
- 403 can go out while an address is live, exactly when it was issued after that delivery's lookup
  (`RefusedWhileLiveExactly`); the mail must then have named a random token before it was issued, so
  this is a limit of the wording rather than of the app.
- A recorded email can stay unread for good (`RecordedAndNeverRead`). One not read yet can still be read
  exactly when its address is not retired, or a read is queued, or a delivery that found the address live
  can still go on to queue one (`ReadableExactly`).
- One invoice can get two cases from syncs although a tenant syncs one ledger at a time: a sync that
  dies between opening its case and linking it leaves a case the next does not know
  (`OneCaseEachExactly`).
- The duplicate backfill stops with matches left that the store would accept once a whole page ahead
  of them was refused, as when the database was away while that page was tried
  (`APageOfRefusalsIsAWall`, `CompleteExactlyWithoutWalls`).
- A case row's CSV reads back exactly when neither line is empty (`ReadsBackExactly`).

Where the code keeps its word only because of one decision, the decision is switched off to show it:
keys memoised with the listing (`FanOut.AtMostOnceExactly`), one sync for a tenant at a time
(`LedgerSync.OneCaseEachExactly`), a claim or an index for an email and its row's id for its read
(`InboundHandler.OneRecordExactly`, `InboundHandler.OneReadRunExactly`), and "read again" forbidding a
case only for a document already read (`PaidReads.OneSuccessfulReadExactly`).

## Model

| member | source | states |
|---|---|---|
| Posting.EveryRunKeeps | packages/pipeline/src/posting-job.ts:173-324 | whatever the interleaving of requests, runs, lost replies, deaths, late sends, retries and voids, a succeeded row has its entry, a recorded send left a reason that says so, a voided entry stays failed, and with request ids honoured no row has two entries |
| Posting.PostedIsFinal | packages/pipeline/src/posting-job.ts:188-198 | a row that succeeded has its entry in the books and no later step undoes either |
| Posting.PaymentFollowsItsEntry | packages/pipeline/src/posting-job.ts:196-198 | nothing of a Payment was ever sent unless its journal entry verified and stands in the books |
| Posting.RequestIdGivesOneEntry | packages/pipeline/src/posting-job.ts:277-294 | sent with the row's id as request id, no schedule gives a row two entries in a ledger that honours it |
| Posting.LookingFirstGivesOneEntry | apps/web/lib/inngest-posting.ts:23-46 | over every schedule without faults looking before a retry alone keeps each row to one entry |
| PostingFaults.FirstRunDies | packages/pipeline/src/posting-job.ts:277-294 | a first run may send and die before its record, leaving the row pending with its entry landed or under way |
| PostingFaults.ExpiryPostsTwice | apps/web/lib/inngest-posting.ts:39-46 | a redelivery after the key left the window can post a second entry |
| PostingFaults.OvertakingPostsTwice | apps/web/components/case-posting.tsx:107-112 | a retry pressed before the first request started can post a second entry |
| PostingFaults.LatenessPostsTwice | packages/pipeline/src/posting-job.ts:277-294 | a send that lands after a retry looked can post a second entry |
| PostingFaults.OneEntryIffNoFaults | apps/web/lib/inngest-posting.ts:39-46 | without the ledger's help each row is posted at most once over every run exactly when none of the three faults may happen |
| PostingVoids.UnrecordedSendWasLost | packages/pipeline/src/posting-job.ts:277-324 | a send no attempt records, and that no run is about to record, belongs to a run that ended between its send and its record |
| PostingVoids.CardVoidableExactly | apps/web/components/case-posting.tsx:83-94 | with no job running, a row of a settlement the card calls voidable has an entry exactly when a landed send of it was never recorded, and then a run of it was lost |
| PostingVoids.CardVoidableWithAnEntry | apps/web/components/case-posting.tsx:83-94 | such a state is reached with no fault of the ledger or the runtime |
| PostingVoids.VoidedIsNeverSent | packages/store-postgres/src/posting.ts:1465-1530 | once a decision is voided no step sends anything of it |
| PostingVoids.EveryRunKeepsVoids | packages/store-postgres/src/posting.ts:1465-1530 | every outstanding ledger answer and every void stays true of the sends it was made about |
| PostingVoids.VoidedHoldsExactly | packages/store-postgres/src/posting.ts:1513-1530 | a voided decision's row has an entry exactly when a landed, never recorded send was made after the ledger answered or was in flight then |
| PostingVoids.VoidedWithAnEntry | packages/store-postgres/src/posting.ts:1513-1530 | a settlement is voided with its entry in the books, with no fault of the ledger or the runtime |
| PostingVoids.VoidableIsSafeExactly | apps/web/components/case-posting.tsx:83-94 | over every run without faults what the card calls voidable has no entry exactly when no run may be lost between its send and its record |
| PostingVoids.VoidedIsSafeExactly | packages/store-postgres/src/posting.ts:1465-1530 | the same of what was voided |
| PostingGuard.EveryRunKeepsGuards | packages/store-postgres/src/posting.ts:1513-1530 | over every run a failed entry with no more attempts than when the ledger answered was sent nothing since |
| PostingGuard.UnchangedVoidHoldsNothing | packages/store-postgres/src/posting.ts:1513-1530 | voided on attempts unchanged since the ledger's answer, with nothing of it on its way then, a settlement holds no entry in any continuation |
| PostingGuard.GuardedVoidWithAnEntry | packages/store-postgres/src/posting.ts:1513-1530 | with sends that arrive late a void on unchanged attempts can still leave an entry |
| PostingGuard.VoidGuardExactly | packages/store-postgres/src/posting.ts:1513-1530 | over every run no voided settlement holds an entry exactly when voids go through only on unchanged attempts and no send arrives late |
| PostingCard.EveryRunLeaves | packages/pipeline/src/posting-job.ts:173-324 | over every run the attempts of a row and the sends of it that none records are no more than the runs started on it |
| PostingCard.CheckedCardHoldsNothing | apps/web/components/case-posting.tsx:83-94 | what the card calls voidable, with an attempt for every started run, has no entry in the books and no run in progress |
| PostingCard.CheckedCardExactly | apps/web/components/case-posting.tsx:83-94 | over every run, with whatever faults, what the card offers has no entry exactly when it checks that or no run may be lost between its send and its record |
| PostingRetry.RetrySettles | packages/pipeline/src/posting-job.ts:235-281 | from any reachable state with the connection idle, one answered retry leaves a row with at most one entry succeeded with exactly one, sending only if there was none |
| PostingJob.Found | packages/pipeline/src/posting-job.ts:235-259 | the entries a reference finds: one or more exactly when the books hold one, two or more exactly when they hold two |
| PostingJob.RecordAttempt | packages/store-postgres/src/posting.ts:1248-1270 | an attempt is appended with its status, and only if the database takes it |
| PostingJob.PostWriteback | packages/pipeline/src/posting-job.ts:173-324 | one run, in the source's order, leaves the store and the books as the state machine's run does, reports what it recorded, and records a success under exactly the answers that verify its entry |
| PostingJob.LookThenPost | packages/pipeline/src/posting-job.ts:235-275 | a retry reads back by reference, only an empty answer goes on to the send, and the one entry found is recorded as posted exactly when it matches |
| PostingJob.SendAndVerify | packages/pipeline/src/posting-job.ts:277-324 | the send, its reading back and the attempt recorded for each way it can end |
| PostingJob.LoadLeads | packages/pipeline/src/posting-job.ts:188-200 | a run goes on exactly where it is allowed, its row is pending and not voided, and a Payment's journal entry succeeded |
| PostingJob.BuildEndings | packages/pipeline/src/posting-job.ts:205-235 | a posting that cannot be built is recorded with its reason and nothing sent; only a retry looks before it sends |
| PostingJob.LookLeads | packages/pipeline/src/posting-job.ts:235-275 | what a look by reference leads to: unreadable, more than one entry, one that matches, one that does not, or none |
| PostingJob.LookEndings | packages/pipeline/src/posting-job.ts:235-275 | how a retry that sends nothing ends, in its row and its books |
| PostingJob.SendLeads | packages/pipeline/src/posting-job.ts:277-294 | the fate of a send by its reply, and what there is to record of it |
| PostingJob.SendEndings | packages/pipeline/src/posting-job.ts:277-324 | how a run that sends ends, in its row and its books, by the answers to the send and to its reading back |
| PostingVerified.SucceededWasVerified | packages/pipeline/src/posting-job.ts:252-324 | over every run a row that succeeded was recorded so by a run whose last answer from the ledger showed an entry of the row in the books, readable and matching, and on a retry the only one |
| PostingRules.RetryLeads | apps/web/lib/inngest-posting.ts:23-46 | a person's retry of a row not posted and not voided makes it pending, and asks for it under a key of its own |
| PostingRules.VoidCheckExactly | packages/store-postgres/src/posting.ts:1495-1513 | the store's check before a void, by the two rows of a settlement and the names of their reasons |
| PostingRules.AskLeads | packages/store-postgres/src/posting.ts:1513-1517 | the ledger is asked exactly then, and answers that it holds nothing exactly where it does |
| PostingRules.CommitLeads | packages/store-postgres/src/posting.ts:1517-1530 | a void goes through on an answer given, where the check still holds and no row was added since |
| PostingRules.CardOffersExactly | apps/web/components/case-posting.tsx:83-94 | what the card offers to void, by the two rows of the settlement and the names of their reasons |
| ReadAttach.EveryRunKeeps | packages/pipeline/src/jobs.ts:264-382 | over every interleaving of uploads, redeliveries, re-drives, retries and deaths the claim has one holder, counts add up and a run names what its key names |
| ReadAttach.NamedRunFilesOrFails | apps/web/lib/inngest.ts:382-433 | a run that names a case and ends successfully has its document on that case and was not ended by another's claim; it is over after four attempts |
| ReadAttach.OneReaderAtATime | packages/store-postgres/src/store.ts:3684-3721 | two runs never read the document together |
| ReadAttach.SwallowedUploadHasItsRun | apps/web/lib/inngest.ts:544-551 | an upload the window swallows has a started run on its very key, for its case |
| SwallowedUploads.SwallowedAsksTheSame | apps/web/lib/pipeline.ts:307-329 | of the requests the app sends, it is the very request that run was given |
| SwallowedUploads.SwallowedAttachmentServedExactly | apps/web/lib/inngest.ts:505-551 | where only uploads ask for the case and their key stays, a swallowed attachment is on its case exactly when the one run on its key ended successfully |
| SwallowedUploads.SwallowedAfterFailureIsNeverServed | apps/web/lib/inngest.ts:505-551 | once that run failed, no continuation in the window serves one |
| SwallowedUploads.SwallowedAndUnserved | apps/web/lib/inngest.ts:505-551 | such a run |
| ReadAttach.EndedStaysEnded | apps/web/lib/inngest.ts:544-551 | a run that ended is the same in every continuation |
| ReadAttach.ActKeepsRun | packages/pipeline/src/jobs.ts:318-366 | every await under the claim only adds cases, pays at most once before its record, and files before it reports success |
| ReadAttach.SettledFailureIsNotPaidAgain | apps/web/lib/inngest.ts:598-643 | a failure classed as settled ends its run with that failure, and no continuation pays inside it again |
| ReadFailures.EachFailureByName | apps/web/lib/inngest.ts:598-643 | from any reachable state each of nine named failures ends its run, which no continuation changes or pays for again; the three others leave it waiting before its fourth attempt |
| ReadFailures.AttachmentWaitsItsTurn | apps/web/lib/inngest.ts:415-433 | an attachment that finds its document being read, with an attempt to spare, goes on waiting and pays nothing |
| ReadFailures.AttachmentFilesAfterwards | apps/web/lib/inngest.ts:415-433 | and its next answered attempt files the document, even if the read in front of it died |
| ReadAttach.AnsweredAttemptFiles | packages/pipeline/src/steps.ts:820-858 | from any reachable state with the claim free, one answered attempt files an attachment, paying only if nothing was recorded |
| ReadAnswers.AnswersMean | apps/web/lib/inngest.ts:382-433 | over every run one that says it read the document paid for it, one that says the record answered has a record, one that leaves it to another named no case, and one that named a case has its document there |
| ReadAnswers.BeginLeads | packages/store-postgres/src/store.ts:3684-3721 | an attempt takes a free claim; where it is held, one that names a case is to try again and one that names none is over |
| ReadAnswers.GuardLeads | packages/pipeline/src/steps.ts:735-858 | what is on record decides whether the document is read, filed or answered |
| ReadAnswers.ReadingLeads | packages/pipeline/src/steps.ts:1020-1118 | the gate: what a reading leads to by its type, its doubts and the document's arrival |
| ReadAnswers.FailuresWriteNothing | packages/pipeline/src/jobs.ts:318-366 | a failure writes nothing but the lines joined before it, and pays only where the model was called |
| PaidReads.PaidReadsAddUp | packages/pipeline/src/jobs.ts:318-366 | every paid read succeeded, failed or is the one in progress |
| PaidReads.OneSuccessfulPaidRead | apps/web/app/documents/[id]/reread/route.ts:108-116 | over every run of the requests the app sends, however delivered, retried and lost, a document has at most one successful paid read and its paid reads are at most one more than the failed ones |
| PaidReads.OneSuccessfulReadExactly | packages/pipeline/src/jobs.ts:170-180 | at most one successful paid read over every run exactly when its arrival holds the document or no unread document is asked for by a request that may leave its notice on no case |
| PaidReads.ReadTwice | packages/pipeline/src/steps.ts:766-772 | why that discipline is needed: were a case forbidden for an unread document, it could be read and paid for twice |
| PaidReads.PaidReadsBounded | apps/web/lib/inngest.ts:536-551 | wherever that discipline holds, re-drives of read documents included, paid reads are at most one more than the failed ones |
| PaidReads.OnlyItsOwnRunFinishes | packages/pipeline/src/steps.ts:735-778 | from any reachable state with a reading other than a notice recorded, no continuation pays again, and what is left to do is done only by a run that stands before it now |
| PaidReads.FinishedLaterExactly | packages/pipeline/src/steps.ts:1081-1118 | in some continuation a run stands before opening its lines, placing its hold or linking it after the read exactly when one does now; an attachment is filed from the record elsewhere |
| PaidReads.HeldLaterExactly | packages/pipeline/src/steps.ts:1036-1056 | it is held in some continuation exactly when it is held now or its run stands before its hold |
| PaidReads.RemittanceLinesAreNotResumed | packages/pipeline/src/steps.ts:735-778 | so with the claim free no continuation pays again, opens its lines or holds it |
| PaidReads.RemittanceStranded | packages/pipeline/src/steps.ts:1081-1096 | a retried run ends successfully with a remittance on no case and not held |
| PaidReads.HoldNeverPlaced | packages/pipeline/src/steps.ts:1036-1056 | so does that of one that arrived by email, and in no continuation is it held |
| OpenedCases.EveryRunKeepsOpened | packages/pipeline/src/steps.ts:1072-1084 | where no run is lost between opening a case and its record, a document's reads open at most one, and then nobody reads it again |
| OpenedCases.TwoCasesOpened | packages/pipeline/src/steps.ts:1072-1084 | a run lost there reads, pays and opens a second case on its retry |
| OpenedCases.OneCaseOpenedExactly | packages/store-postgres/src/store.ts:2131-2154 | over every run a document's reads open at most one case from its notice exactly when the store recognises the first one's claim or no run is lost there |
| InboundDoor.EveryRunKeeps | apps/web/lib/inbound-route.ts:70-195 | over every sequence of deliveries failing anywhere the message has at most one row of each outcome, every queued key is a row, and where the claim holder saw no row there is none |
| InboundDoor.AcknowledgedIsRecordedAndQueued | apps/web/lib/inbound-route.ts:173-195 | a delivery answered 200 leaves exactly one row of the message, its own, and a read queued under that row's id |
| InboundDoor.EveryKeyIsTheRow | apps/web/lib/inbound-route.ts:176-182 | whichever deliveries sent them, all read events carry the one row's id |
| InboundDoor.ReadRunsExactly | apps/web/lib/inbound.ts:220-232 | every run is under the one row's id, and they are one for that key in the window and one for each time it left |
| InboundDoor.OneReadRunInTheWindow | apps/web/lib/inbound.ts:106-137 | while keys stay in the window redeliveries start at most one run, because one row gives every key |
| InboundHandler.OneRecordExactly | packages/store-postgres/src/inbound.ts:224-259 | one message has one row over every run exactly when deliveries take a claim or the table is indexed |
| InboundHandler.OneReadRunExactly | packages/pipeline/src/inbound.ts:97-182 | redeliveries start at most one run over every run exactly when the key is the row's id and there is one row |
| InboundHandler.KeyPerDeliveryReadsTwice | apps/web/lib/inbound-route.ts:176-182 | a key minted for each delivery reads the message twice |
| InboundHandler.UnguardedRecordsTwice | packages/store-postgres/src/inbound.ts:224-259 | without claim and index two deliveries record the message twice and it is read under both ids |
| InboundDoor.RefusedWhileLiveExactly | apps/web/lib/inbound-route.ts:118-152 | 403 is decided while the address is live exactly when the delivery's lookup came before its issue |
| InboundDoor.RefusedWhileLive | apps/web/lib/inbound-route.ts:118-129 | such a delivery |
| InboundDoor.OneDeliveryIngests | packages/store-postgres/src/inbound.ts:224-259 | two deliveries are never inside the message's claim together |
| InboundHandler.HandleInboundPostmark | apps/web/lib/inbound-route.ts:70-195 | record, then queue, then acknowledge: 200 only with the record durable and one more read queued, 403 only for an address not live |
| InboundHandler.Receive | packages/pipeline/src/inbound.ts:97-182 | the message is recorded once, an earlier delivery's record answers, and a record that is lost is not reported |
| InboundHandler.RefuseRetired | apps/web/lib/inbound-route.ts:131-152 | mail at a retired address is recorded as refused before it is refused |
| InboundHandler.WholeIsRun | apps/web/lib/inbound-route.ts:70-195 | a delivery nothing interrupts is a run of the protocol with the same door and the same answer |
| InboundAnswers.UnknownEndings | apps/web/lib/inbound-route.ts:104-129 | a delivery to no such address, or whose lookup fails, writes nothing |
| InboundAnswers.RetiredEndings | apps/web/lib/inbound-route.ts:131-152 | at a retired address the refusal is written once, only if its retirer may still write, and one who may not is refused with nothing written |
| InboundAnswers.LiveGoesOn | apps/web/lib/inbound-route.ts:153-171 | at a live address only a member who may write goes on, and only where the claim is free |
| InboundAnswers.ClaimedEndings | packages/pipeline/src/inbound.ts:97-182 | under the claim the row there is answers, else one is written if all it needs can be had |
| InboundAnswers.SendEndings | apps/web/lib/inbound-route.ts:173-195 | the row's id is queued as the key, and only a send that returned is acknowledged |
| InboundAnswers.ClaimLeads | packages/store-postgres/src/inbound.ts:224-259 | one delivery at a time holds the message's claim, and another is to try again |
| InboundAnswers.ClaimIsLetGo | packages/store-postgres/src/inbound.ts:224-259 | its holder lets it go as it leaves it, and nobody else does |
| InboundAnswers.LooksLead | packages/pipeline/src/inbound.ts:97-182 | the row there answers, before the mail is taken in and again before the insert, which a retired address refuses |
| InboundAnswers.InsertsLead | packages/store-postgres/src/inbound.ts:224-259 | an insert writes a row of its own unless it fails or the index has one |
| InboundHandler.RedeliverySettles | apps/web/lib/inbound-route.ts:173-195 | whatever failed before, while the address is live one answered redelivery is acknowledged |
| InboundReads.NeverReadAfterRetirement | apps/web/lib/inbound-route.ts:131-152 | once the address is retired with nothing queued and no delivery can still queue, no continuation starts a read |
| InboundReads.ReadableExactly | apps/web/lib/inbound-route.ts:131-195 | from any reachable state some continuation has read the message exactly when it was read, or the address is not retired, or a read is queued, or a delivery can still queue one |
| InboundReads.RecordedAndNeverRead | apps/web/lib/inbound-route.ts:173-195 | a message recorded, refused on redelivery and never read |
| InboundParts.ReceiveParts | packages/pipeline/src/inbound.ts:114-163 | which parts may be read follows from the email and the day's reads alone, as many as the budget lets through; a part is already held exactly when its bytes were before it; a failed scanner records nothing and keeps what was stored |
| InboundParts.ReceivePart | packages/pipeline/src/inbound.ts:118-162 | one part: its bytes are kept unless the door rejects them, a failed scanner ends the delivery, and a clean file is readable while the day has reads left |
| InboundParts.SamePartsAreRead | packages/pipeline/src/inbound.ts:114-163 | with as many let through, a redelivery after deliveries that died has the job read the same documents, whatever the day's count did |
| InboundParts.RedeliveryReads | packages/pipeline/src/inbound.ts:114-163 | a redelivery that finds the day further spent reads a leading part of what the first would have read |
| InboundParts.SamePartsExactly | packages/pipeline/src/inbound.ts:114-163 | the same parts are read exactly when the day lets as many through |
| InboundParts.ReadInboundEmail | packages/pipeline/src/inbound.ts:208-247 | each readable attachment's document is read once, and the body exactly when no attachment was a notice and it was not read already |
| InboundParts.QueueExactly | packages/pipeline/src/inbound.ts:222-233 | the documents read for attachments are exactly the readable ones, none twice |
| InboundParts.QueueInOrder | packages/pipeline/src/inbound.ts:222-233 | in the order in which the email first asks for them |
| InboundParts.BodyExactly | packages/pipeline/src/inbound.ts:234-247 | the body that may be read is the document of the first part that is a body and stored, or held already |
| InboundParts.LeftExactly | packages/pipeline/src/inbound.ts:114-163 | a day has a hundred reads |
| FanOut.EveryBatchIsTheSame | apps/web/lib/inngest-ledger.ts:226-256 | under any crashes and retries every batch of a firing carries the same keys, one for each connection |
| FanOut.EveryRunKeepsMemo | apps/web/lib/inngest-ledger.ts:226-256 | with keys minted where they are memoised, every batch is the memo, what is queued is part of it and what ran was queued |
| FanOut.CompletedSyncsEachOnce | apps/web/lib/inngest-portal.ts:634-661 | once sent and taken up, exactly the connections of the first listing that returned have run, each once |
| FanOut.MemoIsTheFirstListing | apps/web/lib/inngest-ledger.ts:232-242 | whatever fails, the memo is the connections of the first listing that returned, in order, each with a key of its own |
| FanOut.FiringCompletes | apps/web/lib/inngest-ledger.ts:226-256 | however often its steps were lost, one answered send and a start for each request complete the firing |
| FanOut.SentOnce | apps/web/lib/inngest-ledger.ts:246-256 | nothing is sent once the sending step has returned, or where the listing was empty |
| FanOut.MintingInSendSyncsTwice | apps/web/lib/inngest-ledger.ts:226-256 | minting keys in the sending step runs a connection twice |
| FanOut.ExpirySyncsTwice | apps/web/lib/inngest-ledger.ts:190-197 | so does a window shorter than the retries |
| FanOut.AtMostOnceExactly | apps/web/lib/inngest-ledger.ts:209-256 | each connection runs at most once in a firing, over every run, exactly when keys are memoised and outlive the retries |
| LedgerSync.EveryRunIsAdmitted | apps/web/lib/inngest-ledger.ts:156-161 | every admitted schedule has at most two syncs in flight and one for a tenant |
| LedgerSync.NeverThreeInFlight | apps/web/lib/inngest-ledger.ts:156-161 | of any three syncs one is over, and of any two of one tenant |
| LedgerWalk.SyncOpensExactlyTheNew | packages/pipeline/src/discovery.ts:216-381 | an undisturbed sync ends and leaves a linked case of its own for exactly the invoices its tenant had no linked case for, and nothing else changed |
| LedgerWalk.OnlyTheSameExtractIsReused | packages/store-postgres/src/discovery.ts:334-431 | an invoice linked since the sync read what is known gets a second case, unless its extract is the very same |
| LedgerWalk.DyingIsOver | packages/store-postgres/src/discovery.ts:358-372 | a sync that dies is over, and lost exactly where it had opened a case and not linked it |
| LedgerSync.SecondCaseIsALostSync | packages/store-postgres/src/discovery.ts:334-431 | of two cases for one invoice one was left unlinked by a sync that died there |
| LedgerSync.TwoSyncsTwoCases | apps/web/lib/inngest-ledger.ts:41-50 | two syncs of one tenant open two cases for one invoice |
| LedgerSync.LostSyncTwoCases | packages/store-postgres/src/discovery.ts:358-372 | so does one sync at a time, when one dies between opening and linking |
| LedgerSync.OneCaseEachExactly | packages/pipeline/src/discovery.ts:216-381 | no invoice gets two cases from syncs, over every run, exactly when a tenant has one sync at a time and none dies in that gap |
| CaseWorkflow.Latest | packages/store-postgres/src/workflow.ts:2402-2416 | the latest packet is one no other is newer than |
| CaseWorkflow.EveryRunKeeps | packages/store-postgres/src/workflow.ts:546-1212 | every act by anyone, stale forms, merges and removals included, keeps a case's rows and its stage in step |
| CaseWorkflow.FilingNamesItsApproval | packages/store-postgres/src/workflow.ts:973-1115 | a filing is its case's only one and names the one approval of its decision's latest packet by another than its preparer |
| CaseWorkflow.DisputedOrDeclined | apps/web/components/case-review.tsx:925-928 | no case has both a dispute and a decline, or two of either |
| CaseWorkflow.OutcomeMatchesCents | packages/store-postgres/src/workflow.ts:1140-1166 | a closed case recovered all, nothing or something between, as its outcome says |
| CaseWorkflow.ApprovedStaysApproved | packages/store-postgres/src/workflow.ts:749-770 | from approval on no act changes the packets, the approval or the preparer |
| CaseWorkflow.DecideAndDeclineOffered | apps/web/components/case-actions.tsx:125-129 | deciding, and declining once classified, are offered exactly when the store would write, and together |
| CaseWorkflow.AssembleOffered | apps/web/components/case-actions.tsx:197-208 | assembling is offered exactly when the store would take new contents |
| CaseWorkflow.ApproveAndFileOffered | apps/web/components/case-actions.tsx:266-337 | approving and filing the packet shown are offered exactly when the store would write |
| CaseWorkflow.OutcomeOffered | apps/web/components/case-actions.tsx:361-362 | an outcome that fits is offered exactly when the store would write it |
| CaseWorkflow.OfferedIsAccepted | apps/web/components/case-actions.tsx:125-363 | on any reachable case the page offers each of its acts (decide, decline, assemble, approve, file, outcome) exactly when a post then writes |
| CaseRules.DecideWhen | packages/store-postgres/src/workflow.ts:546-640 | a decision is written exactly on a classified case that is not declined, by an owner, an approver or an analyst |
| CaseRules.AssembleWhen | packages/store-postgres/src/workflow.ts:690-790 | a packet exactly while nothing is approved, with contents that are new |
| CaseRules.ApproveWhen | packages/store-postgres/src/workflow.ts:826-920 | an approval exactly of the newest packet that awaits it, by an owner or an approver who did not prepare it |
| CaseRules.FileWhen | packages/store-postgres/src/workflow.ts:973-1115 | a filing exactly of the packet that was approved, confirmed and not filed |
| CaseRules.OutcomeWhen | packages/store-postgres/src/workflow.ts:1140-1212 | an outcome exactly on a filed case, with all of the amount for a win, none for a loss and something between for a part |
| CaseRules.DeclineWhen | packages/store-postgres/src/store.ts:5175-5260 | a decline exactly on a case opened or classified, with no decision and no decline, whose arrival is known |
| CaseRules.OffersExactly | apps/web/components/case-actions.tsx:125-363 | when each of the page's six acts is offered, by the viewer's role, the stage and the rows |
| CaseRules.ViewExactly | packages/store-postgres/src/workflow.ts:2402-2416 | the page shows the case's decision and the packet that was approved, or else the newest |
| CaseHistory.EveryRowHasItsAct | packages/store-postgres/src/workflow.ts:546-1212 | over every run each approval was given by an owner or an approver for the packet of the form, and each decision, packet, filing, outcome and decline by one of them or an analyst, in that role at that moment |
| CaseHistory.OnlyApproversApprove | packages/store-postgres/src/workflow.ts:826-848 | an analyst's or a reader's approval writes nothing |
| CaseHistory.ReadersWriteNothing | packages/store-postgres/src/workflow.ts:546-1212 | nor does any form of a reader or of one who is no member |
| CaseHistory.RoleIsLastGiven | packages/store-postgres/src/workflow.ts:826-848 | a user's role is the one last given |
| CaseHistory.DisputeComesBack | packages/store-postgres/src/workflow.ts:546-1212 | a new case of any reachable state, decided, assembled, approved by another, filed and closed, holds exactly those rows |
| CaseHistory.DeclinedComesToNothing | packages/store-postgres/src/store.ts:5175-5260 | a new case that is declined takes no decision |
| PdfScrub.Without | scripts/import-extractbench.py:138-141 | deleting keys removes exactly those keys, and nothing when none is there |
| PdfScrub.OtherEntriesStay | scripts/import-extractbench.py:138-141 | every entry under another key stays, in its order |
| PdfScrub.Scrubber.DropKeys | scripts/import-extractbench.py:138-141 | the loop over the active keys leaves the entries without them and reports those that were there |
| PdfScrub.Scrubber.Scrub | scripts/import-extractbench.py:131-145 | the walk ends on every graph and scrubs exactly what the node reaches and was not seen |
| PdfScrub.Flatten | scripts/import-extractbench.py:124-152 | exactly what the root still reaches is scrubbed, nothing else changes, the report is the keys that went, and nothing reachable holds an active key |
| PdfScrub.NothingActiveIsReached | scripts/import-extractbench.py:131-147 | by every edge of the changed graph the root reaches no active key |
| PdfPaths.NoPathComesToARunKey | scripts/import-extractbench.py:121-147 | along no path of elements and values from the root does the changed graph come to one of the seven keys, by name |
| PdfPaths.ScrubbingKeeps | scripts/import-extractbench.py:138-141 | an entry is kept exactly when its key is none of the seven |
| PdfScrub.FlattenTwice | scripts/import-extractbench.py:124-152 | a file flattened once is flat: a second flatten reports nothing and changes nothing |
| PdfScrub.EmptyReportExactly | scripts/import-extractbench.py:148-149 | the report is empty exactly when the graph is untouched, which is when nothing reachable held an active key |
| EnclosureZip.NameIsPathFree | apps/web/lib/enclosures-zip.ts:49-58 | an entry's name has no separator, control character or leading dot and a bounded length |
| EnclosureZip.NameTellsPlace | apps/web/lib/enclosures-zip.ts:49-58 | an entry's place in the packet reads back from its name |
| EnclosureContents.SafeNameExactly | apps/web/lib/enclosures-zip.ts:49-58 | what is left of a file's name: from its first unit that is no dot and no space, at most 120 units, each but a letter, digit, `_`, `.`, `-` or space made a `_`, without spaces at its end |
| EnclosureContents.PlaceExactly | apps/web/lib/enclosures-zip.ts:49-58 | a place has two digits up to the ninety-ninth document |
| EnclosureZip.ArchiveNamesDistinct | apps/web/lib/enclosures-zip.ts:103-118 | no two entries of an archive share a name |
| EnclosureContents.EntriesExactly | apps/web/lib/enclosures-zip.ts:110-118 | a document's entry has its content under its own name, and its extract's follows under that name and a suffix |
| EnclosureContents.ArchiveExactly | apps/web/lib/enclosures-zip.ts:103-118 | each document's entries stand right behind those of the documents before it |
| EnclosureContents.ArchiveLength | apps/web/lib/enclosures-zip.ts:103-118 | and there are no others |
| EnclosureZip.EnclosureStream.Finish | apps/web/lib/enclosures-zip.ts:75-81 | only the first call runs `done` |
| EnclosureZip.EnclosureStream.Add | apps/web/lib/enclosures-zip.ts:86-93 | an ended or terminated zip takes no entry and makes the push throw; an open one appends it |
| EnclosureZip.EnclosureStream.PullStart | apps/web/lib/enclosures-zip.ts:95-106 | a pull with nothing left closes the stream and has run `done`; any other waits for the next document |
| EnclosureZip.EnclosureStream.PullResume | apps/web/lib/enclosures-zip.ts:107-121 | a found document and its extract are added right behind one another; a missing one errors the stream; after a cancel nothing is added and `done` does not run again |
| EnclosureZip.EnclosureStream.Cancel | apps/web/lib/enclosures-zip.ts:122-125 | a cancel at any point runs `done` once |
| EnclosureZip.Drive | apps/web/lib/enclosures-zip.ts:70-127 | under every interleaving `done` ran once when the stream has ended and not before, and a closed stream is the archive of what the listed ids name, in order, none missing and no two names alike |
| EnclosureZip.PacketIsUnique | apps/web/lib/enclosures-zip.ts:70-127 | a list of ids and what they name decide the archive |
| CaseRowCsv.ParseCsv | packages/ingest/src/csv.ts:38-98 | the loop reads a text as its unit-by-unit reading does |
| CsvText.BareReadsBack | packages/ingest/src/csv.ts:38-98 | text without quotes reads as its lines and their cells, quotes inside a cell included |
| CsvText.LastLineCounts | packages/ingest/src/csv.ts:92-98 | a last line without a line end counts unless it is empty |
| CsvText.BadQuotesAreRefused | packages/ingest/src/csv.ts:38-98 | a quoted field left open, or followed by other text, is refused |
| CaseRowCsv.CsvSafe | packages/ingest/src/csv.ts:101-103 | no safe cell starts a formula, and a cell that starts none is left alone |
| CsvText.CsvSafeByCharacter | packages/ingest/src/csv.ts:101-103 | by its first character: an apostrophe goes in front of six, and nothing else changes |
| CaseRowCsv.PrintedReadsBack | apps/web/lib/enclosures-zip.ts:29-34 | for any cells the printed case row reads back as its safe header and row |
| CaseRowCsv.ReadsBackExactly | apps/web/lib/enclosures-zip.ts:29-34 | exactly, when neither line is empty |
| DuplicateNaming.LinkDuplicates | scripts/link-duplicates.ts:86-117 | the loop ends, its counters add up to the tries, no match that threw is tried twice, a naming whose reply was lost included, and its last page holds only matches the store refused |
| DuplicateNaming.TryPage | scripts/link-duplicates.ts:94-114 | every match of a page is tried once: named, found named, or thrown and remembered |
| DuplicateNaming.PairStore.Name | packages/store-postgres/src/workflow.ts:1925-1980 | a match is refused, found named or named; named are then, in terms of the two cases whichever way round, what was named and the match's own; its reply may be lost, and nothing else changes |
| DuplicateNaming.UnnamedExactly | packages/store-postgres/src/workflow.ts:1873-1915 | the listing is the matches no event names |
| DuplicateNaming.PairsAlike | packages/store-postgres/src/workflow.ts:1898-1904 | two matches are of one pair exactly when they are between the same two cases, either way round |
| DuplicateNaming.ListedByCases | packages/store-postgres/src/workflow.ts:1873-1915 | a match is listed exactly while no match between its two cases is named |
| DuplicateNaming.PageIsAHundred | packages/store-postgres/src/workflow.ts:1634 | a page is the first hundred of what is unnamed, or all of it |
| DuplicateNaming.EndsByCases | scripts/link-duplicates.ts:86-117 | what a run has named at its end is between the cases of a match named before or one the store accepts |
| DuplicateNaming.PageStaysBeforeWall | packages/store-postgres/src/workflow.ts:1634 | a hundred refused matches in front keep every later page in front of them |
| DuplicateNaming.CompleteExactlyWithoutWalls | scripts/link-duplicates.ts:86-117 | every acceptable pair is named exactly when no acceptable match stands behind a page of refused ones |
| DuplicateNaming.FewRefusalsAreAllRemembered | scripts/link-duplicates.ts:86-117 | with fewer refused than a page holds, every pair left unnamed is one the run refused |
| DuplicateNaming.APageOfRefusalsIsAWall | scripts/link-duplicates.ts:109-114 | a page refused for whatever was thrown while it was tried is such a wall for an acceptable match behind it |
| PayerGroups.GroupByPayer | apps/web/lib/document-suggestions.ts:134-174 | the pass gives the groups of the strictly increasing keys, each its key's documents in order under its heading, then the unnamed, then the unmatched |
| PayerGroups.GroupsArePermutation | apps/web/lib/document-suggestions.ts:134-174 | the groups together hold every document once |
| PayerGroups.JoinedIsGroup | apps/web/lib/document-suggestions.ts:157-164 | the heading stays the first debtor name of the group, or else its first printed name |
| PayerPlaces.GroupHoldsItsPayer | apps/web/lib/document-suggestions.ts:134-174 | a key's group holds exactly the documents whose debtor, or else printed payer, folds to it |
| PayerPlaces.HeadingExactly | apps/web/lib/document-suggestions.ts:134-174 | its heading is the first debtor's name among them, or else the first document's printed name |
| PayerPlaces.TailsHoldTheRest | apps/web/lib/document-suggestions.ts:134-174 | behind the payers come at most two groups, neither empty |
| PayerPlaces.TailHolds | apps/web/lib/document-suggestions.ts:134-174 | one of those whose case names no payer, one of those without a suggestion |
| PayerGroups.IncreasingIsUnique | apps/web/lib/document-suggestions.ts:167-170 | the order of the groups is the only one with increasing keys |
| RecipeRows.Flatten | apps/web/components/portal-review.tsx:351-362 | the shared counter numbers the rows as a numbering without one does |
| RecipeRows.FlattenRecipe | apps/web/components/portal-review.tsx:351-362 | one row for each step, numbered by its place |
| RecipeRows.NestingReadsBack | apps/web/components/portal-review.tsx:351-362 | the kinds and depths of the rows alone give back the nesting |
| RecipeOrder.StepHasItsRow | apps/web/components/portal-review.tsx:351-362 | every step has its own row, whole, at its depth, behind those of the steps before it |
| RecipeOrder.InnerRowsFollow | apps/web/components/portal-review.tsx:351-362 | the rows of a loop's steps stand right behind it, one deeper and numbered on |
| ReadKeys.AttachReadKey | apps/web/lib/inngest.ts:224-233 | the bytes written in place print as the key, a UUID of version 8 |
| ReadKeys.KeyIsVersion8 | apps/web/lib/inngest.ts:224-233 | any sixteen bytes, masked and printed, are a well-formed UUID of version 8 and the RFC variant |
| ReadKeys.MaskedKeepsTheRest | apps/web/lib/inngest.ts:224-233 | six bits of the digest are written over, and every other is kept |
| ReadKeys.UuidIsFiveGroups | apps/web/lib/request.ts:13-20 | a UUID is five groups of hex digits joined by dashes, and nothing else is |
| ReadKeys.NeverVersion4 | apps/web/lib/inngest.ts:224-233 | no attachment's key is a random one |
| ReadKeys.CaseDoesNotMatter | apps/web/lib/inngest.ts:225-226 | ids in capitals give the same key |
| ReadKeys.LettersAlike | apps/web/lib/inngest.ts:225-226 | two characters are hashed alike exactly when they are one, or a letter in both its cases |
| ReadKeys.PairTextParts | apps/web/lib/inngest.ts:225-226 | what is hashed is a prefix, the document's id, a colon and the case's id |
| ReadKeys.PairTextIsInjective | apps/web/lib/inngest.ts:225-226 | two pairs are hashed alike exactly when they are the same pair, letter case apart |
| ReadKeys.KeysCollideExactly | apps/web/lib/inngest.ts:224-233 | two keys are equal exactly when the digests agree in every bit of their first sixteen bytes but the six of version and variant |
| QueryText.SerializedReadsBack | apps/web/lib/manual-case.ts:91-106 | every list of pairs reads back from the query it is written as |
| CaseForms.NewCaseTarget | apps/web/lib/manual-case.ts:91-106 | the redirect carries the notice and the fields that may be echoed |
| CaseForms.PrefillFrom | apps/web/lib/manual-case.ts:79-88 | the dialog opens with exactly the single values that are kept |
| CaseForms.EchoReadsBack | apps/web/lib/manual-case.ts:71-106 | a refused form reads back as exactly what `keep` admits, never the notes |
| CaseForms.EchoThroughRedirect | apps/web/lib/manual-case.ts:71-106 | the two halves together |
| FormRules.KeepsExactly | apps/web/lib/manual-case.ts:41-77 | a value is kept exactly when it is not empty, at most 600 units long, free of control characters but line breaks, and a UUID where the field is an id |
| FormRules.NoticeReadsBack | apps/web/lib/manual-case.ts:91-106 | the redirect carries its notice, and the refused field where there is one |
| FormRules.FormBytesWritten | apps/web/lib/manual-case.ts:91-106 | each byte of the redirect's query by its character |
| FormRules.ComponentBytesWritten | apps/web/lib/case-presentation.ts:86-92 | and of a ledger link's |
| FormRules.LookupExactly | apps/web/lib/manual-case.ts:79-88 | a parameter is the value of its only pair, absent without one and many with more |
| CaseForms.LedgerLinkReadsBack | apps/web/lib/case-presentation.ts:68-92 | a ledger link parses back to the query it was made from, and a text the page would drop has none |
| FormRules.LedgerQueryExactly | apps/web/lib/case-presentation.ts:68-84 | a search is kept exactly when, trimmed, it is not empty, at most 200 units long and free of control characters |
| FormRules.TrimExactly | apps/web/lib/case-presentation.ts:72-74 | trimming takes off white space at both ends and nothing else |
| Money.MoneyReadsBack | apps/web/lib/format.ts:19-23 | a parser of grouped dollars and cents, strict about every comma, reads every whole number of cents back from its print |
| Money.NoTwoPrintAlike | apps/web/lib/format.ts:19-23 | no two amounts print alike |
| Money.NoLeadingZero | apps/web/lib/format.ts:19-23 | no amount is printed with a zero too many in front |
| Money.SignedBelowZero | apps/web/lib/format.ts:19-23 | a sign is printed exactly below zero, in front of the dollar sign |

## Left out

- Environment bindings, membership lookups, payload parsing (`parseReadRequested` and its siblings) and log lines: each is settled by reading its branches; a refusal is one environment choice.
- HTTP, KMS, Supabase, Resend, Postgres and QuickBooks themselves: environment choices that succeed, fail, lose a reply or kill the process.
- A claim's connection that drops while its work goes on: the advisory lock is held until the attempt ends or dies.
- The posting card's approval flag and the five-minute staleness that offers a retry: rows exist only with an approval, and what staleness is for is the fault `retryOvertakesFirst`.
- Spreadsheets on the read path, which are read without a model call, and the extraction of fields.
- A settlement's own decision (schema S) in the case workflow: a declined case may be settled, and it is the dispute decision that excludes a decline.
- Evidence planning, routing and the other stages no offered action reaches; the second `writeback` approval of the same press.
- DuplicateNaming.LinkDuplicates: does not model other writers during the run or new matches recorded while it runs; whether a match is refused, and whether its call throws, is one answer for its one try.
- OpenedCases.OneCaseOpenedExactly: takes opening a case, naming its identifiers and linking its document as one await, so a run that dies between those writes opened nothing.
- InboundParts.ReceiveParts: does not model two emails counting the day's reads at the same time, which may pass the budget together.
- PdfScrub.Flatten: does not model Python's recursion limit, the reuse of an object's `id`, or reading and writing the file; a reference stands for what it resolves to.
- EnclosureZip.Drive: models the archive as its entries, not its bytes; the zip writer's rule that a terminated archive refuses entries is taken from its documented behaviour.
- ReadKeys.AttachReadKey: takes the digest as any function to at least sixteen bytes, and lower-cases ASCII letters only, the letters an id has.
- Money.MoneyReadsBack: whole cents only.
- PayerGroups.GroupByPayer: takes `retailerMatchKey` as any function, and compares keys by scalar value, as `<` does on the ASCII keys it returns.
- CaseForms.EchoReadsBack: texts of Unicode scalar values only, no lone surrogates; the page's own markup is not modelled.
- Labels, the decide form's reason groups, notices, the work queue, retailer board, books and settlement editor: presentation, or logic imported from elsewhere.
