# Hawelly transfer verification

A Dafny model of Hawelly, a money-transfer service: an Express and Prisma API, a web client and an Android client.
The model covers five connected pieces and proves what holds of them in every run.

1. **The transfer lifecycle.** Five services change one transfer together with its quotes, funding instruction and
   proofs, payout case, disputes, confirmations and refund. `transfer_steps.dfy` has one function per transaction,
   `transfer_file.dfy` the same transactions as methods that update the rows in place, `transfer_invariant.dfy` the
   joint invariant, `transfer_runs.dfy` the interleavings. `transfer_answers.dfy` says when each transaction succeeds and
   what a refusal means, `transfer_effects.dfy` what each does row by row. The theorems over runs are in
   `transfer_theorems.dfy` (agreement of the records, quote history, evidence, money), `transfer_progress.dfy` (edges, phases, no dead ends),
   `transfer_settlement.dfy` (received money can be settled), `transfer_history.dfy` (database guards never fire,
   decisions are kept), `transfer_traps.dfy` (where an expected property fails, with the exact condition) and
   `transfer_witnesses.dfy` (runs that get there).
2. **Login sessions.** Refresh-token families, rotation, replay detection, session versions and password changes
   (`sessions.dfy`, `session_runs.dfy`, `session_proofs.dfy`, `session_theorems.dfy`, `session_laws.dfy`,
   `auth_service.dfy`), the Android client's single-flight refresh (`android_session.dfy`), and the two together (`session_composition.dfy`).
3. **Evidence upload.** The chunked exclusive write (`evidence_storage.dfy`), and uploads racing with each other and with
   the removal of stale rows (`evidence_uploads.dfy`).
4. **Creating transfers.** Submission keys, the retry loop and the two quotas (`transfer_creation.dfy`,
   `creation_theorems.dfy`, `creation_laws.dfy`), the retrying client against the server (`submission_client.dfy`,
   `submission_theorems.dfy`), the attempt limiter (`rate_limit.dfy`) and its use around passwords (`login_limit.dfy`,
   `login_keys.dfy`).
5. **Money text, corridors, configuration.** Printing and reading amounts (`money_text.dfy`), the options the client
   derives against the check the server makes (`corridors.dfy`), and the configuration both come from
   (`configuration.dfy`).

A database transaction is one step. What a service reads before its transaction is an earlier step, after which
anything else may happen. A run is a sequence of states and events; theorems quantify over all runs and all points of
them. Services whose code updates rows or fields are classes. Each of their methods is proved to do what the function of
the same step says and to keep `Valid()`, the invariant of its rows; the theorems are about those functions, and
laws say what each of them answers and does without using its definition. `dafny verify dfyconfig.toml` checks everything.

## Where an expected property fails

- `release` moves a transfer from ON_HOLD to PAYOUT_IN_PROGRESS, an edge the status table does not have; it is the only
  such step (`OnTableIffNotRelease`, `ReleaseHappens`).
- A draft quote that has expired can be neither sent nor replaced: the transfer can be quoted again if and only if it
  holds no such draft (`QuotableIffNoExpiredDraft`, `ExpiredDraftHappens`).
- Starting to quote again leaves the sent quote behind; only cancellation closes it (`SentStaysIffQuotedAgain`,
  `DeclinedWithSentQuoteIsReached`).
- Cancelling a held transfer leaves its case on hold and the confirmed funds neither paid out nor refunded, for good
  (`CancelLeavesCaseIffHeld`, `CancelledWhileHeldIsFinal`, `HeldCancellationIsReached`). It is never forced: until then
  three steps settle the money (`MoneyCanBeSettledUnlessGivenUp`).
- The client drops its submission key on any 4xx answer, including one that is not about the submission; if the first
  answer was lost, the same form then makes a second transfer (`RefusalAfterLostSuccessDuplicates`). Two presses that both
  succeed make one transfer if and only if they send the same form with no success, no 4xx and no other form in between
  (`OneTransferIffNothingDropped`).
- A password change looks at the limiter in one transaction and records its failure in another. Changes admitted together
  are all recorded, without bound (`AdmittedTogetherIsUnbounded`). A window stays within its maximum if and only if none is
  recorded while its bucket blocks (`WindowsHoldIffNoneOverdue`); logins alone, and changes recorded before any other
  failure of their address, keep the limiter's bound (`LoginFailuresAreBounded`, `PromptFailuresAreBounded`).
- `majorToMinor` drops commas wherever they stand, so `1,50` is read as 150.00 (`DecimalCommaIsDropped`). An accepted text
  is read as what was typed if and only if it has no comma or its commas group the whole units in threes, with no leading
  zero (`ReadAsTypedIffCommasGroup`).
- Signing out does not wait for a refresh or a restore whose answer is outstanding, and that answer signs the Android
  client in again; nothing else but signing in does (`SignOutIsUndoneIffOutstanding`).

## Model

| member | source | states |
|---|---|---|
| TransferState.TerminalIffAbsorbing | apps/api/src/transfers/service.ts:26-33 | the quota's hand-written list of terminal statuses is exactly the set of statuses the table gives no way out of |
| TransferState.TargetsAreReviewsAndCancellation | apps/api/src/transfers/state.ts:92-98 | `transition` is asked for a review action's target or the cancellation, and for nothing else; only asking for information leads back to the request, only quoting to a quote, and only declining nowhere |
| TransferProofs.NewRecordInv | apps/api/src/transfers/service.ts:710-726 | a newly created transfer satisfies the joint invariant over quotes, funding, payout, disputes and refund |
| TransferProofs.TransitionSources | apps/api/src/transfers/state.ts:4-90 | from which statuses each target of `transition` can be reached along the table |
| TransferProofs.SourcesAreAllowed | apps/api/src/transfers/state.ts:4-90 | and that all of these can be left that way |
| TransferProofs.TransitionKeepsQuotes | apps/api/src/transfers/service.ts:820-894 | a committed review action or cancellation keeps the quote invariant, superseding sent quotes only on cancellation |
| TransferProofs.CreateDraftKeepsQuotes | apps/api/src/quotes/service.ts:148-178 | a new draft gets the next version number and stays the only draft and the highest version |
| TransferProofs.SendDraftKeepsQuotes | apps/api/src/quotes/service.ts:196-247 | sending a draft makes it the only sent quote and the highest that is not a draft |
| TransferProofs.ExpireKeepsQuotes | apps/api/src/quotes/service.ts:257-282 | expiry on reading closes the sent quote, and the transfer only if it is still quoted |
| TransferProofs.DecideKeepsQuotes | apps/api/src/quotes/service.ts:294-335 | a decision closes the one sent quote; acceptance happens before expiry and leaves no sent quote |
| TransferProofs.PublishKeepsFunding | apps/api/src/funding/service.ts:181-230 | the one instruction asks for the accepted quote's send amount |
| TransferProofs.SubmitProofKeepsFunding | apps/api/src/funding/service.ts:292-346 | a submission drops stale pending proofs and leaves at most one proof awaiting upload or review |
| TransferProofs.CommitUploadKeepsFunding | apps/api/src/funding/service.ts:383-412 | a completed upload presents its proof and moves the transfer to review |
| TransferProofs.ReviewProofKeepsFunding | apps/api/src/funding/service.ts:458-495 | a review closes the presented proof, and a rejection reopens funding |
| TransferProofs.ConfirmFundsKeepsFunding | apps/api/src/funding/service.ts:497-523 | confirmation needs the one verified proof, and every later status keeps it |
| TransferProofs.PayoutStepKeepsResolution | apps/api/src/payout/service.ts:247-524 | opening, editing, reporting, holding and releasing keep case and transfer status in agreement |
| TransferProofs.CompletionStepKeepsResolution | apps/api/src/resolution/service.ts:89-131 | asking for confirmation, confirming and completing keep case and transfer status in agreement |
| TransferProofs.OpenDisputeKeepsResolution | apps/api/src/resolution/service.ts:133-149 | a dispute is opened only when none is active and remembers the status it interrupts, with the case put on hold only out of a payout in progress |
| TransferProofs.TakeDisputeKeepsResolution | apps/api/src/resolution/service.ts:151-161 | taking a dispute keeps the agreement of dispute, case and transfer |
| TransferProofs.ResolveDisputeKeepsResolution | apps/api/src/resolution/service.ts:168-199 | each of the five resolutions leaves transfer, case, dispute and refund in agreement |
| TransferProofs.RefundStepKeepsResolution | apps/api/src/resolution/service.ts:201-230 | starting and paying a refund keep the one refund, its amount and the case in agreement with the transfer |
| TransferProofs.StepKeeps | apps/api/src/resolution/service.ts:66-231 | every one of the 25 service transactions keeps the joint invariant from every state that satisfies it |
| TransferRuns.EffectIsLegal | apps/api/src/transfers/service.ts:836-870 | a `transition` that commits does so along an edge that its earlier, possibly stale, check allowed |
| TransferRuns.EventKeeps | apps/api/src/transfers/service.ts:820-894 | every event of an interleaving, including the two halves of `transition`, keeps the invariant |
| TransferRuns.RunKeeps | apps/api/src/transfers/service.ts:820-894 | the joint invariant holds at every point of every interleaving |
| TransferTheorems.ReachableRecordsAgree | apps/api/src/resolution/service.ts:133-230 | in every reachable state transfer, case, disputes and refund agree, both ways, status by status |
| TransferTheorems.ReachableQuoteHistory | apps/api/src/quotes/service.ts:148-335 | versions are 1..n, at most one draft and it is last, at most one sent quote and only drafts follow it, exactly one accepted quote and no sent one after acceptance, accepted before it expired |
| TransferTheorems.ReachableFundingEvidence | apps/api/src/funding/service.ts:181-523 | at most one proof is awaiting upload or review; which statuses have presented, pending and verified proofs; funds were confirmed exactly where one verified proof and one instruction exist |
| TransferTheorems.ReachableMoneyAgrees | apps/api/src/resolution/service.ts:163-166 | requested amount, accepted send amount, instruction and refund are one amount and currency; accepted receive amount, case and reported payout are another |
| TransferTheorems.RequestedNeverChanges | apps/api/src/transfers/service.ts:710-726 | no step of any run changes the amount the sender asked to send |
| TransferTheorems.FundedEndings | apps/api/src/resolution/service.ts:168-230 | a terminal transfer whose funds were confirmed ended in exactly one of four ways, never both paid out and refunded |
| TransferProgress.OnTableIffNotRelease | apps/api/src/payout/service.ts:502-524 | a successful step keeps the status or follows a table edge if and only if it is not a release, which goes from ON_HOLD to PAYOUT_IN_PROGRESS |
| TransferProgress.EveryChangeIsAnEdge | apps/api/src/transfers/service.ts:836-870 | the same for every status change of every interleaving |
| TransferProgress.TerminalForever | apps/api/src/transfers/state.ts:74-90 | a terminal status never changes again in any run |
| TransferProgress.StepNeverLowersPhase | apps/api/src/resolution/service.ts:183-194 | no transaction lowers the phase, a disputed transfer being placed by the status its dispute interrupted |
| TransferProgress.ProgressIsNeverUndone | apps/api/src/resolution/service.ts:183-194 | over any stretch of any run the phase never falls |
| TransferProgress.MilestoneCrossed | apps/api/src/payout/service.ts:447-492 | accepting, publishing, confirming, opening a case, reporting, starting a refund (by itself or by a dispute) and paying it each cross their own phase |
| TransferProgress.MilestonesHappenOnce | apps/api/src/payout/service.ts:447-492 | each of these succeeds at most once in a run, a refund counting as started by a dispute too, so funds are confirmed once, a payout reported once and a refund started once |
| TransferProgress.WayOut | apps/api/src/resolution/service.ts:119-230 | from every non-terminal state at most three transactions that are enabled one after another end the transfer |
| TransferProgress.NoDeadEnds | apps/api/src/funding/service.ts:497-523 | every reachable non-terminal state of every run has such a way out |
| TransferProgress.VerifiedNeedsThree | apps/api/src/funding/service.ts:497-523 | three is sharp: with a verified proof under review no two transactions end the transfer |
| TransferSettlement.MoneyCanBeSettledUnlessGivenUp | apps/api/src/resolution/service.ts:168-230 | in every reachable state in which a proof is verified or funds were confirmed, three successful steps or fewer end with the recipient paid or the sender refunded, if and only if the transfer has not been failed or cancelled; after that no number of steps does |
| TransferSettlement.WayToSettle | apps/api/src/resolution/service.ts:119-230 | which steps: confirm, hold, refund and pay, complete, or resolve the dispute by refunding |
| TransferHistory.TriggersNeverFire | apps/api/prisma/migrations/20260827204000_funding_workflow_integrity/migration.sql:60-138 | no update a service makes from a state satisfying the invariant is one that the quote, funding, payout, dispute and refund triggers of the database reject, missing lifecycle times and late uploads included |
| TransferHistory.UniqueIndexesNeverFire | apps/api/prisma/migrations/20260826094905_initial/migration.sql:681-687 | nor does a statement of a transaction, the first of two included, leave rows that a unique index rejects: one draft, one sent, one accepted quote, one active proof, one active dispute, one confirmation per source |
| TransferHistory.OtherOrderFiresIffNeeded | apps/api/src/quotes/service.ts:213-218 | with the two statements swapped, sending a draft is rejected if and only if a sent quote is left to supersede, and submitting a proof if and only if there is a stale one to delete |
| TransferHistory.StepIsKept | apps/api/prisma/migrations/20260828110000_resolution_workflows/migration.sql:48-121 | one transaction rewrites nothing that was decided: closed quotes, instructions, reviewed proofs, reported payout, closed disputes, confirmations, refund amount |
| TransferHistory.DecisionsAreKept | apps/api/prisma/migrations/20260828110000_resolution_workflows/migration.sql:48-121 | the same over any stretch of any run |
| TransferTraps.StuckForever | apps/api/src/quotes/service.ts:148-160 | with an expired draft no schedule of later steps removes that draft or quotes the transfer |
| TransferTraps.QuotableIffNoExpiredDraft | apps/api/src/quotes/service.ts:196-215 | a transfer awaiting its quote can still be quoted if and only if it holds no expired draft, since such a draft can be neither sent nor replaced |
| TransferTraps.SentStaysIffQuotedAgain | apps/api/src/transfers/service.ts:871-876 | leaving QUOTED by `transition` leaves the sent quote behind if and only if the target is QUOTING, and it cannot be decided on there |
| TransferTraps.DeclinedWithSentQuote | apps/api/src/transfers/service.ts:871-876 | from every quoted transfer two legal steps decline it for good while its quote still counts as sent |
| TransferTraps.CancelLeavesCaseIffHeld | apps/api/src/transfers/state.ts:61-65 | a cancellation leaves an ON_HOLD case and confirmed funds behind if and only if it cancels a held transfer |
| TransferTraps.CancelledWhileHeldIsFinal | apps/api/src/resolution/service.ts:201-214 | after that nothing can refund it, pay it out or change its case |
| TransferTraps.HeldCancellationHappens | apps/api/src/payout/service.ts:502-524 | it can be brought about from every state in FUNDS_CONFIRMED |
| TransferWitnesses.ExpiredDraftHappens | apps/api/src/quotes/service.ts:116-178 | a run from the creation of any transfer to an expired draft, after which it can never be quoted |
| TransferWitnesses.DeclinedWithSentQuoteIsReached | apps/api/src/transfers/service.ts:871-876 | a run from the creation of any transfer that ends declined with a quote still sent |
| TransferWitnesses.ReleaseHappens | apps/api/src/payout/service.ts:502-524 | a run from the creation of any transfer whose last step is a successful release, off the table |
| TransferWitnesses.HeldCancellationIsReached | apps/api/src/transfers/state.ts:61-65 | a run from the creation of any transfer to a cancellation on hold, with verified funds, an open case and no refund |
| TransferAnswers.SucceedsIffPossible | apps/api/src/resolution/service.ts:66-231 | on a consistent record each of the 25 transactions succeeds if and only if the status, the row asked about and the arguments allow it, in terms of those alone |
| TransferAnswers.QuoteStepAnswers | apps/api/src/quotes/service.ts:116-335 | which of the quote transactions and transitions succeed: whatever else they check holds by itself |
| TransferAnswers.FundingStepAnswers | apps/api/src/funding/service.ts:176-523 | which of the funding transactions succeed |
| TransferAnswers.PayoutStepAnswers | apps/api/src/payout/service.ts:247-524 | which of the payout transactions succeed |
| TransferAnswers.EndingAnswers | apps/api/src/resolution/service.ts:89-230 | which confirmations, disputes, resolutions and refunds succeed; a payout that was never reported cannot be completed |
| TransferAnswers.RefusalsAreTrue | apps/api/src/resolution/service.ts:66-231 | on a consistent record every refusal's code names something that really stands in the way; some codes, like a missing refund snapshot, are never answered |
| TransferAnswers.QuoteRefusals | apps/api/src/quotes/service.ts:116-335 | the same of the quote transactions |
| TransferAnswers.FundingRefusals | apps/api/src/funding/service.ts:176-523 | the same of the funding transactions |
| TransferAnswers.PayoutRefusals | apps/api/src/payout/service.ts:247-524 | the same of the payout transactions |
| TransferAnswers.EndingRefusals | apps/api/src/resolution/service.ts:89-230 | the same of confirmations, disputes and refunds |
| TransferEffects.TransitionEffect | apps/api/src/transfers/service.ts:855-894 | a transition sets the status; only a cancellation touches the quotes, and of them only the sent one |
| TransferEffects.DraftEffect | apps/api/src/quotes/service.ts:161-194 | the new draft's terms, its expiry validForMinutes later, its number, and nothing else |
| TransferEffects.SendEffect | apps/api/src/quotes/service.ts:210-222 | the draft is sent now, exactly the sent ones are superseded, the transfer is quoted |
| TransferEffects.ExpiryEffect | apps/api/src/quotes/service.ts:257-282 | exactly a sent quote that ran out is closed, and the transfer with it only if it was quoted |
| TransferEffects.DecisionLaw | apps/api/src/quotes/service.ts:294-335 | a decision succeeds exactly on a live sent quote of a quoted transfer; accepting makes exactly that quote the accepted one, rejecting closes exactly that quote and leaves the transfer ready for the next draft |
| TransferEffects.PublishEffect | apps/api/src/funding/service.ts:203-230 | one instruction for the requested amount and the accepted quote |
| TransferEffects.SubmitEffect | apps/api/src/funding/service.ts:292-346 | pending proofs go, the new one waits for its file or is presented |
| TransferEffects.UploadEffect | apps/api/src/funding/service.ts:383-412 | the proof is presented at the time of its upload |
| TransferEffects.ReviewLaw | apps/api/src/funding/service.ts:458-495 | a review succeeds exactly on the presented proof under review; verifying leaves only the confirmation, the other two decisions ask for a new proof that can be submitted at once |
| TransferEffects.ConfirmFundsEffect | apps/api/src/funding/service.ts:497-523 | only the status moves |
| TransferEffects.CaseEffect | apps/api/src/payout/service.ts:270-288 | the case is for the accepted quote's receive amount and has the given associate, deadline and reference |
| TransferEffects.PatchEffect | apps/api/src/payout/service.ts:332-345 | exactly the fields that are given change |
| TransferEffects.EvidenceEffect | apps/api/src/payout/service.ts:355-424 | one piece of evidence is added, or gets its upload time |
| TransferEffects.ReportLaw | apps/api/src/payout/service.ts:447-492 | a report succeeds exactly for the case's own amount, in time and with something to show; it is the one staff confirmation and opens the way to both completions |
| TransferEffects.HoldEffect | apps/api/src/payout/service.ts:502-524 | hold and release undo each other |
| TransferEffects.CompletionEffect | apps/api/src/resolution/service.ts:89-131 | asking moves the status only; confirming and completing complete the case, the sender's confirmation being recorded once |
| TransferEffects.OpenDisputeEffect | apps/api/src/resolution/service.ts:133-149 | the dispute remembers the interrupted status; a case in progress is held, a reported one stays |
| TransferEffects.TakeDisputeEffect | apps/api/src/resolution/service.ts:151-161 | the dispute goes to one member of staff and nothing else changes |
| TransferEffects.ResolutionLaw | apps/api/src/resolution/service.ts:168-199 | of the active dispute: COMPLETE succeeds exactly with a reported case and a staff confirmation, RESUME and REJECT exactly if the interrupted step was verified, FAIL and REFUND always; and where transfer, case, refund and dispute then stand, action by action |
| TransferEffects.ResolutionOnRecord | apps/api/src/resolution/service.ts:168-182 | the dispute's own row: action, time, and an assignee if it had none |
| TransferEffects.StartRefundEffect | apps/api/src/resolution/service.ts:201-214 | a refund of the requested amount, with a held case failed |
| TransferEffects.ConfirmRefundEffect | apps/api/src/resolution/service.ts:216-230 | the refund is paid at the reported time, with its amount as it was |
| TransferEffects.AcceptedByDecision | apps/api/src/quotes/service.ts:294-335 | in every run a quote is accepted only if an earlier decision accepted that very quote, at that time |
| TransferEffects.VerifiedByReview | apps/api/src/funding/service.ts:458-495 | in every run a proof is verified only if an earlier review verified that very proof |
| TransferEffects.StatusHasItsCause | apps/api/src/transfers/state.ts:4-90 | in every run a transfer's status is where one particular kind of transaction took it, listed per transaction |
| TransferEffects.EdgesAreTakenOrNamed | apps/api/src/transfers/state.ts:4-90 | apart from the targets of `transition` the status table has exactly the edges some transaction takes, and eight that none takes |
| TransferFiles.StepIsSafe | apps/api/src/resolution/service.ts:66-231 | a transaction about to run on consistent rows leaves consistent rows; every method of the class below requires and ensures `Valid()`, the joint invariant, so no sequence of calls leaves it |
| TransferFiles.TransferFile.constructor | apps/api/src/transfers/service.ts:710-726 | a new transfer's rows, which satisfy the invariant |
| TransferFiles.TransferFile.ReadForTransition | apps/api/src/transfers/service.ts:828-854 | a ticket commits if nothing intervenes and keeps the invariant; without one no ticket for that target could commit on these rows |
| TransferFiles.TransferFile.CommitTransition | apps/api/src/transfers/service.ts:855-894 | under any ticket a check can hand out: compare-and-set on the status read earlier; on a mismatch nothing changes |
| TransferFiles.TransferFile.CreateDraft | apps/api/src/quotes/service.ts:116-194 | createDraft: its refusals in order, or the new draft row |
| TransferFiles.TransferFile.SendDraft | apps/api/src/quotes/service.ts:196-247 | sendDraft: its refusals in order, or the sent draft, superseded others and QUOTED |
| TransferFiles.TransferFile.ExpireIfNeeded | apps/api/src/quotes/service.ts:257-282 | expiry of the sent quote and, if still quoted, of the transfer |
| TransferFiles.TransferFile.Decide | apps/api/src/quotes/service.ts:294-335 | decide: its refusals in order, or acceptance or rejection |
| TransferFiles.TransferFile.PublishInstruction | apps/api/src/funding/service.ts:176-230 | publishInstruction: its refusals in order, or the instruction and FUNDING_PENDING |
| TransferFiles.TransferFile.SubmitProof | apps/api/src/funding/service.ts:270-346 | submitProof: stale rows dropped, its refusals in order, or the new proof |
| TransferFiles.TransferFile.CommitUpload | apps/api/src/funding/service.ts:360-412 | completeUpload but for the file: not found, closed, expired, or the presented proof |
| TransferFiles.TransferFile.ReviewProof | apps/api/src/funding/service.ts:458-495 | reviewProof: its refusals, or the decision and where it takes the transfer |
| TransferFiles.TransferFile.ConfirmFunds | apps/api/src/funding/service.ts:497-523 | confirmFunds: its refusals, or FUNDS_CONFIRMED |
| TransferFiles.TransferFile.CreateCase | apps/api/src/payout/service.ts:247-288 | createCase: its refusals in order, or the case with the accepted receive amount |
| TransferFiles.TransferFile.UpdateCase | apps/api/src/payout/service.ts:316-345 | updateCase: its refusals, or the patched case |
| TransferFiles.TransferFile.AddEvidence | apps/api/src/payout/service.ts:355-395 | addEvidence: its refusals, or the new evidence row |
| TransferFiles.TransferFile.CommitEvidenceUpload | apps/api/src/payout/service.ts:397-424 | the payout completeUpload but for the file: not found, closed, expired, or the upload time |
| TransferFiles.TransferFile.ReportPayout | apps/api/src/payout/service.ts:447-492 | reportPayout: its refusals in order, or the reported amounts and PAYOUT_REPORTED |
| TransferFiles.TransferFile.ChangeHold | apps/api/src/payout/service.ts:502-524 | hold and release, the latter without a table check |
| TransferFiles.TransferFile.RequestSenderConfirmation | apps/api/src/resolution/service.ts:89-100 | requestSenderConfirmation |
| TransferFiles.TransferFile.ConfirmRecipientReceived | apps/api/src/resolution/service.ts:102-117 | confirmRecipientReceived: the confirmation row and completion |
| TransferFiles.TransferFile.CompleteByAdmin | apps/api/src/resolution/service.ts:119-131 | completeByAdmin: needs a staff confirmation and a reported case |
| TransferFiles.TransferFile.OpenDispute | apps/api/src/resolution/service.ts:133-149 | openDispute: the dispute row, the held case, DISPUTED |
| TransferFiles.TransferFile.TakeDispute | apps/api/src/resolution/service.ts:151-161 | takeDispute |
| TransferFiles.TransferFile.CreateRefund | apps/api/src/resolution/service.ts:163-166 | createRefund: the refund of the accepted send amount, or no snapshot |
| TransferFiles.TransferFile.TargetOf | apps/api/src/resolution/service.ts:183-194 | where each resolution takes the transfer, always along an edge from DISPUTED |
| TransferFiles.TransferFile.SettleCase | apps/api/src/resolution/service.ts:183-194 | what each resolution does to the case |
| TransferFiles.TransferFile.ResolveDispute | apps/api/src/resolution/service.ts:168-199 | resolveDispute: its refusals in order, or dispute, case, refund and transfer together |
| TransferFiles.TransferFile.StartRefund | apps/api/src/resolution/service.ts:201-214 | startRefund: its refusals, or the refund and the failed case |
| TransferFiles.TransferFile.ConfirmRefund | apps/api/src/resolution/service.ts:216-230 | confirmRefund: its refusals in order, or REFUNDED |
| SessionProofs.DimsKeeps | apps/api/src/auth/service.ts:606-636 | revoking, flagging and version changes keep chains, rows and families consistent and take nothing back |
| SessionProofs.OpenFamilyKeeps | apps/api/src/auth/service.ts:150-173 | a login or registration opens a family of one live session bound to the password just checked |
| SessionProofs.RotateKeeps | apps/api/src/auth/service.ts:508-557 | consuming a session and creating its successor keeps the family one chain under one absolute expiry |
| SessionProofs.RevokeUserKeeps | apps/api/src/auth/service.ts:607-620 | revoking all of a user's sessions with any change of that user keeps the invariant |
| SessionProofs.ReplayKeeps | apps/api/src/auth/service.ts:432-472 | a claimed replay leaves no live session in the family and keeps the invariant |
| SessionProofs.EventKeeps | apps/api/src/auth/service.ts:474-570 | every event of any request keeps the whole invariant and takes nothing back |
| SessionTheorems.RunKeeps | apps/api/src/auth/service.ts:474-570 | the invariant holds at every point of every interleaving |
| SessionTheorems.NothingIsTakenBack | apps/api/src/auth/service.ts:508-557 | identities, expiries, revocations, successors, detected replays and version bumps are never undone |
| SessionTheorems.FamiliesAreChains | apps/api/src/auth/service.ts:150-173 | for any two sessions of a family of a reachable store: successor iff ROTATED and of the same family, no shared successor, only the last can be live, one absolute expiry no expiry exceeds, one user, nothing live after a detected replay |
| SessionTheorems.FamilyIsOneChain | apps/api/src/auth/service.ts:539-542 | the sessions of a family are exactly the links of one sequence, each replaced by the next and the last by none |
| SessionTheorems.AtMostOneRefreshWins | apps/api/src/auth/service.ts:508-523 | of any number of interleaved refreshes of one session at most one goes through |
| SessionTheorems.ReplayEndsFamilyForever | apps/api/src/auth/service.ts:446-453 | after a detected replay no session of the family is live in any later world, not even one created by a refresh read before it |
| SessionTheorems.ReplayEnds | apps/api/src/auth/service.ts:432-472 | on any consistent store: a rotated session's replay is on record and its family dead, any other changes nothing |
| SessionTheorems.LosingRefreshEnds | apps/api/src/auth/service.ts:558-567 | a refresh that did not go through ends with its family dead if its session was rotated, and with nothing changed if not |
| SessionTheorems.InvalidationRefusesEarlierTokens | apps/api/src/auth/service.ts:638-663 | after logout-all, a password change, a claimed replay or a staff access change, every access token whose version had been read is refused in all later worlds |
| SessionTheorems.LiveMeansCurrentPassword | apps/api/src/auth/service.ts:830-849 | every live session's family began with a login or registration of its user under the password hash stored now |
| SessionComposition.StepUndisturbed | apps/api/src/auth/service.ts:487-498 | no step detects a replay in a family whose refresh tokens reach the server once each |
| SessionComposition.NoFalseReplay | apps/api/src/auth/service.ts:487-498 | such a family is never taken for replayed, in any run |
| SessionComposition.ClientNeverLooksLikeReplay | apps/android-client/app/src/main/java/com/hawelly/sender/data/HawellyRepository.kt:221-271 | so a client that follows HawellyRepository never triggers replay detection, over any number of launches that leave no answer outstanding for the stored token |
| SessionLaws.ReadLaw | apps/api/src/auth/service.ts:474-498 | the right secret of a session that has a successor starts the hunt for a replay, of one that can be used a rotation, and anything else is refused; reading changes no row |
| SessionLaws.ReplacedTokenEndsFamily | apps/api/src/auth/service.ts:474-498 | in every run: once a request that presented a replaced session's token has finished, the replay is on record and no session of the family is ever live again |
| SessionLaws.RefreshOutcome | apps/api/src/auth/service.ts:432-498 | the same without anything in between, with the version raised by one unless the replay was claimed before |
| SessionLaws.ClaimLaw | apps/api/src/auth/service.ts:432-472 | what a claim changes, row by row, and that only a first claim on a replaced session changes anything |
| SessionLaws.LogInLaw | apps/api/src/auth/service.ts:353-404 | a login succeeds exactly with the stored password of an active and operational user; the token opens the new session exactly until its refresh token runs out |
| SessionLaws.RegisterLaw | apps/api/src/auth/service.ts:253-298 | a new user is logged in at once, a taken identity changes nothing |
| SessionLaws.RotationLaw | apps/api/src/auth/service.ts:508-570 | a rotation goes through exactly for a usable session without conflict or clash; the successor keeps owner, family and absolute expiry, and its token opens it unless the version was raised meanwhile |
| SessionLaws.LogOutLaw | apps/api/src/auth/service.ts:572-604 | exactly the right token ends its own session |
| SessionLaws.LogOutAllLaw | apps/api/src/auth/service.ts:606-636 | every live session of the user ends, no other changes, and the version goes up by one |
| SessionLaws.ChangePasswordLaw | apps/api/src/auth/service.ts:827-849 | exactly if the user is active and the checked hash is stored: the new password works, the old one does not, and no token of the user does |
| SessionLaws.ChangeStaffLaw | apps/api/src/admin/service.ts:229-251 | every session of the member of staff ends and no token opens one, whatever the new access is |
| SessionLaws.CreateStaffLaw | apps/api/src/admin/service.ts:171-192 | a new member of staff has no session and can log in |
| SessionLaws.AuthenticationLaw | apps/api/src/auth/service.ts:638-663 | a token opens a session exactly if it names the session's owner and the owner's version, the session can be used, and its owner may |
| AuthServices.AuthService.CreateSession | apps/api/src/auth/service.ts:150-173 | the first session of a new family, expiring no later than the absolute expiry; this and every method below keeps the invariant of the store and takes nothing back |
| AuthServices.AuthService.RegisterSender | apps/api/src/auth/service.ts:253-298 | the registration transaction and the version its access token carries |
| AuthServices.AuthService.Login | apps/api/src/auth/service.ts:353-404 | the login transaction: password, status and access checked together with the insert |
| AuthServices.AuthService.ReadForRefresh | apps/api/src/auth/service.ts:474-498 | what refresh decides from the session it reads |
| AuthServices.AuthService.ConsumeAndReplace | apps/api/src/auth/service.ts:508-557 | the guarded update, the insert and the link; nothing changes if the guard fails |
| AuthServices.AuthService.RevokeFamilyForReplay | apps/api/src/auth/service.ts:432-472 | the replay is claimed at most once, and only for a rotated session |
| AuthServices.AuthService.Refresh | apps/api/src/auth/service.ts:474-570 | the whole refresh, with its conflict and clash cases |
| AuthServices.AuthService.Logout | apps/api/src/auth/service.ts:572-604 | one session revoked, if the token's secret is right and it is still live |
| AuthServices.AuthService.LogoutAll | apps/api/src/auth/service.ts:606-636 | all of the user's sessions revoked and the version raised |
| AuthServices.AuthService.ChangeUserPassword | apps/api/src/auth/service.ts:827-849 | only if the stored hash is still the one that was checked: new hash, new version, all sessions revoked |
| AuthServices.AuthService.ChangeStaffAccess | apps/api/src/admin/service.ts:229-251 | a staff access change always ends in invalidated sessions |
| AuthServices.AuthService.Authenticate | apps/api/src/auth/service.ts:638-663 | exactly when an access token opens a session, which is then the last of its family and began under the password stored now |
| AndroidSession.StepKeeps | apps/android-client/app/src/main/java/com/hawelly/sender/data/HawellyRepository.kt:221-271 | every step between two suspension points keeps the client's invariant |
| AndroidSession.SingleFlight | apps/android-client/app/src/main/java/com/hawelly/sender/data/HawellyRepository.kt:237-259 | in every run, over any number of launches, no refresh token is sent twice, one failed access token causes at most one refresh, and one refresh runs at a time |
| AndroidSession.RelaunchRepeatsIffInFlight | apps/android-client/app/src/main/java/com/hawelly/sender/data/HawellyRepository.kt:17-23 | ending the process and launching again repeats a refresh token if and only if the answer for the stored token was outstanding |
| AndroidSession.WaiterReusesSession | apps/android-client/app/src/main/java/com/hawelly/sender/data/HawellyRepository.kt:237-239 | a call that waited out another's refresh of its token goes straight to its retry and sends nothing |
| AndroidSession.UnauthorizedCallLaw | apps/android-client/app/src/main/java/com/hawelly/sender/data/HawellyRepository.kt:221-248 | a call refused with 401 renews the session once and is retried with what that brought, or ends; a failed refresh signs out |
| AndroidSession.SessionLaw | apps/android-client/app/src/main/java/com/hawelly/sender/data/HawellyRepository.kt:17-48 | what signing in and the two ends of a restore leave behind |
| AndroidSession.SignOutIsUndoneIffOutstanding | apps/android-client/app/src/main/java/com/hawelly/sender/data/HawellyRepository.kt:236-271 | after signing out the client can hold a session again without anybody signing in if and only if the answer to a refresh or a restore was outstanding |
| AndroidSession.Repository.Accept | apps/android-client/app/src/main/java/com/hawelly/sender/data/HawellyRepository.kt:261-266 | acceptSession |
| AndroidSession.Repository.Clear | apps/android-client/app/src/main/java/com/hawelly/sender/data/HawellyRepository.kt:268-271 | clearSession |
| AndroidSession.Repository.BeginRefresh | apps/android-client/app/src/main/java/com/hawelly/sender/data/HawellyRepository.kt:237-243 | refreshAfter up to its request: reuse, give up, or send the stored token |
| AndroidSession.Repository.EndRefresh | apps/android-client/app/src/main/java/com/hawelly/sender/data/HawellyRepository.kt:243-248 | refreshAfter from its answer on: the new session, or everything cleared |
| EvidenceStorage.SplitDoesNotMatter | apps/api/src/funding/storage.ts:76-88 | cutting any chunk of the stream in two at any place does not change the verdict |
| EvidenceStorage.PaddedPrefix | apps/api/src/funding/storage.ts:92-98 | the zero-filled eight-byte buffer begins with a type's magic bytes exactly if the uploaded bytes do |
| EvidenceStorage.JudgeLaw | apps/api/src/funding/storage.ts:63-105 | stored exactly when all is well; any other verdict names what is wrong |
| EvidenceStorage.MagicSpells | apps/api/src/funding/storage.ts:92-95 | the three magic numbers, in characters |
| EvidenceStorage.LocalEvidenceStorage.WriteObject | apps/api/src/funding/storage.ts:63-105 | stored exactly if the concatenated bytes have the expected length and their type's magic bytes and the name was free; then the object is that concatenation, otherwise no object has changed |
| EvidenceStorage.LocalEvidenceStorage.FillPrefix | apps/api/src/funding/storage.ts:78-82 | the buffer holds the first eight bytes of what arrived, however it was cut |
| EvidenceStorage.LocalEvidenceStorage.MatchesType | apps/api/src/funding/storage.ts:92-98 | the three comparisons of the buffer |
| EvidenceUploads.StepKeeps | apps/api/src/funding/service.ts:360-417 | every step of every racing request keeps the invariant of row, file and requests |
| EvidenceUploads.UploadedMeansComplete | apps/api/src/funding/service.ts:383-412 | in every interleaving a row marked uploaded has its file, of the promised length and type, and one request succeeded |
| EvidenceUploads.UploadedIsForever | apps/api/src/funding/service.ts:413-417 | no loser and no stale-row removal ever unlinks, replaces or appends to that file |
| EvidenceUploads.NoOrphans | apps/api/src/funding/service.ts:347-347 | when all requests and removals have ended, a file remains if and only if the row is uploaded |
| EvidenceUploads.FeedConcatenates | apps/api/src/funding/storage.ts:76-88 | a request fed chunk by chunk has received their concatenation, or has gone over the size |
| EvidenceUploads.WritesLikeStorage | apps/api/src/funding/storage.ts:63-105 | a request of the interleaving reaches its commit exactly when WriteObject would store what it received |
| EvidenceUploads.UploadLaw | apps/api/src/funding/service.ts:360-417 | an upload that nothing interferes with succeeds exactly when row, link, name and bytes are right, and otherwise leaves row and file as they were |
| EvidenceUploads.DropLaw | apps/api/src/funding/service.ts:299-347 | a waiting row is dropped exactly when its link has run out, and its file goes with it |
| EvidenceUploads.ProofUpload.CompleteUpload | apps/api/src/funding/service.ts:360-417 | the row is marked uploaded together with its complete file, or neither the row nor any file changes, and exactly when |
| TransferCreation.MoveCounts | apps/api/src/transfers/service.ts:683-688 | a status change never raises a sender's active count, because no edge leaves a terminal status |
| TransferCreation.WithinIsRecent | apps/api/src/transfers/service.ts:689-694 | everything created in an interval that starts in the counted window is counted |
| TransferCreation.InsertKeepsQuotas | apps/api/src/transfers/service.ts:680-736 | a creation that passed both counts keeps both quotas, for every sender and every interval |
| TransferCreation.AttemptKeeps | apps/api/src/transfers/service.ts:646-753 | one attempt's transaction keeps keys, references and both quotas, and rewrites nothing |
| TransferCreation.EventKeeps | apps/api/src/transfers/service.ts:571-771 | every event of the interleaved requests keeps keys, references, answers and quotas, and rewrites nothing |
| CreationTheorems.OneTransferPerKey | apps/api/src/transfers/service.ts:646-679 | under any interleaving at most one transfer is ever made for a sender and key |
| CreationTheorems.SuccessesAgree | apps/api/src/transfers/service.ts:579-596 | all successes under one key name that transfer and came from the same fields |
| CreationTheorems.OtherFieldsAreRefused | apps/api/src/transfers/service.ts:586-594 | once a key stands for a transfer, other fields are refused at the lookup and inside the transaction |
| CreationTheorems.NothingIsRewritten | apps/api/src/transfers/service.ts:727-736 | transfers are never lost and an idempotency entry is never rewritten |
| CreationTheorems.ActiveNeverExceeds | apps/api/src/transfers/service.ts:695-701 | no sender ever has more active transfers than the limit |
| CreationTheorems.WindowNeverExceeds | apps/api/src/transfers/service.ts:702-709 | no closed interval of the window's length holds more creations than the maximum, even when they commit out of clock order |
| CreationTheorems.OnlyCreationAdds | apps/api/src/transfers/state.ts:74-90 | without a creation the active count never grows |
| CreationTheorems.RetryIsReplay | apps/api/src/transfers/service.ts:579-596 | repeating a call that succeeded, with the same key and fields, changes nothing and returns the same transfer |
| CreationLaws.AttemptLaw | apps/api/src/transfers/service.ts:680-753 | under a new key: refused for activity exactly if that many transfers of the sender have a way out, for rate exactly if that many more were created in the last window, and otherwise a free reference makes exactly one new transfer |
| CreationLaws.KnownKeyLaw | apps/api/src/transfers/service.ts:646-660 | a known key gets its transfer or the reuse refusal, whatever the quotas say |
| CreationLaws.CallLaw | apps/api/src/transfers/service.ts:571-771 | the answer of a whole call, with the first free one of three references |
| CreationLaws.RequestLaw | apps/api/src/transfers/service.ts:571-771 | the first look and each attempt of an interleaved request |
| CreationLaws.LifecycleMoves | apps/api/src/transfers/service.ts:683-688 | the status changes the counts are about are all that ever happen in a run of the lifecycle |
| CreationTheorems.TransferService.TryOnce | apps/api/src/transfers/service.ts:646-753 | one attempt's transaction: lookup, counts, reference, inserts; rows stay consistent and within the quotas |
| CreationTheorems.TransferService.CreateTransfer | apps/api/src/transfers/service.ts:571-771 | the whole call with its loop of up to three attempts |
| SubmissionClient.SameCanonicalSameRequest | apps/android-client/app/src/main/java/com/hawelly/sender/ui/HawellyViewModel.kt:352-371 | forms with equal fingerprints are equal and make equal requests, if no field but the note holds a NUL |
| SubmissionClient.RequestSaysWhatTheFormSays | apps/android-client/app/src/main/java/com/hawelly/sender/data/HawellyRepository.kt:146-160 | the request carries the form field by field, and an empty note not at all |
| SubmissionClient.AmbiguousIffSeparator | apps/android-client/app/src/main/java/com/hawelly/sender/ui/HawellyViewModel.kt:359-370 | for every form, another one that makes another request shares its fingerprint if and only if one of its seven fields holds the separator |
| SubmissionClient.ScreenFormsAreToldApart | apps/android-client/app/src/main/java/com/hawelly/sender/ui/HawellyApp.kt:727-730 | forms that the submit button lets through hold no separator before the note, and share a fingerprint only if they are the same |
| SubmissionClient.StepKeeps | apps/android-client/app/src/main/java/com/hawelly/sender/ui/HawellyViewModel.kt:165-216 | client and server together keep every key bound to the fields it was made for |
| SubmissionClient.SubmissionState.Begin | apps/android-client/app/src/main/java/com/hawelly/sender/ui/HawellyViewModel.kt:165-181 | the key a submission goes out under, or nothing while one is in flight |
| SubmissionClient.SubmissionState.Finish | apps/android-client/app/src/main/java/com/hawelly/sender/ui/HawellyViewModel.kt:205-214 | success or 4xx drops the key, other failures keep it |
| SubmissionTheorems.NeverRefusedForReuse | apps/android-client/app/src/main/java/com/hawelly/sender/ui/HawellyViewModel.kt:337-345 | the client's requests are never refused as reusing a key, whatever others do |
| SubmissionTheorems.SameKeyIffNothingDropped | apps/android-client/app/src/main/java/com/hawelly/sender/ui/HawellyViewModel.kt:337-350 | a later press uses the same key if and only if it sends the same form and no success, no 4xx and no other form came in between |
| SubmissionTheorems.RetriesMakeOneTransfer | apps/android-client/app/src/main/java/com/hawelly/sender/ui/HawellyViewModel.kt:165-216 | requests under one key can only succeed with one and the same transfer |
| SubmissionTheorems.OneTransferIffNothingDropped | apps/android-client/app/src/main/java/com/hawelly/sender/ui/HawellyViewModel.kt:165-216 | two presses that both succeed have made one transfer if and only if they sent the same form and no success, no 4xx and no other form came in between |
| SubmissionTheorems.RefusalAfterLostSuccessDuplicates | apps/android-client/app/src/main/java/com/hawelly/sender/ui/HawellyViewModel.kt:209-215 | a run in which a 4xx that is not about the submission drops the key of an existing transfer, and the same form makes a second one |
| RateLimit.RetryReachesEveryBlock | apps/api/src/auth/rateLimit.ts:59-80 | blocked exactly if some bucket blocks; the delay is at least a second, outlasts every block, and one second less would not |
| RateLimit.LatestIsTheMaximum | apps/api/src/auth/rateLimit.ts:67-71 | the reduce finds the latest block that is still on |
| RateLimit.ArriveKeeps | apps/api/src/auth/rateLimit.ts:82-115 | windows are at least a window apart and hold at most the maximum, and the bucket describes the last one |
| RateLimit.AtMostTwiceTheMaximum | apps/api/src/auth/service.ts:219-230 | with a clock that never goes back, a half-open interval of one window holds at most 2 * maximum - 1 recorded attempts |
| RateLimit.BoundIsReached | apps/api/src/auth/rateLimit.ts:82-115 | the bound is sharp: a run that reaches it, for every rule |
| RateLimit.BlocksNeverGrow | apps/api/src/auth/rateLimit.ts:107-112 | no attempt moves the end of a block, and a block ends with its window |
| LoginLimit.AddressStep | apps/api/src/auth/rateLimit.ts:133-172 | one event records at most one failure in an address's bucket; a success does not clear it |
| LoginLimit.LoginFailuresAreBounded | apps/api/src/auth/service.ts:338-382 | with clocks in order, logins alone put at most 2 * maximum - 1 failures of one address into any half-open interval of one window |
| LoginLimit.PromptFailuresAreBounded | apps/api/src/auth/service.ts:771-823 | the same with password changes, if each failed one is recorded before any other failure of its address since its admission |
| LoginLimit.WindowsHoldIffNoneOverdue | apps/api/src/auth/service.ts:805-823 | an address's window always holds at most the maximum if and only if no password change records its failure while the bucket blocks, which a second look would have shown |
| LoginLimit.FailuresAreBoundedButForOverdue | apps/api/src/auth/service.ts:805-823 | in any interval of one window there are at most 2 * maximum - 1 failures besides those overdue ones, if these were recorded in clock order |
| LoginLimit.AdmittedTogetherIsUnbounded | apps/api/src/auth/service.ts:771-823 | a run in which any number of password changes, admitted together, all record a failure at one instant |
| LoginKeys.FailureLaw | apps/api/src/auth/rateLimit.ts:133-163 | one failure counts one more in each of the three buckets of its source or opens a new window there, and no other bucket changes |
| LoginKeys.SuccessLaw | apps/api/src/auth/rateLimit.ts:165-172 | a success forgets the account and the account at that address, and nothing else |
| LoginKeys.RefusalLaw | apps/api/src/auth/rateLimit.ts:59-80 | a source is refused exactly if its address, its account or the account at that address blocks |
| LoginKeys.WaitingLaw | apps/api/src/auth/service.ts:771-823 | a password change waits from its admission until it fails, succeeds or lapses, once |
| LoginKeys.LockedOutIffWindowFull | apps/api/src/auth/service.ts:338-382 | in every run and for each kind of key: it locks out exactly while the failures since it was last forgotten fill their current window, and then every login and password change it concerns is refused |
| LoginKeys.FailuresOfKeyAreBounded | apps/api/src/auth/service.ts:338-382 | between two clearings logins alone, from whatever addresses, put at most 2 * maximum - 1 failures for one account into any interval of one window; the same for an address and for an account at an address |
| LoginLimit.FoundBlocks | apps/api/src/auth/rateLimit.ts:59-66 | the buckets found for some keys block exactly if one of the keys is blocked |
| LoginLimit.RateLimiter.RecordBucketAttempt | apps/api/src/auth/rateLimit.ts:82-115 | the upsert of one bucket |
| LoginLimit.RateLimiter.Read | apps/api/src/auth/rateLimit.ts:59-80 | blocked exactly if a key is, and then for long enough that none still is, but not a second more |
| LoginLimit.RateLimiter.AdmitRegistration | apps/api/src/auth/service.ts:219-230 | the admission transaction: refused while blocked, otherwise recorded |
| LoginLimit.RateLimiter.Login | apps/api/src/auth/service.ts:338-404 | a blocked login changes nothing, a failed one is recorded in three buckets, a right one clears two |
| LoginLimit.RateLimiter.AdmitPasswordChange | apps/api/src/auth/service.ts:771-803 | a password change is admitted exactly if no bucket blocks, and nothing is recorded |
| LoginLimit.RateLimiter.RecordLoginFailure | apps/api/src/auth/rateLimit.ts:133-163 | a failure goes into all three buckets, blocked or not |
| MoneyText.FormattedReadsBack | apps/web/lib/workflow.ts:291-306 | every positive canonical amount of any size that is printed with its currency reads back as itself |
| MoneyText.PrintedReadsBack | apps/web/lib/workflow.ts:291-306 | the same for the number alone |
| MoneyText.MajorToMinorReadsMeaning | apps/web/lib/workflow.ts:299-306 | exactly the plain decimal texts of a positive amount are read, each as the amount it means, in canonical form |
| MoneyText.ReadsExactly | apps/web/lib/workflow.ts:299-306 | without numbers: a text is read exactly if it is digits with at most two after one dot, and as those digits completed to two cents from the first that is not zero |
| MoneyText.BlanksAround | apps/web/lib/workflow.ts:300-300 | blanks around a text do not matter |
| MoneyText.ReadingIsStable | apps/web/lib/workflow.ts:299-306 | printing what was read and reading it again changes nothing |
| MoneyText.GroupsOfThree | apps/web/lib/workflow.ts:295-295 | commas stand exactly at every fourth place from the right |
| MoneyText.GroupingIsUndone | apps/web/lib/workflow.ts:295-300 | removing commas gives back the digits |
| MoneyText.ZeroDoesNotReadBack | apps/web/lib/workflow.ts:304-305 | zero prints but is not read |
| MoneyText.ReadAsTypedIffCommasGroup | apps/web/lib/workflow.ts:299-306 | for every text that is accepted, the amount read is the one typed, in plain digits or as it is printed, if and only if it has no comma or its commas group the whole units in threes, without leading zeros |
| MoneyText.PrintsAsTypedIffGrouped | apps/web/lib/workflow.ts:291-306 | for every text that is accepted, printing the amount read gives back what was typed, cents completed, if and only if commas stand exactly where they group the whole units |
| MoneyText.DecimalCommaIsDropped | apps/web/lib/workflow.ts:300-300 | a decimal comma groups nothing: it is dropped like any other, which makes the amount a hundred times larger |
| Corridors.AcceptedIffConfigured | apps/api/src/transfers/service.ts:252-302 | the server finds a corridor for a request if and only if the configuration lists its countries, sends its currency there, pays out its method there and has a currency to pay out in |
| Corridors.RecipientDestinationOptions | apps/web/lib/workflow.ts:47-65 | the loop over corridors fills one entry per country, in insertion order |
| Corridors.OfferedIffSupported | apps/api/src/transfers/service.ts:270-276 | the client offers exactly the country and payout method pairs the server supports, each once |
| Corridors.CurrencyOfferedIffPaidOut | apps/web/lib/workflow.ts:51-59 | and exactly the currencies that some corridor pays out there |
| Corridors.OptionsMatchConfiguration | apps/api/src/transfers/service.ts:254-264 | which are, for every country that has a corridor at all, exactly the methods and currencies the configuration lists for it |
| Corridors.ReconciledIsSupported | apps/web/lib/workflow.ts:67-80 | the reconciled selection is supported, keeps a supported choice, clears the country exactly if nothing is supported there, and is stable |
| ConfigurationActivation.KeysMatchIsEquality | apps/api/src/admin/service.ts:352-357 | counting keys and checking membership amounts to equality with the set of countries |
| ConfigurationActivation.AcceptedIffSound | apps/api/src/admin/service.ts:347-399 | the checks accept exactly the configurations that map just their listed countries, repeat nothing, use supported currencies only and stay within the storage limits |
| ConfigurationActivation.ErrorsAreTrue | apps/api/src/admin/service.ts:347-399 | the error shown names something that is wrong |
| ConfigurationActivation.AcceptedServesEveryPair | apps/api/src/admin/service.ts:347-400 | with an accepted configuration the server takes exactly the requests it spells out, in supported currencies only |
| ConfigurationActivation.AcceptedHasEveryCorridor | apps/api/src/transfers/service.ts:254-264 | one corridor for every pair of a listed origin and destination |
| ConfigurationActivation.LatestAcceptedIsActive | apps/api/src/admin/service.ts:401-451 | after any activations the accepted configurations are numbered in order and exactly the last is active |
| ConfigurationActivation.ConfigurationService.ActivateConfiguration | apps/api/src/admin/service.ts:401-451 | one activation: validate, deactivate the current row, append the next version |

## Left out

Assumptions of the model:

- Transactions are atomic, as their row locks, advisory locks and isolation levels intend; anomalies of weaker isolation, process crashes and commits whose outcome is unknown are not modelled.
- Clocks: every step takes an arbitrary `now`; only the limiter's bounds and the ways out of a transfer assume an order, and say so.
- Random identifiers are fresh. A clash with an existing row is refused as the primary key would refuse it; a clash of family identifiers, which no key forbids, is not modelled.
- Passwords, refresh tokens, URLs and fingerprints: hashing and signatures are injective, a token matches when its hash does, and signature checks are Boolean inputs.
- Files follow POSIX: exclusive creation is atomic, unlinking takes the name away, and an unlink that is attempted succeeds.
- The Android client runs the code between two suspension points without interruption, has one repository per store, is not ended while the answer for its stored refresh token is outstanding (`RelaunchRepeatsIffInFlight` says what happens otherwise), and each request it sends is delivered at most once.

Not modelled:

- Express routing, request schemas, cookies, the Next.js proxy, screens, environment parsing: plumbing; validated ranges are taken as given.
- Role and capability checks, and not-found answers for other people's records: every modelled actor is allowed to call.
- Notes, names, addresses, references in records, JSON projections, lists, dashboards, audit events.
- Quote fee breakdown and rate, staff owner of a case and its notes: no step of the model reads them.
- The policy checks on attachment type, size and filename in submitProof and addEvidence; the bytes themselves are checked in `evidence_storage.dfy`.
- Check constraints of the database.
- Recipient quotas, recipient records, receipt of staff accounts beyond their sessions, app updates.
- Refund status FAILED and the table edges that no service takes.
- `lastUsedAt` and the address hashes of sessions, which no decision reads.
- Validity of creation inputs (amount, corridor, limits, recipient) is one Boolean of a request in `transfer_creation.dfy`; the corridor check itself is in `corridors.dfy`.
- The web client's own submission handling.
- Uploads of payout evidence run the same protocol as proofs without the removal of stale rows, so `evidence_uploads.dfy` covers them.
- Regular expressions and `Intl` names, except the three patterns of the amount functions, which are written out.
- RateLimit.AtMostTwiceTheMaximum: registration requests are taken in clock order, although the code reads its clock before it waits for the bucket's lock.
- EvidenceUploads.NoOrphans: says nothing of a request or removal that never ends, since crashes are not modelled.
- SessionComposition.ClientNeverLooksLikeReplay: holds for a family whose tokens only this client holds and sends.
