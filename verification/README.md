# Ledger, fiscal years, invoices and their documents

A model, with machine-checked proofs, of the parts of the application that write to the double-entry
ledger and of the documents it produces.

* **The fiscal-year cycle.** A year is closed on the request of one person and the approval of another:
  groups 6 and 7 are settled against account 129000000, groups 1 to 5 are brought to zero, the accounts
  are copied to the next year, and the balances are opened there. A close can be reopened, which posts
  three mirrored entries and marks the successor as reversed, and the year can be closed again into the
  same successor. `FiscalCycle` gives every operation as a function from a state to a state and an
  outcome and folds commands into runs; the `Cycle...` modules prove what every run keeps. The commands
  include the other writers of the journal, so the laws hold whatever is posted in between. `CycleDates`
  has the dates of automatic entries and the dates a year takes, and `CycleOutcomes` says of every
  operation when it succeeds and what it then writes, in terms of rows alone.
  `FiscalStore` is the same service as the code runs it: a class whose tables the methods change step by
  step, with a map of balances, loops and a rollback, proved to have exactly the specified effect.
* **Invoices.** `Calculations` is the arithmetic of lines, totals and tax summaries; `Billing` drafts,
  issues, rectifies and voids invoices over the same ledger; `BillingTheorems` has the laws of a run;
  `BillingOutcomes` says when each operation succeeds and what it writes; `BillingDesk` is the step-by-step form.
* **Waiver evidence.** `Waiver` has the regularizing entry of a review, its controlled reversal and its
  replacement; `WaiverTheorems` the laws; `WaiverOutcomes` when each move is granted and what it
  writes; `WaiverDesk` the step-by-step form and the limit on attempts.
* **Documents.** `Csv` is the journal export with a reference reader, `QrImage` the bit packer of the QR
  code, `PdfText`, `PdfFile` and `PdfDocuments` the PDF serializer.

Conventions. Amounts are whole cents, quantities whole thousandths, percentages hundredths of a percent,
so all arithmetic is exact; rounding is half away from zero. Dates are whole numbers written yyyymmdd.
Tables only grow, so the identifier of a row is its position. Each database transaction is one step. The
database checks that the code relies on are part of the model: totals of an entry are equal and positive,
a line has one positive side (`prisma/migrations/20260710003000_add_accounting_manual_entries/migration.sql:39-55`),
an entry is reversed at most once, and ordinary invoices do not have negative amounts.
The idempotency key, its request hash, the clock, and counts taken from tables outside the model are
parameters. The chart of accounts is any list with distinct digit codes, nine digits on postable ones, and
a postable 129000000.

Two behaviours that the model makes precise:

* A close whose preflight is ready still fails when groups 6 and 7 carry balances that cancel to exactly
  zero: the balancing line of 129000000 has no side and the journal refuses it. `CycleTheorems.CloseOutcome`
  states the condition in both directions, `CycleExample.ReadyCloseCanThrow` is a concrete run.
* An invoice with a total of zero passes every check of issuing and is then refused by the journal.
  `BillingTheorems.IssueOutcome` states the condition in both directions, `BillingExample.FreeInvoiceAborts` is a
  concrete run.

A database trigger (`prisma/migrations/20260806190000_add_waiver_accounting_reversal_requests/migration.sql:125-128`)
refuses to reverse a replacement entry, while the application code does not look at the origin of the
entry. The model follows the application code and so covers more runs; its laws hold for the runs that
the trigger leaves.

## Model

| member | source | states |
|---|---|---|
| CycleTheorems.OneOpenYear | modules/accounting/application/fiscalYears.ts:269-285 | after every run the years are contiguous, exactly one is open, all earlier ones are closed, and a later one can only be the reversed successor of the open one |
| CycleTheorems.ClosedIffCurrent | modules/accounting/application/fiscalYearReopenRequests.ts:308-318 | a year is closed exactly when one completed close of it has not been reopened; there is at most one, and no close is reopened twice |
| CycleTheorems.PendingCloseIsOpen | modules/accounting/application/fiscalYearCloseRequests.ts:155-168 | a pending close request always points at the open year and at a free successor, so the not-open and next-exists branches of the approval are never reached |
| CycleTheorems.TerminalRequestsNeverChange | modules/accounting/application/fiscalYearCloseRequests.ts:258-276 | a close or reopening request that left the pending status keeps its row through every later run |
| CycleTheorems.JournalAlwaysPasses | modules/accounting/application/fiscalYearClosePreflight.ts:61-89 | every entry ever posted, by whatever writer, satisfies all the journal conditions of the close preflight |
| CycleTheorems.JournalNumbersAreGapless | modules/accounting/application/fiscalYears.ts:599-604 | the entries of every year are numbered exactly 1 to n in posting order |
| CycleTheorems.ReadyMeans | modules/accounting/application/fiscalYearClosePreflight.ts:169-194 | of all the conditions of the preflight only the counts outside the journal and the balances of groups 0, 8 and 9 can ever fail |
| CycleTheorems.CloseOutcome | modules/accounting/application/fiscalYears.ts:269-381 | approving a pending request has three outcomes: refused, thrown exactly when result accounts with balances cancel out, done in every other case; the missing-129 and unbalanced-entry throws are never reached |
| CycleExample.ReadyCloseCanThrow | modules/accounting/application/fiscalYears.ts:330-358 | a run that ends in a ready preflight and a close that throws |
| CycleTheorems.CloseCarriesBalances | modules/accounting/application/fiscalYears.ts:307-475 | after any close, first or repeated, every account of the closed year is at zero and has exactly one copy, equal up to its name, with its balance before the close if it is of groups 1 to 5, 129000000 also taking in the result; other years keep their balances |
| CycleTheorems.ReopeningUndoesClosing | modules/accounting/application/fiscalYearReopenRequests.ts:405-428 | a reopening, after any commands since its close, restores the row of the year and every balance of both years as they were just before the close |
| CycleTheorems.ReopenReadyIff | modules/accounting/application/fiscalYearReopenRequests.ts:570-681 | for a completed close the preflight of a reopening is exactly six conditions; statuses, links, year numbers, entry evidence, child years and missing copies never fail on their own |
| CycleTheorems.RunFullyCopied | modules/accounting/application/fiscalYearReopenRequests.ts:628-632 | in every reachable state every account of a closed year has its copy in the next one |
| CycleRepeats.FreshCloseIsReopenable | modules/accounting/application/fiscalYearReopenRequests.ts:595-679 | right after a close its reopening is ready exactly when the copies still bear the names of their sources, and always after a first close |
| CycleRepeats.ReopenedYearIsClosable | modules/accounting/application/fiscalYearReopenRequests.ts:421-428 | right after a reopening the year is open, its successor does not stand in the way, no request is pending, and the preflight is as decisive as ever |
| CycleReplays.RetryIsTransparent | modules/accounting/application/fiscalYearReopenRequests.ts:833-856 | a successful command repeated at any later point of any run changes nothing and gets the first response; its key with another hash changes nothing and is refused |
| CycleReplays.RetriesCanBeDropped | modules/accounting/application/fiscalYears.ts:214-226 | taking a command that reuses the key of an earlier success out of a run leaves the final state as it was |
| CycleRuns.RunKeeps | modules/accounting/application/fiscalYears.ts:202-527 | the invariant of the cycle, twelve conjuncts over years, accounts, journal, requests and balances, holds after every run |
| CycleRuns.RunFrozen | modules/accounting/application/fiscalYearReopenRequests.ts:595-614 | while a close is current no run touches the years up to its own, adds entries to them, or completes requests about them |
| CycleReopenKeeps.ApproveReopenKeeps | modules/accounting/application/fiscalYearReopenRequests.ts:365-455 | approving a reopening keeps the invariant and never throws |
| CycleOutcomes.InitializeOutcome | modules/accounting/application/fiscalYears.ts:107-165 | the first year is created exactly for a number from 2000 to 2100 while there is none, with one account for each row of the chart |
| CycleOutcomes.RequestCloseOutcome | modules/accounting/application/fiscalYearCloseRequests.ts:137-218 | a close request is created exactly for an open year without a pending one, under a new key, when each of the seven counts outside the journal is zero and groups 0, 8 and 9 are at zero |
| CycleOutcomes.CancelCloseOutcome | modules/accounting/application/fiscalYearCloseRequests.ts:241-301 | only the requester cancels, only while pending, and nothing but the row and the reply changes |
| CycleOutcomes.ApproveCloseOutcome | modules/accounting/application/fiscalYears.ts:202-527 | a close is done exactly when it is pending, approved by somebody else under a new key, nothing is pending, groups 0, 8 and 9 are at zero and balances of groups 6 and 7 do not cancel out; the year, its successor and the request then have the rows written out |
| CycleOutcomes.RequestReopenOutcome | modules/accounting/application/fiscalYearReopenRequests.ts:292-363 | a reopening request is created exactly when the close can be reopened and no live request stands, and expires 604800000 milliseconds later |
| CycleOutcomes.ApproveReopenOutcome | modules/accounting/application/fiscalYearReopenRequests.ts:365-463 | an approval is refused as expired from the moment of expiry on, and before that done exactly for a pending request, another person and a close that can be reopened |
| CycleOutcomes.WithdrawalOutcome | modules/accounting/application/fiscalYearReopenRequests.ts:465-568 | a pending request is cancelled by its requester only and rejected by others only, before it expires |
| CycleOutcomes.ReopenRequestLives | modules/accounting/application/fiscalYearReopenRequests.ts:762-800 | through any commands of the next seven days that do not decide it a request stays pending and can be approved; afterwards every approval is refused as expired |
| CycleOutcomes.CreateAccountOutcome | modules/accounting/application/journal.ts:182-262 | an account is created exactly for one to nine digits, nine if postable, free in the open year meant |
| CycleOutcomes.ManualEntryOutcome | modules/accounting/application/journal.ts:264-370 | an entry is accepted exactly with two lines or more, each with one positive side, equal totals, and active postable accounts of the open year of its date |
| CycleDates.AutomaticDates | modules/accounting/application/fiscalYears.ts:350-476 | after every run a completed close has its regularization and closing on the 31st of December and its opening on the 1st of January, and every reversal of a reopening bears the date of the entry it reverses |
| CycleDates.OpenYearTakesItsDays | modules/accounting/application/journal.ts:302-309 | the open year takes its first day, its last day and exactly the dates between them |
| CycleCloseKeeps.CloseThrowsIff | modules/accounting/application/fiscalYears.ts:330-381 | of an open year with groups 0, 8 and 9 at zero the postings fail exactly when the result is zero with balances in groups 6 and 7 |
| CycleClose.RegularizationNet | modules/accounting/application/fiscalYears.ts:322-358 | regularizing takes every account of groups 6 and 7 to zero and moves their total, and nothing else, to 129000000 |
| CycleClose.SettledPatrimonialCancels | modules/accounting/application/fiscalYears.ts:361-381 | once the result is settled the balances of groups 1 to 5 add up to zero, so the closing and opening entries balance |
| CycleClose.CopyMapTotal | modules/accounting/application/fiscalYears.ts:390-455 | after a first or repeated close the map from accounts to their copies is total and one to one |
| CycleClose.CopiedCodesUnique | modules/accounting/application/fiscalYears.ts:391-410 | copying only the missing accounts never repeats a code in the successor |
| Settlement.YearBalancesCancel | modules/accounting/application/fiscalYears.ts:307-321 | the balances of all accounts of a year add up to zero |
| Settlement.SettlementNet | modules/accounting/application/fiscalYears.ts:363-369 | the closing lines of a group put on each of its accounts minus its balance and nothing on any other |
| Settlement.OpeningNet | modules/accounting/application/fiscalYears.ts:449-462 | the opening lines put on each copy the balance of its source |
| Settlement.SettlementTotals | modules/accounting/application/fiscalYears.ts:563-574 | closing lines are one-sided, on accounts of the group only, and total minus the sum of its balances |
| Settlement.AccountsInOrder | modules/accounting/application/fiscalYears.ts:263-266 | the accounts of a year come in the order of their codes |
| Ledger.SequencesAreGapless | modules/accounting/application/journal.ts:339-344 | numbering each entry one after the highest of its year leaves no gap and no repetition |
| Ledger.MirrorNegates | modules/accounting/application/fiscalYearReopenRequests.ts:740-747 | exchanging debit and credit negates the effect on every account |
| FiscalStore.Store.ApproveClose | modules/accounting/application/fiscalYears.ts:202-527 | step by step, with rollback, the approval has the specified effect and outcome and keeps the invariant |
| FiscalStore.Store.SettleAndOpen | modules/accounting/application/fiscalYears.ts:307-476 | the three postings taken from one map of balances are those computed from the journal itself |
| FiscalStore.Store.Regularize | modules/accounting/application/fiscalYears.ts:322-358 | after the settlement is posted the map of balances agrees with the journal on all accounts of groups 1 to 5 |
| FiscalStore.ResultCorrected | modules/accounting/application/fiscalYears.ts:346-349 | correcting the one balance of 129000000 is enough for that agreement |
| FiscalStore.YearBalances | modules/accounting/application/fiscalYears.ts:307-321 | summing the lines of the year gives the balance of every account |
| FiscalStore.LinesFromIsSettlement | modules/accounting/application/fiscalYears.ts:363-369 | closing lines taken from an agreeing map are the closing lines of the journal |
| FiscalStore.Store.OpenSuccessor | modules/accounting/application/fiscalYears.ts:384-444 | the successor is revived or created and receives exactly the accounts it lacks |
| FiscalStore.Store.CreateAutomaticEntry | modules/accounting/application/fiscalYears.ts:576-626 | an entry with unequal totals throws, another gets the next number of its year or is refused by the journal |
| FiscalStore.Store.CreateReversalEntry | modules/accounting/application/fiscalYearReopenRequests.ts:715-751 | the mirrored entry is posted in the year and at the date of the original, under the next number |
| FiscalStore.Store.ExpireStaleReopenRequests | modules/accounting/application/fiscalYearReopenRequests.ts:762-800 | exactly the pending requests past their time, of the closes asked for, become expired |
| FiscalStore.Store.ListReopenRequests | modules/accounting/application/fiscalYearReopenRequests.ts:274-290 | no request listed as pending has run out of time |
| FiscalStore.Store.Initialize | modules/accounting/application/fiscalYears.ts:107-165 | the first year and its chart of accounts, once only |
| FiscalStore.Store.RequestClose | modules/accounting/application/fiscalYearCloseRequests.ts:137-218 | the request has the specified effect and keeps the invariant |
| FiscalStore.Store.CancelClose | modules/accounting/application/fiscalYearCloseRequests.ts:241-301 | the cancellation has the specified effect and keeps the invariant |
| FiscalStore.Store.RequestReopen | modules/accounting/application/fiscalYearReopenRequests.ts:292-363 | the request has the specified effect and keeps the invariant |
| FiscalStore.Store.ApproveReopen | modules/accounting/application/fiscalYearReopenRequests.ts:365-463 | the approval has the specified effect and keeps the invariant |
| FiscalStore.Store.CancelReopen | modules/accounting/application/fiscalYearReopenRequests.ts:465-508 | the cancellation has the specified effect and keeps the invariant |
| FiscalStore.Store.RejectReopen | modules/accounting/application/fiscalYearReopenRequests.ts:510-568 | the rejection has the specified effect and keeps the invariant |
| FiscalStore.Store.CreateAccount | modules/accounting/application/journal.ts:182-262 | an account enters the latest open year, with a code free in it, and the invariant is kept |
| FiscalStore.Store.CreateManualEntry | modules/accounting/application/journal.ts:264-370 | a balanced entry of two or more one-sided lines on active postable accounts enters the open year of its date |
| Calculations.RoundedIsUnique | modules/billing/application/calculations.ts:121-123 | rounding gives the only nearest whole cent, ties away from zero |
| Calculations.LineIsExact | modules/billing/application/calculations.ts:47-74 | for every input of either sign the line is the one whose subtotal, percentage and tax are the nearest whole cents of the exact products, with the fixed discount cut by what is left and a base never negative |
| Calculations.TotalsLineByLine | modules/billing/application/calculations.ts:76-86 | subtotal, discount, base, tax and total of an invoice are each the sum of that amount over the lines |
| Calculations.PositiveLine | modules/billing/application/calculations.ts:47-74 | for a positive quantity the discount lies between zero and the subtotal, the fixed part being cut only by what is left, the base is the rest, and the tax at most the base |
| Calculations.NegativeLine | modules/billing/application/calculations.ts:56-63 | for a negative quantity base, tax and total are zero while subtotal and discount are not positive |
| Calculations.TotalsAddUp | modules/billing/application/calculations.ts:76-86 | the total of an invoice is its base plus its tax, none of them negative |
| Calculations.CalculateTaxSummaries | modules/billing/application/calculations.ts:88-119 | one summary for every rate that occurs, holding exactly the sum of its lines, ordered by code |
| Calculations.SummariesMatchTotals | modules/billing/application/calculations.ts:88-119 | the summaries add up to the totals of the invoice |
| Calculations.GroupsIgnoreOrder | modules/billing/application/calculations.ts:93-115 | the summaries do not depend on the order of the lines |
| Calculations.TaxDrift | modules/billing/application/calculations.ts:64-65 | the tax of n lines at one rate is within n half-cents of the exact tax on their summed base |
| BillingTheorems.CustomerLedgerAgrees | modules/billing/application/invoices.ts:1089-1124 | over all years the document entries leave on a customer's account code the sum of the totals of the ordinary invoices still issued |
| BillingTheorems.SubLedgerLaw | modules/billing/application/invoices.ts:1688-1727 | the same for every account code, sales and tax included |
| BillingTheorems.CancelledLeavesNothing | modules/billing/application/invoiceTechnicalVoiding.ts:182-211 | the entry of an invoice and that of its rectification, or its contra entry, cancel on every account code, also across years |
| BillingTheorems.RectifiedOrVoided | modules/billing/application/invoiceTechnicalVoiding.ts:118-126 | an invoice is rectified exactly when its one rectification exists, voided exactly when its contra entry exists, has an entry exactly when it left the draft, and no document has two entries |
| BillingTheorems.NumbersAreGapless | modules/billing/application/invoices.ts:2271-2328 | the numbers of a series in a year are exactly those below the next one, each used once, and dates never run against numbers, in serial runs |
| BillingTheorems.InvoicesBalance | modules/billing/application/invoices.ts:2201-2256 | products, services and tax always add up to the total, and a single due date always covers it |
| BillingOutcomes.InvoiceAmountsExact | modules/billing/application/invoices.ts:2201-2256 | after every run every line of an ordinary invoice is exact for a valid input at its rate and every total is the sum over the lines |
| BillingOutcomes.CreateDraftOutcome | modules/billing/application/invoices.ts:608-660 | an empty draft with one due date of zero is created exactly in an open year |
| BillingOutcomes.CreateSubscriptionOutcome | modules/billing/application/subscriptionRenewalDrafts.ts:114-207 | a renewal draft holds exact lines and sums, and is refused exactly for an input out of range or a date without an open year |
| BillingOutcomes.AddLineOutcome | modules/billing/application/invoices.ts:702-793 | a line is refused exactly for an input out of range or a draft that is not editable, aborts exactly when a sum turns negative, and otherwise enters with exact amounts, new totals and the single due date |
| BillingOutcomes.ReplaceDueDatesOutcome | modules/billing/application/invoices.ts:839-897 | due dates are replaced exactly in an editable draft by one to 24 positive amounts that add up to the total, none before the date of the draft |
| BillingOutcomes.CustomerAccountIs | modules/billing/application/invoices.ts:1043-1046 | the account of a customer has nine digits: 430, zeros, and the code |
| BillingTheorems.IssueOutcome | modules/billing/application/invoices.ts:1009-1124 | issuing never meets an unbalanced entry; past the other checks it aborts exactly for a total of zero and otherwise succeeds when the fiscal record can be prepared |
| BillingOutcomes.IssueVerdict | modules/billing/application/invoices.ts:921-1287 | an invoice is issued exactly when conditions on its rows hold, no invoice of series F out of the draft being dated later among them; out of order is answered only behind a later date; the number, the row and the one entry are written out |
| BillingExample.FreeInvoiceAborts | modules/billing/application/invoices.ts:1095-1124 | a run that ends in an invoice which passes every check and is refused by the journal |
| BillingTheorems.RectifyOutcome | modules/billing/application/invoices.ts:1457-1601 | rectifying never meets an unbalanced entry, an earlier rectification or a refusal by the journal |
| BillingOutcomes.RectifyVerdict | modules/billing/application/invoices.ts:1339-1885 | an invoice is rectified exactly when conditions on its rows hold, uncollected or collected in full among them; out of order is answered only behind a later date; the original, the rectification and the one entry are written out |
| BillingOutcomes.RectificationOpposes | modules/billing/application/invoices.ts:1610-1670 | after every run a rectification has the customer of its original, each line with the kind and rate of that line and every amount turned round, totals that are those of its own lines, and opposite bases of products and of services |
| BillingTheorems.VoidOutcome | modules/billing/application/invoiceTechnicalVoiding.ts:115-211 | voiding never finds a missing or unbalanced entry or a rectification, and posts whatever passes its checks |
| BillingOutcomes.VoidVerdict | modules/billing/application/invoiceTechnicalVoiding.ts:45-220 | an invoice is voided exactly when conditions on its rows hold; the contra entry is posted in the year of the original on the date given, and the payment and every due date are cancelled |
| BillingDocuments.ActsKeep | modules/billing/application/invoices.ts:921-1287 | the invariant of the office, ledger included, holds after every run |
| BillingEntries.IssueLinesFacts | modules/billing/application/invoices.ts:1048-1124 | the lines of an issue balance, stay in the year, and put on every account code what the invoice says |
| BillingEntries.RectifyLinesFacts | modules/billing/application/invoices.ts:1688-1727 | the lines of a rectification balance and put on every account code the opposite |
| BillingEntries.RecalculatedBalances | modules/billing/application/invoices.ts:1047-1077 | from recalculated totals the entry of an invoice always balances |
| BillingDesk.Desk.RecalculateInvoice | modules/billing/application/invoices.ts:2201-2256 | totals follow the lines and a single due date follows the total |
| BillingDesk.Desk.AddInvoiceLine | modules/billing/application/invoices.ts:702-793 | a valid line enters an editable draft, with rollback when the amounts are not supported |
| BillingDesk.Desk.ReplaceInvoiceDueDates | modules/billing/application/invoices.ts:839-897 | due dates are replaced only by ones that add up to the total and do not precede the issue |
| BillingDesk.Desk.HasChronologyViolation | modules/billing/application/invoices.ts:2271-2288 | comparing with the latest date of the series tells whether any later date stands in it |
| BillingDesk.Desk.ReserveInvoiceNumber | modules/billing/application/invoices.ts:2290-2328 | the number given out is the next one and the counter moves by one |
| BillingDesk.Desk.IssueInvoice | modules/billing/application/invoices.ts:921-1287 | step by step, with rollback, issuing has the specified effect and keeps the invariant |
| BillingDesk.Desk.CreateRectification | modules/billing/application/invoices.ts:1339-1885 | step by step, with rollback, rectifying has the specified effect and keeps the invariant |
| BillingDesk.Desk.FinalizeTechnicalVoiding | modules/billing/application/invoiceTechnicalVoiding.ts:45-220 | step by step, voiding has the specified effect and keeps the invariant |
| WaiverTheorems.ChainNetsToHead | modules/accounting/application/waiverEvidenceReplacements.ts:333-454 | for every review everything posted adds up, on every account, to the lines of its latest evidence, or to nothing when that is reversed |
| WaiverTheorems.EvidenceInLine | modules/accounting/application/waiverEvidenceReplacements.ts:446-451 | evidence is numbered 1 to n, each piece supersedes the one before it, and a superseded piece has been reversed |
| WaiverTheorems.EntryForEveryCompletion | modules/accounting/application/waiverEvidenceReversals.ts:168-200 | an entry stands under a request exactly when it is completed, never two, and holds the mirror of its target or the lines proposed; a completed replacement has its evidence |
| WaiverTheorems.ApprovalsAreIndependent | modules/accounting/application/waiverEvidenceReplacements.ts:412-417 | whoever approves neither asked nor opened nor closed the review |
| WaiverTheorems.ReversalOutcome | modules/accounting/application/waiverEvidenceReversals.ts:144-191 | a pending reversal is granted exactly when the approver is independent and the year open; its target is never already reversed |
| WaiverTheorems.ReplacementOutcome | modules/accounting/application/waiverEvidenceReplacements.ts:379-445 | a pending replacement is granted exactly when the proposal is the one seen, the approver independent, the year open and the accounts postable; it is never superseded |
| WaiverOutcomes.ReplacementsFollowReversals | modules/accounting/application/waiverEvidenceReplacements.ts:333-346 | after every run the reversal behind a replacement is a completed reversal of its source, not later and never one made for a duplicate, and entries bear the dates of their requests |
| WaiverOutcomes.RegularizationOutcome | modules/accounting/application/journal.ts:264-370 | a regularizing entry is accepted exactly with good lines on active accounts of the open year of its date, for an open review that has none |
| WaiverOutcomes.CompletionOutcome | modules/subscriptions/application/renewalWaiverFiscalReviews.ts:173-200 | a review is completed exactly by its assignee, once, over a regularizing entry that was not reversed |
| WaiverOutcomes.ReversalRequestOutcome | modules/accounting/application/waiverEvidenceReversals.ts:82-142 | a reversal is requested exactly by an outsider, for the latest evidence, in an open year that takes the date, not before the entry and with no other reversal pending or completed |
| WaiverOutcomes.ReversalApprovalOutcome | modules/accounting/application/waiverEvidenceReversals.ts:144-209 | a granted reversal posts the mirror of its target on the date requested, in the year of the target, and nothing else |
| WaiverOutcomes.ReversalFinishOutcome | modules/accounting/application/waiverEvidenceReversals.ts:223-266 | only others decline, only the requester withdraws, and only the row changes |
| WaiverOutcomes.ReplacementRequestOutcome | modules/accounting/application/waiverEvidenceReplacements.ts:296-377 | a replacement is requested exactly by an outsider, with two to 200 good lines, for the latest evidence whose completed reversal is no duplicate, in its open year, not before the reversal, and with no other replacement pending or completed |
| WaiverOutcomes.ReplacementApprovalOutcome | modules/accounting/application/waiverEvidenceReplacements.ts:379-467 | a granted replacement posts the lines proposed on the date requested and becomes the next evidence of the review |
| WaiverOutcomes.ReplacementFinishOutcome | modules/accounting/application/waiverEvidenceReplacements.ts:476-528 | only others decline, only the requester withdraws, and only the row changes |
| WaiverPostings.PlaysKeep | modules/accounting/application/waiverEvidenceReplacements.ts:296-467 | the invariant of the files, ledger included, holds after every run |
| WaiverPostings.CompleteReviewKeeps | modules/subscriptions/application/renewalWaiverFiscalReviews.ts:173-200 | closing a review with its entry as first evidence keeps the invariant |
| WaiverDesk.Desk.RequestReversal | modules/accounting/application/waiverEvidenceReversals.ts:82-142 | the request has the specified effect and keeps the invariant |
| WaiverDesk.Desk.ApproveReversal | modules/accounting/application/waiverEvidenceReversals.ts:144-209 | the approval has the specified effect and keeps the invariant |
| WaiverDesk.Desk.FinishReversal | modules/accounting/application/waiverEvidenceReversals.ts:223-266 | a rejection by somebody else or a withdrawal by the requester, and nothing posted |
| WaiverDesk.Desk.RequestReplacement | modules/accounting/application/waiverEvidenceReplacements.ts:296-377 | the request has the specified effect and keeps the invariant |
| WaiverDesk.Desk.ApproveReplacement | modules/accounting/application/waiverEvidenceReplacements.ts:379-467 | the approval has the specified effect and keeps the invariant |
| WaiverDesk.Desk.FinishReplacement | modules/accounting/application/waiverEvidenceReplacements.ts:476-528 | a rejection by somebody else or a withdrawal by the requester, and nothing posted |
| WaiverDesk.TenFromTheFirst | modules/accounting/application/waiverEvidenceReplacements.ts:570-583 | of the attempts within fifteen minutes of the first exactly ten are let through |
| Csv.ReadBack | modules/accounting/application/journal.ts:574-574 | reading the exported text as RFC 4180 section 2 describes gives back exactly the rows written, whatever the fields hold |
| Csv.FieldBack | modules/accounting/application/journal.ts:643-649 | an escaped field reads back as itself and ends where it should |
| Csv.WrittenAsIs | modules/accounting/application/journal.ts:643-649 | a field is written as it stands exactly when it holds no semicolon, quote or line break |
| Csv.FormatIsInjective | modules/accounting/application/journal.ts:639-641 | two different tables are never written alike |
| QrImage.CreateQrImage | modules/billing/application/invoicePdf.ts:608-626 | a pixel is black exactly when it lies on a dark module four in from the border, through all updates in place |
| QrImage.BorderIsWhite | modules/billing/application/invoicePdf.ts:610-613 | the quiet zone and the padding bits of every row are white |
| QrImage.ModulesCanBeRead | modules/billing/application/invoicePdf.ts:615-623 | the bitmap determines the module matrix |
| QrImage.OnePixel | modules/billing/application/invoicePdf.ts:618-621 | clearing the bit of one pixel changes that pixel and no other |
| QrImage.PixelIsBit | modules/billing/application/invoicePdf.ts:618-621 | a pixel is the bit of its byte that counts from the most significant one |
| PdfFile.TableIsSound | modules/billing/application/invoicePdf.ts:863-905 | header, table and trailer are in place; the table stands where startxref says; every line has twenty bytes and gives the place of the whole object it stands for (ISO 32000-1 sections 7.5.4 and 7.5.5) |
| PdfFile.LineHasTwentyBytes | modules/billing/application/invoicePdf.ts:896-898 | a line has twenty bytes exactly when its offset has at most ten digits, and the offset reads back |
| PdfFile.ContentLengthIsRight | modules/billing/application/invoicePdf.ts:839-842 | the stated length of a page's stream is the number of bytes written exactly for ASCII content (section 7.3.8) |
| PdfText.LengthsAgreeOnAscii | modules/billing/application/invoicePdf.ts:841-841 | counting in UTF-8 and writing one byte a unit agree exactly on ASCII |
| PdfText.LiteralIsAscii | modules/billing/application/invoicePdf.ts:928-941 | whatever the text its literal is ASCII |
| PdfText.LiteralBack | modules/billing/application/invoicePdf.ts:939-941 | the escaped text reads back as itself and ends at its own closing parenthesis |
| PdfText.PrintableStays | modules/billing/application/invoicePdf.ts:932-937 | printable ASCII text, and no other, comes out of normalisation as it went in |
| PdfText.NormalizedOneByOne | modules/billing/application/invoicePdf.ts:932-937 | combining marks go, printable ASCII stays, every UTF-16 unit of anything else becomes a question mark |
| PdfText.EscapedOneByOne | modules/billing/application/invoicePdf.ts:939-941 | a backslash is put before backslashes and parentheses and before nothing else |
| PdfDocuments.PdfDocument.ToBytes | modules/billing/application/invoicePdf.ts:857-906 | every number below the size has an object, and the file written is the one whose table is right |
| PdfDocuments.PdfDocument.AddPage | modules/billing/application/invoicePdf.ts:835-855 | a page takes the next two numbers, content first, and disturbs nothing added before |
| PdfDocuments.PdfDocument.AddImage | modules/billing/application/invoicePdf.ts:791-833 | an image takes the next number, states the length of its data, and disturbs nothing added before |
| PdfDocuments.ImageLengthIsRight | modules/billing/application/invoicePdf.ts:791-833 | an image object states the number of bytes that stand between its keywords |
| PdfDocuments.PagesAreListed | modules/billing/application/invoicePdf.ts:858-861 | the page list refers to every page, holds no further reference and says how many there are |
| PdfDocuments.PageRefers | modules/billing/application/invoicePdf.ts:843-853 | a page names its parent, both fonts, every image and, last, its content |
| PdfDocuments.PageLengthIsRight | modules/billing/application/invoicePdf.ts:688-764 | whatever the texts put on a page its stream states the right length |

## Left out

- Isolation, advisory locks and serializable retries: every transaction is one step. The chronology check of invoices runs before any lock, so `BillingTheorems.NumbersAreGapless` speaks of serial runs only.
- Magnitudes: numbers are unbounded and products exact; the decimal library keeps twenty significant digits and the columns twelve.
- Texts: concepts of entries other than account names, printed numbers, messages, audit events, the mapping to response objects, cursors and hashes.
- Idempotency of the invoice and waiver operations: the same look-up as in the cycle, where it is proved.
- Payments, credits, purchases, suppliers and support: they appear as a writer that posts sound entries in open years (`CmdPost`), as changes to the collection state of an issued invoice, and as the renaming of accounts.
- Fiscal records sent to the tax agency: changes of a status, and flags saying that the evidence is in order and that the record could be prepared; the distinct refusals behind each flag are one refusal here.
- The stored tax summaries of an invoice: they are a function of its lines, computed by `CalculateTaxSummaries`.
- The customer credit that a paid rectification creates, calculation of the default due date, reasons and notes of requests.
- Calculations.CalculateTaxSummaries: orders codes by character, not by the Spanish collation.
- Start and decision of a waiver review: reviews enter the model when they wait for accounting.
- PdfDocuments.PdfDocument.ToBytes: lays objects out by number, the sorted order of the keys of the table, which the invariant shows to be all the numbers given out; layout, fonts, colours and JPEG headers are not modelled.
- Canonical decomposition of Unicode before `NormalizePdfText`: the function starts from the decomposed text.
- Drawing of the QR matrix from its text, and the rows that the CSV export selects.
