# Verified model of the ERP's money core

The project models the part of the ERP that moves money and the two smaller stateful cores beside it, and
proves what holds after every run and in every interleaving of their operations.

`dafny verify dfyconfig.toml` checks everything, with the default limits.

## How the project is laid out

| file | what it holds |
|---|---|
| `Folds.dfy` | sums, filters and group-bys over table rows |
| `Decimal.dfy` | the exact decimal parser, printer and currency conversion, on text |
| `Tables.dfy` | rows of the accounting tables, status tables, transactions, the mutable `Store` |
| `ExchangeRates.dfy`, `Posting.dfy`, `Documents.dfy`, `Payments.dfy` | the accounting services: a specification function per call, a class whose methods are proved against it, and the facts about the functions |
| `Erp.dfy` | all accounting calls as one machine: invariant, conservation, append-only journal, closed months |
| `Sources.dfy` | conservation document by document and payment by payment, and the mirror entries of reversed documents |
| `RateHistory.dfy`, `Periods.dfy` | the rate table and the financial periods over runs of that machine |
| `Effects.dfy` | posting, reversing and paying, said on the fields of rows: when they are accepted, the date, every field of every line, and what reports and budgets see |
| `Approvals.dfy` | who decides what about documents and requests, and the approval behind every posting and payment |
| `Accounts.dfy` | the chart of accounts over runs of that machine |
| `Reports.dfy`, `Budgets.dfy` | the reports, each written as its own query, and the proofs that they agree |
| `Runs.dfy` | runs of a step function, and what it means that interleavings are serializable |
| `PaymentProtocol.dfy`, `DocumentProtocol.dfy` | the same payments and documents, entry lines included, broken into database steps, with any number of clients and aborts |
| `CounterAccount.dfy` | which account an interleaved payment of an expense request is booked against |
| `InterleavedApprovals.dfy` | the approval behind every posting and payment, in every interleaving |
| `Layers.dfy` | the sequential calls are the atomic calls the interleaved runs serialize into |
| `BalanceTrigger.dfy` | the deferred balance trigger against a check of the whole table |
| `Auth.dfy`, `Sessions.dfy`, `Lockout.dfy`, `Verification.dfy` | users, refresh-token families, the login lock, verification codes |
| `Access.dfy` | when exactly each call of these is accepted, the life of a user, passwords and reset tokens |
| `JobQueue.dfy` | the two-slot report queue |

## How to read the model

- A database is a value; a service call is one transaction that commits a new value or rolls back. The service
  classes change the one field of a `Store` (or `AuthStore`) step by step, as the code does, and each method's
  contract equates the new state and the reply with a specification function. Everything else is proved about
  those functions; `Effects`, `Approvals`, `Access` and `Periods` pin them down on the fields of the rows, with every
  status, account, date and dimension written out and none of the functions' own helpers.
- A row's id is its position where rows are never deleted. Tokens are keyed by their hash. Tokens, codes,
  passwords and hashes are opaque values: equal hash means equal secret.
- Amounts are integer minor units and rates are integer millionths. `Decimal` proves that the text the code
  computes with stands for exactly these integers.
- A ledger line's account, currency, counterparty, contract, cost center and project form its key. A statement
  "for every selection of keys" (a predicate `p`) holds per account, per counterparty, per project and so on.
- The clock is a parameter of each call. Lemmas about elapsed time assume only that it does not go back.
- In the protocol modules an `Action` carries every nondeterministic choice: which client moves, the fresh ids,
  which row a lookup returns, when a transaction aborts. An insert waits on an uncommitted equal key, fails on a
  committed one and proceeds otherwise. A row lock is held to the end of the transaction and taking it re-reads
  the latest committed row.

## Results that are not what one might expect

- A payment's counter account is read before the request is locked, although the comment in `execute` says that
  the insert comes before any other work. `SafeExactlyWhen` gives the exact condition, to be checked at the read,
  under which every later commit of the payment books the account its request names by then: the request is APPROVED,
  CANCELLED, ACCOUNTED or gone, or the payment cannot be committed any more because its key is used or its amount is
  not positive. Otherwise the request is still DRAFT, SUBMITTED or REJECTED, and for every other account
  `OpenGoesStale` continues the run so that the request ends up naming that account and its payment is booked
  against the one read before. `AccountWasTheRequests` bounds the damage: the request did name the booked account once.
- The balance trigger looks only at the entry a line now belongs to. `TriggerIsWholeTableCheck` gives the exact
  condition under which it is as strong as a check of the whole table; `MovedLineEscapes` and
  `RevivedEntryEscapes` are two transactions it lets through.
- `validateLines` balances raw amounts whatever their currency. Base-currency balance is exact for documents and
  payments (`PostingsBaseBalanced`, `PaymentPostingsMeaning`). At one rate the base gap lies strictly between minus
  the number of debit lines and the number of credit lines (`UniformRateBound`).
- A reversal's mirror entry names the original's source and stays POSTED, and reports ignore the status of entries:
  the two cancel by arithmetic. No field links the mirror to the entry it reverses, yet every REVERSED document has exactly one other entry and
  that entry is the line-by-line swap of its posting (`Sources.ReversalIsExactMirror`, and for every interleaving
  `DocumentProtocol.ReversalCancelsOriginal`).
- The amount and direction of a payment are never compared with its expense request; nothing here claims they match.

## Model

| member | source | states |
|---|---|---|
| Decimal.ParseTruncates | src/common/utils/decimal.util.ts:14-36 | every string that trims to a well-formed numeral is accepted, at the value truncated toward zero to the asked number of digits |
| Decimal.ParseAcceptsOnlyNumerals | src/common/utils/decimal.util.ts:14-32 | nothing else is accepted |
| Decimal.WhiteSpace | src/common/utils/decimal.util.ts:15-15 | which characters count as white space |
| Decimal.SpaceIsIgnored | src/common/utils/decimal.util.ts:14-15 | any white space around a numeral is ignored |
| Decimal.PrintIsCanonical | src/common/utils/decimal.util.ts:38-45 | every printed amount is canonical: two digits, no leading zeros, no negative zero, and of the printed value |
| Decimal.RoundTrip | src/common/utils/decimal.util.ts:34-45 | parsing a printed amount returns every integer |
| Decimal.CanonicalUnique | src/common/utils/decimal.util.ts:38-45 | an amount has only one canonical text |
| Decimal.ReprintCanonical | src/common/utils/decimal.util.ts:14-45 | printing a parsed string gives a canonical text if and only if that text is the string's two-digit truncation |
| Decimal.ArithmeticExact | src/common/utils/decimal.util.ts:51-67 | add, subtract and compare commute with integer arithmetic on every accepted operand |
| Decimal.SumExact | src/common/utils/decimal.util.ts:47-49 | a sum fails exactly when one of the texts is no amount, and otherwise is the integer sum, however many there are |
| Decimal.ConvertText | src/common/utils/decimal.util.ts:73-79 | the text conversion fails exactly on an unparsable amount, or rate beside a nonzero amount, and otherwise prints the integer conversion |
| Decimal.ConvertError | src/common/utils/decimal.util.ts:69-79 | conversion is odd, never overshoots and misses the exact product by less than one minor unit |
| ExchangeRates.ExchangeRatesService.Set | src/modules/accounting/exchange-rates.service.ts:20-40 | the new table and reply of the upsert, including the refused base currency |
| ExchangeRates.LatestIsBest | src/modules/accounting/exchange-rates.service.ts:42-54 | the row found is of the currency and not after the date, and no such row is later |
| ExchangeRates.HistoryMirrors | src/modules/accounting/exchange-rates.service.ts:20-40 | after any writes the rows are exactly the last write of each (currency, date) |
| ExchangeRates.RateIsLastWrite | src/modules/accounting/exchange-rates.service.ts:42-54 | a lookup is the last value written for the greatest rate date not after the date, and fails exactly when there is none |
| ExchangeRates.DecisiveUnique | src/modules/accounting/exchange-rates.service.ts:42-54 | at most one write decides a lookup |
| ExchangeRates.LaterWritesDoNotMatter | src/modules/accounting/exchange-rates.service.ts:20-54 | writing a rate for a later date changes no earlier lookup |
| ExchangeRates.SpellingsOfOneCurrency | src/modules/accounting/exchange-rates.service.ts:20-54 | two spellings name one currency if and only if they differ in case only |
| ExchangeRates.BaseCurrencyRate | src/modules/accounting/exchange-rates.service.ts:20-46 | the base currency is never written, always has the rate 1.000000, and converts every amount to itself |
| Posting.FindPeriod | src/modules/accounting/periods.service.ts:42-51 | a period of the asked month, or none when no row is of that month |
| Posting.PeriodsService.Create | src/modules/accounting/periods.service.ts:19-29 | a period is created open, once per month |
| Posting.PeriodsService.Transition | src/modules/accounting/periods.service.ts:62-97 | the move along the period status table, and both errors |
| Posting.PeriodsService.ReopenClosedPeriod | src/modules/accounting/periods.service.ts:106-133 | only a CLOSED period reopens |
| Posting.PostingService.ValidateLines | src/modules/accounting/posting.service.ts:160-186 | the loop accepts exactly two or more one-sided lines whose debits and credits agree |
| Posting.PostingService.Post | src/modules/accounting/posting.service.ts:32-101 | the new entry and lines, or the first error in the code's order with the database unchanged |
| Posting.PostingService.Reverse | src/modules/accounting/posting.service.ts:103-158 | the mirror entry and the flipped status, or the error with the database unchanged |
| Posting.PostAppends | src/modules/accounting/posting.service.ts:60-101 | posting appends one entry and its lines, in an open month, and no other entry gains or loses a line |
| Posting.PostKeepsInv | src/modules/accounting/posting.service.ts:32-101 | posting keeps every entry balanced in both amounts, in its month, on existing accounts |
| Posting.MirrorCancels | src/modules/accounting/posting.service.ts:110-141 | entry plus mirror is zero for every selection of keys, in raw and base amounts; stored base amounts are swapped exactly |
| Posting.MirrorOfGood | src/modules/accounting/posting.service.ts:110-141 | the mirror of a balanced, faithfully stored entry is itself one, is its line-by-line swap, and cancels it for every selection of keys |
| Posting.MirrorValid | src/modules/accounting/posting.service.ts:110-141 | the mirror of a balanced entry always passes `validateLines` |
| Posting.ReversalNeverUnbalanced | src/modules/accounting/posting.service.ts:103-141 | reversing a POSTED entry fails if and only if the month is not open or an account is unusable |
| Posting.ConversionLoss | src/modules/accounting/posting.service.ts:188-190 | truncation loses less than one minor unit per converted amount |
| Posting.UniformRateBound | src/modules/accounting/posting.service.ts:60-101 | with one rate, base debit minus base credit is above minus the number of debit lines and below the number of credit lines |
| Documents.DocumentsService.Create | src/modules/documents/documents.service.ts:43-77 | the draft with its lines and total, or the refused non-positive total |
| Documents.DocumentsService.ReplaceLines | src/modules/documents/documents.service.ts:366-387 | the loop replaces the lines of one document, in order, and nothing else |
| Documents.DocumentsService.Update | src/modules/documents/documents.service.ts:101-134 | owner and status checks, the patched fields, the new total, REJECTED back to DRAFT |
| Documents.DocumentsService.Transition | src/modules/documents/documents.service.ts:136-206 | submit, approve, reject and cancel through the shared transition, with rollback when its side effect throws; each decision is spelled out in `Approvals.DocumentDecisions` |
| Documents.DocumentsService.Post | src/modules/documents/documents.service.ts:208-276 | the posted document and its entry, or the error with nothing changed; spelled out in `Effects.PostExactlyWhen` and `Effects.PostWrites` |
| Documents.DocumentsService.Reverse | src/modules/documents/documents.service.ts:278-332 | the reversed document, the mirror entry and the correction document, or the error with nothing changed; spelled out in `Effects.ReverseExactlyWhen`, `ReverseLines` and `ReverseWrites` |
| Documents.PostingsMeaning | src/modules/documents/documents.service.ts:221-247 | the postings net, for every selection of keys, to what the document's lines say, and debit the sum of the amounts |
| Documents.NetOnAccount | src/modules/documents/documents.service.ts:221-247 | on one account that is the amounts it is debited with minus those it is credited with |
| Documents.PostingsBaseBalanced | src/modules/documents/documents.service.ts:221-247 | the entry of a document balances in base currency too |
| Payments.FindKey | src/modules/payments/payments.service.ts:39-42 | the payment that carries the key, or none when no payment does |
| Payments.ExpenseRequestsService.Update | src/modules/expense-requests/expense-requests.service.ts:93-116 | owner and status checks, the patched fields, REJECTED back to DRAFT |
| Payments.ExpenseRequestsService.Transition | src/modules/expense-requests/expense-requests.service.ts:118-250 | the decision along the status table, with its errors |
| Payments.ExpenseRequestsService.Paid | src/modules/expense-requests/expense-requests.service.ts:171-184 | only an APPROVED request becomes PAID by a payment |
| Payments.ExpenseRequestsService.Accounted | src/modules/expense-requests/expense-requests.service.ts:186-197 | the request becomes ACCOUNTED by an entry |
| Payments.PaymentsService.ExecutePayment | src/modules/payments/payments.service.ts:38-164 | a used key answers the stored payment; otherwise the whole transaction or nothing; spelled out in `Effects.PayExactlyWhen`, `PayWrites` and `PayRecords` |
| Payments.PaymentsService.RunTransaction | src/modules/payments/payments.service.ts:49-152 | the transaction's tables and reply, field by field as the code assigns them |
| Payments.PaymentPostingsMeaning | src/modules/payments/payments.service.ts:89-119 | the two postings net to the payment's effect for every selection of keys and balance in base currency |
| Erp.StepKeeps | src/modules/accounting/posting.service.ts:32-158 | every call keeps the invariant and conservation |
| Erp.RunKeeps | src/modules/documents/documents.service.ts:208-332 | in every reachable state, for every selection of keys, debits minus credits equal the POSTED documents that have an entry plus the EXECUTED payments; reversed and correction documents count zero |
| Erp.DocumentMovesMoney | src/modules/documents/documents.service.ts:208-276 | posting a document moves on every account exactly what its lines say |
| Erp.ReversalTakesBack | src/modules/documents/documents.service.ts:278-332 | reversing it takes exactly that back |
| Erp.PaymentMovesMoney | src/modules/payments/payments.service.ts:48-134 | a new payment moves exactly the ordered amount between cash and the request's account, or the named one, in the ordered direction |
| Erp.StepAppendOnly | src/modules/accounting/posting.service.ts:32-158 | a call only appends entries, dated in months that are open, and never touches a stored line or payment |
| Erp.RunAppendOnly | src/modules/accounting/posting.service.ts:32-158 | so does every run |
| Erp.ClosedMonthIsStable | src/modules/accounting/periods.service.ts:42-133 | while a month is not open no run changes the lines dated in it, not even reversals of its own entries |
| Erp.RatesNeverRewriteLines | src/modules/accounting/exchange-rates.service.ts:20-40 | writing a rate changes no line already posted, then or later |
| Erp.PostedDocumentDebitsItsTotal | src/modules/documents/documents.service.ts:208-276 | in every reachable state a document's entry debits and credits exactly its `amountTotal` |
| Erp.DocumentEntries | src/modules/documents/documents.service.ts:208-332 | a document has exactly one entry while POSTED (unless it is a correction), two once REVERSED, none otherwise |
| Erp.EntryNetsDocument | src/modules/documents/documents.service.ts:221-262 | a document's entry nets, for every selection of keys, to what its lines say |
| Erp.RetryReturnsSamePayment | src/modules/payments/payments.service.ts:38-42 | a used key is answered with the same payment after any run of calls |
| Sources.EachSourceConserved | src/modules/documents/documents.service.ts:208-332 | in every reachable state, for every selection of keys, the lines of each document's entries net to what it says while POSTED with an entry and to zero otherwise, and those of each payment to what the payment says |
| Sources.ReversedPairNetsToZero | src/modules/documents/documents.service.ts:278-332 | in every reachable state the two entries of a REVERSED document net to zero for every selection of keys |
| Sources.ReversedStays | src/modules/documents/documents.service.ts:278-364 | no call changes a REVERSED document or the status of its entries |
| Sources.ReversalIsExactMirror | src/modules/accounting/posting.service.ts:103-158 | in every reachable state a REVERSED document has a mirror entry that passes validation, swaps the stored base amounts exactly and cancels the posting in both amounts |
| Effects.PostExactlyWhen | src/modules/documents/documents.service.ts:208-262 | a document is posted if and only if it is APPROVED, has lines, all of positive amount and on active accounts, its currency has a rate by its date, and its month is open |
| Effects.PostRefusal | src/modules/documents/documents.service.ts:208-262 | which error a refused posting gives, in the code's order, down to the first account that cannot be used |
| Effects.PostWrites | src/modules/documents/documents.service.ts:221-268 | the entry is dated on the document's date, in that month's open period; lines 2i and 2i+1 debit and credit the i-th document line with the document's currency, counterparty and contract and the line's cost center and project; nothing else changes but status and entry |
| Effects.PostAddsToActual | src/modules/budgets/budgets.service.ts:144-179 | posting adds to every budget actual, per cost center, department and project, exactly what the document lines of those dimensions move, in the document's month only |
| Effects.PostMovesCounterparty | src/modules/analytics/analytics.service.ts:116-159 | posting moves the balance of the document's own counterparty, from its date on, and of no other |
| Effects.ReverseExactlyWhen | src/modules/documents/documents.service.ts:278-295 | a document is reversed if and only if it is POSTED with an entry, the month of today is open, and its accounts are active |
| Effects.ReverseRefusal | src/modules/documents/documents.service.ts:278-295 | which error a refused reversal gives, in the code's order |
| Effects.ReverseLines | src/modules/accounting/posting.service.ts:110-141 | lines 2i and 2i+1 of the mirror entry take the i-th document line back, at the posted rate and with the same dimensions |
| Effects.ReverseWrites | src/modules/documents/documents.service.ts:293-317 | the mirror entry is dated today, in today's open period, whatever the document's date; the two statuses and every field of the correction row |
| Effects.ReverseTakesFromActual | src/modules/budgets/budgets.service.ts:144-179 | reversing takes from every budget actual exactly what posting added, in the month of today |
| Effects.ReverseMovesCounterpartyBack | src/modules/analytics/analytics.service.ts:116-159 | and moves the counterparty's balance back, from today on |
| Effects.PayExactlyWhen | src/modules/payments/payments.service.ts:44-131 | an order with a new key is executed if and only if its amount is positive, both accounts are active, its currency has a rate, its month is open, and its request, if any, is APPROVED |
| Effects.PayAgain | src/modules/payments/payments.service.ts:39-42 | a used key answers its payment and changes nothing |
| Effects.PayRefusal | src/modules/payments/payments.service.ts:44-131 | which error a refused order gives, in the code's order |
| Effects.PayWrites | src/modules/payments/payments.service.ts:84-121 | the entry is dated on the order's date; one line debits and one credits the amount on the two accounts, by direction, and both carry the order's own currency, counterparty and contract, no cost center and no project |
| Effects.PayRecords | src/modules/payments/payments.service.ts:64-131 | the payment row says what the order says, with the rate used, and the settled request points at it |
| Effects.PayMovesCounterparty | src/modules/analytics/analytics.service.ts:116-159 | a payment moves the balance of the order's own counterparty by the amount, from its date on, and of no other |
| Effects.PayAddsToActual | src/modules/budgets/budgets.service.ts:144-179 | payments show only in budget lines that plan for no dimension |
| Approvals.DocumentDecisions | src/modules/documents/documents.service.ts:136-194 | submit, approve, reject and cancel: from which statuses, by whom, the status each leaves and the error of each refusal, with the statuses written out |
| Approvals.DocumentEdit | src/modules/documents/documents.service.ts:101-134 | only the creator edits, only a DRAFT or REJECTED document; it becomes a DRAFT with the named fields replaced and the rest kept |
| Approvals.DocumentCreation | src/modules/documents/documents.service.ts:43-77 | the fields of a new draft, refused unless its total is positive |
| Approvals.RequestDecisions | src/modules/expense-requests/expense-requests.service.ts:118-250 | the same for expense requests; only the requester submits and cancels |
| Approvals.RequestEdit | src/modules/expense-requests/expense-requests.service.ts:93-116 | only the requester edits, only a DRAFT or REJECTED request |
| Approvals.RequestCreation | src/modules/expense-requests/expense-requests.service.ts:37-68 | the fields of a new request |
| Approvals.MissingRows | src/modules/documents/documents.service.ts:101-353 | a call on a document or request that does not exist is refused as such |
| Approvals.StatusTellsHistory | src/modules/documents/enums/document-status.enum.ts:17-27 | in every reachable state the accepted calls on a document end as its status says |
| Approvals.PostedWasApproved | src/modules/documents/documents.service.ts:136-276 | a document with an entry was submitted by its creator, then approved, then posted, with no edit and no other decision in between, and still says what was submitted |
| Approvals.RequestStatusTellsHistory | src/modules/expense-requests/enums/expense-request-status.enum.ts:11-27 | in every reachable state the accepted calls on a request end as its status says |
| Approvals.PaidWasApproved | src/modules/expense-requests/expense-requests.service.ts:118-197 | a request with a payment was submitted by its requester, then approved, then paid once, with no edit and no other decision in between |
| Periods.PeriodMoves | src/modules/accounting/periods.service.ts:62-133 | which moves each period status allows, written out, and the reopening of CLOSED |
| Periods.PeriodCreation | src/modules/accounting/periods.service.ts:19-29 | a month gets one period, and it starts OPEN |
| Periods.MissingPeriod | src/modules/accounting/periods.service.ts:62-133 | a move of a period that does not exist is refused as such |
| Periods.ClosedMonthIsFinal | src/modules/accounting/periods.service.ts:42-133 | from its closing until an accepted reopening no run of calls changes a line dated in the month |
| RateHistory.RatesAreTheWrites | src/modules/accounting/exchange-rates.service.ts:20-40 | after any run of calls the rate table is what its rate writes alone would have left |
| RateHistory.LookupIsLastWrite | src/modules/accounting/exchange-rates.service.ts:42-54 | so in every reachable state a lookup is the last value written for the greatest rate date not after the date, or fails when there is none |
| Accounts.RunKeepsAccounts | src/modules/accounting/accounts.service.ts:11-58 | over every run codes stay unique, no account changes its kind, and none is active again once deactivated |
| Accounts.StepLinesActive | src/modules/accounting/accounts.service.ts:46-52 | every new ledger line is on an account that was active |
| Accounts.DeactivatedAccountIsFrozen | src/modules/accounting/accounts.service.ts:46-58 | a deactivated account's lines never change in any run, not even by reversals of its own entries |
| Accounts.AccountCreation | src/modules/accounting/accounts.service.ts:11-28 | a new account is active and what it was asked to be, unless its code is taken |
| Accounts.AccountDeactivation | src/modules/accounting/accounts.service.ts:46-58 | a deactivated account is not active, and nothing else changes |
| Reports.EntriesNetToZero | src/modules/analytics/analytics.service.ts:22-114 | any set of whole entries nets to zero |
| Reports.TurnoversAgree | src/modules/analytics/analytics.service.ts:77-114 | debit and credit turnover of a trial balance agree over any range |
| Reports.ProfitMatchesTrialBalance | src/modules/analytics/analytics.service.ts:22-114 | net profit is assets minus liabilities minus equity of the trial balance of the range; income and expense are its totals |
| Reports.CashFlowMatchesTrialBalance | src/modules/analytics/analytics.service.ts:54-114 | inflow, outflow and net cash flow are the debit, credit and net turnover of the cash accounts |
| Reports.AdjacentRangesAdd | src/modules/analytics/analytics.service.ts:77-114 | turnovers and balances of two ranges add up when the second starts on the calendar day after the first ends, month ends and leap years included |
| Reports.CounterpartiesAddUp | src/modules/analytics/analytics.service.ts:116-159 | an account's balance is the sum over its counterparties plus the lines that name none |
| Reports.SortPermutes | src/modules/accounting/journal.service.ts:56-79 | the movements come ordered by date and none is lost or added |
| Reports.MovementsMatchTrialBalance | src/modules/accounting/journal.service.ts:56-79 | an account's movements over a range add up to its turnovers in the trial balance |
| Reports.OpenEndedMovements | src/modules/accounting/journal.service.ts:75-76 | a missing bound means no bound |
| Reports.MovementsAreTheLines | src/modules/accounting/journal.service.ts:56-79 | the movements are exactly the account's lines in the range, each with its entry, date and amounts |
| Reports.ClosedMonthTurnover | src/modules/accounting/periods.service.ts:42-133 | while a month is not open every account's turnover from its first to its last calendar day stays as it was |
| Budgets.BudgetsService.Create | src/modules/budgets/budgets.service.ts:28-55 | the draft budget, or the missing period or account |
| Budgets.BudgetsService.ReplaceLines | src/modules/budgets/budgets.service.ts:206-228 | the loop replaces the lines of one budget if every account exists |
| Budgets.BudgetsService.Update | src/modules/budgets/budgets.service.ts:68-91 | only drafts are edited; a missing account or period rolls everything back |
| Budgets.BudgetsService.Transition | src/modules/budgets/budgets.service.ts:93-112 | the move along the budget status table |
| Budgets.BudgetsService.GetExecution | src/modules/budgets/budgets.service.ts:114-142 | one row per line: planned, actual and their difference |
| Budgets.BudgetMoves | src/modules/budgets/budgets.service.ts:93-112 | DRAFT is approved, APPROVED is closed, and there is no other move |
| Budgets.BudgetEdit | src/modules/budgets/budgets.service.ts:68-91 | a budget is edited if and only if it is a DRAFT and its new period and accounts exist |
| Budgets.BudgetCreation | src/modules/budgets/budgets.service.ts:28-55 | a new budget is a DRAFT, refused unless its period and accounts exist |
| Budgets.MissingBudget | src/modules/budgets/budgets.service.ts:57-112 | a call on a budget that does not exist is refused as such |
| Budgets.ApprovedPlanIsFrozen | src/modules/budgets/budgets.service.ts:68-112 | an approved budget's period and lines never change again |
| Budgets.ActualMatchesTrialBalance | src/modules/budgets/budgets.service.ts:144-179 | without dimensions, the actual through `periodId` is the trial balance from the first to the last calendar day of the month |
| Budgets.DepartmentRollsUp | src/modules/budgets/budgets.service.ts:144-179 | a department's actual is the sum of the actuals of its cost centers |
| Budgets.ProjectsRollUp | src/modules/budgets/budgets.service.ts:144-179 | a line without a project has the actuals of all projects plus what names none |
| PaymentProtocol.RunKeeps | src/modules/payments/payments.service.ts:38-164 | every step of every interleaving keeps the protocol's invariant |
| PaymentProtocol.AtMostOncePerKey | src/modules/payments/payments.service.ts:38-164 | a key has at most one committed payment, EXECUTED, named by exactly its one entry; no payment entry without its payment |
| PaymentProtocol.SameAnswerForEveryone | src/modules/payments/payments.service.ts:38-164 | all successful answers for a key are the same committed payment |
| PaymentProtocol.WinnerAlwaysFound | src/modules/payments/payments.service.ts:153-163 | after a unique violation the lookup finds the winner; the error is never rethrown |
| PaymentProtocol.UsedKeyIsAnswered | src/modules/payments/payments.service.ts:39-42 | in every interleaving a caller whose key is used is answered with its payment, at the first lookup as after a lost race |
| PaymentProtocol.RequestSettledOnce | src/modules/expense-requests/expense-requests.service.ts:171-197 | a request is ACCOUNTED exactly when one committed payment names it, points back at it and its entry; PAID is never visible; a CANCELLED request has no payment |
| PaymentProtocol.EntrySaysThePayment | src/modules/payments/payments.service.ts:89-134 | in every interleaving each payment entry is balanced in raw and base amounts and nets, for every selection of keys, to what its payment says |
| PaymentProtocol.PaymentsArePermanent | src/modules/payments/payments.service.ts:38-164 | a committed payment never changes |
| PaymentProtocol.StepRefinesAtomic | src/modules/payments/payments.service.ts:48-152 | each step changes the committed tables as one allowed atomic call, or not at all |
| PaymentProtocol.Serializable | src/modules/payments/payments.service.ts:38-164 | every interleaving commits what its calls commit one after another in commit order |
| CounterAccount.SafeExactlyWhen | src/modules/payments/payments.service.ts:52-152 | the account read for a request is the one it names at every later commit, in every continuation, if and only if the request is absent or no longer open at the read, or the key is used, or the amount is not positive |
| CounterAccount.OpenGoesStale | src/modules/payments/payments.service.ts:52-84 | otherwise, for every account, some continuation moves the request there and books its payment against the account read before |
| CounterAccount.ClosedIsSafe | src/modules/expense-requests/expense-requests.service.ts:93-116 | a request that is not open at the read is always paid against its own account |
| CounterAccount.AccountWasTheRequests | src/modules/payments/payments.service.ts:52-84 | in every interleaving a payment is booked against an account its request named at some earlier moment |
| DocumentProtocol.RunKeeps | src/modules/documents/documents.service.ts:208-364 | every step of every interleaving keeps the protocol's invariant |
| DocumentProtocol.AtMostOnePostingAndReversal | src/modules/documents/documents.service.ts:208-364 | in every interleaving a document has at most one posting and one reversal entry, and has each exactly in the states that call for it |
| DocumentProtocol.EveryEntryBalanced | src/modules/documents/documents.service.ts:208-332 | in every interleaving each entry has two or more lines and balances in raw and base amounts |
| DocumentProtocol.OriginalSaysTheDocument | src/modules/documents/documents.service.ts:221-262 | in every interleaving a document's own entry nets, for every selection of keys, to what its lines say, and debits its `amountTotal` |
| DocumentProtocol.ReversalNeverInvalid | src/modules/documents/documents.service.ts:278-295 | in every interleaving the mirror lines of a locked reversal pass `validateLines` |
| DocumentProtocol.ReversalCancelsOriginal | src/modules/documents/documents.service.ts:278-332 | in every interleaving a REVERSED document has exactly its posting and its mirror entry; the mirror is the exact swap and cancels it for every selection of keys, in raw and base amounts |
| DocumentProtocol.StepRefinesAtomic | src/modules/documents/documents.service.ts:208-364 | each step changes the committed tables as one allowed atomic call, or not at all |
| DocumentProtocol.Serializable | src/modules/documents/documents.service.ts:208-364 | every interleaving commits what its operations commit one after another |
| InterleavedApprovals.DocumentChecks | src/modules/documents/documents.service.ts:101-364 | what each operation checks the freshly locked document for, with the statuses written out |
| InterleavedApprovals.RequestChecks | src/modules/expense-requests/expense-requests.service.ts:93-250 | the same for a request |
| InterleavedApprovals.StepsTellStatus | src/modules/documents/documents.service.ts:101-364 | in every interleaving the committed steps on a document end as its status says |
| InterleavedApprovals.PostedWasApproved | src/modules/documents/documents.service.ts:136-276 | in every interleaving a document with an entry was submitted by its creator, then approved, then posted, with nothing committed in between, and still says what was submitted |
| InterleavedApprovals.StepsTellRequestStatus | src/modules/expense-requests/expense-requests.service.ts:93-250 | in every interleaving the committed steps on a request end as its status says |
| InterleavedApprovals.PaidWasApproved | src/modules/expense-requests/expense-requests.service.ts:118-197 | in every interleaving a request with a payment was submitted by its requester, then approved, then paid once |
| Layers.PaymentCallsRefine | src/modules/payments/payments.service.ts:38-164 | each sequential call is the payment protocol's atomic call, allowed and with the same effect |
| Layers.RunsAreSerialPayments | src/modules/payments/payments.service.ts:38-164 | every sequential run is a serial run of the payment protocol |
| Layers.DocumentCallsRefine | src/modules/documents/documents.service.ts:43-364 | each sequential call is the document protocol's atomic call, allowed and with the same effect |
| Layers.RunsAreSerialDocuments | src/modules/documents/documents.service.ts:43-364 | every sequential run is a serial run of the document protocol |
| BalanceTrigger.CheckJournalEntryBalance | src/database/migrations/1789672755146-AddIntegrityConstraints.ts:36-61 | the trigger function returns exactly when its entry is gone, not POSTED or balanced |
| BalanceTrigger.CommitTransaction | src/database/migrations/1789672755146-AddIntegrityConstraints.ts:63-68 | a commit succeeds exactly when no statement failed and every deferred firing passes on the final tables |
| BalanceTrigger.TriggerIsWholeTableCheck | src/database/migrations/1789672755146-AddIntegrityConstraints.ts:36-68 | at commit the whole table is balanced if and only if the trigger passes and every POSTED entry that lost a moved line, or was set to POSTED, is balanced |
| BalanceTrigger.TriggerSufficesWithoutMoves | src/database/migrations/1789672755146-AddIntegrityConstraints.ts:36-68 | without such statements the trigger passes if and only if every POSTED entry of the table is balanced |
| BalanceTrigger.MovedLineEscapes | src/database/migrations/1789672755146-AddIntegrityConstraints.ts:43-43 | a moved line unbalances the entry it leaves and the trigger passes |
| BalanceTrigger.RevivedEntryEscapes | src/database/migrations/1789672755146-AddIntegrityConstraints.ts:63-68 | an unbalanced entry set to POSTED is not looked at |
| BalanceTrigger.ChecksAlwaysHold | src/database/migrations/1789672755146-AddIntegrityConstraints.ts:24-30 | no statement leaves a line that is negative or both debit and credit |
| BalanceTrigger.ValidPostingCommits | src/modules/accounting/posting.service.ts:160-186 | lines the posting service accepts never trip the CHECK or the trigger |
| Auth.Newest | src/modules/auth/auth.service.ts:261-264 | the user's newest code (or, at 434-437, reset token), or none when the user has none |
| Auth.NewestOpen | src/modules/auth/auth.service.ts:215-218 | the user's newest unconsumed code, or none when all are consumed |
| Auth.FindReset | src/modules/auth/auth.service.ts:468-470 | an unconsumed reset token of the user with this hash, or none when there is none |
| Auth.AuthService.RegisterUser | src/modules/auth/auth.service.ts:75-203 | the user pending verification with a first code; or the missing photo, taken email, unseeded role or unstored profile, with nothing kept |
| Auth.AuthService.CreateVerificationCode | src/modules/auth/auth.service.ts:533-549 | consumes the user's open codes and stores the new one |
| Auth.AuthService.Verify | src/modules/auth/auth.service.ts:205-249 | each refusal, the counted wrong guess, and the verified user |
| Auth.AuthService.Resend | src/modules/auth/auth.service.ts:251-274 | the cooldown and the new code |
| Auth.AuthService.LogIn | src/modules/auth/auth.service.ts:276-329 | lock, password, status, cleared counter and first token of a family; spelled out in `Access.LoginExactlyWhen` |
| Auth.AuthService.RegisterFailedLogin | src/modules/auth/auth.service.ts:509-524 | the counted failure, and the lock at the fifth |
| Auth.AuthService.RefreshSession | src/modules/auth/auth.service.ts:331-385 | reuse revokes the family; otherwise the refusals or the rotation, all or nothing; spelled out in `Access.RefreshExactlyWhen` |
| Auth.AuthService.LogOut | src/modules/auth/auth.service.ts:387-393 | revokes one live token |
| Auth.AuthService.NewPassword | src/modules/auth/auth.service.ts:402-422 | the new password and every token of the user revoked, or the refusal |
| Auth.AuthService.Forgot | src/modules/auth/auth.service.ts:424-459 | a reset token at most once a minute, one answer in every case |
| Auth.AuthService.ResetWithToken | src/modules/auth/auth.service.ts:461-492 | consumes the token, sets the password, revokes every token of the user, or refuses |
| Auth.UsersService.Move | src/modules/users/users.service.ts:51-224 | the locked status move shared by the four decisions |
| Auth.UsersService.Approve | src/modules/users/users.service.ts:51-89 | only a user awaiting approval becomes active, and not if the employee record cannot be stored |
| Auth.UsersService.Reject | src/modules/users/users.service.ts:103-136 | only a user awaiting approval is rejected |
| Auth.UsersService.Unblock | src/modules/users/users.service.ts:189-223 | only a blocked user becomes active again; no token comes back |
| Auth.UsersService.Block | src/modules/users/users.service.ts:144-187 | blocking also revokes every token of the user |
| Sessions.RunKeepsTokens | src/modules/auth/auth.service.ts:331-400 | no run deletes a token, changes its owner, family or expiry, or changes a revoked one |
| Sessions.RevokedIsRefusedForever | src/modules/auth/auth.service.ts:336-347 | a revoked token is refused after every run |
| Sessions.RotationChains | src/modules/auth/auth.service.ts:331-385 | in every reachable state the links in each family spell out one acyclic chain, in the order its tokens were handed out from the login on |
| Sessions.OneLiveTokenPerFamily | src/modules/auth/auth.service.ts:331-385 | at most one token of a family is unrevoked, and it is the newest handed out |
| Sessions.ReuseEndsFamily | src/modules/auth/auth.service.ts:338-347 | after reuse of a revoked token the family gains no token and refuses every one of its tokens in every continuation |
| Sessions.SharedTokenEndsBoth | src/modules/auth/auth.service.ts:331-385 | once two parties have presented one token, nothing descended from it refreshes again |
| Sessions.EndedSessionsNeverReturn | src/modules/auth/auth.service.ts:395-492 | after a block, a logout everywhere or a new password, earlier tokens of the user are refused forever, also after an unblock |
| Sessions.LiveTokensComeFromNewLogins | src/modules/auth/auth.service.ts:395-492 | whatever of the user works afterwards comes from a login granted since |
| Access.LoginExactlyWhen | src/modules/auth/auth.service.ts:276-329 | a login hands out a token if and only if the user exists, is ACTIVE and not locked, the password matches and the token is new; what it writes, and the denial of every refusal |
| Access.RefreshExactlyWhen | src/modules/auth/auth.service.ts:331-385 | a refresh hands out a successor if and only if the token is stored, unrevoked and unexpired and its user is ACTIVE; what it writes |
| Access.LogoutEndsToken | src/modules/auth/auth.service.ts:387-393 | logging out ends the presented token in every continuation and touches no other |
| Access.RegisterExactlyWhen | src/modules/auth/auth.service.ts:75-203 | when a registration is accepted, what it stores, and that a refused one leaves nothing |
| Access.AdministrationExactlyWhen | src/modules/users/users.service.ts:51-223 | approve, reject, block and unblock: from which status each is accepted, what it leaves and the error of each refusal |
| Access.LogoutAllRevokes | src/modules/auth/auth.service.ts:395-400 | exactly the user's live tokens are revoked |
| Access.StatusTellsHistory | src/modules/users/users.service.ts:51-223 | in every reachable state a user's status and the accepted calls tell one story: registered, verified, then approved or rejected, then blocked and unblocked in turn |
| Access.TokensOnlyForAdmitted | src/modules/auth/auth.service.ts:494-507 | whoever is handed a token was registered, verified and approved before, and the last block was lifted |
| Access.NoTokenWhileBlocked | src/modules/users/users.service.ts:144-223 | from an accepted block until the next accepted unblock no call hands the user a token |
| Access.PasswordIsLastSet | src/modules/auth/auth.service.ts:402-492 | in every reachable state the password is the one set by the last accepted registration, change or reset |
| Access.LoginTakesLastPassword | src/modules/auth/auth.service.ts:276-305 | a granted login shows that password, and that password is never refused as wrong |
| Access.ChangeExactlyWhen | src/modules/auth/auth.service.ts:402-422 | a password changes if and only if the current one is shown |
| Access.ResetsAreUsedOnce | src/modules/auth/auth.service.ts:424-492 | over every run the used and the open reset tokens are together those that were issued |
| Access.ResetTokenWorksOnce | src/modules/auth/auth.service.ts:461-471 | once used as often as issued, a reset token is refused |
| Access.VerifyRefusal | src/modules/auth/auth.service.ts:205-228 | what each refused verification answers, and that only a wrong guess is counted |
| Access.ResetRefusal | src/modules/auth/auth.service.ts:461-471 | every refused reset answers the same and writes nothing |
| Access.ResetNeedsToken | src/modules/auth/auth.service.ts:461-492 | a password is reset only by an unused token of the user not older than 30 minutes, which it uses up |
| Access.ResetTakesToken | src/modules/auth/auth.service.ts:461-492 | and such a token is accepted |
| Access.LifetimesHold | src/modules/auth/auth.service.ts:424-459 | in every reachable state codes live 15 minutes, reset tokens 30, and those of one user are at least a minute apart |
| Access.VerifyExactlyWhen | src/modules/auth/auth.service.ts:205-249 | in every reachable state an email is verified if and only if an unused code of the user, not older than 15 minutes and guessed wrong less than 5 times, is shown |
| Access.ResendExactlyWhen | src/modules/auth/auth.service.ts:251-274 | a code is sent again if and only if the user is unverified and the last one is a minute old |
| Access.ForgotExactlyWhen | src/modules/auth/auth.service.ts:424-459 | a reset token is stored if and only if the user exists, is not rejected and the last one is a minute old; the answer is always the same |
| Access.OthersUntouched | src/modules/auth/auth.service.ts:276-549 | no call changes another user's row |
| Lockout.CountersAlwaysInRange | src/modules/auth/auth.service.ts:509-516 | `failedLoginAttempts` stays in 0..4 and is 0 beside a lock, in every reachable state |
| Lockout.FailuresAreBounded | src/modules/auth/auth.service.ts:294-329 | T ms without a successful login see at most 5 (T / 900000 + 1) failed password checks of a user |
| Lockout.BoundIsReached | src/modules/auth/auth.service.ts:294-329 | for every number of locks some run meets that bound exactly |
| Verification.OneOpenCode | src/modules/auth/auth.service.ts:533-549 | in every reachable state a user has at most one unconsumed code, and no code has more than five wrong guesses |
| Verification.GuessesAreBounded | src/modules/auth/auth.service.ts:205-274 | T ms admit at most 5 (T / 60000 + 2) wrong guesses at a user's codes |
| Verification.BoundIsReached | src/modules/auth/auth.service.ts:205-274 | for every number of minutes some run meets that bound exactly |
| JobQueue.ReportJobQueue.Enqueue | src/modules/reports/report-job-queue.ts:19-22 | the job joins the queue and free slots are filled |
| JobQueue.ReportJobQueue.Drain | src/modules/reports/report-job-queue.ts:24-34 | the loop starts exactly as many of the oldest jobs as there are free slots |
| JobQueue.ReportJobQueue.Settle | src/modules/reports/report-job-queue.ts:28-33 | a settled job, resolved or rejected, frees its slot and the queue drains |
| JobQueue.QueueIsFair | src/modules/reports/report-job-queue.ts:19-35 | along every run at most two jobs run and the counter counts them, no slot is free while a job waits, and the jobs started are exactly the oldest arrivals, in order, as many as settlements plus two |
| JobQueue.StartedExactlyWhen | src/modules/reports/report-job-queue.ts:19-35 | the k-th arrival has started if and only if more than k - 2 jobs have settled |
| JobQueue.SomethingRuns | src/modules/reports/report-job-queue.ts:24-34 | unless the queue is idle some job in progress can settle |
| JobQueue.SettlementsEmptyQueue | src/modules/reports/report-job-queue.ts:24-34 | without arrivals, exactly as many settlements as jobs are left make the queue idle |

## Left out

- Interleaved claims about closed periods and deactivated accounts: `post` reads both outside its transaction without a lock, so the results hold for atomic postings only.
- The tables of accounts, periods and rates in the protocols: where one of them would refuse a step, the step may abort. `OpenGoesStale` therefore speaks of every account id, those that exist included.
- The contents of the profile, the photos and the employee record: registration and approval only know whether they were stored.
- The parent of an account, and the check that it exists.
- Interleavings of the unlocked read-then-write operations (`DocumentsService.update`, `ExpenseRequestsService.update`, `refresh`, `registerFailedLogin`, `verifyEmail`, `changeRole`): each is one atomic step.
- Deadlock freedom and progress of payments: the share lock that inserting a payment takes on its request may make two payments of one request abort each other; an abort is possible at any step and only safety is claimed.
- The isolation of reads inside a transaction beyond what the services lock: in the protocols a plain read sees the latest committed row.
- The limits of `numeric(18,2)`, `numeric(18,6)` and of JavaScript numbers passed to the decimal functions: integers are unbounded and amounts are text or integers.
- Upper-casing of currency codes outside ASCII.
- Descriptions, comments, approval history, entry and document numbers, timestamps of approval, and all audit records.
- `financialDocumentId` and `method` of a payment, which no other code reads.
- Foreign-key failures on account, counterparty, contract, cost center or project ids that do not exist, except where a service checks the id itself.
- `deviationPercent` of a budget line, which is floating point.
- The order of report rows by account code.
- Report generation itself and the terminal states of reports, where a late audit failure rewrites a completed row.
- A job that throws before it returns its promise; jobs are asynchronous functions.
- Hashing, signing, random generation, mail, files, controllers, guards, configuration and deployment.
- Counterparties, contracts, organisation and people records, pagination: they would only add easy members.
