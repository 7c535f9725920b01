# Verification of the accounting core

A Dafny model of the backend's double-entry ledger and of the features that keep figures of their own
which must agree with it, with proofs that they do.

Money is an integer number of paisa and a date is a day number. Rows live in sequences; where rows are
never deleted, a row's id is its index, so "created later" is "larger id", and ties in a date ordering go
by creation order. A refused request rolls back, so it leaves the tables as they were. Each service whose
methods change rows is a class whose methods are proved equal to a step function on the tables; what the
system promises is then proved of those functions, over every run and, where the source takes locks or
guards its writes, over every interleaving of single statements.

What a step function does is also stated without it, with every test written out over the tables: which
requests are accepted and what the others are answered with (`...AcceptedIff`, `...Refusals`), what an
accepted one leaves (`...Records`, `Each...`), and what a report's figures count (`...Figures`).

| files | what they cover |
|---|---|
| `Base`, `Sorting` | options, sums, and the order queries return rows in |
| `Ledger`, `LedgerRuns`, `LedgerService` | posting, voiding, cached balances; all runs; the service statement by statement |
| `LedgerConcurrency`, `Locks` | interleaved sessions under row locks, serializability; deadlock freedom of the advisory locks |
| `TrialBalance`, `LedgerViews`, `LedgerPaging` | trial balance, account summary and wallet overview, paged ledger |
| `Allocation`, `Subledger`, `SubledgerRuns`, `SubledgerAgreement`, `SubledgerPayments`, `SubledgerReports`, `SubledgerService` | receivables and payables: the allocation loops, recording and paying, control accounts, statement, dashboard, aging |
| `Savings`, `SavingsService`, `SavingsConcurrency`, `SavingsOverview` | savings goals and the wallets behind them |
| `Settlement`, `SettlementRuns`, `SettlementConcurrency` | group settlements and closed periods |
| `Forest`, `ForestList`, `ForestService`, `Templates` | the chart of accounts and the templates it is seeded from |
| `Months`, `MonthlyReport`, `MonthlyAgreement` | month buckets, category and monthly breakdown |
| `Shelf`, `Skills`, `SkillsConcurrency` | shelves, skills and their activity log |
| `Translations` | dotted keys and the nested export |

Where the code and a promise written beside it part ways, the model follows the code and a lemma says
exactly when the promise holds:

- Advisory locks are taken in the order of their keys but are identified by the keys' hashes, so calls are
  free of deadlock exactly when keys sharing a hash are neighbours among the keys in play
  (`Locks.DeadlockFreeIffConvex`).
- An invoice that has been paid can still be voided; the total paid then exceeds what was invoiced, by a
  condition that is exact (`SubledgerPayments.InvoiceVoidKeepsTotalIff`) and with a concrete run
  (`SubledgerPayments.PaidInvoiceCanBeVoided`). `Allocation.RowsAddUpIff` says when unpaid amounts still
  add up.
- The status endpoint never sets WITHDRAWN but takes a goal out of it, so "withdraw is a one-way
  transition" holds exactly while nobody calls it on the goal (`SavingsConcurrency.WithdrawnLeftIff`,
  `SavingsConcurrency.ReopenedTakesMoney`).
- Creating and moving accounts do not look at the parent's status, so "an active account never sits under
  an archived parent" is kept by exactly the other steps (`Forest.ArchivedParentsIff`, with runs in
  `Forest.ChildUnderArchivedIsReached` and `Forest.MoveUnderArchivedIsReached`). "Nothing can archive" the
  pooled savings account "via any other route" holds over a run exactly when no update changes its subtype
  (`Forest.PooledSavingsStaysIff`, `Forest.PoolLostIff`, `Forest.PooledSavingsCanBeArchived`).
- A template's type can be changed away from its parent or children, by exactly the updates that
  `AccountTemplates.StepKeepsTypesIff` names, and seeding copies the mismatch
  (`AccountsServices.SeedKeepsForestIff`, `AccountTemplates.RetypedTemplateIsSeeded`).
- An account update can turn an account into a savings wallet or back, which keeps goals and wallets tied
  exactly when the account has not moved (`Savings.RetypedWalletIff`).
- An expense dated in a closed period can be edited; the closed totals then drift by the amount edited
  (`SettlementRuns.StepDrift`, `SettlementRuns.EditedAfterClosing`).
- The month buckets' first cursor goes through a constructor that reads the years 0 to 99 as 1900 to 1999
  (`Months.PartitionIff`, `Months.DayBeforeYear100IsLost`), and the monthly table leaves out the empty
  category name that the breakdown counts (`MonthlyAgreement.RangeTotalsAgreeIff`,
  `MonthlyAgreement.EmptyNameSplitsReports`).
- "The same request gives the same result either way" has one exception (`Shelves.ReplayIff`,
  `Shelves.ReplayStartsOver`).

`dafny verify dfyconfig.toml` checks the project.

## Model

| member | source | states |
|---|---|---|
| `Ledger.FindKey` | src/transactions/transactions.service.ts:57-75 | an idempotency key already in the table is found, with a posting that carries it; not found means no posting does |
| `Ledger.KeyAnswers` | src/transactions/transactions.service.ts:60-75 | a key already on a posting gives its own workspace that posting and writes nothing, and refuses any other workspace |
| `LedgerRuns.RetryAnswers` | src/transactions/transactions.service.ts:57-75 | after an accepted keyed posting and any later commands, repeating the key answers with that posting in its workspace, refuses others, and changes nothing |
| `Ledger.AccountProblem` | src/transactions/transactions.service.ts:368-378 | no complaint exactly when every named account exists and is the workspace's own |
| `Ledger.Recached` | src/accounts/account-balance.service.ts:47-78 | recalculating a set of accounts gives each opening balance plus or minus all its entries by type, and touches no other row and no other field |
| `Ledger.BalanceByType` | src/accounts/account-balance.service.ts:55-70 | the sign rule type by type: debits less credits raise assets and expenses, credits less debits the rest |
| `Ledger.NetIsDebitsMinusCredits` | src/accounts/account-balance.service.ts:55-70 | the two database aggregates, debits and credits, give the same net as running through the entries |
| `Ledger.BalancedMeansSignedZero` | src/transactions/transactions.service.ts:84-87 | equal debit and credit totals are exactly a signed sum of zero |
| `Ledger.SumFlipped` | src/transactions/transactions.service.ts:186-194 | any figure that changes sign with an entry's side changes sign with the whole mirrored entry list |
| `Ledger.PostKeepsCached` | src/transactions/transactions.service.ts:57-124 | a posting keeps every cached balance equal to its account's entries, recalculating only the accounts it touches |
| `Ledger.VoidRestores` | src/transactions/transactions.service.ts:145-205 | after a void every account's net is what it would be without the voided posting |
| `Ledger.VoidKeepsCached` | src/transactions/transactions.service.ts:145-205 | a void keeps every cached balance equal to its account's entries |
| `Ledger.VoidKeepsPairs` | src/transactions/transactions.service.ts:145-205 | after a void each voided posting has exactly one mirrored reversal, later in the table, and no reversal is voided |
| `Ledger.PostKeepsInv` | src/transactions/transactions.service.ts:57-124 | an accepted posting keeps the whole invariant: caches, balanced sound rows, void pairs, unique idempotency keys |
| `Ledger.PostAcceptedIff` | src/transactions/transactions.service.ts:77-87 | with an unused key, exactly which postings are accepted |
| `Ledger.PostRefusals` | src/transactions/transactions.service.ts:77-87 | and which refusal the others are answered with, in the order of the checks |
| `Ledger.PostRecords` | src/transactions/transactions.service.ts:91-121 | an accepted posting is one new row that says what the request said, and every cached balance is right |
| `Ledger.VoidKeepsInv` | src/transactions/transactions.service.ts:145-205 | an accepted void keeps the whole invariant |
| `Ledger.VoidAcceptedIff` | src/transactions/transactions.service.ts:147-160 | exactly which postings can be voided: the workspace's own, not a reversal, not voided, kept by no feature, off referral income |
| `Ledger.VoidRefusals` | src/transactions/transactions.service.ts:147-160 | and which refusal the others are answered with |
| `Ledger.VoidRecords` | src/transactions/transactions.service.ts:165-205 | a void marks its posting and appends the mirror, dated today, of the same type and contact, naming it; no other row changes |
| `LedgerRuns.RunKeepsInv` | src/transactions/transactions.service.ts:27-205 | over every run of postings and voids from fresh books the whole invariant holds |
| `LedgerRuns.RunExtends` | src/transactions/transactions.service.ts:145-215 | history is append-only over every run: no row is deleted or edited except its status, accounts keep everything but the cached balance, a voided row stays voided |
| `LedgerRuns.VoidsCancel` | src/transactions/transactions.service.ts:145-205 | where voids are paired with mirrors, a cancelling figure over all postings equals it over live ones only |
| `LedgerRuns.BalanceIsLiveBalance` | src/accounts/account-balance.service.ts:195-240 | the cached balance, which sums voided pairs too, is what the live entries alone give |
| `LedgerRuns.VoidUndoesPost` | src/transactions/transactions.service.ts:145-205 | posting and then voiding puts every account row, cached balance included, back to what it was |
| `LedgerServices.LedgerService.RecalculateBalance` | src/accounts/account-balance.service.ts:47-78 | writes back the balance recomputed from the two aggregates, changes no other row, and reports an unknown account |
| `LedgerServices.LedgerService.RecalculateAll` | src/transactions/transactions.service.ts:116-121 | recalculating the touched accounts one after the other is recalculating the set |
| `LedgerServices.LedgerService.Post` | src/transactions/transactions.service.ts:57-124 | statement by statement, posting does what the ledger step says: the same refusals in the same order, replay of a known key, the same new tables |
| `LedgerServices.LedgerService.Void` | src/transactions/transactions.service.ts:145-205 | statement by statement, voiding does what the ledger step says, refusals included |
| `LedgerServices.LedgerService.Reconcile` | src/accounts/account-balance.service.ts:345-368 | reports exactly the workspace's accounts whose cached balance was wrong, leaves every one of them right and every other workspace's alone, and reports nothing on coherent caches |
| `LedgerServices.ValidateEntryShape` | src/transactions/transactions.service.ts:357-366 | refuses exactly fewer than two entries or a non-positive amount |
| `LedgerServices.SumEntries` | src/transactions/transactions.service.ts:380-391 | the loop's two totals are the sums of the debit and of the credit entries |
| `LedgerServices.DistinctAccounts` | src/transactions/transactions.service.ts:79-82 | the account ids of a posting, each once |
| `LedgerServices.LedgerService.RequireAccountsBelongToBusiness` | src/transactions/transactions.service.ts:368-378 | the loop over accounts finds the problem the rule describes, or none |
| `TrialBalances.LedgerSpreads` | src/reports/reports.service.ts:88-134 | the net movement of any group of accounts, account by account, is the net movement posting by posting |
| `TrialBalances.GetTrialBalance` | src/reports/reports.service.ts:88-134 | one row for each listed account, no negative figure, at most one filled column per row, and both columns' totals |
| `TrialBalances.AccountsIff` | src/reports/reports.service.ts:88-96 | listed are the workspace's own accounts, each once, in order |
| `TrialBalances.ColumnByType` | src/reports/reports.service.ts:97-113 | which column a balance shows in, type by type, an overdrawn one in the other |
| `TrialBalances.TrialGapIsOpeningGap` | src/reports/reports.service.ts:88-134 | total debit minus total credit is the signed sum of opening balances and nothing else, so the report balances exactly when that sum is zero |
| `TrialBalances.RunKeepsTrialGap` | src/reports/reports.service.ts:75-134 | no run of postings and voids moves the gap |
| `LedgerViews.SummaryExplainsBalance` | src/accounts/account-balance.service.ts:195-240 | in the undated summary the balance is opening plus in minus out plus adjustment |
| `LedgerViews.SummaryFigures` | src/accounts/account-balance.service.ts:195-240 | in, out and adjustment from the postings: live ones in the date range, transfers apart, on the side that raises or lowers the account's type |
| `LedgerViews.SplitTransfers` | src/accounts/account-balance.service.ts:264-318 | the two transfer columns filled entry by entry are, per wallet, the transfers that reach a savings wallet and those that do not |
| `LedgerViews.GetWalletsOverview` | src/accounts/account-balance.service.ts:264-339 | one row per money account, and the three totals over them |
| `LedgerViews.WalletsIff` | src/accounts/account-balance.service.ts:264-275 | the rows are the workspace's cash, bank and mobile-money accounts, each once |
| `LedgerViews.WalletFigures` | src/accounts/account-balance.service.ts:264-339 | each figure from the postings: live ones, transfers apart, those with an entry on another account that is a savings one in the savings column |
| `LedgerViews.OverviewTotals` | src/accounts/account-balance.service.ts:320-339 | the totals are all the workspace's money and what of it is on archived accounts |
| `LedgerViews.WalletRowExplainsBalance` | src/accounts/account-balance.service.ts:264-339 | each wallet row's balance is opening plus in minus out minus savings plus adjustment |
| `LedgerPaging.GetLedger` | src/accounts/account-balance.service.ts:101-179 | the page computed from counts, a brought-forward aggregate and a running loop is the page read off the account's whole ordered history |
| `LedgerPaging.RunningLines` | src/accounts/account-balance.service.ts:144-163 | each line's running balance is the start plus all signed entries up to and including it |
| `LedgerPaging.DisplayedIsStretch` | src/accounts/account-balance.service.ts:111-142 | a date filter shows one unbroken stretch of the history, starting right after the entries brought forward |
| `LedgerPaging.PageShowsItsRows` | src/accounts/account-balance.service.ts:101-179 | a page's lines are exactly the entries of that page of the filtered ledger |
| `LedgerPaging.DisplayedIff` | src/accounts/account-balance.service.ts:111-142 | a date range shows each entry of the account as often as its posting has it, first and last day included, and no other, each with its posting's own id and date |
| `LedgerPaging.HistoryInOrder` | src/accounts/account-balance.service.ts:134-142 | oldest first, and within a day in the order the postings were made |
| `LedgerPaging.PageLinesRun` | src/accounts/account-balance.service.ts:144-179 | each line's balance is what was brought forward plus the displayed entries up to its own, and the page closes at its last line |
| `LedgerPaging.PageClosesAt` | src/accounts/account-balance.service.ts:101-179 | brought forward is the opening balance and everything dated before the first day; the last page closes at that plus everything dated up to the last day |
| `LedgerPaging.PagesConcatenate` | src/accounts/account-balance.service.ts:134-165 | read one after the other the pages are the whole filtered ledger, each entry once, in order |
| `LedgerPaging.HistoryEndsAtBalance` | src/accounts/account-balance.service.ts:47-78 | the running balance after the last entry is what recalculating from scratch computes |
| `LedgerPaging.LastPageClosesAtBalance` | src/accounts/account-balance.service.ts:101-179 | with no last day, the page holding the last entry closes at the cached balance, whatever the first day and the page size |
| `LedgerConcurrency.CommitIsRequest` | src/transactions/transactions.service.ts:57-205 | whatever a session reads and writes between other sessions' statements, its commit is the whole request run at that moment, and a reconcile finds no difference |
| `LedgerConcurrency.VoidsOfOnePostingCollide` | src/transactions/transactions.service.ts:162-174 | two voids of one posting are never both past their locks, unless the posting has been voided |
| `LedgerConcurrency.StepIsSerial` | src/transactions/transactions.service.ts:48-215 | each statement keeps the invariant, and the committed tables move by the committing session's own whole request or stay as they are |
| `LedgerConcurrency.InterleavingIsSerial` | src/transactions/transactions.service.ts:48-215 | every interleaving of lock, insert, recompute and commit statements leaves the tables that the committed requests leave when run whole, one after the other, in the order of their commits |
| `LedgerConcurrency.CommitsWereBegun` | src/transactions/transactions.service.ts:48-215 | and each committed request is one some session was begun with |
| `LedgerConcurrency.AloneCommits` | src/transactions/transactions.service.ts:57-205 | every request that passes its checks can be carried through, statement after statement, to its own commit |
| `LedgerConcurrency.StartsIff` | src/transactions/transactions.service.ts:57-170 | and a session opens exactly when its request would be accepted there and then, and is no replay |
| `LedgerConcurrency.LocksUnlessHeld` | src/transactions/transactions.service.ts:207-215 | a row is locked at once unless another session holds it |
| `LedgerConcurrency.InsertsUnlessPending` | src/transactions/transactions.service.ts:27-46 | a posting goes in at once unless another session has one with its key uncommitted, and ends if the key has been committed meanwhile |
| `LedgerConcurrency.CachesStayCoherent` | src/accounts/account-balance.service.ts:345-368 | in every committed state of every interleaving each cached balance is opening plus or minus its committed entries, and no reconcile reports a discrepancy |
| `Locks.SortedDistinct` | src/transactions/transactions.service.ts:48-55 | the keys a call locks, each once and ascending |
| `Locks.RunIsExclusive` | src/transactions/transactions.service.ts:48-55 | no lock is ever held twice |
| `Locks.WaitsEnd` | src/transactions/transactions.service.ts:48-55 | when locks are taken in the order of a rank, every chain of waiting calls ends in one that can go on |
| `Locks.NeverDeadlocks` | src/transactions/transactions.service.ts:48-55 | with keys that share a hash next to each other in key order, no interleaving of any number of calls ever locks up |
| `Locks.InjectiveIsConvex` | src/transactions/transactions.service.ts:48-55 | a hash without collisions on the keys in play meets that condition |
| `Locks.NotConvexDeadlocks` | src/transactions/transactions.service.ts:48-55 | without the condition two calls can lock each other out: the sort is by key, the lock is by hash |
| `Locks.DeadlockFreeIffConvex` | src/transactions/transactions.service.ts:48-55 | calls over a set of keys are free of deadlock exactly when the condition holds |
| `Allocation.ComputeDirection` | src/receivables-payables/receivables-payables.service.ts:687-756 | the loops over targeted payments, the opening balance and the invoices compute the closed form |
| `Allocation.ApplyTargets` | src/receivables-payables/receivables-payables.service.ts:693-704 | each payment lands on the live invoice it names, or else in the pool |
| `Allocation.ApplyOldestFirst` | src/receivables-payables/receivables-payables.service.ts:713-721 | the pool loop gives each invoice min(open, max(0, pool - open before it)) on top of its targeted payments |
| `Allocation.PrefixTakes` | src/receivables-payables/receivables-payables.service.ts:713-721 | the first k invoices together take the pool, or all they owe if that is less |
| `Allocation.OldestFirstIsSpending` | src/receivables-payables/receivables-payables.service.ts:713-721 | the loop's result is itself a legal way to spend the pool |
| `Allocation.OldestFirstIsBest` | src/receivables-payables/receivables-payables.service.ts:713-721 | no other legal spending of the pool settles more of any oldest-first prefix |
| `Allocation.EarlierTakesFirst` | src/receivables-payables/receivables-payables.service.ts:713-721 | an invoice that takes anything from the pool leaves none before it unsettled |
| `Allocation.PaymentOrderIrrelevant` | src/receivables-payables/receivables-payables.service.ts:677-721 | the result depends on the multiset of payments, not on the order the query returns them in |
| `Allocation.AllocationConserves` | src/receivables-payables/receivables-payables.service.ts:693-756 | everything paid is on the opening balance, on an invoice, or left in the pool |
| `Allocation.RemainingExplained` | src/receivables-payables/receivables-payables.service.ts:723-756 | what the rows still owe is `remaining` plus leftover pool plus what targeted payments exceed their invoices by |
| `Allocation.LeftoverMeansSettled` | src/receivables-payables/receivables-payables.service.ts:706-721 | the pool never goes below zero, and something is left over only when every invoice is settled |
| `Allocation.RowsAddUpIff` | src/receivables-payables/receivables-payables.service.ts:724-756 | the rows' remaining amounts add up to max(0, remaining) exactly when no invoice is over-applied, or all are settled |
| `Allocation.AcceptedPaymentFits` | src/receivables-payables/receivables-payables.service.ts:771-794 | an accepted amount keeps every invoice within its amount and the contact within what is invoiced and owed |
| `Allocation.AcceptedIff` | src/receivables-payables/receivables-payables.service.ts:771-794 | accepted exactly when it names a listed invoice that still owes as much, or names none and is no more than everything owed less everything paid |
| `Subledger.GetDirection` | src/receivables-payables/receivables-payables.service.ts:638-756 | the contact's figures for one book, with the opening balance alone when the workspace lacks the control account |
| `Subledger.OlderSettledFirst` | src/receivables-payables/receivables-payables.service.ts:672-721 | the rows come oldest first by the postings' own dates, and money naming no invoice reaches one only if no older one and nothing of the opening balance is left to pay |
| `Subledger.RowIsInvoice` | src/receivables-payables/receivables-payables.service.ts:672-741 | each row is one live sale or purchase of the contact at its amount on the control account, with its own due date, overdue while something is owed past it |
| `Subledger.OpeningBySide` | src/receivables-payables/receivables-payables.service.ts:640-670 | the opening balance counts on the side of its sign |
| `Subledger.ListedIsInvoice` | src/receivables-payables/receivables-payables.service.ts:672-691 | every listed invoice is a live one of the contact, at its amount on the control account |
| `Subledger.InvoiceListed` | src/receivables-payables/receivables-payables.service.ts:672-691 | every live invoice of the contact is listed |
| `Subledger.InvoicedTotal` | src/receivables-payables/receivables-payables.service.ts:687-741 | the total invoiced is the sum over live invoices, in whatever order they are listed |
| `Subledger.PaidTotal` | src/receivables-payables/receivables-payables.service.ts:677-745 | the total paid is the sum over live payments on the control account |
| `SubledgerRuns.InvoiceIsShaped` | src/receivables-payables/receivables-payables.service.ts:173-252 | a credit sale or purchase moves its control account by exactly the invoiced amount, on the right side, and the other one not at all |
| `SubledgerRuns.PaymentIsShaped` | src/receivables-payables/receivables-payables.service.ts:254-310 | a payment moves its control account back by exactly its amount, and the other one not at all |
| `SubledgerRuns.StepKeepsBooks` | src/receivables-payables/receivables-payables.service.ts:173-310 | every step keeps the control accounts moved only by typed invoices and payments of a contact of the workspace |
| `SubledgerRuns.AcceptableInvoicePosts` | src/receivables-payables/receivables-payables.service.ts:173-252 | an invoice that passes the service's checks passes the ledger's as well |
| `SubledgerRuns.CheckedPaymentPosts` | src/receivables-payables/receivables-payables.service.ts:254-310 | a payment that passed its check under the contact's lock is posted, whatever happened in between |
| `SubledgerRuns.ControlExistsIff` | src/receivables-payables/receivables-payables.service.ts:173-199 | there is a control account exactly when the workspace has a system account of the book's subtype and type |
| `SubledgerRuns.InvoiceAcceptedIff` | src/receivables-payables/receivables-payables.service.ts:173-252 | exactly which sales and purchases are accepted, by the contact's kind, the control account, the other account and the amount |
| `SubledgerRuns.InvoiceRefusals` | src/receivables-payables/receivables-payables.service.ts:173-252 | and which refusal the others are answered with |
| `SubledgerRuns.InvoiceRecords` | src/receivables-payables/receivables-payables.service.ts:196-252 | the posting one leaves: its type, day, due day and contact, and the two entries the right way round |
| `SubledgerRuns.PaymentAcceptedIff` | src/receivables-payables/receivables-payables.service.ts:254-310 | exactly which payments pass their check, in sums over the postings |
| `SubledgerRuns.PaymentRefusals` | src/receivables-payables/receivables-payables.service.ts:254-310 | and which refusal the others are answered with, in the order of the checks |
| `SubledgerRuns.MisfitRefusals` | src/receivables-payables/receivables-payables.service.ts:771-794 | or, with contact and accounts in order, what it says of a payment that does not fit |
| `SubledgerRuns.PaymentRecords` | src/receivables-payables/receivables-payables.service.ts:262-310 | the posting one leaves: money in against the receivable, or out against the payable, naming the invoice it was sent for |
| `SubledgerAgreement.ContactBalance` | src/receivables-payables/receivables-payables.service.ts:672-753 | a contact's balance in a book is their live movement on its control account |
| `SubledgerAgreement.ControlAccountsAgree` | src/receivables-payables/receivables-payables.service.ts:638-756 | each control account has moved from its opening by exactly the sum of the contacts' balances |
| `SubledgerAgreement.GetLoanStatement` | src/receivables-payables/receivables-payables.service.ts:367-429 | brings forward everything before the range and runs through the range in date order with one sign rule |
| `SubledgerAgreement.StatementShowsIff` | src/receivables-payables/receivables-payables.service.ts:380-410 | a statement shows each entry of the contact on the control accounts as often as its posting has it, first and last day included, and no other |
| `SubledgerAgreement.StatementInOrder` | src/receivables-payables/receivables-payables.service.ts:380-410 | in the order of the days, and within a day of the postings |
| `SubledgerAgreement.StatementClosesAt` | src/receivables-payables/receivables-payables.service.ts:367-429 | brought forward and closing are the contact's opening balance plus the entries dated before the first day, and up to the last |
| `SubledgerAgreement.StatementClosesAtBalance` | src/receivables-payables/receivables-payables.service.ts:337-429 | the statement's closing balance, from any first day and with no last day, is the contact's current balance |
| `SubledgerPayments.AcceptedKeepsTargets` | src/receivables-payables/receivables-payables.service.ts:771-794 | accepting a payment keeps every live invoice within its amount, counting payments checked and not yet posted |
| `SubledgerPayments.RunKeepsTargets` | src/receivables-payables/receivables-payables.service.ts:254-310 | over every run, voids and backdated invoices included, payments naming a live invoice never exceed it |
| `SubledgerPayments.InvoiceVoidKeepsTotalIff` | src/receivables-payables/receivables-payables.service.ts:771-794 | voiding an invoice keeps the contact's total paid within bounds exactly when its amount is no more than what was outstanding |
| `SubledgerPayments.RunKeepsTotals` | src/receivables-payables/receivables-payables.service.ts:254-310 | over every run whose voids meet that condition, total paid never exceeds invoiced plus opening owed |
| `SubledgerPayments.PaidInvoiceCanBeVoided` | src/transactions/transactions.service.ts:145-180 | from books just opened, the service's own steps lend 100, collect 100 and void the loan: the void is accepted, and the bound holds before it and fails after it |
| `SubledgerReports.GetLoanDashboard` | src/receivables-payables/receivables-payables.service.ts:567-620 | total owed, owing, paid out and taken in are the sums over the workspace's contacts, split by the sign of each balance; the net is the difference; the rows are those of the listed contacts |
| `SubledgerReports.ListedIff` | src/receivables-payables/receivables-payables.service.ts:567-607 | listed, once each and in order, are exactly the workspace's contacts with an opening balance or money in or out |
| `SubledgerReports.DashboardAgreesWithControls` | src/receivables-payables/receivables-payables.service.ts:567-620 | the dashboard's net is the contacts' openings plus what the receivable account moved minus what the payable account moved |
| `SubledgerReports.GetAging` | src/receivables-payables/receivables-payables.service.ts:431-491 | lists exactly the contacts that still owe, and the report's buckets are the sums of the rows' |
| `SubledgerReports.AgingListsIff` | src/receivables-payables/receivables-payables.service.ts:431-470 | a contact has a row exactly when it is the workspace's, of the kind the book invoices, and still owes |
| `SubledgerReports.AgingRowsAscend` | src/receivables-payables/receivables-payables.service.ts:431-470 | and only one, in table order |
| `SubledgerReports.BucketByDays` | src/receivables-payables/receivables-payables.service.ts:758-764 | not due, one to thirty days past due, thirty-one to sixty, and more |
| `SubledgerReports.AgingRowFigures` | src/receivables-payables/receivables-payables.service.ts:450-491 | a row's four figures are the contact's unpaid amounts by those days, its total what the allocation says remains |
| `SubledgerReports.AgedTotal` | src/receivables-payables/receivables-payables.service.ts:758-764 | every unpaid amount is in exactly one bucket |
| `SubledgerReports.AgingRowAddsUp` | src/receivables-payables/receivables-payables.service.ts:431-491 | in every reachable state a row's four buckets add up to its total |
| `SubledgerReports.AgingReportAddsUp` | src/receivables-payables/receivables-payables.service.ts:431-491 | and the report's buckets to the sum of the rows' totals |
| `SubledgerReports.RunsAgree` | src/receivables-payables/receivables-payables.service.ts:173-756 | after any run of sales, purchases, payments, voids and unrelated postings, control accounts, contacts, dashboard and statements agree |
| `SubledgerServices.ReceivablesPayablesService.RecordSale` | src/receivables-payables/receivables-payables.service.ts:173-215 | check by check and posting by posting, the sale step on the tables |
| `SubledgerServices.ReceivablesPayablesService.RecordPurchase` | src/receivables-payables/receivables-payables.service.ts:217-252 | likewise for a purchase |
| `SubledgerServices.ReceivablesPayablesService.ReceivePayment` | src/receivables-payables/receivables-payables.service.ts:254-281 | likewise for money received, validated against the allocation first |
| `SubledgerServices.ReceivablesPayablesService.PayPayment` | src/receivables-payables/receivables-payables.service.ts:283-310 | likewise for money paid out |
| `Savings.ComputeCurrentAmount` | src/savings-goals/savings-goals.service.ts:527-535 | the loop over the four grouped sums is money in minus money out, entry by entry |
| `Savings.GoalsAddUp` | src/savings-goals/savings-goals.service.ts:527-535 | goal by goal or entry by entry, a workspace's savings are the same |
| `Savings.SavingsTieToWallets` | src/savings-goals/savings-goals.service.ts:263-434 | what the goals show as saved is exactly what the savings wallets hold beyond their opening balances |
| `Savings.HappenKeeps` | src/savings-goals/savings-goals.service.ts:263-434 | every request, void, unrelated posting and change of status or target keeps goals and wallets tied and no goal below zero |
| `Savings.RunKeepsSavings` | src/savings-goals/savings-goals.service.ts:263-434 | so over every run from fresh books |
| `Savings.EachGoal` | src/savings-goals/savings-goals.service.ts:263-434 | goal by goal: a contribution adds to its own, a transfer takes from one and gives to the other, a withdrawal empties its own, and no other goal moves |
| `Savings.EachGoalRow` | src/savings-goals/savings-goals.service.ts:263-434 | and only a withdrawal changes a goal's row, its own, to withdrawn |
| `Savings.EachStatus` | src/savings-goals/savings-goals.service.ts:224-334 | how any event moves a goal's status and target |
| `Savings.RequestPosts` | src/savings-goals/savings-goals.service.ts:283-430 | the posting behind a request, entry by entry, named by the log entry that goes with it; a transfer posts nothing |
| `Savings.AcceptedIff` | src/savings-goals/savings-goals.service.ts:263-434 | exactly which requests are accepted |
| `Savings.MoneyRefusals` | src/savings-goals/savings-goals.service.ts:272-434 | and which refusal is answered where money is missing or the goal is closed |
| `Savings.RunKeepsLogged` | src/transactions/transactions.service.ts:236-242 | over every run each posting that touches a savings wallet is named by a goal's log entry, and its void is refused |
| `Savings.RetypedWalletIff` | src/accounts/accounts.service.ts:236-264 | editing an asset account's subtype to or from savings keeps goals and wallets tied exactly when the account has not moved from its opening balance |
| `SavingsServices.SavingsGoalsService.AddContribution` | src/savings-goals/savings-goals.service.ts:263-308 | checks, posting and log entry, step by step, are the contribution request on the tables |
| `SavingsServices.SavingsGoalsService.Transfer` | src/savings-goals/savings-goals.service.ts:341-372 | both log entries or none, after the checks in the service's order |
| `SavingsServices.SavingsGoalsService.Withdraw` | src/savings-goals/savings-goals.service.ts:385-434 | pays out the whole amount read under the lock, logs it and closes the goal, or changes nothing |
| `SavingsServices.SavingsGoalsService.MaybeMarkCompleted` | src/savings-goals/savings-goals.service.ts:324-334 | completes an active or paused goal that has reached its target and touches no other |
| `SavingsConcurrency.CheckSurvives` | src/savings-goals/savings-goals.service.ts:341-434 | under its locks a checked request would pass the same checks and read the same amount again, whatever commits meanwhile |
| `SavingsConcurrency.CommitIsPerform` | src/savings-goals/savings-goals.service.ts:263-434 | what is written from figures read earlier is the whole request performed now |
| `SavingsConcurrency.ActionIsEvent` | src/savings-goals/savings-goals.service.ts:263-434 | each action keeps the invariant, and moves the tables by its own whole event or not at all |
| `SavingsConcurrency.InterleavingIsSerial` | src/savings-goals/savings-goals.service.ts:263-434 | every interleaving of requests, completion markers and other events leaves the tables that its effective actions leave, each performed whole, in the order they take effect |
| `SavingsConcurrency.AskedWasBegun` | src/savings-goals/savings-goals.service.ts:263-434 | and each request performed is one that was begun |
| `SavingsConcurrency.AloneIsPerformed` | src/savings-goals/savings-goals.service.ts:263-434 | locking, checking and committing one after the other performs the request |
| `SavingsConcurrency.MarkerStartsIff` | src/savings-goals/savings-goals.service.ts:324-334 | a completion marker starts on an active or paused goal and on no other |
| `SavingsConcurrency.AloneIsMarked` | src/savings-goals/savings-goals.service.ts:324-334 | and left alone completes it exactly when it has reached its target |
| `SavingsConcurrency.KeysInOrder` | src/savings-goals/savings-goals.service.ts:272-386 | a request locks everything it is about, each key once, in one order for all requests |
| `SavingsConcurrency.LocksUnlessHeld` | src/transactions/transactions.service.ts:48-55 | a key is locked at once unless another request holds it |
| `SavingsConcurrency.WithdrawnLeftIff` | src/savings-goals/savings-goals.service.ts:240-243 | a withdrawn goal leaves that status exactly when the status endpoint is called on it |
| `SavingsConcurrency.WithdrawnIsFinal` | src/savings-goals/savings-goals.service.ts:272-434 | in every interleaving without that call a withdrawn goal stays withdrawn and empty and no goal is paid out twice, although markers act on stale reads |
| `SavingsConcurrency.ReopenedTakesMoney` | src/savings-goals/savings-goals.service.ts:240-243 | one call of the status endpoint reopens any withdrawn goal and money can be added to it again |
| `SavingsOverviews.GetAccountOverview` | src/savings-goals/savings-goals.service.ts:102-154 | one row per shown savings wallet, and the three totals over them |
| `SavingsOverviews.ShownIff` | src/savings-goals/savings-goals.service.ts:103-108 | the rows are the workspace's savings wallets, the system's own only while it holds something |
| `SavingsOverviews.SavingsFigures` | src/savings-goals/savings-goals.service.ts:109-145 | each figure from the account and its live postings |
| `SavingsOverviews.SavingsTotals` | src/savings-goals/savings-goals.service.ts:127-154 | the totals are all that the workspace's savings wallets hold and what of it is on archived ones |
| `SavingsOverviews.SavingsRowExplainsBalance` | src/savings-goals/savings-goals.service.ts:109-145 | each row's balance is opening plus in minus out, from live entries only |
| `SavingsOverviews.OverviewMatchesGoals` | src/savings-goals/savings-goals.service.ts:83-154 | the page's total is the wallets' openings plus everything the goals show as saved, although the hidden pool is left out when empty |
| `Settlement.TotalsByMember` | src/group-expenses/group-expenses.service.ts:440-450 | the map filled row by row holds each contributor's deposits and returns, and nobody else |
| `Settlement.ComputeSettlement` | src/group-expenses/group-expenses.service.ts:415-493 | the loop-built result is the split of the three reads; empty without active members |
| `Settlement.SharesAddUp` | src/group-expenses/group-expenses.service.ts:458-472 | shares add up to the total exactly, for negative totals too |
| `Settlement.FairSplit` | src/group-expenses/group-expenses.service.ts:458-472 | all but the last pay the same, the last less than one paisa per member more, and nothing more exactly when the total divides evenly |
| `Settlement.SplitAddsUp` | src/group-expenses/group-expenses.service.ts:458-483 | a settlement's balances are its contributions minus its expenses, whatever the reads were |
| `Settlement.BalancesAddUp` | src/group-expenses/group-expenses.service.ts:407-483 | former contributors included, balances sum to the period's net contributions minus its expenses: nobody's money is missing from the rows |
| `SettlementRuns.GroupExpensesService.CloseSettlement` | src/group-expenses/group-expenses.service.ts:358-405 | refuses a backwards period, an overlap and a group without active members, in that order, and otherwise appends the computed settlement |
| `SettlementRuns.FindMember` | src/group-expenses/group-expenses.service.ts:506-512 | a member is found exactly when the id exists in the workspace |
| `SettlementRuns.DayClosedOnce` | src/group-expenses/group-expenses.service.ts:354-405 | a day is settled in one closed period at most |
| `SettlementRuns.RunKeepsGroup` | src/group-expenses/group-expenses.service.ts:56-405 | over every run of edits, deletions and closes, closed periods stay disjoint, closed rows add up, and no contribution loses its member |
| `SettlementRuns.SettlementBalances` | src/group-expenses/group-expenses.service.ts:407-493 | so in every reachable state a settlement's balances are the group's money |
| `SettlementRuns.SettlementFigures` | src/group-expenses/group-expenses.service.ts:415-493 | the total is all the workspace spent in the period, first and last day included; head count and share follow from it and the active members |
| `SettlementRuns.RowIsMembersMoney` | src/group-expenses/group-expenses.service.ts:415-483 | every row is a member with the deposits and returns they made in the period, first and last day included, and a balance of that less their share |
| `SettlementRuns.HasRowIff` | src/group-expenses/group-expenses.service.ts:437-438 | a member has a row exactly when they are active or took part in the period |
| `SettlementRuns.RowsInJoinOrder` | src/group-expenses/group-expenses.service.ts:437-472 | active members come in the order they joined, so the last to join takes what rounding leaves over |
| `SettlementRuns.RowsHoldThePeriod` | src/group-expenses/group-expenses.service.ts:415-493 | the rows together hold the workspace's contributions of the days the period covers, none lost or counted twice |
| `SettlementRuns.CloseAcceptedIff` | src/group-expenses/group-expenses.service.ts:358-405 | exactly which periods can be closed, and what closing appends |
| `SettlementRuns.CloseRefusals` | src/group-expenses/group-expenses.service.ts:358-384 | and which refusal the others are answered with |
| `SettlementRuns.ContributionEdits` | src/group-expenses/group-expenses.service.ts:119-164 | an edit of contributions moves each member's figure for each period by exactly what was added, changed or removed |
| `SettlementRuns.ExpenseEdits` | src/group-expenses/group-expenses.service.ts:239-280 | and an edit of expenses the workspace's |
| `SettlementRuns.MemberEdits` | src/group-expenses/group-expenses.service.ts:56-112 | members join active, are switched on and off, and are deleted only when nothing names them |
| `SettlementRuns.RunKeepsPeople` | src/group-expenses/group-expenses.service.ts:56-405 | over every run, whoever paid an expense or was settled is still a member |
| `SettlementRuns.StepDrift` | src/group-expenses/group-expenses.service.ts:239-278 | closing counts each expense of the period once; only edits of expenses on closed days move closed totals and expenses apart, by exactly the amount edited |
| `SettlementRuns.RunDrift` | src/group-expenses/group-expenses.service.ts:239-405 | over a run they keep agreeing exactly when those edits cancel out |
| `SettlementRuns.EditedAfterClosing` | src/group-expenses/group-expenses.service.ts:239-278 | from an empty group: a period is closed, its one expense then edited from 100 to 300, and closed totals and expenses are 200 apart |
| `SettlementConcurrency.InterleavingKeepsPeriodsApart` | src/group-expenses/group-expenses.service.ts:354-405 | in every interleaving of closes and edits closed periods stay disjoint and closed rows add up, although a close's reads may straddle edits |
| `SettlementConcurrency.WithoutTheLock` | src/group-expenses/group-expenses.service.ts:354-377 | without the lock, from any group and period that could be closed, two closings taking turns both pass the check and close the period twice |
| `SettlementConcurrency.AloneCloses` | src/group-expenses/group-expenses.service.ts:358-405 | a closing nobody interferes with closes the period as the whole request does |
| `SettlementConcurrency.WaitsForOthersOnly` | src/group-expenses/group-expenses.service.ts:365-367 | a closing waits exactly while another of its group is past the lock |
| `Forest.RefuseParentCycle` | src/accounts/accounts.service.ts:367-381 | the walk up terminates (measure: accounts not seen) and refuses exactly when the account is above its new parent |
| `Forest.MoveRefusedIff` | src/accounts/accounts.service.ts:367-381 | and that is exactly when the move would make a loop |
| `Forest.StepKeepsForest` | src/accounts/accounts.service.ts:203-359 | create, update, archive, unarchive and remove keep every walk up ending, parents of the same workspace and type, and reserved subtypes on system accounts |
| `Forest.RunKeepsForest` | src/accounts/accounts.service.ts:203-359 | so over every run |
| `Forest.AcceptedIff` | src/accounts/accounts.service.ts:203-359 | exactly which creates, updates, archives, unarchives and removes are accepted |
| `Forest.EachUse` | src/accounts/accounts.service.ts:346-349 | an account is marked as used by a posting on it, and for good |
| `Forest.Refusals` | src/accounts/accounts.service.ts:203-359 | what each refusal means |
| `Forest.EachAccount` | src/accounts/accounts.service.ts:203-359 | what an accepted one leaves of each account |
| `Forest.ArchivedParentsIff` | src/accounts/accounts.service.ts:203-322 | an accepted step keeps active accounts out from under archived ones exactly when it neither creates under an archived parent nor moves an active account under one |
| `Forest.ChildUnderArchivedIsReached` | src/accounts/accounts.service.ts:203-230 | from an empty chart, an archived account gets a new active child |
| `Forest.MoveUnderArchivedIsReached` | src/accounts/accounts.service.ts:236-264 | from an empty chart, an active account is moved under an archived one |
| `Forest.ReservedStays` | src/accounts/accounts.service.ts:236-359 | a reserved system account is never removed, archived or given another subtype |
| `Forest.PooledSavingsStaysIff` | src/accounts/accounts.service.ts:266-359 | a step leaves the pooled savings account there, pooled and with its status unchanged exactly when it is not an accepted update of its subtype or its unarchiving |
| `Forest.PoolLostIff` | src/accounts/accounts.service.ts:236-359 | over every run, the active pooled account is archived, removed or no longer pooled at some point exactly when some step was an accepted update of its subtype |
| `Forest.PooledSavingsCanBeArchived` | src/accounts/accounts.service.ts:236-303 | and such an update is open to whoever may archive: one update, one archive, and the account is archived |
| `ForestList.Nest` | src/accounts/accounts.service.ts:110-119 | each account is pushed onto its parent's array, or is a root |
| `ForestList.List` | src/accounts/accounts.service.ts:104-128 | only roots at the top level, grouped by type in the standard order |
| `ForestList.PlacedIff` | src/accounts/accounts.service.ts:104-128 | an account is under its parent, or at the top of its own type when its parent is not listed, and nowhere else |
| `ForestList.ThroughItsParent` | src/accounts/accounts.service.ts:110-119 | every appearance of an account is itself or one through its parent, one level less deep |
| `ForestList.ReachedIff` | src/accounts/accounts.service.ts:110-119 | from the roots an account is reached once if its walk up has ended within that depth, else not at all |
| `ForestList.EndsWithin` | src/accounts/accounts.service.ts:367-381 | a walk that ends, ends within as many steps as there are accounts |
| `ForestList.ShownOnceIff` | src/accounts/accounts.service.ts:104-128 | the written-out listing shows an account exactly once if its walk up ends and never otherwise, so in a forest everything once |
| `AccountsServices.AccountsService.Create` | src/accounts/accounts.service.ts:203-230 | the checks in order and the row created |
| `AccountsServices.AccountsService.Update` | src/accounts/accounts.service.ts:231-264 | the checks in order, cycle walk included, and the fields that were sent |
| `AccountsServices.AccountsService.Archive` | src/accounts/accounts.service.ts:266-303 | unknown account, pooled savings, reserved account and active children are refused in that order, counted as the service counts; otherwise the account is archived, once |
| `AccountsServices.AccountsService.Unarchive` | src/accounts/accounts.service.ts:309-321 | an active account stays as it is; an archived one is refused under an archived parent and otherwise active again |
| `AccountsServices.AccountsService.RemoveOrArchive` | src/accounts/accounts.service.ts:330-359 | deletes an account nothing was posted on, archives one with history, and says which |
| `AccountsServices.AccountsService.SeedDefaultAccounts` | src/accounts/accounts.service.ts:50-102 | the two passes leave one account per selected template, under its parent's account if that template was selected too, and touch nothing else |
| `AccountsServices.SeedsIff` | src/accounts/accounts.service.ts:65-76 | copied are the active templates of the workspace's type other than money accounts |
| `AccountsServices.SeededAccount` | src/accounts/accounts.service.ts:78-101 | what each copy is: the template's type and subtype, a system account, active, under the copy of its parent if there is one |
| `AccountsServices.SeedKeepsForestIff` | src/accounts/accounts.service.ts:50-102 | seeding keeps the chart a forest, with parents of their children's type exactly when that holds of the templates |
| `AccountTemplates.AccountTemplatesService.Create` | src/account-templates/account-templates.service.ts:31-46 | reserved subtypes and unfit parents are refused in order; otherwise the template is there |
| `AccountTemplates.AccountTemplatesService.Update` | src/account-templates/account-templates.service.ts:48-83 | load-bearing templates keep their shape, the other checks follow in order, and the fields that were sent are changed |
| `AccountTemplates.AccountTemplatesService.Deactivate` | src/account-templates/account-templates.service.ts:103-108 | a load-bearing template is refused, any other is switched off |
| `AccountTemplates.TemplateAcceptedIff` | src/account-templates/account-templates.service.ts:31-108 | exactly which of the administrator's steps are accepted |
| `AccountTemplates.TemplateRefusals` | src/account-templates/account-templates.service.ts:31-131 | what each refusal means |
| `AccountTemplates.EachTemplate` | src/account-templates/account-templates.service.ts:31-108 | what an accepted one leaves of each template |
| `AccountTemplates.StepKeepsTypesIff` | src/account-templates/account-templates.service.ts:31-108 | templates nest one level deep after every step, under parents of their own type exactly when the step is not an update that retypes one away from its parent or children |
| `AccountTemplates.RunKeepsOneLevel` | src/account-templates/account-templates.service.ts:31-131 | over every run of the administrator's steps templates nest one level deep, and types match if no step was such an update |
| `AccountTemplates.SeedingAfterRun` | src/accounts/accounts.service.ts:50-102 | so whatever the administrator did, seeding a workspace makes no loop; with no template retyped on its own the chart keeps its whole invariant |
| `AccountTemplates.RetypedTemplateIsSeeded` | src/account-templates/account-templates.service.ts:48-83 | three accepted steps, and a workspace is seeded with an asset under a liability |
| `Months.MonthOf` | src/reports/month-buckets.ts:30-31 | the month whose first day is not after, and whose end is after, the day |
| `Months.MonthBucketsBetween` | src/reports/month-buckets.ts:21-39 | the loop's buckets on the Gregorian calendar are the clipped months the range touches; none when backwards or more than 24 |
| `Months.BucketsPartition` | src/reports/month-buckets.ts:19-39 | buckets are non-empty, within one month each, end to end, and cover the range exactly |
| `Months.PartitionIff` | src/reports/month-buckets.ts:19-39 | the list handed out covers the range exactly when it is not backwards, has at most 24 months and does not start before the year 100 |
| `Months.DayBeforeYear100IsLost` | src/reports/month-buckets.ts:21-39 | a one-day range before the year 100 gets no bucket at all |
| `Months.DayInOneBucket` | src/reports/month-buckets.ts:19-39 | every day of the range is in the bucket of its month and in no other |
| `MonthlyReports.GroupsAddUp` | src/reports/reports.service.ts:151-174 | group by group or entry by entry, the kept categories add up to the same |
| `MonthlyReports.BreakdownIsTrueTotal` | src/reports/reports.service.ts:145-186 | the breakdown's total counts every categorised entry in scope once, and no category left off the top ten is larger than one on it |
| `MonthlyAgreement.BreakdownFigures` | src/reports/reports.service.ts:145-186 | total and amounts from the postings; the list is the ten largest categories at most, largest first |
| `MonthlyReports.FillTable` | src/reports/reports.service.ts:219-227 | the amount arrays filled in place hold, per named category, each month's amount, with the empty name left out |
| `MonthlyAgreement.GetMonthlyBreakdown` | src/reports/reports.service.ts:195-246 | refuses a range without buckets; otherwise the rows, column totals and grand total, which for a range the buckets cover is every named entry dated in it, once |
| `MonthlyAgreement.ColumnTotal` | src/reports/reports.service.ts:229-237 | a month's column adds up to that month's named groups |
| `MonthlyAgreement.RowsAndColumnsAgree` | src/reports/reports.service.ts:232-245 | the grand total is the same down the rows and across the columns |
| `MonthlyAgreement.MonthlyTotal` | src/reports/reports.service.ts:195-246 | the grand total is every named entry in the range, once, with or without a wallet filter |
| `MonthlyAgreement.TableFigures` | src/reports/reports.service.ts:195-240 | each cell from the postings: a category's entries dated in the month's bucket |
| `MonthlyAgreement.RowsDescend` | src/reports/reports.service.ts:232-236 | one row for each name, largest total first |
| `MonthlyAgreement.TableTotal` | src/reports/reports.service.ts:195-246 | the grand total from the postings: every named entry dated from the first day to the last |
| `MonthlyAgreement.MonthlyMatchesBreakdownIff` | src/reports/reports.service.ts:145-246 | without a wallet filter the two reports' totals agree exactly when the entries under the empty name add up to nothing |
| `MonthlyAgreement.MatchesIffAllNamed` | src/reports/reports.service.ts:219-227 | with positive amounts: exactly when no entry in range has the empty name |
| `MonthlyAgreement.RangeTotalsAgreeIff` | src/reports/reports.service.ts:145-246 | from a range of days to the two reports on a sound ledger: the totals agree exactly when no entry in the range is filed under the empty name |
| `MonthlyAgreement.EmptyNameSplitsReports` | src/reports/reports.service.ts:145-246 | on books just opened, one posting under the empty name makes the two reports over any such range disagree |
| `Shelves.SettlingKeepsShelf` | src/common/shelf.ts:60-105 | done is all of the total and dated so, not started has no start date and no progress, after any accepted change and any edit of the total |
| `Shelves.RefusedIff` | src/common/shelf.ts:57-92 | exactly which changes are refused |
| `Shelves.Outcome` | src/common/shelf.ts:60-105 | where an accepted change leaves status, progress and both dates, case by case |
| `Shelves.Refusals` | src/common/shelf.ts:57-92 | which of the two refusals is answered |
| `Shelves.DatesOfDone` | src/common/shelf.ts:94-104 | a done item's start date is reset exactly by the explicit start over, and its done date kept while it stays done |
| `Shelves.ReplayIff` | src/common/shelf.ts:43-105 | a change sent again gives the same item, except in-progress sent without progress when the recorded progress is all of the total |
| `Shelves.ReplayStartsOver` | src/common/shelf.ts:43-105 | an item brought to that case by accepted changes: the request makes it done, and sent again starts it over |
| `Skills.SkillsService.AdjustLog` | src/skills/skills.service.ts:259-275 | an increase goes onto the day's row, a decrease comes off it, and a row at or below zero goes |
| `Skills.SkillsService.Update` | src/skills/skills.service.ts:226-241 | row and log move together as derived, or neither does |
| `Skills.AdjustKeepsLog` | src/skills/skills.service.ts:259-275 | rows stay positive and one per day; the log's sum moves by the adjustment, short of what the day's row could not give back |
| `Skills.EachDay` | src/skills/skills.service.ts:259-275 | each day's amount moves on the day of the change only, and never below nothing |
| `Skills.EditSlack` | src/skills/skills.service.ts:113-139 | exactly how an edit widens the gap between the log and the progress it accounts for; no edit narrows it |
| `Skills.CreatedTrack` | src/skills/skills.service.ts:190-225 | a new skill starts consistent, its log accounting for the initial progress |
| `Skills.CreatedIs` | src/skills/skills.service.ts:190-225 | which new skills are accepted and how they are set up |
| `Skills.EditAcceptedIff` | src/skills/skills.service.ts:113-139 | exactly which edits are accepted, at most 2000 lessons or 60000 minutes |
| `Skills.TargetRefusals` | src/skills/skills.service.ts:113-125 | a target out of bounds is refused first, by its unit |
| `Skills.EditLeaves` | src/skills/skills.service.ts:113-275 | what an edit leaves: target, shelf item, what is accounted for, and the amount of the Dhaka day it happens on |
| `Skills.RunKeepsTrack` | src/skills/skills.service.ts:190-275 | over every run of edits: on its shelf, 0 <= logged <= progress <= target, positive rows, and log plus initial progress at least the logged progress |
| `Skills.ReplayChangesNothingIff` | src/skills/skills.service.ts:113-139 | sending an accepted edit again changes neither skill nor log, unless it is the one that starts the item over |
| `Skills.MisclickedDoneCanBeUndone` | src/skills/skills.service.ts:102-139 | reporting the old progress after a misclicked done puts skill and log back exactly |
| `SkillsConcurrency.ChangeIsAnEdit` | src/common/shelf.ts:107-122 | a guarded write that goes through applies its whole edit to the row as it stands, one version on; nothing else touches the row |
| `SkillsConcurrency.InterleavingIsSerial` | src/common/shelf.ts:107-122 | in every interleaving the row and its log are a serial run of exactly the edits whose writes went through, in that order, one version each |
| `SkillsConcurrency.WrittenWasBegun` | src/common/shelf.ts:107-122 | and each of them was asked for |
| `SkillsConcurrency.AloneIsWritten` | src/common/shelf.ts:107-122 | an edit nobody interferes with is written |
| `SkillsConcurrency.WriteEnds` | src/common/shelf.ts:107-122 | a write goes through at the version that was read, else the request reads again, unless this was its third try |
| `SkillsConcurrency.InterleavingKeepsTrack` | src/skills/skills.service.ts:226-241 | so shelf and log stay consistent under concurrent edits |
| `SkillsConcurrency.ConflictMeansThreeOthers` | src/common/shelf.ts:107-122 | a request is turned away with a conflict only after three other edits were written since it began |
| `Translations.JoinSplit` | src/translations/translations.service.ts:17-22 | joining a key's segments gives the key back |
| `Translations.SplitJoin` | src/translations/translations.service.ts:17-22 | splitting joined segments gives the segments back |
| `Translations.StartsWithIff` | src/translations/translations.service.ts:74-80 | starting with the key and a dot is exactly having its segments as a proper prefix |
| `Translations.PrefixesOfIff` | src/translations/translations.service.ts:17-22 | the listed prefixes are exactly the keys whose segments are a proper prefix |
| `Translations.RunKeepsApart` | src/translations/translations.service.ts:66-124 | over every run of creates and updates no key is another's prefix and none uses a reserved word |
| `Translations.CreateAcceptedIff` | src/translations/translations.service.ts:66-96 | exactly which keys are accepted |
| `Translations.CreateRefusals` | src/translations/translations.service.ts:66-96 | and which refusal the others are answered with |
| `Translations.StepLeaves` | src/translations/translations.service.ts:66-124 | a create appends its row, an update changes the texts sent and never a key |
| `Translations.SetThenLookup` | src/translations/translations.service.ts:29-47 | writing a free path puts the text there and changes no other path |
| `Translations.BlockedIsUnchanged` | src/translations/translations.service.ts:29-47 | writing a blocked path changes nothing |
| `Translations.BlockedBy` | src/translations/translations.service.ts:29-47 | what blocks a path is a text on it, at it or below it |
| `Translations.Export` | src/translations/translations.service.ts:132-141 | both languages written row by row |
| `Translations.ExportFlattensBack` | src/translations/translations.service.ts:132-141 | on keys kept apart, flattening the bundles gives back exactly the rows, whatever order they were written in |
| `Translations.NothingLostIff` | src/translations/translations.service.ts:66-141 | with unique keys no row is lost from the export exactly when the keys are apart |

## Left out

- Savings.RunKeepsSavings: ledger postings other than the feature's own stay off savings wallets; a raw journal entry, an asset or a referral posting on one is not covered. Nor is an account update that changes a wallet's subtype: `Savings.RetypedWalletIff` says when one breaks the tie.
- SubledgerReports.RunsAgree: postings other than sales, purchases, payments and voids stay off the two control accounts; a raw journal entry on them is not covered.
- SubledgerRuns.StepKeepsBooks: a check reads invoices and payments in one atomic step under the contact's lock; postings that commit between the invoice query and the payment query are not modelled.
- SubledgerPayments.RunKeepsTotals: carries the exact condition on invoice voids, since the code accepts voids that break the bound.
- SavingsConcurrency.WithdrawnIsFinal: assumes nobody calls the status endpoint on the goal while it is withdrawn, since the code lets that call through.
- LedgerPaging.PagesConcatenate: entries that tie on date and creation time come in creation order on every page, where the source's order leaves ties inside one posting open.
- LedgerConcurrency.InterleavingIsSerial: account and contact rows themselves are not created, renamed or deleted during a run, and a request's checks are one read at its start.
- SettlementConcurrency.InterleavingKeepsPeriodsApart: a member deletion racing with a close's insert, which only the foreign key stops, is one atomic step here.
- SkillsConcurrency.InterleavingIsSerial: a version counter stands for the row's time of last change, so two writes within one millisecond are told apart.
- Translations.SetNested: rebuilds the bundle tree along the path as a value; the source writes into the nested objects in place. Two creates racing past the clash check are not modelled, and the query's pattern characters are taken literally.
- ForestList.List: children arrays are lists of account ids; the shared node objects of the response are counted by writing them out to any depth.
- Forest.RunKeepsForest: sequential; concurrent re-parenting takes no lock in the source.
- SubledgerReports.GetAging: contacts come in table order, not by name.
- MonthlyReports.CategoryBreakdown: both dates given; the open-ended forms, percentages and colours are not modelled.
- The range of DECIMAL(14,2) columns and the precision of decimal division: amounts are unbounded integers.
- The choice of the default income or expense account: a parameter of the invoice request.
- Overdue and due-soon lists, contact detail, general ledger listing, transaction lists, savings dashboard figures, pace and trend labels, percentages, names, notes and colours: presentation over the same figures.
- The deletion of goals without entries, of contacts and of whole workspaces by an administrator.
- Assets and referral payouts: the same claim-under-lock pattern as savings; a posting they own carries the `owned` mark.
- Per-user caps, the streak and the week chart of skills; books, habits and to-dos.
- Controllers, guards, DTO decorators, audit-log rows, mail, uploads, authentication and encryption: input, output or opaque libraries. Amounts reach the services positive where their DTOs demand it.
