# Affluena: a verified model of its ledger

Affluena keeps personal finances: wallets and the transactions that move them, recurring rules that
post transactions on a schedule, categories and the budgets over them, debts, split bills,
installments and shared goals. This project models that core in Dafny and proves what the code is
for: that balances are explained by the rows, that concurrent workers do not repeat or lose work,
that the category hierarchy stays a forest, and that every money lifecycle agrees with the wallets.

Check everything with `dafny verify dfyconfig.toml`.

## Layout

- `Common`, `Sums`: shared vocabulary; totals over finite tables.
- `Ledger`, `LedgerRuns`, `LedgerBounds`: what each call does to the tables, whole runs and totals,
  64-bit arithmetic. `TransactionRepository`: the same calls statement by statement on a mutable
  database. `LedgerSessions`: concurrent calls under row locks, one statement at a time, while access
  and reference data change. `SearchPattern`: the free-text filter.
- `Calendar`, `Schedule`: the Gregorian calendar in UTC, clamped month steps, occurrences.
  `Recurring`, `RecurringRepository`, `RecurringWorkers`: rules, the scheduler's loop, and any number
  of schedulers, manual runs, edits and ledger calls side by side.
- `CategoryForest`, `Categories`, `CategoryRepository`: walks, cycles and depths; the calls and their
  runs; the queries as loops. `CategoryOverlap`: moves whose checks and writes overlap. `Rollup`,
  `Spending`, `Forecast`: the recursive rollup, what it attributes to budgets and to the distribution,
  the integer forecast.
- `Debts`, `DebtRepository`, `DebtRuns`, `DebtStatuses`, `DebtCash`, `SplitBill`: the payment state
  machine, its calls, interleavings, what they do to statuses, cash conservation, and split expenses.
- `Installments`, `InstallmentRepository`, `InstallmentRuns`, `Goals`, `Alerts`, `Migration`, `Decimal`,
  `IsoWeek`, `Money`: the remaining lifecycles, protocols and formatters.

## How it is modelled

A table is a map from key to row. A call that fails rolls back, which is to leave the tables as they
were. Amounts are mathematical integers, except where the code's 64-bit arithmetic is the point:
transaction deltas, split sums, installment products, the numeral and rupiah formatters. Instants
count nanoseconds from year 1 in UTC, so that the zero instant is zero; days are counted by recursion
rather than by division. Fresh identifiers, the present time and the outcome of outside calls are
parameters. What the tables' CHECK and foreign-key constraints guarantee of stored rows is an invariant
or, where a loop relies on it, a precondition. A statement that waits for a lock is a step that does
nothing until the lock is free, and a deadlocked session is one that aborts.

Debt payments, goal answers, installment payments and the execution of a locked recurring rule are
single steps of their state machines: they hold row locks throughout. A debt update is two steps,
because it reads its row without a lock. A category call is one step in `Categories`; its checks and
its write are separate statements in the code, and `CategoryOverlap` takes them apart.

## Where the code differs from what is said of it

- The repository's own `README.md`, line 451, limits category trees to three levels. The depth check
  looks only at the new parent's chain, so moving a category that has descendants can exceed the
  limit: `Categories.MoveCanMakeFourLevels`; `Categories.ShallowAfterMoveIff` says exactly when.
- The cycle check of a move and its write are separate statements, so two moves can close a cycle:
  `CategoryOverlap.OverlappingMovesCanClose`, exactly when in `CategoryOverlap.OverlappingMovesIff`.
- Access withdrawn while a transaction call is in progress does not stop its commit:
  `LedgerSessions.WithdrawnAccessIsUsed`; the books balance all the same, and the calls are serial
  exactly when `LedgerSessions.InterleavingIsSerial` says.
- Clamped month steps preserve the order of days but not of instants: `Calendar.AddMonthsCanSwap`,
  exactly when in `Calendar.AddMonthsMonotoneIff`.
- A transfer whose amount and fee overflow 64 bits pays its source wallet:
  `LedgerBounds.OverflowingTransferPaysTheSource`, exactly when in `LedgerBounds.DeltasExactIff`.
- The split-bill guard sums shares unchecked: `SplitBill.WrappedSumCanPass`, exactly when in
  `SplitBill.GuardIsExactIff`.
- `itoa` yields a bare minus sign for the least 64-bit integer: `IsoWeek.Itoa`.
- A debt update can overwrite the status of a payment made between its read and its write:
  `DebtStatuses.LateWriteCanReopen`, exactly when in `DebtStatuses.LateWriteIff`.
- A budget alert whose check claims it and then leaves, because the address lookup fails or the server
  stops, keeps its mark and is never sent: `Alerts.LeavingOrphans`, exactly when in
  `Alerts.NeverDeliveredIff`.

## Model

| member | source | states |
|---|---|---|
| `Ledger.BalanceDeltas` | internal/transaction/service.go:46-99 | an input is turned into deltas exactly when it meets every rule of its type |
| `Ledger.DeltasAreEffect` | internal/transaction/service.go:46-99 | the deltas of a stored row, read back as an input, move each wallet by the row's effect and name exactly the wallets the row touches |
| `Ledger.ReversalCancels` | internal/transaction/repository.go:378-384 | reversed deltas undo the original ones on every wallet |
| `Ledger.DeltasAreReversible` | internal/transaction/repository.go:353-384 | the reversal can be applied exactly when the user may write every wallet of the row |
| `Ledger.CheckedRefsCoverDeltas` | internal/transaction/repository.go:306-321 | once the references are checked, applying the deltas cannot meet a wallet the user may not write |
| `Ledger.PostedRowIsSound` | internal/transaction/repository.go:87-106 | a posted row is valid, allowed by the table's constraints, and touches only wallets its writer may move |
| `Ledger.CreateKeepsBalanced` | internal/transaction/repository.go:87-106 | creating keeps every balance equal to its opening plus the effects of the live rows |
| `Ledger.UpdateKeepsBalanced` | internal/transaction/repository.go:181-226 | updating keeps every balance equal to its opening plus the effects of the live rows |
| `Ledger.DeleteKeepsBalanced` | internal/transaction/repository.go:228-259 | deleting keeps every balance equal to its opening plus the effects of the live rows |
| `LedgerRuns.RunKeepsLedger` | internal/transaction/repository.go:70-259 | over any sequence of calls, failing ones included, each balance is the opening balance plus the effects recomputed from the live rows |
| `LedgerRuns.EffectsAddUpToNet` | internal/transaction/service.go:46-99 | over all wallets together a row moves its net amount: a transfer only its fee |
| `LedgerRuns.LedgerConservesMoney` | internal/transaction/service.go:46-99 | the money in all wallets is the openings plus incomes less expenses plus adjustments less transfer fees |
| `LedgerRuns.RunConservesMoney` | internal/transaction/repository.go:70-259 | the same total after any run |
| `LedgerRuns.OnlyRecordersMoveMoney` | internal/transaction/repository.go:353-401 | a call moves a balance only for the wallet's owner or a joined member with the writing role, and changes or removes only the caller's rows |
| `LedgerRuns.DeleteUndoesCreate` | internal/transaction/repository.go:228-259 | deleting what was just created restores every table |
| `LedgerRuns.UpdateUndoesUpdate` | internal/transaction/repository.go:181-226 | writing the old contents back, if they could still be posted, restores every table |
| `TransactionRepository.TransactionRepository.UniqueTagIDs` | internal/transaction/repository.go:516-530 | the distinct tags in order of first occurrence |
| `TransactionRepository.TransactionRepository.EnsureTags` | internal/transaction/repository.go:424-442 | the count comparison accepts exactly when the user owns every tag |
| `TransactionRepository.TransactionRepository.ApplyDeltas` | internal/transaction/repository.go:353-376 | all wallets are moved by the summed deltas, or some wallet is not writable |
| `TransactionRepository.TransactionRepository.ReverseDeltas` | internal/transaction/repository.go:378-384 | the loop builds the negated list in order |
| `TransactionRepository.TransactionRepository.CreateInTx` | internal/transaction/repository.go:87-106 | succeeds exactly when references, input and constraints allow it, and then has moved the wallets and stored the row |
| `TransactionRepository.TransactionRepository.Create` | internal/transaction/repository.go:70-85 | commits the created row or leaves every table as it was |
| `TransactionRepository.TransactionRepository.Update` | internal/transaction/repository.go:181-226 | the stored deltas are reversed and the new ones applied, or every table is as it was; a foreign row is forbidden, a missing one not found |
| `TransactionRepository.TransactionRepository.Delete` | internal/transaction/repository.go:228-259 | the stored deltas are reversed and the row removed, or every table is as it was; retained rows stay |
| `LedgerSessions.CommitIsSerial` | internal/transaction/repository.go:181-259 | a finished call would succeed on the committed tables exactly when its user has kept the access it used, and its commit then does what the whole call would do in one piece |
| `LedgerSessions.InterleavingKeepsLedger` | internal/transaction/repository.go:181-304 | whatever the interleaving of statements with each other and with changes of wallets, shares, categories, tags and pinned rows, the tables are the committed rows put in place in commit order, and the books balance |
| `LedgerSessions.InterleavingIsSerial` | internal/transaction/repository.go:181-304 | run in commit order with the changes between them, the committed calls all succeed and give the committed tables if and only if no call was committed after its user lost access it had used |
| `LedgerSessions.SerialUnlessWithdrawn` | internal/transaction/repository.go:181-304 | in particular they are serial when no change takes from a call in progress what it has used |
| `LedgerSessions.WithdrawnAccessIsUsed` | internal/transaction/repository.go:353-376 | the interleaving that is not serial: access withdrawn after the statements ran does not stop the commit |
| `LedgerSessions.NeverReversedTwice` | internal/transaction/repository.go:228-304 | no row is taken back again after a committed delete unless it was created anew |
| `LedgerSessions.SucceedingCallCanCommit` | internal/transaction/repository.go:70-259 | every call that succeeds in one piece can be carried statement by statement to its commit |
| `LedgerBounds.DeltasExactIff` | internal/transaction/service.go:46-99 | the 64-bit deltas are exact if and only if a transfer's amount and fee together do not exceed 2^63 |
| `LedgerBounds.ReversalExactIff` | internal/transaction/repository.go:378-384 | the 64-bit reversal is exact if and only if the charge stays below 2^63 and no adjustment is the least integer |
| `LedgerBounds.OverflowingTransferPaysTheSource` | internal/transaction/service.go:70-90 | the input on which the unchecked sum goes wrong: the source wallet is paid |
| `SearchPattern.EscapedIsLiteral` | internal/transaction/repository.go:54-64 | an escaped term matches exactly itself, whatever pattern follows |
| `SearchPattern.SearchIsSubstring` | internal/transaction/repository.go:46-64 | a column passes the filter if and only if the term occurs in it as a contiguous piece |
| `Calendar.AddMonthsMeaning` | internal/caldate/month.go:5-16 | the month moves by exactly the number given, the time of day stays, the day is clamped to the target month's last |
| `Calendar.AddMonthsMonotoneIff` | internal/caldate/month.go:5-16 | two instants keep their order unless clamping puts them on one day with their times of day the wrong way round; calendar days always keep it |
| `Calendar.AddMonthsCanSwap` | internal/caldate/month.go:5-16 | two instants whose order one month step reverses |
| `Calendar.AddMonthsIncreases` | internal/caldate/month.go:5-16 | a step of at least one month goes forward in time |
| `Calendar.OrbitMeaning` | internal/caldate/month.go:5-16 | after k steps of m months the month has moved by k*m and the day is the least of the start day and every visited month's length |
| `Calendar.OrbitBelowJump` | internal/caldate/month.go:5-16 | stepping never overtakes the direct jump |
| `Schedule.AdvanceNextRunAt` | internal/recurring/service.go:32-45 | a next instant exists exactly for a positive interval and a known frequency |
| `Schedule.NextIsLater` | internal/recurring/service.go:32-45 | every step goes forward in time |
| `Schedule.MonthlyOccurrences` | internal/recurring/service.go:32-45 | a monthly rule visits the clamped month orbit |
| `Schedule.NextWeekly` | internal/recurring/service.go:32-45 | a weekly step is a whole number of weeks at the same time of day |
| `Schedule.AdvancePast` | internal/recurring/service.go:47-57 | terminates at the first occurrence after now, or reports the invalid cadence |
| `Schedule.FirstAfterIsEarliest` | internal/recurring/service.go:47-57 | that occurrence is the least element of the orbit after now |
| `Recurring.Validate` | internal/recurring/repository.go:355-391 | an input is accepted exactly when name, cadence, status, end and transaction are valid, and the stored rule is then in order |
| `Recurring.AdvanceMovesOneStep` | internal/recurring/service.go:59-70 | advancing moves a rule one step of its orbit and cancels it once the next instant is past its end |
| `Recurring.ChainIsOrbit` | internal/recurring/service.go:32-45 | instants linked step by step are the rule's orbit |
| `RecurringWorkers.AtMostOncePerOccurrence` | internal/recurring/repository.go:150-336 | in every interleaving no occurrence posts a second ledger transaction, every run belongs to a posted one, and the books balance |
| `RecurringWorkers.ExecutedIsGapFreePrefix` | internal/recurring/repository.go:250-336 | a rule's executed instants are those before its last edit, none if never edited, plus a gap-free prefix of its orbit; its next run follows, and an active rule's is not past its end |
| `RecurringWorkers.FinishMovesLedgerOnce` | internal/recurring/repository.go:250-320 | a finished run moves the ledger by the one call it records, or by nothing |
| `RecurringWorkers.SettleKeepsHolds` | internal/recurring/repository.go:192-248 | a rule locked by a worker stays as that worker read it |
| `RecurringRepository.RecurringRepository.AdvanceLockedRule` | internal/recurring/repository.go:322-336 | writes the rule one step further, or nothing when the cadence is invalid |
| `RecurringRepository.RecurringRepository.ExecuteLocked` | internal/recurring/repository.go:250-320 | refuses, passes over an executed occurrence, or posts, records and advances |
| `RecurringRepository.RecurringRepository.RunManual` | internal/recurring/repository.go:150-169 | commits only an occurrence that runs now; an executed or refused one leaves the tables alone |
| `RecurringRepository.RecurringRepository.RunOneDue` | internal/recurring/repository.go:192-232 | takes an earliest due rule; commits a run and also the passing over of an executed occurrence, rolls back a failure |
| `RecurringRepository.RecurringRepository.RunDue` | internal/recurring/repository.go:171-190 | terminates; every turn took the earliest due rule and used up one due occurrence; runs come out in order of their instants; below the limit without failure nothing is due; a failure is that of an earliest due rule |
| `RecurringRepository.BacklogDrops` | internal/recurring/repository.go:171-232 | one turn lowers the number of due occurrences left by exactly one |
| `RecurringRepository.EarliestExists` | internal/recurring/repository.go:199-210 | if anything is due there is an earliest due rule |
| `RecurringRepository.TurnMakesProgress` | internal/recurring/repository.go:171-232 | a turn keeps the emitted runs in order and uses up one due occurrence |
| `CategoryForest.WalkEnds` | internal/category/repository.go:191-204 | in a forest every upward walk ends within as many steps as there are categories |
| `CategoryForest.CycleIffReached` | internal/category/repository.go:220-254 | giving a category a parent keeps the relation acyclic if and only if the category is not on the walk from that parent |
| `CategoryForest.DepthAfterMove` | internal/category/repository.go:184-218 | after a move the category is one below its parent and every descendant keeps its distance to it |
| `CategoryForest.DepthUnchanged` | internal/category/repository.go:184-218 | categories whose chain avoids the moved one keep their depth |
| `Categories.CreateKeepsForest` | internal/category/usecase.go:31-46 | an accepted create keeps owner, type and acyclicity of every parent reference |
| `Categories.UpdateKeepsForest` | internal/category/usecase.go:59-77 | an accepted update keeps owner, type and acyclicity of every parent reference |
| `Categories.DeleteKeepsForest` | internal/category/repository.go:144-156 | deleting a childless category keeps the forest |
| `Categories.ReorderKeepsForest` | internal/category/repository.go:119-142 | reordering changes no chain and no depth |
| `Categories.CreateStaysShallow` | internal/category/usecase.go:31-46 | an accepted create keeps every depth within three |
| `Categories.MoveShiftsSubtree` | internal/category/usecase.go:59-77 | a move puts the category itself within three levels and shifts every descendant by the same amount |
| `Categories.ShallowAfterMoveIff` | internal/category/repository.go:184-218 | a move keeps the whole forest within three levels if and only if the moved subtree fits below its new parent |
| `Categories.MoveCanMakeFourLevels` | internal/category/repository.go:184-218 | an accepted move after which a category is at depth four |
| `Categories.RunWithoutMovesIsShallow` | internal/category/usecase.go:31-46 | without moves no run makes a category deeper than three |
| `Categories.Run` | internal/category/usecase.go:31-100 | every reachable hierarchy is a forest of same-owner, same-type trees |
| `CategoryOverlap.ForestIffInTime` | internal/category/usecase.go:59-77 | with the checks and the write of a move apart and other calls in between, the hierarchy is a forest all through a run if and only if every move writes while its category is not on the walk from its new parent |
| `CategoryOverlap.OverlappingMovesIff` | internal/category/usecase.go:59-77 | two moves checked on one forest and then both written close a cycle if and only if the walk from each new parent meets the other moved category |
| `CategoryOverlap.SameCategoryMoves` | internal/category/usecase.go:59-77 | two overlapping moves of one category never close a cycle |
| `CategoryOverlap.OverlappingMovesCanClose` | internal/category/usecase.go:59-77 | the input: of two roots each is moved under the other, both are accepted, and they close a cycle |
| `CategoryRepository.CategoryRepository.CheckDepth` | internal/category/repository.go:184-218 | the counting loop refuses exactly parents at depth three or more |
| `CategoryRepository.CategoryRepository.CheckCycle` | internal/category/repository.go:220-254 | the loop over the chain refuses exactly parents from which the category is reached |
| `CategoryRepository.CategoryRepository.AppendPosition` | internal/category/repository.go:24-30 | the next position is one past the user's greatest, or zero |
| `CategoryRepository.CategoryRepository.Create` | internal/category/usecase.go:31-46 | the first failing check decides the error; otherwise the category is appended and the forest kept |
| `CategoryRepository.CategoryRepository.Update` | internal/category/usecase.go:59-77 | the first failing check, in the order type, cycle, parent, depth, decides the error; otherwise exactly that row changes |
| `CategoryRepository.CategoryRepository.Delete` | internal/category/repository.go:144-156 | only an owned category that nothing refers to is deleted |
| `CategoryRepository.CategoryRepository.Reorder` | internal/category/usecase.go:79-92 | succeeds exactly for distinct owned ids, and then each has its index as position; otherwise nothing changes |
| `Rollup.TimesJoined` | internal/budget/repository.go:43-46 | the recursive join yields a category once for every occurrence of its parent |
| `Rollup.CategoryTree` | internal/budget/repository.go:39-47 | the iterated join terminates and yields each category with each seed at or above it exactly once |
| `Spending.SpentIsSubtreeSum` | internal/budget/repository.go:38-62 | a budget's spent amount is the sum of the expenses in its category's subtree, none counted twice |
| `Spending.SummaryCountsCovering` | internal/dashboard/repository.go:82-114 | the summary over all budgets counts an expense once for every budgeted category at or above its own |
| `Spending.OneGroupEach` | internal/dashboard/repository.go:288-314 | every expense joins exactly one group, its root or the uncategorized one |
| `Spending.GroupAmount` | internal/dashboard/repository.go:299-314 | a group's amount is the sum of the expenses whose root it is |
| `Spending.DistributionAddsUp` | internal/dashboard/repository.go:288-360 | the distribution's rows, the uncategorized one included, add up to the forecast's current expense |
| `Forecast.ElapsedRange` | internal/dashboard/repository.go:368-388 | the days elapsed lie between one and the month's length, so the guard against zero never applies |
| `Forecast.ForecastIsProportional` | internal/dashboard/repository.go:390-391 | the integer forecast is the proportional one, less than one unit a day too low and never too high |
| `Forecast.PastForecast` | internal/dashboard/repository.go:373-391 | for a month that is over the forecast is what was spent, short by less than one unit a day |
| `Debts.ResolveStatus` | internal/debt/service.go:66-88 | resolves exactly for valid amounts and a status that is unset, cancelled or the one the amounts call for |
| `Debts.PaymentTaken` | internal/debt/service.go:90-105 | a payment is taken exactly when the debt runs, its status fits and the amount is within what remains; the last one settles it |
| `Debts.MismatchIff` | internal/debt/service.go:79-81 | a payment is refused for a status mismatch exactly when the stored status does not fit the amounts |
| `Debts.PayKeepsDebts` | internal/debt/repository.go:208-277 | paying keeps every paid amount equal to the sum of its recorded payments |
| `DebtRuns.PaidIsSumOfPayments` | internal/debt/repository.go:161-277 | in every interleaving of payments, two-step updates and cancellations the paid amount is the sum of the payments, between zero and the principal |
| `DebtStatuses.FitIffInTime` | internal/debt/repository.go:161-277 | statuses fit the amounts all through a run if and only if every update in it writes in time: it cancels, or the amounts still call for the status they called for when it read |
| `DebtStatuses.MismatchIffLate` | internal/debt/repository.go:161-277 | after writes in time no payment is refused for a mismatch; after the first late write every payment of that debt is |
| `DebtStatuses.NoMismatchInTime` | internal/debt/repository.go:161-277 | in a run whose updates all write in time the status always fits, and no payment is refused for a mismatch |
| `DebtStatuses.NoMismatchWhenAtomic` | internal/debt/repository.go:161-277 | in particular if every update reads and writes at once |
| `DebtStatuses.StageMovesIff` | internal/debt/repository.go:208-277 | between any two moments a debt is at another stage if and only if some payment of it moved it there: stages do not come back |
| `DebtStatuses.LateWriteIff` | internal/debt/repository.go:161-188 | an update that reads in any reachable state and writes after any further steps leaves the status fitting if and only if it cancels the debt or no payment in between moved the debt to another stage |
| `DebtStatuses.LateWriteCanReopen` | internal/debt/repository.go:161-188 | the run of three steps, read, payment in full, write, after which a paid debt is open and its next payment is refused |
| `DebtCash.PaymentsMoveWallet` | internal/debt/repository.go:231-255 | a debt's payments have moved its wallet by the paid amount, in or out by type, and no other wallet |
| `DebtCash.CashIsOutstanding` | internal/debt/repository.go:42-102 | with unedited transactions a debt has moved its wallet by what is outstanding, nothing once it is paid off |
| `DebtCash.RunKeepsLedger` | internal/debt/repository.go:25-277 | the books balance through every interleaving of debt calls and other ledger calls |
| `DebtRepository.DebtRepository.CreateInTx` | internal/debt/repository.go:42-102 | succeeds exactly when type, principal, category, origination and references allow it, and then has posted or shared the origination and stored an open debt |
| `DebtRepository.DebtRepository.Create` | internal/debt/repository.go:25-40 | commits the debt with its origination or leaves every table as it was |
| `DebtRepository.DebtRepository.Pay` | internal/debt/repository.go:208-277 | posts, records and advances together, or leaves every table as it was with the reason |
| `DebtRepository.DebtRepository.Update` | internal/debt/repository.go:161-188 | changes labels and status only, and the status only to one the amounts allow |
| `DebtRepository.DebtRepository.Delete` | internal/debt/repository.go:193-206 | cancels the debt and touches nothing else |
| `SplitBill.GuardIsExactIff` | internal/splitbill/usecase.go:63-74 | the unchecked sum decides as the exact one if and only if it fits 64 bits or wraps to more than the total |
| `SplitBill.SplitAcceptedIff` | internal/splitbill/usecase.go:63-118 | a split is committed if and only if its shares are positive, their wrapped sum is within the total, the expense can be posted and every share can be recorded as a debt of its own |
| `SplitBill.WrappedSumCanPass` | internal/splitbill/usecase.go:63-74 | shares that exceed a total of one, pass the guard because their sum wraps, and are committed |
| `SplitBill.SplitBillUseCase.SumShares` | internal/splitbill/usecase.go:63-70 | the loop refuses a non-positive share and otherwise yields the wrapped sum |
| `SplitBill.SplitBillUseCase.CreateShares` | internal/splitbill/usecase.go:99-118 | one receivable debt for each share, stopping at the first refused |
| `SplitBill.SplitBillUseCase.SplitExpense` | internal/splitbill/usecase.go:63-131 | the expense and every share are committed together, or the whole state is unchanged |
| `SplitBill.SplitCostsTheRest` | internal/splitbill/usecase.go:76-118 | after any later calls that leave the split's transactions unedited the payer is out the total less what was repaid: the total less the shares once all are repaid |
| `IsoWeek.WindowIsTheCompletedWeek` | internal/notification/scheduler.go:133-144 | the window is the one Monday-to-Monday week that ended last |
| `IsoWeek.WeekNumberRange` | internal/notification/scheduler.go:141-143 | week numbers lie between 1 and 53 |
| `IsoWeek.WeekNumberInjective` | internal/notification/scheduler.go:141-143 | two weeks of one ISO year and number are the same week |
| `IsoWeek.KeyInjective` | internal/notification/scheduler.go:146-154 | the key determines year and week |
| `IsoWeek.KeyShape` | internal/notification/scheduler.go:146-154 | a key is the year, -W and the week in two digits |
| `IsoWeek.KeyNamesTheWindow` | internal/notification/scheduler.go:133-144 | the key names the year holding the Thursday of the window and counts its Thursdays up to it |
| `IsoWeek.OneKeyPerWeek` | internal/notification/scheduler.go:133-154 | two summaries share a key if and only if they cover the same week |
| `IsoWeek.Itoa` | internal/notification/scheduler.go:157-177 | the decimal numeral of every 64-bit integer but the least, for which it is a bare minus sign |
| `Money.FormatRoundTrip` | internal/pkg/money/format.go:13-52 | dropping the dots and parsing gives back every amount |
| `Money.DotsEveryFourth` | internal/pkg/money/format.go:25-51 | dots stand at every fourth place from the right and never in front: groups of three, the first of one to three digits |
| `Money.Absolute` | internal/pkg/money/format.go:13-22 | the magnitude is computed without overflow even for the least integer |
| `Money.GroupIDR` | internal/pkg/money/format.go:13-52 | writes exactly the grouped text for every 64-bit amount |
| `Money.Grouping` | internal/pkg/money/format.go:26-51 | the result is the grouped text, no longer than the reserved capacity |
| `Migration.Runner.Migrate` | internal/db/migrate.go:45-77 | a run that may fail at any statement commits a prefix of what was pending, each with its record; a successful one records every file |
| `Migration.ExactlyOnce` | internal/db/migrate.go:16-78 | across concurrent failing runs every migration takes effect at most once and exactly when recorded; each run leaves a prefix of what was pending, a successful one everything |
| `Migration.PendingIsPrefix` | internal/db/migrate.go:43-53 | what a stopped run has added is a prefix, in file order, of what was pending |
| `Migration.RecordedStays` | internal/db/migrate.go:16-78 | recorded versions are never lost |
| `Alerts.Thresholds` | internal/alert/usecase.go:95-112 | exceeded means the whole limit is spent, warning at least four fifths of it but not all |
| `Alerts.RoundingIsHarmless` | internal/alert/usecase.go:95-112 | rounding the ratio and the constant to the nearest doubles changes no alert for limits up to 2^53 |
| `Alerts.AlertRepository.TryInsertSentAlert` | internal/alert/repository.go:54-64 | marks the alert and tells whether it was unmarked before |
| `Alerts.AlertRepository.CheckBudgetAndAlert` | internal/alert/usecase.go:67-175 | an email goes out exactly for a due, allowed, unmarked alert whose calls work; the mark stays unless the email failed and unclaiming worked |
| `Alerts.AtMostOneEmail` | internal/alert/usecase.go:132-175 | in every interleaving at most one sender and at most one successful email per alert |
| `Alerts.MarkStaysAfterSuccess` | internal/alert/usecase.go:132-175 | after a success the mark is never removed |
| `Alerts.FailedSendIsRetried` | internal/alert/usecase.go:167-171 | a failed send whose unclaiming works makes the alert claimable again |
| `Alerts.MarkIsAccounted` | internal/alert/usecase.go:132-175 | in every reachable state an alert is marked if and only if its email went out, a check is about to send it, or its claim was abandoned, and only one of the three holds |
| `Alerts.ClaimEnds` | internal/alert/usecase.go:132-175 | a claim ends with its alert delivered or claimable again if and only if it ends in a send that works or in taking the mark back |
| `Alerts.OrphanedMarkStays` | internal/alert/usecase.go:150-155 | whatever happens later, an abandoned alert stays marked, is never delivered and cannot be claimed |
| `Alerts.LeavingOrphans` | internal/alert/usecase.go:150-155 | the run: a check claims an alert and leaves without sending, and the alert is lost |
| `Alerts.NeverDeliveredIff` | internal/alert/usecase.go:132-175 | after any run no continuation delivers an alert if and only if a claim of it was abandoned |
| `Installments.PlanIsExact` | internal/tracker/service.go:65-81 | the division guard accepts if and only if the exact product is the total |
| `Installments.PaymentsUntilPaidOff` | internal/tracker/service.go:39-52 | an active plan takes exactly as many payments as months are left, the last paying it off |
| `InstallmentRuns.ChargesItsTotal` | internal/tracker/installment_repository.go:144-202 | over any run, as long as no ledger call changes what a plan posted since it was last written, those transactions have taken the monthly amount from its wallet for every month counted down and nothing from any other, and the recorded payments say the same; a full-tenor plan is paid off by exactly the tenor-th |
| `InstallmentRuns.PaidOffTookItsTotal` | internal/tracker/installment_repository.go:144-202 | a plan that started with its full tenor and is paid off has taken exactly its total from its wallet |
| `InstallmentRuns.RunKeepsLedger` | internal/tracker/installment_repository.go:144-202 | the books balance through every run |
| `Installments.WritableIsOk` | internal/tracker/service.go:83-108 | a plan that passes the checks has exact amounts, months within its tenor and a fitting status |
| `InstallmentRepository.InstallmentRepository.Create` | internal/tracker/installment_repository.go:24-51 | stores the plan, active by default, exactly when the checks pass |
| `InstallmentRepository.InstallmentRepository.Update` | internal/tracker/installment_repository.go:107-131 | rewrites an owned plan exactly when the checks pass and the status is set |
| `InstallmentRepository.InstallmentRepository.Pay` | internal/tracker/installment_repository.go:144-202 | posts one month's expense, records it and counts down together, or leaves every table as it was |
| `Goals.GoalRepository.CreateWithOwnerWallet` | internal/goal/repository.go:32-53 | goal, joined owner and goal wallet together, or nothing |
| `Goals.GoalRepository.CreateGoalWallet` | internal/goal/repository.go:285-291 | inserts the wallet exactly when its name is free |
| `Goals.GoalRepository.AddMember` | internal/goal/repository.go:170-182 | sets the status except that a joined member stays joined |
| `Goals.GoalRepository.InviteMember` | internal/goal/usecase.go:60-84 | only the owner invites, and not themselves; others who see the goal are not authorised, and to the rest it does not exist; a joined member stays joined |
| `Goals.GoalRepository.RespondInvite` | internal/goal/repository.go:184-239 | only a pending invitation can be answered; joining brings the goal wallet or fails as a whole |
| `Goals.OneWalletIffJoined` | internal/goal/repository.go:32-53 | in every reachable state a user has exactly one goal wallet for a joined goal and none otherwise |
| `Goals.JoinedForever` | internal/goal/repository.go:170-239 | joined is terminal, and its wallet stays |
| `Goals.GoalWalletsStay` | internal/wallet/usecase.go:63-94 | no call removes a goal wallet or changes its owner |
| `Goals.RejectedNeedsNewInvite` | internal/goal/repository.go:170-239 | a rejected invitation changes only through a new invitation, and then to pending |

## Left out

- HTTP handlers, routing, JSON binding, error-to-status mapping, configuration, CSV export and mail bodies.
- Deleting a user, which removes transactions without reversing balances and so is outside the ledger
  invariant (`internal/auth/repository.go`), and the seeding command, which writes rows without moving balances.
- Invitations to wallets and account-level share links: shares are only the ledger's access relation.
- Authentication, sessions, random tokens and rate limiting.
- Listing, pagination and sorting, whose orders are not total.
- Floating-point figures: usage percentages and the budget report.
- Subscriptions and quick-entry templates, whose rules are simpler instances of those modelled.
- The transaction_tags rows and their synchronisation: a row carries its distinct tags in order of first occurrence.
- Time zones other than UTC, daylight saving, and integer overflow of very long recurring intervals.
- Table rows as separately mutable objects: the classes reassign whole tables held in their fields.
- RecurringWorkers.AtMostOncePerOccurrence: a run keeps the identifier of the transaction it posted even after that transaction is deleted, where the table sets it to null.
- RecurringRepository.RecurringRepository.RunDue: states the order of runs for one scheduler working alone; with several, each skips rules the others hold.
- Categories.Run: one call is one step; what overlapping moves do is in CategoryOverlap, which leaves the answer of the depth check open.
- Alerts.Thresholds: the ratio is exact; RoundingIsHarmless covers its rounding for limits up to 2^53, and amounts above that, which no longer convert exactly, are covered by neither.
- Rollup.CategoryTree: rows are compared by how often they occur; their order is left open, as in the query.
- DebtCash.CashIsOutstanding: says nothing of debts whose transactions a user has edited, which the code allows.
- InstallmentRuns.ChargesItsTotal: says nothing of plans whose posted transactions a ledger call has changed or removed, which the code allows.
- Goals.OneWalletIffJoined: deleting a user, which detaches other members' goal wallets, is not among the calls.
- Migration.ExactlyOnce: each file's SQL is taken to be transactional, and the list of files the same for every run.
- Notes posted with debts are modelled; activity logging is not.
