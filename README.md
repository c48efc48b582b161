# Banking system core, modelled in Dafny

This project models the core of a small console banking system written in C++:

- the **transaction ledger**. A `TransactionManager` keeps every monetary movement in a map from transaction id to a `Transaction` record. It also keeps three secondary multimaps, keyed by account number, by customer id and by date, and an integer counter for new ids. It records deposits, withdrawals, fees, interest and two-leg transfers. It updates, reverses and finds entries. It answers filtered and sorted queries and computes per-account and system-wide totals. It rebuilds and prunes its indices.
- the **account balance rules** of savings and checking accounts: minimum balance, withdrawal cap, overdraft limit and the per-transaction fee.
- the **customer** record: the list of the customer's accounts, PIN verification and change through a hash, validated contact updates, and deactivation.
- the **validators and the PIN hash** of the utilities unit.

How the source is modelled:

- **Functions and lemmas over values.** Pure C++ code is a function. Each operation that changes state also has a specification function over a value: `LedgerSpec.Ledger`, `Accounts.AccountRecord`, `Customers.CustomerRecord`. The lemmas state the operation's properties about that function.
- **Classes for objects.** Each C++ object that changes its fields is a class with those fields: `LedgerManager.TransactionManager`, `Accounts.Account`, `Customers.Customer`.
  - Each state-changing method ensures that its result and new state are what the specification function gives for the old state.
  - Each query method ensures that it returns what the query's function gives.
  - Loops in the source are loops in the methods, with invariants.
- **Containers.**
  - A `std::map` is a Dafny `map`. Its iteration order is `StdMap.OrderedKeys`: the keys in strictly increasing lexicographic order.
  - A `std::multimap<string, string>` is a `map<string, seq<string>>`. Each key's ids stay in insertion order, so `emplace` appends.
  - `std::sort` is `TxnOrder.Sort`, an insertion sort. Its contract states that the result is sorted by the comparator and is a permutation of the input. Its body is stable, so a query defined with it keeps entries that compare equal in the order they were visited. That is one of the orders `std::sort` may produce.
- **Values.** Money is `real`. The clock is a parameter (`now`, `today`). String `<` is `StdString.LexLess`.

Where the code behaves oddly, the model does what the code does, and a comment says so.
- **Reversing a transfer.** `reverseTransaction` calls `processTransfer` in the same direction as the original leg. It returns `true` exactly when that call returned `""`, that is, when the transfer failed.
- **The reversal entry.** The compensating entry keeps the original's balances.
- **Field defaults.** The getters' defaults, such as "N/A", are written into stored data.
- **Cleanup.** `cleanupOldTransactions` ignores `daysOld`, cuts off at "now", and erases whole key groups from the indices.
- **Balance fallback.** `getBalanceAfter` replaces a stored 0.0 by before + amount.
- **Type query limit.** `getTransactionsByType` returns one entry even for a limit of 0.
- **Negative limits.** A negative limit wraps through `size_t` and so removes the limit.
- **Interest rate.** `calculateInterest` divides a rate that is already a fraction by 100.

Two more behaviours of the code are modelled as written:
- **Analytics date window.** getTotalDeposits, getTotalWithdrawals and getTransactionCount (src/implementation/Transaction.cpp:761-779, 1057-1077, 1090-1105) drop the date filter when either bound is empty, not just on that side.
- **History limit.** getAccountHistory and getCustomerHistory (src/implementation/Transaction.cpp:658-673) keep the first N stored ids of the key in index order, then sort those N by timestamp. They do not pick the newest N.

## Model

| member | source | states |
|---|---|---|
| Transactions.TypeOrdinalBijection | src/headers/Transaction.h:12-22 | The nine transaction types and the ordinals 0..8 correspond one to one, in declaration order. |
| Transactions.StatusOrdinalBijection | src/headers/Transaction.h:25-31 | The five statuses and the ordinals 0..4 correspond one to one. |
| Transactions.GetRelatedAccountNumber | src/implementation/Transaction.cpp:65-73 | The stored related account when non-empty, else "N/A"; never empty. |
| Transactions.GetDescription | src/implementation/Transaction.cpp:93-101 | The stored description when non-empty, else the default text. |
| Transactions.GetCustomerId | src/implementation/Transaction.cpp:125-133 | The stored customer id when non-empty, else "N/A". |
| Transactions.GetSessionId | src/implementation/Transaction.cpp:135-143 | The stored session id when non-empty, else "N/A". |
| Transactions.GetNotes | src/implementation/Transaction.cpp:145-153 | The stored notes when non-empty, else the default text. |
| Transactions.GetBalanceAfter | src/implementation/Transaction.cpp:109-117 | A non-zero stored after-balance is returned as is; a stored 0.0 reads as before + amount. |
| Transactions.EmptiedAccountReadsAsCredit | src/implementation/Transaction.cpp:109-117 | A withdrawal that emptied the account reads as if the balance had gone up by the amount. |
| Transactions.SetStatus | src/implementation/Transaction.cpp:155-176 | The status becomes the one given; no other field changes. |
| Transactions.SetRelatedAccountNumber | src/implementation/Transaction.cpp:178-189 | The related account becomes the text given, empty included; no other field changes. |
| Transactions.SetSessionId | src/implementation/Transaction.cpp:191-202 | The session id becomes the text given; no other field changes. |
| Transactions.SetNotes | src/implementation/Transaction.cpp:204-215 | The notes become the text given; no other field changes. |
| Transactions.SetBalanceAfter | src/implementation/Transaction.cpp:217-228 | A negative balance leaves the record unchanged; otherwise only the after-balance changes. |
| Transactions.TypeString | src/implementation/Transaction.cpp:230-250 | The printed name is "UNKNOWN" exactly for the last three types. |
| Transactions.StatusString | src/implementation/Transaction.cpp:252-266 | The printed status is "UNKNOWN" exactly for CANCELLED and REVERSED. |
| Transactions.NamesDistinguish | src/implementation/Transaction.cpp:230-266 | Two values with the same printed name other than "UNKNOWN" are equal. |
| Transactions.GetNetAmount | src/implementation/Transaction.cpp:280-296 | Credits give +amount, debits -amount, the other three kinds 0. |
| Transactions.CreditDebitPartition | src/implementation/Transaction.cpp:280-296 | No kind is both credit and debit; exactly the last three kinds are neither. |
| Transactions.OperatorsWellBehaved | src/implementation/Transaction.cpp:334-343 | `operator<` is irreflexive and transitive; `operator==` is symmetric and compares ids only. |
| TxnOrder.Sort | src/implementation/Transaction.cpp:669-673 | The result is sorted by the comparator and is a permutation of the input. |
| TxnOrder.BeforeAsymmetric | src/implementation/Transaction.cpp:669-673 | No two entries are each ordered before the other by a sort comparator. |
| TxnOrder.MayPrecedeTransitive | src/implementation/Transaction.cpp:669-673 | Incomparability under each comparator is transitive, as `std::sort` requires. |
| StdMap.OrderedKeysFacts | src/implementation/Transaction.cpp:1221-1224 | A map walk visits every key exactly once, in strictly increasing order. |
| StdString.LexLessTransitive | src/implementation/Transaction.cpp:972 | The string order that keys the maps is transitive. |
| StdString.LexLessTotal | src/implementation/Transaction.cpp:972 | Any two different strings are ordered one way or the other. |
| StdString.NatToStringRoundTrip | src/implementation/Transaction.cpp:782-790 | Reading back the decimal form of a number gives the number. |
| StdString.ZeroPaddedRoundTrip | src/implementation/Transaction.cpp:782-790 | Padding with zeros on the left keeps the digits and their value. |
| StdString.Stoi | src/implementation/Transaction.cpp:629-630 | Returns a value only within the 32-bit int range; no value stands for the exceptions stoi throws. |
| StdString.StoiDigits | src/implementation/Transaction.cpp:629-630 | A run of digits that fits an int, followed by a non-digit or the end, is read as its decimal value. |
| StdString.StoiNegative | src/implementation/Transaction.cpp:629-630 | A leading '-' negates the value, down to INT_MIN. |
| StdString.StoiOutOfRange | src/implementation/Transaction.cpp:629-630 | Digits whose value exceeds INT_MAX make stoi throw. |
| StdString.StoiNoDigits | src/implementation/Transaction.cpp:629-630 | No digit after the leading white space and the optional sign makes stoi throw. |
| LedgerIndex.EmplaceGroups | src/implementation/Transaction.cpp:618-624 | `emplace(k, id)` appends id to k's group; no other group changes. |
| LedgerIndex.MoveToEndGroups | src/implementation/Transaction.cpp:487-516 | Re-filing a status-changed id keeps the key set and each group's multiset of ids, and puts id last in its group. |
| LedgerIndex.EmplaceSound | src/implementation/Transaction.cpp:616-624 | Filing a new entry keeps an index sound. |
| LedgerIndex.EmplaceComplete | src/implementation/Transaction.cpp:616-624 | Filing a new entry keeps an index complete. |
| LedgerIndex.MoveToEndSound | src/implementation/Transaction.cpp:462-516 | Updating an entry in place and moving its id to the end of its group keeps an index sound. |
| LedgerIndex.MoveToEndComplete | src/implementation/Transaction.cpp:462-516 | The same step keeps a complete index complete. |
| LedgerSpec.EmptyLedgerIndexed | src/implementation/Transaction.cpp:350-358 | The freshly constructed ledger (empty maps, counter 1) satisfies the ledger invariant. |
| LedgerSpec.AddAppendsOnePairPerIndex | src/implementation/Transaction.cpp:607-624 | A taken id changes nothing. A new id stores the entry and appends exactly one id to each index under its key: the account, getCustomerId() ("N/A" when empty), and the first 10 characters of the timestamp. |
| LedgerSpec.AddPreserves | src/implementation/Transaction.cpp:607-638 | addTransaction keeps the ledger invariant and index completeness, whatever the outcome. |
| LedgerSpec.AddKeepsStored | src/implementation/Transaction.cpp:609-613 | An entry already stored is never changed by addTransaction. |
| LedgerSpec.RecoveredCounterFacts | src/implementation/Transaction.cpp:625-636 | An id ending in '-' leaves the counter as it is. Otherwise the text after the last '-' goes to stoi. A failed parse gives no counter. A parsed n gives n + 1 when the counter had not passed n, and the counter unchanged otherwise. |
| LedgerSpec.RecoveredCounter | src/implementation/Transaction.cpp:625-636 | The counter never goes down; an id without '-' leaves it as it is. |
| LedgerSpec.AddRecoversCounter | src/implementation/Transaction.cpp:625-636 | Adding a new entry whose id ends in "-<digits>" succeeds, and leaves the counter above that number: at number + 1 if the counter was not already past it. |
| LedgerSpec.AddCounterParseError | src/implementation/Transaction.cpp:616-630 | When the text after the last '-' is not accepted by stoi, the entry ends up stored and filed, the counter is unchanged, and the outcome is the exception. |
| LedgerSpec.IsValidTransactionIdIff | src/implementation/Transaction.cpp:1329-1346 | isValidTransactionId accepts exactly: length at least 15, "TXN" prefix, dashes at positions 7 and 10, and a digit at 13. |
| LedgerSpec.GeneratedIdShape | src/implementation/Transaction.cpp:782-790 | A generated id is "TXN", then the date without dashes, then the counter padded to 3 digits. It has no '-', so the counter recovery never fires for it and isValidTransactionId rejects it. |
| LedgerSpec.FormatIdInjective | src/implementation/Transaction.cpp:782-790 | On one day, two counters give the same id only if they are equal. |
| LedgerSpec.ProcessOutcomes | src/implementation/Transaction.cpp:387-424 | A single-leg operation raises the counter by one. A taken id returns "" and changes nothing else. A new id stores and files a COMPLETED entry of the kind and returns its id. |
| LedgerSpec.ProcessPreserves | src/implementation/Transaction.cpp:387-424 | The single-leg operations keep the invariant and completeness. |
| LedgerSpec.UpdateStatusEffect | src/implementation/Transaction.cpp:460-526 | An unknown id gives false and changes nothing. A known id gets the new status and nothing else in the entry changes. It returns true even when the status is unchanged, and each index keeps its ids under each key. |
| LedgerSpec.UpdateStatusPreserves | src/implementation/Transaction.cpp:460-526 | updateTransactionStatus keeps the ledger invariant and completeness. |
| LedgerSpec.UpdateJustFiled | src/implementation/Transaction.cpp:460-526 | Updating the status of an entry just filed succeeds, sets only that entry's status and leaves every index as it was. |
| LedgerSpec.LegsPaired | src/implementation/Transaction.cpp:431-449 | The legs are TRANSFER_OUT on `from` naming `to` and TRANSFER_IN on `to` naming `from`. They share amount, description and customer, and their net amounts cancel. |
| LedgerSpec.TransferOutLegRejected | src/implementation/Transaction.cpp:433-438 | Out-leg id taken: "" is returned and only the counter moves. |
| LedgerSpec.TransferInLegRejected | src/implementation/Transaction.cpp:439-452 | In-leg id taken: "" is returned, and the out-leg stays stored and filed, marked FAILED. |
| LedgerSpec.TransferCompleted | src/implementation/Transaction.cpp:427-458 | Both ids free: exactly the two COMPLETED legs are added and the out-leg's id is returned. |
| LedgerSpec.TransferReported | src/implementation/Transaction.cpp:427-458 | A non-empty id is returned exactly when both legs were stored, and the TRANSFER_OUT leg is stored under it. |
| LedgerSpec.TransferPreserves | src/implementation/Transaction.cpp:427-458 | processTransfer keeps the invariant and completeness. |
| LedgerSpec.TransferKeepsStored | src/implementation/Transaction.cpp:427-458 | Entries stored before a transfer are unchanged after it. |
| LedgerSpec.ReverseRejected | src/implementation/Transaction.cpp:532-541 | An unknown id or a non-COMPLETED entry gives false and changes nothing. |
| LedgerSpec.ReverseMarks | src/implementation/Transaction.cpp:542-544 | A COMPLETED entry becomes REVERSED with notes "Reversed: <reason>" whatever its kind. |
| LedgerSpec.ReverseDepositOrWithdrawal | src/implementation/Transaction.cpp:547-555 | A deposit or withdrawal gets a compensating entry of the opposite kind under the next id. The result is true exactly when that entry was stored. |
| LedgerSpec.ReversalFields | src/implementation/Transaction.cpp:578-587 | The compensating entry has the same account and amount, the opposite net amount, "Reversal of <id>", COMPLETED, and the original's balances; its related account is "N/A" when the original had none. |
| LedgerSpec.ReverseTransfer | src/implementation/Transaction.cpp:556-570 | A transfer leg is reversed by processTransfer from its own account to its related account, the same direction. The result is true exactly when that call returned "". |
| LedgerSpec.ReverseTransferCall | src/implementation/Transaction.cpp:556-570 | Reversing a transfer leg is the marking followed by processTransfer, with the result replaced by whether that call returned "". |
| LedgerSpec.ReverseUnsupported | src/implementation/Transaction.cpp:571-576 | Any other kind is left REVERSED and false is returned. |
| LedgerSpec.ReversePreserves | src/implementation/Transaction.cpp:530-604 | reverseTransaction keeps the invariant and completeness. |
| LedgerQueries.IndexHistoryShape | src/implementation/Transaction.cpp:656-699 | Account and customer history return at most SizeT(limit) entries, newest first: `limit` when it is non-negative, unbounded when it is negative. They are a permutation of the first SizeT(limit) stored entries of the key's group, each filed under the key. |
| LedgerQueries.IndexHistoryComplete | src/implementation/Transaction.cpp:656-699 | On an indexed ledger, a limit no smaller than the group returns every entry filed under the key. |
| LedgerQueries.ByTypeShape | src/implementation/Transaction.cpp:702-726 | Only entries of the type, newest first, at most TypeCap(limit): SizeT(limit), or 1 for a limit of 0. All of them when there are no more, and one for a limit of 0 when any exists. |
| LedgerQueries.DefaultLimits | src/headers/Transaction.h:130-132 | With the default arguments, account history returns at most 50 entries, customer history at most 100 and the type query at most 50, and the type query returns every entry of the type when there are no more than 50. |
| LedgerQueries.DateRangeMembers | src/implementation/Transaction.cpp:965-989 | On an indexed ledger an entry is returned iff start <= its date key <= end; newest first. |
| LedgerQueries.DateRangeSound | src/implementation/Transaction.cpp:965-989 | On a valid ledger every entry returned has its date key within [start, end]. |
| LedgerQueries.DateRangeComplete | src/implementation/Transaction.cpp:965-989 | On an indexed ledger every entry whose date key lies within [start, end] is returned. |
| LedgerQueries.AmountRangeMembers | src/implementation/Transaction.cpp:992-1013 | Exactly the entries with net amount in [min, max], in ascending net amount. |
| LedgerQueries.StatusQueriesMembers | src/implementation/Transaction.cpp:1015-1055 | Exactly the FAILED entries newest first, and exactly the PENDING entries oldest first. |
| LedgerQueries.MapSelectInsert | src/implementation/Transaction.cpp:992-1055 | A new entry joins a whole-map walk as a permutation of the old walk plus the entry. |
| LedgerAnalytics.TallyPermutation | src/implementation/Transaction.cpp:761-779 | The sums and counts do not depend on the order the entries are visited in. |
| LedgerAnalytics.EntriesTally | src/implementation/Transaction.cpp:765-766 | The INT_MAX cap and the sort do not change what the analytics add up. |
| LedgerAnalytics.ProcessTotals | src/implementation/Transaction.cpp:761-779 | A recorded deposit raises deposits and net flow by its amount. A withdrawal raises withdrawals and lowers net flow by its amount. A fee or interest entry moves neither. |
| LedgerAnalytics.TransferTotals | src/implementation/Transaction.cpp:1057-1087 | A completed transfer adds its amount to the source's withdrawals and moves no other total; the destination's deposits are unchanged because only DEPOSIT counts. |
| LedgerAnalytics.FiledTalliesOther | src/implementation/Transaction.cpp:761-779 | Filing an entry changes no other account's analytics. |
| LedgerAnalytics.AverageBounded | src/implementation/Transaction.cpp:1108-1126 | When every entry of the type has its amount in [lo, hi], so has the average. |
| LedgerAnalytics.CountWithoutWindow | src/implementation/Transaction.cpp:1090-1105 | Without both bounds every entry of the account is counted. |
| LedgerAnalytics.VolumeInsert | src/implementation/Transaction.cpp:1212-1226 | Storing a new entry adds its net amount to the system volume and one to the count. |
| LedgerAnalytics.TransferKeepsVolume | src/implementation/Transaction.cpp:1218-1226 | A completed transfer leaves the system volume unchanged. |
| LedgerMaintenance.ReindexIndexed | src/implementation/Transaction.cpp:1431-1453 | Reindexing leaves history and counter alone and makes every index sound and complete. |
| LedgerMaintenance.ReindexGroup | src/implementation/Transaction.cpp:1431-1453 | Each rebuilt group lists exactly the entries filed under its key, in increasing id order. |
| LedgerMaintenance.ReindexKeepsContents | src/implementation/Transaction.cpp:1431-1453 | On an indexed ledger reindexing keeps each key's ids; only their order may change. |
| LedgerMaintenance.ReindexIdempotent | src/implementation/Transaction.cpp:1431-1453 | Reindexing twice is reindexing once. |
| LedgerMaintenance.CleanupKeepsNewer | src/implementation/Transaction.cpp:1405-1429 | Cleanup keeps exactly the entries not stamped before now, unchanged, with the counter and the invariant. |
| LedgerMaintenance.CleanupSound | src/implementation/Transaction.cpp:1405-1429 | After cleanup every id still in an index names a surviving entry filed under that key. |
| LedgerMaintenance.CleanupLoopIndex | src/implementation/Transaction.cpp:1412-1422 | Each index group is either kept or erased whole, and it is erased exactly when a visited old entry is filed under it. |
| LedgerMaintenance.CleanupDetachesSurvivor | src/implementation/Transaction.cpp:1416-1418 | A newer entry sharing a key with an old one stays in the history but is no longer listed under that key. |
| LedgerManager.TransactionManager.constructor | src/implementation/Transaction.cpp:350-358 | The maps start empty and the counter at 1; the state is indexed. |
| LedgerManager.TransactionManager.AddTransaction | src/implementation/Transaction.cpp:607-638 | The result and new state are `AddSpec` of the old state. |
| LedgerManager.TransactionManager.GenerateTransactionId | src/implementation/Transaction.cpp:782-790 | The id and new counter are `GenerateIdSpec` of the old state. |
| LedgerManager.TransactionManager.ProcessDeposit | src/implementation/Transaction.cpp:387-405 | The result and new state are `ProcessSpec` for a DEPOSIT. |
| LedgerManager.TransactionManager.ProcessWithdrawal | src/implementation/Transaction.cpp:407-424 | The same for a WITHDRAWAL. |
| LedgerManager.TransactionManager.ProcessFeeCharge | src/implementation/Transaction.cpp:925-943 | The same for a FEE_CHARGE. |
| LedgerManager.TransactionManager.ProcessInterestCredit | src/implementation/Transaction.cpp:945-963 | The same for an INTEREST_CREDIT. |
| LedgerManager.TransactionManager.ProcessSingle | src/implementation/Transaction.cpp:387-405 | The body the four calls above delegate to: the result and new state are `ProcessSpec` for the given kind. |
| LedgerManager.TransactionManager.ProcessTransfer | src/implementation/Transaction.cpp:427-458 | The result and new state are `TransferSpec` of the old state. |
| LedgerManager.TransactionManager.Relocate | src/implementation/Transaction.cpp:487-516 | The loop over one key's group moves id to the end, as `MoveToEnd`. |
| LedgerManager.TransactionManager.UpdateTransactionStatus | src/implementation/Transaction.cpp:460-527 | The result and new state are `UpdateStatusSpec` of the old state. |
| LedgerManager.TransactionManager.ReverseTransaction | src/implementation/Transaction.cpp:530-604 | The result and new state are `ReverseSpec` of the old state. |
| LedgerManager.TransactionManager.FindTransaction | src/implementation/Transaction.cpp:641-653 | An entry is found iff its id is stored, and it is the stored entry. |
| LedgerManager.TransactionManager.IndexWalk | src/implementation/Transaction.cpp:658-667 | The walk over equal_range collects the first SizeT(limit) stored entries of the group. |
| LedgerManager.TransactionManager.GetAccountHistory | src/implementation/Transaction.cpp:656-676 | Returns `AccountHistorySpec` of the state. |
| LedgerManager.TransactionManager.GetCustomerHistory | src/implementation/Transaction.cpp:679-699 | Returns `CustomerHistorySpec` of the state. |
| LedgerManager.TransactionManager.TypeWalk | src/implementation/Transaction.cpp:705-716 | The map walk stops after a push reaches the limit, collecting the first TypeCap(limit) entries of the type. |
| LedgerManager.TransactionManager.GetTransactionsByType | src/implementation/Transaction.cpp:702-726 | Returns `ByTypeSpec` of the state. |
| LedgerManager.TransactionManager.DateWalk | src/implementation/Transaction.cpp:968-980 | The multimap walk collects the stored entries of the date keys within [start, end], in key order. |
| LedgerManager.TransactionManager.GetTransactionsByDateRange | src/implementation/Transaction.cpp:965-989 | Returns `DateRangeSpec` of the state. |
| LedgerManager.TransactionManager.MapWalk | src/implementation/Transaction.cpp:995-1004 | The map walk collects the stored entries meeting the filter, in id order. |
| LedgerManager.TransactionManager.GetTransactionsByAmountRange | src/implementation/Transaction.cpp:992-1013 | Returns `AmountRangeSpec` of the state. |
| LedgerManager.TransactionManager.GetFailedTransactions | src/implementation/Transaction.cpp:1015-1034 | Returns `FailedSpec` of the state. |
| LedgerManager.TransactionManager.GetPendingTransactions | src/implementation/Transaction.cpp:1036-1055 | Returns `PendingSpec` of the state. |
| LedgerManager.TransactionManager.Accumulate | src/implementation/Transaction.cpp:766-776 | The accumulator loop computes the total and the count of the entries it counts. |
| LedgerManager.TransactionManager.GetTotalDeposits | src/implementation/Transaction.cpp:761-779 | Returns `TotalDepositsSpec` of the state. |
| LedgerManager.TransactionManager.GetTotalWithdrawals | src/implementation/Transaction.cpp:1057-1077 | Returns `TotalWithdrawalsSpec` of the state. |
| LedgerManager.TransactionManager.GetNetFlow | src/implementation/Transaction.cpp:1079-1087 | Returns total deposits minus total withdrawals for the same arguments. |
| LedgerManager.TransactionManager.GetTransactionCount | src/implementation/Transaction.cpp:1090-1105 | Returns `CountSpec` of the state. |
| LedgerManager.TransactionManager.GetAverageTransactionAmount | src/implementation/Transaction.cpp:1108-1126 | Returns `AverageSpec` of the state. |
| LedgerManager.TransactionManager.GetTotalTransactionCount | src/implementation/Transaction.cpp:1212-1215 | Returns the number of stored entries. |
| LedgerManager.TransactionManager.GetTotalSystemVolume | src/implementation/Transaction.cpp:1218-1226 | Returns `VolumeSpec` of the state. |
| LedgerManager.TransactionManager.CleanupOldTransactions | src/implementation/Transaction.cpp:1405-1429 | The new state is `CleanupSpec` of the old state at `now`. |
| LedgerManager.TransactionManager.ReindexTransactions | src/implementation/Transaction.cpp:1431-1453 | The new state is `ReindexSpec` of the old state. |
| Accounts.NewAccountFacts | src/implementation/Account.cpp:13-25 | New accounts are valid and active and hold the initial balance, or 0 when it was negative. A negative overdraft becomes 0, and all 20 withdrawals are available. |
| Accounts.DefaultAccounts | src/headers/Account.h:60-85 | With the default arguments a savings account earns 0.04 with the 500 minimum, and a checking account pays out a non-negative amount iff it is at most the balance plus 500. |
| Accounts.DepositFacts | src/implementation/Account.cpp:86-96 | A negative deposit changes nothing. Savings: the balance grows by exactly the amount. Checking: the count goes up by one, and past ten transactions the 2.50 fee is taken when it leaves the balance non-negative. |
| Accounts.SavingsWithdrawFacts | src/implementation/Account.cpp:99-121 | Success iff amount >= 0, a withdrawal remains and balance - amount >= 500. A refusal changes nothing. A success subtracts the amount, uses one withdrawal and leaves balance >= 500. |
| Accounts.CheckingWithdrawFacts | src/implementation/Account.cpp:212-231 | Success iff 0 <= amount <= balance + overdraft. A refusal changes nothing. A success subtracts the amount, counts itself, may take the fee, and never goes below -overdraft. |
| Accounts.ChargeFeeFacts | src/implementation/Account.cpp:269-280 | The fee takes exactly 2.50 or nothing. It is taken iff more than ten transactions are counted and the balance covers it, and it touches only the balance. |
| Accounts.SavingsDepositWithdrawRoundTrip | src/implementation/Account.cpp:86-121 | On a savings account at or above the minimum with a withdrawal left, withdrawing a deposit restores the balance. |
| Accounts.OperationsPreserveValid | src/implementation/Account.cpp:58-287 | Every operation keeps the account valid: the withdrawal count stays within 20, and the overdraft never goes negative. |
| Accounts.SetOverdraftLimitFacts | src/implementation/Account.cpp:254-261 | A negative limit is ignored; otherwise the available balance becomes balance + limit. |
| Accounts.ResetFacts | src/implementation/Account.cpp:173-176 | After the reset all 20 withdrawals are available, or the checking count is 0; the balance is unchanged. |
| Accounts.ApplyInterestFacts | src/implementation/Account.cpp:141-160 | Interest never lowers the balance; with a non-negative balance and rate, it adds balance * (rate / 100) / 12. |
| Accounts.Account.OpenSavings | src/implementation/Account.cpp:78-83 | The new state is `NewSavings` of the arguments. |
| Accounts.Account.OpenChecking | src/implementation/Account.cpp:183-193 | The new state is `NewChecking` of the arguments. |
| Accounts.Account.Deposit | src/implementation/Account.cpp:86-209 | The new state is `DepositSpec` of the old state, dispatched on the kind. |
| Accounts.Account.Withdraw | src/implementation/Account.cpp:99-231 | The result and new state are `WithdrawSpec` of the old state. |
| Accounts.Account.ChargeFee | src/implementation/Account.cpp:269-280 | The new state is `ChargeFeeSpec` of the old state. |
| Accounts.Account.SetOverdraftLimit | src/implementation/Account.cpp:254-261 | The new state is `SetOverdraftLimitSpec` of the old state. |
| Accounts.Account.ResetWithdrawalCount | src/implementation/Account.cpp:173-176 | The new state has a withdrawal count of 0 and is otherwise the old one. |
| Accounts.Account.ResetTransactionCount | src/implementation/Account.cpp:283-287 | The new state has a transaction count of 0 and is otherwise the old one. |
| Accounts.Account.ApplyInterest | src/implementation/Account.cpp:147-160 | The new state is `ApplyInterestSpec` of the old state. |
| Accounts.Account.SetActive | src/implementation/Account.cpp:58-65 | Only the active flag changes. |
| Accounts.Account.UpdateBalance | src/implementation/Account.cpp:68-71 | Only the balance changes, to the value given, negative included. |
| Customers.NewCustomerFacts | src/implementation/Customer.cpp:15-30 | An accepted registration gives an active, valid customer with no accounts, whose PIN verifies. |
| Customers.FindFacts | src/implementation/Customer.cpp:164-177 | findAccount finds an account iff one has the number, and returns the first such. |
| Customers.OfTypeMembers | src/implementation/Customer.cpp:180-188 | getAccountsByType keeps exactly the accounts of the type. |
| Customers.OfTypeAppend | src/implementation/Customer.cpp:180-188 | The filter preserves list order. |
| Customers.AddAccountFacts | src/implementation/Customer.cpp:116-135 | The account is appended iff present, new by number and this customer's; otherwise nothing changes. Numbers stay unique and every account stays this customer's. |
| Customers.RemoveAccountFacts | src/implementation/Customer.cpp:138-161 | Success iff the number is non-empty and held. On failure nothing changes. On success the count drops by one, the number is gone and the rest keep their order. |
| Customers.AddRemoveRoundTrip | src/implementation/Customer.cpp:116-161 | Removing an account just added gives the customer back. |
| Customers.ChangePinFacts | src/implementation/Customer.cpp:211-230 | Success iff the old PIN verifies and the new one has at least 4 characters. A failure changes nothing. After a success the new PIN verifies, as does exactly any input with the same 64-bit fold. |
| Customers.UpdateContactFacts | src/implementation/Customer.cpp:237-254 | All three fields are overwritten, empty values included, iff the non-empty email and phone are valid. Otherwise nothing changes. |
| Customers.SetActiveFacts | src/implementation/Customer.cpp:257-269 | setActive(false) leaves no account active and changes nothing else in them. setActive(true) changes only the flag. |
| Customers.DeactivatedTotal | src/implementation/Customer.cpp:257-269 | Deactivating the accounts leaves their total balance unchanged. |
| Customers.TotalsSplit | src/implementation/Customer.cpp:339-365 | The total balance is the savings total plus the checking total. |
| Customers.ActiveCountBounds | src/implementation/Customer.cpp:368-376 | The active count is at most the number of accounts, and 0 iff none is active. |
| Customers.Customer.constructor | src/implementation/Customer.cpp:15-30 | The state is `NewCustomer` of the arguments, with the PIN stored hashed. |
| Customers.Customer.FindAccount | src/implementation/Customer.cpp:164-171 | Returns `Find` of the list. |
| Customers.Customer.HasAccount | src/implementation/Customer.cpp:174-177 | True iff some account has the number. |
| Customers.Customer.GetAccountsByType | src/implementation/Customer.cpp:180-188 | Returns `OfType` of the list. |
| Customers.Customer.AddAccount | src/implementation/Customer.cpp:116-135 | The new state is `AddAccountSpec` of the old state. |
| Customers.Customer.RemoveAccount | src/implementation/Customer.cpp:138-161 | The result and new state are `RemoveAccountSpec` of the old state. |
| Customers.Customer.VerifyPin | src/implementation/Customer.cpp:195-208 | False for an empty input, else whether the input's hash equals the stored hash. |
| Customers.Customer.ChangePin | src/implementation/Customer.cpp:211-230 | The result and new state are `ChangePinSpec` of the old state. |
| Customers.Customer.UpdateContactInfo | src/implementation/Customer.cpp:237-254 | The new state is `UpdateContactSpec` of the old state. |
| Customers.Customer.SetActive | src/implementation/Customer.cpp:257-269 | The flag becomes `status`, every account is set inactive when `status` is false, and nothing else changes. |
| Customers.Customer.SumBalances | src/implementation/Customer.cpp:339-345 | The accumulator loop returns the sum of the balances. |
| Customers.Customer.GetTotalBalance | src/implementation/Customer.cpp:339-345 | Returns the sum of all balances. |
| Customers.Customer.GetTotalSavingsBalance | src/implementation/Customer.cpp:348-355 | Returns the sum of the savings balances. |
| Customers.Customer.GetTotalCheckingBalance | src/implementation/Customer.cpp:358-365 | Returns the sum of the checking balances. |
| Customers.Customer.GetTotalActiveAccounts | src/implementation/Customer.cpp:368-376 | Returns the number of active accounts. |
| Utilities.SimpleHash | src/implementation/Utilities.cpp:25-33 | The loop computes `SimpleHashOf`: "0" for "", else the decimal form of the fold h = h*33 + c from 5381, modulo 2^64. |
| Utilities.SimpleHashDecodes | src/implementation/Utilities.cpp:25-33 | Reading a non-empty input's hash back as a number gives the 64-bit fold. |
| Utilities.SimpleHashEqualIff | src/implementation/Utilities.cpp:25-33 | Two non-empty inputs hash alike iff their folds agree. |
| Utilities.SamplePinHash | src/implementation/Utilities.cpp:25-33 | "1234" hashes to "6383257999". |
| Utilities.IsValidEmailIff | src/implementation/Utilities.cpp:36-61 | Accepted iff one '@', neither first nor last, a '.' after it that is not last, and only letters, digits, '.', '_', '-' elsewhere. |
| Utilities.ValidEmailHasOneAt | src/implementation/Utilities.cpp:36-61 | An accepted email has exactly one '@'. |
| Utilities.SampleEmailAccepted | src/implementation/Utilities.cpp:36-61 | "john@email.com" is accepted. |
| Utilities.EmailWithoutDotRejected | src/implementation/Utilities.cpp:36-61 | "john@email" is rejected, since no '.' follows the '@'. |
| Utilities.IsValidPhone | src/implementation/Utilities.cpp:64-87 | The copy-and-erase loop decides `ValidPhone`. |
| Utilities.ValidPhoneIff | src/implementation/Utilities.cpp:64-87 | Accepted iff every non-separator is a digit and there are 10 to 15 of them. |
| Utilities.ShortPhoneRejected | src/implementation/Utilities.cpp:64-87 | "555-0123" is rejected. |
| Utilities.IsValidNameIff | src/implementation/Utilities.cpp:90-100 | Accepted iff non-empty and made only of letters and spaces. |
| Utilities.IsValidAccountNumber | src/implementation/Utilities.cpp:103-118 | The flag loop decides: length >= 3, some letter and some digit, anywhere. |
| Accounts.ValidAmountGuards | src/implementation/Utilities.cpp:121-123 | isValidAmount accepts an amount iff it is non-negative; an amount it rejects leaves every account unchanged under deposit and withdraw, and one it accepts is credited in full to a savings account and counted on a checking account. |

## Left out

- Console output and every `display*` function: presentation only.
- File I/O: the audit-log append in updateTransactionStatus, save and load of the history, CSV export, backup, and the automatic load and save in the ledger's constructor and destructor. The constructor is modelled up to the state it sets before loading.
- The clock: getCurrentDate and getCurrentDateTime are parameters, read once per operation. A date change between two reads inside one call is not modelled.
- LedgerManager.TransactionManager.CleanupOldTransactions: `daysOld` (default 365) has no effect in the code, so the model has no such parameter.
- LedgerManager.TransactionManager.CleanupOldTransactions: the "Removed transaction" message is printed after `transactionHistory.erase`, through a reference to the erased entry, so it reads freed memory; it is console output only and is not modelled.
- LedgerManager.TransactionManager.AddTransaction: does not model the overflow of the 32-bit `int` counter, because the counter is an unbounded natural number. A recovered number of INT_MAX gives a counter of INT_MAX + 1 instead of the signed overflow. The `stoi` exception in the counter recovery is the outcome `CounterParseError`, returned after the entry is stored and filed, with the counter unchanged.
- LedgerManager.TransactionManager.FindTransaction: returns a copy of the stored entry rather than its address, so changes made through the returned `Transaction*` are not modelled.
- LedgerManager.TransactionManager: its methods state their results as functions of the old state rather than carrying the ledger invariant in their contracts. That the invariant is kept is proved about those functions, by the lemmas named `…Preserves`.
- LedgerManager.TransactionManager.CleanupOldTransactions and ReindexTransactions: they loop over local copies and assign the fields at the end. The source erases and emplaces on the members in place; the outcome is the same.
- The analytics queries share one accumulator loop, `Accumulate`. The source writes that loop out in each of them.
- The query methods fix one order among entries that compare equal: the stable order of `TxnOrder.Sort`. `std::sort` is not stable and may return those entries in any order, so the other orders it may produce are not modelled. The lemmas about the queries use only "sorted and a permutation", which holds for every order `std::sort` may produce.
- Floating point: money, averages and interest are real numbers. Rounding, and the 2-decimal output formatting, are not modelled.
- Accounts.Account: one class with a two-case kind field stands for the abstract base and two subclasses. Calling a subclass-only member on the other kind is ruled out by a precondition, as the C++ types rule it out.
- Accounts.Account.Deposit: does not model overflow of the `int` transaction count.
- Customers.Customer: the accounts are records held by the customer, not shared `Account*` handles. A change made to an account through another reference is not seen. `delete` in removeAccount, which frees whatever element remove_if left at the cut, and the destructor are not modelled.
- Customers.Customer.constructor: the `invalid_argument` throw for an empty field or a bad email is a precondition.
- The customer getters that return placeholder text for an empty phone or email are presentation only and not modelled.
- getCurrentDate in the utilities reads the system clock, so it is a parameter.
- The bank, customer and utilities headers are declarations only; what they declare is modelled from the .cpp files.
