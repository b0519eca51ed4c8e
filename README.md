# Bank ledger core, modelled in Dafny

This project models the account ledger of the banking system `bank.py`.

- **Clients** own a list of accounts.
- **Accounts** come in two classes:
  - a plain `Account`;
  - a `CheckingAccount`, which caps each withdrawal's amount (default 500) and the lifetime number of withdrawals (default 3).
- An account's balance starts at 0. It changes only through `deposit` and `withdraw`, and each of those answers with a success flag.
- **Transactions** are either `Deposit` or `Withdraw`. A transaction registers itself with an account. Only when the account accepts it does it append a record `{type, amount, date}` to the account's **history**.
- The history is append-only. Its report yields the stored records in order, filtered by type case-insensitively, or all of them when no filter is given.
- A client is looked up by CPF.

The model has four modules:

- `Wrappers` (`wrappers.dfy`): the `Option` type. With it, "no filter" (`None`) and the empty-string filter (`Some("")`) stay distinct.
- `Records` (`records.dfy`): the `Transaction` variants, history records and ASCII lower-casing. It also has the report filter `Report` with its lemmas (completeness, order, no filter, empty filter) and the withdrawal count `CountKind`.
- `Accounts` (`accounts.dfy`): the account rules as values.
  - `DepositOutcome`, `BaseWithdrawOutcome` and `WithdrawOutcome` decide whether an operation is accepted and, if not, which refusal message applies.
  - `Registered` is the state after `register`. `Run` registers a sequence of requests.
  - The invariant `Consistent` says the balance is non-negative and equals the history's net amount, every record is a well-formed accepted transaction, and a checking account stays within both caps.
  - Lemmas show that every sequence of registrations keeps `Consistent` and that the history holds exactly the accepted requests. Another shows that once a checking account's count cap is reached, every later withdrawal is refused.
- `Bank` (`bank.dfy`): the objects that change in place.
  - `Individual` with `AddAccount`.
  - `History` with `AddTransaction` and `GenerateReport`.
  - `Account` with `Deposit`, `Withdraw` and its two constructors.
  - The module-level methods `Register`, `MakeTransaction` and `FilterClient`.
  - Each mutating method states its new state in terms of the `Accounts` functions. `Register` also keeps `Consistent`.

Modelling choices:

- **Amounts.** Python floats become `real`. The rules only use `>`, `<=`, `+` and `-`.
- **Account classes.** `CheckingAccount` is the same Dafny class `Account` with `kind == Checking(limit, withdrawLimit)`. `Withdraw` dispatches on `kind`, as the override does. The count is recomputed from the history on every call; there is no counter field.
- **Register.** `Transaction.register` is the module-level method `Bank.Register`, which matches on the variant.
- **Dates.** The record's `date` is an opaque string given by the caller of `Register` / `AddTransaction`.
- **Clients.** `Client` and `Individual` are merged into one class `Individual`, because a bare `Client` is never created.
- **Refusal reasons.** The methods return `bool`, as the source does. The reason (`Rejection`) is carried only by the pure outcome functions. It stands for the message the source prints.

## Model

| member | source | states |
|---|---|---|
| `Records.Transaction.TypeName` | bank.py:150 | a transaction's record type is `"Deposit"` exactly for a deposit and `"Withdraw"` exactly for a withdrawal |
| `Records.RecordOf` | bank.py:148-153 | the record of `t` has `t`'s variant name as type, whatever the amount, `t`'s amount and the given date; it is well-formed iff the amount is positive |
| `Records.Matches` | bank.py:158 | the per-record test: every record passes when there is no filter, and with filter `""` only a record whose type is empty passes |
| `Records.Lower` | bank.py:158 | lower-casing keeps the length and maps each character through ASCII lower-casing |
| `Records.Report` | bank.py:156-159 | the report is no longer than the history and yields only stored records that pass the filter |
| `Records.ReportComplete` | bank.py:156-159 | every stored record that passes the filter is yielded by the report |
| `Records.ReportAppend` | bank.py:156-159 | reporting over `a + b` is reporting over `a` followed by reporting over `b`, so insertion order is preserved |
| `Records.ReportNoFilter` | bank.py:157-159 | with filter `None` the report is the whole history, in insertion order |
| `Records.ReportEmptyFilter` | bank.py:158 | with filter `Some("")` the report is empty whenever no record type is the empty string |
| `Records.CountKind` | bank.py:116-118 | the number of records of a type never exceeds the history's length |
| `Records.CountKindSnoc` | bank.py:116-118 | appending a record adds one to the count of its own type and nothing to any other type's count |
| `Records.CountMatchesReport` | bank.py:116-118 | on well-formed records, the case-sensitive count of `"Withdraw"` equals the length of the case-insensitive report for `"withdraw"` |
| `Records.ExtractAsWrittenShowsNothing` | bank.py:300 | `ExtractAsWritten` is the extract screen's call `generate_report('')` as written; its report is empty for every history the ledger can hold |
| `Records.ExtractAsWrittenHidesDeposit` | bank.py:300-305 | a history holding one deposit still yields an empty extract, as written |
| `Records.Extract` | bank.py:300-305 | the intended extract lists exactly the stored records |
| `Accounts.WithdrawCount` | bank.py:116-118 | the count of history records whose type is exactly `Withdraw.__name__`, never more than the history's length (`Records.CountMatchesReport` ties it to the report) |
| `Accounts.DepositOutcome` | bank.py:99-106 | a deposit is accepted iff the amount is positive; otherwise it is refused as an invalid amount |
| `Accounts.BaseWithdrawOutcome` | bank.py:86-97 | a plain withdrawal is accepted iff `0 < amount <= balance`; it is refused for insufficient funds iff `amount > balance`, and as invalid iff the amount is covered but not positive |
| `Accounts.WithdrawOutcome` | bank.py:115-128 | a checking withdrawal is refused by the amount cap when `amount > limit`, and otherwise by the count cap when the history already holds `withdrawLimit` withdrawals; otherwise it equals the plain rule. It is accepted iff all three checks pass |
| `Accounts.Initial` | bank.py:56-60 | a new account of either class has balance 0 and an empty history, and satisfies the ledger invariant |
| `Accounts.Answer` | bank.py:182-195 | the delegation to `deposit`/`withdraw`: a deposit is accepted iff its amount is positive; a withdrawal iff `0 < amount <= balance` and, on a checking account, the amount is within the cap and the count is below the cap |
| `Accounts.Registered` | bank.py:181-196 | after `register`, the class is unchanged and the old records are an untouched prefix. When the account accepts, the balance moves by the amount and exactly one record, that of `t`, is added. When it refuses, the whole state is unchanged |
| `Accounts.RegisteredConsistent` | bank.py:181-196 | registering any transaction keeps the balance non-negative and equal to the history's net amount, keeps records well-formed, and keeps both checking caps |
| `Accounts.Run` | bank.py:33-34 | one answer per request, and the account's class never changes |
| `Accounts.RunConsistent` | bank.py:86-128 | any sequence of deposits and withdrawals, through either account class, keeps the ledger invariant |
| `Accounts.RunLogsAccepted` | bank.py:181-196 | the history after a sequence of registrations is the old history followed by the records of exactly the accepted requests, in order |
| `Accounts.LoggedLength` | bank.py:181-196 | one record is logged per accepted request |
| `Accounts.HistoryLength` | bank.py:181-196 | the history grows by exactly the number of accepted registrations |
| `Accounts.FromOpening` | bank.py:54-60 | from a new account, any sequence of registrations leaves the balance `>= 0` and a history of exactly the accepted requests |
| `Accounts.CapReachedRefusesWithdrawals` | bank.py:116-126 | once a checking account's withdrawal count has reached its cap, every later withdrawal is refused, the count stays the same and the balance never falls |
| `Accounts.CapReachedStep` | bank.py:116-126 | one registration at the count cap: a withdrawal is refused, the class and the withdrawal count are unchanged, and the balance does not fall |
| `Accounts.CheckingWithdrawAccepted` | bank.py:115-128 | a checking withdrawal within the balance, the amount cap and the count cap is accepted: the balance drops by the amount, its record is appended and the withdrawal count rises by one |
| `Accounts.ScenarioFourthWithdrawal` | bank.py:109-128 | default checking account: depositing 1000 and then withdrawing 200 three times leaves balance 400, four records and a count of 3; a fourth withdrawal of 50 is refused by the count cap |
| `Accounts.ScenarioOverLimit` | bank.py:110-122 | a new default checking account refuses a withdrawal of 600 by the amount cap and is left unchanged |
| `Bank.Individual.constructor` | bank.py:37-51 | a new client holds its identity fields and no accounts |
| `Bank.Individual.AddAccount` | bank.py:42-43 | the account is appended to the end of the client's list |
| `Bank.History.constructor` | bank.py:139-141 | a new history is empty and belongs to the given client |
| `Bank.History.AddTransaction` | bank.py:147-154 | appends exactly the record `{type name, amount, date}` at the end; every report afterwards is the old report followed by the new record's report |
| `Bank.History.GenerateReport` | bank.py:156-159 | the scan of the stored records yields exactly `Report(transactions, filter)`; the filter defaults to `None` |
| `Bank.Account.constructor` | bank.py:55-64 | a new plain account has balance 0, agency `"0001"`, an empty history of its own and the given number and client, and satisfies the ledger invariant |
| `Bank.Account.CheckingAccount` | bank.py:110-113 | a new checking account is the same, with the given caps, defaulting to 500 and 3 |
| `Bank.Account.Deposit` | bank.py:99-106 | the success flag is `DepositOutcome`'s acceptance; the balance grows by the amount exactly when accepted and is unchanged otherwise; it stays non-negative |
| `Bank.Account.BaseWithdraw` | bank.py:86-97 | the success flag is the plain rule's acceptance; the balance drops by the amount exactly when accepted and is unchanged otherwise; it stays non-negative |
| `Bank.Account.Withdraw` | bank.py:115-128 | the success flag is `WithdrawOutcome`'s acceptance for the account's class and current history; the balance moves only when accepted, and the history is untouched |
| `Bank.Register` | bank.py:181-196 | the account ends in `Registered(old state, t, date)`. The history gains exactly one record at the end iff the delegated operation succeeded and is unchanged otherwise. The ledger invariant is kept |
| `Bank.MakeTransaction` | bank.py:33-34 | the account ends in the state `register` produces, and the ledger invariant is kept |
| `Bank.FilterClient` | bank.py:221-225 | returns `None` iff no client has the CPF, otherwise the first client in the list that has it |

## Findings

| source | as written | input that shows it | evidently intended | confidence | as-written member | corrected member |
|---|---|---|---|---|---|---|
| bank.py:300 | the extract screen asks for `generate_report('')`. The empty string is not `None`, so only records whose lower-cased type is `""` match, and there are none | an account with one deposit of 100: history length 1, extract lists nothing and prints "No transactions have been made" | list every record, that is `generate_report()` with no filter | high (not executed) | `Records.ExtractAsWrittenShowsNothing` | `Records.Extract` |

## Left out

- Console I/O (`menu`, `main` and the module-level `deposit`, `withdraw`, `extract`, `create_client`, `create_account`, `list_accounts`, bank.py:207-397): these only read input and print text. This includes numbering accounts by `len(accounts) + 1`.
- `get_client_account` (bank.py:228-243): its index comes from parsed console input.
- `AccountsIterator` (bank.py:11-30) and `CheckingAccount.__str__` (bank.py:130-135): their only product is formatted display text.
- The `log_transaction` decorator (bank.py:199-204): it only prints a timestamp.
- The `print` calls inside `deposit`/`withdraw`: they do not affect state. Which message would be printed is kept as the `Rejection` of the pure outcome.
- `datetime.now().strftime` (bank.py:152): the date is a parameter of `Register`/`AddTransaction` and is stored unchanged.
- Floating point: amounts are exact reals. Rounding, `inf` and `nan` are not modelled. A `nan` amount is refused by every rule and changes nothing, as `0.0` does in the model; only the refusal reason can differ, when a checking account's `limit` is negative (`nan > limit` is false, `0.0 > limit` is true).
- `Records.Lower`: folds only ASCII `A`-`Z`. Python's `str.lower` also folds other Unicode letters. Record types are ASCII, so only non-ASCII filter strings are affected.
- The generator's laziness: `generate_report` becomes a method that returns the whole filtered sequence at once. The order and the contents are the same.
- Outside mutation of the list that the `transactions` property returns: the model lets only `AddTransaction` change a history.
- `Account.new_account` (bank.py:62-64): it only calls the constructor, so it is modelled by the two constructors.
