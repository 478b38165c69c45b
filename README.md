# Banking demo: the money-transfer core, modelled in Dafny

This project models the one piece of real logic of a small banking web
application (Express, Sequelize, EJS): the transfer routine
`realizarTransacao`, which moves an amount between the accounts of two
users inside a database transaction and retries on lock contention, and
the small pure pieces around it: the request checks of
`POST /transacao/realizar`, the single-account credit of `POST /transacao`
and the deposit/spend totals of `GET /relatorio`.

Modules:

- `Common` (common.dfy): `Option` and `Result`.
- `Ledger` (ledger.dfy): the store as two tables: accounts
  (`ID_Conta`, `ID_Usuario`, `saldo_atual` in integer cents) and the append-only
  transaction log. `findOne` by owner, `findByPk`, `UPDATE ... WHERE ID_Conta`,
  and the bank's total balance.
- `Transfer` (transfer.dfy): one attempt (`AttemptSpec`) and the retry loop
  (`RunFrom`, `TransferSpec`) as functions of the store before the call, with
  the lemmas about them. Store errors are an input: `faults[k]` says which
  store call of attempt `k` fails and with which driver error code.
- `Banking` (bank.dfy): class `Bank`, whose fields are the two tables; its
  methods `Attempt`, `Transfer` (the `while` loop over `retries`) and `Credit`
  update them in place and are proved equal to the functions above.
- `Forms` (forms.dfy): the falsy-field checks, `parseFloat` as an exact decimal
  reader, and the amount check.
- `Report` (report.dfy): the report's record selection, count and per-type
  totals (`filter` then `reduce`).

What the model follows, as the code does it:

- An attempt is all-or-nothing: a failed attempt leaves both tables as they were.
- Only a `'gasto'` is checked against the origin's balance; every other type,
  `'deposito'` included, skips the check. The figure `saldoOrigem - valor` is
  computed whatever the type; the sort decides which account receives it.
- After sorting by `ID_Conta`, the lower id is set to `saldoOrigem - valor` and
  the higher to `saldoDestino + valor`, whichever roles they play. When origin
  and destination are one account, the second write wins and the balance ends
  at `s + v`, so the total grows by `v`.
- Only `ER_LOCK_WAIT_TIMEOUT` and `ER_LOCK_DEADLOCK` are retried, at most 5
  attempts, with a pause of 1000 ms before attempts 2 to 5 and none after the
  fifth. Every other error is rethrown at once.

## Model

| member | source | states |
|---|---|---|
| `Ledger.FindByOwner` | index.js:70-73 | `findOne` by `ID_Usuario`: the first row owned by the user, or none exactly when no row is owned by them |
| `Ledger.FindById` | index.js:177 | `findByPk`: the first row with that id, or none exactly when no row has it |
| `Ledger.SetBalance` | index.js:89-98 | an `UPDATE ... WHERE ID_Conta = id` keeps the number of rows; what it writes is stated by `Ledger.SetBalanceEffect` |
| `Ledger.SetBalanceEffect` | index.js:89-98 | an `UPDATE ... WHERE ID_Conta = id` sets the balance of the rows with that id and leaves ids, owners and every other row alone |
| `Ledger.TwoWrites` | index.js:86-98 | with unique ids, two balance writes to two different accounts set exactly those two balances, leave every other row alone and move the total by the two differences |
| `Ledger.TotalSetBalance` | index.js:89-98 | with unique ids, one balance write changes the bank's total by new balance minus old balance |
| `Ledger.TotalOfTwoChanges` | index.js:86-98 | two tables that differ only in two rows whose balances keep their sum have the same total, so a committed transfer between two accounts conserves the bank's money |
| `Transfer.SortById` | index.js:86 | the comparator sort of two accounts: ascending by id, a permutation of the pair, stable on equal ids |
| `Transfer.Writes` | index.js:86-98 | the two updates as written keep the number of accounts; `Transfer.WritesInIdOrder` states which account gets which figure |
| `Transfer.WritesInIdOrder` | index.js:86-98 | for two different rows: the lower id gets the origin's balance minus the amount, the higher the destination's balance plus the amount, nothing else changes |
| `Transfer.IsContention` | index.js:117 | the retry condition holds only for a store error with one of the two lock codes, never for "account not found" or "insufficient funds" |
| `Transfer.RecordOf` | index.js:101-109 | the inserted record is attributed to the origin's `ID_Conta` and carries the request's type, amount and both user ids |
| `Transfer.AttemptSpec` | index.js:68-112 | an aborted attempt leaves the store unchanged; a committed one met no store error and keeps the number of accounts |
| `Transfer.AttemptCommitsIff` | index.js:68-112 | an attempt commits if and only if no store call fails, both accounts exist and the balance check passes |
| `Transfer.AttemptNotFoundIff` | index.js:75-77 | the attempt fails with "account not found" if and only if the lookup succeeded and the origin or the destination has no account |
| `Transfer.AttemptInsufficientIff` | index.js:80-83 | "insufficient funds" if and only if both accounts exist, the type is `'gasto'` and the origin's balance is below the amount; never for another type |
| `Transfer.AttemptStoreErrorIff` | index.js:68-112 | an attempt fails with a store error if and only if a store call raises one: the lookup, or a later call of an attempt that passed both checks; the error keeps the driver's code |
| `Transfer.CommitAppendsOneRecord` | index.js:101-109 | a commit appends exactly one record: origin's `ID_Conta`, the given type, amount and payment method |
| `Transfer.CommitKeepsKeys` | index.js:89-98 | a commit changes balances only; ids, owners and the primary key's uniqueness are kept |
| `Transfer.CommitDistinctAccounts` | index.js:86-98 | two different accounts: the lower id gets origin's balance minus the amount, the higher gets destination's balance plus the amount, the two balances keep their sum, no other account changes and the bank's total is conserved |
| `Transfer.CommitSameAccount` | index.js:86-98 | one account on both sides: its balance ends at old balance plus amount, others unchanged, the total grows by the amount |
| `Transfer.RunFrom` | index.js:60-130 | the retry loop makes 1 to 5 attempts and pauses once fewer than it attempts; any outcome but success leaves the store unchanged; a propagated error is never a contention error; "max attempts" comes after exactly 5 |
| `Transfer.TransferSpec` | index.js:60-130 | a whole call makes 1 to 5 attempts with one pause fewer; any outcome but success leaves the store unchanged; a propagated error is never contention |
| `Transfer.AllContendedExhausts` | index.js:116-124 | if every attempt meets contention: exactly 5 attempts, 4 pauses of 1000 ms (4000 ms in all), "max attempts", store unchanged |
| `Transfer.LockFaultsExhaust` | index.js:117-123 | five lock-timeout or deadlock errors raised at the first store call of each attempt end in "max attempts" after 5 attempts and 4 pauses |
| `Transfer.LockFaultsAtAnyStepExhaust` | index.js:116-124 | for a request that passes both checks, five lock-timeout or deadlock errors raised at any store call of each attempt end in "max attempts" after 5 attempts and 4 pauses, store unchanged |
| `Transfer.FirstUncontendedDecides` | index.js:116-127 | the first attempt without contention decides: a commit returns, any other error propagates at once, after k+1 attempts and k pauses |
| `Transfer.MissingAccountNotRetried` | index.js:125-126 | a missing account fails after one attempt with no pause and no change, unless the lookup itself raised a store error |
| `Transfer.OverdraftNotRetried` | index.js:125-126 | an overdrawing `'gasto'` fails after one attempt with no pause and no change, unless the lookup raised a store error |
| `Transfer.SuccessIsFaultFree` | index.js:65-115 | whichever attempt commits, the store ends as after one attempt that meets no store error |
| `Transfer.WritesAscending` | index.js:86-98 | as written, when the origin has the lower id it is debited by the amount and the destination credited, no other account changes |
| `Transfer.WritesDescending` | index.js:86-98 | as written, when the origin has the higher id it receives the destination's balance plus the amount and the destination the origin's balance minus the amount, no other account changes |
| `Transfer.WritesSwapRoles` | index.js:86-98 | on the store where user 1 owns account 2 with 100.00 and user 2 owns account 1 with -50.00, a `'gasto'` of 30.00 passes the balance check and the writes as written take the origin to -20.00 and the destination to 70.00 |
| `Transfer.IntendedWrites` | index.js:86-98 | the corrected writes keep the number of accounts; `Transfer.IntendedWritesRoles` states what they do |
| `Transfer.IntendedWritesRoles` | index.js:86-98 | corrected writes in ascending id order debit the origin and credit the destination, change no other account, conserve the total, and keep the origin non-negative after a checked `'gasto'` |
| `Banking.Bank.Attempt` | index.js:68-112 | the in-place attempt with a private copy of the tables ends in the state and result `AttemptSpec` gives |
| `Banking.Bank.Transfer` | index.js:60-130 | the `while` loop over `retries` ends with the store, outcome, attempt count and pause count that `TransferSpec` gives |
| `Banking.Bank.Credit` | index.js:177-193 | finds the account by primary key (false is the 404 reply) and adds the amount to its balance; the log is untouched |
| `Banking.CreditEffect` | index.js:186-193 | a credit raises that account's balance and the bank's total by exactly the amount and changes no other account |
| `Forms.Falsy` | index.js:139 | `!field` rejects exactly the absent and the empty field; any text of one character or more passes, "0" included; the credit route applies the same test to its three fields |
| `Forms.ParseFloat` | index.js:143 | `parseFloat` yields NaN exactly when, after white space and a sign, the text starts neither with a digit nor with a point followed by a digit |
| `Forms.ParseFloatValue` | index.js:143 | a sign, integer digits, a point, fraction digits and a tail without digit or exponent read as the decimal those digits denote, negated after a minus |
| `Forms.ParseFloatIntegerValue` | index.js:143 | a sign and integer digits followed by a tail without digit, point or exponent read as the whole number those digits denote, negated after a minus |
| `Forms.WholeAmount` | index.js:143-147 | an amount written as bare digits, such as "30", is accepted with its value exactly when that value is not zero |
| `Forms.ThirtyAccepted` | index.js:143-147 | the amount "30" is accepted as 30 |
| `Forms.FormatCents` | index.js:89-96 | `toFixed(2)` of a number of cents: at least four characters, a leading minus exactly for a negative amount, a point and two digits at the end |
| `Forms.CheckAmount` | index.js:143-147 | the amount is accepted if and only if it parses and is greater than zero; otherwise "Valor inválido" |
| `Forms.CheckTransferForm` | index.js:139-147 | 400 for a missing field exactly when one of the five fields is absent or empty; accepted only with all five and a positive amount, which is passed on |
| `Forms.CheckCreditForm` | index.js:166-174 | the same checks for `usuarioId`, `contaId` and `valor` of the credit route |
| `Forms.ParseFormatCents` | index.js:89-96 | every balance written with two decimals, as `toFixed(2)` writes it, negative ones included, reads back through `parseFloat` as the same amount |
| `Forms.AcceptsFormattedAmount` | index.js:139-147 | a form with every field filled and a positive two-decimal amount is accepted with that amount |
| `Report.AccountIdsOf` | index.js:288-289 | the ids of exactly the accounts the user owns |
| `Report.RecordsOf` | index.js:291 | `findAll` by `ID_Conta`: at most the log's records, every one from a listed account, and every record of a listed account is there |
| `Report.RecordsOfCounts` | index.js:291 | `findAll` by `ID_Conta` holds each record of a listed account as many times as the log does, and no other record |
| `Report.OfType` | index.js:297-302 | `filter` by `tipo`: only records of that type, all of them |
| `Report.OfTypeCounts` | index.js:297-302 | `filter` by `tipo` holds each record of that type as many times as its input does, and no other record |
| `Report.SumValor` | index.js:297-302 | `reduce` adding `valor` from 0: non-negative when every amount is |
| `Report.TotalDepositos` | index.js:297-299 | filter by `'deposito'` then reduce equals the record-by-record sum of the deposit amounts |
| `Report.TotalGastos` | index.js:300-302 | filter by `'gasto'` then reduce equals the record-by-record sum of the spend amounts |
| `Report.Summarize` | index.js:294-302 | the figures over the records found: their number and the record-by-record sums of each type's amounts |
| `Report.Relatorio` | index.js:285-302 | the report of user 1 (of any user): `totalTransacoes` counts the user's records, and each type's total is the record-by-record sum of that type's amounts |
| `Report.FilterSumIsAmountOfType` | index.js:297-302 | filter-then-reduce equals the record-by-record sum of the amounts of that type |
| `Report.TotalsCoverAll` | index.js:297-302 | when every record is a deposit or a spend, `totalDepositos + totalGastos` is the sum of all amounts |
| `Report.ReportAfterCommit` | index.js:291-302 | a commit from the report user's account adds one to `totalTransacoes` and the amount to its type's total; from anyone else the report is unchanged |

## Left out

- Express setup, routing, EJS rendering, body parsing, `sequelize.sync`, `app.listen`, console logging and the listing routes: I/O plumbing.
- Database locking, isolation and the deadlock-freedom argument: they concern concurrent transactions. Contention is an input (`faults`), not something the model derives.
- Other requests changing the tables during the pause between attempts: the model is sequential, so every attempt starts from the same store.
- `Promise.all`: the two account lookups are two sequential reads.
- `setTimeout`: each pause is counted in `waits` and stands for `RetryDelayMs` (1000 ms); no time passes.
- Floating point: balances and transfer amounts are integer cents; `toFixed(2)` rounding is not modelled. The forms read `valor` as an exact decimal `real`, and turning that into cents is not modelled: `Bank.Transfer` and `Bank.Credit` take the amount in cents.
- `Forms.ParseFloat`: exponent notation (`1e3`), `Infinity` and the Unicode space separators other than the ten characters of `IsSpace` are not modelled.
- The record insert passes `transaction: t` inside its values object, so in the source it may run outside the store transaction; the model assumes it is rolled back with the rest of the attempt.
- The `descricao` text and the `data_transacao` clock: the record keeps the two user ids the description is built from; the text and the timestamp are not modelled.
- Request bodies are taken as urlencoded string fields. A JSON body may also carry numbers, booleans or objects (`{"valor": 0}` answers 400 "Dados inválidos ou ausentes" because `!0` holds); non-string JSON values are not modelled. The store is keyed by integer ids, and the database's conversion of the string ids is not modelled.
- `findOne` without an ordering returns whatever row the database yields first; the model takes the first row in table order.
- The 500 reply of `POST /transacao` ("Erro ao atualizar o saldo") when the lookup or the save raises a store error: `Bank.Credit` has no store-error input, so a credit either finds the account and saves or answers 404.
- The 404 of `GET /relatorio` when user 1 is missing: the users table is not modelled. `totalSaldo`: its value depends on the runtime type of `saldo_atual`.
- The amounts summed by the report are taken as numbers; string concatenation from a driver that returns decimals as text is not modelled.
- Registration and its random account number, and the category routes: database calls and `Math.random` with no logic of their own.

## Findings

| source | as written | input that shows it | evidently intended | confidence | as-written member | corrected member |
|---|---|---|---|---|---|---|
| index.js:86-98 | after sorting, the lower `ID_Conta` is set to the origin's balance minus the amount and the higher to the destination's balance plus the amount | origin user 1 owns account 2 with 100.00, destination user 2 owns account 1 with -50.00, `'gasto'` of 30.00: the origin ends at -20.00 and the destination at 70.00 | sort only to fix the order of the updates; debit the origin and credit the destination | high; not executed | `Transfer.WritesSwapRoles` | `Transfer.IntendedWritesRoles` |

The transfer model itself (`AttemptSpec`, `Bank.Attempt`) keeps the writes as
written, because that is what the routine does; `Transfer.IntendedWrites` is
the corrected definition, with its properties proved in
`Transfer.IntendedWritesRoles`.
