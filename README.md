# Bank accounts, ledgers and CSV transaction replay — a Dafny model

This project models the in-memory core of a small Python bank package.

**Accounts.** `BankAccount` has:
- an owner that never changes;
- a cached balance;
- an append-only ledger of tagged entries: OPEN, DEPOSIT, WITHDRAW, TRANSFER_OUT and TRANSFER_IN.

A deposit or a withdrawal validates its amount, updates the balance and appends one entry. `transfer_to` does three things in order:
1. withdraws from the sender;
2. deposits into the receiver;
3. adds a TRANSFER_OUT / TRANSFER_IN annotation pair.

So every transfer leaves two entries on each side. The balance is therefore OPEN + ΣDEPOSIT − ΣWITHDRAW over the ledger, and the TRANSFER entries move nothing.

**CSV layer.** Around the accounts the package provides:
- **A loader** that turns `(owner, opening_balance)` rows into a map from owner to account. It rejects empty and duplicate owners.
- **A replay loop** that applies transaction rows `(owner, event, amount, other)` to that map in order. It stops at the first bad row and does not roll back. It also tries to skip the second half of a mirrored transfer by remembering the triples it has applied (`auto_pairs`).
- **Two exporters** that turn ledgers back into rows.

Modules:

- `outcomes.dfy` — `Outcomes`: `Option`, `Result`, `Status` and one `Error` per failure the model covers. The two counterparty raises of the replay loop share `InvalidCounterparty`; the raises for I/O, headers and type checks are not modelled (see "## Left out").
- `bank.dfy` — `Bank`:
  - the `Entry` datatype and the balance fold `Balance`;
  - `AccountValue` and its invariant `WellFormed`;
  - value-level operations (`Opened`, `Deposited`, `Withdrawn`, `Transferred` on a map keyed by owner);
  - the mutable class `Account`. Its methods are proved against the value-level operations, including `transfer_to` from an account to itself.
- `applier.dfy` — `Applier`:
  - the replay loop as written, as a pure `Step`/`Run`;
  - the imperative `ApplyTransactions`, which mutates `Account` objects through the map. It is proved to leave exactly the accounts `Run` computes, with the same status;
  - the per-row and whole-run properties, and the two findings below.
- `paired.dfy` — `PairedApplier`: the replay loop with mirror rows matched as evidently intended. It is the corrected half of both findings.
- `loading.dfy` — `Loading`:
  - the loader as a pure fold `Loaded`;
  - an imperative `LoadAccounts` that creates `Account` objects;
  - a reference description of which files are accepted and with which error.
- `export.dfy` — `Export`: the single-account and combined export rows, how they read back, and how the two exports relate.
- `scenario.dfy` — `Scenario`: the worked Alice/Bob example of the repository's tests.

The loop in `ApplyTransactions` and the model of the code as written agree on every input. The corrected replay `PairedApplier` shares every non-transfer row with it (`PairedApplier.PairedStepAgreesOffTransfers`). On a TRANSFER_OUT row directly followed by its mirror, starting from the same accounts, both loops succeed and end with the same accounts (`PairedApplier.AgreesWhenOutComesFirst`). This is a statement about that two-row batch only: once further rows follow, the two loops can differ, which is the point of the findings below.

The ledger invariant follows the code. One possible reading of the ledger makes TRANSFER_OUT subtract and TRANSFER_IN add as well. That reading would count every transfer twice, because `transfer_to` already logs a WITHDRAW and a DEPOSIT (src/bank.py:47-50). `Bank.Effect` gives the TRANSFER entries no effect, and `Bank.NoteSpec` proves that the annotations keep the balance fold.

## Model

| member | source | states |
|---|---|---|
| Bank.CheckAmount | src/bank.py:55-59 | `_validate_amount` accepts exactly the positive amounts and refuses the rest with NonPositiveAmount; the contract is carried by `Bank.DepositedSpec` and `Bank.WithdrawnSpec`, which state the iff for both operations that call it. |
| Bank.Opened | src/bank.py:15-22 | The constructor as a value. `Bank.OpenedSpec` states its contract: EmptyOwner, then NegativeOpening, otherwise a well-formed account with balance = opening and ledger [OPEN(opening)]. |
| Bank.Deposited | src/bank.py:32-35 | `deposit` as a value. `Bank.DepositedSpec` states its contract: fails exactly for amount <= 0, otherwise credits the amount and appends exactly DEPOSIT(amount), keeping the account well formed. |
| Bank.Withdrawn | src/bank.py:37-42 | `withdraw` as a value. `Bank.WithdrawnSpec` states its contract: NonPositiveAmount, then InsufficientFunds, otherwise debits the amount and appends exactly WITHDRAW(amount), the balance staying non-negative. |
| Bank.Transferred | src/bank.py:44-50 | `transfer_to` over a map keyed by owner. `Bank.TransferredFails`, `Bank.TransferredShape`, `Bank.TransferBetween`, `Bank.TransferToSelf` and `Bank.TransferredValid` state its contract: fails exactly when the withdrawal does, otherwise the four ledger entries and the balance moves, every other account unchanged. |
| Bank.OpenedSpec | src/bank.py:15-22 | An account is refused with EmptyOwner for an empty owner, otherwise with NegativeOpening for a negative opening balance, and for nothing else. A new account has that owner, balance equal to the opening amount, ledger exactly [OPEN(opening)], and is well formed. |
| Bank.Account.constructor | src/bank.py:20-22 | The successful construction stores the owner, sets the balance to the opening amount and the ledger to [OPEN(opening)], and establishes the invariant. |
| Bank.Account.Create | src/bank.py:15-22 | `__init__` with its checks: fails exactly for an empty owner or a negative opening balance, with the error `Opened` gives. Otherwise it returns a fresh, valid account whose value is `Opened`'s. |
| Bank.DepositedSpec | src/bank.py:32-35 | A deposit fails exactly when the amount is <= 0, with NonPositiveAmount. Otherwise the balance rises by the amount, exactly DEPOSIT(amount) is appended, the owner is kept and the account stays well formed. |
| Bank.Account.Deposit | src/bank.py:32-35 | The status is `_validate_amount`'s verdict. A failure changes neither balance nor ledger. A success adds the amount and appends exactly DEPOSIT(amount). The invariant is kept. |
| Bank.WithdrawnSpec | src/bank.py:37-42 | A withdrawal fails with NonPositiveAmount for an amount <= 0 and with InsufficientFunds for an amount above the balance, and otherwise succeeds. Success subtracts the amount, appends exactly WITHDRAW(amount) and keeps the balance non-negative. |
| Bank.Account.Withdraw | src/bank.py:37-42 | The status is the amount check, then the funds check, on the old balance. A failure changes nothing. A success subtracts the amount and appends exactly WITHDRAW(amount). The invariant is kept. |
| Bank.NoteSpec | src/bank.py:49-50 | Appending a TRANSFER_OUT or TRANSFER_IN entry with a positive amount leaves the balance fold unchanged and the account well formed. |
| Bank.DepositThenWithdraw | src/bank.py:32-42 | Depositing and then withdrawing the same positive amount both succeed. The balance is restored, and the ledger gains exactly DEPOSIT then WITHDRAW. |
| Bank.TransferredShape | src/bank.py:44-50 | When the withdrawal check passes, the map after `transfer_to` is given exactly. Between two accounts: the sender is debited and notes TRANSFER_OUT(receiver); the receiver is credited and notes TRANSFER_IN(sender). An account paying itself goes through all four steps. |
| Bank.TransferredFails | src/bank.py:47-48 | A transfer fails exactly when its withdrawal check fails, with the same error. Once the withdrawal succeeds, the deposit cannot fail. |
| Bank.TransferBetween | src/bank.py:44-50 | Between two different accounts: the account set is the same and every other account is unchanged. The sender loses the amount, and its ledger gains WITHDRAW then TRANSFER_OUT naming the receiver. The receiver gains the amount, and its ledger gains DEPOSIT then TRANSFER_IN naming the sender. |
| Bank.TransferToSelf | src/bank.py:44-50 | An account paying itself keeps its balance. Its ledger gains WITHDRAW, DEPOSIT, TRANSFER_OUT(self) and TRANSFER_IN(self), in that order. |
| Bank.TransferredValid | src/bank.py:44-50 | A successful transfer keeps every account of the map well formed and stored under its owner. |
| Bank.Account.TransferTo | src/bank.py:44-50 | The status is the withdrawal's. A failure leaves both accounts untouched. When `other` is a different account, the sender and receiver balances and ledgers change as in TransferBetween. When `other` is this account, the balance is unchanged and the four entries are appended. Both accounts stay valid. |
| Bank.Account.Annotate | src/bank.py:49-50 | No balance moves. TRANSFER_OUT naming `other` is appended here and TRANSFER_IN naming this owner is appended there; when `other` is this account, both are appended here in that order. |
| Bank.Account.Statement | src/bank.py:52-53 | Returns the whole ledger, whose first entry is the OPEN entry. |
| Applier.Step | src/io_csv.py:165-192 | A row that succeeds keeps the set of accounts, and the recorded pairs only grow. |
| Applier.Run | src/io_csv.py:164-192 | A run keeps the set of accounts, and the recorded pairs only grow. |
| Applier.CallDeposit | src/io_csv.py:175-176 | `accounts[owner].deposit(amount)` through the map. Fails exactly as `Deposited` does and then changes nothing. Otherwise the map's accounts become `Deposited`'s result for the owner and are unchanged elsewhere. |
| Applier.CallWithdraw | src/io_csv.py:177-178 | The same for `withdraw`, against `Withdrawn`. |
| Applier.CallTransfer | src/io_csv.py:179-189 | `transfer_to` between two accounts of the map, including the same one twice. Fails exactly as `Transferred` does and then changes nothing. Otherwise the map's accounts become exactly `Transferred`'s result. |
| Applier.ApplyRecord | src/io_csv.py:165-192 | One iteration over the mutable accounts. A failure is `Step`'s error and leaves every account as it was. A success leaves exactly `Step`'s accounts and auto_pairs. |
| Applier.ApplyNext | src/io_csv.py:164-192 | Row i of the loop over the mutable accounts, against the run of the rows from i on. A failure ends that run with its error and changes no account. A success leaves the accounts and auto_pairs from which the run of the rows after i continues. |
| Applier.ApplyTransactions | src/io_csv.py:164-192 | The loop over the mutable accounts. Its status is `Run`'s status from the loaded accounts with no pairs, and the accounts end exactly as `Run` leaves them. |
| Applier.ParseEvent | src/io_csv.py:166-192 | The upper-cased event column selects one of the four branches or none. `Applier.ParseEventIgnoresCase` and `Applier.ParseEventNames` state its contract: case does not matter, and the four upper-case names select DEPOSIT, WITHDRAW, TRANSFER_OUT and TRANSFER_IN. |
| Applier.UpperIdempotent | src/io_csv.py:166 | Upper-casing twice is upper-casing once. |
| Applier.ParseEventIgnoresCase | src/io_csv.py:166 | The event column is read without regard to (ASCII) case. |
| Applier.ParseEventNames | src/io_csv.py:175-184 | DEPOSIT, WITHDRAW, TRANSFER_OUT and TRANSFER_IN name the four kinds. |
| Applier.RunConcat | src/io_csv.py:164-192 | Rows are applied strictly in order. Running first + rest runs first, stops there if it failed, and otherwise continues with rest from the state first left. |
| Applier.RunStopsAtFirstFailure | src/io_csv.py:164-192 | If the rows before row i succeed and row i fails, the run ends with row i's error. The changes of the earlier rows stay, with no rollback, whatever follows. |
| Applier.UnknownOwnerStops | src/io_csv.py:170-171 | A row whose owner is not loaded fails with UnknownAccount before its event is examined. The run ends there with nothing changed. |
| Applier.UnknownEventFails | src/io_csv.py:191-192 | A loaded owner with an event other than the four kinds fails with UnknownEvent. |
| Applier.BlankAmountRefused | src/io_csv.py:167-190 | An empty amount reads as 0. For a loaded owner and a known event, the row then fails amount validation with NonPositiveAmount, provided a transfer row names a usable `other` (otherwise it fails first with InvalidCounterparty) and a TRANSFER_IN is not skipped as a recorded mirror (a skipped row never reaches the check). |
| Applier.DepositWithdrawRows | src/io_csv.py:175-178 | DEPOSIT and WITHDRAW rows fail exactly when the account operation does, with its error. Otherwise only the owner's account changes, as the operation says, and the pairs are kept. |
| Applier.TransferOutRow | src/io_csv.py:179-183 | TRANSFER_OUT needs a non-empty, loaded `other`, else InvalidCounterparty. It then performs exactly one owner-to-other transfer, or fails with the transfer's error, and records (other, amount, owner). |
| Applier.TransferInRow | src/io_csv.py:184-190 | A TRANSFER_IN whose (owner, amount, other) is recorded is a no-op, decided before `other` is checked. Otherwise it needs a loaded `other`, performs exactly one other-to-owner transfer and records (owner, amount, other). |
| Applier.StepPreservesValid | src/io_csv.py:173-190 | A row that succeeds keeps every account well formed and stored under its owner. |
| Applier.RunPreservesValid | src/io_csv.py:164-192 | Whatever the rows, a run keeps every account well formed (no balance becomes negative) and keeps the set of accounts. |
| Applier.MirrorAfterTransferOutSkipped | src/io_csv.py:183-186 | TRANSFER_OUT followed by its mirror TRANSFER_IN performs the transfer once and records the triple once. |
| Applier.MirrorBeforeTransferOutAppliedTwice | src/io_csv.py:179-190 | As written: TRANSFER_IN followed by its mirror TRANSFER_OUT transfers the amount twice. The sender loses 2·amount and the receiver gains 2·amount. |
| Applier.RepeatedTransferInSkipped | src/io_csv.py:185-190 | As written: two identical, independent TRANSFER_IN rows move the amount only once, because the second is taken for a mirror. |
| PairedApplier.PairedStep | src/io_csv.py:165-192 | Corrected row step: a successful row keeps the set of accounts. |
| PairedApplier.PairedRun | src/io_csv.py:164-192 | Corrected run: keeps the set of accounts. |
| PairedApplier.PairedStepAgreesOffTransfers | src/io_csv.py:170-178 | On every row that is not a transfer, the corrected step succeeds or fails exactly as the code's step does, with the same error or the same accounts. |
| PairedApplier.PairedStepPreservesValid | src/io_csv.py:173-190 | A corrected row that succeeds keeps every account well formed and keyed by owner. |
| PairedApplier.PairedRunPreservesValid | src/io_csv.py:164-192 | A corrected run keeps every account well formed and keyed by owner. |
| PairedApplier.PairedOutRow | src/io_csv.py:179-183 | Corrected TRANSFER_OUT with a usable `other` does one of two things. If its transfer is waiting for this row, it consumes one waiting copy and changes no account. Otherwise it performs the transfer, or fails with its error, and waits for the TRANSFER_IN mirror. |
| PairedApplier.PairedInRow | src/io_csv.py:184-190 | Corrected TRANSFER_IN first consumes a waiting copy of its transfer, if there is one. Otherwise it needs a loaded `other`, then performs the transfer and waits for the TRANSFER_OUT mirror. |
| PairedApplier.MirrorAfterOut | src/io_csv.py:179-190 | Corrected: TRANSFER_OUT then its mirror performs the transfer once and leaves the waiting sets as they were. |
| PairedApplier.MirrorBeforeOut | src/io_csv.py:179-190 | Corrected: the mirror TRANSFER_IN then TRANSFER_OUT performs the transfer once and leaves the waiting sets as they were. |
| PairedApplier.MirrorOrderIrrelevant | src/io_csv.py:179-190 | Corrected: a transfer and its mirror end in the same state in either order. |
| PairedApplier.RepeatedTransferInApplied | src/io_csv.py:184-190 | Corrected: two independent identical TRANSFER_IN rows are two transfers. The sender loses 2·amount and the receiver gains 2·amount. |
| PairedApplier.AgreesWhenOutComesFirst | src/io_csv.py:179-190 | On the two-row batch of a TRANSFER_OUT directly followed by its mirror TRANSFER_IN, started from the same accounts with that transfer not already waiting, the code's loop and the corrected one both succeed and end with the same accounts. |
| Loading.LoadStep | src/io_csv.py:73-77 | One accounts row against the map loaded so far. `Loading.StepMatchesRowError` states its contract: refused exactly for an empty owner, then a repeated owner, then a negative opening, with those errors in that order. `Loading.OpenInto` is the imperative step proved against it. |
| Loading.Loaded | src/io_csv.py:61-78 | The whole load. `Loading.LoadedAccepts`, `Loading.LoadedFirstError`, `Loading.LoadedContents` and `Loading.LoadedValid` state its contract: succeeds exactly on acceptable files, reports the first bad row's error, and builds one new well-formed account per row under its owner. |
| Loading.LoadFrom | src/io_csv.py:61-77 | Loading more rows never drops an account already loaded. |
| Loading.OpenInto | src/io_csv.py:71-77 | One row over the mutable map does one of two things. It fails exactly as `LoadStep` does: EmptyOwnerRow, then DuplicateOwner, then the constructor's NegativeOpening. Otherwise it adds one fresh, valid account under its owner and keeps the others. |
| Loading.LoadNext | src/io_csv.py:61-77 | Row i of the loading loop. A failure is the whole file's error. A success turns the accounts of the first i rows into those of the first i + 1, keyed by owner, valid, the earlier ones kept and the new one fresh. |
| Loading.LoadAccounts | src/io_csv.py:61-78 | The loop fails exactly when `Loaded` does, with the same error. Otherwise it returns fresh, valid accounts stored under their owners, whose values are exactly `Loaded`'s. |
| Loading.LoadStops | src/io_csv.py:61-77 | A load that fails on some prefix of the rows fails with that error on the whole file. |
| Loading.LoadedContents | src/io_csv.py:73-77 | A successful load's keys are exactly the owners of the rows. Each owner maps to a new account with balance equal to its opening amount and ledger [OPEN(opening)]. |
| Loading.LoadedAccepts | src/io_csv.py:73-77 | A load succeeds exactly when every row has a non-empty owner, an owner not named by an earlier row, and a non-negative opening balance. |
| Loading.StepMatchesRowError | src/io_csv.py:73-77 | Against the accounts loaded from the earlier rows, one row is refused exactly when it has an empty owner, repeats an earlier owner or has a negative opening balance, with the error the loader raises in that order. |
| Loading.LoadedFirstError | src/io_csv.py:73-77 | A refused load reports the error of the first unacceptable row, checked in the loader's order. |
| Loading.LoadedValid | src/io_csv.py:73-77 | Every loaded account is well formed and stored under its own owner. |
| Export.LedgerRows | src/io_csv.py:93-104 | A single-account export has at most one row per ledger entry. |
| Export.AccountRows | src/io_csv.py:115-129 | An account's part of the combined export has at most one row per ledger entry, and every row carries that account's owner. |
| Export.TransactionRows | src/io_csv.py:106-129 | The combined export: every row carries the owner of one of the exported accounts. `Export.AccountRowsTagged`, `Export.TransactionRowsConcat` and `Export.CombinedRestrictsToSingle` state the rest: accounts in the given order, each account's rows its single export with the owner added. |
| Export.RowRoundTrip | src/io_csv.py:97-102 | Every row written for a non-OPEN entry reads back as exactly that entry. |
| Export.LedgerRowsRoundTrip | src/io_csv.py:93-104 | A single-account export reads back as exactly the ledger's non-OPEN entries, in ledger order. |
| Export.LedgerRowsOfAccount | src/io_csv.py:93-104 | For a well-formed account there is exactly one row per entry after OPEN, and row k is the row of entry k+1. |
| Export.OtherColumn | src/io_csv.py:119-126 | DEPOSIT and WITHDRAW rows, and only those, carry those event names and an empty `other`. Transfer rows carry the counterparty the entry recorded. |
| Export.AccountRowsTagged | src/io_csv.py:114-129 | An account's combined rows are its single-account rows, one for one, with the owner column added. |
| Export.TransactionRowsConcat | src/io_csv.py:114-129 | The combined export takes accounts in the order given. Exporting two lists of accounts gives the first list's rows, then the second's. |
| Export.RowsForAccount | src/io_csv.py:114-129 | Selecting one owner from an account's combined rows gives that account's single export if the owner is its own, and nothing otherwise. |
| Export.CombinedRestrictsToSingle | src/io_csv.py:85-129 | With distinct owners, the combined export restricted to one account's owner is exactly that account's single-account export. |
| Scenario.ScenarioLoads | test/test_io_pytest.py:10-17 | Loading Alice 100 and Bob 50 gives exactly those two accounts with those opening balances. |
| Scenario.ScenarioRun | test/test_io_pytest.py:26-43 | DEPOSIT 20, WITHDRAW 10 and TRANSFER_OUT 40 to Bob succeed and leave Alice at 70 and Bob at 90, with the ledgers the code writes. |
| Scenario.ScenarioExport | test/test_io_pytest.py:45-49 | The combined export then lists Alice's four rows and Bob's two, among them TRANSFER_OUT and TRANSFER_IN. |

## Findings

| source | as written | input that shows it | evidently intended | confidence | as-written member | corrected member |
|---|---|---|---|---|---|---|
| src/io_csv.py:184-186 | Only TRANSFER_IN rows look in `auto_pairs`. A TRANSFER_OUT row always transfers. | Bob,TRANSFER_IN,40,Alice then Alice,TRANSFER_OUT,40,Bob, with Alice holding at least 80 | A transfer and its mirror row are carried out once, whichever comes first. Here Alice loses 40, not 80. | not executed | Applier.MirrorBeforeTransferOutAppliedTwice | PairedApplier.MirrorOrderIrrelevant |
| src/io_csv.py:183-190 | `auto_pairs` is never pruned, so a recorded triple suppresses every later TRANSFER_IN with the same (owner, amount, other). | Bob,TRANSFER_IN,40,Alice twice, with Alice holding at least 80 | Each independent transfer is carried out once. Here Bob gains 80, not 40. | not executed | Applier.RepeatedTransferInSkipped | PairedApplier.RepeatedTransferInApplied |

The corrected loop, `PairedApplier.PairedStep`, keeps two multisets of transfers that are waiting for their mirror row. One holds transfers waiting for a TRANSFER_IN; the other holds transfers waiting for a TRANSFER_OUT. A mirror row consumes one waiting copy. The imperative `Applier.ApplyTransactions` models the code as written.

## Left out

- CSV and file plumbing is not modelled, nor are its raises (src/io_csv.py:49, 57, 142 and 149):
  - opening and sniffing files;
  - header normalisation and the required-header checks;
  - blank-row skipping and whitespace stripping;
  - writing rows to files.

  Rows arrive already parsed: `Loading.OwnerRow` and `Applier.Record`. The exporters return row sequences.
- The command-line entry point and `format_currency` are not modelled; they are formatting and I/O only.
- Amounts are exact reals, not floating point. Amount strings are not parsed (a failed `float(...)` raises ValueError, which is not modelled). An empty amount column is `Blank` and reads as 0. NaN and rounding do not arise.
- The default `opening_balance = 0.0` of the constructor (src/bank.py:15) is not modelled: `Bank.Opened` and `Bank.Account.Create` always take the opening amount, which the loader always supplies.
- The `TypeError` branches of `transfer_to` and `_validate_amount` cannot be reached with typed arguments.
- `owner` and `balance` are read-only properties. They are the `Account` fields `owner` (a `const`) and `balance`, which only the class's methods change.
- Upper-casing of the event column covers the ASCII letters only. Python's full Unicode `str.upper()` is not modelled. It cannot turn a non-ASCII string into one of the four event names except through special cases such as the dotless ı, which are left out.
- A missing `other` value (`None` in the code) is modelled as the empty string. The code rejects both the same way.
- A transaction row whose owner or event column is missing entirely (an AttributeError or KeyError in the code) is not modelled.
- The "Unknown ledger entry" error of both exporters is unreachable: `Bank.Entry` has exactly the five kinds.
- Applier.ApplyTransactions: requires every account to be stored under its own owner name, as the loader builds the map. A hand-built map that stores one object under two keys is not covered.
- Applier.CallTransfer: the same requirement.
- There is no concurrency in the code, and none is modelled.
