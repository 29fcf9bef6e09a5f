# Banking ledger model

A Dafny model of the account ledger of a small command-line banking program.
An `Account` holds an account number, a holder's name and a balance; `deposit`
adds to the balance, `withdraw` subtracts only when the balance covers the
amount, and `checkBalance` and `transcript` only read. A `Bank` owns a table
from account number to account object. It loads the table from the file
`accounts.json` when it is built; a missing or unreadable file gives an empty
table. `createAccount` adds an account under a number not yet used and writes
the whole table back to the file. `authenticate` returns the stored account
object or `null`.

Files and modules:

- `wrappers.dfy` (`Wrappers`): the `Option` type, used for `null` and for a file that cannot be used.
- `account.dfy` (`Accounts`): the account's value `Record`, and the functions
  `DepositInto` and `WithdrawFrom` that say what deposit and withdraw do to it.
  It also holds the class `Account`, whose methods change the `amount` field
  in place and are proved against those functions.
- `bank.dfy` (`Banks`): the file as an object (`LedgerFile`), and the value-level
  ledger operations `Loaded`, `Create` and `Lookup`, written as reference
  definitions. It also holds the class
  `Bank`, whose `accounts` field is a `map<string, Account>`. `Bank.Valid()`
  says that no two numbers share one account object. `Bank.Ledger()` is the
  table's value. Every `Bank` method is proved against the value-level
  operations.
- `session.dfy` (`Sessions`): a sequence of deposits and withdrawals on one
  account, and one round of the transaction menu through the account object
  that `authenticate` returns. It also holds saving followed by reloading, and
  an example session.

Modelling choices:

- Amounts are `real`. The model assumes every amount is already a number.
- Account numbers and names are strings.
- The file is modelled by its contents: `None` when it is missing or cannot
  be parsed, `Some(ledger)` for an object of account records.
- The program's single global bank becomes a `Bank` object built from an
  explicit `LedgerFile`.
- Report strings become datatypes: `WithdrawOutcome` (`Withdrawn(newBalance)`
  or `InsufficientBalance`), `CreateOutcome` (`Created` or `AlreadyExists`),
  and `Report` for one menu round.
- `loadAccounts` rebuilds each account from the number stored inside the
  entry, not from the entry's key. So a loaded entry's number can differ from
  its key, and the model allows that.
- The presence test in `createAccount` and `authenticate` also finds names
  that every JavaScript object inherits, such as "toString". That behaviour is
  modelled separately (`FoundAsWritten`, `CreateAsWritten`). `Bank.CreateAccount`
  and `Bank.Authenticate` model the corrected behaviour, where only keys of the
  table are present; see Findings.

## Model

| member | source | states |
|---|---|---|
| `Accounts.Account.constructor` | BankingManagement.js:14-18 | A new account has the given number and name, and the initial amount as its balance. |
| `Accounts.Account.CheckBalance` | BankingManagement.js:20-22 | Returns the current balance and changes nothing. |
| `Accounts.Account.Deposit` | BankingManagement.js:24-27 | The balance grows by exactly the amount. The number and name are unchanged. It always succeeds and reports the new balance. |
| `Accounts.Account.Withdraw` | BankingManagement.js:29-36 | When `amount >= amt`, the balance drops by exactly `amt`, stays non-negative, and the new balance is reported. Otherwise it reports insufficient balance and the account is unchanged. |
| `Accounts.Account.Transcript` | BankingManagement.js:38-44 | Returns the number, name and balance as they are, without changing them. |
| `Accounts.WithdrawFrom` | BankingManagement.js:29-36 | A withdrawal goes ahead if and only if the balance covers it. The balance left after one is never negative. Number and name are never changed. |
| `Accounts.DepositThenWithdraw` | BankingManagement.js:24-35 | If the balance is not negative, withdrawing what was just deposited is accepted and restores the account exactly. |
| `Accounts.WithdrawThenDeposit` | BankingManagement.js:24-35 | After an accepted withdrawal, depositing the same amount restores the account exactly. |
| `Accounts.DepositMayGoNegative` | BankingManagement.js:24-27 | Deposits are not checked for sign: any negative deposit lowers the balance, and from a zero balance it leaves the balance negative. |
| `Banks.Create` | BankingManagement.js:71-79 | Creation succeeds if and only if the number is absent. A refusal leaves the table identical. A success adds exactly one entry, number to a record of that number, name and amount. Every existing entry keeps its value. |
| `Banks.CreateThenLookup` | BankingManagement.js:71-83 | After creating an account, looking up its number finds the new record exactly when the creation succeeded. Every other lookup gives the same answer as before. |
| `Banks.CreateTwice` | BankingManagement.js:71-79 | Creating the same number twice: the first call succeeds, the second is refused and changes nothing, and the first account stays as created. |
| `Banks.Bank.constructor` | BankingManagement.js:49-51 | The bank's table is what `loadAccounts` yields from its file, with one distinct object per number. |
| `Banks.Bank.LoadAccounts` | BankingManagement.js:53-65 | One account object per stored entry, under the same key, with the stored number, name and amount. No two keys share an object. An unusable file gives an empty table. |
| `Banks.Bank.SaveAccounts` | BankingManagement.js:67-69 | The file is overwritten with the whole current table. |
| `Banks.Bank.CreateAccount` | BankingManagement.js:71-79 | The table changes exactly as `Create` says. A new account is a fresh object under that number, no other entry moves, and the file then holds the new table. A refused call leaves the table and the file untouched. |
| `Banks.Bank.Authenticate` | BankingManagement.js:81-83 | Returns the very account object stored under the number when there is one, and `null` otherwise. Changes nothing. The result agrees with `Lookup` on the bank's ledger: `null` when it finds nothing, otherwise the object whose record it finds. |
| `Banks.InheritedNameBlocksCreate` | BankingManagement.js:72-73 | On an empty ledger, the number "toString" is refused as written, though no account has it. The intended `Create` accepts it. |
| `Banks.InheritedNameAuthenticates` | BankingManagement.js:82 | On an empty ledger, "constructor" is found as written, though no account has it. The intended `Lookup` finds nothing. |
| `Sessions.ReplayKeepsIdentity` | BankingManagement.js:24-36 | No sequence of deposits and withdrawals changes an account's number or name. |
| `Sessions.ReplayNeverOverdraws` | BankingManagement.js:29-36 | Start from a non-negative balance and make no negative deposit: after any sequence of transactions the balance is still non-negative. |
| `Sessions.ReplayBoundedByDeposits` | BankingManagement.js:24-36 | With no negative withdrawal, the final balance is at most the starting balance plus all amounts deposited. |
| `Sessions.NegativeWithdrawalAddsMoney` | BankingManagement.js:29-32 | Withdrawals are not checked for sign: from any non-negative balance, a negative withdrawal is accepted and raises the balance by its magnitude. |
| `Sessions.Transact` | BankingManagement.js:134-158 | An unknown number reports not found and changes nothing. Otherwise the deposit or withdrawal made through the returned object changes the bank's table under that number only, by exactly that transaction, and the file then holds the new table. The report carries the real outcome: the new balance after a deposit, or the accepted or refused withdrawal. |
| `Sessions.SaveThenReload` | BankingManagement.js:49-69 | Saving the table and then building a bank from the file gives back the same numbers, names and balances. |
| `Sessions.ExampleSession` | BankingManagement.js:71-83 | Open "1001" for "Asha" with 500, deposit 200 (700), withdraw 1000 (refused, still 700), withdraw 700 (0). Opening "1001" again is refused, and "9999" is not found. |

## Findings

| source | as written | input that shows it | evidently intended | confidence | as-written member | corrected member |
|---|---|---|---|---|---|---|
| BankingManagement.js:72 | `if (this.accounts[accountNumber])` also finds the members that every object inherits from Object.prototype, so creation is refused for those numbers | `createAccount("toString", "Asha", 500)` on an empty ledger answers "Account already exists." | refuse only numbers that are keys of the table | high; not executed | `Banks.InheritedNameBlocksCreate` | `Banks.Create` |
| BankingManagement.js:82 | `this.accounts[accountNumber] \|\| null` returns an inherited member (a function) instead of `null`, so the menu then calls `deposit` on it | `authenticate("constructor")` on an empty ledger | return `null` unless the number is a key of the table | high; not executed | `Banks.InheritedNameAuthenticates` | `Banks.Bank.Authenticate` |

## Left out

- The interactive prompt loop is not modelled: the menu dispatch, continue or quit, and invalid choices (`startBankingSystem`, `askContinueOrQuit`). These are readline callbacks. `Sessions.Transact` models only the effect of menu choices 1 and 2 on the table and on the saved file. Choices 3 and 4 are the read-only `CheckBalance` and `Transcript`.
- The progress bar and the timer delays are not modelled: they are cosmetic.
- Reading and writing the file, and JSON text, are not modelled: they are I/O. The file is its parsed contents. A file that parses to something other than an object of account records is not modelled.
- `parseFloat` and `NaN` are not modelled, and neither is floating-point rounding: amounts are assumed to be numbers already.
- Line 30 compares the balance with the raw, unparsed input. The model compares it with the number.
- The coloured message text is not modelled: reports are datatypes.
- `Banks.Bank.constructor`: does not state that the loaded account objects are newly allocated. `Banks.Bank.LoadAccounts` states its result by values and by distinctness only. Accounts created later are stated fresh by `CreateAccount`.
- A crash during a write, and running two processes on one file, are not modelled: the program itself gives no guarantee for either.
