/**
 * What a sequence of transactions does to one account. In the source each
 * "continue" starts a new round of the menu, and choices 1 and 2 apply a
 * deposit or a withdrawal to the authenticated account; the prompts themselves
 * are not modelled.
 */
module Sessions {
  import opened Wrappers
  import opened Accounts
  import opened Banks

  /** Menu choice 1 (deposit) or 2 (withdraw), with the amount entered. */
  datatype Transaction = Deposit(amount: real) | Withdraw(amount: real)

  /** The account after one transaction. */
  function Apply(r: Record, t: Transaction): (r': Record)
  {
    match t
    case Deposit(amt) => DepositInto(r, amt)
    case Withdraw(amt) => WithdrawFrom(r, amt).0
  }

  /** The account after the transactions, applied in order. */
  function Replay(r: Record, ts: seq<Transaction>): (r': Record)
    decreases |ts|
  {
    if ts == [] then r else Replay(Apply(r, ts[0]), ts[1..])
  }

  /** No deposit in `ts` has a negative amount. */
  predicate DepositsNonNegative(ts: seq<Transaction>)
  {
    forall i :: 0 <= i < |ts| && ts[i].Deposit? ==> 0.0 <= ts[i].amount
  }

  /** The sum of the amounts deposited. */
  function TotalDeposited(ts: seq<Transaction>): (total: real)
    decreases |ts|
  {
    if ts == [] then 0.0
    else (if ts[0].Deposit? then ts[0].amount else 0.0) + TotalDeposited(ts[1..])
  }

  /** Transactions never change an account's number or name. */
  lemma {:induction false} ReplayKeepsIdentity(r: Record, ts: seq<Transaction>)
    ensures Replay(r, ts).accountNumber == r.accountNumber
    ensures Replay(r, ts).name == r.name
    decreases |ts|
  {
    if ts != [] {
      ReplayKeepsIdentity(Apply(r, ts[0]), ts[1..]);
    }
  }

  /**
   * Starting from a balance that is not negative, and with no negative deposit,
   * no sequence of transactions makes the balance negative: a withdrawal is
   * refused rather than overdrawing.
   */
  lemma {:induction false} ReplayNeverOverdraws(r: Record, ts: seq<Transaction>)
    requires 0.0 <= r.amount
    requires DepositsNonNegative(ts)
    ensures 0.0 <= Replay(r, ts).amount
    decreases |ts|
  {
    if ts != [] {
      assert DepositsNonNegative(ts[1..]) by {
        forall i | 0 <= i < |ts[1..]| && ts[1..][i].Deposit?
          ensures 0.0 <= ts[1..][i].amount
        {
          assert ts[1..][i] == ts[i + 1];
        }
      }
      ReplayNeverOverdraws(Apply(r, ts[0]), ts[1..]);
    }
  }

  /** No withdrawal in `ts` has a negative amount. */
  predicate WithdrawalsNonNegative(ts: seq<Transaction>)
  {
    forall i :: 0 <= i < |ts| && ts[i].Withdraw? ==> 0.0 <= ts[i].amount
  }

  /**
   * With no negative withdrawal, the balance never rises above the starting
   * balance plus everything deposited.
   */
  lemma {:induction false} ReplayBoundedByDeposits(r: Record, ts: seq<Transaction>)
    requires WithdrawalsNonNegative(ts)
    ensures Replay(r, ts).amount <= r.amount + TotalDeposited(ts)
    decreases |ts|
  {
    if ts != [] {
      assert WithdrawalsNonNegative(ts[1..]) by {
        forall i | 0 <= i < |ts[1..]| && ts[1..][i].Withdraw?
          ensures 0.0 <= ts[1..][i].amount
        {
          assert ts[1..][i] == ts[i + 1];
        }
      }
      ReplayBoundedByDeposits(Apply(r, ts[0]), ts[1..]);
    }
  }

  /** Withdrawals are not checked for sign either: from a non-negative balance, withdrawing a negative amount is accepted and adds money. */
  lemma NegativeWithdrawalAddsMoney(r: Record, amt: real)
    requires amt < 0.0 && 0.0 <= r.amount
    ensures WithdrawFrom(r, amt).1.Withdrawn?
    ensures Replay(r, [Withdraw(amt)]).amount == r.amount - amt > r.amount
  {
  }

  /** What one round of the transaction menu reports. */
  datatype Report = NotFound | Deposited(newBalance: real) | WithdrawReport(outcome: WithdrawOutcome)

  /**
   * One round of the transaction menu: authenticate the number, then deposit or
   * withdraw through the account object the bank returned, then save. The
   * change shows in the bank's table under that number only.
   */
  method Transact(bank: Bank, k: string, t: Transaction) returns (report: Report)
    requires bank.Valid()
    modifies bank.accounts.Values, bank.file
    ensures bank.accounts == old(bank.accounts) && bank.Valid()
    ensures report == NotFound <==> k !in bank.accounts
    ensures report == NotFound ==> bank.Ledger() == old(bank.Ledger()) && unchanged(bank.file)
    ensures report != NotFound ==>
              bank.Ledger() == old(bank.Ledger())[k := Apply(old(bank.Ledger())[k], t)]
              && bank.file.contents == Some(bank.Ledger())
    ensures report != NotFound ==>
              report == match t {
                case Deposit(_) => Deposited(bank.Ledger()[k].amount)
                case Withdraw(amt) => WithdrawReport(WithdrawFrom(old(bank.Ledger())[k], amt).1)
              }
  {
    var account := bank.Authenticate(k);
    if account == null {
      report := NotFound;
    } else {
      ghost var before := bank.Ledger();
      match t {
        case Deposit(amt) =>
          var newBalance := account.Deposit(amt);
          report := Deposited(newBalance);
        case Withdraw(amt) =>
          var outcome := account.Withdraw(amt);
          report := WithdrawReport(outcome);
      }
      ghost var after := before[k := Apply(before[k], t)];
      assert bank.Ledger() == after;
      bank.SaveAccounts();
      assert bank.Ledger() == after;
    }
  }

  /** Saving the ledger and building a bank from the file again gives back the same ledger. */
  method SaveThenReload(bank: Bank) returns (reloaded: Bank)
    modifies bank.file
    ensures reloaded.file == bank.file && reloaded.Valid()
    ensures reloaded.Ledger() == bank.Ledger()
  {
    bank.SaveAccounts();
    reloaded := new Bank(bank.file);
  }

  /**
   * An example session: account "1001" for "Asha" opened with 500, a deposit
   * of 200, a refused withdrawal of 1000, a withdrawal of 700; opening "1001"
   * again is refused and "9999" is not found.
   */
  method ExampleSession() returns (balance: real, again: CreateOutcome, unknown: Account?)
    ensures balance == 0.0
    ensures again == AlreadyExists
    ensures unknown == null
  {
    var file := new LedgerFile(None);
    var bank := new Bank(file);
    var created := bank.CreateAccount("1001", "Asha", 500.0);
    assert created == Created;

    var account := bank.Authenticate("1001");
    var newBalance := account.Deposit(200.0);
    assert newBalance == 700.0;
    var outcome := account.Withdraw(1000.0);
    assert outcome == InsufficientBalance;
    outcome := account.Withdraw(700.0);
    assert outcome == Withdrawn(0.0);

    again := bank.CreateAccount("1001", "Asha", 1.0);
    unknown := bank.Authenticate("9999");
    balance := account.CheckBalance();
  }
}
