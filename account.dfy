/**
 * One bank account: its number, the holder's name and its balance, with the
 * balance-changing operations deposit and withdraw and the read-only queries
 * checkBalance and transcript.
 *
 * Amounts are modelled as `real`: the source's `parseFloat` conversions, `NaN`
 * and floating-point rounding are not part of this model.
 */
module Accounts {

  /**
   * The value of an account: what the source's `transcript` shows and what is
   * written to the ledger file for it (`accountNumber`, `name`, `amount`).
   */
  datatype Record = Record(accountNumber: string, name: string, amount: real)

  /** What `withdraw` reports: the new balance, or "Insufficient balance". */
  datatype WithdrawOutcome = Withdrawn(newBalance: real) | InsufficientBalance

  /** The account after `deposit(amt)`; any amount is accepted, whatever its sign. */
  function DepositInto(r: Record, amt: real): (r': Record)
  {
    r.(amount := r.amount + amt)
  }

  /**
   * The account and the report after `withdraw(amt)`: the withdrawal goes ahead
   * exactly when the balance covers it, and a refused one changes nothing.
   */
  function WithdrawFrom(r: Record, amt: real): (res: (Record, WithdrawOutcome))
    ensures res.1.Withdrawn? <==> amt <= r.amount
    ensures res.1.Withdrawn? ==> res.1.newBalance == res.0.amount >= 0.0
    ensures res.0.accountNumber == r.accountNumber && res.0.name == r.name
  {
    if r.amount >= amt then
      var r' := r.(amount := r.amount - amt);
      (r', Withdrawn(r'.amount))
    else
      (r, InsufficientBalance)
  }

  /** A deposit is undone by withdrawing the same amount, provided the balance was not negative. */
  lemma DepositThenWithdraw(r: Record, amt: real)
    requires 0.0 <= r.amount
    ensures WithdrawFrom(DepositInto(r, amt), amt) == (r, Withdrawn(r.amount))
  {
  }

  /** A withdrawal that went ahead is undone by depositing the same amount. */
  lemma WithdrawThenDeposit(r: Record, amt: real)
    requires amt <= r.amount
    ensures DepositInto(WithdrawFrom(r, amt).0, amt) == r
  {
  }

  /** Deposits are not checked for sign: a negative deposit lowers the balance, and can leave it negative. */
  lemma DepositMayGoNegative(r: Record, amt: real)
    requires amt < 0.0
    ensures DepositInto(r, amt).amount < r.amount
    ensures r.amount == 0.0 ==> DepositInto(r, amt).amount < 0.0
  {
  }

  /** An account object; `amount` is its balance, changed in place. */
  class Account {
    var accountNumber: string
    var name: string
    var amount: real

    /** The account's current value. */
    function View(): (r: Record)
      reads this
    {
      Record(accountNumber, name, amount)
    }

    /** `new Account(accountNumber, name, initialAmount)`. */
    constructor (accountNumber: string, name: string, initialAmount: real)
      ensures View() == Record(accountNumber, name, initialAmount)
    {
      this.accountNumber := accountNumber;
      this.name := name;
      this.amount := initialAmount;
    }

    /** `checkBalance()`: reports the balance and changes nothing. */
    method CheckBalance() returns (balance: real)
      ensures balance == View().amount
    {
      balance := amount;
    }

    /** `deposit(amt)`: always succeeds and reports the new balance. */
    method Deposit(amt: real) returns (newBalance: real)
      modifies this
      ensures View() == DepositInto(old(View()), amt)
      ensures amount == old(amount) + amt
      ensures newBalance == amount
    {
      amount := amount + amt;
      newBalance := amount;
    }

    /** `withdraw(amt)`: subtracts only when `amount >= amt`, otherwise refuses and leaves the account as it was. */
    method Withdraw(amt: real) returns (outcome: WithdrawOutcome)
      modifies this
      ensures (View(), outcome) == WithdrawFrom(old(View()), amt)
      ensures outcome.Withdrawn? ==> amount == old(amount) - amt && 0.0 <= amount
      ensures outcome == InsufficientBalance ==> amt > old(amount) && unchanged(this)
    {
      if amount >= amt {
        amount := amount - amt;
        outcome := Withdrawn(amount);
      } else {
        outcome := InsufficientBalance;
      }
    }

    /** `transcript()`: the account's number, name and balance, without changing them. */
    method Transcript() returns (t: Record)
      ensures t.accountNumber == accountNumber && t.name == name && t.amount == amount
    {
      t := Record(accountNumber, name, amount);
    }
  }
}
