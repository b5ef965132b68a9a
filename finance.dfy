/**
 * The finance program: an account whose balance each transaction debits, a savings account that
 * refuses a debit larger than its balance, and the application's ordered record of transactions.
 * `decimal` amounts are exact; they are modelled as whole numbers of the smallest currency unit.
 */
module FinanceSys {
  import opened DateTimes

  /** `record Transaction(int Id, DateTime Date, decimal Amount, string Category)`. */
  datatype Transaction = Transaction(id: int, date: DateTime, amount: int, category: string)

  /** Which `ApplyTransaction` an account runs: the base `Account`'s or the `SavingsAccount` override. */
  datatype AccountKind = Standard | Savings

  /** The balance after one transaction of `amount` on an account of `kind` holding `balance`. */
  function Posted(kind: AccountKind, balance: int, amount: int): int
  {
    if kind == Savings && amount > balance then balance else balance - amount
  }

  /** The balance after the transactions of `amounts`, applied in order. */
  function BalanceAfter(kind: AccountKind, balance: int, amounts: seq<int>): int
    decreases |amounts|
  {
    if amounts == [] then balance else BalanceAfter(kind, Posted(kind, balance, amounts[0]), amounts[1..])
  }

  function Sum(amounts: seq<int>): int
    decreases |amounts|
  {
    if amounts == [] then 0 else amounts[0] + Sum(amounts[1..])
  }

  /** An account; its number is fixed when it is opened, its balance changes with each transaction. */
  class Account {
    const kind: AccountKind
    const accountNumber: string
    var balance: int

    /** `new Account(accountNumber, initialBalance)`. */
    constructor (accountNumber: string, initialBalance: int)
      ensures kind == Standard && this.accountNumber == accountNumber && balance == initialBalance
    {
      kind := Standard;
      this.accountNumber := accountNumber;
      balance := initialBalance;
    }

    /** `new SavingsAccount(accountNumber, initialBalance)`. */
    constructor OpenSavings(accountNumber: string, initialBalance: int)
      ensures kind == Savings && this.accountNumber == accountNumber && balance == initialBalance
    {
      kind := Savings;
      this.accountNumber := accountNumber;
      balance := initialBalance;
    }

    /**
     * The base account always debits, with no lower bound. A savings account leaves its balance
     * alone ("Insufficient funds") when the amount exceeds it, and otherwise debits, which
     * cannot take the balance below zero.
     */
    method ApplyTransaction(transaction: Transaction)
      modifies this
      ensures balance == Posted(kind, old(balance), transaction.amount)
      ensures kind == Standard ==> balance == old(balance) - transaction.amount
      ensures kind == Savings && transaction.amount > old(balance) ==> balance == old(balance)
      ensures kind == Savings && transaction.amount <= old(balance) ==>
                balance == old(balance) - transaction.amount && balance >= 0
    {
      if kind == Savings && transaction.amount > balance {
        return;
      }
      balance := balance - transaction.amount;
    }
  }

  /** A savings account that starts at zero or more never goes below zero, however many transactions. */
  lemma {:induction false} SavingsNeverOverdrawn(balance: int, amounts: seq<int>)
    requires balance >= 0
    ensures BalanceAfter(Savings, balance, amounts) >= 0
    decreases |amounts|
  {
    if amounts != [] {
      SavingsNeverOverdrawn(Posted(Savings, balance, amounts[0]), amounts[1..]);
    }
  }

  /** A savings account that refuses nothing ends where the base account does. */
  lemma {:induction false} SavingsWithoutRefusalIsStandard(balance: int, amounts: seq<int>)
    requires forall i :: 0 <= i < |amounts| ==> 0 <= amounts[i]
    requires Sum(amounts) <= balance
    ensures BalanceAfter(Savings, balance, amounts) == BalanceAfter(Standard, balance, amounts)
    decreases |amounts|
  {
    if amounts != [] {
      SumOfNonNegativesBounds(amounts[1..]);
      SavingsWithoutRefusalIsStandard(balance - amounts[0], amounts[1..]);
    }
  }

  lemma {:induction false} SumOfNonNegativesBounds(amounts: seq<int>)
    requires forall i :: 0 <= i < |amounts| ==> 0 <= amounts[i]
    ensures Sum(amounts) >= 0
    decreases |amounts|
  {
    if amounts != [] {
      SumOfNonNegativesBounds(amounts[1..]);
    }
  }

  /** The base account's balance is the opening balance less the sum of all amounts. */
  lemma {:induction false} StandardDebitsEverything(balance: int, amounts: seq<int>)
    ensures BalanceAfter(Standard, balance, amounts) == balance - Sum(amounts)
    decreases |amounts|
  {
    if amounts != [] {
      StandardDebitsEverything(balance - amounts[0], amounts[1..]);
    }
  }

  /** `FinanceApp`: the list of recorded transactions. */
  class FinanceApp {
    var transactions: seq<Transaction>

    constructor ()
      ensures transactions == []
    {
      transactions := [];
    }

    /**
     * `Run`: opens savings account "ACC123" with 1000.00, applies debits of 200.00, 300.00 and
     * 150.00, all accepted, leaving 350.00, then records the three transactions in that order.
     * Amounts are in hundredths; `date1` to `date3` are the clock readings stamped on the
     * transactions.
     */
    method Run(date1: DateTime, date2: DateTime, date3: DateTime) returns (account: Account)
      modifies this
      ensures fresh(account) && account.kind == Savings && account.accountNumber == "ACC123"
      ensures account.balance == 35000
      ensures transactions == old(transactions) + [
                Transaction(1, date1, 20000, "Groceries"),
                Transaction(2, date2, 30000, "Utilities"),
                Transaction(3, date3, 15000, "Entertainment")]
    {
      account := new Account.OpenSavings("ACC123", 100000);
      var t1 := Transaction(1, date1, 20000, "Groceries");
      var t2 := Transaction(2, date2, 30000, "Utilities");
      var t3 := Transaction(3, date3, 15000, "Entertainment");
      account.ApplyTransaction(t1);
      account.ApplyTransaction(t2);
      account.ApplyTransaction(t3);
      transactions := transactions + [t1];
      transactions := transactions + [t2];
      transactions := transactions + [t3];
    }
  }
}
