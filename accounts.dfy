/**
 * Bank accounts. The source has an abstract Account with two subclasses,
 * SavingsAccount and CheckingAccount; AccountType has exactly these two
 * values, so the model is one record whose kind-specific state is a closed
 * two-case datatype, and one class whose member functions dispatch on it.
 * Money is a real number (no floating-point rounding); the creation date is
 * a parameter instead of a read of the system clock.
 */
module Accounts {
  import Utilities

  datatype AccountType = SAVINGS | CHECKING

  /** SavingsAccount::MAX_WITHDRAWALS. */
  const MAX_WITHDRAWALS: int := 20
  /** The savings minimum balance set by the constructor. */
  const MINIMUM_BALANCE: real := 500.0
  /** Default interest rate of a savings account. */
  const DEFAULT_INTEREST_RATE: real := 0.04
  /** Default overdraft limit of a checking account. */
  const DEFAULT_OVERDRAFT: real := 500.0
  /** The checking fee and the number of free transactions set by the constructor. */
  const TRANSACTION_FEE: real := 2.5
  const FREE_TRANSACTIONS: int := 10

  /** The fields each subclass adds to the base account. */
  datatype Detail =
    | Savings(interestRate: real, minimumBalance: real, withdrawalCount: int)
    | Checking(overdraftLimit: real, transactionFee: real, freeTransactions: int, transactionCount: int)

  /** The whole state of one account object. */
  datatype AccountRecord = AccountRecord(
    accountNumber: string,
    customerId: string,
    balance: real,
    accountType: AccountType,
    creationDate: string,
    active: bool,
    detail: Detail)

  /**
   * What every reachable account satisfies: the type agrees with the
   * subclass, the constants the constructors set are still in place, the
   * savings withdrawal count stays within its cap and the overdraft limit is
   * never negative.
   */
  predicate AccountValid(a: AccountRecord)
  {
    match a.detail
    case Savings(_, minimum, count) =>
      a.accountType == SAVINGS && minimum == MINIMUM_BALANCE && 0 <= count <= MAX_WITHDRAWALS
    case Checking(overdraft, fee, free, count) =>
      a.accountType == CHECKING && overdraft >= 0.0 && fee == TRANSACTION_FEE
      && free == FREE_TRANSACTIONS && count >= 0
  }

  // ---------------------------------------------------------------------------
  // Construction
  // ---------------------------------------------------------------------------

  /** The base constructor replaces a negative initial balance by 0. */
  function OpeningBalance(initialBalance: real): real
  {
    if initialBalance < 0.0 then 0.0 else initialBalance
  }

  function NewSavings(accNum: string, custId: string, initialBalance: real, intRate: real, today: string): AccountRecord
  {
    AccountRecord(accNum, custId, OpeningBalance(initialBalance), SAVINGS, today, true,
      Savings(intRate, MINIMUM_BALANCE, 0))
  }

  /** The checking constructor also replaces a negative overdraft limit by 0. */
  function NewChecking(accNum: string, custId: string, initialBalance: real, overdraft: real, today: string): AccountRecord
  {
    AccountRecord(accNum, custId, OpeningBalance(initialBalance), CHECKING, today, true,
      Checking(if overdraft < 0.0 then 0.0 else overdraft, TRANSACTION_FEE, FREE_TRANSACTIONS, 0))
  }

  /** A new account is valid, active, holds the initial balance or 0, and lends no more than asked. */
  lemma NewAccountFacts(accNum: string, custId: string, initialBalance: real, rate: real, overdraft: real, today: string)
    ensures AccountValid(NewSavings(accNum, custId, initialBalance, rate, today))
    ensures AccountValid(NewChecking(accNum, custId, initialBalance, overdraft, today))
    ensures NewSavings(accNum, custId, initialBalance, rate, today).active
    ensures NewChecking(accNum, custId, initialBalance, overdraft, today).active
    ensures NewSavings(accNum, custId, initialBalance, rate, today).balance >= 0.0
    ensures initialBalance >= 0.0 ==> NewSavings(accNum, custId, initialBalance, rate, today).balance == initialBalance
    ensures initialBalance >= 0.0 ==> NewChecking(accNum, custId, initialBalance, overdraft, today).balance == initialBalance
    ensures initialBalance < 0.0 ==> NewChecking(accNum, custId, initialBalance, overdraft, today).balance == 0.0
    ensures overdraft >= 0.0 ==> NewChecking(accNum, custId, initialBalance, overdraft, today).detail.overdraftLimit == overdraft
    ensures RemainingWithdrawals(NewSavings(accNum, custId, initialBalance, rate, today)) == MAX_WITHDRAWALS
  {
  }

  // ---------------------------------------------------------------------------
  // Base-class setters
  // ---------------------------------------------------------------------------

  function SetActiveSpec(a: AccountRecord, status: bool): AccountRecord
  {
    a.(active := status)
  }

  /** updateBalance stores any value, a negative one included (it only prints a warning). */
  function UpdateBalanceSpec(a: AccountRecord, newBalance: real): AccountRecord
  {
    a.(balance := newBalance)
  }

  // ---------------------------------------------------------------------------
  // Savings rules
  // ---------------------------------------------------------------------------

  function RemainingWithdrawals(a: AccountRecord): int
    requires a.detail.Savings?
  {
    MAX_WITHDRAWALS - a.detail.withdrawalCount
  }

  /**
   * calculateInterest: one month of interest, balance * (rate / 100) / 12. The
   * rate is divided by 100 although the default rate 0.04 is already a
   * fraction, so the default yields 0.04% a year; the model keeps the formula.
   */
  function MonthlyInterest(a: AccountRecord): real
    requires a.detail.Savings?
  {
    a.balance * (a.detail.interestRate / 100.0) / 12.0
  }

  /** applyInterest: a negative interest is not applied. */
  function ApplyInterestSpec(a: AccountRecord): AccountRecord
    requires a.detail.Savings?
  {
    var interest := MonthlyInterest(a);
    if interest < 0.0 then a else a.(balance := a.balance + interest)
  }

  function ResetWithdrawalCountSpec(a: AccountRecord): AccountRecord
    requires a.detail.Savings?
  {
    a.(detail := a.detail.(withdrawalCount := 0))
  }

  // ---------------------------------------------------------------------------
  // Checking rules
  // ---------------------------------------------------------------------------

  function AvailableBalance(a: AccountRecord): real
    requires a.detail.Checking?
  {
    a.balance + a.detail.overdraftLimit
  }

  /** chargeFee: the fee is due past the free transactions and skipped when it would overdraw. */
  function ChargeFeeSpec(a: AccountRecord): AccountRecord
    requires a.detail.Checking?
  {
    if a.detail.transactionCount > a.detail.freeTransactions && a.balance - a.detail.transactionFee >= 0.0
    then a.(balance := a.balance - a.detail.transactionFee)
    else a
  }

  /** setOverdraftLimit rejects a negative limit. */
  function SetOverdraftLimitSpec(a: AccountRecord, limit: real): AccountRecord
    requires a.detail.Checking?
  {
    if limit < 0.0 then a else a.(detail := a.detail.(overdraftLimit := limit))
  }

  function ResetTransactionCountSpec(a: AccountRecord): AccountRecord
    requires a.detail.Checking?
  {
    a.(detail := a.detail.(transactionCount := 0))
  }

  /** After a checking deposit or withdrawal has counted itself, the fee check runs. */
  function CountAndCharge(a: AccountRecord): AccountRecord
    requires a.detail.Checking?
  {
    var b := a.(detail := a.detail.(transactionCount := a.detail.transactionCount + 1));
    if b.detail.transactionCount > b.detail.freeTransactions then ChargeFeeSpec(b) else b
  }

  // ---------------------------------------------------------------------------
  // The two virtual operations
  // ---------------------------------------------------------------------------

  function DepositSpec(a: AccountRecord, amount: real): AccountRecord
  {
    if amount < 0.0 then a
    else
      var b := a.(balance := a.balance + amount);
      match a.detail
      case Savings(_, _, _) => b
      case Checking(_, _, _, _) => CountAndCharge(b)
  }

  function WithdrawSpec(a: AccountRecord, amount: real): (bool, AccountRecord)
  {
    match a.detail
    case Savings(_, minimum, count) =>
      if amount < 0.0 then (false, a)
      else if MAX_WITHDRAWALS - count <= 0 then (false, a)
      else if a.balance - amount < minimum then (false, a)
      else (true, a.(balance := a.balance - amount, detail := a.detail.(withdrawalCount := count + 1)))
    case Checking(overdraft, _, _, _) =>
      if amount < 0.0 then (false, a)
      else if amount > a.balance + overdraft then (false, a)
      else (true, CountAndCharge(a.(balance := a.balance - amount)))
  }

  // ---------------------------------------------------------------------------
  // Properties
  // ---------------------------------------------------------------------------

  /** The fee takes exactly 2.50 or nothing, never overdraws, and touches only the balance. */
  lemma ChargeFeeFacts(a: AccountRecord)
    requires AccountValid(a) && a.detail.Checking?
    ensures var r := ChargeFeeSpec(a);
      r.detail == a.detail && r.accountNumber == a.accountNumber && r.active == a.active
      && (r.balance == a.balance || r.balance == a.balance - TRANSACTION_FEE)
      && (r.balance != a.balance <==> a.detail.transactionCount > FREE_TRANSACTIONS && a.balance >= TRANSACTION_FEE)
      && (r.balance != a.balance ==> r.balance >= 0.0)
  {
  }

  /**
   * A negative deposit changes nothing. Otherwise the balance grows by the
   * amount; a checking account also counts the deposit and, past ten
   * transactions, pays the fee when the balance covers it.
   */
  lemma DepositFacts(a: AccountRecord, amount: real)
    requires AccountValid(a)
    ensures amount < 0.0 ==> DepositSpec(a, amount) == a
    ensures amount >= 0.0 && a.detail.Savings? ==>
      DepositSpec(a, amount) == a.(balance := a.balance + amount)
    ensures amount >= 0.0 && a.detail.Checking? ==>
      var r := DepositSpec(a, amount);
      var charged := a.detail.transactionCount + 1 > FREE_TRANSACTIONS && a.balance + amount >= TRANSACTION_FEE;
      r.detail == a.detail.(transactionCount := a.detail.transactionCount + 1)
      && r.balance == a.balance + amount - (if charged then TRANSACTION_FEE else 0.0)
      && r.active == a.active && r.accountNumber == a.accountNumber
  {
  }

  /**
   * A savings withdrawal succeeds exactly when the amount is not negative, a
   * withdrawal is left and the minimum balance survives it; a refused one
   * changes nothing, an accepted one takes the amount and uses one withdrawal.
   */
  lemma SavingsWithdrawFacts(a: AccountRecord, amount: real)
    requires AccountValid(a) && a.detail.Savings?
    ensures WithdrawSpec(a, amount).0 <==>
      amount >= 0.0 && a.detail.withdrawalCount < MAX_WITHDRAWALS && a.balance - amount >= MINIMUM_BALANCE
    ensures !WithdrawSpec(a, amount).0 ==> WithdrawSpec(a, amount).1 == a
    ensures WithdrawSpec(a, amount).0 ==>
      var r := WithdrawSpec(a, amount).1;
      r.balance == a.balance - amount && r.balance >= MINIMUM_BALANCE
      && r.detail.withdrawalCount == a.detail.withdrawalCount + 1
      && RemainingWithdrawals(r) == RemainingWithdrawals(a) - 1
      && r.detail.interestRate == a.detail.interestRate && r.active == a.active
  {
  }

  /**
   * A checking withdrawal succeeds exactly when 0 <= amount <= the available
   * balance; a refused one changes nothing, an accepted one takes the amount,
   * counts itself and may add the fee.
   */
  lemma CheckingWithdrawFacts(a: AccountRecord, amount: real)
    requires AccountValid(a) && a.detail.Checking?
    ensures WithdrawSpec(a, amount).0 <==> 0.0 <= amount <= AvailableBalance(a)
    ensures !WithdrawSpec(a, amount).0 ==> WithdrawSpec(a, amount).1 == a
    ensures WithdrawSpec(a, amount).0 ==>
      var r := WithdrawSpec(a, amount).1;
      var charged := a.detail.transactionCount + 1 > FREE_TRANSACTIONS && a.balance - amount >= TRANSACTION_FEE;
      r.detail == a.detail.(transactionCount := a.detail.transactionCount + 1)
      && r.balance == a.balance - amount - (if charged then TRANSACTION_FEE else 0.0)
      && r.balance >= -a.detail.overdraftLimit
  {
  }

  /** On a savings account that can spare a withdrawal, withdrawing a deposit gives the balance back. */
  lemma SavingsDepositWithdrawRoundTrip(a: AccountRecord, amount: real)
    requires AccountValid(a) && a.detail.Savings?
    requires amount >= 0.0 && a.balance >= MINIMUM_BALANCE && a.detail.withdrawalCount < MAX_WITHDRAWALS
    ensures WithdrawSpec(DepositSpec(a, amount), amount) ==
      (true, a.(detail := a.detail.(withdrawalCount := a.detail.withdrawalCount + 1)))
  {
  }

  /**
   * The constructors' default arguments: a savings account earns 0.04 and keeps
   * the 500 minimum; a checking account may go 500 below zero, so a
   * non-negative amount is paid out iff it is at most the balance plus 500.
   */
  lemma DefaultAccounts(accNum: string, custId: string, initialBalance: real, today: string, amount: real)
    ensures NewSavings(accNum, custId, initialBalance, DEFAULT_INTEREST_RATE, today).detail == Savings(0.04, 500.0, 0)
    ensures var c := NewChecking(accNum, custId, initialBalance, DEFAULT_OVERDRAFT, today);
      AvailableBalance(c) == c.balance + 500.0
      && (0.0 <= amount ==> (WithdrawSpec(c, amount).0 <==> amount <= c.balance + 500.0))
  {
  }

  /**
   * isValidAmount draws the same line as the sign test of deposit and withdraw:
   * an amount it rejects changes no account, and one it accepts is credited in
   * full to a savings account and counted on a checking account.
   */
  lemma ValidAmountGuards(a: AccountRecord, amount: real)
    ensures Utilities.IsValidAmount(amount) <==> !(amount < 0.0)
    ensures !Utilities.IsValidAmount(amount) ==> DepositSpec(a, amount) == a && WithdrawSpec(a, amount) == (false, a)
    ensures Utilities.IsValidAmount(amount) && a.detail.Savings? ==>
      DepositSpec(a, amount).balance == a.balance + amount
    ensures Utilities.IsValidAmount(amount) && a.detail.Checking? ==>
      DepositSpec(a, amount).detail.transactionCount == a.detail.transactionCount + 1
  {
  }

  /**
   * Every operation keeps the account valid: in particular the withdrawal count
   * never passes MAX_WITHDRAWALS and the overdraft limit never goes negative.
   */
  lemma OperationsPreserveValid(a: AccountRecord, amount: real, status: bool)
    requires AccountValid(a)
    ensures AccountValid(DepositSpec(a, amount))
    ensures AccountValid(WithdrawSpec(a, amount).1)
    ensures AccountValid(SetActiveSpec(a, status))
    ensures AccountValid(UpdateBalanceSpec(a, amount))
    ensures a.detail.Savings? ==> AccountValid(ResetWithdrawalCountSpec(a)) && AccountValid(ApplyInterestSpec(a))
    ensures a.detail.Checking? ==>
      AccountValid(ChargeFeeSpec(a)) && AccountValid(ResetTransactionCountSpec(a))
      && AccountValid(SetOverdraftLimitSpec(a, amount))
  {
  }

  /** The overdraft limit moves only to a non-negative value asked for; a negative request is ignored. */
  lemma SetOverdraftLimitFacts(a: AccountRecord, limit: real)
    requires a.detail.Checking?
    ensures limit < 0.0 ==> SetOverdraftLimitSpec(a, limit) == a
    ensures limit >= 0.0 ==> AvailableBalance(SetOverdraftLimitSpec(a, limit)) == a.balance + limit
    ensures SetOverdraftLimitSpec(a, limit).balance == a.balance
  {
  }

  /** After a reset all twenty withdrawals are available again, and the checking count is back at 0. */
  lemma ResetFacts(a: AccountRecord)
    ensures a.detail.Savings? ==>
      RemainingWithdrawals(ResetWithdrawalCountSpec(a)) == MAX_WITHDRAWALS
      && ResetWithdrawalCountSpec(a).balance == a.balance
      && ResetWithdrawalCountSpec(a).detail.interestRate == a.detail.interestRate
    ensures a.detail.Checking? ==>
      ResetTransactionCountSpec(a).detail.transactionCount == 0
      && ResetTransactionCountSpec(a).balance == a.balance
      && AvailableBalance(ResetTransactionCountSpec(a)) == AvailableBalance(a)
  {
  }

  /** Interest is added only when it is not negative, so it never lowers the balance. */
  lemma ApplyInterestFacts(a: AccountRecord)
    requires a.detail.Savings?
    ensures ApplyInterestSpec(a).balance >= a.balance
    ensures a.balance >= 0.0 && a.detail.interestRate >= 0.0 ==>
      ApplyInterestSpec(a).balance == a.balance + MonthlyInterest(a)
    ensures ApplyInterestSpec(a).detail == a.detail
  {
  }

  // ---------------------------------------------------------------------------
  // The account object
  // ---------------------------------------------------------------------------

  class Account {
    const accountNumber: string
    const customerId: string
    const accountType: AccountType
    const creationDate: string
    var balance: real
    var active: bool
    var detail: Detail

    function State(): AccountRecord
      reads this
    {
      AccountRecord(accountNumber, customerId, balance, accountType, creationDate, active, detail)
    }

    /** SavingsAccount(accNum, custId, initialBalance, intRate); today stands for getCurrentDate(). */
    constructor OpenSavings(accNum: string, custId: string, initialBalance: real, intRate: real, today: string)
      ensures State() == NewSavings(accNum, custId, initialBalance, intRate, today)
    {
      accountNumber := accNum;
      customerId := custId;
      if initialBalance < 0.0 {
        balance := 0.0;
      } else {
        balance := initialBalance;
      }
      accountType := SAVINGS;
      active := true;
      creationDate := today;
      detail := Savings(intRate, MINIMUM_BALANCE, 0);
    }

    /** CheckingAccount(accNum, custId, initialBalance, overdraft); today stands for getCurrentDate(). */
    constructor OpenChecking(accNum: string, custId: string, initialBalance: real, overdraft: real, today: string)
      ensures State() == NewChecking(accNum, custId, initialBalance, overdraft, today)
    {
      accountNumber := accNum;
      customerId := custId;
      if initialBalance < 0.0 {
        balance := 0.0;
      } else {
        balance := initialBalance;
      }
      accountType := CHECKING;
      active := true;
      creationDate := today;
      var limit := overdraft;
      if limit < 0.0 {
        limit := 0.0;
      }
      detail := Checking(limit, TRANSACTION_FEE, FREE_TRANSACTIONS, 0);
    }

    method SetActive(status: bool)
      modifies this
      ensures State() == SetActiveSpec(old(State()), status)
    {
      active := status;
    }

    method UpdateBalance(newBalance: real)
      modifies this
      ensures State() == UpdateBalanceSpec(old(State()), newBalance)
    {
      balance := newBalance;
    }

    method ChargeFee()
      requires detail.Checking?
      modifies this
      ensures State() == ChargeFeeSpec(old(State()))
    {
      if detail.transactionCount > detail.freeTransactions {
        var bal := balance;
        bal := bal - detail.transactionFee;
        if bal < 0.0 {
          return;
        }
        UpdateBalance(bal);
      }
    }

    method Deposit(amount: real)
      modifies this
      ensures State() == DepositSpec(old(State()), amount)
    {
      if amount < 0.0 {
        return;
      }
      var bal := balance;
      bal := bal + amount;
      UpdateBalance(bal);
      match detail
      case Savings(_, _, _) =>
      case Checking(_, _, _, count) =>
        detail := detail.(transactionCount := count + 1);
        if detail.transactionCount > detail.freeTransactions {
          ChargeFee();
        }
    }

    method Withdraw(amount: real) returns (ok: bool)
      modifies this
      ensures (ok, State()) == WithdrawSpec(old(State()), amount)
    {
      if amount < 0.0 {
        return false;
      }
      match detail
      case Savings(_, minimum, count) =>
        if MAX_WITHDRAWALS - count <= 0 {
          return false;
        }
        var bal := balance;
        if bal - amount < minimum {
          return false;
        }
        bal := bal - amount;
        UpdateBalance(bal);
        detail := detail.(withdrawalCount := count + 1);
        ok := true;
      case Checking(overdraft, _, _, count) =>
        var available := balance + overdraft;
        if amount > available {
          return false;
        }
        var bal := balance;
        bal := bal - amount;
        UpdateBalance(bal);
        detail := detail.(transactionCount := count + 1);
        if detail.transactionCount > detail.freeTransactions {
          ChargeFee();
        }
        ok := true;
    }

    method ApplyInterest()
      requires detail.Savings?
      modifies this
      ensures State() == ApplyInterestSpec(old(State()))
    {
      var interest := balance * (detail.interestRate / 100.0) / 12.0;
      if interest < 0.0 {
        return;
      }
      var bal := balance;
      bal := bal + interest;
      UpdateBalance(bal);
    }

    method ResetWithdrawalCount()
      requires detail.Savings?
      modifies this
      ensures State() == ResetWithdrawalCountSpec(old(State()))
    {
      detail := detail.(withdrawalCount := 0);
    }

    method SetOverdraftLimit(limit: real)
      requires detail.Checking?
      modifies this
      ensures State() == SetOverdraftLimitSpec(old(State()), limit)
    {
      if limit < 0.0 {
        return;
      }
      detail := detail.(overdraftLimit := limit);
    }

    method ResetTransactionCount()
      requires detail.Checking?
      modifies this
      ensures State() == ResetTransactionCountSpec(old(State()))
    {
      detail := detail.(transactionCount := 0);
    }
  }
}
