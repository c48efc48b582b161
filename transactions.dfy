/**
 * The transaction record: its two enumerations, its thirteen fields, the
 * getters with their presentation defaults, the setters, and the derived
 * predicates (success, transfer, signed net amount, ordering and equality).
 *
 * The C++ record is a value type that the ledger copies in and out of its
 * map, so here it is a datatype and every setter returns the updated copy.
 * Amounts are doubles in the source and reals here.
 */
module Transactions {
  import opened Wrappers
  import opened StdString

  // ---------------------------------------------------------------------------
  // Enumerations
  // ---------------------------------------------------------------------------

  datatype TransactionType =
    | Deposit
    | Withdrawal
    | TransferIn
    | TransferOut
    | FeeCharge
    | InterestCredit
    | AccountOpening
    | AccountClosing
    | UnknownType

  datatype TransactionStatus = Pending | Completed | Failed | Cancelled | Reversed

  /** static_cast<int> of a type: its position in the declaration. */
  function TypeOrdinal(t: TransactionType): (n: nat)
    ensures n < 9
  {
    match t
    case Deposit => 0
    case Withdrawal => 1
    case TransferIn => 2
    case TransferOut => 3
    case FeeCharge => 4
    case InterestCredit => 5
    case AccountOpening => 6
    case AccountClosing => 7
    case UnknownType => 8
  }

  /** static_cast<TransactionType> of an int; None outside the nine declared values. */
  function TypeFromOrdinal(n: int): (r: Option<TransactionType>)
    ensures r.Some? <==> 0 <= n < 9
  {
    if n == 0 then Some(Deposit)
    else if n == 1 then Some(Withdrawal)
    else if n == 2 then Some(TransferIn)
    else if n == 3 then Some(TransferOut)
    else if n == 4 then Some(FeeCharge)
    else if n == 5 then Some(InterestCredit)
    else if n == 6 then Some(AccountOpening)
    else if n == 7 then Some(AccountClosing)
    else if n == 8 then Some(UnknownType)
    else None
  }

  /** The ordinals are a bijection between the nine types and 0..8. */
  lemma TypeOrdinalBijection(t: TransactionType, n: int)
    ensures TypeFromOrdinal(TypeOrdinal(t)) == Some(t)
    ensures 0 <= n < 9 ==> TypeOrdinal(TypeFromOrdinal(n).value) == n
  {
  }

  function StatusOrdinal(s: TransactionStatus): (n: nat)
    ensures n < 5
  {
    match s
    case Pending => 0
    case Completed => 1
    case Failed => 2
    case Cancelled => 3
    case Reversed => 4
  }

  function StatusFromOrdinal(n: int): (r: Option<TransactionStatus>)
    ensures r.Some? <==> 0 <= n < 5
  {
    if n == 0 then Some(Pending)
    else if n == 1 then Some(Completed)
    else if n == 2 then Some(Failed)
    else if n == 3 then Some(Cancelled)
    else if n == 4 then Some(Reversed)
    else None
  }

  /** The ordinals are a bijection between the five statuses and 0..4. */
  lemma StatusOrdinalBijection(s: TransactionStatus, n: int)
    ensures StatusFromOrdinal(StatusOrdinal(s)) == Some(s)
    ensures 0 <= n < 5 ==> StatusOrdinal(StatusFromOrdinal(n).value) == n
  {
  }

  // ---------------------------------------------------------------------------
  // The record
  // ---------------------------------------------------------------------------

  datatype Transaction = Transaction(
    transactionId: string,
    accountNumber: string,
    relatedAccountNumber: string,
    transactionType: TransactionType,
    amount: real,
    timestamp: string,
    description: string,
    balanceBefore: real,
    balanceAfter: real,
    status: TransactionStatus,
    customerId: string,
    sessionId: string,
    notes: string)

  /** The default constructor: everything empty or zero, PENDING, UNKNOWN, stamped with the clock. */
  function DefaultTransaction(now: string): Transaction
  {
    Transaction("", "", "", UnknownType, 0.0, now, "", 0.0, 0.0, Pending, "", "", "")
  }

  /**
   * The parameterised constructor: no related account, session or notes,
   * status COMPLETED, stamped with the clock.
   */
  function NewTransaction(id: string, accountNumber: string, kind: TransactionType, amount: real,
                          description: string, balanceBefore: real, balanceAfter: real,
                          customerId: string, now: string): Transaction
  {
    Transaction(id, accountNumber, "", kind, amount, now, description, balanceBefore, balanceAfter,
                Completed, customerId, "", "")
  }

  // ---------------------------------------------------------------------------
  // Getters with presentation defaults
  // ---------------------------------------------------------------------------

  const NOT_AVAILABLE: string := "N/A"
  const NO_DESCRIPTION: string := "No description provided"
  const NO_NOTES: string := "No notes provided"

  /** A field as its getter shows it: the stored text, or the default when it is empty. */
  function OrDefault(field: string, default: string): (r: string)
    requires |default| > 0
    ensures |r| > 0
    ensures |field| > 0 ==> r == field
    ensures |field| == 0 ==> r == default
  {
    if |field| == 0 then default else field
  }

  function GetRelatedAccountNumber(t: Transaction): (r: string)
    ensures |r| > 0
    ensures |t.relatedAccountNumber| > 0 ==> r == t.relatedAccountNumber
    ensures |t.relatedAccountNumber| == 0 ==> r == NOT_AVAILABLE
  {
    OrDefault(t.relatedAccountNumber, NOT_AVAILABLE)
  }

  function GetDescription(t: Transaction): (r: string)
    ensures |r| > 0
    ensures |t.description| > 0 ==> r == t.description
    ensures |t.description| == 0 ==> r == NO_DESCRIPTION
  {
    OrDefault(t.description, NO_DESCRIPTION)
  }

  function GetCustomerId(t: Transaction): (r: string)
    ensures |r| > 0
    ensures |t.customerId| > 0 ==> r == t.customerId
    ensures |t.customerId| == 0 ==> r == NOT_AVAILABLE
  {
    OrDefault(t.customerId, NOT_AVAILABLE)
  }

  function GetSessionId(t: Transaction): (r: string)
    ensures |r| > 0
    ensures |t.sessionId| > 0 ==> r == t.sessionId
    ensures |t.sessionId| == 0 ==> r == NOT_AVAILABLE
  {
    OrDefault(t.sessionId, NOT_AVAILABLE)
  }

  function GetNotes(t: Transaction): (r: string)
    ensures |r| > 0
    ensures |t.notes| > 0 ==> r == t.notes
    ensures |t.notes| == 0 ==> r == NO_NOTES
  {
    OrDefault(t.notes, NO_NOTES)
  }

  /**
   * getBalanceAfter: a stored 0.0 is read as "not set" and replaced by
   * balanceBefore + amount, whatever the kind. The code does this, and the
   * ledger's reversal entries read the balance through it.
   */
  function GetBalanceAfter(t: Transaction): (r: real)
    ensures t.balanceAfter != 0.0 ==> r == t.balanceAfter
    ensures t.balanceAfter == 0.0 ==> r == t.balanceBefore + t.amount
  {
    if t.balanceAfter == 0.0 then t.balanceBefore + t.amount else t.balanceAfter
  }

  /**
   * The fallback misreports a withdrawal that emptied the account: it shows
   * the balance going up by the amount instead of down to zero.
   */
  lemma EmptiedAccountReadsAsCredit(t: Transaction)
    requires t.transactionType == Withdrawal && t.amount > 0.0 && t.balanceAfter == 0.0
    ensures GetBalanceAfter(t) == t.balanceBefore + t.amount != t.balanceBefore - t.amount
  {
  }

  // ---------------------------------------------------------------------------
  // Setters (each returns the updated copy)
  // ---------------------------------------------------------------------------

  /** setStatus: sets the status (a no-op when it is already that status); nothing else changes. */
  function SetStatus(t: Transaction, s: TransactionStatus): (r: Transaction)
    ensures r.status == s
    ensures r.(status := t.status) == t
  {
    if t.status != s then t.(status := s) else t
  }

  /** setRelatedAccountNumber, setSessionId, setNotes: store the text as given, empty included. */
  function SetRelatedAccountNumber(t: Transaction, related: string): (r: Transaction)
    ensures r.relatedAccountNumber == related
    ensures r.(relatedAccountNumber := t.relatedAccountNumber) == t
  {
    t.(relatedAccountNumber := if |related| > 0 then related else "")
  }

  function SetSessionId(t: Transaction, session: string): (r: Transaction)
    ensures r.sessionId == session
    ensures r.(sessionId := t.sessionId) == t
  {
    t.(sessionId := if |session| > 0 then session else "")
  }

  function SetNotes(t: Transaction, notes: string): (r: Transaction)
    ensures r.notes == notes
    ensures r.(notes := t.notes) == t
  {
    t.(notes := if |notes| > 0 then notes else "")
  }

  /** setBalanceAfter: a negative balance is rejected and leaves the record as it was. */
  function SetBalanceAfter(t: Transaction, balance: real): (r: Transaction)
    ensures balance >= 0.0 ==> r.balanceAfter == balance
    ensures balance < 0.0 ==> r == t
    ensures r.(balanceAfter := t.balanceAfter) == t
  {
    if balance >= 0.0 then t.(balanceAfter := balance) else t
  }

  // ---------------------------------------------------------------------------
  // Derived values
  // ---------------------------------------------------------------------------

  /** getTransactionTypeString: the enumerator's name, except that the last three all print "UNKNOWN". */
  function TypeString(k: TransactionType): (r: string)
    ensures r == "UNKNOWN" <==> k in {AccountOpening, AccountClosing, UnknownType}
  {
    match k
    case Deposit => "DEPOSIT"
    case Withdrawal => "WITHDRAWAL"
    case TransferIn => "TRANSFER_IN"
    case TransferOut => "TRANSFER_OUT"
    case FeeCharge => "FEE_CHARGE"
    case InterestCredit => "INTEREST_CREDIT"
    case _ => "UNKNOWN"
  }

  /** getStatusString: CANCELLED and REVERSED both print "UNKNOWN". */
  function StatusString(s: TransactionStatus): (r: string)
    ensures r == "UNKNOWN" <==> s in {Cancelled, Reversed}
  {
    match s
    case Pending => "PENDING"
    case Completed => "COMPLETED"
    case Failed => "FAILED"
    case _ => "UNKNOWN"
  }

  /** Apart from "UNKNOWN", the printed names tell the values apart. */
  lemma NamesDistinguish(a: TransactionType, b: TransactionType, s: TransactionStatus, u: TransactionStatus)
    ensures TypeString(a) == TypeString(b) != "UNKNOWN" ==> a == b
    ensures StatusString(s) == StatusString(u) != "UNKNOWN" ==> s == u
  {
  }

  predicate IsSuccessful(t: Transaction)
  {
    t.status == Completed
  }

  predicate IsTransfer(t: Transaction)
  {
    t.transactionType == TransferIn || t.transactionType == TransferOut
  }

  /** The kinds that add money to the account and the kinds that take it away. */
  predicate IsCredit(k: TransactionType)
  {
    k == Deposit || k == TransferIn || k == InterestCredit
  }

  predicate IsDebit(k: TransactionType)
  {
    k == Withdrawal || k == TransferOut || k == FeeCharge
  }

  /** getNetAmount: + amount for credits, - amount for debits, 0 for the other three kinds. */
  function GetNetAmount(t: Transaction): (r: real)
    ensures IsCredit(t.transactionType) ==> r == t.amount
    ensures IsDebit(t.transactionType) ==> r == -t.amount
    ensures !IsCredit(t.transactionType) && !IsDebit(t.transactionType) ==> r == 0.0
  {
    match t.transactionType
    case Deposit | TransferIn | InterestCredit => t.amount
    case Withdrawal | TransferOut | FeeCharge => -t.amount
    case _ => 0.0
  }

  /** No kind is both a credit and a debit, and exactly three kinds are neither. */
  lemma CreditDebitPartition(k: TransactionType)
    ensures !(IsCredit(k) && IsDebit(k))
    ensures !IsCredit(k) && !IsDebit(k) <==> k in {AccountOpening, AccountClosing, UnknownType}
  {
  }

  /** operator<: the earlier timestamp, as strings. */
  predicate Earlier(a: Transaction, b: Transaction)
  {
    LexLess(a.timestamp, b.timestamp)
  }

  /** operator==: two records are the same transaction when their ids agree. */
  predicate SameTransaction(a: Transaction, b: Transaction)
  {
    a.transactionId == b.transactionId
  }

  /** operator< is a strict order, so it is a valid sort key; == ignores every field but the id. */
  lemma OperatorsWellBehaved(a: Transaction, b: Transaction, c: Transaction)
    ensures !Earlier(a, a)
    ensures Earlier(a, b) && Earlier(b, c) ==> Earlier(a, c)
    ensures SameTransaction(a, b) <==> SameTransaction(b, a)
    ensures SameTransaction(a, a.(status := Failed, notes := "", amount := 0.0))
  {
    LexLessIrreflexive(a.timestamp);
    if Earlier(a, b) && Earlier(b, c) {
      LexLessTransitive(a.timestamp, b.timestamp, c.timestamp);
    }
  }
}
