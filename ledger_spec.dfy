/**
 * The transaction manager's state as a value, and each of its state-changing
 * operations as a function from the old state to a result and the new state.
 * The TransactionManager class performs the same steps on its fields and
 * promises in its contracts to match these functions; what the source
 * promises about the operations is proved here, once, about the functions.
 *
 * The clock is a parameter: `now` is what getCurrentDateTime() returns during
 * the operation (read once per operation), and getCurrentDate() is its first
 * ten characters.
 */
module LedgerSpec {
  import opened Wrappers
  import opened StdString
  import opened Transactions
  import opened LedgerIndex

  /**
   * transactionHistory (id -> entry), the account, customer and date
   * multimaps, and nextTransactionNumber. The counter is an int in the source;
   * it starts at 1 and never decreases, so a nat holds it.
   */
  datatype Ledger = Ledger(
    history: map<string, Transaction>,
    accountIndex: Index,
    customerIndex: Index,
    dateIndex: Index,
    nextNumber: nat)

  /** The state the constructor sets up before it tries to load a saved history. */
  function EmptyLedger(): (l: Ledger)
    ensures |l.history| == 0 && l.nextNumber == 1
  {
    Ledger(map[], map[], map[], map[], 1)
  }

  function IndexOf(l: Ledger, kind: IndexKind): Index
  {
    match kind
    case ByAccount => l.accountIndex
    case ByCustomer => l.customerIndex
    case ByDate => l.dateIndex
  }

  /** Every entry is stored under its own id. */
  predicate KeysAreIds(h: map<string, Transaction>)
  {
    forall id :: id in h ==> h[id].transactionId == id
  }

  /**
   * The invariant every operation keeps: the counter is positive, entries are
   * stored under their ids, and every index entry points at a stored entry
   * filed under that key, once.
   */
  predicate LedgerValid(l: Ledger)
  {
    l.nextNumber >= 1 && KeysAreIds(l.history)
    && IndexSound(l.accountIndex, l.history, ByAccount)
    && IndexSound(l.customerIndex, l.history, ByCustomer)
    && IndexSound(l.dateIndex, l.history, ByDate)
  }

  /** Valid, and besides every stored entry is listed in all three indices. */
  predicate Indexed(l: Ledger)
  {
    LedgerValid(l)
    && IndexComplete(l.accountIndex, l.history, ByAccount)
    && IndexComplete(l.customerIndex, l.history, ByCustomer)
    && IndexComplete(l.dateIndex, l.history, ByDate)
  }

  lemma EmptyLedgerIndexed()
    ensures Indexed(EmptyLedger())
  {
  }

  // ---------------------------------------------------------------------------
  // addTransaction
  // ---------------------------------------------------------------------------

  /**
   * Added: stored and filed. DuplicateId: the id was taken; nothing changed.
   * CounterParseError: std::stoi threw while reading the id's number; the
   * entry is already stored and filed, the counter is as it was, and the
   * exception leaves the operation.
   */
  datatype AddOutcome = Added | DuplicateId | CounterParseError

  /**
   * The counter recovery: when the id has a '-' that is not its last
   * character, the text after the last '-' is read with stoi, and the counter
   * moves past that number if it is not already past it.
   */
  function RecoveredCounter(id: string, next: nat): (r: Option<nat>)
    ensures r.Some? ==> r.value >= next
    ensures '-' !in id ==> r == Some(next)
  {
    match FindLast(id, '-')
    case None => Some(next)
    case Some(p) =>
      if p + 1 < |id| then
        match Stoi(id[p + 1..])
        case None => None
        case Some(n) => if next <= n then Some(n + 1) else Some(next)
      else Some(next)
  }

  /**
   * What the recovery does with the text after the last '-': nothing when
   * there is none, an exception when stoi rejects it, and otherwise the
   * counter moves to the number plus one unless it is already past it.
   */
  lemma RecoveredCounterFacts(id: string, next: nat)
    ensures FindLast(id, '-').Some? && FindLast(id, '-').value + 1 == |id| ==> RecoveredCounter(id, next) == Some(next)
    ensures FindLast(id, '-').Some? && FindLast(id, '-').value + 1 < |id| ==>
      var n := Stoi(id[FindLast(id, '-').value + 1..]);
      var r := RecoveredCounter(id, next);
      (n.None? ==> r.None?)
      && (n.Some? ==> r.Some? && r.value == (if next <= n.value then n.value + 1 else next))
  {
    match FindLast(id, '-')
    case None =>
    case Some(p) =>
      if p + 1 < |id| {
        var n := Stoi(id[p + 1..]);
        assert RecoveredCounter(id, next)
            == (match n case None => None case Some(v) => if next <= v then Some(v + 1) else Some(next));
      }
  }

  /** The entry stored under its id and filed under its three keys. */
  function Filed(l: Ledger, t: Transaction): Ledger
  {
    var id := t.transactionId;
    l.(history := l.history[id := t],
       accountIndex := Emplace(l.accountIndex, KeyOf(ByAccount, t), id),
       customerIndex := Emplace(l.customerIndex, KeyOf(ByCustomer, t), id),
       dateIndex := Emplace(l.dateIndex, KeyOf(ByDate, t), id))
  }

  function AddSpec(l: Ledger, t: Transaction): (AddOutcome, Ledger)
  {
    if t.transactionId in l.history then (DuplicateId, l)
    else
      var filed := Filed(l, t);
      match RecoveredCounter(t.transactionId, l.nextNumber)
      case None => (CounterParseError, filed)
      case Some(n) => (Added, filed.(nextNumber := n))
  }

  /**
   * A taken id changes nothing. A new one stores the entry and appends exactly
   * one id to each index, under that index's key for the entry, and never
   * lowers the counter.
   */
  lemma AddAppendsOnePairPerIndex(l: Ledger, t: Transaction, kind: IndexKind, k: string)
    ensures t.transactionId in l.history ==> AddSpec(l, t) == (DuplicateId, l)
    ensures t.transactionId !in l.history ==>
      var r := AddSpec(l, t).1;
      r.history == l.history[t.transactionId := t]
      && Group(IndexOf(r, kind), k)
         == Group(IndexOf(l, kind), k) + (if k == KeyOf(kind, t) then [t.transactionId] else [])
      && r.nextNumber >= l.nextNumber
  {
    if t.transactionId !in l.history {
      var r := AddSpec(l, t).1;
      assert IndexOf(r, kind) == Emplace(IndexOf(l, kind), KeyOf(kind, t), t.transactionId);
    }
  }

  /** In an id "<prefix>-<digits>" the last '-' is the one before the digits. */
  lemma {:induction false} LastDashBeforeDigits(prefix: string, d: string)
    requires AllDigits(d)
    ensures FindLast(prefix + "-" + d, '-') == Some(|prefix|)
    decreases |d|
  {
    var id := prefix + "-" + d;
    if |d| == 0 {
      assert id == prefix + "-";
    } else {
      var shorter := d[..|d| - 1];
      assert id[..|id| - 1] == prefix + "-" + shorter;
      assert id[|id| - 1] == d[|d| - 1];
      LastDashBeforeDigits(prefix, shorter);
    }
  }

  /** The text after that '-' is the digits. */
  lemma AfterDash(prefix: string, rest: string)
    ensures (prefix + "-" + rest)[|prefix| + 1..] == rest
  {
  }

  /**
   * Adding an entry whose id ends in "-<digits>", the digits fitting an int,
   * succeeds and leaves the counter past that number: at the number plus one
   * when the counter had not passed it, unchanged otherwise.
   */
  lemma AddRecoversCounter(l: Ledger, t: Transaction, prefix: string, d: string)
    requires t.transactionId !in l.history && t.transactionId == prefix + "-" + d
    requires AllDigits(d) && |d| > 0 && DigitsValue(d) <= INT_MAX
    ensures AddSpec(l, t).0 == Added
    ensures AddSpec(l, t).1.nextNumber > DigitsValue(d)
    ensures AddSpec(l, t).1.nextNumber
         == if l.nextNumber <= DigitsValue(d) then DigitsValue(d) + 1 else l.nextNumber
  {
    LastDashBeforeDigits(prefix, d);
    AfterDash(prefix, d);
    assert d + [] == d;
    StoiDigits(d, []);
  }

  /**
   * When the text after the last '-' is not a number stoi accepts, the
   * exception leaves addTransaction after the entry was stored and filed,
   * with the counter as it was.
   */
  lemma AddCounterParseError(l: Ledger, t: Transaction, prefix: string, rest: string)
    requires t.transactionId !in l.history && t.transactionId == prefix + "-" + rest
    requires '-' !in rest && |rest| > 0 && Stoi(rest) == None
    ensures AddSpec(l, t) == (CounterParseError, Filed(l, t))
    ensures AddSpec(l, t).1.nextNumber == l.nextNumber
  {
    var id := prefix + "-" + rest;
    assert id[|prefix|] == '-';
    assert forall i :: |prefix| < i < |id| ==> id[i] == rest[i - |prefix| - 1];
    assert id[|prefix| + 1..] == rest;
  }

  lemma FiledKeeps(l: Ledger, t: Transaction)
    requires LedgerValid(l) && t.transactionId !in l.history
    ensures LedgerValid(Filed(l, t))
    ensures Indexed(l) ==> Indexed(Filed(l, t))
  {
    EmplaceSound(l.accountIndex, l.history, ByAccount, t);
    EmplaceSound(l.customerIndex, l.history, ByCustomer, t);
    EmplaceSound(l.dateIndex, l.history, ByDate, t);
    if Indexed(l) {
      EmplaceComplete(l.accountIndex, l.history, ByAccount, t);
      EmplaceComplete(l.customerIndex, l.history, ByCustomer, t);
      EmplaceComplete(l.dateIndex, l.history, ByDate, t);
    }
  }

  /** addTransaction keeps the invariant, and keeps the indices complete, whatever the outcome. */
  lemma AddPreserves(l: Ledger, t: Transaction)
    requires LedgerValid(l)
    ensures LedgerValid(AddSpec(l, t).1)
    ensures Indexed(l) ==> Indexed(AddSpec(l, t).1)
  {
    if t.transactionId !in l.history {
      FiledKeeps(l, t);
    }
  }

  /** An entry already stored is never changed by addTransaction. */
  lemma AddKeepsStored(l: Ledger, t: Transaction, x: string)
    requires x in l.history
    ensures x in AddSpec(l, t).1.history && AddSpec(l, t).1.history[x] == l.history[x]
  {
  }

  // ---------------------------------------------------------------------------
  // Transaction ids
  // ---------------------------------------------------------------------------

  /** getCurrentDate() with every '-' erased. */
  function DateDigits(now: string): (r: string)
    ensures '-' !in r
  {
    RemoveChar(Substr(now, 0, 10), '-')
  }

  /** "TXN", the date without dashes, and the counter zero-padded to at least three digits. */
  function FormatId(now: string, counter: nat): string
  {
    "TXN" + DateDigits(now) + PadLeft(NatToString(counter), 3, '0')
  }

  /** generateTransactionId: the id for the current counter, which it then raises by one. */
  function GenerateIdSpec(l: Ledger, now: string): (string, Ledger)
  {
    (FormatId(now, l.nextNumber), l.(nextNumber := l.nextNumber + 1))
  }

  /** isValidTransactionId, following the code. */
  predicate IsValidTransactionId(id: string)
  {
    if |id| < 15 || Substr(id, 0, 3) != "TXN" then false
    else
      var datePart := Substr(id, 3, 10);
      if |datePart| != 10 || datePart[4] != '-' || datePart[7] != '-' then false
      else
        var seqPart := id[13..];
        |seqPart| > 0 && IsDigit(seqPart[0])
  }

  /** The format it accepts: "TXN", then dashes at positions 7 and 10, then a digit at 13. */
  lemma IsValidTransactionIdIff(id: string)
    ensures IsValidTransactionId(id) <==>
      |id| >= 15 && id[..3] == "TXN" && id[7] == '-' && id[10] == '-' && IsDigit(id[13])
  {
    if |id| >= 15 {
      var datePart := Substr(id, 3, 10);
      assert datePart[4] == id[7] && datePart[7] == id[10];
      assert id[13..][0] == id[13];
    }
  }

  lemma PadLeftDigits(n: nat)
    ensures AllDigits(PadLeft(NatToString(n), 3, '0'))
  {
    ZeroPaddedRoundTrip(n, 3);
  }

  /**
   * A generated id starts with "TXN" and holds no '-'. So the counter recovery
   * never fires for it, and isValidTransactionId rejects it.
   */
  lemma GeneratedIdShape(now: string, counter: nat, next: nat)
    ensures FormatId(now, counter)[..3] == "TXN"
    ensures '-' !in FormatId(now, counter)
    ensures RecoveredCounter(FormatId(now, counter), next) == Some(next)
    ensures !IsValidTransactionId(FormatId(now, counter))
  {
    var id := FormatId(now, counter);
    var digits := PadLeft(NatToString(counter), 3, '0');
    PadLeftDigits(counter);
    assert id == "TXN" + DateDigits(now) + digits;
    IsValidTransactionIdIff(id);
    if |id| >= 15 {
      assert id[7] != '-';
    }
  }

  /** Two counters give the same id on the same day only if they are equal. */
  lemma FormatIdInjective(now: string, m: nat, n: nat)
    requires FormatId(now, m) == FormatId(now, n)
    ensures m == n
  {
    var prefix := "TXN" + DateDigits(now);
    var a, b := PadLeft(NatToString(m), 3, '0'), PadLeft(NatToString(n), 3, '0');
    assert a == FormatId(now, m)[|prefix|..];
    assert b == FormatId(now, n)[|prefix|..];
    ZeroPaddedRoundTrip(m, 3);
    ZeroPaddedRoundTrip(n, 3);
  }

  // ---------------------------------------------------------------------------
  // processDeposit, processWithdrawal, processFeeCharge, processInterestCredit
  // ---------------------------------------------------------------------------

  /** The entry a single-leg process* call records: the constructor's entry, set to COMPLETED. */
  function SingleEntry(id: string, kind: TransactionType, accountNumber: string, amount: real,
                       description: string, before: real, after: real, customerId: string,
                       now: string): Transaction
  {
    SetStatus(NewTransaction(id, accountNumber, kind, amount, description, before, after, customerId, now),
              Completed)
  }

  /** The shared body of the four single-leg operations: a new id, a COMPLETED entry, addTransaction. */
  function ProcessSpec(l: Ledger, kind: TransactionType, accountNumber: string, amount: real,
                       description: string, before: real, after: real, customerId: string,
                       now: string): (string, Ledger)
  {
    var g := GenerateIdSpec(l, now);
    var added := AddSpec(g.1, SingleEntry(g.0, kind, accountNumber, amount, description,
                                          before, after, customerId, now));
    (if added.0 == Added then g.0 else "", added.1)
  }

  /** A new id without a '-' is simply stored and filed. */
  lemma AddFresh(l: Ledger, t: Transaction)
    requires t.transactionId !in l.history && '-' !in t.transactionId
    ensures AddSpec(l, t) == (Added, Filed(l, t))
  {
  }

  lemma FiledCounter(l: Ledger, t: Transaction, n: nat)
    ensures Filed(l.(nextNumber := n), t) == Filed(l, t).(nextNumber := n)
  {
  }

  /**
   * The counter goes up by one either way. If the generated id is taken,
   * "" is returned and nothing else changes; otherwise the new COMPLETED entry
   * is stored and filed, and its id returned.
   */
  lemma ProcessOutcomes(l: Ledger, kind: TransactionType, accountNumber: string, amount: real,
                        description: string, before: real, after: real, customerId: string,
                        now: string)
    ensures
      var id := FormatId(now, l.nextNumber);
      var t := SingleEntry(id, kind, accountNumber, amount, description, before, after, customerId, now);
      var r := ProcessSpec(l, kind, accountNumber, amount, description, before, after, customerId, now);
      t.status == Completed && t.transactionType == kind && t.transactionId == id
      && t.accountNumber == accountNumber && t.amount == amount && t.customerId == customerId
      && (id in l.history ==> r == ("", l.(nextNumber := l.nextNumber + 1)))
      && (id !in l.history ==> r == (id, Filed(l, t).(nextNumber := l.nextNumber + 1)))
  {
    var id := FormatId(now, l.nextNumber);
    var t := SingleEntry(id, kind, accountNumber, amount, description, before, after, customerId, now);
    var bumped := l.(nextNumber := l.nextNumber + 1);
    assert GenerateIdSpec(l, now) == (id, bumped);
    GeneratedIdShape(now, l.nextNumber, l.nextNumber + 1);
    if id in l.history {
      assert AddSpec(bumped, t) == (DuplicateId, bumped);
    } else {
      AddFresh(bumped, t);
      FiledCounter(l, t, l.nextNumber + 1);
      assert AddSpec(bumped, t) == (Added, Filed(l, t).(nextNumber := l.nextNumber + 1));
    }
  }

  lemma ProcessPreserves(l: Ledger, kind: TransactionType, accountNumber: string, amount: real,
                         description: string, before: real, after: real, customerId: string,
                         now: string)
    requires LedgerValid(l)
    ensures LedgerValid(ProcessSpec(l, kind, accountNumber, amount, description, before, after, customerId, now).1)
    ensures Indexed(l) ==> Indexed(ProcessSpec(l, kind, accountNumber, amount, description, before, after, customerId, now).1)
  {
    var g := GenerateIdSpec(l, now);
    AddPreserves(g.1, SingleEntry(g.0, kind, accountNumber, amount, description, before, after, customerId, now));
  }

  // ---------------------------------------------------------------------------
  // updateTransactionStatus
  // ---------------------------------------------------------------------------

  function UpdateStatusSpec(l: Ledger, id: string, s: TransactionStatus): (bool, Ledger)
  {
    if id !in l.history then (false, l)
    else
      var t := SetStatus(l.history[id], s);
      (true, l.(history := l.history[id := t],
                accountIndex := MoveToEnd(l.accountIndex, KeyOf(ByAccount, t), id),
                customerIndex := MoveToEnd(l.customerIndex, KeyOf(ByCustomer, t), id),
                dateIndex := MoveToEnd(l.dateIndex, KeyOf(ByDate, t), id)))
  }

  lemma UpdateStatusFields(l: Ledger, id: string, s: TransactionStatus)
    requires id in l.history
    ensures UpdateStatusSpec(l, id, s).0
    ensures UpdateStatusSpec(l, id, s).1.history == l.history[id := SetStatus(l.history[id], s)]
    ensures UpdateStatusSpec(l, id, s).1.nextNumber == l.nextNumber
  {
  }

  /**
   * An unknown id changes nothing and gives false. A known one gets the new
   * status (nothing else in the entry changes) and true is returned, even if
   * the status was already that; each index keeps the same ids under each key.
   */
  lemma UpdateStatusEffect(l: Ledger, id: string, s: TransactionStatus, kind: IndexKind, k: string)
    ensures id !in l.history ==> UpdateStatusSpec(l, id, s) == (false, l)
    ensures id in l.history ==>
      var r := UpdateStatusSpec(l, id, s);
      r.0 && r.1.history == l.history[id := l.history[id].(status := s)]
      && multiset(Group(IndexOf(r.1, kind), k)) == multiset(Group(IndexOf(l, kind), k))
      && IndexOf(r.1, kind).Keys == IndexOf(l, kind).Keys
      && r.1.nextNumber == l.nextNumber
  {
    if id in l.history {
      var t := SetStatus(l.history[id], s);
      UpdateStatusFields(l, id, s);
      UpdateStatusIndex(l, id, s, kind);
      MoveToEndGroups(IndexOf(l, kind), KeyOf(kind, t), id);
    }
  }

  lemma UpdateStatusIndex(l: Ledger, id: string, s: TransactionStatus, kind: IndexKind)
    requires id in l.history
    ensures SetStatus(l.history[id], s) == l.history[id].(status := s)
    ensures IndexOf(UpdateStatusSpec(l, id, s).1, kind)
         == MoveToEnd(IndexOf(l, kind), KeyOf(kind, SetStatus(l.history[id], s)), id)
  {
  }

  lemma UpdateStatusPreserves(l: Ledger, id: string, s: TransactionStatus)
    requires LedgerValid(l)
    ensures LedgerValid(UpdateStatusSpec(l, id, s).1)
    ensures Indexed(l) ==> Indexed(UpdateStatusSpec(l, id, s).1)
  {
    if id in l.history {
      var h, t := l.history, SetStatus(l.history[id], s);
      var l' := UpdateStatusSpec(l, id, s).1;
      assert t == h[id].(status := s);
      assert KeyOf(ByAccount, t) == KeyOf(ByAccount, h[id]);
      assert KeyOf(ByCustomer, t) == KeyOf(ByCustomer, h[id]);
      assert KeyOf(ByDate, t) == KeyOf(ByDate, h[id]);
      assert l'.history == h[id := t];
      assert KeysAreIds(l'.history);
      MoveToEndSound(l.accountIndex, h, ByAccount, id, t);
      MoveToEndSound(l.customerIndex, h, ByCustomer, id, t);
      MoveToEndSound(l.dateIndex, h, ByDate, id, t);
      if Indexed(l) {
        MoveToEndComplete(l.accountIndex, h, ByAccount, id, t);
        MoveToEndComplete(l.customerIndex, h, ByCustomer, id, t);
        MoveToEndComplete(l.dateIndex, h, ByDate, id, t);
      }
    }
  }

  /**
   * Marking an entry that was just filed moves nothing: its id already sits,
   * once, at the end of each of its groups.
   */
  lemma UpdateJustFiled(l: Ledger, t: Transaction, s: TransactionStatus)
    requires LedgerValid(l) && t.transactionId !in l.history
    ensures UpdateStatusSpec(Filed(l, t), t.transactionId, s).0
    ensures UpdateStatusSpec(Filed(l, t), t.transactionId, s).1
         == Filed(l, t).(history := l.history[t.transactionId := SetStatus(t, s)])
  {
    UpdateJustFiledIndices(l, t, s);
    UpdateJustFiledEntry(l, t, s);
  }

  lemma UpdateJustFiledIndices(l: Ledger, t: Transaction, s: TransactionStatus)
    requires LedgerValid(l) && t.transactionId !in l.history
    ensures UpdateStatusSpec(Filed(l, t), t.transactionId, s).1.accountIndex == Filed(l, t).accountIndex
    ensures UpdateStatusSpec(Filed(l, t), t.transactionId, s).1.customerIndex == Filed(l, t).customerIndex
    ensures UpdateStatusSpec(Filed(l, t), t.transactionId, s).1.dateIndex == Filed(l, t).dateIndex
  {
    var t' := SetStatus(t, s);
    assert t' == t.(status := s);
    MoveAfterFiling(l.accountIndex, l.history, ByAccount, t, t');
    MoveAfterFiling(l.customerIndex, l.history, ByCustomer, t, t');
    MoveAfterFiling(l.dateIndex, l.history, ByDate, t, t');
  }

  lemma UpdateJustFiledEntry(l: Ledger, t: Transaction, s: TransactionStatus)
    requires t.transactionId !in l.history
    ensures UpdateStatusSpec(Filed(l, t), t.transactionId, s).0
    ensures UpdateStatusSpec(Filed(l, t), t.transactionId, s).1.history == l.history[t.transactionId := SetStatus(t, s)]
    ensures UpdateStatusSpec(Filed(l, t), t.transactionId, s).1.nextNumber == l.nextNumber
  {
    FiledFields(l, t);
    UpdateStatusFields(Filed(l, t), t.transactionId, s);
    Overwritten(l.history, t.transactionId, t, SetStatus(t, s));
  }

  lemma FiledFields(l: Ledger, t: Transaction)
    ensures Filed(l, t).history == l.history[t.transactionId := t]
    ensures Filed(l, t).nextNumber == l.nextNumber
  {
  }

  lemma Overwritten(h: map<string, Transaction>, id: string, t: Transaction, t': Transaction)
    ensures h[id := t][id := t'] == h[id := t']
  {
  }

  // ---------------------------------------------------------------------------
  // processTransfer
  // ---------------------------------------------------------------------------

  /** processTransfer's arguments. */
  datatype TransferRequest = TransferRequest(
    from: string, to: string, amount: real, description: string,
    fromBefore: real, fromAfter: real, toBefore: real, toAfter: real,
    customerId: string)

  /** A transfer leg: the constructor's entry, pointing at the other account, set to COMPLETED. */
  function TransferLeg(id: string, kind: TransactionType, accountNumber: string, otherAccount: string,
                       amount: real, description: string, before: real, after: real,
                       customerId: string, now: string): Transaction
  {
    SetStatus(SetRelatedAccountNumber(
      NewTransaction(id, accountNumber, kind, amount, description, before, after, customerId, now),
      otherAccount), Completed)
  }

  function OutLeg(id: string, q: TransferRequest, now: string): Transaction
  {
    TransferLeg(id, TransferOut, q.from, q.to, q.amount, q.description, q.fromBefore, q.fromAfter, q.customerId, now)
  }

  function InLeg(id: string, q: TransferRequest, now: string): Transaction
  {
    TransferLeg(id, TransferIn, q.to, q.from, q.amount, q.description, q.toBefore, q.toAfter, q.customerId, now)
  }

  /** The two legs are paired: each names the other's account, and their net amounts cancel. */
  lemma LegsPaired(outId: string, inId: string, q: TransferRequest, now: string)
    ensures
      var out, inn := OutLeg(outId, q, now), InLeg(inId, q, now);
      out.transactionId == outId && inn.transactionId == inId
      && out.relatedAccountNumber == inn.accountNumber == q.to
      && inn.relatedAccountNumber == out.accountNumber == q.from
      && out.amount == inn.amount == q.amount
      && out.description == inn.description && out.customerId == inn.customerId
      && out.status == inn.status == Completed
      && IsTransfer(out) && IsTransfer(inn)
      && GetNetAmount(out) + GetNetAmount(inn) == 0.0
  {
  }

  function TransferSpec(l: Ledger, q: TransferRequest, now: string): (string, Ledger)
  {
    var g := GenerateIdSpec(l, now);
    var first := AddSpec(g.1, OutLeg(g.0, q, now));
    if first.0 != Added then ("", first.1)
    else SecondLegSpec(first.1, g.0, q, now)
  }

  /** The rest of processTransfer once the out-leg outId is stored: the in-leg, or the rollback. */
  function SecondLegSpec(l: Ledger, outId: string, q: TransferRequest, now: string): (string, Ledger)
  {
    var g := GenerateIdSpec(l, now);
    var second := AddSpec(g.1, InLeg(g.0, q, now));
    if second.0 != Added then ("", UpdateStatusSpec(second.1, outId, Failed).1)
    else (outId, second.1)
  }

  /** The out-leg's id is taken: "" is returned and only the counter has moved. */
  lemma TransferOutLegRejected(l: Ledger, q: TransferRequest, now: string)
    requires FormatId(now, l.nextNumber) in l.history
    ensures TransferSpec(l, q, now) == ("", l.(nextNumber := l.nextNumber + 1))
  {
    LegsPaired(FormatId(now, l.nextNumber), "", q, now);
  }

  /**
   * The in-leg's id is taken: "" is returned, and the out-leg stays stored and
   * filed but marked FAILED. Both ids were used up.
   */
  lemma TransferInLegRejected(l: Ledger, q: TransferRequest, now: string)
    requires LedgerValid(l)
    requires FormatId(now, l.nextNumber) !in l.history && FormatId(now, l.nextNumber + 1) in l.history
    ensures
      var out := OutLeg(FormatId(now, l.nextNumber), q, now);
      TransferSpec(l, q, now)
      == ("", Filed(l, out).(history := l.history[out.transactionId := out.(status := Failed)],
                             nextNumber := l.nextNumber + 2))
  {
    var outId := FormatId(now, l.nextNumber);
    var out := OutLeg(outId, q, now);
    LegIds(outId, q, now);
    var l1 := l.(nextNumber := l.nextNumber + 1);
    FiledFields(l1, out);
    var l2 := Filed(l1, out);
    FirstLegAdded(l, q, now);
    SecondLegRejected(l2, outId, q, now);
    var l0 := l.(nextNumber := l.nextNumber + 2);
    FiledCounter(l, out, l.nextNumber + 1);
    FiledCounter(l, out, l.nextNumber + 2);
    assert l2.(nextNumber := l2.nextNumber + 1) == Filed(l0, out);
    UpdateJustFiled(l0, out, Failed);
  }

  /** A free out-leg id: the out-leg is stored and filed, and the in-leg comes next. */
  lemma FirstLegAdded(l: Ledger, q: TransferRequest, now: string)
    requires FormatId(now, l.nextNumber) !in l.history
    ensures
      var outId := FormatId(now, l.nextNumber);
      TransferSpec(l, q, now)
      == SecondLegSpec(Filed(l.(nextNumber := l.nextNumber + 1), OutLeg(outId, q, now)), outId, q, now)
  {
    var outId := FormatId(now, l.nextNumber);
    LegIds(outId, q, now);
    GeneratedIdShape(now, l.nextNumber, l.nextNumber + 1);
    AddFresh(l.(nextNumber := l.nextNumber + 1), OutLeg(outId, q, now));
  }

  lemma LegIds(id: string, q: TransferRequest, now: string)
    ensures OutLeg(id, q, now).transactionId == id && InLeg(id, q, now).transactionId == id
    ensures OutLeg(id, q, now).transactionType == TransferOut && OutLeg(id, q, now).accountNumber == q.from
    ensures OutLeg(id, q, now).status == Completed
    ensures SetStatus(OutLeg(id, q, now), Failed) == OutLeg(id, q, now).(status := Failed)
  {
  }

  /** The in-leg's id is taken: nothing is added, and the out-leg is marked FAILED. */
  lemma SecondLegRejected(l: Ledger, outId: string, q: TransferRequest, now: string)
    requires FormatId(now, l.nextNumber) in l.history
    ensures SecondLegSpec(l, outId, q, now)
         == ("", UpdateStatusSpec(l.(nextNumber := l.nextNumber + 1), outId, Failed).1)
  {
    LegIds(FormatId(now, l.nextNumber), q, now);
  }

  /** Both ids are new: both legs are stored and filed, and the out-leg's id is returned. */
  lemma TransferCompleted(l: Ledger, q: TransferRequest, now: string)
    requires FormatId(now, l.nextNumber) !in l.history && FormatId(now, l.nextNumber + 1) !in l.history
    ensures FormatId(now, l.nextNumber) != FormatId(now, l.nextNumber + 1)
    ensures
      var outId, inId := FormatId(now, l.nextNumber), FormatId(now, l.nextNumber + 1);
      TransferSpec(l, q, now)
      == (outId, Filed(Filed(l, OutLeg(outId, q, now)), InLeg(inId, q, now)).(nextNumber := l.nextNumber + 2))
  {
    var n := l.nextNumber;
    if FormatId(now, n) == FormatId(now, n + 1) {
      FormatIdInjective(now, n, n + 1);
    }
    FirstLegAdded(l, q, now);
    SecondLegAdded(Filed(l.(nextNumber := n + 1), OutLeg(FormatId(now, n), q, now)), FormatId(now, n), q, now);
  }

  /** A free in-leg id: the in-leg is stored and filed, and the out-leg's id is returned. */
  lemma SecondLegAdded(l: Ledger, outId: string, q: TransferRequest, now: string)
    requires FormatId(now, l.nextNumber) !in l.history
    ensures SecondLegSpec(l, outId, q, now)
         == (outId, Filed(l.(nextNumber := l.nextNumber + 1), InLeg(FormatId(now, l.nextNumber), q, now)))
  {
    LegIds(FormatId(now, l.nextNumber), q, now);
    GeneratedIdShape(now, l.nextNumber, l.nextNumber + 1);
    AddFresh(l.(nextNumber := l.nextNumber + 1), InLeg(FormatId(now, l.nextNumber), q, now));
  }

  lemma TransferPreserves(l: Ledger, q: TransferRequest, now: string)
    requires LedgerValid(l)
    ensures LedgerValid(TransferSpec(l, q, now).1)
    ensures Indexed(l) ==> Indexed(TransferSpec(l, q, now).1)
  {
    var g := GenerateIdSpec(l, now);
    AddPreserves(g.1, OutLeg(g.0, q, now));
    var first := AddSpec(g.1, OutLeg(g.0, q, now));
    if first.0 == Added {
      assert TransferSpec(l, q, now) == SecondLegSpec(first.1, g.0, q, now);
      SecondLegPreserves(first.1, g.0, q, now);
    }
  }

  lemma SecondLegPreserves(l: Ledger, outId: string, q: TransferRequest, now: string)
    requires LedgerValid(l)
    ensures LedgerValid(SecondLegSpec(l, outId, q, now).1)
    ensures Indexed(l) ==> Indexed(SecondLegSpec(l, outId, q, now).1)
  {
    var g := GenerateIdSpec(l, now);
    AddPreserves(g.1, InLeg(g.0, q, now));
    var second := AddSpec(g.1, InLeg(g.0, q, now));
    UpdateStatusPreserves(second.1, outId, Failed);
  }

  /** Entries stored before a transfer are still there afterwards, unchanged. */
  lemma TransferKeepsStored(l: Ledger, q: TransferRequest, now: string, x: string)
    requires LedgerValid(l) && x in l.history
    ensures x in TransferSpec(l, q, now).1.history
    ensures TransferSpec(l, q, now).1.history[x] == l.history[x]
  {
    var outId, inId := FormatId(now, l.nextNumber), FormatId(now, l.nextNumber + 1);
    if outId in l.history {
      TransferOutLegRejected(l, q, now);
    } else if inId in l.history {
      TransferInLegRejected(l, q, now);
      FiledFields(l, OutLeg(outId, q, now));
    } else {
      TransferCompleted(l, q, now);
      FiledFields(l, OutLeg(outId, q, now));
      FiledFields(Filed(l, OutLeg(outId, q, now)), InLeg(inId, q, now));
    }
  }

  // ---------------------------------------------------------------------------
  // reverseTransaction
  // ---------------------------------------------------------------------------

  /** The original entry once reverseTransaction has marked it, in place, without re-filing it. */
  function MarkReversed(t: Transaction, reason: string): Transaction
  {
    SetNotes(SetStatus(t, Reversed), "Reversed: " + reason)
  }

  function Marked(l: Ledger, id: string, reason: string): Ledger
    requires id in l.history
  {
    l.(history := l.history[id := MarkReversed(l.history[id], reason)])
  }

  /**
   * The compensating entry for a deposit or withdrawal: the opposite kind, on
   * the same account, for the same amount. Its balances are the original's
   * before- and after-balance, the after-balance read through the getter, and
   * its customer and related account are also read through getters, so the
   * balance fallback and the "N/A" defaults end up stored in it.
   */
  function ReversalEntry(rid: string, kind: TransactionType, marked: Transaction, now: string): Transaction
  {
    SetStatus(SetRelatedAccountNumber(
      NewTransaction(rid, marked.accountNumber, kind, marked.amount, "Reversal of " + marked.transactionId,
                     marked.balanceBefore, GetBalanceAfter(marked), GetCustomerId(marked), now),
      GetRelatedAccountNumber(marked)), Completed)
  }

  /**
   * The processTransfer call a transfer's reversal makes: from the original's
   * account to its related account, the same direction as the original leg.
   */
  function ReversalRequest(marked: Transaction): TransferRequest
  {
    TransferRequest(marked.accountNumber, GetRelatedAccountNumber(marked), marked.amount,
                    "Reversal of transfer " + marked.transactionId,
                    marked.balanceBefore, marked.balanceBefore + marked.amount,
                    GetBalanceAfter(marked), GetBalanceAfter(marked) - marked.amount,
                    GetCustomerId(marked))
  }

  /** The kind that undoes a deposit or a withdrawal. */
  function Opposite(kind: TransactionType): TransactionType
  {
    if kind == Deposit then Withdrawal else Deposit
  }

  /** The deposit and withdrawal branch: a compensating entry under a new id, and whether it was stored. */
  function CompensateSpec(l: Ledger, marked: Transaction, now: string): (bool, Ledger)
  {
    var g := GenerateIdSpec(l, now);
    var added := AddSpec(g.1, ReversalEntry(g.0, Opposite(marked.transactionType), marked, now));
    (added.0 == Added, added.1)
  }

  lemma CompensatePreserves(l: Ledger, marked: Transaction, now: string)
    requires LedgerValid(l)
    ensures LedgerValid(CompensateSpec(l, marked, now).1)
    ensures Indexed(l) ==> Indexed(CompensateSpec(l, marked, now).1)
  {
    var g := GenerateIdSpec(l, now);
    AddPreserves(g.1, ReversalEntry(g.0, Opposite(marked.transactionType), marked, now));
  }

  /** The compensating entry takes the next id and is stored exactly when that id is free. */
  lemma CompensateOutcomes(l: Ledger, marked: Transaction, now: string)
    ensures
      var rid := FormatId(now, l.nextNumber);
      var rev := ReversalEntry(rid, Opposite(marked.transactionType), marked, now);
      (rid in l.history ==> CompensateSpec(l, marked, now) == (false, l.(nextNumber := l.nextNumber + 1)))
      && (rid !in l.history ==> CompensateSpec(l, marked, now) == (true, Filed(l, rev).(nextNumber := l.nextNumber + 1)))
  {
    var rid := FormatId(now, l.nextNumber);
    var rev := ReversalEntry(rid, Opposite(marked.transactionType), marked, now);
    GeneratedIdShape(now, l.nextNumber, l.nextNumber + 1);
    ReversalId(rid, Opposite(marked.transactionType), marked, now);
    if rid !in l.history {
      AddFresh(l.(nextNumber := l.nextNumber + 1), rev);
      FiledCounter(l, rev, l.nextNumber + 1);
    }
  }

  lemma ReversalId(rid: string, kind: TransactionType, marked: Transaction, now: string)
    ensures ReversalEntry(rid, kind, marked, now).transactionId == rid
  {
  }

  function ReverseSpec(l: Ledger, id: string, reason: string, now: string): (bool, Ledger)
  {
    if id !in l.history || l.history[id].status != Completed then (false, l)
    else
      var marked := MarkReversed(l.history[id], reason);
      var l1 := Marked(l, id, reason);
      if marked.transactionType == Deposit || marked.transactionType == Withdrawal then
        CompensateSpec(l1, marked, now)
      else if IsTransfer(marked) then
        var r := TransferSpec(l1, ReversalRequest(marked), now);
        (r.0 == "", r.1)
      else
        (false, l1)
  }

  /** The marked entry differs from the original only in status and notes, so its keys are the same. */
  lemma MarkedFields(t: Transaction, reason: string)
    ensures MarkReversed(t, reason) == t.(status := Reversed, notes := "Reversed: " + reason)
    ensures forall kind :: KeyOf(kind, MarkReversed(t, reason)) == KeyOf(kind, t)
  {
  }

  /** Marking keeps the invariant and completeness: no index entry depends on status or notes. */
  lemma MarkedPreserves(l: Ledger, id: string, reason: string)
    requires LedgerValid(l) && id in l.history
    ensures LedgerValid(Marked(l, id, reason))
    ensures Indexed(l) ==> Indexed(Marked(l, id, reason))
  {
    var t := MarkReversed(l.history[id], reason);
    MarkedFields(l.history[id], reason);
    ReplaceSameKey(l.accountIndex, l.history, ByAccount, id, t);
    ReplaceSameKey(l.customerIndex, l.history, ByCustomer, id, t);
    ReplaceSameKey(l.dateIndex, l.history, ByDate, id, t);
  }

  lemma MarkedShape(l: Ledger, id: string, reason: string)
    requires id in l.history
    ensures Marked(l, id, reason).history.Keys == l.history.Keys
    ensures Marked(l, id, reason).nextNumber == l.nextNumber
  {
  }

  /** An unknown id, or an entry that is not COMPLETED: false, and nothing changes. */
  lemma ReverseRejected(l: Ledger, id: string, reason: string, now: string)
    requires id !in l.history || l.history[id].status != Completed
    ensures ReverseSpec(l, id, reason, now) == (false, l)
  {
  }

  /**
   * A deposit or withdrawal is marked, and a compensating entry of the
   * opposite kind takes the next id; true is returned exactly when that id was
   * free and the entry was stored.
   */
  lemma ReverseDepositOrWithdrawal(l: Ledger, id: string, reason: string, now: string)
    requires id in l.history && l.history[id].status == Completed
    requires l.history[id].transactionType in {Deposit, Withdrawal}
    ensures
      var t := l.history[id];
      var rid := FormatId(now, l.nextNumber);
      var rev := ReversalEntry(rid, Opposite(t.transactionType), MarkReversed(t, reason), now);
      var l1 := Marked(l, id, reason);
      (rid in l.history ==> ReverseSpec(l, id, reason, now) == (false, l1.(nextNumber := l.nextNumber + 1)))
      && (rid !in l.history ==> ReverseSpec(l, id, reason, now) == (true, Filed(l1, rev).(nextNumber := l.nextNumber + 1)))
  {
    var t := l.history[id];
    MarkedFields(t, reason);
    assert ReverseSpec(l, id, reason, now) == CompensateSpec(Marked(l, id, reason), MarkReversed(t, reason), now);
    CompensateOutcomes(Marked(l, id, reason), MarkReversed(t, reason), now);
  }

  /**
   * The compensating entry undoes the original's effect on its account: the
   * opposite kind, the same account and amount, so the opposite net amount. It
   * copies the original's balances, and stores the getters' defaults for the
   * related account and the customer.
   */
  lemma ReversalFields(rid: string, marked: Transaction, now: string)
    requires marked.transactionType in {Deposit, Withdrawal}
    ensures
      var rev := ReversalEntry(rid, Opposite(marked.transactionType), marked, now);
      rev.transactionId == rid && rev.transactionType != marked.transactionType
      && rev.accountNumber == marked.accountNumber && rev.amount == marked.amount
      && GetNetAmount(rev) == -GetNetAmount(marked)
      && rev.balanceBefore == marked.balanceBefore && rev.balanceAfter == GetBalanceAfter(marked)
      && rev.relatedAccountNumber == GetRelatedAccountNumber(marked)
      && rev.customerId == GetCustomerId(marked)
      && rev.status == Completed && rev.timestamp == now
  {
  }

  /**
   * A transfer is marked and processTransfer is called with the same from and
   * to accounts, and the result is inverted: reverseTransaction reports true
   * exactly when that transfer failed, and when it succeeds a second
   * TRANSFER_OUT leaves the original's account.
   */
  lemma ReverseTransfer(l: Ledger, id: string, reason: string, now: string)
    requires LedgerValid(l) && id in l.history && l.history[id].status == Completed
    requires IsTransfer(l.history[id])
    ensures
      var t := l.history[id];
      var outId, inId := FormatId(now, l.nextNumber), FormatId(now, l.nextNumber + 1);
      var r := ReverseSpec(l, id, reason, now);
      (r.0 <==> outId in l.history || inId in l.history)
      && (!r.0 ==> outId in r.1.history && r.1.history[outId].transactionType == TransferOut
                   && r.1.history[outId].accountNumber == t.accountNumber
                   && r.1.history[outId].status == Completed)
  {
    var t := l.history[id];
    var marked := MarkReversed(t, reason);
    MarkedFields(t, reason);
    MarkedPreserves(l, id, reason);
    MarkedShape(l, id, reason);
    ReverseTransferCall(l, id, reason, now);
    TransferReported(Marked(l, id, reason), ReversalRequest(marked), now);
  }

  lemma ReverseTransferCall(l: Ledger, id: string, reason: string, now: string)
    requires id in l.history && l.history[id].status == Completed && IsTransfer(l.history[id])
    ensures
      var r := TransferSpec(Marked(l, id, reason), ReversalRequest(MarkReversed(l.history[id], reason)), now);
      ReverseSpec(l, id, reason, now) == (r.0 == "", r.1)
  {
    MarkedFields(l.history[id], reason);
  }

  /**
   * processTransfer returns a non-empty id exactly when both generated ids
   * were free, and the TRANSFER_OUT leg is then stored under the id returned.
   */
  lemma TransferReported(l: Ledger, q: TransferRequest, now: string)
    requires LedgerValid(l)
    ensures
      var outId, inId := FormatId(now, l.nextNumber), FormatId(now, l.nextNumber + 1);
      var r := TransferSpec(l, q, now);
      (r.0 != "" <==> outId !in l.history && inId !in l.history)
      && (r.0 != "" ==> r.0 == outId && outId in r.1.history && r.1.history[outId] == OutLeg(outId, q, now))
  {
    var outId, inId := FormatId(now, l.nextNumber), FormatId(now, l.nextNumber + 1);
    if outId in l.history {
      TransferOutLegRejected(l, q, now);
    } else if inId in l.history {
      TransferInLegRejected(l, q, now);
    } else {
      TransferCompleted(l, q, now);
      LegIds(outId, q, now);
      TransferResultHistory(l, q, now);
      GeneratedIdShape(now, l.nextNumber, l.nextNumber + 1);
    }
  }

  /** After a completed transfer both legs are stored under their ids. */
  lemma TransferResultHistory(l: Ledger, q: TransferRequest, now: string)
    requires FormatId(now, l.nextNumber) != FormatId(now, l.nextNumber + 1)
    ensures
      var outId, inId := FormatId(now, l.nextNumber), FormatId(now, l.nextNumber + 1);
      var out, inn := OutLeg(outId, q, now), InLeg(inId, q, now);
      Filed(Filed(l, out), inn).history == l.history[outId := out][inId := inn]
  {
    var outId, inId := FormatId(now, l.nextNumber), FormatId(now, l.nextNumber + 1);
    LegIds(outId, q, now);
    LegIds(inId, q, now);
  }

  /** Any other kind is marked REVERSED and false is returned. */
  lemma ReverseUnsupported(l: Ledger, id: string, reason: string, now: string)
    requires id in l.history && l.history[id].status == Completed
    requires l.history[id].transactionType !in {Deposit, Withdrawal, TransferIn, TransferOut}
    ensures ReverseSpec(l, id, reason, now) == (false, Marked(l, id, reason))
  {
    MarkedFields(l.history[id], reason);
  }

  /** Whatever the kind, a COMPLETED entry ends up REVERSED with the reason in its notes. */
  lemma ReverseMarks(l: Ledger, id: string, reason: string, now: string)
    requires LedgerValid(l) && id in l.history && l.history[id].status == Completed
    ensures id in ReverseSpec(l, id, reason, now).1.history
    ensures ReverseSpec(l, id, reason, now).1.history[id]
         == l.history[id].(status := Reversed, notes := "Reversed: " + reason)
  {
    var t := l.history[id];
    MarkedFields(t, reason);
    MarkedPreserves(l, id, reason);
    var l1 := Marked(l, id, reason);
    if t.transactionType in {Deposit, Withdrawal} {
      ReverseDepositOrWithdrawal(l, id, reason, now);
      var rid := FormatId(now, l.nextNumber);
      FiledFields(l1, ReversalEntry(rid, Opposite(t.transactionType), MarkReversed(t, reason), now));
    } else if IsTransfer(t) {
      TransferKeepsStored(l1, ReversalRequest(MarkReversed(t, reason)), now, id);
    } else {
      ReverseUnsupported(l, id, reason, now);
    }
  }

  lemma ReversePreserves(l: Ledger, id: string, reason: string, now: string)
    requires LedgerValid(l)
    ensures LedgerValid(ReverseSpec(l, id, reason, now).1)
    ensures Indexed(l) ==> Indexed(ReverseSpec(l, id, reason, now).1)
  {
    if id in l.history && l.history[id].status == Completed {
      var t := l.history[id];
      var marked := MarkReversed(t, reason);
      MarkedFields(t, reason);
      MarkedPreserves(l, id, reason);
      var l1 := Marked(l, id, reason);
      if marked.transactionType == Deposit || marked.transactionType == Withdrawal {
        assert ReverseSpec(l, id, reason, now) == CompensateSpec(l1, marked, now);
        CompensatePreserves(l1, marked, now);
      } else if IsTransfer(marked) {
        assert ReverseSpec(l, id, reason, now).1 == TransferSpec(l1, ReversalRequest(marked), now).1;
        TransferPreserves(l1, ReversalRequest(marked), now);
      } else {
        assert ReverseSpec(l, id, reason, now) == (false, l1);
      }
    }
  }
}
