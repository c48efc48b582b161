/**
 * The ledger's analytics: per-account totals, net flow, count and average,
 * all computed over getAccountHistory(accountNumber, INT_MAX), and the
 * system-wide count and volume computed over the whole history.
 */
module LedgerAnalytics {
  import opened StdString
  import opened StdMap
  import opened Transactions
  import opened TxnOrder
  import opened LedgerIndex
  import opened LedgerSpec
  import opened LedgerQueries

  /** The date filter: it applies only when both bounds are non-empty, and compares whole timestamps. */
  predicate InWindow(t: Transaction, startDate: string, endDate: string)
  {
    startDate == "" || endDate == ""
    || (LexLe(startDate, t.timestamp) && LexLe(t.timestamp, endDate))
  }

  /** What an accumulator loop adds up. */
  datatype Tally =
    | DepositsIn(startDate: string, endDate: string)      // getTotalDeposits: DEPOSIT amounts
    | WithdrawalsIn(startDate: string, endDate: string)   // getTotalWithdrawals: WITHDRAWAL and TRANSFER_OUT amounts
    | EntriesIn(startDate: string, endDate: string)       // getTransactionCount
    | OfKind(kind: TransactionType)                       // getAverageTransactionAmount
    | NetAmounts                                          // getTotalSystemVolume

  /** The loop's test for t. */
  predicate Counts(m: Tally, t: Transaction)
  {
    match m
    case DepositsIn(s, e) => t.transactionType == Deposit && InWindow(t, s, e)
    case WithdrawalsIn(s, e) => t.transactionType in {Withdrawal, TransferOut} && InWindow(t, s, e)
    case EntriesIn(s, e) => InWindow(t, s, e)
    case OfKind(k) => t.transactionType == k
    case NetAmounts => true
  }

  /** What the loop adds for t. */
  function Weight(m: Tally, t: Transaction): real
  {
    if !Counts(m, t) then 0.0
    else if m.NetAmounts? then GetNetAmount(t)
    else t.amount
  }

  /** The accumulated sum over s, first to last. */
  function Total(m: Tally, s: seq<Transaction>): real
  {
    if |s| == 0 then 0.0 else Total(m, s[..|s| - 1]) + Weight(m, s[|s| - 1])
  }

  /** The accumulated count over s. */
  function Hits(m: Tally, s: seq<Transaction>): nat
  {
    if |s| == 0 then 0 else Hits(m, s[..|s| - 1]) + (if Counts(m, s[|s| - 1]) then 1 else 0)
  }

  /** One more entry visited: the step of every accumulator loop. */
  lemma TallyStep(m: Tally, s: seq<Transaction>, i: nat)
    requires i < |s|
    ensures Total(m, s[..i + 1]) == Total(m, s[..i]) + Weight(m, s[i])
    ensures Hits(m, s[..i + 1]) == Hits(m, s[..i]) + (if Counts(m, s[i]) then 1 else 0)
  {
    assert s[..i + 1][..i] == s[..i];
  }

  lemma {:induction false} TallyAppend(m: Tally, a: seq<Transaction>, b: seq<Transaction>)
    ensures Total(m, a + b) == Total(m, a) + Total(m, b)
    ensures Hits(m, a + b) == Hits(m, a) + Hits(m, b)
    decreases |b|
  {
    if |b| == 0 {
      assert a + b == a;
    } else {
      var b' := b[..|b| - 1];
      assert (a + b)[..|a + b| - 1] == a + b';
      TallyAppend(m, a, b');
    }
  }

  lemma TallySplit(m: Tally, front: seq<Transaction>, x: Transaction, back: seq<Transaction>)
    ensures Total(m, front + [x] + back) == Total(m, front + back) + Weight(m, x)
    ensures Hits(m, front + [x] + back) == Hits(m, front + back) + (if Counts(m, x) then 1 else 0)
  {
    TallyAppend(m, front, back);
    TallyAppend(m, front + [x], back);
    TallyAppend(m, front, [x]);
  }

  /** The sums do not depend on the order the loop visits the entries in. */
  lemma {:induction false} TallyPermutation(m: Tally, a: seq<Transaction>, b: seq<Transaction>)
    requires multiset(a) == multiset(b)
    ensures Total(m, a) == Total(m, b) && Hits(m, a) == Hits(m, b)
    decreases |a|
  {
    if |a| == 0 {
      assert |b| == |multiset(b)| == 0;
    } else {
      var x := a[|a| - 1];
      assert x in multiset(b);
      var j :| 0 <= j < |b| && b[j] == x;
      RemoveAt(a, b, j);
      TallyPermutation(m, a[..|a| - 1], b[..j] + b[j + 1..]);
      TallySplit(m, b[..j], x, b[j + 1..]);
    }
  }

  /** n copies of x added up. */
  function Scaled(n: nat, x: real): real
  {
    if n == 0 then 0.0 else Scaled(n - 1, x) + x
  }

  lemma {:induction false} ScaledIsProduct(n: nat, x: real)
    ensures Scaled(n, x) == n as real * x
  {
    if n > 0 {
      ScaledIsProduct(n - 1, x);
    }
  }

  /** Every counted entry's amount within [lo, hi] bounds the sum by count copies of lo and of hi. */
  lemma {:induction false} TallyBounds(m: Tally, s: seq<Transaction>, lo: real, hi: real)
    requires !m.NetAmounts?
    requires forall i :: 0 <= i < |s| && Counts(m, s[i]) ==> lo <= s[i].amount <= hi
    ensures Scaled(Hits(m, s), lo) <= Total(m, s) <= Scaled(Hits(m, s), hi)
  {
    if |s| > 0 {
      var init := s[..|s| - 1];
      assert forall i :: 0 <= i < |init| ==> init[i] == s[i];
      TallyBounds(m, init, lo, hi);
    }
  }

  /** A sum between n * lo and n * hi has its mean between lo and hi. */
  lemma MeanBounds(total: real, n: nat, lo: real, hi: real)
    requires n > 0 && Scaled(n, lo) <= total <= Scaled(n, hi)
    ensures lo <= total / n as real <= hi
  {
    ScaledIsProduct(n, lo);
    ScaledIsProduct(n, hi);
    assert (total / n as real) * n as real == total;
  }

  // ---------------------------------------------------------------------------
  // Per-account analytics
  // ---------------------------------------------------------------------------

  /** getAccountHistory(accountNumber, INT_MAX): the list every per-account analytic walks. */
  function AccountEntries(l: Ledger, accountNumber: string): seq<Transaction>
  {
    AccountHistorySpec(l, accountNumber, INT_MAX)
  }

  function TotalDepositsSpec(l: Ledger, accountNumber: string, startDate: string, endDate: string): real
  {
    Total(DepositsIn(startDate, endDate), AccountEntries(l, accountNumber))
  }

  function TotalWithdrawalsSpec(l: Ledger, accountNumber: string, startDate: string, endDate: string): real
  {
    Total(WithdrawalsIn(startDate, endDate), AccountEntries(l, accountNumber))
  }

  /** getNetFlow: the two totals for the same arguments, subtracted. */
  function NetFlowSpec(l: Ledger, accountNumber: string, startDate: string, endDate: string): real
  {
    TotalDepositsSpec(l, accountNumber, startDate, endDate) - TotalWithdrawalsSpec(l, accountNumber, startDate, endDate)
  }

  function CountSpec(l: Ledger, accountNumber: string, startDate: string, endDate: string): nat
  {
    Hits(EntriesIn(startDate, endDate), AccountEntries(l, accountNumber))
  }

  /** getAverageTransactionAmount: the mean amount of the account's entries of one type, 0 when there are none. */
  function AverageSpec(l: Ledger, accountNumber: string, kind: TransactionType): real
  {
    var n := Hits(OfKind(kind), AccountEntries(l, accountNumber));
    if n > 0 then Total(OfKind(kind), AccountEntries(l, accountNumber)) / n as real else 0.0
  }

  /** The account's stored entries in index order, before the INT_MAX cap and the sort. */
  function AccountFound(l: Ledger, accountNumber: string): seq<Transaction>
  {
    Select(l.history, Group(l.accountIndex, accountNumber), AnyStored)
  }

  /** Neither the sort nor, below INT_MAX entries, the cap changes what the analytics add up. */
  lemma EntriesTally(l: Ledger, accountNumber: string, m: Tally)
    requires |Group(l.accountIndex, accountNumber)| <= INT_MAX
    ensures Total(m, AccountEntries(l, accountNumber)) == Total(m, AccountFound(l, accountNumber))
    ensures Hits(m, AccountEntries(l, accountNumber)) == Hits(m, AccountFound(l, accountNumber))
  {
    var found := AccountFound(l, accountNumber);
    SelectLength(l.history, Group(l.accountIndex, accountNumber), AnyStored);
    assert Take(found, SizeT(INT_MAX)) == found;
    assert AccountEntries(l, accountNumber) == Sort(NewestFirst, found);
    TallyPermutation(m, AccountEntries(l, accountNumber), found);
  }

  /** Filing a new entry appends it to its own account's walk and leaves every other account's walk alone. */
  lemma FiledFound(l: Ledger, t: Transaction, accountNumber: string)
    requires LedgerValid(l) && t.transactionId !in l.history
    ensures AccountFound(Filed(l, t), accountNumber)
         == AccountFound(l, accountNumber) + (if accountNumber == t.accountNumber then [t] else [])
  {
    var h, h' := l.history, Filed(l, t).history;
    var g := Group(l.accountIndex, accountNumber);
    FiledFields(l, t);
    EmplaceGroups(l.accountIndex, t.accountNumber, t.transactionId);
    SoundGroup(l.accountIndex, h, ByAccount, accountNumber);
    assert forall i :: 0 <= i < |g| ==> g[i] in h && g[i] != t.transactionId;
    SelectAgree(h, h', g, AnyStored);
    if accountNumber == t.accountNumber {
      var g' := g + [t.transactionId];
      assert g'[..|g'| - 1] == g;
    }
  }

  /** Filing a new entry adds its weight to its own account's analytics. */
  lemma FiledTalliesOwn(l: Ledger, t: Transaction, m: Tally)
    requires LedgerValid(l) && t.transactionId !in l.history
    requires |Group(l.accountIndex, t.accountNumber)| < INT_MAX
    ensures Total(m, AccountEntries(Filed(l, t), t.accountNumber)) == Total(m, AccountEntries(l, t.accountNumber)) + Weight(m, t)
    ensures Hits(m, AccountEntries(Filed(l, t), t.accountNumber)) == Hits(m, AccountEntries(l, t.accountNumber)) + (if Counts(m, t) then 1 else 0)
  {
    var acc := t.accountNumber;
    EmplaceGroups(l.accountIndex, acc, t.transactionId);
    assert Filed(l, t).accountIndex == Emplace(l.accountIndex, acc, t.transactionId);
    EntriesTally(l, acc, m);
    EntriesTally(Filed(l, t), acc, m);
    FiledFound(l, t, acc);
    TallyAppend(m, AccountFound(l, acc), [t]);
  }

  /** Filing a new entry changes no other account's analytics. */
  lemma FiledTalliesOther(l: Ledger, t: Transaction, accountNumber: string, m: Tally)
    requires LedgerValid(l) && t.transactionId !in l.history && accountNumber != t.accountNumber
    ensures AccountEntries(Filed(l, t), accountNumber) == AccountEntries(l, accountNumber)
  {
    FiledFound(l, t, accountNumber);
    assert AccountFound(l, accountNumber) + [] == AccountFound(l, accountNumber);
    EmplaceGroups(l.accountIndex, t.accountNumber, t.transactionId);
    assert Filed(l, t).accountIndex == Emplace(l.accountIndex, t.accountNumber, t.transactionId);
  }

  /** The counter plays no part in any query. */
  lemma EntriesIgnoreCounter(l: Ledger, accountNumber: string, n: nat)
    ensures AccountEntries(l.(nextNumber := n), accountNumber) == AccountEntries(l, accountNumber)
  {
  }

  /** A recorded entry is walked as if it had been filed directly. */
  lemma ProcessEntries(l: Ledger, kind: TransactionType, accountNumber: string, amount: real,
                       description: string, before: real, after: real, customerId: string, now: string)
    requires FormatId(now, l.nextNumber) !in l.history
    ensures
      var t := SingleEntry(FormatId(now, l.nextNumber), kind, accountNumber, amount, description, before, after, customerId, now);
      AccountEntries(ProcessSpec(l, kind, accountNumber, amount, description, before, after, customerId, now).1, accountNumber)
        == AccountEntries(Filed(l, t), accountNumber)
      && t.timestamp == now && t.accountNumber == accountNumber && t.transactionType == kind && t.amount == amount
      && t.transactionId == FormatId(now, l.nextNumber)
  {
    var t := SingleEntry(FormatId(now, l.nextNumber), kind, accountNumber, amount, description, before, after, customerId, now);
    ProcessOutcomes(l, kind, accountNumber, amount, description, before, after, customerId, now);
    EntriesIgnoreCounter(Filed(l, t), accountNumber, l.nextNumber + 1);
  }

  /**
   * A recorded deposit raises the account's deposits and net flow by its
   * amount; a recorded withdrawal raises its withdrawals by its amount and
   * lowers its net flow by it; a fee or interest entry moves neither total
   * (getTotalWithdrawals does not count FEE_CHARGE).
   * Any recorded entry raises the count by one. This holds whenever the
   * window contains the entry's timestamp.
   */
  lemma ProcessTotals(l: Ledger, kind: TransactionType, accountNumber: string, amount: real,
                      description: string, before: real, after: real, customerId: string,
                      now: string, startDate: string, endDate: string)
    requires LedgerValid(l) && FormatId(now, l.nextNumber) !in l.history
    requires |Group(l.accountIndex, accountNumber)| < INT_MAX
    requires startDate == "" || endDate == "" || (LexLe(startDate, now) && LexLe(now, endDate))
    requires kind in {Deposit, Withdrawal, FeeCharge, InterestCredit}
    ensures
      var l' := ProcessSpec(l, kind, accountNumber, amount, description, before, after, customerId, now).1;
      TotalDepositsSpec(l', accountNumber, startDate, endDate)
        == TotalDepositsSpec(l, accountNumber, startDate, endDate) + (if kind == Deposit then amount else 0.0)
      && TotalWithdrawalsSpec(l', accountNumber, startDate, endDate)
        == TotalWithdrawalsSpec(l, accountNumber, startDate, endDate) + (if kind == Withdrawal then amount else 0.0)
      && NetFlowSpec(l', accountNumber, startDate, endDate)
        == NetFlowSpec(l, accountNumber, startDate, endDate)
           + (if kind == Deposit then amount else if kind == Withdrawal then -amount else 0.0)
      && CountSpec(l', accountNumber, startDate, endDate) == CountSpec(l, accountNumber, startDate, endDate) + 1
  {
    var t := SingleEntry(FormatId(now, l.nextNumber), kind, accountNumber, amount, description, before, after, customerId, now);
    ProcessTally(l, kind, accountNumber, amount, description, before, after, customerId, now, DepositsIn(startDate, endDate));
    ProcessTally(l, kind, accountNumber, amount, description, before, after, customerId, now, WithdrawalsIn(startDate, endDate));
    ProcessTally(l, kind, accountNumber, amount, description, before, after, customerId, now, EntriesIn(startDate, endDate));
    assert Weight(DepositsIn(startDate, endDate), t) == if kind == Deposit then amount else 0.0;
    assert Weight(WithdrawalsIn(startDate, endDate), t) == if kind == Withdrawal then amount else 0.0;
    assert Counts(EntriesIn(startDate, endDate), t);
  }

  lemma ProcessTally(l: Ledger, kind: TransactionType, accountNumber: string, amount: real,
                     description: string, before: real, after: real, customerId: string,
                     now: string, m: Tally)
    requires LedgerValid(l) && FormatId(now, l.nextNumber) !in l.history
    requires |Group(l.accountIndex, accountNumber)| < INT_MAX
    ensures
      var t := SingleEntry(FormatId(now, l.nextNumber), kind, accountNumber, amount, description, before, after, customerId, now);
      var l' := ProcessSpec(l, kind, accountNumber, amount, description, before, after, customerId, now).1;
      Total(m, AccountEntries(l', accountNumber)) == Total(m, AccountEntries(l, accountNumber)) + Weight(m, t)
      && Hits(m, AccountEntries(l', accountNumber)) == Hits(m, AccountEntries(l, accountNumber)) + (if Counts(m, t) then 1 else 0)
  {
    var t := SingleEntry(FormatId(now, l.nextNumber), kind, accountNumber, amount, description, before, after, customerId, now);
    ProcessEntries(l, kind, accountNumber, amount, description, before, after, customerId, now);
    FiledTalliesOwn(l, t, m);
  }

  /**
   * A completed transfer between two accounts adds its amount to the source
   * account's withdrawals and changes no other total: getTotalDeposits counts
   * only DEPOSIT entries, so the destination's deposits and net flow do not
   * see the incoming leg.
   */
  lemma TransferTotals(l: Ledger, q: TransferRequest, now: string, startDate: string, endDate: string)
    requires LedgerValid(l) && q.from != q.to
    requires FormatId(now, l.nextNumber) !in l.history && FormatId(now, l.nextNumber + 1) !in l.history
    requires |Group(l.accountIndex, q.from)| < INT_MAX && |Group(l.accountIndex, q.to)| < INT_MAX
    requires startDate == "" || endDate == "" || (LexLe(startDate, now) && LexLe(now, endDate))
    ensures TotalWithdrawalsSpec(TransferSpec(l, q, now).1, q.from, startDate, endDate)
         == TotalWithdrawalsSpec(l, q.from, startDate, endDate) + q.amount
    ensures TotalDepositsSpec(TransferSpec(l, q, now).1, q.from, startDate, endDate)
         == TotalDepositsSpec(l, q.from, startDate, endDate)
    ensures TotalDepositsSpec(TransferSpec(l, q, now).1, q.to, startDate, endDate)
         == TotalDepositsSpec(l, q.to, startDate, endDate)
    ensures TotalWithdrawalsSpec(TransferSpec(l, q, now).1, q.to, startDate, endDate)
         == TotalWithdrawalsSpec(l, q.to, startDate, endDate)
  {
    var outId, inId := FormatId(now, l.nextNumber), FormatId(now, l.nextNumber + 1);
    var out, inn := OutLeg(outId, q, now), InLeg(inId, q, now);
    TransferCompleted(l, q, now);
    var l2 := Filed(Filed(l, out), inn);
    EntriesIgnoreCounter(l2, q.from, l.nextNumber + 2);
    EntriesIgnoreCounter(l2, q.to, l.nextNumber + 2);
    TransferSourceTotals(l, q, now, startDate, endDate);
    TransferTargetTotals(l, q, now, startDate, endDate);
  }

  lemma TransferSourceTotals(l: Ledger, q: TransferRequest, now: string, startDate: string, endDate: string)
    requires LedgerValid(l) && q.from != q.to
    requires FormatId(now, l.nextNumber) !in l.history && FormatId(now, l.nextNumber + 1) !in l.history
    requires |Group(l.accountIndex, q.from)| < INT_MAX
    requires startDate == "" || endDate == "" || (LexLe(startDate, now) && LexLe(now, endDate))
    ensures
      var l2 := Filed(Filed(l, OutLeg(FormatId(now, l.nextNumber), q, now)), InLeg(FormatId(now, l.nextNumber + 1), q, now));
      TotalWithdrawalsSpec(l2, q.from, startDate, endDate) == TotalWithdrawalsSpec(l, q.from, startDate, endDate) + q.amount
      && TotalDepositsSpec(l2, q.from, startDate, endDate) == TotalDepositsSpec(l, q.from, startDate, endDate)
  {
    var outId, inId := FormatId(now, l.nextNumber), FormatId(now, l.nextNumber + 1);
    var out, inn := OutLeg(outId, q, now), InLeg(inId, q, now);
    if outId == inId {
      FormatIdInjective(now, l.nextNumber, l.nextNumber + 1);
    }
    LegIds(inId, q, now);
    OutLegTotals(l, q, now, startDate, endDate);
    FiledKeeps(l, out);
    FiledFields(l, out);
    FiledTalliesOther(Filed(l, out), inn, q.from, DepositsIn(startDate, endDate));
  }

  /** The out-leg alone: its amount goes to the source account's withdrawals and not to its deposits. */
  lemma OutLegTotals(l: Ledger, q: TransferRequest, now: string, startDate: string, endDate: string)
    requires LedgerValid(l) && FormatId(now, l.nextNumber) !in l.history
    requires |Group(l.accountIndex, q.from)| < INT_MAX
    requires startDate == "" || endDate == "" || (LexLe(startDate, now) && LexLe(now, endDate))
    ensures
      var l1 := Filed(l, OutLeg(FormatId(now, l.nextNumber), q, now));
      TotalWithdrawalsSpec(l1, q.from, startDate, endDate) == TotalWithdrawalsSpec(l, q.from, startDate, endDate) + q.amount
      && TotalDepositsSpec(l1, q.from, startDate, endDate) == TotalDepositsSpec(l, q.from, startDate, endDate)
  {
    var out := OutLeg(FormatId(now, l.nextNumber), q, now);
    LegIds(FormatId(now, l.nextNumber), q, now);
    assert out.timestamp == now && out.amount == q.amount;
    assert Weight(WithdrawalsIn(startDate, endDate), out) == q.amount;
    assert Weight(DepositsIn(startDate, endDate), out) == 0.0;
    FiledTalliesOwn(l, out, WithdrawalsIn(startDate, endDate));
    FiledTalliesOwn(l, out, DepositsIn(startDate, endDate));
  }

  lemma TransferTargetTotals(l: Ledger, q: TransferRequest, now: string, startDate: string, endDate: string)
    requires LedgerValid(l) && q.from != q.to
    requires FormatId(now, l.nextNumber) !in l.history && FormatId(now, l.nextNumber + 1) !in l.history
    requires |Group(l.accountIndex, q.to)| < INT_MAX
    ensures
      var l2 := Filed(Filed(l, OutLeg(FormatId(now, l.nextNumber), q, now)), InLeg(FormatId(now, l.nextNumber + 1), q, now));
      TotalWithdrawalsSpec(l2, q.to, startDate, endDate) == TotalWithdrawalsSpec(l, q.to, startDate, endDate)
      && TotalDepositsSpec(l2, q.to, startDate, endDate) == TotalDepositsSpec(l, q.to, startDate, endDate)
  {
    var outId, inId := FormatId(now, l.nextNumber), FormatId(now, l.nextNumber + 1);
    var out, inn := OutLeg(outId, q, now), InLeg(inId, q, now);
    if outId == inId {
      FormatIdInjective(now, l.nextNumber, l.nextNumber + 1);
    }
    LegsPaired(outId, inId, q, now);
    var l1 := Filed(l, out);
    FiledKeeps(l, out);
    FiledFields(l, out);
    FiledTalliesOther(l, out, q.to, DepositsIn(startDate, endDate));
    EmplaceGroups(l.accountIndex, q.from, outId);
    FiledTalliesOwn(l1, inn, WithdrawalsIn(startDate, endDate));
    FiledTalliesOwn(l1, inn, DepositsIn(startDate, endDate));
  }

  /** When every entry of the type has its amount in [lo, hi], so has their average. */
  lemma AverageBounded(l: Ledger, accountNumber: string, kind: TransactionType, lo: real, hi: real)
    requires forall t :: t in AccountEntries(l, accountNumber) && t.transactionType == kind ==> lo <= t.amount <= hi
    requires Hits(OfKind(kind), AccountEntries(l, accountNumber)) > 0
    ensures lo <= AverageSpec(l, accountNumber, kind) <= hi
  {
    var s := AccountEntries(l, accountNumber);
    var n := Hits(OfKind(kind), s);
    var total := Total(OfKind(kind), s);
    assert forall i :: 0 <= i < |s| && Counts(OfKind(kind), s[i]) ==> s[i] in s;
    TallyBounds(OfKind(kind), s, lo, hi);
    MeanBounds(total, n, lo, hi);
  }

  /** Without a complete window every entry is counted. */
  lemma CountWithoutWindow(s: seq<Transaction>, startDate: string, endDate: string)
    requires startDate == "" || endDate == ""
    ensures Hits(EntriesIn(startDate, endDate), s) == |s|
  {
    if |s| > 0 {
      CountWithoutWindow(s[..|s| - 1], startDate, endDate);
    }
  }

  // ---------------------------------------------------------------------------
  // getTotalTransactionCount, getTotalSystemVolume
  // ---------------------------------------------------------------------------

  function TotalCountSpec(l: Ledger): nat
  {
    |l.history|
  }

  /** The sum of every stored entry's net amount, in map order. */
  function VolumeSpec(l: Ledger): real
  {
    Total(NetAmounts, MapSelect(l.history, AnyStored))
  }

  /** Storing an entry under a new id adds its net amount to the volume and one to the count. */
  lemma VolumeInsert(l: Ledger, t: Transaction)
    requires t.transactionId !in l.history
    ensures VolumeSpec(l.(history := l.history[t.transactionId := t])) == VolumeSpec(l) + GetNetAmount(t)
    ensures TotalCountSpec(l.(history := l.history[t.transactionId := t])) == TotalCountSpec(l) + 1
  {
    var h := l.history;
    MapSelectInsert(h, t.transactionId, t, AnyStored);
    TallyPermutation(NetAmounts, MapSelect(h[t.transactionId := t], AnyStored), MapSelect(h, AnyStored) + [t]);
    TallyAppend(NetAmounts, MapSelect(h, AnyStored), [t]);
  }

  /** A completed transfer leaves the system volume unchanged: its legs' net amounts cancel. */
  lemma TransferKeepsVolume(l: Ledger, q: TransferRequest, now: string)
    requires FormatId(now, l.nextNumber) !in l.history && FormatId(now, l.nextNumber + 1) !in l.history
    ensures VolumeSpec(TransferSpec(l, q, now).1) == VolumeSpec(l)
    ensures TotalCountSpec(TransferSpec(l, q, now).1) == TotalCountSpec(l) + 2
  {
    var outId, inId := FormatId(now, l.nextNumber), FormatId(now, l.nextNumber + 1);
    var out, inn := OutLeg(outId, q, now), InLeg(inId, q, now);
    TransferCompleted(l, q, now);
    LegsPaired(outId, inId, q, now);
    var l1 := Filed(l, out);
    FiledFields(l, out);
    FiledFields(l1, inn);
    VolumeInsert(l, out);
    assert l.(history := l.history[outId := out]).history == l1.history;
    VolumeInsert(l1, inn);
  }
}
