/**
 * The TransactionManager object: transactionHistory, the three multimaps and
 * nextTransactionNumber are its fields, and each member function changes them
 * step by step as the source does. Every state-changing method promises that
 * its result and new state are what the matching function of LedgerSpec,
 * LedgerMaintenance gives for the old state, and that it keeps the ledger
 * invariant; every query promises the value of the matching function of
 * LedgerQueries or LedgerAnalytics, whose properties are proved there.
 */
module LedgerManager {
  import opened Wrappers
  import opened StdString
  import opened StdMap
  import opened Transactions
  import opened TxnOrder
  import opened LedgerIndex
  import opened LedgerSpec
  import opened LedgerMaintenance
  import opened LedgerQueries
  import opened LedgerAnalytics

  class TransactionManager {
    var history: map<string, Transaction>
    var accountIndex: Index
    var customerIndex: Index
    var dateIndex: Index
    var nextNumber: nat

    /** The fields as a ledger value. */
    function State(): Ledger
      reads this
    {
      Ledger(history, accountIndex, customerIndex, dateIndex, nextNumber)
    }

    ghost predicate Valid()
      reads this
    {
      LedgerValid(State())
    }

    /** The maps cleared and the counter at 1, before any saved history is loaded. */
    constructor ()
      ensures State() == EmptyLedger()
      ensures Indexed(State())
    {
      history := map[];
      accountIndex := map[];
      customerIndex := map[];
      dateIndex := map[];
      nextNumber := 1;
      new;
      EmptyLedgerIndexed();
    }

    // -------------------------------------------------------------------------
    // Recording entries
    // -------------------------------------------------------------------------

    method AddTransaction(t: Transaction) returns (r: AddOutcome)
      modifies this
      ensures (r, State()) == AddSpec(old(State()), t)
    {
      ghost var l := State();
      var id := t.transactionId;
      if id in history {
        return DuplicateId;
      }
      history := history[id := t];
      accountIndex := Emplace(accountIndex, t.accountNumber, id);
      customerIndex := Emplace(customerIndex, GetCustomerId(t), id);
      dateIndex := Emplace(dateIndex, Substr(t.timestamp, 0, 10), id);
      ghost var filed := State();
      assert filed == Filed(l, t) by {
        assert KeyOf(ByAccount, t) == t.accountNumber;
        assert KeyOf(ByCustomer, t) == GetCustomerId(t);
        assert KeyOf(ByDate, t) == Substr(t.timestamp, 0, 10);
      }
      var lastDash := FindLast(id, '-');
      if lastDash.Some? && lastDash.value + 1 < |id| {
        var n := Stoi(id[lastDash.value + 1..]);
        if n.None? {
          return CounterParseError;
        }
        if nextNumber <= n.value {
          nextNumber := n.value + 1;
        }
      }
      return Added;
    }

    method GenerateTransactionId(now: string) returns (id: string)
      modifies this
      ensures (id, State()) == GenerateIdSpec(old(State()), now)
    {
      id := "TXN" + DateDigits(now) + PadLeft(NatToString(nextNumber), 3, '0');
      nextNumber := nextNumber + 1;
    }

    /** The body processDeposit, processWithdrawal, processFeeCharge and processInterestCredit share. */
    method ProcessSingle(kind: TransactionType, accountNumber: string, amount: real, description: string,
                         before: real, after: real, customerId: string, now: string) returns (r: string)
      modifies this
      ensures (r, State()) == ProcessSpec(old(State()), kind, accountNumber, amount, description, before, after, customerId, now)
    {
      var id := GenerateTransactionId(now);
      var added := AddTransaction(SingleEntry(id, kind, accountNumber, amount, description, before, after, customerId, now));
      r := if added == Added then id else "";
    }

    method ProcessDeposit(accountNumber: string, amount: real, description: string,
                          before: real, after: real, customerId: string, now: string) returns (r: string)
      modifies this
      ensures (r, State()) == ProcessSpec(old(State()), Deposit, accountNumber, amount, description, before, after, customerId, now)
    {
      r := ProcessSingle(Deposit, accountNumber, amount, description, before, after, customerId, now);
    }

    method ProcessWithdrawal(accountNumber: string, amount: real, description: string,
                             before: real, after: real, customerId: string, now: string) returns (r: string)
      modifies this
      ensures (r, State()) == ProcessSpec(old(State()), Withdrawal, accountNumber, amount, description, before, after, customerId, now)
    {
      r := ProcessSingle(Withdrawal, accountNumber, amount, description, before, after, customerId, now);
    }

    method ProcessFeeCharge(accountNumber: string, amount: real, description: string,
                            before: real, after: real, customerId: string, now: string) returns (r: string)
      modifies this
      ensures (r, State()) == ProcessSpec(old(State()), FeeCharge, accountNumber, amount, description, before, after, customerId, now)
    {
      r := ProcessSingle(FeeCharge, accountNumber, amount, description, before, after, customerId, now);
    }

    method ProcessInterestCredit(accountNumber: string, amount: real, description: string,
                                 before: real, after: real, customerId: string, now: string) returns (r: string)
      modifies this
      ensures (r, State()) == ProcessSpec(old(State()), InterestCredit, accountNumber, amount, description, before, after, customerId, now)
    {
      r := ProcessSingle(InterestCredit, accountNumber, amount, description, before, after, customerId, now);
    }

    method ProcessTransfer(from: string, to: string, amount: real, description: string,
                           fromBefore: real, fromAfter: real, toBefore: real, toAfter: real,
                           customerId: string, now: string) returns (r: string)
      modifies this
      ensures (r, State()) == TransferSpec(old(State()), TransferRequest(from, to, amount, description,
                                             fromBefore, fromAfter, toBefore, toAfter, customerId), now)
    {
      var q := TransferRequest(from, to, amount, description, fromBefore, fromAfter, toBefore, toAfter, customerId);
      ghost var l0 := State();
      var outId := GenerateTransactionId(now);
      var first := AddTransaction(OutLeg(outId, q, now));
      if first != Added {
        return "";
      }
      ghost var l1 := State();
      assert TransferSpec(l0, q, now) == SecondLegSpec(l1, outId, q, now);
      var inId := GenerateTransactionId(now);
      var second := AddTransaction(InLeg(inId, q, now));
      if second != Added {
        var _ := UpdateTransactionStatus(outId, Failed);
        return "";
      }
      return outId;
    }

    // -------------------------------------------------------------------------
    // Changing recorded entries
    // -------------------------------------------------------------------------

    /** One of the equal_range loops: the first occurrence of id under k is erased and emplaced again. */
    static method Relocate(idx: Index, k: string, id: string) returns (r: Index)
      ensures r == MoveToEnd(idx, k, id)
    {
      var g := Group(idx, k);
      var i := 0;
      while i < |g|
        invariant 0 <= i <= |g|
        invariant forall j :: 0 <= j < i ==> g[j] != id
      {
        if g[i] == id {
          return idx[k := g[..i] + g[i + 1..] + [id]];
        }
        i := i + 1;
      }
      return idx;
    }

    method UpdateTransactionStatus(id: string, s: TransactionStatus) returns (ok: bool)
      modifies this
      ensures (ok, State()) == UpdateStatusSpec(old(State()), id, s)
    {
      if id !in history {
        return false;
      }
      var t := SetStatus(history[id], s);
      history := history[id := t];
      accountIndex := Relocate(accountIndex, t.accountNumber, id);
      customerIndex := Relocate(customerIndex, GetCustomerId(t), id);
      dateIndex := Relocate(dateIndex, Substr(t.timestamp, 0, 10), id);
      return true;
    }

    method ReverseTransaction(id: string, reason: string, now: string) returns (ok: bool)
      modifies this
      ensures (ok, State()) == ReverseSpec(old(State()), id, reason, now)
    {
      if id !in history || history[id].status != Completed {
        return false;
      }
      var marked := MarkReversed(history[id], reason);
      history := history[id := marked];
      if marked.transactionType == Deposit || marked.transactionType == Withdrawal {
        var rid := GenerateTransactionId(now);
        var added := AddTransaction(ReversalEntry(rid, Opposite(marked.transactionType), marked, now));
        return added == Added;
      } else if IsTransfer(marked) {
        var q := ReversalRequest(marked);
        var r := ProcessTransfer(q.from, q.to, q.amount, q.description, q.fromBefore, q.fromAfter,
                                 q.toBefore, q.toAfter, q.customerId, now);
        return r == "";
      }
      return false;
    }

    // -------------------------------------------------------------------------
    // Maintenance
    // -------------------------------------------------------------------------

    /**
     * cleanupOldTransactions(daysOld): daysOld is only printed; the cutoff is
     * the current date-time. The loop works on copies of the four maps, which
     * are stored back when it ends.
     */
    method CleanupOldTransactions(daysOld: int, now: string)
      modifies this
      ensures State() == CleanupSpec(old(State()), now)
    {
      ghost var goal := CleanupSpec(State(), now);
      var h, ai, ci, di, n := history, accountIndex, customerIndex, dateIndex, nextNumber;
      var ids := OrderedKeys(h);
      assert NoDuplicates(ids) by {
        OrderedKeysFacts(h);
        IncreasingDistinct(ids);
      }
      var i := 0;
      while i < |ids|
        invariant 0 <= i <= |ids| && unchanged(this)
        invariant forall j :: i <= j < |ids| ==> ids[j] in h
        invariant CleanupLoop(Ledger(h, ai, ci, di, n), ids[i..], now) == goal
      {
        ghost var cur := Ledger(h, ai, ci, di, n);
        CleanupLoopStep(cur, ids, i, now);
        var id := ids[i];
        var t := h[id];
        if LexLess(t.timestamp, now) {
          ai := EraseKey(ai, t.accountNumber);
          ci := EraseKey(ci, GetCustomerId(t));
          di := EraseKey(di, Substr(t.timestamp, 0, 10));
          h := h - {id};
        }
        assert Ledger(h, ai, ci, di, n) == CleanupStep(cur, id, now);
        i := i + 1;
      }
      ghost var fin := Ledger(h, ai, ci, di, n);
      assert CleanupLoop(fin, ids[i..], now) == fin;
      assert fin == goal;
      assert nextNumber == n;
      history, accountIndex, customerIndex, dateIndex := h, ai, ci, di;
      assert State() == fin;
    }

    /** reindexTransactions: the indices cleared, then every entry emplaced again in key order. */
    method ReindexTransactions()
      modifies this
      ensures State() == ReindexSpec(old(State()))
    {
      var h := history;
      var ai, ci, di := map[], map[], map[];
      var ids := OrderedKeys(h);
      var i := 0;
      while i < |ids|
        invariant 0 <= i <= |ids| && unchanged(this)
        invariant AllStored(h, ids[..i])
        invariant ai == Build(h, ids[..i], ByAccount)
        invariant ci == Build(h, ids[..i], ByCustomer)
        invariant di == Build(h, ids[..i], ByDate)
      {
        var t := h[ids[i]];
        BuildStep(h, ids, i, ByAccount);
        BuildStep(h, ids, i, ByCustomer);
        BuildStep(h, ids, i, ByDate);
        ai := Emplace(ai, t.accountNumber, t.transactionId);
        ci := Emplace(ci, GetCustomerId(t), t.transactionId);
        di := Emplace(di, Substr(t.timestamp, 0, 10), t.transactionId);
        i := i + 1;
      }
      assert ids[..i] == ids;
      accountIndex, customerIndex, dateIndex := ai, ci, di;
    }

    // -------------------------------------------------------------------------
    // Queries
    // -------------------------------------------------------------------------

    /** findTransaction: the stored entry, or nullptr (None) for an unknown id. */
    method FindTransaction(id: string) returns (r: Option<Transaction>)
      requires Valid()
      ensures r.Some? <==> id in history
      ensures r.Some? ==> r.value == history[id] && r.value.transactionId == id
    {
      if id in history {
        return Some(history[id]);
      }
      return None;
    }

    /** The equal_range walk of getAccountHistory and getCustomerHistory, stopping at limit entries. */
    static method IndexWalk(h: map<string, Transaction>, g: seq<string>, limit: Int32) returns (found: seq<Transaction>)
      ensures found == Take(Select(h, g, AnyStored), SizeT(limit))
    {
      found := [];
      var i := 0;
      while i < |g| && |found| < SizeT(limit)
        invariant 0 <= i <= |g|
        invariant found == Select(h, g[..i], AnyStored)
        invariant |found| <= SizeT(limit)
      {
        SelectStep(h, g, i, AnyStored);
        if g[i] in h {
          found := found + [h[g[i]]];
        }
        i := i + 1;
      }
      SelectPrefix(h, g, i, AnyStored);
      if i == |g| {
        assert g[..i] == g;
      }
    }

    method GetAccountHistory(accountNumber: string, limit: Int32) returns (r: seq<Transaction>)
      ensures r == AccountHistorySpec(State(), accountNumber, limit)
    {
      var found := IndexWalk(history, Group(accountIndex, accountNumber), limit);
      r := Sort(NewestFirst, found);
    }

    method GetCustomerHistory(customerId: string, limit: Int32) returns (r: seq<Transaction>)
      ensures r == CustomerHistorySpec(State(), customerId, limit)
    {
      var found := IndexWalk(history, Group(customerIndex, customerId), limit);
      r := Sort(NewestFirst, found);
    }

    /** The map walk of getTransactionsByType: it stops once the collected entries reach the limit. */
    static method TypeWalk(h: map<string, Transaction>, kind: TransactionType, limit: Int32) returns (found: seq<Transaction>)
      ensures found == Take(MapSelect(h, OfType(kind)), TypeCap(limit))
    {
      var ids := OrderedKeys(h);
      found := [];
      var i := 0;
      while i < |ids|
        invariant 0 <= i <= |ids|
        invariant found == Select(h, ids[..i], OfType(kind))
        invariant |found| < TypeCap(limit)
      {
        SelectStep(h, ids, i, OfType(kind));
        var t := h[ids[i]];
        if t.transactionType == kind {
          found := found + [t];
          if |found| >= SizeT(limit) {
            i := i + 1;
            break;
          }
        }
        i := i + 1;
      }
      SelectPrefix(h, ids, i, OfType(kind));
      if |found| < TypeCap(limit) {
        assert ids[..i] == ids;
      }
    }

    method GetTransactionsByType(kind: TransactionType, limit: Int32) returns (r: seq<Transaction>)
      ensures r == ByTypeSpec(State(), kind, limit)
    {
      var found := TypeWalk(history, kind, limit);
      r := Sort(NewestFirst, found);
    }

    /** The walk over every (date, id) pair of the date multimap, keeping the dates in range. */
    static method DateWalk(h: map<string, Transaction>, idx: Index, startDate: string, endDate: string)
      returns (found: seq<Transaction>)
      ensures found == Select(h, RangeIds(idx, OrderedKeys(idx), startDate, endDate), AnyStored)
    {
      var keys := OrderedKeys(idx);
      found := [];
      var i := 0;
      while i < |keys|
        invariant 0 <= i <= |keys|
        invariant found == Select(h, RangeIds(idx, keys[..i], startDate, endDate), AnyStored)
      {
        var date := keys[i];
        var inRange := LexLe(startDate, date) && LexLe(date, endDate);
        var part := [];
        if inRange {
          part := GroupWalk(h, idx[date]);
        }
        RangeIdsStep(idx, keys, i, startDate, endDate);
        SelectAppend(h, RangeIds(idx, keys[..i], startDate, endDate), if inRange then Group(idx, date) else [], AnyStored);
        found := found + part;
        i := i + 1;
      }
      assert keys[..i] == keys;
    }

    /** The pairs of one date key, in insertion order: every id still in the history. */
    static method GroupWalk(h: map<string, Transaction>, g: seq<string>) returns (found: seq<Transaction>)
      ensures found == Select(h, g, AnyStored)
    {
      found := [];
      var j := 0;
      while j < |g|
        invariant 0 <= j <= |g|
        invariant found == Select(h, g[..j], AnyStored)
      {
        SelectStep(h, g, j, AnyStored);
        if g[j] in h {
          found := found + [h[g[j]]];
        }
        j := j + 1;
      }
      assert g[..j] == g;
    }

    method GetTransactionsByDateRange(startDate: string, endDate: string) returns (r: seq<Transaction>)
      ensures r == DateRangeSpec(State(), startDate, endDate)
    {
      var found := DateWalk(history, dateIndex, startDate, endDate);
      r := Sort(NewestFirst, found);
    }

    /** The map walk of the three filter queries: the entries meeting c, in key order. */
    static method MapWalk(h: map<string, Transaction>, c: Criterion) returns (found: seq<Transaction>)
      ensures found == MapSelect(h, c)
    {
      var ids := OrderedKeys(h);
      found := [];
      var i := 0;
      while i < |ids|
        invariant 0 <= i <= |ids|
        invariant found == Select(h, ids[..i], c)
      {
        SelectStep(h, ids, i, c);
        var t := h[ids[i]];
        if Meets(c, t) {
          found := found + [t];
        }
        i := i + 1;
      }
      assert ids[..i] == ids;
    }

    method GetTransactionsByAmountRange(minAmount: real, maxAmount: real) returns (r: seq<Transaction>)
      ensures r == AmountRangeSpec(State(), minAmount, maxAmount)
    {
      var found := MapWalk(history, NetBetween(minAmount, maxAmount));
      r := Sort(NetAmountAscending, found);
    }

    method GetFailedTransactions() returns (r: seq<Transaction>)
      ensures r == FailedSpec(State())
    {
      var found := MapWalk(history, WithStatus(Failed));
      r := Sort(NewestFirst, found);
    }

    method GetPendingTransactions() returns (r: seq<Transaction>)
      ensures r == PendingSpec(State())
    {
      var found := MapWalk(history, WithStatus(Pending));
      r := Sort(OldestFirst, found);
    }

    // -------------------------------------------------------------------------
    // Analytics
    // -------------------------------------------------------------------------

    /** The accumulator loop of the analytics: the sum of what m adds and the number of entries it counts. */
    static method Accumulate(m: Tally, s: seq<Transaction>) returns (total: real, count: nat)
      ensures total == Total(m, s) && count == Hits(m, s)
    {
      total, count := 0.0, 0;
      var i := 0;
      while i < |s|
        invariant 0 <= i <= |s|
        invariant total == Total(m, s[..i]) && count == Hits(m, s[..i])
      {
        TallyStep(m, s, i);
        if Counts(m, s[i]) {
          total := total + Weight(m, s[i]);
          count := count + 1;
        }
        i := i + 1;
      }
      assert s[..i] == s;
    }

    method GetTotalDeposits(accountNumber: string, startDate: string, endDate: string) returns (r: real)
      ensures r == TotalDepositsSpec(State(), accountNumber, startDate, endDate)
    {
      var entries := GetAccountHistory(accountNumber, INT_MAX);
      var count;
      r, count := Accumulate(DepositsIn(startDate, endDate), entries);
    }

    method GetTotalWithdrawals(accountNumber: string, startDate: string, endDate: string) returns (r: real)
      ensures r == TotalWithdrawalsSpec(State(), accountNumber, startDate, endDate)
    {
      var entries := GetAccountHistory(accountNumber, INT_MAX);
      var count;
      r, count := Accumulate(WithdrawalsIn(startDate, endDate), entries);
    }

    method GetNetFlow(accountNumber: string, startDate: string, endDate: string) returns (r: real)
      ensures r == NetFlowSpec(State(), accountNumber, startDate, endDate)
    {
      var deposits := GetTotalDeposits(accountNumber, startDate, endDate);
      var withdrawals := GetTotalWithdrawals(accountNumber, startDate, endDate);
      r := deposits - withdrawals;
    }

    method GetTransactionCount(accountNumber: string, startDate: string, endDate: string) returns (r: nat)
      ensures r == CountSpec(State(), accountNumber, startDate, endDate)
    {
      var entries := GetAccountHistory(accountNumber, INT_MAX);
      var total;
      total, r := Accumulate(EntriesIn(startDate, endDate), entries);
    }

    method GetAverageTransactionAmount(accountNumber: string, kind: TransactionType) returns (r: real)
      ensures r == AverageSpec(State(), accountNumber, kind)
    {
      var entries := GetAccountHistory(accountNumber, INT_MAX);
      var total, count := Accumulate(OfKind(kind), entries);
      r := if count > 0 then total / count as real else 0.0;
    }

    method GetTotalTransactionCount() returns (r: nat)
      ensures r == TotalCountSpec(State())
    {
      r := |history|;
    }

    method GetTotalSystemVolume() returns (r: real)
      ensures r == VolumeSpec(State())
    {
      var entries := MapWalk(history, AnyStored);
      var count;
      r, count := Accumulate(NetAmounts, entries);
    }
  }
}
