/**
 * The ledger's read-only side: the history and search queries and the
 * analytics built on them. Every query collects entries in index or map
 * order, possibly stops at a limit, and then sorts with std::sort.
 */
module LedgerQueries {
  import opened StdString
  import opened StdMap
  import opened Transactions
  import opened TxnOrder
  import opened LedgerIndex
  import opened LedgerSpec
  import opened LedgerMaintenance

  // ---------------------------------------------------------------------------
  // Limits
  // ---------------------------------------------------------------------------

  const SIZE_T_RANGE: int := 0x1_0000_0000_0000_0000

  /** The C++ int the limits are passed as. */
  type Int32 = n: int | INT_MIN <= n <= INT_MAX

  /** static_cast<size_t>(limit): a negative limit wraps to a huge bound. */
  function SizeT(limit: Int32): (r: nat)
    ensures 0 <= limit ==> r == limit
    ensures limit < 0 ==> r >= SIZE_T_RANGE - 0x8000_0000
  {
    if limit >= 0 then limit else limit + SIZE_T_RANGE
  }

  /** The first n elements of s, or all of them when s is shorter. */
  function Take<T>(s: seq<T>, n: nat): (r: seq<T>)
    ensures |r| <= n && |r| <= |s|
    ensures r == s[..|r|]
    ensures |s| <= n ==> r == s
  {
    if n < |s| then s[..n] else s
  }

  // ---------------------------------------------------------------------------
  // Selection in visiting order
  // ---------------------------------------------------------------------------

  datatype Criterion =
    | AnyStored                          // an id that transactionHistory.find locates
    | OfType(kind: TransactionType)      // getTransactionsByType
    | WithStatus(status: TransactionStatus)  // getFailedTransactions, getPendingTransactions
    | NetBetween(lo: real, hi: real)     // getTransactionsByAmountRange, bounds inclusive

  predicate Meets(c: Criterion, t: Transaction)
  {
    match c
    case AnyStored => true
    case OfType(k) => t.transactionType == k
    case WithStatus(s) => t.status == s
    case NetBetween(lo, hi) => lo <= GetNetAmount(t) && GetNetAmount(t) <= hi
  }

  /** The stored entries meeting c, visiting ids in order and skipping ids not in h. */
  function Select(h: map<string, Transaction>, ids: seq<string>, c: Criterion): seq<Transaction>
  {
    if |ids| == 0 then []
    else
      var id := ids[|ids| - 1];
      Select(h, ids[..|ids| - 1], c) + (if id in h && Meets(c, h[id]) then [h[id]] else [])
  }

  lemma {:induction false} SelectAppend(h: map<string, Transaction>, a: seq<string>, b: seq<string>, c: Criterion)
    ensures Select(h, a + b, c) == Select(h, a, c) + Select(h, b, c)
    decreases |b|
  {
    if |b| == 0 {
      assert a + b == a;
    } else {
      var b' := b[..|b| - 1];
      assert (a + b)[..|a + b| - 1] == a + b';
      SelectAppend(h, a, b', c);
    }
  }

  /** One more id visited: the step of every loop that collects stored entries. */
  lemma SelectStep(h: map<string, Transaction>, ids: seq<string>, i: nat, c: Criterion)
    requires i < |ids|
    ensures Select(h, ids[..i + 1], c)
         == Select(h, ids[..i], c) + (if ids[i] in h && Meets(c, h[ids[i]]) then [h[ids[i]]] else [])
  {
    assert ids[..i + 1][..i] == ids[..i];
  }

  /** A walk that stops after i ids has collected a prefix of the full walk. */
  lemma SelectPrefix(h: map<string, Transaction>, ids: seq<string>, i: nat, c: Criterion)
    requires i <= |ids|
    ensures Take(Select(h, ids, c), |Select(h, ids[..i], c)|) == Select(h, ids[..i], c)
  {
    var a := Select(h, ids[..i], c);
    assert ids[..i] + ids[i..] == ids;
    SelectAppend(h, ids[..i], ids[i..], c);
    assert Select(h, ids, c)[..|a|] == a;
  }

  lemma {:induction false} SelectLength(h: map<string, Transaction>, ids: seq<string>, c: Criterion)
    ensures |Select(h, ids, c)| <= |ids|
  {
    if |ids| > 0 {
      SelectLength(h, ids[..|ids| - 1], c);
    }
  }

  /** Exactly the entries meeting c that some visited id locates. */
  lemma {:induction false} SelectMembers(h: map<string, Transaction>, ids: seq<string>, c: Criterion, t: Transaction)
    ensures t in Select(h, ids, c) <==> Meets(c, t) && exists id :: id in ids && id in h && h[id] == t
  {
    if |ids| > 0 {
      var init, last := ids[..|ids| - 1], ids[|ids| - 1];
      assert ids == init + [last];
      SelectMembers(h, init, c, t);
      if t in Select(h, ids, c) && t !in Select(h, init, c) {
        assert last in ids && last in h && h[last] == t;
      }
      if t in Select(h, init, c) {
        var id :| id in init && id in h && h[id] == t;
        assert id in ids;
      }
    }
  }

  /** A visited id that locates an entry meeting c contributes it. */
  lemma {:induction false} SelectHas(h: map<string, Transaction>, ids: seq<string>, c: Criterion, id: string)
    requires id in ids && id in h && Meets(c, h[id])
    ensures h[id] in Select(h, ids, c)
  {
    var init := ids[..|ids| - 1];
    if ids[|ids| - 1] != id {
      assert ids == init + [ids[|ids| - 1]];
      SelectHas(h, init, c, id);
    }
  }

  /** Ids that the two maps agree on select the same entries. */
  lemma {:induction false} SelectAgree(h: map<string, Transaction>, h': map<string, Transaction>, ids: seq<string>, c: Criterion)
    requires forall i :: 0 <= i < |ids| ==> (ids[i] in h <==> ids[i] in h')
    requires forall i :: 0 <= i < |ids| && ids[i] in h ==> h'[ids[i]] == h[ids[i]]
    ensures Select(h', ids, c) == Select(h, ids, c)
  {
    if |ids| > 0 {
      SelectAgree(h, h', ids[..|ids| - 1], c);
    }
  }

  /** Taking out the element at j leaves the rest of the multiset. */
  lemma RemoveAt<T>(a: seq<T>, b: seq<T>, j: int)
    requires |a| > 0 && multiset(a) == multiset(b) && 0 <= j < |b| && b[j] == a[|a| - 1]
    ensures b == b[..j] + [b[j]] + b[j + 1..]
    ensures multiset(a[..|a| - 1]) == multiset(b[..j] + b[j + 1..])
  {
    var init, x, rest := a[..|a| - 1], a[|a| - 1], b[..j] + b[j + 1..];
    assert a == init + [x];
    assert b == b[..j] + [b[j]] + b[j + 1..];
    assert multiset(a) == multiset(init) + multiset{x};
    assert multiset(b) == multiset(rest) + multiset{x};
    assert multiset(init) == multiset(a) - multiset{x};
  }

  lemma SelectSplit(h: map<string, Transaction>, front: seq<string>, x: string, back: seq<string>, c: Criterion)
    ensures multiset(Select(h, front + [x] + back, c))
         == multiset(Select(h, front + back, c)) + multiset(Select(h, [x], c))
  {
    SelectAppend(h, front, back, c);
    SelectAppend(h, front + [x], back, c);
    SelectAppend(h, front, [x], c);
  }

  /** Visiting the same ids in another order selects the same entries in another order. */
  lemma {:induction false} SelectPermutation(h: map<string, Transaction>, a: seq<string>, b: seq<string>, c: Criterion)
    requires multiset(a) == multiset(b)
    ensures multiset(Select(h, a, c)) == multiset(Select(h, b, c))
    decreases |a|
  {
    if |a| == 0 {
      assert |b| == |multiset(b)| == 0;
    } else {
      var init, x := a[..|a| - 1], a[|a| - 1];
      assert a == init + [x];
      assert x in multiset(b);
      var j :| 0 <= j < |b| && b[j] == x;
      RemoveAt(a, b, j);
      var front, back := b[..j], b[j + 1..];
      SelectPermutation(h, init, front + back, c);
      SelectSplit(h, front, x, back, c);
      SelectAppend(h, init, [x], c);
    }
  }

  lemma {:induction false} DistinctCount(s: seq<string>, x: string)
    requires NoDuplicates(s)
    ensures multiset(s)[x] == if x in s then 1 else 0
  {
    if |s| > 0 {
      var init := s[..|s| - 1];
      assert s == init + [s[|s| - 1]];
      DistinctCount(init, x);
    }
  }

  /** Two duplicate-free sequences with the same elements are permutations of each other. */
  lemma DistinctPermutation(a: seq<string>, b: seq<string>)
    requires NoDuplicates(a) && NoDuplicates(b)
    requires forall x :: x in a <==> x in b
    ensures multiset(a) == multiset(b)
  {
    forall x ensures multiset(a)[x] == multiset(b)[x] {
      DistinctCount(a, x);
      DistinctCount(b, x);
    }
  }

  /** The entries of a map in its iteration order that meet c. */
  function MapSelect(h: map<string, Transaction>, c: Criterion): seq<Transaction>
  {
    Select(h, OrderedKeys(h), c)
  }

  /** A walk over the whole map meets each stored entry meeting c. */
  lemma MapSelectMembers(h: map<string, Transaction>, c: Criterion, t: Transaction)
    ensures t in MapSelect(h, c) <==> t in h.Values && Meets(c, t)
  {
    SelectMembers(h, OrderedKeys(h), c, t);
    OrderedKeysFacts(h);
    if t in h.Values {
      var id :| id in h && h[id] == t;
      assert id in OrderedKeys(h);
    }
  }

  /** The keys of a map with one new key are a permutation of the old keys followed by it. */
  lemma OrderedKeysInsert(h: map<string, Transaction>, id: string, t: Transaction)
    requires id !in h
    ensures multiset(OrderedKeys(h[id := t])) == multiset(OrderedKeys(h) + [id])
  {
    var keys, keys' := OrderedKeys(h), OrderedKeys(h[id := t]);
    OrderedKeysFacts(h);
    OrderedKeysFacts(h[id := t]);
    IncreasingDistinct(keys);
    IncreasingDistinct(keys');
    var extended := keys + [id];
    AppendDistinct(keys, id);
    forall x ensures x in keys' <==> x in extended {
      assert x in extended <==> x in keys || x == id;
    }
    DistinctPermutation(keys', extended);
  }

  /** Appending an id not yet present keeps a sequence free of repeats. */
  lemma AppendDistinct(s: seq<string>, x: string)
    requires NoDuplicates(s) && x !in s
    ensures NoDuplicates(s + [x])
  {
    var e := s + [x];
    forall i, j | 0 <= i < j < |e| ensures e[i] != e[j] {
      if j == |s| {
        assert e[i] == s[i];
      }
    }
  }

  /** Walking the old keys and then the new one in the extended map. */
  lemma SelectExtended(h: map<string, Transaction>, id: string, t: Transaction, c: Criterion)
    requires id !in h
    ensures Select(h[id := t], OrderedKeys(h) + [id], c) == Select(h, OrderedKeys(h), c) + (if Meets(c, t) then [t] else [])
  {
    var keys := OrderedKeys(h);
    var extended := keys + [id];
    assert forall i :: 0 <= i < |keys| ==> keys[i] in h && keys[i] != id;
    SelectAgree(h, h[id := t], keys, c);
    assert extended[..|extended| - 1] == keys;
  }

  /** Storing an entry under a new id adds it to a whole-map walk, anywhere in the order. */
  lemma MapSelectInsert(h: map<string, Transaction>, id: string, t: Transaction, c: Criterion)
    requires id !in h
    ensures multiset(MapSelect(h[id := t], c)) == multiset(MapSelect(h, c) + (if Meets(c, t) then [t] else []))
  {
    OrderedKeysInsert(h, id, t);
    SelectPermutation(h[id := t], OrderedKeys(h[id := t]), OrderedKeys(h) + [id], c);
    SelectExtended(h, id, t, c);
  }

  // ---------------------------------------------------------------------------
  // getAccountHistory, getCustomerHistory
  // ---------------------------------------------------------------------------

  /**
   * The loop over equal_range(key) stops once limit entries are collected, so
   * the result is the first limit stored entries in index order, newest first.
   */
  function IndexHistory(l: Ledger, kind: IndexKind, key: string, limit: Int32): seq<Transaction>
  {
    Sort(NewestFirst, Take(Select(l.history, Group(IndexOf(l, kind), key), AnyStored), SizeT(limit)))
  }

  /** getAccountHistory(accountNumber, limit = 50). */
  function AccountHistorySpec(l: Ledger, accountNumber: string, limit: Int32): seq<Transaction>
  {
    IndexHistory(l, ByAccount, accountNumber, limit)
  }

  /** getCustomerHistory(customerId, limit = 100). */
  function CustomerHistorySpec(l: Ledger, customerId: string, limit: Int32): seq<Transaction>
  {
    IndexHistory(l, ByCustomer, customerId, limit)
  }

  const ACCOUNT_HISTORY_LIMIT: Int32 := 50
  const CUSTOMER_HISTORY_LIMIT: Int32 := 100
  const TYPE_QUERY_LIMIT: Int32 := 50

  /**
   * At most SizeT(limit) entries (limit when it is non-negative, unbounded in
   * practice when it is negative), newest first, a permutation of the first
   * SizeT(limit) stored entries of the key's group; on a valid ledger each is
   * filed under the key.
   */
  lemma IndexHistoryShape(l: Ledger, kind: IndexKind, key: string, limit: Int32)
    ensures |IndexHistory(l, kind, key, limit)| <= SizeT(limit)
    ensures SortedBy(NewestFirst, IndexHistory(l, kind, key, limit))
    ensures multiset(IndexHistory(l, kind, key, limit))
         == multiset(Take(Select(l.history, Group(IndexOf(l, kind), key), AnyStored), SizeT(limit)))
    ensures LedgerValid(l) ==> forall t :: t in IndexHistory(l, kind, key, limit) ==> KeyOf(kind, t) == key
  {
    var found := Select(l.history, Group(IndexOf(l, kind), key), AnyStored);
    var r := IndexHistory(l, kind, key, limit);
    if LedgerValid(l) {
      assert IndexSound(IndexOf(l, kind), l.history, kind);
      forall t | t in r ensures KeyOf(kind, t) == key {
        PermutationMembers(r, Take(found, SizeT(limit)));
        SelectMembers(l.history, Group(IndexOf(l, kind), key), AnyStored, t);
        var id :| id in Group(IndexOf(l, kind), key) && id in l.history && l.history[id] == t;
      }
    }
  }

  lemma IndexedOf(l: Ledger, kind: IndexKind)
    requires Indexed(l)
    ensures IndexSound(IndexOf(l, kind), l.history, kind) && IndexComplete(IndexOf(l, kind), l.history, kind)
  {
  }

  /**
   * On an indexed ledger, a limit no smaller than the key's group returns
   * every entry filed under the key.
   */
  lemma IndexHistoryComplete(l: Ledger, kind: IndexKind, key: string, limit: Int32, id: string)
    requires Indexed(l) && |Group(IndexOf(l, kind), key)| <= SizeT(limit)
    requires id in l.history && KeyOf(kind, l.history[id]) == key
    ensures l.history[id] in IndexHistory(l, kind, key, limit)
  {
    var g := Group(IndexOf(l, kind), key);
    var found := Select(l.history, g, AnyStored);
    IndexedOf(l, kind);
    assert id in g;
    SelectLength(l.history, g, AnyStored);
    assert Take(found, SizeT(limit)) == found;
    SelectMembers(l.history, g, AnyStored, l.history[id]);
    PermutationMembers(IndexHistory(l, kind, key, limit), found);
  }

  // ---------------------------------------------------------------------------
  // getTransactionsByType
  // ---------------------------------------------------------------------------

  /**
   * The limit is checked only after an entry is pushed, so the loop keeps at
   * least one match: a limit of 0 still returns one entry.
   */
  function TypeCap(limit: Int32): (n: nat)
    ensures n >= 1 && n >= SizeT(limit)
  {
    if SizeT(limit) == 0 then 1 else SizeT(limit)
  }

  function ByTypeSpec(l: Ledger, kind: TransactionType, limit: Int32): seq<Transaction>
  {
    Sort(NewestFirst, Take(MapSelect(l.history, OfType(kind)), TypeCap(limit)))
  }

  /**
   * Entries of the type only, newest first, at most TypeCap(limit) of them
   * (SizeT(limit), or 1 for a limit of 0); every entry of the type when there
   * are no more than that; one entry for a limit of 0 when any exists.
   */
  lemma ByTypeShape(l: Ledger, kind: TransactionType, limit: Int32)
    ensures SortedBy(NewestFirst, ByTypeSpec(l, kind, limit))
    ensures |ByTypeSpec(l, kind, limit)| <= TypeCap(limit)
    ensures forall t :: t in ByTypeSpec(l, kind, limit) ==> t in l.history.Values && t.transactionType == kind
    ensures |MapSelect(l.history, OfType(kind))| <= TypeCap(limit) ==>
      forall t :: t in l.history.Values && t.transactionType == kind ==> t in ByTypeSpec(l, kind, limit)
    ensures limit == 0 && |MapSelect(l.history, OfType(kind))| > 0 ==> |ByTypeSpec(l, kind, limit)| == 1
  {
    var all := MapSelect(l.history, OfType(kind));
    var r := ByTypeSpec(l, kind, limit);
    PermutationMembers(r, Take(all, TypeCap(limit)));
    forall t | t in r ensures t in l.history.Values && t.transactionType == kind {
      MapSelectMembers(l.history, OfType(kind), t);
    }
    if |all| <= TypeCap(limit) {
      forall t | t in l.history.Values && t.transactionType == kind ensures t in r {
        MapSelectMembers(l.history, OfType(kind), t);
      }
    }
  }

  /**
   * The default arguments: account history keeps at most 50 entries, customer
   * history at most 100, and the type query at most 50, all of them when the
   * type has no more than 50.
   */
  lemma DefaultLimits(l: Ledger, accountNumber: string, customerId: string, kind: TransactionType)
    ensures |AccountHistorySpec(l, accountNumber, ACCOUNT_HISTORY_LIMIT)| <= 50
    ensures |CustomerHistorySpec(l, customerId, CUSTOMER_HISTORY_LIMIT)| <= 100
    ensures |ByTypeSpec(l, kind, TYPE_QUERY_LIMIT)| <= 50
    ensures |MapSelect(l.history, OfType(kind))| <= 50 ==>
      forall t :: t in l.history.Values && t.transactionType == kind ==> t in ByTypeSpec(l, kind, TYPE_QUERY_LIMIT)
  {
    IndexHistoryShape(l, ByAccount, accountNumber, ACCOUNT_HISTORY_LIMIT);
    IndexHistoryShape(l, ByCustomer, customerId, CUSTOMER_HISTORY_LIMIT);
    ByTypeShape(l, kind, TYPE_QUERY_LIMIT);
  }

  // ---------------------------------------------------------------------------
  // getTransactionsByDateRange
  // ---------------------------------------------------------------------------

  /** The multimap walk: keys in increasing order, each key's ids in insertion order. */
  function RangeIds(idx: Index, keys: seq<string>, startDate: string, endDate: string): seq<string>
  {
    if |keys| == 0 then []
    else
      var k := keys[|keys| - 1];
      RangeIds(idx, keys[..|keys| - 1], startDate, endDate)
        + (if LexLe(startDate, k) && LexLe(k, endDate) then Group(idx, k) else [])
  }

  lemma {:induction false} RangeIdsMembers(idx: Index, keys: seq<string>, startDate: string, endDate: string, id: string)
    ensures id in RangeIds(idx, keys, startDate, endDate) <==>
      exists k :: k in keys && LexLe(startDate, k) && LexLe(k, endDate) && id in Group(idx, k)
  {
    if |keys| > 0 {
      var init, last := keys[..|keys| - 1], keys[|keys| - 1];
      assert keys == init + [last];
      RangeIdsMembers(idx, init, startDate, endDate, id);
      if id in RangeIds(idx, init, startDate, endDate) {
        var k :| k in init && LexLe(startDate, k) && LexLe(k, endDate) && id in Group(idx, k);
        assert k in keys;
      }
    }
  }

  /** One more date key visited. */
  lemma RangeIdsStep(idx: Index, keys: seq<string>, i: nat, startDate: string, endDate: string)
    requires i < |keys|
    ensures RangeIds(idx, keys[..i + 1], startDate, endDate)
         == RangeIds(idx, keys[..i], startDate, endDate)
            + (if LexLe(startDate, keys[i]) && LexLe(keys[i], endDate) then Group(idx, keys[i]) else [])
  {
    assert keys[..i + 1][..i] == keys[..i];
  }

  lemma {:induction false} RangeIdsHas(idx: Index, keys: seq<string>, startDate: string, endDate: string, k: string, id: string)
    requires k in keys && LexLe(startDate, k) && LexLe(k, endDate) && id in Group(idx, k)
    ensures id in RangeIds(idx, keys, startDate, endDate)
  {
    var init := keys[..|keys| - 1];
    if keys[|keys| - 1] != k {
      assert keys == init + [keys[|keys| - 1]];
      RangeIdsHas(idx, init, startDate, endDate, k, id);
    }
  }

  function DateRangeSpec(l: Ledger, startDate: string, endDate: string): seq<Transaction>
  {
    Sort(NewestFirst, DateRangeFound(l, startDate, endDate))
  }

  /** The date-range walk in the multimap's order, before sorting. */
  function DateRangeFound(l: Ledger, startDate: string, endDate: string): seq<Transaction>
  {
    Select(l.history, RangeIds(l.dateIndex, OrderedKeys(l.dateIndex), startDate, endDate), AnyStored)
  }

  /** On a valid ledger every entry returned has start <= its date key <= end. */
  lemma DateRangeSound(l: Ledger, startDate: string, endDate: string, t: Transaction)
    requires LedgerValid(l) && t in DateRangeFound(l, startDate, endDate)
    ensures t in l.history.Values && LexLe(startDate, DateKey(t)) && LexLe(DateKey(t), endDate)
  {
    var idx, h := l.dateIndex, l.history;
    var keys := OrderedKeys(idx);
    var ids := RangeIds(idx, keys, startDate, endDate);
    SelectMembers(h, ids, AnyStored, t);
    var id :| id in ids && id in h && h[id] == t;
    RangeIdsMembers(idx, keys, startDate, endDate, id);
    var k :| k in keys && LexLe(startDate, k) && LexLe(k, endDate) && id in Group(idx, k);
    SoundGroup(idx, h, ByDate, k);
  }

  lemma DateKeyListed(l: Ledger, id: string)
    requires Indexed(l) && id in l.history
    ensures id in Group(l.dateIndex, DateKey(l.history[id]))
    ensures DateKey(l.history[id]) in OrderedKeys(l.dateIndex)
  {
    IndexedOf(l, ByDate);
    assert id in Group(l.dateIndex, KeyOf(ByDate, l.history[id]));
    OrderedKeysFacts(l.dateIndex);
  }

  /** On an indexed ledger every entry with start <= its date key <= end is returned. */
  lemma DateRangeComplete(l: Ledger, startDate: string, endDate: string, id: string)
    requires Indexed(l) && id in l.history
    requires LexLe(startDate, DateKey(l.history[id])) && LexLe(DateKey(l.history[id]), endDate)
    ensures l.history[id] in DateRangeFound(l, startDate, endDate)
  {
    var idx, h := l.dateIndex, l.history;
    var keys := OrderedKeys(idx);
    var k := DateKey(h[id]);
    DateKeyListed(l, id);
    RangeIdsHas(idx, keys, startDate, endDate, k, id);
    SelectHas(h, RangeIds(idx, keys, startDate, endDate), AnyStored, id);
  }

  /** On an indexed ledger: an entry is returned iff start <= its date key <= end; newest first. */
  lemma DateRangeMembers(l: Ledger, startDate: string, endDate: string, t: Transaction)
    requires Indexed(l)
    ensures SortedBy(NewestFirst, DateRangeSpec(l, startDate, endDate))
    ensures t in DateRangeSpec(l, startDate, endDate) <==>
      t in l.history.Values && LexLe(startDate, DateKey(t)) && LexLe(DateKey(t), endDate)
  {
    PermutationMembers(DateRangeSpec(l, startDate, endDate), DateRangeFound(l, startDate, endDate));
    if t in DateRangeFound(l, startDate, endDate) {
      DateRangeSound(l, startDate, endDate, t);
    }
    if t in l.history.Values && LexLe(startDate, DateKey(t)) && LexLe(DateKey(t), endDate) {
      var id :| id in l.history && l.history[id] == t;
      DateRangeComplete(l, startDate, endDate, id);
    }
  }

  // ---------------------------------------------------------------------------
  // getTransactionsByAmountRange, getFailedTransactions, getPendingTransactions
  // ---------------------------------------------------------------------------

  function AmountRangeSpec(l: Ledger, minAmount: real, maxAmount: real): seq<Transaction>
  {
    Sort(NetAmountAscending, MapSelect(l.history, NetBetween(minAmount, maxAmount)))
  }

  function FailedSpec(l: Ledger): seq<Transaction>
  {
    Sort(NewestFirst, MapSelect(l.history, WithStatus(Failed)))
  }

  function PendingSpec(l: Ledger): seq<Transaction>
  {
    Sort(OldestFirst, MapSelect(l.history, WithStatus(Pending)))
  }

  /** Exactly the stored entries whose net amount lies in [minAmount, maxAmount], in ascending net amount. */
  lemma AmountRangeMembers(l: Ledger, minAmount: real, maxAmount: real, t: Transaction)
    ensures SortedBy(NetAmountAscending, AmountRangeSpec(l, minAmount, maxAmount))
    ensures t in AmountRangeSpec(l, minAmount, maxAmount) <==>
      t in l.history.Values && minAmount <= GetNetAmount(t) <= maxAmount
  {
    PermutationMembers(AmountRangeSpec(l, minAmount, maxAmount), MapSelect(l.history, NetBetween(minAmount, maxAmount)));
    MapSelectMembers(l.history, NetBetween(minAmount, maxAmount), t);
  }

  /** Exactly the FAILED entries, newest first, and exactly the PENDING entries, oldest first. */
  lemma StatusQueriesMembers(l: Ledger, t: Transaction)
    ensures SortedBy(NewestFirst, FailedSpec(l)) && SortedBy(OldestFirst, PendingSpec(l))
    ensures t in FailedSpec(l) <==> t in l.history.Values && t.status == Failed
    ensures t in PendingSpec(l) <==> t in l.history.Values && t.status == Pending
  {
    PermutationMembers(FailedSpec(l), MapSelect(l.history, WithStatus(Failed)));
    PermutationMembers(PendingSpec(l), MapSelect(l.history, WithStatus(Pending)));
    MapSelectMembers(l.history, WithStatus(Failed), t);
    MapSelectMembers(l.history, WithStatus(Pending), t);
  }
}
