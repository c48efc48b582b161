/**
 * The three orders the ledger's queries sort their results by, and a sort
 * that stands for std::sort. The contract of Sort promises only a sorted
 * permutation of its input, which is all std::sort promises. Its body, an
 * insertion sort, is stable, so a query defined with it fixes one of the
 * orders std::sort may produce for entries that compare equal.
 */
module TxnOrder {
  import opened StdString
  import opened Transactions

  datatype SortOrder =
    | NewestFirst         // comparator a.timestamp > b.timestamp
    | OldestFirst         // comparator a.timestamp < b.timestamp
    | NetAmountAscending  // comparator a.getNetAmount() < b.getNetAmount()

  /** The comparator: a must come before b. */
  predicate Before(o: SortOrder, a: Transaction, b: Transaction)
  {
    match o
    case NewestFirst => LexLess(b.timestamp, a.timestamp)
    case OldestFirst => LexLess(a.timestamp, b.timestamp)
    case NetAmountAscending => GetNetAmount(a) < GetNetAmount(b)
  }

  /** a may stand before b: the comparator does not put b first. */
  predicate MayPrecede(o: SortOrder, a: Transaction, b: Transaction)
  {
    !Before(o, b, a)
  }

  predicate SortedBy(o: SortOrder, s: seq<Transaction>)
  {
    forall i, j :: 0 <= i < j < |s| ==> MayPrecede(o, s[i], s[j])
  }

  /** The comparator is asymmetric ... */
  lemma BeforeAsymmetric(o: SortOrder, a: Transaction, b: Transaction)
    ensures !(Before(o, a, b) && Before(o, b, a))
  {
    if o != NetAmountAscending {
      LexLessAsymmetric(a.timestamp, b.timestamp);
    }
  }

  /** ... and its incomparability is transitive, as std::sort requires. */
  lemma MayPrecedeTransitive(o: SortOrder, a: Transaction, b: Transaction, c: Transaction)
    requires MayPrecede(o, a, b) && MayPrecede(o, b, c)
    ensures MayPrecede(o, a, c)
  {
    match o
    case NewestFirst => LexLeTransitive(c.timestamp, b.timestamp, a.timestamp);
    case OldestFirst => LexLeTransitive(a.timestamp, b.timestamp, c.timestamp);
    case NetAmountAscending =>
  }

  /** Inserting x into a sorted sequence, before the first element it may precede. */
  function Insert(o: SortOrder, x: Transaction, s: seq<Transaction>): (r: seq<Transaction>)
    ensures multiset(r) == multiset(s) + multiset{x}
    ensures |r| == |s| + 1
  {
    if |s| == 0 then [x]
    else if MayPrecede(o, x, s[0]) then [x] + s
    else
      assert s == [s[0]] + s[1..];
      [s[0]] + Insert(o, x, s[1..])
  }

  lemma {:induction false} InsertSorted(o: SortOrder, x: Transaction, s: seq<Transaction>)
    requires SortedBy(o, s)
    ensures SortedBy(o, Insert(o, x, s))
  {
    if |s| == 0 {
    } else if MayPrecede(o, x, s[0]) {
      InsertFront(o, x, s);
    } else {
      InsertSorted(o, x, s[1..]);
      InsertBehind(o, x, s);
    }
  }

  /** x goes in front of a sorted sequence whose head it may precede. */
  lemma InsertFront(o: SortOrder, x: Transaction, s: seq<Transaction>)
    requires SortedBy(o, s) && |s| > 0 && MayPrecede(o, x, s[0])
    ensures SortedBy(o, [x] + s)
  {
    var r := [x] + s;
    forall i, j | 0 <= i < j < |r| ensures MayPrecede(o, r[i], r[j]) {
      if i == 0 {
        if j > 1 {
          MayPrecedeTransitive(o, x, s[0], s[j - 1]);
        }
      } else {
        assert r[i] == s[i - 1] && r[j] == s[j - 1];
      }
    }
  }

  /** x goes behind the head, which may precede everything inserted after it. */
  lemma InsertBehind(o: SortOrder, x: Transaction, s: seq<Transaction>)
    requires SortedBy(o, s) && |s| > 0 && !MayPrecede(o, x, s[0])
    requires SortedBy(o, Insert(o, x, s[1..]))
    ensures SortedBy(o, [s[0]] + Insert(o, x, s[1..]))
  {
    var tail := Insert(o, x, s[1..]);
    var r := [s[0]] + tail;
    BeforeAsymmetric(o, x, s[0]);
    assert MayPrecede(o, s[0], x);
    forall y | y in tail ensures MayPrecede(o, s[0], y) {
      assert y in multiset(tail);
      if y != x {
        assert y in multiset(s[1..]);
        var k :| 0 <= k < |s[1..]| && s[1..][k] == y;
        assert s[k + 1] == y;
      }
    }
    forall i, j | 0 <= i < j < |r| ensures MayPrecede(o, r[i], r[j]) {
      if i == 0 {
        assert r[j] == tail[j - 1] && r[j] in tail;
      } else {
        assert r[i] == tail[i - 1] && r[j] == tail[j - 1];
      }
    }
  }

  /** std::sort with comparator o. */
  function Sort(o: SortOrder, s: seq<Transaction>): (r: seq<Transaction>)
    ensures SortedBy(o, r)
    ensures multiset(r) == multiset(s)
    ensures |r| == |s|
  {
    if |s| == 0 then []
    else
      var tail := Sort(o, s[1..]);
      InsertSorted(o, s[0], tail);
      assert s == [s[0]] + s[1..];
      Insert(o, s[0], tail)
  }

  /** A permutation keeps exactly the same elements. */
  lemma PermutationMembers(a: seq<Transaction>, b: seq<Transaction>)
    requires multiset(a) == multiset(b)
    ensures forall x :: x in a <==> x in b
  {
    forall x ensures x in a <==> x in b {
      assert x in a <==> x in multiset(a);
      assert x in b <==> x in multiset(b);
    }
  }
}
