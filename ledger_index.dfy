/**
 * The ledger's three secondary indices. Each is a std::multimap<string, string>
 * from a key (account number, customer id, or date) to transaction ids. A
 * multimap keeps the ids of one key in insertion order, so it is modelled as a
 * map from each key to that key's ids, in order. A key with no ids is absent
 * from the map, as it is from the multimap.
 */
module LedgerIndex {
  import opened Wrappers
  import opened StdString
  import opened Transactions

  type Index = map<string, seq<string>>

  /** equal_range(k): the ids stored under k, in insertion order. */
  function Group(idx: Index, k: string): seq<string>
  {
    if k in idx then idx[k] else []
  }

  /** multimap::emplace(k, id): id joins the end of k's group. */
  function Emplace(idx: Index, k: string, id: string): Index
  {
    idx[k := Group(idx, k) + [id]]
  }

  /** After emplace(k, id), k's group has gained id at its end and no other group has changed. */
  lemma EmplaceGroups(idx: Index, k: string, id: string)
    ensures Group(Emplace(idx, k, id), k) == Group(idx, k) + [id]
    ensures forall j :: j != k ==> Group(Emplace(idx, k, id), j) == Group(idx, j)
    ensures Emplace(idx, k, id).Keys == idx.Keys + {k}
  {
  }

  /** multimap::erase(k): the whole group under k goes. */
  function EraseKey(idx: Index, k: string): Index
  {
    idx - {k}
  }

  /** Erasing a key empties its group and leaves every other group alone. */
  lemma EraseKeyFacts(idx: Index, k: string)
    ensures Group(EraseKey(idx, k), k) == []
    ensures forall j :: j != k ==> Group(EraseKey(idx, k), j) == Group(idx, j)
    ensures EraseKey(idx, k).Keys == idx.Keys - {k}
  {
  }

  function FirstIndexOf(s: seq<string>, x: string): (r: Option<nat>)
    ensures r.Some? ==> r.value < |s| && s[r.value] == x
    ensures r.Some? ==> forall i :: 0 <= i < r.value ==> s[i] != x
    ensures r.None? ==> x !in s
  {
    if |s| == 0 then None
    else if s[0] == x then Some(0)
    else match FirstIndexOf(s[1..], x)
      case None => None
      case Some(i) => Some(i + 1)
  }

  /**
   * One of the three loops of updateTransactionStatus: the first occurrence
   * of id under k is erased and id is emplaced again, so it moves to the end
   * of its group. The key set and every group's multiset of ids stay the same.
   */
  function MoveToEnd(idx: Index, k: string, id: string): Index
  {
    match FirstIndexOf(Group(idx, k), id)
    case None => idx
    case Some(p) => idx[k := idx[k][..p] + idx[k][p + 1..] + [id]]
  }

  /**
   * Moving keeps the key set and every group's multiset of ids, touches only
   * k's group, and leaves id at the end of it when it was there.
   */
  lemma MoveToEndGroups(idx: Index, k: string, id: string)
    ensures multiset(Group(MoveToEnd(idx, k, id), k)) == multiset(Group(idx, k))
    ensures forall j :: j != k ==> Group(MoveToEnd(idx, k, id), j) == Group(idx, j)
    ensures MoveToEnd(idx, k, id).Keys == idx.Keys
    ensures id in Group(idx, k) ==> Group(MoveToEnd(idx, k, id), k)[|Group(MoveToEnd(idx, k, id), k)| - 1] == id
  {
    match FirstIndexOf(Group(idx, k), id)
    case None =>
    case Some(p) =>
      var g := idx[k];
      assert g == g[..p] + [g[p]] + g[p + 1..];
  }

  /** When id already is the only occurrence at the end of its group, moving it changes nothing. */
  lemma MoveLastIsIdentity(idx: Index, k: string, id: string)
    requires |Group(idx, k)| > 0 && Group(idx, k)[|Group(idx, k)| - 1] == id
    requires id !in Group(idx, k)[..|Group(idx, k)| - 1]
    ensures MoveToEnd(idx, k, id) == idx
  {
    var g := Group(idx, k);
    var p := FirstIndexOf(g, id).value;
    assert g[..p] + g[p + 1..] + [id] == g;
  }

  /** Moving an id that was just emplaced, and was not listed before, changes nothing. */
  lemma MoveJustEmplaced(idx: Index, k: string, id: string)
    requires id !in Group(idx, k)
    ensures MoveToEnd(Emplace(idx, k, id), k, id) == Emplace(idx, k, id)
  {
    var r := Emplace(idx, k, id);
    assert Group(r, k)[..|Group(r, k)| - 1] == Group(idx, k);
    MoveLastIsIdentity(r, k, id);
  }

  // ---------------------------------------------------------------------------
  // What each index is keyed by
  // ---------------------------------------------------------------------------

  datatype IndexKind = ByAccount | ByCustomer | ByDate

  /** The date key: the first ten characters of the timestamp (substr(0, 10)). */
  function DateKey(t: Transaction): string
  {
    Substr(t.timestamp, 0, 10)
  }

  /**
   * The key an entry is filed under. The customer index uses getCustomerId(),
   * so entries without a customer are all filed under "N/A".
   */
  function KeyOf(kind: IndexKind, t: Transaction): string
  {
    match kind
    case ByAccount => t.accountNumber
    case ByCustomer => GetCustomerId(t)
    case ByDate => DateKey(t)
  }

  predicate NoDuplicates(s: seq<string>)
  {
    forall i, j :: 0 <= i < j < |s| ==> s[i] != s[j]
  }

  /**
   * Every group of idx is non-empty and free of repeats, and each of its ids
   * names an entry of h filed under that group's key.
   */
  predicate IndexSound(idx: Index, h: map<string, Transaction>, kind: IndexKind)
  {
    forall k :: k in idx ==>
      |idx[k]| > 0 && NoDuplicates(idx[k])
      && forall i :: 0 <= i < |idx[k]| ==> idx[k][i] in h && KeyOf(kind, h[idx[k][i]]) == k
  }

  /** Every entry of h is listed under its key. */
  predicate IndexComplete(idx: Index, h: map<string, Transaction>, kind: IndexKind)
  {
    forall id :: id in h ==> id in Group(idx, KeyOf(kind, h[id]))
  }

  lemma SoundGroup(idx: Index, h: map<string, Transaction>, kind: IndexKind, k: string)
    requires IndexSound(idx, h, kind)
    ensures NoDuplicates(Group(idx, k))
    ensures forall id :: id in Group(idx, k) ==> id in h && KeyOf(kind, h[id]) == k
  {
  }

  /** Filing a new entry keeps an index sound. */
  lemma EmplaceSound(idx: Index, h: map<string, Transaction>, kind: IndexKind, t: Transaction)
    requires IndexSound(idx, h, kind) && t.transactionId !in h
    ensures IndexSound(Emplace(idx, KeyOf(kind, t), t.transactionId), h[t.transactionId := t], kind)
  {
    var id, key := t.transactionId, KeyOf(kind, t);
    var r, h' := Emplace(idx, key, id), h[id := t];
    forall k | k in r
      ensures |r[k]| > 0 && NoDuplicates(r[k])
      ensures forall i :: 0 <= i < |r[k]| ==> r[k][i] in h' && KeyOf(kind, h'[r[k][i]]) == k
    {
      if k == key {
        assert r[k] == Group(idx, k) + [id];
        forall i | 0 <= i < |Group(idx, k)| ensures Group(idx, k)[i] != id {
          assert Group(idx, k)[i] in h;
        }
      } else {
        assert r[k] == idx[k];
      }
    }
  }

  /** Filing a new entry keeps an index complete. */
  lemma EmplaceComplete(idx: Index, h: map<string, Transaction>, kind: IndexKind, t: Transaction)
    requires IndexComplete(idx, h, kind) && t.transactionId !in h
    ensures IndexComplete(Emplace(idx, KeyOf(kind, t), t.transactionId), h[t.transactionId := t], kind)
  {
    var id, key := t.transactionId, KeyOf(kind, t);
    var r, h' := Emplace(idx, key, id), h[id := t];
    forall x | x in h' ensures x in Group(r, KeyOf(kind, h'[x])) {
      if x != id {
        assert x in Group(idx, KeyOf(kind, h[x]));
      }
    }
  }

  /** A new id is not listed anywhere in a sound index. */
  lemma FreshIdUnlisted(idx: Index, h: map<string, Transaction>, kind: IndexKind, id: string, k: string)
    requires IndexSound(idx, h, kind) && id !in h
    ensures id !in Group(idx, k)
  {
  }

  /** Taking out the element at p and appending it again keeps the elements and their uniqueness. */
  lemma MovedGroup(g: seq<string>, p: nat)
    requires p < |g| && NoDuplicates(g)
    ensures forall x :: x in g[..p] + g[p + 1..] + [g[p]] <==> x in g
    ensures NoDuplicates(g[..p] + g[p + 1..] + [g[p]])
  {
    MovedGroupMembers(g, p);
    MovedGroupDistinct(g, p);
  }

  lemma MovedGroupMembers(g: seq<string>, p: nat)
    requires p < |g|
    ensures forall x :: x in g[..p] + g[p + 1..] + [g[p]] <==> x in g
  {
    var g' := g[..p] + g[p + 1..] + [g[p]];
    assert g == g[..p] + [g[p]] + g[p + 1..];
    assert multiset(g') == multiset(g);
    forall x ensures x in g' <==> x in g {
      assert x in g' <==> x in multiset(g');
      assert x in g <==> x in multiset(g);
    }
  }

  lemma MovedGroupDistinct(g: seq<string>, p: nat)
    requires p < |g| && NoDuplicates(g)
    ensures NoDuplicates(g[..p] + g[p + 1..] + [g[p]])
  {
    var g' := g[..p] + g[p + 1..] + [g[p]];
    forall i, j | 0 <= i < j < |g'| ensures g'[i] != g'[j] {
      var a := if i < p then i else i + 1;
      var b := if j == |g'| - 1 then p else if j < p then j else j + 1;
      assert g'[i] == g[a] && g'[j] == g[b] && a != b;
    }
  }

  /** In a sound index, moving a new entry's id just after filing it changes nothing. */
  lemma MoveAfterFiling(idx: Index, h: map<string, Transaction>, kind: IndexKind, t: Transaction, t': Transaction)
    requires IndexSound(idx, h, kind) && t.transactionId !in h && KeyOf(kind, t') == KeyOf(kind, t)
    ensures MoveToEnd(Emplace(idx, KeyOf(kind, t), t.transactionId), KeyOf(kind, t'), t.transactionId)
         == Emplace(idx, KeyOf(kind, t), t.transactionId)
  {
    FreshIdUnlisted(idx, h, kind, t.transactionId, KeyOf(kind, t));
    MoveJustEmplaced(idx, KeyOf(kind, t), t.transactionId);
  }

  /** Replacing an entry, in place, by one with the same key keeps an index sound and complete. */
  lemma ReplaceSameKey(idx: Index, h: map<string, Transaction>, kind: IndexKind, id: string, t: Transaction)
    requires id in h && KeyOf(kind, t) == KeyOf(kind, h[id])
    ensures IndexSound(idx, h, kind) ==> IndexSound(idx, h[id := t], kind)
    ensures IndexComplete(idx, h, kind) ==> IndexComplete(idx, h[id := t], kind)
  {
    assert forall x :: x in h ==> x in h[id := t] && KeyOf(kind, h[id := t][x]) == KeyOf(kind, h[x]);
  }

  /** Replacing an entry by one with the same key and moving its id to the end of its group keeps an index sound. */
  lemma MoveToEndSound(idx: Index, h: map<string, Transaction>, kind: IndexKind, id: string, t: Transaction)
    requires IndexSound(idx, h, kind) && id in h && KeyOf(kind, t) == KeyOf(kind, h[id])
    ensures IndexSound(MoveToEnd(idx, KeyOf(kind, t), id), h[id := t], kind)
  {
    var key := KeyOf(kind, t);
    var r, h' := MoveToEnd(idx, key, id), h[id := t];
    assert forall x :: x in h ==> x in h' && KeyOf(kind, h'[x]) == KeyOf(kind, h[x]);
    forall k | k in r
      ensures |r[k]| > 0 && NoDuplicates(r[k])
      ensures forall i :: 0 <= i < |r[k]| ==> r[k][i] in h' && KeyOf(kind, h'[r[k][i]]) == k
    {
      if k == key && FirstIndexOf(idx[k], id).Some? {
        var g := idx[k];
        var p := FirstIndexOf(g, id).value;
        MovedGroup(g, p);
        assert r[k] == g[..p] + g[p + 1..] + [g[p]];
        forall i | 0 <= i < |r[k]| ensures r[k][i] in h' && KeyOf(kind, h'[r[k][i]]) == k {
          assert r[k][i] in g;
        }
      } else {
        assert r[k] == idx[k];
      }
    }
  }

  /** The same step keeps a complete index complete. */
  lemma MoveToEndComplete(idx: Index, h: map<string, Transaction>, kind: IndexKind, id: string, t: Transaction)
    requires IndexComplete(idx, h, kind) && id in h && KeyOf(kind, t) == KeyOf(kind, h[id])
    ensures IndexComplete(MoveToEnd(idx, KeyOf(kind, t), id), h[id := t], kind)
  {
    var key := KeyOf(kind, t);
    var r, h' := MoveToEnd(idx, key, id), h[id := t];
    MoveToEndGroups(idx, key, id);
    forall x | x in h' ensures x in Group(r, KeyOf(kind, h'[x])) {
      var kx := KeyOf(kind, h'[x]);
      assert kx == KeyOf(kind, h[x]);
      assert x in Group(idx, kx);
      if kx == key {
        assert x in multiset(Group(idx, kx));
        assert x in multiset(Group(r, kx));
      }
    }
  }
}
