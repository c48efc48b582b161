/**
 * The two maintenance operations that rebuild or prune the indices:
 * reindexTransactions and cleanupOldTransactions. Both walk the history in
 * std::map order, that is in increasing order of transaction id.
 */
module LedgerMaintenance {
  import opened StdString
  import opened StdMap
  import opened Transactions
  import opened LedgerIndex
  import opened LedgerSpec

  predicate AllStored(h: map<string, Transaction>, ids: seq<string>)
  {
    forall i :: 0 <= i < |ids| ==> ids[i] in h
  }

  lemma IncreasingDistinct(s: seq<string>)
    requires StrictlyIncreasing(s)
    ensures NoDuplicates(s)
  {
    forall i, j | 0 <= i < j < |s| ensures s[i] != s[j] {
      LexLessIrreflexive(s[i]);
    }
  }

  // ---------------------------------------------------------------------------
  // reindexTransactions
  // ---------------------------------------------------------------------------

  /** The three indices cleared and every entry of ids emplaced under its key, in order. */
  function Build(h: map<string, Transaction>, ids: seq<string>, kind: IndexKind): Index
    requires AllStored(h, ids)
  {
    if |ids| == 0 then map[]
    else
      var last := h[ids[|ids| - 1]];
      Emplace(Build(h, ids[..|ids| - 1], kind), KeyOf(kind, last), last.transactionId)
  }

  /** One more entry emplaced. */
  lemma BuildStep(h: map<string, Transaction>, ids: seq<string>, i: nat, kind: IndexKind)
    requires i < |ids| && AllStored(h, ids[..i]) && ids[i] in h
    ensures AllStored(h, ids[..i + 1])
    ensures Build(h, ids[..i + 1], kind)
         == Emplace(Build(h, ids[..i], kind), KeyOf(kind, h[ids[i]]), h[ids[i]].transactionId)
  {
    assert ids[..i + 1][..i] == ids[..i];
  }

  /** The ids, in the order of ids, that an index of this kind files under k. */
  function Matching(h: map<string, Transaction>, ids: seq<string>, kind: IndexKind, k: string): seq<string>
    requires AllStored(h, ids)
  {
    if |ids| == 0 then []
    else
      var last := h[ids[|ids| - 1]];
      Matching(h, ids[..|ids| - 1], kind, k) + (if KeyOf(kind, last) == k then [last.transactionId] else [])
  }

  /** Each group of the rebuilt index is exactly the matching ids, in the order visited. */
  lemma {:induction false} BuildGroups(h: map<string, Transaction>, ids: seq<string>, kind: IndexKind, k: string)
    requires AllStored(h, ids)
    ensures Group(Build(h, ids, kind), k) == Matching(h, ids, kind, k)
    ensures k in Build(h, ids, kind) <==> |Matching(h, ids, kind, k)| > 0
  {
    if |ids| > 0 {
      var init, last := ids[..|ids| - 1], h[ids[|ids| - 1]];
      assert AllStored(h, init);
      BuildGroups(h, init, kind, k);
      EmplaceGroups(Build(h, init, kind), KeyOf(kind, last), last.transactionId);
    }
  }

  lemma {:induction false} MatchingMembers(h: map<string, Transaction>, ids: seq<string>, kind: IndexKind, k: string)
    requires AllStored(h, ids) && KeysAreIds(h)
    ensures forall x :: x in Matching(h, ids, kind, k) <==> x in ids && KeyOf(kind, h[x]) == k
  {
    if |ids| > 0 {
      var init := ids[..|ids| - 1];
      assert AllStored(h, init);
      assert ids == init + [ids[|ids| - 1]];
      MatchingMembers(h, init, kind, k);
    }
  }

  lemma {:induction false} MatchingIncreasing(h: map<string, Transaction>, ids: seq<string>, kind: IndexKind, k: string)
    requires AllStored(h, ids) && KeysAreIds(h) && StrictlyIncreasing(ids)
    ensures StrictlyIncreasing(Matching(h, ids, kind, k))
  {
    if |ids| > 0 {
      var init, x := ids[..|ids| - 1], ids[|ids| - 1];
      assert AllStored(h, init);
      MatchingIncreasing(h, init, kind, k);
      MatchingMembers(h, init, kind, k);
      var m := Matching(h, init, kind, k);
      forall i | 0 <= i < |m| ensures LexLess(m[i], x) {
        assert m[i] in init;
      }
    }
  }

  /** A rebuilt index is sound, and complete for the ids it visited. */
  lemma BuildIndexed(h: map<string, Transaction>, ids: seq<string>, kind: IndexKind)
    requires AllStored(h, ids) && KeysAreIds(h) && StrictlyIncreasing(ids)
    ensures IndexSound(Build(h, ids, kind), h, kind)
    ensures (forall x :: x in h ==> x in ids) ==> IndexComplete(Build(h, ids, kind), h, kind)
  {
    var r := Build(h, ids, kind);
    forall k | k in r
      ensures |r[k]| > 0 && NoDuplicates(r[k])
      ensures forall i :: 0 <= i < |r[k]| ==> r[k][i] in h && KeyOf(kind, h[r[k][i]]) == k
    {
      BuildGroups(h, ids, kind, k);
      MatchingMembers(h, ids, kind, k);
      MatchingIncreasing(h, ids, kind, k);
      IncreasingDistinct(r[k]);
      forall i | 0 <= i < |r[k]| ensures r[k][i] in h && KeyOf(kind, h[r[k][i]]) == k {
        assert r[k][i] in Matching(h, ids, kind, k);
      }
    }
    if forall x :: x in h ==> x in ids {
      forall x | x in h ensures x in Group(r, KeyOf(kind, h[x])) {
        BuildGroups(h, ids, kind, KeyOf(kind, h[x]));
        MatchingMembers(h, ids, kind, KeyOf(kind, h[x]));
      }
    }
  }

  function ReindexSpec(l: Ledger): Ledger
  {
    var ids := OrderedKeys(l.history);
    l.(accountIndex := Build(l.history, ids, ByAccount),
       customerIndex := Build(l.history, ids, ByCustomer),
       dateIndex := Build(l.history, ids, ByDate))
  }

  /** Rebuilding leaves the history and the counter alone and makes the indices sound and complete. */
  lemma ReindexIndexed(l: Ledger)
    requires l.nextNumber >= 1 && KeysAreIds(l.history)
    ensures ReindexSpec(l).history == l.history && ReindexSpec(l).nextNumber == l.nextNumber
    ensures Indexed(ReindexSpec(l))
  {
    var h, ids := l.history, OrderedKeys(l.history);
    OrderedKeysFacts(h);
    BuildIndexed(h, ids, ByAccount);
    BuildIndexed(h, ids, ByCustomer);
    BuildIndexed(h, ids, ByDate);
  }

  lemma ReindexIndexOf(l: Ledger, kind: IndexKind)
    ensures IndexOf(ReindexSpec(l), kind) == Build(l.history, OrderedKeys(l.history), kind)
  {
  }

  /** After rebuilding, each group lists exactly the entries filed under its key, in increasing id order. */
  lemma ReindexGroup(l: Ledger, kind: IndexKind, k: string)
    requires KeysAreIds(l.history)
    ensures StrictlyIncreasing(Group(IndexOf(ReindexSpec(l), kind), k))
    ensures forall x :: x in Group(IndexOf(ReindexSpec(l), kind), k) <==> x in l.history && KeyOf(kind, l.history[x]) == k
  {
    var h, ids := l.history, OrderedKeys(l.history);
    OrderedKeysFacts(h);
    ReindexIndexOf(l, kind);
    BuildGroups(h, ids, kind, k);
    MatchingMembers(h, ids, kind, k);
    MatchingIncreasing(h, ids, kind, k);
  }

  /** On an indexed ledger, rebuilding lists the same ids under each key: only their order may change. */
  lemma ReindexKeepsContents(l: Ledger, kind: IndexKind, k: string)
    requires Indexed(l)
    ensures forall x :: x in Group(IndexOf(ReindexSpec(l), kind), k) <==> x in Group(IndexOf(l, kind), k)
  {
    ReindexGroup(l, kind, k);
    assert IndexSound(IndexOf(l, kind), l.history, kind) && IndexComplete(IndexOf(l, kind), l.history, kind);
    SoundGroup(IndexOf(l, kind), l.history, kind, k);
  }

  /** Rebuilding twice is rebuilding once. */
  lemma ReindexIdempotent(l: Ledger)
    ensures ReindexSpec(ReindexSpec(l)) == ReindexSpec(l)
  {
  }

  // ---------------------------------------------------------------------------
  // cleanupOldTransactions
  // ---------------------------------------------------------------------------

  /**
   * One iteration: an entry stamped before the cutoff is erased from the
   * history, and the WHOLE groups of its account, customer and date keys are
   * erased from the indices, with every other id filed under them.
   */
  function CleanupStep(l: Ledger, id: string, cutoff: string): Ledger
  {
    if id in l.history && LexLess(l.history[id].timestamp, cutoff) then
      var t := l.history[id];
      l.(history := l.history - {id},
         accountIndex := EraseKey(l.accountIndex, KeyOf(ByAccount, t)),
         customerIndex := EraseKey(l.customerIndex, KeyOf(ByCustomer, t)),
         dateIndex := EraseKey(l.dateIndex, KeyOf(ByDate, t)))
    else l
  }

  /** The iterations over ids, first to last. */
  function CleanupLoop(l: Ledger, ids: seq<string>, cutoff: string): Ledger
    decreases |ids|
  {
    if |ids| == 0 then l else CleanupLoop(CleanupStep(l, ids[0], cutoff), ids[1..], cutoff)
  }

  /** One more iteration, from position i. */
  lemma CleanupLoopStep(l: Ledger, ids: seq<string>, i: nat, cutoff: string)
    requires i < |ids|
    ensures CleanupLoop(l, ids[i..], cutoff) == CleanupLoop(CleanupStep(l, ids[i], cutoff), ids[i + 1..], cutoff)
  {
    assert ids[i..][0] == ids[i] && ids[i..][1..] == ids[i + 1..];
  }

  /** The cutoff is the current date-time; the number of days asked for plays no part. */
  function CleanupSpec(l: Ledger, now: string): Ledger
  {
    CleanupLoop(l, OrderedKeys(l.history), now)
  }

  /** An entry is old when it is stamped strictly before the cutoff. */
  predicate Old(l: Ledger, x: string, cutoff: string)
    requires x in l.history
  {
    LexLess(l.history[x].timestamp, cutoff)
  }

  /** The loop removes exactly the visited old entries and changes no other entry or the counter. */
  lemma {:induction false} CleanupLoopHistory(l: Ledger, ids: seq<string>, cutoff: string)
    decreases |ids|
    ensures forall x :: x in CleanupLoop(l, ids, cutoff).history <==> x in l.history && !(x in ids && Old(l, x, cutoff))
    ensures forall x :: x in CleanupLoop(l, ids, cutoff).history ==> CleanupLoop(l, ids, cutoff).history[x] == l.history[x]
    ensures CleanupLoop(l, ids, cutoff).nextNumber == l.nextNumber
  {
    if |ids| > 0 {
      var l1 := CleanupStep(l, ids[0], cutoff);
      CleanupLoopHistory(l1, ids[1..], cutoff);
      assert ids == [ids[0]] + ids[1..];
    }
  }

  /**
   * Under any key, the loop leaves an index's group as it was or erases it
   * whole, and it erases it exactly when a visited old entry is filed under it.
   */
  lemma {:induction false} CleanupLoopIndex(l: Ledger, ids: seq<string>, cutoff: string, kind: IndexKind, k: string)
    decreases |ids|
    ensures k in IndexOf(CleanupLoop(l, ids, cutoff), kind) ==> Group(IndexOf(CleanupLoop(l, ids, cutoff), kind), k) == Group(IndexOf(l, kind), k)
    ensures k in IndexOf(CleanupLoop(l, ids, cutoff), kind) <==>
      k in IndexOf(l, kind) && forall x :: x in ids && x in l.history && Old(l, x, cutoff) ==> KeyOf(kind, l.history[x]) != k
  {
    if |ids| > 0 {
      var l1 := CleanupStep(l, ids[0], cutoff);
      CleanupLoopIndex(l1, ids[1..], cutoff, kind, k);
      assert ids == [ids[0]] + ids[1..];
      if ids[0] in l.history && Old(l, ids[0], cutoff) {
        assert IndexOf(l1, kind) == EraseKey(IndexOf(l, kind), KeyOf(kind, l.history[ids[0]]));
        assert forall x :: x in l1.history <==> x in l.history && x != ids[0];
        assert forall x :: x in l1.history ==> l1.history[x] == l.history[x];
      }
    }
  }

  /**
   * Cleanup keeps exactly the entries not stamped before the cutoff, leaves
   * them and the counter unchanged, and keeps the ledger's invariant.
   */
  lemma CleanupKeepsNewer(l: Ledger, now: string)
    requires LedgerValid(l)
    ensures forall x :: x in CleanupSpec(l, now).history <==> x in l.history && !Old(l, x, now)
    ensures forall x :: x in CleanupSpec(l, now).history ==> CleanupSpec(l, now).history[x] == l.history[x]
    ensures CleanupSpec(l, now).nextNumber == l.nextNumber
    ensures LedgerValid(CleanupSpec(l, now))
  {
    var ids := OrderedKeys(l.history);
    var r := CleanupSpec(l, now);
    OrderedKeysFacts(l.history);
    CleanupLoopHistory(l, ids, now);
    CleanupSound(l, now, ByAccount);
    CleanupSound(l, now, ByCustomer);
    CleanupSound(l, now, ByDate);
  }

  lemma CleanupSound(l: Ledger, now: string, kind: IndexKind)
    requires LedgerValid(l)
    ensures IndexSound(IndexOf(CleanupSpec(l, now), kind), CleanupSpec(l, now).history, kind)
  {
    var ids := OrderedKeys(l.history);
    var r := CleanupSpec(l, now);
    var idx, idx' := IndexOf(l, kind), IndexOf(r, kind);
    assert IndexSound(idx, l.history, kind);
    OrderedKeysFacts(l.history);
    CleanupLoopHistory(l, ids, now);
    forall k | k in idx'
      ensures |idx'[k]| > 0 && NoDuplicates(idx'[k])
      ensures forall i :: 0 <= i < |idx'[k]| ==> idx'[k][i] in r.history && KeyOf(kind, r.history[idx'[k][i]]) == k
    {
      CleanupLoopIndex(l, ids, now, kind, k);
      forall i | 0 <= i < |idx'[k]| ensures idx'[k][i] in r.history && KeyOf(kind, r.history[idx'[k][i]]) == k {
        var x := idx'[k][i];
        assert x in idx[k];
      }
    }
  }

  /**
   * Cleanup can detach a newer entry from an index: when an old entry shares
   * a key with it, that key's whole group goes, and the newer entry stays in
   * the history without being listed under its key.
   */
  lemma CleanupDetachesSurvivor(l: Ledger, now: string, stale: string, young: string, kind: IndexKind)
    requires LedgerValid(l) && stale in l.history && young in l.history
    requires Old(l, stale, now) && !Old(l, young, now)
    requires KeyOf(kind, l.history[stale]) == KeyOf(kind, l.history[young])
    ensures young in CleanupSpec(l, now).history
    ensures young !in Group(IndexOf(CleanupSpec(l, now), kind), KeyOf(kind, l.history[young]))
  {
    var ids := OrderedKeys(l.history);
    OrderedKeysFacts(l.history);
    CleanupLoopHistory(l, ids, now);
    CleanupLoopIndex(l, ids, now, kind, KeyOf(kind, l.history[young]));
  }
}
