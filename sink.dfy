/**
 * The destination collection, seen through the two calls the loader makes:
 * `delete_many({})` and `insert_many(records)`.
 *
 * `insert_many` is ordered (the driver's default): documents are written
 * one after the other, and the first one whose `_id` is already present
 * raises a bulk write error that leaves the documents before it written and
 * those from it on unwritten. A null `_id` is a value like any other.
 */
module Sink {
  import opened Fhir

  /** The `_id` values present in `docs`. */
  function Ids(docs: seq<Record>): set<Option<string>> {
    set i | 0 <= i < |docs| :: docs[i].id
  }

  predicate DistinctIds(rs: seq<Record>) {
    forall i, j :: 0 <= i < j < |rs| ==> rs[i].id != rs[j].id
  }

  /** How many of `rs` an ordered insert writes into a collection whose `_id`s are `existing`. */
  function Accepted(existing: set<Option<string>>, rs: seq<Record>): (n: nat)
    ensures n <= |rs|
    decreases |rs|
  {
    if rs == [] then 0
    else if rs[0].id in existing then 0
    else 1 + Accepted(existing + {rs[0].id}, rs[1..])
  }

  lemma IdsCons(r: Record, rs: seq<Record>)
    ensures Ids([r] + rs) == {r.id} + Ids(rs)
  {
    var s := [r] + rs;
    forall x | x in Ids(s) ensures x in {r.id} + Ids(rs) {
      var i :| 0 <= i < |s| && s[i].id == x;
      if i > 0 { assert s[i] == rs[i - 1]; }
    }
    forall x | x in Ids(rs) ensures x in Ids(s) {
      var i :| 0 <= i < |rs| && rs[i].id == x;
      assert s[i + 1] == rs[i];
    }
    assert s[0] == r;
  }

  /**
   * The written prefix is the longest one whose `_id`s are new: each is
   * absent from the collection and from the documents written before it,
   * and the first unwritten document, if any, repeats one of those.
   */
  lemma {:induction false} AcceptedPrefix(existing: set<Option<string>>, rs: seq<Record>)
    ensures var n := Accepted(existing, rs);
            && (forall i :: 0 <= i < n ==> rs[i].id !in existing)
            && DistinctIds(rs[..n])
            && (n < |rs| ==> rs[n].id in existing + Ids(rs[..n]))
    decreases |rs|
  {
    var n := Accepted(existing, rs);
    if rs != [] && rs[0].id !in existing {
      var e' := existing + {rs[0].id};
      var tail := rs[1..];
      var m := Accepted(e', tail);
      AcceptedPrefix(e', tail);
      assert n == m + 1;
      forall i | 0 <= i < n ensures rs[i].id !in existing {
        if i > 0 { assert rs[i] == tail[i - 1]; }
      }
      assert rs[..n] == [rs[0]] + tail[..m];
      forall i, j | 0 <= i < j < n ensures rs[..n][i].id != rs[..n][j].id {
        assert rs[..n][j] == tail[..m][j - 1];
        if i > 0 { assert rs[..n][i] == tail[..m][i - 1]; }
      }
      IdsCons(rs[0], tail[..m]);
      if n < |rs| {
        assert rs[n] == tail[m];
      }
    }
  }

  /** Into an empty collection, every document is written exactly when their `_id`s are pairwise distinct. */
  lemma AcceptedAllIff(rs: seq<Record>)
    ensures Accepted({}, rs) == |rs| <==> DistinctIds(rs)
  {
    var n := Accepted({}, rs);
    AcceptedPrefix({}, rs);
    if n == |rs| {
      assert rs[..n] == rs;
    }
  }

  lemma MultisetSplit(a: seq<Record>, x: Record, l: seq<Record>, r: seq<Record>)
    requires multiset(a + [x]) == multiset(l + [x] + r)
    ensures multiset(a) == multiset(l + r)
  {
    assert multiset(l + [x] + r) == multiset(l) + multiset{x} + multiset(r);
    assert multiset(l + r) == multiset(l) + multiset(r);
    assert multiset(a + [x]) == multiset(a) + multiset{x};
    calc {
      multiset(a);
      multiset(a + [x]) - multiset{x};
      (multiset(l) + multiset(r) + multiset{x}) - multiset{x};
      multiset(l) + multiset(r);
    }
  }

  /** Putting back a document whose `_id` is new keeps the `_id`s distinct. */
  lemma DistinctIdsInsert(l: seq<Record>, x: Record, r: seq<Record>)
    requires DistinctIds(l + r)
    requires forall y :: y in l + r ==> y.id != x.id
    ensures DistinctIds(l + [x] + r)
  {
    var b, b' := l + [x] + r, l + r;
    var j := |l|;
    forall p, q | 0 <= p < q < |b| ensures b[p].id != b[q].id {
      if p != j && q != j {
        var p', q' := if p < j then p else p - 1, if q < j then q else q - 1;
        assert b[p] == b'[p'] && b[q] == b'[q'];
      } else {
        var m := if p == j then q else p;
        var m' := if m < j then m else m - 1;
        assert b[m] == b'[m'];
      }
    }
  }

  /** Distinct `_id`s do not depend on the order of the documents. */
  lemma {:induction false} DistinctIdsPermutation(a: seq<Record>, b: seq<Record>)
    requires multiset(a) == multiset(b)
    requires DistinctIds(a)
    ensures DistinctIds(b)
    decreases |a|
  {
    if a == [] {
      assert |b| == |multiset(b)| == 0;
    } else {
      var n := |a| - 1;
      var x := a[n];
      var a' := a[..n];
      assert a == a' + [x];
      assert x in multiset(b);
      var j :| 0 <= j < |b| && b[j] == x;
      var l, r := b[..j], b[j + 1..];
      assert b == l + [x] + r;
      MultisetSplit(a', x, l, r);
      assert DistinctIds(a') by {
        forall p, q | 0 <= p < q < |a'| ensures a'[p].id != a'[q].id {
          assert a'[p] == a[p] && a'[q] == a[q];
        }
      }
      DistinctIdsPermutation(a', l + r);
      forall y: Record | y in l + r ensures y.id != x.id {
        assert y in multiset(a');
        var k :| 0 <= k < n && a'[k] == y;
        assert a[k] == y;
      }
      DistinctIdsInsert(l, x, r);
    }
  }

  /** A MongoDB collection of simplified patient documents. */
  class Collection {
    var docs: seq<Record>

    constructor (initial: seq<Record>)
      ensures docs == initial
    {
      docs := initial;
    }

    /** `delete_many({})`: removes every document and reports how many there were. */
    method DeleteMany() returns (deleted: nat)
      modifies this
      ensures docs == []
      ensures deleted == |old(docs)|
    {
      deleted := |docs|;
      docs := [];
    }

    /**
     * `insert_many(rs)`, ordered. The driver refuses an empty list, hence
     * the requires. `inserted < |rs|` is the bulk write error.
     */
    method InsertMany(rs: seq<Record>) returns (inserted: nat)
      requires rs != []
      modifies this
      ensures inserted == Accepted(Ids(old(docs)), rs)
      ensures docs == old(docs) + rs[..inserted]
    {
      inserted := Accepted(Ids(docs), rs);
      docs := docs + rs[..inserted];
    }
  }
}
