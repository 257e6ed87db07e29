/** Last-writer-wins tables: the merge rule that every gossiped table follows. */
module Lww {
  /** A row with the timestamp that decides merges. */
  datatype Stamped<+V> = Stamped(at: int, body: V)

  datatype Record<+K, +V> = Record(key: K, row: Stamped<V>)

  type Table<K, +V> = map<K, Stamped<V>>

  /** A record replaces an older row; whether it replaces an equally old one depends on the table. */
  predicate Wins<V>(row: Stamped<V>, local: Stamped<V>, ties: bool) {
    if ties then row.at >= local.at else row.at > local.at
  }

  function Merge<K, V>(t: Table<K, V>, r: Record<K, V>, ties: bool): Table<K, V> {
    if r.key in t && !Wins(r.row, t[r.key], ties) then t else t[r.key := r.row]
  }

  function MergeAll<K, V>(t: Table<K, V>, recs: seq<Record<K, V>>, ties: bool): Table<K, V>
    decreases |recs|
  {
    if recs == [] then t else MergeAll(Merge(t, recs[0], ties), recs[1..], ties)
  }

  /** The elements that pass a test, in order. */
  function Filter<T>(s: seq<T>, keep: T -> bool): seq<T> {
    if s == [] then [] else (if keep(s[0]) then [s[0]] else []) + Filter(s[1..], keep)
  }

  lemma {:induction false} FilterMember<T>(s: seq<T>, keep: T -> bool, x: T)
    ensures x in Filter(s, keep) <==> x in s && keep(x)
  {
    if s != [] {
      FilterMember(s[1..], keep, x);
    }
  }

  lemma {:induction false} FilterAll<T>(s: seq<T>, keep: T -> bool)
    requires forall x :: x in s ==> keep(x)
    ensures Filter(s, keep) == s
  {
    if s != [] {
      assert s[0] in s && keep(s[0]);
      FilterAll(s[1..], keep);
    }
  }

  /** A row held for key k, at the start or in a record. */
  predicate Candidate<K, V(==)>(t: Table<K, V>, recs: seq<Record<K, V>>, k: K, row: Stamped<V>) {
    (k in t && t[k] == row) || Record(k, row) in recs
  }

  lemma MergeCandidates<K, V>(t: Table<K, V>, recs: seq<Record<K, V>>, ties: bool, k: K, row: Stamped<V>)
    requires recs != []
    ensures Candidate(Merge(t, recs[0], ties), recs[1..], k, row) ==> Candidate(t, recs, k, row)
    ensures Candidate(t, recs, k, row) ==>
            exists row': Stamped<V> :: row'.at >= row.at && Candidate(Merge(t, recs[0], ties), recs[1..], k, row')
  {
    var t' := Merge(t, recs[0], ties);
    if Candidate(t, recs, k, row) {
      if Record(k, row) in recs[1..] {
        assert Candidate(t', recs[1..], k, row);
      } else {
        assert k in t' && t'[k].at >= row.at;
        assert Candidate(t', recs[1..], k, t'[k]);
      }
    }
  }

  /** Whatever the order and however often records repeat: a key is present exactly when some row was
      offered for it, what it holds is one of the rows offered, and none of them is newer. */
  lemma {:induction false} MergeAllIsNewest<K, V>(t: Table<K, V>, recs: seq<Record<K, V>>, ties: bool, k: K)
    ensures k in MergeAll(t, recs, ties) <==> exists row: Stamped<V> :: Candidate(t, recs, k, row)
    ensures k in MergeAll(t, recs, ties) ==>
            && Candidate(t, recs, k, MergeAll(t, recs, ties)[k])
            && forall row: Stamped<V> :: Candidate(t, recs, k, row) ==> row.at <= MergeAll(t, recs, ties)[k].at
    decreases |recs|
  {
    if recs == [] {
      assert k in t ==> Candidate(t, recs, k, t[k]);
    } else {
      var t' := Merge(t, recs[0], ties);
      MergeAllIsNewest(t', recs[1..], ties, k);
      forall row: Stamped<V> ensures Candidate(t', recs[1..], k, row) ==> Candidate(t, recs, k, row) {
        MergeCandidates(t, recs, ties, k, row);
      }
      forall row: Stamped<V> | Candidate(t, recs, k, row)
        ensures k in MergeAll(t', recs[1..], ties) && row.at <= MergeAll(t', recs[1..], ties)[k].at
      {
        MergeCandidates(t, recs, ties, k, row);
      }
    }
  }

  /** Key and timestamp determine the content of every row offered. */
  ghost predicate Consistent<K(!new), V(!new)>(t: Table<K, V>, recs: seq<Record<K, V>>) {
    forall k, a, b :: Candidate(t, recs, k, a) && Candidate(t, recs, k, b) && a.at == b.at ==> a == b
  }

  /** Under that assumption neither order, nor repetition, nor the tie rule matters. */
  lemma OrderIsIrrelevant<K(!new), V(!new)>(t: Table<K, V>, a: seq<Record<K, V>>, b: seq<Record<K, V>>,
                                            tiesA: bool, tiesB: bool)
    requires Consistent(t, a)
    requires forall r :: r in a <==> r in b
    ensures MergeAll(t, a, tiesA) == MergeAll(t, b, tiesB)
  {
    var x, y := MergeAll(t, a, tiesA), MergeAll(t, b, tiesB);
    forall k ensures k in x <==> k in y
             ensures k in x ==> x[k] == y[k]
    {
      MergeAllIsNewest(t, a, tiesA, k);
      MergeAllIsNewest(t, b, tiesB, k);
      assert forall row :: Candidate(t, a, k, row) <==> Candidate(t, b, k, row);
    }
  }

  /** The newest row per key of two tables. */
  function Join<K, V>(a: Table<K, V>, b: Table<K, V>): Table<K, V> {
    map k | k in a.Keys + b.Keys ::
      if k !in b then a[k] else if k !in a then b[k] else if a[k].at < b[k].at then b[k] else a[k]
  }

  ghost predicate Agree<K(!new), V(!new)>(a: Table<K, V>, b: Table<K, V>) {
    forall k :: k in a && k in b && a[k].at == b[k].at ==> a[k] == b[k]
  }

  /** The records are the rows of the table, in any order. */
  ghost predicate Lists<K(!new), V(!new)>(recs: seq<Record<K, V>>, t: Table<K, V>) {
    forall r :: r in recs <==> r.key in t && t[r.key] == r.row
  }

  // ----- Listing a table, newest first -----

  ghost predicate NewestFirst<K, V>(recs: seq<Record<K, V>>) {
    forall i, j :: 0 <= i < j < |recs| ==> recs[i].row.at >= recs[j].row.at
  }

  ghost predicate DistinctKeys<K, V>(recs: seq<Record<K, V>>) {
    forall i, j :: 0 <= i < j < |recs| ==> recs[i].key != recs[j].key
  }

  /** ORDER BY timestamp DESC, one row at a time. */
  function InsertNewest<K, V>(recs: seq<Record<K, V>>, r: Record<K, V>): seq<Record<K, V>> {
    if recs == [] || r.row.at >= recs[0].row.at then [r] + recs else [recs[0]] + InsertNewest(recs[1..], r)
  }

  lemma {:induction false} InsertMember<K, V>(recs: seq<Record<K, V>>, r: Record<K, V>, x: Record<K, V>)
    ensures x in InsertNewest(recs, r) <==> x in recs || x == r
  {
    if !(recs == [] || r.row.at >= recs[0].row.at) {
      InsertMember(recs[1..], r, x);
    }
  }

  lemma {:induction false} InsertKeeps<K, V>(recs: seq<Record<K, V>>, r: Record<K, V>)
    requires NewestFirst(recs) && DistinctKeys(recs) && forall x :: x in recs ==> x.key != r.key
    ensures NewestFirst(InsertNewest(recs, r)) && DistinctKeys(InsertNewest(recs, r))
  {
    if !(recs == [] || r.row.at >= recs[0].row.at) {
      var rest := InsertNewest(recs[1..], r);
      InsertKeeps(recs[1..], r);
      forall k | 0 <= k < |rest| ensures recs[0].row.at >= rest[k].row.at && recs[0].key != rest[k].key {
        InsertMember(recs[1..], r, rest[k]);
        assert recs[0] in recs;
        if rest[k] != r {
          var j :| 1 <= j < |recs| && recs[j] == rest[k];
        }
      }
    }
  }

  /** Merging all rows of another table is the join. */
  lemma MergeTable<K(!new), V(!new)>(t: Table<K, V>, recs: seq<Record<K, V>>, s: Table<K, V>, ties: bool)
    requires Lists(recs, s) && Agree(t, s)
    ensures MergeAll(t, recs, ties) == Join(t, s)
  {
    var x := MergeAll(t, recs, ties);
    forall k ensures k in x <==> k in Join(t, s)
             ensures k in x ==> x[k] == Join(t, s)[k]
    {
      MergeAllIsNewest(t, recs, ties, k);
      assert k in s ==> Record(k, s[k]) in recs && Candidate(t, recs, k, s[k]);
      assert k in t ==> Candidate(t, recs, k, t[k]);
    }
  }

  /** `shown` is the part of t that its owner shows. */
  ghost predicate Shows<K(!new), V(!new)>(t: Table<K, V>, shown: Table<K, V>) {
    forall k :: k in shown ==> k in t && shown[k] == t[k]
  }

  /** Whatever is not shown of t, the other table has, at least as recent. */
  ghost predicate HidesNoNews<K(!new), V(!new)>(t: Table<K, V>, shown: Table<K, V>, other: Table<K, V>) {
    forall k :: k in t && k !in shown ==> k in other && t[k].at <= other[k].at
  }

  /** Two tables that each take in what the other shows meet exactly when neither hides news. */
  lemma ShownTablesMeetExactly<K(!new), V(!new)>(a: Table<K, V>, showsA: Table<K, V>, b: Table<K, V>, showsB: Table<K, V>)
    requires Agree(a, b) && Shows(a, showsA) && Shows(b, showsB)
    ensures Join(a, showsB) == Join(b, showsA) <==> HidesNoNews(a, showsA, b) && HidesNoNews(b, showsB, a)
  {
    var x, y := Join(a, showsB), Join(b, showsA);
    if x == y {
      forall k | k in a && k !in showsA ensures k in b && a[k].at <= b[k].at {
        assert k in x && x[k] == y[k];
      }
      forall k | k in b && k !in showsB ensures k in a && b[k].at <= a[k].at {
        assert k in y && x[k] == y[k];
      }
    }
  }

  /** Join forms a semilattice on tables that agree: the order of exchanges does not matter. */
  lemma JoinLaws<K(!new), V(!new)>(a: Table<K, V>, b: Table<K, V>)
    requires Agree(a, b)
    ensures Join(a, b) == Join(b, a)
    ensures Join(a, a) == a
    ensures Agree(a, Join(b, a)) && Join(a, Join(b, a)) == Join(a, b)
  {
  }
}
