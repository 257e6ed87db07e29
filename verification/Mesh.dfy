/** Identifiers and small value types shared by every part of the model. */
module Mesh {
  /** A 32-byte NodeID (core/identity) read as a number; ZERO_ID is the all-zero array. */
  type NodeId = nat

  const ZERO_ID: NodeId := 0

  /** A UDP address in the textual form that Go compares ("ip:port"). */
  type Addr = string

  /** Number of values of Go's uint32. */
  const U32 := 0x1_0000_0000

  datatype Option<+T> = None | Some(value: T)

  /** uint32 increment, wrapping at 2^32. */
  function Inc32(x: nat): nat {
    if x + 1 == U32 then 0 else x + 1
  }

  /** uint32 decrement, wrapping below zero. */
  function Dec32(x: nat): nat {
    if x == 0 then U32 - 1 else x - 1
  }

  /** The Go idiom `m[k]` on a map of counters: a missing key reads as zero. */
  function Count<K>(m: map<K, nat>, k: K): nat {
    if k in m then m[k] else 0
  }

  ghost predicate Distinct<T>(s: seq<T>) {
    forall i, j :: 0 <= i < j < |s| ==> s[i] != s[j]
  }

  lemma DistinctSnoc<T>(s: seq<T>, x: T)
    requires Distinct(s) && x !in s
    ensures Distinct(s + [x])
  {
    forall i, j | 0 <= i < j < |s + [x]| ensures (s + [x])[i] != (s + [x])[j] {
      assert (s + [x])[i] == s[i] && s[i] in s;
    }
  }

  /** A duplicate-free sequence drawn from a set is no longer than the set. */
  lemma {:induction false} DistinctBound<T>(s: seq<T>, universe: set<T>)
    requires Distinct(s)
    requires forall x :: x in s ==> x in universe
    ensures |s| <= |universe|
  {
    if s != [] {
      var last := s[|s| - 1];
      var rest := s[..|s| - 1];
      assert last in s && last !in rest;
      forall x | x in rest ensures x in universe - {last} {
        assert x in s;
      }
      DistinctBound(rest, universe - {last});
    }
  }
}
