/** Ordering helpers shared by the server's `ORDER BY` clauses and the
    client's `Array.prototype.sort` calls (which is stable), plus the
    "write each position into a record" reduce both client pages use to
    turn a sorted list into ranks. */
module Sorting {
  import opened Common

  /** `le` relates every two values one way or the other. */
  ghost predicate Total<T(!new)>(le: (T, T) -> bool) {
    forall a, b :: le(a, b) || le(b, a)
  }

  ghost predicate Transitive<T(!new)>(le: (T, T) -> bool) {
    forall a, b, c :: le(a, b) && le(b, c) ==> le(a, c)
  }

  ghost predicate Antisymmetric<T(!new)>(le: (T, T) -> bool) {
    forall a, b :: le(a, b) && le(b, a) ==> a == b
  }

  predicate Sorted<T>(s: seq<T>, le: (T, T) -> bool) {
    forall i, j :: 0 <= i < j < |s| ==> le(s[i], s[j])
  }

  /** Puts `x` in front of the first element it may precede. */
  function Insert<T>(x: T, s: seq<T>, le: (T, T) -> bool): (r: seq<T>)
    ensures multiset(r) == multiset(s) + multiset{x}
  {
    if s == [] then [x]
    else if le(x, s[0]) then [x] + s
    else
      assert s == [s[0]] + s[1..];
      [s[0]] + Insert(x, s[1..], le)
  }

  /** Insertion sort; an element goes in front of the later ones it may
      precede, so elements that tie keep their input order. */
  function InsertionSort<T>(s: seq<T>, le: (T, T) -> bool): (r: seq<T>)
    ensures multiset(r) == multiset(s)
  {
    if s == [] then []
    else
      assert s == [s[0]] + s[1..];
      Insert(s[0], InsertionSort(s[1..], le), le)
  }

  lemma {:induction false} InsertSorted<T(!new)>(x: T, s: seq<T>, le: (T, T) -> bool)
    requires Total(le) && Transitive(le) && Sorted(s, le)
    ensures Sorted(Insert(x, s, le), le)
  {
    if s != [] && !le(x, s[0]) {
      InsertSorted(x, s[1..], le);
      var t := Insert(x, s[1..], le);
      forall k | 0 <= k < |t| ensures le(s[0], t[k]) {
        assert t[k] in multiset(s[1..]) + multiset{x};
        if t[k] != x {
          assert t[k] in s[1..];
        }
      }
    }
  }

  lemma {:induction false} SortSorted<T(!new)>(s: seq<T>, le: (T, T) -> bool)
    requires Total(le) && Transitive(le)
    ensures Sorted(InsertionSort(s, le), le)
  {
    if s != [] {
      SortSorted(s[1..], le);
      InsertSorted(s[0], InsertionSort(s[1..], le), le);
    }
  }

  /** The order "`a` may come before `b`" of a descending sort by `key`:
      the comparator `(a, b) => key(b) - key(a)`. */
  function DescBy<T>(key: T -> real): (T, T) -> bool {
    (a: T, b: T) => key(a) >= key(b)
  }

  /** `[...s].sort((a, b) => key(b) - key(a))`: a stable sort, largest key first. */
  function SortDesc<T(!new)>(s: seq<T>, key: T -> real): (r: seq<T>)
    ensures multiset(r) == multiset(s) && |r| == |s|
    ensures forall i, j :: 0 <= i < j < |r| ==> key(r[i]) >= key(r[j])
  {
    var r := InsertionSort(s, DescBy(key));
    assert |r| == |multiset(r)| == |s|;
    assert Total(DescBy(key)) && Transitive(DescBy(key));
    SortSorted(s, DescBy(key));
    r
  }

  /** Larger key first; among equal keys, smaller `id` first. */
  predicate DescThenAsc<T>(s: seq<T>, key: T -> real, id: T -> int) {
    forall i, j :: 0 <= i < j < |s| ==>
      key(s[i]) > key(s[j]) || (key(s[i]) == key(s[j]) && id(s[i]) < id(s[j]))
  }

  lemma {:induction false} InsertTieBreak<T(!new)>(x: T, s: seq<T>, key: T -> real, id: T -> int)
    requires DescThenAsc(s, key, id)
    requires forall k :: 0 <= k < |s| ==> id(x) < id(s[k])
    ensures DescThenAsc(Insert(x, s, DescBy(key)), key, id)
  {
    if s != [] && !DescBy(key)(x, s[0]) {
      InsertTieBreak(x, s[1..], key, id);
      var t := Insert(x, s[1..], DescBy(key));
      forall k | 0 <= k < |t|
        ensures key(s[0]) > key(t[k]) || (key(s[0]) == key(t[k]) && id(s[0]) < id(t[k]))
      {
        assert t[k] in multiset(s[1..]) + multiset{x};
        if t[k] != x {
          assert t[k] in s[1..];
        }
      }
    } else if s != [] {
      forall k | 0 <= k < |s|
        ensures key(x) > key(s[k]) || (key(x) == key(s[k]) && id(x) < id(s[k]))
      {
        assert key(s[0]) >= key(s[k]) by {
          if k > 0 { assert DescThenAsc(s, key, id); }
        }
      }
    }
  }

  /** Sorting, by a stable descending sort, a list whose ids ascend leaves
      equal keys in ascending id order. */
  lemma {:induction false} SortDescTieBreak<T(!new)>(s: seq<T>, key: T -> real, id: T -> int)
    requires forall i, j :: 0 <= i < j < |s| ==> id(s[i]) < id(s[j])
    ensures DescThenAsc(SortDesc(s, key), key, id)
  {
    if s != [] {
      SortDescTieBreak(s[1..], key, id);
      var t := InsertionSort(s[1..], DescBy(key));
      forall k | 0 <= k < |t| ensures id(s[0]) < id(t[k]) {
        assert t[k] in multiset(s[1..]);
        var m :| 0 <= m < |s[1..]| && s[1..][m] == t[k];
        assert s[m + 1] == t[k];
      }
      InsertTieBreak(s[0], t, key, id);
    }
  }

  /** A filtered sorted list is sorted. */
  lemma {:induction false} FilterSorted<T>(s: seq<T>, p: T -> bool, le: (T, T) -> bool)
    requires Sorted(s, le)
    ensures Sorted(Filter(s, p), le)
  {
    if s != [] {
      FilterSorted(s[1..], p, le);
      var t := Filter(s[1..], p);
      forall k | 0 <= k < |t| ensures le(s[0], t[k]) {
        assert t[k] in s[1..];
      }
    }
  }

  /** Drops each element equal to the one after it: `GROUP BY` over a
      sorted list. */
  function Dedupe<T(==)>(s: seq<T>): (r: seq<T>)
    ensures forall i :: 0 <= i < |r| ==> r[i] in s
    ensures forall i :: 0 <= i < |s| ==> s[i] in r
    ensures |s| > 0 ==> |r| > 0 && r[0] == s[0]
  {
    if |s| <= 1 then s
    else if s[0] == s[1] then Dedupe(s[1..])
    else [s[0]] + Dedupe(s[1..])
  }

  lemma {:induction false} DedupeSorted<T(!new)>(s: seq<T>, le: (T, T) -> bool)
    requires Antisymmetric(le) && Sorted(s, le)
    ensures Sorted(Dedupe(s), le)
    ensures forall i, j :: 0 <= i < j < |Dedupe(s)| ==> Dedupe(s)[i] != Dedupe(s)[j]
  {
    if |s| > 1 {
      DedupeSorted(s[1..], le);
      var t := Dedupe(s[1..]);
      if s[0] != s[1] {
        forall k | 0 <= k < |t| ensures le(s[0], t[k]) && s[0] != t[k] {
          assert t[k] in s[1..];
        }
      }
    }
  }

  // The three facts the reduce keeps after the first `n` positions of `s`.

  /** Every id seen maps past its position. */
  ghost predicate SeenRanked<T>(s: seq<T>, id: T -> int, ranks: map<int, nat>, n: nat)
    requires n <= |s|
  {
    forall i :: 0 <= i < n ==> id(s[i]) in ranks && i < ranks[id(s[i])]
  }

  /** Every rank points just past an occurrence of its id. */
  ghost predicate RankOccurs<T>(s: seq<T>, id: T -> int, ranks: map<int, nat>, n: nat)
    requires n <= |s|
  {
    forall c :: c in ranks ==> 1 <= ranks[c] <= n && id(s[ranks[c] - 1]) == c
  }

  /** No id occurs at or after its rank. */
  ghost predicate NoneAfterRank<T>(s: seq<T>, id: T -> int, ranks: map<int, nat>, n: nat)
    requires n <= |s|
  {
    forall c, j :: c in ranks && ranks[c] <= j < n ==> id(s[j]) != c
  }

  lemma SeenStep<T>(s: seq<T>, id: T -> int, ranks: map<int, nat>, n: nat)
    requires n < |s| && SeenRanked(s, id, ranks, n)
    ensures SeenRanked(s, id, ranks[id(s[n]) := n + 1], n + 1)
  {
  }

  lemma OccursStep<T>(s: seq<T>, id: T -> int, ranks: map<int, nat>, n: nat)
    requires n < |s| && RankOccurs(s, id, ranks, n)
    ensures RankOccurs(s, id, ranks[id(s[n]) := n + 1], n + 1)
  {
  }

  lemma NoneAfterStep<T>(s: seq<T>, id: T -> int, ranks: map<int, nat>, n: nat)
    requires n < |s| && NoneAfterRank(s, id, ranks, n) && RankOccurs(s, id, ranks, n)
    ensures NoneAfterRank(s, id, ranks[id(s[n]) := n + 1], n + 1)
  {
  }

  /** `s.reduce((acc, item, idx) => { acc[id(item)] = idx + 1; return acc; }, {})`:
      every id maps to one past the LAST position where it occurs. */
  method RankMap<T>(s: seq<T>, id: T -> int) returns (ranks: map<int, nat>)
    ensures forall i :: 0 <= i < |s| ==> id(s[i]) in ranks && i < ranks[id(s[i])]
    ensures forall c :: c in ranks ==> 1 <= ranks[c] <= |s| && id(s[ranks[c] - 1]) == c
    ensures forall c, j :: c in ranks && ranks[c] <= j < |s| ==> id(s[j]) != c
  {
    ranks := map[];
    var i := 0;
    while i < |s|
      invariant 0 <= i <= |s|
      invariant SeenRanked(s, id, ranks, i)
      invariant RankOccurs(s, id, ranks, i)
      invariant NoneAfterRank(s, id, ranks, i)
    {
      SeenStep(s, id, ranks, i);
      OccursStep(s, id, ranks, i);
      NoneAfterStep(s, id, ranks, i);
      ranks := ranks[id(s[i]) := i + 1];
      i := i + 1;
    }
  }
}
