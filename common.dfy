/** Small shared vocabulary: an optional value and order-preserving
    sequence filters and maps, with the facts about permutations that the
    SQL reads and the client code need. */
module Common {

  /** A JSON field that may be absent (`undefined`). */
  datatype Option<T> = None | Some(value: T) {
    function GetOr(default: T): T {
      match this
      case Some(v) => v
      case None => default
    }
  }

  /** Some element of a non-empty set: the next key a `for ... in` loop visits. */
  method Pick<T>(s: set<T>) returns (x: T)
    requires s != {}
    ensures x in s
  {
    x :| x in s;
  }

  /** Keeps, in order, the elements that satisfy `p`. */
  function Filter<T>(s: seq<T>, p: T -> bool): (r: seq<T>)
    ensures |r| <= |s|
    ensures forall i :: 0 <= i < |r| ==> r[i] in s && p(r[i])
    ensures forall i :: 0 <= i < |s| && p(s[i]) ==> s[i] in r
  {
    if s == [] then [] else (if p(s[0]) then [s[0]] else []) + Filter(s[1..], p)
  }

  /** Applies `f` to every element, in order. */
  function MapSeq<T, U>(s: seq<T>, f: T -> U): (r: seq<U>)
    ensures |r| == |s|
    ensures forall i :: 0 <= i < |s| ==> r[i] == f(s[i])
  {
    seq(|s|, i requires 0 <= i < |s| => f(s[i]))
  }

  lemma {:induction false} FilterAppend<T>(a: seq<T>, b: seq<T>, p: T -> bool)
    ensures Filter(a + b, p) == Filter(a, p) + Filter(b, p)
  {
    if a == [] {
      assert a + b == b;
    } else {
      assert (a + b)[1..] == a[1..] + b;
      FilterAppend(a[1..], b, p);
    }
  }

  /** How often each value occurs in a filtered sequence. */
  lemma {:induction false} FilterCount<T>(s: seq<T>, p: T -> bool, x: T)
    ensures multiset(Filter(s, p))[x] == if p(x) then multiset(s)[x] else 0
  {
    if s != [] {
      FilterCount(s[1..], p, x);
      assert s == [s[0]] + s[1..];
    }
  }

  /** Filtering two permutations of each other gives permutations of each other. */
  lemma FilterPerm<T>(s: seq<T>, t: seq<T>, p: T -> bool)
    requires multiset(s) == multiset(t)
    ensures multiset(Filter(s, p)) == multiset(Filter(t, p))
  {
    forall x ensures multiset(Filter(s, p))[x] == multiset(Filter(t, p))[x] {
      FilterCount(s, p, x);
      FilterCount(t, p, x);
    }
  }

  lemma MapAppend<T, U>(a: seq<T>, b: seq<T>, f: T -> U)
    ensures MapSeq(a + b, f) == MapSeq(a, f) + MapSeq(b, f)
  {
  }

  /** Taking one element out of a sequence takes its image out of the mapped sequence. */
  lemma MapRemove<T, U>(t: seq<T>, i: nat, f: T -> U)
    requires i < |t|
    ensures multiset(MapSeq(t, f)) == multiset{f(t[i])} + multiset(MapSeq(t[..i] + t[i+1..], f))
  {
    assert t == t[..i] + [t[i]] + t[i+1..];
    MapAppend(t[..i] + [t[i]], t[i+1..], f);
    MapAppend(t[..i], [t[i]], f);
    MapAppend(t[..i], t[i+1..], f);
  }

  /** Taking the first element out of `s` and the same value out of `t`
      keeps them permutations of each other. */
  lemma RemovePerm<T>(s: seq<T>, t: seq<T>, i: nat)
    requires multiset(s) == multiset(t) && s != [] && i < |t| && t[i] == s[0]
    ensures multiset(s[1..]) == multiset(t[..i] + t[i+1..])
  {
    assert t == t[..i] + [t[i]] + t[i+1..];
    assert s == [s[0]] + s[1..];
    calc {
      multiset(s[1..]);
      multiset(s) - multiset{s[0]};
      multiset(t) - multiset{t[i]};
      multiset(t[..i] + t[i+1..]);
    }
  }

  /** The first position of `x` in `t`. */
  ghost function IndexOf<T>(t: seq<T>, x: T): (i: nat)
    requires x in t
    ensures i < |t| && t[i] == x
  {
    if t[0] == x then 0 else 1 + IndexOf(t[1..], x)
  }

  /** Mapping two permutations of each other gives permutations of each other. */
  lemma {:induction false} MapPerm<T, U>(s: seq<T>, t: seq<T>, f: T -> U)
    requires multiset(s) == multiset(t)
    ensures multiset(MapSeq(s, f)) == multiset(MapSeq(t, f))
    decreases |s|
  {
    if s != [] {
      assert s[0] in multiset(t);
      var i := IndexOf(t, s[0]);
      var s', t' := s[1..], t[..i] + t[i+1..];
      RemovePerm(s, t, i);
      assert s[..0] + s[1..] == s';
      calc {
        multiset(MapSeq(s, f));
        { MapRemove(s, 0, f); }
        multiset{f(s[0])} + multiset(MapSeq(s', f));
        { MapPerm(s', t', f); }
        multiset{f(t[i])} + multiset(MapSeq(t', f));
        { MapRemove(t, i, f); }
        multiset(MapSeq(t, f));
      }
    }
  }
}
