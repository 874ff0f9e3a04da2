/** The library sort, as far as its callers may rely on it: a sorted rearrangement. */
module Sorting {

  ghost predicate TotalPreorder<T(!new)>(le: (T, T) -> bool) {
    && (forall x, y :: le(x, y) || le(y, x))
    && (forall x, y, z :: le(x, y) && le(y, z) ==> le(x, z))
  }

  ghost predicate Sorted<T>(s: seq<T>, le: (T, T) -> bool) {
    forall i, j | 0 <= i < j < |s| :: le(s[i], s[j])
  }

  function Insert<T(!new)>(x: T, s: seq<T>, le: (T, T) -> bool): (r: seq<T>)
    requires TotalPreorder(le) && Sorted(s, le)
    ensures Sorted(r, le) && multiset(r) == multiset{x} + multiset(s) && |r| == |s| + 1
  {
    if s == [] then [x]
    else if le(x, s[0]) then
      assert forall j | 0 <= j < |s| :: le(x, s[j]);
      [x] + s
    else
      var rest := Insert(x, s[1..], le);
      assert s == [s[0]] + s[1..];
      assert forall j | 0 <= j < |rest| :: le(s[0], rest[j]) by {
        forall j | 0 <= j < |rest| ensures le(s[0], rest[j]) {
          assert rest[j] in multiset(rest);
          assert rest[j] == x || rest[j] in s[1..];
        }
      }
      [s[0]] + rest
  }

  function SortSeq<T(!new)>(s: seq<T>, le: (T, T) -> bool): (r: seq<T>)
    requires TotalPreorder(le)
    ensures Sorted(r, le) && multiset(r) == multiset(s) && |r| == |s|
  {
    if s == [] then []
    else
      assert s == [s[0]] + s[1..];
      Insert(s[0], SortSeq(s[1..], le), le)
  }

  /** sort.Slice and sort.Strings rearrange the slice itself; the order of equivalent
      elements is not specified. */
  method SortInPlace<T(!new)>(a: array<T>, le: (T, T) -> bool)
    requires TotalPreorder(le)
    modifies a
    ensures Sorted(a[..], le) && multiset(a[..]) == multiset(old(a[..]))
  {
    var s := SortSeq(a[..], le);
    for i := 0 to a.Length
      invariant forall j | 0 <= j < i :: a[j] == s[j]
    {
      a[i] := s[i];
    }
    assert a[..] == s;
  }

  /** No two different elements are equivalent in the order. */
  ghost predicate Distinguishes<T(!new)>(le: (T, T) -> bool, s: seq<T>) {
    forall x, y | x in s && y in s && le(x, y) && le(y, x) :: x == y
  }

  lemma SameElements<T>(s: seq<T>, t: seq<T>)
    requires multiset(s) == multiset(t)
    ensures |s| == |t| && forall x :: x in s <==> x in t
  {
    assert |multiset(s)| == |multiset(t)|;
    forall x ensures x in s <==> x in t {
      assert x in multiset(s) <==> x in multiset(t);
    }
  }

  lemma FirstIsLeast<T(!new)>(s: seq<T>, x: T, le: (T, T) -> bool)
    requires TotalPreorder(le) && Sorted(s, le) && x in s
    ensures le(s[0], x)
  {
    assert le(x, x);
  }

  lemma SameRest<T>(s: seq<T>, t: seq<T>)
    requires s != [] && t != [] && s[0] == t[0] && multiset(s) == multiset(t)
    ensures multiset(s[1..]) == multiset(t[1..])
  {
    assert s == [s[0]] + s[1..] && t == [t[0]] + t[1..];
    assert multiset(s[1..]) == multiset(s) - multiset{s[0]};
    assert multiset(t[1..]) == multiset(t) - multiset{t[0]};
  }

  /** Where the order tells all elements apart there is only one sorted arrangement. */
  lemma {:induction false} SortedIsUnique<T(!new)>(s: seq<T>, t: seq<T>, le: (T, T) -> bool)
    requires TotalPreorder(le) && Sorted(s, le) && Sorted(t, le) && multiset(s) == multiset(t) && Distinguishes(le, s)
    ensures s == t
  {
    SameElements(s, t);
    if s != [] {
      assert t[0] in s && s[0] in t by {
        assert t[0] in t && s[0] in s;
      }
      FirstIsLeast(s, t[0], le);
      FirstIsLeast(t, s[0], le);
      assert s[0] == t[0];
      SameRest(s, t);
      assert Distinguishes(le, s[1..]);
      SortedIsUnique(s[1..], t[1..], le);
      assert s == [s[0]] + s[1..] && t == [t[0]] + t[1..];
    }
  }

  /** Two sorted rearrangements, of s and of t, are the same exactly when s and t hold the
      same elements, where the order tells the elements of s apart. */
  lemma SortedForgetsOrder<T(!new)>(s: seq<T>, u: seq<T>, t: seq<T>, v: seq<T>, le: (T, T) -> bool)
    requires TotalPreorder(le) && Distinguishes(le, s)
    requires Sorted(u, le) && multiset(u) == multiset(s) && Sorted(v, le) && multiset(v) == multiset(t)
    ensures u == v <==> multiset(s) == multiset(t)
  {
    if multiset(s) == multiset(t) {
      SameElements(s, u);
      SortedIsUnique(u, v, le);
    }
  }

  lemma Swapped<T>(s: seq<T>, i: nat, j: nat)
    requires i < j < |s|
    ensures multiset(s[i := s[j]][j := s[i]]) == multiset(s)
  {
  }

  lemma SwappedIsSorted<T(!new)>(s: seq<T>, i: nat, j: nat, le: (T, T) -> bool)
    requires TotalPreorder(le) && Sorted(s, le) && i < j < |s| && le(s[j], s[i])
    ensures Sorted(s[i := s[j]][j := s[i]], le)
  {
    var t := s[i := s[j]][j := s[i]];
    forall k | 0 <= k < |s| ensures le(t[k], s[k]) && le(s[k], t[k]) {
      assert le(s[k], s[k]);
    }
    forall a, b | 0 <= a < b < |t| ensures le(t[a], t[b]) {
      assert le(t[a], s[a]) && le(s[a], s[b]);
      assert le(t[a], s[b]) && le(s[b], t[b]);
    }
  }

  lemma IndexOf<T>(s: seq<T>, x: T) returns (i: nat)
    requires x in s
    ensures i < |s| && s[i] == x
  {
    i :| i < |s| && s[i] == x;
  }

  /** Where the order does not tell two elements apart, there are two sorted arrangements. */
  lemma TwoArrangements<T(!new)>(s: seq<T>, le: (T, T) -> bool) returns (u: seq<T>, v: seq<T>)
    requires TotalPreorder(le) && !Distinguishes(le, s)
    ensures u != v && Sorted(u, le) && Sorted(v, le) && multiset(u) == multiset(v) == multiset(s)
  {
    u := SortSeq(s, le);
    var x, y :| x in s && y in s && le(x, y) && le(y, x) && x != y;
    SameElements(s, u);
    var k := IndexOf(u, x);
    var l := IndexOf(u, y);
    var i, j := if k < l then k else l, if k < l then l else k;
    v := u[i := u[j]][j := u[i]];
    Swapped(u, i, j);
    SwappedIsSorted(u, i, j, le);
    assert u[i] != v[i];
  }
}
