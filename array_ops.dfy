/** The two array operations every queue transition is built from:
    element-wise map and order-keeping filter. */
module ArrayOps {

  /** Apply f to every element, keeping length and order. */
  function Map<T>(s: seq<T>, f: T -> T): (r: seq<T>)
    ensures |r| == |s|
    ensures forall i :: 0 <= i < |s| ==> r[i] == f(s[i])
  {
    seq(|s|, i requires 0 <= i < |s| => f(s[i]))
  }

  /** The elements of s that satisfy keep, in their original order. */
  function Filter<T(==,!new)>(s: seq<T>, keep: T -> bool): (r: seq<T>)
    ensures |r| <= |s|
    ensures forall x :: x in r <==> x in s && keep(x)
  {
    if s == [] then []
    else if keep(s[0]) then [s[0]] + Filter(s[1..], keep)
    else Filter(s[1..], keep)
  }

  /** Filtering a concatenation filters each part separately, so no kept
      element moves past another. */
  lemma {:induction false} FilterConcat<T(!new)>(a: seq<T>, b: seq<T>, keep: T -> bool)
    ensures Filter(a + b, keep) == Filter(a, keep) + Filter(b, keep)
  {
    if a == [] {
      assert a + b == b;
    } else {
      assert (a + b)[0] == a[0];
      assert (a + b)[1..] == a[1..] + b;
      FilterConcat(a[1..], b, keep);
    }
  }

  /** Filtering a non-empty sequence decides its first element and filters the rest. */
  lemma FilterHead<T(!new)>(s: seq<T>, keep: T -> bool)
    requires s != []
    ensures Filter(s, keep) == (if keep(s[0]) then [s[0]] else []) + Filter(s[1..], keep)
  {
  }

  /** The element at position i is kept exactly when it satisfies keep, and
      sits between what is kept before it and what is kept after it. */
  lemma FilterAt<T(!new)>(s: seq<T>, i: nat, keep: T -> bool)
    requires i < |s|
    ensures Filter(s, keep)
         == Filter(s[..i], keep) + (if keep(s[i]) then [s[i]] else []) + Filter(s[i + 1..], keep)
  {
    assert s == s[..i] + s[i..];
    assert s[i..][0] == s[i] && s[i..][1..] == s[i + 1..];
    FilterAround(s[..i], s[i..], keep);
  }

  /** Filtering a + t, for a non-empty t, around the first element of t. */
  lemma FilterAround<T(!new)>(a: seq<T>, t: seq<T>, keep: T -> bool)
    requires t != []
    ensures Filter(a + t, keep)
         == Filter(a, keep) + (if keep(t[0]) then [t[0]] else []) + Filter(t[1..], keep)
  {
    FilterConcat(a, t, keep);
    FilterHead(t, keep);
  }

  /** Filtering drops nothing when every element is kept. */
  lemma {:induction false} FilterKeepsAll<T(!new)>(s: seq<T>, keep: T -> bool)
    requires forall x :: x in s ==> keep(x)
    ensures Filter(s, keep) == s
  {
    if s != [] {
      assert forall x :: x in s[1..] ==> x in s;
      FilterKeepsAll(s[1..], keep);
    }
  }

  /** Filtering drops everything when no element is kept. */
  lemma {:induction false} FilterKeepsNone<T(!new)>(s: seq<T>, keep: T -> bool)
    requires forall x :: x in s ==> !keep(x)
    ensures Filter(s, keep) == []
  {
    if s != [] {
      assert forall x :: x in s[1..] ==> x in s;
      FilterKeepsNone(s[1..], keep);
    }
  }

  /** A filter applied twice is the filter applied once. */
  lemma FilterIdempotent<T(!new)>(s: seq<T>, keep: T -> bool)
    ensures Filter(Filter(s, keep), keep) == Filter(s, keep)
  {
  }

  /** A filter and its complement split the elements between them. */
  lemma {:induction false} FilterPartition<T(!new)>(s: seq<T>, keep: T -> bool, drop: T -> bool)
    requires forall x :: drop(x) == !keep(x)
    ensures |Filter(s, keep)| + |Filter(s, drop)| == |s|
  {
    if s != [] {
      FilterPartition(s[1..], keep, drop);
    }
  }
}
