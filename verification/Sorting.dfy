/** What the library sorts (`sort.Sort`, `slices.Sort`, `tss.SortPartyIDs`) are relied on
    for: the result is a sorted permutation. Nothing is said about the order of ties. */
module Sorting {

  ghost predicate TotalPreorder<T(!new)>(le: (T, T) -> bool) {
    && (forall a, b :: le(a, b) || le(b, a))
    && (forall a, b, c :: le(a, b) && le(b, c) ==> le(a, c))
  }

  ghost predicate Sorted<T>(le: (T, T) -> bool, s: seq<T>) {
    forall i, j | 0 <= i < j < |s| :: le(s[i], s[j])
  }

  ghost predicate SortedPermutation<T(!new)>(le: (T, T) -> bool, s: seq<T>, out: seq<T>) {
    Sorted(le, out) && multiset(out) == multiset(s)
  }

  /** No two distinct elements of `s` tie. */
  ghost predicate NoTies<T>(le: (T, T) -> bool, s: seq<T>) {
    forall x, y | x in s && y in s && le(x, y) && le(y, x) :: x == y
  }

  lemma PrependLeast<T>(le: (T, T) -> bool, x: T, rest: seq<T>)
    requires Sorted(le, rest) && forall y | y in rest :: le(x, y)
    ensures Sorted(le, [x] + rest)
  {
    forall i, j | 0 <= i < j < |[x] + rest| ensures le(([x] + rest)[i], ([x] + rest)[j]) {
      if i > 0 { assert le(rest[i - 1], rest[j - 1]); }
    }
  }

  lemma AppendGreatest<T>(le: (T, T) -> bool, s: seq<T>, x: T)
    requires Sorted(le, s) && forall y | y in s :: le(y, x)
    ensures Sorted(le, s + [x])
  {}

  function Insert<T(!new)>(le: (T, T) -> bool, x: T, s: seq<T>): (out: seq<T>)
    requires TotalPreorder(le) && Sorted(le, s)
    ensures SortedPermutation(le, [x] + s, out)
  {
    if s == [] then [x]
    else if le(x, s[0]) then
      [x] + s
    else
      var rest := Insert(le, x, s[1..]);
      InsertStep(le, x, s, rest);
      [s[0]] + rest
  }

  lemma InsertStep<T(!new)>(le: (T, T) -> bool, x: T, s: seq<T>, rest: seq<T>)
    requires TotalPreorder(le) && Sorted(le, s) && s != [] && !le(x, s[0])
    requires SortedPermutation(le, [x] + s[1..], rest)
    ensures SortedPermutation(le, [x] + s, [s[0]] + rest)
  {
    assert s == [s[0]] + s[1..];
    forall y | y in rest ensures le(s[0], y) {
      assert y in multiset([x] + s[1..]);
    }
  }

  /** A stand-in for the library sort: one particular sorted permutation. */
  function Sort<T(!new)>(le: (T, T) -> bool, s: seq<T>): (out: seq<T>)
    requires TotalPreorder(le)
    ensures SortedPermutation(le, s, out)
  {
    if s == [] then []
    else
      assert s == [s[0]] + s[1..];
      Insert(le, s[0], Sort(le, s[1..]))
  }

  method SortInPlace<T(!new)>(ghost le: (T, T) -> bool, sorter: seq<T> -> seq<T>, a: array<T>)
    requires forall s :: SortedPermutation(le, s, sorter(s))
    modifies a
    ensures SortedPermutation(le, old(a[..]), a[..])
  {
    var s := sorter(a[..]);
    assert |s| == |multiset(s)| == |multiset(a[..])| == a.Length;
    for i := 0 to a.Length
      invariant a[..i] == s[..i]
    {
      a[i] := s[i];
    }
    assert a[..] == s;
  }

  /** Sorting erases order: lists with the same elements sort to the same list when no two
      distinct elements tie. */
  lemma {:induction false} SortedUnique<T(!new)>(le: (T, T) -> bool, a: seq<T>, b: seq<T>)
    requires Sorted(le, a) && Sorted(le, b) && multiset(a) == multiset(b)
    requires TotalPreorder(le) && NoTies(le, a)
    ensures a == b
  {
    assert |a| == |multiset(a)| == |multiset(b)| == |b|;
    if a != [] {
      SameHead(le, a, b);
      Tail(a);
      Tail(b);
      SortedUnique(le, a[1..], b[1..]);
    }
  }

  lemma Tail<T>(s: seq<T>)
    requires s != []
    ensures s == [s[0]] + s[1..] && multiset(s[1..]) == multiset(s) - multiset{s[0]}
  {
    assert s == [s[0]] + s[1..];
    assert multiset(s) == multiset{s[0]} + multiset(s[1..]);
  }

  lemma SameHead<T(!new)>(le: (T, T) -> bool, a: seq<T>, b: seq<T>)
    requires Sorted(le, a) && Sorted(le, b) && multiset(a) == multiset(b) && a != [] && b != []
    requires TotalPreorder(le) && NoTies(le, a)
    ensures a[0] == b[0]
  {
    assert a[0] in multiset(b) && b[0] in multiset(a);
  }
}
