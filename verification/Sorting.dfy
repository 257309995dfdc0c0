// Stable insertion sort by a total preorder, standing in for sorted() and list.sort().
module Sorting {
  import opened Common

  ghost predicate TotalOrder<T(!new)>(le: (T, T) -> bool) {
    && (forall x, y :: le(x, y) || le(y, x))
    && (forall x, y, z :: le(x, y) && le(y, z) ==> le(x, z))
  }

  ghost predicate SortedBy<T>(le: (T, T) -> bool, s: seq<T>) {
    forall i, j :: 0 <= i < j < |s| ==> le(s[i], s[j])
  }

  // The same elements, none lost, added or repeated.
  ghost predicate Rearranged<T(!new)>(s: seq<T>, r: seq<T>) {
    && |r| == |s| && multiset(r) == multiset(s)
    && (forall x :: x in r <==> x in s)
    && (Distinct(s) ==> Distinct(r))
  }

  function Inserted<T>(s: seq<T>, i: nat, x: T): (r: seq<T>)
    requires i <= |s|
    ensures |r| == |s| + 1
    ensures forall j :: 0 <= j < |r| ==> r[j] == if j < i then s[j] else if j == i then x else s[j - 1]
  {
    s[..i] + [x] + s[i..]
  }

  lemma InsertedSame<T(!new)>(s: seq<T>, i: nat, x: T)
    requires i <= |s|
    ensures multiset(Inserted(s, i, x)) == multiset(s) + multiset{x}
    ensures forall y :: y in Inserted(s, i, x) <==> y == x || y in s
  {
    assert s == s[..i] + s[i..];
  }

  lemma InsertedSorted<T(!new)>(le: (T, T) -> bool, s: seq<T>, i: nat, x: T)
    requires TotalOrder(le) && SortedBy(le, s) && i <= |s|
    requires i > 0 ==> le(s[i - 1], x)
    requires forall j :: i <= j < |s| ==> le(x, s[j])
    ensures SortedBy(le, Inserted(s, i, x))
  {
    forall j | 0 <= j < i ensures le(s[j], x) {
      if j < i - 1 { assert le(s[j], s[i - 1]); }
    }
  }

  // Walk down from the end to the place of x.
  method Insert<T(!new)>(le: (T, T) -> bool, s: seq<T>, x: T) returns (r: seq<T>)
    requires TotalOrder(le) && SortedBy(le, s)
    ensures SortedBy(le, r) && |r| == |s| + 1 && multiset(r) == multiset(s) + multiset{x}
    ensures forall y :: y in r <==> y == x || y in s
    ensures Distinct(s) && x !in s ==> Distinct(r)
  {
    var i := |s|;
    while i > 0 && !le(s[i - 1], x)
      invariant 0 <= i <= |s|
      invariant forall j :: i <= j < |s| ==> le(x, s[j])
    {
      i := i - 1;
    }
    InsertedSorted(le, s, i, x);
    InsertedSame(s, i, x);
    r := Inserted(s, i, x);
  }

  method Sort<T(!new)>(le: (T, T) -> bool, s: seq<T>) returns (r: seq<T>)
    requires TotalOrder(le)
    ensures SortedBy(le, r) && Rearranged(s, r)
  {
    r := [];
    assert s[..0] == [];
    for i := 0 to |s|
      invariant SortedBy(le, r) && |r| == i && multiset(r) == multiset(s[..i])
      invariant forall x :: x in r <==> x in s[..i]
      invariant Distinct(s[..i]) ==> Distinct(r)
    {
      assert s[..i + 1] == s[..i] + [s[i]];
      assert Distinct(s[..i + 1]) ==> s[i] !in s[..i] && Distinct(s[..i]) by {
        if Distinct(s[..i + 1]) {
          assert forall j :: 0 <= j < i ==> s[..i + 1][j] == s[..i][j];
        }
      }
      r := Insert(le, r, s[i]);
    }
    assert s[..|s|] == s;
  }
}
