/** What `sort.Slice` and `sort.Strings` are relied on for: a sorted rearrangement. */
module Sorting {

  ghost predicate TotalPreorder<T(!new)>(le: (T, T) -> bool) {
    && (forall x, y :: le(x, y) || le(y, x))
    && (forall x, y, z :: le(x, y) && le(y, z) ==> le(x, z))
  }

  ghost predicate Sorted<T>(le: (T, T) -> bool, s: seq<T>) {
    forall i, j :: 0 <= i < j < |s| ==> le(s[i], s[j])
  }

  function Insert<T>(le: (T, T) -> bool, x: T, s: seq<T>): seq<T> {
    if s == [] || le(x, s[0]) then [x] + s else [s[0]] + Insert(le, x, s[1..])
  }

  function SortBy<T>(le: (T, T) -> bool, s: seq<T>): seq<T> {
    if s == [] then [] else Insert(le, s[0], SortBy(le, s[1..]))
  }

  lemma {:induction false} InsertElements<T>(le: (T, T) -> bool, x: T, s: seq<T>)
    ensures multiset(Insert(le, x, s)) == multiset(s) + multiset{x}
  {
    if s != [] && !le(x, s[0]) {
      InsertElements(le, x, s[1..]);
      assert s == [s[0]] + s[1..];
    }
  }

  lemma {:induction false} InsertSorted<T(!new)>(le: (T, T) -> bool, x: T, s: seq<T>)
    requires TotalPreorder(le) && Sorted(le, s)
    ensures Sorted(le, Insert(le, x, s))
  {
    if s != [] && !le(x, s[0]) {
      InsertSorted(le, x, s[1..]);
      var rest := Insert(le, x, s[1..]);
      InsertElements(le, x, s[1..]);
      SameElements(rest, s[1..] + [x]);
      forall j | 0 <= j < |rest|
        ensures le(s[0], rest[j])
      {
        assert rest[j] in rest;
      }
    }
  }

  lemma {:induction false} SortElements<T>(le: (T, T) -> bool, s: seq<T>)
    ensures multiset(SortBy(le, s)) == multiset(s)
    ensures |SortBy(le, s)| == |s|
  {
    if s != [] {
      SortElements(le, s[1..]);
      InsertElements(le, s[0], SortBy(le, s[1..]));
      assert s == [s[0]] + s[1..];
    }
    assert |multiset(SortBy(le, s))| == |SortBy(le, s)|;
  }

  /** The result is sorted, and is a rearrangement of the input. */
  lemma {:induction false} SortBySorts<T(!new)>(le: (T, T) -> bool, s: seq<T>)
    requires TotalPreorder(le)
    ensures Sorted(le, SortBy(le, s))
    ensures multiset(SortBy(le, s)) == multiset(s)
    ensures |SortBy(le, s)| == |s|
  {
    SortElements(le, s);
    if s != [] {
      SortBySorts(le, s[1..]);
      InsertSorted(le, s[0], SortBy(le, s[1..]));
    }
  }

  lemma SameElements<T>(s: seq<T>, t: seq<T>)
    requires multiset(s) == multiset(t)
    ensures forall x :: x in s <==> x in t
  {
    assert forall x :: x in s <==> x in multiset(s);
    assert forall x :: x in t <==> x in multiset(t);
  }

  ghost predicate Distinct<T>(s: seq<T>) {
    forall i, j :: 0 <= i < j < |s| ==> s[i] != s[j]
  }

  lemma {:induction false} DistinctByCount<T>(s: seq<T>)
    ensures Distinct(s) ==> forall x :: x in s ==> multiset(s)[x] == 1
    ensures (forall x :: x in s ==> multiset(s)[x] == 1) ==> Distinct(s)
  {
    if s != [] {
      var front, last := s[..|s| - 1], s[|s| - 1];
      DistinctByCount(front);
      assert s == front + [last];
      assert multiset(s) == multiset(front) + multiset{last};
      assert forall x :: x in front <==> multiset(front)[x] > 0;
      if Distinct(s) {
        assert Distinct(front) by {
          assert forall i :: 0 <= i < |front| ==> front[i] == s[i];
        }
        assert last !in front by {
          assert forall i :: 0 <= i < |front| ==> front[i] == s[i] != s[|s| - 1];
        }
      }
      if forall x :: x in s ==> multiset(s)[x] == 1 {
        assert multiset(s)[last] == 1;
        assert last !in front;
        forall x | x in front
          ensures multiset(front)[x] == 1
        {
          assert x in s;
        }
      }
    }
  }

  /** Sorting keeps elements distinct. */
  lemma DistinctKept<T>(s: seq<T>, t: seq<T>)
    requires multiset(s) == multiset(t) && Distinct(s)
    ensures Distinct(t)
  {
    DistinctByCount(s);
    DistinctByCount(t);
    SameElements(s, t);
  }

  ghost predicate Antisymmetric<T>(le: (T, T) -> bool, s: seq<T>) {
    forall x, y :: x in s && y in s && le(x, y) && le(y, x) ==> x == y
  }

  /** Under an order that is antisymmetric on the elements, the sorted rearrangement is
      unique: it does not depend on the order the elements came in. */
  lemma {:induction false} SortedIsUnique<T>(le: (T, T) -> bool, s: seq<T>, t: seq<T>)
    requires Sorted(le, s) && Sorted(le, t) && multiset(s) == multiset(t) && Antisymmetric(le, s)
    ensures s == t
  {
    SameElements(s, t);
    assert |s| == |multiset(s)| == |multiset(t)| == |t|;
    if s != [] {
      SameHead(le, s, t);
      TailElements(s);
      TailElements(t);
      SortedIsUnique(le, s[1..], t[1..]);
    }
  }

  lemma TailElements<T>(s: seq<T>)
    requires s != []
    ensures s == [s[0]] + s[1..] && multiset(s[1..]) == multiset(s) - multiset{s[0]}
  {
    assert s == [s[0]] + s[1..];
  }

  lemma SameHead<T>(le: (T, T) -> bool, s: seq<T>, t: seq<T>)
    requires Sorted(le, s) && Sorted(le, t) && multiset(s) == multiset(t) && Antisymmetric(le, s)
    requires s != [] && t != []
    ensures s[0] == t[0]
  {
    SameElements(s, t);
    assert s[0] in s && t[0] in t;
    var i :| 0 <= i < |t| && t[i] == s[0];
    var j :| 0 <= j < |s| && s[j] == t[0];
  }

  lemma SameListing<T(!new)>(s: seq<T>, t: seq<T>)
    requires Distinct(s) && Distinct(t) && forall x :: x in s <==> x in t
    ensures multiset(s) == multiset(t)
  {
    DistinctByCount(s);
    DistinctByCount(t);
    forall x: T
      ensures multiset(s)[x] == multiset(t)[x]
    {
      assert x in s <==> x in multiset(s);
      assert x in t <==> x in multiset(t);
    }
  }
}
