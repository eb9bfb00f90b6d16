/** A stable sort by a total preorder, as `sorted` and `list.sort` do it. */
module Sorting {
  import opened Common

  ghost predicate TotalOrder<T(!new)>(le: (T, T) -> bool) {
    && (forall x, y :: le(x, y) || le(y, x))
    && (forall x, y, z :: le(x, y) && le(y, z) ==> le(x, z))
  }

  predicate Sorted<T>(s: seq<T>, le: (T, T) -> bool) {
    forall i, j | 0 <= i < j < |s| :: le(s[i], s[j])
  }

  /** Insert before the first element that is not smaller. */
  function Insert<T>(x: T, s: seq<T>, le: (T, T) -> bool): (r: seq<T>)
    ensures |r| == |s| + 1
  {
    if s == [] || le(x, s[0]) then [x] + s else [s[0]] + Insert(x, s[1..], le)
  }

  function Sort<T>(s: seq<T>, le: (T, T) -> bool): (r: seq<T>)
    ensures |r| == |s|
  {
    if s == [] then [] else Insert(s[0], Sort(s[1..], le), le)
  }

  lemma {:induction false} InsertPermutes<T>(x: T, s: seq<T>, le: (T, T) -> bool)
    ensures multiset(Insert(x, s, le)) == multiset(s) + multiset{x}
  {
    if s == [] || le(x, s[0]) {
    } else {
      InsertPermutes(x, s[1..], le);
      assert s == [s[0]] + s[1..];
    }
  }

  lemma {:induction false} SortPermutes<T>(s: seq<T>, le: (T, T) -> bool)
    ensures multiset(Sort(s, le)) == multiset(s)
  {
    if s != [] {
      SortPermutes(s[1..], le);
      InsertPermutes(s[0], Sort(s[1..], le), le);
      assert s == [s[0]] + s[1..];
    }
  }

  lemma {:induction false} SameMembers<T>(a: seq<T>, b: seq<T>, x: T)
    requires multiset(a) == multiset(b)
    ensures x in a <==> x in b
  {
    assert x in a <==> x in multiset(a);
    assert x in b <==> x in multiset(b);
  }

  lemma {:induction false} InsertMember<T>(x: T, s: seq<T>, le: (T, T) -> bool, y: T)
    requires y in Insert(x, s, le)
    ensures y == x || y in s
  {
    if s == [] || le(x, s[0]) {
    } else if y != s[0] {
      InsertMember(x, s[1..], le, y);
    }
  }

  lemma {:induction false} InsertSorts<T(!new)>(x: T, s: seq<T>, le: (T, T) -> bool)
    requires TotalOrder(le) && Sorted(s, le)
    ensures Sorted(Insert(x, s, le), le)
  {
    var r := Insert(x, s, le);
    if s == [] {
    } else if le(x, s[0]) {
      forall j | 0 <= j < |s| ensures le(x, s[j]) {
        if j > 0 {
          assert le(s[0], s[j]);
        }
      }
    } else {
      var rest := Insert(x, s[1..], le);
      InsertSorts(x, s[1..], le);
      forall j | 0 <= j < |rest| ensures le(s[0], rest[j]) {
        InsertMember(x, s[1..], le, rest[j]);
        if rest[j] == x {
          assert le(x, s[0]) || le(s[0], x);
        }
      }
      assert r == [s[0]] + rest;
    }
  }

  lemma {:induction false} SortSorts<T(!new)>(s: seq<T>, le: (T, T) -> bool)
    requires TotalOrder(le)
    ensures Sorted(Sort(s, le), le)
  {
    if s != [] {
      SortSorts(s[1..], le);
      InsertSorts(s[0], Sort(s[1..], le), le);
    }
  }

  /** Equal elements keep their order: elements that satisfy `p`, all of them equal in the order, are not rearranged. */
  lemma {:induction false} SortIsStable<T(!new)>(s: seq<T>, le: (T, T) -> bool, p: T -> bool)
    requires forall x, y | p(x) && p(y) :: le(x, y)
    ensures Filter(Sort(s, le), p) == Filter(s, p)
  {
    if s != [] {
      SortIsStable(s[1..], le, p);
      InsertIsStable(s[0], Sort(s[1..], le), le, p);
    }
  }

  lemma {:induction false} InsertIsStable<T(!new)>(x: T, s: seq<T>, le: (T, T) -> bool, p: T -> bool)
    requires forall x, y | p(x) && p(y) :: le(x, y)
    ensures Filter(Insert(x, s, le), p) == (if p(x) then [x] else []) + Filter(s, p)
  {
    FilterStep(x, s, p);
    if s == [] || le(x, s[0]) {
    } else {
      var rest := Insert(x, s[1..], le);
      FilterStep(s[0], rest, p);
      InsertIsStable(x, s[1..], le, p);
      FilterStep(s[0], s[1..], p);
      assert s == [s[0]] + s[1..];
      hide Filter;
      assert !(p(x) && p(s[0]));
    }
  }

  lemma {:induction false} SameRest<T>(a: seq<T>, b: seq<T>)
    requires a != [] && b != [] && a[0] == b[0] && multiset(a) == multiset(b)
    ensures multiset(a[1..]) == multiset(b[1..])
  {
    assert a == [a[0]] + a[1..] && b == [b[0]] + b[1..];
    assert multiset(a[1..]) == multiset(a) - multiset{a[0]};
    assert multiset(b[1..]) == multiset(b) - multiset{b[0]};
  }

  lemma {:induction false} SortedRest<T(!new)>(s: seq<T>, le: (T, T) -> bool)
    requires Sorted(s, le) && s != []
    ensures Sorted(s[1..], le) && forall x | x in s[1..] :: x in s
  {
  }

  /** A collection has one sorted arrangement when elements that are equal in the order are equal. */
  lemma {:induction false} SortedUnique<T(!new)>(a: seq<T>, b: seq<T>, le: (T, T) -> bool)
    requires TotalOrder(le) && Sorted(a, le) && Sorted(b, le) && multiset(a) == multiset(b)
    requires forall x, y | x in a && y in a && le(x, y) && le(y, x) :: x == y
    ensures a == b
    decreases a
  {
    assert |multiset(a)| == |a| && |multiset(b)| == |b|;
    if a != [] {
      SameMembers(a, b, a[0]);
      SameMembers(a, b, b[0]);
      FirstIsLeast(a, le, b[0]);
      FirstIsLeast(b, le, a[0]);
      assert a[0] == b[0];
      SameRest(a, b);
      SortedRest(a, le);
      SortedRest(b, le);
      hide Sorted, TotalOrder;
      SortedUnique(a[1..], b[1..], le);
    }
  }

  lemma {:induction false} FirstIsLeast<T(!new)>(s: seq<T>, le: (T, T) -> bool, x: T)
    requires TotalOrder(le) && Sorted(s, le) && x in s
    ensures le(s[0], x)
  {
  }

  // ------------------------------------------------------------------ the first of a sorted list

  /** The first of the least elements, in the list's own order. */
  function Best<T>(s: seq<T>, le: (T, T) -> bool): (r: T)
    requires s != []
    ensures r in s
  {
    if |s| == 1 then s[0] else
    var best := Best(s[1..], le);
    if le(s[0], best) then s[0] else best
  }

  lemma {:induction false} SortPutsBestFirst<T>(s: seq<T>, le: (T, T) -> bool)
    requires s != []
    ensures Sort(s, le)[0] == Best(s, le)
  {
    if |s| > 1 {
      SortPutsBestFirst(s[1..], le);
    }
  }

  /** It is not behind any other, and strictly before those in front of it. */
  lemma {:induction false} BestIsFirstLeast<T(!new)>(s: seq<T>, le: (T, T) -> bool) returns (i: nat)
    requires s != [] && TotalOrder(le)
    ensures i < |s| && s[i] == Best(s, le)
    ensures forall j | 0 <= j < |s| :: le(s[i], s[j])
    ensures forall j | 0 <= j < i :: !le(s[j], s[i])
  {
    if |s| == 1 {
      i := 0;
    } else {
      var k := BestIsFirstLeast(s[1..], le);
      assert s[1..][k] == s[k + 1];
      if le(s[0], s[k + 1]) {
        i := 0;
        forall j | 0 <= j < |s| ensures le(s[0], s[j]) {
          if j > 0 {
            assert s[1..][j - 1] == s[j];
          } else {
            assert le(s[0], s[0]);
          }
        }
      } else {
        i := k + 1;
        forall j | 0 <= j < |s| ensures le(s[i], s[j]) && (j < i ==> !le(s[j], s[i])) {
          if j > 0 {
            assert s[1..][j - 1] == s[j];
          } else {
            assert le(s[0], s[i]) || le(s[i], s[0]);
          }
        }
      }
    }
  }

  /** The best of two lists is the better of their bests, the left one on ties. */
  lemma {:induction false} BestOfAppend<T(!new)>(a: seq<T>, b: seq<T>, le: (T, T) -> bool)
    requires a != [] && b != [] && TotalOrder(le)
    ensures Best(a + b, le) == if le(Best(a, le), Best(b, le)) then Best(a, le) else Best(b, le)
  {
    if |a| == 1 {
      assert (a + b)[1..] == b;
    } else {
      assert (a + b)[1..] == a[1..] + b;
      BestOfAppend(a[1..], b, le);
    }
  }
}
