/**
 * A stable sort by a comparator, as `Array.prototype.sort` is required to be.
 * A comparator `cmp(a, b)` returning a number is represented by the relation
 * `le(a, b)` meaning "`cmp(a, b) <= 0`": `a` may stay before `b`.
 */
module Sorting {

  import Dedup

  /** Every two elements are comparable. */
  ghost predicate Total<T(!new)>(le: (T, T) -> bool) {
    forall a, b :: le(a, b) || le(b, a)
  }

  ghost predicate Transitive<T(!new)>(le: (T, T) -> bool) {
    forall a, b, c :: le(a, b) && le(b, c) ==> le(a, c)
  }

  /** A comparator that orders consistently: a total preorder. */
  ghost predicate Preorder<T(!new)>(le: (T, T) -> bool) {
    Total(le) && Transitive(le)
  }

  predicate Sorted<T>(s: seq<T>, le: (T, T) -> bool) {
    forall i, j :: 0 <= i < j < |s| ==> le(s[i], s[j])
  }

  /** `x` placed after the leading run of elements that may precede it. */
  function Insert<T>(x: T, s: seq<T>, le: (T, T) -> bool): (r: seq<T>)
    ensures multiset(r) == multiset(s) + multiset{x}
    ensures |r| == |s| + 1
  {
    if s == [] then [x]
    else if le(s[0], x) then
      assert s == [s[0]] + s[1..];
      [s[0]] + Insert(x, s[1..], le)
    else [x] + s
  }

  /** Insertion sort: the last element is inserted into the sorted rest. */
  function Sort<T>(s: seq<T>, le: (T, T) -> bool): (r: seq<T>)
    ensures multiset(r) == multiset(s)
    ensures |r| == |s|
  {
    if s == [] then []
    else
      assert s == s[..|s| - 1] + [s[|s| - 1]];
      Insert(s[|s| - 1], Sort(s[..|s| - 1], le), le)
  }

  lemma {:induction false} InsertSorted<T(!new)>(x: T, s: seq<T>, le: (T, T) -> bool)
    requires Preorder(le) && Sorted(s, le)
    ensures Sorted(Insert(x, s, le), le)
  {
    if s != [] && le(s[0], x) {
      InsertSorted(x, s[1..], le);
      var r := Insert(x, s, le);
      var t := Insert(x, s[1..], le);
      assert r == [s[0]] + t;
      forall k | 0 <= k < |t| ensures le(s[0], t[k]) {
        assert t[k] in multiset(t);
        assert t[k] == x || t[k] in multiset(s[1..]);
        if t[k] != x {
          assert t[k] in s[1..];
        }
      }
    }
  }

  /** The sort orders its result by `le`. */
  lemma {:induction false} SortSorted<T(!new)>(s: seq<T>, le: (T, T) -> bool)
    requires Preorder(le)
    ensures Sorted(Sort(s, le), le)
  {
    if s != [] {
      SortSorted(s[..|s| - 1], le);
      InsertSorted(s[|s| - 1], Sort(s[..|s| - 1], le), le);
    }
  }

  /** An element that every element of `s` may precede goes to the end. */
  lemma {:induction false} InsertAtEnd<T>(x: T, s: seq<T>, le: (T, T) -> bool)
    requires forall k :: 0 <= k < |s| ==> le(s[k], x)
    ensures Insert(x, s, le) == s + [x]
  {
    if s != [] {
      InsertAtEnd(x, s[1..], le);
      assert s == [s[0]] + s[1..];
    }
  }

  /** Sorting what is already sorted changes nothing. */
  lemma {:induction false} SortOfSorted<T>(s: seq<T>, le: (T, T) -> bool)
    requires Sorted(s, le)
    ensures Sort(s, le) == s
  {
    if s != [] {
      var init, last := s[..|s| - 1], s[|s| - 1];
      SortedInit(s, le);
      SortOfSorted(init, le);
      forall k | 0 <= k < |init| ensures le(init[k], last) {
        assert init[k] == s[k];
      }
      InsertAtEnd(last, init, le);
      assert s == init + [last];
    }
  }

  lemma SortedInit<T>(s: seq<T>, le: (T, T) -> bool)
    requires Sorted(s, le) && s != []
    ensures Sorted(s[..|s| - 1], le)
  {
    var init := s[..|s| - 1];
    forall i, j | 0 <= i < j < |init| ensures le(init[i], init[j]) {
      assert init[i] == s[i] && init[j] == s[j];
    }
  }

  /** The elements of `s` satisfying `p`, in order. */
  function Filter<T>(s: seq<T>, p: T -> bool): (r: seq<T>)
    ensures |r| <= |s|
    ensures forall k :: 0 <= k < |r| ==> p(r[k]) && r[k] in s
  {
    if s == [] then [] else (if p(s[0]) then [s[0]] else []) + Filter(s[1..], p)
  }

  /** Filtering keeps exactly the elements that satisfy `p`. */
  lemma {:induction false} FilterIn<T>(s: seq<T>, p: T -> bool, x: T)
    ensures x in Filter(s, p) <==> x in s && p(x)
  {
    if s != [] {
      FilterIn(s[1..], p, x);
      assert s == [s[0]] + s[1..];
    }
  }

  /** When every element satisfies `p`, nothing is dropped. */
  lemma {:induction false} FilterAll<T>(s: seq<T>, p: T -> bool)
    requires forall k :: 0 <= k < |s| ==> p(s[k])
    ensures Filter(s, p) == s
  {
    if s != [] {
      FilterAll(s[1..], p);
      assert s == [s[0]] + s[1..];
    }
  }

  lemma {:induction false} FilterAppend<T>(a: seq<T>, b: seq<T>, p: T -> bool)
    ensures Filter(a + b, p) == Filter(a, p) + Filter(b, p)
  {
    if a == [] {
      assert a + b == b;
    } else {
      assert (a + b)[0] == a[0];
      assert (a + b)[1..] == a[1..] + b;
      FilterAppend(a[1..], b, p);
    }
  }

  /** Elements that may each precede the other: the comparator returns 0 for them. */
  ghost predicate Tied<T>(le: (T, T) -> bool, a: T, b: T) {
    le(a, b) && le(b, a)
  }

  lemma FilterCons<T>(x: T, t: seq<T>, p: T -> bool)
    ensures Filter([x] + t, p) == (if p(x) then [x] else []) + Filter(t, p)
  {
    assert ([x] + t)[0] == x;
    assert ([x] + t)[1..] == t;
  }

  lemma {:induction false} InsertTied<T(!new)>(x: T, s: seq<T>, le: (T, T) -> bool, c: T)
    requires Preorder(le) && Sorted(s, le)
    ensures Filter(Insert(x, s, le), y => Tied(le, y, c))
         == Filter(s, y => Tied(le, y, c)) + (if Tied(le, x, c) then [x] else [])
  {
    var p := y => Tied(le, y, c);
    if s == [] {
      assert Insert(x, s, le) == [x] + [];
      FilterCons(x, [], p);
    } else if le(s[0], x) {
      assert Sorted(s[1..], le);
      InsertTied(x, s[1..], le, c);
      assert Insert(x, s, le) == [s[0]] + Insert(x, s[1..], le);
      FilterCons(s[0], Insert(x, s[1..], le), p);
      assert s == [s[0]] + s[1..];
      FilterCons(s[0], s[1..], p);
      var a, t, e := (if p(s[0]) then [s[0]] else []), Filter(s[1..], p), (if p(x) then [x] else []);
      assert Filter(Insert(x, s, le), p) == a + (t + e);
      Dedup.AppendAssoc(a, t, e);
    } else {
      assert Insert(x, s, le) == [x] + s;
      FilterCons(x, s, p);
      if Filter(s, p) != [] {
        TiedBeforeFirst(x, s, le, c);
        assert Filter(Insert(x, s, le), p) == Filter(s, p);
      } else {
        assert Filter(Insert(x, s, le), p) == (if p(x) then [x] else []);
      }
    }
  }

  /** When `x` must precede the first element of a sorted `s` and some element of `s` is tied
      with `c`, then `x` is not: it sorts strictly before all of `s`. */
  lemma TiedBeforeFirst<T(!new)>(x: T, s: seq<T>, le: (T, T) -> bool, c: T)
    requires Preorder(le) && Sorted(s, le) && s != [] && !le(s[0], x)
    requires Filter(s, y => Tied(le, y, c)) != []
    ensures !Tied(le, x, c)
  {
    var y := Filter(s, y => Tied(le, y, c))[0];
    var k :| 0 <= k < |s| && s[k] == y;
    assert le(s[0], y) by {
      if k == 0 {
        assert le(y, y) || le(y, y);
      }
    }
    LeTrans(le, s[0], y, c);
    LeNotAfter(le, s[0], c, x);
  }

  lemma LeTrans<T(!new)>(le: (T, T) -> bool, a: T, b: T, c: T)
    requires Transitive(le) && le(a, b) && le(b, c)
    ensures le(a, c)
  {
  }

  /** If `a` may precede `b` but not `c`, then `b` may not precede `c`. */
  lemma LeNotAfter<T(!new)>(le: (T, T) -> bool, a: T, b: T, c: T)
    requires Transitive(le) && le(a, b) && !le(a, c)
    ensures !le(b, c)
  {
  }

  /** Stability: the elements tied with any given `c` keep their original relative order. */
  lemma {:induction false} SortStable<T(!new)>(s: seq<T>, le: (T, T) -> bool, c: T)
    requires Preorder(le)
    ensures Filter(Sort(s, le), y => Tied(le, y, c)) == Filter(s, y => Tied(le, y, c))
  {
    if s != [] {
      var p := y => Tied(le, y, c);
      var init, last := s[..|s| - 1], s[|s| - 1];
      assert s == init + [last];
      var t := Sort(init, le);
      assert Sort(s, le) == Insert(last, t, le);
      SortStable(init, le, c);
      SortSorted(init, le);
      InsertTied(last, t, le, c);
      assert Filter(Sort(s, le), p) == Filter(init, p) + (if p(last) then [last] else []);
      FilterAppend(init, [last], p);
      assert Filter([last], p) == (if p(last) then [last] else []);
    }
  }
}
