/**
 * Keeping the first element for each key, in order: what a `seen` Set next to an
 * array push does in the backend parser and in pickRelevantFiles, and what
 * `Array.from(new Set(xs))` does for the help page's category list.
 */
module Dedup {

  /** The elements of `s` whose key is neither in `seen` nor the key of an earlier element. */
  function DedupFrom<T, K(==)>(s: seq<T>, key: T -> K, seen: set<K>): (r: seq<T>)
    ensures |r| <= |s|
    ensures forall i :: 0 <= i < |r| ==> r[i] in s && key(r[i]) !in seen
    ensures forall i, j :: 0 <= i < j < |r| ==> key(r[i]) != key(r[j])
    decreases |s|
  {
    if s == [] then []
    else if key(s[0]) in seen then DedupFrom(s[1..], key, seen)
    else [s[0]] + DedupFrom(s[1..], key, seen + {key(s[0])})
  }

  /** Index of the first element of `s` with key `k`, or `|s|`. */
  function FirstIndexWithKey<T, K(==)>(s: seq<T>, key: T -> K, k: K): (i: nat)
    ensures i <= |s|
    ensures i < |s| ==> key(s[i]) == k
  {
    if s == [] then 0 else if key(s[0]) == k then 0 else 1 + FirstIndexWithKey(s[1..], key, k)
  }

  /** No element before the index found has key `k`. */
  lemma {:induction false} FirstIndexWithKeyFirst<T, K>(s: seq<T>, key: T -> K, k: K)
    ensures forall j :: 0 <= j < FirstIndexWithKey(s, key, k) ==> key(s[j]) != k
  {
    if s != [] && key(s[0]) != k {
      FirstIndexWithKeyFirst(s[1..], key, k);
      assert forall j :: 1 <= j < |s| ==> s[j] == s[1..][j - 1];
    }
  }

  /** No key is lost: every key of `s` outside `seen` is the key of some kept element. */
  lemma {:induction false} DedupKeepsEveryKey<T, K>(s: seq<T>, key: T -> K, seen: set<K>, x: T)
    requires x in s && key(x) !in seen
    ensures exists y :: y in DedupFrom(s, key, seen) && key(y) == key(x)
    decreases |s|
  {
    var r := DedupFrom(s, key, seen);
    if x == s[0] {
      assert r[0] == x;
    } else if key(s[0]) in seen {
      DedupKeepsEveryKey(s[1..], key, seen, x);
    } else if key(s[0]) == key(x) {
      assert r[0] == s[0];
    } else {
      DedupKeepsEveryKey(s[1..], key, seen + {key(s[0])}, x);
      var y :| y in DedupFrom(s[1..], key, seen + {key(s[0])}) && key(y) == key(x);
      assert y in r;
    }
  }

  /** The first element wins: the kept element for a key is the first element of `s` with that key. */
  lemma {:induction false} DedupKeepsFirst<T, K>(s: seq<T>, key: T -> K, seen: set<K>, y: T)
    requires y in DedupFrom(s, key, seen)
    ensures FirstIndexWithKey(s, key, key(y)) < |s|
    ensures s[FirstIndexWithKey(s, key, key(y))] == y
    decreases |s|
  {
    var r := DedupFrom(s, key, seen);
    if key(s[0]) in seen {
      DedupKeepsFirst(s[1..], key, seen, y);
    } else if y == s[0] {
    } else {
      var rest := DedupFrom(s[1..], key, seen + {key(s[0])});
      assert y in rest;
      DedupKeepsFirst(s[1..], key, seen + {key(s[0])}, y);
    }
  }

  /** Kept elements appear in the order of their keys' first occurrences in `s`. */
  lemma {:induction false} DedupKeepsOrder<T, K>(s: seq<T>, key: T -> K, seen: set<K>, i: nat, j: nat)
    requires i < j < |DedupFrom(s, key, seen)|
    ensures var r := DedupFrom(s, key, seen);
      FirstIndexWithKey(s, key, key(r[i])) < FirstIndexWithKey(s, key, key(r[j]))
    decreases |s|
  {
    var r := DedupFrom(s, key, seen);
    var ki, kj := key(r[i]), key(r[j]);
    if key(s[0]) in seen {
      assert r == DedupFrom(s[1..], key, seen);
      DedupKeepsOrder(s[1..], key, seen, i, j);
      assert FirstIndexWithKey(s, key, ki) == 1 + FirstIndexWithKey(s[1..], key, ki);
      assert FirstIndexWithKey(s, key, kj) == 1 + FirstIndexWithKey(s[1..], key, kj);
    } else {
      var seen' := seen + {key(s[0])};
      var rest := DedupFrom(s[1..], key, seen');
      assert r == [s[0]] + rest;
      assert r[j] == rest[j - 1];
      assert kj != key(s[0]);
      assert FirstIndexWithKey(s, key, kj) == 1 + FirstIndexWithKey(s[1..], key, kj);
      if i == 0 {
        assert FirstIndexWithKey(s, key, ki) == 0;
      } else {
        assert r[i] == rest[i - 1];
        assert ki != key(s[0]);
        DedupKeepsOrder(s[1..], key, seen', i - 1, j - 1);
        assert FirstIndexWithKey(s, key, ki) == 1 + FirstIndexWithKey(s[1..], key, ki);
      }
    }
  }

  /** One step of the `seen`-set loop: the next element is skipped or kept, and its key recorded. */
  lemma DedupCons<T, K>(x: T, rest: seq<T>, key: T -> K, seen: set<K>)
    ensures DedupFrom([x] + rest, key, seen)
         == if key(x) in seen then DedupFrom(rest, key, seen) else [x] + DedupFrom(rest, key, seen + {key(x)})
  {
    assert ([x] + rest)[0] == x;
    assert ([x] + rest)[1..] == rest;
  }

  lemma AppendAssoc<T>(a: seq<T>, b: seq<T>, c: seq<T>)
    ensures a + (b + c) == (a + b) + c
  {
  }
}
