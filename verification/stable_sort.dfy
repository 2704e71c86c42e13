/**
 * `Array.prototype.sort` with a comparator. Since ECMAScript 2019 the sort
 * is required to be stable, so for a consistent comparator its result is
 * fully determined: the elements in comparator order, elements the
 * comparator calls equal kept in their original order. `SortBy` is that
 * result, written as an insertion sort; the lemmas show it is sorted, a
 * permutation of its input and stable.
 */
module StableSort {
  import opened JsBuiltins

  /**
   * A consistent comparator: the sign flips when the arguments are swapped,
   * and "not after" is transitive. (Reflexivity and the transitivity of
   * "equal" follow; see `EquivalentTransitive`.)
   */
  ghost predicate Consistent<T(!new)>(cmp: (T, T) -> int) {
    && (forall a, b :: cmp(a, b) < 0 <==> cmp(b, a) > 0)
    && (forall a, b, c :: cmp(a, b) <= 0 && cmp(b, c) <= 0 ==> cmp(a, c) <= 0)
  }

  lemma EquivalentTransitive<T(!new)>(cmp: (T, T) -> int, a: T, b: T, c: T)
    requires Consistent(cmp)
    requires cmp(a, b) == 0 && cmp(b, c) == 0
    ensures cmp(a, c) == 0
  {
    assert cmp(b, a) <= 0 && cmp(c, b) <= 0;
    assert cmp(c, a) <= 0;
  }

  predicate Sorted<T>(s: seq<T>, cmp: (T, T) -> int) {
    forall i, j :: 0 <= i < j < |s| ==> cmp(s[i], s[j]) <= 0
  }

  /** The elements of `s` the comparator cannot tell apart from `y`, in order. */
  function SameKey<T>(s: seq<T>, y: T, cmp: (T, T) -> int): seq<T> {
    Filter(s, (e: T) => cmp(e, y) == 0)
  }

  /**
   * Inserting `x` in front of a sorted `t`'s elements: `x` goes before the
   * first element it is not after, so it precedes every element equal to it.
   */
  function InsertIndex<T>(x: T, t: seq<T>, cmp: (T, T) -> int): (k: nat)
    ensures k <= |t|
    ensures k < |t| ==> cmp(x, t[k]) <= 0
    ensures forall i :: 0 <= i < k ==> cmp(x, t[i]) > 0
  {
    FindIndex(t, (y: T) => cmp(x, y) <= 0)
  }

  function Insert<T>(x: T, t: seq<T>, cmp: (T, T) -> int): (r: seq<T>)
    ensures |r| == |t| + 1
    ensures multiset(r) == multiset(t) + multiset{x}
  {
    var k := InsertIndex(x, t, cmp);
    assert t == t[..k] + t[k..];
    t[..k] + [x] + t[k..]
  }

  function SortBy<T>(s: seq<T>, cmp: (T, T) -> int): (r: seq<T>)
    ensures |r| == |s|
    ensures multiset(r) == multiset(s)
  {
    if s == [] then []
    else
      assert s == [s[0]] + s[1..];
      Insert(s[0], SortBy(s[1..], cmp), cmp)
  }

  /** Entry `i` of the inserted sequence: `t` before the insertion index, `x` at it, `t` shifted by one after. */
  lemma InsertAt<T>(x: T, t: seq<T>, cmp: (T, T) -> int, i: int)
    requires 0 <= i <= |t|
    ensures var k := InsertIndex(x, t, cmp);
      Insert(x, t, cmp)[i] == if i < k then t[i] else if i == k then x else t[i - 1]
  {
  }

  lemma InsertSorted<T(!new)>(x: T, t: seq<T>, cmp: (T, T) -> int)
    requires Consistent(cmp) && Sorted(t, cmp)
    ensures Sorted(Insert(x, t, cmp), cmp)
  {
    var k := InsertIndex(x, t, cmp);
    var r := Insert(x, t, cmp);
    forall i, j | 0 <= i < j < |r| ensures cmp(r[i], r[j]) <= 0 {
      InsertAt(x, t, cmp, i);
      InsertAt(x, t, cmp, j);
      if j == k {
        assert cmp(x, t[i]) > 0;
      } else if i == k {
        assert cmp(x, t[k]) <= 0;
      }
    }
  }

  /** With a consistent comparator the result is in comparator order. */
  lemma {:induction false} SortBySorted<T(!new)>(s: seq<T>, cmp: (T, T) -> int)
    requires Consistent(cmp)
    ensures Sorted(SortBy(s, cmp), cmp)
  {
    if s != [] {
      SortBySorted(s[1..], cmp);
      InsertSorted(s[0], SortBy(s[1..], cmp), cmp);
    }
  }

  /**
   * An element of a sorted sequence missing from its first `n` entries
   * lies beyond them, so it comes after each of them in comparator order.
   */
  lemma SortedPrefixOmits<T>(sorted: seq<T>, n: nat, cmp: (T, T) -> int, p: T)
    requires Sorted(sorted, cmp) && n <= |sorted|
    requires p in sorted && p !in sorted[..n]
    ensures n < |sorted|
    ensures forall x :: x in sorted[..n] ==> cmp(x, p) <= 0
  {
    var j :| 0 <= j < |sorted| && sorted[j] == p;
    assert forall i :: 0 <= i < n ==> sorted[..n][i] == sorted[i];
    assert j >= n;
    forall x | x in sorted[..n] ensures cmp(x, p) <= 0 {
      var i :| 0 <= i < n && sorted[..n][i] == x;
    }
  }

  lemma SameKeyAppend<T>(a: seq<T>, b: seq<T>, y: T, cmp: (T, T) -> int)
    ensures SameKey(a + b, y, cmp) == SameKey(a, y, cmp) + SameKey(b, y, cmp)
  {
    FilterAppend(a, b, (e: T) => cmp(e, y) == 0);
  }

  /** The elements placed before `x` are all strictly before it, so none is equal to any `y` equal to `x`. */
  lemma PrefixNotEqual<T(!new)>(x: T, t: seq<T>, k: nat, y: T, cmp: (T, T) -> int)
    requires Consistent(cmp) && cmp(x, y) == 0 && k <= |t|
    requires forall i :: 0 <= i < k ==> cmp(x, t[i]) > 0
    ensures SameKey(t[..k], y, cmp) == []
  {
    var pre := t[..k];
    forall i | 0 <= i < |pre| ensures cmp(pre[i], y) != 0 {
    }
    FilterNone(pre, (e: T) => cmp(e, y) == 0);
  }

  /** `SameKey` of the inserted sequence and of `[x] + t`, split at the insertion index. */
  lemma InsertSplit<T>(x: T, t: seq<T>, y: T, cmp: (T, T) -> int)
    ensures var k := InsertIndex(x, t, cmp);
      && SameKey(Insert(x, t, cmp), y, cmp) == SameKey(t[..k], y, cmp) + (SameKey([x], y, cmp) + SameKey(t[k..], y, cmp))
      && SameKey([x] + t, y, cmp) == SameKey([x], y, cmp) + (SameKey(t[..k], y, cmp) + SameKey(t[k..], y, cmp))
  {
    var k := InsertIndex(x, t, cmp);
    var pre, post := t[..k], t[k..];
    assert t == pre + post;
    assert Insert(x, t, cmp) == pre + ([x] + post);
    SameKeyAppend(pre, [x] + post, y, cmp);
    SameKeyAppend([x], post, y, cmp);
    SameKeyAppend([x], t, y, cmp);
    SameKeyAppend(pre, post, y, cmp);
  }

  lemma SameKeySingle<T>(x: T, y: T, cmp: (T, T) -> int)
    ensures SameKey([x], y, cmp) == if cmp(x, y) == 0 then [x] else []
  {
    assert [x][1..] == [];
  }

  /** Inserting an `x` that differs from `y` adds nothing to the elements equal to `y`. */
  lemma InsertStableOther<T>(x: T, t: seq<T>, y: T, cmp: (T, T) -> int)
    requires cmp(x, y) != 0
    ensures SameKey(Insert(x, t, cmp), y, cmp) == SameKey([x] + t, y, cmp)
  {
    var k := InsertIndex(x, t, cmp);
    InsertSplit(x, t, y, cmp);
    SameKeySingle(x, y, cmp);
    assert [] + SameKey(t[k..], y, cmp) == SameKey(t[k..], y, cmp);
  }

  /** Inserting an `x` equal to `y` puts it first among the elements equal to `y`. */
  lemma InsertStableEqual<T(!new)>(x: T, t: seq<T>, y: T, cmp: (T, T) -> int)
    requires Consistent(cmp) && cmp(x, y) == 0
    ensures SameKey(Insert(x, t, cmp), y, cmp) == SameKey([x] + t, y, cmp)
  {
    var k := InsertIndex(x, t, cmp);
    InsertSplit(x, t, y, cmp);
    SameKeySingle(x, y, cmp);
    PrefixNotEqual(x, t, k, y, cmp);
    var post := SameKey(t[k..], y, cmp);
    assert [] + ([x] + post) == [x] + post == [x] + ([] + post);
  }

  /** Inserting `x` keeps the relative order of the elements equal to any `y`. */
  lemma InsertStable<T(!new)>(x: T, t: seq<T>, y: T, cmp: (T, T) -> int)
    requires Consistent(cmp)
    ensures SameKey(Insert(x, t, cmp), y, cmp) == SameKey([x] + t, y, cmp)
  {
    if cmp(x, y) == 0 {
      InsertStableEqual(x, t, y, cmp);
    } else {
      InsertStableOther(x, t, y, cmp);
    }
  }

  /**
   * Stability: the elements equal to any `y` appear in the result in the
   * same order as in the input.
   */
  lemma {:induction false} SortByStable<T(!new)>(s: seq<T>, y: T, cmp: (T, T) -> int)
    requires Consistent(cmp)
    ensures SameKey(SortBy(s, cmp), y, cmp) == SameKey(s, y, cmp)
  {
    if s != [] {
      SortByStable(s[1..], y, cmp);
      InsertStable(s[0], SortBy(s[1..], cmp), y, cmp);
      SameKeyAppend([s[0]], SortBy(s[1..], cmp), y, cmp);
      SameKeyAppend([s[0]], s[1..], y, cmp);
      assert s == [s[0]] + s[1..];
    }
  }
}
