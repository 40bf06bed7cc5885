/**
 * `Array.prototype.sort` with a comparator of the shape `(a, b) => key(a) - key(b)`:
 * an in-place sort that orders the array by a numeric key, ascending. A descending
 * comparator `(a, b) => key(b) - key(a)` is the ascending sort by the negated key.
 */
module Sorting {

  /** `s` is ordered by `key`, smallest key first. */
  ghost predicate SortedBy<T>(s: seq<T>, key: T -> real)
  {
    forall i, j :: 0 <= i < j < |s| ==> key(s[i]) <= key(s[j])
  }

  /** No two elements of `s` share the integer key `f`. */
  ghost predicate KeysDistinct<T>(s: seq<T>, f: T -> int)
  {
    forall i, j :: 0 <= i < j < |s| ==> f(s[i]) != f(s[j])
  }

  /** The elements of `s` whose key is `v`, in their order in `s`. */
  function KeyClass<T>(s: seq<T>, key: T -> real, v: real): (r: seq<T>)
    ensures |r| <= |s|
    ensures forall k :: 0 <= k < |r| ==> r[k] in s && key(r[k]) == v
  {
    if s == [] then []
    else
      var init, last := s[..|s| - 1], s[|s| - 1];
      KeyClass(init, key, v) + (if key(last) == v then [last] else [])
  }

  /**
   * `s` and `t` list the elements of every key in the same order: what a stable sort
   * keeps of its input.
   */
  ghost predicate SameTies<T>(s: seq<T>, t: seq<T>, key: T -> real)
  {
    forall v :: KeyClass(s, key, v) == KeyClass(t, key, v)
  }

  /**
   * Insertion sort by adjacent swaps: sorts `a` in place, keeps its elements and, being
   * stable like `Array.prototype.sort`, keeps the order of elements with equal keys.
   */
  method SortByKey<T>(a: array<T>, key: T -> real)
    modifies a
    ensures SortedBy(a[..], key)
    ensures multiset(a[..]) == multiset(old(a[..]))
    ensures SameTies(a[..], old(a[..]), key)
  {
    var i := 0;
    while i < a.Length
      invariant 0 <= i <= a.Length
      invariant SortedBy(a[..i], key)
      invariant multiset(a[..]) == multiset(old(a[..]))
      invariant SameTies(a[..], old(a[..]), key)
    {
      InsertLast(a, i, key);
      i := i + 1;
    }
    assert a[..a.Length] == a[..];
  }

  /** Moves `a[i]` left into the sorted prefix `a[..i]`, giving a sorted `a[..i + 1]`. */
  method InsertLast<T>(a: array<T>, i: nat, key: T -> real)
    requires i < a.Length
    requires SortedBy(a[..i], key)
    modifies a
    ensures SortedBy(a[..i + 1], key)
    ensures multiset(a[..]) == multiset(old(a[..]))
    ensures SameTies(a[..], old(a[..]), key)
  {
    var j := i;
    SortedExceptStart(a[..], i, key);
    while 0 < j && key(a[j]) < key(a[j - 1])
      invariant 0 <= j <= i
      invariant SortedExcept(a[..], i, j, key)
      invariant multiset(a[..]) == multiset(old(a[..]))
      invariant SameTies(a[..], old(a[..]), key)
    {
      ghost var before := a[..];
      Swap(a, j - 1, j);
      InsertStep(before, a[..], i, j, old(a[..]), key);
      j := j - 1;
    }
    SortedExceptEnd(a[..], i, j, key);
  }

  /** `s[..i + 1]` is ordered by `key` except possibly between `s[j]` and what precedes it. */
  ghost predicate SortedExcept<T>(s: seq<T>, i: nat, j: nat, key: T -> real)
    requires i < |s|
  {
    forall p, q :: 0 <= p < q <= i && q != j ==> key(s[p]) <= key(s[q])
  }

  /** Before the first swap, only the new element `s[i]` may be out of place. */
  lemma SortedExceptStart<T>(s: seq<T>, i: nat, key: T -> real)
    requires i < |s| && SortedBy(s[..i], key)
    ensures SortedExcept(s, i, i, key)
  {
    forall p, q | 0 <= p < q <= i && q != i ensures key(s[p]) <= key(s[q]) {
      assert s[p] == s[..i][p] && s[q] == s[..i][q];
    }
  }

  /** Swapping the out-of-place element one step left moves the exception with it. */
  lemma SortedExceptStep<T>(s: seq<T>, t: seq<T>, i: nat, j: nat, key: T -> real)
    requires 0 < j <= i < |s| && SortedExcept(s, i, j, key)
    requires key(s[j]) < key(s[j - 1])
    requires t == s[j - 1 := s[j]][j := s[j - 1]]
    ensures SortedExcept(t, i, j - 1, key)
  {
  }

  /** One swap of the insertion loop keeps both of its invariants. */
  lemma InsertStep<T>(s: seq<T>, t: seq<T>, i: nat, j: nat, orig: seq<T>, key: T -> real)
    requires 0 < j <= i < |s| && SortedExcept(s, i, j, key)
    requires key(s[j]) < key(s[j - 1])
    requires SameTies(s, orig, key)
    requires t == s[j - 1 := s[j]][j := s[j - 1]]
    ensures |t| == |s| && SortedExcept(t, i, j - 1, key) && SameTies(t, orig, key)
  {
    SwapKeepsTies(s, t, j - 1, orig, key);
    SortedExceptStep(s, t, i, j, key);
  }

  /** Once the element is in place, the whole prefix `s[..i + 1]` is sorted. */
  lemma SortedExceptEnd<T>(s: seq<T>, i: nat, j: nat, key: T -> real)
    requires j <= i < |s| && SortedExcept(s, i, j, key)
    requires j == 0 || key(s[j - 1]) <= key(s[j])
    ensures SortedBy(s[..i + 1], key)
  {
    var prefix := s[..i + 1];
    forall p, q | 0 <= p < q < |prefix| ensures key(prefix[p]) <= key(prefix[q]) {
      if q == j && p < j - 1 {
        assert key(s[p]) <= key(s[j - 1]);
      }
    }
  }

  /** The key classes of a concatenation are those of its parts, concatenated. */
  lemma {:induction false} KeyClassAppend<T>(s: seq<T>, t: seq<T>, key: T -> real, v: real)
    ensures KeyClass(s + t, key, v) == KeyClass(s, key, v) + KeyClass(t, key, v)
  {
    if t != [] {
      var init := t[..|t| - 1];
      assert (s + t)[..|s + t| - 1] == s + init;
      KeyClassAppend(s, init, key, v);
    } else {
      assert s + t == s;
    }
  }

  /** Exchanging two neighbours with different keys keeps the key classes of `s`. */
  lemma SwapKeepsTies<T>(s: seq<T>, t: seq<T>, i: nat, orig: seq<T>, key: T -> real)
    requires i + 1 < |s| && key(s[i]) != key(s[i + 1])
    requires t == s[i := s[i + 1]][i + 1 := s[i]]
    requires SameTies(s, orig, key)
    ensures SameTies(t, orig, key)
  {
    forall v ensures KeyClass(t, key, v) == KeyClass(orig, key, v) {
      SwapKeepsKeyClass(s, i, key, v);
    }
  }

  /** Two elements with different keys are in different key classes. */
  lemma PairKeyClass<T>(x: T, y: T, key: T -> real, v: real)
    requires key(x) != key(y)
    ensures KeyClass([x, y], key, v) == KeyClass([y, x], key, v)
  {
    assert [x, y][..1] == [x] && [y, x][..1] == [y];
    assert [x][..0] == [] && [y][..0] == [];
  }

  /** Exchanging two neighbours with different keys changes no key class. */
  lemma SwapKeepsKeyClass<T>(s: seq<T>, i: nat, key: T -> real, v: real)
    requires i + 1 < |s| && key(s[i]) != key(s[i + 1])
    ensures KeyClass(s[i := s[i + 1]][i + 1 := s[i]], key, v) == KeyClass(s, key, v)
  {
    var x, y, front, rest := s[i], s[i + 1], s[..i], s[i + 2..];
    var t := s[i := y][i + 1 := x];
    assert s == (front + [x, y]) + rest;
    assert t == (front + [y, x]) + rest;
    KeyClassAppend(front + [x, y], rest, key, v);
    KeyClassAppend(front, [x, y], key, v);
    KeyClassAppend(front + [y, x], rest, key, v);
    KeyClassAppend(front, [y, x], key, v);
    PairKeyClass(x, y, key, v);
  }

  /**
   * A sorted arrangement with given key classes is unique: two sequences sorted by the
   * same key that list every key's elements in the same order are equal.
   */
  lemma {:induction false} StableSortUnique<T>(s: seq<T>, t: seq<T>, key: T -> real)
    requires SortedBy(s, key) && SortedBy(t, key)
    requires SameTies(s, t, key)
    ensures s == t
    decreases |s|
  {
    if s != [] || t != [] {
      NonEmptyTogether(s, t, key);
      LastKeysAgree(s, t, key);
      var si, ti := s[..|s| - 1], t[..|t| - 1];
      SameLast(s, t, key);
      SameTiesOfInit(s, t, key);
      assert SortedBy(si, key) && SortedBy(ti, key);
      StableSortUnique(si, ti, key);
      assert s == si + [s[|s| - 1]] && t == ti + [t[|t| - 1]];
    }
  }

  /** With equal key classes, one sequence is empty only when the other is. */
  lemma NonEmptyTogether<T>(s: seq<T>, t: seq<T>, key: T -> real)
    requires SameTies(s, t, key)
    ensures s == [] <==> t == []
  {
    if s != [] {
      var x := s[|s| - 1];
      assert KeyClass(s, key, key(x)) == KeyClass(t, key, key(x));
    }
    if t != [] {
      var y := t[|t| - 1];
      assert KeyClass(s, key, key(y)) == KeyClass(t, key, key(y));
    }
  }

  /** The last elements of two sorted sequences with equal key classes share a key. */
  lemma LastKeysAgree<T>(s: seq<T>, t: seq<T>, key: T -> real)
    requires s != [] && t != []
    requires SortedBy(s, key) && SortedBy(t, key)
    requires SameTies(s, t, key)
    ensures key(s[|s| - 1]) == key(t[|t| - 1])
  {
    var x, y := s[|s| - 1], t[|t| - 1];
    var cx, cy := KeyClass(s, key, key(x)), KeyClass(t, key, key(y));
    assert cx == KeyClass(t, key, key(x)) && cx[|cx| - 1] == x;
    assert cx[|cx| - 1] in t;
    var p :| 0 <= p < |t| && t[p] == x;
    assert key(x) <= key(y) by { if p < |t| - 1 { } }
    assert cy == KeyClass(s, key, key(y)) && cy[|cy| - 1] == y;
    assert cy[|cy| - 1] in s;
    var q :| 0 <= q < |s| && s[q] == y;
    assert key(y) <= key(x) by { if q < |s| - 1 { } }
  }

  /** Last elements sharing a key end the same key class, so they are equal. */
  lemma SameLast<T>(s: seq<T>, t: seq<T>, key: T -> real)
    requires s != [] && t != []
    requires SameTies(s, t, key)
    requires key(s[|s| - 1]) == key(t[|t| - 1])
    ensures s[|s| - 1] == t[|t| - 1]
  {
    var v := key(s[|s| - 1]);
    var c := KeyClass(s, key, v);
    assert c == KeyClass(t, key, v);
    assert c[|c| - 1] == s[|s| - 1];
  }

  /** Dropping a shared last element keeps the key classes equal. */
  lemma SameTiesOfInit<T>(s: seq<T>, t: seq<T>, key: T -> real)
    requires s != [] && t != [] && s[|s| - 1] == t[|t| - 1]
    requires SameTies(s, t, key)
    ensures SameTies(s[..|s| - 1], t[..|t| - 1], key)
  {
    var x, si, ti := s[|s| - 1], s[..|s| - 1], t[..|t| - 1];
    forall v ensures KeyClass(si, key, v) == KeyClass(ti, key, v) {
      var c := KeyClass(s, key, v);
      assert c == KeyClass(t, key, v);
      assert c == KeyClass(si, key, v) + (if key(x) == v then [x] else []);
      assert c == KeyClass(ti, key, v) + (if key(x) == v then [x] else []);
      if key(x) == v {
        assert KeyClass(si, key, v) == c[..|c| - 1];
        assert KeyClass(ti, key, v) == c[..|c| - 1];
      } else {
        assert KeyClass(si, key, v) + [] == KeyClass(si, key, v);
        assert KeyClass(ti, key, v) + [] == KeyClass(ti, key, v);
      }
    }
  }

  /** Exchanges two elements of `a`. */
  method Swap<T>(a: array<T>, i: nat, j: nat)
    requires i < j < a.Length
    modifies a
    ensures a[..] == old(a[..])[i := old(a[j])][j := old(a[i])]
    ensures multiset(a[..]) == multiset(old(a[..]))
  {
    a[i], a[j] := a[j], a[i];
  }

  /** An element with distinct keys occurs at most once. */
  lemma {:induction false} DistinctOccursOnce<T>(s: seq<T>, f: T -> int, x: T)
    requires KeysDistinct(s, f)
    ensures multiset(s)[x] <= 1
  {
    if s != [] {
      var init, last := s[..|s| - 1], s[|s| - 1];
      assert s == init + [last];
      assert KeysDistinct(init, f);
      DistinctOccursOnce(init, f, x);
    }
  }

  /** An element found at two positions occurs at least twice. */
  lemma OccursTwice<T>(t: seq<T>, i: nat, j: nat)
    requires i < j < |t| && t[i] == t[j]
    ensures multiset(t)[t[i]] >= 2
  {
    assert t == t[..j] + t[j..];
    assert t[i] in t[..j];
    assert t[j] in t[j..];
    assert multiset(t) == multiset(t[..j]) + multiset(t[j..]);
  }

  /** Reordering a sequence does not make two of its keys equal. */
  lemma PermutationKeepsKeysDistinct<T>(s: seq<T>, t: seq<T>, f: T -> int)
    requires multiset(s) == multiset(t)
    requires KeysDistinct(s, f)
    ensures KeysDistinct(t, f)
  {
    forall i, j | 0 <= i < j < |t| ensures f(t[i]) != f(t[j]) {
      if f(t[i]) == f(t[j]) {
        assert t[i] in multiset(s) && t[j] in multiset(s);
        var p :| 0 <= p < |s| && s[p] == t[i];
        var q :| 0 <= q < |s| && s[q] == t[j];
        assert p == q;
        OccursTwice(t, i, j);
        DistinctOccursOnce(s, f, t[i]);
      }
    }
  }
}
