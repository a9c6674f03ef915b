/**
  Orders and stable sorting.

  The client sorts with `Array.prototype.sort`, which is stable, and the two
  back ends list rows `ORDER BY date DESC`. Both are modelled here once:
  `Sort` is a stable insertion sort under a total preorder `le`, and
  `OrderedValues` lists the rows of a keyed table in `le` order. Dates are
  compared as strings: on well-formed `YYYY-MM-DD` dates the comparison of
  `new Date(d).getTime()` values agrees with lexicographic order, `LexLe`.
 */
module Order {
  import opened Types

  /** Lexicographic order on strings (character codes, shorter prefix first). */
  predicate LexLe(a: string, b: string)
  {
    a == [] || (b != [] && (a[0] < b[0] || (a[0] == b[0] && LexLe(a[1..], b[1..]))))
  }

  lemma {:induction false} LexLeTotal(a: string, b: string)
    ensures LexLe(a, b) || LexLe(b, a)
  {
    if a != [] && b != [] && a[0] == b[0] {
      LexLeTotal(a[1..], b[1..]);
    }
  }

  lemma {:induction false} LexLeTransitive(a: string, b: string, c: string)
    requires LexLe(a, b) && LexLe(b, c)
    ensures LexLe(a, c)
  {
    if a != [] && b != [] && c != [] && a[0] == b[0] == c[0] {
      LexLeTransitive(a[1..], b[1..], c[1..]);
    }
  }

  lemma {:induction false} LexLeAntisymmetric(a: string, b: string)
    requires LexLe(a, b) && LexLe(b, a)
    ensures a == b
  {
    if a != [] && b != [] {
      LexLeAntisymmetric(a[1..], b[1..]);
      assert a == [a[0]] + a[1..] && b == [b[0]] + b[1..];
    }
  }

  /** `le` orders every pair and is transitive. */
  ghost predicate TotalPreorder<T(!new)>(le: (T, T) -> bool)
  {
    (forall a, b :: le(a, b) || le(b, a)) &&
    (forall a, b, c :: le(a, b) && le(b, c) ==> le(a, c))
  }

  /** Pairwise ordered, not only neighbour by neighbour. */
  ghost predicate Sorted<T>(s: seq<T>, le: (T, T) -> bool)
  {
    forall i, j :: 0 <= i < j < |s| ==> le(s[i], s[j])
  }

  /** Neither orders before the other: the comparator returns 0. */
  predicate Tied<T>(le: (T, T) -> bool, a: T, b: T)
  {
    le(a, b) && le(b, a)
  }

  /**
    Insertion of `x` into `s` after every element that is not greater than it,
    scanning from the right as an insertion sort does.
   */
  function Insert<T>(s: seq<T>, x: T, le: (T, T) -> bool): (r: seq<T>)
  {
    if s == [] || le(s[|s| - 1], x) then s + [x]
    else Insert(s[..|s| - 1], x, le) + [s[|s| - 1]]
  }

  /** Stable sort: the last element is inserted into the sorted rest. */
  function Sort<T>(s: seq<T>, le: (T, T) -> bool): (r: seq<T>)
  {
    if s == [] then [] else Insert(Sort(s[..|s| - 1], le), s[|s| - 1], le)
  }

  /** The elements tied with `v`, in their order. */
  function Ties<T>(s: seq<T>, v: T, le: (T, T) -> bool): (r: seq<T>)
    ensures |r| <= |s|
  {
    if s == [] then []
    else Ties(s[..|s| - 1], v, le) + (if Tied(le, s[|s| - 1], v) then [s[|s| - 1]] else [])
  }

  lemma {:induction false} InsertPermutes<T>(s: seq<T>, x: T, le: (T, T) -> bool)
    ensures multiset(Insert(s, x, le)) == multiset(s) + multiset{x}
  {
    if !(s == [] || le(s[|s| - 1], x)) {
      var init, last := s[..|s| - 1], s[|s| - 1];
      InsertPermutes(init, x, le);
      assert s == init + [last];
    }
  }

  /** The sort returns a permutation of its input. */
  lemma {:induction false} SortPermutes<T>(s: seq<T>, le: (T, T) -> bool)
    ensures multiset(Sort(s, le)) == multiset(s)
  {
    if s != [] {
      var init, last := s[..|s| - 1], s[|s| - 1];
      SortPermutes(init, le);
      InsertPermutes(Sort(init, le), last, le);
      assert s == init + [last];
    }
  }

  lemma {:induction false} InsertSorted<T(!new)>(s: seq<T>, x: T, le: (T, T) -> bool)
    requires TotalPreorder(le) && Sorted(s, le)
    ensures Sorted(Insert(s, x, le), le)
  {
    if s != [] && !le(s[|s| - 1], x) {
      var init, last := s[..|s| - 1], s[|s| - 1];
      InsertSorted(init, x, le);
      InsertPermutes(init, x, le);
      var r := Insert(init, x, le);
      forall i | 0 <= i < |r| ensures le(r[i], last) {
        assert r[i] in multiset(init) + multiset{x};
        if r[i] != x {
          var k :| 0 <= k < |init| && init[k] == r[i];
          assert s[k] == r[i];
        }
      }
    }
  }

  /** The sort returns its input in non-decreasing order. */
  lemma {:induction false} SortSorted<T(!new)>(s: seq<T>, le: (T, T) -> bool)
    requires TotalPreorder(le)
    ensures Sorted(Sort(s, le), le)
  {
    if s != [] {
      SortSorted(s[..|s| - 1], le);
      InsertSorted(Sort(s[..|s| - 1], le), s[|s| - 1], le);
    }
  }

  lemma {:induction false} TiesAppend<T>(s: seq<T>, t: seq<T>, v: T, le: (T, T) -> bool)
    ensures Ties(s + t, v, le) == Ties(s, v, le) + Ties(t, v, le)
  {
    if t != [] {
      var init := t[..|t| - 1];
      assert (s + t)[..|s + t| - 1] == s + init;
      TiesAppend(s, init, v, le);
    } else {
      assert s + t == s;
    }
  }

  lemma {:induction false} InsertTies<T(!new)>(s: seq<T>, x: T, v: T, le: (T, T) -> bool)
    requires TotalPreorder(le)
    ensures Ties(Insert(s, x, le), v, le) == Ties(s, v, le) + (if Tied(le, x, v) then [x] else [])
  {
    if s == [] || le(s[|s| - 1], x) {
      TiesAppend(s, [x], v, le);
    } else {
      var init, last := s[..|s| - 1], s[|s| - 1];
      InsertTies(init, x, v, le);
      TiesAppend(Insert(init, x, le), [last], v, le);
      assert s == init + [last];
      TiesAppend(init, [last], v, le);
      // `last` is strictly greater than `x`, so it cannot be tied with `v` when `x` is
      assert Tied(le, x, v) ==> !Tied(le, last, v);
    }
  }

  /** Stability: elements that compare equal keep their relative order. */
  lemma {:induction false} SortStable<T(!new)>(s: seq<T>, v: T, le: (T, T) -> bool)
    requires TotalPreorder(le)
    ensures Ties(Sort(s, le), v, le) == Ties(s, v, le)
  {
    if s != [] {
      var init, last := s[..|s| - 1], s[|s| - 1];
      SortStable(init, v, le);
      InsertTies(Sort(init, le), last, v, le);
    }
  }

  /** The last element kept from a sorted sequence is not greater than its last element. */
  lemma {:induction false} FilterLastBelow<T(!new)>(s: seq<T>, p: T -> bool, x: T, le: (T, T) -> bool)
    requires TotalPreorder(le) && Sorted(s, le)
    requires s != [] && le(s[|s| - 1], x)
    requires Filter(s, p) != []
    ensures le(Filter(s, p)[|Filter(s, p)| - 1], x)
  {
    var k := Filter(s, p);
    assert k[|k| - 1] in k;
    var i :| 0 <= i < |s| && s[i] == k[|k| - 1];
    if i < |s| - 1 {
      assert le(s[i], s[|s| - 1]);
    }
  }

  /** One step of `FilterInsert`: `x` is inserted before the last element of `s`. */
  lemma {:induction false} FilterInsertStep<T(!new)>(s: seq<T>, x: T, p: T -> bool, le: (T, T) -> bool)
    requires s != [] && !le(s[|s| - 1], x)
    requires Filter(Insert(s[..|s| - 1], x, le), p) ==
      if p(x) then Insert(Filter(s[..|s| - 1], p), x, le) else Filter(s[..|s| - 1], p)
    ensures Filter(Insert(s, x, le), p) == if p(x) then Insert(Filter(s, p), x, le) else Filter(s, p)
  {
    var init, last := s[..|s| - 1], s[|s| - 1];
    var r := Insert(init, x, le);
    assert Insert(s, x, le) == r + [last];
    assert Filter(r + [last], p) == Filter(r, p) + (if p(last) then [last] else []) by {
      assert (r + [last])[..|r + [last]| - 1] == r;
    }
    assert Filter(s, p) == Filter(init, p) + (if p(last) then [last] else []);
    if p(last) {
      var k := Filter(init, p) + [last];
      assert k[..|k| - 1] == Filter(init, p);
      assert Insert(k, x, le) == Insert(Filter(init, p), x, le) + [last];
    } else {
      assert Filter(r, p) + [] == Filter(r, p);
      assert Filter(init, p) + [] == Filter(init, p);
    }
  }

  lemma {:induction false} FilterInsert<T(!new)>(s: seq<T>, x: T, p: T -> bool, le: (T, T) -> bool)
    requires TotalPreorder(le) && Sorted(s, le)
    ensures Filter(Insert(s, x, le), p) == if p(x) then Insert(Filter(s, p), x, le) else Filter(s, p)
  {
    if s == [] || le(s[|s| - 1], x) {
      FilterAppend(s, [x], p);
      if p(x) && Filter(s, p) != [] {
        FilterLastBelow(s, p, x, le);
      }
    } else {
      assert Sorted(s[..|s| - 1], le);
      FilterInsert(s[..|s| - 1], x, p, le);
      FilterInsertStep(s, x, p, le);
    }
  }

  /** Filtering and stable sorting commute. */
  lemma {:induction false} SortFilterCommute<T(!new)>(s: seq<T>, p: T -> bool, le: (T, T) -> bool)
    requires TotalPreorder(le)
    ensures Sort(Filter(s, p), le) == Filter(Sort(s, le), p)
  {
    if s != [] {
      var init, last := s[..|s| - 1], s[|s| - 1];
      assert s == init + [last];
      FilterAppend(init, [last], p);
      SortFilterCommute(init, p, le);
      SortSorted(init, le);
      FilterInsert(Sort(init, le), last, p, le);
      if p(last) {
        assert Filter(s, p) == Filter(init, p) + [last];
        assert Filter(s, p)[..|Filter(s, p)| - 1] == Filter(init, p);
      } else {
        assert Filter(s, p) == Filter(init, p);
      }
    }
  }

  /** Two sorted permutations of each other end in tied elements. */
  lemma {:induction false} LastTied<T(!new)>(t: seq<T>, u: seq<T>, le: (T, T) -> bool)
    requires TotalPreorder(le)
    requires Sorted(t, le) && Sorted(u, le)
    requires multiset(t) == multiset(u) && t != []
    ensures |u| == |t| && Tied(le, t[|t| - 1], u[|u| - 1])
  {
    assert |t| == |multiset(t)| == |multiset(u)| == |u|;
    var n := |t|;
    assert u[n - 1] in multiset(t) && t[n - 1] in multiset(u);
    var i :| 0 <= i < n && t[i] == u[n - 1];
    var j :| 0 <= j < n && u[j] == t[n - 1];
    assert i == n - 1 || le(t[i], t[n - 1]);
    assert j == n - 1 || le(u[j], u[n - 1]);
  }

  /** Appending an element tied with `v` appends it to the ties of `v`. */
  lemma TiesSnoc<T>(s: seq<T>, x: T, v: T, le: (T, T) -> bool)
    ensures Ties(s + [x], v, le) == Ties(s, v, le) + (if Tied(le, x, v) then [x] else [])
  {
    assert (s + [x])[..|s + [x]| - 1] == s;
  }

  /** Dropping a common last element keeps the tie sequences equal. */
  lemma TiesDropLast<T>(t: seq<T>, u: seq<T>, x: T, le: (T, T) -> bool)
    requires forall v :: Ties(t + [x], v, le) == Ties(u + [x], v, le)
    ensures forall v :: Ties(t, v, le) == Ties(u, v, le)
  {
    forall v ensures Ties(t, v, le) == Ties(u, v, le) {
      TiesSnoc(t, x, v, le);
      TiesSnoc(u, x, v, le);
      var c := if Tied(le, x, v) then [x] else [];
      var a, b := Ties(t, v, le), Ties(u, v, le);
      assert a + c == Ties(t + [x], v, le) == Ties(u + [x], v, le) == b + c;
      assert a == (a + c)[..|a|] && b == (b + c)[..|b|];
    }
  }

  /** Tie sequences that agree end in the same element when both last elements are tied. */
  lemma SameLastTie<T>(t: seq<T>, u: seq<T>, x: T, y: T, le: (T, T) -> bool)
    requires Tied(le, x, x) && Tied(le, y, x)
    requires Ties(t + [x], x, le) == Ties(u + [y], x, le)
    ensures x == y
  {
    TiesSnoc(t, x, x, le);
    TiesSnoc(u, y, x, le);
    var tx, uy := Ties(t, x, le) + [x], Ties(u, x, le) + [y];
    assert tx == uy;
    assert x == tx[|tx| - 1] == uy[|uy| - 1] == y;
  }

  /**
    The stable sort is the only sorted permutation that keeps the order of
    tied elements, so it models every stable sort (JavaScript's included).
   */
  lemma {:induction false} StableSortUnique<T(!new)>(t: seq<T>, u: seq<T>, le: (T, T) -> bool)
    requires TotalPreorder(le)
    requires Sorted(t, le) && Sorted(u, le)
    requires multiset(t) == multiset(u)
    requires forall v :: Ties(t, v, le) == Ties(u, v, le)
    ensures t == u
    decreases |t|
  {
    if t != [] {
      LastTied(t, u, le);
      var t', u' := t[..|t| - 1], u[..|u| - 1];
      assert t == t' + [t[|t| - 1]] && u == u' + [u[|u| - 1]];
      StableSortUniqueStep(t', t[|t| - 1], u', u[|u| - 1], le);
      StableSortUnique(t', u', le);
    }
  }

  /** The inductive step of `StableSortUnique`: equal last elements, and the prefixes qualify. */
  lemma {:induction false} StableSortUniqueStep<T(!new)>(t: seq<T>, x: T, u: seq<T>, y: T, le: (T, T) -> bool)
    requires TotalPreorder(le)
    requires Sorted(t + [x], le) && Sorted(u + [y], le)
    requires multiset(t + [x]) == multiset(u + [y])
    requires forall v :: Ties(t + [x], v, le) == Ties(u + [y], v, le)
    requires Tied(le, y, x)
    ensures x == y
    ensures Sorted(t, le) && Sorted(u, le)
    ensures multiset(t) == multiset(u)
    ensures forall v :: Ties(t, v, le) == Ties(u, v, le)
  {
    assert Tied(le, x, x);
    assert Ties(t + [x], x, le) == Ties(u + [y], x, le);
    SameLastTie(t, u, x, y, le);
    TiesDropLast(t, u, x, le);
    assert multiset(t) == multiset(t + [x]) - multiset{x};
    assert multiset(u) == multiset(u + [y]) - multiset{x};
    assert forall i, j :: 0 <= i < j < |t| ==> (t + [x])[i] == t[i] && (t + [x])[j] == t[j];
    assert forall i, j :: 0 <= i < j < |u| ==> (u + [y])[i] == u[i] && (u + [y])[j] == u[j];
  }

  /**
    Where an insertion stops: every element from `j` on is greater than `x`
    and the one before `j`, if any, is not.
   */
  lemma {:induction false} InsertAt<T>(s: seq<T>, x: T, le: (T, T) -> bool, j: nat)
    requires j <= |s|
    requires forall k :: j <= k < |s| ==> !le(s[k], x)
    requires j == 0 || le(s[j - 1], x)
    ensures Insert(s, x, le) == s[..j] + [x] + s[j..]
    decreases |s|
  {
    if j < |s| {
      var init, last := s[..|s| - 1], s[|s| - 1];
      assert !le(last, x);
      assert Insert(s, x, le) == Insert(init, x, le) + [last];
      InsertAt(init, x, le, j);
      assert s[..j] == init[..j] && s[j..] == init[j..] + [last];
    } else {
      assert s[..j] == s;
    }
  }

  /** `Insert` places `x` somewhere and keeps the rest in order. */
  lemma {:induction false} InsertPosition<T>(s: seq<T>, x: T, le: (T, T) -> bool) returns (j: nat)
    ensures j <= |s| && Insert(s, x, le) == s[..j] + [x] + s[j..]
  {
    if s == [] || le(s[|s| - 1], x) {
      j := |s|;
      assert s[..j] == s;
    } else {
      var init, last := s[..|s| - 1], s[|s| - 1];
      j := InsertPosition(init, x, le);
      assert s[..j] == init[..j] && s[j..] == init[j..] + [last];
    }
  }

  /**
    One pass of insertion sort: `a[i]` moves left past every greater element
    of the sorted prefix `a[..i]`.
   */
  method InsertIntoPrefix<T>(a: array<T>, i: nat, le: (T, T) -> bool)
    requires i < a.Length
    modifies a
    ensures a[..i + 1] == Insert(old(a[..i]), old(a[i]), le)
    ensures a[i + 1..] == old(a[i + 1..])
  {
    ghost var p := a[..i];
    var x := a[i];
    var j := i;
    while j > 0 && !le(a[j - 1], x)
      invariant 0 <= j <= i
      invariant a[..j] == p[..j]
      invariant a[j + 1..i + 1] == p[j..i]
      invariant forall k :: j <= k < i ==> !le(p[k], x)
      invariant a[i + 1..] == old(a[i + 1..])
    {
      a[j] := a[j - 1];
      j := j - 1;
    }
    a[j] := x;
    InsertAt(p, x, le, j);
    assert a[..i + 1] == a[..j] + [x] + a[j + 1..i + 1];
  }

  /** Sorting one more element of `s` inserts it into the sorted prefix. */
  lemma SortPrefixStep<T>(s: seq<T>, i: nat, le: (T, T) -> bool)
    requires i < |s|
    ensures Sort(s[..i + 1], le) == Insert(Sort(s[..i], le), s[i], le)
  {
    assert s[..i + 1][..i] == s[..i];
  }

  /**
    Sorts `a` in place by insertion, the way a stable library sort leaves it:
    the result equals `Sort` of the original contents.
   */
  method SortInPlace<T>(a: array<T>, le: (T, T) -> bool)
    modifies a
    ensures a[..] == Sort(old(a[..]), le)
  {
    ghost var orig := a[..];
    var i := 0;
    while i < a.Length
      invariant 0 <= i <= a.Length
      invariant a[..i] == Sort(orig[..i], le)
      invariant a[i..] == orig[i..]
    {
      assert a[i] == a[i..][0] == orig[i];
      InsertIntoPrefix(a, i, le);
      SortPrefixStep(orig, i, le);
      assert a[i + 1..] == orig[i + 1..];
      i := i + 1;
    }
    assert a[..] == a[..a.Length] && orig[..a.Length] == orig;
  }

  /**
    Every value of a keyed table exactly once, in `le` order: a table scan
    followed by `ORDER BY`.
   */
  method OrderedValues<K, V(!new)>(m: map<K, V>, keyOf: V -> K, le: (V, V) -> bool) returns (rows: seq<V>)
    requires forall k :: k in m ==> keyOf(m[k]) == k
    requires TotalPreorder(le)
    ensures |rows| == |m|
    ensures forall i :: 0 <= i < |rows| ==> keyOf(rows[i]) in m && m[keyOf(rows[i])] == rows[i]
    ensures forall i, j :: 0 <= i < j < |rows| ==> keyOf(rows[i]) != keyOf(rows[j])
    ensures Sorted(rows, le)
  {
    rows := [];
    var pending := m.Keys;
    while pending != {}
      invariant pending <= m.Keys
      invariant |rows| + |pending| == |m|
      invariant Rows(rows, m, keyOf, pending)
      invariant Sorted(rows, le)
      decreases pending
    {
      var k :| k in pending;
      InsertSorted(rows, m[k], le);
      RowsInsert(rows, m, keyOf, pending, k, le);
      rows := Insert(rows, m[k], le);
      pending := pending - {k};
    }
  }

  /** The rows returned so far: stored values, keys distinct and no longer pending. */
  ghost predicate Rows<K, V>(rows: seq<V>, m: map<K, V>, keyOf: V -> K, pending: set<K>)
  {
    (forall i :: 0 <= i < |rows| ==> keyOf(rows[i]) in m && keyOf(rows[i]) !in pending) &&
    (forall i :: 0 <= i < |rows| ==> m[keyOf(rows[i])] == rows[i]) &&
    (forall i, j :: 0 <= i < j < |rows| ==> keyOf(rows[i]) != keyOf(rows[j]))
  }

  /** Taking one pending key's value into the sorted rows keeps them a set of stored rows. */
  lemma RowsInsert<K, V>(rows: seq<V>, m: map<K, V>, keyOf: V -> K, pending: set<K>, k: K, le: (V, V) -> bool)
    requires Rows(rows, m, keyOf, pending)
    requires k in pending && k in m && keyOf(m[k]) == k
    ensures |Insert(rows, m[k], le)| == |rows| + 1
    ensures Rows(Insert(rows, m[k], le), m, keyOf, pending - {k})
  {
    var at := InsertPosition(rows, m[k], le);
    var r := Insert(rows, m[k], le);
    assert forall i :: 0 <= i < |r| ==>
      r[i] == (if i < at then rows[i] else if i == at then m[k] else rows[i - 1]);
  }
}
