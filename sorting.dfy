/**
 * A stable insertion sort, the model of both `Array.prototype.sort` (stable
 * since ES2019) on the client and `sort.SliceStable` on the server. `less(a, b)`
 * says that `a` must come before `b`; a later element moves in front of an
 * earlier one only when it is strictly `less`.
 */
module Sorting {
  import opened Lists

  /** Inserts `x` at the end of `s`, then moves it left past every element it is `less` than. */
  function Insert<T>(s: seq<T>, x: T, less: (T, T) -> bool): (r: seq<T>)
    ensures |r| == |s| + 1
  {
    if s == [] || !less(x, s[|s| - 1]) then s + [x]
    else Insert(s[..|s| - 1], x, less) + [s[|s| - 1]]
  }

  /** Sorts `s` by inserting its elements one by one, left to right. */
  function Sort<T>(s: seq<T>, less: (T, T) -> bool): (r: seq<T>)
    ensures |r| == |s|
  {
    if s == [] then []
    else Insert(Sort(s[..|s| - 1], less), s[|s| - 1], less)
  }

  /** Two elements swap exactly when the second is `less` than the first. */
  lemma SortPair<T>(x: T, y: T, less: (T, T) -> bool)
    ensures Sort([x, y], less) == if less(y, x) then [y, x] else [x, y]
  {
    assert [x, y][..1] == [x];
    assert Sort([x], less) == [x];
    assert Insert([x], y, less) == if less(y, x) then Insert([], y, less) + [x] else [x, y];
  }

  /** The insertion adds exactly `x`. */
  lemma {:induction false} InsertPermutes<T>(s: seq<T>, x: T, less: (T, T) -> bool)
    ensures multiset(Insert(s, x, less)) == multiset(s) + multiset{x}
  {
    if s != [] && less(x, s[|s| - 1]) {
      var init := s[..|s| - 1];
      InsertPermutes(init, x, less);
      assert s == init + [s[|s| - 1]];
    }
  }

  /** The sort returns a permutation of its input. */
  lemma {:induction false} SortPermutes<T>(s: seq<T>, less: (T, T) -> bool)
    ensures multiset(Sort(s, less)) == multiset(s)
  {
    if s != [] {
      var init := s[..|s| - 1];
      SortPermutes(init, less);
      InsertPermutes(Sort(init, less), s[|s| - 1], less);
      assert s == init + [s[|s| - 1]];
    }
  }

  /** Sorting `s + [x]` inserts `x` into the sorted `s`. */
  lemma SortSnoc<T>(s: seq<T>, x: T, less: (T, T) -> bool)
    ensures Sort(s + [x], less) == Insert(Sort(s, less), x, less)
  {
    assert (s + [x])[..|s|] == s;
  }

  /** `le` is total and transitive on the elements of `d`. */
  ghost predicate TotalPreorderOn<T(!new)>(le: (T, T) -> bool, d: seq<T>) {
    && (forall a, b :: a in d && b in d ==> le(a, b) || le(b, a))
    && (forall a, b, c :: a in d && b in d && c in d && le(a, b) && le(b, c) ==> le(a, c))
  }

  /**
   * On `d`, `less` never puts an element before one that `le` ranks strictly
   * lower, and always puts it before one that `le` ranks strictly higher.
   * `less` may distinguish elements `le` ranks equal, or not.
   */
  ghost predicate CompatibleOn<T(!new)>(less: (T, T) -> bool, le: (T, T) -> bool, d: seq<T>) {
    forall a, b :: a in d && b in d ==> (less(a, b) ==> le(a, b)) && (!le(b, a) ==> less(a, b))
  }

  /** `s` runs in `le` order. */
  ghost predicate SortedBy<T>(s: seq<T>, le: (T, T) -> bool) {
    forall i, j :: 0 <= i < j < |s| ==> le(s[i], s[j])
  }

  lemma {:induction false} InsertSorted<T(!new)>(s: seq<T>, x: T, less: (T, T) -> bool, le: (T, T) -> bool, d: seq<T>)
    requires forall e :: e in s ==> e in d
    requires x in d
    requires TotalPreorderOn(le, d) && CompatibleOn(less, le, d)
    requires SortedBy(s, le)
    ensures SortedBy(Insert(s, x, less), le)
  {
    if s == [] {
    } else if !less(x, s[|s| - 1]) {
      var last := s[|s| - 1];
      assert le(last, x);
      var r := s + [x];
      forall i, j | 0 <= i < j < |r| ensures le(r[i], r[j]) {
        if j == |s| && i < |s| - 1 {
          assert le(s[i], last);
        }
      }
    } else {
      var init, last := s[..|s| - 1], s[|s| - 1];
      assert le(x, last);
      InsertSorted(init, x, less, le, d);
      var m := Insert(init, x, less);
      InsertPermutes(init, x, less);
      forall e | e in m ensures le(e, last) {
        assert e in multiset(m);
        if e != x {
          assert e in multiset(init);
          var k :| 0 <= k < |init| && init[k] == e;
          assert s[k] == e;
        }
      }
      var r := m + [last];
      forall i, j | 0 <= i < j < |r| ensures le(r[i], r[j]) {
        if j == |m| { assert r[i] in m; }
      }
    }
  }

  /**
   * The sort puts `s` in `le` order for every total preorder `le` that `less`
   * is compatible with on the elements of `s`.
   */
  lemma {:induction false} SortSorted<T(!new)>(s: seq<T>, less: (T, T) -> bool, le: (T, T) -> bool)
    requires TotalPreorderOn(le, s) && CompatibleOn(less, le, s)
    ensures SortedBy(Sort(s, less), le)
  {
    SortSortedWithin(s, less, le, s);
  }

  lemma {:induction false} SortSortedWithin<T(!new)>(s: seq<T>, less: (T, T) -> bool, le: (T, T) -> bool, d: seq<T>)
    requires forall e :: e in s ==> e in d
    requires TotalPreorderOn(le, d) && CompatibleOn(less, le, d)
    ensures SortedBy(Sort(s, less), le)
  {
    if s != [] {
      var init := s[..|s| - 1];
      SortSortedWithin(init, less, le, d);
      var sorted := Sort(init, less);
      SortPermutes(init, less);
      forall e | e in sorted ensures e in d {
        assert e in multiset(sorted);
      }
      InsertSorted(sorted, s[|s| - 1], less, le, d);
    }
  }

  lemma {:induction false} InsertFilter<T(!new)>(s: seq<T>, x: T, less: (T, T) -> bool, p: T -> bool)
    requires forall e :: e in s && p(e) && p(x) ==> !less(x, e)
    ensures Filter(Insert(s, x, less), p) == Filter(s, p) + (if p(x) then [x] else [])
  {
    if s == [] || !less(x, s[|s| - 1]) {
      FilterSnoc(s, x, p);
    } else {
      var init, last := s[..|s| - 1], s[|s| - 1];
      assert s == init + [last];
      InsertFilter(init, x, less, p);
      FilterSnoc(Insert(init, x, less), last, p);
      FilterSnoc(init, last, p);
    }
  }

  /**
   * Stability: the elements satisfying `p` keep their input order, provided
   * `less` orders no two of them.
   */
  lemma {:induction false} SortStable<T(!new)>(s: seq<T>, less: (T, T) -> bool, p: T -> bool)
    requires forall a, b :: a in s && b in s && p(a) && p(b) ==> !less(a, b)
    ensures Filter(Sort(s, less), p) == Filter(s, p)
  {
    if s != [] {
      var init, last := s[..|s| - 1], s[|s| - 1];
      assert s == init + [last];
      SortStable(init, less, p);
      var sorted := Sort(init, less);
      SortPermutes(init, less);
      forall e | e in sorted && p(e) && p(last) ensures !less(last, e) {
        assert e in multiset(sorted);
      }
      InsertFilter(sorted, last, less, p);
      FilterSnoc(init, last, p);
    }
  }

  /** No element is `less` than the one just before it. */
  ghost predicate NoDescent<T>(s: seq<T>, less: (T, T) -> bool) {
    forall i :: 0 < i < |s| ==> !less(s[i], s[i - 1])
  }

  /** A sequence in which no element is `less` than its predecessor is left as it is. */
  lemma {:induction false} SortIdentity<T>(s: seq<T>, less: (T, T) -> bool)
    requires NoDescent(s, less)
    ensures Sort(s, less) == s
  {
    if s != [] {
      var init := s[..|s| - 1];
      assert NoDescent(init, less);
      SortIdentity(init, less);
      assert s == init + [s[|s| - 1]];
    }
  }

  /** `less` never orders two elements both ways. */
  ghost predicate Asymmetric<T(!new)>(less: (T, T) -> bool) {
    forall a, b :: less(a, b) ==> !less(b, a)
  }

  lemma {:induction false} InsertNoDescent<T(!new)>(s: seq<T>, x: T, less: (T, T) -> bool)
    requires Asymmetric(less) && NoDescent(s, less)
    ensures NoDescent(Insert(s, x, less), less)
  {
    if s != [] && less(x, s[|s| - 1]) {
      var init, last := s[..|s| - 1], s[|s| - 1];
      assert NoDescent(init, less);
      InsertNoDescent(init, x, less);
      var m := Insert(init, x, less);
      assert m[|m| - 1] == x || (init != [] && m[|m| - 1] == init[|init| - 1]);
      var r := m + [last];
      forall i | 0 < i < |r| ensures !less(r[i], r[i - 1]) {
        if i == |m| && m[|m| - 1] != x {
          assert init[|init| - 1] == s[|s| - 2];
        }
      }
    }
  }

  /**
   * For an asymmetric `less` the sort leaves no element `less` than its
   * predecessor, even when `less` is not transitive.
   */
  lemma {:induction false} SortNoDescent<T(!new)>(s: seq<T>, less: (T, T) -> bool)
    requires Asymmetric(less)
    ensures NoDescent(Sort(s, less), less)
  {
    if s != [] {
      SortNoDescent(s[..|s| - 1], less);
      InsertNoDescent(Sort(s[..|s| - 1], less), s[|s| - 1], less);
    }
  }

  /** Sorting twice is sorting once. */
  lemma SortIdempotent<T(!new)>(s: seq<T>, less: (T, T) -> bool)
    requires Asymmetric(less)
    ensures Sort(Sort(s, less), less) == Sort(s, less)
  {
    SortNoDescent(s, less);
    SortIdentity(Sort(s, less), less);
  }

  /** One step of the insertion: `x` moves left past `s[j - 1]`. */
  lemma InsertStep<T>(s: seq<T>, j: nat, x: T, less: (T, T) -> bool)
    requires 0 < j <= |s| && less(x, s[j - 1])
    ensures Insert(s[..j], x, less) + s[j..] == Insert(s[..j - 1], x, less) + s[j - 1..]
  {
    assert s[..j][..j - 1] == s[..j - 1];
    assert s[j - 1..] == [s[j - 1]] + s[j..];
  }

  /** The insertion stops once `x` is not `less` than its left neighbour. */
  lemma InsertStop<T>(s: seq<T>, j: nat, x: T, less: (T, T) -> bool)
    requires j <= |s| && (j == 0 || !less(x, s[j - 1]))
    ensures Insert(s[..j], x, less) == s[..j] + [x]
  {
  }

  /** Moves `a[i]` left into the sorted prefix `a[..i]`, shifting larger elements right. */
  method InsertInPlace<T>(a: array<T>, i: nat, less: (T, T) -> bool)
    requires i < a.Length
    modifies a
    ensures a[..i + 1] == Insert(old(a[..i]), old(a[i]), less)
    ensures a[i + 1..] == old(a[i + 1..])
  {
    ghost var sorted := a[..i];
    ghost var rest := a[i + 1..];
    var x := a[i];
    var j := i;
    while j > 0 && less(x, a[j - 1])
      invariant 0 <= j <= i
      invariant a[..j] == sorted[..j]
      invariant a[j + 1..i + 1] == sorted[j..]
      invariant a[i + 1..] == rest
      invariant Insert(sorted, x, less) == Insert(sorted[..j], x, less) + sorted[j..]
    {
      InsertStep(sorted, j, x, less);
      ShiftRight(a[..], sorted, j, i);
      a[j] := a[j - 1];
      j := j - 1;
    }
    a[j] := x;
    InsertStop(sorted, j, x, less);
    assert a[..i + 1] == a[..j] + [x] + a[j + 1..i + 1];
  }

  /** Copying `a[j - 1]` into `a[j]` extends the shifted block by one to the left. */
  lemma ShiftRight<T>(s: seq<T>, sorted: seq<T>, j: nat, i: nat)
    requires 0 < j <= i < |s| && |sorted| == i
    requires s[..j] == sorted[..j] && s[j + 1..i + 1] == sorted[j..]
    ensures var t := s[j := s[j - 1]];
      t[..j - 1] == sorted[..j - 1] && t[j..i + 1] == sorted[j - 1..] && t[i + 1..] == s[i + 1..]
  {
    var t := s[j := s[j - 1]];
    assert t[j..i + 1] == [sorted[j - 1]] + s[j + 1..i + 1];
    assert sorted[j - 1..] == [sorted[j - 1]] + sorted[j..];
  }

  /**
   * Sorts `a` in place by insertion, as `sort.SliceStable` does for short
   * slices; the result is the stable sort of the old contents.
   */
  method SortInPlace<T>(a: array<T>, less: (T, T) -> bool)
    modifies a
    ensures a[..] == Sort(old(a[..]), less)
  {
    ghost var input := a[..];
    var i := 0;
    while i < a.Length
      invariant 0 <= i <= a.Length
      invariant a[..i] == Sort(input[..i], less)
      invariant a[i..] == input[i..]
    {
      SortStep(a[..], input, i, less);
      InsertInPlace(a, i, less);
      i := i + 1;
    }
    assert a[..] == a[..a.Length];
    assert input == input[..a.Length];
  }

  /** Inserting `s[i]` into the sorted prefix sorts one more element of the input. */
  lemma SortStep<T>(s: seq<T>, input: seq<T>, i: nat, less: (T, T) -> bool)
    requires i < |s| == |input|
    requires s[..i] == Sort(input[..i], less) && s[i..] == input[i..]
    ensures Insert(s[..i], s[i], less) == Sort(input[..i + 1], less)
    ensures s[i + 1..] == input[i + 1..]
  {
    assert s[i] == s[i..][0] == input[i];
    assert input[..i + 1] == input[..i] + [input[i]];
    SortSnoc(input[..i], input[i], less);
    assert s[i + 1..] == s[i..][1..];
  }
}
