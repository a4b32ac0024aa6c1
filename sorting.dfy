/** `Array.prototype.sort` with a comparator: a stable sort, so rows the
    comparator ties keep their relative order. The comparator is given as
    the relation "may come before" (`compare(a, b) <= 0`), which a sensible
    comparator makes a total preorder. */
module Sorting {
  import opened Seqs

  /** Every two elements are comparable. */
  ghost predicate Total<T(!new)>(before: (T, T) -> bool) {
    forall a, b :: before(a, b) || before(b, a)
  }

  /** "May come before" chains. */
  ghost predicate Transitive<T(!new)>(before: (T, T) -> bool) {
    forall a, b, c :: before(a, b) && before(b, c) ==> before(a, c)
  }

  ghost predicate TotalPreorder<T(!new)>(before: (T, T) -> bool) {
    Total(before) && Transitive(before)
  }

  /** Each element may come before its successor. */
  predicate Sorted<T>(s: seq<T>, before: (T, T) -> bool) {
    forall i :: 0 < i < |s| ==> before(s[i - 1], s[i])
  }

  /** The elements of `s` that the order ties with `k`, in their order in `s`. */
  function TiesOf<T(!new)>(s: seq<T>, k: T, before: (T, T) -> bool): seq<T> {
    Filter(s, (x: T) => before(x, k) && before(k, x))
  }

  /** Insert `x` into `t` after every element it does not strictly precede:
      the step a stable insertion sort takes for its next element. */
  function InsertStable<T(!new)>(t: seq<T>, x: T, before: (T, T) -> bool): (r: seq<T>)
    requires Total(before)
    ensures multiset(r) == multiset(t) + multiset{x}
    ensures r[|r| - 1] == x || (t != [] && r[|r| - 1] == t[|t| - 1])
    ensures Sorted(t, before) ==> Sorted(r, before)
  {
    if t == [] || before(t[|t| - 1], x) then
      t + [x]
    else
      var init, y := t[..|t| - 1], t[|t| - 1];
      var r' := InsertStable(init, x, before);
      assert t == init + [y];
      assert Sorted(t, before) ==> Sorted(r' + [y], before) by {
        if Sorted(t, before) {
          assert Sorted(init, before);
          assert before(r'[|r'| - 1], y);
          SortedAppend(r', y, before);
        }
      }
      r' + [y]
  }

  /** A sorted sequence stays sorted when an element its last element may
      come before is appended. */
  lemma SortedAppend<T>(r': seq<T>, y: T, before: (T, T) -> bool)
    requires Sorted(r', before) && r' != [] && before(r'[|r'| - 1], y)
    ensures Sorted(r' + [y], before)
  {
    var r := r' + [y];
    forall i | 0 < i < |r| ensures before(r[i - 1], r[i]) {
      if i < |r'| {
        assert r[i - 1] == r'[i - 1] && r[i] == r'[i];
      }
    }
  }

  /** The stable sort: a permutation of `s` in which each element may come
      before the next. */
  function StableSort<T(!new)>(s: seq<T>, before: (T, T) -> bool): (r: seq<T>)
    requires TotalPreorder(before)
    ensures multiset(r) == multiset(s)
    ensures Sorted(r, before)
  {
    if s == [] then []
    else
      assert s == s[..|s| - 1] + [s[|s| - 1]];
      InsertStable(StableSort(s[..|s| - 1], before), s[|s| - 1], before)
  }

  /** Appending one element extends the ties of `k` by it when it is tied. */
  lemma TiesOfAppend<T(!new)>(s: seq<T>, x: T, k: T, before: (T, T) -> bool)
    ensures TiesOf(s + [x], k, before) ==
            TiesOf(s, k, before) + (if before(x, k) && before(k, x) then [x] else [])
  {
    assert (s + [x])[..|s + [x]| - 1] == s;
  }

  /** Inserting `x` only ever passes elements strictly after it, so for every
      `k` the elements tied with `k` end up in the order of `t + [x]`. */
  lemma {:induction false} InsertStableTies<T(!new)>(t: seq<T>, x: T, k: T, before: (T, T) -> bool)
    requires TotalPreorder(before)
    ensures TiesOf(InsertStable(t, x, before), k, before) == TiesOf(t + [x], k, before)
  {
    if t != [] && !before(t[|t| - 1], x) {
      var init, y := t[..|t| - 1], t[|t| - 1];
      var r' := InsertStable(init, x, before);
      assert t == init + [y];
      InsertStableTies(init, x, k, before);
      TransitiveAt(y, k, x, before);
      TiesSwap(init, x, y, r', k, before);
    }
  }

  /** Appending `y` behind `r'` and `x` behind `init + [y]` gives the same
      ties of `k` when `r'` and `init + [x]` do, as long as `x` and `y` are not
      both tied with `k`. */
  lemma TiesSwap<T(!new)>(init: seq<T>, x: T, y: T, r': seq<T>, k: T, before: (T, T) -> bool)
    requires TiesOf(r', k, before) == TiesOf(init + [x], k, before)
    requires !(before(x, k) && before(k, x) && before(y, k) && before(k, y))
    ensures TiesOf(r' + [y], k, before) == TiesOf(init + [y] + [x], k, before)
  {
    var ties := TiesOf(init, k, before);
    TiesOfAppend(r', y, k, before);
    TiesOfAppend(init, x, k, before);
    TiesOfAppend(init, y, k, before);
    TiesOfAppend(init + [y], x, k, before);
    if before(x, k) && before(k, x) {
      assert TiesOf(init + [y] + [x], k, before) == ties + [x];
    } else if before(y, k) && before(k, y) {
      assert TiesOf(init + [y] + [x], k, before) == ties + [y];
    } else {
      assert TiesOf(init + [y] + [x], k, before) == ties;
    }
  }

  /** One step of transitivity. */
  lemma TransitiveAt<T(!new)>(a: T, b: T, c: T, before: (T, T) -> bool)
    requires Transitive(before)
    ensures before(a, b) && before(b, c) ==> before(a, c)
  {
  }

  /** The sort is stable: for every `k`, the elements tied with `k` appear in
      the result in the order they had in `s`. */
  lemma {:induction false} SortIsStable<T(!new)>(s: seq<T>, k: T, before: (T, T) -> bool)
    requires TotalPreorder(before)
    ensures TiesOf(StableSort(s, before), k, before) == TiesOf(s, k, before)
  {
    if s != [] {
      var init, x := s[..|s| - 1], s[|s| - 1];
      assert s == init + [x];
      SortIsStable(init, k, before);
      InsertStableTies(StableSort(init, before), x, k, before);
      TiesOfAppend(StableSort(init, before), x, k, before);
      TiesOfAppend(init, x, k, before);
    }
  }

  /** In a sorted sequence every element may come before every later one. */
  lemma {:induction false} SortedAllPairs<T(!new)>(s: seq<T>, before: (T, T) -> bool, i: nat, j: nat)
    requires TotalPreorder(before) && Sorted(s, before)
    requires i < j < |s|
    ensures before(s[i], s[j])
    decreases j - i
  {
    if i + 1 < j {
      SortedAllPairs(s, before, i, j - 1);
    }
  }

  /** Dropping the first element keeps a sequence sorted. */
  lemma SortedTail<T>(s: seq<T>, before: (T, T) -> bool)
    requires s != [] && Sorted(s, before)
    ensures Sorted(s[1..], before)
  {
    forall i | 0 < i < |s| - 1 ensures before(s[1..][i - 1], s[1..][i]) {
      assert s[1..][i - 1] == s[i] && s[1..][i] == s[i + 1];
    }
  }

  /** Equal multisets with the same first element have equal tails. */
  lemma SameHeadTails<T>(s: seq<T>, t: seq<T>)
    requires s != [] && t != [] && s[0] == t[0]
    requires multiset(s) == multiset(t)
    ensures multiset(s[1..]) == multiset(t[1..])
  {
    assert s == [s[0]] + s[1..] && t == [t[0]] + t[1..];
    assert multiset(s[1..]) == multiset(s) - multiset{s[0]};
    assert multiset(t[1..]) == multiset(t) - multiset{t[0]};
  }

  /** Two sorted arrangements of the same non-empty multiset start with the
      same element when the order ties no two different elements: each first
      element may come before the other. */
  lemma SortedHeads<T(!new)>(s: seq<T>, t: seq<T>, before: (T, T) -> bool)
    requires TotalPreorder(before)
    requires Sorted(s, before) && Sorted(t, before)
    requires s != [] && multiset(s) == multiset(t)
    requires forall a, b :: a in s && b in s && before(a, b) && before(b, a) ==> a == b
    ensures t != [] && s[0] == t[0]
  {
    assert |t| == |s| by { assert |multiset(t)| == |multiset(s)|; }
    var x, y := s[0], t[0];
    assert y in multiset(s) by { assert y in multiset(t); }
    assert x in multiset(t) by { assert x in multiset(s); }
    var j :| 0 <= j < |s| && s[j] == y;
    var k :| 0 <= k < |t| && t[k] == x;
    if j > 0 && k > 0 {
      SortedAllPairs(s, before, 0, j);
      SortedAllPairs(t, before, 0, k);
      assert y in s;
    }
  }

  /** Two sorted arrangements of the same elements are equal when the order
      ties no two different elements. */
  lemma {:induction false} SortedUnique<T(!new)>(s: seq<T>, t: seq<T>, before: (T, T) -> bool)
    requires TotalPreorder(before)
    requires Sorted(s, before) && Sorted(t, before)
    requires multiset(s) == multiset(t)
    requires forall a, b :: a in s && b in s && before(a, b) && before(b, a) ==> a == b
    ensures s == t
  {
    if s != [] {
      SortedHeads(s, t, before);
      SameHeadTails(s, t);
      SortedTail(s, before);
      SortedTail(t, before);
      assert forall a :: a in s[1..] ==> a in s;
      SortedUnique(s[1..], t[1..], before);
      assert s == [s[0]] + s[1..] && t == [t[0]] + t[1..];
    }
  }
}
