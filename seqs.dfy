/** Sequence operations shared by the list pages: `Array.prototype.filter`,
    `[...new Set(xs)]` and the "toggle membership" update that every page
    repeats for its category lists. */
module Seqs {

  /** `a` can be obtained from `b` by deleting elements (order is kept). */
  predicate IsSubsequence<T(==,!new)>(a: seq<T>, b: seq<T>)
    decreases |b|
  {
    if a == [] then true
    else if b == [] then false
    else (a[|a| - 1] == b[|b| - 1] && IsSubsequence(a[..|a| - 1], b[..|b| - 1]))
         || IsSubsequence(a, b[..|b| - 1])
  }

  /** No element occurs twice. */
  predicate NoDup<T(==,!new)>(s: seq<T>) {
    forall i, j :: 0 <= i < j < |s| ==> s[i] != s[j]
  }

  /** `s.filter(p)`: exactly the elements satisfying `p`, each as often as
      in `s`, in their original order. */
  function Filter<T(!new)>(s: seq<T>, p: T -> bool): (r: seq<T>)
    ensures |r| <= |s|
    ensures forall x :: x in r <==> x in s && p(x)
    ensures forall x :: multiset(r)[x] == if p(x) then multiset(s)[x] else 0
    ensures IsSubsequence(r, s)
  {
    if s == [] then []
    else
      var x := s[|s| - 1];
      var rest := Filter(s[..|s| - 1], p);
      assert s == s[..|s| - 1] + [x];
      if p(x) then rest + [x] else rest
  }

  /** A filter that every element passes is the identity. */
  lemma {:induction false} FilterKeepsAll<T(!new)>(s: seq<T>, p: T -> bool)
    requires forall x :: x in s ==> p(x)
    ensures Filter(s, p) == s
  {
    if s != [] {
      var init, x := s[..|s| - 1], s[|s| - 1];
      assert s == init + [x];
      assert p(x);
      FilterKeepsAll(init, p);
      assert Filter(s, p) == Filter(init, p) + [x];
    }
  }

  /** A filter that no element passes yields the empty sequence. */
  lemma FilterDropsAll<T(!new)>(s: seq<T>, p: T -> bool)
    requires forall x :: x in s ==> !p(x)
    ensures Filter(s, p) == []
  {
    if Filter(s, p) != [] {
      assert Filter(s, p)[0] in Filter(s, p);
    }
  }

  /** `s.filter(y => y !== x)`. */
  function Without<T(==,!new)>(s: seq<T>, x: T): (r: seq<T>)
    ensures x !in r
    ensures forall y :: y != x ==> (y in r <==> y in s)
    ensures IsSubsequence(r, s)
    ensures |r| == |s| - multiset(s)[x]
  {
    var r := Filter(s, (y: T) => y != x);
    assert |r| == |multiset(r)| == |multiset(s)| - multiset(s)[x] by {
      assert multiset(r) == multiset(s)[x := 0];
    }
    r
  }

  /** Removing an absent element changes nothing. */
  lemma {:induction false} WithoutAbsent<T(!new)>(s: seq<T>, x: T)
    requires x !in s
    ensures Without(s, x) == s
  {
    if s != [] {
      var init := s[..|s| - 1];
      assert s == init + [s[|s| - 1]];
      WithoutAbsent(init, x);
    }
  }

  /** Removal appended after an absent element is undone by removing it. */
  lemma WithoutAppended<T(!new)>(s: seq<T>, x: T)
    requires x !in s
    ensures Without(s + [x], x) == s
  {
    assert (s + [x])[..|s + [x]| - 1] == s;
    WithoutAbsent(s, x);
  }

  /** A subsequence of a duplicate-free sequence is duplicate-free. */
  lemma {:induction false} SubsequenceNoDup<T(!new)>(a: seq<T>, b: seq<T>)
    requires IsSubsequence(a, b) && NoDup(b)
    ensures NoDup(a)
    ensures forall x :: x in a ==> x in b
    decreases |b|
  {
    if a != [] && b != [] {
      var a', b' := a[..|a| - 1], b[..|b| - 1];
      assert NoDup(b') by {
        forall i, j | 0 <= i < j < |b'| ensures b'[i] != b'[j] {
          assert b'[i] == b[i] && b'[j] == b[j];
        }
      }
      if a[|a| - 1] == b[|b| - 1] && IsSubsequence(a', b') {
        SubsequenceNoDup(a', b');
        assert a == a' + [a[|a| - 1]];
        assert b == b' + [b[|b| - 1]];
        assert b[|b| - 1] !in b' by {
          forall k | 0 <= k < |b'| ensures b'[k] != b[|b| - 1] {
            assert b'[k] == b[k];
          }
        }
        forall i, j | 0 <= i < j < |a| ensures a[i] != a[j] {
          if j < |a| - 1 {
            assert a[i] == a'[i] && a[j] == a'[j];
          } else {
            assert a[i] == a'[i] && a'[i] in a';
          }
        }
      } else {
        SubsequenceNoDup(a, b');
      }
    }
  }

  /** The `toggleCategory` / `toggleCategoryFilter` update:
      `s.includes(x) ? s.filter(c => c !== x) : [...s, x]`. */
  function Toggle<T(==,!new)>(s: seq<T>, x: T): (r: seq<T>)
    ensures x in r <==> x !in s
    ensures forall y :: y != x ==> (y in r <==> y in s)
    ensures x !in s ==> r == s + [x]
    ensures x in s ==> IsSubsequence(r, s) && |r| == |s| - multiset(s)[x]
    ensures NoDup(s) ==> NoDup(r)
  {
    if x in s then
      var r := Without(s, x);
      assert NoDup(s) ==> NoDup(r) by {
        if NoDup(s) { SubsequenceNoDup(r, s); }
      }
      r
    else
      s + [x]
  }

  /** Toggling twice restores membership, and restores the very sequence
      when the element was absent. */
  lemma ToggleTwice<T(!new)>(s: seq<T>, x: T)
    ensures forall y :: y in Toggle(Toggle(s, x), x) <==> y in s
    ensures x !in s ==> Toggle(Toggle(s, x), x) == s
  {
    if x !in s {
      WithoutAppended(s, x);
    }
  }

  /** `s` back to front. */
  function Reverse<T>(s: seq<T>): (r: seq<T>)
    ensures |r| == |s|
    ensures forall i :: 0 <= i < |s| ==> r[i] == s[|s| - 1 - i]
  {
    seq(|s|, i requires 0 <= i < |s| => s[|s| - 1 - i])
  }

  /** Reversing keeps every element with its multiplicity. */
  lemma {:induction false} ReverseMultiset<T>(s: seq<T>)
    ensures multiset(Reverse(s)) == multiset(s)
  {
    if s != [] {
      var init, x := s[..|s| - 1], s[|s| - 1];
      assert Reverse(s) == [x] + Reverse(init);
      ReverseMultiset(init);
      assert s == init + [x];
    }
  }

  /** Index of the first occurrence of `x` in `s`. */
  function FirstIndex<T(==,!new)>(s: seq<T>, x: T): (k: nat)
    requires x in s
    ensures k < |s| && s[k] == x
    ensures forall i :: 0 <= i < k ==> s[i] != x
  {
    var init := s[..|s| - 1];
    if x in init then
      FirstIndex(init, x)
    else
      |s| - 1
  }

  /** `[...new Set(s)]`: each distinct element once, in order of first
      occurrence. */
  function Distinct<T(==,!new)>(s: seq<T>): (r: seq<T>)
    ensures NoDup(r)
    ensures forall x :: x in r <==> x in s
    ensures IsSubsequence(r, s)
    ensures forall i, j :: 0 <= i < j < |r| ==> FirstIndex(s, r[i]) < FirstIndex(s, r[j])
  {
    if s == [] then []
    else
      var init, x := s[..|s| - 1], s[|s| - 1];
      var d := Distinct(init);
      assert s == init + [x];
      if x in d then
        DistinctKeeps(init, x, d);
        d
      else
        DistinctAdds(init, x, d);
        d + [x]
  }

  /** Appending leaves the first index of an earlier element alone. */
  lemma FirstIndexAppend<T(!new)>(init: seq<T>, x: T, y: T)
    requires y in init
    ensures FirstIndex(init + [x], y) == FirstIndex(init, y)
  {
    assert (init + [x])[..|init|] == init;
  }

  /** The step of `Distinct` for a last element already seen. */
  lemma DistinctKeeps<T(!new)>(init: seq<T>, x: T, d: seq<T>)
    requires x in d
    requires forall y :: y in d <==> y in init
    requires IsSubsequence(d, init)
    requires forall i, j :: 0 <= i < j < |d| ==> FirstIndex(init, d[i]) < FirstIndex(init, d[j])
    ensures forall y :: y in d <==> y in init + [x]
    ensures IsSubsequence(d, init + [x])
    ensures forall i, j :: 0 <= i < j < |d| ==> FirstIndex(init + [x], d[i]) < FirstIndex(init + [x], d[j])
  {
    var s := init + [x];
    assert s[..|s| - 1] == init;
    forall i | 0 <= i < |d| ensures FirstIndex(s, d[i]) == FirstIndex(init, d[i]) {
      FirstIndexAppend(init, x, d[i]);
    }
  }

  /** The step of `Distinct` for a new last element. */
  lemma DistinctAdds<T(!new)>(init: seq<T>, x: T, d: seq<T>)
    requires x !in d
    requires NoDup(d) && forall y :: y in d <==> y in init
    requires IsSubsequence(d, init)
    requires forall i, j :: 0 <= i < j < |d| ==> FirstIndex(init, d[i]) < FirstIndex(init, d[j])
    ensures NoDup(d + [x])
    ensures forall y :: y in d + [x] <==> y in init + [x]
    ensures IsSubsequence(d + [x], init + [x])
    ensures forall i, j :: 0 <= i < j < |d| + 1 ==> FirstIndex(init + [x], (d + [x])[i]) < FirstIndex(init + [x], (d + [x])[j])
  {
    var s, r := init + [x], d + [x];
    assert s[..|s| - 1] == init && r[..|r| - 1] == d;
    assert FirstIndex(s, x) == |s| - 1;
    forall i | 0 <= i < |d| ensures r[i] == d[i] && FirstIndex(s, d[i]) == FirstIndex(init, d[i]) < |s| - 1 {
      FirstIndexAppend(init, x, d[i]);
    }
  }

  /** `Distinct` after one more element: it is added when it is new. */
  lemma DistinctAppend<T(!new)>(s: seq<T>, x: T)
    ensures Distinct(s + [x]) == if x in s then Distinct(s) else Distinct(s) + [x]
  {
    var t := s + [x];
    assert t[..|t| - 1] == s && t[|t| - 1] == x;
  }

  /** The first distinct element is the first element. */
  lemma DistinctHead<T(!new)>(s: seq<T>)
    requires s != []
    ensures Distinct(s) != [] && Distinct(s)[0] == s[0]
  {
    var r := Distinct(s);
    assert s[0] in r;
    var j :| 0 <= j < |r| && r[j] == s[0];
    assert FirstIndex(s, r[j]) == 0;
    assert FirstIndex(s, r[0]) >= 0;
  }
}
