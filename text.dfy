/** The string primitives the pages rely on: `toLowerCase`, `includes`,
    `Number(s)` on id strings and `String(n)` on the minted id. */
module Text {

  /** `toLowerCase` on one character, for the ASCII range. */
  function LowerChar(c: char): (d: char)
    ensures 'A' <= c <= 'Z' ==> 'a' <= d <= 'z' && d as int - c as int == 32
    ensures !('A' <= c <= 'Z') ==> d == c
  {
    if 'A' <= c <= 'Z' then (c as int + 32) as char else c
  }

  /** `s.toLowerCase()`, character by character. */
  function Lower(s: string): (r: string)
    ensures |r| == |s|
    ensures forall i :: 0 <= i < |s| ==> r[i] == LowerChar(s[i])
    ensures forall i :: 0 <= i < |r| ==> !('A' <= r[i] <= 'Z')
  {
    seq(|s|, i requires 0 <= i < |s| => LowerChar(s[i]))
  }

  /** Lower-casing twice is lower-casing once. */
  lemma LowerIdempotent(s: string)
    ensures Lower(Lower(s)) == Lower(s)
  {
    assert forall i :: 0 <= i < |s| ==> LowerChar(LowerChar(s[i])) == LowerChar(s[i]);
  }

  /** `hay.includes(needle)`: `needle` occurs in `hay` at some offset. */
  predicate Includes(hay: string, needle: string)
    decreases |hay|
  {
    if |needle| > |hay| then false
    else if hay[..|needle|] == needle then true
    else Includes(hay[1..], needle)
  }

  /** `needle` occurs in `hay` starting at offset `k`. */
  predicate OccursAt(hay: string, needle: string, k: int) {
    0 <= k && k + |needle| <= |hay| && hay[k..k + |needle|] == needle
  }

  /** `includes` is the existence of an offset where the needle occurs. */
  lemma {:induction false} IncludesAt(hay: string, needle: string)
    ensures Includes(hay, needle) <==> exists k :: OccursAt(hay, needle, k)
    decreases |hay|
  {
    if |needle| <= |hay| && hay[..|needle|] == needle {
      assert OccursAt(hay, needle, 0);
    } else if |needle| <= |hay| {
      IncludesAt(hay[1..], needle);
      if Includes(hay[1..], needle) {
        var k :| OccursAt(hay[1..], needle, k);
        assert hay[k + 1..k + 1 + |needle|] == hay[1..][k..k + |needle|];
        assert OccursAt(hay, needle, k + 1);
      }
      if exists k :: OccursAt(hay, needle, k) {
        var k :| OccursAt(hay, needle, k);
        assert k != 0;
        assert hay[1..][k - 1..k - 1 + |needle|] == hay[k..k + |needle|];
        assert OccursAt(hay[1..], needle, k - 1);
      }
    }
  }

  /** The empty string occurs in every string. */
  lemma IncludesEmpty(hay: string)
    ensures Includes(hay, "")
  {
    assert hay[..0] == "";
  }

  /** A needle whose first character never occurs in `hay` is not in it. */
  lemma {:induction false} AbsentFirstChar(hay: string, needle: string)
    requires needle != [] && needle[0] !in hay
    ensures !Includes(hay, needle)
    decreases |hay|
  {
    if |needle| <= |hay| {
      assert hay[..|needle|][0] == hay[0];
      AbsentFirstChar(hay[1..], needle);
    }
  }

  /** A prefix of `hay` without the needle's first character can be skipped. */
  lemma {:induction false} SkipPrefix(hay: string, needle: string, k: nat)
    requires needle != [] && k <= |hay| && needle[0] !in hay[..k]
    ensures Includes(hay, needle) ==> Includes(hay[k..], needle)
    decreases k
  {
    if k > 0 && |needle| <= |hay| {
      assert hay[..|needle|][0] == hay[0] == hay[..k][0];
      assert hay[1..][..k - 1] == hay[..k][1..];
      SkipPrefix(hay[1..], needle, k - 1);
      assert hay[1..][k - 1..] == hay[k..];
    }
  }

  predicate IsDigit(c: char) {
    '0' <= c <= '9'
  }

  predicate AllDigits(s: string) {
    forall i :: 0 <= i < |s| ==> IsDigit(s[i])
  }

  /** The value of a string of decimal digits. */
  function DigitsValue(s: string): nat
    requires AllDigits(s)
  {
    if s == [] then 0
    else DigitsValue(s[..|s| - 1]) * 10 + (s[|s| - 1] as int - '0' as int)
  }

  /** The result of JavaScript's `Number(s)` as far as ids are concerned:
      a natural number, or `NaN`. */
  datatype Num = Value(n: nat) | NaN

  /** `Number(s)`: the empty string is 0, a string of decimal digits is its
      value, and every other string is taken to be `NaN`. */
  function NumberOf(s: string): (v: Num)
    ensures s == "" ==> v == Value(0)
    ensures v.Value? <==> AllDigits(s)
    ensures v.Value? ==> v.n == DigitsValue(s)
  {
    if AllDigits(s) then Value(DigitsValue(s)) else NaN
  }

  /** A one-digit string is worth its digit. */
  lemma NumberOfDigit(c: char)
    requires IsDigit(c)
    ensures NumberOf([c]) == Value(c as int - '0' as int)
  {
    assert [c][..0] == [];
    assert DigitsValue([c]) == DigitsValue([]) * 10 + (c as int - '0' as int);
  }

  /** `String(n)` for a natural number: its decimal digits, most significant
      first, without leading zeros. */
  function NatToString(n: nat): (s: string)
    ensures s != [] && AllDigits(s)
    ensures |s| > 1 ==> s[0] != '0'
    decreases n
  {
    var d := ['0' + (n % 10) as char];
    if n < 10 then d else NatToString(n / 10) + d
  }

  /** `Number(String(n)) == n`. */
  lemma {:induction false} NumberOfNatToString(n: nat)
    ensures NumberOf(NatToString(n)) == Value(n)
    ensures DigitsValue(NatToString(n)) == n
    decreases n
  {
    var s := NatToString(n);
    assert s[|s| - 1] as int - '0' as int == n % 10;
    if n >= 10 {
      NumberOfNatToString(n / 10);
      assert s[..|s| - 1] == NatToString(n / 10);
      assert DigitsValue(s) == DigitsValue(NatToString(n / 10)) * 10 + n % 10;
    }
    assert DigitsValue(s) == n;
    assert NumberOf(s) == Value(DigitsValue(s));
  }
}
