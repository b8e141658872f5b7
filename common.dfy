/** Small value types and string helpers shared by the backend and frontend models. */
module Common {

  /** Python's None / JavaScript's null or missing value, and a present value. */
  datatype Option<T> = None | Some(value: T)

  /** A text encoding of values of type T, such as `json.dumps` / `json.loads` or `JSON.stringify` /
      `JSON.parse`: `de` yields None on text it cannot parse. */
  datatype Codec<!T> = Codec(ser: T -> string, de: string -> Option<T>)

  /** What the backend and frontend rely on of their JSON codec: parsing what was printed gives the value
      back, and printed text is never empty and never starts with 'C' (no JSON text does). */
  ghost predicate JsonLike<T(!new)>(c: Codec<T>) {
    forall v :: c.de(c.ser(v)) == Some(v) && |c.ser(v)| > 0 && c.ser(v)[0] != 'C'
  }

  predicate StartsWith(s: string, prefix: string) {
    |prefix| <= |s| && s[..|prefix|] == prefix
  }

  predicate EndsWith(s: string, suffix: string) {
    |suffix| <= |s| && s[|s| - |suffix|..] == suffix
  }

  /** `t` occurs in `s` as a contiguous substring (Python `in`, JavaScript `includes`). */
  predicate Contains(s: string, t: string) {
    exists i :: 0 <= i <= |s| - |t| && OccursAt(s, t, i)
  }

  predicate OccursAt(s: string, t: string, i: int) {
    0 <= i <= |s| - |t| && s[i..i + |t|] == t
  }

  function DigitChar(d: nat): (c: char)
    requires d < 10
    ensures '0' <= c <= '9'
  {
    ['0', '1', '2', '3', '4', '5', '6', '7', '8', '9'][d]
  }

  /** Decimal rendering of a natural number, as Python's `str` and JavaScript's template strings print it. */
  function NatToString(n: nat): (s: string)
    ensures |s| >= 1
    ensures forall i :: 0 <= i < |s| ==> '0' <= s[i] <= '9'
    decreases n
  {
    if n < 10 then [DigitChar(n)] else NatToString(n / 10) + [DigitChar(n % 10)]
  }

  lemma DigitCharInjective(a: nat, b: nat)
    requires a < 10 && b < 10 && DigitChar(a) == DigitChar(b)
    ensures a == b
  {
  }

  /** Distinct numbers print differently, so keys built from them do not collide. */
  lemma {:induction false} NatToStringInjective(n: nat, m: nat)
    requires NatToString(n) == NatToString(m)
    ensures n == m
    decreases n
  {
    var sn, sm := NatToString(n), NatToString(m);
    if n < 10 && m < 10 {
      DigitCharInjective(n, m);
    } else if n >= 10 && m >= 10 {
      var pn, pm := NatToString(n / 10), NatToString(m / 10);
      assert sn == pn + [DigitChar(n % 10)];
      assert sm == pm + [DigitChar(m % 10)];
      assert |pn| == |pm|;
      assert sn[|sn| - 1] == DigitChar(n % 10) && sm[|sm| - 1] == DigitChar(m % 10);
      DigitCharInjective(n % 10, m % 10);
      assert pn == sn[..|sn| - 1] == sm[..|sm| - 1] == pm;
      NatToStringInjective(n / 10, m / 10);
    }
  }

  /** Python `str(i)` for an integer: a minus sign before the magnitude when negative. */
  function IntToString(i: int): (s: string)
    ensures |s| >= 1
  {
    if i < 0 then "-" + NatToString(-i) else NatToString(i)
  }

  lemma IntToStringInjective(i: int, j: int)
    requires IntToString(i) == IntToString(j)
    ensures i == j
  {
    SignCharIffNegative(i);
    SignCharIffNegative(j);
    if i < 0 {
      var a, b := NatToString(-i), NatToString(-j);
      assert a == ("-" + a)[1..] && b == ("-" + b)[1..];
      NatToStringInjective(-i, -j);
    } else {
      NatToStringInjective(i, j);
    }
  }

  lemma SignCharIffNegative(i: int)
    ensures (IntToString(i)[0] == '-') <==> i < 0
  {
    if i >= 0 {
      assert '0' <= NatToString(i)[0];
    }
  }

  /** ASCII white space: what `\s`, Python `strip` and JavaScript `trim` remove in this model. */
  predicate IsSpace(c: char) {
    c == ' ' || c == '\t' || c == '\n' || c == '\r' || c == '\U{000B}' || c == '\U{000C}'
  }

  /** ASCII lower-casing of one character. */
  function LowerChar(c: char): char {
    if 'A' <= c <= 'Z' then (c as int + 32) as char else c
  }

  /** `toLowerCase` on ASCII text. */
  function ToLower(s: string): (r: string)
    ensures |r| == |s|
    ensures forall i :: 0 <= i < |s| ==> r[i] == LowerChar(s[i])
  {
    if s == [] then [] else [LowerChar(s[0])] + ToLower(s[1..])
  }

  /** Leading white space removed. */
  function TrimStart(s: string): (r: string)
    ensures r == [] || !IsSpace(r[0])
    ensures |r| <= |s| && r == s[|s| - |r|..]
  {
    if s != [] && IsSpace(s[0]) then
      var r := TrimStart(s[1..]);
      assert s[1..][|s| - 1 - |r|..] == s[|s| - |r|..];
      r
    else s
  }

  /** Trailing white space removed. */
  function TrimEnd(s: string): (r: string)
    ensures r == [] || !IsSpace(r[|r| - 1])
    ensures StartsWith(s, r)
  {
    if s != [] && IsSpace(s[|s| - 1]) then TrimEnd(s[..|s| - 1]) else s
  }

  /** Python `strip()` / JavaScript `trim()`. */
  function Trim(s: string): (r: string)
    ensures r == [] || (!IsSpace(r[0]) && !IsSpace(r[|r| - 1]))
  {
    var t := TrimStart(s);
    var r := TrimEnd(t);
    assert r != [] ==> r[0] == t[0];
    r
  }

  /** A string made only of white space trims to the empty string, and only such a string does. */
  lemma {:induction false} TrimEmptyIffAllSpace(s: string)
    ensures Trim(s) == [] <==> forall i :: 0 <= i < |s| ==> IsSpace(s[i])
  {
    AllSpaceTrimStart(s);
    var t := TrimStart(s);
    AllSpaceTrimEnd(t);
  }

  lemma {:induction false} AllSpaceTrimStart(s: string)
    ensures TrimStart(s) == [] <==> forall i :: 0 <= i < |s| ==> IsSpace(s[i])
  {
    if s != [] && IsSpace(s[0]) {
      AllSpaceTrimStart(s[1..]);
      assert forall i :: 1 <= i < |s| ==> s[i] == s[1..][i - 1];
    }
  }

  lemma {:induction false} AllSpaceTrimEnd(s: string)
    ensures TrimEnd(s) == [] <==> forall i :: 0 <= i < |s| ==> IsSpace(s[i])
  {
    if s != [] && IsSpace(s[|s| - 1]) {
      AllSpaceTrimEnd(s[..|s| - 1]);
      assert forall i :: 0 <= i < |s| - 1 ==> s[i] == s[..|s| - 1][i];
    }
  }

  /** Equal strings with a common prefix agree after it. */
  lemma PrefixCancel(p: string, x: string, y: string)
    requires p + x == p + y
    ensures x == y
  {
    assert x == (p + x)[|p|..] && y == (p + y)[|p|..];
  }

  /** Equal strings with a common suffix agree before it. */
  lemma SuffixCancel(x: string, y: string, q: string)
    requires x + q == y + q
    ensures x == y
  {
    assert x == (x + q)[..|x|] && y == (y + q)[..|y|];
  }

  /** Two strings that each start with a separator-free head followed by the separator agree on the heads. */
  lemma SplitAtSeparator(a1: string, r1: string, a2: string, r2: string, sep: char)
    requires a1 + r1 == a2 + r2
    requires |r1| > 0 && r1[0] == sep && |r2| > 0 && r2[0] == sep
    requires forall k :: 0 <= k < |a1| ==> a1[k] != sep
    requires forall k :: 0 <= k < |a2| ==> a2[k] != sep
    ensures a1 == a2 && r1 == r2
  {
    var s1, s2 := a1 + r1, a2 + r2;
    IndexOfConcat(a1, r1, sep);
    IndexOfConcat(a2, r2, sep);
    assert a1 == s1[..|a1|] && a2 == s2[..|a2|];
    assert r1 == s1[|a1|..] && r2 == s2[|a2|..];
  }

  /** Position of the first `c` in `s`, or |s| when there is none. */
  function IndexOf(s: string, c: char): (i: nat)
    ensures i <= |s|
  {
    if s == [] || s[0] == c then 0 else 1 + IndexOf(s[1..], c)
  }

  lemma {:induction false} IndexOfConcat(a: string, r: string, c: char)
    requires |r| > 0 && r[0] == c
    requires forall k :: 0 <= k < |a| ==> a[k] != c
    ensures IndexOf(a + r, c) == |a|
    decreases |a|
  {
    if a != [] {
      assert (a + r)[0] == a[0];
      assert (a + r)[1..] == a[1..] + r;
      IndexOfConcat(a[1..], r, c);
    }
  }

  // ---------------------------------------------------------------- arithmetic helpers

  lemma MulMonotoneInt(a: int, b: int, d: int)
    requires d >= 0
    ensures a <= b ==> a * d <= b * d
  {
    assert b * d - a * d == (b - a) * d;
  }

  lemma MulCancel(a: int, b: int, d: int)
    requires d > 0 && a * d < b * d
    ensures a < b
  {
    MulMonotoneInt(b, a, d);
  }

  /** `x / d` brackets `x` between two multiples of `d`. */
  lemma DivBrackets(x: int, d: int)
    requires d > 0
    ensures (x / d) * d <= x < (x / d + 1) * d
  {
    assert x == (x / d) * d + x % d;
    assert (x / d + 1) * d == (x / d) * d + d;
  }

  lemma DivBetween(x: int, d: int, q: int)
    requires d > 0 && q * d <= x < (q + 1) * d
    ensures x / d == q
  {
    DivBrackets(x, d);
    MulCancel(x / d, q + 1, d);
    MulCancel(q, x / d + 1, d);
  }

  lemma DivMonotone(x: int, y: int, d: int)
    requires x <= y && d > 0
    ensures x / d <= y / d
  {
    DivBrackets(x, d);
    DivBrackets(y, d);
    MulCancel(x / d, y / d + 1, d);
  }
}
