/** String helpers shared by the views and the handlers: ASCII lower-casing,
    `String.prototype.includes`, splitting on a separator character, and
    decimal printing and parsing of integers. */
module Text {
  import opened Wrappers

  // ---------------------------------------------------------------------
  // Lower-casing (ASCII letters only)
  // ---------------------------------------------------------------------

  function LowerChar(c: char): char {
    if 'A' <= c <= 'Z' then (c as int + 32) as char else c
  }

  /** `s.toLowerCase()`, restricted to the ASCII letters. */
  function Lower(s: string): (r: string)
    ensures |r| == |s|
    ensures forall i :: 0 <= i < |s| ==> r[i] == LowerChar(s[i])
    ensures forall i :: 0 <= i < |r| ==> !('A' <= r[i] <= 'Z')
  {
    if |s| == 0 then [] else [LowerChar(s[0])] + Lower(s[1..])
  }

  lemma LowerIdempotent(s: string)
    ensures Lower(Lower(s)) == Lower(s)
  {
  }

  // ---------------------------------------------------------------------
  // Substring search
  // ---------------------------------------------------------------------

  predicate IsPrefix(p: string, s: string) {
    |p| <= |s| && s[..|p|] == p
  }

  /** `s.includes(sub)`: some position of `s` starts a copy of `sub`. */
  predicate Includes(s: string, sub: string)
    decreases |s|
  {
    IsPrefix(sub, s) || (|s| > 0 && Includes(s[1..], sub))
  }

  /** `sub` occurs in `s` starting at position `i`. */
  predicate OccursAt(s: string, sub: string, i: nat) {
    i + |sub| <= |s| && s[i..i + |sub|] == sub
  }

  lemma {:induction false} IncludesIff(s: string, sub: string)
    ensures Includes(s, sub) <==> exists i: nat :: OccursAt(s, sub, i)
    decreases |s|
  {
    if IsPrefix(sub, s) {
      assert OccursAt(s, sub, 0);
    } else if |s| > 0 {
      IncludesIff(s[1..], sub);
      if Includes(s[1..], sub) {
        var i: nat :| OccursAt(s[1..], sub, i);
        TailSlice(s, i, i + |sub|);
        assert OccursAt(s, sub, i + 1);
      } else {
        forall i: nat
          ensures !OccursAt(s, sub, i)
        {
          if 0 < i && i + |sub| <= |s| {
            TailSlice(s, i - 1, i - 1 + |sub|);
            assert OccursAt(s, sub, i) <==> OccursAt(s[1..], sub, i - 1);
          }
        }
      }
    }
  }

  /** A slice of the tail is the slice of the string one position further on. */
  lemma TailSlice(s: string, a: nat, b: nat)
    requires |s| > 0 && a <= b <= |s| - 1
    ensures s[1..][a..b] == s[a + 1..b + 1]
  {
    assert forall k :: 0 <= k < b - a ==> s[1..][a..b][k] == s[a + 1 + k];
  }

  /** Every string includes the empty string (`"abc".includes("") === true`). */
  lemma IncludesEmpty(s: string)
    ensures Includes(s, "")
  {
    assert IsPrefix("", s);
  }

  // ---------------------------------------------------------------------
  // Splitting on a separator
  // ---------------------------------------------------------------------

  /** Index of the first occurrence of `c` in `s`, or `|s|` when absent. */
  function IndexOf(s: string, c: char): (r: nat)
    ensures r <= |s|
    ensures forall i :: 0 <= i < r ==> s[i] != c
    ensures r < |s| ==> s[r] == c
    ensures r == |s| <==> c !in s
  {
    if |s| == 0 then 0
    else if s[0] == c then 0
    else 1 + IndexOf(s[1..], c)
  }

  /** `s.split(c)[0]`: the text before the first `c`, or all of `s`. */
  function BeforeFirst(s: string, c: char): (r: string)
    ensures c !in r
    ensures IsPrefix(r, s)
    ensures c !in s ==> r == s
    ensures c in s ==> |r| < |s| && s[|r|] == c
  {
    s[..IndexOf(s, c)]
  }

  /** The text after the first `c`; empty when `c` does not occur. */
  function AfterFirst(s: string, c: char): (r: string)
    ensures c in s ==> s == BeforeFirst(s, c) + [c] + r
    ensures c !in s ==> r == []
  {
    var k := IndexOf(s, c);
    if k < |s| then s[k + 1..] else []
  }

  /** `s.split(c)[1]`: the second segment, present only when `c` occurs. */
  function SecondSegment(s: string, c: char): (r: Option<string>)
    ensures r.Some? <==> c in s
    ensures r.Some? ==> c !in r.value
    ensures r.Some? ==> IsPrefix(BeforeFirst(s, c) + [c] + r.value, s)
  {
    if c in s then Some(BeforeFirst(AfterFirst(s, c), c)) else None
  }

  lemma SplitJoin(a: string, c: char, b: string)
    requires c !in a
    ensures BeforeFirst(a + [c] + b, c) == a
    ensures AfterFirst(a + [c] + b, c) == b
  {
    var s := a + [c] + b;
    var k := IndexOf(s, c);
    assert s[|a|] == c;
    assert forall i :: 0 <= i < |a| ==> s[i] == a[i];
    assert k == |a|;
    assert s[..k] == a;
    assert s[k + 1..] == b;
  }

  // ---------------------------------------------------------------------
  // Decimal numbers
  // ---------------------------------------------------------------------

  predicate IsDigit(c: char) {
    '0' <= c <= '9'
  }

  function DigitChar(d: nat): (c: char)
    requires d < 10
    ensures IsDigit(c)
  {
    (d + '0' as int) as char
  }

  function DigitValue(c: char): (d: nat)
    requires IsDigit(c)
    ensures d < 10
  {
    c as int - '0' as int
  }

  /** `n.toString()` for a non-negative integer: shortest decimal form. */
  function NatToString(n: nat): (r: string)
    ensures |r| > 0
    ensures forall i :: 0 <= i < |r| ==> IsDigit(r[i])
    ensures |r| > 1 ==> r[0] != '0'
  {
    if n < 10 then [DigitChar(n)] else NatToString(n / 10) + [DigitChar(n % 10)]
  }

  /** `i.toString()` for any integer: a minus sign before the magnitude when negative. */
  function IntToString(i: int): (r: string)
    ensures |r| > 0
    ensures ':' !in r
    ensures i >= 0 ==> r == NatToString(i)
    ensures i < 0 ==> r == "-" + NatToString(-i)
  {
    if i >= 0 then NatToString(i) else "-" + NatToString(-i)
  }

  predicate AllDigits(s: string) {
    forall i :: 0 <= i < |s| ==> IsDigit(s[i])
  }

  /** The value of a string of decimal digits, most significant first. */
  function DigitsValue(s: string): nat
    requires AllDigits(s)
  {
    if |s| == 0 then 0 else 10 * DigitsValue(s[..|s| - 1]) + DigitValue(s[|s| - 1])
  }

  /** `Number(s)` for the strings this model parses: a non-empty run of decimal
      digits. Every other string reads as NaN, modelled as `None`. */
  function ParseNat(s: string): (r: Option<nat>)
    ensures r.Some? <==> |s| > 0 && AllDigits(s)
  {
    if |s| > 0 && AllDigits(s) then Some(DigitsValue(s)) else None
  }

  lemma {:induction false} NatToStringValue(n: nat)
    ensures DigitsValue(NatToString(n)) == n
  {
    if n >= 10 {
      NatToStringValue(n / 10);
      var s := NatToString(n);
      assert s[..|s| - 1] == NatToString(n / 10);
    }
  }

  /** Printing then parsing a non-negative integer gives it back. */
  lemma ParsePrinted(n: nat)
    ensures ParseNat(NatToString(n)) == Some(n)
  {
    NatToStringValue(n);
  }

  /** Different integers print differently. */
  lemma IntToStringInjective(a: int, b: int)
    requires a != b
    ensures IntToString(a) != IntToString(b)
  {
    var sa, sb := IntToString(a), IntToString(b);
    if a >= 0 && b >= 0 {
      ParsePrinted(a);
      ParsePrinted(b);
    } else if a < 0 && b < 0 {
      ParsePrinted(-a);
      ParsePrinted(-b);
      assert sa[1..] == NatToString(-a) && sb[1..] == NatToString(-b);
    } else if a < 0 {
      assert sa[0] == '-' && IsDigit(sb[0]);
    } else {
      assert sb[0] == '-' && IsDigit(sa[0]);
    }
  }
}
