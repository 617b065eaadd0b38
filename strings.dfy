/**
 * String helpers that stand for the JavaScript built-ins the menu code relies on:
 * Number-to-string rendering of primary keys and counters, parseInt, String.prototype
 * .includes/.startsWith/.replace with a string pattern, the ECMAScript white-space set,
 * and the order on field names used by the sort comparator.
 */
module Strings {
  import opened Wrappers

  // ---------------------------------------------------------------------------
  // Characters

  predicate IsDigit(c: char)
  {
    '0' <= c <= '9'
  }

  function DigitChar(d: nat): (c: char)
    requires d < 10
    ensures IsDigit(c) && c as int - '0' as int == d
  {
    ('0' as int + d) as char
  }

  function DigitValue(c: char): nat
    requires IsDigit(c)
  {
    c as int - '0' as int
  }

  predicate IsHexDigit(c: char)
  {
    IsDigit(c) || 'a' <= c <= 'f' || 'A' <= c <= 'F'
  }

  function HexDigitValue(c: char): nat
    requires IsHexDigit(c)
  {
    if IsDigit(c) then DigitValue(c)
    else if 'a' <= c <= 'f' then c as int - 'a' as int + 10
    else c as int - 'A' as int + 10
  }

  /**
   * The ECMAScript white-space and line-terminator characters: what `\s` matches in a
   * regular expression and what String.prototype.trim and parseInt skip.
   */
  predicate IsWhitespace(c: char)
  {
    || c == ' ' || c == '\t' || c == '\n' || c == '\r'
    || c as int == 0x0B || c as int == 0x0C || c as int == 0xA0 || c as int == 0x1680
    || (0x2000 <= c as int <= 0x200A)
    || c as int == 0x2028 || c as int == 0x2029 || c as int == 0x202F || c as int == 0x205F
    || c as int == 0x3000 || c as int == 0xFEFF
  }

  // ---------------------------------------------------------------------------
  // Decimal rendering of non-negative integers (String(n), '' + n)

  function NatToString(n: nat): (s: string)
    ensures |s| > 0
    ensures forall i :: 0 <= i < |s| ==> IsDigit(s[i])
    ensures s[0] == '0' ==> n == 0 && s == "0"
    decreases n
  {
    if n < 10 then [DigitChar(n)] else NatToString(n / 10) + [DigitChar(n % 10)]
  }

  /** The value of a string of decimal digits, most significant first. */
  function DecimalValue(s: string): nat
    requires forall i :: 0 <= i < |s| ==> IsDigit(s[i])
    decreases |s|
  {
    if s == [] then 0 else DecimalValue(s[..|s| - 1]) * 10 + DigitValue(s[|s| - 1])
  }

  /** The value of a string of hexadecimal digits, most significant first. */
  function HexValue(s: string): nat
    requires forall i :: 0 <= i < |s| ==> IsHexDigit(s[i])
    decreases |s|
  {
    if s == [] then 0 else HexValue(s[..|s| - 1]) * 16 + HexDigitValue(s[|s| - 1])
  }

  lemma {:induction false} DecimalValueOfNatToString(n: nat)
    ensures DecimalValue(NatToString(n)) == n
    decreases n
  {
    var s := NatToString(n);
    if n >= 10 {
      assert s[..|s| - 1] == NatToString(n / 10);
      DecimalValueOfNatToString(n / 10);
    }
  }

  // ---------------------------------------------------------------------------
  // parseInt(s) with no radix

  /** Length of the longest prefix of s made of characters satisfying IsDigit. */
  function DigitRun(s: string): (n: nat)
    ensures n <= |s|
    ensures forall i :: 0 <= i < n ==> IsDigit(s[i])
    ensures n < |s| ==> !IsDigit(s[n])
    decreases |s|
  {
    if s == [] || !IsDigit(s[0]) then 0 else 1 + DigitRun(s[1..])
  }

  /** Length of the longest prefix of s made of hexadecimal digits. */
  function HexRun(s: string): (n: nat)
    ensures n <= |s|
    ensures forall i :: 0 <= i < n ==> IsHexDigit(s[i])
    ensures n < |s| ==> !IsHexDigit(s[n])
    decreases |s|
  {
    if s == [] || !IsHexDigit(s[0]) then 0 else 1 + HexRun(s[1..])
  }

  /** Length of the longest white-space prefix of s. */
  function LeadingWhitespace(s: string): (n: nat)
    ensures n <= |s|
    ensures forall i :: 0 <= i < n ==> IsWhitespace(s[i])
    ensures n < |s| ==> !IsWhitespace(s[n])
    decreases |s|
  {
    if s == [] || !IsWhitespace(s[0]) then 0 else 1 + LeadingWhitespace(s[1..])
  }

  /** parseInt of the digits after an optional sign: a "0x" prefix selects radix 16. None is NaN. */
  function ParseUnsigned(u: string): Option<nat>
  {
    if |u| >= 2 && u[0] == '0' && (u[1] == 'x' || u[1] == 'X') then
      var n := HexRun(u[2..]);
      if n == 0 then None else Some(HexValue(u[2..][..n]))
    else
      var n := DigitRun(u);
      if n == 0 then None else Some(DecimalValue(u[..n]))
  }

  /**
   * parseInt(s) without a radix: leading white space is skipped, then an optional sign,
   * then the longest run of digits (hexadecimal after "0x"/"0X"); anything after it is
   * ignored. None stands for NaN (no digit at all).
   */
  function ParseInt(s: string): (r: Option<int>)
    ensures r.Some? ==> exists i :: 0 <= i < |s| && IsHexDigit(s[i])
  {
    var t := s[LeadingWhitespace(s)..];
    var negative := |t| > 0 && t[0] == '-';
    var u := if |t| > 0 && (t[0] == '-' || t[0] == '+') then t[1..] else t;
    match ParseUnsigned(u)
    case None => None
    case Some(v) =>
      var x: int := v;
      Some(if negative then -x else x)
  }

  /** parseInt reads back exactly the number that NatToString wrote. */
  lemma ParseIntOfNatToString(n: nat)
    ensures ParseInt(NatToString(n)) == Some(n)
  {
    var s := NatToString(n);
    assert LeadingWhitespace(s) == 0 by {
      assert IsDigit(s[0]);
    }
    assert s[0] != '-' && s[0] != '+';
    assert DigitRun(s) == |s|;
    assert s[..|s|] == s;
    DecimalValueOfNatToString(n);
  }

  /** parseInt of a string that opens with a letter, neither space, sign nor digit, is NaN. */
  lemma ParseIntOfNonNumeric(s: string)
    requires |s| > 0 && 'a' <= s[0] <= 'z'
    ensures ParseInt(s) == None
  {
    assert !IsWhitespace(s[0]);
    assert LeadingWhitespace(s) == 0;
    assert DigitRun(s) == 0;
  }

  /** Distinct numbers render as distinct strings. */
  lemma NatToStringInjective(a: nat, b: nat)
    requires a != b
    ensures NatToString(a) != NatToString(b)
  {
    ParseIntOfNatToString(a);
    ParseIntOfNatToString(b);
  }

  // ---------------------------------------------------------------------------
  // Substrings

  predicate StartsWith(s: string, prefix: string)
  {
    |prefix| <= |s| && s[..|prefix|] == prefix
  }

  /** p occurs in s at index i. */
  predicate OccursAt(s: string, p: string, i: nat)
  {
    i + |p| <= |s| && s[i..i + |p|] == p
  }

  /** An occurrence one place further into s is an occurrence in s without its first character. */
  lemma OccursShift(s: string, p: string, i: nat)
    requires |s| > 0
    ensures OccursAt(s, p, i + 1) <==> OccursAt(s[1..], p, i)
  {
    if i + 1 + |p| <= |s| {
      assert s[1..][i..i + |p|] == s[i + 1..i + 1 + |p|];
    }
  }

  /** String.prototype.indexOf(p): the first index at which p occurs in s, None for -1. */
  function IndexOf(s: string, p: string): (r: Option<nat>)
    ensures r.Some? ==> OccursAt(s, p, r.value)
    ensures r.Some? ==> forall i: nat :: i < r.value ==> !OccursAt(s, p, i)
    ensures r.None? ==> forall i: nat :: !OccursAt(s, p, i)
    decreases |s|
  {
    if |s| < |p| then None
    else if s[..|p|] == p then Some(0)
    else
      match IndexOf(s[1..], p)
      case None =>
        assert forall i: nat :: !OccursAt(s, p, i) by {
          forall i: nat ensures !OccursAt(s, p, i) {
            if i > 0 {
              OccursShift(s, p, i - 1);
            }
          }
        }
        None
      case Some(k) =>
        OccursShift(s, p, k);
        assert forall i: nat :: i < k + 1 ==> !OccursAt(s, p, i) by {
          forall i: nat | i < k + 1 ensures !OccursAt(s, p, i) {
            if i > 0 {
              OccursShift(s, p, i - 1);
            }
          }
        }
        Some(k + 1)
  }

  /** String.prototype.includes(p). */
  predicate Contains(s: string, p: string)
  {
    IndexOf(s, p).Some?
  }

  /**
   * String.prototype.replace(p, rep) with a string pattern: only the FIRST occurrence of p
   * is replaced; without an occurrence the string is returned unchanged.
   */
  function ReplaceFirst(s: string, p: string, rep: string): (r: string)
    ensures IndexOf(s, p).None? ==> r == s
    ensures IndexOf(s, p).Some? ==> |r| == |s| - |p| + |rep|
    ensures IndexOf(s, p).Some? ==>
      var i := IndexOf(s, p).value;
      r[..i] == s[..i] && r[i..i + |rep|] == rep && r[i + |rep|..] == s[i + |p|..]
  {
    match IndexOf(s, p)
    case None => s
    case Some(i) => s[..i] + rep + s[i + |p|..]
  }

  // ---------------------------------------------------------------------------
  // Order on field names (stands for String.prototype.localeCompare)

  /** a sorts no later than b: lexicographic order on code points. */
  predicate NameLe(a: string, b: string)
    decreases |a|
  {
    a == [] || (b != [] && (a[0] < b[0] || (a[0] == b[0] && NameLe(a[1..], b[1..]))))
  }

  lemma {:induction false} NameLeTotal(a: string, b: string)
    ensures NameLe(a, b) || NameLe(b, a)
    decreases |a|
  {
    if a != [] && b != [] && a[0] == b[0] {
      NameLeTotal(a[1..], b[1..]);
    }
  }

  lemma {:induction false} NameLeTransitive(a: string, b: string, c: string)
    requires NameLe(a, b) && NameLe(b, c)
    ensures NameLe(a, c)
    decreases |a|
  {
    if a != [] && b != [] && c != [] && a[0] == b[0] && b[0] == c[0] {
      NameLeTransitive(a[1..], b[1..], c[1..]);
    }
  }

  lemma {:induction false} NameLeAntisymmetric(a: string, b: string)
    requires NameLe(a, b) && NameLe(b, a)
    ensures a == b
    decreases |a|
  {
    if a != [] && b != [] {
      NameLeAntisymmetric(a[1..], b[1..]);
      assert a == [a[0]] + a[1..] && b == [b[0]] + b[1..];
    }
  }
}
