/** The JavaScript string and number conversions the pages rely on:
    `String(n)` and template literals, `padStart`, `trim`, `toLowerCase`,
    `includes`, `localeCompare`, `Number(s)` and `parseInt(s) || 0`. */
module Text {
  import opened Wrappers

  // ---------------------------------------------------------------------
  // Decimal digits

  predicate IsDigit(c: char) { '0' <= c <= '9' }

  predicate AllDigits(s: string) { forall i :: 0 <= i < |s| ==> IsDigit(s[i]) }

  function DigitValue(c: char): nat
    requires IsDigit(c)
  {
    (c as int) - ('0' as int)
  }

  function DigitChar(d: nat): (c: char)
    requires d < 10
    ensures IsDigit(c) && DigitValue(c) == d
  {
    (('0' as int) + d) as char
  }

  /** The number a string of decimal digits denotes (leading zeros allowed). */
  function DigitsValue(s: string): nat
    requires AllDigits(s)
    decreases |s|
  {
    if s == [] then 0 else DigitsValue(s[..|s| - 1]) * 10 + DigitValue(s[|s| - 1])
  }

  /** `String(n)` for a non-negative integer: the canonical decimal rendering,
      which reads back as `n` and has no leading zero. */
  function NatToString(n: nat): (s: string)
    ensures |s| >= 1 && AllDigits(s)
    ensures DigitsValue(s) == n
    ensures n < 10 <==> |s| == 1
    ensures s[0] != '0' || n == 0
    decreases n
  {
    if n < 10 then [DigitChar(n)]
    else
      var prefix := NatToString(n / 10);
      assert (prefix + [DigitChar(n % 10)])[..|prefix|] == prefix;
      prefix + [DigitChar(n % 10)]
  }

  function Pow10(k: nat): nat { if k == 0 then 1 else 10 * Pow10(k - 1) }

  /** A number with k + 1 significant digits is written with k + 1 characters. */
  lemma {:induction false} NatToStringWidth(n: nat, k: nat)
    requires Pow10(k) <= n < Pow10(k + 1)
    ensures |NatToString(n)| == k + 1
  {
    if k > 0 {
      NatToStringWidth(n / 10, k - 1);
    }
  }

  /** A leading zero does not change the value of a digit string. */
  lemma {:induction false} LeadingZero(s: string)
    requires AllDigits(s)
    ensures AllDigits("0" + s) && DigitsValue("0" + s) == DigitsValue(s)
  {
    if s != [] {
      var init := s[..|s| - 1];
      LeadingZero(init);
      assert ("0" + s)[..|"0" + s| - 1] == "0" + init;
    }
  }

  /** Digits only, at least one: the strings `ParseNat` accepts. */
  function ParseNat(s: string): (r: Option<nat>)
    ensures r.Some? <==> s != [] && AllDigits(s)
  {
    if s != [] && AllDigits(s) then Some(DigitsValue(s)) else None
  }

  /** `String(i)` for any integer. */
  function IntToString(i: int): string
  {
    if i < 0 then "-" + NatToString(-i) else NatToString(i)
  }

  /** An optional `-` followed by decimal digits. */
  function ParseInt(s: string): Option<int>
  {
    if |s| > 0 && s[0] == '-' then
      match ParseNat(s[1..])
      case Some(n) => Some(0 - n)
      case None => None
    else
      match ParseNat(s)
      case Some(n) => Some(n)
      case None => None
  }

  /** Rendering an integer and reading it back gives the integer again. */
  lemma IntToStringRoundTrip(i: int)
    ensures ParseInt(IntToString(i)) == Some(i)
  {
    if i < 0 {
      assert ("-" + NatToString(-i))[1..] == NatToString(-i);
    }
  }

  /** Two integers with the same rendering are equal. */
  lemma IntToStringInjective(i: int, j: int)
    requires IntToString(i) == IntToString(j)
    ensures i == j
  {
    IntToStringRoundTrip(i);
    IntToStringRoundTrip(j);
  }

  /** `s.padStart(2, "0")`. */
  function PadStart2(s: string): (r: string)
    ensures |s| >= 2 ==> r == s
    ensures |s| < 2 ==> |r| == 2 && r[2 - |s|..] == s && forall i :: 0 <= i < 2 - |s| ==> r[i] == '0'
  {
    if |s| == 0 then "00" else if |s| == 1 then "0" + s else s
  }

  /** A padded one- or two-digit number is two digits that read back as the number. */
  lemma PadStart2RoundTrip(n: nat)
    requires n < 100
    ensures |PadStart2(NatToString(n))| == 2
    ensures AllDigits(PadStart2(NatToString(n)))
    ensures DigitsValue(PadStart2(NatToString(n))) == n
  {
    if n < 10 {
      LeadingZero(NatToString(n));
    } else {
      NatToStringWidth(n, 1);
    }
  }

  // ---------------------------------------------------------------------
  // Whitespace and trim()

  /** The characters `String.prototype.trim` removes: ECMAScript WhiteSpace
      and LineTerminator. */
  predicate IsJsWhitespace(c: char)
  {
    || c == '\t' || c == '\n' || c == '\U{000B}' || c == '\U{000C}' || c == '\r'
    || c == ' ' || c == '\U{00A0}' || c == '\U{1680}'
    || ('\U{2000}' <= c <= '\U{200A}')
    || c == '\U{2028}' || c == '\U{2029}' || c == '\U{202F}' || c == '\U{205F}'
    || c == '\U{3000}' || c == '\U{FEFF}'
  }

  predicate AllWhitespace(s: string) { forall i :: 0 <= i < |s| ==> IsJsWhitespace(s[i]) }

  function TrimStart(s: string): (r: string)
    ensures |r| <= |s| && r == s[|s| - |r|..]
    ensures r == [] || !IsJsWhitespace(r[0])
    ensures r == [] <==> AllWhitespace(s)
  {
    if s != [] && IsJsWhitespace(s[0]) then TrimStart(s[1..]) else s
  }

  function TrimEnd(s: string): (r: string)
    ensures |r| <= |s| && r == s[..|r|]
    ensures r == [] || !IsJsWhitespace(r[|r| - 1])
    ensures s != [] && !IsJsWhitespace(s[0]) ==> r != []
  {
    if s != [] && IsJsWhitespace(s[|s| - 1]) then TrimEnd(s[..|s| - 1]) else s
  }

  /** `s.trim()`. */
  function Trim(s: string): string
  {
    TrimEnd(TrimStart(s))
  }

  /** `!s.trim()`: the string is empty once trimmed. */
  predicate IsBlank(s: string) { Trim(s) == "" }

  /** A string is blank exactly when every character of it is whitespace;
      in particular the empty string is blank and a string with a visible
      character is not. */
  lemma BlankIffAllWhitespace(s: string)
    ensures IsBlank(s) <==> AllWhitespace(s)
  {
    var t := TrimStart(s);
    if t != [] {
      assert TrimEnd(t) != [];
    }
  }

  // ---------------------------------------------------------------------
  // toLowerCase() and includes()

  /** `toLowerCase` on one character; only the ASCII letters change (the
      pages' Thai text has no case). */
  function ToLowerChar(c: char): char
  {
    if 'A' <= c <= 'Z' then ((c as int) + 32) as char else c
  }

  function ToLower(s: string): (r: string)
    ensures |r| == |s|
    ensures forall i :: 0 <= i < |s| ==> r[i] == ToLowerChar(s[i])
  {
    seq(|s|, i requires 0 <= i < |s| => ToLowerChar(s[i]))
  }

  predicate HasNoUpper(s: string) { forall i :: 0 <= i < |s| ==> !('A' <= s[i] <= 'Z') }

  /** Lowercasing leaves a string without capitals (digits, say) as it is. */
  lemma ToLowerKeepsNoUpper(s: string)
    requires HasNoUpper(s)
    ensures ToLower(s) == s
  {
  }

  /** Lowercasing twice is lowercasing once. */
  lemma ToLowerIdempotent(s: string)
    ensures ToLower(ToLower(s)) == ToLower(s)
  {
  }

  predicate StartsWith(s: string, prefix: string)
  {
    |prefix| <= |s| && s[..|prefix|] == prefix
  }

  /** `s.includes(sub)`. */
  predicate Includes(s: string, sub: string)
    decreases |s|
  {
    StartsWith(s, sub) || (s != [] && Includes(s[1..], sub))
  }

  predicate OccursAt(s: string, sub: string, i: int)
  {
    0 <= i && i + |sub| <= |s| && s[i..i + |sub|] == sub
  }

  /** `includes` holds exactly when the text occurs at some position. */
  lemma {:induction false} IncludesIff(s: string, sub: string)
    ensures Includes(s, sub) <==> exists i :: OccursAt(s, sub, i)
    decreases |s|
  {
    if StartsWith(s, sub) {
      assert OccursAt(s, sub, 0);
    } else if s == [] {
      assert forall i :: !OccursAt(s, sub, i);
    } else {
      IncludesIff(s[1..], sub);
      if Includes(s[1..], sub) {
        var i :| OccursAt(s[1..], sub, i);
        OccursInTail(s, sub, i);
      } else {
        forall i | OccursAt(s, sub, i)
          ensures false
        {
          if i > 0 {
            OccursInTail(s, sub, i - 1);
          }
        }
      }
    }
  }

  /** An occurrence in the tail is an occurrence one place later in the whole. */
  lemma OccursInTail(s: string, sub: string, i: nat)
    requires s != []
    ensures OccursAt(s[1..], sub, i) <==> OccursAt(s, sub, i + 1)
  {
    if i + |sub| <= |s[1..]| {
      assert s[1..][i..i + |sub|] == s[i + 1..i + 1 + |sub|];
    }
  }

  /** Every string includes the empty string: an empty search matches all. */
  lemma IncludesEmpty(s: string)
    ensures Includes(s, "")
  {
  }

  // ---------------------------------------------------------------------
  // localeCompare()

  /** `a.localeCompare(b) < 0`, modelled as code-point lexicographic order. */
  predicate LexLess(a: string, b: string)
    decreases |a|
  {
    if a == [] then b != []
    else if b == [] then false
    else if a[0] != b[0] then a[0] < b[0]
    else LexLess(a[1..], b[1..])
  }

  lemma {:induction false} LexLessIrreflexive(a: string)
    ensures !LexLess(a, a)
    decreases |a|
  {
    if a != [] { LexLessIrreflexive(a[1..]); }
  }

  lemma {:induction false} LexLessTransitive(a: string, b: string, c: string)
    requires LexLess(a, b) && LexLess(b, c)
    ensures LexLess(a, c)
    decreases |a|
  {
    if a != [] && b != [] && c != [] && a[0] == b[0] == c[0] {
      LexLessTransitive(a[1..], b[1..], c[1..]);
    }
  }

  /** Two different strings are always ordered one way or the other. */
  lemma {:induction false} LexLessTotal(a: string, b: string)
    requires a != b
    ensures LexLess(a, b) || LexLess(b, a)
    decreases |a|
  {
    if a != [] && b != [] && a[0] == b[0] {
      assert a == [a[0]] + a[1..] && b == [b[0]] + b[1..];
      LexLessTotal(a[1..], b[1..]);
    }
  }

  // ---------------------------------------------------------------------
  // Number(s), parseInt(s) and the `||` fallback

  /** `Number(s)` for the numerals the forms hold: surrounding whitespace is
      ignored, an empty field is 0, and an optionally signed run of decimal
      digits is its value; `None` stands for NaN. */
  function NumberValue(s: string): Option<int>
  {
    var t := Trim(s);
    if t == "" then Some(0)
    else if t[0] == '+' then
      match ParseNat(t[1..])
      case Some(n) => Some(n)
      case None => None
    else ParseInt(t)
  }

  /** JavaScript's `x || fallback` on a number: 0 and NaN are falsy. */
  function NumberOr(x: Option<int>, fallback: int): (r: int)
    ensures x.Some? && x.value != 0 ==> r == x.value
    ensures x.None? || x.value == 0 ==> r == fallback
  {
    if x.Some? && x.value != 0 then x.value else fallback
  }

  /** A number written out with `String(n)` is read back by `Number`. */
  lemma NumberValueOfString(i: int)
    ensures NumberValue(IntToString(i)) == Some(i)
  {
    var s := IntToString(i);
    IntToStringEnds(i);
    NotWhitespace(s[0]);
    NotWhitespace(s[|s| - 1]);
    assert TrimStart(s) == s;
    assert TrimEnd(s) == s;
    assert Trim(s) == s;
    IntToStringRoundTrip(i);
  }

  lemma NotWhitespace(c: char)
    requires IsDigit(c) || c == '-'
    ensures !IsJsWhitespace(c)
  {
  }

  /** `String(i)` starts with a digit or `-` and ends with a digit. */
  lemma IntToStringEnds(i: int)
    ensures var s := IntToString(i);
      |s| >= 1 && (s[0] == '-' || IsDigit(s[0])) && IsDigit(s[|s| - 1])
  {
    var d := NatToString(if i < 0 then -i else i);
    assert IsDigit(d[0]) && IsDigit(d[|d| - 1]);
  }

  /** The longest run of digits at the front of `s`. */
  function DigitPrefix(s: string): (r: string)
    ensures AllDigits(r) && |r| <= |s| && r == s[..|r|]
    ensures AllDigits(s) ==> r == s
  {
    if s != [] && IsDigit(s[0]) then [s[0]] + DigitPrefix(s[1..]) else []
  }

  /** `parseInt(s) || 0` with the default radix on decimal text: leading
      whitespace and one sign are skipped, the digits in front are read, and
      a string with no digits there (NaN) gives 0. */
  function ParseIntOrZero(s: string): int
  {
    var t := TrimStart(s);
    var negative := |t| > 0 && t[0] == '-';
    var body := if |t| > 0 && (t[0] == '-' || t[0] == '+') then t[1..] else t;
    var digits := DigitPrefix(body);
    if digits == [] then 0
    else if negative then 0 - DigitsValue(digits)
    else DigitsValue(digits)
  }

  /** The key `String(i)` of an integer parses back to that integer. */
  lemma ParseIntOrZeroOfString(i: int)
    ensures ParseIntOrZero(IntToString(i)) == i
  {
    var s := IntToString(i);
    IntToStringEnds(i);
    NotWhitespace(s[0]);
    assert TrimStart(s) == s;
    if i < 0 {
      assert s[1..] == NatToString(-i);
    }
  }
}
