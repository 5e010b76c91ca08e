/** String primitives of the JavaScript runtime that the marketplace leans on:
    `trim`, `toLowerCase`/`toUpperCase`, `includes`, `startsWith`,
    `substring`, `parseInt` and number-to-decimal conversion. */
module Text {
  import opened Wrappers

  /** JavaScript `\s`: the WhiteSpace and LineTerminator characters of
      ECMAScript, which is also the set `trim` and `parseInt` skip. */
  predicate IsSpace(c: char) {
    c == '\t' || c == '\n' || c == '\U{000B}' || c == '\U{000C}' || c == '\r'
    || c == ' ' || c == '\U{00A0}' || c == '\U{1680}'
    || ('\U{2000}' <= c <= '\U{200A}')
    || c == '\U{2028}' || c == '\U{2029}' || c == '\U{202F}' || c == '\U{205F}'
    || c == '\U{3000}' || c == '\U{FEFF}'
  }

  /** The characters a regular-expression `.` does not match. */
  predicate IsLineTerminator(c: char) {
    c == '\n' || c == '\r' || c == '\U{2028}' || c == '\U{2029}'
  }

  /** JavaScript `\d`. */
  predicate IsDigit(c: char) {
    '0' <= c <= '9'
  }

  /** JavaScript `\w`. */
  predicate IsWordChar(c: char) {
    ('a' <= c <= 'z') || ('A' <= c <= 'Z') || IsDigit(c) || c == '_'
  }

  /** Every character of `s` is white space (so `s.trim()` is empty). */
  predicate Blank(s: string) {
    forall k :: 0 <= k < |s| ==> IsSpace(s[k])
  }

  function TrimStart(s: string): (r: string)
    ensures |r| <= |s| && r == s[|s| - |r|..]
    ensures r == [] || !IsSpace(r[0])
    ensures Blank(s[..|s| - |r|])
  {
    if |s| > 0 && IsSpace(s[0]) then
      var r := TrimStart(s[1..]);
      TrimStartStep(s, r);
      r
    else s
  }

  lemma TrimStartStep(s: string, r: string)
    requires |s| > 0 && IsSpace(s[0])
    requires |r| <= |s| - 1 && r == s[1..][|s| - 1 - |r|..] && Blank(s[1..][..|s| - 1 - |r|])
    ensures r == s[|s| - |r|..] && Blank(s[..|s| - |r|])
  {
    assert s[..|s| - |r|] == [s[0]] + s[1..][..|s| - 1 - |r|];
  }

  function TrimEnd(s: string): (r: string)
    ensures |r| <= |s| && r == s[..|r|]
    ensures r == [] || !IsSpace(r[|r| - 1])
    ensures Blank(s[|r|..])
  {
    if |s| > 0 && IsSpace(s[|s| - 1]) then
      var r := TrimEnd(s[..|s| - 1]);
      TrimEndStep(s, r);
      r
    else s
  }

  lemma TrimEndStep(s: string, r: string)
    requires |s| > 0 && IsSpace(s[|s| - 1])
    requires |r| <= |s| - 1 && r == s[..|s| - 1][..|r|] && Blank(s[..|s| - 1][|r|..])
    ensures r == s[..|r|] && Blank(s[|r|..])
  {
    assert s[|r|..] == s[..|s| - 1][|r|..] + [s[|s| - 1]];
  }

  /** `r` is the infix of `s` at offset `i`, and only white space lies around it. */
  ghost predicate TrimmedAt(s: string, r: string, i: int) {
    0 <= i <= |s| - |r| && r == s[i..i + |r|] && Blank(s[..i]) && Blank(s[i + |r|..])
  }

  lemma TrimStartEmpty(s: string)
    requires TrimStart(s) == []
    ensures Blank(s)
  {
    assert Blank(s[..|s|]);
    assert s[..|s|] == s;
  }

  lemma TrimEndEmpty(t: string)
    requires TrimEnd(t) == []
    ensures Blank(t)
  {
    assert Blank(t[0..]);
    assert t[0..] == t;
  }

  lemma TrimInfix(s: string)
    ensures TrimmedAt(s, TrimEnd(TrimStart(s)), |s| - |TrimStart(s)|)
  {
    InfixAt(s, TrimStart(s), TrimEnd(TrimStart(s)));
  }

  lemma InfixAt(s: string, t: string, r: string)
    requires |t| <= |s| && t == s[|s| - |t|..] && Blank(s[..|s| - |t|])
    requires |r| <= |t| && r == t[..|r|] && Blank(t[|r|..])
    ensures TrimmedAt(s, r, |s| - |t|)
  {
    var i := |s| - |t|;
    assert s[i..i + |r|] == t[..|r|];
    assert s[i + |r|..] == t[|r|..];
  }

  lemma TrimBlank(s: string)
    ensures TrimEnd(TrimStart(s)) == [] ==> Blank(s)
  {
    var t := TrimStart(s);
    if TrimEnd(t) == [] {
      TrimEndEmpty(t);
      assert t == [];
      TrimStartEmpty(s);
    }
  }

  /** JavaScript `s.trim()`: the infix of `s` left after removing white space
      at both ends. */
  function Trim(s: string): (r: string)
    ensures exists i :: TrimmedAt(s, r, i)
    ensures r == [] || (!IsSpace(r[0]) && !IsSpace(r[|r| - 1]))
    ensures r == [] <==> Blank(s)
  {
    TrimInfix(s);
    TrimBlank(s);
    TrimEnd(TrimStart(s))
  }

  /** A string with no white space at either end is its own trim. */
  lemma TrimUnchanged(s: string)
    requires s == [] || (!IsSpace(s[0]) && !IsSpace(s[|s| - 1]))
    ensures Trim(s) == s
  {
    assert TrimStart(s) == s;
    assert TrimEnd(s) == s;
  }

  /** What is left after trimming, if anything, is not blank. */
  lemma TrimNotBlank(s: string)
    ensures Trim(s) != [] ==> !Blank(Trim(s))
  {
    var r := Trim(s);
    if r != [] {
      assert !IsSpace(r[0]);
    }
  }

  /** Trimming an already trimmed string changes nothing. */
  lemma TrimIdempotent(s: string)
    ensures Trim(Trim(s)) == Trim(s)
  {
    var r := Trim(s);
    assert TrimStart(r) == r;
    assert TrimEnd(r) == r;
  }

  /** The UTF-16 code units of one character: two for a character outside
      the Basic Multilingual Plane (a surrogate pair), one otherwise. */
  function Utf16Units(c: char): (n: nat)
    ensures n == 1 || n == 2
  {
    if c as int > 0xFFFF then 2 else 1
  }

  /** JavaScript `s.length`: the number of UTF-16 code units of `s`, which
      is at least the number of characters and at most twice that. */
  function Utf16Length(s: string): (n: nat)
    ensures |s| <= n <= 2 * |s|
    ensures n == 0 <==> s == []
  {
    if s == [] then 0 else Utf16Units(s[0]) + Utf16Length(s[1..])
  }

  /** The length of a concatenation is the sum of the lengths. */
  lemma {:induction false} Utf16LengthAppend(a: string, b: string)
    ensures Utf16Length(a + b) == Utf16Length(a) + Utf16Length(b)
    decreases |a|
  {
    if |a| > 0 {
      assert (a + b)[1..] == a[1..] + b;
      Utf16LengthAppend(a[1..], b);
    } else {
      assert a + b == b;
    }
  }

  /** Text inside the Basic Multilingual Plane has one code unit per
      character, and only such text does. */
  lemma {:induction false} Utf16LengthBmp(s: string)
    ensures Utf16Length(s) == |s| <==> forall i :: 0 <= i < |s| ==> s[i] as int <= 0xFFFF
    decreases |s|
  {
    if |s| > 0 {
      Utf16LengthBmp(s[1..]);
      assert forall i :: 1 <= i < |s| ==> s[i] == s[1..][i - 1];
    }
  }

  /** The ASCII and Latin-1 part of JavaScript `toLowerCase` on one character. */
  function LowerChar(c: char): char {
    if 'A' <= c <= 'Z' || ('\U{00C0}' <= c <= '\U{00DE}' && c != '\U{00D7}')
    then (c as int + 32) as char
    else c
  }

  /** The ASCII and Latin-1 part of JavaScript `toUpperCase` on one character. */
  function UpperChar(c: char): char {
    if 'a' <= c <= 'z' || ('\U{00E0}' <= c <= '\U{00FE}' && c != '\U{00F7}')
    then (c as int - 32) as char
    else c
  }

  function Lower(s: string): (r: string)
    ensures |r| == |s|
    ensures forall i :: 0 <= i < |s| ==> r[i] == LowerChar(s[i])
  {
    if s == [] then [] else [LowerChar(s[0])] + Lower(s[1..])
  }

  function Upper(s: string): (r: string)
    ensures |r| == |s|
    ensures forall i :: 0 <= i < |s| ==> r[i] == UpperChar(s[i])
  {
    if s == [] then [] else [UpperChar(s[0])] + Upper(s[1..])
  }

  /** Lowercasing is idempotent and commutes with concatenation. */
  lemma LowerIdempotent(s: string, t: string)
    ensures Lower(Lower(s)) == Lower(s)
    ensures Lower(s + t) == Lower(s) + Lower(t)
  {
    assert forall i :: 0 <= i < |s| ==> LowerChar(LowerChar(s[i])) == LowerChar(s[i]);
    assert forall i :: 0 <= i < |s + t| ==> Lower(s + t)[i] == (Lower(s) + Lower(t))[i];
  }

  /** `t` occurs in `s` starting at index `i`. */
  ghost predicate OccursAt(s: string, t: string, i: int) {
    0 <= i && i + |t| <= |s| && s[i..i + |t|] == t
  }

  /** JavaScript `s.includes(t)`, by scanning the candidate positions left to right. */
  predicate Includes(s: string, t: string)
    decreases |s|
  {
    |t| <= |s| && (s[..|t|] == t || Includes(s[1..], t))
  }

  /** `Includes` is exactly "occurs at some position". */
  lemma {:induction false} IncludesIff(s: string, t: string)
    ensures Includes(s, t) <==> exists i :: OccursAt(s, t, i)
    decreases |s|
  {
    if |t| <= |s| {
      if s[..|t|] == t {
        assert OccursAt(s, t, 0);
      } else {
        IncludesIff(s[1..], t);
        if Includes(s[1..], t) {
          var i :| OccursAt(s[1..], t, i);
          assert s[1..][i..i + |t|] == s[i + 1..i + 1 + |t|];
          assert OccursAt(s, t, i + 1);
        }
        if i :| OccursAt(s, t, i) {
          assert i != 0;
          assert s[1..][i - 1..i - 1 + |t|] == s[i..i + |t|];
          assert OccursAt(s[1..], t, i - 1);
        }
      }
    }
  }

  /** Lowercasing both sides keeps an occurrence. */
  lemma LowerKeepsIncludes(s: string, t: string)
    requires Includes(s, t)
    ensures Includes(Lower(s), Lower(t))
  {
    IncludesIff(s, t);
    var i :| OccursAt(s, t, i);
    assert Lower(s)[i..i + |t|] == Lower(t) by {
      assert forall k :: 0 <= k < |t| ==> s[i + k] == t[k];
    }
    assert OccursAt(Lower(s), Lower(t), i);
    IncludesIff(Lower(s), Lower(t));
  }

  /** Every string includes the empty string. */
  lemma IncludesEmpty(s: string)
    ensures Includes(s, "")
  {
  }

  /** JavaScript `s.startsWith(p)`. */
  predicate StartsWith(s: string, p: string) {
    |p| <= |s| && s[..|p|] == p
  }

  /** JavaScript `s.substring(0, n)` for `n >= 0`: the first `n` characters, or all of them. */
  function Take(s: string, n: nat): (r: string)
    ensures |r| <= n && |r| <= |s|
    ensures |s| <= n ==> r == s
    ensures |s| > n ==> |r| == n
    ensures r == s[..|r|]
  {
    if |s| <= n then s else s[..n]
  }

  // ---- decimal integers --------------------------------------------------

  function DigitChar(d: nat): (c: char)
    requires d < 10
    ensures IsDigit(c)
  {
    ('0' as int + d) as char
  }

  function DigitValue(c: char): (d: nat)
    requires IsDigit(c)
    ensures d < 10 && DigitChar(d) == c
  {
    c as int - '0' as int
  }

  predicate AllDigits(s: string) {
    forall k :: 0 <= k < |s| ==> IsDigit(s[k])
  }

  /** The value of a string of decimal digits, most significant first. */
  function DigitsValue(s: string): nat
    requires AllDigits(s)
  {
    if s == [] then 0 else DigitsValue(s[..|s| - 1]) * 10 + DigitValue(s[|s| - 1])
  }

  /** Decimal rendering of a natural number, without leading zeros. */
  function NatToString(n: nat): (r: string)
    ensures |r| > 0 && AllDigits(r)
    ensures r[0] == '0' ==> n == 0 && r == "0"
  {
    if n < 10 then [DigitChar(n)] else NatToString(n / 10) + [DigitChar(n % 10)]
  }

  /** JavaScript `String(n)` on an integer. */
  function IntToString(n: int): string {
    if n < 0 then "-" + NatToString(-n) else NatToString(n)
  }

  function Pow10(k: nat): (r: nat)
    ensures r >= 1
  {
    if k == 0 then 1 else 10 * Pow10(k - 1)
  }

  /** A number with `k` decimal digits is rendered with exactly `k` characters. */
  lemma {:induction false} NatToStringLength(n: nat, k: nat)
    requires k >= 1 && Pow10(k - 1) <= n < Pow10(k)
    ensures |NatToString(n)| == k
    decreases k
  {
    if k > 1 {
      assert Pow10(k - 1) == 10 * Pow10(k - 2);
      NatToStringLength(n / 10, k - 1);
    }
  }

  /** Reading back a rendered natural number gives the number. */
  lemma {:induction false} NatToStringValue(n: nat)
    ensures DigitsValue(NatToString(n)) == n
    decreases n
  {
    if n >= 10 {
      NatToStringValue(n / 10);
      var r := NatToString(n);
      assert r[..|r| - 1] == NatToString(n / 10);
    }
  }

  /** The longest prefix of `s` made of decimal digits. */
  function DigitPrefix(s: string): (r: string)
    ensures |r| <= |s| && r == s[..|r|] && AllDigits(r)
    ensures |r| == |s| || !IsDigit(s[|r|])
  {
    if s != [] && IsDigit(s[0]) then [s[0]] + DigitPrefix(s[1..]) else []
  }

  predicate IsHexDigit(c: char) {
    IsDigit(c) || ('a' <= c <= 'f') || ('A' <= c <= 'F')
  }

  function HexValue(c: char): nat
    requires IsHexDigit(c)
  {
    if IsDigit(c) then DigitValue(c)
    else if 'a' <= c <= 'f' then c as int - 'a' as int + 10
    else c as int - 'A' as int + 10
  }

  /** The longest prefix of `s` made of hexadecimal digits. */
  function HexPrefix(s: string): (r: string)
    ensures |r| <= |s| && r == s[..|r|]
    ensures forall k :: 0 <= k < |r| ==> IsHexDigit(r[k])
  {
    if s != [] && IsHexDigit(s[0]) then [s[0]] + HexPrefix(s[1..]) else []
  }

  function HexDigitsValue(s: string): nat
    requires forall k :: 0 <= k < |s| ==> IsHexDigit(s[k])
  {
    if s == [] then 0 else HexDigitsValue(s[..|s| - 1]) * 16 + HexValue(s[|s| - 1])
  }

  /** The unsigned part of JavaScript `parseInt(s)` with no radix: a "0x"/"0X"
      prefix selects base 16, otherwise base 10; only the longest digit prefix
      is read, and no digit at all gives NaN (`None`). */
  function ParseUnsigned(s: string): Option<nat> {
    if |s| >= 2 && s[0] == '0' && (s[1] == 'x' || s[1] == 'X') then
      var h := HexPrefix(s[2..]);
      if h == [] then None else Some(HexDigitsValue(h))
    else
      var d := DigitPrefix(s);
      if d == [] then None else Some(DigitsValue(d))
  }

  /** JavaScript `parseInt(s)`: leading white space is skipped, then an
      optional sign, then the digits. */
  function ParseInt(s: string): (r: Option<int>)
    ensures Blank(s) ==> r == None
  {
    var t := TrimStart(s);
    if |t| > 0 && (t[0] == '-' || t[0] == '+') then
      match ParseUnsigned(t[1..])
      case None => None
      case Some(v) =>
        var signed: int := if t[0] == '-' then -(v as int) else v as int;
        Some(signed)
    else
      match ParseUnsigned(t)
      case None => None
      case Some(v) => Some(v)
  }

  /** A rendered natural number is its own digit prefix. */
  lemma DigitPrefixOfDigits(s: string, tail: string)
    requires AllDigits(s)
    requires tail == [] || !IsDigit(tail[0])
    ensures DigitPrefix(s + tail) == s
    decreases |s|
  {
    var t := s + tail;
    if s == [] {
      assert t == tail;
    } else {
      assert t[0] == s[0] && IsDigit(t[0]);
      assert t[1..] == s[1..] + tail;
      DigitPrefixOfDigits(s[1..], tail);
      assert DigitPrefix(t) == [s[0]] + DigitPrefix(t[1..]);
      assert [s[0]] + s[1..] == s;
    }
  }

  /** A tail that cannot extend a number: no digit, and no "x" that would
      turn a leading "0" into a hexadecimal prefix. */
  predicate EndsNumber(tail: string) {
    tail == [] || !(IsDigit(tail[0]) || tail[0] == 'x' || tail[0] == 'X')
  }

  lemma ParseUnsignedOfNat(m: nat, tail: string)
    requires EndsNumber(tail)
    ensures ParseUnsigned(NatToString(m) + tail) == Some(m)
  {
    var d := NatToString(m);
    var u := d + tail;
    NatToStringValue(m);
    DigitPrefixOfDigits(d, tail);
    if |u| >= 2 && u[0] == '0' {
      assert d == "0";
      assert u[1] == tail[0];
    }
  }

  /** A text starting with a digit is read by `parseInt` as its unsigned
      number, and with a minus in front as the negated number. */
  lemma ParseIntUnsigned(u: string, v: nat)
    requires |u| > 0 && IsDigit(u[0]) && ParseUnsigned(u) == Some(v)
    ensures ParseInt(u) == Some(v)
  {
    TrimStartKeeps(u);
  }

  /** A text that does not start with white space is its own `trimStart`. */
  lemma TrimStartKeeps(u: string)
    requires |u| > 0 && !IsSpace(u[0])
    ensures TrimStart(u) == u
  {
  }

  lemma ParseIntMinus(u: string, v: nat)
    requires |u| > 0 && IsDigit(u[0]) && ParseUnsigned(u) == Some(v)
    ensures ParseInt(['-'] + u) == Some(-(v as int))
  {
    var s := ['-'] + u;
    assert s[0] == '-' && !IsSpace(s[0]);
    assert TrimStart(s) == s;
    assert s[1..] == u;
    assert ParseUnsigned(s[1..]) == Some(v);
  }

  lemma ParseIntNonNegative(m: nat, tail: string)
    requires EndsNumber(tail)
    ensures ParseInt(IntToString(m) + tail) == Some(m)
  {
    var u := NatToString(m) + tail;
    ParseUnsignedOfNat(m, tail);
    assert u[0] == NatToString(m)[0];
    ParseIntUnsigned(u, m);
  }

  lemma ParseIntNegative(n: int, tail: string)
    requires EndsNumber(tail) && n < 0
    ensures ParseInt(IntToString(n) + tail) == Some(n)
  {
    var m: nat := -n;
    var u := NatToString(m) + tail;
    ParseUnsignedOfNat(m, tail);
    assert u[0] == NatToString(m)[0];
    assert IntToString(n) + tail == ['-'] + u;
    ParseIntMinus(u, m);
  }

  /** `parseInt` reads back what `String(n)` writes, for every integer, and
      ignores whatever follows the number. */
  lemma ParseIntRoundTrip(n: int, tail: string)
    requires EndsNumber(tail)
    ensures ParseInt(IntToString(n) + tail) == Some(n)
  {
    if n < 0 {
      ParseIntNegative(n, tail);
    } else {
      ParseIntNonNegative(n, tail);
    }
  }

  /** The text of an unread-count badge: the count itself up to 9, "9+"
      above. */
  function BadgeText(n: nat): (r: string)
    ensures r == "9+" <==> n > 9
    ensures n <= 9 ==> r == NatToString(n)
  {
    if n > 9 then "9+" else NatToString(n)
  }

  /** Read back as a number, a badge says the count capped at 9. */
  lemma BadgeReadsCapped(n: nat)
    ensures ParseInt(BadgeText(n)) == Some(if n > 9 then 9 else n)
  {
    if n > 9 {
      ParseIntRoundTrip(9, "+");
      assert IntToString(9) + "+" == "9+";
    } else {
      ParseIntRoundTrip(n, "");
      assert IntToString(n) + "" == NatToString(n);
    }
  }
}
