/** JavaScript `encodeURIComponent` (section 19.2.6.5 of ECMAScript): every
    character outside the unreserved set becomes the percent-escapes of its
    UTF-8 bytes, with upper-case hexadecimal digits. */
module Uri {
  import opened Wrappers
  import opened Text

  /** The characters `encodeURIComponent` leaves as they are. */
  predicate Unreserved(c: char) {
    ('A' <= c <= 'Z') || ('a' <= c <= 'z') || ('0' <= c <= '9')
    || c == '-' || c == '_' || c == '.' || c == '!' || c == '~' || c == '*' || c == '\'' || c == '(' || c == ')'
  }

  function HexDigitUpper(d: nat): (c: char)
    requires d < 16
    ensures IsHexDigit(c) && HexValue(c) == d
  {
    if d < 10 then DigitChar(d) else ('A' as int + d - 10) as char
  }

  /** `%XY` for one byte. */
  function Escape(b: nat): (r: string)
    requires b < 256
    ensures |r| == 3 && r[0] == '%' && IsHexDigit(r[1]) && IsHexDigit(r[2])
    ensures HexValue(r[1]) * 16 + HexValue(r[2]) == b
  {
    ['%', HexDigitUpper(b / 16), HexDigitUpper(b % 16)]
  }

  /** The UTF-8 encoding of one Unicode scalar value. */
  function Utf8(c: char): (bytes: seq<nat>)
    ensures 1 <= |bytes| <= 4
    ensures forall i :: 0 <= i < |bytes| ==> bytes[i] < 256
    ensures (c as int < 0x80) <==> |bytes| == 1
    ensures c as int < 0x80 ==> bytes == [c as int]
  {
    var n := c as int;
    if n < 0x80 then [n]
    else if n < 0x800 then [0xC0 + n / 64, 0x80 + n % 64]
    else if n < 0x10000 then [0xE0 + n / 4096, 0x80 + (n / 64) % 64, 0x80 + n % 64]
    else [0xF0 + n / 262144, 0x80 + (n / 4096) % 64, 0x80 + (n / 64) % 64, 0x80 + n % 64]
  }

  function EscapeAll(bytes: seq<nat>): (r: string)
    requires forall i :: 0 <= i < |bytes| ==> bytes[i] < 256
    ensures |r| == 3 * |bytes|
  {
    if bytes == [] then [] else Escape(bytes[0]) + EscapeAll(bytes[1..])
  }

  /** One character: itself when unreserved, its escaped UTF-8 bytes otherwise. */
  function EncodeChar(c: char): (r: string)
    ensures Unreserved(c) ==> r == [c]
    ensures !Unreserved(c) ==> |r| >= 3 && r[0] == '%'
  {
    if Unreserved(c) then [c] else EscapeAll(Utf8(c))
  }

  /** encodeURIComponent. */
  function EncodeComponent(s: string): (r: string)
    ensures |r| >= |s|
  {
    if s == [] then [] else EncodeChar(s[0]) + EncodeComponent(s[1..])
  }

  /** Text made of unreserved characters is not changed. */
  lemma {:induction false} EncodeUnreserved(s: string)
    requires forall i :: 0 <= i < |s| ==> Unreserved(s[i])
    ensures EncodeComponent(s) == s
    decreases |s|
  {
    if s != [] {
      EncodeUnreserved(s[1..]);
      assert s == [s[0]] + s[1..];
    }
  }

  /** A reference decoder for ASCII text: `%XY` with XY below 0x80 stands
      for that character, an unreserved character for itself; anything else
      is rejected. */
  function DecodeAscii(s: string): Option<string>
    decreases |s|
  {
    if s == [] then Some([])
    else if s[0] == '%' then
      if |s| >= 3 && IsHexDigit(s[1]) && IsHexDigit(s[2]) && HexValue(s[1]) * 16 + HexValue(s[2]) < 0x80 then
        var rest :- DecodeAscii(s[3..]);
        Some([(HexValue(s[1]) * 16 + HexValue(s[2])) as char] + rest)
      else None
    else if Unreserved(s[0]) then
      var rest :- DecodeAscii(s[1..]);
      Some([s[0]] + rest)
    else None
  }

  predicate Ascii(s: string) {
    forall i :: 0 <= i < |s| ==> s[i] as int < 0x80
  }

  /** Encoding is reversible on ASCII text. */
  lemma {:induction false} EncodeAsciiRoundTrip(s: string)
    requires Ascii(s)
    ensures DecodeAscii(EncodeComponent(s)) == Some(s)
    decreases |s|
  {
    if s != [] {
      EncodeAsciiRoundTrip(s[1..]);
      var tail := EncodeComponent(s[1..]);
      if Unreserved(s[0]) {
        assert EncodeComponent(s) == [s[0]] + tail;
        assert ([s[0]] + tail)[1..] == tail;
      } else {
        var e := Escape(s[0] as int);
        assert EncodeChar(s[0]) == e by {
          assert Utf8(s[0]) == [s[0] as int];
          assert EscapeAll([s[0] as int]) == e + EscapeAll([]);
        }
        assert EncodeComponent(s) == e + tail;
        assert (e + tail)[3..] == tail;
        assert (e + tail)[0] == '%' && (e + tail)[1] == e[1] && (e + tail)[2] == e[2];
        assert ((s[0] as int) as char) == s[0];
      }
      assert s == [s[0]] + s[1..];
    }
  }

  /** Encoding a text that starts with `c`. */
  lemma EncodeCons(c: char, t: string)
    ensures Boxed(EncodeComponent([c] + t)) == Boxed(EncodeChar(c) + EncodeComponent(t))
  {
    assert ([c] + t)[0] == c && ([c] + t)[1..] == t;
  }

  lemma SplitHead(a: string, b: string)
    requires a != []
    ensures Boxed(a) == Boxed([a[0]] + a[1..])
    ensures Boxed(a + b) == Boxed([a[0]] + (a[1..] + b))
  {
    assert a == [a[0]] + a[1..];
    assert a + b == [a[0]] + (a[1..] + b);
  }

  lemma Regroup(head: string, x: string, y: string, whole: string, left: string)
    requires Boxed(whole) == Boxed(head + (x + y)) && Boxed(left) == Boxed(head + x)
    ensures Boxed(whole) == Boxed(left + y)
  {
    assert head + (x + y) == (head + x) + y;
  }

  lemma EncodeConcatNext(a: string, b: string)
    requires a != []
    requires Boxed(EncodeComponent(a[1..] + b)) == Boxed(EncodeComponent(a[1..]) + EncodeComponent(b))
    ensures Boxed(EncodeComponent(a + b)) == Boxed(EncodeComponent(a) + EncodeComponent(b))
  {
    SplitHead(a, b);
    EncodeCons(a[0], a[1..] + b);
    EncodeCons(a[0], a[1..]);
    Regroup(EncodeChar(a[0]), EncodeComponent(a[1..]), EncodeComponent(b),
            EncodeComponent(a + b), EncodeComponent(a));
  }

  lemma {:induction false} EncodeConcatBoxed(a: string, b: string)
    ensures Boxed(EncodeComponent(a + b)) == Boxed(EncodeComponent(a) + EncodeComponent(b))
    decreases |a|
  {
    if |a| == 0 {
      assert a + b == b;
      assert EncodeComponent(a) + EncodeComponent(b) == EncodeComponent(b);
    } else {
      EncodeConcatBoxed(a[1..], b);
      EncodeConcatNext(a, b);
    }
  }

  /** Encoding works character by character. */
  lemma EncodeConcat(a: string, b: string)
    ensures EncodeComponent(a + b) == EncodeComponent(a) + EncodeComponent(b)
  {
    EncodeConcatBoxed(a, b);
  }

  /** A slash is escaped, so a path passed as a query value stays one value. */
  lemma SlashEscaped()
    ensures EncodeComponent("/") == "%2F"
  {
    assert Utf8('/') == [47];
    assert EscapeAll([47]) == Escape(47) + EscapeAll([]);
    assert EncodeChar('/') == "%2F";
    assert EncodeComponent("/") == EncodeChar('/') + EncodeComponent([]);
  }

  /** A segment of unreserved characters between two slashes. */
  lemma {:induction false} SegmentEscaped(w: string)
    requires forall i :: 0 <= i < |w| ==> Unreserved(w[i])
    ensures EncodeComponent("/" + w + "/") == "%2F" + w + "%2F"
  {
    SlashEscaped();
    EncodeUnreserved(w);
    EncodeConcat(w, "/");
    EncodeConcat("/", w + "/");
    assert "/" + w + "/" == "/" + (w + "/");
  }
}
