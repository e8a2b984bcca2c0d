/**
 * The part of Python's `json.dumps` the sync core uses: serialising a string with the
 * default `ensure_ascii=True`, so every character outside the printable ASCII range is
 * written as a `\uXXXX` escape (a surrogate pair above U+FFFF). The decoder is the
 * partner that reads such a string literal back; the two are proved inverse.
 */
module JsonText {
  import opened Tracker

  /** The lower-case hexadecimal digit for `d < 16`, as `'{0:04x}'.format` writes it. */
  function HexDigit(d: nat): (c: char)
    requires d < 16
    ensures HexValue(c) == Some(d)
    ensures '0' <= c <= 'f'
  {
    if d < 10 then ('0' as int + d) as char else ('a' as int + d - 10) as char
  }

  /** The value of one hexadecimal digit, either case. */
  function HexValue(c: char): (r: Option<nat>)
    ensures r.Some? ==> r.value < 16
  {
    if '0' <= c <= '9' then Some(c as int - '0' as int)
    else if 'a' <= c <= 'f' then Some(c as int - 'a' as int + 10)
    else if 'A' <= c <= 'F' then Some(c as int - 'A' as int + 10)
    else None
  }

  /** Four lower-case hexadecimal digits for `n < 0x10000`, most significant first. */
  function Hex4(n: nat): (s: string)
    requires n < 0x1_0000
    ensures |s| == 4
    ensures ParseHex4(s) == Some(n)
    ensures Printable(s)
  {
    var n1 := n / 16;
    var n2 := n1 / 16;
    [HexDigit(n2 / 16), HexDigit(n2 % 16), HexDigit(n1 % 16), HexDigit(n % 16)]
  }

  /** The value of four hexadecimal digits. */
  function ParseHex4(s: string): (r: Option<nat>)
    requires |s| == 4
    ensures r.Some? ==> r.value < 0x1_0000
  {
    var d0, d1, d2, d3 := HexValue(s[0]), HexValue(s[1]), HexValue(s[2]), HexValue(s[3]);
    if d0.None? || d1.None? || d2.None? || d3.None? then None
    else Some(((d0.value * 16 + d1.value) * 16 + d2.value) * 16 + d3.value)
  }

  predicate IsSurrogate(n: int)
  {
    0xD800 <= n < 0xE000
  }

  /** The escape of one code unit: `\u` and four hex digits. */
  function UnicodeEscape(n: nat): (s: string)
    requires n < 0x1_0000
    ensures |s| == 6
    ensures Printable(s)
  {
    ['\\', 'u'] + Hex4(n)
  }

  /**
   * How `json.dumps` writes one character inside a string literal: a backslash escape for the
   * quote, the backslash and the five named control characters; the character itself when it is
   * printable ASCII (space to `~`); otherwise `\uXXXX`, or a surrogate pair above U+FFFF.
   */
  function EscapeChar(c: char): (s: string)
    ensures s != [] && s[0] != '"'
  {
    var n := c as int;
    if c == '"' then ['\\', '"']
    else if c == '\\' then ['\\', '\\']
    else if c == '\n' then ['\\', 'n']
    else if c == '\r' then ['\\', 'r']
    else if c == '\t' then ['\\', 't']
    else if n == 0x08 then ['\\', 'b']
    else if n == 0x0C then ['\\', 'f']
    else if ' ' <= c <= '~' then [c]
    else if n < 0x1_0000 then UnicodeEscape(n)
    else
      var m := n - 0x1_0000;
      UnicodeEscape(0xD800 + m / 1024) + UnicodeEscape(0xDC00 + m % 1024)
  }

  /** Every character is printable ASCII, space to `~`. */
  predicate Printable(s: string)
  {
    forall k :: 0 <= k < |s| ==> ' ' <= s[k] <= '~'
  }

  lemma PrintableConcat(a: string, b: string)
    requires Printable(a) && Printable(b)
    ensures Printable(a + b)
  {
    assert forall k :: |a| <= k < |a + b| ==> (a + b)[k] == b[k - |a|];
  }

  /** With `ensure_ascii`, an escaped character is printable ASCII. */
  lemma EscapeCharPrintable(c: char)
    ensures Printable(EscapeChar(c))
  {
    var n := c as int;
    if n >= 0x1_0000 {
      var m := n - 0x1_0000;
      PrintableConcat(UnicodeEscape(0xD800 + m / 1024), UnicodeEscape(0xDC00 + m % 1024));
    }
  }

  /** The body of the string literal `json.dumps` writes for `s`, without its quotes. */
  function Escape(s: string): (r: string)
    ensures Printable(r)
  {
    if s == [] then []
    else
      var head, tail := EscapeChar(s[0]), Escape(s[1..]);
      EscapeCharPrintable(s[0]);
      PrintableConcat(head, tail);
      head + tail
  }

  /** `json.dumps(s)` for a string: the escaped body between double quotes. */
  function Quote(s: string): string
  {
    ['"'] + Escape(s) + ['"']
  }

  /**
   * The decoder's reading of a string literal body: it stops at the first unescaped `"` and
   * returns the decoded text and how many characters it read before that quote. A control
   * character, an unknown escape, a lone surrogate or a missing closing quote is an error.
   */
  function ScanString(s: string): (r: Option<(string, nat)>)
    ensures r.Some? ==> r.value.1 < |s| && s[r.value.1] == '"'
    decreases |s|
  {
    if s == [] then None
    else if s[0] == '"' then Some(([], 0))
    else if s[0] < ' ' then None
    else if s[0] != '\\' then
      Then([s[0]], 1, ScanString(s[1..]))
    else if |s| < 2 then None
    else if s[1] in "\"\\/bfnrt" then
      Then([ShortEscapeValue(s[1])], 2, ScanString(s[2..]))
    else if s[1] != 'u' || |s| < 6 then None
    else
      var hi := ParseHex4(s[2..6]);
      if hi.None? then None
      else if !IsSurrogate(hi.value) then
        Then([hi.value as char], 6, ScanString(s[6..]))
      else if hi.value >= 0xDC00 || |s| < 12 || s[6..8] != ['\\', 'u'] then None
      else
        var lo := ParseHex4(s[8..12]);
        if lo.None? || !(0xDC00 <= lo.value < 0xE000) then None
        else
          var code := 0x1_0000 + (hi.value - 0xD800) * 1024 + (lo.value - 0xDC00);
          Then([code as char], 12, ScanString(s[12..]))
  }

  /** The character a two-character escape `\x` stands for. */
  function ShortEscapeValue(x: char): char
  {
    if x == 'b' then 8 as char
    else if x == 'f' then 12 as char
    else if x == 'n' then '\n'
    else if x == 'r' then '\r'
    else if x == 't' then '\t'
    else x
  }

  /** Prefix the decoded text `pre`, read from `width` characters, to the rest of a scan. */
  function Then(pre: string, width: nat, rest: Option<(string, nat)>): (r: Option<(string, nat)>)
    ensures rest.Some? ==> r == Some((pre + rest.value.0, width + rest.value.1))
    ensures rest.None? ==> r.None?
  {
    if rest.None? then None else Some((pre + rest.value.0, width + rest.value.1))
  }

  /** Characters `json.dumps` writes as a two-character backslash escape. */
  predicate HasShortEscape(c: char)
  {
    c == '"' || c == '\\' || c == '\n' || c == '\r' || c == '\t' || c as int == 0x08 || c as int == 0x0C
  }

  /** The decoder reads a two-character escape back. */
  lemma ScanShortEscape(c: char, t: string)
    requires HasShortEscape(c)
    ensures ScanString(EscapeChar(c) + t) == Then([c], 2, ScanString(t))
  {
    var s := EscapeChar(c) + t;
    assert s[2..] == t;
  }

  /** The decoder reads a printable character back as itself. */
  lemma ScanPrintable(c: char, t: string)
    requires !HasShortEscape(c) && ' ' <= c <= '~'
    ensures ScanString(EscapeChar(c) + t) == Then([c], 1, ScanString(t))
  {
    var s := EscapeChar(c) + t;
    assert s[1..] == t;
  }

  /** The decoder reads a `\uXXXX` escape of a character below U+10000 back. */
  lemma ScanBmpEscape(c: char, t: string)
    requires !HasShortEscape(c) && !(' ' <= c <= '~') && c as int < 0x1_0000
    ensures ScanString(EscapeChar(c) + t) == Then([c], 6, ScanString(t))
  {
    var s := EscapeChar(c) + t;
    assert s[2..6] == Hex4(c as int);
    assert s[6..] == t;
  }

  /** The decoder reads two `\uXXXX` escapes forming a high and a low surrogate as one character. */
  lemma ScanPairText(hi: nat, lo: nat, t: string)
    requires 0xD800 <= hi < 0xDC00 && 0xDC00 <= lo < 0xE000
    ensures ScanString(UnicodeEscape(hi) + UnicodeEscape(lo) + t)
         == Then([(0x1_0000 + (hi - 0xD800) * 1024 + (lo - 0xDC00)) as char], 12, ScanString(t))
  {
    var s := UnicodeEscape(hi) + UnicodeEscape(lo) + t;
    assert s[2..6] == Hex4(hi);
    assert s[6..8] == ['\\', 'u'];
    assert s[8..12] == Hex4(lo);
    assert s[12..] == t;
  }

  /** A character above U+FFFF is written as the escapes of its high and low surrogates. */
  lemma SurrogateEscape(c: char)
    requires c as int >= 0x1_0000
    ensures var m := c as int - 0x1_0000;
      && 0xD800 <= 0xD800 + m / 1024 < 0xDC00 && 0xDC00 <= 0xDC00 + m % 1024 < 0xE000
      && EscapeChar(c) == UnicodeEscape(0xD800 + m / 1024) + UnicodeEscape(0xDC00 + m % 1024)
      && 0x1_0000 + m / 1024 * 1024 + m % 1024 == c as int
  {
    SurrogateSplit(c as int - 0x1_0000);
  }

  /** The decoder reads a surrogate pair back as the one character above U+FFFF it encodes. */
  lemma ScanSurrogatePair(c: char, t: string)
    requires c as int >= 0x1_0000
    ensures ScanString(EscapeChar(c) + t) == Then([c], 12, ScanString(t))
  {
    var m := c as int - 0x1_0000;
    var hi, lo := 0xD800 + m / 1024, 0xDC00 + m % 1024;
    SurrogateEscape(c);
    ScanPairText(hi, lo, t);
    assert EscapeChar(c) + t == UnicodeEscape(hi) + UnicodeEscape(lo) + t;
    assert (0x1_0000 + (hi - 0xD800) * 1024 + (lo - 0xDC00)) as char == c;
  }

  /** The two halves of a surrogate pair: ten bits each, recombining to the offset. */
  lemma SurrogateSplit(m: int)
    requires 0 <= m < 0x10_0000
    ensures 0 <= m / 1024 < 1024 && 0 <= m % 1024 < 1024
    ensures m / 1024 * 1024 + m % 1024 == m
  {
  }

  /** The decoder reads one escaped character back, whatever follows it. */
  lemma ScanEscapeChar(c: char, t: string)
    ensures ScanString(EscapeChar(c) + t) == Then([c], |EscapeChar(c)|, ScanString(t))
  {
    if HasShortEscape(c) {
      ScanShortEscape(c, t);
    } else if ' ' <= c <= '~' {
      ScanPrintable(c, t);
    } else if c as int < 0x1_0000 {
      ScanBmpEscape(c, t);
    } else {
      ScanSurrogatePair(c, t);
    }
  }

  /**
   * Decoding what the encoder wrote gives back the original string, and the decoder stops at
   * the closing quote the encoder put after it, whatever text follows.
   */
  lemma {:induction false} ScanEscape(x: string, rest: string)
    ensures ScanString(Escape(x) + ['"'] + rest) == Some((x, |Escape(x)|))
  {
    if x == [] {
      assert Escape(x) + ['"'] + rest == ['"'] + rest;
    } else {
      var tail := Escape(x[1..]) + ['"'] + rest;
      assert Escape(x) + ['"'] + rest == EscapeChar(x[0]) + tail;
      ScanEscape(x[1..], rest);
      ScanEscapeChar(x[0], tail);
      assert [x[0]] + x[1..] == x;
    }
  }

  /** A quoted string reads back as the string it quotes. */
  lemma QuoteRoundTrip(x: string, rest: string)
    ensures var q := Quote(x) + rest;
      q[0] == '"' && ScanString(q[1..]) == Some((x, |Quote(x)| - 2))
  {
    var q := Quote(x) + rest;
    assert q[1..] == Escape(x) + ['"'] + rest;
    ScanEscape(x, rest);
  }
}
