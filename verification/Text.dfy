/** Character-level building blocks: escaping, decimal and hexadecimal text, trimming, prefixes. */
module Text {
  import opened Wrappers

  type byte = b: int | 0 <= b < 0x100
  type u32 = n: int | 0 <= n < U32_LIMIT
  type u64 = n: int | 0 <= n < U64_LIMIT

  const U32_LIMIT := 0x1_0000_0000
  const U64_LIMIT := 0x1_0000_0000_0000_0000

  // ---- sequence algebra ----

  lemma Assoc<T>(a: seq<T>, b: seq<T>, c: seq<T>)
    ensures a + b + c == a + (b + c)
  {
  }

  lemma Cut<T>(a: seq<T>, b: seq<T>)
    ensures (a + b)[..|a|] == a && (a + b)[|a|..] == b
  {
  }

  lemma CutTail<T>(a: seq<T>, b: seq<T>)
    requires a != []
    ensures (a + b)[1..] == a[1..] + b && (a + b)[0] == a[0]
  {
  }

  // ---- searching and prefixes ----

  /** Index of the first `c` in `s`, or `|s|`. */
  function Find(s: string, c: char): (n: nat)
    ensures n <= |s|
    ensures n < |s| ==> s[n] == c
    ensures forall i :: 0 <= i < n ==> s[i] != c
  {
    if s == "" || s[0] == c then 0 else 1 + Find(s[1..], c)
  }

  lemma FindAt(s: string, c: char, n: nat)
    requires n < |s| && s[n] == c && forall i :: 0 <= i < n ==> s[i] != c
    ensures Find(s, c) == n
  {
  }

  function StripPrefix(s: string, p: string): Option<string> {
    if p <= s then Some(s[|p|..]) else None
  }

  /** The part of a qualified name after its last colon. */
  function LocalName(s: string): string {
    if ':' in s then LocalName(s[Find(s, ':') + 1..]) else s
  }

  lemma LocalNamePlain(s: string)
    requires ':' !in s
    ensures LocalName(s) == s
  {
  }

  // ---- escaping ----

  /** Rust's `str::replace` with a one-character pattern. */
  function Replace(s: string, c: char, to: string): string {
    if s == "" then "" else (if s[0] == c then to else [s[0]]) + Replace(s[1..], c, to)
  }

  function EscapeText(s: string): string {
    Replace(Replace(Replace(s, '&', "&amp;"), '<', "&lt;"), '>', "&gt;")
  }

  function EscapeAttr(s: string): string {
    Replace(Replace(Replace(Replace(s, '&', "&amp;"), '<', "&lt;"), '>', "&gt;"), '"', "&quot;")
  }

  /** The character a numeric reference names: any Unicode scalar value but zero. */
  function CharOf(code: nat): Option<char> {
    if 0 < code < 0xD800 || 0xE000 <= code < 0x11_0000 then Some(code as char) else None
  }

  /** What stands between `&#` and `;`: up to seven decimal digits, or `x` and up to six hexadecimal ones. */
  function CharRef(s: string): Option<char> {
    if "x" <= s then
      if |s| > 7 then None else var code :- HexNumber(s[1..]); CharOf(code)
    else if |s| <= 7 && AllDigits(s) then CharOf(DigitsValue(s))
    else None
  }

  /**
   * The predefined entities and the character references of sections 4.6 and 4.1 of XML 1.0; any other
   * reference is an error.
   */
  function Unescape(s: string): Option<string>
    decreases |s|
  {
    if s == "" then Some("")
    else if s[0] != '&' then
      var t :- Unescape(s[1..]); Some([s[0]] + t)
    else if "&amp;" <= s then
      var t :- Unescape(s[5..]); Some("&" + t)
    else if "&lt;" <= s then
      var t :- Unescape(s[4..]); Some("<" + t)
    else if "&gt;" <= s then
      var t :- Unescape(s[4..]); Some(">" + t)
    else if "&quot;" <= s then
      var t :- Unescape(s[6..]); Some("\"" + t)
    else if "&apos;" <= s then
      var t :- Unescape(s[6..]); Some("'" + t)
    else if "&#" <= s then
      var n := Find(s, ';');
      if n == |s| then None
      else var c :- CharRef(s[2..n]); var t :- Unescape(s[n + 1..]); Some([c] + t)
    else None
  }

  /** One character, escaped in a single pass. */
  function EscapeChar(c: char, quote: bool): string {
    if c == '&' then "&amp;" else if c == '<' then "&lt;" else if c == '>' then "&gt;"
    else if quote && c == '"' then "&quot;" else [c]
  }

  /** Single-pass escaping: the reference the chained replacements are compared with. */
  function Escape(s: string, quote: bool): string {
    if s == "" then "" else EscapeChar(s[0], quote) + Escape(s[1..], quote)
  }

  lemma {:induction false} ReplaceAppend(a: string, b: string, c: char, to: string)
    ensures Replace(a + b, c, to) == Replace(a, c, to) + Replace(b, c, to)
  {
    if a == "" {
      assert a + b == b;
    } else {
      assert (a + b)[1..] == a[1..] + b;
      ReplaceAppend(a[1..], b, c, to);
    }
  }

  lemma {:induction false} ReplaceAbsent(s: string, c: char, to: string)
    requires c !in s
    ensures Replace(s, c, to) == s
  {
    if s != "" {
      ReplaceAbsent(s[1..], c, to);
    }
  }

  /** Chained replacement of `&`, `<`, `>` does not touch the entities an earlier link wrote. */
  lemma {:induction false} EscapeTextIsOnePass(s: string)
    ensures EscapeText(s) == Escape(s, false)
  {
    if s != "" {
      var h, t := s[0], s[1..];
      assert s == [h] + t;
      var h1 := if h == '&' then "&amp;" else [h];
      var t1 := Replace(t, '&', "&amp;");
      ReplaceAppend(h1, t1, '<', "&lt;");
      var h2, t2 := Replace(h1, '<', "&lt;"), Replace(t1, '<', "&lt;");
      ReplaceAppend(h2, t2, '>', "&gt;");
      HeadReplaced(h);
      EscapeTextIsOnePass(t);
    }
  }

  lemma HeadReplaced(h: char)
    ensures var h1 := if h == '&' then "&amp;" else [h];
            var h3 := Replace(Replace(h1, '<', "&lt;"), '>', "&gt;");
            h3 == EscapeChar(h, false) && Replace(h3, '"', "&quot;") == EscapeChar(h, true)
  {
    SingleReplaced(h, '<', "&lt;");
    SingleReplaced(h, '>', "&gt;");
    SingleReplaced(h, '"', "&quot;");
    if h == '&' {
      EntityKept("&amp;");
    } else if h == '<' {
      EntityKept("&lt;");
    } else if h == '>' {
      EntityKept("&gt;");
    }
  }

  lemma SingleReplaced(x: char, c: char, to: string)
    ensures Replace([x], c, to) == if x == c then to else [x]
  {
  }

  lemma EntityKept(e: string)
    requires '<' !in e && '>' !in e && '"' !in e
    ensures Replace(e, '<', "&lt;") == e && Replace(e, '>', "&gt;") == e && Replace(e, '"', "&quot;") == e
  {
  }

  lemma {:induction false} EscapeAttrIsOnePass(s: string)
    ensures EscapeAttr(s) == Escape(s, true)
  {
    EscapeTextIsOnePass(s);
    QuoteAfterText(s);
  }

  lemma {:induction false} QuoteAfterText(s: string)
    ensures Replace(Escape(s, false), '"', "&quot;") == Escape(s, true)
  {
    if s != "" {
      HeadReplaced(s[0]);
      ReplaceAppend(EscapeChar(s[0], false), Escape(s[1..], false), '"', "&quot;");
      QuoteAfterText(s[1..]);
    }
  }

  lemma {:induction false} EscapeAppend(a: string, b: string, quote: bool)
    ensures Escape(a + b, quote) == Escape(a, quote) + Escape(b, quote)
  {
    if a == "" {
      assert a + b == b;
    } else {
      assert (a + b)[1..] == a[1..] + b;
      EscapeAppend(a[1..], b, quote);
    }
  }

  lemma EscapedCharHasNoDelimiter(c: char, quote: bool)
    ensures var e := EscapeChar(c, quote); '<' !in e && '>' !in e && (quote ==> '"' !in e) && e != ""
  {
  }

  /** Escaped text never contains a delimiter. */
  lemma {:induction false} EscapedHasNoDelimiter(s: string, quote: bool)
    ensures '<' !in Escape(s, quote) && '>' !in Escape(s, quote)
    ensures quote ==> '"' !in Escape(s, quote)
    ensures s != "" ==> Escape(s, quote) != ""
  {
    hide EscapeChar;
    if s != "" {
      EscapedHasNoDelimiter(s[1..], quote);
      EscapedCharHasNoDelimiter(s[0], quote);
    }
  }

  lemma UnescapeHead(c: char, t: string, quote: bool)
    requires Unescape(t).Some?
    ensures Unescape(EscapeChar(c, quote) + t) == Some([c] + Unescape(t).value)
  {
    var e := EscapeChar(c, quote);
    var s := e + t;
    assert s[|e|..] == t && e <= s;
    if c != '&' && e == [c] {
      assert s[0] == c;
    } else {
      assert s[0] == '&' && s[1] == e[1];
    }
  }

  lemma {:induction false} UnescapeEscape(s: string, quote: bool)
    ensures Unescape(Escape(s, quote)) == Some(s)
  {
    if s != "" {
      var e, t := EscapeChar(s[0], quote), Escape(s[1..], quote);
      UnescapeEscape(s[1..], quote);
      UnescapeHead(s[0], t, quote);
      assert s == [s[0]] + s[1..];
    }
  }

  lemma {:induction false} UnescapePlain(s: string)
    requires '&' !in s
    ensures Unescape(s) == Some(s)
  {
    if s != "" {
      assert s[0] in s && s == [s[0]] + s[1..];
      UnescapePlain(s[1..]);
    }
  }

  /** What the writer escapes, the reader recovers, for text and for attribute values. */
  lemma EscapeRoundTrip(s: string)
    ensures Unescape(EscapeText(s)) == Some(s) && Unescape(EscapeAttr(s)) == Some(s)
    ensures '<' !in EscapeText(s) && '<' !in EscapeAttr(s) && '"' !in EscapeAttr(s) && '>' !in EscapeAttr(s)
    ensures s != "" ==> EscapeText(s) != ""
  {
    EscapeTextIsOnePass(s);
    EscapeAttrIsOnePass(s);
    UnescapeEscape(s, false);
    UnescapeEscape(s, true);
    EscapedHasNoDelimiter(s, false);
    EscapedHasNoDelimiter(s, true);
  }

  /** Text without markup characters is written and read as it stands. */
  lemma PlainText(s: string)
    requires '&' !in s && '<' !in s && '>' !in s && '"' !in s
    ensures EscapeText(s) == s && EscapeAttr(s) == s && Unescape(s) == Some(s)
  {
    ReplaceAbsent(s, '&', "&amp;");
    ReplaceAbsent(s, '<', "&lt;");
    ReplaceAbsent(s, '>', "&gt;");
    ReplaceAbsent(s, '"', "&quot;");
    UnescapePlain(s);
  }

  // ---- trimming ----

  /** The whitespace of section 2.3 of XML 1.0. */
  predicate IsXmlSpace(c: char) { c == ' ' || c == '\t' || c == '\n' || c == '\r' }

  function TrimStart(s: string): (r: string)
    ensures |r| <= |s|
    ensures r != "" ==> !IsXmlSpace(r[0])
  {
    if s != "" && IsXmlSpace(s[0]) then TrimStart(s[1..]) else s
  }

  function TrimEnd(s: string): (r: string)
    ensures |r| <= |s|
    ensures r != "" ==> !IsXmlSpace(r[|r| - 1])
  {
    if s != "" && IsXmlSpace(s[|s| - 1]) then TrimEnd(s[..|s| - 1]) else s
  }

  function Trim(s: string): string { TrimEnd(TrimStart(s)) }

  lemma {:induction false} TrimStartSpaces(w: string, s: string)
    requires forall c :: c in w ==> IsXmlSpace(c)
    ensures TrimStart(w + s) == TrimStart(s)
  {
    if w == "" {
      assert w + s == s;
    } else {
      assert w[0] in w;
      assert (w + s)[1..] == w[1..] + s;
      TrimStartSpaces(w[1..], s);
    }
  }

  lemma EscapeSpace(c: char)
    ensures IsXmlSpace(c) ==> EscapeChar(c, false) == [c]
    ensures !IsXmlSpace(c) ==> !IsXmlSpace(EscapeChar(c, false)[0])
    ensures !IsXmlSpace(c) ==> !IsXmlSpace(EscapeChar(c, false)[|EscapeChar(c, false)| - 1])
  {
  }

  lemma {:induction false} TrimStartEscape(s: string)
    ensures TrimStart(Escape(s, false)) == Escape(TrimStart(s), false)
  {
    if s != "" {
      EscapeSpace(s[0]);
      if IsXmlSpace(s[0]) {
        assert Escape(s, false)[1..] == Escape(s[1..], false);
        TrimStartEscape(s[1..]);
      } else {
        assert Escape(s, false)[0] == EscapeChar(s[0], false)[0];
      }
    }
  }

  lemma {:induction false} TrimEndEscape(s: string)
    ensures TrimEnd(Escape(s, false)) == Escape(TrimEnd(s), false)
  {
    if s != "" {
      var n := |s| - 1;
      assert s == s[..n] + [s[n]];
      EscapeAppend(s[..n], [s[n]], false);
      assert Escape([s[n]], false) == EscapeChar(s[n], false);
      var e := Escape(s, false);
      assert e == Escape(s[..n], false) + EscapeChar(s[n], false);
      EscapeSpace(s[n]);
      if IsXmlSpace(s[n]) {
        assert e[..|e| - 1] == Escape(s[..n], false);
        TrimEndEscape(s[..n]);
      } else {
        assert e[|e| - 1] == EscapeChar(s[n], false)[|EscapeChar(s[n], false)| - 1];
      }
    }
  }

  /** Trimming the escaped text is escaping the trimmed text. */
  lemma TrimEscape(s: string)
    ensures Trim(EscapeText(s)) == EscapeText(Trim(s))
  {
    EscapeTextIsOnePass(s);
    EscapeTextIsOnePass(Trim(s));
    TrimStartEscape(s);
    TrimEndEscape(TrimStart(s));
  }

  /** Trimming twice is trimming once. */
  lemma {:induction false} TrimIdempotent(s: string)
    ensures Trim(Trim(s)) == Trim(s)
  {
    TrimEndKeepsHead(TrimStart(s));
  }

  lemma {:induction false} TrimEndKeepsHead(s: string)
    ensures TrimEnd(s) <= s
    ensures TrimEnd(TrimEnd(s)) == TrimEnd(s)
  {
    if s != "" && IsXmlSpace(s[|s| - 1]) {
      TrimEndKeepsHead(s[..|s| - 1]);
    }
  }

  /** The Unicode `White_Space` characters, which Rust's `str::trim` and `split_whitespace` use. */
  predicate IsUniSpace(c: char) {
    var n := c as int;
    9 <= n <= 13 || n == 0x20 || n == 0x85 || n == 0xA0 || n == 0x1680 || 0x2000 <= n <= 0x200A
    || n == 0x2028 || n == 0x2029 || n == 0x202F || n == 0x205F || n == 0x3000
  }

  function RustTrim(s: string): string
    decreases |s|
  {
    if s != "" && IsUniSpace(s[0]) then RustTrim(s[1..])
    else if s != "" && IsUniSpace(s[|s| - 1]) then RustTrim(s[..|s| - 1])
    else s
  }

  // ---- decimal text ----

  function Digit(d: nat): char
    requires d < 10
  {
    "0123456789"[d]
  }

  predicate IsDigit(c: char) { '0' <= c <= '9' }

  function DigitValue(c: char): (d: nat)
    requires IsDigit(c)
    ensures d < 10
  {
    (c as int) - ('0' as int)
  }

  /** Rust's `{}` on an unsigned integer. */
  function Dec(n: nat): string {
    if n < 10 then [Digit(n)] else Dec(n / 10) + [Digit(n % 10)]
  }

  predicate AllDigits(s: string) { forall c :: c in s ==> IsDigit(c) }

  function DigitsValue(s: string): nat
    requires AllDigits(s)
  {
    if s == "" then 0
    else
      assert s[|s| - 1] in s;
      10 * DigitsValue(s[..|s| - 1]) + DigitValue(s[|s| - 1])
  }

  /** `str::parse` for an unsigned type with `limit` values: optional `+`, digits, no overflow. */
  function ParseUnsigned(s: string, limit: nat): Option<nat> {
    var t := if "+" <= s then s[1..] else s;
    if t != "" && AllDigits(t) && DigitsValue(t) < limit then Some(DigitsValue(t)) else None
  }

  lemma {:induction false} DecDigits(n: nat)
    ensures Dec(n) != "" && AllDigits(Dec(n)) && DigitsValue(Dec(n)) == n
  {
    if n >= 10 {
      DecDigits(n / 10);
      assert Dec(n)[..|Dec(n)| - 1] == Dec(n / 10);
    } else {
      assert Dec(n)[..0] == "";
    }
  }

  lemma DecRoundTrip(n: nat, limit: nat)
    requires n < limit
    ensures ParseUnsigned(Dec(n), limit) == Some(n)
    ensures Unescape(Dec(n)) == Some(Dec(n)) && '"' !in Dec(n)
  {
    DecDigits(n);
    assert Dec(n)[0] in Dec(n);
    UnescapePlain(Dec(n));
  }

  // ---- hexadecimal text ----

  /** Characters with a meaning to the tokenizer, to a URL or to a line reader. */
  predicate IsMarkup(c: char) { c in "&<>\":/? \t\r\n" }

  function HexDigit(d: nat): char
    requires d < 16
  {
    "0123456789abcdef"[d]
  }

  /** `hex::encode`: two lower-case digits a byte. */
  function HexEncode(b: seq<byte>): string {
    if b == [] then "" else [HexDigit(b[0] / 16), HexDigit(b[0] % 16)] + HexEncode(b[1..])
  }

  function HexValue(c: char): Option<nat> {
    if '0' <= c <= '9' then Some(c as int - '0' as int)
    else if 'a' <= c <= 'f' then Some(c as int - 'a' as int + 10)
    else if 'A' <= c <= 'F' then Some(c as int - 'A' as int + 10)
    else None
  }

  function HexNumber(s: string): Option<nat> {
    if s == "" then Some(0)
    else
      var high :- HexNumber(s[..|s| - 1]);
      var low :- HexValue(s[|s| - 1]);
      Some(16 * high + low)
  }

  /** `hex::decode`: either case, an even number of digits. */
  function HexDecode(s: string): Option<seq<byte>> {
    if s == "" then Some([])
    else if |s| == 1 then None
    else
      var hi :- HexValue(s[0]);
      var lo :- HexValue(s[1]);
      var rest :- HexDecode(s[2..]);
      if hi < 16 && lo < 16 then Some([16 * hi + lo] + rest) else None
  }

  lemma HexDigitValue(d: nat)
    requires d < 16
    ensures HexValue(HexDigit(d)) == Some(d)
    ensures !IsMarkup(HexDigit(d))
  {
  }

  lemma {:induction false} HexRoundTrip(b: seq<byte>)
    ensures HexDecode(HexEncode(b)) == Some(b)
    ensures |HexEncode(b)| == 2 * |b|
    ensures forall c :: c in HexEncode(b) ==> !IsMarkup(c)
  {
    if b != [] {
      var hi, lo := HexDigit(b[0] / 16), HexDigit(b[0] % 16);
      HexDigitValue(b[0] / 16);
      HexDigitValue(b[0] % 16);
      HexRoundTrip(b[1..]);
      var s := HexEncode(b);
      assert s[0] == hi && s[1] == lo && s[2..] == HexEncode(b[1..]);
      assert b == [b[0]] + b[1..];
    }
  }
}
