/** UTF-8: what a string is written as, and Rust's strict reading of bytes back into a string. */
module Utf8 {
  import opened Wrappers
  import opened Text

  /** The bytes of one character (section 3 of RFC 3629). */
  function EncodeChar(c: char): seq<byte> {
    var n := c as int;
    if n < 0x80 then [n]
    else if n < 0x800 then [0xC0 + n / 0x40, 0x80 + n % 0x40]
    else if n < 0x1_0000 then [0xE0 + n / 0x1000, 0x80 + n / 0x40 % 0x40, 0x80 + n % 0x40]
    else [0xF0 + n / 0x4_0000, 0x80 + n / 0x1000 % 0x40, 0x80 + n / 0x40 % 0x40, 0x80 + n % 0x40]
  }

  function Encode(s: string): seq<byte> { if s == "" then [] else EncodeChar(s[0]) + Encode(s[1..]) }

  predicate Continues(b: seq<byte>, i: nat) { i < |b| && 0x80 <= b[i] < 0xC0 }

  /** The six payload bits of a continuation byte. */
  function Low(b: byte): int { b - 0x80 }

  predicate IsScalar(n: int) { 0 <= n < 0xD800 || 0xE000 <= n < 0x11_0000 }

  /** The first character and its length in bytes; overlong forms and surrogates are refused. */
  function DecodeChar(b: seq<byte>): (r: Option<(char, nat)>)
    ensures r.Some? ==> 1 <= r.value.1 <= |b|
  {
    if b == [] then None
    else
      var lead: int := b[0];
      if lead < 0x80 then Some((lead as char, 1))
      else if 0xC0 <= lead < 0xE0 && Continues(b, 1) then
        var n := (lead - 0xC0) * 0x40 + Low(b[1]);
        if n >= 0x80 then Some((n as char, 2)) else None
      else if 0xE0 <= lead < 0xF0 && Continues(b, 1) && Continues(b, 2) then
        var n := (lead - 0xE0) * 0x1000 + Low(b[1]) * 0x40 + Low(b[2]);
        if n >= 0x800 && IsScalar(n) then Some((n as char, 3)) else None
      else if 0xF0 <= lead < 0xF8 && Continues(b, 1) && Continues(b, 2) && Continues(b, 3) then
        var n := (lead - 0xF0) * 0x4_0000 + Low(b[1]) * 0x1000 + Low(b[2]) * 0x40 + Low(b[3]);
        if n >= 0x1_0000 && IsScalar(n) then Some((n as char, 4)) else None
      else None
  }

  function Decode(b: seq<byte>): Option<string>
    decreases |b|
  {
    if b == [] then Some("")
    else
      var c :- DecodeChar(b);
      var rest :- Decode(b[c.1..]);
      Some([c.0] + rest)
  }

  lemma SplitTwo(n: int)
    requires 0x80 <= n < 0x800
    ensures (n / 0x40) * 0x40 + n % 0x40 == n && n / 0x40 < 0x20
  {
  }

  lemma SplitThree(n: int)
    requires 0 <= n < 0x1_0000
    ensures (n / 0x1000) * 0x1000 + (n / 0x40 % 0x40) * 0x40 + n % 0x40 == n && n / 0x1000 < 0x10
  {
    assert n / 0x40 / 0x40 == n / 0x1000;
  }

  lemma SplitFour(n: int)
    requires 0 <= n < 0x11_0000
    ensures (n / 0x4_0000) * 0x4_0000 + (n / 0x1000 % 0x40) * 0x1000 + (n / 0x40 % 0x40) * 0x40 + n % 0x40 == n
    ensures n / 0x4_0000 < 5
  {
    assert n / 0x40 / 0x40 == n / 0x1000;
    assert n / 0x1000 / 0x40 == n / 0x4_0000;
  }

  lemma CharRoundTrip(c: char, rest: seq<byte>)
    ensures DecodeChar(EncodeChar(c) + rest) == Some((c, |EncodeChar(c)|))
  {
    var n := c as int;
    if n < 0x80 {
    } else if n < 0x800 {
      SplitTwo(n);
    } else if n < 0x1_0000 {
      SplitThree(n);
    } else {
      SplitFour(n);
    }
  }

  /** Reading back what was written. */
  lemma {:induction false} RoundTrip(s: string)
    ensures Decode(Encode(s)) == Some(s)
  {
    if s != "" {
      var e, t := EncodeChar(s[0]), Encode(s[1..]);
      CharRoundTrip(s[0], t);
      Cut(e, t);
      RoundTrip(s[1..]);
      assert s == [s[0]] + s[1..];
    }
  }

  lemma EncodeInjective(a: string, b: string)
    ensures Encode(a) == Encode(b) <==> a == b
  {
    RoundTrip(a);
    RoundTrip(b);
  }

  lemma {:induction false} EncodeAppend(a: string, b: string)
    ensures Encode(a + b) == Encode(a) + Encode(b)
  {
    if a == "" {
      assert a + b == b;
    } else {
      CutTail(a, b);
      EncodeAppend(a[1..], b);
      Assoc(EncodeChar(a[0]), Encode(a[1..]), Encode(b));
    }
  }

  // ---- lossy reading ----

  /** Whether the second byte can follow this lead byte of a three- or four-byte character. */
  predicate Follows(lead: int, second: int) {
    if lead == 0xE0 then 0xA0 <= second < 0xC0
    else if lead == 0xED then 0x80 <= second < 0xA0
    else if lead == 0xF0 then 0x90 <= second < 0xC0
    else if lead == 0xF4 then 0x80 <= second < 0x90
    else 0xE0 <= lead < 0xF4 && 0x80 <= second < 0xC0
  }

  /** How many bytes one replacement character stands for: the part that could have begun a character. */
  function BadLength(b: seq<byte>): (n: nat)
    requires b != []
    ensures 1 <= n <= |b|
  {
    if |b| == 1 || !Follows(b[0], b[1]) then 1
    else if b[0] >= 0xF0 && Continues(b, 2) then 3
    else 2
  }

  /** Rust's `from_utf8_lossy`: what cannot be read becomes U+FFFD. */
  function Lossy(b: seq<byte>): string
    decreases |b|
  {
    if b == [] then ""
    else
      var c := DecodeChar(b);
      if c.Some? then [c.value.0] + Lossy(b[c.value.1..])
      else ['\U{FFFD}'] + Lossy(b[BadLength(b)..])
  }

  lemma LossyChar(c: char, rest: seq<byte>)
    ensures Lossy(EncodeChar(c) + rest) == [c] + Lossy(rest)
  {
    var b := EncodeChar(c) + rest;
    CharRoundTrip(c, rest);
    Cut(EncodeChar(c), rest);
    assert b != [];
    hide EncodeChar, DecodeChar;
    assert b[|EncodeChar(c)|..] == rest;
  }

  /** Text read lossily from its own bytes comes back, whatever follows it. */
  lemma {:induction false} LossyPrefix(s: string, rest: seq<byte>)
    ensures Lossy(Encode(s) + rest) == s + Lossy(rest)
  {
    hide EncodeChar, Lossy;
    if s == "" {
      assert Encode(s) + rest == rest;
      assert s + Lossy(rest) == Lossy(rest);
    } else {
      var h, t := s[0], s[1..];
      assert s == [h] + t;
      assert Encode(s) == EncodeChar(h) + Encode(t);
      hide Encode;
      Assoc(EncodeChar(h), Encode(t), rest);
      LossyChar(h, Encode(t) + rest);
      LossyPrefix(t, rest);
      Assoc([h], t, Lossy(rest));
    }
  }

  /** Lossy reading is strict reading where that succeeds, and shows a replacement character where it fails. */
  lemma {:induction false} LossyAgrees(b: seq<byte>)
    ensures var s := Decode(b); if s.Some? then Lossy(b) == s.value else '\U{FFFD}' in Lossy(b)
    decreases |b|
  {
    if b != [] && DecodeChar(b).Some? {
      LossyAgrees(b[DecodeChar(b).value.1..]);
    }
  }

  /** An ASCII byte occurs in the bytes of a text only where its character does. */
  lemma {:induction false} EncodeKeepsAscii(s: string, c: char)
    requires c as int < 0x80
    ensures c as int in Encode(s) <==> c in s
  {
    if s != "" {
      EncodeKeepsAscii(s[1..], c);
      assert s == [s[0]] + s[1..];
      assert c as int in EncodeChar(s[0]) <==> c == s[0];
    }
  }

  predicate IsAscii(s: string) { forall c :: c in s ==> c as int < 0x80 }

  lemma {:induction false} EncodeAscii(s: string)
    requires IsAscii(s)
    ensures |Encode(s)| == |s| && forall i :: 0 <= i < |s| ==> Encode(s)[i] == s[i] as int
  {
    if s != "" {
      assert s[0] in s && forall c :: c in s[1..] ==> c in s;
      EncodeAscii(s[1..]);
    }
  }
}
