/** The bytes of an HTTP/1.1 head: its lines, where it ends, and how a line is read. */
module Http {
  import opened Wrappers
  import opened Text
  import Utf8

  const CRLF: seq<byte> := [13, 10]

  // ---- where a head ends ----

  /** Whether an empty line, CR LF CR LF, stands at `i`. */
  predicate BlankLineAt(b: seq<byte>, i: nat) {
    i + 4 <= |b| && b[i] == 13 && b[i + 1] == 10 && b[i + 2] == 13 && b[i + 3] == 10
  }

  /** Position of the first CR LF CR LF at or after `from`. */
  function BlankLineFrom(b: seq<byte>, from: nat): (r: Option<nat>)
    ensures r.Some? ==> r.value >= from && BlankLineAt(b, r.value)
    ensures forall i: nat :: from <= i && BlankLineAt(b, i) ==> r.Some? && r.value <= i
    decreases |b| - from
  {
    if from + 4 > |b| then None
    else if BlankLineAt(b, from) then Some(from)
    else BlankLineFrom(b, from + 1)
  }

  function HeaderEnd(b: seq<byte>): (r: Option<nat>)
    ensures r.Some? ==> BlankLineAt(b, r.value)
    ensures forall i: nat :: BlankLineAt(b, i) ==> r.Some? && r.value <= i
  {
    BlankLineFrom(b, 0)
  }

  lemma HeaderEndAt(b: seq<byte>, i: nat)
    requires BlankLineAt(b, i) && forall j: nat :: j < i ==> !BlankLineAt(b, j)
    ensures HeaderEnd(b) == Some(i)
  {
  }

  lemma StartsWithCrlf(x: seq<byte>)
    ensures CRLF <= x <==> |x| >= 2 && x[0] == 13 && x[1] == 10
  {
  }

  /** What stands where in a line without CR, its CR LF, and the rest. */
  lemma LineBytes(line: seq<byte>, x: seq<byte>)
    requires 13 !in line
    ensures var b, n := line + CRLF + x, |line|;
            && (forall i: nat :: i < n ==> b[i] != 13) && b[n] == 13 && b[n + 1] == 10
            && |b| == n + 2 + |x| && forall i: nat :: i < |x| ==> b[n + 2 + i] == x[i]
  {
  }

  /** The head ends at a line that an empty line follows. */
  lemma LastLine(line: seq<byte>, x: seq<byte>)
    requires 13 !in line && CRLF <= x
    ensures HeaderEnd(line + CRLF + x) == Some(|line|)
  {
    LineBytes(line, x);
    StartsWithCrlf(x);
    HeaderEndAt(line + CRLF + x, |line|);
  }

  /** A line that no empty line follows is skipped whole. */
  lemma SkipLine(line: seq<byte>, x: seq<byte>)
    requires 13 !in line && !(CRLF <= x) && HeaderEnd(x).Some?
    ensures HeaderEnd(line + CRLF + x) == Some(|line| + 2 + HeaderEnd(x).value)
  {
    var b, n, e := line + CRLF + x, |line| + 2, HeaderEnd(x).value;
    LineBytes(line, x);
    StartsWithCrlf(x);
    forall j: nat | j < n + e ensures !BlankLineAt(b, j) {
      if j >= n {
        assert !BlankLineAt(x, j - n);
      }
    }
    hide CRLF;
    HeaderEndAt(b, n + e);
  }

  // ---- a head as lines ----

  /** Lines joined by CR LF. */
  function Joined(lines: seq<string>): string {
    if lines == [] then ""
    else if |lines| == 1 then lines[0]
    else lines[0] + "\r\n" + Joined(lines[1..])
  }

  /** A whole head: its lines, each ended by CR LF, and an empty line. */
  function Head(lines: seq<string>): string {
    if lines == [] then "\r\n" else lines[0] + "\r\n" + Head(lines[1..])
  }

  /** A line with something on it and no line break in it. */
  predicate PlainLine(s: string) { s != "" && '\r' !in s && '\n' !in s }

  predicate PlainLines(lines: seq<string>) { lines != [] && forall l :: l in lines ==> PlainLine(l) }

  lemma CrlfBytes()
    ensures Utf8.Encode("\r\n") == CRLF
  {
    assert "\r\n"[1..] == "\n" && "\n"[1..] == "";
    assert Utf8.Encode("\n") == [10];
  }

  lemma CrlfLength()
    ensures |CRLF| == 2
  {
  }

  lemma EncodeLine(line: string, rest: string)
    ensures Utf8.Encode(line + "\r\n" + rest) == Utf8.Encode(line) + CRLF + Utf8.Encode(rest)
  {
    CrlfBytes();
    Utf8.EncodeAppend(line + "\r\n", rest);
    Utf8.EncodeAppend(line, "\r\n");
  }

  lemma HeadBytes(lines: seq<string>)
    ensures lines == [] ==> Utf8.Encode(Head(lines)) == CRLF
    ensures lines != [] ==> Utf8.Encode(Head(lines)) == Utf8.Encode(lines[0]) + CRLF + Utf8.Encode(Head(lines[1..]))
  {
    if lines == [] {
      CrlfBytes();
    } else {
      EncodeLine(lines[0], Head(lines[1..]));
    }
  }

  /** The bytes of a plain line begin with something other than CR. */
  lemma PlainBytes(line: string)
    requires PlainLine(line)
    ensures 13 !in Utf8.Encode(line) && Utf8.Encode(line) != []
  {
    Utf8.EncodeKeepsAscii(line, '\r');
    Utf8.EncodeInjective(line, "");
  }

  lemma HeadStartsPlain(lines: seq<string>)
    requires PlainLines(lines)
    ensures Utf8.Encode(Head(lines)) != [] && Utf8.Encode(Head(lines))[0] != 13
  {
    assert lines[0] in lines;
    PlainBytes(lines[0]);
    EncodeLine(lines[0], Head(lines[1..]));
    var b := Utf8.Encode(lines[0]);
    assert b[0] in b;
  }

  lemma LastLineOf(l: seq<byte>, body: seq<byte>)
    requires 13 !in l
    ensures HeaderEnd(l + CRLF + CRLF + body) == Some(|l|)
  {
    Assoc(l + CRLF, CRLF, body);
    LastLine(l, CRLF + body);
  }

  lemma OneMoreLine(l: seq<byte>, x: seq<byte>, body: seq<byte>)
    requires 13 !in l && |x| >= 4 && x[0] != 13 && HeaderEnd(x + body) == Some(|x| - 4)
    ensures HeaderEnd(l + CRLF + x + body) == Some(|l + CRLF + x| - 4)
  {
    Assoc(l + CRLF, x, body);
    SkipLine(l, x + body);
  }

  /** The first CR LF CR LF of a response is the end of its head, whatever the body holds. */
  lemma {:induction false} HeadEnds(lines: seq<string>, body: seq<byte>)
    requires PlainLines(lines)
    ensures var h := Utf8.Encode(Head(lines));
            |h| >= 4 && HeaderEnd(h + body) == Some(|h| - 4)
  {
    hide Utf8.Encode, HeaderEnd, PlainLine, Head, CRLF;
    var line, more := lines[0], lines[1..];
    assert line in lines && forall l :: l in more ==> l in lines;
    PlainBytes(line);
    HeadBytes(lines);
    HeadBytes(more);
    CrlfLength();
    if more == [] {
      LastLineOf(Utf8.Encode(line), body);
    } else {
      HeadEnds(more, body);
      HeadStartsPlain(more);
      OneMoreLine(Utf8.Encode(line), Utf8.Encode(Head(more)), body);
    }
  }

  lemma {:induction false} HeadIsJoined(lines: seq<string>)
    requires lines != []
    ensures Head(lines) == Joined(lines) + "\r\n\r\n"
  {
    if |lines| == 1 {
      assert lines[1..] == [];
      assert "\r\n" + "\r\n" == "\r\n\r\n";
      Assoc(lines[0], "\r\n", "\r\n");
    } else {
      HeadIsJoined(lines[1..]);
      Assoc(lines[0] + "\r\n", Joined(lines[1..]), "\r\n\r\n");
    }
  }

  /** Cut at its end, a head is its lines joined, and the rest is the body. */
  lemma HeadSplits(lines: seq<string>, body: seq<byte>)
    requires PlainLines(lines)
    ensures var raw := Utf8.Encode(Head(lines)) + body;
            var e := HeaderEnd(raw);
            e.Some? && Utf8.Lossy(raw[..e.value]) == Joined(lines) && raw[e.value + 4..] == body
  {
    var h, j := Utf8.Encode(Head(lines)), Utf8.Encode(Joined(lines));
    HeadEnds(lines, body);
    HeadIsJoined(lines);
    Utf8.EncodeAppend(Joined(lines), "\r\n\r\n");
    assert |Utf8.Encode("\r\n\r\n")| == 4 by {
      CrlfBytes();
      Utf8.EncodeAppend("\r\n", "\r\n");
      assert "\r\n" + "\r\n" == "\r\n\r\n";
    }
    Cut(h, body);
    var raw, n := h + body, |h| - 4;
    assert |j| == n;
    assert raw[..n] == j;
    assert raw[n + 4..] == body;
    Utf8.LossyPrefix(Joined(lines), []);
    assert j + [] == j;
    assert Joined(lines) + Utf8.Lossy([]) == Joined(lines);
  }

  // ---- reading a line ----

  /** The first of Rust's `lines()`: up to the first LF, less one CR before it. */
  function FirstLine(s: string): string {
    var n := Find(s, '\n');
    if n == |s| then s
    else if n > 0 && s[n - 1] == '\r' then s[..n - 1]
    else s[..n]
  }

  lemma FirstLineIs(line: string, rest: string)
    requires '\n' !in line && '\r' !in line
    ensures FirstLine(line + "\r\n" + rest) == line
  {
    var s, n := line + "\r\n" + rest, |line|;
    assert s[n] == '\r' && s[n + 1] == '\n';
    assert forall i :: 0 <= i < n ==> s[i] == line[i];
    FindAt(s, '\n', n + 1);
    assert s[..n] == line;
  }

  lemma FirstLineAlone(line: string)
    requires '\n' !in line
    ensures FirstLine(line) == line
  {
  }

  lemma FirstOfJoined(lines: seq<string>)
    requires PlainLines(lines)
    ensures FirstLine(Joined(lines)) == lines[0]
  {
    assert lines[0] in lines;
    if |lines| == 1 {
      FirstLineAlone(lines[0]);
    } else {
      FirstLineIs(lines[0], Joined(lines[1..]));
    }
  }

  /** The first run of characters that are not whitespace. */
  function Word(s: string): (w: string)
    ensures w <= s
  {
    if s == "" || IsUniSpace(s[0]) then "" else [s[0]] + Word(s[1..])
  }

  function SkipSpaces(s: string): string {
    if s != "" && IsUniSpace(s[0]) then SkipSpaces(s[1..]) else s
  }

  /** The first two of Rust's `split_whitespace`, empty where missing. */
  function TwoWords(line: string): (string, string) {
    var s := SkipSpaces(line);
    var first := Word(s);
    (first, Word(SkipSpaces(s[|first|..])))
  }

  predicate Unspaced(s: string) { forall c :: c in s ==> !IsUniSpace(c) }

  lemma {:induction false} WordIs(w: string, rest: string)
    requires Unspaced(w) && (rest == "" || IsUniSpace(rest[0]))
    ensures Word(w + rest) == w
  {
    if w == "" {
      assert w + rest == rest;
    } else {
      CutTail(w, rest);
      assert w[0] in w && forall c :: c in w[1..] ==> c in w;
      WordIs(w[1..], rest);
      assert w == [w[0]] + w[1..];
    }
  }

  lemma SkipNone(w: string, rest: string)
    requires w != "" && Unspaced(w)
    ensures SkipSpaces(w + rest) == w + rest
  {
  }

  /** A line of words separated by single spaces. */
  lemma TwoWordsOf(a: string, b: string, rest: string)
    requires a != "" && b != "" && Unspaced(a) && Unspaced(b)
    ensures TwoWords(a + " " + b + " " + rest) == (a, b)
  {
    var tail := b + " " + rest;
    var s := a + (" " + tail);
    assert a + " " + b + " " + rest == s;
    SkipNone(a, " " + tail);
    WordIs(a, " " + tail);
    assert s[|a|..] == " " + tail;
    assert (" " + tail)[1..] == tail && IsUniSpace(' ');
    assert tail == b + (" " + rest);
    SkipNone(b, " " + rest);
    WordIs(b, " " + rest);
  }

  predicate Contains(s: string, sub: string) { sub <= s || (s != "" && Contains(s[1..], sub)) }

  lemma {:induction false} ContainsAt(s: string, sub: string, i: nat)
    requires i + |sub| <= |s| && s[i..i + |sub|] == sub
    ensures Contains(s, sub)
  {
    if i == 0 {
      assert sub == s[..|sub|];
    } else {
      assert s[1..][i - 1..i - 1 + |sub|] == s[i..i + |sub|];
      ContainsAt(s[1..], sub, i - 1);
    }
  }

  lemma PrefixLetter(s: string, sub: string, c: char)
    requires sub <= s && c in sub
    ensures c in s
  {
  }

  lemma {:induction false} LacksLetter(s: string, sub: string, c: char)
    requires c in sub && c !in s
    ensures !Contains(s, sub)
  {
    if sub <= s {
      PrefixLetter(s, sub, c);
    }
    if s != "" {
      LacksLetter(s[1..], sub, c);
    }
  }
}
