/**
 * The XML layer: tokens as the event reader reports them, how a token is written, and a tokenizer
 * for the grammar the writer emits. Attribute values and text are kept as written (escaped); the
 * parsers unescape them. `trim` is the reader's `trim_text(true)`.
 */
module Xml {
  import opened Wrappers
  import opened Text

  datatype Attr = Attr(name: string, value: string)

  datatype Tok =
    | Decl
    | Start(name: string, attrs: seq<Attr>)
    | Empty(name: string, attrs: seq<Attr>)
    | End(name: string)
    | Chars(raw: string)

  // ---- writing ----

  const XML_DECL := "<?xml version=\"1.0\" encoding=\"UTF-8\"?>"

  function RenderAttrs(attrs: seq<Attr>): string {
    if attrs == [] then ""
    else " " + attrs[0].name + "=\"" + attrs[0].value + "\"" + RenderAttrs(attrs[1..])
  }

  function RenderTok(t: Tok): string {
    match t
    case Decl => XML_DECL
    case Start(n, a) => "<" + n + RenderAttrs(a) + ">"
    case Empty(n, a) => "<" + n + RenderAttrs(a) + "/>"
    case End(n) => "</" + n + ">"
    case Chars(raw) => raw
  }

  function RenderToks(toks: seq<Tok>): string {
    if toks == [] then "" else RenderTok(toks[0]) + RenderToks(toks[1..])
  }

  /** One line of a document: its nesting depth and what stands on it. */
  datatype Line = Line(depth: nat, toks: seq<Tok>)

  function Indent(n: nat, pretty: bool): string {
    if !pretty || n == 0 then "" else "  " + Indent(n - 1, pretty)
  }

  function NewLine(pretty: bool): string { if pretty then "\n" else "" }

  function RenderLine(l: Line, pretty: bool): string {
    Indent(l.depth, pretty) + RenderToks(l.toks) + NewLine(pretty)
  }

  function RenderLines(lines: seq<Line>, pretty: bool): string {
    if lines == [] then "" else RenderLine(lines[0], pretty) + RenderLines(lines[1..], pretty)
  }

  function Flat(lines: seq<Line>): seq<Tok> {
    if lines == [] then [] else lines[0].toks + Flat(lines[1..])
  }

  lemma {:induction false} RenderLinesAppend(a: seq<Line>, b: seq<Line>, pretty: bool)
    ensures RenderLines(a + b, pretty) == RenderLines(a, pretty) + RenderLines(b, pretty)
  {
    if a == [] {
      assert a + b == b;
    } else {
      CutTail(a, b);
      RenderLinesAppend(a[1..], b, pretty);
      Assoc(RenderLine(a[0], pretty), RenderLines(a[1..], pretty), RenderLines(b, pretty));
    }
  }

  lemma {:induction false} FlatAppend(a: seq<Line>, b: seq<Line>)
    ensures Flat(a + b) == Flat(a) + Flat(b)
  {
    if a == [] {
      assert a + b == b;
    } else {
      CutTail(a, b);
      FlatAppend(a[1..], b);
      Assoc(a[0].toks, Flat(a[1..]), Flat(b));
    }
  }

  // ---- tokenizing ----

  predicate NameChar(c: char) {
    'a' <= c <= 'z' || 'A' <= c <= 'Z' || '0' <= c <= '9' || c == '-' || c == ':' || c == '_' || c == '.'
  }

  predicate IsName(s: string) { s != "" && forall c :: c in s ==> NameChar(c) }

  function SpanName(s: string): (n: nat)
    ensures n <= |s|
  {
    if s != "" && NameChar(s[0]) then 1 + SpanName(s[1..]) else 0
  }

  /** One attribute `name="value"` after the separating space. */
  function LexAttr(t: string): (r: Option<(Attr, string)>)
    ensures r.Some? ==> |r.value.1| < |t|
  {
    var n := SpanName(t);
    if n > 0 && "=\"" <= t[n..] then
      var v := t[n + 2..];
      var q := Find(v, '"');
      if q == |v| then None else Some((Attr(t[..n], v[..q]), v[q + 1..]))
    else None
  }

  /** The attributes of a tag and its close: `>` or, for an empty element, `/>`. */
  function LexAttrs(t: string): (r: Option<(seq<Attr>, bool, string)>)
    ensures r.Some? ==> |r.value.2| < |t|
    decreases |t|
  {
    if ">" <= t then Some(([], false, t[1..]))
    else if "/>" <= t then Some(([], true, t[2..]))
    else if " " <= t then
      var a :- LexAttr(t[1..]);
      var tail :- LexAttrs(a.1);
      Some(([a.0] + tail.0, tail.1, tail.2))
    else None
  }

  /** One tag at the front of `t`, which starts with `<`. */
  function LexTag(t: string): (r: Option<(Tok, string)>)
    requires "<" <= t
    ensures r.Some? ==> |r.value.1| < |t|
  {
    if "</" <= t then
      var n := Find(t, '>');
      if n == |t| then None else Some((End(TrimEnd(t[2..n])), t[n + 1..]))
    else if "<?" <= t then
      var n := Find(t, '>');
      if n == |t| || t[n - 1] != '?' then None else Some((Decl, t[n + 1..]))
    else
      var n := SpanName(t[1..]);
      if n == 0 then None
      else
        var tail :- LexAttrs(t[1 + n..]);
        Some((if tail.1 then Empty(t[1..1 + n], tail.0) else Start(t[1..1 + n], tail.0), tail.2))
  }

  /** The events of a document. With `trim`, text loses its edge whitespace and blank text vanishes. */
  function Lex(s: string, trim: bool): Option<seq<Tok>>
    decreases |s|
  {
    var t := if trim then TrimStart(s) else s;
    if t == "" then Some([])
    else if t[0] != '<' then
      var n := Find(t, '<');
      var rest :- Lex(t[n..], trim);
      Some([Chars(if trim then TrimEnd(t[..n]) else t[..n])] + rest)
    else
      var tag :- LexTag(t);
      var rest :- Lex(tag.1, trim);
      Some([tag.0] + rest)
  }

  /** The names of the open elements after these tokens, innermost first; an end tag must match. */
  function Nest(toks: seq<Tok>, open: seq<string>): Option<seq<string>> {
    if toks == [] then Some(open)
    else
      match toks[0]
      case Start(n, _) => Nest(toks[1..], [n] + open)
      case End(n) => if open != [] && open[0] == n then Nest(toks[1..], open[1..]) else None
      case _ => Nest(toks[1..], open)
  }

  /** The events of a trimming reader that matches end tags. Elements may be open at the end. */
  function Events(s: string): Option<seq<Tok>> {
    var toks :- Lex(s, true);
    if Nest(toks, []).Some? then Some(toks) else None
  }

  // ---- the tokenizer inverts the writer ----

  predicate OkAttrs(attrs: seq<Attr>) {
    forall a :: a in attrs ==> IsName(a.name) && '"' !in a.value
  }

  predicate OkTok(t: Tok) {
    match t
    case Decl => true
    case Start(n, a) => IsName(n) && OkAttrs(a)
    case Empty(n, a) => IsName(n) && OkAttrs(a)
    case End(n) => IsName(n)
    case Chars(raw) => '<' !in raw
  }

  /** Every token is well formed, every text is followed by a tag. */
  predicate OkToks(toks: seq<Tok>) {
    && (forall t :: t in toks ==> OkTok(t))
    && forall i :: 0 <= i < |toks| && toks[i].Chars? ==> i + 1 < |toks| && !toks[i + 1].Chars?
  }

  /** What the reader reports for written tokens: trimmed text, and no empty text. */
  function Reported(toks: seq<Tok>, trim: bool): seq<Tok> {
    if toks == [] then []
    else
      var t := toks[0];
      var rest := Reported(toks[1..], trim);
      if !t.Chars? then [t] + rest
      else
        var txt := if trim then Trim(t.raw) else t.raw;
        if txt == "" then rest else [Chars(txt)] + rest
  }

  function Prepend(toks: seq<Tok>, o: Option<seq<Tok>>): Option<seq<Tok>> {
    if o.Some? then Some(toks + o.value) else None
  }

  lemma {:induction false} SpanNameAt(n: string, rest: string)
    requires forall c :: c in n ==> NameChar(c)
    requires rest == "" || !NameChar(rest[0])
    ensures SpanName(n + rest) == |n|
  {
    if n == "" {
      assert n + rest == rest;
    } else {
      assert n[0] in n;
      assert (n + rest)[1..] == n[1..] + rest;
      SpanNameAt(n[1..], rest);
    }
  }

  function Close(empty: bool): string { if empty then "/>" else ">" }

  lemma LexAttrRender(a: Attr, tail: string)
    requires IsName(a.name) && '"' !in a.value
    ensures LexAttr(a.name + ("=\"" + (a.value + ("\"" + tail)))) == Some((a, tail))
  {
    var v := a.value + ("\"" + tail);
    SpanNameAt(a.name, "=\"" + v);
    Cut(a.name, "=\"" + v);
    Cut("=\"", v);
    ValueFound(a.value, tail);
    hide SpanName, Find, IsName;
    assert (a.name + ("=\"" + v))[|a.name| + 2..] == v;
  }

  lemma ValueFound(value: string, tail: string)
    requires '"' !in value
    ensures var v := value + ("\"" + tail);
            Find(v, '"') == |value| && v[..|value|] == value && v[|value| + 1..] == tail
  {
    FindAt(value + ("\"" + tail), '"', |value|);
  }

  lemma LexAttrsCons(x: string, a: Attr, tail: string)
    requires LexAttr(x) == Some((a, tail)) && LexAttrs(tail).Some?
    ensures var r := LexAttrs(tail).value; LexAttrs(" " + x) == Some(([a] + r.0, r.1, r.2))
  {
    hide LexAttr;
    var t := " " + x;
    assert t[0] == ' ' && t[1..] == x && " " <= t;
  }

  lemma LexAttrsStep(a: Attr, tail: string)
    requires IsName(a.name) && '"' !in a.value && LexAttrs(tail).Some?
    ensures var r := LexAttrs(tail).value;
            LexAttrs(" " + (a.name + ("=\"" + (a.value + ("\"" + tail))))) == Some(([a] + r.0, r.1, r.2))
  {
    LexAttrRender(a, tail);
    hide LexAttr, LexAttrs, IsName;
    LexAttrsCons(a.name + ("=\"" + (a.value + ("\"" + tail))), a, tail);
  }

  lemma RenderAttrsStep(attrs: seq<Attr>, rest: string)
    requires attrs != []
    ensures RenderAttrs(attrs) + rest
         == " " + (attrs[0].name + ("=\"" + (attrs[0].value + ("\"" + (RenderAttrs(attrs[1..]) + rest)))))
  {
  }

  lemma AttrsSplit(attrs: seq<Attr>)
    requires OkAttrs(attrs) && attrs != []
    ensures IsName(attrs[0].name) && '"' !in attrs[0].value && OkAttrs(attrs[1..])
    ensures attrs == [attrs[0]] + attrs[1..]
  {
    assert attrs[0] in attrs;
  }

  lemma {:induction false} LexAttrsRender(attrs: seq<Attr>, empty: bool, rest: string)
    requires OkAttrs(attrs)
    ensures LexAttrs(RenderAttrs(attrs) + (Close(empty) + rest)) == Some((attrs, empty, rest))
  {
    if attrs == [] {
      assert RenderAttrs(attrs) + (Close(empty) + rest) == Close(empty) + rest;
      Cut(Close(empty), rest);
    } else {
      AttrsSplit(attrs);
      hide *;
      LexAttrsRender(attrs[1..], empty, rest);
      RenderAttrsStep(attrs, Close(empty) + rest);
      LexAttrsStep(attrs[0], RenderAttrs(attrs[1..]) + (Close(empty) + rest));
    }
  }

  lemma LexOpenTag(n: string, a: seq<Attr>, empty: bool, rest: string)
    requires IsName(n) && OkAttrs(a)
    ensures var s := "<" + (n + (RenderAttrs(a) + (Close(empty) + rest)));
            "<" <= s && LexTag(s) == Some((if empty then Empty(n, a) else Start(n, a), rest))
  {
    var tail := RenderAttrs(a) + (Close(empty) + rest);
    var s := "<" + (n + tail);
    Cut("<", n + tail);
    assert n[0] in n && s[1] == n[0];
    assert tail[0] == ' ' || tail[0] == '/' || tail[0] == '>';
    SpanNameAt(n, tail);
    LexAttrsRender(a, empty, rest);
    Assoc("<", n, tail);
    Cut("<" + n, tail);
    assert s[1..1 + |n|] == n;
    assert s[1 + |n|..] == tail;
  }

  lemma NameTrimmed(n: string)
    requires IsName(n)
    ensures TrimEnd(n) == n
  {
    assert n[|n| - 1] in n;
  }

  lemma LexEndTag(n: string, rest: string)
    requires IsName(n)
    ensures var s := "</" + (n + (">" + rest)); "<" <= s && LexTag(s) == Some((End(n), rest))
  {
    var s := "</" + (n + (">" + rest));
    assert forall i :: 2 <= i < |n| + 2 ==> s[i] == n[i - 2] && n[i - 2] in n;
    FindAt(s, '>', |n| + 2);
    assert s[2..|n| + 2] == n;
    assert s[|n| + 3..] == rest;
    NameTrimmed(n);
    hide TrimEnd, IsName;
  }

  lemma LexDecl(rest: string)
    ensures "<" <= XML_DECL + rest && LexTag(XML_DECL + rest) == Some((Decl, rest))
  {
    var s := XML_DECL + rest;
    var n := |XML_DECL| - 1;
    assert XML_DECL[0] == '<' && XML_DECL[1] == '?' && XML_DECL[n - 1] == '?' && XML_DECL[n] == '>';
    assert forall i :: 0 <= i < n ==> XML_DECL[i] != '>';
    FindAt(s, '>', n);
    Cut(XML_DECL, rest);
  }

  lemma TagText(a: string, b: string, c: string, d: string)
    ensures a + b + c + d == a + (b + (c + d))
  {
  }

  lemma LexTagRender(t: Tok, rest: string)
    requires OkTok(t) && !t.Chars?
    ensures "<" <= RenderTok(t) + rest
    ensures LexTag(RenderTok(t) + rest) == Some((t, rest))
  {
    match t
    case Decl =>
      LexDecl(rest);
    case End(n) =>
      LexEndTag(n, rest);
      Assoc("</" + n, ">", rest);
      Assoc("</", n, ">" + rest);
    case Start(n, a) =>
      LexOpenTag(n, a, false, rest);
      TagText("<" + n, RenderAttrs(a), ">", rest);
      Assoc("<", n, RenderAttrs(a) + (">" + rest));
    case Empty(n, a) =>
      LexOpenTag(n, a, true, rest);
      TagText("<" + n, RenderAttrs(a), "/>", rest);
      Assoc("<", n, RenderAttrs(a) + ("/>" + rest));
  }

  lemma {:induction false} TrimStartTag(s: string)
    requires "<" <= s
    ensures TrimStart(s) == s
  {
  }

  lemma {:induction false} RenderToksCons(toks: seq<Tok>, rest: string)
    requires toks != []
    ensures RenderToks(toks) + rest == RenderTok(toks[0]) + (RenderToks(toks[1..]) + rest)
  {
    hide RenderTok;
    Assoc(RenderTok(toks[0]), RenderToks(toks[1..]), rest);
  }

  lemma {:induction false} LexToks(toks: seq<Tok>, rest: string, trim: bool)
    requires OkToks(toks)
    ensures Lex(RenderToks(toks) + rest, trim) == Prepend(Reported(toks, trim), Lex(rest, trim))
  {
    if toks == [] {
      assert RenderToks(toks) + rest == rest;
      assert forall o: seq<Tok> :: [] + o == o;
    } else {
      var t, more := toks[0], toks[1..];
      assert t in toks;
      assert OkToks(more) by {
        assert forall i :: 0 <= i < |more| ==> more[i] == toks[i + 1];
      }
      LexToks(more, rest, trim);
      RenderToksCons(toks, rest);
      var tail := RenderToks(more) + rest;
      if t.Chars? {
        RenderToksCons(more, rest);
        assert more[0] in more;
        LexTagRender(more[0], RenderToks(more[1..]) + rest);
        LexText(t.raw, tail, trim);
        assert [t] + more == toks;
        ReportedAppend([t], more, trim);
        PrependCons(Reported([t], trim), Reported(more, trim), Lex(rest, trim));
      } else {
        LexTagRender(t, tail);
        TrimStartTag(RenderTok(t) + tail);
        PrependCons([t], Reported(more, trim), Lex(rest, trim));
      }
    }
  }

  lemma PrependCons(a: seq<Tok>, b: seq<Tok>, o: Option<seq<Tok>>)
    ensures Prepend(a, Prepend(b, o)) == Prepend(a + b, o)
  {
    if o.Some? {
      assert a + (b + o.value) == a + b + o.value;
    }
  }

  lemma {:induction false} TrimStartText(raw: string, tail: string)
    requires "<" <= tail
    ensures TrimStart(raw + tail) == TrimStart(raw) + tail
    ensures TrimStart(raw) == "" || !IsXmlSpace(TrimStart(raw)[0])
    ensures forall c :: c in TrimStart(raw) ==> c in raw
  {
    if raw == "" {
      assert raw + tail == tail;
    } else if IsXmlSpace(raw[0]) {
      assert (raw + tail)[1..] == raw[1..] + tail;
      TrimStartText(raw[1..], tail);
    }
  }

  /** The text up to the next tag. */
  lemma {:induction false} LexUpToTag(s: string, body: string, tail: string, trim: bool)
    requires body != "" && '<' !in body && "<" <= tail
    requires (if trim then TrimStart(s) else s) == body + tail
    ensures Lex(s, trim) == Prepend([Chars(if trim then TrimEnd(body) else body)], Lex(tail, trim))
  {
    assert body[0] in body;
    FindAt(body + tail, '<', |body|);
    Cut(body, tail);
  }

  lemma {:induction false} LexText(raw: string, tail: string, trim: bool)
    requires '<' !in raw && "<" <= tail
    ensures Lex(raw + tail, trim) == Prepend(Reported([Chars(raw)], trim), Lex(tail, trim))
  {
    var body := if trim then TrimStart(raw) else raw;
    var o := Lex(tail, trim);
    assert [Chars(raw)][1..] == [];
    assert trim ==> TrimStart(raw + tail) == TrimStart(raw) + tail by {
      TrimStartText(raw, tail);
    }
    if body == "" {
      assert body + tail == tail;
      assert Reported([Chars(raw)], trim) == [];
      if trim {
        TrimStartTag(tail);
        assert Lex(raw + tail, true) == o;
      }
      assert o.Some? ==> [] + o.value == o.value;
    } else {
      assert '<' !in body by {
        TrimStartText(raw, tail);
      }
      LexUpToTag(raw + tail, body, tail, trim);
      var txt := if trim then TrimEnd(body) else body;
      assert txt != "" by {
        if trim {
          TrimEndNonBlank(body);
        }
      }
      assert Reported([Chars(raw)], trim) == [Chars(txt)];
    }
  }

  lemma {:induction false} TrimEndNonBlank(s: string)
    requires s != "" && !IsXmlSpace(s[0])
    ensures TrimEnd(s) != ""
  {
    if IsXmlSpace(s[|s| - 1]) {
      TrimEndNonBlank(s[..|s| - 1]);
    }
  }

  predicate OkLines(lines: seq<Line>) { forall l :: l in lines ==> OkToks(l.toks) }

  lemma {:induction false} IndentIsSpace(n: nat, pretty: bool)
    ensures forall c :: c in Indent(n, pretty) ==> IsXmlSpace(c)
    ensures !pretty ==> Indent(n, pretty) == ""
  {
    if pretty && n > 0 {
      IndentIsSpace(n - 1, pretty);
    }
  }

  lemma {:induction false} LexSkipsSpace(w: string, rest: string, trim: bool)
    requires trim || w == ""
    requires forall c :: c in w ==> IsXmlSpace(c)
    ensures Lex(w + rest, trim) == Lex(rest, trim)
  {
    if w == "" {
      assert w + rest == rest;
    } else {
      TrimStartSpaces(w, rest);
    }
  }

  lemma {:induction false} ReportedAppend(a: seq<Tok>, b: seq<Tok>, trim: bool)
    ensures Reported(a + b, trim) == Reported(a, trim) + Reported(b, trim)
  {
    if a == [] {
      assert a + b == b;
    } else {
      CutTail(a, b);
      ReportedCons(a[0], a[1..], trim);
      ReportedCons(a[0], a[1..] + b, trim);
      assert a == [a[0]] + a[1..] && a + b == [a[0]] + (a[1..] + b);
      hide Reported;
      ReportedAppend(a[1..], b, trim);
      Assoc(Reported([a[0]], trim), Reported(a[1..], trim), Reported(b, trim));
    }
  }

  lemma ReportedCons(t: Tok, more: seq<Tok>, trim: bool)
    ensures Reported([t] + more, trim) == Reported([t], trim) + Reported(more, trim)
  {
    hide Trim;
    var txt, rest := Reported([t], trim), Reported(more, trim);
    assert ([t] + more)[1..] == more && [t][1..] == [];
    assert [] + rest == rest && (forall x: Tok :: [x] + [] == [x]);
  }

  lemma LexLine(l: Line, tail: string, pretty: bool, trim: bool)
    requires OkToks(l.toks) && (pretty ==> trim)
    ensures Lex(RenderLine(l, pretty) + tail, trim) == Prepend(Reported(l.toks, trim), Lex(tail, trim))
  {
    IndentIsSpace(l.depth, pretty);
    LexSkipsSpace(NewLine(pretty), tail, trim);
    LexToks(l.toks, NewLine(pretty) + tail, trim);
    LexSkipsSpace(Indent(l.depth, pretty), RenderToks(l.toks) + (NewLine(pretty) + tail), trim);
    var i, t, n := Indent(l.depth, pretty), RenderToks(l.toks), NewLine(pretty);
    Assoc(i + t, n, tail);
    Assoc(i, t, n + tail);
  }

  /**
   * The reader's events for a written document are its tokens. Indentation and line breaks are
   * invisible to a trimming reader; an untrimmed reader sees everything a compact document holds.
   */
  lemma {:induction false} LexLines(lines: seq<Line>, rest: string, pretty: bool, trim: bool)
    requires OkLines(lines)
    requires pretty ==> trim
    ensures Lex(RenderLines(lines, pretty) + rest, trim) == Prepend(Reported(Flat(lines), trim), Lex(rest, trim))
  {
    if lines == [] {
      assert RenderLines(lines, pretty) + rest == rest;
      assert forall o: seq<Tok> :: [] + o == o;
    } else {
      var l, more := lines[0], lines[1..];
      assert l in lines;
      var tail := RenderLines(more, pretty) + rest;
      LexLines(more, rest, pretty, trim);
      IndentIsSpace(l.depth, pretty);
      LexLine(l, tail, pretty, trim);
      Assoc(RenderLine(l, pretty), RenderLines(more, pretty), rest);
      ReportedAppend(l.toks, Flat(more), trim);
      PrependCons(Reported(l.toks, trim), Reported(Flat(more), trim), Lex(rest, trim));
    }
  }
}
