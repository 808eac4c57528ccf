/** The writers: a string grown piece by piece, proved to be the document of module Session. */
module SessionWriter {
  import opened Wrappers
  import opened Text
  import opened Xml
  import opened Session
  import Utf8

  lemma OneTok(t: Tok)
    ensures RenderToks([t]) == RenderTok(t)
  {
  }

  function Piece(head: string, name: string): string { head + (" " + name + "=\"") }

  /** The first attribute of a tag, behind what the writer's format string puts in front of its value. */
  lemma AttrText(head: string, a: seq<Attr>, close: string, lit: string)
    requires a != [] && lit == Piece(head, a[0].name)
    ensures head + (RenderAttrs(a) + close) == lit + (a[0].value + ("\"" + (RenderAttrs(a[1..]) + close)))
  {
    RenderAttrsStep(a, close);
    hide RenderAttrs;
    PieceBefore(head, a[0].name, a[0].value + ("\"" + (RenderAttrs(a[1..]) + close)));
  }

  lemma PieceBefore(head: string, name: string, x: string)
    ensures head + (" " + (name + ("=\"" + x))) == Piece(head, name) + x
  {
  }

  lemma LastQuote(a: seq<Attr>, close: string, end: string)
    requires a == [] && end == "\"" + close
    ensures "\"" + (RenderAttrs(a) + close) == end
  {
  }

  lemma StartText(name: string, a: seq<Attr>)
    ensures RenderToks([Start(name, a)]) == ("<" + name) + (RenderAttrs(a) + ">")
  {
    hide RenderAttrs;
    OneTok(Start(name, a));
    Assoc("<" + name, RenderAttrs(a), ">");
  }

  lemma EmptyText(name: string, a: seq<Attr>)
    ensures RenderToks([Empty(name, a)]) == ("<" + name) + (RenderAttrs(a) + "/>")
  {
    hide RenderAttrs;
    OneTok(Empty(name, a));
    Assoc("<" + name, RenderAttrs(a), "/>");
  }

  lemma ThreeToks(a: Tok, b: Tok, c: Tok)
    ensures RenderToks([a, b, c]) == RenderTok(a) + (RenderTok(b) + RenderTok(c))
  {
    hide RenderTok;
    assert [a, b, c][1..] == [b, c] && [b, c][1..] == [c];
    OneTok(c);
    assert RenderToks([b, c]) == RenderTok(b) + RenderTok(c);
  }

  lemma TextElText(tag: string, text: string)
    ensures RenderToks([Start(tag, []), Chars(EscapeText(text)), End(tag)])
         == "<" + tag + ">" + EscapeText(text) + "</" + tag + ">"
  {
    hide EscapeText, RenderToks;
    var a, b, c := "<" + tag + ">", EscapeText(text), "</" + tag + ">";
    ThreeToks(Start(tag, []), Chars(EscapeText(text)), End(tag));
    assert "<" + tag + "" == "<" + tag;
    Assoc(a, b, c);
    Assoc(a + b, "</", tag);
    Assoc(a + b, "</" + tag, ">");
  }

  const SURFACE_ID := "<surface id=\""
  const NAME_IS := "\" name=\""
  const ORDER_IS := "\" order=\""

  function SurfaceTag(id: string, name: string, order: string): string {
    SURFACE_ID + (id + (NAME_IS + (name + (ORDER_IS + (order + "\">")))))
  }

  lemma SurfacePieces()
    ensures SURFACE_ID == Piece("<" + "surface", "id")
    ensures NAME_IS == Piece("\"", "name") && ORDER_IS == Piece("\"", "order")
  {
  }

  lemma SurfaceTagText(e: SurfaceEntry)
    ensures RenderToks([Start("surface", SurfaceAttrs(e))])
         == SurfaceTag(EscapeAttr(SurfaceIdToStr(e.id)), EscapeAttr(e.name), Dec(e.order))
  {
    var a := [Attr("id", EscapeAttr(SurfaceIdToStr(e.id))), Attr("name", EscapeAttr(e.name)),
              Attr("order", Dec(e.order))];
    assert a == SurfaceAttrs(e) && a[1..][0] == a[1] && a[1..][1..][0] == a[2];
    StartText("surface", a);
    SurfacePieces();
    hide *;
    AttrText("<" + "surface", a, ">", SURFACE_ID);
    AttrText("\"", a[1..], ">", NAME_IS);
    AttrText("\"", a[1..][1..], ">", ORDER_IS);
    LastQuote(a[1..][1..][1..], ">", "\">");
  }

  /** One text element on its own line. */
  method WriteTextEl(s0: string, depth: nat, tag: string, text: string, pretty: bool) returns (s: string)
    ensures s == s0 + RenderLine(TextLine(depth, tag, text), pretty)
  {
    s := s0 + Indent(depth, pretty);
    s := s + ("<" + tag + ">" + EscapeText(text) + "</" + tag + ">");
    s := s + NewLine(pretty);
    TextElText(tag, text);
  }

  /** Indentation, one tag, line break. */
  /** Pushing a line's indentation, text and line break extends the document by that line. */
  method WriteTag(s0: string, l: Line, text: string, pretty: bool) returns (s: string)
    requires text == RenderToks(l.toks)
    ensures s == s0 + RenderLine(l, pretty)
  {
    s := s0 + Indent(l.depth, pretty);
    s := s + text;
    s := s + NewLine(pretty);
    Assoc(s0, Indent(l.depth, pretty), text);
    Assoc(s0, Indent(l.depth, pretty) + text, NewLine(pretty));
  }

  /** `<name>` on its own line. */
  method WriteOpen(s0: string, depth: nat, name: string, pretty: bool) returns (s: string)
    ensures s == s0 + RenderLine(Line(depth, [Start(name, [])]), pretty)
  {
    OneTok(Start(name, []));
    assert "<" + name + "" == "<" + name;
    s := WriteTag(s0, Line(depth, [Start(name, [])]), "<" + name + ">", pretty);
  }

  /** `</name>` on its own line. */
  method WriteClose(s0: string, depth: nat, name: string, pretty: bool) returns (s: string)
    ensures s == s0 + RenderLine(Line(depth, [End(name)]), pretty)
  {
    OneTok(End(name));
    s := WriteTag(s0, Line(depth, [End(name)]), "</" + name + ">", pretty);
  }

  /** The `<host>` block of a surface. */
  method WriteHost(s0: string, h: HostEntry, pretty: bool) returns (s: string)
    ensures s == s0 + RenderLines(HostLines(h), pretty)
  {
    s := WriteOpen(s0, 3, "host", pretty);
    s := WriteTextEl(s, 4, "address", h.address, pretty);
    s := WriteTextEl(s, 4, "os", OsToStr(h.os), pretty);
    s := WriteTextEl(s, 4, "machine", h.machine, pretty);
    s := WriteTextEl(s, 4, "capture", h.capture, pretty);
    s := WriteClose(s, 3, "host", pretty);
    PushLines6(s0, HostLines(h), pretty);
  }

  lemma FromLeft(s: string, lines: seq<Line>, pretty: bool)
    requires lines != []
    ensures s + RenderLines(lines, pretty) == s + RenderLine(lines[0], pretty) + RenderLines(lines[1..], pretty)
  {
    hide RenderLine;
    Assoc(s, RenderLine(lines[0], pretty), RenderLines(lines[1..], pretty));
  }

  lemma PushLines3(s: string, l: seq<Line>, pretty: bool)
    requires |l| == 3
    ensures s + RenderLines(l, pretty)
         == s + RenderLine(l[0], pretty) + RenderLine(l[1], pretty) + RenderLine(l[2], pretty)
  {
    FromLeft(s, l, pretty);
    var s1 := s + RenderLine(l[0], pretty);
    FromLeft(s1, l[1..], pretty);
    var s2 := s1 + RenderLine(l[1], pretty);
    FromLeft(s2, l[1..][1..], pretty);
    assert l[1..][1..][1..] == [];
    var s3 := s2 + RenderLine(l[2], pretty);
    assert s3 + "" == s3;
  }

  lemma PushLines6(s: string, l: seq<Line>, pretty: bool)
    requires |l| == 6
    ensures s + RenderLines(l, pretty)
         == s + RenderLine(l[0], pretty) + RenderLine(l[1], pretty) + RenderLine(l[2], pretty)
              + RenderLine(l[3], pretty) + RenderLine(l[4], pretty) + RenderLine(l[5], pretty)
  {
    assert l == l[..3] + l[3..];
    RenderLinesAppend(l[..3], l[3..], pretty);
    Assoc(s, RenderLines(l[..3], pretty), RenderLines(l[3..], pretty));
    PushLines3(s, l[..3], pretty);
    PushLines3(s + RenderLines(l[..3], pretty), l[3..], pretty);
  }

  function OpenLine(e: SurfaceEntry): Line { Line(2, [Start("surface", SurfaceAttrs(e))]) }

  function DimensionsLine(e: SurfaceEntry): Line {
    Line(3, [Empty("dimensions", [Attr("height", Dec(e.height)), Attr("width", Dec(e.width))])])
  }

  function TailLines(e: SurfaceEntry): seq<Line> {
    [TextLine(3, "codec", CodecToStr(e.codec)), DimensionsLine(e), Line(2, [End("surface")])]
  }

  lemma SurfaceSplit(e: SurfaceEntry, pretty: bool)
    ensures RenderLines(SurfaceLines(e), pretty)
         == RenderLine(OpenLine(e), pretty)
         + (RenderLines(HostLines(e.host), pretty) + RenderLines(TailLines(e), pretty))
  {
    hide *;
    SurfaceParts(e);
    JoinThree(OpenLine(e), HostLines(e.host), TailLines(e), pretty);
  }

  lemma SurfaceParts(e: SurfaceEntry)
    ensures SurfaceLines(e) == [OpenLine(e)] + HostLines(e.host) + TailLines(e)
  {
  }

  lemma JoinThree(a: Line, b: seq<Line>, c: seq<Line>, pretty: bool)
    ensures RenderLines([a] + b + c, pretty)
            == RenderLine(a, pretty) + (RenderLines(b, pretty) + RenderLines(c, pretty))
  {
    hide *;
    RenderLinesAppend([a] + b, c, pretty);
    RenderLinesAppend([a], b, pretty);
    RenderOne(a, pretty);
    Assoc(RenderLine(a, pretty), RenderLines(b, pretty), RenderLines(c, pretty));
  }

  lemma RenderThree(l: seq<Line>, pretty: bool)
    requires |l| == 3
    ensures RenderLines(l, pretty) == RenderLine(l[0], pretty) + (RenderLine(l[1], pretty) + RenderLine(l[2], pretty))
  {
    var m := l[1..];
    assert m[1..][1..] == [];
    var z := RenderLine(l[2], pretty);
    assert RenderLines(m[1..], pretty) == z + "" == z;
    assert RenderLines(m, pretty) == RenderLine(l[1], pretty) + z;
  }

  lemma Regroup(s: string, a: string, h: string, b: string, c: string, d: string)
    ensures s + (a + (h + (b + (c + d)))) == s + a + h + b + c + d
  {
  }

  lemma SurfaceJoined(s: string, e: SurfaceEntry, pretty: bool)
    ensures s + RenderLines(SurfaceLines(e), pretty)
         == s + RenderLine(OpenLine(e), pretty) + RenderLines(HostLines(e.host), pretty)
              + RenderLine(TextLine(3, "codec", CodecToStr(e.codec)), pretty)
              + RenderLine(DimensionsLine(e), pretty)
              + RenderLine(Line(2, [End("surface")]), pretty)
  {
    var tail := TailLines(e);
    SurfaceSplit(e, pretty);
    RenderThree(tail, pretty);
    Regroup(s, RenderLine(OpenLine(e), pretty), RenderLines(HostLines(e.host), pretty),
            RenderLine(tail[0], pretty), RenderLine(tail[1], pretty), RenderLine(tail[2], pretty));
  }

  /** One `<surface>` element. */
  method WriteSurface(s0: string, surf: SurfaceEntry, pretty: bool) returns (s: string)
    ensures s == s0 + RenderLines(SurfaceLines(surf), pretty)
  {
    SurfaceTagText(surf);
    DimensionsTagText(Dec(surf.height), Dec(surf.width));
    s := WriteTag(s0, OpenLine(surf),
                  SurfaceTag(EscapeAttr(SurfaceIdToStr(surf.id)), EscapeAttr(surf.name), Dec(surf.order)), pretty);
    s := WriteHost(s, surf.host, pretty);
    s := WriteTextEl(s, 3, "codec", CodecToStr(surf.codec), pretty);
    s := WriteTag(s, DimensionsLine(surf), DimensionsTag(Dec(surf.height), Dec(surf.width)), pretty);
    s := WriteClose(s, 2, "surface", pretty);
    SurfaceJoined(s0, surf, pretty);
  }

  const DIMENSIONS_HEIGHT := "<dimensions height=\""
  const WIDTH_IS := "\" width=\""

  function DimensionsTag(height: string, width: string): string {
    DIMENSIONS_HEIGHT + (height + (WIDTH_IS + (width + "\"/>")))
  }

  lemma DimensionsPieces()
    ensures DIMENSIONS_HEIGHT == Piece("<" + "dimensions", "height") && WIDTH_IS == Piece("\"", "width")
  {
  }

  lemma DimensionsTagText(height: string, width: string)
    ensures RenderToks([Empty("dimensions", [Attr("height", height), Attr("width", width)])])
            == DimensionsTag(height, width)
  {
    var a := [Attr("height", height), Attr("width", width)];
    EmptyText("dimensions", a);
    DimensionsPieces();
    assert a[1..][0] == a[1] && a[1..][1..] == [];
    hide RenderAttrs, RenderToks, RenderTok, Piece, DIMENSIONS_HEIGHT, WIDTH_IS;
    AttrText("<" + "dimensions", a, "/>", DIMENSIONS_HEIGHT);
    AttrText("\"", a[1..], "/>", WIDTH_IS);
    LastQuote(a[1..][1..], "/>", "\"/>");
  }

  lemma Snoc(lines: seq<Line>, l: Line, pretty: bool)
    ensures RenderLines(lines + [l], pretty) == RenderLines(lines, pretty) + RenderLine(l, pretty)
  {
    RenderLinesAppend(lines, [l], pretty);
    assert [l][1..] == [];
    assert RenderLine(l, pretty) + "" == RenderLine(l, pretty);
  }

  lemma {:induction false} AttrsSnoc(a: seq<Attr>, x: Attr)
    ensures RenderAttrs(a + [x]) == RenderAttrs(a) + (" " + x.name + "=\"" + x.value + "\"")
  {
    if a == [] {
      assert a + [x] == [x] && [x][1..] == [];
    } else {
      CutTail(a, [x]);
      AttrsSnoc(a[1..], x);
      Assoc(" " + a[0].name + "=\"" + a[0].value + "\"", RenderAttrs(a[1..]), " " + x.name + "=\"" + x.value + "\"");
    }
  }

  /** One attribute more on an open tag. */
  method WriteAttr(s0: string, ghost n: string, ghost a: seq<Attr>, name: string, value: string) returns (s: string)
    requires s0 == n + RenderAttrs(a)
    ensures s == n + RenderAttrs(a + [Attr(name, value)])
  {
    s := s0 + (" " + name + "=\"" + value + "\"");
    AttrsSnoc(a, Attr(name, value));
    Assoc(n, RenderAttrs(a), " " + name + "=\"" + value + "\"");
  }

  /** The opening tag of the document; the canonical form passes no id. */
  method WriteRoot(created: string, id: Option<string>, schema: u32) returns (s: string)
    ensures s == RenderTok(Start("session", RootAttrs(created, id, schema)))
  {
    ghost var n := "<" + "session";
    s := "<session";
    ghost var a: seq<Attr> := [];
    assert s == n + RenderAttrs(a);
    s := WriteAttr(s, n, a, "xmlns", SESSION_NAMESPACE);
    a := a + [Attr("xmlns", SESSION_NAMESPACE)];
    s := WriteAttr(s, n, a, "created", EscapeAttr(created));
    a := a + [Attr("created", EscapeAttr(created))];
    if id.Some? {
      s := WriteAttr(s, n, a, "id", EscapeAttr(id.value));
      a := a + [Attr("id", EscapeAttr(id.value))];
    }
    s := WriteAttr(s, n, a, "schema-version", Dec(schema));
    a := a + [Attr("schema-version", Dec(schema))];
    assert a == RootAttrs(created, id, schema);
    s := s + ">";
  }

  lemma OneAttr(n: string, a: Attr)
    ensures RenderToks([Empty(n, [a])]) == "<" + n + " " + a.name + "=\"" + a.value + "\"/>"
  {
    OneTok(Empty(n, [a]));
    assert [a][1..] == [];
    assert RenderAttrs([a]) == " " + a.name + "=\"" + a.value + "\"";
    assert "\"" + "/>" == "\"/>";
  }

  /** A self-closing tag with one attribute, on its own line. */
  method WriteEmpty(s0: string, depth: nat, name: string, key: string, value: string, pretty: bool) returns (s: string)
    ensures s == s0 + RenderLine(Line(depth, [Empty(name, [Attr(key, value)])]), pretty)
  {
    OneAttr(name, Attr(key, value));
    s := WriteTag(s0, Line(depth, [Empty(name, [Attr(key, value)])]),
                  "<" + name + " " + key + "=\"" + value + "\"/>", pretty);
  }

  lemma PushText(s: string, lines: seq<Line>, l: Line, pretty: bool)
    ensures s + RenderLines(lines, pretty) + RenderLine(l, pretty) == s + RenderLines(lines + [l], pretty)
  {
    Snoc(lines, l, pretty);
    Assoc(s, RenderLines(lines, pretty), RenderLine(l, pretty));
  }

  /** The `<layout>` block. */
  method WriteLayout(s0: string, l: Layout, show: real -> string, pretty: bool) returns (s: string)
    ensures s == s0 + RenderLines(LayoutLines(l, show), pretty)
  {
    hide RenderLine, FmtFloat, EscapeAttr, SurfaceIdToStr;
    ghost var ls := [Line(1, [Start("layout", [])])];
    s := WriteOpen(s0, 1, "layout", pretty);
    Snoc([], ls[0], pretty);
    assert [] + ls == ls;
    assert s == s0 + RenderLines(ls, pretty);
    s := WriteEmpty(s, 2, "strip", "scroll-pos", FmtFloat(show, l.scrollPos), pretty);
    PushText(s0, ls, Line(2, [Empty("strip", [Attr("scroll-pos", FmtFloat(show, l.scrollPos))])]), pretty);
    ls := ls + [Line(2, [Empty("strip", [Attr("scroll-pos", FmtFloat(show, l.scrollPos))])])];
    if l.focus.Some? {
      s := WriteEmpty(s, 2, "focus", "surface-ref", EscapeAttr(SurfaceIdToStr(l.focus.value)), pretty);
      PushText(s0, ls, FocusLines(l.focus)[0], pretty);
      ls := ls + [FocusLines(l.focus)[0]];
    }
    s := WriteClose(s, 1, "layout", pretty);
    PushText(s0, ls, Line(1, [End("layout")]), pretty);
    ls := ls + [Line(1, [End("layout")])];
    assert ls == LayoutLines(l, show);
  }

  lemma {:induction false} SurfacesSnoc(es: seq<SurfaceEntry>, e: SurfaceEntry)
    ensures SurfacesLines(es + [e]) == SurfacesLines(es) + SurfaceLines(e)
  {
    if es == [] {
      assert es + [e] == [e] && [e][1..] == [];
      assert SurfaceLines(e) + [] == SurfaceLines(e);
    } else {
      CutTail(es, [e]);
      SurfacesSnoc(es[1..], e);
      Assoc(SurfaceLines(es[0]), SurfacesLines(es[1..]), SurfaceLines(e));
    }
  }

  lemma SurfacesStep(s0: string, es: seq<SurfaceEntry>, i: nat, pretty: bool)
    requires i < |es|
    ensures s0 + RenderLines(SurfacesLines(es[..i]), pretty) + RenderLines(SurfaceLines(es[i]), pretty)
         == s0 + RenderLines(SurfacesLines(es[..i + 1]), pretty)
  {
    assert es[..i + 1] == es[..i] + [es[i]];
    SurfacesSnoc(es[..i], es[i]);
    RenderLinesAppend(SurfacesLines(es[..i]), SurfaceLines(es[i]), pretty);
    Assoc(s0, RenderLines(SurfacesLines(es[..i]), pretty), RenderLines(SurfaceLines(es[i]), pretty));
  }

  /** Every surface, in list order. */
  method WriteSurfaces(s0: string, es: seq<SurfaceEntry>, pretty: bool) returns (s: string)
    ensures s == s0 + RenderLines(SurfacesLines(es), pretty)
  {
    s := s0;
    assert s == s0 + RenderLines(SurfacesLines([]), pretty);
    assert es[..0] == [];
    for i := 0 to |es|
      invariant s == s0 + RenderLines(SurfacesLines(es[..i]), pretty)
    {
      s := WriteSurface(s, es[i], pretty);
      SurfacesStep(s0, es, i, pretty);
    }
    assert es[..|es|] == es;
  }

  lemma DocSplit(img: SessionImage, show: real -> string, id: Option<string>, extra: seq<Line>, pretty: bool)
    ensures RenderLines(DocLines(img, show, id, extra), pretty)
         == RenderLine(Line(0, [Start("session", RootAttrs(img.created, id, img.schemaVersion))]), pretty)
            + RenderLine(Line(1, [Start("surfaces", [])]), pretty)
            + RenderLines(SurfacesLines(img.surfaces), pretty)
            + RenderLine(Line(1, [End("surfaces")]), pretty)
            + RenderLines(LayoutLines(img.layout, show), pretty)
            + RenderLines(extra, pretty)
  {
    var root := Line(0, [Start("session", RootAttrs(img.created, id, img.schemaVersion))]);
    var open, close := Line(1, [Start("surfaces", [])]), Line(1, [End("surfaces")]);
    RenderFive([root, open], SurfacesLines(img.surfaces), [close], LayoutLines(img.layout, show), extra, pretty);
    RenderOne(root, pretty);
    RenderOne(close, pretty);
    Snoc([root], open, pretty);
    assert [root] + [open] == [root, open];
  }

  lemma RenderOne(l: Line, pretty: bool)
    ensures RenderLines([l], pretty) == RenderLine(l, pretty)
  {
  }

  lemma RenderFive(a: seq<Line>, b: seq<Line>, c: seq<Line>, d: seq<Line>, e: seq<Line>, pretty: bool)
    ensures RenderLines(a + b + c + d + e, pretty)
         == RenderLines(a, pretty) + RenderLines(b, pretty) + RenderLines(c, pretty)
            + RenderLines(d, pretty) + RenderLines(e, pretty)
  {
    RenderLinesAppend(a, b, pretty);
    RenderLinesAppend(a + b, c, pretty);
    RenderLinesAppend(a + b + c, d, pretty);
    RenderLinesAppend(a + b + c + d, e, pretty);
  }

  lemma RootLine(a: seq<Attr>, pretty: bool)
    ensures RenderLine(Line(0, [Start("session", a)]), pretty) == RenderTok(Start("session", a)) + NewLine(pretty)
  {
    OneTok(Start("session", a));
    var t := RenderTok(Start("session", a));
    assert "" + t + NewLine(pretty) == t + NewLine(pretty);
  }

  /** The whole document; `extraText` is a pre-rendered block spliced in before `</session>`. */
  method WriteDocWithId(img: SessionImage, show: real -> string, pretty: bool, id: Option<string>,
                        extraText: Option<string>, ghost extra: seq<Line>) returns (s: string)
    requires if extraText.Some? then extraText.value == RenderLines(extra, pretty) else extra == []
    ensures s == DocText(img, show, pretty, id, extra)
  {
    s := WriteRoot(img.created, id, img.schemaVersion);
    s := s + NewLine(pretty);
    RootLine(RootAttrs(img.created, id, img.schemaVersion), pretty);
    s := WriteOpen(s, 1, "surfaces", pretty);
    s := WriteSurfaces(s, img.surfaces, pretty);
    s := WriteClose(s, 1, "surfaces", pretty);
    s := WriteLayout(s, img.layout, show, pretty);
    if extraText.Some? {
      s := s + extraText.value;
    } else {
      assert s + RenderLines(extra, pretty) == s;
    }
    DocSplit(img, show, id, extra, pretty);
    s := s + "</session>";
  }

  /** The canonical form, written without whitespace and without an id. */
  method WriteCanonical(img: SessionImage, show: real -> string) returns (b: seq<byte>)
    ensures b == CanonicalBytes(img, show)
  {
    var s := WriteDocWithId(img, show, false, None, None, []);
    b := Utf8.Encode(s);
  }

  /** The indented document with its declaration and id. */
  method WriteXml(img: SessionImage, show: real -> string, sha: seq<byte> -> Digest) returns (s: string)
    ensures s == ToXml(img, show, sha)
  {
    var id := img.id;
    if id.None? {
      var canonical := WriteCanonical(img, show);
      id := Some(SurfaceIdToStr(sha(canonical)));
    }
    var doc := WriteDocWithId(img, show, true, id, None, []);
    s := XML_DECL + "\n" + doc;
  }
}
