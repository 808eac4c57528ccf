/** End tags match their start tags: elements as stretches of tokens, and that every written document is nested. */
module Nesting {
  import opened Wrappers
  import opened Text
  import opened Xml
  import opened Session

  lemma {:induction false} NestAppend(a: seq<Tok>, b: seq<Tok>, open: seq<string>)
    ensures Nest(a + b, open) == (var o := Nest(a, open); if o.Some? then Nest(b, o.value) else None)
  {
    if a == [] {
      assert a + b == b;
    } else {
      CutTail(a, b);
      match a[0]
      case Start(n, _) => NestAppend(a[1..], b, [n] + open);
      case End(n) => if open != [] && open[0] == n { NestAppend(a[1..], b, open[1..]); }
      case _ => NestAppend(a[1..], b, open);
    }
  }

  /** Elements open outside stay open: what nests within fewer of them nests within more. */
  lemma {:induction false} NestFrame(toks: seq<Tok>, open: seq<string>, outer: seq<string>)
    requires Nest(toks, open).Some?
    ensures Nest(toks, open + outer) == Some(Nest(toks, open).value + outer)
  {
    if toks != [] {
      match toks[0]
      case Start(n, _) =>
        Assoc([n], open, outer);
        NestFrame(toks[1..], [n] + open, outer);
      case End(n) =>
        CutTail(open, outer);
        NestFrame(toks[1..], open[1..], outer);
      case _ => NestFrame(toks[1..], open, outer);
    }
  }

  /** Every element that begins here ends here, and no other does. */
  ghost predicate Whole(toks: seq<Tok>) { Nest(toks, []) == Some([]) }

  lemma WholeNests(toks: seq<Tok>, open: seq<string>)
    requires Whole(toks)
    ensures Nest(toks, open) == Some(open)
  {
    NestFrame(toks, [], open);
    assert [] + open == open;
  }

  lemma WholeAppend(a: seq<Tok>, b: seq<Tok>)
    requires Whole(a) && Whole(b)
    ensures Whole(a + b)
  {
    NestAppend(a, b, []);
  }

  lemma NestOne(t: Tok, open: seq<string>)
    ensures t.Start? ==> Nest([t], open) == Some([t.name] + open)
    ensures t.End? ==> Nest([t], [t.name] + open) == Some(open)
    ensures !t.Start? && !t.End? ==> Nest([t], open) == Some(open)
  {
    assert [t][1..] == [];
    if t.End? {
      assert ([t.name] + open)[1..] == open;
    }
  }

  /** An element around a stretch of whole elements. */
  lemma WholeElement(name: string, attrs: seq<Attr>, body: seq<Tok>)
    requires Whole(body)
    ensures Whole([Start(name, attrs)] + body + [End(name)])
  {
    var start, end := [Start(name, attrs)], [End(name)];
    NestOne(start[0], []);
    WholeNests(body, [name] + []);
    NestOne(end[0], []);
    hide Nest;
    NestAppend(start, body, []);
    NestAppend(start + body, end, []);
  }

  lemma {:induction false} NestReported(toks: seq<Tok>, trim: bool, open: seq<string>)
    ensures Nest(Reported(toks, trim), open) == Nest(toks, open)
  {
    if toks != [] {
      var t, rest := toks[0], Reported(toks[1..], trim);
      match t
      case Start(n, _) => NestReported(toks[1..], trim, [n] + open);
      case End(n) => if open != [] && open[0] == n { NestReported(toks[1..], trim, open[1..]); }
      case _ => NestReported(toks[1..], trim, open);
      assert ([t] + rest)[1..] == rest;
      assert forall txt :: ([Chars(txt)] + rest)[1..] == rest;
    }
  }

  // ---- written lines ----

  ghost predicate WholeLines(lines: seq<Line>) { Whole(Flat(lines)) }

  lemma WholeLinesAppend(a: seq<Line>, b: seq<Line>)
    requires WholeLines(a) && WholeLines(b)
    ensures WholeLines(a + b)
  {
    hide Whole;
    FlatAppend(a, b);
    WholeAppend(Flat(a), Flat(b));
  }

  lemma WholeLine(l: Line)
    requires Whole(l.toks)
    ensures WholeLines([l])
  {
    assert Flat([l]) == l.toks;
  }

  lemma EmptyWhole(name: string, attrs: seq<Attr>)
    ensures Whole([Empty(name, attrs)])
  {
    NestOne(Empty(name, attrs), []);
  }

  lemma EmptyTagWhole(depth: nat, name: string, attrs: seq<Attr>)
    ensures WholeLines([Line(depth, [Empty(name, attrs)])])
  {
    EmptyWhole(name, attrs);
    WholeLine(Line(depth, [Empty(name, attrs)]));
  }

  /** An element written over several lines. */
  lemma ElementLinesWhole(depth: nat, name: string, attrs: seq<Attr>, lines: seq<Line>)
    requires WholeLines(lines)
    ensures WholeLines([Line(depth, [Start(name, attrs)])] + lines + [Line(depth, [End(name)])])
  {
    var open, close := [Line(depth, [Start(name, attrs)])], [Line(depth, [End(name)])];
    FlatTag(open[0]);
    FlatTag(close[0]);
    hide Flat;
    FlatAppend(open, lines);
    FlatAppend(open + lines, close);
    WholeElement(name, attrs, Flat(lines));
  }

  lemma FlatTag(l: Line)
    ensures Flat([l]) == l.toks
  {
  }

  lemma {:induction false} EachWhole(lines: seq<Line>)
    requires forall l :: l in lines ==> Whole(l.toks)
    ensures WholeLines(lines)
  {
    if lines != [] {
      assert lines[0] in lines && lines == [lines[0]] + lines[1..];
      EachWhole(lines[1..]);
      WholeLine(lines[0]);
      WholeLinesAppend([lines[0]], lines[1..]);
    }
  }

  lemma TextWhole(depth: nat, tag: string, text: string)
    ensures Whole(TextLine(depth, tag, text).toks)
  {
    var body := [Chars(EscapeText(text))];
    NestOne(body[0], []);
    WholeElement(tag, [], body);
    assert [Start(tag, [])] + body + [End(tag)] == TextLine(depth, tag, text).toks;
  }

  lemma AroundFour<T>(a: T, b: T, c: T, d: T, e: T, f: T)
    ensures [a] + [b, c, d, e] + [f] == [a, b, c, d, e, f]
  {
  }

  lemma HostLinesWhole(h: HostEntry)
    ensures WholeLines(HostLines(h))
  {
    var a, o := TextLine(4, "address", h.address), TextLine(4, "os", OsToStr(h.os));
    var m, c := TextLine(4, "machine", h.machine), TextLine(4, "capture", h.capture);
    TextWhole(4, "address", h.address);
    TextWhole(4, "os", OsToStr(h.os));
    TextWhole(4, "machine", h.machine);
    TextWhole(4, "capture", h.capture);
    AroundFour(Line(3, [Start("host", [])]), a, o, m, c, Line(3, [End("host")]));
    hide Whole, WholeLines, TextLine;
    EachWhole([a, o, m, c]);
    ElementLinesWhole(3, "host", [], [a, o, m, c]);
  }

  lemma LastApart<T>(a: seq<T>, b: seq<T>, c: T, d: T, e: T)
    ensures a + b + [c, d, e] == a + (b + [c, d]) + [e]
  {
  }

  lemma SurfaceLinesWhole(e: SurfaceEntry)
    ensures WholeLines(SurfaceLines(e))
  {
    var attrs := [Attr("height", Dec(e.height)), Attr("width", Dec(e.width))];
    var codec, dims := TextLine(3, "codec", CodecToStr(e.codec)), Line(3, [Empty("dimensions", attrs)]);
    LastApart([Line(2, [Start("surface", SurfaceAttrs(e))])], HostLines(e.host), codec, dims,
              Line(2, [End("surface")]));
    hide Whole, WholeLines, TextLine, HostLines, SurfaceAttrs, Dec, CodecToStr;
    HostLinesWhole(e.host);
    TextWhole(3, "codec", CodecToStr(e.codec));
    EmptyWhole("dimensions", attrs);
    EachWhole([codec, dims]);
    WholeLinesAppend(HostLines(e.host), [codec, dims]);
    ElementLinesWhole(2, "surface", SurfaceAttrs(e), HostLines(e.host) + [codec, dims]);
  }

  lemma {:induction false} SurfacesLinesWhole(es: seq<SurfaceEntry>)
    ensures WholeLines(SurfacesLines(es))
  {
    if es != [] {
      hide WholeLines, SurfaceLines;
      SurfaceLinesWhole(es[0]);
      SurfacesLinesWhole(es[1..]);
      WholeLinesAppend(SurfaceLines(es[0]), SurfacesLines(es[1..]));
    }
  }

  lemma LayoutLinesWhole(l: Layout, show: real -> string)
    ensures WholeLines(LayoutLines(l, show))
  {
    var attrs := [Attr("scroll-pos", FmtFloat(show, l.scrollPos))];
    var strip := [Line(2, [Empty("strip", attrs)])];
    assert LayoutLines(l, show)
           == [Line(1, [Start("layout", [])])] + (strip + FocusLines(l.focus)) + [Line(1, [End("layout")])];
    FocusLinesWhole(l.focus);
    hide *;
    EmptyTagWhole(2, "strip", attrs);
    WholeLinesAppend(strip, FocusLines(l.focus));
    ElementLinesWhole(1, "layout", [], strip + FocusLines(l.focus));
  }

  lemma FocusLinesWhole(focus: Option<SurfaceId>)
    ensures WholeLines(FocusLines(focus))
  {
    if focus.Some? {
      EmptyTagWhole(2, "focus", [Attr("surface-ref", EscapeAttr(SurfaceIdToStr(focus.value)))]);
    }
  }

  /** The tokens a document is written with: its elements are nested and closed. */
  lemma DocNests(img: SessionImage, show: real -> string, id: Option<string>, extra: seq<Line>, trim: bool)
    requires WholeLines(extra)
    ensures Whole(Reported(Flat(DocLines(img, show, id, extra)), trim) + [End("session")])
  {
    var root := Start("session", RootAttrs(img.created, id, img.schemaVersion));
    var open, close := Line(1, [Start("surfaces", [])]), Line(1, [End("surfaces")]);
    var list, layout := SurfacesLines(img.surfaces), LayoutLines(img.layout, show);
    RootApart(Line(0, [root]), open, list, close, layout, extra);
    hide Whole, WholeLines, SurfacesLines, LayoutLines, RootAttrs;
    SurfacesLinesWhole(img.surfaces);
    ElementLinesWhole(1, "surfaces", [], list);
    LayoutLinesWhole(img.layout, show);
    WholeLinesAppend([open] + list + [close], layout);
    WholeLinesAppend([open] + list + [close] + layout, extra);
    DocCloses(root, [open] + list + [close] + layout + extra, trim);
  }

  lemma RootApart<T>(a: T, b: T, c: seq<T>, d: T, e: seq<T>, f: seq<T>)
    ensures [a, b] + c + [d] + e + f == [a] + ([b] + c + [d] + e + f)
  {
  }

  lemma DocCloses(root: Tok, body: seq<Line>, trim: bool)
    requires root.Start? && WholeLines(body)
    ensures Whole(Reported(Flat([Line(0, [root])] + body), trim) + [End(root.name)])
  {
    var toks := Flat([Line(0, [root])] + body);
    FlatAppend([Line(0, [root])], body);
    FlatTag(Line(0, [root]));
    NestOne(root, []);
    NestOne(End(root.name), []);
    WholeNests(Flat(body), [root.name] + []);
    hide Nest, Flat;
    NestAppend([root], Flat(body), []);
    NestReported(toks, trim, []);
    NestAppend(Reported(toks, trim), [End(root.name)], []);
  }
}
