/**
 * What the parser makes of what the writer wrote: the round trip of the text form, and the
 * injectivity of the canonical form, both by running the event fold over the document's tokens.
 */
module SessionRoundTrip {
  import opened Wrappers
  import opened Text
  import opened Xml
  import opened Session
  import opened SessionParse

  function Edge(s: string, trim: bool): string { if trim then Trim(s) else s }

  /** An entry as a reader sees it: element text loses its edge whitespace, attributes do not. */
  function ReadEntry(e: SurfaceEntry, trim: bool): SurfaceEntry {
    e.(host := HostEntry(Edge(e.host.address, trim), e.host.os, Edge(e.host.machine, trim), Edge(e.host.capture, trim)))
  }

  function ReadEntries(es: seq<SurfaceEntry>, trim: bool): seq<SurfaceEntry> {
    if es == [] then [] else [ReadEntry(es[0], trim)] + ReadEntries(es[1..], trim)
  }

  // ---- names ----

  lemma FrameKinds()
    ensures KindOf("session") == SessionEl && KindOf("surfaces") == OtherEl && KindOf("layout") == OtherEl
  {
    hide LocalName;
    LocalNamePlain("session");
    LocalNamePlain("surfaces");
    LocalNamePlain("layout");
    assert "surfaces"[0] == 's';
    assert "layout"[0] == 'l';
  }

  lemma SurfaceKinds()
    ensures KindOf("surface") == SurfaceEl && KindOf("host") == HostEl && KindOf("dimensions") == DimensionsEl
  {
    hide LocalName;
    LocalNamePlain("surface");
    LocalNamePlain("host");
    LocalNamePlain("dimensions");
    assert "session"[1] == 'e' && "surface"[1] == 'u';
  }

  lemma LayoutKinds()
    ensures KindOf("strip") == StripEl && KindOf("focus") == FocusEl
  {
    hide LocalName;
    LocalNamePlain("strip");
    LocalNamePlain("focus");
    assert "strip"[0] == 's' && "focus"[0] == 'f' && "codec"[0] == 'c';
  }

  lemma TextKinds()
    ensures KindOf("address") == TextEl(Address) && KindOf("os") == TextEl(Os)
    ensures KindOf("machine") == TextEl(Machine) && KindOf("capture") == TextEl(Capture)
    ensures KindOf("codec") == TextEl(CodecText)
  {
    hide LocalName;
    LocalNamePlain("address");
    LocalNamePlain("os");
    LocalNamePlain("machine");
    LocalNamePlain("capture");
    LocalNamePlain("codec");
    assert "session"[0] == 's' && "surface"[0] == 's' && "address"[0] == 'a' && "machine"[0] == 'm'
           && "capture"[0] == 'c';
  }

  lemma FrameNames()
    ensures IsName("session") && IsName("surfaces") && IsName("layout") && IsName("strip") && IsName("focus")
  {
  }

  lemma FrameAttrNames()
    ensures IsName("xmlns") && IsName("created") && IsName("scroll-pos") && IsName("surface-ref")
            && IsName("schema-version")
  {
  }

  lemma SurfaceNames()
    ensures IsName("surface") && IsName("id") && IsName("name") && IsName("order")
    ensures IsName("dimensions") && IsName("height") && IsName("width")
  {
  }

  lemma TextNames()
    ensures IsName("host") && IsName("address") && IsName("os") && IsName("machine") && IsName("capture")
            && IsName("codec")
  {
  }

  // ---- the document's tokens are well formed ----

  lemma TextLineOk(depth: nat, tag: string, text: string)
    requires IsName(tag)
    ensures OkToks(TextLine(depth, tag, text).toks)
  {
    EscapeRoundTrip(text);
  }

  lemma DecPlain(n: nat)
    ensures '"' !in Dec(n)
  {
  }

  lemma TagOk(t: Tok)
    requires OkTok(t) && !t.Chars?
    ensures OkToks([t])
  {
  }

  lemma OneAttrOk(a: Attr)
    requires IsName(a.name) && '"' !in a.value
    ensures OkAttrs([a])
  {
  }

  lemma OkAttrsAppend(a: seq<Attr>, b: seq<Attr>)
    requires OkAttrs(a) && OkAttrs(b)
    ensures OkAttrs(a + b)
  {
  }

  lemma HostLinesOk(h: HostEntry)
    ensures OkLines(HostLines(h))
  {
    TextNames();
    TextLineOk(4, "address", h.address);
    TextLineOk(4, "os", OsToStr(h.os));
    TextLineOk(4, "machine", h.machine);
    TextLineOk(4, "capture", h.capture);
    TagOk(Start("host", []));
    TagOk(End("host"));
  }

  lemma SurfaceAttrsOk(e: SurfaceEntry)
    ensures OkAttrs(SurfaceAttrs(e))
    ensures OkAttrs([Attr("height", Dec(e.height)), Attr("width", Dec(e.width))])
  {
    SurfaceNames();
    EscapeRoundTrip(SurfaceIdToStr(e.id));
    EscapeRoundTrip(e.name);
    DecPlain(e.order);
    DecPlain(e.height);
    DecPlain(e.width);
  }

  lemma SurfaceLinesOk(e: SurfaceEntry)
    ensures OkLines(SurfaceLines(e))
  {
    hide OkTok, SurfaceAttrs, TextLine, HostLines, IsName, Dec, CodecToStr, OkToks;
    SurfaceNames();
    SurfaceAttrsOk(e);
    TagOk(Start("surface", SurfaceAttrs(e)));
    HostLinesOk(e.host);
    assert IsName("codec") by { TextNames(); }
    TextLineOk(3, "codec", CodecToStr(e.codec));
    TagOk(Empty("dimensions", [Attr("height", Dec(e.height)), Attr("width", Dec(e.width))]));
    TagOk(End("surface"));
  }

  lemma {:induction false} SurfacesLinesOk(es: seq<SurfaceEntry>)
    ensures OkLines(SurfacesLines(es))
  {
    if es != [] {
      SurfaceLinesOk(es[0]);
      SurfacesLinesOk(es[1..]);
    }
  }

  lemma LayoutLinesOk(l: Layout, show: real -> string)
    requires PlainFloat(show, l.scrollPos)
    ensures OkLines(LayoutLines(l, show))
  {
    FrameNames();
    FrameAttrNames();
    TagOk(Start("layout", []));
    TagOk(End("layout"));
    OneAttrOk(Attr("scroll-pos", FmtFloat(show, l.scrollPos)));
    TagOk(Empty("strip", [Attr("scroll-pos", FmtFloat(show, l.scrollPos))]));
    if l.focus.Some? {
      var v := EscapeAttr(SurfaceIdToStr(l.focus.value));
      EscapeRoundTrip(SurfaceIdToStr(l.focus.value));
      OneAttrOk(Attr("surface-ref", v));
      TagOk(Empty("focus", [Attr("surface-ref", v)]));
    }
  }

  lemma NamespaceUnquoted()
    ensures '"' !in SESSION_NAMESPACE
  {
  }

  lemma RootOk(created: string, id: Option<string>, schema: u32)
    ensures OkTok(Start("session", RootAttrs(created, id, schema)))
  {
    FrameNames();
    FrameAttrNames();
    SurfaceNames();
    NamespaceUnquoted();
    EscapeRoundTrip(created);
    DecPlain(schema);
    hide Dec, EscapeAttr, SESSION_NAMESPACE, OkAttrs, IsName;
    var ns, made, version := Attr("xmlns", SESSION_NAMESPACE), Attr("created", EscapeAttr(created)),
        Attr("schema-version", Dec(schema));
    OneAttrOk(ns);
    OneAttrOk(made);
    OneAttrOk(version);
    OkAttrsAppend([ns], [made]);
    assert [ns] + [made] == [ns, made];
    if id.Some? {
      EscapeRoundTrip(id.value);
      OneAttrOk(Attr("id", EscapeAttr(id.value)));
      OkAttrsAppend([ns, made], [Attr("id", EscapeAttr(id.value))]);
      OkAttrsAppend([ns, made] + [Attr("id", EscapeAttr(id.value))], [version]);
    } else {
      assert [ns, made] + [] == [ns, made];
      OkAttrsAppend([ns, made], [version]);
    }
  }

  lemma DocLinesOk(img: SessionImage, show: real -> string, id: Option<string>, extra: seq<Line>)
    requires PlainFloat(show, img.layout.scrollPos) && OkLines(extra)
    ensures OkLines(DocLines(img, show, id, extra))
  {
    hide RootAttrs, SurfacesLines, LayoutLines, IsName, PlainFloat;
    FrameNames();
    TagOk(Start("surfaces", []));
    TagOk(End("surfaces"));
    RootOk(img.created, id, img.schemaVersion);
    TagOk(Start("session", RootAttrs(img.created, id, img.schemaVersion)));
    SurfacesLinesOk(img.surfaces);
    LayoutLinesOk(img.layout, show);
  }

  // ---- running the parser over lines ----

  function RunLines(lines: seq<Line>, trim: bool, st: State, scan: string -> Option<real>)
    : Result<State, SessionError>
  {
    if lines == [] then Ok(st)
    else var s :- Run(Reported(lines[0].toks, trim), st, scan); RunLines(lines[1..], trim, s, scan)
  }

  lemma {:induction false} RunLinesIsRun(lines: seq<Line>, trim: bool, st: State, scan: string -> Option<real>)
    ensures RunLines(lines, trim, st, scan) == Run(Reported(Flat(lines), trim), st, scan)
  {
    if lines != [] {
      ReportedAppend(lines[0].toks, Flat(lines[1..]), trim);
      RunAppend(Reported(lines[0].toks, trim), Reported(Flat(lines[1..]), trim), st, scan);
      var s := Run(Reported(lines[0].toks, trim), st, scan);
      if s.Ok? {
        RunLinesIsRun(lines[1..], trim, s.value, scan);
      }
    }
  }

  lemma {:induction false} RunLinesAppend(a: seq<Line>, b: seq<Line>, trim: bool, st: State,
                                          scan: string -> Option<real>)
    ensures RunLines(a + b, trim, st, scan)
         == (var r := RunLines(a, trim, st, scan); if r.Ok? then RunLines(b, trim, r.value, scan) else r)
  {
    if a == [] {
      assert a + b == b;
    } else {
      CutTail(a, b);
      var s := Run(Reported(a[0].toks, trim), st, scan);
      if s.Ok? {
        RunLinesAppend(a[1..], b, trim, s.value, scan);
      }
    }
  }

  lemma RunOneLine(l: Line, trim: bool, st: State, scan: string -> Option<real>)
    ensures RunLines([l], trim, st, scan) == Run(Reported(l.toks, trim), st, scan)
  {
  }

  lemma TagRun(depth: nat, t: Tok, trim: bool, st: State, scan: string -> Option<real>)
    requires !t.Chars?
    ensures RunLines([Line(depth, [t])], trim, st, scan) == Step(st, t, scan)
  {
    RunOneLine(Line(depth, [t]), trim, st, scan);
    assert [t][1..] == [];
    assert Reported([t], trim) == [t];
  }

  lemma ReportedText(tag: string, text: string, trim: bool)
    ensures Reported([Start(tag, []), Chars(EscapeText(text)), End(tag)], trim)
         == [Start(tag, [])]
            + (if Edge(text, trim) == "" then [] else [Chars(EscapeText(Edge(text, trim)))])
            + [End(tag)]
  {
    var t := [Start(tag, []), Chars(EscapeText(text)), End(tag)];
    assert t[1..] == [Chars(EscapeText(text)), End(tag)] && t[1..][1..] == [End(tag)] && [End(tag)][1..] == [];
    TrimEscape(text);
    EscapeRoundTrip(Edge(text, trim));
    assert EscapeText("") == "";
    var txt := if trim then Trim(EscapeText(text)) else EscapeText(text);
    assert txt == EscapeText(Edge(text, trim));
    assert Reported([End(tag)], trim) == [End(tag)];
    assert Reported(t[1..], trim) == (if txt == "" then [] else [Chars(txt)]) + [End(tag)];
    assert Reported(t, trim) == [Start(tag, [])] + Reported(t[1..], trim);
  }

  /** A written text element hands exactly its (trimmed) text to the builder. */
  lemma TextRun(depth: nat, tag: string, text: string, which: TextTarget, trim: bool, st: State,
                scan: string -> Option<real>)
    requires KindOf(tag) == TextEl(which)
    ensures RunLines([TextLine(depth, tag, text)], trim, st, scan)
         == (var b := ApplyText(st.cur, st.inHost, Some(which), Edge(text, trim));
             if b.Ok? then Ok(st.(cur := Some(b.value), target := None, buf := "")) else Err(b.error))
  {
    hide KindOf, EscapeText, Unescape, Edge, Reported;
    RunOneLine(TextLine(depth, tag, text), trim, st, scan);
    ReportedText(tag, text, trim);
    EscapeRoundTrip(Edge(text, trim));
    var body := if Edge(text, trim) == "" then [] else [Chars(EscapeText(Edge(text, trim)))];
    var begun := st.(target := Some(which), buf := "");
    assert Step(st, Start(tag, []), scan) == Ok(begun);
    RunAppend([Start(tag, [])] + body, [End(tag)], st, scan);
    RunAppend([Start(tag, [])], body, st, scan);
    RunSingle(Start(tag, []), st, scan);
    if body != [] {
      RunSingle(body[0], begun, scan);
      assert "" + Edge(text, trim) == Edge(text, trim);
    }
    var filled := begun.(buf := Edge(text, trim));
    assert Run([Start(tag, [])] + body, st, scan) == Ok(filled);
    RunSingle(End(tag), filled, scan);
  }

  lemma RunSingle(t: Tok, st: State, scan: string -> Option<real>)
    ensures Run([t], st, scan) == Step(st, t, scan)
  {
  }

  lemma SolidNames(os: OsKind, c: Codec)
    ensures Trim(OsToStr(os)) == OsToStr(os) && Trim(CodecToStr(c)) == CodecToStr(c)
  {
  }

  /** Lines that each take one state to the next take the first state to the last. */
  lemma {:induction false} RunChain(l: seq<Line>, sts: seq<State>, trim: bool, scan: string -> Option<real>)
    requires |sts| == |l| + 1
    requires forall i :: 0 <= i < |l| ==> RunLines([l[i]], trim, sts[i], scan) == Ok(sts[i + 1])
    ensures RunLines(l, trim, sts[0], scan) == Ok(sts[|l|])
  {
    if l != [] {
      assert RunLines([l[0]], trim, sts[0], scan) == Ok(sts[1]);
      RunOneLine(l[0], trim, sts[0], scan);
      forall i | 0 <= i < |l[1..]| ensures RunLines([l[1..][i]], trim, sts[1..][i], scan) == Ok(sts[1..][i + 1]) {
        assert RunLines([l[i + 1]], trim, sts[i + 1], scan) == Ok(sts[i + 2]);
      }
      RunChain(l[1..], sts[1..], trim, scan);
    }
  }

  predicate InHost(st: State) { st.cur.Some? && st.inHost }

  function WithHost(st: State, b: SurfaceBuilder): State { st.(cur := Some(b), target := None, buf := "") }

  lemma AddressRun(text: string, trim: bool, st: State, scan: string -> Option<real>)
    requires InHost(st)
    ensures RunLines([TextLine(4, "address", text)], trim, st, scan)
         == Ok(WithHost(st, st.cur.value.(address := Some(Edge(text, trim)))))
  {
    hide RunLines, KindOf, TextLine, OsFromStr, OsToStr, CodecToStr, CodecFromStr, Edge;
    TextKinds();
    TextRun(4, "address", text, Address, trim, st, scan);
  }

  lemma OsRun(os: OsKind, trim: bool, st: State, scan: string -> Option<real>)
    requires InHost(st)
    ensures RunLines([TextLine(4, "os", OsToStr(os))], trim, st, scan)
         == Ok(WithHost(st, st.cur.value.(os := Some(os))))
  {
    hide RunLines, KindOf, TextLine, OsFromStr, OsToStr, CodecToStr, CodecFromStr;
    TextKinds();
    SolidNames(os, H265);
    OsRoundTrip(os);
    TextRun(4, "os", OsToStr(os), Os, trim, st, scan);
  }

  lemma MachineRun(text: string, trim: bool, st: State, scan: string -> Option<real>)
    requires InHost(st)
    ensures RunLines([TextLine(4, "machine", text)], trim, st, scan)
         == Ok(WithHost(st, st.cur.value.(machine := Some(Edge(text, trim)))))
  {
    hide RunLines, KindOf, TextLine, OsFromStr, OsToStr, CodecToStr, CodecFromStr, Edge;
    TextKinds();
    TextRun(4, "machine", text, Machine, trim, st, scan);
  }

  lemma CaptureRun(text: string, trim: bool, st: State, scan: string -> Option<real>)
    requires InHost(st)
    ensures RunLines([TextLine(4, "capture", text)], trim, st, scan)
         == Ok(WithHost(st, st.cur.value.(capture := Some(Edge(text, trim)))))
  {
    hide RunLines, KindOf, TextLine, OsFromStr, OsToStr, CodecToStr, CodecFromStr, Edge;
    TextKinds();
    TextRun(4, "capture", text, Capture, trim, st, scan);
  }

  lemma CodecRun(c: Codec, trim: bool, st: State, scan: string -> Option<real>)
    requires st.cur.Some?
    ensures RunLines([TextLine(3, "codec", CodecToStr(c))], trim, st, scan)
         == Ok(WithHost(st, st.cur.value.(codec := Some(c))))
  {
    hide RunLines, KindOf, TextLine, OsFromStr, OsToStr, CodecToStr, CodecFromStr;
    TextKinds();
    SolidNames(MacOS, c);
    CodecRoundTrip(c);
    TextRun(3, "codec", CodecToStr(c), CodecText, trim, st, scan);
  }

  function HostRead(b: SurfaceBuilder, h: HostEntry, trim: bool): SurfaceBuilder {
    b.(address := Some(Edge(h.address, trim)), os := Some(h.os),
       machine := Some(Edge(h.machine, trim)), capture := Some(Edge(h.capture, trim)))
  }

  lemma HostTagsRun(trim: bool, st: State, scan: string -> Option<real>)
    ensures RunLines([Line(3, [Start("host", [])])], trim, st, scan) == Ok(st.(inHost := true, buf := ""))
    ensures RunLines([Line(3, [End("host")])], trim, st, scan) == Ok(st.(inHost := false))
  {
    SurfaceKinds();
    TagRun(3, Start("host", []), trim, st, scan);
    TagRun(3, End("host"), trim, st, scan);
  }

  lemma RunThree(a: Line, b: Line, c: Line, s0: State, s1: State, s2: State, s3: State, trim: bool,
                 scan: string -> Option<real>)
    requires RunLines([a], trim, s0, scan) == Ok(s1)
    requires RunLines([b], trim, s1, scan) == Ok(s2)
    requires RunLines([c], trim, s2, scan) == Ok(s3)
    ensures RunLines([a, b, c], trim, s0, scan) == Ok(s3)
  {
  }

  lemma HostHeadRun(h: HostEntry, trim: bool, st: State, scan: string -> Option<real>)
    requires st.cur.Some?
    ensures RunLines(HostLines(h)[..3], trim, st, scan)
         == Ok(WithHost(st, st.cur.value.(address := Some(Edge(h.address, trim)), os := Some(h.os))).(inHost := true))
  {
    hide RunLines, TextLine, Edge;
    var s0 := st.(inHost := true, buf := "");
    var s1 := WithHost(s0, st.cur.value.(address := Some(Edge(h.address, trim))));
    var s2 := WithHost(s1, s1.cur.value.(os := Some(h.os)));
    HostTagsRun(trim, st, scan);
    AddressRun(h.address, trim, s0, scan);
    OsRun(h.os, trim, s1, scan);
    var a, b, c := Line(3, [Start("host", [])]), TextLine(4, "address", h.address), TextLine(4, "os", OsToStr(h.os));
    RunThree(a, b, c, st, s0, s1, s2, trim, scan);
    assert HostLines(h)[..3] == [a, b, c];
  }

  lemma HostTailRun(h: HostEntry, trim: bool, st: State, scan: string -> Option<real>)
    requires InHost(st)
    ensures RunLines(HostLines(h)[3..], trim, st, scan)
         == Ok(WithHost(st, st.cur.value.(machine := Some(Edge(h.machine, trim)),
                                          capture := Some(Edge(h.capture, trim)))).(inHost := false))
  {
    hide RunLines, TextLine, Edge;
    var s1 := WithHost(st, st.cur.value.(machine := Some(Edge(h.machine, trim))));
    var s2 := WithHost(s1, s1.cur.value.(capture := Some(Edge(h.capture, trim))));
    MachineRun(h.machine, trim, st, scan);
    CaptureRun(h.capture, trim, s1, scan);
    HostTagsRun(trim, s2, scan);
    var a, b, c := TextLine(4, "machine", h.machine), TextLine(4, "capture", h.capture), Line(3, [End("host")]);
    RunThree(a, b, c, st, s1, s2, s2.(inHost := false), trim, scan);
    assert HostLines(h)[3..] == [a, b, c];
  }

  lemma HostRun(h: HostEntry, trim: bool, st: State, scan: string -> Option<real>)
    requires st.cur.Some?
    ensures RunLines(HostLines(h), trim, st, scan)
         == Ok(WithHost(st, HostRead(st.cur.value, h, trim)).(inHost := false))
  {
    var l := HostLines(h);
    assert l == l[..3] + l[3..];
    RunLinesAppend(l[..3], l[3..], trim, st, scan);
    HostHeadRun(h, trim, st, scan);
    var mid := WithHost(st, st.cur.value.(address := Some(Edge(h.address, trim)), os := Some(h.os))).(inHost := true);
    HostTailRun(h, trim, mid, scan);
  }

  // ---- surfaces ----

  function Fresh(e: SurfaceEntry): SurfaceBuilder {
    SurfaceBuilder(e.id, e.name, e.order, None, None, None, None, None, None, None)
  }

  lemma AttrAt(attrs: seq<Attr>, key: string, text: string)
    requires attrs != [] && LocalName(attrs[0].name) == key && Unescape(attrs[0].value) == Some(text)
    ensures AttrStr(attrs, key) == Ok(text)
  {
  }

  lemma AttrPast(attrs: seq<Attr>, key: string)
    requires attrs != [] && LocalName(attrs[0].name) != key
    ensures AttrStr(attrs, key) == AttrStr(attrs[1..], key)
  {
  }

  lemma SurfaceAttrsRead(e: SurfaceEntry)
    ensures ParseSurface(SurfaceAttrs(e)) == Ok(Fresh(e))
  {
    var a := SurfaceAttrs(e);
    SurfaceIdRoundTrip(e.id);
    AttrAt(a, "id", SurfaceIdToStr(e.id));
    EscapeRoundTrip(e.name);
    AttrPast(a, "name");
    AttrAt(a[1..], "name", e.name);
    DecRoundTrip(e.order, U32_LIMIT);
    AttrPast(a, "order");
    AttrPast(a[1..], "order");
    AttrAt(a[1..][1..], "order", Dec(e.order));
  }

  lemma SurfaceOpenRun(e: SurfaceEntry, trim: bool, st: State, scan: string -> Option<real>)
    ensures RunLines([Line(2, [Start("surface", SurfaceAttrs(e))])], trim, st, scan)
         == Ok(st.(cur := Some(Fresh(e)), buf := ""))
  {
    SurfaceKinds();
    SurfaceAttrsRead(e);
    TagRun(2, Start("surface", SurfaceAttrs(e)), trim, st, scan);
  }

  lemma DimensionsRead(e: SurfaceEntry)
    ensures var a := [Attr("height", Dec(e.height)), Attr("width", Dec(e.width))];
            AttrU32(a, "width") == Ok(e.width) && AttrU32(a, "height") == Ok(e.height)
  {
    var a := [Attr("height", Dec(e.height)), Attr("width", Dec(e.width))];
    assert "height" != "width" && a[1..][0] == a[1];
    DecRoundTrip(e.height, U32_LIMIT);
    DecRoundTrip(e.width, U32_LIMIT);
    hide Dec, ParseUnsigned, AttrStr;
    AttrAt(a, "height", Dec(e.height));
    AttrPast(a, "width");
    AttrAt(a[1..], "width", Dec(e.width));
  }

  lemma DimensionsRun(e: SurfaceEntry, trim: bool, st: State, scan: string -> Option<real>)
    requires st.cur.Some?
    ensures RunLines([Line(3, [Empty("dimensions", [Attr("height", Dec(e.height)), Attr("width", Dec(e.width))])])],
                     trim, st, scan)
         == Ok(st.(cur := Some(st.cur.value.(width := Some(e.width), height := Some(e.height))), buf := ""))
  {
    SurfaceKinds();
    DimensionsRead(e);
    TagRun(3, Empty("dimensions", [Attr("height", Dec(e.height)), Attr("width", Dec(e.width))]), trim, st, scan);
  }

  lemma SurfaceCloseRun(trim: bool, st: State, b: SurfaceBuilder, e: SurfaceEntry, scan: string -> Option<real>)
    requires st.cur == Some(b) && b.Build() == Ok(e)
    ensures RunLines([Line(2, [End("surface")])], trim, st, scan)
         == Ok(st.(cur := None, surfaces := st.surfaces + [e]))
  {
    SurfaceKinds();
    TagRun(2, End("surface"), trim, st, scan);
  }

  function Filled(e: SurfaceEntry, trim: bool): SurfaceBuilder {
    HostRead(Fresh(e), e.host, trim).(codec := Some(e.codec), width := Some(e.width), height := Some(e.height))
  }

  lemma FilledBuilds(e: SurfaceEntry, trim: bool)
    ensures Filled(e, trim).Build() == Ok(ReadEntry(e, trim))
  {
  }

  /** A written surface comes back as one entry, whatever the parser was doing. */
  lemma SurfaceRun(e: SurfaceEntry, trim: bool, st: State, scan: string -> Option<real>)
    ensures RunLines(SurfaceLines(e), trim, st, scan)
         == Ok(st.(surfaces := st.surfaces + [ReadEntry(e, trim)], cur := None, inHost := false, target := None,
                   buf := ""))
  {
    hide Run, Step, Reported, TextLine, SurfaceAttrs, HostLines, Dec, CodecToStr;
    var open := [Line(2, [Start("surface", SurfaceAttrs(e))])];
    var dims := Line(3, [Empty("dimensions", [Attr("height", Dec(e.height)), Attr("width", Dec(e.width))])]);
    var tail := [TextLine(3, "codec", CodecToStr(e.codec)), dims, Line(2, [End("surface")])];
    var s0 := st.(cur := Some(Fresh(e)), buf := "");
    var s1 := WithHost(s0, HostRead(Fresh(e), e.host, trim)).(inHost := false);
    var s2 := WithHost(s1, s1.cur.value.(codec := Some(e.codec)));
    var s3 := s2.(cur := Some(Filled(e, trim)), buf := "");
    var s4 := s3.(cur := None, surfaces := s3.surfaces + [ReadEntry(e, trim)]);
    RunLinesAppend(open, HostLines(e.host), trim, st, scan);
    RunLinesAppend(open + HostLines(e.host), tail, trim, st, scan);
    assert RunLines(open, trim, st, scan) == Ok(s0) by { SurfaceOpenRun(e, trim, st, scan); }
    assert RunLines(HostLines(e.host), trim, s0, scan) == Ok(s1) by { HostRun(e.host, trim, s0, scan); }
    assert RunLines(tail, trim, s1, scan) == Ok(s4) by {
      CodecRun(e.codec, trim, s1, scan);
      DimensionsRun(e, trim, s2, scan);
      FilledBuilds(e, trim);
      SurfaceCloseRun(trim, s3, Filled(e, trim), ReadEntry(e, trim), scan);
      RunThree(tail[0], dims, tail[2], s1, s2, s3, s4, trim, scan);
    }
  }

  function Settled(st: State): State { st.(cur := None, inHost := false, target := None, buf := "") }

  lemma {:induction false} SurfacesRun(es: seq<SurfaceEntry>, trim: bool, st: State, scan: string -> Option<real>)
    requires st == Settled(st)
    ensures RunLines(SurfacesLines(es), trim, st, scan)
         == Ok(st.(surfaces := st.surfaces + ReadEntries(es, trim)))
  {
    if es == [] {
      assert st.surfaces + [] == st.surfaces;
    } else {
      SurfaceRun(es[0], trim, st, scan);
      var next := st.(surfaces := st.surfaces + [ReadEntry(es[0], trim)]);
      RunLinesAppend(SurfaceLines(es[0]), SurfacesLines(es[1..]), trim, st, scan);
      SurfacesRun(es[1..], trim, next, scan);
      Assoc(st.surfaces, [ReadEntry(es[0], trim)], ReadEntries(es[1..], trim));
    }
  }

  // ---- root and layout ----

  lemma RootKeys()
    ensures RootKeyOf(LocalName("xmlns")) == OtherKey && RootKeyOf(LocalName("created")) == CreatedKey
    ensures RootKeyOf(LocalName("id")) == IdKey && RootKeyOf(LocalName("schema-version")) == SchemaKey
  {
    hide LocalName;
    LocalNamePlain("xmlns");
    LocalNamePlain("created");
    LocalNamePlain("id");
    LocalNamePlain("schema-version");
  }

  function IdAttr(id: Option<string>): seq<Attr> {
    if id.Some? then [Attr("id", EscapeAttr(id.value))] else []
  }

  lemma IdAndSchemaRead(id: Option<string>, schema: u32, acc: SessionAttrs)
    requires acc.id.None?
    ensures ParseSessionAttrs(IdAttr(id) + [Attr("schema-version", Dec(schema))], acc)
         == Ok(acc.(id := id, schema := Some(schema)))
  {
    var tail := [Attr("schema-version", Dec(schema))];
    if id.Some? {
      RootKeys();
      EscapeRoundTrip(id.value);
      AttrStep(Attr("id", EscapeAttr(id.value)), tail, id.value, acc);
    } else {
      assert [] + tail == tail;
    }
    SchemaRead(schema, acc.(id := id));
  }

  lemma RootParts(created: string, id: Option<string>, schema: u32)
    ensures RootAttrs(created, id, schema)
         == [Attr("xmlns", SESSION_NAMESPACE)]
            + ([Attr("created", EscapeAttr(created))] + (IdAttr(id) + [Attr("schema-version", Dec(schema))]))
  {
  }

  lemma RootAttrsRead(created: string, id: Option<string>, schema: u32)
    ensures ParseSessionAttrs(RootAttrs(created, id, schema), NO_ATTRS)
         == Ok(SessionAttrs(id, Some(created), Some(schema)))
  {
    hide ParseSessionAttrs, LocalName, RootKeyOf, Unescape, EscapeAttr, Dec, RootAttrs, IdAttr;
    var x, c := Attr("xmlns", SESSION_NAMESPACE), Attr("created", EscapeAttr(created));
    var rest := IdAttr(id) + [Attr("schema-version", Dec(schema))];
    RootParts(created, id, schema);
    IdAndSchemaRead(id, schema, NO_ATTRS.(created := Some(created)));
    assert Unescape(SESSION_NAMESPACE) == Some(SESSION_NAMESPACE) by { UnescapePlain(SESSION_NAMESPACE); }
    assert Unescape(EscapeAttr(created)) == Some(created) by { EscapeRoundTrip(created); }
    RootKeys();
    AttrStep(x, [c] + rest, SESSION_NAMESPACE, NO_ATTRS);
    AttrStep(c, rest, created, NO_ATTRS);
  }

  lemma AttrStep(a: Attr, more: seq<Attr>, v: string, acc: SessionAttrs)
    requires Unescape(a.value) == Some(v)
    ensures RootKeyOf(LocalName(a.name)) == OtherKey
            ==> ParseSessionAttrs([a] + more, acc) == ParseSessionAttrs(more, acc)
    ensures RootKeyOf(LocalName(a.name)) == CreatedKey
        ==> ParseSessionAttrs([a] + more, acc) == ParseSessionAttrs(more, acc.(created := Some(v)))
    ensures RootKeyOf(LocalName(a.name)) == IdKey
        ==> ParseSessionAttrs([a] + more, acc) == ParseSessionAttrs(more, acc.(id := Some(v)))
  {
  }

  lemma SchemaRead(schema: u32, acc: SessionAttrs)
    ensures ParseSessionAttrs([Attr("schema-version", Dec(schema))], acc) == Ok(acc.(schema := Some(schema)))
  {
    RootKeys();
    DecRoundTrip(schema, U32_LIMIT);
    assert [Attr("schema-version", Dec(schema))][1..] == [];
  }

  lemma RootRun(created: string, id: Option<string>, schema: u32, trim: bool, st: State, scan: string -> Option<real>)
    ensures RunLines([Line(0, [Start("session", RootAttrs(created, id, schema))])], trim, st, scan)
         == Ok(st.(attrs := SessionAttrs(id, Some(created), Some(schema)), buf := ""))
  {
    FrameKinds();
    RootAttrsRead(created, id, schema);
    TagRun(0, Start("session", RootAttrs(created, id, schema)), trim, st, scan);
  }

  /** The tags the parser ignores. */
  lemma FrameRun(depth: nat, name: string, trim: bool, st: State, scan: string -> Option<real>)
    requires name == "surfaces" || name == "layout"
    requires st.buf == ""
    ensures RunLines([Line(depth, [Start(name, [])])], trim, st, scan) == Ok(st)
    ensures RunLines([Line(depth, [End(name)])], trim, st, scan) == Ok(st)
  {
    FrameKinds();
    TagRun(depth, Start(name, []), trim, st, scan);
    TagRun(depth, End(name), trim, st, scan);
  }

  lemma StripStep(text: string, pos: real, a: seq<Attr>, st: State, scan: string -> Option<real>)
    requires a == [Attr("scroll-pos", text)]
    requires Unescape(text) == Some(text) && scan(text) == Some(pos)
    ensures Step(st, Empty("strip", a), scan) == Ok(st.(layout := st.layout.(scrollPos := pos), buf := ""))
  {
    hide LocalName, AttrStr, KindOf;
    LayoutKinds();
    LocalNamePlain("scroll-pos");
    AttrAt(a, "scroll-pos", text);
  }

  lemma StripRun(text: string, pos: real, trim: bool, st: State, scan: string -> Option<real>)
    requires Unescape(text) == Some(text) && scan(text) == Some(pos) && st.buf == ""
    ensures RunLines([Line(2, [Empty("strip", [Attr("scroll-pos", text)])])], trim, st, scan)
         == Ok(st.(layout := st.layout.(scrollPos := pos)))
  {
    hide Step, RunLines, Unescape;
    var a := [Attr("scroll-pos", text)];
    StripStep(text, pos, a, st, scan);
    TagRun(2, Empty("strip", a), trim, st, scan);
  }

  lemma FocusStep(id: SurfaceId, a: seq<Attr>, st: State, scan: string -> Option<real>)
    requires a == [Attr("surface-ref", EscapeAttr(SurfaceIdToStr(id)))]
    ensures Step(st, Empty("focus", a), scan) == Ok(st.(layout := st.layout.(focus := Some(id)), buf := ""))
  {
    hide SurfaceIdToStr, ParseSurfaceId, AttrStr, EscapeAttr, LocalName, KindOf;
    LayoutKinds();
    SurfaceIdRoundTrip(id);
    LocalNamePlain("surface-ref");
    AttrAt(a, "surface-ref", SurfaceIdToStr(id));
  }

  lemma FocusRun(focus: Option<SurfaceId>, trim: bool, st: State, scan: string -> Option<real>)
    requires st.buf == "" && st.layout.focus == None
    ensures RunLines(FocusLines(focus), trim, st, scan) == Ok(st.(layout := st.layout.(focus := focus)))
  {
    if focus.Some? {
      var a := [Attr("surface-ref", EscapeAttr(SurfaceIdToStr(focus.value)))];
      FocusStep(focus.value, a, st, scan);
      TagRun(2, Empty("focus", a), trim, st, scan);
    }
  }

  lemma LayoutRun(l: Layout, show: real -> string, pos: real, trim: bool, st: State, scan: string -> Option<real>)
    requires st.buf == "" && st.layout.focus == None
    requires PlainFloat(show, l.scrollPos) && scan(FmtFloat(show, l.scrollPos)) == Some(pos)
    ensures RunLines(LayoutLines(l, show), trim, st, scan) == Ok(st.(layout := Layout(pos, l.focus)))
  {
    var text := FmtFloat(show, l.scrollPos);
    var head := [Line(1, [Start("layout", [])]), Line(2, [Empty("strip", [Attr("scroll-pos", text)])])];
    var tail := [Line(1, [End("layout")])];
    var s1 := st.(layout := st.layout.(scrollPos := pos));
    var s2 := st.(layout := Layout(pos, l.focus));
    UnescapePlain(text);
    assert RunLines(head, trim, st, scan) == Ok(s1) by {
      FrameRun(1, "layout", trim, st, scan);
      StripRun(text, pos, trim, st, scan);
      RunChain(head, [st, st, s1], trim, scan);
    }
    RunLinesAppend(head, FocusLines(l.focus), trim, st, scan);
    FocusRun(l.focus, trim, s1, scan);
    RunLinesAppend(head + FocusLines(l.focus), tail, trim, st, scan);
    FrameRun(1, "layout", trim, s2, scan);
  }

  function HeadLines(img: SessionImage, id: Option<string>): seq<Line> {
    [ Line(0, [Start("session", RootAttrs(img.created, id, img.schemaVersion))]),
      Line(1, [Start("surfaces", [])]) ]
  }

  lemma HeadRun(img: SessionImage, id: Option<string>, trim: bool, scan: string -> Option<real>)
    ensures RunLines(HeadLines(img, id), trim, INIT, scan)
         == Ok(INIT.(attrs := SessionAttrs(id, Some(img.created), Some(img.schemaVersion))))
  {
    var s1 := INIT.(attrs := SessionAttrs(id, Some(img.created), Some(img.schemaVersion)));
    RootRun(img.created, id, img.schemaVersion, trim, INIT, scan);
    FrameRun(1, "surfaces", trim, s1, scan);
    RunChain(HeadLines(img, id), [INIT, s1, s1], trim, scan);
  }

  lemma RunParts(a: seq<Line>, b: seq<Line>, c: seq<Line>, d: seq<Line>,
                 s0: State, s1: State, s2: State, s3: State, s4: State, trim: bool, scan: string -> Option<real>)
    requires RunLines(a, trim, s0, scan) == Ok(s1) && RunLines(b, trim, s1, scan) == Ok(s2)
    requires RunLines(c, trim, s2, scan) == Ok(s3) && RunLines(d, trim, s3, scan) == Ok(s4)
    ensures RunLines(a + b + c + d, trim, s0, scan) == Ok(s4)
  {
    RunLinesAppend(a, b, trim, s0, scan);
    RunLinesAppend(a + b, c, trim, s0, scan);
    RunLinesAppend(a + b + c, d, trim, s0, scan);
  }

  /** The whole base document, up to an extra block, from the initial state. */
  lemma BaseRun(img: SessionImage, show: real -> string, id: Option<string>, pos: real, trim: bool,
                scan: string -> Option<real>)
    requires PlainFloat(show, img.layout.scrollPos) && scan(FmtFloat(show, img.layout.scrollPos)) == Some(pos)
    ensures RunLines(DocLines(img, show, id, []), trim, INIT, scan)
         == Ok(BaseState(img, id, pos, trim))
  {
    var s1 := INIT.(attrs := SessionAttrs(id, Some(img.created), Some(img.schemaVersion)));
    var s2 := s1.(surfaces := ReadEntries(img.surfaces, trim));
    var s3 := BaseState(img, id, pos, trim);
    HeadRun(img, id, trim, scan);
    SurfacesRun(img.surfaces, trim, s1, scan);
    assert [] + ReadEntries(img.surfaces, trim) == ReadEntries(img.surfaces, trim);
    FrameRun(1, "surfaces", trim, s2, scan);
    LayoutRun(img.layout, show, pos, trim, s2, scan);
    RunParts(HeadLines(img, id), SurfacesLines(img.surfaces), [Line(1, [End("surfaces")])],
             LayoutLines(img.layout, show), INIT, s1, s2, s2, s3, trim, scan);
    BaseLines(img, show, id);
  }

  lemma BaseLines(img: SessionImage, show: real -> string, id: Option<string>)
    ensures DocLines(img, show, id, [])
         == HeadLines(img, id) + SurfacesLines(img.surfaces) + [Line(1, [End("surfaces")])]
         + LayoutLines(img.layout, show)
  {
  }

  function BaseState(img: SessionImage, id: Option<string>, pos: real, trim: bool): State {
    INIT.(attrs := SessionAttrs(id, Some(img.created), Some(img.schemaVersion)),
          surfaces := ReadEntries(img.surfaces, trim),
          layout := Layout(pos, img.layout.focus))
  }
}
