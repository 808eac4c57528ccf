/**
 * What the parser returns, whatever the document: when that image is written and read without change,
 * and a document for which it is not. The reader trims a text before it resolves character references.
 */
module ParsedForm {
  import opened Wrappers
  import opened Text
  import opened Xml
  import opened Session
  import opened SessionParse
  import opened SessionRoundTrip
  import opened SessionLaws
  import opened Nesting
  import Sorting

  /** No whitespace at either end. */
  predicate Solid(s: string) { s == "" || (!IsXmlSpace(s[0]) && !IsXmlSpace(s[|s| - 1])) }

  lemma SolidTrim(s: string)
    requires Solid(s)
    ensures Trim(s) == s
  {
  }

  lemma SolidAppend(a: string, b: string)
    requires Solid(a) && Solid(b)
    ensures Solid(a + b)
  {
  }

  // ---- the reader reports solid text ----

  /** Each text is as read: trimmed before its references are resolved. */
  predicate SolidRaws(toks: seq<Tok>) { forall t :: t in toks && t.Chars? ==> t.raw != "" && Solid(t.raw) }

  lemma {:induction false} LexedSolid(s: string)
    requires Lex(s, true).Some?
    ensures SolidRaws(Lex(s, true).value)
    decreases |s|
  {
    var t := TrimStart(s);
    hide LexTag, TrimStart;
    if t != "" {
      if t[0] != '<' {
        var n := Find(t, '<');
        LexedSolid(t[n..]);
        TrimEndNonBlank(t[..n]);
        TrimEndKeepsHead(t[..n]);
      } else {
        var tag := LexTag(t).value;
        LexedSolid(tag.1);
        TagIsNoText(t);
      }
    }
  }

  /** No numeric character reference begins in this text. */
  predicate NoReference(s: string) { forall i :: 0 <= i < |s| - 1 && s[i] == '&' ==> s[i + 1] != '#' }

  predicate PlainRaws(toks: seq<Tok>) { forall t :: t in toks && t.Chars? ==> NoReference(t.raw) }

  lemma NoReferenceCut(s: string, k: nat)
    requires NoReference(s) && k <= |s|
    ensures NoReference(s[..k]) && NoReference(s[k..])
  {
  }

  lemma {:induction false} TrimStartSuffix(s: string) returns (k: nat)
    ensures k <= |s| && TrimStart(s) == s[k..]
  {
    if s != "" && IsXmlSpace(s[0]) {
      k := TrimStartSuffix(s[1..]);
      assert s[1..][k..] == s[k + 1..];
      k := k + 1;
    } else {
      k := 0;
    }
  }

  lemma NoReferenceTrimmed(s: string)
    requires NoReference(s)
    ensures NoReference(TrimStart(s)) && NoReference(TrimEnd(s))
  {
    hide NoReference, TrimStart, TrimEnd;
    var k := TrimStartSuffix(s);
    TrimEndKeepsHead(s);
    NoReferenceCut(s, k);
    NoReferenceCut(s, |TrimEnd(s)|);
    assert TrimEnd(s) == s[..|TrimEnd(s)|];
  }

  /** What is left of the text behind a tag is the end of it. */
  lemma {:induction false} AttrsTail(t: string)
    requires LexAttrs(t).Some?
    ensures var rest := LexAttrs(t).value.2; |rest| <= |t| && rest == t[|t| - |rest|..]
    decreases |t|
  {
    if !(">" <= t) && !("/>" <= t) {
      var a := LexAttr(t[1..]).value;
      AttrsTail(a.1);
    }
  }

  lemma TagTail(t: string)
    requires "<" <= t && LexTag(t).Some?
    ensures var rest := LexTag(t).value.1; |rest| <= |t| && rest == t[|t| - |rest|..]
  {
    if !("</" <= t) && !("<?" <= t) {
      AttrsTail(t[1 + SpanName(t[1..])..]);
    }
  }

  lemma {:induction false} LexedPlain(s: string)
    requires NoReference(s) && Lex(s, true).Some?
    ensures PlainRaws(Lex(s, true).value)
    decreases |s|
  {
    var t := TrimStart(s);
    NoReferenceTrimmed(s);
    hide LexTag, TrimStart, NoReference;
    if t != "" {
      if t[0] != '<' {
        var n := Find(t, '<');
        NoReferenceCut(t, n);
        NoReferenceTrimmed(t[..n]);
        LexedPlain(t[n..]);
      } else {
        var rest := LexTag(t).value.1;
        TagTail(t);
        NoReferenceCut(t, |t| - |rest|);
        LexedPlain(rest);
        TagIsNoText(t);
      }
    }
  }

  lemma TagIsNoText(t: string)
    requires "<" <= t && LexTag(t).Some?
    ensures !LexTag(t).value.0.Chars?
  {
  }

  // ---- unescaping keeps text solid ----

  lemma {:induction false} UnescapeEdges(s: string)
    requires s != "" && NoReference(s) && Unescape(s).Some?
    ensures var u := Unescape(s).value;
            u != "" && (IsXmlSpace(u[0]) ==> IsXmlSpace(s[0])) && (IsXmlSpace(u[|u| - 1]) ==> IsXmlSpace(s[|s| - 1]))
    decreases |s|
  {
    var t := UnescapeFirst(s);
    var u := Unescape(s).value;
    hide Unescape;
    if t != "" {
      NoReferenceCut(s, |s| - |t|);
      hide NoReference;
      UnescapeEdges(t);
      assert u[|u| - 1] == u[1..][|u| - 2] && s[|s| - 1] == t[|t| - 1];
    } else {
      assert |u| == 1;
    }
  }

  lemma NoReferencePrefix(s: string)
    requires NoReference(s)
    ensures !("&#" <= s)
  {
    assert |s| > 1 && s[0] == '&' ==> s[0 + 1] != '#';
  }

  /** Unescaping takes off a character or an entity, and gives one character for it. */
  lemma UnescapeFirst(s: string) returns (t: string)
    requires s != "" && NoReference(s) && Unescape(s).Some?
    ensures |t| < |s| && s[|s| - |t|..] == t && Unescape(t).Some?
    ensures var u := Unescape(s).value; u != "" && u[1..] == Unescape(t).value
    ensures IsXmlSpace(Unescape(s).value[0]) ==> IsXmlSpace(s[0]) && |t| == |s| - 1
    ensures t == "" ==> Unescape(t) == Some("")
  {
    NoReferencePrefix(s);
    t := s[(if s[0] != '&' then 1 else if "&amp;" <= s then 5 else if "&lt;" <= s || "&gt;" <= s then 4 else 6)..];
  }

  /** Each text has no edge whitespace once it is unescaped. */
  predicate SolidTexts(toks: seq<Tok>) {
    forall t :: t in toks && t.Chars? && Unescape(t.raw).Some? ==> Solid(Unescape(t.raw).value)
  }

  lemma PlainSolid(toks: seq<Tok>)
    requires SolidRaws(toks) && PlainRaws(toks)
    ensures SolidTexts(toks)
  {
    hide Unescape, NoReference;
    forall t | t in toks && t.Chars? && Unescape(t.raw).Some? ensures Solid(Unescape(t.raw).value) {
      UnescapeEdges(t.raw);
    }
  }

  // ---- and the parser keeps it ----

  predicate SolidField(o: Option<string>) { o.Some? ==> Solid(o.value) }

  predicate SolidBuilder(b: SurfaceBuilder) { SolidField(b.address) && SolidField(b.machine) && SolidField(b.capture) }

  predicate SolidEntry(e: SurfaceEntry) { Solid(e.host.address) && Solid(e.host.machine) && Solid(e.host.capture) }

  predicate SolidState(st: State) {
    && Solid(st.buf) && (st.cur.Some? ==> SolidBuilder(st.cur.value))
    && forall e :: e in st.surfaces ==> SolidEntry(e)
  }

  lemma StartSolid(st: State, k: Elem, attrs: seq<Attr>, scan: string -> Option<real>)
    requires SolidState(st) && StartElement(st, k, attrs, scan).Ok?
    ensures SolidState(StartElement(st, k, attrs, scan).value.(buf := ""))
  {
    hide Solid, ParseSessionAttrs, AttrU32, AttrF32, AttrStr, ParseSurfaceId, SolidEntry;
    EmptySolid();
  }

  lemma EmptySolid()
    ensures Solid("")
  {
  }

  lemma EndSolid(st: State, k: Elem)
    requires SolidState(st) && EndElement(st, k).Ok?
    ensures SolidState(EndElement(st, k).value)
  {
    hide Solid, OsFromStr, CodecFromStr;
    EmptySolid();
  }

  lemma StepSolid(st: State, t: Tok, scan: string -> Option<real>)
    requires SolidState(st) && Step(st, t, scan).Ok?
    requires t.Chars? && Unescape(t.raw).Some? ==> Solid(Unescape(t.raw).value)
    ensures SolidState(Step(st, t, scan).value)
  {
    match t
    case Start(n, a) => StartSolid(st, KindOf(n), a, scan);
    case Empty(n, a) => StartSolid(st, KindOf(n), a, scan);
    case End(n) => EndSolid(st, KindOf(n));
    case Chars(raw) =>
      if st.target.Some? {
        SolidAppend(st.buf, Unescape(raw).value);
      }
    case Decl =>
  }

  lemma {:induction false} RunSolid(toks: seq<Tok>, st: State, scan: string -> Option<real>)
    requires SolidTexts(toks) && SolidState(st) && Run(toks, st, scan).Ok?
    ensures SolidState(Run(toks, st, scan).value)
  {
    if toks != [] {
      hide SolidState, Step;
      assert toks[0] in toks && forall t :: t in toks[1..] ==> t in toks;
      StepSolid(st, toks[0], scan);
      RunSolid(toks[1..], Step(st, toks[0], scan).value, scan);
    }
  }

  lemma SolidEntryRead(e: SurfaceEntry)
    requires SolidEntry(e)
    ensures ReadEntry(e, true) == e
  {
    SolidTrim(e.host.address);
    SolidTrim(e.host.machine);
    SolidTrim(e.host.capture);
  }

  /** The texts of every host are without edge whitespace. */
  ghost predicate TrimmedTexts(img: SessionImage) {
    forall e :: e in img.surfaces ==>
      Trim(e.host.address) == e.host.address && Trim(e.host.machine) == e.host.machine
      && Trim(e.host.capture) == e.host.capture
  }

  /** Whatever the document, the image comes in order, and is storable exactly when its texts are trimmed. */
  lemma ParsedStorable(xml: string, scan: string -> Option<real>)
    requires Parsed(xml, scan).Ok?
    ensures var img := Parsed(xml, scan).value;
            Sorting.SortedBy(img.surfaces, OrderOf) && (Storable(img) <==> TrimmedTexts(img))
  {
    var img := Parsed(xml, scan).value;
    var st := Run(Events(xml).value, INIT, scan).value;
    Sorting.StableSortSound(st.surfaces, OrderOf);
    assert Sorting.SortedBy(img.surfaces, OrderOf);
    hide Parsed, Run, Events, Sorting.SortedBy, Trim;
    if TrimmedTexts(img) {
      forall i | 0 <= i < |img.surfaces| ensures ReadEntry(img.surfaces[i], true) == img.surfaces[i] {
        assert img.surfaces[i] in img.surfaces;
      }
    }
    if Storable(img) {
      forall e | e in img.surfaces
        ensures Trim(e.host.address) == e.host.address && Trim(e.host.machine) == e.host.machine
                && Trim(e.host.capture) == e.host.capture
      {
        var i :| 0 <= i < |img.surfaces| && img.surfaces[i] == e;
        assert ReadEntry(e, true) == e;
      }
    }
  }

  /** Texts whose unescaped form has no edge whitespace make a storable image. */
  lemma SolidTextsStorable(xml: string, scan: string -> Option<real>)
    requires Parsed(xml, scan).Ok? && SolidTexts(Events(xml).value)
    ensures Storable(Parsed(xml, scan).value)
  {
    var toks := Events(xml).value;
    var st := Run(toks, INIT, scan).value;
    RunSolid(toks, INIT, scan);
    Sorting.StableSortSound(st.surfaces, OrderOf);
    Sorting.SortLength(st.surfaces, OrderOf);
    var sorted := SortSurfaces(st.surfaces);
    hide Events, Run, SolidEntry, ReadEntry;
    forall i | 0 <= i < |sorted| ensures ReadEntry(sorted[i], true) == sorted[i] {
      assert sorted[i] in st.surfaces;
      SolidEntryRead(sorted[i]);
    }
  }

  /** A document without numeric character references parses to a storable image. */
  lemma PlainDocumentStorable(xml: string, scan: string -> Option<real>)
    requires NoReference(xml) && Parsed(xml, scan).Ok?
    ensures Storable(Parsed(xml, scan).value)
  {
    hide NoReference;
    LexedSolid(xml);
    LexedPlain(xml);
    PlainSolid(Lex(xml, true).value);
    hide Parsed, SolidTexts;
    SolidTextsStorable(xml, scan);
  }

  /**
   * An accepted document, written again, reads back as the image it was read as exactly when that
   * image is storable.
   */
  lemma ParsedReserialises(xml: string, show: real -> string, scan: string -> Option<real>, sha: seq<byte> -> Digest)
    requires Parsed(xml, scan).Ok? && Prints(show, scan, Parsed(xml, scan).value.layout.scrollPos)
    ensures var img := Parsed(xml, scan).value;
            Parsed(ToXml(img, show, sha), scan) == Ok(img.(id := Some(IdOf(img, show, sha)))) <==> Storable(img)
  {
    var img := Parsed(xml, scan).value;
    var id := IdOf(img, show, sha);
    XmlRoundTrip(img, show, scan, sha);
    NormalisedFixedPoint(img.(id := Some(id)), id);
    hide Parsed, IdOf;
    assert Normalised(img, id) == Normalised(img.(id := Some(id)), id);
    assert Storable(img) <==> Storable(img.(id := Some(id)));
  }

  // ---- a document that is not read back ----

  const SPACED := "&#32;m"

  lemma ReferenceUnescapes(ref: string, c: char, tail: string)
    requires ';' !in ref && CharRef(ref) == Some(c) && Unescape(tail).Some?
    ensures Unescape("&#" + ref + ";" + tail) == Some([c] + Unescape(tail).value)
  {
    var s := "&#" + ref + ";" + tail;
    assert s[0] == '&' && s[1] == '#' && "&#" <= s;
    assert forall i :: 0 <= i < 2 + |ref| ==> s[i] == ("&#" + ref)[i];
    FindAt(s, ';', 2 + |ref|);
    assert s[2..2 + |ref|] == ref && s[2 + |ref| + 1..] == tail;
    hide CharRef;
  }

  lemma SpaceRef()
    ensures CharRef("32") == Some(' ') && ';' !in "32"
  {
    assert "32"[..1] == "3" && "3"[..0] == "";
    assert DigitsValue("") == 0 && DigitsValue("3") == 3 && DigitsValue("32") == 32;
    assert 32 as char == ' ';
  }

  lemma SpacedReads()
    ensures Unescape(SPACED) == Some(" m")
  {
    SpaceRef();
    UnescapePlain("m");
    hide CharRef, Unescape;
    ReferenceUnescapes("32", ' ', "m");
    assert SPACED == "&#" + "32" + ";" + "m";
    assert [' '] + "m" == " m";
  }

  lemma SpacedSolid()
    ensures Trim(SPACED) == SPACED && SPACED != "" && '<' !in SPACED
  {
    SolidTrim(SPACED);
  }

  lemma RawReported(tag: string, raw: string)
    requires raw != "" && Trim(raw) == raw
    ensures Reported([Start(tag, []), Chars(raw), End(tag)], true) == [Start(tag, [])] + [Chars(raw)] + [End(tag)]
  {
    var toks := [Start(tag, []), Chars(raw), End(tag)];
    assert toks[1..] == [Chars(raw), End(tag)] && toks[1..][1..] == [End(tag)] && [End(tag)][1..] == [];
    hide Trim;
    assert Reported([End(tag)], true) == [End(tag)];
    assert Reported(toks[1..], true) == [Chars(raw)] + [End(tag)];
  }

  /** A text element with its text spelled in any way. */
  lemma RawTextRun(depth: nat, tag: string, raw: string, text: string, which: TextTarget, st: State,
                   scan: string -> Option<real>)
    requires KindOf(tag) == TextEl(which) && raw != "" && Trim(raw) == raw && Unescape(raw) == Some(text)
    ensures RunLines([Line(depth, [Start(tag, []), Chars(raw), End(tag)])], true, st, scan)
         == (var b := ApplyText(st.cur, st.inHost, Some(which), text);
             if b.Ok? then Ok(st.(cur := Some(b.value), target := None, buf := "")) else Err(b.error))
  {
    hide KindOf, Unescape, Trim, Reported;
    var begun := st.(target := Some(which), buf := "");
    RunOneLine(Line(depth, [Start(tag, []), Chars(raw), End(tag)]), true, st, scan);
    RawReported(tag, raw);
    RunAppend([Start(tag, [])] + [Chars(raw)], [End(tag)], st, scan);
    RunAppend([Start(tag, [])], [Chars(raw)], st, scan);
    RunSingle(Start(tag, []), st, scan);
    RunSingle(Chars(raw), begun, scan);
    assert "" + text == text;
    RunSingle(End(tag), begun.(buf := text), scan);
  }

  /** The one surface of the document, as it is read. */
  function SpacedEntry(): SurfaceEntry {
    SurfaceEntry(seq(32, _ => 0), "", 0, HostEntry("", Linux, " m", ""), H265, 0, 0)
  }

  function SpacedImage(): SessionImage { SessionImage(None, "", 1, [SpacedEntry()], Layout(0.0, None)) }

  function SpacedMachine(): Line { Line(4, [Start("machine", []), Chars(SPACED), End("machine")]) }

  /** The lines of that surface as the writer gives them, but for the machine name. */
  function SpacedHost(): seq<Line> {
    [TextLine(4, "address", ""), TextLine(4, "os", OsToStr(Linux)), SpacedMachine(), TextLine(4, "capture", "")]
  }

  function ZeroSizes(): Line { Line(3, [Empty("dimensions", [Attr("height", Dec(0)), Attr("width", Dec(0))])]) }

  function SpacedSurface(): seq<Line> {
    [Line(3, [Start("host", [])])] + SpacedHost() + [Line(3, [End("host")])]
    + [TextLine(3, "codec", CodecToStr(H265)), ZeroSizes()]
  }

  function SpacedLines(): seq<Line> {
    [Line(0, [Start("session", RootAttrs("", None, 1))])]
    + ([Line(2, [Start("surface", SurfaceAttrs(SpacedEntry()))])] + SpacedSurface() + [Line(2, [End("surface")])])
  }

  /** A document that spells a space as a character reference. */
  function SpacedDocument(): string { RenderLines(SpacedLines(), false) + "</session>" }

  /** Lines the reader takes apart as they were put together. */
  ghost predicate Proper(lines: seq<Line>) { OkLines(lines) && WholeLines(lines) }

  lemma ProperAppend(a: seq<Line>, b: seq<Line>)
    requires Proper(a) && Proper(b)
    ensures Proper(a + b)
  {
    hide WholeLines;
    WholeLinesAppend(a, b);
  }

  lemma {:induction false} EachProper(lines: seq<Line>)
    requires forall l :: l in lines ==> Proper([l])
    ensures Proper(lines)
  {
    if lines != [] {
      assert lines[0] in lines && lines == [lines[0]] + lines[1..];
      hide Proper;
      EachProper(lines[1..]);
      ProperAppend([lines[0]], lines[1..]);
    } else {
      assert WholeLines([]);
    }
  }

  lemma ProperText(depth: nat, tag: string, text: string)
    requires IsName(tag)
    ensures Proper([TextLine(depth, tag, text)])
  {
    hide Whole;
    TextLineOk(depth, tag, text);
    TextWhole(depth, tag, text);
    WholeLine(TextLine(depth, tag, text));
  }

  lemma ProperEmpty(depth: nat, name: string, attrs: seq<Attr>)
    requires IsName(name) && OkAttrs(attrs)
    ensures Proper([Line(depth, [Empty(name, attrs)])])
  {
    TagOk(Empty(name, attrs));
    EmptyTagWhole(depth, name, attrs);
  }

  lemma ProperElement(depth: nat, name: string, attrs: seq<Attr>, lines: seq<Line>)
    requires IsName(name) && OkAttrs(attrs) && Proper(lines)
    ensures Proper([Line(depth, [Start(name, attrs)])] + lines + [Line(depth, [End(name)])])
  {
    hide WholeLines;
    ElementLinesWhole(depth, name, attrs, lines);
    TagOk(Start(name, attrs));
    TagOk(End(name));
  }

  lemma ProperMachine()
    ensures Proper([SpacedMachine()])
  {
    TextNames();
    SpacedSolid();
    NestOne(Chars(SPACED), []);
    WholeElement("machine", [], [Chars(SPACED)]);
    assert SpacedMachine().toks == [Start("machine", [])] + [Chars(SPACED)] + [End("machine")];
    hide Whole;
    WholeLine(SpacedMachine());
  }

  lemma ProperHost()
    ensures Proper(SpacedHost())
  {
    TextNames();
    hide IsName, Proper, TextLine, SpacedMachine, OsToStr;
    ProperText(4, "address", "");
    ProperText(4, "os", OsToStr(Linux));
    ProperText(4, "capture", "");
    ProperMachine();
    EachProper(SpacedHost());
  }

  lemma ProperTail()
    ensures Proper([TextLine(3, "codec", CodecToStr(H265)), ZeroSizes()])
  {
    TextNames();
    SizesOk();
    hide IsName, Proper, TextLine, CodecToStr, OkAttrs, Dec;
    ProperText(3, "codec", CodecToStr(H265));
    ProperEmpty(3, "dimensions", [Attr("height", Dec(0)), Attr("width", Dec(0))]);
    EachProper([TextLine(3, "codec", CodecToStr(H265)), ZeroSizes()]);
  }

  lemma SizesOk()
    ensures IsName("dimensions") && OkAttrs([Attr("height", Dec(0)), Attr("width", Dec(0))])
  {
    SurfaceNames();
    SurfaceAttrsOk(SpacedEntry());
  }

  lemma ProperSurface()
    ensures Proper(SpacedSurface())
  {
    TextNames();
    hide IsName, Proper, SpacedHost, ZeroSizes, TextLine;
    ProperHost();
    ProperTail();
    ProperElement(3, "host", [], SpacedHost());
    ProperAppend([Line(3, [Start("host", [])])] + SpacedHost() + [Line(3, [End("host")])],
                 [TextLine(3, "codec", CodecToStr(H265)), ZeroSizes()]);
  }

  lemma SpacedEvents()
    ensures Events(SpacedDocument()) == Some(Reported(Flat(SpacedLines()), true) + [End("session")])
  {
    var root := Start("session", RootAttrs("", None, 1));
    var attrs := SurfaceAttrs(SpacedEntry());
    var body := [Line(2, [Start("surface", attrs)])] + SpacedSurface() + [Line(2, [End("surface")])];
    SurfaceNames();
    SurfaceAttrsOk(SpacedEntry());
    RootOk("", None, 1);
    TagOk(root);
    ProperSurface();
    hide IsName, OkAttrs, OkTok, OkToks, SpacedSurface, SurfaceAttrs, RootAttrs, Lex, Whole, WholeLines;
    ProperElement(2, "surface", attrs, SpacedSurface());
    DocCloses(root, body, true);
    assert OkLines([Line(0, [root])] + body);
    hide OkLines, Proper;
    LexLines(SpacedLines(), "</session>", false, true);
    LexTail(true);
  }

  // what the parser makes of it

  lemma SpacedMachineRun(st: State, scan: string -> Option<real>)
    requires InHost(st)
    ensures RunLines([SpacedMachine()], true, st, scan)
         == Ok(WithHost(st, st.cur.value.(machine := Some(" m"))))
  {
    TextKinds();
    SpacedReads();
    SpacedSolid();
    hide RunLines, KindOf, Unescape, Trim, SPACED;
    RawTextRun(4, "machine", SPACED, " m", Machine, st, scan);
  }

  lemma TwoLinesRun(a: Line, b: Line, s0: State, s1: State, s2: State, scan: string -> Option<real>)
    requires RunLines([a], true, s0, scan) == Ok(s1) && RunLines([b], true, s1, scan) == Ok(s2)
    ensures RunLines([a, b], true, s0, scan) == Ok(s2)
  {
    assert [a] + [b] == [a, b];
    hide RunLines;
    RunLinesAppend([a], [b], true, s0, scan);
  }

  lemma SpacedHostRun(st: State, b: SurfaceBuilder, scan: string -> Option<real>)
    requires st == WithHost(st, b) && st.inHost
    ensures RunLines(SpacedHost(), true, st, scan)
         == Ok(WithHost(st, b.(address := Some(""), os := Some(Linux), machine := Some(" m"), capture := Some(""))))
  {
    var head := [TextLine(4, "address", ""), TextLine(4, "os", OsToStr(Linux))];
    var tail := [SpacedMachine(), TextLine(4, "capture", "")];
    var mid := WithHost(st, b.(address := Some(""), os := Some(Linux)));
    assert head + tail == SpacedHost();
    assert RunLines(head, true, st, scan) == Ok(mid) by {
      hide RunLines, TextLine, SpacedMachine, OsToStr, SpacedHost;
      AddressRun("", true, st, scan);
      OsRun(Linux, true, WithHost(st, b.(address := Some(""))), scan);
      TwoLinesRun(head[0], head[1], st, WithHost(st, b.(address := Some(""))), mid, scan);
    }
    assert RunLines(tail, true, mid, scan)
        == Ok(WithHost(mid, mid.cur.value.(machine := Some(" m"), capture := Some("")))) by {
      hide RunLines, TextLine, SpacedMachine, OsToStr, SpacedHost;
      var s := WithHost(mid, mid.cur.value.(machine := Some(" m")));
      SpacedMachineRun(mid, scan);
      CaptureRun("", true, s, scan);
      TwoLinesRun(tail[0], tail[1], mid, s, WithHost(s, s.cur.value.(capture := Some(""))), scan);
    }
    hide RunLines, TextLine, SpacedMachine, OsToStr, SpacedHost;
    RunLinesAppend(head, tail, true, st, scan);
  }

  /** The builder once the host is read. */
  function SpacedHosted(b: SurfaceBuilder): SurfaceBuilder {
    b.(address := Some(""), os := Some(Linux), machine := Some(" m"), capture := Some(""))
  }

  lemma SpacedHostElementRun(st: State, b: SurfaceBuilder, scan: string -> Option<real>)
    requires st == WithHost(st, b) && !st.inHost
    ensures RunLines([Line(3, [Start("host", [])])] + SpacedHost() + [Line(3, [End("host")])], true, st, scan)
         == Ok(WithHost(st, SpacedHosted(b)))
  {
    var open, close := [Line(3, [Start("host", [])])], [Line(3, [End("host")])];
    var s1 := st.(inHost := true);
    var s2 := WithHost(s1, SpacedHosted(b));
    hide RunLines, SpacedHost;
    HostTagsRun(true, st, scan);
    SpacedHostRun(s1, b, scan);
    HostTagsRun(true, s2, scan);
    RunLinesAppend(open, SpacedHost(), true, st, scan);
    RunLinesAppend(open + SpacedHost(), close, true, st, scan);
  }

  lemma SpacedTailRun(st: State, b: SurfaceBuilder, scan: string -> Option<real>)
    requires st == WithHost(st, b)
    ensures RunLines([TextLine(3, "codec", CodecToStr(H265)), ZeroSizes()], true, st, scan)
         == Ok(WithHost(st, b.(codec := Some(H265), width := Some(0), height := Some(0))))
  {
    hide RunLines, TextLine, CodecToStr, Dec;
    var s := WithHost(st, b.(codec := Some(H265)));
    CodecRun(H265, true, st, scan);
    DimensionsRun(SpacedEntry(), true, s, scan);
    TwoLinesRun(TextLine(3, "codec", CodecToStr(H265)), ZeroSizes(), st, s,
                WithHost(s, b.(codec := Some(H265), width := Some(0), height := Some(0))), scan);
  }

  lemma SpacedSurfaceRun(st: State, scan: string -> Option<real>)
    requires st == WithHost(st, Fresh(SpacedEntry())) && !st.inHost
    ensures RunLines(SpacedSurface(), true, st, scan) == Ok(WithHost(st, Filled(SpacedEntry(), false)))
  {
    var b := Fresh(SpacedEntry());
    var host := [Line(3, [Start("host", [])])] + SpacedHost() + [Line(3, [End("host")])];
    assert SpacedHosted(b).(codec := Some(H265), width := Some(0), height := Some(0)) == Filled(SpacedEntry(), false);
    hide RunLines, TextLine, SpacedHost, CodecToStr, ZeroSizes, SpacedHosted, Filled;
    SpacedHostElementRun(st, b, scan);
    SpacedTailRun(WithHost(st, SpacedHosted(b)), SpacedHosted(b), scan);
    RunLinesAppend(host, [TextLine(3, "codec", CodecToStr(H265)), ZeroSizes()], true, st, scan);
  }

  lemma SpacedBuilds()
    ensures Filled(SpacedEntry(), false).Build() == Ok(SpacedEntry())
  {
    FilledBuilds(SpacedEntry(), false);
  }

  function SpacedState(): State {
    INIT.(attrs := SessionAttrs(None, Some(""), Some(1)), surfaces := [SpacedEntry()])
  }

  lemma SpacedRun(scan: string -> Option<real>)
    ensures RunLines(SpacedLines(), true, INIT, scan) == Ok(SpacedState())
  {
    var e := SpacedEntry();
    var root := [Line(0, [Start("session", RootAttrs("", None, 1))])];
    var open, close := [Line(2, [Start("surface", SurfaceAttrs(e))])], [Line(2, [End("surface")])];
    var s1 := INIT.(attrs := SessionAttrs(None, Some(""), Some(1)));
    var s2 := s1.(cur := Some(Fresh(e)));
    var s3 := s2.(cur := Some(Filled(e, false)));
    assert s2 == WithHost(s2, Fresh(e)) && !s2.inHost && s3 == WithHost(s2, Filled(e, false));
    assert s3.(cur := None, surfaces := s3.surfaces + [e]) == SpacedState();
    assert SpacedLines() == root + (open + SpacedSurface() + close);
    SpacedBuilds();
    hide RunLines, SpacedSurface, SurfaceAttrs, RootAttrs, Filled, SurfaceBuilder.Build, SpacedEntry, SpacedLines,
      SpacedState, WithHost;
    RootRun("", None, 1, true, INIT, scan);
    SurfaceOpenRun(e, true, s1, scan);
    SpacedSurfaceRun(s2, scan);
    SurfaceCloseRun(true, s3, Filled(e, false), e, scan);
    Joined(root, open, SpacedSurface(), close);
    RunParts(root, open, SpacedSurface(), close, INIT, s1, s2, s3, SpacedState(), true, scan);
  }

  lemma Joined<T>(a: seq<T>, b: seq<T>, c: seq<T>, d: seq<T>)
    ensures a + (b + c + d) == a + b + c + d
  {
  }

  /**
   * The document is accepted, its image is not storable, and written again it reads back with another
   * machine name.
   */
  lemma ReferenceNotKept(show: real -> string, scan: string -> Option<real>, sha: seq<byte> -> Digest)
    requires Prints(show, scan, 0.0)
    ensures Parsed(SpacedDocument(), scan) == Ok(SpacedImage()) && !Storable(SpacedImage())
    ensures var again := Parsed(ToXml(SpacedImage(), show, sha), scan);
            again.Ok? && |again.value.surfaces| == 1 && again.value.surfaces[0].host.machine == "m"
  {
    var img := SpacedImage();
    SpacedParsed(scan);
    SpacedNormal(img, IdOf(img, show, sha));
    XmlRoundTrip(img, show, scan, sha);
  }

  lemma SpacedParsed(scan: string -> Option<real>)
    ensures Parsed(SpacedDocument(), scan) == Ok(SpacedImage())
  {
    var st := SpacedState();
    assert Finish(st) == Ok(SpacedImage()) by {
      Sorting.SortFixedPoint([SpacedEntry()], OrderOf);
    }
    hide Events, Run, RunLines, Reported, Flat, SpacedLines, SpacedDocument, Finish, SpacedEntry, SpacedState;
    SpacedEvents();
    SpacedRun(scan);
    RunLinesIsRun(SpacedLines(), true, INIT, scan);
    RunAppend(Reported(Flat(SpacedLines()), true), [End("session")], INIT, scan);
    EndSessionRun(st, scan);
  }

  lemma SpacedNormal(img: SessionImage, id: string)
    requires img == SpacedImage()
    ensures !Storable(img)
    ensures |Normalised(img, id).surfaces| == 1 && Normalised(img, id).surfaces[0].host.machine == "m"
  {
    var e := SpacedEntry();
    assert Trim(" m") == "m" by {
      assert " m"[1..] == "m";
    }
    assert ReadEntries([e], true) == [ReadEntry(e, true)];
    Sorting.SortFixedPoint([ReadEntry(e, true)], OrderOf);
    assert ReadEntry(img.surfaces[0], true) != img.surfaces[0];
  }
}
