/**
 * The XML carrier's laws: each parser pass is blind to the other's part of a v1 document, and the
 * v1 document parses back to what it was written from, under exact conditions.
 */
module GaloisLaws {
  import opened Wrappers
  import opened Text
  import opened Xml
  import opened Session
  import opened SessionWriter
  import opened SessionParse
  import opened SessionRoundTrip
  import opened Nesting
  import opened Coefficients
  import opened Galois
  import opened GaloisXml
  import opened CoefficientParse

  // ---- names ----

  lemma PrefixedLocal(s: string)
    requires ':' !in s
    ensures LocalName("c:" + s) == s
  {
  }

  /** Every name the v0 parser knows has one of five lengths, and only one has ten letters. */
  lemma UnknownByLength(s: string)
    requires |s| != 2 && |s| != 4 && |s| != 5 && |s| != 7
    requires |s| == 10 ==> s[1] != 'i'
    ensures ElemOf(s) == OtherEl
  {
  }

  /** Every name the coefficient parser knows has eight letters or more. */
  lemma UnknownShort(s: string)
    requires |s| < 8 && ':' !in s
    ensures CKindOf(s) == ForeignEl
  {
  }

  lemma CoefficientsName()
    ensures KindOf("c:coefficients") == OtherEl && CKindOf("c:coefficients") == CoefficientsEl
  {
    hide LocalName, ElemOf;
    PrefixedLocal("coefficients");
    assert "c:" + "coefficients" == "c:coefficients";
    UnknownByLength("coefficients");
  }

  lemma SurfaceCoefficientName()
    ensures KindOf("c:surface-coefficient") == OtherEl && CKindOf("c:surface-coefficient") == SurfaceCoefficientEl
  {
    hide LocalName, ElemOf;
    PrefixedLocal("surface-coefficient");
    assert "c:" + "surface-coefficient" == "c:surface-coefficient";
    UnknownByLength("surface-coefficient");
  }

  lemma TimingName()
    ensures KindOf("c:timing") == OtherEl && CKindOf("c:timing") == ForeignEl
  {
    hide LocalName, ElemOf;
    PrefixedLocal("timing");
    assert "c:" + "timing" == "c:timing";
    UnknownByLength("timing");
    UnknownShort("timing");
  }

  lemma DelayPathName()
    ensures KindOf("c:delay-path") == OtherEl && CKindOf("c:delay-path") == DelayPathEl
  {
    hide LocalName, ElemOf;
    PrefixedLocal("delay-path");
    assert "c:" + "delay-path" == "c:delay-path";
    UnknownByLength("delay-path");
  }

  lemma SecurityName()
    ensures KindOf("c:security") == OtherEl && CKindOf("c:security") == SecurityEl
  {
    hide LocalName, ElemOf;
    PrefixedLocal("security");
    assert "c:" + "security" == "c:security";
    UnknownByLength("security");
  }

  lemma LinearityName()
    ensures KindOf("c:linearity") == OtherEl && CKindOf("c:linearity") == LinearityEl
  {
    hide LocalName, ElemOf;
    PrefixedLocal("linearity");
    assert "c:" + "linearity" == "c:linearity";
    UnknownByLength("linearity");
  }

  lemma LongBaseNames()
    ensures CKindOf("surfaces") == ForeignEl && CKindOf("dimensions") == ForeignEl
  {
    hide ElemOf;
    LocalNamePlain("surfaces");
    LocalNamePlain("dimensions");
    assert "surfaces"[1] == 'u' && "security"[1] == 'e' && "dimensions"[1] == 'i' && "delay-path"[1] == 'e';
  }

  lemma BlockNames()
    ensures IsName("c:coefficients") && IsName("c:timing") && IsName("c:delay-path")
    ensures IsName("c:security") && IsName("c:linearity")
  {
  }

  lemma BlockNames2()
    ensures IsName("c:surface-coefficient") && IsName("confidentiality") && IsName("integrity")
    ensures IsName("hi") && IsName("lo") && IsName("count") && IsName("xmlns:c")
  {
  }

  // ---- the v0 parser does not see the block ----

  predicate UnknownTag(t: Tok) {
    match t case Start(n, _) => KindOf(n) == OtherEl case Empty(n, _) => KindOf(n) == OtherEl
            case End(n) => KindOf(n) == OtherEl case _ => false
  }

  predicate ForeignLines(lines: seq<Line>) {
    forall l :: l in lines ==> |l.toks| == 1 && UnknownTag(l.toks[0])
  }

  lemma {:induction false} ForeignRun(lines: seq<Line>, trim: bool, st: State, scan: string -> Option<real>)
    requires ForeignLines(lines) && st.buf == ""
    ensures RunLines(lines, trim, st, scan) == Ok(st)
  {
    if lines != [] {
      var l := lines[0];
      assert l in lines && l.toks == [l.toks[0]];
      TagRun(l.depth, l.toks[0], trim, st, scan);
      RunOneLine(l, trim, st, scan);
      assert [Line(l.depth, [l.toks[0]])] == [l];
      ForeignRun(lines[1..], trim, st, scan);
    }
  }

  lemma ForeignAppend(a: seq<Line>, b: seq<Line>)
    requires ForeignLines(a) && ForeignLines(b)
    ensures ForeignLines(a + b)
  {
  }

  lemma ForeignOne(depth: nat, t: Tok)
    requires UnknownTag(t)
    ensures ForeignLines([Line(depth, [t])])
  {
  }

  lemma {:induction false} DelayLinesForeign(t: seq<Interval>, show64: real -> string)
    ensures ForeignLines(DelayLines(t, show64))
  {
    if t != [] {
      assert UnknownTag(DelayLine(t[0], show64).toks[0]) by { DelayPathName(); }
      DelayLinesForeign(t[1..], show64);
    }
  }

  lemma BlockTagsForeign(id: SurfaceId)
    ensures ForeignLines([OpenBlockLine(id)]) && ForeignLines([Line(2, [End("c:surface-coefficient")])])
  {
    SurfaceCoefficientName();
    ForeignOne(2, OpenBlockLine(id).toks[0]);
    ForeignOne(2, End("c:surface-coefficient"));
  }

  lemma TimingTagsForeign()
    ensures ForeignLines([Line(3, [Start("c:timing", [])])]) && ForeignLines([Line(3, [End("c:timing")])])
  {
    TimingName();
    ForeignOne(3, Start("c:timing", []));
    ForeignOne(3, End("c:timing"));
  }

  lemma LabelsForeign(c: Coefficient)
    ensures ForeignLines([SecurityLine(c)]) && ForeignLines([LinearityLine(c)])
  {
    assert UnknownTag(SecurityLine(c).toks[0]) by { SecurityName(); }
    assert UnknownTag(LinearityLine(c).toks[0]) by { LinearityName(); }
  }

  lemma ForeignSeven(a: Line, b: Line, d: seq<Line>, e: Line, f: Line, g: Line, h: Line)
    requires ForeignLines([a]) && ForeignLines([b]) && ForeignLines(d) && ForeignLines([e])
    requires ForeignLines([f]) && ForeignLines([g]) && ForeignLines([h])
    ensures ForeignLines([a, b] + d + [e, f, g, h])
  {
  }

  lemma CoefficientLinesForeign(id: SurfaceId, c: Coefficient, show64: real -> string)
    ensures ForeignLines(CoefficientLines(id, c, show64))
  {
    BlockTagsForeign(id);
    TimingTagsForeign();
    LabelsForeign(c);
    DelayLinesForeign(c.timing, show64);
    ForeignSeven(OpenBlockLine(id), Line(3, [Start("c:timing", [])]), DelayLines(c.timing, show64),
                 Line(3, [End("c:timing")]), SecurityLine(c), LinearityLine(c),
                 Line(2, [End("c:surface-coefficient")]));
  }

  lemma {:induction false} EachLinesForeign(es: seq<SurfaceEntry>, cs: seq<SurfaceCoefficient>, show64: real -> string)
    ensures ForeignLines(EachLines(es, cs, show64))
  {
    if es != [] {
      EachLinesForeign(es[1..], cs, show64);
      var c := Lookup(cs, es[0].id);
      if c.Some? {
        CoefficientLinesForeign(es[0].id, c.value, show64);
        ForeignAppend(CoefficientLines(es[0].id, c.value, show64), EachLines(es[1..], cs, show64));
      }
    }
  }

  lemma BlockLinesForeign(x: SessionImageV1, show64: real -> string)
    ensures ForeignLines(BlockLines(x, show64))
  {
    var root := [Attr("xmlns:c", COEFFICIENTS_NAMESPACE)];
    CoefficientsName();
    ForeignOne(1, Start("c:coefficients", root));
    ForeignOne(1, End("c:coefficients"));
    EachLinesForeign(x.base.surfaces, x.coefficients, show64);
    ForeignAppend([Line(1, [Start("c:coefficients", root)])], EachLines(x.base.surfaces, x.coefficients, show64));
  }

  // ---- the block is well formed ----

  predicate PrintsCoefficient(show64: real -> string, scan64: string -> Option<real>, c: Coefficient) {
    forall iv :: iv in c.timing ==> PrintsBound(show64, scan64, iv.lo) && PrintsBound(show64, scan64, iv.hi)
  }

  predicate PrintsAll(show64: real -> string, scan64: string -> Option<real>, cs: seq<SurfaceCoefficient>) {
    forall c :: c in cs ==> PrintsCoefficient(show64, scan64, c.coefficient)
  }

  lemma DelayLineOk(iv: Interval, show64: real -> string, scan64: string -> Option<real>)
    requires PrintsBound(show64, scan64, iv.lo) && PrintsBound(show64, scan64, iv.hi)
    ensures OkToks(DelayLine(iv, show64).toks)
  {
  }

  lemma {:induction false} DelayLinesOk(t: seq<Interval>, show64: real -> string, scan64: string -> Option<real>)
    requires forall iv :: iv in t ==> PrintsBound(show64, scan64, iv.lo) && PrintsBound(show64, scan64, iv.hi)
    ensures OkLines(DelayLines(t, show64))
  {
    if t != [] {
      assert t[0] in t;
      DelayLineOk(t[0], show64, scan64);
      DelayLinesOk(t[1..], show64, scan64);
    }
  }

  lemma LabelLinesOk(c: Coefficient)
    ensures OkToks(SecurityLine(c).toks) && OkToks(LinearityLine(c).toks)
  {
    BlockNames();
    BlockNames2();
    LabelRoundTrip(c.confidentiality, c.integrity);
    LinearityRoundTrip(c.linearity);
    var a, b := Attr("confidentiality", c.confidentiality.ToStr()), Attr("integrity", c.integrity.ToStr());
    OneAttrOk(a);
    OneAttrOk(b);
    OkAttrsAppend([a], [b]);
    OneAttrOk(Attr("count", c.linearity.ToStr()));
    TagOk(SecurityLine(c).toks[0]);
    TagOk(LinearityLine(c).toks[0]);
  }

  lemma FrameLinesOk(id: SurfaceId)
    ensures OkToks(OpenBlockLine(id).toks)
    ensures OkToks([Start("c:timing", [])]) && OkToks([End("c:timing")]) && OkToks([End("c:surface-coefficient")])
  {
    BlockNames();
    BlockNames2();
    FrameAttrNames();
    SurfaceIdRoundTrip(id);
    OneAttrOk(Attr("surface-ref", SurfaceIdToStr(id)));
    TagOk(OpenBlockLine(id).toks[0]);
    TagOk(Start("c:timing", []));
    TagOk(End("c:timing"));
    TagOk(End("c:surface-coefficient"));
  }

  lemma CoefficientLinesOk(id: SurfaceId, c: Coefficient, show64: real -> string, scan64: string -> Option<real>)
    requires PrintsCoefficient(show64, scan64, c)
    ensures OkLines(CoefficientLines(id, c, show64))
  {
    FrameLinesOk(id);
    LabelLinesOk(c);
    DelayLinesOk(c.timing, show64, scan64);
  }

  lemma {:induction false} EachLinesOk(es: seq<SurfaceEntry>, cs: seq<SurfaceCoefficient>,
                                       show64: real -> string, scan64: string -> Option<real>)
    requires PrintsAll(show64, scan64, cs)
    ensures OkLines(EachLines(es, cs, show64))
  {
    if es != [] {
      EachLinesOk(es[1..], cs, show64, scan64);
      var c := Lookup(cs, es[0].id);
      if c.Some? {
        LookupFinds(cs, es[0].id);
        CoefficientLinesOk(es[0].id, c.value, show64, scan64);
      }
    }
  }

  lemma NamespacePlain()
    ensures '"' !in COEFFICIENTS_NAMESPACE
  {
    var n := COEFFICIENTS_NAMESPACE;
    assert n == "https://simulboot.dev/se" + "ssion/v1/coefficients";
    assert '"' !in "https://simulboot.dev/se" && '"' !in "ssion/v1/coefficients";
  }

  lemma BlockLinesOk(x: SessionImageV1, show64: real -> string, scan64: string -> Option<real>)
    requires PrintsAll(show64, scan64, x.coefficients)
    ensures OkLines(BlockLines(x, show64))
  {
    BlockNames();
    BlockNames2();
    EachLinesOk(x.base.surfaces, x.coefficients, show64, scan64);
    NamespacePlain();
    OneAttrOk(Attr("xmlns:c", COEFFICIENTS_NAMESPACE));
    TagOk(Start("c:coefficients", [Attr("xmlns:c", COEFFICIENTS_NAMESPACE)]));
    TagOk(End("c:coefficients"));
  }

  // ---- the block's tags match ----

  lemma {:induction false} DelayLinesWhole(t: seq<Interval>, show64: real -> string)
    ensures WholeLines(DelayLines(t, show64))
  {
    if t != [] {
      hide WholeLines, DelayAttrs;
      EmptyTagWhole(4, "c:delay-path", DelayAttrs(t[0], show64));
      DelayLinesWhole(t[1..], show64);
      WholeLinesAppend([DelayLine(t[0], show64)], DelayLines(t[1..], show64));
    }
  }

  lemma BlockApart<T>(a: T, b: T, c: seq<T>, d: T, e: T, f: T, g: T)
    ensures [a, b] + c + [d, e, f, g] == [a] + ([b] + c + [d] + [e] + [f]) + [g]
  {
  }

  lemma CoefficientLinesWhole(id: SurfaceId, c: Coefficient, show64: real -> string)
    ensures WholeLines(CoefficientLines(id, c, show64))
  {
    var open, close := OpenBlockLine(id), Line(2, [End("c:surface-coefficient")]);
    var timing, timed := Line(3, [Start("c:timing", [])]), Line(3, [End("c:timing")]);
    var delays := DelayLines(c.timing, show64);
    var labels := [Attr("confidentiality", c.confidentiality.ToStr()), Attr("integrity", c.integrity.ToStr())];
    var count := [Attr("count", c.linearity.ToStr())];
    assert SecurityLine(c) == Line(3, [Empty("c:security", labels)]);
    assert LinearityLine(c) == Line(3, [Empty("c:linearity", count)]);
    BlockApart(open, timing, delays, timed, SecurityLine(c), LinearityLine(c), close);
    hide WholeLines, DelayLines, SecurityLine, LinearityLine, SurfaceIdToStr;
    DelayLinesWhole(c.timing, show64);
    ElementLinesWhole(3, "c:timing", [], delays);
    EmptyTagWhole(3, "c:security", labels);
    EmptyTagWhole(3, "c:linearity", count);
    WholeLinesAppend([timing] + delays + [timed], [SecurityLine(c)]);
    WholeLinesAppend([timing] + delays + [timed] + [SecurityLine(c)], [LinearityLine(c)]);
    ElementLinesWhole(2, "c:surface-coefficient", [Attr("surface-ref", SurfaceIdToStr(id))],
                      [timing] + delays + [timed] + [SecurityLine(c)] + [LinearityLine(c)]);
  }

  lemma {:induction false} EachLinesWhole(es: seq<SurfaceEntry>, cs: seq<SurfaceCoefficient>, show64: real -> string)
    ensures WholeLines(EachLines(es, cs, show64))
  {
    if es != [] {
      hide CoefficientLines, Lookup, Whole;
      var c := Lookup(cs, es[0].id);
      EachLinesWhole(es[1..], cs, show64);
      if c.Some? {
        CoefficientLinesWhole(es[0].id, c.value, show64);
        WholeLinesAppend(CoefficientLines(es[0].id, c.value, show64), EachLines(es[1..], cs, show64));
      } else {
        assert [] + EachLines(es[1..], cs, show64) == EachLines(es[1..], cs, show64);
      }
    }
  }

  lemma BlockLinesWhole(x: SessionImageV1, show64: real -> string)
    ensures WholeLines(BlockLines(x, show64))
  {
    hide WholeLines, EachLines, COEFFICIENTS_NAMESPACE;
    EachLinesWhole(x.base.surfaces, x.coefficients, show64);
    ElementLinesWhole(1, "c:coefficients", [Attr("xmlns:c", COEFFICIENTS_NAMESPACE)],
                      EachLines(x.base.surfaces, x.coefficients, show64));
  }

  // ---- the second pass does not see the base ----

  predicate CForeign(t: Tok) {
    match t case Start(n, _) => CKindOf(n) == ForeignEl case Empty(n, _) => CKindOf(n) == ForeignEl
            case End(n) => CKindOf(n) == ForeignEl case _ => true
  }

  predicate CForeignLines(lines: seq<Line>) { forall l :: l in lines ==> forall t :: t in l.toks ==> CForeign(t) }

  lemma {:induction false} CForeignRun(toks: seq<Tok>, trim: bool, st: CState, scan64: string -> Option<real>)
    requires forall t :: t in toks ==> CForeign(t)
    ensures CRun(Reported(toks, trim), st, scan64) == Ok(st)
  {
    if toks != [] {
      assert toks[0] in toks;
      CForeignRun(toks[1..], trim, st, scan64);
      var r := Reported(toks[1..], trim);
      var t := toks[0];
      var txt := if t.Chars? && trim then Trim(t.raw) else if t.Chars? then t.raw else "";
      assert ([t] + r)[1..] == r;
      assert ([Chars(txt)] + r)[1..] == r;
    }
  }

  lemma {:induction false} FlatIn(lines: seq<Line>)
    requires CForeignLines(lines)
    ensures forall t :: t in Flat(lines) ==> CForeign(t)
  {
    if lines != [] {
      FlatIn(lines[1..]);
    }
  }

  lemma CForeignTag(depth: nat, name: string, a: seq<Attr>)
    requires CKindOf(name) == ForeignEl
    ensures CForeignLines([Line(depth, [Start(name, a)])]) && CForeignLines([Line(depth, [End(name)])])
    ensures CForeignLines([Line(depth, [Empty(name, a)])])
  {
  }

  lemma CForeignAppend(a: seq<Line>, b: seq<Line>)
    requires CForeignLines(a) && CForeignLines(b)
    ensures CForeignLines(a + b)
  {
  }

  lemma CForeignSix(a: Line, b: Line, c: Line, d: Line, e: Line, f: Line)
    requires CForeignLines([a]) && CForeignLines([b]) && CForeignLines([c])
    requires CForeignLines([d]) && CForeignLines([e]) && CForeignLines([f])
    ensures CForeignLines([a, b, c, d, e, f])
  {
  }

  lemma ShortTag(depth: nat, name: string, a: seq<Attr>)
    requires |name| < 8 && ':' !in name
    ensures CForeignLines([Line(depth, [Start(name, a)])]) && CForeignLines([Line(depth, [End(name)])])
    ensures CForeignLines([Line(depth, [Empty(name, a)])])
  {
  }

  lemma ShortText(depth: nat, tag: string, text: string)
    requires |tag| < 8 && ':' !in tag
    ensures CForeignLines([TextLine(depth, tag, text)])
  {
  }

  lemma HostCForeign(h: HostEntry)
    ensures CForeignLines(HostLines(h))
  {
    ShortTag(3, "host", []);
    ShortText(4, "address", h.address);
    ShortText(4, "os", OsToStr(h.os));
    ShortText(4, "machine", h.machine);
    ShortText(4, "capture", h.capture);
    CForeignSix(Line(3, [Start("host", [])]), TextLine(4, "address", h.address), TextLine(4, "os", OsToStr(h.os)),
                TextLine(4, "machine", h.machine), TextLine(4, "capture", h.capture), Line(3, [End("host")]));
  }

  lemma CForeignThree(a: Line, b: Line, c: Line)
    requires CForeignLines([a]) && CForeignLines([b]) && CForeignLines([c])
    ensures CForeignLines([a, b, c])
  {
  }

  lemma TailCForeign(e: SurfaceEntry)
    ensures CForeignLines(TailLines(e))
  {
    LongBaseNames();
    CForeignTag(3, "dimensions", [Attr("height", Dec(e.height)), Attr("width", Dec(e.width))]);
    ShortText(3, "codec", CodecToStr(e.codec));
    ShortTag(2, "surface", []);
    CForeignThree(TextLine(3, "codec", CodecToStr(e.codec)), DimensionsLine(e), Line(2, [End("surface")]));
  }

  lemma SurfaceTagCForeign(e: SurfaceEntry)
    ensures CForeignLines([OpenLine(e)])
  {
    ShortTag(2, "surface", SurfaceAttrs(e));
  }

  lemma SurfaceCForeign(e: SurfaceEntry)
    ensures CForeignLines(SurfaceLines(e))
  {
    hide *;
    HostCForeign(e.host);
    TailCForeign(e);
    SurfaceTagCForeign(e);
    CForeignAppend([OpenLine(e)], HostLines(e.host));
    CForeignAppend([OpenLine(e)] + HostLines(e.host), TailLines(e));
    SurfaceParts(e);
  }

  lemma {:induction false} SurfacesCForeign(es: seq<SurfaceEntry>)
    ensures CForeignLines(SurfacesLines(es))
  {
    if es != [] {
      SurfaceCForeign(es[0]);
      SurfacesCForeign(es[1..]);
      CForeignAppend(SurfaceLines(es[0]), SurfacesLines(es[1..]));
    }
  }

  lemma LayoutCForeign(l: Layout, show: real -> string)
    ensures CForeignLines(LayoutLines(l, show))
  {
    hide CForeign, TextLine, EscapeAttr, FmtFloat;
    UnknownShort("layout");
    UnknownShort("strip");
    var pos := [Attr("scroll-pos", FmtFloat(show, l.scrollPos))];
    CForeignTag(1, "layout", []);
    CForeignTag(2, "strip", pos);
    var a, b, c := [Line(1, [Start("layout", [])])], [Line(2, [Empty("strip", pos)])], [Line(1, [End("layout")])];
    assert LayoutLines(l, show) == a + b + FocusLines(l.focus) + c;
    FocusCForeign(l.focus);
    hide *;
    CForeignAppend(a, b);
    CForeignAppend(a + b, FocusLines(l.focus));
    CForeignAppend(a + b + FocusLines(l.focus), c);
  }

  lemma FocusCForeign(focus: Option<SurfaceId>)
    ensures CForeignLines(FocusLines(focus))
  {
    hide EscapeAttr, SurfaceIdToStr;
    UnknownShort("focus");
    if focus.Some? {
      CForeignTag(2, "focus", [Attr("surface-ref", EscapeAttr(SurfaceIdToStr(focus.value)))]);
    }
  }

  lemma BaseCForeign(img: SessionImage, show: real -> string, id: Option<string>)
    ensures CForeignLines(DocLines(img, show, id, []))
  {
    UnknownShort("session");
    LongBaseNames();
    CForeignTag(0, "session", RootAttrs(img.created, id, img.schemaVersion));
    CForeignTag(1, "surfaces", []);
    SurfacesCForeign(img.surfaces);
    LayoutCForeign(img.layout, show);
    BaseLines(img, show, id);
    var head := [Line(0, [Start("session", RootAttrs(img.created, id, img.schemaVersion))])]
        + [Line(1, [Start("surfaces", [])])];
    assert HeadLines(img, id) == head;
  }

  // ---- the second pass reads the block back ----

  /** The coefficients of the surfaces that have one, in surface order. */
  function InOrder(es: seq<SurfaceEntry>, cs: seq<SurfaceCoefficient>): seq<SurfaceCoefficient> {
    if es == [] then []
    else
      var c := Lookup(cs, es[0].id);
      (if c.Some? then [SurfaceCoefficient(es[0].id, c.value)] else []) + InOrder(es[1..], cs)
  }

  /** Every coefficient that is written has a delay path. */
  predicate Timed(es: seq<SurfaceEntry>, cs: seq<SurfaceCoefficient>) {
    forall e :: e in es ==> Lookup(cs, e.id).Some? ==> Lookup(cs, e.id).value.timing != []
  }

  function CRunLines(lines: seq<Line>, st: CState, scan64: string -> Option<real>): Result<CState, SessionError> {
    CRun(Reported(Flat(lines), true), st, scan64)
  }

  lemma CRunLinesAppend(a: seq<Line>, b: seq<Line>, st: CState, scan64: string -> Option<real>)
    ensures CRunLines(a + b, st, scan64)
         == (var r := CRunLines(a, st, scan64); if r.Ok? then CRunLines(b, r.value, scan64) else r)
  {
    FlatAppend(a, b);
    ReportedAppend(Flat(a), Flat(b), true);
    CRunAppend(Reported(Flat(a), true), Reported(Flat(b), true), st, scan64);
  }

  lemma CTagRun(depth: nat, t: Tok, st: CState, scan64: string -> Option<real>)
    requires !t.Chars?
    ensures CRunLines([Line(depth, [t])], st, scan64) == CStep(st, t, scan64)
  {
    var l := Line(depth, [t]);
    assert [l][1..] == [] && [t][1..] == [];
    assert Flat([l]) == [t];
    assert Reported([t], true) == [t];
    CRunSingle(t, st, scan64);
  }

  lemma DelayRead(b: CoeffBuilder, iv: Interval, show64: real -> string, scan64: string -> Option<real>)
    requires PrintsBound(show64, scan64, iv.lo) && PrintsBound(show64, scan64, iv.hi)
    ensures ReadDelay(b, DelayAttrs(iv, show64), scan64)
         == Ok(b.(timing := b.timing + [iv]))
  {
    var a := DelayAttrs(iv, show64);
    assert "hi"[0] == 'h' && "lo"[0] == 'l';
    BoundRoundTrip(iv.lo, show64, scan64);
    BoundRoundTrip(iv.hi, show64, scan64);
    AttrAt(a, "hi", iv.hi.ToStr(show64));
    AttrPast(a, "lo");
    AttrAt(a[1..], "lo", iv.lo.ToStr(show64));
  }

  lemma DelayRun(iv: Interval, st: CState, show64: real -> string, scan64: string -> Option<real>)
    requires st.inCoeffs && st.cur.Some?
    requires PrintsBound(show64, scan64, iv.lo) && PrintsBound(show64, scan64, iv.hi)
    ensures CRunLines([DelayLine(iv, show64)], st, scan64)
         == Ok(st.(cur := Some(st.cur.value.(timing := st.cur.value.timing + [iv]))))
  {
    DelayPathName();
    assert DelayLine(iv, show64) == Line(4, [Empty("c:delay-path", DelayAttrs(iv, show64))]);
    DelayRead(st.cur.value, iv, show64, scan64);
    hide *;
    DelayTag(4, "c:delay-path", DelayAttrs(iv, show64), st, scan64);
  }

  lemma DelayTag(depth: nat, name: string, a: seq<Attr>, st: CState, scan64: string -> Option<real>)
    requires CKindOf(name) == DelayPathEl && st.inCoeffs && st.cur.Some?
    requires ReadDelay(st.cur.value, a, scan64).Ok?
    ensures CRunLines([Line(depth, [Empty(name, a)])], st, scan64)
         == Ok(st.(cur := Some(ReadDelay(st.cur.value, a, scan64).value)))
  {
    hide CKindOf, CRunLines, ReadDelay;
    CTagRun(depth, Empty(name, a), st, scan64);
  }

  lemma {:induction false} DelaysRun(t: seq<Interval>, st: CState, show64: real -> string,
                                     scan64: string -> Option<real>)
    requires st.inCoeffs && st.cur.Some?
    requires forall iv :: iv in t ==> PrintsBound(show64, scan64, iv.lo) && PrintsBound(show64, scan64, iv.hi)
    ensures CRunLines(DelayLines(t, show64), st, scan64)
         == Ok(st.(cur := Some(st.cur.value.(timing := st.cur.value.timing + t))))
  {
    var b := st.cur.value;
    if t == [] {
      assert b.timing + t == b.timing;
    } else {
      var next := st.(cur := Some(b.(timing := b.timing + [t[0]])));
      DelayRun(t[0], st, show64, scan64);
      CRunLinesAppend([DelayLine(t[0], show64)], DelayLines(t[1..], show64), st, scan64);
      DelaysRun(t[1..], next, show64, scan64);
      Assoc(b.timing, [t[0]], t[1..]);
      assert [t[0]] + t[1..] == t;
    }
  }

  lemma RefRead(id: SurfaceId, a: seq<Attr>)
    requires a == [Attr("surface-ref", SurfaceIdToStr(id))]
    ensures AttrStr(a, "surface-ref") == Ok(SurfaceIdToStr(id))
    ensures ParseSurfaceId(SurfaceIdToStr(id)) == Ok(id)
  {
    hide SurfaceIdToStr, ParseSurfaceId;
    SurfaceIdRoundTrip(id);
    LocalNamePlain("surface-ref");
    AttrAt(a, "surface-ref", SurfaceIdToStr(id));
  }

  lemma OpenBlockStep(id: SurfaceId, a: seq<Attr>, st: CState, scan64: string -> Option<real>)
    requires st.inCoeffs && AttrStr(a, "surface-ref") == Ok(SurfaceIdToStr(id))
    ensures CStep(st, Start("c:surface-coefficient", a), scan64)
            == Ok(st.(cur := Some(CoeffBuilder(id, [], None, None, None))))
  {
    SurfaceCoefficientName();
    SurfaceIdRoundTrip(id);
    hide *;
    OpensCoefficient("c:surface-coefficient", id, a, st, scan64);
  }

  lemma OpensCoefficient(name: string, id: SurfaceId, a: seq<Attr>, st: CState, scan64: string -> Option<real>)
    requires st.inCoeffs && CKindOf(name) == SurfaceCoefficientEl
    requires AttrStr(a, "surface-ref") == Ok(SurfaceIdToStr(id)) && ParseSurfaceId(SurfaceIdToStr(id)) == Ok(id)
    ensures CStep(st, Start(name, a), scan64) == Ok(st.(cur := Some(CoeffBuilder(id, [], None, None, None))))
  {
    hide CKindOf, AttrStr, ParseSurfaceId, SurfaceIdToStr;
  }

  lemma OpenBlockRun(id: SurfaceId, st: CState, scan64: string -> Option<real>)
    requires st.inCoeffs
    ensures CRunLines([OpenBlockLine(id)], st, scan64) == Ok(st.(cur := Some(CoeffBuilder(id, [], None, None, None))))
  {
    hide CRunLines, CStep, AttrStr, ParseSurfaceId, SurfaceIdToStr;
    var a := [Attr("surface-ref", SurfaceIdToStr(id))];
    RefRead(id, a);
    OpenBlockStep(id, a, st, scan64);
    CTagRun(2, Start("c:surface-coefficient", a), st, scan64);
  }

  lemma TimingTagsRun(st: CState, scan64: string -> Option<real>)
    ensures CRunLines([Line(3, [Start("c:timing", [])])], st, scan64) == Ok(st)
    ensures CRunLines([Line(3, [End("c:timing")])], st, scan64) == Ok(st)
  {
    TimingName();
    hide *;
    UnreadTag(3, "c:timing", [], st, scan64);
  }

  /** A tag the second pass does not know. */
  lemma UnreadTag(depth: nat, name: string, a: seq<Attr>, st: CState, scan64: string -> Option<real>)
    requires CKindOf(name) == ForeignEl
    ensures CRunLines([Line(depth, [Start(name, a)])], st, scan64) == Ok(st)
    ensures CRunLines([Line(depth, [End(name)])], st, scan64) == Ok(st)
  {
    hide CKindOf, CRunLines;
    CTagRun(depth, Start(name, a), st, scan64);
    CTagRun(depth, End(name), st, scan64);
  }

  lemma AttrFirst(a: Attr, b: Attr, key: string)
    requires LocalName(a.name) == key && '&' !in a.value
    ensures AttrStr([a, b], key) == Ok(a.value)
  {
    UnescapePlain(a.value);
    AttrAt([a, b], key, a.value);
  }

  lemma AttrSecond(a: Attr, b: Attr, key: string)
    requires LocalName(a.name) != key && LocalName(b.name) == key && '&' !in b.value
    ensures AttrStr([a, b], key) == Ok(b.value)
  {
    UnescapePlain(b.value);
    AttrPast([a, b], key);
    assert [a, b][1..] == [b];
    AttrAt([b], key, b.value);
  }

  lemma LabelNames()
    ensures LocalName("confidentiality") == "confidentiality" && LocalName("integrity") == "integrity"
  {
    LocalNamePlain("confidentiality");
    LocalNamePlain("integrity");
  }

  lemma LabelsRead(c: Coefficient, a: seq<Attr>)
    requires a == [Attr("confidentiality", c.confidentiality.ToStr()), Attr("integrity", c.integrity.ToStr())]
    ensures AttrStr(a, "confidentiality") == Ok(c.confidentiality.ToStr())
    ensures AttrStr(a, "integrity") == Ok(c.integrity.ToStr())
  {
    assert '&' !in c.confidentiality.ToStr() && '&' !in c.integrity.ToStr() by {
      LabelRoundTrip(c.confidentiality, c.integrity);
    }
    LabelNames();
    assert |"confidentiality"| != |"integrity"|;
    AttrFirst(a[0], a[1], "confidentiality");
    AttrSecond(a[0], a[1], "integrity");
  }

  lemma SecurityStep(n: string, c: Coefficient, a: seq<Attr>, st: CState, scan64: string -> Option<real>)
    requires CKindOf(n) == SecurityEl && st.inCoeffs && st.cur.Some?
    requires AttrStr(a, "confidentiality") == Ok(c.confidentiality.ToStr())
             && AttrStr(a, "integrity") == Ok(c.integrity.ToStr())
    ensures CStep(st, Empty(n, a), scan64)
         == Ok(st.(cur := Some(st.cur.value.(confidentiality := Some(c.confidentiality),
                                             integrity := Some(c.integrity)))))
  {
    LabelRoundTrip(c.confidentiality, c.integrity);
    hide CKindOf, AttrStr, Confidentiality.ToStr, Confidentiality.Parse, Integrity.ToStr, Integrity.Parse;
  }

  lemma SecurityRun(c: Coefficient, st: CState, scan64: string -> Option<real>)
    requires st.inCoeffs && st.cur.Some?
    ensures CRunLines([SecurityLine(c)], st, scan64)
         == Ok(st.(cur := Some(st.cur.value.(confidentiality := Some(c.confidentiality),
                                             integrity := Some(c.integrity)))))
  {
    hide CRunLines, AttrStr, CStep, CKindOf, Confidentiality.ToStr, Integrity.ToStr;
    SecurityName();
    var a := [Attr("confidentiality", c.confidentiality.ToStr()), Attr("integrity", c.integrity.ToStr())];
    LabelsRead(c, a);
    SecurityStep("c:security", c, a, st, scan64);
    CTagRun(3, Empty("c:security", a), st, scan64);
  }

  lemma LinearityRun(c: Coefficient, st: CState, scan64: string -> Option<real>)
    requires st.inCoeffs && st.cur.Some?
    ensures CRunLines([LinearityLine(c)], st, scan64)
         == Ok(st.(cur := Some(st.cur.value.(linearity := Some(c.linearity)))))
  {
    hide CRunLines, CKindOf, AttrStr, LocalName;
    LinearityName();
    var a := [Attr("count", c.linearity.ToStr())];
    LinearityRoundTrip(c.linearity);
    LocalNamePlain("count");
    AttrAt(a, "count", c.linearity.ToStr());
    CTagRun(3, Empty("c:linearity", a), st, scan64);
  }

  lemma CloseStep(n: string, b: CoeffBuilder, st: CState, scan64: string -> Option<real>)
    requires st.cur == Some(b) && CKindOf(n).SurfaceCoefficientEl?
    ensures CStep(st, End(n), scan64)
         == if b.Build().Ok? then Ok(st.(cur := None, out := st.out + [b.Build().value])) else Err(b.Build().error)
  {
    hide CKindOf, CoeffBuilder.Build;
  }

  lemma CloseBlockStep(b: CoeffBuilder, st: CState, scan64: string -> Option<real>)
    requires st.cur == Some(b)
    ensures CStep(st, End("c:surface-coefficient"), scan64)
         == if b.Build().Ok? then Ok(st.(cur := None, out := st.out + [b.Build().value])) else Err(b.Build().error)
  {
    hide CKindOf, CoeffBuilder.Build, CStep;
    SurfaceCoefficientName();
    CloseStep("c:surface-coefficient", b, st, scan64);
  }

  lemma CloseBlockRun(b: CoeffBuilder, st: CState, scan64: string -> Option<real>)
    requires st.cur == Some(b)
    ensures CRunLines([Line(2, [End("c:surface-coefficient")])], st, scan64)
         == if b.Build().Ok? then Ok(st.(cur := None, out := st.out + [b.Build().value])) else Err(b.Build().error)
  {
    hide CRunLines, CStep, CoeffBuilder.Build;
    CloseBlockStep(b, st, scan64);
    CTagRun(2, End("c:surface-coefficient"), st, scan64);
  }

  function Gathered(id: SurfaceId, c: Coefficient): CoeffBuilder {
    CoeffBuilder(id, c.timing, Some(c.confidentiality), Some(c.integrity), Some(c.linearity))
  }

  lemma BlockHeadRun(id: SurfaceId, c: Coefficient, st: CState, show64: real -> string, scan64: string -> Option<real>)
    requires st.inCoeffs && PrintsCoefficient(show64, scan64, c)
    ensures CRunLines([OpenBlockLine(id)] + [Line(3, [Start("c:timing", [])])] + DelayLines(c.timing, show64)
                      + [Line(3, [End("c:timing")])], st, scan64)
         == Ok(st.(cur := Some(CoeffBuilder(id, c.timing, None, None, None))))
  {
    var a, b, d, e := [OpenBlockLine(id)], [Line(3, [Start("c:timing", [])])], DelayLines(c.timing, show64),
        [Line(3, [End("c:timing")])];
    var s1 := st.(cur := Some(CoeffBuilder(id, [], None, None, None)));
    var s2 := st.(cur := Some(CoeffBuilder(id, c.timing, None, None, None)));
    assert [] + c.timing == c.timing;
    OpenBlockRun(id, st, scan64);
    TimingTagsRun(s1, scan64);
    DelaysRun(c.timing, s1, show64, scan64);
    TimingTagsRun(s2, scan64);
    CRunLinesAppend(a, b, st, scan64);
    CRunLinesAppend(a + b, d, st, scan64);
    CRunLinesAppend(a + b + d, e, st, scan64);
  }

  lemma BlockTailRun(id: SurfaceId, c: Coefficient, st: CState, scan64: string -> Option<real>)
    requires st.inCoeffs && st.cur == Some(CoeffBuilder(id, c.timing, None, None, None))
    ensures CRunLines([SecurityLine(c)] + [LinearityLine(c)] + [Line(2, [End("c:surface-coefficient")])], st, scan64)
         == if c.timing == [] then Err(Malformed("surface-coefficient missing <timing/delay-path>"))
            else Ok(st.(cur := None, out := st.out + [SurfaceCoefficient(id, c)]))
  {
    var f, g, h := [SecurityLine(c)], [LinearityLine(c)], [Line(2, [End("c:surface-coefficient")])];
    var s3 := st.(cur := Some(st.cur.value.(confidentiality := Some(c.confidentiality),
                                            integrity := Some(c.integrity))));
    var s4 := st.(cur := Some(Gathered(id, c)));
    SecurityRun(c, st, scan64);
    LinearityRun(c, s3, scan64);
    CloseBlockRun(Gathered(id, c), s4, scan64);
    CRunLinesAppend(f, g, st, scan64);
    CRunLinesAppend(f + g, h, st, scan64);
  }

  lemma SevenSplit(a: Line, b: Line, d: seq<Line>, e: Line, f: Line, g: Line, h: Line)
    ensures [a, b] + d + [e, f, g, h] == [a] + [b] + d + [e] + ([f] + [g] + [h])
  {
  }

  /** A written block comes back as its coefficient, or as the missing-timing error. */
  lemma BlockRun(id: SurfaceId, c: Coefficient, st: CState, show64: real -> string, scan64: string -> Option<real>)
    requires st.inCoeffs && PrintsCoefficient(show64, scan64, c)
    ensures CRunLines(CoefficientLines(id, c, show64), st, scan64)
         == if c.timing == [] then Err(Malformed("surface-coefficient missing <timing/delay-path>"))
            else Ok(st.(cur := None, out := st.out + [SurfaceCoefficient(id, c)]))
  {
    var head := [OpenBlockLine(id)] + [Line(3, [Start("c:timing", [])])] + DelayLines(c.timing, show64)
        + [Line(3, [End("c:timing")])];
    var tail := [SecurityLine(c)] + [LinearityLine(c)] + [Line(2, [End("c:surface-coefficient")])];
    var mid := st.(cur := Some(CoeffBuilder(id, c.timing, None, None, None)));
    BlockHeadRun(id, c, st, show64, scan64);
    BlockTailRun(id, c, mid, scan64);
    CRunLinesAppend(head, tail, st, scan64);
    SevenSplit(OpenBlockLine(id), Line(3, [Start("c:timing", [])]), DelayLines(c.timing, show64),
               Line(3, [End("c:timing")]), SecurityLine(c), LinearityLine(c), Line(2, [End("c:surface-coefficient")]));
  }

  lemma {:induction false} EachRun(es: seq<SurfaceEntry>, cs: seq<SurfaceCoefficient>, st: CState,
                                   show64: real -> string, scan64: string -> Option<real>)
    requires st.inCoeffs && st.cur.None? && PrintsAll(show64, scan64, cs)
    ensures CRunLines(EachLines(es, cs, show64), st, scan64)
         == if Timed(es, cs) then Ok(st.(out := st.out + InOrder(es, cs)))
            else Err(Malformed("surface-coefficient missing <timing/delay-path>"))
  {
    if es == [] {
      assert st.out + [] == st.out;
    } else {
      var c := Lookup(cs, es[0].id);
      hide CRunLines, CoefficientLines, Lookup, PrintsCoefficient;
      assert es == [es[0]] + es[1..];
      assert Timed(es, cs) <==> (c.Some? ==> c.value.timing != []) && Timed(es[1..], cs);
      if c.Some? {
        LookupFinds(cs, es[0].id);
        BlockRun(es[0].id, c.value, st, show64, scan64);
        CRunLinesAppend(CoefficientLines(es[0].id, c.value, show64), EachLines(es[1..], cs, show64), st, scan64);
        if c.value.timing != [] {
          var next := st.(out := st.out + [SurfaceCoefficient(es[0].id, c.value)]);
          EachRun(es[1..], cs, next, show64, scan64);
          Assoc(st.out, [SurfaceCoefficient(es[0].id, c.value)], InOrder(es[1..], cs));
        }
      } else {
        EachRun(es[1..], cs, st, show64, scan64);
        assert [] + EachLines(es[1..], cs, show64) == EachLines(es[1..], cs, show64);
        assert [] + InOrder(es[1..], cs) == InOrder(es[1..], cs);
      }
    }
  }
}
