/**
 * The XML carrier of a v1 image: the coefficient block and its writer. `show64` stands for `f64`
 * formatting.
 */
module GaloisXml {
  import opened Wrappers
  import opened Text
  import opened Xml
  import opened Session
  import opened SessionWriter
  import opened Coefficients
  import opened Galois

  const COEFFICIENTS_NAMESPACE := "https://simulboot.dev/session/v1/coefficients"

  // ---- the block, line by line ----

  function DelayLine(iv: Interval, show64: real -> string): Line {
    Line(4, [Empty("c:delay-path", DelayAttrs(iv, show64))])
  }

  function DelayAttrs(iv: Interval, show64: real -> string): seq<Attr> {
    [Attr("hi", iv.hi.ToStr(show64)), Attr("lo", iv.lo.ToStr(show64))]
  }

  function DelayLines(t: seq<Interval>, show64: real -> string): seq<Line> {
    if t == [] then [] else [DelayLine(t[0], show64)] + DelayLines(t[1..], show64)
  }

  function SecurityLine(c: Coefficient): Line {
    Line(3, [Empty("c:security", [ Attr("confidentiality", c.confidentiality.ToStr()),
                                   Attr("integrity", c.integrity.ToStr()) ])])
  }

  function LinearityLine(c: Coefficient): Line {
    Line(3, [Empty("c:linearity", [Attr("count", c.linearity.ToStr())])])
  }

  function OpenBlockLine(id: SurfaceId): Line {
    Line(2, [Start("c:surface-coefficient", [Attr("surface-ref", SurfaceIdToStr(id))])])
  }

  function CoefficientLines(id: SurfaceId, c: Coefficient, show64: real -> string): seq<Line> {
    [OpenBlockLine(id), Line(3, [Start("c:timing", [])])]
    + DelayLines(c.timing, show64)
    + [Line(3, [End("c:timing")]), SecurityLine(c), LinearityLine(c), Line(2, [End("c:surface-coefficient")])]
  }

  /** Surfaces in list order; one without a coefficient is skipped. */
  function EachLines(es: seq<SurfaceEntry>, cs: seq<SurfaceCoefficient>, show64: real -> string): seq<Line> {
    if es == [] then []
    else
      var c := Lookup(cs, es[0].id);
      (if c.Some? then CoefficientLines(es[0].id, c.value, show64) else []) + EachLines(es[1..], cs, show64)
  }

  function BlockLines(x: SessionImageV1, show64: real -> string): seq<Line> {
    [Line(1, [Start("c:coefficients", [Attr("xmlns:c", COEFFICIENTS_NAMESPACE)])])]
    + EachLines(x.base.surfaces, x.coefficients, show64)
    + [Line(1, [End("c:coefficients")])]
  }

  function ToXmlV1(x: SessionImageV1, show: real -> string, show64: real -> string, sha: seq<byte> -> Digest): string {
    XML_DECL + "\n" + DocText(x.base, show, true, Some(ComputeId(x.base, show, sha)), BlockLines(x, show64))
  }

  // ---- the writer ----

  lemma TwoAttrsText(name: string, a: Attr, b: Attr)
    ensures RenderToks([Empty(name, [a, b])])
         == "<" + name + (" " + a.name + "=\"" + a.value + "\"") + (" " + b.name + "=\"" + b.value + "\"") + "/>"
  {
    OneTok(Empty(name, [a, b]));
    AttrsSnoc([a], b);
    assert [a] + [b] == [a, b];
    AttrsSnoc([], a);
    assert [] + [a] == [a];
    var x, y := " " + a.name + "=\"" + a.value + "\"", " " + b.name + "=\"" + b.value + "\"";
    assert "" + x == x;
    assert RenderAttrs([a, b]) == x + y;
    Assoc("<" + name, x, y);
  }

  /** A self-closing tag with two attributes, on its own line. */
  method WriteEmpty2(s0: string, depth: nat, name: string, a: Attr, b: Attr, pretty: bool) returns (s: string)
    ensures s == s0 + RenderLine(Line(depth, [Empty(name, [a, b])]), pretty)
  {
    TwoAttrsText(name, a, b);
    s := WriteTag(s0, Line(depth, [Empty(name, [a, b])]),
                  "<" + name + (" " + a.name + "=\"" + a.value + "\"") + (" " + b.name + "=\"" + b.value + "\"") + "/>",
                  pretty);
  }

  /** An opening tag with one attribute, on its own line. */
  method WriteOpen1(s0: string, depth: nat, name: string, a: Attr, pretty: bool) returns (s: string)
    ensures s == s0 + RenderLine(Line(depth, [Start(name, [a])]), pretty)
  {
    OneTok(Start(name, [a]));
    AttrsSnoc([], a);
    assert [] + [a] == [a];
    var x := " " + a.name + "=\"" + a.value + "\"";
    assert RenderAttrs([a]) == "" + x == x;
    s := WriteTag(s0, Line(depth, [Start(name, [a])]), "<" + name + x + ">", pretty);
  }

  lemma {:induction false} DelaySnoc(t: seq<Interval>, iv: Interval, show64: real -> string)
    ensures DelayLines(t + [iv], show64) == DelayLines(t, show64) + [DelayLine(iv, show64)]
  {
    if t == [] {
      assert t + [iv] == [iv] && [iv][1..] == [];
    } else {
      CutTail(t, [iv]);
      DelaySnoc(t[1..], iv, show64);
    }
  }

  /** One `<c:delay-path>` per interval. */
  method WriteTiming(s0: string, t: seq<Interval>, show64: real -> string, pretty: bool) returns (s: string)
    ensures s == s0 + RenderLines(DelayLines(t, show64), pretty)
  {
    hide RenderLine;
    s := s0;
    assert t[..0] == [];
    for i := 0 to |t|
      invariant s == s0 + RenderLines(DelayLines(t[..i], show64), pretty)
    {
      s := WriteEmpty2(s, 4, "c:delay-path", Attr("hi", t[i].hi.ToStr(show64)), Attr("lo", t[i].lo.ToStr(show64)),
                       pretty);
      assert t[..i + 1] == t[..i] + [t[i]];
      DelaySnoc(t[..i], t[i], show64);
      PushText(s0, DelayLines(t[..i], show64), DelayLine(t[i], show64), pretty);
    }
    assert t[..|t|] == t;
  }

  lemma BlockJoined(s: string, id: SurfaceId, c: Coefficient, show64: real -> string, pretty: bool)
    ensures s + RenderLines(CoefficientLines(id, c, show64), pretty)
         == s + RenderLine(OpenBlockLine(id), pretty) + RenderLine(Line(3, [Start("c:timing", [])]), pretty)
              + RenderLines(DelayLines(c.timing, show64), pretty)
              + RenderLine(Line(3, [End("c:timing")]), pretty)
              + (RenderLine(SecurityLine(c), pretty) + RenderLine(LinearityLine(c), pretty)
                 + RenderLine(Line(2, [End("c:surface-coefficient")]), pretty))
  {
    hide RenderLine, OpenBlockLine, SecurityLine, LinearityLine, DelayLines;
    var a, b := OpenBlockLine(id), Line(3, [Start("c:timing", [])]);
    var d := DelayLines(c.timing, show64);
    var e, f, g, h := Line(3, [End("c:timing")]), SecurityLine(c), LinearityLine(c),
        Line(2, [End("c:surface-coefficient")]);
    assert CoefficientLines(id, c, show64) == [a, b] + d + [e] + [f, g, h] + [];
    RenderFive([a, b], d, [e], [f, g, h], [], pretty);
    Snoc([a], b, pretty);
    assert [a] + [b] == [a, b];
    RenderOne(a, pretty);
    RenderOne(e, pretty);
    RenderThree([f, g, h], pretty);
    Assoc(RenderLine(f, pretty), RenderLine(g, pretty), RenderLine(h, pretty));
    Gather(s, RenderLine(a, pretty), RenderLine(b, pretty), RenderLines(d, pretty), RenderLine(e, pretty),
           RenderLines([f, g, h], pretty));
  }

  lemma Gather(s: string, a: string, b: string, d: string, e: string, f: string)
    ensures s + (a + b + d + e + f + "") == s + a + b + d + e + f
  {
  }

  /** The coefficient of one surface. */
  method WriteCoefficient(s0: string, id: SurfaceId, c: Coefficient, show64: real -> string, pretty: bool)
    returns (s: string)
    ensures s == s0 + RenderLines(CoefficientLines(id, c, show64), pretty)
  {
    s := WriteOpen1(s0, 2, "c:surface-coefficient", Attr("surface-ref", SurfaceIdToStr(id)), pretty);
    s := WriteOpen(s, 3, "c:timing", pretty);
    s := WriteTiming(s, c.timing, show64, pretty);
    s := WriteClose(s, 3, "c:timing", pretty);
    ghost var s1 := s;
    s := WriteLabels(s, c, pretty);
    s := WriteClose(s, 2, "c:surface-coefficient", pretty);
    BlockJoined(s0, id, c, show64, pretty);
    Assoc(s1, RenderLine(SecurityLine(c), pretty) + RenderLine(LinearityLine(c), pretty),
          RenderLine(Line(2, [End("c:surface-coefficient")]), pretty));
  }

  /** Security label and linearity count. */
  method WriteLabels(s0: string, c: Coefficient, pretty: bool) returns (s: string)
    ensures s == s0 + (RenderLine(SecurityLine(c), pretty) + RenderLine(LinearityLine(c), pretty))
  {
    s := WriteEmpty2(s0, 3, "c:security", Attr("confidentiality", c.confidentiality.ToStr()),
                     Attr("integrity", c.integrity.ToStr()), pretty);
    s := WriteEmpty(s, 3, "c:linearity", "count", c.linearity.ToStr(), pretty);
    Assoc(s0, RenderLine(SecurityLine(c), pretty), RenderLine(LinearityLine(c), pretty));
  }

  lemma {:induction false} EachSnoc(es: seq<SurfaceEntry>, e: SurfaceEntry, cs: seq<SurfaceCoefficient>,
                                    show64: real -> string)
    ensures EachLines(es + [e], cs, show64)
         == EachLines(es, cs, show64)
            + (if Lookup(cs, e.id).Some? then CoefficientLines(e.id, Lookup(cs, e.id).value, show64) else [])
  {
    var last := if Lookup(cs, e.id).Some? then CoefficientLines(e.id, Lookup(cs, e.id).value, show64) else [];
    if es == [] {
      assert es + [e] == [e] && [e][1..] == [];
      assert last + [] == last;
    } else {
      CutTail(es, [e]);
      EachSnoc(es[1..], e, cs, show64);
      var first := Lookup(cs, es[0].id);
      Assoc(if first.Some? then CoefficientLines(es[0].id, first.value, show64) else [],
            EachLines(es[1..], cs, show64), last);
    }
  }

  lemma EachStep(s0: string, es: seq<SurfaceEntry>, i: nat, cs: seq<SurfaceCoefficient>, show64: real -> string,
                 pretty: bool)
    requires i < |es|
    ensures Lookup(cs, es[i].id).Some? ==>
            s0 + RenderLines(EachLines(es[..i], cs, show64), pretty)
               + RenderLines(CoefficientLines(es[i].id, Lookup(cs, es[i].id).value, show64), pretty)
            == s0 + RenderLines(EachLines(es[..i + 1], cs, show64), pretty)
    ensures Lookup(cs, es[i].id).None? ==> EachLines(es[..i + 1], cs, show64) == EachLines(es[..i], cs, show64)
  {
    assert es[..i + 1] == es[..i] + [es[i]];
    EachSnoc(es[..i], es[i], cs, show64);
    var c := Lookup(cs, es[i].id);
    if c.Some? {
      var lines := CoefficientLines(es[i].id, c.value, show64);
      RenderLinesAppend(EachLines(es[..i], cs, show64), lines, pretty);
      Assoc(s0, RenderLines(EachLines(es[..i], cs, show64), pretty), RenderLines(lines, pretty));
    }
  }

  /** The blocks of every surface that has a coefficient. */
  method WriteEach(s0: string, es: seq<SurfaceEntry>, cs: seq<SurfaceCoefficient>, show64: real -> string, pretty: bool)
      returns (s: string)
    ensures s == s0 + RenderLines(EachLines(es, cs, show64), pretty)
  {
    s := s0;
    assert es[..0] == [];
    for i := 0 to |es|
      invariant s == s0 + RenderLines(EachLines(es[..i], cs, show64), pretty)
    {
      EachStep(s0, es, i, cs, show64, pretty);
      var c := Lookup(cs, es[i].id);
      if c.Some? {
        s := WriteCoefficient(s, es[i].id, c.value, show64, pretty);
      }
    }
    assert es[..|es|] == es;
  }

  /** The whole coefficient block. */
  method WriteCoefficients(x: SessionImageV1, show64: real -> string, pretty: bool) returns (s: string)
    ensures s == RenderLines(BlockLines(x, show64), pretty)
  {
    var root := Attr("xmlns:c", COEFFICIENTS_NAMESPACE);
    s := WriteOpen1("", 1, "c:coefficients", root, pretty);
    s := WriteEach(s, x.base.surfaces, x.coefficients, show64, pretty);
    s := WriteClose(s, 1, "c:coefficients", pretty);
    var open, close := Line(1, [Start("c:coefficients", [root])]), Line(1, [End("c:coefficients")]);
    var each := EachLines(x.base.surfaces, x.coefficients, show64);
    RenderLinesAppend([open], each, pretty);
    RenderOne(open, pretty);
    Snoc([open] + each, close, pretty);
    assert "" + RenderLine(open, pretty) == RenderLine(open, pretty);
  }

  /** The indented v1 document. */
  method WriteXmlV1(x: SessionImageV1, show: real -> string, show64: real -> string, sha: seq<byte> -> Digest)
      returns (s: string)
    ensures s == ToXmlV1(x, show, show64, sha)
  {
    var canonical := WriteCanonical(x.base, show);
    var block := WriteCoefficients(x, show64, true);
    var doc := WriteDocWithId(x.base, show, true, Some(SurfaceIdToStr(sha(canonical))), Some(block),
                              BlockLines(x, show64));
    s := XML_DECL + "\n" + doc;
  }
}
