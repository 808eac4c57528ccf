/** The canonical v1 form: what it determines, and that the text round trip keeps it. */
module V1Canonical {
  import opened Wrappers
  import opened Text
  import opened Xml
  import opened Session
  import opened SessionParse
  import opened SessionRoundTrip
  import opened SessionLaws
  import opened SessionWriter
  import opened Coefficients
  import opened Galois
  import opened GaloisXml
  import opened GaloisLaws
  import opened V1RoundTrip
  import Utf8

  function CanonicalTextV1(x: SessionImageV1, show: real -> string, show64: real -> string): string {
    DocText(x.base, show, false, None, BlockLines(x, show64))
  }

  function CanonicalBytesV1(x: SessionImageV1, show: real -> string, show64: real -> string): seq<byte> {
    Utf8.Encode(CanonicalTextV1(x, show, show64))
  }

  method WriteCanonicalV1(x: SessionImageV1, show: real -> string, show64: real -> string) returns (b: seq<byte>)
    ensures b == CanonicalBytesV1(x, show, show64)
  {
    var block := WriteCoefficients(x, show64, false);
    var s := WriteDocWithId(x.base, show, false, None, Some(block), BlockLines(x, show64));
    b := Utf8.Encode(s);
  }

  /** Agreement on the base up to its id, and on the coefficient of every surface. */
  ghost predicate SameContentV1(x: SessionImageV1, y: SessionImageV1, show: real -> string) {
    && SameContent(x.base, y.base, show)
    && forall id :: id in Ids(x.base.surfaces) ==> CoefficientFor(x, id) == CoefficientFor(y, id)
  }

  lemma {:induction false} SameLookups(es: seq<SurfaceEntry>, a: seq<SurfaceCoefficient>, b: seq<SurfaceCoefficient>,
                                       show64: real -> string)
    requires forall id :: id in Ids(es) ==> Lookup(a, id) == Lookup(b, id)
    ensures EachLines(es, a, show64) == EachLines(es, b, show64)
  {
    if es != [] {
      assert Ids(es) == [es[0].id] + Ids(es[1..]);
      assert es[0].id in Ids(es);
      SameLookups(es[1..], a, b, show64);
    }
  }

  lemma SameBaseLines(a: SessionImage, b: SessionImage, show: real -> string, extra: seq<Line>)
    requires SameContent(a, b, show)
    ensures DocText(a, show, false, None, extra) == DocText(b, show, false, None, extra)
  {
  }

  lemma SameTextV1(x: SessionImageV1, y: SessionImageV1, show: real -> string, show64: real -> string)
    requires SameContentV1(x, y, show)
    ensures CanonicalTextV1(x, show, show64) == CanonicalTextV1(y, show, show64)
  {
    SameLookups(x.base.surfaces, x.coefficients, y.coefficients, show64);
    assert BlockLines(x, show64) == BlockLines(y, show64);
    SameBaseLines(x.base, y.base, show, BlockLines(x, show64));
  }

  /** Read without trimming, the canonical form gives its base to the v0 parser. */
  lemma CanonicalBaseRead(x: SessionImageV1, show: real -> string, pos: real, scan: string -> Option<real>,
                          show64: real -> string, scan64: string -> Option<real>)
    requires PlainFloat(show, x.base.layout.scrollPos) && scan(FmtFloat(show, x.base.layout.scrollPos)) == Some(pos)
    requires PrintsAll(show64, scan64, x.coefficients)
    ensures var toks := Lex(CanonicalTextV1(x, show, show64), false);
            toks.Some? && Run(toks.value, INIT, scan) == Ok(BaseState(x.base, None, pos, false))
  {
    BlockLinesOk(x, show64, scan64);
    BlockLinesForeign(x, show64);
    ForeignRun(BlockLines(x, show64), false, BaseState(x.base, None, pos, false), scan);
    DocRun(x.base, show, false, None, BlockLines(x, show64), pos, false, scan);
  }

  lemma BaseFromText(x: SessionImageV1, y: SessionImageV1, show: real -> string, show64: real -> string,
                     scan64: string -> Option<real>)
    requires PlainFloat(show, x.base.layout.scrollPos) && PlainFloat(show, y.base.layout.scrollPos)
    requires PrintsAll(show64, scan64, x.coefficients) && PrintsAll(show64, scan64, y.coefficients)
    requires CanonicalTextV1(x, show, show64) == CanonicalTextV1(y, show, show64)
    ensures SameContent(x.base, y.base, show)
  {
    hide CanonicalTextV1, PlainFloat, PrintsAll, Lex, Run;
    var fx, fy := FmtFloat(show, x.base.layout.scrollPos), FmtFloat(show, y.base.layout.scrollPos);
    var scan := (s: string) => Some(if s == fx then 0.0 else 1.0);
    CanonicalBaseRead(x, show, 0.0, scan, show64, scan64);
    CanonicalBaseRead(y, show, if fy == fx then 0.0 else 1.0, scan, show64, scan64);
    ReadUntrimmed(x.base.surfaces);
    ReadUntrimmed(y.base.surfaces);
  }

  // ---- the tokens of the block tell its coefficients ----

  function OpenTok(id: SurfaceId): Tok { Start("c:surface-coefficient", [Attr("surface-ref", SurfaceIdToStr(id))]) }

  function DelayTok(iv: Interval, show64: real -> string): Tok {
    Empty("c:delay-path", DelayAttrs(iv, show64))
  }

  function Delays(t: seq<Interval>, show64: real -> string): seq<Tok> {
    if t == [] then [] else [DelayTok(t[0], show64)] + Delays(t[1..], show64)
  }

  /** What follows the delay paths of a block. */
  function Labels(c: Coefficient): seq<Tok> {
    [End("c:timing"),
     Empty("c:security", [Attr("confidentiality", c.confidentiality.ToStr()), Attr("integrity", c.integrity.ToStr())]),
     Empty("c:linearity", [Attr("count", c.linearity.ToStr())]),
     End("c:surface-coefficient")]
  }

  function BlockToks(id: SurfaceId, c: Coefficient, show64: real -> string): seq<Tok> {
    [OpenTok(id)] + ([Start("c:timing", [])] + (Delays(c.timing, show64) + Labels(c)))
  }

  function EachToks(es: seq<SurfaceEntry>, cs: seq<SurfaceCoefficient>, show64: real -> string): seq<Tok> {
    if es == [] then []
    else
      var c := Lookup(cs, es[0].id);
      (if c.Some? then BlockToks(es[0].id, c.value, show64) else []) + EachToks(es[1..], cs, show64)
  }

  lemma {:induction false} DelaysFlat(t: seq<Interval>, show64: real -> string)
    ensures Flat(DelayLines(t, show64)) == Delays(t, show64)
  {
    if t != [] {
      DelaysFlat(t[1..], show64);
      hide DelayTok;
      FlatAppend([DelayLine(t[0], show64)], DelayLines(t[1..], show64));
      assert Flat([DelayLine(t[0], show64)]) == [DelayTok(t[0], show64)] by { FlatOne(DelayLine(t[0], show64)); }
    }
  }

  lemma FlatOne(l: Line)
    ensures Flat([l]) == l.toks
  {
    assert Flat([l][1..]) == [] && l.toks + [] == l.toks;
  }

  lemma LabelsFlat(c: Coefficient)
    ensures Flat([Line(3, [End("c:timing")]), SecurityLine(c), LinearityLine(c),
                  Line(2, [End("c:surface-coefficient")])])
         == Labels(c)
  {
    var p, q, r, s := Line(3, [End("c:timing")]), SecurityLine(c), LinearityLine(c),
        Line(2, [End("c:surface-coefficient")]);
    assert [p, q, r, s] == [p] + ([q] + ([r] + [s]));
    FlatAppend([p], [q] + ([r] + [s]));
    FlatAppend([q], [r] + [s]);
    FlatAppend([r], [s]);
    FlatOne(p);
    FlatOne(q);
    FlatOne(r);
    FlatOne(s);
  }

  lemma BlockFlat(id: SurfaceId, c: Coefficient, show64: real -> string)
    ensures Flat(CoefficientLines(id, c, show64)) == BlockToks(id, c, show64)
  {
    var open, timing := OpenBlockLine(id), Line(3, [Start("c:timing", [])]);
    var delays := DelayLines(c.timing, show64);
    var labels := [Line(3, [End("c:timing")]), SecurityLine(c), LinearityLine(c),
                   Line(2, [End("c:surface-coefficient")])];
    DelaysFlat(c.timing, show64);
    LabelsFlat(c);
    FlatOne(open);
    FlatOne(timing);
    hide Labels, Delays, SecurityLine, LinearityLine;
    assert CoefficientLines(id, c, show64) == [open] + ([timing] + (delays + labels));
    FlatAppend([open], [timing] + (delays + labels));
    FlatAppend([timing], delays + labels);
    FlatAppend(delays, labels);
  }

  lemma {:induction false} EachFlat(es: seq<SurfaceEntry>, cs: seq<SurfaceCoefficient>, show64: real -> string)
    ensures Flat(EachLines(es, cs, show64)) == EachToks(es, cs, show64)
  {
    if es != [] {
      hide CoefficientLines, BlockToks;
      var c := Lookup(cs, es[0].id);
      var first := if c.Some? then CoefficientLines(es[0].id, c.value, show64) else [];
      EachFlat(es[1..], cs, show64);
      FlatAppend(first, EachLines(es[1..], cs, show64));
      if c.Some? {
        BlockFlat(es[0].id, c.value, show64);
      }
    }
  }

  lemma IntervalTells(a: Interval, b: Interval, show64: real -> string, scan64: string -> Option<real>)
    requires PrintsBound(show64, scan64, a.lo) && PrintsBound(show64, scan64, a.hi)
    requires PrintsBound(show64, scan64, b.lo) && PrintsBound(show64, scan64, b.hi)
    requires DelayTok(a, show64) == DelayTok(b, show64)
    ensures a == b
  {
    BoundRoundTrip(a.lo, show64, scan64);
    BoundRoundTrip(b.lo, show64, scan64);
    BoundRoundTrip(a.hi, show64, scan64);
    BoundRoundTrip(b.hi, show64, scan64);
    hide PrintsBound, Bound.ToStr, Bound.Parse;
    var x, y := DelayAttrs(a, show64), DelayAttrs(b, show64);
    assert x == y && x[0] == y[0] && x[1] == y[1];
  }

  predicate PrintsTimes(show64: real -> string, scan64: string -> Option<real>, t: seq<Interval>) {
    forall iv :: iv in t ==> PrintsBound(show64, scan64, iv.lo) && PrintsBound(show64, scan64, iv.hi)
  }

  lemma DelaysEnds(t: seq<Interval>, x: seq<Tok>, show64: real -> string)
    requires x != []
    ensures var s := Delays(t, show64) + x;
            if t == [] then s == x else s[0] == DelayTok(t[0], show64) && s[1..] == Delays(t[1..], show64) + x
  {
    hide DelayTok;
    if t == [] {
      assert [] + x == x;
    } else {
      var first, more := [DelayTok(t[0], show64)], Delays(t[1..], show64);
      assert Delays(t, show64) == first + more;
      hide Delays;
      Assoc(first, more, x);
      Cut(first, more + x);
    }
  }

  /** The delay paths end where the timing element does. */
  lemma {:induction false} DelaysTell(t: seq<Interval>, u: seq<Interval>, x: seq<Tok>, y: seq<Tok>,
                                      show64: real -> string, scan64: string -> Option<real>)
    requires PrintsTimes(show64, scan64, t) && PrintsTimes(show64, scan64, u)
    requires x != [] && y != [] && x[0] == End("c:timing") == y[0]
    requires Delays(t, show64) + x == Delays(u, show64) + y
    ensures t == u && x == y
  {
    hide Delays, PrintsBound;
    DelaysEnds(t, x, show64);
    DelaysEnds(u, y, show64);
    if t != [] && u != [] {
      assert t[0] in t && u[0] in u && (forall iv :: iv in t[1..] ==> iv in t)
             && (forall iv :: iv in u[1..] ==> iv in u);
      IntervalTells(t[0], u[0], show64, scan64);
      hide DelayTok;
      DelaysTell(t[1..], u[1..], x, y, show64, scan64);
      assert t == [t[0]] + t[1..] && u == [u[0]] + u[1..];
    }
  }

  lemma LabelsTell(a: Coefficient, b: Coefficient, x: seq<Tok>, y: seq<Tok>)
    requires Labels(a) + x == Labels(b) + y
    ensures x == y && a.confidentiality == b.confidentiality && a.integrity == b.integrity && a.linearity == b.linearity
  {
    LabelRoundTrip(a.confidentiality, a.integrity);
    LabelRoundTrip(b.confidentiality, b.integrity);
    LinearityRoundTrip(a.linearity);
    LinearityRoundTrip(b.linearity);
    hide Confidentiality.ToStr, Confidentiality.Parse, Integrity.ToStr, Integrity.Parse, Linearity.ToStr,
      Linearity.Parse;
    var p, q := Labels(a) + x, Labels(b) + y;
    assert p[4..] == x && q[4..] == y;
    assert p[1] == q[1] && p[1].attrs[0] == q[1].attrs[0] && p[1].attrs[1] == q[1].attrs[1];
    assert p[2] == q[2] && p[2].attrs[0] == q[2].attrs[0];
  }

  lemma BlockTells(id: SurfaceId, a: Coefficient, b: Coefficient, x: seq<Tok>, y: seq<Tok>,
                   show64: real -> string, scan64: string -> Option<real>)
    requires PrintsCoefficient(show64, scan64, a) && PrintsCoefficient(show64, scan64, b)
    requires BlockToks(id, a, show64) + x == BlockToks(id, b, show64) + y
    ensures a == b && x == y
  {
    hide OpenTok, PrintsBound, Delays;
    var p, q := BlockToks(id, a, show64) + x, BlockToks(id, b, show64) + y;
    assert p[2..] == Delays(a.timing, show64) + (Labels(a) + x);
    assert q[2..] == Delays(b.timing, show64) + (Labels(b) + y);
    assert (Labels(a) + x)[0] == End("c:timing") == (Labels(b) + y)[0];
    DelaysTell(a.timing, b.timing, Labels(a) + x, Labels(b) + y, show64, scan64);
    LabelsTell(a, b, x, y);
  }

  lemma OpenTells(a: SurfaceId, b: SurfaceId)
    ensures OpenTok(a) == OpenTok(b) <==> a == b
  {
    IdInjective(a, b);
    hide SurfaceIdToStr;
    if OpenTok(a) == OpenTok(b) {
      assert OpenTok(a).attrs[0] == OpenTok(b).attrs[0];
    }
  }

  const CLOSED := [End("c:coefficients")]

  lemma {:induction false} AbsentUnopened(es: seq<SurfaceEntry>, cs: seq<SurfaceCoefficient>, id: SurfaceId,
                                          show64: real -> string)
    requires Lookup(cs, id).None?
    ensures (EachToks(es, cs, show64) + CLOSED)[0] != OpenTok(id)
  {
    if es != [] {
      AbsentUnopened(es[1..], cs, id, show64);
      var c := Lookup(cs, es[0].id);
      OpenTells(es[0].id, id);
      hide OpenTok, Lookup;
      if c.None? {
        assert [] + EachToks(es[1..], cs, show64) == EachToks(es[1..], cs, show64);
      } else {
        assert (EachToks(es, cs, show64) + CLOSED)[0] == OpenTok(es[0].id);
      }
    }
  }

  lemma LookupPrints(cs: seq<SurfaceCoefficient>, id: SurfaceId, show64: real -> string, scan64: string -> Option<real>)
    requires PrintsAll(show64, scan64, cs) && Lookup(cs, id).Some?
    ensures PrintsCoefficient(show64, scan64, Lookup(cs, id).value)
  {
    LookupFinds(cs, id);
  }

  /** The block of one surface, and what follows it. */
  function Split(es: seq<SurfaceEntry>, cs: seq<SurfaceCoefficient>, show64: real -> string): (r: (seq<Tok>, seq<Tok>))
    requires es != []
    ensures EachToks(es, cs, show64) + CLOSED == r.0 + r.1
  {
    var c := Lookup(cs, es[0].id);
    var first := if c.Some? then BlockToks(es[0].id, c.value, show64) else [];
    Assoc(first, EachToks(es[1..], cs, show64), CLOSED);
    (first, EachToks(es[1..], cs, show64) + CLOSED)
  }

  lemma {:induction false} EachTells(es: seq<SurfaceEntry>, a: seq<SurfaceCoefficient>, b: seq<SurfaceCoefficient>,
                                     show64: real -> string, scan64: string -> Option<real>)
    requires PrintsAll(show64, scan64, a) && PrintsAll(show64, scan64, b)
    requires EachToks(es, a, show64) + CLOSED == EachToks(es, b, show64) + CLOSED
    ensures forall id :: id in Ids(es) ==> Lookup(a, id) == Lookup(b, id)
  {
    if es != [] {
      var id := es[0].id;
      var x, y := Split(es, a, show64), Split(es, b, show64);
      FirstTells(es, a, b, show64, scan64);
      hide Split, Lookup, EachToks, PrintsAll;
      EachTells(es[1..], a, b, show64, scan64);
      assert Ids(es) == [id] + Ids(es[1..]);
    }
  }

  /** A surface with a coefficient in one list and none in the other shows. */
  lemma MissingShows(es: seq<SurfaceEntry>, a: seq<SurfaceCoefficient>, b: seq<SurfaceCoefficient>,
                     show64: real -> string)
    requires es != [] && Lookup(a, es[0].id).Some? && Lookup(b, es[0].id).None?
    ensures EachToks(es, a, show64) + CLOSED != EachToks(es, b, show64) + CLOSED
  {
    var id := es[0].id;
    var x, y := Split(es, a, show64), Split(es, b, show64);
    AbsentUnopened(es[1..], b, id, show64);
    assert (x.0 + x.1)[0] == OpenTok(id);
    assert y.0 + y.1 == y.1;
  }

  lemma FirstTells(es: seq<SurfaceEntry>, a: seq<SurfaceCoefficient>, b: seq<SurfaceCoefficient>,
                   show64: real -> string, scan64: string -> Option<real>)
    requires es != [] && PrintsAll(show64, scan64, a) && PrintsAll(show64, scan64, b)
    requires EachToks(es, a, show64) + CLOSED == EachToks(es, b, show64) + CLOSED
    ensures Lookup(a, es[0].id) == Lookup(b, es[0].id)
    ensures EachToks(es[1..], a, show64) + CLOSED == EachToks(es[1..], b, show64) + CLOSED
  {
    var id := es[0].id;
    var x, y := Split(es, a, show64), Split(es, b, show64);
    var ca, cb := Lookup(a, id), Lookup(b, id);
    hide Lookup, EachToks, PrintsAll, PrintsCoefficient, BlockToks, CLOSED;
    if ca.Some? && cb.Some? {
      LookupPrints(a, id, show64, scan64);
      LookupPrints(b, id, show64, scan64);
      BlockTells(id, ca.value, cb.value, x.1, y.1, show64, scan64);
    } else if ca.Some? {
      MissingShows(es, a, b, show64);
    } else if cb.Some? {
      MissingShows(es, b, a, show64);
    } else {
      assert x.0 + x.1 == x.1 && y.0 + y.1 == y.1;
    }
  }

  // ---- the canonical form is injective ----

  predicate NoText(toks: seq<Tok>) { forall t :: t in toks ==> !t.Chars? }

  lemma {:induction false} ReportedTags(toks: seq<Tok>)
    requires NoText(toks)
    ensures Reported(toks, false) == toks
  {
    if toks != [] {
      assert toks[0] in toks && forall t :: t in toks[1..] ==> t in toks;
      ReportedTags(toks[1..]);
    }
  }

  lemma {:induction false} DelaysNoText(t: seq<Interval>, show64: real -> string)
    ensures NoText(Delays(t, show64))
  {
    if t != [] {
      DelaysNoText(t[1..], show64);
    }
  }

  lemma {:induction false} EachNoText(es: seq<SurfaceEntry>, cs: seq<SurfaceCoefficient>, show64: real -> string)
    ensures NoText(EachToks(es, cs, show64))
  {
    if es != [] {
      EachNoText(es[1..], cs, show64);
      var c := Lookup(cs, es[0].id);
      if c.Some? {
        DelaysNoText(c.value.timing, show64);
      }
    }
  }

  const OPENED_BLOCK := [Start("c:coefficients", [Attr("xmlns:c", COEFFICIENTS_NAMESPACE)])]

  lemma BlockTokens(x: SessionImageV1, show64: real -> string)
    ensures Reported(Flat(BlockLines(x, show64)), false)
         == OPENED_BLOCK + (EachToks(x.base.surfaces, x.coefficients, show64) + CLOSED)
  {
    var open, close := Line(1, OPENED_BLOCK), Line(1, CLOSED);
    var each := EachLines(x.base.surfaces, x.coefficients, show64);
    var toks := EachToks(x.base.surfaces, x.coefficients, show64);
    EachFlat(x.base.surfaces, x.coefficients, show64);
    EachNoText(x.base.surfaces, x.coefficients, show64);
    FlatAppend([open] + each, [close]);
    FlatAppend([open], each);
    FlatOne(open);
    FlatOne(close);
    assert BlockLines(x, show64) == [open] + each + [close];
    hide EachToks, EachLines;
    Assoc(OPENED_BLOCK, toks, CLOSED);
    ReportedTags(OPENED_BLOCK + (toks + CLOSED));
  }

  lemma CanonicalTokens(x: SessionImageV1, show: real -> string, show64: real -> string, scan64: string -> Option<real>)
    requires PlainFloat(show, x.base.layout.scrollPos) && PrintsAll(show64, scan64, x.coefficients)
    ensures Lex(CanonicalTextV1(x, show, show64), false)
         == Some(Reported(Flat(DocLines(x.base, show, None, [])), false)
                 + (OPENED_BLOCK + (EachToks(x.base.surfaces, x.coefficients, show64) + CLOSED)) + [End("session")])
  {
    hide DocLines, DocText, BlockLines, Lex, Flat, Reported, PlainFloat, PrintsAll, EachToks;
    var lines, block := DocLines(x.base, show, None, []), BlockLines(x, show64);
    BlockLinesOk(x, show64, scan64);
    LexDoc(x.base, show, false, None, block, false);
    DocLinesExtra(x.base, show, None, block);
    FlatAppend(lines, block);
    ReportedAppend(Flat(lines), Flat(block), false);
    BlockTokens(x, show64);
  }

  lemma SameEnds(p: seq<Tok>, open: seq<Tok>, a: seq<Tok>, b: seq<Tok>, end: seq<Tok>)
    requires p + (open + a) + end == p + (open + b) + end
    ensures a == b
  {
    var s, t := p + (open + a) + end, p + (open + b) + end;
    assert |a| == |b|;
    assert a == s[|p| + |open|..|p| + |open| + |a|] == t[|p| + |open|..|p| + |open| + |b|] == b;
  }

  lemma CoefficientsFromText(x: SessionImageV1, y: SessionImageV1, show: real -> string, show64: real -> string,
                             scan64: string -> Option<real>)
    requires PlainFloat(show, x.base.layout.scrollPos) && PlainFloat(show, y.base.layout.scrollPos)
    requires PrintsAll(show64, scan64, x.coefficients) && PrintsAll(show64, scan64, y.coefficients)
    requires SameContent(x.base, y.base, show) && CanonicalTextV1(x, show, show64) == CanonicalTextV1(y, show, show64)
    ensures forall id :: id in Ids(x.base.surfaces) ==> CoefficientFor(x, id) == CoefficientFor(y, id)
  {
    var es := x.base.surfaces;
    assert es == y.base.surfaces;
    SameBase(x.base, y.base, show);
    hide CanonicalTextV1, PlainFloat, PrintsAll, Lex, SameContent, DocLines, Reported, Flat, EachToks, Lookup;
    CanonicalTokens(x, show, show64, scan64);
    CanonicalTokens(y, show, show64, scan64);
    var a, b := EachToks(es, x.coefficients, show64) + CLOSED, EachToks(es, y.coefficients, show64) + CLOSED;
    SameEnds(Reported(Flat(DocLines(x.base, show, None, [])), false), OPENED_BLOCK, a, b, [End("session")]);
    EachTells(es, x.coefficients, y.coefficients, show64, scan64);
  }

  lemma SameBase(a: SessionImage, b: SessionImage, show: real -> string)
    requires SameContent(a, b, show)
    ensures DocLines(a, show, None, []) == DocLines(b, show, None, [])
  {
  }

  /**
   * The canonical v1 form is injective up to the id and the order of the coefficient list: two images
   * have the same canonical bytes exactly when their bases have the same content and every surface has
   * the same coefficient, or none, in both.
   */
  lemma CanonicalV1Injective(x: SessionImageV1, y: SessionImageV1, show: real -> string, show64: real -> string,
                             scan64: string -> Option<real>)
    requires PlainFloat(show, x.base.layout.scrollPos) && PlainFloat(show, y.base.layout.scrollPos)
    requires PrintsAll(show64, scan64, x.coefficients) && PrintsAll(show64, scan64, y.coefficients)
    ensures CanonicalBytesV1(x, show, show64) == CanonicalBytesV1(y, show, show64) <==> SameContentV1(x, y, show)
  {
    hide CanonicalTextV1, PlainFloat, PrintsAll;
    Utf8.EncodeInjective(CanonicalTextV1(x, show, show64), CanonicalTextV1(y, show, show64));
    if SameContentV1(x, y, show) {
      SameTextV1(x, y, show, show64);
    }
    if CanonicalTextV1(x, show, show64) == CanonicalTextV1(y, show, show64) {
      BaseFromText(x, y, show, show64, scan64);
      CoefficientsFromText(x, y, show, show64, scan64);
    }
  }

  /** Parsed back, a valid image with a storable base has the canonical form it had. */
  lemma RoundTripKeepsCanonical(x: SessionImageV1, show: real -> string, show64: real -> string,
                                sha: seq<byte> -> Digest)
    requires Valid(x) && DistinctIds(x.base) && Storable(x.base)
    ensures CanonicalBytesV1(ReadBack(x, show, sha), show, show64) == CanonicalBytesV1(x, show, show64)
  {
    var id := SessionIdV1(x, show, sha);
    V1KeepsCoefficients(x, show, sha);
    NormalisedFixedPoint(x.base.(id := Some(id)), id);
    assert Normalised(x.base, id) == x.base.(id := Some(id));
    SameTextV1(ReadBack(x, show, sha), x, show, show64);
  }
}
