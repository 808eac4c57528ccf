/** The v1 document as a whole: parser-level abstraction, and when and what it parses back to. */
module V1RoundTrip {
  import opened Wrappers
  import opened Text
  import opened Xml
  import opened Session
  import opened SessionParse
  import opened SessionRoundTrip
  import opened Nesting
  import opened SessionLaws
  import opened Coefficients
  import opened Galois
  import opened GaloisXml
  import opened CoefficientParse
  import opened GaloisLaws
  import Sorting

  /** What `from_xml` makes of a v1 document: two passes, then the validity check. */
  function ParsedV1(xml: string, scan: string -> Option<real>, scan64: string -> Option<real>):
      Result<SessionImageV1, SessionError> {
    var base :- Parsed(xml, scan);
    var cs :- ParsedCoefficients(xml, scan64);
    var img := SessionImageV1(base, cs);
    var _ :- Validation(img);
    Ok(img)
  }

  method FromXmlV1(xml: string, scan: string -> Option<real>, scan64: string -> Option<real>)
      returns (r: Result<SessionImageV1, SessionError>)
    ensures r == ParsedV1(xml, scan, scan64)
    ensures r.Ok? ==> Valid(r.value)
  {
    var base :- FromXml(xml, scan);
    var cs :- ParseCoefficients(xml, scan64);
    var img := SessionImageV1(base, cs);
    var _ :- Validate(img);
    return Ok(img);
  }

  function SessionIdV1(x: SessionImageV1, show: real -> string, sha: seq<byte> -> Digest): string {
    ComputeId(x.base, show, sha)
  }

  /** The v0 document of the same base, under the id the v1 document carries. */
  function BaseDocument(x: SessionImageV1, show: real -> string, sha: seq<byte> -> Digest): string {
    ToXml(x.base.(id := Some(SessionIdV1(x, show, sha))), show, sha)
  }

  /**
   * Abstraction at the parser: the v0 parser reads a v1 document exactly as it reads the v0 document
   * of its base, and recovers that base, id included.
   */
  lemma ParserLevelAlpha(x: SessionImageV1, show: real -> string, scan: string -> Option<real>,
                         show64: real -> string, scan64: string -> Option<real>, sha: seq<byte> -> Digest)
    requires Prints(show, scan, x.base.layout.scrollPos) && PrintsAll(show64, scan64, x.coefficients)
    ensures Parsed(ToXmlV1(x, show, show64, sha), scan) == Parsed(BaseDocument(x, show, sha), scan)
    ensures Parsed(ToXmlV1(x, show, show64, sha), scan) == Ok(Normalised(Alpha(x), SessionIdV1(x, show, sha)))
  {
    var id := SessionIdV1(x, show, sha);
    BlockLinesOk(x, show64, scan64);
    BlockLinesWhole(x, show64);
    BlockLinesForeign(x, show64);
    ForeignRun(BlockLines(x, show64), true, BaseState(x.base, Some(id), x.base.layout.scrollPos, true), scan);
    DeclaredDocParsed(x.base, show, scan, id, BlockLines(x, show64));
    XmlRoundTrip(x.base.(id := Some(id)), show, scan, sha);
  }

  lemma CoefficientsRootRun(a: seq<Attr>, st: CState, scan64: string -> Option<real>)
    ensures CRunLines([Line(1, [Start("c:coefficients", a)])], st, scan64) == Ok(st.(inCoeffs := true))
    ensures CRunLines([Line(1, [End("c:coefficients")])], st, scan64) == Ok(st.(inCoeffs := false))
  {
    CoefficientsName();
    hide *;
    BlockTags("c:coefficients", a, st, scan64);
  }

  lemma BlockTags(name: string, a: seq<Attr>, st: CState, scan64: string -> Option<real>)
    requires CKindOf(name) == CoefficientsEl
    ensures CRunLines([Line(1, [Start(name, a)])], st, scan64) == Ok(st.(inCoeffs := true))
    ensures CRunLines([Line(1, [End(name)])], st, scan64) == Ok(st.(inCoeffs := false))
  {
    hide CKindOf, CRunLines;
    CTagRun(1, Start(name, a), st, scan64);
    CTagRun(1, End(name), st, scan64);
  }

  const MISSING_TIMING := Malformed("surface-coefficient missing <timing/delay-path>")

  lemma BlockLinesRun(x: SessionImageV1, show64: real -> string, scan64: string -> Option<real>)
    requires PrintsAll(show64, scan64, x.coefficients)
    ensures CRunLines(BlockLines(x, show64), C_INIT, scan64)
         == if Timed(x.base.surfaces, x.coefficients)
            then Ok(C_INIT.(out := InOrder(x.base.surfaces, x.coefficients)))
            else Err(MISSING_TIMING)
  {
    hide CRunLines, EachLines, InOrder, Timed, PrintsAll;
    var a := [Attr("xmlns:c", COEFFICIENTS_NAMESPACE)];
    var open, close := [Line(1, [Start("c:coefficients", a)])], [Line(1, [End("c:coefficients")])];
    var each := EachLines(x.base.surfaces, x.coefficients, show64);
    var s1 := C_INIT.(inCoeffs := true);
    CoefficientsRootRun(a, C_INIT, scan64);
    EachRun(x.base.surfaces, x.coefficients, s1, show64, scan64);
    CRunLinesAppend(open, each, C_INIT, scan64);
    CRunLinesAppend(open + each, close, C_INIT, scan64);
    if Timed(x.base.surfaces, x.coefficients) {
      var out := InOrder(x.base.surfaces, x.coefficients);
      assert [] + out == out;
      CoefficientsRootRun(a, s1.(out := out), scan64);
    }
  }

  lemma SessionEndForeign(st: CState, scan64: string -> Option<real>)
    ensures CRun([End("session")], st, scan64) == Ok(st)
  {
    UnknownShort("session");
    CRunSingle(End("session"), st, scan64);
  }

  lemma V1Lexed(x: SessionImageV1, show: real -> string, show64: real -> string,
                scan64: string -> Option<real>, sha: seq<byte> -> Digest)
    requires PlainFloat(show, x.base.layout.scrollPos) && PrintsAll(show64, scan64, x.coefficients)
    ensures Events(ToXmlV1(x, show, show64, sha))
         == Some([Decl] + (Reported(Flat(DocLines(x.base, show, Some(SessionIdV1(x, show, sha)), [])
                                         + BlockLines(x, show64)), true)
                           + [End("session")]))
  {
    hide DocLines, DocText, BlockLines, Lex, Flat, Reported, ToXmlV1, PlainFloat, PrintsAll, SessionIdV1, Events,
      Whole, WholeLines;
    DocumentText(x, show, show64, sha);
    var id, block := Some(SessionIdV1(x, show, sha)), BlockLines(x, show64);
    BlockLinesOk(x, show64, scan64);
    LexDoc(x.base, show, true, id, block, true);
    BlockLinesWhole(x, show64);
    DocNests(x.base, show, id, block, true);
    DeclaredEvents(DocText(x.base, show, true, id, block));
    DocLinesExtra(x.base, show, id, block);
  }

  lemma DocumentText(x: SessionImageV1, show: real -> string, show64: real -> string, sha: seq<byte> -> Digest)
    ensures ToXmlV1(x, show, show64, sha)
         == XML_DECL + "\n" + DocText(x.base, show, true, Some(SessionIdV1(x, show, sha)), BlockLines(x, show64))
  {
  }

  /** The second pass reads the block, whatever the base says. */
  lemma CoefficientsParsed(x: SessionImageV1, show: real -> string, show64: real -> string,
                           scan64: string -> Option<real>, sha: seq<byte> -> Digest)
    requires PlainFloat(show, x.base.layout.scrollPos) && PrintsAll(show64, scan64, x.coefficients)
    ensures ParsedCoefficients(ToXmlV1(x, show, show64, sha), scan64)
         == if Timed(x.base.surfaces, x.coefficients) then Ok(InOrder(x.base.surfaces, x.coefficients))
            else Err(MISSING_TIMING)
  {
    hide ToXmlV1, DocLines, BlockLines, Events, Flat, Reported, InOrder, Timed, PrintsAll, PlainFloat, SessionIdV1;
    var lines := DocLines(x.base, show, Some(SessionIdV1(x, show, sha)), []);
    var block := BlockLines(x, show64);
    V1Lexed(x, show, show64, scan64, sha);
    LinesRead(x, Some(SessionIdV1(x, show, sha)), show, show64, scan64);
    DocumentRun(Reported(Flat(lines + block), true), scan64);
  }

  lemma EndRun(toks: seq<Tok>, scan64: string -> Option<real>)
    ensures CRun(toks + [End("session")], C_INIT, scan64) == CRun(toks, C_INIT, scan64)
  {
    CRunAppend(toks, [End("session")], C_INIT, scan64);
    var r := CRun(toks, C_INIT, scan64);
    if r.Ok? {
      SessionEndForeign(r.value, scan64);
    }
  }

  lemma DocumentRun(toks: seq<Tok>, scan64: string -> Option<real>)
    ensures CRun([Decl] + (toks + [End("session")]), C_INIT, scan64) == CRun(toks, C_INIT, scan64)
  {
    assert ([Decl] + (toks + [End("session")]))[1..] == toks + [End("session")];
    EndRun(toks, scan64);
  }

  /** The lines of a base and a block, read by the second pass. */
  lemma LinesRead(x: SessionImageV1, id: Option<string>, show: real -> string, show64: real -> string,
                  scan64: string -> Option<real>)
    requires PrintsAll(show64, scan64, x.coefficients)
    ensures CRunLines(DocLines(x.base, show, id, []) + BlockLines(x, show64), C_INIT, scan64)
         == if Timed(x.base.surfaces, x.coefficients)
            then Ok(C_INIT.(out := InOrder(x.base.surfaces, x.coefficients)))
            else Err(MISSING_TIMING)
  {
    hide DocLines, BlockLines, Flat, Reported, InOrder, Timed, PrintsAll;
    var lines, block := DocLines(x.base, show, id, []), BlockLines(x, show64);
    BaseCForeign(x.base, show, id);
    FlatIn(lines);
    CForeignRun(Flat(lines), true, C_INIT, scan64);
    CRunLinesAppend(lines, block, C_INIT, scan64);
    BlockLinesRun(x, show64, scan64);
  }

  // ---- validity of what is read back ----

  lemma IdsSorted(es: seq<SurfaceEntry>)
    ensures multiset(Ids(SortSurfaces(es))) == multiset(Ids(es))
  {
    var id := (e: SurfaceEntry) => e.id;
    Sorting.ProjectedSorted(es, OrderOf, id);
    assert Ids(es) == Sorting.Projected(es, id) && Ids(SortSurfaces(es)) == Sorting.Projected(SortSurfaces(es), id);
  }

  /** Normalising permutes the surfaces and keeps their ids. */
  lemma NormalisedIds(b: SessionImage, id: string)
    ensures multiset(Ids(Normalised(b, id).surfaces)) == multiset(Ids(b.surfaces))
    ensures |Normalised(b, id).surfaces| == |b.surfaces|
    ensures DistinctIds(Normalised(b, id)) <==> DistinctIds(b)
    ensures forall s :: s in Ids(Normalised(b, id).surfaces) <==> s in Ids(b.surfaces)
  {
    var es := ReadEntries(b.surfaces, true);
    ReadEntriesAt(b.surfaces, true);
    assert Ids(es) == Ids(b.surfaces);
    IdsSorted(es);
    Sorting.PermutedNoDup(Ids(Normalised(b, id).surfaces), Ids(b.surfaces));
  }

  /** Every surface has a coefficient. */
  predicate Covered(x: SessionImageV1) { forall e :: e in x.base.surfaces ==> CoefficientFor(x, e.id).Some? }

  lemma {:induction false} InOrderRefs(es: seq<SurfaceEntry>, cs: seq<SurfaceCoefficient>)
    ensures |InOrder(es, cs)| <= |es|
    ensures |InOrder(es, cs)| == |es| <==> forall e :: e in es ==> Lookup(cs, e.id).Some?
    ensures |InOrder(es, cs)| == |es| ==> Refs(InOrder(es, cs)) == Ids(es)
  {
    if es != [] {
      InOrderRefs(es[1..], cs);
      assert es == [es[0]] + es[1..];
      var c := Lookup(cs, es[0].id);
      if c.Some? && |InOrder(es[1..], cs)| == |es[1..]| {
        assert InOrder(es, cs) == [SurfaceCoefficient(es[0].id, c.value)] + InOrder(es[1..], cs);
        assert Refs(InOrder(es, cs)) == [es[0].id] + Refs(InOrder(es[1..], cs));
        assert Ids(es) == [es[0].id] + Ids(es[1..]);
      }
    }
  }

  /** What a v1 document holds: the normalised base, and its coefficients in surface order. */
  function ReadBack(x: SessionImageV1, show: real -> string, sha: seq<byte> -> Digest): SessionImageV1 {
    SessionImageV1(Normalised(x.base, SessionIdV1(x, show, sha)), InOrder(x.base.surfaces, x.coefficients))
  }

  lemma ValidCounts(x: SessionImageV1)
    requires Valid(x)
    ensures |x.coefficients| == |x.base.surfaces|
  {
  }

  lemma ReadBackValid(x: SessionImageV1, show: real -> string, sha: seq<byte> -> Digest)
    ensures Valid(ReadBack(x, show, sha)) <==> DistinctIds(x.base) && Covered(x)
  {
    hide Normalised, InOrder, SessionIdV1, Valid;
    var y := ReadBack(x, show, sha);
    InOrderRefs(x.base.surfaces, x.coefficients);
    NormalisedIds(x.base, SessionIdV1(x, show, sha));
    if Covered(x) && DistinctIds(x.base) {
      ValidIsBijection(y);
    }
    if Valid(y) {
      ValidCounts(y);
      assert Refs(y.coefficients) == Ids(x.base.surfaces);
      forall c | c in y.coefficients ensures c.surfaceRef in Ids(y.base.surfaces) {
        var i :| 0 <= i < |y.coefficients| && y.coefficients[i] == c;
        assert Refs(y.coefficients)[i] == c.surfaceRef;
      }
      RefsResolveIffDistinct(y);
    }
  }

  /**
   * The v1 round trip, for every image: parsing a written v1 document succeeds exactly when surface
   * ids are distinct and every surface has a coefficient with at least one delay path, and then it
   * yields the normalised base under the computed id with the coefficients in surface order.
   */
  lemma V1XmlRoundTrip(x: SessionImageV1, show: real -> string, scan: string -> Option<real>,
                       show64: real -> string, scan64: string -> Option<real>, sha: seq<byte> -> Digest)
    requires Prints(show, scan, x.base.layout.scrollPos) && PrintsAll(show64, scan64, x.coefficients)
    ensures var r := ParsedV1(ToXmlV1(x, show, show64, sha), scan, scan64);
            && (r.Ok? <==> DistinctIds(x.base) && Covered(x) && Timed(x.base.surfaces, x.coefficients))
            && (r.Ok? ==> r.value == ReadBack(x, show, sha) && Valid(r.value))
  {
    ParserLevelAlpha(x, show, scan, show64, scan64, sha);
    CoefficientsParsed(x, show, show64, scan64, sha);
    ReadBackValid(x, show, sha);
    ValidationIsValid(ReadBack(x, show, sha));
  }

  lemma {:induction false} InOrderLookup(es: seq<SurfaceEntry>, cs: seq<SurfaceCoefficient>, id: SurfaceId)
    ensures Lookup(InOrder(es, cs), id) == if id in Ids(es) then Lookup(cs, id) else None
  {
    if es != [] {
      InOrderLookup(es[1..], cs, id);
      assert Ids(es) == [es[0].id] + Ids(es[1..]);
      var c := Lookup(cs, es[0].id);
      if c.Some? {
        var h := SurfaceCoefficient(es[0].id, c.value);
        assert InOrder(es, cs) == [h] + InOrder(es[1..], cs);
        assert ([h] + InOrder(es[1..], cs))[1..] == InOrder(es[1..], cs);
      } else {
        assert InOrder(es, cs) == InOrder(es[1..], cs);
      }
    }
  }

  /** A valid image with distinct ids survives the trip with the coefficient of every id unchanged. */
  lemma V1KeepsCoefficients(x: SessionImageV1, show: real -> string, sha: seq<byte> -> Digest)
    requires Valid(x) && DistinctIds(x.base)
    ensures Covered(x)
    ensures forall id :: CoefficientFor(ReadBack(x, show, sha), id) == CoefficientFor(x, id)
    ensures Leq(x, ReadBack(x, show, sha), show) <==> BaseEq(x, ReadBack(x, show, sha), show)
  {
    hide Valid, CanonicalBytes, Normalised, SessionIdV1, Coefficient.Leq;
    ValidIsBijection(x);
    ValidCounts(x);
    var y := ReadBack(x, show, sha);
    forall e | e in x.base.surfaces ensures CoefficientFor(x, e.id).Some? {
      var i :| 0 <= i < |x.base.surfaces| && x.base.surfaces[i] == e;
      assert Ids(x.base.surfaces)[i] == e.id;
      LookupFinds(x.coefficients, e.id);
    }
    InOrderRefs(x.base.surfaces, x.coefficients);
    forall id ensures CoefficientFor(y, id) == CoefficientFor(x, id) {
      InOrderLookup(x.base.surfaces, x.coefficients, id);
      LookupFinds(x.coefficients, id);
    }
    SameCoefficientsLeq(x, y, show);
  }

  /** Images that agree on every coefficient are comparable exactly when their bases are equal. */
  lemma SameCoefficientsLeq(x: SessionImageV1, y: SessionImageV1, show: real -> string)
    requires Sorting.NoDup(Refs(x.coefficients)) && |x.coefficients| == |y.coefficients|
    requires forall id :: CoefficientFor(y, id) == CoefficientFor(x, id)
    ensures Leq(x, y, show) <==> BaseEq(x, y, show)
  {
    forall c | c in x.coefficients
      ensures CoefficientFor(y, c.surfaceRef) == Some(c.coefficient) && c.coefficient.Leq(c.coefficient)
    {
      LookupUnique(x.coefficients, c);
      CoefficientReflexive(c.coefficient);
    }
  }

  /**
   * The trip is the identity exactly on images whose base is storable and carries the computed id,
   * and whose coefficients stand in surface order.
   */
  lemma V1RoundTripExact(x: SessionImageV1, show: real -> string, scan: string -> Option<real>,
                         show64: real -> string, scan64: string -> Option<real>, sha: seq<byte> -> Digest)
    requires Prints(show, scan, x.base.layout.scrollPos) && PrintsAll(show64, scan64, x.coefficients)
    ensures ParsedV1(ToXmlV1(x, show, show64, sha), scan, scan64) == Ok(x) <==>
            && DistinctIds(x.base) && Timed(x.base.surfaces, x.coefficients)
            && Storable(x.base) && x.base.id == Some(SessionIdV1(x, show, sha))
            && Refs(x.coefficients) == Ids(x.base.surfaces)
  {
    V1XmlRoundTrip(x, show, scan, show64, scan64, sha);
    NormalisedFixedPoint(x.base, SessionIdV1(x, show, sha));
    InOrderRefs(x.base.surfaces, x.coefficients);
    if DistinctIds(x.base) && Refs(x.coefficients) == Ids(x.base.surfaces) {
      AlignedInOrder(x);
    }
  }

  lemma AlignedInOrder(x: SessionImageV1)
    requires DistinctIds(x.base) && Refs(x.coefficients) == Ids(x.base.surfaces)
    ensures Covered(x) && InOrder(x.base.surfaces, x.coefficients) == x.coefficients
  {
    var es, cs := x.base.surfaces, x.coefficients;
    assert |es| == |Ids(es)| && |cs| == |Refs(cs)|;
    forall e | e in es ensures Lookup(cs, e.id).Some? {
      var i :| 0 <= i < |es| && es[i] == e;
      assert Ids(es)[i] == e.id;
      LookupFinds(cs, e.id);
    }
    InOrderRefs(es, cs);
    forall i | 0 <= i < |cs| ensures InOrder(es, cs)[i] == cs[i] {
      assert Refs(InOrder(es, cs))[i] == Refs(cs)[i];
      LookupUnique(cs, cs[i]);
      LookupUnique(InOrder(es, cs), InOrder(es, cs)[i]);
      InOrderLookup(es, cs, cs[i].surfaceRef);
    }
  }

  // ---- forward migration ----

  lemma GammaTimed(b: SessionImage)
    ensures Covered(Gamma(b)) && Timed(b.surfaces, Gamma(b).coefficients)
  {
    forall e | e in b.surfaces ensures Lookup(Gamma(b).coefficients, e.id) == Some(TOP) {
      var i :| 0 <= i < |b.surfaces| && b.surfaces[i] == e;
      assert Ids(b.surfaces)[i] == e.id;
      GammaLookup(b, e.id);
    }
  }

  lemma GammaPrints(b: SessionImage, show64: real -> string, scan64: string -> Option<real>)
    ensures PrintsAll(show64, scan64, Gamma(b).coefficients)
  {
  }

  /**
   * A session checkpointed by v0, embedded and written by v1: the v0 parser reads the v1 document as it
   * reads the v0 one, under the same id, and gives a storable session back unchanged. The v1 parser
   * accepts the document exactly when the surface ids are distinct, and abstracts it to the same image.
   */
  lemma ForwardMigration(b: SessionImage, show: real -> string, scan: string -> Option<real>,
                         show64: real -> string, scan64: string -> Option<real>, sha: seq<byte> -> Digest)
    requires Prints(show, scan, b.layout.scrollPos)
    ensures var xml, id := ToXmlV1(Gamma(b), show, show64, sha), ComputeId(b, show, sha);
            && Parsed(xml, scan) == Parsed(ToXml(b.(id := Some(id)), show, sha), scan) == Ok(Normalised(b, id))
            && (Storable(b) ==> Parsed(xml, scan) == Ok(b.(id := Some(id))))
            && (ParsedV1(xml, scan, scan64).Ok? <==> DistinctIds(b))
            && (DistinctIds(b) ==> Alpha(ParsedV1(xml, scan, scan64).value) == Normalised(b, id))
  {
    var id := ComputeId(b, show, sha);
    GammaPrints(b, show64, scan64);
    GammaTimed(b);
    assert Alpha(Gamma(b)) == b && Gamma(b).base == b;
    ParserLevelAlpha(Gamma(b), show, scan, show64, scan64, sha);
    V1XmlRoundTrip(Gamma(b), show, scan, show64, scan64, sha);
    NormalisedFixedPoint(b.(id := Some(id)), id);
    hide ToXmlV1, Parsed, ParsedV1, Gamma, PrintsAll, Timed, Covered, Storable, ComputeId, ToXml, SortSurfaces,
      ReadEntries;
    StorableAnyId(b, Some(id));
  }

  lemma StorableAnyId(b: SessionImage, id: Option<string>)
    ensures Storable(b.(id := id)) <==> Storable(b)
  {
    hide Sorting.SortedBy, ReadEntry;
  }
}
