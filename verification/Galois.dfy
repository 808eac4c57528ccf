/**
 * The v0/v1 session-image connection: validity, abstraction, concretisation and the product order,
 * with the exact conditions under which the documented laws hold of the code.
 */
module Galois {
  import opened Wrappers
  import opened Text
  import opened Session
  import opened SessionLaws
  import opened Coefficients
  import Sorting

  datatype SurfaceCoefficient = SurfaceCoefficient(surfaceRef: SurfaceId, coefficient: Coefficient)

  datatype SessionImageV1 = SessionImageV1(base: SessionImage, coefficients: seq<SurfaceCoefficient>)

  // ---- definitions ----

  function CountRefs(cs: seq<SurfaceCoefficient>, id: SurfaceId): nat {
    if cs == [] then 0 else (if cs[0].surfaceRef == id then 1 else 0) + CountRefs(cs[1..], id)
  }

  function Lookup(cs: seq<SurfaceCoefficient>, id: SurfaceId): Option<Coefficient> {
    if cs == [] then None
    else if cs[0].surfaceRef == id then Some(cs[0].coefficient)
    else Lookup(cs[1..], id)
  }

  function CoefficientFor(x: SessionImageV1, id: SurfaceId): Option<Coefficient> { Lookup(x.coefficients, id) }

  /** One coefficient per surface, as the code checks it: equal counts, and each surface named once. */
  predicate Valid(x: SessionImageV1) {
    && |x.coefficients| == |x.base.surfaces|
    && forall e :: e in x.base.surfaces ==> CountRefs(x.coefficients, e.id) == 1
  }

  function CountError(x: SessionImageV1): SessionError {
    Malformed("v1 image has " + Dec(|x.base.surfaces|) + " surfaces but " + Dec(|x.coefficients|) + " coefficients")
  }

  function RefError(id: SurfaceId, n: nat): SessionError {
    Malformed("surface " + SurfaceIdToStr(id) + " has " + Dec(n) + " coefficients (expected 1)")
  }

  /** The first surface at fault, in list order. */
  function ScanRefs(es: seq<SurfaceEntry>, cs: seq<SurfaceCoefficient>): Result<(), SessionError> {
    if es == [] then Ok(())
    else if CountRefs(cs, es[0].id) != 1 then Err(RefError(es[0].id, CountRefs(cs, es[0].id)))
    else ScanRefs(es[1..], cs)
  }

  function Validation(x: SessionImageV1): Result<(), SessionError> {
    if |x.coefficients| != |x.base.surfaces| then Err(CountError(x)) else ScanRefs(x.base.surfaces, x.coefficients)
  }

  lemma {:induction false} ScanRefsSound(es: seq<SurfaceEntry>, cs: seq<SurfaceCoefficient>)
    ensures ScanRefs(es, cs).Ok? <==> forall e :: e in es ==> CountRefs(cs, e.id) == 1
  {
    if es != [] {
      ScanRefsSound(es[1..], cs);
      assert es == [es[0]] + es[1..];
    }
  }

  lemma ValidationIsValid(x: SessionImageV1)
    ensures Validation(x).Ok? <==> Valid(x)
  {
    ScanRefsSound(x.base.surfaces, x.coefficients);
  }

  /** The validity check: a read-only scan that stops at the first surface at fault. */
  method Validate(x: SessionImageV1) returns (r: Result<(), SessionError>)
    ensures r == Validation(x)
    ensures r.Ok? <==> Valid(x)
  {
    ValidationIsValid(x);
    if |x.coefficients| != |x.base.surfaces| { return Err(CountError(x)); }
    for i := 0 to |x.base.surfaces|
      invariant ScanRefs(x.base.surfaces, x.coefficients) == ScanRefs(x.base.surfaces[i..], x.coefficients)
    {
      var n := CountRefs(x.coefficients, x.base.surfaces[i].id);
      if n != 1 {
        return Err(RefError(x.base.surfaces[i].id, n));
      }
    }
    return Ok(());
  }

  predicate CoeffIsTop(x: SessionImageV1) { forall c :: c in x.coefficients ==> c.coefficient.IsTop() }

  predicate BaseEq(x: SessionImageV1, y: SessionImageV1, show: real -> string) {
    CanonicalBytes(x.base, show) == CanonicalBytes(y.base, show)
  }

  predicate Leq(x: SessionImageV1, y: SessionImageV1, show: real -> string) {
    && BaseEq(x, y, show)
    && (forall sc :: sc in x.coefficients ==>
          var o := CoefficientFor(y, sc.surfaceRef);
          o.Some? && sc.coefficient.Leq(o.value))
    && |x.coefficients| == |y.coefficients|
  }

  /** Forget the coefficients. */
  function Alpha(x: SessionImageV1): SessionImage { x.base }

  function TopCoefficients(es: seq<SurfaceEntry>): seq<SurfaceCoefficient> {
    seq(|es|, i requires 0 <= i < |es| => SurfaceCoefficient(es[i].id, TOP))
  }

  /** Embed at the top. */
  function Gamma(b: SessionImage): SessionImageV1 { SessionImageV1(b, TopCoefficients(b.surfaces)) }

  function Ids(es: seq<SurfaceEntry>): seq<SurfaceId> { seq(|es|, i requires 0 <= i < |es| => es[i].id) }

  function Refs(cs: seq<SurfaceCoefficient>): seq<SurfaceId> { seq(|cs|, i requires 0 <= i < |cs| => cs[i].surfaceRef) }

  ghost predicate DistinctIds(b: SessionImage) { Sorting.NoDup(Ids(b.surfaces)) }

  predicate SinglePath(x: SessionImageV1) { forall c :: c in x.coefficients ==> |c.coefficient.timing| == 1 }

  // ---- counting ----

  lemma {:induction false} CountIsMultiplicity(cs: seq<SurfaceCoefficient>, id: SurfaceId)
    ensures CountRefs(cs, id) == multiset(Refs(cs))[id]
  {
    if cs != [] {
      CountIsMultiplicity(cs[1..], id);
      assert Refs(cs) == [cs[0].surfaceRef] + Refs(cs[1..]);
    }
  }

  lemma SubsetSameSize<T>(a: multiset<T>, b: multiset<T>)
    requires a <= b && |a| == |b|
    ensures a == b
  {
    assert b == a + (b - a);
    assert |b - a| == 0;
  }

  /** Validity on distinct ids: each reference names one surface and each surface is named once. */
  lemma ValidIsBijection(x: SessionImageV1)
    requires DistinctIds(x.base)
    ensures Valid(x) <==> multiset(Refs(x.coefficients)) == multiset(Ids(x.base.surfaces))
    ensures Valid(x) <==>
            Sorting.NoDup(Refs(x.coefficients))
            && (forall id :: id in Refs(x.coefficients) <==> id in Ids(x.base.surfaces))
  {
    var ids, refs := Ids(x.base.surfaces), Refs(x.coefficients);
    Sorting.NoDupMultiplicity(ids);
    Sorting.NoDupMultiplicity(refs);
    if Valid(x) {
      forall id ensures multiset(ids)[id] <= multiset(refs)[id] {
        if id in ids {
          var i :| 0 <= i < |ids| && ids[i] == id;
          assert x.base.surfaces[i] in x.base.surfaces;
          CountIsMultiplicity(x.coefficients, id);
        }
      }
      SubsetSameSize(multiset(ids), multiset(refs));
    }
    if multiset(refs) == multiset(ids) {
      assert |refs| == |multiset(refs)| == |multiset(ids)| == |ids|;
      forall e | e in x.base.surfaces ensures CountRefs(x.coefficients, e.id) == 1 {
        var i :| 0 <= i < |x.base.surfaces| && x.base.surfaces[i] == e;
        assert ids[i] == e.id;
        CountIsMultiplicity(x.coefficients, e.id);
      }
      forall id ensures id in refs <==> id in ids {
        assert id in refs <==> id in multiset(refs);
        assert id in ids <==> id in multiset(ids);
      }
      forall id | id in refs ensures multiset(refs)[id] == 1 {
        assert id in multiset(ids) && id in ids;
      }
    }
    if Sorting.NoDup(refs) && forall id :: id in refs <==> id in ids {
      forall id ensures multiset(refs)[id] == multiset(ids)[id] {
        assert id in refs <==> id in multiset(refs);
        assert id in ids <==> id in multiset(ids);
      }
      assert multiset(refs) == multiset(ids);
    }
  }

  /** Of a valid image: every reference resolves exactly when the surface ids are distinct. */
  lemma RefsResolveIffDistinct(x: SessionImageV1)
    requires Valid(x)
    ensures DistinctIds(x.base) <==> forall c :: c in x.coefficients ==> c.surfaceRef in Ids(x.base.surfaces)
  {
    var ids, refs := Ids(x.base.surfaces), Refs(x.coefficients);
    Sorting.NoDupMultiplicity(ids);
    Sorting.NoDupMultiplicity(refs);
    if DistinctIds(x.base) {
      ValidIsBijection(x);
      forall c | c in x.coefficients ensures c.surfaceRef in ids {
        var i :| 0 <= i < |x.coefficients| && x.coefficients[i] == c;
        assert refs[i] == c.surfaceRef;
      }
    }
    if forall c :: c in x.coefficients ==> c.surfaceRef in ids {
      forall id ensures multiset(refs)[id] <= multiset(ids)[id] {
        if id in refs {
          var i :| 0 <= i < |refs| && refs[i] == id;
          assert x.coefficients[i] in x.coefficients;
          assert id in ids;
          var j :| 0 <= j < |ids| && ids[j] == id;
          assert x.base.surfaces[j] in x.base.surfaces;
          CountIsMultiplicity(x.coefficients, id);
          assert id in multiset(ids);
        }
      }
      SubsetSameSize(multiset(refs), multiset(ids));
      forall id | id in ids ensures multiset(ids)[id] == 1 {
        var j :| 0 <= j < |ids| && ids[j] == id;
        assert x.base.surfaces[j] in x.base.surfaces;
        CountIsMultiplicity(x.coefficients, id);
      }
    }
  }

  /** The embedding of a v0 image is valid exactly when its surface ids are distinct. */
  lemma GammaValidIffDistinct(b: SessionImage)
    ensures Valid(Gamma(b)) <==> DistinctIds(b)
  {
    var g := Gamma(b);
    assert Refs(g.coefficients) == Ids(b.surfaces);
    if DistinctIds(b) {
      ValidIsBijection(g);
    }
    if Valid(g) {
      forall c | c in g.coefficients ensures c.surfaceRef in Ids(b.surfaces) {
        var i :| 0 <= i < |g.coefficients| && g.coefficients[i] == c;
        assert Ids(b.surfaces)[i] == c.surfaceRef;
      }
      RefsResolveIffDistinct(g);
    }
  }

  // ---- lookup ----

  lemma {:induction false} LookupFinds(cs: seq<SurfaceCoefficient>, id: SurfaceId)
    ensures Lookup(cs, id).None? <==> id !in Refs(cs)
    ensures Lookup(cs, id).Some? ==> SurfaceCoefficient(id, Lookup(cs, id).value) in cs
  {
    if cs != [] {
      LookupFinds(cs[1..], id);
      assert Refs(cs) == [cs[0].surfaceRef] + Refs(cs[1..]);
      assert cs == [cs[0]] + cs[1..];
    }
  }

  /** The first coefficient that names the surface is the one found, whatever follows it. */
  lemma {:induction false} LookupFirst(cs: seq<SurfaceCoefficient>, i: nat)
    requires i < |cs| && forall j :: 0 <= j < i ==> cs[j].surfaceRef != cs[i].surfaceRef
    ensures Lookup(cs, cs[i].surfaceRef) == Some(cs[i].coefficient)
  {
    if i > 0 {
      assert cs[1..][i - 1] == cs[i];
      LookupFirst(cs[1..], i - 1);
    }
  }

  lemma {:induction false} LookupUnique(cs: seq<SurfaceCoefficient>, c: SurfaceCoefficient)
    requires Sorting.NoDup(Refs(cs)) && c in cs
    ensures Lookup(cs, c.surfaceRef) == Some(c.coefficient)
  {
    assert Refs(cs) == [cs[0].surfaceRef] + Refs(cs[1..]);
    assert cs == [cs[0]] + cs[1..];
    if c != cs[0] {
      var i :| 0 <= i < |cs[1..]| && cs[1..][i] == c;
      assert Refs(cs)[i + 1] == c.surfaceRef && Refs(cs)[0] == cs[0].surfaceRef;
      assert Sorting.NoDup(Refs(cs[1..])) by {
        forall i, j | 0 <= i < j < |Refs(cs[1..])| ensures Refs(cs[1..])[i] != Refs(cs[1..])[j] {
          assert Refs(cs)[i + 1] != Refs(cs)[j + 1];
        }
      }
      LookupUnique(cs[1..], c);
    }
  }

  lemma GammaLookup(b: SessionImage, id: SurfaceId)
    ensures CoefficientFor(Gamma(b), id) == if id in Ids(b.surfaces) then Some(TOP) else None
  {
    var g := Gamma(b);
    assert Refs(g.coefficients) == Ids(b.surfaces);
    LookupFinds(g.coefficients, id);
    assert forall c :: c in g.coefficients ==> c.coefficient == TOP;
  }

  // ---- the connection ----

  /** A base the canonical form can tell apart from others. */
  predicate Plain(b: SessionImage, show: real -> string) { PlainFloat(show, b.layout.scrollPos) }

  /**
   * The adjunction, in its exact form, over every valid image: `x` lies under the embedding of `y`
   * exactly when their bases agree, surface ids are distinct, and each coefficient has one delay path.
   */
  lemma Adjunction(x: SessionImageV1, y: SessionImage, show: real -> string)
    requires Valid(x) && Plain(x.base, show) && Plain(y, show)
    ensures Leq(x, Gamma(y), show) <==>
            CanonicalBytes(Alpha(x), show) == CanonicalBytes(y, show) && DistinctIds(x.base) && SinglePath(x)
  {
    CanonicalInjective(x.base, y, show);
    RefsResolveIffDistinct(x);
    forall c | c in x.coefficients
      ensures var o := CoefficientFor(Gamma(y), c.surfaceRef);
              o.Some? && c.coefficient.Leq(o.value)
              <==> c.surfaceRef in Ids(y.surfaces) && |c.coefficient.timing| == 1
    {
      GammaLookup(y, c.surfaceRef);
      TopBounds(c.coefficient);
    }
  }

  /**
   * The law as documented, `α(x) ⊑ y ⟺ x ⊑ γ(y)`, holds for all `y` exactly on distinct ids and single
   * delay paths.
   */
  lemma AdjunctionExact(x: SessionImageV1, show: real -> string)
    requires Valid(x) && Plain(x.base, show)
    ensures (forall y :: Plain(y, show) ==>
              (CanonicalBytes(Alpha(x), show) == CanonicalBytes(y, show) <==> Leq(x, Gamma(y), show)))
            <==> DistinctIds(x.base) && SinglePath(x)
  {
    forall y | Plain(y, show)
      ensures Leq(x, Gamma(y), show) <==>
              CanonicalBytes(Alpha(x), show) == CanonicalBytes(y, show) && DistinctIds(x.base) && SinglePath(x)
    {
      Adjunction(x, y, show);
    }
    assert Plain(x.base, show);
  }

  // ---- the order ----

  lemma LeqReflexive(x: SessionImageV1, show: real -> string)
    requires Valid(x) && DistinctIds(x.base)
    ensures Leq(x, x, show)
  {
    ValidIsBijection(x);
    forall c | c in x.coefficients
      ensures CoefficientFor(x, c.surfaceRef) == Some(c.coefficient) && c.coefficient.Leq(c.coefficient)
    {
      LookupUnique(x.coefficients, c);
      CoefficientReflexive(c.coefficient);
    }
  }

  lemma LeqTransitive(x: SessionImageV1, y: SessionImageV1, z: SessionImageV1, show: real -> string)
    requires Leq(x, y, show) && Leq(y, z, show)
    ensures Leq(x, z, show)
  {
    forall c | c in x.coefficients
      ensures var o := CoefficientFor(z, c.surfaceRef); o.Some? && c.coefficient.Leq(o.value)
    {
      var b := CoefficientFor(y, c.surfaceRef).value;
      LookupFinds(y.coefficients, c.surfaceRef);
      var d := CoefficientFor(z, c.surfaceRef).value;
      CoefficientTransitive(c.coefficient, b, d);
    }
  }

  /** Two images below each other agree on content and on the coefficient of every surface. */
  lemma LeqAntisymmetric(x: SessionImageV1, y: SessionImageV1, show: real -> string)
    requires Valid(x) && DistinctIds(x.base) && Valid(y) && DistinctIds(y.base)
    requires Plain(x.base, show) && Plain(y.base, show)
    requires Leq(x, y, show) && Leq(y, x, show)
    ensures SameContent(x.base, y.base, show)
    ensures forall id :: CoefficientFor(x, id) == CoefficientFor(y, id)
    ensures multiset(Refs(x.coefficients)) == multiset(Refs(y.coefficients))
  {
    CanonicalInjective(x.base, y.base, show);
    ValidIsBijection(x);
    ValidIsBijection(y);
    forall id ensures CoefficientFor(x, id) == CoefficientFor(y, id) {
      LookupFinds(x.coefficients, id);
      LookupFinds(y.coefficients, id);
      if id in Refs(x.coefficients) {
        var a, b := CoefficientFor(x, id).value, CoefficientFor(y, id).value;
        var sa, sb := SurfaceCoefficient(id, a), SurfaceCoefficient(id, b);
        assert sa in x.coefficients && sb in y.coefficients;
        assert a.Leq(CoefficientFor(y, sa.surfaceRef).value);
        assert b.Leq(CoefficientFor(x, sb.surfaceRef).value);
        CoefficientAntisymmetric(a, b);
      }
    }
  }

  /** The round trip through v0 is a closure operator on valid single-path images: it inflates, */
  lemma RoundTripInflates(x: SessionImageV1, show: real -> string)
    requires Valid(x) && DistinctIds(x.base) && SinglePath(x) && Plain(x.base, show)
    ensures Leq(x, Gamma(Alpha(x)), show)
  {
    Adjunction(x, x.base, show);
  }

  /** ... keeps the order (on any images at all), */
  lemma RoundTripMonotone(x: SessionImageV1, y: SessionImageV1, show: real -> string)
    requires Plain(x.base, show) && Plain(y.base, show)
    requires Leq(x, y, show)
    ensures Leq(Gamma(Alpha(x)), Gamma(Alpha(y)), show)
  {
    CanonicalInjective(x.base, y.base, show);
    var g := Gamma(x.base);
    forall c | c in g.coefficients
      ensures CoefficientFor(Gamma(y.base), c.surfaceRef) == Some(TOP) && c.coefficient.Leq(TOP)
    {
      var i :| 0 <= i < |g.coefficients| && g.coefficients[i] == c;
      assert Ids(x.base.surfaces)[i] == c.surfaceRef;
      hide CanonicalBytes, CoefficientFor, Coefficient.Leq;
      GammaLookup(y.base, c.surfaceRef);
      TopBounds(TOP);
    }
  }

  lemma TopReturns(x: SessionImageV1, show: real -> string)
    requires Valid(x) && DistinctIds(x.base) && CoeffIsTop(x)
    ensures Leq(Gamma(Alpha(x)), x, show)
  {
    var ids, g := Ids(x.base.surfaces), Gamma(x.base);
    ValidIsBijection(x);
    forall c | c in g.coefficients
      ensures var o := CoefficientFor(x, c.surfaceRef); o.Some? && c.coefficient.Leq(o.value)
    {
      var i :| 0 <= i < |g.coefficients| && g.coefficients[i] == c;
      assert ids[i] == c.surfaceRef;
      LookupFinds(x.coefficients, c.surfaceRef);
      var o := CoefficientFor(x, c.surfaceRef).value;
      assert SurfaceCoefficient(c.surfaceRef, o) in x.coefficients;
      TopBounds(o);
    }
  }

  /** In an image above its round trip, the coefficient of a surface is the top. */
  lemma ReturnsTopAt(x: SessionImageV1, j: nat, c: SurfaceCoefficient, show: real -> string)
    requires Leq(Gamma(Alpha(x)), x, show) && Sorting.NoDup(Refs(x.coefficients))
    requires j < |x.base.surfaces| && x.base.surfaces[j].id == c.surfaceRef && c in x.coefficients
    ensures c.coefficient.IsTop()
  {
    var g := Gamma(x.base).coefficients;
    assert g[j] == SurfaceCoefficient(c.surfaceRef, TOP) && g[j] in g;
    LookupUnique(x.coefficients, c);
    TopBounds(c.coefficient);
  }

  lemma RefsDistinct(x: SessionImageV1)
    requires Valid(x) && DistinctIds(x.base)
    ensures Sorting.NoDup(Refs(x.coefficients))
  {
    ValidIsBijection(x);
  }

  lemma SurfaceOf(x: SessionImageV1, c: SurfaceCoefficient) returns (j: nat)
    requires Valid(x) && DistinctIds(x.base) && c in x.coefficients
    ensures j < |x.base.surfaces| && x.base.surfaces[j].id == c.surfaceRef
  {
    RefsResolveIffDistinct(x);
    j :| 0 <= j < |Ids(x.base.surfaces)| && Ids(x.base.surfaces)[j] == c.surfaceRef;
  }

  lemma ReturnsOnlyTop(x: SessionImageV1, show: real -> string)
    requires Valid(x) && DistinctIds(x.base) && Leq(Gamma(Alpha(x)), x, show)
    ensures CoeffIsTop(x)
  {
    RefsDistinct(x);
    hide Leq, Valid, Gamma, Coefficient.IsTop, DistinctIds;
    forall c | c in x.coefficients ensures c.coefficient.IsTop() {
      var j := SurfaceOf(x, c);
      ReturnsTopAt(x, j, c, show);
    }
  }

  /** ... and is idempotent; it comes back below `x` exactly when every coefficient already was the top. */
  lemma RoundTripReturnsIffTop(x: SessionImageV1, show: real -> string)
    requires Valid(x) && DistinctIds(x.base)
    ensures Gamma(Alpha(Gamma(Alpha(x)))) == Gamma(Alpha(x))
    ensures Leq(Gamma(Alpha(x)), x, show) <==> CoeffIsTop(x)
  {
    if CoeffIsTop(x) {
      TopReturns(x, show);
    }
    if Leq(Gamma(Alpha(x)), x, show) {
      ReturnsOnlyTop(x, show);
    }
  }

  // ---- where the documented laws fail ----

  function SampleImage(es: seq<SurfaceEntry>): SessionImage {
    SessionImage(None, "2026-06-28T19:44:09Z", SCHEMA_VERSION, es, Layout(0.0, None))
  }

  function SampleSurface(n: byte): SurfaceEntry {
    SurfaceEntry(seq(32, _ => n), "s", 0, HostEntry("127.0.0.1:7001", Linux, "m", "display:0"), H265, 960, 540)
  }

  /** A one-surface image whose coefficient has `n` unbounded delay paths. */
  function ManyPaths(n: nat): SessionImageV1 {
    var e := SampleSurface(7);
    SessionImageV1(SampleImage([e]), [SurfaceCoefficient(e.id, TOP.(timing := seq(n, _ => UNBOUNDED)))])
  }

  lemma ManyPathsValid(n: nat)
    ensures Valid(ManyPaths(n)) && DistinctIds(ManyPaths(n).base)
    ensures SinglePath(ManyPaths(n)) <==> n == 1
  {
    var x := ManyPaths(n);
    assert x.coefficients[1..] == [];
    assert x.coefficients[0] in x.coefficients;
  }

  /** With two delay paths `α(x) ⊑ b` holds of `b := α(x)` and `x ⊑ γ(b)` does not. */
  lemma TwoDelayPathsBreakTheLaw(show: real -> string)
    ensures var x := ManyPaths(2);
            Valid(x) && DistinctIds(x.base) && !Leq(x, Gamma(Alpha(x)), show)
  {
    ManyPathsValid(2);
    Adjunction(ManyPaths(2), ManyPaths(2).base, show);
  }

  /** Two surfaces share an id and the second coefficient names no surface. */
  function RepeatedIds(): SessionImageV1 {
    var e, f := SampleSurface(7), SampleSurface(8);
    SessionImageV1(SampleImage([e, e]), [SurfaceCoefficient(e.id, TOP), SurfaceCoefficient(f.id, TOP)])
  }

  lemma RepeatedIdsValid(e: SurfaceEntry, a: SurfaceCoefficient, b: SurfaceCoefficient)
    requires a.surfaceRef == e.id && b.surfaceRef != e.id
    ensures Valid(SessionImageV1(SampleImage([e, e]), [a, b]))
    ensures !DistinctIds(SampleImage([e, e]))
  {
    var cs := [a, b];
    assert cs[1..] == [b] && [b][1..] == [];
    assert CountRefs(cs[1..], e.id) == 0;
    assert Ids([e, e])[0] == Ids([e, e])[1];
  }

  /** `validate` accepts it, and it is not below its own round trip. */
  lemma RepeatedIdsPassValidation(show: real -> string)
    ensures Valid(RepeatedIds()) && SinglePath(RepeatedIds())
    ensures !Leq(RepeatedIds(), Gamma(Alpha(RepeatedIds())), show)
  {
    hide Leq, CanonicalBytes, Valid;
    var x := RepeatedIds();
    assert SampleSurface(7).id[0] != SampleSurface(8).id[0];
    RepeatedIdsValid(SampleSurface(7), x.coefficients[0], x.coefficients[1]);
    Adjunction(x, x.base, show);
  }
}
