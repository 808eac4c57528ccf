/**
 * The second parser pass: coefficients out of a v1 document. `CStep` is one event, `CRun` its fold,
 * and `ParseCoefficients` the event loop, proved to compute the fold.
 */
module CoefficientParse {
  import opened Wrappers
  import opened Text
  import opened Xml
  import opened Session
  import opened Coefficients
  import opened Galois
  import opened SessionParse

  datatype CElem = CoefficientsEl | SurfaceCoefficientEl | DelayPathEl | SecurityEl | LinearityEl | ForeignEl

  datatype CoeffBuilder = CoeffBuilder(
    surfaceRef: SurfaceId, timing: seq<Interval>,
    confidentiality: Option<Confidentiality>, integrity: Option<Integrity>, linearity: Option<Linearity>)
  {
    function Build(): Result<SurfaceCoefficient, SessionError> {
      if timing == [] then Err(Malformed("surface-coefficient missing <timing/delay-path>"))
      else
        var c :- OkOr(confidentiality, Malformed("surface-coefficient missing <security>"));
        var i :- OkOr(integrity, Malformed("surface-coefficient missing <security>"));
        var l :- OkOr(linearity, Malformed("surface-coefficient missing <linearity>"));
        Ok(SurfaceCoefficient(surfaceRef, Coefficient(timing, c, i, l)))
    }
  }

  datatype CState = CState(inCoeffs: bool, cur: Option<CoeffBuilder>, out: seq<SurfaceCoefficient>)

  const C_INIT := CState(false, None, [])

  function CElemOf(local: string): CElem {
    if local == "coefficients" then CoefficientsEl
    else if local == "surface-coefficient" then SurfaceCoefficientEl
    else if local == "delay-path" then DelayPathEl
    else if local == "security" then SecurityEl
    else if local == "linearity" then LinearityEl
    else ForeignEl
  }

  function CKindOf(qname: string): CElem { CElemOf(LocalName(qname)) }

  function Outside(tag: string): SessionError { Malformed("<" + tag + "> outside <surface-coefficient>") }

  function ReadDelay(b: CoeffBuilder, attrs: seq<Attr>, scan64: string -> Option<real>)
    : Result<CoeffBuilder, SessionError>
  {
    var l :- AttrStr(attrs, "lo");
    var lo :- OkOr(Bound.Parse(l, scan64), Malformed("bad delay-path/@lo"));
    var h :- AttrStr(attrs, "hi");
    var hi :- OkOr(Bound.Parse(h, scan64), Malformed("bad delay-path/@hi"));
    Ok(b.(timing := b.timing + [Interval(lo, hi)]))
  }

  function ReadSecurity(b: CoeffBuilder, attrs: seq<Attr>): Result<CoeffBuilder, SessionError> {
    var c :- AttrStr(attrs, "confidentiality");
    var conf :- OkOr(Confidentiality.Parse(c), UnknownEnum("confidentiality", c));
    var i :- AttrStr(attrs, "integrity");
    var integ :- OkOr(Integrity.Parse(i), UnknownEnum("integrity", i));
    Ok(b.(confidentiality := Some(conf), integrity := Some(integ)))
  }

  function ReadLinearity(b: CoeffBuilder, attrs: seq<Attr>): Result<CoeffBuilder, SessionError> {
    var c :- AttrStr(attrs, "count");
    var l :- OkOr(Linearity.Parse(c), Malformed("bad linearity/@count"));
    Ok(b.(linearity := Some(l)))
  }

  function CStart(st: CState, k: CElem, attrs: seq<Attr>, scan64: string -> Option<real>)
    : Result<CState, SessionError>
  {
    match k
    case CoefficientsEl => Ok(st.(inCoeffs := true))
    case ForeignEl => Ok(st)
    case SurfaceCoefficientEl =>
      if !st.inCoeffs then Ok(st)
      else
        var r :- AttrStr(attrs, "surface-ref");
        var id :- ParseSurfaceId(r);
        Ok(st.(cur := Some(CoeffBuilder(id, [], None, None, None))))
    case DelayPathEl =>
      if !st.inCoeffs then Ok(st)
      else
        var b :- OkOr(st.cur, Outside("delay-path"));
        var b' :- ReadDelay(b, attrs, scan64);
        Ok(st.(cur := Some(b')))
    case SecurityEl =>
      if !st.inCoeffs then Ok(st)
      else
        var b :- OkOr(st.cur, Outside("security"));
        var b' :- ReadSecurity(b, attrs);
        Ok(st.(cur := Some(b')))
    case LinearityEl =>
      if !st.inCoeffs then Ok(st)
      else
        var b :- OkOr(st.cur, Outside("linearity"));
        var b' :- ReadLinearity(b, attrs);
        Ok(st.(cur := Some(b')))
  }

  function CStep(st: CState, t: Tok, scan64: string -> Option<real>): Result<CState, SessionError> {
    match t
    case Start(n, a) => CStart(st, CKindOf(n), a, scan64)
    case Empty(n, a) => CStart(st, CKindOf(n), a, scan64)
    case End(n) =>
      var k := CKindOf(n);
      if k.CoefficientsEl? then Ok(st.(inCoeffs := false))
      else if k.SurfaceCoefficientEl? && st.cur.Some? then
        var c :- st.cur.value.Build();
        Ok(st.(cur := None, out := st.out + [c]))
      else Ok(st)
    case _ => Ok(st)
  }

  function CRun(toks: seq<Tok>, st: CState, scan64: string -> Option<real>): Result<CState, SessionError> {
    if toks == [] then Ok(st)
    else var s :- CStep(st, toks[0], scan64); CRun(toks[1..], s, scan64)
  }

  /** What the second pass makes of a document. */
  function ParsedCoefficients(xml: string, scan64: string -> Option<real>)
    : Result<seq<SurfaceCoefficient>, SessionError>
  {
    var toks :- OkOr(Events(xml), XmlError);
    var st :- CRun(toks, C_INIT, scan64);
    Ok(st.out)
  }

  lemma {:induction false} CRunAppend(a: seq<Tok>, b: seq<Tok>, st: CState, scan64: string -> Option<real>)
    ensures CRun(a + b, st, scan64)
         == (var r := CRun(a, st, scan64); if r.Ok? then CRun(b, r.value, scan64) else r)
  {
    if a == [] {
      assert a + b == b;
    } else {
      CutTail(a, b);
      var s := CStep(st, a[0], scan64);
      if s.Ok? {
        CRunAppend(a[1..], b, s.value, scan64);
      }
    }
  }

  lemma CRunSingle(t: Tok, st: CState, scan64: string -> Option<real>)
    ensures CRun([t], st, scan64) == CStep(st, t, scan64)
  {
  }

  lemma CRunSnoc(toks: seq<Tok>, i: nat, scan64: string -> Option<real>)
    requires i < |toks| && CRun(toks[..i], C_INIT, scan64).Ok?
    ensures CRun(toks[..i + 1], C_INIT, scan64) == CStep(CRun(toks[..i], C_INIT, scan64).value, toks[i], scan64)
    ensures CRun(toks[..i + 1], C_INIT, scan64).Err?
            ==> CRun(toks, C_INIT, scan64) == CRun(toks[..i + 1], C_INIT, scan64)
  {
    assert toks[..i + 1] == toks[..i] + [toks[i]];
    CRunAppend(toks[..i], [toks[i]], C_INIT, scan64);
    CRunSingle(toks[i], CRun(toks[..i], C_INIT, scan64).value, scan64);
    assert toks == toks[..i + 1] + toks[i + 1..];
    CRunAppend(toks[..i + 1], toks[i + 1..], C_INIT, scan64);
  }

  /** The event loop of the second pass. */
  method ParseCoefficients(xml: string, scan64: string -> Option<real>)
    returns (r: Result<seq<SurfaceCoefficient>, SessionError>)
    ensures r == ParsedCoefficients(xml, scan64)
  {
    var toks :- OkOr(Events(xml), XmlError);
    var out: seq<SurfaceCoefficient> := [];
    var inCoeffs := false;
    var cur: Option<CoeffBuilder> := None;

    for i := 0 to |toks|
      invariant CRun(toks[..i], C_INIT, scan64) == Ok(CState(inCoeffs, cur, out))
    {
      CRunSnoc(toks, i, scan64);
      var t := toks[i];
      if t.Start? || t.Empty? {
        var k := CKindOf(t.name);
        if k.CoefficientsEl? {
          inCoeffs := true;
        } else if k.SurfaceCoefficientEl? && inCoeffs {
          var ref :- AttrStr(t.attrs, "surface-ref");
          var id :- ParseSurfaceId(ref);
          cur := Some(CoeffBuilder(id, [], None, None, None));
        } else if k.DelayPathEl? && inCoeffs {
          var b :- OkOr(cur, Outside("delay-path"));
          b :- ReadDelay(b, t.attrs, scan64);
          cur := Some(b);
        } else if k.SecurityEl? && inCoeffs {
          var b :- OkOr(cur, Outside("security"));
          b :- ReadSecurity(b, t.attrs);
          cur := Some(b);
        } else if k.LinearityEl? && inCoeffs {
          var b :- OkOr(cur, Outside("linearity"));
          b :- ReadLinearity(b, t.attrs);
          cur := Some(b);
        }
      } else if t.End? {
        var k := CKindOf(t.name);
        if k.CoefficientsEl? {
          inCoeffs := false;
        } else if k.SurfaceCoefficientEl? && cur.Some? {
          var c :- cur.value.Build();
          cur := None;
          out := out + [c];
        }
      }
    }
    assert toks[..|toks|] == toks;
    return Ok(out);
  }
}
