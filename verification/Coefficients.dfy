/**
 * The v1 coefficient semiring's order: timing intervals, confidentiality, integrity and linearity.
 * Smaller is more constrained. `show` and `scan` stand for `f64` formatting and parsing.
 */
module Coefficients {
  import opened Wrappers
  import opened Text

  datatype Bound = NegInf | Finite(v: real) | PosInf {
    /** Comparison key: a tag, and the value where the tags agree. */
    function Key(): (int, real) {
      match this case NegInf => (-1, 0.0) case Finite(x) => (0, x) case PosInf => (1, 0.0)
    }

    predicate Le(other: Bound) {
      var (ta, va) := Key();
      var (tb, vb) := other.Key();
      if ta != tb then ta < tb else va <= vb
    }

    function ToStr(show: real -> string): string {
      match this
      case NegInf => "-INF"
      case PosInf => "+INF"
      case Finite(v) => if v == 0.0 then "0" else show(v)
    }

    static function Parse(s: string, scan: string -> Option<real>): Option<Bound> {
      var t := RustTrim(s);
      if t == "-INF" then Some(NegInf)
      else if t == "+INF" || t == "INF" then Some(PosInf)
      else var v :- scan(t); Some(Finite(v))
    }
  }

  datatype Interval = Interval(lo: Bound, hi: Bound) {
    predicate ContainedIn(other: Interval) { other.lo.Le(lo) && hi.Le(other.hi) }
  }

  const UNBOUNDED := Interval(NegInf, PosInf)

  datatype Confidentiality = Secret | Restricted | Public {
    function Rank(): nat { match this case Secret => 0 case Restricted => 1 case Public => 2 }

    function ToStr(): string {
      match this case Secret => "secret" case Restricted => "restricted" case Public => "public"
    }

    static function Parse(s: string): Option<Confidentiality> {
      if s == "secret" then Some(Secret) else if s == "restricted" then Some(Restricted)
      else if s == "public" then Some(Public) else None
    }
  }

  datatype Integrity = Trusted | Endorsed | Untrusted {
    function Rank(): nat { match this case Trusted => 0 case Endorsed => 1 case Untrusted => 2 }

    function ToStr(): string {
      match this case Trusted => "trusted" case Endorsed => "endorsed" case Untrusted => "untrusted"
    }

    static function Parse(s: string): Option<Integrity> {
      if s == "trusted" then Some(Trusted) else if s == "endorsed" then Some(Endorsed)
      else if s == "untrusted" then Some(Untrusted) else None
    }
  }

  datatype Linearity = Count(n: u64) | Omega {
    predicate Le(other: Linearity) {
      match (this, other)
      case (_, Omega) => true
      case (Omega, Count(_)) => false
      case (Count(a), Count(b)) => a <= b
    }

    function ToStr(): string { match this case Omega => "omega" case Count(n) => Dec(n) }

    static function Parse(s: string): Option<Linearity> {
      if s == "omega" then Some(Omega)
      else var n :- ParseUnsigned(s, U64_LIMIT); Some(Count(n))
    }
  }

  datatype Coefficient = Coefficient(
    timing: seq<Interval>, confidentiality: Confidentiality, integrity: Integrity, linearity: Linearity)
  {
    predicate IsTop() {
      |timing| == 1 && timing[0] == UNBOUNDED
      && confidentiality == Public && integrity == Untrusted && linearity == Omega
    }

    /** The product order; different numbers of delay paths are incomparable. */
    predicate Leq(other: Coefficient) {
      && |timing| == |other.timing|
      && (forall i :: 0 <= i < |timing| ==> timing[i].ContainedIn(other.timing[i]))
      && confidentiality.Rank() <= other.confidentiality.Rank()
      && integrity.Rank() <= other.integrity.Rank()
      && linearity.Le(other.linearity)
    }
  }

  const TOP := Coefficient([UNBOUNDED], Public, Untrusted, Omega)

  // ---- the order ----

  lemma CoefficientReflexive(a: Coefficient)
    ensures a.Leq(a)
  {
  }

  lemma CoefficientTransitive(a: Coefficient, b: Coefficient, c: Coefficient)
    requires a.Leq(b) && b.Leq(c)
    ensures a.Leq(c)
  {
  }

  lemma CoefficientAntisymmetric(a: Coefficient, b: Coefficient)
    requires a.Leq(b) && b.Leq(a)
    ensures a == b
  {
  }

  /** What lies under the top is exactly what has one delay path; only the top lies over it. */
  lemma TopBounds(a: Coefficient)
    ensures a.Leq(TOP) <==> |a.timing| == 1
    ensures TOP.Leq(a) <==> a.IsTop()
    ensures a.IsTop() <==> a == TOP
  {
  }

  // ---- spellings ----

  /** The float layer carries this bound. */
  predicate PrintsBound(show: real -> string, scan: string -> Option<real>, b: Bound) {
    b.Finite? ==>
      var s := b.ToStr(show);
      RustTrim(s) == s && s != "-INF" && s != "+INF" && s != "INF"
      && '"' !in s && '&' !in s && scan(s) == Some(b.v)
  }

  lemma BoundRoundTrip(b: Bound, show: real -> string, scan: string -> Option<real>)
    requires PrintsBound(show, scan, b)
    ensures Bound.Parse(b.ToStr(show), scan) == Some(b)
    ensures '"' !in b.ToStr(show) && Unescape(b.ToStr(show)) == Some(b.ToStr(show))
  {
    assert "-INF"[0] == '-' && "+INF"[0] == '+';
    UnescapePlain(b.ToStr(show));
  }

  lemma LabelRoundTrip(c: Confidentiality, i: Integrity)
    ensures Confidentiality.Parse(c.ToStr()) == Some(c) && Integrity.Parse(i.ToStr()) == Some(i)
    ensures '"' !in c.ToStr() && '&' !in c.ToStr() && '"' !in i.ToStr() && '&' !in i.ToStr()
  {
  }

  lemma LinearityRoundTrip(l: Linearity)
    ensures Linearity.Parse(l.ToStr()) == Some(l)
    ensures '"' !in l.ToStr() && Unescape(l.ToStr()) == Some(l.ToStr())
  {
    if l.Count? {
      DecRoundTrip(l.n, U64_LIMIT);
      DecDigits(l.n);
      assert Dec(l.n)[0] in Dec(l.n);
      assert "omega"[0] == 'o';
    } else {
      UnescapePlain("omega");
    }
  }
}
