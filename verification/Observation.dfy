/**
 * When two states of the parser can be told apart: exactly by what some well nested continuation of
 * the document makes of them. The parser keeps more than it will ever use, and what it uses depends on
 * the elements still open.
 */
module Observation {
  import opened Wrappers
  import opened Text
  import opened Xml
  import opened Session
  import opened SessionParse
  import Sorting

  /** What becomes of a parse that stands at `st` when `post` follows. */
  function Outcome(st: State, post: seq<Tok>, scan: string -> Option<real>): Result<SessionImage, SessionError> {
    var s :- Run(post, st, scan);
    Finish(s)
  }

  // ---- what the open elements leave to be seen ----

  /** A surface is still to be closed. */
  predicate SurfaceOpen(open: seq<string>) {
    open != [] && (KindOf(open[0]).SurfaceEl? || SurfaceOpen(open[1..]))
  }

  /** The builder lacks no text: the sizes alone can still be missing. */
  predicate TextsGiven(cur: Option<SurfaceBuilder>) {
    cur.Some? && cur.value.address.Some? && cur.value.os.Some? && cur.value.machine.Some?
    && cur.value.capture.Some? && cur.value.codec.Some?
  }

  /**
   * What stays open once the innermost open text element is closed, if it can be with the target as it
   * is: a surface on the way needs all its texts already, because giving them takes the target.
   */
  function AfterText(open: seq<string>, given: bool): Option<seq<string>> {
    if open == [] then None
    else
      match KindOf(open[0])
      case TextEl(_) => Some(open[1..])
      case SurfaceEl => if given then AfterText(open[1..], false) else None
      case _ => AfterText(open[1..], given)
  }

  predicate PlainTarget(t: TextTarget) { t == Address || t == Machine || t == Capture }

  /** The text collected so far will be used, if nothing but end tags and text follows. */
  predicate BufferCounts(st: State, open: seq<string>)
    decreases |open|
  {
    open != [] && st.cur.Some? && st.target.Some?
    && match KindOf(open[0])
       case TextEl(_) =>
         st.target == Some(CodecText) || (st.inHost && (st.target == Some(Os) || SurfaceOpen(open[1..])))
       case SurfaceEl => false
       case HostEl => BufferCounts(st.(inHost := false), open[1..])
       case _ => BufferCounts(st, open[1..])
  }

  // ---- states no continuation tells apart ----

  predicate AttrsAlike(a: SessionAttrs, b: SessionAttrs) {
    (a.created.None? && b.created.None?)
    || (a.created == b.created && a.id == b.id && SchemaOf(a) == SchemaOf(b))
  }

  function SchemaOf(a: SessionAttrs): u32 { if a.schema.Some? then a.schema.value else SCHEMA_VERSION }

  predicate CurAlike(a: Option<SurfaceBuilder>, b: Option<SurfaceBuilder>, open: seq<string>) {
    a.Some? == b.Some? && (SurfaceOpen(open) ==> a == b)
  }

  /** Targets that differ do not show when no end tag will use them, or only to fill a surface nobody closes. */
  predicate TargetAlike(a: State, b: State, open: seq<string>) {
    a.target == b.target
    || (a.target.Some? && b.target.Some?
        && var rest := AfterText(open, TextsGiven(a.cur));
           rest.None? || (PlainTarget(a.target.value) && PlainTarget(b.target.value) && !SurfaceOpen(rest.value)))
  }

  /** No continuation with matching end tags tells these states apart. */
  predicate Alike(a: State, b: State, open: seq<string>) {
    && SortSurfaces(a.surfaces) == SortSurfaces(b.surfaces) && a.layout == b.layout && AttrsAlike(a.attrs, b.attrs)
    && a.inHost == b.inHost && CurAlike(a.cur, b.cur, open) && TargetAlike(a, b, open)
    && (BufferCounts(a, open) ==> a.buf == b.buf)
  }

  predicate AlikeResults(x: Result<State, SessionError>, y: Result<State, SessionError>, open: seq<string>) {
    if x.Ok? && y.Ok? then Alike(x.value, y.value, open) else x.Err? && y.Err? && x.error == y.error
  }

  // ---- every step keeps them alike ----

  lemma {:induction false} AfterTextGiven(open: seq<string>)
    ensures AfterText(open, false).Some? ==> AfterText(open, true) == AfterText(open, false)
  {
    if open != [] {
      hide KindOf;
      AfterTextGiven(open[1..]);
    }
  }

  /** A text that counts is next to be closed. */
  lemma {:induction false} CountsReaches(st: State, open: seq<string>, given: bool)
    requires BufferCounts(st, open)
    ensures var rest := AfterText(open, given);
            rest.Some? && (PlainTarget(st.target.value) ==> SurfaceOpen(rest.value))
    decreases |open|
  {
    hide KindOf;
    match KindOf(open[0])
    case TextEl(_) =>
    case SurfaceEl =>
    case HostEl => CountsReaches(st.(inHost := false), open[1..], given);
    case _ => CountsReaches(st, open[1..], given);
  }

  /** What counts depends on little of the state. */
  lemma {:induction false} CountsBy(a: State, b: State, open: seq<string>)
    requires a.cur.Some? == b.cur.Some? && a.inHost == b.inHost && a.target == b.target
    ensures BufferCounts(a, open) == BufferCounts(b, open)
    decreases |open|
  {
    hide KindOf;
    if open != [] {
      CountsBy(a, b, open[1..]);
      CountsBy(a.(inHost := false), b.(inHost := false), open[1..]);
    }
  }

  /** Opening an element, before it is pushed: the buffer is cleared in any case. */
  lemma StartAlike(a: State, b: State, k: Elem, attrs: seq<Attr>, open: seq<string>, scan: string -> Option<real>)
    requires Alike(a, b, open)
    ensures var x, y := StartElement(a, k, attrs, scan), StartElement(b, k, attrs, scan);
            if x.Ok? && y.Ok? then Alike(x.value.(buf := ""), y.value.(buf := ""), open)
            else x.Err? && y.Err? && x.error == y.error
  {
    AfterTextGiven(open);
    hide ParseSessionAttrs, AttrU32, AttrF32, AttrStr, ParseSurfaceId, SortSurfaces, AfterText, SurfaceOpen,
      BufferCounts;
    match k
    case SessionEl =>
    case SurfaceEl =>
    case DimensionsEl =>
    case StripEl =>
    case FocusEl =>
    case HostEl =>
    case TextEl(_) =>
    case OtherEl =>
  }

  /** What a start tag of each kind settles. */
  lemma StartSettles(a: State, b: State, k: Elem, attrs: seq<Attr>, scan: string -> Option<real>)
    requires StartElement(a, k, attrs, scan).Ok? && StartElement(b, k, attrs, scan).Ok?
    ensures var x, y := StartElement(a, k, attrs, scan).value, StartElement(b, k, attrs, scan).value;
            (k.TextEl? ==> x.target == y.target) && (k.SurfaceEl? ==> x.cur == y.cur && !TextsGiven(x.cur))
  {
    hide ParseSessionAttrs, AttrU32, AttrF32, AttrStr, ParseSurfaceId;
  }

  lemma PushAlike(a: State, b: State, n: string, open: seq<string>)
    requires Alike(a, b, open) && a.buf == b.buf && (KindOf(n).TextEl? ==> a.target == b.target)
    requires KindOf(n).SurfaceEl? ==> a.cur == b.cur && !TextsGiven(a.cur)
    ensures Alike(a, b, [n] + open)
  {
    assert ([n] + open)[1..] == open;
    hide SortSurfaces, KindOf, BufferCounts, TextsGiven;
  }

  lemma TagAlike(a: State, b: State, n: string, attrs: seq<Attr>, open: seq<string>, scan: string -> Option<real>)
    requires Alike(a, b, open)
    ensures AlikeResults(Step(a, Start(n, attrs), scan), Step(b, Start(n, attrs), scan), [n] + open)
    ensures AlikeResults(Step(a, Empty(n, attrs), scan), Step(b, Empty(n, attrs), scan), open)
  {
    var k := KindOf(n);
    StartAlike(a, b, k, attrs, open, scan);
    var x, y := StartElement(a, k, attrs, scan), StartElement(b, k, attrs, scan);
    if x.Ok? && y.Ok? {
      StartSettles(a, b, k, attrs, scan);
      hide StartElement, Alike, TextsGiven;
      PushAlike(x.value.(buf := ""), y.value.(buf := ""), n, open);
    }
  }

  lemma CharsAlike(a: State, b: State, raw: string, open: seq<string>, scan: string -> Option<real>)
    requires Alike(a, b, open)
    ensures AlikeResults(Step(a, Chars(raw), scan), Step(b, Chars(raw), scan), open)
  {
    var text := Unescape(raw);
    if a.target.Some? && text.Some? {
      CountsBy(a, a.(buf := a.buf + text.value), open);
    }
    hide Unescape, SortSurfaces, BufferCounts, AfterText, SurfaceOpen;
  }

  /** Applying a text to alike builders, with targets and texts that differ only unseen. */
  lemma TextAlike(a: State, b: State, open: seq<string>)
    requires open != [] && KindOf(open[0]).TextEl? && Alike(a, b, open)
    ensures var x, y := ApplyText(a.cur, a.inHost, a.target, a.buf), ApplyText(b.cur, b.inHost, b.target, b.buf);
            if x.Ok? && y.Ok? then CurAlike(Some(x.value), Some(y.value), open[1..])
            else x.Err? && y.Err? && x.error == y.error
  {
    hide SortSurfaces, KindOf, OsFromStr, CodecFromStr;
  }

  lemma EndTextAlike(a: State, b: State, k: Elem, open: seq<string>)
    requires open != [] && KindOf(open[0]) == k && k.TextEl? && Alike(a, b, open)
    ensures AlikeResults(EndElement(a, k), EndElement(b, k), open[1..])
  {
    TextAlike(a, b, open);
    hide SortSurfaces, KindOf, ApplyText, AfterText, SurfaceOpen;
  }

  lemma EndSurfaceAlike(a: State, b: State, open: seq<string>)
    requires open != [] && KindOf(open[0]) == SurfaceEl && Alike(a, b, open)
    ensures AlikeResults(EndElement(a, SurfaceEl), EndElement(b, SurfaceEl), open[1..])
  {
    assert a.cur == b.cur;
    if a.cur.Some? && a.cur.value.Build().Ok? {
      var e := a.cur.value.Build().value;
      assert TextsGiven(a.cur);
      Sorting.SortSnocAlike(a.surfaces, b.surfaces, e, e, OrderOf);
    }
    hide KindOf, Sorting.StableSort;
  }

  lemma EndOtherAlike(a: State, b: State, k: Elem, open: seq<string>)
    requires open != [] && KindOf(open[0]) == k && !k.TextEl? && !k.SurfaceEl? && Alike(a, b, open)
    ensures AlikeResults(EndElement(a, k), EndElement(b, k), open[1..])
  {
    hide KindOf, SortSurfaces;
  }

  /** A token that the open elements allow, and what is open after it. */
  function Allowed(t: Tok, open: seq<string>): Option<seq<string>> {
    match t
    case Start(n, _) => Some([n] + open)
    case End(n) => if open != [] && open[0] == n then Some(open[1..]) else None
    case _ => Some(open)
  }

  lemma NestCons(toks: seq<Tok>, open: seq<string>)
    requires toks != []
    ensures Nest(toks, open) == (var o := Allowed(toks[0], open); if o.Some? then Nest(toks[1..], o.value) else None)
  {
  }

  lemma StepAlike(a: State, b: State, t: Tok, open: seq<string>, scan: string -> Option<real>)
    requires Alike(a, b, open) && Allowed(t, open).Some?
    ensures AlikeResults(Step(a, t, scan), Step(b, t, scan), Allowed(t, open).value)
  {
    match t
    case Decl =>
    case Start(n, attrs) => TagAlike(a, b, n, attrs, open, scan);
    case Empty(n, attrs) => TagAlike(a, b, n, attrs, open, scan);
    case Chars(raw) => CharsAlike(a, b, raw, open, scan);
    case End(n) =>
      var k := KindOf(n);
      if k.TextEl? {
        EndTextAlike(a, b, k, open);
      } else if k.SurfaceEl? {
        EndSurfaceAlike(a, b, open);
      } else {
        EndOtherAlike(a, b, k, open);
      }
  }

  lemma FinishAlike(a: State, b: State, open: seq<string>)
    requires Alike(a, b, open)
    ensures Finish(a) == Finish(b)
  {
    hide SortSurfaces;
  }

  /** Alike states have the same outcome, whatever follows with matching end tags. */
  lemma {:induction false} OutcomeAlike(a: State, b: State, post: seq<Tok>, open: seq<string>,
                                        scan: string -> Option<real>)
    requires Alike(a, b, open) && Nest(post, open).Some?
    ensures Outcome(a, post, scan) == Outcome(b, post, scan)
    decreases |post|
  {
    hide Alike, Step, Finish, Allowed;
    if post == [] {
      FinishAlike(a, b, open);
    } else {
      NestCons(post, open);
      StepAlike(a, b, post[0], open, scan);
      var x, y := Step(a, post[0], scan), Step(b, post[0], scan);
      if x.Ok? && y.Ok? {
        OutcomeAlike(x.value, y.value, post[1..], Allowed(post[0], open).value, scan);
      }
    }
  }
}
