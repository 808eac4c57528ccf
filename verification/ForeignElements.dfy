/**
 * Elements of another namespace in a v0 document. The documented abstraction deletes each with everything
 * in it; the parser reads on, matching local names only. Here is exactly where the two agree: for any
 * stretch of whole elements at any place, for elements of text and unknown tags, for a qualified name
 * everywhere, and for whole documents.
 */
module ForeignElements {
  import opened Wrappers
  import opened Text
  import opened Xml
  import opened Session
  import opened SessionParse
  import opened SessionRoundTrip
  import opened Nesting
  import opened Observation
  import opened Distinction
  import opened GaloisLaws

  // ---- any whole elements at any place ----

  /** An accepted beginning of a document: where the parser stands, and what is open. */
  ghost predicate Begun(pre: seq<Tok>, st: State, open: seq<string>, scan: string -> Option<real>) {
    Run(pre, INIT, scan) == Ok(st) && Nest(pre, []) == Some(open)
  }

  /** After `pre`, no continuation with matching end tags shows whether these elements are there. */
  ghost predicate InvisibleAfter(pre: seq<Tok>, e: seq<Tok>, open: seq<string>, scan: string -> Option<real>) {
    forall post :: Nest(post, open).Some? ==> Outcome(INIT, pre + e + post, scan) == Outcome(INIT, pre + post, scan)
  }

  lemma TwoReadings(pre: seq<Tok>, e: seq<Tok>, post: seq<Tok>, st: State, open: seq<string>,
                    scan: string -> Option<real>)
    requires Begun(pre, st, open, scan)
    ensures Outcome(INIT, pre + post, scan) == Outcome(st, post, scan)
    ensures Outcome(INIT, pre + e + post, scan)
         == (var r := Run(e, st, scan); if r.Ok? then Outcome(r.value, post, scan) else Err(r.error))
  {
    hide Run, Outcome;
    OutcomeAppend(INIT, pre, post, scan);
    Assoc(pre, e, post);
    OutcomeAppend(INIT, pre, e + post, scan);
    OutcomeAppend(st, e, post, scan);
  }

  /** The parser reads the elements and is none the wiser. */
  predicate ReadsOver(e: seq<Tok>, st: State, open: seq<string>, scan: string -> Option<real>) {
    Run(e, st, scan).Ok? && Alike(st, Run(e, st, scan).value, open)
  }

  lemma ReadStates(pre: seq<Tok>, e: seq<Tok>, st: State, open: seq<string>, scan: string -> Option<real>)
    requires Begun(pre, st, open, scan)
    ensures Paired(st.cur) && (Run(e, st, scan).Ok? ==> Paired(Run(e, st, scan).value.cur))
  {
    hide Run, Paired;
    assert Paired(INIT.cur) by { NothingPaired(); }
    RunPaired(pre, INIT, scan);
    if Run(e, st, scan).Ok? {
      RunPaired(e, st, scan);
    }
  }

  lemma NothingPaired()
    ensures Paired(None)
  {
  }

  /**
   * Whole elements can be left out after `pre`, whatever follows, exactly when the parser gets through
   * them to a state alike to the one it started from.
   */
  lemma ElementsExact(pre: seq<Tok>, e: seq<Tok>, st: State, open: seq<string>, scan: string -> Option<real>)
    requires Begun(pre, st, open, scan) && Whole(e)
    ensures InvisibleAfter(pre, e, open, scan) <==> ReadsOver(e, st, open, scan)
  {
    hide Run, Outcome, Alike, Nest, Paired, Root;
    var r := Run(e, st, scan);
    ReadStates(pre, e, st, open, scan);
    if r.Err? {
      RootNests(open);
      TwoReadings(pre, e, [Root()], st, open, scan);
      RootOutcome(st, scan);
    } else {
      AlikeExact(st, r.value, open, scan);
      forall post | Nest(post, open).Some?
        ensures Outcome(INIT, pre + e + post, scan) == Outcome(INIT, pre + post, scan)
                <==> Outcome(st, post, scan) == Outcome(r.value, post, scan)
      {
        TwoReadings(pre, e, post, st, open, scan);
      }
    }
  }

  // ---- elements of text and unknown tags ----

  predicate Opening(t: Tok) { t.Start? || t.Empty? }

  /** A tag the parser does not know, or text. */
  predicate Unknown(t: Tok) {
    match t
    case Start(n, _) => KindOf(n) == OtherEl
    case Empty(n, _) => KindOf(n) == OtherEl
    case End(n) => KindOf(n) == OtherEl
    case _ => true
  }

  predicate Readable(e: seq<Tok>) { forall t :: t in e && t.Chars? ==> Unescape(t.raw).Some? }

  /** The text behind the last opening tag, or `text` and all of it if there is none. */
  function TailText(e: seq<Tok>, text: string): string
    requires Readable(e)
  {
    if e == [] then text
    else
      var more := e[1..];
      assert e[0] in e && forall t :: t in more ==> t in e;
      if Opening(e[0]) then TailText(more, "")
      else if e[0].Chars? then TailText(more, text + Unescape(e[0].raw).value)
      else TailText(more, text)
  }

  /** Reading unknown tags and text changes the buffer and nothing else. */
  lemma {:induction false} UnknownRun(e: seq<Tok>, st: State, scan: string -> Option<real>)
    requires forall t :: t in e ==> Unknown(t)
    ensures var r := Run(e, st, scan);
            if st.target.None? then r.Ok? && exists text :: r.value == st.(buf := text)
            else if Readable(e) then r == Ok(st.(buf := TailText(e, st.buf)))
            else r.Err?
  {
    hide KindOf, Unescape;
    if e == [] {
      assert st == st.(buf := st.buf);
    } else {
      var t, more := e[0], e[1..];
      assert t in e && forall u :: u in more ==> u in e;
      assert Readable(e) <==> (t.Chars? ==> Unescape(t.raw).Some?) && Readable(more);
      var s := Step(st, t, scan);
      if s.Ok? {
        UnknownRun(more, s.value, scan);
      }
    }
  }

  /** An element, empty or with what stands in it. */
  ghost predicate Element(e: seq<Tok>, name: string) {
    (exists attrs :: e == [Empty(name, attrs)])
    || (exists attrs, body: seq<Tok> :: Whole(body) && e == [Start(name, attrs)] + body + [End(name)])
  }

  lemma ElementWhole(e: seq<Tok>, name: string)
    requires Element(e, name)
    ensures Whole(e) && e != [] && Opening(e[0])
  {
    if exists attrs :: e == [Empty(name, attrs)] {
      var attrs :| e == [Empty(name, attrs)];
      EmptyWhole(name, attrs);
    } else {
      var attrs, body: seq<Tok> :| Whole(body) && e == [Start(name, attrs)] + body + [End(name)];
      WholeElement(name, attrs, body);
    }
  }

  /**
   * An element of text and unknown tags is read over exactly when no text is being read, or its own
   * texts can be unescaped and, if the text collected so far counts, the element leaves just that text
   * behind its last opening tag.
   */
  lemma UnknownReadsOver(e: seq<Tok>, st: State, open: seq<string>, scan: string -> Option<real>)
    requires e != [] && Opening(e[0]) && forall t :: t in e ==> Unknown(t)
    ensures ReadsOver(e, st, open, scan) <==>
            st.target.None? || (Readable(e) && (BufferCounts(st, open) ==> st.buf == TailText(e, "")))
  {
    UnknownRun(e, st, scan);
    TailOpens(e, st.buf);
    NoTargetCounts(st, open);
    hide Run, BufferCounts, Unknown, Unescape, Alike, TailText, Readable;
    if st.target.None? {
      var text :| Run(e, st, scan).value == st.(buf := text);
      BufferAlone(st, text, open);
    } else if Readable(e) {
      BufferAlone(st, TailText(e, st.buf), open);
    }
  }

  /** That is also exactly when no continuation shows whether it is there. */
  lemma UnknownElementExact(pre: seq<Tok>, e: seq<Tok>, name: string, st: State, open: seq<string>,
                            scan: string -> Option<real>)
    requires Begun(pre, st, open, scan) && Element(e, name) && forall t :: t in e ==> Unknown(t)
    ensures InvisibleAfter(pre, e, open, scan) <==>
            st.target.None? || (Readable(e) && (BufferCounts(st, open) ==> st.buf == TailText(e, "")))
  {
    ElementWhole(e, name);
    hide *;
    ElementsExact(pre, e, st, open, scan);
    UnknownReadsOver(e, st, open, scan);
  }

  lemma TailOpens(e: seq<Tok>, text: string)
    requires e != [] && Opening(e[0])
    ensures Readable(e) ==> TailText(e, text) == TailText(e, "")
  {
  }

  lemma BufferAlone(st: State, text: string, open: seq<string>)
    ensures Alike(st, st.(buf := text), open) <==> (BufferCounts(st, open) ==> st.buf == text)
  {
    hide SortSurfaces, BufferCounts, AfterText, SurfaceOpen;
  }

  lemma NoTargetCounts(st: State, open: seq<string>)
    ensures BufferCounts(st, open) ==> st.target.Some?
  {
  }

  // ---- one qualified name everywhere ----

  /** An element of this name with no text and nothing the parser knows in it. */
  ghost predicate Hollow(e: seq<Tok>, name: string) {
    Element(e, name) && forall i :: 1 <= i < |e| - 1 ==> Unknown(e[i]) && !e[i].Chars?
  }

  /** Wherever no text that counts has been collected, the hollow elements of this name can be left out. */
  ghost predicate AlwaysInvisible(name: string, scan: string -> Option<real>) {
    forall pre, e, st, open ::
      Begun(pre, st, open, scan) && Hollow(e, name) && (BufferCounts(st, open) ==> st.buf == "")
      ==> InvisibleAfter(pre, e, open, scan)
  }

  lemma {:induction false} NoTextTail(e: seq<Tok>)
    requires forall t :: t in e ==> !t.Chars?
    ensures Readable(e) && TailText(e, "") == ""
  {
    if e != [] {
      assert e[0] in e && forall t :: t in e[1..] ==> t in e;
      NoTextTail(e[1..]);
    }
  }

  lemma HollowTokens(e: seq<Tok>, name: string)
    requires Hollow(e, name) && KindOf(name) == OtherEl
    ensures forall t :: t in e ==> Unknown(t) && !t.Chars?
  {
    hide KindOf, Whole;
    forall t | t in e ensures Unknown(t) && !t.Chars? {
      var i :| 0 <= i < |e| && e[i] == t;
      ElementEnds(e, name);
    }
  }

  lemma ElementEnds(e: seq<Tok>, name: string)
    requires Element(e, name)
    ensures e != [] && Opening(e[0]) && e[0].name == name
    ensures |e| > 1 ==> e[|e| - 1] == End(name)
  {
  }

  lemma EmptyElement(name: string)
    ensures Hollow([Empty(name, [])], name)
  {
  }

  /** The parser once a root has named a creation time. */
  const OPENED := INIT.(attrs := SessionAttrs(None, Some(""), Some(1)))

  /** A place with nothing open and nothing collected. */
  lemma VisibleAtTop(pre: seq<Tok>, name: string, st: State, scan: string -> Option<real>)
    requires Begun(pre, st, [], scan) && !ReadsOver([Empty(name, [])], st, [], scan)
    ensures !AlwaysInvisible(name, scan)
  {
    EmptyElement(name);
    EmptyWhole(name, []);
    assert !BufferCounts(st, []);
    hide ReadsOver, Begun, Hollow, Whole, BufferCounts, InvisibleAfter;
    ElementsExact(pre, [Empty(name, [])], st, [], scan);
  }

  /** Without attributes, or in place of a host or a text element. */
  lemma ReadElsewhere(name: string, scan: string -> Option<real>)
    requires KindOf(name) != OtherEl && !KindOf(name).SessionEl?
    ensures !ReadsOver([Empty(name, [])], INIT, [], scan)
  {
    RunSingle(Empty(name, []), INIT, scan);
    assert FindAttr([], "id").None? && FindAttr([], "scroll-pos").None? && FindAttr([], "surface-ref").None?;
    hide KindOf, SortSurfaces, Run;
  }

  lemma RootReplaced(name: string, scan: string -> Option<real>)
    requires KindOf(name).SessionEl?
    ensures !ReadsOver([Empty(name, [])], OPENED, [], scan)
  {
    RunSingle(Empty(name, []), OPENED, scan);
    hide KindOf, SortSurfaces, Run;
  }

  lemma RootBegun(scan: string -> Option<real>)
    ensures Begun([Root()], OPENED, [], scan)
  {
    RootStep(INIT, scan);
    RootNests([]);
    hide Root;
    RunSingle(Root(), INIT, scan);
  }

  /** A known name: without attributes its element is refused, or it changes what the parser is doing. */
  lemma KnownNameVisible(name: string, scan: string -> Option<real>)
    requires KindOf(name) != OtherEl
    ensures !AlwaysInvisible(name, scan)
  {
    RootBegun(scan);
    assert Begun([], INIT, [], scan);
    hide KindOf, ReadsOver, Begun, AlwaysInvisible, Root;
    if KindOf(name).SessionEl? {
      RootReplaced(name, scan);
      VisibleAtTop([Root()], name, OPENED, scan);
    } else {
      ReadElsewhere(name, scan);
      VisibleAtTop([], name, INIT, scan);
    }
  }

  /**
   * The hollow elements of a qualified name can be left out wherever no text that counts has been
   * collected exactly when the local name is none of the parser's own, whatever its prefix.
   */
  lemma NameExact(name: string, scan: string -> Option<real>)
    ensures AlwaysInvisible(name, scan) <==> KindOf(name) == OtherEl
  {
    if KindOf(name) == OtherEl {
      forall pre, e, st, open
        | Begun(pre, st, open, scan) && Hollow(e, name) && (BufferCounts(st, open) ==> st.buf == "")
        ensures InvisibleAfter(pre, e, open, scan)
      {
        HollowTokens(e, name);
        NoTextTail(e);
        hide Begun, KindOf, BufferCounts, InvisibleAfter, Unknown, Element, Readable, TailText;
        UnknownElementExact(pre, e, name, st, open, scan);
      }
    } else {
      KnownNameVisible(name, scan);
    }
  }

  // ---- whole documents ----

  /** A tag of another namespace: the document's own is the default one, so its tags have no prefix. */
  predicate Foreign(t: Tok) { Opening(t) && ':' in t.name }

  /** How many tokens there are until this many open elements are closed. */
  function Closing(toks: seq<Tok>, depth: nat): (n: nat)
    ensures n <= |toks|
  {
    if toks == [] || depth == 0 then 0
    else 1 + Closing(toks[1..], if toks[0].Start? then depth + 1 else if toks[0].End? then depth - 1 else depth)
  }

  /** How many tokens the element that opens here has. */
  function Extent(toks: seq<Tok>): (n: nat)
    requires toks != []
    ensures 0 < n <= |toks|
  {
    if toks[0].Start? then 1 + Closing(toks[1..], 1) else 1
  }

  /** The documented abstraction on tokens: the elements of other namespaces are gone, and all in them. */
  function Delete(toks: seq<Tok>): seq<Tok>
    decreases |toks|
  {
    if toks == [] then []
    else if Foreign(toks[0]) then Delete(toks[Extent(toks)..])
    else [toks[0]] + Delete(toks[1..])
  }

  /** Every element that is deleted is read over where it stands. */
  ghost predicate Guarded(toks: seq<Tok>, st: State, open: seq<string>, scan: string -> Option<real>)
    decreases |toks|
  {
    if toks == [] then true
    else if Foreign(toks[0]) then
      ReadsOver(toks[..Extent(toks)], st, open, scan) && Guarded(toks[Extent(toks)..], st, open, scan)
    else
      var s, o := Step(st, toks[0], scan), Allowed(toks[0], open);
      s.Ok? && o.Some? ==> Guarded(toks[1..], s.value, o.value, scan)
  }

  /** Closing that many elements closes the innermost ones, unless the document ends before. */
  lemma {:induction false} ClosingNests(toks: seq<Tok>, open: seq<string>, depth: nat)
    requires depth <= |open| && Nest(toks, open).Some?
    ensures var n := Closing(toks, depth); n < |toks| ==> Nest(toks[n..], open[depth..]).Some?
  {
    if toks != [] && depth > 0 {
      NestCons(toks, open);
      var t, left := toks[0], Allowed(toks[0], open).value;
      var d := if t.Start? then depth + 1 else if t.End? then depth - 1 else depth;
      ClosingNests(toks[1..], left, d);
      assert left[d..] == open[depth..];
      assert toks[1..][Closing(toks[1..], d)..] == toks[Closing(toks, depth)..];
    } else if toks != [] {
      assert toks[0..] == toks && open[0..] == open;
    }
  }

  lemma ExtentNests(toks: seq<Tok>, open: seq<string>)
    requires toks != [] && Opening(toks[0]) && Nest(toks, open).Some?
    ensures Nest(toks[Extent(toks)..], open).Some?
  {
    NestCons(toks, open);
    if toks[0].Start? {
      ClosingNests(toks[1..], [toks[0].name] + open, 1);
      assert ([toks[0].name] + open)[1..] == open;
      assert toks[Extent(toks)..] == toks[1..][Closing(toks[1..], 1)..];
    }
  }

  /** A foreign element that is read over makes no difference to what comes after it. */
  lemma ElementDeleted(toks: seq<Tok>, st: State, open: seq<string>, scan: string -> Option<real>)
    requires toks != [] && Opening(toks[0]) && Nest(toks, open).Some?
    requires ReadsOver(toks[..Extent(toks)], st, open, scan)
    ensures Nest(toks[Extent(toks)..], open).Some?
    ensures Outcome(st, toks, scan) == Outcome(st, toks[Extent(toks)..], scan)
  {
    ExtentNests(toks, open);
    assert toks == toks[..Extent(toks)] + toks[Extent(toks)..];
    hide *;
    ReadOver(toks[..Extent(toks)], toks[Extent(toks)..], st, open, scan);
  }

  lemma ReadOver(e: seq<Tok>, more: seq<Tok>, st: State, open: seq<string>, scan: string -> Option<real>)
    requires ReadsOver(e, st, open, scan) && Nest(more, open).Some?
    ensures Outcome(st, e + more, scan) == Outcome(st, more, scan)
  {
    hide Run, Outcome, Nest, Alike;
    OutcomeAppend(st, e, more, scan);
    OutcomeAlike(st, Run(e, st, scan).value, more, open, scan);
  }

  lemma OutcomeStep(t: Tok, more: seq<Tok>, st: State, scan: string -> Option<real>)
    ensures Outcome(st, [t] + more, scan)
         == (var s := Step(st, t, scan); if s.Ok? then Outcome(s.value, more, scan) else Err(s.error))
  {
    assert ([t] + more)[1..] == more;
    hide Step, Finish;
  }

  lemma {:induction false} DeletedRun(toks: seq<Tok>, st: State, open: seq<string>, scan: string -> Option<real>)
    requires Nest(toks, open).Some? && Guarded(toks, st, open, scan)
    ensures Outcome(st, toks, scan) == Outcome(st, Delete(toks), scan)
    decreases |toks|
  {
    if toks != [] {
      hide ReadsOver, Step, Outcome, Nest, Extent;
      var t := toks[0];
      if Foreign(t) {
        ElementDeleted(toks, st, open, scan);
        DeletedRun(toks[Extent(toks)..], st, open, scan);
      } else {
        NestCons(toks, open);
        OutcomeStep(t, toks[1..], st, scan);
        OutcomeStep(t, Delete(toks[1..]), st, scan);
        assert toks == [t] + toks[1..];
        var s := Step(st, t, scan);
        if s.Ok? {
          DeletedRun(toks[1..], s.value, Allowed(t, open).value, scan);
        }
      }
    }
  }

  /** What is left has matching end tags, and no element of another namespace. */
  lemma {:induction false} DeletedNests(toks: seq<Tok>, open: seq<string>)
    requires Nest(toks, open).Some?
    ensures Nest(Delete(toks), open).Some? && forall t :: t in Delete(toks) ==> !Foreign(t)
    decreases |toks|
  {
    if toks != [] {
      if Foreign(toks[0]) {
        ExtentNests(toks, open);
        DeletedNests(toks[Extent(toks)..], open);
      } else {
        NestCons(toks, open);
        DeletedNests(toks[1..], Allowed(toks[0], open).value);
        NestStep(toks[0], Delete(toks[1..]), open, Allowed(toks[0], open).value);
      }
    }
  }

  /** A document whose foreign elements are all read over is read, or refused, as what deleting them leaves. */
  lemma ForeignElementsInvisible(xml: string, scan: string -> Option<real>)
    requires Events(xml).Some? && Guarded(Events(xml).value, INIT, [], scan)
    ensures var left := Delete(Events(xml).value);
            && Parsed(xml, scan) == Outcome(INIT, left, scan)
            && Nest(left, []).Some? && forall t :: t in left ==> !Foreign(t)
  {
    DeletedRun(Events(xml).value, INIT, [], scan);
    DeletedNests(Events(xml).value, []);
    hide Run, Finish, Delete, Lex, Nest;
  }

  // ---- where deleting and reading differ ----

  lemma MachineStep(st: State, n: string, scan: string -> Option<real>)
    requires KindOf(n) == TextEl(Machine)
    ensures Step(st, Start(n, []), scan) == Ok(st.(target := Some(Machine), buf := ""))
    ensures InHost(st) && st.target == Some(Machine) ==>
            Step(st, End(n), scan) == Ok(WithHost(st, st.cur.value.(machine := Some(st.buf))))
  {
    hide KindOf;
  }

  lemma TextStep(st: State, text: string, scan: string -> Option<real>)
    requires st.target.Some? && '&' !in text
    ensures Step(st, Chars(text), scan) == Ok(st.(buf := st.buf + text))
  {
    UnescapePlain(text);
    hide Unescape;
  }

  lemma UnknownStep(st: State, q: string, scan: string -> Option<real>)
    requires KindOf(q) == OtherEl
    ensures Step(st, Start(q, []), scan) == Ok(st.(buf := "")) && Step(st, End(q), scan) == Ok(st)
  {
    hide KindOf;
  }

  /** Text of a machine name around a foreign element with text of its own. */
  function Noted(n: string, x: string, q: string, y: string, z: string): seq<Tok> {
    [Start(n, []), Chars(x)] + ([Start(q, []), Chars(y)] + ([End(q), Chars(z)] + [End(n)]))
  }

  lemma DeleteKeeps(t: Tok, more: seq<Tok>)
    requires !Foreign(t)
    ensures Delete([t] + more) == [t] + Delete(more)
  {
    assert ([t] + more)[1..] == more;
  }

  lemma DeleteDrops(e: seq<Tok>, more: seq<Tok>)
    requires e != [] && Foreign(e[0]) && Extent(e + more) == |e|
    ensures Delete(e + more) == Delete(more)
  {
    assert (e + more)[|e|..] == more;
  }

  lemma NoteExtent(q: string, y: string, more: seq<Tok>)
    ensures Extent([Start(q, []), Chars(y), End(q)] + more) == 3
  {
    var toks := [Start(q, []), Chars(y), End(q)] + more;
    assert toks[1..] == [Chars(y), End(q)] + more && toks[1..][1..] == [End(q)] + more;
    assert toks[1..][1..][1..] == more;
    assert Closing(more, 0) == 0 && Closing(toks[1..][1..], 1) == 1 && Closing(toks[1..], 1) == 2;
  }

  lemma NotedDeleted(n: string, x: string, q: string, y: string, z: string)
    requires ':' in q && ':' !in n
    ensures Delete(Noted(n, x, q, y, z)) == [Start(n, []), Chars(x)] + ([Chars(z)] + [End(n)])
  {
    var e, left := [Start(q, []), Chars(y), End(q)], [Chars(z)] + [End(n)];
    NotedShape(n, x, q, y, z);
    NoteExtent(q, y, left);
    assert Delete([]) == [] && Foreign(e[0]) && !Foreign(Start(n, [])) && [End(n)] + [] == [End(n)];
    hide Delete, Extent, Foreign, Noted;
    DeleteKeeps(End(n), []);
    DeleteKeeps(Chars(z), [End(n)]);
    DeleteDrops(e, left);
    DeleteKeeps(Chars(x), e + left);
    DeleteKeeps(Start(n, []), [Chars(x)] + (e + left));
    assert [Start(n, [])] + ([Chars(x)] + left) == [Start(n, []), Chars(x)] + left;
  }

  lemma NotedShape(n: string, x: string, q: string, y: string, z: string)
    ensures Noted(n, x, q, y, z)
         == [Start(n, [])] + ([Chars(x)] + ([Start(q, []), Chars(y), End(q)] + ([Chars(z)] + [End(n)])))
    ensures !Foreign(End(n)) && !Foreign(Chars(x)) && !Foreign(Chars(z))
  {
  }

  /**
   * Inside a machine name, a foreign element takes the text before it away and leaves its own: the
   * parser reads `y` and `z` where the documented abstraction has `x` and `z`.
   */
  lemma ForeignTextRead(st: State, n: string, x: string, q: string, y: string, z: string,
                        scan: string -> Option<real>)
    requires InHost(st) && KindOf(n) == TextEl(Machine) && KindOf(q) == OtherEl && ':' in q && ':' !in n
    requires '&' !in x && '&' !in y && '&' !in z
    ensures Run(Noted(n, x, q, y, z), st, scan) == Ok(WithHost(st, st.cur.value.(machine := Some(y + z))))
    ensures Run(Delete(Noted(n, x, q, y, z)), st, scan) == Ok(WithHost(st, st.cur.value.(machine := Some(x + z))))
  {
    var s0 := st.(target := Some(Machine), buf := "");
    NotedDeleted(n, x, q, y, z);
    MachineStep(st, n, scan);
    TextStep(s0, x, scan);
    assert "" + x == x && "" + y == y;
    UnknownStep(s0.(buf := x), q, scan);
    UnknownStep(s0.(buf := y), q, scan);
    TextStep(s0, y, scan);
    TextStep(s0.(buf := y), z, scan);
    TextStep(s0.(buf := x), z, scan);
    MachineStep(s0.(buf := y + z), n, scan);
    MachineStep(s0.(buf := x + z), n, scan);
    hide Step, Delete, KindOf, Run;
    var back, left := [End(q), Chars(z)] + [End(n)], [Chars(z)] + [End(n)];
    TwoSteps(Start(n, []), Chars(x), [Start(q, []), Chars(y)] + back, st, s0, s0.(buf := x), scan);
    TwoSteps(Start(q, []), Chars(y), back, s0.(buf := x), s0, s0.(buf := y), scan);
    TwoSteps(End(q), Chars(z), [End(n)], s0.(buf := y), s0.(buf := y), s0.(buf := y + z), scan);
    RunSingle(End(n), s0.(buf := y + z), scan);
    TwoSteps(Start(n, []), Chars(x), left, st, s0, s0.(buf := x), scan);
    RunStep(Chars(z), [End(n)], s0.(buf := x), s0.(buf := x + z), scan);
    RunSingle(End(n), s0.(buf := x + z), scan);
  }

  /** A document that holds these tokens and nothing else. */
  function Holding(e: seq<Tok>): seq<Tok> { [Start("session", RootAttrs("", None, 1))] + (e + [End("session")]) }

  lemma HoldingOutcome(e: seq<Tok>, layout: Layout, scan: string -> Option<real>)
    requires Run(e, OPENED, scan) == Ok(OPENED.(layout := layout))
    ensures Outcome(INIT, Holding(e), scan) == Ok(SessionImage(None, "", 1, [], layout))
  {
    var root, close, s := Start("session", RootAttrs("", None, 1)), End("session"), OPENED.(layout := layout);
    FrameKinds();
    RootAttrsRead("", None, 1);
    assert Step(INIT, root, scan) == Ok(OPENED) by { hide RootAttrs, ParseSessionAttrs, KindOf; }
    assert Step(s, close, scan) == Ok(s);
    assert Finish(s) == Ok(SessionImage(None, "", 1, [], layout));
    hide Step, KindOf, RootAttrs, Run, Finish;
    RunStep(root, e + [close], INIT, OPENED, scan);
    RunAppend(e, [close], OPENED, scan);
    RunSingle(close, s, scan);
  }

  lemma HoldingDeleted(e: seq<Tok>)
    requires e != [] && Foreign(e[0]) && Extent(e + [End("session")]) == |e|
    ensures Delete(Holding(e)) == Holding([])
  {
    var root, close := Start("session", RootAttrs("", None, 1)), [End("session")];
    NoColon();
    assert Delete(close) == close by { assert close[1..] == []; }
    assert (e + close)[|e|..] == close;
    assert Delete(e + close) == close;
    hide RootAttrs, Extent;
    assert Holding(e)[1..] == e + close && [] + close == close;
  }

  lemma NoColon()
    ensures ':' !in "session"
  {
  }

  lemma StripReads(text: string, pos: real, n: string, scan: string -> Option<real>)
    requires KindOf(n) == StripEl && Unescape(text) == Some(text) && scan(text) == Some(pos)
    ensures Step(OPENED, Empty(n, [Attr("scroll-pos", text)]), scan) == Ok(OPENED.(layout := Layout(pos, None)))
  {
    hide KindOf, LocalName, AttrStr, Unescape;
    LocalNamePlain("scroll-pos");
    AttrAt([Attr("scroll-pos", text)], "scroll-pos", text);
  }

  lemma PrefixedStrip()
    ensures KindOf("c:strip") == StripEl && KindOf("c:extras") == OtherEl && ':' in "c:strip" && ':' in "c:extras"
  {
    hide LocalName, ElemOf;
    PrefixedLocal("strip");
    PrefixedLocal("extras");
    assert "c:" + "strip" == "c:strip" && "c:" + "extras" == "c:extras";
    assert "c:strip"[1] == ':' && "c:extras"[1] == ':';
    LayoutKinds();
    LocalNamePlain("strip");
    UnknownByLength("extras");
  }

  /** A `strip` of another namespace, or one of the session's own within an element of another. */
  predicate ForeignStrip(e: seq<Tok>, a: seq<Attr>) {
    e == [Empty("c:strip", a)] || e == [Start("c:extras", []), Empty("strip", a), End("c:extras")]
  }

  /**
   * Two documents that scroll the session for the parser and not for the documented abstraction.
   */
  lemma ForeignStripScrolls(text: string, pos: real, scan: string -> Option<real>)
    requires Unescape(text) == Some(text) && scan(text) == Some(pos)
    ensures forall e :: ForeignStrip(e, [Attr("scroll-pos", text)]) ==>
              && Outcome(INIT, Holding(e), scan) == Ok(SessionImage(None, "", 1, [], Layout(pos, None)))
              && Outcome(INIT, Delete(Holding(e)), scan) == Ok(SessionImage(None, "", 1, [], Layout(0.0, None)))
  {
    var a := [Attr("scroll-pos", text)];
    PrefixedStrip();
    LayoutKinds();
    hide KindOf, Unescape, Holding, Delete, Outcome, Step;
    StripReads(text, pos, "c:strip", scan);
    StripReads(text, pos, "strip", scan);
    NothingScrolls(scan);
    StripAlone(a, pos, scan);
    StripWrapped(a, pos, scan);
  }

  lemma NothingScrolls(scan: string -> Option<real>)
    ensures Outcome(INIT, Holding([]), scan) == Ok(SessionImage(None, "", 1, [], Layout(0.0, None)))
  {
    assert Run([], OPENED, scan) == Ok(OPENED.(layout := Layout(0.0, None)));
    hide Run, Holding, Outcome;
    HoldingOutcome([], Layout(0.0, None), scan);
  }

  lemma StripAlone(a: seq<Attr>, pos: real, scan: string -> Option<real>)
    requires Step(OPENED, Empty("c:strip", a), scan) == Ok(OPENED.(layout := Layout(pos, None))) && ':' in "c:strip"
    ensures var e := [Empty("c:strip", a)];
            && Outcome(INIT, Holding(e), scan) == Ok(SessionImage(None, "", 1, [], Layout(pos, None)))
            && Delete(Holding(e)) == Holding([])
  {
    hide Step, KindOf, Outcome, Holding, Delete;
    RunSingle(Empty("c:strip", a), OPENED, scan);
    HoldingOutcome([Empty("c:strip", a)], Layout(pos, None), scan);
    HoldingDeleted([Empty("c:strip", a)]);
  }

  lemma StripWrapped(a: seq<Attr>, pos: real, scan: string -> Option<real>)
    requires Step(OPENED, Empty("strip", a), scan) == Ok(OPENED.(layout := Layout(pos, None)))
    requires KindOf("c:extras") == OtherEl && ':' in "c:extras"
    ensures var e := [Start("c:extras", []), Empty("strip", a), End("c:extras")];
            && Outcome(INIT, Holding(e), scan) == Ok(SessionImage(None, "", 1, [], Layout(pos, None)))
            && Delete(Holding(e)) == Holding([])
  {
    var e, s := [Start("c:extras", []), Empty("strip", a), End("c:extras")], OPENED.(layout := Layout(pos, None));
    UnknownStep(OPENED, "c:extras", scan);
    UnknownStep(s, "c:extras", scan);
    WrapExtent(a);
    assert e == [Start("c:extras", []), Empty("strip", a)] + [End("c:extras")];
    hide Step, KindOf, Outcome, Holding, Delete, Extent, Run;
    TwoSteps(Start("c:extras", []), Empty("strip", a), [End("c:extras")], OPENED, OPENED, s, scan);
    RunSingle(End("c:extras"), s, scan);
    HoldingOutcome(e, Layout(pos, None), scan);
    HoldingDeleted(e);
  }

  lemma WrapExtent(a: seq<Attr>)
    ensures Extent([Start("c:extras", []), Empty("strip", a), End("c:extras")] + [End("session")]) == 3
  {
    var toks := [Start("c:extras", []), Empty("strip", a), End("c:extras")] + [End("session")];
    assert toks[1..] == [Empty("strip", a), End("c:extras"), End("session")];
    assert toks[1..][1..] == [End("c:extras"), End("session")] && toks[1..][1..][1..] == [End("session")];
    assert Closing([End("session")], 0) == 0 && Closing(toks[1..][1..], 1) == 1 && Closing(toks[1..], 1) == 2;
  }
}
