/** States of the parser that are not alike are told apart by a continuation with matching end tags. */
module Distinction {
  import opened Wrappers
  import opened Text
  import opened Xml
  import opened Session
  import opened SessionParse
  import opened SessionRoundTrip
  import opened Nesting
  import opened Observation
  import Sorting

  /** Some continuation tells the states apart. */
  ghost predicate Told(a: State, b: State, open: seq<string>, scan: string -> Option<real>) {
    exists post :: Nest(post, open).Some? && Outcome(a, post, scan) != Outcome(b, post, scan)
  }

  lemma ToldBy(a: State, b: State, post: seq<Tok>, open: seq<string>, scan: string -> Option<real>)
    requires Nest(post, open).Some? && Outcome(a, post, scan) != Outcome(b, post, scan)
    ensures Told(a, b, open, scan) && Told(b, a, open, scan)
  {
  }

  lemma ToldSymmetric(a: State, b: State, open: seq<string>, scan: string -> Option<real>)
    requires Told(a, b, open, scan)
    ensures Told(b, a, open, scan)
  {
    hide Outcome;
    var post :| Nest(post, open).Some? && Outcome(a, post, scan) != Outcome(b, post, scan);
    ToldBy(a, b, post, open, scan);
  }

  lemma OutcomeAppend(st: State, p: seq<Tok>, q: seq<Tok>, scan: string -> Option<real>)
    ensures Outcome(st, p + q, scan)
         == (var r := Run(p, st, scan); if r.Ok? then Outcome(r.value, q, scan) else Err(r.error))
  {
    hide Run;
    RunAppend(p, q, st, scan);
  }

  lemma ToldAfter(a: State, b: State, p: seq<Tok>, open: seq<string>, x: State, y: State, left: seq<string>,
                  scan: string -> Option<real>)
    requires Run(p, a, scan) == Ok(x) && Run(p, b, scan) == Ok(y) && Nest(p, open) == Some(left)
    requires Told(x, y, left, scan)
    ensures Told(a, b, open, scan)
  {
    hide Run, Outcome, Nest;
    var post :| Nest(post, left).Some? && Outcome(x, post, scan) != Outcome(y, post, scan);
    NestAppend(p, post, open);
    OutcomeAppend(a, p, post, scan);
    OutcomeAppend(b, p, post, scan);
    ToldBy(a, b, p + post, open, scan);
  }

  /** A root that names a creation time. */
  function Root(): Tok { Empty("session", RootAttrs("", None, 1)) }

  lemma RootStep(st: State, scan: string -> Option<real>)
    ensures Step(st, Root(), scan) == Ok(st.(attrs := SessionAttrs(None, Some(""), Some(1)), buf := ""))
  {
    FrameKinds();
    RootAttrsRead("", None, 1);
    hide KindOf, RootAttrs, ParseSessionAttrs;
  }

  lemma RootOutcome(st: State, scan: string -> Option<real>)
    ensures Outcome(st, [Root()], scan) == Ok(SessionImage(None, "", 1, SortSurfaces(st.surfaces), st.layout))
  {
    RootStep(st, scan);
    hide Step, Root, SortSurfaces;
    RunSingle(Root(), st, scan);
  }

  lemma RootNests(open: seq<string>)
    ensures Nest([Root()], open) == Some(open)
  {
    NestOne(Root(), open);
  }

  lemma ToldByError(a: State, b: State, p: seq<Tok>, open: seq<string>, scan: string -> Option<real>)
    requires Nest(p, open).Some? && Run(p, a, scan).Err?
    requires Run(p, b, scan).Ok? || Run(p, b, scan).error != Run(p, a, scan).error
    ensures Told(a, b, open, scan) && Told(b, a, open, scan)
  {
    hide Run, Nest, Outcome, Root;
    var left := Nest(p, open).value;
    RootNests(left);
    NestAppend(p, [Root()], open);
    OutcomeAppend(a, p, [Root()], scan);
    OutcomeAppend(b, p, [Root()], scan);
    if Run(p, b, scan).Ok? {
      RootOutcome(Run(p, b, scan).value, scan);
    }
    ToldBy(a, b, p + [Root()], open, scan);
  }

  // ---- what the image shows ----

  lemma FinishTold(a: State, b: State, open: seq<string>, scan: string -> Option<real>)
    requires SortSurfaces(a.surfaces) != SortSurfaces(b.surfaces) || a.layout != b.layout
             || !AttrsAlike(a.attrs, b.attrs)
    ensures Told(a, b, open, scan)
  {
    hide SortSurfaces, Root;
    if a.attrs.created.None? && b.attrs.created.None? {
      RootOutcome(a, scan);
      RootOutcome(b, scan);
      RootNests(open);
      ToldBy(a, b, [Root()], open, scan);
    } else {
      assert Outcome(a, [], scan) == Finish(a) && Outcome(b, [], scan) == Finish(b);
      ToldBy(a, b, [], open, scan);
    }
  }

  // ---- whether a builder, a host or a target is there ----

  lemma ToldStep(a: State, b: State, t: Tok, open: seq<string>, x: State, y: State, left: seq<string>,
                 scan: string -> Option<real>)
    requires Step(a, t, scan) == Ok(x) && Step(b, t, scan) == Ok(y) && Allowed(t, open) == Some(left)
    requires Told(x, y, left, scan)
    ensures Told(a, b, open, scan)
  {
    hide Step, Told;
    RunSingle(t, a, scan);
    RunSingle(t, b, scan);
    NestCons([t], open);
    assert [t][1..] == [];
    ToldAfter(a, b, [t], open, x, y, left, scan);
  }

  lemma ToldStepError(a: State, b: State, t: Tok, open: seq<string>, scan: string -> Option<real>)
    requires Allowed(t, open).Some? && Step(a, t, scan).Err?
    requires Step(b, t, scan).Ok? || Step(b, t, scan).error != Step(a, t, scan).error
    ensures Told(a, b, open, scan) && Told(b, a, open, scan)
  {
    hide Step, Told;
    RunSingle(t, a, scan);
    RunSingle(t, b, scan);
    NestCons([t], open);
    assert [t][1..] == [];
    ToldByError(a, b, [t], open, scan);
  }

  lemma CloseAllowed(n: string, open: seq<string>)
    ensures Allowed(End(n), [n] + open) == Some(open)
  {
    assert ([n] + open)[1..] == open;
  }

  lemma CurPresenceTold(a: State, b: State, open: seq<string>, scan: string -> Option<real>)
    requires a.cur.None? && b.cur.Some?
    ensures Told(a, b, open, scan)
  {
    var x, y := a.(target := Some(Machine), buf := ""), b.(target := Some(Machine), buf := "");
    TextKinds();
    assert Step(a, Start("machine", []), scan) == Ok(x) && Step(b, Start("machine", []), scan) == Ok(y);
    assert Step(x, End("machine"), scan).Err? && Step(y, End("machine"), scan).Ok?;
    CloseAllowed("machine", open);
    hide Step, KindOf, Told;
    ToldStepError(x, y, End("machine"), ["machine"] + open, scan);
    ToldStep(a, b, Start("machine", []), open, x, y, ["machine"] + open, scan);
  }

  lemma Ampersand()
    ensures Unescape("&") == None
  {
  }

  lemma TargetPresenceTold(a: State, b: State, open: seq<string>, scan: string -> Option<real>)
    requires a.target.Some? && b.target.None?
    ensures Told(a, b, open, scan)
  {
    Ampersand();
    hide Unescape, Told;
    ToldStepError(a, b, Chars("&"), open, scan);
    ToldStep(a, b, Decl, open, a, b, open, scan);
  }

  /** A surface with nothing in it. */
  function Bare(): SurfaceEntry { SurfaceEntry(seq(32, _ => 0), "", 0, HostEntry("", Linux, "", ""), H265, 0, 0) }

  function BareTag(): Tok { Empty("surface", SurfaceAttrs(Bare())) }

  lemma BareStep(st: State, scan: string -> Option<real>)
    ensures Step(st, BareTag(), scan) == Ok(st.(cur := Some(Fresh(Bare())), buf := ""))
  {
    SurfaceKinds();
    SurfaceAttrsRead(Bare());
    hide KindOf, SurfaceAttrs, ParseSurface;
  }

  lemma OddOs()
    ensures Unescape("z") == Some("z") && OsFromStr("z").Err?
  {
    UnescapePlain("z");
  }

  lemma OddOsRead(st: State, scan: string -> Option<real>)
    requires st.target == Some(Os) && st.buf == ""
    ensures Step(st, Chars("z"), scan) == Ok(st.(buf := "z"))
  {
    OddOs();
    hide Unescape;
    assert "" + "z" == "z";
  }

  lemma OddOsEnd(st: State, scan: string -> Option<real>)
    requires st.cur.Some? && st.target == Some(Os) && st.buf == "z"
    ensures Step(st, End("os"), scan).Err? <==> st.inHost
  {
    TextKinds();
    OddOs();
    hide KindOf, OsFromStr, CodecFromStr, Unescape;
  }

  lemma OsStart(st: State, scan: string -> Option<real>)
    ensures Step(st, Start("os", []), scan) == Ok(st.(target := Some(Os), buf := ""))
  {
    TextKinds();
    hide KindOf;
  }

  /** The text of an operating system nobody has, in a surface: refused in a host, and not used outside. */
  lemma OddOsTold(a: State, b: State, open: seq<string>, scan: string -> Option<real>)
    requires a.cur.Some? && b.cur.Some? && a.inHost && !b.inHost
    ensures Told(a, b, open, scan)
  {
    var x, y := a.(target := Some(Os), buf := ""), b.(target := Some(Os), buf := "");
    OsStart(a, scan);
    OsStart(b, scan);
    OddOsRead(x, scan);
    OddOsRead(y, scan);
    OddOsEnd(x.(buf := "z"), scan);
    OddOsEnd(y.(buf := "z"), scan);
    CloseAllowed("os", open);
    hide Step, Told;
    ToldStepError(x.(buf := "z"), y.(buf := "z"), End("os"), ["os"] + open, scan);
    ToldStep(x, y, Chars("z"), ["os"] + open, x.(buf := "z"), y.(buf := "z"), ["os"] + open, scan);
    ToldStep(a, b, Start("os", []), open, x, y, ["os"] + open, scan);
  }

  lemma HostTold(a: State, b: State, open: seq<string>, scan: string -> Option<real>)
    requires a.inHost && !b.inHost
    ensures Told(a, b, open, scan)
  {
    var x, y := a.(cur := Some(Fresh(Bare())), buf := ""), b.(cur := Some(Fresh(Bare())), buf := "");
    BareStep(a, scan);
    BareStep(b, scan);
    BareAllowed(open);
    hide Step, BareTag, Fresh, Told, Allowed;
    OddOsTold(x, y, open, scan);
    ToldStep(a, b, BareTag(), open, x, y, open, scan);
  }

  lemma BareAllowed(open: seq<string>)
    ensures Allowed(BareTag(), open) == Some(open)
  {
  }

  // ---- a builder in a surface that is still open ----

  /** Leaves the host, takes no target and empties the buffer. */
  function Settle(): seq<Line> {
    [Line(3, [Start("host", [])]), Line(3, [End("host")]), TextLine(4, "machine", "")]
  }

  function AtRest(st: State): State { st.(inHost := false, target := None, buf := "") }

  lemma SettleRun(st: State, scan: string -> Option<real>)
    requires st.cur.Some?
    ensures RunLines(Settle(), false, st, scan) == Ok(AtRest(st))
  {
    var s := st.(inHost := false, buf := "");
    TextKinds();
    hide RunLines, TextLine, KindOf;
    HostTagsRun(false, st, scan);
    HostTagsRun(false, st.(inHost := true, buf := ""), scan);
    TextRun(4, "machine", "", Machine, false, s, scan);
    RunThree(Settle()[0], Settle()[1], Settle()[2], st, st.(inHost := true, buf := ""), s, AtRest(st), false, scan);
  }

  lemma SettleWhole()
    ensures WholeLines(Settle())
  {
    assert Settle() == ([Line(3, [Start("host", [])])] + [] + [Line(3, [End("host")])]) + [TextLine(4, "machine", "")];
    assert WholeLines([]);
    TextWhole(4, "machine", "");
    hide WholeLines, TextLine, Whole;
    WholeLine(TextLine(4, "machine", ""));
    ElementLinesWhole(3, "host", [], []);
    WholeLinesAppend([Line(3, [Start("host", [])])] + [] + [Line(3, [End("host")])], [TextLine(4, "machine", "")]);
  }

  /** The end tags inside the innermost open surface. */
  function Ends(open: seq<string>): seq<Tok>
    requires SurfaceOpen(open)
  {
    if KindOf(open[0]).SurfaceEl? then [] else [End(open[0])] + Ends(open[1..])
  }

  /** That surface, and what it stands in. */
  function Inner(open: seq<string>): (r: seq<string>)
    requires SurfaceOpen(open)
    ensures r != [] && KindOf(r[0]).SurfaceEl?
  {
    if KindOf(open[0]).SurfaceEl? then open else Inner(open[1..])
  }

  lemma {:induction false} EndsRun(st: State, open: seq<string>, scan: string -> Option<real>)
    requires SurfaceOpen(open) && st.cur.Some? && st == AtRest(st)
    ensures Run(Ends(open), st, scan) == Ok(st) && Nest(Ends(open), open) == Some(Inner(open))
  {
    if !KindOf(open[0]).SurfaceEl? {
      hide KindOf;
      EndsRun(st, open[1..], scan);
      assert ([End(open[0])] + Ends(open[1..]))[1..] == Ends(open[1..]);
      assert Step(st, End(open[0]), scan) == Ok(st);
    }
  }

  /** The parts of a builder, the sizes as one. */
  datatype Part = Ident | AddressPart | OsPart | MachinePart | CapturePart | CodecPart | Sizes

  /** The builder once every part is given but one. */
  function Given(b: SurfaceBuilder, p: Part): SurfaceBuilder {
    SurfaceBuilder(b.id, b.name, b.order,
                   if p.AddressPart? then b.address else Some(""), if p.OsPart? then b.os else Some(Linux),
                   if p.MachinePart? then b.machine else Some(""), if p.CapturePart? then b.capture else Some(""),
                   if p.CodecPart? then b.codec else Some(H265),
                   if p.Sizes? then b.width else Some(0), if p.Sizes? then b.height else Some(0))
  }

  /** The sizes come together. */
  predicate Paired(cur: Option<SurfaceBuilder>) { cur.Some? ==> cur.value.width.Some? == cur.value.height.Some? }

  function PartThatDiffers(x: SurfaceBuilder, y: SurfaceBuilder): Part {
    if x.address != y.address then AddressPart else if x.os != y.os then OsPart
    else if x.machine != y.machine then MachinePart else if x.capture != y.capture then CapturePart
    else if x.codec != y.codec then CodecPart else if x.width != y.width || x.height != y.height then Sizes
    else Ident
  }

  /** Whether the builder has the part. */
  predicate Has(b: SurfaceBuilder, p: Part) {
    match p
    case AddressPart => b.address.Some?
    case OsPart => b.os.Some?
    case MachinePart => b.machine.Some?
    case CapturePart => b.capture.Some?
    case CodecPart => b.codec.Some?
    case Sizes => b.width.Some? && b.height.Some?
    case Ident => true
  }

  /** The entry of that part and the ones given. */
  function EntryOfPart(b: SurfaceBuilder, p: Part): SurfaceEntry
    requires Has(b, p)
  {
    SurfaceEntry(b.id, b.name, b.order,
                 HostEntry(if p.AddressPart? then b.address.value else "", if p.OsPart? then b.os.value else Linux,
                           if p.MachinePart? then b.machine.value else "", if p.CapturePart? then b.capture.value
                           else ""),
                 if p.CodecPart? then b.codec.value else H265,
                 if p.Sizes? then b.width.value else 0, if p.Sizes? then b.height.value else 0)
  }

  lemma GivenBuilds(b: SurfaceBuilder, p: Part)
    ensures if Has(b, p) then Given(b, p).Build() == Ok(EntryOfPart(b, p)) else Given(b, p).Build().Err?
  {
  }

  lemma BuildTells(x: SurfaceBuilder, y: SurfaceBuilder)
    requires x != y && Paired(Some(x)) && Paired(Some(y))
    ensures var p := PartThatDiffers(x, y);
            var e, f := Given(x, p).Build(), Given(y, p).Build();
            e != f && (e.Ok? || f.Ok?)
  {
    var p := PartThatDiffers(x, y);
    GivenBuilds(x, p);
    GivenBuilds(y, p);
    hide Given, SurfaceBuilder.Build;
  }

  function Unless(skip: bool, l: Line): seq<Line> { if skip then [] else [l] }

  lemma UnlessRun(skip: bool, l: Line, s: State, t: State, scan: string -> Option<real>)
    requires if skip then s == t else RunLines([l], false, s, scan) == Ok(t)
    ensures RunLines(Unless(skip, l), false, s, scan) == Ok(t)
  {
  }

  lemma UnlessWhole(skip: bool, l: Line)
    requires Whole(l.toks)
    ensures WholeLines(Unless(skip, l))
  {
    WholeLine(l);
    assert WholeLines([]);
  }

  function TextsBut(p: Part): seq<Line> {
    Unless(p.AddressPart?, TextLine(4, "address", "")) + Unless(p.OsPart?, TextLine(4, "os", OsToStr(Linux)))
    + Unless(p.MachinePart?, TextLine(4, "machine", "")) + Unless(p.CapturePart?, TextLine(4, "capture", ""))
  }

  function BareSizes(): Line { Line(3, [Empty("dimensions", [Attr("height", Dec(0)), Attr("width", Dec(0))])]) }

  function TailBut(p: Part): seq<Line> {
    Unless(p.CodecPart?, TextLine(3, "codec", CodecToStr(H265))) + Unless(p.Sizes?, BareSizes())
  }

  /** Everything a surface holds but one part. */
  function AllBut(p: Part): seq<Line> {
    [Line(3, [Start("host", [])])] + TextsBut(p) + [Line(3, [End("host")])] + TailBut(p)
  }

  lemma TextsButRun(st: State, b: SurfaceBuilder, p: Part, scan: string -> Option<real>)
    requires st == WithHost(st, b) && st.inHost
    ensures RunLines(TextsBut(p), false, st, scan)
         == Ok(WithHost(st, b.(address := if p.AddressPart? then b.address else Some(""),
                               os := if p.OsPart? then b.os else Some(Linux),
                               machine := if p.MachinePart? then b.machine else Some(""),
                               capture := if p.CapturePart? then b.capture else Some(""))))
  {
    var b1 := if p.AddressPart? then b else b.(address := Some(""));
    var b2 := if p.OsPart? then b1 else b1.(os := Some(Linux));
    var b3 := if p.MachinePart? then b2 else b2.(machine := Some(""));
    var b4 := if p.CapturePart? then b3 else b3.(capture := Some(""));
    hide RunLines, TextLine, Unless, OsToStr;
    AddressRun("", false, st, scan);
    OsRun(Linux, false, WithHost(st, b1), scan);
    MachineRun("", false, WithHost(st, b2), scan);
    CaptureRun("", false, WithHost(st, b3), scan);
    UnlessRun(p.AddressPart?, TextLine(4, "address", ""), st, WithHost(st, b1), scan);
    UnlessRun(p.OsPart?, TextLine(4, "os", OsToStr(Linux)), WithHost(st, b1), WithHost(st, b2), scan);
    UnlessRun(p.MachinePart?, TextLine(4, "machine", ""), WithHost(st, b2), WithHost(st, b3), scan);
    UnlessRun(p.CapturePart?, TextLine(4, "capture", ""), WithHost(st, b3), WithHost(st, b4), scan);
    RunParts(Unless(p.AddressPart?, TextLine(4, "address", "")), Unless(p.OsPart?, TextLine(4, "os", OsToStr(Linux))),
             Unless(p.MachinePart?, TextLine(4, "machine", "")), Unless(p.CapturePart?, TextLine(4, "capture", "")),
             st, WithHost(st, b1), WithHost(st, b2), WithHost(st, b3), WithHost(st, b4), false, scan);
  }

  lemma TailButRun(st: State, b: SurfaceBuilder, p: Part, scan: string -> Option<real>)
    requires st == WithHost(st, b)
    ensures RunLines(TailBut(p), false, st, scan)
         == Ok(WithHost(st, b.(codec := if p.CodecPart? then b.codec else Some(H265),
                               width := if p.Sizes? then b.width else Some(0),
                               height := if p.Sizes? then b.height else Some(0))))
  {
    var b1 := if p.CodecPart? then b else b.(codec := Some(H265));
    var b2 := if p.Sizes? then b1 else b1.(width := Some(0), height := Some(0));
    var codec := TextLine(3, "codec", CodecToStr(H265));
    hide RunLines, TextLine, Unless, CodecToStr, Dec;
    CodecRun(H265, false, st, scan);
    DimensionsRun(Bare(), false, WithHost(st, b1), scan);
    UnlessRun(p.CodecPart?, codec, st, WithHost(st, b1), scan);
    UnlessRun(p.Sizes?, BareSizes(), WithHost(st, b1), WithHost(st, b2), scan);
    RunLinesAppend(Unless(p.CodecPart?, codec), Unless(p.Sizes?, BareSizes()), false, st, scan);
  }

  lemma AllButRun(st: State, b: SurfaceBuilder, p: Part, scan: string -> Option<real>)
    requires st == WithHost(st, b) && !st.inHost
    ensures RunLines(AllBut(p), false, st, scan) == Ok(WithHost(st, Given(b, p)))
  {
    var s1 := st.(inHost := true);
    var s2 := WithHost(s1, b.(address := if p.AddressPart? then b.address else Some(""),
                              os := if p.OsPart? then b.os else Some(Linux),
                              machine := if p.MachinePart? then b.machine else Some(""),
                              capture := if p.CapturePart? then b.capture else Some("")));
    var s3 := s2.(inHost := false);
    hide RunLines, TextsBut, TailBut;
    HostTagsRun(false, st, scan);
    TextsButRun(s1, b, p, scan);
    HostTagsRun(false, s2, scan);
    TailButRun(s3, s2.cur.value, p, scan);
    RunParts([Line(3, [Start("host", [])])], TextsBut(p), [Line(3, [End("host")])], TailBut(p),
             st, s1, s2, s3, WithHost(st, Given(b, p)), false, scan);
  }

  lemma TextsButWhole(p: Part)
    ensures WholeLines(TextsBut(p))
  {
    TextWhole(4, "address", "");
    TextWhole(4, "os", OsToStr(Linux));
    TextWhole(4, "machine", "");
    TextWhole(4, "capture", "");
    hide Whole, WholeLines, TextLine, Unless, OsToStr;
    var a, o := Unless(p.AddressPart?, TextLine(4, "address", "")),
        Unless(p.OsPart?, TextLine(4, "os", OsToStr(Linux)));
    var m, c := Unless(p.MachinePart?, TextLine(4, "machine", "")), Unless(p.CapturePart?, TextLine(4, "capture", ""));
    UnlessWhole(p.AddressPart?, TextLine(4, "address", ""));
    UnlessWhole(p.OsPart?, TextLine(4, "os", OsToStr(Linux)));
    UnlessWhole(p.MachinePart?, TextLine(4, "machine", ""));
    UnlessWhole(p.CapturePart?, TextLine(4, "capture", ""));
    WholeLinesAppend(a, o);
    WholeLinesAppend(a + o, m);
    WholeLinesAppend(a + o + m, c);
  }

  lemma AllButWhole(p: Part)
    ensures WholeLines(AllBut(p))
  {
    var codec := TextLine(3, "codec", CodecToStr(H265));
    TextsButWhole(p);
    TextWhole(3, "codec", CodecToStr(H265));
    EmptyWhole("dimensions", [Attr("height", Dec(0)), Attr("width", Dec(0))]);
    hide Whole, WholeLines, TextLine, Unless, CodecToStr, TextsBut;
    UnlessWhole(p.CodecPart?, codec);
    UnlessWhole(p.Sizes?, BareSizes());
    WholeLinesAppend(Unless(p.CodecPart?, codec), Unless(p.Sizes?, BareSizes()));
    ElementLinesWhole(3, "host", [], TextsBut(p));
    WholeLinesAppend([Line(3, [Start("host", [])])] + TextsBut(p) + [Line(3, [End("host")])], TailBut(p));
  }

  lemma ToldLines(a: State, b: State, lines: seq<Line>, open: seq<string>, x: State, y: State,
                  scan: string -> Option<real>)
    requires RunLines(lines, false, a, scan) == Ok(x) && RunLines(lines, false, b, scan) == Ok(y)
    requires WholeLines(lines) && Told(x, y, open, scan)
    ensures Told(a, b, open, scan)
  {
    hide RunLines, Told;
    var toks := Reported(Flat(lines), false);
    RunLinesIsRun(lines, false, a, scan);
    RunLinesIsRun(lines, false, b, scan);
    WholeNests(Flat(lines), open);
    NestReported(Flat(lines), false, open);
    ToldAfter(a, b, toks, open, x, y, open, scan);
  }

  /** Closing the surface shows a difference in what was built. */
  lemma ClosingTold(a: State, b: State, open: seq<string>, scan: string -> Option<real>)
    requires open != [] && KindOf(open[0]).SurfaceEl? && SortSurfaces(a.surfaces) == SortSurfaces(b.surfaces)
    requires a.cur.Some? && b.cur.Some?
    requires var e, f := a.cur.value.Build(), b.cur.value.Build(); e != f && (e.Ok? || f.Ok?)
    ensures Told(a, b, open, scan)
  {
    var t, e, f := End(open[0]), a.cur.value.Build(), b.cur.value.Build();
    hide KindOf, Told;
    if e.Err? || f.Err? {
      ToldStepError(if e.Err? then a else b, if e.Err? then b else a, t, open, scan);
    } else {
      var x := a.(cur := None, surfaces := a.surfaces + [e.value]);
      var y := b.(cur := None, surfaces := b.surfaces + [f.value]);
      Sorting.SortSnocAlike(a.surfaces, b.surfaces, e.value, f.value, OrderOf);
      FinishTold(x, y, open[1..], scan);
      ToldStep(a, b, t, open, x, y, open[1..], scan);
    }
  }

  lemma CurTold(a: State, b: State, open: seq<string>, scan: string -> Option<real>)
    requires a.cur.Some? && b.cur.Some? && a.cur != b.cur && Paired(a.cur) && Paired(b.cur)
    requires SurfaceOpen(open) && SortSurfaces(a.surfaces) == SortSurfaces(b.surfaces)
    ensures Told(a, b, open, scan)
  {
    var p := PartThatDiffers(a.cur.value, b.cur.value);
    var a1, b1 := AtRest(a), AtRest(b);
    var a2, b2 := WithHost(a1, Given(a.cur.value, p)), WithHost(b1, Given(b.cur.value, p));
    BuildTells(a.cur.value, b.cur.value);
    hide RunLines, Run, Told, Given, PartThatDiffers, SurfaceBuilder.Build, Settle, AllBut, SortSurfaces, KindOf, Ends,
      WholeLines;
    ClosingTold(a2, b2, Inner(open), scan);
    AllButRun(a1, a.cur.value, p, scan);
    AllButRun(b1, b.cur.value, p, scan);
    AllButWhole(p);
    ToldLines(a1, b1, AllBut(p), Inner(open), a2, b2, scan);
    EndsRun(a1, open, scan);
    EndsRun(b1, open, scan);
    ToldAfter(a1, b1, Ends(open), open, a1, b1, Inner(open), scan);
    SettleRun(a, scan);
    SettleRun(b, scan);
    SettleWhole();
    ToldLines(a, b, Settle(), open, a1, b1, scan);
  }

  // ---- a target ----

  function SizesTag(): Tok { Empty("dimensions", [Attr("height", Dec(0)), Attr("width", Dec(0))]) }

  /** The end tags down to the innermost open text element, with the sizes of a surface on the way. */
  function PathToText(open: seq<string>, given: bool): seq<Tok>
    requires AfterText(open, given).Some?
  {
    match KindOf(open[0])
    case TextEl(_) => []
    case SurfaceEl => [SizesTag(), End(open[0])] + PathToText(open[1..], false)
    case _ => [End(open[0])] + PathToText(open[1..], given)
  }

  function SizedEntry(b: SurfaceBuilder): SurfaceEntry
    requires TextsGiven(Some(b))
  {
    SurfaceEntry(b.id, b.name, b.order, HostEntry(b.address.value, b.os.value, b.machine.value, b.capture.value),
                 b.codec.value, 0, 0)
  }

  /** The entries of the surfaces closed on the way. */
  function Passed(cur: Option<SurfaceBuilder>, open: seq<string>): seq<SurfaceEntry>
    requires AfterText(open, TextsGiven(cur)).Some?
  {
    match KindOf(open[0])
    case TextEl(_) => []
    case SurfaceEl => [SizedEntry(cur.value)]
    case _ => Passed(cur, open[1..])
  }

  lemma {:induction false} PassedNone(open: seq<string>)
    requires AfterText(open, false).Some?
    ensures Passed(None, open) == []
  {
    hide KindOf;
    match KindOf(open[0])
    case TextEl(_) =>
    case SurfaceEl =>
    case _ => PassedNone(open[1..]);
  }

  lemma SizesStep(st: State, scan: string -> Option<real>)
    requires st.cur.Some?
    ensures Step(st, SizesTag(), scan)
         == Ok(st.(cur := Some(st.cur.value.(width := Some(0), height := Some(0))), buf := ""))
  {
    SurfaceKinds();
    DimensionsRead(Bare());
    hide KindOf, Dec, AttrU32;
  }

  /** What the way to the text leaves of a state: the target, and what was closed. */
  predicate Arrived(st: State, s: State, closed: seq<SurfaceEntry>) {
    s.target == st.target && s.surfaces == st.surfaces + closed && s.layout == st.layout && s.attrs == st.attrs
  }

  lemma RunStep(t: Tok, more: seq<Tok>, st: State, x: State, scan: string -> Option<real>)
    requires Step(st, t, scan) == Ok(x)
    ensures Run([t] + more, st, scan) == Run(more, x, scan)
  {
    assert ([t] + more)[1..] == more;
  }

  lemma NestStep(t: Tok, more: seq<Tok>, open: seq<string>, left: seq<string>)
    requires Allowed(t, open) == Some(left)
    ensures Nest([t] + more, open) == Nest(more, left)
  {
    assert ([t] + more)[1..] == more;
    NestCons([t] + more, open);
  }

  lemma ClosedSurface(st: State, n: string, scan: string -> Option<real>)
    requires TextsGiven(st.cur) && KindOf(n).SurfaceEl?
    ensures var sized := st.(cur := Some(st.cur.value.(width := Some(0), height := Some(0))), buf := "");
            && Step(st, SizesTag(), scan) == Ok(sized)
            && Step(sized, End(n), scan)
               == Ok(sized.(cur := None, surfaces := st.surfaces + [SizedEntry(st.cur.value)]))
  {
    SizesStep(st, scan);
    hide SizesTag, KindOf;
  }

  lemma ArrivedAfter(st: State, closed: State, s: State, e: SurfaceEntry)
    requires closed == st.(cur := None, surfaces := st.surfaces + [e], buf := "") && Arrived(closed, s, [])
    ensures Arrived(st, s, [e])
  {
  }

  lemma PathThroughSurface(st: State, open: seq<string>, closed: State, s: State, scan: string -> Option<real>)
    requires TextsGiven(st.cur) && AfterText(open, true).Some? && KindOf(open[0]).SurfaceEl?
    requires closed == st.(cur := None, surfaces := st.surfaces + [SizedEntry(st.cur.value)], buf := "")
    requires Run(PathToText(open[1..], false), closed, scan) == Ok(s)
    ensures Run(PathToText(open, true), st, scan) == Ok(s)
    ensures Nest(PathToText(open, true), open) == Nest(PathToText(open[1..], false), open[1..])
  {
    var path := PathToText(open[1..], false);
    assert PathToText(open, true) == [SizesTag(), End(open[0])] + path;
    ClosedSurface(st, open[0], scan);
    hide *;
    var sized := st.(cur := Some(st.cur.value.(width := Some(0), height := Some(0))), buf := "");
    TwoSteps(SizesTag(), End(open[0]), path, st, sized, closed, scan);
    SizesAllowed(open);
    assert open == [open[0]] + open[1..];
    CloseAllowed(open[0], open[1..]);
    TwoNestSteps(SizesTag(), End(open[0]), path, open, open, open[1..]);
  }

  lemma TwoSteps(t: Tok, u: Tok, more: seq<Tok>, a: State, b: State, c: State, scan: string -> Option<real>)
    requires Step(a, t, scan) == Ok(b) && Step(b, u, scan) == Ok(c)
    ensures Run([t, u] + more, a, scan) == Run(more, c, scan)
  {
    hide Step, Run;
    RunStep(t, [u] + more, a, b, scan);
    RunStep(u, more, b, c, scan);
    assert [t, u] + more == [t] + ([u] + more);
  }

  lemma TwoNestSteps(t: Tok, u: Tok, more: seq<Tok>, a: seq<string>, b: seq<string>, c: seq<string>)
    requires Allowed(t, a) == Some(b) && Allowed(u, b) == Some(c)
    ensures Nest([t, u] + more, a) == Nest(more, c)
  {
    hide Allowed, Nest;
    NestStep(t, [u] + more, a, b);
    NestStep(u, more, b, c);
    assert [t, u] + more == [t] + ([u] + more);
  }

  lemma PathThrough(st: State, open: seq<string>, given: bool, next: State, s: State, closed: seq<SurfaceEntry>,
                    scan: string -> Option<real>)
    requires AfterText(open, given).Some? && !KindOf(open[0]).SurfaceEl? && !KindOf(open[0]).TextEl?
    requires next == if KindOf(open[0]).HostEl? then st.(inHost := false) else st
    requires Run(PathToText(open[1..], given), next, scan) == Ok(s) && Arrived(next, s, closed)
    ensures Run(PathToText(open, given), st, scan) == Ok(s) && Arrived(st, s, closed)
    ensures Nest(PathToText(open, given), open) == Nest(PathToText(open[1..], given), open[1..])
  {
    var n, rest, path := open[0], open[1..], PathToText(open[1..], given);
    hide KindOf;
    assert PathToText(open, given) == [End(n)] + path && AfterText(rest, given).Some?;
    assert Step(st, End(n), scan) == Ok(next);
    hide Run, Nest, PathToText, AfterText, Step;
    RunStep(End(n), path, st, next, scan);
    NestStep(End(n), path, open, rest);
  }

  lemma {:induction false} PathRun(st: State, open: seq<string>, scan: string -> Option<real>)
      returns (s: State, top: string)
    requires AfterText(open, TextsGiven(st.cur)).Some?
    ensures var given := TextsGiven(st.cur);
            && Run(PathToText(open, given), st, scan) == Ok(s) && KindOf(top).TextEl?
            && Nest(PathToText(open, given), open) == Some([top] + AfterText(open, given).value)
            && Arrived(st, s, Passed(st.cur, open))
    decreases |open|
  {
    var n, rest, given := open[0], open[1..], TextsGiven(st.cur);
    hide KindOf, SizedEntry, Run, Nest;
    match KindOf(n) {
      case TextEl(_) =>
        s, top := st, n;
        PathEnd(st, open, scan);
      case SurfaceEl =>
        var closed := st.(cur := None, surfaces := st.surfaces + [SizedEntry(st.cur.value)], buf := "");
        hide TextsGiven, Arrived;
        NoTextsGiven();
        s, top := PathRun(closed, rest, scan);
        PassedNone(rest);
        PathThroughSurface(st, open, closed, s, scan);
        ArrivedAfter(st, closed, s, SizedEntry(st.cur.value));
      case _ =>
        var next := if KindOf(n).HostEl? then st.(inHost := false) else st;
        hide TextsGiven, Arrived;
        s, top := PathRun(next, rest, scan);
        PathThrough(st, open, given, next, s, Passed(st.cur, open), scan);
    }
  }

  lemma NoTextsGiven()
    ensures !TextsGiven(None)
  {
  }

  lemma SizesAllowed(open: seq<string>)
    ensures Allowed(SizesTag(), open) == Some(open)
  {
  }

  lemma PathEnd(st: State, open: seq<string>, scan: string -> Option<real>)
    requires open != []
    ensures Run([], st, scan) == Ok(st) && Nest([], open) == Some([open[0]] + open[1..])
    ensures Arrived(st, st, [])
  {
    assert open == [open[0]] + open[1..] && st.surfaces + [] == st.surfaces;
  }

  lemma EndTextStep(st: State, top: string, scan: string -> Option<real>)
    requires KindOf(top).TextEl?
    ensures Step(st, End(top), scan)
         == (var b := ApplyText(st.cur, st.inHost, st.target, st.buf);
             if b.Ok? then Ok(st.(cur := Some(b.value), target := None, buf := "")) else Err(b.error))
  {
    hide KindOf, ApplyText;
  }

  lemma TargetsApply(t: TextTarget, u: TextTarget)
    requires t != u
    ensures var b := Some(Fresh(Bare()));
            var x, y := ApplyText(b, true, Some(t), "z"), ApplyText(b, true, Some(u), "z");
            if PlainTarget(t) && PlainTarget(u)
            then x.Ok? && y.Ok? && x.value != y.value && Paired(Some(x.value)) && Paired(Some(y.value))
            else (x.Err? && (y.Err? ==> x.error != y.error)) || (y.Err? && (x.Err? ==> x.error != y.error))
  {
    assert OsFromStr("z") == Err(UnknownEnum("os", "z")) && CodecFromStr("z") == Err(UnknownEnum("codec", "z"));
    assert "os" != "codec";
    hide OsFromStr, CodecFromStr;
  }

  /** Closing a text element under different targets. */
  lemma UseTold(a: State, b: State, top: string, rest: seq<string>, scan: string -> Option<real>)
    requires KindOf(top).TextEl? && a.cur == b.cur == Some(Fresh(Bare())) && a.inHost && b.inHost
    requires a.buf == b.buf == "z" && a.target.Some? && b.target.Some? && a.target != b.target
    requires SortSurfaces(a.surfaces) == SortSurfaces(b.surfaces)
    requires PlainTarget(a.target.value) && PlainTarget(b.target.value) ==> SurfaceOpen(rest)
    ensures Told(a, b, [top] + rest, scan)
  {
    TargetsApply(a.target.value, b.target.value);
    EndTextStep(a, top, scan);
    EndTextStep(b, top, scan);
    CloseAllowed(top, rest);
    hide KindOf, Told, ApplyText, Step, SortSurfaces, Fresh, Allowed, Paired, SurfaceOpen;
    if PlainTarget(a.target.value) && PlainTarget(b.target.value) {
      var x, y := Step(a, End(top), scan).value, Step(b, End(top), scan).value;
      CurTold(x, y, rest, scan);
      ToldStep(a, b, End(top), [top] + rest, x, y, rest, scan);
    } else if Step(a, End(top), scan).Err? {
      ToldStepError(a, b, End(top), [top] + rest, scan);
    } else {
      ToldStepError(b, a, End(top), [top] + rest, scan);
    }
  }

  lemma HostEmptyStep(st: State, scan: string -> Option<real>)
    ensures Step(st, Empty("host", []), scan) == Ok(st.(inHost := true, buf := ""))
  {
    SurfaceKinds();
    hide KindOf;
  }

  lemma ReadZ(st: State, scan: string -> Option<real>)
    requires st.target.Some? && st.buf == ""
    ensures Step(st, Chars("z"), scan) == Ok(st.(buf := "z"))
  {
    OddOs();
    hide Unescape;
    assert "" + "z" == "z";
  }

  /** A fresh surface and host, and a text: what the target is shows when the text element ends. */
  lemma AtTextTold(a: State, b: State, top: string, rest: seq<string>, scan: string -> Option<real>)
    requires KindOf(top).TextEl? && a.target.Some? && b.target.Some? && a.target != b.target
    requires SortSurfaces(a.surfaces) == SortSurfaces(b.surfaces)
    requires PlainTarget(a.target.value) && PlainTarget(b.target.value) ==> SurfaceOpen(rest)
    ensures Told(a, b, [top] + rest, scan)
  {
    var x1, y1 := a.(cur := Some(Fresh(Bare())), buf := ""), b.(cur := Some(Fresh(Bare())), buf := "");
    var x2, y2 := x1.(inHost := true), y1.(inHost := true);
    var x3, y3 := x2.(buf := "z"), y2.(buf := "z");
    var open := [top] + rest;
    BareStep(a, scan);
    BareStep(b, scan);
    BareAllowed(open);
    HostEmptyStep(x1, scan);
    HostEmptyStep(y1, scan);
    ReadZ(x2, scan);
    ReadZ(y2, scan);
    hide KindOf, Told, Step, SortSurfaces, Fresh, SurfaceOpen, BareTag;
    UseTold(x3, y3, top, rest, scan);
    ToldStep(x2, y2, Chars("z"), open, x3, y3, open, scan);
    ToldStep(x1, y1, Empty("host", []), open, x2, y2, open, scan);
    ToldStep(a, b, BareTag(), open, x1, y1, open, scan);
  }

  lemma {:induction false} SortAppendAlike(a: seq<SurfaceEntry>, b: seq<SurfaceEntry>, more: seq<SurfaceEntry>)
    requires SortSurfaces(a) == SortSurfaces(b)
    ensures SortSurfaces(a + more) == SortSurfaces(b + more)
  {
    if more == [] {
      assert a + more == a && b + more == b;
    } else {
      hide Sorting.StableSort;
      var n := |more| - 1;
      SortAppendAlike(a, b, more[..n]);
      Sorting.SortSnocAlike(a + more[..n], b + more[..n], more[n], more[n], OrderOf);
      assert a + more == a + more[..n] + [more[n]] && b + more == b + more[..n] + [more[n]];
    }
  }

  /** Targets over the same builder. */
  lemma SameBuilderTargetTold(a: State, b: State, open: seq<string>, scan: string -> Option<real>)
    requires a.cur == b.cur && a.target.Some? && b.target.Some? && a.target != b.target
    requires SortSurfaces(a.surfaces) == SortSurfaces(b.surfaces)
    requires var rest := AfterText(open, TextsGiven(a.cur));
             rest.Some? && (PlainTarget(a.target.value) && PlainTarget(b.target.value) ==> SurfaceOpen(rest.value))
    ensures Told(a, b, open, scan)
  {
    var rest, path := AfterText(open, TextsGiven(a.cur)).value, PathToText(open, TextsGiven(a.cur));
    var s, top := PathRun(a, open, scan);
    var t, top' := PathRun(b, open, scan);
    SortAppendAlike(a.surfaces, b.surfaces, Passed(a.cur, open));
    assert ([top] + rest)[0] == ([top'] + rest)[0];
    hide KindOf, Told, SortSurfaces, Run, Nest, AfterText, PathToText, Passed, SurfaceOpen, TextsGiven;
    AtTextTold(s, t, top, rest, scan);
    ToldAfter(a, b, path, open, s, t, [top] + rest, scan);
  }

  lemma {:induction false} NoSurfaceAfterText(open: seq<string>, given: bool)
    requires !SurfaceOpen(open)
    ensures AfterText(open, given) == AfterText(open, false)
  {
    if open != [] {
      hide KindOf;
      NoSurfaceAfterText(open[1..], given);
    }
  }

  lemma TargetTold(a: State, b: State, open: seq<string>, scan: string -> Option<real>)
    requires CurAlike(a.cur, b.cur, open) && a.target.Some? == b.target.Some? && !TargetAlike(a, b, open)
    requires SortSurfaces(a.surfaces) == SortSurfaces(b.surfaces)
    ensures Told(a, b, open, scan)
  {
    hide SortSurfaces, Told;
    if SurfaceOpen(open) {
      hide AfterText;
      SameBuilderTargetTold(a, b, open, scan);
    } else {
      var x, y := a.(cur := Some(Fresh(Bare())), buf := ""), b.(cur := Some(Fresh(Bare())), buf := "");
      NoSurfaceAfterText(open, TextsGiven(a.cur));
      NoSurfaceAfterText(open, TextsGiven(x.cur));
      hide AfterText, TextsGiven, Fresh, SurfaceOpen, BareTag, Step;
      SameBuilderTargetTold(x, y, open, scan);
      BareStep(a, scan);
      BareStep(b, scan);
      BareAllowed(open);
      ToldStep(a, b, BareTag(), open, x, y, open, scan);
    }
  }

  // ---- collected text ----

  predicate Odd(s: string) { s != "" && s[|s| - 1] == '!' }

  lemma OddRefused(s: string)
    requires Odd(s)
    ensures OsFromStr(s) == Err(UnknownEnum("os", s)) && CodecFromStr(s) == Err(UnknownEnum("codec", s))
  {
    assert "macOS"[4] == 'S' && "Windows"[6] == 's' && "Linux"[4] == 'x' && "H265"[3] == '5' && "AV1"[2] == '1';
  }

  /** Different texts that count, as their element ends. */
  lemma TextEndTold(a: State, b: State, top: string, rest: seq<string>, scan: string -> Option<real>)
    requires KindOf(top).TextEl? && BufferCounts(a, [top] + rest) && a.target == b.target && a.inHost == b.inHost
    requires CurAlike(a.cur, b.cur, [top] + rest) && Paired(a.cur) && Paired(b.cur)
    requires Odd(a.buf) && Odd(b.buf) && a.buf != b.buf && SortSurfaces(a.surfaces) == SortSurfaces(b.surfaces)
    ensures Told(a, b, [top] + rest, scan)
  {
    OddRefused(a.buf);
    OddRefused(b.buf);
    EndTextStep(a, top, scan);
    EndTextStep(b, top, scan);
    CloseAllowed(top, rest);
    assert ([top] + rest)[1..] == rest;
    assert SurfaceOpen([top] + rest) == SurfaceOpen(rest);
    hide KindOf, Told, Step, SortSurfaces, Allowed, SurfaceOpen, OsFromStr, CodecFromStr;
    if a.target == Some(Os) || a.target == Some(CodecText) {
      ToldStepError(a, b, End(top), [top] + rest, scan);
    } else {
      var x, y := Step(a, End(top), scan).value, Step(b, End(top), scan).value;
      CurTold(x, y, rest, scan);
      ToldStep(a, b, End(top), [top] + rest, x, y, rest, scan);
    }
  }

  lemma {:induction false} CountedTold(a: State, b: State, open: seq<string>, scan: string -> Option<real>)
    requires BufferCounts(a, open) && a.target == b.target && a.inHost == b.inHost
    requires CurAlike(a.cur, b.cur, open) && Paired(a.cur) && Paired(b.cur)
    requires Odd(a.buf) && Odd(b.buf) && a.buf != b.buf && SortSurfaces(a.surfaces) == SortSurfaces(b.surfaces)
    ensures Told(a, b, open, scan)
    decreases |open|
  {
    var n, rest := open[0], open[1..];
    assert open == [n] + rest;
    hide KindOf, Told, SortSurfaces, Odd, Paired;
    match KindOf(n) {
      case TextEl(_) => TextEndTold(a, b, n, rest, scan);
      case SurfaceEl =>
      case HostEl =>
        var x, y := a.(inHost := false), b.(inHost := false);
        CountedTold(x, y, rest, scan);
        ToldStep(a, b, End(n), open, x, y, rest, scan);
      case _ =>
        CountedTold(a, b, rest, scan);
        ToldStep(a, b, End(n), open, a, b, rest, scan);
    }
  }

  lemma ReadMark(st: State, scan: string -> Option<real>)
    requires st.target.Some?
    ensures Step(st, Chars("!"), scan) == Ok(st.(buf := st.buf + "!")) && Odd(st.buf + "!")
  {
    UnescapePlain("!");
    hide Unescape;
  }

  lemma MarkTells(s: string, t: string)
    requires s != t
    ensures s + "!" != t + "!"
  {
    assert (s + "!")[..|s|] == s && (t + "!")[..|t|] == t;
  }

  lemma BufferTold(a: State, b: State, open: seq<string>, scan: string -> Option<real>)
    requires BufferCounts(a, open) && a.inHost == b.inHost && CurAlike(a.cur, b.cur, open) && TargetAlike(a, b, open)
    requires Paired(a.cur) && Paired(b.cur) && a.buf != b.buf && SortSurfaces(a.surfaces) == SortSurfaces(b.surfaces)
    ensures Told(a, b, open, scan)
  {
    var x, y := a.(buf := a.buf + "!"), b.(buf := b.buf + "!");
    CountsReaches(a, open, TextsGiven(a.cur));
    CountsTarget(a, open);
    CountsBy(a, x, open);
    MarkTells(a.buf, b.buf);
    ReadMark(a, scan);
    ReadMark(b, scan);
    hide KindOf, Told, SortSurfaces, Odd, Paired, AfterText, SurfaceOpen, BufferCounts;
    CountedTold(x, y, open, scan);
    ToldStep(a, b, Chars("!"), open, x, y, open, scan);
    ToldStep(a, b, Decl, open, a, b, open, scan);
  }

  lemma CountsTarget(st: State, open: seq<string>)
    requires BufferCounts(st, open)
    ensures st.cur.Some? && st.target.Some?
  {
  }

  // ---- the exact condition ----

  /** States that are not alike are told apart. */
  lemma UnlikeTold(a: State, b: State, open: seq<string>, scan: string -> Option<real>)
    requires Paired(a.cur) && Paired(b.cur) && !Alike(a, b, open)
    ensures Told(a, b, open, scan)
  {
    hide SortSurfaces, Told, KindOf, AttrsAlike, TargetAlike, BufferCounts, SurfaceOpen, Paired;
    if SortSurfaces(a.surfaces) != SortSurfaces(b.surfaces) || a.layout != b.layout || !AttrsAlike(a.attrs, b.attrs) {
      FinishTold(a, b, open, scan);
    } else if a.inHost != b.inHost {
      HostTold(if a.inHost then a else b, if a.inHost then b else a, open, scan);
      ToldSymmetric(if a.inHost then a else b, if a.inHost then b else a, open, scan);
    } else if a.cur.Some? != b.cur.Some? {
      CurPresenceTold(if a.cur.Some? then b else a, if a.cur.Some? then a else b, open, scan);
      ToldSymmetric(if a.cur.Some? then b else a, if a.cur.Some? then a else b, open, scan);
    } else if SurfaceOpen(open) && a.cur != b.cur {
      CurTold(a, b, open, scan);
    } else if a.target.Some? != b.target.Some? {
      TargetPresenceTold(if a.target.Some? then a else b, if a.target.Some? then b else a, open, scan);
      ToldSymmetric(if a.target.Some? then a else b, if a.target.Some? then b else a, open, scan);
    } else if !TargetAlike(a, b, open) {
      TargetTold(a, b, open, scan);
    } else {
      BufferTold(a, b, open, scan);
    }
  }

  /**
   * Two states of the parser have the same outcome over every continuation whose end tags match exactly
   * when they are alike.
   */
  lemma AlikeExact(a: State, b: State, open: seq<string>, scan: string -> Option<real>)
    requires Paired(a.cur) && Paired(b.cur)
    ensures (forall post :: Nest(post, open).Some? ==> Outcome(a, post, scan) == Outcome(b, post, scan))
            <==> Alike(a, b, open)
  {
    if Alike(a, b, open) {
      forall post | Nest(post, open).Some? ensures Outcome(a, post, scan) == Outcome(b, post, scan) {
        OutcomeAlike(a, b, post, open, scan);
      }
    } else {
      UnlikeTold(a, b, open, scan);
    }
  }

  /** The parser reads both sizes or none. */
  lemma {:induction false} RunPaired(toks: seq<Tok>, st: State, scan: string -> Option<real>)
    requires Paired(st.cur) && Run(toks, st, scan).Ok?
    ensures Paired(Run(toks, st, scan).value.cur)
  {
    if toks != [] {
      StepPaired(st, toks[0], scan);
      hide Step, Paired;
      RunPaired(toks[1..], Step(st, toks[0], scan).value, scan);
    }
  }

  lemma StepPaired(st: State, t: Tok, scan: string -> Option<real>)
    requires Paired(st.cur) && Step(st, t, scan).Ok?
    ensures Paired(Step(st, t, scan).value.cur)
  {
    hide KindOf, AttrU32, AttrF32, AttrStr, ParseSessionAttrs, ParseSurfaceId, Unescape, OsFromStr, CodecFromStr,
      SurfaceBuilder.Build;
  }
}
