/** The laws of the session image: text round trip, injective canonical form, content addressing. */
module SessionLaws {
  import opened Wrappers
  import opened Text
  import opened Xml
  import opened Session
  import opened SessionParse
  import opened SessionRoundTrip
  import opened Nesting
  import Sorting
  import Utf8

  /** The float layer carries this value: printed plainly, scanned back to itself. */
  predicate Prints(show: real -> string, scan: string -> Option<real>, v: real) {
    PlainFloat(show, v) && scan(FmtFloat(show, v)) == Some(v)
  }

  lemma CloseText()
    ensures RenderToks([End("session")]) == "</session>"
  {
  }

  /** Whole numbers as Rust prints them, and their decimal reading: a float layer that carries them all. */
  function ShowWhole(v: real): string { (if v < 0.0 then "-" else "") + Dec(if v < 0.0 then AsNat(-v) else AsNat(v)) }

  function AsNat(v: real): nat
    requires v >= 0.0
  {
    v.Floor
  }

  function ScanWhole(s: string): Option<real> {
    if s != "" && AllDigits(s) then Some(DigitsValue(s) as real) else None
  }

  lemma WholePositionsPrint(n: nat)
    ensures Prints(ShowWhole, ScanWhole, n as real)
  {
    DecDigits(n);
    DecDigits(0);
    assert "" + Dec(n) == Dec(n);
    assert Dec(0) == "0";
    assert FmtFloat(ShowWhole, n as real) == Dec(n);
  }

  /** The closing tag, at the end of every document. */
  lemma LexTail(trim: bool)
    ensures Lex("</session>", trim) == Some([End("session")])
  {
    var close := End("session");
    FrameNames();
    TagOk(close);
    LexToks([close], "", trim);
    assert [close][1..] == [];
    CloseText();
    assert Lex("", trim) == Some([]);
    hide Lex, RenderToks, RenderTok;
    assert RenderToks([close]) + "" == "</session>";
    assert Reported([close], trim) + [] == [close];
  }

  /** The reader's events for a document are the tokens of its lines. */
  lemma LexDoc(img: SessionImage, show: real -> string, pretty: bool, id: Option<string>, extra: seq<Line>, trim: bool)
    requires PlainFloat(show, img.layout.scrollPos) && OkLines(extra) && (pretty ==> trim)
    ensures Lex(DocText(img, show, pretty, id, extra), trim)
         == Some(Reported(Flat(DocLines(img, show, id, extra)), trim) + [End("session")])
  {
    DocLinesOk(img, show, id, extra);
    LexLines(DocLines(img, show, id, extra), "</session>", pretty, trim);
    LexTail(trim);
  }

  lemma EndSessionRun(st: State, scan: string -> Option<real>)
    ensures Run([End("session")], st, scan) == Ok(st)
  {
    FrameKinds();
    RunSingle(End("session"), st, scan);
  }

  lemma DocLinesExtra(img: SessionImage, show: real -> string, id: Option<string>, extra: seq<Line>)
    ensures DocLines(img, show, id, extra) == DocLines(img, show, id, []) + extra
  {
  }

  /** Parsing any document whose extra block leaves the base state alone. */
  lemma DocRun(img: SessionImage, show: real -> string, pretty: bool, id: Option<string>, extra: seq<Line>,
               pos: real, trim: bool, scan: string -> Option<real>)
    requires PlainFloat(show, img.layout.scrollPos) && scan(FmtFloat(show, img.layout.scrollPos)) == Some(pos)
    requires OkLines(extra) && (pretty ==> trim)
    requires RunLines(extra, trim, BaseState(img, id, pos, trim), scan) == Ok(BaseState(img, id, pos, trim))
    ensures Lex(DocText(img, show, pretty, id, extra), trim).Some?
    ensures Run(Lex(DocText(img, show, pretty, id, extra), trim).value, INIT, scan) == Ok(BaseState(img, id, pos, trim))
  {
    hide *;
    LexDoc(img, show, pretty, id, extra, trim);
    var lines := DocLines(img, show, id, []);
    DocLinesExtra(img, show, id, extra);
    BaseRun(img, show, id, pos, trim, scan);
    RunLinesAppend(lines, extra, trim, INIT, scan);
    RunLinesIsRun(lines + extra, trim, INIT, scan);
    RunAppend(Reported(Flat(lines + extra), trim), [End("session")], INIT, scan);
    EndSessionRun(BaseState(img, id, pos, trim), scan);
  }

  lemma LexDeclared(doc: string)
    ensures Lex(XML_DECL + "\n" + doc, true) == Prepend([Decl], Lex(doc, true))
  {
    var l := Line(0, [Decl]);
    TagOk(Decl);
    LexLine(l, doc, true, true);
    assert [Decl][1..] == [];
    assert RenderToks([Decl]) == XML_DECL + "" == XML_DECL;
    assert RenderLine(l, true) == XML_DECL + "\n" by {
      assert "" + XML_DECL + "\n" == XML_DECL + "\n";
    }
    assert Reported([Decl], true) == [Decl];
  }

  /** The events of a declared document whose own events are nested. */
  lemma DeclaredEvents(doc: string)
    requires Lex(doc, true).Some? && Whole(Lex(doc, true).value)
    ensures Events(XML_DECL + "\n" + doc) == Some([Decl] + Lex(doc, true).value)
  {
    LexDeclared(doc);
    NestOne(Decl, []);
    hide Lex, Nest;
    NestAppend([Decl], Lex(doc, true).value, []);
  }

  lemma DeclRun(toks: seq<Tok>, scan: string -> Option<real>)
    ensures Run([Decl] + toks, INIT, scan) == Run(toks, INIT, scan)
  {
  }

  // ---- the text round trip ----

  /** What survives a trip through the text form. */
  function Normalised(img: SessionImage, id: string): SessionImage {
    SessionImage(Some(id), img.created, img.schemaVersion, SortSurfaces(ReadEntries(img.surfaces, true)), img.layout)
  }

  function IdOf(img: SessionImage, show: real -> string, sha: seq<byte> -> Digest): string {
    if img.id.Some? then img.id.value else ComputeId(img, show, sha)
  }

  lemma DeclaredDocParsed(img: SessionImage, show: real -> string, scan: string -> Option<real>, id: string,
                          extra: seq<Line>)
    requires Prints(show, scan, img.layout.scrollPos) && OkLines(extra) && WholeLines(extra)
    requires var st := BaseState(img, Some(id), img.layout.scrollPos, true);
             RunLines(extra, true, st, scan) == Ok(st)
    ensures Parsed(XML_DECL + "\n" + DocText(img, show, true, Some(id), extra), scan) == Ok(Normalised(img, id))
  {
    var doc := DocText(img, show, true, Some(id), extra);
    DocRun(img, show, true, Some(id), extra, img.layout.scrollPos, true, scan);
    LexDoc(img, show, true, Some(id), extra, true);
    DocNests(img, show, Some(id), extra, true);
    hide Lex, DocText, Whole;
    DeclaredEvents(doc);
    DeclRun(Lex(doc, true).value, scan);
  }

  /**
   * Parsing a written image gives the image back with its id filled in, its surfaces stably sorted
   * by order, and the edge whitespace of address, machine and capture gone.
   */
  lemma XmlRoundTrip(img: SessionImage, show: real -> string, scan: string -> Option<real>, sha: seq<byte> -> Digest)
    requires Prints(show, scan, img.layout.scrollPos)
    ensures Parsed(ToXml(img, show, sha), scan) == Ok(Normalised(img, IdOf(img, show, sha)))
  {
    assert WholeLines([]);
    DeclaredDocParsed(img, show, scan, IdOf(img, show, sha), []);
  }

  /** In order of position, and without edge whitespace where the text form loses it. */
  ghost predicate Storable(img: SessionImage) {
    && Sorting.SortedBy(img.surfaces, OrderOf)
    && forall i :: 0 <= i < |img.surfaces| ==> ReadEntry(img.surfaces[i], true) == img.surfaces[i]
  }

  lemma {:induction false} ReadEntriesAt(es: seq<SurfaceEntry>, trim: bool)
    ensures |ReadEntries(es, trim)| == |es|
    ensures forall i :: 0 <= i < |es| ==> ReadEntries(es, trim)[i] == ReadEntry(es[i], trim)
  {
    if es != [] {
      ReadEntriesAt(es[1..], trim);
    }
  }

  lemma ReadEntryIdempotent(e: SurfaceEntry)
    ensures ReadEntry(ReadEntry(e, true), true) == ReadEntry(e, true)
  {
    TrimIdempotent(e.host.address);
    TrimIdempotent(e.host.machine);
    TrimIdempotent(e.host.capture);
  }

  /** The normal form of every image is sorted by order and has no edge whitespace. */
  lemma NormalisedStorable(img: SessionImage, id: string)
    ensures Storable(Normalised(img, id))
  {
    var es := ReadEntries(img.surfaces, true);
    ReadEntriesAt(img.surfaces, true);
    Sorting.StableSortSound(es, OrderOf);
    Sorting.SortLength(es, OrderOf);
    var sorted := SortSurfaces(es);
    forall i | 0 <= i < |sorted| ensures ReadEntry(sorted[i], true) == sorted[i] {
      assert sorted[i] in es;
      var j :| 0 <= j < |es| && es[j] == sorted[i];
      ReadEntryIdempotent(img.surfaces[j]);
    }
  }

  lemma NormalisedFixedPoint(img: SessionImage, id: string)
    ensures Normalised(img, id) == img <==> img.id == Some(id) && Storable(img)
  {
    ReadEntriesAt(img.surfaces, true);
    if img.id == Some(id) && Storable(img) {
      assert ReadEntries(img.surfaces, true) == img.surfaces;
      Sorting.SortFixedPoint(img.surfaces, OrderOf);
    }
    NormalisedStorable(img, id);
  }

  /** The text form is lossless exactly on images with an id, sorted and without edge whitespace. */
  lemma XmlRoundTripExact(img: SessionImage, show: real -> string, scan: string -> Option<real>,
                          sha: seq<byte> -> Digest)
    requires Prints(show, scan, img.layout.scrollPos)
    ensures Parsed(ToXml(img, show, sha), scan) == Ok(img) <==> img.id.Some? && Storable(img)
  {
    XmlRoundTrip(img, show, scan, sha);
    NormalisedFixedPoint(img, IdOf(img, show, sha));
  }

  // ---- the canonical form ----

  /** Agreement on everything the canonical form carries: all but the id. */
  predicate SameContent(a: SessionImage, b: SessionImage, show: real -> string) {
    && a.created == b.created && a.schemaVersion == b.schemaVersion && a.surfaces == b.surfaces
    && FmtFloat(show, a.layout.scrollPos) == FmtFloat(show, b.layout.scrollPos)
    && a.layout.focus == b.layout.focus
  }

  lemma ReadUntrimmed(es: seq<SurfaceEntry>)
    ensures ReadEntries(es, false) == es
  {
  }

  lemma CanonicalRun(img: SessionImage, show: real -> string, pos: real, scan: string -> Option<real>)
    requires PlainFloat(show, img.layout.scrollPos) && scan(FmtFloat(show, img.layout.scrollPos)) == Some(pos)
    ensures Lex(CanonicalText(img, show), false).Some?
    ensures Run(Lex(CanonicalText(img, show), false).value, INIT, scan)
         == Ok(BaseState(img, None, pos, false))
  {
    DocRun(img, show, false, None, [], pos, false, scan);
  }

  /** The canonical form is injective up to the id. */
  lemma CanonicalInjective(a: SessionImage, b: SessionImage, show: real -> string)
    requires PlainFloat(show, a.layout.scrollPos) && PlainFloat(show, b.layout.scrollPos)
    ensures CanonicalBytes(a, show) == CanonicalBytes(b, show) <==> SameContent(a, b, show)
  {
    Utf8.EncodeInjective(CanonicalText(a, show), CanonicalText(b, show));
    if CanonicalBytes(a, show) == CanonicalBytes(b, show) {
      var fa, fb := FmtFloat(show, a.layout.scrollPos), FmtFloat(show, b.layout.scrollPos);
      var scan := (s: string) => Some(if s == fa then 0.0 else 1.0);
      CanonicalRun(a, show, 0.0, scan);
      CanonicalRun(b, show, if fb == fa then 0.0 else 1.0, scan);
      ReadUntrimmed(a.surfaces);
      ReadUntrimmed(b.surfaces);
    }
    if SameContent(a, b, show) {
      assert DocLines(a, show, None, []) == DocLines(b, show, None, []);
    }
  }

  // ---- content addressing ----

  lemma IdInjective(a: Digest, b: Digest)
    ensures SurfaceIdToStr(a) == SurfaceIdToStr(b) <==> a == b
  {
    SurfaceIdRoundTrip(a);
    SurfaceIdRoundTrip(b);
  }

  /** `sha` keeps the canonical forms of these two images apart. */
  predicate NoCollision(a: SessionImage, b: SessionImage, show: real -> string, sha: seq<byte> -> Digest) {
    sha(CanonicalBytes(a, show)) == sha(CanonicalBytes(b, show)) ==> CanonicalBytes(a, show) == CanonicalBytes(b, show)
  }

  /** Short of a collision, two images share an id exactly when they share their content. */
  lemma IdIsContent(a: SessionImage, b: SessionImage, show: real -> string, sha: seq<byte> -> Digest)
    requires PlainFloat(show, a.layout.scrollPos) && PlainFloat(show, b.layout.scrollPos)
    requires NoCollision(a, b, show, sha)
    ensures ComputeId(a, show, sha) == ComputeId(b, show, sha) <==> SameContent(a, b, show)
  {
    IdInjective(sha(CanonicalBytes(a, show)), sha(CanonicalBytes(b, show)));
    CanonicalInjective(a, b, show);
  }

  /** `verify` accepts a document under its computed id, under no other, and not without one. */
  lemma VerifyOnlyComputedId(img: SessionImage, id: Option<string>, show: real -> string, sha: seq<byte> -> Digest)
    ensures Verify(img.(id := id), show, sha).Ok? <==> id == Some(ComputeId(img, show, sha))
  {
    assert CanonicalText(img.(id := id), show) == CanonicalText(img, show);
    hide CanonicalText, SurfaceIdToStr;
  }

  /** `verify` accepts a document under an id exactly when its content is what the id was made from. */
  lemma VerifyDetectsTampering(original: SessionImage, received: SessionImage, show: real -> string,
                               sha: seq<byte> -> Digest)
    requires PlainFloat(show, original.layout.scrollPos) && PlainFloat(show, received.layout.scrollPos)
    requires NoCollision(original, received, show, sha)
    requires received.id == Some(ComputeId(original, show, sha))
    ensures Verify(received, show, sha).Ok? <==> SameContent(original, received, show)
  {
    IdIsContent(original, received, show, sha);
  }
}
