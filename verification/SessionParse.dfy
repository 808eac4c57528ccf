/**
 * The session parser. `Step` is what one reader event does to the builder state, `Run` its fold, and
 * `FromXml` the event loop itself, proved to compute the fold. `scan` stands for `f32` parsing.
 */
module SessionParse {
  import opened Wrappers
  import opened Text
  import opened Xml
  import opened Session
  import Sorting

  datatype TextTarget = Address | Os | Machine | Capture | CodecText

  /** The elements the parser knows, by local name. */
  datatype Elem =
    | SessionEl | SurfaceEl | HostEl | TextEl(target: TextTarget)
    | DimensionsEl | StripEl | FocusEl | OtherEl

  datatype SessionAttrs = SessionAttrs(id: Option<string>, created: Option<string>, schema: Option<u32>)

  datatype SurfaceBuilder = SurfaceBuilder(
    id: SurfaceId, name: string, order: u32,
    address: Option<string>, os: Option<OsKind>, machine: Option<string>, capture: Option<string>,
    codec: Option<Codec>, width: Option<u32>, height: Option<u32>)
  {
    function Build(): Result<SurfaceEntry, SessionError> {
      var a :- OkOr(address, Malformed("surface missing <address>"));
      var o :- OkOr(os, Malformed("surface missing <os>"));
      var m :- OkOr(machine, Malformed("surface missing <machine>"));
      var c :- OkOr(capture, Malformed("surface missing <capture>"));
      var k :- OkOr(codec, Malformed("surface missing <codec>"));
      var w :- OkOr(width, Malformed("surface missing <dimensions/@width>"));
      var h :- OkOr(height, Malformed("surface missing <dimensions/@height>"));
      Ok(SurfaceEntry(id, name, order, HostEntry(a, o, m, c), k, w, h))
    }
  }

  datatype State = State(
    attrs: SessionAttrs, surfaces: seq<SurfaceEntry>, layout: Layout,
    cur: Option<SurfaceBuilder>, inHost: bool, target: Option<TextTarget>, buf: string)

  const NO_ATTRS := SessionAttrs(None, None, None)
  const INIT := State(NO_ATTRS, [], Layout(0.0, None), None, false, None, "")

  function ElemOf(local: string): Elem {
    if local == "session" then SessionEl
    else if local == "surface" then SurfaceEl
    else if local == "host" then HostEl
    else if local == "address" then TextEl(Address)
    else if local == "os" then TextEl(Os)
    else if local == "machine" then TextEl(Machine)
    else if local == "capture" then TextEl(Capture)
    else if local == "codec" then TextEl(CodecText)
    else if local == "dimensions" then DimensionsEl
    else if local == "strip" then StripEl
    else if local == "focus" then FocusEl
    else OtherEl
  }

  function KindOf(qname: string): Elem { ElemOf(LocalName(qname)) }

  // ---- attributes ----

  function FindAttr(attrs: seq<Attr>, key: string): Option<string> {
    if attrs == [] then None
    else if LocalName(attrs[0].name) == key then Some(attrs[0].value)
    else FindAttr(attrs[1..], key)
  }

  function AttrStr(attrs: seq<Attr>, key: string): Result<string, SessionError> {
    var raw :- OkOr(FindAttr(attrs, key), Malformed("missing attribute @" + key));
    OkOr(Unescape(raw), XmlError)
  }

  function AttrU32(attrs: seq<Attr>, key: string): Result<u32, SessionError> {
    var v :- AttrStr(attrs, key);
    OkOr(ParseUnsigned(v, U32_LIMIT), Malformed("attribute @" + key + " is not a u32"))
  }

  function AttrF32(attrs: seq<Attr>, key: string, scan: string -> Option<real>): Result<real, SessionError> {
    var v :- AttrStr(attrs, key);
    OkOr(scan(v), Malformed("attribute @" + key + " is not an f32"))
  }

  datatype RootKey = IdKey | CreatedKey | SchemaKey | OtherKey

  function RootKeyOf(local: string): RootKey {
    if local == "id" then IdKey
    else if local == "created" then CreatedKey
    else if local == "schema-version" then SchemaKey
    else OtherKey
  }

  /** Every attribute is unescaped, known or not; the last of a name wins. */
  function ParseSessionAttrs(attrs: seq<Attr>, acc: SessionAttrs): Result<SessionAttrs, SessionError> {
    if attrs == [] then Ok(acc)
    else
      var v :- OkOr(Unescape(attrs[0].value), XmlError);
      match RootKeyOf(LocalName(attrs[0].name))
      case IdKey => ParseSessionAttrs(attrs[1..], acc.(id := Some(v)))
      case CreatedKey => ParseSessionAttrs(attrs[1..], acc.(created := Some(v)))
      case SchemaKey =>
        var n :- OkOr(ParseUnsigned(v, U32_LIMIT), Malformed("bad schema-version"));
        ParseSessionAttrs(attrs[1..], acc.(schema := Some(n)))
      case OtherKey => ParseSessionAttrs(attrs[1..], acc)
  }

  function ParseSurface(attrs: seq<Attr>): Result<SurfaceBuilder, SessionError> {
    var s :- AttrStr(attrs, "id");
    var id :- ParseSurfaceId(s);
    var name :- AttrStr(attrs, "name");
    var order :- AttrU32(attrs, "order");
    Ok(SurfaceBuilder(id, name, order, None, None, None, None, None, None, None))
  }

  // ---- one event ----

  function ApplyText(cur: Option<SurfaceBuilder>, inHost: bool, target: Option<TextTarget>, text: string):
      Result<SurfaceBuilder, SessionError> {
    var b :- OkOr(cur, Malformed("text element outside <surface>"));
    match target
    case Some(Address) => Ok(if inHost then b.(address := Some(text)) else b)
    case Some(Os) =>
      if inHost then var os :- OsFromStr(text); Ok(b.(os := Some(os))) else Ok(b)
    case Some(Machine) => Ok(if inHost then b.(machine := Some(text)) else b)
    case Some(Capture) => Ok(if inHost then b.(capture := Some(text)) else b)
    case Some(CodecText) => var c :- CodecFromStr(text); Ok(b.(codec := Some(c)))
    case None => Ok(b)
  }

  function StartElement(st: State, k: Elem, attrs: seq<Attr>, scan: string -> Option<real>):
      Result<State, SessionError> {
    match k
    case SessionEl => var a :- ParseSessionAttrs(attrs, NO_ATTRS); Ok(st.(attrs := a))
    case SurfaceEl => var b :- ParseSurface(attrs); Ok(st.(cur := Some(b)))
    case HostEl => Ok(st.(inHost := true))
    case TextEl(t) => Ok(st.(target := Some(t)))
    case DimensionsEl =>
      var b :- OkOr(st.cur, Malformed("<dimensions> outside <surface>"));
      var w :- AttrU32(attrs, "width");
      var h :- AttrU32(attrs, "height");
      Ok(st.(cur := Some(b.(width := Some(w), height := Some(h)))))
    case StripEl => var v :- AttrF32(attrs, "scroll-pos", scan); Ok(st.(layout := st.layout.(scrollPos := v)))
    case FocusEl =>
      var r :- AttrStr(attrs, "surface-ref");
      var id :- ParseSurfaceId(r);
      Ok(st.(layout := st.layout.(focus := Some(id))))
    case OtherEl => Ok(st)
  }

  function EndElement(st: State, k: Elem): Result<State, SessionError> {
    match k
    case HostEl => Ok(st.(inHost := false))
    case SurfaceEl =>
      var b :- OkOr(st.cur, Malformed("</surface> without start"));
      var e :- b.Build();
      Ok(st.(cur := None, surfaces := st.surfaces + [e]))
    case TextEl(_) =>
      var b :- ApplyText(st.cur, st.inHost, st.target, st.buf);
      Ok(st.(cur := Some(b), target := None, buf := ""))
    case _ => Ok(st)
  }

  function Step(st: State, t: Tok, scan: string -> Option<real>): Result<State, SessionError> {
    match t
    case Decl => Ok(st)
    case Start(n, a) => var s :- StartElement(st, KindOf(n), a, scan); Ok(s.(buf := ""))
    case Empty(n, a) => var s :- StartElement(st, KindOf(n), a, scan); Ok(s.(buf := ""))
    case Chars(raw) =>
      if st.target.None? then Ok(st)
      else var text :- OkOr(Unescape(raw), XmlError); Ok(st.(buf := st.buf + text))
    case End(n) => EndElement(st, KindOf(n))
  }

  function Run(toks: seq<Tok>, st: State, scan: string -> Option<real>): Result<State, SessionError> {
    if toks == [] then Ok(st)
    else var s :- Step(st, toks[0], scan); Run(toks[1..], s, scan)
  }

  function OrderOf(e: SurfaceEntry): int { e.order }

  function SortSurfaces(es: seq<SurfaceEntry>): seq<SurfaceEntry> { Sorting.StableSort(es, OrderOf) }

  function Finish(st: State): Result<SessionImage, SessionError> {
    var created :- OkOr(st.attrs.created, Malformed("missing session/@created"));
    Ok(SessionImage(st.attrs.id, created,
                    if st.attrs.schema.Some? then st.attrs.schema.value else SCHEMA_VERSION,
                    SortSurfaces(st.surfaces), st.layout))
  }

  /** What the parser makes of a document. */
  function Parsed(xml: string, scan: string -> Option<real>): Result<SessionImage, SessionError> {
    var toks :- OkOr(Events(xml), XmlError);
    var st :- Run(toks, INIT, scan);
    Finish(st)
  }

  lemma {:induction false} RunAppend(a: seq<Tok>, b: seq<Tok>, st: State, scan: string -> Option<real>)
    ensures Run(a + b, st, scan)
         == (var r := Run(a, st, scan); if r.Ok? then Run(b, r.value, scan) else r)
  {
    if a == [] {
      assert a + b == b;
    } else {
      CutTail(a, b);
      var s := Step(st, a[0], scan);
      if s.Ok? {
        RunAppend(a[1..], b, s.value, scan);
      }
    }
  }

  lemma RunOne(t: Tok, st: State, scan: string -> Option<real>)
    ensures Run([t], st, scan) == Step(st, t, scan)
  {
    hide Step;
    assert [t][1..] == [];
  }

  lemma RunSnoc(toks: seq<Tok>, i: nat, scan: string -> Option<real>)
    requires i < |toks| && Run(toks[..i], INIT, scan).Ok?
    ensures Run(toks[..i + 1], INIT, scan) == Step(Run(toks[..i], INIT, scan).value, toks[i], scan)
    ensures Run(toks[..i + 1], INIT, scan).Err? ==> Run(toks, INIT, scan) == Run(toks[..i + 1], INIT, scan)
  {
    assert toks[..i + 1] == toks[..i] + [toks[i]] && toks == toks[..i + 1] + toks[i + 1..];
    RunOne(toks[i], Run(toks[..i], INIT, scan).value, scan);
    hide Run, Step;
    RunAppend(toks[..i], [toks[i]], INIT, scan);
    RunAppend(toks[..i + 1], toks[i + 1..], INIT, scan);
  }

  /** The event loop: builders and text buffer updated in place, one event at a time. */
  method FromXml(xml: string, scan: string -> Option<real>) returns (r: Result<SessionImage, SessionError>)
    ensures r == Parsed(xml, scan)
  {
    var lexed := Events(xml);
    if lexed.None? { return Err(XmlError); }
    var toks := lexed.value;

    var attrs := NO_ATTRS;
    var surfaces: seq<SurfaceEntry> := [];
    var layout := Layout(0.0, None);
    var cur: Option<SurfaceBuilder> := None;
    var inHost := false;
    var target: Option<TextTarget> := None;
    var buf := "";

    for i := 0 to |toks|
      invariant Run(toks[..i], INIT, scan) == Ok(State(attrs, surfaces, layout, cur, inHost, target, buf))
    {
      RunSnoc(toks, i, scan);
      var t := toks[i];
      if t.Start? || t.Empty? {
        match KindOf(t.name) {
          case SessionEl =>
            attrs :- ParseSessionAttrs(t.attrs, NO_ATTRS);
          case SurfaceEl =>
            var b :- ParseSurface(t.attrs);
            cur := Some(b);
          case HostEl =>
            inHost := true;
          case TextEl(which) =>
            target := Some(which);
          case DimensionsEl =>
            if cur.None? { return Err(Malformed("<dimensions> outside <surface>")); }
            var width :- AttrU32(t.attrs, "width");
            var height :- AttrU32(t.attrs, "height");
            cur := Some(cur.value.(width := Some(width), height := Some(height)));
          case StripEl =>
            var pos :- AttrF32(t.attrs, "scroll-pos", scan);
            layout := layout.(scrollPos := pos);
          case FocusEl =>
            var ref :- AttrStr(t.attrs, "surface-ref");
            var id :- ParseSurfaceId(ref);
            layout := layout.(focus := Some(id));
          case OtherEl =>
        }
        buf := "";
      } else if t.Chars? {
        if target.Some? {
          var text :- OkOr(Unescape(t.raw), XmlError);
          buf := buf + text;
        }
      } else if t.End? {
        match KindOf(t.name) {
          case HostEl =>
            inHost := false;
          case SurfaceEl =>
            if cur.None? { return Err(Malformed("</surface> without start")); }
            var e :- cur.value.Build();
            cur := None;
            surfaces := surfaces + [e];
          case TextEl(_) =>
            var b :- ApplyText(cur, inHost, target, buf);
            cur := Some(b);
            target := None;
            buf := "";
          case _ =>
        }
      }
    }
    assert toks[..|toks|] == toks;
    if attrs.created.None? { return Err(Malformed("missing session/@created")); }
    var schema := if attrs.schema.Some? then attrs.schema.value else SCHEMA_VERSION;
    return Ok(SessionImage(attrs.id, attrs.created.value, schema, SortSurfaces(surfaces), layout));
  }
}
