/**
 * The session image: its data model, the document it is written as, its canonical form and its
 * content id. `show` stands for Rust's float formatting and `sha` for SHA-256; neither is fixed.
 */
module Session {
  import opened Wrappers
  import opened Text
  import opened Xml
  import Utf8

  type SurfaceId = s: seq<byte> | |s| == 32 witness seq(32, _ => 0)

  type Digest = d: seq<byte> | |d| == 32 witness seq(32, _ => 0)

  datatype OsKind = MacOS | Windows | Linux

  datatype Codec = H265 | AV1

  datatype HostEntry = HostEntry(address: string, os: OsKind, machine: string, capture: string)

  datatype SurfaceEntry = SurfaceEntry(
    id: SurfaceId, name: string, order: u32, host: HostEntry, codec: Codec, width: u32, height: u32)

  datatype Layout = Layout(scrollPos: real, focus: Option<SurfaceId>)

  datatype SessionImage = SessionImage(
    id: Option<string>, created: string, schemaVersion: u32, surfaces: seq<SurfaceEntry>, layout: Layout)

  datatype SessionError =
    | XmlError
    | Malformed(what: string)
    | UnknownEnum(kind: string, text: string)
    | BadSurfaceId(text: string)
    | IntegrityMismatch(declared: string, computed: string)

  const SESSION_NAMESPACE := "https://simulboot.dev/session/v1"
  const SCHEMA_VERSION: u32 := 1

  // ---- spellings ----

  function OsToStr(os: OsKind): string {
    match os case MacOS => "macOS" case Windows => "Windows" case Linux => "Linux"
  }

  function OsFromStr(s: string): Result<OsKind, SessionError> {
    if s == "macOS" then Ok(MacOS) else if s == "Windows" then Ok(Windows) else if s == "Linux" then Ok(Linux)
    else Err(UnknownEnum("os", s))
  }

  function CodecToStr(c: Codec): string {
    match c case H265 => "H265" case AV1 => "AV1"
  }

  function CodecFromStr(s: string): Result<Codec, SessionError> {
    if s == "H265" then Ok(H265) else if s == "AV1" then Ok(AV1) else Err(UnknownEnum("codec", s))
  }

  function SurfaceIdToStr(id: seq<byte>): string { "sha256:" + HexEncode(id) }

  function ParseSurfaceId(s: string): Result<SurfaceId, SessionError> {
    var hex :- OkOr(StripPrefix(s, "sha256:"), BadSurfaceId(s));
    var bytes :- OkOr(HexDecode(hex), BadSurfaceId(s));
    if |bytes| == 32 then Ok(bytes) else Err(BadSurfaceId(s))
  }

  lemma OsRoundTrip(os: OsKind)
    ensures OsFromStr(OsToStr(os)) == Ok(os)
  {
    assert "macOS"[0] != "Linux"[0] && |"Windows"| != |"macOS"| && |"Windows"| != |"Linux"|;
  }

  lemma CodecRoundTrip(c: Codec)
    ensures CodecFromStr(CodecToStr(c)) == Ok(c)
  {
    assert |"H265"| != |"AV1"|;
  }

  /** Free of markup but for colons. */
  predicate IdText(s: string) { forall c :: c in s ==> c == ':' || !IsMarkup(c) }

  lemma IdTextParts(a: string, b: string)
    requires IdText(a) && IdText(b)
    ensures IdText(a + b)
  {
  }

  lemma PrefixIdText()
    ensures IdText("sha256:")
  {
  }

  lemma MarkupCharacters()
    ensures IsMarkup('&') && IsMarkup('<') && IsMarkup('>') && IsMarkup('"') && IsMarkup('/')
    ensures forall c :: IsXmlSpace(c) ==> IsMarkup(c)
  {
    var m := "&<>\":/? \t\r\n";
    assert m[0] == '&' && m[1] == '<' && m[2] == '>' && m[3] == '"' && m[5] == '/';
    assert m[7] == ' ' && m[8] == '\t' && m[9] == '\r' && m[10] == '\n';
  }

  lemma SurfaceIdText(id: seq<byte>)
    ensures var s := SurfaceIdToStr(id); '&' !in s && '<' !in s && '>' !in s && '"' !in s
    ensures var s := SurfaceIdToStr(id); '/' !in s && forall c :: c in s ==> !IsXmlSpace(c)
  {
    HexRoundTrip(id);
    PrefixIdText();
    MarkupCharacters();
    hide IsMarkup, HexEncode;
    IdTextParts("sha256:", HexEncode(id));
  }

  lemma SurfaceIdRoundTrip(id: SurfaceId)
    ensures ParseSurfaceId(SurfaceIdToStr(id)) == Ok(id)
    ensures EscapeAttr(SurfaceIdToStr(id)) == SurfaceIdToStr(id)
    ensures Unescape(SurfaceIdToStr(id)) == Some(SurfaceIdToStr(id)) && '"' !in SurfaceIdToStr(id)
  {
    HexRoundTrip(id);
    Cut("sha256:", HexEncode(id));
    SurfaceIdText(id);
    PlainText(SurfaceIdToStr(id));
  }

  /** Zero is written `0` whatever its sign. */
  function FmtFloat(show: real -> string, v: real): string { if v == 0.0 then "0" else show(v) }

  /** A printed float that can stand in an attribute without escaping. */
  predicate PlainFloat(show: real -> string, v: real) {
    '"' !in FmtFloat(show, v) && '&' !in FmtFloat(show, v)
  }

  // ---- the document, line by line ----

  function TextLine(depth: nat, tag: string, text: string): Line {
    Line(depth, [Start(tag, []), Chars(EscapeText(text)), End(tag)])
  }

  function SurfaceAttrs(e: SurfaceEntry): seq<Attr> {
    [Attr("id", EscapeAttr(SurfaceIdToStr(e.id))), Attr("name", EscapeAttr(e.name)), Attr("order", Dec(e.order))]
  }

  function HostLines(h: HostEntry): seq<Line> {
    [ Line(3, [Start("host", [])]),
      TextLine(4, "address", h.address),
      TextLine(4, "os", OsToStr(h.os)),
      TextLine(4, "machine", h.machine),
      TextLine(4, "capture", h.capture),
      Line(3, [End("host")]) ]
  }

  function SurfaceLines(e: SurfaceEntry): seq<Line> {
    [Line(2, [Start("surface", SurfaceAttrs(e))])]
    + HostLines(e.host)
    + [ TextLine(3, "codec", CodecToStr(e.codec)),
        Line(3, [Empty("dimensions", [Attr("height", Dec(e.height)), Attr("width", Dec(e.width))])]),
        Line(2, [End("surface")]) ]
  }

  function SurfacesLines(es: seq<SurfaceEntry>): seq<Line> {
    if es == [] then [] else SurfaceLines(es[0]) + SurfacesLines(es[1..])
  }

  function FocusLines(focus: Option<SurfaceId>): seq<Line> {
    if focus.None? then []
    else [Line(2, [Empty("focus", [Attr("surface-ref", EscapeAttr(SurfaceIdToStr(focus.value)))])])]
  }

  function LayoutLines(l: Layout, show: real -> string): seq<Line> {
    [ Line(1, [Start("layout", [])]),
      Line(2, [Empty("strip", [Attr("scroll-pos", FmtFloat(show, l.scrollPos))])]) ]
    + FocusLines(l.focus)
    + [Line(1, [End("layout")])]
  }

  function RootAttrs(created: string, id: Option<string>, schema: u32): seq<Attr> {
    [Attr("xmlns", SESSION_NAMESPACE), Attr("created", EscapeAttr(created))]
    + (if id.Some? then [Attr("id", EscapeAttr(id.value))] else [])
    + [Attr("schema-version", Dec(schema))]
  }

  /** Every line but the closing `</session>`; `extra` is the block spliced in after the layout. */
  function DocLines(img: SessionImage, show: real -> string, id: Option<string>, extra: seq<Line>): seq<Line> {
    [ Line(0, [Start("session", RootAttrs(img.created, id, img.schemaVersion))]),
      Line(1, [Start("surfaces", [])]) ]
    + SurfacesLines(img.surfaces)
    + [Line(1, [End("surfaces")])]
    + LayoutLines(img.layout, show)
    + extra
  }

  function DocText(img: SessionImage, show: real -> string, pretty: bool, id: Option<string>,
                   extra: seq<Line>): string {
    RenderLines(DocLines(img, show, id, extra), pretty) + "</session>"
  }

  // ---- canonical form and content id ----

  function CanonicalText(img: SessionImage, show: real -> string): string { DocText(img, show, false, None, []) }

  /** What the content id is the hash of. */
  function CanonicalBytes(img: SessionImage, show: real -> string): seq<byte> {
    Utf8.Encode(CanonicalText(img, show))
  }

  function ComputeId(img: SessionImage, show: real -> string, sha: seq<byte> -> Digest): string {
    SurfaceIdToStr(sha(CanonicalBytes(img, show)))
  }

  function WithComputedId(img: SessionImage, show: real -> string, sha: seq<byte> -> Digest): SessionImage {
    img.(id := Some(ComputeId(img, show, sha)))
  }

  function Verify(img: SessionImage, show: real -> string, sha: seq<byte> -> Digest): Result<(), SessionError> {
    var computed := ComputeId(img, show, sha);
    match img.id
    case None => Err(Malformed("no id to verify against"))
    case Some(declared) => if declared == computed then Ok(()) else Err(IntegrityMismatch(declared, computed))
  }

  function ToXml(img: SessionImage, show: real -> string, sha: seq<byte> -> Digest): string {
    var id := if img.id.Some? then img.id.value else ComputeId(img, show, sha);
    XML_DECL + "\n" + DocText(img, show, true, Some(id), [])
  }
}
