/** Fetching a session image by URL: the request, the split of the response, and the checks. */
module Fetch {
  import opened Wrappers
  import opened Text
  import opened Session
  import opened SessionParse
  import opened SessionLaws
  import opened Http
  import opened Broker
  import Utf8

  datatype FetchError =
    | NotHttp
    | BadPort(text: string)
    | NoAnswer
    | NoHeaderEnd
    | Refused(status: string)
    | NotUtf8
    | Unparsable(error: SessionError)
    | WrongImage(urlId: string, computed: string)

  /** What the peer at a host and port answers to a request; None when the exchange fails. */
  type Exchange = (string, nat, seq<byte>) -> Option<seq<byte>>

  const PORT_LIMIT := 0x1_0000

  // ---- the URL ----

  /** Index of the last `c` in `s`. */
  function FindLast(s: string, c: char): (r: Option<nat>)
    ensures r.Some? ==> r.value < |s| && s[r.value] == c && c !in s[r.value + 1..]
    ensures r.None? ==> c !in s
  {
    if s == "" then None
    else if s[|s| - 1] == c then Some(|s| - 1)
    else
      var r := FindLast(s[..|s| - 1], c);
      assert s == s[..|s| - 1] + [s[|s| - 1]];
      assert r.Some? ==> s[r.value + 1..] == s[..|s| - 1][r.value + 1..] + [s[|s| - 1]];
      r
  }

  /** Host and port: what stands before and after the last colon, or the whole and 80. */
  function ParseAuthority(authority: string): Result<(string, nat), FetchError> {
    var colon := FindLast(authority, ':');
    if colon.None? then Ok((authority, 80))
    else
      var text := authority[colon.value + 1..];
      var port :- OkOr(ParseUnsigned(text, PORT_LIMIT), BadPort(text));
      Ok((authority[..colon.value], port))
  }

  function ParseHttpUrl(url: string): Result<(string, nat, string), FetchError> {
    var rest :- OkOr(StripPrefix(url, "http://"), NotHttp);
    var i := Find(rest, '/');
    var path := if i < |rest| then rest[i..] else "/";
    var peer :- ParseAuthority(rest[..i]);
    Ok((peer.0, peer.1, path))
  }

  function LastSegment(path: string): string {
    var slash := FindLast(path, '/');
    if slash.Some? then path[slash.value + 1..] else path
  }

  lemma {:induction false} FindLastAt(a: string, c: char, b: string)
    requires c !in b
    ensures FindLast(a + [c] + b, c) == Some(|a|)
  {
    var s := a + [c] + b;
    if b != "" {
      var n := |b| - 1;
      assert b[n] in b && b == b[..n] + [b[n]];
      assert s[|s| - 1] == b[n] && s[..|s| - 1] == a + [c] + b[..n];
      FindLastAt(a, c, b[..n]);
    }
  }

  lemma SplitAuthority(authority: string, path: string)
    requires '/' !in authority && "/" <= path
    ensures var rest, i := authority + path, Find(authority + path, '/');
            i == |authority| && rest[..i] == authority && rest[i..] == path
  {
    var rest := authority + path;
    assert forall i :: 0 <= i < |authority| ==> rest[i] == authority[i];
    FindAt(rest, '/', |authority|);
  }

  lemma AuthorityWithPort(host: string, port: nat)
    requires port < PORT_LIMIT
    ensures ParseAuthority(host + ":" + Dec(port)) == Ok((host, port)) && '/' !in Dec(port)
  {
    DecDigits(port);
    DecRoundTrip(port, PORT_LIMIT);
    var authority := host + ":" + Dec(port);
    FindLastAt(host, ':', Dec(port));
    assert authority[|host| + 1..] == Dec(port) && authority[..|host|] == host;
  }

  lemma UrlParts(authority: string, path: string)
    requires '/' !in authority && "/" <= path && ParseAuthority(authority).Ok?
    ensures var peer := ParseAuthority(authority).value;
            ParseHttpUrl("http://" + (authority + path)) == Ok((peer.0, peer.1, path))
  {
    hide ParseAuthority, Find;
    Cut("http://", authority + path);
    SplitAuthority(authority, path);
  }

  /** Reading a URL gives back the host, port and path it was made of; port 80 goes unsaid. */
  lemma UrlRoundTrip(host: string, port: nat, path: string)
    requires '/' !in host && port < PORT_LIMIT && "/" <= path
    ensures ParseHttpUrl("http://" + (host + ":" + Dec(port) + path)) == Ok((host, port, path))
    ensures ':' !in host ==> ParseHttpUrl("http://" + (host + path)) == Ok((host, 80, path))
  {
    AuthorityWithPort(host, port);
    hide ParseHttpUrl, Dec;
    UrlParts(host + ":" + Dec(port), path);
    if ':' !in host {
      UrlParts(host, path);
    }
  }

  /** A URL with no path asks for `/`; one that is not http, or has a port that is no number, is refused. */
  lemma UrlEdges(url: string, authority: string)
    ensures !("http://" <= url) ==> ParseHttpUrl(url) == Err(NotHttp)
    ensures '/' !in authority && ParseAuthority(authority).Ok? ==>
            var peer := ParseAuthority(authority).value;
            ParseHttpUrl("http://" + authority) == Ok((peer.0, peer.1, "/"))
    ensures forall host, port ::
              authority == host + ":" + port && ':' !in port && ParseUnsigned(port, PORT_LIMIT).None? ==>
                ParseAuthority(authority) == Err(BadPort(port))
  {
    Cut("http://", authority);
    if '/' !in authority {
      NoSlash(authority);
    }
    forall host, port | authority == host + ":" + port && ':' !in port && ParseUnsigned(port, PORT_LIMIT).None?
      ensures ParseAuthority(authority) == Err(BadPort(port))
    {
      FindLastAt(host, ':', port);
      assert authority[|host| + 1..] == port;
    }
  }

  lemma NoSlash(s: string)
    requires '/' !in s
    ensures Find(s, '/') == |s| && s[..|s|] == s
  {
  }

  // ---- the exchange ----

  function RequestLine(path: string): string { "GET" + " " + path + " " + "HTTP/1.1" }

  function Request(host: string, path: string): seq<byte> {
    Utf8.Encode(Head([RequestLine(path), "Host: " + host, "Connection: close", "Accept: */*"]))
  }

  /** The body of a response whose status line says 200. */
  function SplitResponse(raw: seq<byte>): Result<seq<byte>, FetchError> {
    var end :- OkOr(HeaderEnd(raw), NoHeaderEnd);
    var status := FirstLine(Utf8.Lossy(raw[..end]));
    if Contains(status, " 200") then Ok(raw[end + 4..]) else Err(Refused(status))
  }

  lemma FoundStatus()
    ensures Contains("HTTP/1.1 200 OK", " 200")
  {
    ContainsAt("HTTP/1.1 200 OK", " 200", 8);
  }

  lemma NotFoundStatus()
    ensures !Contains("HTTP/1.1 404 Not Found", " 200")
  {
    assert " 200"[1] == '2';
    LacksLetter("HTTP/1.1 404 Not Found", " 200", '2');
  }

  lemma NotAllowedStatus()
    ensures !Contains("HTTP/1.1 405 Method Not Allowed", " 200")
  {
    assert " 200"[1] == '2';
    LacksLetter("HTTP/1.1 405 Method Not Allowed", " 200", '2');
  }

  function Status(route: Route): string {
    match route
    case Found => "HTTP/1.1 200 OK"
    case NotFound => "HTTP/1.1 404 Not Found"
    case MethodNotAllowed => "HTTP/1.1 405 Method Not Allowed"
  }

  lemma StatusSays200(route: Route)
    ensures Contains(Status(route), " 200") <==> route == Found
  {
    FoundStatus();
    NotFoundStatus();
    NotAllowedStatus();
  }

  lemma SplitHead(lines: seq<string>, body: seq<byte>)
    requires PlainLines(lines)
    ensures SplitResponse(Utf8.Encode(Head(lines)) + body)
         == if Contains(lines[0], " 200") then Ok(body) else Err(Refused(lines[0]))
  {
    HeadSplits(lines, body);
    FirstOfJoined(lines);
    hide Head, Joined, HeaderEnd, FirstLine, Contains, Utf8.Lossy, Utf8.Encode, PlainLines;
  }

  /**
   * The client takes from the broker's response exactly the body it served, even one that itself
   * holds blank lines, and refuses every other answer the broker gives.
   */
  lemma BodyRecovered(route: Route, image: ServedImage)
    requires Unbroken(image.contentType)
    ensures SplitResponse(WriteResponse(route, image))
            == if route == Found then Ok(image.body) else Err(Refused(Status(route)))
  {
    ResponsePlain(route, image);
    StatusSays200(route);
    SplitHead(ResponseLines(route, image), ResponseBody(route, image));
  }

  // ---- the checks ----

  function BodyChecked(body: seq<byte>, path: string, show: real -> string, scan: string -> Option<real>,
                       sha: seq<byte> -> Digest): Result<SessionImage, FetchError>
  {
    var xml :- OkOr(Utf8.Decode(body), NotUtf8);
    match Parsed(xml, scan)
    case Err(e) => Err(Unparsable(e))
    case Ok(image) =>
      var urlId, computed := LastSegment(path), ComputeId(image, show, sha);
      if urlId == computed || urlId == BareHex(computed) then Ok(image) else Err(WrongImage(urlId, computed))
  }

  function FetchImage(url: string, exchange: Exchange, show: real -> string, scan: string -> Option<real>,
                      sha: seq<byte> -> Digest): Result<SessionImage, FetchError>
  {
    var target :- ParseHttpUrl(url);
    var raw :- OkOr(exchange(target.0, target.1, Request(target.0, target.2)), NoAnswer);
    var body :- SplitResponse(raw);
    BodyChecked(body, target.2, show, scan, sha)
  }

  // ---- what the checks guarantee ----

  /** A path segment that names a digest, in full or as bare hexadecimal. */
  predicate Names(segment: string, d: Digest) { segment == SurfaceIdToStr(d) || segment == HexEncode(d) }

  lemma BareOf(d: Digest)
    ensures BareHex(SurfaceIdToStr(d)) == HexEncode(d)
    ensures ':' in SurfaceIdToStr(d) && ':' !in HexEncode(d) && |HexEncode(d)| == 64
  {
    HexRoundTrip(d);
    Cut("sha256:", HexEncode(d));
    assert SurfaceIdToStr(d)[6] == ':';
    assert IsMarkup(':') by { assert "&<>\":/? \t\r\n"[4] == ':'; }
  }

  /** A segment names at most one digest. */
  lemma NamesOne(segment: string, a: Digest, b: Digest)
    requires Names(segment, a) && Names(segment, b)
    ensures a == b
  {
    BareOf(a);
    BareOf(b);
    IdInjective(a, b);
    HexRoundTrip(a);
    HexRoundTrip(b);
  }

  lemma CheckIsNames(body: seq<byte>, path: string, show: real -> string, scan: string -> Option<real>,
                     sha: seq<byte> -> Digest)
    ensures var xml := Utf8.Decode(body);
            BodyChecked(body, path, show, scan, sha).Ok? <==>
            xml.Some? && Parsed(xml.value, scan).Ok?
            && Names(LastSegment(path), sha(CanonicalBytes(Parsed(xml.value, scan).value, show)))
  {
    hide Parsed, CanonicalBytes, HexEncode, LastSegment, BareHex, Utf8.Decode;
    var xml := Utf8.Decode(body);
    if xml.Some? && Parsed(xml.value, scan).Ok? {
      BareOf(sha(CanonicalBytes(Parsed(xml.value, scan).value, show)));
    }
  }

  /**
   * A fetched image cannot be a substitute: whatever bytes the peer answers with, an image accepted
   * under a URL that names `original` has the content of `original`, short of a collision.
   */
  lemma FetchedIsNamed(url: string, exchange: Exchange, show: real -> string, scan: string -> Option<real>,
                       sha: seq<byte> -> Digest, original: SessionImage)
    requires ParseHttpUrl(url).Ok? && Names(LastSegment(ParseHttpUrl(url).value.2), sha(CanonicalBytes(original, show)))
    requires FetchImage(url, exchange, show, scan, sha).Ok?
    requires var got := FetchImage(url, exchange, show, scan, sha).value;
             PlainFloat(show, got.layout.scrollPos) && PlainFloat(show, original.layout.scrollPos)
             && NoCollision(got, original, show, sha)
    ensures SameContent(FetchImage(url, exchange, show, scan, sha).value, original, show)
  {
    hide Parsed, Names, CanonicalBytes, SameContent, ParseHttpUrl, SplitResponse, LastSegment;
    var target := ParseHttpUrl(url).value;
    var got := FetchImage(url, exchange, show, scan, sha).value;
    var body := SplitResponse(exchange(target.0, target.1, Request(target.0, target.2)).value).value;
    CheckIsNames(body, target.2, show, scan, sha);
    NamesOne(LastSegment(target.2), sha(CanonicalBytes(got, show)), sha(CanonicalBytes(original, show)));
    CanonicalInjective(got, original, show);
  }

  /** A URL with a slash at its end is routed to the image but never fetched: its last segment is empty. */
  lemma TrailingSlashNeverFetched(url: string, exchange: Exchange, show: real -> string, scan: string -> Option<real>,
                                  sha: seq<byte> -> Digest)
    requires ParseHttpUrl(url).Ok? && EndsInSlash(ParseHttpUrl(url).value.2)
    ensures FetchImage(url, exchange, show, scan, sha).Err?
  {
    hide Parsed, CanonicalBytes, HexEncode, SplitResponse, BodyChecked, ParseHttpUrl;
    var target := ParseHttpUrl(url).value;
    var path := target.2;
    assert path == path[..|path| - 1] + ['/'] + "";
    FindLastAt(path[..|path| - 1], '/', "");
    assert LastSegment(path) == "";
    var raw := exchange(target.0, target.1, Request(target.0, path));
    if raw.Some? && SplitResponse(raw.value).Ok? {
      var body := SplitResponse(raw.value).value;
      CheckIsNames(body, path, show, scan, sha);
      if BodyChecked(body, path, show, scan, sha).Ok? {
        BareOf(sha(CanonicalBytes(Parsed(Utf8.Decode(body).value, scan).value, show)));
        assert false;
      }
    }
  }

  /** An image under the name it was asked for. */
  function Verdict(image: SessionImage, segment: string, show: real -> string, sha: seq<byte> -> Digest)
      : Result<SessionImage, FetchError>
  {
    if Names(segment, sha(CanonicalBytes(image, show))) then Ok(image)
    else Err(WrongImage(segment, ComputeId(image, show, sha)))
  }

  /**
   * What the checks make of any written image: its normal form, exactly when the URL names the
   * content of that normal form. The id the document declares plays no part.
   */
  lemma WrittenBodyChecked(img: SessionImage, path: string, show: real -> string, scan: string -> Option<real>,
                           sha: seq<byte> -> Digest)
    requires Prints(show, scan, img.layout.scrollPos)
    ensures BodyChecked(Utf8.Encode(ToXml(img, show, sha)), path, show, scan, sha)
         == Verdict(Normalised(img, IdOf(img, show, sha)), LastSegment(path), show, sha)
  {
    Utf8.RoundTrip(ToXml(img, show, sha));
    XmlRoundTrip(img, show, scan, sha);
    BareOf(sha(CanonicalBytes(Normalised(img, IdOf(img, show, sha)), show)));
    hide ToXml, Parsed, Normalised, CanonicalBytes, HexEncode, BareHex, Utf8.Encode, Utf8.Decode;
  }
}
