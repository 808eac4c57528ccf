/** The broker: one image behind one path, over hand-written HTTP. */
module Broker {
  import opened Text
  import opened Http
  import Utf8
  import Wire

  datatype ServedImage = ServedImage(id: string, body: seq<byte>, contentType: string)

  function NewXml(id: string, body: seq<byte>): ServedImage {
    ServedImage(id, body, "application/xml; charset=utf-8")
  }

  function BareHex(id: string): string {
    var hex := StripPrefix(id, "sha256:");
    if hex.Some? then hex.value else id
  }

  predicate Matches(image: ServedImage, requested: string) {
    requested == image.id || requested == BareHex(image.id)
  }

  // ---- routing ----

  datatype Route = Found | NotFound | MethodNotAllowed

  function TrimSlashes(s: string): string {
    if s != "" && s[|s| - 1] == '/' then TrimSlashes(s[..|s| - 1]) else s
  }

  function RouteOf(verb: string, path: string, image: ServedImage): Route {
    if verb != "GET" then MethodNotAllowed
    else
      var id := StripPrefix(path, "/session/");
      if id.Some? && Matches(image, TrimSlashes(id.value)) then Found else NotFound
  }

  function Slashes(k: nat): string { if k == 0 then "" else Slashes(k - 1) + "/" }

  predicate EndsInSlash(s: string) { s != "" && s[|s| - 1] == '/' }

  lemma TrimOneSlash(s: string)
    ensures TrimSlashes(s + "/") == TrimSlashes(s)
  {
  }

  lemma {:induction false} TrimSlashesOf(s: string, k: nat)
    requires !EndsInSlash(s)
    ensures TrimSlashes(s + Slashes(k)) == s
  {
    if k == 0 {
      assert s + "" == s;
    } else {
      TrimSlashesOf(s, k - 1);
      Assoc(s, Slashes(k - 1), "/");
      TrimOneSlash(s + Slashes(k - 1));
    }
  }

  lemma {:induction false} TrimSlashesSplits(s: string) returns (k: nat)
    ensures s == TrimSlashes(s) + Slashes(k) && !EndsInSlash(TrimSlashes(s))
  {
    if s != "" && s[|s| - 1] == '/' {
      var m := TrimSlashesSplits(s[..|s| - 1]);
      k := m + 1;
      assert s == s[..|s| - 1] + "/";
      Assoc(TrimSlashes(s), Slashes(m), "/");
    } else {
      k := 0;
    }
  }

  /** A path that asks for `segment`, with any number of slashes after it. */
  predicate Asks(path: string, segment: string, k: nat) { path == "/session/" + segment + Slashes(k) }

  /** The image is served exactly to a GET of its id or bare hash, trailing slashes aside. */
  lemma RouteFound(verb: string, path: string, image: ServedImage)
    ensures RouteOf(verb, path, image) == Found <==>
            && verb == "GET"
            && (exists segment, k: nat :: Asks(path, segment, k) && !EndsInSlash(segment) && Matches(image, segment))
  {
    var id := StripPrefix(path, "/session/");
    if RouteOf(verb, path, image) == Found {
      var k := TrimSlashesSplits(id.value);
      assert path == "/session/" + id.value;
      Assoc("/session/", TrimSlashes(id.value), Slashes(k));
      assert Asks(path, TrimSlashes(id.value), k);
    }
    if exists segment, k: nat :: Asks(path, segment, k) && !EndsInSlash(segment) && Matches(image, segment) {
      var segment, k: nat :| Asks(path, segment, k) && !EndsInSlash(segment) && Matches(image, segment);
      Assoc("/session/", segment, Slashes(k));
      Cut("/session/", segment + Slashes(k));
      TrimSlashesOf(segment, k);
    }
  }

  // ---- the response ----

  function ResponseBody(route: Route, image: ServedImage): seq<byte> {
    match route
    case Found => image.body
    case NotFound => Utf8.Encode("session not found\n")
    case MethodNotAllowed => Utf8.Encode("method not allowed\n")
  }

  function ContentLength(route: Route, image: ServedImage): string {
    "Content-Length: " + Dec(|ResponseBody(route, image)|)
  }

  function ResponseLines(route: Route, image: ServedImage): seq<string> {
    var length := ContentLength(route, image);
    match route
    case Found =>
      ["HTTP/1.1 200 OK", "Content-Type: " + image.contentType, length, "Connection: close"]
    case NotFound =>
      ["HTTP/1.1 404 Not Found", "Content-Type: text/plain", length, "Connection: close"]
    case MethodNotAllowed =>
      ["HTTP/1.1 405 Method Not Allowed", "Allow: GET", "Content-Type: text/plain", length, "Connection: close"]
  }

  function WriteResponse(route: Route, image: ServedImage): seq<byte> {
    Utf8.Encode(Head(ResponseLines(route, image))) + ResponseBody(route, image)
  }

  lemma DecPlain(n: nat)
    ensures Unbroken(Dec(n))
  {
  }

  predicate Unbroken(s: string) { '\r' !in s && '\n' !in s }

  lemma PlainAppend(name: string, value: string)
    requires PlainLine(name) && Unbroken(value)
    ensures PlainLine(name + value)
  {
  }

  lemma StatusPlain()
    ensures PlainLine("HTTP/1.1 200 OK") && PlainLine("HTTP/1.1 404 Not Found")
    ensures PlainLine("HTTP/1.1 405 Method Not Allowed")
  {
  }

  lemma LabelsPlain()
    ensures PlainLine("Content-Type: ") && PlainLine("Content-Length: ") && PlainLine("Connection: close")
    ensures PlainLine("Allow: GET") && PlainLine("Content-Type: text/plain")
  {
  }

  lemma FourPlain(a: string, b: string, c: string, d: string)
    requires PlainLine(a) && PlainLine(b) && PlainLine(c) && PlainLine(d)
    ensures PlainLines([a, b, c, d])
  {
  }

  lemma LengthPlain(route: Route, image: ServedImage)
    ensures PlainLine(ContentLength(route, image))
  {
    LabelsPlain();
    var n := |ResponseBody(route, image)|;
    DecPlain(n);
    hide PlainLine, Unbroken, Dec;
    PlainAppend("Content-Length: ", Dec(n));
  }

  /** Every response head is a list of plain lines, if the content type is one. */
  lemma ResponsePlain(route: Route, image: ServedImage)
    requires Unbroken(image.contentType)
    ensures PlainLines(ResponseLines(route, image))
  {
    hide PlainLine, Unbroken, ContentLength;
    StatusPlain();
    LabelsPlain();
    LengthPlain(route, image);
    PlainAppend("Content-Type: ", image.contentType);
    var length := ContentLength(route, image);
    match route
    case Found => FourPlain("HTTP/1.1 200 OK", "Content-Type: " + image.contentType, length, "Connection: close");
    case NotFound => FourPlain("HTTP/1.1 404 Not Found", "Content-Type: text/plain", length, "Connection: close");
    case MethodNotAllowed =>
      FourPlain("Allow: GET", "Content-Type: text/plain", length, "Connection: close");
      assert ResponseLines(route, image)
          == ["HTTP/1.1 405 Method Not Allowed"]
          + ["Allow: GET", "Content-Type: text/plain", length, "Connection: close"];
  }

  /** Every response declares the length of what follows its head. */
  lemma DeclaredLength(route: Route, image: ServedImage)
    requires Unbroken(image.contentType)
    ensures var raw := WriteResponse(route, image);
            var end := HeaderEnd(raw);
            && end.Some? && end.value + 4 <= |raw|
            && "Content-Length: " + Dec(|raw| - (end.value + 4)) in ResponseLines(route, image)
  {
    ResponsePlain(route, image);
    LengthListed(route, image);
    hide HeaderEnd, Utf8.Encode, Head, PlainLines, Dec, ResponseLines, ResponseBody, Unbroken;
    HeadEnds(ResponseLines(route, image), ResponseBody(route, image));
    var raw := WriteResponse(route, image);
    assert |raw| - (HeaderEnd(raw).value + 4) == |ResponseBody(route, image)|;
  }

  lemma LengthListed(route: Route, image: ServedImage)
    ensures ContentLength(route, image) in ResponseLines(route, image)
  {
    hide ContentLength;
    var lines := ResponseLines(route, image);
    match route
    case Found => assert lines[2] in lines;
    case NotFound => assert lines[2] in lines;
    case MethodNotAllowed => assert lines[3] in lines;
  }

  // ---- one connection ----

  const MAX_REQUEST := 64 * 1024

  /** What has been read when the reader stops: a blank line, too much, or the end of the stream. */
  function Received(buf: seq<byte>, pieces: seq<seq<byte>>): seq<byte>
    decreases |pieces|
  {
    if pieces == [] || pieces[0] == [] then buf
    else
      var b := buf + pieces[0];
      if HeaderEnd(b).Some? || |b| > MAX_REQUEST then b else Received(b, pieces[1..])
  }

  /** The answer to a request line. */
  function Answer(line: string, image: ServedImage): seq<byte> {
    var words := TwoWords(line);
    WriteResponse(RouteOf(words.0, words.1, image), image)
  }

  /** Read the head of a request as it arrives, piece by piece, and answer its first line. */
  method HandleConnection(image: ServedImage, pieces: seq<seq<byte>>) returns (response: seq<byte>)
    ensures response == Answer(FirstLine(Utf8.Lossy(Received([], pieces))), image)
  {
    hide TwoWords, FirstLine, Utf8.Lossy, WriteResponse, RouteOf, HeaderEnd;
    var buf: seq<byte> := [];
    var next := 0;
    assert pieces[0..] == pieces;
    while next < |pieces| && pieces[next] != []
      invariant next <= |pieces|
      invariant Received(buf, pieces[next..]) == Received([], pieces)
    {
      assert pieces[next..][1..] == pieces[next + 1..];
      buf := buf + pieces[next];
      if HeaderEnd(buf).Some? || |buf| > MAX_REQUEST {
        assert buf == Received([], pieces);
        break;
      }
      next := next + 1;
    }
    var line := FirstLine(Utf8.Lossy(buf));
    var words := TwoWords(line);
    response := WriteResponse(RouteOf(words.0, words.1, image), image);
  }

  predicate NonEmpty(pieces: seq<seq<byte>>) { forall p :: p in pieces ==> p != [] }

  /** The reader stops with everything, with a blank line, or with more than its limit. */
  lemma {:induction false} ReceivedEnough(buf: seq<byte>, pieces: seq<seq<byte>>)
    requires NonEmpty(pieces)
    ensures var got, all := Received(buf, pieces), buf + Wire.Concat(pieces);
            got <= all && (got == all || HeaderEnd(got).Some? || |got| > MAX_REQUEST)
    decreases |pieces|
  {
    if pieces == [] {
      assert buf + [] == buf;
    } else {
      assert pieces[0] in pieces && forall p :: p in pieces[1..] ==> p in pieces;
      var b := buf + pieces[0];
      Assoc(buf, pieces[0], Wire.Concat(pieces[1..]));
      if HeaderEnd(b).Some? || |b| > MAX_REQUEST {
        assert b <= b + Wire.Concat(pieces[1..]);
      } else {
        ReceivedEnough(b, pieces[1..]);
      }
    }
  }

  lemma PrefixExtends(a: seq<byte>, got: seq<byte>, all: seq<byte>)
    requires got <= all && a <= all && |a| <= |got|
    ensures a <= got && got == a + got[|a|..]
  {
  }

  /** No blank line begins inside a first line without CR. */
  lemma BlankLineAfter(line: seq<byte>, got: seq<byte>, all: seq<byte>)
    requires 13 !in line && line <= all && got <= all && HeaderEnd(got).Some?
    ensures |got| >= |line| + 4
  {
  }

  /**
   * However the network splits a request, the answer depends on its first line only: what follows
   * that line, and what the reader has not read of it when it stops, make no difference.
   */
  lemma FirstLineDecides(image: ServedImage, line: string, tail: seq<byte>, pieces: seq<seq<byte>>)
    requires PlainLine(line) && |Utf8.Encode(line)| + 2 <= MAX_REQUEST
    requires NonEmpty(pieces) && Wire.Concat(pieces) == Utf8.Encode(line + "\r\n") + tail
    ensures Answer(FirstLine(Utf8.Lossy(Received([], pieces))), image) == Answer(line, image)
  {
    var all, got, l := Wire.Concat(pieces), Received([], pieces), Utf8.Encode(line + "\r\n");
    assert [] + all == all;
    ReceivedEnough([], pieces);
    PlainBytes(line);
    Utf8.EncodeAppend(line, "\r\n");
    CrlfBytes();
    var b := Utf8.Encode(line);
    assert b <= l <= all;
    hide *;
    if HeaderEnd(got).Some? {
      BlankLineAfter(b, got, all);
    }
    PrefixExtends(l, got, all);
    var rest := got[|l|..];
    Utf8.LossyPrefix(line + "\r\n", rest);
    FirstLineIs(line, Utf8.Lossy(rest));
  }
}
