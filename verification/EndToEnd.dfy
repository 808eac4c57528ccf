/** The whole way of a session: suspended on one device, served, fetched, resumed on another. */
module EndToEnd {
  import opened Wrappers
  import opened Text
  import opened Session
  import SessionParse
  import opened SessionRoundTrip
  import opened SessionLaws
  import opened StripModel
  import opened Migration
  import opened Http
  import opened Broker
  import opened Fetch
  import Sorting
  import Utf8
  import Wire

  // ---- the path ----

  /** Visible ASCII. */
  predicate Graphic(s: string) { forall c :: c in s ==> '!' <= c <= '~' }

  lemma {:induction false} HexGraphic(b: seq<byte>)
    ensures Graphic(HexEncode(b)) && '/' !in HexEncode(b)
  {
    if b != [] {
      HexGraphic(b[1..]);
      HexDigitGraphic(b[0] / 16);
      HexDigitGraphic(b[0] % 16);
    }
  }

  lemma HexDigitGraphic(d: nat)
    requires d < 16
    ensures '0' <= HexDigit(d) <= 'f'
  {
  }

  lemma GraphicAppend(a: string, b: string)
    requires Graphic(a) && Graphic(b)
    ensures Graphic(a + b)
  {
  }

  lemma GraphicPlain(s: string)
    requires Graphic(s)
    ensures Unspaced(s) && Unbroken(s) && Utf8.IsAscii(s)
  {
  }

  lemma PrefixesGraphic()
    ensures Graphic("/session/") && Graphic("sha256:") && '/' !in "sha256:"
  {
  }

  lemma LastLetter(s: string)
    requires EndsInSlash(s)
    ensures '/' in s
  {
  }

  /** What a segment that names a digest looks like. */
  lemma NameShape(segment: string, d: Digest)
    requires Names(segment, d)
    ensures Graphic(segment) && '/' !in segment && !EndsInSlash(segment) && |segment| <= 71
  {
    HexGraphic(d);
    HexRoundTrip(d);
    PrefixesGraphic();
    GraphicAppend("sha256:", HexEncode(d));
    if EndsInSlash(segment) {
      LastLetter(segment);
    }
  }

  function SessionPath(segment: string): string { "/session/" + segment }

  lemma PathShape(segment: string)
    requires '/' !in segment
    ensures LastSegment(SessionPath(segment)) == segment && "/" <= SessionPath(segment)
  {
    assert SessionPath(segment) == "/session" + ['/'] + segment;
    FindLastAt("/session", '/', segment);
    assert SessionPath(segment)[9..] == segment;
  }

  lemma PathRouted(segment: string, image: ServedImage)
    requires !EndsInSlash(segment) && Matches(image, segment)
    ensures RouteOf("GET", SessionPath(segment), image) == Found
  {
  }

  // ---- the exchange ----

  lemma LineShape(segment: string)
    requires Graphic(segment) && |segment| <= 71
    ensures var line := RequestLine(SessionPath(segment));
            PlainLine(line) && |Utf8.Encode(line)| <= 100 && TwoWords(line) == ("GET", SessionPath(segment))
  {
    var path := SessionPath(segment);
    PrefixesGraphic();
    GraphicAppend("/session/", segment);
    GraphicPlain(path);
    VerbAndVersion();
    var line := RequestLine(path);
    TwoWordsOf("GET", path, "HTTP/1.1");
    assert line == ("GET" + " ") + path + (" " + "HTTP/1.1");
    hide Utf8.Encode;
    Utf8.EncodeAscii(line);
  }

  lemma VerbAndVersion()
    ensures Unspaced("GET") && Unbroken("GET" + " ") && Utf8.IsAscii("GET" + " ")
    ensures Unbroken(" " + "HTTP/1.1") && Utf8.IsAscii(" " + "HTTP/1.1")
  {
  }

  /** The request is its first line, CR LF, and the rest. */
  lemma RequestShape(host: string, path: string) returns (tail: seq<byte>)
    ensures Request(host, path) == Utf8.Encode(RequestLine(path) + "\r\n") + tail
  {
    var more := Head(["Host: " + host, "Connection: close", "Accept: */*"]);
    var lines := [RequestLine(path), "Host: " + host, "Connection: close", "Accept: */*"];
    assert lines[1..] == ["Host: " + host, "Connection: close", "Accept: */*"];
    tail := Utf8.Encode(more);
    Utf8.EncodeAppend(RequestLine(path) + "\r\n", more);
  }

  /** The broker at work: it answers the request for this path with what it makes of the pieces it reads. */
  predicate Answers(exchange: Exchange, host: string, port: nat, path: string, image: ServedImage,
                    pieces: seq<seq<byte>>) {
    && NonEmpty(pieces) && Wire.Concat(pieces) == Request(host, path)
    && exchange(host, port, Request(host, path)) == Some(Answer(FirstLine(Utf8.Lossy(Received([], pieces))), image))
  }

  lemma RequestNonEmpty(host: string, path: string)
    ensures Request(host, path) != []
  {
    HeadBytes([RequestLine(path), "Host: " + host, "Connection: close", "Accept: */*"]);
    CrlfLength();
    hide Utf8.Encode, CRLF;
  }

  /** The network's way of splitting what it carries. */
  type Splitting = seq<byte> -> seq<seq<byte>>

  /** The split loses nothing and delivers nothing empty. */
  predicate Faithful(split: Splitting, request: seq<byte>) {
    NonEmpty(split(request)) && Wire.Concat(split(request)) == request
  }

  /** A network that delivers everything in one piece is faithful. */
  lemma WholeDelivery(split: Splitting, request: seq<byte>)
    requires request != [] && split(request) == [request]
    ensures Faithful(split, request)
  {
    var pieces := split(request);
    assert pieces[1..] == [];
    assert Wire.Concat(pieces[1..]) == [] && request + Wire.Concat(pieces[1..]) == request;
  }

  /** The peer that is the broker, reading requests as the network splits them. */
  function BrokerPeer(image: ServedImage, split: Splitting): Exchange {
    (host, port, request) => Some(Answer(FirstLine(Utf8.Lossy(Received([], split(request)))), image))
  }

  /** The broker answers so at every host and port, under every path. */
  lemma BrokerAnswers(host: string, port: nat, path: string, image: ServedImage, split: Splitting)
    requires Faithful(split, Request(host, path))
    ensures Answers(BrokerPeer(image, split), host, port, path, image, split(Request(host, path)))
  {
    hide Request, NonEmpty, Wire.Concat, Answer, FirstLine, Utf8.Lossy, Received;
  }

  /** However the network splits the request, a GET of the image's id recovers the served body. */
  lemma BodyArrives(exchange: Exchange, host: string, port: nat, segment: string, image: ServedImage,
                    pieces: seq<seq<byte>>)
    requires Graphic(segment) && |segment| <= 71 && !EndsInSlash(segment) && Matches(image, segment)
    requires Unbroken(image.contentType)
    requires Answers(exchange, host, port, SessionPath(segment), image, pieces)
    ensures var raw := exchange(host, port, Request(host, SessionPath(segment)));
            raw.Some? && SplitResponse(raw.value) == Ok(image.body)
  {
    var line := RequestLine(SessionPath(segment));
    LineShape(segment);
    var tail := RequestShape(host, SessionPath(segment));
    FirstLineDecides(image, line, tail, pieces);
    PathRouted(segment, image);
    BodyRecovered(Found, image);
  }

  lemma ContentTypeUnbroken()
    ensures Unbroken("application/xml; charset=utf-8")
  {
  }

  // ---- serve, then fetch ----

  function SessionUrl(host: string, port: nat, segment: string): string {
    "http://" + (host + ":" + Dec(port) + SessionPath(segment))
  }

  /** A suspended image as the broker serves it. */
  function Served(img: SessionImage, show: real -> string, sha: seq<byte> -> Digest): ServedImage {
    NewXml(IdOf(img, show, sha), Utf8.Encode(ToXml(img, show, sha)))
  }

  lemma NamedIsMatched(segment: string, d: Digest, body: seq<byte>)
    requires Names(segment, d)
    ensures Matches(NewXml(SurfaceIdToStr(d), body), segment)
  {
  }

  /** What a fetch makes of a served image that carries its own id: the checks' verdict on its normal form. */
  lemma FetchServed(img: SessionImage, host: string, port: nat, segment: string, exchange: Exchange,
                    pieces: seq<seq<byte>>, show: real -> string, scan: string -> Option<real>,
                    sha: seq<byte> -> Digest)
    requires Prints(show, scan, img.layout.scrollPos)
    requires img.id == Some(ComputeId(img, show, sha)) && Names(segment, sha(CanonicalBytes(img, show)))
    requires '/' !in host && port < PORT_LIMIT
    requires Answers(exchange, host, port, SessionPath(segment), Served(img, show, sha), pieces)
    ensures FetchImage(SessionUrl(host, port, segment), exchange, show, scan, sha)
         == Verdict(Normalised(img, img.id.value), segment, show, sha)
  {
    var image, path := Served(img, show, sha), SessionPath(segment);
    NameShape(segment, sha(CanonicalBytes(img, show)));
    NamedIsMatched(segment, sha(CanonicalBytes(img, show)), Utf8.Encode(ToXml(img, show, sha)));
    ContentTypeUnbroken();
    PathShape(segment);
    BodyArrives(exchange, host, port, segment, image, pieces);
    UrlRoundTrip(host, port, path);
    WrittenBodyChecked(img, path, show, scan, sha);
    hide ToXml, Normalised, CanonicalBytes, Verdict, SplitResponse, Request, ParseHttpUrl, BodyChecked, Names, Matches,
      LastSegment;
  }

  /**
   * Serving and fetching compose to the identity exactly on storable images: a session in order of
   * position, without edge whitespace, is fetched back as it was suspended; any other is served but
   * fails the integrity check, because what arrives no longer has the content its id names.
   */
  lemma FetchExact(img: SessionImage, host: string, port: nat, segment: string, exchange: Exchange,
                   pieces: seq<seq<byte>>, show: real -> string, scan: string -> Option<real>,
                   sha: seq<byte> -> Digest)
    requires Prints(show, scan, img.layout.scrollPos)
    requires img.id == Some(ComputeId(img, show, sha)) && Names(segment, sha(CanonicalBytes(img, show)))
    requires '/' !in host && port < PORT_LIMIT
    requires Answers(exchange, host, port, SessionPath(segment), Served(img, show, sha), pieces)
    requires NoCollision(Normalised(img, img.id.value), img, show, sha)
    ensures var got := FetchImage(SessionUrl(host, port, segment), exchange, show, scan, sha);
            if Storable(img) then got == Ok(img) else got.Err? && got.error.WrongImage?
  {
    FetchServed(img, host, port, segment, exchange, pieces, show, scan, sha);
    var norm := Normalised(img, img.id.value);
    NormalisedFixedPoint(img, img.id.value);
    if Names(segment, sha(CanonicalBytes(norm, show))) {
      NamesOne(segment, sha(CanonicalBytes(norm, show)), sha(CanonicalBytes(img, show)));
      CanonicalInjective(norm, img, show);
      assert norm == img;
    }
  }

  // ---- suspend, serve, fetch, resume ----

  predicate TrimmedText(s: string) { Trim(s) == s }

  /** No host address, machine name or capture description begins or ends with whitespace. */
  ghost predicate TrimmedStrip(ss: seq<Surface>) {
    forall i :: 0 <= i < |ss| ==>
      TrimmedText(ss[i].hostAddr) && TrimmedText(ss[i].provenance.machineName)
      && TrimmedText(ss[i].provenance.captureDescription)
  }

  lemma EntriesSorted(ss: seq<Surface>)
    ensures Sorting.SortedBy(Entries(ss), SessionParse.OrderOf) <==> Sorting.SortedBy(ss, StripModel.OrderOf)
  {
    var es := Entries(ss);
    assert forall i :: 0 <= i < |ss| ==> SessionParse.OrderOf(es[i]) == StripModel.OrderOf(ss[i]);
  }

  lemma EntryTrimmed(s: Surface)
    ensures ReadEntry(EntryOf(s), true) == EntryOf(s) <==>
            TrimmedText(s.hostAddr) && TrimmedText(s.provenance.machineName)
            && TrimmedText(s.provenance.captureDescription)
  {
  }

  lemma EntriesTrimmed(ss: seq<Surface>)
    ensures TrimmedStrip(ss) <==> forall i :: 0 <= i < |ss| ==> ReadEntry(Entries(ss)[i], true) == Entries(ss)[i]
  {
    hide ReadEntry, EntryOf, TrimmedText;
    forall i | 0 <= i < |ss|
      ensures Entries(ss)[i] == EntryOf(ss[i])
      ensures ReadEntry(Entries(ss)[i], true) == Entries(ss)[i] <==>
              TrimmedText(ss[i].hostAddr) && TrimmedText(ss[i].provenance.machineName)
              && TrimmedText(ss[i].provenance.captureDescription)
    {
      EntryTrimmed(ss[i]);
    }
  }

  /** A strip suspends to a storable image exactly when it is in order and its texts are trimmed. */
  lemma StorableStrip(st: StripState, created: string, show: real -> string, sha: seq<byte> -> Digest)
    ensures Storable(ImageFromStrip(st, created, show, sha)) <==>
            Sorting.SortedBy(st.surfaces, StripModel.OrderOf) && TrimmedStrip(st.surfaces)
  {
    EntriesSorted(st.surfaces);
    EntriesTrimmed(st.surfaces);
    assert |Entries(st.surfaces)| == |st.surfaces|;
    hide Entries, TrimmedStrip, Sorting.SortedBy, ReadEntry, ComputeId;
  }

  /**
   * The whole way: a session suspended here, served, fetched by its id over any split of the request
   * and resumed on another device is the session moved to that device.
   */
  lemma SuspendServeFetchResume(st: StripState, created: string, host: string, port: nat, segment: string,
                                exchange: Exchange, pieces: seq<seq<byte>>, w: real, h: real, net: Network,
                                show: real -> string, scan: string -> Option<real>, sha: seq<byte> -> Digest)
    requires Portable(st, net) && TrimmedStrip(st.surfaces) && w > 0.0 && h > 0.0
    requires Prints(show, scan, st.scrollPos)
    requires var img := ImageFromStrip(st, created, show, sha);
             && Names(segment, sha(CanonicalBytes(img, show)))
             && Answers(exchange, host, port, SessionPath(segment), Served(img, show, sha), pieces)
    requires '/' !in host && port < PORT_LIMIT
    ensures var got := FetchImage(SessionUrl(host, port, segment), exchange, show, scan, sha);
            got.Ok? && Resumed(got.value, StripModel.Fresh(w, h), net) == Ok(Moved(st, w, h))
  {
    var img := ImageFromStrip(st, created, show, sha);
    StorableStrip(st, created, show, sha);
    assert CanonicalBytes(img, show) == CanonicalBytes(Snapshot(st, created), show);
    NormalisedFixedPoint(img, img.id.value);
    FetchExact(img, host, port, segment, exchange, pieces, show, scan, sha);
    ResumeMoves(st, w, h, created, net, show, sha);
  }
}
