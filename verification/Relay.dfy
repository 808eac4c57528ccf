/** Whole journeys through the text form and the broker, and a session that cannot make one. */
module Relay {
  import opened Wrappers
  import opened Text
  import opened Session
  import opened SessionLaws
  import opened Messages
  import opened StripModel
  import opened Migration
  import opened Fetch
  import opened EndToEnd
  import Sorting

  /** How a device reaches the broker of the last one. */
  datatype Way = Way(host: string, port: nat, bare: bool, split: Splitting)

  /** One move: the next device, and its way to the image. */
  datatype Hop = Hop(device: Device, way: Way)

  datatype RelayError = NotFetched(error: FetchError) | NotResumed(why: ConnectError)

  /** The path segment that names an image, in full or as bare hexadecimal. */
  function SegmentOf(img: SessionImage, bare: bool, show: real -> string, sha: seq<byte> -> Digest): string {
    var d := sha(CanonicalBytes(img, show));
    if bare then HexEncode(d) else SurfaceIdToStr(d)
  }

  /** The image served, and fetched from there. */
  function Fetched(img: SessionImage, way: Way, show: real -> string, scan: string -> Option<real>,
                   sha: seq<byte> -> Digest): Result<SessionImage, FetchError>
  {
    FetchImage(SessionUrl(way.host, way.port, SegmentOf(img, way.bare, show, sha)),
               BrokerPeer(Served(img, show, sha), way.split), show, scan, sha)
  }

  /** Suspend, serve, fetch and resume, on each device in turn. */
  function Relayed(st: StripState, hops: seq<Hop>, net: Network, show: real -> string, scan: string -> Option<real>,
                   sha: seq<byte> -> Digest): Result<StripState, RelayError>
    decreases |hops|
  {
    if hops == [] then Ok(st)
    else
      var hop := hops[0];
      match Fetched(Suspended(st, hop.device, show, sha), hop.way, show, scan, sha)
      case Err(e) => Err(NotFetched(e))
      case Ok(img) =>
        match Resumed(img, Fresh(hop.device.width, hop.device.height), net)
        case Err(e) => Err(NotResumed(e))
        case Ok(t) => Relayed(t, hops[1..], net, show, scan, sha)
  }

  function Devices(hops: seq<Hop>): seq<Device> { seq(|hops|, i requires 0 <= i < |hops| => hops[i].device) }

  /** A broker with an address, and a network that carries what it is given. */
  ghost predicate Open(way: Way) {
    && '/' !in way.host && way.port < PORT_LIMIT
    && forall request: seq<byte> :: request != [] ==> Faithful(way.split, request)
  }

  /** A device with a viewport, and an open way to it. */
  ghost predicate Usable(hop: Hop) { hop.device.width > 0.0 && hop.device.height > 0.0 && Open(hop.way) }

  /** The float layer carries every scroll position the session can arrive at. */
  ghost predicate Carried(pos: real, n: nat, hops: seq<Hop>, show: real -> string, scan: string -> Option<real>) {
    Prints(show, scan, pos) && forall hop :: hop in hops ==> Prints(show, scan, DefaultMaxScroll(n, hop.device.width))
  }

  /** Serving an image under its own id and fetching it gives it back exactly when it is storable. */
  lemma FetchedExact(img: SessionImage, way: Way, show: real -> string, scan: string -> Option<real>,
                     sha: seq<byte> -> Digest)
    requires img.id == Some(ComputeId(img, show, sha)) && Open(way) && Prints(show, scan, img.layout.scrollPos)
    requires Unconfused(img, show, sha)
    ensures var got := Fetched(img, way, show, scan, sha);
            if Storable(img) then got == Ok(img) else got.Err? && got.error.WrongImage?
  {
    var segment := SegmentOf(img, way.bare, show, sha);
    var request := Request(way.host, SessionPath(segment));
    RequestNonEmpty(way.host, SessionPath(segment));
    assert Faithful(way.split, request);
    BrokerAnswers(way.host, way.port, SessionPath(segment), Served(img, show, sha), way.split);
    assert Names(segment, sha(CanonicalBytes(img, show)));
    hide FetchImage, Served, Answers, BrokerPeer, SessionPath, SessionUrl, Request, Normalised, Storable,
      CanonicalBytes, Prints, SegmentOf, Names, NoCollision, Open, Faithful;
    FetchExact(img, way.host, way.port, segment, BrokerPeer(Served(img, show, sha), way.split), way.split(request),
               show, scan, sha);
  }

  /** The hash tells the image from its normal form when they differ. */
  predicate Unconfused(img: SessionImage, show: real -> string, sha: seq<byte> -> Digest) {
    img.id.Some? ==> NoCollision(Normalised(img, img.id.value), img, show, sha)
  }

  lemma StorableUnconfused(img: SessionImage, show: real -> string, sha: seq<byte> -> Digest)
    requires Storable(img)
    ensures Unconfused(img, show, sha)
  {
    if img.id.Some? {
      NormalisedFixedPoint(img, img.id.value);
      hide CanonicalBytes, Storable;
    }
  }

  /** A strip in order of position with trimmed texts is fetched as it was suspended. */
  lemma StripFetched(st: StripState, created: string, way: Way, show: real -> string, scan: string -> Option<real>,
                     sha: seq<byte> -> Digest)
    requires Sorting.SortedBy(st.surfaces, StripModel.OrderOf) && TrimmedStrip(st.surfaces)
    requires Open(way) && Prints(show, scan, st.scrollPos)
    ensures var img := ImageFromStrip(st, created, show, sha); Fetched(img, way, show, scan, sha) == Ok(img)
  {
    var img := ImageFromStrip(st, created, show, sha);
    SameComputedId(st, created, show, sha);
    StorableStrip(st, created, show, sha);
    hide Sorting.SortedBy, TrimmedStrip, Open, Prints, Fetched, Unconfused, Storable, ImageFromStrip, ComputeId;
    StorableUnconfused(img, show, sha);
    FetchedExact(img, way, show, scan, sha);
  }

  /** One hop through the broker is one move. */
  lemma HopMoves(st: StripState, hop: Hop, net: Network, show: real -> string, scan: string -> Option<real>,
                 sha: seq<byte> -> Digest)
    requires Portable(st, net) && TrimmedStrip(st.surfaces) && Usable(hop) && Prints(show, scan, st.scrollPos)
    ensures var got := Fetched(Suspended(st, hop.device, show, sha), hop.way, show, scan, sha);
            got.Ok? && Resumed(got.value, Fresh(hop.device.width, hop.device.height), net)
                       == Ok(Moved(st, hop.device.width, hop.device.height))
  {
    var d := hop.device;
    assert Sorting.SortedBy(st.surfaces, StripModel.OrderOf) && Open(hop.way);
    hide Portable, TrimmedStrip, Resumed, Prints, Moved, ImageFromStrip, Suspended, Fetched, Open, Sorting.SortedBy;
    SuspendedImage(st, d, show, sha);
    StripFetched(st, d.created, hop.way, show, scan, sha);
    DeviceMoves(st, d, net, show, sha);
  }

  lemma MovedTrimmed(st: StripState, w: real, h: real)
    requires TrimmedStrip(st.surfaces)
    ensures TrimmedStrip(Moved(st, w, h).surfaces)
  {
    hide TrimmedText;
  }

  lemma MovedCarried(st: StripState, hop: Hop, more: seq<Hop>, show: real -> string, scan: string -> Option<real>)
    requires Carried(st.scrollPos, |st.surfaces|, [hop] + more, show, scan)
    ensures var t := Moved(st, hop.device.width, hop.device.height);
            Carried(t.scrollPos, |t.surfaces|, more, show, scan)
  {
    assert hop in [hop] + more && forall e :: e in more ==> e in [hop] + more;
    hide Prints, DefaultMaxScroll;
  }

  /** The two runs step together. */
  lemma {:induction false} RelayFollows(st: StripState, hops: seq<Hop>, net: Network, show: real -> string,
                                        scan: string -> Option<real>, sha: seq<byte> -> Digest)
    requires Portable(st, net) && TrimmedStrip(st.surfaces) && forall hop :: hop in hops ==> Usable(hop)
    requires Carried(st.scrollPos, |st.surfaces|, hops, show, scan)
    ensures Arrives(Relayed(st, hops, net, show, scan, sha), Journey(st, Devices(hops), net, show, sha))
    decreases |hops|
  {
    if hops == [] {
      RelayRests(st, net, show, scan, sha);
    } else {
      var hop, more := hops[0], hops[1..];
      var d := hop.device;
      FirstHop(hops);
      assert Prints(show, scan, st.scrollPos);
      hide *;
      JourneyStep(st, Devices(hops), net, show, sha);
      RelayStep(st, hops, net, show, scan, sha);
      MovedPortable(st, d.width, d.height, net);
      MovedTrimmed(st, d.width, d.height);
      MovedCarried(st, hop, more, show, scan);
      RelayFollows(Moved(st, d.width, d.height), more, net, show, scan, sha);
    }
  }

  lemma RelayRests(st: StripState, net: Network, show: real -> string, scan: string -> Option<real>,
                   sha: seq<byte> -> Digest)
    ensures Arrives(Relayed(st, [], net, show, scan, sha), Journey(st, Devices([]), net, show, sha))
  {
  }

  lemma FirstHop(hops: seq<Hop>)
    requires hops != [] && forall hop :: hop in hops ==> Usable(hop)
    ensures var d := hops[0].device;
            && d.width > 0.0 && d.height > 0.0 && Usable(hops[0]) && hops == [hops[0]] + hops[1..]
            && Devices(hops) != [] && Devices(hops)[0] == d && Devices(hops)[1..] == Devices(hops[1..])
    ensures forall hop :: hop in hops[1..] ==> Usable(hop)
  {
    assert hops[0] in hops && forall e :: e in hops[1..] ==> e in hops;
  }

  /** Both runs end well, in the same strip. */
  predicate Arrives(r: Result<StripState, RelayError>, j: Result<StripState, ConnectError>) {
    r.Ok? && j.Ok? && r.value == j.value
  }

  /**
   * A whole journey through the brokers is the journey: with every image written, served, fetched by
   * its id over any split of the request, parsed and checked on the way, the session arrives as if its
   * images had been handed over, with every surface and the focus kept.
   */
  lemma RelayIsJourney(st: StripState, hops: seq<Hop>, net: Network, show: real -> string, scan: string -> Option<real>,
                       sha: seq<byte> -> Digest)
    requires Portable(st, net) && TrimmedStrip(st.surfaces) && forall hop :: hop in hops ==> Usable(hop)
    requires Carried(st.scrollPos, |st.surfaces|, hops, show, scan)
    ensures Arrives(Relayed(st, hops, net, show, scan, sha), Journey(st, Devices(hops), net, show, sha))
    ensures var r := Relayed(st, hops, net, show, scan, sha);
            r.Ok? && Portable(r.value, net) && Kept(r.value, st, Devices(hops))
  {
    DevicesUsable(hops);
    hide Relayed, Journey, Portable, TrimmedStrip, Carried, Usable, Kept, Devices;
    RelayFollows(st, hops, net, show, scan, sha);
    JourneyKeeps(st, Devices(hops), net, show, sha);
  }

  lemma DevicesUsable(hops: seq<Hop>)
    requires forall hop :: hop in hops ==> Usable(hop)
    ensures forall d :: d in Devices(hops) ==> d.width > 0.0 && d.height > 0.0
  {
    forall d | d in Devices(hops) ensures d.width > 0.0 && d.height > 0.0 {
      var i :| 0 <= i < |hops| && Devices(hops)[i] == d;
      assert hops[i] in hops;
    }
  }

  lemma JourneyStep(st: StripState, devices: seq<Device>, net: Network, show: real -> string, sha: seq<byte> -> Digest)
    requires devices != [] && Portable(st, net) && devices[0].width > 0.0 && devices[0].height > 0.0
    ensures Journey(st, devices, net, show, sha)
         == Journey(Moved(st, devices[0].width, devices[0].height), devices[1..], net, show, sha)
  {
    hide Portable, Moved, Resumed, Suspended, Fresh;
    DeviceMoves(st, devices[0], net, show, sha);
  }

  lemma RelayStep(st: StripState, hops: seq<Hop>, net: Network, show: real -> string, scan: string -> Option<real>,
                  sha: seq<byte> -> Digest)
    requires hops != [] && Portable(st, net) && TrimmedStrip(st.surfaces) && Usable(hops[0])
             && Prints(show, scan, st.scrollPos)
    ensures var d := hops[0].device;
            Relayed(st, hops, net, show, scan, sha)
            == Relayed(Moved(st, d.width, d.height), hops[1..], net, show, scan, sha)
  {
    hide Portable, TrimmedStrip, Prints, Moved, Resumed, Fetched, Suspended, Usable, Fresh;
    HopMoves(st, hops[0], net, show, scan, sha);
  }

  lemma DeviceMoves(st: StripState, d: Device, net: Network, show: real -> string, sha: seq<byte> -> Digest)
    requires Portable(st, net) && d.width > 0.0 && d.height > 0.0
    ensures Resumed(Suspended(st, d, show, sha), Fresh(d.width, d.height), net) == Ok(Moved(st, d.width, d.height))
  {
    SuspendedImage(st, d, show, sha);
    ResumeMoves(st, d.width, d.height, d.created, net, show, sha);
  }

  /** A network that delivers every request in one piece makes an open way. */
  lemma WholeWayOpen(host: string, port: nat, bare: bool)
    requires '/' !in host && port < PORT_LIMIT
    ensures exists split :: Open(Way(host, port, bare, split))
  {
    var split: Splitting := r => [r];
    forall request: seq<byte> | request != [] ensures Faithful(split, request) {
      WholeDelivery(split, request);
    }
    assert Open(Way(host, port, bare, split));
  }

  // ---- sessions in use between the hops ----

  /** A life of a session, and the way its image takes to the next one. */
  datatype Stay = Stay(life: Life, way: Way)

  function LivesOf(stays: seq<Stay>): seq<Life> { seq(|stays|, i requires 0 <= i < |stays| => stays[i].life) }

  /** Restore, use, suspend, serve and fetch, over and over. */
  function ServedLives(img: SessionImage, stays: seq<Stay>, show: real -> string, scan: string -> Option<real>,
                       sha: seq<byte> -> Digest): Result<SessionImage, RelayError>
    decreases |stays|
  {
    if stays == [] then Ok(img)
    else
      match Lived(img, stays[0].life)
      case Err(e) => Err(NotResumed(e))
      case Ok(st) =>
        match Fetched(ImageFromStrip(st, stays[0].life.created, show, sha), stays[0].way, show, scan, sha)
        case Err(e) => Err(NotFetched(e))
        case Ok(next) => ServedLives(next, stays[1..], show, scan, sha)
  }

  /** The ways are open, and what is suspended has trimmed texts and a position the float layer carries. */
  ghost predicate Carryable(img: SessionImage, stays: seq<Stay>, show: real -> string, scan: string -> Option<real>,
                            sha: seq<byte> -> Digest)
    decreases |stays|
  {
    stays == []
    || (Open(stays[0].way)
        && (var r := Lived(img, stays[0].life);
            r.Ok? ==> TrimmedStrip(r.value.surfaces) && Prints(show, scan, r.value.scrollPos)
                      && Carryable(ImageFromStrip(r.value, stays[0].life.created, show, sha), stays[1..], show, scan,
                                   sha)))
  }

  /** The served run and the one in which images are handed over, to be the same. */
  predicate SameEnd(r: Result<SessionImage, RelayError>, j: Result<SessionImage, ConnectError>) {
    if j.Ok? then r == Ok(j.value) else r == Err(NotResumed(j.error))
  }

  lemma LifeInOrder(img: SessionImage, life: Life)
    requires Numbered(img.surfaces) && Lived(img, life).Ok? && forall op :: op in life.ops ==> !op.OpInsert?
    requires |Lived(img, life).value.surfaces| <= U32_LIMIT
    ensures var st := Lived(img, life).value;
            Sorting.SortedBy(st.surfaces, StripModel.OrderOf) && Numbered(Entries(st.surfaces))
  {
    var st := Lived(img, life).value;
    RestoredRunKeepsPlaces(img, life.width, life.height, life.net, life.ops);
    hide Numbered, InPlace, Sorting.SortedBy, RunOps, Resumed;
    InPlaceSorted(st.surfaces);
    InPlaceNumbered(st.surfaces);
  }

  lemma FirstLife(stays: seq<Stay>)
    requires stays != []
    ensures LivesOf(stays) != [] && LivesOf(stays)[0] == stays[0].life && LivesOf(stays)[1..] == LivesOf(stays[1..])
  {
  }

  /**
   * Over any chain of restores, use and suspends, images that are written, served, fetched and checked
   * between the lives arrive as if they had been handed over: once numbered, a session never gets out
   * of the order the text form keeps.
   */
  lemma {:induction false} ServedLivesAreLives(img: SessionImage, stays: seq<Stay>, show: real -> string,
                                               scan: string -> Option<real>, sha: seq<byte> -> Digest)
    requires Numbered(img.surfaces) && Ordinary(img, LivesOf(stays), show, sha)
             && Carryable(img, stays, show, scan, sha)
    ensures SameEnd(ServedLives(img, stays, show, scan, sha), Lives(img, LivesOf(stays), show, sha))
    decreases |stays|
  {
    if stays != [] {
      FirstLife(stays);
      var life, way := stays[0].life, stays[0].way;
      hide Numbered, Lived, Prints, TrimmedStrip, Open, Fetched, LivesOf, ImageFromStrip, Sorting.SortedBy, Entries;
      var r := Lived(img, life);
      if r.Ok? {
        var shot := ImageFromStrip(r.value, life.created, show, sha);
        LifeInOrder(img, life);
        StripFetched(r.value, life.created, way, show, scan, sha);
        ImageEntries(r.value, life.created, show, sha);
        ServedLivesAreLives(shot, stays[1..], show, scan, sha);
      }
    }
  }

  lemma ImageEntries(st: StripState, created: string, show: real -> string, sha: seq<byte> -> Digest)
    ensures ImageFromStrip(st, created, show, sha).surfaces == Entries(st.surfaces)
  {
  }

  // ---- a session nobody can fetch ----

  /** A host whose machine name begins with a space. */
  function SpacedHost(): SurfaceAnnounce {
    SurfaceAnnounce(seq(32, _ => 7), "desk", 960, 540, H265, HostProvenance(Linux, " m", "127.0.0.1", "display:0"))
  }

  const HOST_ADDRESS := "127.0.0.1:7001"

  function SpacedNetwork(): Network { Network(text => Some(text), addr => Some(SpacedHost())) }

  /** The live session of that one host. */
  function SpacedSession(): Result<StripState, ConnectError> {
    Connected(Fresh(1280.0, 720.0), [HOST_ADDRESS], SpacedNetwork())
  }

  lemma SpacedStrip()
    ensures SpacedSession().Ok?
    ensures var st := SpacedSession().value;
            |st.surfaces| == 1 && st.scrollPos == 0.0 && Announced(st.surfaces[0]) == SpacedHost()
  {
    LivePlacement(Fresh(1280.0, 720.0), [HOST_ADDRESS], SpacedNetwork());
    assert [HOST_ADDRESS][0] == HOST_ADDRESS;
    var st := SpacedSession().value;
    assert Announced(st.surfaces[0 + 0]) == SpacedHost();
  }

  lemma SpacedUntrimmed()
    ensures SpacedSession().Ok? && !TrimmedStrip(SpacedSession().value.surfaces)
            && SpacedSession().value.scrollPos == 0.0
  {
    SpacedStrip();
    SpacedText();
    hide SpacedSession, TrimmedText;
    var st := SpacedSession().value;
    assert !TrimmedText(st.surfaces[0].provenance.machineName);
  }

  lemma SpacedText()
    ensures !TrimmedText(" m")
  {
    assert " m"[1..] == "m" && |TrimStart(" m")| <= 1;
  }

  /**
   * A strip that is out of order or has edge whitespace in its texts is served, its URL names it, and the
   * fetch ends in the integrity check.
   */
  lemma UnstorableUnfetchable(st: StripState, created: string, way: Way, show: real -> string,
                              scan: string -> Option<real>, sha: seq<byte> -> Digest)
    requires !(Sorting.SortedBy(st.surfaces, StripModel.OrderOf) && TrimmedStrip(st.surfaces))
    requires Prints(show, scan, st.scrollPos) && Open(way)
    requires Unconfused(ImageFromStrip(st, created, show, sha), show, sha)
    ensures var img := ImageFromStrip(st, created, show, sha);
            !Storable(img) && Fetched(img, way, show, scan, sha).Err?
            && Fetched(img, way, show, scan, sha).error.WrongImage?
  {
    var img := ImageFromStrip(st, created, show, sha);
    StorableStrip(st, created, show, sha);
    SameComputedId(st, created, show, sha);
    hide Storable, Prints, TrimmedStrip, ImageFromStrip, Unconfused, Open, Fetched, Sorting.SortedBy, ComputeId;
    FetchedExact(img, way, show, scan, sha);
  }

  lemma SameComputedId(st: StripState, created: string, show: real -> string, sha: seq<byte> -> Digest)
    ensures var img := ImageFromStrip(st, created, show, sha); img.id == Some(ComputeId(img, show, sha))
    ensures ImageFromStrip(st, created, show, sha).layout.scrollPos == st.scrollPos
  {
    assert CanonicalText(ImageFromStrip(st, created, show, sha), show) == CanonicalText(Snapshot(st, created), show);
  }

  lemma ZeroPrints(show: real -> string, scan: string -> Option<real>)
    requires scan("0") == Some(0.0)
    ensures Prints(show, scan, 0.0)
  {
  }

  /** The image of a host that spells its machine name with a leading space. */
  function SpacedImage(created: string, show: real -> string, sha: seq<byte> -> Digest): SessionImage
    requires SpacedSession().Ok?
  {
    ImageFromStrip(SpacedSession().value, created, show, sha)
  }

  lemma SpacedVerifies(created: string, show: real -> string, sha: seq<byte> -> Digest)
    ensures SpacedSession().Ok? && Verify(SpacedImage(created, show, sha), show, sha).Ok?
  {
    SpacedUntrimmed();
    hide SpacedSession, ImageFromStrip, Verify;
    StripVerifies(SpacedSession().value, created, show, sha);
  }

  /**
   * A session the code can be given and nobody can fetch: one host with a space before its machine name.
   * Its image verifies, and every fetch of it under its own URL ends in the integrity check.
   */
  lemma SpacedSessionUnfetchable(created: string, way: Way, show: real -> string, scan: string -> Option<real>,
                                 sha: seq<byte> -> Digest)
    requires scan("0") == Some(0.0) && Open(way)
    requires SpacedSession().Ok? ==> Unconfused(SpacedImage(created, show, sha), show, sha)
    ensures SpacedSession().Ok?
    ensures var img := SpacedImage(created, show, sha);
            && !Storable(img) && Verify(img, show, sha).Ok?
            && Fetched(img, way, show, scan, sha).Err? && Fetched(img, way, show, scan, sha).error.WrongImage?
  {
    SpacedUntrimmed();
    SpacedVerifies(created, show, sha);
    ZeroPrints(show, scan);
    hide TrimmedStrip, SpacedSession, Fetched, Storable, Unconfused, Prints, Verify, ComputeId, ImageFromStrip, Open;
    SameComputedId(SpacedSession().value, created, show, sha);
    UnstorableUnfetchable(SpacedSession().value, created, way, show, scan, sha);
  }

  // ---- a session out of order ----

  /** Appending keeps a strip in order exactly when the last order is not beyond the new place. */
  lemma AppendInOrder(st: StripState, s: Surface)
    requires Sorting.SortedBy(st.surfaces, StripModel.OrderOf)
    ensures Sorting.SortedBy(Append(st, s).surfaces, StripModel.OrderOf) <==>
            st.surfaces == [] || st.surfaces[|st.surfaces| - 1].order <= AsU32(|st.surfaces|)
  {
    var ss, t, n := st.surfaces, Append(st, s).surfaces, |st.surfaces|;
    assert forall i :: 0 <= i < n ==> t[i] == ss[i];
    assert t[n].order == AsU32(n);
    if ss != [] {
      assert Sorting.SortedBy(t, StripModel.OrderOf) ==>
        StripModel.OrderOf(t[n - 1]) <= StripModel.OrderOf(t[n]);
      if ss[n - 1].order <= AsU32(n) {
        forall i, j | 0 <= i < j < |t| ensures StripModel.OrderOf(t[i]) <= StripModel.OrderOf(t[j]) {
          assert i < n - 1 ==> StripModel.OrderOf(ss[i]) <= StripModel.OrderOf(ss[n - 1]);
          assert j < n ==> StripModel.OrderOf(ss[i]) <= StripModel.OrderOf(ss[j]);
        }
      }
    }
  }

  /** An image of two surfaces with a gap between their orders. */
  function GapImage(): SessionImage {
    SessionImage(None, "", 1, [PlainEntry(0), PlainEntry(5)], Layout(0.0, None))
  }

  function PlainEntry(order: u32): SurfaceEntry {
    SurfaceEntry(PlainHost().id, "desk", order, HostEntry(HOST_ADDRESS, Linux, "m", "display:0"), H265, 960, 540)
  }

  function PlainHost(): SurfaceAnnounce {
    SurfaceAnnounce(seq(32, _ => 7), "desk", 960, 540, H265, HostProvenance(Linux, "m", "127.0.0.1", "display:0"))
  }

  function PlainNetwork(): Network { Network(text => Some(text), addr => Some(PlainHost())) }

  /** That image restored, and one more host appended. */
  function GapStrip(): StripState
    requires Resumed(GapImage(), Fresh(1280.0, 720.0), PlainNetwork()).Ok?
  {
    Append(Resumed(GapImage(), Fresh(1280.0, 720.0), PlainNetwork()).value,
           SurfaceFromAnnounce(PlainHost(), HOST_ADDRESS, 1280.0, 720.0))
  }

  lemma TwoOrders(ss: seq<Surface>, es: seq<SurfaceEntry>)
    requires Sorting.SortedBy(ss, StripModel.OrderOf) && es == [PlainEntry(0), PlainEntry(5)]
    requires multiset(Orders(ss)) == multiset(EntryOrders(es))
    ensures |ss| == 2 && ss[1].order == 5
  {
    var o, w := Orders(ss), EntryOrders(es);
    assert w == [0, 5];
    Sorting.PermutedNoDup(o, w);
    assert o[0] in w && o[1] in w && 5 in o;
    assert StripModel.OrderOf(ss[0]) <= StripModel.OrderOf(ss[1]);
    hide PlainEntry;
  }

  lemma AtStart(st: StripState)
    ensures SetScroll(st, 0.0).scrollPos == 0.0 && SetScroll(st, 0.0).surfaces == st.surfaces
  {
  }

  lemma GapRestored()
    ensures var r := Resumed(GapImage(), Fresh(1280.0, 720.0), PlainNetwork());
            && r.Ok? && r.value.scrollPos == 0.0 && Sorting.SortedBy(r.value.surfaces, StripModel.OrderOf)
            && |r.value.surfaces| == 2 && r.value.surfaces[1].order == 5
  {
    var es, empty := GapImage().surfaces, Fresh(1280.0, 720.0);
    var back := Reconnected(empty, es, PlainNetwork());
    ResumeFailsFirst(empty, es, PlainNetwork());
    assert back.Ok?;
    ReconnectedOrders(empty, es, PlainNetwork());
    assert Orders(empty.surfaces) == [];
    AtStart(back.value);
    hide Reconnected, PlainNetwork, SetScroll, Orders, EntryOrders, Sorting.SortedBy, PlainEntry;
    TwoOrders(back.value.surfaces, es);
  }

  /**
   * A session that falls out of order: restored with a gap between its orders and extended by one host,
   * its image verifies, and every fetch of it under its own URL ends in the integrity check.
   */
  lemma GapSessionUnfetchable(created: string, way: Way, show: real -> string, scan: string -> Option<real>,
                              sha: seq<byte> -> Digest)
    requires scan("0") == Some(0.0) && Open(way)
    requires Resumed(GapImage(), Fresh(1280.0, 720.0), PlainNetwork()).Ok? ==>
               Unconfused(ImageFromStrip(GapStrip(), created, show, sha), show, sha)
    ensures Resumed(GapImage(), Fresh(1280.0, 720.0), PlainNetwork()).Ok?
    ensures var img := ImageFromStrip(GapStrip(), created, show, sha);
            && !Storable(img) && Verify(img, show, sha).Ok?
            && Fetched(img, way, show, scan, sha).Err? && Fetched(img, way, show, scan, sha).error.WrongImage?
  {
    GapRestored();
    GapUnordered();
    StripVerifies(GapStrip(), created, show, sha);
    ZeroPrints(show, scan);
    hide TrimmedStrip, Fetched, Storable, Unconfused, Prints, Verify, ImageFromStrip, Open, GapStrip, Resumed,
      Sorting.SortedBy;
    UnstorableUnfetchable(GapStrip(), created, way, show, scan, sha);
  }

  lemma GapUnordered()
    ensures Resumed(GapImage(), Fresh(1280.0, 720.0), PlainNetwork()).Ok?
    ensures !Sorting.SortedBy(GapStrip().surfaces, StripModel.OrderOf) && GapStrip().scrollPos == 0.0
  {
    GapRestored();
    var st := Resumed(GapImage(), Fresh(1280.0, 720.0), PlainNetwork()).value;
    hide Resumed, GapImage, Sorting.SortedBy, PlainHost;
    AppendInOrder(st, SurfaceFromAnnounce(PlainHost(), HOST_ADDRESS, 1280.0, 720.0));
  }

  lemma StripVerifies(st: StripState, created: string, show: real -> string, sha: seq<byte> -> Digest)
    ensures Verify(ImageFromStrip(st, created, show, sha), show, sha).Ok?
  {
    hide ImageFromStrip, ComputeId;
    SameComputedId(st, created, show, sha);
  }
}
