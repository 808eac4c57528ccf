/**
 * Moving a session between devices: the image a strip is suspended to, the strip an image is resumed
 * to, and what a chain of such moves keeps.
 */
module Migration {
  import opened Wrappers
  import opened Text
  import opened Session
  import opened Messages
  import opened StripModel
  import opened StripClass
  import SessionLaws
  import Sorting

  // ---- suspend ----

  function EntryOf(s: Surface): SurfaceEntry {
    SurfaceEntry(s.id, s.name, s.order,
                 HostEntry(s.hostAddr, s.provenance.os, s.provenance.machineName, s.provenance.captureDescription),
                 s.codec, s.sourceWidth, s.sourceHeight)
  }

  function Entries(ss: seq<Surface>): seq<SurfaceEntry> {
    seq(|ss|, i requires 0 <= i < |ss| => EntryOf(ss[i]))
  }

  function Snapshot(st: StripState, created: string): SessionImage {
    SessionImage(None, created, SCHEMA_VERSION, Entries(st.surfaces), Layout(st.scrollPos, st.focus))
  }

  function ImageFromStrip(st: StripState, created: string, show: real -> string,
                          sha: seq<byte> -> Digest): SessionImage {
    WithComputedId(Snapshot(st, created), show, sha)
  }

  // ---- connecting hosts ----

  /**
   * The network a compositor sees: the canonical text of the socket address a string names, and what
   * the host at an address announces; None where there is no such address or no such host.
   */
  datatype Network = Network(resolve: string -> Option<string>, dial: string -> Option<SurfaceAnnounce>)

  datatype ConnectError = BadAddress(text: string) | Unreachable(addr: string)

  function SurfaceFromAnnounce(a: SurfaceAnnounce, addr: string, viewportWidth: real, viewportHeight: real): Surface {
    Surface(a.id, a.name, 0, viewportWidth / 3.0, viewportHeight, a.width, a.height, a.codec, a.provenance, addr, None,
            0)
  }

  /** The strip after connecting to each host in turn. */
  function Connected(st: StripState, hosts: seq<string>, net: Network): Result<StripState, ConnectError>
    decreases |hosts|
  {
    if hosts == [] then Ok(st)
    else
      var a :- OkOr(net.dial(hosts[0]), Unreachable(hosts[0]));
      Connected(Append(st, SurfaceFromAnnounce(a, hosts[0], st.viewportWidth, st.viewportHeight)), hosts[1..], net)
  }

  /** Connect to each host and append its surface. */
  method ConnectLive(strip: Strip, hosts: seq<string>, net: Network) returns (r: Result<(), ConnectError>)
    modifies strip
    ensures var spec := Connected(old(strip.State()), hosts, net);
            if spec.Ok? then r.Ok? && strip.State() == spec.value else r == Err(spec.error)
  {
    ghost var spec := Connected(strip.State(), hosts, net);
    for i := 0 to |hosts|
      invariant spec == Connected(strip.State(), hosts[i..], net)
    {
      var a := net.dial(hosts[i]);
      if a.None? { return Err(Unreachable(hosts[i])); }
      var surface := SurfaceFromAnnounce(a.value, hosts[i], strip.viewportWidth, strip.viewportHeight);
      var order := strip.Append(surface);
      assert hosts[i..][1..] == hosts[i + 1..];
    }
    return Ok(());
  }

  // ---- resume ----

  /** The surface an entry comes back as: the host's announcement, placed where the image says. */
  function Restored(e: SurfaceEntry, a: SurfaceAnnounce, addr: string, st: StripState): Surface {
    SurfaceFromAnnounce(a, addr, st.viewportWidth, st.viewportHeight).(order := e.order)
  }

  function Reconnected(st: StripState, es: seq<SurfaceEntry>, net: Network): Result<StripState, ConnectError>
    decreases |es|
  {
    if es == [] then Ok(st)
    else
      var addr :- OkOr(net.resolve(es[0].host.address), BadAddress(es[0].host.address));
      var a :- OkOr(net.dial(addr), Unreachable(addr));
      Reconnected(InsertOrdered(st, Restored(es[0], a, addr, st)), es[1..], net)
  }

  function Resumed(img: SessionImage, st: StripState, net: Network): Result<StripState, ConnectError> {
    var back :- Reconnected(st, img.surfaces, net);
    Ok(SetFocusOpt(SetScroll(back, img.layout.scrollPos), img.layout.focus))
  }

  /** Reconnect every surface's host in image order, then restore scroll position and focus. */
  method Resume(strip: Strip, img: SessionImage, net: Network) returns (r: Result<(), ConnectError>)
    modifies strip
    ensures var spec := Resumed(img, old(strip.State()), net);
            if spec.Ok? then r.Ok? && strip.State() == spec.value else r == Err(spec.error)
  {
    var es := img.surfaces;
    ghost var spec := Reconnected(strip.State(), es, net);
    for i := 0 to |es|
      invariant spec == Reconnected(strip.State(), es[i..], net)
    {
      var addr := net.resolve(es[i].host.address);
      if addr.None? { return Err(BadAddress(es[i].host.address)); }
      var a := net.dial(addr.value);
      if a.None? { return Err(Unreachable(addr.value)); }
      var surface := SurfaceFromAnnounce(a.value, addr.value, strip.viewportWidth, strip.viewportHeight);
      surface := surface.(order := es[i].order);
      strip.InsertOrdered(surface);
      assert es[i..][1..] == es[i + 1..];
    }
    strip.SetScroll(img.layout.scrollPos);
    strip.SetFocusOpt(img.layout.focus);
    return Ok(());
  }

  /** Why this entry cannot be reconnected, if it cannot. */
  function Obstacle(e: SurfaceEntry, net: Network): Option<ConnectError> {
    var addr := net.resolve(e.host.address);
    if addr.None? then Some(BadAddress(e.host.address))
    else if net.dial(addr.value).None? then Some(Unreachable(addr.value))
    else None
  }

  /** Resume succeeds exactly when every entry can be reconnected, and otherwise reports the first that cannot. */
  lemma {:induction false} ResumeFailsFirst(st: StripState, es: seq<SurfaceEntry>, net: Network)
    ensures match Reconnected(st, es, net)
            case Ok(_) => forall i :: 0 <= i < |es| ==> Obstacle(es[i], net).None?
            case Err(e) =>
              exists i :: 0 <= i < |es| && Obstacle(es[i], net) == Some(e)
                          && forall j :: 0 <= j < i ==> Obstacle(es[j], net).None?
    decreases |es|
  {
    if es != [] && Obstacle(es[0], net).None? {
      var addr := net.resolve(es[0].host.address).value;
      var st1 := InsertOrdered(st, Restored(es[0], net.dial(addr).value, addr, st));
      ResumeFailsFirst(st1, es[1..], net);
      var r := Reconnected(st1, es[1..], net);
      assert Reconnected(st, es, net) == r;
      if r.Err? {
        var i :| 0 <= i < |es[1..]| && Obstacle(es[1..][i], net) == Some(r.error)
                 && forall j :: 0 <= j < i ==> Obstacle(es[1..][j], net).None?;
        assert es[i + 1] == es[1..][i];
        forall j | 0 <= j < i + 1 ensures Obstacle(es[j], net).None? {
          if j > 0 { assert es[j] == es[1..][j - 1]; }
        }
      }
    }
  }

  // ---- what a live session looks like ----

  function Announced(s: Surface): SurfaceAnnounce {
    SurfaceAnnounce(s.id, s.name, s.sourceWidth, s.sourceHeight, s.codec, s.provenance)
  }

  /** Every surface has the width a fresh surface gets. */
  ghost predicate EqualWidths(ss: seq<Surface>, viewportWidth: real) {
    forall i :: 0 <= i < |ss| ==> ss[i].width == viewportWidth / 3.0
  }

  /**
   * Live placement: when every host answers, the strip holds one surface a host in the order given,
   * each numbered by its place, a third of the viewport wide; otherwise the first silent host is named.
   */
  lemma {:induction false} LivePlacement(st: StripState, hosts: seq<string>, net: Network)
    requires st.viewportWidth > 0.0 && st.viewportHeight > 0.0 && InPlace(st.surfaces)
             && EqualWidths(st.surfaces, st.viewportWidth)
    ensures var r := Connected(st, hosts, net);
            match r
            case Ok(t) =>
              && t == st.(surfaces := t.surfaces) && |t.surfaces| == |st.surfaces| + |hosts|
              && st.surfaces <= t.surfaces && InPlace(t.surfaces) && EqualWidths(t.surfaces, t.viewportWidth)
              && (forall i :: 0 <= i < |hosts| ==>
                    var s := t.surfaces[|st.surfaces| + i];
                    s.hostAddr == hosts[i] && net.dial(hosts[i]) == Some(Announced(s)))
            case Err(e) =>
              exists i :: 0 <= i < |hosts| && net.dial(hosts[i]).None? && e == Unreachable(hosts[i])
                          && forall j :: 0 <= j < i ==> net.dial(hosts[j]).Some?
    decreases |hosts|
  {
    if hosts != [] && net.dial(hosts[0]).Some? {
      var s := SurfaceFromAnnounce(net.dial(hosts[0]).value, hosts[0], st.viewportWidth, st.viewportHeight);
      var st1 := Append(st, s);
      LivePlacement(st1, hosts[1..], net);
      var r := Connected(st1, hosts[1..], net);
      assert Connected(st, hosts, net) == r;
      if r.Ok? {
        forall i | 0 <= i < |hosts|
          ensures var s := r.value.surfaces[|st.surfaces| + i];
                  s.hostAddr == hosts[i] && net.dial(hosts[i]) == Some(Announced(s))
        {
          if i == 0 {
            assert st1.surfaces[|st.surfaces|] == r.value.surfaces[|st.surfaces|];
          } else {
            assert hosts[i] == hosts[1..][i - 1];
          }
        }
      } else {
        var i :| 0 <= i < |hosts[1..]| && net.dial(hosts[1..][i]).None? && r.error == Unreachable(hosts[1..][i])
                 && forall j :: 0 <= j < i ==> net.dial(hosts[1..][j]).Some?;
        assert hosts[i + 1] == hosts[1..][i];
        forall j | 0 <= j < i + 1 ensures net.dial(hosts[j]).Some? {
          if j > 0 { assert hosts[j] == hosts[1..][j - 1]; }
        }
      }
    } else if hosts != [] {
      assert net.dial(hosts[0]).None?;
    }
  }

  /** The entry names what the host at `addr` announced, at the given place. */
  predicate Describes(e: SurfaceEntry, a: SurfaceAnnounce, addr: string, place: nat) {
    && e.id == a.id && e.name == a.name && e.codec == a.codec && e.width == a.width && e.height == a.height
    && e.host.address == addr && e.host.os == a.provenance.os && e.host.machine == a.provenance.machineName
    && e.host.capture == a.provenance.captureDescription && e.order == AsU32(place)
  }

  lemma EntriesDescribe(ss: seq<Surface>, hosts: seq<string>, net: Network)
    requires |ss| == |hosts| && InPlace(ss)
    requires forall i :: 0 <= i < |hosts| ==> ss[i].hostAddr == hosts[i] && net.dial(hosts[i]) == Some(Announced(ss[i]))
    ensures forall i :: 0 <= i < |hosts| ==> Describes(Entries(ss)[i], net.dial(hosts[i]).value, hosts[i], i)
  {
  }

  /** The image of a live session records, host by host, where each one is and what it announced. */
  lemma ImageRecordsHosts(w: real, h: real, hosts: seq<string>, net: Network, created: string,
                          show: real -> string, sha: seq<byte> -> Digest)
    requires w > 0.0 && h > 0.0 && Connected(Fresh(w, h), hosts, net).Ok?
    ensures var img := ImageFromStrip(Connected(Fresh(w, h), hosts, net).value, created, show, sha);
            && |img.surfaces| == |hosts| && img.created == created && Verify(img, show, sha).Ok?
            && forall i :: 0 <= i < |hosts| ==>
                 net.dial(hosts[i]).Some? && Describes(img.surfaces[i], net.dial(hosts[i]).value, hosts[i], i)
  {
    LivePlacement(Fresh(w, h), hosts, net);
    var ss := Connected(Fresh(w, h), hosts, net).value.surfaces;
    var shot := Snapshot(Connected(Fresh(w, h), hosts, net).value, created);
    hide Connected, InPlace, EqualWidths, Describes, Announced, ComputeId, Verify, Entries;
    forall i | 0 <= i < |hosts| ensures ss[i].hostAddr == hosts[i] && net.dial(hosts[i]) == Some(Announced(ss[i])) {
      assert ss[0 + i] == ss[i];
    }
    EntriesDescribe(ss, hosts, net);
    SessionLaws.VerifyOnlyComputedId(shot, Some(ComputeId(shot, show, sha)), show, sha);
  }

  // ---- one move ----

  /** Each surface's host is still at its address and announces what it announced before. */
  ghost predicate HostsUnchanged(ss: seq<Surface>, net: Network) {
    forall i :: 0 <= i < |ss| ==>
      net.resolve(ss[i].hostAddr) == Some(ss[i].hostAddr) && net.dial(ss[i].hostAddr) == Some(Announced(ss[i]))
  }

  /** A surface as it looks on a new device: same content and place, that device's default size. */
  function Refit(s: Surface, w: real, h: real): Surface {
    s.(width := w / 3.0, height := h, lastPts := None, framesReceived := 0)
  }

  function Refitted(ss: seq<Surface>, w: real, h: real): seq<Surface> {
    seq(|ss|, i requires 0 <= i < |ss| => Refit(ss[i], w, h))
  }

  /** Reconnecting the entries of surfaces in order of position puts them all back, in order. */
  lemma {:induction false} ReconnectAll(ss: seq<Surface>, i: nat, st: StripState, net: Network)
    requires i <= |ss| && HostsUnchanged(ss, net) && Sorting.SortedBy(ss, OrderOf)
    requires st.surfaces == Refitted(ss[..i], st.viewportWidth, st.viewportHeight)
    ensures Reconnected(st, Entries(ss)[i..], net)
         == Ok(st.(surfaces := Refitted(ss, st.viewportWidth, st.viewportHeight)))
    decreases |ss| - i
  {
    var w, h := st.viewportWidth, st.viewportHeight;
    if i == |ss| {
      assert ss[..i] == ss;
    } else {
      hide Reconnected, Entries, Refitted, HostsUnchanged, Sorting.SortedBy;
      ReconnectStep(ss, i, st, net);
      ReconnectAll(ss, i + 1, st.(surfaces := Refitted(ss[..i + 1], w, h)), net);
    }
  }

  lemma ReconnectStep(ss: seq<Surface>, i: nat, st: StripState, net: Network)
    requires i < |ss| && HostsUnchanged(ss, net) && Sorting.SortedBy(ss, OrderOf)
    requires st.surfaces == Refitted(ss[..i], st.viewportWidth, st.viewportHeight)
    ensures Reconnected(st, Entries(ss)[i..], net)
         == Reconnected(st.(surfaces := Refitted(ss[..i + 1], st.viewportWidth, st.viewportHeight)),
                        Entries(ss)[i + 1..], net)
  {
    var s := Refit(ss[i], st.viewportWidth, st.viewportHeight);
    assert Entries(ss)[i..][0] == EntryOf(ss[i]) && Entries(ss)[i..][1..] == Entries(ss)[i + 1..];
    assert Restored(EntryOf(ss[i]), Announced(ss[i]), ss[i].hostAddr, st) == s;
    Sorting.SortAppendLargest(st.surfaces, s, OrderOf);
    assert st.surfaces + [s] == Refitted(ss[..i + 1], st.viewportWidth, st.viewportHeight);
    hide Entries, Refitted, Refit, Restored, Sorting.SortedBy, Sorting.StableSort, Announced;
  }

  /** How far `n` surfaces of default width scroll on a viewport. */
  function DefaultMaxScroll(n: nat, w: real): real { Max(n as real * (w / 3.0) - w, 0.0) }

  lemma {:induction false} EqualLeft(ss: seq<Surface>, w: real, i: nat)
    requires i <= |ss| && EqualWidths(ss, w)
    ensures Left(ss, i) == i as real * (w / 3.0)
  {
    if i > 0 {
      EqualLeft(ss, w, i - 1);
      assert i as real * (w / 3.0) == (i - 1) as real * (w / 3.0) + w / 3.0;
    }
  }

  lemma EqualMaxScroll(ss: seq<Surface>, w: real)
    requires EqualWidths(ss, w)
    ensures MaxScroll(ss, w) == DefaultMaxScroll(|ss|, w)
  {
    EqualLeft(ss, w, |ss|);
  }

  /** The strip a session comes back as on a device with an empty `w` by `h` strip. */
  function Moved(st: StripState, w: real, h: real): StripState {
    StripState(Refitted(st.surfaces, w, h), Min(st.scrollPos, DefaultMaxScroll(|st.surfaces|, w)), w, h, st.focus)
  }

  /**
   * One suspend and resume: the strip comes back with the same surfaces, orders and focus at the new
   * device's sizes, scrolled as far as before or as far as the device allows.
   */
  lemma ResumeMoves(st: StripState, w: real, h: real, created: string, net: Network,
                    show: real -> string, sha: seq<byte> -> Digest)
    requires Good(st) && Sorting.SortedBy(st.surfaces, OrderOf) && HostsUnchanged(st.surfaces, net)
    requires w > 0.0 && h > 0.0
    ensures Resumed(ImageFromStrip(st, created, show, sha), Fresh(w, h), net) == Ok(Moved(st, w, h))
  {
    var ss := st.surfaces;
    assert ss[..0] == [] && Entries(ss)[0..] == Entries(ss);
    assert Refitted(ss[..0], w, h) == [];
    ReconnectAll(ss, 0, Fresh(w, h), net);
    EqualMaxScroll(Refitted(ss, w, h), w);
    RefittedPresent(st, w, h);
    assert 0.0 <= st.scrollPos;
    hide Refitted, Entries, MaxScroll, DefaultMaxScroll, ComputeId, Reconnected, SetScroll, SetFocusOpt, Good;
    LayoutRestored(Fresh(w, h).(surfaces := Refitted(ss, w, h)), st.scrollPos, st.focus);
  }

  /** Restoring a scroll position and a focus that is there. */
  lemma LayoutRestored(st: StripState, pos: real, focus: Option<SurfaceId>)
    requires 0.0 <= pos && (focus.Some? ==> Present(st.surfaces, focus.value))
    ensures SetFocusOpt(SetScroll(st, pos), focus)
         == st.(scrollPos := Min(pos, MaxScroll(st.surfaces, st.viewportWidth)), focus := focus)
  {
    assert MaxScroll(st.surfaces, st.viewportWidth) >= 0.0;
    hide MaxScroll, Present;
  }

  lemma RefittedPresent(st: StripState, w: real, h: real)
    requires Good(st)
    ensures st.focus.Some? ==> Present(Refitted(st.surfaces, w, h), st.focus.value)
  {
    if st.focus.Some? {
      var i :| 0 <= i < |st.surfaces| && st.surfaces[i].id == st.focus.value;
      assert Refitted(st.surfaces, w, h)[i].id == st.focus.value;
    }
  }

  lemma MovedGood(st: StripState, w: real, h: real)
    requires Good(st) && w > 0.0 && h > 0.0
    ensures Good(Moved(st, w, h)) && EqualWidths(Moved(st, w, h).surfaces, w)
    ensures Entries(Moved(st, w, h).surfaces) == Entries(st.surfaces)
    ensures Sorting.SortedBy(st.surfaces, OrderOf) ==> Sorting.SortedBy(Moved(st, w, h).surfaces, OrderOf)
  {
    var t := Moved(st, w, h);
    EqualMaxScroll(t.surfaces, w);
    if st.focus.Some? {
      var i :| 0 <= i < |st.surfaces| && st.surfaces[i].id == st.focus.value;
      assert t.surfaces[i].id == st.focus.value;
    }
  }

  lemma MovedHosts(st: StripState, w: real, h: real, net: Network)
    ensures HostsUnchanged(Moved(st, w, h).surfaces, net) <==> HostsUnchanged(st.surfaces, net)
  {
    var ss := Moved(st, w, h).surfaces;
    assert forall i :: 0 <= i < |ss| ==>
      Announced(ss[i]) == Announced(st.surfaces[i]) && ss[i].hostAddr == st.surfaces[i].hostAddr;
    if HostsUnchanged(ss, net) {
      forall i | 0 <= i < |ss|
        ensures net.resolve(st.surfaces[i].hostAddr) == Some(st.surfaces[i].hostAddr)
             && net.dial(st.surfaces[i].hostAddr) == Some(Announced(st.surfaces[i]))
      {
        assert ss[i].hostAddr == st.surfaces[i].hostAddr;
      }
    }
  }

  /**
   * Exactly when the device can scroll as far does the move restore the scroll position, and then a
   * second suspend writes the same image, under the same id.
   */
  lemma MoveRestoresExactly(st: StripState, w: real, h: real, created: string, show: real -> string,
                            sha: seq<byte> -> Digest)
    requires Good(st) && w > 0.0 && h > 0.0
    ensures Moved(st, w, h).scrollPos == st.scrollPos <==> st.scrollPos <= DefaultMaxScroll(|st.surfaces|, w)
    ensures st.scrollPos <= DefaultMaxScroll(|st.surfaces|, w) <==>
            ImageFromStrip(Moved(st, w, h), created, show, sha) == ImageFromStrip(st, created, show, sha)
    ensures EqualWidths(st.surfaces, st.viewportWidth) && w >= st.viewportWidth
            ==> Moved(st, w, h).scrollPos == st.scrollPos
  {
    MovedGood(st, w, h);
    if EqualWidths(st.surfaces, st.viewportWidth) && w >= st.viewportWidth {
      EqualMaxScroll(st.surfaces, st.viewportWidth);
      WiderScrollsFurther(|st.surfaces|, st.viewportWidth, w);
    }
    if ImageFromStrip(Moved(st, w, h), created, show, sha) == ImageFromStrip(st, created, show, sha) {
      assert Moved(st, w, h).scrollPos == st.scrollPos;
    }
  }

  lemma WiderScrollsFurther(n: nat, a: real, b: real)
    requires 0.0 < a <= b
    ensures DefaultMaxScroll(n, a) <= DefaultMaxScroll(n, b)
  {
  }

  // ---- restoring a numbered session ----

  function Orders(ss: seq<Surface>): seq<u32> { seq(|ss|, i requires 0 <= i < |ss| => ss[i].order) }

  function EntryOrders(es: seq<SurfaceEntry>): seq<u32> { seq(|es|, i requires 0 <= i < |es| => es[i].order) }

  /** The entries are numbered `0` to `n - 1`, in any listing order. */
  ghost predicate Numbered(es: seq<SurfaceEntry>) {
    && (forall i, j :: 0 <= i < j < |es| ==> es[i].order != es[j].order)
    && forall i :: 0 <= i < |es| ==> es[i].order < |es|
  }

  lemma OrdersSorted(ss: seq<Surface>)
    ensures multiset(Orders(Sorting.StableSort(ss, OrderOf))) == multiset(Orders(ss))
  {
    var order := (s: Surface) => s.order;
    var t := Sorting.StableSort(ss, OrderOf);
    Sorting.ProjectedSorted(ss, OrderOf, order);
    assert Orders(ss) == Sorting.Projected(ss, order) && Orders(t) == Sorting.Projected(t, order);
  }

  lemma OrdersAfterInsert(st: StripState, s: Surface)
    ensures multiset(Orders(InsertOrdered(st, s).surfaces)) == multiset(Orders(st.surfaces)) + multiset{s.order}
    ensures Sorting.SortedBy(InsertOrdered(st, s).surfaces, OrderOf)
  {
    OrdersSorted(st.surfaces + [s]);
    assert Orders(st.surfaces + [s]) == Orders(st.surfaces) + [s.order];
    Sorting.StableSortSound(st.surfaces + [s], OrderOf);
  }

  /** Reconnecting brings the orders of the entries, whatever the hosts announce, and keeps the strip sorted. */
  lemma {:induction false} ReconnectedOrders(st: StripState, es: seq<SurfaceEntry>, net: Network)
    requires Sorting.SortedBy(st.surfaces, OrderOf) && Reconnected(st, es, net).Ok?
    ensures var t := Reconnected(st, es, net).value;
            && multiset(Orders(t.surfaces)) == multiset(Orders(st.surfaces)) + multiset(EntryOrders(es))
            && Sorting.SortedBy(t.surfaces, OrderOf)
    decreases |es|
  {
    if es != [] {
      var addr := net.resolve(es[0].host.address).value;
      var s := Restored(es[0], net.dial(addr).value, addr, st);
      assert EntryOrders(es) == [es[0].order] + EntryOrders(es[1..]) && s.order == es[0].order;
      assert Reconnected(st, es, net) == Reconnected(InsertOrdered(st, s), es[1..], net);
      hide Reconnected, InsertOrdered, Restored, Orders, EntryOrders, Sorting.SortedBy;
      OrdersAfterInsert(st, s);
      ReconnectedOrders(InsertOrdered(st, s), es[1..], net);
    }
  }

  /** Distinct numbers in order leave no room: the `i`-th is at least `i`, and below the length it is `i`. */
  lemma {:induction false} Squeezed(s: seq<u32>, i: nat)
    requires i < |s| && forall j, k :: 0 <= j < k < |s| ==> s[j] < s[k]
    ensures s[i] >= i && s[|s| - 1] - s[i] >= |s| - 1 - i
    decreases |s| - i
  {
    SqueezedBelow(s, i);
    if i < |s| - 1 {
      Squeezed(s, i + 1);
      assert s[i] < s[i + 1];
    }
  }

  lemma {:induction false} SqueezedBelow(s: seq<u32>, i: nat)
    requires i < |s| && forall j, k :: 0 <= j < k < |s| ==> s[j] < s[k]
    ensures s[i] >= i
  {
    if i > 0 {
      SqueezedBelow(s, i - 1);
      assert s[i - 1] < s[i];
    }
  }

  lemma NumberedInPlace(ss: seq<Surface>, es: seq<SurfaceEntry>)
    requires Numbered(es) && Sorting.SortedBy(ss, OrderOf)
    requires multiset(Orders(ss)) == multiset(EntryOrders(es))
    ensures InPlace(ss) && |ss| == |es|
  {
    var o, w := Orders(ss), EntryOrders(es);
    Sorting.PermutedNoDup(o, w);
    assert Sorting.NoDup(w);
    forall j, k | 0 <= j < k < |o| ensures o[j] < o[k] {
      assert OrderOf(ss[j]) <= OrderOf(ss[k]);
    }
    if ss != [] {
      assert o[|o| - 1] in w;
      forall i | 0 <= i < |ss| ensures ss[i].order == AsU32(i) {
        Squeezed(o, i);
      }
    }
  }

  lemma SortedPair(ss: seq<Surface>, i: nat, j: nat)
    requires Sorting.SortedBy(ss, OrderOf) && i < j < |ss|
    ensures ss[i].order <= ss[j].order
  {
    assert OrderOf(ss[i]) <= OrderOf(ss[j]);
  }

  lemma InPlaceFits(ss: seq<Surface>)
    requires InPlace(ss) && Sorting.SortedBy(ss, OrderOf)
    ensures |ss| <= U32_LIMIT
  {
    if |ss| > U32_LIMIT {
      SortedPair(ss, 1, U32_LIMIT);
    }
  }

  lemma InPlaceIsNumbered(ss: seq<Surface>, es: seq<SurfaceEntry>)
    requires InPlace(ss) && Sorting.SortedBy(ss, OrderOf)
    requires multiset(Orders(ss)) == multiset(EntryOrders(es))
    ensures Numbered(es)
  {
    var o, w := Orders(ss), EntryOrders(es);
    InPlaceFits(ss);
    Sorting.PermutedNoDup(o, w);
    assert forall i :: 0 <= i < |o| ==> o[i] == i;
    forall i | 0 <= i < |es| ensures es[i].order < |es| {
      assert w[i] in o;
    }
    forall i, j | 0 <= i < j < |es| ensures es[i].order != es[j].order {
      assert w[i] != w[j];
    }
  }

  /**
   * A session comes back with each surface's order its place exactly when its entries are numbered `0`
   * to `n - 1`, in any listing order and whatever its hosts now announce.
   */
  lemma RestoredInPlace(img: SessionImage, w: real, h: real, net: Network)
    requires Resumed(img, Fresh(w, h), net).Ok?
    ensures InPlace(Resumed(img, Fresh(w, h), net).value.surfaces) <==> Numbered(img.surfaces)
  {
    var back := Reconnected(Fresh(w, h), img.surfaces, net).value;
    ReconnectedOrders(Fresh(w, h), img.surfaces, net);
    assert Orders([]) == [];
    if Numbered(img.surfaces) {
      NumberedInPlace(back.surfaces, img.surfaces);
    }
    if InPlace(back.surfaces) {
      InPlaceIsNumbered(back.surfaces, img.surfaces);
    }
  }

  /** Over such a restore and every run without ordered inserts after it, orders stay places. */
  lemma RestoredRunKeepsPlaces(img: SessionImage, w: real, h: real, net: Network, ops: seq<Op>)
    requires Numbered(img.surfaces) && Resumed(img, Fresh(w, h), net).Ok?
    requires forall op :: op in ops ==> !op.OpInsert?
    ensures InPlace(RunOps(Resumed(img, Fresh(w, h), net).value, ops).surfaces)
  {
    RestoredInPlace(img, w, h, net);
    RunKeepsPlaces(Resumed(img, Fresh(w, h), net).value, ops);
  }

  /** One device's part in a session: its viewport and network, what the user does, and when it is suspended. */
  datatype Life = Life(width: real, height: real, net: Network, ops: seq<Op>, created: string)

  /** The strip at the end of one life of a session. */
  function Lived(img: SessionImage, life: Life): Result<StripState, ConnectError> {
    var st :- Resumed(img, Fresh(life.width, life.height), life.net);
    Ok(RunOps(st, life.ops))
  }

  /** Restore, use, suspend, and restore again on the next device. */
  function Lives(img: SessionImage, lives: seq<Life>, show: real -> string, sha: seq<byte> -> Digest)
      : Result<SessionImage, ConnectError>
    decreases |lives|
  {
    if lives == [] then Ok(img)
    else
      var st :- Lived(img, lives[0]);
      Lives(ImageFromStrip(st, lives[0].created, show, sha), lives[1..], show, sha)
  }

  /** No life inserts by order, and no strip outgrows the order's 32 bits. */
  ghost predicate Ordinary(img: SessionImage, lives: seq<Life>, show: real -> string, sha: seq<byte> -> Digest)
    decreases |lives|
  {
    lives == []
    || ((forall op :: op in lives[0].ops ==> !op.OpInsert?)
        && (var r := Lived(img, lives[0]);
            r.Ok? ==> |r.value.surfaces| <= U32_LIMIT
                      && Ordinary(ImageFromStrip(r.value, lives[0].created, show, sha), lives[1..], show, sha)))
  }

  lemma InPlaceNumbered(ss: seq<Surface>)
    requires InPlace(ss) && |ss| <= U32_LIMIT
    ensures Numbered(Entries(ss))
  {
    var es := Entries(ss);
    assert forall i :: 0 <= i < |ss| ==> es[i].order == ss[i].order;
    hide Entries, EntryOf;
    assert forall i :: 0 <= i < |ss| ==> AsU32(i) == i;
    hide AsU32;
  }

  /** Numbered once, a session stays numbered over every chain of restores, appends, removals and the rest. */
  lemma {:induction false} LivesStayNumbered(img: SessionImage, lives: seq<Life>, show: real -> string,
                                             sha: seq<byte> -> Digest)
    requires Numbered(img.surfaces) && Ordinary(img, lives, show, sha) && Lives(img, lives, show, sha).Ok?
    ensures Numbered(Lives(img, lives, show, sha).value.surfaces)
    decreases |lives|
  {
    if lives != [] {
      var life := lives[0];
      var st := Lived(img, life).value;
      RestoredRunKeepsPlaces(img, life.width, life.height, life.net, life.ops);
      InPlaceNumbered(st.surfaces);
      LivesStayNumbered(ImageFromStrip(st, life.created, show, sha), lives[1..], show, sha);
    }
  }

  // ---- a chain of moves ----

  datatype Frame = Frame(id: SurfaceId, pts: u64)

  /** The strip after these frames have arrived. */
  function Noted(st: StripState, frames: seq<Frame>): StripState
    decreases |frames|
  {
    if frames == [] then st else Noted(NoteFrame(st, frames[0].id, frames[0].pts), frames[1..])
  }

  /** Frames leave the image as it was. */
  lemma {:induction false} FramesLeaveImage(st: StripState, frames: seq<Frame>, created: string)
    ensures Snapshot(Noted(st, frames), created) == Snapshot(st, created)
    decreases |frames|
  {
    if frames != [] {
      var t := NoteFrame(st, frames[0].id, frames[0].pts);
      FramesLeaveImage(t, frames[1..], created);
      assert Entries(t.surfaces) == Entries(st.surfaces);
    }
  }

  /** The next device of a session, the creation time of its image, and the frames that arrive before it is made. */
  datatype Device = Device(width: real, height: real, created: string, frames: seq<Frame>)

  function Suspended(st: StripState, d: Device, show: real -> string, sha: seq<byte> -> Digest): SessionImage {
    ImageFromStrip(Noted(st, d.frames), d.created, show, sha)
  }

  lemma SuspendedImage(st: StripState, d: Device, show: real -> string, sha: seq<byte> -> Digest)
    ensures Suspended(st, d, show, sha) == ImageFromStrip(st, d.created, show, sha)
  {
    FramesLeaveImage(st, d.frames, d.created);
  }

  /** Suspend and resume on each device in turn. */
  function Journey(st: StripState, devices: seq<Device>, net: Network, show: real -> string, sha: seq<byte> -> Digest)
      : Result<StripState, ConnectError>
    decreases |devices|
  {
    if devices == [] then Ok(st)
    else
      var d := devices[0];
      var t :- Resumed(Suspended(st, d, show, sha), Fresh(d.width, d.height), net);
      Journey(t, devices[1..], net, show, sha)
  }

  /** `m` is the least of `p` and the scroll limits of the devices. */
  ghost predicate LeastScroll(m: real, p: real, n: nat, devices: seq<Device>) {
    && m <= p
    && (forall i :: 0 <= i < |devices| ==> m <= DefaultMaxScroll(n, devices[i].width))
    && (m == p || exists i :: 0 <= i < |devices| && m == DefaultMaxScroll(n, devices[i].width))
  }

  lemma LeastScrollStep(m: real, p: real, n: nat, d: Device, more: seq<Device>)
    requires LeastScroll(m, Min(p, DefaultMaxScroll(n, d.width)), n, more)
    ensures LeastScroll(m, p, n, [d] + more)
  {
    var ds := [d] + more;
    forall i | 0 <= i < |ds| ensures m <= DefaultMaxScroll(n, ds[i].width) {
      if i > 0 { assert ds[i] == more[i - 1]; }
    }
    if m == Min(p, DefaultMaxScroll(n, d.width)) {
      assert m == p || m == DefaultMaxScroll(n, ds[0].width);
    } else {
      var i :| 0 <= i < |more| && m == DefaultMaxScroll(n, more[i].width);
      assert ds[i + 1] == more[i];
    }
  }

  /** A session that can move: a good strip in order of position whose hosts stay as they are. */
  ghost predicate Portable(st: StripState, net: Network) {
    Good(st) && Sorting.SortedBy(st.surfaces, OrderOf) && HostsUnchanged(st.surfaces, net)
  }

  /** `t` is `st` after the devices: same entries, orders and focus, scrolled to the least limit. */
  ghost predicate Kept(t: StripState, st: StripState, devices: seq<Device>) {
    && Entries(t.surfaces) == Entries(st.surfaces) && t.focus == st.focus
    && LeastScroll(t.scrollPos, st.scrollPos, |st.surfaces|, devices)
  }

  lemma MovedPortable(st: StripState, w: real, h: real, net: Network)
    requires Portable(st, net) && w > 0.0 && h > 0.0
    ensures Portable(Moved(st, w, h), net)
  {
    MovedGood(st, w, h);
    MovedHosts(st, w, h, net);
  }

  lemma KeptStep(t: StripState, st: StripState, d: Device, more: seq<Device>)
    requires Kept(t, Moved(st, d.width, d.height), more)
    ensures Kept(t, st, [d] + more)
  {
    var ss := Moved(st, d.width, d.height).surfaces;
    assert Entries(ss) == Entries(st.surfaces);
    LeastScrollStep(t.scrollPos, st.scrollPos, |st.surfaces|, d, more);
  }

  /**
   * The migration chain: whatever viewports a session passes through, and whatever frames arrive on the
   * way, it ends with the same entries, orders and focus, scrolled to the least of its first position
   * and every device's limit.
   */
  lemma {:induction false} JourneyKeeps(st: StripState, devices: seq<Device>, net: Network,
                                        show: real -> string, sha: seq<byte> -> Digest)
    requires Portable(st, net) && forall d :: d in devices ==> d.width > 0.0 && d.height > 0.0
    ensures var r := Journey(st, devices, net, show, sha);
            r.Ok? && Portable(r.value, net) && Kept(r.value, st, devices)
    decreases |devices|
  {
    if devices != [] {
      var d, more := devices[0], devices[1..];
      assert d in devices && forall e :: e in more ==> e in devices;
      assert devices == [d] + more;
      SuspendedImage(st, d, show, sha);
      ResumeMoves(st, d.width, d.height, d.created, net, show, sha);
      hide Portable, Kept, Resumed, ImageFromStrip, Suspended, Moved, Fresh;
      MovedPortable(st, d.width, d.height, net);
      var t := Moved(st, d.width, d.height);
      JourneyKeeps(t, more, net, show, sha);
      KeptStep(Journey(t, more, net, show, sha).value, st, d, more);
    }
  }

  lemma {:induction false} ConnectedGood(st: StripState, hosts: seq<string>, net: Network)
    requires Good(st) && Connected(st, hosts, net).Ok?
    ensures Good(Connected(st, hosts, net).value)
    decreases |hosts|
  {
    if hosts != [] {
      var s := SurfaceFromAnnounce(net.dial(hosts[0]).value, hosts[0], st.viewportWidth, st.viewportHeight);
      AppendGood(st, s);
      ConnectedGood(Append(st, s), hosts[1..], net);
    }
  }

  lemma InPlaceSorted(ss: seq<Surface>)
    requires InPlace(ss) && |ss| <= U32_LIMIT
    ensures Sorting.SortedBy(ss, OrderOf)
  {
  }

  lemma LiveAnnounced(st: StripState, hosts: seq<string>, net: Network)
    requires st.viewportWidth > 0.0 && st.viewportHeight > 0.0 && st.surfaces == [] && Connected(st, hosts, net).Ok?
    ensures var ss := Connected(st, hosts, net).value.surfaces;
            |ss| == |hosts|
            && forall i :: 0 <= i < |hosts| ==>
                 ss[i].hostAddr == hosts[i] && net.dial(hosts[i]) == Some(Announced(ss[i]))
  {
    LivePlacement(st, hosts, net);
    hide Connected, Announced, InPlace, EqualWidths;
    var ss := Connected(st, hosts, net).value.surfaces;
    forall i | 0 <= i < |hosts| ensures ss[i].hostAddr == hosts[i] && net.dial(hosts[i]) == Some(Announced(ss[i])) {
      assert ss[0 + i].hostAddr == hosts[i];
    }
  }

  lemma LiveHosts(ss: seq<Surface>, hosts: seq<string>, net: Network)
    requires |ss| == |hosts| && forall a :: a in hosts ==> net.resolve(a) == Some(a)
    requires forall i :: 0 <= i < |hosts| ==> ss[i].hostAddr == hosts[i] && net.dial(hosts[i]) == Some(Announced(ss[i]))
    ensures HostsUnchanged(ss, net)
  {
  }

  /** A session just placed live can move, and has the sizes a move gives. */
  lemma LiveIsPortable(w: real, h: real, hosts: seq<string>, net: Network)
    requires w > 0.0 && h > 0.0 && |hosts| <= U32_LIMIT
    requires forall a :: a in hosts ==> net.resolve(a) == Some(a)
    requires Connected(Fresh(w, h), hosts, net).Ok?
    ensures var st := Connected(Fresh(w, h), hosts, net).value;
            Portable(st, net) && EqualWidths(st.surfaces, w) && Refitted(st.surfaces, w, h) == st.surfaces
  {
    FreshGood(w, h);
    LivePlacement(Fresh(w, h), hosts, net);
    ConnectedGood(Fresh(w, h), hosts, net);
    LiveSizes(Fresh(w, h), hosts, net);
    var ss := Connected(Fresh(w, h), hosts, net).value.surfaces;
    hide Connected, Good, HostsUnchanged, Sorting.SortedBy, InPlace, Announced, Refitted, EqualWidths;
    LiveAnnounced(Fresh(w, h), hosts, net);
    LiveHosts(ss, hosts, net);
    InPlaceSorted(ss);
  }

  lemma {:induction false} LiveSizes(st: StripState, hosts: seq<string>, net: Network)
    requires st.viewportWidth > 0.0 && st.viewportHeight > 0.0 && Connected(st, hosts, net).Ok?
    requires Refitted(st.surfaces, st.viewportWidth, st.viewportHeight) == st.surfaces
    ensures var t := Connected(st, hosts, net).value;
            Refitted(t.surfaces, st.viewportWidth, st.viewportHeight) == t.surfaces
    decreases |hosts|
  {
    if hosts != [] {
      var w, h := st.viewportWidth, st.viewportHeight;
      var s := SurfaceFromAnnounce(net.dial(hosts[0]).value, hosts[0], w, h);
      var t := Append(st, s);
      forall i | 0 <= i < |t.surfaces| ensures Refitted(t.surfaces, w, h)[i] == t.surfaces[i] {
        if i < |st.surfaces| {
          assert Refitted(st.surfaces, w, h)[i] == st.surfaces[i];
        }
      }
      assert Refitted(t.surfaces, w, h) == t.surfaces;
      LiveSizes(t, hosts[1..], net);
    }
  }
}
