/**
 * The surface strip as a value: where surfaces lie, what each operation makes of the strip, and what
 * holds after every run of operations. Geometry is over the reals.
 */
module StripModel {
  import opened Wrappers
  import opened Text
  import opened Session
  import opened Messages
  import Sorting

  datatype Surface = Surface(
    id: SurfaceId, name: string, order: u32, width: real, height: real,
    sourceWidth: u32, sourceHeight: u32, codec: Codec, provenance: HostProvenance, hostAddr: string,
    lastPts: Option<u64>, framesReceived: nat)

  /** A surface under a point; the vertical fraction is missing where the code's division gives no number. */
  datatype Hit = Hit(id: SurfaceId, nx: real, ny: Option<real>)

  datatype StripState = StripState(
    surfaces: seq<Surface>, scrollPos: real, viewportWidth: real, viewportHeight: real, focus: Option<SurfaceId>)

  function AsU32(n: nat): u32 { n % U32_LIMIT }

  function Min(a: real, b: real): real { if a <= b then a else b }

  function Max(a: real, b: real): real { if a >= b then a else b }

  function Clamp(x: real, lo: real, hi: real): real { if x < lo then lo else if x > hi then hi else x }

  // ---- geometry ----

  /** Left edge of the `i`-th surface: the widths of its predecessors. */
  function Left(ss: seq<Surface>, i: nat): real
    requires i <= |ss|
  {
    if i == 0 then 0.0 else Left(ss, i - 1) + ss[i - 1].width
  }

  function ContentWidth(ss: seq<Surface>): real { Left(ss, |ss|) }

  function MaxScroll(ss: seq<Surface>, viewportWidth: real): real { Max(ContentWidth(ss) - viewportWidth, 0.0) }

  /** Index of the first surface with this id, or `|ss|`. */
  function IndexOf(ss: seq<Surface>, id: SurfaceId): (i: nat)
    ensures i <= |ss|
    ensures i < |ss| ==> ss[i].id == id
    ensures forall j :: 0 <= j < i ==> ss[j].id != id
  {
    if ss == [] || ss[0].id == id then 0 else 1 + IndexOf(ss[1..], id)
  }

  predicate Present(ss: seq<Surface>, id: SurfaceId) { exists i :: 0 <= i < |ss| && ss[i].id == id }

  /** Whether the `i`-th surface covers the strip point `x`. */
  predicate Covers(ss: seq<Surface>, i: nat, x: real)
    requires i < |ss|
  {
    Left(ss, i) <= x < Left(ss, i + 1)
  }

  function HitIndex(ss: seq<Surface>, x: real, from: nat): (i: nat)
    requires from <= |ss|
    ensures from <= i <= |ss|
    ensures i < |ss| ==> Covers(ss, i, x)
    ensures forall j :: from <= j < i ==> !Covers(ss, j, x)
    decreases |ss| - from
  {
    if from == |ss| || Covers(ss, from, x) then from else HitIndex(ss, x, from + 1)
  }

  /**
   * `vy / height` clamped to the unit interval, in the code's floating point: over a height of zero a
   * positive point is infinitely far down, and zero has no quotient.
   */
  function Vertical(vy: real, height: real): Option<real> {
    if height != 0.0 then Some(Clamp(vy / height, 0.0, 1.0))
    else if vy > 0.0 then Some(1.0)
    else if vy < 0.0 then Some(0.0)
    else None
  }

  /** The strip point at fraction `q` of a surface with left edge `l` and width `w`. */
  function PointAt(l: real, q: real, w: real): real { l + q * w }

  function FractionIn(x: real, l: real, w: real): real
    requires w != 0.0
  {
    (x - l) / w
  }

  function HitTest(st: StripState, vx: real, vy: real): Option<Hit> {
    if vy < 0.0 || vy > st.viewportHeight then None
    else
      var x := vx + st.scrollPos;
      var i := HitIndex(st.surfaces, x, 0);
      if i == |st.surfaces| then None
      else
        var s := st.surfaces[i];
        Some(Hit(s.id, FractionIn(x, Left(st.surfaces, i), s.width), Vertical(vy, s.height)))
  }

  /** Whether the `i`-th surface meets the viewport. */
  predicate InView(st: StripState, i: nat)
    requires i < |st.surfaces|
  {
    Left(st.surfaces, i + 1) > st.scrollPos && Left(st.surfaces, i) < st.scrollPos + st.viewportWidth
  }

  /** The surfaces in view among the first `n`, in strip order. */
  function VisibleUpTo(st: StripState, n: nat): seq<Surface>
    requires n <= |st.surfaces|
  {
    if n == 0 then []
    else VisibleUpTo(st, n - 1) + (if InView(st, n - 1) then [st.surfaces[n - 1]] else [])
  }

  // ---- operations ----

  function OrderOf(s: Surface): int { s.order }

  /** What `append` stores: its order is the count, and missing sizes get their defaults. */
  function Placed(st: StripState, s: Surface): Surface {
    s.(order := AsU32(|st.surfaces|),
       width := if s.width <= 0.0 then st.viewportWidth / 3.0 else s.width,
       height := if s.height <= 0.0 then st.viewportHeight else s.height)
  }

  function Append(st: StripState, s: Surface): StripState { st.(surfaces := st.surfaces + [Placed(st, s)]) }

  function InsertOrdered(st: StripState, s: Surface): StripState {
    st.(surfaces := Sorting.StableSort(st.surfaces + [s], OrderOf))
  }

  function ClampScroll(st: StripState): StripState {
    st.(scrollPos := Clamp(st.scrollPos, 0.0, MaxScroll(st.surfaces, st.viewportWidth)))
  }

  function Without(ss: seq<Surface>, i: nat): seq<Surface>
    requires i < |ss|
  {
    ss[..i] + ss[i + 1..]
  }

  function Renumbered(ss: seq<Surface>): seq<Surface> {
    seq(|ss|, i requires 0 <= i < |ss| => ss[i].(order := AsU32(i)))
  }

  function Remove(st: StripState, id: SurfaceId): StripState {
    var i := IndexOf(st.surfaces, id);
    if i == |st.surfaces| then st
    else ClampScroll(st.(surfaces := Renumbered(Without(st.surfaces, i)),
                         focus := if st.focus == Some(id) then None else st.focus))
  }

  function ScrollBy(st: StripState, dx: real): StripState { ClampScroll(st.(scrollPos := st.scrollPos + dx)) }

  function SetScroll(st: StripState, pos: real): StripState { ClampScroll(st.(scrollPos := pos)) }

  function SetFocus(st: StripState, id: SurfaceId): StripState {
    if Present(st.surfaces, id) then st.(focus := Some(id)) else st
  }

  function SetFocusOpt(st: StripState, id: Option<SurfaceId>): StripState {
    st.(focus := if id.Some? && Present(st.surfaces, id.value) then id else None)
  }

  function Click(st: StripState, vx: real, vy: real): StripState {
    var hit := HitTest(st, vx, vy);
    if hit.Some? then st.(focus := Some(hit.value.id)) else st
  }

  function NoteFrame(st: StripState, id: SurfaceId, pts: u64): StripState {
    var i := IndexOf(st.surfaces, id);
    if i == |st.surfaces| then st
    else
      var s := st.surfaces[i];
      st.(surfaces := st.surfaces[i := s.(lastPts := Some(pts), framesReceived := s.framesReceived + 1)])
  }

  // ---- lemmas about position ----

  ghost predicate Positive(ss: seq<Surface>) { forall s :: s in ss ==> s.width > 0.0 }

  lemma {:induction false} LeftMonotone(ss: seq<Surface>, i: nat, j: nat)
    requires Positive(ss) && i <= j <= |ss|
    ensures Left(ss, i) <= Left(ss, j)
    ensures i < j ==> Left(ss, i) < Left(ss, j)
    decreases j - i
  {
    if i < j {
      assert ss[j - 1] in ss;
      LeftMonotone(ss, i, j - 1);
    }
  }

  lemma {:induction false} LeftPrefix(a: seq<Surface>, b: seq<Surface>, i: nat)
    requires i <= |a| && i <= |b| && forall k :: 0 <= k < i ==> a[k].width == b[k].width
    ensures Left(a, i) == Left(b, i)
  {
    if i > 0 {
      LeftPrefix(a, b, i - 1);
    }
  }

  lemma {:induction false} Locate(ss: seq<Surface>, x: real, n: nat) returns (i: nat)
    requires n <= |ss| && 0.0 <= x < Left(ss, n)
    ensures i < n && Covers(ss, i, x)
  {
    if x < Left(ss, n - 1) {
      i := Locate(ss, x, n - 1);
    } else {
      i := n - 1;
    }
  }

  /** Every point of the content lies in exactly one surface; no other point lies in any. */
  lemma OneSurfacePerPoint(ss: seq<Surface>, x: real)
    requires Positive(ss)
    ensures 0.0 <= x < ContentWidth(ss) <==> HitIndex(ss, x, 0) < |ss|
    ensures forall i, j :: 0 <= i < |ss| && 0 <= j < |ss| && Covers(ss, i, x) && Covers(ss, j, x) ==> i == j
  {
    if 0.0 <= x < ContentWidth(ss) {
      var i := Locate(ss, x, |ss|);
    }
    var h := HitIndex(ss, x, 0);
    if h < |ss| {
      LeftMonotone(ss, 0, h);
      LeftMonotone(ss, h + 1, |ss|);
    }
    forall i, j | 0 <= i < |ss| && 0 <= j < |ss| && Covers(ss, i, x) && Covers(ss, j, x) ensures i == j {
      if i < j {
        LeftMonotone(ss, i + 1, j);
      } else if j < i {
        LeftMonotone(ss, j + 1, i);
      }
    }
  }

  ghost predicate DistinctIds(ss: seq<Surface>) { forall i, j :: 0 <= i < j < |ss| ==> ss[i].id != ss[j].id }

  lemma IndexOfUnique(ss: seq<Surface>, i: nat)
    requires DistinctIds(ss) && i < |ss|
    ensures IndexOf(ss, ss[i].id) == i
  {
  }

  lemma MulSign(a: real, b: real)
    requires a >= 0.0 && b > 0.0
    ensures a * b >= 0.0 && (a > 0.0 ==> a * b > 0.0)
  {
  }

  lemma Fraction(q: real, w: real, a: real)
    requires q * w == a && w > 0.0 && 0.0 <= a < w
    ensures 0.0 <= q < 1.0
  {
    if q >= 1.0 {
      MulSign(q - 1.0, w);
    } else if q < 0.0 {
      MulSign(-q, w);
    }
  }

  lemma DivideBack(a: real, w: real)
    requires w > 0.0 && 0.0 <= a < w
    ensures 0.0 <= a / w < 1.0 && a / w * w == a
  {
    Fraction(a / w, w, a);
  }

  /** Down to the surface's bottom edge the vertical fraction gives the point back. */
  lemma VerticalBack(vy: real, height: real)
    requires 0.0 <= vy
    ensures var f := Vertical(vy, height);
            && (f.None? <==> height == 0.0 && vy == 0.0) && (f.Some? ==> 0.0 <= f.value <= 1.0)
            && (vy < height ==> PointAt(0.0, f.value, height) == vy)
  {
    if vy < height {
      DivideBack(vy, height);
    }
  }

  /** The surface under a strip point, with the point as a fraction of its width. */
  lemma FractionOf(ss: seq<Surface>, x: real)
    requires Positive(ss) && DistinctIds(ss) && HitIndex(ss, x, 0) < |ss|
    ensures var i := HitIndex(ss, x, 0);
            && IndexOf(ss, ss[i].id) == i && ss[i].width != 0.0 && 0.0 <= FractionIn(x, Left(ss, i), ss[i].width) < 1.0
            && PointAt(Left(ss, i), FractionIn(x, Left(ss, i), ss[i].width), ss[i].width) == x
  {
    var i := HitIndex(ss, x, 0);
    assert ss[i] in ss;
    IndexOfUnique(ss, i);
    DivideBack(x - Left(ss, i), ss[i].width);
  }

  lemma HitShape(st: StripState, vx: real, vy: real, i: nat)
    requires 0.0 <= vy <= st.viewportHeight
    requires i == HitIndex(st.surfaces, vx + st.scrollPos, 0) && i < |st.surfaces|
    ensures var s, x := st.surfaces[i], vx + st.scrollPos;
            && s.width != 0.0
            && HitTest(st, vx, vy)
            == Some(Hit(s.id, FractionIn(x, Left(st.surfaces, i), s.width), Vertical(vy, s.height)))
  {
    hide Vertical, FractionIn;
  }

  /** The surface a hit names, and the viewport point its fractions stand for. */
  ghost predicate PointsBack(st: StripState, h: Hit, vx: real, vy: real) {
    var ss, i := st.surfaces, IndexOf(st.surfaces, h.id);
    && i < |ss| && 0.0 <= h.nx < 1.0 && PointAt(Left(ss, i), h.nx, ss[i].width) - st.scrollPos == vx
    && (h.ny.None? <==> ss[i].height == 0.0 && vy == 0.0) && (h.ny.Some? ==> 0.0 <= h.ny.value <= 1.0)
    && (0.0 <= vy < ss[i].height ==> PointAt(0.0, h.ny.value, ss[i].height) == vy)
  }

  /** What a hit says, when there is one. */
  lemma HitSound(st: StripState, vx: real, vy: real)
    requires Positive(st.surfaces) && DistinctIds(st.surfaces) && 0.0 <= vy <= st.viewportHeight
    requires HitTest(st, vx, vy).Some?
    ensures PointsBack(st, HitTest(st, vx, vy).value, vx, vy)
  {
    var ss, x := st.surfaces, vx + st.scrollPos;
    var i := HitIndex(ss, x, 0);
    assert ss[i] in ss;
    VerticalBack(vy, ss[i].height);
    HitShape(st, vx, vy, i);
    FractionOf(ss, x);
    hide HitTest, HitIndex, IndexOf, Left, PointAt, FractionIn, Vertical, Positive, DistinctIds;
  }

  /**
   * `hit_test` and `surface_left` agree: inside the vertical band a viewport point hits exactly when
   * it lies over the content, and the hit's surface and fractions give the point back.
   */
  lemma HitGivesPointBack(st: StripState, vx: real, vy: real)
    requires Positive(st.surfaces) && DistinctIds(st.surfaces) && 0.0 <= vy <= st.viewportHeight
    ensures HitTest(st, vx, vy).Some? <==> 0.0 <= vx + st.scrollPos < ContentWidth(st.surfaces)
    ensures HitTest(st, vx, vy).Some? ==> PointsBack(st, HitTest(st, vx, vy).value, vx, vy)
  {
    OneSurfacePerPoint(st.surfaces, vx + st.scrollPos);
    hide Left, HitIndex, DistinctIds, Positive, IndexOf, Vertical, FractionIn, ContentWidth, Covers, PointsBack;
    if HitTest(st, vx, vy).Some? {
      HitSound(st, vx, vy);
    }
  }

  lemma {:induction false} VisibleMembers(st: StripState, n: nat)
    requires n <= |st.surfaces|
    ensures forall s :: s in VisibleUpTo(st, n) <==> exists i :: 0 <= i < n && InView(st, i) && st.surfaces[i] == s
  {
    if n > 0 {
      VisibleMembers(st, n - 1);
      forall s ensures s in VisibleUpTo(st, n) <==> exists i :: 0 <= i < n && InView(st, i) && st.surfaces[i] == s {
        if s in VisibleUpTo(st, n - 1) {
          var i :| 0 <= i < n - 1 && InView(st, i) && st.surfaces[i] == s;
        }
      }
    }
  }

  /** The viewport point `vx` hits the `i`-th surface. */
  predicate HitsAt(st: StripState, vx: real, i: nat) {
    0.0 <= vx < st.viewportWidth && HitIndex(st.surfaces, vx + st.scrollPos, 0) == i
  }

  /** A surface is visible exactly when some point of the viewport hits it. */
  lemma VisibleIffHit(st: StripState, i: nat)
    requires Positive(st.surfaces) && st.viewportWidth > 0.0 && i < |st.surfaces|
    ensures InView(st, i) <==>
            exists vx :: HitsAt(st, vx, i)
  {
    var ss := st.surfaces;
    assert ss[i] in ss;
    if InView(st, i) {
      var vx := Max(0.0, Left(ss, i) - st.scrollPos);
      assert Covers(ss, i, vx + st.scrollPos);
      OneSurfacePerPoint(ss, vx + st.scrollPos);
      assert HitsAt(st, vx, i);
    }
    if exists vx :: HitsAt(st, vx, i) {
      var vx :| HitsAt(st, vx, i);
      assert Covers(ss, i, vx + st.scrollPos);
    }
  }

  /** The part of the `i`-th surface that shows in the viewport. */
  function ClippedWidth(st: StripState, i: nat): real
    requires i < |st.surfaces|
  {
    Max(0.0, Min(Left(st.surfaces, i + 1), st.scrollPos + st.viewportWidth) - Max(Left(st.surfaces, i), st.scrollPos))
  }

  function VisibleWidth(st: StripState, n: nat): real
    requires n <= |st.surfaces|
  {
    if n == 0 then 0.0 else VisibleWidth(st, n - 1) + (if InView(st, n - 1) then ClippedWidth(st, n - 1) else 0.0)
  }

  lemma {:induction false} VisibleWidthUpTo(st: StripState, n: nat)
    requires Positive(st.surfaces) && st.viewportWidth > 0.0 && st.scrollPos >= 0.0 && n <= |st.surfaces|
    ensures VisibleWidth(st, n)
            == Clamp(Left(st.surfaces, n), st.scrollPos, st.scrollPos + st.viewportWidth) - st.scrollPos
  {
    if n > 0 {
      VisibleWidthUpTo(st, n - 1);
      assert st.surfaces[n - 1] in st.surfaces;
    }
  }

  /** The clipped widths of the visible surfaces fill the viewport, or hold all the content. */
  lemma VisibleFillsViewport(st: StripState)
    requires Good(st)
    ensures VisibleWidth(st, |st.surfaces|) == Min(st.viewportWidth, ContentWidth(st.surfaces))
  {
    VisibleWidthUpTo(st, |st.surfaces|);
    LeftMonotone(st.surfaces, 0, |st.surfaces|);
  }

  // ---- what every run keeps ----

  ghost predicate Good(st: StripState) {
    && st.viewportWidth > 0.0 && Positive(st.surfaces)
    && 0.0 <= st.scrollPos <= MaxScroll(st.surfaces, st.viewportWidth)
    && (st.focus.Some? ==> Present(st.surfaces, st.focus.value))
  }

  datatype Op =
    | OpAppend(s: Surface) | OpInsert(s: Surface) | OpRemove(id: SurfaceId)
    | OpScrollBy(dx: real) | OpSetScroll(pos: real)
    | OpSetFocus(id: SurfaceId) | OpSetFocusOpt(focus: Option<SurfaceId>)
    | OpClick(vx: real, vy: real) | OpNoteFrame(id: SurfaceId, pts: u64)

  /** Restored surfaces come with their sizes; every other call is unrestricted. */
  predicate Sized(op: Op) { op.OpInsert? ==> op.s.width > 0.0 }

  function Apply(st: StripState, op: Op): StripState {
    match op
    case OpAppend(s) => Append(st, s)
    case OpInsert(s) => InsertOrdered(st, s)
    case OpRemove(id) => Remove(st, id)
    case OpScrollBy(dx) => ScrollBy(st, dx)
    case OpSetScroll(pos) => SetScroll(st, pos)
    case OpSetFocus(id) => SetFocus(st, id)
    case OpSetFocusOpt(id) => SetFocusOpt(st, id)
    case OpClick(vx, vy) => Click(st, vx, vy)
    case OpNoteFrame(id, pts) => NoteFrame(st, id, pts)
  }

  function RunOps(st: StripState, ops: seq<Op>): StripState
    decreases |ops|
  {
    if ops == [] then st else RunOps(Apply(st, ops[0]), ops[1..])
  }

  lemma AppendGood(st: StripState, s: Surface)
    requires Good(st)
    ensures Good(Append(st, s))
  {
    var t := Append(st, s);
    LeftPrefix(st.surfaces, t.surfaces, |st.surfaces|);
    if st.focus.Some? {
      var i :| 0 <= i < |st.surfaces| && st.surfaces[i].id == st.focus.value;
      assert t.surfaces[i].id == st.focus.value;
    }
  }

  lemma {:induction false} LeftShift(x: Surface, ss: seq<Surface>, i: nat)
    requires i <= |ss|
    ensures Left([x] + ss, i + 1) == x.width + Left(ss, i)
  {
    if i > 0 {
      LeftShift(x, ss, i - 1);
      assert ([x] + ss)[i] == ss[i - 1];
    } else {
      assert Left([x] + ss, 0) == 0.0;
    }
  }

  lemma {:induction false} InsertWidth(x: Surface, ss: seq<Surface>)
    ensures ContentWidth(Sorting.Insert(x, ss, OrderOf)) == x.width + ContentWidth(ss)
  {
    if ss == [] || OrderOf(x) <= OrderOf(ss[0]) {
      LeftShift(x, ss, |ss|);
    } else {
      var t := Sorting.Insert(x, ss[1..], OrderOf);
      InsertWidth(x, ss[1..]);
      LeftShift(ss[0], t, |t|);
      LeftShift(ss[0], ss[1..], |ss[1..]|);
      assert ss == [ss[0]] + ss[1..];
    }
  }

  /** Sorting moves surfaces and keeps the total width. */
  lemma {:induction false} SortWidth(ss: seq<Surface>)
    ensures ContentWidth(Sorting.StableSort(ss, OrderOf)) == ContentWidth(ss)
  {
    if ss != [] {
      SortWidth(ss[1..]);
      InsertWidth(ss[0], Sorting.StableSort(ss[1..], OrderOf));
      LeftShift(ss[0], ss[1..], |ss[1..]|);
      assert ss == [ss[0]] + ss[1..];
    }
  }

  lemma InsertGood(st: StripState, s: Surface)
    requires Good(st) && s.width > 0.0
    ensures Good(InsertOrdered(st, s))
  {
    var ss := st.surfaces + [s];
    var t := Sorting.StableSort(ss, OrderOf);
    LeftPrefix(st.surfaces, ss, |st.surfaces|);
    SortWidth(ss);
    Sorting.SortLength(ss, OrderOf);
    if st.focus.Some? {
      var i :| 0 <= i < |st.surfaces| && st.surfaces[i].id == st.focus.value;
      assert ss[i] in ss && ss[i] in t;
      var j :| 0 <= j < |t| && t[j] == ss[i];
      assert t[j].id == st.focus.value;
    }
  }

  lemma RemoveGood(st: StripState, id: SurfaceId)
    requires Good(st)
    ensures Good(Remove(st, id))
  {
    var i := IndexOf(st.surfaces, id);
    if i < |st.surfaces| {
      RestPositive(st.surfaces, i);
      if st.focus.Some? && st.focus != Some(id) {
        RestPresent(st.surfaces, i, st.focus.value);
      }
      hide Renumbered, Without, Positive, Present, MaxScroll;
    }
  }

  lemma RestPositive(ss: seq<Surface>, i: nat)
    requires i < |ss| && Positive(ss)
    ensures Positive(Renumbered(Without(ss, i)))
  {
    var rest := Without(ss, i);
    var t := Renumbered(rest);
    forall s | s in t ensures s.width > 0.0 {
      var j :| 0 <= j < |t| && t[j] == s;
      assert rest[j] in ss;
    }
  }

  lemma RestPresent(ss: seq<Surface>, i: nat, id: SurfaceId)
    requires i < |ss| && Present(ss, id) && ss[i].id != id
    ensures Present(Renumbered(Without(ss, i)), id)
  {
    var k :| 0 <= k < |ss| && ss[k].id == id;
    assert Renumbered(Without(ss, i))[if k < i then k else k - 1].id == id;
  }

  lemma ClickGood(st: StripState, vx: real, vy: real)
    requires Good(st)
    ensures Good(Click(st, vx, vy))
  {
  }

  lemma NoteFrameGood(st: StripState, id: SurfaceId, pts: u64)
    requires Good(st)
    ensures Good(NoteFrame(st, id, pts))
    ensures NoteFrame(st, id, pts).scrollPos == st.scrollPos && NoteFrame(st, id, pts).focus == st.focus
  {
    var t := NoteFrame(st, id, pts);
    LeftPrefix(st.surfaces, t.surfaces, |st.surfaces|);
    forall s | s in t.surfaces ensures s.width > 0.0 {
      var j :| 0 <= j < |t.surfaces| && t.surfaces[j] == s;
      assert st.surfaces[j] in st.surfaces;
    }
    if st.focus.Some? {
      var k :| 0 <= k < |st.surfaces| && st.surfaces[k].id == st.focus.value;
      assert t.surfaces[k].id == st.focus.value;
    }
  }

  lemma ApplyGood(st: StripState, op: Op)
    requires Good(st) && Sized(op)
    ensures Good(Apply(st, op))
  {
    match op
    case OpAppend(s) => AppendGood(st, s);
    case OpInsert(s) => InsertGood(st, s);
    case OpRemove(id) => RemoveGood(st, id);
    case OpClick(vx, vy) => ClickGood(st, vx, vy);
    case OpNoteFrame(id, pts) => NoteFrameGood(st, id, pts);
    case _ =>
  }

  /**
   * Every run of operations on a strip keeps widths positive, the scroll position within its bounds
   * and the focus on a surface that is there.
   */
  lemma {:induction false} RunKeepsGood(st: StripState, ops: seq<Op>)
    requires Good(st) && forall op :: op in ops ==> Sized(op)
    ensures Good(RunOps(st, ops))
    decreases |ops|
  {
    if ops != [] {
      assert ops[0] in ops;
      ApplyGood(st, ops[0]);
      RunKeepsGood(Apply(st, ops[0]), ops[1..]);
    }
  }

  /** Every surface has a height, and so has what gets the default one. */
  ghost predicate Tall(st: StripState) { st.viewportHeight > 0.0 && forall s :: s in st.surfaces ==> s.height > 0.0 }

  lemma ApplyTall(st: StripState, op: Op)
    requires Tall(st) && (op.OpInsert? ==> op.s.height > 0.0)
    ensures Tall(Apply(st, op))
  {
    hide MaxScroll, Clamp, HitTest, Sorting.StableSort;
    match op
    case OpInsert(s) => Sorting.SortLength(st.surfaces + [s], OrderOf);
    case OpRemove(id) =>
      var i := IndexOf(st.surfaces, id);
      if i < |st.surfaces| {
        var rest := Without(st.surfaces, i);
        forall s | s in Renumbered(rest) ensures s.height > 0.0 {
          var j :| 0 <= j < |rest| && Renumbered(rest)[j] == s;
          assert rest[j] in st.surfaces;
        }
      }
    case OpNoteFrame(id, pts) =>
      var t := NoteFrame(st, id, pts);
      forall s | s in t.surfaces ensures s.height > 0.0 {
        var j :| 0 <= j < |t.surfaces| && t.surfaces[j] == s;
        assert st.surfaces[j] in st.surfaces;
      }
    case _ =>
  }

  /** Heights stay positive over every run that inserts none without. */
  lemma {:induction false} RunKeepsTall(st: StripState, ops: seq<Op>)
    requires Tall(st) && forall op :: op in ops && op.OpInsert? ==> op.s.height > 0.0
    ensures Tall(RunOps(st, ops))
    decreases |ops|
  {
    if ops != [] {
      assert ops[0] in ops;
      ApplyTall(st, ops[0]);
      hide Tall, Apply;
      RunKeepsTall(Apply(st, ops[0]), ops[1..]);
    }
  }

  /** Each surface's order is its place in the strip. */
  ghost predicate InPlace(ss: seq<Surface>) { forall i :: 0 <= i < |ss| ==> ss[i].order == AsU32(i) }

  /** Over every run without `insert_ordered`, each surface's order stays its place. */
  lemma {:induction false} RunKeepsPlaces(st: StripState, ops: seq<Op>)
    requires InPlace(st.surfaces) && forall op :: op in ops ==> !op.OpInsert?
    ensures InPlace(RunOps(st, ops).surfaces)
    decreases |ops|
  {
    if ops != [] {
      assert ops[0] in ops;
      RunKeepsPlaces(Apply(st, ops[0]), ops[1..]);
    }
  }

  /** `t` is `s` under another order. */
  predicate SameBut(s: Surface, t: Surface) { s.(order := t.order) == t }

  /**
   * Removal takes out the first surface with the id and nothing else: the others keep their relative
   * order and every field but their order, the gap closes, the content shrinks by its width, and only a
   * focus on that surface goes.
   */
  lemma RemoveTakesOne(st: StripState, id: SurfaceId)
    requires Present(st.surfaces, id)
    ensures var i, t := IndexOf(st.surfaces, id), Remove(st, id);
            && |t.surfaces| == |st.surfaces| - 1 && InPlace(t.surfaces)
            && (forall j :: 0 <= j < i ==> SameBut(st.surfaces[j], t.surfaces[j]))
            && (forall j :: i <= j < |t.surfaces| ==> SameBut(st.surfaces[j + 1], t.surfaces[j]))
            && t.focus == (if st.focus == Some(id) then None else st.focus)
            && ContentWidth(t.surfaces) == ContentWidth(st.surfaces) - st.surfaces[i].width
  {
    RemovedWidth(st, id);
    hide MaxScroll, Clamp, Left;
  }

  lemma RemovedWidth(st: StripState, id: SurfaceId)
    requires Present(st.surfaces, id)
    ensures ContentWidth(Remove(st, id).surfaces)
         == ContentWidth(st.surfaces) - st.surfaces[IndexOf(st.surfaces, id)].width
  {
    hide MaxScroll, Clamp;
    var i, t := IndexOf(st.surfaces, id), Remove(st, id);
    WithoutWidth(st.surfaces, i, |st.surfaces|);
    LeftPrefix(Without(st.surfaces, i), t.surfaces, |t.surfaces|);
  }

  lemma {:induction false} WithoutWidth(ss: seq<Surface>, i: nat, n: nat)
    requires i < n <= |ss|
    ensures Left(Without(ss, i), n - 1) == Left(ss, n) - ss[i].width
  {
    if n == i + 1 {
      LeftPrefix(ss, Without(ss, i), i);
    } else {
      WithoutWidth(ss, i, n - 1);
    }
  }

  /** Removing a surface just appended undoes the append. */
  lemma AppendThenRemove(st: StripState, s: Surface)
    requires Good(st) && InPlace(st.surfaces) && !Present(st.surfaces, s.id)
    ensures Remove(Append(st, s), s.id) == st
  {
    var ss, t := st.surfaces, Append(st, s);
    var n := |ss|;
    assert t.surfaces[n].id == s.id;
    assert IndexOf(t.surfaces, s.id) == n;
    assert Without(t.surfaces, n) == ss;
    assert Renumbered(ss) == ss;
    assert st.focus != Some(s.id);
  }

  /** A new strip. */
  function Fresh(viewportWidth: real, viewportHeight: real): StripState {
    StripState([], 0.0, viewportWidth, viewportHeight, None)
  }

  lemma FreshGood(w: real, h: real)
    requires w > 0.0 && h > 0.0
    ensures Good(Fresh(w, h)) && InPlace(Fresh(w, h).surfaces)
  {
  }
}
