/** The strip the compositor mutates, each method proved against the value model. */
module StripClass {
  import opened Wrappers
  import opened Text
  import opened Session
  import opened StripModel
  import Sorting

  class Strip {
    var surfaces: seq<Surface>
    var scrollPos: real
    const viewportWidth: real
    const viewportHeight: real
    var focus: Option<SurfaceId>

    constructor (viewportWidth: real, viewportHeight: real)
      ensures State() == Fresh(viewportWidth, viewportHeight)
    {
      this.surfaces := [];
      this.scrollPos := 0.0;
      this.viewportWidth := viewportWidth;
      this.viewportHeight := viewportHeight;
      this.focus := None;
    }

    function State(): StripState
      reads this
    {
      StripState(surfaces, scrollPos, viewportWidth, viewportHeight, focus)
    }

    /** Append at the right end; returns the order assigned. */
    method Append(surface: Surface) returns (order: u32)
      modifies this
      ensures State() == StripModel.Append(old(State()), surface)
      ensures order == AsU32(|old(surfaces)|) && |surfaces| == |old(surfaces)| + 1
    {
      order := AsU32(|surfaces|);
      var s := surface.(order := order);
      if s.width <= 0.0 {
        s := s.(width := viewportWidth / 3.0);
      }
      if s.height <= 0.0 {
        s := s.(height := viewportHeight);
      }
      surfaces := surfaces + [s];
    }

    /** Insert where the surface's own order puts it. */
    method InsertOrdered(surface: Surface)
      modifies this
      ensures State() == StripModel.InsertOrdered(old(State()), surface)
    {
      surfaces := surfaces + [surface];
      surfaces := Sorting.StableSort(surfaces, OrderOf);
    }

    method ClampScroll()
      modifies this
      ensures State() == StripModel.ClampScroll(old(State()))
    {
      scrollPos := Clamp(scrollPos, 0.0, MaxScroll(surfaces, viewportWidth));
    }

    /** Remove a surface, renumber the rest in place, drop its focus, and clamp the scroll position. */
    method Remove(id: SurfaceId) returns (removed: Option<Surface>)
      modifies this
      ensures State() == StripModel.Remove(old(State()), id)
      ensures removed.None? <==> !Present(old(surfaces), id)
      ensures removed.Some? ==> removed.value == old(surfaces)[IndexOf(old(surfaces), id)]
    {
      hide Clamp, MaxScroll, AsU32;
      var idx := IndexOf(surfaces, id);
      if idx == |surfaces| { return None; }
      removed := Some(surfaces[idx]);
      surfaces := surfaces[..idx] + surfaces[idx + 1..];
      ghost var rest := surfaces;
      for i := 0 to |surfaces|
        invariant |surfaces| == |rest|
        invariant forall j :: 0 <= j < i ==> surfaces[j] == rest[j].(order := AsU32(j))
        invariant forall j :: i <= j < |rest| ==> surfaces[j] == rest[j]
        invariant scrollPos == old(scrollPos) && focus == old(focus)
      {
        surfaces := surfaces[i := surfaces[i].(order := AsU32(i))];
      }
      assert surfaces == Renumbered(rest);
      if focus == Some(id) {
        focus := None;
      }
      ClampScroll();
    }

    method NoteFrame(id: SurfaceId, pts: u64)
      modifies this
      ensures State() == StripModel.NoteFrame(old(State()), id, pts)
    {
      var i := IndexOf(surfaces, id);
      if i < |surfaces| {
        var s := surfaces[i];
        surfaces := surfaces[i := s.(lastPts := Some(pts), framesReceived := s.framesReceived + 1)];
      }
    }

    method ScrollBy(dx: real)
      modifies this
      ensures State() == StripModel.ScrollBy(old(State()), dx)
    {
      scrollPos := scrollPos + dx;
      ClampScroll();
    }

    method SetScroll(pos: real)
      modifies this
      ensures State() == StripModel.SetScroll(old(State()), pos)
    {
      scrollPos := pos;
      ClampScroll();
    }

    method SetFocus(id: SurfaceId) returns (found: bool)
      modifies this
      ensures State() == StripModel.SetFocus(old(State()), id)
      ensures found <==> Present(surfaces, id)
    {
      found := exists i :: 0 <= i < |surfaces| && surfaces[i].id == id;
      if found {
        focus := Some(id);
      }
    }

    method SetFocusOpt(id: Option<SurfaceId>)
      modifies this
      ensures State() == StripModel.SetFocusOpt(old(State()), id)
    {
      focus := if id.Some? && Present(surfaces, id.value) then id else None;
    }

    /** Left edge of a surface: a scan that adds up the widths before it. */
    method SurfaceLeft(id: SurfaceId) returns (x: Option<real>)
      ensures x == if Present(surfaces, id) then Some(Left(surfaces, IndexOf(surfaces, id))) else None
    {
      var at := 0.0;
      for i := 0 to |surfaces|
        invariant at == Left(surfaces, i)
        invariant forall j :: 0 <= j < i ==> surfaces[j].id != id
      {
        if surfaces[i].id == id {
          return Some(at);
        }
        at := at + surfaces[i].width;
      }
      return None;
    }

    /** The surfaces that meet the viewport, in strip order. */
    method Visible() returns (out: seq<Surface>)
      ensures out == VisibleUpTo(State(), |surfaces|)
    {
      var viewL, viewR := scrollPos, scrollPos + viewportWidth;
      var x := 0.0;
      out := [];
      for i := 0 to |surfaces|
        invariant x == Left(surfaces, i)
        invariant out == VisibleUpTo(State(), i)
      {
        var l, r := x, x + surfaces[i].width;
        if r > viewL && l < viewR {
          out := out + [surfaces[i]];
        }
        x := r;
      }
    }

    /** The surface under a viewport point, with the point in its own coordinates. */
    method HitTest(vx: real, vy: real) returns (hit: Option<Hit>)
      ensures hit == StripModel.HitTest(State(), vx, vy)
    {
      if vy < 0.0 || vy > viewportHeight { return None; }
      var stripX := vx + scrollPos;
      var x := 0.0;
      for i := 0 to |surfaces|
        invariant x == Left(surfaces, i)
        invariant HitIndex(surfaces, stripX, 0) == HitIndex(surfaces, stripX, i)
      {
        var s := surfaces[i];
        var l, r := x, x + s.width;
        if stripX >= l && stripX < r {
          var nx := (stripX - l) / s.width;
          return Some(Hit(s.id, nx, Vertical(vy, s.height)));
        }
        x := r;
      }
      return None;
    }

    /** Focus whatever is under the point. */
    method Click(vx: real, vy: real) returns (hit: Option<Hit>)
      modifies this
      ensures hit == StripModel.HitTest(old(State()), vx, vy)
      ensures State() == StripModel.Click(old(State()), vx, vy)
    {
      hit := HitTest(vx, vy);
      if hit.Some? {
        focus := Some(hit.value.id);
      }
    }
  }
}
