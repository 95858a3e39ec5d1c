/** The scatter view's culling: on every zoom event each point's rescaled coordinates are
    kept when they fall inside the plot and otherwise replaced by a fixed off-canvas value.
    Points are never removed. */
module Scatter {
  import opened Records

  /** The coordinate a culled point is moved to. */
  const Offscreen := -1000

  /** The closed interval `[0, bound]` of visible coordinates; both edges are visible. */
  predicate Visible(c: int, bound: int) {
    0 <= c && c <= bound
  }

  /** Keeps a coordinate inside `[0, bound]` and moves any other to `Offscreen`; applied to
      `cx` with the plot width and to `cy` with the plot height. */
  function Cull(c: int, bound: int): (r: int)
    ensures r == c || r == Offscreen
    ensures Visible(r, bound) <==> Visible(c, bound)
  {
    if c >= 0 && c <= bound then c else Offscreen
  }

  /** A culled coordinate is the original one exactly when that is visible, and the
      off-canvas value otherwise; the off-canvas value is never visible. */
  lemma CullKeepsVisible(c: int, bound: int)
    ensures Visible(Cull(c, bound), bound) <==> Visible(c, bound)
    ensures Visible(c, bound) ==> Cull(c, bound) == c
    ensures !Visible(c, bound) ==> Cull(c, bound) == Offscreen
    ensures Visible(Cull(c, bound), bound) || Cull(c, bound) == Offscreen
    ensures !Visible(Offscreen, bound)
  {
  }

  /** A coordinate on either edge stays; one unit beyond either edge is culled. */
  lemma CullEdges(bound: int)
    requires bound >= 0
    ensures Cull(0, bound) == 0 && Cull(bound, bound) == bound
    ensures Cull(-1, bound) == Offscreen && Cull(bound + 1, bound) == Offscreen
  {
  }

  /** Culling a culled coordinate again changes nothing. */
  lemma CullIdempotent(c: int, bound: int)
    ensures Cull(Cull(c, bound), bound) == Cull(c, bound)
  {
  }

  datatype Point = Point(cx: int, cy: int)

  /** `zoomed()`: every record keeps its circle; `newX` and `newY` are the rescaled scales of
      the current transform, applied to HP and Attack. */
  function Zoomed(rs: seq<Record>, newX: int -> int, newY: int -> int, width: int, height: int): (ps: seq<Point>)
    ensures |ps| == |rs|
    ensures forall i :: 0 <= i < |ps| ==>
      (Visible(ps[i].cx, width) || ps[i].cx == Offscreen) && (Visible(ps[i].cy, height) || ps[i].cy == Offscreen)
  {
    var ps := seq(|rs|, i requires 0 <= i < |rs| => Point(Cull(newX(rs[i].hp), width), Cull(newY(rs[i].attack), height)));
    assert forall i :: 0 <= i < |ps| ==> ps[i].cx == Cull(newX(rs[i].hp), width) && ps[i].cy == Cull(newY(rs[i].attack), height);
    ps
  }

  /** Zooming keeps one point per record, in order; each coordinate is the rescaled value when
      that is inside the plot and the off-canvas value otherwise, independently per axis. */
  lemma ZoomedKeepsEveryPoint(rs: seq<Record>, newX: int -> int, newY: int -> int, width: int, height: int)
    ensures |Zoomed(rs, newX, newY, width, height)| == |rs|
    ensures forall i :: 0 <= i < |rs| ==>
      var p := Zoomed(rs, newX, newY, width, height)[i];
      && (Visible(newX(rs[i].hp), width) ==> p.cx == newX(rs[i].hp))
      && (!Visible(newX(rs[i].hp), width) ==> p.cx == Offscreen)
      && (Visible(newY(rs[i].attack), height) ==> p.cy == newY(rs[i].attack))
      && (!Visible(newY(rs[i].attack), height) ==> p.cy == Offscreen)
  {
  }
}
