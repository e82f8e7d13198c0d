/** Segments against label boxes (cmd/plot/svg.go): Liang-Barsky clipping is exact. */
module Clipping {

  datatype Box = Box(x0: real, y0: real, x1: real, y1: real)

  datatype Segment = Segment(x0: real, y0: real, x1: real, y1: real)

  /** The segment's point at t is inside the closed box. */
  predicate InsideAt(b: Box, s: Segment, t: real) {
    && b.x0 <= s.x0 + t * (s.x1 - s.x0) <= b.x1
    && b.y0 <= s.y0 + t * (s.y1 - s.y0) <= b.y1
  }

  ghost predicate Meets(b: Box, s: Segment) {
    exists t :: 0.0 <= t <= 1.0 && InsideAt(b, s, t)
  }

  /** One side of the box as a condition on t: p t is at most q. */
  datatype Edge = Edge(p: real, q: real)

  predicate Allows(e: Edge, t: real) { e.p * t <= e.q }

  predicate AllAllow(es: seq<Edge>, t: real) { forall i :: 0 <= i < |es| ==> Allows(es[i], t) }

  function Edges(b: Box, s: Segment): seq<Edge> {
    var dx, dy := s.x1 - s.x0, s.y1 - s.y0;
    [Edge(-dx, s.x0 - b.x0), Edge(dx, b.x1 - s.x0), Edge(-dy, s.y0 - b.y0), Edge(dy, b.y1 - s.y0)]
  }

  lemma EdgesAreTheBox(b: Box, s: Segment, t: real)
    ensures AllAllow(Edges(b, s), t) <==> InsideAt(b, s, t)
  {
    var es, dx, dy := Edges(b, s), s.x1 - s.x0, s.y1 - s.y0;
    assert (-dx) * t == -(t * dx) && dx * t == t * dx && (-dy) * t == -(t * dy) && dy * t == t * dy;
    assert Allows(es[0], t) <==> b.x0 <= s.x0 + t * dx;
    assert Allows(es[1], t) <==> s.x0 + t * dx <= b.x1;
    assert Allows(es[2], t) <==> b.y0 <= s.y0 + t * dy;
    assert Allows(es[3], t) <==> s.y0 + t * dy <= b.y1;
    assert |es| == 4 && (AllAllow(es, t) <==> Allows(es[0], t) && Allows(es[1], t) && Allows(es[2], t) && Allows(es[3], t));
  }

  lemma AtMost(p: real, q: real, t: real)
    requires p > 0.0
    ensures p * t <= q <==> t <= q / p
  {
    var r := q / p;
    assert p * r == q && p * (t - r) == p * t - q;
    if t > r { Positive(p, t - r); }
    if t <= r { NotPositive(p, t - r); }
  }

  lemma AtLeast(p: real, q: real, t: real)
    requires p < 0.0
    ensures p * t <= q <==> t >= q / p
  {
    AtMost(-p, q, -t);
    assert (-p) * (-t) == p * t && q / (-p) == -(q / p);
  }

  lemma Positive(x: real, y: real)
    requires x > 0.0 && y > 0.0
    ensures x * y > 0.0
  {
  }

  lemma NotPositive(x: real, y: real)
    requires x > 0.0 && y <= 0.0
    ensures x * y <= 0.0
  {
  }

  /** What one edge leaves of the interval from t0 to t1; None when nothing is left. */
  method Clip(e: Edge, t0: real, t1: real) returns (empty: bool, u0: real, u1: real)
    requires t0 <= t1
    ensures empty ==> forall t :: Between(t0, t, t1) ==> !Allows(e, t)
    ensures !empty ==> u0 <= u1 && forall t :: Between(t0, t, t1) && Allows(e, t) <==> Between(u0, t, u1)
  {
    empty, u0, u1 := false, t0, t1;
    if e.p == 0.0 {
      assert forall t :: Allows(e, t) <==> 0.0 <= e.q;
      empty := e.q < 0.0;
    } else if e.p < 0.0 {
      var r := e.q / e.p;
      forall t ensures Allows(e, t) <==> t >= r { AtLeast(e.p, e.q, t); }
      if r > t1 {
        empty := true;
      } else if r > t0 {
        u0 := r;
      }
    } else {
      var r := e.q / e.p;
      forall t ensures Allows(e, t) <==> t <= r { AtMost(e.p, e.q, t); }
      if r < t0 {
        empty := true;
      } else if r < t1 {
        u1 := r;
      }
    }
  }

  lemma OneMoreEdge(es: seq<Edge>, i: nat, t: real)
    requires i < |es|
    ensures AllAllow(es[..i + 1], t) <==> AllAllow(es[..i], t) && Allows(es[i], t)
  {
    assert es[..i + 1] == es[..i] + [es[i]];
  }

  /** The interval from t0 to t1 is what these edges leave of the segment. */
  ghost predicate Covers(t0: real, t1: real, es: seq<Edge>) {
    forall t :: Between(t0, t, t1) <==> Between(0.0, t, 1.0) && AllAllow(es, t)
  }

  predicate Between(a: real, t: real, b: real) { a <= t <= b }

  lemma StillCovers(t0: real, t1: real, u0: real, u1: real, es: seq<Edge>, i: nat)
    requires i < |es| && Covers(t0, t1, es[..i])
    requires forall t :: Between(t0, t, t1) && Allows(es[i], t) <==> Between(u0, t, u1)
    ensures Covers(u0, u1, es[..i + 1])
  {
    forall t ensures Between(u0, t, u1) <==> Between(0.0, t, 1.0) && AllAllow(es[..i + 1], t) {
      OneMoreEdge(es, i, t);
      assert Between(t0, t, t1) <==> Between(0.0, t, 1.0) && AllAllow(es[..i], t);
    }
  }

  lemma NothingCovered(t0: real, t1: real, es: seq<Edge>, i: nat)
    requires i < |es| && Covers(t0, t1, es[..i]) && forall t :: Between(t0, t, t1) ==> !Allows(es[i], t)
    ensures forall t :: Between(0.0, t, 1.0) ==> !AllAllow(es[..i + 1], t)
  {
    forall t | Between(0.0, t, 1.0) ensures !AllAllow(es[..i + 1], t) {
      OneMoreEdge(es, i, t);
      assert Between(t0, t, t1) <==> Between(0.0, t, 1.0) && AllAllow(es[..i], t);
    }
  }

  /** True exactly when some point of the segment lies in the closed box, for every segment,
      degenerate ones included. */
  method SegMeetsBox(b: Box, s: Segment) returns (meets: bool)
    ensures meets <==> Meets(b, s)
  {
    var edges := Edges(b, s);
    var t0, t1 := 0.0, 1.0;
    var i := 0;
    while i < 4
      invariant i <= 4 && t0 <= t1
      invariant Covers(t0, t1, edges[..i])
    {
      var empty, u0, u1 := Clip(edges[i], t0, t1);
      if empty {
        NothingCovered(t0, t1, edges, i);
        NoneLeft(b, s, edges[..i + 1]);
        return false;
      }
      StillCovers(t0, t1, u0, u1, edges, i);
      t0, t1 := u0, u1;
      i := i + 1;
    }
    assert edges[..4] == edges;
    assert Between(t0, t0, t1);
    EdgesAreTheBox(b, s, t0);
    meets := t0 <= t1;
  }

  lemma NoneLeft(b: Box, s: Segment, some: seq<Edge>)
    requires some <= Edges(b, s) && forall t :: Between(0.0, t, 1.0) ==> !AllAllow(some, t)
    ensures !Meets(b, s)
  {
    forall t | 0.0 <= t <= 1.0 ensures !InsideAt(b, s, t) {
      EdgesAreTheBox(b, s, t);
      assert Between(0.0, t, 1.0) && !AllAllow(some, t);
    }
  }

  // ----- curves

  /** Segments of a curve given as x, y, x, y, ...; a trailing odd coordinate is no point. */
  function Segments(pts: seq<real>): nat { if |pts| < 4 then 0 else |pts| / 2 - 1 }

  function SegmentAt(pts: seq<real>, k: nat): Segment
    requires k < Segments(pts)
  {
    Segment(pts[2 * k], pts[2 * k + 1], pts[2 * k + 2], pts[2 * k + 3])
  }

  /** Consecutive points are joined, all of them, each segment beginning where the one before ends. */
  lemma SegmentsJoin(pts: seq<real>, k: nat)
    requires k < Segments(pts)
    ensures var s := SegmentAt(pts, k);
            && s.x0 == pts[2 * k] && s.y0 == pts[2 * k + 1]
            && (k + 1 < Segments(pts) ==> SegmentAt(pts, k + 1).x0 == s.x1 && SegmentAt(pts, k + 1).y0 == s.y1)
            && (k + 1 == Segments(pts) ==> |pts| - 2 * (k + 2) < 2 && s.x1 == pts[2 * (k + 1)] && s.y1 == pts[2 * (k + 1) + 1])
  {
  }

  /** The first segment that meets the box, -1 when none does. */
  method FirstCrossing(b: Box, pts: seq<real>) returns (first: int)
    ensures -1 <= first < Segments(pts)
    ensures first >= 0 ==> Meets(b, SegmentAt(pts, first))
    ensures forall k :: 0 <= k < (if first >= 0 then first else Segments(pts)) ==> !Meets(b, SegmentAt(pts, k))
  {
    var i := 0;
    while i + 3 < |pts|
      invariant i % 2 == 0 && i / 2 <= Segments(pts)
      invariant forall k :: 0 <= k < i / 2 ==> !Meets(b, SegmentAt(pts, k))
    {
      assert SegmentAt(pts, i / 2) == Segment(pts[i], pts[i + 1], pts[i + 2], pts[i + 3]);
      var meets := SegMeetsBox(b, Segment(pts[i], pts[i + 1], pts[i + 2], pts[i + 3]));
      if meets {
        return i / 2;
      }
      i := i + 2;
    }
    first := -1;
  }
}
