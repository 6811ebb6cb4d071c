/** Distance from a point to a polyline, after src/modules/common/utils/polyline.util.ts.
    Lengths are compared through their squares, since hypot is increasing in the square, and the two
    trigonometric ingredients (the cosine of a latitude, the haversine distance) are parameters. */
module Geometry {
  import opened Wrappers

  datatype LatLng = LatLng(lat: real, lng: real)

  datatype Vec = Vec(x: real, y: real)

  /** metersPerDegree is the Earth's radius times pi / 180. */
  datatype Earth = Earth(metersPerDegree: real, cosine: real -> real)

  function Times(x: real, y: real): real {
    x * y
  }

  lemma SameSignProduct(x: real, y: real)
    requires (x > 0.0 && y > 0.0) || (x < 0.0 && y < 0.0)
    ensures Times(x, y) > 0.0
  {
  }

  function Sq(x: real): real {
    Times(x, x)
  }

  lemma SqSign(x: real)
    ensures if x == 0.0 then Sq(x) == 0.0 else Sq(x) > 0.0
  {
    if x != 0.0 {
      hide Times;
      SameSignProduct(x, x);
    }
  }

  function DistanceSq(p: Vec, q: Vec): (d: real)
    ensures d >= 0.0
  {
    hide Times;
    SqSign(p.x - q.x);
    SqSign(p.y - q.y);
    Sq(p.x - q.x) + Sq(p.y - q.y)
  }

  lemma DistinctPoints(p: Vec, q: Vec)
    requires p != q
    ensures DistanceSq(p, q) > 0.0
  {
    hide Sq;
    SqSign(p.x - q.x);
    SqSign(p.y - q.y);
  }

  function Project(earth: Earth, place: LatLng, lat0: real): Vec {
    Vec(earth.metersPerDegree * place.lng * earth.cosine(lat0), earth.metersPerDegree * place.lat)
  }

  /** The point a fraction t of the way from a to b. */
  function Along(a: Vec, b: Vec, t: real): Vec {
    Vec(a.x + Times(t, b.x - a.x), a.y + Times(t, b.y - a.y))
  }

  function Dot(p: Vec, a: Vec, b: Vec): real {
    Times(p.x - a.x, b.x - a.x) + Times(p.y - a.y, b.y - a.y)
  }

  function Clamp01(t: real): (c: real)
    ensures 0.0 <= c <= 1.0
  {
    if t < 0.0 then 0.0 else if t > 1.0 then 1.0 else t
  }

  /** Where on the segment from a to b the source looks for the nearest point. */
  function ClosestFraction(p: Vec, a: Vec, b: Vec): (t: real)
    ensures 0.0 <= t <= 1.0
  {
    var lengthSq := DistanceSq(b, a);
    if lengthSq == 0.0 then 0.0 else Clamp01(Dot(p, a, b) / lengthSq)
  }

  function SegmentDistanceSq(p: Vec, a: Vec, b: Vec): real {
    DistanceSq(p, Along(a, b, ClosestFraction(p, a, b)))
  }

  /** The part of the squared distance along a segment that depends on the fraction s. */
  function Parabola(length: real, dot: real, s: real): real {
    Times(Sq(s), length) - 2.0 * Times(s, dot)
  }

  lemma DistanceAlong(p: Vec, a: Vec, b: Vec, s: real)
    ensures DistanceSq(p, Along(a, b, s)) == DistanceSq(p, a) + Parabola(DistanceSq(b, a), Dot(p, a, b), s)
  {
    hide Times, Sq;
    AxisAlong(p.x, a.x, b.x, s);
    AxisAlong(p.y, a.y, b.y, s);
    Distribute(s, Times(p.x - a.x, b.x - a.x), Times(p.y - a.y, b.y - a.y));
    Distribute(Sq(s), Sq(b.x - a.x), Sq(b.y - a.y));
  }

  lemma Distribute(k: real, x: real, y: real)
    ensures Times(k, x + y) == Times(k, x) + Times(k, y)
  {
  }

  lemma AxisAlong(p: real, a: real, b: real, s: real)
    ensures Sq(p - (a + Times(s, b - a)))
            == Sq(p - a) - 2.0 * Times(s, Times(p - a, b - a)) + Times(Sq(s), Sq(b - a))
  {
    var u, d := p - a, b - a;
    assert p - (a + s * d) == u - s * d;
    assert (u - s * d) * (u - s * d) == u * u - 2.0 * (s * (u * d)) + s * s * (d * d);
  }

  lemma ParabolaGap(length: real, vertex: real, s: real, t: real)
    ensures Parabola(length, vertex * length, s) - Parabola(length, vertex * length, t)
            == Times(length, Sq(s - t)) + 2.0 * length * ((s - t) * (t - vertex))
  {
    var gap := s - t;
    assert s == t + gap;
    assert s * s == t * t + 2.0 * (t * gap) + gap * gap;
    assert s * s * length - t * t * length == length * (gap * gap) + 2.0 * length * (gap * t);
    assert s * (vertex * length) - t * (vertex * length) == length * (gap * vertex);
  }

  /** On [0, 1] the parabola is least at the clamped vertex, and only there. */
  lemma ClampedVertexIsLeast(length: real, dot: real, s: real)
    requires length > 0.0 && 0.0 <= s <= 1.0
    ensures s == Clamp01(dot / length) || Parabola(length, dot, s) > Parabola(length, dot, Clamp01(dot / length))
  {
    var vertex := dot / length;
    var t := Clamp01(vertex);
    if s != t {
      ParabolaGap(length, vertex, s, t);
      SqSign(s - t);
      SameSignProduct(length, Sq(s - t));
      assert (s - t) * (t - vertex) >= 0.0;
      assert length * ((s - t) * (t - vertex)) >= 0.0;
    }
  }

  /** No point of the segment is nearer than the one the source computes, and on a segment that is
      not a single point no other point is as near. */
  lemma ProjectionIsNearest(p: Vec, a: Vec, b: Vec, s: real)
    requires 0.0 <= s <= 1.0
    ensures SegmentDistanceSq(p, a, b) <= DistanceSq(p, Along(a, b, s))
    ensures a != b && s != ClosestFraction(p, a, b) ==> SegmentDistanceSq(p, a, b) < DistanceSq(p, Along(a, b, s))
  {
    hide Dot, Parabola;
    DistanceAlong(p, a, b, s);
    DistanceAlong(p, a, b, ClosestFraction(p, a, b));
    if a != b {
      DistinctPoints(b, a);
      hide Along, Sq, DistanceSq;
      ClampedVertexIsLeast(DistanceSq(b, a), Dot(p, a, b), s);
    }
  }

  // ---- polylines ----

  /** The distance of a place to the segment between two others, in the plane the source lays through the three. */
  function GroundDistanceSq(earth: Earth, place: LatLng, start: LatLng, end: LatLng): real {
    var lat0 := (place.lat + start.lat + end.lat) / 3.0;
    SegmentDistanceSq(Project(earth, place, lat0), Project(earth, start, lat0), Project(earth, end, lat0))
  }

  /** The squared distance, in the same plane, of the place to one point of the segment. */
  function GroundDistanceSqTo(earth: Earth, place: LatLng, start: LatLng, end: LatLng, s: real): real {
    var lat0 := (place.lat + start.lat + end.lat) / 3.0;
    DistanceSq(Project(earth, place, lat0), Along(Project(earth, start, lat0), Project(earth, end, lat0), s))
  }

  /** The squared distance of the place to a point of the i-th segment of a polyline. */
  function OnSegmentSq(earth: Earth, place: LatLng, points: seq<LatLng>, i: int, s: real): real
    requires 0 <= i < |points| - 1
  {
    GroundDistanceSqTo(earth, place, points[i], points[i + 1], s)
  }

  /** Infinity for no points, one haversine for one point, else the least segment distance found by the loop. */
  method DistanceToPolylineSq(earth: Earth, haversineSq: (LatLng, LatLng) -> real, place: LatLng, points: seq<LatLng>)
    returns (d: Option<real>)
    ensures d == None <==> points == []
    ensures |points| == 1 ==> d == Some(haversineSq(place, points[0]))
    ensures |points| > 1 ==>
              exists i, s :: 0 <= i < |points| - 1 && 0.0 <= s <= 1.0
                             && d == Some(OnSegmentSq(earth, place, points, i, s))
    ensures |points| > 1 ==>
              forall i, s :: 0 <= i < |points| - 1 && 0.0 <= s <= 1.0
                             ==> d.value <= OnSegmentSq(earth, place, points, i, s)
  {
    if |points| == 0 {
      return None;
    }
    if |points| == 1 {
      return Some(haversineSq(place, points[0]));
    }
    hide SegmentDistanceSq, DistanceSq, Along, Project;
    d := None;
    ghost var at: nat := 0;
    for i := 0 to |points| - 1
      invariant d.Some? <==> i > 0
      invariant i > 0 ==> at < i && d.value == GroundDistanceSq(earth, place, points[at], points[at + 1])
      invariant forall j :: 0 <= j < i ==> d.value <= GroundDistanceSq(earth, place, points[j], points[j + 1])
    {
      var segment := GroundDistanceSq(earth, place, points[i], points[i + 1]);
      if d.None? || segment < d.value {
        d := Some(segment);
        at := i;
      }
    }
    NearestOnGround(earth, place, points[at], points[at + 1]);
    ghost var t :| 0.0 <= t <= 1.0 && d.value == GroundDistanceSqTo(earth, place, points[at], points[at + 1], t);
    assert d == Some(OnSegmentSq(earth, place, points, at, t));
    forall i, s | 0 <= i < |points| - 1 && 0.0 <= s <= 1.0
      ensures d.value <= OnSegmentSq(earth, place, points, i, s)
    {
      NearestOnGround(earth, place, points[i], points[i + 1]);
    }
  }

  /** In that plane degrees of latitude are equally long everywhere, degrees of longitude shrink with the cosine of the
      mean latitude, and the point at fraction s lies at that fraction of both differences. */
  lemma GroundFormula(earth: Earth, place: LatLng, start: LatLng, end: LatLng, s: real)
    ensures var east := earth.metersPerDegree * earth.cosine((place.lat + start.lat + end.lat) / 3.0);
            var north := earth.metersPerDegree;
            GroundDistanceSqTo(earth, place, start, end, s)
            == Sq(east * (place.lng - (start.lng + s * (end.lng - start.lng))))
               + Sq(north * (place.lat - (start.lat + s * (end.lat - start.lat))))
  {
    var c := earth.cosine((place.lat + start.lat + end.lat) / 3.0);
    Scaled(earth.metersPerDegree, c, place.lng, start.lng, end.lng, s);
    Scaled(earth.metersPerDegree, 1.0, place.lat, start.lat, end.lat, s);
    hide Sq;
  }

  lemma Scaled(m: real, c: real, p: real, a: real, b: real, s: real)
    ensures m * p * c - (m * a * c + Times(s, m * b * c - m * a * c)) == m * c * (p - (a + s * (b - a)))
  {
    var d := b - a;
    assert m * b * c - m * a * c == (m * c) * d;
    assert s * ((m * c) * d) == (m * c) * (s * d);
    assert m * p * c == (m * c) * p && m * a * c == (m * c) * a;
  }

  /** The segment distance is attained on the segment and is a lower bound on it. */
  lemma NearestOnGround(earth: Earth, place: LatLng, start: LatLng, end: LatLng)
    ensures exists s :: 0.0 <= s <= 1.0
                        && GroundDistanceSq(earth, place, start, end) == GroundDistanceSqTo(earth, place, start, end, s)
    ensures forall s :: 0.0 <= s <= 1.0
                        ==> GroundDistanceSq(earth, place, start, end)
                            <= GroundDistanceSqTo(earth, place, start, end, s)
  {
    hide DistanceSq, Along, Project;
    var lat0 := (place.lat + start.lat + end.lat) / 3.0;
    var p, a, b := Project(earth, place, lat0), Project(earth, start, lat0), Project(earth, end, lat0);
    var t := ClosestFraction(p, a, b);
    assert GroundDistanceSq(earth, place, start, end) == GroundDistanceSqTo(earth, place, start, end, t);
    forall s | 0.0 <= s <= 1.0
      ensures GroundDistanceSq(earth, place, start, end) <= GroundDistanceSqTo(earth, place, start, end, s)
    {
      ProjectionIsNearest(p, a, b, s);
    }
  }
}
