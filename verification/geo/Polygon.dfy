/**
 The ray-casting test of a point against a polygon, in exact arithmetic (packages/core/src/scopeMask.ts:79-108,
 packages/core/src/geoMath.ts:19-25).
 */
module Polygon {

  datatype GeoPoint = GeoPoint(latitude: real, longitude: real)

  // ----- longitudes -----

  /** The remainder of JavaScript: it has the sign of the dividend. */
  function Remainder(x: real, m: real): real
    requires m > 0.0
  {
    var q := x / m;
    x - m * (if q >= 0.0 then q.Floor else -((-q).Floor)) as real
  }

  function NormalizeLongitude(lon: real): real {
    var normalized := Remainder(lon + 180.0, 360.0);
    (if normalized < 0.0 then normalized + 360.0 else normalized) - 180.0
  }

  /** Normalizing subtracts the whole turns. */
  lemma NormalizedByTurns(lon: real)
    ensures NormalizeLongitude(lon) == lon - 360.0 * ((lon + 180.0) / 360.0).Floor as real
    ensures -180.0 <= NormalizeLongitude(lon) < 180.0
  {
    var x := lon + 180.0;
    var q := x / 360.0;
    assert x == 360.0 * q;
    if q < 0.0 {
      var k := (-q).Floor;
      var r := Remainder(x, 360.0);
      assert r == 360.0 * (q + k as real);
      assert -1.0 < q + k as real <= 0.0;
      if q + k as real < 0.0 {
        assert q.Floor == -k - 1;
      } else {
        assert q.Floor == -k;
      }
    }
  }

  lemma FloorShifts(x: real, n: int)
    ensures (x + n as real).Floor == x.Floor + n
  {
  }

  /** A longitude is normalized to itself exactly when it is in range, and whole turns do not matter. */
  lemma TurnsDoNotMatter(lon: real, turns: int)
    ensures NormalizeLongitude(lon + 360.0 * turns as real) == NormalizeLongitude(lon)
    ensures NormalizeLongitude(lon) == lon <==> -180.0 <= lon < 180.0
  {
    NormalizedByTurns(lon);
    NormalizedByTurns(lon + 360.0 * turns as real);
    var q := (lon + 180.0) / 360.0;
    assert (lon + 360.0 * turns as real + 180.0) / 360.0 == q + turns as real;
    FloorShifts(q, turns);
  }

  // ----- paths of edges, whatever an edge counts -----

  /** What a list of edges counts: each edge goes from the later point to the earlier one. */
  function PathCount(count: (GeoPoint, GeoPoint) -> nat, path: seq<GeoPoint>): nat {
    if |path| < 2 then 0
    else PathCount(count, path[..|path| - 1]) + count(path[|path| - 1], path[|path| - 2])
  }

  /** The same for the closed polygon. */
  function LoopCount(count: (GeoPoint, GeoPoint) -> nat, polygon: seq<GeoPoint>): nat {
    if polygon == [] then 0
    else count(polygon[0], polygon[|polygon| - 1]) + PathCount(count, polygon)
  }

  lemma {:induction false} PathsJoin(count: (GeoPoint, GeoPoint) -> nat, a: seq<GeoPoint>, b: seq<GeoPoint>)
    requires a != [] && b != []
    ensures PathCount(count, a + b) == PathCount(count, a) + count(b[0], a[|a| - 1]) + PathCount(count, b)
  {
    var front := b[..|b| - 1];
    assert (a + b)[..|a + b| - 1] == a + front;
    if front == [] {
      assert a + front == a;
    } else {
      PathsJoin(count, a, front);
    }
  }

  lemma OnePointPath(count: (GeoPoint, GeoPoint) -> nat, p: GeoPoint)
    ensures PathCount(count, [p]) == 0
  {
  }

  function Rotated(polygon: seq<GeoPoint>): seq<GeoPoint> {
    if polygon == [] then [] else polygon[1..] + [polygon[0]]
  }

  lemma RotationKeepsCount(count: (GeoPoint, GeoPoint) -> nat, polygon: seq<GeoPoint>)
    ensures LoopCount(count, Rotated(polygon)) == LoopCount(count, polygon) && |Rotated(polygon)| == |polygon|
  {
    if |polygon| >= 2 {
      var first, rest := polygon[0], polygon[1..];
      assert polygon == [first] + rest;
      PathsJoin(count, [first], rest);
      PathsJoin(count, rest, [first]);
    } else if |polygon| == 1 {
      assert Rotated(polygon) == polygon;
    }
  }

  function Reversed(path: seq<GeoPoint>): (r: seq<GeoPoint>)
    ensures |r| == |path|
    ensures path != [] ==> r[0] == path[|path| - 1] && r[|r| - 1] == path[0]
  {
    if path == [] then [] else [path[|path| - 1]] + Reversed(path[..|path| - 1])
  }

  /** An edge counts the same in both directions. */
  ghost predicate Undirected(count: (GeoPoint, GeoPoint) -> nat) {
    forall p, q :: count(p, q) == count(q, p)
  }

  lemma {:induction false} ReversalKeepsPath(count: (GeoPoint, GeoPoint) -> nat, path: seq<GeoPoint>)
    requires Undirected(count)
    ensures PathCount(count, Reversed(path)) == PathCount(count, path)
  {
    if |path| >= 2 {
      var front, last := path[..|path| - 1], path[|path| - 1];
      ReversalKeepsPath(count, front);
      PathsJoin(count, [last], Reversed(front));
      assert Reversed(path) == [last] + Reversed(front);
    } else if |path| == 1 {
      assert Reversed(path) == [path[0]] + [];
    }
  }

  lemma ReversalKeepsCount(count: (GeoPoint, GeoPoint) -> nat, polygon: seq<GeoPoint>)
    requires Undirected(count)
    ensures LoopCount(count, Reversed(polygon)) == LoopCount(count, polygon)
  {
    ReversalKeepsPath(count, polygon);
  }

  lemma {:induction false} SameEdgesSameCount(count: (GeoPoint, GeoPoint) -> nat, path: seq<GeoPoint>, path': seq<GeoPoint>)
    requires |path| == |path'|
    requires forall i, j :: 0 <= i < |path| && 0 <= j < |path| ==> count(path'[i], path'[j]) == count(path[i], path[j])
    ensures PathCount(count, path') == PathCount(count, path)
  {
    if |path| >= 2 { SameEdgesSameCount(count, path[..|path| - 1], path'[..|path| - 1]); }
  }

  /** Inserting a point takes away the edge after vertex k, or the closing edge, and adds its two parts. */
  lemma InsertionCountsParts(count: (GeoPoint, GeoPoint) -> nat, polygon: seq<GeoPoint>, k: nat, m: GeoPoint)
    requires k < |polygon|
    ensures var next := polygon[if k + 1 < |polygon| then k + 1 else 0];
      LoopCount(count, polygon[..k + 1] + [m] + polygon[k + 1..]) + count(next, polygon[k])
      == LoopCount(count, polygon) + count(m, polygon[k]) + count(next, m)
  {
    var head, tail := polygon[..k + 1], polygon[k + 1..];
    assert polygon == head + tail;
    PathsJoin(count, head, [m]);
    OnePointPath(count, m);
    if tail == [] {
      assert head == polygon && head + [m] + tail == polygon + [m];
    } else {
      PathsJoin(count, head + [m], tail);
      PathsJoin(count, head, tail);
    }
  }

  /** A diagonal is counted once in each part. */
  lemma DiagonalCountsTwice(count: (GeoPoint, GeoPoint) -> nat, polygon: seq<GeoPoint>, k: nat)
    requires 2 <= k < |polygon| - 1 && Undirected(count)
    ensures LoopCount(count, polygon[..k + 1]) + LoopCount(count, [polygon[0]] + polygon[k..])
      == LoopCount(count, polygon) + 2 * count(polygon[k], polygon[0])
  {
    var head, rest := polygon[..k + 1], polygon[k + 1..];
    var tail := [polygon[k]] + rest;
    assert polygon == head + rest && polygon[k..] == tail;
    PathsJoin(count, head, rest);
    PathsJoin(count, [polygon[k]], rest);
    PathsJoin(count, [polygon[0]], tail);
  }

  // ----- edges -----

  /** The longitude at which the line through two points meets a latitude. */
  function Meets(xi: real, yi: real, xj: real, yj: real, lat: real): real
    requires yi != yj
  {
    (xj - xi) * (lat - yi) / (yj - yi) + xi
  }

  /** The edge between two points is crossed by the ray from (lat, x) towards larger longitudes. */
  predicate Crosses(lat: real, x: real, i: GeoPoint, j: GeoPoint) {
    (i.latitude > lat) != (j.latitude > lat)
    && x < Meets(NormalizeLongitude(i.longitude), i.latitude, NormalizeLongitude(j.longitude), j.latitude, lat)
  }

  function Crossing(lat: real, x: real): (GeoPoint, GeoPoint) -> nat {
    (i, j) => if Crosses(lat, x, i, j) then 1 else 0
  }

  predicate Inside(lat: real, lon: real, polygon: seq<GeoPoint>) {
    |polygon| >= 3 && LoopCount(Crossing(lat, NormalizeLongitude(lon)), polygon) % 2 == 1
  }

  /** What the loop has counted before vertex i. */
  function CountedBefore(count: (GeoPoint, GeoPoint) -> nat, polygon: seq<GeoPoint>, i: nat): nat
    requires i <= |polygon|
  {
    if i == 0 then 0 else count(polygon[0], polygon[|polygon| - 1]) + PathCount(count, polygon[..i])
  }

  lemma CountsOneMore(count: (GeoPoint, GeoPoint) -> nat, polygon: seq<GeoPoint>, i: nat)
    requires i < |polygon|
    ensures CountedBefore(count, polygon, i + 1)
      == CountedBefore(count, polygon, i) + count(polygon[i], polygon[if i == 0 then |polygon| - 1 else i - 1])
  {
    assert polygon[..i + 1][..i] == polygon[..i];
  }

  lemma ParityToggles(counted: nat, step: nat)
    requires step <= 1
    ensures (counted + step) % 2 == 1 <==> ((counted % 2 == 1) != (step == 1))
  {
  }

  /** `isPointInPolygon`: toggles at every crossed edge. */
  method IsPointInPolygon(lat: real, lon: real, polygon: seq<GeoPoint>) returns (inside: bool)
    ensures inside <==> Inside(lat, lon, polygon)
  {
    if |polygon| < 3 {
      return false;
    }
    inside := false;
    var x := NormalizeLongitude(lon);
    ghost var count := Crossing(lat, x);
    var i, j := 0, |polygon| - 1;
    while i < |polygon|
      invariant 0 <= i <= |polygon| && j == (if i == 0 then |polygon| - 1 else i - 1)
      invariant inside <==> CountedBefore(count, polygon, i) % 2 == 1
    {
      var intersect := EdgeIsCrossed(lat, x, polygon[i], polygon[j]);
      CountsOneMore(count, polygon, i);
      ParityToggles(CountedBefore(count, polygon, i), count(polygon[i], polygon[j]));
      if intersect {
        inside := !inside;
      }
      j := i;
      i := i + 1;
    }
    assert polygon[..|polygon|] == polygon;
  }

  method EdgeIsCrossed(lat: real, x: real, i: GeoPoint, j: GeoPoint) returns (intersect: bool)
    ensures intersect <==> Crossing(lat, x)(i, j) == 1
  {
    var xi, yi := NormalizeLongitude(i.longitude), i.latitude;
    var xj, yj := NormalizeLongitude(j.longitude), j.latitude;
    intersect := (yi > lat) != (yj > lat) && x < Meets(xi, yi, xj, yj, lat);
  }

  // ----- the direction of an edge does not matter -----

  lemma Negated(n: real, d: real)
    requires d != 0.0
    ensures (-n) / (-d) == n / d
  {
  }

  lemma Split(n: real, m: real, d: real)
    requires d != 0.0
    ensures (n + m * d) / d == n / d + m
  {
  }

  lemma MeetsHasNoDirection(xi: real, yi: real, xj: real, yj: real, lat: real)
    requires yi != yj
    ensures Meets(xi, yi, xj, yj, lat) == Meets(xj, yj, xi, yi, lat)
  {
    var w, d, u := xj - xi, yj - yi, lat - yj;
    assert lat - yi == u + d && xi - xj == -w && yi - yj == -d;
    assert w * (u + d) == w * u + w * d;
    Split(w * u, w, d);
    assert (-w) * u == -(w * u);
    Negated(w * u, d);
  }

  lemma EdgesHaveNoDirection(lat: real, x: real)
    ensures Undirected(Crossing(lat, x))
  {
    forall p: GeoPoint, q: GeoPoint ensures Crosses(lat, x, p, q) <==> Crosses(lat, x, q, p) {
      if p.latitude != q.latitude {
        MeetsHasNoDirection(NormalizeLongitude(p.longitude), p.latitude, NormalizeLongitude(q.longitude), q.latitude, lat);
      }
    }
  }

  // ----- invariances -----

  /** Starting the list of vertices elsewhere changes nothing. */
  lemma RotationChangesNothing(lat: real, lon: real, polygon: seq<GeoPoint>)
    ensures Inside(lat, lon, Rotated(polygon)) <==> Inside(lat, lon, polygon)
  {
    RotationKeepsCount(Crossing(lat, NormalizeLongitude(lon)), polygon);
  }

  /** Going round the other way changes nothing. */
  lemma ReversalChangesNothing(lat: real, lon: real, polygon: seq<GeoPoint>)
    ensures Inside(lat, lon, Reversed(polygon)) <==> Inside(lat, lon, polygon)
  {
    EdgesHaveNoDirection(lat, NormalizeLongitude(lon));
    ReversalKeepsCount(Crossing(lat, NormalizeLongitude(lon)), polygon);
  }

  predicate Turned(lon: real, turns: int, lon': real) { lon' == lon + 360.0 * turns as real }

  /** Two points that differ by whole turns. */
  ghost predicate SamePlace(p: GeoPoint, q: GeoPoint) {
    p.latitude == q.latitude && exists turns: int :: Turned(p.longitude, turns, q.longitude)
  }

  lemma SamePlaceSameLongitude(p: GeoPoint, q: GeoPoint)
    requires SamePlace(p, q)
    ensures NormalizeLongitude(q.longitude) == NormalizeLongitude(p.longitude)
  {
    var turns: int :| Turned(p.longitude, turns, q.longitude);
    TurnsDoNotMatter(p.longitude, turns);
  }

  lemma SamePlacesCrossAlike(lat: real, x: real, p: GeoPoint, p': GeoPoint, q: GeoPoint, q': GeoPoint)
    requires SamePlace(p, p') && SamePlace(q, q')
    ensures Crossing(lat, x)(p', q') == Crossing(lat, x)(p, q)
  {
    SamePlaceSameLongitude(p, p');
    SamePlaceSameLongitude(q, q');
  }

  /** Adding whole turns to the point and to any vertices changes nothing. */
  lemma TurnsChangeNothing(lat: real, lon: real, turns: int, polygon: seq<GeoPoint>, polygon': seq<GeoPoint>)
    requires |polygon| == |polygon'| && forall i :: 0 <= i < |polygon| ==> SamePlace(polygon[i], polygon'[i])
    ensures Inside(lat, lon + 360.0 * turns as real, polygon') <==> Inside(lat, lon, polygon)
  {
    var x := NormalizeLongitude(lon);
    TurnsDoNotMatter(lon, turns);
    forall i, j | 0 <= i < |polygon| && 0 <= j < |polygon|
      ensures Crossing(lat, x)(polygon'[i], polygon'[j]) == Crossing(lat, x)(polygon[i], polygon[j])
    {
      SamePlacesCrossAlike(lat, x, polygon[i], polygon'[i], polygon[j], polygon'[j]);
    }
    SameEdgesSameCount(Crossing(lat, x), polygon, polygon');
  }

  // ----- a point on an edge -----

  predicate InRange(p: GeoPoint) { -180.0 <= p.longitude && p.longitude < 180.0 }

  /** The value at a fraction of the way from u to v. */
  function Mean(u: real, v: real, s: real): real { u + s * (v - u) }

  /** The point at a fraction of the way from a to b. */
  function Between(a: GeoPoint, b: GeoPoint, s: real): GeoPoint {
    GeoPoint(Mean(a.latitude, b.latitude, s), Mean(a.longitude, b.longitude, s))
  }

  lemma Scaled(d: real, s: real)
    requires d >= 0.0 && 0.0 <= s <= 1.0
    ensures 0.0 <= s * d && s * d <= d
  {
    assert (1.0 - s) * d >= 0.0;
    assert (1.0 - s) * d == d - s * d;
  }

  /** A mean lies between, at either end only at that end. */
  lemma MeansLieBetween(u: real, v: real, s: real)
    requires 0.0 <= s <= 1.0
    ensures u <= v ==> u <= Mean(u, v, s) && Mean(u, v, s) <= v
    ensures v <= u ==> v <= Mean(u, v, s) && Mean(u, v, s) <= u
  {
    var d := v - u;
    if d >= 0.0 {
      Scaled(d, s);
      assert Mean(u, v, s) == u + s * d;
    } else {
      Scaled(-d, s);
      assert s * (-d) == -(s * d);
      assert Mean(u, v, s) == u + s * d;
    }
  }

  lemma MeanFromTheOtherEnd(u: real, v: real, s: real)
    ensures Mean(v, u, 1.0 - s) == Mean(u, v, s)
  {
    assert (1.0 - s) * (u - v) == (u - v) + s * (v - u);
  }

  lemma Cancel(s: real, a: real, c: real, b: real)
    requires s != 0.0 && b != 0.0
    ensures s * b != 0.0 && (s * a) * c / (s * b) == a * c / b
  {
    var q := a * c / b;
    assert q * b == a * c;
    assert q * (s * b) == s * (q * b);
    assert s * (a * c) == (s * a) * c;
  }

  /** The line from a to a mean point meets a latitude where the whole line does. */
  lemma PartsMeetAlike(xa: real, ya: real, xb: real, yb: real, s: real, lat: real)
    requires ya != yb && s != 0.0
    ensures Mean(ya, yb, s) != ya
    ensures Meets(xa, ya, Mean(xa, xb, s), Mean(ya, yb, s), lat) == Meets(xa, ya, xb, yb, lat)
  {
    Cancel(s, xb - xa, lat - ya, yb - ya);
    assert Mean(ya, yb, s) == ya + s * (yb - ya) && s * (yb - ya) != 0.0;
    assert Mean(ya, yb, s) - ya == s * (yb - ya) && Mean(xa, xb, s) - xa == s * (xb - xa);
  }

  lemma OtherPartsMeetAlike(xa: real, ya: real, xb: real, yb: real, s: real, lat: real)
    requires ya != yb && s != 1.0
    ensures Mean(ya, yb, s) != yb
    ensures Meets(xb, yb, Mean(xa, xb, s), Mean(ya, yb, s), lat) == Meets(xa, ya, xb, yb, lat)
  {
    MeanFromTheOtherEnd(xa, xb, s);
    MeanFromTheOtherEnd(ya, yb, s);
    PartsMeetAlike(xb, yb, xa, ya, 1.0 - s, lat);
    MeetsHasNoDirection(xa, ya, xb, yb, lat);
  }

  /** Where the ray meets an edge, if it reaches its latitudes. */
  predicate Reaches(lat: real, x: real, xi: real, yi: real, xj: real, yj: real) {
    (yi > lat) != (yj > lat) && x < Meets(xi, yi, xj, yj, lat)
  }

  lemma MeanSplitsReach(lat: real, x: real, xa: real, ya: real, xb: real, yb: real, s: real)
    requires 0.0 <= s <= 1.0
    ensures var xm, ym := Mean(xa, xb, s), Mean(ya, yb, s);
      && !(Reaches(lat, x, xa, ya, xm, ym) && Reaches(lat, x, xb, yb, xm, ym))
      && (Reaches(lat, x, xa, ya, xb, yb) <==> Reaches(lat, x, xa, ya, xm, ym) || Reaches(lat, x, xb, yb, xm, ym))
  {
    MeansLieBetween(ya, yb, s);
    if ya != yb {
      if s != 0.0 { PartsMeetAlike(xa, ya, xb, yb, s, lat); } else { assert Mean(ya, yb, s) == ya; }
      if s != 1.0 { OtherPartsMeetAlike(xa, ya, xb, yb, s, lat); } else { assert Mean(ya, yb, s) == yb; }
    }
  }

  /** A point that lies on an edge, longitudes normalized. */
  predicate OnEdge(m: GeoPoint, a: GeoPoint, b: GeoPoint, s: real) {
    && m.latitude == Mean(a.latitude, b.latitude, s)
    && NormalizeLongitude(m.longitude) == Mean(NormalizeLongitude(a.longitude), NormalizeLongitude(b.longitude), s)
  }

  /** A point on an edge splits it: the ray crosses one of the parts exactly when it crosses the edge. */
  lemma PointOnEdgeSplitsIt(lat: real, x: real, a: GeoPoint, b: GeoPoint, m: GeoPoint, s: real)
    requires 0.0 <= s <= 1.0 && OnEdge(m, a, b, s)
    ensures Crossing(lat, x)(m, a) + Crossing(lat, x)(b, m) == Crossing(lat, x)(b, a)
  {
    EdgesHaveNoDirection(lat, x);
    assert Crossing(lat, x)(m, a) == Crossing(lat, x)(a, m) && Crossing(lat, x)(b, a) == Crossing(lat, x)(a, b);
    MeanSplitsReach(lat, x, NormalizeLongitude(a.longitude), a.latitude, NormalizeLongitude(b.longitude), b.latitude, s);
  }

  /** The vertex after vertex k. */
  function NextVertex(polygon: seq<GeoPoint>, k: nat): GeoPoint
    requires k < |polygon|
  {
    polygon[if k + 1 < |polygon| then k + 1 else 0]
  }

  /** Inserting a point that lies on the edge after vertex k, longitudes normalized, changes nothing. */
  lemma PointOnNormalizedEdgeChangesNothing(lat: real, lon: real, polygon: seq<GeoPoint>, k: nat, m: GeoPoint, s: real)
    requires |polygon| >= 3 && k < |polygon| && 0.0 <= s <= 1.0 && OnEdge(m, polygon[k], NextVertex(polygon, k), s)
    ensures Inside(lat, lon, polygon[..k + 1] + [m] + polygon[k + 1..]) <==> Inside(lat, lon, polygon)
  {
    PointOnEdgeSplitsIt(lat, NormalizeLongitude(lon), polygon[k], NextVertex(polygon, k), m, s);
    InsertionCountsParts(Crossing(lat, NormalizeLongitude(lon)), polygon, k, m);
  }

  /** Two polygons that hold the same points. */
  ghost predicate SameRegion(p: seq<GeoPoint>, q: seq<GeoPoint>) {
    forall lat: real, lon: real :: Inside(lat, lon, p) <==> Inside(lat, lon, q)
  }

  function Inserted(polygon: seq<GeoPoint>, k: nat, m: GeoPoint): seq<GeoPoint>
    requires k < |polygon|
  {
    polygon[..k + 1] + [m] + polygon[k + 1..]
  }

  /** An edge and its parts along one latitude are never crossed. */
  lemma LevelEdgesAreNotCrossed(lat: real, x: real, a: GeoPoint, b: GeoPoint, m: GeoPoint)
    requires a.latitude == b.latitude == m.latitude
    ensures Crossing(lat, x)(m, a) + Crossing(lat, x)(b, m) == Crossing(lat, x)(b, a)
  {
  }

  lemma MeetsAtItsStart(xi: real, yi: real, xj: real, yj: real)
    requires yi != yj
    ensures Meets(xi, yi, xj, yj, yi) == xi
  {
    assert (xj - xi) * (yi - yi) == 0.0;
  }

  lemma MeetsAtAMean(xa: real, ya: real, xb: real, yb: real, s: real)
    requires ya != yb
    ensures Meets(xa, ya, xb, yb, Mean(ya, yb, s)) == Mean(xa, xb, s)
  {
    var w, d := xb - xa, yb - ya;
    assert Mean(ya, yb, s) - ya == s * d;
    assert w * (s * d) == (s * w) * d;
    Split(0.0, s * w, d);
  }

  lemma StrictPart(d: real, s: real) returns (part: real)
    requires d > 0.0 && 0.0 < s < 1.0
    ensures part == s * d && 0.0 < part && part < d
  {
    part := PositiveProduct(s, d);
    var rest := PositiveProduct(1.0 - s, d);
    PartsAddUp(s, d, part, rest);
  }

  lemma PositiveProduct(a: real, b: real) returns (p: real)
    requires a > 0.0 && b > 0.0
    ensures p == a * b && p > 0.0
  {
    p := a * b;
  }

  lemma PartsAddUp(s: real, d: real, part: real, rest: real)
    requires part == s * d && rest == (1.0 - s) * d
    ensures part + rest == d
  {
  }

  lemma MeanRises(u: real, v: real, s: real)
    requires 0.0 < s < 1.0 && u < v
    ensures u < Mean(u, v, s) && Mean(u, v, s) < v
  {
    var d := v - u;
    var part := StrictPart(d, s);
    assert Mean(u, v, s) == u + part;
  }

  lemma MeanIsStrictlyBetween(u: real, v: real, s: real)
    requires 0.0 < s < 1.0 && u != v
    ensures (u > Mean(u, v, s)) != (v > Mean(u, v, s)) && Mean(u, v, s) != u && Mean(u, v, s) != v
  {
    if u < v {
      MeanRises(u, v, s);
    } else {
      MeanRises(v, u, 1.0 - s);
      MeanFromTheOtherEnd(u, v, s);
    }
  }

  /** At the latitude of a point beside the edge, the ray from the left of one crossing and not of the other tells them apart. */
  lemma PointBesideEdgeIsSeen(a: GeoPoint, b: GeoPoint, m: GeoPoint, s: real, x: real)
    requires 0.0 < s < 1.0 && a.latitude != b.latitude && m.latitude == Mean(a.latitude, b.latitude, s)
    requires var mean := Mean(NormalizeLongitude(a.longitude), NormalizeLongitude(b.longitude), s);
      NormalizeLongitude(m.longitude) != mean && x == Least(NormalizeLongitude(m.longitude), mean)
    ensures var count := Crossing(m.latitude, x); (count(m, a) + count(b, m) == 1) != (count(b, a) == 1)
    ensures Crossing(m.latitude, x)(m, a) + Crossing(m.latitude, x)(b, m) <= 1
  {
    var lat, xa, xb, xm := m.latitude, NormalizeLongitude(a.longitude), NormalizeLongitude(b.longitude), NormalizeLongitude(m.longitude);
    MeanIsStrictlyBetween(a.latitude, b.latitude, s);
    MeetsAtAMean(xa, a.latitude, xb, b.latitude, s);
    MeetsHasNoDirection(xa, a.latitude, xb, b.latitude, lat);
    MeetsAtItsStart(xm, lat, xa, a.latitude);
    MeetsAtItsStart(xm, lat, xb, b.latitude);
    MeetsHasNoDirection(xm, lat, xb, b.latitude, lat);
  }

  function Least(a: real, b: real): real { if a <= b then a else b }

  lemma LeastIsNormal(a: real, b: real, s: real, m: real)
    requires 0.0 < s < 1.0
    ensures var x := Least(NormalizeLongitude(m), Mean(NormalizeLongitude(a), NormalizeLongitude(b), s)); NormalizeLongitude(x) == x
  {
    NormalizedByTurns(a);
    NormalizedByTurns(b);
    NormalizedByTurns(m);
    MeansLieBetween(NormalizeLongitude(a), NormalizeLongitude(b), s);
    TurnsDoNotMatter(Least(NormalizeLongitude(m), Mean(NormalizeLongitude(a), NormalizeLongitude(b), s)), 0);
  }

  lemma ParityFlips(inserted: nat, whole: nat, count: nat, parts: nat)
    requires inserted + whole == count + parts && whole <= 1 && parts <= 1 && parts != whole
    ensures (inserted % 2 == 1) != (count % 2 == 1)
  {
  }

  lemma PointBesideEdgeChangesSomething(polygon: seq<GeoPoint>, k: nat, m: GeoPoint, s: real)
    requires |polygon| >= 3 && k < |polygon| && 0.0 < s < 1.0
    requires var a, b := polygon[k], NextVertex(polygon, k);
      a.latitude != b.latitude && m.latitude == Mean(a.latitude, b.latitude, s) && !OnEdge(m, a, b, s)
    ensures !SameRegion(Inserted(polygon, k, m), polygon)
  {
    var a, b := polygon[k], NextVertex(polygon, k);
    var x := Least(NormalizeLongitude(m.longitude), Mean(NormalizeLongitude(a.longitude), NormalizeLongitude(b.longitude), s));
    var count := Crossing(m.latitude, x);
    LeastIsNormal(a.longitude, b.longitude, s, m.longitude);
    PointBesideEdgeIsSeen(a, b, m, s, x);
    InsertionCountsParts(count, polygon, k, m);
    ParityFlips(LoopCount(count, Inserted(polygon, k, m)), count(b, a), LoopCount(count, polygon), count(m, a) + count(b, m));
    assert Inside(m.latitude, x, Inserted(polygon, k, m)) != Inside(m.latitude, x, polygon);
  }

  lemma PointOnLevelEdgeChangesNothing(polygon: seq<GeoPoint>, k: nat, m: GeoPoint)
    requires |polygon| >= 3 && k < |polygon| && polygon[k].latitude == NextVertex(polygon, k).latitude == m.latitude
    ensures SameRegion(Inserted(polygon, k, m), polygon)
  {
    forall lat: real, lon: real ensures Inside(lat, lon, Inserted(polygon, k, m)) <==> Inside(lat, lon, polygon) {
      LevelEdgesAreNotCrossed(lat, NormalizeLongitude(lon), polygon[k], NextVertex(polygon, k), m);
      InsertionCountsParts(Crossing(lat, NormalizeLongitude(lon)), polygon, k, m);
    }
  }

  lemma LevelMean(a: real, b: real, s: real)
    requires a == b
    ensures Mean(a, b, s) == a
  {
    assert s * (b - a) == 0.0;
  }

  /**
   Inserting a point at a latitude strictly inside an edge changes nothing, for all points, exactly when it lies on the
   edge, longitudes normalized, or the edge is level.
   */
  lemma InsertedPointsMatterExactly(polygon: seq<GeoPoint>, k: nat, m: GeoPoint, s: real)
    requires |polygon| >= 3 && k < |polygon| && 0.0 < s < 1.0
    requires m.latitude == Mean(polygon[k].latitude, NextVertex(polygon, k).latitude, s)
    ensures SameRegion(Inserted(polygon, k, m), polygon)
      <==> (OnEdge(m, polygon[k], NextVertex(polygon, k), s) || polygon[k].latitude == NextVertex(polygon, k).latitude)
  {
    var a, b := polygon[k], NextVertex(polygon, k);
    if a.latitude == b.latitude {
      LevelMean(a.latitude, b.latitude, s);
      PointOnLevelEdgeChangesNothing(polygon, k, m);
    } else if OnEdge(m, a, b, s) {
      forall lat: real, lon: real ensures Inside(lat, lon, Inserted(polygon, k, m)) <==> Inside(lat, lon, polygon) {
        PointOnNormalizedEdgeChangesNothing(lat, lon, polygon, k, m, s);
      }
    } else {
      PointBesideEdgeChangesSomething(polygon, k, m, s);
    }
  }

  lemma BetweenIsOnEdge(a: GeoPoint, b: GeoPoint, s: real)
    requires InRange(a) && InRange(b) && 0.0 <= s <= 1.0
    ensures OnEdge(Between(a, b, s), a, b, s)
  {
    MeansLieBetween(a.longitude, b.longitude, s);
    TurnsDoNotMatter(a.longitude, 0);
    TurnsDoNotMatter(b.longitude, 0);
    TurnsDoNotMatter(Mean(a.longitude, b.longitude, s), 0);
  }

  /** Inserting a point on the edge after vertex k, or on the closing edge, changes nothing when the edge's ends are in range. */
  lemma PointOnEdgeChangesNothing(lat: real, lon: real, polygon: seq<GeoPoint>, k: nat, s: real)
    requires |polygon| >= 3 && k < |polygon| && 0.0 <= s <= 1.0
    requires InRange(polygon[k]) && InRange(NextVertex(polygon, k))
    ensures Inside(lat, lon, polygon[..k + 1] + [Between(polygon[k], NextVertex(polygon, k), s)] + polygon[k + 1..])
      <==> Inside(lat, lon, polygon)
  {
    BetweenIsOnEdge(polygon[k], NextVertex(polygon, k), s);
    PointOnNormalizedEdgeChangesNothing(lat, lon, polygon, k, Between(polygon[k], NextVertex(polygon, k), s), s);
  }

  /**
   Over the antimeridian it does: the edge from longitude 170 to 190 is taken the long way round, and the point half way
   along it, at 180, is not on that way.
   */
  lemma PointOverTheAntimeridianMatters()
    ensures var a, b, c := GeoPoint(0.0, 170.0), GeoPoint(10.0, 190.0), GeoPoint(10.0, 170.0);
      var m := Between(a, b, 0.5);
      && m == GeoPoint(5.0, 180.0) && !Inside(2.5, 0.0, [a, b, c]) && Inside(2.5, 0.0, [a, m, b, c])
  {
    var a, b, c := GeoPoint(0.0, 170.0), GeoPoint(10.0, 190.0), GeoPoint(10.0, 170.0);
    var m := GeoPoint(5.0, 180.0);
    TurnsDoNotMatter(0.0, 0);
    TurnsDoNotMatter(170.0, 0);
    TurnsDoNotMatter(-170.0, 1);
    TurnsDoNotMatter(-180.0, 1);
    TurnsDoNotMatter(-170.0, 0);
    TurnsDoNotMatter(-180.0, 0);
    var count := Crossing(2.5, 0.0);
    ThreeEdges(count, a, b, c);
    FourEdges(count, a, m, b, c);
    assert count(a, c) == 1 && count(b, a) == 1 && count(c, b) == 0;
    assert count(m, a) == 0 && count(b, m) == 0;
  }

  lemma ThreeEdges(count: (GeoPoint, GeoPoint) -> nat, a: GeoPoint, b: GeoPoint, c: GeoPoint)
    ensures LoopCount(count, [a, b, c]) == count(a, c) + count(b, a) + count(c, b)
  {
    PathsJoin(count, [a, b], [c]);
    PathsJoin(count, [a], [b]);
    assert [a, b] + [c] == [a, b, c] && [a] + [b] == [a, b];
  }

  lemma ParitiesSplit(a: nat, b: nat, whole: nat, diagonal: nat)
    requires a + b == whole + 2 * diagonal
    ensures whole % 2 == 1 <==> ((a % 2 == 1) != (b % 2 == 1))
  {
  }

  /** A diagonal splits a polygon: a point is inside exactly when it is inside exactly one of the parts. */
  lemma DiagonalSplits(lat: real, lon: real, polygon: seq<GeoPoint>, k: nat)
    requires 2 <= k < |polygon| - 1
    ensures Inside(lat, lon, polygon) <==>
      Inside(lat, lon, polygon[..k + 1]) != Inside(lat, lon, [polygon[0]] + polygon[k..])
  {
    var count := Crossing(lat, NormalizeLongitude(lon));
    EdgesHaveNoDirection(lat, NormalizeLongitude(lon));
    DiagonalCountsTwice(count, polygon, k);
    ParitiesSplit(LoopCount(count, polygon[..k + 1]), LoopCount(count, [polygon[0]] + polygon[k..]), LoopCount(count, polygon),
                  count(polygon[k], polygon[0]));
  }

  // ----- rectangles -----

  lemma UprightEdge(lat: real, x: real, lon: real, from: real, to: real)
    ensures Crosses(lat, x, GeoPoint(from, lon), GeoPoint(to, lon)) <==> HalfOpen(lat, from, to) && x < NormalizeLongitude(lon)
  {
    var n := NormalizeLongitude(lon);
    assert (n - n) * (lat - from) == 0.0;
  }

  /** Between two bounds in either order, the smaller one included. */
  predicate HalfOpen(v: real, a: real, b: real) {
    if a <= b then a <= v && v < b else b <= v && v < a
  }

  lemma FourEdges(count: (GeoPoint, GeoPoint) -> nat, a: GeoPoint, b: GeoPoint, c: GeoPoint, e: GeoPoint)
    ensures LoopCount(count, [a, b, c, e]) == count(a, e) + count(b, a) + count(c, b) + count(e, c)
  {
    PathsJoin(count, [a, b, c], [e]);
    PathsJoin(count, [a, b], [c]);
    PathsJoin(count, [a], [b]);
    assert [a, b, c] + [e] == [a, b, c, e] && [a, b] + [c] == [a, b, c] && [a] + [b] == [a, b];
  }

  /**
   For an upright rectangle, whatever its sides, the test is membership in the half-open box between its latitudes and
   its normalized longitudes.
   */
  lemma RectanglesAreHalfOpen(lat: real, lon: real, south: real, north: real, west: real, east: real)
    ensures Inside(lat, lon, [GeoPoint(south, west), GeoPoint(south, east), GeoPoint(north, east), GeoPoint(north, west)])
      <==> (HalfOpen(lat, south, north)
            && HalfOpen(NormalizeLongitude(lon), NormalizeLongitude(west), NormalizeLongitude(east)))
  {
    var x := NormalizeLongitude(lon);
    var count := Crossing(lat, x);
    var a, b, c, e := GeoPoint(south, west), GeoPoint(south, east), GeoPoint(north, east), GeoPoint(north, west);
    FourEdges(count, a, b, c, e);
    EdgesHaveNoDirection(lat, x);
    assert count(c, b) == count(b, c);
    UprightEdge(lat, x, east, south, north);
    UprightEdge(lat, x, west, south, north);
  }

  /** A rectangle round the whole earth, from -180 to 180, holds no point. */
  lemma WholeEarthIsEmpty(lat: real, lon: real, south: real, north: real)
    ensures !Inside(lat, lon, [GeoPoint(south, -180.0), GeoPoint(south, 180.0), GeoPoint(north, 180.0), GeoPoint(north, -180.0)])
  {
    RectanglesAreHalfOpen(lat, lon, south, north, -180.0, 180.0);
    TurnsDoNotMatter(-180.0, 1);
  }
}
