/**
 * The elevated-vision light shading helpers: the 2D primitives written into
 * the fragment shader, the light-local coordinate transform, the packing of
 * walls into the shader's parallel uniform arrays, and the per-pixel rule
 * that combines the walls' shadows into a depth and an in-shadow flag.
 *
 * Arithmetic is over reals. The shadow-length trigonometry of
 * `locationInWallShadow` is not modelled: its verdict for each wall enters
 * the pixel rule as a `WallHit`.
 */
module EVLighting {
  import opened Wrappers

  /** The shader's fixed bound on the walls processed per light. */
  const MAX_NUM_WALLS: nat := 100

  datatype Vec2 = Vec2(x: real, y: real)
  datatype Vec3 = Vec3(x: real, y: real, z: real)
  datatype Vec4 = Vec4(r: real, g: real, b: real, a: real)

  function XY(p: Vec3): Vec2 {
    Vec2(p.x, p.y)
  }

  function Dot(u: Vec2, v: Vec2): real {
    u.x * v.x + u.y * v.y
  }

  function Sub(u: Vec2, v: Vec2): Vec2 {
    Vec2(u.x - v.x, u.y - v.y)
  }

  // ---------------------------------------------------------------------------
  // 2D primitives (orient2d, lineSegmentIntersects, perpendicularPoint)
  // ---------------------------------------------------------------------------

  /** Twice the signed area of triangle abc; 0 exactly when the points are collinear. */
  function Orient2d(a: Vec2, b: Vec2, c: Vec2): (r: real)
    ensures a == b || b == c || a == c ==> r == 0.0
  {
    (a.y - c.y) * (b.x - c.x) - (a.x - c.x) * (b.y - c.y)
  }

  lemma Orient2dSwapNegates(a: Vec2, b: Vec2, c: Vec2)
    ensures Orient2d(b, a, c) == -Orient2d(a, b, c)
  {
  }

  /** Every point a + t (b - a) of line AB is collinear with A and B. */
  lemma Orient2dOnLine(a: Vec2, b: Vec2, t: real)
    ensures Orient2d(a, b, Vec2(a.x + t * (b.x - a.x), a.y + t * (b.y - a.y))) == 0.0
  {
    var dx, dy := b.x - a.x, b.y - a.y;
    var c := Vec2(a.x + t * dx, a.y + t * dy);
    assert a.y - c.y == -(t * dy);
    assert a.x - c.x == -(t * dx);
    assert b.x - c.x == (1.0 - t) * dx;
    assert b.y - c.y == (1.0 - t) * dy;
    calc {
      Orient2d(a, b, c);
      -(t * dy) * ((1.0 - t) * dx) + (t * dx) * ((1.0 - t) * dy);
      { assert (t * dy) * ((1.0 - t) * dx) == (t * (1.0 - t)) * (dx * dy);
        assert (t * dx) * ((1.0 - t) * dy) == (t * (1.0 - t)) * (dx * dy); }
      0.0;
    }
  }

  /** Moving the tested point between two endpoints of one segment changes
      the orientations against the other segment by the same amount. */
  lemma Orient2dExchange(a: Vec2, b: Vec2, c: Vec2, d: Vec2)
    ensures Orient2d(c, d, a) - Orient2d(c, d, b) == Orient2d(a, b, d) - Orient2d(a, b, c)
  {
  }

  /** Two orientations put their points strictly on the same side of a line. */
  predicate StrictlySameSide(x: real, y: real) {
    (x > 0.0 && y > 0.0) || (x < 0.0 && y < 0.0)
  }

  /** Does segment AB meet segment CD? Both endpoints of CD on line AB count
      as no intersection; touching at an endpoint counts as one. */
  function LineSegmentIntersects(a: Vec2, b: Vec2, c: Vec2, d: Vec2): (r: bool)
    ensures r <==>
      && (Orient2d(a, b, c) != 0.0 || Orient2d(a, b, d) != 0.0)
      && !StrictlySameSide(Orient2d(a, b, c), Orient2d(a, b, d))
      && !StrictlySameSide(Orient2d(c, d, a), Orient2d(c, d, b))
  {
    var xa := Orient2d(a, b, c);
    var xb := Orient2d(a, b, d);
    if xa == 0.0 && xb == 0.0 then false
    else
      var xab := xa * xb <= 0.0;
      var xcd := Orient2d(c, d, a) * Orient2d(c, d, b) <= 0.0;
      xab && xcd
  }

  /** The test does not depend on which segment is tested against which. */
  lemma LineSegmentIntersectsSymmetric(a: Vec2, b: Vec2, c: Vec2, d: Vec2)
    ensures LineSegmentIntersects(a, b, c, d) == LineSegmentIntersects(c, d, a, b)
  {
    var xa, xb := Orient2d(a, b, c), Orient2d(a, b, d);
    var ya, yb := Orient2d(c, d, a), Orient2d(c, d, b);
    Orient2dExchange(a, b, c, d);
    if xa == 0.0 && xb == 0.0 {
      assert ya == yb;
      if ya != 0.0 {
        assert ya * yb > 0.0;
      }
    } else if ya == 0.0 && yb == 0.0 {
      assert xa == xb;
      assert xa * xb > 0.0;
    }
  }

  /** Nor on the direction in which either segment is traversed. */
  lemma LineSegmentIntersectsReversal(a: Vec2, b: Vec2, c: Vec2, d: Vec2)
    ensures LineSegmentIntersects(a, b, c, d) == LineSegmentIntersects(b, a, c, d)
    ensures LineSegmentIntersects(a, b, c, d) == LineSegmentIntersects(a, b, d, c)
  {
    var xa, xb := Orient2d(a, b, c), Orient2d(a, b, d);
    var ya, yb := Orient2d(c, d, a), Orient2d(c, d, b);
    assert Orient2d(b, a, c) * Orient2d(b, a, d) == xa * xb;
    assert Orient2d(d, c, a) * Orient2d(d, c, b) == ya * yb;
  }

  /** Segments that share an endpoint, with the other endpoint off line AB, intersect. */
  lemma SharedEndpointIntersects(a: Vec2, b: Vec2, d: Vec2)
    requires Orient2d(a, b, d) != 0.0
    ensures LineSegmentIntersects(a, b, a, d)
  {
    assert Orient2d(a, b, a) == 0.0;
    assert Orient2d(a, d, a) == 0.0;
  }

  /** Segments whose endpoints lie strictly on opposite sides of each other's line intersect. */
  lemma ProperCrossingIntersects(a: Vec2, b: Vec2, c: Vec2, d: Vec2)
    requires Orient2d(a, b, c) > 0.0 > Orient2d(a, b, d)
    requires Orient2d(c, d, a) * Orient2d(c, d, b) < 0.0
    ensures LineSegmentIntersects(a, b, c, d)
  {
  }

  /** The point at parameter `u` along line AB. */
  function PointAlong(a: Vec2, b: Vec2, u: real): Vec2 {
    Vec2(a.x + u * (b.x - a.x), a.y + u * (b.y - a.y))
  }

  /** At parameter (C - A).(B - A) / |B - A|^2 the offset from C is orthogonal to AB. */
  lemma FootIsOrthogonal(a: Vec2, b: Vec2, c: Vec2)
    requires Dot(Sub(b, a), Sub(b, a)) != 0.0
    ensures Dot(Sub(c, PointAlong(a, b, Dot(Sub(c, a), Sub(b, a)) / Dot(Sub(b, a), Sub(b, a)))), Sub(b, a)) == 0.0
  {
    var d, e := Sub(b, a), Sub(c, a);
    var dd, ed := Dot(d, d), Dot(e, d);
    var u := ed / dd;
    var p := PointAlong(a, b, u);
    assert u * dd == ed;
    assert Sub(c, p) == Vec2(e.x - u * d.x, e.y - u * d.y);
    calc {
      Dot(Sub(c, p), d);
      (e.x - u * d.x) * d.x + (e.y - u * d.y) * d.y;
      { assert (e.x - u * d.x) * d.x == e.x * d.x - u * (d.x * d.x);
        assert (e.y - u * d.y) * d.y == e.y * d.y - u * (d.y * d.y); }
      ed - u * (d.x * d.x) - u * (d.y * d.y);
      { assert u * (d.x * d.x) + u * (d.y * d.y) == u * dd; }
      0.0;
    }
  }

  /** The foot of the perpendicular from C onto line AB; `None` when A and B
      coincide and the line is undefined. */
  function PerpendicularPoint(a: Vec2, b: Vec2, c: Vec2): (r: Option<Vec2>)
    ensures a == b ==> r.None?
    ensures r.Some? ==> Orient2d(a, b, r.value) == 0.0
    ensures r.Some? ==> Dot(Sub(c, r.value), Sub(b, a)) == 0.0
  {
    var deltaBA := Sub(b, a);
    var dab := Dot(deltaBA, deltaBA);
    if dab == 0.0 then
      None
    else
      var u := Dot(Sub(c, a), deltaBA) / dab;
      Orient2dOnLine(a, b, u);
      FootIsOrthogonal(a, b, c);
      Some(PointAlong(a, b, u))
  }

  // ---------------------------------------------------------------------------
  // Elevation from the elevation texture (canvasElevationFromPixel)
  // ---------------------------------------------------------------------------

  /** Elevation in canvas units for a texture value; `res` is
      (minimum, step, maximum pixel value, canvas multiplier). */
  function CanvasElevationFromPixel(pixel: real, res: Vec4): (r: real)
    ensures pixel == 0.0 ==> r == res.r * res.a
  {
    (res.r + (pixel * res.b * res.g)) * res.a
  }

  /** Raising the texture value by one pixel value raises the elevation by one
      elevation step, in canvas units. */
  lemma CanvasElevationStep(pixel: real, res: Vec4)
    requires res.b != 0.0
    ensures CanvasElevationFromPixel(pixel + 1.0 / res.b, res) - CanvasElevationFromPixel(pixel, res) == res.g * res.a
  {
    var step := 1.0 / res.b;
    assert (pixel + step) * res.b * res.g == pixel * res.b * res.g + res.g by {
      assert step * res.b == 1.0;
    }
  }

  /** With positive step, maximum and multiplier, higher texture values are higher elevations. */
  lemma CanvasElevationMonotone(p: real, q: real, res: Vec4)
    requires res.g > 0.0 && res.b > 0.0 && res.a > 0.0
    requires p < q
    ensures CanvasElevationFromPixel(p, res) < CanvasElevationFromPixel(q, res)
  {
    assert res.b * res.g > 0.0;
    assert p * (res.b * res.g) < q * (res.b * res.g);
    assert p * res.b * res.g < q * res.b * res.g;
  }

  // ---------------------------------------------------------------------------
  // Light-local coordinates (circleCoord, revCircleCoord, pointCircleCoord)
  // ---------------------------------------------------------------------------

  /** A coordinate relative to a light of centre `c`, with `rInv` the inverse radius. */
  function CircleCoord(a: real, c: real, rInv: real): (p: real)
    ensures a == c ==> p == 0.5
    ensures rInv != 0.0 && p == 0.5 ==> a == c
  {
    ((a - c) * rInv * 0.5) + 0.5
  }

  /** From light-local back to canvas coordinates. */
  function RevCircleCoord(p: real, r: real, c: real): (a: real)
    ensures p == 0.5 ==> a == c
    ensures r != 0.0 && a == c ==> p == 0.5
  {
    ((p - 0.5) * r * 2.0) + c
  }

  /** The centre maps to 0.5 and the western and eastern edges to 0 and 1. */
  lemma CircleCoordAnchors(r: real, c: real)
    requires r != 0.0
    ensures CircleCoord(c, c, 1.0 / r) == 0.5
    ensures CircleCoord(c - r, c, 1.0 / r) == 0.0
    ensures CircleCoord(c + r, c, 1.0 / r) == 1.0
  {
    assert r * (1.0 / r) == 1.0;
    assert (c - r - c) * (1.0 / r) == -1.0;
    assert (c + r - c) * (1.0 / r) == 1.0;
  }

  /** `revCircleCoord` undoes `circleCoord`, and the other way round. */
  lemma CircleCoordRoundTrip(a: real, p: real, r: real, c: real)
    requires r != 0.0
    ensures RevCircleCoord(CircleCoord(a, c, 1.0 / r), r, c) == a
    ensures CircleCoord(RevCircleCoord(p, r, c), c, 1.0 / r) == p
  {
    var rInv := 1.0 / r;
    assert rInv * r == 1.0;
    calc {
      RevCircleCoord(CircleCoord(a, c, rInv), r, c);
      ((a - c) * rInv * 0.5) * r * 2.0 + c;
      { assert ((a - c) * rInv * 0.5) * r * 2.0 == (a - c) * (rInv * r); }
      a;
    }
    calc {
      CircleCoord(RevCircleCoord(p, r, c), c, rInv);
      ((p - 0.5) * r * 2.0) * rInv * 0.5 + 0.5;
      { assert ((p - 0.5) * r * 2.0) * rInv * 0.5 == (p - 0.5) * (r * rInv); }
      p;
    }
  }

  /** An elevation in light-local units, where the light's radius is 0.5. */
  function CircleZ(z: real, rInv: real): (r: real)
    ensures rInv > 0.0 ==> (r > 0.0 <==> z > 0.0) && (r == 0.0 <==> z == 0.0)
  {
    z * 0.5 * rInv
  }

  /** A canvas point in light-local coordinates; elevation is scaled by half the inverse radius. */
  function PointCircleCoord(point: Vec3, center: Vec2, rInv: real): (r: Vec3)
    ensures XY(point) == center ==> XY(r) == SHADER_CENTER
  {
    Vec3(CircleCoord(point.x, center.x, rInv), CircleCoord(point.y, center.y, rInv), CircleZ(point.z, rInv))
  }

  /** A light of non-zero radius loses nothing: the canvas point comes back
      from its light-local coordinates. */
  lemma PointCircleCoordRoundTrip(point: Vec3, center: Vec2, radius: real)
    requires radius != 0.0
    ensures var q := PointCircleCoord(point, center, 1.0 / radius);
      && RevCircleCoord(q.x, radius, center.x) == point.x
      && RevCircleCoord(q.y, radius, center.y) == point.y
      && q.z * 2.0 * radius == point.z
  {
    var q := PointCircleCoord(point, center, 1.0 / radius);
    CircleCoordRoundTrip(point.x, q.x, radius, center.x);
    CircleCoordRoundTrip(point.y, q.y, radius, center.y);
    assert (1.0 / radius) * radius == 1.0;
    assert q.z * 2.0 * radius == point.z * ((1.0 / radius) * radius);
  }

  // ---------------------------------------------------------------------------
  // Packing walls into the uniform arrays (addWallDataToShaderArrays)
  // ---------------------------------------------------------------------------

  /** A finite wall by the top of endpoint A and the bottom of endpoint B. */
  datatype WallPoints = WallPoints(aTop: Vec3, bBottom: Vec3)

  datatype LightSource = LightSource(x: real, y: real, radius: real, elevationZ: real)

  /** The light's centre in light-local coordinates. */
  const SHADER_CENTER: Vec2 := Vec2(0.5, 0.5)

  /** The six coordinates and the distance one wall contributes, or `None`
      when its endpoints coincide in the plane. `dist` is the Euclidean
      distance between two points. */
  function WallData(w: WallPoints, source: LightSource, rInv: real, dist: (Vec2, Vec2) -> real)
    : (r: Option<(seq<real>, real)>)
    ensures r.Some? ==> |r.value.0| == 6
  {
    var center := Vec2(source.x, source.y);
    var a := PointCircleCoord(w.aTop, center, rInv);
    var b := PointCircleCoord(w.bBottom, center, rInv);
    match PerpendicularPoint(XY(a), XY(b), SHADER_CENTER)
    case None => None
    case Some(wallIx) => Some(([a.x, a.y, a.z, b.x, b.y, b.z], dist(SHADER_CENTER, wallIx)))
  }

  /** The parallel coordinate and distance arrays built for a list of walls. */
  function PackWalls(walls: seq<WallPoints>, source: LightSource, rInv: real, dist: (Vec2, Vec2) -> real)
    : (r: (seq<real>, seq<real>))
    ensures |r.0| == 6 * |r.1|
    ensures |r.1| <= |walls|
  {
    if walls == [] then ([], [])
    else
      var prev := PackWalls(walls[..|walls| - 1], source, rInv, dist);
      match WallData(walls[|walls| - 1], source, rInv, dist)
      case None => prev
      case Some(entry) => (prev.0 + entry.0, prev.1 + [entry.1])
  }

  /** A wall whose endpoints coincide in the plane contributes nothing. */
  lemma PackWallsSkipsDegenerate(walls: seq<WallPoints>, w: WallPoints, source: LightSource, rInv: real,
                                 dist: (Vec2, Vec2) -> real)
    requires w.aTop.x == w.bBottom.x && w.aTop.y == w.bBottom.y
    ensures PackWalls(walls + [w], source, rInv, dist) == PackWalls(walls, source, rInv, dist)
  {
    assert (walls + [w])[..|walls|] == walls;
  }

  /** Packing one more wall appends its block, if it has one. */
  lemma PackWallsSnoc(walls: seq<WallPoints>, w: WallPoints, source: LightSource, rInv: real,
                      dist: (Vec2, Vec2) -> real)
    ensures var prev := PackWalls(walls, source, rInv, dist);
      PackWalls(walls + [w], source, rInv, dist)
        == match WallData(w, source, rInv, dist)
           case None => prev
           case Some(entry) => (prev.0 + entry.0, prev.1 + [entry.1])
  {
    assert (walls + [w])[..|walls|] == walls;
  }

  /** Packing two lists one after the other gives the concatenation of their
      arrays: each wall's block lands in list order. */
  lemma {:induction false} PackWallsConcat(w1: seq<WallPoints>, w2: seq<WallPoints>, source: LightSource, rInv: real,
                                           dist: (Vec2, Vec2) -> real)
    ensures PackWalls(w1 + w2, source, rInv, dist).0
         == PackWalls(w1, source, rInv, dist).0 + PackWalls(w2, source, rInv, dist).0
    ensures PackWalls(w1 + w2, source, rInv, dist).1
         == PackWalls(w1, source, rInv, dist).1 + PackWalls(w2, source, rInv, dist).1
  {
    if w2 == [] {
      assert w1 + w2 == w1;
    } else {
      var init, last := w2[..|w2| - 1], w2[|w2| - 1];
      assert w2 == init + [last];
      assert w1 + w2 == (w1 + init) + [last];
      PackWallsConcat(w1, init, source, rInv, dist);
      PackWallsSnoc(w1 + init, last, source, rInv, dist);
      PackWallsSnoc(init, last, source, rInv, dist);
      var p1, pi := PackWalls(w1, source, rInv, dist), PackWalls(init, source, rInv, dist);
      match WallData(last, source, rInv, dist)
      case None =>
      case Some(entry) =>
        assert p1.0 + pi.0 + entry.0 == p1.0 + (pi.0 + entry.0);
        assert p1.1 + pi.1 + [entry.1] == p1.1 + (pi.1 + [entry.1]);
    }
  }

  /** The caller-owned arrays that `addWallDataToShaderArrays` pushes into. */
  class WallArrays {
    var coords: seq<real>
    var distances: seq<real>

    constructor ()
      ensures coords == [] && distances == []
    {
      coords, distances := [], [];
    }
  }

  /** Pushes one wall's distance and coordinates, or nothing when its endpoints coincide. */
  method AddWallDataToShaderArrays(w: WallPoints, arrays: WallArrays, source: LightSource, rInv: real,
                                   dist: (Vec2, Vec2) -> real)
    modifies arrays
    ensures WallData(w, source, rInv, dist).None? ==>
      arrays.coords == old(arrays.coords) && arrays.distances == old(arrays.distances)
    ensures WallData(w, source, rInv, dist).Some? ==>
      arrays.coords == old(arrays.coords) + WallData(w, source, rInv, dist).value.0 &&
      arrays.distances == old(arrays.distances) + [WallData(w, source, rInv, dist).value.1]
  {
    var center := Vec2(source.x, source.y);
    var a := PointCircleCoord(w.aTop, center, rInv);
    var b := PointCircleCoord(w.bBottom, center, rInv);
    var wallIx := PerpendicularPoint(XY(a), XY(b), SHADER_CENTER);
    if wallIx.None? {
      return;
    }
    var wallOriginDist := dist(SHADER_CENTER, wallIx.value);
    arrays.distances := arrays.distances + [wallOriginDist];
    arrays.coords := arrays.coords + [a.x, a.y, a.z, b.x, b.y, b.z];
  }

  // ---------------------------------------------------------------------------
  // Light uniforms (createAdaptiveLightingShader defaults, _updateEVLightUniformsLightSource)
  // ---------------------------------------------------------------------------

  const ZERO_COORDS: seq<real> := [0.0, 0.0, 0.0, 0.0, 0.0, 0.0]

  /** Empty arrays are replaced by one zero wall before upload. */
  function PadCoords(coords: seq<real>): seq<real> {
    if |coords| == 0 then ZERO_COORDS else coords
  }

  function PadDistances(distances: seq<real>): seq<real> {
    if |distances| == 0 then [0.0] else distances
  }

  /** The scene rectangle in canvas coordinates. */
  datatype SceneRect = SceneRect(left: real, right: real, top: real, bottom: real)

  /** The wall-related uniforms of one light shader. */
  class LightUniforms {
    var numWalls: int
    var numTerrainWalls: int
    var wallCoords: seq<real>
    var wallDistances: seq<real>
    var terrainWallCoords: seq<real>
    var terrainWallDistances: seq<real>
    var sourceLocation: Vec3
    var sceneDims: seq<real>

    /** The counts describe the arrays: at least one (padding) entry, six
        coordinates per distance, and a count that is either the number of
        entries or 0 for the padding entry. */
    ghost predicate Valid()
      reads this
    {
      && 0 <= numWalls && |wallDistances| == (if numWalls == 0 then 1 else numWalls)
      && |wallCoords| == 6 * |wallDistances|
      && 0 <= numTerrainWalls && |terrainWallDistances| == (if numTerrainWalls == 0 then 1 else numTerrainWalls)
      && |terrainWallCoords| == 6 * |terrainWallDistances|
    }

    /** The values `createAdaptiveLightingShader` installs. */
    constructor ()
      ensures Valid()
      ensures numWalls == 0 && numTerrainWalls == 0
      ensures wallCoords == ZERO_COORDS && terrainWallCoords == ZERO_COORDS
      ensures wallDistances == [0.0] && terrainWallDistances == [0.0]
      ensures sourceLocation == Vec3(0.5, 0.5, 0.5) && sceneDims == []
    {
      numWalls, numTerrainWalls := 0, 0;
      wallCoords, terrainWallCoords := ZERO_COORDS, ZERO_COORDS;
      wallDistances, terrainWallDistances := [0.0], [0.0];
      sourceLocation := Vec3(0.5, 0.5, 0.5);
      sceneDims := [];
    }

    /** Packs one wall list into fresh arrays, wall by wall. */
    static method PackInto(walls: seq<WallPoints>, source: LightSource, rInv: real, dist: (Vec2, Vec2) -> real)
      returns (coords: seq<real>, distances: seq<real>)
      ensures (coords, distances) == PackWalls(walls, source, rInv, dist)
    {
      var arrays := new WallArrays();
      var i := 0;
      while i < |walls|
        invariant 0 <= i <= |walls|
        invariant (arrays.coords, arrays.distances) == PackWalls(walls[..i], source, rInv, dist)
      {
        AddWallDataToShaderArrays(walls[i], arrays, source, rInv, dist);
        assert walls[..i + 1][..i] == walls[..i];
        i := i + 1;
      }
      assert walls[..i] == walls;
      coords, distances := arrays.coords, arrays.distances;
    }

    /** One wall set as uploaded: the number of walls packed, then the arrays, padded when empty. */
    static method PackPadded(walls: seq<WallPoints>, source: LightSource, rInv: real, dist: (Vec2, Vec2) -> real)
      returns (count: int, coords: seq<real>, distances: seq<real>)
      ensures var packed := PackWalls(walls, source, rInv, dist);
        && count == |packed.1|
        && coords == PadCoords(packed.0) && distances == PadDistances(packed.1)
    {
      coords, distances := PackInto(walls, source, rInv, dist);
      count := |distances|;
      if |coords| == 0 {
        coords := ZERO_COORDS;
      }
      if |distances| == 0 {
        distances := [0.0];
      }
    }

    /** `_updateEVLightUniformsLightSource`, wall and geometry uniforms: each
        count is the number of walls packed, taken before padding. */
    method UpdateEVLightUniforms(source: LightSource, heightWalls: seq<WallPoints>, terrainWalls: seq<WallPoints>,
                                 sceneRect: SceneRect, dist: (Vec2, Vec2) -> real)
      requires source.radius != 0.0
      modifies this
      ensures Valid()
      ensures var rInv := 1.0 / source.radius;
        var terrain := PackWalls(terrainWalls, source, rInv, dist);
        var height := PackWalls(heightWalls, source, rInv, dist);
        && numTerrainWalls == |terrain.1|
        && terrainWallCoords == PadCoords(terrain.0) && terrainWallDistances == PadDistances(terrain.1)
        && numWalls == |height.1|
        && wallCoords == PadCoords(height.0) && wallDistances == PadDistances(height.1)
        && sourceLocation == Vec3(0.5, 0.5, CircleZ(source.elevationZ, rInv))
        && sceneDims == [CircleCoord(sceneRect.left, source.x, rInv),
                         CircleCoord(sceneRect.top, source.y, rInv),
                         CircleCoord(sceneRect.right, source.x, rInv) - CircleCoord(sceneRect.left, source.x, rInv),
                         CircleCoord(sceneRect.bottom, source.y, rInv) - CircleCoord(sceneRect.top, source.y, rInv)]
    {
      var rInv := 1.0 / source.radius;
      sourceLocation := Vec3(0.5, 0.5, CircleZ(source.elevationZ, rInv));
      numTerrainWalls, terrainWallCoords, terrainWallDistances := PackPadded(terrainWalls, source, rInv, dist);
      numWalls, wallCoords, wallDistances := PackPadded(heightWalls, source, rInv, dist);

      var sceneLeft := CircleCoord(sceneRect.left, source.x, rInv);
      var sceneRight := CircleCoord(sceneRect.right, source.x, rInv);
      var sceneTop := CircleCoord(sceneRect.top, source.y, rInv);
      var sceneBottom := CircleCoord(sceneRect.bottom, source.y, rInv);
      sceneDims := [sceneLeft, sceneTop, sceneRight - sceneLeft, sceneBottom - sceneTop];
    }

    /** What the shader reads for height wall `i`: its two corners
        (`EV_wallCoords[i * 2]` and `[i * 2 + 1]`) and its distance.
        `Valid()` keeps every read below `EV_numWalls` inside the arrays. */
    function HeightWall(i: int): (Vec3, Vec3, real)
      reads this
      requires Valid() && 0 <= i < numWalls
    {
      (Vec3(wallCoords[6 * i], wallCoords[6 * i + 1], wallCoords[6 * i + 2]),
       Vec3(wallCoords[6 * i + 3], wallCoords[6 * i + 4], wallCoords[6 * i + 5]),
       wallDistances[i])
    }

    /** The same read for terrain wall `j`, below `EV_numTerrainWalls`. */
    function TerrainWall(j: int): (Vec3, Vec3, real)
      reads this
      requires Valid() && 0 <= j < numTerrainWalls
    {
      (Vec3(terrainWallCoords[6 * j], terrainWallCoords[6 * j + 1], terrainWallCoords[6 * j + 2]),
       Vec3(terrainWallCoords[6 * j + 3], terrainWallCoords[6 * j + 4], terrainWallCoords[6 * j + 5]),
       terrainWallDistances[j])
    }
  }

  // ---------------------------------------------------------------------------
  // Per-pixel shadow aggregation (DEPTH_CALCULATION)
  // ---------------------------------------------------------------------------

  /** `locationInWallShadow` for one wall at this pixel: `None` when the pixel
      is not in the wall's shadow, else its percent distance from the wall. */
  type WallHit = Option<real>

  /** What the fragment knows besides the per-wall verdicts. `initialDepth` is
      the smoothed edge falloff; `sceneDims` is (left, top, width, height). */
  datatype PixelInput = PixelInput(
    uv: Vec2,
    pixelElevation: real,
    sourceZ: real,
    elevationMin: real,
    sceneDims: Vec4,
    isVision: bool,
    initialDepth: real)

  datatype Shade = Shade(depth: real, inShadow: bool)

  /** The pixel lies outside the scene, or the light is below the minimum elevation. */
  predicate OutsideScene(p: PixelInput) {
    p.uv.x < p.sceneDims.r || p.uv.x > p.sceneDims.r + p.sceneDims.b
    || p.uv.y < p.sceneDims.g || p.uv.y > p.sceneDims.g + p.sceneDims.a
    || p.sourceZ < p.elevationMin
  }

  /** The walls the shader's bounded loop reaches. */
  function Processed(hits: seq<WallHit>): seq<WallHit> {
    if |hits| <= MAX_NUM_WALLS then hits else hits[..MAX_NUM_WALLS]
  }

  function HitCount(hits: seq<WallHit>): (n: nat)
    ensures n <= |hits|
  {
    if hits == [] then 0
    else HitCount(hits[..|hits| - 1]) + (if hits[|hits| - 1].Some? then 1 else 0)
  }

  function Min(a: real, b: real): real {
    if a <= b then a else b
  }

  /** `start` lowered to every reported percent distance in `hits`. */
  function MinHit(start: real, hits: seq<WallHit>): real {
    if hits == [] then start
    else
      var last := hits[|hits| - 1];
      var m := MinHit(start, hits[..|hits| - 1]);
      if last.Some? then Min(m, last.value) else m
  }

  /** The specification of the depth calculation for one pixel. */
  function ShadePixel(p: PixelInput, wallHits: seq<WallHit>, terrainHits: seq<WallHit>): (r: Shade)
    ensures OutsideScene(p) ==> !r.inShadow
    ensures !OutsideScene(p) && p.pixelElevation > p.sourceZ ==> r.depth == 0.0 && r.inShadow == p.isVision
    ensures !OutsideScene(p) && p.pixelElevation <= p.sourceZ ==>
      (r.inShadow <==> HitCount(Processed(wallHits)) > 0 || HitCount(Processed(terrainHits)) >= 2)
  {
    if OutsideScene(p) then Shade(p.initialDepth, false)
    else if p.pixelElevation > p.sourceZ then Shade(0.0, p.isVision)
    else
      var walls := Processed(wallHits);
      var terrain := Processed(terrainHits);
      var depth := MinHit(p.initialDepth, walls);
      if HitCount(walls) == 0 && HitCount(terrain) >= 2 then
        Shade(Min(depth, MinHit(1.0, terrain)), true)
      else
        Shade(depth, HitCount(walls) > 0)
  }

  /** `DEPTH_CALCULATION`: the wall loop, then the terrain-wall loop. */
  method DepthCalculation(p: PixelInput, wallHits: seq<WallHit>, terrainHits: seq<WallHit>)
    returns (depth: real, inShadow: bool)
    ensures Shade(depth, inShadow) == ShadePixel(p, wallHits, terrainHits)
  {
    depth := p.initialDepth;
    inShadow := false;
    var wallsToProcess := |wallHits|;
    var terrainWallsToProcess := |terrainHits|;
    if OutsideScene(p) {
      wallsToProcess := 0;
      terrainWallsToProcess := 0;
    } else if p.pixelElevation > p.sourceZ {
      depth := 0.0;
      wallsToProcess := 0;
      terrainWallsToProcess := 0;
      inShadow := p.isVision;
    }

    ghost var depth0, inShadow0 := depth, inShadow;
    var i := 0;
    while i < MAX_NUM_WALLS && i < wallsToProcess
      invariant 0 <= i <= wallsToProcess
      invariant wallsToProcess == 0 ==> i == 0 && depth == depth0 && inShadow == inShadow0
      invariant wallsToProcess > 0 ==>
        wallsToProcess == |wallHits| && i <= MAX_NUM_WALLS &&
        depth == MinHit(p.initialDepth, wallHits[..i]) && inShadow == (HitCount(wallHits[..i]) > 0)
    {
      var hit := wallHits[i];
      if hit.Some? {
        inShadow := true;
        depth := Min(depth, hit.value);
      }
      assert wallHits[..i + 1][..i] == wallHits[..i];
      i := i + 1;
    }
    assert wallsToProcess > 0 ==> wallHits[..i] == Processed(wallHits);

    if !inShadow && terrainWallsToProcess > 1 {
      var terrainWallShadows := false;
      var percentDistanceFromTerrainWall := 1.0;
      var j := 0;
      while j < MAX_NUM_WALLS && j < terrainWallsToProcess
        invariant 0 <= j <= terrainWallsToProcess == |terrainHits|
        invariant j <= MAX_NUM_WALLS
        invariant terrainWallShadows == (HitCount(terrainHits[..j]) >= 1)
        invariant inShadow == (HitCount(terrainHits[..j]) >= 2)
        invariant percentDistanceFromTerrainWall == MinHit(1.0, terrainHits[..j])
      {
        var hit := terrainHits[j];
        if hit.Some? && terrainWallShadows {
          inShadow := true;
        }
        if hit.Some? {
          percentDistanceFromTerrainWall := Min(percentDistanceFromTerrainWall, hit.value);
          terrainWallShadows := true;
        }
        assert terrainHits[..j + 1][..j] == terrainHits[..j];
        j := j + 1;
      }
      assert terrainHits[..j] == Processed(terrainHits);
      if inShadow {
        depth := Min(depth, percentDistanceFromTerrainWall);
      }
    }
  }

  lemma {:induction false} MinHitBelow(start: real, hits: seq<WallHit>)
    ensures MinHit(start, hits) <= start
    ensures forall k :: 0 <= k < |hits| && hits[k].Some? ==> MinHit(start, hits) <= hits[k].value
    ensures MinHit(start, hits) == start || exists k :: 0 <= k < |hits| && hits[k] == Some(MinHit(start, hits))
  {
    if hits != [] {
      var init := hits[..|hits| - 1];
      MinHitBelow(start, init);
      assert forall k :: 0 <= k < |init| ==> init[k] == hits[k];
    }
  }

  /** Inside the scene and below the light, the depth is the smallest of the
      initial depth and the percent distances of the walls shadowing the
      pixel, and is one of them unless terrain walls supplied it. */
  lemma DepthIsMinimum(p: PixelInput, wallHits: seq<WallHit>, terrainHits: seq<WallHit>)
    requires !OutsideScene(p) && p.pixelElevation <= p.sourceZ
    ensures var s := ShadePixel(p, wallHits, terrainHits);
      var walls := Processed(wallHits);
      && s.depth <= p.initialDepth
      && (forall k :: 0 <= k < |walls| && walls[k].Some? ==> s.depth <= walls[k].value)
      && (HitCount(walls) > 0 ==>
            s.depth == p.initialDepth || exists k :: 0 <= k < |walls| && walls[k] == Some(s.depth))
    ensures var s := ShadePixel(p, wallHits, terrainHits);
      var walls, terrain := Processed(wallHits), Processed(terrainHits);
      HitCount(walls) == 0 && HitCount(terrain) < 2 ==> s.depth == p.initialDepth
    ensures var s := ShadePixel(p, wallHits, terrainHits);
      var walls, terrain := Processed(wallHits), Processed(terrainHits);
      HitCount(walls) == 0 && HitCount(terrain) >= 2 ==>
        && s.depth <= 1.0
        && (forall k :: 0 <= k < |terrain| && terrain[k].Some? ==> s.depth <= terrain[k].value)
        && (s.depth == p.initialDepth || s.depth == 1.0
            || exists k :: 0 <= k < |terrain| && terrain[k] == Some(s.depth))
  {
    var walls, terrain := Processed(wallHits), Processed(terrainHits);
    MinHitBelow(p.initialDepth, walls);
    MinHitBelow(1.0, terrain);
    if HitCount(walls) == 0 {
      MinHitNoHits(p.initialDepth, walls);
    }
  }

  /** With no hit, the running minimum stays at its start. */
  lemma {:induction false} MinHitNoHits(start: real, hits: seq<WallHit>)
    requires HitCount(hits) == 0
    ensures MinHit(start, hits) == start
  {
    if hits != [] {
      MinHitNoHits(start, hits[..|hits| - 1]);
    }
  }

  lemma {:induction false} HitCountSingle(hits: seq<WallHit>, k: nat)
    requires k < |hits| && hits[k].Some?
    requires forall i :: 0 <= i < |hits| && i != k ==> hits[i].None?
    ensures HitCount(hits) == 1
  {
    var init := hits[..|hits| - 1];
    if k < |hits| - 1 {
      HitCountSingle(init, k);
    } else {
      HitCountNone(init);
    }
  }

  lemma {:induction false} HitCountNone(hits: seq<WallHit>)
    requires forall i :: 0 <= i < |hits| ==> hits[i].None?
    ensures HitCount(hits) == 0
  {
    if hits != [] {
      HitCountNone(hits[..|hits| - 1]);
    }
  }

  /** With no ordinary wall shadowing the pixel, it is in shadow exactly when
      at least two terrain walls shadow it: one terrain wall alone never does. */
  lemma TerrainWallsNeedTwo(p: PixelInput, wallHits: seq<WallHit>, terrainHits: seq<WallHit>, k: nat)
    requires !OutsideScene(p) && p.pixelElevation <= p.sourceZ
    requires HitCount(Processed(wallHits)) == 0
    requires k < |terrainHits| <= MAX_NUM_WALLS && terrainHits[k].Some?
    ensures ShadePixel(p, wallHits, terrainHits).inShadow <==> HitCount(terrainHits) >= 2
    ensures (forall i :: 0 <= i < |terrainHits| && i != k ==> terrainHits[i].None?) ==>
      !ShadePixel(p, wallHits, terrainHits).inShadow
  {
    if forall i :: 0 <= i < |terrainHits| && i != k ==> terrainHits[i].None? {
      HitCountSingle(terrainHits, k);
    }
  }
}
