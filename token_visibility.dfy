/**
 * The percent-area line-of-sight decision of the token-visibility module
 * (`Area2d`): which elevation planes of the target are tested, how the
 * visible fraction of the target is aggregated, the thresholds that decide
 * line of sight, and the filters that choose the occluders.
 *
 * Polygon clipping, shadow construction and the wall-constrained token border
 * are not modelled: their results enter as the function-valued fields of
 * `Clipper` and `ShadowOracle`, and as `losAt`, the shadowed line-of-sight
 * polygon for a target elevation.
 */
module TokenVisibility {
  import opened Wrappers

  /** Tolerance of Foundry's `Number#almostEqual`: |a - b| <= 1e-8. */
  const EPSILON: real := 0.00000001

  /** Required area fraction at which a visible centre stops being sufficient
      and an occluded centre becomes disqualifying. */
  const CENTER_SHORTCUT_AREA: real := 0.5

  predicate AlmostEqual(a: real, b: real) {
    -EPSILON <= a - b <= EPSILON
  }

  // ---------------------------------------------------------------------------
  // Shapes and the clipping oracle
  // ---------------------------------------------------------------------------

  /** A line-of-sight shape: a plain polygon (flat x, y list) or Clipper paths. */
  datatype Los = PolygonLos(points: seq<real>) | ClipperLos(paths: seq<seq<real>>)

  /** The `points` property of a line-of-sight shape; Clipper paths have none. */
  function LosPoints(los: Los): Option<seq<real>> {
    match los
    case PolygonLos(pts) => Some(pts)
    case ClipperLos(_) => None
  }

  datatype TokenShape =
    | RectangleShape(x: real, y: real, width: real, height: real)
    | PolygonShape(points: seq<real>)

  /** One piece of a clipping result: a flat x, y list and its hole flag. */
  datatype Polygon = Polygon(points: seq<real>, isHole: bool)

  /** The line-of-sight shapes built for the target's bottom and top planes. */
  datatype ShadowLOS = ShadowLOS(bottom: Option<Los>, top: Option<Los>)

  /**
   * The results of the polygon library, which is not part of this model.
   * `boundsBreached` is `_sourceIntersectsPolygonBounds` for a plain polygon,
   * `intersect` is the line of sight intersected with a token shape and split
   * into polygons, `scaledArea` is the scaled area of a token shape and
   * `seenArea` is `_calculateSeenAreaForPolygon` (undefined as `None`).
   */
  datatype Clipper = Clipper(
    boundsBreached: (seq<real>, TokenShape) -> bool,
    intersect: (TokenShape, Los) -> seq<Polygon>,
    scaledArea: TokenShape -> real,
    seenArea: Polygon -> Option<real>)

  /** The target token: its bottom and top elevations and its constrained border. */
  datatype Target = Target(bottomZ: real, topZ: real, border: TokenShape)

  // ---------------------------------------------------------------------------
  // Plane selection (_buildShadowLOS)
  // ---------------------------------------------------------------------------

  /** Which of the target's planes are tested, and the line of sight at each. */
  function BuildShadowLOS(viewerZ: real, target: Target, losAt: real -> Los): (r: ShadowLOS)
    ensures r.top.Some? || r.bottom.Some?
    ensures r.top.Some? ==> r.top.value == losAt(target.topZ)
    ensures r.bottom.Some? ==> r.bottom.value == losAt(target.bottomZ)
    ensures target.topZ == target.bottomZ ==> r == ShadowLOS(None, Some(losAt(target.topZ)))
    ensures target.bottomZ < target.topZ && viewerZ < target.bottomZ ==> r.bottom.Some? && r.top.None?
    ensures target.bottomZ < target.topZ && viewerZ > target.topZ ==> r.top.Some? && r.bottom.None?
    ensures target.bottomZ < target.topZ && target.bottomZ <= viewerZ <= target.topZ ==>
      r.top.Some? &&
      (r.bottom.Some? <==> LosPoints(losAt(target.bottomZ)) != LosPoints(losAt(target.topZ)))
  {
    var inBetween := viewerZ <= target.topZ && viewerZ >= target.bottomZ;
    if target.topZ - target.bottomZ == 0.0 then
      ShadowLOS(None, Some(losAt(target.topZ)))
    else
      var bottom := if inBetween || viewerZ < target.bottomZ then Some(losAt(target.bottomZ)) else None;
      var top := if inBetween || viewerZ > target.topZ then Some(losAt(target.topZ)) else None;
      if top.Some? && bottom.Some? && LosPoints(top.value) == LosPoints(bottom.value) then
        ShadowLOS(None, top)
      else
        ShadowLOS(bottom, top)
  }

  // ---------------------------------------------------------------------------
  // Area aggregation (_intersectShapeWithLOS, _calculatePercentSeen, percentAreaVisible)
  // ---------------------------------------------------------------------------

  /** Keeps the pieces that have at least three vertices (more than five coordinates). */
  function ProperPieces(pieces: seq<Polygon>): (r: seq<Polygon>)
    ensures |r| <= |pieces|
    ensures forall p :: p in r <==> p in pieces && |p.points| > 5
  {
    if pieces == [] then []
    else
      var rest := ProperPieces(pieces[..|pieces| - 1]);
      var last := pieces[|pieces| - 1];
      assert pieces == pieces[..|pieces| - 1] + [last];
      if |last.points| > 5 then rest + [last] else rest
  }

  /** The filter keeps the order of the pieces: it distributes over concatenation. */
  lemma {:induction false} ProperPiecesConcat(a: seq<Polygon>, b: seq<Polygon>)
    ensures ProperPieces(a + b) == ProperPieces(a) + ProperPieces(b)
    decreases |b|
  {
    if b == [] {
      assert a + b == a;
    } else {
      var init, last := b[..|b| - 1], b[|b| - 1];
      var tail := if |last.points| > 5 then [last] else [];
      ProperPiecesConcat(a, init);
      assert (a + b)[..|a + b| - 1] == a + init && (a + b)[|a + b| - 1] == last;
      assert ProperPieces(a + b) == ProperPieces(a + init) + tail;
      assert ProperPieces(b) == ProperPieces(init) + tail;
    }
  }

  /** The pieces of the token shape inside the line of sight, points and lines rejected. */
  function IntersectShapeWithLOS(shape: TokenShape, los: Los, clip: Clipper): seq<Polygon> {
    ProperPieces(clip.intersect(shape, los))
  }

  /** What one piece adds to the seen area: holes subtract, missing areas count 0. */
  function Contribution(p: Polygon, clip: Clipper): real {
    var a := clip.seenArea(p).GetOr(0.0);
    if p.isHole then -a else a
  }

  /** The seen area accumulated over `pieces`, in order. */
  function NetSeenArea(pieces: seq<Polygon>, clip: Clipper): real {
    if pieces == [] then 0.0
    else NetSeenArea(pieces[..|pieces| - 1], clip) + Contribution(pieces[|pieces| - 1], clip)
  }

  /** Total area of the pieces whose hole flag is `holes`. */
  function AreaOf(pieces: seq<Polygon>, holes: bool, clip: Clipper): real {
    if pieces == [] then 0.0
    else
      var p := pieces[0];
      (if p.isHole == holes then clip.seenArea(p).GetOr(0.0) else 0.0) + AreaOf(pieces[1..], holes, clip)
  }

  /** The visible fraction of `shape` inside `los`, with degenerate cases mapped to 0. */
  function PercentSeen(los: Los, shape: TokenShape, clip: Clipper): (r: real)
    ensures r != 0.0 ==>
      && IntersectShapeWithLOS(shape, los, clip) != []
      && !AlmostEqual(clip.scaledArea(shape), 0.0)
      && NetSeenArea(IntersectShapeWithLOS(shape, los, clip), clip) > EPSILON
  {
    var visible := IntersectShapeWithLOS(shape, los, clip);
    if |visible| == 0 then 0.0
    else
      var tokenArea := clip.scaledArea(shape);
      if tokenArea == 0.0 || AlmostEqual(tokenArea, 0.0) then 0.0
      else
        var seen := NetSeenArea(visible, clip);
        if seen == 0.0 || seen < 0.0 || AlmostEqual(seen, 0.0) then 0.0
        else seen / tokenArea
  }

  /** `_calculatePercentSeen`: accumulates the seen area piece by piece. */
  method CalculatePercentSeen(los: Los, shape: TokenShape, clip: Clipper) returns (percent: real)
    ensures percent == PercentSeen(los, shape, clip)
  {
    var visible := IntersectShapeWithLOS(shape, los, clip);
    if |visible| == 0 {
      return 0.0;
    }
    var tokenArea := clip.scaledArea(shape);
    if tokenArea == 0.0 || AlmostEqual(tokenArea, 0.0) {
      return 0.0;
    }
    var seenArea := 0.0;
    var i := 0;
    while i < |visible|
      invariant 0 <= i <= |visible|
      invariant seenArea == NetSeenArea(visible[..i], clip)
    {
      var poly := visible[i];
      var area := clip.seenArea(poly).GetOr(0.0);
      if poly.isHole {
        seenArea := seenArea - area;
      } else {
        seenArea := seenArea + area;
      }
      assert visible[..i + 1][..i] == visible[..i];
      i := i + 1;
    }
    assert visible[..i] == visible;
    if seenArea == 0.0 || seenArea < 0.0 || AlmostEqual(seenArea, 0.0) {
      return 0.0;
    }
    percent := seenArea / tokenArea;
  }

  lemma {:induction false} AreaOfAppend(ps: seq<Polygon>, p: Polygon, holes: bool, clip: Clipper)
    ensures AreaOf(ps + [p], holes, clip)
         == AreaOf(ps, holes, clip) + (if p.isHole == holes then clip.seenArea(p).GetOr(0.0) else 0.0)
  {
    if ps != [] {
      assert (ps + [p])[1..] == ps[1..] + [p];
      AreaOfAppend(ps[1..], p, holes, clip);
    }
  }

  /** The seen area is the area of the solid pieces minus the area of the holes. */
  lemma {:induction false} NetSeenAreaIsSolidMinusHoles(pieces: seq<Polygon>, clip: Clipper)
    ensures NetSeenArea(pieces, clip) == AreaOf(pieces, false, clip) - AreaOf(pieces, true, clip)
  {
    if pieces != [] {
      var init, last := pieces[..|pieces| - 1], pieces[|pieces| - 1];
      assert pieces == init + [last];
      NetSeenAreaIsSolidMinusHoles(init, clip);
      AreaOfAppend(init, last, false, clip);
      AreaOfAppend(init, last, true, clip);
    }
  }

  /** The percentage seen is never negative, is 0 in every degenerate case and
      is otherwise the net seen area over the token area. */
  lemma PercentSeenCases(los: Los, shape: TokenShape, clip: Clipper)
    requires clip.scaledArea(shape) >= 0.0
    ensures PercentSeen(los, shape, clip) >= 0.0
    ensures IntersectShapeWithLOS(shape, los, clip) == [] ==> PercentSeen(los, shape, clip) == 0.0
    ensures AlmostEqual(clip.scaledArea(shape), 0.0) ==> PercentSeen(los, shape, clip) == 0.0
    ensures NetSeenArea(IntersectShapeWithLOS(shape, los, clip), clip) <= EPSILON ==>
      PercentSeen(los, shape, clip) == 0.0
    ensures PercentSeen(los, shape, clip) > 0.0 ==>
      PercentSeen(los, shape, clip) * clip.scaledArea(shape)
        == AreaOf(IntersectShapeWithLOS(shape, los, clip), false, clip)
         - AreaOf(IntersectShapeWithLOS(shape, los, clip), true, clip)
  {
    var visible := IntersectShapeWithLOS(shape, los, clip);
    NetSeenAreaIsSolidMinusHoles(visible, clip);
    var tokenArea := clip.scaledArea(shape);
    var seen := NetSeenArea(visible, clip);
    if |visible| != 0 && !(tokenArea == 0.0 || AlmostEqual(tokenArea, 0.0))
       && !(seen == 0.0 || seen < 0.0 || AlmostEqual(seen, 0.0)) {
      assert PercentSeen(los, shape, clip) == seen / tokenArea;
      assert (seen / tokenArea) * tokenArea == seen;
    }
  }

  /** `percentAreaVisible`: the better of the two planes; a plane not tested counts 0. */
  function PercentAreaVisible(s: ShadowLOS, border: TokenShape, clip: Clipper): (r: real)
    ensures s.bottom.Some? ==> r >= PercentSeen(s.bottom.value, border, clip)
    ensures s.top.Some? ==> r >= PercentSeen(s.top.value, border, clip)
    ensures r == 0.0
         || (s.bottom.Some? && r == PercentSeen(s.bottom.value, border, clip))
         || (s.top.Some? && r == PercentSeen(s.top.value, border, clip))
  {
    var bottom := if s.bottom.Some? then PercentSeen(s.bottom.value, border, clip) else 0.0;
    var top := if s.top.Some? then PercentSeen(s.top.value, border, clip) else 0.0;
    if bottom >= top then bottom else top
  }

  lemma PercentAreaVisibleNonNegative(s: ShadowLOS, border: TokenShape, clip: Clipper)
    requires clip.scaledArea(border) >= 0.0
    ensures PercentAreaVisible(s, border, clip) >= 0.0
  {
    if s.bottom.Some? { PercentSeenCases(s.bottom.value, border, clip); }
    if s.top.Some? { PercentSeenCases(s.top.value, border, clip); }
  }

  // ---------------------------------------------------------------------------
  // Threshold policy (hasLOS)
  // ---------------------------------------------------------------------------

  /** `_targetBoundsTest`: undefined (`None`) for Clipper paths, whose
      simplified form is discarded, else whether the polygon breaches the shape. */
  function TargetBoundsTest(los: Los, shape: TokenShape, clip: Clipper): (r: Option<bool>)
    ensures r.None? <==> los.ClipperLos?
  {
    match los
    case ClipperLos(_) => None
    case PolygonLos(pts) => Some(clip.boundsBreached(pts, shape))
  }

  /** The zero-threshold boundary-breach path; `None` means "fall through to the area". */
  function ZeroThresholdVerdict(s: ShadowLOS, shape: TokenShape, clip: Clipper): (r: Option<bool>)
    ensures r == Some(true) <==>
      (s.bottom.Some? && TargetBoundsTest(s.bottom.value, shape, clip) == Some(true)) ||
      (s.top.Some? && TargetBoundsTest(s.top.value, shape, clip) == Some(true))
    ensures r.None? <==>
      (s.bottom.None? || s.bottom.value.ClipperLos?) && (s.top.None? || s.top.value.ClipperLos?)
  {
    var bottomTest := if s.bottom.Some? then TargetBoundsTest(s.bottom.value, shape, clip) else None;
    if bottomTest == Some(true) then Some(true)
    else
      var topTest := if s.top.Some? then TargetBoundsTest(s.top.value, shape, clip) else None;
      if topTest == Some(true) then Some(true)
      else if bottomTest.Some? || topTest.Some? then Some(false)
      else None
  }

  /** The final comparison: nothing seen never suffices; otherwise the visible
      fraction must exceed the threshold or be within epsilon of it. */
  predicate MeetsThreshold(percentVisible: real, percentArea: real) {
    !AlmostEqual(percentVisible, 0.0)
    && (percentVisible > percentArea || AlmostEqual(percentVisible, percentArea))
  }

  /**
   * `hasLOS`. `typedBorder` is the target border constrained for the
   * configured sense type, used by the boundary test; the area uses the
   * target's own constrained border.
   */
  function HasLOS(centerPointIsVisible: bool, percentArea: real, viewerZ: real, target: Target,
                  typedBorder: TokenShape, losAt: real -> Los, clip: Clipper): (r: bool)
    ensures centerPointIsVisible && percentArea < CENTER_SHORTCUT_AREA ==> r
    ensures !centerPointIsVisible && percentArea >= CENTER_SHORTCUT_AREA ==> !r
    ensures percentArea != 0.0 && (centerPointIsVisible <==> percentArea >= CENTER_SHORTCUT_AREA) ==>
      (r <==> MeetsThreshold(
                PercentAreaVisible(BuildShadowLOS(viewerZ, target, losAt), target.border, clip),
                percentArea))
  {
    if centerPointIsVisible && percentArea < CENTER_SHORTCUT_AREA then true
    else if !centerPointIsVisible && percentArea >= CENTER_SHORTCUT_AREA then false
    else
      var shadowLOS := BuildShadowLOS(viewerZ, target, losAt);
      var zero := if percentArea == 0.0 then ZeroThresholdVerdict(shadowLOS, typedBorder, clip) else None;
      if zero.Some? then zero.value
      else MeetsThreshold(PercentAreaVisible(shadowLOS, target.border, clip), percentArea)
  }

  /** With threshold exactly 0 and the centre hidden (a visible centre already
      grants line of sight): a breached boundary on a tested plane grants line
      of sight; defined tests that all fail deny it; with no defined test the
      area decides. */
  lemma ZeroThresholdPath(viewerZ: real, target: Target,
                          typedBorder: TokenShape, losAt: real -> Los, clip: Clipper)
    ensures var s := BuildShadowLOS(viewerZ, target, losAt);
      var r := HasLOS(false, 0.0, viewerZ, target, typedBorder, losAt, clip);
      && ((s.bottom.Some? && TargetBoundsTest(s.bottom.value, typedBorder, clip) == Some(true)) ==> r)
      && ((s.top.Some? && TargetBoundsTest(s.top.value, typedBorder, clip) == Some(true)) ==> r)
      && (ZeroThresholdVerdict(s, typedBorder, clip) == Some(false) ==> !r)
      && (ZeroThresholdVerdict(s, typedBorder, clip).None? ==>
            (r <==> MeetsThreshold(PercentAreaVisible(s, target.border, clip), 0.0)))
  {
  }

  /** Raising a non-zero required percentage never grants line of sight that a
      lower one denied. (At 0 the boundary test may deny what the area grants.) */
  lemma HasLOSMonotone(centerPointIsVisible: bool, low: real, high: real, viewerZ: real, target: Target,
                       typedBorder: TokenShape, losAt: real -> Los, clip: Clipper)
    requires 0.0 < low <= high
    requires HasLOS(centerPointIsVisible, high, viewerZ, target, typedBorder, losAt, clip)
    ensures HasLOS(centerPointIsVisible, low, viewerZ, target, typedBorder, losAt, clip)
  {
    var pv := PercentAreaVisible(BuildShadowLOS(viewerZ, target, losAt), target.border, clip);
    if !(centerPointIsVisible && low < CENTER_SHORTCUT_AREA) {
      assert MeetsThreshold(pv, high);
      if !(pv > low) {
        assert low - pv <= high - pv <= EPSILON;
      }
    }
  }

  // ---------------------------------------------------------------------------
  // Occluder filters (shadowLOSForElevation, isConstrained)
  // ---------------------------------------------------------------------------

  /** A wall with its top and bottom elevations. */
  datatype WallInfo = WallInfo(id: nat, topZ: real, bottomZ: real)

  /** A token; `hp` is `None` when the configured HP attribute is not a number. */
  datatype TokenInfo = TokenInfo(id: nat, hp: Option<real>)

  /** The token filter callback. */
  predicate KeepBlockingToken(t: TokenInfo, liveTokensBlock: bool, deadTokensBlock: bool) {
    if t.hp.None? then true
    else if liveTokensBlock && t.hp.value > 0.0 then true
    else if deadTokensBlock && t.hp.value <= 0.0 then true
    else false
  }

  /** The blocking tokens: filtered by HP only when exactly one of live and dead tokens block. */
  function FilterBlockingTokens(tokens: seq<TokenInfo>, liveTokensBlock: bool, deadTokensBlock: bool)
    : (r: seq<TokenInfo>)
    ensures liveTokensBlock == deadTokensBlock ==> r == tokens
    ensures liveTokensBlock != deadTokensBlock ==>
      forall t :: t in r <==>
        t in tokens && (t.hp.None? || (liveTokensBlock && t.hp.value > 0.0) || (deadTokensBlock && t.hp.value <= 0.0))
  {
    if liveTokensBlock != deadTokensBlock then KeepTokens(tokens, liveTokensBlock, deadTokensBlock) else tokens
  }

  function KeepTokens(tokens: seq<TokenInfo>, live: bool, dead: bool): (r: seq<TokenInfo>)
    ensures forall t :: t in r <==> t in tokens && KeepBlockingToken(t, live, dead)
  {
    if tokens == [] then []
    else
      var init, last := tokens[..|tokens| - 1], tokens[|tokens| - 1];
      assert tokens == init + [last];
      KeepTokens(init, live, dead) + (if KeepBlockingToken(last, live, dead) then [last] else [])
  }

  /** The token filter keeps the order of the tokens: it distributes over concatenation. */
  lemma {:induction false} KeepTokensConcat(a: seq<TokenInfo>, b: seq<TokenInfo>, live: bool, dead: bool)
    ensures KeepTokens(a + b, live, dead) == KeepTokens(a, live, dead) + KeepTokens(b, live, dead)
    decreases |b|
  {
    if b == [] {
      assert a + b == a;
    } else {
      var init, last := b[..|b| - 1], b[|b| - 1];
      var tail := if KeepBlockingToken(last, live, dead) then [last] else [];
      KeepTokensConcat(a, init, live, dead);
      assert (a + b)[..|a + b| - 1] == a + init && (a + b)[|a + b| - 1] == last;
      assert KeepTokens(a + b, live, dead) == KeepTokens(a + init, live, dead) + tail;
      assert KeepTokens(b, live, dead) == KeepTokens(init, live, dead) + tail;
    }
  }

  /** A wall that the viewer is under while the target plane is above it, or
      the reverse, may shadow the target, so the line of sight is rebuilt. */
  predicate WallForcesRedo(w: WallInfo, viewerZ: real, targetElevation: real) {
    (viewerZ < w.topZ && targetElevation > w.topZ) || (viewerZ > w.bottomZ && targetElevation < w.bottomZ)
  }

  predicate NeedsRedo(blockingTokens: nat, walls: seq<WallInfo>, viewerZ: real, targetElevation: real) {
    blockingTokens > 0 || exists w :: w in walls && WallForcesRedo(w, viewerZ, targetElevation)
  }

  /** One of the boundary shapes constraining the vision source's polygon. */
  datatype BoundaryShape = LimitedAngleShape(radius: real) | OtherBoundaryShape

  /** `isConstrained`: is the vision polygon limited by anything but a full-radius angle? */
  function IsConstrained(boundaryShapes: seq<BoundaryShape>, maxR: real): (r: bool)
    ensures |boundaryShapes| == 0 ==> !r
    ensures |boundaryShapes| >= 2 ==> r
    ensures |boundaryShapes| == 1 ==>
      (r <==> !boundaryShapes[0].LimitedAngleShape? || boundaryShapes[0].radius < maxR)
  {
    if |boundaryShapes| == 0 then false
    else if |boundaryShapes| >= 2 then true
    else
      match boundaryShapes[0]
      case OtherBoundaryShape => true
      case LimitedAngleShape(radius) => radius < maxR
  }

  /** A shadow polygon and one vertical side of a token prism. */
  datatype Shadow = Shadow(points: seq<real>)
  datatype Side = Side(points: seq<real>)

  /** The shadow construction, which is not part of this model. */
  datatype ShadowOracle = ShadowOracle(
    fromWall: WallInfo -> Option<Shadow>,
    tokenSides: (TokenInfo, bool) -> seq<Side>,
    fromSide: Side -> Option<Shadow>)

  /** The configuration and vision-source data read by `shadowLOSForElevation`. */
  datatype LosSettings = LosSettings(
    losType: string,
    tokensBlock: bool,
    liveTokensBlock: bool,
    deadTokensBlock: bool,
    deadHalfHeight: bool,
    perfectVision: bool,
    sourceLosType: string,
    sourceBoundaryShapes: seq<BoundaryShape>,
    maxR: real)

  /** What `shadowLOSForElevation` returns. */
  datatype LosPlan =
    | SourceLos                       // the vision source's own polygon (Perfect Vision active)
    | CreatedPolygon                  // the vision source's polygon rebuilt from its configuration
    | Shadowed(shadows: seq<Shadow>)  // the infinite-walls sweep combined with these shadows

  /** The present results of `f` over `xs`, in order. */
  function Somes<T, U>(xs: seq<T>, f: T -> Option<U>): (r: seq<U>)
    ensures |r| <= |xs|
  {
    if xs == [] then []
    else
      Somes(xs[..|xs| - 1], f) + (match f(xs[|xs| - 1]) case Some(u) => [u] case None => [])
  }

  /** Every collected result comes from some input element. */
  lemma {:induction false} SomesFrom<T, U>(xs: seq<T>, f: T -> Option<U>)
    ensures forall u :: u in Somes(xs, f) ==> exists x :: x in xs && f(x) == Some(u)
    decreases |xs|
  {
    if xs != [] {
      var init, last := xs[..|xs| - 1], xs[|xs| - 1];
      SomesFrom(init, f);
      assert forall x :: x in init ==> x in xs;
    }
  }

  /** A dead token casts half-height shadows when so configured. */
  predicate HalfHeight(t: TokenInfo, deadHalfHeight: bool) {
    deadHalfHeight && t.hp.Some? && t.hp.value <= 0.0
  }

  function TokenShadows(tokens: seq<TokenInfo>, deadHalfHeight: bool, o: ShadowOracle): seq<Shadow> {
    if tokens == [] then []
    else
      var last := tokens[|tokens| - 1];
      TokenShadows(tokens[..|tokens| - 1], deadHalfHeight, o)
        + Somes(o.tokenSides(last, HalfHeight(last, deadHalfHeight)), o.fromSide)
  }

  /** One more blocking token appends the shadows of its sides. */
  lemma TokenShadowsSnoc(tokens: seq<TokenInfo>, t: TokenInfo, deadHalfHeight: bool, o: ShadowOracle)
    ensures TokenShadows(tokens + [t], deadHalfHeight, o)
      == TokenShadows(tokens, deadHalfHeight, o) + Somes(o.tokenSides(t, HalfHeight(t, deadHalfHeight)), o.fromSide)
  {
    assert (tokens + [t])[..|tokens|] == tokens;
  }

  /** The tokens handed to the HP filter: the scene-object query returns tokens
      only when tokens block at all. */
  function CandidateTokens(tokens: seq<TokenInfo>, cfg: LosSettings): seq<TokenInfo> {
    if cfg.tokensBlock then tokens else []
  }

  /** The specification of `shadowLOSForElevation`. */
  function PlanLos(walls: seq<WallInfo>, tokens: seq<TokenInfo>, viewerZ: real, targetElevation: real,
                   cfg: LosSettings, o: ShadowOracle): (r: LosPlan)
    ensures var blocking := FilterBlockingTokens(CandidateTokens(tokens, cfg), cfg.liveTokensBlock, cfg.deadTokensBlock);
      var redo := NeedsRedo(|blocking|, walls, viewerZ, targetElevation);
      && (r.Shadowed? <==>
            redo || (cfg.perfectVision &&
                     (cfg.losType != cfg.sourceLosType || IsConstrained(cfg.sourceBoundaryShapes, cfg.maxR))))
      && (r.SourceLos? ==> cfg.perfectVision)
      && (r.CreatedPolygon? ==> !cfg.perfectVision)
  {
    var blocking := FilterBlockingTokens(CandidateTokens(tokens, cfg), cfg.liveTokensBlock, cfg.deadTokensBlock);
    var redo := NeedsRedo(|blocking|, walls, viewerZ, targetElevation);
    var shadows := Somes(walls, o.fromWall) + TokenShadows(blocking, cfg.deadHalfHeight, o);
    if cfg.perfectVision then
      if redo || cfg.losType != cfg.sourceLosType || IsConstrained(cfg.sourceBoundaryShapes, cfg.maxR)
      then Shadowed(shadows)
      else SourceLos
    else if redo then Shadowed(shadows)
    else CreatedPolygon
  }

  /** When tokens do not block, the tokens never matter: only walls can force
      the rebuild and only walls cast shadows. */
  lemma PlanLosWithoutBlockingTokens(walls: seq<WallInfo>, tokens: seq<TokenInfo>, viewerZ: real,
                                     targetElevation: real, cfg: LosSettings, o: ShadowOracle)
    requires !cfg.tokensBlock
    ensures PlanLos(walls, tokens, viewerZ, targetElevation, cfg, o).Shadowed? ==>
      PlanLos(walls, tokens, viewerZ, targetElevation, cfg, o).shadows == Somes(walls, o.fromWall)
    ensures PlanLos(walls, tokens, viewerZ, targetElevation, cfg, o) == PlanLos(walls, [], viewerZ, targetElevation, cfg, o)
  {
    assert FilterBlockingTokens([], cfg.liveTokensBlock, cfg.deadTokensBlock) == [];
    assert TokenShadows([], cfg.deadHalfHeight, o) == [];
    assert Somes(walls, o.fromWall) + [] == Somes(walls, o.fromWall);
  }


  /** The present shadows of `xs`, in order: the shadow-collecting loops of
      `shadowLOSForElevation` over walls and over the sides of one token. */
  method PushShadows<T>(shadows: seq<Shadow>, xs: seq<T>, f: T -> Option<Shadow>) returns (out: seq<Shadow>)
    ensures out == shadows + Somes(xs, f)
  {
    out := shadows;
    var i := 0;
    while i < |xs|
      invariant 0 <= i <= |xs|
      invariant out == shadows + Somes(xs[..i], f)
    {
      var shadow := f(xs[i]);
      if shadow.Some? {
        out := out + [shadow.value];
      }
      assert xs[..i + 1][..i] == xs[..i];
      i := i + 1;
    }
    assert xs[..i] == xs;
  }

  /** Every wall shadow, then every shadow of every side of every blocking token. */
  method CollectShadows(walls: seq<WallInfo>, blocking: seq<TokenInfo>, deadHalfHeight: bool, o: ShadowOracle)
    returns (shadows: seq<Shadow>)
    ensures shadows == Somes(walls, o.fromWall) + TokenShadows(blocking, deadHalfHeight, o)
  {
    shadows := PushShadows([], walls, o.fromWall);
    var j := 0;
    while j < |blocking|
      invariant 0 <= j <= |blocking|
      invariant shadows == Somes(walls, o.fromWall) + TokenShadows(blocking[..j], deadHalfHeight, o)
    {
      var token := blocking[j];
      var halfHeight := false;
      if deadHalfHeight {
        halfHeight := token.hp.Some? && token.hp.value <= 0.0;
      }
      var sides := o.tokenSides(token, halfHeight);
      shadows := PushShadows(shadows, sides, o.fromSide);
      assert blocking[..j + 1] == blocking[..j] + [token];
      TokenShadowsSnoc(blocking[..j], token, deadHalfHeight, o);
      j := j + 1;
    }
    assert blocking[..j] == blocking;
  }

  /** `shadowLOSForElevation`: filters the tokens, decides whether to rebuild the
      line of sight and, when it does, collects the wall and token shadows. */
  method ShadowLOSForElevation(walls: seq<WallInfo>, tokens: seq<TokenInfo>, viewerZ: real,
                               targetElevation: real, cfg: LosSettings, o: ShadowOracle)
    returns (plan: LosPlan)
    ensures plan == PlanLos(walls, tokens, viewerZ, targetElevation, cfg, o)
  {
    var blocking := if cfg.tokensBlock then tokens else [];
    if |blocking| > 0 && cfg.liveTokensBlock != cfg.deadTokensBlock {
      blocking := KeepTokens(blocking, cfg.liveTokensBlock, cfg.deadTokensBlock);
    }
    var redo := |blocking| > 0 || exists w :: w in walls && WallForcesRedo(w, viewerZ, targetElevation);
    if cfg.perfectVision {
      redo := redo || cfg.losType != cfg.sourceLosType || IsConstrained(cfg.sourceBoundaryShapes, cfg.maxR);
      if !redo {
        return SourceLos;
      }
    } else if !redo {
      return CreatedPolygon;
    }

    var shadows := CollectShadows(walls, blocking, cfg.deadHalfHeight, o);
    plan := Shadowed(shadows);
  }

  // ---------------------------------------------------------------------------
  // Tiles with drawing holes (_combineTilesWithDrawingHoles)
  // ---------------------------------------------------------------------------

  /** Twice the signed (shoelace) area of the polygon with vertices (pts[2i], pts[2i+1]). */
  function ShoelaceTwiceArea(pts: seq<real>): real
    requires |pts| % 2 == 0
  {
    ShoelaceFrom(pts, 0)
  }

  function ShoelaceFrom(pts: seq<real>, i: nat): real
    requires |pts| % 2 == 0 && 2 * i <= |pts|
    decreases |pts| - 2 * i
  {
    if 2 * i == |pts| then 0.0
    else
      var j := if 2 * i + 2 == |pts| then 0 else 2 * i + 2;
      pts[2 * i] * pts[j + 1] - pts[j] * pts[2 * i + 1] + ShoelaceFrom(pts, i + 1)
  }

  /** The tile's polygon as the code builds it: its third vertex uses the width
      where the height is meant. */
  function TilePolygonAsWritten(x: real, y: real, width: real, height: real): (pts: seq<real>)
    ensures |pts| == 8 && pts[5] == y + width
    ensures forall k :: 0 <= k < 8 && k != 5 ==> pts[k] == TilePolygon(x, y, width, height)[k]
  {
    [x, y, x + width, y, x + width, y + width, x, y + height]
  }

  /** The tile's rectangle, corner by corner. */
  function TilePolygon(x: real, y: real, width: real, height: real): (pts: seq<real>)
    ensures |pts| == 8
    ensures ShoelaceTwiceArea(pts) == 2.0 * width * height
  {
    var pts := [x, y, x + width, y, x + width, y + height, x, y + height];
    assert ShoelaceFrom(pts, 3) == x * y - x * (y + height);
    assert ShoelaceFrom(pts, 2) == (x + width) * (y + height) - x * (y + height) + ShoelaceFrom(pts, 3);
    assert ShoelaceFrom(pts, 1) == (x + width) * (y + height) - (x + width) * y + ShoelaceFrom(pts, 2);
    assert ShoelaceFrom(pts, 0) == x * y - (x + width) * y + ShoelaceFrom(pts, 1);
    assert (x + width) * (y + height) == x * y + x * height + width * y + width * height;
    assert x * (y + height) == x * y + x * height;
    assert (x + width) * y == x * y + width * y;
    pts
  }

  /** The written polygon is the tile's rectangle exactly when the tile is square. */
  lemma TilePolygonAsWrittenOnlyForSquares(x: real, y: real, width: real, height: real)
    ensures TilePolygonAsWritten(x, y, width, height) == TilePolygon(x, y, width, height) <==> width == height
  {
    if TilePolygonAsWritten(x, y, width, height) == TilePolygon(x, y, width, height) {
      assert TilePolygonAsWritten(x, y, width, height)[5] == TilePolygon(x, y, width, height)[5];
    }
  }

  /** A 2 x 1 tile at the origin gets the quadrilateral (0,0) (2,0) (2,2) (0,1),
      of area 3 rather than 2. */
  lemma TilePolygonAsWrittenCounterexample()
    ensures TilePolygonAsWritten(0.0, 0.0, 2.0, 1.0) == [0.0, 0.0, 2.0, 0.0, 2.0, 2.0, 0.0, 1.0]
    ensures ShoelaceTwiceArea(TilePolygonAsWritten(0.0, 0.0, 2.0, 1.0)) == 6.0
    ensures ShoelaceTwiceArea(TilePolygon(0.0, 0.0, 2.0, 1.0)) == 4.0
  {
    var pts := TilePolygonAsWritten(0.0, 0.0, 2.0, 1.0);
    assert ShoelaceFrom(pts, 3) == 0.0;
    assert ShoelaceFrom(pts, 2) == 2.0;
    assert ShoelaceFrom(pts, 1) == 6.0;
  }

  /** One Levels flag as `getFlag` returns it: never set (`undefined`), `null`, or a number. */
  datatype LevelsFlag = Unset | Null | Value(v: real)

  /** A drawing's Levels range; `rangeTop` is read as the minimum and `rangeBottom` as the maximum. */
  datatype DrawingInfo = DrawingInfo(id: nat, rangeTop: LevelsFlag, rangeBottom: LevelsFlag)

  /** The flag as a bound of `Math.min`/`Math.max`: `null` becomes 0 and
      `undefined` becomes NaN (`None`), with which every comparison is false. */
  function JsBound(f: LevelsFlag): Option<real> {
    match f
    case Unset => None
    case Null => Some(0.0)
    case Value(v) => Some(v)
  }

  /** Foundry's inclusive `Number#between`, which orders its two bounds. */
  predicate Between(x: real, a: real, b: real)
    ensures Between(x, a, b) <==> (a <= x <= b || b <= x <= a)
  {
    (if a <= b then a else b) <= x <= (if a <= b then b else a)
  }

  /** `Number#between` on JavaScript bounds: false once a bound is NaN. */
  predicate JsBetween(x: real, a: Option<real>, b: Option<real>) {
    a.Some? && b.Some? && Between(x, a.value, b.value)
  }

  /** Does this drawing cut a hole in a tile at elevation `tileE`? The test as
      the code runs it: the `== null` tests catch both `null` and `undefined`,
      but `between` reads `null` as 0 and `undefined` as NaN. */
  predicate DrawingCutsTileAsWritten(tileE: real, d: DrawingInfo)
    ensures DrawingCutsTileAsWritten(tileE, d) ==> d.rangeTop.Value? || d.rangeBottom.Value?
    ensures DrawingCutsTileAsWritten(tileE, d) ==> !d.rangeTop.Unset? && !d.rangeBottom.Unset?
  {
    var minE := d.rangeTop;
    var maxE := d.rangeBottom;
    if !minE.Value? && !maxE.Value? then false
    else if !minE.Value? && tileE != maxE.v then false
    else if !maxE.Value? && tileE != minE.v then false
    else JsBetween(tileE, JsBound(minE), JsBound(maxE))
  }

  /** As written, a drawing with one flag cuts the tile sitting exactly at it
      only when the other flag is `null`; when the other flag was never set
      the drawing never cuts. With both flags the tile must lie between them. */
  lemma DrawingCutsTileAsWrittenIff(tileE: real, d: DrawingInfo)
    ensures DrawingCutsTileAsWritten(tileE, d) <==>
      (d.rangeTop.Value? && d.rangeBottom.Null? && tileE == d.rangeTop.v) ||
      (d.rangeTop.Null? && d.rangeBottom.Value? && tileE == d.rangeBottom.v) ||
      (d.rangeTop.Value? && d.rangeBottom.Value? && Between(tileE, d.rangeTop.v, d.rangeBottom.v))
  {
  }

  /** A flag that was never set, read as `null`, as the `== null` tests intend. */
  function NullIfUnset(f: LevelsFlag): (r: LevelsFlag)
    ensures !r.Unset?
    ensures f.Value? ==> r == f
  {
    if f.Unset? then Null else f
  }

  /** The intended test: an unset flag counts as `null`. */
  predicate DrawingCutsTile(tileE: real, d: DrawingInfo)
    ensures DrawingCutsTile(tileE, d) ==> d.rangeTop.Value? || d.rangeBottom.Value?
  {
    DrawingCutsTileAsWritten(tileE, d.(rangeTop := NullIfUnset(d.rangeTop), rangeBottom := NullIfUnset(d.rangeBottom)))
  }

  /** With one flag the tile must sit exactly at it, whatever the other flag;
      with both it must lie between them, in either order. */
  lemma DrawingCutsTileIff(tileE: real, d: DrawingInfo)
    ensures DrawingCutsTile(tileE, d) <==>
      (d.rangeTop.Value? && !d.rangeBottom.Value? && tileE == d.rangeTop.v) ||
      (!d.rangeTop.Value? && d.rangeBottom.Value? && tileE == d.rangeBottom.v) ||
      (d.rangeTop.Value? && d.rangeBottom.Value? && Between(tileE, d.rangeTop.v, d.rangeBottom.v))
  {
    DrawingCutsTileAsWrittenIff(tileE, d.(rangeTop := NullIfUnset(d.rangeTop), rangeBottom := NullIfUnset(d.rangeBottom)));
  }

  /** The two tests differ only on drawings with an unset flag, and there the
      code cuts fewer tiles than intended. */
  lemma DrawingCutsTileAgreement(tileE: real, d: DrawingInfo)
    ensures DrawingCutsTileAsWritten(tileE, d) ==> DrawingCutsTile(tileE, d)
    ensures !d.rangeTop.Unset? && !d.rangeBottom.Unset? ==>
      DrawingCutsTileAsWritten(tileE, d) == DrawingCutsTile(tileE, d)
  {
    DrawingCutsTileAsWrittenIff(tileE, d);
    DrawingCutsTileIff(tileE, d);
  }

  /** A drawing at elevation 5 whose `rangeBottom` was never set cuts no hole
      in a tile at 5, although the same drawing with `rangeBottom` null does. */
  lemma DrawingCutsTileAsWrittenCounterexample()
    ensures !DrawingCutsTileAsWritten(5.0, DrawingInfo(0, Value(5.0), Unset))
    ensures DrawingCutsTileAsWritten(5.0, DrawingInfo(0, Value(5.0), Null))
    ensures DrawingCutsTile(5.0, DrawingInfo(0, Value(5.0), Unset))
  {
  }

  /** Reading `rangeTop` as the minimum and `rangeBottom` as the maximum is
      harmless: swapping the two flags never changes either decision. */
  lemma DrawingCutsTileSymmetric(tileE: real, d: DrawingInfo)
    ensures DrawingCutsTileAsWritten(tileE, d)
         == DrawingCutsTileAsWritten(tileE, d.(rangeTop := d.rangeBottom, rangeBottom := d.rangeTop))
    ensures DrawingCutsTile(tileE, d) == DrawingCutsTile(tileE, d.(rangeTop := d.rangeBottom, rangeBottom := d.rangeTop))
  {
    DrawingCutsTileAsWrittenIff(tileE, d);
    DrawingCutsTileAsWrittenIff(tileE, d.(rangeTop := d.rangeBottom, rangeBottom := d.rangeTop));
    DrawingCutsTileIff(tileE, d);
    DrawingCutsTileIff(tileE, d.(rangeTop := d.rangeBottom, rangeBottom := d.rangeTop));
  }

  class Tile {
    const x: real
    const y: real
    const width: real
    const height: real
    const elevation: real
    var polygon: seq<real>

    constructor (x: real, y: real, width: real, height: real, elevation: real)
      ensures this.x == x && this.y == y && this.width == width && this.height == height
      ensures this.elevation == elevation && polygon == []
    {
      this.x, this.y, this.width, this.height, this.elevation := x, y, width, height, elevation;
      polygon := [];
    }
  }

  /** The drawings that cut a hole in a tile at elevation `tileE`, in order. */
  function HolesFor(tileE: real, drawings: seq<DrawingInfo>): (r: seq<DrawingInfo>)
    ensures forall d :: d in r <==> d in drawings && DrawingCutsTileAsWritten(tileE, d)
  {
    if drawings == [] then []
    else
      var init, last := drawings[..|drawings| - 1], drawings[|drawings| - 1];
      assert drawings == init + [last];
      HolesFor(tileE, init) + (if DrawingCutsTileAsWritten(tileE, last) then [last] else [])
  }

  /** The tiles that some drawing cuts, each with its holes, in order. */
  function HoledTiles(tiles: seq<Tile>, drawings: seq<DrawingInfo>): (r: seq<(Tile, seq<DrawingInfo>)>)
    ensures forall i :: 0 <= i < |r| ==>
      r[i].0 in tiles && r[i].1 == HolesFor(r[i].0.elevation, drawings) && r[i].1 != []
  {
    if tiles == [] then []
    else
      var init, last := tiles[..|tiles| - 1], tiles[|tiles| - 1];
      var holes := HolesFor(last.elevation, drawings);
      HoledTiles(init, drawings) + (if holes != [] then [(last, holes)] else [])
  }

  /** The tiles that no drawing cuts, in order. */
  function UnholedTiles(tiles: seq<Tile>, drawings: seq<DrawingInfo>): (r: seq<Tile>)
    ensures forall i :: 0 <= i < |r| ==> r[i] in tiles && HolesFor(r[i].elevation, drawings) == []
    ensures forall i :: 0 <= i < |tiles| && HolesFor(tiles[i].elevation, drawings) == [] ==> tiles[i] in r
  {
    if tiles == [] then []
    else
      var init, last := tiles[..|tiles| - 1], tiles[|tiles| - 1];
      assert tiles == init + [last];
      UnholedTiles(init, drawings) + (if HolesFor(last.elevation, drawings) == [] then [last] else [])
  }

  /** The holed tiles keep the order of the tiles: the list distributes over concatenation. */
  lemma {:induction false} HoledTilesConcat(a: seq<Tile>, b: seq<Tile>, drawings: seq<DrawingInfo>)
    ensures HoledTiles(a + b, drawings) == HoledTiles(a, drawings) + HoledTiles(b, drawings)
    decreases |b|
  {
    if b == [] {
      assert a + b == a;
    } else {
      var init, last := b[..|b| - 1], b[|b| - 1];
      var holes := HolesFor(last.elevation, drawings);
      var tail := if holes != [] then [(last, holes)] else [];
      HoledTilesConcat(a, init, drawings);
      assert (a + b)[..|a + b| - 1] == a + init && (a + b)[|a + b| - 1] == last;
      assert HoledTiles(a + b, drawings) == HoledTiles(a + init, drawings) + tail;
      assert HoledTiles(b, drawings) == HoledTiles(init, drawings) + tail;
    }
  }

  /** Every tile that some drawing cuts is listed, with its holes. */
  lemma {:induction false} HoledTilesComplete(tiles: seq<Tile>, drawings: seq<DrawingInfo>)
    ensures forall i :: 0 <= i < |tiles| && HolesFor(tiles[i].elevation, drawings) != [] ==>
      (tiles[i], HolesFor(tiles[i].elevation, drawings)) in HoledTiles(tiles, drawings)
  {
    if tiles != [] {
      var init, last := tiles[..|tiles| - 1], tiles[|tiles| - 1];
      HoledTilesComplete(init, drawings);
      forall i | 0 <= i < |tiles| && HolesFor(tiles[i].elevation, drawings) != []
        ensures (tiles[i], HolesFor(tiles[i].elevation, drawings)) in HoledTiles(tiles, drawings)
      {
        if i < |init| {
          assert tiles[i] == init[i];
        }
      }
    }
  }

  /** The unholed tiles keep the order of the tiles: the list distributes over concatenation. */
  lemma {:induction false} UnholedTilesConcat(a: seq<Tile>, b: seq<Tile>, drawings: seq<DrawingInfo>)
    ensures UnholedTiles(a + b, drawings) == UnholedTiles(a, drawings) + UnholedTiles(b, drawings)
    decreases |b|
  {
    if b == [] {
      assert a + b == a;
    } else {
      var init, last := b[..|b| - 1], b[|b| - 1];
      var tail := if HolesFor(last.elevation, drawings) == [] then [last] else [];
      UnholedTilesConcat(a, init, drawings);
      assert (a + b)[..|a + b| - 1] == a + init && (a + b)[|a + b| - 1] == last;
      assert UnholedTiles(a + b, drawings) == UnholedTiles(a + init, drawings) + tail;
      assert UnholedTiles(b, drawings) == UnholedTiles(init, drawings) + tail;
    }
  }

  /** Every tile lands in exactly one of the two lists. */
  lemma {:induction false} HoledTilesPartition(tiles: seq<Tile>, drawings: seq<DrawingInfo>)
    ensures |HoledTiles(tiles, drawings)| + |UnholedTiles(tiles, drawings)| == |tiles|
  {
    if tiles != [] {
      HoledTilesPartition(tiles[..|tiles| - 1], drawings);
    }
  }

  /** What `_combineTilesWithDrawingHoles` hands to the clipper. */
  datatype TileCombination =
    | NoTiles
    | TilesOnly(tiles: seq<Tile>)
    | TilesWithHoles(holed: seq<(Tile, seq<DrawingInfo>)>, unholed: seq<Tile>)

  /** `_combineTilesWithDrawingHoles`, using the corrected tile rectangle. */
  method CombineTilesWithDrawingHoles(tiles: seq<Tile>, drawings: seq<DrawingInfo>) returns (r: TileCombination)
    modifies set t | t in tiles
    ensures forall t :: t in tiles ==> t.polygon == TilePolygon(t.x, t.y, t.width, t.height)
    ensures tiles == [] ==> r == NoTiles
    ensures tiles != [] && drawings == [] ==> r == TilesOnly(tiles)
    ensures tiles != [] && drawings != [] ==>
      r == TilesWithHoles(HoledTiles(tiles, drawings), UnholedTiles(tiles, drawings))
  {
    if |tiles| == 0 {
      return NoTiles;
    }
    var n := 0;
    while n < |tiles|
      invariant 0 <= n <= |tiles|
      invariant forall k :: 0 <= k < n ==> tiles[k].polygon == TilePolygon(tiles[k].x, tiles[k].y, tiles[k].width, tiles[k].height)
    {
      var t := tiles[n];
      t.polygon := TilePolygon(t.x, t.y, t.width, t.height);
      n := n + 1;
    }
    if |drawings| == 0 {
      return TilesOnly(tiles);
    }

    var tilesUnholed: seq<Tile> := [];
    var tilesHoled: seq<(Tile, seq<DrawingInfo>)> := [];
    var i := 0;
    while i < |tiles|
      invariant 0 <= i <= |tiles|
      invariant tilesHoled == HoledTiles(tiles[..i], drawings)
      invariant tilesUnholed == UnholedTiles(tiles[..i], drawings)
    {
      var tile := tiles[i];
      var drawingHoles: seq<DrawingInfo> := [];
      var j := 0;
      while j < |drawings|
        invariant 0 <= j <= |drawings|
        invariant drawingHoles == HolesFor(tile.elevation, drawings[..j])
      {
        var drawing := drawings[j];
        if DrawingCutsTileAsWritten(tile.elevation, drawing) {
          drawingHoles := drawingHoles + [drawing];
        }
        assert drawings[..j + 1][..j] == drawings[..j];
        j := j + 1;
      }
      assert drawings[..j] == drawings;
      if |drawingHoles| > 0 {
        tilesHoled := tilesHoled + [(tile, drawingHoles)];
      } else {
        tilesUnholed := tilesUnholed + [tile];
      }
      assert tiles[..i + 1][..i] == tiles[..i];
      i := i + 1;
    }
    assert tiles[..i] == tiles;
    r := TilesWithHoles(tilesHoled, tilesUnholed);
  }
}
