/**
 * The navigation progress engine: given a route plan and a live position, find the leg the
 * position is nearest to, how far along that leg it is, and the travelled and remaining
 * distance and completion ratio of the whole route.
 *
 * Distances are `real`. The planar projection of a coordinate (which uses cosine and pi) and
 * the square root are floating point in the source; they are the oracles of `Geometry`, known
 * only through their ranges. Everything built on them (vector arithmetic, the clamped
 * projection fraction, the nearest-leg search and the accumulation of offsets) is exact.
 */
module Progress {

  import opened Wrappers
  import opened Places

  // ---------------------------------------------------------------------------------------
  // Geometry
  // ---------------------------------------------------------------------------------------

  /** A point in the local planar frame, in metres. */
  datatype Point = Point(x: real, y: real)

  /** `Math.sqrt`, known only to be non-negative on non-negative arguments. */
  type SquareRoot = f: real -> real | forall x: real :: 0.0 <= x ==> 0.0 <= f(x)
    witness (x: real) => 0.0

  /** The floating-point collaborators of the projection: `toCartesian` and `Math.sqrt`. */
  datatype Geometry = Geometry(toCartesian: LatLng -> Point, sqrt: SquareRoot)

  /** Distance from the point to the leg, fraction of the leg before the foot, leg length. */
  datatype Metrics = Metrics(distance: real, fractionAlong: real, legLength: real)

  /** `Math.max(min, Math.min(max, value))`. */
  function Clamp(value: real, min: real, max: real): (r: real)
    ensures min <= r
    ensures min <= max ==> r <= max
    ensures min <= value <= max ==> r == value
    ensures value < min ==> r == min
    ensures min <= max < value ==> r == max
    ensures max < min ==> r == min
  {
    var upper := if max < value then max else value;
    if min < upper then upper else min
  }

  function Subtract(a: Point, b: Point): Point {
    Point(a.x - b.x, a.y - b.y)
  }

  function Dot(a: Point, b: Point): real {
    a.x * b.x + a.y * b.y
  }

  lemma SquareNonNegative(x: real)
    ensures x * x >= 0.0
  {
    if x < 0.0 {
      assert x * x == (-x) * (-x);
    }
  }

  /** A vector's squared length is never negative. */
  lemma DotSelfNonNegative(v: Point)
    ensures Dot(v, v) >= 0.0
  {
    SquareNonNegative(v.x);
    SquareNonNegative(v.y);
  }

  /**
   * The scalar projection of `pointVector` on `segmentVector`, clamped to [0, 1]; zero for a
   * degenerate (zero-length) segment.
   */
  function FractionAlong(segmentVector: Point, pointVector: Point): (t: real)
    ensures 0.0 <= t <= 1.0
    ensures segmentVector == Point(0.0, 0.0) ==> t == 0.0
    ensures Dot(segmentVector, segmentVector) > 0.0 ==>
              var q := Dot(pointVector, segmentVector) / Dot(segmentVector, segmentVector);
              && (0.0 <= q <= 1.0 ==> t == q)
              && (q < 0.0 ==> t == 0.0)
              && (q > 1.0 ==> t == 1.0)
  {
    DotSelfNonNegative(segmentVector);
    var lengthSquared := Dot(segmentVector, segmentVector);
    if lengthSquared > 0.0 then Clamp(Dot(pointVector, segmentVector) / lengthSquared, 0.0, 1.0)
    else 0.0
  }

  /**
   * Projects `point` onto the chord from `start` to `end` in the planar frame: the distance to
   * the foot of the (clamped) projection, the fraction of the chord before it, and the chord's
   * length. Distance and length are non-negative, the fraction lies in [0, 1], and it is zero
   * when both ends project to the same point.
   */
  function ProjectPointMetrics(geo: Geometry, start: LatLng, end: LatLng, point: LatLng): (m: Metrics)
    ensures m.distance >= 0.0 && m.legLength >= 0.0
    ensures 0.0 <= m.fractionAlong <= 1.0
    ensures geo.toCartesian(start) == geo.toCartesian(end) ==> m.fractionAlong == 0.0
  {
    var startCartesian := geo.toCartesian(start);
    var endCartesian := geo.toCartesian(end);
    var pointCartesian := geo.toCartesian(point);
    var segmentVector := Subtract(endCartesian, startCartesian);
    var pointVector := Subtract(pointCartesian, startCartesian);
    var fractionAlong := FractionAlong(segmentVector, pointVector);
    var projection := Point(startCartesian.x + segmentVector.x * fractionAlong,
                            startCartesian.y + segmentVector.y * fractionAlong);
    var offset := Subtract(pointCartesian, projection);
    DotSelfNonNegative(offset);
    DotSelfNonNegative(segmentVector);
    Metrics(geo.sqrt(Dot(offset, offset)), fractionAlong, geo.sqrt(Dot(segmentVector, segmentVector)))
  }

  /** The ranges every projection result lies in. */
  predicate ValidMetrics(m: Metrics) {
    m.distance >= 0.0 && 0.0 <= m.fractionAlong <= 1.0 && m.legLength >= 0.0
  }

  /**
   * The projection as the engine sees it: `projectPointMetrics(start, end, point)` known only
   * through the ranges of its results.
   */
  type Projector = f: (LatLng, LatLng, LatLng) -> Metrics | forall a, b, p :: ValidMetrics(f(a, b, p))
    witness StandingStill

  /** A projection that reports every point as lying on the start of a zero-length leg. */
  function StandingStill(start: LatLng, end: LatLng, point: LatLng): Metrics {
    Metrics(0.0, 0.0, 0.0)
  }

  /** The planar projection, packaged for the engine. */
  function PlanarProjector(geo: Geometry): (project: Projector)
    ensures forall a, b, p :: project(a, b, p) == ProjectPointMetrics(geo, a, b, p)
  {
    (a: LatLng, b: LatLng, p: LatLng) => ProjectPointMetrics(geo, a, b, p)
  }

  /**
   * `parseLatLng`: an object with numeric `lat` and `lng`, or a two-element array read as
   * `[lat, lng]`; anything else has no usable coordinates.
   */
  function ParseLatLng(value: RawLocation): (r: Option<LatLng>)
    ensures r.Some? <==> (value.LatLngObject? && value.lat.Some? && value.lng.Some?)
                         || (value.LatLngArray? && |value.items| == 2)
    ensures value.LatLngObject? && value.lat.Some? && value.lng.Some? ==> r == Some(LatLng(value.lat.value, value.lng.value))
    ensures value.LatLngArray? && |value.items| == 2 ==> r == Some(LatLng(value.items[0], value.items[1]))
  {
    match value
    case NoLocation => None
    case LatLngObject(lat, lng) =>
      if lat.Some? && lng.Some? then Some(LatLng(lat.value, lng.value)) else None
    case LatLngArray(items) =>
      if |items| == 2 then Some(LatLng(items[0], items[1])) else None
  }

  // ---------------------------------------------------------------------------------------
  // The route plan as the engine reads it
  // ---------------------------------------------------------------------------------------

  /** The fields of a leg the engine reads; `distanceValue` may be missing. */
  datatype LegView = LegView(
    originLocation: RawLocation,
    destinationLocation: RawLocation,
    distanceValue: Option<real>)

  /** A segment: its legs and, possibly, its own distance total. */
  datatype SegmentView = SegmentView(legs: seq<LegView>, distanceMeters: Option<real>)

  datatype PlanView = PlanView(segments: seq<SegmentView>, totalDistanceMeters: Option<real>)

  /** The result of one progress computation. */
  datatype Snapshot = Snapshot(
    closestSegmentIndex: nat,
    closestLegIndex: nat,
    distanceToLegMeters: real,
    travelledMeters: real,
    remainingMeters: real,
    progressRatio: real)

  /** The nearest leg found so far, with the offsets captured when it was found. */
  datatype Closest = Closest(
    segmentIndex: nat,
    legIndex: nat,
    distanceToLegMeters: real,
    cumulativeBeforeSegment: real,
    cumulativeWithinSegment: real,
    legTravelled: real,
    legDistance: real)

  /** A leg takes part in the nearest-leg search only when both ends have coordinates. */
  predicate Parsable(leg: LegView) {
    ParseLatLng(leg.originLocation).Some? && ParseLatLng(leg.destinationLocation).Some?
  }

  function LegMetrics(project: Projector, position: LatLng, leg: LegView): (m: Metrics)
    requires Parsable(leg)
    ensures ValidMetrics(m)
  {
    project(ParseLatLng(leg.originLocation).value, ParseLatLng(leg.destinationLocation).value, position)
  }

  /** `leg.distanceValue || metrics.legLength`: the recorded distance unless missing or zero. */
  function LegDistance(leg: LegView, m: Metrics): (d: real)
    ensures leg.distanceValue.Some? && leg.distanceValue.value != 0.0 ==> d == leg.distanceValue.value
    ensures leg.distanceValue.None? || leg.distanceValue.value == 0.0 ==> d == m.legLength
  {
    if leg.distanceValue.Some? && leg.distanceValue.value != 0.0 then leg.distanceValue.value
    else m.legLength
  }

  /**
   * The distance covered on a leg: its chosen distance times the projection fraction, clamped
   * to [0, legDistance]; never negative, and zero when the chosen distance is negative.
   */
  function LegTravelled(legDistance: real, fractionAlong: real): (d: real)
    ensures 0.0 <= d
    ensures 0.0 <= legDistance ==> d <= legDistance
    ensures legDistance < 0.0 ==> d == 0.0
    ensures 0.0 <= legDistance * fractionAlong <= legDistance ==> d == legDistance * fractionAlong
  {
    Clamp(legDistance * fractionAlong, 0.0, legDistance)
  }

  // ---------------------------------------------------------------------------------------
  // The scan, as a fold: the specification of `CalculateNavigationProgress`
  // ---------------------------------------------------------------------------------------

  /** State of the inner loop: the offset within the segment and the nearest leg so far. */
  datatype LegScan = LegScan(within: real, closest: Option<Closest>)

  /** State of the outer loop: the offset before the segment and the nearest leg so far. */
  datatype SegmentScan = SegmentScan(before: real, closest: Option<Closest>)

  /** One iteration of the inner loop, for leg `legIndex` of segment `segmentIndex`. */
  function VisitLeg(project: Projector, position: LatLng, segmentIndex: nat, legIndex: nat,
                    leg: LegView, before: real, acc: LegScan): LegScan
  {
    if !Parsable(leg) then LegScan(acc.within + leg.distanceValue.GetOr(0.0), acc.closest)
    else
      var m := LegMetrics(project, position, leg);
      var legDistance := LegDistance(leg, m);
      var closest :=
        if acc.closest.None? || m.distance < acc.closest.value.distanceToLegMeters then
          Some(Closest(segmentIndex, legIndex, m.distance, before, acc.within,
                       LegTravelled(legDistance, m.fractionAlong), legDistance))
        else acc.closest;
      LegScan(acc.within + legDistance, closest)
  }

  /** The inner loop after its first `n` legs. */
  function ScanLegs(project: Projector, position: LatLng, segmentIndex: nat, legs: seq<LegView>,
                    n: nat, before: real, start: Option<Closest>): LegScan
    requires n <= |legs|
  {
    if n == 0 then LegScan(0.0, start)
    else VisitLeg(project, position, segmentIndex, n - 1, legs[n - 1], before,
                  ScanLegs(project, position, segmentIndex, legs, n - 1, before, start))
  }

  /** The outer loop after its first `n` segments. */
  function ScanSegments(project: Projector, position: LatLng, segments: seq<SegmentView>, n: nat): SegmentScan
    requires n <= |segments|
  {
    if n == 0 then SegmentScan(0.0, None)
    else
      var acc := ScanSegments(project, position, segments, n - 1);
      var segment := segments[n - 1];
      var inner := ScanLegs(project, position, n - 1, segment.legs, |segment.legs|, acc.before, acc.closest);
      SegmentScan(acc.before + segment.distanceMeters.GetOr(inner.within), inner.closest)
  }

  /**
   * The snapshot for the winning leg: travelled is the offset of the leg plus the distance
   * covered on it; remaining is what is left of the total, never negative; the ratio is the
   * travelled share of a positive total, clamped to [0, 1], and zero otherwise.
   */
  function Summarize(c: Closest, total: real): (s: Snapshot)
    ensures s.closestSegmentIndex == c.segmentIndex && s.closestLegIndex == c.legIndex
    ensures s.distanceToLegMeters == c.distanceToLegMeters
    ensures s.travelledMeters == c.cumulativeBeforeSegment + c.cumulativeWithinSegment + c.legTravelled
    ensures s.remainingMeters >= 0.0
    ensures s.travelledMeters <= total ==> s.travelledMeters + s.remainingMeters == total
    ensures s.travelledMeters >= total ==> s.remainingMeters == 0.0
    ensures 0.0 <= s.progressRatio <= 1.0
    ensures total <= 0.0 ==> s.progressRatio == 0.0
    ensures total > 0.0 && 0.0 <= s.travelledMeters <= total ==> s.progressRatio * total == s.travelledMeters
    ensures total > 0.0 && s.travelledMeters > total ==> s.progressRatio == 1.0
    ensures total > 0.0 && s.travelledMeters < 0.0 ==> s.progressRatio == 0.0
  {
    var travelled := c.cumulativeBeforeSegment + c.cumulativeWithinSegment + c.legTravelled;
    var remaining := if total - travelled > 0.0 then total - travelled else 0.0;
    var ratio := if total > 0.0 then Clamp(travelled / total, 0.0, 1.0) else 0.0;
    Snapshot(c.segmentIndex, c.legIndex, c.distanceToLegMeters, travelled, remaining, ratio)
  }

  /**
   * `calculateNavigationProgress` as a function: nothing without a plan, a position or any
   * segment, and nothing when no leg has usable coordinates.
   */
  function NavigationProgress(project: Projector, plan: Option<PlanView>, position: Option<LatLng>): (snap: Option<Snapshot>)
    ensures snap.Some? ==> plan.Some? && position.Some? && |plan.value.segments| > 0
    ensures snap.Some? ==> snap.value.remainingMeters >= 0.0 && 0.0 <= snap.value.progressRatio <= 1.0
  {
    if plan.None? || position.None? || |plan.value.segments| == 0 then None
    else
      var segments := plan.value.segments;
      var scan := ScanSegments(project, position.value, segments, |segments|);
      if scan.closest.None? then None
      else Some(Summarize(scan.closest.value, plan.value.totalDistanceMeters.GetOr(0.0)))
  }

  /**
   * `calculateNavigationProgress`: nested loops over the segments and their legs, keeping the
   * running offsets and the nearest leg so far. It computes exactly `NavigationProgress`,
   * whose properties are the lemmas below.
   */
  method CalculateNavigationProgress(project: Projector, plan: Option<PlanView>, position: Option<LatLng>)
    returns (progress: Option<Snapshot>)
    ensures progress == NavigationProgress(project, plan, position)
  {
    if plan.None? || position.None? || |plan.value.segments| == 0 {
      return None;
    }
    var segments := plan.value.segments;
    var point := position.value;
    var totalDistanceMeters := plan.value.totalDistanceMeters.GetOr(0.0);
    var cumulativeBeforeSegment := 0.0;
    var closest: Option<Closest> := None;
    var i: nat := 0;
    while i < |segments|
      invariant 0 <= i <= |segments|
      invariant ScanSegments(project, point, segments, i) == SegmentScan(cumulativeBeforeSegment, closest)
    {
      var legs := segments[i].legs;
      var cumulativeWithinSegment := 0.0;
      ghost var closestAtSegmentStart := closest;
      var j: nat := 0;
      while j < |legs|
        invariant 0 <= j <= |legs|
        invariant ScanLegs(project, point, i, legs, j, cumulativeBeforeSegment, closestAtSegmentStart)
                  == LegScan(cumulativeWithinSegment, closest)
      {
        var leg := legs[j];
        ghost var acc := LegScan(cumulativeWithinSegment, closest);
        var start := ParseLatLng(leg.originLocation);
        var end := ParseLatLng(leg.destinationLocation);
        if start.None? || end.None? {
          cumulativeWithinSegment := cumulativeWithinSegment + leg.distanceValue.GetOr(0.0);
        } else {
          var metrics := project(start.value, end.value, point);
          assert metrics == LegMetrics(project, point, leg);
          var legDistance := LegDistance(leg, metrics);
          if closest.None? || metrics.distance < closest.value.distanceToLegMeters {
            closest := Some(Closest(i, j, metrics.distance, cumulativeBeforeSegment, cumulativeWithinSegment,
                                    LegTravelled(legDistance, metrics.fractionAlong), legDistance));
          }
          cumulativeWithinSegment := cumulativeWithinSegment + legDistance;
        }
        assert LegScan(cumulativeWithinSegment, closest)
               == VisitLeg(project, point, i, j, leg, cumulativeBeforeSegment, acc);
        j := j + 1;
      }
      cumulativeBeforeSegment := cumulativeBeforeSegment + segments[i].distanceMeters.GetOr(cumulativeWithinSegment);
      i := i + 1;
    }
    if closest.None? {
      return None;
    }
    progress := Some(Summarize(closest.value, totalDistanceMeters));
  }

  // ---------------------------------------------------------------------------------------
  // Reference definitions: the offsets as sums, the nearest leg as a first minimum
  // ---------------------------------------------------------------------------------------

  /**
   * What a leg adds to the offsets: its chosen distance when it has coordinates, otherwise
   * its recorded distance or zero.
   */
  function LegContribution(project: Projector, position: LatLng, leg: LegView): real {
    if Parsable(leg) then LegDistance(leg, LegMetrics(project, position, leg))
    else leg.distanceValue.GetOr(0.0)
  }

  /** Sum of the contributions of the first `n` legs. */
  function WithinSum(project: Projector, position: LatLng, legs: seq<LegView>, n: nat): real
    requires n <= |legs|
  {
    if n == 0 then 0.0
    else WithinSum(project, position, legs, n - 1) + LegContribution(project, position, legs[n - 1])
  }

  /** What a segment adds to the offsets: its own total if present, else the sum over its legs. */
  function SegmentAdvance(project: Projector, position: LatLng, segment: SegmentView): real {
    segment.distanceMeters.GetOr(WithinSum(project, position, segment.legs, |segment.legs|))
  }

  /** Sum of the advances of the first `n` segments. */
  function BeforeSum(project: Projector, position: LatLng, segments: seq<SegmentView>, n: nat): real
    requires n <= |segments|
  {
    if n == 0 then 0.0
    else BeforeSum(project, position, segments, n - 1) + SegmentAdvance(project, position, segments[n - 1])
  }

  /** Leg `l` of segment `s` exists and has coordinates at both ends. */
  predicate IsCandidate(segments: seq<SegmentView>, s: int, l: int) {
    0 <= s < |segments| && 0 <= l < |segments[s].legs| && Parsable(segments[s].legs[l])
  }

  /** Iteration order: segment by segment, leg by leg. */
  predicate LexBefore(s1: int, l1: int, s2: int, l2: int) {
    s1 < s2 || (s1 == s2 && l1 < l2)
  }

  function DistanceToLeg(project: Projector, position: LatLng, segments: seq<SegmentView>, s: int, l: int): real
    requires IsCandidate(segments, s, l)
  {
    LegMetrics(project, position, segments[s].legs[l]).distance
  }

  /**
   * `c` records leg (`c.segmentIndex`, `c.legIndex`) faithfully: its distance, its chosen leg
   * distance, the clamped distance covered on it, and the offsets before it as sums.
   */
  ghost predicate Describes(project: Projector, position: LatLng, segments: seq<SegmentView>, c: Closest) {
    && IsCandidate(segments, c.segmentIndex, c.legIndex)
    && var leg := segments[c.segmentIndex].legs[c.legIndex];
    && var m := LegMetrics(project, position, leg);
    && c.distanceToLegMeters == m.distance
    && c.legDistance == LegDistance(leg, m)
    && c.legTravelled == LegTravelled(c.legDistance, m.fractionAlong)
    && c.cumulativeBeforeSegment == BeforeSum(project, position, segments, c.segmentIndex)
    && c.cumulativeWithinSegment == WithinSum(project, position, segments[c.segmentIndex].legs, c.legIndex)
  }

  /**
   * Among the candidates strictly before position (`s`, `l`), `closest` is the first one at
   * minimal distance, and is absent exactly when there is no such candidate.
   */
  ghost predicate FirstNearestBefore(project: Projector, position: LatLng, segments: seq<SegmentView>,
                                     closest: Option<Closest>, s: int, l: int)
  {
    && (closest.None? <==> forall s', l' :: IsCandidate(segments, s', l') ==> !LexBefore(s', l', s, l))
    && (closest.Some? ==>
          var c := closest.value;
          && Describes(project, position, segments, c)
          && LexBefore(c.segmentIndex, c.legIndex, s, l)
          && (forall s', l' :: IsCandidate(segments, s', l') && LexBefore(s', l', s, l) ==>
                c.distanceToLegMeters <= DistanceToLeg(project, position, segments, s', l'))
          && (forall s', l' :: IsCandidate(segments, s', l') && LexBefore(s', l', c.segmentIndex, c.legIndex) ==>
                c.distanceToLegMeters < DistanceToLeg(project, position, segments, s', l')))
  }

  // ---------------------------------------------------------------------------------------
  // The fold meets the reference definitions
  // ---------------------------------------------------------------------------------------

  /**
   * Scanning the first `n` legs of segment `s` extends the first-nearest search to them, and
   * the within-segment offset is the sum of their contributions.
   */
  lemma {:induction false} ScanLegsFindsFirstNearest(project: Projector, position: LatLng, segments: seq<SegmentView>,
                                                     s: nat, n: nat, start: Option<Closest>)
    requires s < |segments| && n <= |segments[s].legs|
    requires FirstNearestBefore(project, position, segments, start, s, 0)
    ensures var scan := ScanLegs(project, position, s, segments[s].legs, n, BeforeSum(project, position, segments, s), start);
            && scan.within == WithinSum(project, position, segments[s].legs, n)
            && FirstNearestBefore(project, position, segments, scan.closest, s, n)
  {
    if n > 0 {
      ScanLegsFindsFirstNearest(project, position, segments, s, n - 1, start);
      var legs := segments[s].legs;
      var before := BeforeSum(project, position, segments, s);
      VisitLegStep(project, position, segments, s, n, ScanLegs(project, position, s, legs, n - 1, before, start));
    }
  }

  /** Visiting leg `n - 1` of segment `s` extends the search and the offset by that leg. */
  lemma VisitLegStep(project: Projector, position: LatLng, segments: seq<SegmentView>, s: nat, n: nat, acc: LegScan)
    requires s < |segments| && 0 < n <= |segments[s].legs|
    requires acc.within == WithinSum(project, position, segments[s].legs, n - 1)
    requires FirstNearestBefore(project, position, segments, acc.closest, s, n - 1)
    ensures var scan := VisitLeg(project, position, s, n - 1, segments[s].legs[n - 1],
                                 BeforeSum(project, position, segments, s), acc);
            && scan.within == WithinSum(project, position, segments[s].legs, n)
            && FirstNearestBefore(project, position, segments, scan.closest, s, n)
  {
    var leg := segments[s].legs[n - 1];
    if !Parsable(leg) {
      assert !IsCandidate(segments, s, n - 1);
      FirstNearestUnchanged(project, position, segments, acc.closest, s, n - 1);
    } else {
      var m := LegMetrics(project, position, leg);
      if acc.closest.None? || m.distance < acc.closest.value.distanceToLegMeters {
        NewNearest(project, position, segments, s, n, acc);
      } else {
        KeptNearest(project, position, segments, s, n, acc.closest.value);
      }
    }
  }

  /** A candidate strictly nearer than everything before it becomes the first nearest. */
  lemma NewNearest(project: Projector, position: LatLng, segments: seq<SegmentView>, s: nat, n: nat, acc: LegScan)
    requires s < |segments| && 0 < n <= |segments[s].legs| && Parsable(segments[s].legs[n - 1])
    requires acc.within == WithinSum(project, position, segments[s].legs, n - 1)
    requires FirstNearestBefore(project, position, segments, acc.closest, s, n - 1)
    requires acc.closest.None?
             || LegMetrics(project, position, segments[s].legs[n - 1]).distance < acc.closest.value.distanceToLegMeters
    ensures var leg := segments[s].legs[n - 1];
            var m := LegMetrics(project, position, leg);
            var c := Closest(s, n - 1, m.distance, BeforeSum(project, position, segments, s), acc.within,
                             LegTravelled(LegDistance(leg, m), m.fractionAlong), LegDistance(leg, m));
            FirstNearestBefore(project, position, segments, Some(c), s, n)
  {
    var leg := segments[s].legs[n - 1];
    var m := LegMetrics(project, position, leg);
    var c := Closest(s, n - 1, m.distance, BeforeSum(project, position, segments, s), acc.within,
                     LegTravelled(LegDistance(leg, m), m.fractionAlong), LegDistance(leg, m));
    assert IsCandidate(segments, s, n - 1);
    assert Describes(project, position, segments, c);
    forall s', l' | IsCandidate(segments, s', l') && LexBefore(s', l', s, n)
      ensures c.distanceToLegMeters <= DistanceToLeg(project, position, segments, s', l')
    {
      if LexBefore(s', l', s, n - 1) {
        assert acc.closest.Some?;
      }
    }
  }

  /** A candidate no nearer than the nearest so far leaves the nearest in place. */
  lemma KeptNearest(project: Projector, position: LatLng, segments: seq<SegmentView>, s: nat, n: nat, c: Closest)
    requires s < |segments| && 0 < n <= |segments[s].legs| && Parsable(segments[s].legs[n - 1])
    requires FirstNearestBefore(project, position, segments, Some(c), s, n - 1)
    requires c.distanceToLegMeters <= LegMetrics(project, position, segments[s].legs[n - 1]).distance
    ensures FirstNearestBefore(project, position, segments, Some(c), s, n)
  {
    forall s', l' | IsCandidate(segments, s', l') && LexBefore(s', l', s, n)
      ensures c.distanceToLegMeters <= DistanceToLeg(project, position, segments, s', l')
    {
      if !LexBefore(s', l', s, n - 1) {
        assert s' == s && l' == n - 1;
      }
    }
  }

  /** Moving the boundary past a leg that is no candidate leaves the search result unchanged. */
  lemma FirstNearestUnchanged(project: Projector, position: LatLng, segments: seq<SegmentView>,
                              closest: Option<Closest>, s: int, l: int)
    requires !IsCandidate(segments, s, l)
    requires FirstNearestBefore(project, position, segments, closest, s, l)
    ensures FirstNearestBefore(project, position, segments, closest, s, l + 1)
  {
    forall s', l' | IsCandidate(segments, s', l')
      ensures LexBefore(s', l', s, l + 1) <==> LexBefore(s', l', s, l)
    {
    }
  }

  /**
   * Past the last leg of segment `s`, "before (s, |legs|)" and "before (s + 1, 0)" select the
   * same candidates.
   */
  lemma FirstNearestNextSegment(project: Projector, position: LatLng, segments: seq<SegmentView>,
                                closest: Option<Closest>, s: nat)
    requires s < |segments|
    requires FirstNearestBefore(project, position, segments, closest, s, |segments[s].legs|)
    ensures FirstNearestBefore(project, position, segments, closest, s + 1, 0)
  {
    forall s', l' | IsCandidate(segments, s', l')
      ensures LexBefore(s', l', s, |segments[s].legs|) <==> LexBefore(s', l', s + 1, 0)
    {
    }
  }

  /**
   * Scanning the first `n` segments finds the first nearest candidate among them, and the
   * offset before segment `n` is the sum of the advances of the segments before it.
   */
  lemma {:induction false} ScanSegmentsFindsFirstNearest(project: Projector, position: LatLng,
                                                         segments: seq<SegmentView>, n: nat)
    requires n <= |segments|
    ensures var scan := ScanSegments(project, position, segments, n);
            && scan.before == BeforeSum(project, position, segments, n)
            && FirstNearestBefore(project, position, segments, scan.closest, n, 0)
  {
    if n > 0 {
      ScanSegmentsFindsFirstNearest(project, position, segments, n - 1);
      var acc := ScanSegments(project, position, segments, n - 1);
      var legs := segments[n - 1].legs;
      ScanLegsFindsFirstNearest(project, position, segments, n - 1, |legs|, acc.closest);
      var inner := ScanLegs(project, position, n - 1, legs, |legs|, acc.before, acc.closest);
      FirstNearestNextSegment(project, position, segments, inner.closest, n - 1);
      assert ScanSegments(project, position, segments, n)
             == SegmentScan(acc.before + segments[n - 1].distanceMeters.GetOr(inner.within), inner.closest);
    }
  }

  // ---------------------------------------------------------------------------------------
  // Properties of the engine
  // ---------------------------------------------------------------------------------------

  /**
   * There is a snapshot exactly when a plan, a position and at least one segment are present
   * and some leg has coordinates at both ends; legs without coordinates never win.
   */
  lemma ProgressPresence(project: Projector, plan: Option<PlanView>, position: Option<LatLng>)
    ensures NavigationProgress(project, plan, position).Some? <==>
              && plan.Some? && position.Some? && |plan.value.segments| > 0
              && exists s, l :: IsCandidate(plan.value.segments, s, l)
  {
    if plan.Some? && position.Some? && |plan.value.segments| > 0 {
      var segments := plan.value.segments;
      ScanSegmentsFindsFirstNearest(project, position.value, segments, |segments|);
      var scan := ScanSegments(project, position.value, segments, |segments|);
      if scan.closest.None? {
        forall s, l | IsCandidate(segments, s, l) ensures false {
          assert LexBefore(s, l, |segments|, 0);
        }
      } else {
        var c := scan.closest.value;
        assert IsCandidate(segments, c.segmentIndex, c.legIndex);
      }
    }
  }

  /**
   * The snapshot names the first leg, in segment-then-leg order, at minimal distance from the
   * position: no candidate is nearer, and every earlier candidate is strictly farther (ties
   * go to the earliest leg).
   */
  lemma ProgressPicksFirstNearestLeg(project: Projector, plan: PlanView, position: LatLng)
    requires NavigationProgress(project, Some(plan), Some(position)).Some?
    ensures var snap := NavigationProgress(project, Some(plan), Some(position)).value;
            var segments := plan.segments;
            && IsCandidate(segments, snap.closestSegmentIndex, snap.closestLegIndex)
            && snap.distanceToLegMeters == DistanceToLeg(project, position, segments, snap.closestSegmentIndex, snap.closestLegIndex)
            && (forall s, l :: IsCandidate(segments, s, l) ==>
                  snap.distanceToLegMeters <= DistanceToLeg(project, position, segments, s, l))
            && (forall s, l :: IsCandidate(segments, s, l) && LexBefore(s, l, snap.closestSegmentIndex, snap.closestLegIndex) ==>
                  snap.distanceToLegMeters < DistanceToLeg(project, position, segments, s, l))
  {
    var segments := plan.segments;
    ScanSegmentsFindsFirstNearest(project, position, segments, |segments|);
    var c := ScanSegments(project, position, segments, |segments|).closest.value;
    forall s, l | IsCandidate(segments, s, l)
      ensures c.distanceToLegMeters <= DistanceToLeg(project, position, segments, s, l)
    {
      assert LexBefore(s, l, |segments|, 0);
    }
  }

  /**
   * Travelled distance is the advance of every segment before the winning one, plus the
   * contribution of every leg before the winning leg in its segment (legs without coordinates
   * included), plus the distance covered on the winning leg: its chosen distance times the
   * projection fraction, clamped to [0, chosen distance].
   */
  lemma ProgressTravelledIsOffsetSum(project: Projector, plan: PlanView, position: LatLng)
    requires NavigationProgress(project, Some(plan), Some(position)).Some?
    ensures var snap := NavigationProgress(project, Some(plan), Some(position)).value;
            var s, l := snap.closestSegmentIndex, snap.closestLegIndex;
            && IsCandidate(plan.segments, s, l)
            && var leg := plan.segments[s].legs[l];
            && var m := LegMetrics(project, position, leg);
            && var legDistance := LegDistance(leg, m);
            && snap.travelledMeters == BeforeSum(project, position, plan.segments, s)
                                       + WithinSum(project, position, plan.segments[s].legs, l)
                                       + LegTravelled(legDistance, m.fractionAlong)
  {
    ScanSegmentsFindsFirstNearest(project, position, plan.segments, |plan.segments|);
  }

  /**
   * Remaining distance is the total minus travelled, floored at zero; the ratio lies in
   * [0, 1], is zero when the total is not positive, and is travelled / total whenever that
   * already lies in [0, 1]. The total is the plan's `totalDistanceMeters`, zero when missing.
   */
  lemma ProgressBounds(project: Projector, plan: PlanView, position: LatLng)
    requires NavigationProgress(project, Some(plan), Some(position)).Some?
    ensures var snap := NavigationProgress(project, Some(plan), Some(position)).value;
            var total := plan.totalDistanceMeters.GetOr(0.0);
            && snap.remainingMeters >= 0.0
            && snap.remainingMeters == (if total - snap.travelledMeters > 0.0 then total - snap.travelledMeters else 0.0)
            && 0.0 <= snap.progressRatio <= 1.0
            && (total <= 0.0 ==> snap.progressRatio == 0.0)
            && (total > 0.0 && 0.0 <= snap.travelledMeters <= total ==> snap.progressRatio * total == snap.travelledMeters)
            && (total > 0.0 && snap.travelledMeters > total ==> snap.progressRatio == 1.0)
            && (total > 0.0 && snap.travelledMeters < 0.0 ==> snap.progressRatio == 0.0)
  {
  }
}
