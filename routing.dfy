/**
 * The route normaliser: turns the directions results returned for each pair of consecutive
 * stops into one route plan with per-segment and whole-trip totals, display texts and a flat
 * list of normalised legs.
 */
module Routing {

  import opened Wrappers
  import opened Text
  import opened Places
  import Palette

  // ---------------------------------------------------------------------------------------
  // Directions data as the service returns it (only the fields the normaliser reads)
  // ---------------------------------------------------------------------------------------

  /** A `{ text, value }` pair such as a leg's duration or distance; either part may be missing. */
  datatype TextValue = TextValue(text: Option<string>, value: Option<int>)

  datatype TransitLine = TransitLine(shortName: Option<string>, name: Option<string>)

  /**
   * The transit part of a step. Stops and times are reduced to the `name` and `text` the
   * normaliser reads; `numStops` is present only when the service gave a number.
   */
  datatype TransitDetails = TransitDetails(
    line: Option<TransitLine>,
    departureStop: Option<string>,
    arrivalStop: Option<string>,
    numStops: Option<int>,
    departureTime: Option<string>,
    arrivalTime: Option<string>)

  datatype Step = Step(travelMode: Option<string>, transit: Option<TransitDetails>, instructions: Option<string>)

  /** A leg; a missing `steps` list is the empty sequence. */
  datatype Leg = Leg(
    startAddress: Option<string>,
    endAddress: Option<string>,
    startLocation: RawLocation,
    endLocation: RawLocation,
    duration: Option<TextValue>,
    distance: Option<TextValue>,
    steps: seq<Step>)

  /** A route; a missing `legs` list is the empty sequence. */
  datatype Route = Route(legs: seq<Leg>, arrivalTime: Option<string>)

  datatype DirectionsResult = DirectionsResult(routes: seq<Route>)

  /** What the planner hands over: nothing, one result, or an array whose entries may be `null`. */
  datatype DirectionsInput =
    | NoResults
    | SingleResult(result: DirectionsResult)
    | ResultList(results: seq<Option<DirectionsResult>>)

  /** The two measured fields of a leg, used as the `key` of the text and sum helpers. */
  datatype Measure = Duration | Distance

  function Field(leg: Leg, key: Measure): Option<TextValue> {
    match key
    case Duration => leg.duration
    case Distance => leg.distance
  }

  /** `leg[key]?.value || 0` (and equally `?? 0`, since a missing and a zero value both give 0). */
  function ValueOf(leg: Leg, key: Measure): int {
    var f := Field(leg, key);
    if f.Some? && f.value.value.Some? then f.value.value.value else 0
  }

  /** `leg[key]?.text`. */
  function TextOf(leg: Leg, key: Measure): Option<string> {
    var f := Field(leg, key);
    if f.Some? then f.value.text else None
  }

  // ---------------------------------------------------------------------------------------
  // The normalised plan
  // ---------------------------------------------------------------------------------------

  datatype NormalizedLeg = NormalizedLeg(
    origin: Option<string>,
    destination: Option<string>,
    originLocation: RawLocation,
    destinationLocation: RawLocation,
    durationText: string,
    durationValue: int,
    distanceText: string,
    distanceValue: int,
    modeLabel: Option<string>,
    details: Option<string>)

  /** One segment of the trip: the route between two consecutive stops. */
  datatype Segment = Segment(
    color: string,
    fromLabel: string,
    toLabel: string,
    durationText: string,
    distanceText: string,
    distanceMeters: int,
    durationSeconds: int,
    legs: seq<NormalizedLeg>)

  datatype RoutePlan = RoutePlan(
    totalDurationSeconds: int,
    totalDistanceMeters: int,
    totalDurationText: string,
    totalDistanceText: string,
    arrivalTimeText: Option<string>,
    segments: seq<Segment>,
    legs: seq<NormalizedLeg>)

  // ---------------------------------------------------------------------------------------
  // Selecting routes
  // ---------------------------------------------------------------------------------------

  /** `result?.routes?.[0]`: the first route of a result, if there is one. */
  function FirstRoute(result: Option<DirectionsResult>): Option<Route> {
    if result.Some? && |result.value.routes| > 0 then Some(result.value.routes[0]) else None
  }

  /** What one result contributes to the selected routes: its first route, if any. */
  function Picked(result: Option<DirectionsResult>): (routes: seq<Route>)
    ensures FirstRoute(result).None? ==> routes == []
    ensures FirstRoute(result).Some? ==> routes == [FirstRoute(result).value]
  {
    if FirstRoute(result).Some? then [FirstRoute(result).value] else []
  }

  /** The first routes of the results, in order, skipping results without one. */
  function FirstRoutes(results: seq<Option<DirectionsResult>>): (routes: seq<Route>)
    ensures |routes| <= |results|
  {
    if |results| == 0 then [] else Picked(results[0]) + FirstRoutes(results[1..])
  }

  /** `normalizeRoutes`: a single result is treated as a one-element array. */
  function NormalizeRoutes(input: DirectionsInput): (routes: seq<Route>)
    ensures input.NoResults? ==> routes == []
    ensures input.SingleResult? ==> routes == FirstRoutes([Some(input.result)])
    ensures input.ResultList? ==> routes == FirstRoutes(input.results)
  {
    match input
    case NoResults => []
    case SingleResult(r) => FirstRoutes([Some(r)])
    case ResultList(rs) => FirstRoutes(rs)
  }

  /** Selecting first routes distributes over concatenation: the order of the results is kept. */
  lemma {:induction false} FirstRoutesAppend(a: seq<Option<DirectionsResult>>, b: seq<Option<DirectionsResult>>)
    ensures FirstRoutes(a + b) == FirstRoutes(a) + FirstRoutes(b)
  {
    if |a| == 0 {
      assert a + b == b;
    } else {
      assert (a + b)[0] == a[0];
      assert (a + b)[1..] == a[1..] + b;
      FirstRoutesAppend(a[1..], b);
      calc {
        FirstRoutes(a + b);
        Picked(a[0]) + FirstRoutes(a[1..] + b);
        Picked(a[0]) + (FirstRoutes(a[1..]) + FirstRoutes(b));
        (Picked(a[0]) + FirstRoutes(a[1..])) + FirstRoutes(b);
      }
    }
  }

  /** A route is selected exactly when it is the first route of one of the results. */
  lemma {:induction false} FirstRoutesMembers(results: seq<Option<DirectionsResult>>, route: Route)
    ensures route in FirstRoutes(results) <==> exists k :: 0 <= k < |results| && FirstRoute(results[k]) == Some(route)
  {
    if |results| > 0 {
      FirstRoutesMembers(results[1..], route);
      if exists k :: 0 <= k < |results| && FirstRoute(results[k]) == Some(route) {
        var k :| 0 <= k < |results| && FirstRoute(results[k]) == Some(route);
        if k > 0 {
          assert results[1..][k - 1] == results[k];
        }
      }
      if exists k :: 0 <= k < |results[1..]| && FirstRoute(results[1..][k]) == Some(route) {
        var k :| 0 <= k < |results[1..]| && FirstRoute(results[1..][k]) == Some(route);
        assert results[k + 1] == results[1..][k];
      }
    }
  }

  /** A result without routes contributes nothing; one with routes contributes its first route. */
  lemma FirstRoutesSingle(result: Option<DirectionsResult>)
    ensures FirstRoutes([result]) == if FirstRoute(result).Some? then [FirstRoute(result).value] else []
  {
    assert [result][1..] == [];
  }

  // ---------------------------------------------------------------------------------------
  // Legs, sums and texts
  // ---------------------------------------------------------------------------------------

  /** `routes.flatMap(route => route.legs || [])`. */
  function AllLegs(routes: seq<Route>): seq<Leg> {
    if |routes| == 0 then [] else routes[0].legs + AllLegs(routes[1..])
  }

  /** There are no legs at all exactly when every route has no legs. */
  lemma {:induction false} AllLegsEmpty(routes: seq<Route>)
    ensures AllLegs(routes) == [] <==> forall k :: 0 <= k < |routes| ==> routes[k].legs == []
  {
    if |routes| > 0 {
      AllLegsEmpty(routes[1..]);
      if AllLegs(routes) == [] {
        forall k | 0 <= k < |routes| ensures routes[k].legs == [] {
          if k > 0 {
            assert routes[k] == routes[1..][k - 1];
          }
        }
      }
      if forall k :: 0 <= k < |routes| ==> routes[k].legs == [] {
        assert forall k :: 0 <= k < |routes[1..]| ==> routes[1..][k] == routes[k + 1];
      }
    }
  }

  /** The sum of `leg[key].value || 0` over the legs, as the source's `reduce` computes it. */
  function SumValues(legs: seq<Leg>, key: Measure): (total: int)
    ensures (forall k :: 0 <= k < |legs| ==> ValueOf(legs[k], key) >= 0) ==> total >= 0
  {
    if |legs| == 0 then 0 else ValueOf(legs[0], key) + SumValues(legs[1..], key)
  }

  lemma {:induction false} SumValuesAppend(a: seq<Leg>, b: seq<Leg>, key: Measure)
    ensures SumValues(a + b, key) == SumValues(a, key) + SumValues(b, key)
  {
    if |a| == 0 {
      assert a + b == b;
    } else {
      assert (a + b)[0] == a[0];
      assert (a + b)[1..] == a[1..] + b;
      SumValuesAppend(a[1..], b, key);
    }
  }

  /** The truthy `leg[key]?.text` values, in leg order. */
  function LegTexts(legs: seq<Leg>, key: Measure): (texts: seq<string>)
    ensures |texts| <= |legs|
    ensures forall k :: 0 <= k < |texts| ==> texts[k] != ""
  {
    if |legs| == 0 then []
    else
      (if Truthy(TextOf(legs[0], key)) then [TextOf(legs[0], key).value] else [])
      + LegTexts(legs[1..], key)
  }

  lemma {:induction false} LegTextsAppend(a: seq<Leg>, b: seq<Leg>, key: Measure)
    ensures LegTexts(a + b, key) == LegTexts(a, key) + LegTexts(b, key)
  {
    if |a| == 0 {
      assert a + b == b;
    } else {
      assert (a + b)[0] == a[0];
      assert (a + b)[1..] == a[1..] + b;
      LegTextsAppend(a[1..], b, key);
    }
  }

  /**
   * `combineLegText`: "--" when no leg has a text, the text itself when one has, and all
   * texts joined with " + " otherwise. The result is never empty.
   */
  function CombineLegText(legs: seq<Leg>, key: Measure): (text: string)
    ensures text != ""
    ensures LegTexts(legs, key) == [] ==> text == "--"
    ensures |LegTexts(legs, key)| == 1 ==> text == LegTexts(legs, key)[0]
    ensures |LegTexts(legs, key)| >= 1 ==> text == Join(LegTexts(legs, key), " + ")
  {
    var parts := LegTexts(legs, key);
    if |parts| == 0 then "--"
    else if |parts| == 1 then parts[0]
    else Join(parts, " + ")
  }

  /** Combining the texts of two runs of legs that both have texts joins the two combinations. */
  lemma CombineLegTextAppend(a: seq<Leg>, b: seq<Leg>, key: Measure)
    requires LegTexts(a, key) != [] && LegTexts(b, key) != []
    ensures CombineLegText(a + b, key) == CombineLegText(a, key) + " + " + CombineLegText(b, key)
  {
    LegTextsAppend(a, b, key);
    JoinAppend(LegTexts(a, key), LegTexts(b, key), " + ");
  }

  // ---------------------------------------------------------------------------------------
  // Steps
  // ---------------------------------------------------------------------------------------

  predicate IsWalking(step: Step) {
    step.travelMode == Some("WALKING")
  }

  /** `steps.find(step => step.travel_mode !== "WALKING")`. */
  function FindNonWalking(steps: seq<Step>): (found: Option<Step>)
    ensures found.Some? ==> found.value in steps && !IsWalking(found.value)
    ensures found.None? <==> forall k :: 0 <= k < |steps| ==> IsWalking(steps[k])
  {
    if |steps| == 0 then None
    else if !IsWalking(steps[0]) then Some(steps[0])
    else FindNonWalking(steps[1..])
  }

  /** The step that describes a leg: the first non-walking step, else the first step. */
  function PrimaryStep(steps: seq<Step>): (primary: Option<Step>)
    ensures primary.None? <==> steps == []
  {
    var found := FindNonWalking(steps);
    if found.Some? then found else if |steps| > 0 then Some(steps[0]) else None
  }

  lemma {:induction false} FindNonWalkingAt(steps: seq<Step>, k: nat)
    requires k < |steps| && !IsWalking(steps[k])
    requires forall j :: 0 <= j < k ==> IsWalking(steps[j])
    ensures FindNonWalking(steps) == Some(steps[k])
  {
    if k > 0 {
      assert IsWalking(steps[0]);
      FindNonWalkingAt(steps[1..], k - 1);
    }
  }

  lemma {:induction false} FindNonWalkingNone(steps: seq<Step>)
    requires forall j :: 0 <= j < |steps| ==> IsWalking(steps[j])
    ensures FindNonWalking(steps) == None
  {
    if |steps| > 0 {
      FindNonWalkingNone(steps[1..]);
    }
  }

  /** When step `k` is the first that is not walking, it is the primary step. */
  lemma PrimaryStepIsFirstNonWalking(steps: seq<Step>, k: nat)
    requires k < |steps| && !IsWalking(steps[k])
    requires forall j :: 0 <= j < k ==> IsWalking(steps[j])
    ensures PrimaryStep(steps) == Some(steps[k])
  {
    FindNonWalkingAt(steps, k);
  }

  /** When every step is walking, the first step is the primary step. */
  lemma PrimaryStepAllWalking(steps: seq<Step>)
    requires |steps| > 0
    requires forall j :: 0 <= j < |steps| ==> IsWalking(steps[j])
    ensures PrimaryStep(steps) == Some(steps[0])
  {
    FindNonWalkingNone(steps);
  }

  /** The line of a step's transit details, when both are present. */
  function LineOf(step: Step): Option<TransitLine> {
    if step.transit.Some? then step.transit.value.line else None
  }

  /**
   * `describeStep`: the mode label. The label of a line with a short name is that short name
   * followed by the line name in parentheses, and a missing line name is rendered as the text
   * "undefined", as a template literal does. The label is missing exactly when the step has a
   * line with neither a short name nor a name.
   */
  function DescribeStep(step: Option<Step>): (modeLabel: Option<string>)
    ensures step.None? ==> modeLabel == Some("정보 없음")
    ensures step.Some? && IsWalking(step.value) ==> modeLabel == Some("도보")
    ensures modeLabel.None? <==>
              step.Some? && !IsWalking(step.value) && LineOf(step.value).Some?
              && !Truthy(LineOf(step.value).value.shortName) && LineOf(step.value).value.name.None?
    ensures step.Some? && !IsWalking(step.value) && LineOf(step.value).Some?
            && Truthy(LineOf(step.value).value.shortName) ==>
              modeLabel.Some? && StartsWith(modeLabel.value, LineOf(step.value).value.shortName.value)
              && modeLabel == Some(LineOf(step.value).value.shortName.value + " ("
                                   + LineOf(step.value).value.name.GetOr("undefined") + ")")
    ensures step.Some? && !IsWalking(step.value) && LineOf(step.value).Some?
            && !Truthy(LineOf(step.value).value.shortName) ==>
              modeLabel == LineOf(step.value).value.name
    ensures step.Some? && !IsWalking(step.value) && LineOf(step.value).None? ==>
              modeLabel == Some(step.value.travelMode.GetOr("이동"))
  {
    if step.None? then Some("정보 없음")
    else if IsWalking(step.value) then Some("도보")
    else if LineOf(step.value).Some? then
      var line := LineOf(step.value).value;
      if Truthy(line.shortName) then
        Some(line.shortName.value + " (" + line.name.GetOr("undefined") + ")")
      else line.name
    else Some(step.value.travelMode.GetOr("이동"))
  }

  /** The non-empty detail clauses of a transit step: stop pair, stop count, times. */
  function TransitClauses(t: TransitDetails): (clauses: seq<string>)
    ensures |clauses| <= 3
    ensures forall k :: 0 <= k < |clauses| ==> clauses[k] != ""
  {
    (if Truthy(t.departureStop) && Truthy(t.arrivalStop)
     then [t.departureStop.value + " → " + t.arrivalStop.value] else [])
    + (if t.numStops.Some? then [IntToString(t.numStops.value) + " 정거장"] else [])
    + (if Truthy(t.departureTime) && Truthy(t.arrivalTime)
       then [t.departureTime.value + " 출발 · " + t.arrivalTime.value + " 도착"] else [])
  }

  /**
   * `summarizeTransitDetails`: a walking or non-transit step gives its instructions; a transit
   * step gives its clauses joined with " / ", which is empty exactly when no clause applies.
   */
  function SummarizeTransitDetails(step: Option<Step>): (details: Option<string>)
    ensures step.None? ==> details.None?
    ensures step.Some? && (IsWalking(step.value) || step.value.transit.None?) ==>
              details == step.value.instructions
    ensures step.Some? && !IsWalking(step.value) && step.value.transit.Some? ==>
              details == Some(Join(TransitClauses(step.value.transit.value), " / "))
              && (details.value == "" <==> TransitClauses(step.value.transit.value) == [])
  {
    if step.None? || IsWalking(step.value) then
      if step.Some? then step.value.instructions else None
    else if step.value.transit.Some? then
      var clauses := TransitClauses(step.value.transit.value);
      assert |clauses| >= 1 ==> |Join(clauses, " / ")| >= |clauses[0]|;
      Some(Join(clauses, " / "))
    else step.value.instructions
  }

  /** A transit step with both stops, a stop count and both times lists all three, in order. */
  lemma TransitDetailsAllClauses(step: Step)
    requires !IsWalking(step) && step.transit.Some?
    requires Truthy(step.transit.value.departureStop) && Truthy(step.transit.value.arrivalStop)
    requires step.transit.value.numStops.Some?
    requires Truthy(step.transit.value.departureTime) && Truthy(step.transit.value.arrivalTime)
    ensures SummarizeTransitDetails(Some(step)) == Some(
              (step.transit.value.departureStop.value + " → " + step.transit.value.arrivalStop.value)
              + " / " + (IntToString(step.transit.value.numStops.value) + " 정거장")
              + " / " + (step.transit.value.departureTime.value + " 출발 · "
                         + step.transit.value.arrivalTime.value + " 도착"))
  {
    var t := step.transit.value;
    var pair := t.departureStop.value + " → " + t.arrivalStop.value;
    var count := IntToString(t.numStops.value) + " 정거장";
    var times := t.departureTime.value + " 출발 · " + t.arrivalTime.value + " 도착";
    var clauses := TransitClauses(t);
    assert clauses == [pair, count, times];
    assert clauses[1..][1..] == [times];
    assert Join(clauses[1..], " / ") == count + " / " + times;
    assert Join(clauses, " / ") == pair + " / " + (count + " / " + times);
    assert pair + " / " + (count + " / " + times) == pair + " / " + count + " / " + times;
  }

  /** A transit step with only its two times lists just the time clause, with no separator. */
  lemma TransitDetailsTimesOnly(step: Step)
    requires !IsWalking(step) && step.transit.Some?
    requires !Truthy(step.transit.value.departureStop) && step.transit.value.numStops.None?
    requires Truthy(step.transit.value.departureTime) && Truthy(step.transit.value.arrivalTime)
    ensures SummarizeTransitDetails(Some(step)) == Some(
              step.transit.value.departureTime.value + " 출발 · "
              + step.transit.value.arrivalTime.value + " 도착")
  {
    assert |TransitClauses(step.transit.value)| == 1;
  }

  /** `normalizeLeg`: the leg's fields with defaults, and its primary step described. */
  function NormalizeLeg(leg: Leg): (n: NormalizedLeg)
    ensures n.durationValue == ValueOf(leg, Duration) && n.distanceValue == ValueOf(leg, Distance)
    ensures n.durationText == TextOf(leg, Duration).GetOr("--")
    ensures n.distanceText == TextOf(leg, Distance).GetOr("--")
    ensures n.durationText != "" || TextOf(leg, Duration) == Some("")
    ensures n.distanceText != "" || TextOf(leg, Distance) == Some("")
    ensures n.origin == leg.startAddress && n.destination == leg.endAddress
    ensures n.originLocation == leg.startLocation && n.destinationLocation == leg.endLocation
    ensures n.modeLabel == DescribeStep(PrimaryStep(leg.steps))
    ensures n.details == SummarizeTransitDetails(PrimaryStep(leg.steps))
  {
    var primary := PrimaryStep(leg.steps);
    NormalizedLeg(
      leg.startAddress,
      leg.endAddress,
      leg.startLocation,
      leg.endLocation,
      TextOf(leg, Duration).GetOr("--"),
      if leg.duration.Some? then leg.duration.value.value.GetOr(0) else 0,
      TextOf(leg, Distance).GetOr("--"),
      if leg.distance.Some? then leg.distance.value.value.GetOr(0) else 0,
      DescribeStep(primary),
      SummarizeTransitDetails(primary))
  }

  function NormalizeLegs(legs: seq<Leg>): (normalized: seq<NormalizedLeg>)
    ensures |normalized| == |legs|
    ensures forall k :: 0 <= k < |legs| ==> normalized[k] == NormalizeLeg(legs[k])
  {
    seq(|legs|, k requires 0 <= k < |legs| => NormalizeLeg(legs[k]))
  }

  // ---------------------------------------------------------------------------------------
  // Segments and the plan
  // ---------------------------------------------------------------------------------------

  /** `labelForStop`: the stop's label, else its address, else the fallback. */
  function LabelForStop(stop: Option<Stop>, fallback: string): (text: string)
    ensures stop.None? ==> text == fallback
    ensures stop.Some? && stop.value.labelText.Some? ==> text == stop.value.labelText.value
    ensures stop.Some? && stop.value.labelText.None? && stop.value.address.Some? ==>
              text == stop.value.address.value
    ensures stop.Some? && stop.value.labelText.None? && stop.value.address.None? ==> text == fallback
  {
    if stop.None? then fallback
    else if stop.value.labelText.Some? then stop.value.labelText.value
    else stop.value.address.GetOr(fallback)
  }

  /** `stops[index]`, which is `undefined` past the end. */
  function StopAt(stops: seq<Stop>, index: nat): Option<Stop> {
    if index < |stops| then Some(stops[index]) else None
  }

  /** The start label used when the stop has no label: the origin, or the waypoint's number. */
  function FromFallback(index: nat): string {
    if index == 0 then "출발지" else "경유 " + NatToString(index)
  }

  /** The end label used when the stop has no label: the destination, or the next waypoint. */
  function ToFallback(index: nat, stopCount: nat): string {
    if index == stopCount - 2 then "도착지" else "경유 " + NatToString(index + 1)
  }

  /** `colors[index] ?? routeColorAt(index)`. */
  function ColorFor(colors: seq<string>, index: nat): (color: string)
    ensures index < |colors| ==> color == colors[index]
    ensures index >= |colors| ==> color in Palette.RouteColors && color == Palette.RouteColorAt(index)
  {
    if index < |colors| then colors[index] else Palette.RouteColorAt(index)
  }

  /** The summary of the `index`-th route: from stop `index` to stop `index + 1`. */
  function SummarizeSegment(route: Route, index: nat, stops: seq<Stop>, colors: seq<string>): (segment: Segment)
    ensures |segment.legs| == |route.legs|
    ensures forall k :: 0 <= k < |route.legs| ==> segment.legs[k] == NormalizeLeg(route.legs[k])
    ensures segment.durationText != "" && segment.distanceText != ""
    ensures segment.color == ColorFor(colors, index)
    ensures index >= |colors| ==> segment.color in Palette.RouteColors
    ensures segment.fromLabel == LabelForStop(StopAt(stops, index), FromFallback(index))
    ensures segment.toLabel == LabelForStop(StopAt(stops, index + 1), ToFallback(index, |stops|))
    ensures index >= |stops| ==> segment.fromLabel == FromFallback(index)
    ensures index + 1 >= |stops| ==> segment.toLabel == ToFallback(index, |stops|)
  {
    Segment(
      ColorFor(colors, index),
      LabelForStop(StopAt(stops, index), FromFallback(index)),
      LabelForStop(StopAt(stops, index + 1), ToFallback(index, |stops|)),
      CombineLegText(route.legs, Duration),
      CombineLegText(route.legs, Distance),
      SumValues(route.legs, Distance),
      SumValues(route.legs, Duration),
      NormalizeLegs(route.legs))
  }

  /**
   * `buildRoutePlan`: no plan when no result has a route or no route has a leg; otherwise one
   * segment per selected route, whole-trip totals over all legs, and the flat leg list.
   */
  function BuildRoutePlan(input: DirectionsInput, stops: seq<Stop>, colors: seq<string>): (plan: Option<RoutePlan>)
    ensures plan.Some? <==> AllLegs(NormalizeRoutes(input)) != []
    ensures plan.Some? ==>
              && |plan.value.segments| == |NormalizeRoutes(input)|
              && |plan.value.legs| == |AllLegs(NormalizeRoutes(input))|
              && plan.value.arrivalTimeText == NormalizeRoutes(input)[|NormalizeRoutes(input)| - 1].arrivalTime
  {
    var routes := NormalizeRoutes(input);
    if |routes| == 0 then None
    else
      var allLegs := AllLegs(routes);
      if |allLegs| == 0 then None
      else
        Some(RoutePlan(
          SumValues(allLegs, Duration),
          SumValues(allLegs, Distance),
          CombineLegText(allLegs, Duration),
          CombineLegText(allLegs, Distance),
          routes[|routes| - 1].arrivalTime,
          seq(|routes|, i requires 0 <= i < |routes| => SummarizeSegment(routes[i], i, stops, colors)),
          NormalizeLegs(allLegs)))
  }

  // ---------------------------------------------------------------------------------------
  // Properties of the plan
  // ---------------------------------------------------------------------------------------

  /** A plan exists exactly when some selected route has at least one leg. */
  lemma PlanPresence(input: DirectionsInput, stops: seq<Stop>, colors: seq<string>)
    ensures var routes := NormalizeRoutes(input);
            BuildRoutePlan(input, stops, colors).Some? <==>
              exists k :: 0 <= k < |routes| && routes[k].legs != []
  {
    AllLegsEmpty(NormalizeRoutes(input));
  }

  /** The sum of a field over the segments. */
  function SegmentSum(segments: seq<Segment>, key: Measure): int {
    if |segments| == 0 then 0
    else
      (match key case Duration => segments[0].durationSeconds case Distance => segments[0].distanceMeters)
      + SegmentSum(segments[1..], key)
  }

  /** The concatenation of the segments' leg lists. */
  function SegmentLegs(segments: seq<Segment>): seq<NormalizedLeg> {
    if |segments| == 0 then [] else segments[0].legs + SegmentLegs(segments[1..])
  }

  /** The sum of a field over normalised legs. */
  function NormalizedSum(legs: seq<NormalizedLeg>, key: Measure): int {
    if |legs| == 0 then 0
    else
      (match key case Duration => legs[0].durationValue case Distance => legs[0].distanceValue)
      + NormalizedSum(legs[1..], key)
  }

  /** Segments built from routes, one per route in order: what each of them holds. */
  predicate SegmentsFor(segments: seq<Segment>, routes: seq<Route>) {
    && |segments| == |routes|
    && (forall i :: 0 <= i < |routes| ==>
          && segments[i].legs == NormalizeLegs(routes[i].legs)
          && segments[i].distanceMeters == SumValues(routes[i].legs, Distance)
          && segments[i].durationSeconds == SumValues(routes[i].legs, Duration))
  }

  lemma {:induction false} SegmentSumIsLegSum(segments: seq<Segment>, routes: seq<Route>, key: Measure)
    requires SegmentsFor(segments, routes)
    ensures SegmentSum(segments, key) == SumValues(AllLegs(routes), key)
  {
    if |routes| > 0 {
      assert SegmentsFor(segments[1..], routes[1..]) by {
        forall i | 0 <= i < |routes[1..]|
          ensures segments[1..][i] == segments[i + 1] && routes[1..][i] == routes[i + 1] { }
      }
      SegmentSumIsLegSum(segments[1..], routes[1..], key);
      SumValuesAppend(routes[0].legs, AllLegs(routes[1..]), key);
    }
  }

  lemma {:induction false} SegmentLegsAreAllLegs(segments: seq<Segment>, routes: seq<Route>)
    requires SegmentsFor(segments, routes)
    ensures SegmentLegs(segments) == NormalizeLegs(AllLegs(routes))
  {
    if |routes| > 0 {
      assert SegmentsFor(segments[1..], routes[1..]) by {
        forall i | 0 <= i < |routes[1..]|
          ensures segments[1..][i] == segments[i + 1] && routes[1..][i] == routes[i + 1] { }
      }
      SegmentLegsAreAllLegs(segments[1..], routes[1..]);
      NormalizeLegsAppend(routes[0].legs, AllLegs(routes[1..]));
    }
  }

  /** Normalising distributes over concatenation. */
  lemma NormalizeLegsAppend(a: seq<Leg>, b: seq<Leg>)
    ensures NormalizeLegs(a + b) == NormalizeLegs(a) + NormalizeLegs(b)
  {
    var left, right := NormalizeLegs(a + b), NormalizeLegs(a) + NormalizeLegs(b);
    forall k | 0 <= k < |a + b| ensures left[k] == right[k] {
      if k < |a| {
        assert (a + b)[k] == a[k];
      } else {
        assert (a + b)[k] == b[k - |a|];
      }
    }
  }

  lemma {:induction false} NormalizedSumIsLegSum(legs: seq<Leg>, key: Measure)
    ensures NormalizedSum(NormalizeLegs(legs), key) == SumValues(legs, key)
  {
    if |legs| > 0 {
      NormalizedSumIsLegSum(legs[1..], key);
      assert NormalizeLegs(legs)[1..] == NormalizeLegs(legs[1..]);
    }
  }

  lemma PlanSegments(input: DirectionsInput, stops: seq<Stop>, colors: seq<string>)
    requires BuildRoutePlan(input, stops, colors).Some?
    ensures SegmentsFor(BuildRoutePlan(input, stops, colors).value.segments, NormalizeRoutes(input))
  {
  }

  /**
   * The whole-trip totals are both the sums of the segment totals and the sums of the
   * normalised legs' values.
   */
  lemma PlanTotals(input: DirectionsInput, stops: seq<Stop>, colors: seq<string>)
    requires BuildRoutePlan(input, stops, colors).Some?
    ensures var plan := BuildRoutePlan(input, stops, colors).value;
            && plan.totalDistanceMeters == SegmentSum(plan.segments, Distance)
            && plan.totalDurationSeconds == SegmentSum(plan.segments, Duration)
            && plan.totalDistanceMeters == NormalizedSum(plan.legs, Distance)
            && plan.totalDurationSeconds == NormalizedSum(plan.legs, Duration)
  {
    var plan := BuildRoutePlan(input, stops, colors).value;
    var routes := NormalizeRoutes(input);
    PlanSegments(input, stops, colors);
    SegmentSumIsLegSum(plan.segments, routes, Distance);
    SegmentSumIsLegSum(plan.segments, routes, Duration);
    NormalizedSumIsLegSum(AllLegs(routes), Distance);
    NormalizedSumIsLegSum(AllLegs(routes), Duration);
  }

  /** Each segment's totals are the sums of its own normalised legs. */
  lemma SegmentTotals(input: DirectionsInput, stops: seq<Stop>, colors: seq<string>, i: nat)
    requires BuildRoutePlan(input, stops, colors).Some?
    requires i < |BuildRoutePlan(input, stops, colors).value.segments|
    ensures var segment := BuildRoutePlan(input, stops, colors).value.segments[i];
            && segment.distanceMeters == NormalizedSum(segment.legs, Distance)
            && segment.durationSeconds == NormalizedSum(segment.legs, Duration)
  {
    var routes := NormalizeRoutes(input);
    PlanSegments(input, stops, colors);
    NormalizedSumIsLegSum(routes[i].legs, Distance);
    NormalizedSumIsLegSum(routes[i].legs, Duration);
  }

  /** The flat leg list is the segments' leg lists laid end to end. */
  lemma PlanLegsAreSegmentLegs(input: DirectionsInput, stops: seq<Stop>, colors: seq<string>)
    requires BuildRoutePlan(input, stops, colors).Some?
    ensures var plan := BuildRoutePlan(input, stops, colors).value;
            plan.legs == SegmentLegs(plan.segments)
  {
    PlanSegments(input, stops, colors);
    SegmentLegsAreAllLegs(BuildRoutePlan(input, stops, colors).value.segments, NormalizeRoutes(input));
  }

  /**
   * Consecutive segments meet: segment `i` ends where segment `i + 1` starts, whenever the stop
   * between them has a label or an address, or is not the second-to-last stop.
   */
  lemma SegmentsChain(input: DirectionsInput, stops: seq<Stop>, colors: seq<string>, i: nat)
    requires BuildRoutePlan(input, stops, colors).Some?
    requires i + 1 < |BuildRoutePlan(input, stops, colors).value.segments|
    requires (i + 1 < |stops| && (stops[i + 1].labelText.Some? || stops[i + 1].address.Some?))
             || i != |stops| - 2
    ensures var segments := BuildRoutePlan(input, stops, colors).value.segments;
            segments[i].toLabel == segments[i + 1].fromLabel
  {
    var segments := BuildRoutePlan(input, stops, colors).value.segments;
    assert segments[i].toLabel == LabelForStop(StopAt(stops, i + 1), ToFallback(i, |stops|));
    assert segments[i + 1].fromLabel == LabelForStop(StopAt(stops, i + 1), FromFallback(i + 1));
  }

  /** The combined texts of the routes' own legs, one per route. */
  function RouteTexts(routes: seq<Route>, key: Measure): (texts: seq<string>)
    ensures |texts| == |routes|
  {
    seq(|routes|, k requires 0 <= k < |routes| => CombineLegText(routes[k].legs, key))
  }

  lemma {:induction false} CombineAllLegs(routes: seq<Route>, key: Measure)
    requires |routes| >= 1
    requires forall k :: 0 <= k < |routes| ==> LegTexts(routes[k].legs, key) != []
    ensures LegTexts(AllLegs(routes), key) != []
    ensures CombineLegText(AllLegs(routes), key) == Join(RouteTexts(routes, key), " + ")
  {
    var rest := routes[1..];
    var texts := RouteTexts(routes, key);
    assert AllLegs(routes) == routes[0].legs + AllLegs(rest);
    LegTextsAppend(routes[0].legs, AllLegs(rest), key);
    if |routes| == 1 {
      assert routes[0].legs + [] == routes[0].legs;
    } else {
      assert forall k :: 0 <= k < |rest| ==> rest[k] == routes[k + 1];
      CombineAllLegs(rest, key);
      CombineLegTextAppend(routes[0].legs, AllLegs(rest), key);
      assert texts[1..] == RouteTexts(rest, key);
      assert Join(texts, " + ") == texts[0] + " + " + Join(texts[1..], " + ");
    }
  }

  /** The duration or distance texts of the segments, in order. */
  function SegmentTexts(segments: seq<Segment>, key: Measure): (texts: seq<string>)
    ensures |texts| == |segments|
  {
    seq(|segments|, k requires 0 <= k < |segments| =>
      match key case Duration => segments[k].durationText case Distance => segments[k].distanceText)
  }

  /** The plan's whole-trip duration or distance text. */
  function TotalText(plan: RoutePlan, key: Measure): string {
    match key case Duration => plan.totalDurationText case Distance => plan.totalDistanceText
  }

  /** Segment `k` carries the combined text of route `k`. */
  lemma SegmentTextsAreRouteTexts(input: DirectionsInput, stops: seq<Stop>, colors: seq<string>, key: Measure)
    requires BuildRoutePlan(input, stops, colors).Some?
    ensures SegmentTexts(BuildRoutePlan(input, stops, colors).value.segments, key) == RouteTexts(NormalizeRoutes(input), key)
  {
    var routes := NormalizeRoutes(input);
    var segments := BuildRoutePlan(input, stops, colors).value.segments;
    forall k | 0 <= k < |segments|
      ensures SegmentTexts(segments, key)[k] == RouteTexts(routes, key)[k]
    {
      assert segments[k] == SummarizeSegment(routes[k], k, stops, colors);
    }
  }

  /**
   * When every segment has at least one leg text, the whole-trip text is the segments' texts
   * joined with " + ".
   */
  lemma PlanTextsJoinSegmentTexts(input: DirectionsInput, stops: seq<Stop>, colors: seq<string>, key: Measure)
    requires var routes := NormalizeRoutes(input);
             |routes| >= 1 && forall k :: 0 <= k < |routes| ==> LegTexts(routes[k].legs, key) != []
    ensures BuildRoutePlan(input, stops, colors).Some?
    ensures var plan := BuildRoutePlan(input, stops, colors).value;
            TotalText(plan, key) == Join(SegmentTexts(plan.segments, key), " + ")
  {
    var routes := NormalizeRoutes(input);
    CombineAllLegs(routes, key);
    SegmentTextsAreRouteTexts(input, stops, colors, key);
  }
}
