/**
 * The page controller: stop editing, route calculation, the navigation state machine
 * (planning and navigating), and the decisions taken on every state change (which segment to
 * highlight, whether to announce the next manoeuvre). Wall-clock time is a parameter, the
 * directions service and the projection geometry are oracles, and rendering is left out.
 */
module Navigation {

  import opened Wrappers
  import opened Text
  import opened Places
  import Palette
  import opened Routing
  import opened Progress
  import opened State

  /** Minimum time between two announcements, in milliseconds. */
  const ToastCooldownMs: int := 15000

  /** An announcement is made only this close to the nearest leg, in metres. */
  const ToastDistanceThresholdMeters: real := 30.0

  // ---------------------------------------------------------------------------------------
  // Stops
  // ---------------------------------------------------------------------------------------

  /** The marker text of stop `index` out of `total`: origin, destination or waypoint number. */
  function MarkerLabelForIndex(index: nat, total: int): (text: string)
    ensures index == 0 ==> text == "출발"
    ensures index != 0 && index == total - 1 ==> text == "도착"
    ensures index != 0 && index != total - 1 ==> text == "경유 " + NatToString(index)
  {
    if index == 0 then "출발"
    else if index == total - 1 then "도착"
    else "경유 " + NatToString(index)
  }

  /** Different stops of one trip get different marker texts. */
  lemma MarkerLabelsDistinct(i: nat, j: nat, total: int)
    requires i != j
    ensures MarkerLabelForIndex(i, total) != MarkerLabelForIndex(j, total)
  {
    var a, b := MarkerLabelForIndex(i, total), MarkerLabelForIndex(j, total);
    var prefix := "경유 ";
    if i != 0 && i != total - 1 && j != 0 && j != total - 1 {
      assert a[|prefix|..] == NatToString(i) && DecimalValue(NatToString(i)) == i;
      assert b[|prefix|..] == NatToString(j) && DecimalValue(NatToString(j)) == j;
    } else {
      assert a[0] != b[0];
    }
  }

  /** The stops of a trip: origin if set, then the waypoints in order, then destination if set. */
  function StopList(state: AppState): seq<Stop> {
    (if state.origin.Some? then [state.origin.value] else [])
    + state.waypoints
    + (if state.destination.Some? then [state.destination.value] else [])
  }

  /** The stop list holds the present endpoints around the waypoints, nothing more. */
  lemma StopListShape(state: AppState)
    ensures var stops := StopList(state);
            && |stops| == |state.waypoints| + (if state.origin.Some? then 1 else 0)
                                            + (if state.destination.Some? then 1 else 0)
            && (state.origin.Some? ==> stops[0] == state.origin.value)
            && (state.destination.Some? ==> stops[|stops| - 1] == state.destination.value)
            && var offset := if state.origin.Some? then 1 else 0;
               forall i :: 0 <= i < |state.waypoints| ==> stops[offset + i] == state.waypoints[i]
  {
  }

  /** `buildStopList`: pushes the stops one by one. */
  method BuildStopList(state: AppState) returns (list: seq<Stop>)
    ensures list == StopList(state)
  {
    list := [];
    if state.origin.Some? {
      list := list + [state.origin.value];
    }
    var head := list;
    var i := 0;
    while i < |state.waypoints|
      invariant 0 <= i <= |state.waypoints|
      invariant list == head + state.waypoints[..i]
    {
      list := list + [state.waypoints[i]];
      i := i + 1;
    }
    assert state.waypoints[..i] == state.waypoints;
    if state.destination.Some? {
      list := list + [state.destination.value];
    }
    assert list == StopList(state);
  }

  /** What a directions request accepts as an end point. */
  datatype Endpoint = AtLocation(location: LatLng) | AtPlace(placeId: string) | AtText(text: string)

  /**
   * `extractDirectionsInput`: the stop's coordinates, else its place id, else its address,
   * else its label; nothing for a missing stop or one with none of these.
   */
  function ExtractDirectionsInput(entry: Option<Stop>): (input: Option<Endpoint>)
    ensures input.None? <==>
              entry.None? || (entry.value.location.None? && !Truthy(entry.value.placeId)
                              && entry.value.address.None? && entry.value.labelText.None?)
    ensures entry.Some? && entry.value.location.Some? ==> input == Some(AtLocation(entry.value.location.value))
    ensures entry.Some? && entry.value.location.None? && Truthy(entry.value.placeId) ==>
              input == Some(AtPlace(entry.value.placeId.value))
    ensures input.Some? && input.value.AtText? ==>
              entry.value.location.None? && !Truthy(entry.value.placeId)
              && (entry.value.address == Some(input.value.text)
                  || (entry.value.address.None? && entry.value.labelText == Some(input.value.text)))
    ensures entry.Some? && entry.value.location.None? && !Truthy(entry.value.placeId) && entry.value.address.Some? ==>
              input == Some(AtText(entry.value.address.value))
    ensures entry.Some? && entry.value.location.None? && !Truthy(entry.value.placeId)
              && entry.value.address.None? && entry.value.labelText.Some? ==>
              input == Some(AtText(entry.value.labelText.value))
  {
    if entry.None? then None
    else if entry.value.location.Some? then Some(AtLocation(entry.value.location.value))
    else if Truthy(entry.value.placeId) then Some(AtPlace(entry.value.placeId.value))
    else if entry.value.address.Some? then Some(AtText(entry.value.address.value))
    else if entry.value.labelText.Some? then Some(AtText(entry.value.labelText.value))
    else None
  }

  /** The route calculation refuses a missing end point and an empty text (both falsy). */
  predicate Usable(input: Option<Endpoint>) {
    input.Some? && !(input.value.AtText? && input.value.text == "")
  }

  // ---------------------------------------------------------------------------------------
  // Stop edits: mutations handed to the store
  // ---------------------------------------------------------------------------------------

  /** `resetNavigationDraft`: navigation back to inactive with every field cleared; nothing else changes. */
  function ResetNavigationDraft(draft: AppState): (r: AppState)
    ensures r.navigation == InactiveNavigation && !r.navigation.active
    ensures r.(navigation := draft.navigation) == draft
  {
    draft.(navigation := NavigationState(false, None, None, None, None))
  }

  /** A stop typed as text: the text is both label and address, with no coordinates. */
  function TypedStop(text: string): Stop {
    Stop(Some(text), Some(text), None, None, None)
  }

  /** An autocomplete selection; the address is always present. */
  datatype Place = Place(placeId: Option<string>, name: Option<string>, address: string, location: Option<LatLng>)

  /** A stop for a selected place, labelled with its name or else its address. */
  function StopForPlace(place: Place): (stop: Stop)
    ensures stop.labelText.Some?
    ensures stop.labelText == (if place.name.Some? then place.name else Some(place.address))
    ensures stop.address == Some(place.address) && stop.placeId == place.placeId && stop.location == place.location
  {
    Stop(if place.name.Some? then place.name else Some(place.address),
         Some(place.address), place.location, place.placeId, place.name)
  }

  /** The add-waypoint mutation: the new stop goes last and navigation is reset. */
  function AppendWaypointDraft(draft: AppState, stop: Stop): (r: AppState)
    ensures |r.waypoints| == |draft.waypoints| + 1
    ensures r.waypoints[..|draft.waypoints|] == draft.waypoints && r.waypoints[|draft.waypoints|] == stop
    ensures r.navigation == InactiveNavigation
    ensures r.(waypoints := draft.waypoints, navigation := draft.navigation) == draft
  {
    ResetNavigationDraft(draft.(waypoints := draft.waypoints + [stop]))
  }

  /** `items.filter((_, i) => i !== index)`: drops the entry at `index`, if there is one. */
  function RemoveAt<T>(items: seq<T>, index: int): (r: seq<T>)
    ensures 0 <= index < |items| ==> r == items[..index] + items[index + 1..]
    ensures !(0 <= index < |items|) ==> r == items
  {
    if |items| == 0 then []
    else
      var rest := RemoveAt(items[1..], index - 1);
      if index == 0 then
        assert rest == items[1..];
        rest
      else
        assert index > 0 && index - 1 < |items[1..]| ==> [items[0]] + rest == items[..index] + items[index + 1..];
        [items[0]] + rest
  }

  /** Removing keeps every other entry: the removed one plus the rest is the original multiset. */
  lemma RemoveAtMultiset<T>(items: seq<T>, index: int)
    requires 0 <= index < |items|
    ensures |RemoveAt(items, index)| == |items| - 1
    ensures multiset(RemoveAt(items, index)) + multiset{items[index]} == multiset(items)
  {
    SplitMultiset(items, index);
  }

  lemma SplitMultiset<T>(items: seq<T>, index: int)
    requires 0 <= index < |items|
    ensures multiset(items[..index] + items[index + 1..]) + multiset{items[index]} == multiset(items)
  {
    var left, right := items[..index], items[index + 1..];
    assert items == left + [items[index]] + right;
  }

  /** Exchanges the entries at `i` and `i + 1`. */
  function SwapAdjacent<T>(items: seq<T>, i: nat): (r: seq<T>)
    requires i + 1 < |items|
    ensures |r| == |items|
    ensures r[i] == items[i + 1] && r[i + 1] == items[i]
    ensures forall k :: 0 <= k < |items| && k != i && k != i + 1 ==> r[k] == items[k]
    ensures multiset(r) == multiset(items)
  {
    items[i := items[i + 1]][i + 1 := items[i]]
  }

  /** Swapping the same neighbours twice restores the list. */
  lemma SwapAdjacentTwice<T>(items: seq<T>, i: nat)
    requires i + 1 < |items|
    ensures SwapAdjacent(SwapAdjacent(items, i), i) == items
  {
  }

  /** The remove mutation: drops waypoint `index` and resets navigation. */
  function RemoveWaypointDraft(draft: AppState, index: int): (r: AppState)
    ensures r.waypoints == RemoveAt(draft.waypoints, index)
    ensures r.navigation == InactiveNavigation
    ensures r.(waypoints := draft.waypoints, navigation := draft.navigation) == draft
  {
    ResetNavigationDraft(draft.(waypoints := RemoveAt(draft.waypoints, index)))
  }

  /**
   * The move-up mutation: the first waypoint stays put and nothing changes; any other
   * exchanges places with its predecessor and navigation is reset.
   */
  function MoveUpDraft(draft: AppState, index: nat): (r: AppState)
    requires index < |draft.waypoints|
    ensures index == 0 ==> r == draft
    ensures index > 0 ==> r.waypoints == SwapAdjacent(draft.waypoints, index - 1)
                          && r.navigation == InactiveNavigation
                          && r.(waypoints := draft.waypoints, navigation := draft.navigation) == draft
    ensures multiset(r.waypoints) == multiset(draft.waypoints)
  {
    if index == 0 then draft
    else ResetNavigationDraft(draft.(waypoints := SwapAdjacent(draft.waypoints, index - 1)))
  }

  /**
   * The move-down mutation: the last waypoint stays put and nothing changes; any other
   * exchanges places with its successor and navigation is reset.
   */
  function MoveDownDraft(draft: AppState, index: nat): (r: AppState)
    requires index < |draft.waypoints|
    ensures index == |draft.waypoints| - 1 ==> r == draft
    ensures index < |draft.waypoints| - 1 ==> r.waypoints == SwapAdjacent(draft.waypoints, index)
                                              && r.navigation == InactiveNavigation
                                              && r.(waypoints := draft.waypoints, navigation := draft.navigation) == draft
    ensures multiset(r.waypoints) == multiset(draft.waypoints)
  {
    if index == |draft.waypoints| - 1 then draft
    else ResetNavigationDraft(draft.(waypoints := SwapAdjacent(draft.waypoints, index)))
  }

  /** Moving a waypoint up and then moving it back down restores the waypoint order. */
  lemma MoveDownUndoesMoveUp(draft: AppState, index: nat)
    requires 0 < index < |draft.waypoints|
    ensures MoveDownDraft(MoveUpDraft(draft, index), index - 1).waypoints == draft.waypoints
  {
    SwapAdjacentTwice(draft.waypoints, index - 1);
  }

  /** The form-submit mutation: typed endpoints fill only the empty ends; navigation is reset. */
  function SubmitDraft(draft: AppState, originText: string, destinationText: string): (r: AppState)
    ensures r.origin == Some(draft.origin.GetOr(TypedStop(originText)))
    ensures r.destination == Some(draft.destination.GetOr(TypedStop(destinationText)))
    ensures r.navigation == InactiveNavigation
    ensures r.waypoints == draft.waypoints && r.routePlan == draft.routePlan
  {
    ResetNavigationDraft(draft.(origin := Some(draft.origin.GetOr(TypedStop(originText))),
                                destination := Some(draft.destination.GetOr(TypedStop(destinationText)))))
  }

  // ---------------------------------------------------------------------------------------
  // Navigation transitions
  // ---------------------------------------------------------------------------------------

  /** Start: active since `now`, with no position, update time or error yet. */
  function StartNavigation(nav: NavigationState, now: int): (r: NavigationState)
    ensures r.active && r.startedAt == Some(now)
    ensures r.currentPosition.None? && r.lastUpdatedAt.None? && r.error.None?
  {
    nav.(active := true, startedAt := Some(now), currentPosition := None, lastUpdatedAt := None, error := None)
  }

  /** Exit: inactive, position and update time cleared; the start time and the error are kept. */
  function ExitNavigation(nav: NavigationState): (r: NavigationState)
    ensures !r.active && r.currentPosition.None? && r.lastUpdatedAt.None?
    ensures r.startedAt == nav.startedAt && r.error == nav.error
  {
    nav.(active := false, currentPosition := None, lastUpdatedAt := None)
  }

  /** A failure of the position watch: the error is recorded and navigation becomes inactive. */
  function TrackingError(nav: NavigationState, message: string): (r: NavigationState)
    ensures !r.active && r.error == Some(message)
    ensures r.startedAt == nav.startedAt && r.currentPosition == nav.currentPosition
            && r.lastUpdatedAt == nav.lastUpdatedAt
  {
    nav.(error := Some(message), active := false)
  }

  /** A position sample: recorded with its arrival time, and any earlier error cleared. */
  function RecordPosition(nav: NavigationState, position: Position, now: int): (r: NavigationState)
    ensures r.currentPosition == Some(position) && r.lastUpdatedAt == Some(now) && r.error.None?
    ensures r.active == nav.active && r.startedAt == nav.startedAt
  {
    nav.(currentPosition := Some(position), lastUpdatedAt := Some(now), error := None)
  }

  /** Inactive navigation still holding a position or a (non-zero) update time. */
  predicate HoldsStalePosition(nav: NavigationState) {
    !nav.active && (nav.currentPosition.Some? || (nav.lastUpdatedAt.Some? && nav.lastUpdatedAt.value != 0))
  }

  /**
   * The stale-position check is what makes the clean-up worth its notification: clearing a
   * stale record changes it, and a record that is not stale already has nothing to clear,
   * unless its update time is 0, which the check reads as absent.
   */
  lemma StaleCheckMatchesCleanup(nav: NavigationState)
    requires !nav.active
    ensures HoldsStalePosition(nav) ==> ClearPosition(nav) != nav && !HoldsStalePosition(ClearPosition(nav))
    ensures !HoldsStalePosition(nav) ==> ClearPosition(nav) == nav || nav.lastUpdatedAt == Some(0)
  {
  }

  /** The clean-up applied when tracking stops: position and update time cleared. */
  function ClearPosition(nav: NavigationState): (r: NavigationState)
    ensures !HoldsStalePosition(r)
    ensures r.active == nav.active && r.startedAt == nav.startedAt && r.error == nav.error
  {
    nav.(currentPosition := None, lastUpdatedAt := None)
  }

  /** Starting again after a failure or an exit gives the same state as a first start: nothing of the earlier run survives. */
  lemma RestartIsClean(nav: NavigationState, t1: int, t2: int, message: string)
    ensures StartNavigation(TrackingError(StartNavigation(nav, t1), message), t2)
            == StartNavigation(nav, t2)
    ensures StartNavigation(ExitNavigation(StartNavigation(nav, t1)), t2) == StartNavigation(nav, t2)
  {
  }

  // ---------------------------------------------------------------------------------------
  // Decisions taken on every state change
  // ---------------------------------------------------------------------------------------

  /** The plan as the progress engine reads it: every leg and segment carries its distance. */
  function PlanViewOf(plan: RoutePlan): (view: PlanView)
    ensures |view.segments| == |plan.segments|
    ensures forall s :: 0 <= s < |plan.segments| ==> |view.segments[s].legs| == |plan.segments[s].legs|
    ensures view.totalDistanceMeters == Some(plan.totalDistanceMeters as real)
  {
    PlanView(
      seq(|plan.segments|, s requires 0 <= s < |plan.segments| =>
        SegmentView(
          seq(|plan.segments[s].legs|, l requires 0 <= l < |plan.segments[s].legs| =>
            var leg := plan.segments[s].legs[l];
            LegView(leg.originLocation, leg.destinationLocation, Some(leg.distanceValue as real))),
          Some(plan.segments[s].distanceMeters as real))),
      Some(plan.totalDistanceMeters as real))
  }

  /** `computeProgress`: the engine's result for the stored plan and the last position. */
  function ComputeProgress(project: Projector, state: AppState): (progress: Option<Snapshot>)
    ensures progress.Some? ==> state.routePlan.Some? && state.navigation.currentPosition.Some?
  {
    if state.routePlan.None? || state.navigation.currentPosition.None? then None
    else
      var p := state.navigation.currentPosition.value;
      NavigationProgress(project, Some(PlanViewOf(state.routePlan.value)), Some(LatLng(p.lat, p.lng)))
  }

  /** `segments[s]?.legs?.[l]`. */
  function LegAt(plan: RoutePlan, s: int, l: int): Option<NormalizedLeg> {
    if 0 <= s < |plan.segments| && 0 <= l < |plan.segments[s].legs| then Some(plan.segments[s].legs[l])
    else None
  }

  /** A progress snapshot always names a leg that exists in the plan it was computed from. */
  lemma ProgressNamesExistingLeg(project: Projector, state: AppState)
    requires ComputeProgress(project, state).Some?
    ensures var progress := ComputeProgress(project, state).value;
            LegAt(state.routePlan.value, progress.closestSegmentIndex, progress.closestLegIndex).Some?
  {
    var p := state.navigation.currentPosition.value;
    ProgressPicksFirstNearestLeg(project, PlanViewOf(state.routePlan.value), LatLng(p.lat, p.lng));
  }

  /** The announcement text: the leg's mode label, then its details when there are any. */
  function AnnouncementText(leg: NormalizedLeg): (message: string)
    ensures StartsWith(message, "다음 안내: ")
    ensures var head := "다음 안내: " + leg.modeLabel.GetOr("undefined");
            StartsWith(message, head)
            && (Truthy(leg.details) ==> message[|head|..] == " · " + leg.details.value)
            && (!Truthy(leg.details) ==> message == head)
  {
    "다음 안내: " + leg.modeLabel.GetOr("undefined") + (if Truthy(leg.details) then " · " + leg.details.value else "")
  }

  /**
   * `maybeAnnounceNextStep`'s decision: an announcement only while navigating with a progress
   * snapshot, at least the cool-down after the previous one, for a leg that exists, within the
   * distance threshold.
   */
  function AnnouncementFor(state: AppState, progress: Option<Snapshot>, now: int, lastToast: int): (message: Option<string>)
    ensures message.Some? <==>
              && state.navigation.active && progress.Some? && state.routePlan.Some?
              && now - lastToast >= ToastCooldownMs
              && LegAt(state.routePlan.value, progress.value.closestSegmentIndex, progress.value.closestLegIndex).Some?
              && progress.value.distanceToLegMeters <= ToastDistanceThresholdMeters
    ensures message.Some? ==>
              message.value == AnnouncementText(
                LegAt(state.routePlan.value, progress.value.closestSegmentIndex, progress.value.closestLegIndex).value)
  {
    if !state.navigation.active || progress.None? || state.routePlan.None? then None
    else if now - lastToast < ToastCooldownMs then None
    else
      var leg := LegAt(state.routePlan.value, progress.value.closestSegmentIndex, progress.value.closestLegIndex);
      if leg.None? then None
      else if progress.value.distanceToLegMeters > ToastDistanceThresholdMeters then None
      else Some(AnnouncementText(leg.value))
  }

  /** Once an announcement is made at `t1`, none is made before `t1` plus the cool-down. */
  lemma AnnouncementsAreSpaced(state: AppState, progress: Option<Snapshot>, t1: int, t2: int)
    requires t2 < t1 + ToastCooldownMs
    ensures AnnouncementFor(state, progress, t2, t1).None?
  {
  }

  /**
   * `applyNavigationHighlight`'s decision: while navigating with a non-empty plan and a
   * progress snapshot, highlight the nearest segment when it differs from the last one.
   */
  function HighlightFor(state: AppState, progress: Option<Snapshot>, last: Option<int>): (segment: Option<nat>)
    ensures segment.Some? <==>
              && state.routePlan.Some? && |state.routePlan.value.segments| > 0
              && state.navigation.active && progress.Some?
              && last != Some(progress.value.closestSegmentIndex as int)
    ensures segment.Some? ==> segment.value == progress.value.closestSegmentIndex
  {
    if state.routePlan.None? || |state.routePlan.value.segments| == 0 then None
    else if state.navigation.active && progress.Some? && last != Some(progress.value.closestSegmentIndex as int) then
      Some(progress.value.closestSegmentIndex)
    else None
  }

  /** After highlighting a segment, the same nearest segment is not highlighted again. */
  lemma HighlightOnlyOnChange(state: AppState, progress: Option<Snapshot>, last: Option<int>, state': AppState)
    requires HighlightFor(state, progress, last).Some?
    ensures HighlightFor(state', progress, Some(HighlightFor(state, progress, last).value as int)).None?
  {
  }

  // ---------------------------------------------------------------------------------------
  // Route calculation
  // ---------------------------------------------------------------------------------------

  /** The directions service: a result for two end points, or nothing when the request fails. */
  type DirectionsService = (Endpoint, Endpoint) -> Option<DirectionsResult>

  /**
   * The results of the requests for the first `n` consecutive stop pairs, made in order; nothing
   * as soon as a pair lacks a usable end point or a request fails.
   */
  function RequestResults(request: DirectionsService, stops: seq<Stop>, n: nat): (results: Option<seq<Option<DirectionsResult>>>)
    requires n < |stops|
    ensures results.Some? ==> |results.value| == n && forall k :: 0 <= k < n ==> results.value[k].Some?
  {
    if n == 0 then Some([])
    else
      var previous := RequestResults(request, stops, n - 1);
      var origin := ExtractDirectionsInput(Some(stops[n - 1]));
      var destination := ExtractDirectionsInput(Some(stops[n]));
      if previous.None? || !Usable(origin) || !Usable(destination) then None
      else
        var result := request(origin.value, destination.value);
        if result.None? then None else Some(previous.value + [Some(result.value)])
  }

  /** A failure for some pair means no results for any longer prefix of pairs. */
  lemma {:induction false} RequestFailureIsFinal(request: DirectionsService, stops: seq<Stop>, n: nat, m: nat)
    requires n <= m < |stops|
    requires RequestResults(request, stops, n).None?
    ensures RequestResults(request, stops, m).None?
  {
    if n < m {
      RequestFailureIsFinal(request, stops, n, m - 1);
    }
  }

  /** The request for pair `k` (stop `k` to stop `k + 1`) has usable end points and succeeds. */
  predicate PairSucceeds(request: DirectionsService, stops: seq<Stop>, k: nat)
    requires k + 1 < |stops|
  {
    var origin := ExtractDirectionsInput(Some(stops[k]));
    var destination := ExtractDirectionsInput(Some(stops[k + 1]));
    Usable(origin) && Usable(destination) && request(origin.value, destination.value).Some?
  }

  /** All requests succeed exactly when every pair has usable end points and a result. */
  lemma {:induction false} RequestResultsAllSucceed(request: DirectionsService, stops: seq<Stop>, n: nat)
    requires n < |stops|
    ensures RequestResults(request, stops, n).Some? <==> forall k :: 0 <= k < n ==> PairSucceeds(request, stops, k)
  {
    if n > 0 {
      RequestResultsAllSucceed(request, stops, n - 1);
      if RequestResults(request, stops, n).Some? {
        assert PairSucceeds(request, stops, n - 1);
      }
      if forall k :: 0 <= k < n ==> PairSucceeds(request, stops, k) {
        assert PairSucceeds(request, stops, n - 1);
        assert RequestResults(request, stops, n - 1).Some?;
      }
    }
  }

  /** Requests every consecutive pair of stops in order, stopping at the first failure. */
  method RequestAll(request: DirectionsService, stops: seq<Stop>) returns (results: Option<seq<Option<DirectionsResult>>>)
    requires |stops| >= 1
    ensures results == RequestResults(request, stops, |stops| - 1)
  {
    var collected: seq<Option<DirectionsResult>> := [];
    var i := 0;
    while i < |stops| - 1
      invariant 0 <= i <= |stops| - 1
      invariant RequestResults(request, stops, i) == Some(collected)
    {
      var origin := ExtractDirectionsInput(Some(stops[i]));
      var destination := ExtractDirectionsInput(Some(stops[i + 1]));
      if !Usable(origin) || !Usable(destination) {
        RequestFailureIsFinal(request, stops, i + 1, |stops| - 1);
        return None;
      }
      var result := request(origin.value, destination.value);
      if result.None? {
        RequestFailureIsFinal(request, stops, i + 1, |stops| - 1);
        return None;
      }
      collected := collected + [Some(result.value)];
      i := i + 1;
    }
    return Some(collected);
  }

  /**
   * The plan a route calculation publishes, when every request succeeds: nothing is published
   * without the maps library or with fewer than two stops, and a published plan has at most
   * one segment per stop pair.
   */
  function CalculatedPlan(request: DirectionsService, mapsLoaded: bool, state: AppState): (plan: Option<Option<RoutePlan>>)
    ensures plan.Some? ==> mapsLoaded && |StopList(state)| >= 2
    ensures plan.Some? && plan.value.Some? ==> |plan.value.value.segments| <= |StopList(state)| - 1
  {
    var stops := StopList(state);
    if !mapsLoaded || |stops| < 2 then None
    else
      var results := RequestResults(request, stops, |stops| - 1);
      if results.None? then None
      else Some(BuildRoutePlan(ResultList(results.value), stops, Palette.GetRouteColors(|stops| - 1)))
  }

  /** A calculation publishes exactly when the maps are loaded, there are two stops, and every pair succeeds. */
  lemma CalculatedPlanAllOrNothing(request: DirectionsService, mapsLoaded: bool, state: AppState)
    ensures CalculatedPlan(request, mapsLoaded, state).Some? <==>
              && mapsLoaded && |StopList(state)| >= 2
              && forall k :: 0 <= k < |StopList(state)| - 1 ==> PairSucceeds(request, StopList(state), k)
  {
    var stops := StopList(state);
    if mapsLoaded && |stops| >= 2 {
      RequestResultsAllSucceed(request, stops, |stops| - 1);
      assert CalculatedPlan(request, mapsLoaded, state).Some? <==> RequestResults(request, stops, |stops| - 1).Some?;
    }
  }

  /** The state holding the controller's module-level variables and the store it drives. */
  class Controller {
    var lastToastTimestamp: int
    var lastHighlightedSegment: Option<int>
    /** Whether a position watch is running (the source keeps its stop function). */
    var tracking: bool
    const store: Store

    ghost predicate Valid()
      reads this, store
    {
      store.Valid()
    }

    constructor(store: Store)
      requires store.Valid()
      ensures Valid() && this.store == store
      ensures lastToastTimestamp == 0 && lastHighlightedSegment.None? && !tracking
    {
      this.store := store;
      lastToastTimestamp := 0;
      lastHighlightedSegment := None;
      tracking := false;
    }

    /** Hands a precomputed new state to the store's update entry point. */
    method Publish(next: AppState) returns (calls: seq<Notification>)
      requires Valid()
      modifies store
      ensures Valid()
      ensures store.Snapshot() == next && store.listeners == old(store.listeners)
      ensures calls == NotifyAll(store.listeners, next)
    {
      calls := store.UpdateState((draft: AppState) => next);
    }

    /** The add-waypoint click: ignored for blank input, else the trimmed text is appended. */
    method AddWaypointClicked(input: string) returns (calls: seq<Notification>)
      requires Valid()
      modifies this, store
      ensures Valid()
      ensures Trim(input) == "" ==> store.Snapshot() == old(store.Snapshot()) && calls == []
                                    && lastToastTimestamp == old(lastToastTimestamp)
      ensures Trim(input) != "" ==>
                store.Snapshot() == AppendWaypointDraft(old(store.Snapshot()), TypedStop(Trim(input)))
                && calls == NotifyAll(store.listeners, store.Snapshot()) && lastToastTimestamp == 0
      ensures store.listeners == old(store.listeners)
      ensures lastHighlightedSegment == old(lastHighlightedSegment) && tracking == old(tracking)
    {
      var value := Trim(input);
      if value == "" {
        return [];
      }
      var current := store.GetState();
      calls := Publish(AppendWaypointDraft(current, TypedStop(value)));
      lastToastTimestamp := 0;
    }

    /** Selecting a waypoint suggestion appends the place as a stop. */
    method WaypointSelected(place: Place) returns (calls: seq<Notification>)
      requires Valid()
      modifies this, store
      ensures Valid()
      ensures store.Snapshot() == AppendWaypointDraft(old(store.Snapshot()), StopForPlace(place))
      ensures calls == NotifyAll(store.listeners, store.Snapshot()) && lastToastTimestamp == 0
      ensures store.listeners == old(store.listeners)
      ensures lastHighlightedSegment == old(lastHighlightedSegment) && tracking == old(tracking)
    {
      var current := store.GetState();
      calls := Publish(AppendWaypointDraft(current, StopForPlace(place)));
      lastToastTimestamp := 0;
    }

    /** Selecting an origin (or destination) suggestion replaces that end; navigation is reset. */
    method EndpointSelected(isOrigin: bool, place: Place) returns (calls: seq<Notification>)
      requires Valid()
      modifies this, store
      ensures Valid()
      ensures var before := old(store.Snapshot());
              store.Snapshot() == ResetNavigationDraft(
                if isOrigin then before.(origin := Some(StopForPlace(place)))
                else before.(destination := Some(StopForPlace(place))))
      ensures calls == NotifyAll(store.listeners, store.Snapshot()) && lastToastTimestamp == 0
      ensures store.listeners == old(store.listeners)
      ensures lastHighlightedSegment == old(lastHighlightedSegment) && tracking == old(tracking)
    {
      var current := store.GetState();
      var next := if isOrigin then current.(origin := Some(StopForPlace(place)))
                  else current.(destination := Some(StopForPlace(place)));
      calls := Publish(ResetNavigationDraft(next));
      lastToastTimestamp := 0;
    }

    /** The remove button of waypoint `index`. */
    method RemoveWaypointClicked(index: int) returns (calls: seq<Notification>)
      requires Valid()
      modifies this, store
      ensures Valid()
      ensures store.Snapshot() == RemoveWaypointDraft(old(store.Snapshot()), index)
      ensures calls == NotifyAll(store.listeners, store.Snapshot()) && lastToastTimestamp == 0
      ensures store.listeners == old(store.listeners)
      ensures lastHighlightedSegment == old(lastHighlightedSegment) && tracking == old(tracking)
    {
      var current := store.GetState();
      calls := Publish(RemoveWaypointDraft(current, index));
      lastToastTimestamp := 0;
    }

    /** The move-up button of waypoint `index`; on the first waypoint only the listeners run. */
    method MoveWaypointUpClicked(index: nat) returns (calls: seq<Notification>)
      requires Valid() && index < |store.waypoints|
      modifies this, store
      ensures Valid()
      ensures store.Snapshot() == MoveUpDraft(old(store.Snapshot()), index)
      ensures calls == NotifyAll(store.listeners, store.Snapshot())
      ensures lastToastTimestamp == if index == 0 then old(lastToastTimestamp) else 0
      ensures store.listeners == old(store.listeners)
      ensures lastHighlightedSegment == old(lastHighlightedSegment) && tracking == old(tracking)
    {
      var current := store.GetState();
      calls := Publish(MoveUpDraft(current, index));
      if index != 0 {
        lastToastTimestamp := 0;
      }
    }

    /** The move-down button of waypoint `index`; on the last waypoint only the listeners run. */
    method MoveWaypointDownClicked(index: nat) returns (calls: seq<Notification>)
      requires Valid() && index < |store.waypoints|
      modifies this, store
      ensures Valid()
      ensures store.Snapshot() == MoveDownDraft(old(store.Snapshot()), index)
      ensures calls == NotifyAll(store.listeners, store.Snapshot())
      ensures lastToastTimestamp == if index == old(|store.waypoints|) - 1 then old(lastToastTimestamp) else 0
      ensures store.listeners == old(store.listeners)
      ensures lastHighlightedSegment == old(lastHighlightedSegment) && tracking == old(tracking)
    {
      var current := store.GetState();
      calls := Publish(MoveDownDraft(current, index));
      if index != |current.waypoints| - 1 {
        lastToastTimestamp := 0;
      }
    }

    /** The clear button: the store is reset and no segment counts as highlighted. */
    method ClearClicked() returns (calls: seq<Notification>)
      requires Valid()
      modifies this, store
      ensures Valid()
      ensures store.Snapshot() == InitialState && calls == NotifyAll(store.listeners, InitialState)
      ensures store.listeners == old(store.listeners)
      ensures lastHighlightedSegment.None?
      ensures lastToastTimestamp == old(lastToastTimestamp) && tracking == old(tracking)
    {
      calls := store.ResetState();
      lastHighlightedSegment := None;
    }

    /** A click on a segment in the summary highlights that segment. */
    method SummarySegmentClicked(index: int)
      modifies this
      ensures lastHighlightedSegment == Some(index)
      ensures lastToastTimestamp == old(lastToastTimestamp) && tracking == old(tracking)
    {
      lastHighlightedSegment := Some(index);
    }

    /** The start button. */
    method StartNavigationClicked(now: int) returns (calls: seq<Notification>)
      requires Valid()
      modifies store
      ensures Valid()
      ensures store.Snapshot() == old(store.Snapshot()).(navigation := StartNavigation(old(store.navigation), now))
      ensures calls == NotifyAll(store.listeners, store.Snapshot())
      ensures store.listeners == old(store.listeners)
    {
      var current := store.GetState();
      calls := Publish(current.(navigation := StartNavigation(current.navigation, now)));
    }

    /** The exit button. */
    method ExitNavigationClicked() returns (calls: seq<Notification>)
      requires Valid()
      modifies store
      ensures Valid()
      ensures store.Snapshot() == old(store.Snapshot()).(navigation := ExitNavigation(old(store.navigation)))
      ensures calls == NotifyAll(store.listeners, store.Snapshot())
      ensures store.listeners == old(store.listeners)
    {
      var current := store.GetState();
      calls := Publish(current.(navigation := ExitNavigation(current.navigation)));
    }

    /** A position sample from the running watch. */
    method PositionReceived(position: Position, now: int) returns (calls: seq<Notification>)
      requires Valid()
      modifies store
      ensures Valid()
      ensures store.Snapshot() == old(store.Snapshot()).(navigation := RecordPosition(old(store.navigation), position, now))
      ensures calls == NotifyAll(store.listeners, store.Snapshot())
      ensures store.listeners == old(store.listeners)
    {
      var current := store.GetState();
      calls := Publish(current.(navigation := RecordPosition(current.navigation, position, now)));
    }

    /** A failure reported by the running watch. */
    method TrackingFailed(message: string) returns (calls: seq<Notification>)
      requires Valid()
      modifies store
      ensures Valid()
      ensures store.Snapshot() == old(store.Snapshot()).(navigation := TrackingError(old(store.navigation), message))
      ensures !store.navigation.active
      ensures calls == NotifyAll(store.listeners, store.Snapshot())
      ensures store.listeners == old(store.listeners)
    {
      var current := store.GetState();
      calls := Publish(current.(navigation := TrackingError(current.navigation, message)));
    }

    /**
     * `manageNavigationTracking`: a watch runs exactly while the given state is navigating;
     * when not navigating, a leftover position or update time is cleared from the store.
     */
    method ManageNavigationTracking(state: AppState) returns (calls: seq<Notification>)
      requires Valid()
      modifies this, store
      ensures Valid()
      ensures tracking == state.navigation.active
      ensures HoldsStalePosition(state.navigation) ==>
                store.Snapshot() == old(store.Snapshot()).(navigation := ClearPosition(old(store.navigation)))
                && calls == NotifyAll(store.listeners, store.Snapshot())
      ensures !HoldsStalePosition(state.navigation) ==> store.Snapshot() == old(store.Snapshot()) && calls == []
      ensures store.listeners == old(store.listeners)
      ensures lastToastTimestamp == old(lastToastTimestamp) && lastHighlightedSegment == old(lastHighlightedSegment)
    {
      calls := [];
      if state.navigation.active {
        if !tracking {
          tracking := true;
        }
      } else {
        if tracking {
          tracking := false;
        }
        if HoldsStalePosition(state.navigation) {
          var current := store.GetState();
          calls := Publish(current.(navigation := ClearPosition(current.navigation)));
        }
      }
    }

    /** `applyNavigationHighlight`: highlights on change and remembers the highlighted segment. */
    method ApplyNavigationHighlight(state: AppState, progress: Option<Snapshot>) returns (highlight: Option<nat>)
      modifies this
      ensures highlight == HighlightFor(state, progress, old(lastHighlightedSegment))
      ensures lastHighlightedSegment == if highlight.Some? then Some(highlight.value as int) else old(lastHighlightedSegment)
      ensures lastToastTimestamp == old(lastToastTimestamp) && tracking == old(tracking)
    {
      highlight := None;
      if state.routePlan.None? || |state.routePlan.value.segments| == 0 {
        return;
      }
      if state.navigation.active && progress.Some? {
        if lastHighlightedSegment != Some(progress.value.closestSegmentIndex as int) {
          highlight := Some(progress.value.closestSegmentIndex);
          lastHighlightedSegment := Some(progress.value.closestSegmentIndex as int);
        }
      }
    }

    /** `maybeAnnounceNextStep`: announces at most once per cool-down and records when it did. */
    method MaybeAnnounceNextStep(state: AppState, progress: Option<Snapshot>, now: int) returns (message: Option<string>)
      modifies this
      ensures message == AnnouncementFor(state, progress, now, old(lastToastTimestamp))
      ensures lastToastTimestamp == if message.Some? then now else old(lastToastTimestamp)
      ensures lastHighlightedSegment == old(lastHighlightedSegment) && tracking == old(tracking)
    {
      message := AnnouncementFor(state, progress, now, lastToastTimestamp);
      if message.Some? {
        lastToastTimestamp := now;
      }
    }

    /**
     * `calculateRoute`: requests a route for every consecutive pair of stops, in order, and
     * publishes the plan only when all of them succeed; with fewer than two stops, without the
     * maps library, or after any failure the store is left as it was.
     */
    method CalculateRoute(request: DirectionsService, mapsLoaded: bool) returns (calls: seq<Notification>)
      requires Valid()
      modifies this, store
      ensures Valid()
      ensures var plan := CalculatedPlan(request, mapsLoaded, old(store.Snapshot()));
              && (plan.Some? ==>
                    && store.Snapshot() == old(store.Snapshot()).(routePlan := plan.value)
                    && calls == NotifyAll(store.listeners, store.Snapshot())
                    && lastHighlightedSegment.None?)
              && (plan.None? ==>
                    && store.Snapshot() == old(store.Snapshot()) && calls == []
                    && lastHighlightedSegment == old(lastHighlightedSegment))
      ensures store.listeners == old(store.listeners)
      ensures lastToastTimestamp == old(lastToastTimestamp) && tracking == old(tracking)
    {
      var current := store.GetState();
      var stops := BuildStopList(current);
      if !mapsLoaded || |stops| < 2 {
        return [];
      }
      var results := RequestAll(request, stops);
      if results.None? {
        return [];
      }
      var colors := Palette.GetRouteColors(|results.value|);
      lastHighlightedSegment := None;
      calls := Publish(current.(routePlan := BuildRoutePlan(ResultList(results.value), stops, colors)));
    }

    /**
     * The form submit: ignored unless both typed endpoints are non-blank; otherwise the empty
     * ends are filled with the typed stops, navigation is reset, and the route is calculated.
     */
    method FormSubmitted(originInput: string, destinationInput: string, request: DirectionsService, mapsLoaded: bool)
      returns (calls: seq<Notification>)
      requires Valid()
      modifies this, store
      ensures Valid()
      ensures Trim(originInput) == "" || Trim(destinationInput) == "" ==>
                store.Snapshot() == old(store.Snapshot()) && calls == []
                && lastToastTimestamp == old(lastToastTimestamp)
                && lastHighlightedSegment == old(lastHighlightedSegment)
      ensures Trim(originInput) != "" && Trim(destinationInput) != "" ==>
                var submitted := SubmitDraft(old(store.Snapshot()), Trim(originInput), Trim(destinationInput));
                var plan := CalculatedPlan(request, mapsLoaded, submitted);
                && store.Snapshot() == (if plan.Some? then submitted.(routePlan := plan.value) else submitted)
                && lastToastTimestamp == 0
                && lastHighlightedSegment == (if plan.Some? then None else old(lastHighlightedSegment))
                && calls == NotifyAll(store.listeners, submitted)
                             + (if plan.Some? then NotifyAll(store.listeners, submitted.(routePlan := plan.value)) else [])
      ensures store.listeners == old(store.listeners) && tracking == old(tracking)
    {
      var originValue := Trim(originInput);
      var destinationValue := Trim(destinationInput);
      if originValue == "" || destinationValue == "" {
        return [];
      }
      var current := store.GetState();
      var submitted := SubmitDraft(current, originValue, destinationValue);
      var first := Publish(submitted);
      lastToastTimestamp := 0;
      ghost var plan := CalculatedPlan(request, mapsLoaded, submitted);
      var second := CalculateRoute(request, mapsLoaded);
      assert store.Snapshot() == if plan.Some? then submitted.(routePlan := plan.value) else submitted;
      calls := first + second;
    }

    /**
     * The listener registered at start-up: keeps the position watch in step with the state,
     * then computes progress and takes the highlight and announcement decisions.
     */
    method OnStateChange(project: Projector, latest: AppState, now: int)
      returns (calls: seq<Notification>, progress: Option<Snapshot>, highlight: Option<nat>, message: Option<string>)
      requires Valid()
      modifies this, store
      ensures Valid()
      ensures tracking == latest.navigation.active
      ensures progress == ComputeProgress(project, latest)
      ensures highlight == HighlightFor(latest, progress, old(lastHighlightedSegment))
      ensures message == AnnouncementFor(latest, progress, now, old(lastToastTimestamp))
      ensures lastHighlightedSegment == if highlight.Some? then Some(highlight.value as int) else old(lastHighlightedSegment)
      ensures lastToastTimestamp == if message.Some? then now else old(lastToastTimestamp)
      ensures HoldsStalePosition(latest.navigation) ==>
                store.Snapshot() == old(store.Snapshot()).(navigation := ClearPosition(old(store.navigation)))
                && calls == NotifyAll(store.listeners, store.Snapshot())
      ensures !HoldsStalePosition(latest.navigation) ==> store.Snapshot() == old(store.Snapshot()) && calls == []
      ensures store.listeners == old(store.listeners)
    {
      calls := ManageNavigationTracking(latest);
      progress := ComputeProgress(project, latest);
      highlight := ApplyNavigationHighlight(latest, progress);
      message := MaybeAnnounceNextStep(latest, progress, now);
    }
  }
}
