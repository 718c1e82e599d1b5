# Travel navigation core, modelled in Dafny

The travel-navigation web app plans a multi-stop trip with a directions service and then
follows the traveller along it. This project models the app's core logic:

- **Route normaliser** (`routing.dfy`). It turns one directions result per consecutive
  stop pair into a route plan: one segment per route, whole-trip totals, combined
  duration and distance texts, the flat leg list, and a mode label and transit
  summary for each leg.
- **Progress engine** (`progress.dfy`). Given a plan and a live position, it finds
  the nearest leg and computes the distance travelled, the distance remaining and a
  progress ratio. The engine is an imperative method with nested loops. It is proved
  equal to a fold function, and the fold is proved to pick the first nearest leg and
  to add up independently defined offsets.
- **Segment palette** (`palette.dfy`). Six colours, repeating by index.
- **State container** (`state.dfy`). The class `Store` holds the record, a listener
  list with set semantics, a copying read, and the update entry point. That entry
  point applies a mutation and then notifies every listener, in registration order,
  with a snapshot of the new state.
- **Page controller** (`navigation.dfy`). The class `Controller` holds the
  controller's module-level variables and the store it drives. It models:
  - the stop list;
  - waypoint add, remove and reorder;
  - the form submit;
  - the navigation state machine: start, exit, position samples and watch
    failures;
  - route calculation: one request per stop pair, in order, all or nothing;
  - the highlight and announcement decisions taken on every state change.
- **Build step** (`inject_env.dfy`). It parses a `.env` file, checks the API key, and
  substitutes the key into the first placeholder meta tag of the page template.
- **Shared pieces.**
  - `text.dfy` holds the JavaScript string built-ins the code relies on: `trim`, `split`
    on one character, `join`, `startsWith`, and integer rendering in template literals.
  - `places.dfy` holds coordinates, raw locations, stops and position samples.
  - `wrappers.dfy` holds `Option`.

### External inputs become parameters

- Wall-clock time is an `int` parameter (`now`).
- The directions service is a function `(Endpoint, Endpoint) -> Option<DirectionsResult>`. `None` means the request failed.
- The projection geometry is an oracle. The `toCartesian` map and `Math.sqrt` are parameters; the only assumption is that the square root is non-negative on non-negative input. The rest of the projection arithmetic is exact, over `real`.
- Whether the maps library has loaded is a `bool` parameter.
- Listener calls are returned as a list of notifications, not invoked. Each notification is a listener id and the snapshot that listener receives.

### Behaviour of the code worth knowing

- Stop edits on the first or last waypoint are not always an exit. Moving the first waypoint up, or the last one down, leaves the state, and so any ongoing navigation, unchanged. It still notifies the listeners. Every other stop edit resets navigation.
- Exiting navigation keeps `startedAt` and any recorded error. Only a new start clears them.
- Results without a route are silently dropped by the route normaliser. A segment's index therefore counts routes, not stop pairs.
- A transit line with a short name is labelled `short (name)`. When the line has no name, the label reads `short (undefined)`, as a template literal renders it.

## Model

| member | source | states |
|---|---|---|
| Palette.RouteColorAt | scripts/palette.js:10-13 | the colour is always one of the six; a negative index gets the first colour |
| Palette.RouteColorPeriodic | scripts/palette.js:12 | colours repeat with period six |
| Palette.GetRouteColors | scripts/palette.js:15-17 | `count` colours (none for a negative count); entry `i` is `RouteColorAt(i)`, that is palette entry `i mod 6` |
| Text.Trim | tools/inject-env.js:19 | the trimmed text is never longer than the input; its exact shape is stated by `Text.TrimShape` |
| Text.TrimShape | tools/inject-env.js:19 | the trimmed text is the infix of the input after its leading whitespace; it neither starts nor ends with whitespace, and only whitespace follows it |
| Text.TrimIdempotent | tools/inject-env.js:19 | trimming twice is trimming once |
| Text.Split | tools/inject-env.js:22 | splitting gives at least one part, and no part contains the separator |
| Text.JoinSplit | tools/inject-env.js:22-23 | joining the parts of a split with the same separator gives the original text back |
| Text.SplitAtFirst | tools/inject-env.js:22-23 | with the separator first at `k`, the first part is the text before `k` and the rest, re-joined, is the text after `k` |
| Text.SplitWithoutSeparator | tools/inject-env.js:22 | a text without the separator splits into itself alone |
| Text.NatToString | scripts/routing.js:25 | a non-empty string of decimal digits whose value is `n`, in canonical form: "0" for zero and no leading zero otherwise |
| Text.IntToString | scripts/routing.js:102 | the digits of `n`, with a minus sign in front when `n` is negative |
| Text.JoinAppend | scripts/routing.js:60 | joining two non-empty part lists puts exactly one separator between their joins |
| Progress.Clamp | scripts/progress.js:131-133 | the result is at least `min` and, when `min <= max`, at most `max`; a value in range is kept, one below is raised to `min`, one above is lowered to `max`; when `max < min` the result is always `min` |
| Progress.FractionAlong | scripts/progress.js:82-86 | the fraction lies in [0, 1]; it is 0 for a zero-length leg, otherwise the ratio of the dot products when it lies in [0, 1], 0 when it is negative and 1 when it exceeds 1 |
| Progress.ProjectPointMetrics | scripts/progress.js:77-101 | distance and leg length are non-negative, the fraction lies in [0, 1], and the fraction is 0 when both ends map to the same point |
| Progress.PlanarProjector | scripts/progress.js:23 | the projector the engine calls is the planar projection, at every argument |
| Progress.ParseLatLng | scripts/progress.js:66-75 | coordinates exist exactly for an object with numeric `lat` and `lng` or a two-element array; an object gives its `lat` and `lng`, and an array is read as `[lat, lng]` |
| Progress.LegMetrics | scripts/progress.js:23 | a projection result's distance and leg length are non-negative and its fraction lies in [0, 1] |
| Progress.LegDistance | scripts/progress.js:24 | the leg's recorded distance unless it is missing or zero, in which case the projected leg length |
| Progress.LegTravelled | scripts/progress.js:33-37 | the distance covered on the leg lies in [0, leg distance]; it is 0 for a negative leg distance, and distance times fraction whenever that already lies in range |
| Progress.Summarize | scripts/progress.js:48-63 | travelled is the sum of the three offsets; remaining is non-negative and completes travelled to the total; the ratio lies in [0, 1], is 0 for a non-positive total, and equals travelled / total when that is in range; for a positive total it is 1 when travelled exceeds the total and 0 when travelled is negative |
| Progress.NavigationProgress | scripts/progress.js:1-64 | a snapshot only with a plan, a position and at least one segment; its remaining distance is non-negative and its ratio lies in [0, 1] |
| Progress.CalculateNavigationProgress | scripts/progress.js:1-64 | the nested-loop engine computes exactly `NavigationProgress` |
| Progress.ScanLegsFindsFirstNearest | scripts/progress.js:15-43 | after the inner loop, the kept leg is the first nearest candidate so far, and the offset is the sum of the legs' contributions |
| Progress.ScanSegmentsFindsFirstNearest | scripts/progress.js:11-46 | after the outer loop, the kept leg is the first nearest candidate over all segments, and the offset is the sum of the segments' advances |
| Progress.ProgressPresence | scripts/progress.js:2-48 | a snapshot exists exactly when a plan, a position and a segment are present and some leg has coordinates at both ends |
| Progress.ProgressPicksFirstNearestLeg | scripts/progress.js:26 | the snapshot names a leg with coordinates that no candidate beats; every earlier candidate is strictly farther, so ties go to the earliest leg |
| Progress.ProgressTravelledIsOffsetSum | scripts/progress.js:45-52 | travelled is the advance of the earlier segments, plus the contributions of the earlier legs in the winning segment, plus the covered part of the winning leg |
| Progress.ProgressBounds | scripts/progress.js:53-54 | remaining is the total minus travelled, floored at 0; the ratio lies in [0, 1], is 0 for a non-positive total, and is travelled / total when in range; for a positive total it is 1 when travelled exceeds the total and 0 when travelled is negative |
| Routing.Picked | scripts/routing.js:50-51 | a result contributes its first route, or nothing when it has none |
| Routing.FirstRoutes | scripts/routing.js:49-51 | never more routes than results |
| Routing.NormalizeRoutes | scripts/routing.js:46-52 | no routes for a missing input; one result is treated as a one-element list; a list gives the first routes of its results |
| Routing.FirstRoutesAppend | scripts/routing.js:49-51 | route selection distributes over concatenation of the result lists |
| Routing.FirstRoutesMembers | scripts/routing.js:49-51 | a route is selected exactly when it is the first route of some result |
| Routing.FirstRoutesSingle | scripts/routing.js:48 | a single result gives its first route, or nothing |
| Routing.AllLegsEmpty | scripts/routing.js:8-9 | the flat leg list is empty exactly when every route has no legs |
| Routing.SumValuesAppend | scripts/routing.js:11-12 | leg totals add up over concatenation |
| Routing.LegTexts | scripts/routing.js:55-57 | at most one text per leg, and none of them empty |
| Routing.LegTextsAppend | scripts/routing.js:55-57 | text collection distributes over concatenation |
| Routing.CombineLegText | scripts/routing.js:54-61 | never empty: "--" without texts, the single text alone, otherwise the texts joined with " + " |
| Routing.CombineLegTextAppend | scripts/routing.js:54-61 | the combined text of two leg lists with texts is their combined texts joined with " + " |
| Routing.FindNonWalking | scripts/routing.js:65 | a found step is one of the steps and is not walking; nothing is found exactly when every step is walking |
| Routing.PrimaryStep | scripts/routing.js:64-65 | there is no primary step exactly when the leg has no steps |
| Routing.FindNonWalkingAt | scripts/routing.js:65 | the search returns the first non-walking step |
| Routing.FindNonWalkingNone | scripts/routing.js:65 | the search finds nothing when every step is walking |
| Routing.PrimaryStepIsFirstNonWalking | scripts/routing.js:65 | the primary step is the first step that is not walking |
| Routing.PrimaryStepAllWalking | scripts/routing.js:65 | when every step is walking, the primary step is the first step |
| Routing.DescribeStep | scripts/routing.js:81-89 | the label is "정보 없음" without a step and "도보" for walking; a line with a short name is labelled `short (name)`, with "undefined" for a missing name, and a line without one is labelled with its name; without a line it is the travel mode or "이동"; it is missing exactly for a line with neither a short name nor a name |
| Routing.TransitClauses | scripts/routing.js:98-106 | at most three clauses, none of them empty |
| Routing.SummarizeTransitDetails | scripts/routing.js:91-112 | nothing without a step; the instructions for a walking or non-transit step; for a transit step, the present clauses joined with " / " in source order, empty exactly when no clause applies |
| Routing.TransitDetailsAllClauses | scripts/routing.js:96-108 | a transit step with both stops, a stop count and both times gives the stop pair, the stop count and the times, separated by " / " |
| Routing.TransitDetailsTimesOnly | scripts/routing.js:96-108 | a transit step with only its two times gives the time clause alone, with no separator |
| Routing.NormalizeLeg | scripts/routing.js:63-78 | the addresses and locations are copied; each text is the leg's text or "--", each value the leg's value or 0; the mode label and details describe the primary step |
| Routing.NormalizeLegs | scripts/routing.js:31 | one normalised leg per leg, in order |
| Routing.LabelForStop | scripts/routing.js:114-117 | the stop's label, else its address, else the fallback; the fallback for a missing stop |
| Routing.ColorFor | scripts/routing.js:18 | the supplied colour when there is one, otherwise the palette colour of that index |
| Routing.BuildRoutePlan | scripts/routing.js:4-44 | a plan exists exactly when the selected routes have a leg; it has one segment per route and one flat leg per leg, and the last route's arrival time |
| Routing.PlanPresence | scripts/routing.js:5-9 | a plan exists exactly when some selected route has a leg |
| Routing.SegmentSumIsLegSum | scripts/routing.js:20-21 | summing the segment totals gives the sum over all legs |
| Routing.SegmentLegsAreAllLegs | scripts/routing.js:31 | the segments' legs, laid end to end, are the normalised flat leg list |
| Routing.NormalizeLegsAppend | scripts/routing.js:31 | normalising distributes over concatenation of leg lists |
| Routing.NormalizedSumIsLegSum | scripts/routing.js:73-75 | normalising keeps the legs' value sums |
| Routing.PlanSegments | scripts/routing.js:14-33 | segment `i` summarises route `i` |
| Routing.PlanTotals | scripts/routing.js:11-12 | the whole-trip totals equal both the sums of the segment totals and the sums of the normalised legs |
| Routing.SumValues | scripts/routing.js:11-12 | a sum of non-negative leg values is non-negative |
| Routing.SummarizeSegment | scripts/routing.js:14-33 | one normalised leg per route leg, in order; non-empty texts; the supplied colour, else a palette colour; the from label is stop `index`'s label and the to label stop `index + 1`'s, each with its origin, waypoint or destination fallback |
| Routing.SegmentTotals | scripts/routing.js:20-21 | each segment's totals are the sums of its own normalised legs |
| Routing.PlanLegsAreSegmentLegs | scripts/routing.js:42 | the flat leg list is the segments' legs laid end to end |
| Routing.SegmentsChain | scripts/routing.js:25-26 | segment `i` ends with the label segment `i + 1` starts with, unless the stop between them has neither label nor address and is second to last |
| Routing.RouteTexts | scripts/routing.js:27-28 | one combined text per route |
| Routing.CombineAllLegs | scripts/routing.js:38-39 | when every route has a leg text, the text over all legs is the routes' combined texts joined with " + " |
| Routing.SegmentTextsAreRouteTexts | scripts/routing.js:27-28 | segment `k` carries the combined text of route `k` |
| Routing.PlanTextsJoinSegmentTexts | scripts/routing.js:38-39 | when every segment has a leg text, the whole-trip text is the segments' texts joined with " + " |
| State.AddListener | scripts/state.js:30 | the listener is present afterwards, no other listener is added, a known listener changes nothing, and listeners stay distinct |
| State.RemoveListener | scripts/state.js:31 | exactly that listener is gone, the others remain, and listeners stay distinct |
| State.AddListenerIdempotent | scripts/state.js:30 | adding a listener twice is adding it once |
| State.UnsubscribeUndoesSubscribe | scripts/state.js:29-32 | the unsubscribe function restores the listeners from before a new subscription |
| State.NotifyAll | scripts/state.js:36 | one call per listener, in order, each with the same snapshot |
| State.Store.constructor | scripts/state.js:2-16 | the initial record and no listeners |
| State.Store.GetState | scripts/state.js:18-27 | the result is a copy of the record |
| State.Store.Subscribe | scripts/state.js:29-30 | the listener is added and the record is untouched |
| State.Store.Unsubscribe | scripts/state.js:31 | the listener is removed and the record is untouched |
| State.Store.UpdateState | scripts/state.js:34-37 | the new record is the mutation of the old; then every listener is called once, in order, with a snapshot of the new record; the listeners are unchanged |
| State.Store.ResetState | scripts/state.js:39-52 | the record is back to its initial value and every listener receives it |
| State.ResetDraft | scripts/state.js:40-52 | the reset mutation gives the initial state whatever the draft |
| Navigation.MarkerLabelForIndex | scripts/main.js:346-350 | "출발" for the first stop, "도착" for the last, "경유 N" for waypoint `N` |
| Navigation.MarkerLabelsDistinct | scripts/main.js:346-350 | different stops get different marker labels |
| Navigation.StopListShape | scripts/main.js:352-358 | the stop list is the present origin, then the waypoints in order, then the present destination |
| Navigation.BuildStopList | scripts/main.js:352-358 | the push loop produces exactly that stop list |
| Navigation.ExtractDirectionsInput | scripts/main.js:360-365 | coordinates first, then a non-empty place id, then the address, then the label; nothing exactly for a missing stop or one with none of them |
| Navigation.ResetNavigationDraft | scripts/main.js:331-338 | navigation becomes inactive with every field cleared, and nothing else changes |
| Navigation.StopForPlace | scripts/main.js:370 | a selected place is labelled with its name, else its address, and keeps its address, place id and location |
| Navigation.AppendWaypointDraft | scripts/main.js:104-107 | the stop is appended after the unchanged waypoints, navigation is reset, and nothing else changes |
| Navigation.RemoveAt | scripts/main.js:186 | the entry at a valid index is dropped and the rest keep their order; any other index changes nothing |
| Navigation.RemoveAtMultiset | scripts/main.js:186 | removing keeps every other entry: the removed one plus the rest is the original multiset |
| Navigation.SwapAdjacent | scripts/main.js:194 | the two neighbours trade places, every other entry stays, and the multiset is kept |
| Navigation.SwapAdjacentTwice | scripts/main.js:204 | swapping the same neighbours twice restores the list |
| Navigation.RemoveWaypointDraft | scripts/main.js:185-189 | the waypoint is removed, navigation is reset, and nothing else changes |
| Navigation.MoveUpDraft | scripts/main.js:190-198 | the first waypoint changes nothing; any other swaps with its predecessor and navigation is reset; the waypoints stay a permutation |
| Navigation.MoveDownDraft | scripts/main.js:199-208 | the last waypoint changes nothing; any other swaps with its successor and navigation is reset; the waypoints stay a permutation |
| Navigation.MoveDownUndoesMoveUp | scripts/main.js:190-208 | moving a waypoint up and then back down restores the order |
| Navigation.SubmitDraft | scripts/main.js:91-95 | typed endpoints fill only the empty ends, navigation is reset, and waypoints and plan are kept |
| Navigation.StartNavigation | scripts/main.js:142-148 | active since `now`, with no position, update time or error |
| Navigation.ExitNavigation | scripts/main.js:154-158 | inactive with no position or update time; start time and error are kept |
| Navigation.TrackingError | scripts/main.js:274-277 | the error is recorded, navigation is inactive, and the rest is kept |
| Navigation.RecordPosition | scripts/main.js:265-269 | the position and its time are recorded, the error is cleared, and the active flag and start time are kept |
| Navigation.ClearPosition | scripts/main.js:288-293 | no stale position or update time is left; flag, start time and error are kept |
| Navigation.RestartIsClean | scripts/main.js:140-158 | starting after a failure or an exit gives the same state as a first start |
| Navigation.PlanViewOf | scripts/main.js:328 | the engine sees the plan's segments and legs one to one, with the plan's total distance |
| Navigation.ComputeProgress | scripts/main.js:326-329 | there is a progress snapshot only with a plan and a position |
| Navigation.ProgressNamesExistingLeg | scripts/main.js:314-316 | a progress snapshot always names a leg that exists in the stored plan |
| Navigation.AnnouncementText | scripts/main.js:321 | the message is "다음 안내: " and the leg's mode label ("undefined" when missing), followed by " · " and the details when they are truthy and by nothing otherwise |
| Navigation.AnnouncementFor | scripts/main.js:308-324 | an announcement is made exactly while navigating with progress, after the cool-down, for an existing leg, within 30 m; it is that leg's text |
| Navigation.AnnouncementsAreSpaced | scripts/main.js:312 | no announcement within the cool-down after the previous one |
| Navigation.HighlightFor | scripts/main.js:297-306 | a highlight is made exactly while navigating with progress and a non-empty plan, when the nearest segment differs from the last one; it is that segment |
| Navigation.HighlightOnlyOnChange | scripts/main.js:301-303 | the segment just highlighted is not highlighted again |
| Navigation.RequestResults | scripts/main.js:227-240 | on success, one result per stop pair and each present |
| Navigation.RequestFailureIsFinal | scripts/main.js:230-231 | a failure on some pair means failure for every longer prefix of pairs |
| Navigation.RequestResultsAllSucceed | scripts/main.js:227-240 | all requests succeed exactly when every pair has usable end points and gets a result |
| Navigation.RequestAll | scripts/main.js:226-240 | the request loop computes exactly `RequestResults` over all stop pairs |
| Navigation.Controller.constructor | scripts/main.js:28-32 | no toast yet, no segment highlighted, no watch running |
| Navigation.Controller.AddWaypointClicked | scripts/main.js:100-110 | blank input changes nothing; otherwise the trimmed text is appended as a stop, navigation is reset, and listeners are notified |
| Navigation.Controller.WaypointSelected | scripts/main.js:375-381 | the selected place is appended as a stop and navigation is reset |
| Navigation.Controller.EndpointSelected | scripts/main.js:367-373 | the selected place replaces the origin or destination and navigation is reset |
| Navigation.Controller.RemoveWaypointClicked | scripts/main.js:184-189 | the state becomes `RemoveWaypointDraft` of the old state and listeners are notified |
| Navigation.Controller.MoveWaypointUpClicked | scripts/main.js:190-198 | the state becomes `MoveUpDraft` of the old state and listeners are notified, even for the first waypoint |
| Navigation.Controller.MoveWaypointDownClicked | scripts/main.js:199-208 | the state becomes `MoveDownDraft` of the old state and listeners are notified, even for the last waypoint |
| Navigation.Controller.ClearClicked | scripts/main.js:119-128 | the store is back to its initial state and no segment counts as highlighted |
| Navigation.Controller.SummarySegmentClicked | scripts/main.js:130-138 | the clicked segment becomes the last highlighted one |
| Navigation.Controller.StartNavigationClicked | scripts/main.js:140-151 | only the navigation part changes, to `StartNavigation` at `now` |
| Navigation.Controller.ExitNavigationClicked | scripts/main.js:153-161 | only the navigation part changes, to `ExitNavigation` |
| Navigation.Controller.PositionReceived | scripts/main.js:264-271 | only the navigation part changes, recording the sample |
| Navigation.Controller.TrackingFailed | scripts/main.js:272-279 | only the navigation part changes: the error is recorded and navigation stops |
| Navigation.StaleCheckMatchesCleanup | scripts/main.js:288-293 | for inactive navigation, a stale position is changed by the clean-up and is no longer stale afterwards; a record that is not stale has nothing to clear, unless its update time is 0 |
| Navigation.Controller.ManageNavigationTracking | scripts/main.js:260-295 | a watch runs exactly while the state is navigating; a stale position is cleared, and the store is otherwise untouched |
| Navigation.Controller.ApplyNavigationHighlight | scripts/main.js:297-306 | highlights as `HighlightFor` decides and remembers the highlighted segment |
| Navigation.Controller.MaybeAnnounceNextStep | scripts/main.js:308-324 | announces as `AnnouncementFor` decides and records the time only when it announced |
| Navigation.CalculatedPlan | scripts/main.js:220-258 | nothing is published without the maps library or with fewer than two stops; a published plan has at most one segment per stop pair |
| Navigation.CalculatedPlanAllOrNothing | scripts/main.js:221-240 | a plan is published exactly when the maps library is loaded, there are two or more stops, and every stop pair has usable ends and a result |
| Navigation.Controller.CalculateRoute | scripts/main.js:220-258 | when the maps library is loaded, there are two or more stops and every request succeeds, only the route plan changes, to the plan built from the results, and the highlight is forgotten; otherwise nothing changes |
| Navigation.Controller.FormSubmitted | scripts/main.js:85-98 | a blank endpoint changes nothing, notifies nobody and keeps the highlight; otherwise the submitted draft is stored and notified, the timer is zeroed, and the route calculation runs on it, notifying again and forgetting the highlight when it publishes a plan |
| Navigation.Controller.OnStateChange | scripts/main.js:38-44 | the watch follows the state and a stale position is cleared from the store, with one notification round, while any other state leaves the store untouched; progress, highlight and announcement are the decisions for the latest state; the remembered segment changes only on a highlight and the announcement time only on an announcement |
| InjectEnv.DropCarriageReturn | tools/inject-env.js:18 | exactly one trailing carriage return is dropped when the line ends in one; any other line is unchanged |
| InjectEnv.Lines | tools/inject-env.js:18 | one line per part of the split on line feeds, none containing a line feed; the last line is the last part, and each earlier line is its part with a carriage return at its end dropped, so a CR LF break leaves no carriage return behind |
| InjectEnv.CrLfEndsLine | tools/inject-env.js:18 | the first line of text whose first break is CR LF is the text before the carriage return |
| InjectEnv.SplitPartsWithin | tools/inject-env.js:18 | every character of a split part occurs in the split text |
| InjectEnv.LinesRejoin | tools/inject-env.js:18 | for text without carriage returns, the lines joined with line feeds give the text back |
| InjectEnv.ParseLine | tools/inject-env.js:22-23 | the key and the value have no whitespace left at either end |
| InjectEnv.ParseLineAtFirstEquals | tools/inject-env.js:22-23 | the key is the trimmed text before the first `=`, the value the trimmed text after it, further `=` included |
| InjectEnv.ParseLineWithoutEquals | tools/inject-env.js:22-23 | without `=`, the trimmed line is the key and the value is empty |
| InjectEnv.Entries | tools/inject-env.js:19-24 | every entry the trim, filter and parse pipeline yields has a trimmed key and a trimmed value |
| InjectEnv.EntriesOfOneLine | tools/inject-env.js:19-20 | a blank or `#` line contributes nothing; any other line contributes its parse |
| InjectEnv.EntriesAppend | tools/inject-env.js:17-24 | lines are processed independently and in order |
| InjectEnv.FromEntries | tools/inject-env.js:16 | a key is defined exactly when some entry has it |
| InjectEnv.FromEntriesLastWins | tools/inject-env.js:16-25 | a key's value is the value of its last entry |
| InjectEnv.FromEntriesTrimmed | tools/inject-env.js:16-25 | trimmed entries give an object whose names and values are all trimmed |
| InjectEnv.ParseEnv | tools/inject-env.js:16-25 | a variable is defined exactly when some significant line defines it; every name and value is trimmed |
| InjectEnv.ApiKey | tools/inject-env.js:27-31 | a key exists exactly when the variable is present and non-empty, and it is that value |
| InjectEnv.QuoteEnd | tools/inject-env.js:44 | the content runs to the first quote, or to the end of the text |
| InjectEnv.FindTag | tools/inject-env.js:43-46 | the leftmost position where the placeholder pattern matches, or none when it matches nowhere |
| InjectEnv.FindTagFirst | tools/inject-env.js:44 | a match with no earlier match is the one found |
| InjectEnv.InjectApiKey | tools/inject-env.js:43-46 | a template without a placeholder is unchanged |
| InjectEnv.InjectedKeyReadsBack | tools/inject-env.js:43-46 | for a key without quotes, the first placeholder stays at the same place and now holds the key; the text before it and the text after it are unchanged |

## Left out

- Floating-point arithmetic. The progress engine works over `real`, so NaN, infinities and rounding are not modelled. Float `||` and `??` fallbacks are modelled as "missing or zero" and "missing".
- Progress.ProjectPointMetrics: `toCartesian` and `Math.sqrt` are parameters, so the contract states ranges and the zero-length case only, not metres on the Earth.
- `toJSON` on leg locations is not modelled. The locations are taken as already-plain values.
- Leg and segment sums are over integers, not floating-point numbers. `num_stops` is an integer.
- JavaScript `null` and `undefined` are one `None`. Where a template literal renders a missing value, the model renders "undefined".
- Re-entrant updates are not modelled. Listeners are not invoked by the store, so an update made from inside a listener is not interleaved with the notification loop.
- Listener identity is a number, not a function reference.
- State.Store.GetState: `getState` copies the record only one level deep, so the route plan's segments and legs, the stops' location objects and the current position stay shared with the store; a caller that mutated them would change the store. Snapshots here are values, so that aliasing is not captured. No modelled code mutates a snapshot.
- `calculateRoute` is modelled as atomic. Its requests are awaited one after another, and state changes between them are not modelled.
- Navigation.Controller.CalculateRoute: the marker labels added to the stops before building the plan are left out. Building the plan never reads them.
- Navigation.Controller.SummarySegmentClicked: the `Number.isFinite` check on the button's data attribute is not modelled. The index is an integer parameter.
- The DOM, map rendering, toasts, alerts, view-mode switching and the SDK loader are left out. So are the position watch itself and the other browser APIs; only their effects on the state are modelled. The maps handle is a `mapsLoaded` flag.
- Other scripts (API client, autocomplete, UI rendering, summary and status panels, toast, config) are not part of this model.
- InjectEnv.InjectApiKey: `$` patterns in the key are not modelled. `String.prototype.replace` would interpret them, but the model inserts the key literally.
- InjectEnv.FromEntries: `__proto__` and other keys special to JavaScript objects are not modelled.
- The build step's file I/O is left out: the existence checks, reading and writing files, `process.exit` and copying the static assets. Only the parsing, the key check and the substitution are modelled.
