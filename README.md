# Directions panel: formatters, engine choice and route coordination

This project models the core of the directions panel of the OpenStreetMap
website (`app/assets/javascripts/index/directions.js`). The panel has two route
endpoints, origin and destination. Each endpoint is backed by a text input, is
geocoded through a lookup service, and can be dragged on the map. The panel
asks a pluggable routing engine for a route and shows its length, its duration
and turn-by-turn distances.

The model has three parts.

- **Formatters** (module `Format`, on top of `Text`). `formatTime`,
  `formatDistance` and the coarser rounding of turn-by-turn step distances are
  pure functions. Numbers are exact reals. `Math.round` is `Round`: the nearest
  integer, with halves rounded up. JavaScript's printing of integral numbers is
  `IntToString`/`NatToString`. `toFixed(1)` is `Fixed1`. The imperial unit names
  and sizes come from translations, so they are a parameter (`Imperial`).
- **Engines** (module `Engines`). `addEngine` appends to the shared list
  (class `Registry`). `setEngine` chooses the last engine with a given id
  (`LastIndexOf`).
- **Coordination** (modules `RouteState` and `Directions`). The per-endpoint
  flags `value`, `latlng`, `hasGeocode` and `awaitingGeocode` and the panel
  flags `awaitingGeocode`, `awaitingRoute`, `dragging` and `chosenEngine` form a
  state. Each event handler is a function on that state in `RouteState`, with
  lemmas about when a geocode is requested, when a route is requested and when
  a pending route resumes. In `Directions` the same handlers are methods of the
  classes `Endpoint` and `Directions`. They update fields in place, as the
  source does, and each is proved to follow its `RouteState` function.

The network is represented by a request log (`Request`: geocode lookups,
aborts, URL replacements, route requests) and by counts of geocode lookups
still unanswered. A reply can only arrive while a request is outstanding. At
most one route request is outstanding, and it is outstanding exactly while
`awaitingRoute` is set: `getRoute` first aborts the request in progress, and
the abort of a jQuery request runs that request's error callback before it
returns. So the callback's error branch (clear `awaitingRoute`, remove the
route line) happens inside `getRoute`, ahead of any new request. "The route
line is on the map" (`map.hasLayer(polyline)`) is the flag `polylineShown`. It
is set by a successful reply. It is cleared by an error reply (including the
one an abort runs), by closing the route, or by leaving the directions page
(`page.unload`). The
route parameter `lat,lng;lat,lng` and its parsing on page load are modelled on
text fields in module `RouteQuery`.

Where the source reads a property of an undefined `chosenEngine`, it throws,
and that ends the handler. The model stops the handler at that point too: the
drag handler at line 50 and `getRoute` at line 207.

## Model

The operations themselves are the functions `Format.FormatTime`,
`Format.FormatDistance`, `Format.StepDistance`, `Format.MatchStep`,
`Text.ParseNat`, `RouteQuery.RouteParam`, `RouteQuery.ParseRoute` and the
event functions of `RouteState` (`GetRoute`, `GeocodeReply`, `RouteReply`,
`Drag`, `Drop`, `SetValue`, `SetEngine`, `SelectEngine`, `Unload`, `Step`).
Where such a function only computes, its properties are stated by the lemmas
in the table rather than by its own contract.

| member | source | states |
|---|---|---|
| `Format.Round` | app/assets/javascripts/index/directions.js:165 | `Math.round(x)` is the integer n with n - 0.5 <= x < n + 0.5 (halves go up) |
| `Format.RoundUnique` | app/assets/javascripts/index/directions.js:165 | only one integer satisfies Round's bound, so that bound characterises `Math.round` |
| `Text.NatToString` | app/assets/javascripts/index/directions.js:168 | a non-negative integer prints as a non-empty digit string without a leading zero; it has one digit exactly below 10, and it reads back as the number |
| `Text.NatToStringCanonical` | app/assets/javascripts/index/directions.js:168 | conversely, every digit string without a superfluous leading zero is what the number it denotes prints as |
| `Text.IntToString` | app/assets/javascripts/index/directions.js:156 | an integer prints as digits with an optional minus sign; a non-negative one prints as NatToString does |
| `Text.IntToStringRoundTrip` | app/assets/javascripts/index/directions.js:156 | the printed integer parses back to itself |
| `Text.NatToStringRoundTrip` | app/assets/javascripts/index/directions.js:270 | `parseInt` of a printed non-negative integer gives it back |
| `Text.ParseNatCanonical` | app/assets/javascripts/index/directions.js:270 | conversely, `parseInt` of a digit string without a superfluous leading zero gives the number that prints as that string |
| `Format.MinuteField` | app/assets/javascripts/index/directions.js:168 | the minute field is exactly two digits and denotes the minutes (a '0' before a single digit) |
| `Format.ClockText` | app/assets/javascripts/index/directions.js:168 | "h:mm" has a single ':' and two minute digits, reads back as h*60 + mm, and its hours field parses back to h |
| `Format.FormatTime` | app/assets/javascripts/index/directions.js:164-169 | the text is hours, a single ':', then exactly two digits; it reads back as h*60 + mm = round(s/60) with mm in 0..59, and the hours field is printed as `String` prints it |
| `Format.Fixed1` | app/assets/javascripts/index/directions.js:158 | `toFixed(1)` shows one '.' and one digit after it; the tenths shown are within 0.05 of the number (halves go up); the whole part is printed without a superfluous leading zero |
| `Format.FormatDistanceKm` | app/assets/javascripts/index/directions.js:148-161 | in km mode: below 1000 m, rounded metres and "m"; from 1000 to below 10000, km to one decimal and "km"; otherwise rounded km and "km" |
| `Format.FormatDistanceImperial` | app/assets/javascripts/index/directions.js:149-161 | any setting other than "km" uses the imperial units; the sub-unit is used below 0.2 of the unit size, one decimal below 10 units, whole units beyond |
| `Format.ImperialSubunitReadBack` | app/assets/javascripts/index/directions.js:153-156 | below 0.2 of the unit, the imperial text reads back in sub-units to within half a sub-unit |
| `Format.ImperialTenthsReadBack` | app/assets/javascripts/index/directions.js:157-158 | from 0.2 to below 10 units, it reads back in units to within a twentieth of a unit |
| `Format.ImperialUnitsReadBack` | app/assets/javascripts/index/directions.js:159-160 | from 10 units on, it reads back in units to within half a unit |
| `Format.FormatDistanceKmReadBack` | app/assets/javascripts/index/directions.js:148-161 | a metric distance text reads back as the distance to within half its last shown place: 0.5 m, 50 m or 500 m by range |
| `Format.StepUnitOf` | app/assets/javascripts/index/directions.js:268 | the unit the regular expression captures is found from the end of the string |
| `Format.MatchStepIsRegex` | app/assets/javascripts/index/directions.js:268 | MatchStep returns a split exactly when the string is a non-empty digit run followed by yds, ft or m, and that split is the one it returns |
| `Format.StepRounding` | app/assets/javascripts/index/directions.js:274-278 | from 5 up to 199, the nearest multiple of 10 (within (d-5, d+5]); from 200 on, the nearest multiple of 100 (within (d-50, d+50]) |
| `Format.StepRoundingFixed` | app/assets/javascripts/index/directions.js:274-278 | a multiple of 10 below 200, or of 100 from 200 on, is left as it is |
| `Format.RoundedStepMatches` | app/assets/javascripts/index/directions.js:275-277 | a rounded step distance, number then unit, matches the regular expression again with the same unit |
| `Format.StepDistanceCases` | app/assets/javascripts/index/directions.js:267-279 | non-matching text passes unchanged; below 5 the text is blanked; otherwise the result matches again with the same unit, its number is printed without a leading zero, and it is the nearest multiple of 10 (below 200) or of 100 |
| `Format.StepDistanceIdempotent` | app/assets/javascripts/index/directions.js:267-279 | rounding a step distance twice gives the same text as rounding it once |
| `Format.KilometresPassThrough` | app/assets/javascripts/index/directions.js:268 | a distance in km such as "1.5km" or "12km" is never altered by the step rounding |
| `Engines.LastIndexOf` | app/assets/javascripts/index/directions.js:171-178 | the index found has the id and no later engine has it; none is found exactly when no engine has the id |
| `Engines.Registry.constructor` | app/assets/javascripts/index/directions.js:420 | the shared engine list starts empty, with no calls made |
| `Engines.Registry.AddEngine` | app/assets/javascripts/index/directions.js:422-426 | the engine is appended at the end when the page's protocol is "http:" or the engine supports HTTPS; otherwise the list is unchanged; the list stays equal to `Registered` of all calls made so far |
| `Engines.Registered` | app/assets/javascripts/index/directions.js:422-426 | a series of addEngine calls never yields more engines than calls |
| `Engines.RegisteredAppends` | app/assets/javascripts/index/directions.js:422-426 | later registrations only append: entries are never reordered or removed |
| `Engines.RegisteredMembers` | app/assets/javascripts/index/directions.js:422-426 | an engine is listed exactly when some call registered it and the protocol admitted it |
| `RouteQuery.Split` | app/assets/javascripts/index/directions.js:385-387 | `split` always yields at least one piece |
| `RouteQuery.SplitWithout` | app/assets/javascripts/index/directions.js:385-387 | a string without the separator splits into itself |
| `RouteQuery.SplitAt` | app/assets/javascripts/index/directions.js:385-387 | splitting at the first separator yields the text before it, followed by the pieces of the rest |
| `RouteQuery.RouteParamRoundTrip` | app/assets/javascripts/index/directions.js:206-210 | the route parameter getRoute writes parses back on page load to the origin's latitude and longitude, then the destination's |
| `RouteState.GeocodeIfMissingEffect` | app/assets/javascripts/index/directions.js:186-192 | one turn of getRoute's loop: an endpoint neither geocoded nor waiting is looked up and the panel starts waiting; nothing else changes |
| `RouteState.GetRouteLookups` | app/assets/javascripts/index/directions.js:181-192 | getRoute's abort and loop in closed form: both endpoints looked at, their lookups logged origin first |
| `RouteState.GetRouteOrder` | app/assets/javascripts/index/directions.js:180-219 | getRoute sends, in order: the abort of the request in flight, the geocode lookups for endpoints neither geocoded nor waiting, then the URL and route request only when it gets that far |
| `RouteState.GetRouteFlags` | app/assets/javascripts/index/directions.js:180-219 | after getRoute the panel waits for a geocode iff it did, or some endpoint was or now is waiting; awaitingRoute is set iff a new route was requested (the old one was aborted and its error callback ran); the route line survives only if no request was outstanding; the engine choice is untouched |
| `RouteState.GetRouteEndpoints` | app/assets/javascripts/index/directions.js:186-192 | after getRoute an endpoint waits iff it did or a lookup was just sent for it; its coordinate, geocode flag and text are untouched |
| `RouteState.RouteOnlyWhenReady` | app/assets/javascripts/index/directions.js:193-218 | a route request is the last thing sent, origin then destination, and only when both coordinates are known and no geocode is awaited; while one is awaited, the panel flag is set and no route is requested |
| `RouteState.RouteReadyUnderInv` | app/assets/javascripts/index/directions.js:188-201 | under the invariant, getRoute requests a route iff neither endpoint waits, both have a coordinate and an engine is chosen |
| `RouteState.ChooseEngineStep` | app/assets/javascripts/index/directions.js:172-177 | one turn of setEngine's forEach: a matching engine becomes the chosen and selected one, any other leaves the choice as it was |
| `RouteState.SetEngineChoosesLast` | app/assets/javascripts/index/directions.js:171-178 | setEngine chooses and selects the last engine with the id; with no such engine nothing changes; only the choice and selection ever change |
| `RouteState.SetValueEffects` | app/assets/javascripts/index/directions.js:64-83 | setValue stores the text and drops the old coordinate; a given coordinate becomes the geocode; otherwise a non-empty text is looked up and an empty one is not; the other endpoint is untouched |
| `RouteState.GeocodeReplyEffects` | app/assets/javascripts/index/directions.js:85-104 | a geocode reply always ends the wait and sets hasGeocode; only a non-empty reply sets the coordinate; with no result, or no pending route, nothing is sent and the panel flag is unchanged |
| `RouteState.GeocodeReplyResumesRoute` | app/assets/javascripts/index/directions.js:95-103 | when a route is pending and the lookup finds a place while the other endpoint is ready, the flag is cleared and the route through the found place is requested |
| `RouteState.DragGate` | app/assets/javascripts/index/directions.js:48-56 | dragging is recorded; during a drag the event is ignored unless the engine is draggable and no route is in flight; otherwise the endpoint moves, and with no route shown nothing is sent |
| `RouteState.DragReroutes` | app/assets/javascripts/index/directions.js:48-56 | moving a marker while a route is shown requests the route through the moved point |
| `RouteState.LeftPageStopsRerouting` | app/assets/javascripts/index/directions.js:405-415 | after the page is left no route line is shown, so a moved marker (line 53) or a newly selected engine (line 341) sends nothing |
| `RouteState.GetRouteAbortsFirst` | app/assets/javascripts/index/directions.js:181-222 | with a route outstanding, getRoute logs the abort first; the error callback the abort runs removes the route line; afterwards the panel waits for a route iff a new one is requested, and otherwise only lookups follow the abort |
| `RouteState.DragendDuringRequest` | app/assets/javascripts/index/directions.js:48-56 | a dragend while a route is drawn and outstanding aborts it and removes the line, so a further dragend before the new reply sends nothing |
| `RouteState.GetRoutePreservesInv` | app/assets/javascripts/index/directions.js:180-219 | getRoute keeps the invariant, keeps the engine list and only appends to the log |
| `RouteState.SetEnginePreservesInv` | app/assets/javascripts/index/directions.js:171-178 | setEngine keeps the invariant |
| `RouteState.SetValuePreservesInv` | app/assets/javascripts/index/directions.js:64-74 | setValue keeps the invariant |
| `RouteState.GeocodeReplyPreservesInv` | app/assets/javascripts/index/directions.js:85-104 | a geocode reply keeps the invariant |
| `RouteState.DragPreservesInv` | app/assets/javascripts/index/directions.js:48-56 | a drag event keeps the invariant |
| `RouteState.InputChangedPreservesInv` | app/assets/javascripts/index/directions.js:58-62 | the input's change handler keeps the invariant, the engine list, and only appends to the log |
| `RouteState.DropPreservesInv` | app/assets/javascripts/index/directions.js:372-382 | a dropped marker keeps the invariant, the engine list, and only appends to the log |
| `RouteState.SelectEnginePreservesInv` | app/assets/javascripts/index/directions.js:338-344 | selecting an engine keeps the invariant, the engine list, and only appends to the log |
| `RouteState.SetDistanceUnitsPreservesInv` | app/assets/javascripts/index/directions.js:141-146 | choosing units keeps the invariant, the engine list, and only appends to the log |
| `RouteState.SetBothValuesPreservesInv` | app/assets/javascripts/index/directions.js:393-394 | the page handler's two setValue calls keep the invariant and only append to the log |
| `RouteState.ShowPagePreservesInv` | app/assets/javascripts/index/directions.js:364-399 | showing the page for a URL keeps the invariant |
| `RouteState.InitialInv` | app/assets/javascripts/index/directions.js:318-336 | the panel starts in the invariant |
| `RouteState.StepPreservesInv` | app/assets/javascripts/index/directions.js:48-415 | every event keeps the invariant (coordinate implies geocoded, waiting implies a lookup outstanding, the chosen engine is the selected list entry); no event changes the engine list or takes back a request |
| `Directions.Endpoint.constructor` | app/assets/javascripts/index/directions.js:33-34 | a new endpoint has no text, no coordinate, no geocode and does not wait |
| `Directions.Endpoint.SetLatLng` | app/assets/javascripts/index/directions.js:107-115 | the coordinate is stored and the endpoint counts as geocoded |
| `Directions.Endpoint.GetGeocode` | app/assets/javascripts/index/directions.js:76-85 | with an empty value nothing happens; otherwise the endpoint waits and returns the lookup it sent |
| `Directions.Endpoint.SetValue` | app/assets/javascripts/index/directions.js:64-74 | follows RouteState.EndpointSetValue: text stored, coordinate dropped, then setLatLng or getGeocode |
| `Directions.Endpoint.ReceiveGeocode` | app/assets/javascripts/index/directions.js:85-98 | the wait ends, hasGeocode is set, the first result (if any) becomes the coordinate |
| `Directions.Directions.constructor` | app/assets/javascripts/index/directions.js:318-336 | fresh endpoints, all flags clear, and the engine named by the cookie (or "osrm_car") chosen |
| `Directions.Directions.SetEngine` | app/assets/javascripts/index/directions.js:171-178 | the forEach loop leaves the state RouteState.SetEngine describes: the last engine with the id chosen and selected |
| `Directions.Directions.GetGeocode` | app/assets/javascripts/index/directions.js:76-85 | endpoint.getGeocode with its lookup recorded in the log |
| `Directions.Directions.SetValue` | app/assets/javascripts/index/directions.js:58-74 | the input's change handler and setValue, as RouteState.SetValue |
| `Directions.Directions.GetRoute` | app/assets/javascripts/index/directions.js:180-219 | the abort with its error callback, the two-endpoint loop and the route request leave the state RouteState.GetRoute describes |
| `Directions.Directions.GeocodeReply` | app/assets/javascripts/index/directions.js:85-104 | the reply handler, as RouteState.GeocodeReply |
| `Directions.Directions.RouteReply` | app/assets/javascripts/index/directions.js:218-233 | the engine's callback for the outstanding request clears awaitingRoute on error and on success; the route line is shown on success and removed on error |
| `Directions.Directions.Drag` | app/assets/javascripts/index/directions.js:48-56 | the drag/dragend handler, as RouteState.Drag |
| `Directions.Directions.Drop` | app/assets/javascripts/index/directions.js:372-382 | a dropped marker sets the endpoint's coordinate, then getRoute runs |
| `Directions.Directions.SelectEngine` | app/assets/javascripts/index/directions.js:338-344 | the chosen engine is the selected list entry; a shown route is recomputed |
| `Directions.Directions.SetDistanceUnits` | app/assets/javascripts/index/directions.js:141-146 | the units are stored, then getRoute runs |
| `Directions.Directions.CloseRoute` | app/assets/javascripts/index/directions.js:308-314 | closing a shown route removes the route line |
| `Directions.Directions.Unload` | app/assets/javascripts/index/directions.js:405-415 | leaving the page takes the route line off the map, as RouteState.Unload |
| `Directions.Directions.ShowPage` | app/assets/javascripts/index/directions.js:364-399 | the engine parameter (if any) is chosen, both endpoints are set, then getRoute runs |

## Left out

- DOM and HTML: building the sidebar, the summary, the table rows, hover and click on rows, the loader, `$("header")` and `setSidebarOverlaid` (lines 202, 215-216, 235-314). These are UI rendering. Ascent and descent are printed with `Math.round`, as in `Round`.
- Leaflet: markers, popups, `fitBounds`, highlighting and `containerPointToLatLng`. These are calls into the map library. Only "route line shown" is kept, as `polylineShown`.
- Network calls (`$.getJSON` to Nominatim, `chosenEngine.getRoute`): they become entries in the request log, and their answers become reply events. A lookup is logged by its text only. The Nominatim URL and `encodeURIComponent` are not modelled. The engines' own request code is not part of this model: each engine is taken to return the jQuery request and to call back with an error when it is aborted, as jQuery does at once inside `abort()`. A reply to the outstanding request may come at any later point.
- `alert`, cookies, `OSM.router` navigation and the querystring library, apart from the shape of the route parameter. HTML5 drag-and-drop `dataTransfer` and the mouse-position arithmetic of a drop (lines 351-382) are also left out. These are browser APIs. The close handler (lines 131-139) and the reverse-directions handler (lines 120-129) only navigate, so they are not modelled. The reverse handler swaps the two texts but keeps the coordinates in from;to order.
- Sorting the engines by their translated names (lines 320-324), and the drop-down's option labels. These depend on the locale. The panel takes the engine list in the order the sort left it.
- Printing coordinates with `toFixed(precision)` and `OSM.zoomPrecision`. Coordinates stay abstract (`LatLng`), and the route parameter is modelled over already-printed fields.
- Floating point: distances, times and coordinates are exact reals. `Math.round`, `/` and `toFixed(1)` are exact. Exponent notation for huge numbers is not modelled. `formatDistance` uses `toFixed` only on values below 10.
- Leaving and re-showing the page: `page.unload` also hides the form and takes the markers and popup off the map, and it detaches the map's drop handlers, which every showing attaches again. Only the route line is modelled. Marker drags and drops stay possible events in every state.
- FormatDistance: requires positive imperial unit sizes. They are translation constants, and a zero size would print "Infinity" or "NaN", which is not modelled.
- Directions.Directions.GeocodeReply, Directions.Directions.RouteReply: each requires a request of that kind to be outstanding (for a route, `awaitingRoute`). This is the network model's assumption, not something the panel checks.
- Directions.Directions.SelectEngine: requires the index to be one the drop-down offers.
