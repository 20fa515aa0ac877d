/**
 * The coordination state of the directions panel as a value: the two
 * endpoints (origin, destination), the panel's flags, the engine choice, and
 * the requests sent to the network so far.  Each event handler of the panel
 * is a function from the state before to the state after; the classes in
 * module Directions are proved to follow these functions.
 *
 * The network is modelled by the request log and by counts of requests whose
 * reply has not arrived yet: a reply event is only possible while one is
 * outstanding.  An aborted route request still replies (with an error).
 */
module RouteState {
  import opened Wrappers
  import opened Engines

  /** A map coordinate; its printing is not modelled. */
  datatype LatLng = LatLng(lat: real, lng: real)

  /**
   * One endpoint: the text of its input, its coordinate if known, whether it
   * has been geocoded or is waiting for a geocode, and how many of its
   * geocode requests have not been answered yet.
   */
  datatype EndpointState = EndpointState(
    value: string,
    latlng: Option<LatLng>,
    hasGeocode: bool,
    awaitingGeocode: bool,
    geocodesInFlight: nat)

  const InitialEndpoint := EndpointState("", None, false, false, 0)

  /** 0 is the origin ("route_from"), 1 the destination ("route_to"). */
  type EndpointIndex = i: int | 0 <= i < 2

  type EndpointPair = s: seq<EndpointState> | |s| == 2
    witness [EndpointState("", None, false, false, 0), EndpointState("", None, false, false, 0)]

  /** What the panel sends out: geocode lookups, aborts, URL replacements and route requests. */
  datatype Request =
    | GeocodeRequest(endpoint: EndpointIndex, query: string)
    | AbortRoute
    | ReplaceUrl(engine: string, origin: LatLng, destination: LatLng)
    | RouteRequest(engine: string, origin: LatLng, destination: LatLng)

  datatype State = State(
    endpoints: EndpointPair,
    awaitingGeocode: bool,   // a route was asked for, but a geocode is still outstanding
    awaitingRoute: bool,     // a route request is outstanding (at most one is: getRoute aborts the previous one)
    dragging: bool,          // a marker is being dragged
    polylineShown: bool,     // a route is drawn on the map
    engines: seq<Engine>,
    chosenEngine: Option<Engine>,
    selectedIndex: int,      // the engine drop-down's selection
    distanceUnits: string,
    log: seq<Request>)

  // ------------------------------------------------------------ one endpoint

  /** endpoint.setLatLng: the coordinate is known, so the endpoint counts as geocoded. */
  function EndpointSetLatLng(e: EndpointState, ll: LatLng): EndpointState
  {
    e.(hasGeocode := true, latlng := Some(ll))
  }

  /** The lookup endpoint.getGeocode sends: none for an empty value. */
  function GeocodeQuery(e: EndpointState): Option<string>
  {
    if e.value == "" then None else Some(e.value)
  }

  /** endpoint.getGeocode: with a non-empty value, a lookup is sent and awaited. */
  function EndpointGetGeocode(e: EndpointState): EndpointState
  {
    if e.value == "" then e
    else e.(awaitingGeocode := true, geocodesInFlight := e.geocodesInFlight + 1)
  }

  /** endpoint.setValue: store the text, forget the coordinate, then take the given one or look it up. */
  function EndpointSetValue(e: EndpointState, value: string, latlng: Option<LatLng>): EndpointState
  {
    var cleared := e.(value := value, latlng := None);
    if latlng.Some? then EndpointSetLatLng(cleared, latlng.value) else EndpointGetGeocode(cleared)
  }

  /** The lookup endpoint.setValue sends. */
  function SetValueQuery(value: string, latlng: Option<LatLng>): Option<string>
  {
    if latlng.Some? || value == "" then None else Some(value)
  }

  /** The endpoint's part of a geocode reply: the first result, if any, becomes the coordinate. */
  function EndpointGeocoded(e: EndpointState, results: seq<LatLng>): EndpointState
    requires e.geocodesInFlight > 0
  {
    var answered := e.(awaitingGeocode := false, hasGeocode := true, geocodesInFlight := e.geocodesInFlight - 1);
    if results == [] then answered else answered.(latlng := Some(results[0]))
  }

  // ------------------------------------------------------- the whole panel

  function WithEndpoint(s: State, i: EndpointIndex, e: EndpointState): State
  {
    s.(endpoints := s.endpoints[i := e])
  }

  /** Log the geocode lookup an endpoint sent, if it sent one. */
  function Issue(s: State, i: EndpointIndex, query: Option<string>): State
  {
    if query.Some? then s.(log := s.log + [GeocodeRequest(i, query.value)]) else s
  }

  function GetGeocode(s: State, i: EndpointIndex): State
  {
    Issue(WithEndpoint(s, i, EndpointGetGeocode(s.endpoints[i])), i, GeocodeQuery(s.endpoints[i]))
  }

  function SetLatLng(s: State, i: EndpointIndex, ll: LatLng): State
  {
    WithEndpoint(s, i, EndpointSetLatLng(s.endpoints[i], ll))
  }

  function SetValue(s: State, i: EndpointIndex, value: string, latlng: Option<LatLng>): State
  {
    Issue(WithEndpoint(s, i, EndpointSetValue(s.endpoints[i], value, latlng)), i, SetValueQuery(value, latlng))
  }

  /**
   * getRoute, first step: abort the route request in progress, if any.  The
   * abort runs that request's error callback before it returns, so the
   * callback's error branch happens here, ahead of the new request.
   */
  function AbortInFlight(s: State): State
  {
    if s.awaitingRoute then RouteReply(s.(log := s.log + [AbortRoute]), false) else s
  }

  predicate NeedsGeocode(e: EndpointState) { !e.hasGeocode && !e.awaitingGeocode }

  /** getRoute, one turn of its loop: geocode an endpoint that is neither geocoded nor waiting. */
  function GeocodeIfMissing(s: State, i: EndpointIndex): State
  {
    if NeedsGeocode(s.endpoints[i]) then GetGeocode(s, i).(awaitingGeocode := true) else s
  }

  /** getRoute's loop after its first n turns. */
  function GeocodeMissing(s: State, n: nat): State
    requires n <= 2
  {
    if n == 0 then s else GeocodeIfMissing(GeocodeMissing(s, n - 1), n - 1)
  }

  predicate AnyAwaitingGeocode(s: State)
  {
    s.endpoints[0].awaitingGeocode || s.endpoints[1].awaitingGeocode
  }

  /**
   * getRoute, last step: wait for outstanding geocodes; with both
   * coordinates known (and an engine chosen) replace the URL and request the
   * route from origin to destination.
   */
  function RequestRoute(s: State): State
  {
    if AnyAwaitingGeocode(s) then s.(awaitingGeocode := true)
    else if s.endpoints[0].latlng.None? || s.endpoints[1].latlng.None? then s
    else if s.chosenEngine.None? then s  // `chosenEngine.id` throws: the handler stops here
    else
      var id := s.chosenEngine.value.id;
      var o := s.endpoints[0].latlng.value;
      var d := s.endpoints[1].latlng.value;
      s.(log := s.log + [ReplaceUrl(id, o, d), RouteRequest(id, o, d)],
         awaitingRoute := true)
  }

  function GetRoute(s: State): State
  {
    RequestRoute(GeocodeMissing(AbortInFlight(s), 2))
  }

  /** A geocode reply for endpoint i; a pending route request resumes if the lookup found a place. */
  function GeocodeReply(s: State, i: EndpointIndex, results: seq<LatLng>): State
    requires s.endpoints[i].geocodesInFlight > 0
  {
    var t := WithEndpoint(s, i, EndpointGeocoded(s.endpoints[i], results));
    if results == [] || !t.awaitingGeocode then t
    else GetRoute(t.(awaitingGeocode := false))
  }

  /** The engine's reply to the outstanding request: it is over; the route is drawn on success and removed on error. */
  function RouteReply(s: State, ok: bool): State
    requires s.awaitingRoute
  {
    s.(awaitingRoute := false, polylineShown := ok)
  }

  /** Whether a drag event is ignored: while dragging, only a draggable engine with no request in flight reroutes. */
  predicate DragIgnored(s: State, isDrag: bool)
  {
    isDrag && (s.chosenEngine.None? || !s.chosenEngine.value.draggable || s.awaitingRoute)
  }

  /** A marker's 'drag' (isDrag) or 'dragend' event. */
  function Drag(s: State, i: EndpointIndex, isDrag: bool, ll: LatLng): State
  {
    var s1 := s.(dragging := isDrag);
    if DragIgnored(s1, isDrag) then s1
    else
      var s2 := SetLatLng(s1, i, ll);
      if s2.polylineShown then GetRoute(s2) else s2
  }

  /** A routing marker dropped onto the map from the panel. */
  function Drop(s: State, i: EndpointIndex, ll: LatLng): State
  {
    GetRoute(SetLatLng(s, i, ll))
  }

  /** setEngine after looking at the first n engines of the list. */
  function ChooseEngine(s: State, id: string, n: nat): State
    requires n <= |s.engines|
  {
    match LastIndexOf(s.engines[..n], id)
    case None => s
    case Some(k) => s.(chosenEngine := Some(s.engines[k]), selectedIndex := k)
  }

  function SetEngine(s: State, id: string): State
  {
    ChooseEngine(s, id, |s.engines|)
  }

  /** One turn of setEngine's forEach: a matching engine becomes the choice, any other leaves it. */
  lemma ChooseEngineStep(s: State, id: string, i: nat)
    requires i < |s.engines|
    ensures ChooseEngine(s, id, i + 1)
      == if s.engines[i].id == id then s.(chosenEngine := Some(s.engines[i]), selectedIndex := i)
         else ChooseEngine(s, id, i)
  {
    assert s.engines[..i + 1][..i] == s.engines[..i];
  }

  /** The user picks engine k from the drop-down; a drawn route is recomputed with it. */
  function SelectEngine(s: State, k: nat): State
    requires k < |s.engines|
  {
    var t := s.(chosenEngine := Some(s.engines[k]), selectedIndex := k);
    if t.polylineShown then GetRoute(t) else t
  }

  function SetDistanceUnits(s: State, units: string): State
  {
    GetRoute(s.(distanceUnits := units))
  }

  /** The close link of a shown route removes the route line. */
  function CloseRoute(s: State): State
  {
    s.(polylineShown := false)
  }

  /** Leaving the directions page removes the route line (and the markers, which are not modelled). */
  function Unload(s: State): State
  {
    s.(polylineShown := false)
  }

  /**
   * The page is shown for a directions URL: the engine parameter (if not
   * empty), the two texts and the coordinates read from the route parameter.
   */
  function ShowPage(s: State, engine: string, from: string, to: string,
                    fromLatLng: Option<LatLng>, toLatLng: Option<LatLng>): State
  {
    var s1 := if engine != "" then SetEngine(s, engine) else s;
    GetRoute(SetValue(SetValue(s1, 0, from, fromLatLng), 1, to, toLatLng))
  }

  /** The panel after it is built: the engine from the cookie, or "osrm_car". */
  function Initial(engines: seq<Engine>, cookie: string): State
  {
    var s := State([InitialEndpoint, InitialEndpoint], false, false, false, false,
                   engines, None, 0, "km", []);
    SetEngine(s, if cookie == "" then "osrm_car" else cookie)
  }

  // ------------------------------------------------------------ properties

  /** After getRoute's loop an endpoint waits for a geocode if it already did or if a lookup was just sent. */
  predicate WillAwait(e: EndpointState)
  {
    e.awaitingGeocode || (NeedsGeocode(e) && e.value != "")
  }

  /** An endpoint after getRoute's loop has looked at it. */
  function Geocoded(e: EndpointState): EndpointState
  {
    if NeedsGeocode(e) then EndpointGetGeocode(e) else e
  }

  /** The lookup getRoute's loop sends for endpoint i, if any. */
  function Lookup(i: EndpointIndex, e: EndpointState): seq<Request>
  {
    if NeedsGeocode(e) && e.value != "" then [GeocodeRequest(i, e.value)] else []
  }

  /** The geocode lookups getRoute sends, origin first. */
  function GeocodeRequests(s: State): seq<Request>
  {
    Lookup(0, s.endpoints[0]) + Lookup(1, s.endpoints[1])
  }

  /** getRoute's first step leaves this in the log. */
  function Abort(s: State): seq<Request>
  {
    if s.awaitingRoute then [AbortRoute] else []
  }

  /** The state getRoute reaches after its abort and its loop, before it decides on a route. */
  function AfterLookups(s: State): State
  {
    s.(awaitingRoute := false,
       polylineShown := s.polylineShown && !s.awaitingRoute,
       endpoints := [Geocoded(s.endpoints[0]), Geocoded(s.endpoints[1])],
       awaitingGeocode := s.awaitingGeocode || NeedsGeocode(s.endpoints[0]) || NeedsGeocode(s.endpoints[1]),
       log := s.log + Abort(s) + GeocodeRequests(s))
  }

  lemma {:induction false} GeocodeIfMissingEffect(s: State, i: EndpointIndex)
    ensures GeocodeIfMissing(s, i)
      == s.(endpoints := s.endpoints[i := Geocoded(s.endpoints[i])],
            awaitingGeocode := s.awaitingGeocode || NeedsGeocode(s.endpoints[i]),
            log := s.log + Lookup(i, s.endpoints[i]))
  {
    if !NeedsGeocode(s.endpoints[i]) {
      assert s.endpoints[i := s.endpoints[i]] == s.endpoints;
      assert s.log + [] == s.log;
    }
  }

  /** getRoute's abort and loop, in closed form. */
  lemma {:induction false} GetRouteLookups(s: State)
    ensures GeocodeMissing(AbortInFlight(s), 2) == AfterLookups(s)
  {
    var a := AbortInFlight(s);
    assert a.log == s.log + Abort(s);
    assert GeocodeMissing(a, 1) == GeocodeIfMissing(a, 0);
    GeocodeIfMissingEffect(a, 0);
    var b := GeocodeIfMissing(a, 0);
    GeocodeIfMissingEffect(b, 1);
    assert b.endpoints[1] == s.endpoints[1];
    assert a.log + Lookup(0, s.endpoints[0]) + Lookup(1, s.endpoints[1]) == s.log + Abort(s) + GeocodeRequests(s);
    assert b.endpoints[1 := Geocoded(s.endpoints[1])] == [Geocoded(s.endpoints[0]), Geocoded(s.endpoints[1])];
  }

  /** getRoute goes as far as requesting a route: nothing to wait for, both coordinates, an engine. */
  predicate RouteReady(s: State)
  {
    && !WillAwait(s.endpoints[0]) && !WillAwait(s.endpoints[1])
    && s.endpoints[0].latlng.Some? && s.endpoints[1].latlng.Some?
    && s.chosenEngine.Some?
  }

  /** The URL replacement and the route request, origin then destination. */
  function RouteRequests(s: State): seq<Request>
  {
    if RouteReady(s) then
      var id := s.chosenEngine.value.id;
      [ReplaceUrl(id, s.endpoints[0].latlng.value, s.endpoints[1].latlng.value),
       RouteRequest(id, s.endpoints[0].latlng.value, s.endpoints[1].latlng.value)]
    else []
  }

  /**
   * getRoute in order: abort the request in flight, send the missing geocode
   * lookups, and only then, if nothing is awaited, request the route.
   */
  lemma {:induction false} GetRouteOrder(s: State)
    ensures GetRoute(s).log == s.log + Abort(s) + GeocodeRequests(s) + RouteRequests(s)
  {
    GetRouteLookups(s);
  }

  /**
   * getRoute's effect on the panel's flags: it waits for geocodes exactly when
   * it did, or one endpoint was or now is waiting; a route is outstanding
   * exactly when a new one is requested, since the old one is aborted and its
   * error callback has run; that callback also removes a route line drawn
   * while a request was outstanding.  The engine choice is untouched.
   */
  lemma {:induction false} GetRouteFlags(s: State)
    ensures var t := GetRoute(s);
      && t.awaitingGeocode == (s.awaitingGeocode || NeedsGeocode(s.endpoints[0]) || NeedsGeocode(s.endpoints[1])
                               || s.endpoints[0].awaitingGeocode || s.endpoints[1].awaitingGeocode)
      && t.awaitingRoute == RouteReady(s)
      && t.polylineShown == (s.polylineShown && !s.awaitingRoute) && t.dragging == s.dragging
      && t.chosenEngine == s.chosenEngine && t.selectedIndex == s.selectedIndex && t.engines == s.engines
  {
    GetRouteLookups(s);
  }

  /**
   * getRoute's effect on each endpoint: it waits when it already did or a
   * lookup was just sent; its coordinate, geocode and text are untouched.
   */
  lemma {:induction false} GetRouteEndpoints(s: State)
    ensures var t := GetRoute(s);
      forall i: EndpointIndex ::
        && t.endpoints[i].awaitingGeocode == WillAwait(s.endpoints[i])
        && t.endpoints[i].geocodesInFlight >= s.endpoints[i].geocodesInFlight
        && t.endpoints[i].latlng == s.endpoints[i].latlng
        && t.endpoints[i].hasGeocode == s.endpoints[i].hasGeocode
        && t.endpoints[i].value == s.endpoints[i].value
  {
    GetRouteLookups(s);
    assert GetRoute(s).endpoints == [Geocoded(s.endpoints[0]), Geocoded(s.endpoints[1])];
    GeocodedEffect(s.endpoints[0]);
    GeocodedEffect(s.endpoints[1]);
  }

  /** An endpoint after getRoute's loop: it waits iff WillAwait; only the wait and the lookup count change. */
  lemma GeocodedEffect(e: EndpointState)
    ensures var g := Geocoded(e);
      && g.awaitingGeocode == WillAwait(e)
      && g.geocodesInFlight >= e.geocodesInFlight
      && g.latlng == e.latlng && g.hasGeocode == e.hasGeocode && g.value == e.value
  {
  }

  /** getRoute requests a route only with both coordinates known and no geocode outstanding afterwards. */
  lemma {:induction false} RouteOnlyWhenReady(s: State)
    ensures RouteRequests(s) != [] ==>
      var t := GetRoute(s);
      && !AnyAwaitingGeocode(t)
      && t.endpoints[0].latlng.Some? && t.endpoints[1].latlng.Some?
      && |t.log| >= 1
      && t.log[|t.log| - 1] == RouteRequest(s.chosenEngine.value.id, t.endpoints[0].latlng.value, t.endpoints[1].latlng.value)
    ensures AnyAwaitingGeocode(GetRoute(s)) ==> GetRoute(s).awaitingGeocode && RouteRequests(s) == []
  {
    GetRouteOrder(s);
    GetRouteFlags(s);
    GetRouteEndpoints(s);
  }

  /**
   * The invariant every event keeps: a coordinate implies a geocode, waiting
   * implies a lookup outstanding, and the chosen engine is the one selected
   * in the list.
   */
  predicate EndpointInv(e: EndpointState)
  {
    && (e.latlng.Some? ==> e.hasGeocode)
    && (e.awaitingGeocode ==> e.geocodesInFlight > 0)
  }

  predicate Inv(s: State)
  {
    && EndpointInv(s.endpoints[0]) && EndpointInv(s.endpoints[1])
    && (s.chosenEngine.Some? ==>
          0 <= s.selectedIndex < |s.engines| && s.engines[s.selectedIndex] == s.chosenEngine.value)
  }

  /** Under the invariant, a route is requested exactly when both endpoints have a coordinate, neither waits, and an engine is chosen. */
  lemma RouteReadyUnderInv(s: State)
    requires Inv(s)
    ensures RouteReady(s) <==>
      && !s.endpoints[0].awaitingGeocode && !s.endpoints[1].awaitingGeocode
      && s.endpoints[0].latlng.Some? && s.endpoints[1].latlng.Some?
      && s.chosenEngine.Some?
  {
  }

  /** setEngine makes the last engine with that id the chosen and selected one; with no such engine nothing changes. */
  lemma {:induction false} SetEngineChoosesLast(s: State, id: string)
    ensures var t := SetEngine(s, id);
      && t.(chosenEngine := s.chosenEngine, selectedIndex := s.selectedIndex) == s
      && ((forall j :: 0 <= j < |s.engines| ==> s.engines[j].id != id) ==> t == s)
      && ((exists j :: 0 <= j < |s.engines| && s.engines[j].id == id) ==>
            && 0 <= t.selectedIndex < |s.engines|
            && t.chosenEngine == Some(s.engines[t.selectedIndex])
            && s.engines[t.selectedIndex].id == id
            && (forall j :: t.selectedIndex < j < |s.engines| ==> s.engines[j].id != id))
  {
    assert s.engines[..|s.engines|] == s.engines;
  }

  /**
   * setValue: the text is stored and the old coordinate dropped; a given
   * coordinate is taken as the geocode, otherwise a non-empty text is looked
   * up.  The other endpoint is untouched.
   */
  lemma SetValueEffects(s: State, i: EndpointIndex, value: string, latlng: Option<LatLng>)
    ensures var t := SetValue(s, i, value, latlng);
      && t.endpoints[i].value == value
      && t.endpoints[1 - i] == s.endpoints[1 - i]
      && (latlng.Some? ==> t.endpoints[i].latlng == latlng && t.endpoints[i].hasGeocode && t.log == s.log)
      && (latlng.None? ==> t.endpoints[i].latlng.None?)
      && (latlng.None? && value != "" ==>
            t.endpoints[i].awaitingGeocode && t.log == s.log + [GeocodeRequest(i, value)])
      && (latlng.None? && value == "" ==>
            t.endpoints[i].awaitingGeocode == s.endpoints[i].awaitingGeocode && t.log == s.log)
  {
  }

  /**
   * A geocode reply always ends the endpoint's wait and marks it geocoded;
   * only a non-empty reply sets its coordinate.  Without a result, or when no
   * route is pending, nothing is sent and the panel's flag is left as it is.
   */
  lemma GeocodeReplyEffects(s: State, i: EndpointIndex, results: seq<LatLng>)
    requires s.endpoints[i].geocodesInFlight > 0
    ensures var t := GeocodeReply(s, i, results);
      && t.endpoints[i].hasGeocode && !t.endpoints[i].awaitingGeocode
      && t.endpoints[i].value == s.endpoints[i].value
      && t.endpoints[i].latlng == (if results == [] then s.endpoints[i].latlng else Some(results[0]))
      && ((results == [] || !s.awaitingGeocode) ==> t.log == s.log && t.awaitingGeocode == s.awaitingGeocode)
  {
    var u := WithEndpoint(s, i, EndpointGeocoded(s.endpoints[i], results));
    if results != [] && s.awaitingGeocode {
      GetRouteFlags(u.(awaitingGeocode := false));
      GetRouteEndpoints(u.(awaitingGeocode := false));
    }
  }

  /**
   * A pending route resumes: when the panel waits for a geocode and the
   * lookup for endpoint i finds a place while the other endpoint is ready,
   * the route from origin to destination is requested.
   */
  lemma GeocodeReplyResumesRoute(s: State, i: EndpointIndex, results: seq<LatLng>)
    requires Inv(s) && s.endpoints[i].geocodesInFlight > 0
    requires s.awaitingGeocode && results != []
    requires s.endpoints[1 - i].latlng.Some? && !s.endpoints[1 - i].awaitingGeocode
    requires s.chosenEngine.Some?
    ensures var t := GeocodeReply(s, i, results);
      var ll := if i == 0 then [results[0], s.endpoints[1].latlng.value] else [s.endpoints[0].latlng.value, results[0]];
      && |t.log| >= 1 && t.log[|t.log| - 1] == RouteRequest(s.chosenEngine.value.id, ll[0], ll[1])
      && t.awaitingRoute && !t.awaitingGeocode
  {
    var u := WithEndpoint(s, i, EndpointGeocoded(s.endpoints[i], results)).(awaitingGeocode := false);
    assert RouteReady(u);
    GetRouteOrder(u);
    GetRouteFlags(u);
    GetRouteEndpoints(u);
  }

  /**
   * The drag gate: during a drag the event is ignored (apart from recording
   * the drag) unless the engine is draggable and no route is in flight;
   * otherwise the endpoint moves, and a route is recomputed only while one is shown.
   */
  lemma DragGate(s: State, i: EndpointIndex, isDrag: bool, ll: LatLng)
    ensures var t := Drag(s, i, isDrag, ll);
      && t.dragging == isDrag
      && (DragIgnored(s, isDrag) ==> t == s.(dragging := isDrag))
      && (!DragIgnored(s, isDrag) ==> t.endpoints[i].latlng == Some(ll) && t.endpoints[i].hasGeocode)
      && (!DragIgnored(s, isDrag) && !s.polylineShown ==> t.log == s.log && t.endpoints[1 - i] == s.endpoints[1 - i])
  {
    if !DragIgnored(s, isDrag) && s.polylineShown {
      GetRouteFlags(SetLatLng(s.(dragging := isDrag), i, ll));
      GetRouteEndpoints(SetLatLng(s.(dragging := isDrag), i, ll));
    }
  }

  /** Moving a marker while a route is shown asks for the new route through the moved point. */
  lemma DragReroutes(s: State, i: EndpointIndex, isDrag: bool, ll: LatLng)
    requires Inv(s) && !DragIgnored(s, isDrag) && s.polylineShown
    requires !s.endpoints[i].awaitingGeocode
    requires s.endpoints[1 - i].latlng.Some? && !s.endpoints[1 - i].awaitingGeocode
    requires s.chosenEngine.Some?
    ensures var t := Drag(s, i, isDrag, ll);
      var o := if i == 0 then ll else s.endpoints[0].latlng.value;
      var d := if i == 1 then ll else s.endpoints[1].latlng.value;
      |t.log| >= 1 && t.log[|t.log| - 1] == RouteRequest(s.chosenEngine.value.id, o, d)
  {
    var u := SetLatLng(s.(dragging := isDrag), i, ll);
    assert RouteReady(u);
    GetRouteOrder(u);
  }

  /**
   * After the page is left no route is shown, so neither a moved marker nor a
   * newly selected engine sends anything until a route is drawn again.
   */
  lemma LeftPageStopsRerouting(s: State, i: EndpointIndex, isDrag: bool, ll: LatLng, k: nat)
    requires k < |s.engines|
    ensures !Unload(s).polylineShown
    ensures Drag(Unload(s), i, isDrag, ll).log == s.log
    ensures SelectEngine(Unload(s), k).log == s.log
  {
  }

  /**
   * getRoute while a route is outstanding: the abort comes first in the log
   * and, through the error callback it runs, removes the route line; the
   * panel then waits for a route exactly when the new one is requested.
   */
  lemma {:induction false} GetRouteAbortsFirst(s: State)
    requires s.awaitingRoute
    ensures var g := GetRoute(s);
      && |g.log| > |s.log| && g.log[|s.log|] == AbortRoute
      && !g.polylineShown
      && (g.awaitingRoute <==> RouteReady(s))
      && (!RouteReady(s) ==> g.log == s.log + [AbortRoute] + GeocodeRequests(s))
  {
    GetRouteOrder(s);
    GetRouteFlags(s);
  }

  /**
   * Dragging a marker to its end while a route is both drawn and outstanding
   * reroutes, and the abort removes the line; a second marker dropped before
   * the new reply then sends nothing.
   */
  lemma {:induction false} DragendDuringRequest(s: State, i: EndpointIndex, ll: LatLng, j: EndpointIndex, ll2: LatLng)
    requires s.polylineShown && s.awaitingRoute
    ensures var t := Drag(s, i, false, ll);
      && |t.log| > |s.log| && t.log[|s.log|] == AbortRoute
      && !t.polylineShown
      && Drag(t, j, false, ll2).log == t.log
  {
    var u := SetLatLng(s.(dragging := false), i, ll);
    GetRouteAbortsFirst(u);
    DragGate(Drag(s, i, false, ll), j, false, ll2);
  }

  // ----------------------------------------------------- events and the invariant

  /** The events the panel handles. */
  datatype Event =
    | InputChanged(i: EndpointIndex, value: string)
    | Submitted
    | GeocodeReplied(i: EndpointIndex, results: seq<LatLng>)
    | RouteReplied(ok: bool)
    | MarkerDragged(i: EndpointIndex, isDrag: bool, ll: LatLng)
    | MarkerDropped(i: EndpointIndex, ll: LatLng)
    | EngineSelected(k: nat)
    | UnitsChosen(units: string)
    | RouteClosed
    | PageLeft
    | PageShown(engine: string, from: string, to: string, fromLatLng: Option<LatLng>, toLatLng: Option<LatLng>)

  /** Replies come only for outstanding requests; the drop-down only offers listed engines. */
  predicate Enabled(s: State, e: Event)
  {
    match e
    case GeocodeReplied(i, _) => s.endpoints[i].geocodesInFlight > 0
    case RouteReplied(_) => s.awaitingRoute
    case EngineSelected(k) => k < |s.engines|
    case _ => true
  }

  function Step(s: State, e: Event): State
    requires Enabled(s, e)
  {
    match e
    case InputChanged(i, value) => SetValue(s, i, value, None)
    case Submitted => GetRoute(s)
    case GeocodeReplied(i, results) => GeocodeReply(s, i, results)
    case RouteReplied(ok) => RouteReply(s, ok)
    case MarkerDragged(i, isDrag, ll) => Drag(s, i, isDrag, ll)
    case MarkerDropped(i, ll) => Drop(s, i, ll)
    case EngineSelected(k) => SelectEngine(s, k)
    case UnitsChosen(units) => SetDistanceUnits(s, units)
    case RouteClosed => CloseRoute(s)
    case PageLeft => Unload(s)
    case PageShown(engine, from, to, fromLatLng, toLatLng) => ShowPage(s, engine, from, to, fromLatLng, toLatLng)
  }

  lemma {:induction false} GetRoutePreservesInv(s: State)
    requires Inv(s)
    ensures Inv(GetRoute(s))
    ensures GetRoute(s).engines == s.engines && s.log <= GetRoute(s).log
  {
    GetRouteFlags(s);
    GetRouteEndpoints(s);
    GetRouteLookups(s);
    GetRouteOrder(s);
    var added := Abort(s) + GeocodeRequests(s) + RouteRequests(s);
    assert GetRoute(s).log == s.log + added;
  }

  lemma {:induction false} SetEnginePreservesInv(s: State, id: string)
    requires Inv(s)
    ensures Inv(SetEngine(s, id))
  {
    SetEngineChoosesLast(s, id);
  }

  lemma {:induction false} SetValuePreservesInv(s: State, i: EndpointIndex, value: string, latlng: Option<LatLng>)
    requires Inv(s)
    ensures Inv(SetValue(s, i, value, latlng))
  {
    SetValueEffects(s, i, value, latlng);
  }

  /** The panel starts out in the invariant. */
  lemma InitialInv(engines: seq<Engine>, cookie: string)
    ensures Inv(Initial(engines, cookie))
  {
    var s := State([InitialEndpoint, InitialEndpoint], false, false, false, false, engines, None, 0, "km", []);
    SetEnginePreservesInv(s, if cookie == "" then "osrm_car" else cookie);
  }

  /** A geocode reply keeps the invariant and the engine list, and only appends to the request log. */
  lemma {:induction false} GeocodeReplyPreservesInv(s: State, i: EndpointIndex, results: seq<LatLng>)
    requires Inv(s) && s.endpoints[i].geocodesInFlight > 0
    ensures Inv(GeocodeReply(s, i, results))
    ensures GeocodeReply(s, i, results).engines == s.engines && s.log <= GeocodeReply(s, i, results).log
  {
    var u := WithEndpoint(s, i, EndpointGeocoded(s.endpoints[i], results));
    assert Inv(u);
    if results != [] && u.awaitingGeocode {
      GetRoutePreservesInv(u.(awaitingGeocode := false));
    }
  }

  lemma {:induction false} DragPreservesInv(s: State, i: EndpointIndex, isDrag: bool, ll: LatLng)
    requires Inv(s)
    ensures Inv(Drag(s, i, isDrag, ll))
    ensures Drag(s, i, isDrag, ll).engines == s.engines && s.log <= Drag(s, i, isDrag, ll).log
  {
    var u := SetLatLng(s.(dragging := isDrag), i, ll);
    assert Inv(u);
    if !DragIgnored(s, isDrag) && u.polylineShown {
      GetRoutePreservesInv(u);
    }
  }

  /** The two setValue calls of the page handler keep the invariant and only append to the log. */
  lemma {:induction false} SetBothValuesPreservesInv(s: State, from: string, to: string,
                                                     fromLatLng: Option<LatLng>, toLatLng: Option<LatLng>)
    requires Inv(s)
    ensures var t := SetValue(SetValue(s, 0, from, fromLatLng), 1, to, toLatLng);
      Inv(t) && t.engines == s.engines && s.log <= t.log
  {
    var s2 := SetValue(s, 0, from, fromLatLng);
    SetValuePreservesInv(s, 0, from, fromLatLng);
    SetValueEffects(s, 0, from, fromLatLng);
    SetValuePreservesInv(s2, 1, to, toLatLng);
    SetValueEffects(s2, 1, to, toLatLng);
  }

  lemma {:induction false} ShowPagePreservesInv(s: State, engine: string, from: string, to: string,
                                                fromLatLng: Option<LatLng>, toLatLng: Option<LatLng>)
    requires Inv(s)
    ensures var t := ShowPage(s, engine, from, to, fromLatLng, toLatLng);
      Inv(t) && t.engines == s.engines && s.log <= t.log
  {
    var s1 := if engine != "" then SetEngine(s, engine) else s;
    if engine != "" {
      SetEnginePreservesInv(s, engine);
      SetEngineChoosesLast(s, engine);
    }
    assert Inv(s1) && s1.engines == s.engines && s1.log == s.log;
    SetBothValuesPreservesInv(s1, from, to, fromLatLng, toLatLng);
    GetRoutePreservesInv(SetValue(SetValue(s1, 0, from, fromLatLng), 1, to, toLatLng));
  }

  lemma {:induction false} InputChangedPreservesInv(s: State, i: EndpointIndex, value: string)
    requires Inv(s)
    ensures var t := SetValue(s, i, value, None);
      Inv(t) && t.engines == s.engines && s.log <= t.log
  {
    SetValuePreservesInv(s, i, value, None);
    SetValueEffects(s, i, value, None);
  }

  lemma {:induction false} DropPreservesInv(s: State, i: EndpointIndex, ll: LatLng)
    requires Inv(s)
    ensures var t := Drop(s, i, ll);
      Inv(t) && t.engines == s.engines && s.log <= t.log
  {
    assert Inv(SetLatLng(s, i, ll));
    GetRoutePreservesInv(SetLatLng(s, i, ll));
  }

  lemma {:induction false} SelectEnginePreservesInv(s: State, k: nat)
    requires Inv(s) && k < |s.engines|
    ensures var t := SelectEngine(s, k);
      Inv(t) && t.engines == s.engines && s.log <= t.log
  {
    var u := s.(chosenEngine := Some(s.engines[k]), selectedIndex := k);
    if u.polylineShown {
      GetRoutePreservesInv(u);
    }
  }

  lemma {:induction false} SetDistanceUnitsPreservesInv(s: State, units: string)
    requires Inv(s)
    ensures var t := SetDistanceUnits(s, units);
      Inv(t) && t.engines == s.engines && s.log <= t.log
  {
    GetRoutePreservesInv(s.(distanceUnits := units));
  }

  /** Every event keeps the invariant, and no event changes the engine list or takes back a request. */
  lemma {:induction false} StepPreservesInv(s: State, e: Event)
    requires Inv(s) && Enabled(s, e)
    ensures Inv(Step(s, e))
    ensures Step(s, e).engines == s.engines && s.log <= Step(s, e).log
  {
    match e
    case InputChanged(i, value) => InputChangedPreservesInv(s, i, value);
    case Submitted => GetRoutePreservesInv(s);
    case GeocodeReplied(i, results) => GeocodeReplyPreservesInv(s, i, results);
    case RouteReplied(ok) =>
    case MarkerDragged(i, isDrag, ll) => DragPreservesInv(s, i, isDrag, ll);
    case MarkerDropped(i, ll) => DropPreservesInv(s, i, ll);
    case EngineSelected(k) => SelectEnginePreservesInv(s, k);
    case UnitsChosen(units) => SetDistanceUnitsPreservesInv(s, units);
    case RouteClosed =>
    case PageLeft =>
    case PageShown(engine, from, to, fromLatLng, toLatLng) =>
      ShowPagePreservesInv(s, engine, from, to, fromLatLng, toLatLng);
  }
}
