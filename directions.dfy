/**
 * The directions panel as objects: two Endpoint objects and the panel's own
 * flags, updated in place by its event handlers.  Each method is proved to
 * move the abstract state (Model) exactly as the matching function of
 * module RouteState says, so the properties proved there hold of the objects.
 */
module Directions {
  import opened Wrappers
  import opened Engines
  import opened RouteState

  /** One route endpoint: its input text, its coordinate and its geocoding flags. */
  class Endpoint {
    var value: string
    var latlng: Option<LatLng>
    var hasGeocode: bool
    var awaitingGeocode: bool
    var geocodesInFlight: nat  // lookups sent and not yet answered (the network's side)

    function Model(): EndpointState
      reads this
    {
      EndpointState(value, latlng, hasGeocode, awaitingGeocode, geocodesInFlight)
    }

    constructor ()
      ensures Model() == InitialEndpoint
    {
      value := "";
      latlng := None;
      hasGeocode := false;
      awaitingGeocode := false;
      geocodesInFlight := 0;
    }

    method SetLatLng(ll: LatLng)
      modifies this
      ensures Model() == EndpointSetLatLng(old(Model()), ll)
    {
      hasGeocode := true;
      latlng := Some(ll);
    }

    /** Sends a lookup for the current text, unless it is empty; returns the lookup sent. */
    method GetGeocode() returns (query: Option<string>)
      modifies this
      ensures Model() == EndpointGetGeocode(old(Model()))
      ensures query == GeocodeQuery(old(Model()))
    {
      if value == "" {
        return None;
      }
      awaitingGeocode := true;
      geocodesInFlight := geocodesInFlight + 1;
      query := Some(value);
    }

    method SetValue(v: string, ll: Option<LatLng>) returns (query: Option<string>)
      modifies this
      ensures Model() == EndpointSetValue(old(Model()), v, ll)
      ensures query == SetValueQuery(v, ll)
    {
      value := v;
      latlng := None;
      if ll.Some? {
        SetLatLng(ll.value);
        query := None;
      } else {
        query := GetGeocode();
      }
    }

    /** The endpoint's part of the geocode reply handler. */
    method ReceiveGeocode(results: seq<LatLng>)
      requires geocodesInFlight > 0
      modifies this
      ensures Model() == EndpointGeocoded(old(Model()), results)
    {
      awaitingGeocode := false;
      hasGeocode := true;
      geocodesInFlight := geocodesInFlight - 1;
      if results == [] {
        return;  // the "no place" alert is not modelled
      }
      latlng := Some(results[0]);
    }
  }

  /** The panel: origin and destination endpoints, its flags and the engine choice. */
  class Directions {
    const endpoints: seq<Endpoint>
    var awaitingGeocode: bool
    var awaitingRoute: bool
    var dragging: bool
    var polylineShown: bool
    var engines: seq<Engine>
    var chosenEngine: Option<Engine>
    var selectedIndex: int
    var distanceUnits: string
    var log: seq<Request>    // everything sent to the network and the browser, in order

    predicate Valid()
      reads this
    {
      |endpoints| == 2 && endpoints[0] != endpoints[1]
    }

    function Model(): State
      reads this, endpoints
      requires Valid()
    {
      State([endpoints[0].Model(), endpoints[1].Model()], awaitingGeocode, awaitingRoute, dragging,
            polylineShown, engines, chosenEngine, selectedIndex, distanceUnits, log)
    }

    /** The panel as built: fresh endpoints, the engine named by the cookie or "osrm_car". */
    constructor (engineList: seq<Engine>, cookie: string)
      ensures Valid() && fresh(endpoints[0]) && fresh(endpoints[1])
      ensures Model() == Initial(engineList, cookie)
    {
      var from := new Endpoint();
      var to := new Endpoint();
      endpoints := [from, to];
      awaitingGeocode, awaitingRoute, dragging, polylineShown := false, false, false, false;
      engines := engineList;
      chosenEngine := None;
      selectedIndex := 0;
      distanceUnits := "km";
      log := [];
      new;
      SetEngine(if cookie == "" then "osrm_car" else cookie);
    }

    /** setEngine: every engine with the id becomes the choice in turn, so the last one wins. */
    method SetEngine(id: string)
      requires Valid()
      modifies this
      ensures Valid() && Model() == RouteState.SetEngine(old(Model()), id)
    {
      for i := 0 to |engines|
        invariant engines == old(engines)
        invariant Model() == ChooseEngine(old(Model()), id, i)
      {
        ChooseEngineStep(old(Model()), id, i);
        if engines[i].id == id {
          chosenEngine := Some(engines[i]);
          selectedIndex := i;
        }
      }
      assert engines[..|engines|] == engines;
    }

    /** endpoint.getGeocode, with the lookup it sends recorded. */
    method GetGeocode(i: EndpointIndex)
      requires Valid()
      modifies this, endpoints[i]
      ensures Valid() && Model() == RouteState.GetGeocode(old(Model()), i)
    {
      var query := endpoints[i].GetGeocode();
      if query.Some? {
        log := log + [GeocodeRequest(i, query.value)];
      }
    }

    /** endpoint.setValue (the input's change handler passes no coordinate). */
    method SetValue(i: EndpointIndex, value: string, latlng: Option<LatLng>)
      requires Valid()
      modifies this, endpoints[i]
      ensures Valid() && Model() == RouteState.SetValue(old(Model()), i, value, latlng)
    {
      var query := endpoints[i].SetValue(value, latlng);
      if query.Some? {
        log := log + [GeocodeRequest(i, query.value)];
      }
    }

    /** getRoute; also the handler of the form's submit. */
    method GetRoute()
      requires Valid()
      modifies this, endpoints
      ensures Valid() && Model() == RouteState.GetRoute(old(Model()))
    {
      if awaitingRoute {
        log := log + [AbortRoute];
        RouteReply(false);  // the abort runs the request's error callback at once
      }
      ghost var aborted := Model();
      assert aborted == AbortInFlight(old(Model()));
      for i := 0 to 2
        invariant Valid()
        invariant Model() == GeocodeMissing(aborted, i)
      {
        ghost var before := Model();
        var endpoint := endpoints[i];
        if !endpoint.hasGeocode && !endpoint.awaitingGeocode {
          GetGeocode(i);
          awaitingGeocode := true;
        }
        assert Model() == GeocodeIfMissing(before, i);
      }
      ghost var looked := Model();
      assert looked == GeocodeMissing(AbortInFlight(old(Model())), 2);
      if endpoints[0].awaitingGeocode || endpoints[1].awaitingGeocode {
        awaitingGeocode := true;
        return;
      }
      var o, d := endpoints[0].latlng, endpoints[1].latlng;
      if o.None? || d.None? {
        return;
      }
      if chosenEngine.None? {
        return;  // reading `chosenEngine.id` throws
      }
      log := log + [ReplaceUrl(chosenEngine.value.id, o.value, d.value)];
      log := log + [RouteRequest(chosenEngine.value.id, o.value, d.value)];
      awaitingRoute := true;
      assert log == looked.log + [ReplaceUrl(chosenEngine.value.id, o.value, d.value),
                                  RouteRequest(chosenEngine.value.id, o.value, d.value)];
    }

    /** The geocode reply handler of endpoint i. */
    method GeocodeReply(i: EndpointIndex, results: seq<LatLng>)
      requires Valid() && endpoints[i].geocodesInFlight > 0
      modifies this, endpoints
      ensures Valid() && Model() == RouteState.GeocodeReply(old(Model()), i, results)
    {
      endpoints[i].ReceiveGeocode(results);
      if results == [] {
        return;
      }
      if awaitingGeocode {
        awaitingGeocode := false;
        assert Model() == WithEndpoint(old(Model()), i, EndpointGeocoded(old(Model()).endpoints[i], results))
                          .(awaitingGeocode := false);
        GetRoute();
      }
    }

    /** The engine's callback: success draws the route, an error removes it. */
    method RouteReply(ok: bool)
      requires Valid() && awaitingRoute
      modifies this
      ensures Valid() && Model() == RouteState.RouteReply(old(Model()), ok)
    {
      awaitingRoute := false;
      polylineShown := ok;
    }

    /** A marker's 'drag' (isDrag) or 'dragend' handler. */
    method Drag(i: EndpointIndex, isDrag: bool, ll: LatLng)
      requires Valid()
      modifies this, endpoints
      ensures Valid() && Model() == RouteState.Drag(old(Model()), i, isDrag, ll)
    {
      dragging := isDrag;
      if dragging && chosenEngine.None? {
        return;  // reading `draggable` of no engine throws
      }
      if dragging && !chosenEngine.value.draggable {
        return;
      }
      if dragging && awaitingRoute {
        return;
      }
      endpoints[i].SetLatLng(ll);
      assert Model() == SetLatLng(old(Model()).(dragging := isDrag), i, ll);
      if polylineShown {
        GetRoute();
      }
    }

    /** A routing marker dropped on the map. */
    method Drop(i: EndpointIndex, ll: LatLng)
      requires Valid()
      modifies this, endpoints
      ensures Valid() && Model() == RouteState.Drop(old(Model()), i, ll)
    {
      endpoints[i].SetLatLng(ll);
      assert Model() == SetLatLng(old(Model()), i, ll);
      GetRoute();
    }

    /** The engine drop-down's change handler. */
    method SelectEngine(k: nat)
      requires Valid() && k < |engines|
      modifies this, endpoints
      ensures Valid() && Model() == RouteState.SelectEngine(old(Model()), k)
    {
      chosenEngine := Some(engines[k]);
      selectedIndex := k;
      if polylineShown {
        GetRoute();
      }
    }

    /** A click on a distance unit. */
    method SetDistanceUnits(units: string)
      requires Valid()
      modifies this, endpoints
      ensures Valid() && Model() == RouteState.SetDistanceUnits(old(Model()), units)
    {
      distanceUnits := units;
      GetRoute();
    }

    /** The close link of a shown route. */
    method CloseRoute()
      requires Valid()
      modifies this
      ensures Valid() && Model() == RouteState.CloseRoute(old(Model()))
    {
      polylineShown := false;
    }

    /** page.unload: the route line is taken off the map. */
    method Unload()
      requires Valid()
      modifies this
      ensures Valid() && Model() == RouteState.Unload(old(Model()))
    {
      polylineShown := false;
    }

    /** The page handler for a directions URL. */
    method ShowPage(engine: string, from: string, to: string,
                    fromLatLng: Option<LatLng>, toLatLng: Option<LatLng>)
      requires Valid()
      modifies this, endpoints
      ensures Valid() && Model() == RouteState.ShowPage(old(Model()), engine, from, to, fromLatLng, toLatLng)
    {
      if engine != "" {
        SetEngine(engine);
      }
      SetValue(0, from, fromLatLng);
      SetValue(1, to, toLatLng);
      GetRoute();
    }
  }
}
