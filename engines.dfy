/**
 * Routing engines: the shared list that engine scripts register into
 * (`OSM.Directions.addEngine`) and the lookup by id that `setEngine` performs.
 */
module Engines {
  import opened Wrappers

  /** An engine as the directions panel sees it: its id and whether it can reroute while a marker is dragged. */
  datatype Engine = Engine(id: string, draggable: bool)

  /** The index of the last engine in the list whose id is `id`, if any. */
  function LastIndexOf(engines: seq<Engine>, id: string): (k: Option<nat>)
    ensures k.Some? ==> k.value < |engines| && engines[k.value].id == id
    ensures k.Some? ==> forall j :: k.value < j < |engines| ==> engines[j].id != id
    ensures k.None? <==> forall j :: 0 <= j < |engines| ==> engines[j].id != id
    decreases |engines|
  {
    if engines == [] then None
    else if engines[|engines| - 1].id == id then Some(|engines| - 1)
    else LastIndexOf(engines[..|engines| - 1], id)
  }

  /** An engine is only offered when the page is served over plain HTTP or the engine supports HTTPS. */
  predicate Admits(protocol: string, supportsHTTPS: bool)
  {
    protocol == "http:" || supportsHTTPS
  }

  /** One call of addEngine, as a registering script makes it. */
  datatype Registration = Registration(engine: Engine, supportsHTTPS: bool)

  /** The list left by a series of addEngine calls on a page loaded over `protocol`. */
  function Registered(calls: seq<Registration>, protocol: string): (engines: seq<Engine>)
    ensures |engines| <= |calls|
    decreases |calls|
  {
    if calls == [] then []
    else
      var last := calls[|calls| - 1];
      Registered(calls[..|calls| - 1], protocol)
        + (if Admits(protocol, last.supportsHTTPS) then [last.engine] else [])
  }

  /** Later registrations only ever append: the list after a prefix of the calls is a prefix of the final list. */
  lemma {:induction false} RegisteredAppends(calls: seq<Registration>, more: seq<Registration>, protocol: string)
    ensures Registered(calls + more, protocol) == Registered(calls, protocol) + Registered(more, protocol)
    decreases |more|
  {
    if more == [] {
      assert calls + more == calls;
    } else {
      var init := more[..|more| - 1];
      assert (calls + more)[..|calls + more| - 1] == calls + init;
      RegisteredAppends(calls, init, protocol);
    }
  }

  /** An engine is in the list exactly when some call registered it and the protocol admitted it. */
  lemma {:induction false} RegisteredMembers(calls: seq<Registration>, protocol: string, e: Engine)
    ensures e in Registered(calls, protocol) <==>
      exists i :: 0 <= i < |calls| && calls[i].engine == e && Admits(protocol, calls[i].supportsHTTPS)
    decreases |calls|
  {
    if calls != [] {
      var init := calls[..|calls| - 1];
      RegisteredMembers(init, protocol, e);
      if e in Registered(init, protocol) {
        var i :| 0 <= i < |init| && init[i].engine == e && Admits(protocol, init[i].supportsHTTPS);
        assert calls[i] == init[i];
      }
      if exists i :: 0 <= i < |calls| && calls[i].engine == e && Admits(protocol, calls[i].supportsHTTPS) {
        var i :| 0 <= i < |calls| && calls[i].engine == e && Admits(protocol, calls[i].supportsHTTPS);
        if i < |init| {
          assert init[i] == calls[i];
        }
      }
    }
  }

  /**
   * The shared engine list, `OSM.Directions.engines`, on a page loaded over
   * `protocol`; `calls` is the history of addEngine calls made so far.
   */
  class Registry {
    const protocol: string
    var engines: seq<Engine>
    ghost var calls: seq<Registration>

    /** The list is always what the calls made so far leave. */
    ghost predicate Valid()
      reads this
    {
      engines == Registered(calls, protocol)
    }

    constructor (pageProtocol: string)
      ensures Valid() && protocol == pageProtocol
      ensures engines == [] && calls == []
    {
      protocol := pageProtocol;
      engines := [];
      calls := [];
    }

    /** addEngine: push the engine when the page's protocol admits it, leave the list alone otherwise. */
    method AddEngine(engine: Engine, supportsHTTPS: bool)
      requires Valid()
      modifies this
      ensures Valid()
      ensures calls == old(calls) + [Registration(engine, supportsHTTPS)]
      ensures engines == if Admits(protocol, supportsHTTPS) then old(engines) + [engine] else old(engines)
    {
      RegisteredAppends(calls, [Registration(engine, supportsHTTPS)], protocol);
      calls := calls + [Registration(engine, supportsHTTPS)];
      if protocol == "http:" || supportsHTTPS {
        engines := engines + [engine];
      }
    }
  }
}
