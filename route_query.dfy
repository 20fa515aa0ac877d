/**
 * The `route` query parameter: getRoute writes the two endpoints as
 * "lat,lng;lat,lng", origin first, and the page handler splits it back on
 * ';' and ','.  Coordinates stay text here: printing them with a
 * zoom-dependent precision is not part of this model.
 */
module RouteQuery {
  import opened Wrappers

  /** The printed coordinates of one endpoint. */
  datatype Point = Point(lat: string, lng: string)

  /** The route parameter for an origin and a destination. */
  function RouteParam(origin: Point, destination: Point): string
  {
    origin.lat + "," + origin.lng + ";" + destination.lat + "," + destination.lng
  }

  /** `s.split(sep)` for a one-character separator: the pieces between separators, empty ones included. */
  function Split(s: string, sep: char): (parts: seq<string>)
    ensures |parts| >= 1
    decreases |s|
  {
    if s == [] then [""]
    else
      var rest := Split(s[1..], sep);
      if s[0] == sep then [""] + rest else [[s[0]] + rest[0]] + rest[1..]
  }

  lemma {:induction false} SplitWithout(a: string, sep: char)
    requires sep !in a
    ensures Split(a, sep) == [a]
    decreases |a|
  {
    if a != [] {
      SplitWithout(a[1..], sep);
      assert [a[0]] + a[1..] == a;
    }
  }

  lemma {:induction false} SplitAt(a: string, sep: char, b: string)
    requires sep !in a
    ensures Split(a + [sep] + b, sep) == [a] + Split(b, sep)
    decreases |a|
  {
    if a == [] {
      assert a + [sep] + b == [sep] + b;
      assert ([sep] + b)[1..] == b;
    } else {
      assert (a + [sep] + b)[1..] == a[1..] + [sep] + b;
      SplitAt(a[1..], sep, b);
      assert [a[0]] + a[1..] == a;
    }
  }

  /** What the page handler recovers for one endpoint: nothing when the piece is missing or empty. */
  function Coordinates(pieces: seq<string>, i: nat): Option<seq<string>>
  {
    if i < |pieces| && pieces[i] != "" then Some(Split(pieces[i], ',')) else None
  }

  /** The page handler's reading of the route parameter: origin and destination fields. */
  function ParseRoute(param: string): (Option<seq<string>>, Option<seq<string>>)
  {
    var pieces := Split(param, ';');
    (Coordinates(pieces, 0), Coordinates(pieces, 1))
  }

  predicate PlainField(f: string) { ',' !in f && ';' !in f }

  /**
   * Reading back what getRoute wrote gives the origin's fields first and the
   * destination's second, each as latitude then longitude.
   */
  lemma {:induction false} RouteParamRoundTrip(origin: Point, destination: Point)
    requires PlainField(origin.lat) && PlainField(origin.lng)
    requires PlainField(destination.lat) && PlainField(destination.lng)
    ensures ParseRoute(RouteParam(origin, destination))
      == (Some([origin.lat, origin.lng]), Some([destination.lat, destination.lng]))
  {
    var o := origin.lat + "," + origin.lng;
    var d := destination.lat + "," + destination.lng;
    assert RouteParam(origin, destination) == o + [';'] + d;
    assert ';' !in o;
    SplitAt(o, ';', d);
    SplitWithout(d, ';');
    SplitAt(origin.lat, ',', origin.lng);
    SplitWithout(origin.lng, ',');
    SplitAt(destination.lat, ',', destination.lng);
    SplitWithout(destination.lng, ',');
    assert o == origin.lat + [','] + origin.lng;
    assert d == destination.lat + [','] + destination.lng;
    var pieces := Split(RouteParam(origin, destination), ';');
    assert pieces == [o, d];
    assert o != "" && d != "";
    assert Split(o, ',') == [origin.lat] + [origin.lng] == [origin.lat, origin.lng];
    assert Split(d, ',') == [destination.lat] + [destination.lng] == [destination.lat, destination.lng];
    assert Coordinates(pieces, 0) == Some([origin.lat, origin.lng]);
    assert Coordinates(pieces, 1) == Some([destination.lat, destination.lng]);
  }
}
