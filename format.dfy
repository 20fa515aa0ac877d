/**
 * The text the directions panel shows for a route's length and duration
 * (formatDistance, formatTime) and the coarser rounding applied to the
 * distance of each turn-by-turn step.  Numbers are exact reals here;
 * `Math.round` is rounding to nearest with halves going up.
 */
module Format {
  import opened Wrappers
  import opened Text

  /** `Math.round`: the nearest integer, a half rounded towards +infinity. */
  function Round(x: real): (n: int)
    ensures n as real - 0.5 <= x < n as real + 0.5
  {
    (x + 0.5).Floor
  }

  /** The contract of Round pins its result down: only one integer lies that close. */
  lemma RoundUnique(x: real, k: int)
    requires k as real - 0.5 <= x < k as real + 0.5
    ensures Round(x) == k
  {
  }

  // ---------------------------------------------------------------- formatTime

  /** The minute field: a '0' is put before a single digit. */
  function MinuteField(mm: nat): (r: string)
    requires mm < 60
    ensures |r| == 2 && AllDigits(r) && DigitsValue(r) == mm
  {
    if mm < 10 then
      var r := "0" + NatToString(mm);
      assert r[..1] == "0";
      r
    else
      assert NatToString(mm) == NatToString(mm / 10) + [DigitChar(mm % 10)];
      NatToString(mm)
  }

  /** Reads "h:mm" back as a number of minutes; the minute field must be below 60. */
  function ParseTime(r: string): Option<int>
  {
    if |r| >= 4 && r[|r| - 3] == ':' && AllDigits(r[|r| - 2..]) then
      var mm := DigitsValue(r[|r| - 2..]);
      match ParseInt(r[..|r| - 3])
      case Some(h) => if mm < 60 then Some(h * 60 + mm) else None
      case None => None
    else
      None
  }

  /** The text "h:mm" reads back as h hours and mm minutes, and its hours field is h as printed. */
  lemma {:induction false} ClockText(h: int, mm: nat)
    requires mm < 60
    ensures var r := IntToString(h) + ":" + MinuteField(mm);
      && |r| >= 4 && r[|r| - 3] == ':'
      && (forall k :: 0 <= k < |r| - 3 ==> r[k] != ':')
      && AllDigits(r[|r| - 2..])
      && ParseTime(r) == Some(h * 60 + mm)
      && ParseInt(r[..|r| - 3]) == Some(h)
  {
    var hours := IntToString(h);
    var minutes := MinuteField(mm);
    var r := hours + ":" + minutes;
    assert r[..|r| - 3] == hours;
    assert r[|r| - 2..] == minutes;
    assert DigitsValue(r[|r| - 2..]) == mm;
    IntToStringRoundTrip(h);
    assert ParseInt(r[..|r| - 3]) == Some(h);
    assert forall k :: 0 <= k < |r| - 3 ==> r[k] == hours[k];
  }

  /**
   * formatTime: a duration in seconds as hours, one ':' and exactly two
   * minute digits; the text reads back as the duration rounded to whole
   * minutes, and the hours are printed as `String` prints them.
   */
  function FormatTime(s: real): (r: string)
    ensures |r| >= 4 && r[|r| - 3] == ':'
    ensures forall k :: 0 <= k < |r| - 3 ==> r[k] != ':'
    ensures AllDigits(r[|r| - 2..])
    ensures ParseTime(r) == Some(Round(s / 60.0))
    ensures var h := ParseInt(r[..|r| - 3]); h.Some? && IntToString(h.value) == r[..|r| - 3]
  {
    var t := Round(s / 60.0);
    var h := t / 60;  // Math.floor(m / 60): Dafny's division floors for a positive divisor
    var mm := t - h * 60;
    ClockText(h, mm);
    IntToString(h) + ":" + MinuteField(mm)
  }

  // ------------------------------------------------------------ formatDistance

  /** The imperial unit names and sizes in metres, which come from the translations. */
  datatype Imperial = Imperial(unitAbbr: string, unitSize: real, subunitAbbr: string, subunitSize: real)

  predicate ValidImperial(imp: Imperial) { imp.unitSize > 0.0 && imp.subunitSize > 0.0 }

  /** Reads "q.d" back as a number of tenths. */
  function ParseTenths(r: string): Option<nat>
  {
    if |r| >= 3 && r[|r| - 2] == '.' && IsDigit(r[|r| - 1]) then
      match ParseNat(r[..|r| - 2])
      case Some(q) => Some(q * 10 + DigitValue(r[|r| - 1]))
      case None => None
    else
      None
  }

  /**
   * `x.toFixed(1)` for a non-negative x: the whole part, a '.', and one digit;
   * the tenths it shows are the nearest to x, a half going up.
   */
  function Fixed1(x: real): (r: string)
    requires x >= 0.0
    ensures |r| >= 3 && r[|r| - 2] == '.' && IsDigit(r[|r| - 1])
    ensures ParseTenths(r).Some?
    ensures ParseTenths(r).value as real / 10.0 - 0.05 <= x < ParseTenths(r).value as real / 10.0 + 0.05
    ensures r[..|r| - 2] == NatToString(ParseTenths(r).value / 10)
  {
    var n := Round(x * 10.0);
    var whole := NatToString(n / 10);
    var r := whole + "." + [DigitChar(n % 10)];
    assert r[..|r| - 2] == whole;
    NatToStringRoundTrip(n / 10);
    r
  }

  /**
   * formatDistance: metres as whole sub-units below the sub-unit scope, as
   * units with one decimal below ten units, and as whole units beyond.
   * Any setting other than "km" selects the imperial units.
   */
  function FormatDistance(m: real, distanceUnits: string, imp: Imperial): string
    requires distanceUnits == "km" || ValidImperial(imp)
  {
    var km := distanceUnits == "km";
    var unitAbbr := if km then "km" else imp.unitAbbr;
    var unitSize := if km then 1000.0 else imp.unitSize;
    var subunitAbbr := if km then "m" else imp.subunitAbbr;
    var subunitSize := if km then 1.0 else imp.subunitSize;
    var subunitScope := if km then 1000.0 else unitSize * 0.2;
    if m < subunitScope then
      IntToString(Round(m / subunitSize)) + subunitAbbr
    else if m < unitSize * 10.0 then
      Fixed1(m / unitSize) + unitAbbr
    else
      IntToString(Round(m / unitSize)) + unitAbbr
  }

  /** The three shapes of a metric distance. */
  lemma FormatDistanceKm(m: real, imp: Imperial)
    ensures m < 1000.0 ==> FormatDistance(m, "km", imp) == IntToString(Round(m)) + "m"
    ensures 1000.0 <= m < 10000.0 ==> FormatDistance(m, "km", imp) == Fixed1(m / 1000.0) + "km"
    ensures 10000.0 <= m ==> FormatDistance(m, "km", imp) == IntToString(Round(m / 1000.0)) + "km"
  {
  }

  /** The three shapes of an imperial distance: the sub-unit is used below a fifth of the unit. */
  lemma FormatDistanceImperial(m: real, distanceUnits: string, imp: Imperial)
    requires distanceUnits != "km" && ValidImperial(imp)
    ensures m < imp.unitSize * 0.2 ==>
      FormatDistance(m, distanceUnits, imp) == IntToString(Round(m / imp.subunitSize)) + imp.subunitAbbr
    ensures imp.unitSize * 0.2 <= m < imp.unitSize * 10.0 ==>
      FormatDistance(m, distanceUnits, imp) == Fixed1(m / imp.unitSize) + imp.unitAbbr
    ensures imp.unitSize * 10.0 <= m ==>
      FormatDistance(m, distanceUnits, imp) == IntToString(Round(m / imp.unitSize)) + imp.unitAbbr
  {
  }

  /** How a reader turns a metric distance text back into metres. */
  function ReadMetric(r: string): Option<real>
  {
    if HasSuffix(r, "km") then
      var body := r[..|r| - 2];
      match ParseTenths(body)
      case Some(n) => Some(n as real * 100.0)
      case None =>
        match ParseInt(body)
        case Some(k) => Some(k as real * 1000.0)
        case None => None
    else if HasSuffix(r, "m") then
      match ParseInt(r[..|r| - 1])
      case Some(k) => Some(k as real)
      case None => None
    else
      None
  }

  /**
   * A metric distance text reads back as the distance to within half of its
   * last shown place: 1 m below 1 km, 100 m below 10 km, 1 km beyond.
   */
  lemma {:induction false} FormatDistanceKmReadBack(m: real, imp: Imperial)
    ensures ReadMetric(FormatDistance(m, "km", imp)).Some?
    ensures var v := ReadMetric(FormatDistance(m, "km", imp)).value;
      && (m < 1000.0 ==> v - 0.5 <= m < v + 0.5)
      && (1000.0 <= m < 10000.0 ==> v - 50.0 <= m < v + 50.0)
      && (10000.0 <= m ==> v - 500.0 <= m < v + 500.0)
  {
    var r := FormatDistance(m, "km", imp);
    if m < 1000.0 {
      var k := Round(m);
      var t := IntToString(k);
      assert r == t + "m";
      assert r[|r| - 2] == t[|t| - 1];
      assert !HasSuffix(r, "km");
      assert r[..|r| - 1] == t;
      IntToStringRoundTrip(k);
    } else if m < 10000.0 {
      var t := Fixed1(m / 1000.0);
      assert r == t + "km";
      assert r[..|r| - 2] == t;
    } else {
      var k := Round(m / 1000.0);
      var t := IntToString(k);
      assert r == t + "km";
      assert r[..|r| - 2] == t;
      assert |t| >= 3 ==> t[|t| - 2] != '.';
      IntToStringRoundTrip(k);
    }
  }

  /**
   * How a reader who knows the abbreviation `abbr` of a unit of `size` metres
   * turns a distance text back into metres: a whole or one-decimal number of
   * that unit.
   */
  function ReadIn(r: string, abbr: string, size: real): Option<real>
  {
    if HasSuffix(r, abbr) then
      var body := r[..|r| - |abbr|];
      match ParseTenths(body)
      case Some(n) => Some(n as real / 10.0 * size)
      case None =>
        match ParseInt(body)
        case Some(k) => Some(k as real * size)
        case None => None
    else
      None
  }

  /** Scaling a bound on m / size back to metres: v is c units, and m is within `bound` (h units) of it. */
  lemma Scaled(m: real, size: real, c: real, h: real, v: real, bound: real)
    requires size > 0.0 && c - h <= m / size < c + h
    requires v == c * size && bound == h * size
    ensures v - bound <= m < v + bound
  {
    assert m == (m / size) * size;
  }

  /** ReadIn on a text whose number part has no decimal point. */
  lemma ReadInWhole(r: string, abbr: string, size: real, k: int)
    requires HasSuffix(r, abbr)
    requires ParseTenths(r[..|r| - |abbr|]) == None && ParseInt(r[..|r| - |abbr|]) == Some(k)
    ensures ReadIn(r, abbr, size).Some? && ReadIn(r, abbr, size).value == k as real * size
  {
  }

  /** ReadIn on a text whose number part has one decimal. */
  lemma ReadInTenths(r: string, abbr: string, size: real, n: nat)
    requires HasSuffix(r, abbr) && ParseTenths(r[..|r| - |abbr|]) == Some(n)
    ensures ReadIn(r, abbr, size).Some? && ReadIn(r, abbr, size).value == n as real / 10.0 * size
  {
  }

  /** A printed integer has no decimal point and parses back to itself. */
  lemma {:induction false} IntTextParses(k: int)
    ensures ParseTenths(IntToString(k)) == None && ParseInt(IntToString(k)) == Some(k)
  {
    var t := IntToString(k);
    assert |t| >= 3 ==> t[|t| - 2] != '.';
    IntToStringRoundTrip(k);
  }

  /** A whole number k nearest to m / size, shown in units of `size` metres, reads back to within half a unit. */
  lemma {:induction false} WholeReadBack(m: real, size: real, abbr: string, t: string, k: int)
    requires size > 0.0 && ParseTenths(t) == None && ParseInt(t) == Some(k)
    requires k as real - 0.5 <= m / size < k as real + 0.5
    ensures var v := ReadIn(t + abbr, abbr, size);
      v.Some? && v.value - size / 2.0 <= m < v.value + size / 2.0
  {
    var r := t + abbr;
    assert r[|r| - |abbr|..] == abbr;
    assert r[..|r| - |abbr|] == t;
    ReadInWhole(r, abbr, size, k);
    Scaled(m, size, k as real, 0.5, k as real * size, size / 2.0);
  }

  /** A number of tenths within 0.05 units of m / size, shown in units of `size` metres, reads back to within a twentieth of a unit. */
  lemma {:induction false} TenthsReadBack(m: real, size: real, abbr: string, t: string)
    requires size > 0.0 && ParseTenths(t).Some?
    requires ParseTenths(t).value as real / 10.0 - 0.05 <= m / size < ParseTenths(t).value as real / 10.0 + 0.05
    ensures var v := ReadIn(t + abbr, abbr, size);
      v.Some? && v.value - size / 20.0 <= m < v.value + size / 20.0
  {
    var r := t + abbr;
    assert r[|r| - |abbr|..] == abbr;
    assert r[..|r| - |abbr|] == t;
    ReadInTenths(r, abbr, size, ParseTenths(t).value);
    TenthsScaled(m, size, ParseTenths(t).value);
  }

  /** The arithmetic of TenthsReadBack: n tenths of a unit within 0.05 of m / size are within size / 20 of m. */
  lemma TenthsScaled(m: real, size: real, n: nat)
    requires size > 0.0 && n as real / 10.0 - 0.05 <= m / size < n as real / 10.0 + 0.05
    ensures n as real / 10.0 * size - size / 20.0 <= m < n as real / 10.0 * size + size / 20.0
  {
    Scaled(m, size, n as real / 10.0, 0.05, n as real / 10.0 * size, size / 20.0);
  }

  /** Below a fifth of the unit, the text reads back in sub-units to within half a sub-unit. */
  lemma {:induction false} ImperialSubunitReadBack(m: real, distanceUnits: string, imp: Imperial)
    requires distanceUnits != "km" && ValidImperial(imp) && m < imp.unitSize * 0.2
    ensures var v := ReadIn(FormatDistance(m, distanceUnits, imp), imp.subunitAbbr, imp.subunitSize);
      v.Some? && v.value - imp.subunitSize / 2.0 <= m < v.value + imp.subunitSize / 2.0
  {
    FormatDistanceImperial(m, distanceUnits, imp);
    var k := Round(m / imp.subunitSize);
    IntTextParses(k);
    WholeReadBack(m, imp.subunitSize, imp.subunitAbbr, IntToString(k), k);
  }

  /** Below ten units, the text reads back in units to within a twentieth of a unit. */
  lemma {:induction false} ImperialTenthsReadBack(m: real, distanceUnits: string, imp: Imperial)
    requires distanceUnits != "km" && ValidImperial(imp)
    requires imp.unitSize * 0.2 <= m < imp.unitSize * 10.0
    ensures var v := ReadIn(FormatDistance(m, distanceUnits, imp), imp.unitAbbr, imp.unitSize);
      v.Some? && v.value - imp.unitSize / 20.0 <= m < v.value + imp.unitSize / 20.0
  {
    FormatDistanceImperial(m, distanceUnits, imp);
    TenthsReadBack(m, imp.unitSize, imp.unitAbbr, Fixed1(m / imp.unitSize));
  }

  /** From ten units on, the text reads back in units to within half a unit. */
  lemma {:induction false} ImperialUnitsReadBack(m: real, distanceUnits: string, imp: Imperial)
    requires distanceUnits != "km" && ValidImperial(imp) && imp.unitSize * 10.0 <= m
    ensures var v := ReadIn(FormatDistance(m, distanceUnits, imp), imp.unitAbbr, imp.unitSize);
      v.Some? && v.value - imp.unitSize / 2.0 <= m < v.value + imp.unitSize / 2.0
  {
    FormatDistanceImperial(m, distanceUnits, imp);
    var k := Round(m / imp.unitSize);
    IntTextParses(k);
    WholeReadBack(m, imp.unitSize, imp.unitAbbr, IntToString(k), k);
  }

  // ------------------------------------------------- turn-by-turn step distance

  /** The two groups captured by `/^(\d+)(yds|ft|m)$/`. */
  datatype StepMatch = StepMatch(digits: string, unit: string)

  predicate IsStepUnit(u: string) { u == "yds" || u == "ft" || u == "m" }

  /** The language of the regular expression, stated directly. */
  predicate MatchesAs(s: string, digits: string, unit: string)
  {
    s == digits + unit && |digits| >= 1 && AllDigits(digits) && IsStepUnit(unit)
  }

  function StepUnit(s: string): Option<string>
  {
    if HasSuffix(s, "yds") then Some("yds")
    else if HasSuffix(s, "ft") then Some("ft")
    else if HasSuffix(s, "m") then Some("m")
    else None
  }

  /** `dist.match(/^(\d+)(yds|ft|m)$/)`: the unit is found from the end, the rest must be digits. */
  function MatchStep(s: string): Option<StepMatch>
  {
    match StepUnit(s)
    case None => None
    case Some(u) =>
      var p := s[..|s| - |u|];
      if |p| >= 1 && AllDigits(p) then Some(StepMatch(p, u)) else None
  }

  /** The unit found from the end of `digits + unit` is that unit. */
  lemma {:induction false} StepUnitOf(digits: string, unit: string)
    requires |digits| >= 1 && AllDigits(digits) && IsStepUnit(unit)
    ensures StepUnit(digits + unit) == Some(unit)
  {
    var s := digits + unit;
    assert s[|s| - |unit|..] == unit;
    assert s[|s| - 1] == unit[|unit| - 1];
    if unit == "m" {
      assert s[|s| - 2] == digits[|digits| - 1];
      assert !HasSuffix(s, "yds") && !HasSuffix(s, "ft");
    } else if unit == "ft" {
      assert !HasSuffix(s, "yds");
    }
  }

  /** MatchStep finds a split exactly when the regular expression matches, and finds that split. */
  lemma {:induction false} MatchStepIsRegex(s: string, digits: string, unit: string)
    ensures MatchStep(s) == Some(StepMatch(digits, unit)) <==> MatchesAs(s, digits, unit)
  {
    if MatchesAs(s, digits, unit) {
      StepUnitOf(digits, unit);
      assert s[..|s| - |unit|] == digits;
    }
    if MatchStep(s) == Some(StepMatch(digits, unit)) {
      assert IsStepUnit(unit);
      assert s == s[..|s| - |unit|] + s[|s| - |unit|..];
    }
  }

  /**
   * The number a step distance of d >= 5 is rounded to: `Math.round(d / 10.0) * 10`
   * below 200, `Math.round(d / 100.0) * 100` from 200 on.
   */
  function StepRounding(d: nat): (v: nat)
    requires d >= 5
    ensures v >= 10
    ensures d < 200 ==> v % 10 == 0 && d - 5 < v <= d + 5
    ensures d >= 200 ==> v >= 200 && v % 100 == 0 && d - 50 < v <= d + 50
  {
    if d < 200 then
      var k := Round(d as real / 10.0);
      assert (k * 10) as real - 5.0 <= d as real < (k * 10) as real + 5.0;
      k * 10
    else
      var k := Round(d as real / 100.0);
      assert (k * 100) as real - 50.0 <= d as real < (k * 100) as real + 50.0;
      k * 100
  }

  /** The step distance text: blank below 5, else the rounded number and the same unit. */
  function StepDistance(dist: string): string
  {
    match MatchStep(dist)
    case None => dist
    case Some(StepMatch(p, u)) =>
      var d := ParseNat(p).value;
      if d < 5 then "" else IntToString(StepRounding(d)) + u
  }

  /** A multiple of 10 (below 200) or of 100 (from 200 on) is already rounded. */
  lemma {:induction false} StepRoundingFixed(v: nat)
    requires v >= 5
    requires v < 200 ==> v % 10 == 0
    requires v >= 200 ==> v % 100 == 0
    ensures StepRounding(v) == v
  {
    if v < 200 {
      RoundUnique(v as real / 10.0, v / 10);
    } else {
      RoundUnique(v as real / 100.0, v / 100);
    }
  }

  /** For d >= 5, the rounded number followed by the captured unit matches again. */
  lemma RoundedStepMatches(v: nat, u: string)
    requires IsStepUnit(u)
    ensures MatchStep(NatToString(v) + u) == Some(StepMatch(NatToString(v), u))
  {
    MatchStepIsRegex(NatToString(v) + u, NatToString(v), u);
  }

  /**
   * Step distances: text that is not digits then yds, ft or m passes through;
   * otherwise the number is blanked below 5, and is else replaced by the
   * nearest multiple of 10 (below 200) or of 100, halves going up, keeping the unit.
   */
  lemma {:induction false} StepDistanceCases(dist: string)
    ensures MatchStep(dist).None? ==> StepDistance(dist) == dist
    ensures MatchStep(dist).Some? && DigitsValue(MatchStep(dist).value.digits) < 5 ==> StepDistance(dist) == ""
    ensures MatchStep(dist).Some? && DigitsValue(MatchStep(dist).value.digits) >= 5 ==>
      var d := DigitsValue(MatchStep(dist).value.digits);
      var r := StepDistance(dist);
      && MatchStep(r).Some?
      && MatchStep(r).value.unit == MatchStep(dist).value.unit
      && var v := DigitsValue(MatchStep(r).value.digits);
      && MatchStep(r).value.digits == NatToString(v)
      && (d < 200 ==> v % 10 == 0 && d - 5 < v <= d + 5)
      && (d >= 200 ==> v % 100 == 0 && d - 50 < v <= d + 50)
  {
    match MatchStep(dist)
    case None =>
    case Some(StepMatch(p, u)) =>
      MatchStepIsRegex(dist, p, u);
      var d := DigitsValue(p);
      if d >= 5 {
        var v := StepRounding(d);
        assert StepDistance(dist) == NatToString(v) + u;
        RoundedStepMatches(v, u);
      }
  }

  /** Rounding a step distance a second time changes nothing. */
  lemma {:induction false} StepDistanceIdempotent(dist: string)
    ensures StepDistance(StepDistance(dist)) == StepDistance(dist)
  {
    match MatchStep(dist)
    case None =>
    case Some(StepMatch(p, u)) =>
      MatchStepIsRegex(dist, p, u);
      var d := DigitsValue(p);
      if d < 5 {
        assert MatchStep("") == None;
      } else {
        var v := StepRounding(d);
        assert StepDistance(dist) == NatToString(v) + u;
        RoundedStepMatches(v, u);
        StepRoundingFixed(v);
      }
  }

  /** A distance in kilometres ("1.5km", "12km") is never altered by the step rounding. */
  lemma KilometresPassThrough(s: string)
    requires HasSuffix(s, "km")
    ensures StepDistance(s) == s
  {
    assert s[|s| - 1] == 'm' && s[|s| - 2] == 'k';
    assert !HasSuffix(s, "yds") && !HasSuffix(s, "ft");
    if MatchStep(s).Some? {
      var p := s[..|s| - 1];
      assert p[|p| - 1] == 'k';
    }
  }
}
