/**
 * The location page's data shaping (hydroalert-frontend/src/pages/lokasi.tsx): status and
 * location wording, the coordinates read from a location, the sensor rows built from
 * `/api/monitoring` records, the live upsert by name, and the choice of map markers, map
 * centre and headline sensor.
 */
module Lokasi {
  import opened Wrappers
  import opened Browser
  import opened MonitoringApi
  import Text
  import StatusHelper
  import Subsequences

  const NoData: string := "Data tidak ada"

  /** normalizeStatus: warning words become 'Waspada', 'normal' becomes 'Normal', any letter case. */
  function NormalizeStatus(status: Option<string>): (r: string)
    ensures r == "Waspada" || r == "Normal" || r == NoData
    ensures r == "Waspada" <==>
      (status.Some? && Text.ToLower(status.value) in ["warning", "bahaya", "waspada"])
    ensures r == "Normal" <==> (status.Some? && Text.ToLower(status.value) == "normal")
    ensures status.None? ==> r == NoData
  {
    var w := Text.ToLower(OrEmpty(status));
    if w == "warning" || w == "bahaya" || w == "waspada" then "Waspada"
    else if w == "normal" then "Normal"
    else NoData
  }

  /** The status comparison ignores letter case. */
  lemma NormalizeStatusIgnoresCase(s: string)
    ensures NormalizeStatus(Some(s)) == NormalizeStatus(Some(Text.ToLower(s)))
  {
    Text.ToLowerIdempotent(s);
  }

  /**
   * What the page shows for each status the backend stores: 'Normal' and 'Waspada' as such,
   * 'Bahaya' as 'Waspada', and both Siaga statuses as missing data.
   */
  lemma BackendTiersOnMap(t: StatusHelper.Tier)
    ensures NormalizeStatus(Some(StatusHelper.TierName(t))) ==
      match t
      case Normal => "Normal"
      case Waspada => "Waspada"
      case Bahaya => "Waspada"
      case Siaga1 => NoData
      case Siaga2 => NoData
  {
    var low := Text.ToLower(StatusHelper.TierName(t));
    match t
    case Normal =>
      assert forall i :: 0 <= i < 6 ==> low[i] == "normal"[i];
      assert low == "normal";
    case Siaga1 => assert low[0] == 's';
    case Siaga2 => assert low[0] == 's';
    case Waspada =>
      assert forall i :: 0 <= i < 7 ==> low[i] == "waspada"[i];
      assert low == "waspada";
    case Bahaya =>
      assert forall i :: 0 <= i < 6 ==> low[i] == "bahaya"[i];
      assert low == "bahaya";
  }

  /** formatLocation: non-blank text unchanged, a numeric pair to four decimals, else no data. */
  function FormatLocation(loc: LocationValue, env: Env): (r: string)
    ensures loc.LocText? && Text.Trim(loc.text) != "" ==> r == loc.text
    ensures loc.LocObject? && loc.latitude.Some? && loc.longitude.Some? ==>
      r == "Lat " + env.fixed4Text(loc.latitude.value) + ", Lon " + env.fixed4Text(loc.longitude.value)
    ensures (!(loc.LocText? && Text.Trim(loc.text) != "") &&
             !(loc.LocObject? && loc.latitude.Some? && loc.longitude.Some?)) ==> r == NoData
  {
    match loc
    case LocText(s) => if Text.Trim(s) != "" then s else NoData
    case LocObject(lat, lon) =>
      if lat.Some? && lon.Some? then "Lat " + env.fixed4Text(lat.value) + ", Lon " + env.fixed4Text(lon.value)
      else NoData
    case LocAbsent => NoData
  }

  // ------------------------------------------------------------------ the number scan

  /** `\d`: '0' to '9'. */
  predicate IsDecimalDigit(c: char) {
    Text.IsDigitIn(c, 10)
  }

  lemma NotADigit(c: char)
    requires !('0' <= c <= '9')
    ensures !IsDecimalDigit(c)
  {
  }

  /** One match of `-?\d+(?:\.\d+)?`: a sign, the whole digits and the fraction digits. */
  datatype NumberToken = NumberToken(negative: bool, whole: string, fraction: string)

  function DigitsOf(ds: string): nat
    requires forall i :: 0 <= i < |ds| ==> IsDecimalDigit(ds[i])
  {
    assert forall i :: 0 <= i < |ds| ==> Text.IsDigitIn(ds[i], 10) by {
      forall i | 0 <= i < |ds| ensures Text.IsDigitIn(ds[i], 10) {
        assert IsDecimalDigit(ds[i]);
      }
    }
    Text.DigitsValue(ds, 10)
  }

  predicate WellFormed(t: NumberToken) {
    t.whole != [] && (forall i :: 0 <= i < |t.whole| ==> IsDecimalDigit(t.whole[i])) &&
    (forall i :: 0 <= i < |t.fraction| ==> IsDecimalDigit(t.fraction[i]))
  }

  /** `Number(match)`, exactly: ±(whole + fraction / 10^|fraction|). */
  function TokenValue(t: NumberToken): real
    requires WellFormed(t)
  {
    var magnitude := DigitsOf(t.whole) as real + DigitsOf(t.fraction) as real / Text.Power10(|t.fraction|) as real;
    if t.negative then -magnitude else magnitude
  }

  /**
   * Reads `\d+(?:\.\d+)?` greedily from a string that starts with a digit, returning the
   * token and the number of characters read.
   */
  function ReadUnsigned(s: string, negative: bool): (r: (NumberToken, nat))
    requires s != [] && IsDecimalDigit(s[0])
    ensures WellFormed(r.0) && r.0.negative == negative
    ensures 0 < r.1 <= |s|
  {
    var whole := Text.DigitPrefix(s, 10);
    var after := s[|whole|..];
    if |after| >= 2 && after[0] == '.' && IsDecimalDigit(after[1]) then
      var fraction := Text.DigitPrefix(after[1..], 10);
      (NumberToken(negative, whole, fraction), |whole| + 1 + |fraction|)
    else (NumberToken(negative, whole, ""), |whole|)
  }

  /** `s.match(/-?\d+(?:\.\d+)?/g)`: every match, left to right, each scan resuming after a match. */
  function NumberTokens(s: string): (ts: seq<NumberToken>)
    ensures forall k :: 0 <= k < |ts| ==> WellFormed(ts[k])
    decreases |s|
  {
    if s == [] then []
    else if s[0] == '-' && |s| >= 2 && IsDecimalDigit(s[1]) then
      var r := ReadUnsigned(s[1..], true);
      [r.0] + NumberTokens(s[1 + r.1..])
    else if IsDecimalDigit(s[0]) then
      var r := ReadUnsigned(s, false);
      [r.0] + NumberTokens(s[r.1..])
    else NumberTokens(s[1..])
  }

  datatype Coordinates = Coordinates(latitude: Option<real>, longitude: Option<real>)

  function Abs(x: real): real {
    if x < 0.0 then -x else x
  }

  /**
   * extractLatLng: a numeric pair of an object unchanged; from text, the first two numbers when
   * the first is a latitude (|x| ≤ 90) and the second a longitude (|y| ≤ 180); otherwise none.
   */
  function ExtractLatLng(loc: LocationValue): (c: Coordinates)
    ensures c.latitude.Some? <==> c.longitude.Some?
    ensures loc.LocObject? && loc.latitude.Some? && loc.longitude.Some? ==>
      c == Coordinates(loc.latitude, loc.longitude)
    ensures loc.LocText? && c.latitude.Some? ==>
      var ts := NumberTokens(loc.text);
      |ts| >= 2 && c == Coordinates(Some(TokenValue(ts[0])), Some(TokenValue(ts[1])))
    ensures loc.LocText? ==>
      var ts := NumberTokens(loc.text);
      |ts| >= 2 && Abs(TokenValue(ts[0])) <= 90.0 && Abs(TokenValue(ts[1])) <= 180.0 ==>
        c == Coordinates(Some(TokenValue(ts[0])), Some(TokenValue(ts[1])))
    ensures c.latitude.Some? && !loc.LocObject? ==> Abs(c.latitude.value) <= 90.0 && Abs(c.longitude.value) <= 180.0
    ensures loc.LocAbsent? || (loc.LocObject? && (loc.latitude.None? || loc.longitude.None?)) ==>
      c == Coordinates(None, None)
  {
    match loc
    case LocObject(lat, lon) =>
      if lat.Some? && lon.Some? then Coordinates(lat, lon) else Coordinates(None, None)
    case LocText(s) =>
      var ts := NumberTokens(s);
      if |ts| >= 2 && Abs(TokenValue(ts[0])) <= 90.0 && Abs(TokenValue(ts[1])) <= 180.0 then
        Coordinates(Some(TokenValue(ts[0])), Some(TokenValue(ts[1])))
      else Coordinates(None, None)
    case LocAbsent => Coordinates(None, None)
  }

  /** The token JavaScript's `String(n)` gives for an integer. */
  function IntToken(n: int): NumberToken {
    NumberToken(n < 0, Text.DecimalDigits(if n < 0 then -n else n), "")
  }

  /** Text that starts with neither a digit nor a '.' followed by a digit. */
  predicate EndsNumber(rest: string) {
    rest == [] || (!IsDecimalDigit(rest[0]) && rest[0] != '.')
  }

  /** Digits followed by a non-number character are read as one token without a fraction. */
  lemma ReadDigits(ds: string, rest: string, negative: bool)
    requires ds != [] && forall i :: 0 <= i < |ds| ==> IsDecimalDigit(ds[i])
    requires EndsNumber(rest)
    ensures (ds + rest)[0] == ds[0]
    ensures ReadUnsigned(ds + rest, negative) == (NumberToken(negative, ds, ""), |ds|)
    ensures (ds + rest)[|ds|..] == rest
  {
    Text.DigitPrefixStopsAt(ds, rest, 10);
    assert (ds + rest)[|ds|..] == rest;
  }

  /** Unsigned digits followed by a non-number character are scanned as one token. */
  lemma ScanDigits(ds: string, rest: string)
    requires ds != [] && forall i :: 0 <= i < |ds| ==> IsDecimalDigit(ds[i])
    requires EndsNumber(rest)
    ensures NumberTokens(ds + rest) == [NumberToken(false, ds, "")] + NumberTokens(rest)
  {
    ReadDigits(ds, rest, false);
  }

  /** A minus sign and digits followed by a non-number character are scanned as one negative token. */
  lemma ScanMinusDigits(ds: string, rest: string)
    requires ds != [] && forall i :: 0 <= i < |ds| ==> IsDecimalDigit(ds[i])
    requires EndsNumber(rest)
    ensures NumberTokens("-" + (ds + rest)) == [NumberToken(true, ds, "")] + NumberTokens(rest)
  {
    ReadDigits(ds, rest, true);
    var u := ds + rest;
    var s := "-" + u;
    assert s[0] == '-' && s[1..] == u && IsDecimalDigit(s[1]);
    assert s[1 + |ds|..] == rest;
  }

  /** A written integer followed by a non-number character is scanned as that integer. */
  lemma ScanInteger(n: int, rest: string)
    requires EndsNumber(rest)
    ensures NumberTokens(Text.IntToString(n) + rest) == [IntToken(n)] + NumberTokens(rest)
  {
    var m := if n < 0 then -n else n;
    var ds := Text.DecimalDigits(m);
    assert forall i :: 0 <= i < |ds| ==> IsDecimalDigit(ds[i]);
    if n < 0 {
      ScanMinusDigits(ds, rest);
      Text.Associative("-", ds, rest);
    } else {
      ScanDigits(ds, rest);
    }
  }

  /** The token of a written integer has that integer's value. */
  lemma IntTokenValue(n: int)
    ensures WellFormed(IntToken(n)) && TokenValue(IntToken(n)) == n as real
  {
    var m := if n < 0 then -n else n;
    Text.DecimalDigitsValue(m);
    var t := IntToken(n);
    assert DigitsOf(t.whole) == m;
    assert DigitsOf(t.fraction) == 0;
    assert Text.Power10(|t.fraction|) == 1;
    assert DigitsOf(t.fraction) as real / Text.Power10(|t.fraction|) as real == 0.0;
  }

  /** Characters that are neither digits nor '-' are skipped by the scan. */
  lemma {:induction false} ScanSkips(skipped: string, rest: string)
    requires Skipped(skipped)
    ensures NumberTokens(skipped + rest) == NumberTokens(rest)
  {
    if skipped != [] {
      NotADigit(skipped[0]);
      assert (skipped + rest)[1..] == skipped[1..] + rest;
      ScanSkips(skipped[1..], rest);
    } else {
      assert skipped + rest == rest;
    }
  }

  /** No digit and no '-': text the scan passes over. */
  predicate Skipped(t: string) {
    forall i :: 0 <= i < |t| ==> !('0' <= t[i] <= '9') && t[i] != '-'
  }

  /** Two integers, each after a run of skipped text, the second run not starting with '.', are the two numbers. */
  lemma LabelledPairTokens(p: string, a: int, q: string, b: int)
    requires Skipped(p) && Skipped(q) && q != [] && q[0] != '.'
    ensures NumberTokens(p + (Text.IntToString(a) + (q + Text.IntToString(b)))) == [IntToken(a), IntToken(b)]
  {
    var sa := Text.IntToString(a);
    var sb := Text.IntToString(b);
    assert sb + "" == sb;
    ScanInteger(b, "");
    ScanSkips(q, sb);
    NotADigit(q[0]);
    ScanInteger(a, q + sb);
    ScanSkips(p, sa + (q + sb));
  }

  /** The text "Lat a, Lon b" holds exactly two numbers, a and b. */
  lemma LatLonTokens(a: int, b: int)
    ensures NumberTokens("Lat " + Text.IntToString(a) + ", Lon " + Text.IntToString(b)) == [IntToken(a), IntToken(b)]
  {
    var sa := Text.IntToString(a);
    var sb := Text.IntToString(b);
    var p := "Lat ";
    var q := ", Lon ";
    assert p + sa + q + sb == p + (sa + (q + sb));
    assert Skipped(p) && Skipped(q) && q[0] == ',';
    LabelledPairTokens(p, a, q, b);
  }

  /**
   * Round trip with the object branch: the text "Lat a, Lon b" for integers in range reads
   * back as the pair (a, b).
   */
  lemma LatLonTextRoundTrip(a: int, b: int)
    requires -90 <= a <= 90 && -180 <= b <= 180
    ensures ExtractLatLng(LocText("Lat " + Text.IntToString(a) + ", Lon " + Text.IntToString(b))) ==
      Coordinates(Some(a as real), Some(b as real))
  {
    IntTokenValue(a);
    IntTokenValue(b);
    LatLonTokens(a, b);
  }

  // ------------------------------------------------------------------ sensor rows

  /** A water level as shown: the number, or the no-data text. */
  datatype LevelValue = Level(cm: real) | LevelText(text: string)

  datatype Sensor = Sensor(name: string, status: string, waterLevel: LevelValue, unit: Option<string>,
                           updatedAt: string, location: string, latitude: Option<real>,
                           longitude: Option<real>)

  /** The row of one device record (the callback of `mapSensors`). */
  function MapSensor(d: DeviceRecord, env: Env): (s: Sensor)
    ensures s.name == d.deviceID.GetOr(NoData)
    ensures s.status == NormalizeStatus(d.waterStatus)
    ensures d.waterLevel.Some? ==> s.waterLevel == Level(d.waterLevel.value) && s.unit == Some("cm")
    ensures d.waterLevel.None? ==> s.waterLevel == LevelText(NoData) && s.unit.None?
    ensures Coordinates(s.latitude, s.longitude) == ExtractLatLng(d.location)
    ensures s.location == FormatLocation(d.location, env)
    ensures s.updatedAt == FormatAgo(OrElse(d.waterUpdatedAt, d.lastActive), NoData, env)
  {
    var coords := ExtractLatLng(d.location);
    Sensor(
      name := d.deviceID.GetOr(NoData),
      status := NormalizeStatus(d.waterStatus),
      waterLevel := if d.waterLevel.Some? then Level(d.waterLevel.value) else LevelText(NoData),
      unit := if d.waterLevel.Some? then Some("cm") else None,
      updatedAt := FormatAgo(OrElse(d.waterUpdatedAt, d.lastActive), NoData, env),
      location := FormatLocation(d.location, env),
      latitude := coords.latitude,
      longitude := coords.longitude)
  }

  /** mapSensors: one row per record, in the same order. */
  function MapSensors(ds: seq<DeviceRecord>, env: Env): (ss: seq<Sensor>)
    ensures |ss| == |ds|
    ensures forall i :: 0 <= i < |ds| ==> ss[i] == MapSensor(ds[i], env)
  {
    if ds == [] then [] else [MapSensor(ds[0], env)] + MapSensors(ds[1..], env)
  }

  /** `findIndex` by name: the first row with the name, if any. */
  function IndexOfName(sensors: seq<Sensor>, name: string): (i: Option<nat>)
    ensures i.None? <==> forall k :: 0 <= k < |sensors| ==> sensors[k].name != name
    ensures i.Some? ==> (i.value < |sensors| && sensors[i.value].name == name &&
      forall k :: 0 <= k < i.value ==> sensors[k].name != name)
  {
    if sensors == [] then None
    else if sensors[0].name == name then Some(0)
    else
      var rest := IndexOfName(sensors[1..], name);
      if rest.None? then None else Some(rest.value + 1)
  }

  /** The `setSensors` updater of handleSensorUpdate: replace the row of that name, or append. */
  function UpsertSensor(prev: seq<Sensor>, mapped: Sensor): (next: seq<Sensor>)
    ensures IndexOfName(prev, mapped.name).None? ==> next == prev + [mapped]
    ensures IndexOfName(prev, mapped.name).Some? ==>
      next == prev[IndexOfName(prev, mapped.name).value := mapped]
  {
    match IndexOfName(prev, mapped.name)
    case None => prev + [mapped]
    case Some(i) => prev[i := mapped]
  }

  /** After an upsert the row is found under its name, whole, and no other row has moved. */
  lemma UpsertSensorFindsRow(prev: seq<Sensor>, mapped: Sensor)
    ensures var next := UpsertSensor(prev, mapped);
      && IndexOfName(next, mapped.name).Some?
      && next[IndexOfName(next, mapped.name).value] == mapped
      && |next| == |prev| + (if IndexOfName(prev, mapped.name).None? then 1 else 0)
      && forall k :: 0 <= k < |prev| && prev[k].name != mapped.name ==> next[k] == prev[k]
  {
    var next := UpsertSensor(prev, mapped);
    if IndexOfName(prev, mapped.name).None? {
      assert next[|prev|] == mapped;
      assert IndexOfName(next, mapped.name).Some?;
      assert IndexOfName(next, mapped.name).value == |prev|;
    } else {
      var i := IndexOfName(prev, mapped.name).value;
      assert next[i].name == mapped.name;
      assert forall k :: 0 <= k < i ==> next[k].name != mapped.name;
      assert IndexOfName(next, mapped.name).Some?;
    }
  }

  /** A repeated update leaves the rows as after the first. */
  lemma UpsertSensorIdempotent(prev: seq<Sensor>, mapped: Sensor)
    ensures UpsertSensor(UpsertSensor(prev, mapped), mapped) == UpsertSensor(prev, mapped)
  {
    UpsertSensorFindsRow(prev, mapped);
    var next := UpsertSensor(prev, mapped);
    var i := IndexOfName(next, mapped.name).value;
    assert next[i := mapped] == next;
  }

  // ------------------------------------------------------------------ map and headline

  predicate HasCoordinates(s: Sensor) {
    s.latitude.Some? && s.longitude.Some?
  }

  /** mapSensorsWithCoords: the rows with both coordinates, in order; each gets a marker. */
  function MarkerSensors(sensors: seq<Sensor>): (r: seq<Sensor>)
    ensures Subsequences.IsFilterOf(r, sensors, HasCoordinates)
    ensures forall k :: 0 <= k < |r| ==> HasCoordinates(r[k])
    ensures forall k :: 0 <= k < |sensors| && HasCoordinates(sensors[k]) ==> sensors[k] in r
    ensures forall x :: x in r ==> x in sensors
    ensures |r| <= |sensors|
  {
    if sensors == [] then []
    else
      var rest := MarkerSensors(sensors[1..]);
      assert sensors == [sensors[0]] + sensors[1..];
      Subsequences.FilterCons(sensors[0], sensors[1..], rest, HasCoordinates);
      var r := (if HasCoordinates(sensors[0]) then [sensors[0]] else []) + rest;
      Subsequences.FilterMembers(r, sensors, HasCoordinates);
      Subsequences.SubsequenceShorter(r, sensors);
      r
  }

  /** The first row with both coordinates, if any (`sensors.find(...)`). */
  function FirstWithCoordinates(sensors: seq<Sensor>): (r: Option<nat>)
    ensures r.None? <==> forall k :: 0 <= k < |sensors| ==> !HasCoordinates(sensors[k])
    ensures r.Some? ==> (r.value < |sensors| && HasCoordinates(sensors[r.value]) &&
      forall k :: 0 <= k < r.value ==> !HasCoordinates(sensors[k]))
  {
    if sensors == [] then None
    else if HasCoordinates(sensors[0]) then Some(0)
    else
      var rest := FirstWithCoordinates(sensors[1..]);
      if rest.None? then None else Some(rest.value + 1)
  }

  const DefaultCenter: (real, real) := (-6.2, 106.816666)

  /** mapCenter: the first marker's position, or the default centre without markers. */
  function MapCenter(sensors: seq<Sensor>): (c: (real, real))
    ensures FirstWithCoordinates(sensors).Some? ==>
      var s := sensors[FirstWithCoordinates(sensors).value];
      c == (s.latitude.value, s.longitude.value)
    ensures FirstWithCoordinates(sensors).None? ==> c == DefaultCenter
  {
    MarkersStartAtFirst(sensors);
    var markers := MarkerSensors(sensors);
    if |markers| > 0 then (markers[0].latitude.value, markers[0].longitude.value) else DefaultCenter
  }

  /** The first marker is the first row with both coordinates; without such a row there is no marker. */
  lemma {:induction false} MarkersStartAtFirst(sensors: seq<Sensor>)
    ensures FirstWithCoordinates(sensors).Some? ==>
      MarkerSensors(sensors) != [] && MarkerSensors(sensors)[0] == sensors[FirstWithCoordinates(sensors).value]
    ensures FirstWithCoordinates(sensors).None? ==> MarkerSensors(sensors) == []
  {
    var markers := MarkerSensors(sensors);
    if markers != [] {
      assert HasCoordinates(markers[0]) && markers[0] in sensors;
    }
    if FirstWithCoordinates(sensors).Some? && !HasCoordinates(sensors[0]) {
      MarkersStartAtFirst(sensors[1..]);
      assert FirstWithCoordinates(sensors).value == FirstWithCoordinates(sensors[1..]).value + 1;
    }
  }

  /** primarySensor: the first row with both coordinates, else the first row. */
  function PrimarySensor(sensors: seq<Sensor>): (r: Option<Sensor>)
    ensures r.None? <==> |sensors| == 0
    ensures r.Some? ==> r.value in sensors
    ensures (exists k :: 0 <= k < |sensors| && HasCoordinates(sensors[k])) ==>
      r.Some? && HasCoordinates(r.value) &&
      exists i :: 0 <= i < |sensors| && r.value == sensors[i] &&
        forall k :: 0 <= k < i ==> !HasCoordinates(sensors[k])
    ensures (forall k :: 0 <= k < |sensors| ==> !HasCoordinates(sensors[k])) && |sensors| > 0 ==>
      r == Some(sensors[0])
  {
    match FirstWithCoordinates(sensors)
    case Some(i) => Some(sensors[i])
    case None => if |sensors| > 0 then Some(sensors[0]) else None
  }

  /** primaryLocation and lastUpdatedLabel: the headline row's texts, or no data. */
  function Headline(sensors: seq<Sensor>): (r: (string, string))
    ensures |sensors| == 0 ==> r == (NoData, NoData)
    ensures |sensors| > 0 ==>
      var p := PrimarySensor(sensors).value;
      r == (if p.location != "" then p.location else NoData, if p.updatedAt != "" then p.updatedAt else NoData)
    ensures r.0 != "" && r.1 != ""
  {
    match PrimarySensor(sensors)
    case None => (NoData, NoData)
    case Some(s) =>
      (if s.location != "" then s.location else NoData, if s.updatedAt != "" then s.updatedAt else NoData)
  }

  /**
   * The map is centred on the headline sensor whenever any sensor has coordinates, and on the
   * default centre otherwise.
   */
  lemma {:induction false} CenterIsPrimary(sensors: seq<Sensor>)
    ensures FirstWithCoordinates(sensors).Some? ==>
      PrimarySensor(sensors).Some? && HasCoordinates(PrimarySensor(sensors).value) &&
      MapCenter(sensors) == (PrimarySensor(sensors).value.latitude.value, PrimarySensor(sensors).value.longitude.value)
    ensures FirstWithCoordinates(sensors).None? ==> MapCenter(sensors) == DefaultCenter
  {
    if sensors != [] {
      CenterIsPrimary(sensors[1..]);
      var markers := MarkerSensors(sensors);
      var rest := MarkerSensors(sensors[1..]);
      if HasCoordinates(sensors[0]) {
        assert markers[0] == sensors[0];
      } else {
        assert markers == rest;
        if FirstWithCoordinates(sensors).Some? {
          assert FirstWithCoordinates(sensors).value == FirstWithCoordinates(sensors[1..]).value + 1;
        }
      }
    }
  }
}
