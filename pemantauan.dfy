/**
 * The monitoring page's data shaping (hydroalert-frontend/src/pages/pemantauan.tsx): the
 * mapping from `/api/monitoring` device records to the cards the page shows, the choice of the
 * active card, and the two live updaters (a new reading, a new camera image).
 *
 * React state is modelled by the values the updaters return; the socket subscriptions, the
 * polling interval and the JSX are not modelled.
 */
module Pemantauan {
  import opened Wrappers
  import opened Browser
  import opened MonitoringApi
  import Text
  import JsMath
  import StatusHelper

  datatype CardStatus = Normal | Warning

  predicate IsWarningWord(w: string) {
    w == "warning" || w == "bahaya" || w == "waspada"
  }

  /** normalizeStatus: a warning word in any letter case is a warning; anything else is normal. */
  function NormalizeStatus(status: Option<string>): (r: CardStatus)
    ensures status.None? ==> r == Normal
    ensures r == Warning <==>
      (status.Some? && Text.ToLower(status.value) in ["warning", "bahaya", "waspada"])
    ensures r == Warning ==> 6 <= |status.value| <= 7
  {
    if IsWarningWord(Text.ToLower(OrEmpty(status))) then Warning else Normal
  }

  /** The status comparison ignores letter case; a missing status is normal. */
  lemma NormalizeStatusIgnoresCase(s: string)
    ensures NormalizeStatus(Some(s)) == NormalizeStatus(Some(Text.ToLower(s)))
    ensures NormalizeStatus(None) == Normal && NormalizeStatus(Some("")) == Normal
  {
    Text.ToLowerIdempotent(s);
  }

  /**
   * Of the five statuses the backend stores, only 'Waspada' and 'Bahaya' show as a warning:
   * 'Siaga 1' and 'Siaga 2', which lie between them, show as normal.
   */
  lemma BackendTiersOnCards(t: StatusHelper.Tier)
    ensures NormalizeStatus(Some(StatusHelper.TierName(t))) == Warning <==>
      t == StatusHelper.Waspada || t == StatusHelper.Bahaya
  {
    var low := Text.ToLower(StatusHelper.TierName(t));
    match t
    case Normal => assert low[0] == 'n';
    case Siaga1 => assert low[0] == 's';
    case Siaga2 => assert low[0] == 's';
    case Waspada =>
      assert forall i :: 0 <= i < 7 ==> low[i] == "waspada"[i];
      assert low == "waspada";
    case Bahaya =>
      assert forall i :: 0 <= i < 6 ==> low[i] == "bahaya"[i];
      assert low == "bahaya";
  }

  /** scaleFill(value, max): the value as a whole percentage of `max`, capped at 100. */
  function ScaleFill(value: real, max: real): (r: int)
    requires max > 0.0
    ensures r <= 100
    ensures value >= 0.0 ==> r >= 0
    ensures value >= max ==> r == 100
    ensures r < 100 ==> value / max * 100.0 - 0.5 < r as real <= value / max * 100.0 + 0.5
    ensures r == 100 ==> value / max * 100.0 + 0.5 >= 100.0
  {
    var ratio := value / max;
    assert value >= max ==> ratio >= 1.0;
    assert value >= 0.0 ==> ratio >= 0.0;
    var p := JsMath.Round(ratio * 100.0);
    if p < 100 then p else 100
  }

  /** A larger value never gives a smaller fill. */
  lemma ScaleFillMonotone(v: real, w: real, max: real)
    requires max > 0.0 && v <= w
    ensures ScaleFill(v, max) <= ScaleFill(w, max)
  {
    assert v / max <= w / max;
    JsMath.RoundMonotone(v / max * 100.0, w / max * 100.0);
  }

  datatype Place = Place(location: string, coordinates: string)

  const UnknownLocation: string := "Lokasi tidak diketahui"

  /**
   * formatLocation: non-blank text as it is, with no coordinates; an object with both
   * coordinates as `Lat: …, Lon: …`; anything else unknown.
   */
  function FormatLocation(loc: LocationValue, env: Env): (p: Place)
    ensures loc.LocText? && Text.Trim(loc.text) != "" ==> p == Place(loc.text, "-")
    ensures loc.LocObject? && loc.latitude.Some? && loc.longitude.Some? ==>
      p == Place("Lat: " + env.numberText(loc.latitude.value) + ", Lon: " + env.numberText(loc.longitude.value),
                 env.numberText(loc.latitude.value) + ", " + env.numberText(loc.longitude.value))
    ensures (!(loc.LocText? && Text.Trim(loc.text) != "") &&
             !(loc.LocObject? && loc.latitude.Some? && loc.longitude.Some?)) ==> p == Place(UnknownLocation, "-")
    ensures p.location != ""
  {
    match loc
    case LocText(s) =>
      if Text.Trim(s) != "" then Place(s, "-") else Place(UnknownLocation, "-")
    case LocObject(lat, lon) =>
      if lat.Some? && lon.Some? then
        var a := env.numberText(lat.value);
        var b := env.numberText(lon.value);
        Place("Lat: " + a + ", Lon: " + b, a + ", " + b)
      else Place(UnknownLocation, "-")
    case LocAbsent => Place(UnknownLocation, "-")
  }

  datatype Metric = Metric(caption: string, value: real, unit: string, status: CardStatus,
                           scaleFill: int, trend: string, detail: string)

  datatype Card = Card(id: string, name: string, heroLabel: string, heroValue: real, heroUnit: string,
                       status: CardStatus, updatedAt: string, metrics: seq<Metric>, cameraTime: string,
                       location: string, coordinates: string, cameraImage: string)

  const UnknownDeviceId: string := "unknown-device"
  const WindScaleMax: real := 60.0
  const RainScaleMax: real := 80.0

  /** The card of one device record (the callback of `mapMonitoringDevices`). */
  function MapDevice(d: DeviceRecord, env: Env): (c: Card)
    ensures c.id == OrElse(d.deviceID, Some(UnknownDeviceId)).value && c.id != ""
    ensures c.heroValue == d.waterLevel.GetOr(0.0)
    ensures c.status == NormalizeStatus(d.waterStatus)
    ensures |c.metrics| == 2
    ensures forall k :: 0 <= k < 2 ==> c.metrics[k].status == c.status && c.metrics[k].scaleFill <= 100
    ensures d.windSpeed.GetOr(0.0) >= 0.0 ==> c.metrics[0].scaleFill >= 0
    ensures d.rainIntensity.GetOr(0.0) >= 0.0 ==> c.metrics[1].scaleFill >= 0
    ensures c.name == OrElse(d.deviceID, Some("Perangkat")).value
    ensures c.heroLabel == "Ketinggian Air Sungai" && c.heroUnit == "cm"
    ensures c.updatedAt == FormatTime(OrElse(d.waterUpdatedAt, d.lastActive), "-", env)
    ensures c.cameraTime == FormatTime(d.lastActive, "-", env)
    ensures Place(c.location, c.coordinates) == FormatLocation(d.location, env)
    ensures c.metrics[0].caption == "Kecepatan Angin" && c.metrics[0].unit == "km/jam"
    ensures c.metrics[0].value == d.windSpeed.GetOr(0.0)
    ensures c.metrics[0].scaleFill == ScaleFill(d.windSpeed.GetOr(0.0), WindScaleMax)
    ensures c.metrics[0].detail == "Terakhir aktif " + FormatAgo(d.lastActive, "-", env)
    ensures c.metrics[1].caption == "Debit Air Hujan" && c.metrics[1].unit == "mm/jam"
    ensures c.metrics[1].value == d.rainIntensity.GetOr(0.0)
    ensures c.metrics[1].scaleFill == ScaleFill(d.rainIntensity.GetOr(0.0), RainScaleMax)
    ensures c.metrics[1].detail == "Diperbarui " + FormatAgo(d.waterUpdatedAt, "-", env)
    ensures c.metrics[0].trend == "" && c.metrics[1].trend == ""
    ensures c.cameraImage == d.imageUrl.GetOr("")
  {
    var status := NormalizeStatus(d.waterStatus);
    var place := FormatLocation(d.location, env);
    var wind := d.windSpeed.GetOr(0.0);
    var rain := d.rainIntensity.GetOr(0.0);
    Card(
      id := OrElse(d.deviceID, Some(UnknownDeviceId)).value,
      name := OrElse(d.deviceID, Some("Perangkat")).value,
      heroLabel := "Ketinggian Air Sungai",
      heroValue := d.waterLevel.GetOr(0.0),
      heroUnit := "cm",
      status := status,
      updatedAt := FormatTime(OrElse(d.waterUpdatedAt, d.lastActive), "-", env),
      metrics := [
        Metric("Kecepatan Angin", wind, "km/jam", status, ScaleFill(wind, WindScaleMax), "",
               "Terakhir aktif " + FormatAgo(d.lastActive, "-", env)),
        Metric("Debit Air Hujan", rain, "mm/jam", status, ScaleFill(rain, RainScaleMax), "",
               "Diperbarui " + FormatAgo(d.waterUpdatedAt, "-", env))
      ],
      cameraTime := FormatTime(d.lastActive, "-", env),
      location := place.location,
      coordinates := place.coordinates,
      cameraImage := d.imageUrl.GetOr(""))
  }

  /** mapMonitoringDevices: one card per record, in the same order. */
  function MapMonitoringDevices(ds: seq<DeviceRecord>, env: Env): (cs: seq<Card>)
    ensures |cs| == |ds|
    ensures forall i :: 0 <= i < |ds| ==> cs[i] == MapDevice(ds[i], env)
  {
    seq(|ds|, i requires 0 <= i < |ds| => MapDevice(ds[i], env))
  }

  /** `findIndex` by id: the first card with the id, if any. */
  function IndexOfId(cards: seq<Card>, id: string): (i: Option<nat>)
    ensures i.None? <==> forall k :: 0 <= k < |cards| ==> cards[k].id != id
    ensures i.Some? ==> (i.value < |cards| && cards[i.value].id == id &&
      forall k :: 0 <= k < i.value ==> cards[k].id != id)
  {
    if cards == [] then None
    else if cards[0].id == id then Some(0)
    else
      var rest := IndexOfId(cards[1..], id);
      if rest.None? then None else Some(rest.value + 1)
  }

  /** The card that replaces `old`: all of `mapped`, but an empty image keeps the previous one. */
  function Merge(previous: Card, mapped: Card): (c: Card)
    ensures c.(cameraImage := mapped.cameraImage) == mapped
    ensures c.cameraImage == if mapped.cameraImage != "" then mapped.cameraImage else previous.cameraImage
  {
    mapped.(cameraImage := if mapped.cameraImage != "" then mapped.cameraImage else previous.cameraImage)
  }

  /** The `setDevices` updater of handleSensorUpdate. */
  function UpsertCard(prev: seq<Card>, mapped: Card): (next: seq<Card>)
    ensures IndexOfId(prev, mapped.id).None? ==> next == prev + [mapped]
    ensures IndexOfId(prev, mapped.id).Some? ==>
      var i := IndexOfId(prev, mapped.id).value;
      |next| == |prev| && next[i] == Merge(prev[i], mapped) &&
      forall k :: 0 <= k < |prev| && k != i ==> next[k] == prev[k]
  {
    match IndexOfId(prev, mapped.id)
    case None => prev + [mapped]
    case Some(i) => prev[i := Merge(prev[i], mapped)]
  }

  /** handleSensorUpdate: map the single record, then upsert it. */
  function HandleSensorUpdate(prev: seq<Card>, payload: DeviceRecord, env: Env): (next: seq<Card>)
    ensures next == UpsertCard(prev, MapDevice(payload, env))
    ensures |next| == |prev| || next == prev + [MapDevice(payload, env)]
  {
    UpsertCard(prev, MapMonitoringDevices([payload], env)[0])
  }

  /** The ids of the cards. */
  function Ids(cards: seq<Card>): set<string> {
    set k | 0 <= k < |cards| :: cards[k].id
  }

  /** A card added at the end adds its id. */
  lemma IdsOfAppend(cards: seq<Card>, c: Card)
    ensures Ids(cards + [c]) == Ids(cards) + {c.id}
  {
    var next := cards + [c];
    forall x | x in Ids(next) ensures x in Ids(cards) + {c.id} {
      var k :| 0 <= k < |next| && next[k].id == x;
      if k < |cards| { assert cards[k].id == x; }
    }
    forall x | x in Ids(cards) + {c.id} ensures x in Ids(next) {
      if x == c.id { assert next[|cards|].id == x; }
      else { var k :| 0 <= k < |cards| && cards[k].id == x; assert next[k].id == x; }
    }
  }

  /** Replacing a card by one with the same id keeps the ids. */
  lemma IdsOfReplace(cards: seq<Card>, i: nat, c: Card)
    requires i < |cards| && cards[i].id == c.id
    ensures Ids(cards[i := c]) == Ids(cards)
  {
    var next := cards[i := c];
    forall x | x in Ids(next) ensures x in Ids(cards) {
      var k :| 0 <= k < |next| && next[k].id == x;
      assert cards[k].id == x;
    }
    forall x | x in Ids(cards) ensures x in Ids(next) {
      var k :| 0 <= k < |cards| && cards[k].id == x;
      assert next[k].id == x;
    }
  }

  /**
   * After an upsert the card is found under its id at the old position (or at the end), with
   * every field from the update except an empty image.
   */
  lemma UpsertFindsCard(prev: seq<Card>, mapped: Card)
    ensures var next := UpsertCard(prev, mapped);
      && IndexOfId(next, mapped.id).Some?
      && var i := IndexOfId(next, mapped.id).value;
      && (IndexOfId(prev, mapped.id).Some? ==> i == IndexOfId(prev, mapped.id).value)
      && (IndexOfId(prev, mapped.id).None? ==> i == |prev|)
      && next[i].(cameraImage := mapped.cameraImage) == mapped
      && (mapped.cameraImage != "" ==> next[i] == mapped)
  {
    match IndexOfId(prev, mapped.id)
    case None =>
      IndexAfterAppend(prev, mapped);
    case Some(i) =>
      MergeTakesUpdate(prev[i], mapped);
      IndexAfterReplace(prev, i, Merge(prev[i], mapped));
  }

  /** An upsert adds the update's id to the ids and no other. */
  lemma UpsertAddsId(prev: seq<Card>, mapped: Card)
    ensures Ids(UpsertCard(prev, mapped)) == Ids(prev) + {mapped.id}
  {
    match IndexOfId(prev, mapped.id)
    case None =>
      IdsOfAppend(prev, mapped);
    case Some(i) =>
      IdsOfReplace(prev, i, Merge(prev[i], mapped));
      assert prev[i].id == mapped.id;
  }

  /** The merged card is the update, except that an empty image keeps the previous one. */
  lemma MergeTakesUpdate(previous: Card, mapped: Card)
    ensures Merge(previous, mapped).(cameraImage := mapped.cameraImage) == mapped
    ensures mapped.cameraImage != "" ==> Merge(previous, mapped) == mapped
    ensures mapped.cameraImage == "" ==> Merge(previous, mapped).cameraImage == previous.cameraImage
  {
  }

  /** A card appended under a new id is found at the end. */
  lemma IndexAfterAppend(cards: seq<Card>, c: Card)
    requires IndexOfId(cards, c.id).None?
    ensures IndexOfId(cards + [c], c.id) == Some(|cards|)
  {
    var next := cards + [c];
    assert next[|cards|].id == c.id;
    assert forall k :: 0 <= k < |cards| ==> next[k] == cards[k];
  }

  /** A card replaced under its own id is still found at the same place. */
  lemma IndexAfterReplace(cards: seq<Card>, i: nat, c: Card)
    requires IndexOfId(cards, c.id) == Some(i)
    ensures IndexOfId(cards[i := c], c.id) == Some(i)
  {
    var next := cards[i := c];
    assert next[i].id == c.id;
    assert forall k :: 0 <= k < i ==> next[k] == cards[k];
  }

  /** Receiving the same update twice leaves the cards as after the first. */
  lemma UpsertIdempotent(prev: seq<Card>, mapped: Card)
    ensures UpsertCard(UpsertCard(prev, mapped), mapped) == UpsertCard(prev, mapped)
  {
    var next := UpsertCard(prev, mapped);
    UpsertFindsCard(prev, mapped);
    var i := IndexOfId(next, mapped.id).value;
    assert Merge(next[i], mapped) == next[i];
    assert next[i := next[i]] == next;
  }

  /**
   * The active-id updater after a fetch: the current id when some new card has it, else the
   * first card's id (none for an empty list).
   */
  function RetainActive(current: Option<string>, mapped: seq<Card>): (r: Option<string>)
    ensures r.None? <==> |mapped| == 0
    ensures r.Some? ==> exists k :: 0 <= k < |mapped| && mapped[k].id == r.value
    ensures current.Some? && IndexOfId(mapped, current.value).Some? ==> r == current
  {
    if current.Some? && IndexOfId(mapped, current.value).Some? then current
    else if |mapped| == 0 then None
    else Some(mapped[0].id)
  }

  /** activeDevice: none for no cards; else the first card with the active id, else the first card. */
  function ActiveDevice(devices: seq<Card>, activeId: Option<string>): (r: Option<Card>)
    ensures r.None? <==> |devices| == 0
    ensures r.Some? ==> r.value in devices
    ensures r.Some? && activeId.Some? && IndexOfId(devices, activeId.value).Some? ==>
      r.value.id == activeId.value
  {
    if |devices| == 0 then None
    else if activeId.Some? && IndexOfId(devices, activeId.value).Some? then
      Some(devices[IndexOfId(devices, activeId.value).value])
    else Some(devices[0])
  }

  /** After a fetch the shown card is the one the user had chosen, if it is still listed. */
  lemma ActiveAfterRefresh(current: Option<string>, mapped: seq<Card>)
    requires |mapped| > 0
    ensures var shown := ActiveDevice(mapped, RetainActive(current, mapped));
      && shown.Some?
      && (current.Some? && IndexOfId(mapped, current.value).Some? ==> shown.value.id == current.value)
      && (current.None? || IndexOfId(mapped, current.value).None? ==> shown.value.id == mapped[0].id)
  {
    var r := RetainActive(current, mapped);
    if !(current.Some? && IndexOfId(mapped, current.value).Some?) {
      assert r == Some(mapped[0].id);
      assert IndexOfId(mapped, mapped[0].id) == Some(0);
    }
  }

  /** handleNewImage: with both a device id and an image, every card of that id shows the image. */
  function ApplyNewImage(prev: seq<Card>, deviceID: Option<string>, imageUrl: Option<string>): (next: seq<Card>)
    ensures deviceID.None? || deviceID == Some("") || imageUrl.None? || imageUrl == Some("") ==> next == prev
    ensures |next| == |prev|
    ensures forall k :: 0 <= k < |prev| ==> next[k].(cameraImage := prev[k].cameraImage) == prev[k]
    ensures deviceID.Some? && deviceID.value != "" && imageUrl.Some? && imageUrl.value != "" ==>
      forall k :: 0 <= k < |prev| ==>
        next[k].cameraImage == if prev[k].id == deviceID.value then imageUrl.value else prev[k].cameraImage
  {
    if deviceID.None? || deviceID.value == "" || imageUrl.None? || imageUrl.value == "" then prev
    else ReplaceImage(prev, deviceID.value, imageUrl.value)
  }

  function ReplaceImage(cards: seq<Card>, id: string, url: string): (r: seq<Card>)
    ensures |r| == |cards|
    ensures forall k :: 0 <= k < |cards| ==>
      r[k] == if cards[k].id == id then cards[k].(cameraImage := url) else cards[k]
  {
    if cards == [] then []
    else [if cards[0].id == id then cards[0].(cameraImage := url) else cards[0]] + ReplaceImage(cards[1..], id, url)
  }

  /** A repeated image event changes nothing more. */
  lemma ApplyNewImageIdempotent(prev: seq<Card>, deviceID: Option<string>, imageUrl: Option<string>)
    ensures ApplyNewImage(ApplyNewImage(prev, deviceID, imageUrl), deviceID, imageUrl) ==
      ApplyNewImage(prev, deviceID, imageUrl)
  {
  }
}
