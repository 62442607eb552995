/**
 * Ingestion and alerting (hydroalert-backend/src/controllers/deviceController.js): device
 * registration, storing a classified reading behind a jump sanity check, and the per-device,
 * per-severity notification cooldown with its alert message.
 *
 * The three collections the controller reads and writes (devices, sensor readings,
 * notifications) and the outgoing Telegram messages are the fields of one `BackendStore`;
 * each request is one method call and `now` is the request's clock value in milliseconds.
 */
module DeviceController {
  import opened Wrappers
  import opened StatusHelper
  import opened Models

  /** A change in level strictly above this many cm ... */
  const MaxJump: real := 100.0
  /** ... within strictly less than this many ms of the last reading is rejected. */
  const MinGapMs: int := 30 * 1000
  /** A notification suppresses another of the same device and severity for this long. */
  const CooldownMs: int := 30 * 60 * 1000

  const StatusOk: int := 200
  const StatusCreated: int := 201
  const StatusBadRequest: int := 400
  const StatusServerError: int := 500

  /**
   * The Notification schema's checks that a create can fail here: `avgWaterLevel` is required
   * and `severity` must be one of the five tier names. A create that fails them throws.
   */
  predicate SchemaAccepts(severity: string, avgWaterLevel: Option<real>) {
    avgWaterLevel.Some? && severity in OrderedStatuses
  }

  /** The text used when a status has no title template. */
  const FallbackTitle: string := "Peringatan Sensor"

  /**
   * One Telegram message. `title` and `message` are the raw template lookups: the message
   * text interpolates them without the fallbacks, so an absent one is printed as "undefined".
   */
  datatype AlertMessage = AlertMessage(
    deviceID: string, status: string, title: Option<string>, message: Option<MessageText>,
    level: real, sentAt: int)

  function Abs(x: real): real { if x < 0.0 then -x else x }

  // ------------------------------------------------------------ sanity check

  /**
   * `SensorData.findOne({ deviceID }).sort({ createdAt: -1 })`: a reading of the device with
   * the largest creation time (among equal times, the one stored last).
   */
  function LatestReading(rs: seq<SensorData>, deviceID: string): (r: Option<SensorData>)
    ensures r.None? <==> forall i :: 0 <= i < |rs| ==> rs[i].deviceID != deviceID
    ensures r.Some? ==> r.value in rs && r.value.deviceID == deviceID
    ensures r.Some? ==> forall i :: 0 <= i < |rs| && rs[i].deviceID == deviceID ==>
      rs[i].createdAt <= r.value.createdAt
  {
    if rs == [] then None
    else
      var last := rs[|rs| - 1];
      var prev := LatestReading(rs[..|rs| - 1], deviceID);
      assert forall i :: 0 <= i < |rs| - 1 ==> rs[i] == rs[..|rs| - 1][i];
      if last.deviceID != deviceID then prev
      else if prev.Some? && prev.value.createdAt > last.createdAt then prev
      else Some(last)
  }

  /** The jump test: more than 100 cm away from `last`, less than 30 s after it. */
  predicate IsSuspiciousJump(last: SensorData, level: real, now: int) {
    Abs(level - last.waterLevel) > MaxJump && now - last.createdAt < MinGapMs
  }

  /** A new reading is refused iff the device has a previous reading and the jump test holds. */
  predicate Rejects(rs: seq<SensorData>, deviceID: string, level: real, now: int) {
    var last := LatestReading(rs, deviceID);
    last.Some? && IsSuspiciousJump(last.value, level, now)
  }

  // ------------------------------------------------------------ notifications

  /** The notification query: same device, same severity, created strictly after now − 30 min. */
  predicate InCooldown(ns: seq<Notification>, deviceID: string, severity: string, now: int) {
    exists i :: 0 <= i < |ns| && ns[i].deviceID == deviceID && ns[i].severity == severity &&
      ns[i].createdAt > now - CooldownMs
  }

  /** `titleMap[status]`: keyed by 'Siaga', 'Waspada' and 'Bahaya'. */
  function TitleTemplate(status: string): Option<string> {
    if status == "Siaga" then Some("Siaga: Ketinggian Air Mencapai Tingkat Siaga")
    else if status == "Waspada" then Some("Waspada: Potensi Banjir Terdeteksi")
    else if status == "Bahaya" then Some("BAHAYA: BANJIR TERDETEKSI!")
    else None
  }

  /** `messageMap[status]`, with the same three keys. */
  function MessageTemplate(deviceID: string, status: string, level: real): Option<MessageText> {
    if status == "Siaga" then Some(SiagaMessage(deviceID, level))
    else if status == "Waspada" then Some(WaspadaMessage(level))
    else if status == "Bahaya" then Some(BahayaMessage(level))
    else None
  }

  /** The stored title: the template, or 'Peringatan Sensor'. */
  function StoredTitle(status: string): (t: string)
    ensures TitleTemplate(status).None? ==> t == FallbackTitle
    ensures TitleTemplate(status).Some? ==> t == TitleTemplate(status).value
  {
    TitleTemplate(status).GetOr(FallbackTitle)
  }

  /** The stored message: the template, or `Status sensor: <status> (<level>cm)`. */
  function StoredMessage(deviceID: string, status: string, level: real): (m: MessageText)
    ensures MessageTemplate(deviceID, status, level).None? ==> m == FallbackMessage(status, level)
    ensures MessageTemplate(deviceID, status, level).Some? ==> !m.FallbackMessage?
  {
    MessageTemplate(deviceID, status, level).GetOr(FallbackMessage(status, level))
  }

  // ------------------------------------------------------------ the store

  class BackendStore {
    /** The Device collection, keyed by deviceID (the schema makes it unique). */
    var devices: map<string, Device>
    /** The SensorData collection in insertion order. */
    var readings: seq<SensorData>
    /** The Notification collection in insertion order. */
    var notifications: seq<Notification>
    /** Messages handed to the Telegram sender, in order. */
    var outbox: seq<AlertMessage>

    /**
     * Every device is stored under its own id; every reading belongs to a registered device
     * and carries the tier of its level; every notification is an alert for a non-Normal tier,
     * and the outbox holds exactly one message per notification, in the same order.
     */
    ghost predicate Valid()
      reads this
    {
      && (forall id :: id in devices ==> devices[id].deviceID == id)
      && (forall i :: 0 <= i < |readings| ==> readings[i].deviceID in devices)
      && (forall i :: 0 <= i < |readings| ==>
            readings[i].status == TierName(GetWaterStatus(readings[i].waterLevel)))
      && (forall i :: 0 <= i < |notifications| ==>
            notifications[i].severity in OrderedStatuses && notifications[i].severity != "Normal")
      && |outbox| == |notifications|
      && (forall i :: 0 <= i < |outbox| ==>
            outbox[i].deviceID == notifications[i].deviceID &&
            outbox[i].status == notifications[i].severity &&
            outbox[i].sentAt == notifications[i].createdAt)
    }

    constructor ()
      ensures Valid()
      ensures devices == map[] && readings == [] && notifications == [] && outbox == []
    {
      devices := map[];
      readings := [];
      notifications := [];
      outbox := [];
    }

    /**
     * registerDevice: 200 and no change for a known id; otherwise 201 and one new device with
     * the given coordinates (its `lastActive` defaults to now).
     */
    method RegisterDevice(deviceID: string, lat: Option<real>, long: Option<real>, now: int)
      returns (code: int)
      requires Valid()
      modifies this
      ensures Valid()
      ensures deviceID in old(devices) ==> code == StatusOk && devices == old(devices)
      ensures deviceID !in old(devices) ==>
        (code == StatusCreated &&
         devices == old(devices)[deviceID := Device(deviceID, Some(Location(lat, long)), now)])
      ensures readings == old(readings) && notifications == old(notifications)
      ensures outbox == old(outbox)
    {
      if deviceID in devices {
        return StatusOk;
      }
      devices := devices[deviceID := Device(deviceID, Some(Location(lat, long)), now)];
      code := StatusCreated;
    }

    /**
     * handleNotification: unless the cooldown query finds a match, store one notification with
     * the template title and message (or their fallbacks) and send one alert message.
     */
    method HandleNotification(deviceID: string, status: string, level: real, now: int)
      requires Valid()
      requires status in OrderedStatuses && status != "Normal"
      modifies this
      ensures Valid()
      ensures devices == old(devices) && readings == old(readings)
      ensures InCooldown(old(notifications), deviceID, status, now) ==>
        notifications == old(notifications) && outbox == old(outbox)
      ensures !InCooldown(old(notifications), deviceID, status, now) ==>
        notifications == old(notifications) + [Notification(deviceID, status, StoredTitle(status),
                                                            StoredMessage(deviceID, status, level), level, now)] &&
        outbox == old(outbox) + [AlertMessage(deviceID, status, TitleTemplate(status),
                                              MessageTemplate(deviceID, status, level), level, now)]
    {
      if InCooldown(notifications, deviceID, status, now) {
        return;
      }
      notifications := notifications + [Notification(deviceID, status, StoredTitle(status),
                                                     StoredMessage(deviceID, status, level), level, now)];
      outbox := outbox + [AlertMessage(deviceID, status, TitleTemplate(status),
                                       MessageTemplate(deviceID, status, level), level, now)];
    }

    /**
     * handleNotification as written: the create leaves `avgWaterLevel` out, so outside the
     * cooldown it fails the schema and throws before anything is stored or sent.
     */
    method HandleNotificationAsWritten(deviceID: string, status: string, level: real, now: int)
      returns (thrown: bool)
      requires Valid()
      requires status in OrderedStatuses && status != "Normal"
      modifies this
      ensures Valid()
      ensures thrown <==> !InCooldown(old(notifications), deviceID, status, now)
      ensures devices == old(devices) && readings == old(readings)
      ensures notifications == old(notifications) && outbox == old(outbox)
    {
      if InCooldown(notifications, deviceID, status, now) {
        return false;
      }
      assert !SchemaAccepts(status, None);
      thrown := true;
    }

    /** The first step of storeSensorData: an unknown device is created with no location. */
    method EnsureRegistered(deviceID: string, now: int)
      requires Valid()
      modifies this
      ensures Valid()
      ensures devices == if deviceID in old(devices) then old(devices)
                         else old(devices)[deviceID := Device(deviceID, None, now)]
      ensures readings == old(readings) && notifications == old(notifications) && outbox == old(outbox)
    {
      if deviceID !in devices {
        devices := devices[deviceID := Device(deviceID, None, now)];
      }
    }

    /** An accepted reading: the device is marked active and the classified reading appended. */
    method AppendReading(deviceID: string, rainIntensity: real, waterLevel: real, windSpeed: real, now: int)
      requires Valid() && deviceID in devices
      modifies this
      ensures Valid()
      ensures devices == old(devices)[deviceID := old(devices)[deviceID].(lastActive := now)]
      ensures readings == old(readings) + [SensorData(deviceID, rainIntensity, waterLevel, windSpeed,
                                                      TierName(GetWaterStatus(waterLevel)), now)]
      ensures notifications == old(notifications) && outbox == old(outbox)
    {
      devices := devices[deviceID := devices[deviceID].(lastActive := now)];
      readings := readings + [SensorData(deviceID, rainIntensity, waterLevel, windSpeed,
                                         TierName(GetWaterStatus(waterLevel)), now)];
    }

    /**
     * storeSensorData: register an unknown device with no location, refuse a suspicious jump
     * with 400, otherwise mark the device active, append the classified reading, alert on any
     * non-Normal tier and answer 201.
     */
    method StoreSensorData(deviceID: string, rainIntensity: real, waterLevel: real,
                           windSpeed: real, now: int)
      returns (code: int)
      requires Valid()
      modifies this
      ensures Valid()
      ensures deviceID in devices
      ensures deviceID !in old(devices) ==> devices[deviceID].location.None?
      ensures code == StatusBadRequest <==> Rejects(old(readings), deviceID, waterLevel, now)
      ensures code == StatusBadRequest ==>
        readings == old(readings) && notifications == old(notifications) &&
        outbox == old(outbox) &&
        devices == (if deviceID in old(devices) then old(devices)
                    else old(devices)[deviceID := Device(deviceID, None, now)])
      ensures code != StatusBadRequest ==>
        (code == StatusCreated &&
         devices == old(devices)[deviceID := (if deviceID in old(devices) then old(devices)[deviceID]
                                              else Device(deviceID, None, now)).(lastActive := now)] &&
         readings == old(readings) + [SensorData(deviceID, rainIntensity, waterLevel, windSpeed,
                                                 TierName(GetWaterStatus(waterLevel)), now)])
      ensures code != StatusBadRequest && GetWaterStatus(waterLevel) == Normal ==>
        notifications == old(notifications) && outbox == old(outbox)
      ensures code != StatusBadRequest && GetWaterStatus(waterLevel) != Normal ==>
        var status := TierName(GetWaterStatus(waterLevel));
        if InCooldown(old(notifications), deviceID, status, now) then
          notifications == old(notifications) && outbox == old(outbox)
        else
          notifications == old(notifications) + [Notification(deviceID, status, StoredTitle(status),
                                                              StoredMessage(deviceID, status, waterLevel), waterLevel, now)] &&
          outbox == old(outbox) + [AlertMessage(deviceID, status, TitleTemplate(status),
                                                MessageTemplate(deviceID, status, waterLevel), waterLevel, now)]
    {
      EnsureRegistered(deviceID, now);
      var last := LatestReading(readings, deviceID);
      if last.Some? && IsSuspiciousJump(last.value, waterLevel, now) {
        return StatusBadRequest;
      }
      AppendReading(deviceID, rainIntensity, waterLevel, windSpeed, now);
      var tier := GetWaterStatus(waterLevel);
      var status := TierName(tier);
      if tier != Normal {
        TierNamesOrdered(tier);
        HandleNotification(deviceID, status, waterLevel, now);
      }
      code := StatusCreated;
    }

    /**
     * storeSensorData as written: a reading that passes the sanity check is stored and its
     * device marked active; when its tier is not Normal and no notification of that tier is
     * in its cooldown, handleNotification throws and the catch answers 500. No notification is
     * ever stored and no message sent, so no cooldown ever starts either.
     */
    method StoreSensorDataAsWritten(deviceID: string, rainIntensity: real, waterLevel: real,
                                    windSpeed: real, now: int)
      returns (code: int)
      requires Valid()
      modifies this
      ensures Valid()
      ensures deviceID in devices
      ensures code == StatusBadRequest <==> Rejects(old(readings), deviceID, waterLevel, now)
      ensures code == StatusServerError <==>
        (!Rejects(old(readings), deviceID, waterLevel, now) && GetWaterStatus(waterLevel) != Normal &&
         !InCooldown(old(notifications), deviceID, TierName(GetWaterStatus(waterLevel)), now))
      ensures code == StatusBadRequest || code == StatusServerError || code == StatusCreated
      ensures code == StatusBadRequest ==>
        readings == old(readings) &&
        devices == (if deviceID in old(devices) then old(devices)
                    else old(devices)[deviceID := Device(deviceID, None, now)])
      ensures code != StatusBadRequest ==>
        devices == old(devices)[deviceID := (if deviceID in old(devices) then old(devices)[deviceID]
                                             else Device(deviceID, None, now)).(lastActive := now)] &&
        readings == old(readings) + [SensorData(deviceID, rainIntensity, waterLevel, windSpeed,
                                                TierName(GetWaterStatus(waterLevel)), now)]
      ensures notifications == old(notifications) && outbox == old(outbox)
    {
      EnsureRegistered(deviceID, now);
      var last := LatestReading(readings, deviceID);
      if last.Some? && IsSuspiciousJump(last.value, waterLevel, now) {
        return StatusBadRequest;
      }
      AppendReading(deviceID, rainIntensity, waterLevel, windSpeed, now);
      var tier := GetWaterStatus(waterLevel);
      var status := TierName(tier);
      code := StatusCreated;
      if tier != Normal {
        TierNamesOrdered(tier);
        var thrown := HandleNotificationAsWritten(deviceID, status, waterLevel, now);
        if thrown {
          code := StatusServerError;
        }
      }
    }
  }

  // ------------------------------------------------------------ properties

  /** The boundaries of the jump test: a jump of exactly 100 cm, or a gap of exactly 30 s, passes. */
  lemma JumpBoundaries(last: SensorData, now: int)
    ensures !IsSuspiciousJump(last, last.waterLevel + MaxJump, now)
    ensures !IsSuspiciousJump(last, last.waterLevel - MaxJump, now)
    ensures !IsSuspiciousJump(last, last.waterLevel + 1000.0, last.createdAt + MinGapMs)
    ensures IsSuspiciousJump(last, last.waterLevel + 100.5, last.createdAt + MinGapMs - 1)
  {
  }

  /** A device with no stored reading is never refused, whatever the level. */
  lemma FirstReadingAccepted(rs: seq<SensorData>, deviceID: string, level: real, now: int)
    requires forall i :: 0 <= i < |rs| ==> rs[i].deviceID != deviceID
    ensures !Rejects(rs, deviceID, level, now)
  {
  }

  /**
   * The cooldown is per severity: notifications of the same device with other severities never
   * block, and one created exactly 30 minutes ago no longer does.
   */
  lemma {:induction false} CooldownIsPerSeverity(ns: seq<Notification>, deviceID: string, severity: string, now: int)
    requires forall i :: 0 <= i < |ns| && ns[i].deviceID == deviceID ==>
      ns[i].severity != severity || ns[i].createdAt <= now - CooldownMs
    ensures !InCooldown(ns, deviceID, severity, now)
  {
  }

  /** A notification just stored blocks the same device and severity for the next 30 minutes. */
  lemma CooldownAfterAlert(ns: seq<Notification>, n: Notification, now: int)
    requires n.createdAt <= now < n.createdAt + CooldownMs
    ensures InCooldown(ns + [n], n.deviceID, n.severity, now)
  {
    assert (ns + [n])[|ns|] == n;
  }

  /**
   * The template maps are keyed 'Siaga', so the tiers 'Siaga 1' and 'Siaga 2' take the fallback
   * title and message, and their Telegram text carries no title and no message; Waspada and
   * Bahaya get their templates.
   */
  lemma SiagaTiersUseFallback(deviceID: string, level: real)
    ensures forall t :: t == Siaga1 || t == Siaga2 ==>
      StoredTitle(TierName(t)) == FallbackTitle &&
      StoredMessage(deviceID, TierName(t), level) == FallbackMessage(TierName(t), level) &&
      TitleTemplate(TierName(t)).None? && MessageTemplate(deviceID, TierName(t), level).None?
    ensures forall t :: t == Waspada || t == Bahaya ==>
      StoredTitle(TierName(t)) != FallbackTitle && !StoredMessage(deviceID, TierName(t), level).FallbackMessage?
  {
  }
}
