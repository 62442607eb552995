/**
 * The read side of the dashboard (hydroalert-backend/src/controllers/dashboardController.js):
 * the summary card built from the freshest worst device, and the per-device monitoring list.
 *
 * The `latest_device_status` hash, the Device, Notification and Image collections and the
 * clock are inputs. For the summary the hash is the sequence of its values in the order the
 * cache returns them; for the per-device join it is a map from deviceID.
 */
module DashboardController {
  import opened Wrappers
  import opened Models
  import Sorting
  import Subsequences

  /** Cache entries and devices older than five minutes are not current. */
  const FreshMs: int := 5 * 60 * 1000
  /** The dashboard shows at most this many notifications. */
  const RecentNotificationCount: nat := 5
  const DefaultStatus: string := "Normal"

  // ------------------------------------------------------------ JavaScript's `x || fallback`

  /** A string field where the empty string is falsy and becomes `null`. */
  function NonEmpty(s: string): (r: Option<string>)
    ensures r.None? <==> s == ""
    ensures r.Some? ==> r.value == s
  {
    if s == "" then None else Some(s)
  }

  /** A timestamp field where 0 is falsy and becomes `null`. */
  function NonZero(t: int): (r: Option<int>)
    ensures r.None? <==> t == 0
    ensures r.Some? ==> r.value == t
  {
    if t == 0 then None else Some(t)
  }

  function StatusOr(s: string): (r: string)
    ensures r != ""
    ensures s != "" ==> r == s
  {
    if s == "" then DefaultStatus else s
  }

  // ------------------------------------------------------------ summary

  /** An entry updated less than five minutes before `now`. */
  predicate IsFresh(e: CacheEntry, now: int) {
    now - e.updatedAt < FreshMs
  }

  /** The `filter` over the hash values: the fresh entries, in order. */
  function FreshEntries(es: seq<CacheEntry>, now: int): (r: seq<CacheEntry>)
    ensures Subsequences.IsFilterOf(r, es, e => IsFresh(e, now))
    ensures forall e :: e in r ==> e in es && IsFresh(e, now)
    ensures forall e :: e in es && IsFresh(e, now) ==> e in r
    ensures |r| <= |es|
  {
    if es == [] then []
    else
      var init, last := es[..|es| - 1], es[|es| - 1];
      var rest := FreshEntries(init, now);
      assert es == init + [last];
      assert forall e :: e in es <==> e in init || e == last;
      Subsequences.FilterStep(init, last, rest, e => IsFresh(e, now));
      if IsFresh(last, now) then rest + [last] else rest
  }

  /**
   * The `reduce` that keeps the running maximum and replaces it only on a strictly higher
   * level: the index of the first entry with the highest level.
   */
  function WorstIndex(es: seq<CacheEntry>): (i: nat)
    requires |es| > 0
    ensures i < |es|
    ensures forall j :: 0 <= j < |es| ==> es[j].waterLevel <= es[i].waterLevel
    ensures forall j :: 0 <= j < i ==> es[j].waterLevel < es[i].waterLevel
  {
    if |es| == 1 then 0
    else
      var m := WorstIndex(es[..|es| - 1]);
      assert forall j :: 0 <= j < |es| - 1 ==> es[j] == es[..|es| - 1][j];
      if es[|es| - 1].waterLevel > es[m].waterLevel then |es| - 1 else m
  }

  /** The response body of getDashboardData. */
  datatype DashboardData = DashboardData(
    deviceID: Option<string>, waterLevel: real, status: string, updatedAt: Option<int>,
    windSpeed: real, rainIntensity: real, totalDevices: nat, activeDevices: nat,
    notifications: seq<Notification>)

  /** The dashboard's active test: last seen less than five minutes ago. */
  predicate IsActive(d: Device, now: int) {
    now - d.lastActive < FreshMs
  }

  /** The `filter` over the devices: the active ones, in order. */
  function ActiveDevices(ds: seq<Device>, now: int): (r: seq<Device>)
    ensures Subsequences.IsFilterOf(r, ds, d => IsActive(d, now))
    ensures |r| <= |ds|
    ensures forall d :: d in r <==> d in ds && IsActive(d, now)
  {
    if ds == [] then []
    else
      var init, last := ds[..|ds| - 1], ds[|ds| - 1];
      var rest := ActiveDevices(init, now);
      assert ds == init + [last];
      assert forall d :: d in ds <==> d in init || d == last;
      Subsequences.FilterStep(init, last, rest, d => IsActive(d, now));
      if IsActive(last, now) then rest + [last] else rest
  }

  /** `Notification.find().sort({ createdAt: -1 }).limit(5)`. */
  function LatestNotifications(ns: seq<Notification>): (r: seq<Notification>)
    ensures |r| == if |ns| < RecentNotificationCount then |ns| else RecentNotificationCount
    ensures forall i, j :: 0 <= i < j < |r| ==> r[i].createdAt >= r[j].createdAt
    ensures multiset(r) <= multiset(ns)
    ensures r != [] ==> forall n :: n in multiset(ns) - multiset(r) ==> n.createdAt <= r[|r| - 1].createdAt
  {
    var sorted := Sorting.SortBy(ns, NewestFirst);
    var k := if |ns| < RecentNotificationCount then |ns| else RecentNotificationCount;
    Sorting.SortedPrefix(sorted, NewestFirst, k);
    NewestKept(sorted, k);
    sorted[..k]
  }

  /** Cutting a newest-first list after `k` leaves out nothing newer than the last one kept. */
  lemma NewestKept(sorted: seq<Notification>, k: nat)
    requires Sorting.SortedBy(sorted, NewestFirst) && k <= |sorted|
    ensures k > 0 ==> forall n :: n in multiset(sorted) - multiset(sorted[..k]) ==> n.createdAt <= sorted[k - 1].createdAt
  {
    Sorting.SortedPrefix(sorted, NewestFirst, k);
    if k > 0 {
      forall n | n in multiset(sorted) - multiset(sorted[..k]) ensures n.createdAt <= sorted[k - 1].createdAt {
        assert NewestFirst(sorted[k - 1]) <= NewestFirst(n);
      }
    }
  }

  /** getDashboardData, with the `|| null`, `|| 0` and `|| 'Normal'` fallbacks. */
  function GetDashboardData(cache: seq<CacheEntry>, devices: seq<Device>,
                            notifications: seq<Notification>, now: int): (d: DashboardData)
    ensures d.totalDevices == |devices| && d.activeDevices <= d.totalDevices
    ensures d.activeDevices == CountActiveSince(devices, now)
    ensures d.notifications == LatestNotifications(notifications)
    ensures d.status != ""
  {
    ActiveCountsAgree(devices, now);
    var candidates := FreshEntries(cache, now);
    var recent := LatestNotifications(notifications);
    var active := |ActiveDevices(devices, now)|;
    if candidates == [] then
      DashboardData(None, 0.0, DefaultStatus, None, 0.0, 0.0, |devices|, active, recent)
    else
      var w := candidates[WorstIndex(candidates)];
      DashboardData(NonEmpty(w.deviceID), w.waterLevel, StatusOr(w.status), NonZero(w.updatedAt),
                    w.windSpeed, w.rainIntensity, |devices|, active, recent)
  }

  /**
   * The entry at `k` of the cache is the one the `reduce` picks: fresh, no fresh entry higher,
   * and every fresh entry before it strictly lower.
   */
  ghost predicate IsWorstFresh(cache: seq<CacheEntry>, now: int, k: int) {
    0 <= k < |cache| && IsFresh(cache[k], now) &&
    (forall j :: 0 <= j < |cache| && IsFresh(cache[j], now) ==> cache[j].waterLevel <= cache[k].waterLevel) &&
    (forall j :: 0 <= j < k && IsFresh(cache[j], now) ==> cache[j].waterLevel < cache[k].waterLevel)
  }

  /** The entry the filter-then-reduce picks is the first fresh entry of the highest level. */
  lemma {:induction false} WorstOfFresh(cache: seq<CacheEntry>, now: int)
    requires FreshEntries(cache, now) != []
    ensures exists k :: (IsWorstFresh(cache, now, k) &&
      FreshEntries(cache, now)[WorstIndex(FreshEntries(cache, now))] == cache[k])
  {
    var init, x := cache[..|cache| - 1], cache[|cache| - 1];
    assert cache == init + [x];
    var c0 := FreshEntries(init, now);
    var c := FreshEntries(cache, now);
    if !IsFresh(x, now) {
      assert c == c0;
      WorstOfFresh(init, now);
      var k :| IsWorstFresh(init, now, k) && c0[WorstIndex(c0)] == init[k];
      WorstAfterStale(init, x, now, k);
    } else if c0 == [] {
      assert c == [x];
      WorstAfterFirstFresh(init, x, now);
    } else {
      assert c == c0 + [x];
      assert c[..|c| - 1] == c0;
      WorstOfFresh(init, now);
      var k0 :| IsWorstFresh(init, now, k0) && c0[WorstIndex(c0)] == init[k0];
      WorstAfterFresh(init, x, now, k0);
    }
  }

  /** A stale entry at the end changes nothing. */
  lemma WorstAfterStale(init: seq<CacheEntry>, x: CacheEntry, now: int, k: int)
    requires IsWorstFresh(init, now, k) && !IsFresh(x, now)
    ensures IsWorstFresh(init + [x], now, k)
  {
    var cache := init + [x];
    assert forall j :: 0 <= j < |init| ==> cache[j] == init[j];
  }

  /** The first fresh entry is the worst so far. */
  lemma WorstAfterFirstFresh(init: seq<CacheEntry>, x: CacheEntry, now: int)
    requires FreshEntries(init, now) == [] && IsFresh(x, now)
    ensures IsWorstFresh(init + [x], now, |init|)
  {
    var cache := init + [x];
    forall j | 0 <= j < |init| ensures cache[j] == init[j] && !IsFresh(cache[j], now) {
      assert init[j] in init;
    }
  }

  /** A later fresh entry takes over only when it is strictly higher. */
  lemma WorstAfterFresh(init: seq<CacheEntry>, x: CacheEntry, now: int, k0: int)
    requires IsWorstFresh(init, now, k0) && IsFresh(x, now)
    ensures x.waterLevel > init[k0].waterLevel ==> IsWorstFresh(init + [x], now, |init|)
    ensures x.waterLevel <= init[k0].waterLevel ==> IsWorstFresh(init + [x], now, k0)
  {
    var cache := init + [x];
    assert forall j :: 0 <= j < |init| ==> cache[j] == init[j];
  }

  /**
   * The summary describes the fresh entry the `reduce` picks: no fresh entry is higher, and
   * of equally high fresh entries it is the first in cache order; stale entries play no part.
   */
  lemma DashboardReportsWorstFresh(cache: seq<CacheEntry>, devices: seq<Device>,
                                   notifications: seq<Notification>, now: int)
    requires exists e :: e in cache && IsFresh(e, now)
    ensures var d := GetDashboardData(cache, devices, notifications, now);
      exists k :: IsWorstFresh(cache, now, k) &&
        d.deviceID == NonEmpty(cache[k].deviceID) && d.waterLevel == cache[k].waterLevel &&
        d.status == StatusOr(cache[k].status) && d.updatedAt == NonZero(cache[k].updatedAt) &&
        d.windSpeed == cache[k].windSpeed && d.rainIntensity == cache[k].rainIntensity
  {
    var e :| e in cache && IsFresh(e, now);
    assert e in FreshEntries(cache, now);
    WorstOfFresh(cache, now);
  }

  /** With no fresh entry the card shows the defaults: null device, level 0, 'Normal'. */
  lemma DashboardDefaults(cache: seq<CacheEntry>, devices: seq<Device>,
                          notifications: seq<Notification>, now: int)
    requires forall e :: e in cache ==> !IsFresh(e, now)
    ensures var d := GetDashboardData(cache, devices, notifications, now);
      d.deviceID.None? && d.waterLevel == 0.0 && d.status == "Normal" && d.updatedAt.None? &&
      d.windSpeed == 0.0 && d.rainIntensity == 0.0
  {
    if FreshEntries(cache, now) != [] {
      assert FreshEntries(cache, now)[0] in FreshEntries(cache, now);
    }
  }

  /** The device counts: the total is the number of devices and the active ones never exceed it. */
  lemma DeviceCounts(cache: seq<CacheEntry>, devices: seq<Device>,
                     notifications: seq<Notification>, now: int)
    ensures var d := GetDashboardData(cache, devices, notifications, now);
      d.totalDevices == |devices| && d.activeDevices <= d.totalDevices &&
      |d.notifications| <= RecentNotificationCount
  {
  }

  // ------------------------------------------------------------ monitoring

  /** The specification of the image map: each deviceID mapped to its last image's URL. */
  function ImageMap(images: seq<ImageRecord>): map<string, string> {
    if images == [] then map[]
    else
      var last := images[|images| - 1];
      ImageMap(images[..|images| - 1])[last.deviceID := last.imageUrl]
  }

  /** The last image of a device wins, and only devices with an image have an entry. */
  lemma {:induction false} ImageMapLastWins(images: seq<ImageRecord>, id: string)
    ensures id in ImageMap(images) <==> exists i :: 0 <= i < |images| && images[i].deviceID == id
    ensures id in ImageMap(images) ==>
      exists i :: 0 <= i < |images| && images[i].deviceID == id &&
        ImageMap(images)[id] == images[i].imageUrl &&
        forall j :: i < j < |images| ==> images[j].deviceID != id
  {
    if images != [] {
      var init := images[..|images| - 1];
      var last := images[|images| - 1];
      ImageMapLastWins(init, id);
      assert forall i :: 0 <= i < |init| ==> init[i] == images[i];
      if last.deviceID != id && id in ImageMap(images) {
        var i :| 0 <= i < |init| && init[i].deviceID == id &&
          ImageMap(init)[id] == init[i].imageUrl &&
          forall j :: i < j < |init| ==> init[j].deviceID != id;
        assert images[i].deviceID == id;
      }
    }
  }

  /** The `reduce` that assigns `acc[img.deviceID] = img.imageUrl` for each image in turn. */
  method BuildImageMap(images: seq<ImageRecord>) returns (acc: map<string, string>)
    ensures acc == ImageMap(images)
  {
    acc := map[];
    var i := 0;
    while i < |images|
      invariant 0 <= i <= |images|
      invariant acc == ImageMap(images[..i])
    {
      assert images[..i + 1][..i] == images[..i];
      acc := acc[images[i].deviceID := images[i].imageUrl];
      i := i + 1;
    }
    assert images[..i] == images;
  }

  /** The monitoring check for being active: last seen after now − 5 min. */
  predicate IsActiveSince(d: Device, now: int) {
    d.lastActive > now - FreshMs
  }

  /** The two controllers word the active test differently but agree on every device. */
  lemma ActiveTestsAgree(d: Device, now: int)
    ensures IsActive(d, now) <==> IsActiveSince(d, now)
  {
  }

  function CountActiveSince(ds: seq<Device>, now: int): (n: nat)
    ensures n <= |ds|
  {
    if ds == [] then 0
    else CountActiveSince(ds[..|ds| - 1], now) + (if IsActiveSince(ds[|ds| - 1], now) then 1 else 0)
  }

  /** Both pages report the same number of active devices. */
  lemma {:induction false} ActiveCountsAgree(ds: seq<Device>, now: int)
    ensures CountActiveSince(ds, now) == |ActiveDevices(ds, now)|
  {
    if ds != [] {
      ActiveCountsAgree(ds[..|ds| - 1], now);
      ActiveTestsAgree(ds[|ds| - 1], now);
    }
  }

  /** One element of `devicesMonitoring`. */
  datatype MonitoringEntry = MonitoringEntry(
    deviceID: string, location: Option<Location>, lastActive: int,
    waterLevel: real, status: string, updatedAt: Option<int>,
    windSpeed: real, rainIntensity: real, imageUrl: Option<string>)

  /** The join of one device with its cache entry (if any) and its image (if any). */
  function MonitorDevice(d: Device, cache: map<string, CacheEntry>, imageMap: map<string, string>): (m: MonitoringEntry)
    ensures m.deviceID == d.deviceID && m.location == d.location && m.lastActive == d.lastActive
    ensures d.deviceID !in cache ==>
      m.waterLevel == 0.0 && m.status == "Normal" && m.updatedAt.None? &&
      m.windSpeed == 0.0 && m.rainIntensity == 0.0
    ensures d.deviceID in cache ==>
      var e := cache[d.deviceID];
      m.waterLevel == e.waterLevel && m.status == StatusOr(e.status) && m.updatedAt == NonZero(e.updatedAt) &&
      m.windSpeed == e.windSpeed && m.rainIntensity == e.rainIntensity
    ensures m.status != ""
    ensures d.deviceID in imageMap ==> m.imageUrl == NonEmpty(imageMap[d.deviceID])
    ensures m.imageUrl.Some? <==> d.deviceID in imageMap && imageMap[d.deviceID] != ""
  {
    var url := if d.deviceID in imageMap then NonEmpty(imageMap[d.deviceID]) else None;
    if d.deviceID in cache then
      var e := cache[d.deviceID];
      MonitoringEntry(d.deviceID, d.location, d.lastActive, e.waterLevel, StatusOr(e.status),
                      NonZero(e.updatedAt), e.windSpeed, e.rainIntensity, url)
    else
      MonitoringEntry(d.deviceID, d.location, d.lastActive, 0.0, DefaultStatus, None, 0.0, 0.0, url)
  }

  function MonitorAll(ds: seq<Device>, cache: map<string, CacheEntry>, imageMap: map<string, string>): (r: seq<MonitoringEntry>)
    ensures |r| == |ds|
    ensures forall i :: 0 <= i < |ds| ==> r[i] == MonitorDevice(ds[i], cache, imageMap)
  {
    if ds == [] then [] else [MonitorDevice(ds[0], cache, imageMap)] + MonitorAll(ds[1..], cache, imageMap)
  }

  datatype MonitoringData = MonitoringData(totalDevices: nat, activeDevices: nat, devices: seq<MonitoringEntry>)

  /**
   * getMonitoringData: one entry per device in Device order, each with the URL of that
   * device's last image, and the device counts.
   */
  method GetMonitoringData(cache: map<string, CacheEntry>, devices: seq<Device>,
                           images: seq<ImageRecord>, now: int) returns (r: MonitoringData)
    ensures r.totalDevices == |devices| && r.activeDevices == CountActiveSince(devices, now)
    ensures r.activeDevices <= r.totalDevices
    ensures |r.devices| == |devices|
    ensures forall i :: 0 <= i < |devices| ==>
      r.devices[i] == MonitorDevice(devices[i], cache, ImageMap(images))
  {
    var imageMap := BuildImageMap(images);
    r := MonitoringData(|devices|, CountActiveSince(devices, now), MonitorAll(devices, cache, imageMap));
  }
}
