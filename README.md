# HydroAlert flood-alert core, in Dafny

HydroAlert watches river water levels. Each sensor device reports the distance from the sensor down to the
water, with rain intensity and wind speed. The backend turns the distance into a water level and
classifies the level into five tiers: Normal, Waspada, Siaga 1, Siaga 2 and Bahaya. It stores the
reading and raises a notification (with a Telegram message) at most once per 30 minutes per device and
severity. It also predicts when the level will reach the next tier and serves a dashboard, a per-device
monitoring list and a notification history grouped by day. A scheduled job sweeps stale devices out of
the status cache. Three frontend pages (monitoring, map, history) reshape what the backend returns.

The model has one module per source file:

- `StatusHelper`: the tier thresholds and `getWaterStatus`.
- `WaterLevel`: `getWaterLevel`.
- `LeastSquares` and `PredictionService`: `predictNextStatusTime`, its rain and wind factors, the history
  window, the least-squares slope (a loop proved against its closed form) and the next-tier lookup.
- `DeviceController`: a `BackendStore` class.
  - Its fields are the device map, the stored readings, the stored notifications and the outgoing alert
    messages.
  - Its methods `RegisterDevice`, `StoreSensorData` and `HandleNotification` change them in place.
  - `StoreSensorDataAsWritten` and `HandleNotificationAsWritten` model the notification create as the
    code writes it, without the required `avgWaterLevel` (see Findings).
  - Its invariant `Valid` says that every reading belongs to a registered device and carries the
    classification of its level, that every notification has a non-Normal tier as its severity, and
    that each notification has exactly one matching alert message.
- `DashboardController`: `getDashboardData` and `getMonitoringData`.
- `NotificationController`: `getNotificationHistory`.
- `CronJob`: a `RedisCache` class whose `Sweep` method removes stale entries.
- `Pemantauan`, `Lokasi` and `Riwayat`: the data shaping of the three pages.

Modules shared between them:

- `Models`: the stored records.
- `Wrappers`: `Option`.
- `JsMath`: `Math.round`.
- `Text`: ECMAScript white space, `trim`, `split(/\s+/)`, ASCII `toLowerCase` and `parseInt`.
- `Sorting`: a stable insertion sort by an integer key.
- `DescendingSort`: an insertion sort by descending string key.
- `Grouping`: group-by with counts.
- `UtcCalendar`: `Date.UTC` and `toISOString`.
- `Browser`: the browser clock and locale, plus the `formatAgo` wording that the three pages share.

The database, the Redis cache, the clock and the locale renderings are inputs. Collections are
sequences, the cache hash is a map, and each HTTP handler returns its status code and body as a value.
Water levels, rain and wind are `real`; times are integer milliseconds.

Where the model reads the code differently from its documentation, it follows the code:

- **Siaga alerts.** The documented alert templates cover Siaga. The code keys them 'Siaga', so
  'Siaga 1' and 'Siaga 2' always get the fallback title and message (`DeviceController.SiagaTiersUseFallback`).
- **Severity on the history page.** The page matches severities against 'warning', 'high' and
  'critical'. The backend stores tier names, so every stored notification shows as normal
  (`Riwayat.BackendTiersShowNormal`).
- **Tier threshold lookup.** The prediction looks up the next tier's threshold by display name in a
  table keyed differently. The model uses the tier table instead and records the mismatch under
  Findings.

## Model

| member | source | states |
|---|---|---|
| StatusHelper.GetWaterStatus | hydroalert-backend/src/utils/statusHelper.js:8-21 | the tier returned is the one whose band (at or above its threshold, below the next tier's) holds the level; below 60 cm is Normal; Bahaya exactly when the level is at least 180 cm |
| StatusHelper.BandIsUnique | hydroalert-backend/src/utils/statusHelper.js:8-21 | a level lies in the band of a tier if and only if that tier is the classification: the bands partition the levels |
| StatusHelper.Monotone | hydroalert-backend/src/utils/statusHelper.js:8-21 | a higher water level never yields a less severe tier |
| StatusHelper.Boundaries | hydroalert-backend/src/utils/statusHelper.js:9-18 | every threshold is inclusive (60, 90, 120 and 180 cm fall into the upper tier) and levels just below 60 cm or negative are Normal |
| StatusHelper.ThresholdsIncreasing | hydroalert-backend/src/utils/statusHelper.js:1-6 | the STATUS_THRESHOLDS values strictly increase with the severity of the tier |
| StatusHelper.TierNamesOrdered | hydroalert-backend/src/services/predictionService.js:70 | the ordered status list is the five display names in severity order, and no two tiers share a display name |
| WaterLevel.GetWaterLevel | hydroalert-backend/src/utils/waterLevel.js:1-5 | level and sensor distance add up to the 435 cm depth from the sensor to the river bed |
| WaterLevel.Involution | hydroalert-backend/src/utils/waterLevel.js:3-5 | converting twice gives the original reading back |
| WaterLevel.StrictlyDecreasing | hydroalert-backend/src/utils/waterLevel.js:3-5 | a larger measured distance gives a strictly lower level |
| WaterLevel.EndPoints | hydroalert-backend/src/utils/waterLevel.js:1-5 | 435 cm reads as level 0, 0 cm as 435, and a distance beyond 435 cm gives a negative level (nothing is clamped) |
| JsMath.Round | hydroalert-backend/src/services/predictionService.js:85 | `Math.round` gives the integer within half a unit of its argument, halves rounding up |
| JsMath.RoundMonotone | hydroalert-backend/src/services/predictionService.js:85 | rounding preserves order |
| CronJob.RedisCache.Sweep | hydroalert-backend/src/utils/cronJob.js:9-33 | after one run the hash holds exactly the entries updated at most 15 minutes ago, the `last_raw:` keys of exactly the removed devices are deleted and nothing else, and the count returned is the number of removed devices (an empty hash changes nothing and counts 0) |
| CronJob.KeptAreRecent | hydroalert-backend/src/utils/cronJob.js:24-25 | every kept entry is at most 15 minutes old, an entry exactly 15 minutes old is kept unchanged, and kept and removed devices together are all the devices |
| CronJob.SweepIdempotent | hydroalert-backend/src/utils/cronJob.js:20-31 | a second sweep at the same instant finds nothing stale and leaves the hash as it is |
| CronJob.RawKeysOfOthersUntouched | hydroalert-backend/src/utils/cronJob.js:28 | the raw key of a device that is not removed is not among the deleted keys |
| CronJob.RawKeyInjective | hydroalert-backend/src/utils/cronJob.js:28 | two devices have the same `last_raw:` key if and only if they are the same device |
| LeastSquares.IndexSumsStep | hydroalert-backend/src/services/predictionService.js:47-53 | the closed forms n(n−1)/2 and (n−1)n(2n−1)/6 start at 0 and grow by the index and its square with each sample, as the running `sumX` and `sumX2` do |
| LeastSquares.DenominatorPositive | hydroalert-backend/src/services/predictionService.js:57 | with n samples the regression denominator n·Σx² − (Σx)² equals n²(n²−1)/12, so it is positive once there are two samples and the division is defined |
| LeastSquares.LinearSums | hydroalert-backend/src/services/predictionService.js:47-54 | for samples on a line a + b·i, Σy and Σxy are the line applied to the index sums |
| LeastSquares.LinearSumY | hydroalert-backend/src/services/predictionService.js:51 | for samples on a line a + b·i, Σy = a·n + b·Σx |
| LeastSquares.LinearSumXY | hydroalert-backend/src/services/predictionService.js:52 | for samples on a line a + b·i, Σxy = a·Σx + b·Σx² |
| LeastSquares.SlopeOfLine | hydroalert-backend/src/services/predictionService.js:43-57 | the fitted slope of samples lying exactly on a line a + b·i is b: the regression recovers a linear trend |
| LeastSquares.SlopeOfConstant | hydroalert-backend/src/services/predictionService.js:43-57 | a constant series has slope 0 |
| LeastSquares.SlopeOfTotals | hydroalert-backend/src/services/predictionService.js:57 | the quotient of the four totals has a positive denominator and equals the least-squares slope of the series |
| LeastSquares.SumsStep | hydroalert-backend/src/services/predictionService.js:47-53 | one more sample adds its value to Σy and its index times its value to Σxy |
| LeastSquares.FitSlope | hydroalert-backend/src/services/predictionService.js:43-57 | the loop that accumulates `sumX`, `sumY`, `sumXY` and `sumX2` over (index, level) pairs and divides returns the least-squares slope of the series |
| PredictionService.RainFactor | hydroalert-backend/src/services/predictionService.js:7-12 | the factor is at least 1, is 1 exactly below 5 mm/h, and is one of 1, 1.1, 1.2, 1.35 |
| PredictionService.WindFactor | hydroalert-backend/src/services/predictionService.js:14-18 | the factor is at least 1, is 1 exactly below wind speed 5, and is one of 1, 1.01, 1.03 |
| PredictionService.FactorsMonotone | hydroalert-backend/src/services/predictionService.js:7-18 | more rain or more wind never gives a smaller factor |
| PredictionService.WindowReadings | hydroalert-backend/src/services/predictionService.js:33-36 | the readings kept are what the query returns: those of the device taken at or after ten minutes before the current reading and strictly before it, in stored order, each as often as stored, and no other |
| PredictionService.History | hydroalert-backend/src/services/predictionService.js:33-37 | `pastData` holds each stored reading of the window exactly as often as it is stored and nothing else, sorted by `createdAt` ascending |
| PredictionService.ParseStatus | hydroalert-backend/src/services/predictionService.js:70-71 | a status is found if and only if it is one of the five display names, and the tier found has that name |
| PredictionService.NextTier | hydroalert-backend/src/services/predictionService.js:72-74 | every tier but Bahaya has a successor, the tier one place more severe |
| PredictionService.Levels | hydroalert-backend/src/services/predictionService.js:45-49 | the series is the readings' water levels, in order |
| PredictionService.PredictNextStatusTime | hydroalert-backend/src/services/predictionService.js:20-88 | the service's result is `Predict`: nothing with fewer than four readings in the window, otherwise the estimate from the slope the accumulation loop computes |
| PredictionService.Predict | hydroalert-backend/src/services/predictionService.js:20-88 | no prediction in four cases: fewer than four readings of `deviceID` in the window, a fitted slope of at most 0.01, a Bahaya status, or a status outside the ordered list. A prediction carries the current level and has the current status as its source tier |
| PredictionService.SlowEstimate | hydroalert-backend/src/services/predictionService.js:62 | a slope at or below 0.01 gives no estimate |
| PredictionService.SlowRiseNoPrediction | hydroalert-backend/src/services/predictionService.js:39-62 | with four or more readings in the window, a fitted slope of at most 0.01 gives no prediction |
| PredictionService.AdjustedRate | hydroalert-backend/src/services/predictionService.js:64-67 | the environmental factors never lower a rising rate: the adjusted rate is at least the slope |
| PredictionService.MinutesToReach | hydroalert-backend/src/services/predictionService.js:76-85 | the minutes are the remaining height over the rate, rounded to the nearest whole number: not positive when the level is already above the target, not negative otherwise |
| PredictionService.EstimateShape | hydroalert-backend/src/services/predictionService.js:59-85 | an estimate comes only from a slope above 0.01; it has a rate above 0.01 and at least the slope, the next tier after the current status and its threshold as target, the current level, and the rounded minutes to that threshold |
| PredictionService.InsufficientHistory | hydroalert-backend/src/services/predictionService.js:39 | fewer than four earlier readings in the window give no prediction |
| PredictionService.PredictionShape | hydroalert-backend/src/services/predictionService.js:39-85 | a prediction has at least four earlier readings and a fitted slope above 0.01, a source tier named by the current status that is not Bahaya, the next tier as target, that tier's threshold as target level and the current level; its rate is the fitted slope times the rain and wind factors, above 0.01 and at least the slope; its minutes are the distance to the target over that rate, rounded |
| PredictionService.SteadyLevelNoPrediction | hydroalert-backend/src/services/predictionService.js:57-62 | a level unchanged over the whole window is not rising, so there is no prediction |
| PredictionService.NoPredictionFromTopOrUnknown | hydroalert-backend/src/services/predictionService.js:70-72 | a Bahaya status, or one outside the ordered list, gives no prediction |
| PredictionService.EstimateSign | hydroalert-backend/src/services/predictionService.js:76-85 | the estimate is not guarded: a level already above the target gives a non-positive number of minutes, and one at or below it a non-negative number |
| PredictionService.ConsistentStatusGivesNonNegativeEstimate | hydroalert-backend/src/services/predictionService.js:72-85 | when the stored status is the classification of the reading's own level, the estimated minutes are never negative |
| PredictionService.TargetAsWrittenAlwaysMisses | hydroalert-backend/src/services/predictionService.js:74-75 | looking up STATUS_THRESHOLDS by the next status's display name finds nothing for any tier, while every tier but Normal has a threshold in the tier table |
| DeviceController.LatestReading | hydroalert-backend/src/controllers/deviceController.js:96 | there is no last reading exactly when the device has no stored reading; otherwise it is a reading of that device with the largest `createdAt` |
| DeviceController.StoredTitle | hydroalert-backend/src/controllers/deviceController.js:154-170 | the stored title is the template for the status when there is one, and 'Peringatan Sensor' otherwise |
| DeviceController.StoredMessage | hydroalert-backend/src/controllers/deviceController.js:160-171 | the stored message is the template for the status when there is one, and the `Status sensor: <status> (<level>cm)` fallback otherwise |
| DeviceController.BackendStore.RegisterDevice | hydroalert-backend/src/controllers/deviceController.js:31-56 | a known id answers 200 and changes nothing; an unknown one answers 201 and adds exactly one device with the given coordinates; readings, notifications and sent messages are untouched and the store invariant holds |
| DeviceController.BackendStore.HandleNotification | hydroalert-backend/src/controllers/deviceController.js:142-191 | when a notification of the same device and severity exists from the last 30 minutes nothing changes; otherwise exactly one notification (template title and message or their fallbacks, the reading's level as `avgWaterLevel`) is stored and one Telegram message with the raw template lookups is sent. This is the corrected behaviour (see Findings) |
| DeviceController.BackendStore.EnsureRegistered | hydroalert-backend/src/controllers/deviceController.js:85-93 | an unknown device is created with no location; a known one is left as it is; nothing else changes |
| DeviceController.BackendStore.AppendReading | hydroalert-backend/src/controllers/deviceController.js:110-123 | the device's `lastActive` becomes now and exactly one reading, carrying the classification of its level, is appended |
| DeviceController.BackendStore.StoreSensorData | hydroalert-backend/src/controllers/deviceController.js:81-140 | the device is always registered afterwards (without location when new); the answer is 400 if and only if the last reading of the device is more than 100 cm away and less than 30 s old, in which case no reading, notification or message is added; otherwise 201, the device is marked active, the classified reading is appended, and a non-Normal tier leads to exactly the notification behaviour of handleNotification while a Normal one adds nothing. This is the corrected behaviour (see Findings) |
| DeviceController.BackendStore.HandleNotificationAsWritten | hydroalert-backend/src/controllers/deviceController.js:141-172 | as written: outside the cooldown the create leaves out the required `avgWaterLevel` and throws, so no notification is stored and no message sent; inside the cooldown nothing happens either; the store is unchanged |
| DeviceController.BackendStore.StoreSensorDataAsWritten | hydroalert-backend/src/controllers/deviceController.js:81-191 | as written: 400 exactly for a suspicious jump, with an unknown device registered and nothing else changed; otherwise the device's `lastActive` becomes now (an unknown one is first registered without a location) and the reading is appended, and the answer is 500 exactly when the tier is not Normal and no notification of that tier is in its cooldown, else 201; no notification or message is ever added |
| DeviceController.JumpBoundaries | hydroalert-backend/src/controllers/deviceController.js:99-104 | both bounds of the jump test are strict: a jump of exactly 100 cm, or any jump exactly 30 s later, is accepted, while 100.5 cm one millisecond earlier is refused |
| DeviceController.FirstReadingAccepted | hydroalert-backend/src/controllers/deviceController.js:96-98 | a device without earlier readings is never refused |
| DeviceController.CooldownIsPerSeverity | hydroalert-backend/src/controllers/deviceController.js:145-151 | notifications of other severities, and ones created 30 minutes ago or earlier, never block a new one |
| DeviceController.CooldownAfterAlert | hydroalert-backend/src/controllers/deviceController.js:145-153 | a notification just stored blocks another one for the same device and severity during the next 30 minutes |
| DeviceController.SiagaTiersUseFallback | hydroalert-backend/src/controllers/deviceController.js:154-171 | the templates are keyed 'Siaga', so the tiers 'Siaga 1' and 'Siaga 2' always get the fallback title and message (and no title or message in the Telegram text), while Waspada and Bahaya get their templates |
| DashboardController.NonEmpty | hydroalert-backend/src/controllers/dashboardController.js:84 | `x \|\| null` on a string: absent exactly for the empty string, the string itself otherwise |
| DashboardController.NonZero | hydroalert-backend/src/controllers/dashboardController.js:88 | `x \|\| null` on a timestamp: absent exactly for 0, the value itself otherwise |
| DashboardController.StatusOr | hydroalert-backend/src/controllers/dashboardController.js:87 | `status \|\| 'Normal'` is never empty and keeps a non-empty status |
| DashboardController.FreshEntries | hydroalert-backend/src/controllers/dashboardController.js:63-65 | the kept cache entries are what `filter` returns: the entries updated less than five minutes ago, in hash order, each as often as in the hash, and no other |
| DashboardController.WorstIndex | hydroalert-backend/src/controllers/dashboardController.js:69 | the `reduce` picks an entry with the highest level, the first such one (a later entry replaces it only when strictly higher) |
| DashboardController.ActiveDevices | hydroalert-backend/src/controllers/dashboardController.js:77-79 | the active devices are what `filter` returns: the devices seen less than five minutes ago, in Device order, each as often as listed, and no other |
| DashboardController.LatestNotifications | hydroalert-backend/src/controllers/dashboardController.js:74 | five notifications, or all of them when there are fewer, in non-increasing creation time, all taken from the collection; no notification left out is newer than the last one shown |
| DashboardController.NewestKept | hydroalert-backend/src/controllers/dashboardController.js:74 | in a newest-first order, nothing after the first k notifications is newer than the k-th |
| DashboardController.DashboardReportsWorstFresh | hydroalert-backend/src/controllers/dashboardController.js:62-91 | when some entry is fresh, the card shows the fields of the first fresh entry of the highest level (no fresh entry is higher and every earlier fresh entry is strictly lower), with the `\|\|` fallbacks applied |
| DashboardController.WorstOfFresh | hydroalert-backend/src/controllers/dashboardController.js:63-69 | the entry picked by filtering the fresh entries and reducing to the highest is, in the whole hash, the first fresh entry of the highest fresh level |
| DashboardController.GetDashboardData | hydroalert-backend/src/controllers/dashboardController.js:60-98 | the total is the number of devices; the active count is the number of devices seen less than five minutes ago, so never more than the total; the notifications are the five newest; the status is never empty |
| DashboardController.DashboardDefaults | hydroalert-backend/src/controllers/dashboardController.js:67-91 | with no fresh entry the card shows a null device, level 0, status 'Normal', no update time, and zero wind and rain |
| DashboardController.DeviceCounts | hydroalert-backend/src/controllers/dashboardController.js:72-96 | the total is the number of devices, the active count never exceeds it, and at most five notifications are shown |
| DashboardController.ImageMapLastWins | hydroalert-backend/src/controllers/dashboardController.js:160-163 | a device has an image URL if and only if some image names it, and the URL is that of its last image |
| DashboardController.BuildImageMap | hydroalert-backend/src/controllers/dashboardController.js:160-163 | the accumulation loop over the images builds exactly the last-image-wins map |
| DashboardController.ActiveTestsAgree | hydroalert-backend/src/controllers/dashboardController.js:165-166 | the dashboard's test (less than five minutes since last active) and the monitoring test (last active after five minutes ago) agree on every device |
| DashboardController.CountActiveSince | hydroalert-backend/src/controllers/dashboardController.js:165-166 | the active count never exceeds the number of devices |
| DashboardController.ActiveCountsAgree | hydroalert-backend/src/controllers/dashboardController.js:77-79 | both endpoints report the same number of active devices |
| DashboardController.MonitorDevice | hydroalert-backend/src/controllers/dashboardController.js:169-189 | an entry keeps the device's id, location and last-active time; with a cache entry it shows that entry's level, wind and rain, its status ('Normal' when empty) and its update time (none for 0); without one it shows level 0, 'Normal', no update time and zero wind and rain; the status is never empty; the image URL is the device's last image URL when that is not empty, and none otherwise |
| DashboardController.MonitorAll | hydroalert-backend/src/controllers/dashboardController.js:169 | one entry per device, in Device order |
| DashboardController.GetMonitoringData | hydroalert-backend/src/controllers/dashboardController.js:150-199 | the totals are the number of devices and of active devices, and entry i is device i joined with its cache entry and the URL of its last image |
| NotificationController.Restriction | hydroalert-backend/src/controllers/notificationController.js:85-90 | a query value restricts the result if and only if it is present, non-empty and not 'all', and then it restricts to itself |
| NotificationController.BuildFilter | hydroalert-backend/src/controllers/notificationController.js:84-93 | the filter's device and severity are the restrictions of the parameters; its limit is set exactly when a non-empty limit was given, to what `parseInt` reads from it |
| NotificationController.SortDirection | hydroalert-backend/src/controllers/notificationController.js:96 | the order is ascending if and only if `sort` is exactly 'oldest', descending otherwise |
| NotificationController.EffectiveLimit | hydroalert-backend/src/controllers/notificationController.js:101 | there is a limit exactly when the parsed limit is a number other than 0, and it is then positive |
| NotificationController.MatchingNotifications | hydroalert-backend/src/controllers/notificationController.js:99 | the query returns the stored notifications that match the filter, in storage order, each as many times as it is stored, and nothing else |
| NotificationController.ApplyLimit | hydroalert-backend/src/controllers/notificationController.js:101 | the result is a prefix of the sorted matches: all of them without a limit, otherwise as many as the limit allows |
| NotificationController.SortedMatches | hydroalert-backend/src/controllers/notificationController.js:96-100 | the matches, permuted, ascending by creation time for 'oldest' and descending otherwise |
| NotificationController.Fetch | hydroalert-backend/src/controllers/notificationController.js:96-101 | the fetched notifications are stored ones that match the filter. With a limit k, exactly min(k, number of matches) are fetched; without one, every match is fetched. 'oldest' gives non-decreasing creation times, anything else non-increasing. No match left out comes before the last one fetched in that order, so a limit keeps the oldest or the newest |
| NotificationController.LimitedCount | hydroalert-backend/src/controllers/notificationController.js:99-101 | sorting keeps every match, so the limit cuts exactly min(k, number of matches) of them, and without a limit all of them come back |
| NotificationController.LimitedKeepsFirst | hydroalert-backend/src/controllers/notificationController.js:96-101 | what the limit leaves out comes after the last kept notification in the requested order |
| NotificationController.NoLimitFetchesAllMatches | hydroalert-backend/src/controllers/notificationController.js:91-101 | without an effective limit every matching notification is fetched |
| NotificationController.WildcardsDoNotFilter | hydroalert-backend/src/controllers/notificationController.js:85-90 | 'all', the empty string and a missing parameter leave every notification in |
| NotificationController.GetNotificationHistory | hydroalert-backend/src/controllers/notificationController.js:79-132 | the fetched notifications are grouped by day label: each group is one label with the fetched notifications of that label in fetch order, no label twice, and the totals add up to the number fetched |
| Grouping.Select | hydroalert-backend/src/controllers/notificationController.js:119 | the items of a bucket come from the input and carry the bucket's key |
| Grouping.IndexOfKey | hydroalert-backend/src/controllers/notificationController.js:112 | the `!acc[dateKey]` test: the index found holds a bucket with that key, and the end index means that no bucket has it |
| Grouping.PushKeys | hydroalert-backend/src/controllers/notificationController.js:112-117 | a push keeps the existing buckets' keys in place and adds the key only when it is new, as one bucket at the end |
| Grouping.PushSelects | hydroalert-backend/src/controllers/notificationController.js:112-120 | after a push every bucket holds exactly the elements of the longer input with its key, and its total is their number |
| Grouping.PushCounts | hydroalert-backend/src/controllers/notificationController.js:120 | a push adds exactly one to the sum of the totals |
| Grouping.PushPreservesGrouping | hydroalert-backend/src/controllers/notificationController.js:104-123 | pushing the next element turns a grouping of the input so far into a grouping of the input one element longer |
| Grouping.GroupBy | hydroalert-backend/src/controllers/notificationController.js:104-123 | one pass builds one bucket per key that occurs, no key twice, each holding exactly the elements with its key in input order with a matching total, and the totals add up to the input's length |
| Grouping.EachItemInOneBucket | hydroalert-backend/src/controllers/notificationController.js:104-123 | every element lies in the bucket of its own key and in no bucket of another key |
| Grouping.AtLeastTwoGroups | hydroalert-backend/src/controllers/notificationController.js:104-123 | there are at least two buckets if and only if two elements have different keys |
| Sorting.Insert | hydroalert-backend/src/controllers/notificationController.js:100 | inserting into a key-ordered sequence keeps it ordered and adds exactly the one element |
| Sorting.SortBy | hydroalert-backend/src/controllers/notificationController.js:100 | `.sort({ createdAt: ±1 })`: the result is ordered by the key and is a permutation of the input |
| Sorting.SortSorted | hydroalert-backend/src/services/predictionService.js:37 | an input already in key order comes back unchanged |
| Sorting.SortedPrefix | hydroalert-backend/src/controllers/dashboardController.js:74 | a `.limit(k)` prefix of a sorted result is sorted, drawn from it, and leaves out nothing with a smaller key than its last element |
| Pemantauan.NormalizeStatus | hydroalert-frontend/src/pages/pemantauan.tsx:57-61 | a card is a warning exactly when its status, lower-cased, is 'warning', 'bahaya' or 'waspada'; anything else, or no status, is normal |
| Pemantauan.NormalizeStatusIgnoresCase | hydroalert-frontend/src/pages/pemantauan.tsx:57-61 | the card status ignores letter case, and a missing or empty status is normal |
| Pemantauan.BackendTiersOnCards | hydroalert-frontend/src/pages/pemantauan.tsx:57-61 | of the five tier names the backend stores, exactly 'Waspada' and 'Bahaya' show as a warning; 'Siaga 1' and 'Siaga 2' show as normal |
| Pemantauan.ScaleFill | hydroalert-frontend/src/pages/pemantauan.tsx:83 | the fill is capped at 100, is 100 from the maximum on, is never negative for a non-negative value, and is the percentage rounded to the nearest whole number; at the cap the rounded percentage is at least 100 |
| Pemantauan.ScaleFillMonotone | hydroalert-frontend/src/pages/pemantauan.tsx:83 | a larger value never gives a smaller fill |
| Pemantauan.FormatLocation | hydroalert-frontend/src/pages/pemantauan.tsx:85-99 | non-blank text is shown as it is with no coordinates; an object with both coordinates is shown as `Lat: …, Lon: …` with the pair as coordinates; anything else is 'Lokasi tidak diketahui' with no coordinates |
| Pemantauan.MapDevice | hydroalert-frontend/src/pages/pemantauan.tsx:102-138 | a card's id is the device id or 'unknown-device' and its name the device id or 'Perangkat'; the hero is the water level in cm (0 when missing) under 'Ketinggian Air Sungai'; its status is the normalised status, which both metrics share; the update time is that of the water update or else of the last activity, the camera time that of the last activity; the location and coordinates are formatLocation's; the wind metric ('Kecepatan Angin', km/jam) and the rain metric ('Debit Air Hujan', mm/jam) carry the reading (0 when missing), its fill on the 0-60 and 0-80 scales, the 'Terakhir aktif' and 'Diperbarui' texts and no trend; the image is the record's URL or empty |
| Pemantauan.MapMonitoringDevices | hydroalert-frontend/src/pages/pemantauan.tsx:101-140 | one card per record, in the same order |
| Pemantauan.IndexOfId | hydroalert-frontend/src/pages/pemantauan.tsx:186 | `findIndex`: the first card with the id, and none exactly when no card has it |
| Pemantauan.UpsertCard | hydroalert-frontend/src/pages/pemantauan.tsx:185-191 | a card with a new id is appended; otherwise only the first card with that id changes, to the update with an empty image replaced by the previous one |
| Pemantauan.HandleSensorUpdate | hydroalert-frontend/src/pages/pemantauan.tsx:183-192 | a live reading is mapped like a fetched record and upserted by its id: it either keeps the number of cards or appends its card at the end |
| Pemantauan.UpsertFindsCard | hydroalert-frontend/src/pages/pemantauan.tsx:185-191 | after an upsert the card is found under its id, at its old position or at the end, holding every field of the update and the update's image when that is not empty |
| Pemantauan.UpsertAddsId | hydroalert-frontend/src/pages/pemantauan.tsx:185-191 | an upsert adds the update's id to the ids shown and no other |
| Pemantauan.MergeTakesUpdate | hydroalert-frontend/src/pages/pemantauan.tsx:189 | the merged card is the update, except that an empty image keeps the previous card's image |
| Pemantauan.Merge | hydroalert-frontend/src/pages/pemantauan.tsx:189 | the merged card is the update in every field but the image, which is the update's when not empty and the previous card's otherwise |
| Pemantauan.IndexAfterAppend | hydroalert-frontend/src/pages/pemantauan.tsx:187 | a card appended under a new id is found at the end |
| Pemantauan.IndexAfterReplace | hydroalert-frontend/src/pages/pemantauan.tsx:188-189 | a card replaced under its own id is still found at the same place |
| Pemantauan.IdsOfAppend | hydroalert-frontend/src/pages/pemantauan.tsx:187 | appending a card adds exactly its id |
| Pemantauan.IdsOfReplace | hydroalert-frontend/src/pages/pemantauan.tsx:188-189 | replacing a card by one with the same id keeps the ids |
| Pemantauan.UpsertIdempotent | hydroalert-frontend/src/pages/pemantauan.tsx:185-191 | receiving the same reading twice leaves the cards as after the first time |
| Pemantauan.RetainActive | hydroalert-frontend/src/pages/pemantauan.tsx:158 | after a fetch the chosen id is kept while some card has it, else becomes the first card's id; there is none exactly when there are no cards |
| Pemantauan.ActiveDevice | hydroalert-frontend/src/pages/pemantauan.tsx:175-178 | no card is shown exactly when there are none; otherwise the shown card is listed and has the chosen id whenever some card has it |
| Pemantauan.ActiveAfterRefresh | hydroalert-frontend/src/pages/pemantauan.tsx:158-178 | after a fetch that returns cards, the card shown is the one the user had chosen if it is still listed, and the first card otherwise |
| Pemantauan.ApplyNewImage | hydroalert-frontend/src/pages/pemantauan.tsx:198-202 | an event without a device id or image changes nothing; otherwise exactly the cards with that id get the image and nothing else changes |
| Pemantauan.ReplaceImage | hydroalert-frontend/src/pages/pemantauan.tsx:201 | each card with the id gets the new image; every other card is unchanged |
| Pemantauan.ApplyNewImageIdempotent | hydroalert-frontend/src/pages/pemantauan.tsx:198-202 | applying the same image event twice gives the same cards as once |
| Lokasi.NormalizeStatus | hydroalert-frontend/src/pages/lokasi.tsx:37-42 | the shown status is 'Waspada' exactly when the status, lower-cased, is 'warning', 'bahaya' or 'waspada', 'Normal' exactly when it is 'normal', and 'Data tidak ada' otherwise or when there is none |
| Lokasi.BackendTiersOnMap | hydroalert-frontend/src/pages/lokasi.tsx:37-42 | of the tier names the backend stores, 'Normal' shows as 'Normal', 'Waspada' and 'Bahaya' as 'Waspada', and both Siaga tiers as 'Data tidak ada' |
| Lokasi.NormalizeStatusIgnoresCase | hydroalert-frontend/src/pages/lokasi.tsx:37-42 | the letter case of a status does not change how it is shown |
| Lokasi.FormatLocation | hydroalert-frontend/src/pages/lokasi.tsx:44-51 | non-blank text is shown unchanged; an object with both coordinates as `Lat …, Lon …` with four decimals; anything else as 'Data tidak ada' |
| Lokasi.ReadUnsigned | hydroalert-frontend/src/pages/lokasi.tsx:59 | reading `\d+(?:\.\d+)?` from a digit yields a well-formed token with the given sign and consumes at least one and at most all characters |
| Lokasi.NumberTokens | hydroalert-frontend/src/pages/lokasi.tsx:59 | every match of `-?\d+(?:\.\d+)?` is a well-formed number token |
| Lokasi.ExtractLatLng | hydroalert-frontend/src/pages/lokasi.tsx:53-69 | latitude and longitude are both present or both absent; an object's numeric pair is taken unchanged; from text, the pair found is the first two numbers, and whenever the first two numbers are within ±90 and ±180 they are the pair; a pair read from text is always in those ranges; an absent location or an incomplete object gives none |
| Lokasi.ScanInteger | hydroalert-frontend/src/pages/lokasi.tsx:59 | a written integer followed by something that cannot continue a number is matched as exactly that integer |
| Lokasi.ScanSkips | hydroalert-frontend/src/pages/lokasi.tsx:59 | text without digits and without '-' yields no match and does not change the matches after it |
| Lokasi.IntTokenValue | hydroalert-frontend/src/pages/lokasi.tsx:61-62 | `Number` of a written integer is that integer |
| Lokasi.LatLonTokens | hydroalert-frontend/src/pages/lokasi.tsx:59-60 | the text `Lat a, Lon b` holds exactly the two matches a and b |
| Lokasi.LatLonTextRoundTrip | hydroalert-frontend/src/pages/lokasi.tsx:53-69 | round trip: the text `Lat a, Lon b` for whole coordinates in range reads back as the pair (a, b) |
| Lokasi.MapSensor | hydroalert-frontend/src/pages/lokasi.tsx:86-98 | a row's name is the device id or 'Data tidak ada'; its status is the normalised water status; a numeric level is shown in cm and a missing one as 'Data tidak ada' without a unit; its coordinates are what extractLatLng reads from the location; its location text is formatLocation's; its time is the `formatAgo` of the water update time, or else of the last active time |
| Lokasi.MapSensors | hydroalert-frontend/src/pages/lokasi.tsx:85-99 | one row per record, in the same order |
| Lokasi.IndexOfName | hydroalert-frontend/src/pages/lokasi.tsx:158 | `findIndex`: the first row with the name, and none exactly when no row has it |
| Lokasi.UpsertSensor | hydroalert-frontend/src/pages/lokasi.tsx:157-163 | a row with a new name is appended; otherwise the first row of that name is replaced whole |
| Lokasi.UpsertSensorFindsRow | hydroalert-frontend/src/pages/lokasi.tsx:155-164 | after an update the row is found under its name holding the update, the number of rows grows by one exactly for a new name, and rows of other names are unchanged |
| Lokasi.UpsertSensorIdempotent | hydroalert-frontend/src/pages/lokasi.tsx:155-164 | receiving the same update twice leaves the rows as after the first time |
| Lokasi.MarkerSensors | hydroalert-frontend/src/pages/lokasi.tsx:119-121 | the markers are what `filter` returns: the rows with both coordinates, in order, each as often as listed, and no other |
| Lokasi.MarkersStartAtFirst | hydroalert-frontend/src/pages/lokasi.tsx:116-121 | the first marker is the first row with both coordinates, and there are no markers exactly when no row has them |
| Lokasi.MapCenter | hydroalert-frontend/src/pages/lokasi.tsx:122-124 | the map is centred on the first row with both coordinates, and on (-6.2, 106.816666) when no row has them |
| Lokasi.FirstWithCoordinates | hydroalert-frontend/src/pages/lokasi.tsx:116 | `find`: the first row with both coordinates, and none exactly when no row has them |
| Lokasi.PrimarySensor | hydroalert-frontend/src/pages/lokasi.tsx:115-116 | there is a headline row exactly when there are rows; it is the first row with both coordinates when some row has them, and the first row otherwise |
| Lokasi.Headline | hydroalert-frontend/src/pages/lokasi.tsx:117-118 | without rows both headline texts are 'Data tidak ada'; otherwise they are the headline row's location and time, each replaced by 'Data tidak ada' when empty, so neither is ever empty |
| Lokasi.CenterIsPrimary | hydroalert-frontend/src/pages/lokasi.tsx:115-124 | when some row has coordinates the headline row has them and the map is centred on it; otherwise the map is centred on the default point |
| Browser.OrElse | hydroalert-frontend/src/pages/riwayat.tsx:141 | `a \|\| b`: a unless it is missing or empty, b otherwise |
| Browser.OrEmpty | hydroalert-frontend/src/pages/riwayat.tsx:101 | `s \|\| ''`: the string, or the empty string when missing |
| Browser.AgoFromDiff | hydroalert-frontend/src/pages/riwayat.tsx:124-130 | minutes are counted from 1 to 59, hours from 1 to 23, days from 1 on |
| Browser.AgoMatchesElapsedTime | hydroalert-frontend/src/pages/riwayat.tsx:124-130 | the nested floors agree with the elapsed time: under a minute (or in the future) is 'baru saja', otherwise the count is the whole number of minutes, hours or days elapsed |
| Browser.FormatAgo | hydroalert-frontend/src/pages/riwayat.tsx:119-131 | a missing or empty time gives the page's own placeholder, an unparsable one 'NaN hari lalu', any other the wording of its elapsed-time bucket |
| Browser.AgoTextReadsBack | hydroalert-frontend/src/pages/riwayat.tsx:126-130 | the number in an 'N menit/jam/hari lalu' text reads back as N |
| Browser.FormatTime | hydroalert-frontend/src/pages/riwayat.tsx:113-117 | a missing or empty time gives the placeholder, any other the locale time text |
| Riwayat.EnterNames | hydroalert-frontend/src/pages/riwayat.tsx:60-62 | after one row's names are entered the table holds exactly the old names and the row's, the row's with the row index and the others with their old index |
| Riwayat.MonthTable | hydroalert-frontend/src/pages/riwayat.tsx:59-63 | after `k` rows every entry is a row index below `k` |
| Riwayat.MonthTableIsLastRow | hydroalert-frontend/src/pages/riwayat.tsx:59-63 | the table holds a name exactly when one of the rows entered so far does, and its index is the last such row (later rows overwrite) |
| Riwayat.RowNamesItsMonth | hydroalert-frontend/src/pages/riwayat.tsx:44-57 | no month name occurs in two rows, so the last row holding a name is its own month |
| Riwayat.LastRowIsOwnRow | hydroalert-frontend/src/pages/riwayat.tsx:44-57 | a row holding a name that no later row holds is the last row for that name |
| Riwayat.NoRowForName | hydroalert-frontend/src/pages/riwayat.tsx:44-57 | a name in none of the rows has no row |
| Riwayat.MonthTableLookup | hydroalert-frontend/src/pages/riwayat.tsx:43-63 | the filled table holds exactly the month names, each with the index of its month |
| Riwayat.EnterRow | hydroalert-frontend/src/pages/riwayat.tsx:60-62 | the inner loop enters every name of the row with the row index |
| Riwayat.BuildMonthIndex | hydroalert-frontend/src/pages/riwayat.tsx:59-63 | the loop builds the month table: its keys are exactly the English and Indonesian month names, each mapped to its month index |
| Riwayat.MonthIndex | hydroalert-frontend/src/pages/riwayat.tsx:43 | every month index is 0 to 11 |
| Riwayat.FormatDateISO | hydroalert-frontend/src/pages/riwayat.tsx:65-75 | text that is not exactly three words after trimming gives `null`; a produced date has ten characters |
| Riwayat.DateFromWords | hydroalert-frontend/src/pages/riwayat.tsx:68-74 | a produced date has ten characters |
| Riwayat.FormatThreeWords | hydroalert-frontend/src/pages/riwayat.tsx:66-68 | three words joined by single spaces are read as day, month and year |
| Riwayat.MonthNameLooksUp | hydroalert-frontend/src/pages/riwayat.tsx:70 | a month name in any letter case looks up to its month index |
| Riwayat.UnparsedDayOrYear | hydroalert-frontend/src/pages/riwayat.tsx:69-72 | a day or year that `parseInt` cannot read gives `null` |
| Riwayat.UnknownMonthWord | hydroalert-frontend/src/pages/riwayat.tsx:70-74 | with a readable day and year, a word that is no month name throws instead of giving `null` |
| Riwayat.DayWordReadsBack | hydroalert-frontend/src/pages/riwayat.tsx:69 | a two-digit day is one word and `parseInt` reads it back as the day |
| Riwayat.YearWordReadsBack | hydroalert-frontend/src/pages/riwayat.tsx:71 | a year's digits are one word and `parseInt` reads them back as the year |
| Riwayat.FormatDateISORoundTrip | hydroalert-frontend/src/pages/riwayat.tsx:65-75 | round trip: the `DD <month> YYYY` label of a valid date with a four-digit year, the month name in any case, gives that date's zero-padded `YYYY-MM-DD` |
| Text.LetterFirstIsNaN | hydroalert-frontend/src/pages/riwayat.tsx:69 | a word that starts with a letter does not parse in base 10 |
| Riwayat.WordDayHasNoIso | hydroalert-frontend/src/pages/riwayat.tsx:69-72 | three words whose first starts with a letter give `null` |
| Riwayat.UnknownDateHasNoIso | hydroalert-frontend/src/pages/riwayat.tsx:108 | the label for a missing time, 'Tanggal tidak diketahui', has no ISO date |
| Riwayat.UnknownMonthThrows | hydroalert-frontend/src/pages/riwayat.tsx:65-75 | a label with a valid day and year and a word that is no month name, such as `05 Foo 2025`, throws |
| Riwayat.NormalizeStatus | hydroalert-frontend/src/pages/riwayat.tsx:100-105 | a row is 'warning' exactly when its severity, lower-cased, is 'warning', 'high' or 'critical', 'info' exactly when it is 'info', and 'normal' otherwise or with no severity |
| Riwayat.NormalizeStatusIgnoresCase | hydroalert-frontend/src/pages/riwayat.tsx:100-105 | the severity test ignores letter case, and a missing severity is 'normal' |
| Riwayat.BackendTiersShowNormal | hydroalert-frontend/src/pages/riwayat.tsx:100-105 | every tier name the backend stores as a severity, 'Bahaya' included, shows as 'normal' |
| Riwayat.DateLabel | hydroalert-frontend/src/pages/riwayat.tsx:107-111 | a missing or empty time gives 'Tanggal tidak diketahui', any other the locale's long date |
| Riwayat.DeviceName | hydroalert-frontend/src/pages/riwayat.tsx:141 | the device is never empty: the device id when it is non-empty, else 'Unknown Device' |
| Riwayat.MapItem | hydroalert-frontend/src/pages/riwayat.tsx:144-151 | a row's title and description are never empty; its device is the device name and its status the normalised severity |
| Riwayat.MapItems | hydroalert-frontend/src/pages/riwayat.tsx:138-151 | one row per notification, in order |
| Riwayat.Received | hydroalert-frontend/src/pages/riwayat.tsx:137-138 | the notifications visited are exactly those of the buckets |
| Riwayat.ReceivedAppend | hydroalert-frontend/src/pages/riwayat.tsx:137-138 | the notifications of two runs of buckets are those of the first run followed by those of the second |
| Riwayat.ReceivedOrder | hydroalert-frontend/src/pages/riwayat.tsx:137-138 | each bucket's notifications come as one block, after those of the earlier buckets and before those of the later ones, and the counts add up |
| Riwayat.DeviceNames | hydroalert-frontend/src/pages/riwayat.tsx:141-142 | one device name per notification, in order |
| Riwayat.Distinct | hydroalert-frontend/src/pages/riwayat.tsx:168 | the `Set`'s elements: no name twice, and exactly the names added |
| Riwayat.CollectDevices | hydroalert-frontend/src/pages/riwayat.tsx:135-168 | the device list is the distinct device names in the order they first appear |
| Riwayat.SortDays | hydroalert-frontend/src/pages/riwayat.tsx:162-166 | the sort throws exactly when there are two or more days and some label throws; otherwise it returns the same days in descending ISO-date order |
| Riwayat.SortKeepsTotal | hydroalert-frontend/src/pages/riwayat.tsx:162-166 | sorting keeps the sum of the day counts |
| Riwayat.MapGroups | hydroalert-frontend/src/pages/riwayat.tsx:144-158 | each group keeps its label and count and has its notifications turned into rows |
| Riwayat.GroupDays | hydroalert-frontend/src/pages/riwayat.tsx:133-166 | the days are one per date label, no label twice, each holding the rows of exactly its notifications in order and counting them, sorted newest first, the counts summing to the number of notifications; the result is a throw exactly when two labels differ and one throws |
| Riwayat.MapNotificationsToDayGroups | hydroalert-frontend/src/pages/riwayat.tsx:133-169 | the days of all received notifications as above, and the distinct device names in order of first appearance |
| Riwayat.SortedDays | hydroalert-frontend/src/pages/riwayat.tsx:162-166 | sorting the days of the notifications keeps them the days of those notifications, with the same total |
| Riwayat.ThrowsIffSomeLabelThrows | hydroalert-frontend/src/pages/riwayat.tsx:162-166 | some day's label throws exactly when some notification's label does |
| Riwayat.MappedDays | hydroalert-frontend/src/pages/riwayat.tsx:137-160 | the grouped notifications, turned into rows, are the days of the notifications with the same total |
| Riwayat.ApplyFetch | hydroalert-frontend/src/pages/riwayat.tsx:189-197 | a thrown mapping leaves the page as it was; otherwise the days are replaced, the tabs become 'All Devices' then the devices, and the selected tab is kept if it is still a tab and else reset to 'All Devices' |
| Riwayat.FetchKeepsPageValid | hydroalert-frontend/src/pages/riwayat.tsx:172-193 | the page starts with 'All Devices' first and selected, and every fetch keeps 'All Devices' first and the selected tab among the tabs |
| Riwayat.FetchNotifications | hydroalert-frontend/src/pages/riwayat.tsx:184-199 | after a fetch the page is valid; a fetch whose mapping throws (two different date labels, one of which throws) leaves the page as it was; otherwise the days are the day groups of the received notifications sorted newest first, the tabs are 'All Devices' then the distinct device names, and the selected tab is kept if it is still a tab and else reset to 'All Devices' |
| Riwayat.FilterItems | hydroalert-frontend/src/pages/riwayat.tsx:219-223 | the kept rows are what `filter` returns: those matching the device tab and the status, in order, each as often as in the day, and no other |
| Riwayat.FilterWildcards | hydroalert-frontend/src/pages/riwayat.tsx:220-221 | 'All Devices' with no status keeps every row |
| Riwayat.KeepMatching | hydroalert-frontend/src/pages/riwayat.tsx:217-229 | a day keeps its label, its matching rows, and their number as its count |
| Riwayat.FilterOrThrow | hydroalert-frontend/src/pages/riwayat.tsx:212-216 | a filter whose test throws on some element throws; otherwise it returns the elements the test accepts, in order, each as often as in the input, and no other |
| Riwayat.FilterKeepsAll | hydroalert-frontend/src/pages/riwayat.tsx:213 | a test that accepts every element keeps them all |
| Riwayat.DaysOnDate | hydroalert-frontend/src/pages/riwayat.tsx:212-216 | with a date chosen, a day whose label throws makes the filter throw; otherwise it keeps exactly the days whose ISO date is the chosen one, or every day when none is chosen |
| Riwayat.DaysOnDateInOrder | hydroalert-frontend/src/pages/riwayat.tsx:212-216 | when the date filter does not throw it returns the days on the chosen date in their order, each as often as in the input |
| Riwayat.KeepMatchingAll | hydroalert-frontend/src/pages/riwayat.tsx:217-229 | every day is cut down to its matching rows, in order |
| Riwayat.NonEmptyDays | hydroalert-frontend/src/pages/riwayat.tsx:230 | what `filter` returns: exactly the days with a row, in order |
| Riwayat.FilteredDays | hydroalert-frontend/src/pages/riwayat.tsx:210-231 | the computation throws exactly when a date is chosen and some day's label throws; otherwise it is the days on the chosen date, in order, each cut down to its matching rows and recounted, with the days left empty dropped |
| Riwayat.FilteredDaysShown | hydroalert-frontend/src/pages/riwayat.tsx:210-231 | a shown day has rows, all matching, and counts them; it is an input day on the chosen date cut down to its matching rows; and every such day with a matching row is shown |
| Riwayat.FilteredDaysWildcards | hydroalert-frontend/src/pages/riwayat.tsx:210-231 | with no date, 'All Devices' and no status, non-empty counted days are shown as they are |
| Riwayat.AllOnEmptyDate | hydroalert-frontend/src/pages/riwayat.tsx:213 | with no date chosen every day passes the date filter |
| Riwayat.AllNonEmpty | hydroalert-frontend/src/pages/riwayat.tsx:230 | days that all have rows all pass the last filter |
| DescendingSort.Trichotomy | hydroalert-frontend/src/pages/riwayat.tsx:165 | any two keys are equal or one comes before the other |
| DescendingSort.Asymmetric | hydroalert-frontend/src/pages/riwayat.tsx:165 | no two keys each come before the other |
| DescendingSort.Transitive | hydroalert-frontend/src/pages/riwayat.tsx:165 | the key order is transitive |
| DescendingSort.InsertPos | hydroalert-frontend/src/pages/riwayat.tsx:162-166 | the insertion point follows every element whose key is not below the new one and precedes one whose key is |
| DescendingSort.Sort | hydroalert-frontend/src/pages/riwayat.tsx:162-166 | the sort is a permutation of its input |
| DescendingSort.InsertKeepsDescending | hydroalert-frontend/src/pages/riwayat.tsx:162-166 | inserting into a descending sequence keeps it descending |
| DescendingSort.SortIsDescending | hydroalert-frontend/src/pages/riwayat.tsx:162-166 | the sorted sequence has descending keys |
| DescendingSort.SortKeepsDistinct | hydroalert-frontend/src/pages/riwayat.tsx:162-166 | elements with distinct labels stay distinct after sorting |
| DescendingSort.InsertKeepsDistinct | hydroalert-frontend/src/pages/riwayat.tsx:162-166 | inserting an element with a new label keeps the labels distinct |
| UtcCalendar.DaysInMonth | hydroalert-frontend/src/pages/riwayat.tsx:73 | a month has 28 to 31 days |
| UtcCalendar.Normalize | hydroalert-frontend/src/pages/riwayat.tsx:73 | `Date.UTC`'s day count always lands on a valid date, and a day within the month is kept unchanged |
| UtcCalendar.RollOver | hydroalert-frontend/src/pages/riwayat.tsx:73 | day 0 is the last day of the previous month, and the day after the last is the 1st of the next month |
| UtcCalendar.FullYear | hydroalert-frontend/src/pages/riwayat.tsx:73 | years 0 to 99 stand for 1900 to 1999, other years for themselves |
| UtcCalendar.PadDigits | hydroalert-frontend/src/pages/riwayat.tsx:74 | a zero-padded number has at least the width and only digits |
| UtcCalendar.IsoPrefix | hydroalert-frontend/src/pages/riwayat.tsx:74 | `slice(0, 10)` of the ISO text has ten characters |
| UtcCalendar.UtcIsoDate | hydroalert-frontend/src/pages/riwayat.tsx:73-74 | a RangeError exactly when the normalised date lies outside the valid time range, otherwise ten characters; a day within its month in a year from -271820 to 275759 never throws |
| UtcCalendar.PadExact | hydroalert-frontend/src/pages/riwayat.tsx:74 | a number with fewer digits than the width pads to exactly the width and reads back as the number |
| UtcCalendar.IsoPrefixFourDigitYear | hydroalert-frontend/src/pages/riwayat.tsx:74 | a date with a four-digit year gives `YYYY-MM-DD` |
| UtcCalendar.InRangeDateIsPadded | hydroalert-frontend/src/pages/riwayat.tsx:73-74 | a valid date with a year from 100 to 9999 gives its zero-padded `YYYY-MM-DD` |
| UtcCalendar.PaddedDateReadsBack | hydroalert-frontend/src/pages/riwayat.tsx:74 | the `YYYY-MM-DD` text has ten characters and its fields read back as year, month number and day |
| UtcCalendar.TimeRangeEdges | hydroalert-frontend/src/pages/riwayat.tsx:73-74 | the first and last dates of the valid time range are in range and the days just outside it are not |
| Text.ToLower | hydroalert-frontend/src/pages/riwayat.tsx:70 | lower-casing keeps the length and maps each character on its own |
| Text.ToLowerIdempotent | hydroalert-frontend/src/pages/riwayat.tsx:101 | lower-casing twice is lower-casing once |
| Text.TrimStart | hydroalert-frontend/src/pages/riwayat.tsx:66 | removes exactly the leading white space |
| Text.TrimEnd | hydroalert-frontend/src/pages/riwayat.tsx:66 | removes exactly the trailing white space |
| Text.TrimIsSlice | hydroalert-frontend/src/pages/riwayat.tsx:66 | `trim` gives the slice starting after the leading white space |
| Text.TrimRemovesSpace | hydroalert-frontend/src/pages/riwayat.tsx:66 | only white space is removed, and the result neither starts nor ends with it |
| Text.WordAtFront | hydroalert-frontend/src/pages/riwayat.tsx:66 | the word at the front is the longest prefix without white space |
| Text.Words | hydroalert-frontend/src/pages/riwayat.tsx:66 | no word is empty |
| Text.SplitWhitespace | hydroalert-frontend/src/pages/riwayat.tsx:66 | `split` always gives at least one part |
| Text.SplitThreeWords | hydroalert-frontend/src/pages/riwayat.tsx:66-68 | three words joined by single spaces split back into those three words |
| Text.DigitPrefix | hydroalert-frontend/src/pages/riwayat.tsx:69 | the digits `parseInt` reads are the longest prefix of digits of the radix |
| Text.ParseInt | hydroalert-backend/src/controllers/notificationController.js:92 | after the leading white space and one optional sign, with no radix a `0x` or `0X` prefix selects base 16 and otherwise base 10 (with radix 10 always base 10). A number is read exactly when digits of that base follow, and its magnitude is their value. The result is negative only after a minus sign and never positive after one |
| Text.NoRadixIsDecimal | hydroalert-backend/src/controllers/notificationController.js:92 | without a `0x` prefix, `parseInt` with no radix reads the same as with radix 10 |
| Text.ParseIntNoRadixRoundTrip | hydroalert-backend/src/controllers/notificationController.js:92 | round trip: `parseInt(String(n))` with no radix is `n` for every integer |
| Text.ParseHexPrefixed | hydroalert-backend/src/controllers/notificationController.js:92 | `parseInt('0x' + ds)` with no radix is the base-16 value of the hexadecimal digits `ds` |
| Text.ParseUnsigned | hydroalert-frontend/src/pages/riwayat.tsx:69 | digits followed by a non-digit parse as the digits' value |
| Text.ParseIntIgnoresTail | hydroalert-frontend/src/pages/riwayat.tsx:69 | a written integer followed by a non-digit parses as that integer |
| Text.ParseDigits | hydroalert-frontend/src/pages/riwayat.tsx:69 | a string of digits parses as its value |
| Text.ParseIntRoundTrip | hydroalert-frontend/src/pages/riwayat.tsx:69-71 | round trip: `parseInt` of a written integer is that integer |

## Left out

- I/O is not modelled: the HTTP framework, the MongoDB and Redis clients, socket.io, the Telegram call and the `console` logging. Each handler works on values passed in and returns its answer as a value. The network errors that lead to a 500 answer are not modelled.
- Riwayat.SortDays and DescendingSort.Sort: the order of days with equal ISO keys is not claimed. `Array.prototype.sort` is stable, and the insertion sort keeps equal keys in input order, but no contract states it.
- The clock is not modelled. `Date.now()` is a parameter, and the store's methods take it as `now`.
- The browser's date parsing and its `id-ID` locale renderings of dates, times and numbers are uninterpreted functions in `Browser.Env`.
- Floating point is modelled as exact `real` arithmetic. NaN and Infinity are not modelled except where the code tests for them; this includes a digit string too long for a double in `extractLatLng`. `toFixed(3)` of the adjusted rise rate and `toFixed(4)` of coordinates are not modelled: the rate is kept as a number and the coordinate text is a locale parameter.
- `toLowerCase` is modelled on ASCII letters only, and `localeCompare` as code-unit order.
- The iteration order of JavaScript objects and of the Redis hash is taken as the order of the input sequence.
- The cron schedule (`'*/10 * * * *'`, every 10 minutes) and its log lines are not modelled; `CronJob.RedisCache.Sweep` is one run of its body.
- NotificationController.GetNotificationHistory: the code also copies `limit` into the MongoDB filter object itself. The model drops that field from the query, as Mongoose 6 does by default (`strictQuery` on). From Mongoose 7 on the default is off: `{ limit: N }` then stays in the filter and a request with a limit matches nothing, which the model does not capture. A negative limit is applied as its absolute value, as MongoDB does.
- NotificationController.GetNotificationHistory does not claim that the day buckets come out in any particular order. The order of JavaScript object keys is taken as an input.
- The pages' 30-second polling, the `isMounted` guard, the socket subscriptions, the rendered JSX and `statusClasses` are not modelled. Only the state each updater computes is modelled.
- The fetch error paths on the pages are modelled only as "state unchanged" (`Riwayat.ApplyFetch`).
- Riwayat.FormatDateISO: an unknown month word throws (`Number.isNaN(undefined)` is false). With the `id-ID` date labels the page itself produces this cannot arise; the model keeps it as `Throws`.
- PredictionService.PredictNextStatusTime computes the next tier's threshold from the tier table rather than the failing lookup (see Findings). The lookup as written is `PredictionService.TargetAsWritten`.

## Findings

| source | as written | input that shows it | evidently intended | confidence | as-written member | corrected member |
|---|---|---|---|---|---|---|
| hydroalert-backend/src/services/predictionService.js:74-75 | The target height is `STATUS_THRESHOLDS[nextStatus]` with `nextStatus` a display name such as 'Siaga 1'. The table's keys are BAHAYA, SIAGA_2, SIAGA_1 and WASPADA, and statusHelper.js does not export it, so as written the ES-module import is a link error and predictionService.js cannot be loaded at all. Were it exported, the lookup by display name would still find nothing: `toWaterLevel` would be `undefined` and `estimatedMinutes` NaN. | any reading at least four readings into a rising series, with status 'Normal' (next tier Waspada) | the threshold of the next tier (60, 90, 120 or 180 cm) | not executed | PredictionService.TargetAsWrittenAlwaysMisses | PredictionService.PredictionShape |
| hydroalert-backend/src/controllers/deviceController.js:166-172 | `Notification.create` leaves out `avgWaterLevel`, which the schema requires (hydroalert-backend/src/models/Notification.js:16), so the create throws. handleNotification has no catch, so storeSensorData's catch answers 500, after the device and the reading were already saved. No notification is stored and no Telegram message sent, so no cooldown ever starts and every later non-Normal reading fails the same way. | a reading of 100 cm (tier Siaga 1) for a device with no notification in the last 30 minutes | store the notification with the reading's level as `avgWaterLevel`, send the alert and answer 201 | not executed | DeviceController.BackendStore.StoreSensorDataAsWritten | DeviceController.BackendStore.StoreSensorData |
