/**
 * What the three pages take from the browser: the clock (`Date.now()`), date parsing
 * (`new Date(iso).getTime()`), the `id-ID` locale renderings of times, dates and numbers, and
 * the shared "time ago" wording of `formatAgo` (hydroalert-frontend/src/pages/pemantauan.tsx,
 * lokasi.tsx and riwayat.tsx each hold an identical copy that differs only in the text shown
 * for a missing time).
 *
 * The locale renderings and date parsing are uninterpreted functions carried in `Env`.
 */
module Browser {
  import opened Wrappers
  import Text

  /**
   * The browser facilities, as parameters: `now` is `Date.now()`; `parseTime(iso)` is
   * `new Date(iso).getTime()`, `None` standing for NaN; `timeText`, `dateText`, `numberText` and
   * `fixed4Text` are `toLocaleTimeString('id-ID', …)`, `toLocaleDateString('id-ID', …)`,
   * `String(x)` and `x.toFixed(4)`.
   */
  datatype Env = Env(now: int, parseTime: string -> Option<int>, timeText: string -> string,
                     dateText: string -> string, numberText: real -> string,
                     fixed4Text: real -> string)

  /** `a || b` on optional strings: `a` unless it is absent or empty. */
  function OrElse(a: Option<string>, b: Option<string>): (r: Option<string>)
    ensures a.Some? && a.value != "" ==> r == a
    ensures (a.None? || a.value == "") ==> r == b
  {
    if a.Some? && a.value != "" then a else b
  }

  /** `(s || '')`: the string, or the empty string when it is absent. */
  function OrEmpty(s: Option<string>): (r: string)
    ensures s.Some? ==> r == s.value
    ensures s.None? ==> r == ""
  {
    s.GetOr("")
  }

  const MinuteMs: int := 60000
  const HourMs: int := 60 * MinuteMs
  const DayMs: int := 24 * HourMs

  /** The wording buckets of `formatAgo`. */
  datatype Ago = JustNow | MinutesAgo(minutes: int) | HoursAgo(hours: int) | DaysAgo(days: int)

  /**
   * The bucketing as the source computes it: whole minutes by `Math.floor`, then whole hours from
   * the minutes, then whole days from the hours. Dafny's `/` by a positive divisor is the floor.
   */
  function AgoFromDiff(diffMs: int): (a: Ago)
    ensures a.MinutesAgo? ==> 1 <= a.minutes < 60
    ensures a.HoursAgo? ==> 1 <= a.hours < 24
    ensures a.DaysAgo? ==> a.days >= 1
  {
    var minutes := diffMs / MinuteMs;
    if minutes < 1 then JustNow
    else if minutes < 60 then MinutesAgo(minutes)
    else
      var hours := minutes / 60;
      if hours < 24 then HoursAgo(hours)
      else DaysAgo(hours / 24)
  }

  /**
   * The nested floors agree with the elapsed time read directly: under a minute (or in the
   * future) is "just now", otherwise the count is the whole number of minutes, hours or days.
   */
  lemma AgoMatchesElapsedTime(diffMs: int)
    ensures diffMs < MinuteMs ==> AgoFromDiff(diffMs) == JustNow
    ensures MinuteMs <= diffMs < HourMs ==> AgoFromDiff(diffMs) == MinutesAgo(diffMs / MinuteMs)
    ensures HourMs <= diffMs < DayMs ==> AgoFromDiff(diffMs) == HoursAgo(diffMs / HourMs)
    ensures DayMs <= diffMs ==> AgoFromDiff(diffMs) == DaysAgo(diffMs / DayMs)
  {
    var minutes := diffMs / MinuteMs;
    var hours := minutes / 60;
    assert diffMs / HourMs == hours by {
      assert 60000 * minutes <= diffMs < 60000 * minutes + 60000;
      assert 60 * hours <= minutes < 60 * hours + 60;
    }
    assert diffMs / DayMs == hours / 24 by {
      assert 3600000 * hours <= diffMs < 3600000 * hours + 3600000;
    }
  }

  /** The text of a bucket: `baru saja`, `N menit lalu`, `N jam lalu` or `N hari lalu`. */
  function AgoText(a: Ago): string {
    match a
    case JustNow => "baru saja"
    case MinutesAgo(n) => Text.IntToString(n) + " menit lalu"
    case HoursAgo(n) => Text.IntToString(n) + " jam lalu"
    case DaysAgo(n) => Text.IntToString(n) + " hari lalu"
  }

  /** What `formatAgo` shows for a time it cannot parse: every comparison with NaN is false. */
  const UnparsedAgoText: string := "NaN hari lalu"

  /**
   * formatAgo: `missing` (the page's own text) for an absent or empty time; otherwise the bucket
   * of `now - parseTime(iso)`.
   */
  function FormatAgo(iso: Option<string>, missing: string, env: Env): (s: string)
    ensures (iso.None? || iso == Some("")) ==> s == missing
    ensures iso.Some? && iso.value != "" && env.parseTime(iso.value).None? ==> s == UnparsedAgoText
    ensures iso.Some? && iso.value != "" && env.parseTime(iso.value).Some? ==>
      s == AgoText(AgoFromDiff(env.now - env.parseTime(iso.value).value))
  {
    if iso.None? || iso.value == "" then missing
    else match env.parseTime(iso.value)
      case None => UnparsedAgoText
      case Some(t) => AgoText(AgoFromDiff(env.now - t))
  }

  /** The count shown in a bucket's text reads back as the count (`parseInt` of the text). */
  lemma AgoTextReadsBack(a: Ago)
    requires !a.JustNow?
    ensures Text.ParseInt(AgoText(a), false) ==
      Some(match a case MinutesAgo(n) => n case HoursAgo(n) => n case DaysAgo(n) => n case JustNow => 0)
  {
    var n := match a case MinutesAgo(n) => n case HoursAgo(n) => n case DaysAgo(n) => n case JustNow => 0;
    var suffix := match a case MinutesAgo(_) => " menit lalu" case HoursAgo(_) => " jam lalu"
                          case DaysAgo(_) => " hari lalu" case JustNow => "";
    assert AgoText(a) == Text.IntToString(n) + suffix;
    Text.ParseIntIgnoresTail(n, suffix);
  }

  /** formatTime / formatTimeDisplay: `missing` for an absent or empty time, else the locale time. */
  function FormatTime(iso: Option<string>, missing: string, env: Env): (s: string)
    ensures (iso.None? || iso == Some("")) ==> s == missing
    ensures iso.Some? && iso.value != "" ==> s == env.timeText(iso.value)
  {
    if iso.None? || iso.value == "" then missing else env.timeText(iso.value)
  }
}
