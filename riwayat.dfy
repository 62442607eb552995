/**
 * The notification history page's data shaping (hydroalert-frontend/src/pages/riwayat.tsx):
 * the month-name table, `formatDateISO`, the severity normalisation, the grouping of the
 * fetched notifications into days with the device list, the descending date sort, the
 * page's refresh of its state and the `filteredDays` computation.
 *
 * The fetch, the polling interval and the JSX are not modelled; React state is modelled by the
 * values the updaters return.
 */
module Riwayat {
  import opened Wrappers
  import opened Browser
  import Text
  import UtcCalendar
  import Grouping
  import DescendingSort
  import StatusHelper
  import Subsequences

  // ---------------------------------------------------------------- month names

  /** The month names, English and Indonesian, row `i` naming month index `i`. */
  const MonthNames: seq<seq<string>> := [
    ["january", "januari"], ["february", "februari"], ["march", "maret"], ["april"],
    ["may", "mei"], ["june", "juni"], ["july", "juli"], ["august", "agustus"], ["september"],
    ["october", "oktober"], ["november"], ["december", "desember"]
  ]

  /** `names.forEach(name => { table[name] = i })`: each name enters with index `i`. */
  function EnterNames(table: map<string, int>, names: seq<string>, i: int): (r: map<string, int>)
    ensures forall n :: n in r <==> n in table || n in names
    ensures forall n :: n in r ==> r[n] == if n in names then i else table[n]
  {
    if names == [] then table
    else EnterNames(table, names[..|names| - 1], i)[names[|names| - 1] := i]
  }

  /** The month table after the names of the first `k` rows are entered. */
  function MonthTable(k: nat): (table: map<string, int>)
    requires k <= |MonthNames|
    ensures forall n :: n in table ==> 0 <= table[n] < k
  {
    if k == 0 then map[] else EnterNames(MonthTable(k - 1), MonthNames[k - 1], k - 1)
  }

  /** The last of the first `k` rows that holds `name`: the entry the table keeps for it. */
  function LastRowWith(k: nat, name: string): Option<int>
    requires k <= |MonthNames|
  {
    if k == 0 then None
    else if name in MonthNames[k - 1] then Some(k - 1)
    else LastRowWith(k - 1, name)
  }

  /** The table holds a name exactly when one of the first `k` rows does, with the last such row. */
  lemma {:induction false} MonthTableIsLastRow(k: nat, name: string)
    requires k <= |MonthNames|
    ensures name in MonthTable(k) <==> LastRowWith(k, name).Some?
    ensures name in MonthTable(k) ==> MonthTable(k)[name] == LastRowWith(k, name).value
  {
    if k > 0 {
      MonthTableIsLastRow(k - 1, name);
    }
  }

  /** No name occurs in two rows: the last row holding a name of row `m` is row `m`. */
  lemma RowNamesItsMonth(name: string, m: nat)
    requires m < |MonthNames| && name in MonthNames[m]
    ensures LastRowWith(|MonthNames|, name) == Some(m)
    ensures forall j :: m < j < |MonthNames| ==> name !in MonthNames[j]
  {
    LastRowIsOwnRow(name, m, |MonthNames|);
  }

  /** Row `m` is the last of the first `k` rows holding `name` when no later one of them does. */
  lemma {:induction false} LastRowIsOwnRow(name: string, m: nat, k: nat)
    requires m < k <= |MonthNames| && name in MonthNames[m]
    requires forall j :: m < j < k ==> name !in MonthNames[j]
    ensures LastRowWith(k, name) == Some(m)
  {
    if k - 1 != m {
      LastRowIsOwnRow(name, m, k - 1);
    }
  }

  /** A name that is in none of the first `k` rows has no row. */
  lemma {:induction false} NoRowForName(name: string, k: nat)
    requires k <= |MonthNames| && forall m :: 0 <= m < k ==> name !in MonthNames[m]
    ensures LastRowWith(k, name) == None
  {
    if k > 0 {
      NoRowForName(name, k - 1);
    }
  }

  /** Every name of row `m`, and only the names of the rows, look up to their row's index. */
  lemma MonthTableLookup(name: string)
    ensures name in MonthTable(|MonthNames|) <==> exists m :: 0 <= m < |MonthNames| && name in MonthNames[m]
    ensures forall m :: 0 <= m < |MonthNames| && name in MonthNames[m] ==>
      name in MonthTable(|MonthNames|) && MonthTable(|MonthNames|)[name] == m
  {
    MonthTableIsLastRow(|MonthNames|, name);
    if m :| 0 <= m < |MonthNames| && name in MonthNames[m] {
      RowNamesItsMonth(name, m);
      forall m' | 0 <= m' < |MonthNames| && name in MonthNames[m'] ensures m' == m {
        RowNamesItsMonth(name, m');
      }
    } else {
      NoRowForName(name, |MonthNames|);
    }
  }

  /** The inner `names.forEach`: enters every name of one row with the row's index. */
  method EnterRow(table: map<string, int>, names: seq<string>, i: int) returns (index: map<string, int>)
    ensures index == EnterNames(table, names, i)
  {
    index := table;
    var j := 0;
    while j < |names|
      invariant 0 <= j <= |names|
      invariant index == EnterNames(table, names[..j], i)
    {
      assert names[..j + 1][..j] == names[..j];
      index := index[names[j] := i];
      j := j + 1;
    }
    assert names[..j] == names;
  }

  /**
   * The `forEach` that fills `monthIndex`: every name of every row is entered with its row's
   * index, later rows overwriting earlier ones.
   */
  method BuildMonthIndex() returns (index: map<string, int>)
    ensures index == MonthTable(|MonthNames|)
    ensures forall name :: name in index <==> exists m :: 0 <= m < |MonthNames| && name in MonthNames[m]
    ensures forall name, m :: 0 <= m < |MonthNames| && name in MonthNames[m] ==> name in index && index[name] == m
  {
    index := map[];
    var i := 0;
    while i < |MonthNames|
      invariant 0 <= i <= |MonthNames|
      invariant index == MonthTable(i)
    {
      index := EnterRow(index, MonthNames[i], i);
      i := i + 1;
    }
    forall name ensures (name in index <==> exists m :: 0 <= m < |MonthNames| && name in MonthNames[m]) &&
      (forall m :: 0 <= m < |MonthNames| && name in MonthNames[m] ==> name in index && index[name] == m)
    {
      MonthTableLookup(name);
    }
  }

  /** The filled `monthIndex`. */
  function MonthIndex(): (table: map<string, int>)
    ensures forall n :: n in table ==> 0 <= table[n] < 12
  {
    MonthTable(|MonthNames|)
  }

  // ---------------------------------------------------------------- formatDateISO

  /** What `formatDateISO` produces: `null`, a `YYYY-MM-DD` text, or a thrown RangeError. */
  datatype IsoResult = NoIso | Iso(text: string) | Throws

  /**
   * formatDateISO: a day, a month name in any letter case and a year, separated by white
   * space, become the `YYYY-MM-DD` of that date; anything but three words gives `null`.
   */
  function FormatDateISO(dateStr: string): (r: IsoResult)
    ensures |Text.SplitWhitespace(dateStr)| != 3 ==> r == NoIso
    ensures r.Iso? ==> |r.text| == 10
  {
    var parts := Text.SplitWhitespace(dateStr);
    if |parts| != 3 then NoIso else DateFromWords(parts[0], parts[1], parts[2])
  }

  /**
   * The three words read as a date. A day or year that does not parse gives `null`. An unknown
   * month is not caught: its index is `undefined`, which the `isNaN` test lets through,
   * `Date.UTC` gives NaN and `toISOString` throws; so does a date outside the range of valid
   * times.
   */
  function DateFromWords(dayWord: string, monthWord: string, yearWord: string): (r: IsoResult)
    ensures r.Iso? ==> |r.text| == 10
  {
    var day := Text.ParseInt(dayWord, false);
    var month := Text.ToLower(monthWord);
    var year := Text.ParseInt(yearWord, false);
    if day.None? || year.None? then NoIso
    else if month !in MonthIndex() then Throws
    else match UtcCalendar.UtcIsoDate(year.value, MonthIndex()[month], day.value)
      case IsoText(t) => Iso(t)
      case RangeError => Throws
  }

  /** Three words joined by single spaces are read as day, month and year. */
  lemma FormatThreeWords(dayWord: string, monthWord: string, yearWord: string)
    requires dayWord != [] && monthWord != [] && yearWord != []
    requires Text.NoSpace(dayWord) && Text.NoSpace(monthWord) && Text.NoSpace(yearWord)
    ensures FormatDateISO(dayWord + " " + monthWord + " " + yearWord) == DateFromWords(dayWord, monthWord, yearWord)
  {
    Text.SplitThreeWords(dayWord, monthWord, yearWord);
  }

  /** A name whose lower-case form is a month name of row `m`: its index is `m`, whatever its case. */
  lemma MonthNameLooksUp(name: string, m: nat)
    requires m < |MonthNames| && Text.ToLower(name) in MonthNames[m]
    ensures Text.ToLower(name) in MonthIndex() && MonthIndex()[Text.ToLower(name)] == m
  {
    MonthTableLookup(Text.ToLower(name));
  }

  /** A day or a year that does not parse gives `null`, whatever the month. */
  lemma UnparsedDayOrYear(dayWord: string, monthWord: string, yearWord: string)
    requires Text.ParseInt(dayWord, false).None? || Text.ParseInt(yearWord, false).None?
    ensures DateFromWords(dayWord, monthWord, yearWord) == NoIso
  {
  }

  /** An unknown month between a day and a year that parse throws. */
  lemma UnknownMonthWord(dayWord: string, monthWord: string, yearWord: string)
    requires Text.ParseInt(dayWord, false).Some? && Text.ParseInt(yearWord, false).Some?
    requires forall m :: 0 <= m < |MonthNames| ==> Text.ToLower(monthWord) !in MonthNames[m]
    ensures DateFromWords(dayWord, monthWord, yearWord) == Throws
  {
    MonthTableLookup(Text.ToLower(monthWord));
  }

  /** A two-digit day of a month reads back as the day. */
  lemma DayWordReadsBack(day: int)
    requires 1 <= day <= 31
    ensures UtcCalendar.PadDigits(day, 2) != [] && Text.NoSpace(UtcCalendar.PadDigits(day, 2))
    ensures Text.ParseInt(UtcCalendar.PadDigits(day, 2), false) == Some(day)
  {
    var ds := UtcCalendar.PadDigits(day, 2);
    assert Text.Power10(2) == 100;
    UtcCalendar.PadExact(day, 2);
    UtcCalendar.PadValue(day, 2);
    Text.AlphanumericNoSpace(ds);
    Text.ParseDigits(ds);
  }

  /** A positive year's digits read back as the year. */
  lemma YearWordReadsBack(year: int)
    requires year >= 0
    ensures Text.IntToString(year) != [] && Text.NoSpace(Text.IntToString(year))
    ensures Text.ParseInt(Text.IntToString(year), false) == Some(year)
  {
    Text.AlphanumericNoSpace(Text.DecimalDigits(year));
    Text.ParseIntRoundTrip(year);
  }

  /**
   * Round trip: the locale's `DD <month> YYYY` label of a valid date with a four-digit year
   * (two-digit day, month name in any case, the year's digits) becomes that date's
   * zero-padded `YYYY-MM-DD`.
   */
  lemma FormatDateISORoundTrip(day: int, name: string, m: nat, year: int)
    requires m < 12 && 100 <= year <= 9999 && 1 <= day <= UtcCalendar.DaysInMonth(year, m)
    requires name != [] && Text.NoSpace(name) && Text.ToLower(name) in MonthNames[m]
    ensures FormatDateISO(UtcCalendar.PadDigits(day, 2) + " " + name + " " + Text.IntToString(year)) ==
      Iso(UtcCalendar.PadDigits(year, 4) + "-" + UtcCalendar.PadDigits(m + 1, 2) + "-" + UtcCalendar.PadDigits(day, 2))
  {
    var ds := UtcCalendar.PadDigits(day, 2);
    var ys := Text.IntToString(year);
    DayWordReadsBack(day);
    YearWordReadsBack(year);
    FormatThreeWords(ds, name, ys);
    MonthNameLooksUp(name, m);
    UtcCalendar.InRangeDateIsPadded(year, m, day);
  }

  /** Three words whose first does not start with a digit, a sign or white space are not a date. */
  lemma WordDayHasNoIso(dayWord: string, monthWord: string, yearWord: string)
    requires dayWord != [] && monthWord != [] && yearWord != []
    requires Text.NoSpace(dayWord) && Text.NoSpace(monthWord) && Text.NoSpace(yearWord)
    requires 'A' <= dayWord[0] <= 'Z' || 'a' <= dayWord[0] <= 'z'
    ensures FormatDateISO(dayWord + " " + monthWord + " " + yearWord) == NoIso
  {
    assert DateFromWords(dayWord, monthWord, yearWord) == NoIso by {
      Text.LetterFirstIsNaN(dayWord);
      UnparsedDayOrYear(dayWord, monthWord, yearWord);
    }
    FormatThreeWords(dayWord, monthWord, yearWord);
  }

  /** The label for a missing time is three words, but not a date: it has no ISO form. */
  lemma UnknownDateHasNoIso()
    ensures FormatDateISO(UnknownDate) == NoIso
  {
    var day, month, year := "Tanggal", "tidak", "diketahui";
    assert UnknownDate == day + " " + month + " " + year;
    assert Text.NoSpace(day) by { Text.AlphanumericNoSpace(day); }
    assert Text.NoSpace(month) by { Text.AlphanumericNoSpace(month); }
    assert Text.NoSpace(year) by { Text.AlphanumericNoSpace(year); }
    assert day[0] == 'T';
    WordDayHasNoIso(day, month, year);
  }

  /**
   * A label with a valid day and year but a word that is no month name, such as
   * "05 Foo 2025", throws where `null` was evidently meant.
   */
  lemma UnknownMonthThrows(day: int, word: string, year: int)
    requires 1 <= day <= 31 && year >= 0
    requires word != [] && Text.NoSpace(word)
    requires forall m :: 0 <= m < |MonthNames| ==> Text.ToLower(word) !in MonthNames[m]
    ensures FormatDateISO(UtcCalendar.PadDigits(day, 2) + " " + word + " " + Text.IntToString(year)) == Throws
  {
    DayWordReadsBack(day);
    YearWordReadsBack(year);
    FormatThreeWords(UtcCalendar.PadDigits(day, 2), word, Text.IntToString(year));
    UnknownMonthWord(UtcCalendar.PadDigits(day, 2), word, Text.IntToString(year));
  }

  // ---------------------------------------------------------------- severity

  datatype ItemStatus = Normal | Warning | Info

  /** normalizeStatus: 'warning', 'high' and 'critical' in any case warn, 'info' informs, the rest is normal. */
  function NormalizeStatus(severity: Option<string>): (r: ItemStatus)
    ensures r == Warning <==>
      (severity.Some? && Text.ToLower(severity.value) in ["warning", "high", "critical"])
    ensures r == Info <==> (severity.Some? && Text.ToLower(severity.value) == "info")
    ensures severity.None? ==> r == Normal
  {
    var low := Text.ToLower(OrEmpty(severity));
    if low == "warning" || low == "high" || low == "critical" then Warning
    else if low == "info" then Info
    else Normal
  }

  /** The comparison ignores letter case; a missing severity is normal. */
  lemma NormalizeStatusIgnoresCase(s: string)
    ensures NormalizeStatus(Some(s)) == NormalizeStatus(Some(Text.ToLower(s)))
    ensures NormalizeStatus(None) == Normal
  {
    Text.ToLowerIdempotent(s);
  }

  /**
   * The backend stores the tier names as severities, and none of them is one of the words the
   * page looks for: every stored notification, 'Bahaya' included, shows as normal.
   */
  lemma BackendTiersShowNormal(t: StatusHelper.Tier)
    ensures NormalizeStatus(Some(StatusHelper.TierName(t))) == Normal
  {
    var low := Text.ToLower(StatusHelper.TierName(t));
    match t
    case Normal => assert low[0] == 'n';
    case Waspada => assert low[2] == 's';
    case Siaga1 => assert low[0] == 's';
    case Siaga2 => assert low[0] == 's';
    case Bahaya => assert low[0] == 'b';
  }

  // ---------------------------------------------------------------- day groups

  /** A notification as `/api/notifications` returns it; every field may be missing. */
  datatype NotificationItem = NotificationItem(deviceID: Option<string>, title: Option<string>,
                                               message: Option<string>, severity: Option<string>,
                                               createdAt: Option<string>)

  /** One bucket of the response's `data` record. */
  datatype Bucket = Bucket(total: int, items: seq<NotificationItem>)

  /** A history row as the page shows it. */
  datatype HistoryItem = HistoryItem(title: string, device: string, description: string,
                                     time: string, ago: string, status: ItemStatus)

  /** A day of history: its date label, its count and its rows. */
  type DayGroup = Grouping.Group<string, HistoryItem>

  const UnknownDate: string := "Tanggal tidak diketahui"
  const UnknownDevice: string := "Unknown Device"
  const AllDevices: string := "All Devices"

  /** formatDateDisplay: the text for a missing time, or the locale's long date. */
  function DateLabel(createdAt: Option<string>, env: Env): (s: string)
    ensures (createdAt.None? || createdAt == Some("")) ==> s == UnknownDate
    ensures createdAt.Some? && createdAt.value != "" ==> s == env.dateText(createdAt.value)
  {
    if createdAt.None? || createdAt.value == "" then UnknownDate else env.dateText(createdAt.value)
  }

  /** `item.deviceID || 'Unknown Device'`: never empty. */
  function DeviceName(item: NotificationItem): (d: string)
    ensures d != ""
    ensures item.deviceID.Some? && item.deviceID.value != "" ==> d == item.deviceID.value
    ensures (item.deviceID.None? || item.deviceID == Some("")) ==> d == UnknownDevice
  {
    OrElse(item.deviceID, Some(UnknownDevice)).value
  }

  /** The row for one notification; a missing title or message shows a placeholder. */
  function MapItem(item: NotificationItem, env: Env): (h: HistoryItem)
    ensures h.title != "" && h.description != ""
    ensures h.device == DeviceName(item) && h.status == NormalizeStatus(item.severity)
  {
    HistoryItem(OrElse(item.title, Some("Notifikasi")).value, DeviceName(item),
                OrElse(item.message, Some("-")).value, FormatTime(item.createdAt, "-", env),
                FormatAgo(item.createdAt, "-", env), NormalizeStatus(item.severity))
  }

  function MapItems(items: seq<NotificationItem>, env: Env): (r: seq<HistoryItem>)
    ensures |r| == |items|
    ensures forall i :: 0 <= i < |items| ==> r[i] == MapItem(items[i], env)
  {
    seq(|items|, i requires 0 <= i < |items| => MapItem(items[i], env))
  }

  /** The notifications in the order the page visits them: bucket by bucket, item by item. */
  function Received(buckets: seq<Bucket>): (r: seq<NotificationItem>)
    ensures forall b, x :: b in buckets && x in b.items ==> x in r
    ensures forall x :: x in r ==> exists b :: b in buckets && x in b.items
  {
    if buckets == [] then []
    else
      var init := buckets[..|buckets| - 1];
      assert forall b :: b in init ==> b in buckets;
      Received(init) + buckets[|buckets| - 1].items
  }

  /** Two runs of buckets are visited one after the other. */
  lemma {:induction false} ReceivedAppend(a: seq<Bucket>, b: seq<Bucket>)
    ensures Received(a + b) == Received(a) + Received(b)
    decreases |b|
  {
    if b == [] {
      assert a + b == a;
    } else {
      var ab, init, last := a + b, b[..|b| - 1], b[|b| - 1];
      assert ab[..|ab| - 1] == a + init && ab[|ab| - 1] == last;
      calc {
        Received(ab);
        Received(a + init) + last.items;
        { ReceivedAppend(a, init); }
        (Received(a) + Received(init)) + last.items;
        Received(a) + (Received(init) + last.items);
        Received(a) + Received(b);
      }
    }
  }

  /**
   * Every bucket's notifications appear as one block, in their own order, after those of the
   * buckets before it and before those of the buckets after it; so the count is the sum of
   * the bucket lengths.
   */
  lemma ReceivedOrder(buckets: seq<Bucket>, k: nat)
    requires k < |buckets|
    ensures Received(buckets) == Received(buckets[..k]) + buckets[k].items + Received(buckets[k + 1..])
    ensures |Received(buckets)| == |Received(buckets[..k])| + |buckets[k].items| + |Received(buckets[k + 1..])|
  {
    assert buckets == (buckets[..k] + [buckets[k]]) + buckets[k + 1..];
    ReceivedAppend(buckets[..k] + [buckets[k]], buckets[k + 1..]);
    assert (buckets[..k] + [buckets[k]])[..k] == buckets[..k];
  }

  /** The key each notification is grouped by: the date label of its creation time. */
  function DayOf(env: Env): NotificationItem -> string {
    (item: NotificationItem) => DateLabel(item.createdAt, env)
  }

  function DeviceNames(items: seq<NotificationItem>): (r: seq<string>)
    ensures |r| == |items|
    ensures forall i :: 0 <= i < |items| ==> r[i] == DeviceName(items[i])
  {
    seq(|items|, i requires 0 <= i < |items| => DeviceName(items[i]))
  }

  /** The distinct elements of `s` in the order they first appear (what a `Set` iterates in). */
  function Distinct(s: seq<string>): (r: seq<string>)
    ensures forall i, j :: 0 <= i < j < |r| ==> r[i] != r[j]
    ensures forall x :: x in r <==> x in s
  {
    if s == [] then []
    else
      var init := s[..|s| - 1];
      assert forall x :: x in init ==> x in s;
      assert s == init + [s[|s| - 1]];
      var r := Distinct(init);
      if s[|s| - 1] in r then r else r + [s[|s| - 1]]
  }

  /** `deviceSet.add(device)` for every notification, then `Array.from(deviceSet)`. */
  method CollectDevices(items: seq<NotificationItem>) returns (devices: seq<string>)
    ensures devices == Distinct(DeviceNames(items))
  {
    var names := DeviceNames(items);
    devices := [];
    var seen: set<string> := {};
    var i := 0;
    while i < |items|
      invariant 0 <= i <= |items|
      invariant devices == Distinct(names[..i])
      invariant seen == set d | d in devices
    {
      var d := DeviceName(items[i]);
      assert names[..i + 1][..i] == names[..i] && names[..i + 1][i] == d;
      if d !in seen {
        seen := seen + {d};
        devices := devices + [d];
      }
      i := i + 1;
    }
    assert names[..i] == names;
  }

  /** The sort key of a day: its ISO date, or `''` when the label has none. */
  function DayIsoKey(day: DayGroup): string {
    match FormatDateISO(day.key)
    case Iso(t) => t
    case _ => ""
  }

  predicate KeyThrows(dateLabel: string) {
    FormatDateISO(dateLabel).Throws?
  }

  /**
   * The comparator reads the ISO key of every day once there are two or more days to
   * compare, so the sort throws exactly when some label throws and there are two days.
   */
  predicate SortThrows(days: seq<DayGroup>) {
    |days| >= 2 && exists i :: 0 <= i < |days| && KeyThrows(days[i].key)
  }

  /** `days.sort((a, b) => bISO.localeCompare(aISO))`, `None` when it throws. */
  function SortDays(days: seq<DayGroup>): (r: Option<seq<DayGroup>>)
    ensures r.None? <==> SortThrows(days)
    ensures r.Some? ==> DescendingSort.Descending(r.value, DayIsoKey)
    ensures r.Some? ==> multiset(r.value) == multiset(days)
  {
    if SortThrows(days) then None
    else
      DescendingSort.SortIsDescending(days, DayIsoKey);
      Some(DescendingSort.Sort(days, DayIsoKey))
  }

  /** Sorting moves groups around but keeps the sum of their totals. */
  lemma {:induction false} SortKeepsTotal<V>(gs: seq<Grouping.Group<string, V>>, key: Grouping.Group<string, V> -> string)
    ensures Grouping.SumTotals(DescendingSort.Sort(gs, key)) == Grouping.SumTotals(gs)
  {
    if gs != [] {
      var init := gs[..|gs| - 1];
      var x := gs[|gs| - 1];
      assert gs == init + [x];
      var t := DescendingSort.Sort(init, key);
      var p := DescendingSort.InsertPos(x, t, key);
      assert t[..p] + t[p..] == t;
      SortKeepsTotal(init, key);
      Grouping.SumTotalsAppend(init, [x]);
      Grouping.SumTotalsAppend(t[..p] + [x], t[p..]);
      Grouping.SumTotalsAppend(t[..p], [x]);
      Grouping.SumTotalsAppend(t[..p], t[p..]);
    }
  }

  /**
   * The days the page builds from `items`: one per date label, no label twice, each holding
   * the rows of exactly the notifications with its label, in order, and counting them.
   */
  ghost predicate DaysOf(days: seq<DayGroup>, items: seq<NotificationItem>, env: Env) {
    && DescendingSort.DistinctBy(days, (d: DayGroup) => d.key)
    && (set d | d in days :: d.key) == Grouping.KeysOf(items, DayOf(env))
    && (forall d :: d in days ==>
          d.items == MapItems(Grouping.Select(items, DayOf(env), d.key), env) && d.total == |d.items|)
  }

  /** The groups with their notifications turned into rows. */
  function MapGroups(gs: seq<Grouping.Group<string, NotificationItem>>, env: Env): (r: seq<DayGroup>)
    ensures |r| == |gs|
    ensures forall i :: 0 <= i < |gs| ==> r[i] == Grouping.Group(gs[i].key, gs[i].total, MapItems(gs[i].items, env))
  {
    seq(|gs|, i requires 0 <= i < |gs| => Grouping.Group(gs[i].key, gs[i].total, MapItems(gs[i].items, env)))
  }

  /**
   * The days part of mapNotificationsToDayGroups: groups the notifications by date label,
   * pushing each row into its day and counting it, and sorts the days newest first. The sort
   * throws (`None`) when two or more days exist and a label throws in `formatDateISO`.
   */
  method GroupDays(items: seq<NotificationItem>, env: Env) returns (days: Option<seq<DayGroup>>)
    ensures days.None? <==> LabelsDiffer(items, env) && SomeLabelThrows(items, env)
    ensures days.Some? ==> DaysOf(days.value, items, env)
    ensures days.Some? ==> DescendingSort.Descending(days.value, DayIsoKey)
    ensures days.Some? ==> Grouping.SumTotals(days.value) == |items|
  {
    var gs := Grouping.GroupBy(items, DayOf(env));
    var mapped := MapGroups(gs, env);
    days := SortDays(mapped);
    ThrowsIffSomeLabelThrows(gs, mapped, items, env);
    Grouping.AtLeastTwoGroups(gs, items, DayOf(env));
    if days.Some? {
      MappedDays(gs, mapped, items, env);
      SortedDays(mapped, items, env);
    }
  }

  /** mapNotificationsToDayGroups: the days of the received notifications and their devices. */
  method MapNotificationsToDayGroups(buckets: seq<Bucket>, env: Env) returns (days: Option<seq<DayGroup>>, devices: seq<string>)
    ensures devices == Distinct(DeviceNames(Received(buckets)))
    ensures days.None? <==> LabelsDiffer(Received(buckets), env) && SomeLabelThrows(Received(buckets), env)
    ensures days.Some? ==> DaysOf(days.value, Received(buckets), env)
    ensures days.Some? ==> DescendingSort.Descending(days.value, DayIsoKey)
    ensures days.Some? ==> Grouping.SumTotals(days.value) == |Received(buckets)|
  {
    var items := Received(buckets);
    days := GroupDays(items, env);
    devices := CollectDevices(items);
  }

  /** Sorting the days of the items gives days of the items again, with the same total. */
  lemma SortedDays(days: seq<DayGroup>, items: seq<NotificationItem>, env: Env)
    requires DaysOf(days, items, env)
    ensures DaysOf(DescendingSort.Sort(days, DayIsoKey), items, env)
    ensures Grouping.SumTotals(DescendingSort.Sort(days, DayIsoKey)) == Grouping.SumTotals(days)
  {
    var sorted := DescendingSort.Sort(days, DayIsoKey);
    DescendingSort.SortKeepsDistinct(days, DayIsoKey, (d: DayGroup) => d.key);
    SortKeepsTotal(days, DayIsoKey);
    forall d | d in sorted ensures d in days {
      assert d in multiset(sorted);
    }
    forall d | d in days ensures d in sorted {
      assert d in multiset(days);
    }
    assert (set d | d in sorted :: d.key) == (set d | d in days :: d.key);
  }

  /** Two notifications carry different date labels. */
  ghost predicate LabelsDiffer(items: seq<NotificationItem>, env: Env) {
    exists i, j :: 0 <= i < |items| && 0 <= j < |items| && DayOf(env)(items[i]) != DayOf(env)(items[j])
  }

  /** Some notification's date label throws in `formatDateISO`. */
  ghost predicate SomeLabelThrows(items: seq<NotificationItem>, env: Env) {
    exists i :: 0 <= i < |items| && KeyThrows(DayOf(env)(items[i]))
  }

  /** A day's label throws exactly when the label of one of its notifications does. */
  lemma ThrowsIffSomeLabelThrows(gs: seq<Grouping.Group<string, NotificationItem>>, mapped: seq<DayGroup>,
                                 items: seq<NotificationItem>, env: Env)
    requires Grouping.IsGrouping(gs, items, DayOf(env))
    requires |mapped| == |gs| && forall i :: 0 <= i < |gs| ==> mapped[i].key == gs[i].key
    ensures (exists a :: 0 <= a < |mapped| && KeyThrows(mapped[a].key)) <==> SomeLabelThrows(items, env)
  {
    var key := DayOf(env);
    if a :| 0 <= a < |mapped| && KeyThrows(mapped[a].key) {
      assert gs[a].key in Grouping.GroupKeys(gs);
      var i :| 0 <= i < |items| && key(items[i]) == gs[a].key;
    }
    if i :| 0 <= i < |items| && KeyThrows(key(items[i])) {
      assert key(items[i]) in Grouping.KeysOf(items, key);
      var a :| 0 <= a < |gs| && gs[a].key == key(items[i]);
      assert KeyThrows(mapped[a].key);
    }
  }

  /** The grouped buckets with their notifications turned into rows are the days of the items. */
  lemma MappedDays(gs: seq<Grouping.Group<string, NotificationItem>>, mapped: seq<DayGroup>,
                   items: seq<NotificationItem>, env: Env)
    requires Grouping.IsGrouping(gs, items, DayOf(env))
    requires |mapped| == |gs| && forall i :: 0 <= i < |gs| ==>
      mapped[i] == Grouping.Group(gs[i].key, gs[i].total, MapItems(gs[i].items, env))
    ensures DaysOf(mapped, items, env)
    ensures Grouping.SumTotals(mapped) == Grouping.SumTotals(gs)
  {
    forall d | d in mapped
      ensures d.items == MapItems(Grouping.Select(items, DayOf(env), d.key), env) && d.total == |d.items|
    {
      var a :| 0 <= a < |mapped| && mapped[a] == d;
      assert gs[a] in gs;
    }
    assert (set d | d in mapped :: d.key) == Grouping.GroupKeys(gs) by {
      forall k | k in Grouping.GroupKeys(gs) ensures k in (set d | d in mapped :: d.key) {
        var a :| 0 <= a < |gs| && gs[a].key == k;
        assert mapped[a] in mapped;
      }
    }
    SumTotalsOfMapped(gs, mapped, env);
  }

  lemma {:induction false} SumTotalsOfMapped(gs: seq<Grouping.Group<string, NotificationItem>>, mapped: seq<DayGroup>, env: Env)
    requires |mapped| == |gs| && forall i :: 0 <= i < |gs| ==>
      mapped[i] == Grouping.Group(gs[i].key, gs[i].total, MapItems(gs[i].items, env))
    ensures Grouping.SumTotals(mapped) == Grouping.SumTotals(gs)
  {
    if gs != [] {
      SumTotalsOfMapped(gs[..|gs| - 1], mapped[..|mapped| - 1], env);
    }
  }

  // ---------------------------------------------------------------- page state

  /** The page's state: the device tabs, the selected tab and the days. */
  datatype HistoryPage = HistoryPage(tabs: seq<string>, activeTab: string, days: seq<DayGroup>)

  const InitialPage: HistoryPage := HistoryPage([AllDevices], AllDevices, [])

  /** The selected tab is one of the tabs, and 'All Devices' is always the first. */
  predicate ValidPage(page: HistoryPage) {
    page.tabs != [] && page.tabs[0] == AllDevices && page.activeTab in page.tabs
  }

  /**
   * What a fetch does to the page: a thrown sort is caught and leaves the page as it was;
   * otherwise the days are replaced, the tabs become 'All Devices' and the devices, and the
   * selected tab is kept if it is still a tab, else reset to 'All Devices'.
   */
  function ApplyFetch(page: HistoryPage, days: Option<seq<DayGroup>>, devices: seq<string>): (next: HistoryPage)
    ensures days.None? ==> next == page
    ensures days.Some? ==> next.days == days.value && next.tabs == [AllDevices] + devices
    ensures days.Some? && page.activeTab in next.tabs ==> next.activeTab == page.activeTab
    ensures days.Some? && page.activeTab !in next.tabs ==> next.activeTab == AllDevices
  {
    if days.None? then page
    else
      var tabs := [AllDevices] + devices;
      HistoryPage(tabs, if page.activeTab in tabs then page.activeTab else AllDevices, days.value)
  }

  /** The page starts valid and every fetch keeps it valid. */
  lemma FetchKeepsPageValid(page: HistoryPage, days: Option<seq<DayGroup>>, devices: seq<string>)
    requires ValidPage(page)
    ensures ValidPage(InitialPage)
    ensures ValidPage(ApplyFetch(page, days, devices))
  {
    var next := ApplyFetch(page, days, devices);
    if days.Some? {
      assert next.tabs[0] == AllDevices;
    }
  }

  /** fetchNotifications: map the response and apply it to the page. */
  method FetchNotifications(page: HistoryPage, buckets: seq<Bucket>, env: Env) returns (next: HistoryPage)
    requires ValidPage(page)
    ensures ValidPage(next)
    ensures LabelsDiffer(Received(buckets), env) && SomeLabelThrows(Received(buckets), env) ==> next == page
    ensures !(LabelsDiffer(Received(buckets), env) && SomeLabelThrows(Received(buckets), env)) ==>
      && DaysOf(next.days, Received(buckets), env)
      && DescendingSort.Descending(next.days, DayIsoKey)
      && next.tabs == [AllDevices] + Distinct(DeviceNames(Received(buckets)))
      && next.activeTab == (if page.activeTab in next.tabs then page.activeTab else AllDevices)
    ensures next == page || DaysOf(next.days, Received(buckets), env)
    ensures next != page ==> next.tabs == [AllDevices] + Distinct(DeviceNames(Received(buckets)))
  {
    var days, devices := MapNotificationsToDayGroups(buckets, env);
    FetchKeepsPageValid(page, days, devices);
    next := ApplyFetch(page, days, devices);
  }

  // ---------------------------------------------------------------- filteredDays

  /** The device tab ('All Devices' matches any) and the status filter (`None` is '') both match. */
  predicate ItemMatches(item: HistoryItem, tab: string, status: Option<ItemStatus>) {
    (tab == AllDevices || item.device == tab) && (status.None? || item.status == status.value)
  }

  /** The rows that match, in order. */
  function FilterItems(items: seq<HistoryItem>, tab: string, status: Option<ItemStatus>): (r: seq<HistoryItem>)
    ensures Subsequences.IsFilterOf(r, items, x => ItemMatches(x, tab, status))
    ensures |r| <= |items|
    ensures forall x :: x in r <==> x in items && ItemMatches(x, tab, status)
  {
    if items == [] then []
    else
      var init := items[..|items| - 1];
      var x := items[|items| - 1];
      assert items == init + [x];
      var rest := FilterItems(init, tab, status);
      Subsequences.FilterStep(init, x, rest, y => ItemMatches(y, tab, status));
      rest + (if ItemMatches(x, tab, status) then [x] else [])
  }

  /** With both wildcards every row matches. */
  lemma {:induction false} FilterWildcards(items: seq<HistoryItem>)
    ensures FilterItems(items, AllDevices, None) == items
  {
    if items != [] {
      FilterWildcards(items[..|items| - 1]);
      assert items == items[..|items| - 1] + [items[|items| - 1]];
    }
  }

  /** The day filter: no date chosen, or the day's label has the chosen ISO date. */
  predicate OnDay(day: DayGroup, activeDayIso: string) {
    activeDayIso == "" || FormatDateISO(day.key) == Iso(activeDayIso)
  }

  /** With a date chosen, the filter reads every day's ISO date and throws if one throws. */
  predicate DayFilterThrows(days: seq<DayGroup>, activeDayIso: string) {
    activeDayIso != "" && exists i :: 0 <= i < |days| && KeyThrows(days[i].key)
  }

  /** A day with only its matching rows, counted. */
  function KeepMatching(day: DayGroup, tab: string, status: Option<ItemStatus>): (d: DayGroup)
    ensures d.key == day.key && d.total == |d.items|
    ensures d.items == FilterItems(day.items, tab, status)
  {
    var items := FilterItems(day.items, tab, status);
    Grouping.Group(day.key, |items|, items)
  }

  /**
   * `s.filter(keep)` where evaluating `keep` may throw (`None`): a throw on any element
   * propagates, otherwise the elements it keeps, in order.
   */
  function FilterOrThrow<T(!new)>(s: seq<T>, keep: T -> Option<bool>): (r: Option<seq<T>>)
    ensures r.None? <==> exists i :: 0 <= i < |s| && keep(s[i]).None?
    ensures r.Some? ==> Subsequences.IsFilterOf(r.value, s, x => keep(x) == Some(true))
    ensures r.Some? ==> forall x :: x in r.value <==> x in s && keep(x) == Some(true)
  {
    if s == [] then Some([])
    else
      var init := s[..|s| - 1];
      var x := s[|s| - 1];
      assert s == init + [x];
      var rest := FilterOrThrow(init, keep);
      if keep(x).None? || rest.None? then None
      else
        Subsequences.FilterStep(init, x, rest.value, y => keep(y) == Some(true));
        if keep(x).value then Some(rest.value + [x]) else Some(rest.value + [])
  }

  /** When `keep` keeps everything, the filter is the identity. */
  lemma {:induction false} FilterKeepsAll<T(!new)>(s: seq<T>, keep: T -> Option<bool>)
    requires forall i :: 0 <= i < |s| ==> keep(s[i]) == Some(true)
    ensures FilterOrThrow(s, keep) == Some(s)
  {
    if s != [] {
      var init := s[..|s| - 1];
      assert s == init + [s[|s| - 1]];
      FilterKeepsAll(init, keep);
    }
  }

  /** The date test of filteredDays: no date chosen keeps every day without reading its date. */
  function DateTest(activeDayIso: string): DayGroup -> Option<bool> {
    (day: DayGroup) =>
      if activeDayIso == "" then Some(true)
      else match FormatDateISO(day.key)
        case Throws => None
        case Iso(t) => Some(t == activeDayIso)
        case NoIso => Some(false)
  }

  /** The first `.filter` of filteredDays: the days on the chosen date, `None` when a date throws. */
  function DaysOnDate(days: seq<DayGroup>, activeDayIso: string): (r: Option<seq<DayGroup>>)
    ensures r.None? <==> DayFilterThrows(days, activeDayIso)
    ensures r.Some? ==> forall d :: d in r.value <==> d in days && OnDay(d, activeDayIso)
  {
    FilterOrThrow(days, DateTest(activeDayIso))
  }

  /** The days on the chosen date keep their order. */
  lemma DaysOnDateInOrder(days: seq<DayGroup>, activeDayIso: string)
    ensures DaysOnDate(days, activeDayIso).Some? ==>
      Subsequences.IsFilterOf(DaysOnDate(days, activeDayIso).value, days, d => OnDay(d, activeDayIso))
  {
    var test := DateTest(activeDayIso);
    if DaysOnDate(days, activeDayIso).Some? {
      Subsequences.SameTest(DaysOnDate(days, activeDayIso).value, days,
                            x => test(x) == Some(true), d => OnDay(d, activeDayIso));
    }
  }

  /** The `.map` of filteredDays: every day cut down to its matching rows. */
  function KeepMatchingAll(days: seq<DayGroup>, tab: string, status: Option<ItemStatus>): (r: seq<DayGroup>)
    ensures |r| == |days|
    ensures forall i :: 0 <= i < |days| ==> r[i] == KeepMatching(days[i], tab, status)
  {
    seq(|days|, i requires 0 <= i < |days| => KeepMatching(days[i], tab, status))
  }

  /** The last `.filter` of filteredDays: the days left with a row. */
  function NonEmptyDays(days: seq<DayGroup>): (r: seq<DayGroup>)
    ensures Subsequences.IsFilterOf(r, days, HasRows)
    ensures forall d :: d in r <==> d in days && d.items != []
  {
    if days == [] then []
    else
      var init := days[..|days| - 1];
      var e := days[|days| - 1];
      assert days == init + [e];
      var rest := NonEmptyDays(init);
      Subsequences.FilterStep(init, e, rest, HasRows);
      rest + (if e.items != [] then [e] else [])
  }

  /** `day.items.length > 0`. */
  predicate HasRows(day: DayGroup) {
    day.items != []
  }

  /**
   * filteredDays: the days on the chosen date, each cut down to its matching rows and
   * recounted, without the days left empty; `None` when reading a date throws.
   */
  function FilteredDays(days: seq<DayGroup>, activeDayIso: string, tab: string, status: Option<ItemStatus>): (r: Option<seq<DayGroup>>)
    ensures r.None? <==> DayFilterThrows(days, activeDayIso)
    ensures r.Some? ==> exists onDate :: (Subsequences.IsFilterOf(onDate, days, d => OnDay(d, activeDayIso)) &&
      Subsequences.IsFilterOf(r.value, KeepMatchingAll(onDate, tab, status), HasRows))
  {
    DaysOnDateInOrder(days, activeDayIso);
    match DaysOnDate(days, activeDayIso)
    case None => None
    case Some(onDate) => Some(NonEmptyDays(KeepMatchingAll(onDate, tab, status)))
  }

  /**
   * A shown day has rows, all of them matching, and counts them; it is an input day on the
   * chosen date cut down to its matching rows; and every such day with a matching row is shown.
   */
  lemma FilteredDaysShown(days: seq<DayGroup>, activeDayIso: string, tab: string, status: Option<ItemStatus>)
    requires !DayFilterThrows(days, activeDayIso)
    ensures var r := FilteredDays(days, activeDayIso, tab, status).value;
      forall d :: d in r ==>
        d.items != [] && d.total == |d.items| && forall x :: x in d.items ==> ItemMatches(x, tab, status)
    ensures var r := FilteredDays(days, activeDayIso, tab, status).value;
      forall d :: d in r ==> exists e :: e in days && OnDay(e, activeDayIso) && d == KeepMatching(e, tab, status)
    ensures var r := FilteredDays(days, activeDayIso, tab, status).value;
      forall e :: e in days && OnDay(e, activeDayIso) && FilterItems(e.items, tab, status) != [] ==>
        KeepMatching(e, tab, status) in r
  {
    var onDate := DaysOnDate(days, activeDayIso).value;
    var kept := KeepMatchingAll(onDate, tab, status);
    var r := NonEmptyDays(kept);
    assert r == FilteredDays(days, activeDayIso, tab, status).value;
    forall d | d in r
      ensures exists e :: e in days && OnDay(e, activeDayIso) && d == KeepMatching(e, tab, status)
    {
      var i :| 0 <= i < |kept| && kept[i] == d;
      assert onDate[i] in onDate;
    }
    forall e | e in days && OnDay(e, activeDayIso) && FilterItems(e.items, tab, status) != []
      ensures KeepMatching(e, tab, status) in r
    {
      var i :| 0 <= i < |onDate| && onDate[i] == e;
      assert kept[i] in kept;
    }
  }

  /** With no date, 'All Devices' and no status chosen, every (non-empty, counted) day is shown as it is. */
  lemma {:induction false} FilteredDaysWildcards(days: seq<DayGroup>)
    requires forall i :: 0 <= i < |days| ==> days[i].items != [] && days[i].total == |days[i].items|
    ensures FilteredDays(days, "", AllDevices, None) == Some(days)
  {
    AllOnEmptyDate(days);
    var kept := KeepMatchingAll(days, AllDevices, None);
    forall i | 0 <= i < |days| ensures kept[i] == days[i] {
      FilterWildcards(days[i].items);
    }
    assert kept == days;
    AllNonEmpty(days);
  }

  lemma AllOnEmptyDate(days: seq<DayGroup>)
    ensures DaysOnDate(days, "") == Some(days)
  {
    FilterKeepsAll(days, DateTest(""));
  }

  lemma {:induction false} AllNonEmpty(days: seq<DayGroup>)
    requires forall i :: 0 <= i < |days| ==> days[i].items != []
    ensures NonEmptyDays(days) == days
  {
    if days != [] {
      var init := days[..|days| - 1];
      assert days == init + [days[|days| - 1]];
      AllNonEmpty(init);
    }
  }
}
