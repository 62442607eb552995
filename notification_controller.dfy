/**
 * The notification history endpoint
 * (hydroalert-backend/src/controllers/notificationController.js): a filter built from the
 * query string, a sort order, an optional limit, and the fetched notifications grouped by
 * the day they were created, with a count per day.
 *
 * The Notification collection is an input sequence and the query runs over it. The locale
 * date text (`toLocaleDateString('id-ID', …)`) is the parameter `dateKey`.
 */
module NotificationController {
  import opened Wrappers
  import opened Models
  import Text
  import Sorting
  import Grouping
  import Subsequences

  /** The query-string parameters; `None` is a parameter that was not given. */
  datatype Query = Query(deviceID: Option<string>, severity: Option<string>,
                         sort: Option<string>, limit: Option<string>)

  /**
   * The `filter` object. `limit` is `None` when the field was not set, `Some(None)` when it was
   * set to NaN, and `Some(Some(n))` when `parseInt` read `n`.
   */
  datatype Filter = Filter(deviceID: Option<string>, severity: Option<string>,
                           limit: Option<Option<int>>)

  const Wildcard: string := "all"

  /** A query value that restricts the result: present, non-empty and not 'all'. */
  function Restriction(v: Option<string>): (r: Option<string>)
    ensures r.Some? <==> v.Some? && v.value != "" && v.value != Wildcard
    ensures r.Some? ==> r.value == v.value
  {
    if v.Some? && v.value != "" && v.value != Wildcard then v else None
  }

  /** Steps 1 of the handler: each field is set only when its parameter is truthy (and not 'all'). */
  function BuildFilter(q: Query): (f: Filter)
    ensures f.deviceID == Restriction(q.deviceID) && f.severity == Restriction(q.severity)
    ensures f.limit.Some? <==> q.limit.Some? && q.limit.value != ""
    ensures f.limit.Some? ==> f.limit.value == Text.ParseInt(q.limit.value, true)
  {
    Filter(Restriction(q.deviceID), Restriction(q.severity),
           if q.limit.Some? && q.limit.value != "" then Some(Text.ParseInt(q.limit.value, true)) else None)
  }

  /** `sort === 'oldest' ? 1 : -1`. */
  function SortDirection(sort: Option<string>): (d: int)
    ensures d == 1 <==> sort == Some("oldest")
    ensures d == 1 || d == -1
  {
    if sort == Some("oldest") then 1 else -1
  }

  /**
   * `.limit(filter.limit || null)`: NaN, 0 and an absent field mean no limit; MongoDB reads a
   * negative limit as its absolute value.
   */
  function EffectiveLimit(f: Filter): (k: Option<nat>)
    ensures k.Some? <==> f.limit.Some? && f.limit.value.Some? && f.limit.value.value != 0
    ensures k.Some? ==> k.value > 0
  {
    if f.limit.Some? && f.limit.value.Some? && f.limit.value.value != 0 then
      var n := f.limit.value.value;
      Some(if n < 0 then -n else n)
    else None
  }

  /** The stored notification satisfies the filter's deviceID and severity fields. */
  predicate Matches(n: Notification, f: Filter) {
    (f.deviceID.None? || n.deviceID == f.deviceID.value) &&
    (f.severity.None? || n.severity == f.severity.value)
  }

  /** `Notification.find(filter)`: every stored notification that matches, in storage order. */
  function MatchingNotifications(ns: seq<Notification>, f: Filter): (r: seq<Notification>)
    ensures Subsequences.IsFilterOf(r, ns, n => Matches(n, f))
    ensures forall n :: n in r ==> Matches(n, f)
    ensures forall i :: 0 <= i < |ns| && Matches(ns[i], f) ==> ns[i] in r
    ensures multiset(r) <= multiset(ns)
  {
    if ns == [] then []
    else
      var rest := MatchingNotifications(ns[1..], f);
      var matches := (n: Notification) => Matches(n, f);
      assert ns == [ns[0]] + ns[1..];
      Subsequences.FilterCons(ns[0], ns[1..], rest, matches);
      var r := (if matches(ns[0]) then [ns[0]] else []) + rest;
      Subsequences.FilterMembers(r, ns, matches);
      r
  }

  /** `.limit(k)`: the first k elements, or all of them without a limit. */
  function ApplyLimit(s: seq<Notification>, k: Option<nat>): (r: seq<Notification>)
    ensures |r| <= |s| && r == s[..|r|]
    ensures k.None? ==> r == s
    ensures k.Some? ==> |r| == if k.value < |s| then k.value else |s|
    ensures multiset(r) <= multiset(s)
  {
    if k.Some? && k.value < |s| then
      assert s == s[..k.value] + s[k.value..];
      assert multiset(s) == multiset(s[..k.value]) + multiset(s[k.value..]);
      s[..k.value]
    else s
  }

  /** The matching notifications in the requested order. */
  function SortedMatches(ns: seq<Notification>, q: Query): (r: seq<Notification>)
    ensures multiset(r) == multiset(MatchingNotifications(ns, BuildFilter(q)))
    ensures SortDirection(q.sort) == 1 ==> Sorting.SortedBy(r, OldestFirst)
    ensures SortDirection(q.sort) == -1 ==> Sorting.SortedBy(r, NewestFirst)
  {
    var matching := MatchingNotifications(ns, BuildFilter(q));
    if SortDirection(q.sort) == 1 then Sorting.SortBy(matching, OldestFirst)
    else Sorting.SortBy(matching, NewestFirst)
  }

  /**
   * Nothing in `all` that `r` leaves out comes before the last element of `r` in `key` order:
   * cutting a sorted list keeps its first elements.
   */
  ghost predicate LeavesOutOnlyLater(r: seq<Notification>, all: seq<Notification>, key: Notification -> int) {
    r != [] ==> forall n :: n in multiset(all) - multiset(r) ==> key(r[|r| - 1]) <= key(n)
  }

  /**
   * Steps 2 and 3: `Notification.find(filter).sort(sortOrder).limit(filter.limit || null)`.
   * Only stored notifications that match the filter are fetched; with a limit k, the first
   * min(k, number of matches) of them in the requested order, and otherwise all of them.
   * 'oldest' gives ascending creation times while anything else, or no value, gives
   * descending, so a limit keeps the oldest or the newest matches.
   */
  function Fetch(ns: seq<Notification>, q: Query): (r: seq<Notification>)
    ensures multiset(r) <= multiset(ns)
    ensures forall n :: n in r ==> Matches(n, BuildFilter(q))
    ensures var m := |MatchingNotifications(ns, BuildFilter(q))|;
      EffectiveLimit(BuildFilter(q)).Some? ==>
        |r| == if EffectiveLimit(BuildFilter(q)).value < m then EffectiveLimit(BuildFilter(q)).value else m
    ensures EffectiveLimit(BuildFilter(q)).None? ==>
      multiset(r) == multiset(MatchingNotifications(ns, BuildFilter(q)))
    ensures q.sort == Some("oldest") ==> forall i, j :: 0 <= i < j < |r| ==> r[i].createdAt <= r[j].createdAt
    ensures q.sort != Some("oldest") ==> forall i, j :: 0 <= i < j < |r| ==> r[i].createdAt >= r[j].createdAt
    ensures q.sort == Some("oldest") ==> LeavesOutOnlyLater(r, MatchingNotifications(ns, BuildFilter(q)), OldestFirst)
    ensures q.sort != Some("oldest") ==> LeavesOutOnlyLater(r, MatchingNotifications(ns, BuildFilter(q)), NewestFirst)
  {
    var r := ApplyLimit(SortedMatches(ns, q), EffectiveLimit(BuildFilter(q)));
    LimitedMatches(ns, q, r);
    LimitedOrder(ns, q, r);
    LimitedCount(ns, q, r);
    LimitedKeepsFirst(ns, q, r);
    r
  }

  lemma LimitedMatches(ns: seq<Notification>, q: Query, r: seq<Notification>)
    requires r == ApplyLimit(SortedMatches(ns, q), EffectiveLimit(BuildFilter(q)))
    ensures multiset(r) <= multiset(ns)
    ensures forall n :: n in r ==> Matches(n, BuildFilter(q))
  {
    var matching := MatchingNotifications(ns, BuildFilter(q));
    forall n | n in r ensures Matches(n, BuildFilter(q)) {
      assert n in multiset(r);
      assert n in multiset(matching);
    }
  }

  lemma LimitedOrder(ns: seq<Notification>, q: Query, r: seq<Notification>)
    requires r == ApplyLimit(SortedMatches(ns, q), EffectiveLimit(BuildFilter(q)))
    ensures q.sort == Some("oldest") ==> forall i, j :: 0 <= i < j < |r| ==> r[i].createdAt <= r[j].createdAt
    ensures q.sort != Some("oldest") ==> forall i, j :: 0 <= i < j < |r| ==> r[i].createdAt >= r[j].createdAt
  {
    var sorted := SortedMatches(ns, q);
    assert r == sorted[..|r|];
    if q.sort == Some("oldest") {
      Sorting.SortedPrefix(sorted, OldestFirst, |r|);
      assert Sorting.SortedBy(r, OldestFirst);
    } else {
      Sorting.SortedPrefix(sorted, NewestFirst, |r|);
      assert Sorting.SortedBy(r, NewestFirst);
    }
  }

  /** Sorting keeps the number of matches, so the limit cuts min(k, matches) of them. */
  lemma LimitedCount(ns: seq<Notification>, q: Query, r: seq<Notification>)
    requires r == ApplyLimit(SortedMatches(ns, q), EffectiveLimit(BuildFilter(q)))
    ensures var m := |MatchingNotifications(ns, BuildFilter(q))|;
      EffectiveLimit(BuildFilter(q)).Some? ==>
        |r| == if EffectiveLimit(BuildFilter(q)).value < m then EffectiveLimit(BuildFilter(q)).value else m
    ensures EffectiveLimit(BuildFilter(q)).None? ==>
      multiset(r) == multiset(MatchingNotifications(ns, BuildFilter(q)))
  {
    var matching, sorted := MatchingNotifications(ns, BuildFilter(q)), SortedMatches(ns, q);
    assert |sorted| == |multiset(sorted)| == |multiset(matching)| == |matching|;
  }

  /** What the limit leaves out comes after the last kept one in the requested order. */
  lemma LimitedKeepsFirst(ns: seq<Notification>, q: Query, r: seq<Notification>)
    requires r == ApplyLimit(SortedMatches(ns, q), EffectiveLimit(BuildFilter(q)))
    ensures q.sort == Some("oldest") ==> LeavesOutOnlyLater(r, MatchingNotifications(ns, BuildFilter(q)), OldestFirst)
    ensures q.sort != Some("oldest") ==> LeavesOutOnlyLater(r, MatchingNotifications(ns, BuildFilter(q)), NewestFirst)
  {
    var sorted, matching := SortedMatches(ns, q), MatchingNotifications(ns, BuildFilter(q));
    assert r == sorted[..|r|];
    if q.sort == Some("oldest") {
      PrefixLeavesOutOnlyLater(sorted, matching, OldestFirst, |r|);
    } else {
      PrefixLeavesOutOnlyLater(sorted, matching, NewestFirst, |r|);
    }
  }

  /** A prefix of a sorted arrangement of `all` leaves out only what sorts after it. */
  lemma PrefixLeavesOutOnlyLater(sorted: seq<Notification>, all: seq<Notification>,
                                 key: Notification -> int, k: nat)
    requires Sorting.SortedBy(sorted, key) && multiset(sorted) == multiset(all) && k <= |sorted|
    ensures LeavesOutOnlyLater(sorted[..k], all, key)
  {
    Sorting.SortedPrefix(sorted, key, k);
  }

  /** Without a limit every matching notification is fetched. */
  lemma {:induction false} NoLimitFetchesAllMatches(ns: seq<Notification>, q: Query)
    requires EffectiveLimit(BuildFilter(q)).None?
    ensures forall i :: 0 <= i < |ns| && Matches(ns[i], BuildFilter(q)) ==> ns[i] in Fetch(ns, q)
  {
    var matching := MatchingNotifications(ns, BuildFilter(q));
    forall i | 0 <= i < |ns| && Matches(ns[i], BuildFilter(q)) ensures ns[i] in Fetch(ns, q) {
      assert ns[i] in multiset(matching);
      assert ns[i] in multiset(SortedMatches(ns, q));
    }
  }

  /** 'all', the empty string and an absent parameter all leave the collection unfiltered. */
  lemma WildcardsDoNotFilter(n: Notification, q: Query)
    requires q.deviceID == None || q.deviceID == Some("") || q.deviceID == Some(Wildcard)
    requires q.severity == None || q.severity == Some("") || q.severity == Some(Wildcard)
    ensures Matches(n, BuildFilter(q))
  {
  }

  /** The grouping key: the day label of the notification's creation time. */
  function DayKey(dateKey: int -> string): Notification -> string {
    (n: Notification) => dateKey(n.createdAt)
  }

  /**
   * getNotificationHistory: fetch, then the `reduce` that opens a bucket per new day label,
   * pushes each notification into its day's bucket and adds one to that bucket's total.
   */
  method GetNotificationHistory(ns: seq<Notification>, q: Query, dateKey: int -> string)
    returns (groups: seq<Grouping.Group<string, Notification>>)
    ensures Grouping.IsGrouping(groups, Fetch(ns, q), DayKey(dateKey))
    ensures Grouping.SumTotals(groups) == |Fetch(ns, q)|
  {
    var fetched := Fetch(ns, q);
    groups := Grouping.GroupBy(fetched, DayKey(dateKey));
  }
}
