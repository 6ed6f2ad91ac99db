/** The administrator's route calendar (`src/pages/Admin.tsx`): the Monday-first
    month grid, the completion classifier, the search and completion filter,
    the index of routes by day, the month and day cursors, and the local list
    updates after a deletion. Times are integer milliseconds; the host's
    mapping from a timestamp to its local calendar day is the parameter
    `dayOf`. */
module Admin {
  import opened Wrappers
  import opened Seqs
  import opened Civil
  import Text

  // ---------- calendar helpers ----------

  /** One cell of the month grid; `inMonth` is false for the filler days. */
  datatype CalendarDay = CalendarDay(date: Date, inMonth: bool)

  /** `startOfMonth`: day 1 of the month of `d`. */
  function StartOfMonth(d: Date): (r: Date)
    requires Valid(d)
    ensures r == Date(d.year, d.month, 1)
  {
    MakeDate(d.year, d.month - 1, 1)
  }

  /** `endOfMonth`: day 0 of the following month, i.e. the month's last day. */
  function EndOfMonth(d: Date): (r: Date)
    requires Valid(d)
    ensures r == Date(d.year, d.month, DaysInMonth(d.year, d.month))
  {
    LastDayIdiom(d.year, d.month);
    MakeDate(d.year, (d.month - 1) + 1, 0)
  }

  /** `sameDay`: equal year, month and day, which is equality of calendar days. */
  function SameDay(a: Date, b: Date): (r: bool)
    ensures r <==> a == b
  {
    a.year == b.year && a.month == b.month && a.day == b.day
  }

  /** Filler cells before day 1: its weekday counted from Monday = 0. */
  function LeadingDays(y: int, m: int): (n: int)
    requires 1 <= m <= 12
    ensures 0 <= n < 7
  {
    (Weekday(Date(y, m, 1)) + 6) % 7
  }

  /** The date in cell `i` of the grid of month (y, m): the tail of the
      previous month, the month itself, then the head of the next month. */
  function GridDate(y: int, m: int, i: int): (d: Date)
    requires 1 <= m <= 12 && 0 <= i < 42
    ensures Valid(d)
  {
    var off := LeadingDays(y, m);
    var dim := DaysInMonth(y, m);
    if i < off then
      var p := PrevMonth(y, m);
      Date(p.0, p.1, DaysInMonth(p.0, p.1) - off + 1 + i)
    else if i < off + dim then
      Date(y, m, i - off + 1)
    else
      var n := NextMonth(y, m);
      Date(n.0, n.1, i - off - dim + 1)
  }

  /** The 42 cells shown for month (y, m). */
  function MonthGrid(y: int, m: int): (g: seq<CalendarDay>)
    requires 1 <= m <= 12
    ensures |g| == 42
  {
    seq(42, i requires 0 <= i < 42 =>
      CalendarDay(GridDate(y, m, i), LeadingDays(y, m) <= i < LeadingDays(y, m) + DaysInMonth(y, m)))
  }

  /** `getMonthGrid`: leading filler days counted back from day 1, the days
      of the month, then filler days after the last cell until there are 42. */
  method GetMonthGrid(current: Date) returns (grid: seq<CalendarDay>)
    requires Valid(current)
    ensures grid == MonthGrid(current.year, current.month)
  {
    ghost var y, m := current.year, current.month;
    var first := StartOfMonth(current);
    var last := EndOfMonth(current);
    var startWeekday := (Weekday(first) + 6) % 7;
    var daysInMonth := last.day;
    assert startWeekday == LeadingDays(y, m) && daysInMonth == DaysInMonth(y, m);
    grid := [];
    var i := 0;
    while i < startWeekday
      invariant 0 <= i <= startWeekday
      invariant |grid| == i && grid == MonthGrid(y, m)[..i]
    {
      LeadingStep(y, m, grid);
      var d := SetDate(first, first.day - (startWeekday - i));
      grid := grid + [CalendarDay(d, false)];
      i := i + 1;
    }
    i := 1;
    while i <= daysInMonth
      invariant 1 <= i <= daysInMonth + 1
      invariant |grid| == startWeekday + i - 1 && grid == MonthGrid(y, m)[..|grid|]
    {
      MonthStep(y, m, grid, i);
      var d := MakeDate(current.year, current.month - 1, i);
      grid := grid + [CalendarDay(d, true)];
      i := i + 1;
    }
    while |grid| < 42
      invariant startWeekday + daysInMonth <= |grid| <= 42
      invariant grid == MonthGrid(y, m)[..|grid|]
      decreases 42 - |grid|
    {
      TrailingStep(y, m, grid);
      var lastDate := grid[|grid| - 1].date;
      var d := SetDate(lastDate, lastDate.day + 1);
      grid := grid + [CalendarDay(d, false)];
    }
    assert grid == MonthGrid(y, m)[..42];
  }

  /** A leading filler cell holds day 1 of the month moved back by its
      distance from the first in-month cell. */
  lemma LeadingStep(y: int, m: int, grid: seq<CalendarDay>)
    requires 1 <= m <= 12 && |grid| < LeadingDays(y, m) && grid == MonthGrid(y, m)[..|grid|]
    ensures grid + [CalendarDay(SetDate(Date(y, m, 1), 1 - (LeadingDays(y, m) - |grid|)), false)]
         == MonthGrid(y, m)[..|grid| + 1]
  {
    RollBack(y, m, LeadingDays(y, m) - |grid|);
  }

  /** Day `k` of the month, built as `new Date(year, month, k)`, sits in cell
      `LeadingDays + k - 1`. */
  lemma MonthStep(y: int, m: int, grid: seq<CalendarDay>, k: int)
    requires 1 <= m <= 12 && 1 <= k <= DaysInMonth(y, m)
    requires |grid| == LeadingDays(y, m) + k - 1 && grid == MonthGrid(y, m)[..|grid|]
    ensures grid + [CalendarDay(MakeDate(y, m - 1, k), true)] == MonthGrid(y, m)[..|grid| + 1]
  {
    assert (m - 1) / 12 == 0 && (m - 1) % 12 == m - 1;
  }

  /** A trailing filler cell holds the day after the previous cell's day. */
  lemma TrailingStep(y: int, m: int, grid: seq<CalendarDay>)
    requires 1 <= m <= 12 && LeadingDays(y, m) + DaysInMonth(y, m) <= |grid| < 42
    requires grid == MonthGrid(y, m)[..|grid|]
    ensures Valid(grid[|grid| - 1].date)
    ensures grid + [CalendarDay(SetDate(grid[|grid| - 1].date, grid[|grid| - 1].date.day + 1), false)]
         == MonthGrid(y, m)[..|grid| + 1]
  {
    var i := |grid| - 1;
    GridStep(y, m, i);
    SetDateNext(GridDate(y, m, i));
  }

  /** Each cell holds the day after the previous cell's day. */
  lemma GridStep(y: int, m: int, i: int)
    requires 1 <= m <= 12 && 0 <= i < 41
    ensures GridDate(y, m, i + 1) == NextDay(GridDate(y, m, i))
  {
  }

  /** Day counts run consecutively through the grid, from `LeadingDays`
      days before the first of the month. */
  lemma GridEpochDay(y: int, m: int, i: int)
    requires 1 <= m <= 12 && 0 <= i < 42
    ensures EpochDay(GridDate(y, m, i)) == EpochDay(Date(y, m, 1)) - LeadingDays(y, m) + i
  {
    var off := LeadingDays(y, m);
    var dim := DaysInMonth(y, m);
    if i < off {
      var p := PrevMonth(y, m);
      var lastPrev := Date(p.0, p.1, DaysInMonth(p.0, p.1));
      EpochDayNext(lastPrev);
      assert NextDay(lastPrev) == Date(y, m, 1);
    } else if i >= off + dim {
      var lastDay := Date(y, m, dim);
      EpochDayNext(lastDay);
    }
  }

  lemma ModShift(k: int, x: int)
    ensures (7 * k + x) % 7 == x % 7
  {
  }

  /** Column `i % 7` of the grid is the weekday Monday..Sunday: the weekday of
      cell i is `(i + 1) % 7` in `getDay` numbering. In particular the first
      cell is always a Monday. */
  lemma GridWeekday(y: int, m: int, i: int)
    requires 1 <= m <= 12 && 0 <= i < 42
    ensures Weekday(GridDate(y, m, i)) == (i + 1) % 7
  {
    GridEpochDay(y, m, i);
    WeekdayFromMonday(EpochDay(Date(y, m, 1)), i);
  }

  /** The arithmetic behind `GridWeekday`: counting back from a day of weekday
      `(e + 4) % 7` by its distance from Monday lands on a Monday. */
  lemma WeekdayFromMonday(e: int, i: int)
    ensures (e - ((e + 4) % 7 + 6) % 7 + i + 4) % 7 == (i + 1) % 7
  {
    var a := e + 4;
    var w := a % 7;
    var off := (w + 6) % 7;
    assert a == 7 * (a / 7) + w;
    if w == 0 {
      assert off == 6;
      assert a - off + i == 7 * (a / 7 - 1) + (1 + i);
      ModShift(a / 7 - 1, 1 + i);
    } else {
      assert off == w - 1;
      assert a - off + i == 7 * (a / 7) + (1 + i);
      ModShift(a / 7, 1 + i);
    }
  }

  /** The in-month cells are exactly the cells whose date lies in the month,
      and the month's day k sits at index `LeadingDays + k - 1`. */
  lemma GridMonthRun(y: int, m: int)
    requires 1 <= m <= 12
    ensures forall i :: 0 <= i < 42 ==>
      (MonthGrid(y, m)[i].inMonth <==> GridDate(y, m, i).year == y && GridDate(y, m, i).month == m)
    ensures forall k :: 1 <= k <= DaysInMonth(y, m) ==>
      MonthGrid(y, m)[LeadingDays(y, m) + k - 1] == CalendarDay(Date(y, m, k), true)
    ensures MonthGrid(y, m)[0].inMonth == (LeadingDays(y, m) == 0)
    ensures !MonthGrid(y, m)[41].inMonth
  {
    forall i | 0 <= i < 42
      ensures MonthGrid(y, m)[i].inMonth <==> GridDate(y, m, i).year == y && GridDate(y, m, i).month == m
    {
      var d := GridDate(y, m, i);
      if !MonthGrid(y, m)[i].inMonth {
        assert MonthNumber(d.year, d.month) != MonthNumber(y, m);
      }
    }
  }

  /** March 2024 starts on a Friday: the grid runs from Monday 26 February to
      Sunday 7 April, with 1 March in cell 4. */
  lemma March2024Grid()
    ensures Weekday(Date(2024, 3, 1)) == 5
    ensures MonthGrid(2024, 3)[0] == CalendarDay(Date(2024, 2, 26), false)
    ensures MonthGrid(2024, 3)[4] == CalendarDay(Date(2024, 3, 1), true)
    ensures MonthGrid(2024, 3)[41] == CalendarDay(Date(2024, 4, 7), false)
  {
    assert EpochDay(Date(2024, 3, 1)) == 19783;
    assert LeadingDays(2024, 3) == 4;
  }

  // ---------- routes and their completion ----------

  /** A route as the calendar uses it. `status` is `None` when the field is
      absent or not a string; `completedAt` is `None` when absent. */
  datatype Route = Route(
    id: int, code: string, driver: string, vehicle: string,
    start: int, status: Option<string>, completedAt: Option<string>)

  /** Two hours, in milliseconds. */
  const GraceMs: int := 2 * 60 * 60 * 1000

  /** JavaScript truthiness of an optional string. */
  predicate Truthy(s: Option<string>) {
    s.Some? && |s.value| > 0
  }

  /** `isRouteCompleted` at time `now` (the `Date.now()` of the call): a
      non-empty status decides alone, otherwise a completion mark, otherwise
      a start more than two hours ago. */
  predicate IsRouteCompleted(r: Route, now: int): (c: bool)
    ensures Truthy(r.status) ==> (c <==> Text.Upper(r.status.value) == "COMPLETED")
    ensures !Truthy(r.status) && Truthy(r.completedAt) ==> c
    ensures !Truthy(r.status) && !Truthy(r.completedAt) ==> (c <==> now - r.start > GraceMs)
  {
    if Truthy(r.status) then Text.Upper(r.status.value) == "COMPLETED"
    else if Truthy(r.completedAt) then true
    else r.start < now - GraceMs
  }

  /** A non-empty status decides alone: start time, completion mark and the
      clock do not matter. */
  lemma StatusDecidesAlone(r1: Route, r2: Route, now1: int, now2: int)
    requires Truthy(r1.status) && r1.status == r2.status
    ensures IsRouteCompleted(r1, now1) == IsRouteCompleted(r2, now2)
  {
  }

  /** The status comparison ignores letter case. */
  lemma StatusCaseInsensitive(r: Route, now: int)
    requires Truthy(r.status)
    ensures IsRouteCompleted(r.(status := Some(Text.Lower(r.status.value))), now) == IsRouteCompleted(r, now)
  {
    Text.UpperOfLower(r.status.value);
  }

  /** Without status, any non-empty completion mark means completed. */
  lemma CompletedAtDecides(r: Route, now: int)
    requires !Truthy(r.status) && Truthy(r.completedAt)
    ensures IsRouteCompleted(r, now)
  {
  }

  /** The time rule: not completed at exactly two hours, completed one
      millisecond later, and it stays completed as time goes on. */
  lemma TimeRule(r: Route, now1: int, now2: int)
    requires !Truthy(r.status) && !Truthy(r.completedAt)
    ensures !IsRouteCompleted(r, r.start + GraceMs)
    ensures IsRouteCompleted(r, r.start + GraceMs + 1)
    ensures now1 <= now2 && IsRouteCompleted(r, now1) ==> IsRouteCompleted(r, now2)
  {
  }

  /** A route starting 2024-03-15T10:00:00Z with neither status nor completion
      mark, looked at 2024-03-15T13:00:00Z, is completed. */
  lemma ThreeHoursLater(r: Route)
    requires r.start == 1710496800000 && r.status == None && r.completedAt == None
    ensures IsRouteCompleted(r, 1710507600000)
  {
  }

  // ---------- search and completion filter ----------

  /** The text searched: code, driver and vehicle joined by spaces, lower-cased. */
  function SearchText(r: Route): (t: string)
    ensures |t| == |r.code| + |r.driver| + |r.vehicle| + 2
    ensures t[|r.code|] == ' ' && t[|r.code| + 1 + |r.driver|] == ' '
  {
    Text.Lower(r.code + " " + r.driver + " " + r.vehicle)
  }

  predicate MatchesSearch(r: Route, search: string): (m: bool)
    ensures search == [] ==> m
  {
    Text.Contains(SearchText(r), Text.Lower(search))
  }

  /** The routes whose text matches the search, in order. */
  function ByText(routes: seq<Route>, search: string): (b: seq<Route>)
    ensures forall i :: 0 <= i < |b| ==> b[i] in routes && MatchesSearch(b[i], search)
    ensures forall i :: 0 <= i < |routes| && MatchesSearch(routes[i], search) ==> routes[i] in b
  {
    Filter(routes, (r: Route) => MatchesSearch(r, search))
  }

  /** `filtered`: text match AND completion verdict equal to the toggle. */
  function Filtered(routes: seq<Route>, search: string, showCompleted: bool, now: int): (f: seq<Route>)
    ensures forall i :: 0 <= i < |f| ==>
      f[i] in routes && MatchesSearch(f[i], search) && IsRouteCompleted(f[i], now) == showCompleted
    ensures forall i :: 0 <= i < |routes| ==>
      (MatchesSearch(routes[i], search) && IsRouteCompleted(routes[i], now) == showCompleted ==> routes[i] in f)
  {
    var byText := ByText(routes, search);
    assert forall i :: 0 <= i < |routes| && MatchesSearch(routes[i], search) ==> routes[i] in byText;
    Filter(byText, (r: Route) => IsRouteCompleted(r, now) == showCompleted)
  }

  /** The filter keeps the routes in their original order. */
  lemma FilteredKeepsOrder(routes: seq<Route>, search: string, showCompleted: bool, now: int)
    ensures IsSubsequence(Filtered(routes, search, showCompleted, now), routes)
  {
    var byText := ByText(routes, search);
    FilterIsSubsequence(routes, (r: Route) => MatchesSearch(r, search));
    FilterIsSubsequence(byText, (r: Route) => IsRouteCompleted(r, now) == showCompleted);
    SubsequenceTrans(Filtered(routes, search, showCompleted, now), byText, routes);
  }

  lemma {:induction false} SubsequenceTrans(a: seq<Route>, b: seq<Route>, c: seq<Route>)
    requires IsSubsequence(a, b) && IsSubsequence(b, c)
    ensures IsSubsequence(a, c)
    decreases |c|
  {
    if a != [] && c != [] {
      if b[0] == c[0] && IsSubsequence(b[1..], c[1..]) {
        if a[0] == b[0] && IsSubsequence(a[1..], b[1..]) {
          SubsequenceTrans(a[1..], b[1..], c[1..]);
        } else {
          SubsequenceTrans(a, b[1..], c[1..]);
        }
      } else {
        SubsequenceTrans(a, b, c[1..]);
      }
    }
  }

  /** An empty search matches every route. */
  lemma EmptySearchMatchesAll(routes: seq<Route>)
    ensures ByText(routes, "") == routes
  {
    FilterAll(routes, (r: Route) => MatchesSearch(r, ""));
  }

  /** A query found, ignoring case, inside the code, the driver or the vehicle
      matches the route. */
  lemma FieldQueryMatches(r: Route, q: string)
    requires Text.Contains(Text.Lower(r.code), Text.Lower(q))
          || Text.Contains(Text.Lower(r.driver), Text.Lower(q))
          || Text.Contains(Text.Lower(r.vehicle), Text.Lower(q))
    ensures MatchesSearch(r, q)
  {
    var c, dr, v := Text.Lower(r.code), Text.Lower(r.driver), Text.Lower(r.vehicle);
    SearchTextParts(r);
    ThreeParts(c, dr, v);
    var n := Text.Lower(q);
    if Text.Contains(c, n) {
      ContainsWithin([], c, " " + dr + " " + v, n);
    } else if Text.Contains(dr, n) {
      ContainsWithin(c + " ", dr, " " + v, n);
    } else {
      ContainsWithin(c + " " + dr + " ", v, [], n);
    }
  }

  /** The three ways of cutting the searched text around one of its fields. */
  lemma ThreeParts(c: string, dr: string, v: string)
    ensures c + " " + dr + " " + v == [] + c + (" " + dr + " " + v)
    ensures c + " " + dr + " " + v == (c + " ") + dr + (" " + v)
    ensures c + " " + dr + " " + v == (c + " " + dr + " ") + v + []
  {
  }

  lemma SearchTextParts(r: Route)
    ensures SearchText(r) == Text.Lower(r.code) + " " + Text.Lower(r.driver) + " " + Text.Lower(r.vehicle)
  {
    Text.LowerAppend(r.code + " " + r.driver + " ", r.vehicle);
    Text.LowerAppend(r.code + " " + r.driver, " ");
    Text.LowerAppend(r.code + " ", r.driver);
    Text.LowerAppend(r.code, " ");
    assert Text.Lower(" ") == " ";
  }

  /** A string found in `b` is found in any text that has `b` inside it. */
  lemma {:induction false} ContainsWithin(a: string, b: string, c: string, n: string)
    requires Text.Contains(b, n)
    ensures Text.Contains(a + b + c, n)
    decreases |a| + |b|
  {
    if a != [] {
      assert (a + b + c)[1..] == a[1..] + b + c;
      ContainsWithin(a[1..], b, c, n);
    } else if n <= b {
      assert n <= a + b + c;
    } else {
      assert (a + b + c)[1..] == [] + b[1..] + c;
      ContainsWithin([], b[1..], c, n);
    }
  }

  /** Flipping the completion toggle swaps the two halves of the text-matched
      routes: together they hold every text-matched route exactly once. */
  lemma TogglePartitions(routes: seq<Route>, search: string, now: int)
    ensures |Filtered(routes, search, true, now)| + |Filtered(routes, search, false, now)| == |ByText(routes, search)|
    ensures multiset(Filtered(routes, search, true, now)) + multiset(Filtered(routes, search, false, now))
         == multiset(ByText(routes, search))
  {
    FilterPartition(ByText(routes, search),
      (r: Route) => IsRouteCompleted(r, now) == true,
      (r: Route) => IsRouteCompleted(r, now) == false);
  }

  // ---------- routes by day ----------

  /** The routes of `s` whose start falls on day `d`, in order. */
  function Bucket(s: seq<Route>, dayOf: int -> Date, d: Date): seq<Route> {
    Filter(s, (r: Route) => dayOf(r.start) == d)
  }

  ghost function DaysOf(s: seq<Route>, dayOf: int -> Date): set<Date> {
    set r | r in s :: dayOf(r.start)
  }

  /** `index` maps exactly the days on which some route of `s` starts, each to
      that day's routes in order. */
  ghost predicate IsDayIndex(index: map<Date, seq<Route>>, s: seq<Route>, dayOf: int -> Date) {
    && index.Keys == DaysOf(s, dayOf)
    && forall d :: d in index ==> index[d] == Bucket(s, dayOf, d)
  }

  lemma BucketSnoc(s: seq<Route>, x: Route, dayOf: int -> Date, d: Date)
    ensures Bucket(s + [x], dayOf, d) == Bucket(s, dayOf, d) + (if dayOf(x.start) == d then [x] else [])
  {
    FilterSnoc(s, x, (r: Route) => dayOf(r.start) == d);
  }

  /** `routesByDay`: one pass over the filtered routes, appending each to the
      list of its start day and creating the list on first use. */
  method RoutesByDay(filtered: seq<Route>, dayOf: int -> Date) returns (index: map<Date, seq<Route>>)
    ensures IsDayIndex(index, filtered, dayOf)
  {
    index := map[];
    for k := 0 to |filtered|
      invariant IsDayIndex(index, filtered[..k], dayOf)
    {
      var r := filtered[k];
      var dayKey := dayOf(r.start);
      DayIndexSnoc(index, filtered, k, dayOf);
      if dayKey !in index {
        index := index[dayKey := []];
      }
      index := index[dayKey := index[dayKey] + [r]];
    }
    assert filtered[..|filtered|] == filtered;
  }

  /** Appending a route to the list of its start day, creating the list when
      the day is new, keeps the index exact. */
  lemma DayIndexSnoc(index: map<Date, seq<Route>>, s: seq<Route>, k: int, dayOf: int -> Date)
    requires 0 <= k < |s| && IsDayIndex(index, s[..k], dayOf)
    ensures var key := dayOf(s[k].start);
      var created := if key in index then index else index[key := []];
      IsDayIndex(created[key := created[key] + [s[k]]], s[..k + 1], dayOf)
  {
    var r, key := s[k], dayOf(s[k].start);
    var prefix := s[..k];
    assert s[..k + 1] == prefix + [r];
    if key !in index {
      assert key !in DaysOf(prefix, dayOf);
      FilterNone(prefix, (x: Route) => dayOf(x.start) == key);
    }
    var created := if key in index then index else index[key := []];
    var next := created[key := created[key] + [r]];
    assert DaysOf(prefix + [r], dayOf) == DaysOf(prefix, dayOf) + {key};
    forall d | d in next
      ensures next[d] == Bucket(prefix + [r], dayOf, d)
    {
      BucketSnoc(prefix, r, dayOf, d);
    }
  }

  /** `dayRoutes`: the selected day's list, or none. */
  function DayRoutes(index: map<Date, seq<Route>>, selected: Date): (r: seq<Route>)
    ensures selected in index ==> r == index[selected]
    ensures selected !in index ==> r == []
  {
    if selected in index then index[selected] else []
  }

  /** The routes listed for the selected day are exactly the filtered routes
      starting that day, in filtered order. */
  lemma DayRoutesIsBucket(index: map<Date, seq<Route>>, s: seq<Route>, dayOf: int -> Date, selected: Date)
    requires IsDayIndex(index, s, dayOf)
    ensures DayRoutes(index, selected) == Bucket(s, dayOf, selected)
  {
    if selected !in index {
      FilterNone(s, (r: Route) => dayOf(r.start) == selected);
    }
  }

  /** Each route lies in the bucket of its own start day and in no other. */
  lemma OneBucketPerRoute(s: seq<Route>, dayOf: int -> Date, r: Route, d: Date)
    requires r in s
    ensures r in Bucket(s, dayOf, dayOf(r.start))
    ensures d != dayOf(r.start) ==> r !in Bucket(s, dayOf, d)
  {
    var i :| 0 <= i < |s| && s[i] == r;
  }

  /** The distinct start days of `s`, in order of first appearance (the
      insertion order of the JavaScript map). */
  function DayKeys(s: seq<Route>, dayOf: int -> Date): (ks: seq<Date>)
  {
    if s == [] then []
    else
      var ks := DayKeys(s[..|s| - 1], dayOf);
      var d := dayOf(s[|s| - 1].start);
      if d in ks then ks else ks + [d]
  }

  /** Total size of the buckets of the days `ks`. */
  function BucketSizes(ks: seq<Date>, s: seq<Route>, dayOf: int -> Date): nat {
    if ks == [] then 0 else BucketSizes(ks[..|ks| - 1], s, dayOf) + |Bucket(s, dayOf, ks[|ks| - 1])|
  }

  ghost predicate Distinct(ks: seq<Date>) {
    forall i, j :: 0 <= i < j < |ks| ==> ks[i] != ks[j]
  }

  lemma {:induction false} DayKeysAreDays(s: seq<Route>, dayOf: int -> Date)
    ensures Distinct(DayKeys(s, dayOf))
    ensures forall d :: d in DayKeys(s, dayOf) <==> d in DaysOf(s, dayOf)
  {
    if s != [] {
      var t := s[..|s| - 1];
      var x := s[|s| - 1];
      DayKeysAreDays(t, dayOf);
      assert s == t + [x];
      forall d ensures d in DaysOf(s, dayOf) <==> d in DaysOf(t, dayOf) || d == dayOf(x.start) {
        if d in DaysOf(s, dayOf) {
          var r :| r in s && dayOf(r.start) == d;
          assert r in t || r == x;
        }
      }
    }
  }

  lemma {:induction false} BucketSizesSnoc(ks: seq<Date>, s: seq<Route>, x: Route, dayOf: int -> Date)
    requires Distinct(ks)
    ensures BucketSizes(ks, s + [x], dayOf) == BucketSizes(ks, s, dayOf) + (if dayOf(x.start) in ks then 1 else 0)
  {
    if ks != [] {
      var init := ks[..|ks| - 1];
      var k := ks[|ks| - 1];
      assert Distinct(init);
      assert k !in init;
      BucketSizesSnoc(init, s, x, dayOf);
      BucketSnoc(s, x, dayOf, k);
      assert dayOf(x.start) in ks <==> dayOf(x.start) in init || dayOf(x.start) == k;
    }
  }

  /** No route is lost or counted twice: the buckets of all days add up to
      the number of filtered routes. */
  lemma {:induction false} BucketsAddUp(s: seq<Route>, dayOf: int -> Date)
    ensures BucketSizes(DayKeys(s, dayOf), s, dayOf) == |s|
  {
    if s != [] {
      var t := s[..|s| - 1];
      var x := s[|s| - 1];
      var dx := dayOf(x.start);
      var ks := DayKeys(t, dayOf);
      assert s == t + [x];
      BucketsAddUp(t, dayOf);
      DayKeysAreDays(t, dayOf);
      BucketSizesSnoc(ks, t, x, dayOf);
      if dx !in ks {
        assert dx !in DaysOf(t, dayOf);
        FilterNone(t, (r: Route) => dayOf(r.start) == dx);
        BucketSnoc(t, x, dayOf, dx);
        assert (ks + [dx])[..|ks|] == ks;
      }
    }
  }

  // ---------- day-cell counts ----------

  /** `completedCount` of a cell. */
  function CompletedCount(dayList: seq<Route>, now: int): (n: nat)
    ensures n <= |dayList|
  {
    |Filter(dayList, (r: Route) => IsRouteCompleted(r, now))|
  }

  /** `pendingCount` of a cell: the rest of the list. */
  function PendingCount(dayList: seq<Route>, now: int): (n: int)
    ensures 0 <= n <= |dayList|
    ensures n == 0 <==> CompletedCount(dayList, now) == |dayList|
  {
    |dayList| - CompletedCount(dayList, now)
  }

  /** The pending count is the number of routes not completed, so the two
      counts split the day's list. */
  lemma PendingCountsPending(dayList: seq<Route>, now: int)
    ensures PendingCount(dayList, now) == |Filter(dayList, (r: Route) => !IsRouteCompleted(r, now))|
  {
    FilterPartition(dayList, (r: Route) => IsRouteCompleted(r, now), (r: Route) => !IsRouteCompleted(r, now));
  }

  /** Evaluated at the same instant as the filter, every cell of the calendar
      is all completed (toggle on) or all pending (toggle off). */
  lemma CellCountsFollowToggle(routes: seq<Route>, search: string, showCompleted: bool, now: int,
                               dayOf: int -> Date, d: Date)
    ensures CompletedCount(Bucket(Filtered(routes, search, showCompleted, now), dayOf, d), now)
         == (if showCompleted then |Bucket(Filtered(routes, search, showCompleted, now), dayOf, d)| else 0)
  {
    var f := Filtered(routes, search, showCompleted, now);
    var b := Bucket(f, dayOf, d);
    assert forall i :: 0 <= i < |b| ==> b[i] in f;
    if showCompleted {
      FilterAll(b, (r: Route) => IsRouteCompleted(r, now));
    } else {
      FilterNone(b, (r: Route) => IsRouteCompleted(r, now));
    }
  }

  // ---------- month cursor ----------

  /** As written: the arrow buttons copy the cursor and call
      `setMonth(getMonth() ± 1)`, keeping the day of the month and letting
      JavaScript roll an overflowing day into the following month. */
  function ShiftMonthAsWritten(d: Date, delta: int): (r: Date)
    ensures Valid(r)
  {
    SetMonth(d, d.month - 1 + delta)
  }

  /** From 31 March, "previous month" stays in March (31 February rolls to
      2 March); from 31 January 2024, "next month" skips February. */
  lemma ShiftMonthAsWrittenSkips()
    ensures ShiftMonthAsWritten(Date(2024, 3, 31), -1) == Date(2024, 3, 2)
    ensures ShiftMonthAsWritten(Date(2024, 1, 31), 1) == Date(2024, 3, 2)
  {
    assert Roll(2024, 2, 31) == Roll(2024, 3, 2);
  }

  /** The cursor moved by `delta` months: the day of the month is kept when
      the target month has it and clamped to its last day otherwise. */
  function ShiftMonth(d: Date, delta: int): (r: Date)
    requires Valid(d)
    ensures Valid(r)
    ensures MonthNumber(r.year, r.month) == MonthNumber(d.year, d.month) + delta
    ensures r.day == (if d.day <= DaysInMonth(r.year, r.month) then d.day else DaysInMonth(r.year, r.month))
  {
    var mi := d.month - 1 + delta;
    var y := d.year + mi / 12;
    var m := mi % 12 + 1;
    Date(y, m, if d.day <= DaysInMonth(y, m) then d.day else DaysInMonth(y, m))
  }

  /** Where the day exists in the target month, the written code and the
      clamped shift agree. */
  lemma ShiftMonthAgrees(d: Date, delta: int)
    requires Valid(d)
    requires d.day <= DaysInMonth(ShiftMonth(d, delta).year, ShiftMonth(d, delta).month)
    ensures ShiftMonthAsWritten(d, delta) == ShiftMonth(d, delta)
  {
  }

  // ---------- the view state ----------

  datatype FileKind = Invoice | Receipt | Other

  datatype RouteFile = RouteFile(id: int, routeId: int, kind: FileKind, originalName: string, url: string)

  /** The routes left after deleting `routeId`. */
  function RemoveRoute(routes: seq<Route>, routeId: int): (r: seq<Route>)
    ensures forall i :: 0 <= i < |r| ==> r[i] in routes && r[i].id != routeId
    ensures forall i :: 0 <= i < |routes| && routes[i].id != routeId ==> routes[i] in r
  {
    Filter(routes, (x: Route) => x.id != routeId)
  }

  /** The files left after deleting `fileId`. */
  function RemoveFile(files: seq<RouteFile>, fileId: int): (r: seq<RouteFile>)
    ensures forall i :: 0 <= i < |r| ==> r[i] in files && r[i].id != fileId
    ensures forall i :: 0 <= i < |files| && files[i].id != fileId ==> files[i] in r
  {
    Filter(files, (f: RouteFile) => f.id != fileId)
  }

  /** Deleting keeps the other routes in order and drops exactly the routes
      carrying the id. */
  lemma RemoveRouteExact(routes: seq<Route>, routeId: int)
    ensures IsSubsequence(RemoveRoute(routes, routeId), routes)
    ensures |RemoveRoute(routes, routeId)| + |Filter(routes, (x: Route) => x.id == routeId)| == |routes|
  {
    FilterIsSubsequence(routes, (x: Route) => x.id != routeId);
    FilterPartition(routes, (x: Route) => x.id != routeId, (x: Route) => x.id == routeId);
  }

  /** Deleting a file keeps the other files in order and drops exactly the
      files carrying the id. */
  lemma RemoveFileExact(files: seq<RouteFile>, fileId: int)
    ensures IsSubsequence(RemoveFile(files, fileId), files)
    ensures |RemoveFile(files, fileId)| + |Filter(files, (f: RouteFile) => f.id == fileId)| == |files|
  {
    FilterIsSubsequence(files, (f: RouteFile) => f.id != fileId);
    FilterPartition(files, (f: RouteFile) => f.id != fileId, (f: RouteFile) => f.id == fileId);
  }

  /** The calendar page's state: the route cache, the search text, the
      completion toggle, the two cursors, the route shown in detail and its
      files. */
  class AdminView {
    var search: string
    var routes: seq<Route>
    var showCompleted: bool
    var monthCursor: Date
    var selectedDate: Date
    var detailRoute: Option<Route>
    var files: seq<RouteFile>

    ghost predicate CursorsValid()
      reads this
    {
      Valid(monthCursor) && Valid(selectedDate)
    }

    /** Both cursors start at today's date. */
    constructor (today: Date)
      requires Valid(today)
      ensures CursorsValid()
      ensures search == "" && routes == [] && !showCompleted
      ensures monthCursor == today && selectedDate == today
      ensures detailRoute == None && files == []
    {
      search := "";
      routes := [];
      showCompleted := false;
      monthCursor := today;
      selectedDate := today;
      detailRoute := None;
      files := [];
    }

    /** A fetched route list replaces the cache wholesale. */
    method LoadRoutes(data: seq<Route>)
      modifies this
      ensures routes == data
      ensures search == old(search) && showCompleted == old(showCompleted)
      ensures monthCursor == old(monthCursor) && selectedDate == old(selectedDate)
      ensures detailRoute == old(detailRoute) && files == old(files)
    {
      routes := data;
    }

    method SetSearch(text: string)
      modifies this`search
      ensures search == text
    {
      search := text;
    }

    /** The "Ver realizadas" button. */
    method ToggleShowCompleted()
      modifies this`showCompleted
      ensures showCompleted == !old(showCompleted)
    {
      showCompleted := !showCompleted;
    }

    /** The left arrow: one month back, the selected day untouched. */
    method GoPrevMonth()
      requires CursorsValid()
      modifies this`monthCursor
      ensures CursorsValid()
      ensures monthCursor == ShiftMonth(old(monthCursor), -1)
    {
      monthCursor := ShiftMonth(monthCursor, -1);
    }

    /** The right arrow: one month forward, the selected day untouched. */
    method GoNextMonth()
      requires CursorsValid()
      modifies this`monthCursor
      ensures CursorsValid()
      ensures monthCursor == ShiftMonth(old(monthCursor), 1)
    {
      monthCursor := ShiftMonth(monthCursor, 1);
    }

    /** "Hoy": both cursors jump to today. */
    method GoToday(today: Date)
      requires Valid(today)
      modifies this`monthCursor, this`selectedDate
      ensures CursorsValid()
      ensures monthCursor == today && selectedDate == today
    {
      monthCursor := today;
      selectedDate := today;
    }

    /** Clicking a cell selects its day, filler cells included; the visible
      month does not move. */
    method SelectDay(cell: CalendarDay)
      requires CursorsValid() && Valid(cell.date)
      modifies this`selectedDate
      ensures CursorsValid()
      ensures selectedDate == cell.date
    {
      selectedDate := cell.date;
    }

    method OpenDetail(route: Route)
      modifies this`detailRoute
      ensures detailRoute == Some(route)
    {
      detailRoute := Some(route);
    }

    /** "← Volver". */
    method CloseDetail()
      modifies this`detailRoute
      ensures detailRoute == None
    {
      detailRoute := None;
    }

    /** `deleteRoute`: nothing happens unless the user confirms and the
      server accepts; then the route leaves the cache and the detail view
      closes. */
    method DeleteRoute(routeId: int, confirmed: bool, serverOk: bool)
      modifies this`routes, this`detailRoute
      ensures confirmed && serverOk ==> routes == RemoveRoute(old(routes), routeId) && detailRoute == None
      ensures !(confirmed && serverOk) ==> routes == old(routes) && detailRoute == old(detailRoute)
    {
      if !confirmed {
        return;
      }
      if serverOk {
        routes := RemoveRoute(routes, routeId);
        detailRoute := None;
      }
    }

    /** `deleteFile`: on confirmation and server success the file leaves the
      local list. */
    method DeleteFile(fileId: int, confirmed: bool, serverOk: bool)
      modifies this`files
      ensures confirmed && serverOk ==> files == RemoveFile(old(files), fileId)
      ensures !(confirmed && serverOk) ==> files == old(files)
    {
      if !confirmed {
        return;
      }
      if serverOk {
        files := RemoveFile(files, fileId);
      }
    }
  }
}
