/**
 * The two pieces of `RoomViewSet` that carry logic of their own: the
 * Monday-to-Sunday window of `weekly_usage`, and the home-membership filter
 * of `get_queryset`.
 */
module RoomViews {
  import opened Results
  import opened Calendar
  import opened Logs
  import opened Tables
  import opened LogStore
  import opened PyInt

  /** The week a date falls in, counted from the week of 0001-01-01, a Monday. */
  function WeekNumber(d: Date): int
    requires Valid(d)
  {
    (Ordinal(d) - 1) / 7
  }

  /** The response of `weekly_usage`. */
  datatype WeekReport = WeekReport(startOfWeek: Date, endOfWeek: Date, usage: real)

  /** Every date column of a daily table holds a date Python can represent. */
  predicate ValidDates<V>(t: seq<Row<DayKey, V>>) {
    forall i :: 0 <= i < |t| ==> Valid(t[i].key.date)
  }

  /** Reference filter: the room's daily rows dated in week `week`, in table order. */
  function RowsInWeek(t: seq<Row<DayKey, real>>, room: RoomId, week: int): seq<Row<DayKey, real>>
    requires ValidDates(t)
  {
    if |t| == 0 then []
    else
      (if t[0].key.entity == room && WeekNumber(t[0].key.date) == week then [t[0]] else [])
      + RowsInWeek(t[1..], room, week)
  }

  /**
   * `weekly_usage` for `room` on `today`: `start = today - weekday` never
   * leaves the calendar, but `start + 6 days` overflows in the last days of
   * year 9999, where Python raises `OverflowError`.
   */
  function WeeklyUsage(daily: seq<Row<DayKey, real>>, room: RoomId, today: Date): (r: Result<WeekReport>)
    requires Valid(today)
    ensures r.Err? <==> Ordinal(today) - Weekday(today) + 6 > Ordinal(MaxDate)
    ensures r.Err? ==> r.error == DateOutOfRange
    ensures r.Ok? ==> var w := r.value;
      && Valid(w.startOfWeek) && Valid(w.endOfWeek)
      && Weekday(w.startOfWeek) == 0
      && NotAfter(w.startOfWeek, today) && NotAfter(today, w.endOfWeek)
      && Ordinal(w.endOfWeek) == Ordinal(w.startOfWeek) + 6
    ensures r.Ok? && ValidDates(daily) ==>
              r.value.usage == SumRoomDaily(RowsInWeek(daily, room, WeekNumber(today)))
  {
    var start := StartOfWeek(today);
    match AddDays(start, 6)
    case None => Err(DateOutOfRange)
    case Some(end) =>
      NotAfterIsOrdinalOrder(today, end);
      assert ValidDates(daily) ==> DailyRowsBetween(daily, room, start, end) == RowsInWeek(daily, room, WeekNumber(today)) by {
        if ValidDates(daily) {
          WeekWindowRows(daily, room, today, start, end);
        }
      }
      Ok(WeekReport(start, end, SumRoomDaily(DailyRowsBetween(daily, room, start, end))))
  }

  /** `today - timedelta(days=today.weekday())`: the Monday of `today`'s week. */
  function StartOfWeek(today: Date): (start: Date)
    requires Valid(today)
    ensures Valid(start) && Weekday(start) == 0 && NotAfter(start, today)
    ensures Ordinal(start) == Ordinal(today) - Weekday(today)
  {
    OrdinalPositive(today);
    MondayArith(Ordinal(today), Weekday(today));
    var start := SubDays(today, Weekday(today)).value;
    NotAfterIsOrdinalOrder(start, today);
    start
  }

  /**
   * The window `[start, start + 6]` of a date holds exactly the dates of the
   * same week.
   */
  lemma WeekWindow(today: Date, start: Date, end: Date, x: Date)
    requires Valid(today) && Valid(start) && Valid(end) && Valid(x)
    requires Ordinal(start) == Ordinal(today) - Weekday(today)
    requires Ordinal(end) == Ordinal(start) + 6
    ensures NotAfter(start, x) && NotAfter(x, end) <==> WeekNumber(x) == WeekNumber(today)
  {
    NotAfterIsOrdinalOrder(start, x);
    NotAfterIsOrdinalOrder(x, end);
    OrdinalPositive(today);
    MondayArith(Ordinal(today), Weekday(today));
    WindowArith(Ordinal(today), Ordinal(start), Ordinal(x));
  }

  /** Day numbers: the Monday of day `o`'s week starts the week of multiples of 7 after day 1. */
  lemma MondayArith(o: int, w: int)
    requires o >= 1 && 0 <= w < 7 && (o - w) % 7 == 1
    ensures o - w == 7 * ((o - 1) / 7) + 1
    ensures 1 <= o - w <= o
    ensures (o - w + 6) % 7 == 0
  {
  }

  lemma WindowArith(o: int, s: int, x: int)
    requires o >= 1 && s == 7 * ((o - 1) / 7) + 1
    ensures s <= x <= s + 6 <==> (x - 1) / 7 == (o - 1) / 7
  {
  }

  lemma {:induction false} WeekWindowRows(t: seq<Row<DayKey, real>>, room: RoomId, today: Date, start: Date, end: Date)
    requires ValidDates(t) && Valid(today) && Valid(start) && Valid(end)
    requires Ordinal(start) == Ordinal(today) - Weekday(today)
    requires Ordinal(end) == Ordinal(start) + 6
    ensures DailyRowsBetween(t, room, start, end) == RowsInWeek(t, room, WeekNumber(today))
  {
    if |t| > 0 {
      WeekWindow(today, start, end, t[0].key.date);
      WeekWindowRows(t[1..], room, today, start, end);
    }
  }

  /** Two valid dates with the same day number are the same date. */
  lemma OrdinalInjective(a: Date, b: Date)
    requires Valid(a) && Valid(b) && Ordinal(a) == Ordinal(b)
    ensures a == b
  {
    NotAfterIsOrdinalOrder(a, b);
    NotAfterIsOrdinalOrder(b, a);
  }

  /** Every day of one week has the same Monday. */
  lemma SameWeekSameStart(a: Date, b: Date)
    requires Valid(a) && Valid(b) && WeekNumber(a) == WeekNumber(b)
    ensures StartOfWeek(a) == StartOfWeek(b)
  {
    StartOrdinal(a);
    StartOrdinal(b);
    OrdinalInjective(StartOfWeek(a), StartOfWeek(b));
  }

  /** The Monday of a week is the week's first day number. */
  lemma StartOrdinal(d: Date)
    requires Valid(d)
    ensures Ordinal(StartOfWeek(d)) == 7 * WeekNumber(d) + 1
  {
    OrdinalPositive(d);
    MondayArith(Ordinal(d), Weekday(d));
  }

  /** Every day of one week gets the same report. */
  lemma WeeklyUsageSameWeek(daily: seq<Row<DayKey, real>>, room: RoomId, a: Date, b: Date)
    requires Valid(a) && Valid(b) && WeekNumber(a) == WeekNumber(b)
    ensures WeeklyUsage(daily, room, a) == WeeklyUsage(daily, room, b)
  {
    SameWeekSameStart(a, b);
  }

  /** 9999-12-31 is a Friday, so its week cannot be reported. */
  lemma LastWeekOverflows()
    ensures Valid(MaxDate) && Weekday(MaxDate) == 4
    ensures WeeklyUsage([], 0, MaxDate) == Err(DateOutOfRange)
  {
  }

  /** A smart home: its creator and its members are user ids. */
  datatype SmartHome = SmartHome(id: int, creator: int, members: seq<int>)

  /** The ids of the homes `user` created or joined (`values_list('id', flat=True)`). */
  function UserHomeIds(homes: seq<SmartHome>, user: int): (ids: seq<int>)
    ensures forall h :: h in ids <==>
              exists j :: 0 <= j < |homes| && homes[j].id == h && (homes[j].creator == user || user in homes[j].members)
  {
    if |homes| == 0 then []
    else
      var rest := UserHomeIds(homes[1..], user);
      assert forall j :: 0 < j < |homes| ==> homes[1..][j - 1] == homes[j];
      (if homes[0].creator == user || user in homes[0].members then [homes[0].id] else []) + rest
  }

  /** `filter(smart_home_id=h)` on the rooms. */
  function RoomsOfHome(rooms: seq<Room>, h: int): (r: seq<Room>)
    ensures forall x :: multiset(r)[x] == if x.smartHome == h then multiset(rooms)[x] else 0
  {
    if |rooms| == 0 then []
    else
      assert rooms == [rooms[0]] + rooms[1..];
      (if rooms[0].smartHome == h then [rooms[0]] else []) + RoomsOfHome(rooms[1..], h)
  }

  /**
   * `get_queryset` for a request by `user` whose `smart_home` parameter is
   * `param`: no parameter or an empty one lists every room; a parameter that
   * `int()` rejects, or a home the user neither created nor joined, lists
   * none; otherwise the rooms of that home.
   */
  function RoomQuerySet(rooms: seq<Room>, homes: seq<SmartHome>, user: int, param: Option<string>): (r: seq<Room>)
    ensures param.None? || param == Some("") ==> r == rooms
    ensures param.Some? && param.value != "" ==>
              forall x :: multiset(r)[x] ==
                if ParseInt(param.value) == Some(x.smartHome) && x.smartHome in UserHomeIds(homes, user)
                then multiset(rooms)[x] else 0
  {
    if param.None? || param.value == "" then rooms
    else
      match ParseInt(param.value)
      case None => []
      case Some(h) =>
        if h !in UserHomeIds(homes, user) then [] else RoomsOfHome(rooms, h)
  }

  /** A filtered listing only ever shows rooms of homes the user created or joined. */
  lemma RoomQueryOnlyOwnHomes(rooms: seq<Room>, homes: seq<SmartHome>, user: int, param: string, x: Room)
    requires param != "" && x in RoomQuerySet(rooms, homes, user, Some(param))
    ensures x in rooms
    ensures exists j :: 0 <= j < |homes| && homes[j].id == x.smartHome && (homes[j].creator == user || user in homes[j].members)
  {
    assert multiset(RoomQuerySet(rooms, homes, user, Some(param)))[x] > 0;
  }

  /**
   * The parameter the client sends, `str(h)` for a home of the user's, lists
   * exactly that home's rooms, with or without surrounding whitespace.
   */
  lemma RoomQueryFormatted(rooms: seq<Room>, homes: seq<SmartHome>, user: int, h: int, pre: string, post: string)
    requires h in UserHomeIds(homes, user)
    requires forall i :: 0 <= i < |pre| ==> IsSpace(pre[i])
    requires forall i :: 0 <= i < |post| ==> IsSpace(post[i])
    ensures RoomQuerySet(rooms, homes, user, Some(pre + FormatInt(h) + post)) == RoomsOfHome(rooms, h)
  {
    FormattedParses(pre, h, post);
  }

  /** `int()` reads `str(h)` back as `h`, whitespace around it or not, and the parameter is not empty. */
  lemma FormattedParses(pre: string, h: int, post: string)
    requires forall i :: 0 <= i < |pre| ==> IsSpace(pre[i])
    requires forall i :: 0 <= i < |post| ==> IsSpace(post[i])
    ensures ParseInt(pre + FormatInt(h) + post) == Some(h)
    ensures pre + FormatInt(h) + post != ""
  {
    ParseFormat(h);
    ParseIgnoresSpace(pre, FormatInt(h), post);
    assert |pre + FormatInt(h) + post| >= |FormatInt(h)| > 0;
  }
}
