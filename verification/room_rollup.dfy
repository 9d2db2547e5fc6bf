/**
 * `aggregate_room_logs`: the nightly room rollup. Yesterday's 5-second room
 * logs are summed into one `RoomLogDaily` row per room; on the first of a
 * month the previous month's daily rows are summed into one `RoomLogMonthly`
 * row per room. The whole run is one transaction, so it either returns the
 * new store or an error that leaves the old one in place.
 */
module RoomRollup {
  import opened Results
  import opened Calendar
  import opened Tables
  import opened Logs
  import opened LogStore

  /** `today - timedelta(days=1)`, raising `OverflowError` on 0001-01-01. */
  function Yesterday(today: Date): (r: Result<Date>)
    requires Valid(today)
    ensures r.Err? <==> today == MinDate
    ensures r.Err? ==> r.error == DateOutOfRange
    ensures r.Ok? ==> Valid(r.value) && Ordinal(r.value) == Ordinal(today) - 1
  {
    match PrevDay(today)
    case None => Err(DateOutOfRange)
    case Some(y) => Ok(y)
  }

  /** `daily_logs.exists()` for a room and a day. */
  predicate HasRoomLogsOn(logs: seq<RoomLog>, room: RoomId, day: Date) {
    |RoomLogsOn(logs, room, day)| > 0
  }

  /** The room's energy on a day: the sum over its 5-second logs dated that day. */
  function RoomDayTotal(logs: seq<RoomLog>, room: RoomId, day: Date): real {
    SumRoomEnergy(RoomLogsOn(logs, room, day))
  }

  /** The ids of the rooms, in table order. */
  function RoomIds(rooms: seq<Room>): (ids: seq<RoomId>)
    ensures |ids| == |rooms|
    ensures forall j :: 0 <= j < |rooms| ==> ids[j] == rooms[j].id
  {
    if |rooms| == 0 then [] else [rooms[0].id] + RoomIds(rooms[1..])
  }

  /** The row the daily loop writes for a room: its key and its day's total. */
  predicate IsRoomDailyRow(logs: seq<RoomLog>, day: Date, row: Row<DayKey, real>) {
    && row.key.date == day
    && HasRoomLogsOn(logs, row.key.entity, day)
    && row.value == RoomDayTotal(logs, row.key.entity, day)
  }

  /** The (key, defaults) pairs the daily loop upserts: one per room that has logs that day. */
  function RoomDailyRows(ids: seq<RoomId>, logs: seq<RoomLog>, day: Date): seq<Row<DayKey, real>> {
    if |ids| == 0 then []
    else
      (if HasRoomLogsOn(logs, ids[0], day) then [Row(DayKey(ids[0], day), RoomDayTotal(logs, ids[0], day))] else [])
      + RoomDailyRows(ids[1..], logs, day)
  }

  /**
   * The daily loop writes exactly one kind of row: each row is keyed by a
   * listed room and yesterday, and holds that room's total; and every listed
   * room with logs that day gets a row.
   */
  lemma {:induction false} RoomDailyRowsFacts(ids: seq<RoomId>, logs: seq<RoomLog>, day: Date)
    ensures forall row :: row in RoomDailyRows(ids, logs, day) ==> IsRoomDailyRow(logs, day, row) && row.key.entity in ids
    ensures forall id :: id in ids && HasRoomLogsOn(logs, id, day) ==> Row(DayKey(id, day), RoomDayTotal(logs, id, day)) in RoomDailyRows(ids, logs, day)
  {
    if |ids| > 0 {
      RoomDailyRowsFacts(ids[1..], logs, day);
      assert ids == [ids[0]] + ids[1..];
    }
  }

  /** The room's daily rows in `[first, last]`. */
  function RoomRowsBetween(daily: seq<Row<DayKey, real>>, room: RoomId, first: Date, last: Date): seq<Row<DayKey, real>> {
    DailyRowsBetween(daily, room, first, last)
  }

  /** The row the monthly loop writes for a room: its month key and the sum of its daily rows in the window. */
  predicate IsRoomMonthlyRow(daily: seq<Row<DayKey, real>>, first: Date, last: Date, row: Row<MonthKey, real>) {
    && row.key.month == last.month && row.key.year == last.year
    && |RoomRowsBetween(daily, row.key.entity, first, last)| > 0
    && row.value == SumRoomDaily(RoomRowsBetween(daily, row.key.entity, first, last))
  }

  /** The (key, defaults) pairs the monthly loop upserts: one per room with daily rows in the window. */
  function RoomMonthlyRows(ids: seq<RoomId>, daily: seq<Row<DayKey, real>>, first: Date, last: Date): seq<Row<MonthKey, real>> {
    if |ids| == 0 then []
    else
      var between := RoomRowsBetween(daily, ids[0], first, last);
      (if |between| > 0 then [Row(MonthKey(ids[0], last.month, last.year), SumRoomDaily(between))] else [])
      + RoomMonthlyRows(ids[1..], daily, first, last)
  }

  /** The monthly loop's rows, characterised as the daily loop's are by `RoomDailyRowsFacts`. */
  lemma {:induction false} RoomMonthlyRowsFacts(ids: seq<RoomId>, daily: seq<Row<DayKey, real>>, first: Date, last: Date)
    ensures forall row :: row in RoomMonthlyRows(ids, daily, first, last) ==> IsRoomMonthlyRow(daily, first, last, row) && row.key.entity in ids
    ensures forall id :: id in ids && |RoomRowsBetween(daily, id, first, last)| > 0 ==>
              Row(MonthKey(id, last.month, last.year), SumRoomDaily(RoomRowsBetween(daily, id, first, last))) in RoomMonthlyRows(ids, daily, first, last)
  {
    if |ids| > 0 {
      RoomMonthlyRowsFacts(ids[1..], daily, first, last);
      assert ids == [ids[0]] + ids[1..];
    }
  }

  /**
   * `aggregate_room_logs` run on `today`. It fails only when yesterday does
   * not exist or a summary key is already stored twice, and it changes only
   * the two room summary tables.
   */
  function AggregateRoomLogs(s: Store, today: Date): (r: Result<Store>)
    requires Valid(today)
    ensures r.Err? ==> r.error == DateOutOfRange || r.error == MultipleObjectsReturned
    ensures (r.Err? && r.error == DateOutOfRange) <==> today == MinDate
    ensures today != MinDate && UniqueKeys(s.roomDaily) && UniqueKeys(s.roomMonthly) ==> r.Ok?
    ensures r.Ok? ==> r.value == s.(roomDaily := r.value.roomDaily, roomMonthly := r.value.roomMonthly)
    ensures r.Ok? && !IsFirstDayOfMonth(today) ==> r.value.roomMonthly == s.roomMonthly
  {
    var yesterday :- Yesterday(today);
    var dailyRows := RoomDailyRows(RoomIds(s.rooms), s.roomLogs, yesterday);
    assert UniqueKeys(s.roomDaily) ==> UpsertAll(s.roomDaily, dailyRows).Ok? by {
      if UniqueKeys(s.roomDaily) { UpsertAllKeepsUnique(s.roomDaily, dailyRows); }
    }
    var daily :- UpsertAll(s.roomDaily, dailyRows);
    if IsFirstDayOfMonth(today) then
      var monthlyRows := RoomMonthlyRows(RoomIds(s.rooms), daily, FirstOfMonth(yesterday), yesterday);
      assert UniqueKeys(s.roomMonthly) ==> UpsertAll(s.roomMonthly, monthlyRows).Ok? by {
        if UniqueKeys(s.roomMonthly) { UpsertAllKeepsUnique(s.roomMonthly, monthlyRows); }
      }
      var monthly :- UpsertAll(s.roomMonthly, monthlyRows);
      Ok(s.(roomDaily := daily, roomMonthly := monthly))
    else
      Ok(s.(roomDaily := daily))
  }

  /** The two upsert passes a successful run is made of. */
  lemma RoomRollupSteps(s: Store, today: Date)
    requires Valid(today) && AggregateRoomLogs(s, today).Ok?
    ensures today != MinDate
    ensures var y := PrevDay(today).value;
            var daily := UpsertAll(s.roomDaily, RoomDailyRows(RoomIds(s.rooms), s.roomLogs, y));
            && daily.Ok?
            && AggregateRoomLogs(s, today).value.roomDaily == daily.value
            && (IsFirstDayOfMonth(today) ==>
                  var monthly := UpsertAll(s.roomMonthly, RoomMonthlyRows(RoomIds(s.rooms), daily.value, FirstOfMonth(y), y));
                  monthly.Ok? && AggregateRoomLogs(s, today).value.roomMonthly == monthly.value)
  {
  }

  /** Equal keys among the daily loop's rows carry equal totals, so the order of upserts does not matter. */
  lemma RoomDailyRowsConsistent(ids: seq<RoomId>, logs: seq<RoomLog>, day: Date)
    ensures Consistent(RoomDailyRows(ids, logs, day))
  {
    RoomDailyRowsFacts(ids, logs, day);
    var rows := RoomDailyRows(ids, logs, day);
    assert forall i :: 0 <= i < |rows| ==> rows[i] in rows;
  }

  lemma RoomMonthlyRowsConsistent(ids: seq<RoomId>, daily: seq<Row<DayKey, real>>, first: Date, last: Date)
    ensures Consistent(RoomMonthlyRows(ids, daily, first, last))
  {
    RoomMonthlyRowsFacts(ids, daily, first, last);
    var rows := RoomMonthlyRows(ids, daily, first, last);
    assert forall i :: 0 <= i < |rows| ==> rows[i] in rows;
  }

  /** One daily pass over a table: what `RoomRollupDaily` states, for any starting table. */
  lemma RoomDailyPass(t: seq<Row<DayKey, real>>, ids: seq<RoomId>, logs: seq<RoomLog>, y: Date)
    requires UpsertAll(t, RoomDailyRows(ids, logs, y)).Ok?
    ensures var daily := UpsertAll(t, RoomDailyRows(ids, logs, y)).value;
            && (forall id :: id in ids && HasRoomLogsOn(logs, id, y) ==>
                  Lookup(daily, DayKey(id, y)) == Some(RoomDayTotal(logs, id, y)) && CountKey(daily, DayKey(id, y)) == 1)
            && (forall k: DayKey :: !(k.date == y && k.entity in ids && HasRoomLogsOn(logs, k.entity, y)) ==>
                  Lookup(daily, k) == Lookup(t, k) && CountKey(daily, k) == CountKey(t, k))
  {
    var rows := RoomDailyRows(ids, logs, y);
    var daily := UpsertAll(t, rows).value;
    RoomDailyRowsFacts(ids, logs, y);
    RoomDailyRowsConsistent(ids, logs, y);
    forall id | id in ids && HasRoomLogsOn(logs, id, y)
      ensures Lookup(daily, DayKey(id, y)) == Some(RoomDayTotal(logs, id, y))
      ensures CountKey(daily, DayKey(id, y)) == 1
    {
      var i :| 0 <= i < |rows| && rows[i] == Row(DayKey(id, y), RoomDayTotal(logs, id, y));
      UpsertAllStored(t, rows, i);
    }
    forall k: DayKey | !(k.date == y && k.entity in ids && HasRoomLogsOn(logs, k.entity, y))
      ensures Lookup(daily, k) == Lookup(t, k)
      ensures CountKey(daily, k) == CountKey(t, k)
    {
      assert forall i :: 0 <= i < |rows| ==> rows[i] in rows;
      UpsertAllUntouched(t, rows, k);
    }
  }

  /**
   * After a successful run every room with logs yesterday has exactly one
   * daily row for yesterday, holding the sum of those logs; every other
   * daily key keeps the rows it had.
   */
  lemma RoomRollupDaily(s: Store, today: Date)
    requires Valid(today) && AggregateRoomLogs(s, today).Ok?
    ensures var y := PrevDay(today).value;
            var r := AggregateRoomLogs(s, today).value;
            && (forall id :: id in RoomIds(s.rooms) && HasRoomLogsOn(s.roomLogs, id, y) ==>
                  && Lookup(r.roomDaily, DayKey(id, y)) == Some(RoomDayTotal(s.roomLogs, id, y))
                  && CountKey(r.roomDaily, DayKey(id, y)) == 1)
            && (forall k: DayKey :: !(k.date == y && k.entity in RoomIds(s.rooms) && HasRoomLogsOn(s.roomLogs, k.entity, y)) ==>
                  && Lookup(r.roomDaily, k) == Lookup(s.roomDaily, k)
                  && CountKey(r.roomDaily, k) == CountKey(s.roomDaily, k))
  {
    RoomRollupSteps(s, today);
    RoomDailyPass(s.roomDaily, RoomIds(s.rooms), s.roomLogs, PrevDay(today).value);
  }

  /** One monthly pass over a table: what `RoomRollupMonthly` states, for any starting table. */
  lemma RoomMonthlyPass(t: seq<Row<MonthKey, real>>, ids: seq<RoomId>, daily: seq<Row<DayKey, real>>, first: Date, y: Date)
    requires UpsertAll(t, RoomMonthlyRows(ids, daily, first, y)).Ok?
    ensures var monthly := UpsertAll(t, RoomMonthlyRows(ids, daily, first, y)).value;
            && (forall id :: id in ids && |RoomRowsBetween(daily, id, first, y)| > 0 ==>
                  && Lookup(monthly, MonthKey(id, y.month, y.year)) == Some(SumRoomDaily(RoomRowsBetween(daily, id, first, y)))
                  && CountKey(monthly, MonthKey(id, y.month, y.year)) == 1)
            && (forall k: MonthKey :: !(k.month == y.month && k.year == y.year && k.entity in ids) ==>
                  Lookup(monthly, k) == Lookup(t, k) && CountKey(monthly, k) == CountKey(t, k))
  {
    var rows := RoomMonthlyRows(ids, daily, first, y);
    var monthly := UpsertAll(t, rows).value;
    RoomMonthlyRowsFacts(ids, daily, first, y);
    RoomMonthlyRowsConsistent(ids, daily, first, y);
    forall id | id in ids && |RoomRowsBetween(daily, id, first, y)| > 0
      ensures Lookup(monthly, MonthKey(id, y.month, y.year)) == Some(SumRoomDaily(RoomRowsBetween(daily, id, first, y)))
      ensures CountKey(monthly, MonthKey(id, y.month, y.year)) == 1
    {
      var i :| 0 <= i < |rows| && rows[i] == Row(MonthKey(id, y.month, y.year), SumRoomDaily(RoomRowsBetween(daily, id, first, y)));
      UpsertAllStored(t, rows, i);
    }
    forall k: MonthKey | !(k.month == y.month && k.year == y.year && k.entity in ids)
      ensures Lookup(monthly, k) == Lookup(t, k)
      ensures CountKey(monthly, k) == CountKey(t, k)
    {
      assert forall i :: 0 <= i < |rows| ==> rows[i] in rows;
      UpsertAllUntouched(t, rows, k);
    }
  }

  /**
   * On the first of a month a successful run leaves every room that has
   * daily rows in the previous month (read from the daily table this same run
   * just wrote) with exactly one monthly row holding their sum; every other
   * monthly key keeps the rows it had.
   */
  lemma RoomRollupMonthly(s: Store, today: Date)
    requires Valid(today) && IsFirstDayOfMonth(today) && AggregateRoomLogs(s, today).Ok?
    ensures var y := PrevDay(today).value;
            var r := AggregateRoomLogs(s, today).value;
            var first := FirstOfMonth(y);
            && (forall id :: id in RoomIds(s.rooms) && |RoomRowsBetween(r.roomDaily, id, first, y)| > 0 ==>
                  && Lookup(r.roomMonthly, MonthKey(id, y.month, y.year)) == Some(SumRoomDaily(RoomRowsBetween(r.roomDaily, id, first, y)))
                  && CountKey(r.roomMonthly, MonthKey(id, y.month, y.year)) == 1)
            && (forall k: MonthKey :: !(k.month == y.month && k.year == y.year && k.entity in RoomIds(s.rooms)) ==>
                  && Lookup(r.roomMonthly, k) == Lookup(s.roomMonthly, k)
                  && CountKey(r.roomMonthly, k) == CountKey(s.roomMonthly, k))
  {
    RoomRollupSteps(s, today);
    var y := PrevDay(today).value;
    RoomMonthlyPass(s.roomMonthly, RoomIds(s.rooms), AggregateRoomLogs(s, today).value.roomDaily, FirstOfMonth(y), y);
  }

  /** Running the room rollup a second time on the same day changes nothing more. */
  lemma RoomRollupIdempotent(s: Store, today: Date)
    requires Valid(today) && AggregateRoomLogs(s, today).Ok?
    ensures AggregateRoomLogs(AggregateRoomLogs(s, today).value, today) == AggregateRoomLogs(s, today)
  {
    var y := PrevDay(today).value;
    var ids := RoomIds(s.rooms);
    var rows := RoomDailyRows(ids, s.roomLogs, y);
    RoomRollupSteps(s, today);
    RoomDailyRowsConsistent(ids, s.roomLogs, y);
    UpsertAllIdempotent(s.roomDaily, rows);
    var daily := UpsertAll(s.roomDaily, rows).value;
    if IsFirstDayOfMonth(today) {
      var monthlyRows := RoomMonthlyRows(ids, daily, FirstOfMonth(y), y);
      RoomMonthlyRowsConsistent(ids, daily, FirstOfMonth(y), y);
      UpsertAllIdempotent(s.roomMonthly, monthlyRows);
    }
  }
}
