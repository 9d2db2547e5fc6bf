/**
 * `aggregate_device_logs`: the nightly device rollup. Each device's 5-second
 * logs from yesterday become one `DeviceLogDaily` row carrying the
 * `calculate_device_metrics` summary; on the first of a month the previous
 * month's daily rows become one `DeviceLogMonthly` row carrying the
 * `calculate_monthly_metrics` summary. One transaction, as for rooms.
 */
module DeviceRollup {
  import opened Results
  import opened Calendar
  import opened Tables
  import opened Logs
  import opened Metrics
  import opened LogStore
  import opened RoomRollup

  /** The ids of the devices, in table order. */
  function DeviceIds(devices: seq<Device>): (ids: seq<DeviceId>)
    ensures |ids| == |devices|
    ensures forall j :: 0 <= j < |devices| ==> ids[j] == devices[j].id
  {
    if |devices| == 0 then [] else [devices[0].id] + DeviceIds(devices[1..])
  }

  /** `daily_logs.exists()` for a device and a day. */
  predicate HasDeviceLogsOn(logs: seq<DeviceLog>, device: DeviceId, day: Date) {
    |DeviceLogsOn(logs, device, day)| > 0
  }

  /** The defaults of the daily row for a device: its day's metrics and their total. */
  function DeviceDayRow(logs: seq<DeviceLog>, device: DeviceId, day: Date): DeviceDaily {
    DailyRowOf(CalculateDeviceMetrics(DeviceLogsOn(logs, device, day)))
  }

  predicate IsDeviceDailyRow(logs: seq<DeviceLog>, day: Date, row: DailyRow) {
    && row.key.date == day
    && HasDeviceLogsOn(logs, row.key.entity, day)
    && row.value == DeviceDayRow(logs, row.key.entity, day)
  }

  /** The (key, defaults) pairs the daily loop upserts: one per device that has logs that day. */
  function DeviceDailyRows(ids: seq<DeviceId>, logs: seq<DeviceLog>, day: Date): seq<DailyRow> {
    if |ids| == 0 then []
    else
      (if HasDeviceLogsOn(logs, ids[0], day) then [Row(DayKey(ids[0], day), DeviceDayRow(logs, ids[0], day))] else [])
      + DeviceDailyRows(ids[1..], logs, day)
  }

  /**
   * Each row of the daily loop is keyed by a listed device and the day and
   * holds that device's metrics for the day; every listed device with logs
   * that day gets one.
   */
  lemma {:induction false} DeviceDailyRowsFacts(ids: seq<DeviceId>, logs: seq<DeviceLog>, day: Date)
    ensures forall row :: row in DeviceDailyRows(ids, logs, day) ==> IsDeviceDailyRow(logs, day, row) && row.key.entity in ids
    ensures forall id :: id in ids && HasDeviceLogsOn(logs, id, day) ==>
              Row(DayKey(id, day), DeviceDayRow(logs, id, day)) in DeviceDailyRows(ids, logs, day)
  {
    if |ids| > 0 {
      DeviceDailyRowsFacts(ids[1..], logs, day);
      assert ids == [ids[0]] + ids[1..];
    }
  }

  lemma DeviceDailyRowsConsistent(ids: seq<DeviceId>, logs: seq<DeviceLog>, day: Date)
    ensures Consistent(DeviceDailyRows(ids, logs, day))
  {
    DeviceDailyRowsFacts(ids, logs, day);
    var rows := DeviceDailyRows(ids, logs, day);
    assert forall i :: 0 <= i < |rows| ==> rows[i] in rows;
  }

  /** The device's daily rows in `[first, last]`. */
  function DeviceRowsBetween(daily: seq<DailyRow>, device: DeviceId, first: Date, last: Date): seq<DailyRow> {
    DailyRowsBetween(daily, device, first, last)
  }

  /**
   * The stored `logs` list is the device's day of logs, entry for entry
   * (timestamp, status, energy), in the `created_at` order `order_by` gives
   * the daily query; each entry is a log of that device dated that day.
   */
  lemma DayRowLogsInOrder(logs: seq<DeviceLog>, device: DeviceId, day: Date)
    ensures var d := DeviceDayRow(logs, device, day).statusUsageDetails;
            && d.DetailsJson? && d.logs.Some?
            && |d.logs.value| == |DeviceLogsOn(logs, device, day)|
            && (forall i, j :: 0 <= i < j < |d.logs.value| ==> !TimestampBefore(d.logs.value[j].timestamp, d.logs.value[i].timestamp))
            && (forall i :: 0 <= i < |d.logs.value| ==>
                  && d.logs.value[i].timestamp.date == day
                  && exists l :: l in logs && l.device == device && l.createdAt == d.logs.value[i].timestamp
                                 && l.energyUsage == d.logs.value[i].energyUsage)
            && (forall i :: 0 <= i < |d.logs.value| ==>
                  var l := DeviceLogsOn(logs, device, day)[i];
                  d.logs.value[i] == LogEntry(l.createdAt, l.status, l.energyUsage))
  {
    var on := DeviceLogsOn(logs, device, day);
    var e := LogEntries(on);
    assert DeviceDayRow(logs, device, day).statusUsageDetails.logs == Some(e);
    DayLogsFrom(logs, device, day);
    EntriesInOrder(on);
    forall i | 0 <= i < |e|
      ensures exists l :: l in logs && l.device == device && l.createdAt == e[i].timestamp && l.energyUsage == e[i].energyUsage
    {
      assert on[i] in logs;
    }
  }

  /** The entries of a time-ordered batch of logs are in time order too. */
  lemma EntriesInOrder(on: seq<DeviceLog>)
    requires SortedByTime(on)
    ensures forall i, j :: 0 <= i < j < |LogEntries(on)| ==> !TimestampBefore(LogEntries(on)[j].timestamp, LogEntries(on)[i].timestamp)
  {
    var e := LogEntries(on);
    forall i, j | 0 <= i < j < |e| ensures !TimestampBefore(e[j].timestamp, e[i].timestamp) {
      assert !TimestampBefore(on[j].createdAt, on[i].createdAt);
    }
  }

  /** Each log of a device's day is one of the device's logs, dated on that day. */
  lemma DayLogsFrom(logs: seq<DeviceLog>, device: DeviceId, day: Date)
    ensures var on := DeviceLogsOn(logs, device, day);
            forall i :: 0 <= i < |on| ==> on[i] in logs && on[i].device == device && on[i].createdAt.date == day
  {
    var on := DeviceLogsOn(logs, device, day);
    forall i | 0 <= i < |on| ensures on[i] in logs && on[i].device == device && on[i].createdAt.date == day {
      assert on[i] in multiset(on);
    }
  }

  /**
   * The defaults of the monthly row built from a non-empty window:
   * `monthly_metrics['monthly_totals']['total_usage']` and the metrics, or
   * the exception `calculate_monthly_metrics` raises on an unreadable row.
   * The window is never empty here, since the loop checks `exists()` first,
   * so the key lookup cannot fail.
   */
  function DeviceMonthRow(between: seq<DailyRow>): (m: Result<DeviceMonthly>)
    requires |between| > 0
    ensures m.Ok? <==> AllReadable(between)
    ensures m.Err? ==> Some(m.error) == FirstReadError(between)
    ensures m.Ok? ==> m.value.dailySummaries.Monthly?
    ensures m.Ok? ==> m.value.totalEnergyUsage == m.value.dailySummaries.monthlyTotals.totalUsage == SumDailyTotals(between)
  {
    var mm :- CalculateMonthlyMetrics(between);
    Ok(DeviceMonthly(mm.monthlyTotals.totalUsage, mm))
  }

  /** The monthly loop can read every daily row of the device in `[first, last]`. */
  predicate WindowReadable(daily: seq<DailyRow>, device: DeviceId, first: Date, last: Date) {
    AllReadable(DeviceRowsBetween(daily, device, first, last))
  }

  predicate IsDeviceMonthlyRow(daily: seq<DailyRow>, first: Date, last: Date, row: Row<MonthKey, DeviceMonthly>) {
    && row.key.month == last.month && row.key.year == last.year
    && |DeviceRowsBetween(daily, row.key.entity, first, last)| > 0
    && DeviceMonthRow(DeviceRowsBetween(daily, row.key.entity, first, last)) == Ok(row.value)
  }

  /** The monthly row of one device, if its window has rows: nothing, the row, or the exception. */
  function DeviceMonthStep(id: DeviceId, daily: seq<DailyRow>, first: Date, last: Date): (r: Result<seq<Row<MonthKey, DeviceMonthly>>>)
    ensures r.Ok? <==> WindowReadable(daily, id, first, last)
  {
    var between := DeviceRowsBetween(daily, id, first, last);
    if |between| == 0 then Ok([])
    else
      var m :- DeviceMonthRow(between);
      Ok([Row(MonthKey(id, last.month, last.year), m)])
  }

  /**
   * The (key, defaults) pairs the monthly loop upserts: one per device with
   * daily rows in the window, or the exception of the first device whose
   * window holds an unreadable row.
   */
  function DeviceMonthlyRows(ids: seq<DeviceId>, daily: seq<DailyRow>, first: Date, last: Date): (r: Result<seq<Row<MonthKey, DeviceMonthly>>>)
    ensures r.Ok? <==> forall id :: id in ids ==> WindowReadable(daily, id, first, last)
    ensures r.Err? ==> exists id :: id in ids && Some(r.error) == FirstReadError(DeviceRowsBetween(daily, id, first, last))
    ensures r.Err? ==> r.error == AttributeMissing || r.error == TypeMismatch
  {
    if |ids| == 0 then Ok([])
    else
      assert forall id :: id in ids <==> id == ids[0] || id in ids[1..] by {
        assert ids == [ids[0]] + ids[1..];
      }
      var head :- DeviceMonthStep(ids[0], daily, first, last);
      var rest :- DeviceMonthlyRows(ids[1..], daily, first, last);
      Ok(head + rest)
  }

  lemma {:induction false} DeviceMonthlyRowsFacts(ids: seq<DeviceId>, daily: seq<DailyRow>, first: Date, last: Date)
    requires DeviceMonthlyRows(ids, daily, first, last).Ok?
    ensures forall row :: row in DeviceMonthlyRows(ids, daily, first, last).value ==>
              IsDeviceMonthlyRow(daily, first, last, row) && row.key.entity in ids
    ensures forall id :: id in ids && |DeviceRowsBetween(daily, id, first, last)| > 0 ==>
              && DeviceMonthRow(DeviceRowsBetween(daily, id, first, last)).Ok?
              && Row(MonthKey(id, last.month, last.year), DeviceMonthRow(DeviceRowsBetween(daily, id, first, last)).value)
                 in DeviceMonthlyRows(ids, daily, first, last).value
  {
    if |ids| > 0 {
      DeviceMonthlyRowsFacts(ids[1..], daily, first, last);
      assert ids == [ids[0]] + ids[1..];
    }
  }

  lemma DeviceMonthlyRowsConsistent(ids: seq<DeviceId>, daily: seq<DailyRow>, first: Date, last: Date)
    requires DeviceMonthlyRows(ids, daily, first, last).Ok?
    ensures Consistent(DeviceMonthlyRows(ids, daily, first, last).value)
  {
    DeviceMonthlyRowsFacts(ids, daily, first, last);
    var rows := DeviceMonthlyRows(ids, daily, first, last).value;
    assert forall i :: 0 <= i < |rows| ==> rows[i] in rows;
  }

  /**
   * `aggregate_device_logs` run on `today`. Yesterday not existing raises
   * `OverflowError`; a summary key already stored twice raises
   * `MultipleObjectsReturned`; an unreadable daily row raises, on the first
   * of a month only. It changes only the two device summary tables.
   */
  function AggregateDeviceLogs(s: Store, today: Date): (r: Result<Store>)
    requires Valid(today)
    ensures (r.Err? && r.error == DateOutOfRange) <==> today == MinDate
    ensures r.Err? && r.error != DateOutOfRange && r.error != MultipleObjectsReturned ==> IsFirstDayOfMonth(today)
    ensures today != MinDate && !IsFirstDayOfMonth(today) && UniqueKeys(s.deviceDaily) ==> r.Ok?
    ensures r.Ok? ==> r.value == s.(deviceDaily := r.value.deviceDaily, deviceMonthly := r.value.deviceMonthly)
    ensures r.Ok? && !IsFirstDayOfMonth(today) ==> r.value.deviceMonthly == s.deviceMonthly
  {
    var yesterday :- Yesterday(today);
    var dailyRows := DeviceDailyRows(DeviceIds(s.devices), s.deviceLogs, yesterday);
    assert UniqueKeys(s.deviceDaily) ==> UpsertAll(s.deviceDaily, dailyRows).Ok? by {
      if UniqueKeys(s.deviceDaily) { UpsertAllKeepsUnique(s.deviceDaily, dailyRows); }
    }
    var daily :- UpsertAll(s.deviceDaily, dailyRows);
    if IsFirstDayOfMonth(today) then
      var monthlyRows :- DeviceMonthlyRows(DeviceIds(s.devices), daily, FirstOfMonth(yesterday), yesterday);
      var monthly :- UpsertAll(s.deviceMonthly, monthlyRows);
      Ok(s.(deviceDaily := daily, deviceMonthly := monthly))
    else
      Ok(s.(deviceDaily := daily))
  }

  /** The two upsert passes a successful run is made of. */
  lemma DeviceRollupSteps(s: Store, today: Date)
    requires Valid(today) && AggregateDeviceLogs(s, today).Ok?
    ensures today != MinDate
    ensures var y := PrevDay(today).value;
            var daily := UpsertAll(s.deviceDaily, DeviceDailyRows(DeviceIds(s.devices), s.deviceLogs, y));
            && daily.Ok?
            && AggregateDeviceLogs(s, today).value.deviceDaily == daily.value
            && (IsFirstDayOfMonth(today) ==>
                  var rows := DeviceMonthlyRows(DeviceIds(s.devices), daily.value, FirstOfMonth(y), y);
                  && rows.Ok?
                  && UpsertAll(s.deviceMonthly, rows.value).Ok?
                  && AggregateDeviceLogs(s, today).value.deviceMonthly == UpsertAll(s.deviceMonthly, rows.value).value)
  {
  }

  /** One daily pass over a table: what `DeviceRollupDaily` states, for any starting table. */
  lemma DeviceDailyPass(t: seq<DailyRow>, ids: seq<DeviceId>, logs: seq<DeviceLog>, y: Date)
    requires UpsertAll(t, DeviceDailyRows(ids, logs, y)).Ok?
    ensures var daily := UpsertAll(t, DeviceDailyRows(ids, logs, y)).value;
            && (forall id :: id in ids && HasDeviceLogsOn(logs, id, y) ==>
                  Lookup(daily, DayKey(id, y)) == Some(DeviceDayRow(logs, id, y)) && CountKey(daily, DayKey(id, y)) == 1)
            && (forall k: DayKey :: !(k.date == y && k.entity in ids && HasDeviceLogsOn(logs, k.entity, y)) ==>
                  Lookup(daily, k) == Lookup(t, k) && CountKey(daily, k) == CountKey(t, k))
  {
    var rows := DeviceDailyRows(ids, logs, y);
    var daily := UpsertAll(t, rows).value;
    DeviceDailyRowsFacts(ids, logs, y);
    DeviceDailyRowsConsistent(ids, logs, y);
    forall id | id in ids && HasDeviceLogsOn(logs, id, y)
      ensures Lookup(daily, DayKey(id, y)) == Some(DeviceDayRow(logs, id, y))
      ensures CountKey(daily, DayKey(id, y)) == 1
    {
      UpsertAllStoredRow(t, rows, Row(DayKey(id, y), DeviceDayRow(logs, id, y)));
    }
    DeviceDailyPassUntouched(t, ids, logs, y);
  }

  /** The daily pass leaves every key it does not write as it was. */
  lemma DeviceDailyPassUntouched(t: seq<DailyRow>, ids: seq<DeviceId>, logs: seq<DeviceLog>, y: Date)
    requires UpsertAll(t, DeviceDailyRows(ids, logs, y)).Ok?
    ensures var daily := UpsertAll(t, DeviceDailyRows(ids, logs, y)).value;
            forall k: DayKey :: !(k.date == y && k.entity in ids && HasDeviceLogsOn(logs, k.entity, y)) ==>
              Lookup(daily, k) == Lookup(t, k) && CountKey(daily, k) == CountKey(t, k)
  {
    var rows := DeviceDailyRows(ids, logs, y);
    DeviceDailyRowsFacts(ids, logs, y);
    forall k: DayKey | !(k.date == y && k.entity in ids && HasDeviceLogsOn(logs, k.entity, y))
      ensures Lookup(UpsertAll(t, rows).value, k) == Lookup(t, k)
      ensures CountKey(UpsertAll(t, rows).value, k) == CountKey(t, k)
    {
      assert forall i :: 0 <= i < |rows| ==> rows[i] in rows;
      UpsertAllUntouched(t, rows, k);
    }
  }

  /**
   * After a successful run every device with logs yesterday has exactly one
   * daily row for yesterday, whose total is the sum of those logs and whose
   * uptime and downtime usages add up to it; every other daily key keeps the
   * rows it had.
   */
  lemma DeviceRollupDaily(s: Store, today: Date)
    requires Valid(today) && AggregateDeviceLogs(s, today).Ok?
    ensures var y := PrevDay(today).value;
            var r := AggregateDeviceLogs(s, today).value;
            && (forall id :: id in DeviceIds(s.devices) && HasDeviceLogsOn(s.deviceLogs, id, y) ==>
                  && Lookup(r.deviceDaily, DayKey(id, y)) == Some(DeviceDayRow(s.deviceLogs, id, y))
                  && CountKey(r.deviceDaily, DayKey(id, y)) == 1
                  && DeviceDayRow(s.deviceLogs, id, y).totalEnergyUsage == SumDeviceEnergy(DeviceLogsOn(s.deviceLogs, id, y))
                  && Balanced(DeviceDayRow(s.deviceLogs, id, y)))
            && (forall k: DayKey :: !(k.date == y && k.entity in DeviceIds(s.devices) && HasDeviceLogsOn(s.deviceLogs, k.entity, y)) ==>
                  && Lookup(r.deviceDaily, k) == Lookup(s.deviceDaily, k)
                  && CountKey(r.deviceDaily, k) == CountKey(s.deviceDaily, k))
  {
    var y := PrevDay(today).value;
    DeviceRollupSteps(s, today);
    DeviceDailyPass(s.deviceDaily, DeviceIds(s.devices), s.deviceLogs, y);
    forall id | id in DeviceIds(s.devices)
      ensures DeviceDayRow(s.deviceLogs, id, y).totalEnergyUsage == SumDeviceEnergy(DeviceLogsOn(s.deviceLogs, id, y))
      ensures Balanced(DeviceDayRow(s.deviceLogs, id, y))
    {
      DailyRowBalanced(DeviceLogsOn(s.deviceLogs, id, y));
    }
  }

  /** One monthly pass over a table: what `DeviceRollupMonthly` states, for any starting table. */
  lemma DeviceMonthlyPass(t: seq<Row<MonthKey, DeviceMonthly>>, ids: seq<DeviceId>, daily: seq<DailyRow>, first: Date, y: Date)
    requires DeviceMonthlyRows(ids, daily, first, y).Ok?
    requires UpsertAll(t, DeviceMonthlyRows(ids, daily, first, y).value).Ok?
    ensures var monthly := UpsertAll(t, DeviceMonthlyRows(ids, daily, first, y).value).value;
            && (forall id :: id in ids && |DeviceRowsBetween(daily, id, first, y)| > 0 ==>
                  && DeviceMonthRow(DeviceRowsBetween(daily, id, first, y)).Ok?
                  && Lookup(monthly, MonthKey(id, y.month, y.year)) == Some(DeviceMonthRow(DeviceRowsBetween(daily, id, first, y)).value)
                  && CountKey(monthly, MonthKey(id, y.month, y.year)) == 1)
            && (forall k: MonthKey :: !(k.month == y.month && k.year == y.year && k.entity in ids) ==>
                  Lookup(monthly, k) == Lookup(t, k) && CountKey(monthly, k) == CountKey(t, k))
  {
    var rows := DeviceMonthlyRows(ids, daily, first, y).value;
    var monthly := UpsertAll(t, rows).value;
    DeviceMonthlyRowsFacts(ids, daily, first, y);
    DeviceMonthlyRowsConsistent(ids, daily, first, y);
    forall id | id in ids && |DeviceRowsBetween(daily, id, first, y)| > 0
      ensures Lookup(monthly, MonthKey(id, y.month, y.year)) == Some(DeviceMonthRow(DeviceRowsBetween(daily, id, first, y)).value)
      ensures CountKey(monthly, MonthKey(id, y.month, y.year)) == 1
    {
      UpsertAllStoredRow(t, rows, Row(MonthKey(id, y.month, y.year), DeviceMonthRow(DeviceRowsBetween(daily, id, first, y)).value));
    }
    forall k: MonthKey | !(k.month == y.month && k.year == y.year && k.entity in ids)
      ensures Lookup(monthly, k) == Lookup(t, k)
      ensures CountKey(monthly, k) == CountKey(t, k)
    {
      assert forall i :: 0 <= i < |rows| ==> rows[i] in rows;
      UpsertAllUntouched(t, rows, k);
    }
  }

  /**
   * On the first of a month a successful run leaves every device with daily
   * rows in the previous month (read from the daily table this same run just
   * wrote) with exactly one monthly row, whose total is the sum of those
   * days' totals; every other monthly key keeps the rows it had.
   */
  lemma DeviceRollupMonthly(s: Store, today: Date)
    requires Valid(today) && IsFirstDayOfMonth(today) && AggregateDeviceLogs(s, today).Ok?
    ensures var y := PrevDay(today).value;
            var r := AggregateDeviceLogs(s, today).value;
            var first := FirstOfMonth(y);
            && (forall id :: id in DeviceIds(s.devices) && |DeviceRowsBetween(r.deviceDaily, id, first, y)| > 0 ==>
                  && DeviceMonthRow(DeviceRowsBetween(r.deviceDaily, id, first, y)).Ok?
                  && Lookup(r.deviceMonthly, MonthKey(id, y.month, y.year)) == Some(DeviceMonthRow(DeviceRowsBetween(r.deviceDaily, id, first, y)).value)
                  && CountKey(r.deviceMonthly, MonthKey(id, y.month, y.year)) == 1
                  && DeviceMonthRow(DeviceRowsBetween(r.deviceDaily, id, first, y)).value.totalEnergyUsage
                     == SumDailyTotals(DeviceRowsBetween(r.deviceDaily, id, first, y)))
            && (forall k: MonthKey :: !(k.month == y.month && k.year == y.year && k.entity in DeviceIds(s.devices)) ==>
                  && Lookup(r.deviceMonthly, k) == Lookup(s.deviceMonthly, k)
                  && CountKey(r.deviceMonthly, k) == CountKey(s.deviceMonthly, k))
  {
    DeviceRollupSteps(s, today);
    var y := PrevDay(today).value;
    DeviceMonthlyPass(s.deviceMonthly, DeviceIds(s.devices), AggregateDeviceLogs(s, today).value.deviceDaily, FirstOfMonth(y), y);
  }

  /**
   * A monthly row built from daily rows this job wrote is balanced too: its
   * uptime and downtime usages add up to its total.
   */
  lemma DeviceMonthRowBalanced(between: seq<DailyRow>)
    requires |between| > 0
    requires forall i :: 0 <= i < |between| ==> Balanced(between[i].value)
    ensures DeviceMonthRow(between).Ok?
    ensures var m := DeviceMonthRow(between).value.dailySummaries.monthlyTotals;
            m.uptimeUsage + m.downtimeUsage == m.totalUsage
  {
    MonthlyBalanced(between);
  }

  /** Running the device rollup a second time on the same day changes nothing more. */
  lemma DeviceRollupIdempotent(s: Store, today: Date)
    requires Valid(today) && AggregateDeviceLogs(s, today).Ok?
    ensures AggregateDeviceLogs(AggregateDeviceLogs(s, today).value, today) == AggregateDeviceLogs(s, today)
  {
    var y := PrevDay(today).value;
    var ids := DeviceIds(s.devices);
    var rows := DeviceDailyRows(ids, s.deviceLogs, y);
    DeviceRollupSteps(s, today);
    DeviceDailyRowsConsistent(ids, s.deviceLogs, y);
    UpsertAllIdempotent(s.deviceDaily, rows);
    var daily := UpsertAll(s.deviceDaily, rows).value;
    if IsFirstDayOfMonth(today) {
      var monthlyRows := DeviceMonthlyRows(ids, daily, FirstOfMonth(y), y).value;
      DeviceMonthlyRowsConsistent(ids, daily, FirstOfMonth(y), y);
      UpsertAllIdempotent(s.deviceMonthly, monthlyRows);
    }
  }

  /** Every daily row the monthly loop may read is readable. */
  predicate AllDailyReadable(daily: seq<DailyRow>) {
    forall x :: x in daily ==> Readable(x.value.statusUsageDetails)
  }

  /**
   * The daily rows of a window come from the table, so a table of readable
   * rows gives readable windows.
   */
  lemma WindowOfReadable(daily: seq<DailyRow>, device: DeviceId, first: Date, last: Date)
    requires AllDailyReadable(daily)
    ensures WindowReadable(daily, device, first, last)
  {
    var between := DeviceRowsBetween(daily, device, first, last);
    forall i | 0 <= i < |between| ensures Readable(between[i].value.statusUsageDetails) {
      assert between[i] in multiset(between);
    }
  }

  /** The daily pass keeps every daily row readable: the rows it writes are. */
  lemma DailyPassKeepsReadable(t: seq<DailyRow>, ids: seq<DeviceId>, logs: seq<DeviceLog>, y: Date)
    requires AllDailyReadable(t) && UpsertAll(t, DeviceDailyRows(ids, logs, y)).Ok?
    ensures AllDailyReadable(UpsertAll(t, DeviceDailyRows(ids, logs, y)).value)
  {
    var rows := DeviceDailyRows(ids, logs, y);
    DeviceDailyRowsFacts(ids, logs, y);
    forall x | x in UpsertAll(t, rows).value ensures Readable(x.value.statusUsageDetails) {
      UpsertAllFrom(t, rows, x);
      if x in rows {
        DailyRowBalanced(DeviceLogsOn(logs, x.key.entity, y));
      }
    }
  }

  /**
   * A run on a day that exists, over summary tables with unique keys and
   * daily rows the monthly loop can read (every row this job writes is),
   * succeeds, and leaves the daily rows readable for the next run.
   */
  lemma DeviceRollupSucceeds(s: Store, today: Date)
    requires Valid(today) && today != MinDate
    requires UniqueKeys(s.deviceDaily) && UniqueKeys(s.deviceMonthly)
    requires AllDailyReadable(s.deviceDaily)
    ensures AggregateDeviceLogs(s, today).Ok?
    ensures AllDailyReadable(AggregateDeviceLogs(s, today).value.deviceDaily)
  {
    var y := PrevDay(today).value;
    var ids := DeviceIds(s.devices);
    var rows := DeviceDailyRows(ids, s.deviceLogs, y);
    UpsertAllKeepsUnique(s.deviceDaily, rows);
    DailyPassKeepsReadable(s.deviceDaily, ids, s.deviceLogs, y);
    var daily := UpsertAll(s.deviceDaily, rows).value;
    if IsFirstDayOfMonth(today) {
      forall id | id in ids ensures WindowReadable(daily, id, FirstOfMonth(y), y) {
        WindowOfReadable(daily, id, FirstOfMonth(y), y);
      }
      UpsertAllKeepsUnique(s.deviceMonthly, DeviceMonthlyRows(ids, daily, FirstOfMonth(y), y).value);
    }
  }
}
