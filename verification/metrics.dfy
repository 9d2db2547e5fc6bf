/**
 * `calculate_device_metrics` (one device's day of 5-second logs, split by
 * on/off status) and `calculate_monthly_metrics` (one device's daily rows
 * for a month), together with the JSON shape the daily row stores in
 * `status_usage_details` and the month reads back with `.get(key, default)`.
 */
module Metrics {
  import opened Results
  import opened Calendar
  import opened Logs
  import opened Tables

  /** Every 5-second log stands for this many seconds of device time. */
  const LogIntervalSeconds: int := 5

  datatype PartitionMetrics = PartitionMetrics(duration: int, totalUsage: real, avgUsagePerSecond: real)

  /** One entry of the `logs` list (`isoformat()` is kept as the timestamp itself). */
  datatype LogEntry = LogEntry(timestamp: Timestamp, status: bool, energyUsage: real)

  datatype DeviceMetrics = DeviceMetrics(
    totalUsage: real,
    avgUsagePerSecond: real,
    uptime: PartitionMetrics,
    downtime: PartitionMetrics,
    logs: seq<LogEntry>)

  /** `usage / seconds if seconds > 0 else 0`: never a division by zero. */
  function GuardedAverage(usage: real, seconds: int): (avg: real)
    ensures seconds > 0 ==> avg * seconds as real == usage
    ensures seconds <= 0 ==> avg == 0.0
  {
    if seconds > 0 then usage / seconds as real else 0.0
  }

  /** The partition's average is its usage per second, or exactly 0 when it lasted 0 s. */
  predicate AverageGuarded(p: PartitionMetrics) {
    && (p.duration > 0 ==> p.avgUsagePerSecond * p.duration as real == p.totalUsage)
    && (p.duration == 0 ==> p.avgUsagePerSecond == 0.0)
  }

  /** Count, energy and guarded average of one status partition. */
  function PartitionOf(logs: seq<DeviceLog>): (p: PartitionMetrics)
    ensures p.duration == LogIntervalSeconds * |logs|
    ensures p.totalUsage == SumDeviceEnergy(logs)
    ensures AverageGuarded(p)
  {
    var seconds := |logs| * LogIntervalSeconds;
    var usage := SumDeviceEnergy(logs);
    PartitionMetrics(seconds, usage, GuardedAverage(usage, seconds))
  }

  function LogEntries(logs: seq<DeviceLog>): (e: seq<LogEntry>)
    ensures |e| == |logs|
    ensures forall i :: 0 <= i < |logs| ==>
              e[i].timestamp == logs[i].createdAt && e[i].status == logs[i].status && e[i].energyUsage == logs[i].energyUsage
  {
    seq(|logs|, i requires 0 <= i < |logs| => LogEntry(logs[i].createdAt, logs[i].status, logs[i].energyUsage))
  }

  /**
   * `calculate_device_metrics`: the uptime and downtime partitions split the
   * day's logs, so their durations add up to 5 s per log and their usages add
   * up to the total; each average is guarded against a zero duration; the
   * whole-day average spreads the total over 86400 s.
   */
  function CalculateDeviceMetrics(logs: seq<DeviceLog>): (m: DeviceMetrics)
    ensures m.totalUsage == SumDeviceEnergy(logs)
    ensures m.avgUsagePerSecond * SecondsPerDay as real == m.totalUsage
    ensures m.uptime.duration == LogIntervalSeconds * |WithStatus(logs, true)|
    ensures m.downtime.duration == LogIntervalSeconds * |WithStatus(logs, false)|
    ensures m.uptime.duration + m.downtime.duration == LogIntervalSeconds * |logs|
    ensures m.uptime.totalUsage == SumDeviceEnergy(WithStatus(logs, true))
    ensures m.downtime.totalUsage == SumDeviceEnergy(WithStatus(logs, false))
    ensures m.uptime.totalUsage + m.downtime.totalUsage == m.totalUsage
    ensures AverageGuarded(m.uptime) && AverageGuarded(m.downtime)
    ensures |m.logs| == |logs|
    ensures forall i :: 0 <= i < |logs| ==>
              m.logs[i].timestamp == logs[i].createdAt && m.logs[i].status == logs[i].status
              && m.logs[i].energyUsage == logs[i].energyUsage
  {
    StatusPartition(logs);
    var total := SumDeviceEnergy(logs);
    DeviceMetrics(
      total,
      total / SecondsPerDay as real,
      PartitionOf(WithStatus(logs, true)),
      PartitionOf(WithStatus(logs, false)),
      LogEntries(logs))
  }

  /** A device that reported "on" in every 5-second slot of a day was up for all 86400 s. */
  lemma FullDayUptime(logs: seq<DeviceLog>)
    requires |logs| * LogIntervalSeconds == SecondsPerDay
    requires forall i :: 0 <= i < |logs| ==> logs[i].status
    ensures CalculateDeviceMetrics(logs).uptime.duration == SecondsPerDay
    ensures CalculateDeviceMetrics(logs).downtime.duration == 0
    ensures CalculateDeviceMetrics(logs).downtime.avgUsagePerSecond == 0.0
  {
    var off := WithStatus(logs, false);
    assert multiset(off) == multiset{} by {
      assert forall l :: l in logs ==> l.status;
      forall l: DeviceLog ensures multiset(off)[l] == 0 { }
    }
    assert |multiset(off)| == 0;
  }

  // ---- the JSON stored in `DeviceLogDaily.status_usage_details` ----

  /**
   * A stored JSON value the monthly job adds to a running total: one Python
   * adds as a number (an integer, a float or a boolean), or anything else
   * (`null`, a string, a list, an object).
   */
  datatype NumberJson = Number(value: real) | NotNumber

  /**
   * The value stored under `uptime` or `downtime`: an object, any of whose
   * keys may be missing, or a value that is not an object at all.
   */
  datatype PartitionJson =
    | PartitionJson(duration: Option<int>, totalUsage: Option<NumberJson>, avgUsagePerSecond: Option<real>)
    | PartitionNotObject

  /** `{}`, the default of `details.get('uptime', {})`. */
  const EmptyPartition: PartitionJson := PartitionJson(None, None, None)

  /**
   * `status_usage_details` as stored: an object, any of whose keys may be
   * missing (`EmptyDetails` is the field's default `{}`), or a value that is
   * not an object at all.
   */
  datatype DetailsJson =
    | DetailsJson(
        totalUsage: Option<real>,
        avgUsagePerSecond: Option<real>,
        uptime: Option<PartitionJson>,
        downtime: Option<PartitionJson>,
        logs: Option<seq<LogEntry>>)
    | DetailsNotObject

  const EmptyDetails: DetailsJson := DetailsJson(None, None, None, None, None)

  /**
   * `details.get('uptime', {})` (or `'downtime'`): `AttributeError` when the
   * details are not an object, else the stored value or `{}`.
   */
  function PartitionRead(d: DetailsJson, up: bool): (r: Result<PartitionJson>)
    ensures r.Err? <==> d.DetailsNotObject?
    ensures r.Err? ==> r.error == AttributeMissing
  {
    match d
    case DetailsNotObject => Err(AttributeMissing)
    case DetailsJson(_, _, uptime, downtime, _) => Ok((if up then uptime else downtime).GetOr(EmptyPartition))
  }

  /** The partition a successful read found. */
  function PartitionOr(r: Result<PartitionJson>): PartitionJson {
    match r
    case Ok(p) => p
    case Err(_) => EmptyPartition
  }

  /**
   * `.get('total_usage', 0)` on a partition, added to a running total:
   * `AttributeError` when the partition is not an object, `TypeError` when
   * the stored usage is not a number, and 0 when the key is missing.
   */
  function UsageRead(p: PartitionJson): (r: Result<real>)
    ensures r.Err? <==> p.PartitionNotObject? || p.totalUsage == Some(NotNumber)
    ensures r.Err? ==> r.error == (if p.PartitionNotObject? then AttributeMissing else TypeMismatch)
    ensures r.Ok? ==> r.value == (match p.totalUsage case Some(Number(x)) => x case _ => 0.0)
  {
    match p
    case PartitionNotObject => Err(AttributeMissing)
    case PartitionJson(_, usage, _) =>
      match usage
      case None => Ok(0.0)
      case Some(Number(x)) => Ok(x)
      case Some(NotNumber) => Err(TypeMismatch)
  }

  /**
   * The two reads one iteration of the monthly loop makes, uptime first:
   * the usages it adds, or the exception the first failing read raises.
   */
  function DetailsRead(d: DetailsJson): Result<(real, real)> {
    match d
    case DetailsNotObject => Err(AttributeMissing)
    case DetailsJson(_, _, _, _, _) =>
      var upUsage :- UsageRead(PartitionOr(PartitionRead(d, true)));
      var downUsage :- UsageRead(PartitionOr(PartitionRead(d, false)));
      Ok((upUsage, downUsage))
  }

  /** The monthly loop reads the row's details without raising. */
  predicate Readable(d: DetailsJson) {
    DetailsRead(d).Ok?
  }

  /** The uptime usage the monthly loop adds for readable details (0 otherwise, never used). */
  function UptimeUsageOf(d: DetailsJson): real {
    match DetailsRead(d)
    case Ok(v) => v.0
    case Err(_) => 0.0
  }

  /** The downtime usage the monthly loop adds for readable details. */
  function DowntimeUsageOf(d: DetailsJson): real {
    match DetailsRead(d)
    case Ok(v) => v.1
    case Err(_) => 0.0
  }

  function PartitionToJson(p: PartitionMetrics): PartitionJson {
    PartitionJson(Some(p.duration), Some(Number(p.totalUsage)), Some(p.avgUsagePerSecond))
  }

  /**
   * The metrics dict saved as `status_usage_details`: the monthly loop reads
   * it back without raising, and gets the partition usages and durations.
   */
  function ToJson(m: DeviceMetrics): (d: DetailsJson)
    ensures DetailsRead(d) == Ok((m.uptime.totalUsage, m.downtime.totalUsage))
    ensures PartitionRead(d, true).Ok? && PartitionRead(d, true).value.duration == Some(m.uptime.duration)
    ensures PartitionRead(d, false).Ok? && PartitionRead(d, false).value.duration == Some(m.downtime.duration)
    ensures d.logs == Some(m.logs)
  {
    DetailsJson(Some(m.totalUsage), Some(m.avgUsagePerSecond),
                Some(PartitionToJson(m.uptime)), Some(PartitionToJson(m.downtime)), Some(m.logs))
  }

  /** The fields of one `DeviceLogDaily` row besides its (device, date) key. */
  datatype DeviceDaily = DeviceDaily(totalEnergyUsage: real, statusUsageDetails: DetailsJson)

  /** The `defaults` the daily pass writes for one device and day. */
  function DailyRowOf(m: DeviceMetrics): DeviceDaily {
    DeviceDaily(m.totalUsage, ToJson(m))
  }

  /** A daily row the monthly loop can read, whose uptime and downtime usages add up to its total. */
  predicate Balanced(d: DeviceDaily) {
    && Readable(d.statusUsageDetails)
    && UptimeUsageOf(d.statusUsageDetails) + DowntimeUsageOf(d.statusUsageDetails) == d.totalEnergyUsage
  }

  /** Every row the daily pass writes is readable and balanced. */
  lemma DailyRowBalanced(logs: seq<DeviceLog>)
    ensures Balanced(DailyRowOf(CalculateDeviceMetrics(logs)))
  {
  }

  // ---- `calculate_monthly_metrics` ----

  /** One entry of `daily_summaries`. */
  datatype DaySummary = DaySummary(totalUsage: real, uptime: PartitionJson, downtime: PartitionJson)

  datatype MonthlyTotals = MonthlyTotals(totalUsage: real, uptimeUsage: real, downtimeUsage: real)

  datatype MonthlyAverages = MonthlyAverages(avgDailyUsage: real, avgDailyUptimeUsage: real, avgDailyDowntimeUsage: real)

  /** The dict `calculate_monthly_metrics` returns; `NoDays` is its `{}`. */
  datatype MonthlyMetrics =
    | NoDays
    | Monthly(dailySummaries: map<Date, DaySummary>, monthlyTotals: MonthlyTotals, monthlyAverages: MonthlyAverages)

  type DailyRow = Row<DayKey, DeviceDaily>

  /** Every row's details can be read by the monthly loop. */
  predicate AllReadable(rows: seq<DailyRow>) {
    forall i :: 0 <= i < |rows| ==> Readable(rows[i].value.statusUsageDetails)
  }

  /**
   * The exception the monthly loop raises at the first row whose details it
   * cannot read, or `None` when it reads them all.
   */
  function FirstReadError(rows: seq<DailyRow>): (e: Option<RunError>)
    ensures e.None? <==> AllReadable(rows)
    ensures e.Some? ==> e.value == AttributeMissing || e.value == TypeMismatch
  {
    if |rows| == 0 then None
    else
      assert forall i :: 0 < i < |rows| ==> rows[1..][i - 1] == rows[i];
      match DetailsRead(rows[0].value.statusUsageDetails)
      case Err(e) => Some(e)
      case Ok(_) => FirstReadError(rows[1..])
  }

  /** The loop raises what the first unreadable row raises. */
  lemma {:induction false} FirstReadErrorAt(rows: seq<DailyRow>, i: int)
    requires 0 <= i < |rows| && !Readable(rows[i].value.statusUsageDetails)
    requires forall j :: 0 <= j < i ==> Readable(rows[j].value.statusUsageDetails)
    ensures FirstReadError(rows) == Some(DetailsRead(rows[i].value.statusUsageDetails).error)
  {
    if i > 0 {
      assert forall j :: 0 <= j < i - 1 ==> rows[1..][j] == rows[j + 1];
      FirstReadErrorAt(rows[1..], i - 1);
    }
  }

  function SumDailyTotals(rows: seq<DailyRow>): real {
    if |rows| == 0 then 0.0
    else SumDailyTotals(rows[..|rows| - 1]) + rows[|rows| - 1].value.totalEnergyUsage
  }

  function SumDailyUptime(rows: seq<DailyRow>): real {
    if |rows| == 0 then 0.0
    else SumDailyUptime(rows[..|rows| - 1]) + UptimeUsageOf(rows[|rows| - 1].value.statusUsageDetails)
  }

  function SumDailyDowntime(rows: seq<DailyRow>): real {
    if |rows| == 0 then 0.0
    else SumDailyDowntime(rows[..|rows| - 1]) + DowntimeUsageOf(rows[|rows| - 1].value.statusUsageDetails)
  }

  /** `{'total_usage': ..., 'uptime': details.get('uptime', {}), 'downtime': ...}` for a readable row. */
  function SummaryOf(d: DeviceDaily): DaySummary {
    var details := d.statusUsageDetails;
    DaySummary(d.totalEnergyUsage, PartitionOr(PartitionRead(details, true)), PartitionOr(PartitionRead(details, false)))
  }

  /**
   * `daily_summaries[str(log.date)] = ...` over the rows in order: one entry
   * per date, taken from the last row with that date.
   */
  function DailySummaries(rows: seq<DailyRow>): (m: map<Date, DaySummary>)
    ensures forall d :: d in m <==> exists i :: 0 <= i < |rows| && rows[i].key.date == d
  {
    if |rows| == 0 then map[]
    else
      var init := rows[..|rows| - 1];
      var last := rows[|rows| - 1];
      var m := DailySummaries(init)[last.key.date := SummaryOf(last.value)];
      assert forall d :: d in m ==> exists i :: 0 <= i < |rows| && rows[i].key.date == d by {
        forall d | d in m
          ensures exists i :: 0 <= i < |rows| && rows[i].key.date == d
        {
          if d != last.key.date {
            var i :| 0 <= i < |init| && init[i].key.date == d;
            assert rows[i] == init[i];
          }
        }
      }
      assert forall i :: 0 <= i < |init| ==> init[i] == rows[i];
      m
  }

  /** The summary stored for a date is the one of the last row with that date. */
  lemma {:induction false} DailySummaryOfLastRow(rows: seq<DailyRow>, i: int)
    requires 0 <= i < |rows|
    requires forall j :: i < j < |rows| ==> rows[j].key.date != rows[i].key.date
    ensures rows[i].key.date in DailySummaries(rows)
    ensures DailySummaries(rows)[rows[i].key.date] == SummaryOf(rows[i].value)
  {
    if i < |rows| - 1 {
      var init := rows[..|rows| - 1];
      assert init[i] == rows[i];
      assert forall j :: i < j < |init| ==> init[j] == rows[j];
      DailySummaryOfLastRow(init, i);
    }
  }

  /**
   * `calculate_monthly_metrics`: `{}` exactly when there are no rows; an
   * exception when some row's details cannot be read (the first such row's);
   * otherwise the three totals are the sums over the rows (a missing
   * uptime/downtime key counts as 0) and each average is its total over the
   * number of rows.
   */
  function CalculateMonthlyMetrics(rows: seq<DailyRow>): (r: Result<MonthlyMetrics>)
    ensures r == Ok(NoDays) <==> |rows| == 0
    ensures r.Err? <==> |rows| > 0 && !AllReadable(rows)
    ensures r.Err? ==> Some(r.error) == FirstReadError(rows)
    ensures r.Ok? && r.value.Monthly? ==>
              && r.value.monthlyTotals == MonthlyTotals(SumDailyTotals(rows), SumDailyUptime(rows), SumDailyDowntime(rows))
              && r.value.monthlyAverages.avgDailyUsage * |rows| as real == r.value.monthlyTotals.totalUsage
              && r.value.monthlyAverages.avgDailyUptimeUsage * |rows| as real == r.value.monthlyTotals.uptimeUsage
              && r.value.monthlyAverages.avgDailyDowntimeUsage * |rows| as real == r.value.monthlyTotals.downtimeUsage
              && (forall d :: d in r.value.dailySummaries <==> exists i :: 0 <= i < |rows| && rows[i].key.date == d)
  {
    var totalDays := |rows|;
    if totalDays == 0 then Ok(NoDays)
    else
      match FirstReadError(rows)
      case Some(e) => Err(e)
      case None =>
        var totals := MonthlyTotals(SumDailyTotals(rows), SumDailyUptime(rows), SumDailyDowntime(rows));
        var days := totalDays as real;
        Ok(Monthly(DailySummaries(rows), totals,
                   MonthlyAverages(totals.totalUsage / days, totals.uptimeUsage / days, totals.downtimeUsage / days)))
  }

  /** When every daily row is balanced, the month's uptime and downtime usages add up to its total. */
  lemma {:induction false} MonthlyBalanced(rows: seq<DailyRow>)
    requires forall i :: 0 <= i < |rows| ==> Balanced(rows[i].value)
    ensures SumDailyUptime(rows) + SumDailyDowntime(rows) == SumDailyTotals(rows)
  {
    if |rows| > 0 {
      var init := rows[..|rows| - 1];
      assert forall i :: 0 <= i < |init| ==> init[i] == rows[i];
      MonthlyBalanced(init);
      assert Balanced(rows[|rows| - 1].value);
    }
  }
}
