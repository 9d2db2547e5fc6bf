/**
 * The 5-second log tables (`DeviceLog5Sec`, `RoomLog5Sec`), the queryset
 * filters the rollups apply to them, and the `Sum('energy_usage')`
 * aggregates. A table is a sequence of rows in creation order.
 */
module Logs {
  import opened Calendar

  type RoomId = int
  type DeviceId = int

  /** One `DeviceLog5Sec` row: a device's status and energy at one instant. */
  datatype DeviceLog = DeviceLog(device: DeviceId, status: bool, energyUsage: real, createdAt: Timestamp)

  /** One `RoomLog5Sec` row. */
  datatype RoomLog = RoomLog(room: RoomId, energyUsage: real, createdAt: Timestamp)

  /** The lookup key of a daily summary row: one room or device on one date. */
  datatype DayKey = DayKey(entity: int, date: Date)

  /** The lookup key of a monthly summary row: one room or device in one month. */
  datatype MonthKey = MonthKey(entity: int, month: int, year: int)

  /** `Sum('energy_usage') or 0` over device logs. */
  function SumDeviceEnergy(logs: seq<DeviceLog>): real {
    if |logs| == 0 then 0.0 else logs[0].energyUsage + SumDeviceEnergy(logs[1..])
  }

  /** `Sum('energy_usage') or 0` over room logs. */
  function SumRoomEnergy(logs: seq<RoomLog>): real {
    if |logs| == 0 then 0.0 else logs[0].energyUsage + SumRoomEnergy(logs[1..])
  }

  lemma {:induction false} SumDeviceEnergyAppend(a: seq<DeviceLog>, b: seq<DeviceLog>)
    ensures SumDeviceEnergy(a + b) == SumDeviceEnergy(a) + SumDeviceEnergy(b)
  {
    if |a| > 0 {
      assert (a + b)[1..] == a[1..] + b;
      SumDeviceEnergyAppend(a[1..], b);
    } else {
      assert a + b == b;
    }
  }

  /** `logs.filter(status=on)`: exactly the rows with that status, in order. */
  function WithStatus(logs: seq<DeviceLog>, on: bool): (r: seq<DeviceLog>)
    ensures forall l :: multiset(r)[l] == if l.status == on then multiset(logs)[l] else 0
    ensures |r| <= |logs|
  {
    if |logs| == 0 then []
    else
      assert logs == [logs[0]] + logs[1..];
      (if logs[0].status == on then [logs[0]] else []) + WithStatus(logs[1..], on)
  }

  /**
   * The uptime (`status=True`) and downtime (`status=False`) rows split the
   * logs: together they are the whole input, and their counts and energy sums
   * add up to the whole input's.
   */
  lemma StatusPartition(logs: seq<DeviceLog>)
    ensures multiset(WithStatus(logs, true)) + multiset(WithStatus(logs, false)) == multiset(logs)
    ensures |WithStatus(logs, true)| + |WithStatus(logs, false)| == |logs|
    ensures SumDeviceEnergy(WithStatus(logs, true)) + SumDeviceEnergy(WithStatus(logs, false))
            == SumDeviceEnergy(logs)
  {
    var up := multiset(WithStatus(logs, true));
    var down := multiset(WithStatus(logs, false));
    assert up + down == multiset(logs) by {
      forall l ensures (up + down)[l] == multiset(logs)[l] { }
    }
    assert |up + down| == |up| + |down|;
    StatusSum(logs);
  }

  lemma {:induction false} StatusSum(logs: seq<DeviceLog>)
    ensures SumDeviceEnergy(WithStatus(logs, true)) + SumDeviceEnergy(WithStatus(logs, false))
            == SumDeviceEnergy(logs)
  {
    if |logs| > 0 {
      var rest := logs[1..];
      StatusSum(rest);
      var head := if logs[0].status then [logs[0]] else [];
      var tail := if logs[0].status then [] else [logs[0]];
      assert WithStatus(logs, true) == head + WithStatus(rest, true);
      assert WithStatus(logs, false) == tail + WithStatus(rest, false);
      SumDeviceEnergyAppend(head, WithStatus(rest, true));
      SumDeviceEnergyAppend(tail, WithStatus(rest, false));
    }
  }

  /** Every log is at or after the one before it: the order `order_by('created_at')` returns. */
  predicate SortedByTime(logs: seq<DeviceLog>) {
    forall i, j :: 0 <= i < j < |logs| ==> !TimestampBefore(logs[j].createdAt, logs[i].createdAt)
  }

  /** Puts `l` into a time-ordered batch, after every log that is not later than it. */
  function InsertByTime(l: DeviceLog, sorted: seq<DeviceLog>): (r: seq<DeviceLog>)
    requires SortedByTime(sorted)
    ensures multiset(r) == multiset(sorted) + multiset{l}
    ensures SortedByTime(r)
  {
    if |sorted| == 0 then [l]
    else if TimestampBefore(l.createdAt, sorted[0].createdAt) then
      EarlierGoesFirst(l, sorted);
      [l] + sorted
    else
      var tail := sorted[1..];
      assert SortedByTime(tail);
      var rest := InsertByTime(l, tail);
      assert sorted == [sorted[0]] + tail;
      HeadStaysFirst(sorted, l, rest);
      [sorted[0]] + rest
  }

  /** A log earlier than the first of a time-ordered batch can go in front of it. */
  lemma EarlierGoesFirst(l: DeviceLog, sorted: seq<DeviceLog>)
    requires SortedByTime(sorted) && |sorted| > 0
    requires TimestampBefore(l.createdAt, sorted[0].createdAt)
    ensures SortedByTime([l] + sorted)
  {
    forall j | 0 <= j < |sorted| ensures !TimestampBefore(sorted[j].createdAt, l.createdAt) {
      if j > 0 { assert !TimestampBefore(sorted[j].createdAt, sorted[0].createdAt); }
    }
    var r := [l] + sorted;
    forall i, j | 0 <= i < j < |r| ensures !TimestampBefore(r[j].createdAt, r[i].createdAt) {
      assert r[j] == sorted[j - 1];
    }
  }

  /**
   * The first log of a time-ordered batch stays first when a log not earlier
   * than it is inserted into the rest.
   */
  lemma HeadStaysFirst(sorted: seq<DeviceLog>, l: DeviceLog, rest: seq<DeviceLog>)
    requires SortedByTime(sorted) && |sorted| > 0
    requires !TimestampBefore(l.createdAt, sorted[0].createdAt)
    requires multiset(rest) == multiset(sorted[1..]) + multiset{l} && SortedByTime(rest)
    ensures SortedByTime([sorted[0]] + rest)
  {
    var tail := sorted[1..];
    forall j | 0 <= j < |rest| ensures !TimestampBefore(rest[j].createdAt, sorted[0].createdAt) {
      assert rest[j] in multiset(rest);
      if rest[j] != l {
        assert rest[j] in multiset(tail);
        var k :| 0 <= k < |tail| && tail[k] == rest[j];
        assert sorted[k + 1] == rest[j];
      }
    }
    var r := [sorted[0]] + rest;
    forall i, j | 0 <= i < j < |r| ensures !TimestampBefore(r[j].createdAt, r[i].createdAt) {
      assert r[j] == rest[j - 1];
      if i > 0 { assert r[i] == rest[i - 1]; }
    }
  }

  /**
   * `order_by('created_at')` on a batch of logs: the same logs, oldest first.
   * Logs with the same instant keep their table order.
   */
  function SortByTime(logs: seq<DeviceLog>): (r: seq<DeviceLog>)
    ensures multiset(r) == multiset(logs)
    ensures SortedByTime(r)
  {
    if |logs| == 0 then []
    else
      var init := logs[..|logs| - 1];
      assert logs == init + [logs[|logs| - 1]];
      InsertByTime(logs[|logs| - 1], SortByTime(init))
  }

  /** `DeviceLog5Sec.objects.filter(device=device, created_at__date=day)`, in table order. */
  function DeviceDayLogs(logs: seq<DeviceLog>, device: DeviceId, day: Date): (r: seq<DeviceLog>)
    ensures forall l :: multiset(r)[l] ==
              if l.device == device && l.createdAt.date == day then multiset(logs)[l] else 0
  {
    if |logs| == 0 then []
    else
      assert logs == [logs[0]] + logs[1..];
      (if logs[0].device == device && logs[0].createdAt.date == day then [logs[0]] else [])
      + DeviceDayLogs(logs[1..], device, day)
  }

  /**
   * The day's logs of a device with `.order_by('created_at')`: exactly the
   * device's logs of that day, oldest first.
   */
  function DeviceLogsOn(logs: seq<DeviceLog>, device: DeviceId, day: Date): (r: seq<DeviceLog>)
    ensures forall l :: multiset(r)[l] ==
              if l.device == device && l.createdAt.date == day then multiset(logs)[l] else 0
    ensures SortedByTime(r)
  {
    SortByTime(DeviceDayLogs(logs, device, day))
  }

  /** `RoomLog5Sec.objects.filter(room=room, created_at__date=day)`. */
  function RoomLogsOn(logs: seq<RoomLog>, room: RoomId, day: Date): (r: seq<RoomLog>)
    ensures forall l :: multiset(r)[l] ==
              if l.room == room && l.createdAt.date == day then multiset(logs)[l] else 0
  {
    if |logs| == 0 then []
    else
      assert logs == [logs[0]] + logs[1..];
      (if logs[0].room == room && logs[0].createdAt.date == day then [logs[0]] else [])
      + RoomLogsOn(logs[1..], room, day)
  }
}
