/**
 * The part of the database the rollup jobs read and write: the rooms and
 * devices, the two 5-second log tables, and the four summary tables
 * (`RoomLogDaily`, `RoomLogMonthly`, `DeviceLogDaily`, `DeviceLogMonthly`)
 * with their (entity, date) and (entity, month, year) lookup keys.
 */
module LogStore {
  import opened Calendar
  import opened Tables
  import opened Logs
  import opened Metrics

  datatype Room = Room(id: RoomId, smartHome: int)

  /** A device and the room it is installed in (`Device.room` is a required foreign key). */
  datatype Device = Device(id: DeviceId, room: RoomId)

  /** The fields of one `DeviceLogMonthly` row besides its key. */
  datatype DeviceMonthly = DeviceMonthly(totalEnergyUsage: real, dailySummaries: MonthlyMetrics)

  datatype Store = Store(
    rooms: seq<Room>,
    devices: seq<Device>,
    roomLogs: seq<RoomLog>,
    deviceLogs: seq<DeviceLog>,
    roomDaily: seq<Row<DayKey, real>>,
    roomMonthly: seq<Row<MonthKey, real>>,
    deviceDaily: seq<Row<DayKey, DeviceDaily>>,
    deviceMonthly: seq<Row<MonthKey, DeviceMonthly>>)

  /** No summary table holds two rows for one key. */
  ghost predicate SummariesUnique(s: Store) {
    && UniqueKeys(s.roomDaily)
    && UniqueKeys(s.roomMonthly)
    && UniqueKeys(s.deviceDaily)
    && UniqueKeys(s.deviceMonthly)
  }

  /** `filter(<entity>=entity, date__gte=first, date__lte=last)` on a daily summary table. */
  function DailyRowsBetween<V(!new)>(t: seq<Row<DayKey, V>>, entity: int, first: Date, last: Date): (r: seq<Row<DayKey, V>>)
    ensures forall x :: multiset(r)[x] ==
              if x.key.entity == entity && NotAfter(first, x.key.date) && NotAfter(x.key.date, last)
              then multiset(t)[x] else 0
  {
    if |t| == 0 then []
    else
      assert t == [t[0]] + t[1..];
      var x := t[0];
      (if x.key.entity == entity && NotAfter(first, x.key.date) && NotAfter(x.key.date, last) then [x] else [])
      + DailyRowsBetween(t[1..], entity, first, last)
  }

  /** `Sum('total_energy_usage') or 0` over room daily rows. */
  function SumRoomDaily(rows: seq<Row<DayKey, real>>): real {
    if |rows| == 0 then 0.0 else rows[0].value + SumRoomDaily(rows[1..])
  }
}
