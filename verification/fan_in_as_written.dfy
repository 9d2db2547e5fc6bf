/**
 * The fan-in with its grouping key built the way the repository writes it.
 * The loop sets `room = dev_log.device.room.id`, which is already the integer
 * id, and then builds the key as `(room.id, ts)`. An `int` has no `id`
 * attribute, so the first new device log raises `AttributeError`, and the
 * surrounding transaction rolls back. Every log the query returns has its
 * device and room joined, so the first line of the loop body never fails.
 * `FanIn.AggregateDeviceToRoomLogs` models the evident intent, the key
 * `(room.id, ts)` taken on the room object.
 */
module FanInAsWritten {
  import opened Results
  import opened Calendar
  import opened Logs
  import opened LogStore
  import opened Grouping
  import opened FanIn

  /** `aggregate_device_to_room_logs` as written: any new log makes it raise. */
  function AggregateAsWritten(s: Store, now: Timestamp): (r: Result<Store>)
    requires ValidTimestamp(now)
  {
    var cutoff :- Cutoff(s.roomLogs, now);
    var newLogs := NewDeviceLogs(s.deviceLogs, s.devices, s.rooms, cutoff);
    if |newLogs| == 0 then Ok(s) else Err(AttributeMissing)
  }

  /**
   * As written, the job never writes a room log: it succeeds only when there
   * is nothing new, and then leaves the store as it was. Whenever the query
   * returns a log it fails with `AttributeError`.
   */
  lemma AsWrittenNeverWrites(s: Store, now: Timestamp)
    requires ValidTimestamp(now)
    ensures AggregateAsWritten(s, now).Ok? ==> AggregateAsWritten(s, now).value == s
    ensures AggregateAsWritten(s, now).Ok? <==> Cutoff(s.roomLogs, now).Ok? && |NewLogsOf(s, now)| == 0
    ensures Cutoff(s.roomLogs, now).Err? ==> AggregateAsWritten(s, now) == Err(DateOutOfRange)
    ensures Cutoff(s.roomLogs, now).Ok? && |NewLogsOf(s, now)| > 0 ==> AggregateAsWritten(s, now) == Err(AttributeMissing)
  {
    if Cutoff(s.roomLogs, now).Ok? {
      assert NewLogsOf(s, now) == NewDeviceLogs(s.deviceLogs, s.devices, s.rooms, Cutoff(s.roomLogs, now).value);
    }
  }

  /**
   * Whenever the intended job would append a room log, the job as written
   * fails instead.
   */
  lemma AsWrittenLosesRoomLogs(s: Store, now: Timestamp)
    requires ValidTimestamp(now)
    requires AggregateDeviceToRoomLogs(s, now).Ok?
    requires |AggregateDeviceToRoomLogs(s, now).value.roomLogs| > |s.roomLogs|
    ensures AggregateAsWritten(s, now) == Err(AttributeMissing)
  {
    FanInSteps(s, now);
    AsWrittenNeverWrites(s, now);
  }

  /** One room, one device in it, one room log, and one newer device log. */
  const Day := Date(2024, 5, 1)
  const Example := Store(
    rooms := [Room(1, 1)],
    devices := [Device(7, 1)],
    roomLogs := [RoomLog(1, 0.0, Timestamp(Day, 0))],
    deviceLogs := [DeviceLog(7, true, 2.0, Timestamp(Day, 5))],
    roomDaily := [], roomMonthly := [], deviceDaily := [], deviceMonthly := [])

  /**
   * On the example the intended job appends the room log for the new
   * 5-second instant, while the job as written raises `AttributeError` and
   * appends nothing.
   */
  lemma FanInCounterexample()
    ensures ValidTimestamp(Timestamp(Day, 10))
    ensures AggregateDeviceToRoomLogs(Example, Timestamp(Day, 10))
            == Ok(Example.(roomLogs := Example.roomLogs + [RoomLog(1, 2.0, Timestamp(Day, 5))]))
    ensures AggregateAsWritten(Example, Timestamp(Day, 10)) == Err(AttributeMissing)
  {
    var now := Timestamp(Day, 10);
    var cutoff := Timestamp(Day, 0);
    var log := Example.deviceLogs[0];
    assert Cutoff(Example.roomLogs, now) == Ok(cutoff);
    assert DeviceRoom(Example.devices, 7) == Some(1);
    assert Example.rooms[0].id == 1;
    assert Joined(Example.devices, Example.rooms, log);
    assert Example.deviceLogs == [] + [log];
    assert JoinedAfter(Example.deviceLogs, Example.devices, Example.rooms, cutoff) == [log];
    assert SortByTime([log]) == [log];
    var newLogs := NewDeviceLogs(Example.deviceLogs, Example.devices, Example.rooms, cutoff);
    assert newLogs == [log];
    var entries := [Entry(GroupKey(1, Timestamp(Day, 5)), 2.0)];
    assert Resolve(Example.devices, newLogs) == entries;
    assert Grouped(entries) == [Group(GroupKey(1, Timestamp(Day, 5)), 0.0 + 2.0)];
    var g := Group(GroupKey(1, Timestamp(Day, 5)), 0.0 + 2.0);
    assert GroupKey(1, Timestamp(Day, 5)) !in RoomLogKeys(Example.roomLogs);
    assert CreateMissing(Example.roomLogs, [g]) == CreateMissing(Example.roomLogs + [RoomLogOf(g)], []);
    assert RoomLogOf(g) == RoomLog(1, 2.0, Timestamp(Day, 5));
  }

}
