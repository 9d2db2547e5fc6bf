/**
 * `aggregate_device_to_room_logs`: the fan-in from device logs to room logs.
 * Device logs newer than the newest room log (or, with no room logs, newer
 * than 30 days before now) are grouped by (room, exact timestamp), and each
 * group becomes one new `RoomLog5Sec` row with the group's summed energy,
 * unless a room log for that room and instant already exists.
 */
module FanIn {
  import opened Results
  import opened Calendar
  import opened Logs
  import opened LogStore
  import opened Grouping

  /** How far back the first run looks when there are no room logs yet (`timedelta(days=30)`). */
  const LookBackDays := 30

  /** Python's `a <= b` on datetimes. */
  predicate AtOrBefore(a: Timestamp, b: Timestamp) {
    !TimestampBefore(b, a)
  }

  /** `RoomLog5Sec.objects.order_by('-created_at').first().created_at`. */
  function Newest(logs: seq<RoomLog>): (t: Timestamp)
    requires |logs| > 0
    ensures exists i :: 0 <= i < |logs| && logs[i].createdAt == t
    ensures forall i :: 0 <= i < |logs| ==> AtOrBefore(logs[i].createdAt, t)
  {
    if |logs| == 1 then logs[0].createdAt
    else
      var rest := Newest(logs[1..]);
      assert forall i :: 0 < i < |logs| ==> logs[1..][i - 1] == logs[i];
      if TimestampBefore(logs[0].createdAt, rest) then rest else logs[0].createdAt
  }

  /** The instant after which device logs count as new. */
  function Cutoff(roomLogs: seq<RoomLog>, now: Timestamp): (r: Result<Timestamp>)
    requires ValidTimestamp(now)
    ensures r.Err? <==> |roomLogs| == 0 && Ordinal(now.date) <= LookBackDays
    ensures r.Err? ==> r.error == DateOutOfRange
    ensures r.Ok? && |roomLogs| > 0 ==> r.value == Newest(roomLogs)
    ensures r.Ok? && |roomLogs| == 0 ==>
              && ValidTimestamp(r.value) && r.value.second == now.second
              && Ordinal(r.value.date) == Ordinal(now.date) - LookBackDays
  {
    if |roomLogs| > 0 then Ok(Newest(roomLogs))
    else
      match TimestampSubDays(now, LookBackDays)
      case None => Err(DateOutOfRange)
      case Some(t) => Ok(t)
  }

  /**
   * `DeviceLog5Sec.objects.filter(created_at__gt=cutoff)` with
   * `select_related('device__room')`, in table order: the logs after the
   * cutoff whose device and room rows join.
   */
  function JoinedAfter(logs: seq<DeviceLog>, devices: seq<Device>, rooms: seq<Room>, cutoff: Timestamp): (r: seq<DeviceLog>)
    ensures forall l :: multiset(r)[l] ==
              if TimestampBefore(cutoff, l.createdAt) && Joined(devices, rooms, l) then multiset(logs)[l] else 0
  {
    if |logs| == 0 then []
    else
      var init := logs[..|logs| - 1];
      var last := logs[|logs| - 1];
      assert logs == init + [last];
      JoinedAfter(init, devices, rooms, cutoff)
      + (if TimestampBefore(cutoff, last.createdAt) && Joined(devices, rooms, last) then [last] else [])
  }

  /** The same query with `.order_by('created_at')`: the new joined logs, oldest first. */
  function NewDeviceLogs(logs: seq<DeviceLog>, devices: seq<Device>, rooms: seq<Room>, cutoff: Timestamp): (r: seq<DeviceLog>)
    ensures forall l :: multiset(r)[l] ==
              if TimestampBefore(cutoff, l.createdAt) && Joined(devices, rooms, l) then multiset(logs)[l] else 0
    ensures SortedByTime(r)
  {
    SortByTime(JoinedAfter(logs, devices, rooms, cutoff))
  }

  /** Every new device log is a stored device log stamped after the cutoff, whose device and room are stored. */
  lemma NewDeviceLogAt(logs: seq<DeviceLog>, devices: seq<Device>, rooms: seq<Room>, cutoff: Timestamp, i: int)
    requires 0 <= i < |NewDeviceLogs(logs, devices, rooms, cutoff)|
    ensures TimestampBefore(cutoff, NewDeviceLogs(logs, devices, rooms, cutoff)[i].createdAt)
    ensures Joined(devices, rooms, NewDeviceLogs(logs, devices, rooms, cutoff)[i])
    ensures KnownDevice(devices, NewDeviceLogs(logs, devices, rooms, cutoff)[i])
    ensures NewDeviceLogs(logs, devices, rooms, cutoff)[i] in logs
  {
    assert NewDeviceLogs(logs, devices, rooms, cutoff)[i] in multiset(NewDeviceLogs(logs, devices, rooms, cutoff));
  }

  /** Every log of a batch names a stored device. */
  predicate AllKnown(devices: seq<Device>, logs: seq<DeviceLog>) {
    forall i :: 0 <= i < |logs| ==> KnownDevice(devices, logs[i])
  }

  lemma NewDeviceLogsKnown(logs: seq<DeviceLog>, devices: seq<Device>, rooms: seq<Room>, cutoff: Timestamp)
    ensures AllKnown(devices, NewDeviceLogs(logs, devices, rooms, cutoff))
  {
    forall i | 0 <= i < |NewDeviceLogs(logs, devices, rooms, cutoff)|
      ensures KnownDevice(devices, NewDeviceLogs(logs, devices, rooms, cutoff)[i])
    {
      NewDeviceLogAt(logs, devices, rooms, cutoff, i);
    }
  }

  /** With no joined log after the cutoff, the query returns nothing. */
  lemma NewDeviceLogsEmpty(logs: seq<DeviceLog>, devices: seq<Device>, rooms: seq<Room>, cutoff: Timestamp)
    requires forall l :: l in logs && Joined(devices, rooms, l) ==> !TimestampBefore(cutoff, l.createdAt)
    ensures NewDeviceLogs(logs, devices, rooms, cutoff) == []
  {
    var r := NewDeviceLogs(logs, devices, rooms, cutoff);
    assert multiset(r) == multiset{} by {
      forall x ensures multiset(r)[x] == 0 {
        if multiset(logs)[x] > 0 {
          assert x in logs;
        }
      }
    }
    assert |multiset(r)| == 0;
  }

  /** A log that does not join adds nothing to the query's result. */
  lemma NewDeviceLogsSkip(logs: seq<DeviceLog>, devices: seq<Device>, rooms: seq<Room>, cutoff: Timestamp, l: DeviceLog)
    requires !Joined(devices, rooms, l)
    ensures NewDeviceLogs(logs + [l], devices, rooms, cutoff) == NewDeviceLogs(logs, devices, rooms, cutoff)
  {
    JoinedAfterSkip(logs, devices, rooms, cutoff, l);
  }

  lemma JoinedAfterSkip(logs: seq<DeviceLog>, devices: seq<Device>, rooms: seq<Room>, cutoff: Timestamp, l: DeviceLog)
    requires !Joined(devices, rooms, l)
    ensures JoinedAfter(logs + [l], devices, rooms, cutoff) == JoinedAfter(logs, devices, rooms, cutoff)
  {
    var all := logs + [l];
    assert all[..|all| - 1] == logs;
    assert all[|all| - 1] == l;
  }

  /** The identity of a room log: its room and instant. */
  function RoomLogKey(l: RoomLog): GroupKey {
    GroupKey(l.room, l.createdAt)
  }

  /** The keys of a room log table, in order. */
  function RoomLogKeys(table: seq<RoomLog>): (ks: seq<GroupKey>)
    ensures |ks| == |table| && forall i :: 0 <= i < |table| ==> ks[i] == RoomLogKey(table[i])
  {
    seq(|table|, i requires 0 <= i < |table| => RoomLogKey(table[i]))
  }

  /** No two room logs share a room and an instant. */
  predicate UniqueRoomInstants(table: seq<RoomLog>) {
    forall i, j :: 0 <= i < j < |table| ==> RoomLogKey(table[i]) != RoomLogKey(table[j])
  }

  /** The room log a group becomes. */
  function RoomLogOf(g: Group): RoomLog {
    RoomLog(g.key.room, g.total, g.key.at)
  }

  /**
   * The creation loop: each group, in order, is created as a room log unless
   * one already exists for its room and instant, counting those created by
   * earlier iterations.
   */
  function CreateMissing(table: seq<RoomLog>, groups: seq<Group>): seq<RoomLog>
    decreases |groups|
  {
    if |groups| == 0 then table
    else
      var g := groups[0];
      var next := if g.key in RoomLogKeys(table) then table else table + [RoomLogOf(g)];
      CreateMissing(next, groups[1..])
  }

  /**
   * The loop only appends; afterwards every group's key has a room log, and
   * every key with a room log either had one before or is a group's key.
   */
  lemma {:induction false} CreateMissingKeys(table: seq<RoomLog>, groups: seq<Group>)
    ensures |table| <= |CreateMissing(table, groups)|
    ensures CreateMissing(table, groups)[..|table|] == table
    ensures forall k :: k in RoomLogKeys(CreateMissing(table, groups)) <==> k in RoomLogKeys(table) || k in GroupKeys(groups)
    decreases |groups|
  {
    if |groups| > 0 {
      var g := groups[0];
      var next := if g.key in RoomLogKeys(table) then table else table + [RoomLogOf(g)];
      CreateMissingKeys(next, groups[1..]);
      assert RoomLogKeys(table + [RoomLogOf(g)]) == RoomLogKeys(table) + [g.key];
      assert GroupKeys(groups) == [g.key] + GroupKeys(groups[1..]);
      assert CreateMissing(table, groups)[..|next|][..|table|] == next[..|table|];
    }
  }

  /** The creation loop never gives a room and an instant a second log. */
  lemma {:induction false} CreateMissingUnique(table: seq<RoomLog>, groups: seq<Group>)
    requires UniqueRoomInstants(table)
    ensures UniqueRoomInstants(CreateMissing(table, groups))
    decreases |groups|
  {
    if |groups| > 0 {
      var g := groups[0];
      var next := if g.key in RoomLogKeys(table) then table else table + [RoomLogOf(g)];
      assert UniqueRoomInstants(next) by {
        if g.key !in RoomLogKeys(table) {
          assert forall i :: 0 <= i < |table| ==> RoomLogKey(table[i]) != g.key by {
            forall i | 0 <= i < |table| ensures RoomLogKey(table[i]) != g.key {
              assert RoomLogKeys(table)[i] == RoomLogKey(table[i]);
            }
          }
        }
      }
      CreateMissingUnique(next, groups[1..]);
    }
  }

  /** With distinct group keys, a group whose key had no room log is created with its own total. */
  lemma {:induction false} CreateMissingCreates(table: seq<RoomLog>, groups: seq<Group>)
    requires DistinctKeys(groups)
    ensures forall g :: g in groups && g.key !in RoomLogKeys(table) ==> RoomLogOf(g) in CreateMissing(table, groups)
    decreases |groups|
  {
    if |groups| > 0 {
      var g := groups[0];
      var tail := groups[1..];
      var next := if g.key in RoomLogKeys(table) then table else table + [RoomLogOf(g)];
      assert DistinctKeys(tail);
      CreateMissingCreates(next, tail);
      CreateMissingKeys(next, tail);
      assert RoomLogKeys(table + [RoomLogOf(g)]) == RoomLogKeys(table) + [g.key];
      assert forall h :: h in tail ==> h.key != g.key by {
        forall h | h in tail ensures h.key != g.key {
          var j :| 0 <= j < |tail| && tail[j] == h;
          assert groups[j + 1] == h;
        }
      }
      if g.key !in RoomLogKeys(table) {
        assert CreateMissing(table, groups)[..|next|][|table|] == RoomLogOf(g);
      }
    }
  }

  /** Every row the loop appends is the row of a group whose key had no room log. */
  lemma {:induction false} CreateMissingAppended(table: seq<RoomLog>, groups: seq<Group>)
    ensures forall i :: |table| <= i < |CreateMissing(table, groups)| ==>
              exists g :: g in groups && g.key !in RoomLogKeys(table) && CreateMissing(table, groups)[i] == RoomLogOf(g)
    decreases |groups|
  {
    if |groups| > 0 {
      var g := groups[0];
      var tail := groups[1..];
      var next := if g.key in RoomLogKeys(table) then table else table + [RoomLogOf(g)];
      var r := CreateMissing(table, groups);
      assert r == CreateMissing(next, tail);
      CreateMissingAppended(next, tail);
      CreateMissingKeys(next, tail);
      assert RoomLogKeys(table + [RoomLogOf(g)]) == RoomLogKeys(table) + [g.key];
      assert groups[0] in groups;
      forall i | |table| <= i < |CreateMissing(table, groups)|
        ensures exists h :: h in groups && h.key !in RoomLogKeys(table) && CreateMissing(table, groups)[i] == RoomLogOf(h)
      {
        if i >= |next| {
          var h :| h in tail && h.key !in RoomLogKeys(next) && r[i] == RoomLogOf(h);
          assert h in groups;
        } else {
          assert next != table && i == |table|;
          assert r[..|next|][i] == next[i] == RoomLogOf(g);
          assert g in groups && g.key !in RoomLogKeys(table) && r[i] == RoomLogOf(g);
        }
      }
    } else {
      assert CreateMissing(table, groups) == table;
    }
  }

  /** The total energy of the logs of devices in room `k.room` stamped exactly `k.at`. */
  function RoomEnergyAt(devices: seq<Device>, logs: seq<DeviceLog>, k: GroupKey): real {
    if |logs| == 0 then 0.0
    else
      var last := logs[|logs| - 1];
      RoomEnergyAt(devices, logs[..|logs| - 1], k)
      + (if last.createdAt == k.at && DeviceRoom(devices, last.device) == Some(k.room) then last.energyUsage else 0.0)
  }

  /** Grouping the resolved entries sums exactly the logs of the key's room and instant. */
  lemma {:induction false} ResolvedTotals(devices: seq<Device>, logs: seq<DeviceLog>, entries: seq<Entry>, k: GroupKey)
    requires |entries| == |logs|
    requires forall i :: 0 <= i < |logs| ==>
               KnownDevice(devices, logs[i]) && entries[i] == Entry(LogKey(devices, logs[i]), logs[i].energyUsage)
    ensures KeyTotal(entries, k) == RoomEnergyAt(devices, logs, k)
  {
    if |logs| > 0 {
      ResolvedTotals(devices, logs[..|logs| - 1], entries[..|entries| - 1], k);
    }
  }

  /** The creation loop over the groups of a batch of resolved logs. */
  function FanInPass(table: seq<RoomLog>, devices: seq<Device>, logs: seq<DeviceLog>): seq<RoomLog>
    requires AllKnown(devices, logs)
  {
    CreateMissing(table, Grouped(Resolve(devices, logs)))
  }

  /** After a pass every log's key has a room log, and every room log's key was there before or is a log's. */
  lemma FanInPassCovers(table: seq<RoomLog>, devices: seq<Device>, logs: seq<DeviceLog>)
    requires AllKnown(devices, logs)
    ensures forall i :: 0 <= i < |logs| ==> KnownDevice(devices, logs[i]) && LogKey(devices, logs[i]) in RoomLogKeys(FanInPass(table, devices, logs))
    ensures forall k :: k in RoomLogKeys(FanInPass(table, devices, logs)) ==>
              (k in RoomLogKeys(table) || exists i :: 0 <= i < |logs| && KnownDevice(devices, logs[i]) && k == LogKey(devices, logs[i]))
  {
    var entries := Resolve(devices, logs);
    var groups := Grouped(entries);
    GroupedFacts(entries);
    CreateMissingKeys(table, groups);
    forall i | 0 <= i < |logs|
      ensures KnownDevice(devices, logs[i]) && LogKey(devices, logs[i]) in RoomLogKeys(FanInPass(table, devices, logs))
    {
      assert EntryKeys(entries)[i] == entries[i].key;
    }
    forall k | k in RoomLogKeys(FanInPass(table, devices, logs)) && k !in RoomLogKeys(table)
      ensures exists i :: 0 <= i < |logs| && KnownDevice(devices, logs[i]) && k == LogKey(devices, logs[i])
    {
      var i :| 0 <= i < |entries| && EntryKeys(entries)[i] == k;
    }
  }

  /**
   * After a pass a key that had no room log gets one holding the summed
   * energy of the logs of that room and instant, and every appended row is
   * of that kind.
   */
  lemma FanInPassTotals(table: seq<RoomLog>, devices: seq<Device>, logs: seq<DeviceLog>)
    requires AllKnown(devices, logs)
    ensures forall i :: 0 <= i < |logs| ==>
              (&& KnownDevice(devices, logs[i])
               && (LogKey(devices, logs[i]) !in RoomLogKeys(table) ==>
                     var k := LogKey(devices, logs[i]);
                     RoomLog(k.room, RoomEnergyAt(devices, logs, k), k.at) in FanInPass(table, devices, logs)))
    ensures forall j :: |table| <= j < |FanInPass(table, devices, logs)| ==>
              && RoomLogKey(FanInPass(table, devices, logs)[j]) !in RoomLogKeys(table)
              && FanInPass(table, devices, logs)[j].energyUsage == RoomEnergyAt(devices, logs, RoomLogKey(FanInPass(table, devices, logs)[j]))
  {
    var entries := Resolve(devices, logs);
    var groups := Grouped(entries);
    var out := FanInPass(table, devices, logs);
    GroupedFacts(entries);
    CreateMissingCreates(table, groups);
    CreateMissingAppended(table, groups);
    forall k | k in GroupKeys(groups)
      ensures KeyTotal(entries, k) == RoomEnergyAt(devices, logs, k)
    {
      ResolvedTotals(devices, logs, entries, k);
    }
    forall i | 0 <= i < |logs| && LogKey(devices, logs[i]) !in RoomLogKeys(table)
      ensures var k := LogKey(devices, logs[i]);
              RoomLog(k.room, RoomEnergyAt(devices, logs, k), k.at) in out
    {
      var k := LogKey(devices, logs[i]);
      assert EntryKeys(entries)[i] == k;
      assert k in GroupKeys(groups);
      var j :| 0 <= j < |groups| && GroupKeys(groups)[j] == k;
      assert groups[j] in groups;
    }
    forall j | |table| <= j < |out|
      ensures RoomLogKey(out[j]) !in RoomLogKeys(table)
      ensures out[j].energyUsage == RoomEnergyAt(devices, logs, RoomLogKey(out[j]))
    {
      var g :| g in groups && g.key !in RoomLogKeys(table) && out[j] == RoomLogOf(g);
      var m :| 0 <= m < |groups| && groups[m] == g;
      assert GroupKeys(groups)[m] == g.key;
    }
  }

  /**
   * `aggregate_device_to_room_logs` run at instant `now`, with the grouping
   * key built from the room's id as the evident intent is. It fails only
   * when the first run's look-back leaves the calendar, and it changes only
   * the room log table.
   */
  function AggregateDeviceToRoomLogs(s: Store, now: Timestamp): (r: Result<Store>)
    requires ValidTimestamp(now)
    ensures r.Err? <==> |s.roomLogs| == 0 && Ordinal(now.date) <= LookBackDays
    ensures r.Err? ==> r.error == DateOutOfRange
    ensures r.Ok? ==> r.value == s.(roomLogs := r.value.roomLogs)
  {
    var cutoff :- Cutoff(s.roomLogs, now);
    var newLogs := NewDeviceLogs(s.deviceLogs, s.devices, s.rooms, cutoff);
    if |newLogs| == 0 then Ok(s)
    else
      NewDeviceLogsKnown(s.deviceLogs, s.devices, s.rooms, cutoff);
      Ok(s.(roomLogs := CreateMissing(s.roomLogs, Grouped(Resolve(s.devices, newLogs)))))
  }

  /** The new device logs of a run that got past the cutoff. */
  function NewLogsOf(s: Store, now: Timestamp): seq<DeviceLog>
    requires ValidTimestamp(now) && Cutoff(s.roomLogs, now).Ok?
  {
    NewDeviceLogs(s.deviceLogs, s.devices, s.rooms, Cutoff(s.roomLogs, now).value)
  }

  /** A successful run is one pass over the new device logs. */
  lemma FanInSteps(s: Store, now: Timestamp)
    requires ValidTimestamp(now) && AggregateDeviceToRoomLogs(s, now).Ok?
    ensures Cutoff(s.roomLogs, now).Ok?
    ensures AllKnown(s.devices, NewLogsOf(s, now))
    ensures AggregateDeviceToRoomLogs(s, now).value.roomLogs == FanInPass(s.roomLogs, s.devices, NewLogsOf(s, now))
  {
    var newLogs := NewLogsOf(s, now);
    NewDeviceLogsKnown(s.deviceLogs, s.devices, s.rooms, Cutoff(s.roomLogs, now).value);
    if |newLogs| == 0 {
      assert Resolve(s.devices, newLogs) == [];
      assert FanInPass(s.roomLogs, s.devices, newLogs) == s.roomLogs;
    }
  }

  /**
   * A device log whose device or room row is missing never reaches the
   * grouping loop: adding one to the store changes neither whether a run
   * succeeds nor the room logs it leaves.
   */
  lemma FanInSkipsUnjoined(s: Store, now: Timestamp, l: DeviceLog)
    requires ValidTimestamp(now) && !Joined(s.devices, s.rooms, l)
    ensures var more := s.(deviceLogs := s.deviceLogs + [l]);
            && AggregateDeviceToRoomLogs(more, now).Ok? == AggregateDeviceToRoomLogs(s, now).Ok?
            && (AggregateDeviceToRoomLogs(s, now).Ok? ==>
                  AggregateDeviceToRoomLogs(more, now).value.roomLogs == AggregateDeviceToRoomLogs(s, now).value.roomLogs)
  {
    if Cutoff(s.roomLogs, now).Ok? {
      NewDeviceLogsSkip(s.deviceLogs, s.devices, s.rooms, Cutoff(s.roomLogs, now).value, l);
    }
  }

  /** A successful run keeps the old room logs as a prefix and never gives a room and an instant a second log. */
  lemma FanInKeeps(s: Store, now: Timestamp)
    requires ValidTimestamp(now) && AggregateDeviceToRoomLogs(s, now).Ok?
    ensures var out := AggregateDeviceToRoomLogs(s, now).value.roomLogs;
            && |s.roomLogs| <= |out| && out[..|s.roomLogs|] == s.roomLogs
            && (UniqueRoomInstants(s.roomLogs) ==> UniqueRoomInstants(out))
  {
    FanInSteps(s, now);
    var groups := Grouped(Resolve(s.devices, NewLogsOf(s, now)));
    CreateMissingKeys(s.roomLogs, groups);
    if UniqueRoomInstants(s.roomLogs) {
      CreateMissingUnique(s.roomLogs, groups);
    }
  }

  /**
   * After a successful run every new device log's room and instant has a
   * room log, and every room log's room and instant either had one before
   * or is a new device log's.
   */
  lemma FanInCovers(s: Store, now: Timestamp)
    requires ValidTimestamp(now) && AggregateDeviceToRoomLogs(s, now).Ok?
    ensures Cutoff(s.roomLogs, now).Ok?
    ensures var newLogs := NewLogsOf(s, now);
            var out := AggregateDeviceToRoomLogs(s, now).value.roomLogs;
            && (forall i :: 0 <= i < |newLogs| ==> KnownDevice(s.devices, newLogs[i]) && LogKey(s.devices, newLogs[i]) in RoomLogKeys(out))
            && (forall k :: k in RoomLogKeys(out) ==>
                  (k in RoomLogKeys(s.roomLogs) || exists i :: 0 <= i < |newLogs| && KnownDevice(s.devices, newLogs[i]) && k == LogKey(s.devices, newLogs[i])))
  {
    FanInSteps(s, now);
    FanInPassCovers(s.roomLogs, s.devices, NewLogsOf(s, now));
  }

  /**
   * After a successful run a room and instant that had no room log holds
   * the summed energy of all new device logs of that room at that instant;
   * every appended row is of that kind.
   */
  lemma FanInTotals(s: Store, now: Timestamp)
    requires ValidTimestamp(now) && AggregateDeviceToRoomLogs(s, now).Ok?
    ensures Cutoff(s.roomLogs, now).Ok?
    ensures var newLogs := NewLogsOf(s, now);
            var out := AggregateDeviceToRoomLogs(s, now).value.roomLogs;
            && (forall i :: 0 <= i < |newLogs| ==>
                  (&& KnownDevice(s.devices, newLogs[i])
                   && (LogKey(s.devices, newLogs[i]) !in RoomLogKeys(s.roomLogs) ==>
                         var k := LogKey(s.devices, newLogs[i]);
                         RoomLog(k.room, RoomEnergyAt(s.devices, newLogs, k), k.at) in out)))
            && (forall j :: |s.roomLogs| <= j < |out| ==>
                  && RoomLogKey(out[j]) !in RoomLogKeys(s.roomLogs)
                  && out[j].energyUsage == RoomEnergyAt(s.devices, newLogs, RoomLogKey(out[j])))
  {
    FanInSteps(s, now);
    FanInPassTotals(s.roomLogs, s.devices, NewLogsOf(s, now));
  }

  lemma AtOrBeforeTrans(a: Timestamp, b: Timestamp, c: Timestamp)
    requires AtOrBefore(a, b) && AtOrBefore(b, c)
    ensures AtOrBefore(a, c)
  {
  }

  /** With no joined device log after the cutoff, a run changes nothing. */
  lemma FanInNothingNew(s: Store, now: Timestamp)
    requires ValidTimestamp(now) && Cutoff(s.roomLogs, now).Ok?
    requires forall l :: l in s.deviceLogs && Joined(s.devices, s.rooms, l) ==> AtOrBefore(l.createdAt, Cutoff(s.roomLogs, now).value)
    ensures AggregateDeviceToRoomLogs(s, now) == Ok(s)
  {
    NewDeviceLogsEmpty(s.deviceLogs, s.devices, s.rooms, Cutoff(s.roomLogs, now).value);
  }

  /** The first cutoff is at or before the newest room log after a run that appended something. */
  lemma FanInCutoffAdvances(s: Store, now: Timestamp)
    requires ValidTimestamp(now) && AggregateDeviceToRoomLogs(s, now).Ok?
    requires |NewLogsOf(s, now)| > 0
    ensures |AggregateDeviceToRoomLogs(s, now).value.roomLogs| > 0
    ensures AtOrBefore(Cutoff(s.roomLogs, now).value, Newest(AggregateDeviceToRoomLogs(s, now).value.roomLogs))
  {
    FanInWrites(s, now);
    if |s.roomLogs| > 0 {
      FanInNewestKept(s, now);
    } else {
      FanInFirstRunNewest(s, now);
    }
  }

  /** On a first run that wrote something, the newest room log is after the look-back cutoff. */
  lemma FanInFirstRunNewest(s: Store, now: Timestamp)
    requires ValidTimestamp(now) && AggregateDeviceToRoomLogs(s, now).Ok?
    requires |s.roomLogs| == 0 && |AggregateDeviceToRoomLogs(s, now).value.roomLogs| > 0
    ensures AtOrBefore(Cutoff(s.roomLogs, now).value, Newest(AggregateDeviceToRoomLogs(s, now).value.roomLogs))
  {
    FanInFirstRunAdvances(s, now);
    NewestAfter(AggregateDeviceToRoomLogs(s, now).value.roomLogs, Cutoff(s.roomLogs, now).value);
  }

  /** When every room log is after `c`, so is the newest. */
  lemma NewestAfter(logs: seq<RoomLog>, c: Timestamp)
    requires |logs| > 0
    requires forall j :: 0 <= j < |logs| ==> TimestampBefore(c, logs[j].createdAt)
    ensures AtOrBefore(c, Newest(logs))
  {
    assert AtOrBefore(c, logs[0].createdAt);
    AtOrBeforeTrans(c, logs[0].createdAt, Newest(logs));
  }

  /** A run with new device logs leaves at least one room log. */
  lemma FanInWrites(s: Store, now: Timestamp)
    requires ValidTimestamp(now) && AggregateDeviceToRoomLogs(s, now).Ok?
    requires |NewLogsOf(s, now)| > 0
    ensures |AggregateDeviceToRoomLogs(s, now).value.roomLogs| > 0
  {
    FanInCovers(s, now);
    assert LogKey(s.devices, NewLogsOf(s, now)[0]) in RoomLogKeys(AggregateDeviceToRoomLogs(s, now).value.roomLogs);
  }

  /** A run keeps the room logs it found, so their newest instant is not after the newest one left. */
  lemma FanInNewestKept(s: Store, now: Timestamp)
    requires ValidTimestamp(now) && AggregateDeviceToRoomLogs(s, now).Ok?
    requires |s.roomLogs| > 0
    ensures |AggregateDeviceToRoomLogs(s, now).value.roomLogs| > 0
    ensures AtOrBefore(Newest(s.roomLogs), Newest(AggregateDeviceToRoomLogs(s, now).value.roomLogs))
  {
    var out := AggregateDeviceToRoomLogs(s, now).value.roomLogs;
    FanInKeeps(s, now);
    var i :| 0 <= i < |s.roomLogs| && s.roomLogs[i].createdAt == Newest(s.roomLogs);
    assert out[..|s.roomLogs|][i] == out[i];
  }

  /** A pass over logs all stamped after `c` appends only room logs stamped after `c`. */
  lemma FanInPassAfter(table: seq<RoomLog>, devices: seq<Device>, logs: seq<DeviceLog>, c: Timestamp)
    requires AllKnown(devices, logs)
    requires forall i :: 0 <= i < |logs| ==> TimestampBefore(c, logs[i].createdAt)
    ensures forall j :: 0 <= j < |FanInPass(table, devices, logs)| && RoomLogKey(FanInPass(table, devices, logs)[j]) !in RoomLogKeys(table) ==>
              TimestampBefore(c, FanInPass(table, devices, logs)[j].createdAt)
  {
    var out := FanInPass(table, devices, logs);
    FanInPassCovers(table, devices, logs);
    forall j | 0 <= j < |out| && RoomLogKey(out[j]) !in RoomLogKeys(table)
      ensures TimestampBefore(c, out[j].createdAt)
    {
      assert RoomLogKeys(out)[j] == RoomLogKey(out[j]);
    }
  }

  /** With no room logs before, every room log a run leaves is newer than the cutoff. */
  lemma FanInFirstRunAdvances(s: Store, now: Timestamp)
    requires ValidTimestamp(now) && AggregateDeviceToRoomLogs(s, now).Ok?
    requires |s.roomLogs| == 0
    ensures forall j :: 0 <= j < |AggregateDeviceToRoomLogs(s, now).value.roomLogs| ==>
              TimestampBefore(Cutoff(s.roomLogs, now).value, AggregateDeviceToRoomLogs(s, now).value.roomLogs[j].createdAt)
  {
    var cutoff := Cutoff(s.roomLogs, now).value;
    var newLogs := NewLogsOf(s, now);
    FanInSteps(s, now);
    forall i | 0 <= i < |newLogs| ensures TimestampBefore(cutoff, newLogs[i].createdAt) {
      NewDeviceLogAt(s.deviceLogs, s.devices, s.rooms, cutoff, i);
    }
    FanInPassAfter(s.roomLogs, s.devices, newLogs, cutoff);
  }

  /** After a run that appended something, no joined device log is newer than the newest room log. */
  lemma FanInCaughtUp(s: Store, now: Timestamp)
    requires ValidTimestamp(now) && AggregateDeviceToRoomLogs(s, now).Ok?
    requires |NewLogsOf(s, now)| > 0
    ensures |AggregateDeviceToRoomLogs(s, now).value.roomLogs| > 0
    ensures forall l :: l in s.deviceLogs && Joined(s.devices, s.rooms, l) ==>
              AtOrBefore(l.createdAt, Newest(AggregateDeviceToRoomLogs(s, now).value.roomLogs))
  {
    var cutoff := Cutoff(s.roomLogs, now).value;
    var out := AggregateDeviceToRoomLogs(s, now).value.roomLogs;
    FanInCutoffAdvances(s, now);
    var cutoff2 := Newest(out);
    forall l | l in s.deviceLogs && Joined(s.devices, s.rooms, l)
      ensures AtOrBefore(l.createdAt, cutoff2)
    {
      if TimestampBefore(cutoff, l.createdAt) {
        FanInCaughtUpNew(s, now, l);
      } else {
        AtOrBeforeTrans(l.createdAt, cutoff, cutoff2);
      }
    }
  }

  /** A joined device log after the cutoff has a room log at its instant, so it is not after the newest. */
  lemma FanInCaughtUpNew(s: Store, now: Timestamp, l: DeviceLog)
    requires ValidTimestamp(now) && AggregateDeviceToRoomLogs(s, now).Ok?
    requires l in s.deviceLogs && Joined(s.devices, s.rooms, l)
    requires Cutoff(s.roomLogs, now).Ok? && TimestampBefore(Cutoff(s.roomLogs, now).value, l.createdAt)
    ensures |AggregateDeviceToRoomLogs(s, now).value.roomLogs| > 0
    ensures AtOrBefore(l.createdAt, Newest(AggregateDeviceToRoomLogs(s, now).value.roomLogs))
  {
    var newLogs := NewLogsOf(s, now);
    var out := AggregateDeviceToRoomLogs(s, now).value.roomLogs;
    FanInCovers(s, now);
    assert multiset(s.deviceLogs)[l] > 0;
    assert multiset(newLogs)[l] > 0;
    var i :| 0 <= i < |newLogs| && newLogs[i] == l;
    assert LogKey(s.devices, l) in RoomLogKeys(out);
    KeyNotAfterNewest(out, LogKey(s.devices, l));
  }

  /** The instant of any key of a room log table is not after the newest room log. */
  lemma KeyNotAfterNewest(out: seq<RoomLog>, k: GroupKey)
    requires k in RoomLogKeys(out)
    ensures |out| > 0 && AtOrBefore(k.at, Newest(out))
  {
    var j :| 0 <= j < |out| && RoomLogKeys(out)[j] == k;
    assert out[j].createdAt == k.at;
  }

  /**
   * Running the fan-in a second time at the same instant changes nothing:
   * every joined device log is then at or before the newest room log.
   */
  lemma FanInIdempotent(s: Store, now: Timestamp)
    requires ValidTimestamp(now) && AggregateDeviceToRoomLogs(s, now).Ok?
    ensures AggregateDeviceToRoomLogs(AggregateDeviceToRoomLogs(s, now).value, now) == AggregateDeviceToRoomLogs(s, now)
  {
    var r := AggregateDeviceToRoomLogs(s, now).value;
    if |NewLogsOf(s, now)| == 0 {
      assert r == s;
    } else {
      FanInCaughtUp(s, now);
      assert Cutoff(r.roomLogs, now) == Ok(Newest(r.roomLogs));
      FanInNothingNew(r, now);
    }
  }
}
