/**
 * The `room_groups` dictionary of `aggregate_device_to_room_logs`: device
 * logs keyed by (room id, exact timestamp), grouped in the order their keys
 * first appear, each group carrying the running sum of its logs' energy.
 */
module Grouping {
  import opened Results
  import opened Calendar
  import opened Logs
  import opened LogStore

  /** A room and an exact 5-second instant: the identity of one `RoomLog5Sec` row. */
  datatype GroupKey = GroupKey(room: RoomId, at: Timestamp)

  /** A device log once its device's room is known. */
  datatype Entry = Entry(key: GroupKey, energy: real)

  /** One value of `room_groups`. */
  datatype Group = Group(key: GroupKey, total: real)

  /** `dev_log.device.room`: the room of the first stored device with that id. */
  function DeviceRoom(devices: seq<Device>, id: DeviceId): (r: Option<RoomId>)
    ensures r.None? <==> forall j :: 0 <= j < |devices| ==> devices[j].id != id
    ensures r.Some? ==> Device(id, r.value) in devices
  {
    if |devices| == 0 then None
    else if devices[0].id == id then Some(devices[0].room)
    else
      assert forall j :: 0 < j < |devices| ==> devices[1..][j - 1] == devices[j];
      DeviceRoom(devices[1..], id)
  }

  predicate KnownDevice(devices: seq<Device>, l: DeviceLog) {
    DeviceRoom(devices, l.device).Some?
  }

  /** Some stored room has this id. */
  predicate RoomStored(rooms: seq<Room>, id: RoomId) {
    exists j :: 0 <= j < |rooms| && rooms[j].id == id
  }

  /**
   * A device log the query `select_related('device__room')` returns. Both
   * foreign keys are required, so the query reaches the device and its room
   * through inner joins, and a log whose device or room row is missing is
   * left out rather than raising.
   */
  predicate Joined(devices: seq<Device>, rooms: seq<Room>, l: DeviceLog) {
    match DeviceRoom(devices, l.device)
    case None => false
    case Some(room) => RoomStored(rooms, room)
  }

  /** The (room, instant) key a log of a stored device is grouped under. */
  function LogKey(devices: seq<Device>, l: DeviceLog): GroupKey
    requires KnownDevice(devices, l)
  {
    GroupKey(DeviceRoom(devices, l.device).value, l.createdAt)
  }

  /** `dev_log.device.room` for each log of a joined batch, in order. */
  function Resolve(devices: seq<Device>, logs: seq<DeviceLog>): (r: seq<Entry>)
    requires forall i :: 0 <= i < |logs| ==> KnownDevice(devices, logs[i])
    ensures |r| == |logs|
    ensures forall i :: 0 <= i < |logs| ==> r[i] == Entry(LogKey(devices, logs[i]), logs[i].energyUsage)
  {
    if |logs| == 0 then []
    else
      assert forall i :: 0 < i < |logs| ==> logs[1..][i - 1] == logs[i];
      [Entry(LogKey(devices, logs[0]), logs[0].energyUsage)] + Resolve(devices, logs[1..])
  }

  /** The keys of the entries, in order. */
  function EntryKeys(entries: seq<Entry>): (ks: seq<GroupKey>)
    ensures |ks| == |entries| && forall i :: 0 <= i < |entries| ==> ks[i] == entries[i].key
  {
    seq(|entries|, i requires 0 <= i < |entries| => entries[i].key)
  }

  /** The keys of the groups, in order. */
  function GroupKeys(groups: seq<Group>): (ks: seq<GroupKey>)
    ensures |ks| == |groups| && forall i :: 0 <= i < |groups| ==> ks[i] == groups[i].key
  {
    seq(|groups|, i requires 0 <= i < |groups| => groups[i].key)
  }

  /** No two groups share a key: the groups are the values of a dictionary. */
  predicate DistinctKeys(groups: seq<Group>) {
    forall i, j :: 0 <= i < j < |groups| ==> groups[i].key != groups[j].key
  }

  /** The total energy of the entries with key `k`, summed in order. */
  function KeyTotal(entries: seq<Entry>, k: GroupKey): real {
    if |entries| == 0 then 0.0
    else
      var last := entries[|entries| - 1];
      KeyTotal(entries[..|entries| - 1], k) + (if last.key == k then last.energy else 0.0)
  }

  lemma {:induction false} KeyTotalAbsent(entries: seq<Entry>, k: GroupKey)
    requires k !in EntryKeys(entries)
    ensures KeyTotal(entries, k) == 0.0
  {
    if |entries| > 0 {
      var init := entries[..|entries| - 1];
      assert forall i :: 0 <= i < |init| ==> EntryKeys(init)[i] == EntryKeys(entries)[i];
      KeyTotalAbsent(init, k);
    }
  }

  /** The index of the group with key `k`, or -1 (`key not in room_groups`). */
  function GroupIndex(groups: seq<Group>, k: GroupKey): (i: int)
    ensures -1 <= i < |groups|
    ensures i >= 0 ==> groups[i].key == k
    ensures i < 0 <==> k !in GroupKeys(groups)
  {
    if |groups| == 0 then -1
    else if groups[|groups| - 1].key == k then |groups| - 1
    else
      var init := groups[..|groups| - 1];
      assert forall j :: 0 <= j < |init| ==> GroupKeys(init)[j] == GroupKeys(groups)[j];
      GroupIndex(init, k)
  }

  /** One iteration of the grouping loop: open the entry's group at 0.0 if new, then add its energy. */
  function AddEntry(groups: seq<Group>, e: Entry): seq<Group> {
    var i := GroupIndex(groups, e.key);
    if i < 0 then groups + [Group(e.key, 0.0 + e.energy)]
    else groups[i := groups[i].(total := groups[i].total + e.energy)]
  }

  /** The grouping loop over the entries in order. */
  function Grouped(entries: seq<Entry>): seq<Group> {
    if |entries| == 0 then []
    else AddEntry(Grouped(entries[..|entries| - 1]), entries[|entries| - 1])
  }

  /**
   * The groups are keyed exactly by the entries' keys, each key once, and
   * each group's total is the sum of the energy of all entries with its key.
   */
  lemma {:induction false} GroupedFacts(entries: seq<Entry>)
    ensures DistinctKeys(Grouped(entries))
    ensures forall k :: k in GroupKeys(Grouped(entries)) <==> k in EntryKeys(entries)
    ensures forall i :: 0 <= i < |Grouped(entries)| ==>
              Grouped(entries)[i].total == KeyTotal(entries, Grouped(entries)[i].key)
  {
    if |entries| > 0 {
      var init := entries[..|entries| - 1];
      var e := entries[|entries| - 1];
      var g := Grouped(init);
      GroupedFacts(init);
      assert EntryKeys(entries) == EntryKeys(init) + [e.key];
      var i := GroupIndex(g, e.key);
      if i < 0 {
        KeyTotalAbsent(init, e.key);
        assert GroupKeys(Grouped(entries)) == GroupKeys(g) + [e.key];
      } else {
        assert GroupKeys(Grouped(entries)) == GroupKeys(g);
      }
    }
  }
}
