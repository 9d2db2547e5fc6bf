# Energy-log rollups of the smart-home backend, in Dafny

This project models the batch jobs that roll up energy readings in the Django backend of the smart-home app. It also models two request-time readers of those tables and the device-status hook.

- **Fan-in** (`aggregate_device_to_room_logs`). This job sums 5-second device readings into 5-second room readings, keyed by (room, instant). It only considers device readings newer than the newest room reading, or the last 30 days on a first run, and only those whose device and room rows exist: `select_related` joins them with inner joins. It creates a room reading only where none exists.
- **Room rollup** (`aggregate_room_logs`). This job sums yesterday's room readings into one daily row per room. On the 1st of a month it also sums the previous month's daily rows into one monthly row per room.
- **Device rollup** (`aggregate_device_logs`). This job does the same for devices. A device's daily row stores the metrics of `calculate_device_metrics`: the on/off split, durations at 5 s per reading, and averages guarded against a zero duration. Its monthly row stores the summary of `calculate_monthly_metrics`. That summary reads each daily row's stored JSON back, and raises when the JSON is not an object or a usage in it is not a number.
- **Room views** (`RoomViewSet`).
  - `weekly_usage` reads a room's daily rows over the Monday-to-Sunday week of today.
  - `get_queryset` lists rooms, filtered by the `smart_home` query parameter. A home is only shown to users who created or joined it. The parameter is parsed with Python's `int()`, which is modelled in `PyInt`.
- **Device hook** (`update_homeio_on_device_change`). This is a `pre_save` receiver. When a stored device's status changes, it asks the HomeIO service once to switch the device. The outcome of that call is a parameter.

Each job body runs inside one `transaction.atomic()` block and re-raises on error. So a job is a pure function from the old store to `Ok(new store)` or `Err(error)`; an error means nothing is written.

Modelling choices:

- Tables are sequences of rows.
- `update_or_create` is `Tables.Upsert`. It fails with `MultipleObjectsReturned` when a key already has two rows, as Django's `get()` does.
- Dates follow Python's `datetime.date`: years 1 to 9999, `toordinal()`, `weekday()`, and `OverflowError` at either end of the range.
- `today` and `now` are parameters.
- Energy is an exact `real`.

`zenro/backend/api/views.py` lines 140-339 repeat `scheduled_scripts.py` lines 6-208 with only the comments changed. The model covers both copies, and the table below cites the `scheduled_scripts.py` copy.

| file | module |
|---|---|
| results.dfy | `Option`, `Result` and the run errors |
| calendar.dfy | Python dates: ordinals, weekdays, day steps, the first of the month |
| tables.dfy | summary tables and `update_or_create` |
| logs.dfy | 5-second logs, energy sums, the status filter |
| metrics.dfy | `calculate_device_metrics`, `calculate_monthly_metrics`, the stored JSON |
| store.dfy | the store, and the date-range filter on daily tables |
| room_rollup.dfy | `aggregate_room_logs` |
| device_rollup.dfy | `aggregate_device_logs` |
| grouping.dfy | the `room_groups` dictionary of the fan-in |
| fan_in.dfy | `aggregate_device_to_room_logs`, with the key its comments describe |
| fan_in_as_written.dfy | the fan-in as the code is written, and a counterexample |
| py_int.dfy | `int(s)` and `str(n)` on base-10 strings |
| room_views.dfy | `weekly_usage` and `get_queryset` |
| device_hook.dfy | `update_homeio_on_device_change` and `save()` |

## Model

| member | source | states |
|---|---|---|
| Calendar.IsFirstDayOfMonth | zenro/backend/api/scheduled_scripts.py:6-8 | a date is the 1st of its month exactly when the day before it, if any, lies in another month |
| Calendar.PrevDay | zenro/backend/api/scheduled_scripts.py:19 | `today - timedelta(days=1)` is the valid date one ordinal earlier, and overflows exactly on 0001-01-01 |
| Calendar.FirstOfMonth | zenro/backend/api/scheduled_scripts.py:46 | `yesterday.replace(day=1)` is a valid 1st of a month, not after `yesterday`, and `day - 1` ordinals before it |
| Calendar.PreviousMonthWindow | zenro/backend/api/scheduled_scripts.py:45-53 | on the 1st, yesterday is the last day of the previous month, and a date lies in `[yesterday.replace(day=1), yesterday]` exactly when it has yesterday's month and year |
| Calendar.Weekday | zenro/backend/api/views.py:134 | `weekday()` is in 0..6, and subtracting it from the ordinal gives a Monday (ordinal ≡ 1 mod 7) |
| Calendar.SubDays | zenro/backend/api/views.py:134 | `d - timedelta(days=n)` exists exactly when `n` is less than `d`'s ordinal, and is `n` ordinals earlier |
| Calendar.AddDays | zenro/backend/api/views.py:135 | `d + timedelta(days=n)` exists exactly when it stays within 9999-12-31, and is `n` ordinals later |
| Calendar.TimestampSubDays | zenro/backend/api/scheduled_scripts.py:234 | `now - timedelta(days=30)` keeps the time of day, and overflows exactly when the date has ordinal 30 or less |
| Calendar.NotAfterIsOrdinalOrder | zenro/backend/api/scheduled_scripts.py:51-52 | Python's `<=` on dates is the order of their ordinals |
| Tables.Upsert | zenro/backend/api/scheduled_scripts.py:37-41 | `update_or_create` fails exactly when the key has two or more rows; otherwise the key has exactly one row, holding the new value, and every other key keeps its rows |
| Tables.UpsertIdempotent | zenro/backend/api/scheduled_scripts.py:37-41 | repeating the same `update_or_create` overwrites and does not duplicate |
| Tables.UpsertKeepsUnique | zenro/backend/api/scheduled_scripts.py:37-41 | on a table with unique keys, `update_or_create` never fails and keeps the keys unique |
| Tables.UpsertAll | zenro/backend/api/scheduled_scripts.py:25-41 | a loop of upserts fails exactly when one of its keys already had two rows |
| Tables.UpsertAllStored | zenro/backend/api/scheduled_scripts.py:25-41 | after the loop, each upserted key has one row; when equal keys carry equal values, that row holds the value |
| Tables.UpsertAllUntouched | zenro/backend/api/scheduled_scripts.py:25-41 | a key the loop does not upsert keeps its rows |
| Tables.UpsertAllIdempotent | zenro/backend/api/scheduled_scripts.py:25-41 | running the same loop of upserts twice leaves what running it once left |
| Tables.UpsertAllKeepsUnique | zenro/backend/api/scheduled_scripts.py:25-41 | a table with unique keys never makes the loop fail, and stays unique |
| Tables.UpsertAllFrom | zenro/backend/api/scheduled_scripts.py:25-41 | every row after the loop was stored before or is one the loop upserted |
| Logs.WithStatus | zenro/backend/api/scheduled_scripts.py:78 | `filter(status=...)` keeps exactly the logs with that status, each as often as it occurs |
| Logs.StatusPartition | zenro/backend/api/scheduled_scripts.py:78-88 | the on and off logs together are exactly the logs; their counts add up to the count and their energies to the total |
| Logs.SortByTime | zenro/backend/api/scheduled_scripts.py:168 | `order_by('created_at')` returns the same logs, each as often as before, oldest first |
| Logs.DeviceLogsOn | zenro/backend/api/scheduled_scripts.py:165-168 | `filter(device=..., created_at__date=...).order_by('created_at')` keeps exactly that device's logs of that day, oldest first |
| Logs.RoomLogsOn | zenro/backend/api/scheduled_scripts.py:27-30 | `filter(room=..., created_at__date=...)` keeps exactly that room's logs of that day |
| Metrics.GuardedAverage | zenro/backend/api/scheduled_scripts.py:82 | the average times the seconds gives the usage when seconds > 0, and the average is exactly 0 otherwise |
| Metrics.PartitionOf | zenro/backend/api/scheduled_scripts.py:79-82 | a partition lasts 5 s per log, its usage is its logs' energy sum, and its average is guarded |
| Metrics.CalculateDeviceMetrics | zenro/backend/api/scheduled_scripts.py:71-111 | the total is the energy sum, and the whole-day average times 86400 is the total; the uptime and downtime durations are 5 s per on or off log and add up to 5 s per log; their usages add up to the total; both averages are guarded; the log list mirrors the input entry for entry: timestamp, status and energy |
| Metrics.FullDayUptime | zenro/backend/api/scheduled_scripts.py:78-89 | a device on in every one of a day's 17280 slots is up for 86400 s, down for 0 s, with a downtime average of 0 |
| Metrics.PartitionRead | zenro/backend/api/scheduled_scripts.py:127-128 | `details.get('uptime', {})` raises `AttributeError` exactly when the stored details are not a JSON object |
| Metrics.UsageRead | zenro/backend/api/scheduled_scripts.py:127-128 | adding `.get('total_usage', 0)` raises `AttributeError` when the partition is not an object and `TypeError` when the stored usage is not a number; a missing usage adds 0 |
| Metrics.ToJson | zenro/backend/api/scheduled_scripts.py:176-179 | the stored details read back without raising, giving the partition usages and durations and the `logs` list |
| Metrics.DailyRowBalanced | zenro/backend/api/scheduled_scripts.py:171-179 | each daily device row the job writes can be read by the monthly loop, and its uptime and downtime usages add up to its total |
| Metrics.FirstReadError | zenro/backend/api/scheduled_scripts.py:124-128 | the monthly loop raises exactly when some row's details cannot be read, and then raises `AttributeError` or `TypeError` |
| Metrics.FirstReadErrorAt | zenro/backend/api/scheduled_scripts.py:124-128 | the exception raised is the one of the first unreadable row |
| Metrics.DailySummaries | zenro/backend/api/scheduled_scripts.py:124-134 | `daily_summaries` has an entry for exactly the dates of the rows |
| Metrics.DailySummaryOfLastRow | zenro/backend/api/scheduled_scripts.py:130-134 | a date's summary is taken from the last row with that date |
| Metrics.CalculateMonthlyMetrics | zenro/backend/api/scheduled_scripts.py:113-148 | the result is `{}` exactly when there are no rows; it raises exactly when there are rows and one of them has unreadable details (null, not an object, or a usage that is not a number), with the first such row's exception; otherwise the totals are the sums over the rows, with a missing key counting as 0, each average times the number of rows is its total, and `daily_summaries` has exactly the rows' dates |
| Metrics.MonthlyBalanced | zenro/backend/api/scheduled_scripts.py:119-128 | when every day is balanced, the month's uptime and downtime usages add up to its total |
| LogStore.DailyRowsBetween | zenro/backend/api/scheduled_scripts.py:49-53 | `filter(<entity>=..., date__gte=..., date__lte=...)` keeps exactly that entity's rows dated in the range |
| RoomRollup.Yesterday | zenro/backend/api/scheduled_scripts.py:18-19 | yesterday is one ordinal before today, and computing it raises exactly on 0001-01-01 |
| RoomRollup.AggregateRoomLogs | zenro/backend/api/scheduled_scripts.py:10-69 | a run fails only with an overflow, exactly on 0001-01-01, or with a duplicated key; it never fails on unique tables; it changes only the room daily and monthly tables, and the monthly one only on the 1st |
| RoomRollup.RoomDailyRowsFacts | zenro/backend/api/scheduled_scripts.py:25-41 | the daily loop upserts, for exactly the rooms with logs yesterday, the room's key and day total |
| RoomRollup.RoomMonthlyRowsFacts | zenro/backend/api/scheduled_scripts.py:48-65 | the monthly loop upserts, for exactly the rooms with daily rows in the window, the month key and the sum of those rows |
| RoomRollup.RoomRollupDaily | zenro/backend/api/scheduled_scripts.py:25-41 | after a run, each room with logs yesterday has exactly one daily row for yesterday, holding the sum of those logs; every other key keeps its rows, so a room with no logs gets no row |
| RoomRollup.RoomRollupMonthly | zenro/backend/api/scheduled_scripts.py:45-65 | on the 1st, each room with daily rows in the previous month has exactly one row under (room, month, year), holding their sum; every other key keeps its rows |
| RoomRollup.RoomRollupIdempotent | zenro/backend/api/scheduled_scripts.py:37-41 | rerunning the job on the same day changes nothing more |
| DeviceRollup.DeviceMonthRow | zenro/backend/api/scheduled_scripts.py:194-203 | building the monthly row raises exactly when one of the window's rows is unreadable; otherwise its `total_energy_usage` is `monthly_totals.total_usage`, which is the sum of the daily totals |
| DeviceRollup.DeviceMonthlyRows | zenro/backend/api/scheduled_scripts.py:186-204 | the monthly loop raises exactly when some device's window holds an unreadable row, with that row's `AttributeError` or `TypeError` |
| DeviceRollup.AggregateDeviceLogs | zenro/backend/api/scheduled_scripts.py:150-208 | a run overflows exactly on 0001-01-01; besides a duplicated key, it raises only on the 1st, on an unreadable daily row; off the 1st it never fails on a unique daily table; it changes only the device daily and monthly tables, and the monthly one only on the 1st |
| DeviceRollup.DeviceRollupSucceeds | zenro/backend/api/scheduled_scripts.py:150-208 | on a day after 0001-01-01, with unique summary keys and readable daily rows, a run succeeds and leaves every daily row readable |
| DeviceRollup.DeviceDailyRowsFacts | zenro/backend/api/scheduled_scripts.py:163-180 | the daily loop upserts, for exactly the devices with logs yesterday, the device's key and the metrics of its day's logs taken oldest first |
| DeviceRollup.DayRowLogsInOrder | zenro/backend/api/scheduled_scripts.py:104-110 | a daily row's stored `logs` list is, entry for entry, the timestamp, status and energy of the device's day's logs taken oldest first, so it holds each log of that device and day exactly once, in `created_at` order |
| DeviceRollup.DeviceMonthlyRowsFacts | zenro/backend/api/scheduled_scripts.py:186-204 | when the monthly loop does not raise, it upserts, for exactly the devices with daily rows in the window, the month key and monthly metrics |
| DeviceRollup.DeviceRollupDaily | zenro/backend/api/scheduled_scripts.py:163-180 | after a run, each device with logs yesterday has exactly one daily row for yesterday; its total is the sum of those logs, and its uptime and downtime usages add up to it; every other key keeps its rows |
| DeviceRollup.DeviceRollupMonthly | zenro/backend/api/scheduled_scripts.py:186-204 | on the 1st, each device with daily rows in the previous month has exactly one row under (device, month, year), whose total is the sum of those days' totals; every other key keeps its rows |
| DeviceRollup.DeviceMonthRowBalanced | zenro/backend/api/scheduled_scripts.py:194-203 | a monthly row built from balanced days is built without raising, and its uptime and downtime usages add up to its total |
| DeviceRollup.DeviceRollupIdempotent | zenro/backend/api/scheduled_scripts.py:173-180 | rerunning the job on the same day changes nothing more |
| Grouping.DeviceRoom | zenro/backend/api/scheduled_scripts.py:247 | `dev_log.device.room` is missing exactly when no stored device has the id; otherwise it is a room of a stored device with that id |
| Grouping.Resolve | zenro/backend/api/scheduled_scripts.py:246-248 | each log of a batch whose devices are stored becomes its (room, instant) key and energy, one entry per log, in order |
| Grouping.GroupIndex | zenro/backend/api/scheduled_scripts.py:252 | `key not in room_groups` exactly when no group has the key; otherwise the index of the group holding it |
| Grouping.GroupedFacts | zenro/backend/api/scheduled_scripts.py:245-258 | the groups have distinct keys, exactly the logs' keys, and each group's total is the sum of its key's energies |
| FanIn.Newest | zenro/backend/api/scheduled_scripts.py:229-231 | the newest room log's instant is some log's instant, and no log is newer |
| FanIn.Cutoff | zenro/backend/api/scheduled_scripts.py:229-234 | the cutoff is the newest room log's instant, or `now` minus 30 days when there is none; that subtraction overflows exactly when `now` is within the first 30 days of the calendar |
| FanIn.NewDeviceLogs | zenro/backend/api/scheduled_scripts.py:237-239 | the new device logs are exactly those stamped strictly after the cutoff whose device row and that device's room row are stored (the inner joins of `select_related('device__room')` drop the others), each as often as stored, oldest first |
| FanIn.CreateMissingKeys | zenro/backend/api/scheduled_scripts.py:261-274 | the creation loop only appends, and afterwards the keys with a room log are the old ones and the groups' |
| FanIn.CreateMissingUnique | zenro/backend/api/scheduled_scripts.py:263-268 | the creation loop never gives a (room, instant) key a second room log |
| FanIn.CreateMissingCreates | zenro/backend/api/scheduled_scripts.py:268-274 | a group whose key had no room log is created with its total |
| FanIn.CreateMissingAppended | zenro/backend/api/scheduled_scripts.py:268-274 | every appended room log comes from a group whose key had no room log |
| FanIn.AggregateDeviceToRoomLogs | zenro/backend/api/scheduled_scripts.py:210-278 | a run fails exactly when there are no room logs and `now` is in the first 30 days of the calendar, with `OverflowError`; only the room log table changes |
| FanIn.FanInSkipsUnjoined | zenro/backend/api/scheduled_scripts.py:237-239 | a device log whose device or room row is missing changes neither whether a run succeeds nor the room logs it leaves |
| FanIn.FanInKeeps | zenro/backend/api/scheduled_scripts.py:260-274 | the old room logs stay, as a prefix, and a room log table with unique keys stays unique |
| FanIn.FanInCovers | zenro/backend/api/scheduled_scripts.py:244-274 | afterwards, each new log's (room, instant) has a room log; each room log's key was there before or is some new log's |
| FanIn.FanInTotals | zenro/backend/api/scheduled_scripts.py:244-274 | a (room, instant) that had no room log gets one holding the summed energy of all new logs of that room at that instant; every appended row is of that kind |
| FanIn.FanInNothingNew | zenro/backend/api/scheduled_scripts.py:241-242 | with no joined device log after the cutoff, a run changes nothing |
| FanIn.FanInCutoffAdvances | zenro/backend/api/scheduled_scripts.py:229-239 | after a run that found new logs, the newest room log is not before the cutoff it used |
| FanIn.FanInCaughtUp | zenro/backend/api/scheduled_scripts.py:229-274 | after a run that found new logs, no joined device log is newer than the newest room log |
| FanIn.FanInIdempotent | zenro/backend/api/scheduled_scripts.py:220-221 | a second run at the same instant changes nothing: no log is created twice |
| FanInAsWritten.AsWrittenNeverWrites | zenro/backend/api/scheduled_scripts.py:229-251 | the job as written succeeds exactly when the cutoff can be computed and the query returns no log, and then changes nothing; a first-run cutoff that overflows raises `OverflowError`; any returned log raises `AttributeError` |
| FanInAsWritten.AsWrittenLosesRoomLogs | zenro/backend/api/scheduled_scripts.py:247-251 | whenever the keyed-by-room-id job would append a room log, the job as written raises instead |
| FanInAsWritten.FanInCounterexample | zenro/backend/api/scheduled_scripts.py:247-251 | on one room, one device and one newer reading, the intended job appends a room log and the job as written raises `AttributeError` |
| PyInt.ParseInt | zenro/backend/api/views.py:76 | `int(s)` succeeds only when the stripped string ends in a digit; a negative result has a leading `-`; an all-whitespace string is rejected |
| PyInt.ParseFormat | zenro/backend/api/views.py:76 | `int(str(n)) == n` for every integer, setting aside CPython's limit of 4300 digits on conversions |
| PyInt.ParseIgnoresSpace | zenro/backend/api/views.py:76 | whitespace around the argument does not change `int()` |
| RoomViews.StartOfWeek | zenro/backend/api/views.py:134 | `today - timedelta(days=today.weekday())` is a valid Monday, not after today, `weekday()` ordinals before it |
| RoomViews.WeeklyUsage | zenro/backend/api/views.py:129-137 | the week starts on a Monday, not after today, and ends 6 days later, not before today; the report fails exactly when the week's Sunday is past 9999-12-31; the usage is the sum of the room's daily rows in today's week |
| RoomViews.WeekWindow | zenro/backend/api/views.py:134-136 | a date lies in `[start_of_week, end_of_week]` exactly when it is in the same week as today |
| RoomViews.WeeklyUsageSameWeek | zenro/backend/api/views.py:134-137 | every day of a week gets the same report |
| RoomViews.LastWeekOverflows | zenro/backend/api/views.py:135 | 9999-12-31 is a Friday, so the report for it raises `OverflowError` |
| RoomViews.UserHomeIds | zenro/backend/api/views.py:77-80 | the listed home ids are exactly those of homes the user created or is a member of |
| RoomViews.RoomsOfHome | zenro/backend/api/views.py:83 | `filter(smart_home_id=h)` keeps exactly the rooms of home `h` |
| RoomViews.RoomQuerySet | zenro/backend/api/views.py:73-86 | a missing or empty parameter lists every room; otherwise a room is listed exactly when `int()` reads the parameter as the room's home and the user created or joined that home |
| RoomViews.RoomQueryOnlyOwnHomes | zenro/backend/api/views.py:74-83 | a filtered listing shows only stored rooms of homes the user created or joined |
| RoomViews.RoomQueryFormatted | zenro/backend/api/views.py:74-83 | passing `str(h)`, with or without surrounding whitespace, for one of the user's homes lists exactly that home's rooms |
| DeviceHook.HookBody | zenro/backend/api/device_signals.py:19-37 | the `try` body alone raises exactly when the stored row is missing, or the status changed and the relation or the call raised; it calls the service exactly when the status changed and the relation loads; it logs no error |
| DeviceHook.UpdateHomeIoOnDeviceChange | zenro/backend/api/device_signals.py:9-39 | at most one service call, made exactly when a stored device's status changes and its supported device loads, passing the device; a device with no key (or key 0) and an unchanged status do nothing; a warning is logged exactly when the call returned a falsy value; an error is logged exactly when the stored row is missing, or the status changed and the relation or the call raised; nothing propagates |
| DeviceHook.SaveProceeds | zenro/backend/api/device_signals.py:19-39 | whatever the service does, the receiver returns normally, so `save()` writes the row, the saved device among the stored rows |
| DeviceHook.UncaughtRaiseStopsSave | zenro/backend/api/device_signals.py:19-39 | without the `except` clause a raising service call would stop `save()` and lose the flipped status; with it, the flipped status is stored |
| DeviceHook.SecondSaveIsQuiet | zenro/backend/api/device_signals.py:21-24 | saving the same stored device again makes no call and logs nothing |
| DeviceHook.ToggleCallsOnce | zenro/backend/api/device_signals.py:24-33 | flipping a stored device's status and saving makes exactly one call, with the flipped device |

## Left out

- Wall-clock time and time zones. `today` and `now` are parameters, and a timestamp is a date plus a second of the day, with no microseconds.
- Floating point. Energy is an exact `real`, so sums do not depend on the order of addition.
- Row order where only sums depend on it. The room queries and the monthly `order_by('date')` feed exact sums and a dictionary keyed by date, which the order changes only when a device has two rows for one date. The daily device query's `order_by('created_at')` decides the stored `logs` list and is modelled by `Logs.SortByTime`.
- Logs.DeviceLogsOn: logs with the same `created_at` keep their table order, where the database leaves their order unspecified.
- Transactions, concurrency and the `print` in each `except` block. A run is one function from the old store to a new store or an error.
- The `logs` list of `calculate_device_metrics` stores `isoformat()` strings. The model keeps the timestamps themselves.
- `daily_usage` of `RoomViewSet`, the CRUD viewsets, serializers, URL routing and admin.
- `signals.py` and the `import_homeio_layout` command. They copy templates and import a layout file.
- The HomeIO service (`home_io/home_io_services.py`). Its call is the `CallOutcome` oracle. Its `set_device_state(address, state)` takes two arguments but is called with one, so as written every call raises `TypeError`; that is the `Raised` outcome.
- `HomeIOService()` construction failing is not modelled separately; it would take the same `except` path as `Raised`.
- The primary key a new device gets is the parameter `newPk` of `DeviceHook.Save`.
- The text of log messages. Each log record keeps its level and the device fields it mentions.
- `get_queryset`'s outer `except Exception` returns no rooms. Nothing in the modelled part raises, so that path is absent. Anonymous users, whose `request.user` cannot be used in the filter, are not modelled.
- PyInt.ParseInt: whitespace and digits outside ASCII are not modelled, because `int()` also accepts Unicode spaces and digits, which a `char` comparison would misread. CPython's limit of 4300 digits on string-to-int conversion (`ValueError` beyond it) is not modelled either, so very long parameters parse here where CPython raises.
- DeviceRollup.AggregateDeviceLogs: the model builds all monthly rows before upserting them, while the source upserts each device's row right after building it. When one device's key is duplicated and a later device's window is unreadable, the source raises `MultipleObjectsReturned` and the model reports the read error. Either way the run is rolled back.
- Metrics.DetailsJson: of the stored keys, only `uptime`, `downtime` and their `total_usage` are read, so only those can be malformed here. The other keys are copied into `daily_summaries` and keep the shape the daily pass writes. A `total_energy_usage` is a non-null float column.
- `weekly_usage` and `daily_usage` call `get_object()`, which answers 404 for a room not in the queryset. The model takes the room's daily rows as given.
- RoomViews.WeeklyUsage: the usage is related to the week's rows only when every stored daily date is a valid Python date, which a `DateField` guarantees.

## Findings

| source | as written | input that shows it | evidently intended | confidence | as-written member | corrected member |
|---|---|---|---|---|---|---|
| zenro/backend/api/scheduled_scripts.py:247-251 | `room = dev_log.device.room.id` is already an `int`, and the key is then built as `(room.id, ts)`, so the first new device log raises `AttributeError`, and the job rolls back without writing anything | one room (id 1) holding device 7, one room log at 2024-05-01 00:00:00, one device log of device 7 with energy 2.0 at 00:00:05, run at 00:00:10 | key the group by the room's id and the timestamp, as the function's own comments describe, and append a room log of room 1 with energy 2.0 at 00:00:05 | not executed | FanInAsWritten.FanInCounterexample | FanIn.FanInTotals |
