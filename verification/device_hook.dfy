/**
 * `update_homeio_on_device_change`, the `pre_save` receiver for `Device`: when
 * a stored device is saved with a different status, it asks the HomeIO
 * service once to switch the device, logging the change and any failure.
 * Every exception inside it is caught and logged, so it never stops the save.
 * The service call is an oracle: its outcome is a parameter.
 */
module DeviceHook {
  import opened Results

  /** The fields of a `Device` the hook reads; `supportedDevice` is `None` when the relation cannot be loaded. */
  datatype DeviceRow = DeviceRow(pk: Option<int>, name: string, status: bool, supportedDevice: Option<int>)

  /** What `set_device_state` did: returned a truthy or falsy value, or raised. */
  datatype CallOutcome = Returned(truthy: bool) | Raised

  datatype LogLevel = Info | Warning | Error

  /** The records the hook writes to its logger. */
  datatype LogRecord =
    | StatusChanged(device: string, from: bool, to: bool) // `logger.info`
    | ControlFailed(device: string)                       // `logger.warning`
    | HandlerError                                        // `logger.error` from the `except` clause
  {
    function Level(): LogLevel {
      match this
      case StatusChanged(_, _, _) => Info
      case ControlFailed(_) => Warning
      case HandlerError => Error
    }
  }

  /** The effects of one run of the hook: the devices passed to the service, and the log. */
  datatype HookReport = HookReport(calls: seq<DeviceRow>, log: seq<LogRecord>)

  /** The levels of a log, record by record. */
  function Levels(log: seq<LogRecord>): (ls: seq<LogLevel>)
    ensures |ls| == |log| && forall i :: 0 <= i < |log| ==> ls[i] == log[i].Level()
  {
    if |log| == 0 then [] else [log[0].Level()] + Levels(log[1..])
  }

  /** `if not instance.pk`: no primary key yet, or the falsy key 0. */
  predicate IsNew(instance: DeviceRow) {
    instance.pk.None? || instance.pk.value == 0
  }

  /** The saved device is stored, and its stored status differs from the incoming one. */
  predicate StatusChanges(instance: DeviceRow, stored: map<int, DeviceRow>) {
    && !IsNew(instance)
    && instance.pk.value in stored
    && stored[instance.pk.value].status != instance.status
  }

  /**
   * How a block of Python code ended: it ran to its end, or an exception left
   * it part-way; `report` holds the effects it had by then.
   */
  datatype Attempt = Finished(report: HookReport) | Threw(report: HookReport)

  /**
   * The body of the `try` block on its own, for a device that has a key.
   * `Device.objects.get` raises `DoesNotExist` for a key that is not stored,
   * reading `instance.supported_device` raises when the relation is missing
   * (before anything is logged), and `set_device_state` may raise after the
   * change is logged.
   */
  function HookBody(instance: DeviceRow, stored: map<int, DeviceRow>, outcome: CallOutcome): (a: Attempt)
    requires !IsNew(instance)
    ensures a.Threw? <==>
              instance.pk.value !in stored ||
              (StatusChanges(instance, stored) && (instance.supportedDevice.None? || outcome.Raised?))
    ensures |a.report.calls| == 1 <==> StatusChanges(instance, stored) && instance.supportedDevice.Some?
    ensures HandlerError !in a.report.log
  {
    if instance.pk.value !in stored then Threw(HookReport([], []))
    else
      var before := stored[instance.pk.value];
      if before.status == instance.status then Finished(HookReport([], []))
      else if instance.supportedDevice.None? then Threw(HookReport([], []))
      else
        var changed := StatusChanged(instance.name, before.status, instance.status);
        match outcome
        case Returned(true) => Finished(HookReport([instance], [changed]))
        case Returned(false) => Finished(HookReport([instance], [changed, ControlFailed(instance.name)]))
        case Raised => Threw(HookReport([instance], [changed]))
  }

  /**
   * The receiver: a device without a key is skipped, and whatever the `try`
   * block raises is caught by `except Exception` and logged as an error, so
   * the receiver itself always returns.
   */
  function UpdateHomeIoOnDeviceChange(instance: DeviceRow, stored: map<int, DeviceRow>, outcome: CallOutcome): (r: Attempt)
    ensures r.Finished?
    ensures |r.report.calls| <= 1
    ensures |r.report.calls| == 1 <==> StatusChanges(instance, stored) && instance.supportedDevice.Some?
    ensures |r.report.calls| == 1 ==> r.report.calls[0] == instance
    ensures IsNew(instance) ==> r.report == HookReport([], [])
    ensures !StatusChanges(instance, stored) && !IsNew(instance) && instance.pk.value in stored ==> r.report == HookReport([], [])
    ensures Warning in Levels(r.report.log) <==> |r.report.calls| == 1 && outcome == Returned(false)
    ensures Error in Levels(r.report.log) <==>
              !IsNew(instance) && (instance.pk.value !in stored ||
                (StatusChanges(instance, stored) && (instance.supportedDevice.None? || outcome.Raised?)))
    ensures |r.report.log| <= 2
  {
    if IsNew(instance) then Finished(HookReport([], []))
    else
      match HookBody(instance, stored, outcome)
      case Finished(report) => Finished(report)
      case Threw(report) => Finished(HookReport(report.calls, report.log + [HandlerError]))
  }

  /** The row the database holds after `save()`; a new device gets the key `newPk` the database assigns. */
  function WriteRow(stored: map<int, DeviceRow>, instance: DeviceRow, newPk: int): (r: map<int, DeviceRow>)
    ensures instance.pk.Some? ==> instance.pk.value in r && r[instance.pk.value] == instance
    ensures instance.pk.None? ==> newPk in r && r[newPk] == instance.(pk := Some(newPk))
    ensures forall k :: k in stored && k != (if instance.pk.Some? then instance.pk.value else newPk) ==>
              k in r && r[k] == stored[k]
  {
    match instance.pk
    case Some(k) => stored[k := instance]
    case None => stored[newPk := instance.(pk := Some(newPk))]
  }

  /**
   * `save()` once the `pre_save` receiver has run as `hook` describes: an
   * exception escaping a receiver leaves `save()` before anything is
   * written; otherwise the row is written.
   */
  function SaveAfter(stored: map<int, DeviceRow>, instance: DeviceRow, newPk: int, hook: Attempt): (map<int, DeviceRow>, HookReport) {
    match hook
    case Threw(report) => (stored, report)
    case Finished(report) => (WriteRow(stored, instance, newPk), report)
  }

  /** `instance.save()` with this module's receiver connected to `pre_save`. */
  function Save(stored: map<int, DeviceRow>, instance: DeviceRow, newPk: int, outcome: CallOutcome): (map<int, DeviceRow>, HookReport) {
    SaveAfter(stored, instance, newPk, UpdateHomeIoOnDeviceChange(instance, stored, outcome))
  }

  /**
   * The receiver never stops the save: whatever the service does, `save()`
   * writes the row.
   */
  lemma SaveProceeds(stored: map<int, DeviceRow>, instance: DeviceRow, newPk: int, outcome: CallOutcome)
    ensures Save(stored, instance, newPk, outcome).0 == WriteRow(stored, instance, newPk)
    ensures instance.pk.Some? ==> Save(stored, instance, newPk, outcome).0[instance.pk.value] == instance
  {
    assert UpdateHomeIoOnDeviceChange(instance, stored, outcome).Finished?;
  }

  /**
   * The `except` clause is what keeps the save going: when the service
   * raises on a flipped device, the bare `try` body would stop the save and
   * the flipped status would never be stored, while the receiver stores it.
   */
  lemma UncaughtRaiseStopsSave(stored: map<int, DeviceRow>, k: int, newPk: int)
    requires k != 0 && k in stored && stored[k].pk == Some(k) && stored[k].supportedDevice.Some?
    ensures var flipped := stored[k].(status := !stored[k].status);
      && HookBody(flipped, stored, Raised).Threw?
      && SaveAfter(stored, flipped, newPk, HookBody(flipped, stored, Raised)).0 == stored
      && Save(stored, flipped, newPk, Raised).0 == stored[k := flipped]
      && stored[k := flipped] != stored
  {
    var flipped := stored[k].(status := !stored[k].status);
    assert stored[k := flipped][k] != stored[k];
  }

  /** Saving the same device twice in a row calls the service at most once: the second save sees no change. */
  lemma SecondSaveIsQuiet(stored: map<int, DeviceRow>, instance: DeviceRow, newPk: int, a: CallOutcome, b: CallOutcome)
    requires !IsNew(instance)
    ensures var after := Save(stored, instance, newPk, a).0;
      Save(after, instance, newPk, b).1 == HookReport([], [])
  {
  }

  /**
   * Flipping a stored device's status and saving it makes exactly one call,
   * with the flipped device, when its supported device loads.
   */
  lemma ToggleCallsOnce(stored: map<int, DeviceRow>, k: int, outcome: CallOutcome)
    requires k != 0 && k in stored && stored[k].pk == Some(k) && stored[k].supportedDevice.Some?
    ensures var flipped := stored[k].(status := !stored[k].status);
      UpdateHomeIoOnDeviceChange(flipped, stored, outcome).report.calls == [flipped]
  {
  }
}
