/** The foreign calls the two screens make: the Android permission service,
    `react-native-ble-advertiser` and `react-native-ble-plx`. None of them is
    modelled; each call is an entry in a ghost log, and what it answers is a
    parameter of the operation that makes the call. */
module Driver {
  import opened Permissions

  /** How an awaited promise settled. */
  datatype Reply<T> = Resolved(value: T) | Rejected

  /** The arguments of `BleAdvertiser.broadcast(uuid, serviceUuids, options)`. */
  datatype BroadcastSpec = BroadcastSpec(
    serviceUuid: string,
    serviceUuids: seq<string>,
    includeDeviceName: bool,
    deviceName: string)

  /** One foreign call, in the order it was made; for the two advertiser
      calls whose outcome matters, whether the promise resolved. */
  datatype DriverCall =
    | RequestMultiple(permissions: seq<Permission>)
    | IsEnabled
    | StopBroadcast(resolved: bool)
    | Broadcast(spec: BroadcastSpec, resolved: bool)
    | StartDeviceScan
    | StopDeviceScan

  /** Every broadcast in the log comes right after a stop request. */
  ghost predicate StopBeforeBroadcast(log: seq<DriverCall>) {
    forall i :: 0 <= i < |log| && log[i].Broadcast? ==> 0 < i && log[i - 1].StopBroadcast?
  }

  /** Whether the advertiser is on after the calls in `log`, taking a call
      whose promise rejected to have left the radio as it was. */
  ghost function RadioActive(log: seq<DriverCall>): bool {
    if log == [] then false
    else match log[|log| - 1]
      case StopBroadcast(true) => false
      case Broadcast(_, true) => true
      case _ => RadioActive(log[..|log| - 1])
  }

  /** Whether a device scan is running after the calls in `log`. */
  ghost function DeviceScanActive(log: seq<DriverCall>): bool {
    if log == [] then false
    else match log[|log| - 1]
      case StartDeviceScan => true
      case StopDeviceScan => false
      case _ => DeviceScanActive(log[..|log| - 1])
  }

  /** Appending calls that touch neither radio role leaves both as they were,
      and cannot break the stop-before-broadcast discipline. */
  lemma {:induction false} PermissionCallsAreNeutral(log: seq<DriverCall>, extra: seq<DriverCall>)
    requires forall i :: 0 <= i < |extra| ==> extra[i].RequestMultiple? || extra[i].IsEnabled?
    ensures RadioActive(log + extra) == RadioActive(log)
    ensures DeviceScanActive(log + extra) == DeviceScanActive(log)
    ensures StopBeforeBroadcast(log) ==> StopBeforeBroadcast(log + extra)
  {
    if extra == [] {
      assert log + extra == log;
    } else {
      var front := extra[..|extra| - 1];
      PermissionCallsAreNeutral(log, front);
      assert (log + extra)[..|log + extra| - 1] == log + front;
      assert (log + extra)[|log + extra| - 1] == extra[|extra| - 1];
    }
  }

  /** A stop request turns the advertiser off exactly when it resolves. */
  lemma StopEffect(log: seq<DriverCall>, resolved: bool)
    ensures StopBeforeBroadcast(log) ==> StopBeforeBroadcast(log + [StopBroadcast(resolved)])
    ensures RadioActive(log + [StopBroadcast(resolved)]) == (!resolved && RadioActive(log))
  {
    assert (log + [StopBroadcast(resolved)])[..|log|] == log;
  }

  /** A stop followed by a broadcast keeps the discipline; afterwards the
      advertiser is on if the broadcast resolved, and otherwise as the stop
      left it. */
  lemma AttemptEffect(log: seq<DriverCall>, stopResolved: bool, spec: BroadcastSpec, resolved: bool)
    ensures StopBeforeBroadcast(log) ==>
      StopBeforeBroadcast(log + [StopBroadcast(stopResolved), Broadcast(spec, resolved)])
    ensures RadioActive(log + [StopBroadcast(stopResolved), Broadcast(spec, resolved)])
            == (resolved || (!stopResolved && RadioActive(log)))
  {
    var mid := log + [StopBroadcast(stopResolved)];
    StopEffect(log, stopResolved);
    assert log + [StopBroadcast(stopResolved), Broadcast(spec, resolved)] == mid + [Broadcast(spec, resolved)];
    assert (mid + [Broadcast(spec, resolved)])[..|mid|] == mid;
  }
}
