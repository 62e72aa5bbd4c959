/** The scanner screen's scan session: the `devices` list, the `scanning`
    flag, the scan callback and the 5000 ms timeout, with the permission
    request the screen makes on mount. */
module Scanner {
  import opened Permissions
  import opened Driver
  import opened Peers

  /** What the screen's permission request ends in. It gates nothing: the
      screen only shows an alert when a permission is missing. */
  datatype PermissionCheck =
    | NotAndroid
    | AllPermissionsGranted
    | MissingPermissionsAlert
    | RequestRejected

  class ScanSession {
    var devices: seq<Device>
    var scanning: bool
    /** The pending timeouts, earliest first. Each remembers the `devices`
        value its closure captured when its scan was started. */
    var timers: seq<seq<Device>>
    /** The callback events delivered since the last start. */
    ghost var events: seq<ScanEvent>
    /** Every permission and scanner call made so far. */
    ghost var log: seq<DriverCall>

    ghost predicate Valid()
      reads this
    {
      && devices == Dedup(Sightings(events))
      && (scanning ==> |timers| > 0)
      && scanning == DeviceScanActive(log)
    }

    /** The screen's initial state: no devices, not scanning. */
    constructor ()
      ensures Valid()
      ensures devices == [] && !scanning && timers == [] && events == [] && log == []
    {
      devices := [];
      scanning := false;
      timers := [];
      events := [];
      log := [];
    }

    /** The mount-time permission request. Off Android nothing is asked. On
        Android it asks for fine location, plus scan, connect and advertise
        from API level 31 on, and alerts unless every answer is Granted. A
        rejected request is not caught. */
    method RequestPermissions(platform: Platform, answer: Reply<seq<GrantEntry>>)
      returns (check: PermissionCheck)
      requires Valid()
      modifies this`log
      ensures Valid()
      ensures platform.os != Android ==> check == NotAndroid && log == old(log)
      ensures platform.os == Android ==> log == old(log) + [RequestMultiple(ScanPermissions(platform.version))]
      ensures platform.os == Android ==>
        check == if answer.Rejected? then RequestRejected
                 else if AllGranted(Values(answer.value)) then AllPermissionsGranted
                 else MissingPermissionsAlert
    {
      if platform.os != Android {
        return NotAndroid;
      }
      var permissions := ScanPermissions(platform.version);
      PermissionCallsAreNeutral(log, [RequestMultiple(permissions)]);
      log := log + [RequestMultiple(permissions)];
      if answer.Rejected? {
        return RequestRejected;
      }
      if AllGranted(Values(answer.value)) {
        check := AllPermissionsGranted;
      } else {
        check := MissingPermissionsAlert;
      }
    }

    /** `startScan`: the list is emptied and the flag set before any event
        arrives, the scan is started, and a timeout is scheduled that holds
        the list as it was when the scan was started. */
    method StartScan()
      requires Valid()
      modifies this
      ensures Valid()
      ensures devices == [] && scanning && events == []
      ensures log == old(log) + [StartDeviceScan]
      ensures timers == old(timers) + [old(devices)]
    {
      timers := timers + [devices];
      devices := [];
      scanning := true;
      events := [];
      assert (log + [StartDeviceScan])[..|log|] == log;
      log := log + [StartDeviceScan];
    }

    /** The scan callback. An error only raises an alert; a sighting goes
        through the deduplicating updater; anything else is dropped. The list
        keeps its earlier entries, holds each id once, and holds only
        protocol names. */
    method OnScanEvent(e: ScanEvent) returns (errorAlert: bool)
      requires Valid()
      modifies this`devices, this`events
      ensures Valid()
      ensures errorAlert == e.ScanError?
      ensures devices == Step(old(devices), e)
      ensures events == old(events) + [e]
      ensures old(devices) <= devices && |devices| <= |old(devices)| + 1
      ensures DistinctIds(devices)
      ensures forall k :: 0 <= k < |devices| ==> IsPokemonName(devices[k].name)
    {
      devices, events := Step(devices, e), events + [e];
      errorAlert := e.ScanError?;
      SessionStep(old(events), e, old(devices));
    }

    /** The earliest pending timeout fires: the scan is stopped and the flag
        cleared whatever the list holds. The "no devices" alert reads the list
        that timeout's closure captured, not the current one. */
    method Timeout() returns (noDevicesAlert: bool)
      requires Valid() && |timers| > 0
      modifies this`scanning, this`timers, this`log
      ensures Valid()
      ensures !scanning && devices == old(devices)
      ensures log == old(log) + [StopDeviceScan]
      ensures timers == old(timers)[1..]
      ensures noDevicesAlert == (old(timers)[0] == [])
    {
      noDevicesAlert := timers[0] == [];
      timers := timers[1..];
      scanning := false;
      assert (log + [StopDeviceScan])[..|log|] == log;
      log := log + [StopDeviceScan];
    }
  }
}
