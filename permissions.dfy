/** Android runtime permissions as both screens request them, and the
    fail-closed test both apply to the answer. */
module Permissions {

  /** `Platform.OS`; only Android asks for runtime permissions. */
  datatype Os = Android | Ios | OtherOs

  /** `Platform.OS` together with `Platform.Version` (the Android API level). */
  datatype Platform = Platform(os: Os, version: int)

  /** The members of `PermissionsAndroid.PERMISSIONS` the screens use. */
  datatype Permission =
    | AccessFineLocation
    | AccessCoarseLocation
    | BluetoothScan
    | BluetoothConnect
    | BluetoothAdvertise

  /** The members of `PermissionsAndroid.RESULTS`. */
  datatype GrantResult = Granted | Denied | NeverAskAgain

  /** One property of the object `requestMultiple` resolves with. */
  datatype GrantEntry = GrantEntry(permission: Permission, result: GrantResult)

  /** `Object.values(granted)`: the results, in the object's property order. */
  function Values(granted: seq<GrantEntry>): (vs: seq<GrantResult>)
    ensures |vs| == |granted|
    ensures forall i :: 0 <= i < |granted| ==> vs[i] == granted[i].result
  {
    seq(|granted|, i requires 0 <= i < |granted| => granted[i].result)
  }

  /** `values.every(v => v === GRANTED)`: true exactly when no value is
      anything but Granted, so one denial anywhere makes it false (and an
      empty answer makes it true). */
  function AllGranted(vs: seq<GrantResult>): (r: bool)
    ensures r <==> forall i :: 0 <= i < |vs| ==> vs[i] == Granted
  {
    |vs| == 0 || (vs[0] == Granted && AllGranted(vs[1..]))
  }

  /** What the sender requests: fine and coarse location, nothing else. */
  const SenderPermissions: seq<Permission> := [AccessFineLocation, AccessCoarseLocation]

  /** What the scanner requests: fine location always, and the three
      Bluetooth runtime permissions exactly from API level 31 on. */
  function ScanPermissions(version: int): (ps: seq<Permission>)
    ensures |ps| > 0 && ps[0] == AccessFineLocation
    ensures AccessCoarseLocation !in ps
    ensures BluetoothScan in ps <==> version >= 31
    ensures BluetoothConnect in ps <==> version >= 31
    ensures BluetoothAdvertise in ps <==> version >= 31
    ensures |ps| == if version >= 31 then 4 else 1
    ensures version >= 31 ==> ps[1] == BluetoothScan && ps[2] == BluetoothConnect && ps[3] == BluetoothAdvertise
  {
    var base := [AccessFineLocation];
    if version >= 31 then base + [BluetoothScan, BluetoothConnect, BluetoothAdvertise] else base
  }
}
