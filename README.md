# Pokémon BLE discovery: advertise and scan sessions

This project models the two stateful cores of a React Native app that swaps creature names over Bluetooth Low Energy advertisements. No connection is ever opened. One side broadcasts a local name `Pokemon:<name>`. The other scans, keeps the devices whose name carries that prefix and lists each device once.

- **Advertise session** (`src/screens/SenderScreen.js`) is `Advertise.AdvertiseSession`. It holds the `isAdvertising` flag and the typed `pokemonName`.
  - `RequestPermissions` is the readiness gate. It fails closed.
  - `StartAdvertising` always issues a stop, ignores a failure of that stop, then broadcasts.
  - `StopAdvertising` clears the flag only if the stop resolves.
  - `PressAdvertiseButton` is the screen's single button. It calls stop while the flag is set and start otherwise.
- **Scan session** (`src/screens/ScannerScreen.js`) is `Scanner.ScanSession`. It holds the `devices` list and the `scanning` flag.
  - `StartScan`, `OnScanEvent` (the scan callback) and `Timeout` (the 5000 ms timer) are its operations.
  - The callback's pure parts are functions in module `Peers`: the prefix filter `IsSighting`, JavaScript's `find` and the `setDevices` updater `AddIfNew`.
  - `Permissions` holds the permission lists and the `every(v => v === GRANTED)` test.
- **Protocol** holds the `Pokemon:` prefix, `LocalName` and JavaScript's `String.prototype.trim`. The trim uses the ECMAScript WhiteSpace and LineTerminator character sets.

The foreign calls are never modelled, only recorded. They are the Android permission service, `react-native-ble-advertiser` and `react-native-ble-plx`.
- Each call is appended to a ghost `log` of `Driver.DriverCall` entries.
- What a call answers is a parameter of the operation that makes it: a `bool` saying whether the promise resolved, or a `Reply<T>`.
- `Platform.OS`, `Platform.Version`, the grant object and the adapter's enabled state are inputs too.

For the advertiser, `Driver.RadioActive(log)` reads the radio state off the log. It assumes that a call whose promise rejected left the radio as it was.

The model also assumes how `react-native-ble-advertiser` reads `broadcast(uuid, serviceUuids, options)`. Its second argument is the list of advertised service UUIDs. With `includeDeviceName` set, `options.deviceName` is what goes on the air as the local name, which is what the scanner reads as `device.name`. `Peers.BroadcastNameIsSighted` depends on this assumption.

## Model

| member | source | states |
|---|---|---|
| `Protocol.TrimStart` | src/screens/SenderScreen.js:91 | the result is a suffix of the input, everything dropped is JS whitespace, and a non-empty result does not start with whitespace |
| `Protocol.TrimEnd` | src/screens/SenderScreen.js:91 | the result is a prefix of the input, everything dropped is JS whitespace, and a non-empty result does not end with whitespace |
| `Protocol.Trim` | src/screens/SenderScreen.js:91 | `trim()` strips whitespace from both ends: the input is a whitespace-only head, then the result, then a whitespace-only tail, and a non-empty result neither starts nor ends with whitespace, so nothing more could be stripped |
| `Protocol.SplitAround` | src/screens/SenderScreen.js:91 | stripping a whitespace head and then a whitespace tail leaves the input split as head, result, tail |
| `Protocol.TrimEmptyIffBlank` | src/screens/SenderScreen.js:91-94 | the test `!pokemonName.trim()` holds exactly when every character of the name is whitespace; the empty name counts |
| `Protocol.LocalName` | src/screens/SenderScreen.js:110 | the broadcast name starts with `Pokemon:`, and stripping the prefix gives back the untrimmed name |
| `Permissions.Values` | src/screens/ScannerScreen.js:42 | `Object.values` keeps one result per property, in order |
| `Permissions.AllGranted` | src/screens/SenderScreen.js:54-56 | true if and only if every value is GRANTED, so a single DENIED or NEVER_ASK_AGAIN makes it false |
| `Permissions.ScanPermissions` | src/screens/ScannerScreen.js:29-39 | fine location is always first; coarse location is never asked for; SCAN, CONNECT and ADVERTISE are each present exactly when the version is at least 31, and then follow in that order; the length is 4 or 1 |
| `Advertise.BroadcastFor` | src/screens/SenderScreen.js:105-112 | the broadcast uses the service UUID `12345678-1234-5678-1234-56789abcdef0` (the constant of line 15), lists it as its only service, includes the device name, and names itself `Pokemon:` followed by the name |
| `Advertise.AdvertiseSession.constructor` | src/screens/SenderScreen.js:18-19 | the session starts with the flag false, the name "Pikachu" and no driver calls |
| `Advertise.AdvertiseSession.SetPokemonName` | src/screens/SenderScreen.js:153-155 | the text input replaces the name. It is only editable while not advertising, and it keeps the session's invariant |
| `Advertise.AdvertiseSession.RequestPermissions` | src/screens/SenderScreen.js:41-88 | ready if and only if the OS is not Android, or the request resolved, every value is GRANTED and the adapter reports enabled. Exactly fine plus coarse location is requested. `isEnabled` is called only after a full grant. A rejection at either step means not ready. The advertiser's state does not change |
| `Advertise.AdvertiseSession.StartAdvertising` | src/screens/SenderScreen.js:90-124 | a blank name makes no call and changes nothing. Otherwise the log gains a stop and then a broadcast of `Pokemon:`+name, whatever the stop's outcome. The flag is true afterwards exactly if the broadcast resolved or it was already true. Stop-before-broadcast holds over the whole log. Called while idle, the flag keeps tracking the radio |
| `Advertise.AdvertiseSession.Attempt` | src/screens/SenderScreen.js:96-123 | the log gains a stop and then a broadcast of `Pokemon:`+name, whatever the stop's outcome; the flag becomes true if the broadcast resolved and is otherwise kept; afterwards the radio is on exactly if the broadcast resolved, or the stop failed and it was on before |
| `Advertise.AdvertiseSession.StopAdvertising` | src/screens/SenderScreen.js:126-138 | exactly one stop is logged; the flag is cleared if and only if it resolves; the flag keeps tracking the radio |
| `Advertise.AdvertiseSession.PressAdvertiseButton` | src/screens/SenderScreen.js:158-160 | the button takes the stop branch while advertising and the start branch otherwise, and the flag keeps tracking the radio |
| `Peers.IsPokemonName` | src/screens/ScannerScreen.js:60 | a name passes exactly when it is present and its first eight characters are `Pokemon:`; the separate non-empty test adds nothing |
| `Peers.IsSighting` | src/screens/ScannerScreen.js:55-60 | errors, null devices and nameless devices never pass; a named device passes exactly when its name starts with `Pokemon:` |
| `Peers.BroadcastNameIsSighted` | src/screens/ScannerScreen.js:60 | any name the sender broadcasts passes the scanner's filter |
| `Peers.Find` | src/screens/ScannerScreen.js:62 | `find` returns a device if and only if some device has the id, and then the first such device |
| `Peers.AddIfNew` | src/screens/ScannerScreen.js:61-67 | a listed id leaves the list unchanged; a new id is appended at the end; distinct ids stay distinct |
| `Peers.Step` | src/screens/ScannerScreen.js:54-68 | an error, a null device or a name that is missing or lacks the prefix leaves the list unchanged; a sighting of a listed id leaves it unchanged; a sighting of a new id appends that device; the old list is always a prefix and the list grows by at most one |
| `Peers.Sightings` | src/screens/ScannerScreen.js:60 | no more devices than events, all carrying protocol names; a single event contributes its device exactly when it passes the filter |
| `Peers.SightingsAreFiltered` | src/screens/ScannerScreen.js:60 | every listed device came from an event that passed the filter, and every event that passed contributed its device |
| `Peers.SightingsAppend` | src/screens/ScannerScreen.js:54-60 | sightings keep arrival order: those of two event runs back to back are those of the first run followed by those of the second |
| `Peers.Dedup` | src/screens/ScannerScreen.js:61-67 | the updater applied to each sighting in turn from the empty list: ids are pairwise distinct and the list is never longer than the sightings |
| `Peers.StepExtendsSession` | src/screens/ScannerScreen.js:54-68 | one more callback event turns the session list for the old events into the list for the old events plus the new one |
| `Peers.DedupKeepsIds` | src/screens/ScannerScreen.js:61-66 | an id is in the session list if and only if it was sighted |
| `Peers.DedupKeepsFirstSightings` | src/screens/ScannerScreen.js:61-66 | each entry is the device of its id's first sighting (first sighting wins), and entries are in first-seen order |
| `Peers.SessionListIsClean` | src/screens/ScannerScreen.js:60-66 | a session's list holds each id once and only names with the protocol prefix |
| `Peers.SessionStep` | src/screens/ScannerScreen.js:54-68 | one callback event turns a session list into the session list of the events so far plus the new one, and the result holds each id once and only protocol names |
| `Peers.RepeatSightingIsIgnored` | src/screens/ScannerScreen.js:62-66 | a repeat sighting of a listed id never grows the list |
| `Scanner.ScanSession.constructor` | src/screens/ScannerScreen.js:17-18 | the screen starts with no devices, not scanning, and no timers or driver calls |
| `Scanner.ScanSession.RequestPermissions` | src/screens/ScannerScreen.js:27-48 | off Android nothing is asked. On Android exactly `ScanPermissions(version)` is requested, and the outcome is "rejected", "all granted" or "alert" as the answer is rejected, entirely GRANTED, or not |
| `Scanner.ScanSession.StartScan` | src/screens/ScannerScreen.js:50-72 | the list is emptied and `scanning` is set before any event, one scan start is logged, and a timeout is queued that holds the list as the closure saw it |
| `Scanner.ScanSession.OnScanEvent` | src/screens/ScannerScreen.js:54-69 | an error only alerts. The list is the updater applied to the old list. Earlier entries are kept, the list grows by at most one, ids stay pairwise distinct, and every entry carries a protocol name |
| `Scanner.ScanSession.Timeout` | src/screens/ScannerScreen.js:72-78 | the scan is stopped and `scanning` is false whatever the list holds. The list is unchanged. The "no devices" alert reads the list captured at start |

The session classes also keep invariants that their methods preserve.
- `AdvertiseSession.Valid()`: every broadcast in the log comes right after a stop.
- `AdvertiseSession.FlagTracksRadio()`: `isAdvertising == RadioActive(log)`.
- `ScanSession.Valid()`:
  - `devices` is the deduplicated sightings of the events delivered since the last start;
  - `scanning` implies a pending timeout;
  - `scanning` agrees with the driver's scan state in the log.

Behaviour of the code worth knowing:
- **Readiness gate.** The sender's readiness result is never used. `setupBLE` (SenderScreen.js:31-39) discards it and sets `bleSupported` to true, so nothing blocks advertising.
- **Scanner permission request.** It only shows an alert and gates nothing.
- **Stop while idle.** `stopAdvertising` always calls the driver. It is not a no-op success while idle, so its outcome decides whether the flag is cleared.
- **Failed start while advertising.** `StartAdvertising` called while already advertising, with a stop that resolves and a broadcast that rejects, leaves `isAdvertising` true although the radio was stopped. Its last `ensures` states this case. The screen's button never calls start while the flag is set, so `PressAdvertiseButton` keeps `FlagTracksRadio()`.
- **Late scan callbacks.** The callback has no guard against events delivered after a stop. `OnScanEvent` applies the updater whenever it is called.
- **"No devices" alert.** The timeout's alert reads the `devices` value captured when `startScan` ran, not the final list. That is the list of the previous session, or the empty initial list.
- **No payload codec.** There is no payload decode and no manufacturer-data channel in the code.

## Left out

- JSX rendering, styles, `Alert.alert` and `console` calls: presentation only. Which alert a branch shows is kept only as the outcomes `StartOutcome`, `PermissionCheck`, `errorAlert` and `noDevicesAlert`.
- The `react-native-ble-advertiser`, `react-native-ble-plx` and `PermissionsAndroid` libraries: foreign calls. They are logged, and their answers are parameters.
- Asynchrony, React state scheduling and the real 5000 ms timer. Awaited steps run in sequence. The timer is the explicit `Timeout` method, which requires a pending timeout because the event loop fires only scheduled timers.
- Concurrency between scan callbacks, the timer and button presses.
- The sender's unmount cleanup (SenderScreen.js:24-28). It reads the `isAdvertising` value captured at mount, which is always false, so it never stops the broadcast. It has no effect to model.
- `setupBLE` and `bleSupported` (SenderScreen.js:20, 31-39): the flag is only ever set to true and the gate's result is dropped.
- The module-level `BleManager` creation and its `destroy` on unmount (ScannerScreen.js:14, 22-24): lifecycle of the foreign library, outside the session logic.
- Advertisement size limits and driver truncation of long names: driver behaviour, not code in the app.
- Strings are sequences of Unicode scalar values rather than UTF-16 code units. Every character `trim` removes lies in the Basic Multilingual Plane, so trimming and prefix tests agree for all strings without lone surrogates.
- App.js: navigation setup only.
