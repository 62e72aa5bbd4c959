/** The sender screen's advertise session: the readiness gate, the
    `isAdvertising` flag and the stop-then-broadcast sequence. */
module Advertise {
  import opened Protocol
  import opened Permissions
  import opened Driver

  /** The service UUID the sender advertises under. */
  const ServiceUuid: string := "12345678-1234-5678-1234-56789abcdef0"

  /** The broadcast a start issues for `name`: the screen's service UUID, the
      same UUID as the only listed service, and the device name `Pokemon:<name>`. */
  function BroadcastFor(name: string): (b: BroadcastSpec)
    ensures b.serviceUuid == ServiceUuid && b.serviceUuids == [ServiceUuid] && b.includeDeviceName
    ensures Prefix <= b.deviceName && b.deviceName[|Prefix|..] == name
  {
    BroadcastSpec(ServiceUuid, [ServiceUuid], true, LocalName(name))
  }

  /** Which branch of `startAdvertising` ran (each shows its own alert). */
  datatype StartOutcome =
    | EmptyName
    | Advertising(localName: string)
    | BroadcastFailed

  class AdvertiseSession {
    var isAdvertising: bool
    var pokemonName: string
    /** Every permission and advertiser call made so far. */
    ghost var log: seq<DriverCall>

    ghost predicate Valid()
      reads this
    {
      StopBeforeBroadcast(log)
    }

    /** The flag says what the advertiser is doing. */
    ghost predicate FlagTracksRadio()
      reads this
    {
      isAdvertising == RadioActive(log)
    }

    /** The screen's initial state: not advertising, the name "Pikachu". */
    constructor ()
      ensures Valid() && FlagTracksRadio()
      ensures !isAdvertising && pokemonName == "Pikachu" && log == []
    {
      isAdvertising := false;
      pokemonName := "Pikachu";
      log := [];
    }

    /** The text input's change handler; the input is editable only while
        not advertising. */
    method SetPokemonName(name: string)
      requires Valid() && !isAdvertising
      modifies this`pokemonName
      ensures Valid()
      ensures pokemonName == name
    {
      pokemonName := name;
    }

    /** The readiness gate. Off Android it is ready without asking. On
        Android it asks for fine and coarse location; it is ready only if the
        request resolved, every answer is Granted and the adapter reports
        enabled. The adapter is queried only after a full grant, and a
        rejected promise at either step means not ready. */
    method RequestPermissions(os: Os, answer: Reply<seq<GrantEntry>>, enabled: Reply<bool>)
      returns (ready: bool)
      requires Valid()
      modifies this`log
      ensures Valid()
      ensures ready <==> os != Android
                         || (answer.Resolved? && AllGranted(Values(answer.value)) && enabled == Resolved(true))
      ensures os != Android ==> log == old(log)
      ensures os == Android ==>
        log == old(log) + [RequestMultiple([AccessFineLocation, AccessCoarseLocation])]
                        + (if answer.Resolved? && AllGranted(Values(answer.value)) then [IsEnabled] else [])
      ensures RadioActive(log) == old(RadioActive(log))
    {
      if os != Android {
        return true;
      }
      ghost var before := log;
      log := log + [RequestMultiple(SenderPermissions)];
      PermissionCallsAreNeutral(before, [RequestMultiple(SenderPermissions)]);
      if answer.Rejected? {
        return false;
      }
      var allGranted := AllGranted(Values(answer.value));
      if !allGranted {
        return false;
      }
      log := log + [IsEnabled];
      PermissionCallsAreNeutral(before, [RequestMultiple(SenderPermissions), IsEnabled]);
      assert log == before + [RequestMultiple(SenderPermissions), IsEnabled];
      if enabled.Rejected? {
        return false;
      }
      ready := enabled.value;
    }

    /** `startAdvertising`. A name that is blank after trimming is rejected
        with no driver call and no state change. Otherwise the attempt runs:
        a stop, then the broadcast of the untrimmed name. */
    method StartAdvertising(stopResolved: bool, broadcastResolved: bool) returns (outcome: StartOutcome)
      requires Valid()
      modifies this`isAdvertising, this`log
      ensures Valid()
      ensures Trim(pokemonName) == [] ==>
        outcome == EmptyName && log == old(log) && isAdvertising == old(isAdvertising)
      ensures Trim(pokemonName) != [] ==>
        log == old(log) + [StopBroadcast(stopResolved), Broadcast(BroadcastFor(pokemonName), broadcastResolved)]
        && isAdvertising == (broadcastResolved || old(isAdvertising))
        && outcome == (if broadcastResolved then Advertising(LocalName(pokemonName)) else BroadcastFailed)
      ensures old(FlagTracksRadio()) && !old(isAdvertising) ==> FlagTracksRadio()
      ensures Trim(pokemonName) != [] && old(isAdvertising) && stopResolved && !broadcastResolved ==>
        isAdvertising && !RadioActive(log)
    {
      if Trim(pokemonName) == [] {
        return EmptyName;
      }
      outcome := Attempt(stopResolved, broadcastResolved);
    }

    /** The `try` block of `startAdvertising`: a stop is always issued first
        and its failure ignored, then the untrimmed name is broadcast as
        `Pokemon:<name>`; the flag is set only if the broadcast resolves and
        is otherwise left as it was. */
    method Attempt(stopResolved: bool, broadcastResolved: bool) returns (outcome: StartOutcome)
      requires Valid()
      modifies this`isAdvertising, this`log
      ensures Valid()
      ensures log == old(log) + [StopBroadcast(stopResolved), Broadcast(BroadcastFor(pokemonName), broadcastResolved)]
      ensures isAdvertising == (broadcastResolved || old(isAdvertising))
      ensures outcome == if broadcastResolved then Advertising(LocalName(pokemonName)) else BroadcastFailed
      ensures RadioActive(log) == (broadcastResolved || (!stopResolved && RadioActive(old(log))))
    {
      // The stop comes first; a rejected stop is caught and only logged to
      // the console, and the broadcast is issued either way.
      ghost var before := log;
      var spec := BroadcastFor(pokemonName);
      AttemptEffect(before, stopResolved, spec, broadcastResolved);
      log := before + [StopBroadcast(stopResolved), Broadcast(spec, broadcastResolved)];
      if broadcastResolved {
        isAdvertising := true;
        outcome := Advertising(LocalName(pokemonName));
      } else {
        outcome := BroadcastFailed;
      }
    }

    /** `stopAdvertising`: one stop request; the flag is cleared only if it
        resolves. */
    method StopAdvertising(stopResolved: bool) returns (stopped: bool)
      requires Valid()
      modifies this`isAdvertising, this`log
      ensures Valid()
      ensures log == old(log) + [StopBroadcast(stopResolved)]
      ensures stopped == stopResolved
      ensures isAdvertising == (old(isAdvertising) && !stopResolved)
      ensures old(FlagTracksRadio()) ==> FlagTracksRadio()
    {
      StopEffect(log, stopResolved);
      log := log + [StopBroadcast(stopResolved)];
      stopped := stopResolved;
      if stopped {
        isAdvertising := false;
      }
    }

    /** The screen's one advertise button: it stops while the flag is set and
        starts otherwise, so through it the flag always tracks the radio. */
    method PressAdvertiseButton(stopResolved: bool, broadcastResolved: bool)
      requires Valid() && FlagTracksRadio()
      modifies this`isAdvertising, this`log
      ensures Valid() && FlagTracksRadio()
      ensures old(isAdvertising) ==> log == old(log) + [StopBroadcast(stopResolved)]
      ensures !old(isAdvertising) && Trim(pokemonName) != [] ==>
        log == old(log) + [StopBroadcast(stopResolved), Broadcast(BroadcastFor(pokemonName), broadcastResolved)]
      ensures !old(isAdvertising) && Trim(pokemonName) == [] ==> log == old(log)
    {
      if isAdvertising {
        var _ := StopAdvertising(stopResolved);
      } else {
        var _ := StartAdvertising(stopResolved, broadcastResolved);
      }
    }
  }
}
