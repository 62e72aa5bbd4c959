/** The scanner screen's pure logic: which scan events name a peer, and
    the `setDevices` updater that keeps one entry per device id. */
module Peers {
  import opened Protocol

  datatype Option<T> = None | Some(value: T)

  /** The fields of a `react-native-ble-plx` device the screen reads; the
      name is null when the advertisement carries none. */
  datatype Device = Device(id: string, name: Option<string>)

  /** One call of the scan callback: an error, or a (possibly null) device. */
  datatype ScanEvent = ScanError(message: string) | Discovered(device: Option<Device>)

  /** `device.name && device.name.startsWith("Pokemon:")`: the name is
      present, non-empty, and starts with the protocol prefix. The
      non-empty test is subsumed: what matters is that the first eight
      characters are `Pokemon:`. */
  predicate IsPokemonName(name: Option<string>): (r: bool)
    ensures r <==> name.Some? && |name.value| >= |Prefix| && name.value[..|Prefix|] == Prefix
  {
    name.Some? && name.value != "" && Prefix <= name.value
  }

  /** `device && device.name && device.name.startsWith("Pokemon:")`: errors,
      null devices and nameless devices never pass; a device passes exactly
      when its name carries the prefix. */
  predicate IsSighting(e: ScanEvent): (r: bool)
    ensures e.ScanError? ==> !r
    ensures e.Discovered? && e.device.None? ==> !r
    ensures e.Discovered? && e.device.Some? && e.device.value.name.None? ==> !r
    ensures e.Discovered? && e.device.Some? && e.device.value.name.Some? ==>
              (r <==> Prefix <= e.device.value.name.value)
  {
    e.Discovered? && e.device.Some? && IsPokemonName(e.device.value.name)
  }

  /** Whatever a sender broadcasts passes the scanner's filter. */
  lemma BroadcastNameIsSighted(id: string, name: string)
    ensures IsSighting(Discovered(Some(Device(id, Some(LocalName(name))))))
  {
  }

  ghost predicate HasId(ds: seq<Device>, id: string) {
    exists i :: 0 <= i < |ds| && ds[i].id == id
  }

  ghost predicate DistinctIds(ds: seq<Device>) {
    forall i, j :: 0 <= i < j < |ds| ==> ds[i].id != ds[j].id
  }

  /** The position of the first device with this id, or |ds| if none has it. */
  ghost function FirstIndex(ds: seq<Device>, id: string): (k: nat)
    ensures k <= |ds|
    ensures forall j :: 0 <= j < k ==> ds[j].id != id
    ensures k < |ds| ==> ds[k].id == id
    ensures k < |ds| <==> HasId(ds, id)
  {
    if ds == [] then 0
    else if ds[0].id == id then 0
    else
      assert forall j :: 0 <= j < |ds| - 1 ==> ds[1..][j] == ds[j + 1];
      1 + FirstIndex(ds[1..], id)
  }

  /** `ds.find(d => d.id === id)`: the first device with that id, if any. */
  function Find(ds: seq<Device>, id: string): (r: Option<Device>)
    ensures r.Some? <==> HasId(ds, id)
    ensures r.Some? ==> r.value.id == id && r.value == ds[FirstIndex(ds, id)]
  {
    if ds == [] then None
    else if ds[0].id == id then Some(ds[0])
    else Find(ds[1..], id)
  }

  /** The updater passed to `setDevices`: a device whose id is already listed
      leaves the list as it is; a new one is appended at the end. Earlier
      entries never change and distinct ids stay distinct. */
  function AddIfNew(prev: seq<Device>, d: Device): (r: seq<Device>)
    ensures HasId(prev, d.id) ==> r == prev
    ensures !HasId(prev, d.id) ==> r == prev + [d]
    ensures DistinctIds(prev) ==> DistinctIds(r)
    ensures HasId(r, d.id)
  {
    if Find(prev, d.id).None? then
      assert (prev + [d])[|prev|] == d;
      prev + [d]
    else prev
  }

  /** The scan callback's effect on the list. An error, a null device or a
      name that is missing or lacks the prefix changes nothing; a sighting of
      a listed id changes nothing; a sighting of a new id is appended. */
  function Step(prev: seq<Device>, e: ScanEvent): (r: seq<Device>)
    ensures e.ScanError? ==> r == prev
    ensures e.Discovered? && (e.device.None? || !IsPokemonName(e.device.value.name)) ==> r == prev
    ensures IsSighting(e) && HasId(prev, e.device.value.id) ==> r == prev
    ensures IsSighting(e) && !HasId(prev, e.device.value.id) ==> r == prev + [e.device.value]
    ensures prev <= r && |r| <= |prev| + 1
  {
    if IsSighting(e) then AddIfNew(prev, e.device.value) else prev
  }

  /** The devices of the sightings among `es`, in arrival order: all carry
      protocol names, and a single event contributes its device exactly when
      it is a sighting. SightingsAreFiltered gives membership in both
      directions and SightingsAppend that order is kept across
      concatenation; together these determine the list. */
  function Sightings(es: seq<ScanEvent>): (ds: seq<Device>)
    ensures |ds| <= |es|
    ensures forall k :: 0 <= k < |ds| ==> IsPokemonName(ds[k].name)
    ensures |es| == 1 ==> ds == if IsSighting(es[0]) then [es[0].device.value] else []
  {
    if es == [] then [] else
      var front := Sightings(es[..|es| - 1]);
      var e := es[|es| - 1];
      if IsSighting(e) then front + [e.device.value] else front
  }

  /** Every entry of Sightings(es) is the device of a sighting in `es`, and
      every sighting's device is an entry. */
  lemma {:induction false} SightingsAreFiltered(es: seq<ScanEvent>)
    ensures forall k :: 0 <= k < |Sightings(es)| ==>
              exists j :: 0 <= j < |es| && IsSighting(es[j]) && es[j].device.value == Sightings(es)[k]
    ensures forall j :: 0 <= j < |es| && IsSighting(es[j]) ==> es[j].device.value in Sightings(es)
  {
    if es == [] {
      assert Sightings(es) == [];
    } else {
      var front := es[..|es| - 1];
      var e := es[|es| - 1];
      SightingsAreFiltered(front);
      var ds, prev := Sightings(es), Sightings(front);
      assert ds == if IsSighting(e) then prev + [e.device.value] else prev;
      assert forall j :: 0 <= j < |front| ==> front[j] == es[j];
      forall k | 0 <= k < |ds|
        ensures exists j :: 0 <= j < |es| && IsSighting(es[j]) && es[j].device.value == ds[k]
      {
        if k < |prev| {
          assert ds[k] == prev[k];
          var j :| 0 <= j < |front| && IsSighting(front[j]) && front[j].device.value == prev[k];
          assert es[j] == front[j];
        } else {
          assert IsSighting(e) && ds[k] == e.device.value && es[|es| - 1] == e;
        }
      }
    }
  }

  /** Sightings keep arrival order: those of a concatenation are those of
      each part, one after the other. */
  lemma {:induction false} SightingsAppend(a: seq<ScanEvent>, b: seq<ScanEvent>)
    ensures Sightings(a + b) == Sightings(a) + Sightings(b)
  {
    if b == [] {
      assert a + b == a;
    } else {
      var front := b[..|b| - 1];
      SightingsAppend(a, front);
      assert (a + b)[..|a + b| - 1] == a + front;
      assert (a + b)[|a + b| - 1] == b[|b| - 1];
    }
  }

  /** The list a scan session holds after the sightings `ds`: the updater
      applied to each in turn, starting from the empty list. Ids are pairwise
      distinct and the list is never longer than the sightings. */
  function Dedup(ds: seq<Device>): (r: seq<Device>)
    ensures DistinctIds(r) && |r| <= |ds|
  {
    if ds == [] then [] else AddIfNew(Dedup(ds[..|ds| - 1]), ds[|ds| - 1])
  }

  /** Folding the callback over a session's events gives the deduplicated
      sightings, event by event. */
  lemma StepExtendsSession(es: seq<ScanEvent>, e: ScanEvent)
    ensures Dedup(Sightings(es + [e])) == Step(Dedup(Sightings(es)), e)
  {
  }

  /** Appending a device adds its id to those present, and no other. */
  lemma HasIdAppend(ds: seq<Device>, x: Device, id: string)
    ensures HasId(ds + [x], id) <==> HasId(ds, id) || x.id == id
  {
    if HasId(ds, id) {
      var i :| 0 <= i < |ds| && ds[i].id == id;
      assert (ds + [x])[i] == ds[i];
    }
    if x.id == id {
      assert (ds + [x])[|ds|] == x;
    }
    if HasId(ds + [x], id) && x.id != id {
      var i :| 0 <= i < |ds| + 1 && (ds + [x])[i].id == id;
      assert i < |ds| && ds[i] == (ds + [x])[i];
    }
  }

  /** Where the first device with an id sits does not move when a device
      is appended; an id seen for the first time sits at the end. */
  lemma FirstIndexAppend(ds: seq<Device>, x: Device, id: string)
    ensures HasId(ds, id) ==> FirstIndex(ds + [x], id) == FirstIndex(ds, id)
    ensures !HasId(ds, id) && x.id == id ==> FirstIndex(ds + [x], id) == |ds|
  {
    assert forall j :: 0 <= j < |ds| ==> (ds + [x])[j] == ds[j];
    assert (ds + [x])[|ds|] == x;
  }

  /** The session list has exactly the sighted ids. */
  lemma {:induction false} DedupKeepsIds(ds: seq<Device>)
    ensures forall id :: HasId(Dedup(ds), id) <==> HasId(ds, id)
  {
    if ds != [] {
      var front := ds[..|ds| - 1];
      var x := ds[|ds| - 1];
      assert ds == front + [x];
      DedupKeepsIds(front);
      var prev := Dedup(front);
      forall id ensures HasId(Dedup(ds), id) <==> HasId(ds, id) {
        HasIdAppend(front, x, id);
        HasIdAppend(prev, x, id);
      }
    }
  }

  /** `cur` is the first sighting of each of its ids in `ds`, in the order
      those ids first appear in `ds`. */
  ghost predicate FirstSightings(ds: seq<Device>, cur: seq<Device>) {
    && (forall k :: 0 <= k < |cur| ==>
          FirstIndex(ds, cur[k].id) < |ds| && cur[k] == ds[FirstIndex(ds, cur[k].id)])
    && (forall k, l :: 0 <= k < l < |cur| ==>
          FirstIndex(ds, cur[k].id) < FirstIndex(ds, cur[l].id))
  }

  /** The session list is exactly the first sighting of every id, in the
      order the ids were first seen: every entry is the device of its id's
      first sighting, and entries are ordered by when their ids first
      appeared. With DedupKeepsIds this determines the list. */
  lemma {:induction false} DedupKeepsFirstSightings(ds: seq<Device>)
    ensures FirstSightings(ds, Dedup(ds))
  {
    if ds != [] {
      var front := ds[..|ds| - 1];
      var x := ds[|ds| - 1];
      assert ds == front + [x];
      DedupKeepsFirstSightings(front);
      DedupKeepsIds(front);
      var prev := Dedup(front);
      if HasId(prev, x.id) {
        assert Dedup(ds) == prev;
        FirstSightingsKept(front, x, prev);
      } else {
        assert Dedup(ds) == prev + [x];
        FirstSightingsAppended(front, x, prev);
      }
    }
  }

  /** Appending a device does not move the first sighting of an id already
      listed. */
  lemma FirstIndicesKept(front: seq<Device>, x: Device, prev: seq<Device>)
    requires FirstSightings(front, prev)
    ensures forall k :: 0 <= k < |prev| ==>
              FirstIndex(front + [x], prev[k].id) == FirstIndex(front, prev[k].id)
  {
    forall k | 0 <= k < |prev|
      ensures FirstIndex(front + [x], prev[k].id) == FirstIndex(front, prev[k].id)
    {
      FirstIndexAppend(front, x, prev[k].id);
    }
  }

  /** A sighting of a listed id keeps the first sightings. */
  lemma FirstSightingsKept(front: seq<Device>, x: Device, prev: seq<Device>)
    requires FirstSightings(front, prev)
    ensures FirstSightings(front + [x], prev)
  {
    FirstIndicesKept(front, x, prev);
    assert forall j :: 0 <= j < |front| ==> (front + [x])[j] == front[j];
  }

  /** The first sighting of a new id joins the first sightings at the end. */
  lemma FirstSightingsAppended(front: seq<Device>, x: Device, prev: seq<Device>)
    requires FirstSightings(front, prev)
    requires !HasId(front, x.id)
    ensures FirstSightings(front + [x], prev + [x])
  {
    var ds, cur := front + [x], prev + [x];
    FirstIndicesKept(front, x, prev);
    FirstIndexAppend(front, x, x.id);
    forall k | 0 <= k < |cur|
      ensures FirstIndex(ds, cur[k].id) < |ds| && cur[k] == ds[FirstIndex(ds, cur[k].id)]
    {
      if k < |prev| {
        var i := FirstIndex(front, prev[k].id);
        assert cur[k] == prev[k] && ds[i] == front[i];
      } else {
        assert cur[k] == x && ds[|front|] == x;
      }
    }
    forall k, l | 0 <= k < l < |cur|
      ensures FirstIndex(ds, cur[k].id) < FirstIndex(ds, cur[l].id)
    {
      assert cur[k] == prev[k];
      if l < |prev| {
        assert cur[l] == prev[l];
      } else {
        assert cur[l] == x;
      }
    }
  }

  /** A session's list holds each id once, and only protocol names. */
  lemma {:induction false} SessionListIsClean(es: seq<ScanEvent>)
    ensures DistinctIds(Dedup(Sightings(es)))
    ensures forall k :: 0 <= k < |Dedup(Sightings(es))| ==> IsPokemonName(Dedup(Sightings(es))[k].name)
  {
    var ds := Sightings(es);
    DedupKeepsIds(ds);
    DedupKeepsFirstSightings(ds);
  }

  /** One callback event on a session list: the updater gives the session
      list of the events so far plus this one, which holds each id once and
      only protocol names. */
  lemma SessionStep(es: seq<ScanEvent>, e: ScanEvent, prev: seq<Device>)
    requires prev == Dedup(Sightings(es))
    ensures Step(prev, e) == Dedup(Sightings(es + [e]))
    ensures DistinctIds(Step(prev, e))
    ensures forall k :: 0 <= k < |Step(prev, e)| ==> IsPokemonName(Step(prev, e)[k].name)
  {
    StepExtendsSession(es, e);
    SessionListIsClean(es + [e]);
  }

  /** A repeated sighting of a listed id never grows the list. */
  lemma {:induction false} RepeatSightingIsIgnored(ds: seq<Device>, d: Device)
    requires HasId(ds, d.id)
    ensures Dedup(ds + [d]) == Dedup(ds)
  {
    DedupKeepsIds(ds);
    assert (ds + [d])[..|ds|] == ds;
  }
}
