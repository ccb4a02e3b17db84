/** The client's table of devices, and how it stays in step with the cache. */
module DeviceModel {
  import opened Wrappers
  import opened OfflineCache

  datatype Row = Row(
    deviceId: string, sensor: string, value: real, unit: string, timestamp: string, anomaly: bool,
    status: string, plant: string, floor: string)

  datatype Reading = Reading(value: real, unit: string, timestamp: string, anomaly: bool)

  datatype Place = Place(plant: string, floor: string)

  datatype Event = Update(id: Id, reading: Reading) | Meta(deviceId: string, place: Place) | Clear

  const UNASSIGNED := Place("Unassigned", "Unassigned")

  function StatusOf(anomaly: bool): string { if anomaly then "critical" else "normal" }

  // ---- What the table should be, given everything that happened ----

  /** The keys with a row, in the order they were first seen since the table was last cleared. */
  function KeysSeen(events: seq<Event>): seq<Id> {
    if events == [] then []
    else
      var before := KeysSeen(events[..|events| - 1]);
      match events[|events| - 1]
      case Clear => []
      case Meta(_, _) => before
      case Update(id, _) => if id in before then before else before + [id]
  }

  function LastReading(events: seq<Event>, id: Id): Option<Reading> {
    if events == [] then None
    else
      match events[|events| - 1]
      case Update(i, r) => if i == id then Some(r) else LastReading(events[..|events| - 1], id)
      case _ => LastReading(events[..|events| - 1], id)
  }

  /** The latest metadata of a device; clearing the table does not forget it. */
  function PlaceOf(events: seq<Event>, deviceId: string): Place {
    if events == [] then UNASSIGNED
    else
      match events[|events| - 1]
      case Meta(d, p) => if d == deviceId then p else PlaceOf(events[..|events| - 1], deviceId)
      case _ => PlaceOf(events[..|events| - 1], deviceId)
  }

  function RowFor(id: Id, r: Reading, p: Place): Row {
    Row(id.deviceId, id.sensor, r.value, r.unit, r.timestamp, r.anomaly, StatusOf(r.anomaly), p.plant, p.floor)
  }

  function KeyOf(row: Row): Id { Id(row.deviceId, row.sensor) }

  ghost predicate Distinct(keys: seq<Id>) { forall i, j | 0 <= i < j < |keys| :: keys[i] != keys[j] }

  /** One row per key, with its last reading and the latest place of its device. */
  ghost predicate Shows(rows: seq<Row>, events: seq<Event>) {
    var keys := KeysSeen(events);
    && |rows| == |keys|
    && forall i | 0 <= i < |rows| ::
         LastReading(events, keys[i]).Some?
         && rows[i] == RowFor(keys[i], LastReading(events, keys[i]).value, PlaceOf(events, keys[i].deviceId))
  }

  ghost predicate Remembers(meta: map<string, Place>, events: seq<Event>) {
    forall d :: PlaceOf(events, d) == if d in meta then meta[d] else UNASSIGNED
  }

  lemma {:induction false} KeysDistinct(events: seq<Event>)
    ensures Distinct(KeysSeen(events))
  {
    if events != [] { KeysDistinct(events[..|events| - 1]); }
  }

  lemma AfterUpdate(events: seq<Event>, id: Id, r: Reading)
    ensures var later := events + [Update(id, r)];
            && KeysSeen(later) == (if id in KeysSeen(events) then KeysSeen(events) else KeysSeen(events) + [id])
            && (forall k :: LastReading(later, k) == if k == id then Some(r) else LastReading(events, k))
            && (forall d :: PlaceOf(later, d) == PlaceOf(events, d))
  {
    assert (events + [Update(id, r)])[..|events|] == events;
  }

  lemma AfterMeta(events: seq<Event>, deviceId: string, p: Place)
    ensures var later := events + [Meta(deviceId, p)];
            && KeysSeen(later) == KeysSeen(events)
            && (forall k :: LastReading(later, k) == LastReading(events, k))
            && (forall d :: PlaceOf(later, d) == if d == deviceId then p else PlaceOf(events, d))
  {
    assert (events + [Meta(deviceId, p)])[..|events|] == events;
  }

  lemma AfterClear(events: seq<Event>)
    ensures var later := events + [Clear];
            && KeysSeen(later) == []
            && (forall k :: LastReading(later, k) == LastReading(events, k))
            && (forall d :: PlaceOf(later, d) == PlaceOf(events, d))
  {
    assert (events + [Clear])[..|events|] == events;
  }

  // ---- The same in terms of the events themselves ----

  /** The place of a device is that of its last metadata, or else unassigned. */
  lemma {:induction false} PlaceIsTheLastGiven(events: seq<Event>, d: string)
    ensures || (exists i :: 0 <= i < |events| && events[i] == Meta(d, PlaceOf(events, d))
                            && forall j | i < j < |events| :: !(events[j].Meta? && events[j].deviceId == d))
            || (PlaceOf(events, d) == Place("Unassigned", "Unassigned")
                && forall j | 0 <= j < |events| :: !(events[j].Meta? && events[j].deviceId == d))
  {
    if events != [] {
      var last := |events| - 1;
      var before := events[..last];
      PlaceIsTheLastGiven(before, d);
      assert forall j | 0 <= j < last :: before[j] == events[j];
      if !(events[last].Meta? && events[last].deviceId == d) {
        if i: int :| 0 <= i < |before| && before[i] == Meta(d, PlaceOf(before, d))
                     && forall j | i < j < |before| :: !(before[j].Meta? && before[j].deviceId == d) {
          assert events[i] == Meta(d, PlaceOf(events, d));
        }
      } else {
        assert events[last] == Meta(d, PlaceOf(events, d));
      }
    }
  }

  /** The reading of a key is that of its last update, if there was one. */
  lemma {:induction false} ReadingIsTheLastGiven(events: seq<Event>, id: Id)
    ensures match LastReading(events, id)
            case Some(r) =>
              exists i :: 0 <= i < |events| && events[i] == Update(id, r)
                          && forall j | i < j < |events| :: !(events[j].Update? && events[j].id == id)
            case None => forall j | 0 <= j < |events| :: !(events[j].Update? && events[j].id == id)
  {
    if events != [] {
      var last := |events| - 1;
      var before := events[..last];
      ReadingIsTheLastGiven(before, id);
      assert forall j | 0 <= j < last :: before[j] == events[j];
      if events[last].Update? && events[last].id == id {
        assert events[last] == Update(id, LastReading(events, id).value);
      } else if LastReading(before, id).Some? {
        var r := LastReading(before, id).value;
        var i :| 0 <= i < |before| && before[i] == Update(id, r)
                 && forall j | i < j < |before| :: !(before[j].Update? && before[j].id == id);
        assert events[i] == Update(id, r);
      }
    }
  }

  /** Event `i` is an update of the key, and the table has not been cleared since. */
  predicate UpdatedAt(events: seq<Event>, i: nat, id: Id) {
    && i < |events| && events[i].Update? && events[i].id == id
    && forall j | i < j < |events| :: !events[j].Clear?
  }

  /** The first of them. */
  predicate FirstSeenAt(events: seq<Event>, i: nat, id: Id) {
    UpdatedAt(events, i, id) && forall j | 0 <= j < i :: !UpdatedAt(events, j, id)
  }

  lemma UpdatedNext(events: seq<Event>, i: nat, id: Id)
    requires events != []
    ensures var last := |events| - 1;
            UpdatedAt(events, i, id)
            <==> if i == last then events[last].Update? && events[last].id == id
                 else UpdatedAt(events[..last], i, id) && !events[last].Clear?
  {
    var last := |events| - 1;
    assert forall j | 0 <= j < last :: events[..last][j] == events[j];
  }

  /** The keys with a row are those updated since the table was last cleared, in the order of
      their first updates. */
  lemma {:induction false} KeysAreThoseUpdated(events: seq<Event>) returns (firsts: seq<nat>)
    ensures |firsts| == |KeysSeen(events)|
    ensures forall i, j | 0 <= i < j < |firsts| :: firsts[i] < firsts[j]
    ensures forall k | 0 <= k < |firsts| :: FirstSeenAt(events, firsts[k], KeysSeen(events)[k])
    ensures forall i: nat, id | UpdatedAt(events, i, id) :: id in KeysSeen(events)
  {
    firsts := [];
    if events != [] {
      var last := |events| - 1;
      var before := events[..last];
      var keys := KeysSeen(before);
      var earlier := KeysAreThoseUpdated(before);
      forall i: nat, id
        ensures UpdatedAt(events, i, id)
                <==> if i == last then events[last].Update? && events[last].id == id
                     else UpdatedAt(before, i, id) && !events[last].Clear?
      {
        UpdatedNext(events, i, id);
      }
      hide UpdatedAt;
      forall k | 0 <= k < |earlier| ensures earlier[k] < last { assert FirstSeenAt(before, earlier[k], keys[k]); UpdatedInRange(before, earlier[k], keys[k]); }
      if !events[last].Clear? {
        firsts := earlier + if events[last].Update? && events[last].id !in keys then [last] else [];
        forall k | 0 <= k < |firsts| ensures FirstSeenAt(events, firsts[k], KeysSeen(events)[k]) {
          if k < |earlier| { assert FirstSeenAt(before, earlier[k], keys[k]); }
        }
      }
    }
  }

  lemma UpdatedInRange(events: seq<Event>, i: nat, id: Id)
    requires UpdatedAt(events, i, id)
    ensures i < |events|
  {
  }

  // ---- The class ----

  class DeviceModel {
    var devices: seq<Row>
    var meta: map<string, Place>
    ghost var history: seq<Event>

    ghost predicate Valid()
      reads this
    {
      Shows(devices, history) && Remembers(meta, history)
    }

    constructor ()
      ensures Valid() && history == []
    {
      devices, meta, history := [], map[], [];
    }

    method FindDevice(id: Id) returns (row: int)
      requires Valid()
      ensures row == -1 <==> id !in KeysSeen(history)
      ensures row != -1 ==> 0 <= row < |devices| && KeysSeen(history)[row] == id
    {
      ghost var keys := KeysSeen(history);
      for i := 0 to |devices|
        invariant id !in keys[..i]
      {
        assert devices[i].deviceId == keys[i].deviceId && devices[i].sensor == keys[i].sensor;
        if devices[i].deviceId == id.deviceId && devices[i].sensor == id.sensor { return i; }
        assert keys[..i + 1] == keys[..i] + [keys[i]];
      }
      assert keys[..|devices|] == keys;
      row := -1;
    }

    /** Returns the state announced by the `deviceUpdated` signal. */
    method UpdateDevice(id: Id, r: Reading) returns (announced: State)
      requires Valid()
      modifies this
      ensures Valid() && history == old(history) + [Update(id, r)]
      ensures announced == Announced(old(history), id, r)
      ensures announced == State(id.deviceId, id.sensor, r.value, r.unit, r.timestamp, r.anomaly, announced.plant, announced.floor)
      ensures exists i :: 0 <= i < |devices|
                          && devices[i] == Row(id.deviceId, id.sensor, r.value, r.unit, r.timestamp, r.anomaly,
                                               if r.anomaly then "critical" else "normal", announced.plant, announced.floor)
      ensures forall j | 0 <= j < |old(devices)| && KeyOf(old(devices)[j]) != id :: j < |devices| && devices[j] == old(devices)[j]
      ensures |devices| == |old(devices)| + (if id in KeysSeen(old(history)) then 0 else 1) && meta == old(meta)
    {
      var row := FindDevice(id);
      KeysDistinct(history);
      AfterUpdate(history, id, r);
      var place: Place;
      if row >= 0 {
        var d := devices[row];
        devices := devices[row := d.(value := r.value, unit := r.unit, timestamp := r.timestamp, anomaly := r.anomaly,
                                     status := StatusOf(r.anomaly))];
        place := Place(d.plant, d.floor);
      } else {
        place := if id.deviceId in meta then meta[id.deviceId] else UNASSIGNED;
        devices := devices + [Row(id.deviceId, id.sensor, r.value, r.unit, r.timestamp, r.anomaly,
                                  StatusOf(r.anomaly), place.plant, place.floor)];
      }
      history := history + [Update(id, r)];
      announced := State(id.deviceId, id.sensor, r.value, r.unit, r.timestamp, r.anomaly, place.plant, place.floor);
      assert devices[if row >= 0 then row else |devices| - 1].deviceId == id.deviceId;
    }

    method UpdateDeviceMeta(deviceId: string, p: Place)
      requires Valid()
      modifies this
      ensures Valid() && history == old(history) + [Meta(deviceId, p)]
      ensures meta == old(meta)[deviceId := p] && |devices| == |old(devices)|
      ensures forall j | 0 <= j < |devices| ::
                var was := old(devices)[j];
                devices[j] == if was.deviceId == deviceId then was.(plant := p.plant, floor := p.floor) else was
    {
      meta := meta[deviceId := p];
      var n := |devices|;
      for i := 0 to n
        invariant |devices| == n && meta == old(meta)[deviceId := p] && history == old(history)
        invariant forall j | i <= j < n :: devices[j] == old(devices)[j]
        invariant forall j | 0 <= j < i :: devices[j] == Moved(old(devices)[j], deviceId, p)
      {
        if devices[i].deviceId == deviceId {
          devices := devices[i := devices[i].(plant := p.plant, floor := p.floor)];
        }
      }
      AfterMeta(history, deviceId, p);
      history := history + [Meta(deviceId, p)];
    }

    /** Empties the table; what is known about plants and floors stays. */
    method ClearAll()
      requires Valid()
      modifies this
      ensures Valid() && devices == [] && KeysSeen(history) == [] && meta == old(meta)
      ensures history == old(history) || history == old(history) + [Clear]
    {
      if devices == [] { return; }
      devices := [];
      AfterClear(history);
      history := history + [Clear];
    }
  }

  function Moved(row: Row, deviceId: string, p: Place): Row {
    if row.deviceId == deviceId then row.(plant := p.plant, floor := p.floor) else row
  }

  function Announced(events: seq<Event>, id: Id, r: Reading): State {
    var p := PlaceOf(events, id.deviceId);
    State(id.deviceId, id.sensor, r.value, r.unit, r.timestamp, r.anomaly, p.plant, p.floor)
  }

  // ---- Restoring the cache at startup ----

  function ReadingOf(s: State): Reading { Reading(s.value, s.unit, s.timestamp, s.anomaly) }

  /** The events of a restore: metadata and reading of each cached state in turn. */
  function Restored(cached: seq<State>): seq<Event> {
    if cached == [] then []
    else
      var s := cached[|cached| - 1];
      Restored(cached[..|cached| - 1]) + [Meta(s.deviceId, Place(s.plant, s.floor)), Update(IdOf(s), ReadingOf(s))]
  }

  /** The rows of a query in some order, each key once. */
  ghost predicate ListsTable(cached: seq<State>, t: Table) {
    && (forall i, j | 0 <= i < j < |cached| :: IdOf(cached[i]) != IdOf(cached[j]))
    && (forall i | 0 <= i < |cached| :: IdOf(cached[i]) in t && t[IdOf(cached[i])] == cached[i])
    && (forall id | id in t :: exists i :: 0 <= i < |cached| && IdOf(cached[i]) == id)
  }

  function IdsOf(cached: seq<State>): (r: seq<Id>)
    ensures |r| == |cached|
  {
    seq(|cached|, i requires 0 <= i < |cached| => IdOf(cached[i]))
  }

  lemma AfterRestoring(events: seq<Event>, s: State)
    ensures var id := IdOf(s); var later := events + [Meta(s.deviceId, Place(s.plant, s.floor)), Update(id, ReadingOf(s))];
            && KeysSeen(later) == (if id in KeysSeen(events) then KeysSeen(events) else KeysSeen(events) + [id])
            && (forall k :: LastReading(later, k) == if k == id then Some(ReadingOf(s)) else LastReading(events, k))
  {
    var meta := Meta(s.deviceId, Place(s.plant, s.floor));
    AfterMeta(events, s.deviceId, Place(s.plant, s.floor));
    AfterUpdate(events + [meta], IdOf(s), ReadingOf(s));
    assert events + [meta, Update(IdOf(s), ReadingOf(s))] == (events + [meta]) + [Update(IdOf(s), ReadingOf(s))];
  }

  /** A restore makes one row per cached key, in query order, each with the reading that
      was cached for it. */
  lemma {:induction false} RestoreRebuilds(cached: seq<State>)
    requires forall i, j | 0 <= i < j < |cached| :: IdOf(cached[i]) != IdOf(cached[j])
    ensures KeysSeen(Restored(cached)) == IdsOf(cached)
    ensures forall i | 0 <= i < |cached| :: LastReading(Restored(cached), IdOf(cached[i])) == Some(ReadingOf(cached[i]))
  {
    if cached != [] {
      var last := |cached| - 1;
      var before := cached[..last];
      RestoreRebuilds(before);
      AfterRestoring(Restored(before), cached[last]);
      assert IdsOf(cached) == IdsOf(before) + [IdOf(cached[last])];
      forall i | 0 <= i < last ensures LastReading(Restored(cached), IdOf(cached[i])) == Some(ReadingOf(cached[i])) {
        assert before[i] == cached[i];
      }
    }
  }

  // ---- Table and cache stay in step ----

  /** Every row's reading is the one the cache holds for its key. */
  ghost predicate InStep(t: Table, events: seq<Event>) {
    forall id | id in KeysSeen(events) ::
      id in t && LastReading(events, id) == Some(ReadingOf(t[id]))
  }

  /** What can happen once the client is running: a table event, with its save, or
      anything the cache does by itself. */
  datatype Live = Happens(event: Event) | CacheDoes(op: Op)

  /** Without reopening the cache or saving behind the table's back. */
  predicate Ordinary(l: Live) { l.CacheDoes? ==> l.op.Timer? || l.op.Flush? || l.op.Load? }

  /** The op the cache sees: the announced state of an update is saved. */
  function CacheOps(events: seq<Event>, l: Live): seq<Op> {
    match l
    case Happens(Update(id, r)) => [Save(Announced(events, id, r))]
    case Happens(_) => []
    case CacheDoes(op) => [op]
  }

  function NextEvents(events: seq<Event>, l: Live): seq<Event> {
    if l.Happens? then events + [l.event] else events
  }

  function NextCache(c: Cache, events: seq<Event>, l: Live): Cache {
    var ops := CacheOps(events, l);
    if ops == [] then c else CacheStep(c, ops[0]).0
  }

  function LiveRun(c: Cache, events: seq<Event>, run: seq<Live>): (Cache, seq<Event>) {
    if run == [] then (c, events)
    else
      var (d, es) := LiveRun(c, events, run[..|run| - 1]);
      (NextCache(d, es, run[|run| - 1]), NextEvents(es, run[|run| - 1]))
  }

  predicate LiveOver(l: Live, devices: set<string>) {
    Ordinary(l) && (l.Happens? && l.event.Update? ==> l.event.id.deviceId in devices)
  }

  function SeenBy(c: Cache): Table { TableAt(View(c).files, c.path) }

  lemma StepInStep(c: Cache, events: seq<Event>, l: Live, devices: set<string>)
    requires WellKept(c) && c.isOpen && PendingOver(c, devices) && Separated(devices) && LiveOver(l, devices)
    requires InStep(SeenBy(c), events)
    ensures var d := NextCache(c, events, l);
            WellKept(d) && d.isOpen && PendingOver(d, devices) && InStep(SeenBy(d), NextEvents(events, l))
  {
    hide WellKept, PendingOver, Separated, View, CacheStep;
    var ops := CacheOps(events, l);
    if ops != [] { StepRefines(c, ops[0], devices); OpensOnlyByOpening(c, ops[0]); }
    match l
    case Happens(Update(id, r)) => AfterUpdate(events, id, r);
    case Happens(Meta(d, p)) => AfterMeta(events, d, p);
    case Happens(Clear) => AfterClear(events);
    case CacheDoes(op) =>
  }

  lemma OpensOnlyByOpening(c: Cache, op: Op)
    requires !op.Open?
    ensures CacheStep(c, op).0.isOpen == c.isOpen && CacheStep(c, op).0.path == c.path
    ensures View(c).isOpen == c.isOpen && View(c).path == c.path
    ensures View(CacheStep(c, op).0).path == c.path
  {
    hide Overlay;
  }

  /** As long as the cache stays open on one file, every row of the table carries the
      reading that the cache would return for its key. */
  lemma {:induction false} StaysInStep(c: Cache, events: seq<Event>, run: seq<Live>, devices: set<string>)
    requires WellKept(c) && c.isOpen && PendingOver(c, devices) && Separated(devices)
    requires forall i | 0 <= i < |run| :: LiveOver(run[i], devices)
    requires InStep(SeenBy(c), events)
    ensures var (d, es) := LiveRun(c, events, run);
            WellKept(d) && d.isOpen && PendingOver(d, devices) && InStep(SeenBy(d), es)
  {
    if run != [] {
      var last := |run| - 1;
      StaysInStep(c, events, run[..last], devices);
      hide NextCache, NextEvents, InStep, WellKept, PendingOver, Separated, SeenBy;
      var (d, es) := LiveRun(c, events, run[..last]);
      StepInStep(d, es, run[last], devices);
    }
  }

  /** From a cold start on: restored from the cache and then kept live, the table never
      disagrees with the cache about a reading. */
  lemma ColdStartStaysInStep(c: Cache, cached: seq<State>, run: seq<Live>, devices: set<string>)
    requires WellKept(c) && c.isOpen && PendingOver(c, devices) && Separated(devices)
    requires ListsTable(cached, CacheStep(c, Load).1.value)
    requires forall i | 0 <= i < |run| :: LiveOver(run[i], devices)
    ensures var (d, es) := LiveRun(CacheStep(c, Load).0, Restored(cached), run);
            InStep(SeenBy(d), es)
  {
    var loaded := CacheStep(c, Load).0;
    StepRefines(c, Load, devices);
    OpensOnlyByOpening(c, Load);
    RestoreRebuilds(cached);
    LoadSees(c);
    forall id | id in KeysSeen(Restored(cached))
      ensures id in SeenBy(loaded) && LastReading(Restored(cached), id) == Some(ReadingOf(SeenBy(loaded)[id]))
    {
      var i :| 0 <= i < |cached| && IdsOf(cached)[i] == id;
    }
    StaysInStep(loaded, Restored(cached), run, devices);
  }

  lemma LoadSees(c: Cache)
    requires WellKept(c) && c.isOpen
    ensures CacheStep(c, Load).1 == Some(SeenBy(CacheStep(c, Load).0))
  {
    hide Overlay;
  }
}
