/** The client's write-behind cache of device states.

    Saves are coalesced in memory and written later; the module proves when nobody can
    tell the difference from a cache that writes every save at once. */
module OfflineCache {
  import opened Wrappers

  datatype State = State(
    deviceId: string, sensor: string, value: real, unit: string, timestamp: string, anomaly: bool,
    plant: string, floor: string)

  datatype Id = Id(deviceId: string, sensor: string)

  type Table = map<Id, State>

  /** Every cache file there is, by path. */
  type Files = map<string, Table>

  const SEPARATOR: char := 31 as char

  function IdOf(s: State): Id { Id(s.deviceId, s.sensor) }

  function KeyFor(id: Id): string { id.deviceId + [SEPARATOR] + id.sensor }

  datatype Op = Open(path: string, works: bool) | Save(state: State) | Timer | Flush | Load

  function TableAt(files: Files, path: string): Table { if path in files then files[path] else map[] }

  // ---- The cache that writes at once ----

  datatype Plain = Plain(files: Files, path: string, isOpen: bool)

  function Opened(files: Files, path: string, works: bool): Files {
    if works && path !in files then files[path := map[]] else files
  }

  function PlainStep(p: Plain, op: Op): (Plain, Option<Table>) {
    match op
    case Open(path, works) => (Plain(Opened(p.files, path, works), path, works), None)
    case Save(s) =>
      (if p.isOpen then p.(files := p.files[p.path := TableAt(p.files, p.path)[IdOf(s) := s]]) else p, None)
    case Timer | Flush => (p, None)
    case Load => (p, Some(if p.isOpen then TableAt(p.files, p.path) else map[]))
  }

  // ---- The cache that coalesces ----

  datatype Cache = Cache(files: Files, path: string, isOpen: bool, pending: map<string, State>, timerActive: bool)

  /** What a row is once the pending saves are taken into account. */
  function Lookup(t: Table, pending: map<string, State>, id: Id): Option<State> {
    var k := KeyFor(id);
    if k in pending && IdOf(pending[k]) == id then Some(pending[k])
    else if id in t then Some(t[id])
    else None
  }

  function PendingIds(pending: map<string, State>): set<Id> { set k | k in pending :: IdOf(pending[k]) }

  function Overlay(t: Table, pending: map<string, State>): Table {
    map id | id in t.Keys + PendingIds(pending) && Lookup(t, pending, id).Some? :: Lookup(t, pending, id).value
  }

  function Written(c: Cache): Cache {
    if c.pending == map[] then c
    else if !c.isOpen then c.(pending := map[])
    else c.(files := c.files[c.path := Overlay(TableAt(c.files, c.path), c.pending)], pending := map[])
  }

  function CacheStep(c: Cache, op: Op): (Cache, Option<Table>) {
    match op
    case Open(path, works) =>
      var w := Written(c);
      (w.(files := Opened(w.files, path, works), path := path, isOpen := works), None)
    case Save(s) =>
      (if c.isOpen then c.(pending := c.pending[KeyFor(IdOf(s)) := s], timerActive := true) else c, None)
    case Timer => (if c.timerActive then Written(c).(timerActive := false) else c, None)
    case Flush => (Written(c).(timerActive := false), None)
    case Load =>
      if c.isOpen then (Written(c), Some(TableAt(Written(c).files, c.path))) else (c, Some(map[]))
  }

  /** The open file has taken the pending saves, row by row; no other file is touched, and
      none appears or goes. */
  ghost predicate SavedInto(before: Cache, after: Files) {
    && after.Keys == before.files.Keys
    && forall p | p in after ::
         if before.isOpen && p == before.path then
           forall id :: RowAt(after, p, id) == Lookup(before.files[p], before.pending, id)
         else after[p] == before.files[p]
  }

  function RowAt(files: Files, path: string, id: Id): Option<State> {
    if path in files && id in files[path] then Some(files[path][id]) else None
  }

  lemma WritingSaves(c: Cache)
    requires Keyed(c)
    ensures SavedInto(c, Written(c).files)
  {
    if c.pending == map[] {
      assert forall t: Table, id :: Lookup(t, c.pending, id) == if id in t then Some(t[id]) else None;
    } else if c.isOpen {
      forall id ensures RowAt(Written(c).files, c.path, id) == Lookup(c.files[c.path], c.pending, id) {
        OverlayAt(c.files[c.path], c.pending, id);
      }
    }
  }

  // ---- The class ----

  class OfflineCache {
    var files: Files
    var path: string
    var isOpen: bool
    var pending: map<string, State>
    var timerActive: bool

    ghost function Now(): Cache
      reads this
    {
      Cache(files, path, isOpen, pending, timerActive)
    }

    ghost predicate Valid()
      reads this
    {
      WellKept(Now())
    }

    constructor (disk: Files)
      ensures Valid() && Now() == Cache(disk, "", false, map[], false)
    {
      files, path, isOpen, pending, timerActive := disk, "", false, map[], false;
    }

    /** Writes the pending saves in whatever order the hash gives them. */
    method WritePending()
      requires Keyed(Now())
      modifies `files, `pending
      ensures Keyed(Now()) && Now() == Written(old(Now()))
    {
      if pending == map[] { return; }
      if !isOpen {
        pending := map[];
        return;
      }
      var todo, table := pending.Keys, TableAt(files, path);
      ghost var before := table;
      OverlayNothing(before, pending);
      while todo != {}
        invariant Now() == old(Now()) && todo <= pending.Keys
        invariant table == Overlay(before, Without(pending, todo))
        decreases |todo|
      {
        var k :| k in todo;
        var s := pending[k];
        WriteOne(before, pending, todo, k);
        table := table[IdOf(s) := s];
        todo := todo - {k};
      }
      assert Without(pending, {}) == pending;
      files := files[path := table];
      pending := map[];
    }

    method Open(newPath: string, works: bool) returns (ok: bool)
      requires Valid()
      modifies this
      ensures Valid() && Now() == CacheStep(old(Now()), Op.Open(newPath, works)).0 && ok == works
      ensures path == newPath && isOpen == works && pending == map[] && timerActive == old(timerActive)
      ensures SavedInto(old(Now()), map p | p in files && p in old(files) :: files[p])
      ensures forall p | p in files && p !in old(files) :: works && p == newPath && files[p] == map[]
      ensures old(files).Keys <= files.Keys && (works ==> newPath in files)
    {
      WritingSaves(Now());
      WritePending();
      path := newPath;
      isOpen := works;
      ghost var written := files;
      if isOpen && path !in files { files := files[path := map[]]; }
      assert (map p | p in files && p in old(files) :: files[p]) == written;
      ok := isOpen;
    }

    method SaveDeviceState(s: State)
      requires Valid()
      modifies this
      ensures Valid() && Now() == CacheStep(old(Now()), Save(s)).0
      ensures isOpen ==> pending == old(pending)[s.deviceId + [SEPARATOR] + s.sensor := s] && timerActive
      ensures !isOpen ==> pending == old(pending) && timerActive == old(timerActive)
      ensures files == old(files) && path == old(path) && isOpen == old(isOpen)
    {
      if !isOpen { return; }
      pending := pending[s.deviceId + [SEPARATOR] + s.sensor := s];
      if !timerActive { timerActive := true; }
    }

    method FlushNow()
      requires Keyed(Now())
      modifies this
      ensures Valid() && Now() == CacheStep(old(Now()), Flush).0
      ensures SavedInto(old(Now()), files) && pending == map[] && !timerActive
      ensures path == old(path) && isOpen == old(isOpen)
    {
      WritingSaves(Now());
      timerActive := false;
      WritePending();
    }

    /** The single-shot timer runs out. */
    method OnTimeout()
      requires Valid()
      modifies this
      ensures Valid() && Now() == CacheStep(old(Now()), Timer).0
      ensures SavedInto(old(Now()), files) && pending == map[] && !timerActive
      ensures path == old(path) && isOpen == old(isOpen)
    {
      WritingSaves(Now());
      if timerActive {
        timerActive := false;
        FlushNow();
      }
    }

    method LoadDeviceStates() returns (rows: Table)
      requires Valid()
      modifies this
      ensures Valid() && (Now(), Some(rows)) == CacheStep(old(Now()), Load)
      ensures SavedInto(old(Now()), files) && pending == map[]
      ensures path == old(path) && isOpen == old(isOpen) && timerActive == old(timerActive)
      ensures if isOpen then path in files && rows == files[path] else rows == map[] && files == old(files)
    {
      WritingSaves(Now());
      if !isOpen { return map[]; }
      WritePending();
      rows := TableAt(files, path);
    }
  }

  /** Pending saves sit under their own keys. */
  ghost predicate Keyed(c: Cache) {
    && (forall k | k in c.pending :: k == KeyFor(IdOf(c.pending[k])))
    && (c.isOpen ==> c.path in c.files)
  }

  /** What holds between calls: besides, a closed cache has nothing pending, and something
      pending means that the timer runs. */
  ghost predicate WellKept(c: Cache) {
    Keyed(c) && (!c.isOpen ==> c.pending == map[]) && (c.pending != map[] ==> c.timerActive)
  }

  // ---- The overlay ----

  function Without(pending: map<string, State>, todo: set<string>): map<string, State> {
    map k | k in pending && k !in todo :: pending[k]
  }

  lemma OverlayNothing(t: Table, pending: map<string, State>)
    ensures Without(pending, pending.Keys) == map[]
    ensures Overlay(t, map[]) == t
  {
    assert PendingIds(map[]) == {};
    assert forall id | id in t :: Lookup(t, map[], id) == Some(t[id]);
  }

  lemma OverlayAt(t: Table, pending: map<string, State>, id: Id)
    ensures id in Overlay(t, pending) <==> Lookup(t, pending, id).Some?
    ensures id in Overlay(t, pending) ==> Overlay(t, pending)[id] == Lookup(t, pending, id).value
  {
    var k := KeyFor(id);
    if k in pending && IdOf(pending[k]) == id { assert id in PendingIds(pending); }
  }

  /** No pending save under the same key belongs to another device. */
  predicate NoClash(pending: map<string, State>, s: State) {
    var k := KeyFor(IdOf(s));
    k in pending ==> IdOf(pending[k]) == IdOf(s)
  }

  /** One more pending save is one more row. */
  lemma OverlayInsert(t: Table, pending: map<string, State>, s: State)
    requires NoClash(pending, s)
    ensures Overlay(t, pending[KeyFor(IdOf(s)) := s]) == Overlay(t, pending)[IdOf(s) := s]
  {
    hide Overlay;
    var later := pending[KeyFor(IdOf(s)) := s];
    var a, b := Overlay(t, later), Overlay(t, pending)[IdOf(s) := s];
    forall id ensures (id in a <==> id in b) && (id in a ==> a[id] == b[id]) {
      OverlayAt(t, later, id);
      OverlayAt(t, pending, id);
    }
  }

  lemma WriteOne(t: Table, pending: map<string, State>, todo: set<string>, k: string)
    requires k in todo && todo <= pending.Keys && k == KeyFor(IdOf(pending[k]))
    ensures Overlay(t, Without(pending, todo - {k})) == Overlay(t, Without(pending, todo))[IdOf(pending[k]) := pending[k]]
  {
    hide Overlay;
    OverlayInsert(t, Without(pending, todo), pending[k]);
    assert Without(pending, todo - {k}) == Without(pending, todo)[k := pending[k]];
  }

  // ---- Nobody can tell the difference ----

  /** What a cache that writes at once would have on disk. */
  function View(c: Cache): Plain { Plain(Written(c).files, c.path, c.isOpen) }

  predicate Over(op: Op, devices: set<string>) { op.Save? ==> op.state.deviceId in devices }

  predicate PendingOver(c: Cache, devices: set<string>) {
    forall k | k in c.pending :: c.pending[k].deviceId in devices
  }

  /** No device id is another one followed by the separator. */
  ghost predicate Separated(devices: set<string>) {
    forall a, b | a in devices && b in devices :: !(a + [SEPARATOR] <= b)
  }

  lemma KeysTellApart(a: Id, b: Id)
    requires KeyFor(a) == KeyFor(b) && a != b && |a.deviceId| <= |b.deviceId|
    ensures a.deviceId + [SEPARATOR] <= b.deviceId
  {
    var n, k := |a.deviceId|, KeyFor(a);
    assert k[..n] == a.deviceId && k[n] == SEPARATOR && k[n + 1..] == a.sensor;
    assert k[..|b.deviceId|] == b.deviceId && k[|b.deviceId| + 1..] == b.sensor;
    assert n < |b.deviceId|;
    assert b.deviceId[..n + 1] == k[..n + 1] == a.deviceId + [SEPARATOR];
  }

  lemma SeparatedKeys(devices: set<string>, a: Id, b: Id)
    requires Separated(devices) && a.deviceId in devices && b.deviceId in devices && KeyFor(a) == KeyFor(b)
    ensures a == b
  {
    if a != b {
      if |a.deviceId| <= |b.deviceId| { KeysTellApart(a, b); } else { KeysTellApart(b, a); }
      assert false;
    }
  }

  lemma WrittenLater(c: Cache)
    requires Keyed(c)
    ensures Keyed(Written(c)) && Written(c).pending == map[] && View(Written(c)) == View(c)
  {
    hide Overlay;
  }

  lemma SaveShows(c: Cache, s: State)
    requires WellKept(c) && c.isOpen && NoClash(c.pending, s)
    ensures View(CacheStep(c, Save(s)).0) == PlainStep(View(c), Save(s)).0
  {
    hide Overlay;
    var table := TableAt(c.files, c.path);
    OverlayInsert(table, c.pending, s);
    OverlayNothing(table, c.pending);
  }

  /** One call on the coalescing cache and the same call on the cache that writes at once. */
  lemma StepRefines(c: Cache, op: Op, devices: set<string>)
    requires WellKept(c) && PendingOver(c, devices) && Over(op, devices) && Separated(devices)
    ensures var (d, out) := CacheStep(c, op);
            && WellKept(d) && PendingOver(d, devices)
            && (View(d), out) == PlainStep(View(c), op)
  {
    hide Overlay, Separated;
    WrittenLater(c);
    if op.Save? && c.isOpen {
      var k := KeyFor(IdOf(op.state));
      if k in c.pending { SeparatedKeys(devices, IdOf(c.pending[k]), IdOf(op.state)); }
      SaveShows(c, op.state);
    }
  }

  function PlainRun(p: Plain, ops: seq<Op>): (Plain, seq<Option<Table>>) {
    if ops == [] then (p, [])
    else
      var (q, outs) := PlainRun(p, ops[..|ops| - 1]);
      var (r, out) := PlainStep(q, ops[|ops| - 1]);
      (r, outs + [out])
  }

  function CacheRun(c: Cache, ops: seq<Op>): (Cache, seq<Option<Table>>) {
    if ops == [] then (c, [])
    else
      var (d, outs) := CacheRun(c, ops[..|ops| - 1]);
      var (e, out) := CacheStep(d, ops[|ops| - 1]);
      (e, outs + [out])
  }

  predicate AllOver(ops: seq<Op>, devices: set<string>) { forall i | 0 <= i < |ops| :: Over(ops[i], devices) }

  /** Over any run: every load returns what it would if every save were written at once,
      nothing is pending in a closed cache, and something pending means the timer runs. */
  lemma {:induction false} RunRefines(c: Cache, ops: seq<Op>, devices: set<string>)
    requires WellKept(c) && PendingOver(c, devices) && AllOver(ops, devices) && Separated(devices)
    ensures var (d, outs) := CacheRun(c, ops);
            && WellKept(d) && PendingOver(d, devices)
            && (View(d), outs) == PlainRun(View(c), ops)
  {
    if ops != [] {
      var last := |ops| - 1;
      RunRefines(c, ops[..last], devices);
      hide CacheStep, PlainStep, View, Separated, WellKept, PendingOver;
      StepRefines(CacheRun(c, ops[..last]).0, ops[last], devices);
    }
  }

  function Fresh(disk: Files): Cache { Cache(disk, "", false, map[], false) }

  /** Nobody who uses only these device ids can tell the two caches apart by loading. */
  ghost predicate Transparent(devices: set<string>) {
    forall disk, ops | AllOver(ops, devices) ::
      CacheRun(Fresh(disk), ops).1 == PlainRun(Plain(disk, "", false), ops).1
  }

  function Example(d: string, s: string): State { State(d, s, 0.0, "", "", false, "", "") }

  /** Two device ids of which one continues the other after a separator lose a save. */
  function LosingRun(a: string, b: string): seq<Op>
    requires a + [SEPARATOR] <= b
  {
    [Open("f", true), Save(Example(a, b[|a| + 1..] + [SEPARATOR])), Save(Example(b, "")), Load]
  }

  lemma LosingRunLoses(a: string, b: string)
    requires a + [SEPARATOR] <= b
    ensures CacheRun(Fresh(map[]), LosingRun(a, b)).1 != PlainRun(Plain(map[], "", false), LosingRun(a, b)).1
  {
    var ops := LosingRun(a, b);
    var x, y := ops[1].state, ops[2].state;
    assert a != b;
    assert KeyFor(IdOf(x)) == KeyFor(IdOf(y)) by {
      assert b == (a + [SEPARATOR]) + b[|a| + 1..];
      assert KeyFor(IdOf(x)) == (a + [SEPARATOR]) + (b[|a| + 1..] + [SEPARATOR]);
      assert KeyFor(IdOf(y)) == b + [SEPARATOR] + "" == b + [SEPARATOR];
    }
    CachedFour(x, y);
    PlainFour(x, y);
  }

  lemma CachedFour(x: State, y: State)
    requires KeyFor(IdOf(x)) == KeyFor(IdOf(y)) && IdOf(x) != IdOf(y)
    ensures var outs := CacheRun(Fresh(map[]), [Open("f", true), Save(x), Save(y), Load]).1;
            |outs| == 4 && outs[3].Some? && IdOf(x) !in outs[3].value
  {
    var k := KeyFor(IdOf(x));
    var c1 := Cache(map["f" := map[]], "f", true, map[], false);
    var c3 := Cache(map["f" := map[]], "f", true, map[k := y], true);
    var o1, o2, o3 := [Open("f", true)], [Open("f", true), Save(x)], [Open("f", true), Save(x), Save(y)];
    assert o1[..0] == [] && o2[..1] == o1 && o3[..2] == o2;
    assert [Open("f", true), Save(x), Save(y), Load][..3] == o3;
    assert CacheRun(Fresh(map[]), o1).0 == c1;
    assert CacheRun(Fresh(map[]), o2).0 == c1.(pending := map[k := x], timerActive := true);
    assert map[k := x][k := y] == map[k := y];
    assert CacheRun(Fresh(map[]), o3).0 == c3;
    assert Lookup(map[], map[k := y], IdOf(x)).None?;
    OverlayAt(map[], map[k := y], IdOf(x));
  }

  lemma PlainFour(x: State, y: State)
    requires IdOf(x) != IdOf(y)
    ensures var outs := PlainRun(Plain(map[], "", false), [Open("f", true), Save(x), Save(y), Load]).1;
            |outs| == 4 && outs[3].Some? && IdOf(x) in outs[3].value
  {
    var o1, o2, o3 := [Open("f", true)], [Open("f", true), Save(x)], [Open("f", true), Save(x), Save(y)];
    var p0 := Plain(map[], "", false);
    assert o1[..0] == [] && o2[..1] == o1 && o3[..2] == o2;
    assert [Open("f", true), Save(x), Save(y), Load][..3] == o3;
    assert PlainRun(p0, o1).0 == Plain(map["f" := map[]], "f", true);
    assert IdOf(x) in TableAt(PlainRun(p0, o2).0.files, "f");
    assert IdOf(x) in TableAt(PlainRun(p0, o3).0.files, "f");
  }

  /** The coalescing cache is indistinguishable from one that writes every save at once,
      for every disk and every run, exactly when no device id in use is another one
      followed by the separator character. */
  lemma TransparentExactlyWhenSeparated(devices: set<string>)
    ensures Transparent(devices) <==> Separated(devices)
  {
    if Separated(devices) {
      forall disk, ops | AllOver(ops, devices)
        ensures CacheRun(Fresh(disk), ops).1 == PlainRun(Plain(disk, "", false), ops).1
      {
        RunRefines(Fresh(disk), ops, devices);
      }
    } else {
      var a, b :| a in devices && b in devices && a + [SEPARATOR] <= b;
      LosingRunLoses(a, b);
      assert AllOver(LosingRun(a, b), devices);
    }
  }

  /** Device ids free of the separator are always separated. */
  lemma SeparatorFreeIsSeparated(devices: set<string>)
    requires forall d | d in devices :: SEPARATOR !in d
    ensures Separated(devices)
  {
    forall a, b | a in devices && b in devices ensures !(a + [SEPARATOR] <= b) {
      if |a| < |b| { assert b[|a|] in b && (a + [SEPARATOR])[|a|] == SEPARATOR; }
    }
  }
}
