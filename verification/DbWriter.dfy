/** The batched database writer of the ingestion service. */
module DbWriter {

  datatype Reading = Reading(
    deviceId: string, sensor: string, value: real, unit: string, timestamp: string, anomaly: bool)

  /** One multi-row insert: what was sent and whether the database took it. */
  datatype Batch = Batch(readings: seq<Reading>, committed: bool)

  // ---- The insert statement ----

  /** The columns the statement names, in its order. */
  const COLUMNS := ["device_id", "sensor", "value", "unit", "timestamp", "anomaly"]

  /** What belongs in a column of a reading's row, as text. */
  function Field(r: Reading, column: string, show: real -> string): string {
    if column == "anomaly" then (if r.anomaly then "t" else "f")
    else if column == "device_id" then r.deviceId
    else if column == "sensor" then r.sensor
    else if column == "timestamp" then r.timestamp
    else if column == "unit" then r.unit
    else show(r.value)
  }

  function Column(r: Reading, j: nat, show: real -> string): string
    requires j < 6
  {
    Field(r, COLUMNS[j], show)
  }

  /** The six values in the order they are pushed. */
  lemma ColumnsOf(r: Reading, show: real -> string, j: nat)
    requires j < 6
    ensures Column(r, j, show)
         == [r.deviceId, r.sensor, show(r.value), r.unit, r.timestamp, if r.anomaly then "t" else "f"][j]
  {
    assert "device_id"[0] == 'd' && "sensor"[0] == 's' && "value"[0] == 'v' && "unit"[0] == 'u';
    assert "timestamp"[0] == 't' && "anomaly"[0] == 'a';
  }

  /** Builds the VALUES groups (the number of each placeholder) and the parameter array. */
  method BuildInsert(batch: seq<Reading>, show: real -> string)
    returns (groups: seq<seq<nat>>, params: seq<string>)
    ensures NumberedFor(groups, |batch|) && BoundTo(params, batch, show)
  {
    groups := [];
    for i := 0 to |batch|
      invariant NumberedFor(groups, i)
    {
      var off := i * 6;
      groups := groups + [[off + 1, off + 2, off + 3, off + 4, off + 5, off + 6]];
    }
    params := [];
    for i := 0 to |batch|
      invariant BoundTo(params, batch[..i], show)
    {
      var r := batch[i];
      ghost var before := params;
      hide Column;
      params := params + [r.deviceId, r.sensor, show(r.value), r.unit, r.timestamp, if r.anomaly then "t" else "f"];
      BoundNext(before, batch, i, show, params);
    }
    assert batch[..|batch|] == batch;
  }

  /** Group `i` holds the placeholders 6i+1 to 6i+6. */
  predicate NumberedFor(groups: seq<seq<nat>>, n: nat) {
    && |groups| == n
    && forall i | 0 <= i < n :: |groups[i]| == 6 && forall j | 0 <= j < 6 :: groups[i][j] == 6 * i + j + 1
  }

  /** Parameter 6k+j is column j of reading k. */
  predicate BoundTo(params: seq<string>, batch: seq<Reading>, show: real -> string) {
    && |params| == 6 * |batch|
    && forall p | 0 <= p < |params| :: params[p] == Column(batch[p / 6], p % 6, show)
  }

  lemma BoundNext(params: seq<string>, batch: seq<Reading>, i: nat, show: real -> string, later: seq<string>)
    requires i < |batch| && BoundTo(params, batch[..i], show)
    requires var r := batch[i];
             later == params + [r.deviceId, r.sensor, show(r.value), r.unit, r.timestamp, if r.anomaly then "t" else "f"]
    ensures BoundTo(later, batch[..i + 1], show)
  {
    hide Column;
    var r := batch[i];
    forall j | 0 <= j < 6 ensures later[6 * i + j] == Column(r, j, show) { ColumnsOf(r, show, j); }
    forall p | 0 <= p < |later| ensures later[p] == Column(batch[..i + 1][p / 6], p % 6, show) {
      if p >= |params| { assert p / 6 == i && p % 6 == p - 6 * i; }
    }
  }

  /** The placeholders are 1 to 6n, each used once. */
  lemma EachPlaceholderOnce(groups: seq<seq<nat>>, n: nat, p: nat)
    requires NumberedFor(groups, n) && 1 <= p <= 6 * n
    ensures var i, j := (p - 1) / 6, (p - 1) % 6;
            && 0 <= i < n && 0 <= j < 6 && groups[i][j] == p
            && forall k, l | 0 <= k < n && 0 <= l < 6 && groups[k][l] == p :: k == i && l == j
  {
    var i, j := (p - 1) / 6, (p - 1) % 6;
    assert groups[i][j] == 6 * i + j + 1;
    forall k, l | 0 <= k < n && 0 <= l < 6 && groups[k][l] == p ensures k == i && l == j {
      assert groups[k][l] == 6 * k + l + 1;
    }
  }

  /** What the database stores for one VALUES group. */
  function Stored(group: seq<nat>, params: seq<string>): seq<string>
    requires forall j | 0 <= j < |group| :: 1 <= group[j] <= |params|
  {
    seq(|group|, j requires 0 <= j < |group| => params[group[j] - 1])
  }

  /** What each column of the stored row should hold. */
  function Encoded(r: Reading, show: real -> string): seq<string> {
    seq(6, j requires 0 <= j < 6 => Column(r, j, show))
  }

  /** Row `i` of the insert is reading `i` of the batch, column by column. */
  lemma InsertStoresBatch(batch: seq<Reading>, show: real -> string, groups: seq<seq<nat>>, params: seq<string>, i: nat)
    requires NumberedFor(groups, |batch|) && BoundTo(params, batch, show) && i < |batch|
    ensures forall j | 0 <= j < |groups[i]| :: 1 <= groups[i][j] <= |params|
    ensures Stored(groups[i], params) == Encoded(batch[i], show)
  {
    hide Column;
    forall j | 0 <= j < 6 ensures 1 <= groups[i][j] <= |params| && params[groups[i][j] - 1] == Column(batch[i], j, show) {
      assert groups[i][j] == 6 * i + j + 1;
      assert (6 * i + j) / 6 == i && (6 * i + j) % 6 == j;
    }
  }

  // ---- Buffering ----

  datatype Writer = Writer(buffer: seq<Reading>, sent: seq<Batch>)

  datatype Call = Write(reading: Reading, works: bool) | Flush(works: bool)

  function Max(a: nat, b: nat): nat { if a < b then b else a }

  function Sent(w: Writer, works: bool): Writer { Writer([], w.sent + [Batch(w.buffer, works)]) }

  /** One call on a connected writer; `works` says whether an insert would succeed. */
  function CallStep(w: Writer, batchSize: nat, c: Call): Writer {
    match c
    case Write(r, works) =>
      var full := w.(buffer := w.buffer + [r]);
      if |full.buffer| >= batchSize then Sent(full, works) else full
    case Flush(works) => if w.buffer == [] then w else Sent(w, works)
  }

  class DbWriter {
    const connected: bool
    const batchSize: nat
    var buffer: seq<Reading>
    ghost var sent: seq<Batch>

    ghost predicate Valid()
      reads this
    {
      |buffer| < Max(1, batchSize) && (!connected ==> buffer == [] && sent == [])
    }

    ghost function Now(): Writer
      reads this
    {
      Writer(buffer, sent)
    }

    constructor (conn: bool, size: nat)
      ensures Valid() && Now() == Writer([], []) && connected == conn && batchSize == size
      ensures buffer == [] && sent == []
    {
      connected, batchSize, buffer, sent := conn, size, [], [];
    }

    /** Sends the buffer as one insert and empties it, whatever the database answers. */
    method InsertBatch(show: real -> string, works: bool) returns (ok: bool)
      requires connected && buffer != []
      modifies this
      ensures ok == works && Now() == Sent(old(Now()), works)
      ensures buffer == [] && sent == old(sent) + [Batch(old(buffer), works)]
    {
      var groups, params := BuildInsert(buffer, show);
      // The database refuses a statement whose placeholders outnumber its parameters.
      ok := works && |params| == 6 * |groups|;
      sent := sent + [Batch(buffer, ok)];
      buffer := [];
    }

    method Write(r: Reading, show: real -> string, works: bool) returns (ok: bool)
      requires Valid()
      modifies this
      ensures Valid()
      ensures !connected ==> !ok && Now() == old(Now())
      ensures connected ==> Now() == CallStep(old(Now()), batchSize, Call.Write(r, works))
      ensures connected ==> (ok <==> works || |old(buffer)| + 1 < batchSize)
      ensures connected && |old(buffer)| + 1 < batchSize ==> buffer == old(buffer) + [r] && sent == old(sent)
      ensures connected && |old(buffer)| + 1 >= batchSize ==>
                buffer == [] && sent == old(sent) + [Batch(old(buffer) + [r], works)]
    {
      if !connected { return false; }
      buffer := buffer + [r];
      if |buffer| >= batchSize {
        ok := InsertBatch(show, works);
      } else {
        ok := true;
      }
    }

    /** Returns how many readings were sent, even if the insert failed. */
    method Flush(show: real -> string, works: bool) returns (count: nat)
      requires Valid()
      modifies this
      ensures Valid() && count == |old(buffer)|
      ensures connected ==> Now() == CallStep(old(Now()), batchSize, Call.Flush(works))
      ensures !connected ==> Now() == old(Now())
      ensures buffer == [] && sent == old(sent) + if count == 0 then [] else [Batch(old(buffer), works)]
    {
      if buffer == [] { return 0; }
      count := |buffer|;
      var _ := InsertBatch(show, works);
    }
  }

  // ---- Nothing gets lost unnoticed ----

  function Run(batchSize: nat, calls: seq<Call>): Writer {
    if calls == [] then Writer([], []) else CallStep(Run(batchSize, calls[..|calls| - 1]), batchSize, calls[|calls| - 1])
  }

  /** The readings handed to `write`, in order. */
  function Accepted(calls: seq<Call>): seq<Reading> {
    if calls == [] then []
    else
      var last := calls[|calls| - 1];
      Accepted(calls[..|calls| - 1]) + if last.Write? then [last.reading] else []
  }

  function Flat(batches: seq<Batch>): seq<Reading> {
    if batches == [] then [] else Flat(batches[..|batches| - 1]) + batches[|batches| - 1].readings
  }

  /** What the database holds: the batches it took. */
  function Committed(batches: seq<Batch>): seq<Reading> {
    if batches == [] then []
    else
      var last := batches[|batches| - 1];
      Committed(batches[..|batches| - 1]) + if last.committed then last.readings else []
  }

  function Failed(batches: seq<Batch>): seq<Reading> {
    if batches == [] then []
    else
      var last := batches[|batches| - 1];
      Failed(batches[..|batches| - 1]) + if last.committed then [] else last.readings
  }

  lemma FlatNext(batches: seq<Batch>, b: Batch)
    ensures Flat(batches + [b]) == Flat(batches) + b.readings
  {
    assert (batches + [b])[..|batches|] == batches;
  }

  /** What was accepted is, in order, what was sent followed by the buffer; the buffer is
      below the batch size, and no batch is empty or larger than that. */
  ghost predicate Conserves(w: Writer, accepted: seq<Reading>, batchSize: nat) {
    && accepted == Flat(w.sent) + w.buffer
    && |w.buffer| < Max(1, batchSize)
    && forall i | 0 <= i < |w.sent| :: 1 <= |w.sent[i].readings| <= Max(1, batchSize)
  }

  lemma SendingConserves(w: Writer, accepted: seq<Reading>, batchSize: nat, works: bool)
    requires accepted == Flat(w.sent) + w.buffer && 1 <= |w.buffer| <= Max(1, batchSize)
    requires forall i | 0 <= i < |w.sent| :: 1 <= |w.sent[i].readings| <= Max(1, batchSize)
    ensures Conserves(Sent(w, works), accepted, batchSize)
  {
    FlatNext(w.sent, Batch(w.buffer, works));
  }

  lemma StepConserves(w: Writer, accepted: seq<Reading>, batchSize: nat, c: Call)
    requires Conserves(w, accepted, batchSize)
    ensures Conserves(CallStep(w, batchSize, c), accepted + if c.Write? then [c.reading] else [], batchSize)
  {
    hide Flat;
    match c
    case Write(r, works) =>
      var full := w.(buffer := w.buffer + [r]);
      assert accepted + [r] == Flat(full.sent) + full.buffer;
      if |full.buffer| >= batchSize { SendingConserves(full, accepted + [r], batchSize, works); }
    case Flush(works) =>
      assert accepted + [] == accepted;
      if w.buffer != [] { SendingConserves(w, accepted, batchSize, works); }
  }

  /** Nothing accepted is lost unnoticed, over any run and with any inserts failing. */
  lemma {:induction false} RunConserves(batchSize: nat, calls: seq<Call>)
    ensures Conserves(Run(batchSize, calls), Accepted(calls), batchSize)
  {
    if calls != [] {
      var last := |calls| - 1;
      RunConserves(batchSize, calls[..last]);
      hide Conserves, CallStep;
      StepConserves(Run(batchSize, calls[..last]), Accepted(calls[..last]), batchSize, calls[last]);
    }
  }

  /** The call asks for an insert: a flush of something, or a write that fills the batch. */
  predicate Inserts(w: Writer, batchSize: nat, c: Call) {
    match c
    case Write(_, _) => |w.buffer| + 1 >= batchSize
    case Flush(_) => w.buffer != []
  }

  /** Call `i` of a run sends exactly one batch if it asks for an insert, and none otherwise;
      the batch is committed exactly if the database took it. */
  lemma BatchesAreAsAnswered(batchSize: nat, calls: seq<Call>, i: nat)
    requires i < |calls|
    ensures var before, after := Run(batchSize, calls[..i]), Run(batchSize, calls[..i + 1]);
            if Inserts(before, batchSize, calls[i]) then
              && |after.sent| == |before.sent| + 1 && after.sent[..|before.sent|] == before.sent
              && after.sent[|before.sent|].committed == calls[i].works && after.buffer == []
            else after.sent == before.sent
  {
    assert calls[..i + 1][..i] == calls[..i];
  }

  /** Every reading sent is stored or was in a batch that failed, as often as it was sent;
      a failed batch is not sent again. */
  lemma {:induction false} StoredOrFailed(batches: seq<Batch>)
    ensures multiset(Flat(batches)) == multiset(Committed(batches)) + multiset(Failed(batches))
  {
    if batches != [] { StoredOrFailed(batches[..|batches| - 1]); }
  }

  /** When no insert fails and the run ends with a flush, the table is exactly what was
      accepted. */
  lemma {:induction false} HealthyRunStoresAll(batchSize: nat, calls: seq<Call>)
    requires forall i | 0 <= i < |calls| :: calls[i].works
    ensures Committed(Run(batchSize, calls + [Flush(true)]).sent) == Accepted(calls)
  {
    var all := calls + [Flush(true)];
    assert all[..|calls|] == calls;
    RunConserves(batchSize, all);
    AllCommitted(batchSize, all);
    CommittedIsFlat(Run(batchSize, all).sent);
    assert Run(batchSize, all).buffer == [];
    assert Flat(Run(batchSize, all).sent) + [] == Flat(Run(batchSize, all).sent);
    assert Accepted(all) == Accepted(calls) + [];
  }

  lemma {:induction false} AllCommitted(batchSize: nat, calls: seq<Call>)
    requires forall i | 0 <= i < |calls| :: calls[i].works
    ensures forall i | 0 <= i < |Run(batchSize, calls).sent| :: Run(batchSize, calls).sent[i].committed
  {
    if calls != [] { AllCommitted(batchSize, calls[..|calls| - 1]); }
  }

  lemma {:induction false} CommittedIsFlat(batches: seq<Batch>)
    requires forall i | 0 <= i < |batches| :: batches[i].committed
    ensures Committed(batches) == Flat(batches)
  {
    if batches != [] { CommittedIsFlat(batches[..|batches| - 1]); }
  }
}
