/** The poll loop of the alarm engine.

    Each tick asks the database up to three things, any of which may fail: the catch-up
    cursor, the rules, and the readings after the cursor. The readings table may grow
    between any two queries. */
module AlarmPoll {
  import opened CommitLog
  import opened Wrappers
  import opened RuleEvaluator
  import opened Sequences

  datatype Reading = Reading(
    deviceId: string, sensor: string, value: real, unit: string, timestamp: string, anomaly: bool)

  type Table = seq<Row<Reading>>

  /** What the database answers during one tick: the readings as the catch-up query and the
      fetch see them, the rules as they are stored, and whether each query succeeds. */
  datatype Tick = Tick(
    atCatchUp: Table, catchUpOk: bool, stored: seq<Rule>, loadOk: bool, atFetch: Table, fetchOk: bool)

  // ---- Loading the rules ----

  function WithoutTemplate(rule: Rule): Rule { rule.(messageTemplate := "") }

  /** The rules as the load query returns them: it does not select the template column. */
  function Loaded(stored: seq<Rule>): (r: seq<Rule>)
    ensures |r| == |stored|
  {
    if stored == [] then [] else Loaded(stored[..|stored| - 1]) + [WithoutTemplate(stored[|stored| - 1])]
  }

  lemma {:induction false} LoadedAt(stored: seq<Rule>, i: nat)
    requires i < |stored|
    ensures Loaded(stored)[i] == WithoutTemplate(stored[i])
  {
    if i < |stored| - 1 { LoadedAt(stored[..|stored| - 1], i); }
  }

  method TryLoadRules(stored: seq<Rule>, works: bool) returns (rules: Option<seq<Rule>>)
    ensures rules == if works then Some(Loaded(stored)) else None
    ensures works ==> |rules.value| == |stored| && forall i | 0 <= i < |stored| ::
              var row := stored[i];
              rules.value[i] == Rule(row.id, row.deviceId, row.sensor, row.condition, row.threshold, row.severity, "")
  {
    if !works { return None; }
    forall i: nat | i < |stored| ensures Loaded(stored)[i] == WithoutTemplate(stored[i]) { LoadedAt(stored, i); }
    var loaded := [];
    for i := 0 to |stored|
      invariant loaded == Loaded(stored[..i])
    {
      var row := stored[i];
      assert stored[..i + 1][..i] == stored[..i];
      loaded := loaded + [Rule(row.id, row.deviceId, row.sensor, row.condition, row.threshold, row.severity, "")];
    }
    assert stored[..|stored|] == stored;
    rules := Some(loaded);
  }

  /** At startup a load that fails leaves no rules. */
  method LoadRules(stored: seq<Rule>, works: bool) returns (rules: seq<Rule>)
    ensures rules == Loaded(if works then stored else [])
  {
    var loaded := TryLoadRules(stored, works);
    rules := if loaded.None? then [] else loaded.value;
  }

  function TableAfter(table: Table, ticks: seq<Tick>): Table {
    if ticks == [] then table else ticks[|ticks| - 1].atFetch
  }

  ghost predicate Growing(table: Table, ticks: seq<Tick>) {
    if ticks == [] then Log(table)
    else
      var before, last := ticks[..|ticks| - 1], ticks[|ticks| - 1];
      && Growing(table, before)
      && TableAfter(table, before) <= last.atCatchUp && last.atCatchUp <= last.atFetch && Log(last.atFetch)
  }

  // ---- What a run should do ----

  /** The cursor the engine starts from: the greatest id at the first catch-up query that
      succeeds, at startup (`up`) or in a tick. */
  function StartOf(table: Table, up: bool, ticks: seq<Tick>): Option<int> {
    if ticks == [] then (if up then Some(LastId(table)) else None)
    else
      var before, last := StartOf(table, up, ticks[..|ticks| - 1]), ticks[|ticks| - 1];
      if before.Some? then before
      else if last.catchUpOk then Some(LastId(last.atCatchUp))
      else None
  }

  /** The stored rules at the last successful load since the engine had a cursor, or the
      initial ones. */
  function StoredInForce(initial: seq<Rule>, table: Table, up: bool, ticks: seq<Tick>): seq<Rule> {
    if ticks == [] then initial
    else
      var last := ticks[|ticks| - 1];
      if StartOf(table, up, ticks).Some? && last.loadOk then last.stored
      else StoredInForce(initial, table, up, ticks[..|ticks| - 1])
  }

  function InForce(initial: seq<Rule>, table: Table, up: bool, ticks: seq<Tick>): seq<Rule> {
    Loaded(StoredInForce(initial, table, up, ticks))
  }

  /** Tick `k` reads the table successfully. */
  predicate Fetches(table: Table, up: bool, ticks: seq<Tick>, k: nat)
    requires k < |ticks|
  {
    StartOf(table, up, ticks[..k + 1]).Some? && ticks[k].fetchOk
  }

  /** Tick `k` is the first one that reads the table when it holds the row. */
  ghost predicate FirstFetchOf(table: Table, up: bool, ticks: seq<Tick>, row: Row<Reading>, k: nat) {
    && k < |ticks| && Fetches(table, up, ticks, k) && row in ticks[k].atFetch
    && forall j | 0 <= j < k && Fetches(table, up, ticks, j) :: row !in ticks[j].atFetch
  }

  /** The alarms of each reading under the rule set that goes with it, in order. */
  function Judged(readings: Table, sets: seq<seq<Rule>>, show: real -> string): seq<Alarm>
    requires |readings| == |sets|
  {
    if readings == [] then []
    else
      var last := |readings| - 1;
      Judged(readings[..last], sets[..last], show) + JudgedOne(readings[last].data, sets[last], show)
  }

  function JudgedOne(r: Reading, rules: seq<Rule>, show: real -> string): seq<Alarm> {
    AlarmsOf(rules, r.deviceId, r.sensor, r.value, r.timestamp, show)
  }

  /** The attempts that the database accepted. */
  function Kept(attempted: seq<Alarm>, writeOk: nat -> bool): seq<Alarm> {
    if attempted == [] then []
    else
      var last := |attempted| - 1;
      Kept(attempted[..last], writeOk) + if writeOk(last) then [attempted[last]] else []
  }

  function Same<T>(x: T, n: nat): (r: seq<T>)
    ensures |r| == n
  {
    seq(n, i => x)
  }

  lemma JudgedNone(readings: Table, sets: seq<seq<Rule>>, show: real -> string)
    requires readings == [] && sets == []
    ensures Judged(readings, sets, show) == []
  {
  }

  lemma JudgedAppend(readings: Table, sets: seq<seq<Rule>>, row: Row<Reading>, rules: seq<Rule>, show: real -> string)
    requires |readings| == |sets|
    ensures Judged(readings + [row], sets + [rules], show)
         == Judged(readings, sets, show) + JudgedOne(row.data, rules, show)
  {
    hide JudgedOne;
    assert (readings + [row])[..|readings|] == readings && (sets + [rules])[..|sets|] == sets;
  }

  lemma {:induction false} JudgedJoin(a: Table, sa: seq<seq<Rule>>, b: Table, sb: seq<seq<Rule>>, show: real -> string)
    requires |a| == |sa| && |b| == |sb|
    ensures Judged(a + b, sa + sb, show) == Judged(a, sa, show) + Judged(b, sb, show)
  {
    hide *;
    if b == [] {
      JudgedNone(b, sb, show);
      assert a + b == a && sa + sb == sa;
    } else {
      var last := |b| - 1;
      JudgedJoin(a, sa, b[..last], sb[..last], show);
      JudgedAppend(a + b[..last], sa + sb[..last], b[last], sb[last], show);
      JudgedAppend(b[..last], sb[..last], b[last], sb[last], show);
      SplitLast(b);
      SplitLast(sb);
      ConcatSplitsLast(a, b);
      ConcatSplitsLast(sa, sb);
    }
  }

  lemma JudgedNext(readings: Table, i: nat, rules: seq<Rule>, show: real -> string)
    requires i < |readings|
    ensures Judged(readings[..i + 1], Same(rules, i + 1), show)
         == Judged(readings[..i], Same(rules, i), show)
            + AlarmsOf(rules, readings[i].data.deviceId, readings[i].data.sensor, readings[i].data.value,
                       readings[i].data.timestamp, show)
  {
    hide AlarmsOf;
    assert readings[..i + 1][..i] == readings[..i] && Same(rules, i + 1)[..i] == Same(rules, i);
  }

  // ---- The loop ----

  /** The positions, in ascending order, of the attempts that the database accepted. */
  ghost predicate AcceptedAt(attempted: seq<Alarm>, writeOk: nat -> bool, at: seq<nat>) {
    && (forall i, j | 0 <= i < j < |at| :: at[i] < at[j])
    && forall k: nat :: k in at <==> k < |attempted| && writeOk(k)
  }

  /** Just those attempts, in that order. */
  ghost predicate WrittenAt(written: seq<Alarm>, attempted: seq<Alarm>, at: seq<nat>) {
    |written| == |at| && forall i | 0 <= i < |at| :: at[i] < |attempted| && written[i] == attempted[at[i]]
  }

  lemma {:induction false} KeptAreTheAccepted(attempted: seq<Alarm>, writeOk: nat -> bool) returns (at: seq<nat>)
    ensures AcceptedAt(attempted, writeOk, at) && WrittenAt(Kept(attempted, writeOk), attempted, at)
  {
    at := [];
    if attempted != [] {
      var last := |attempted| - 1;
      var before := KeptAreTheAccepted(attempted[..last], writeOk);
      at := before + if writeOk(last) then [last] else [];
      forall k: nat ensures k in at <==> k < |attempted| && writeOk(k) {
        assert k in before <==> k < last && writeOk(k);
      }
      forall i, j | 0 <= i < j < |at| ensures at[i] < at[j] { if j >= |before| { assert before[i] in before; } }
    }
  }

  /** Writes alarms one by one; a failed insert is not tried again. */
  method WriteAlarms(alarms: seq<Alarm>, writeOk: nat -> bool, attempted0: seq<Alarm>, written0: seq<Alarm>)
    returns (attempted: seq<Alarm>, written: seq<Alarm>)
    requires written0 == Kept(attempted0, writeOk)
    ensures attempted == attempted0 + alarms && written == Kept(attempted, writeOk)
    ensures exists at :: AcceptedAt(attempted, writeOk, at) && WrittenAt(written, attempted, at)
  {
    ghost var places := KeptAreTheAccepted(attempted0 + alarms, writeOk);
    hide AcceptedAt, WrittenAt;
    attempted, written := attempted0, written0;
    for j := 0 to |alarms|
      invariant attempted == attempted0 + alarms[..j]
      invariant written == Kept(attempted, writeOk)
    {
      assert (attempted + [alarms[j]])[..|attempted|] == attempted;
      if writeOk(|attempted|) { written := written + [alarms[j]]; }
      attempted := attempted + [alarms[j]];
    }
  }

  /** The first `i` readings of a batch are evaluated. */
  ghost predicate BatchAt(rules: seq<Rule>, readings: Table, show: real -> string, writeOk: nat -> bool,
                          c: int, before: seq<Alarm>, i: nat, last: int, attempted: seq<Alarm>, written: seq<Alarm>)
    requires i <= |readings|
  {
    && attempted == before + Judged(readings[..i], Same(rules, i), show)
    && written == Kept(attempted, writeOk)
    && last == if i == 0 then c else readings[i - 1].id
  }

  lemma BatchStarts(rules: seq<Rule>, readings: Table, show: real -> string, writeOk: nat -> bool, c: int,
                    before: seq<Alarm>, written: seq<Alarm>)
    requires written == Kept(before, writeOk)
    ensures BatchAt(rules, readings, show, writeOk, c, before, 0, c, before, written)
  {
    hide Kept;
    assert readings[..0] == [] && Same(rules, 0) == [];
  }

  lemma BatchNext(rules: seq<Rule>, readings: Table, show: real -> string, writeOk: nat -> bool, c: int,
                  before: seq<Alarm>, i: nat, last: int, attempted: seq<Alarm>, written: seq<Alarm>,
                  alarms: seq<Alarm>, later: seq<Alarm>)
    requires i < |readings| && BatchAt(rules, readings, show, writeOk, c, before, i, last, attempted, written)
    requires var r := readings[i].data; alarms == AlarmsOf(rules, r.deviceId, r.sensor, r.value, r.timestamp, show)
    requires later == Kept(attempted + alarms, writeOk)
    ensures BatchAt(rules, readings, show, writeOk, c, before, i + 1, readings[i].id, attempted + alarms, later)
  {
    hide Kept, Judged, AlarmsOf;
    JudgedNext(readings, i, rules, show);
  }

  lemma BatchEnds(rules: seq<Rule>, readings: Table, show: real -> string, writeOk: nat -> bool, c: int,
                  before: seq<Alarm>, last: int, attempted: seq<Alarm>, written: seq<Alarm>)
    requires BatchAt(rules, readings, show, writeOk, c, before, |readings|, last, attempted, written)
    ensures attempted == before + Judged(readings, Same(rules, |readings|), show)
    ensures written == Kept(attempted, writeOk) && last == if readings == [] then c else readings[|readings| - 1].id
  {
    hide Kept, Judged;
    assert readings[..|readings|] == readings;
  }

  /** Evaluates the readings of one fetch, in order, moving the cursor along. */
  method EvaluateBatch(rules: seq<Rule>, readings: Table, show: real -> string, writeOk: nat -> bool,
                       lastId: int, attempted0: seq<Alarm>, written0: seq<Alarm>)
    returns (last: int, attempted: seq<Alarm>, written: seq<Alarm>)
    requires written0 == Kept(attempted0, writeOk)
    ensures attempted == attempted0 + Judged(readings, Same(rules, |readings|), show)
    ensures written == Kept(attempted, writeOk)
    ensures last == if readings == [] then lastId else readings[|readings| - 1].id
  {
    hide *;
    last, attempted, written := lastId, attempted0, written0;
    BatchStarts(rules, readings, show, writeOk, lastId, attempted0, written0);
    for i := 0 to |readings|
      invariant BatchAt(rules, readings, show, writeOk, lastId, attempted0, i, last, attempted, written)
      invariant written == Kept(attempted, writeOk)
    {
      var r := readings[i].data;
      var alarms := EvaluateAll(rules, r.deviceId, r.sensor, r.value, r.timestamp, show);
      ghost var before, kept, was := attempted, written, last;
      attempted, written := WriteAlarms(alarms, writeOk, attempted, written);
      last := readings[i].id;
      BatchNext(rules, readings, show, writeOk, lastId, attempted0, i, was, before, kept, alarms, written);
    }
    BatchEnds(rules, readings, show, writeOk, lastId, attempted0, last, attempted, written);
  }

  /** What the loop has reached after some ticks. */
  ghost predicate Reached(table: Table, up: bool, ticks: seq<Tick>, last: Option<int>, evaluated: Table) {
    var start := StartOf(table, up, ticks);
    && (last.Some? <==> start.Some?)
    && (last.None? ==> evaluated == [])
    && (last.Some? ==>
          && 0 <= start.value <= last.value <= LastId(TableAfter(table, ticks))
          && evaluated == Between(TableAfter(table, ticks), start.value, last.value))
  }

  /** Nothing that an earlier fetch could see lies beyond the cursor. */
  ghost predicate FetchedUpTo(table: Table, up: bool, all: seq<Tick>, n: nat, last: Option<int>)
    requires n <= |all|
  {
    forall j | 0 <= j < n && Fetches(table, up, all, j) :: last.Some? && LastId(all[j].atFetch) <= last.value
  }

  ghost predicate AllFirst(table: Table, up: bool, all: seq<Tick>, evaluated: Table, tickOf: seq<nat>) {
    |tickOf| == |evaluated| && forall i | 0 <= i < |evaluated| :: FirstFetchOf(table, up, all, evaluated[i], tickOf[i])
  }

  ghost predicate InRange(tickOf: seq<nat>, n: nat) { forall i | 0 <= i < |tickOf| :: tickOf[i] < n }

  /** The rule set each evaluated reading should be judged by. */
  ghost function SetsFor(initial: seq<Rule>, table: Table, up: bool, all: seq<Tick>, tickOf: seq<nat>): (r: seq<seq<Rule>>)
    requires InRange(tickOf, |all|)
    ensures |r| == |tickOf|
  {
    seq(|tickOf|, i requires 0 <= i < |tickOf| => InForce(initial, table, up, all[..tickOf[i] + 1]))
  }

  lemma StartsReached(table: Table, up: bool, last: Option<int>)
    requires last == (if up then Some(LastId(table)) else None) && Log(table)
    ensures Reached(table, up, [], last, [])
  {
    if up { BetweenEmpty(table, LastId(table), LastId(table)); }
  }

  lemma Grows(table: Table, ticks: seq<Tick>, k: nat)
    requires Growing(table, ticks) && k < |ticks|
    ensures Growing(table, ticks[..k])
    ensures TableAfter(table, ticks[..k]) <= ticks[k].atCatchUp && ticks[k].atCatchUp <= ticks[k].atFetch
    ensures Log(ticks[k].atFetch) && Log(table) && TableAfter(table, ticks[..k + 1]) == ticks[k].atFetch
    decreases |ticks|
  {
    var last := |ticks| - 1;
    if k < last {
      Grows(table, ticks[..last], k);
      assert ticks[..last][..k] == ticks[..k] && ticks[..last][..k + 1] == ticks[..k + 1];
    } else {
      assert ticks[..last + 1] == ticks;
      GrowingFrom(table, ticks);
    }
  }

  lemma GrowingFrom(table: Table, ticks: seq<Tick>)
    requires Growing(table, ticks)
    ensures Log(table)
  {
    if ticks != [] { GrowingFrom(table, ticks[..|ticks| - 1]); }
  }

  /** The catch-up at the head of a tick: the cursor is now set exactly when the engine
      has started, and nothing read so far changes. */
  lemma TickStarts(table: Table, up: bool, ticks: seq<Tick>, k: nat, before: Option<int>, evaluated: Table,
                   last: Option<int>)
    requires Growing(table, ticks) && k < |ticks| && Reached(table, up, ticks[..k], before, evaluated)
    requires last == if before.Some? then before
                     else if ticks[k].catchUpOk then Some(LastId(ticks[k].atCatchUp)) else None
    ensures Reached(table, up, ticks[..k + 1], last, evaluated)
  {
    Grows(table, ticks, k);
    var t0, t := TableAfter(table, ticks[..k]), ticks[k];
    assert ticks[..k + 1][..k] == ticks[..k];
    if before.Some? {
      PollExtends(t0, t.atFetch, StartOf(table, up, ticks[..k]).value, before.value);
    } else if t.catchUpOk {
      assert t.atCatchUp == t.atFetch[..|t.atCatchUp|];
      LogPrefix(t.atFetch, |t.atCatchUp|);
      BetweenEmpty(t.atFetch, last.value, last.value);
    }
  }

  lemma TickReaches(table: Table, up: bool, ticks: seq<Tick>, k: nat, c: int, evaluated: Table, last: int)
    requires Growing(table, ticks) && k < |ticks| && Reached(table, up, ticks[..k + 1], Some(c), evaluated)
    requires last == if ticks[k].fetchOk && After(ticks[k].atFetch, c) != []
                     then After(ticks[k].atFetch, c)[|After(ticks[k].atFetch, c)| - 1].id else c
    ensures ticks[k].fetchOk ==>
              Reached(table, up, ticks[..k + 1], Some(last), evaluated + After(ticks[k].atFetch, c))
              && last == LastId(ticks[k].atFetch)
    ensures !ticks[k].fetchOk ==> last == c
  {
    Grows(table, ticks, k);
    hide StartOf, After, Between, Growing;
    var t := ticks[k].atFetch;
    if ticks[k].fetchOk {
      assert t == t[..|t|];
      PollExtends(t, t, StartOf(table, up, ticks[..k + 1]).value, c);
      AfterReadsToTheEnd(t, c);
    }
  }

  lemma TickFirst(table: Table, up: bool, ticks: seq<Tick>, k: nat, c: int, evaluated: Table, tickOf: seq<nat>,
                  readings: Table)
    requires Growing(table, ticks) && k < |ticks| && StartOf(table, up, ticks[..k + 1]).Some?
    requires FetchedUpTo(table, up, ticks, k, Some(c)) && AllFirst(table, up, ticks, evaluated, tickOf)
    requires readings == if ticks[k].fetchOk then After(ticks[k].atFetch, c) else []
    ensures AllFirst(table, up, ticks, evaluated + readings, tickOf + Same(k, |readings|))
  {
    hide Growing, After, FirstFetchOf;
    var all, later := evaluated + readings, tickOf + Same(k, |readings|);
    forall i | 0 <= i < |all| ensures FirstFetchOf(table, up, ticks, all[i], later[i]) {
      if i >= |evaluated| { FreshRow(table, up, ticks, k, c, i - |evaluated|); }
    }
  }

  lemma FreshRow(table: Table, up: bool, ticks: seq<Tick>, k: nat, c: int, i: nat)
    requires Growing(table, ticks) && k < |ticks| && StartOf(table, up, ticks[..k + 1]).Some?
    requires FetchedUpTo(table, up, ticks, k, Some(c)) && ticks[k].fetchOk
    requires i < |After(ticks[k].atFetch, c)|
    ensures FirstFetchOf(table, up, ticks, After(ticks[k].atFetch, c)[i], k)
  {
    Grows(table, ticks, k);
    var t := ticks[k].atFetch;
    var row := After(t, c)[i];
    AfterReadsToTheEnd(t, c);
    BetweenIsExact(t, c, LastId(t));
    assert row in Between(t, c, LastId(t));
    forall j | 0 <= j < k && Fetches(table, up, ticks, j) ensures row !in ticks[j].atFetch {
      Grows(table, ticks, j);
      LogPrefix(ticks[j].atFetch, |ticks[j].atFetch|);
    }
  }

  lemma TickJudges(initial: seq<Rule>, table: Table, up: bool, ticks: seq<Tick>, tickOf: seq<nat>, k: nat,
                   evaluated: Table, readings: Table, show: real -> string)
    requires k < |ticks| && |tickOf| == |evaluated| && InRange(tickOf, |ticks|)
    ensures InRange(tickOf + Same(k, |readings|), |ticks|)
    ensures Judged(evaluated + readings, SetsFor(initial, table, up, ticks, tickOf + Same(k, |readings|)), show)
         == Judged(evaluated, SetsFor(initial, table, up, ticks, tickOf), show)
            + Judged(readings, Same(InForce(initial, table, up, ticks[..k + 1]), |readings|), show)
  {
    hide Judged, InForce;
    var later, rules := tickOf + Same(k, |readings|), InForce(initial, table, up, ticks[..k + 1]);
    assert InRange(later, |ticks|);
    assert SetsFor(initial, table, up, ticks, later)
        == SetsFor(initial, table, up, ticks, tickOf) + Same(rules, |readings|);
    JudgedJoin(evaluated, SetsFor(initial, table, up, ticks, tickOf), readings, Same(rules, |readings|), show);
  }

  datatype Progress = Progress(
    last: Option<int>, rules: seq<Rule>, evaluated: Table, attempted: seq<Alarm>, tickOf: seq<nat>)

  /** What tick `k` does. */
  function TickEffect(t: Tick, k: nat, p: Progress, show: real -> string): Progress {
    var c := Cursor(t, p.last);
    if c.None? then p
    else
      var rules := if t.loadOk then Loaded(t.stored) else p.rules;
      var readings := if t.fetchOk then After(t.atFetch, c.value) else [];
      Progress(Some(if readings == [] then c.value else readings[|readings| - 1].id), rules,
               p.evaluated + readings, p.attempted + Judged(readings, Same(rules, |readings|), show),
               p.tickOf + Same(k, |readings|))
  }

  function Cursor(t: Tick, last: Option<int>): Option<int> {
    if last.Some? then last else if t.catchUpOk then Some(LastId(t.atCatchUp)) else None
  }

  /** The readings evaluated are exactly the rows between the first successful catch-up and
      the cursor, each once and in id order; each is evaluated by the first fetch that could
      see it, under the rules in force then; and a fetch that succeeds leaves nothing
      unread. */
  ghost predicate Sound(initial: seq<Rule>, table: Table, up: bool, ticks: seq<Tick>, k: nat, p: Progress,
                        show: real -> string)
    requires k <= |ticks|
  {
    && Reached(table, up, ticks[..k], p.last, p.evaluated)
    && FetchedUpTo(table, up, ticks, k, p.last)
    && InRange(p.tickOf, |ticks|) && AllFirst(table, up, ticks, p.evaluated, p.tickOf)
    && p.rules == InForce(initial, table, up, ticks[..k])
    && p.attempted == Judged(p.evaluated, SetsFor(initial, table, up, ticks, p.tickOf), show)
    && (k > 0 && Fetches(table, up, ticks, k - 1) ==> p.last == Some(LastId(TableAfter(table, ticks[..k]))))
  }

  lemma FetchedUpToNext(table: Table, up: bool, ticks: seq<Tick>, k: nat, before: Option<int>, last: Option<int>)
    requires k < |ticks| && FetchedUpTo(table, up, ticks, k, before)
    requires before.Some? ==> last.Some? && before.value <= last.value
    requires Fetches(table, up, ticks, k) ==> last.Some? && LastId(ticks[k].atFetch) <= last.value
    ensures FetchedUpTo(table, up, ticks, k + 1, last)
  {
    hide Fetches;
  }

  lemma InForceNext(initial: seq<Rule>, table: Table, up: bool, ticks: seq<Tick>, k: nat)
    requires k < |ticks|
    ensures InForce(initial, table, up, ticks[..k + 1])
         == if StartOf(table, up, ticks[..k + 1]).Some? && ticks[k].loadOk then Loaded(ticks[k].stored)
            else InForce(initial, table, up, ticks[..k])
  {
    hide StartOf, Loaded;
    assert ticks[..k + 1][..k] == ticks[..k];
  }

  lemma WaitingTick(initial: seq<Rule>, table: Table, up: bool, ticks: seq<Tick>, k: nat, p: Progress, show: real -> string)
    requires Growing(table, ticks) && k < |ticks| && Sound(initial, table, up, ticks, k, p, show)
    requires Cursor(ticks[k], p.last).None?
    ensures Sound(initial, table, up, ticks, k + 1, p, show)
  {
    hide StartOf, InForce, Growing, AllFirst, InRange, Judged, Between;
    TickStarts(table, up, ticks, k, p.last, p.evaluated, p.last);
    FetchedUpToNext(table, up, ticks, k, p.last, p.last);
    InForceNext(initial, table, up, ticks, k);
  }

  lemma ReadingTick(initial: seq<Rule>, table: Table, up: bool, ticks: seq<Tick>, k: nat, p: Progress, show: real -> string)
    requires Growing(table, ticks) && k < |ticks| && Sound(initial, table, up, ticks, k, p, show)
    requires Cursor(ticks[k], p.last).Some?
    ensures Sound(initial, table, up, ticks, k + 1, TickEffect(ticks[k], k, p, show), show)
  {
    hide StartOf, InForce, Growing, AllFirst, InRange, Judged, Between, After, FetchedUpTo, Loaded;
    var t, c, q := ticks[k], Cursor(ticks[k], p.last).value, TickEffect(ticks[k], k, p, show);
    var readings := if t.fetchOk then After(t.atFetch, c) else [];
    CursorCovers(table, up, ticks, k, p.last);
    TickStarts(table, up, ticks, k, p.last, p.evaluated, Some(c));
    Grows(table, ticks, k);
    TickReaches(table, up, ticks, k, c, p.evaluated, q.last.value);
    assert p.evaluated + [] == p.evaluated;
    FetchedUpToNext(table, up, ticks, k, Some(c), q.last);
    TickFirst(table, up, ticks, k, c, p.evaluated, p.tickOf, readings);
    InForceNext(initial, table, up, ticks, k);
    assert |p.tickOf| == |p.evaluated| by { AllFirstLengths(table, up, ticks, p.evaluated, p.tickOf); }
    TickJudges(initial, table, up, ticks, p.tickOf, k, p.evaluated, readings, show);
  }

  lemma AllFirstLengths(table: Table, up: bool, all: seq<Tick>, evaluated: Table, tickOf: seq<nat>)
    requires AllFirst(table, up, all, evaluated, tickOf)
    ensures |tickOf| == |evaluated|
  {
  }

  lemma CursorCovers(table: Table, up: bool, ticks: seq<Tick>, k: nat, last: Option<int>)
    requires k < |ticks| && FetchedUpTo(table, up, ticks, k, last) && Cursor(ticks[k], last).Some?
    ensures FetchedUpTo(table, up, ticks, k, Cursor(ticks[k], last))
  {
    hide Fetches;
  }

  lemma SoundAtFirst(initial: seq<Rule>, table: Table, up: bool, ticks: seq<Tick>, last: Option<int>, show: real -> string)
    requires Growing(table, ticks) && last == if up then Some(LastId(table)) else None
    ensures Sound(initial, table, up, ticks, 0, Progress(last, Loaded(initial), [], [], []), show)
  {
    GrowingFrom(table, ticks);
    StartsReached(table, up, last);
    assert ticks[..0] == [];
  }

  /** One pass through the loop. */
  method Poll(t: Tick, ghost k: nat, lastId0: Option<int>, rules0: seq<Rule>, ghost evaluated0: Table,
              attempted0: seq<Alarm>, written0: seq<Alarm>, ghost tickOf0: seq<nat>, show: real -> string,
              writeOk: nat -> bool)
    returns (lastId: Option<int>, rules: seq<Rule>, readings: Table, attempted: seq<Alarm>, written: seq<Alarm>,
             ghost tickOf: seq<nat>)
    requires written0 == Kept(attempted0, writeOk)
    ensures Progress(lastId, rules, evaluated0 + readings, attempted, tickOf)
         == TickEffect(t, k, Progress(lastId0, rules0, evaluated0, attempted0, tickOf0), show)
    ensures written == Kept(attempted, writeOk)
  {
    hide Kept, Judged, After, Loaded;
    lastId, rules, readings, attempted, written, tickOf := lastId0, rules0, [], attempted0, written0, tickOf0;
    if lastId.None? {
      lastId := if t.catchUpOk then Some(LastId(t.atCatchUp)) else None;
    }
    assert evaluated0 + [] == evaluated0;
    if lastId.Some? {
      var loaded := TryLoadRules(t.stored, t.loadOk);
      if loaded.Some? { rules := loaded.value; }
      if t.fetchOk { readings := After(t.atFetch, lastId.value); }
      var last: int;
      last, attempted, written := EvaluateBatch(rules, readings, show, writeOk, lastId.value, attempted, written);
      lastId := Some(last);
      tickOf := tickOf + Same(k, |readings|);
    }
  }

  lemma TickKeepsSound(initial: seq<Rule>, table: Table, up: bool, ticks: seq<Tick>, k: nat, p: Progress, show: real -> string)
    requires Growing(table, ticks) && k < |ticks| && Sound(initial, table, up, ticks, k, p, show)
    ensures Sound(initial, table, up, ticks, k + 1, TickEffect(ticks[k], k, p, show), show)
  {
    hide Sound, Growing, Judged, After;
    if Cursor(ticks[k], p.last).None? {
      WaitingTick(initial, table, up, ticks, k, p, show);
    } else {
      ReadingTick(initial, table, up, ticks, k, p, show);
    }
  }

  /** The whole life of the loop. `stored` and `loads` are the rule table at startup and
      whether it could be loaded; `up` says whether the first catch-up query succeeded. */
  method PollLoop(stored: seq<Rule>, loads: bool, table: Table, up: bool, ticks: seq<Tick>, show: real -> string,
                  writeOk: nat -> bool)
    returns (lastId: Option<int>, rules: seq<Rule>, evaluated: Table, attempted: seq<Alarm>, written: seq<Alarm>,
             ghost tickOf: seq<nat>)
    requires Growing(table, ticks)
    ensures Sound(if loads then stored else [], table, up, ticks, |ticks|,
                  Progress(lastId, rules, evaluated, attempted, tickOf), show)
    ensures written == Kept(attempted, writeOk)
    ensures exists at :: AcceptedAt(attempted, writeOk, at) && WrittenAt(written, attempted, at)
  {
    ghost var initial := if loads then stored else [];
    rules := LoadRules(stored, loads);
    lastId := if up then Some(LastId(table)) else None;
    evaluated, attempted, written, tickOf := [], [], [], [];
    SoundAtFirst(initial, table, up, ticks, lastId, show);
    hide *;
    for k := 0 to |ticks|
      invariant Sound(initial, table, up, ticks, k, Progress(lastId, rules, evaluated, attempted, tickOf), show)
      invariant written == Kept(attempted, writeOk)
    {
      TickKeepsSound(initial, table, up, ticks, k, Progress(lastId, rules, evaluated, attempted, tickOf), show);
      var readings: Table;
      lastId, rules, readings, attempted, written, tickOf :=
        Poll(ticks[k], k, lastId, rules, evaluated, attempted, written, tickOf, show, writeOk);
      evaluated := evaluated + readings;
    }
    ghost var at := KeptAreTheAccepted(attempted, writeOk);
  }

  // ---- What a reader of the run can conclude ----

  lemma GrownTableIsLog(table: Table, ticks: seq<Tick>)
    requires Growing(table, ticks)
    ensures Log(TableAfter(table, ticks))
  {
  }

  lemma ReachedRows(table: Table, up: bool, ticks: seq<Tick>, last: Option<int>, evaluated: Table, row: Row<Reading>)
    requires Log(TableAfter(table, ticks)) && Reached(table, up, ticks, last, evaluated)
    ensures row in evaluated <==>
              && last.Some? && StartOf(table, up, ticks).Some? && row in TableAfter(table, ticks)
              && StartOf(table, up, ticks).value < row.id <= last.value
    ensures Log(evaluated)
  {
    hide StartOf, Between;
    if last.Some? { BetweenIsExact(TableAfter(table, ticks), StartOf(table, up, ticks).value, last.value); }
  }

  /** Every row between the start and the cursor is evaluated, and no row twice. */
  lemma EveryRowOnce(initial: seq<Rule>, table: Table, up: bool, ticks: seq<Tick>, p: Progress, show: real -> string,
                     row: Row<Reading>)
    requires Growing(table, ticks) && Sound(initial, table, up, ticks, |ticks|, p, show)
    ensures row in p.evaluated <==>
              && p.last.Some? && StartOf(table, up, ticks).Some? && row in TableAfter(table, ticks)
              && StartOf(table, up, ticks).value < row.id <= p.last.value
    ensures forall i, j | 0 <= i < j < |p.evaluated| :: p.evaluated[i].id < p.evaluated[j].id
  {
    hide Judged, StartOf, Growing, TableAfter, Reached, AllFirst, FetchedUpTo, InForce;
    assert ticks[..|ticks|] == ticks;
    GrownTableIsLog(table, ticks);
    ReachedRows(table, up, ticks, p.last, p.evaluated, row);
  }

  lemma {:induction false} FiringIsListed(rules: seq<Rule>, device: string, sensor: string, value: real, i: nat)
    requires i < |Firing(rules, device, sensor, value)|
    ensures Firing(rules, device, sensor, value)[i] in rules
    ensures Fires(Firing(rules, device, sensor, value)[i], device, sensor, value)
  {
    hide Fires;
    var last := |rules| - 1;
    if i < |Firing(rules[..last], device, sensor, value)| {
      FiringIsListed(rules[..last], device, sensor, value, i);
      SplitLast(rules);
    }
  }

  /** The stored rule is for the reading's device and sensor, and its condition holds. */
  predicate FiresOn(stored: Rule, r: Reading) {
    stored.deviceId == r.deviceId && stored.sensor == r.sensor && Holds(stored, r.value)
  }

  /** The alarm is an open one about the reading, made by a rule that fires on it; its
      message is what the default template gives for that rule and reading. */
  ghost predicate RaisedBy(a: Alarm, stored: Rule, r: Reading, show: real -> string) {
    && FiresOn(stored, r)
    && a.ruleId == stored.id && a.severity == stored.severity && !a.acknowledged
    && a.deviceId == r.deviceId && a.sensor == r.sensor && a.value == r.value && a.timestamp == r.timestamp
    && a.message == InSequence(DefaultTemplate(stored), TextsFor(stored, r.value, show))
  }

  lemma OneReadingsAlarms(r: Reading, stored: seq<Rule>, show: real -> string, i: nat) returns (m: nat)
    requires i < |JudgedOne(r, Loaded(stored), show)|
    ensures m < |stored| && RaisedBy(JudgedOne(r, Loaded(stored), show)[i], stored[m], r, show)
  {
    var rules := Loaded(stored);
    var rule := Firing(rules, r.deviceId, r.sensor, r.value)[i];
    FiringIsListed(rules, r.deviceId, r.sensor, r.value, i);
    m :| m < |rules| && rules[m] == rule;
    LoadedAt(stored, m);
    LoadedRaises(stored[m], r, show);
  }

  lemma LoadedRaises(stored: Rule, r: Reading, show: real -> string)
    requires Fires(WithoutTemplate(stored), r.deviceId, r.sensor, r.value)
    ensures RaisedBy(AlarmFor(WithoutTemplate(stored), r.value, r.timestamp, show), stored, r, show)
  {
    hide InSequence;
    var bare := WithoutTemplate(stored);
    assert Template(bare) == DefaultTemplate(stored);
    SameTexts(TextsFor(bare, r.value, show), TextsFor(stored, r.value, show), DefaultTemplate(stored));
  }

  lemma SameTexts(a: Texts, b: Texts, template: string)
    requires forall slot: Slot :: a(slot) == b(slot)
    ensures InSequence(template, a) == InSequence(template, b)
  {
    hide ReplaceAll;
  }

  /** Which reading an alarm of a run belongs to. */
  lemma {:induction false} JudgedOrigin(readings: Table, sets: seq<seq<Rule>>, show: real -> string, i: nat)
    returns (j: nat, k: nat)
    requires |readings| == |sets| && i < |Judged(readings, sets, show)|
    ensures j < |readings| && k < |JudgedOne(readings[j].data, sets[j], show)|
    ensures Judged(readings, sets, show)[i] == JudgedOne(readings[j].data, sets[j], show)[k]
  {
    hide JudgedOne;
    var last := |readings| - 1;
    var before := Judged(readings[..last], sets[..last], show);
    if i < |before| {
      j, k := JudgedOrigin(readings[..last], sets[..last], show, i);
    } else {
      j, k := last, i - |before|;
    }
  }

  /** Attempt `i` comes from reading `j`, by rule `m` of the stored rules in force when that
      reading was fetched. */
  ghost predicate AttemptFrom(initial: seq<Rule>, table: Table, up: bool, ticks: seq<Tick>, p: Progress,
                              show: real -> string, i: nat, j: nat, m: nat)
  {
    && i < |p.attempted| && j < |p.evaluated| && j < |p.tickOf| && p.tickOf[j] < |ticks|
    && var stored := StoredInForce(initial, table, up, ticks[..p.tickOf[j] + 1]);
       m < |stored| && RaisedBy(p.attempted[i], stored[m], p.evaluated[j].data, show)
  }

  /** Every alarm of every run is raised by a rule stored and in force when its reading was
      fetched, which fires on that reading; and, whatever template is stored with the rule,
      it is worded by the rule's default sentence. */
  lemma AttemptsAreDefaultWorded(initial: seq<Rule>, table: Table, up: bool, ticks: seq<Tick>, p: Progress,
                                 show: real -> string, i: nat)
    requires Sound(initial, table, up, ticks, |ticks|, p, show) && i < |p.attempted|
    ensures exists j: nat, m: nat :: AttemptFrom(initial, table, up, ticks, p, show, i, j, m)
  {
    hide Judged, StoredInForce, Loaded, RaisedBy, JudgedOne;
    var sets := SetsFor(initial, table, up, ticks, p.tickOf);
    var j, k := JudgedOrigin(p.evaluated, sets, show, i);
    var stored := StoredInForce(initial, table, up, ticks[..p.tickOf[j] + 1]);
    var m := OneReadingsAlarms(p.evaluated[j].data, stored, show, k);
    assert AttemptFrom(initial, table, up, ticks, p, show, i, j, m);
  }
}
