/** What a run of the poll loop amounts to, in terms of the tables and answers alone. */
module AlarmPollLaws {
  import opened CommitLog
  import opened Wrappers
  import opened RuleEvaluator
  import opened AlarmPoll

  // ---- Which rows are evaluated ----

  /** Some catch-up query has succeeded by tick `n`, that tick included. */
  ghost predicate CaughtUpBy(up: bool, ticks: seq<Tick>, n: nat) {
    up || exists j :: 0 <= j <= n && j < |ticks| && ticks[j].catchUpOk
  }

  /** The table that the first successful catch-up query saw. */
  ghost predicate CatchUpSaw(table: Table, up: bool, ticks: seq<Tick>, seen: Table) {
    if up then seen == table
    else exists j :: 0 <= j < |ticks| && ticks[j].catchUpOk && seen == ticks[j].atCatchUp
                     && forall i | 0 <= i < j :: !ticks[i].catchUpOk
  }

  lemma PrefixOfPrefix<T>(a: seq<T>, b: seq<T>, c: seq<T>)
    requires a <= b && b <= c
    ensures a <= c
  {
  }

  lemma {:induction false} StartedExactlyWhenCaughtUp(table: Table, up: bool, ticks: seq<Tick>)
    ensures StartOf(table, up, ticks).None? <==> !up && forall j | 0 <= j < |ticks| :: !ticks[j].catchUpOk
  {
    if ticks != [] {
      var before := ticks[..|ticks| - 1];
      StartedExactlyWhenCaughtUp(table, up, before);
      assert forall j | 0 <= j < |before| :: before[j] == ticks[j];
    }
  }

  lemma {:induction false} StartIsTheEndOfWhatWasSeen(table: Table, up: bool, ticks: seq<Tick>) returns (seen: Table)
    requires Growing(table, ticks) && StartOf(table, up, ticks).Some?
    ensures CatchUpSaw(table, up, ticks, seen) && StartOf(table, up, ticks).value == LastId(seen)
    ensures seen <= TableAfter(table, ticks)
  {
    if ticks == [] {
      seen := table;
    } else {
      var last := |ticks| - 1;
      var before := ticks[..last];
      if StartOf(table, up, before).Some? {
        seen := StartIsTheEndOfWhatWasSeen(table, up, before);
        hide CatchUpSaw, LastId;
        SeenLonger(table, up, ticks, seen);
        PrefixOfPrefix(seen, TableAfter(table, before), ticks[last].atCatchUp);
      } else {
        seen := ticks[last].atCatchUp;
        StartedExactlyWhenCaughtUp(table, up, before);
        assert forall j | 0 <= j < last :: before[j] == ticks[j];
        hide Growing, StartOf, LastId;
      }
    }
  }

  lemma SeenLonger(table: Table, up: bool, ticks: seq<Tick>, seen: Table)
    requires ticks != [] && CatchUpSaw(table, up, ticks[..|ticks| - 1], seen)
    ensures CatchUpSaw(table, up, ticks, seen)
  {
    if !up {
      var before := ticks[..|ticks| - 1];
      var j :| 0 <= j < |before| && before[j].catchUpOk && seen == before[j].atCatchUp
               && forall i | 0 <= i < j :: !before[i].catchUpOk;
      assert ticks[j].catchUpOk && seen == ticks[j].atCatchUp;
      forall i | 0 <= i < j ensures !ticks[i].catchUpOk { assert ticks[i] == before[i]; }
    }
  }

  lemma SeenIsUnique(table: Table, up: bool, ticks: seq<Tick>, a: Table, b: Table)
    requires CatchUpSaw(table, up, ticks, a) && CatchUpSaw(table, up, ticks, b)
    ensures a == b
  {
  }

  lemma FetchesWhenCaughtUp(table: Table, up: bool, ticks: seq<Tick>, k: nat)
    requires Growing(table, ticks) && k < |ticks|
    ensures Fetches(table, up, ticks, k) <==> CaughtUpBy(up, ticks, k) && ticks[k].fetchOk
  {
    var upTo := ticks[..k + 1];
    Grows(table, ticks, k);
    GrowingUpTo(table, ticks, k);
    StartedExactlyWhenCaughtUp(table, up, upTo);
    assert forall j | 0 <= j <= k :: upTo[j] == ticks[j];
  }

  lemma {:induction false} GrowingUpTo(table: Table, ticks: seq<Tick>, k: nat)
    requires Growing(table, ticks) && k < |ticks|
    ensures Growing(table, ticks[..k + 1]) && ticks[k].atFetch <= TableAfter(table, ticks)
    decreases |ticks|
  {
    var last := |ticks| - 1;
    if k < last {
      GrowingUpTo(table, ticks[..last], k);
      assert ticks[..last][..k + 1] == ticks[..k + 1];
      PrefixOfPrefix(ticks[k].atFetch, TableAfter(table, ticks[..last]), ticks[last].atCatchUp);
    } else {
      assert ticks[..k + 1] == ticks;
    }
  }

  /** Some fetch after the catch-up returned a table with the row. */
  ghost predicate Fetched(up: bool, ticks: seq<Tick>, row: Row<Reading>) {
    exists k :: 0 <= k < |ticks| && CaughtUpBy(up, ticks, k) && ticks[k].fetchOk && row in ticks[k].atFetch
  }

  lemma IdsPastPrefix(seen: Table, whole: Table, row: Row<Reading>)
    requires Log(whole) && seen <= whole && row in whole
    ensures row in seen <==> row.id <= LastId(seen)
  {
    var i :| 0 <= i < |whole| && whole[i] == row;
    if i < |seen| { assert seen[i] == row; }
    if row in seen {
      var j :| 0 <= j < |seen| && seen[j] == row;
      assert whole[j] == row;
    }
  }

  /** A row is evaluated exactly if the catch-up did not see it and some later fetch did;
      what was in the table before is never judged, and nothing that was fetched is left
      out. */
  lemma EvaluatedExactly(initial: seq<Rule>, table: Table, up: bool, ticks: seq<Tick>, p: Progress,
                         show: real -> string, seen: Table, row: Row<Reading>)
    requires Growing(table, ticks) && Sound(initial, table, up, ticks, |ticks|, p, show)
    requires CatchUpSaw(table, up, ticks, seen)
    ensures row in p.evaluated <==> row !in seen && Fetched(up, ticks, row)
  {
    var whole := TableAfter(table, ticks);
    StartSeen(table, up, ticks, seen);
    EveryRowOnce(initial, table, up, ticks, p, show, row);
    GrownTableIsLog(table, ticks);
    if row in whole { IdsPastPrefix(seen, whole, row); }
    if row in p.evaluated {
      EvaluatedWasFetched(initial, table, up, ticks, p, show, row);
    } else if Fetched(up, ticks, row) {
      var k :| 0 <= k < |ticks| && CaughtUpBy(up, ticks, k) && ticks[k].fetchOk && row in ticks[k].atFetch;
      FetchedIsPassed(initial, table, up, ticks, p, show, row, k);
    }
  }

  lemma StartSeen(table: Table, up: bool, ticks: seq<Tick>, seen: Table)
    requires Growing(table, ticks) && CatchUpSaw(table, up, ticks, seen)
    ensures StartOf(table, up, ticks) == Some(LastId(seen)) && seen <= TableAfter(table, ticks)
  {
    hide StartOf, Growing;
    StartedExactlyWhenCaughtUp(table, up, ticks);
    var other := StartIsTheEndOfWhatWasSeen(table, up, ticks);
    SeenIsUnique(table, up, ticks, seen, other);
  }

  lemma EvaluatedWasFetched(initial: seq<Rule>, table: Table, up: bool, ticks: seq<Tick>, p: Progress,
                            show: real -> string, row: Row<Reading>)
    requires Growing(table, ticks) && Sound(initial, table, up, ticks, |ticks|, p, show) && row in p.evaluated
    ensures Fetched(up, ticks, row)
  {
    hide Growing, Fetches, Judged, Reached, InForce, FetchedUpTo, CaughtUpBy;
    var i :| 0 <= i < |p.evaluated| && p.evaluated[i] == row;
    assert FirstFetchOf(table, up, ticks, row, p.tickOf[i]);
    FetchesWhenCaughtUp(table, up, ticks, p.tickOf[i]);
  }

  lemma FetchedIsPassed(initial: seq<Rule>, table: Table, up: bool, ticks: seq<Tick>, p: Progress,
                        show: real -> string, row: Row<Reading>, k: nat)
    requires Growing(table, ticks) && Sound(initial, table, up, ticks, |ticks|, p, show)
    requires k < |ticks| && CaughtUpBy(up, ticks, k) && ticks[k].fetchOk && row in ticks[k].atFetch
    ensures row in TableAfter(table, ticks) && p.last.Some? && row.id <= p.last.value
  {
    FetchesWhenCaughtUp(table, up, ticks, k);
    GrowingUpTo(table, ticks, k);
    Grows(table, ticks, k);
    hide Growing, Fetches, Judged, Reached, InForce, AllFirst, CaughtUpBy;
    LogPrefix(ticks[k].atFetch, |ticks[k].atFetch|);
    var i :| 0 <= i < |ticks[k].atFetch| && ticks[k].atFetch[i] == row;
    assert TableAfter(table, ticks)[i] == row;
  }

  // ---- Which rules are in force ----

  /** The rules in force are those of the last load that worked since the catch-up, or, if
      there was none, the initial ones. */
  lemma {:induction false} RulesInForceAreLastLoaded(initial: seq<Rule>, table: Table, up: bool, ticks: seq<Tick>)
    requires Growing(table, ticks)
    ensures var stored := StoredInForce(initial, table, up, ticks);
            || (exists k :: 0 <= k < |ticks| && LastLoad(up, ticks, k) && stored == ticks[k].stored)
            || (stored == initial && forall k | 0 <= k < |ticks| && CaughtUpBy(up, ticks, k) :: !ticks[k].loadOk)
  {
    if ticks != [] {
      var last := |ticks| - 1;
      var before := ticks[..last];
      RulesInForceAreLastLoaded(initial, table, up, before);
      StartedExactlyWhenCaughtUp(table, up, ticks);
      forall k | 0 <= k < last ensures CaughtUpBy(up, before, k) <==> CaughtUpBy(up, ticks, k) { CaughtUpLonger(up, ticks, k); }
      hide Growing, StartOf;
      if CaughtUpBy(up, ticks, last) && ticks[last].loadOk {
        assert LastLoad(up, ticks, last);
      } else if exists k :: 0 <= k < last && LastLoad(up, before, k) && StoredInForce(initial, table, up, before) == before[k].stored {
        var k :| 0 <= k < last && LastLoad(up, before, k) && StoredInForce(initial, table, up, before) == before[k].stored;
        LastLoadLonger(up, ticks, k);
      }
    }
  }

  /** Tick `k` loads the rules, after the catch-up, and no later tick does. */
  ghost predicate LastLoad(up: bool, ticks: seq<Tick>, k: nat) {
    && k < |ticks| && CaughtUpBy(up, ticks, k) && ticks[k].loadOk
    && forall j | k < j < |ticks| :: !ticks[j].loadOk
  }

  lemma CaughtUpLonger(up: bool, ticks: seq<Tick>, k: nat)
    requires k + 1 < |ticks|
    ensures CaughtUpBy(up, ticks[..|ticks| - 1], k) <==> CaughtUpBy(up, ticks, k)
  {
    var before := ticks[..|ticks| - 1];
    assert forall j | 0 <= j <= k :: before[j] == ticks[j];
  }

  lemma LastLoadLonger(up: bool, ticks: seq<Tick>, k: nat)
    requires k + 1 < |ticks| && LastLoad(up, ticks[..|ticks| - 1], k)
    requires !(CaughtUpBy(up, ticks, |ticks| - 1) && ticks[|ticks| - 1].loadOk)
    ensures LastLoad(up, ticks, k)
  {
    CaughtUpLonger(up, ticks, k);
    var before := ticks[..|ticks| - 1];
    assert forall j | 0 <= j < |before| :: before[j] == ticks[j];
  }

  // ---- Which alarms are attempted ----

  datatype Cause = Cause(reading: nat, rule: nat)

  predicate Earlier(a: Cause, b: Cause) {
    a.reading < b.reading || (a.reading == b.reading && a.rule < b.rule)
  }

  /** Every pair of a reading and a rule, stored when the reading was fetched, that fires on
      it, in the order of the readings and then of the rules. */
  ghost predicate AllCauses(causes: seq<Cause>, readings: Table, stored: seq<seq<Rule>>)
    requires |readings| == |stored|
  {
    && (forall i, j | 0 <= i < j < |causes| :: Earlier(causes[i], causes[j]))
    && forall c: Cause :: c in causes <==>
         c.reading < |readings| && c.rule < |stored[c.reading]| && FiresOn(stored[c.reading][c.rule], readings[c.reading].data)
  }

  /** One alarm for each of them. */
  ghost predicate AlarmEach(alarms: seq<Alarm>, causes: seq<Cause>, readings: Table, stored: seq<seq<Rule>>,
                            show: real -> string)
    requires |readings| == |stored| && AllCauses(causes, readings, stored)
  {
    && |alarms| == |causes|
    && forall i | 0 <= i < |causes| ::
         var c := causes[i];
         assert c in causes;
         RaisedBy(alarms[i], stored[c.reading][c.rule], readings[c.reading].data, show)
  }

  function LoadedEach(stored: seq<seq<Rule>>): (r: seq<seq<Rule>>)
    ensures |r| == |stored|
  {
    seq(|stored|, i requires 0 <= i < |stored| => Loaded(stored[i]))
  }

  /** The alarms of one reading are those of the stored rules that fire on it, in order. */
  lemma OneReading(r: Reading, stored: seq<Rule>, show: real -> string) returns (at: seq<nat>)
    ensures forall i, j | 0 <= i < j < |at| :: at[i] < at[j]
    ensures forall k: nat :: k in at <==> k < |stored| && FiresOn(stored[k], r)
    ensures |JudgedOne(r, Loaded(stored), show)| == |at|
    ensures forall i | 0 <= i < |at| :: at[i] < |stored| && RaisedBy(JudgedOne(r, Loaded(stored), show)[i], stored[at[i]], r, show)
  {
    hide Message, Holds, AlarmsOf, Loaded, InSequence;
    var rules := Loaded(stored);
    at := AlarmsInRuleOrder(rules, r.deviceId, r.sensor, r.value, r.timestamp, show);
    forall k: nat | k < |stored| ensures rules[k] == WithoutTemplate(stored[k]) { LoadedAt(stored, k); }
    forall k: nat ensures k in at <==> k < |stored| && FiresOn(stored[k], r) {
      if k < |stored| { SameCondition(stored[k], r.value); }
    }
    forall i | 0 <= i < |at|
      ensures at[i] < |stored| && RaisedBy(JudgedOne(r, rules, show)[i], stored[at[i]], r, show)
    {
      assert at[i] in at;
      LoadedMessageIsDefault(stored[at[i]], r.value, show);
    }
  }

  lemma SameCondition(rule: Rule, value: real)
    ensures Holds(WithoutTemplate(rule), value) <==> Holds(rule, value)
  {
  }

  lemma LoadedMessageIsDefault(rule: Rule, value: real, show: real -> string)
    ensures Message(WithoutTemplate(rule), value, show) == InSequence(DefaultTemplate(rule), TextsFor(rule, value, show))
  {
    hide InSequence;
    SameTexts(TextsFor(WithoutTemplate(rule), value, show), TextsFor(rule, value, show), DefaultTemplate(rule));
  }

  function CausesOf(reading: nat, at: seq<nat>): (r: seq<Cause>)
    ensures |r| == |at|
  {
    seq(|at|, i requires 0 <= i < |at| => Cause(reading, at[i]))
  }

  lemma {:induction false} JudgedEach(readings: Table, stored: seq<seq<Rule>>, show: real -> string) returns (causes: seq<Cause>)
    requires |readings| == |stored|
    ensures AllCauses(causes, readings, stored)
    ensures AlarmEach(Judged(readings, LoadedEach(stored), show), causes, readings, stored, show)
  {
    causes := [];
    if readings != [] {
      var last := |readings| - 1;
      var before := JudgedEach(readings[..last], stored[..last], show);
      var at := OneReading(readings[last].data, stored[last], show);
      hide JudgedOne, RaisedBy, FiresOn, AllCauses, AlarmEach, Judged;
      causes := before + CausesOf(last, at);
      CausesNext(before, readings, stored, at);
      AlarmsNext(before, readings, stored, at, Judged(readings[..last], LoadedEach(stored[..last]), show), show);
      JudgedLast(readings, stored, show);
    }
  }

  lemma JudgedLast(readings: Table, stored: seq<seq<Rule>>, show: real -> string)
    requires |readings| == |stored| && readings != []
    ensures var last := |readings| - 1;
            Judged(readings, LoadedEach(stored), show)
            == Judged(readings[..last], LoadedEach(stored[..last]), show)
               + JudgedOne(readings[last].data, Loaded(stored[last]), show)
  {
    hide JudgedOne, Loaded;
    assert LoadedEach(stored)[..|readings| - 1] == LoadedEach(stored[..|readings| - 1]);
  }

  lemma AlarmsNext(before: seq<Cause>, readings: Table, stored: seq<seq<Rule>>, at: seq<nat>, alarms: seq<Alarm>,
                   show: real -> string)
    requires |readings| == |stored| && readings != []
    requires var last := |readings| - 1;
             && AllCauses(before, readings[..last], stored[..last])
             && AlarmEach(alarms, before, readings[..last], stored[..last], show)
    requires AllCauses(before + CausesOf(|readings| - 1, at), readings, stored)
    requires var last := |readings| - 1;
             var here := JudgedOne(readings[last].data, Loaded(stored[last]), show);
             && |here| == |at|
             && forall i | 0 <= i < |at| :: at[i] < |stored[last]| && RaisedBy(here[i], stored[last][at[i]], readings[last].data, show)
    ensures var last := |readings| - 1;
            AlarmEach(alarms + JudgedOne(readings[last].data, Loaded(stored[last]), show), before + CausesOf(last, at),
                      readings, stored, show)
  {
    hide JudgedOne, RaisedBy, FiresOn, Loaded;
    var last := |readings| - 1;
    forall i | 0 <= i < |before|
      ensures before[i].reading < last && readings[..last][before[i].reading] == readings[before[i].reading]
      ensures stored[..last][before[i].reading] == stored[before[i].reading]
    {
      assert before[i] in before;
    }
  }

  lemma CausesNext(before: seq<Cause>, readings: Table, stored: seq<seq<Rule>>, at: seq<nat>)
    requires |readings| == |stored| && readings != []
    requires var last := |readings| - 1;
             && AllCauses(before, readings[..last], stored[..last])
             && (forall i, j | 0 <= i < j < |at| :: at[i] < at[j])
             && forall k: nat :: k in at <==> k < |stored[last]| && FiresOn(stored[last][k], readings[last].data)
    ensures AllCauses(before + CausesOf(|readings| - 1, at), readings, stored)
  {
    hide FiresOn;
    var last := |readings| - 1;
    var here := CausesOf(last, at);
    var causes := before + here;
    forall c: Cause
      ensures c in causes <==>
                c.reading < |readings| && c.rule < |stored[c.reading]|
                && FiresOn(stored[c.reading][c.rule], readings[c.reading].data)
    {
      CauseHere(c, last, at);
      assert c in causes <==> c in before || c in here;
      if c.reading < last {
        assert readings[..last][c.reading] == readings[c.reading] && stored[..last][c.reading] == stored[c.reading];
      }
    }
    forall i, j | 0 <= i < j < |causes| ensures Earlier(causes[i], causes[j]) {
      if i < |before| { assert before[i] in before; }
    }
  }

  lemma CauseHere(c: Cause, reading: nat, at: seq<nat>)
    ensures c in CausesOf(reading, at) <==> c.reading == reading && c.rule in at
  {
    var here := CausesOf(reading, at);
    if c.reading == reading && c.rule in at {
      var i :| 0 <= i < |at| && at[i] == c.rule;
      assert here[i] == c;
    }
  }

  /** The stored rules in force when each of the readings was fetched. */
  ghost function StoredFor(initial: seq<Rule>, table: Table, up: bool, ticks: seq<Tick>, p: Progress): (r: seq<seq<Rule>>)
    requires InRange(p.tickOf, |ticks|)
    ensures |r| == |p.tickOf|
  {
    seq(|p.tickOf|, i requires 0 <= i < |p.tickOf| => StoredInForce(initial, table, up, ticks[..p.tickOf[i] + 1]))
  }

  /** The alarms attempted over a whole run are, in order, one for each reading evaluated
      and each rule that was in force when it was fetched and fires on it. */
  lemma AttemptsAreTheFirings(initial: seq<Rule>, table: Table, up: bool, ticks: seq<Tick>, p: Progress,
                              show: real -> string) returns (causes: seq<Cause>)
    requires Sound(initial, table, up, ticks, |ticks|, p, show)
    ensures InRange(p.tickOf, |ticks|) && |p.tickOf| == |p.evaluated|
    ensures AllCauses(causes, p.evaluated, StoredFor(initial, table, up, ticks, p))
    ensures AlarmEach(p.attempted, causes, p.evaluated, StoredFor(initial, table, up, ticks, p), show)
  {
    hide Judged, Loaded, StoredInForce, AllCauses, AlarmEach, Reached, FetchedUpTo;
    var stored := StoredFor(initial, table, up, ticks, p);
    assert SetsFor(initial, table, up, ticks, p.tickOf) == LoadedEach(stored);
    causes := JudgedEach(p.evaluated, stored, show);
  }
}
