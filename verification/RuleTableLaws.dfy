/** Every change of the rule and alarm tables has a cause. */
module RuleTableLaws {
  import opened Wrappers
  import opened RuleTables

  /** The work asked for by one call, its own and that of the other sessions. */
  function Asked(op: Op): seq<Other> {
    match op
    case Create(rule) => [AddRule(rule)]
    case Edit(id, rule) => [ChangeRule(id, rule)]
    case Alarm(ruleId, text) => [Write(ruleId, text)]
    case Acknowledge(id) => [Ack(id)]
    case Delete(id, _, afterUpdate, afterDelete) => afterUpdate + afterDelete + [Remove(id)]
  }

  function AllAsked(ops: seq<Op>): seq<Other> {
    if ops == [] then [] else AllAsked(ops[..|ops| - 1]) + Asked(ops[|ops| - 1])
  }

  /** Some of the work gives rule `id` this row. */
  ghost predicate GivesRow(asked: seq<Other>, id: int, row: RuleRow) {
    AddRule(row) in asked || ChangeRule(id, row) in asked
  }

  /** Rules appear and change as they were created or edited, and go when they are deleted. */
  ghost predicate RulesCaused(t: Tables, u: Tables, asked: seq<Other>) {
    && (forall id | id in u.rules && !(id in t.rules && u.rules[id] == t.rules[id]) :: GivesRow(asked, id, u.rules[id]))
    && (forall id | id in t.rules && id !in u.rules :: Remove(id) in asked)
  }

  /** The alarm keeps its text; it is acknowledged or detached only by being acknowledged,
      or by the deletion of its rule. */
  ghost predicate AlarmCaused(id: int, before: AlarmRow, after: AlarmRow, asked: seq<Other>) {
    && after.text == before.text
    && (after.acknowledged == before.acknowledged || (after.acknowledged && Ack(id) in asked))
    && (after.ruleId == before.ruleId
        || (before.ruleId.Some? && after.ruleId.None? && Remove(before.ruleId.value) in asked))
  }

  /** The alarm was written as the open alarm of some rule. */
  ghost predicate WrittenFor(id: int, after: AlarmRow, asked: seq<Other>) {
    exists rule :: Write(rule, after.text) in asked && AlarmCaused(id, AlarmRow(Some(rule), after.text, false), after, asked)
  }

  ghost predicate AlarmsCaused(t: Tables, u: Tables, asked: seq<Other>) {
    && (forall id | id in t.alarms :: id in u.alarms && AlarmCaused(id, t.alarms[id], u.alarms[id], asked))
    && (forall id | id in u.alarms && id !in t.alarms :: WrittenFor(id, u.alarms[id], asked))
  }

  ghost predicate Caused(t: Tables, u: Tables, asked: seq<Other>) {
    RulesCaused(t, u, asked) && AlarmsCaused(t, u, asked)
  }

  lemma RulesCausedJoin(t: Tables, u: Tables, v: Tables, a: seq<Other>, b: seq<Other>)
    requires RulesCaused(t, u, a) && RulesCaused(u, v, b)
    ensures RulesCaused(t, v, a + b)
  {
    forall id | id in v.rules && !(id in t.rules && v.rules[id] == t.rules[id]) ensures GivesRow(a + b, id, v.rules[id]) {
      assert GivesRow(a, id, v.rules[id]) || GivesRow(b, id, v.rules[id]);
    }
  }

  lemma AlarmCausedJoin(id: int, x: AlarmRow, y: AlarmRow, z: AlarmRow, a: seq<Other>, b: seq<Other>)
    requires AlarmCaused(id, x, y, a) && AlarmCaused(id, y, z, b)
    ensures AlarmCaused(id, x, z, a + b)
  {
  }

  lemma AlarmCausedBy(id: int, x: AlarmRow, y: AlarmRow, a: seq<Other>, b: seq<Other>)
    requires AlarmCaused(id, x, y, a)
    ensures AlarmCaused(id, x, y, a + b)
  {
  }

  lemma WrittenForLater(id: int, y: AlarmRow, z: AlarmRow, a: seq<Other>, b: seq<Other>)
    requires WrittenFor(id, y, a) && AlarmCaused(id, y, z, b)
    ensures WrittenFor(id, z, a + b)
  {
    var rule :| Write(rule, y.text) in a && AlarmCaused(id, AlarmRow(Some(rule), y.text, false), y, a);
    AlarmCausedJoin(id, AlarmRow(Some(rule), y.text, false), y, z, a, b);
    assert Write(rule, z.text) in a + b;
  }

  lemma WrittenForAlso(id: int, y: AlarmRow, a: seq<Other>, b: seq<Other>)
    requires WrittenFor(id, y, b)
    ensures WrittenFor(id, y, a + b)
  {
    var rule :| Write(rule, y.text) in b && AlarmCaused(id, AlarmRow(Some(rule), y.text, false), y, b);
    assert AlarmCaused(id, AlarmRow(Some(rule), y.text, false), y, a + b) && Write(rule, y.text) in a + b;
  }

  lemma CausedJoins(t: Tables, u: Tables, v: Tables, a: seq<Other>, b: seq<Other>)
    requires Caused(t, u, a) && Caused(u, v, b)
    ensures Caused(t, v, a + b)
  {
    RulesCausedJoin(t, u, v, a, b);
    hide RulesCaused, AlarmCaused, WrittenFor;
    forall id | id in t.alarms ensures id in v.alarms && AlarmCaused(id, t.alarms[id], v.alarms[id], a + b) {
      AlarmCausedJoin(id, t.alarms[id], u.alarms[id], v.alarms[id], a, b);
    }
    forall id | id in v.alarms && id !in t.alarms ensures WrittenFor(id, v.alarms[id], a + b) {
      if id in u.alarms {
        WrittenForLater(id, u.alarms[id], v.alarms[id], a, b);
      } else {
        WrittenForAlso(id, v.alarms[id], a, b);
      }
    }
  }

  lemma NothingCaused(t: Tables, asked: seq<Other>)
    ensures Caused(t, t, asked)
  {
  }

  lemma RemovedIsCaused(t: Tables, id: int)
    ensures Caused(t, Removed(t, id), [Remove(id)])
  {
  }

  lemma BesideIsCaused(t: Tables, o: Other, locked: set<int>, deleted: Option<int>)
    requires Consistent(t)
    ensures Caused(t, Beside(t, o, locked, deleted), [o])
  {
    NothingCaused(t, [o]);
    match o
    case Write(rule, text) =>
      assert AlarmCaused(t.nextAlarm, AlarmRow(Some(rule), text, false), AlarmRow(Some(rule), text, false), [o]);
      assert WrittenFor(t.nextAlarm, AlarmRow(Some(rule), text, false), [o]);
    case Remove(id) => RemovedIsCaused(t, id);
    case _ =>
  }

  lemma {:induction false} AllBesideIsCaused(t: Tables, os: seq<Other>, locked: set<int>, deleted: Option<int>)
    requires Consistent(t)
    ensures Caused(t, AllBeside(t, os, locked, deleted), os)
  {
    if os == [] {
      NothingCaused(t, os);
    } else {
      var last := |os| - 1;
      var u := AllBeside(t, os[..last], locked, deleted);
      AllBesideIsCaused(t, os[..last], locked, deleted);
      AllBesideKeeps(t, os[..last], locked, deleted);
      hide Caused, Consistent, Beside, History;
      BesideIsCaused(u, os[last], locked, deleted);
      CausedJoins(t, u, AllBeside(t, os, locked, deleted), os[..last], [os[last]]);
      assert os == os[..last] + [os[last]];
    }
  }

  lemma DeleteIsCaused(t: Tables, action: Action, op: Op)
    requires Consistent(t) && op.Delete?
    ensures Caused(t, Effect(t, action, op), Asked(op))
  {
    var u, v := BeforeDelete(t, op.id, op.afterUpdate), BeforeCommit(t, op.id, op.afterUpdate, op.afterDelete);
    AllBesideKeeps(t, op.afterUpdate, Referring(t.alarms, op.id), None);
    AllBesideIsCaused(t, op.afterUpdate, Referring(t.alarms, op.id), None);
    AllBesideIsCaused(u, op.afterDelete, Referring(u.alarms, op.id), Some(op.id));
    hide Caused, Consistent, AllBeside, History, Removed, Refused;
    var rest := op.afterDelete + [Remove(op.id)];
    NothingCaused(t, Asked(op));
    NothingCaused(u, rest);
    NothingCaused(v, [Remove(op.id)]);
    RemovedIsCaused(v, op.id);
    assert Asked(op) == op.afterUpdate + rest == (op.afterUpdate + op.afterDelete) + [Remove(op.id)];
    CausedJoins(t, u, u, op.afterUpdate, rest);
    CausedJoins(t, u, v, op.afterUpdate, op.afterDelete);
    CausedJoins(t, v, v, op.afterUpdate + op.afterDelete, [Remove(op.id)]);
    CausedJoins(t, v, Removed(v, op.id), op.afterUpdate + op.afterDelete, [Remove(op.id)]);
  }

  lemma EffectIsCaused(t: Tables, action: Action, op: Op)
    requires Consistent(t)
    ensures Caused(t, Effect(t, action, op), Asked(op))
  {
    hide Caused, Consistent;
    match op
    case Create(rule) => BesideIsCaused(t, AddRule(rule), {}, None);
    case Edit(id, rule) => BesideIsCaused(t, ChangeRule(id, rule), {}, None);
    case Alarm(rule, text) => BesideIsCaused(t, Write(rule, text), {}, None);
    case Acknowledge(id) => BesideIsCaused(t, Ack(id), {}, None);
    case Delete(_, _, _, _) => DeleteIsCaused(t, action, op);
  }

  /** Over every interleaving: a rule's row is one it was created or edited with, and a rule
      goes only by being deleted; an alarm appears only by being written, with its text, open
      and for its rule; it is acknowledged only by an acknowledgement of that alarm, and
      detached only by the deletion of its rule. */
  lemma {:induction false} EveryChangeHasACause(t: Tables, action: Action, ops: seq<Op>)
    requires Consistent(t)
    ensures Caused(t, After(t, action, ops), AllAsked(ops))
  {
    if ops == [] {
      NothingCaused(t, []);
    } else {
      var last := |ops| - 1;
      var u := After(t, action, ops[..last]);
      EveryChangeHasACause(t, action, ops[..last]);
      RunKeepsAlarms(t, action, ops[..last]);
      hide Caused, Consistent, Effect, History;
      EffectIsCaused(u, action, ops[last]);
      CausedJoins(t, u, Effect(u, action, ops[last]), AllAsked(ops[..last]), Asked(ops[last]));
    }
  }
}
