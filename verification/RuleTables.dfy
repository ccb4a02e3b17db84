/** The rule and alarm tables: creating, editing and deleting rules while alarms are being
    written and acknowledged by other sessions.

    An alarm may point at a rule; the foreign key is either the old NO ACTION one or the
    SET NULL one that newer databases have. Deleting a rule is a transaction of several
    statements, each of which may fail, at the read-committed level: other sessions may
    commit between any two of them. */
module RuleTables {
  import opened Wrappers

  datatype RuleRow = RuleRow(deviceId: string, sensor: string, condition: string, threshold: real, severity: string)

  datatype AlarmRow = AlarmRow(ruleId: Option<int>, text: string, acknowledged: bool)

  datatype Action = NoAction | SetNull

  /** Both tables and their id sequences. */
  datatype Tables = Tables(rules: map<int, RuleRow>, alarms: map<int, AlarmRow>, nextRule: int, nextAlarm: int)

  /** What another session may do in between; `Remove` is a whole delete of its own. */
  datatype Other =
    | Write(ruleId: int, text: string)
    | Ack(alarmId: int)
    | AddRule(rule: RuleRow)
    | ChangeRule(id: int, rule: RuleRow)
    | Remove(id: int)

  /** Which statements of the transaction the database carries out. */
  datatype Outcome = Outcome(begin: bool, update: bool, delete: bool, commit: bool)

  predicate PointsAt(a: AlarmRow, rule: int) { a.ruleId == Some(rule) }

  // ---- Single statements ----

  /** An insert that names a missing rule violates the foreign key. */
  function Written(t: Tables, ruleId: int, text: string): Tables {
    if ruleId in t.rules then
      t.(alarms := t.alarms[t.nextAlarm := AlarmRow(Some(ruleId), text, false)], nextAlarm := t.nextAlarm + 1)
    else t
  }

  function Acknowledged(t: Tables, id: int): Tables {
    if id in t.alarms && !t.alarms[id].acknowledged then
      t.(alarms := t.alarms[id := t.alarms[id].(acknowledged := true)])
    else t
  }

  function Created(t: Tables, rule: RuleRow): Tables {
    t.(rules := t.rules[t.nextRule := rule], nextRule := t.nextRule + 1)
  }

  function Edited(t: Tables, id: int, rule: RuleRow): Tables {
    if id in t.rules then t.(rules := t.rules[id := rule]) else t
  }

  /** The alarms with every reference to the rule cleared. */
  function Detached(alarms: map<int, AlarmRow>, rule: int): map<int, AlarmRow> {
    map id | id in alarms :: if PointsAt(alarms[id], rule) then alarms[id].(ruleId := None) else alarms[id]
  }

  function Removed(t: Tables, rule: int): Tables {
    t.(rules := t.rules - {rule}, alarms := Detached(t.alarms, rule))
  }

  // ---- The delete transaction ----

  function Referring(alarms: map<int, AlarmRow>, rule: int): set<int> {
    set id | id in alarms && PointsAt(alarms[id], rule)
  }

  /** What another session's statement does while the transaction is open. It waits, and so
      changes nothing yet, if it needs a row the transaction has changed. */
  function Beside(t: Tables, o: Other, locked: set<int>, deleted: Option<int>): Tables {
    match o
    case Write(rule, text) => if deleted == Some(rule) then t else Written(t, rule, text)
    case Ack(id) => if id in locked then t else Acknowledged(t, id)
    case AddRule(rule) => Created(t, rule)
    case ChangeRule(id, rule) => if deleted == Some(id) then t else Edited(t, id, rule)
    case Remove(id) => if deleted == Some(id) || Referring(t.alarms, id) * locked != {} then t else Removed(t, id)
  }

  function AllBeside(t: Tables, os: seq<Other>, locked: set<int>, deleted: Option<int>): Tables {
    if os == [] then t
    else Beside(AllBeside(t, os[..|os| - 1], locked, deleted), os[|os| - 1], locked, deleted)
  }

  /** The committed tables just before DELETE and just before COMMIT. */
  function BeforeDelete(t: Tables, id: int, afterUpdate: seq<Other>): Tables {
    AllBeside(t, afterUpdate, Referring(t.alarms, id), None)
  }

  function BeforeCommit(t: Tables, id: int, afterUpdate: seq<Other>, afterDelete: seq<Other>): Tables {
    var u := BeforeDelete(t, id, afterUpdate);
    AllBeside(u, afterDelete, Referring(u.alarms, id), Some(id))
  }

  /** With NO ACTION the DELETE is refused if some alarm was written for the rule since the
      UPDATE; with SET NULL the database detaches it too. */
  predicate Refused(t: Tables, action: Action, id: int, afterUpdate: seq<Other>) {
    action.NoAction? && !(Referring(BeforeDelete(t, id, afterUpdate).alarms, id) <= Referring(t.alarms, id))
  }

  predicate Succeeds(t: Tables, action: Action, id: int, o: Outcome, afterUpdate: seq<Other>) {
    o.begin && o.update && o.delete && o.commit && !Refused(t, action, id, afterUpdate)
  }

  /** The tables after the transaction has ended: with everything done, or with nothing
      but the work of the other sessions up to the statement that failed. */
  function Deleted(t: Tables, action: Action, id: int, o: Outcome, afterUpdate: seq<Other>, afterDelete: seq<Other>): Tables {
    if !o.begin || !o.update then t
    else if !o.delete || Refused(t, action, id, afterUpdate) then BeforeDelete(t, id, afterUpdate)
    else if !o.commit then BeforeCommit(t, id, afterUpdate, afterDelete)
    else Removed(BeforeCommit(t, id, afterUpdate, afterDelete), id)
  }

  /** The rule is gone and its alarms no longer name it; every other row, every other column
      and both sequences are as they were. */
  ghost predicate OnlyRuleGone(t: Tables, u: Tables, rule: int) {
    && (forall id :: id in u.rules <==> id in t.rules && id != rule)
    && (forall id | id in u.rules :: u.rules[id] == t.rules[id])
    && (forall id :: id in u.alarms <==> id in t.alarms)
    && (forall id | id in u.alarms ::
          && u.alarms[id].text == t.alarms[id].text
          && u.alarms[id].acknowledged == t.alarms[id].acknowledged
          && u.alarms[id].ruleId == if t.alarms[id].ruleId == Some(rule) then None else t.alarms[id].ruleId)
    && u.nextRule == t.nextRule && u.nextAlarm == t.nextAlarm
  }

  /** A delete with no other session at work: it takes its rule away and nothing else, or,
      if it fails, nothing at all. */
  lemma DeleteAloneTouchesNothingElse(t: Tables, action: Action, id: int, o: Outcome)
    ensures var u := Deleted(t, action, id, o, [], []);
            if Succeeds(t, action, id, o, []) then OnlyRuleGone(t, u, id) else u == t
  {
    assert BeforeDelete(t, id, []) == t;
  }

  class Database {
    var tables: Tables
    const action: Action

    ghost predicate Valid()
      reads this
    {
      Consistent(tables)
    }

    constructor (a: Action)
      ensures Valid()
      ensures tables == Tables(map[], map[], 1, 1) && action == a
    {
      tables, action := Tables(map[], map[], 1, 1), a;
    }

    method CreateRule(rule: RuleRow, works: bool) returns (id: int)
      requires Valid()
      modifies this
      ensures Valid()
      ensures works ==> tables == Created(old(tables), rule) && id == old(tables).nextRule
      ensures works ==> tables == old(tables).(rules := old(tables).rules[id := rule], nextRule := id + 1)
      ensures !works ==> tables == old(tables) && id == -1
    {
      if !works { return -1; }
      id := tables.nextRule;
      tables := Created(tables, rule);
    }

    /** Editing a rule that is not there succeeds and changes nothing. */
    method UpdateRule(id: int, rule: RuleRow, works: bool) returns (ok: bool)
      requires Valid()
      modifies this
      ensures Valid()
      ensures ok == works && tables == if works then Edited(old(tables), id, rule) else old(tables)
      ensures tables.rules == if works && id in old(tables).rules then old(tables).rules[id := rule] else old(tables).rules
      ensures tables == old(tables).(rules := tables.rules)
    {
      ok := works;
      if works { tables := Edited(tables, id, rule); }
    }

    method WriteAlarm(ruleId: int, text: string, works: bool) returns (ok: bool)
      requires Valid()
      modifies this
      ensures Valid()
      ensures ok <==> works && ruleId in old(tables).rules
      ensures tables == if ok then Written(old(tables), ruleId, text) else old(tables)
      ensures ok ==> var id := old(tables).nextAlarm;
                     tables == old(tables).(alarms := old(tables).alarms[id := AlarmRow(Some(ruleId), text, false)],
                                            nextAlarm := id + 1)
    {
      ok := works && ruleId in tables.rules;
      if ok { tables := Written(tables, ruleId, text); }
    }

    method AcknowledgeAlarm(id: int, works: bool) returns (ok: bool)
      requires Valid()
      modifies this
      ensures Valid()
      ensures ok <==> works && id in old(tables).alarms && !old(tables).alarms[id].acknowledged
      ensures tables == if ok then Acknowledged(old(tables), id) else old(tables)
      ensures ok ==> var row := old(tables).alarms[id].(acknowledged := true);
                     tables == old(tables).(alarms := old(tables).alarms[id := row])
    {
      ok := works && id in tables.alarms && !tables.alarms[id].acknowledged;
      if ok { tables := Acknowledged(tables, id); }
    }

    /** Other sessions at work. */
    method Meanwhile(os: seq<Other>, locked: set<int>, deleted: Option<int>)
      requires Valid()
      modifies this
      ensures Valid()
      ensures tables == AllBeside(old(tables), os, locked, deleted)
    {
      for i := 0 to |os|
        invariant Valid() && tables == AllBeside(old(tables), os[..i], locked, deleted)
      {
        assert os[..i + 1][..i] == os[..i];
        BesideKeeps(tables, os[i], locked, deleted);
        tables := Beside(tables, os[i], locked, deleted);
      }
      assert os[..|os|] == os;
    }

    /** Detach the history, delete the rule, commit; undo everything if a statement fails. */
    method DeleteRule(id: int, o: Outcome, afterUpdate: seq<Other>, afterDelete: seq<Other>) returns (ok: bool)
      requires Valid()
      modifies this
      ensures Valid()
      ensures ok <==> Succeeds(old(tables), action, id, o, afterUpdate)
      ensures tables == Deleted(old(tables), action, id, o, afterUpdate, afterDelete)
      ensures afterUpdate == [] && afterDelete == [] ==>
                if ok then OnlyRuleGone(old(tables), tables, id) else tables == old(tables)
    {
      if afterUpdate == [] && afterDelete == [] { DeleteAloneTouchesNothingElse(tables, action, id, o); }
      if !o.begin { return false; }
      if !o.update { return false; }
      // The rows this transaction has changed; nobody else sees the change yet.
      var nulled := Referring(tables.alarms, id);
      Meanwhile(afterUpdate, nulled, None);
      var left := Referring(tables.alarms, id) - nulled;
      NoneLeftOver(Referring(tables.alarms, id), nulled);
      if !o.delete || (action.NoAction? && left != {}) { return false; }
      LockedGoOnReferring(old(tables), afterUpdate, nulled, id);
      nulled := nulled + left;
      assert nulled == Referring(tables.alarms, id);
      ghost var atDelete := tables;
      Meanwhile(afterDelete, nulled, Some(id));
      if !o.commit { return false; }
      DeletedRuleGainsNothing(atDelete, afterDelete, nulled, id);
      ClearingReferences(tables.alarms, id);
      RemovedKeeps(tables, id);
      tables := tables.(rules := tables.rules - {id}, alarms := Cleared(tables.alarms, nulled));
      ok := true;
    }
  }

  lemma NoneLeftOver(a: set<int>, b: set<int>)
    ensures a - b == {} <==> a <= b
  {
    assert forall x | x in a :: x in b || x in a - b;
  }

  /** The rows in `ids` with their rule reference cleared. */
  function Cleared(alarms: map<int, AlarmRow>, ids: set<int>): map<int, AlarmRow> {
    map id | id in alarms :: if id in ids then alarms[id].(ruleId := None) else alarms[id]
  }

  lemma ClearingReferences(alarms: map<int, AlarmRow>, rule: int)
    ensures Cleared(alarms, Referring(alarms, rule)) == Detached(alarms, rule)
  {
  }

  // ---- What every run keeps ----

  datatype Op =
    | Create(rule: RuleRow)
    | Edit(id: int, rule: RuleRow)
    | Alarm(ruleId: int, text: string)
    | Acknowledge(alarmId: int)
    | Delete(id: int, outcome: Outcome, afterUpdate: seq<Other>, afterDelete: seq<Other>)

  /** The effect of one call whose single statement succeeds; `Delete` may fail. */
  function Effect(t: Tables, action: Action, op: Op): Tables {
    match op
    case Create(rule) => Created(t, rule)
    case Edit(id, rule) => Edited(t, id, rule)
    case Alarm(rule, text) => Written(t, rule, text)
    case Acknowledge(id) => Acknowledged(t, id)
    case Delete(id, o, afterUpdate, afterDelete) => Deleted(t, action, id, o, afterUpdate, afterDelete)
  }

  /** Every reference is to an existing rule, and the sequences are ahead of the ids in use. */
  ghost predicate Consistent(t: Tables) {
    && (forall id | id in t.alarms && t.alarms[id].ruleId.Some? :: t.alarms[id].ruleId.value in t.rules)
    && (forall id | id in t.alarms :: id < t.nextAlarm)
    && (forall id | id in t.alarms && t.alarms[id].ruleId.Some? :: t.alarms[id].ruleId.value < t.nextRule)
    && (forall id | id in t.rules :: id < t.nextRule)
  }

  /** How an alarm may change: it is never dropped or re-worded, never un-acknowledged, and
      its rule is either kept or cleared for good. */
  predicate Kept(before: AlarmRow, after: AlarmRow) {
    && after.text == before.text
    && (before.acknowledged ==> after.acknowledged)
    && (after.ruleId == before.ruleId || after.ruleId.None?)
  }

  ghost predicate History(t: Tables, u: Tables) {
    && (forall id | id in t.alarms :: id in u.alarms && Kept(t.alarms[id], u.alarms[id]))
    && t.nextRule <= u.nextRule && t.nextAlarm <= u.nextAlarm
  }

  lemma HistoryJoins(t: Tables, u: Tables, v: Tables)
    requires History(t, u) && History(u, v)
    ensures History(t, v)
  {
  }

  lemma CreatedKeeps(t: Tables, rule: RuleRow)
    requires Consistent(t)
    ensures Consistent(Created(t, rule)) && History(t, Created(t, rule))
  {
  }

  lemma EditedKeeps(t: Tables, id: int, rule: RuleRow)
    requires Consistent(t)
    ensures Consistent(Edited(t, id, rule)) && History(t, Edited(t, id, rule))
  {
  }

  lemma WrittenKeeps(t: Tables, rule: int, text: string)
    requires Consistent(t)
    ensures Consistent(Written(t, rule, text)) && History(t, Written(t, rule, text))
  {
  }

  lemma AcknowledgedKeeps(t: Tables, id: int)
    requires Consistent(t)
    ensures Consistent(Acknowledged(t, id)) && History(t, Acknowledged(t, id))
  {
  }

  lemma BesideKeeps(t: Tables, o: Other, locked: set<int>, deleted: Option<int>)
    requires Consistent(t)
    ensures var u := Beside(t, o, locked, deleted); Consistent(u) && History(t, u)
  {
    hide Consistent, History, Created, Edited, Written, Acknowledged, Removed;
    SameHistory(t);
    match o
    case Write(rule, text) => WrittenKeeps(t, rule, text);
    case Ack(id) => AcknowledgedKeeps(t, id);
    case AddRule(rule) => CreatedKeeps(t, rule);
    case ChangeRule(id, rule) => EditedKeeps(t, id, rule);
    case Remove(id) => RemovedKeeps(t, id);
  }

  lemma {:induction false} AllBesideKeeps(t: Tables, os: seq<Other>, locked: set<int>, deleted: Option<int>)
    requires Consistent(t)
    ensures var u := AllBeside(t, os, locked, deleted); Consistent(u) && History(t, u)
  {
    if os != [] {
      var last := |os| - 1;
      AllBesideKeeps(t, os[..last], locked, deleted);
      var u := AllBeside(t, os[..last], locked, deleted);
      hide Beside, Consistent, History;
      BesideKeeps(u, os[last], locked, deleted);
      HistoryJoins(t, u, AllBeside(t, os, locked, deleted));
    }
  }

  lemma RemovedKeeps(t: Tables, id: int)
    requires Consistent(t)
    ensures Consistent(Removed(t, id)) && History(t, Removed(t, id))
  {
  }

  lemma SingleKeeps(t: Tables, action: Action, op: Op)
    requires Consistent(t) && !op.Delete?
    ensures Consistent(Effect(t, action, op)) && History(t, Effect(t, action, op))
  {
    hide Consistent, History, Created, Edited, Written, Acknowledged;
    match op
    case Create(rule) => CreatedKeeps(t, rule);
    case Edit(id, rule) => EditedKeeps(t, id, rule);
    case Alarm(rule, text) => WrittenKeeps(t, rule, text);
    case Acknowledge(id) => AcknowledgedKeeps(t, id);
  }

  lemma EffectKeeps(t: Tables, action: Action, op: Op)
    requires Consistent(t)
    ensures Consistent(Effect(t, action, op)) && History(t, Effect(t, action, op))
  {
    if op.Delete? {
      hide Consistent, History, Removed;
      var u, v := BeforeDelete(t, op.id, op.afterUpdate), BeforeCommit(t, op.id, op.afterUpdate, op.afterDelete);
      AllBesideKeeps(t, op.afterUpdate, Referring(t.alarms, op.id), None);
      AllBesideKeeps(u, op.afterDelete, Referring(u.alarms, op.id), Some(op.id));
      HistoryJoins(t, u, v);
      RemovedKeeps(v, op.id);
      HistoryJoins(t, v, Removed(v, op.id));
      SameHistory(t);
    } else {
      SingleKeeps(t, action, op);
    }
  }

  lemma SameHistory(t: Tables)
    ensures History(t, t)
  {
  }

  function After(t: Tables, action: Action, ops: seq<Op>): Tables {
    if ops == [] then t else Effect(After(t, action, ops[..|ops| - 1]), action, ops[|ops| - 1])
  }

  /** Over every interleaving: an alarm's rule is always empty or an existing rule, no alarm
      row is ever dropped, reworded or un-acknowledged, and no alarm is ever moved from one
      rule to another. */
  lemma {:induction false} RunKeepsAlarms(t: Tables, action: Action, ops: seq<Op>)
    requires Consistent(t)
    ensures Consistent(After(t, action, ops)) && History(t, After(t, action, ops))
  {
    if ops == [] {
      SameHistory(t);
    } else {
      var last := |ops| - 1;
      RunKeepsAlarms(t, action, ops[..last]);
      hide Consistent, History, Effect;
      var u := After(t, action, ops[..last]);
      EffectKeeps(u, action, ops[last]);
      HistoryJoins(t, u, Effect(u, action, ops[last]));
    }
  }

  // ---- What one delete does ----

  predicate Removes(os: seq<Other>, rule: int) { exists i :: 0 <= i < |os| && os[i] == Remove(rule) }

  predicate Writes(os: seq<Other>, rule: int) { exists i :: 0 <= i < |os| && os[i].Write? && os[i].ruleId == rule }

  lemma RemovesLast(os: seq<Other>, rule: int)
    requires os != []
    ensures Removes(os, rule) <==> Removes(os[..|os| - 1], rule) || os[|os| - 1] == Remove(rule)
    ensures Writes(os, rule) <==> Writes(os[..|os| - 1], rule) || (os[|os| - 1].Write? && os[|os| - 1].ruleId == rule)
  {
    var before, last := os[..|os| - 1], os[|os| - 1];
    assert forall i | 0 <= i < |before| :: before[i] == os[i];
    assert os[|os| - 1] == last;
  }

  /** How the other sessions may change an alarm's rule: only by deleting that rule. */
  ghost predicate ReferenceKept(before: AlarmRow, after: AlarmRow, os: seq<Other>) {
    after.ruleId == before.ruleId
    || (before.ruleId.Some? && after.ruleId.None? && Removes(os, before.ruleId.value))
  }

  lemma BesideReference(t: Tables, o: Other, locked: set<int>, deleted: Option<int>, id: int)
    requires Consistent(t) && id in t.alarms
    ensures var u := Beside(t, o, locked, deleted);
            && id in u.alarms
            && (u.alarms[id].ruleId == t.alarms[id].ruleId
                || (o.Remove? && PointsAt(t.alarms[id], o.id) && u.alarms[id].ruleId.None?
                    && deleted != Some(o.id) && Referring(t.alarms, o.id) * locked == {}))
  {
  }

  lemma {:induction false} OthersKeepReference(t: Tables, os: seq<Other>, locked: set<int>, deleted: Option<int>, id: int)
    requires Consistent(t) && id in t.alarms
    ensures id in AllBeside(t, os, locked, deleted).alarms
    ensures ReferenceKept(t.alarms[id], AllBeside(t, os, locked, deleted).alarms[id], os)
  {
    if os != [] {
      var last := |os| - 1;
      var u := AllBeside(t, os[..last], locked, deleted);
      OthersKeepReference(t, os[..last], locked, deleted, id);
      AllBesideKeeps(t, os[..last], locked, deleted);
      hide Beside, Consistent, Referring;
      BesideReference(u, os[last], locked, deleted, id);
      if t.alarms[id].ruleId.Some? { RemovesLast(os, t.alarms[id].ruleId.value); }
    }
  }

  /** A rule stays unless another session deletes it. */
  lemma {:induction false} OthersKeepRule(t: Tables, os: seq<Other>, locked: set<int>, deleted: Option<int>, rule: int)
    requires rule in t.rules && !Removes(os, rule)
    ensures rule in AllBeside(t, os, locked, deleted).rules
  {
    if os != [] {
      RemovesLast(os, rule);
      OthersKeepRule(t, os[..|os| - 1], locked, deleted, rule);
    }
  }

  /** The alarms the transaction has detached go on referring to the rule for everybody
      else: a delete of the same rule by another session has to wait. */
  lemma {:induction false} LockedGoOnReferring(t: Tables, os: seq<Other>, locked: set<int>, rule: int)
    requires Consistent(t) && locked == Referring(t.alarms, rule)
    ensures locked <= Referring(AllBeside(t, os, locked, None).alarms, rule)
  {
    if os != [] {
      var last := |os| - 1;
      var u := AllBeside(t, os[..last], locked, None);
      LockedGoOnReferring(t, os[..last], locked, rule);
      AllBesideKeeps(t, os[..last], locked, None);
      var v := Beside(u, os[last], locked, None);
      forall id | id in locked ensures id in Referring(v.alarms, rule) {
        assert id in Referring(u.alarms, rule);
        assert id in Referring(u.alarms, rule) * locked;
        BesideReference(u, os[last], locked, None, id);
      }
    }
  }

  lemma {:induction false} DeletedRuleGainsNothing(t: Tables, os: seq<Other>, locked: set<int>, rule: int)
    requires Consistent(t)
    ensures Referring(AllBeside(t, os, locked, Some(rule)).alarms, rule) == Referring(t.alarms, rule)
  {
    if os != [] {
      var last := |os| - 1;
      DeletedRuleGainsNothing(t, os[..last], locked, rule);
      AllBesideKeeps(t, os[..last], locked, Some(rule));
      WaitingChangesNone(AllBeside(t, os[..last], locked, Some(rule)), os[last], locked, rule);
    }
  }

  lemma WaitingChangesNone(t: Tables, o: Other, locked: set<int>, rule: int)
    requires Consistent(t)
    ensures Referring(Beside(t, o, locked, Some(rule)).alarms, rule) == Referring(t.alarms, rule)
  {
    var u := Beside(t, o, locked, Some(rule));
    forall id ensures id in Referring(u.alarms, rule) <==> id in Referring(t.alarms, rule) {
      if id in t.alarms { BesideReference(t, o, locked, Some(rule), id); } else { NewReference(t, o, locked, Some(rule), id); }
    }
  }

  lemma NewReference(t: Tables, o: Other, locked: set<int>, deleted: Option<int>, id: int)
    requires Consistent(t) && id !in t.alarms
    ensures var u := Beside(t, o, locked, deleted);
            id in u.alarms ==> o.Write? && deleted != Some(o.ruleId) && u.alarms[id].ruleId == Some(o.ruleId)
  {
  }

  lemma NoneLeft(t: Tables, rule: int)
    ensures Referring(Removed(t, rule).alarms, rule) == {}
  {
    assert forall id | id in t.alarms :: !PointsAt(Removed(t, rule).alarms[id], rule);
  }

  /** The work of the other sessions over the whole transaction. */
  function Between(op: Op): seq<Other>
    requires op.Delete?
  {
    op.afterUpdate + op.afterDelete
  }

  lemma RemovesBetween(op: Op, rule: int)
    requires op.Delete? && !Removes(Between(op), rule)
    ensures !Removes(op.afterUpdate, rule) && !Removes(op.afterDelete, rule)
  {
    var all := Between(op);
    forall i | 0 <= i < |op.afterUpdate| ensures op.afterUpdate[i] != Remove(rule) { assert all[i] == op.afterUpdate[i]; }
    forall i | 0 <= i < |op.afterDelete| ensures op.afterDelete[i] != Remove(rule) {
      assert all[|op.afterUpdate| + i] == op.afterDelete[i];
    }
  }

  /** What every ending of a delete leaves of a rule and an alarm that the other sessions
      do not touch, up to the COMMIT. */
  lemma OthersLeave(t: Tables, op: Op, rule: int, id: int)
    requires Consistent(t) && op.Delete? && !Removes(Between(op), rule)
    ensures var u, v := BeforeDelete(t, op.id, op.afterUpdate), BeforeCommit(t, op.id, op.afterUpdate, op.afterDelete);
            && Consistent(u) && Consistent(v)
            && (rule in t.rules ==> rule in u.rules && rule in v.rules)
            && (id in t.alarms ==> id in u.alarms && id in v.alarms)
            && (id in t.alarms && t.alarms[id].ruleId == Some(rule) ==>
                  u.alarms[id].ruleId == Some(rule) && v.alarms[id].ruleId == Some(rule))
            && (id in t.alarms && t.alarms[id].ruleId == None ==>
                  u.alarms[id].ruleId == None && v.alarms[id].ruleId == None)
  {
    var u := BeforeDelete(t, op.id, op.afterUpdate);
    var mine, left := Referring(t.alarms, op.id), Referring(u.alarms, op.id);
    RemovesBetween(op, rule);
    hide AllBeside, Consistent, Removes, Referring;
    AllBesideKeeps(t, op.afterUpdate, mine, None);
    AllBesideKeeps(u, op.afterDelete, left, Some(op.id));
    if rule in t.rules {
      OthersKeepRule(t, op.afterUpdate, mine, None, rule);
      OthersKeepRule(u, op.afterDelete, left, Some(op.id), rule);
    }
    if id in t.alarms {
      OthersKeepReference(t, op.afterUpdate, mine, None, id);
      OthersKeepReference(u, op.afterDelete, left, Some(op.id), id);
    }
  }

  /** A delete that succeeds leaves no trace of the rule: it is gone and nothing refers to
      it, while every other rule, and every reference to it, that no other session deleted
      meanwhile is as before. */
  lemma DeleteRemovesExactlyTheRule(t: Tables, action: Action, op: Op, rule: int, id: int)
    requires Consistent(t) && op.Delete? && Succeeds(t, action, op.id, op.outcome, op.afterUpdate)
    requires rule != op.id && !Removes(Between(op), rule)
    ensures var u := Effect(t, action, op);
            && op.id !in u.rules && Referring(u.alarms, op.id) == {}
            && (rule in t.rules ==> rule in u.rules)
            && (id in t.alarms ==> id in u.alarms)
            && (id in t.alarms && t.alarms[id].ruleId == Some(rule) ==> u.alarms[id].ruleId == Some(rule))
            && (id in t.alarms && t.alarms[id].ruleId == Some(op.id) ==> u.alarms[id].ruleId == None)
  {
    hide AllBeside, Consistent, Removes, Refused;
    OthersLeave(t, op, rule, id);
    NoneLeft(BeforeCommit(t, op.id, op.afterUpdate, op.afterDelete), op.id);
    if id in t.alarms && t.alarms[id].ruleId == Some(op.id) { DetachedRow(t, op, id); }
  }

  lemma DetachedRow(t: Tables, op: Op, id: int)
    requires Consistent(t) && op.Delete? && id in t.alarms && t.alarms[id].ruleId == Some(op.id)
    ensures var v := Removed(BeforeCommit(t, op.id, op.afterUpdate, op.afterDelete), op.id);
            id in v.alarms && v.alarms[id].ruleId == None
  {
    var u := BeforeDelete(t, op.id, op.afterUpdate);
    var mine, left := Referring(t.alarms, op.id), Referring(u.alarms, op.id);
    AllBesideKeeps(t, op.afterUpdate, mine, None);
    hide AllBeside, Consistent, Removes, Beside;
    OthersKeepReference(t, op.afterUpdate, mine, None, id);
    OthersKeepReference(u, op.afterDelete, left, Some(op.id), id);
  }

  /** A delete that fails, at whichever statement, changes nothing itself: its own rule,
      and every reference to it, are as before unless another session deleted the rule. */
  lemma FailedDeleteChangesNothing(t: Tables, action: Action, op: Op, rule: int, id: int)
    requires Consistent(t) && op.Delete? && !Succeeds(t, action, op.id, op.outcome, op.afterUpdate)
    requires !Removes(Between(op), rule)
    ensures var u := Effect(t, action, op);
            && (rule in t.rules ==> rule in u.rules)
            && (id in t.alarms ==> id in u.alarms)
            && (id in t.alarms && t.alarms[id].ruleId == Some(rule) ==> u.alarms[id].ruleId == Some(rule))
  {
    hide AllBeside, Consistent, Removes, Refused;
    OthersLeave(t, op, rule, id);
  }

  // ---- When a delete succeeds ----

  lemma {:induction false} NoWriteNoNew(t: Tables, os: seq<Other>, locked: set<int>, rule: int)
    requires Consistent(t) && !Writes(os, rule)
    ensures Referring(AllBeside(t, os, locked, None).alarms, rule) <= Referring(t.alarms, rule)
  {
    if os != [] {
      var last := |os| - 1;
      RemovesLast(os, rule);
      NoWriteNoNew(t, os[..last], locked, rule);
      AllBesideKeeps(t, os[..last], locked, None);
      StepAddsNone(AllBeside(t, os[..last], locked, None), os[last], locked, rule);
    }
  }

  lemma StepAddsNone(t: Tables, o: Other, locked: set<int>, rule: int)
    requires Consistent(t) && (o.Write? ==> o.ruleId != rule)
    ensures Referring(Beside(t, o, locked, None).alarms, rule) <= Referring(t.alarms, rule)
  {
    var u := Beside(t, o, locked, None);
    forall id | id in Referring(u.alarms, rule) ensures id in Referring(t.alarms, rule) {
      if id in t.alarms { BesideReference(t, o, locked, None, id); } else { NewReference(t, o, locked, None, id); }
    }
  }

  /** The rule is gone for good. */
  ghost predicate Gone(t: Tables, rule: int) {
    rule !in t.rules && rule < t.nextRule && Referring(t.alarms, rule) == {}
  }

  lemma GoneStaysBeside(t: Tables, o: Other, locked: set<int>, deleted: Option<int>, rule: int)
    requires Consistent(t) && Gone(t, rule)
    ensures Gone(Beside(t, o, locked, deleted), rule)
  {
    var u := Beside(t, o, locked, deleted);
    forall id | id in u.alarms ensures !PointsAt(u.alarms[id], rule) {
      assert id in t.alarms && PointsAt(t.alarms[id], rule) ==> id in Referring(t.alarms, rule);
    }
  }

  /** If no alarm refers to the rule at the UPDATE, another session can delete it. */
  lemma {:induction false} OtherDeleteWins(t: Tables, os: seq<Other>, rule: int)
    requires Consistent(t) && rule in t.rules && Referring(t.alarms, rule) == {} && Removes(os, rule)
    ensures Gone(AllBeside(t, os, {}, None), rule)
  {
    var last := |os| - 1;
    var u := AllBeside(t, os[..last], {}, None);
    AllBesideKeeps(t, os[..last], {}, None);
    RemovesLast(os, rule);
    if Removes(os[..last], rule) {
      OtherDeleteWins(t, os[..last], rule);
      GoneStaysBeside(u, os[last], {}, None, rule);
    } else {
      OthersKeepRule(t, os[..last], {}, None, rule);
      assert Referring(u.alarms, rule) * {} == {};
      NoneLeft(u, rule);
    }
  }

  lemma SomeMember(s: set<int>) returns (x: int)
    requires s != {}
    ensures x in s
  {
    assert (forall y :: y !in s) ==> s == {};
    x :| x in s;
  }

  /** The rule cannot be deleted under the transaction's feet. */
  ghost predicate Pinned(t: Tables, os: seq<Other>, rule: int) { Referring(t.alarms, rule) != {} || !Removes(os, rule) }

  lemma {:induction false} PinnedStays(t: Tables, os: seq<Other>, rule: int)
    requires Consistent(t) && rule in t.rules && Pinned(t, os, rule)
    ensures rule in AllBeside(t, os, Referring(t.alarms, rule), None).rules
  {
    if os != [] {
      var last, locked := |os| - 1, Referring(t.alarms, rule);
      RemovesLast(os, rule);
      PinnedStays(t, os[..last], rule);
      LockedGoOnReferring(t, os[..last], locked, rule);
      var u := AllBeside(t, os[..last], locked, None);
      if locked != {} {
        var id := SomeMember(locked);
        assert id in Referring(u.alarms, rule) * locked;
      }
    }
  }

  /** An alarm written for a pinned rule is there, and refers to it, at the DELETE. */
  lemma {:induction false} WriteAddsOne(t: Tables, os: seq<Other>, rule: int) returns (added: int)
    requires Consistent(t) && rule in t.rules && Pinned(t, os, rule) && Writes(os, rule)
    ensures added !in t.alarms && added in Referring(AllBeside(t, os, Referring(t.alarms, rule), None).alarms, rule)
  {
    var last, locked := |os| - 1, Referring(t.alarms, rule);
    var u := AllBeside(t, os[..last], locked, None);
    AllBesideKeeps(t, os[..last], locked, None);
    RemovesLast(os, rule);
    PinnedStays(t, os[..last], rule);
    if Writes(os[..last], rule) {
      added := WriteAddsOne(t, os[..last], rule);
      LockedGoOnReferring(t, os[..last], locked, rule);
      StaysReferring(u, os[last], locked, rule, added);
    } else {
      added := u.nextAlarm;
    }
  }

  lemma StaysReferring(u: Tables, o: Other, locked: set<int>, rule: int, id: int)
    requires Consistent(u) && id in Referring(u.alarms, rule)
    requires locked <= Referring(u.alarms, rule) && (locked != {} || o != Remove(rule))
    ensures id in Referring(Beside(u, o, locked, None).alarms, rule)
  {
    BesideReference(u, o, locked, None, id);
    if locked != {} {
      var l := SomeMember(locked);
      assert l in Referring(u.alarms, rule) * locked;
    }
  }

  /** When the SET NULL key is in place nothing another session does can make a delete
      fail. Under NO ACTION it fails exactly when an alarm is written for the rule after
      the UPDATE, unless another session deletes the whole rule, which it can only do if no
      alarm referred to it at the UPDATE. */
  lemma DeleteSucceedsExactly(t: Tables, action: Action, id: int, afterUpdate: seq<Other>)
    requires Consistent(t) && id in t.rules
    ensures Succeeds(t, action, id, Outcome(true, true, true, true), afterUpdate)
       <==> action.SetNull? || !Writes(afterUpdate, id)
            || (Referring(t.alarms, id) == {} && Removes(afterUpdate, id))
  {
    hide AllBeside, Consistent, Removes, Writes;
    if !Writes(afterUpdate, id) { NoWriteNoNew(t, afterUpdate, Referring(t.alarms, id), id); }
    if !Pinned(t, afterUpdate, id) { OtherDeleteWins(t, afterUpdate, id); }
    if Writes(afterUpdate, id) && Pinned(t, afterUpdate, id) { var _ := WriteAddsOne(t, afterUpdate, id); }
  }

  // ---- A deleted rule ----

  lemma {:induction false} GoneStaysAllBeside(t: Tables, os: seq<Other>, locked: set<int>, deleted: Option<int>, rule: int)
    requires Consistent(t) && Gone(t, rule)
    ensures Gone(AllBeside(t, os, locked, deleted), rule)
  {
    if os != [] {
      var last := |os| - 1;
      GoneStaysAllBeside(t, os[..last], locked, deleted, rule);
      AllBesideKeeps(t, os[..last], locked, deleted);
      hide Beside, Gone, Consistent;
      GoneStaysBeside(AllBeside(t, os[..last], locked, deleted), os[last], locked, deleted, rule);
    }
  }

  lemma GoneStaysRemoved(t: Tables, rule: int, other: int)
    requires Gone(t, rule)
    ensures Gone(Removed(t, other), rule)
  {
    var u := Removed(t, other);
    forall id | id in u.alarms ensures !PointsAt(u.alarms[id], rule) {
      assert PointsAt(t.alarms[id], rule) ==> id in Referring(t.alarms, rule);
    }
  }

  lemma StillGone(t: Tables, action: Action, op: Op, rule: int)
    requires Consistent(t) && Gone(t, rule)
    ensures Gone(Effect(t, action, op), rule)
  {
    hide Gone, Consistent, AllBeside, Removed, Referring, Refused;
    match op
    case Create(r) => GoneStaysBeside(t, AddRule(r), {}, None, rule);
    case Edit(id, r) => GoneStaysBeside(t, ChangeRule(id, r), {}, None, rule);
    case Alarm(id, text) => GoneStaysBeside(t, Write(id, text), {}, None, rule);
    case Acknowledge(id) => GoneStaysBeside(t, Ack(id), {}, None, rule);
    case Delete(id, _, afterUpdate, afterDelete) =>
      var u := BeforeDelete(t, id, afterUpdate);
      AllBesideKeeps(t, afterUpdate, Referring(t.alarms, id), None);
      GoneStaysAllBeside(t, afterUpdate, Referring(t.alarms, id), None, rule);
      GoneStaysAllBeside(u, afterDelete, Referring(u.alarms, id), Some(id), rule);
      GoneStaysRemoved(BeforeCommit(t, id, afterUpdate, afterDelete), rule, id);
  }

  /** A rule that was deleted while the alarm engine still had it loaded writes no alarm,
      then or ever after: its id is never given out again. */
  lemma {:induction false} DeletedRuleWritesNothing(t: Tables, action: Action, ops: seq<Op>, rule: int, text: string)
    requires Consistent(t) && Gone(t, rule)
    ensures var u := After(t, action, ops); Gone(u, rule) && Written(u, rule, text) == u
  {
    if ops != [] {
      var last := |ops| - 1;
      DeletedRuleWritesNothing(t, action, ops[..last], rule, text);
      RunKeepsAlarms(t, action, ops[..last]);
      StillGone(After(t, action, ops[..last]), action, ops[last], rule);
    }
  }
}
