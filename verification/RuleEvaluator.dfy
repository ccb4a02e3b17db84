/** Rule evaluation and alarm messages in the alarm engine.

    A message is made by five successive in-place find/replace passes over the template.
    The text of a number is whatever `show` prints for it. */
module RuleEvaluator {

  import opened Wrappers

  datatype Condition = GreaterThan | LessThan | GreaterOrEqual | LessOrEqual | Equal

  datatype Severity = Info | Warning | Critical

  datatype Rule = Rule(
    id: int, deviceId: string, sensor: string, condition: Condition, threshold: real,
    severity: Severity, messageTemplate: string)
  {
    predicate Matches(device: string, sens: string) {
      deviceId == device && sensor == sens
    }
  }

  datatype Alarm = Alarm(
    ruleId: int, deviceId: string, sensor: string, value: real, severity: Severity,
    message: string, timestamp: string, acknowledged: bool)

  datatype Slot = DeviceSlot | SensorSlot | ValueSlot | ThresholdSlot | SeveritySlot

  type Texts = Slot -> string

  function Placeholder(slot: Slot): (p: string)
    ensures p != ""
  {
    match slot
    case DeviceSlot => "{device}"
    case SensorSlot => "{sensor}"
    case ValueSlot => "{value}"
    case ThresholdSlot => "{threshold}"
    case SeveritySlot => "{severity}"
  }

  function SeverityText(s: Severity): string {
    match s
    case Info => "info"
    case Warning => "warning"
    case Critical => "critical"
  }

  function ConditionPhrase(c: Condition): string {
    match c
    case GreaterThan | GreaterOrEqual => "exceeded threshold"
    case LessThan | LessOrEqual => "below threshold"
    case Equal => "reached threshold"
  }

  function DefaultTemplate(rule: Rule): string {
    "{device} {sensor} value {value} " + ConditionPhrase(rule.condition) + " {threshold}"
  }

  function Template(rule: Rule): string {
    if rule.messageTemplate == "" then DefaultTemplate(rule) else rule.messageTemplate
  }

  function TextsFor(rule: Rule, value: real, show: real -> string): Texts {
    (slot: Slot) =>
      match slot
      case DeviceSlot => rule.deviceId
      case SensorSlot => rule.sensor
      case ValueSlot => show(value)
      case ThresholdSlot => show(rule.threshold)
      case SeveritySlot => SeverityText(rule.severity)
  }

  predicate Holds(rule: Rule, value: real) {
    match rule.condition
    case GreaterThan => value > rule.threshold
    case LessThan => value < rule.threshold
    case GreaterOrEqual => value >= rule.threshold
    case LessOrEqual => value <= rule.threshold
    case Equal => value == rule.threshold
  }

  function With(rule: Rule, c: Condition): Rule { rule.(condition := c) }

  /** The five conditions fit together as comparisons with one threshold do: two pairs of
      opposites, and equality where both inclusive ones hold; and greater values only ever
      switch the "greater" conditions on and the "less" ones off. */
  lemma ConditionsFit(rule: Rule, value: real, greater: real)
    ensures Holds(With(rule, GreaterThan), value) <==> !Holds(With(rule, LessOrEqual), value)
    ensures Holds(With(rule, LessThan), value) <==> !Holds(With(rule, GreaterOrEqual), value)
    ensures Holds(With(rule, Equal), value)
       <==> Holds(With(rule, GreaterOrEqual), value) && Holds(With(rule, LessOrEqual), value)
    ensures Holds(With(rule, Equal), rule.threshold)
    ensures value <= greater && Holds(With(rule, GreaterThan), value) ==> Holds(With(rule, GreaterThan), greater)
    ensures value <= greater && Holds(With(rule, LessThan), greater) ==> Holds(With(rule, LessThan), value)
    ensures value < rule.threshold < greater ==> Holds(With(rule, LessThan), value) && Holds(With(rule, GreaterThan), greater)
  {
  }

  // ---- One replacement pass ----

  predicate StartsWith(s: string, prefix: string) {
    |prefix| <= |s| && s[..|prefix|] == prefix
  }

  /** Leftmost occurrence of `pattern` at or after `pos`, as `std::string::find` gives it. */
  function Find(s: string, pattern: string, pos: nat): (at: Option<nat>)
    ensures at.Some? ==> pos <= at.value && at.value + |pattern| <= |s|
    ensures at.Some? ==> StartsWith(s[at.value..], pattern)
    ensures forall i | pos <= i <= |s| && (at.None? || i < at.value) :: !StartsWith(s[i..], pattern)
    decreases |s| - pos
  {
    if pos + |pattern| > |s| then None
    else if StartsWith(s[pos..], pattern) then Some(pos)
    else Find(s, pattern, pos + 1)
  }

  /** Every leftmost, non-overlapping occurrence of `pattern` replaced, once. */
  function ReplaceAll(s: string, pattern: string, text: string): string
    requires pattern != ""
    decreases |s|
  {
    if |s| < |pattern| then s
    else if StartsWith(s, pattern) then text + ReplaceAll(s[|pattern|..], pattern, text)
    else [s[0]] + ReplaceAll(s[1..], pattern, text)
  }

  lemma StepPast(s: string, pattern: string, text: string)
    requires pattern != "" && s != "" && !StartsWith(s, pattern)
    ensures ReplaceAll(s, pattern, text) == [s[0]] + ReplaceAll(s[1..], pattern, text)
  {
    if |s| < |pattern| { assert s == [s[0]] + s[1..]; }
  }

  lemma StepMatch(s: string, pattern: string, text: string)
    requires pattern != "" && StartsWith(s, pattern)
    ensures ReplaceAll(s, pattern, text) == text + ReplaceAll(s[|pattern|..], pattern, text)
  {
  }

  lemma StepShort(s: string, pattern: string, text: string)
    requires |s| < |pattern|
    ensures ReplaceAll(s, pattern, text) == s
  {
  }

  lemma {:induction false} FindSplits(s: string, pattern: string, pos: nat, text: string)
    requires pattern != "" && pos <= |s|
    ensures match Find(s, pattern, pos)
            case None => ReplaceAll(s[pos..], pattern, text) == s[pos..]
            case Some(at) =>
              ReplaceAll(s[pos..], pattern, text)
              == s[pos..at] + text + ReplaceAll(s[at + |pattern|..], pattern, text)
    decreases |s| - pos
  {
    hide ReplaceAll;
    var here, after := s[pos..], Find(s, pattern, pos);
    if pos + |pattern| > |s| {
      StepShort(here, pattern, text);
    } else if StartsWith(here, pattern) {
      StepMatch(here, pattern, text);
      assert here[|pattern|..] == s[pos + |pattern|..];
      assert s[pos..pos] + text == text;
    } else {
      FindSplits(s, pattern, pos + 1, text);
      StepPast(here, pattern, text);
      assert here[1..] == s[pos + 1..] && here == [s[pos]] + s[pos + 1..];
      if after.Some? {
        FrontAssociates(s[pos], s[pos + 1..after.value], text,
                        ReplaceAll(s[after.value + |pattern|..], pattern, text));
        assert s[pos..after.value] == [s[pos]] + s[pos + 1..after.value];
      }
    }
  }

  lemma FrontAssociates(c: char, a: string, b: string, rest: string)
    ensures [c] + (a + b + rest) == ([c] + a) + b + rest
  {
  }

  /** `msg.replace(at, pattern.size(), text)`. */
  function Edited(msg: string, pattern: string, text: string, at: nat): string
    requires at + |pattern| <= |msg|
  {
    msg[..at] + text + msg[at + |pattern|..]
  }

  lemma EditAdvances(msg: string, pattern: string, text: string, pos: nat, at: nat)
    requires pattern != "" && pos <= |msg| && Find(msg, pattern, pos) == Some(at)
    ensures var edited := Edited(msg, pattern, text, at);
            && at + |text| <= |edited|
            && |edited| - (at + |text|) < |msg| - pos
            && edited[..at + |text|] + ReplaceAll(edited[at + |text|..], pattern, text)
               == msg[..pos] + ReplaceAll(msg[pos..], pattern, text)
  {
    hide *;
    FindSplits(msg, pattern, pos, text);
    var head, rest := msg[..at] + text, msg[at + |pattern|..];
    var tail := ReplaceAll(rest, pattern, text);
    assert Edited(msg, pattern, text, at) == head + rest by { EditedParts(msg, pattern, text, at); }
    EditSlices(head, rest);
    EditRegroups(msg, pos, at, text, tail);
  }

  lemma EditedParts(msg: string, pattern: string, text: string, at: nat)
    requires at + |pattern| <= |msg|
    ensures Edited(msg, pattern, text, at) == (msg[..at] + text) + msg[at + |pattern|..]
  {
  }

  lemma EditSlices(head: string, rest: string)
    ensures (head + rest)[..|head|] == head && (head + rest)[|head|..] == rest
  {
  }

  lemma EditRegroups(msg: string, pos: nat, at: nat, text: string, tail: string)
    requires pos <= at <= |msg|
    ensures (msg[..at] + text) + tail == msg[..pos] + (msg[pos..at] + text + tail)
  {
    assert msg[..at] == msg[..pos] + msg[pos..at];
  }

  /** The `replace` loop: the message is edited in place and the scan resumes after the
      text just inserted, so the unscanned part shrinks even when the message grows. */
  method ReplaceInPlace(template: string, pattern: string, text: string) returns (msg: string)
    requires pattern != ""
    ensures msg == ReplaceAll(template, pattern, text)
  {
    msg := template;
    var pos: nat := 0;
    var at := Find(msg, pattern, pos);
    assert msg[0..] == msg;
    while at.Some?
      invariant pos <= |msg| && at == Find(msg, pattern, pos)
      invariant msg[..pos] + ReplaceAll(msg[pos..], pattern, text) == ReplaceAll(template, pattern, text)
      decreases |msg| - pos
    {
      EditAdvances(msg, pattern, text, pos, at.value);
      msg := Edited(msg, pattern, text, at.value);
      pos := at.value + |text|;
      at := Find(msg, pattern, pos);
    }
    FindSplits(msg, pattern, pos, text);
  }

  /** The five passes of `format_message`, in the order the source makes them. */
  function InSequence(template: string, texts: Texts): string {
    var s1 := ReplaceAll(template, Placeholder(DeviceSlot), texts(DeviceSlot));
    var s2 := ReplaceAll(s1, Placeholder(SensorSlot), texts(SensorSlot));
    var s3 := ReplaceAll(s2, Placeholder(ValueSlot), texts(ValueSlot));
    var s4 := ReplaceAll(s3, Placeholder(ThresholdSlot), texts(ThresholdSlot));
    ReplaceAll(s4, Placeholder(SeveritySlot), texts(SeveritySlot))
  }

  function Message(rule: Rule, value: real, show: real -> string): string {
    InSequence(Template(rule), TextsFor(rule, value, show))
  }

  method FormatMessage(rule: Rule, value: real, show: real -> string) returns (msg: string)
    ensures msg == Message(rule, value, show)
  {
    msg := if rule.messageTemplate == "" then DefaultTemplate(rule) else rule.messageTemplate;
    msg := ReplaceInPlace(msg, "{device}", rule.deviceId);
    msg := ReplaceInPlace(msg, "{sensor}", rule.sensor);
    msg := ReplaceInPlace(msg, "{value}", show(value));
    msg := ReplaceInPlace(msg, "{threshold}", show(rule.threshold));
    msg := ReplaceInPlace(msg, "{severity}", SeverityText(rule.severity));
  }

  // ---- Evaluating a rule set ----

  predicate Fires(rule: Rule, device: string, sensor: string, value: real) {
    rule.Matches(device, sensor) && Holds(rule, value)
  }

  function AlarmFor(rule: Rule, value: real, timestamp: string, show: real -> string): Alarm {
    Alarm(rule.id, rule.deviceId, rule.sensor, value, rule.severity,
          Message(rule, value, show), timestamp, false)
  }

  /** The rules that fire on a reading, in rule order. */
  function Firing(rules: seq<Rule>, device: string, sensor: string, value: real): seq<Rule> {
    if rules == [] then []
    else
      var last := |rules| - 1;
      Firing(rules[..last], device, sensor, value)
      + if Fires(rules[last], device, sensor, value) then [rules[last]] else []
  }

  /** One alarm for each rule that fires, in rule order. */
  function AlarmsOf(rules: seq<Rule>, device: string, sensor: string, value: real, timestamp: string,
                    show: real -> string): seq<Alarm>
  {
    var firing := Firing(rules, device, sensor, value);
    seq(|firing|, i requires 0 <= i < |firing| => AlarmFor(firing[i], value, timestamp, show))
  }

  /** The positions, in ascending order, of the rules for this device and sensor whose
      condition holds. */
  ghost predicate FiringAt(rules: seq<Rule>, device: string, sensor: string, value: real, at: seq<nat>) {
    && (forall i, j | 0 <= i < j < |at| :: at[i] < at[j])
    && forall k: nat :: k in at <==>
         k < |rules| && rules[k].deviceId == device && rules[k].sensor == sensor && Holds(rules[k], value)
  }

  /** One alarm for each of the positions, in that order, about the reading. */
  ghost predicate ReportedAt(alarms: seq<Alarm>, rules: seq<Rule>, device: string, sensor: string, value: real,
                             timestamp: string, show: real -> string, at: seq<nat>)
  {
    && |alarms| == |at|
    && forall i | 0 <= i < |at| && at[i] < |rules| ::
         && alarms[i].ruleId == rules[at[i]].id && alarms[i].severity == rules[at[i]].severity
         && alarms[i].deviceId == device && alarms[i].sensor == sensor
         && alarms[i].value == value && alarms[i].timestamp == timestamp
         && alarms[i].message == Message(rules[at[i]], value, show)
         && !alarms[i].acknowledged
  }

  lemma {:induction false} AlarmsInRuleOrder(rules: seq<Rule>, device: string, sensor: string, value: real,
                                             timestamp: string, show: real -> string) returns (at: seq<nat>)
    ensures FiringAt(rules, device, sensor, value, at)
    ensures ReportedAt(AlarmsOf(rules, device, sensor, value, timestamp, show), rules, device, sensor, value,
                       timestamp, show, at)
  {
    hide Message, Holds;
    at := [];
    if rules != [] {
      var last := |rules| - 1;
      var before := AlarmsInRuleOrder(rules[..last], device, sensor, value, timestamp, show);
      at := before + if Fires(rules[last], device, sensor, value) then [last] else [];
      forall k: nat
        ensures k in at <==>
                  k < |rules| && rules[k].deviceId == device && rules[k].sensor == sensor && Holds(rules[k], value)
      {
        assert k in before <==> k < last && Fires(rules[..last][k], device, sensor, value);
      }
      forall i | 0 <= i < |before| ensures before[i] < last && rules[..last][before[i]] == rules[before[i]] { assert before[i] in before; }
    }
  }

  method EvaluateAll(rules: seq<Rule>, device: string, sensor: string, value: real, timestamp: string,
                     show: real -> string)
    returns (alarms: seq<Alarm>)
    ensures alarms == AlarmsOf(rules, device, sensor, value, timestamp, show)
    ensures exists at :: FiringAt(rules, device, sensor, value, at)
                         && ReportedAt(alarms, rules, device, sensor, value, timestamp, show, at)
  {
    ghost var places := AlarmsInRuleOrder(rules, device, sensor, value, timestamp, show);
    hide FiringAt, ReportedAt;
    alarms := [];
    var i := 0;
    while i < |rules|
      invariant 0 <= i <= |rules|
      invariant alarms == AlarmsOf(rules[..i], device, sensor, value, timestamp, show)
    {
      var rule := rules[i];
      assert rules[..i + 1][..i] == rules[..i];
      if rule.Matches(device, sensor) && Holds(rule, value) {
        var message := FormatMessage(rule, value, show);
        alarms := alarms + [Alarm(rule.id, device, sensor, value, rule.severity, message, timestamp, false)];
      }
      i := i + 1;
    }
    assert rules[..|rules|] == rules;
  }

  /** Every rule that fires is kept as often as it is listed, and no other rule is. */
  lemma {:induction false} FiringKeepsExactlyTheFiring(rules: seq<Rule>, device: string, sensor: string,
                                                       value: real, rule: Rule)
    ensures multiset(Firing(rules, device, sensor, value))[rule]
         == if Fires(rule, device, sensor, value) then multiset(rules)[rule] else 0
  {
    if rules != [] {
      var last := |rules| - 1;
      FiringKeepsExactlyTheFiring(rules[..last], device, sensor, value, rule);
      assert rules == rules[..last] + [rules[last]];
    }
  }
}
