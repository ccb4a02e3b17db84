/** The sentence of a rule without a template, which every loaded rule uses.

    The default template keeps its placeholders apart by spaces, and no placeholder holds a
    space, so that each of its parts meets the passes alone. That gives the message in closed
    form, and exactly the rules whose names come out as they are. */
module DefaultSentence {
  import opened RuleEvaluator
  import opened MessageLaws

  /** On which side of the threshold the readings lie that fire the rule. */
  function Side(rule: Rule): string {
    if Holds(rule, rule.threshold + 1.0) then "exceeded threshold"
    else if Holds(rule, rule.threshold - 1.0) then "below threshold"
    else "reached threshold"
  }

  lemma PhraseNamesTheSide(rule: Rule)
    ensures ConditionPhrase(rule.condition) == Side(rule)
  {
  }

  /** What the default template asks for. */
  function Sentence(rule: Rule, value: real, show: real -> string): string {
    rule.deviceId + " " + rule.sensor + " value " + show(value) + (" " + Side(rule) + " ") + show(rule.threshold)
  }

  // ---- The message in closed form ----

  lemma NoPlaceholderAcross(a: string, b: string, slot: Slot)
    requires !StartsWith(a, Placeholder(slot))
    ensures !StartsWith(a + (" " + b), Placeholder(slot))
  {
    var s, w := a + (" " + b), Placeholder(slot);
    assert ' ' !in w;
    if |w| <= |a| {
      assert s[..|w|] == a[..|w|];
    } else {
      assert s[|a|] == ' ' && w[|a|] in w;
      assert |w| <= |s| ==> s[..|w|][|a|] == s[|a|];
    }
  }

  lemma {:induction false} PassSplits(a: string, b: string, slot: Slot, text: string)
    ensures ReplaceAll(a + (" " + b), Placeholder(slot), text)
         == ReplaceAll(a, Placeholder(slot), text) + (" " + ReplaceAll(b, Placeholder(slot), text))
    decreases |a|
  {
    hide ReplaceAll, Placeholder;
    var s, w := a + (" " + b), Placeholder(slot);
    if StartsWith(a, w) {
      PassSplits(a[|w|..], b, slot, text);
      StepMatch(a, w, text);
      assert s[..|w|] == a[..|w|] && s[|w|..] == a[|w|..] + (" " + b);
      StepMatch(s, w, text);
    } else if a == "" {
      NothingToReplace(slot, text);
      SkipsBraceFree(" ", b, slot, text);
      assert s == " " + b;
    } else {
      PassSplits(a[1..], b, slot, text);
      NoPlaceholderAcross(a, b, slot);
      StepPast(a, w, text);
      StepPast(s, w, text);
      assert s[1..] == a[1..] + (" " + b);
    }
  }

  lemma {:induction false} PassesSplit(a: string, b: string, texts: Texts, k: nat)
    requires k <= 5
    ensures Passes(a + (" " + b), texts, k) == Passes(a, texts, k) + (" " + Passes(b, texts, k))
    decreases 5 - k
  {
    hide ReplaceAll, Placeholder;
    if k < 5 {
      var slot := SlotOf(k);
      PassSplits(a, b, slot, texts(slot));
      PassesSplit(ReplaceAll(a, Placeholder(slot), texts(slot)), ReplaceAll(b, Placeholder(slot), texts(slot)), texts, k + 1);
    }
  }

  /** A placeholder on its own becomes its text, which then meets the later passes. */
  lemma PlaceholderPasses(slot: Slot, texts: Texts)
    ensures Passes(Placeholder(slot), texts, 0) == Passes(texts(slot), texts, PassOf(slot) + 1)
  {
    PassesReach(slot, "", texts, 0);
    assert Placeholder(slot) + "" == Placeholder(slot) && texts(slot) + "" == texts(slot);
  }

  lemma DefaultSpelled(phrase: string)
    ensures "{device} {sensor} value {value} " + phrase + " {threshold}"
         == "{device}" + (" " + ("{sensor}" + (" " + ("value" + (" " + ("{value}" + (" " + (phrase + (" " + "{threshold}")))))))))
  {
    assert "{device} {sensor} value {value} "
        == "{device}" + (" " + ("{sensor}" + (" " + ("value" + (" " + ("{value}" + " "))))));
    assert " {threshold}" == " " + "{threshold}";
  }

  lemma Flattened(device: string, sensor: string, value: string, phrase: string, threshold: string)
    ensures device + (" " + (sensor + (" " + ("value" + (" " + (value + (" " + (phrase + (" " + threshold)))))))))
         == device + " " + sensor + " value " + value + (" " + phrase + " ") + threshold
  {
    assert " value " == " " + ("value" + " ");
  }

  /** The message of the default template: each text, as the later passes leave it, in its
      place. */
  lemma DefaultInParts(rule: Rule, texts: Texts)
    ensures InSequence(DefaultTemplate(rule), texts)
         == Passes(texts(DeviceSlot), texts, 1) + " " + Passes(texts(SensorSlot), texts, 2) + " value "
            + Passes(texts(ValueSlot), texts, 3) + (" " + ConditionPhrase(rule.condition) + " ")
            + Passes(texts(ThresholdSlot), texts, 4)
  {
    var phrase := ConditionPhrase(rule.condition);
    assert NoBrace(phrase) && NoBrace("value");
    PassesAreInSequence(DefaultTemplate(rule), texts);
    DefaultSpelled(phrase);
    hide Passes, NoBrace, ConditionPhrase, InSequence;
    var s4 := phrase + (" " + "{threshold}");
    var s3 := "{value}" + (" " + s4);
    var s2 := "value" + (" " + s3);
    var s1 := "{sensor}" + (" " + s2);
    PassesSplit("{device}", s1, texts, 0);
    PassesSplit("{sensor}", s2, texts, 0);
    PassesSplit("value", s3, texts, 0);
    PassesSplit("{value}", s4, texts, 0);
    PassesSplit(phrase, "{threshold}", texts, 0);
    PlaceholderPasses(DeviceSlot, texts);
    PlaceholderPasses(SensorSlot, texts);
    PlaceholderPasses(ValueSlot, texts);
    PlaceholderPasses(ThresholdSlot, texts);
    PassesSkipBraceFree("value", texts, 0);
    PassesSkipBraceFree(phrase, texts, 0);
    Flattened(Passes(texts(DeviceSlot), texts, 1), Passes(texts(SensorSlot), texts, 2),
              Passes(texts(ValueSlot), texts, 3), phrase, Passes(texts(ThresholdSlot), texts, 4));
  }

  lemma {:induction false} PassesSkipInert(s: string, texts: Texts, k: nat)
    requires k <= 5 && forall later: Slot :: PassOf(later) >= k ==> Inert(s, later)
    ensures Passes(s, texts, k) == s
    decreases 5 - k
  {
    hide ReplaceAll, Placeholder, Inert;
    if k < 5 {
      SkipsInert(s, "", SlotOf(k), texts(SlotOf(k)));
      NothingToReplace(SlotOf(k), texts(SlotOf(k)));
      assert s + "" == s;
      PassesSkipInert(s, texts, k + 1);
    }
  }

  lemma PassesSkipBraceFree(s: string, texts: Texts, k: nat)
    requires k <= 5 && NoBrace(s)
    ensures Passes(s, texts, k) == s
  {
    forall later: Slot ensures Inert(s, later) { BraceFreeIsInert(s, later); }
    PassesSkipInert(s, texts, k);
  }

  /** Whatever numbers print as: the sentence comes out if no text of the rule can be touched
      by a later pass. */
  lemma DefaultMessage(rule: Rule, value: real, show: real -> string)
    requires rule.messageTemplate == "" && SafeTexts(TextsFor(rule, value, show))
    ensures Message(rule, value, show) == Sentence(rule, value, show)
  {
    var texts := TextsFor(rule, value, show);
    PhraseNamesTheSide(rule);
    hide InSequence, Inert, DefaultTemplate, ConditionPhrase, Side;
    forall slot: Slot ensures Passes(texts(slot), texts, PassOf(slot) + 1) == texts(slot) {
      assert InertAfter(texts(slot), slot);
      PassesSkipInert(texts(slot), texts, PassOf(slot) + 1);
    }
    hide Passes;
    DefaultInParts(rule, texts);
  }

  // ---- Exactly which names come out as they are ----

  /** No placeholder of pass `k` or later occurs in the text. */
  ghost predicate Untouched(s: string, k: nat) {
    forall slot: Slot, i: nat | PassOf(slot) >= k :: !OccursAt(s, Placeholder(slot), i)
  }

  ghost predicate Contains(s: string, pattern: string) { exists i: nat :: OccursAt(s, pattern, i) }

  /** Neither name holds the placeholder of a number or of the severity, and the device holds
      that of the sensor only if the sensor is called just that. */
  ghost predicate NamesKept(rule: Rule) {
    && Untouched(rule.deviceId, 2) && Untouched(rule.sensor, 2)
    && (Contains(rule.deviceId, "{sensor}") ==> rule.sensor == "{sensor}")
  }

  /** A character of every number and of every severity, and of no placeholder but that of
      the device: one is gained by each replacement of the last three passes. */
  predicate Mark(c: char) { '0' <= c <= '9' || c == 'f' || c == 'w' || c == 'c' }

  function Marks(s: string): nat {
    if s == "" then 0 else (if Mark(s[0]) then 1 else 0) + Marks(s[1..])
  }

  lemma {:induction false} MarksJoin(a: string, b: string)
    ensures Marks(a + b) == Marks(a) + Marks(b)
  {
    if a == "" {
      assert a + b == b;
    } else {
      assert (a + b)[1..] == a[1..] + b;
      MarksJoin(a[1..], b);
    }
  }

  lemma {:induction false} MarkCounts(s: string, i: nat)
    requires i < |s| && Mark(s[i])
    ensures Marks(s) > 0
  {
    if i > 0 { MarkCounts(s[1..], i - 1); }
  }

  lemma {:induction false} UnmarkedCounts(s: string)
    requires forall i | 0 <= i < |s| :: !Mark(s[i])
    ensures Marks(s) == 0
  {
    if s != "" { UnmarkedCounts(s[1..]); }
  }

  lemma PlaceholderUnmarked(slot: Slot)
    requires slot != DeviceSlot
    ensures Marks(Placeholder(slot)) == 0
  {
    UnmarkedCounts(Placeholder(slot));
  }

  /** A pass never loses marks; with a marked text it gains one for every replacement. */
  lemma {:induction false} PassGainsMarks(s: string, slot: Slot, text: string, i: nat)
    requires slot != DeviceSlot
    ensures var r := ReplaceAll(s, Placeholder(slot), text);
            && Marks(r) >= Marks(s)
            && (Marks(text) > 0 && Marks(r) == Marks(s) ==> r == s)
            && (Marks(text) > 0 && OccursAt(s, Placeholder(slot), i) ==> Marks(r) > Marks(s))
    decreases |s|
  {
    hide ReplaceAll, Placeholder, Mark;
    var w := Placeholder(slot);
    PlaceholderUnmarked(slot);
    PlaceholderTail(slot);
    if StartsWith(s, w) {
      var rest := s[|w|..];
      StepMatch(s, w, text);
      PassGainsMarks(rest, slot, text, 0);
      MarksJoin(text, ReplaceAll(rest, w, text));
      assert s == w + rest;
      MarksJoin(w, rest);
    } else if s == "" {
      StepShort(s, w, text);
    } else {
      StepPast(s, w, text);
      PassGainsMarks(s[1..], slot, text, if i > 0 then i - 1 else 0);
      assert s[0..] == s && s == [s[0]] + s[1..];
      assert 0 < i <= |s| ==> s[i..] == s[1..][i - 1..];
    }
  }

  ghost predicate Marked(texts: Texts) {
    forall slot: Slot :: PassOf(slot) >= 2 ==> Marks(texts(slot)) > 0
  }

  lemma {:induction false} PassesGainMarks(s: string, texts: Texts, k: nat)
    requires 2 <= k <= 5 && Marked(texts)
    ensures Marks(Passes(s, texts, k)) >= Marks(s)
    ensures Marks(Passes(s, texts, k)) == Marks(s) ==> Passes(s, texts, k) == s && Untouched(s, k)
    decreases 5 - k
  {
    hide ReplaceAll, OccursAt, Placeholder, Marks;
    if k < 5 {
      var here := SlotOf(k);
      var r := ReplaceAll(s, Placeholder(here), texts(here));
      PassGainsMarks(s, here, texts(here), 0);
      PassesGainMarks(r, texts, k + 1);
      if Marks(Passes(s, texts, k)) == Marks(s) {
        forall slot: Slot, i: nat | PassOf(slot) >= k ensures !OccursAt(s, Placeholder(slot), i) {
          SameSlot(slot, here);
          if slot == here { PassGainsMarks(s, here, texts(here), i); }
        }
      }
    }
  }

  lemma {:induction false} AbsentIsKept(s: string, pattern: string, text: string)
    requires pattern != "" && !Contains(s, pattern)
    ensures ReplaceAll(s, pattern, text) == s
  {
    hide ReplaceAll;
    if s == "" {
      StepShort(s, pattern, text);
    } else {
      assert s[0..] == s && !OccursAt(s, pattern, 0);
      forall i: nat ensures !OccursAt(s[1..], pattern, i) {
        assert !OccursAt(s, pattern, i + 1);
        if i < |s| { assert s[1..][i..] == s[i + 1..]; }
      }
      StepPast(s, pattern, text);
      AbsentIsKept(s[1..], pattern, text);
    }
  }

  lemma {:induction false} PassesKeepUntouched(s: string, texts: Texts, k: nat)
    requires k <= 5 && Untouched(s, k)
    ensures Passes(s, texts, k) == s
    decreases 5 - k
  {
    hide ReplaceAll, OccursAt, Placeholder;
    if k < 5 {
      AbsentIsKept(s, Placeholder(SlotOf(k)), texts(SlotOf(k)));
      PassesKeepUntouched(s, texts, k + 1);
    }
  }

  lemma {:induction false} ReplacingItself(s: string, pattern: string)
    requires pattern != ""
    ensures ReplaceAll(s, pattern, pattern) == s
    decreases |s|
  {
    hide ReplaceAll;
    if StartsWith(s, pattern) {
      StepMatch(s, pattern, pattern);
      ReplacingItself(s[|pattern|..], pattern);
    } else if s == "" {
      StepShort(s, pattern, pattern);
    } else {
      StepPast(s, pattern, pattern);
      ReplacingItself(s[1..], pattern);
    }
  }

  lemma {:induction false} ReplacingGrows(s: string, pattern: string, text: string)
    requires pattern != "" && |text| >= |pattern|
    ensures |ReplaceAll(s, pattern, text)| >= |s|
    decreases |s|
  {
    hide ReplaceAll;
    if StartsWith(s, pattern) {
      StepMatch(s, pattern, text);
      ReplacingGrows(s[|pattern|..], pattern, text);
    } else if s == "" {
      StepShort(s, pattern, text);
    } else {
      StepPast(s, pattern, text);
      ReplacingGrows(s[1..], pattern, text);
    }
  }

  /** A pass that leaves a string with an occurrence as it is replaces it by itself. */
  lemma {:induction false} KeptMeansItself(s: string, pattern: string, text: string, i: nat)
    requires pattern != "" && ReplaceAll(s, pattern, text) == s && OccursAt(s, pattern, i)
    ensures text == pattern
    decreases |s|
  {
    hide ReplaceAll;
    if |text| < |pattern| {
      ReplacingShrinks(s, pattern, text, i);
    } else if StartsWith(s, pattern) {
      StepMatch(s, pattern, text);
      ReplacingGrows(s[|pattern|..], pattern, text);
      assert s[..|pattern|] == text[..|pattern|];
    } else {
      assert i > 0 by { assert s[0..] == s; }
      StepPast(s, pattern, text);
      assert s[i..] == s[1..][i - 1..];
      KeptMeansItself(s[1..], pattern, text, i - 1);
    }
  }

  lemma NumbersMarked(rule: Rule, value: real, show: real -> string)
    requires NumberText(show(value)) && NumberText(show(rule.threshold))
    ensures Marked(TextsFor(rule, value, show))
  {
    NumberMarked(show(value));
    NumberMarked(show(rule.threshold));
    var word := SeverityText(rule.severity);
    MarkCounts(word, match rule.severity case Info => 2 case Warning => 0 case Critical => 0);
  }

  lemma NumberMarked(s: string)
    requires NumberText(s)
    ensures Marks(s) > 0
  {
    var i :| 0 <= i < |s| && '0' <= s[i] <= '9';
    MarkCounts(s, i);
  }

  /** The device name after the pass of the sensor. */
  function DeviceShown(rule: Rule): string { ReplaceAll(rule.deviceId, "{sensor}", rule.sensor) }

  lemma MessageInParts(rule: Rule, value: real, show: real -> string)
    requires rule.messageTemplate == "" && NumberText(show(value)) && NumberText(show(rule.threshold))
    ensures var texts := TextsFor(rule, value, show);
            Message(rule, value, show)
            == Passes(DeviceShown(rule), texts, 2) + " " + Passes(rule.sensor, texts, 2) + " value " + show(value)
               + (" " + ConditionPhrase(rule.condition) + " ") + show(rule.threshold)
  {
    var texts := TextsFor(rule, value, show);
    assert SlotOf(1) == SensorSlot;
    assert Passes(rule.deviceId, texts, 1) == Passes(DeviceShown(rule), texts, 2);
    hide InSequence, ReplaceAll, ConditionPhrase, DefaultTemplate, Passes, DeviceShown;
    DefaultInParts(rule, texts);
    PassesSkipBraceFree(show(value), texts, 3);
    PassesSkipBraceFree(show(rule.threshold), texts, 4);
  }

  lemma MarksOfParts(a: string, b: string, tail: string)
    ensures Marks(a + " " + b + tail) == Marks(a) + Marks(b) + Marks(tail)
  {
    MarksJoin(a + " " + b, tail);
    MarksJoin(a + " ", b);
    MarksJoin(a, " ");
    assert Marks(" ") == 0;
  }

  lemma TailsMeet(a: string, b: string, mid: string, v: string, phrase: string, t: string)
    ensures a + " " + b + mid + v + phrase + t == a + " " + b + (mid + v + phrase + t)
  {
  }

  lemma SamePart(a: string, b: string, c: string, tail: string)
    requires a + " " + b + tail == c + " " + b + tail
    ensures a == c
  {
    var s, t := a + " " + b + tail, c + " " + b + tail;
    assert |a| == |c|;
    assert s[..|a|] == a && t[..|c|] == c;
  }

  /** A rule without a template gives its sentence exactly when its names are kept. Numbers
      print without braces and with a digit. */
  lemma DefaultMessageExactly(rule: Rule, value: real, show: real -> string)
    requires rule.messageTemplate == "" && NumberText(show(value)) && NumberText(show(rule.threshold))
    ensures Message(rule, value, show) == Sentence(rule, value, show) <==> NamesKept(rule)
  {
    PhraseNamesTheSide(rule);
    hide Side, Message, ReplaceAll, Passes, ConditionPhrase, OccursAt, Marks, Marked, NumberText, Contains, Untouched;
    var texts := TextsFor(rule, value, show);
    var shown := DeviceShown(rule);
    var phrase := " " + ConditionPhrase(rule.condition) + " ";
    var tail := " value " + show(value) + phrase + show(rule.threshold);
    var a, b := Passes(shown, texts, 2), Passes(rule.sensor, texts, 2);
    MessageInParts(rule, value, show);
    TailsMeet(a, b, " value ", show(value), phrase, show(rule.threshold));
    TailsMeet(rule.deviceId, rule.sensor, " value ", show(value), phrase, show(rule.threshold));
    if NamesKept(rule) {
      ShownIsDevice(rule);
      PassesKeepUntouched(rule.deviceId, texts, 2);
      PassesKeepUntouched(rule.sensor, texts, 2);
    } else if a + " " + b + tail == rule.deviceId + " " + rule.sensor + tail {
      NumbersMarked(rule, value, show);
      MarksOfParts(a, b, tail);
      MarksOfParts(rule.deviceId, rule.sensor, tail);
      PassGainsMarks(rule.deviceId, SensorSlot, rule.sensor, 0);
      PassesGainMarks(shown, texts, 2);
      PassesGainMarks(rule.sensor, texts, 2);
      SamePart(a, rule.sensor, rule.deviceId, tail);
      ShownIsDevice(rule);
      assert false;
    }
  }

  lemma ShownIsDevice(rule: Rule)
    ensures DeviceShown(rule) == rule.deviceId
       <==> (Contains(rule.deviceId, "{sensor}") ==> rule.sensor == "{sensor}")
  {
    hide ReplaceAll;
    if !Contains(rule.deviceId, "{sensor}") {
      AbsentIsKept(rule.deviceId, "{sensor}", rule.sensor);
    } else if rule.sensor == "{sensor}" {
      ReplacingItself(rule.deviceId, "{sensor}");
    } else if DeviceShown(rule) == rule.deviceId {
      var i: nat :| OccursAt(rule.deviceId, "{sensor}", i);
      KeptMeansItself(rule.deviceId, "{sensor}", rule.sensor, i);
    }
  }

  /** The template that asks for the severity alone shows its name. */
  lemma SeverityIsNamed(rule: Rule, value: real, show: real -> string)
    requires rule.messageTemplate == "{severity}"
    ensures Message(rule, value, show)
         == match rule.severity
            case Info => "info"
            case Warning => "warning"
            case Critical => "critical"
  {
    var texts := TextsFor(rule, value, show);
    hide InSequence, Passes;
    PassesAreInSequence("{severity}", texts);
    PlaceholderPasses(SeveritySlot, texts);
    assert NoBrace(SeverityText(rule.severity));
    PassesSkipBraceFree(SeverityText(rule.severity), texts, 5);
  }
}
