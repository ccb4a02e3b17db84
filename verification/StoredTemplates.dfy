/** What becomes of a message template that is stored with a rule.

    The poll loop loads rules without their templates. The module says exactly when nobody
    can tell. */
module StoredTemplates {
  import opened RuleEvaluator
  import opened MessageLaws
  import opened DefaultSentence
  import opened AlarmPoll

  /** On every reading that fires the rule, and however numbers print, the alarm of the
      loaded rule reads as the stored template asks. (A template with a printed number typed
      in as it stands is not honoured in this sense, although it is right for that way of
      printing.) */
  ghost predicate Honoured(rule: Rule) {
    forall value: real, show: real -> string | Holds(rule, value) && PlainNumbers(rule, value, show) ::
      Message(WithoutTemplate(rule), value, show) == Message(rule, value, show)
  }

  /** Numbers print with a digit and without braces. */
  predicate PlainNumbers(rule: Rule, value: real, show: real -> string) {
    NumberText(show(value)) && NumberText(show(rule.threshold))
  }

  /** The template after the passes of the two names, which are stored with the rule. */
  function Named(rule: Rule): string {
    ReplaceAll(ReplaceAll(Template(rule), "{device}", rule.deviceId), "{sensor}", rule.sensor)
  }

  /** What is known of a token before a reading comes: only the numbers are open, and a rule
      that fires on equality shows the same number twice. A placeholder of a name that is
      left after the two passes stays as it is. */
  function Known(rule: Rule, t: Token): seq<Token> {
    match t
    case Char(_) => [t]
    case Hole(DeviceSlot) => Chars("{device}")
    case Hole(SensorSlot) => Chars("{sensor}")
    case Hole(SeveritySlot) => Chars(SeverityText(rule.severity))
    case Hole(ValueSlot) => [t]
    case Hole(ThresholdSlot) => [if rule.condition.Equal? then Hole(ValueSlot) else t]
  }

  function Skeleton(rule: Rule, tokens: seq<Token>): seq<Token> {
    if tokens == [] then [] else Known(rule, tokens[0]) + Skeleton(rule, tokens[1..])
  }

  /** The message of the rule, but for its numbers. */
  function Wording(rule: Rule): seq<Token> { Skeleton(rule, Tokens(Named(rule))) }

  // ---- The passes after the names ----

  /** The texts of the last three passes; the names' placeholders have had their passes and
      stand for themselves. */
  function LateTexts(texts: Texts): Texts {
    (slot: Slot) => if PassOf(slot) < 2 then Placeholder(slot) else texts(slot)
  }

  ghost predicate NumbersIn(texts: Texts) {
    && NumberText(texts(ValueSlot)) && NumberText(texts(ThresholdSlot))
    && NoBrace(texts(SeveritySlot))
  }

  lemma PlaceholderIsInert(p: Slot, q: Slot)
    requires p != q
    ensures Inert(Placeholder(p), q)
  {
    var s, w := Placeholder(p), Placeholder(q);
    PlaceholderTail(p);
    PlaceholderTail(q);
    forall i | 0 <= i < |s| ensures !Meets(s[i..], w) {
      if i == 0 {
        assert s[0..] == s;
        var j := if s[1] != w[1] then 1 else 3;
        assert s[j] != w[j];
      } else {
        assert s[i..][0] == s[i] == s[1..][i - 1] && s[i] in s[1..];
      }
    }
  }

  lemma LateTextsAreSafe(texts: Texts)
    requires NumbersIn(texts)
    ensures SafeTexts(LateTexts(texts))
  {
    hide Placeholder, Inert;
    forall p: Slot, q: Slot | PassOf(q) > PassOf(p) ensures Inert(LateTexts(texts)(p), q) {
      if PassOf(p) < 2 { PlaceholderIsInert(p, q); } else { BraceFreeIsInert(texts(p), q); }
    }
  }

  /** What follows the opening brace of a placeholder, or an end of it. */
  predicate Ending(p: string) {
    && p != "" && p[|p| - 1] == '}'
    && forall i | 0 <= i < |p| :: p[i] != '{' && !('0' <= p[i] <= '9')
  }

  lemma PrefixHolds(a: string, b: string, c: char)
    ensures a <= b && c in a ==> c in b
  {
    if a <= b && c in a {
      var i :| 0 <= i < |a| && a[i] == c;
      assert b[i] == c;
    }
  }

  lemma NumberStopsEnding(number: string, rest: string, p: string)
    requires NumberText(number) && Ending(p)
    ensures !StartsWith(number + rest, p)
  {
    var i :| 0 <= i < |number| && '0' <= number[i] <= '9';
    assert p[|p| - 1] in p && number[i] !in p;
    PrefixHolds(number, p, number[i]);
    PrefixHolds(p, number, '}');
    if StartsWith(number + rest, p) { StartsWithMeets(number, rest, p); }
  }

  lemma PlaceholderStopsEnding(slot: Slot, rest: string, p: string)
    requires Ending(p)
    ensures !StartsWith(Placeholder(slot) + rest, p)
  {
    var s := Placeholder(slot) + rest;
    PlaceholderTail(slot);
    assert s[0] == '{' && |p| <= |s| ==> s[..|p|][0] == s[0];
  }

  /** The end of a placeholder cannot be made of numbers: what spells it after some passes
      has spelled it before them. */
  lemma {:induction false} EndingWasThere(tokens: seq<Token>, texts: Texts, k: nat, p: string)
    requires NumbersIn(texts) && k <= 4 && (p == "" || Ending(p))
    requires StartsWith(Fill(tokens, Partly(LateTexts(texts), k)), p)
    ensures StartsWith(Fill(tokens, Partly(LateTexts(texts), 0)), p)
  {
    var late := LateTexts(texts);
    if p == "" {
      assert Fill(tokens, Partly(late, 0))[..0] == "";
    } else if tokens != [] {
      hide Placeholder, Ending;
      var here, before := Fill(tokens[1..], Partly(late, k)), Fill(tokens[1..], Partly(late, 0));
      match tokens[0]
      case Char(c) =>
        assert ([c] + here)[..|p|] == [c] + here[..|p| - 1];
        assert p == [c] + p[1..] && here[..|p| - 1] == p[1..];
        EndingTail(p);
        EndingWasThere(tokens[1..], texts, k, p[1..]);
        assert ([c] + before)[..|p|] == [c] + before[..|p| - 1];
      case Hole(slot) =>
        if PassOf(slot) < 2 || PassOf(slot) >= k {
          PlaceholderStopsEnding(slot, here, p);
        } else {
          NumberStopsEnding(texts(slot), here, p);
        }
        assert false;
    }
  }

  lemma EndingTail(p: string)
    requires Ending(p)
    ensures p[1..] == "" || Ending(p[1..])
  {
  }

  /** Nothing completes a stray brace in the passes after the names. */
  lemma {:induction false} LateNoneCompleted(s: string, texts: Texts, i: nat, slot: Slot)
    requires NumbersIn(texts) && PassOf(slot) >= 2
    ensures !Completes(Tokens(s), LateTexts(texts), i, slot)
    decreases |s|
  {
    var tokens, late := Tokens(s), LateTexts(texts);
    if s != "" && i < |tokens| {
      hide Placeholder, StartsWith, LateTexts, NumbersIn;
      var n := if SlotAt(s).Some? then |Placeholder(SlotAt(s).value)| else 1;
      if i > 0 {
        LateNoneCompleted(s[n..], texts, i - 1, slot);
        assert tokens[1..][i - 1..] == tokens[i..];
      } else if SlotAt(s).None? && s[0] == '{' {
        assert tokens[0..] == tokens;
        SlotAtNone(s, slot);
        TokensSpellTemplate(s, late);
        StrayStays(tokens, texts, slot);
      }
    }
  }

  lemma SlotAtNone(s: string, slot: Slot)
    requires SlotAt(s).None?
    ensures !StartsWith(s, Placeholder(slot))
  {
  }

  lemma StrayStays(tokens: seq<Token>, texts: Texts, slot: Slot)
    requires NumbersIn(texts) && tokens != [] && tokens[0] == Char('{')
    requires !StartsWith(Fill(tokens, Partly(LateTexts(texts), 0)), Placeholder(slot))
    ensures !StartsWith(Fill(tokens, Partly(LateTexts(texts), PassOf(slot))), Placeholder(slot))
  {
    var late, w := LateTexts(texts), Placeholder(slot);
    var here, before := Fill(tokens[1..], Partly(late, PassOf(slot))), Fill(tokens[1..], Partly(late, 0));
    assert Fill(tokens, Partly(late, PassOf(slot))) == ['{'] + here;
    assert Fill(tokens, Partly(late, 0)) == ['{'] + before;
    BraceThen(here, slot);
    BraceThen(before, slot);
    hide Fill, Placeholder, StartsWith, LateTexts, NumbersIn;
    assert Ending(w[1..]) by { PlaceholderEnds(slot); }
    if StartsWith(here, w[1..]) { EndingWasThere(tokens[1..], texts, PassOf(slot), w[1..]); }
  }

  lemma PlaceholderEnds(slot: Slot)
    ensures |Placeholder(slot)| > 1 && Ending(Placeholder(slot)[1..])
  {
  }

  lemma BraceThen(rest: string, slot: Slot)
    ensures StartsWith(['{'] + rest, Placeholder(slot)) <==> StartsWith(rest, Placeholder(slot)[1..])
  {
    var s, w := ['{'] + rest, Placeholder(slot);
    PlaceholderTail(slot);
    hide Placeholder;
    assert w == ['{'] + w[1..];
    if |w| <= |s| { assert s[..|w|] == ['{'] + rest[..|w| - 1]; }
  }

  lemma {:induction false} PassesSame(s: string, t1: Texts, t2: Texts, k: nat)
    requires k <= 5 && forall slot: Slot :: PassOf(slot) >= k ==> t1(slot) == t2(slot)
    ensures Passes(s, t1, k) == Passes(s, t2, k)
    decreases 5 - k
  {
    hide ReplaceAll, Placeholder;
    if k < 5 { PassesSame(ReplaceAll(s, Placeholder(SlotOf(k)), t1(SlotOf(k))), t1, t2, k + 1); }
  }

  /** The last three passes over any string at all fill its placeholders at once. */
  lemma LatePasses(s: string, texts: Texts)
    requires NumbersIn(texts)
    ensures Passes(s, texts, 2) == Fill(Tokens(s), LateTexts(texts))
  {
    var tokens, late := Tokens(s), LateTexts(texts);
    hide Passes, Fill, Placeholder, Completes, NumbersIn, SafeTexts;
    PassesSame(s, texts, late, 2);
    TokensSpellTemplate(s, late);
    FillSame(tokens, Partly(late, 0), Partly(late, 2));
    FillSame(tokens, Partly(late, 5), late);
    LateTextsAreSafe(texts);
    forall i: nat, slot: Slot | i < |tokens| && 2 <= PassOf(slot) < 5 ensures !Completes(tokens, late, i, slot) {
      LateNoneCompleted(s, texts, i, slot);
    }
    PassesFill(tokens, late, 2, 5);
    PassesEnd(Fill(tokens, late), late);
  }

  lemma PassesEnd(s: string, texts: Texts)
    ensures Passes(s, texts, 5) == s
  {
  }

  // ---- Rendering through the skeleton ----

  lemma KnownFills(rule: Rule, t: Token, value: real, show: real -> string)
    requires Holds(rule, value)
    ensures Fill(Known(rule, t), TextsFor(rule, value, show)) == TokenText(t, LateTexts(TextsFor(rule, value, show)))
  {
    var texts := TextsFor(rule, value, show);
    FillOne(t, texts);
    FillOne(Hole(ValueSlot), texts);
    FillChars("{device}", texts);
    FillChars("{sensor}", texts);
    FillChars(SeverityText(rule.severity), texts);
  }

  lemma FillOne(t: Token, texts: Texts)
    ensures Fill([t], texts) == TokenText(t, texts)
  {
    assert Fill([], texts) == "";
  }

  lemma {:induction false} SkeletonFills(rule: Rule, tokens: seq<Token>, value: real, show: real -> string)
    requires Holds(rule, value)
    ensures Fill(Skeleton(rule, tokens), TextsFor(rule, value, show))
         == Fill(tokens, LateTexts(TextsFor(rule, value, show)))
  {
    if tokens != [] {
      hide Known, TokenText, Holds, TextsFor, LateTexts;
      KnownFills(rule, tokens[0], value, show);
      SkeletonFills(rule, tokens[1..], value, show);
      FillConcat(Known(rule, tokens[0]), Skeleton(rule, tokens[1..]), TextsFor(rule, value, show));
    }
  }

  lemma NamesPassed(rule: Rule, value: real, show: real -> string)
    ensures Message(rule, value, show) == Passes(Named(rule), TextsFor(rule, value, show), 2)
  {
    var t, texts := Template(rule), TextsFor(rule, value, show);
    PassesAreInSequence(t, texts);
    hide ReplaceAll, InSequence, Template;
    assert SlotOf(0) == DeviceSlot && SlotOf(1) == SensorSlot;
    assert Passes(t, texts, 0) == Passes(ReplaceAll(t, "{device}", rule.deviceId), texts, 1);
  }

  /** Every message is the wording of its rule with the numbers filled in. */
  lemma MessageRenders(rule: Rule, value: real, show: real -> string)
    requires Holds(rule, value) && PlainNumbers(rule, value, show)
    ensures Message(rule, value, show) == Fill(Wording(rule), TextsFor(rule, value, show))
  {
    assert NumbersIn(TextsFor(rule, value, show)) by { assert NoBrace(SeverityText(rule.severity)); }
    hide Message, Passes, Skeleton, Fill, Holds, TextsFor, NumbersIn, LateTexts, Named, NumberText;
    NamesPassed(rule, value, show);
    LatePasses(Named(rule), TextsFor(rule, value, show));
    SkeletonFills(rule, Tokens(Named(rule)), value, show);
  }

  lemma LoadedMessageRenders(rule: Rule, value: real, show: real -> string)
    requires Holds(rule, value) && PlainNumbers(rule, value, show)
    ensures Message(WithoutTemplate(rule), value, show)
         == Fill(Wording(WithoutTemplate(rule)), TextsFor(rule, value, show))
  {
    hide Message, Wording, Fill, NumberText;
    MessageRenders(WithoutTemplate(rule), value, show);
    FillSame(Wording(WithoutTemplate(rule)), TextsFor(WithoutTemplate(rule), value, show), TextsFor(rule, value, show));
  }

  // ---- Telling two skeletons apart ----

  predicate Numeric(tokens: seq<Token>) {
    forall i | 0 <= i < |tokens| && tokens[i].Hole? :: tokens[i].slot == ValueSlot || tokens[i].slot == ThresholdSlot
  }

  predicate NoThreshold(tokens: seq<Token>) {
    forall i | 0 <= i < |tokens| :: tokens[i] != Hole(ThresholdSlot)
  }

  /** The character a token shows when both numbers print as one digit. */
  function Shown(t: Token, x: char, y: char): char {
    match t
    case Char(c) => c
    case Hole(slot) => if slot == ValueSlot then x else y
  }

  function ShownAll(tokens: seq<Token>, x: char, y: char): (r: string)
    ensures |r| == |tokens|
  {
    if tokens == [] then "" else [Shown(tokens[0], x, y)] + ShownAll(tokens[1..], x, y)
  }

  lemma {:induction false} FillShows(tokens: seq<Token>, texts: Texts, x: char, y: char)
    requires Numeric(tokens) && texts(ValueSlot) == [x] && texts(ThresholdSlot) == [y]
    ensures Fill(tokens, texts) == ShownAll(tokens, x, y)
  {
    if tokens != [] { FillShows(tokens[1..], texts, x, y); }
  }

  /** Two different skeletons show different texts for some pair of digits. */
  lemma {:induction false} DigitsTellApart(a: seq<Token>, b: seq<Token>) returns (x: char, y: char)
    requires Numeric(a) && Numeric(b) && a != b
    ensures x in "01" && y in "01" && ShownAll(a, x, y) != ShownAll(b, x, y)
    ensures NoThreshold(a) && NoThreshold(b) ==> x == y
  {
    x, y := '0', '0';
    if |a| == |b| {
      assert a == [a[0]] + a[1..] && b == [b[0]] + b[1..];
      if a[0] == b[0] {
        x, y := DigitsTellApart(a[1..], b[1..]);
        assert ShownAll(a, x, y)[1..] != ShownAll(b, x, y)[1..];
      } else {
        x, y := DigitsForTokens(a[0], b[0]);
        assert ShownAll(a, x, y)[0] != ShownAll(b, x, y)[0];
      }
    }
  }

  lemma DigitsForTokens(s: Token, t: Token) returns (x: char, y: char)
    requires s != t && Numeric([s]) && Numeric([t])
    ensures x in "01" && y in "01" && Shown(s, x, y) != Shown(t, x, y)
    ensures s != Hole(ThresholdSlot) && t != Hole(ThresholdSlot) ==> x == y
  {
    assert [s][0] == s && [t][0] == t;
    if s.Hole? && t.Hole? {
      x, y := '0', '1';
    } else {
      var c := if s.Char? then s.c else if t.Char? then t.c else '0';
      x := if c == '0' then '1' else '0';
      y := x;
    }
  }

  lemma KnownIsNumeric(rule: Rule, t: Token)
    ensures Numeric(Known(rule, t)) && (rule.condition.Equal? ==> NoThreshold(Known(rule, t)))
  {
  }

  lemma {:induction false} SkeletonIsNumeric(rule: Rule, tokens: seq<Token>)
    ensures Numeric(Skeleton(rule, tokens)) && (rule.condition.Equal? ==> NoThreshold(Skeleton(rule, tokens)))
  {
    if tokens != [] {
      hide Known;
      KnownIsNumeric(rule, tokens[0]);
      SkeletonIsNumeric(rule, tokens[1..]);
    }
  }

  /** A value that fires the rule, off the threshold if that is possible. */
  function FiringValue(rule: Rule): (v: real)
    ensures Holds(rule, v) && (!rule.condition.Equal? ==> v != rule.threshold)
  {
    match rule.condition
    case GreaterThan | GreaterOrEqual => rule.threshold + 1.0
    case LessThan | LessOrEqual => rule.threshold - 1.0
    case Equal => rule.threshold
  }

  function Digits(threshold: real, x: char, y: char): real -> string {
    (r: real) => if r == threshold then [y] else [x]
  }

  /** Two skeletons that differ are told apart by a firing reading. */
  lemma DifferentFills(rule: Rule, a: seq<Token>, b: seq<Token>) returns (value: real, show: real -> string)
    requires Numeric(a) && Numeric(b) && a != b
    requires rule.condition.Equal? ==> NoThreshold(a) && NoThreshold(b)
    ensures Holds(rule, value) && PlainNumbers(rule, value, show)
    ensures Fill(a, TextsFor(rule, value, show)) != Fill(b, TextsFor(rule, value, show))
  {
    hide Fill, Holds, Numeric, NoThreshold;
    var x, y := DigitsTellApart(a, b);
    value, show := FiringValue(rule), Digits(rule.threshold, x, y);
    DigitTexts(rule, value, x, y);
    hide PlainNumbers;
    FillShows(a, TextsFor(rule, value, show), x, y);
    FillShows(b, TextsFor(rule, value, show), x, y);
  }

  lemma WordingIsNumeric(rule: Rule)
    ensures Numeric(Wording(rule)) && (rule.condition.Equal? ==> NoThreshold(Wording(rule)))
  {
    SkeletonIsNumeric(rule, Tokens(Named(rule)));
  }

  lemma DigitTexts(rule: Rule, value: real, x: char, y: char)
    requires x in "01" && y in "01" && (value != rule.threshold || x == y)
    ensures var show := Digits(rule.threshold, x, y); var texts := TextsFor(rule, value, show);
            PlainNumbers(rule, value, show) && texts(ValueSlot) == [x] && texts(ThresholdSlot) == [y]
  {
  }

  /** The default sentence of the rule, but for its numbers. */
  function SentenceTokens(rule: Rule): seq<Token> {
    Chars(rule.deviceId + " " + rule.sensor + " value ") + [Hole(ValueSlot)]
    + Chars(" " + ConditionPhrase(rule.condition) + " ")
    + [if rule.condition.Equal? then Hole(ValueSlot) else Hole(ThresholdSlot)]
  }

  lemma SentenceFills(rule: Rule, value: real, show: real -> string)
    requires Holds(rule, value)
    ensures Fill(SentenceTokens(rule), TextsFor(rule, value, show)) == Sentence(rule, value, show)
  {
    var texts := TextsFor(rule, value, show);
    var head, phrase := rule.deviceId + " " + rule.sensor + " value ", " " + ConditionPhrase(rule.condition) + " ";
    var last := if rule.condition.Equal? then Hole(ValueSlot) else Hole(ThresholdSlot);
    FillOne(Hole(ValueSlot), texts);
    FillOne(last, texts);
    PhraseNamesTheSide(rule);
    hide Fill, Chars, ConditionPhrase, Side;
    FillChars(head, texts);
    FillChars(phrase, texts);
    FillConcat(Chars(head), [Hole(ValueSlot)], texts);
    FillConcat(Chars(head) + [Hole(ValueSlot)], Chars(phrase), texts);
    FillConcat(Chars(head) + [Hole(ValueSlot)] + Chars(phrase), [last], texts);
  }

  lemma SentenceIsNumeric(rule: Rule)
    ensures Numeric(SentenceTokens(rule)) && (rule.condition.Equal? ==> NoThreshold(SentenceTokens(rule)))
  {
  }

  /** The loaded rule is worded by the sentence exactly when its names are kept. */
  lemma LoadedWordingIsSentence(rule: Rule)
    ensures Wording(WithoutTemplate(rule)) == SentenceTokens(rule) <==> NamesKept(rule)
  {
    hide Message, Wording, Sentence, SentenceTokens, Fill, NumberText, Numeric, NoThreshold;
    var bare := WithoutTemplate(rule);
    var value, show := FiringValue(rule), Digits(rule.threshold, '0', '0');
    if Wording(bare) != SentenceTokens(rule) {
      WordingIsNumeric(bare);
      SentenceIsNumeric(rule);
      value, show := DifferentFills(rule, Wording(bare), SentenceTokens(rule));
    } else {
      DigitTexts(rule, value, '0', '0');
    }
    hide Holds, FiringValue;
    LoadedMessageRenders(rule, value, show);
    SentenceFills(rule, value, show);
    SameSentence(rule, value, show);
    DefaultMessageExactly(bare, value, show);
  }

  lemma SameSentence(rule: Rule, value: real, show: real -> string)
    ensures Sentence(WithoutTemplate(rule), value, show) == Sentence(rule, value, show)
    ensures NamesKept(WithoutTemplate(rule)) <==> NamesKept(rule)
  {
  }

  /** For every rule: its alarms read as the stored template asks exactly when the template,
      with names and severity put in, is the default template with names and severity put in,
      and that is the plain default sentence if the names are kept. Nothing else that is
      stored has any effect. */
  lemma HonouredExactlyWhenDefault(rule: Rule)
    ensures Honoured(rule) <==> Wording(rule) == Wording(WithoutTemplate(rule))
    ensures NamesKept(rule) ==> (Honoured(rule) <==> Wording(rule) == SentenceTokens(rule))
  {
    hide Message, Wording, Fill, PlainNumbers, Holds, NamesKept, SentenceTokens, Numeric, NoThreshold;
    var a, b := Wording(rule), Wording(WithoutTemplate(rule));
    LoadedWordingIsSentence(rule);
    if a == b {
      forall value: real, show: real -> string | Holds(rule, value) && PlainNumbers(rule, value, show)
        ensures Message(WithoutTemplate(rule), value, show) == Message(rule, value, show)
      {
        MessageRenders(rule, value, show);
        LoadedMessageRenders(rule, value, show);
      }
    } else {
      WordingIsNumeric(rule);
      WordingIsNumeric(WithoutTemplate(rule));
      var value, show := DifferentFills(rule, a, b);
      MessageRenders(rule, value, show);
      LoadedMessageRenders(rule, value, show);
    }
  }

  /** A rule stored without a template loses nothing, whatever its texts are and however
      numbers print. */
  lemma EmptyTemplateIsHonoured(rule: Rule)
    requires rule.messageTemplate == ""
    ensures Honoured(rule)
    ensures forall value: real, show: real -> string ::
              Message(WithoutTemplate(rule), value, show) == Message(rule, value, show)
  {
    hide Message;
    assert WithoutTemplate(rule) == rule;
  }

  /** A stored template that is not honoured: the alarm should read "hot". */
  lemma StoredTemplateIsIgnored(rule: Rule, value: real, show: real -> string)
    requires rule == Rule(1, "press", "temperature", GreaterThan, 80.0, Warning, "hot") && value == 90.0
    requires PlainNumbers(rule, value, show)
    ensures Holds(rule, value) && !Honoured(rule)
    ensures Message(rule, value, show) == "hot"
    ensures Message(WithoutTemplate(rule), value, show)
         == "press" + " " + "temperature" + " value " + show(value) + (" " + "exceeded threshold" + " ") + show(rule.threshold)
  {
    var bare := WithoutTemplate(rule);
    BraceFreeRule(bare, value, show);
    BraceFreeTextsAreSafe(TextsFor(bare, value, show));
    assert NoBrace("hot");
    NamesPassedOver(rule, value, show);
    hide InSequence, SafeTexts;
    DefaultMessage(bare, value, show);
    LongerThanThree("press" + " " + "temperature", show(value), (" " + "exceeded threshold" + " ") + show(rule.threshold));
  }

  lemma NamesPassedOver(rule: Rule, value: real, show: real -> string)
    requires rule.messageTemplate != "" && NoBrace(rule.messageTemplate)
    ensures Message(rule, value, show) == rule.messageTemplate
  {
    hide InSequence, Passes;
    PassesAreInSequence(rule.messageTemplate, TextsFor(rule, value, show));
    PassesSkipBraceFree(rule.messageTemplate, TextsFor(rule, value, show), 0);
  }

  lemma LongerThanThree(a: string, b: string, c: string)
    ensures |a + " value " + b + c| > 3
  {
  }

  /** A template with a stray brace, made for a device that is called "sensor}". */
  function StrayTemplate(phrase: string): string {
    "sensor} {{device} value {value} " + phrase + " {threshold}"
  }

  function AfterNames(phrase: string): string {
    " " + ("value" + (" " + ("{value}" + (" " + (phrase + (" " + "{threshold}"))))))
  }

  lemma StraySpelled(phrase: string)
    ensures StrayTemplate(phrase) == "sensor} " + ("{" + ("{device}" + AfterNames(phrase)))
  {
    assert "sensor} {{device} value {value} "
        == "sensor} " + ("{" + ("{device}" + (" " + ("value" + (" " + ("{value}" + " "))))));
    assert " {threshold}" == " " + "{threshold}";
  }

  lemma DevicePass(rest: string, text: string)
    ensures ReplaceAll("{device}" + rest, "{device}", text) == text + ReplaceAll(rest, "{device}", text)
  {
    var s := "{device}" + rest;
    assert s[..8] == "{device}" && s[8..] == rest;
    hide ReplaceAll;
    StepMatch(s, "{device}", text);
  }

  lemma StrayPass(rest: string, text: string)
    ensures ReplaceAll("{" + ("{device}" + rest), "{device}", text) == "{" + (text + ReplaceAll(rest, "{device}", text))
  {
    var s := "{" + ("{device}" + rest);
    assert s[1] == "{device}"[0];
    hide ReplaceAll;
    NoSlotAtDoubleBrace(s, DeviceSlot);
    StepPast(s, "{device}", text);
    assert s[1..] == "{device}" + rest;
    DevicePass(rest, text);
  }

  lemma SensorKept(rest: string, text: string)
    ensures ReplaceAll("{sensor}" + rest, "{device}", text) == "{sensor}" + ReplaceAll(rest, "{device}", text)
  {
    hide ReplaceAll;
    OtherPlaceholderKept(SensorSlot, DeviceSlot, rest, text);
  }

  lemma FrontKept(front: string, rest: string, text: string)
    requires NoBrace(front)
    ensures ReplaceAll(front + rest, "{device}", text) == front + ReplaceAll(rest, "{device}", text)
  {
    hide ReplaceAll;
    SkipsBraceFree(front, rest, DeviceSlot, text);
  }

  lemma StrayDevicePass(rule: Rule)
    ensures ReplaceAll(StrayTemplate(ConditionPhrase(rule.condition)), "{device}", "sensor}")
         == ReplaceAll(DefaultTemplate(rule), "{device}", "sensor}")
  {
    var phrase := ConditionPhrase(rule.condition);
    var rest := AfterNames(phrase);
    DefaultSpelled(phrase);
    StraySpelled(phrase);
    hide ReplaceAll, StrayTemplate, ConditionPhrase;
    assert DefaultTemplate(rule) == "{device}" + (" " + ("{sensor}" + rest));
    hide DefaultTemplate, AfterNames;
    FrontKept("sensor} ", "{" + ("{device}" + rest), "sensor}");
    StrayPass(rest, "sensor}");
    DevicePass(" " + ("{sensor}" + rest), "sensor}");
    FrontKept(" ", "{sensor}" + rest, "sensor}");
    SensorKept(rest, "sensor}");
    BracesMeet(ReplaceAll(rest, "{device}", "sensor}"));
  }

  lemma BracesMeet(tail: string)
    ensures "sensor} " + ("{" + ("sensor}" + tail)) == "sensor}" + (" " + ("{sensor}" + tail))
  {
    assert "sensor} " + "{" + "sensor}" == "sensor}" + " " + "{sensor}";
  }

  /** A stored template that looks nothing like the default one and is honoured: its stray
      brace and the device name together ask for the sensor. */
  lemma StrayTemplateIsHonoured(rule: Rule)
    requires rule.deviceId == "sensor}" && rule.messageTemplate == StrayTemplate(ConditionPhrase(rule.condition))
    ensures Honoured(rule)
  {
    StrayDevicePass(rule);
    assert rule.messageTemplate != "";
    hide ReplaceAll, Skeleton, Tokens, DefaultTemplate, Honoured, StrayTemplate;
    assert Template(rule) == rule.messageTemplate && Template(WithoutTemplate(rule)) == DefaultTemplate(rule);
    SameKnown(rule, Tokens(Named(rule)));
    HonouredExactlyWhenDefault(rule);
  }

  /** The template itself is not looked at once it has been cut into tokens. */
  lemma {:induction false} SameKnown(rule: Rule, tokens: seq<Token>)
    ensures Skeleton(WithoutTemplate(rule), tokens) == Skeleton(rule, tokens)
  {
    if tokens != [] { SameKnown(rule, tokens[1..]); }
  }
}
