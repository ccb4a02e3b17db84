/** What the five replacement passes of an alarm message amount to.

    The passes run one after another, each over what the earlier ones made. The module
    compares that with filling every placeholder at once, and says for which templates and
    for which texts the two agree. */
module MessageLaws {
  import opened Wrappers
  import opened RuleEvaluator

  // ---- Simultaneous substitution ----

  datatype Token = Char(c: char) | Hole(slot: Slot)

  /** The placeholder a template shows at its first character, if any. */
  function SlotAt(s: string): (slot: Option<Slot>)
    ensures slot.Some? ==> StartsWith(s, Placeholder(slot.value))
  {
    if StartsWith(s, "{device}") then Some(DeviceSlot)
    else if StartsWith(s, "{sensor}") then Some(SensorSlot)
    else if StartsWith(s, "{value}") then Some(ValueSlot)
    else if StartsWith(s, "{threshold}") then Some(ThresholdSlot)
    else if StartsWith(s, "{severity}") then Some(SeveritySlot)
    else None
  }

  /** One left-to-right reading of the template into characters and placeholders. */
  function Tokens(template: string): seq<Token>
    decreases |template|
  {
    if template == "" then []
    else
      var slot := SlotAt(template);
      if slot.Some? then [Hole(slot.value)] + Tokens(template[|Placeholder(slot.value)|..])
      else [Char(template[0])] + Tokens(template[1..])
  }

  function TokenText(t: Token, texts: Texts): string {
    match t
    case Char(c) => [c]
    case Hole(slot) => texts(slot)
  }

  function Fill(tokens: seq<Token>, texts: Texts): string {
    if tokens == [] then "" else TokenText(tokens[0], texts) + Fill(tokens[1..], texts)
  }

  /** All placeholders filled at once; inserted text is never looked at again. */
  function AtOnce(template: string, texts: Texts): string {
    Fill(Tokens(template), texts)
  }

  /** A string in which no placeholder can begin. */
  predicate NoBrace(s: string) { '{' !in s }

  /** Every opening brace of the template begins one of the five placeholders. */
  predicate Regular(template: string) {
    forall i | 0 <= i < |template| && template[i] == '{' :: SlotAt(template[i..]).Some?
  }

  /** One of the two strings is a prefix of the other. */
  predicate Meets(a: string, b: string) { a <= b || b <= a }

  /** Nowhere in the text can an occurrence of the placeholder begin, whatever follows. */
  predicate Inert(text: string, slot: Slot) {
    forall i | 0 <= i < |text| :: !Meets(text[i..], Placeholder(slot))
  }

  /** The pass in which a placeholder is filled. */
  function PassOf(slot: Slot): (k: nat)
    ensures k < 5
  {
    match slot
    case DeviceSlot => 0
    case SensorSlot => 1
    case ValueSlot => 2
    case ThresholdSlot => 3
    case SeveritySlot => 4
  }

  /** A text that no later pass can touch, in whatever template it is inserted. */
  predicate InertAfter(text: string, slot: Slot) {
    forall later: Slot :: PassOf(later) > PassOf(slot) ==> Inert(text, later)
  }

  predicate SafeTexts(texts: Texts) {
    forall slot: Slot :: InertAfter(texts(slot), slot)
  }

  /** The texts when the passes before number `k` have been made: the other placeholders
      still stand for themselves. */
  function Partly(texts: Texts, k: nat): Texts {
    (slot: Slot) => if PassOf(slot) < k then texts(slot) else Placeholder(slot)
  }

  /** A stray brace, token `i`, becomes an occurrence of a placeholder by what stands behind
      it when the pass of that placeholder comes. */
  predicate Completes(tokens: seq<Token>, texts: Texts, i: nat, slot: Slot) {
    && i < |tokens| && tokens[i] == Char('{')
    && StartsWith(Fill(tokens[i..], Partly(texts, PassOf(slot))), Placeholder(slot))
  }

  predicate NoneCompleted(tokens: seq<Token>, texts: Texts) {
    forall i: nat, slot: Slot | i < |tokens| :: !Completes(tokens, texts, i, slot)
  }

  lemma StartsWithMeets(a: string, rest: string, pattern: string)
    requires StartsWith(a + rest, pattern)
    ensures Meets(a, pattern)
  {
    if |pattern| <= |a| {
      assert (a + rest)[..|pattern|] == a[..|pattern|];
    } else {
      assert pattern[..|a|] == (a + rest)[..|a|] == a;
    }
  }

  lemma InertRest(a: string, slot: Slot)
    requires a != "" && Inert(a, slot)
    ensures Inert(a[1..], slot)
  {
    assert forall i | 0 <= i < |a[1..]| :: a[1..][i..] == a[i + 1..];
  }

  lemma InertFront(a: string, rest: string, slot: Slot)
    requires a != "" && Inert(a, slot)
    ensures !StartsWith(a + rest, Placeholder(slot))
  {
    assert a[0..] == a && !Meets(a, Placeholder(slot));
    hide Placeholder, StartsWith;
    if StartsWith(a + rest, Placeholder(slot)) { StartsWithMeets(a, rest, Placeholder(slot)); }
  }

  lemma {:induction false} SkipsInert(a: string, rest: string, slot: Slot, text: string)
    requires Inert(a, slot)
    ensures ReplaceAll(a + rest, Placeholder(slot), text) == a + ReplaceAll(rest, Placeholder(slot), text)
  {
    hide *;
    var s, p := a + rest, Placeholder(slot);
    if a == "" {
      assert s == rest;
      assert a + ReplaceAll(rest, p, text) == ReplaceAll(rest, p, text);
    } else {
      InertRest(a, slot);
      InertFront(a, rest, slot);
      SkipsInert(a[1..], rest, slot, text);
      assert s[1..] == a[1..] + rest && s[0] == a[0];
      StepPast(s, p, text);
      assert [s[0]] + (a[1..] + ReplaceAll(rest, p, text)) == a + ReplaceAll(rest, p, text);
    }
  }

  lemma BraceFreeIsInert(a: string, slot: Slot)
    requires NoBrace(a)
    ensures Inert(a, slot)
  {
    PlaceholderTail(slot);
    forall i | 0 <= i < |a| ensures !Meets(a[i..], Placeholder(slot)) { assert a[i] in a && a[i..][0] == a[i]; }
  }

  lemma SkipsBraceFree(a: string, rest: string, slot: Slot, text: string)
    requires NoBrace(a)
    ensures ReplaceAll(a + rest, Placeholder(slot), text) == a + ReplaceAll(rest, Placeholder(slot), text)
  {
    BraceFreeIsInert(a, slot);
    SkipsInert(a, rest, slot, text);
  }

  lemma SkipsOneThenBraceFree(a: string, rest: string, slot: Slot, text: string)
    requires a != "" && NoBrace(a[1..]) && !StartsWith(a + rest, Placeholder(slot))
    ensures ReplaceAll(a + rest, Placeholder(slot), text) == a + ReplaceAll(rest, Placeholder(slot), text)
  {
    hide *;
    var s, p := a + rest, Placeholder(slot);
    PlaceholderTail(slot);
    StepPast(s, p, text);
    assert s[1..] == a[1..] + rest;
    SkipsBraceFree(a[1..], rest, slot, text);
    assert [s[0]] + (a[1..] + ReplaceAll(rest, p, text)) == a + ReplaceAll(rest, p, text);
  }

  /** No placeholder is a prefix of another one followed by anything. */
  lemma PlaceholdersDiffer(p: Slot, q: Slot, rest: string)
    requires p != q
    ensures !StartsWith(Placeholder(p) + rest, Placeholder(q))
  {
    var s, w := Placeholder(p) + rest, Placeholder(q);
    var i := if Placeholder(p)[1] != w[1] then 1 else 3;
    assert s[i] == Placeholder(p)[i] != w[i];
    assert |s| >= |w| ==> s[..|w|][i] == s[i];
  }

  lemma PlaceholderTail(slot: Slot)
    ensures Placeholder(slot) != ""
    ensures NoBrace(Placeholder(slot)[1..]) && Placeholder(slot)[0] == '{'
  {
  }

  lemma OtherPlaceholderKept(p: Slot, q: Slot, rest: string, text: string)
    requires p != q
    ensures ReplaceAll(Placeholder(p) + rest, Placeholder(q), text)
         == Placeholder(p) + ReplaceAll(rest, Placeholder(q), text)
  {
    PlaceholdersDiffer(p, q, rest);
    PlaceholderTail(p);
    SkipsOneThenBraceFree(Placeholder(p), rest, q, text);
  }

  lemma CompletesLater(tokens: seq<Token>, texts: Texts, i: nat, slot: Slot)
    requires tokens != []
    ensures Completes(tokens[1..], texts, i, slot) ==> Completes(tokens, texts, i + 1, slot)
  {
    if i < |tokens| - 1 { assert tokens[1..][i..] == tokens[i + 1..]; }
  }

  /** One pass fills exactly the holes of its own placeholder, if it meets no stray brace
      that has become one. */
  lemma {:induction false} PassFillsOneSlot(tokens: seq<Token>, texts: Texts, slot: Slot)
    requires forall i: nat | i < |tokens| :: !Completes(tokens, texts, i, slot)
    requires forall q: Slot :: PassOf(q) < PassOf(slot) ==> Inert(texts(q), slot)
    ensures ReplaceAll(Fill(tokens, Partly(texts, PassOf(slot))), Placeholder(slot), texts(slot))
         == Fill(tokens, Partly(texts, PassOf(slot) + 1))
  {
    var k := PassOf(slot);
    if tokens == [] {
      NothingToReplace(slot, texts(slot));
    } else {
      forall i: nat | i < |tokens| - 1 ensures !Completes(tokens[1..], texts, i, slot) {
        CompletesLater(tokens, texts, i, slot);
      }
      PassFillsOneSlot(tokens[1..], texts, slot);
      var rest := Fill(tokens[1..], Partly(texts, k));
      var s := Fill(tokens, Partly(texts, k));
      match tokens[0]
      case Char(c) =>
        assert s == [c] + rest;
        if c == '{' {
          assert !Completes(tokens, texts, 0, slot) && tokens[0..] == tokens;
          StepPast(s, Placeholder(slot), texts(slot));
          assert s[1..] == rest;
        } else {
          SkipsBraceFree([c], rest, slot, texts(slot));
        }
      case Hole(q) =>
        PassFillsHole(q, rest, texts, slot);
    }
  }

  lemma PassFillsHole(q: Slot, rest: string, texts: Texts, slot: Slot)
    requires PassOf(q) < PassOf(slot) ==> Inert(texts(q), slot)
    ensures ReplaceAll(Partly(texts, PassOf(slot))(q) + rest, Placeholder(slot), texts(slot))
         == Partly(texts, PassOf(slot) + 1)(q) + ReplaceAll(rest, Placeholder(slot), texts(slot))
  {
    hide ReplaceAll, Placeholder, Inert;
    if PassOf(q) < PassOf(slot) {
      SkipsInert(texts(q), rest, slot, texts(slot));
    } else if q == slot {
      var s := Placeholder(slot) + rest;
      assert s[..|Placeholder(slot)|] == Placeholder(slot) && s[|Placeholder(slot)|..] == rest;
      StepMatch(s, Placeholder(slot), texts(slot));
    } else {
      SameSlot(q, slot);
      OtherPlaceholderKept(q, slot, rest, texts(slot));
    }
  }

  lemma SameSlot(p: Slot, q: Slot)
    ensures PassOf(p) == PassOf(q) <==> p == q
  {
  }

  lemma {:induction false} FillSame(tokens: seq<Token>, t1: Texts, t2: Texts)
    requires forall slot: Slot :: t1(slot) == t2(slot)
    ensures Fill(tokens, t1) == Fill(tokens, t2)
  {
    if tokens != [] { FillSame(tokens[1..], t1, t2); }
  }

  lemma {:induction false} TokensSpellTemplate(template: string, texts: Texts)
    ensures Fill(Tokens(template), Partly(texts, 0)) == template
    decreases |template|
  {
    if template != "" {
      var slot := SlotAt(template);
      if slot.Some? {
        TokensSpellTemplate(template[|Placeholder(slot.value)|..], texts);
      } else {
        TokensSpellTemplate(template[1..], texts);
      }
    }
  }

  predicate Clean(tokens: seq<Token>) {
    forall i | 0 <= i < |tokens| :: tokens[i] != Char('{')
  }

  lemma {:induction false} RegularIsClean(template: string)
    requires Regular(template)
    ensures Clean(Tokens(template))
    decreases |template|
  {
    if template != "" {
      var slot := SlotAt(template);
      assert template[0..] == template;
      var k := if slot.Some? then |Placeholder(slot.value)| else 1;
      var rest := template[k..];
      forall i | 0 <= i < |rest| && rest[i] == '{' ensures SlotAt(rest[i..]).Some? {
        assert rest[i..] == template[k + i..] && template[k + i] == '{';
      }
      RegularIsClean(rest);
    }
  }

  /** The passes number `k` to `m - 1`, when none of them meets a completed brace. */
  lemma {:induction false} PassesFill(tokens: seq<Token>, texts: Texts, k: nat, m: nat)
    requires k <= m <= 5 && SafeTexts(texts)
    requires forall i: nat, slot: Slot | i < |tokens| && k <= PassOf(slot) < m :: !Completes(tokens, texts, i, slot)
    ensures Passes(Fill(tokens, Partly(texts, k)), texts, k) == Passes(Fill(tokens, Partly(texts, m)), texts, m)
    decreases m - k
  {
    hide ReplaceAll, Placeholder, Inert, Fill, Completes;
    if k < m {
      var slot := SlotOf(k);
      forall q: Slot | PassOf(q) < k ensures Inert(texts(q), slot) { assert InertAfter(texts(q), q); }
      PassFillsOneSlot(tokens, texts, slot);
      PassesFill(tokens, texts, k + 1, m);
    }
  }

  lemma {:induction false} SequenceFillsTokens(tokens: seq<Token>, texts: Texts)
    requires NoneCompleted(tokens, texts) && SafeTexts(texts)
    ensures InSequence(Fill(tokens, Partly(texts, 0)), texts) == Fill(tokens, texts)
  {
    hide InSequence, Fill, SafeTexts, Completes;
    PassesAreInSequence(Fill(tokens, Partly(texts, 0)), texts);
    PassesFill(tokens, texts, 0, 5);
    FillSame(tokens, Partly(texts, 5), texts);
  }

  lemma CleanHasNoneCompleted(tokens: seq<Token>, texts: Texts)
    requires Clean(tokens)
    ensures NoneCompleted(tokens, texts)
  {
    hide Fill, Placeholder;
  }

  /** The five passes, done one after another and each free to see what the earlier ones
      inserted, give the same message as filling every placeholder at once. */
  lemma SequenceEqualsAtOnce(template: string, texts: Texts)
    requires Regular(template) && SafeTexts(texts)
    ensures InSequence(template, texts) == AtOnce(template, texts)
  {
    hide InSequence, SafeTexts, NoneCompleted;
    RegularIsClean(template);
    CleanHasNoneCompleted(Tokens(template), texts);
    TokensSpellTemplate(template, texts);
    SequenceFillsTokens(Tokens(template), texts);
  }

  predicate NoBraceTexts(texts: Texts) {
    forall slot: Slot :: NoBrace(texts(slot))
  }

  /** Texts without an opening brace are always safe. */
  lemma BraceFreeTextsAreSafe(texts: Texts)
    requires NoBraceTexts(texts)
    ensures SafeTexts(texts)
  {
    forall p: Slot, q: Slot ensures Inert(texts(p), q) { BraceFreeIsInert(texts(p), q); }
  }

  // ---- Exactly which texts are safe ----

  function SlotOf(k: nat): (slot: Slot)
    requires k < 5
    ensures PassOf(slot) == k
  {
    if k == 0 then DeviceSlot
    else if k == 1 then SensorSlot
    else if k == 2 then ValueSlot
    else if k == 3 then ThresholdSlot
    else SeveritySlot
  }

  /** The passes from number `k` on. */
  function Passes(s: string, texts: Texts, k: nat): string
    requires k <= 5
    decreases 5 - k
  {
    if k == 5 then s
    else Passes(ReplaceAll(s, Placeholder(SlotOf(k)), texts(SlotOf(k))), texts, k + 1)
  }

  lemma PassesAreInSequence(template: string, texts: Texts)
    ensures Passes(template, texts, 0) == InSequence(template, texts)
  {
    hide ReplaceAll, Placeholder;
    assert SlotOf(0) == DeviceSlot && SlotOf(1) == SensorSlot && SlotOf(2) == ValueSlot;
    var s1 := ReplaceAll(template, Placeholder(DeviceSlot), texts(DeviceSlot));
    var s2 := ReplaceAll(s1, Placeholder(SensorSlot), texts(SensorSlot));
    var s3 := ReplaceAll(s2, Placeholder(ValueSlot), texts(ValueSlot));
    var s4 := ReplaceAll(s3, Placeholder(ThresholdSlot), texts(ThresholdSlot));
    var s5 := ReplaceAll(s4, Placeholder(SeveritySlot), texts(SeveritySlot));
    assert Passes(s5, texts, 5) == s5;
    assert Passes(s4, texts, 4) == s5;
    assert Passes(s3, texts, 3) == s5;
    assert Passes(s2, texts, 2) == s5;
    assert Passes(s1, texts, 1) == s5;
  }

  /** A placeholder followed by brace-free text survives up to its own pass. */
  lemma {:induction false} PassesReach(slot: Slot, tail: string, texts: Texts, k: nat)
    requires NoBrace(tail) && k <= PassOf(slot)
    ensures Passes(Placeholder(slot) + tail, texts, k) == Passes(texts(slot) + tail, texts, PassOf(slot) + 1)
    decreases 5 - k
  {
    hide ReplaceAll, Placeholder;
    var here := SlotOf(k);
    SkipsBraceFree(tail, "", here, texts(here));
    NothingToReplace(here, texts(here));
    assert tail + "" == tail;
    if k < PassOf(slot) {
      OtherPlaceholderKept(slot, here, tail, texts(here));
      PassesReach(slot, tail, texts, k + 1);
    } else {
      assert here == slot;
      PlaceholderTail(slot);
      var s := Placeholder(slot) + tail;
      assert s[..|Placeholder(slot)|] == Placeholder(slot) && s[|Placeholder(slot)|..] == tail;
      StepMatch(s, Placeholder(slot), texts(slot));
    }
  }

  lemma NothingToReplace(slot: Slot, text: string)
    ensures ReplaceAll("", Placeholder(slot), text) == ""
  {
    PlaceholderTail(slot);
    StepShort("", Placeholder(slot), text);
  }

  predicate OccursAt(s: string, pattern: string, i: nat) {
    i <= |s| && StartsWith(s[i..], pattern)
  }

  /** Replacing a placeholder by a shorter text never lengthens a string, and shortens it
      if there is one. */
  lemma {:induction false} ReplacingShrinks(s: string, pattern: string, text: string, i: nat)
    requires |text| < |pattern|
    ensures var r := ReplaceAll(s, pattern, text);
            && |r| <= |s|
            && (|r| == |s| ==> r == s)
            && (OccursAt(s, pattern, i) ==> |r| < |s|)
    decreases |s|
  {
    hide ReplaceAll;
    if StartsWith(s, pattern) {
      StepMatch(s, pattern, text);
      ReplacingShrinks(s[|pattern|..], pattern, text, 0);
    } else if s == "" {
      StepShort(s, pattern, text);
    } else {
      StepPast(s, pattern, text);
      ReplacingShrinks(s[1..], pattern, text, if i > 0 then i - 1 else 0);
      assert s[0..] == s && s == [s[0]] + s[1..];
      assert 0 < i <= |s| ==> s[i..] == s[1..][i - 1..];
    }
  }

  lemma {:induction false} LaterPassesShrink(s: string, texts: Texts, k: nat, slot: Slot, i: nat)
    requires k <= 5 && forall q: Slot :: PassOf(q) >= k ==> |texts(q)| < |Placeholder(q)|
    ensures |Passes(s, texts, k)| <= |s|
    ensures PassOf(slot) >= k && OccursAt(s, Placeholder(slot), i) ==> |Passes(s, texts, k)| < |s|
    decreases 5 - k
  {
    hide ReplaceAll, OccursAt, Placeholder;
    if k < 5 {
      var here := SlotOf(k);
      ReplacingShrinks(s, Placeholder(here), texts(here), i);
      LaterPassesShrink(ReplaceAll(s, Placeholder(here), texts(here)), texts, k + 1, slot, i);
      assert PassOf(slot) == k ==> slot == here;
    }
  }

  lemma {:induction false} BraceFreeFills(s: string, texts: Texts)
    requires NoBrace(s)
    ensures AtOnce(s, texts) == s
  {
    if s != "" {
      assert s[0] in s;
      assert SlotAt(s).None? by { BraceStartsSlot(s); }
      BraceFreeFills(s[1..], texts);
    }
  }

  lemma BraceStartsSlot(s: string)
    ensures SlotAt(s).Some? ==> s != "" && s[0] == '{'
  {
    if SlotAt(s).Some? {
      var w := Placeholder(SlotAt(s).value);
      PlaceholderTail(SlotAt(s).value);
      assert s[..|w|][0] == s[0];
    }
  }

  lemma SlotAtPlaceholder(slot: Slot, tail: string)
    ensures SlotAt(Placeholder(slot) + tail) == Some(slot)
  {
    var s := Placeholder(slot) + tail;
    assert s[..|Placeholder(slot)|] == Placeholder(slot);
    var found := SlotAt(s);
    assert found.Some?;
    if found.value != slot { PlaceholdersDiffer(slot, found.value, tail); }
  }

  lemma OneBrace(w: string, tail: string, i: nat)
    requires w != "" && NoBrace(w[1..]) && NoBrace(tail) && 0 < i < |w| + |tail|
    ensures (w + tail)[i] != '{'
  {
    if i < |w| {
      assert w[1..][i - 1] in w[1..];
    } else {
      assert tail[i - |w|] in tail;
    }
  }

  lemma OneHoleIsRegular(slot: Slot, tail: string)
    requires NoBrace(tail)
    ensures Regular(Placeholder(slot) + tail)
  {
    var w := Placeholder(slot);
    var template := w + tail;
    PlaceholderTail(slot);
    SlotAtPlaceholder(slot, tail);
    hide Placeholder, SlotAt, NoBrace;
    forall i | 0 < i < |template| ensures template[i] != '{' { OneBrace(w, tail, i); }
    assert template[0..] == template;
  }

  /** A template of one placeholder and brace-free text. */
  lemma OneHole(slot: Slot, tail: string, texts: Texts)
    requires NoBrace(tail)
    ensures AtOnce(Placeholder(slot) + tail, texts) == texts(slot) + tail
  {
    var w := Placeholder(slot);
    SlotAtPlaceholder(slot, tail);
    BraceFreeFills(tail, texts);
    hide Placeholder, SlotAt;
    assert (w + tail)[|w|..] == tail;
    assert Tokens(w + tail) == [Hole(slot)] + Tokens(tail);
  }

  /** The text can be inserted by the template of any rule, next to any safe texts. */
  ghost predicate SafeEverywhere(text: string, slot: Slot) {
    forall rule: Rule, value: real, show: real -> string
      | Inserts(rule, value, show, slot, text) :: Message(rule, value, show) == RenderedAtOnce(rule, value, show)
  }

  /** The rule has a regular template and fills `slot` with the text, and the others with
      texts that no later pass can touch. */
  ghost predicate Inserts(rule: Rule, value: real, show: real -> string, slot: Slot, text: string) {
    var texts := TextsFor(rule, value, show);
    Regular(Template(rule)) && texts(slot) == text && forall q: Slot :: q != slot ==> InertAfter(texts(q), q)
  }

  function RenderedAtOnce(rule: Rule, value: real, show: real -> string): string {
    AtOnce(Template(rule), TextsFor(rule, value, show))
  }

  /** What completes the placeholder that begins inside a text. */
  function Completion(rest: string, pattern: string): string {
    if |pattern| <= |rest| then "" else pattern[|rest|..]
  }

  lemma CompletionFits(rest: string, slot: Slot)
    requires rest != "" && Meets(rest, Placeholder(slot))
    ensures NoBrace(Completion(rest, Placeholder(slot)))
    ensures StartsWith(rest + Completion(rest, Placeholder(slot)), Placeholder(slot))
  {
    var w := Placeholder(slot);
    var tail := Completion(rest, w);
    PlaceholderTail(slot);
    hide Placeholder;
    if |w| <= |rest| {
      assert rest + tail == rest;
    } else {
      assert rest + tail == w;
      forall j | 0 <= j < |tail| ensures tail[j] != '{' { assert tail[j] == w[1..][|rest| + j - 1]; }
    }
  }

  lemma CompletedOccurs(text: string, i: nat, tail: string, pattern: string)
    requires i <= |text| && StartsWith(text[i..] + tail, pattern)
    ensures OccursAt(text + tail, pattern, i)
  {
    assert (text + tail)[i..] == text[i..] + tail;
  }

  /** A rule whose template inserts the text right before what completes a placeholder. */
  function RuleInserting(text: string, slot: Slot, template: string): Rule {
    Rule(1, if slot.DeviceSlot? then text else "", if slot.SensorSlot? then text else "", GreaterThan, 0.0, Info, template)
  }

  /** The number texts that go with it, for the reading 1. */
  function ShowInserting(text: string, slot: Slot): real -> string {
    (x: real) => if (slot.ValueSlot? && x == 1.0) || (slot.ThresholdSlot? && x == 0.0) then text else "7"
  }

  lemma InsertedTexts(text: string, slot: Slot, template: string)
    requires slot != SeveritySlot
    ensures var texts := TextsFor(RuleInserting(text, slot, template), 1.0, ShowInserting(text, slot));
            && texts(slot) == text
            && forall q: Slot :: q != slot ==> NoBrace(texts(q)) && |texts(q)| < |Placeholder(q)|
  {
  }

  /** Every text that is not safe has a rule and a reading whose message shows it. */
  lemma UnsafeTextIsRewritten(text: string, slot: Slot, later: Slot, i: nat)
    requires slot != SeveritySlot
    requires PassOf(later) > PassOf(slot) && i < |text| && Meets(text[i..], Placeholder(later))
    ensures var template := Placeholder(slot) + Completion(text[i..], Placeholder(later));
            var rule, show := RuleInserting(text, slot, template), ShowInserting(text, slot);
            && Inserts(rule, 1.0, show, slot, text)
            && Holds(rule, 1.0)
            && Message(rule, 1.0, show) != RenderedAtOnce(rule, 1.0, show)
  {
    var w, rest := Placeholder(later), text[i..];
    var tail := Completion(rest, w);
    var template := Placeholder(slot) + tail;
    var rule, show := RuleInserting(text, slot, template), ShowInserting(text, slot);
    var texts := TextsFor(rule, 1.0, show);
    assert Template(rule) == template;
    assert forall q: Slot :: PassOf(q) >= PassOf(slot) + 1 ==> q != slot;
    InsertedTexts(text, slot, template);
    CompletionFits(rest, later);
    CompletedOccurs(text, i, tail, w);
    OneHoleIsRegular(slot, tail);
    OneHole(slot, tail, texts);
    hide InSequence, AtOnce, Regular, TextsFor, Placeholder, Template, NoBrace, InertAfter, Completion;
    PassesAreInSequence(template, texts);
    PassesReach(slot, tail, texts, 0);
    LaterPassesShrink(text + tail, texts, PassOf(slot) + 1, later, i);
    forall q: Slot | q != slot ensures InertAfter(texts(q), q) { BraceFreeIsInertAfter(texts(q), q); }
  }

  lemma BraceFreeIsInertAfter(text: string, slot: Slot)
    requires NoBrace(text)
    ensures InertAfter(text, slot)
  {
    forall later: Slot ensures Inert(text, later) { BraceFreeIsInert(text, later); }
  }

  lemma InertIsSafeEverywhere(text: string, slot: Slot)
    requires InertAfter(text, slot)
    ensures SafeEverywhere(text, slot)
  {
    hide InSequence, AtOnce, Regular, InertAfter, TextsFor, Template;
    forall rule: Rule, value: real, show: real -> string | Inserts(rule, value, show, slot, text)
      ensures Message(rule, value, show) == RenderedAtOnce(rule, value, show)
    {
      var texts := TextsFor(rule, value, show);
      assert forall q: Slot :: InertAfter(texts(q), q);
      SequenceEqualsAtOnce(Template(rule), texts);
    }
  }

  /** A device, sensor or number text is safe in the template of every rule and next to all
      safe texts exactly when no later placeholder occurs in it or begins at its end. (A
      stream prints no number with a brace, so for the two number slots the failing half is
      about ways of printing the engine does not use.) */
  lemma TextSafeExactlyWhenInert(text: string, slot: Slot)
    requires slot != SeveritySlot
    ensures SafeEverywhere(text, slot) <==> InertAfter(text, slot)
  {
    hide Meets, Placeholder, Inserts, Message, RenderedAtOnce, Completion;
    if InertAfter(text, slot) {
      InertIsSafeEverywhere(text, slot);
    } else {
      var later: Slot :| PassOf(later) > PassOf(slot) && !Inert(text, later);
      var i :| 0 <= i < |text| && Meets(text[i..], Placeholder(later));
      UnsafeTextIsRewritten(text, slot, later, i);
    }
  }

  /** The severity text is never free, and is always safe. */
  lemma SeverityTextIsSafe(severity: Severity)
    ensures forall slot: Slot :: InertAfter(SeverityText(severity), slot)
  {
    assert NoBrace(SeverityText(severity));
    forall slot: Slot ensures InertAfter(SeverityText(severity), slot) { BraceFreeIsInertAfter(SeverityText(severity), slot); }
  }

  // ---- Exactly which templates are safe ----

  /** A placeholder that has not had its pass yet begins here. */
  predicate Pending(s: string, k: nat) {
    exists slot: Slot :: PassOf(slot) >= k && StartsWith(s, Placeholder(slot))
  }

  /** The opening braces that begin no placeholder still to be filled. */
  function Strays(s: string, k: nat): nat {
    if s == "" then 0 else (if s[0] == '{' && !Pending(s, k) then 1 else 0) + Strays(s[1..], k)
  }

  lemma {:induction false} StraysSkip(a: string, rest: string, k: nat)
    requires NoBrace(a)
    ensures Strays(a + rest, k) == Strays(rest, k)
  {
    if a == "" {
      assert a + rest == rest;
    } else {
      assert a[0] in a && (a + rest)[0] == a[0] && (a + rest)[1..] == a[1..] + rest;
      StraysSkip(a[1..], rest, k);
    }
  }

  lemma StraysStep(c: char, rest: string, k: nat)
    ensures Strays([c] + rest, k) == (if c == '{' && !Pending([c] + rest, k) then 1 else 0) + Strays(rest, k)
  {
    assert ([c] + rest)[1..] == rest;
  }

  lemma StraysPastPlaceholder(slot: Slot, rest: string, k: nat)
    requires PassOf(slot) >= k
    ensures Strays(Placeholder(slot) + rest, k) == Strays(rest, k)
  {
    var w := Placeholder(slot);
    PlaceholderTail(slot);
    hide Placeholder;
    var s := w + rest;
    assert s[..|w|] == w && Pending(s, k);
    assert s == [w[0]] + (w[1..] + rest);
    StraysStep(w[0], w[1..] + rest, k);
    StraysSkip(w[1..], rest, k);
  }

  lemma PendingSurvives(s: string, k: nat, text: string)
    requires k < 5 && Pending(s, k) && !StartsWith(s, Placeholder(SlotOf(k)))
    ensures Pending(ReplaceAll(s, Placeholder(SlotOf(k)), text), k + 1)
  {
    hide Placeholder, ReplaceAll;
    var here := SlotOf(k);
    var slot: Slot :| PassOf(slot) >= k && StartsWith(s, Placeholder(slot));
    var w := Placeholder(slot);
    SameSlot(slot, here);
    assert s == w + s[|w|..];
    OtherPlaceholderKept(slot, here, s[|w|..], text);
    var r := ReplaceAll(s, Placeholder(here), text);
    assert r[..|w|] == w;
  }

  /** A pass with a brace-free text never adds a stray brace. */
  lemma {:induction false} PassAddsNoStray(s: string, k: nat, text: string)
    requires k < 5 && NoBrace(text)
    ensures Strays(ReplaceAll(s, Placeholder(SlotOf(k)), text), k + 1) <= Strays(s, k)
    decreases |s|
  {
    hide Placeholder, ReplaceAll, Pending, Strays;
    var w := Placeholder(SlotOf(k));
    if s == "" {
      StepShort(s, w, text);
      NoStrays(k);
      NoStrays(k + 1);
    } else if StartsWith(s, w) {
      var rest := s[|w|..];
      StepMatch(s, w, text);
      PassAddsNoStray(rest, k, text);
      StraysSkip(text, ReplaceAll(rest, w, text), k + 1);
      assert s == w + rest;
      StraysPastPlaceholder(SlotOf(k), rest, k);
    } else {
      StepPast(s, w, text);
      PassAddsNoStray(s[1..], k, text);
      assert s == [s[0]] + s[1..];
      StraysStep(s[0], s[1..], k);
      StraysStep(s[0], ReplaceAll(s[1..], w, text), k + 1);
      if Pending(s, k) { PendingSurvives(s, k, text); }
    }
  }

  lemma NoStrays(k: nat)
    ensures Strays("", k) == 0
  {
  }

  lemma {:induction false} PassesAddNoStray(s: string, texts: Texts, k: nat)
    requires k <= 5 && NoBraceTexts(texts)
    ensures Strays(Passes(s, texts, k), 5) <= Strays(s, k)
    decreases 5 - k
  {
    hide Strays, ReplaceAll, Placeholder, NoBrace;
    if k < 5 {
      var here := SlotOf(k);
      PassAddsNoStray(s, k, texts(here));
      PassesAddNoStray(ReplaceAll(s, Placeholder(here), texts(here)), texts, k + 1);
    }
  }

  function StrayTokens(tokens: seq<Token>): nat {
    if tokens == [] then 0 else (if tokens[0] == Char('{') then 1 else 0) + StrayTokens(tokens[1..])
  }

  lemma StraysOfToken(t: Token, rest: string, texts: Texts, k: nat)
    requires NoBraceTexts(texts)
    ensures var s := TokenText(t, Partly(texts, k)) + rest;
            Strays(s, k) == Strays(rest, k) + if t == Char('{') && !Pending(s, k) then 1 else 0
  {
    hide Strays, Placeholder, Pending;
    match t
    case Char(c) => StraysStep(c, rest, k);
    case Hole(q) =>
      if PassOf(q) < k { StraysSkip(texts(q), rest, k); } else { StraysPastPlaceholder(q, rest, k); }
  }

  /** Before pass number `k` the stray braces are at most those of the template; strictly
      fewer if one of them has been completed. */
  lemma {:induction false} StraysOfFill(tokens: seq<Token>, texts: Texts, slot: Slot, i: nat)
    requires NoBraceTexts(texts)
    ensures var n := Strays(Fill(tokens, Partly(texts, PassOf(slot))), PassOf(slot));
            n <= StrayTokens(tokens) && (Completes(tokens, texts, i, slot) ==> n < StrayTokens(tokens))
  {
    var k := PassOf(slot);
    if tokens == [] {
      NoStrays(k);
    } else {
      hide Strays, Placeholder, TokenText, NoBraceTexts;
      var rest := Fill(tokens[1..], Partly(texts, k));
      StraysOfToken(tokens[0], rest, texts, k);
      StraysOfFill(tokens[1..], texts, slot, if i > 0 then i - 1 else 0);
      if 0 < i < |tokens| {
        assert tokens[1..][i - 1..] == tokens[i..];
      } else if i == 0 {
        assert tokens[0..] == tokens;
      }
    }
  }

  lemma {:induction false} FilledStrays(tokens: seq<Token>, texts: Texts)
    requires NoBraceTexts(texts)
    ensures Strays(Fill(tokens, texts), 5) == StrayTokens(tokens)
  {
    if tokens == [] {
      NoStrays(5);
    } else {
      FilledStrays(tokens[1..], texts);
      hide Strays, Placeholder;
      var rest := Fill(tokens[1..], texts);
      match tokens[0]
      case Char(c) =>
        StraysStep(c, rest, 5);
        assert !Pending([c] + rest, 5);
      case Hole(q) => StraysSkip(texts(q), rest, 5);
    }
  }

  /** The first pass that meets a completed brace. */
  lemma {:induction false} FirstCompletion(tokens: seq<Token>, texts: Texts, i: nat, slot: Slot) returns (j: nat, q: Slot)
    requires Completes(tokens, texts, i, slot)
    ensures Completes(tokens, texts, j, q)
    ensures forall l: nat, p: Slot | l < |tokens| && PassOf(p) < PassOf(q) :: !Completes(tokens, texts, l, p)
    decreases PassOf(slot)
  {
    hide Completes;
    j, q := i, slot;
    if l: nat, p: Slot :| l < |tokens| && PassOf(p) < PassOf(slot) && Completes(tokens, texts, l, p) {
      j, q := FirstCompletion(tokens, texts, l, p);
    }
  }

  lemma CompletionIsLost(template: string, texts: Texts, i: nat, slot: Slot)
    requires NoBraceTexts(texts) && Completes(Tokens(template), texts, i, slot)
    ensures InSequence(template, texts) != AtOnce(template, texts)
  {
    var tokens := Tokens(template);
    BraceFreeTextsAreSafe(texts);
    var j, q := FirstCompletion(tokens, texts, i, slot);
    hide Completes, Fill, InSequence, NoBraceTexts, SafeTexts, Strays;
    TokensSpellTemplate(template, texts);
    PassesAreInSequence(template, texts);
    PassesFill(tokens, texts, 0, PassOf(q));
    var s := Fill(tokens, Partly(texts, PassOf(q)));
    PassesAddNoStray(s, texts, PassOf(q));
    StraysOfFill(tokens, texts, q, j);
    FilledStrays(tokens, texts);
  }

  /** With brace-free texts, the five passes give the message filled at once exactly when no
      stray brace of the template becomes a placeholder by the time of that placeholder's
      pass. */
  lemma TemplateSafeExactly(template: string, texts: Texts)
    requires NoBraceTexts(texts)
    ensures InSequence(template, texts) == AtOnce(template, texts) <==> NoneCompleted(Tokens(template), texts)
  {
    hide Completes, InSequence, Fill;
    var tokens := Tokens(template);
    if NoneCompleted(tokens, texts) {
      BraceFreeTextsAreSafe(texts);
      TokensSpellTemplate(template, texts);
      SequenceFillsTokens(tokens, texts);
    } else {
      var i: nat, slot: Slot :| i < |tokens| && Completes(tokens, texts, i, slot);
      CompletionIsLost(template, texts, i, slot);
    }
  }

  /** What a number prints as: it has a digit and no brace. */
  predicate NumberText(s: string) {
    NoBrace(s) && '}' !in s && exists i | 0 <= i < |s| :: '0' <= s[i] <= '9'
  }

  predicate BraceFree(rule: Rule, value: real, show: real -> string) {
    NoBrace(rule.deviceId) && NoBrace(rule.sensor) && NoBrace(show(value)) && NoBrace(show(rule.threshold))
  }

  lemma BraceFreeRule(rule: Rule, value: real, show: real -> string)
    requires BraceFree(rule, value, show)
    ensures NoBraceTexts(TextsFor(rule, value, show))
  {
    assert NoBrace(SeverityText(rule.severity));
  }

  /** The same of a rule: which templates make the message of a reading go wrong. */
  lemma MessageIsAtOnceExactly(rule: Rule, value: real, show: real -> string)
    requires BraceFree(rule, value, show)
    ensures Message(rule, value, show) == RenderedAtOnce(rule, value, show)
       <==> NoneCompleted(Tokens(Template(rule)), TextsFor(rule, value, show))
  {
    BraceFreeRule(rule, value, show);
    TemplateSafeExactly(Template(rule), TextsFor(rule, value, show));
  }

  // ---- Why a template must not have a stray brace ----

  lemma NoSlotAtDoubleBrace(s: string, slot: Slot)
    requires |s| >= 2 && s[1] == '{'
    ensures !StartsWith(s, Placeholder(slot))
  {
    var w := Placeholder(slot);
    assert |w| >= 2 && w[1] != '{';
    assert |s| >= |w| ==> s[..|w|][1] == s[1];
  }

  lemma StrayBraceTokens(texts: Texts)
    ensures AtOnce("{{device}", texts) == "{" + texts(DeviceSlot)
  {
    var template := "{{device}";
    assert template[0..] == template && template[0] == '{';
    assert template[1..] == Placeholder(DeviceSlot) + "";
    assert SlotAt(template).None? by {
      forall slot: Slot ensures !StartsWith(template, Placeholder(slot)) { NoSlotAtDoubleBrace(template, slot); }
    }
    OneHole(DeviceSlot, "", texts);
    hide Placeholder, StartsWith;
    assert AtOnce(template[1..], texts) == texts(DeviceSlot) + "" == texts(DeviceSlot);
    assert Tokens(template) == [Char('{')] + Tokens(template[1..]);
  }

  lemma StrayBracePass(text: string)
    ensures ReplaceAll("{{device}", "{device}", text) == "{" + text
  {
    var template := "{{device}";
    assert template[1..] == "{device}";
    assert template[..8][1] == '{' && "{device}"[1] == 'd';
    StepPast(template, "{device}", text);
    assert "{device}"[8..] == "";
    StepMatch("{device}", "{device}", text);
  }

  lemma WholeMatch(pattern: string, text: string)
    requires pattern != ""
    ensures ReplaceAll(pattern, pattern, text) == text
  {
    StepMatch(pattern, pattern, text);
    assert pattern[|pattern|..] == "";
  }

  lemma StrayBraceIsCompleted(texts: Texts)
    requires texts(DeviceSlot) == "value}" && texts(ValueSlot) == "7"
    requires NoBraceTexts(texts)
    ensures AtOnce("{{device}", texts) == "{value}" && InSequence("{{device}", texts) == "7"
  {
    hide ReplaceAll, AtOnce, Regular, StartsWith;
    StrayBraceTokens(texts);
    StrayBracePass("value}");
    OtherPlaceholderKept(ValueSlot, SensorSlot, "", texts(SensorSlot));
    assert "{value}" + "" == "{value}" && "{" + "value}" == "{value}";
    StepShort("", "{sensor}", texts(SensorSlot));
    WholeMatch("{value}", "7");
    StepShort("7", "{threshold}", texts(ThresholdSlot));
    StepShort("7", "{severity}", texts(SeveritySlot));
  }

  /** A rule with such a template: its stray brace meets the device text and forms a
      placeholder that the template did not contain, so that the message of the reading 7
      is "7" and not "{value}". */
  lemma StrayBraceRule(rule: Rule, value: real, show: real -> string)
    requires rule.messageTemplate == "{{device}" && rule.deviceId == "value}" && show(value) == "7"
    requires BraceFree(rule, value, show)
    ensures RenderedAtOnce(rule, value, show) == "{value}" && Message(rule, value, show) == "7"
  {
    BraceFreeRule(rule, value, show);
    hide InSequence, AtOnce;
    StrayBraceIsCompleted(TextsFor(rule, value, show));
    assert Template(rule) == "{{device}";
  }

  // ---- Texts as tokens ----

  function Chars(s: string): seq<Token> {
    seq(|s|, i requires 0 <= i < |s| => Char(s[i]))
  }

  lemma {:induction false} FillChars(s: string, texts: Texts)
    ensures Fill(Chars(s), texts) == s
  {
    if s != "" {
      assert Chars(s)[1..] == Chars(s[1..]);
      FillChars(s[1..], texts);
    }
  }

  lemma {:induction false} FillConcat(a: seq<Token>, b: seq<Token>, texts: Texts)
    ensures Fill(a + b, texts) == Fill(a, texts) + Fill(b, texts)
  {
    if a == [] {
      assert a + b == b;
    } else {
      assert (a + b)[1..] == a[1..] + b;
      FillConcat(a[1..], b, texts);
    }
  }
}
