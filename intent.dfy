/**
 * `_parse_user_intent` of the chatbot: the lower-cased message is matched against five
 * keyword lists in a fixed order, and the first list with a keyword in the message
 * decides the request type; a second, per-type list of keywords picks the action.
 */
module Intents {
  import opened PyStr
  import opened Wrappers

  /** The `type` of an intent. */
  datatype IntentType = General | WritingAssistance | GenerationRequest | StyleAnalysis | SuggestionRequest | InfoRequest

  /** The `action` of an intent. */
  datatype Action =
    | ContinueText | CharacterDevelopment | PlotDevelopment | DialogueWriting | GeneralWriting
    | StoryGeneration | ChapterGeneration | ParagraphGeneration | TextGeneration
    | AnalyzeStyle
    | CharacterSuggestions | PlotSuggestions | TitleSuggestions | GeneralSuggestions
    | ModelStatus

  /** What `_parse_user_intent` returns; its `parameters` dictionary is always empty. */
  datatype Intent = Intent(kind: IntentType, action: Option<Action>)

  const WritingKeywords: seq<string> := ["write", "continue", "help me write", "complete"]
  const GenerationKeywords: seq<string> := ["generate", "create", "start"]
  const StyleKeywords: seq<string> := ["style", "genre", "like", "similar to"]
  const SuggestionKeywords: seq<string> := ["suggest", "idea", "what should", "help with"]
  const InfoKeywords: seq<string> := ["status", "trained", "model", "info"]

  /** `any(phrase in u for phrase in phrases)`. */
  predicate AnyIn(phrases: seq<string>, u: string)
  {
    exists i :: 0 <= i < |phrases| && Contains(u, phrases[i])
  }

  /** The action of a writing-assistance request. */
  function WritingAction(u: string): Action
  {
    if Contains(u, "continue") || Contains(u, "complete") then ContinueText
    else if Contains(u, "character") then CharacterDevelopment
    else if Contains(u, "plot") then PlotDevelopment
    else if Contains(u, "dialogue") then DialogueWriting
    else GeneralWriting
  }

  /** The action of a generation request. */
  function GenerationAction(u: string): Action
  {
    if Contains(u, "story") || Contains(u, "tale") then StoryGeneration
    else if Contains(u, "chapter") then ChapterGeneration
    else if Contains(u, "paragraph") then ParagraphGeneration
    else TextGeneration
  }

  /** The action of a suggestions request. */
  function SuggestionAction(u: string): Action
  {
    if Contains(u, "character") then CharacterSuggestions
    else if Contains(u, "plot") then PlotSuggestions
    else if Contains(u, "title") then TitleSuggestions
    else GeneralSuggestions
  }

  /** `_parse_user_intent`. */
  function ParseIntent(input: string): Intent
  {
    var u := Lower(input);
    if AnyIn(WritingKeywords, u) then Intent(WritingAssistance, Some(WritingAction(u)))
    else if AnyIn(GenerationKeywords, u) then Intent(GenerationRequest, Some(GenerationAction(u)))
    else if AnyIn(StyleKeywords, u) then Intent(StyleAnalysis, Some(AnalyzeStyle))
    else if AnyIn(SuggestionKeywords, u) then Intent(SuggestionRequest, Some(SuggestionAction(u)))
    else if AnyIn(InfoKeywords, u) then Intent(InfoRequest, Some(ModelStatus))
    else Intent(General, None)
  }

  // ----- the same decision as a table of rules -----

  /** A rule: when one of the phrases occurs, the value is chosen. */
  datatype Rule<T> = Rule(phrases: seq<string>, value: T)

  /** The value of the first rule that fires, or the default. */
  function FirstRule<T>(rules: seq<Rule<T>>, u: string, default: T): T
    decreases |rules|
  {
    if rules == [] then default
    else if AnyIn(rules[0].phrases, u) then rules[0].value
    else FirstRule(rules[1..], u, default)
  }

  /** The request types, highest priority first. */
  const TypeRules: seq<Rule<IntentType>> := [
    Rule(WritingKeywords, WritingAssistance), Rule(GenerationKeywords, GenerationRequest),
    Rule(StyleKeywords, StyleAnalysis), Rule(SuggestionKeywords, SuggestionRequest), Rule(InfoKeywords, InfoRequest)]

  const WritingRules: seq<Rule<Action>> := [
    Rule(["continue", "complete"], ContinueText), Rule(["character"], CharacterDevelopment),
    Rule(["plot"], PlotDevelopment), Rule(["dialogue"], DialogueWriting)]

  const GenerationRules: seq<Rule<Action>> := [
    Rule(["story", "tale"], StoryGeneration), Rule(["chapter"], ChapterGeneration), Rule(["paragraph"], ParagraphGeneration)]

  const SuggestionRules: seq<Rule<Action>> := [
    Rule(["character"], CharacterSuggestions), Rule(["plot"], PlotSuggestions), Rule(["title"], TitleSuggestions)]

  /** The action the tables give a request type. */
  function TableAction(kind: IntentType, u: string): Option<Action>
  {
    match kind
    case General => None
    case WritingAssistance => Some(FirstRule(WritingRules, u, GeneralWriting))
    case GenerationRequest => Some(FirstRule(GenerationRules, u, TextGeneration))
    case StyleAnalysis => Some(AnalyzeStyle)
    case SuggestionRequest => Some(FirstRule(SuggestionRules, u, GeneralSuggestions))
    case InfoRequest => Some(ModelStatus)
  }

  /** `AnyIn` on a list of one or two phrases. */
  lemma AnyInSmall(phrases: seq<string>, u: string)
    requires 1 <= |phrases| <= 2
    ensures AnyIn(phrases, u) <==> Contains(u, phrases[0]) || (|phrases| == 2 && Contains(u, phrases[1]))
  {
    if Contains(u, phrases[0]) {
      assert Contains(u, phrases[0]);
    } else if |phrases| == 2 && Contains(u, phrases[1]) {
      assert Contains(u, phrases[1]);
    }
  }

  lemma WritingActionIsFirstRule(u: string)
    ensures WritingAction(u) == FirstRule(WritingRules, u, GeneralWriting)
  {
    var r := WritingRules;
    AnyInSmall(r[0].phrases, u);
    AnyInSmall(r[1].phrases, u);
    AnyInSmall(r[2].phrases, u);
    AnyInSmall(r[3].phrases, u);
    assert r[1..][1..][1..][1..] == [];
  }

  lemma GenerationActionIsFirstRule(u: string)
    ensures GenerationAction(u) == FirstRule(GenerationRules, u, TextGeneration)
  {
    var r := GenerationRules;
    AnyInSmall(r[0].phrases, u);
    AnyInSmall(r[1].phrases, u);
    AnyInSmall(r[2].phrases, u);
    assert r[1..][1..][1..] == [];
  }

  lemma SuggestionActionIsFirstRule(u: string)
    ensures SuggestionAction(u) == FirstRule(SuggestionRules, u, GeneralSuggestions)
  {
    var r := SuggestionRules;
    AnyInSmall(r[0].phrases, u);
    AnyInSmall(r[1].phrases, u);
    AnyInSmall(r[2].phrases, u);
    assert r[1..][1..][1..] == [];
  }

  /** The request type is that of the first type rule that fires. */
  lemma KindIsFirstRule(input: string)
    ensures ParseIntent(input).kind == FirstRule(TypeRules, Lower(input), General)
  {
    var u := Lower(input);
    var t1 := TypeRules[1..];
    var t2 := t1[1..];
    var t3 := t2[1..];
    var t4 := t3[1..];
    assert t4[1..] == [];
    assert FirstRule(t4, u, General) == if AnyIn(InfoKeywords, u) then InfoRequest else General;
    assert FirstRule(t3, u, General) == if AnyIn(SuggestionKeywords, u) then SuggestionRequest else FirstRule(t4, u, General);
    assert FirstRule(t2, u, General) == if AnyIn(StyleKeywords, u) then StyleAnalysis else FirstRule(t3, u, General);
    assert FirstRule(t1, u, General) == if AnyIn(GenerationKeywords, u) then GenerationRequest else FirstRule(t2, u, General);
  }

  /** The action is the one the tables give the request type. */
  lemma ActionIsTableAction(input: string)
    ensures ParseIntent(input).action == TableAction(ParseIntent(input).kind, Lower(input))
  {
    var u := Lower(input);
    if AnyIn(WritingKeywords, u) {
      WritingActionIsFirstRule(u);
    } else if AnyIn(GenerationKeywords, u) {
      GenerationActionIsFirstRule(u);
    } else if !AnyIn(StyleKeywords, u) && AnyIn(SuggestionKeywords, u) {
      SuggestionActionIsFirstRule(u);
    }
  }

  /**
   * The intent is the first request type whose keywords occur in the lower-cased message,
   * with the action of the first action rule that fires, in the priority orders of the tables.
   */
  lemma ParseIntentIsFirstRule(input: string)
    ensures var u := Lower(input);
      var kind := FirstRule(TypeRules, u, General);
      ParseIntent(input) == Intent(kind, TableAction(kind, u))
  {
    KindIsFirstRule(input);
    ActionIsTableAction(input);
  }

  /** No rule fires exactly when the first-rule choice falls through to the default. */
  lemma {:induction false} FirstRuleNone<T>(rules: seq<Rule<T>>, u: string, default: T)
    requires forall i :: 0 <= i < |rules| ==> rules[i].value != default
    ensures FirstRule(rules, u, default) == default <==> forall i :: 0 <= i < |rules| ==> !AnyIn(rules[i].phrases, u)
    decreases |rules|
  {
    if rules != [] {
      FirstRuleNone(rules[1..], u, default);
      assert forall i :: 1 <= i < |rules| ==> rules[1..][i - 1] == rules[i];
    }
  }

  /**
   * The intent is the general one, with no action, exactly when none of the keywords of the
   * five request types occurs in the lower-cased message.
   */
  lemma GeneralIntent(input: string)
    ensures ParseIntent(input) == Intent(General, None) <==>
      forall i :: 0 <= i < |TypeRules| ==> !AnyIn(TypeRules[i].phrases, Lower(input))
    ensures ParseIntent(input).action.None? <==> ParseIntent(input).kind == General
  {
    ParseIntentIsFirstRule(input);
    FirstRuleNone(TypeRules, Lower(input), General);
  }

  /** A writing keyword wins over every other type's keywords. */
  lemma WritingFirst(input: string)
    requires AnyIn(WritingKeywords, Lower(input))
    ensures ParseIntent(input).kind == WritingAssistance
  {
  }

  /** A message that mentions continuing or completing always asks to continue a text. */
  lemma ContinueWins(input: string)
    requires Contains(Lower(input), "continue") || Contains(Lower(input), "complete")
    ensures ParseIntent(input) == Intent(WritingAssistance, Some(ContinueText))
  {
    var u := Lower(input);
    if Contains(u, "continue") {
      assert Contains(u, WritingKeywords[1]);
    } else {
      assert Contains(u, WritingKeywords[3]);
    }
  }
}
