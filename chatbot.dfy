/**
 * `BookWritingChatbot`: the reply to a message is chosen by the message's intent and made
 * from the language model's generated text, statistics and suggestions; `chat` records every
 * exchange in the conversation history.
 */
module Chatbot {
  import opened PyStr
  import opened Wrappers
  import opened Tokenizer
  import opened NGram
  import opened Generation
  import opened Persistence
  import opened LanguageModel
  import opened Numerals
  import opened Intents
  import opened Extraction

  /** The reply of a model that has not been trained. */
  const UntrainedReply: string :=
    "I haven't been trained on any books yet. Please provide .txt book files for me to learn from before I can assist with writing!"

  /** Text generation as the replies use it: `generate_text(prompt, max_length)`. */
  type Generator = (string, int) -> Result<string>

  /** A trained model's `generate_text`, with its random choices drawn from `s`. */
  function GenOf(m: Model, s: Sampler): Generator
    reads m
  {
    var t, V, n, starters := m.nGrams, m.vocabulary, m.nGramSize, m.sentenceStarters;
    (prompt: string, maxLength: int) => Generate(t, V, n, starters, prompt, maxLength, s)
  }

  /** A heading before generated text; an error raised by the generation propagates. */
  function Headed(heading: string, r: Result<string>): Result<string>
  {
    match r
    case Ok(text) => Ok(heading + text)
    case Err(e) => Err(e)
  }

  /** The words of `most_common` items. */
  function ItemWords(items: seq<(string, int)>): seq<string>
  {
    seq(|items|, i requires 0 <= i < |items| => items[i].0)
  }

  /** The words of suggestion entries. */
  function EntryWords(es: seq<Entry>): seq<string>
  {
    seq(|es|, i requires 0 <= i < |es| => es[i].word)
  }

  /** `re.findall(r'\b\w+\b', s)`: the maximal runs of word characters, left to right. */
  function WordRuns(s: string): (r: seq<string>)
    ensures forall i :: 0 <= i < |r| ==> r[i] != [] && forall j :: 0 <= j < |r[i]| ==> IsWordChar(r[i][j])
    decreases |s|
  {
    if s == [] then []
    else if IsWordChar(s[0]) then
      var k := WordRun(s);
      [s[..k]] + WordRuns(s[k..])
    else WordRuns(s[1..])
  }

  /** The tokens that are words, not punctuation marks. */
  function WordTokens(ts: seq<string>): seq<string>
    decreases |ts|
  {
    if ts == [] then []
    else (if ts[0] != [] && IsWordChar(ts[0][0]) then [ts[0]] else []) + WordTokens(ts[1..])
  }

  /** The word runs are exactly the word tokens the model's tokenizer finds, in the same order. */
  lemma {:induction false} WordRunsAreWordTokens(s: string)
    ensures WordRuns(s) == WordTokens(FindTokens(s))
    decreases |s|
  {
    if s != [] {
      if IsWordChar(s[0]) {
        var k := WordRun(s);
        WordRunsAreWordTokens(s[k..]);
        assert FindTokens(s) == [s[..k]] + FindTokens(s[k..]);
        assert ([s[..k]] + FindTokens(s[k..]))[1..] == FindTokens(s[k..]);
      } else if IsMark(s[0]) {
        WordRunsAreWordTokens(s[1..]);
        assert FindTokens(s) == [[s[0]]] + FindTokens(s[1..]);
        assert ([[s[0]]] + FindTokens(s[1..]))[1..] == FindTokens(s[1..]);
      } else {
        WordRunsAreWordTokens(s[1..]);
      }
    }
  }

  /** `_handle_writing_assistance`. */
  function WritingReply(m: Model, input: string, action: Option<Action>, gen: Generator): Result<string>
    reads m
  {
    if action == Some(ContinueText) then
      var text := ExtractTextToContinue(input);
      if text != "" then Headed("Here's a continuation:\n\n", gen(text, 50))
      else Headed("I'll help you start writing:\n\n", gen("", 30))
    else if action == Some(CharacterDevelopment) then Headed("Here's some character inspiration:\n\n", gen("character", 40))
    else if action == Some(PlotDevelopment) then Headed("Here's a plot idea:\n\n", gen("story", 50))
    else if action == Some(DialogueWriting) then Headed("Here's some dialogue inspiration:\n\n", gen("said", 30))
    else Headed("Here's some writing to inspire you:\n\n", gen("", 40))
  }

  /** `_handle_text_generation`: the extracted prompt, with a length and heading per action. */
  function GenerationReply(m: Model, input: string, action: Option<Action>, gen: Generator): Result<string>
    reads m
  {
    var prompt := ExtractPrompt(input);
    if action == Some(StoryGeneration) then Headed("Here's a story beginning:\n\n", gen(prompt, 80))
    else if action == Some(ChapterGeneration) then Headed("Here's a chapter outline:\n\n", gen(prompt, 100))
    else if action == Some(ParagraphGeneration) then Headed("Here's a paragraph:\n\n", gen(prompt, 50))
    else Headed("Here's some generated text:\n\n", gen(prompt, 60))
  }

  /** `_handle_style_analysis`. */
  function StyleReply(m: Model): string
    reads m
  {
    var st := m.Stats();
    if st.mostCommonWords != [] then
      "Based on my training, I've learned from " + Digits(st.vocabularySize) + " unique words. " +
      "The most common words in my training data are: " + Join(PyTake(ItemWords(st.mostCommonWords), 5), ", ") + ". " +
      "This suggests the writing style tends to be descriptive and narrative."
    else "I can analyze writing style once I have more training data."
  }

  /** `_handle_suggestions`. */
  function SuggestionReply(m: Model, action: Option<Action>, gen: Generator): Result<string>
    reads m
  {
    if action == Some(CharacterSuggestions) then
      var es := Suggestions(m.nGrams, m.vocabulary, m.nGramSize, "character", 3);
      if es != [] then Ok("Character ideas based on my training: " + Join(EntryWords(es), ", "))
      else Ok("Create unique characters with distinct personalities, backgrounds, and motivations.")
    else if action == Some(PlotSuggestions) then
      var es := Suggestions(m.nGrams, m.vocabulary, m.nGramSize, "story", 3);
      if es != [] then Ok("Plot ideas based on my training: " + Join(EntryWords(es), ", "))
      else Ok("Consider conflicts, character growth, and unexpected twists in your plot.")
    else if action == Some(TitleSuggestions) then
      match gen("the", 5)
      case Ok(text) => Ok("Title suggestion: " + TitleCase(text))
      case Err(e) => Err(e)
    else Headed("Writing suggestion based on my training:\n\n", gen("", 20))
  }

  /** `_handle_info_request`: counts of words and patterns with thousands separators. */
  function InfoReply(m: Model): string
    reads m
  {
    var st := m.Stats();
    "Model Status:\n" +
    "- Trained: " + (if st.isTrained then "Yes" else "No") + "\n" +
    "- Vocabulary size: " + Grouped(st.vocabularySize) + " words\n" +
    "- N-gram size: " + Decimal(st.nGramSize) + "\n" +
    "- Total patterns learned: " + Grouped(st.totalNGrams) + "\n" +
    (if st.mostCommonWords != [] then "- Top words: " + Join(ItemWords(PyTake(st.mostCommonWords, 5)), ", ") else "")
  }

  /** `_handle_general_chat`: the first word of the message the model knows is the prompt. */
  function GeneralReply(m: Model, input: string, gen: Generator): Result<string>
    reads m
  {
    var keywords := FilterIn(WordRuns(Lower(input)), m.vocabulary);
    if keywords != [] then Headed("Based on your message, here's something from my training:\n\n", gen(keywords[0], 30))
    else Headed("Here's something I learned from the books:\n\n", gen("", 30))
  }

  /**
   * `_generate_response`: an untrained model always gives the untrained reply; otherwise the
   * request type picks the handler.
   */
  function Reply(m: Model, input: string, intent: Intent, gen: Generator): (r: Result<string>)
    reads m
    ensures !m.isTrained ==> r == Ok(UntrainedReply)
  {
    if !m.isTrained then Ok(UntrainedReply)
    else match intent.kind
      case WritingAssistance => WritingReply(m, input, intent.action, gen)
      case GenerationRequest => GenerationReply(m, input, intent.action, gen)
      case StyleAnalysis => Ok(StyleReply(m))
      case SuggestionRequest => SuggestionReply(m, intent.action, gen)
      case InfoRequest => Ok(InfoReply(m))
      case General => GeneralReply(m, input, gen)
  }

  /** Every failure of `gen` is error `e`, and happens only where `c` holds. */
  ghost predicate FailsOnlyWith(gen: Generator, c: bool, e: string)
  {
    forall prompt, maxLength :: gen(prompt, maxLength).Err? ==> c && gen(prompt, maxLength).error == e
  }

  /** A trained model's generation fails only on an empty vocabulary, with `random.choice`'s error. */
  lemma GenOfFails(m: Model, s: Sampler)
    ensures FailsOnlyWith(GenOf(m, s), m.vocabulary == {}, EmptyChoice)
  {
    var gen := GenOf(m, s);
    forall prompt, maxLength ensures gen(prompt, maxLength).Err? ==> m.vocabulary == {} && gen(prompt, maxLength).error == EmptyChoice {
      GenerateFails(m.nGrams, m.vocabulary, m.nGramSize, m.sentenceStarters, prompt, maxLength, s);
    }
  }

  /** A heading does not change how generation fails. */
  lemma HeadedFails(heading: string, r: Result<string>, c: bool, e: string)
    requires r.Err? ==> c && r.error == e
    ensures Headed(heading, r).Err? ==> c && Headed(heading, r).error == e
  {
  }

  lemma WritingFails(m: Model, input: string, action: Option<Action>, gen: Generator, c: bool, e: string)
    requires FailsOnlyWith(gen, c, e)
    ensures var r := WritingReply(m, input, action, gen); r.Err? ==> c && r.error == e
  {
    if action == Some(ContinueText) {
      var text := ExtractTextToContinue(input);
      if text != "" {
        HeadedFails("Here's a continuation:\n\n", gen(text, 50), c, e);
      } else {
        HeadedFails("I'll help you start writing:\n\n", gen("", 30), c, e);
      }
    } else if action == Some(CharacterDevelopment) {
      HeadedFails("Here's some character inspiration:\n\n", gen("character", 40), c, e);
    } else if action == Some(PlotDevelopment) {
      HeadedFails("Here's a plot idea:\n\n", gen("story", 50), c, e);
    } else if action == Some(DialogueWriting) {
      HeadedFails("Here's some dialogue inspiration:\n\n", gen("said", 30), c, e);
    } else {
      HeadedFails("Here's some writing to inspire you:\n\n", gen("", 40), c, e);
    }
  }

  lemma GenerationFails(m: Model, input: string, action: Option<Action>, gen: Generator, c: bool, e: string)
    requires FailsOnlyWith(gen, c, e)
    ensures var r := GenerationReply(m, input, action, gen); r.Err? ==> c && r.error == e
  {
    var prompt := ExtractPrompt(input);
    if action == Some(StoryGeneration) {
      HeadedFails("Here's a story beginning:\n\n", gen(prompt, 80), c, e);
    } else if action == Some(ChapterGeneration) {
      HeadedFails("Here's a chapter outline:\n\n", gen(prompt, 100), c, e);
    } else if action == Some(ParagraphGeneration) {
      HeadedFails("Here's a paragraph:\n\n", gen(prompt, 50), c, e);
    } else {
      HeadedFails("Here's some generated text:\n\n", gen(prompt, 60), c, e);
    }
  }

  lemma SuggestionFails(m: Model, action: Option<Action>, gen: Generator, c: bool, e: string)
    requires FailsOnlyWith(gen, c, e)
    ensures var r := SuggestionReply(m, action, gen); r.Err? ==> c && r.error == e
  {
    if action == Some(TitleSuggestions) {
      assert gen("the", 5).Err? ==> c && gen("the", 5).error == e;
    } else if action != Some(CharacterSuggestions) && action != Some(PlotSuggestions) {
      HeadedFails("Writing suggestion based on my training:\n\n", gen("", 20), c, e);
    }
  }

  lemma GeneralFails(m: Model, input: string, gen: Generator, c: bool, e: string)
    requires FailsOnlyWith(gen, c, e)
    ensures var r := GeneralReply(m, input, gen); r.Err? ==> c && r.error == e
  {
    var keywords := FilterIn(WordRuns(Lower(input)), m.vocabulary);
    if keywords != [] {
      HeadedFails("Based on your message, here's something from my training:\n\n", gen(keywords[0], 30), c, e);
    } else {
      HeadedFails("Here's something I learned from the books:\n\n", gen("", 30), c, e);
    }
  }

  /** A reply fails only as generation does; style and status replies, and a model that is not trained, never fail. */
  lemma ReplyFailsAsGeneration(m: Model, input: string, intent: Intent, gen: Generator, c: bool, e: string)
    requires FailsOnlyWith(gen, c, e)
    ensures var r := Reply(m, input, intent, gen);
      r.Err? ==> m.isTrained && c && r.error == e
    ensures intent.kind == StyleAnalysis || intent.kind == InfoRequest ==> Reply(m, input, intent, gen).Ok?
  {
    if m.isTrained {
      match intent.kind
      case WritingAssistance => WritingFails(m, input, intent.action, gen, c, e);
      case GenerationRequest => GenerationFails(m, input, intent.action, gen, c, e);
      case SuggestionRequest => SuggestionFails(m, intent.action, gen, c, e);
      case General => GeneralFails(m, input, gen, c, e);
      case StyleAnalysis =>
      case InfoRequest =>
    }
  }

  /**
   * The chatbot's reply fails only when a trained model's generation chooses from an empty
   * vocabulary, with that `IndexError`.
   */
  lemma ReplyFails(m: Model, input: string, intent: Intent, s: Sampler)
    ensures var r := Reply(m, input, intent, GenOf(m, s));
      r.Err? ==> m.isTrained && m.vocabulary == {} && r.error == EmptyChoice
  {
    GenOfFails(m, s);
    ReplyFailsAsGeneration(m, input, intent, GenOf(m, s), m.vocabulary == {}, EmptyChoice);
  }

  /** The first element `FilterIn` keeps is the first element of the list in the set. */
  lemma {:induction false} FilterInFirst(ws: seq<string>, V: set<string>, k: nat)
    requires k < |ws| && ws[k] in V
    requires forall j :: 0 <= j < k ==> ws[j] !in V
    ensures FilterIn(ws, V) != [] && FilterIn(ws, V)[0] == ws[k]
    decreases k
  {
    if k > 0 {
      FilterInFirst(ws[1..], V, k - 1);
    }
  }

  /** `FilterIn` keeps nothing exactly when no element is in the set. */
  lemma {:induction false} FilterInEmpty(ws: seq<string>, V: set<string>)
    ensures FilterIn(ws, V) == [] <==> forall j :: 0 <= j < |ws| ==> ws[j] !in V
    decreases |ws|
  {
    if ws != [] {
      FilterInEmpty(ws[1..], V);
      assert forall j :: 1 <= j < |ws| ==> ws[j] == ws[1..][j - 1];
    }
  }

  /**
   * The general reply is made from the first of the message's words the model knows, or from
   * no prompt when it knows none of them.
   */
  lemma GeneralReplyPrompt(m: Model, input: string, gen: Generator)
    ensures var ws := WordRuns(Lower(input));
      forall k :: (0 <= k < |ws| && ws[k] in m.vocabulary && forall j :: 0 <= j < k ==> ws[j] !in m.vocabulary) ==>
        GeneralReply(m, input, gen) == Headed("Based on your message, here's something from my training:\n\n", gen(ws[k], 30))
    ensures var ws := WordRuns(Lower(input));
      (forall j :: 0 <= j < |ws| ==> ws[j] !in m.vocabulary) ==>
        GeneralReply(m, input, gen) == Headed("Here's something I learned from the books:\n\n", gen("", 30))
  {
    var ws := WordRuns(Lower(input));
    FilterInEmpty(ws, m.vocabulary);
    forall k | 0 <= k < |ws| && ws[k] in m.vocabulary && forall j :: 0 <= j < k ==> ws[j] !in m.vocabulary
      ensures FilterIn(ws, m.vocabulary) != [] && FilterIn(ws, m.vocabulary)[0] == ws[k]
    {
      FilterInFirst(ws, m.vocabulary, k);
    }
  }

  /** A message with none of the request keywords gets the general reply from a trained model. */
  lemma GeneralPrompt(m: Model, input: string, gen: Generator)
    requires m.isTrained
    requires forall i :: 0 <= i < |TypeRules| ==> !AnyIn(TypeRules[i].phrases, Lower(input))
    ensures Reply(m, input, ParseIntent(input), gen) == GeneralReply(m, input, gen)
  {
    GeneralIntent(input);
  }

  /**
   * Asked to continue a text given in double quotes, a trained model continues the stripped
   * quoted text for up to 50 tokens.
   */
  lemma ContinueQuoted(m: Model, input: string, i: int, g: string, gen: Generator)
    requires m.isTrained && Contains(Lower(input), "continue")
    requires QuotedMatch(input, '"', i, g) && Strip(g) != ""
    requires forall j :: 0 <= j < i ==> !QuoteOpensAt(input, '"', j)
    ensures Reply(m, input, ParseIntent(input), gen) == Headed("Here's a continuation:\n\n", gen(Strip(g), 50))
  {
    ContinueWins(input);
    DoubleQuotedWins(input, i, g);
  }

  /**
   * Asked to continue with no quote and no "continue this", "complete this" or "finish this"
   * in the message, a trained model starts a text of its own of up to 30 tokens.
   */
  lemma ContinueNothing(m: Model, input: string, gen: Generator)
    requires m.isTrained && Contains(Lower(input), "continue")
    requires '"' !in input && '\'' !in input
    requires !Contains(Lower(input), "continue this") && !Contains(Lower(input), "complete this") &&
             !Contains(Lower(input), "finish this")
    ensures Reply(m, input, ParseIntent(input), gen) == Headed("I'll help you start writing:\n\n", gen("", 30))
  {
    ContinueWins(input);
    NothingToContinue(input);
  }

  /** A title suggestion succeeds exactly when generation does, and is then title-cased after its heading. */
  lemma TitleSuggestion(m: Model, input: string, gen: Generator)
    requires m.isTrained
    ensures var r := Reply(m, input, Intent(SuggestionRequest, Some(TitleSuggestions)), gen);
      (r.Ok? <==> gen("the", 5).Ok?) &&
      (r.Ok? ==> exists t :: r.value == "Title suggestion: " + t && IsTitleCased(t) && TitleCase(t) == t)
  {
    var g := gen("the", 5);
    if g.Ok? {
      TitleCaseIsTitleCased(g.value);
      var t := TitleCase(g.value);
      assert Reply(m, input, Intent(SuggestionRequest, Some(TitleSuggestions)), gen).value == "Title suggestion: " + t;
    }
  }

  /** One exchange of the conversation: the message and the reply, `None` until there is one. */
  datatype Turn = Turn(user: string, bot: Option<string>)

  class Chatbot {
    var model: Model
    var history: seq<Turn>

    /** A chatbot over a fresh, untrained model with an empty conversation history. */
    constructor (n: Positive)
      ensures fresh(model) && history == []
      ensures model.State() == Snapshot(n, 2, map[], map[], {}, map[], map[], [], false)
    {
      model := new Model(n, 2);
      history := [];
    }

    /**
     * `chat`: the reply to the message's parsed intent; the exchange is appended to the
     * history, its reply left `None` when the reply raises.
     */
    method Chat(input: string, s: Sampler) returns (r: Result<string>)
      modifies this`history
      ensures r == Reply(model, input, ParseIntent(input), GenOf(model, s))
      ensures history == old(history) + [Turn(input, if r.Ok? then Some(r.value) else None)]
    {
      history := history + [Turn(input, None)];
      var intent := ParseIntent(input);
      r := Reply(model, input, intent, GenOf(model, s));
      if r.Ok? {
        history := history[|history| - 1 := Turn(input, Some(r.value))];
      }
    }

    /** `clear_conversation_history`. */
    method ClearHistory()
      modifies this`history
      ensures history == []
    {
      history := [];
    }
  }
}
