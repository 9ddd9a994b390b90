# A verified model of the book-writing chatbot's core

The repository is a small book-writing assistant. A text processor reads `.txt` books, cleans
the text, splits it into sentences and keeps the good ones. An n-gram language model is trained
on those sentences and generates text, completes sentences and suggests next words. A chatbot
reads a user's message, decides what the user wants from keywords, pulls a quoted text or a
prompt out of the message, and answers through the model.

The model here covers three classes:
- `TextProcessorBuiltin` (`src/text_processor_builtin.py`): class `TextProcessor.Processor`,
  with the cleaning passes in `Cleaning`, the sentence splitter in `Segmenter` and the quality
  filter in `SentenceFilter`.
- `SimpleLanguageModelBuiltin` (`src/simple_model_builtin.py`): class `LanguageModel.Model`,
  with the tokenizer in `Tokenizer`, the n-gram tables in `NGram`, generation in `Generation`,
  the stable descending sort and sorted sets in `Ordering`, and the saved-file format in
  `Persistence`.
- `BookWritingChatbot` (`src/chatbot.py`): class `Chatbot.Chatbot`, with intent parsing in
  `Intents`, the regular-expression searches of the message in `Extraction`, and the
  thousands-separated numbers of the status reply in `Numerals`.

Python's built-in string operations that the code relies on are modelled in `PyStr`: `lower`,
`strip`, `split`, `title`, `capitalize`, `isupper`, `istitle`, `in` on strings and
`str.replace`. `Wrappers` holds `Option` and `Result`, and `Seqs` holds small sequence lemmas.

Randomness is a parameter. A `Sampler` holds the `random.choice` picks (`pick: nat -> nat`), the
`random.random()` draws (`draw: nat -> real`) and the temperature. Step `i` of a generation uses
`pick(i)` and `draw(i)`. `random.choice(list(S))` on a set is read as
`SortedSet(S)[pick % |S|]`; CPython leaves the order of a set unspecified anyway.

The model keeps Python's failure modes. `random.choice` on an empty vocabulary raises
`IndexError`; `generate_text` is modelled as returning `Result<string>`, and that error is its
`Err`. `load_model` can fail on an id that is not an integer, after three fields have already
been assigned. The model returns `false` in that case and states exactly which fields changed.

Where the code and its description disagree, the model follows the code:
- `_split_into_sentences_builtin` consumes the terminal punctuation of a sentence; the split
  pieces do not end in `.`, `!` or `?`.
- The decimal marker is inserted after the whole `\d+\.\d+` match, not in place of the period.
- `train` accumulates counts, sentence starters and n-grams over calls; it does not replace the
  previous state.
- Because `_preprocess_sentence` lower-cases every word, `words[0].istitle()` is never true:
  `train` never records a sentence starter (`LanguageModel.NoTitledStarters`).
- `load_books_from_directory` returns `[]` when the directory is missing and when it holds no
  `.txt` file; it returns the whole accumulated `book_data` otherwise.

## Model

| member | source | states |
|---|---|---|
| LanguageModel.Model.constructor | src/simple_model_builtin.py:26-44 | a fresh model has the given n-gram size and minimum count, empty tables, vocabulary and starters, and is untrained |
| LanguageModel.Model.Train | src/simple_model_builtin.py:46-101 | an empty list leaves every field unchanged; otherwise training succeeds iff no counted context sums to 0, and then the new state is `TrainSpec` of the old state and the sentences; on the `ZeroDivisionError` every field but `n_grams` is as counted, and each context is either as counted or normalised |
| LanguageModel.Model.ProcessSentences | src/simple_model_builtin.py:59-72 | the loop keeps the preprocessed sentences with at least `n` tokens, counts their words into the old counts and appends their title-cased first words to the starters |
| LanguageModel.Model.TrainSentence | src/simple_model_builtin.py:61-72 | one iteration of the preprocessing loop extends the kept sentences, the counts and the starters by exactly that sentence's contribution |
| LanguageModel.Model.BuildModel | src/simple_model_builtin.py:74-99 | succeeds iff no counted context sums to 0; then the vocabulary, id maps, normalised n-grams and the trained flag come out as `TrainSpec` says, and otherwise the counted fields are set and the model's trained flag is unchanged |
| LanguageModel.TrainPositive | src/simple_model_builtin.py:82-97 | a model whose weights are all positive, such as a fresh or trained one, trains without dividing by zero and keeps its weights positive |
| LanguageModel.TrainVocabulary | src/simple_model_builtin.py:74-80 | after training a word is in the vocabulary iff its accumulated count reaches `min_word_count`; `word_to_id` and `id_to_word` are inverse numberings of it; the model is trained, and its size, minimum count and starters are as before |
| LanguageModel.TrainCounts | src/simple_model_builtin.py:70-72 | the count of a word after training is its old count plus its occurrences in the kept sentences |
| LanguageModel.NoTitledStarters | src/simple_model_builtin.py:66-68 | no preprocessed word is title-cased, so training never records a sentence starter |
| LanguageModel.TrainKeepsShape | src/simple_model_builtin.py:83-91 | every n-gram key has `n - 1` vocabulary words and every next word is in the vocabulary, before and after training |
| LanguageModel.TrainSumsToOne | src/simple_model_builtin.py:93-97 | after training the probabilities of every non-empty context sum to 1 |
| LanguageModel.FreshTrainEstimate | src/simple_model_builtin.py:82-97 | trained from scratch, the probability of `w` after context `k` is the number of windows `k w` divided by the number of windows starting with `k`, over the vocabulary-filtered sentences |
| NGram.CountAllCounts | src/simple_model_builtin.py:83-91 | counting all sentences adds to each context's total the number of its windows and to each pair's weight the number of its occurrences |
| NGram.CountWindowsCounts | src/simple_model_builtin.py:88-91 | the window loop over one sentence adds the window counts of that sentence |
| NGram.IncrementWeight | src/simple_model_builtin.py:91 | `n_grams[k][w] += 1` raises the weight of `w` by one and leaves the other words' weights unchanged |
| NGram.IncrementWords | src/simple_model_builtin.py:91 | incrementing a word already present keeps the word order; a new word is appended at the end, as in a Python dict |
| NGram.IncrementUnique | src/simple_model_builtin.py:91 | incrementing keeps each word at most once in a distribution |
| NGram.NormalizeIsProbability | src/simple_model_builtin.py:94-97 | dividing by the total gives weights that sum to 1, each the old weight over the total |
| NGram.NormalizePositive | src/simple_model_builtin.py:94-97 | the total of positive weights is non-zero and the normalised weights stay positive |
| NGram.PositiveNormalizable | src/simple_model_builtin.py:93-97 | positive weights never have a zero total |
| NGram.NormalizeAllPositive | src/simple_model_builtin.py:93-97 | normalising a table of positive weights divides by no zero and keeps every weight positive |
| NGram.NormalizeAllSumsToOne | src/simple_model_builtin.py:94-97 | every non-empty distribution of the normalised table sums to 1 |
| NGram.FreshTrainProbability | src/simple_model_builtin.py:82-97 | on a fresh table, a normalised weight is pair count over context count, and every context that appears has a positive count |
| NGram.Threshold | src/simple_model_builtin.py:75-76 | a word is in the vocabulary iff its count reaches the minimum |
| NGram.ThresholdGrows | src/simple_model_builtin.py:70-76 | since counts only grow, a later training never drops a word from the vocabulary |
| NGram.IdsNamesInverse | src/simple_model_builtin.py:79-80 | on a sorted word list, `word_to_id` maps exactly its words, `id_to_word` exactly its indices, and the two maps are inverse |
| NGram.NumberingOrdered | src/simple_model_builtin.py:79 | ids follow the sorted order of the words |
| LanguageModel.CountTable | src/simple_model_builtin.py:83-91 | the n-gram counting loops compute `CountAll` of the table and the kept sentences |
| LanguageModel.CountSentenceWindows | src/simple_model_builtin.py:88-91 | the window loop of one filtered sentence computes `CountWindows` |
| LanguageModel.NormalizeTable | src/simple_model_builtin.py:93-97 | the normalising loops finish iff no non-empty context sums to 0, and then compute `NormalizeAll` of the counted table; when they stop on a zero total, every context is either as counted or normalised |
| LanguageModel.PreprocessSentence | src/simple_model_builtin.py:103-119 | the filtering loop over the `findall` tokens computes `Preprocess` |
| Tokenizer.FindTokens | src/simple_model_builtin.py:109 | every token `findall` returns is a non-empty run of word characters or a single one of `. ! ? ; ,` |
| Tokenizer.KeepTokenShape | src/simple_model_builtin.py:113-117 | a token is kept iff it is alphabetic and longer than one character, or one of `. ! ?`; what is kept is a lower-case word longer than one character or a terminal mark, and a token already of that form is kept as it is |
| Tokenizer.PreprocessShape | src/simple_model_builtin.py:103-119 | every preprocessed word is a lower-case word of two or more characters or one of `. ! ?` |
| Tokenizer.KeepTokensLength | src/simple_model_builtin.py:112-119 | preprocessing never produces more words than tokens |
| LanguageModel.ProcessedTokens | src/simple_model_builtin.py:59-64 | every kept sentence has at least `n` words, each a model token |
| LanguageModel.Model.GenerateText | src/simple_model_builtin.py:121-182 | untrained, the result is the basic-text output; trained, it is `Generate` of the model's table, vocabulary, n-gram size and starters |
| LanguageModel.GenerateFails | src/simple_model_builtin.py:144-169 | generation fails only on an empty vocabulary, with `IndexError`; with an empty vocabulary, no prompt and no starters it does fail |
| LanguageModel.GeneratedTokensShape | src/simple_model_builtin.py:136-182 | the generated tokens extend the seed by at most `max_length` words, none but possibly the last a sentence end, all in the vocabulary when the table is well shaped |
| Generation.SeedFromPrompt | src/simple_model_builtin.py:136-147 | a non-empty prompt seeds with its vocabulary-filtered tokens; an empty one with a single word: the lower-cased form of one of the sentence starters when there are any, which always succeeds, else a vocabulary word, which fails exactly when the vocabulary is empty |
| Generation.Context | src/simple_model_builtin.py:152-156 | the context is the last `n - 1` generated words, or all of them when there are fewer |
| Generation.Resolve | src/simple_model_builtin.py:159-165 | the distribution is the context's, else that of the context without its first word, else empty; a non-empty distribution for the full context is always used |
| Generation.RunStops | src/simple_model_builtin.py:151-179 | no generated word before the last is a sentence end; a run that stops early ends with one |
| Generation.RunLength | src/simple_model_builtin.py:151-175 | the run extends the seed by at most `max_length` words |
| Generation.RunInVocabulary | src/simple_model_builtin.py:158-175 | in a well-shaped table every generated word is in the vocabulary |
| Generation.RunFailsOnEmpty | src/simple_model_builtin.py:167-169 | the loop fails only when the vocabulary is empty, with `IndexError` |
| LanguageModel.GenerationLoop | src/simple_model_builtin.py:151-179 | the `for` loop with its `break` computes `Run` from step 1 |
| LanguageModel.NextWord | src/simple_model_builtin.py:152-173 | one iteration picks the next word exactly as the step function of the run |
| LanguageModel.SampleWord | src/simple_model_builtin.py:184-216 | `_sample_word_builtin` returns `SampleSpec` of the distribution, a word of the distribution |
| Generation.SampleGreedy | src/simple_model_builtin.py:189-193 | at temperature 0 the word is the first one with the largest probability |
| Generation.SampleNoFallback | src/simple_model_builtin.py:199-216 | with a draw of at most 1 and a non-zero total the cumulative search finds a word, so `words[-1]` is never the fallback |
| Generation.SumDivide | src/simple_model_builtin.py:204 | the divided probabilities sum to the old sum over the total |
| LanguageModel.CumulativeIndex | src/simple_model_builtin.py:207-216 | the cumulative loop returns the first index whose running sum reaches the draw, else the last index |
| LanguageModel.FormatOutput | src/simple_model_builtin.py:218-237 | the formatting loop computes `Format` |
| Generation.Format | src/simple_model_builtin.py:218-237 | no whitespace stands before `. ! ?` in the output, and no words give the empty string |
| Generation.PiecesContent | src/simple_model_builtin.py:224-230 | gluing marks to the previous piece keeps all characters: the pieces concatenate to the capitalised first word followed by the rest |
| Generation.PiecesCount | src/simple_model_builtin.py:226-230 | there is one piece for the first word and one for every later word that is not a sentence mark |
| Generation.DropSpaceBeforeContent | src/simple_model_builtin.py:236 | the substitution deletes only whitespace: the non-whitespace characters of its result are those of its input, in order |
| Generation.DropSpaceBeforeIdentity | src/simple_model_builtin.py:236 | where no whitespace stands before `. ! ?` the substitution returns its input unchanged |
| Generation.JoinContent | src/simple_model_builtin.py:233 | joining with single spaces adds only whitespace to the concatenated pieces |
| Generation.FormatContent | src/simple_model_builtin.py:218-237 | the output's non-whitespace characters are exactly those of the capitalised first word followed by the other words, in order |
| Generation.PiecesPlain | src/simple_model_builtin.py:224-230 | pieces built from tokens without whitespace hold none, and every piece after the first starts with a character other than `. ! ?` |
| Generation.JoinPlain | src/simple_model_builtin.py:233 | such pieces joined by single spaces have no whitespace before `. ! ?` |
| Generation.FormatJoined | src/simple_model_builtin.py:218-237 | on tokens without whitespace whose unglued later tokens do not start with `. ! ?`, the output is the pieces joined by single spaces, the substitution removing nothing |
| Generation.ModelTokensPlain | src/simple_model_builtin.py:103-120 | the preprocessed tokens (lower-case words of two or more letters, or one of `. ! ?`) meet that condition |
| LanguageModel.GenerateBasicText | src/simple_model_builtin.py:239-258 | the untrained output is the fixed prefix followed by `BasicWords` joined by spaces |
| LanguageModel.BasicWordsShape | src/simple_model_builtin.py:241-257 | the basic words are the prompt's whitespace-separated words (or, with no prompt, one sentence starter), then `min(max_length, 20)` fillers (none for a negative `max_length`), each `[WORD]` or a common word, then one of `. ! ?` |
| LanguageModel.Model.CompleteSentence | src/simple_model_builtin.py:260-262 | completing is generating from the partial sentence |
| LanguageModel.Model.SuggestNextWords | src/simple_model_builtin.py:264-295 | untrained, the five fixed placeholder suggestions; trained, `Suggestions` of the context |
| LanguageModel.SuggestionsCorrect | src/simple_model_builtin.py:278-295 | suggestions are drawn from the context's distribution (with one backoff), by decreasing probability, at most `k` of them, ties in dict order, and no left-out word is more likely than a listed one |
| Ordering.SortDescDescending | src/simple_model_builtin.py:294 | `sorted(..., reverse=True)` orders by decreasing key |
| Ordering.SortDescStable | src/simple_model_builtin.py:294 | the sort is stable: the elements with the same key keep their order |
| Ordering.SortDescMultiset | src/simple_model_builtin.py:294 | the sort is a permutation |
| LanguageModel.Model.SaveModel | src/simple_model_builtin.py:297-314 | the saved data decodes back to the current state |
| LanguageModel.Model.LoadModel | src/simple_model_builtin.py:316-342 | loading succeeds iff the data decodes, and then the state is the decoded one; on a bad id only the first three fields have been replaced |
| LanguageModel.Model.SaveThenLoad | src/simple_model_builtin.py:297-342 | saving and loading back leaves the state unchanged |
| Persistence.ParseShowInt | src/simple_model_builtin.py:306-325 | `int(str(i)) == i` for every integer id |
| Persistence.ParseShowIdPairs | src/simple_model_builtin.py:306-325 | the id map written with string keys reads back as the same map |
| Persistence.Decode | src/simple_model_builtin.py:316-336 | decoding succeeds iff every `id_to_word` key is an integer, and then every parsed key is numbered in the decoded `id_to_word` |
| Persistence.ParseIntSpaced | src/simple_model_builtin.py:325 | `int` accepts whitespace around the number |
| Persistence.ParseIntUnderscore | src/simple_model_builtin.py:325 | `int` accepts a single underscore between digits |
| Persistence.ParseIntRejects | src/simple_model_builtin.py:325 | `int` refuses doubled, leading and trailing underscores and a space after the sign |
| Persistence.ParseDigitString | src/simple_model_builtin.py:325 | a run of digits reads as its value |
| Persistence.ParseNegativeString | src/simple_model_builtin.py:325 | a minus sign and a run of digits read as the negated value |
| LanguageModel.Model.Stats | src/simple_model_builtin.py:344-352 | the statistics report the trained flag, the vocabulary size, the n-gram size, the number of contexts and the exact number of distinct sentence starters; `most_common(10)` gives ten entries, or all words when there are fewer, distinct words each with its count, by decreasing count |
| LanguageModel.MostCommon | src/simple_model_builtin.py:352 | `most_common(k)` lists `min(k, len)` distinct counted words with their counts, by decreasing count |
| LanguageModel.MostCommonTop | src/simple_model_builtin.py:352 | no word left out of `most_common(k)` is more frequent than a listed one |
| TextProcessor.Processor.constructor | src/text_processor_builtin.py:16-21 | a fresh processor holds the two lengths, no books, an empty vocabulary and empty counts |
| TextProcessor.Processor.LoadBooks | src/text_processor_builtin.py:23-55 | the accepted `.txt` files are appended to the books, their words counted and added to the vocabulary; the result is `[]` when there is no directory or no `.txt` file, else all books |
| TextProcessor.Processor.LoadNext | src/text_processor_builtin.py:45-54 | one iteration of the loading loop appends the file's book if it is accepted and updates counts and vocabulary accordingly |
| TextProcessor.TextFiles | src/text_processor_builtin.py:37 | only names ending in `.txt` are loaded |
| TextProcessor.Processor.LoadSingleBook | src/text_processor_builtin.py:57-98 | the result is `BookFor` the file; a rejected file changes nothing, an accepted one adds its filtered sentences' words |
| TextProcessor.BookForThresholds | src/text_processor_builtin.py:70-98 | a book is rejected iff its stripped content is shorter than 100 or fewer than 10 sentences pass the filter; an accepted book holds the cleaned text, the filtered sentences, the extracted title and matching counts |
| TextProcessor.AcceptedGood | src/text_processor_builtin.py:45-98 | every loaded book is a good book |
| TextProcessor.ExtractTitle | src/text_processor_builtin.py:100-119 | the title is `TitleOf` the file name and content, and it is title-cased |
| TextProcessor.TitleOfShape | src/text_processor_builtin.py:100-119 | the title is always title-cased; a file name that is not generic gives the title-cased file name, whatever the content |
| TextProcessor.FindTitleLine | src/text_processor_builtin.py:110-117 | the search loop returns the first line that, stripped, qualifies as a title |
| TextProcessor.FirstTitleLineIsFirst | src/text_processor_builtin.py:110-117 | a found title line is the stripped form of some line that qualifies, and no earlier line qualifies |
| TextProcessor.FirstTitleLineNone | src/text_processor_builtin.py:110-117 | nothing is found iff no line qualifies |
| TextProcessor.Stem | src/text_processor_builtin.py:103 | `splitext` leaves the name or cuts it at a period |
| TextProcessor.Unhyphen | src/text_processor_builtin.py:104 | every `_` and `-` becomes a space and nothing else changes |
| Cleaning.CleanTextShape | src/text_processor_builtin.py:121-138 | cleaned text holds only word characters, spaces and kept punctuation, has no outer whitespace, no space before `. ! ? ; : ,`, no mark directly before a capital, no `!!`, no `??` and no four periods |
| Cleaning.NormalizedShape | src/text_processor_builtin.py:124-136 | each rewrite establishes its property and the later rewrites keep it |
| Cleaning.TightenTight | src/text_processor_builtin.py:130 | after the rewrite no whitespace stands before `. ! ? ; : ,` |
| Cleaning.SpaceSentencesSpaced | src/text_processor_builtin.py:131 | after the rewrite no `. ! ?` is directly followed by a capital |
| Cleaning.SpaceSentencesTight | src/text_processor_builtin.py:131 | the sentence-spacing rewrite creates no whitespace before a mark |
| Cleaning.SqueezeBound | src/text_processor_builtin.py:134-136 | after squeezing, no run of the character is longer than the limit |
| Cleaning.SqueezeKeepsAbsent | src/text_processor_builtin.py:134-136 | squeezing one character creates no occurrence of a string without that character |
| Cleaning.SqueezeKeepsPairs | src/text_processor_builtin.py:134-136 | squeezing creates no neighbouring pair that was not already there, apart from the squeezed character twice |
| Segmenter.SplitIntoSentences | src/text_processor_builtin.py:140-160 | the loop returns `Sentences` of the text, each non-empty, stripped and free of markers |
| Segmenter.FragmentsClean | src/text_processor_builtin.py:152-158 | every kept piece is non-empty, stripped and holds no marker |
| Segmenter.MarkAbbrevUnmarked | src/text_processor_builtin.py:146 | deleting the abbreviation markers gives back the text |
| Segmenter.AbbrevMarked | src/text_processor_builtin.py:146 | a capital followed by one to three lower-case letters and a period gets a marker after the period |
| Segmenter.AbbrevRestored | src/text_processor_builtin.py:146-155 | replacing the marker with a period doubles the abbreviation's period: `Dr.` comes back as `Dr..` |
| Segmenter.MarkDecimalsUnmarked | src/text_processor_builtin.py:147 | deleting the decimal markers gives back the text |
| Segmenter.DecimalMarked | src/text_processor_builtin.py:147 | a whole `\d+\.\d+` gets the marker after its last digit |
| Segmenter.DecimalMatch | src/text_processor_builtin.py:147 | the match of `\d+\.\d+` takes both digit runs whole |
| Segmenter.AbbrevPeriodKept | src/text_processor_builtin.py:150 | the period of a marked abbreviation does not split the sentence |
| Segmenter.DecimalPeriodKept | src/text_processor_builtin.py:150 | the period inside a decimal number does not split the sentence |
| Segmenter.PeriodGlued | src/text_processor_builtin.py:150 | a period directly followed by a non-space character does not split |
| SentenceFilter.FilterSentences | src/text_processor_builtin.py:162-185 | the loop keeps exactly the sentences that pass `Keep`, in order |
| SentenceFilter.Passes | src/text_processor_builtin.py:165-183 | one sentence passes iff its length is within bounds, at most 30% of it is neither letter nor space, it is not a long upper-case header and it does not repeat many words |
| SentenceFilter.FilteredMembers | src/text_processor_builtin.py:162-185 | a sentence is kept iff it is in the input and passes |
| SentenceFilter.FilteredAppend | src/text_processor_builtin.py:162-185 | filtering works sentence by sentence: the filter of a concatenation is the concatenation of the filters |
| TextProcessor.Processor.UpdateVocabulary | src/text_processor_builtin.py:187-196 | every cleaned word longer than one character is counted and added to the vocabulary |
| TextProcessor.VocabularyWordsShape | src/text_processor_builtin.py:189-196 | every counted word is lower-case, made of word characters, and longer than one character |
| TextProcessor.CleanWordIdempotent | src/text_processor_builtin.py:193 | cleaning a word twice is cleaning it once |
| TextProcessor.Processor.GetTrainingData | src/text_processor_builtin.py:198-203 | the training data is all books' sentences in order |
| TextProcessor.Processor.GetStatistics | src/text_processor_builtin.py:205-222 | no statistics without books; otherwise the vocabulary size, a sentence total equal to the number of training sentences, and a word total equal to the number of whitespace-separated words in the books' contents |
| TextProcessor.StatisticsOf | src/text_processor_builtin.py:205-222 | statistics exist iff there are books; one summary per book with its title and counts; the word total is the sum of the word counts and the vocabulary size is passed through; when each book's counts are those of its sentence list and content, the sentence total is the length of the training data and the word total the number of words of all contents |
| TextProcessor.TotalIsAllWords | src/text_processor_builtin.py:211 | summing per-book word counts that agree with the contents counts the words of all contents |
| Chatbot.Chatbot.constructor | src/chatbot.py:20-39 | a fresh chatbot has an untrained model with the given n-gram size and an empty history |
| Chatbot.Chatbot.Chat | src/chatbot.py:91-115 | the reply is the response to the parsed intent, and the history gains exactly one turn with the message and the reply |
| Intents.ParseIntentIsFirstRule | src/chatbot.py:117-178 | the intent type is that of the first keyword list that occurs in the lower-cased message, and the action that of the first action rule that fires |
| Intents.GeneralIntent | src/chatbot.py:117-178 | the intent is general, with no action, iff no keyword of the five types occurs; only the general intent has no action |
| Intents.WritingFirst | src/chatbot.py:128-129 | a writing keyword always gives writing assistance |
| Intents.ContinueWins | src/chatbot.py:128-132 | `continue` or `complete` always asks to continue a text |
| Chatbot.Reply | src/chatbot.py:180-203 | an untrained model always gives the fixed untrained reply |
| Chatbot.ReplyFailsAsGeneration | src/chatbot.py:180-330 | a reply fails only when the model is trained and the generator fails; style and info replies never fail |
| Chatbot.ReplyFails | src/chatbot.py:180-330 | a reply fails only with `IndexError`, when the trained model's vocabulary is empty |
| Chatbot.ContinueQuoted | src/chatbot.py:205-213 | asking to continue a double-quoted text continues the stripped quote with 50 words |
| Chatbot.ContinueNothing | src/chatbot.py:205-216 | asking to continue with nothing to continue generates 30 words from no prompt |
| Chatbot.TitleSuggestion | src/chatbot.py:294-296 | a title suggestion succeeds iff generating from `the` does, and its text is title-cased |
| Chatbot.GeneralReplyPrompt | src/chatbot.py:318-330 | general chat generates 30 words from the first message word in the vocabulary, or from no prompt when there is none |
| Chatbot.GeneralPrompt | src/chatbot.py:174-203 | a trained model answers a message without any keyword by general chat |
| Chatbot.WordRunsAreWordTokens | src/chatbot.py:321 | `\b\w+\b` finds exactly the word-character runs of the message |
| Chatbot.FilterInFirst | src/chatbot.py:322-325 | the first relevant keyword is the first message word in the vocabulary |
| Extraction.FirstGroupIsFirst | src/chatbot.py:343-348 | the result is the stripped group of the first pattern that matches, or empty when none does |
| Extraction.FirstGroupStripped | src/chatbot.py:343-348 | the result has no outer whitespace |
| Extraction.DoubleQuotedWins | src/chatbot.py:332-366 | a double-quoted text is what both extractions return |
| Extraction.NothingToContinue | src/chatbot.py:332-348 | with no quote and no `continue this`, `complete this` or `finish this`, there is nothing to continue |
| Extraction.ContinueThisLine | src/chatbot.py:338-340 | without quotes, the text to continue never spans a line break |
| Extraction.PromptWithoutWriteAbout | src/chatbot.py:356-358 | the `write about` pattern never decides the prompt, since `about` matches at or before it |
| Extraction.QuotedMatchIsOpening | src/chatbot.py:336-337 | `"([^"]+)"` matches at `i` iff a quote opens there with a non-empty quote-free text and a closing quote, and the group is that text |
| Extraction.FindQuoteLeftmost | src/chatbot.py:336-337 | the search finds the leftmost opening, and none iff there is none |
| Extraction.FindPhraseLeftmost | src/chatbot.py:338-340 | the phrase search finds the leftmost occurrence followed by at least one more character, and none iff there is none |
| Extraction.PhraseGroupMatches | src/chatbot.py:338-340 | the group after a phrase is a match of the pattern's tail, up to a line break or the end; no other match's group starts later (the greedy `:?\s*`), and from its start it ends at the only place a match can end (the lazy `.+?`) |
| Extraction.PhraseGroupOneLine | src/chatbot.py:338-340 | the stripped group holds no line break |
| Chatbot.Chatbot.ClearHistory | src/chatbot.py:372-375 | the history is empty afterwards |
| Numerals.GroupedDigits | src/chatbot.py:308-310 | `f"{n:,}"` without its commas is `str(n)` |
| Numerals.DigitsValue | src/chatbot.py:267 | `str(n)` reads back as `n`, and only zero starts with `0` |

## Left out

- File and directory I/O, encodings, JSON, logging and timestamps are not modelled. A directory
  listing is a parameter of `LoadBooks`, and the saved file is the `ModelData` value.
- `LoadBooks`: the `try`/`except` around each file is not modelled, because every modelled step
  is total.
- `TextProcessor.Processor.LoadBooks`: Python returns the list `self.book_data` itself, so a
  later load also changes the list a caller already holds. The model returns the books as a
  value, and this aliasing is not modelled.
- `Chatbot.Chatbot.Chat`: the timestamp of each history entry is dropped. An exception in a
  reply is a turn whose reply is `None`; Python would leave that entry's `bot` at `None` and
  raise.
- `Chatbot.Chatbot.constructor`: the chatbot uses `TextProcessor` and `SimpleLanguageModel`,
  which are not part of this model. The builtin language model stands in for them, with its
  default minimum count of 2. Loading a model from `model_path` and the unused
  `writing_context` are left out.
- `train_from_books`, `get_next_word_suggestions`, `get_conversation_history`,
  `save_conversation`, `export_model_info` and `create_sample_books` are not modelled. They
  orchestrate the modelled operations, do file I/O or return a field.
- `get_statistics`: the two averages are floating-point; the model keeps the counts and the book
  summaries only.
- Floating point: probabilities and the sampler's draws are real numbers, without rounding. The
  filter's `0.3` and `0.6` thresholds are integer comparisons: `10 * c > 3 * n` and
  `5 * d < 3 * w`. `math.pow(p, 1 / temperature)` is a parameter of the sampler.
- Character classes are ASCII: `\w`, `\s`, `isupper`, `lower`, `title` and `istitle`. Unicode
  case mapping is left out.
- `Counter.most_common` breaks ties by insertion order. The model stores counts in a map and
  breaks ties by word order.
- `random.choice(list(set(...)))` takes lists in an order CPython leaves unspecified. The model
  uses the sorted order.
- `Chatbot.Reply`: every reply of one `chat` call draws from one sampler, which stands in for
  Python's global random state.
- `Intents.ParseIntentIsFirstRule`: the intent's `parameters` dictionary is always empty, so it
  is not modelled.
- `LanguageModel.Model.CompleteSentence`: the default `max_length` of 50 is not a default here;
  every caller passes a length.
- `Persistence.ParseInt`: `int` also accepts the decimal digits of other scripts, such as
  Arabic-Indic or full-width digits. The model accepts ASCII digits only, so such a key is a
  `ValueError` here.
- The size type `Persistence.Positive`: `n_gram_size` is at least 1 everywhere in the model,
  including a size read by `load_model`. Python accepts 0 or a negative size, and its windows
  and context slices then use negative indices.
- `LanguageModel.Model.Train`: when a context's total is 0, which contexts were normalised
  before the `ZeroDivisionError` depends on dictionary order. The model leaves that order open:
  each context is either as counted or normalised.
