/**
 * `TextProcessorBuiltin`: turns book files, given here as (file name, content) pairs,
 * into filtered sentences, keeps the accepted books, and counts the vocabulary.
 */
module TextProcessor {
  import opened PyStr
  import opened Wrappers
  import opened Persistence
  import opened NGram
  import opened Cleaning
  import opened Segmenter
  import opened SentenceFilter
  import opened Seqs

  /** The record `_load_single_book` builds for an accepted book. */
  datatype Book = Book(title: string, filename: string, content: string, sentences: seq<string>,
                       wordCount: nat, sentenceCount: nat)

  /** One entry of the `books` list of `get_statistics`. */
  datatype BookSummary = BookSummary(title: string, sentences: nat, words: nat)

  /** The totals `get_statistics` reports. */
  datatype Statistics = Statistics(numBooks: nat, totalSentences: nat, totalWords: nat, vocabularySize: nat,
                                   books: seq<BookSummary>)

  /** A book whose stripped content is shorter than this is skipped. */
  const MinContentLength: nat := 100
  /** A book with fewer good sentences than this is skipped. */
  const MinGoodSentences: nat := 10
  /** File names that say nothing about the book. */
  const GenericTitles: seq<string> := ["book", "text", "novel", "story"]
  /** How many leading lines of the content are searched for a title. */
  const TitleSearchLines: nat := 10

  // ----- words of the vocabulary -----

  /** `re.sub(r'[^\w]', '', w)`: only the word characters are kept. */
  function CleanWord(w: string): (r: string)
    ensures |r| <= |w|
    ensures forall i :: 0 <= i < |r| ==> IsWordChar(r[i])
    decreases |w|
  {
    if w == [] then [] else (if IsWordChar(w[0]) then [w[0]] else []) + CleanWord(w[1..])
  }

  /** A word made of word characters only is left as it is. */
  lemma {:induction false} CleanWordKeeps(w: string)
    requires forall i :: 0 <= i < |w| ==> IsWordChar(w[i])
    ensures CleanWord(w) == w
    decreases |w|
  {
    if w != [] {
      CleanWordKeeps(w[1..]);
    }
  }

  /** Cleaning twice is cleaning once. */
  lemma CleanWordIdempotent(w: string)
    ensures CleanWord(CleanWord(w)) == CleanWord(w)
  {
    CleanWordKeeps(CleanWord(w));
  }

  /** The cleaned words of a sentence `_update_vocabulary` keeps: those longer than one character. */
  function KeptWords(words: seq<string>): seq<string>
    decreases |words|
  {
    if words == [] then []
    else
      var w := CleanWord(words[|words| - 1]);
      KeptWords(words[..|words| - 1]) + (if |w| > 1 then [w] else [])
  }

  /** The words `_update_vocabulary` counts for one sentence. */
  function SentenceWords(sentence: string): seq<string>
  {
    KeptWords(SplitWords(Lower(sentence)))
  }

  /** The words `_update_vocabulary` counts, sentence by sentence, in order. */
  function VocabularyWords(sentences: seq<string>): seq<string>
    decreases |sentences|
  {
    if sentences == [] then []
    else VocabularyWords(sentences[..|sentences| - 1]) + SentenceWords(sentences[|sentences| - 1])
  }

  /** A vocabulary word: longer than one character, word characters only, no capital. */
  predicate IsVocabularyWord(w: string)
  {
    |w| > 1 && forall i :: 0 <= i < |w| ==> IsWordChar(w[i]) && !IsUpperChar(w[i])
  }

  /** Cleaning a lower-cased word leaves no capital. */
  lemma {:induction false} CleanWordLower(w: string)
    requires forall i :: 0 <= i < |w| ==> !IsUpperChar(w[i])
    ensures forall i :: 0 <= i < |CleanWord(w)| ==> !IsUpperChar(CleanWord(w)[i])
    decreases |w|
  {
    if w != [] {
      CleanWordLower(w[1..]);
    }
  }

  lemma {:induction false} KeptWordsShape(words: seq<string>)
    requires forall i, j :: 0 <= i < |words| && 0 <= j < |words[i]| ==> !IsUpperChar(words[i][j])
    ensures forall i :: 0 <= i < |KeptWords(words)| ==> IsVocabularyWord(KeptWords(words)[i])
    decreases |words|
  {
    if words != [] {
      KeptWordsShape(words[..|words| - 1]);
      CleanWordLower(words[|words| - 1]);
    }
  }

  /** The words of a lower-cased string have no capital. */
  lemma {:induction false} SplitWordsLower(s: string)
    requires forall i :: 0 <= i < |s| ==> !IsUpperChar(s[i])
    ensures forall i, j :: 0 <= i < |SplitWords(s)| && 0 <= j < |SplitWords(s)[i]| ==> !IsUpperChar(SplitWords(s)[i][j])
    decreases |s|
  {
    if s != [] {
      if IsSpace(s[0]) {
        SplitWordsLower(s[1..]);
      } else {
        var k := NonSpaceRun(s);
        SplitWordsLower(s[k..]);
      }
    }
  }

  /** Every word `_update_vocabulary` counts is a vocabulary word. */
  lemma {:induction false} VocabularyWordsShape(sentences: seq<string>)
    ensures forall i :: 0 <= i < |VocabularyWords(sentences)| ==> IsVocabularyWord(VocabularyWords(sentences)[i])
    decreases |sentences|
  {
    if sentences != [] {
      VocabularyWordsShape(sentences[..|sentences| - 1]);
      var s := sentences[|sentences| - 1];
      LowerNoUpper(s);
      SplitWordsLower(Lower(s));
      KeptWordsShape(SplitWords(Lower(s)));
    }
  }

  /** Counting one more word bumps that word's count. */
  lemma CountWordsSnoc(c: map<string, int>, ws: seq<string>, w: string)
    ensures var r := CountWords(c, ws); CountWords(c, ws + [w]) == r[w := (if w in r then r[w] else 0) + 1]
  {
    assert (ws + [w])[..|ws|] == ws;
  }

  /** Counting two lists one after the other is counting their concatenation. */
  lemma {:induction false} CountWordsAppend(c: map<string, int>, a: seq<string>, b: seq<string>)
    ensures CountWords(CountWords(c, a), b) == CountWords(c, a + b)
    decreases |b|
  {
    if b != [] {
      var b0, w := b[..|b| - 1], b[|b| - 1];
      assert b == b0 + [w];
      CountWordsSnoc(CountWords(c, a), b0, w);
      CountWordsAppend(c, a, b0);
      CountWordsSnoc(c, a + b0, w);
      assert (a + b0) + [w] == a + b;
    } else {
      assert a + b == a;
    }
  }

  /** One more word of a sentence adds its cleaned form when that is longer than one character. */
  lemma KeptWordsStep(words: seq<string>, j: nat)
    requires j < |words|
    ensures var w := CleanWord(words[j]);
      KeptWords(words[..j + 1]) == KeptWords(words[..j]) + (if |w| > 1 then [w] else [])
  {
    assert words[..j + 1][..j] == words[..j];
  }

  /** One more word of a sentence: its cleaned form is counted and added when longer than one character. */
  lemma AddedWord(c0: map<string, int>, v0: set<string>, words: seq<string>, j: nat)
    requires j < |words|
    ensures |CleanWord(words[j])| <= 1 ==> KeptWords(words[..j + 1]) == KeptWords(words[..j])
    ensures var w := CleanWord(words[j]);
      var r := CountWords(c0, KeptWords(words[..j]));
      |w| > 1 ==> CountWords(c0, KeptWords(words[..j + 1])) == r[w := (if w in r then r[w] else 0) + 1]
    ensures var w := CleanWord(words[j]);
      |w| > 1 ==> v0 + Members(KeptWords(words[..j + 1])) == v0 + Members(KeptWords(words[..j])) + {w}
  {
    var w := CleanWord(words[j]);
    KeptWordsStep(words, j);
    if |w| > 1 {
      MembersAppend(KeptWords(words[..j]), w);
      CountWordsSnoc(c0, KeptWords(words[..j]), w);
    } else {
      assert KeptWords(words[..j]) + [] == KeptWords(words[..j]);
    }
  }

  lemma MembersConcat<T>(a: seq<T>, b: seq<T>)
    ensures Members(a + b) == Members(a) + Members(b)
  {
    var ab := a + b;
    forall x | x in Members(ab) ensures x in Members(a) + Members(b) {
      var i :| 0 <= i < |ab| && ab[i] == x;
      if i < |a| { assert a[i] == x; } else { assert b[i - |a|] == x; }
    }
    forall x | x in Members(a) + Members(b) ensures x in Members(ab) {
      if x in Members(a) {
        var i :| 0 <= i < |a| && a[i] == x;
        assert ab[i] == x;
      } else {
        var i :| 0 <= i < |b| && b[i] == x;
        assert ab[|a| + i] == x;
      }
    }
  }

  // ----- titles -----

  /** Index of the last `c` in `s`, or -1. */
  function LastIndex(s: string, c: char): (k: int)
    ensures -1 <= k < |s|
    ensures k >= 0 ==> s[k] == c
    ensures forall i :: k < i < |s| ==> s[i] != c
    decreases |s|
  {
    if s == [] then -1 else if s[|s| - 1] == c then |s| - 1 else LastIndex(s[..|s| - 1], c)
  }

  /**
   * `os.path.splitext(p)[0]`: the path without its extension, the extension starting at
   * the last period after the last `/`; periods that open the file name do not start one.
   */
  function Stem(p: string): (r: string)
    ensures r == p || (|r| < |p| && r == p[..|r|] && p[|r|] == '.')
  {
    var dot := LastIndex(p, '.');
    var sep := LastIndex(p, '/');
    if dot > sep && exists i :: sep < i < dot && p[i] != '.' then p[..dot] else p
  }

  /** `re.sub(r'[_\-]', ' ', s)`. */
  function Unhyphen(s: string): (r: string)
    ensures |r| == |s|
    ensures forall i :: 0 <= i < |s| ==> r[i] == if s[i] == '_' || s[i] == '-' then ' ' else s[i]
    decreases |s|
  {
    if s == [] then [] else [if s[0] == '_' || s[0] == '-' then ' ' else s[0]] + Unhyphen(s[1..])
  }

  /** The title the file name gives: stem, underscores and hyphens to spaces, whitespace collapsed and stripped. */
  function FileTitle(filename: string): string
  {
    Strip(CollapseSpaces(Unhyphen(Stem(filename))))
  }

  /** Too short or generic to be a title. */
  predicate IsGenericTitle(t: string)
  {
    |t| < 3 || Lower(t) in GenericTitles
  }

  /** `re.match(r'^[A-Z][^.!?]*$', line)` on a stripped line: a capital first and no `. ! ?`. */
  predicate LooksLikeTitle(line: string)
  {
    line != [] && IsUpperChar(line[0]) && forall i :: 0 <= i < |line| ==> !IsTerminalChar(line[i])
  }

  /** A stripped content line that `_extract_title` takes as the title. */
  predicate IsTitleLine(line: string)
  {
    3 < |line| < 100 && !StartsWith(Lower(line), "chapter") && (LooksLikeTitle(line) || IsUpperStr(line))
  }

  /** The first line that, stripped, is a title line. */
  function FirstTitleLine(lines: seq<string>): Option<string>
    decreases |lines|
  {
    if lines == [] then None
    else if IsTitleLine(Strip(lines[0])) then Some(Strip(lines[0]))
    else FirstTitleLine(lines[1..])
  }

  /** The lines `_extract_title` searches. */
  function TitleLines(content: string): seq<string>
  {
    PyTake(SplitOn(content, '\n'), TitleSearchLines)
  }

  /** The title before title-casing: the file name's, unless that is generic and a content line is a title. */
  function RawTitle(filename: string, content: string): string
  {
    var t := FileTitle(filename);
    if !IsGenericTitle(t) then t
    else match FirstTitleLine(TitleLines(content)) case Some(line) => line case None => t
  }

  /** What `_extract_title` returns. */
  function TitleOf(filename: string, content: string): string
  {
    TitleCase(RawTitle(filename, content))
  }

  /** `FirstTitleLine` finds nothing exactly when no line is a title line. */
  lemma FirstTitleLineNone(lines: seq<string>)
    ensures FirstTitleLine(lines).None? <==> forall j :: 0 <= j < |lines| ==> !IsTitleLine(Strip(lines[j]))
  {
    if FirstTitleLine(lines).None? {
      NoneHasNoTitle(lines);
    } else {
      SomeHasTitle(lines);
    }
  }

  lemma {:induction false} NoneHasNoTitle(lines: seq<string>)
    requires FirstTitleLine(lines).None?
    ensures forall j :: 0 <= j < |lines| ==> !IsTitleLine(Strip(lines[j]))
    decreases |lines|
  {
    if lines != [] {
      var tail := lines[1..];
      NoneHasNoTitle(tail);
      forall j | 1 <= j < |lines| ensures lines[j] == tail[j - 1] { }
    }
  }

  lemma {:induction false} SomeHasTitle(lines: seq<string>)
    requires FirstTitleLine(lines).Some?
    ensures exists j :: 0 <= j < |lines| && IsTitleLine(Strip(lines[j]))
    decreases |lines|
  {
    if !IsTitleLine(Strip(lines[0])) {
      var tail := lines[1..];
      SomeHasTitle(tail);
      var j :| 0 <= j < |tail| && IsTitleLine(Strip(tail[j]));
      assert lines[j + 1] == tail[j];
    }
  }

  /** What `FirstTitleLine` finds is a title line, and no line before it is one. */
  lemma {:induction false} FirstTitleLineIsFirst(lines: seq<string>)
    ensures var r := FirstTitleLine(lines);
      r.Some? ==> exists i :: 0 <= i < |lines| && r.value == Strip(lines[i]) && IsTitleLine(r.value) &&
                    forall j :: 0 <= j < i ==> !IsTitleLine(Strip(lines[j]))
    decreases |lines|
  {
    var r := FirstTitleLine(lines);
    if lines != [] && r.Some? {
      if IsTitleLine(Strip(lines[0])) {
        assert r.value == Strip(lines[0]);
      } else {
        var tail := lines[1..];
        FirstTitleLineIsFirst(tail);
        assert r == FirstTitleLine(tail);
        var i :| 0 <= i < |tail| && r.value == Strip(tail[i]) && IsTitleLine(r.value) &&
                 forall j :: 0 <= j < i ==> !IsTitleLine(Strip(tail[j]));
        assert r.value == Strip(lines[i + 1]);
        forall j | 0 <= j < i + 1 ensures !IsTitleLine(Strip(lines[j])) {
          if j > 0 { assert lines[j] == tail[j - 1]; }
        }
      }
    }
  }

  /** The title is always title-cased; a file name that is not generic always gives it. */
  lemma TitleOfShape(filename: string, content: string)
    ensures IsTitleCased(TitleOf(filename, content))
    ensures !IsGenericTitle(FileTitle(filename)) ==> TitleOf(filename, content) == TitleCase(FileTitle(filename))
  {
    TitleCaseIsTitleCased(RawTitle(filename, content));
  }

  /** The search loop of `_extract_title`: the first title line, if any. */
  method FindTitleLine(lines: seq<string>) returns (found: Option<string>)
    ensures found == FirstTitleLine(lines)
  {
    var i := 0;
    while i < |lines|
      invariant 0 <= i <= |lines|
      invariant FirstTitleLine(lines[i..]) == FirstTitleLine(lines)
    {
      var line := Strip(lines[i]);
      if 3 < |line| < 100 && !StartsWith(Lower(line), "chapter") {
        if LooksLikeTitle(line) || IsUpperStr(line) {
          return Some(line);
        }
      }
      assert lines[i..][1..] == lines[i + 1..];
      i := i + 1;
    }
    return None;
  }

  /** `_extract_title`. */
  method ExtractTitle(filename: string, content: string) returns (title: string)
    ensures title == TitleOf(filename, content)
    ensures IsTitleCased(title)
  {
    var raw := FileTitle(filename);
    if |raw| < 3 || Lower(raw) in GenericTitles {
      var found := FindTitleLine(TitleLines(content));
      if found.Some? {
        raw := found.value;
      }
    }
    assert raw == RawTitle(filename, content);
    TitleCaseIsTitleCased(raw);
    title := TitleCase(raw);
  }

  // ----- books -----

  /** What `_load_single_book` returns for a file, the vocabulary update aside. */
  function BookFor(filename: string, content: string, minLength: int, maxLength: int): Option<Book>
  {
    if |Strip(content)| < MinContentLength then None
    else
      var cleaned := CleanText(content);
      var filtered := Filtered(Sentences(cleaned), minLength, maxLength);
      if |filtered| < MinGoodSentences then None
      else Some(Book(TitleOf(filename, content), filename, cleaned, filtered, |SplitWords(cleaned)|, |filtered|))
  }

  /** An accepted book: enough sentences, each of which passes the filter, and the counts agree with the lists. */
  predicate GoodBook(b: Book, minLength: int, maxLength: int)
  {
    b.sentenceCount == |b.sentences| >= MinGoodSentences &&
    b.wordCount == |SplitWords(b.content)| &&
    forall j :: 0 <= j < |b.sentences| ==> Keep(b.sentences[j], minLength, maxLength)
  }

  /** The acceptance thresholds of `_load_single_book`, and what an accepted book holds. */
  lemma BookForThresholds(filename: string, content: string, minLength: int, maxLength: int)
    ensures var b := BookFor(filename, content, minLength, maxLength);
      var filtered := Filtered(Sentences(CleanText(content)), minLength, maxLength);
      (b.None? <==> |Strip(content)| < MinContentLength || |filtered| < MinGoodSentences) &&
      (b.Some? ==> b.value.sentences == filtered && b.value.content == CleanText(content) &&
                   b.value.title == TitleOf(filename, content) && GoodBook(b.value, minLength, maxLength))
  {
    FilteredPass(Sentences(CleanText(content)), minLength, maxLength);
  }

  /** The names of a directory listing `load_books_from_directory` loads: those ending in `.txt`. */
  function TextFiles(listing: seq<(string, string)>): (r: seq<(string, string)>)
    ensures forall i :: 0 <= i < |r| ==> EndsWithTxt(r[i].0)
    decreases |listing|
  {
    if listing == [] then []
    else
      var f := listing[|listing| - 1];
      TextFiles(listing[..|listing| - 1]) + (if EndsWithTxt(f.0) then [f] else [])
  }

  predicate EndsWithTxt(name: string)
  {
    |name| >= 4 && name[|name| - 4..] == ".txt"
  }

  /** The books accepted from a list of files, in order. */
  function Accepted(files: seq<(string, string)>, minLength: int, maxLength: int): seq<Book>
    decreases |files|
  {
    if files == [] then []
    else
      var f := files[|files| - 1];
      var b := BookFor(f.0, f.1, minLength, maxLength);
      Accepted(files[..|files| - 1], minLength, maxLength) + (if b.Some? then [b.value] else [])
  }

  lemma AcceptedStep(done: seq<(string, string)>, file: (string, string), minLength: int, maxLength: int)
    ensures var b := BookFor(file.0, file.1, minLength, maxLength);
      Accepted(done + [file], minLength, maxLength) == Accepted(done, minLength, maxLength) + (if b.Some? then [b.value] else [])
  {
    assert (done + [file])[..|done|] == done;
  }

  lemma BookWordsStep(books: seq<Book>, b: Book)
    ensures BookWords(books + [b]) == BookWords(books) + VocabularyWords(b.sentences)
  {
    assert (books + [b])[..|books|] == books;
  }

  /** Counting one more book's words after those of the books before is counting all of them. */
  lemma AddedBook(counts0: map<string, int>, vocabulary0: set<string>, added: seq<Book>, b: Book)
    ensures CountWords(CountWords(counts0, BookWords(added)), VocabularyWords(b.sentences)) == CountWords(counts0, BookWords(added + [b]))
    ensures vocabulary0 + Members(BookWords(added)) + Members(VocabularyWords(b.sentences)) == vocabulary0 + Members(BookWords(added + [b]))
  {
    var words := VocabularyWords(b.sentences);
    CountWordsAppend(counts0, BookWords(added), words);
    MembersConcat(BookWords(added), words);
    BookWordsStep(added, b);
  }

  /** Every accepted book is a good book. */
  lemma {:induction false} AcceptedGood(files: seq<(string, string)>, minLength: int, maxLength: int)
    ensures forall i :: 0 <= i < |Accepted(files, minLength, maxLength)| ==> GoodBook(Accepted(files, minLength, maxLength)[i], minLength, maxLength)
    decreases |files|
  {
    if files != [] {
      AcceptedGood(files[..|files| - 1], minLength, maxLength);
      var f := files[|files| - 1];
      BookForThresholds(f.0, f.1, minLength, maxLength);
    }
  }

  /** `get_training_data`: the sentences of all books, book after book. */
  function AllSentences(books: seq<Book>): seq<string>
    decreases |books|
  {
    if books == [] then [] else AllSentences(books[..|books| - 1]) + books[|books| - 1].sentences
  }

  /** The sum of the `sentence_count` fields. */
  function TotalSentences(books: seq<Book>): nat
    decreases |books|
  {
    if books == [] then 0 else TotalSentences(books[..|books| - 1]) + books[|books| - 1].sentenceCount
  }

  /** The sum of the `word_count` fields. */
  function TotalWords(books: seq<Book>): nat
    decreases |books|
  {
    if books == [] then 0 else TotalWords(books[..|books| - 1]) + books[|books| - 1].wordCount
  }

  /** The words of every accepted book's sentences, which `_update_vocabulary` counts. */
  function BookWords(books: seq<Book>): seq<string>
    decreases |books|
  {
    if books == [] then [] else BookWords(books[..|books| - 1]) + VocabularyWords(books[|books| - 1].sentences)
  }

  /** When every book's count is the length of its list, the total is the length of the training data. */
  lemma {:induction false} TotalIsTrainingData(books: seq<Book>)
    ensures (forall i :: 0 <= i < |books| ==> books[i].sentenceCount == |books[i].sentences|) ==>
      TotalSentences(books) == |AllSentences(books)|
    decreases |books|
  {
    if books != [] {
      TotalIsTrainingData(books[..|books| - 1]);
    }
  }

  /** The whitespace-separated words of every book's cleaned content, book after book. */
  function AllWords(books: seq<Book>): seq<string>
    decreases |books|
  {
    if books == [] then [] else AllWords(books[..|books| - 1]) + SplitWords(books[|books| - 1].content)
  }

  /** When every book's word count is that of its content, the word total counts the words of all contents. */
  lemma {:induction false} TotalIsAllWords(books: seq<Book>)
    ensures (forall i :: 0 <= i < |books| ==> books[i].wordCount == |SplitWords(books[i].content)|) ==>
      TotalWords(books) == |AllWords(books)|
    decreases |books|
  {
    if books != [] {
      TotalIsAllWords(books[..|books| - 1]);
    }
  }

  /** The data sets the books' list to, the averages of `get_statistics` aside; nothing for no books. */
  function StatisticsOf(books: seq<Book>, vocabularySize: nat): (r: Option<Statistics>)
    ensures r.None? <==> books == []
    ensures r.Some? ==> r.value.numBooks == |books| == |r.value.books|
    ensures r.Some? ==> forall i :: 0 <= i < |books| ==>
      r.value.books[i] == BookSummary(books[i].title, books[i].sentenceCount, books[i].wordCount)
    ensures r.Some? && (forall i :: 0 <= i < |books| ==> books[i].sentenceCount == |books[i].sentences|) ==>
      r.value.totalSentences == |AllSentences(books)|
    ensures r.Some? ==> r.value.totalWords == TotalWords(books) && r.value.vocabularySize == vocabularySize
    ensures r.Some? && (forall i :: 0 <= i < |books| ==> books[i].wordCount == |SplitWords(books[i].content)|) ==>
      r.value.totalWords == |AllWords(books)|
  {
    TotalIsTrainingData(books);
    TotalIsAllWords(books);
    if books == [] then None
    else Some(Statistics(|books|, TotalSentences(books), TotalWords(books), vocabularySize,
      seq(|books|, i requires 0 <= i < |books| => BookSummary(books[i].title, books[i].sentenceCount, books[i].wordCount))))
  }

  class Processor {
    var minSentenceLength: int
    var maxSentenceLength: int
    var books: seq<Book>
    var vocabulary: set<string>
    var wordCounts: map<string, int>

    /** The vocabulary is the set of counted words, and every stored book is a good book. */
    predicate Valid()
      reads this
    {
      wordCounts.Keys == vocabulary &&
      forall i :: 0 <= i < |books| ==> GoodBook(books[i], minSentenceLength, maxSentenceLength)
    }

    constructor (minLength: int, maxLength: int)
      ensures minSentenceLength == minLength && maxSentenceLength == maxLength
      ensures books == [] && vocabulary == {} && wordCounts == map[]
      ensures Valid()
    {
      minSentenceLength := minLength;
      maxSentenceLength := maxLength;
      books := [];
      vocabulary := {};
      wordCounts := map[];
    }

    /** The inner loop of `_update_vocabulary`, over the words of one sentence. */
    method AddWords(words: seq<string>)
      modifies this`vocabulary, this`wordCounts
      ensures wordCounts == CountWords(old(wordCounts), KeptWords(words))
      ensures vocabulary == old(vocabulary) + Members(KeptWords(words))
    {
      var counts, vocab := wordCounts, vocabulary;
      ghost var counts0, vocab0 := wordCounts, vocabulary;
      var j := 0;
      while j < |words|
        invariant 0 <= j <= |words|
        invariant counts == CountWords(counts0, KeptWords(words[..j]))
        invariant vocab == vocab0 + Members(KeptWords(words[..j]))
      {
        var word := CleanWord(words[j]);
        AddedWord(counts0, vocab0, words, j);
        if word != [] && |word| > 1 {
          vocab := vocab + {word};
          counts := counts[word := (if word in counts then counts[word] else 0) + 1];
        }
        j := j + 1;
      }
      TakeAll(words);
      wordCounts, vocabulary := counts, vocab;
    }

    /** `_update_vocabulary`. */
    method UpdateVocabulary(sentences: seq<string>)
      modifies this`vocabulary, this`wordCounts
      ensures wordCounts == CountWords(old(wordCounts), VocabularyWords(sentences))
      ensures vocabulary == old(vocabulary) + Members(VocabularyWords(sentences))
    {
      var i := 0;
      while i < |sentences|
        invariant 0 <= i <= |sentences|
        invariant wordCounts == CountWords(old(wordCounts), VocabularyWords(sentences[..i]))
        invariant vocabulary == old(vocabulary) + Members(VocabularyWords(sentences[..i]))
      {
        var done := VocabularyWords(sentences[..i]);
        var words := SplitWords(Lower(sentences[i]));
        AddWords(words);
        assert sentences[..i + 1][..i] == sentences[..i];
        CountWordsAppend(old(wordCounts), done, KeptWords(words));
        MembersConcat(done, KeptWords(words));
        i := i + 1;
      }
      TakeAll(sentences);
    }

    /** `_load_single_book` on a file already read. */
    method LoadSingleBook(filename: string, content: string) returns (book: Option<Book>)
      modifies this`vocabulary, this`wordCounts
      ensures book == BookFor(filename, content, minSentenceLength, maxSentenceLength)
      ensures book.None? ==> wordCounts == old(wordCounts) && vocabulary == old(vocabulary)
      ensures book.Some? ==> wordCounts == CountWords(old(wordCounts), VocabularyWords(book.value.sentences))
      ensures book.Some? ==> vocabulary == old(vocabulary) + Members(VocabularyWords(book.value.sentences))
    {
      if |Strip(content)| < MinContentLength {
        return None;
      }
      var title := ExtractTitle(filename, content);
      var cleaned := CleanText(content);
      var sentences := SplitIntoSentences(cleaned);
      var filtered := FilterSentences(sentences, minSentenceLength, maxSentenceLength);
      if |filtered| < MinGoodSentences {
        return None;
      }
      UpdateVocabulary(filtered);
      return Some(Book(title, filename, cleaned, filtered, |SplitWords(cleaned)|, |filtered|));
    }

    /**
     * `load_books_from_directory` on a listing of (file name, content) pairs, `None` when the
     * directory does not exist. Both early exits answer `[]`, even when books were loaded before.
     */
    method LoadBooks(listing: Option<seq<(string, string)>>) returns (loaded: seq<Book>)
      modifies this`books, this`vocabulary, this`wordCounts
      ensures old(Valid()) ==> Valid()
      ensures var files := if listing.Some? then TextFiles(listing.value) else [];
        var added := Accepted(files, minSentenceLength, maxSentenceLength);
        books == old(books) + added &&
        wordCounts == CountWords(old(wordCounts), BookWords(added)) &&
        vocabulary == old(vocabulary) + Members(BookWords(added)) &&
        loaded == if files == [] then [] else books
    {
      if listing.None? {
        return [];
      }
      var files := TextFiles(listing.value);
      if files == [] {
        assert BookWords([]) == [];
        return [];
      }
      ghost var added: seq<Book> := [];
      var i := 0;
      while i < |files|
        invariant 0 <= i <= |files|
        invariant added == Accepted(files[..i], minSentenceLength, maxSentenceLength)
        invariant books == old(books) + added
        invariant wordCounts == CountWords(old(wordCounts), BookWords(added))
        invariant vocabulary == old(vocabulary) + Members(BookWords(added))
      {
        TakeNext(files, i);
        added := LoadNext(files[i], files[..i], added, old(books), old(wordCounts), old(vocabulary));
        i := i + 1;
      }
      TakeAll(files);
      AcceptedGood(files, minSentenceLength, maxSentenceLength);
      CountWordsKeys(old(wordCounts), BookWords(added));
      return books;
    }

    /** One pass of the file loop of `load_books_from_directory`: load the file, keep the book if accepted. */
    method LoadNext(file: (string, string), ghost done: seq<(string, string)>, ghost added: seq<Book>,
                    ghost books0: seq<Book>, ghost counts0: map<string, int>, ghost vocabulary0: set<string>)
      returns (ghost added2: seq<Book>)
      requires added == Accepted(done, minSentenceLength, maxSentenceLength)
      requires books == books0 + added
      requires wordCounts == CountWords(counts0, BookWords(added))
      requires vocabulary == vocabulary0 + Members(BookWords(added))
      modifies this`books, this`vocabulary, this`wordCounts
      ensures added2 == Accepted(done + [file], minSentenceLength, maxSentenceLength)
      ensures books == books0 + added2
      ensures wordCounts == CountWords(counts0, BookWords(added2))
      ensures vocabulary == vocabulary0 + Members(BookWords(added2))
    {
      var book := LoadSingleBook(file.0, file.1);
      AcceptedStep(done, file, minSentenceLength, maxSentenceLength);
      if book.Some? {
        AddedBook(counts0, vocabulary0, added, book.value);
        AppendAssoc(books0, added, book.value);
        added2 := added + [book.value];
        books := books + [book.value];
      } else {
        added2 := added;
      }
    }

    /** `get_training_data`. */
    method GetTrainingData() returns (all: seq<string>)
      ensures all == AllSentences(books)
    {
      all := [];
      var i := 0;
      while i < |books|
        invariant 0 <= i <= |books|
        invariant all == AllSentences(books[..i])
      {
        assert books[..i + 1][..i] == books[..i];
        all := all + books[i].sentences;
        i := i + 1;
      }
      TakeAll(books);
    }

    /** `get_statistics`: its sentence total agrees with the training data, its word total with the books' contents. */
    function GetStatistics(): (r: Option<Statistics>)
      reads this
      ensures r.None? <==> books == []
      ensures r.Some? ==> r.value.vocabularySize == |vocabulary|
      ensures r.Some? && Valid() ==> r.value.totalSentences == |AllSentences(books)|
      ensures r.Some? && Valid() ==> r.value.totalWords == |AllWords(books)|
    {
      TotalIsTrainingData(books);
      TotalIsAllWords(books);
      StatisticsOf(books, |vocabulary|)
    }
  }
}
