/**
 * The verse-reference engine: parse a citation such as "2 Corinthians 5:17"
 * or "Psalm 23:1-6" into its parts, resolve the full book name to a book id
 * through the book table, and format a VerseId (`ID.chapter.verse`) or a
 * PassageId (`ID.chapter.start-ID.chapter.end`). Each thrown error of the
 * source is a `ParseError` constructor.
 */
module VerseReference {
  import opened Wrappers
  import opened JsText

  datatype ParseError =
    | MissingBookNumberSeparator
    | InvalidBookNumber(received: string)
    | BookNameNotFound
    | MissingBookChapterSeparator
    | InvalidColonCount
    | InvalidChapter
    | InvalidVerse
    | UnknownBookName(bookName: string)

  /** The message of the `Error` the source throws. */
  function Message(e: ParseError): string {
    match e
    case MissingBookNumberSeparator => "Book number must be a single digit followed by a space"
    case InvalidBookNumber(c) => "Invalid book number \"" + c + "\""
    case BookNameNotFound => "Failed to parse book name out of the verse reference"
    case MissingBookChapterSeparator => "Must include a single space to separate the book name from the chapter"
    case InvalidColonCount => "Must include a single colon character to separate the chapter from the verse"
    case InvalidChapter => "Chapter must be a number"
    case InvalidVerse => "Verse must be a number"
    case UnknownBookName(name) => "Failed to look up book name for \"" + name + "\""
  }

  /** The object `parseVerseReferenceIntoParts` returns; `None` is an undefined `bookNumber`. */
  datatype ParsedReference = ParsedReference(
    fullBookName: string,
    bookName: string,
    bookNumber: Option<int>,
    chapter: int,
    verseNumberStart: int,
    verseNumberEnd: int,
    verseCount: int)

  /** One record of the book table. */
  datatype Book = Book(id: string, name: string)

  // ---------------------------------------------------------------- book number

  /** The array literal whose keys the book-number check consults. */
  const BookNumberList: seq<string> := ["1", "2", "3"]

  /**
   * `Object.keys(list)` of an array: one key per element, each a string of
   * digits that `Number` reads back as the element's index, so no two agree.
   */
  function ArrayKeys<T>(list: seq<T>): (keys: seq<string>)
    ensures |keys| == |list|
    ensures forall i :: 0 <= i < |keys| ==> |keys[i]| > 0 && AllDigits(keys[i]) && NumberOf(keys[i]) == Some(i)
    ensures forall i, j :: 0 <= i < j < |keys| ==> keys[i] != keys[j]
  {
    IndexKeysRoundTrip(|list|);
    seq(|list|, i => IntToString(i))
  }

  /** Every index below `n` is rendered as digits that read back as the index. */
  lemma {:induction false} IndexKeysRoundTrip(n: nat)
    ensures forall i :: 0 <= i < n ==> AllDigits(IntToString(i)) && NumberOf(IntToString(i)) == Some(i)
  {
    forall i | 0 <= i < n
      ensures AllDigits(IntToString(i)) && NumberOf(IntToString(i)) == Some(i)
    {
      IntToStringRoundTrip(i);
    }
  }

  /** The accepted book-number characters are "0", "1" and "2", not "1" to "3". */
  lemma {:induction false} BookNumberKeys()
    ensures ArrayKeys(BookNumberList) == ["0", "1", "2"]
  {
    var keys := ArrayKeys(BookNumberList);
    assert keys[0] == "0" && keys[1] == "1" && keys[2] == "2";
  }

  /** `Number.isInteger(Number(first character))` holds for a digit, for whitespace and for the empty input. */
  lemma {:induction false} IntegerFirstChar(s: string)
    ensures IsIntegerNumber(CharAt(s, 0)) <==> |s| == 0 || IsDigit(s[0]) || IsJsWhitespace(s[0])
  {
    if |s| > 0 {
      var t := [s[0]];
      if !IsJsWhitespace(s[0]) {
        TrimNoSpace(t);
      }
    }
  }

  /**
   * Lines 17-34: the optional book-number prefix. On success, the book
   * number (if any) and the text the book name is looked for in.
   */
  function StripBookNumber(s: string): Result<(Option<int>, string), ParseError> {
    var first := CharAt(s, 0);
    if !IsIntegerNumber(first) then Success((None, s))
    else if CharAt(s, 1) != " " then Failure(MissingBookNumberSeparator)
    else if first in ArrayKeys(BookNumberList) then Success((Some(NumberOf(first).value), Trim(s[1..])))
    else Failure(InvalidBookNumber(first))
  }

  // ---------------------------------------------------------------- book name

  function FirstLetterFrom(t: string, i: nat): (p: int)
    requires i <= |t|
    decreases |t| - i
    ensures p == -1 || (i <= p < |t| && IsAsciiLetter(t[p]))
    ensures forall k :: i <= k < |t| && (p == -1 || k < p) ==> !IsAsciiLetter(t[k])
  {
    if i == |t| then -1 else if IsAsciiLetter(t[i]) then i else FirstLetterFrom(t, i + 1)
  }

  function LetterRunLength(t: string, p: nat): (n: nat)
    requires p <= |t|
    decreases |t| - p
    ensures p + n <= |t|
    ensures forall k :: p <= k < p + n ==> IsAsciiLetter(t[k])
    ensures p + n == |t| || !IsAsciiLetter(t[p + n])
  {
    if p < |t| && IsAsciiLetter(t[p]) then 1 + LetterRunLength(t, p + 1) else 0
  }

  /** `b` is the first maximal run of ASCII letters in `t`, found at `p`. */
  ghost predicate IsFirstLetterRunAt(t: string, b: string, p: int) {
    && 0 <= p && p + |b| <= |t| && |b| > 0
    && t[p..p + |b|] == b
    && (forall k :: p <= k < p + |b| ==> IsAsciiLetter(t[k]))
    && (forall k :: 0 <= k < p ==> !IsAsciiLetter(t[k]))
    && (p + |b| == |t| || !IsAsciiLetter(t[p + |b|]))
  }

  /** `t.match(/[a-zA-Z]+/)`: the first maximal run of ASCII letters, or no match. */
  function MatchLetters(t: string): (r: Option<string>)
    ensures r.None? <==> forall k :: 0 <= k < |t| ==> !IsAsciiLetter(t[k])
    ensures r.Some? ==> IsFirstLetterRunAt(t, r.value, FirstLetterFrom(t, 0))
    ensures r.Some? ==> IndexOf(t, r.value) == FirstLetterFrom(t, 0)
  {
    var p := FirstLetterFrom(t, 0);
    if p < 0 then None
    else
      var b := t[p..p + LetterRunLength(t, p)];
      assert OccursAt(t, b, p);
      assert forall k :: 0 <= k < p ==> !OccursAt(t, b, k) by {
        forall k | 0 <= k < p ensures !OccursAt(t, b, k) {
          assert k + |b| <= |t| ==> t[k..k + |b|][0] == t[k];
        }
      }
      Some(b)
  }

  /** The name looked up: "<n> <name>" when the book number is truthy (not 0, not undefined). */
  function FullBookName(bookNumber: Option<int>, bookName: string): string {
    if bookNumber.Some? && bookNumber.value != 0 then IntToString(bookNumber.value) + " " + bookName
    else bookName
  }

  // ---------------------------------------------------------------- chapter and verses

  /** Lines 57-77: the colon check, then the chapter, then the verse or verse range. */
  function ParseChapterAndVerses(cv: string): (r: Result<(int, int, int), ParseError>)
    ensures r.Failure? ==> r.error.InvalidColonCount? || r.error.InvalidChapter? || r.error.InvalidVerse?
    ensures (r.Failure? && r.error.InvalidColonCount?) <==> Count(cv, ':') != 1
  {
    if Count(cv, ':') != 1 then Failure(InvalidColonCount)
    else
      SplitCharCount(cv, ':');
      var pieces := Split(cv, ":");
      ParseNumbers(pieces[0], VerseBounds(pieces[1]))
  }

  /** Lines 64-66: the two ends of "a-b", or the one verse twice. */
  function VerseBounds(verseResult: string): (string, string) {
    if Includes(verseResult, "-") then
      SplitHasSecond(verseResult, "-");
      (Split(verseResult, "-")[0], Split(verseResult, "-")[1])
    else (verseResult, verseResult)
  }

  /** Lines 67-77: the chapter is checked before the verses. */
  function ParseNumbers(chapter: string, verses: (string, string)): Result<(int, int, int), ParseError> {
    if !IsIntegerNumber(chapter) then Failure(InvalidChapter)
    else if !IsIntegerNumber(verses.0) || !IsIntegerNumber(verses.1) then Failure(InvalidVerse)
    else Success((NumberOf(chapter).value, NumberOf(verses.0).value, NumberOf(verses.1).value))
  }

  // ---------------------------------------------------------------- the parser

  /** `parseVerseReferenceIntoParts`, one stage after the other. */
  function Parse(s: string): Result<ParsedReference, ParseError> {
    AfterBookNumber(s, StripBookNumber(s))
  }

  /** Lines 36-42: look for the book name in what the book-number stage left. */
  function AfterBookNumber(s: string, stripped: Result<(Option<int>, string), ParseError>): Result<ParsedReference, ParseError> {
    match stripped
    case Failure(e) => Failure(e)
    case Success((bookNumber, rest)) => AfterBookName(s, bookNumber, rest, MatchLetters(rest))
  }

  /** The text after the book name: the second piece of the split, trimmed. */
  function ChapterAndVersesText(rest: string, bookName: string): string
    requires |bookName| > 0 && Includes(rest, bookName)
  {
    SplitHasSecond(rest, bookName);
    Trim(Split(rest, bookName)[1])
  }

  /** Lines 43-55: the full book name, the separator check and the text that follows. */
  function AfterBookName(s: string, bookNumber: Option<int>, rest: string, bookName: Option<string>)
    : Result<ParsedReference, ParseError>
    requires bookName.Some? ==> |bookName.value| > 0 && Includes(rest, bookName.value)
  {
    match bookName
    case None => Failure(BookNameNotFound)
    case Some(name) =>
      var fullBookName := FullBookName(bookNumber, name);
      var spaceIndex := IndexOf(s, fullBookName) + |fullBookName|;
      AfterSeparator(fullBookName, name, bookNumber, CharAt(s, spaceIndex), ChapterAndVersesText(rest, name))
  }

  function AfterSeparator(fullBookName: string, bookName: string, bookNumber: Option<int>,
                          separator: string, chapterAndVerses: string): Result<ParsedReference, ParseError>
  {
    if separator != " " then Failure(MissingBookChapterSeparator)
    else Assemble(fullBookName, bookName, bookNumber, ParseChapterAndVerses(chapterAndVerses))
  }

  /** Lines 79-89: the returned object, with `verseCount` computed from the two verse numbers. */
  function Assemble(fullBookName: string, bookName: string, bookNumber: Option<int>,
                    numbers: Result<(int, int, int), ParseError>): Result<ParsedReference, ParseError>
  {
    match numbers
    case Failure(e) => Failure(e)
    case Success((chapter, verseStart, verseEnd)) =>
      Success(ParsedReference(fullBookName, bookName, bookNumber,
                              chapter, verseStart, verseEnd, 1 + verseEnd - verseStart))
  }

  // ---------------------------------------------------------------- book lookup

  /** `normalizeBookName`: "Psalm" is the one alias, for "Psalms". */
  function NormalizeBookName(name: string): string {
    if name == "Psalm" then "Psalms" else name
  }

  function FindBookFrom(books: seq<Book>, name: string, i: nat): (k: int)
    requires i <= |books|
    decreases |books| - i
    ensures k == -1 || (i <= k < |books| && books[k].name == name)
    ensures forall j :: i <= j < |books| && (k == -1 || j < k) ==> books[j].name != name
  {
    if i == |books| then -1 else if books[i].name == name then i else FindBookFrom(books, name, i + 1)
  }

  /** `findBookIdByBookName`: the id of the first table entry named like the normalized name. */
  function FindBookIdByBookName(books: seq<Book>, name: string): (r: Result<string, ParseError>)
    ensures r.Failure? <==> forall j :: 0 <= j < |books| ==> books[j].name != NormalizeBookName(name)
    ensures r.Failure? ==> r.error == UnknownBookName(name)
    ensures r.Success? ==> exists k :: 0 <= k < |books| && books[k].name == NormalizeBookName(name)
                              && books[k].id == r.value
                              && forall j :: 0 <= j < k ==> books[j].name != NormalizeBookName(name)
  {
    var k := FindBookFrom(books, NormalizeBookName(name), 0);
    if k < 0 then Failure(UnknownBookName(name)) else Success(books[k].id)
  }

  // ---------------------------------------------------------------- identifiers

  /** `${bookId}.${chapter}.${verse}`. */
  function FormatVerseId(bookId: string, chapter: int, verse: int): string {
    bookId + "." + IntToString(chapter) + "." + IntToString(verse)
  }

  /** The range form when more than one verse is counted, the single form otherwise. */
  function FormatPassageId(bookId: string, chapter: int, verseStart: int, verseEnd: int, verseCount: int): string {
    if verseCount > 1 then FormatVerseId(bookId, chapter, verseStart) + "-" + FormatVerseId(bookId, chapter, verseEnd)
    else FormatVerseId(bookId, chapter, verseStart)
  }

  /** `transformVerseReferenceToVerseId`. */
  function TransformVerseReferenceToVerseId(books: seq<Book>, s: string): Result<string, ParseError> {
    VerseIdOf(books, Parse(s))
  }

  /** The lookup and formatting that follow a parse. */
  function VerseIdOf(books: seq<Book>, parsed: Result<ParsedReference, ParseError>): Result<string, ParseError> {
    match parsed
    case Failure(e) => Failure(e)
    case Success(p) =>
      match FindBookIdByBookName(books, p.fullBookName)
      case Failure(e) => Failure(e)
      case Success(id) => Success(FormatVerseId(id, p.chapter, p.verseNumberStart))
  }

  /** `transformVerseReferenceToPassageId`. */
  function TransformVerseReferenceToPassageId(books: seq<Book>, s: string): Result<string, ParseError> {
    PassageIdOf(books, Parse(s))
  }

  function PassageIdOf(books: seq<Book>, parsed: Result<ParsedReference, ParseError>): Result<string, ParseError> {
    match parsed
    case Failure(e) => Failure(e)
    case Success(p) =>
      match FindBookIdByBookName(books, p.fullBookName)
      case Failure(e) => Failure(e)
      case Success(id) => Success(FormatPassageId(id, p.chapter, p.verseNumberStart, p.verseNumberEnd, p.verseCount))
  }
}
