/**
 * The citations the source's unit tests exercise, each stated as a fact
 * about the model and derived from the general lemmas. The facts about each
 * literal text (how it splits into a citation, the values of its digits)
 * are stated apart from the parser.
 */
module VerseReferenceExamples {
  import opened Wrappers
  import opened JsText
  import opened VerseReference
  import opened VerseReferenceProperties
  import opened VerseReferenceFailures
  import opened VerseIds

  // ---------------------------------------------------------------- well-formed citations

  lemma {:induction false} GalatiansFacts()
    ensures CitationText(None, "Galatians", "2", "20", None) == "Galatians 2:20"
    ensures AllLetters("Galatians") && AllDigits("2") && AllDigits("20")
    ensures DigitsValue("2") == 2 && DigitsValue("20") == 20
  {
  }

  lemma {:induction false} GalatiansExample(s: string)
    requires s == "Galatians 2:20"
    ensures Parse(s) == Success(ParsedReference("Galatians", "Galatians", None, 2, 20, 20, 1))
  {
    GalatiansFacts();
    CitationParses(s, None, "Galatians", "2", "20", None, ParsedReference("Galatians", "Galatians", None, 2, 20, 20, 1));
  }

  lemma {:induction false} CorithiansText()
    ensures CitationText(Some('2'), "Corithians", "5", "17", None) == "2 Corithians 5:17"
    ensures AllLetters("Corithians") && AllDigits("5") && AllDigits("17")
  {
  }

  lemma {:induction false} CorithiansFacts()
    ensures CitedFullName(Some('2'), "Corithians") == "2 Corithians" && CitedNumber(Some('2')) == Some(2)
    ensures DigitsValue("5") == 5 && DigitsValue("17") == 17
  {
  }

  /** The source's test spells the book "Corithians"; the parser does not look names up. */
  lemma {:induction false} CorinthiansExample(s: string)
    requires s == "2 Corithians 5:17"
    ensures Parse(s) == Success(ParsedReference("2 Corithians", "Corithians", Some(2), 5, 17, 17, 1))
  {
    CorithiansText();
    CorithiansFacts();
    CitationParses(s, Some('2'), "Corithians", "5", "17", None,
                   ParsedReference("2 Corithians", "Corithians", Some(2), 5, 17, 17, 1));
  }

  lemma {:induction false} PsalmRangeFacts()
    ensures CitationText(None, "Psalm", "23", "1", Some("6")) == "Psalm 23:1-6"
    ensures AllLetters("Psalm") && AllDigits("23") && AllDigits("1") && AllDigits("6")
    ensures DigitsValue("23") == 23 && DigitsValue("1") == 1 && LastVerse("1", Some("6")) == 6
  {
    assert DigitsValue("6") == 6;
  }

  lemma {:induction false} PsalmRangeExample(s: string)
    requires s == "Psalm 23:1-6"
    ensures Parse(s) == Success(ParsedReference("Psalm", "Psalm", None, 23, 1, 6, 6))
  {
    PsalmRangeFacts();
    CitationParses(s, None, "Psalm", "23", "1", Some("6"), ParsedReference("Psalm", "Psalm", None, 23, 1, 6, 6));
  }

  // ---------------------------------------------------------------- errors

  /** The messages the tests match. */
  lemma {:induction false} SeparatorMessageExample()
    ensures Message(MissingBookNumberSeparator) == "Book number must be a single digit followed by a space"
  {
  }

  lemma {:induction false} BookNumberMessageExample()
    ensures Message(InvalidBookNumber("4")) == "Invalid book number \"4\""
  {
    assert "Invalid book number \"" + "4" == "Invalid book number \"4";
  }

  lemma {:induction false} UnknownBookMessageExample()
    ensures Message(UnknownBookName("2 Corthians")) == "Failed to look up book name for \"2 Corthians\""
  {
    assert "Failed to look up book name for \"" + "2 Corthians" == "Failed to look up book name for \"2 Corthians";
  }

  lemma {:induction false} DigitsOnlyFacts(s: string)
    requires s == "111"
    ensures (|s| == 0 || IsDigit(s[0]) || IsJsWhitespace(s[0])) && !(|s| >= 2 && s[1] == ' ')
  {
  }

  /** "111": a leading digit not followed by a space. */
  lemma {:induction false} DigitsOnlyExample(s: string)
    requires s == "111"
    ensures Parse(s) == Failure(MissingBookNumberSeparator)
  {
    DigitsOnlyFacts(s);
    MissingBookNumberSeparatorIff(s);
  }

  lemma {:induction false} FourJohnFacts(s: string)
    requires s == "4 John 1:1"
    ensures |s| >= 2 && s[1] == ' ' && IsDigit(s[0]) && !('0' <= s[0] <= '2') && [s[0]] == "4"
  {
  }

  /** "4 John 1:1": 4 is not a key of the book-number list. */
  lemma {:induction false} FourJohnExample(s: string)
    requires s == "4 John 1:1"
    ensures Parse(s) == Failure(InvalidBookNumber("4"))
  {
    FourJohnFacts(s);
    InvalidBookNumberIff(s);
  }

  lemma {:induction false} NoBookNameFacts(s: string)
    requires s == "1 11"
    ensures |s| >= 2 && '0' <= s[0] <= '2' && s[1] == ' ' && NoLetters(s[2..])
  {
    assert s[2..] == "11";
  }

  /** "1 11": a book number and no letters after it. */
  lemma {:induction false} NoBookNameExample(s: string)
    requires s == "1 11"
    ensures Parse(s) == Failure(BookNameNotFound)
  {
    NoBookNameFacts(s);
    BookNameNotFoundIff(s);
  }

  lemma {:induction false} DashAfterNameFacts(s: string)
    requires s == "invalid-data"
    ensures |s| > 0 && !IsDigit(s[0]) && !IsJsWhitespace(s[0])
    ensures MatchLetters(s) == Some("invalid") && FirstLetterFrom(s, 0) == 0 && CharAt(s, 7) == "-"
  {
    assert s == "invalid" + ['-'] + "data";
    MatchLettersAtStart("invalid", '-', "data");
  }

  /** "invalid-data": the book name is followed by a dash, not a space. */
  lemma {:induction false} DashAfterNameExample(s: string)
    requires s == "invalid-data"
    ensures Parse(s) == Failure(MissingBookChapterSeparator)
  {
    DashAfterNameFacts(s);
    MissingBookChapterSeparatorIff(s);
  }

  /** A search string longer than the text is never found. */
  lemma {:induction false} LongerAbsent(u: string, sub: string)
    requires |sub| > |u|
    ensures !Includes(u, sub)
  {
  }

  lemma {:induction false} NoColonFacts(s: string)
    requires s == "invalid data"
    ensures s == "invalid" + " " + "data" && AllLetters("invalid") && !Includes(" " + "data", "invalid")
    ensures ParseChapterAndVerses(Trim("data")) == Failure(InvalidColonCount)
  {
    TrimNoSpace("data");
    CountAbsent("data", ':');
    LongerAbsent(" " + "data", "invalid");
  }

  /** "invalid data": no colon after the book name. */
  lemma {:induction false} NoColonExample(s: string)
    requires s == "invalid data"
    ensures Parse(s) == Failure(InvalidColonCount)
  {
    NoColonFacts(s);
    ParseNamedReference("invalid", "data");
  }

  /** "Book c:v" without a book number: the chapter is checked before the verse. */
  lemma {:induction false} NamedSingleVerse(name: string, chapter: string, verse: string)
    requires |name| > 0 && AllLetters(name) && !Includes(" " + (chapter + ":" + verse), name)
    requires Lacks(chapter, ':') && Lacks(verse, ':') && Lacks(verse, '-')
    requires |chapter| > 0 && !IsJsWhitespace(chapter[0]) && |verse| > 0 && !IsJsWhitespace(verse[|verse| - 1])
    ensures !IsIntegerNumber(chapter) ==> Parse(name + " " + (chapter + ":" + verse)) == Failure(InvalidChapter)
    ensures IsIntegerNumber(chapter) && !IsIntegerNumber(verse) ==>
              Parse(name + " " + (chapter + ":" + verse)) == Failure(InvalidVerse)
  {
    var tail := chapter + ":" + verse;
    assert tail[0] == chapter[0];
    TrimNoSpace(tail);
    ParseSingleVerse(chapter, verse);
    ParseNamedReference(name, tail);
  }

  /** "Genesis c:v" with one-character chapter and verse texts meets the conditions of `NamedSingleVerse`. */
  lemma {:induction false} GenesisFacts(s: string, c: char, v: char)
    requires s == "Genesis " + [c, ':', v]
    requires c != ':' && v != ':' && v != '-' && !IsJsWhitespace(c) && !IsJsWhitespace(v)
    ensures s == "Genesis" + " " + ([c] + ":" + [v])
    ensures |"Genesis"| > 0 && AllLetters("Genesis") && !Includes(" " + ([c] + ":" + [v]), "Genesis")
    ensures Lacks([c], ':') && Lacks([v], ':') && Lacks([v], '-')
  {
    LongerAbsent(" " + ([c] + ":" + [v]), "Genesis");
  }

  lemma {:induction false} LetterIsNotNumber()
    ensures !IsIntegerNumber("A") && IsIntegerNumber("1")
  {
    TrimNoSpace("A");
    NumberOfDigits("1");
  }

  /** "Genesis A:1": the chapter is not a number. */
  lemma {:induction false} LetterChapterExample(s: string)
    requires s == "Genesis A:1"
    ensures Parse(s) == Failure(InvalidChapter)
  {
    GenesisFacts(s, 'A', '1');
    LetterIsNotNumber();
    NamedSingleVerse("Genesis", "A", "1");
  }

  /** "Genesis 1:A": the verse is not a number. */
  lemma {:induction false} LetterVerseExample(s: string)
    requires s == "Genesis 1:A"
    ensures Parse(s) == Failure(InvalidVerse)
  {
    GenesisFacts(s, '1', 'A');
    LetterIsNotNumber();
    NamedSingleVerse("Genesis", "1", "A");
  }

  /** "Job A:1": a book name no longer than the rest of the text is still split off. */
  lemma {:induction false} JobFacts(s: string)
    requires s == "Job A:1"
    ensures s == "Job" + " " + ("A" + ":" + "1") && AllLetters("Job") && !Includes(" " + ("A" + ":" + "1"), "Job")
    ensures Lacks("A", ':') && Lacks("1", ':') && Lacks("1", '-')
  {
    assert " " + ("A" + ":" + "1") == " A:1";
    MissingCharNotIncluded(" A:1", "Job", 0);
  }

  lemma {:induction false} JobLetterChapterExample(s: string)
    requires s == "Job A:1"
    ensures Parse(s) == Failure(InvalidChapter)
  {
    JobFacts(s);
    LetterIsNotNumber();
    NamedSingleVerse("Job", "A", "1");
  }

  /**
   * "Song of Solomon 3:16": only the first word is the book name, so the
   * chapter text is "of Solomon 3", which is not a number.
   */
  lemma {:induction false} SongOfSolomonSplit(s: string)
    requires s == "Song of Solomon 3:16"
    ensures s == "Song" + " " + ("of Solomon 3" + ":" + "16")
  {
  }

  lemma {:induction false} SongOfSolomonAbsent()
    ensures AllLetters("Song") && !Includes(" " + ("of Solomon 3" + ":" + "16"), "Song")
  {
    assert " " + ("of Solomon 3" + ":" + "16") == " of Solomon 3:16";
    MissingCharNotIncluded(" of Solomon 3:16", "Song", 3);
  }

  lemma {:induction false} SongOfSolomonChapter()
    ensures Lacks("of Solomon 3", ':') && Lacks("16", ':') && Lacks("16", '-')
    ensures !IsIntegerNumber("of Solomon 3")
  {
    TrimNoSpace("of Solomon 3");
    assert !IsDigit("of Solomon 3"[0]);
  }

  lemma {:induction false} SongOfSolomonExample(s: string)
    requires s == "Song of Solomon 3:16"
    ensures Parse(s) == Failure(InvalidChapter)
  {
    SongOfSolomonSplit(s);
    SongOfSolomonAbsent();
    SongOfSolomonChapter();
    NamedSingleVerse("Song", "of Solomon 3", "16");
  }

  // ---------------------------------------------------------------- end to end

  /** A few records of the book table, in its order. */
  const ExampleBooks: seq<Book> := [Book("GEN", "Genesis"), Book("PSA", "Psalms"),
                                    Book("GAL", "Galatians"), Book("2CO", "2 Corinthians")]

  /** `CitationVerseId` and `CitationPassageId` for a citation whose book is found, as equalities. */
  lemma {:induction false} CitationIdsAre(books: seq<Book>, s: string, d: Option<char>, name: string, chapter: string, a: string,
                                          b: Option<string>, id: string)
    requires d.Some? ==> '0' <= d.value <= '2'
    requires |name| > 0 && AllLetters(name)
    requires |chapter| > 0 && AllDigits(chapter) && |a| > 0 && AllDigits(a)
    requires b.Some? ==> |b.value| > 0 && AllDigits(b.value)
    requires s == CitationText(d, name, chapter, a, b)
    requires FindBookIdByBookName(books, CitedFullName(d, name)) == Success(id)
    ensures TransformVerseReferenceToVerseId(books, s) == Success(FormatVerseId(id, DigitsValue(chapter), DigitsValue(a)))
    ensures TransformVerseReferenceToPassageId(books, s)
         == Success(FormatPassageId(id, DigitsValue(chapter), DigitsValue(a), LastVerse(a, b), 1 + LastVerse(a, b) - DigitsValue(a)))
  {
    CitationVerseId(books, d, name, chapter, a, b);
    CitationPassageId(books, d, name, chapter, a, b);
  }

  lemma {:induction false} PsalmLookup()
    ensures CitedFullName(None, "Psalm") == "Psalm"
    ensures FindBookIdByBookName(ExampleBooks, "Psalm") == Success("PSA")
  {
  }

  lemma {:induction false} PsalmVerseFacts()
    ensures CitationText(None, "Psalm", "23", "1", None) == "Psalm 23:1"
    ensures AllLetters("Psalm") && AllDigits("23") && AllDigits("1")
    ensures DigitsValue("23") == 23 && DigitsValue("1") == 1
    ensures FormatVerseId("PSA", 23, 1) == "PSA.23.1"
  {
  }

  /** "Psalm" is looked up as "Psalms". */
  lemma {:induction false} PsalmVerseIdExample(s: string)
    requires s == "Psalm 23:1"
    ensures TransformVerseReferenceToVerseId(ExampleBooks, s) == Success("PSA.23.1")
  {
    PsalmLookup();
    PsalmVerseFacts();
    CitationIdsAre(ExampleBooks, s, None, "Psalm", "23", "1", None, "PSA");
  }

  lemma {:induction false} PsalmPassageFormat()
    ensures FormatPassageId("PSA", 23, 1, 6, 6) == "PSA.23.1-PSA.23.6"
  {
    assert IntToString(23) == "23";
  }

  /** A verse range becomes a PassageId with both ends. */
  lemma {:induction false} PsalmPassageIdExample(s: string)
    requires s == "Psalm 23:1-6"
    ensures TransformVerseReferenceToPassageId(ExampleBooks, s) == Success("PSA.23.1-PSA.23.6")
  {
    PsalmLookup();
    PsalmRangeFacts();
    PsalmPassageFormat();
    CitationIdsAre(ExampleBooks, s, None, "Psalm", "23", "1", Some("6"), "PSA");
  }

  lemma {:induction false} CorinthiansLookup()
    ensures CitedFullName(Some('2'), "Corinthians") == "2 Corinthians"
    ensures FindBookIdByBookName(ExampleBooks, "2 Corinthians") == Success("2CO")
  {
  }

  lemma {:induction false} CorinthiansVerseFacts()
    ensures CitationText(Some('2'), "Corinthians", "5", "17", None) == "2 Corinthians 5:17"
    ensures AllLetters("Corinthians") && AllDigits("5") && AllDigits("17")
    ensures DigitsValue("5") == 5 && DigitsValue("17") == 17
    ensures FormatVerseId("2CO", 5, 17) == "2CO.5.17"
  {
  }

  /** A numbered book is looked up by its full name. */
  lemma {:induction false} CorinthiansVerseIdExample(s: string)
    requires s == "2 Corinthians 5:17"
    ensures TransformVerseReferenceToVerseId(ExampleBooks, s) == Success("2CO.5.17")
  {
    CorinthiansLookup();
    CorinthiansVerseFacts();
    CitationIdsAre(ExampleBooks, s, Some('2'), "Corinthians", "5", "17", None, "2CO");
  }

  lemma {:induction false} MisspeltBookText()
    ensures CitationText(Some('2'), "Corthians", "5", "17", None) == "2 Corthians 5:17"
    ensures AllLetters("Corthians") && AllDigits("5") && AllDigits("17")
  {
  }

  lemma {:induction false} MisspeltBookFacts()
    ensures CitedFullName(Some('2'), "Corthians") == "2 Corthians"
    ensures FindBookIdByBookName(ExampleBooks, "2 Corthians") == Failure(UnknownBookName("2 Corthians"))
  {
  }

  /** A misspelt book name parses but is not in the table. */
  lemma {:induction false} MisspeltBookExample(s: string)
    requires s == "2 Corthians 5:17"
    ensures TransformVerseReferenceToVerseId(ExampleBooks, s) == Failure(UnknownBookName("2 Corthians"))
  {
    MisspeltBookText();
    MisspeltBookFacts();
    CitationVerseId(ExampleBooks, Some('2'), "Corthians", "5", "17", None);
  }
}
