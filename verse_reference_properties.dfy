/**
 * What the verse-reference engine promises: the failure of each check,
 * characterised in both directions; the parts of a well-formed citation;
 * the first-match book lookup; identifiers that can be read back; and the
 * examples the source's own tests state.
 */
module VerseReferenceProperties {
  import opened Wrappers
  import opened JsText
  import opened VerseReference

  predicate AllLetters(s: string) {
    forall k :: 0 <= k < |s| ==> IsAsciiLetter(s[k])
  }

  predicate NoLetters(s: string) {
    forall k :: 0 <= k < |s| ==> !IsAsciiLetter(s[k])
  }

  predicate Lacks(s: string, c: char) {
    forall k :: 0 <= k < |s| ==> s[k] != c
  }

  /** The optional "<d> " book-number prefix of a citation. */
  function NumberPrefix(d: Option<char>): string {
    if d.Some? then [d.value, ' '] else ""
  }

  /** A citation built from its parts: optional "<d> ", name, chapter, verse or verse range. */
  function CitationText(d: Option<char>, name: string, chapter: string, verseStart: string, verseEnd: Option<string>): string {
    NumberPrefix(d) + name + " " + (chapter + ":" + VersesText(verseStart, verseEnd))
  }

  function VersesText(a: string, b: Option<string>): string {
    if b.Some? then a + "-" + b.value else a
  }

  // ---------------------------------------------------------------- helpers

  lemma {:induction false} MatchLettersAtStart(name: string, c: char, tail: string)
    requires |name| > 0 && AllLetters(name) && !IsAsciiLetter(c)
    ensures MatchLetters(name + [c] + tail) == Some(name)
  {
    var t := name + [c] + tail;
    assert t[0] == name[0];
    assert t[|name|] == c;
    assert forall k :: 0 <= k < |name| ==> t[k] == name[k];
    assert LetterRunLength(t, 0) == |name|;
    assert t[0..|name|] == name;
  }

  lemma {:induction false} NameNotInLetterFree(name: string, u: string)
    requires |name| > 0 && IsAsciiLetter(name[0]) && NoLetters(u)
    ensures !Includes(u, name)
  {
    forall k | 0 <= k ensures !OccursAt(u, name, k) {
      if k + |name| <= |u| {
        assert u[k..k + |name|][0] == u[k];
      }
    }
  }

  lemma {:induction false} SplitAfterName(name: string, tail: string)
    requires |name| > 0 && !Includes(" " + tail, name)
    ensures Split(name + " " + tail, name) == ["", " " + tail]
  {
    var s := name + " " + tail;
    assert OccursAt(s, name, 0) by {
      assert s[0..|name|] == name;
    }
    assert IndexOf(s, name) == 0;
    assert s[..0] == "";
    assert s[|name|..] == " " + tail;
  }

  lemma {:induction false} TrimNoLetters(x: string)
    ensures NoLetters(Trim(x)) <==> NoLetters(x)
  {
    var r := Trim(x);
    var l := LeadingSpace(x);
    if NoLetters(x) {
      forall j | 0 <= j < |r| ensures !IsAsciiLetter(r[j]) {
        assert r[j] == x[l + j];
      }
    } else {
      var k :| 0 <= k < |x| && IsAsciiLetter(x[k]);
      TrimKeeps(x, k);
      assert IsAsciiLetter(r[k - l]);
    }
  }

  lemma {:induction false} ColonSplit(ch: string, vr: string)
    requires Lacks(ch, ':') && Lacks(vr, ':')
    ensures Count(ch + ":" + vr, ':') == 1
    ensures Split(ch + ":" + vr, ":") == [ch, vr]
  {
    CountAbsent(ch, ':');
    CountAbsent(vr, ':');
    CountAppend(ch + ":", vr, ':');
    CountAppend(ch, ":", ':');
    assert ch + ":" + vr == ch + [':'] + vr;
    SplitFirst(ch, ':', vr);
    SplitAbsent(vr, ':');
  }

  // ---------------------------------------------------------------- the stages

  /** The parser, given what each stage yields on the way to the chapter-and-verses text. */
  lemma {:induction false} ParseThroughStages(s: string, number: Option<int>, rest: string, name: string, cv: string)
    requires StripBookNumber(s) == Success((number, rest))
    requires MatchLetters(rest) == Some(name)
    requires var full := FullBookName(number, name); CharAt(s, IndexOf(s, full) + |full|) == " "
    requires ChapterAndVersesText(rest, name) == cv
    ensures Parse(s) == Assemble(FullBookName(number, name), name, number, ParseChapterAndVerses(cv))
  {
    assert AfterBookNumber(s, StripBookNumber(s)) == AfterBookName(s, number, rest, Some(name));
  }

  lemma {:induction false} StripWithoutNumber(s: string)
    requires |s| > 0 && !IsDigit(s[0]) && !IsJsWhitespace(s[0])
    ensures StripBookNumber(s) == Success((None, s))
  {
    IntegerFirstChar(s);
  }

  /** The name at the very start, followed by a space. */
  lemma {:induction false} NameFirst(name: string, tail: string)
    requires |name| > 0
    ensures var s := name + " " + tail; IndexOf(s, name) == 0 && CharAt(s, |name|) == " "
  {
    var s := name + " " + tail;
    assert OccursAt(s, name, 0) by {
      assert s[0..|name|] == name;
    }
  }

  lemma {:induction false} TextAfterName(name: string, tail: string)
    requires |name| > 0 && !Includes(" " + tail, name)
    ensures Includes(name + " " + tail, name)
    ensures ChapterAndVersesText(name + " " + tail, name) == Trim(tail)
  {
    SplitAfterName(name, tail);
    SplitHasSecond(name + " " + tail, name);
    TrimLeadingSpace(tail);
  }

  /** The text after the book name names the book once and the rest follows. */
  lemma {:induction false} ParseNamedReference(name: string, tail: string)
    requires |name| > 0 && AllLetters(name)
    requires !Includes(" " + tail, name)
    ensures Parse(name + " " + tail) == Assemble(name, name, None, ParseChapterAndVerses(Trim(tail)))
  {
    StripNamed(name, tail);
    NamedLetters(name, tail);
    NameFirst(name, tail);
    TextAfterName(name, tail);
    ParseThroughStages(name + " " + tail, None, name + " " + tail, name, Trim(tail));
  }

  lemma {:induction false} StripNamed(name: string, tail: string)
    requires |name| > 0 && AllLetters(name)
    ensures StripBookNumber(name + " " + tail) == Success((None, name + " " + tail))
  {
    var s := name + " " + tail;
    assert s[0] == name[0];
    StripWithoutNumber(s);
  }

  lemma {:induction false} StripDigit(d: char, x: string)
    requires '0' <= d <= '2'
    requires |x| > 0 && !IsJsWhitespace(x[0]) && !IsJsWhitespace(x[|x| - 1])
    ensures StripBookNumber([d, ' '] + x) == Success((Some(DigitValue(d)), x))
  {
    var s := [d, ' '] + x;
    IntegerFirstChar(s);
    BookNumberKeys();
    assert CharAt(s, 0) == [d];
    assert CharAt(s, 1) == " ";
    assert [d] in ArrayKeys(BookNumberList);
    NumberOfDigits([d]);
    assert s[1..] == " " + x;
    TrimLeadingSpace(x);
    TrimNoSpace(x);
  }

  lemma {:induction false} NumberedSeparator(d: char, name: string, tail: string)
    requires '0' <= d <= '2'
    requires |name| > 0 && AllLetters(name)
    ensures var s := [d, ' '] + name + " " + tail;
            var full := FullBookName(Some(DigitValue(d)), name);
            full == (if d == '0' then name else [d, ' '] + name)
            && CharAt(s, IndexOf(s, full) + |full|) == " "
  {
    var s := [d, ' '] + name + " " + tail;
    if d == '0' {
      assert OccursAt(s, name, 2) by {
        assert s[2..2 + |name|] == name;
      }
      assert !OccursAt(s, name, 0) by {
        assert s[0..|name|][0] == d;
      }
      assert !OccursAt(s, name, 1) by {
        assert s[1..1 + |name|][0] == ' ';
      }
      assert IndexOf(s, name) == 2;
      assert CharAt(s, 2 + |name|) == " ";
    } else {
      var full := [d, ' '] + name;
      assert IntToString(DigitValue(d)) + " " + name == full;
      assert OccursAt(s, full, 0) by {
        assert s[0..|full|] == full;
      }
      assert IndexOf(s, full) == 0;
      assert CharAt(s, |full|) == " ";
    }
  }

  lemma {:induction false} StripNumbered(d: char, name: string, tail: string)
    requires '0' <= d <= '2'
    requires |name| > 0 && AllLetters(name)
    requires |tail| > 0 && !IsJsWhitespace(tail[|tail| - 1])
    ensures StripBookNumber([d, ' '] + name + " " + tail) == Success((Some(DigitValue(d)), name + " " + tail))
  {
    var x := name + " " + tail;
    assert [d, ' '] + name + " " + tail == [d, ' '] + x;
    assert x[0] == name[0] && x[|x| - 1] == tail[|tail| - 1];
    StripDigit(d, x);
  }

  lemma {:induction false} NamedLetters(name: string, tail: string)
    requires |name| > 0 && AllLetters(name)
    ensures MatchLetters(name + " " + tail) == Some(name)
  {
    assert name + " " + tail == name + [' '] + tail;
    MatchLettersAtStart(name, ' ', tail);
  }

  /** "<d> <name> <rest>" with d in 0..2: the digit is the book number; 0 is dropped from the full name. */
  lemma {:induction false} ParseNumberedReference(d: char, name: string, tail: string)
    requires '0' <= d <= '2'
    requires |name| > 0 && AllLetters(name)
    requires !Includes(" " + tail, name)
    requires |tail| > 0 && !IsJsWhitespace(tail[|tail| - 1])
    ensures FullBookName(Some(DigitValue(d)), name) == if d == '0' then name else [d, ' '] + name
    ensures Parse([d, ' '] + name + " " + tail)
         == Assemble(FullBookName(Some(DigitValue(d)), name), name, Some(DigitValue(d)), ParseChapterAndVerses(Trim(tail)))
  {
    var s := [d, ' '] + name + " " + tail;
    var x := name + " " + tail;
    StripNumbered(d, name, tail);
    assert Parse(s) == AfterBookName(s, Some(DigitValue(d)), x, MatchLetters(x));
    NamedLetters(name, tail);
    NumberedSeparator(d, name, tail);
    TextAfterName(name, tail);
  }

  /** One colon: the chapter is the text before it, the verses the text after. */
  lemma {:induction false} ColonStage(chapter: string, verses: string)
    requires Lacks(chapter, ':') && Lacks(verses, ':')
    ensures ParseChapterAndVerses(chapter + ":" + verses) == ParseNumbers(chapter, VerseBounds(verses))
  {
    ColonSplit(chapter, verses);
  }

  lemma {:induction false} SingleBounds(verse: string)
    requires Lacks(verse, '-')
    ensures VerseBounds(verse) == (verse, verse)
  {
    IncludesChar(verse, '-');
  }

  lemma {:induction false} RangeBounds(a: string, b: string)
    requires Lacks(a, '-') && Lacks(b, '-')
    ensures VerseBounds(a + "-" + b) == (a, b)
  {
    var vr := a + "-" + b;
    assert vr == a + ['-'] + b;
    assert vr[|a|] == '-';
    IncludesChar(vr, '-');
    SplitFirst(a, '-', b);
    SplitAbsent(b, '-');
  }

  /** Lines 63-77, one verse: the chapter is checked before the verse, and start == end. */
  lemma {:induction false} ParseSingleVerse(chapter: string, verse: string)
    requires Lacks(chapter, ':') && Lacks(verse, ':') && Lacks(verse, '-')
    ensures ParseChapterAndVerses(chapter + ":" + verse) ==
      if !IsIntegerNumber(chapter) then Failure(InvalidChapter)
      else if !IsIntegerNumber(verse) then Failure(InvalidVerse)
      else Success((NumberOf(chapter).value, NumberOf(verse).value, NumberOf(verse).value))
  {
    ColonStage(chapter, verse);
    SingleBounds(verse);
  }

  /** Lines 63-77, a range "a-b": the chapter is checked first, then both ends. */
  lemma {:induction false} ParseVerseRange(chapter: string, a: string, b: string)
    requires Lacks(chapter, ':') && Lacks(a, ':') && Lacks(b, ':') && Lacks(a, '-') && Lacks(b, '-')
    ensures ParseChapterAndVerses(chapter + ":" + a + "-" + b) ==
      if !IsIntegerNumber(chapter) then Failure(InvalidChapter)
      else if !IsIntegerNumber(a) || !IsIntegerNumber(b) then Failure(InvalidVerse)
      else Success((NumberOf(chapter).value, NumberOf(a).value, NumberOf(b).value))
  {
    var vr := a + "-" + b;
    assert chapter + ":" + a + "-" + b == chapter + ":" + vr;
    assert Lacks(vr, ':') by {
      assert vr == a + ['-'] + b;
    }
    ColonStage(chapter, vr);
    RangeBounds(a, b);
  }

  // ---------------------------------------------------------------- book lookup

  /** In every book table, "Psalm" is found exactly when "Psalms" is, with the same id. */
  lemma {:induction false} PsalmAlias(books: seq<Book>)
    ensures FindBookIdByBookName(books, "Psalm").Success? <==> FindBookIdByBookName(books, "Psalms").Success?
    ensures FindBookIdByBookName(books, "Psalm").Success? ==>
              FindBookIdByBookName(books, "Psalm").value == FindBookIdByBookName(books, "Psalms").value
  {
    assert "Psalms" != "Psalm";
    assert NormalizeBookName("Psalm") == NormalizeBookName("Psalms") == "Psalms";
  }

  // ---------------------------------------------------------------- well-formed citations

  lemma {:induction false} DigitsOnly(s: string)
    requires AllDigits(s)
    ensures Lacks(s, ':') && Lacks(s, '-') && NoLetters(s)
    ensures forall k :: 0 <= k < |s| ==> !IsJsWhitespace(s[k])
  {
  }

  lemma {:induction false} CitationTailText(chapter: string, a: string, b: Option<string>)
    requires |chapter| > 0 && AllDigits(chapter) && |a| > 0 && AllDigits(a)
    requires b.Some? ==> |b.value| > 0 && AllDigits(b.value)
    ensures var tail := chapter + ":" + VersesText(a, b);
      && NoLetters(" " + tail)
      && |tail| > 0 && !IsJsWhitespace(tail[|tail| - 1])
      && Trim(tail) == tail
  {
    var v := VersesText(a, b);
    var tail := chapter + ":" + v;
    DigitsOnly(chapter);
    DigitsOnly(a);
    if b.Some? {
      DigitsOnly(b.value);
      assert v[|v| - 1] == b.value[|b.value| - 1];
    }
    assert NoLetters(v);
    assert !IsJsWhitespace(v[|v| - 1]);
    assert NoLetters(" " + tail);
    assert tail[0] == chapter[0];
    assert tail[|tail| - 1] == v[|v| - 1];
    TrimNoSpace(tail);
  }

  /** The chapter-and-verses part of a well-formed citation. */
  lemma {:induction false} CitationNumbers(chapter: string, a: string, b: Option<string>)
    requires |chapter| > 0 && AllDigits(chapter) && |a| > 0 && AllDigits(a)
    requires b.Some? ==> |b.value| > 0 && AllDigits(b.value)
    ensures ParseChapterAndVerses(chapter + ":" + VersesText(a, b))
         == Success((DigitsValue(chapter), DigitsValue(a), LastVerse(a, b)))
  {
    DigitsOnly(chapter);
    DigitsOnly(a);
    NumberOfDigits(chapter);
    NumberOfDigits(a);
    if b.Some? {
      DigitsOnly(b.value);
      NumberOfDigits(b.value);
      assert chapter + ":" + VersesText(a, b) == chapter + ":" + a + "-" + b.value;
      ParseVerseRange(chapter, a, b.value);
    } else {
      ParseSingleVerse(chapter, a);
    }
  }

  lemma {:induction false} ParseAssembled(text: string, full: string, name: string, number: Option<int>,
                       numbers: Result<(int, int, int), ParseError>, chapter: int, start: int, end: int)
    requires Parse(text) == Assemble(full, name, number, numbers)
    requires numbers == Success((chapter, start, end))
    ensures Parse(text) == Success(ParsedReference(full, name, number, chapter, start, end, 1 + end - start))
  {
    AssembleSuccess(full, name, number, chapter, start, end);
  }

  lemma {:induction false} AssembleSuccess(full: string, name: string, number: Option<int>, chapter: int, start: int, end: int)
    ensures Assemble(full, name, number, Success((chapter, start, end)))
         == Success(ParsedReference(full, name, number, chapter, start, end, 1 + end - start))
  {
  }

  /** The full book name a citation's parts call for. */
  function CitedFullName(d: Option<char>, name: string): string {
    if d.Some? && d.value != '0' then [d.value, ' '] + name else name
  }

  function CitedNumber(d: Option<char>): Option<int>
    requires d.Some? ==> IsDigit(d.value)
  {
    if d.Some? then Some(DigitValue(d.value)) else None
  }

  function LastVerse(a: string, b: Option<string>): int
    requires AllDigits(a) && (b.Some? ==> AllDigits(b.value))
  {
    if b.Some? then DigitsValue(b.value) else DigitsValue(a)
  }

  lemma {:induction false} CitationAssembles(d: Option<char>, name: string, tail: string, chapter: int, start: int, end: int)
    requires d.Some? ==> '0' <= d.value <= '2'
    requires |name| > 0 && AllLetters(name)
    requires NoLetters(" " + tail) && |tail| > 0 && !IsJsWhitespace(tail[|tail| - 1])
    requires ParseChapterAndVerses(Trim(tail)) == Success((chapter, start, end))
    ensures Parse(NumberPrefix(d) + name + " " + tail)
         == Success(ParsedReference(CitedFullName(d, name), name, CitedNumber(d), chapter, start, end, 1 + end - start))
  {
    NameNotInLetterFree(name, " " + tail);
    var text := NumberPrefix(d) + name + " " + tail;
    if d.Some? {
      ParseNumberedReference(d.value, name, tail);
    } else {
      assert text == name + " " + tail;
      ParseNamedReference(name, tail);
    }
    ParseAssembled(text, CitedFullName(d, name), name, CitedNumber(d),
                   ParseChapterAndVerses(Trim(tail)), chapter, start, end);
  }

  /** A well-formed citation parses into its parts, with `verseCount == 1 + end - start`. */
  lemma {:induction false} ParseCitation(d: Option<char>, name: string, chapter: string, a: string, b: Option<string>)
    requires d.Some? ==> '0' <= d.value <= '2'
    requires |name| > 0 && AllLetters(name)
    requires |chapter| > 0 && AllDigits(chapter) && |a| > 0 && AllDigits(a)
    requires b.Some? ==> |b.value| > 0 && AllDigits(b.value)
    ensures var r := Parse(CitationText(d, name, chapter, a, b));
            r.Success? && r.value.fullBookName == CitedFullName(d, name) && r.value.bookName == name
            && r.value.bookNumber == CitedNumber(d) && r.value.chapter == DigitsValue(chapter)
            && r.value.verseNumberStart == DigitsValue(a) && r.value.verseNumberEnd == LastVerse(a, b)
            && r.value.verseCount == 1 + LastVerse(a, b) - DigitsValue(a)
  {
    var tail := chapter + ":" + VersesText(a, b);
    CitationTailText(chapter, a, b);
    CitationNumbers(chapter, a, b);
    assert CitationText(d, name, chapter, a, b) == NumberPrefix(d) + name + " " + tail;
    CitationAssembles(d, name, tail, DigitsValue(chapter), DigitsValue(a), LastVerse(a, b));
  }

  /** A successful parse whose fields are those of `p` is `p`. */
  lemma {:induction false} ReferenceEq(r: Result<ParsedReference, ParseError>, p: ParsedReference)
    requires r.Success? && r.value.fullBookName == p.fullBookName && r.value.bookName == p.bookName
    requires r.value.bookNumber == p.bookNumber && r.value.chapter == p.chapter
    requires r.value.verseNumberStart == p.verseNumberStart && r.value.verseNumberEnd == p.verseNumberEnd
    requires r.value.verseCount == p.verseCount
    ensures r == Success(p)
  {
  }

  /** `ParseCitation`, stated as one equality. */
  lemma {:induction false} CitationParses(s: string, d: Option<char>, name: string, chapter: string, a: string, b: Option<string>, p: ParsedReference)
    requires d.Some? ==> '0' <= d.value <= '2'
    requires |name| > 0 && AllLetters(name)
    requires |chapter| > 0 && AllDigits(chapter) && |a| > 0 && AllDigits(a)
    requires b.Some? ==> |b.value| > 0 && AllDigits(b.value)
    requires s == CitationText(d, name, chapter, a, b)
    requires p == ParsedReference(CitedFullName(d, name), name, CitedNumber(d), DigitsValue(chapter),
                                  DigitsValue(a), LastVerse(a, b), 1 + LastVerse(a, b) - DigitsValue(a))
    ensures Parse(s) == Success(p)
  {
    ParseCitation(d, name, chapter, a, b);
    ReferenceEq(Parse(s), p);
  }
}

module VerseReferenceFailures {
  import opened Wrappers
  import opened JsText
  import opened VerseReference
  import opened VerseReferenceProperties

  // ---------------------------------------------------------------- the book-number stage

  /** Lines 17-34: every outcome of the book-number stage, by the first two characters. */
  lemma {:induction false} StripCases(s: string)
    ensures StripBookNumber(s) == Failure(MissingBookNumberSeparator)
        <==> (|s| == 0 || IsDigit(s[0]) || IsJsWhitespace(s[0])) && !(|s| >= 2 && s[1] == ' ')
    ensures (StripBookNumber(s).Failure? && StripBookNumber(s).error.InvalidBookNumber?)
        <==> |s| >= 2 && s[1] == ' ' && (IsDigit(s[0]) || IsJsWhitespace(s[0])) && !('0' <= s[0] <= '2')
    ensures StripBookNumber(s).Failure? && StripBookNumber(s).error.InvalidBookNumber? ==>
              StripBookNumber(s).error.received == [s[0]]
    ensures StripBookNumber(s).Failure? ==>
              StripBookNumber(s).error.MissingBookNumberSeparator? || StripBookNumber(s).error.InvalidBookNumber?
    ensures StripBookNumber(s).Success?
        <==> (|s| > 0 && !IsDigit(s[0]) && !IsJsWhitespace(s[0])) || (|s| >= 2 && '0' <= s[0] <= '2' && s[1] == ' ')
  {
    IntegerFirstChar(s);
    BookNumberKeys();
    if |s| >= 2 {
      assert CharAt(s, 1) == " " <==> s[1] == ' ';
    }
  }

  lemma {:induction false} StripWithNumber(s: string)
    requires |s| >= 2 && '0' <= s[0] <= '2' && s[1] == ' '
    ensures StripBookNumber(s) == Success((Some(DigitValue(s[0])), Trim(s[1..])))
  {
    IntegerFirstChar(s);
    BookNumberKeys();
    assert [s[0]] in ArrayKeys(BookNumberList);
    NumberOfDigits([s[0]]);
  }

  lemma {:induction false} LettersAfterNumber(s: string)
    requires |s| >= 2 && s[1] == ' '
    ensures NoLetters(Trim(s[1..])) <==> NoLetters(s[2..])
  {
    TrimNoLetters(s[1..]);
    assert s[1..] == [' '] + s[2..];
    assert NoLetters(s[1..]) <==> NoLetters(s[2..]);
  }

  // ---------------------------------------------------------------- the later stages

  lemma {:induction false} ParseAfterStrip(s: string, number: Option<int>, rest: string)
    requires StripBookNumber(s) == Success((number, rest))
    ensures Parse(s) == AfterBookName(s, number, rest, MatchLetters(rest))
  {
  }

  lemma {:induction false} ParseStripFailure(s: string)
    requires StripBookNumber(s).Failure?
    ensures Parse(s) == Failure(StripBookNumber(s).error)
  {
  }

  /** Lines 36-55: which errors the book-name stage and those after it raise, and what a success holds. */
  lemma {:induction false} NameStage(s: string, number: Option<int>, rest: string, name: Option<string>)
    requires name.Some? ==> |name.value| > 0 && Includes(rest, name.value)
    ensures var r := AfterBookName(s, number, rest, name);
      && (r == Failure(BookNameNotFound) <==> name.None?)
      && (r == Failure(MissingBookChapterSeparator) <==>
            name.Some? &&
            var full := FullBookName(number, name.value);
            CharAt(s, IndexOf(s, full) + |full|) != " ")
      && (r.Failure? ==>
            || r.error.BookNameNotFound? || r.error.MissingBookChapterSeparator?
            || r.error.InvalidColonCount? || r.error.InvalidChapter? || r.error.InvalidVerse?)
      && (r.Success? ==>
            && name.Some? && r.value.bookName == name.value && r.value.bookNumber == number
            && r.value.fullBookName == FullBookName(number, name.value)
            && r.value.verseCount == 1 + r.value.verseNumberEnd - r.value.verseNumberStart)
  {
  }

  /** Once the book number is through, only the later errors can come. */
  lemma {:induction false} ParseLaterFailures(s: string)
    requires StripBookNumber(s).Success?
    ensures var rest := StripBookNumber(s).value.1;
      && (Parse(s) == Failure(BookNameNotFound) <==> MatchLetters(rest).None?)
      && (Parse(s).Failure? ==>
            || Parse(s).error.BookNameNotFound? || Parse(s).error.MissingBookChapterSeparator?
            || Parse(s).error.InvalidColonCount? || Parse(s).error.InvalidChapter?
            || Parse(s).error.InvalidVerse?)
  {
    var (number, rest) := StripBookNumber(s).value;
    ParseAfterStrip(s, number, rest);
    NameStage(s, number, rest, MatchLetters(rest));
  }

  // ---------------------------------------------------------------- each error, both directions

  /** Lines 21-24: a leading digit or blank (or the empty input) must be followed by a space. */
  lemma {:induction false} MissingBookNumberSeparatorIff(s: string)
    ensures Parse(s) == Failure(MissingBookNumberSeparator)
        <==> (|s| == 0 || IsDigit(s[0]) || IsJsWhitespace(s[0])) && !(|s| >= 2 && s[1] == ' ')
  {
    StripCases(s);
    if StripBookNumber(s).Failure? {
      ParseStripFailure(s);
    } else {
      ParseLaterFailures(s);
    }
  }

  /** Lines 26-33: the book number must be a key of the list, so only 0, 1 and 2 pass. */
  lemma {:induction false} InvalidBookNumberIff(s: string)
    ensures (Parse(s).Failure? && Parse(s).error.InvalidBookNumber?)
        <==> |s| >= 2 && s[1] == ' ' && (IsDigit(s[0]) || IsJsWhitespace(s[0])) && !('0' <= s[0] <= '2')
    ensures Parse(s).Failure? && Parse(s).error.InvalidBookNumber? ==> Parse(s).error.received == [s[0]]
  {
    StripCases(s);
    if StripBookNumber(s).Failure? {
      ParseStripFailure(s);
    } else {
      ParseLaterFailures(s);
    }
  }

  /** Lines 37-42: no ASCII letter after the optional book number. */
  lemma {:induction false} BookNameNotFoundIff(s: string)
    ensures Parse(s) == Failure(BookNameNotFound)
        <==> || (|s| > 0 && !IsDigit(s[0]) && !IsJsWhitespace(s[0]) && NoLetters(s))
             || (|s| >= 2 && '0' <= s[0] <= '2' && s[1] == ' ' && NoLetters(s[2..]))
  {
    StripCases(s);
    if StripBookNumber(s).Failure? {
      ParseStripFailure(s);
    } else {
      ParseLaterFailures(s);
      if |s| > 0 && !IsDigit(s[0]) && !IsJsWhitespace(s[0]) {
        StripWithoutNumber(s);
      } else {
        StripWithNumber(s);
        LettersAfterNumber(s);
      }
    }
  }

  lemma {:induction false} NoNumberSpace(s: string)
    requires MatchLetters(s).Some?
    ensures var name := MatchLetters(s).value;
      var full := FullBookName(None, name);
      CharAt(s, IndexOf(s, full) + |full|) == CharAt(s, FirstLetterFrom(s, 0) + |name|)
  {
  }

  /**
   * Lines 43-50, for a reference without a book number: the error is raised
   * exactly when the character right after the first run of letters is not
   * a space (or there is none).
   */
  lemma {:induction false} MissingBookChapterSeparatorIff(s: string)
    requires |s| > 0 && !IsDigit(s[0]) && !IsJsWhitespace(s[0])
    ensures Parse(s) == Failure(MissingBookChapterSeparator)
        <==> MatchLetters(s).Some? && CharAt(s, FirstLetterFrom(s, 0) + |MatchLetters(s).value|) != " "
  {
    StripWithoutNumber(s);
    ParseAfterStrip(s, None, s);
    NameStage(s, None, s, MatchLetters(s));
    if MatchLetters(s).Some? {
      NoNumberSpace(s);
    }
  }

  // ---------------------------------------------------------------- successful parses

  lemma {:induction false} ParseSuccessParts(s: string)
    requires Parse(s).Success?
    ensures StripBookNumber(s).Success?
    ensures var p := Parse(s).value;
      var (number, rest) := StripBookNumber(s).value;
      && MatchLetters(rest) == Some(p.bookName)
      && p.bookNumber == number
      && p.fullBookName == FullBookName(number, p.bookName)
      && p.verseCount == 1 + p.verseNumberEnd - p.verseNumberStart
  {
    if StripBookNumber(s).Failure? {
      ParseStripFailure(s);
    } else {
      var (number, rest) := StripBookNumber(s).value;
      ParseAfterStrip(s, number, rest);
      NameStage(s, number, rest, MatchLetters(rest));
    }
  }

  lemma {:induction false} ParsedBookNumber(s: string)
    requires StripBookNumber(s).Success?
    ensures var number := StripBookNumber(s).value.0;
      && (number.Some? <==> |s| >= 2 && '0' <= s[0] <= '2' && s[1] == ' ')
      && (number.Some? ==> number.value == DigitValue(s[0]))
      && (number.None? ==> StripBookNumber(s).value.1 == s)
  {
    StripCases(s);
    if |s| > 0 && !IsDigit(s[0]) && !IsJsWhitespace(s[0]) {
      StripWithoutNumber(s);
    } else {
      StripWithNumber(s);
    }
  }

  /** What every successful parse satisfies. */
  lemma {:induction false} ParsedReferenceFacts(s: string)
    requires Parse(s).Success?
    ensures var p := Parse(s).value;
      && p.verseCount == 1 + p.verseNumberEnd - p.verseNumberStart
      && |p.bookName| > 0 && AllLetters(p.bookName)
      && p.fullBookName == FullBookName(p.bookNumber, p.bookName)
      && (p.bookNumber.Some? <==> |s| >= 2 && '0' <= s[0] <= '2' && s[1] == ' ')
      && (p.bookNumber.Some? ==> p.bookNumber.value == DigitValue(s[0]))
      && (p.bookNumber.None? ==> IsFirstLetterRunAt(s, p.bookName, FirstLetterFrom(s, 0)))
  {
    ParseSuccessParts(s);
    ParsedBookNumber(s);
    LetterRunOf(StripBookNumber(s).value.1, Parse(s).value.bookName);
  }

  lemma {:induction false} LetterRunOf(t: string, name: string)
    requires MatchLetters(t) == Some(name)
    ensures |name| > 0 && AllLetters(name) && IsFirstLetterRunAt(t, name, FirstLetterFrom(t, 0))
  {
    var p := FirstLetterFrom(t, 0);
    assert IsFirstLetterRunAt(t, name, p);
    forall k | 0 <= k < |name| ensures IsAsciiLetter(name[k]) {
      assert name[k] == t[p..p + |name|][k] == t[p + k];
    }
  }
}
