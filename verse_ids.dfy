/**
 * Reading identifiers back: a VerseId `ID.chapter.verse` and a PassageId
 * (one VerseId, or two joined by "-") decode to the parts they were
 * formatted from, which makes the formatting injective on book ids free of
 * the separators.
 */
module VerseIds {
  import opened Wrappers
  import opened JsText
  import opened VerseReference
  import opened VerseReferenceProperties

  datatype VerseIdParts = VerseIdParts(bookId: string, chapter: int, verse: int)

  datatype PassageIdParts = PassageIdParts(bookId: string, chapter: int, verseStart: int, verseEnd: int)

  /** The inverse of `FormatVerseId`: three dot-separated fields, the last two integers. */
  function DecodeVerseId(t: string): (r: Option<VerseIdParts>)
    ensures r.Some? ==> |Split(t, ".")| == 3 && r.value.bookId == Split(t, ".")[0]
  {
    var parts := Split(t, ".");
    if |parts| == 3 && IsIntegerNumber(parts[1]) && IsIntegerNumber(parts[2]) then
      Some(VerseIdParts(parts[0], NumberOf(parts[1]).value, NumberOf(parts[2]).value))
    else None
  }

  /** The inverse of `FormatPassageId`: one VerseId, or two of the same book and chapter. */
  function DecodePassageId(t: string): (r: Option<PassageIdParts>)
    ensures r.Some? ==> 1 <= |Split(t, "-")| <= 2
  {
    var halves := Split(t, "-");
    if |halves| == 1 then
      match DecodeVerseId(halves[0])
      case None => None
      case Some(v) => Some(PassageIdParts(v.bookId, v.chapter, v.verse, v.verse))
    else if |halves| == 2 then
      match (DecodeVerseId(halves[0]), DecodeVerseId(halves[1]))
      case (Some(a), Some(b)) =>
        if a.bookId == b.bookId && a.chapter == b.chapter then
          Some(PassageIdParts(a.bookId, a.chapter, a.verse, b.verse))
        else None
      case _ => None
    else None
  }

  lemma {:induction false} RenderedIntegerLacks(n: int)
    ensures Lacks(IntToString(n), '.')
    ensures n >= 0 ==> Lacks(IntToString(n), '-')
  {
    IntToStringChars(n);
  }

  lemma {:induction false} VerseIdFields(bookId: string, chapter: int, verse: int)
    requires Lacks(bookId, '.')
    ensures Split(FormatVerseId(bookId, chapter, verse), ".") == [bookId, IntToString(chapter), IntToString(verse)]
  {
    var c := IntToString(chapter);
    var v := IntToString(verse);
    RenderedIntegerLacks(chapter);
    RenderedIntegerLacks(verse);
    assert FormatVerseId(bookId, chapter, verse) == bookId + ['.'] + (c + ['.'] + v);
    SplitFirst(bookId, '.', c + ['.'] + v);
    SplitFirst(c, '.', v);
    SplitAbsent(v, '.');
  }

  /** A VerseId decodes to the book id, chapter and verse it was formatted from. */
  lemma {:induction false} VerseIdRoundTrip(bookId: string, chapter: int, verse: int)
    requires Lacks(bookId, '.')
    ensures DecodeVerseId(FormatVerseId(bookId, chapter, verse)) == Some(VerseIdParts(bookId, chapter, verse))
  {
    VerseIdFields(bookId, chapter, verse);
    IntToStringRoundTrip(chapter);
    IntToStringRoundTrip(verse);
  }

  /** Two VerseIds for separator-free book ids are equal only when their parts are. */
  lemma {:induction false} VerseIdInjective(id1: string, c1: int, v1: int, id2: string, c2: int, v2: int)
    requires Lacks(id1, '.') && Lacks(id2, '.')
    ensures FormatVerseId(id1, c1, v1) == FormatVerseId(id2, c2, v2) <==> id1 == id2 && c1 == c2 && v1 == v2
  {
    VerseIdRoundTrip(id1, c1, v1);
    VerseIdRoundTrip(id2, c2, v2);
  }

  lemma {:induction false} VerseIdLacksDash(bookId: string, chapter: int, verse: int)
    requires Lacks(bookId, '-') && chapter >= 0 && verse >= 0
    ensures Lacks(FormatVerseId(bookId, chapter, verse), '-')
  {
    RenderedIntegerLacks(chapter);
    RenderedIntegerLacks(verse);
  }

  lemma {:induction false} DecodeSingle(t: string, v: VerseIdParts)
    requires Split(t, "-") == [t] && DecodeVerseId(t) == Some(v)
    ensures DecodePassageId(t) == Some(PassageIdParts(v.bookId, v.chapter, v.verse, v.verse))
  {
  }

  lemma {:induction false} DecodePair(t: string, x: string, y: string, a: VerseIdParts, b: VerseIdParts)
    requires Split(t, "-") == [x, y] && DecodeVerseId(x) == Some(a) && DecodeVerseId(y) == Some(b)
    requires a.bookId == b.bookId && a.chapter == b.chapter
    ensures DecodePassageId(t) == Some(PassageIdParts(a.bookId, a.chapter, a.verse, b.verse))
  {
  }

  /**
   * A PassageId decodes to its book, chapter and both ends; a single-verse
   * PassageId (count at most 1) reads back with start == end.
   */
  lemma {:induction false} PassageIdRoundTrip(bookId: string, chapter: int, verseStart: int, verseEnd: int, verseCount: int)
    requires Lacks(bookId, '.') && Lacks(bookId, '-')
    requires chapter >= 0 && verseStart >= 0 && verseEnd >= 0
    ensures DecodePassageId(FormatPassageId(bookId, chapter, verseStart, verseEnd, verseCount))
         == Some(PassageIdParts(bookId, chapter, verseStart, if verseCount > 1 then verseEnd else verseStart))
  {
    var first := FormatVerseId(bookId, chapter, verseStart);
    VerseIdLacksDash(bookId, chapter, verseStart);
    VerseIdRoundTrip(bookId, chapter, verseStart);
    if verseCount > 1 {
      var second := FormatVerseId(bookId, chapter, verseEnd);
      var t := first + "-" + second;
      assert t == first + ['-'] + second;
      assert FormatPassageId(bookId, chapter, verseStart, verseEnd, verseCount) == t;
      VerseIdLacksDash(bookId, chapter, verseEnd);
      VerseIdRoundTrip(bookId, chapter, verseEnd);
      SplitFirst(first, '-', second);
      SplitAbsent(second, '-');
      DecodePair(t, first, second, VerseIdParts(bookId, chapter, verseStart), VerseIdParts(bookId, chapter, verseEnd));
    } else {
      assert FormatPassageId(bookId, chapter, verseStart, verseEnd, verseCount) == first;
      SplitAbsent(first, '-');
      DecodeSingle(first, VerseIdParts(bookId, chapter, verseStart));
    }
  }

  // ---------------------------------------------------------------- the two transforms

  /** After a parse, both identifiers succeed or fail together, with the same error, and agree on the first verse. */
  lemma {:induction false} IdsAgree(books: seq<Book>, parsed: Result<ParsedReference, ParseError>)
    ensures VerseIdOf(books, parsed).Success? <==> PassageIdOf(books, parsed).Success?
    ensures VerseIdOf(books, parsed).Failure? ==> VerseIdOf(books, parsed).error == PassageIdOf(books, parsed).error
    ensures VerseIdOf(books, parsed).Success? ==>
              var v := VerseIdOf(books, parsed).value;
              var p := PassageIdOf(books, parsed).value;
              p == v || (|p| > |v| && p[..|v| + 1] == v + "-")
  {
    if parsed.Success? {
      var found := FindBookIdByBookName(books, parsed.value.fullBookName);
      if found.Success? {
        var r := parsed.value;
        var v := FormatVerseId(found.value, r.chapter, r.verseNumberStart);
        var p := FormatPassageId(found.value, r.chapter, r.verseNumberStart, r.verseNumberEnd, r.verseCount);
        if r.verseCount > 1 {
          var w := FormatVerseId(found.value, r.chapter, r.verseNumberEnd);
          assert p == v + "-" + w;
          assert p[..|v| + 1] == v + "-";
        }
      }
    }
  }

  /** Both transforms accept the same references, fail the same way, and agree on the first verse. */
  lemma {:induction false} TransformsAgree(books: seq<Book>, s: string)
    ensures TransformVerseReferenceToVerseId(books, s).Success? <==> TransformVerseReferenceToPassageId(books, s).Success?
    ensures TransformVerseReferenceToVerseId(books, s).Failure? ==>
              TransformVerseReferenceToVerseId(books, s).error == TransformVerseReferenceToPassageId(books, s).error
    ensures TransformVerseReferenceToVerseId(books, s).Success? ==>
              var v := TransformVerseReferenceToVerseId(books, s).value;
              var p := TransformVerseReferenceToPassageId(books, s).value;
              p == v || (|p| > |v| && p[..|v| + 1] == v + "-")
  {
    IdsAgree(books, Parse(s));
  }

  /** The identifiers of a successful parse: the book's lookup decides, then the parsed numbers are formatted. */
  lemma {:induction false} IdsOfSuccess(books: seq<Book>, parsed: Result<ParsedReference, ParseError>)
    requires parsed.Success?
    ensures var found := FindBookIdByBookName(books, parsed.value.fullBookName);
            var r := parsed.value;
            && (VerseIdOf(books, parsed).Success? <==> found.Success?)
            && (PassageIdOf(books, parsed).Success? <==> found.Success?)
            && (found.Failure? ==> VerseIdOf(books, parsed).error == found.error && PassageIdOf(books, parsed).error == found.error)
            && (found.Success? ==> VerseIdOf(books, parsed).value == FormatVerseId(found.value, r.chapter, r.verseNumberStart))
            && (found.Success? ==> PassageIdOf(books, parsed).value
                                   == FormatPassageId(found.value, r.chapter, r.verseNumberStart, r.verseNumberEnd, r.verseCount))
  {
  }

  /** A well-formed citation becomes the VerseId of its first verse, once its book is found. */
  lemma {:induction false} CitationVerseId(books: seq<Book>, d: Option<char>, name: string, chapter: string, a: string, b: Option<string>)
    requires d.Some? ==> '0' <= d.value <= '2'
    requires |name| > 0 && AllLetters(name)
    requires |chapter| > 0 && AllDigits(chapter) && |a| > 0 && AllDigits(a)
    requires b.Some? ==> |b.value| > 0 && AllDigits(b.value)
    ensures var r := TransformVerseReferenceToVerseId(books, CitationText(d, name, chapter, a, b));
            var found := FindBookIdByBookName(books, CitedFullName(d, name));
            && (r.Success? <==> found.Success?)
            && (found.Failure? ==> r.error == found.error)
            && (found.Success? ==> r.value == FormatVerseId(found.value, DigitsValue(chapter), DigitsValue(a)))
  {
    ParseCitation(d, name, chapter, a, b);
    IdsOfSuccess(books, Parse(CitationText(d, name, chapter, a, b)));
  }

  /** A well-formed citation becomes the PassageId of its verse or verse range, once its book is found. */
  lemma {:induction false} CitationPassageId(books: seq<Book>, d: Option<char>, name: string, chapter: string, a: string, b: Option<string>)
    requires d.Some? ==> '0' <= d.value <= '2'
    requires |name| > 0 && AllLetters(name)
    requires |chapter| > 0 && AllDigits(chapter) && |a| > 0 && AllDigits(a)
    requires b.Some? ==> |b.value| > 0 && AllDigits(b.value)
    ensures var r := TransformVerseReferenceToPassageId(books, CitationText(d, name, chapter, a, b));
            var found := FindBookIdByBookName(books, CitedFullName(d, name));
            && (r.Success? <==> found.Success?)
            && (found.Failure? ==> r.error == found.error)
            && (found.Success? ==> r.value == FormatPassageId(found.value, DigitsValue(chapter), DigitsValue(a),
                                                               LastVerse(a, b), 1 + LastVerse(a, b) - DigitsValue(a)))
  {
    ParseCitation(d, name, chapter, a, b);
    IdsOfSuccess(books, Parse(CitationText(d, name, chapter, a, b)));
  }
}
