/** The request queries the client's unit tests expect, before URL encoding. */
module ApiBibleExamples {
  import opened Wrappers
  import opened JsText
  import opened ApiBible

  /** `KebabTwoWords` for a key given as a whole. */
  lemma {:induction false} TwoWordKey(key: string, w0: string, c1: char, w1: string, out: string)
    requires key == w0 + [c1] + w1
    requires |w0| > 0 && AllAsciiLower(w0) && AllAsciiLower(w1) && IsAsciiUpper(c1)
    requires out == w0 + "-" + [ToLowerCase(c1)] + w1
    ensures Kebab(key) == out
  {
    KebabTwoWords(w0, c1, w1);
  }

  /** `KebabThreeWords` for a key given as a whole. */
  lemma {:induction false} ThreeWordKey(key: string, w0: string, c1: char, w1: string, c2: char, w2: string, out: string)
    requires key == w0 + [c1] + w1 + [c2] + w2
    requires |w0| > 0 && AllAsciiLower(w0) && AllAsciiLower(w1) && AllAsciiLower(w2)
    requires IsAsciiUpper(c1) && IsAsciiUpper(c2)
    requires out == w0 + "-" + [ToLowerCase(c1)] + w1 + "-" + [ToLowerCase(c2)] + w2
    ensures Kebab(key) == out
  {
    KebabThreeWords(w0, c1, w1, c2, w2);
  }

  lemma {:induction false} FullDetailsWords()
    ensures "includeFullDetails" == "include" + ['F'] + "ull" + ['D'] + "etails"
    ensures AllAsciiLower("include") && AllAsciiLower("ull") && AllAsciiLower("etails")
  {
  }

  lemma {:induction false} FullDetailsOut()
    ensures "include-full-details" == "include" + "-" + [ToLowerCase('F')] + "ull" + "-" + [ToLowerCase('D')] + "etails"
  {
  }

  lemma {:induction false} FullDetailsKey()
    ensures Kebab("includeFullDetails") == "include-full-details"
  {
    FullDetailsWords();
    FullDetailsOut();
    ThreeWordKey("includeFullDetails", "include", 'F', "ull", 'D', "etails", "include-full-details");
  }

  /** One approved pair: the converted key and the rendered value. */
  function Row(e: (string, QueryValue)): (string, string) {
    (Kebab(e.0), Render(e.1))
  }

  lemma {:induction false} RenderedOne(e0: (string, QueryValue))
    requires !e0.1.Undefined?
    ensures Rendered([e0]) == [Row(e0)]
  {
    assert [e0][..0] == [];
  }

  lemma {:induction false} RenderedTwo(e0: (string, QueryValue), e1: (string, QueryValue))
    requires !e0.1.Undefined? && !e1.1.Undefined?
    ensures Rendered([e0, e1]) == [Row(e0), Row(e1)]
  {
    assert [e0, e1][..1] == [e0];
    RenderedOne(e0);
  }

  lemma {:induction false} RenderedThree(e0: (string, QueryValue), e1: (string, QueryValue), e2: (string, QueryValue))
    requires !e0.1.Undefined? && !e1.1.Undefined? && !e2.1.Undefined?
    ensures Rendered([e0, e1, e2]) == [Row(e0), Row(e1), Row(e2)]
  {
    assert [e0, e1, e2][..2] == [e0, e1];
    RenderedTwo(e0, e1);
  }

  lemma {:induction false} RenderedFour(e0: (string, QueryValue), e1: (string, QueryValue), e2: (string, QueryValue),
                                        e3: (string, QueryValue))
    requires !e0.1.Undefined? && !e1.1.Undefined? && !e2.1.Undefined? && !e3.1.Undefined?
    ensures Rendered([e0, e1, e2, e3]) == [Row(e0), Row(e1), Row(e2), Row(e3)]
  {
    assert [e0, e1, e2, e3][..3] == [e0, e1, e2];
    RenderedThree(e0, e1, e2);
  }

  lemma {:induction false} RenderedFive(e0: (string, QueryValue), e1: (string, QueryValue), e2: (string, QueryValue),
                                        e3: (string, QueryValue), e4: (string, QueryValue))
    requires !e0.1.Undefined? && !e1.1.Undefined? && !e2.1.Undefined? && !e3.1.Undefined? && !e4.1.Undefined?
    ensures Rendered([e0, e1, e2, e3, e4]) == [Row(e0), Row(e1), Row(e2), Row(e3), Row(e4)]
  {
    assert [e0, e1, e2, e3, e4][..4] == [e0, e1, e2, e3];
    RenderedFour(e0, e1, e2, e3);
  }

  lemma {:induction false} RenderedSix(e0: (string, QueryValue), e1: (string, QueryValue), e2: (string, QueryValue),
                                       e3: (string, QueryValue), e4: (string, QueryValue), e5: (string, QueryValue))
    requires !e0.1.Undefined? && !e1.1.Undefined? && !e2.1.Undefined? && !e3.1.Undefined? && !e4.1.Undefined?
    requires !e5.1.Undefined?
    ensures Rendered([e0, e1, e2, e3, e4, e5]) == [Row(e0), Row(e1), Row(e2), Row(e3), Row(e4), Row(e5)]
  {
    assert [e0, e1, e2, e3, e4, e5][..5] == [e0, e1, e2, e3, e4];
    RenderedFive(e0, e1, e2, e3, e4);
  }

  /** The rows of a seven-property object with no undefined value. */
  lemma {:induction false} RenderedSeven(e0: (string, QueryValue), e1: (string, QueryValue), e2: (string, QueryValue),
                                         e3: (string, QueryValue), e4: (string, QueryValue), e5: (string, QueryValue),
                                         e6: (string, QueryValue))
    requires !e0.1.Undefined? && !e1.1.Undefined? && !e2.1.Undefined? && !e3.1.Undefined? && !e4.1.Undefined?
    requires !e5.1.Undefined? && !e6.1.Undefined?
    ensures Rendered([e0, e1, e2, e3, e4, e5, e6]) == [Row(e0), Row(e1), Row(e2), Row(e3), Row(e4), Row(e5), Row(e6)]
  {
    assert [e0, e1, e2, e3, e4, e5, e6][..6] == [e0, e1, e2, e3, e4, e5];
    RenderedSix(e0, e1, e2, e3, e4, e5);
  }

  /** `RequestShape` with the merged and the converted lists named. */
  lemma {:induction false} QueryOf(defaults: Entries<QueryValue>, options: Entries<QueryValue>,
                                   merged: Entries<QueryValue>, out: Entries<string>)
    requires DistinctKeys(defaults) && DistinctKeys(options)
    requires Overridden(defaults, options) + Extras(defaults, options) == merged
    requires Rendered(merged) == out && DistinctKeys(out)
    ensures Approved(Merge(defaults, options)) == out
  {
    RequestShape(defaults, options);
  }

  /** `DefaultsAlone` with the converted list named. */
  lemma {:induction false} DefaultsQuery(defaults: Entries<QueryValue>, out: Entries<string>)
    requires DistinctKeys(defaults) && Rendered(defaults) == out && DistinctKeys(out)
    ensures Approved(Merge(defaults, [])) == out
  {
    DefaultsAlone(defaults);
  }

  lemma {:induction false} ThreeKeysDistinct<V>(a: string, b: string, c: string, va: V, vb: V, vc: V)
    requires a != b && a != c && b != c
    ensures DistinctKeys([(a, va), (b, vb), (c, vc)])
  {
  }

  /** The seven keys of the verse and passage defaults are distinct, before conversion… */
  lemma {:induction false} CamelVerseKeysDistinct<V>(v0: V, v1: V, v2: V, v3: V, v4: V, v5: V, v6: V)
    ensures DistinctKeys([("contentType", v0), ("includeNotes", v1), ("includeTitles", v2),
                          ("includeChapterNumbers", v3), ("includeVerseNumbers", v4),
                          ("includeVerseSpans", v5), ("useOrgId", v6)])
  {
  }

  /** …and after it. */
  lemma {:induction false} KebabVerseKeysDistinct<V>(v0: V, v1: V, v2: V, v3: V, v4: V, v5: V, v6: V)
    ensures DistinctKeys([("content-type", v0), ("include-notes", v1), ("include-titles", v2),
                          ("include-chapter-numbers", v3), ("include-verse-numbers", v4),
                          ("include-verse-spans", v5), ("use-org-id", v6)])
  {
  }

  /** `getBibles()` sends the two defaults. */
  lemma {:induction false} BiblesWithoutInput()
    ensures BiblesQuery([]) == [("language", "eng"), ("include-full-details", "false")]
    {
    var d := BiblesDefaults;
    assert DistinctKeys(d);
    KebabOneWord("language");
    FullDetailsKey();
    RenderedTwo(d[0], d[1]);
    DefaultsAlone(d);
  }

  /** The input to `getBibles` in the client's unit test. */
  const BiblesInput: Entries<QueryValue> :=
    [("language", Text("eng")), ("ids", Text("de4e12af7f28f599-02,32664dc3288a28df-02")), ("includeFullDetails", Flag(true))]

  lemma {:induction false} BiblesInputOverrides(input: Entries<QueryValue>)
    requires input == BiblesInput
    ensures Overridden(BiblesDefaults, input) == [("language", Text("eng")), ("includeFullDetails", Flag(true))]
  {
    LookupAt(input, "language", 0);
    LookupAt(input, "includeFullDetails", 2);
  }

  lemma {:induction false} BiblesInputExtras(input: Entries<QueryValue>)
    requires input == BiblesInput
    ensures Extras(BiblesDefaults, input) == [input[1]]
  {
    var d := BiblesDefaults;
    LookupAt(d, "language", 0);
    LookupMissing(d, "ids");
    LookupAt(d, "includeFullDetails", 1);
    assert input[..3] == input;
    assert input[..3][..2] == input[..2];
    assert input[..2][..1] == input[..1];
    assert input[..1][..0] == [];
    assert Extras(d, input[..1]) == [];
    assert Extras(d, input[..2]) == [input[1]];
  }

  lemma {:induction false} BiblesInputMerged(input: Entries<QueryValue>, m: Entries<QueryValue>)
    requires input == BiblesInput
    requires m == [("language", Text("eng")), ("includeFullDetails", Flag(true)),
                   ("ids", Text("de4e12af7f28f599-02,32664dc3288a28df-02"))]
    ensures Overridden(BiblesDefaults, input) + Extras(BiblesDefaults, input) == m
  {
    BiblesInputOverrides(input);
    BiblesInputExtras(input);
  }

  lemma {:induction false} BiblesMergedRendered(m: Entries<QueryValue>)
    requires m == [("language", Text("eng")), ("includeFullDetails", Flag(true)),
                   ("ids", Text("de4e12af7f28f599-02,32664dc3288a28df-02"))]
    ensures Rendered(m) == [("language", "eng"), ("include-full-details", "true"),
                            ("ids", "de4e12af7f28f599-02,32664dc3288a28df-02")]
  {
    KebabOneWord("language");
    FullDetailsKey();
    KebabOneWord("ids");
    RenderedThree(m[0], m[1], m[2]);
  }

  /** The test's input overrides `includeFullDetails` in place; `ids` follows the defaults. */
  lemma {:induction false} BiblesWithInput(input: Entries<QueryValue>)
    requires input == BiblesInput
    ensures BiblesQuery(input) == [("language", "eng"), ("include-full-details", "true"),
                                   ("ids", "de4e12af7f28f599-02,32664dc3288a28df-02")]
  {
    var m := [("language", Text("eng")), ("includeFullDetails", Flag(true)),
              ("ids", Text("de4e12af7f28f599-02,32664dc3288a28df-02"))];
    var out := [("language", "eng"), ("include-full-details", "true"), ("ids", "de4e12af7f28f599-02,32664dc3288a28df-02")];
    assert DistinctKeys(BiblesDefaults);
    assert DistinctKeys(input);
    BiblesInputMerged(input, m);
    BiblesMergedRendered(m);
    ThreeKeysDistinct("language", "include-full-details", "ids", "eng", "true", "de4e12af7f28f599-02,32664dc3288a28df-02");
    QueryOf(BiblesDefaults, input, m, out);
  }

  lemma {:induction false} IncludeChaptersWords()
    ensures "includeChapters" == "include" + ['C'] + "hapters"
    ensures AllAsciiLower("include") && AllAsciiLower("hapters")
  {
  }

  lemma {:induction false} IncludeChaptersOut()
    ensures "include-chapters" == "include" + "-" + [ToLowerCase('C')] + "hapters"
  {
  }

  lemma {:induction false} IncludeChaptersKey()
    ensures Kebab("includeChapters") == "include-chapters"
  {
    IncludeChaptersWords();
    IncludeChaptersOut();
    TwoWordKey("includeChapters", "include", 'C', "hapters", "include-chapters");
  }

  lemma {:induction false} ChaptersKeys()
    ensures Kebab("includeChapters") == "include-chapters"
    ensures Kebab("includeChaptersAndSections") == "include-chapters-and-sections"
  {
    IncludeChaptersKey();
    KebabExample("includeChaptersAndSections");
  }

  /** `getBooks` with only a `bibleId`: that goes into the path, and the two defaults are sent. */
  lemma {:induction false} BooksWithoutOptions(input: Entries<QueryValue>)
    requires input == [("bibleId", Text("de4e12af7f28f599-02"))]
    ensures BooksQuery(input) == [("include-chapters", "false"), ("include-chapters-and-sections", "false")]
    {
    var d := BooksDefaults;
    assert Omit(input, ["bibleId"]) == [] by {
      assert input[..0] == [];
    }
    assert DistinctKeys(d);
    ChaptersKeys();
    RenderedTwo(d[0], d[1]);
    DefaultsAlone(d);
  }

  lemma {:induction false} ContentTypeWords()
    ensures "contentType" == "content" + ['T'] + "ype"
    ensures AllAsciiLower("content") && AllAsciiLower("ype")
  {
  }

  lemma {:induction false} ContentTypeOut()
    ensures "content-type" == "content" + "-" + [ToLowerCase('T')] + "ype"
  {
  }

  lemma {:induction false} ContentTypeKey()
    ensures Kebab("contentType") == "content-type"
  {
    ContentTypeWords();
    ContentTypeOut();
    TwoWordKey("contentType", "content", 'T', "ype", "content-type");
  }

  lemma {:induction false} NotesWords()
    ensures "includeNotes" == "include" + ['N'] + "otes"
    ensures AllAsciiLower("include") && AllAsciiLower("otes")
  {
  }

  lemma {:induction false} NotesOut()
    ensures "include-notes" == "include" + "-" + [ToLowerCase('N')] + "otes"
  {
  }

  lemma {:induction false} NotesKey()
    ensures Kebab("includeNotes") == "include-notes"
  {
    NotesWords();
    NotesOut();
    TwoWordKey("includeNotes", "include", 'N', "otes", "include-notes");
  }

  lemma {:induction false} TitlesWords()
    ensures "includeTitles" == "include" + ['T'] + "itles"
    ensures AllAsciiLower("include") && AllAsciiLower("itles")
  {
  }

  lemma {:induction false} TitlesOut()
    ensures "include-titles" == "include" + "-" + [ToLowerCase('T')] + "itles"
  {
  }

  lemma {:induction false} TitlesKey()
    ensures Kebab("includeTitles") == "include-titles"
  {
    TitlesWords();
    TitlesOut();
    TwoWordKey("includeTitles", "include", 'T', "itles", "include-titles");
  }

  lemma {:induction false} ChapterNumbersWords()
    ensures "includeChapterNumbers" == "include" + ['C'] + "hapter" + ['N'] + "umbers"
    ensures AllAsciiLower("include") && AllAsciiLower("hapter") && AllAsciiLower("umbers")
  {
  }

  lemma {:induction false} ChapterNumbersOut()
    ensures "include-chapter-numbers" == "include" + "-" + [ToLowerCase('C')] + "hapter" + "-" + [ToLowerCase('N')] + "umbers"
  {
  }

  lemma {:induction false} ChapterNumbersKey()
    ensures Kebab("includeChapterNumbers") == "include-chapter-numbers"
  {
    ChapterNumbersWords();
    ChapterNumbersOut();
    ThreeWordKey("includeChapterNumbers", "include", 'C', "hapter", 'N', "umbers", "include-chapter-numbers");
  }

  lemma {:induction false} VerseNumbersWords()
    ensures "includeVerseNumbers" == "include" + ['V'] + "erse" + ['N'] + "umbers"
    ensures AllAsciiLower("include") && AllAsciiLower("erse") && AllAsciiLower("umbers")
  {
  }

  lemma {:induction false} VerseNumbersOut()
    ensures "include-verse-numbers" == "include" + "-" + [ToLowerCase('V')] + "erse" + "-" + [ToLowerCase('N')] + "umbers"
  {
  }

  lemma {:induction false} VerseNumbersKey()
    ensures Kebab("includeVerseNumbers") == "include-verse-numbers"
  {
    VerseNumbersWords();
    VerseNumbersOut();
    ThreeWordKey("includeVerseNumbers", "include", 'V', "erse", 'N', "umbers", "include-verse-numbers");
  }

  lemma {:induction false} VerseSpansWords()
    ensures "includeVerseSpans" == "include" + ['V'] + "erse" + ['S'] + "pans"
    ensures AllAsciiLower("include") && AllAsciiLower("erse") && AllAsciiLower("pans")
  {
  }

  lemma {:induction false} VerseSpansOut()
    ensures "include-verse-spans" == "include" + "-" + [ToLowerCase('V')] + "erse" + "-" + [ToLowerCase('S')] + "pans"
  {
  }

  lemma {:induction false} VerseSpansKey()
    ensures Kebab("includeVerseSpans") == "include-verse-spans"
  {
    VerseSpansWords();
    VerseSpansOut();
    ThreeWordKey("includeVerseSpans", "include", 'V', "erse", 'S', "pans", "include-verse-spans");
  }

  lemma {:induction false} OrgIdWords()
    ensures "useOrgId" == "use" + ['O'] + "rg" + ['I'] + "d"
    ensures AllAsciiLower("use") && AllAsciiLower("rg") && AllAsciiLower("d")
  {
  }

  lemma {:induction false} OrgIdOut()
    ensures "use-org-id" == "use" + "-" + [ToLowerCase('O')] + "rg" + "-" + [ToLowerCase('I')] + "d"
  {
  }

  lemma {:induction false} OrgIdKey()
    ensures Kebab("useOrgId") == "use-org-id"
  {
    OrgIdWords();
    OrgIdOut();
    ThreeWordKey("useOrgId", "use", 'O', "rg", 'I', "d", "use-org-id");
  }

  lemma {:induction false} VerseKeys()
    ensures Kebab("contentType") == "content-type"
    ensures Kebab("includeNotes") == "include-notes"
    ensures Kebab("includeTitles") == "include-titles"
    ensures Kebab("includeChapterNumbers") == "include-chapter-numbers"
    ensures Kebab("includeVerseNumbers") == "include-verse-numbers"
    ensures Kebab("includeVerseSpans") == "include-verse-spans"
    ensures Kebab("useOrgId") == "use-org-id"
  {
    ContentTypeKey();
    NotesKey();
    TitlesKey();
    ChapterNumbersKey();
    VerseNumbersKey();
    VerseSpansKey();
    OrgIdKey();
  }

  /** The input to `getVerse` in the client's unit test. */
  const VerseInput: Entries<QueryValue> :=
    [("bibleId", Text("de4e12af7f28f599-02")), ("verseId", Text("1JN.1.9")),
     ("contentType", Text("html")), ("includeNotes", Flag(true))]

  lemma {:induction false} VerseInputOptions(input: Entries<QueryValue>)
    requires input == VerseInput
    ensures Omit(input, ["bibleId", "verseId"]) == [("contentType", Text("html")), ("includeNotes", Flag(true))]
  {
    var names := ["bibleId", "verseId"];
    assert input[..4] == input;
    assert input[..4][..3] == input[..3];
    assert input[..3][..2] == input[..2];
    assert input[..2][..1] == input[..1];
    assert input[..1][..0] == [];
    assert Omit(input[..1], names) == [];
    assert Omit(input[..2], names) == [];
    assert Omit(input[..3], names) == [input[2]];
  }

  lemma {:induction false} VerseInputMerge(options: Entries<QueryValue>)
    requires options == [("contentType", Text("html")), ("includeNotes", Flag(true))]
    ensures Overridden(VerseDefaults, options) + Extras(VerseDefaults, options) ==
              [("contentType", Text("html")), ("includeNotes", Flag(true)), ("includeTitles", Flag(false)),
               ("includeChapterNumbers", Flag(false)), ("includeVerseNumbers", Flag(false)),
               ("includeVerseSpans", Flag(false)), ("useOrgId", Flag(false))]
  {
    var d := VerseDefaults;
    LookupAt(options, "contentType", 0);
    LookupAt(options, "includeNotes", 1);
    LookupMissing(options, "includeTitles");
    LookupMissing(options, "includeChapterNumbers");
    LookupMissing(options, "includeVerseNumbers");
    LookupMissing(options, "includeVerseSpans");
    LookupMissing(options, "useOrgId");
    LookupAt(d, "contentType", 0);
    LookupAt(d, "includeNotes", 1);
    assert options[..2] == options && options[..2][..1] == options[..1] && options[..1][..0] == [];
    assert Extras(d, options[..1]) == [];
    assert Extras(d, options) == [];
  }

  lemma {:induction false} VerseMergedRendered(m: Entries<QueryValue>)
    requires m == [("contentType", Text("html")), ("includeNotes", Flag(true)), ("includeTitles", Flag(false)),
                   ("includeChapterNumbers", Flag(false)), ("includeVerseNumbers", Flag(false)),
                   ("includeVerseSpans", Flag(false)), ("useOrgId", Flag(false))]
    ensures Rendered(m) ==
              [("content-type", "html"), ("include-notes", "true"), ("include-titles", "false"),
               ("include-chapter-numbers", "false"), ("include-verse-numbers", "false"),
               ("include-verse-spans", "false"), ("use-org-id", "false")]
    {
    VerseKeys();
    RenderedSeven(m[0], m[1], m[2], m[3], m[4], m[5], m[6]);
  }

  /** `contentType` and `includeNotes` replace their defaults in place; the other defaults follow. */
  lemma {:induction false} VerseWithOptions(input: Entries<QueryValue>)
    requires input == VerseInput
    ensures VerseQuery(input) ==
              [("content-type", "html"), ("include-notes", "true"), ("include-titles", "false"),
               ("include-chapter-numbers", "false"), ("include-verse-numbers", "false"),
               ("include-verse-spans", "false"), ("use-org-id", "false")]
  {
    var options := [("contentType", Text("html")), ("includeNotes", Flag(true))];
    var m := [("contentType", Text("html")), ("includeNotes", Flag(true)), ("includeTitles", Flag(false)),
              ("includeChapterNumbers", Flag(false)), ("includeVerseNumbers", Flag(false)),
              ("includeVerseSpans", Flag(false)), ("useOrgId", Flag(false))];
    VerseInputOptions(input);
    CamelVerseKeysDistinct(Text("json"), Flag(false), Flag(false), Flag(false), Flag(false), Flag(false), Flag(false));
    assert DistinctKeys(options);
    VerseInputMerge(options);
    VerseMergedRendered(m);
    KebabVerseKeysDistinct("html", "true", "false", "false", "false", "false", "false");
    QueryOf(VerseDefaults, options, m,
            [("content-type", "html"), ("include-notes", "true"), ("include-titles", "false"),
             ("include-chapter-numbers", "false"), ("include-verse-numbers", "false"),
             ("include-verse-spans", "false"), ("use-org-id", "false")]);
  }

  /** The input to `searchForVerses` in the client's unit test. */
  const SearchInput: Entries<QueryValue> :=
    [("bibleId", Text("de4e12af7f28f599-02")), ("query", Text("John 3")), ("limit", Number(3)), ("sort", Text("canonical"))]

  lemma {:induction false} SearchInputOptions(input: Entries<QueryValue>)
    requires input == SearchInput
    ensures Omit(input, ["bibleId"]) == [input[1], input[2], input[3]]
  {
    var names := ["bibleId"];
    assert input[..4] == input;
    assert input[..4][..3] == input[..3];
    assert input[..3][..2] == input[..2];
    assert input[..2][..1] == input[..1];
    assert input[..1][..0] == [];
    assert Omit(input[..1], names) == [];
    assert Omit(input[..2], names) == [input[1]];
    assert Omit(input[..3], names) == [input[1], input[2]];
  }

  lemma {:induction false} LimitRendered()
    ensures Render(Number(3)) == "3"
  {
  }

  lemma {:induction false} SearchOptionsRendered(options: Entries<QueryValue>)
    requires options == [("query", Text("John 3")), ("limit", Number(3)), ("sort", Text("canonical"))]
    ensures Rendered(options) == [("query", "John 3"), ("limit", "3"), ("sort", "canonical")]
  {
    KebabOneWord("query");
    KebabOneWord("limit");
    KebabOneWord("sort");
    LimitRendered();
    RenderedThree(options[0], options[1], options[2]);
  }

  /** No defaults: exactly the supplied options, in input order. */
  lemma {:induction false} SearchWithOptions(input: Entries<QueryValue>)
    requires input == SearchInput
    ensures SearchQuery(input) == [("query", "John 3"), ("limit", "3"), ("sort", "canonical")]
  {
    var options := Omit(input, ["bibleId"]);
    SearchInputOptions(input);
    SearchOptionsRendered(options);
    ApprovedShape(options);
  }

  lemma {:induction false} PassageDefaultsRendered(d: Entries<QueryValue>)
    requires d == PassageDefaults
    ensures Rendered(d) ==
              [("content-type", "json"), ("include-notes", "false"), ("include-titles", "true"),
               ("include-chapter-numbers", "false"), ("include-verse-numbers", "true"),
               ("include-verse-spans", "false"), ("use-org-id", "false")]
    {
    VerseKeys();
    RenderedSeven(d[0], d[1], d[2], d[3], d[4], d[5], d[6]);
  }

  lemma {:induction false} PassageInputOmitted(input: Entries<QueryValue>)
    requires input == [("bibleId", Text("de4e12af7f28f599-02")), ("passageId", Text("PSA.23.1-PSA.23.6"))]
    ensures Omit(input, ["bibleId", "passageId"]) == []
  {
    var names := ["bibleId", "passageId"];
    assert input[..2] == input && input[..2][..1] == input[..1] && input[..1][..0] == [];
    assert Omit(input[..1], names) == [];
  }

  /** `getPassage` with only its path parameters: the passage defaults, with titles and verse numbers on. */
  lemma {:induction false} PassageWithoutOptions(input: Entries<QueryValue>)
    requires input == [("bibleId", Text("de4e12af7f28f599-02")), ("passageId", Text("PSA.23.1-PSA.23.6"))]
    ensures PassageQuery(input) ==
              [("content-type", "json"), ("include-notes", "false"), ("include-titles", "true"),
               ("include-chapter-numbers", "false"), ("include-verse-numbers", "true"),
               ("include-verse-spans", "false"), ("use-org-id", "false")]
  {
    PassageInputOmitted(input);
    CamelVerseKeysDistinct(Text("json"), Flag(false), Flag(true), Flag(false), Flag(true), Flag(false), Flag(false));
    PassageDefaultsRendered(PassageDefaults);
    KebabVerseKeysDistinct("json", "false", "true", "false", "true", "false", "false");
    DefaultsQuery(PassageDefaults,
                  [("content-type", "json"), ("include-notes", "false"), ("include-titles", "true"),
                   ("include-chapter-numbers", "false"), ("include-verse-numbers", "true"),
                   ("include-verse-spans", "false"), ("use-org-id", "false")]);
  }
}
