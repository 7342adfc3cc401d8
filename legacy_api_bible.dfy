/**
 * The older API.Bible client. Its key conversion maps over `split("")`
 * instead of the spread characters, and its loop fills the approved
 * parameters the same way; both are proved to agree with the newer client.
 * `getBibles` and `searchForVerses` apply no defaults here.
 */
module LegacyApiBible {
  import opened Wrappers
  import opened JsText
  import opened ApiBible

  /** `camelCaseToKebabCase` over `split("")`, with the pieces joined by `join("")`. */
  function LegacyKebab(s: string): string {
    Join(seq(|s|, i requires 0 <= i < |s| =>
           if ToUpperCase(s[i]) == s[i] then (if i != 0 then "-" else "") + [ToLowerCase(s[i])] else [s[i]]), "")
  }

  lemma {:induction false} JoinNothingSnoc(parts: seq<string>, x: string)
    ensures Join(parts + [x], "") == Join(parts, "") + x
    decreases |parts|
  {
    if |parts| == 1 {
      assert parts + [x] == [parts[0], x];
      assert Join([x], "") == x;
    } else if |parts| > 1 {
      assert (parts + [x])[1..] == parts[1..] + [x];
      JoinNothingSnoc(parts[1..], x);
    }
  }

  /** Both clients compute the same kebab-case key. */
  lemma {:induction false} LegacyKebabAgrees(s: string)
    ensures LegacyKebab(s) == Kebab(s)
    decreases |s|
  {
    if |s| > 0 {
      var init := s[..|s| - 1];
      LegacyKebabAgrees(init);
      var f := i requires 0 <= i < |s| =>
        if ToUpperCase(s[i]) == s[i] then (if i != 0 then "-" else "") + [ToLowerCase(s[i])] else [s[i]];
      var g := i requires 0 <= i < |init| =>
        if ToUpperCase(init[i]) == init[i] then (if i != 0 then "-" else "") + [ToLowerCase(init[i])] else [init[i]];
      assert seq(|s|, f) == seq(|init|, g) + [KebabPiece(s[|s| - 1], |s| - 1)];
      JoinNothingSnoc(seq(|init|, g), KebabPiece(s[|s| - 1], |s| - 1));
    }
  }

  /** `getQueryStringFromObject` of this client, up to the `URLSearchParams` serialisation. */
  method QueryParameters(params: Entries<QueryValue>) returns (approvedParams: Entries<string>)
    ensures approvedParams == Approved(params)
  {
    approvedParams := [];
    var i := 0;
    while i < |params|
      invariant i <= |params|
      invariant approvedParams == Approved(params[..i])
    {
      var (key, value) := params[i];
      assert params[..i + 1][..i] == params[..i];
      if !value.Undefined? {
        var kebabCaseKey := LegacyKebab(key);
        LegacyKebabAgrees(key);
        approvedParams := Assign(approvedParams, kebabCaseKey, Render(value));
      }
      i := i + 1;
    }
    assert params[..|params|] == params;
  }

  const VerseDefaults: Entries<QueryValue> :=
    [("contentType", Text("json")), ("includeNotes", Flag(false)), ("includeTitles", Flag(false)),
     ("includeChapterNumbers", Flag(false)), ("includeVerseNumbers", Flag(false)),
     ("includeVerseSpans", Flag(false)), ("useOrgId", Flag(false))]

  /** `getBibles`: the input alone. */
  function BiblesQuery(input: Entries<QueryValue>): Entries<string> {
    Approved(input)
  }

  /** `getVerse`: the path parameters removed, the rest over the defaults. */
  function VerseQuery(input: Entries<QueryValue>): Entries<string> {
    Approved(Merge(VerseDefaults, Omit(input, ["bibleId", "verseId"])))
  }

  /** `searchForVerses`: the input without `bibleId`. */
  function SearchQuery(input: Entries<QueryValue>): Entries<string> {
    Approved(Omit(input, ["bibleId"]))
  }

  /** Whatever the input, the keys sent are exactly the converted keys of its defined properties, each once. */
  lemma {:induction false} BiblesKeys(input: Entries<QueryValue>, k: string)
    ensures KeyIndex(BiblesQuery(input), k) >= 0 <==> HasDefinedKey(input, k)
    ensures DistinctKeys(BiblesQuery(input))
  {
    ApprovedKeys(input, k);
  }
}

/** The queries the older client's unit tests expect, before URL encoding. */
module LegacyApiBibleExamples {
  import opened Wrappers
  import opened JsText
  import opened ApiBible
  import opened ApiBibleExamples
  import LegacyApiBible

  /** `getBibles()` sends no query at all. */
  lemma {:induction false} BiblesWithoutInput()
    ensures LegacyApiBible.BiblesQuery([]) == []
  {
  }

  const BiblesInput: Entries<QueryValue> :=
    [("language", Text("eng")), ("ids", List(["de4e12af7f28f599-02", "32664dc3288a28df-02"])),
     ("includeFullDetails", Flag(true))]

  lemma {:induction false} IdsRendered(v: QueryValue)
    requires v == List(["de4e12af7f28f599-02", "32664dc3288a28df-02"])
    ensures Render(v) == "de4e12af7f28f599-02,32664dc3288a28df-02"
  {
    var items := ["de4e12af7f28f599-02", "32664dc3288a28df-02"];
    assert items[1..] == ["32664dc3288a28df-02"];
  }

  lemma {:induction false} BiblesInputRendered(input: Entries<QueryValue>)
    requires input == BiblesInput
    ensures Rendered(input) ==
              [("language", "eng"), ("ids", "de4e12af7f28f599-02,32664dc3288a28df-02"), ("include-full-details", "true")]
  {
    IdsRendered(input[1].1);
    KebabOneWord("language");
    KebabOneWord("ids");
    FullDetailsKey();
    RenderedThree(input[0], input[1], input[2]);
  }

  /** An array is sent as its items joined with commas, and the keys follow the input order. */
  lemma {:induction false} BiblesWithInput(input: Entries<QueryValue>)
    requires input == BiblesInput
    ensures LegacyApiBible.BiblesQuery(input) ==
              [("language", "eng"), ("ids", "de4e12af7f28f599-02,32664dc3288a28df-02"), ("include-full-details", "true")]
  {
    BiblesInputRendered(input);
    ThreeKeysDistinct("language", "ids", "include-full-details", "eng", "de4e12af7f28f599-02,32664dc3288a28df-02", "true");
    ApprovedShape(input);
  }

  lemma {:induction false} VerseInputOmitted(input: Entries<QueryValue>)
    requires input == [("bibleId", Text("de4e12af7f28f599-02")), ("verseId", Text("1JN.1.9"))]
    ensures Omit(input, ["bibleId", "verseId"]) == []
  {
    var names := ["bibleId", "verseId"];
    assert input[..2] == input && input[..2][..1] == input[..1] && input[..1][..0] == [];
    assert Omit(input[..1], names) == [];
  }

  lemma {:induction false} VerseDefaultsRendered(d: Entries<QueryValue>)
    requires d == LegacyApiBible.VerseDefaults
    ensures Rendered(d) ==
              [("content-type", "json"), ("include-notes", "false"), ("include-titles", "false"),
               ("include-chapter-numbers", "false"), ("include-verse-numbers", "false"),
               ("include-verse-spans", "false"), ("use-org-id", "false")]
  {
    VerseKeys();
    RenderedSeven(d[0], d[1], d[2], d[3], d[4], d[5], d[6]);
  }

  /** Default values only. */
  lemma {:induction false} VerseWithoutOptions(input: Entries<QueryValue>)
    requires input == [("bibleId", Text("de4e12af7f28f599-02")), ("verseId", Text("1JN.1.9"))]
    ensures LegacyApiBible.VerseQuery(input) ==
              [("content-type", "json"), ("include-notes", "false"), ("include-titles", "false"),
               ("include-chapter-numbers", "false"), ("include-verse-numbers", "false"),
               ("include-verse-spans", "false"), ("use-org-id", "false")]
  {
    VerseInputOmitted(input);
    CamelVerseKeysDistinct(Text("json"), Flag(false), Flag(false), Flag(false), Flag(false), Flag(false), Flag(false));
    VerseDefaultsRendered(LegacyApiBible.VerseDefaults);
    KebabVerseKeysDistinct("json", "false", "false", "false", "false", "false", "false");
    DefaultsQuery(LegacyApiBible.VerseDefaults,
                  [("content-type", "json"), ("include-notes", "false"), ("include-titles", "false"),
                   ("include-chapter-numbers", "false"), ("include-verse-numbers", "false"),
                   ("include-verse-spans", "false"), ("use-org-id", "false")]);
  }

  /** Overridden defaults keep their positions, as in the newer client. */
  lemma {:induction false} VerseWithOptions(input: Entries<QueryValue>)
    requires input == VerseInput
    ensures LegacyApiBible.VerseQuery(input) ==
              [("content-type", "html"), ("include-notes", "true"), ("include-titles", "false"),
               ("include-chapter-numbers", "false"), ("include-verse-numbers", "false"),
               ("include-verse-spans", "false"), ("use-org-id", "false")]
  {
    assert LegacyApiBible.VerseDefaults == ApiBible.VerseDefaults;
    ApiBibleExamples.VerseWithOptions(input);
  }

  /** Only `bibleId`: nothing is left to send. */
  lemma {:induction false} SearchOnlyBibleId(input: Entries<QueryValue>)
    requires input == [("bibleId", Text("de4e12af7f28f599-02"))]
    ensures LegacyApiBible.SearchQuery(input) == []
  {
    assert input[..1][..0] == [] && input[..1] == input;
    assert Omit(input, ["bibleId"]) == [];
  }
}
