# Memorize Bible Verses API server: a verified model of its core

The server answers requests for Bible verses on behalf of a memorisation app.
Its core turns a citation such as `2 Corinthians 5:17` or `Psalm 23:1-6` into
the identifiers API.Bible expects (`2CO.5.17`, `PSA.23.1-PSA.23.6`). It builds
the query parameters of its two API.Bible clients. It keeps a small cache where
entries expire, and it assembles the message of a failed request. It picks the
verse of the day, and a report task counts a list's verses by testament and by
book category.

This project models that core in Dafny and proves what each piece promises.

- `wrappers.dfy` (`Wrappers`): `Option` and `Result`.
- `js_text.dfy` (`JsText`): the JavaScript string primitives the code relies on.
  - `charAt`, `trim`, `indexOf`, `split`, `join`;
  - the number of occurrences `match(/c/g)` counts;
  - `Number()` of a string;
  - `${n}` of an integer.
- `verse_reference.dfy` (`VerseReference`): `parseVerseReferenceIntoParts` as a chain of stages, each with its own error. It also holds the book lookup and the two transforms.
  - Book number.
  - Book name.
  - Separator.
  - Chapter and verses.
  - Result object.
- `verse_reference_properties.dfy`: two modules of proofs.
  - `VerseReferenceProperties`: what a well-formed citation parses to.
  - `VerseReferenceFailures`: exactly which inputs raise which error.
- `verse_ids.dfy` (`VerseIds`): decoders for `VerseId` and `PassageId`, the round trips through them, and the agreement of the two transforms.
- `verse_reference_examples.dfy` (`VerseReferenceExamples`): the behaviour the unit tests of `bibleVerseReferenceHelper.ts` expect, proved on the model.
- `expiring_cache.dfy` (`ExpiringCache`): the `Cache` class. Its `store` map is updated in place by `Get` and `Set`. The current time is a parameter.
- `api_bible.dfy` (`ApiBible`): for the newer client:
  - objects as ordered entry lists;
  - `{ ...defaults, ...input }`;
  - the camelCase to kebab-case conversion;
  - the loop of `getQueryStringFromObject`;
  - the five request builders.

  `api_bible_examples.dfy` (`ApiBibleExamples`) proves the queries the client's tests expect.
- `legacy_api_bible.dfy` (`LegacyApiBible`, `LegacyApiBibleExamples`): the older client. Its own kebab-case function is proved equal to the newer one on strings without characters above U+FFFF. Its query loop and its request builders are modelled, with their examples.
- `http_error.dfy` (`HttpErrors`): the message of an `HTTPError`.
- `verse_of_the_day.dfy` (`VerseOfTheDay`): the year check, the list choice and the day index.
- `legacy_verse_of_the_day.dfy` (`LegacyVerseOfTheDay`): the older single list, which wraps around once.
- `verse_report.dfy` (`VerseOfTheDayReport`): the counting loops of the report, as methods proved against recursive tallies.

Four behaviours of the code are modelled as written:
- The book-number check accepts the keys of the array `["1", "2", "3"]`. Those keys are `"0"`, `"1"` and `"2"`, so a leading `3` is rejected and a leading `0` is accepted. A `0` is falsy, so the full book name then has no number.
- The book name is the first run of ASCII letters. For a multi-word name such as "Song of Solomon 3:16", the book name is `Song` and the chapter text is `of Solomon 3`, so the parse fails with "Chapter must be a number".
- A day past the end of the verse-of-the-day list makes the code read `.verse` of `undefined`, which throws a TypeError. The model gives the error `MissingEntry`.
- In the report, the testament counter fails when a verse's book is in neither list. The category counter never fails on a book, only when a parse fails.

## Model

| member | source | states |
|---|---|---|
| JsText.Trim | src/bibleVerseReferenceHelper.ts:27-29 | `trim()` removes exactly the leading and trailing JavaScript whitespace: the result is a slice of the input, starts and ends with non-whitespace, and only whitespace was cut |
| JsText.TrimIdempotent | src/bibleVerseReferenceHelper.ts:53-55 | trimming twice is trimming once |
| JsText.IndexOf | src/bibleVerseReferenceHelper.ts:45 | `indexOf` gives the first position at which the text occurs, or -1 when it occurs nowhere |
| JsText.SplitJoin | src/bibleVerseReferenceHelper.ts:63 | joining the pieces of `split(sep)` with `sep` gives the string back |
| JsText.SplitHasSecond | src/bibleVerseReferenceHelper.ts:53-54 | `split(sep)` has a second piece exactly when the separator occurs |
| JsText.SplitCharCount | src/bibleVerseReferenceHelper.ts:57-63 | splitting on one character gives one more piece than the character's occurrences |
| JsText.IntToStringRoundTrip | src/bibleVerseReferenceHelper.ts:100 | `Number` reads back the integer `${n}` writes |
| JsText.NumberOfDigits | src/bibleVerseReferenceHelper.ts:68-77 | `Number` of a non-empty digit string is its decimal value |
| JsText.NumberOf | src/bibleVerseReferenceHelper.ts:21 | `Number()` of a string, when an integer; no contract of its own: `JsText.IntToStringRoundTrip`, `JsText.NumberOfDigits` and `VerseReference.IntegerFirstChar` state what it reads |
| JsText.Split | src/bibleVerseReferenceHelper.ts:57-63 | `split(sep)` has at least one piece; `JsText.SplitJoin`, `JsText.SplitHasSecond` and `JsText.SplitCharCount` state the rest |
| JsText.MissingCharNotIncluded | src/bibleVerseReferenceHelper.ts:53-55 | a string does not occur in a text that lacks one of its characters, so `split` finds no second occurrence of the book name there |
| VerseReference.ArrayKeys | src/bibleVerseReferenceHelper.ts:26 | `Object.keys` of an array gives one key per element, a digit string that `Number` reads back as the element's index, so no two keys are equal |
| VerseReference.BookNumberKeys | src/bibleVerseReferenceHelper.ts:26 | the keys of `["1", "2", "3"]` are `"0"`, `"1"`, `"2"` |
| VerseReference.IntegerFirstChar | src/bibleVerseReferenceHelper.ts:21 | `Number.isInteger(Number(charAt(0)))` holds exactly for a digit, JavaScript whitespace or the empty input |
| VerseReference.MatchLetters | src/bibleVerseReferenceHelper.ts:37-42 | `/[a-zA-Z]+/` finds nothing exactly when the text has no ASCII letter; otherwise it finds the first maximal run of letters, which is also where `indexOf` finds it |
| VerseReference.ParseChapterAndVerses | src/bibleVerseReferenceHelper.ts:57-77 | only the colon, chapter and verse errors come from this stage, and the colon error comes exactly when the text does not hold exactly one colon |
| VerseReference.Parse | src/bibleVerseReferenceHelper.ts:14-90 | no contract of its own: the `VerseReferenceFailures` lemmas state which inputs give which error and what a success holds, and `VerseReferenceProperties.ParseCitation` what a well-formed citation parses to |
| VerseReference.NormalizeBookName | src/bibleVerseReferenceHelper.ts:125-130 | no contract of its own: `VerseReferenceProperties.PsalmAlias` and `VerseReferenceExamples.PsalmLookup` state its one alias |
| VerseReference.FindBookIdByBookName | src/bibleVerseReferenceHelper.ts:125-142 | the lookup fails, quoting the un-normalised name, exactly when no table entry has the normalised name; otherwise it gives the id of the first such entry |
| VerseReference.FormatVerseId | src/bibleVerseReferenceHelper.ts:100 | no contract of its own: `VerseIds.VerseIdRoundTrip` and `VerseIds.VerseIdInjective` state that it can be decoded and is injective |
| VerseReference.FormatPassageId | src/bibleVerseReferenceHelper.ts:116-122 | no contract of its own: `VerseIds.PassageIdRoundTrip` states what it decodes to |
| VerseReference.TransformVerseReferenceToVerseId | src/bibleVerseReferenceHelper.ts:92-102 | no contract of its own: `VerseIds.TransformsAgree` and `VerseIds.CitationVerseId` state its result |
| VerseReference.TransformVerseReferenceToPassageId | src/bibleVerseReferenceHelper.ts:104-123 | no contract of its own: `VerseIds.TransformsAgree` and `VerseIds.CitationPassageId` state its result |
| VerseReferenceFailures.StripCases | src/bibleVerseReferenceHelper.ts:17-34 | every outcome of the book-number stage follows from the first two characters: the separator error, the invalid-number error quoting the character, or a stripped remainder |
| VerseReferenceFailures.StripWithNumber | src/bibleVerseReferenceHelper.ts:26-30 | after `0`, `1` or `2` and a space, the digit is the book number and the trimmed remainder is kept |
| VerseReferenceFailures.ParseStripFailure | src/bibleVerseReferenceHelper.ts:21-34 | a failing book-number stage is the parse's result: no later stage runs |
| VerseReferenceFailures.MissingBookNumberSeparatorIff | src/bibleVerseReferenceHelper.ts:21-24 | the parse fails with "Book number must be a single digit followed by a space" exactly when the first character (or its absence) reads as an integer and the second is not a space |
| VerseReferenceFailures.InvalidBookNumberIff | src/bibleVerseReferenceHelper.ts:26-33 | the parse fails with `Invalid book number` exactly when a digit or blank and a space lead and the digit is not 0, 1 or 2, and the error quotes that character |
| VerseReferenceFailures.BookNameNotFoundIff | src/bibleVerseReferenceHelper.ts:37-41 | the parse fails with "Failed to parse book name out of the verse reference" exactly when the text left after the book number holds no ASCII letter |
| VerseReferenceFailures.MissingBookChapterSeparatorIff | src/bibleVerseReferenceHelper.ts:45-50 | without a book number, the separator error comes exactly when the character after the first letter run is not a space |
| VerseReferenceFailures.NameStage | src/bibleVerseReferenceHelper.ts:36-55 | from the book name on: the name error comes exactly when no name was found, the separator error exactly when the character after the full name's first occurrence is not a space, any failure is one of the five later errors, and a success carries the name, the number, the full name and a count of `1 + end - start` |
| VerseReferenceFailures.ParseLaterFailures | src/bibleVerseReferenceHelper.ts:36-77 | once the book number is through, only the later five errors can come, and the name error exactly when no letter is left |
| VerseReferenceFailures.ParseSuccessParts | src/bibleVerseReferenceHelper.ts:81-89 | a successful parse has the name the letter match found, the number the book-number stage found, the full name built from both, and `verseCount == 1 + verseNumberEnd - verseNumberStart` |
| VerseReferenceFailures.ParsedBookNumber | src/bibleVerseReferenceHelper.ts:17-34 | a book number is recorded exactly when `0`, `1` or `2` and a space lead, and its value is that digit; otherwise the input is kept whole |
| VerseReferenceFailures.ParsedReferenceFacts | src/bibleVerseReferenceHelper.ts:14-90 | every successful parse has a non-empty all-letter book name, its full name, the verse count, and the book number decided by the first two characters |
| VerseReferenceProperties.ParseThroughStages | src/bibleVerseReferenceHelper.ts:14-90 | the parse is the composition of its stages |
| VerseReferenceProperties.PsalmAlias | src/bibleVerseReferenceHelper.ts:125-141 | in every book table, `Psalm` is found exactly when `Psalms` is, and then with the same id |
| VerseReferenceProperties.ParseNamedReference | src/bibleVerseReferenceHelper.ts:36-55 | `<name> <rest>` without a book number parses the chapter and verses from the trimmed rest |
| VerseReferenceProperties.ParseNumberedReference | src/bibleVerseReferenceHelper.ts:26-55 | `<d> <name> <rest>` with d in 0..2 records the digit, prefixes it to the full name unless it is 0, and parses the trimmed rest |
| VerseReferenceProperties.ColonStage | src/bibleVerseReferenceHelper.ts:57-66 | with one colon, the chapter is the text before it and the verses the text after |
| VerseReferenceProperties.ParseSingleVerse | src/bibleVerseReferenceHelper.ts:63-77 | one verse: the chapter is checked before the verse, and start equals end |
| VerseReferenceProperties.ParseVerseRange | src/bibleVerseReferenceHelper.ts:63-77 | a range `a-b`: the chapter is checked first, then both ends, and there is no check that the end is not below the start |
| VerseReferenceProperties.CitationNumbers | src/bibleVerseReferenceHelper.ts:57-77 | a digits-only chapter and verse or range yields their decimal values |
| VerseReferenceProperties.CitationAssembles | src/bibleVerseReferenceHelper.ts:79-89 | a citation whose tail parses yields the object with the cited full name, name, number, numbers and count |
| VerseReferenceProperties.ParseCitation | src/bibleVerseReferenceHelper.ts:14-90 | every well-formed citation (optional `0`-`2` book number, letters, digits, `:`, a verse or range) parses into exactly its parts, with `verseCount == 1 + end - start` |
| VerseReferenceProperties.CitationParses | src/bibleVerseReferenceHelper.ts:14-90 | the same, as one equality with the expected object |
| VerseIds.DecodeVerseId | src/bibleVerseReferenceHelper.ts:3 | a decoded `VerseId` has exactly three dot-separated fields, the first being the book id |
| VerseIds.DecodePassageId | src/bibleVerseReferenceHelper.ts:4 | a decoded `PassageId` is one `VerseId` or two joined by a dash |
| VerseIds.VerseIdRoundTrip | src/bibleVerseReferenceHelper.ts:100 | a `VerseId` decodes to the book id, chapter and verse it was formatted from |
| VerseIds.VerseIdInjective | src/bibleVerseReferenceHelper.ts:100 | two `VerseId`s of dot-free book ids are equal exactly when their parts are |
| VerseIds.PassageIdRoundTrip | src/bibleVerseReferenceHelper.ts:116-122 | a `PassageId` decodes to its book, chapter and first verse, and to the last verse exactly when `verseCount > 1`, else to the first again |
| VerseIds.IdsOfSuccess | src/bibleVerseReferenceHelper.ts:95-122 | after a parse, the book lookup decides both identifiers: a failed lookup is their error, otherwise they are the formatted ids of the parsed numbers |
| VerseIds.IdsAgree | src/bibleVerseReferenceHelper.ts:92-123 | after any parse, both identifiers succeed or fail together with the same error, and the passage id is the verse id or starts with it and a dash |
| VerseIds.TransformsAgree | src/bibleVerseReferenceHelper.ts:92-123 | the same about both transforms on any input string |
| VerseIds.CitationVerseId | src/bibleVerseReferenceHelper.ts:92-102 | a well-formed citation becomes the `VerseId` of its first verse, even for a range, once its book is found |
| VerseIds.CitationPassageId | src/bibleVerseReferenceHelper.ts:104-123 | a well-formed citation becomes the `PassageId` of its verse or range once its book is found |
| VerseReferenceExamples.GalatiansExample | src/bibleVerseReferenceHelper.ts:79-89 | `Galatians 2:20` parses to chapter 2, verses 20 to 20, count 1, no book number |
| VerseReferenceExamples.CorinthiansExample | src/bibleVerseReferenceHelper.ts:43 | `2 Corithians 5:17` has book number 2 and full name `2 Corithians` |
| VerseReferenceExamples.PsalmRangeExample | src/bibleVerseReferenceHelper.ts:64-66 | `Psalm 23:1-6` parses to verses 1 to 6, count 6 |
| VerseReferenceExamples.SeparatorMessageExample | src/bibleVerseReferenceHelper.ts:23 | the book-number separator error's message |
| VerseReferenceExamples.BookNumberMessageExample | src/bibleVerseReferenceHelper.ts:32 | the invalid-book-number message quotes the character |
| VerseReferenceExamples.UnknownBookMessageExample | src/bibleVerseReferenceHelper.ts:138 | the lookup message quotes the name |
| VerseReferenceExamples.DigitsOnlyExample | src/bibleVerseReferenceHelper.ts:21-24 | `111` fails with the book-number separator error |
| VerseReferenceExamples.FourJohnExample | src/bibleVerseReferenceHelper.ts:26-33 | `4 John 1:1` fails with `Invalid book number "4"` |
| VerseReferenceExamples.NoBookNameExample | src/bibleVerseReferenceHelper.ts:37-41 | `1 11` fails because no book name is found |
| VerseReferenceExamples.DashAfterNameExample | src/bibleVerseReferenceHelper.ts:45-50 | `invalid-data` fails with the book/chapter separator error |
| VerseReferenceExamples.NoColonExample | src/bibleVerseReferenceHelper.ts:57-61 | `invalid data` fails with the colon error |
| VerseReferenceExamples.NamedSingleVerse | src/bibleVerseReferenceHelper.ts:36-77 | after a book name that does not occur again in the rest, a chapter that is not a number is reported before a verse that is not one |
| VerseReferenceExamples.LetterChapterExample | src/bibleVerseReferenceHelper.ts:68-70 | `Genesis A:1` fails with "Chapter must be a number" |
| VerseReferenceExamples.LetterVerseExample | src/bibleVerseReferenceHelper.ts:72-77 | `Genesis 1:A` fails with "Verse must be a number" |
| VerseReferenceExamples.JobLetterChapterExample | src/bibleVerseReferenceHelper.ts:36-70 | `Job A:1`, whose book name is shorter than the rest, fails with "Chapter must be a number" |
| VerseReferenceExamples.SongOfSolomonExample | src/bibleVerseReferenceHelper.ts:36-70 | `Song of Solomon 3:16` fails with "Chapter must be a number": the book name is `Song` and the chapter text `of Solomon 3` |
| VerseReferenceExamples.CitationIdsAre | src/bibleVerseReferenceHelper.ts:92-123 | a well-formed citation whose book is found yields both formatted ids |
| VerseReferenceExamples.PsalmLookup | src/bibleVerseReferenceHelper.ts:125-130 | `Psalm` is looked up as `Psalms` |
| VerseReferenceExamples.PsalmVerseIdExample | src/bibleVerseReferenceHelper.ts:92-102 | `Psalm 23:1` becomes `PSA.23.1` |
| VerseReferenceExamples.PsalmPassageIdExample | src/bibleVerseReferenceHelper.ts:116-118 | `Psalm 23:1-6` becomes `PSA.23.1-PSA.23.6` |
| VerseReferenceExamples.CorinthiansVerseIdExample | src/bibleVerseReferenceHelper.ts:92-102 | `2 Corinthians 5:17` becomes `2CO.5.17` |
| VerseReferenceExamples.MisspeltBookExample | src/bibleVerseReferenceHelper.ts:137-139 | `2 Corthians 5:17` fails with `Failed to look up book name for "2 Corthians"` |
| ExpiringCache.Stamp | src/cache.ts:39-42 | the stored record carries the time of `set`; the caller's own `createdAtInMilliseconds` field is overwritten, and every other field is kept |
| ExpiringCache.Cache.constructor | src/cache.ts:14-17 | a new cache has the given `maxAge` and an empty store |
| ExpiringCache.Cache.Get | src/cache.ts:19-36 | `get` returns the fresh entry's fields, deletes an expired entry and changes nothing else; `maxAge` is never changed |
| ExpiringCache.Cache.Set | src/cache.ts:38-43 | `set` replaces the entry for the key by the value stamped with the current time |
| ExpiringCache.AbsentKey | src/cache.ts:20-23 | an absent key gives undefined and leaves the store as it was |
| ExpiringCache.PresentKey | src/cache.ts:25-35 | a stored entry comes back, without its stamp, exactly when `maxAge > now - createdAt`; otherwise exactly its key is deleted |
| ExpiringCache.BoundaryExpired | src/cache.ts:29 | an entry exactly `maxAge` old is expired: the comparison is strict |
| ExpiringCache.OtherKeysUntouched | src/cache.ts:19-43 | neither `get` nor `set` changes another key |
| ExpiringCache.SetThenGet | src/cache.ts:38-43 | a value read at the time it was set comes back, without the stamp field, exactly when `maxAge > 0` |
| ExpiringCache.SetThenGetLater | src/cache.ts:29-31 | a value read later comes back exactly when less than `maxAge` has passed since `set`, which resets the age |
| ExpiringCache.LookupStable | src/cache.ts:19-36 | a second `get` right after the first gives the same answer and leaves the store as the first left it |
| ExpiringCache.ExpiryScenario | src/cache.ts:14-43 | on one cache object, a value set is read back while fresh and is gone once expired |
| ApiBible.KeyIndex | src/api-bible.ts:199-207 | the position of a property in entry order, or -1 exactly when the object lacks it |
| ApiBible.Spread | src/api-bible.ts:71-74 | no contract of its own: `ApiBible.SpreadCopies` and `ApiBible.MergeShape` state what spreading builds |
| ApiBible.Merge | src/api-bible.ts:71-74 | no contract of its own: `ApiBible.MergeShape` states the merged object |
| ApiBible.Kebab | src/api-bible.ts:214-222 | no contract of its own: `ApiBible.KebabUnchangedIff`, `ApiBible.KebabLowerCase`, `ApiBible.KebabSnoc` and `ApiBible.KebabWord` state the conversion |
| ApiBible.Render | src/api-bible.ts:207 | no contract of its own: `ApiBible.RenderRecoverable` states what `String()` writes |
| ApiBible.Approved | src/api-bible.ts:198-208 | no contract of its own: `ApiBible.QueryParameters`, `ApiBible.ApprovedShape`, `ApiBible.ApprovedKeys` and `ApiBible.LastValueWins` state the pairs it builds |
| ApiBible.BiblesQuery | src/api-bible.ts:58-78 | no contract of its own: `ApiBible.RequestShape`, `ApiBible.DefaultsAlone` and the `ApiBibleExamples.Bibles` lemmas state its query |
| ApiBible.BooksQuery | src/api-bible.ts:86-102 | no contract of its own: `ApiBible.RequestShape` and `ApiBibleExamples.BooksWithoutOptions` state its query |
| ApiBible.VerseQuery | src/api-bible.ts:116-137 | no contract of its own: `ApiBible.RequestShape` and `ApiBibleExamples.VerseWithOptions` state its query |
| ApiBible.PassageQuery | src/api-bible.ts:152-173 | no contract of its own: `ApiBible.RequestShape` and `ApiBibleExamples.PassageWithoutOptions` state its query |
| ApiBible.SearchQuery | src/api-bible.ts:185-192 | no contract of its own: `ApiBible.ApprovedShape` and `ApiBibleExamples.SearchWithOptions` state its query |
| ApiBible.Assign | src/api-bible.ts:207 | `obj[k] = v` sets `k`, leaves every other property, keeps an existing property's place and adds a new one last |
| ApiBible.MergeShape | src/api-bible.ts:71-74 | `{ ...defaults, ...input }` is each default in its own place, holding the input's value when the input has that property, then the input's other properties in input order |
| ApiBible.SpreadCopies | src/api-bible.ts:71-74 | spreading an object into an empty one copies it in order |
| ApiBible.PieceUnchanged | src/api-bible.ts:216-220 | a character is copied through exactly when it is lower case, or stands first and is not upper case |
| ApiBible.KebabUnchangedIff | src/api-bible.ts:214-222 | a key is left unchanged exactly when every character after the first is a lower-case letter and the first is not an upper-case one |
| ApiBible.KebabLowerCase | src/api-bible.ts:214-222 | the converted key has no upper-case ASCII letter left |
| ApiBible.KebabSnoc | src/api-bible.ts:215-221 | a character appended to the key is converted by its own index |
| ApiBible.KebabLowerTail | src/api-bible.ts:216-220 | lower-case letters are copied through wherever they stand |
| ApiBible.KebabWord | src/api-bible.ts:217-218 | a capitalised word after the first position becomes a dash and the word in lower case |
| ApiBible.KebabOneWord | src/api-bible.ts:214-222 | a lower-case key is unchanged |
| ApiBible.KebabTwoWords | src/api-bible.ts:214-222 | a two-word camelCase key becomes two words joined by a dash |
| ApiBible.KebabThreeWords | src/api-bible.ts:214-222 | a three-word key becomes three words joined by dashes |
| ApiBible.KebabFourWords | src/api-bible.ts:214-222 | a four-word key becomes four words joined by dashes |
| ApiBible.KebabExample | src/api-bible.ts:214-222 | `includeChaptersAndSections` becomes `include-chapters-and-sections` |
| ApiBible.RenderRecoverable | src/api-bible.ts:207 | `String()` of a number reads back as that number, a flag renders as `true` or `false`, and a one-item array as its item |
| ApiBible.QueryParameters | src/api-bible.ts:198-208 | the loop of `getQueryStringFromObject` builds the approved pairs of the entries visited in order |
| ApiBible.RenderedDefined | src/api-bible.ts:201-207 | without undefined values, entry `i` converts to entry `i` with its key in kebab case and its value rendered |
| ApiBible.ApprovedShape | src/api-bible.ts:201-208 | undefined values are dropped and the rest keep entry order, when no two keys convert alike |
| ApiBible.ApprovedKeys | src/api-bible.ts:201-208 | a key is approved exactly when some defined entry converts to it, and no key is approved twice |
| ApiBible.LastValueWins | src/api-bible.ts:206-207 | a later defined entry whose key converts to the same name overwrites the earlier value |
| ApiBible.RequestShape | src/api-bible.ts:166-169 | a request's approved pairs are the merge's shape, converted, when no two of its keys convert alike |
| ApiBible.DefaultsAlone | src/api-bible.ts:66-74 | without input, a request sends its defaults, converted, in their order |
| ApiBibleExamples.BiblesWithoutInput | src/api-bible.ts:66-74 | `getBibles()` sends `language=eng`, then `include-full-details=false` |
| ApiBibleExamples.BiblesWithInput | src/api-bible.ts:66-74 | an input flag overrides its default in place, and `ids`, having no default, follows the defaults |
| ApiBibleExamples.ChaptersKeys | src/api-bible.ts:90-93 | the two `getBooks` keys in kebab case |
| ApiBibleExamples.BooksWithoutOptions | src/api-bible.ts:86-98 | only `bibleId`: the path parameter is dropped and both include flags are sent as `false` |
| ApiBibleExamples.VerseKeys | src/api-bible.ts:120-128 | the seven `getVerse` keys in kebab case |
| ApiBibleExamples.VerseInputOptions | src/api-bible.ts:117 | the rest of the `getVerse` input after `bibleId` and `verseId` are taken out |
| ApiBibleExamples.VerseWithOptions | src/api-bible.ts:116-133 | `contentType=html` and `includeNotes=true` override their defaults and keep the default positions |
| ApiBibleExamples.SearchWithOptions | src/api-bible.ts:185-188 | `searchForVerses` applies no defaults: `query`, `limit`, `sort` in input order, the number rendered as `3` |
| ApiBibleExamples.PassageWithoutOptions | src/api-bible.ts:152-169 | the passage defaults alone, with titles and verse numbers on |
| LegacyApiBible.LegacyKebab | src/apiBible.ts:133-144 | no contract of its own: `LegacyApiBible.LegacyKebabAgrees` ties it to the newer conversion |
| LegacyApiBible.LegacyKebabAgrees | src/apiBible.ts:133-144 | the older client's split/map/join conversion gives the same key as the newer one, for strings without characters above U+FFFF |
| LegacyApiBible.BiblesQuery | src/apiBible.ts:15-17 | no contract of its own: `LegacyApiBible.BiblesKeys` and the `LegacyApiBibleExamples.Bibles` lemmas state its query |
| LegacyApiBible.VerseQuery | src/apiBible.ts:47-64 | no contract of its own: `LegacyApiBibleExamples.VerseWithoutOptions` and `LegacyApiBibleExamples.VerseWithOptions` state its query |
| LegacyApiBible.SearchQuery | src/apiBible.ts:92-95 | no contract of its own: `LegacyApiBibleExamples.SearchOnlyBibleId` states its query |
| LegacyApiBible.QueryParameters | src/apiBible.ts:117-131 | this client's loop builds the same approved pairs, visiting the entries in order |
| LegacyApiBible.BiblesKeys | src/apiBible.ts:15-17 | `getBibles` applies no defaults: the keys sent are exactly the converted keys of the input's defined properties, each once |
| LegacyApiBibleExamples.BiblesWithoutInput | src/apiBible.ts:15-17 | `getBibles()` sends no parameter at all |
| LegacyApiBibleExamples.IdsRendered | src/apiBible.ts:126 | an array of ids is rendered as the ids joined by commas |
| LegacyApiBibleExamples.BiblesWithInput | src/apiBible.ts:15-17 | `language`, `ids`, `include-full-details` in input order, the array joined by commas |
| LegacyApiBibleExamples.VerseWithoutOptions | src/apiBible.ts:47-64 | only path parameters: the seven verse defaults alone |
| LegacyApiBibleExamples.VerseWithOptions | src/apiBible.ts:51-64 | overridden defaults keep their positions |
| LegacyApiBibleExamples.SearchOnlyBibleId | src/apiBible.ts:92-95 | `searchForVerses` with only `bibleId` sends nothing |
| HttpErrors.NewHttpError | src/http-error.ts:4-14 | the error is named `HTTPError` and keeps the response; with a status, or with a non-blank status text, the message is `Request failed with status code <status line>: <url>`, and it is `Request failed with an unknown error: <url>` exactly when there is no status and the status text is blank |
| HttpErrors.StatusLine | src/http-error.ts:5-8 | no contract of its own: `HttpErrors.SomeStatusLine`, `HttpErrors.NoStatusLine` and `HttpErrors.BothLine` state the status line |
| HttpErrors.Reason | src/http-error.ts:9 | no contract of its own: `HttpErrors.MessageForms` states the two reasons |
| HttpErrors.MessageForms | src/http-error.ts:5-11 | the message quotes the status line after `status code` whenever there is one, and is the unknown-error message exactly when there is no status and the text is blank |
| HttpErrors.MessageOfLine | src/http-error.ts:9-11 | a non-empty status line is quoted after `status code` |
| HttpErrors.BothLine | src/http-error.ts:5-8 | a status and a status text without surrounding blanks give the status line `<status> <text>` |
| HttpErrors.StatusMessage | src/http-error.ts:5-11 | a status and a status text without surrounding blanks both appear after `status code`, one space apart |
| HttpErrors.StatusOnlyMessage | src/http-error.ts:5-11 | a status without a status text appears alone, with no trailing space |
| HttpErrors.SomeStatusLine | src/http-error.ts:5-9 | any numeric status, 0 included, gives a status line |
| HttpErrors.NoStatusLine | src/http-error.ts:7-8 | without a status, the status line is empty exactly when the status text is blank |
| HttpErrors.UnknownMessageIff | src/http-error.ts:9-11 | the message reports `an unknown error` exactly when there is no status and the status text is blank |
| HttpErrors.MessageDeterminesReason | src/http-error.ts:11 | two messages for one URL are equal exactly when their reasons are |
| HttpErrors.BadRequestExample | src/http-error.ts:5-11 | a 400 `Bad Request` response gives `Request failed with status code 400 Bad Request: <url>` |
| HttpErrors.ZeroStatusExample | src/http-error.ts:5-6 | a status of 0 is kept |
| VerseOfTheDay.GetVerseReferenceOfTheDay | src/verse-of-the-day.ts:15-50 | no contract of its own: `VerseOfTheDay.InvalidDateFirst`, `VerseOfTheDay.YearCheck` and `VerseOfTheDay.SelectedVerse` state its result |
| VerseOfTheDay.GetVerseList | src/verse-of-the-day.ts:52-63 | no contract of its own: `VerseOfTheDay.YearCheck` and `VerseOfTheDay.VerseListUnchanged` state its result |
| VerseOfTheDay.InvalidDateFirst | src/verse-of-the-day.ts:23-27 | an unreadable date fails before the year is looked at, quoting the input |
| VerseOfTheDay.YearCheck | src/verse-of-the-day.ts:31-35 | both functions fail with the year error exactly when the year is neither 2025 nor 2026 |
| VerseOfTheDay.SupportedYearsJoined | src/verse-of-the-day.ts:13 | the supported years join to `2025, 2026` |
| VerseOfTheDay.YearMessageExample | src/verse-of-the-day.ts:32-34 | 2024 fails with `Invalid year. Supported years are 2025, 2026. Received: 2024` |
| VerseOfTheDay.SelectedVerse | src/verse-of-the-day.ts:37-49 | a supported year picks its list; a day within it gives entry `day - 1` and the day itself, and a day past it fails |
| VerseOfTheDay.VerseListUnchanged | src/verse-of-the-day.ts:52-63 | `getVerseList` hands back the chosen list unchanged |
| VerseOfTheDay.FirstOfJanuaryExample | src/verse-of-the-day.ts:40-49 | on a three-entry list, days 1 and 3 give their entries and day 4 fails |
| LegacyVerseOfTheDay.VerseReferenceOfTheDay | src/verseOfTheDay.ts:8-19 | no contract of its own: `LegacyVerseOfTheDay.DefinedDays` and `LegacyVerseOfTheDay.ResultInList` state its result |
| LegacyVerseOfTheDay.DefinedDays | src/verseOfTheDay.ts:11-18 | a reference comes back exactly for days 1 to twice the list's length, and it is the entry at `(day - 1)` modulo the length |
| LegacyVerseOfTheDay.ResultInList | src/verseOfTheDay.ts:11-18 | for those days, the result is an entry of the list |
| LegacyVerseOfTheDay.ThreeReferencesExample | src/verseOfTheDay.ts:14-18 | on a three-entry list, days 1 to 3 give the entries in order, day 4 the first again, and day 7 nothing |
| VerseOfTheDayReport.AllBookNames | src/tasks/verse-of-the-day-report.ts:29-38 | no contract of its own: `VerseOfTheDayReport.AllBookNamesHas` states its contents and `VerseOfTheDayReport.CollectBookNames` the loop that builds it |
| VerseOfTheDayReport.AllBookNamesHas | src/tasks/verse-of-the-day-report.ts:29-38 | a name is in a testament's name list exactly when one of its categories holds it |
| VerseOfTheDayReport.TallyTestaments | src/tasks/verse-of-the-day-report.ts:40-50 | no contract of its own: `VerseOfTheDayReport.TallyTestamentsFacts`, `VerseOfTheDayReport.TallyTestamentsError` and `VerseOfTheDayReport.TallyTestamentsStops` state its result |
| VerseOfTheDayReport.CollectBookNames | src/tasks/verse-of-the-day-report.ts:32-34 | the loop builds the in-order concatenation of the categories' book names |
| VerseOfTheDayReport.TallyTestamentsFacts | src/tasks/verse-of-the-day-report.ts:40-50 | the tally fails exactly when some verse is in neither list; on success the Old Testament count is the number of verses in the Old list (checked first), and the two counts add up to the number of verses |
| VerseOfTheDayReport.TallyTestamentsError | src/tasks/verse-of-the-day-report.ts:41-48 | a failing parse passes its error on, and a name in neither list fails with `Book name not found for verse: <verse>` |
| VerseOfTheDayReport.TallyTestamentsStops | src/tasks/verse-of-the-day-report.ts:40-49 | once a prefix of the verses fails, the whole tally fails the same way |
| VerseOfTheDayReport.VerseCountByTestament | src/tasks/verse-of-the-day-report.ts:23-51 | the method's loops build the name lists and compute the testament tally |
| VerseOfTheDayReport.CountCategoryFacts | src/tasks/verse-of-the-day-report.ts:62-68 | one category: its counter is set to its old value, or 0, plus one exactly when the book is in the category; nothing else changes |
| VerseOfTheDayReport.CategoryStepFacts | src/tasks/verse-of-the-day-report.ts:61-69 | with distinct category names, one verse adds one to each category holding its book, sets the counters of the others, and touches no other key |
| VerseOfTheDayReport.HitCountBound | src/tasks/verse-of-the-day-report.ts:59-70 | a category counts at most one hit per verse |
| VerseOfTheDayReport.TallyCategories | src/tasks/verse-of-the-day-report.ts:59-70 | no contract of its own: `VerseOfTheDayReport.TallyCategoriesFails`, `VerseOfTheDayReport.TallyCategoriesCounts` and `VerseOfTheDayReport.TallyCategoriesStops` state its result |
| VerseOfTheDayReport.TallyCategoriesFails | src/tasks/verse-of-the-day-report.ts:59-60 | a testament's category tally fails exactly when some verse does not parse |
| VerseOfTheDayReport.TallyCategoriesCounts | src/tasks/verse-of-the-day-report.ts:59-70 | with distinct names, an empty verse list leaves no counter; otherwise exactly the categories have counters, each equal to the number of verses whose book it holds, and it is at most the number of verses |
| VerseOfTheDayReport.TallyCategoriesStops | src/tasks/verse-of-the-day-report.ts:59-60 | once a prefix of the verses fails, the whole category tally fails the same way |
| VerseOfTheDayReport.CountVerseCategories | src/tasks/verse-of-the-day-report.ts:61-69 | the inner loop passes one verse through the categories in order |
| VerseOfTheDayReport.TestamentCategoryCounts | src/tasks/verse-of-the-day-report.ts:59-70 | the loop over the verses computes one testament's category tally |
| VerseOfTheDayReport.CategoryTally | src/tasks/verse-of-the-day-report.ts:53-74 | no contract of its own: `VerseOfTheDayReport.VerseCountByCategory` computes it with loops, and the `TallyCategories` lemmas state each testament's part |
| VerseOfTheDayReport.VerseCountByCategory | src/tasks/verse-of-the-day-report.ts:53-74 | both testaments are tallied, the Old first, and the first failure is the result |

## Left out

- `Number()` is modelled only for what the citations can hold. JavaScript whitespace is trimmed, the empty string reads as 0, and an optional sign may precede ASCII digits. Every other string, such as hexadecimal, an exponent, `1.0` or `Infinity`, counts as not an integer.
- Strings are sequences of Unicode scalar values, not of UTF-16 code units. The positions that `split("")`, `charAt`, `indexOf` and `length` count differ for characters above U+FFFF, and that difference is not modelled.
- LegacyApiBible.LegacyKebabAgrees: stated for the model's strings. In JavaScript, `split("")` breaks a character above U+FFFF into two surrogates while `[...s]` keeps it whole, so the two conversions agree only on strings without such characters.
- JavaScript numbers are doubles, while the model's integers are unbounded. `Number()` loses precision above 2^53, and `String()` switches to exponent form from 1e21; neither is modelled.
- `QueryValue.Number` holds an integer only. A fractional query value such as 2.5, which `String()` renders as `2.5`, is not modelled.
- ApiBible.Assign: entries keep insertion order. JavaScript lists integer-like keys such as `"2"` first, in ascending order, before the other keys; that reordering is not modelled. The code's keys are camelCase names, which are not integer-like.
- ApiBible.MergeShape: the same insertion order, so the shape it states does not cover integer-like property names.
- `toUpperCase` and `toLowerCase` are modelled on the ASCII range only. Other characters map to themselves, so they count as "upper" in the kebab-case test, as digits do in the code.
- URL encoding by `URLSearchParams` is out of scope: a foreign serialiser. The model stops at the list of approved `(key, value)` pairs, so it does not show a space becoming `+` or a comma becoming `%2C`.
- The following are I/O and foreign libraries:
  - `fetch`;
  - the `request` function with its `TTLCache`, including the cache-hit tests;
  - the fixture mode of the newer client;
  - the response body.
- `Date.now()` in the cache is the `now` parameter of `Get` and `Set`.
- The date library is a `DateReading` parameter in the verse of the day: validity, year, day of year and formatted date. The older module takes the day of the year directly.
- The `logger.debug` calls are left out. They carry no logic.
- Three data files are parameters, since none is part of this model: the book table, the verse-of-the-day lists and the book categories.
- The report's imported parser is a parameter, because `src/bible-verse-reference-helper.ts` is not part of this model. The parameter gives a verse's full book name or an error message. Its failures are passed on as the report's error.
- The report's `printReport` and `Object.groupBy` by month are date formatting and console output.
- The report's testament tables are visited in table order: Old Testament, then New Testament. The category counters are a `map`, so the insertion order of the JavaScript object's keys is not modelled.
- VerseOfTheDayReport.TallyCategoriesCounts: it states the counters only when category names are distinct within a testament. If names repeat, the code adds each category's hits to the shared counter, and the model computes that too; only the contract leaves it unstated.
- ApiBible.ApprovedShape: the in-order shape is stated only when no two keys convert to the same kebab-case key. Otherwise `ApiBible.LastValueWins` and `ApiBible.ApprovedKeys` state what remains: the later value overwrites in place, and every key appears once.
- ApiBible.RequestShape: it asks for distinct property names in the defaults and in the input, which every JavaScript object has. It also asks that no two keys of the merge convert to the same kebab-case key; without that, the shape is not stated.
- These are framework wiring, argument validation, or scripts with file or process I/O:
  - the Express routes and their zod schemas;
  - the authorization and error middleware;
  - the server;
  - the scripts under `src/tasks/` other than the report.
- The tests that check the content of the data files test data, not code.
- A status that is not a number (`NaN`) is modelled as an absent status, like `undefined`. Both are falsy and not 0, so the code treats them alike.
- A verse-of-the-day index past the list reads `.verse` of `undefined`. In the code this throws a TypeError. In the model it is the error `MissingEntry`, whose message is V8's text.
