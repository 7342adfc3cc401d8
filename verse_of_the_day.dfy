/**
 * The verse of the day: a date is checked, its year must be one of the
 * supported years, the year picks a list, and the day of the year indexes
 * it. The date library's reading of the input string (validity, year, day
 * of the year, formatted date) is an argument.
 */
module VerseOfTheDay {
  import opened Wrappers
  import opened JsText

  /** One entry of a year's list (the fields the server reads). */
  datatype VerseEntry = VerseEntry(verse: string, date: string, formattedDate: string)

  /** What the date library makes of the input string. */
  datatype DateReading = Unreadable | Reading(year: int, dayOfYear: int, formattedDate: string)

  datatype DayError =
    | InvalidDate(received: string)
    | InvalidYear(year: int)
    /** The day indexes past the list: reading `.verse` of `undefined` throws a TypeError. */
    | MissingEntry(index: int)

  datatype VerseOfTheDayResult = VerseOfTheDayResult(verseReference: string, dayOfTheYear: int, formattedDate: string)

  const SupportedYears: seq<int> := [2025, 2026]

  /** `supportedYears.join(", ")`. */
  function SupportedYearsText(): string {
    Join(seq(|SupportedYears|, i requires 0 <= i < |SupportedYears| => IntToString(SupportedYears[i])), ", ")
  }

  function Message(e: DayError): string {
    match e
    case InvalidDate(received) => "Invalid date. Received: " + received
    case InvalidYear(y) => "Invalid year. Supported years are " + SupportedYearsText() + ". Received: " + IntToString(y)
    case MissingEntry(_) => "Cannot read properties of undefined (reading 'verse')"
  }

  /** 2025 picks the 2025 list; any other year that passed the check picks the 2026 list. */
  function ListFor(year: int, list2025: seq<VerseEntry>, list2026: seq<VerseEntry>): seq<VerseEntry> {
    if year == 2025 then list2025 else list2026
  }

  /** `getVerseReferenceOfTheDay`. */
  function GetVerseReferenceOfTheDay(input: string, date: DateReading, list2025: seq<VerseEntry>, list2026: seq<VerseEntry>)
    : Result<VerseOfTheDayResult, DayError>
  {
    match date
    case Unreadable => Failure(InvalidDate(input))
    case Reading(year, dayOfTheYear, formattedDate) =>
      if year !in SupportedYears then Failure(InvalidYear(year))
      else
        var list := ListFor(year, list2025, list2026);
        var index := dayOfTheYear - 1;
        if 0 <= index < |list| then Success(VerseOfTheDayResult(list[index].verse, dayOfTheYear, formattedDate))
        else Failure(MissingEntry(index))
  }

  /** `getVerseList`. */
  function GetVerseList(year: int, list2025: seq<VerseEntry>, list2026: seq<VerseEntry>): Result<seq<VerseEntry>, DayError> {
    if year !in SupportedYears then Failure(InvalidYear(year)) else Success(ListFor(year, list2025, list2026))
  }

  /** An unreadable date fails before the year is looked at, quoting the input. */
  lemma {:induction false} InvalidDateFirst(input: string, list2025: seq<VerseEntry>, list2026: seq<VerseEntry>)
    ensures GetVerseReferenceOfTheDay(input, Unreadable, list2025, list2026) == Failure(InvalidDate(input))
    ensures Message(InvalidDate(input)) == "Invalid date. Received: " + input
  {
  }

  /** The year check, as both functions make it: only 2025 and 2026 pass. */
  lemma {:induction false} YearCheck(input: string, year: int, day: int, formatted: string, list2025: seq<VerseEntry>, list2026: seq<VerseEntry>)
    ensures GetVerseReferenceOfTheDay(input, Reading(year, day, formatted), list2025, list2026) == Failure(InvalidYear(year))
            <==> year != 2025 && year != 2026
    ensures GetVerseList(year, list2025, list2026) == Failure(InvalidYear(year)) <==> year != 2025 && year != 2026
  {
  }

  /** A supported year and a day within its list give that list's entry at day - 1, and the day itself. */
  lemma {:induction false} SelectedVerse(input: string, year: int, day: int, formatted: string, list2025: seq<VerseEntry>, list2026: seq<VerseEntry>)
    requires year == 2025 || year == 2026
    ensures var list := if year == 2025 then list2025 else list2026;
            var r := GetVerseReferenceOfTheDay(input, Reading(year, day, formatted), list2025, list2026);
            (r.Success? <==> 1 <= day <= |list|)
            && (r.Success? ==> r.value == VerseOfTheDayResult(list[day - 1].verse, day, formatted))
            && (r.Failure? ==> r.error == MissingEntry(day - 1))
  {
  }

  /** `getVerseList` hands back the chosen list unchanged. */
  lemma {:induction false} VerseListUnchanged(year: int, list2025: seq<VerseEntry>, list2026: seq<VerseEntry>)
    ensures year == 2025 ==> GetVerseList(year, list2025, list2026) == Success(list2025)
    ensures year == 2026 ==> GetVerseList(year, list2025, list2026) == Success(list2026)
  {
  }

  lemma {:induction false} YearTexts()
    ensures IntToString(2024) == "2024" && IntToString(2025) == "2025" && IntToString(2026) == "2026"
  {
    assert NatToString(20) == "20";
    assert NatToString(202) == "202";
  }

  lemma {:induction false} JoinTwo(a: string, b: string, sep: string)
    ensures Join([a, b], sep) == a + sep + b
  {
    assert [a, b][1..] == [b];
  }

  lemma {:induction false} YearParts()
    ensures seq(|SupportedYears|, i requires 0 <= i < |SupportedYears| => IntToString(SupportedYears[i])) == ["2025", "2026"]
  {
    YearTexts();
  }

  lemma {:induction false} YearsText()
    ensures "2025" + ", " + "2026" == "2025, 2026"
  {
  }

  lemma {:induction false} SupportedYearsJoined()
    ensures SupportedYearsText() == "2025, 2026"
  {
    YearParts();
    JoinTwo("2025", "2026", ", ");
    YearsText();
  }

  lemma {:induction false} YearMessageText()
    ensures "Invalid year. Supported years are " + "2025, 2026" + ". Received: " + "2024"
            == "Invalid year. Supported years are 2025, 2026. Received: 2024"
  {
    var head := "Invalid year. Supported years are ";
    assert head + "2025, 2026" == "Invalid year. Supported years are 2025, 2026";
    assert head + "2025, 2026" + ". Received: " == "Invalid year. Supported years are 2025, 2026. Received: ";
  }

  /** The message the tests match for 2024. */
  lemma {:induction false} YearMessageExample()
    ensures Message(InvalidYear(2024)) == "Invalid year. Supported years are 2025, 2026. Received: 2024"
  {
    SupportedYearsJoined();
    YearTexts();
    YearMessageText();
  }

  /** The test's three-entry list for 2025: 1 January gives the first entry and day 1. */
  lemma {:induction false} FirstOfJanuaryExample(list2025: seq<VerseEntry>, list2026: seq<VerseEntry>, formatted: string)
    requires list2025 == [VerseEntry("Genesis 1:1", "2025-01-01", "Wednesday, January 1, 2025"),
                          VerseEntry("Genesis 1:2", "2025-01-02", "Thursday, January 2, 2025"),
                          VerseEntry("Genesis 1:3", "2025-01-03", "Friday, January 3, 2025")]
    ensures GetVerseReferenceOfTheDay("2025-01-01T00:00:00+05:00", Reading(2025, 1, formatted), list2025, list2026)
            == Success(VerseOfTheDayResult("Genesis 1:1", 1, formatted))
    ensures GetVerseReferenceOfTheDay("2025-01-03T00:00:00+05:00", Reading(2025, 3, formatted), list2025, list2026)
            == Success(VerseOfTheDayResult("Genesis 1:3", 3, formatted))
    ensures GetVerseReferenceOfTheDay("2025-01-04T00:00:00+05:00", Reading(2025, 4, formatted), list2025, list2026)
            == Failure(MissingEntry(3))
  {
  }
}
