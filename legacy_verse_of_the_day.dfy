/**
 * The older verse of the day: one list of references for every year, indexed
 * by the day of the year and wrapped around once when the day runs past it.
 */
module LegacyVerseOfTheDay {
  import opened Wrappers

  /** `list[i]`: `undefined` outside the array. */
  function At<T>(list: seq<T>, i: int): Option<T> {
    if 0 <= i < |list| then Some(list[i]) else None
  }

  /** `getVerseReferenceOfTheDay` for a given day of the year. */
  function VerseReferenceOfTheDay<T>(list: seq<T>, dayOfYear: int): Option<T> {
    var index := dayOfYear - 1;
    if index >= |list| then At(list, index - |list|) else At(list, index)
  }

  lemma {:induction false} ModuloOnce(i: int, n: int)
    requires n <= i < 2 * n
    ensures i % n == i - n
  {
    assert i == 1 * n + (i - n);
  }

  lemma {:induction false} ModuloBelow(i: int, n: int)
    requires 0 <= i < n
    ensures i % n == i
  {
    assert i == 0 * n + i;
  }

  /** A reference comes back exactly for days 1 to twice the list's length; it is the entry at (day - 1) modulo the length. */
  lemma {:induction false} DefinedDays<T>(list: seq<T>, dayOfYear: int)
    ensures VerseReferenceOfTheDay(list, dayOfYear).Some? <==> 1 <= dayOfYear <= 2 * |list|
    ensures VerseReferenceOfTheDay(list, dayOfYear).Some? ==>
              VerseReferenceOfTheDay(list, dayOfYear).value == list[(dayOfYear - 1) % |list|]
  {
    var n, i := |list|, dayOfYear - 1;
    if n <= i < 2 * n {
      ModuloOnce(i, n);
    } else if 0 <= i < n {
      ModuloBelow(i, n);
    }
  }

  /** The result, when there is one, is an entry of the list. */
  lemma {:induction false} ResultInList<T>(list: seq<T>, dayOfYear: int)
    requires 1 <= dayOfYear <= 2 * |list|
    ensures VerseReferenceOfTheDay(list, dayOfYear).Some? && VerseReferenceOfTheDay(list, dayOfYear).value in list
  {
    DefinedDays(list, dayOfYear);
  }

  /** The test's three-reference list: days 1 to 3 give the references in order, day 4 the first again. */
  lemma {:induction false} ThreeReferencesExample(list: seq<string>)
    requires list == ["Genesis 1:1", "John 3:16", "Psalm 23:1"]
    ensures VerseReferenceOfTheDay(list, 1) == Some("Genesis 1:1")
    ensures VerseReferenceOfTheDay(list, 2) == Some("John 3:16")
    ensures VerseReferenceOfTheDay(list, 3) == Some("Psalm 23:1")
    ensures VerseReferenceOfTheDay(list, 4) == Some("Genesis 1:1")
    ensures VerseReferenceOfTheDay(list, 7) == None
  {
  }
}
