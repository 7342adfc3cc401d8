/**
 * The verse-of-the-day report: how many verses of a list come from the Old
 * and from the New Testament, and how many from each book category. The
 * reference parser the report calls (it maps a reference to its full book
 * name, or throws) and the category table are arguments.
 */
module VerseOfTheDayReport {
  import opened Wrappers
  import opened VerseOfTheDay

  /** One category of the table: its name and the full book names it holds. */
  datatype Category = Category(categoryName: string, bookNames: seq<string>)

  /** The category table, its two testaments in this order. */
  datatype BookCategories = BookCategories(oldTestament: seq<Category>, newTestament: seq<Category>)

  /** The full book name of a reference, or the message of the error the parser throws. */
  type Parser = string -> Result<string, string>

  datatype TestamentCounts = TestamentCounts(oldTestamentCount: int, newTestamentCount: int)

  datatype CategoryCounts = CategoryCounts(oldTestament: map<string, int>, newTestament: map<string, int>)

  const NotFoundPrefix: string := "Book name not found for verse: "

  // ---------------------------------------------------------------- book names per testament

  /** Every category's book names, one category after the other. */
  function AllBookNames(categories: seq<Category>): seq<string>
    decreases |categories|
  {
    if |categories| == 0 then []
    else AllBookNames(categories[..|categories| - 1]) + categories[|categories| - 1].bookNames
  }

  /** A name is in the concatenation exactly when some category holds it. */
  lemma {:induction false} AllBookNamesHas(categories: seq<Category>, name: string)
    ensures name in AllBookNames(categories) <==> exists i :: 0 <= i < |categories| && name in categories[i].bookNames
    decreases |categories|
  {
    if |categories| > 0 {
      var init := categories[..|categories| - 1];
      AllBookNamesHas(init, name);
      assert forall i :: 0 <= i < |init| ==> init[i] == categories[i];
    }
  }

  /** The loop that rebuilds the name list category by category. */
  method CollectBookNames(categories: seq<Category>) returns (names: seq<string>)
    ensures names == AllBookNames(categories)
  {
    names := [];
    for i := 0 to |categories|
      invariant names == AllBookNames(categories[..i])
    {
      assert categories[..i + 1][..i] == categories[..i];
      names := names + categories[i].bookNames;
    }
    assert categories[..|categories|] == categories;
  }

  // ---------------------------------------------------------------- verses per testament

  /** The testament tally after the given verses; the first failure stops it. */
  function TallyTestaments(verses: seq<VerseEntry>, oldNames: seq<string>, newNames: seq<string>, parse: Parser)
    : Result<TestamentCounts, string>
    decreases |verses|
  {
    if |verses| == 0 then Success(TestamentCounts(0, 0))
    else
      match TallyTestaments(verses[..|verses| - 1], oldNames, newNames, parse)
      case Failure(e) => Failure(e)
      case Success(c) =>
        var verse := verses[|verses| - 1].verse;
        match parse(verse)
        case Failure(e) => Failure(e)
        case Success(fullBookName) =>
          if fullBookName in oldNames then Success(c.(oldTestamentCount := c.oldTestamentCount + 1))
          else if fullBookName in newNames then Success(c.(newTestamentCount := c.newTestamentCount + 1))
          else Failure(NotFoundPrefix + verse)
  }

  /** A verse is placed when it parses to a name of either testament. */
  predicate Placed(v: VerseEntry, oldNames: seq<string>, newNames: seq<string>, parse: Parser) {
    parse(v.verse).Success? && (parse(v.verse).value in oldNames || parse(v.verse).value in newNames)
  }

  /** How many verses parse to an Old Testament name. */
  function OldCount(verses: seq<VerseEntry>, oldNames: seq<string>, parse: Parser): nat
    decreases |verses|
  {
    if |verses| == 0 then 0
    else
      var v := verses[|verses| - 1];
      OldCount(verses[..|verses| - 1], oldNames, parse)
        + (if parse(v.verse).Success? && parse(v.verse).value in oldNames then 1 else 0)
  }

  /**
   * The tally fails exactly when some verse is not placed. Otherwise every
   * verse counts once, Old Testament names first, so the counts add up to
   * the number of verses.
   */
  lemma {:induction false} TallyTestamentsFacts(verses: seq<VerseEntry>, oldNames: seq<string>, newNames: seq<string>, parse: Parser)
    ensures var r := TallyTestaments(verses, oldNames, newNames, parse);
            (r.Failure? <==> exists i :: 0 <= i < |verses| && !Placed(verses[i], oldNames, newNames, parse))
            && (r.Success? ==> r.value.oldTestamentCount == OldCount(verses, oldNames, parse)
                               && r.value.oldTestamentCount + r.value.newTestamentCount == |verses|
                               && r.value.newTestamentCount >= 0)
    decreases |verses|
  {
    if |verses| > 0 {
      var init := verses[..|verses| - 1];
      TallyTestamentsFacts(init, oldNames, newNames, parse);
      assert forall i :: 0 <= i < |init| ==> init[i] == verses[i];
      if exists i :: 0 <= i < |verses| && !Placed(verses[i], oldNames, newNames, parse) {
        var i :| 0 <= i < |verses| && !Placed(verses[i], oldNames, newNames, parse);
        if i < |init| {
          assert !Placed(init[i], oldNames, newNames, parse);
        }
      }
    }
  }

  /** An unplaced name fails with the verse quoted; a failing parse passes its error on. */
  lemma {:induction false} TallyTestamentsError(verses: seq<VerseEntry>, oldNames: seq<string>, newNames: seq<string>, parse: Parser)
    requires |verses| > 0
    requires TallyTestaments(verses[..|verses| - 1], oldNames, newNames, parse).Success?
    ensures var v := verses[|verses| - 1].verse;
            var r := TallyTestaments(verses, oldNames, newNames, parse);
            (parse(v).Failure? ==> r == Failure(parse(v).error))
            && (parse(v).Success? && parse(v).value !in oldNames && parse(v).value !in newNames ==>
                  r == Failure("Book name not found for verse: " + v))
  {
  }

  /** Once a prefix of the verses fails, the whole tally fails the same way. */
  lemma {:induction false} TallyTestamentsStops(verses: seq<VerseEntry>, n: nat, oldNames: seq<string>, newNames: seq<string>, parse: Parser)
    requires n <= |verses| && TallyTestaments(verses[..n], oldNames, newNames, parse).Failure?
    ensures TallyTestaments(verses, oldNames, newNames, parse) == TallyTestaments(verses[..n], oldNames, newNames, parse)
    decreases |verses| - n
  {
    if n < |verses| {
      var longer := verses[..|verses| - 1];
      assert longer[..n] == verses[..n];
      TallyTestamentsStops(longer, n, oldNames, newNames, parse);
    } else {
      assert verses[..n] == verses;
    }
  }

  /** `getVerseCountByTestament`. */
  method VerseCountByTestament(verses: seq<VerseEntry>, categories: BookCategories, parse: Parser)
    returns (r: Result<TestamentCounts, string>)
    ensures r == TallyTestaments(verses, AllBookNames(categories.oldTestament), AllBookNames(categories.newTestament), parse)
  {
    var oldNames := CollectBookNames(categories.oldTestament);
    var newNames := CollectBookNames(categories.newTestament);
    var oldTestamentCount, newTestamentCount := 0, 0;
    for i := 0 to |verses|
      invariant TallyTestaments(verses[..i], oldNames, newNames, parse)
                == Success(TestamentCounts(oldTestamentCount, newTestamentCount))
    {
      assert verses[..i + 1][..i] == verses[..i];
      var verse := verses[i].verse;
      var parsed := parse(verse);
      if parsed.Failure? {
        TallyTestamentsStops(verses, i + 1, oldNames, newNames, parse);
        return Failure(parsed.error);
      }
      var fullBookName := parsed.value;
      if fullBookName in oldNames {
        oldTestamentCount := oldTestamentCount + 1;
      } else if fullBookName in newNames {
        newTestamentCount := newTestamentCount + 1;
      } else {
        TallyTestamentsStops(verses, i + 1, oldNames, newNames, parse);
        return Failure(NotFoundPrefix + verse);
      }
    }
    assert verses[..|verses|] == verses;
    r := Success(TestamentCounts(oldTestamentCount, newTestamentCount));
  }

  // ---------------------------------------------------------------- verses per category

  /** A category's counter before the verse is looked at: a missing or zero counter is set to zero. */
  function Initialised(counts: map<string, int>, name: string): map<string, int> {
    if name !in counts || counts[name] == 0 then counts[name := 0] else counts
  }

  /** One category looked at for one verse: its counter is set, then raised when the book is one of the category's. */
  function CountCategory(counts: map<string, int>, c: Category, fullBookName: string): map<string, int> {
    var m := Initialised(counts, c.categoryName);
    if fullBookName in c.bookNames then m[c.categoryName := m[c.categoryName] + 1] else m
  }

  /** One verse, whose book is `fullBookName`, passed through the categories in order. */
  function CategoryStep(counts: map<string, int>, categories: seq<Category>, fullBookName: string): map<string, int>
    decreases |categories|
  {
    if |categories| == 0 then counts
    else CountCategory(CategoryStep(counts, categories[..|categories| - 1], fullBookName), categories[|categories| - 1], fullBookName)
  }

  /** One testament's category counters after the given verses; the first failing parse stops it. */
  function TallyCategories(verses: seq<VerseEntry>, categories: seq<Category>, parse: Parser): Result<map<string, int>, string>
    decreases |verses|
  {
    if |verses| == 0 then Success(map[])
    else
      match TallyCategories(verses[..|verses| - 1], categories, parse)
      case Failure(e) => Failure(e)
      case Success(counts) =>
        match parse(verses[|verses| - 1].verse)
        case Failure(e) => Failure(e)
        case Success(fullBookName) => Success(CategoryStep(counts, categories, fullBookName))
  }

  /** Both testaments, the Old first. */
  function CategoryTally(verses: seq<VerseEntry>, categories: BookCategories, parse: Parser): Result<CategoryCounts, string> {
    match TallyCategories(verses, categories.oldTestament, parse)
    case Failure(e) => Failure(e)
    case Success(oldCounts) =>
      match TallyCategories(verses, categories.newTestament, parse)
      case Failure(e) => Failure(e)
      case Success(newCounts) => Success(CategoryCounts(oldCounts, newCounts))
  }

  predicate DistinctCategoryNames(categories: seq<Category>) {
    forall i, j :: 0 <= i < j < |categories| ==> categories[i].categoryName != categories[j].categoryName
  }

  function CounterOf(counts: map<string, int>, name: string): int {
    if name in counts then counts[name] else 0
  }

  function Hit(c: Category, fullBookName: string): int {
    if fullBookName in c.bookNames then 1 else 0
  }

  /** One category's counter moves from its old value (zero when missing) by the hit; no other counter changes. */
  lemma {:induction false} CountCategoryFacts(counts: map<string, int>, c: Category, fullBookName: string)
    ensures var r := CountCategory(counts, c, fullBookName);
            c.categoryName in r && r[c.categoryName] == CounterOf(counts, c.categoryName) + Hit(c, fullBookName)
            && forall k :: k != c.categoryName ==> (k in r <==> k in counts) && (k in counts ==> r[k] == counts[k])
  {
  }

  /** Some category is named `k`. */
  predicate Named(categories: seq<Category>, k: string) {
    exists i :: 0 <= i < |categories| && categories[i].categoryName == k
  }

  /** With distinct category names, one verse adds one to each category holding its book, sets the others' counters, and touches nothing else. */
  lemma {:induction false} CategoryStepFacts(counts: map<string, int>, categories: seq<Category>, fullBookName: string)
    requires DistinctCategoryNames(categories)
    ensures var r := CategoryStep(counts, categories, fullBookName);
            forall i :: 0 <= i < |categories| ==>
              categories[i].categoryName in r
              && r[categories[i].categoryName] == CounterOf(counts, categories[i].categoryName) + Hit(categories[i], fullBookName)
    ensures var r := CategoryStep(counts, categories, fullBookName);
            forall k :: !Named(categories, k) ==> (k in r <==> k in counts) && (k in counts ==> r[k] == counts[k])
    decreases |categories|
  {
    if |categories| > 0 {
      var n := |categories| - 1;
      var init, c := categories[..n], categories[n];
      assert forall i :: 0 <= i < n ==> init[i] == categories[i];
      assert DistinctCategoryNames(init);
      CategoryStepFacts(counts, init, fullBookName);
      var p := CategoryStep(counts, init, fullBookName);
      var r := CategoryStep(counts, categories, fullBookName);
      assert r == CountCategory(p, c, fullBookName);
      CountCategoryFacts(p, c, fullBookName);
      forall i | 0 <= i < n
        ensures init[i].categoryName != c.categoryName
      {
        assert categories[i].categoryName != categories[n].categoryName;
      }
      assert !Named(init, c.categoryName);
      forall i | 0 <= i < |categories|
        ensures categories[i].categoryName in r
        ensures r[categories[i].categoryName] == CounterOf(counts, categories[i].categoryName) + Hit(categories[i], fullBookName)
      {
        if i < n {
          assert categories[i] == init[i];
          assert categories[i].categoryName != c.categoryName;
        }
      }
      forall k | !Named(categories, k)
        ensures (k in r <==> k in counts) && (k in counts ==> r[k] == counts[k])
      {
        assert categories[n].categoryName != k;
        forall i | 0 <= i < n
          ensures init[i].categoryName != k
        {
          assert categories[i].categoryName != k;
        }
        assert !Named(init, k);
      }
    }
  }

  /** How many of the verses parse to a book of category `c`. */
  function HitCount(verses: seq<VerseEntry>, c: Category, parse: Parser): nat
    decreases |verses|
  {
    if |verses| == 0 then 0
    else
      var v := verses[|verses| - 1];
      HitCount(verses[..|verses| - 1], c, parse)
        + (if parse(v.verse).Success? && parse(v.verse).value in c.bookNames then 1 else 0)
  }

  lemma {:induction false} HitCountBound(verses: seq<VerseEntry>, c: Category, parse: Parser)
    ensures HitCount(verses, c, parse) <= |verses|
    decreases |verses|
  {
    if |verses| > 0 {
      HitCountBound(verses[..|verses| - 1], c, parse);
    }
  }

  /** One testament's category tally fails exactly when some verse does not parse. */
  lemma {:induction false} TallyCategoriesFails(verses: seq<VerseEntry>, categories: seq<Category>, parse: Parser)
    ensures TallyCategories(verses, categories, parse).Failure? <==> exists i :: 0 <= i < |verses| && parse(verses[i].verse).Failure?
    decreases |verses|
  {
    if |verses| > 0 {
      var init := verses[..|verses| - 1];
      TallyCategoriesFails(init, categories, parse);
      assert forall i :: 0 <= i < |init| ==> init[i] == verses[i];
      if exists i :: 0 <= i < |verses| && parse(verses[i].verse).Failure? {
        var i :| 0 <= i < |verses| && parse(verses[i].verse).Failure?;
        if i < |init| {
          assert parse(init[i].verse).Failure?;
        }
      }
    }
  }

  /** The counters after one more verse, from those before it. */
  lemma {:induction false} TallyCategoriesStep(verses: seq<VerseEntry>, categories: seq<Category>, parse: Parser)
    requires DistinctCategoryNames(categories) && |verses| > 0
    requires TallyCategories(verses, categories, parse).Success?
    ensures var init := verses[..|verses| - 1];
            var before := TallyCategories(init, categories, parse);
            var r := TallyCategories(verses, categories, parse);
            before.Success?
            && (forall i :: 0 <= i < |categories| ==>
                  categories[i].categoryName in r.value
                  && r.value[categories[i].categoryName]
                     == CounterOf(before.value, categories[i].categoryName) + HitCount(verses, categories[i], parse)
                        - HitCount(init, categories[i], parse))
            && (forall k :: !Named(categories, k) ==> (k in r.value <==> k in before.value))
  {
    var init, v := verses[..|verses| - 1], verses[|verses| - 1];
    var before := TallyCategories(init, categories, parse);
    assert parse(v.verse).Success?;
    var fullBookName := parse(v.verse).value;
    assert TallyCategories(verses, categories, parse).value == CategoryStep(before.value, categories, fullBookName);
    CategoryStepFacts(before.value, categories, fullBookName);
  }

  /**
   * With distinct category names, a tally that succeeds has no counter at
   * all for an empty verse list, and else exactly one counter per category,
   * holding how many verses come from its books — never more than the
   * number of verses.
   */
  lemma {:induction false} TallyCategoriesCounts(verses: seq<VerseEntry>, categories: seq<Category>, parse: Parser)
    requires DistinctCategoryNames(categories)
    ensures var r := TallyCategories(verses, categories, parse);
            (r.Success? && |verses| == 0 ==> r.value == map[])
            && (r.Success? && |verses| > 0 ==>
                  (forall k :: k in r.value <==> Named(categories, k))
                  && forall i :: 0 <= i < |categories| ==>
                       r.value[categories[i].categoryName] == HitCount(verses, categories[i], parse) <= |verses|)
    decreases |verses|
  {
    var r := TallyCategories(verses, categories, parse);
    if |verses| > 0 && r.Success? {
      var init := verses[..|verses| - 1];
      TallyCategoriesStep(verses, categories, parse);
      TallyCategoriesCounts(init, categories, parse);
      var before := TallyCategories(init, categories, parse);
      forall i | 0 <= i < |categories|
        ensures r.value[categories[i].categoryName] == HitCount(verses, categories[i], parse) <= |verses|
      {
        HitCountBound(verses, categories[i], parse);
        if |init| == 0 {
          assert CounterOf(before.value, categories[i].categoryName) == 0 == HitCount(init, categories[i], parse);
        }
      }
      forall k
        ensures k in r.value <==> Named(categories, k)
      {
        if Named(categories, k) {
          var i :| 0 <= i < |categories| && categories[i].categoryName == k;
          assert categories[i].categoryName in r.value;
        }
      }
    }
  }

  /** Once a prefix of the verses fails, the whole tally fails the same way. */
  lemma {:induction false} TallyCategoriesStops(verses: seq<VerseEntry>, n: nat, categories: seq<Category>, parse: Parser)
    requires n <= |verses| && TallyCategories(verses[..n], categories, parse).Failure?
    ensures TallyCategories(verses, categories, parse) == TallyCategories(verses[..n], categories, parse)
    decreases |verses| - n
  {
    if n < |verses| {
      var longer := verses[..|verses| - 1];
      assert longer[..n] == verses[..n];
      TallyCategoriesStops(longer, n, categories, parse);
    } else {
      assert verses[..n] == verses;
    }
  }

  /** The inner loop: one verse passed through the categories. */
  method CountVerseCategories(counts: map<string, int>, categories: seq<Category>, fullBookName: string)
    returns (r: map<string, int>)
    ensures r == CategoryStep(counts, categories, fullBookName)
  {
    r := counts;
    for j := 0 to |categories|
      invariant r == CategoryStep(counts, categories[..j], fullBookName)
    {
      assert categories[..j + 1][..j] == categories[..j];
      var c := categories[j];
      if c.categoryName !in r || r[c.categoryName] == 0 {
        r := r[c.categoryName := 0];
      }
      if fullBookName in c.bookNames {
        r := r[c.categoryName := r[c.categoryName] + 1];
      }
    }
    assert categories[..|categories|] == categories;
  }

  /** The outer loop over the verses, for one testament. */
  method TestamentCategoryCounts(verses: seq<VerseEntry>, categories: seq<Category>, parse: Parser)
    returns (r: Result<map<string, int>, string>)
    ensures r == TallyCategories(verses, categories, parse)
  {
    var counts: map<string, int> := map[];
    for i := 0 to |verses|
      invariant TallyCategories(verses[..i], categories, parse) == Success(counts)
    {
      assert verses[..i + 1][..i] == verses[..i];
      var parsed := parse(verses[i].verse);
      if parsed.Failure? {
        TallyCategoriesStops(verses, i + 1, categories, parse);
        return Failure(parsed.error);
      }
      counts := CountVerseCategories(counts, categories, parsed.value);
    }
    assert verses[..|verses|] == verses;
    r := Success(counts);
  }

  /** `getVerseCountByCategory`: the testaments in table order. */
  method VerseCountByCategory(verses: seq<VerseEntry>, categories: BookCategories, parse: Parser)
    returns (r: Result<CategoryCounts, string>)
    ensures r == CategoryTally(verses, categories, parse)
  {
    var oldCounts := TestamentCategoryCounts(verses, categories.oldTestament, parse);
    if oldCounts.Failure? {
      return Failure(oldCounts.error);
    }
    var newCounts := TestamentCategoryCounts(verses, categories.newTestament, parse);
    if newCounts.Failure? {
      return Failure(newCounts.error);
    }
    r := Success(CategoryCounts(oldCounts.value, newCounts.value));
  }
}
