/**
 * The query-parameter side of the API.Bible client: the camelCase to
 * kebab-case key conversion, the list of approved `(key, value)` pairs
 * `getQueryStringFromObject` hands to `URLSearchParams`, and the
 * defaults-then-input object spreads each request builds it from. Objects
 * are modelled as their own properties in entry order.
 */
module ApiBible {
  import opened Wrappers
  import opened JsText

  /** A property value of a query-parameter object. */
  datatype QueryValue = Text(text: string) | Number(number: int) | Flag(flag: bool) | List(items: seq<string>) | Undefined

  /** An object's own string-keyed properties, in entry order. */
  type Entries<V> = seq<(string, V)>

  // ---------------------------------------------------------------- objects as ordered entries

  function KeyIndexFrom<V>(d: Entries<V>, k: string, n: nat): (i: int)
    requires n <= |d|
    decreases |d| - n
    ensures i == -1 || (n <= i < |d| && d[i].0 == k)
    ensures forall j :: n <= j < |d| && (i == -1 || j < i) ==> d[j].0 != k
  {
    if n == |d| then -1 else if d[n].0 == k then n else KeyIndexFrom(d, k, n + 1)
  }

  /** Where property `k` sits in the entry order, or -1 when the object lacks it. */
  function KeyIndex<V>(d: Entries<V>, k: string): (i: int)
    ensures i == -1 || (0 <= i < |d| && d[i].0 == k)
    ensures forall j :: 0 <= j < |d| && (i == -1 || j < i) ==> d[j].0 != k
  {
    KeyIndexFrom(d, k, 0)
  }

  /** `obj[k]`, with `None` for a missing property. */
  function Lookup<V>(d: Entries<V>, k: string): Option<V> {
    var i := KeyIndex(d, k);
    if i < 0 then None else Some(d[i].1)
  }

  /** The first entry named `k` is the one at `i`. */
  lemma {:induction false} LookupAt<V>(d: Entries<V>, k: string, i: nat)
    requires i < |d| && d[i].0 == k && forall j :: 0 <= j < i ==> d[j].0 != k
    ensures KeyIndex(d, k) == i && Lookup(d, k) == Some(d[i].1)
  {
  }

  lemma {:induction false} LookupMissing<V>(d: Entries<V>, k: string)
    requires forall j :: 0 <= j < |d| ==> d[j].0 != k
    ensures KeyIndex(d, k) == -1 && Lookup(d, k) == None
  {
  }

  /** No property name occurs twice, as in every JavaScript object. */
  predicate DistinctKeys<V>(d: Entries<V>) {
    forall i, j :: 0 <= i < j < |d| ==> d[i].0 != d[j].0
  }

  /** `obj[k] = v`: an existing property keeps its place, a new one is added last. */
  function Assign<V>(d: Entries<V>, k: string, v: V): (r: Entries<V>)
    ensures Lookup(r, k) == Some(v)
    ensures forall key :: key != k ==> Lookup(r, key) == Lookup(d, key)
    ensures forall key :: KeyIndex(r, key) >= 0 <==> KeyIndex(d, key) >= 0 || key == k
    ensures KeyIndex(d, k) >= 0 ==> |r| == |d| && KeyIndex(r, k) == KeyIndex(d, k)
    ensures KeyIndex(d, k) >= 0 ==> forall j :: 0 <= j < |d| && j != KeyIndex(d, k) ==> r[j] == d[j]
    ensures KeyIndex(d, k) < 0 ==> r == d + [(k, v)]
    ensures DistinctKeys(d) ==> DistinctKeys(r)
  {
    var i := KeyIndex(d, k);
    if i < 0 then
      var r := d + [(k, v)];
      assert forall key :: key != k ==> KeyIndex(r, key) == KeyIndex(d, key) by {
        forall key | key != k ensures KeyIndex(r, key) == KeyIndex(d, key) {
          var a, b := KeyIndex(r, key), KeyIndex(d, key);
          assert b >= 0 ==> r[b] == d[b];
          assert a >= 0 && a < |d| ==> r[a] == d[a];
        }
      }
      assert KeyIndex(r, k) == |d| by {
        assert r[|d|].0 == k;
        assert forall j :: 0 <= j < |d| ==> r[j] == d[j];
      }
      r
    else
      var r := d[i := (k, v)];
      assert forall key :: KeyIndex(r, key) == KeyIndex(d, key) by {
        forall key ensures KeyIndex(r, key) == KeyIndex(d, key) {
          var a, b := KeyIndex(r, key), KeyIndex(d, key);
          assert forall j :: 0 <= j < |d| ==> r[j].0 == d[j].0;
        }
      }
      r
  }

  /** `{ ...target, ...src }` read as assigning each property of `src` in entry order. */
  function Spread<V>(target: Entries<V>, src: Entries<V>): Entries<V>
    decreases |src|
  {
    if |src| == 0 then target
    else
      var last := src[|src| - 1];
      Assign(Spread(target, src[..|src| - 1]), last.0, last.1)
  }

  /** `{ ...defaults, ...input }`. */
  function Merge<V>(defaults: Entries<V>, input: Entries<V>): Entries<V> {
    Spread(Spread([], defaults), input)
  }

  /** `const { name, ...rest } = obj`: `rest` has the other properties, in order. */
  function Omit<V>(d: Entries<V>, names: seq<string>): (r: Entries<V>)
    decreases |d|
  {
    if |d| == 0 then []
    else Omit(d[..|d| - 1], names) + (if d[|d| - 1].0 in names then [] else [d[|d| - 1]])
  }

  /** Each default in its own place, holding the input's value when the input has that property. */
  function Overridden<V>(defaults: Entries<V>, input: Entries<V>): (r: Entries<V>)
    ensures |r| == |defaults|
  {
    seq(|defaults|, i requires 0 <= i < |defaults| =>
      (defaults[i].0, match Lookup(input, defaults[i].0) case Some(v) => v case None => defaults[i].1))
  }

  /** The input's properties that no default has, in input order. */
  function Extras<V>(defaults: Entries<V>, input: Entries<V>): Entries<V>
    decreases |input|
  {
    if |input| == 0 then []
    else
      var last := input[|input| - 1];
      Extras(defaults, input[..|input| - 1]) + (if KeyIndex(defaults, last.0) < 0 then [last] else [])
  }

  /** Spreading an object with distinct keys into an empty one copies it in order. */
  lemma {:induction false} SpreadCopies<V>(src: Entries<V>)
    requires DistinctKeys(src)
    ensures Spread([], src) == src
    decreases |src|
  {
    if |src| > 0 {
      var init := src[..|src| - 1];
      assert DistinctKeys(init);
      SpreadCopies(init);
      assert KeyIndex(init, src[|src| - 1].0) == -1;
      assert init + [src[|src| - 1]] == src;
    }
  }

  lemma {:induction false} ExtrasAvoid<V>(defaults: Entries<V>, input: Entries<V>, k: string)
    requires forall j :: 0 <= j < |input| ==> input[j].0 != k
    ensures forall j :: 0 <= j < |Extras(defaults, input)| ==> Extras(defaults, input)[j].0 != k
    decreases |input|
  {
    if |input| > 0 {
      ExtrasAvoid(defaults, input[..|input| - 1], k);
    }
  }

  /** The input's first `n + 1` properties against its first `n`: only property `n` differs. */
  lemma {:induction false} PrefixLookups<V>(input: Entries<V>, n: nat)
    requires DistinctKeys(input) && n < |input|
    ensures Lookup(input[..n + 1], input[n].0) == Some(input[n].1)
    ensures forall key :: key != input[n].0 ==> Lookup(input[..n + 1], key) == Lookup(input[..n], key)
    ensures forall j :: 0 <= j < n ==> input[..n][j].0 != input[n].0
  {
    var k := input[n].0;
    var pre, post := input[..n], input[..n + 1];
    assert forall j :: 0 <= j < n ==> pre[j] == post[j] == input[j];
    assert forall j :: 0 <= j < n ==> pre[j].0 != k;
    LookupAt(post, k, n);
    forall key | key != k ensures Lookup(post, key) == Lookup(pre, key) {
      var a, b := KeyIndex(post, key), KeyIndex(pre, key);
      assert b >= 0 ==> post[b] == pre[b];
      assert a >= 0 && a < n ==> post[a] == pre[a];
    }
  }

  /** The overridden defaults change only where a default is named `k`. */
  lemma {:induction false} OverriddenStep<V>(defaults: Entries<V>, pre: Entries<V>, post: Entries<V>, k: string, v: V)
    requires Lookup(post, k) == Some(v) && forall key :: key != k ==> Lookup(post, key) == Lookup(pre, key)
    ensures forall j :: 0 <= j < |defaults| ==>
              Overridden(defaults, post)[j] == if defaults[j].0 == k then (k, v) else Overridden(defaults, pre)[j]
  {
  }

  /** Merge step for a property a default has: it overwrites that default in place. */
  lemma {:induction false} MergePresent<V>(defaults: Entries<V>, pre: Entries<V>, post: Entries<V>, k: string, v: V, i: nat)
    requires DistinctKeys(defaults) && i < |defaults| && KeyIndex(defaults, k) == i
    requires Lookup(post, k) == Some(v) && forall key :: key != k ==> Lookup(post, key) == Lookup(pre, key)
    requires Extras(defaults, post) == Extras(defaults, pre)
    ensures Assign(Overridden(defaults, pre) + Extras(defaults, pre), k, v) == Overridden(defaults, post) + Extras(defaults, post)
  {
    var o, x := Overridden(defaults, pre), Extras(defaults, pre);
    var ox := o + x;
    OverriddenStep(defaults, pre, post, k, v);
    assert o[i].0 == k && forall j :: 0 <= j < i ==> o[j].0 != k by {
      assert forall j :: 0 <= j < |o| ==> o[j].0 == defaults[j].0;
    }
    KeyFirstConcat(o, x, k, i);
    var lhs := Assign(ox, k, v);
    var rhs := Overridden(defaults, post) + x;
    assert |lhs| == |rhs|;
    forall j | 0 <= j < |lhs| ensures lhs[j] == rhs[j] {
      if j < |defaults| && j != i {
        assert defaults[j].0 != k;
      }
    }
  }

  /** Merge step for a property no default has: it is added last. */
  lemma {:induction false} MergeAbsent<V>(defaults: Entries<V>, pre: Entries<V>, post: Entries<V>, k: string, v: V)
    requires KeyIndex(defaults, k) == -1
    requires Lookup(post, k) == Some(v) && forall key :: key != k ==> Lookup(post, key) == Lookup(pre, key)
    requires forall j :: 0 <= j < |Extras(defaults, pre)| ==> Extras(defaults, pre)[j].0 != k
    requires Extras(defaults, post) == Extras(defaults, pre) + [(k, v)]
    ensures Assign(Overridden(defaults, pre) + Extras(defaults, pre), k, v) == Overridden(defaults, post) + Extras(defaults, post)
  {
    var o, x := Overridden(defaults, pre), Extras(defaults, pre);
    var ox := o + x;
    OverriddenUnchanged(defaults, pre, post, k, v);
    assert forall j :: 0 <= j < |o| ==> o[j].0 != k by {
      assert forall j :: 0 <= j < |o| ==> o[j].0 == defaults[j].0;
    }
    KeyAbsentConcat(o, x, k);
    assert Assign(ox, k, v) == ox + [(k, v)];
    assert ox + [(k, v)] == o + (x + [(k, v)]);
  }

  lemma {:induction false} KeyFirstConcat<V>(a: Entries<V>, b: Entries<V>, k: string, i: nat)
    requires i < |a| && a[i].0 == k && forall j :: 0 <= j < i ==> a[j].0 != k
    ensures KeyIndex(a + b, k) == i
  {
    var ab := a + b;
    assert forall j :: 0 <= j <= i ==> ab[j] == a[j];
    LookupAt(ab, k, i);
  }

  lemma {:induction false} KeyAbsentConcat<V>(a: Entries<V>, b: Entries<V>, k: string)
    requires forall j :: 0 <= j < |a| ==> a[j].0 != k
    requires forall j :: 0 <= j < |b| ==> b[j].0 != k
    ensures KeyIndex(a + b, k) == -1
  {
    var ab := a + b;
    assert forall j :: 0 <= j < |ab| ==> ab[j].0 != k by {
      assert forall j :: 0 <= j < |b| ==> ab[|a| + j] == b[j];
    }
    LookupMissing(ab, k);
  }

  lemma {:induction false} OverriddenUnchanged<V>(defaults: Entries<V>, pre: Entries<V>, post: Entries<V>, k: string, v: V)
    requires KeyIndex(defaults, k) == -1
    requires Lookup(post, k) == Some(v) && forall key :: key != k ==> Lookup(post, key) == Lookup(pre, key)
    ensures Overridden(defaults, post) == Overridden(defaults, pre)
  {
    OverriddenStep(defaults, pre, post, k, v);
  }

  /** Adding one input property to the merge built so far. */
  lemma {:induction false} MergeStep<V>(defaults: Entries<V>, input: Entries<V>, n: nat)
    requires DistinctKeys(defaults) && DistinctKeys(input) && n < |input|
    ensures Assign(Overridden(defaults, input[..n]) + Extras(defaults, input[..n]), input[n].0, input[n].1)
            == Overridden(defaults, input[..n + 1]) + Extras(defaults, input[..n + 1])
  {
    var k, v := input[n].0, input[n].1;
    var pre, post := input[..n], input[..n + 1];
    PrefixLookups(input, n);
    ExtrasAvoid(defaults, pre, k);
    assert Extras(defaults, post) == Extras(defaults, pre) + (if KeyIndex(defaults, k) < 0 then [(k, v)] else []) by {
      assert post[..n] == pre && post[n] == (k, v);
    }
    var i := KeyIndex(defaults, k);
    if i >= 0 {
      MergePresent(defaults, pre, post, k, v, i);
    } else {
      MergeAbsent(defaults, pre, post, k, v);
    }
  }

  /**
   * `{ ...defaults, ...input }`: every default keeps its position and takes
   * the input's value where the input has the key; the input's other keys
   * follow, in input order.
   */
  lemma {:induction false} MergeShape<V>(defaults: Entries<V>, input: Entries<V>)
    requires DistinctKeys(defaults) && DistinctKeys(input)
    ensures Merge(defaults, input) == Overridden(defaults, input) + Extras(defaults, input)
  {
    SpreadCopies(defaults);
    var n := 0;
    assert input[..0] == [];
    assert Overridden(defaults, []) == defaults;
    while n < |input|
      invariant n <= |input|
      invariant Spread(defaults, input[..n]) == Overridden(defaults, input[..n]) + Extras(defaults, input[..n])
    {
      var post := input[..n + 1];
      assert post[..n] == input[..n] && post[n] == input[n];
      MergeStep(defaults, input, n);
      n := n + 1;
    }
    assert input[..|input|] == input;
  }

  // ---------------------------------------------------------------- key conversion

  predicate IsAsciiUpper(c: char) { 'A' <= c <= 'Z' }
  predicate IsAsciiLower(c: char) { 'a' <= c <= 'z' }

  /** `toUpperCase` of one character, on the ASCII range. */
  function ToUpperCase(c: char): char {
    if IsAsciiLower(c) then (c as int - 32) as char else c
  }

  /** `toLowerCase` of one character, on the ASCII range. */
  function ToLowerCase(c: char): char {
    if IsAsciiUpper(c) then (c as int + 32) as char else c
  }

  /** The converter's test: a character counts as upper case when upper-casing leaves it unchanged. */
  predicate CountsAsUpper(c: char) {
    ToUpperCase(c) == c
  }

  /** What the character at index `id` becomes. */
  function KebabPiece(c: char, id: nat): string {
    if CountsAsUpper(c) then (if id == 0 then "" else "-") + [ToLowerCase(c)] else [c]
  }

  /** `camelCaseToKebabCase`: the pieces of a map over the characters, joined. */
  function Kebab(s: string): string
    decreases |s|
  {
    if |s| == 0 then "" else Kebab(s[..|s| - 1]) + KebabPiece(s[|s| - 1], |s| - 1)
  }

  lemma {:induction false} KebabLonger(s: string)
    ensures |Kebab(s)| >= |s|
    decreases |s|
  {
    if |s| > 0 {
      KebabLonger(s[..|s| - 1]);
    }
  }

  /** A character's piece is the character itself exactly when it is lower case, or, first, not upper case. */
  lemma {:induction false} PieceUnchanged(c: char, id: nat)
    ensures |KebabPiece(c, id)| >= 1
    ensures KebabPiece(c, id) == [c] <==> if id == 0 then !IsAsciiUpper(c) else IsAsciiLower(c)
  {
    if CountsAsUpper(c) {
      assert !IsAsciiLower(c);
      if id == 0 {
        assert KebabPiece(c, id) == [ToLowerCase(c)];
      } else {
        assert |KebabPiece(c, id)| == 2;
      }
    } else {
      assert IsAsciiLower(c) && KebabPiece(c, id) == [c];
    }
  }

  lemma {:induction false} SnocEquals(a: string, b: string, p: string, c: char)
    requires |a| >= |p| && |b| >= 1
    ensures a + b == p + [c] <==> a == p && b == [c]
  {
    if a + b == p + [c] {
      assert |a| == |p| && |b| == 1;
      assert a == (a + b)[..|a|];
      assert b == (a + b)[|a|..];
    }
  }

  /** The condition of `KebabUnchangedIff`, split at the last character. */
  predicate KeepsCase(s: string) {
    (forall i :: 0 < i < |s| ==> IsAsciiLower(s[i])) && (|s| > 0 ==> !IsAsciiUpper(s[0]))
  }

  lemma {:induction false} KeepsCaseSnoc(p: string, c: char)
    ensures KeepsCase(p + [c]) <==> KeepsCase(p) && if |p| == 0 then !IsAsciiUpper(c) else IsAsciiLower(c)
  {
    var s := p + [c];
    assert forall i :: 0 <= i < |p| ==> s[i] == p[i];
    assert s[|p|] == c;
  }

  /** A key is left unchanged exactly when every character after the first is a lower-case letter and the first is not an upper-case one. */
  lemma {:induction false} KebabUnchangedIff(s: string)
    ensures Kebab(s) == s <==> KeepsCase(s)
    decreases |s|
  {
    if |s| > 0 {
      var p, c := s[..|s| - 1], s[|s| - 1];
      assert s == p + [c];
      KebabUnchangedIff(p);
      KebabLonger(p);
      PieceUnchanged(c, |p|);
      SnocEquals(Kebab(p), KebabPiece(c, |p|), p, c);
      KeepsCaseSnoc(p, c);
    }
  }

  /** The converted key has no upper-case ASCII letter left. */
  lemma {:induction false} KebabLowerCase(s: string)
    ensures forall i :: 0 <= i < |Kebab(s)| ==> !IsAsciiUpper(Kebab(s)[i])
    decreases |s|
  {
    if |s| > 0 {
      KebabLowerCase(s[..|s| - 1]);
    }
  }

  /** Converting a key with a character appended converts the character by its index. */
  lemma {:induction false} KebabSnoc(s: string, c: char)
    ensures Kebab(s + [c]) == Kebab(s) + KebabPiece(c, |s|)
  {
    assert (s + [c])[..|s|] == s;
  }

  predicate AllAsciiLower(w: string) {
    forall i :: 0 <= i < |w| ==> IsAsciiLower(w[i])
  }

  /** Lower-case letters are copied through, wherever they stand. */
  lemma {:induction false} KebabLowerTail(s: string, w: string)
    requires AllAsciiLower(w)
    ensures Kebab(s + w) == Kebab(s) + w
    decreases |w|
  {
    if |w| == 0 {
      assert s + w == s;
    } else {
      var init, last := w[..|w| - 1], w[|w| - 1];
      assert w == init + [last];
      assert s + w == (s + init) + [last];
      assert AllAsciiLower(init) && IsAsciiLower(last);
      KebabLowerTail(s, init);
      KebabSnoc(s + init, last);
      PieceUnchanged(last, |s + init|);
      assert Kebab(s) + init + [last] == Kebab(s) + w;
    }
  }

  /** A capitalised word after the first position becomes a dash and the word in lower case. */
  lemma {:induction false} KebabWord(s: string, c: char, w: string)
    requires |s| > 0 && IsAsciiUpper(c) && AllAsciiLower(w)
    ensures Kebab(s + [c] + w) == Kebab(s) + "-" + [ToLowerCase(c)] + w
  {
    KebabSnoc(s, c);
    KebabLowerTail(s + [c], w);
  }

  /** A key of one lower-case word is unchanged. */
  lemma {:induction false} KebabOneWord(w0: string)
    requires AllAsciiLower(w0)
    ensures Kebab(w0) == w0
  {
    KebabLowerTail([], w0);
    assert [] + w0 == w0;
  }

  /** A key of two words, the second capitalised. */
  lemma {:induction false} KebabTwoWords(w0: string, c1: char, w1: string)
    requires |w0| > 0 && AllAsciiLower(w0) && AllAsciiLower(w1) && IsAsciiUpper(c1)
    ensures Kebab(w0 + [c1] + w1) == w0 + "-" + [ToLowerCase(c1)] + w1
  {
    KebabOneWord(w0);
    KebabWord(w0, c1, w1);
  }

  /** A key of three words, the last two capitalised. */
  lemma {:induction false} KebabThreeWords(w0: string, c1: char, w1: string, c2: char, w2: string)
    requires |w0| > 0 && AllAsciiLower(w0) && AllAsciiLower(w1) && AllAsciiLower(w2)
    requires IsAsciiUpper(c1) && IsAsciiUpper(c2)
    ensures Kebab(w0 + [c1] + w1 + [c2] + w2) == w0 + "-" + [ToLowerCase(c1)] + w1 + "-" + [ToLowerCase(c2)] + w2
  {
    KebabTwoWords(w0, c1, w1);
    KebabWord(w0 + [c1] + w1, c2, w2);
  }

  /** A key of four words, the last three capitalised. */
  lemma {:induction false} KebabFourWords(w0: string, c1: char, w1: string, c2: char, w2: string, c3: char, w3: string)
    requires |w0| > 0 && AllAsciiLower(w0) && AllAsciiLower(w1) && AllAsciiLower(w2) && AllAsciiLower(w3)
    requires IsAsciiUpper(c1) && IsAsciiUpper(c2) && IsAsciiUpper(c3)
    ensures Kebab(w0 + [c1] + w1 + [c2] + w2 + [c3] + w3)
            == w0 + "-" + [ToLowerCase(c1)] + w1 + "-" + [ToLowerCase(c2)] + w2 + "-" + [ToLowerCase(c3)] + w3
  {
    KebabThreeWords(w0, c1, w1, c2, w2);
    KebabWord(w0 + [c1] + w1 + [c2] + w2, c3, w3);
  }

  lemma {:induction false} KebabExampleWords()
    ensures "includeChaptersAndSections" == "include" + ['C'] + "hapters" + ['A'] + "nd" + ['S'] + "ections"
    ensures AllAsciiLower("include") && AllAsciiLower("hapters") && AllAsciiLower("nd") && AllAsciiLower("ections")
  {
  }

  lemma {:induction false} KebabExampleJoined()
    ensures "include" + "-" + [ToLowerCase('C')] + "hapters" + "-" + [ToLowerCase('A')] + "nd" + "-" + [ToLowerCase('S')] + "ections"
            == "include-chapters-and-sections"
  {
    assert ToLowerCase('C') == 'c' && ToLowerCase('A') == 'a' && ToLowerCase('S') == 's';
  }

  lemma {:induction false} KebabExample(s: string)
    requires s == "includeChaptersAndSections"
    ensures Kebab(s) == "include-chapters-and-sections"
  {
    KebabExampleWords();
    KebabFourWords("include", 'C', "hapters", 'A', "nd", 'S', "ections");
    KebabExampleJoined();
  }

  // ---------------------------------------------------------------- approved parameters

  /** `String(value)`; an array becomes its items joined with commas. */
  function Render(v: QueryValue): string {
    match v
    case Text(t) => t
    case Number(n) => IntToString(n)
    case Flag(b) => if b then "true" else "false"
    case List(items) => Join(items, ",")
    case Undefined => "undefined"
  }

  /** The rendering keeps numbers and flags recoverable. */
  lemma {:induction false} RenderRecoverable(v: QueryValue)
    ensures v.Number? ==> NumberOf(Render(v)) == Some(v.number)
    ensures v.Flag? ==> (Render(v) == "true" <==> v.flag) && (Render(v) == "false" <==> !v.flag)
    ensures v.List? && |v.items| == 1 ==> Render(v) == v.items[0]
  {
    if v.Number? {
      IntToStringRoundTrip(v.number);
    }
  }

  /** The approved parameters after the entries have been visited in order. */
  function Approved(p: Entries<QueryValue>): Entries<string>
    decreases |p|
  {
    if |p| == 0 then []
    else
      var prev := Approved(p[..|p| - 1]);
      var (key, value) := p[|p| - 1];
      if value.Undefined? then prev else Assign(prev, Kebab(key), Render(value))
  }

  /** `getQueryStringFromObject` up to the `URLSearchParams` serialisation. */
  method QueryParameters(parameters: Entries<QueryValue>) returns (approved: Entries<string>)
    ensures approved == Approved(parameters)
  {
    approved := [];
    for i := 0 to |parameters|
      invariant approved == Approved(parameters[..i])
    {
      var (key, value) := parameters[i];
      assert parameters[..i + 1][..i] == parameters[..i];
      if value.Undefined? {
        continue;
      }
      var kebabCaseKey := Kebab(key);
      approved := Assign(approved, kebabCaseKey, Render(value));
    }
    assert parameters[..|parameters|] == parameters;
  }

  /** The defined entries, converted: the reference the approved list is compared with. */
  function Rendered(p: Entries<QueryValue>): Entries<string>
    decreases |p|
  {
    if |p| == 0 then []
    else
      var (key, value) := p[|p| - 1];
      Rendered(p[..|p| - 1]) + (if value.Undefined? then [] else [(Kebab(key), Render(value))])
  }

  /** Without undefined values, entry `i` of the reference is entry `i` of the object, converted. */
  lemma {:induction false} RenderedDefined(p: Entries<QueryValue>)
    requires forall i :: 0 <= i < |p| ==> !p[i].1.Undefined?
    ensures |Rendered(p)| == |p|
    ensures forall i :: 0 <= i < |p| ==> Rendered(p)[i] == (Kebab(p[i].0), Render(p[i].1))
    decreases |p|
  {
    if |p| > 0 {
      var init := p[..|p| - 1];
      RenderedDefined(init);
      assert forall i :: 0 <= i < |init| ==> init[i] == p[i];
    }
  }

  /** Undefined values are dropped and the rest keep entry order, when no two keys convert alike. */
  lemma {:induction false} ApprovedShape(p: Entries<QueryValue>)
    requires DistinctKeys(Rendered(p))
    ensures Approved(p) == Rendered(p)
    decreases |p|
  {
    if |p| > 0 {
      var init := p[..|p| - 1];
      var (key, value) := p[|p| - 1];
      var r := Rendered(init);
      assert Rendered(p)[..|r|] == r;
      assert DistinctKeys(r);
      ApprovedShape(init);
      if !value.Undefined? {
        assert Rendered(p) == r + [(Kebab(key), Render(value))];
        assert forall j :: 0 <= j < |r| ==> r[j].0 != Kebab(key) by {
          forall j | 0 <= j < |r| ensures r[j].0 != Kebab(key) {
            assert Rendered(p)[j] == r[j] && Rendered(p)[|r|].0 == Kebab(key);
          }
        }
      }
    }
  }

  /** A request's approved list: the merge's shape, converted, when no two of its keys convert alike. */
  lemma {:induction false} RequestShape(defaults: Entries<QueryValue>, input: Entries<QueryValue>)
    requires DistinctKeys(defaults) && DistinctKeys(input)
    requires DistinctKeys(Rendered(Overridden(defaults, input) + Extras(defaults, input)))
    ensures Approved(Merge(defaults, input)) == Rendered(Overridden(defaults, input) + Extras(defaults, input))
  {
    MergeShape(defaults, input);
    ApprovedShape(Overridden(defaults, input) + Extras(defaults, input));
  }

  /** Without input, a request sends its defaults, converted, in their order. */
  lemma {:induction false} DefaultsAlone(defaults: Entries<QueryValue>)
    requires DistinctKeys(defaults) && DistinctKeys(Rendered(defaults))
    ensures Approved(Merge(defaults, [])) == Rendered(defaults)
  {
    SpreadCopies(defaults);
    ApprovedShape(defaults);
  }

  /** Some entry with a defined value has a key that converts to `k`. */
  predicate HasDefinedKey(p: Entries<QueryValue>, k: string) {
    exists i :: 0 <= i < |p| && !p[i].1.Undefined? && Kebab(p[i].0) == k
  }

  lemma {:induction false} HasDefinedKeySnoc(p: Entries<QueryValue>, k: string)
    requires |p| > 0
    ensures HasDefinedKey(p, k) <==>
              HasDefinedKey(p[..|p| - 1], k) || (!p[|p| - 1].1.Undefined? && Kebab(p[|p| - 1].0) == k)
  {
    var init := p[..|p| - 1];
    assert forall i :: 0 <= i < |init| ==> init[i] == p[i];
    if HasDefinedKey(p, k) {
      var i :| 0 <= i < |p| && !p[i].1.Undefined? && Kebab(p[i].0) == k;
      if i < |init| {
        assert !init[i].1.Undefined? && Kebab(init[i].0) == k;
      }
    }
    if HasDefinedKey(init, k) {
      var i :| 0 <= i < |init| && !init[i].1.Undefined? && Kebab(init[i].0) == k;
      assert !p[i].1.Undefined? && Kebab(p[i].0) == k;
    }
  }

  /** A key is approved exactly when some defined entry converts to it, and no key is approved twice. */
  lemma {:induction false} ApprovedKeys(p: Entries<QueryValue>, k: string)
    ensures KeyIndex(Approved(p), k) >= 0 <==> HasDefinedKey(p, k)
    ensures DistinctKeys(Approved(p))
    decreases |p|
  {
    if |p| > 0 {
      ApprovedKeys(p[..|p| - 1], k);
      HasDefinedKeySnoc(p, k);
    }
  }

  /** A later defined entry whose key converts to the same name overwrites the earlier value. */
  lemma {:induction false} LastValueWins(p: Entries<QueryValue>, key: string, v: QueryValue)
    requires !v.Undefined?
    ensures Lookup(Approved(p + [(key, v)]), Kebab(key)) == Some(Render(v))
  {
    assert (p + [(key, v)])[..|p|] == p;
  }

  // ---------------------------------------------------------------- the request builders

  const BiblesDefaults: Entries<QueryValue> := [("language", Text("eng")), ("includeFullDetails", Flag(false))]

  const BooksDefaults: Entries<QueryValue> :=
    [("includeChapters", Flag(false)), ("includeChaptersAndSections", Flag(false))]

  const VerseDefaults: Entries<QueryValue> :=
    [("contentType", Text("json")), ("includeNotes", Flag(false)), ("includeTitles", Flag(false)),
     ("includeChapterNumbers", Flag(false)), ("includeVerseNumbers", Flag(false)),
     ("includeVerseSpans", Flag(false)), ("useOrgId", Flag(false))]

  const PassageDefaults: Entries<QueryValue> :=
    [("contentType", Text("json")), ("includeNotes", Flag(false)), ("includeTitles", Flag(true)),
     ("includeChapterNumbers", Flag(false)), ("includeVerseNumbers", Flag(true)),
     ("includeVerseSpans", Flag(false)), ("useOrgId", Flag(false))]

  /** `getBibles`: the defaults, then the input (which has no path parameter). */
  function BiblesQuery(input: Entries<QueryValue>): Entries<string> {
    Approved(Merge(BiblesDefaults, input))
  }

  /** `getBooks`: `bibleId` goes into the path, the rest over the defaults. */
  function BooksQuery(input: Entries<QueryValue>): Entries<string> {
    Approved(Merge(BooksDefaults, Omit(input, ["bibleId"])))
  }

  function VerseQuery(input: Entries<QueryValue>): Entries<string> {
    Approved(Merge(VerseDefaults, Omit(input, ["bibleId", "verseId"])))
  }

  function PassageQuery(input: Entries<QueryValue>): Entries<string> {
    Approved(Merge(PassageDefaults, Omit(input, ["bibleId", "passageId"])))
  }

  /** `searchForVerses`: no defaults at all. */
  function SearchQuery(input: Entries<QueryValue>): Entries<string> {
    Approved(Omit(input, ["bibleId"]))
  }
}
