/**
 * The few JavaScript string primitives the core relies on, written out:
 * `charAt`, `trim`, `indexOf`, `includes`, `split`, `join`, `Number(...)`
 * on a string and the decimal rendering of an integer.
 */
module JsText {
  import opened Wrappers

  /** ECMAScript WhiteSpace and LineTerminator code points (what `trim` and `Number` strip). */
  predicate IsJsWhitespace(c: char) {
    || c == '\t' || c == '\n' || c == '\U{000B}' || c == '\U{000C}' || c == '\r'
    || c == ' ' || c == '\U{00A0}' || c == '\U{1680}'
    || ('\U{2000}' <= c <= '\U{200A}')
    || c == '\U{2028}' || c == '\U{2029}' || c == '\U{202F}' || c == '\U{205F}'
    || c == '\U{3000}' || c == '\U{FEFF}'
  }

  predicate IsDigit(c: char) {
    '0' <= c <= '9'
  }

  /** A character of the regular-expression class `[a-zA-Z]`. */
  predicate IsAsciiLetter(c: char) {
    ('a' <= c <= 'z') || ('A' <= c <= 'Z')
  }

  predicate AllDigits(s: string) {
    forall k :: 0 <= k < |s| ==> IsDigit(s[k])
  }

  /** `s.charAt(i)`: the one-character string at `i`, or `""` outside the string. */
  function CharAt(s: string, i: int): string {
    if 0 <= i < |s| then [s[i]] else ""
  }

  // ---------------------------------------------------------------- trim

  /** Number of whitespace characters at the start of `s`. */
  function LeadingSpace(s: string): (n: nat)
    ensures n <= |s|
    ensures forall k :: 0 <= k < n ==> IsJsWhitespace(s[k])
    ensures n == |s| || !IsJsWhitespace(s[n])
  {
    if |s| > 0 && IsJsWhitespace(s[0]) then 1 + LeadingSpace(s[1..]) else 0
  }

  /** Index at which the run of whitespace that ends `s` begins. */
  function TrailingStart(s: string): (n: nat)
    ensures n <= |s|
    ensures forall k :: n <= k < |s| ==> IsJsWhitespace(s[k])
    ensures n == 0 || !IsJsWhitespace(s[n - 1])
  {
    if |s| > 0 && IsJsWhitespace(s[|s| - 1]) then TrailingStart(s[..|s| - 1]) else |s|
  }

  /** `s.trim()`: `s` without its leading and trailing whitespace. */
  function Trim(s: string): (r: string)
    ensures LeadingSpace(s) + |r| <= |s|
    ensures |r| > 0 ==> !IsJsWhitespace(r[0]) && !IsJsWhitespace(r[|r| - 1])
    ensures r == s[LeadingSpace(s)..LeadingSpace(s) + |r|]
    ensures forall k :: LeadingSpace(s) + |r| <= k < |s| ==> IsJsWhitespace(s[k])
  {
    var t := s[LeadingSpace(s)..];
    t[..TrailingStart(t)]
  }

  /** A string that neither starts nor ends with whitespace is its own trim. */
  lemma {:induction false} TrimNoSpace(s: string)
    requires |s| > 0 ==> !IsJsWhitespace(s[0]) && !IsJsWhitespace(s[|s| - 1])
    ensures Trim(s) == s
  {
    var t := s[LeadingSpace(s)..];
    assert t == s;
    if |s| > 0 {
      assert TrailingStart(t) == |t|;
    }
  }

  /** A leading space does not change the trim. */
  lemma {:induction false} TrimLeadingSpace(t: string)
    ensures Trim(" " + t) == Trim(t)
  {
    var s := " " + t;
    assert s[1..] == t;
    assert LeadingSpace(s) == 1 + LeadingSpace(t);
    assert s[LeadingSpace(s)..] == t[LeadingSpace(t)..];
  }

  /** Trimming removes only whitespace, so it keeps every non-whitespace character. */
  lemma {:induction false} TrimKeeps(s: string, k: int)
    requires 0 <= k < |s| && !IsJsWhitespace(s[k])
    ensures LeadingSpace(s) <= k < LeadingSpace(s) + |Trim(s)|
    ensures Trim(s)[k - LeadingSpace(s)] == s[k]
  {
  }

  /** Trimming twice is trimming once. */
  lemma {:induction false} TrimIdempotent(s: string)
    ensures Trim(Trim(s)) == Trim(s)
  {
    TrimNoSpace(Trim(s));
  }

  // ---------------------------------------------------------------- indexOf, split

  predicate OccursAt(s: string, sub: string, i: int) {
    0 <= i && i + |sub| <= |s| && s[i..i + |sub|] == sub
  }

  function IndexOfFrom(s: string, sub: string, i: nat): (r: int)
    decreases |s| - i
    ensures r == -1 || (i <= r && OccursAt(s, sub, r))
    ensures forall k :: i <= k && (r == -1 || k < r) ==> !OccursAt(s, sub, k)
  {
    if i + |sub| > |s| then -1
    else if s[i..i + |sub|] == sub then i
    else IndexOfFrom(s, sub, i + 1)
  }

  /** `s.indexOf(sub)`: the first position at which `sub` occurs in `s`, or -1. */
  function IndexOf(s: string, sub: string): (r: int)
    ensures -1 <= r
    ensures r >= 0 ==> OccursAt(s, sub, r)
    ensures forall k :: 0 <= k && (r == -1 || k < r) ==> !OccursAt(s, sub, k)
  {
    IndexOfFrom(s, sub, 0)
  }

  /** `s.includes(sub)`. */
  predicate Includes(s: string, sub: string) {
    IndexOf(s, sub) >= 0
  }

  /** A string is not found in a text that lacks one of its characters. */
  lemma {:induction false} MissingCharNotIncluded(u: string, sub: string, k: nat)
    requires k < |sub| && sub[k] !in u
    ensures !Includes(u, sub)
  {
    forall i | 0 <= i
      ensures !OccursAt(u, sub, i)
    {
      if i + |sub| <= |u| {
        assert u[i..i + |sub|][k] == u[i + k];
      }
    }
  }

  /** `s.split(sep)` for a non-empty separator string. */
  function Split(s: string, sep: string): (parts: seq<string>)
    requires |sep| > 0
    ensures |parts| >= 1
    decreases |s|
  {
    var i := IndexOf(s, sep);
    if i < 0 then [s] else [s[..i]] + Split(s[i + |sep|..], sep)
  }

  /** `parts.join(sep)`. */
  function Join(parts: seq<string>, sep: string): string
    decreases |parts|
  {
    if |parts| == 0 then ""
    else if |parts| == 1 then parts[0]
    else parts[0] + sep + Join(parts[1..], sep)
  }

  /** Joining the pieces of a split with the same separator gives back the string. */
  lemma {:induction false} SplitJoin(s: string, sep: string)
    requires |sep| > 0
    ensures Join(Split(s, sep), sep) == s
    decreases |s|
  {
    var i := IndexOf(s, sep);
    if i >= 0 {
      var rest := s[i + |sep|..];
      var tail := Split(rest, sep);
      SplitJoin(rest, sep);
      var parts := [s[..i]] + tail;
      assert Split(s, sep) == parts;
      assert parts[0] == s[..i] && parts[1..] == tail;
      assert Join(parts, sep) == s[..i] + sep + Join(tail, sep);
      assert s[i..i + |sep|] == sep;
      assert s == s[..i] + s[i..i + |sep|] + rest;
    }
  }

  /** A split yields at least two pieces exactly when the separator occurs. */
  lemma {:induction false} SplitHasSecond(s: string, sep: string)
    requires |sep| > 0
    ensures |Split(s, sep)| >= 2 <==> Includes(s, sep)
  {
  }

  /** `s.includes(c)` for one character: some position holds `c`. */
  lemma {:induction false} IncludesChar(s: string, c: char)
    ensures Includes(s, [c]) <==> exists k :: 0 <= k < |s| && s[k] == c
  {
    if Includes(s, [c]) {
      var i := IndexOf(s, [c]);
      assert s[i..i + 1] == [c];
      assert s[i] == c;
    } else {
      forall k | 0 <= k < |s| ensures s[k] != c {
        assert !OccursAt(s, [c], k);
        assert s[k..k + 1] == [s[k]];
      }
    }
  }

  /** A string without the separator character splits into itself. */
  lemma {:induction false} SplitAbsent(a: string, c: char)
    requires forall k :: 0 <= k < |a| ==> a[k] != c
    ensures Split(a, [c]) == [a]
  {
    forall k | 0 <= k ensures !OccursAt(a, [c], k) {
      if k + 1 <= |a| {
        assert a[k..k + 1] == [a[k]];
      }
    }
    assert IndexOf(a, [c]) == -1;
  }

  /** Splitting at the first occurrence of a one-character separator. */
  lemma {:induction false} SplitFirst(a: string, c: char, b: string)
    requires forall k :: 0 <= k < |a| ==> a[k] != c
    ensures Split(a + [c] + b, [c]) == [a] + Split(b, [c])
  {
    var s := a + [c] + b;
    var i := IndexOf(s, [c]);
    assert OccursAt(s, [c], |a|) by {
      assert s[|a|..|a| + 1] == [c];
    }
    forall k | 0 <= k < |a| ensures !OccursAt(s, [c], k) {
      assert s[k..k + 1] == [a[k]];
    }
    assert i == |a|;
    assert s[..i] == a;
    assert s[i + 1..] == b;
  }

  /** Number of occurrences of `c` in `s` (what `s.match(/c/g)?.length` counts). */
  function Count(s: string, c: char): nat
    decreases |s|
  {
    if |s| == 0 then 0 else (if s[0] == c then 1 else 0) + Count(s[1..], c)
  }

  lemma {:induction false} CountAppend(a: string, b: string, c: char)
    ensures Count(a + b, c) == Count(a, c) + Count(b, c)
    decreases |a|
  {
    if |a| > 0 {
      assert (a + b)[0] == a[0];
      assert (a + b)[1..] == a[1..] + b;
      CountAppend(a[1..], b, c);
    } else {
      assert a + b == b;
    }
  }

  lemma {:induction false} CountAbsent(s: string, c: char)
    requires forall k :: 0 <= k < |s| ==> s[k] != c
    ensures Count(s, c) == 0
    decreases |s|
  {
    if |s| > 0 {
      CountAbsent(s[1..], c);
    }
  }

  /** Splitting on a one-character separator gives one more piece than it has occurrences. */
  lemma {:induction false} SplitCharCount(s: string, c: char)
    ensures |Split(s, [c])| == Count(s, c) + 1
    decreases |s|
  {
    var i := IndexOf(s, [c]);
    if i < 0 {
      forall k | 0 <= k < |s| ensures s[k] != c {
        assert !OccursAt(s, [c], k);
        assert s[k..k + 1] == [s[k]];
      }
      CountAbsent(s, c);
    } else {
      var rest := s[i + 1..];
      SplitCharCount(rest, c);
      forall k | 0 <= k < i ensures s[..i][k] != c {
        assert !OccursAt(s, [c], k);
        assert s[k..k + 1] == [s[k]];
      }
      CountAbsent(s[..i], c);
      assert s[i..i + 1] == [c];
      assert s == s[..i] + [c] + rest;
      CountAppend(s[..i] + [c], rest, c);
      CountAppend(s[..i], [c], c);
    }
  }

  // ---------------------------------------------------------------- numbers

  function DigitValue(c: char): nat
    requires IsDigit(c)
  {
    (c as int - '0' as int) as nat
  }

  /** Value of a string of decimal digits, most significant first. */
  function DigitsValue(s: string): nat
    requires AllDigits(s)
    decreases |s|
  {
    if |s| == 0 then 0 else 10 * DigitsValue(s[..|s| - 1]) + DigitValue(s[|s| - 1])
  }

  /**
   * `Number(s)` when that is an integer, None otherwise. After trimming,
   * the empty string is 0 and an optional sign followed by decimal digits
   * is that integer; every other form counts as not an integer here.
   */
  function NumberOf(s: string): Option<int> {
    NumberOfTrimmed(Trim(s))
  }

  /** `Number` of an already trimmed string. */
  function NumberOfTrimmed(t: string): Option<int> {
    if |t| == 0 then Some(0)
    else if (t[0] == '-' || t[0] == '+') && |t| > 1 && AllDigits(t[1..]) then
      var v: int := DigitsValue(t[1..]);
      Some(if t[0] == '-' then -v else v)
    else if AllDigits(t) then Some(DigitsValue(t))
    else None
  }

  /** `Number.isInteger(Number(s))`. */
  predicate IsIntegerNumber(s: string) {
    NumberOf(s).Some?
  }

  function DigitChar(d: nat): (c: char)
    requires d < 10
    ensures IsDigit(c) && DigitValue(c) == d
  {
    ('0' as int + d) as char
  }

  /** Decimal rendering of a natural number, no leading zeros. */
  function NatToString(n: nat): (s: string)
    ensures |s| > 0 && AllDigits(s)
    decreases n
  {
    if n < 10 then [DigitChar(n)] else NatToString(n / 10) + [DigitChar(n % 10)]
  }

  /** `${n}` for an integer `n`. */
  function IntToString(n: int): (s: string)
    ensures |s| > 0
  {
    if n < 0 then "-" + NatToString(-n) else NatToString(n)
  }

  lemma {:induction false} NatToStringValue(n: nat)
    ensures DigitsValue(NatToString(n)) == n
    decreases n
  {
    if n >= 10 {
      NatToStringValue(n / 10);
      var s := NatToString(n);
      assert s[..|s| - 1] == NatToString(n / 10);
    }
  }

  /** `Number` reads back what integer rendering writes. */
  lemma {:induction false} IntToStringRoundTrip(n: int)
    ensures NumberOf(IntToString(n)) == Some(n)
  {
    var s := IntToString(n);
    TrimNoSpace(s);
    TrimmedRendering(n);
  }

  lemma {:induction false} TrimmedRendering(n: int)
    ensures NumberOfTrimmed(IntToString(n)) == Some(n)
  {
    var s := IntToString(n);
    if n < 0 {
      NatToStringValue(-n);
      assert s[1..] == NatToString(-n);
    } else {
      NatToStringValue(n);
    }
  }

  /** `Number` of a non-empty string of digits is its decimal value. */
  lemma {:induction false} NumberOfDigits(t: string)
    requires |t| > 0 && AllDigits(t)
    ensures NumberOf(t) == Some(DigitsValue(t))
  {
    TrimNoSpace(t);
    TrimmedDigits(t);
  }

  lemma {:induction false} TrimmedDigits(t: string)
    requires |t| > 0 && AllDigits(t)
    ensures NumberOfTrimmed(t) == Some(DigitsValue(t))
  {
  }

  /** A rendered integer contains only digits and, in front, a minus sign. */
  lemma {:induction false} IntToStringChars(n: int)
    ensures forall k :: 0 <= k < |IntToString(n)| ==>
      IsDigit(IntToString(n)[k]) || (k == 0 && n < 0 && IntToString(n)[k] == '-')
  {
  }
}
