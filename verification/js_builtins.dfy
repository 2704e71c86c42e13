/**
 * The JavaScript built-ins the storefront's core leans on, as value-level
 * functions: `Array.prototype.filter`, `find`, `slice` and `join`, and
 * `String.prototype.slice`, `trim`, `toLowerCase` and `includes`.
 * Strings are sequences of characters; `toLowerCase` maps the ASCII
 * letters only, and `trim` removes the ECMAScript white-space and
 * line-terminator characters.
 */
module JsBuiltins {

  datatype Option<+T> = None | Some(value: T) {
    function GetOr(default: T): T {
      match this
      case Some(v) => v
      case None => default
    }
  }

  // ---------------------------------------------------------------------
  // Arrays
  // ---------------------------------------------------------------------

  /** `Math.min` on integers. */
  function Min(a: int, b: int): int {
    if a <= b then a else b
  }

  /** `Math.max` on integers. */
  function Max(a: int, b: int): int {
    if a >= b then a else b
  }

  /** `Array.prototype.filter`: the elements satisfying `f`, in their order. */
  function Filter<T>(s: seq<T>, f: T -> bool): (r: seq<T>)
    ensures |r| <= |s|
    ensures forall i :: 0 <= i < |r| ==> r[i] in s && f(r[i])
    ensures forall i :: 0 <= i < |s| && f(s[i]) ==> s[i] in r
  {
    if s == [] then [] else (if f(s[0]) then [s[0]] else []) + Filter(s[1..], f)
  }

  lemma {:induction false} FilterAppend<T>(a: seq<T>, b: seq<T>, f: T -> bool)
    ensures Filter(a + b, f) == Filter(a, f) + Filter(b, f)
  {
    if a == [] {
      assert a + b == b;
    } else {
      assert (a + b)[1..] == a[1..] + b;
      FilterAppend(a[1..], b, f);
    }
  }

  /** Filtering twice keeps exactly what both predicates keep, in order. */
  lemma {:induction false} FilterFilter<T>(s: seq<T>, f: T -> bool, g: T -> bool, h: T -> bool)
    requires forall x :: h(x) == (f(x) && g(x))
    ensures Filter(Filter(s, f), g) == Filter(s, h)
  {
    if s != [] {
      FilterFilter(s[1..], f, g, h);
      var head := if f(s[0]) then [s[0]] else [];
      FilterAppend(head, Filter(s[1..], f), g);
    }
  }

  /** A predicate every element satisfies filters nothing out. */
  lemma {:induction false} FilterKeepsAll<T>(s: seq<T>, f: T -> bool)
    requires forall i :: 0 <= i < |s| ==> f(s[i])
    ensures Filter(s, f) == s
  {
    if s != [] {
      FilterKeepsAll(s[1..], f);
    }
  }

  /** The filtered sequence holds exactly the elements that pass. */
  lemma FilterMembers<T>(s: seq<T>, f: T -> bool, x: T)
    ensures x in Filter(s, f) <==> x in s && f(x)
  {
    var r := Filter(s, f);
    if x in r {
      var i :| 0 <= i < |r| && r[i] == x;
    }
    if x in s && f(x) {
      var i :| 0 <= i < |s| && s[i] == x;
    }
  }

  /** A predicate no element satisfies filters everything out. */
  lemma FilterNone<T>(s: seq<T>, f: T -> bool)
    requires forall i :: 0 <= i < |s| ==> !f(s[i])
    ensures Filter(s, f) == []
  {
  }

  /** Predicates that agree on every element filter alike. */
  lemma {:induction false} FilterCongruent<T>(s: seq<T>, f: T -> bool, g: T -> bool)
    requires forall i :: 0 <= i < |s| ==> f(s[i]) == g(s[i])
    ensures Filter(s, f) == Filter(s, g)
  {
    if s != [] {
      FilterCongruent(s[1..], f, g);
    }
  }

  /** Number of elements satisfying `f`. */
  function Count<T>(s: seq<T>, f: T -> bool): nat {
    |Filter(s, f)|
  }

  /**
   * `Array.prototype.findIndex`: the first index whose element satisfies
   * `f`, or `|s|` when there is none.
   */
  function FindIndex<T>(s: seq<T>, f: T -> bool): (k: nat)
    ensures k <= |s|
    ensures k < |s| ==> f(s[k])
    ensures forall j :: 0 <= j < k ==> !f(s[j])
  {
    if s == [] then 0 else if f(s[0]) then 0 else 1 + FindIndex(s[1..], f)
  }

  /** `Array.prototype.find`, with `undefined` as `None`. */
  function Find<T>(s: seq<T>, f: T -> bool): (r: Option<T>)
    ensures r.None? <==> forall i :: 0 <= i < |s| ==> !f(s[i])
    ensures r.Some? ==> r.value in s && f(r.value)
  {
    var k := FindIndex(s, f);
    if k < |s| then Some(s[k]) else None
  }

  /** When exactly one element satisfies `f`, `find` returns that one. */
  lemma FindUnique<T>(s: seq<T>, f: T -> bool, x: T)
    requires x in s && f(x)
    requires forall i, j :: 0 <= i < j < |s| && f(s[i]) && f(s[j]) ==> s[i] == s[j]
    ensures Find(s, f) == Some(x)
  {
    var k := FindIndex(s, f);
    var i :| 0 <= i < |s| && s[i] == x;
    assert k <= i;
    if k < i {
      assert s[k] == s[i];
    }
  }

  /**
   * The index `slice` uses for a relative position `k`: negative values
   * count from the end, and the result is clamped to `[0, len]`.
   */
  function RelativeIndex(k: int, len: nat): (r: nat)
    ensures r <= len
    ensures 0 <= k ==> r == if k <= len then k else len
    ensures k < 0 ==> r == if len + k <= 0 then 0 else len + k
  {
    if k < 0 then (if len + k <= 0 then 0 else len + k)
    else if k <= len then k
    else len
  }

  /** `Array.prototype.slice` and `String.prototype.slice`. */
  function Slice<T>(s: seq<T>, start: int, end: int): (r: seq<T>)
    ensures 0 <= start <= end ==>
      var a := if start <= |s| then start else |s|;
      var b := if end <= |s| then end else |s|;
      r == s[a..b]
    ensures |r| <= |s|
    ensures var a := RelativeIndex(start, |s|); a + |r| <= |s| && r == s[a..a + |r|]
  {
    var a := RelativeIndex(start, |s|);
    var b := RelativeIndex(end, |s|);
    if a < b then s[a..b] else []
  }

  /** `Array.prototype.join`. */
  function Join(xs: seq<string>, sep: string): string {
    if xs == [] then "" else if |xs| == 1 then xs[0] else xs[0] + sep + Join(xs[1..], sep)
  }

  // ---------------------------------------------------------------------
  // Strings
  // ---------------------------------------------------------------------

  /**
   * The characters `trim` removes and the regular-expression class `\s`
   * matches: ECMAScript WhiteSpace and LineTerminator.
   */
  predicate IsWhitespace(c: char) {
    c == '\t' || c == '\n' || c == '\U{B}' || c == '\U{C}' || c == '\r' || c == ' ' ||
    c == '\U{A0}' || c == '\U{1680}' || ('\U{2000}' <= c <= '\U{200A}') ||
    c == '\U{2028}' || c == '\U{2029}' || c == '\U{202F}' || c == '\U{205F}' ||
    c == '\U{3000}' || c == '\U{FEFF}'
  }

  function TrimStart(s: string): (r: string)
    ensures |r| <= |s| && r == s[|s| - |r|..]
    ensures r != [] ==> !IsWhitespace(r[0])
    ensures forall i :: 0 <= i < |s| - |r| ==> IsWhitespace(s[i])
  {
    if s != [] && IsWhitespace(s[0]) then TrimStart(s[1..]) else s
  }

  function TrimEnd(s: string): (r: string)
    ensures |r| <= |s| && r == s[..|r|]
    ensures r != [] ==> !IsWhitespace(r[|r| - 1])
    ensures forall i :: |r| <= i < |s| ==> IsWhitespace(s[i])
  {
    if s != [] && IsWhitespace(s[|s| - 1]) then TrimEnd(s[..|s| - 1]) else s
  }

  /**
   * `r` is the slice of `s` that starts at `a`, with only white space in
   * `s` before and after it and none at either of its own ends.
   */
  predicate TrimmedAt(s: string, r: string, a: int) {
    && 0 <= a && a + |r| <= |s|
    && r == s[a..a + |r|]
    && (forall i :: 0 <= i < a ==> IsWhitespace(s[i]))
    && (forall i :: a + |r| <= i < |s| ==> IsWhitespace(s[i]))
    && (r != [] ==> !IsWhitespace(r[0]) && !IsWhitespace(r[|r| - 1]))
  }

  /** `r` is what remains of `s` once white space is cut from both ends. */
  predicate IsTrimOf(s: string, r: string) {
    exists a :: 0 <= a <= |s| && TrimmedAt(s, r, a)
  }

  /**
   * `String.prototype.trim`: the contiguous part of `s` left after removing
   * white space from both ends.
   */
  function Trim(s: string): (r: string)
    ensures |r| <= |s|
    ensures Includes(s, r)
    ensures r != [] ==> !IsWhitespace(r[0]) && !IsWhitespace(r[|r| - 1])
  {
    var t := TrimStart(s);
    var r := TrimEnd(t);
    assert OccursAt(s, r, |s| - |t|);
    r
  }

  /** `Trim(s)` is `s` with the white space cut from both ends. */
  lemma TrimTrims(s: string)
    ensures TrimmedAt(s, Trim(s), |s| - |TrimStart(s)|)
    ensures IsTrimOf(s, Trim(s))
  {
    TrimmedFromEnds(s, TrimStart(s), Trim(s));
  }

  /** A white-space-free start `t` of `s`, cut at a white-space-free end `r`, is `s` trimmed. */
  lemma TrimmedFromEnds(s: string, t: string, r: string)
    requires |t| <= |s| && t == s[|s| - |t|..]
    requires forall i :: 0 <= i < |s| - |t| ==> IsWhitespace(s[i])
    requires t != [] ==> !IsWhitespace(t[0])
    requires |r| <= |t| && r == t[..|r|]
    requires forall i :: |r| <= i < |t| ==> IsWhitespace(t[i])
    requires r != [] ==> !IsWhitespace(r[|r| - 1])
    ensures TrimmedAt(s, r, |s| - |t|)
  {
    var a := |s| - |t|;
    assert r == s[a..a + |r|];
    forall i | a + |r| <= i < |s| ensures IsWhitespace(s[i]) {
      assert t[i - a] == s[i];
    }
    if r != [] {
      assert r[0] == t[0];
    }
  }

  /** Two trims of the same string are equal. */
  lemma TrimmedUnique(s: string, r1: string, a1: int, r2: string, a2: int)
    requires TrimmedAt(s, r1, a1) && TrimmedAt(s, r2, a2)
    ensures r1 == r2
  {
    if r1 != [] && r2 != [] {
      assert s[a1] == r1[0] && s[a2] == r2[0];
      assert s[a1 + |r1| - 1] == r1[|r1| - 1] && s[a2 + |r2| - 1] == r2[|r2| - 1];
      assert a1 == a2;
      assert |r1| == |r2|;
    }
  }

  /** `Trim` is exactly the trimming relation: `r` is a trim of `s` if and only if it is `Trim(s)`. */
  lemma TrimIsTheTrim(s: string, r: string)
    ensures IsTrimOf(s, r) <==> r == Trim(s)
  {
    TrimTrims(s);
    if IsTrimOf(s, r) {
      var a :| 0 <= a <= |s| && TrimmedAt(s, r, a);
      TrimmedUnique(s, r, a, Trim(s), |s| - |TrimStart(s)|);
    }
  }

  /** A string with no white space at all is its own trim. */
  lemma TrimNoWhitespace(s: string)
    requires forall i :: 0 <= i < |s| ==> !IsWhitespace(s[i])
    ensures Trim(s) == s
  {
  }

  function LowerChar(c: char): char {
    if 'A' <= c <= 'Z' then (c as int - 'A' as int + 'a' as int) as char else c
  }

  /** `String.prototype.toLowerCase`, on the ASCII letters. */
  function ToLower(s: string): (r: string)
    ensures |r| == |s|
    ensures forall i :: 0 <= i < |s| ==> r[i] == LowerChar(s[i])
  {
    seq(|s|, i requires 0 <= i < |s| => LowerChar(s[i]))
  }

  predicate IsLower(s: string) {
    forall i :: 0 <= i < |s| ==> !('A' <= s[i] <= 'Z')
  }

  /** Lower-casing changes exactly the strings that hold a capital letter. */
  lemma ToLowerFixesLower(s: string)
    ensures ToLower(s) == s <==> IsLower(s)
    ensures IsLower(ToLower(s))
  {
    if ToLower(s) == s {
      forall i | 0 <= i < |s| ensures !('A' <= s[i] <= 'Z') {
        assert ToLower(s)[i] == LowerChar(s[i]);
      }
    }
  }

  /** `q` occurs in `s` starting at index `i`. */
  predicate OccursAt(s: string, q: string, i: int) {
    0 <= i && i + |q| <= |s| && s[i..i + |q|] == q
  }

  /** `String.prototype.includes`: `q` is a substring of `s`. */
  predicate Includes(s: string, q: string) {
    exists i :: 0 <= i <= |s| && OccursAt(s, q, i)
  }

  /** A string that contains another also contains every string it contains. */
  lemma IncludesTransitive(s: string, t: string, q: string)
    requires Includes(s, t) && Includes(t, q)
    ensures Includes(s, q)
  {
    var i :| 0 <= i <= |s| && OccursAt(s, t, i);
    var j :| 0 <= j <= |t| && OccursAt(t, q, j);
    assert t == s[i..i + |t|];
    forall k | 0 <= k < |q| ensures s[i + j + k] == q[k] {
      assert q[k] == t[j + k];
    }
    assert s[i + j..i + j + |q|] == q;
    assert OccursAt(s, q, i + j);
  }

  /** Every string includes itself. */
  lemma IncludesSelf(s: string)
    ensures Includes(s, s)
  {
    assert OccursAt(s, s, 0);
  }

  /**
   * String `<`: lexicographic order on characters, a proper prefix before
   * the longer string.
   */
  predicate StrLess(a: string, b: string) {
    if b == [] then false
    else if a == [] then true
    else if a[0] != b[0] then a[0] < b[0]
    else StrLess(a[1..], b[1..])
  }

  lemma {:induction false} StrLessIrreflexive(a: string)
    ensures !StrLess(a, a)
  {
    if a != [] {
      StrLessIrreflexive(a[1..]);
    }
  }

  lemma {:induction false} StrLessTransitive(a: string, b: string, c: string)
    requires StrLess(a, b) && StrLess(b, c)
    ensures StrLess(a, c)
  {
    if a != [] && a[0] == b[0] && b[0] == c[0] {
      StrLessTransitive(a[1..], b[1..], c[1..]);
    }
  }

  /** Two strings are equal or one is less than the other, never both ways. */
  lemma {:induction false} StrLessTotal(a: string, b: string)
    ensures a == b || StrLess(a, b) || StrLess(b, a)
    ensures !(StrLess(a, b) && StrLess(b, a))
  {
    if a != [] && b != [] && a[0] == b[0] {
      StrLessTotal(a[1..], b[1..]);
      if a[1..] == b[1..] {
        assert a == [a[0]] + a[1..] && b == [b[0]] + b[1..];
      }
    }
  }

  lemma ToLowerSlice(s: string, i: nat, j: nat)
    requires i <= j <= |s|
    ensures ToLower(s)[i..j] == ToLower(s[i..j])
  {
  }

  lemma LowerCharWhitespace(c: char)
    ensures IsWhitespace(LowerChar(c)) == IsWhitespace(c)
  {
  }

  /** Lower-casing changes no character's white-space status. */
  lemma LowerKeepsWhitespace(s: string)
    ensures forall i :: 0 <= i < |s| ==> IsWhitespace(ToLower(s)[i]) == IsWhitespace(s[i])
  {
    forall i | 0 <= i < |s| ensures IsWhitespace(ToLower(s)[i]) == IsWhitespace(s[i]) {
      LowerCharWhitespace(s[i]);
    }
  }

  lemma TrimStartLower(s: string)
    ensures TrimStart(ToLower(s)) == ToLower(TrimStart(s))
  {
    var t := ToLower(s);
    var k := |s| - |TrimStart(s)|;
    var k1 := |t| - |TrimStart(t)|;
    LowerKeepsWhitespace(s);
    ToLowerSlice(s, k, |s|);
  }

  lemma TrimEndLower(s: string)
    ensures TrimEnd(ToLower(s)) == ToLower(TrimEnd(s))
  {
    var t := ToLower(s);
    var k := |TrimEnd(s)|;
    var k1 := |TrimEnd(t)|;
    LowerKeepsWhitespace(s);
    ToLowerSlice(s, 0, k);
  }

  /** Lower-casing and trimming commute: no letter is white space. */
  lemma TrimLower(s: string)
    ensures Trim(ToLower(s)) == ToLower(Trim(s))
  {
    TrimStartLower(s);
    TrimEndLower(TrimStart(s));
  }

  // ---------------------------------------------------------------------
  // Numbers written in decimal

  predicate IsDigit(c: char) {
    '0' <= c <= '9'
  }

  predicate AllDigits(s: string) {
    forall i :: 0 <= i < |s| ==> IsDigit(s[i])
  }

  function DigitChar(d: nat): (c: char)
    requires d < 10
    ensures IsDigit(c) && c as int - '0' as int == d
  {
    ('0' as int + d) as char
  }

  /** `Number(s)` for a string of decimal digits (the empty string gives 0). */
  function DigitsValue(s: string): nat
    requires AllDigits(s)
  {
    if s == [] then 0 else DigitsValue(s[..|s| - 1]) * 10 + (s[|s| - 1] as int - '0' as int)
  }

  /** `String(n)` for a non-negative integer: its digits, without leading zeros. */
  function DecimalString(n: nat): (s: string)
    ensures s != [] && AllDigits(s)
    ensures n > 0 ==> s[0] != '0'
  {
    if n < 10 then [DigitChar(n)] else DecimalString(n / 10) + [DigitChar(n % 10)]
  }

  /** `Number(String(n)) == n`. */
  lemma {:induction false} DigitsValueOfDecimal(n: nat)
    ensures DigitsValue(DecimalString(n)) == n
  {
    if n >= 10 {
      DigitsValueOfDecimal(n / 10);
      var s := DecimalString(n);
      assert s[..|s| - 1] == DecimalString(n / 10);
    }
  }

  /** Leading zeros do not change the value. */
  lemma {:induction false} DigitsValueLeadingZero(s: string)
    requires AllDigits(s)
    ensures AllDigits("0" + s) && DigitsValue("0" + s) == DigitsValue(s)
  {
    var t := "0" + s;
    if s != [] {
      assert t[..|t| - 1] == "0" + s[..|s| - 1];
      DigitsValueLeadingZero(s[..|s| - 1]);
    }
  }

  // ---------------------------------------------------------------------
  // Query strings

  /** `URLSearchParams.get`: the first value given for each key; a missing key is `null`. */
  type Params = map<string, string>

  /** `get(key) || undefined`: the value, when present and non-empty. */
  function TextParam(params: Params, key: string): (r: Option<string>)
    ensures r.Some? <==> key in params && params[key] != ""
    ensures r.Some? ==> r.value == params[key]
  {
    if key in params && params[key] != "" then Some(params[key]) else None
  }
}
