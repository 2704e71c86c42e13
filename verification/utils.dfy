/**
 * The string helpers of the storefront: `slugify`, `truncate`, `cn` and the
 * fixed list of metal types (lib/utils.ts). `formatPrice` is not part of
 * this model.
 */
module Utils {
  import opened JsBuiltins

  // ---------------------------------------------------------------------
  // slugify
  // ---------------------------------------------------------------------

  /** The characters the pattern `[^a-z0-9 -]` does not delete. */
  predicate IsSlugSourceChar(c: char) {
    'a' <= c <= 'z' || '0' <= c <= '9' || c == ' ' || c == '-'
  }

  predicate IsHyphen(c: char) {
    c == '-'
  }

  /** The alphabet of a slug. */
  predicate IsSlugChar(c: char) {
    'a' <= c <= 'z' || '0' <= c <= '9' || c == '-'
  }

  predicate NoDoubleHyphen(s: string) {
    forall i :: 0 <= i < |s| - 1 ==> !(s[i] == '-' && s[i + 1] == '-')
  }

  /**
   * A global regular-expression replacement of `inRun+` by `rep`: every
   * maximal run of characters satisfying `inRun` becomes one `rep`.
   * `afterRun` says that the character before `s` already belonged to a run.
   */
  function CollapseRuns(s: string, inRun: char -> bool, rep: char, afterRun: bool): string
    decreases |s|
  {
    if s == [] then []
    else if inRun(s[0]) then (if afterRun then [] else [rep]) + CollapseRuns(s[1..], inRun, rep, true)
    else [s[0]] + CollapseRuns(s[1..], inRun, rep, false)
  }

  /** `s.replace(/x+/g, rep)` for the character class `inRun`. */
  function ReplaceRuns(s: string, inRun: char -> bool, rep: char): string {
    CollapseRuns(s, inRun, rep, false)
  }

  /**
   * `slugify`: lower-case, delete everything outside `[a-z0-9 -]`, turn each
   * run of white space into one hyphen, squeeze runs of hyphens, trim.
   */
  function Slugify(text: string): string {
    Trim(ReplaceRuns(ReplaceRuns(Filter(ToLower(text), IsSlugSourceChar), IsWhitespace, '-'), IsHyphen, '-'))
  }

  /** Collapsing keeps an alphabet that holds every non-run character and `rep`. */
  lemma {:induction false} CollapseAlphabet(s: string, inRun: char -> bool, rep: char, afterRun: bool,
                                            allowed: char -> bool)
    requires allowed(rep)
    requires forall i :: 0 <= i < |s| ==> allowed(s[i]) || inRun(s[i])
    ensures forall i :: 0 <= i < |CollapseRuns(s, inRun, rep, afterRun)| ==>
              allowed(CollapseRuns(s, inRun, rep, afterRun)[i])
  {
    if s != [] {
      CollapseAlphabet(s[1..], inRun, rep, true, allowed);
      CollapseAlphabet(s[1..], inRun, rep, false, allowed);
    }
  }

  /** Squeezing hyphens leaves no two hyphens side by side. */
  lemma {:induction false} SqueezeNoDoubleHyphen(s: string, afterRun: bool)
    ensures NoDoubleHyphen(CollapseRuns(s, IsHyphen, '-', afterRun))
    ensures afterRun && CollapseRuns(s, IsHyphen, '-', afterRun) != [] ==>
              CollapseRuns(s, IsHyphen, '-', afterRun)[0] != '-'
  {
    if s != [] {
      SqueezeNoDoubleHyphen(s[1..], true);
      SqueezeNoDoubleHyphen(s[1..], false);
      var rest := CollapseRuns(s[1..], IsHyphen, '-', IsHyphen(s[0]));
      var r := CollapseRuns(s, IsHyphen, '-', afterRun);
      if !IsHyphen(s[0]) || !afterRun {
        assert r == [if IsHyphen(s[0]) then '-' else s[0]] + rest;
        forall i | 0 <= i < |r| - 1 ensures !(r[i] == '-' && r[i + 1] == '-') {
          if i > 0 {
            assert r[i] == rest[i - 1] && r[i + 1] == rest[i];
          }
        }
      }
    }
  }

  /** Collapsing changes nothing when no character belongs to a run. */
  lemma {:induction false} CollapseNoRun(s: string, inRun: char -> bool, rep: char, afterRun: bool)
    requires forall i :: 0 <= i < |s| ==> !inRun(s[i])
    ensures CollapseRuns(s, inRun, rep, afterRun) == s
  {
    if s != [] {
      CollapseNoRun(s[1..], inRun, rep, false);
    }
  }

  /** Squeezing hyphens changes nothing when no two hyphens are adjacent. */
  lemma {:induction false} SqueezeNoDouble(s: string, afterRun: bool)
    requires NoDoubleHyphen(s)
    requires afterRun ==> s == [] || s[0] != '-'
    ensures CollapseRuns(s, IsHyphen, '-', afterRun) == s
  {
    if s != [] {
      assert NoDoubleHyphen(s[1..]) by {
        forall i | 0 <= i < |s[1..]| - 1 ensures !(s[1..][i] == '-' && s[1..][i + 1] == '-') {
          assert s[1..][i] == s[i + 1] && s[1..][i + 1] == s[i + 2];
        }
      }
      if |s| > 1 {
        assert s[0] == '-' ==> s[1..][0] != '-';
      }
      SqueezeNoDouble(s[1..], IsHyphen(s[0]));
    }
  }

  /** The first character of a collapse, for a string that does not start after a run. */
  lemma CollapseFirst(s: string, inRun: char -> bool, rep: char)
    requires s != []
    ensures CollapseRuns(s, inRun, rep, false) != []
    ensures CollapseRuns(s, inRun, rep, false)[0] == if inRun(s[0]) then rep else s[0]
  {
  }

  /** A collapse is empty only when everything in it continues a run. */
  lemma {:induction false} CollapseEmpty(s: string, inRun: char -> bool, rep: char, afterRun: bool)
    ensures CollapseRuns(s, inRun, rep, afterRun) == [] ==>
              s == [] || (afterRun && forall i :: 0 <= i < |s| ==> inRun(s[i]))
  {
    if s != [] {
      CollapseEmpty(s[1..], inRun, rep, true);
    }
  }

  /** The last character of a non-empty collapse stands for the last character of the input. */
  lemma {:induction false} CollapseLast(s: string, inRun: char -> bool, rep: char, afterRun: bool)
    requires s != []
    ensures var r := CollapseRuns(s, inRun, rep, afterRun);
      r != [] ==> r[|r| - 1] == if inRun(s[|s| - 1]) then rep else s[|s| - 1]
  {
    if |s| > 1 {
      var b := inRun(s[0]);
      var r := CollapseRuns(s, inRun, rep, afterRun);
      var rest := CollapseRuns(s[1..], inRun, rep, b);
      var head := if b then (if afterRun then [] else [rep]) else [s[0]];
      assert r == head + rest;
      assert s[1..][|s| - 2] == s[|s| - 1];
      CollapseLast(s[1..], inRun, rep, b);
      if rest == [] {
        CollapseEmpty(s[1..], inRun, rep, b);
        assert inRun(s[1..][|s| - 2]);
      } else {
        assert r[|r| - 1] == rest[|rest| - 1];
      }
    }
  }

  /** The first element `filter` keeps when the first element passes. */
  lemma FilterFirst<T>(s: seq<T>, f: T -> bool)
    requires s != [] && f(s[0])
    ensures Filter(s, f) != [] && Filter(s, f)[0] == s[0]
  {
  }

  /** The last element `filter` keeps when the last element passes. */
  lemma FilterLast<T>(s: seq<T>, f: T -> bool)
    requires s != [] && f(s[|s| - 1])
    ensures Filter(s, f) != [] && Filter(s, f)[|Filter(s, f)| - 1] == s[|s| - 1]
  {
    var n := |s| - 1;
    assert s == s[..n] + [s[n]];
    FilterAppend(s[..n], [s[n]], f);
    assert Filter([s[n]], f) == [s[n]];
  }

  /** A slug is made of `a-z`, `0-9` and `-` only, and `trim` removes nothing from it. */
  lemma SlugifyAlphabet(text: string)
    ensures forall i :: 0 <= i < |Slugify(text)| ==> IsSlugChar(Slugify(text)[i])
    ensures Slugify(text) == ReplaceRuns(ReplaceRuns(Filter(ToLower(text), IsSlugSourceChar), IsWhitespace, '-'), IsHyphen, '-')
  {
    var kept := Filter(ToLower(text), IsSlugSourceChar);
    CollapseAlphabet(kept, IsWhitespace, '-', false, IsSlugChar);
    var dashed := ReplaceRuns(kept, IsWhitespace, '-');
    CollapseAlphabet(dashed, IsHyphen, '-', false, IsSlugChar);
    var squeezed := ReplaceRuns(dashed, IsHyphen, '-');
    TrimNoWhitespace(squeezed);
  }

  /** A slug never holds two hyphens in a row. */
  lemma SlugifyNoDoubleHyphen(text: string)
    ensures NoDoubleHyphen(Slugify(text))
  {
    SlugifyAlphabet(text);
    var dashed := ReplaceRuns(Filter(ToLower(text), IsSlugSourceChar), IsWhitespace, '-');
    SqueezeNoDoubleHyphen(dashed, false);
  }

  /** The first three steps of `slugify` leave a string of slug characters alone. */
  lemma SlugCharsUnchanged(s: string)
    requires forall i :: 0 <= i < |s| ==> IsSlugChar(s[i])
    ensures Filter(ToLower(s), IsSlugSourceChar) == s
    ensures ReplaceRuns(s, IsWhitespace, '-') == s
    ensures forall i :: 0 <= i < |s| ==> !IsWhitespace(s[i])
  {
    assert IsLower(s);
    ToLowerFixesLower(s);
    FilterKeepsAll(s, IsSlugSourceChar);
    CollapseNoRun(s, IsWhitespace, '-', false);
  }

  /** A string already in slug form is its own slug. */
  lemma SlugifyFixesSlugs(s: string)
    requires forall i :: 0 <= i < |s| ==> IsSlugChar(s[i])
    requires NoDoubleHyphen(s)
    ensures Slugify(s) == s
  {
    SlugCharsUnchanged(s);
    SqueezeNoDouble(s, false);
    TrimNoWhitespace(s);
  }

  /** `slugify` is idempotent. */
  lemma SlugifyIdempotent(text: string)
    ensures Slugify(Slugify(text)) == Slugify(text)
  {
    SlugifyAlphabet(text);
    SlugifyNoDoubleHyphen(text);
    SlugifyFixesSlugs(Slugify(text));
  }

  /**
   * A leading space or hyphen survives as a hyphen: the final `trim` has
   * nothing left to remove.
   */
  lemma SlugifyKeepsLeadingHyphen(text: string)
    requires text != [] && (text[0] == ' ' || text[0] == '-')
    ensures Slugify(text) != [] && Slugify(text)[0] == '-'
  {
    SlugifyAlphabet(text);
    var lowered := ToLower(text);
    assert lowered[0] == text[0];
    var kept := Filter(lowered, IsSlugSourceChar);
    FilterFirst(lowered, IsSlugSourceChar);
    CollapseFirst(kept, IsWhitespace, '-');
    var dashed := ReplaceRuns(kept, IsWhitespace, '-');
    CollapseFirst(dashed, IsHyphen, '-');
  }

  /** A string ending in a hyphen or a run character still ends in a hyphen once its runs become hyphens. */
  lemma ReplaceRunsEndsWithHyphen(x: string, inRun: char -> bool)
    requires x != [] && (x[|x| - 1] == '-' || inRun(x[|x| - 1]))
    ensures ReplaceRuns(x, inRun, '-') != [] && ReplaceRuns(x, inRun, '-')[|ReplaceRuns(x, inRun, '-')| - 1] == '-'
  {
    CollapseFirst(x, inRun, '-');
    CollapseLast(x, inRun, '-', false);
  }

  /** A trailing space or hyphen survives as a hyphen. */
  lemma SlugifyKeepsTrailingHyphen(text: string)
    requires text != [] && (text[|text| - 1] == ' ' || text[|text| - 1] == '-')
    ensures Slugify(text) != [] && Slugify(text)[|Slugify(text)| - 1] == '-'
  {
    SqueezedEndsWithHyphen(text);
    assert Slugify(text) == ReplaceRuns(ReplaceRuns(Filter(ToLower(text), IsSlugSourceChar), IsWhitespace, '-'), IsHyphen, '-') by {
      SlugifyAlphabet(text);
    }
  }

  /** Before the final `trim`, a text ending in a space or hyphen ends in a hyphen. */
  lemma SqueezedEndsWithHyphen(text: string)
    requires text != [] && (text[|text| - 1] == ' ' || text[|text| - 1] == '-')
    ensures var squeezed := ReplaceRuns(ReplaceRuns(Filter(ToLower(text), IsSlugSourceChar), IsWhitespace, '-'), IsHyphen, '-');
      squeezed != [] && squeezed[|squeezed| - 1] == '-'
  {
    var lowered := ToLower(text);
    var kept := Filter(lowered, IsSlugSourceChar);
    assert lowered[|lowered| - 1] == text[|text| - 1];
    FilterLast(lowered, IsSlugSourceChar);
    ReplaceRunsEndsWithHyphen(kept, IsWhitespace);
    ReplaceRunsEndsWithHyphen(ReplaceRuns(kept, IsWhitespace, '-'), IsHyphen);
  }

  // ---------------------------------------------------------------------
  // truncate
  // ---------------------------------------------------------------------

  /**
   * The suffix literal of `truncate` as the file stores it: the UTF-8 bytes
   * of a horizontal ellipsis read back as three Windows-1252 characters.
   */
  const TRUNCATION_SUFFIX: string := "\U{E2}\U{20AC}\U{A6}"

  /** The suffix evidently meant: one horizontal ellipsis. */
  const ELLIPSIS: string := "\U{2026}"

  /**
   * `truncate`: a text no longer than `length` comes back unchanged; a
   * longer one becomes its first `length` characters with white space cut
   * from both ends, followed by the suffix.
   */
  function Truncate(text: string, length: int := 120): (r: string)
    ensures |text| <= length ==> r == text
    ensures |text| > length ==>
      && |r| >= |TRUNCATION_SUFFIX|
      && r[|r| - |TRUNCATION_SUFFIX|..] == TRUNCATION_SUFFIX
      && Includes(Slice(text, 0, length), r[..|r| - |TRUNCATION_SUFFIX|])
      && IsTrimOf(Slice(text, 0, length), r[..|r| - |TRUNCATION_SUFFIX|])
      && (length >= 0 ==> IsTrimOf(text[..length], r[..|r| - |TRUNCATION_SUFFIX|]))
      && (length >= 0 ==> |r| <= length + |TRUNCATION_SUFFIX|)
  {
    if |text| <= length then text
    else
      var head := Trim(Slice(text, 0, length));
      TrimTrims(Slice(text, 0, length));
      assert (head + TRUNCATION_SUFFIX)[..|head|] == head;
      head + TRUNCATION_SUFFIX
  }

  /** `truncate` with the suffix the authors evidently meant: the same cut, followed by one ellipsis. */
  function TruncateWithEllipsis(text: string, length: int := 120): (r: string)
    ensures |text| <= length ==> r == text
    ensures |text| > length ==>
      && |r| >= 1
      && r[|r| - 1] == '\U{2026}'
      && Includes(Slice(text, 0, length), r[..|r| - 1])
      && IsTrimOf(Slice(text, 0, length), r[..|r| - 1])
      && (length >= 0 ==> IsTrimOf(text[..length], r[..|r| - 1]))
      && (length >= 0 ==> |r| <= length + 1)
  {
    if |text| <= length then text
    else
      var head := Trim(Slice(text, 0, length));
      TrimTrims(Slice(text, 0, length));
      assert (head + ELLIPSIS)[..|head|] == head;
      head + ELLIPSIS
  }

  /**
   * As written, a cut text ends in three characters, none of them an
   * ellipsis, and can run two characters past `length + 1`.
   */
  lemma TruncateSuffixIsMisencoded()
    ensures Truncate("abcdef", 2) == "ab\U{E2}\U{20AC}\U{A6}"
    ensures |Truncate("abcdef", 2)| == 2 + 3
    ensures TruncateWithEllipsis("abcdef", 2) == "ab\U{2026}"
  {
    assert Slice("abcdef", 0, 2) == "ab";
    TrimNoWhitespace("ab");
  }

  // ---------------------------------------------------------------------
  // cn
  // ---------------------------------------------------------------------

  /** An argument of `cn`: a string, `undefined`, `null` or `false`. */
  datatype ClassValue = Class(name: string) | Undefined | Null | False

  /** `Boolean(v)`: only a non-empty string is truthy. */
  predicate Truthy(v: ClassValue) {
    v.Class? && v.name != ""
  }

  /** The truthy arguments' strings, in order: `classes.filter(Boolean)`. */
  function KeptClasses(classes: seq<ClassValue>): (r: seq<string>)
    ensures |r| <= |classes|
    ensures forall i :: 0 <= i < |r| ==> r[i] != ""
    ensures forall i :: 0 <= i < |classes| && Truthy(classes[i]) ==> classes[i].name in r
    ensures forall x :: x in r ==> Class(x) in classes
  {
    var kept := Filter(classes, Truthy);
    var r := Names(kept);
    forall i | 0 <= i < |classes| && Truthy(classes[i]) ensures classes[i].name in r {
      var j :| 0 <= j < |kept| && kept[j] == classes[i];
      assert r[j] == classes[i].name;
    }
    forall x | x in r ensures Class(x) in classes {
      var j :| 0 <= j < |r| && r[j] == x;
      assert kept[j] in classes;
    }
    r
  }

  /** The string of each argument, in order. */
  function Names(vs: seq<ClassValue>): (r: seq<string>)
    requires forall i :: 0 <= i < |vs| ==> vs[i].Class?
    ensures |r| == |vs|
    ensures forall i :: 0 <= i < |r| ==> r[i] == vs[i].name
  {
    seq(|vs|, i requires 0 <= i < |vs| => vs[i].name)
  }

  /** Keeping distributes over concatenation, so the kept strings stay in argument order. */
  lemma KeptClassesAppend(a: seq<ClassValue>, b: seq<ClassValue>)
    ensures KeptClasses(a + b) == KeptClasses(a) + KeptClasses(b)
  {
    FilterAppend(a, b, Truthy);
  }

  /** One argument is kept exactly when it is truthy. */
  lemma KeptClassesOne(v: ClassValue)
    ensures KeptClasses([v]) == if Truthy(v) then [v.name] else []
  {
    assert [v][1..] == [];
  }

  /** `cn`: the truthy arguments joined by single spaces. */
  function Cn(classes: seq<ClassValue>): string {
    Join(KeptClasses(classes), " ")
  }

  /** Splitting on a separator character; the partner of `Join`. */
  function Split(s: string, sep: char): (r: seq<string>)
    ensures |r| >= 1
  {
    if s == [] then [[]]
    else
      var rest := Split(s[1..], sep);
      if s[0] == sep then [[]] + rest else [[s[0]] + rest[0]] + rest[1..]
  }

  lemma {:induction false} SplitNoSep(x: string, sep: char)
    requires forall i :: 0 <= i < |x| ==> x[i] != sep
    ensures Split(x, sep) == [x]
  {
    if x != [] {
      SplitNoSep(x[1..], sep);
      assert [x[0]] + x[1..] == x;
    }
  }

  lemma {:induction false} SplitAtSep(x: string, sep: char, y: string)
    requires forall i :: 0 <= i < |x| ==> x[i] != sep
    ensures Split(x + [sep] + y, sep) == [x] + Split(y, sep)
  {
    if x == [] {
      assert ([sep] + y)[1..] == y;
    } else {
      assert (x + [sep] + y)[1..] == x[1..] + [sep] + y;
      assert (x + [sep] + y)[0] == x[0];
      SplitAtSep(x[1..], sep, y);
      assert [x[0]] + x[1..] == x;
    }
  }

  /** Joining space-free words and splitting again gives the words back. */
  lemma {:induction false} SplitJoin(xs: seq<string>)
    requires xs != []
    requires forall k, i :: 0 <= k < |xs| && 0 <= i < |xs[k]| ==> xs[k][i] != ' '
    ensures Split(Join(xs, " "), ' ') == xs
  {
    if |xs| == 1 {
      SplitNoSep(xs[0], ' ');
    } else {
      SplitJoin(xs[1..]);
      SplitAtSep(xs[0], ' ', Join(xs[1..], " "));
    }
  }

  /** With every argument falsy, `cn` gives the empty string. */
  lemma CnAllFalsy(classes: seq<ClassValue>)
    requires forall i :: 0 <= i < |classes| ==> !Truthy(classes[i])
    ensures Cn(classes) == ""
    ensures KeptClasses(classes) == []
  {
    FilterNone(classes, Truthy);
  }

  /** Each truthy argument, in order, is one space-separated word of the result. */
  lemma CnWords(classes: seq<ClassValue>)
    requires KeptClasses(classes) != []
    requires forall k, i :: 0 <= k < |classes| && classes[k].Class? && 0 <= i < |classes[k].name| ==>
               classes[k].name[i] != ' '
    ensures Split(Cn(classes), ' ') == KeptClasses(classes)
  {
    KeptWithoutSpaces(classes);
    SplitJoin(KeptClasses(classes));
  }

  /** Kept strings hold no space when no argument's string does. */
  lemma KeptWithoutSpaces(classes: seq<ClassValue>)
    requires forall k, i :: 0 <= k < |classes| && classes[k].Class? && 0 <= i < |classes[k].name| ==>
               classes[k].name[i] != ' '
    ensures forall k, i :: 0 <= k < |KeptClasses(classes)| && 0 <= i < |KeptClasses(classes)[k]| ==>
              KeptClasses(classes)[k][i] != ' '
  {
    var r := KeptClasses(classes);
    forall k, i | 0 <= k < |r| && 0 <= i < |r[k]| ensures r[k][i] != ' ' {
      assert r[k] in r;
      var j :| 0 <= j < |classes| && classes[j] == Class(r[k]);
    }
  }

  // ---------------------------------------------------------------------
  // METAL_TYPES
  // ---------------------------------------------------------------------

  const METAL_TYPES: seq<string> := ["Yellow Gold", "White Gold", "Rose Gold", "Platinum", "Silver", "Gold Plated"]

  /** Six metal names, pairwise distinct. */
  lemma MetalTypesDistinct()
    ensures |METAL_TYPES| == 6
    ensures forall i, j :: 0 <= i < j < |METAL_TYPES| ==> METAL_TYPES[i] != METAL_TYPES[j]
  {
  }
}
