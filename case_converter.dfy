/** pascalToSnake: PascalCase component name to snake_case route name,
    dropping one trailing "View". */
module CaseConverter {
  import opened Ascii

  const VIEW_SUFFIX: string := "View"

  predicate EndsWithView(s: string) {
    |s| >= |VIEW_SUFFIX| && s[|s| - |VIEW_SUFFIX|..] == VIEW_SUFFIX
  }

  /** str.replace(/View$/, '') */
  function StripViewSuffix(s: string): string {
    if EndsWithView(s) then s[..|s| - |VIEW_SUFFIX|] else s
  }

  /** The global replace of /([A-Z])/ by "_" + letter (except at offset 0),
      followed by toLowerCase, on the part of the name that starts at
      offset 0 exactly when atStart holds. */
  function SnakeFrom(s: string, atStart: bool): string {
    if s == [] then []
    else
      (if IsUpper(s[0]) && !atStart then ['_', ToLower(s[0])] else [ToLower(s[0])])
      + SnakeFrom(s[1..], false)
  }

  function PascalToSnake(str: string): string {
    SnakeFrom(StripViewSuffix(str), true)
  }

  /** Number of upper-case ASCII letters in s. */
  function CountUpper(s: string): nat {
    if s == [] then 0 else (if IsUpper(s[0]) then 1 else 0) + CountUpper(s[1..])
  }

  /** Number of upper-case ASCII letters at offsets greater than 0. */
  function UpperAfterFirst(s: string): nat {
    if s == [] then 0 else CountUpper(s[1..])
  }

  /** s with every '_' removed. */
  function DropUnderscores(s: string): string {
    if s == [] then [] else (if s[0] == '_' then [] else [s[0]]) + DropUnderscores(s[1..])
  }

  lemma {:induction false} DropUnderscoresAppend(a: string, b: string)
    ensures DropUnderscores(a + b) == DropUnderscores(a) + DropUnderscores(b)
  {
    if a == [] {
      assert a + b == b;
    } else {
      assert (a + b)[1..] == a[1..] + b;
      DropUnderscoresAppend(a[1..], b);
    }
  }

  lemma {:induction false} SnakeFromAppend(a: string, b: string, atStart: bool)
    ensures SnakeFrom(a + b, atStart) == SnakeFrom(a, atStart) + SnakeFrom(b, atStart && a == [])
  {
    if a == [] {
      assert a + b == b;
    } else {
      assert (a + b)[1..] == a[1..] + b;
      SnakeFromAppend(a[1..], b, false);
    }
  }

  /** Exactly one trailing "View" is removed, and only when present. */
  lemma StripViewSuffixRemovesOne(s: string)
    ensures EndsWithView(s) ==> StripViewSuffix(s) + VIEW_SUFFIX == s
    ensures !EndsWithView(s) ==> StripViewSuffix(s) == s
    ensures StripViewSuffix("ViewView") == "View"
  {
    assert EndsWithView("ViewView");
  }

  lemma {:induction false} SnakeFromNoUpper(s: string, atStart: bool)
    ensures NoUpper(SnakeFrom(s, atStart))
  {
    if s != [] {
      SnakeFromNoUpper(s[1..], false);
    }
  }

  lemma {:induction false} SnakeFromLength(s: string, atStart: bool)
    ensures |SnakeFrom(s, atStart)| == |s| + (if atStart then UpperAfterFirst(s) else CountUpper(s))
  {
    if s != [] {
      SnakeFromLength(s[1..], false);
    }
  }

  /** Apart from the inserted underscores, the result is the lower-cased input. */
  lemma {:induction false} SnakeFromKeepsLetters(s: string, atStart: bool)
    ensures DropUnderscores(SnakeFrom(s, atStart)) == DropUnderscores(LowerString(s))
  {
    if s != [] {
      var head := if IsUpper(s[0]) && !atStart then ['_', ToLower(s[0])] else [ToLower(s[0])];
      SnakeFromKeepsLetters(s[1..], false);
      DropUnderscoresAppend(head, SnakeFrom(s[1..], false));
      DropUnderscoresAppend([ToLower(s[0])], LowerString(s[1..]));
      assert LowerString(s) == [ToLower(s[0])] + LowerString(s[1..]);
      assert DropUnderscores(head) == DropUnderscores([ToLower(s[0])]);
    }
  }

  /** A name without capitals is left as it is. */
  lemma {:induction false} SnakeFromLowerIsIdentity(s: string, atStart: bool)
    requires NoUpper(s)
    ensures SnakeFrom(s, atStart) == s
  {
    if s != [] {
      assert NoUpper(s[1..]) by {
        forall i | 0 <= i < |s[1..]| ensures !IsUpper(s[1..][i]) {
          assert s[1..][i] == s[i + 1];
        }
      }
      SnakeFromLowerIsIdentity(s[1..], false);
      assert s == [s[0]] + s[1..];
    }
  }

  /** What character i of a name turns into: "_" and its lower case for a
      capital that is not the first character of the name, else its lower case. */
  function SnakePiece(c: char, first: bool): string {
    if IsUpper(c) && !first then ['_', ToLower(c)] else [ToLower(c)]
  }

  /** Where the piece of character i starts in the converted text: after the
      i earlier characters and one underscore per earlier capital that got one. */
  function SnakeOffset(s: string, atStart: bool, i: nat): nat
    requires i <= |s|
  {
    i + (if atStart then UpperAfterFirst(s[..i]) else CountUpper(s[..i]))
  }

  /** Character i becomes its piece, at its offset: the underscore goes right
      before every capital except one at offset 0 of the name. */
  lemma {:induction false} SnakeFromAt(s: string, atStart: bool, i: nat)
    requires i < |s|
    ensures var p, piece := SnakeOffset(s, atStart, i), SnakePiece(s[i], atStart && i == 0);
      p + |piece| <= |SnakeFrom(s, atStart)| && SnakeFrom(s, atStart)[p..p + |piece|] == piece
  {
    assert s == s[..i] + s[i..];
    SnakeFromAppend(s[..i], s[i..], atStart);
    SnakeFromLength(s[..i], atStart);
    assert s[i..][0] == s[i];
  }

  /** The result has no upper-case ASCII letter, and its length is the length
      of the base name plus one underscore per capital after offset 0. Each
      character of the base name appears lower-cased at its offset, with an
      underscore right before it exactly when it is a capital after offset 0,
      which fixes the whole result. */
  lemma PascalToSnakeShape(str: string)
    ensures NoUpper(PascalToSnake(str))
    ensures |PascalToSnake(str)| == |StripViewSuffix(str)| + UpperAfterFirst(StripViewSuffix(str))
    ensures DropUnderscores(PascalToSnake(str)) == DropUnderscores(LowerString(StripViewSuffix(str)))
    ensures var base := StripViewSuffix(str);
      forall i :: 0 <= i < |base| ==>
        var p, piece := SnakeOffset(base, true, i), SnakePiece(base[i], i == 0);
        p + |piece| <= |PascalToSnake(str)| && PascalToSnake(str)[p..p + |piece|] == piece
  {
    var base := StripViewSuffix(str);
    SnakeFromNoUpper(base, true);
    SnakeFromLength(base, true);
    SnakeFromKeepsLetters(base, true);
    forall i | 0 <= i < |base|
      ensures var p, piece := SnakeOffset(base, true, i), SnakePiece(base[i], i == 0);
        p + |piece| <= |PascalToSnake(str)| && PascalToSnake(str)[p..p + |piece|] == piece
    {
      SnakeFromAt(base, true, i);
    }
  }

  lemma ViewSuffixHasCapital(s: string)
    ensures EndsWithView(s) ==> IsUpper(s[|s| - 4])
  {
    if EndsWithView(s) {
      assert s[|s| - 4] == s[|s| - 4..][0];
    }
  }

  /** pascalToSnake is idempotent: its output has no capitals, hence no
      "View" suffix and nothing to convert. */
  lemma PascalToSnakeIdempotent(str: string)
    ensures PascalToSnake(PascalToSnake(str)) == PascalToSnake(str)
  {
    var r := PascalToSnake(str);
    SnakeFromNoUpper(StripViewSuffix(str), true);
    ViewSuffixHasCapital(r);
    assert !EndsWithView(r);
    SnakeFromLowerIsIdentity(r, true);
  }

  /** A name ending in "View" loses exactly those four characters. */
  lemma {:induction false} StripViewOf(base: string, str: string)
    requires str == base + VIEW_SUFFIX
    ensures StripViewSuffix(str) == base
  {
    assert str[|str| - |VIEW_SUFFIX|..] == VIEW_SUFFIX;
    assert str[..|str| - |VIEW_SUFFIX|] == base;
  }

  /** Two capitalised words become two lower-case words joined by '_'. */
  lemma {:induction false} SnakeTwoWords(c1: char, rest1: string, c2: char, rest2: string)
    requires IsUpper(c1) && NoUpper(rest1) && IsUpper(c2) && NoUpper(rest2)
    ensures SnakeFrom([c1] + rest1 + [c2] + rest2, true)
         == [ToLower(c1)] + rest1 + ['_', ToLower(c2)] + rest2
  {
    var w1, w2 := [c1] + rest1, [c2] + rest2;
    assert [c1] + rest1 + [c2] + rest2 == w1 + w2;
    SnakeFromAppend(w1, w2, true);
    SnakeCapitalisedWord(c1, rest1, true);
    SnakeCapitalisedWord(c2, rest2, false);
  }

  /** The examples of the doc comment. */
  lemma {:induction false} PascalToSnakeExample1(str: string)
    requires str == "PascalCaseView"
    ensures PascalToSnake(str) == "pascal_case"
  {
    var base := str[..10];
    assert str == base + VIEW_SUFFIX;
    StripViewOf(base, str);
    assert base == ['P'] + "ascal" + ['C'] + "ase";
    SnakeTwoWords('P', "ascal", 'C', "ase");
  }

  lemma {:induction false} PascalToSnakeExample2(str: string)
    requires str == "TestView"
    ensures PascalToSnake(str) == "test"
  {
    var base := str[..4];
    assert str == base + VIEW_SUFFIX;
    StripViewOf(base, str);
    assert base == ['T'] + "est";
    SnakeCapitalisedWord('T', "est", true);
  }

  /** The example of the single-file route strategy. */
  lemma {:induction false} PascalToSnakeExample3(str: string)
    requires str == "MyExample"
    ensures PascalToSnake(str) == "my_example"
  {
    assert !EndsWithView(str) by {
      assert str[|str| - 4..] != VIEW_SUFFIX by { assert str[|str| - 4] == 'm'; }
    }
    assert str == ['M'] + "y" + ['E'] + "xample";
    SnakeTwoWords('M', "y", 'E', "xample");
  }

  lemma SnakeCapitalisedWord(c: char, rest: string, atStart: bool)
    requires IsUpper(c) && NoUpper(rest)
    ensures SnakeFrom([c] + rest, atStart)
         == (if atStart then [] else ['_']) + [ToLower(c)] + rest
  {
    assert ([c] + rest)[1..] == rest;
    SnakeFromLowerIsIdentity(rest, false);
  }
}
