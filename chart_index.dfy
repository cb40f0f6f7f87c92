/** createChartName of the chart index page: the last non-empty segment of a
    page path, with dashes turned into spaces and each word capitalised. */
module ChartIndex {
  import opened Wrappers
  import opened Ascii

  /** String.prototype.split with a one-character separator: the pieces
      between separators, an empty piece wherever two separators touch or a
      separator is at an edge. */
  function Split(s: string, sep: char): (parts: seq<string>)
    ensures |parts| >= 1
  {
    if s == [] then [[]] else SplitPush(Split(s[..|s| - 1], sep), s[|s| - 1], sep)
  }

  /** One more character read by split: a separator opens a new piece, any
      other character extends the last one. */
  function SplitPush(parts: seq<string>, c: char, sep: char): (r: seq<string>)
    requires |parts| >= 1
    ensures |r| >= 1
  {
    if c == sep then parts + [[]]
    else parts[..|parts| - 1] + [parts[|parts| - 1] + [c]]
  }

  /** Array.prototype.join with a one-character separator. */
  function Join(parts: seq<string>, sep: char): string {
    if |parts| == 0 then []
    else if |parts| == 1 then parts[0]
    else Join(parts[..|parts| - 1], sep) + [sep] + parts[|parts| - 1]
  }

  /** The pieces that are not empty, in order (filter(part => part !== '')). */
  function NonEmpty(parts: seq<string>): (r: seq<string>)
    ensures |r| <= |parts|
  {
    if parts == [] then []
    else NonEmpty(parts[..|parts| - 1]) + (if parts[|parts| - 1] == [] then [] else [parts[|parts| - 1]])
  }

  /** word.charAt(0).toUpperCase() + word.slice(1) */
  function Capitalise(word: string): string {
    if word == [] then [] else [ToUpper(word[0])] + word[1..]
  }

  /** words.map(capitalise) */
  function CapitaliseAll(words: seq<string>): (r: seq<string>)
    ensures |r| == |words|
  {
    seq(|words|, i requires 0 <= i < |words| => Capitalise(words[i]))
  }

  /** name.split('-').map(capitalise).join(' ') */
  function Title(name: string): string {
    Join(CapitaliseAll(Split(name, '-')), ' ')
  }

  /** createChartName; None where the source throws, because a path made
      only of '/' leaves `name` undefined and `name.split` fails. */
  function CreateChartName(path: string): Option<string> {
    var parts := NonEmpty(Split(path, '/'));
    if parts == [] then None else Some(Title(parts[|parts| - 1]))
  }

  // ----- an independent description of the result -----

  /** The characters of s after its last sep (all of s if it has none). */
  function AfterLast(s: string, sep: char): string {
    if s == [] || s[|s| - 1] == sep then [] else AfterLast(s[..|s| - 1], sep) + [s[|s| - 1]]
  }

  /** s without its trailing run of sep. */
  function TrimEnd(s: string, sep: char): string {
    if s == [] || s[|s| - 1] != sep then s else TrimEnd(s[..|s| - 1], sep)
  }

  /** The last non-empty '/'-separated segment, read from the end. */
  function LastSegment(path: string): string {
    AfterLast(TrimEnd(path, '/'), '/')
  }

  /** The title described character by character: a dash becomes a space,
      the first character and every character after a dash is upper-cased,
      the rest is kept. */
  predicate IsTitleOf(t: string, name: string) {
    && |t| == |name|
    && forall i {:trigger t[i]} :: 0 <= i < |name| ==>
         t[i] == (if name[i] == '-' then ' '
                  else if i == 0 || name[i - 1] == '-' then ToUpper(name[i])
                  else name[i])
  }

  predicate OnlySlashes(path: string) { forall i :: 0 <= i < |path| ==> path[i] == '/' }

  // ----- lemmas -----

  /** split of a string extended by one character. */
  lemma {:induction false} SplitSnoc(init: string, c: char, sep: char)
    ensures Split(init + [c], sep) == SplitPush(Split(init, sep), c, sep)
  {
    assert (init + [c])[..|init|] == init;
  }

  /** join undoes one step of split. */
  lemma {:induction false} JoinPush(parts: seq<string>, c: char, sep: char)
    requires |parts| >= 1
    ensures Join(SplitPush(parts, c, sep), sep) == Join(parts, sep) + [c]
  {
    var k := |parts| - 1;
    var r := SplitPush(parts, c, sep);
    if c == sep {
      assert r[..|r| - 1] == parts;
    } else {
      assert r[..|r| - 1] == parts[..k];
      if k > 0 {
        assert Join(parts, sep) == Join(parts[..k], sep) + [sep] + parts[k];
      }
    }
  }

  /** split and join are inverse. */
  lemma {:induction false} JoinSplit(s: string, sep: char)
    ensures Join(Split(s, sep), sep) == s
  {
    if s != [] {
      var init, c := s[..|s| - 1], s[|s| - 1];
      calc {
        Join(Split(s, sep), sep);
        Join(SplitPush(Split(init, sep), c, sep), sep);
        { JoinPush(Split(init, sep), c, sep); }
        Join(Split(init, sep), sep) + [c];
        { JoinSplit(init, sep); }
        init + [c];
      }
      assert s == init + [c];
    }
  }

  /** No piece contains the separator. */
  lemma {:induction false} SplitPiecesHaveNoSep(s: string, sep: char)
    ensures forall i :: 0 <= i < |Split(s, sep)| ==> sep !in Split(s, sep)[i]
  {
    if s != [] {
      var ps := Split(s[..|s| - 1], sep);
      SplitPiecesHaveNoSep(s[..|s| - 1], sep);
      var r := SplitPush(ps, s[|s| - 1], sep);
      forall i | 0 <= i < |r| ensures sep !in r[i] {
        if i < |ps| - 1 { assert r[i] == ps[i]; }
      }
    }
  }

  /** The last piece of a split is what follows the last separator. */
  lemma {:induction false} SplitLastPiece(s: string, sep: char)
    ensures Split(s, sep)[|Split(s, sep)| - 1] == AfterLast(s, sep)
  {
    if s != [] {
      SplitLastPiece(s[..|s| - 1], sep);
    }
  }

  /** The characters of s after its last sep, read off one more character. */
  lemma {:induction false} AfterLastSnoc(init: string, c: char, sep: char)
    ensures AfterLast(init + [c], sep) == if c == sep then [] else AfterLast(init, sep) + [c]
  {
    assert (init + [c])[..|init|] == init;
  }

  lemma {:induction false} TrimEndSnoc(init: string, c: char, sep: char)
    ensures TrimEnd(init + [c], sep) == if c == sep then TrimEnd(init, sep) else init + [c]
  {
    assert (init + [c])[..|init|] == init;
  }

  /** filter of a list extended by one piece. */
  lemma {:induction false} NonEmptySnoc(parts: seq<string>, p: string)
    ensures NonEmpty(parts + [p]) == NonEmpty(parts) + (if p == [] then [] else [p])
  {
    assert (parts + [p])[..|parts|] == parts;
  }

  lemma {:induction false} OnlySlashesSnoc(init: string, c: char)
    ensures OnlySlashes(init + [c]) <==> OnlySlashes(init) && c == '/'
  {
    var s := init + [c];
    assert s[|init|] == c;
    if OnlySlashes(init) && c == '/' {
      forall i | 0 <= i < |s| ensures s[i] == '/' {
        if i < |init| { assert s[i] == init[i]; }
      }
    }
    if OnlySlashes(s) {
      forall i | 0 <= i < |init| ensures init[i] == '/' {
        assert init[i] == s[i];
      }
    }
  }

  /** There is no non-empty segment exactly when the path has only slashes. */
  lemma {:induction false} NoSegmentIffOnlySlashes(path: string)
    ensures NonEmpty(Split(path, '/')) == [] <==> OnlySlashes(path)
  {
    if path != [] {
      var init := path[..|path| - 1];
      var c := path[|path| - 1];
      assert path == init + [c];
      NoSegmentIffOnlySlashes(init);
      OnlySlashesSnoc(init, c);
      var ps := Split(init, '/');
      var r := SplitPush(ps, c, '/');
      if c == '/' {
        NonEmptySnoc(ps, []);
      } else {
        assert r == ps[..|ps| - 1] + [ps[|ps| - 1] + [c]];
        NonEmptySnoc(ps[..|ps| - 1], ps[|ps| - 1] + [c]);
      }
    }
  }

  /** A trailing '/' changes neither the non-empty segments nor the last
      segment. */
  lemma {:induction false} SlashSnoc(init: string)
    ensures NonEmpty(Split(init + ['/'], '/')) == NonEmpty(Split(init, '/'))
    ensures LastSegment(init + ['/']) == LastSegment(init)
  {
    var ps := Split(init, '/');
    SplitSnoc(init, '/', '/');
    NonEmptySnoc(ps, []);
    TrimEndSnoc(init, '/', '/');
  }

  /** Any other character ends a non-empty last segment that it extends. */
  lemma {:induction false} SegmentCharSnoc(init: string, c: char)
    requires c != '/'
    ensures var parts := NonEmpty(Split(init + [c], '/'));
      parts != [] && parts[|parts| - 1] == LastSegment(init + [c])
  {
    var ps := Split(init, '/');
    var k := |ps| - 1;
    var last := ps[k] + [c];
    assert NonEmpty(Split(init + [c], '/')) == NonEmpty(ps[..k]) + [last] by {
      SplitSnoc(init, c, '/');
      NonEmptySnoc(ps[..k], last);
    }
    calc {
      last;
      { SplitLastPiece(init, '/'); }
      AfterLast(init, '/') + [c];
      { AfterLastSnoc(init, c, '/'); }
      AfterLast(init + [c], '/');
      { TrimEndSnoc(init, c, '/'); }
      LastSegment(init + [c]);
    }
  }

  /** The last non-empty segment is the one read back from the end. */
  lemma {:induction false} LastNonEmptySegment(path: string)
    ensures NonEmpty(Split(path, '/')) != [] ==>
      var parts := NonEmpty(Split(path, '/'));
      parts[|parts| - 1] == LastSegment(path)
  {
    if path != [] {
      var init, c := path[..|path| - 1], path[|path| - 1];
      assert path == init + [c];
      if c == '/' {
        SlashSnoc(init);
        LastNonEmptySegment(init);
      } else {
        SegmentCharSnoc(init, c);
      }
    }
  }

  lemma {:induction false} SplitLastPieceEmpty(s: string, sep: char)
    ensures (Split(s, sep)[|Split(s, sep)| - 1] == []) <==> (s == [] || s[|s| - 1] == sep)
  {
    if s != [] {
      SplitLastPiece(s, sep);
      if s[|s| - 1] != sep {
        assert |AfterLast(s, sep)| > 0;
      }
    }
  }

  /** capitalise of a word extended by one character: the character is
      upper-cased when it is the first one. */
  lemma {:induction false} CapitaliseSnoc(w: string, c: char)
    ensures Capitalise(w + [c]) == Capitalise(w) + [if w == [] then ToUpper(c) else c]
  {
    if w != [] {
      assert (w + [c])[1..] == w[1..] + [c];
    }
  }

  /** map(capitalise) of a list extended by one piece. */
  lemma {:induction false} CapitaliseAllSnoc(ps: seq<string>, p: string)
    ensures CapitaliseAll(ps + [p]) == CapitaliseAll(ps) + [Capitalise(p)]
  {
    var a := CapitaliseAll(ps + [p]);
    var b := CapitaliseAll(ps) + [Capitalise(p)];
    forall i | 0 <= i < |a| ensures a[i] == b[i] {
      if i < |ps| { assert (ps + [p])[i] == ps[i]; }
    }
  }

  lemma {:induction false} JoinExtendLast(ps: seq<string>, w: string, c: char, sep: char)
    ensures Join(ps + [w + [c]], sep) == Join(ps + [w], sep) + [c]
  {
    var a := ps + [w + [c]];
    var b := ps + [w];
    assert a[..|a| - 1] == ps && b[..|b| - 1] == ps;
  }

  lemma {:induction false} JoinEmptyLast(ps: seq<string>, sep: char)
    ensures |ps| >= 1 ==> Join(ps + [[]], sep) == Join(ps, sep) + [sep]
  {
    var a := ps + [[]];
    assert a[..|a| - 1] == ps;
  }

  /** Appending one character to a name appends one character to its title. */
  lemma {:induction false} TitleSnoc(init: string, c: char)
    ensures Title(init + [c]) == Title(init) + [if c == '-' then ' '
                                               else if init == [] || init[|init| - 1] == '-' then ToUpper(c)
                                               else c]
  {
    var ps := Split(init, '-');
    if c == '-' {
      calc {
        Title(init + [c]);
        { SplitSnoc(init, c, '-'); }
        Join(CapitaliseAll(ps + [[]]), ' ');
        { CapitaliseAllSnoc(ps, []); }
        Join(CapitaliseAll(ps) + [[]], ' ');
        { JoinEmptyLast(CapitaliseAll(ps), ' '); }
        Join(CapitaliseAll(ps), ' ') + [' '];
      }
    } else {
      var k := |ps| - 1;
      var w := ps[k];
      var front := CapitaliseAll(ps[..k]);
      var d := if w == [] then ToUpper(c) else c;
      calc {
        Title(init + [c]);
        { SplitSnoc(init, c, '-'); }
        Join(CapitaliseAll(ps[..k] + [w + [c]]), ' ');
        { CapitaliseAllSnoc(ps[..k], w + [c]); }
        Join(front + [Capitalise(w + [c])], ' ');
        { CapitaliseSnoc(w, c); }
        Join(front + [Capitalise(w) + [d]], ' ');
        { JoinExtendLast(front, Capitalise(w), d, ' '); }
        Join(front + [Capitalise(w)], ' ') + [d];
        { CapitaliseAllSnoc(ps[..k], w); assert ps == ps[..k] + [w]; }
        Title(init) + [d];
      }
      SplitLastPieceEmpty(init, '-');
    }
  }

  /** The character-by-character description extends by one character. */
  lemma {:induction false} IsTitleOfSnoc(t: string, init: string, c: char)
    requires IsTitleOf(t, init)
    ensures IsTitleOf(t + [if c == '-' then ' '
                           else if init == [] || init[|init| - 1] == '-' then ToUpper(c)
                           else c], init + [c])
  {
    var name := init + [c];
    var t' := t + [if c == '-' then ' '
                   else if init == [] || init[|init| - 1] == '-' then ToUpper(c)
                   else c];
    forall i | 0 <= i < |name|
      ensures t'[i] == (if name[i] == '-' then ' '
                        else if i == 0 || name[i - 1] == '-' then ToUpper(name[i])
                        else name[i])
    {
      if i < |init| {
        assert t'[i] == t[i] && name[i] == init[i];
        if i > 0 { assert name[i - 1] == init[i - 1]; }
      } else if i > 0 {
        assert name[i - 1] == init[|init| - 1];
      }
    }
  }

  lemma {:induction false} TitleCharacterisation(name: string)
    ensures IsTitleOf(Title(name), name)
    decreases |name|
  {
    if name != [] {
      var init, c := name[..|name| - 1], name[|name| - 1];
      assert name == init + [c];
      TitleCharacterisation(init);
      TitleSnoc(init, c);
      IsTitleOfSnoc(Title(init), init, c);
    }
  }

  /** filter(part => part !== '') keeps no empty piece. */
  lemma {:induction false} NonEmptyHasNoEmpty(parts: seq<string>)
    ensures forall i :: 0 <= i < |NonEmpty(parts)| ==> NonEmpty(parts)[i] != []
  {
    if parts != [] {
      var init := parts[..|parts| - 1];
      NonEmptyHasNoEmpty(init);
      assert parts == init + [parts[|parts| - 1]];
      NonEmptySnoc(init, parts[|parts| - 1]);
    }
  }

  lemma {:induction false} CreateChartNameCharacterisation(path: string)
    ensures CreateChartName(path).None? <==> OnlySlashes(path)
    ensures CreateChartName(path).Some? ==>
      && LastSegment(path) != []
      && '/' !in LastSegment(path)
      && IsTitleOf(CreateChartName(path).value, LastSegment(path))
  {
    NoSegmentIffOnlySlashes(path);
    LastNonEmptySegment(path);
    var parts := NonEmpty(Split(path, '/'));
    if parts != [] {
      NonEmptyHasNoEmpty(Split(path, '/'));
      TitleCharacterisation(LastSegment(path));
      AfterLastHasNoSep(TrimEnd(path, '/'), '/');
    }
  }

  lemma {:induction false} AfterLastHasNoSep(s: string, sep: char)
    ensures sep !in AfterLast(s, sep)
  {
    if s != [] && s[|s| - 1] != sep {
      AfterLastHasNoSep(s[..|s| - 1], sep);
    }
  }

  lemma {:induction false} AfterLastOfJoin(a: string, b: string, sep: char)
    requires sep !in b
    ensures AfterLast(a + [sep] + b, sep) == b
    decreases |b|
  {
    var s := a + [sep] + b;
    if b == [] {
      assert s[|s| - 1] == sep;
    } else {
      assert s[..|s| - 1] == a + [sep] + b[..|b| - 1];
      AfterLastOfJoin(a, b[..|b| - 1], sep);
      assert b == b[..|b| - 1] + [b[|b| - 1]];
    }
  }

  /** The title of the source comment's example segment. */
  lemma {:induction false} TitleExample(name: string)
    requires name == "cool-data-vis"
    ensures Title(name) == "Cool Data Vis"
  {
    TitleCharacterisation(name);
    var t := Title(name);
    assert t[0] == 'C' && t[1] == 'o' && t[2] == 'o' && t[3] == 'l' && t[4] == ' ';
    assert t[5] == 'D' && t[6] == 'a' && t[7] == 't' && t[8] == 'a' && t[9] == ' ';
    assert t[10] == 'V' && t[11] == 'i' && t[12] == 's';
  }

  /** The last segment of the source comment's example path. */
  lemma {:induction false} LastSegmentExample(path: string)
    requires path == "/charts/cool-data-vis/"
    ensures LastSegment(path) == "cool-data-vis"
  {
    var init := path[..|path| - 1];
    var front := init[..|init| - 1];
    var a := init[..7];
    var b := init[8..];
    var segment := "cool-data-vis";
    assert |path| == 22 && init[7] == path[7] == '/';
    assert |b| == |segment|;
    forall i | 0 <= i < |b| ensures b[i] == segment[i] && b[i] != '/' {
      assert b[i] == path[8 + i];
    }
    calc {
      LastSegment(path);
      { assert path == init + ['/']; TrimEndSnoc(init, '/', '/'); }
      AfterLast(TrimEnd(init, '/'), '/');
      { assert init == front + ['s']; TrimEndSnoc(front, 's', '/'); }
      AfterLast(init, '/');
      { assert init == a + [init[7]] + b; AfterLastOfJoin(a, b, '/'); }
      b;
    }
  }

  /** The example of the source comment. */
  lemma {:induction false} CreateChartNameExample(path: string)
    requires path == "/charts/cool-data-vis/"
    ensures CreateChartName(path) == Some("Cool Data Vis")
  {
    NoSegmentIffOnlySlashes(path);
    LastNonEmptySegment(path);
    assert !OnlySlashes(path) by { assert path[1] == 'c'; }
    LastSegmentExample(path);
    TitleExample(LastSegment(path));
  }
}
