/** replaceUnderscoresAndTrimEdges: drop the leading and trailing runs of
    '_' and turn every remaining '_' into a space. */
module StringUtils {

  /** Length of the run of '_' at the start of s. */
  function LeadingUnderscores(s: string): (n: nat)
    ensures n <= |s|
  {
    if s == [] || s[0] != '_' then 0 else 1 + LeadingUnderscores(s[1..])
  }

  /** Length of the run of '_' at the end of s. */
  function TrailingUnderscores(s: string): (n: nat)
    ensures n <= |s|
  {
    if s == [] || s[|s| - 1] != '_' then 0 else 1 + TrailingUnderscores(s[..|s| - 1])
  }

  /** inputString.replace(/^_+|_+$/g, ''): the first alternative removes the
      leading run; the second then matches only the trailing run of what is
      left (it cannot overlap the first). */
  function TrimEdgeUnderscores(s: string): string {
    var rest := s[LeadingUnderscores(s)..];
    rest[..|rest| - TrailingUnderscores(rest)]
  }

  /** processedString.replace(/_/g, ' ') */
  function UnderscoresToSpaces(s: string): string {
    if s == [] then [] else [if s[0] == '_' then ' ' else s[0]] + UnderscoresToSpaces(s[1..])
  }

  function ReplaceUnderscoresAndTrimEdges(inputString: string): string {
    if inputString == "" then "" else UnderscoresToSpaces(TrimEdgeUnderscores(inputString))
  }

  lemma {:induction false} LeadingRun(s: string)
    ensures forall i :: 0 <= i < LeadingUnderscores(s) ==> s[i] == '_'
    ensures LeadingUnderscores(s) < |s| ==> s[LeadingUnderscores(s)] != '_'
  {
    if s != [] && s[0] == '_' {
      LeadingRun(s[1..]);
      forall i | 1 <= i < LeadingUnderscores(s) ensures s[i] == '_' {
        assert s[i] == s[1..][i - 1];
      }
    }
  }

  lemma {:induction false} TrailingRun(s: string)
    ensures forall i :: |s| - TrailingUnderscores(s) <= i < |s| ==> s[i] == '_'
    ensures TrailingUnderscores(s) < |s| ==> s[|s| - 1 - TrailingUnderscores(s)] != '_'
  {
    if s != [] && s[|s| - 1] == '_' {
      TrailingRun(s[..|s| - 1]);
    }
  }

  lemma {:induction false} UnderscoresToSpacesAt(s: string)
    ensures |UnderscoresToSpaces(s)| == |s|
    ensures forall i :: 0 <= i < |s| ==>
      UnderscoresToSpaces(s)[i] == (if s[i] == '_' then ' ' else s[i])
  {
    if s != [] {
      UnderscoresToSpacesAt(s[1..]);
    }
  }

  lemma {:induction false} LeadingOfNoUnderscore(s: string)
    requires '_' !in s
    ensures LeadingUnderscores(s) == 0 && TrailingUnderscores(s) == 0
  {
  }

  lemma {:induction false} UnderscoresToSpacesIdentity(s: string)
    requires '_' !in s
    ensures UnderscoresToSpaces(s) == s
  {
    if s != [] {
      UnderscoresToSpacesIdentity(s[1..]);
      assert s == [s[0]] + s[1..];
    }
  }

  /** What is removed is the maximal leading run and the maximal trailing run
      of '_'; every other character is kept in order, with '_' turned into ' ';
      so the result has the input's length minus the two runs. */
  lemma TrimEdgesCharacterisation(s: string)
    ensures var lead := LeadingUnderscores(s);
            var trail := TrailingUnderscores(s[lead..]);
            var r := ReplaceUnderscoresAndTrimEdges(s);
            && lead + trail <= |s|
            && (forall i :: 0 <= i < lead ==> s[i] == '_')
            && (forall i :: |s| - trail <= i < |s| ==> s[i] == '_')
            && (lead + trail < |s| ==> s[lead] != '_' && s[|s| - 1 - trail] != '_')
            && |r| == |s| - lead - trail
            && (forall i :: 0 <= i < |r| ==> r[i] == (if s[lead + i] == '_' then ' ' else s[lead + i]))
  {
    var lead := LeadingUnderscores(s);
    var rest := s[lead..];
    var trail := TrailingUnderscores(rest);
    LeadingRun(s);
    TrailingRun(rest);
    forall i | |s| - trail <= i < |s| ensures s[i] == '_' {
      assert s[i] == rest[i - lead];
    }
    if lead + trail < |s| {
      assert s[|s| - 1 - trail] == rest[|rest| - 1 - trail];
    }
    if s != "" {
      UnderscoresToSpacesAt(TrimEdgeUnderscores(s));
    }
  }

  /** An input made only of '_' (or empty) gives the empty string. */
  lemma AllUnderscoresGiveEmpty(s: string)
    requires forall i :: 0 <= i < |s| ==> s[i] == '_'
    ensures ReplaceUnderscoresAndTrimEdges(s) == ""
  {
    TrimEdgesCharacterisation(s);
    LeadingRun(s);
    assert LeadingUnderscores(s) == |s|;
  }

  /** No '_' survives. */
  lemma NoUnderscoreLeft(s: string)
    ensures '_' !in ReplaceUnderscoresAndTrimEdges(s)
  {
    var r := ReplaceUnderscoresAndTrimEdges(s);
    TrimEdgesCharacterisation(s);
    assert forall i :: 0 <= i < |r| ==> r[i] != '_';
  }

  /** Applying the function twice changes nothing. */
  lemma ReplaceUnderscoresIdempotent(s: string)
    ensures ReplaceUnderscoresAndTrimEdges(ReplaceUnderscoresAndTrimEdges(s))
         == ReplaceUnderscoresAndTrimEdges(s)
  {
    var r := ReplaceUnderscoresAndTrimEdges(s);
    NoUnderscoreLeft(s);
    if r != "" {
      LeadingOfNoUnderscore(r);
      assert TrimEdgeUnderscores(r) == r;
      UnderscoresToSpacesIdentity(r);
    }
  }

  lemma ReplaceUnderscoresExamples()
    ensures ReplaceUnderscoresAndTrimEdges("") == ""
    ensures ReplaceUnderscoresAndTrimEdges("__a_b__") == "a b"
  {
    var s := "__a_b__";
    assert LeadingUnderscores(s[2..]) == 0;
    assert LeadingUnderscores(s[1..]) == 1;
    assert LeadingUnderscores(s) == 2;
    var rest := s[2..];
    assert rest == "a_b__";
    assert TrailingUnderscores(rest[..3]) == 0;
    assert TrailingUnderscores(rest[..4]) == 1;
    assert TrailingUnderscores(rest) == 2;
    assert TrimEdgeUnderscores(s) == "a_b";
    UnderscoresToSpacesAt("a_b");
  }
}
