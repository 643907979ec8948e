/**
  Properties of the Unicode classifier's blank-line and linebreak predicates:
  agreement with the meaning of the two regular expressions, explicit prefix and
  suffix characterisations, bounded windows, stability under extension, and the
  interface promises.
*/
module BlankLines {
  import opened RegexpModel
  import opened TextClassification

  function Min(a: nat, b: nat): nat {
    if a <= b then a else b
  }

  /** `\r?\n\r?\n$`: the end pattern's mirror image of the start pattern's body. */
  const MirrorEndRegex: Regexp := Regexp(false, TerminatorBody + TerminatorBody, true)

  // ---------------------------------------------------------------------------
  // The hand-written checks mean what the regular expressions mean.

  /** `BeginsWithBlankLine(s)` is `blanklineStartRegex.MatchString(s)`. */
  lemma BeginsWithBlankLineIsRegexMatch(s: string)
    ensures BeginsWithBlankLine(s) <==> MatchString(BlanklineStartRegex, s)
  {
    if BeginsWithBlankLine(s) {
      StartMatchIsRegexMatch(s);
    }
    if MatchString(BlanklineStartRegex, s) {
      RegexMatchIsStartMatch(s);
    }
  }

  lemma StartMatchIsRegexMatch(s: string)
    requires BeginsWithBlankLine(s)
    ensures MatchString(BlanklineStartRegex, s)
  {
    var j := BlankLineStartMatch(s).value;
    StartRegexWords();
    assert s[0..j] == s[..j];
    assert s[0..j] in Words(BlanklineStartRegex.body);
  }

  lemma RegexMatchIsStartMatch(s: string)
    requires MatchString(BlanklineStartRegex, s)
    ensures BeginsWithBlankLine(s)
  {
    var i, j :| 0 <= i <= j <= |s| && i == 0 && s[i..j] in Words(BlanklineStartRegex.body);
    StartRegexWords();
    StartWordInPrefix(s, j);
  }

  /** A prefix that is a word of the start pattern is found by the start check. */
  lemma StartWordInPrefix(s: string, j: nat)
    requires j <= |s| && s[..j] in StartWords
    ensures BeginsWithBlankLine(s)
  {
    assert s[..j] <= s;
    BeginsWithBlankLinePrefixes(s);
  }

  /** `EndsWithBlankLine(s)` is `blanklineEndRegex.MatchString(s)`. */
  lemma EndsWithBlankLineIsRegexMatch(s: string)
    ensures EndsWithBlankLine(s) <==> MatchString(BlanklineEndRegex, s)
  {
    if EndsWithBlankLine(s) {
      EndMatchIsRegexMatch(s);
    }
    if MatchString(BlanklineEndRegex, s) {
      RegexMatchIsEndMatch(s);
    }
  }

  lemma EndMatchIsRegexMatch(s: string)
    requires EndsWithBlankLine(s)
    ensures MatchString(BlanklineEndRegex, s)
  {
    var i := BlankLineEndMatch(s).value;
    EndRegexWords();
    assert s[i..|s|] == s[i..];
    assert s[i..|s|] in Words(BlanklineEndRegex.body);
  }

  lemma RegexMatchIsEndMatch(s: string)
    requires MatchString(BlanklineEndRegex, s)
    ensures EndsWithBlankLine(s)
  {
    var i, j :| 0 <= i <= j <= |s| && j == |s| && s[i..j] in Words(BlanklineEndRegex.body);
    EndRegexWords();
    assert s[i..j] == s[i..];
    EndWordInSuffix(s, i);
  }

  /** The characters of a word of the end pattern. */
  lemma EndWordChars(w: string)
    requires w in EndWords
    ensures |w| == 2 || |w| == 3
    ensures w[0] == '\n' && w[|w| - 1] == '\n'
    ensures |w| == 3 ==> w[1] == '\r'
  {
    if w == "\n\n" {
      assert |w| == 2 && w[0] == '\n' && w[1] == '\n';
    } else {
      assert w == "\n\r\n";
      assert |w| == 3 && w[0] == '\n' && w[1] == '\r' && w[2] == '\n';
    }
  }

  /** A suffix that is a word of the end pattern is found by the end check. */
  lemma EndWordInSuffix(s: string, i: nat)
    requires i <= |s| && s[i..] in EndWords
    ensures EndsWithBlankLine(s)
  {
    var w := s[i..];
    var n := |s|;
    EndWordChars(w);
    assert s[n - 1] == w[|w| - 1];
    if |w| == 2 {
      assert s[n - 2] == w[0];
    } else {
      assert s[n - 3] == w[0] && s[n - 2] == w[1];
    }
  }

  // ---------------------------------------------------------------------------
  // Explicit prefix and suffix characterisations.

  /** The start pattern accepts exactly the strings with one of four prefixes. */
  lemma BeginsWithBlankLinePrefixes(s: string)
    ensures BeginsWithBlankLine(s) <==>
      "\n\n" <= s || "\r\n\n" <= s || "\n\r\n" <= s || "\r\n\r\n" <= s
  {
    if BeginsWithBlankLine(s) {
      var j := BlankLineStartMatch(s).value;
      assert s[..j] <= s;
    }
    if "\n\n" <= s || "\r\n\n" <= s || "\n\r\n" <= s || "\r\n\r\n" <= s {
      assert s[0] == '\n' || (s[0] == '\r' && s[1] == '\n');
      assert TerminatorAt(s, 0).Some?;
    }
  }

  /** The end pattern accepts exactly the strings ending in `\n\n` or `\n\r\n`. */
  lemma EndsWithBlankLineSuffixes(s: string)
    ensures EndsWithBlankLine(s) <==> EndsWith(s, "\n\n") || EndsWith(s, "\n\r\n")
  {
    if EndsWithBlankLine(s) {
      EndMatchIsSuffix(s);
    }
    if EndsWith(s, "\n\n") || EndsWith(s, "\n\r\n") {
      SuffixIsEndMatch(s);
    }
  }

  lemma EndMatchIsSuffix(s: string)
    requires EndsWithBlankLine(s)
    ensures EndsWith(s, "\n\n") || EndsWith(s, "\n\r\n")
  {
    var i := BlankLineEndMatch(s).value;
    var w := s[i..];
    assert |s| - |w| == i;
    assert EndsWith(s, w);
  }

  lemma SuffixIsEndMatch(s: string)
    requires EndsWith(s, "\n\n") || EndsWith(s, "\n\r\n")
    ensures EndsWithBlankLine(s)
  {
    if EndsWith(s, "\n\n") {
      assert s[|s| - 2..] in EndWords;
      EndWordInSuffix(s, |s| - 2);
    } else {
      assert s[|s| - 3..] in EndWords;
      EndWordInSuffix(s, |s| - 3);
    }
  }

  /** No string shorter than two characters, the empty one included, begins or ends with a blank line. */
  lemma ShortStringsHaveNoBlankLine(s: string)
    requires |s| < 2
    ensures !BeginsWithBlankLine(s) && !EndsWithBlankLine(s)
  {
    BeginsWithBlankLinePrefixes(s);
  }

  // ---------------------------------------------------------------------------
  // Anchoring: stability under extension and bounded windows.

  /** Text appended after a blank line at the start does not undo it. */
  lemma BeginsWithBlankLineAppend(s: string, t: string)
    requires BeginsWithBlankLine(s)
    ensures BeginsWithBlankLine(s + t)
  {
    BeginsWithBlankLinePrefixes(s);
    BeginsWithBlankLinePrefixes(s + t);
    PrefixTransitive(s, t, "\n\n");
    PrefixTransitive(s, t, "\r\n\n");
    PrefixTransitive(s, t, "\n\r\n");
    PrefixTransitive(s, t, "\r\n\r\n");
  }

  /** Text prepended before a blank line at the end does not undo it. */
  lemma EndsWithBlankLinePrepend(s: string, t: string)
    requires EndsWithBlankLine(s)
    ensures EndsWithBlankLine(t + s)
  {
    EndsWithBlankLineSuffixes(s);
    EndsWithBlankLineSuffixes(t + s);
    SuffixTransitive(t, s, "\n\n");
    SuffixTransitive(t, s, "\n\r\n");
  }

  lemma PrefixTransitive(s: string, t: string, p: string)
    ensures p <= s ==> p <= s + t
  {
    if p <= s {
      assert (s + t)[..|p|] == s[..|p|];
    }
  }

  lemma SuffixTransitive(t: string, s: string, p: string)
    ensures EndsWith(s, p) ==> EndsWith(t + s, p)
  {
    if EndsWith(s, p) {
      assert (t + s)[|t + s| - |p|..] == s[|s| - |p|..];
    }
  }

  /**
    Read from the patterns alone: a match of `^\r?\n\r?\n` spans at most the first
    four characters, and a match of `\n\r?\n$` at most the last three.
  */
  lemma RegexMatchesAreShort(s: string, i: nat, j: nat)
    requires i <= |s| && j <= |s|
    ensures s[..j] in Words(BlanklineStartRegex.body) ==> j <= 4
    ensures s[i..] in Words(BlanklineEndRegex.body) ==> |s| - i <= 3
  {
    if s[..j] in Words(BlanklineStartRegex.body) {
      WordsLength(BlanklineStartRegex.body, s[..j]);
    }
    if s[i..] in Words(BlanklineEndRegex.body) {
      WordsLength(BlanklineEndRegex.body, s[i..]);
    }
  }

  /** Whether `s` begins with a blank line depends only on its first four characters. */
  lemma BeginsWithBlankLineWindow(s: string)
    ensures BeginsWithBlankLine(s) == BeginsWithBlankLine(s[..Min(4, |s|)])
  {
    var w := s[..Min(4, |s|)];
    BeginsWithBlankLinePrefixes(s);
    BeginsWithBlankLinePrefixes(w);
    assert s == w + s[Min(4, |s|)..];
    forall p: string | |p| <= 4
      ensures p <= s <==> p <= w
    {
      if p <= s { assert w[..|p|] == s[..|p|]; }
    }
  }

  /** Whether `s` ends with a blank line depends only on its last three characters. */
  lemma EndsWithBlankLineWindow(s: string)
    ensures EndsWithBlankLine(s) == EndsWithBlankLine(s[|s| - Min(3, |s|)..])
  {
    var k := |s| - Min(3, |s|);
    EndsWithBlankLineSuffixes(s);
    EndsWithBlankLineSuffixes(s[k..]);
    SuffixWindow(s, k, "\n\n");
    SuffixWindow(s, k, "\n\r\n");
  }

  /** A suffix of length at most `|s| - k` is a suffix of `s` exactly when it is one of `s[k..]`. */
  lemma SuffixWindow(s: string, k: nat, p: string)
    requires k <= |s| && (|p| <= |s| - k || k == 0)
    ensures EndsWith(s, p) <==> EndsWith(s[k..], p)
  {
    var w := s[k..];
    if |p| <= |w| {
      assert w[|w| - |p|..] == s[|s| - |p|..];
    }
  }

  // ---------------------------------------------------------------------------
  // What a match consists of.

  /** A line terminator consists of `\r` and `\n` only and holds exactly one line feed. */
  lemma TerminatorChars(a: string)
    requires a in Terminators
    ensures forall k :: 0 <= k < |a| ==> a[k] == '\r' || a[k] == '\n'
    ensures multiset(a)['\n'] == 1
  {
    if a == "\n" {
      assert multiset(a) == multiset{'\n'};
    } else {
      assert multiset(a) == multiset{'\r', '\n'};
    }
  }

  /** Every word of the start pattern consists of `\r` and `\n` only and holds exactly two line feeds. */
  lemma StartWordsAreLinebreaks(w: string)
    requires w in StartWords
    ensures forall k :: 0 <= k < |w| ==> IsLinebreak(RuneOf(w[k]))
    ensures multiset(w)['\n'] == 2
  {
    var a, b := StartWordSplits(w);
    TerminatorChars(a);
    TerminatorChars(b);
    assert multiset(w) == multiset(a) + multiset(b);
    forall k | 0 <= k < |w|
      ensures w[k] == '\r' || w[k] == '\n'
    {
      if k < |a| { assert w[k] == a[k]; } else { assert w[k] == b[k - |a|]; }
    }
  }

  /**
    The blank line found at the start of `s` consists of linebreak characters
    only and holds two line feeds: two consecutive linebreaks.
  */
  lemma BlankLineStartWindowIsLinebreaks(s: string)
    requires BeginsWithBlankLine(s)
    ensures var j := BlankLineStartMatch(s).value;
      && 2 <= j <= 4
      && (forall k :: 0 <= k < j ==> IsLinebreak(RuneOf(s[k])))
      && multiset(s[..j])['\n'] == 2
  {
    var j := BlankLineStartMatch(s).value;
    StartWordsAreLinebreaks(s[..j]);
    assert forall k :: 0 <= k < j ==> s[k] == s[..j][k];
  }

  /**
    The blank line found at the end of `s` consists of linebreak characters
    only and holds two line feeds.
  */
  lemma BlankLineEndWindowIsLinebreaks(s: string)
    requires EndsWithBlankLine(s)
    ensures var i := BlankLineEndMatch(s).value;
      && |s| - 3 <= i <= |s| - 2
      && (forall k :: i <= k < |s| ==> IsLinebreak(RuneOf(s[k])))
      && multiset(s[i..])['\n'] == 2
  {
    var i := BlankLineEndMatch(s).value;
    assert s[i..] in StartWords;
    StartWordsAreLinebreaks(s[i..]);
    assert forall k :: i <= k < |s| ==> s[k] == s[i..][k - i];
  }

  // ---------------------------------------------------------------------------
  // The asymmetry of the two patterns.

  /**
    Because the end pattern is anchored only on the right, `\n\r?\n$` accepts
    exactly the strings its mirror image `\r?\n\r?\n$` accepts: the asymmetry of
    the two literal patterns changes nothing about which strings are accepted.
  */
  lemma EndPatternMirror(s: string)
    ensures MatchString(BlanklineEndRegex, s) <==> MatchString(MirrorEndRegex, s)
  {
    if MatchString(BlanklineEndRegex, s) {
      EndMatchIsMirrorMatch(s);
    }
    if MatchString(MirrorEndRegex, s) {
      MirrorMatchIsEndMatch(s);
    }
  }

  lemma EndMatchIsMirrorMatch(s: string)
    requires MatchString(BlanklineEndRegex, s)
    ensures MatchString(MirrorEndRegex, s)
  {
    var i, j :| 0 <= i <= j <= |s| && j == |s| && s[i..j] in Words(BlanklineEndRegex.body);
    var w := s[i..j];
    EndRegexWords();
    StartRegexWords();
    assert w in EndWords;
    assert w in Words(MirrorEndRegex.body);
  }

  lemma MirrorMatchIsEndMatch(s: string)
    requires MatchString(MirrorEndRegex, s)
    ensures MatchString(BlanklineEndRegex, s)
  {
    var i, j :| 0 <= i <= j <= |s| && j == |s| && s[i..j] in Words(MirrorEndRegex.body);
    var w := s[i..j];
    StartRegexWords();
    assert w in StartWords;
    StartWordEndsInEndWord(w);
    EndRegexWords();
    if w in EndWords {
      assert w in Words(BlanklineEndRegex.body);
    } else {
      assert s[i + 1..j] == w[1..];
      assert s[i + 1..j] in Words(BlanklineEndRegex.body);
    }
  }

  /**
    A word of `\r?\n\r?\n` is a word of `\n\r?\n`, or is one after dropping
    its leading carriage return.
  */
  lemma StartWordEndsInEndWord(w: string)
    requires w in StartWords
    ensures w in EndWords || (|w| > 0 && w[0] == '\r' && w[1..] in EndWords)
  {
    if w == "\r\n\n" {
      assert w[1..] == "\n\n";
    } else if w == "\r\n\r\n" {
      assert w[1..] == "\n\r\n";
    }
  }

  /** A string that is exactly one blank line (two terminators) both begins and ends with one. */
  lemma BlankLineBothWays(w: string)
    requires w in StartWords
    ensures BeginsWithBlankLine(w) && EndsWithBlankLine(w)
  {
    BeginsWithBlankLinePrefixes(w);
    assert w <= w;
    StartWordEndsInEndWord(w);
    if w in EndWords {
      EndWordInSuffix(w, 0);
    } else {
      EndWordInSuffix(w, 1);
    }
  }

  /** Worked cases of the two predicates. */
  lemma BlankLineExamples()
    ensures !BeginsWithBlankLine("") && !EndsWithBlankLine("")
    ensures BeginsWithBlankLine("\n\nX") && BeginsWithBlankLine("\r\n\r\nX")
    ensures BeginsWithBlankLine("\r\n\n") && BeginsWithBlankLine("\n\r\nX")
    ensures !BeginsWithBlankLine("\r\n") && !BeginsWithBlankLine("X\n\n")
    ensures EndsWithBlankLine("X\n\n") && EndsWithBlankLine("X\n\r\n")
    ensures !EndsWithBlankLine("X\n\nY") && !EndsWithBlankLine("\r\n")
  {
  }

  // ---------------------------------------------------------------------------
  // Linebreaks and the interface.

  /**
    On the characters of a string, `IsLinebreak` holds exactly for carriage
    return and line feed, which are exactly the characters a blank line is made of.
  */
  lemma LinebreakCharacters(c: char)
    ensures IsLinebreak(RuneOf(c)) <==> c == '\r' || c == '\n'
    ensures IsLinebreak(RuneOf(c)) <==> exists w :: w in StartWords && c in w
  {
    if c == '\r' {
      assert "\r\n\n"[0] == c;
    } else if c == '\n' {
      assert "\n\n"[0] == c;
    } else {
      forall w | w in StartWords
        ensures c !in w
      {
        StartWordsAreLinebreaks(w);
      }
    }
  }

  /**
    What the Unicode category tables give for the characters that matter here:
    no letter or number is a space, and `\r` and `\n` are spaces but neither
    letters nor numbers. The tables are not part of this model, so
    this is an assumption about them, never a fact about the model.
  */
  ghost predicate TablesAssumed(t: UnicodeTables) {
    && (forall r :: t.isSpace(r) ==> !t.isLetter(r) && !t.isNumber(r))
    && t.isSpace(CR) && t.isSpace(LF)
    && !t.isLetter(CR) && !t.isNumber(CR)
    && !t.isLetter(LF) && !t.isNumber(LF)
  }

  /**
    Under these assumed tables, the Unicode classifier's categories relate as
    follows: word material is never whitespace, every linebreak is
    whitespace, and no linebreak is word material.
  */
  lemma UnicodeCategoryRelations(t: UnicodeTables, r: Rune)
    requires TablesAssumed(t)
    ensures var tc := NewUnicodeTextClassifier(t);
      && !(tc.isAlphanumeric(r) && tc.isWhitespace(r))
      && (tc.isLinebreak(r) ==> tc.isWhitespace(r) && !tc.isAlphanumeric(r))
  {
  }

  /** Two line terminators at the start make a blank line, whatever follows. */
  lemma TerminatorsBeginBlankLine(a: string, b: string, u: string)
    requires a in Terminators && b in Terminators
    ensures BeginsWithBlankLine(a + b + u)
  {
    TwoTerminators(a, b);
    assert (a + b + u)[..|a + b|] == a + b;
    StartWordInPrefix(a + b + u, |a + b|);
  }

  /** Two line terminators at the end make a blank line, whatever precedes them. */
  lemma TerminatorsEndBlankLine(a: string, b: string, u: string)
    requires a in Terminators && b in Terminators
    ensures EndsWithBlankLine(u + a + b)
  {
    var w := a + b;
    var s := u + a + b;
    TwoTerminators(a, b);
    StartWordEndsInEndWord(w);
    assert s[|u|..] == w;
    if w in EndWords {
      EndWordInSuffix(s, |u|);
    } else {
      assert s[|u| + 1..] == w[1..];
      EndWordInSuffix(s, |u| + 1);
    }
  }

  /**
    Two linebreak characters need not be a blank line: `\r\n` is one line
    terminator, so neither predicate holds of it.
  */
  lemma LinebreakPairIsNotBlankLine()
    ensures IsLinebreak(RuneOf("\r\n"[0])) && IsLinebreak(RuneOf("\r\n"[1]))
    ensures !BeginsWithBlankLine("\r\n") && !EndsWithBlankLine("\r\n")
  {
    BeginsWithBlankLinePrefixes("\r\n");
  }

  /** Every word of the start pattern splits into two line terminators. */
  lemma StartWordSplits(w: string) returns (a: string, b: string)
    requires w in StartWords
    ensures a in Terminators && b in Terminators && a + b == w
  {
    if w == "\n\n" {
      a, b := "\n", "\n";
    } else if w == "\r\n\n" {
      a, b := "\r\n", "\n";
    } else if w == "\n\r\n" {
      a, b := "\n", "\r\n";
    } else {
      a, b := "\r\n", "\r\n";
    }
  }

  /** Every word of the end pattern splits into two line terminators. */
  lemma EndWordSplits(w: string) returns (a: string, b: string)
    requires w in EndWords
    ensures a in Terminators && b in Terminators && a + b == w
  {
    if w == "\n\n" {
      a, b := "\n", "\n";
    } else {
      a, b := "\n", "\r\n";
    }
  }

  /** Beginning with a blank line is beginning with two line terminators. */
  lemma BeginsWithBlankLineIsTerminators(s: string)
    ensures BeginsWithBlankLine(s) <==> BeginsWithTerminators(s)
  {
    if BeginsWithBlankLine(s) {
      var j :| 0 <= j <= |s| && s[..j] in StartWords;
      var a, b := StartWordSplits(s[..j]);
      assert a + b <= s;
    }
    if BeginsWithTerminators(s) {
      var a, b :| a in Terminators && b in Terminators && a + b <= s;
      assert s == a + b + s[|a + b|..];
      TerminatorsBeginBlankLine(a, b, s[|a + b|..]);
    }
  }

  /** Ending with a blank line is ending with two line terminators. */
  lemma EndsWithBlankLineIsTerminators(s: string)
    ensures EndsWithBlankLine(s) <==> EndsWithTerminators(s)
  {
    if EndsWithBlankLine(s) {
      EndMatchIsTerminators(s);
    }
    if EndsWithTerminators(s) {
      var a, b :| a in Terminators && b in Terminators && EndsWith(s, a + b);
      var u := s[..|s| - |a + b|];
      assert s == u + (a + b);
      assert u + a + b == u + (a + b);
      TerminatorsEndBlankLine(a, b, u);
    }
  }

  /** The blank line the end check finds is two line terminators. */
  lemma EndMatchIsTerminators(s: string)
    requires EndsWithBlankLine(s)
    ensures EndsWithTerminators(s)
  {
    var i :| 0 <= i <= |s| && s[i..] in EndWords;
    var a, b := EndWordSplits(s[i..]);
    assert |s| - |a + b| == i;
    assert EndsWith(s, a + b);
  }

  /** The Unicode classifier keeps every promise the `TextClassifier` interface makes. */
  lemma UnicodeClassifierHonoursInterface(t: UnicodeTables)
    ensures Honours(NewUnicodeTextClassifier(t))
  {
    var tc := NewUnicodeTextClassifier(t);
    forall s
      ensures tc.beginsWithBlankLine(s) <==> BeginsWithTerminators(s)
    {
      BeginsWithBlankLineIsTerminators(s);
    }
    forall s
      ensures tc.endsWithBlankLine(s) <==> EndsWithTerminators(s)
    {
      EndsWithBlankLineIsTerminators(s);
    }
  }

  /**
    Under `Honours`, a blank line any classifier reports has two linebreak
    characters at that end.
  */
  lemma HonoursConsequences(tc: TextClassifier)
    requires Honours(tc)
    ensures forall s :: tc.beginsWithBlankLine(s) ==>
      |s| >= 2 && tc.isLinebreak(RuneOf(s[0])) && tc.isLinebreak(RuneOf(s[1]))
    ensures forall s :: tc.endsWithBlankLine(s) ==>
      |s| >= 2 && tc.isLinebreak(RuneOf(s[|s| - 2])) && tc.isLinebreak(RuneOf(s[|s| - 1]))
  {
    forall s | tc.beginsWithBlankLine(s)
      ensures |s| >= 2 && tc.isLinebreak(RuneOf(s[0])) && tc.isLinebreak(RuneOf(s[1]))
    {
      BeginsWithBlankLineIsTerminators(s);
      BlankLineStartWindowIsLinebreaks(s);
    }
    forall s | tc.endsWithBlankLine(s)
      ensures |s| >= 2 && tc.isLinebreak(RuneOf(s[|s| - 2])) && tc.isLinebreak(RuneOf(s[|s| - 1]))
    {
      EndsWithBlankLineIsTerminators(s);
      BlankLineEndWindowIsLinebreaks(s);
    }
  }

  /**
    Under `Honours`, for any classifier, the empty string and a lone `\r\n` have no blank
    line, and `\r\n\r\n` has one at both ends.
  */
  lemma HonoursExamples(tc: TextClassifier)
    requires Honours(tc)
    ensures !tc.beginsWithBlankLine("") && !tc.endsWithBlankLine("")
    ensures !tc.beginsWithBlankLine("\r\n") && !tc.endsWithBlankLine("\r\n")
    ensures tc.beginsWithBlankLine("\r\n\r\n") && tc.endsWithBlankLine("\r\n\r\n")
  {
    BeginsWithBlankLineIsTerminators("");
    EndsWithBlankLineIsTerminators("");
    ShortStringsHaveNoBlankLine("");
    BeginsWithBlankLineIsTerminators("\r\n");
    EndsWithBlankLineIsTerminators("\r\n");
    LinebreakPairIsNotBlankLine();
    BeginsWithBlankLineIsTerminators("\r\n\r\n");
    EndsWithBlankLineIsTerminators("\r\n\r\n");
    BlankLineBothWays("\r\n\r\n");
  }
}
