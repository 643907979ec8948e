/**
  The text classification layer of the go-diff diff/patch engine: a capability of
  five pure queries (is a rune word material, whitespace, a linebreak; does a
  string begin or end with a blank line) and its default Unicode implementation.
*/
module TextClassification {
  import opened RegexpModel

  /** Go's `rune`: a signed 32-bit integer. */
  newtype Rune = x: int | -0x8000_0000 <= x < 0x8000_0000

  const CR: Rune := 13
  const LF: Rune := 10

  /** The rune a character of a string decodes to. */
  function RuneOf(c: char): Rune {
    c as int as Rune
  }

  datatype Option<T> = None | Some(value: T)

  /**
    Go's `unicode.IsLetter`, `unicode.IsNumber` and `unicode.IsSpace`. Their tables
    are a foreign library, so the model takes them as a parameter and assumes
    nothing about their contents.
  */
  datatype UnicodeTables = UnicodeTables(
    isLetter: Rune -> bool,
    isNumber: Rune -> bool,
    isSpace: Rune -> bool)

  /**
    The `TextClassifier` interface: one total function per method. Any value of
    this type is a classifier; `Honours` states the interface's doc comments as
    the Unicode classifier's code reads them.
  */
  datatype TextClassifier = TextClassifier(
    isAlphanumeric: Rune -> bool,
    isWhitespace: Rune -> bool,
    isLinebreak: Rune -> bool,
    beginsWithBlankLine: string -> bool,
    endsWithBlankLine: string -> bool)

  /** `s` ends with `t`. */
  predicate EndsWith(s: string, t: string) {
    |t| <= |s| && s[|s| - |t|..] == t
  }

  /** `s` begins with two consecutive line terminators `\r?\n`. */
  ghost predicate BeginsWithTerminators(s: string) {
    exists a, b :: a in Terminators && b in Terminators && a + b <= s
  }

  /** `s` ends with two consecutive line terminators `\r?\n`. */
  ghost predicate EndsWithTerminators(s: string) {
    exists a, b :: a in Terminators && b in Terminators && EndsWith(s, a + b)
  }

  /**
    The interface's doc comments as the Unicode classifier's code reads them.
    `\r` and `\n` are linebreaks, and a string begins (ends) with a blank line
    exactly when it begins (ends) with two consecutive line terminators `\r?\n`.
    The comments' per-character wording ("two consecutive linebreaks", a
    linebreak being a character such as `\r` or `\n`) would also accept `\r\n`
    and `\r\r`; the code does not, and neither does this predicate.
  */
  ghost predicate Honours(tc: TextClassifier) {
    && tc.isLinebreak(CR)
    && tc.isLinebreak(LF)
    && (forall s :: tc.beginsWithBlankLine(s) <==> BeginsWithTerminators(s))
    && (forall s :: tc.endsWithBlankLine(s) <==> EndsWithTerminators(s))
  }

  // ---------------------------------------------------------------------------
  // The two pattern constants.

  /** A line terminator as the patterns spell it: `\r?\n`. */
  const TerminatorBody: Body := [Opt('\r'), Lit('\n')]

  /** `^\r?\n\r?\n`: two line terminators at the start of the text. */
  const BlanklineStartRegex: Regexp :=
    Regexp(true, TerminatorBody + TerminatorBody, false)

  /** `\n\r?\n$`: a line feed, an optional carriage return and a line feed at the end. */
  const BlanklineEndRegex: Regexp :=
    Regexp(false, [Lit('\n'), Opt('\r'), Lit('\n')], true)

  /** The words of `\r?\n\r?\n`. */
  const StartWords: set<string> := {"\n\n", "\r\n\n", "\n\r\n", "\r\n\r\n"}

  /** The words of `\r?\n`. */
  const Terminators: set<string> := {"\n", "\r\n"}

  /** The words of `\n\r?\n`. */
  const EndWords: set<string> := {"\n\n", "\n\r\n"}

  lemma TerminatorWords()
    ensures Words(TerminatorBody) == Terminators
  {
    var none: Body := [];
    var empty: string := [];
    WordsLit('\n', none);
    assert [Lit('\n')] + none == [Lit('\n')];
    assert Words(none) == {empty};
    PrefixAllSingle('\n', empty);
    assert ['\n'] + empty == "\n";
    assert Words([Lit('\n')]) == {"\n"};
    WordsOpt('\r', [Lit('\n')]);
    assert [Opt('\r')] + [Lit('\n')] == TerminatorBody;
    PrefixAllSingle('\r', "\n");
    assert ['\r'] + "\n" == "\r\n";
  }

  /** The start pattern's language is exactly the four two-terminator strings. */
  lemma StartRegexWords()
    ensures Words(BlanklineStartRegex.body) == StartWords
  {
    TerminatorWords();
    WordsLit('\n', TerminatorBody);
    PrefixAllPair('\n', "\n", "\r\n");
    assert ['\n'] + "\n" == "\n\n" && ['\n'] + "\r\n" == "\n\r\n";
    WordsOpt('\r', [Lit('\n')] + TerminatorBody);
    assert [Opt('\r')] + ([Lit('\n')] + TerminatorBody) == BlanklineStartRegex.body;
    PrefixAllPair('\r', "\n\n", "\n\r\n");
    assert ['\r'] + "\n\n" == "\r\n\n" && ['\r'] + "\n\r\n" == "\r\n\r\n";
  }

  /** The end pattern's language is exactly `\n\n` and `\n\r\n`. */
  lemma EndRegexWords()
    ensures Words(BlanklineEndRegex.body) == EndWords
  {
    TerminatorWords();
    WordsLit('\n', TerminatorBody);
    assert [Lit('\n')] + TerminatorBody == BlanklineEndRegex.body;
    PrefixAllPair('\n', "\n", "\r\n");
    assert ['\n'] + "\n" == "\n\n" && ['\n'] + "\r\n" == "\n\r\n";
  }

  /** Two line terminators in a row make a word of the start pattern. */
  lemma TwoTerminators(a: string, b: string)
    requires a in Terminators && b in Terminators
    ensures a + b in StartWords
  {
    if a == "\n" {
      if b == "\n" { assert a + b == "\n\n"; } else { assert a + b == "\n\r\n"; }
    } else {
      if b == "\n" { assert a + b == "\r\n\n"; } else { assert a + b == "\r\n\r\n"; }
    }
  }

  // ---------------------------------------------------------------------------
  // UnicodeTextClassifier

  /** Word material: a letter or a number by the Unicode tables. */
  function IsAlphanumeric(t: UnicodeTables, r: Rune): (b: bool)
    ensures b <==> t.isLetter(r) || t.isNumber(r)
  {
    t.isLetter(r) || t.isNumber(r)
  }

  /** Whitespace: a space by the Unicode tables. */
  function IsWhitespace(t: UnicodeTables, r: Rune): (b: bool)
    ensures b <==> t.isSpace(r)
  {
    t.isSpace(r)
  }

  /** A carriage return or a line feed, and nothing else. */
  function IsLinebreak(r: Rune): (b: bool)
    ensures b <==> exists c :: c in "\r\n" && RuneOf(c) == r
  {
    assert RuneOf('\r') == CR && RuneOf('\n') == LF;
    r == CR || r == LF
  }

  /**
    Matches `\r?\n` at position `i`; on success returns the position just past it.
    `\r?` is greedy, and since a `\r` must then be followed by `\n` there is never
    a second way to match.
  */
  function TerminatorAt(s: string, i: nat): (r: Option<nat>)
    ensures r.Some? ==> i < r.value <= |s| && s[i..r.value] in Terminators
    ensures r.None? ==> forall j :: i <= j <= |s| ==> s[i..j] !in Terminators
  {
    if i < |s| && s[i] == '\n' then
      assert s[i..i + 1] == "\n";
      Some(i + 1)
    else if i + 1 < |s| && s[i] == '\r' && s[i + 1] == '\n' then
      assert s[i..i + 2] == "\r\n";
      Some(i + 2)
    else
      assert forall j :: i <= j <= |s| ==> s[i..j] !in Terminators by {
        forall j | i <= j <= |s|
          ensures s[i..j] !in Terminators
        {
          if j == i + 1 { assert s[i..j][0] == s[i]; }
          if j == i + 2 { assert s[i..j][0] == s[i] && s[i..j][1] == s[i + 1]; }
        }
      }
      None
  }

  /**
    The end of the blank line at the start of `s`, if `s` begins with one: the
    leftmost match of `^\r?\n\r?\n`.
  */
  function BlankLineStartMatch(s: string): (r: Option<nat>)
    ensures r.Some? ==> r.value <= |s| && s[..r.value] in StartWords
    ensures r.None? ==> forall j :: 0 <= j <= |s| ==> s[..j] !in StartWords
  {
    match TerminatorAt(s, 0)
    case None => None
    case Some(j) =>
      match TerminatorAt(s, j)
      case None => None
      case Some(k) =>
        assert s[..k] == s[0..j] + s[j..k];
        TwoTerminators(s[0..j], s[j..k]);
        Some(k)
  }

  /** The words of the end pattern, character by character. */
  lemma EndWordShape(w: string)
    ensures w in EndWords <==>
      || (|w| == 2 && w[0] == '\n' && w[1] == '\n')
      || (|w| == 3 && w[0] == '\n' && w[1] == '\r' && w[2] == '\n')
  {
    if |w| == 2 && w[0] == '\n' && w[1] == '\n' {
      assert w == "\n\n";
    }
    if |w| == 3 && w[0] == '\n' && w[1] == '\r' && w[2] == '\n' {
      assert w == "\n\r\n";
    }
  }

  /** Without `\n\n` or `\n\r\n` as its last characters, no suffix of `s` is an end word. */
  lemma NoEndWordSuffix(s: string)
    requires !(|s| >= 2 && s[|s| - 1] == '\n' && s[|s| - 2] == '\n')
    requires !(|s| >= 3 && s[|s| - 1] == '\n' && s[|s| - 2] == '\r' && s[|s| - 3] == '\n')
    ensures forall i :: 0 <= i <= |s| ==> s[i..] !in EndWords
  {
    forall i | 0 <= i <= |s|
      ensures s[i..] !in EndWords
    {
      var w := s[i..];
      EndWordShape(w);
      if |w| == 2 { assert w[0] == s[|s| - 2] && w[1] == s[|s| - 1]; }
      if |w| == 3 { assert w[0] == s[|s| - 3] && w[1] == s[|s| - 2] && w[2] == s[|s| - 1]; }
    }
  }

  /** The start of the blank line at the end of `s`, if `s` ends with one. */
  function BlankLineEndMatch(s: string): (r: Option<nat>)
    ensures r.Some? ==> r.value <= |s| && s[r.value..] in EndWords
    ensures r.None? ==> forall i :: 0 <= i <= |s| ==> s[i..] !in EndWords
  {
    var n := |s|;
    if n >= 2 && s[n - 1] == '\n' && s[n - 2] == '\n' then
      assert s[n - 2..] == "\n\n";
      Some(n - 2)
    else if n >= 3 && s[n - 1] == '\n' && s[n - 2] == '\r' && s[n - 3] == '\n' then
      assert s[n - 3..] == "\n\r\n";
      Some(n - 3)
    else
      NoEndWordSuffix(s);
      None
  }

  /** `blanklineStartRegex.MatchString(s)`: some prefix of `s` is two line terminators. */
  function BeginsWithBlankLine(s: string): (b: bool)
    ensures b <==> exists j :: 0 <= j <= |s| && s[..j] in StartWords
  {
    BlankLineStartMatch(s).Some?
  }

  /** `blanklineEndRegex.MatchString(s)`: some suffix of `s` is `\n\n` or `\n\r\n`. */
  function EndsWithBlankLine(s: string): (b: bool)
    ensures b <==> exists i :: 0 <= i <= |s| && s[i..] in EndWords
  {
    BlankLineEndMatch(s).Some?
  }

  /** `NewUnicodeTextClassifier`, given the Unicode tables it consults. */
  function NewUnicodeTextClassifier(t: UnicodeTables): (tc: TextClassifier)
    ensures forall r :: tc.isAlphanumeric(r) == (t.isLetter(r) || t.isNumber(r))
    ensures forall r :: tc.isWhitespace(r) == t.isSpace(r)
    ensures forall r :: tc.isLinebreak(r) == IsLinebreak(r)
    ensures forall s :: tc.beginsWithBlankLine(s) == BeginsWithBlankLine(s)
    ensures forall s :: tc.endsWithBlankLine(s) == EndsWithBlankLine(s)
  {
    TextClassifier(
      r => IsAlphanumeric(t, r),
      r => IsWhitespace(t, r),
      IsLinebreak,
      BeginsWithBlankLine,
      EndsWithBlankLine)
  }
}
