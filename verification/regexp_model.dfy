/**
  A denotational model of the small fragment of Go's RE2 syntax that the text
  classifier's two blank-line patterns use: a concatenation of literal characters,
  each possibly made optional with `?`, optionally anchored with `^` and `$`.

  The model says which strings a pattern ACCEPTS; it does not say how a matcher
  finds them. It serves as the reference against which the classifier's
  hand-written window checks are proved.
*/
module RegexpModel {

  /** One element of a pattern body: a literal character `c`, or `c?`. */
  datatype Piece = Lit(c: char) | Opt(c: char)

  /** A pattern body: the concatenation of its pieces. */
  type Body = seq<Piece>

  /**
    A compiled pattern. Without the `m` flag RE2's `^` matches only at the
    beginning of the text and `$` only at its very end (no allowance for a
    trailing newline, unlike Perl).
  */
  datatype Regexp = Regexp(anchorStart: bool, body: Body, anchorEnd: bool)

  /** Prepends `c` to every word of `ws`. */
  function PrefixAll(c: char, ws: set<string>): set<string> {
    set w | w in ws :: [c] + w
  }

  /** A prefixed word is `c` followed by a word of the original set. */
  lemma PrefixAllMember(c: char, ws: set<string>, v: string)
    requires v in PrefixAll(c, ws)
    ensures |v| > 0 && v[0] == c && v[1..] in ws
  {
    var w :| w in ws && v == [c] + w;
    assert v[1..] == w;
  }

  /** Prefixing a two-word set yields the two prefixed words. */
  lemma PrefixAllPair(c: char, a: string, b: string)
    ensures PrefixAll(c, {a, b}) == {[c] + a, [c] + b}
  {
    var r := PrefixAll(c, {a, b});
    forall v | v in r
      ensures v == [c] + a || v == [c] + b
    {
      PrefixAllMember(c, {a, b}, v);
      assert v == [c] + v[1..];
    }
    assert a in {a, b} && b in {a, b};
  }

  /** Prefixing a one-word set yields the one prefixed word. */
  lemma PrefixAllSingle(c: char, a: string)
    ensures PrefixAll(c, {a}) == {[c] + a}
  {
    var r := PrefixAll(c, {a});
    forall v | v in r
      ensures v == [c] + a
    {
      PrefixAllMember(c, {a}, v);
      assert v == [c] + v[1..];
    }
    assert a in {a};
  }

  /** The language of a pattern body: the finite set of strings it matches exactly. */
  function Words(b: Body): set<string>
    decreases |b|
  {
    if |b| == 0 then {[]}
    else
      var rest := Words(b[1..]);
      match b[0]
      case Lit(c) => PrefixAll(c, rest)
      case Opt(c) => rest + PrefixAll(c, rest)
  }

  /**
    `MatchString(re, s)` as Go defines it: some substring `s[i..j]` is a word of the
    body, with `i` pinned to the start by `^` and `j` pinned to the end by `$`.
  */
  ghost predicate MatchString(re: Regexp, s: string) {
    exists i, j ::
      && 0 <= i <= j <= |s|
      && (re.anchorStart ==> i == 0)
      && (re.anchorEnd ==> j == |s|)
      && s[i..j] in Words(re.body)
  }

  lemma WordsLit(c: char, b: Body)
    ensures Words([Lit(c)] + b) == PrefixAll(c, Words(b))
  {
    assert ([Lit(c)] + b)[1..] == b;
  }

  lemma WordsOpt(c: char, b: Body)
    ensures Words([Opt(c)] + b) == Words(b) + PrefixAll(c, Words(b))
  {
    assert ([Opt(c)] + b)[1..] == b;
  }

  /** Each piece contributes at most one character to a word. */
  lemma {:induction false} WordsLength(b: Body, w: string)
    requires w in Words(b)
    ensures |w| <= |b|
    decreases |b|
  {
    if |b| > 0 {
      match b[0]
      case Lit(c) =>
        PrefixAllMember(c, Words(b[1..]), w);
        WordsLength(b[1..], w[1..]);
      case Opt(c) =>
        if w in Words(b[1..]) {
          WordsLength(b[1..], w);
        } else {
          PrefixAllMember(c, Words(b[1..]), w);
          WordsLength(b[1..], w[1..]);
        }
    }
  }
}
