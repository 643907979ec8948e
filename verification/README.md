# go-diff text classifier, modelled in Dafny

The diff/patch engine of go-diff asks a `TextClassifier` five pure questions
when it chooses cut-points at word and paragraph boundaries: is a rune word
material (`IsAlphanumeric`), whitespace (`IsWhitespace`) or a linebreak
(`IsLinebreak`), and does a string begin or end with a blank line
(`BeginsWithBlankLine`, `EndsWithBlankLine`). `UnicodeTextClassifier` is the
default implementation. It answers the first two from Go's `unicode` tables and
the third with an exact two-character test. It answers the last two with the
anchored regular expressions `^\r?\n\r?\n` and `\n\r?\n$`.

The project has three modules:

- `RegexpModel` (`regexp_model.dfy`) gives the meaning of the fragment of RE2
  that the two patterns use. A pattern body is a list of literal characters,
  each possibly made optional with `?`. `Words` is the finite set of strings a
  body matches exactly. `MatchString` asks whether some substring is such a
  word, with `^` pinning it to the start of the text and `$` to the very end.
  Without the `m` flag, RE2's `$` does not match before a trailing newline.
  This is a statement of what the patterns accept. It is not a matching
  engine.
- `TextClassification` (`text_classifier.dfy`) holds the classifier itself:
  - `Rune` is Go's 32-bit signed rune.
  - `UnicodeTables` is the three Go table predicates, taken as a parameter.
  - `TextClassifier` is the interface, as a record of five total functions.
  - `Honours` states the interface's doc comments as the Unicode
    classifier's code reads them: `\r` and `\n` are linebreaks, and a string
    begins (ends) with a blank line exactly when it begins (ends) with two
    consecutive line terminators `\r?\n`.
  - `NewUnicodeTextClassifier` builds the default classifier.
  - The blank-line predicates are hand-written window checks. They follow the
    patterns' structure: a `\r?\n` terminator matcher applied twice at the
    start, and a backwards check at the end.
- `BlankLines` (`blank_lines.dfy`) proves that these checks agree with the
  regular expressions. It also proves the prefix and suffix characterisations,
  the bounded windows, stability under extension, what a match consists of, the
  mirror-image equivalence of the end pattern, and the interface promises.

Strings are `seq<char>`. Go's `regexp` works on UTF-8 bytes, but every
literal in both patterns is ASCII, so matching over characters accepts the
same strings.

The interface's doc comment (`textclassifier.go:17-20`) says the two
predicates hold when the string begins or ends with "two consecutive
linebreaks", and line 15 calls a linebreak a character "such as \r or \n".
The code reads "linebreaks" as `\r?\n` line terminators. The doc comments'
per-character wording would also accept `"\r\n"` and `"\r\r"`, which the
patterns reject: `"\r\n"` is two linebreak characters but only one terminator,
and neither predicate holds of it (`LinebreakPairIsNotBlankLine`). The model
follows the code. The start pattern `^\r?\n\r?\n` therefore accepts four prefixes, which
`BeginsWithBlankLinePrefixes` lists. The end pattern `\n\r?\n$` starts with a
bare `\n` rather than a full terminator. `EndPatternMirror` shows that this
changes nothing about which strings are accepted: `\n\r?\n$` and
`\r?\n\r?\n$` accept the same strings.

## Model

| member | source | states |
|---|---|---|
| TextClassification.TerminatorWords | diffmatchpatch/textclassifier.go:44 | the `\r?\n` piece of both patterns matches exactly `\n` and `\r\n` |
| TextClassification.StartRegexWords | diffmatchpatch/textclassifier.go:44 | the body of `^\r?\n\r?\n` matches exactly the four strings `\n\n`, `\r\n\n`, `\n\r\n` and `\r\n\r\n` |
| TextClassification.EndRegexWords | diffmatchpatch/textclassifier.go:45 | the body of `\n\r?\n$` matches exactly `\n\n` and `\n\r\n` |
| TextClassification.TerminatorAt | diffmatchpatch/textclassifier.go:44 | on success, the characters consumed at position i are a line terminator of the pattern; on failure, no substring starting at i is one |
| TextClassification.TwoTerminators | diffmatchpatch/textclassifier.go:44 | two consecutive `\r?\n` terminators always form a word of the start pattern |
| TextClassification.BlankLineStartMatch | diffmatchpatch/textclassifier.go:44-50 | a reported blank line at the start is a prefix of the input and a word of `\r?\n\r?\n`; when none is reported, no prefix of the input is such a word |
| TextClassification.BlankLineEndMatch | diffmatchpatch/textclassifier.go:45 | a reported blank line at the end is a suffix of the input and a word of `\n\r?\n`; when none is reported, no suffix of the input is such a word |
| TextClassification.NewUnicodeTextClassifier | diffmatchpatch/textclassifier.go:27-54 | the default classifier's `IsAlphanumeric` is letter-or-number and its `IsWhitespace` is space, both from the Unicode tables; its other three queries are the Unicode classifier's predicates |
| TextClassification.Honours | diffmatchpatch/textclassifier.go:10-21 | the interface's promises as the Unicode classifier's code reads them: `\r` and `\n` are linebreaks, and `BeginsWithBlankLine` (`EndsWithBlankLine`) holds exactly when the string begins (ends) with two consecutive `\r?\n` line terminators |
| TextClassification.IsAlphanumeric | diffmatchpatch/textclassifier.go:31-33 | word material is exactly a letter or a number by the Unicode tables, which are left abstract |
| TextClassification.IsWhitespace | diffmatchpatch/textclassifier.go:35-37 | whitespace is exactly a space by the Unicode tables, which are left abstract |
| TextClassification.IsLinebreak | diffmatchpatch/textclassifier.go:39-41 | a rune is a linebreak exactly when it is the rune of one of the two characters of a `\r\n` pair |
| TextClassification.BeginsWithBlankLine | diffmatchpatch/textclassifier.go:48-50 | true exactly when some prefix of `s` is one of the four two-terminator strings |
| TextClassification.EndsWithBlankLine | diffmatchpatch/textclassifier.go:52-54 | true exactly when some suffix of `s` is `\n\n` or `\n\r\n` |
| BlankLines.BeginsWithBlankLineIsRegexMatch | diffmatchpatch/textclassifier.go:48-50 | `BeginsWithBlankLine(s)` holds exactly when `^\r?\n\r?\n` matches `s` under RE2 semantics |
| BlankLines.EndsWithBlankLineIsRegexMatch | diffmatchpatch/textclassifier.go:52-54 | `EndsWithBlankLine(s)` holds exactly when `\n\r?\n$` matches `s` under RE2 semantics, with `$` only at the very end |
| BlankLines.BeginsWithBlankLinePrefixes | diffmatchpatch/textclassifier.go:44 | begins-with-blank-line holds exactly when `s` has one of the prefixes `\n\n`, `\r\n\n`, `\n\r\n`, `\r\n\r\n` |
| BlankLines.EndsWithBlankLineSuffixes | diffmatchpatch/textclassifier.go:45 | ends-with-blank-line holds exactly when `s` has the suffix `\n\n` or `\n\r\n` |
| BlankLines.ShortStringsHaveNoBlankLine | diffmatchpatch/textclassifier.go:44-45 | neither predicate holds on a string shorter than two characters, including the empty string |
| BlankLines.BeginsWithBlankLineAppend | diffmatchpatch/textclassifier.go:44 | appending any text to a string that begins with a blank line keeps the predicate true |
| BlankLines.EndsWithBlankLinePrepend | diffmatchpatch/textclassifier.go:45 | prepending any text to a string that ends with a blank line keeps the predicate true |
| BlankLines.BeginsWithBlankLineWindow | diffmatchpatch/textclassifier.go:44 | the begin predicate on `s` equals the predicate on the first `min(4, \|s\|)` characters |
| BlankLines.EndsWithBlankLineWindow | diffmatchpatch/textclassifier.go:45 | the end predicate on `s` equals the predicate on the last `min(3, \|s\|)` characters |
| BlankLines.StartWordsAreLinebreaks | diffmatchpatch/textclassifier.go:17-20 | every two-terminator string consists only of linebreak characters and contains exactly two line feeds |
| BlankLines.BlankLineStartWindowIsLinebreaks | diffmatchpatch/textclassifier.go:17-18 | the blank line matched at the start is 2 to 4 characters long, all of them linebreaks, with exactly two line feeds |
| BlankLines.BlankLineEndWindowIsLinebreaks | diffmatchpatch/textclassifier.go:19-20 | the blank line matched at the end is the last 2 or 3 characters, all of them linebreaks, with exactly two line feeds |
| BlankLines.RegexMatchesAreShort | diffmatchpatch/textclassifier.go:44-45 | read from the patterns alone, a match of `^\r?\n\r?\n` spans at most the first four characters and a match of `\n\r?\n$` at most the last three |
| BlankLines.TerminatorsBeginBlankLine | diffmatchpatch/textclassifier.go:17-18 | any two line terminators `\r?\n` at the start of a string make it begin with a blank line, whatever follows |
| BlankLines.TerminatorsEndBlankLine | diffmatchpatch/textclassifier.go:19-20 | any two line terminators `\r?\n` at the end of a string make it end with a blank line, whatever precedes them |
| BlankLines.LinebreakPairIsNotBlankLine | diffmatchpatch/textclassifier.go:15-20 | `"\r\n"` consists of two linebreak characters, yet neither begins nor ends with a blank line: the code reads the doc comment's "two consecutive linebreaks" as two `\r?\n` terminators, where the per-character wording would accept it |
| BlankLines.EndPatternMirror | diffmatchpatch/textclassifier.go:45 | `\n\r?\n$` accepts exactly the strings its mirror image `\r?\n\r?\n$` accepts |
| BlankLines.BlankLineBothWays | diffmatchpatch/textclassifier.go:44-45 | a string that is exactly one blank line both begins and ends with a blank line |
| BlankLines.BlankLineExamples | diffmatchpatch/textclassifier.go:43-54 | worked cases: `""`, `"\r\n"` and `"X\n\n"` do not begin with a blank line, while `"\n\nX"`, `"\r\n\r\nX"`, `"\r\n\n"` and `"\n\r\nX"` do; `"X\n\nY"` does not end with one, while `"X\n\n"` and `"X\n\r\n"` do |
| BlankLines.LinebreakCharacters | diffmatchpatch/textclassifier.go:39-41 | on string characters, `IsLinebreak` holds exactly for `\r` and `\n`, which are exactly the characters that occur in a blank line |
| BlankLines.UnicodeCategoryRelations | diffmatchpatch/textclassifier.go:31-37 | if the Unicode tables say no letter or number is a space, that `\r` and `\n` are spaces, and that neither is a letter or number, then word material is never whitespace, and every linebreak is whitespace and not word material |
| BlankLines.BeginsWithBlankLineIsTerminators | diffmatchpatch/textclassifier.go:17-18 | the default `BeginsWithBlankLine(s)` holds exactly when `s` begins with two consecutive line terminators `\r?\n` |
| BlankLines.EndsWithBlankLineIsTerminators | diffmatchpatch/textclassifier.go:19-20 | the default `EndsWithBlankLine(s)` holds exactly when `s` ends with two consecutive line terminators `\r?\n` |
| BlankLines.UnicodeClassifierHonoursInterface | diffmatchpatch/textclassifier.go:10-21 | the default classifier keeps the interface's promises: `\r` and `\n` are linebreaks, and each blank-line query holds exactly when that end of the string is two consecutive line terminators `\r?\n` |
| BlankLines.HonoursConsequences | diffmatchpatch/textclassifier.go:10-21 | for any classifier satisfying `Honours`, a string it reports to begin (end) with a blank line has at least two characters and its first (last) two are linebreaks by that classifier |
| BlankLines.HonoursExamples | diffmatchpatch/textclassifier.go:17-20 | for any classifier satisfying `Honours`, `""` and `"\r\n"` have no blank line at either end and `"\r\n\r\n"` has one at both |

## Left out

- TextClassification.Honours: states the code's `\r?\n` reading of "two consecutive linebreaks", not the doc comments' per-character wording, which would also accept `"\r\n"` and `"\r\r"`. Nor does it admit custom classifiers that treat other characters, such as U+2028, as linebreaks, which the interface's comment on other encodings (line 9) allows. Go states no stricter contract for implementations, and the code is the only exact one.
- `main.go` is not modelled. It is a command-line harness: argument parsing, file reading that panics on error, and settings forwarded to the diff engine.
- Go's `unicode.IsLetter`, `unicode.IsNumber` and `unicode.IsSpace` are a foreign library. They are a parameter (`UnicodeTables`) with no assumed contents. So the disjointness of word material and whitespace, and the claim that `\r` and `\n` are whitespace, appear only as the assumption of `UnicodeCategoryRelations`.
- The `regexp` engine itself (`regexp.MustCompile`, `MatchString`) is not modelled. The model states what the two patterns accept, not how they are matched.
- Thread-safety and concurrent callers are not modelled. The classifier has no state, and every query here is a pure function.
- Go's dynamic dispatch through the interface is not modelled. The interface is a record of five functions.
- The diff, cleanup and patch algorithms that call the classifier are not part of this model.
- UTF-8 byte-level handling of invalid input is not modelled. Strings are sequences of characters. Since every pattern literal is ASCII, this does not change which strings match.
