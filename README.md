# dent: indenting and dedenting text, in Dafny

A model of the Go package `dent` (file `dent.go`). The package has two text transforms:

- `IndentString(text, indent)` splits the text on `"\n"` and puts `indent` in front of every line, empty lines included. It then joins the lines again with `"\n"`.
- `DedentString(text)` handles three cases:
  - the empty text stays empty;
  - a text with a single line loses all of its leading spaces and tabs;
  - any other text loses a common indent from each line, but only from lines where that indent is a literal prefix.

  The common indent is the blank run of one chosen line. That line is the first line, in text order, whose leading run of spaces and tabs is followed by some other character and is as short as any such run.
- `Indent` and `Dedent` are the same two operations on byte slices.

Text is `seq<char>`. Bytes are a `byte` newtype, and each byte is read as the character with the same code.

Two behaviours of the code are worth knowing:

- The common indent is not checked to be shared by every qualifying line. The code takes the run of the first shortest qualifying line, and a line that starts with different blanks is left alone by `TrimPrefix` (`CommonIndentSpec`, `DedentedLines`).
- Dedent is idempotent on every input, single-line texts included (`DedentedIdempotent`).

The project has four modules:

- `Strings` (strings.dfy) models the parts of Go's `strings` package that the code calls: `Split`, `Join`, `TrimLeft` and `TrimPrefix`. It also has the byte/text conversions and the facts about splitting and joining.
- `DentSpec` (dent_spec.dfy) has the specification functions `Indented` and `Dedented`. It also has the scan that picks the common indent (`ChosenIndex`, `CommonIndent`) and the lemmas about all of these.
- `Dent` (dent.dfy) follows the Go code step by step. The methods build the output lines in loops, keep the current smallest indent in a loop, and find each line's blank run with a character scan. Each method is proved to return the value of its `DentSpec` function.
- `DentExamples` (dent_examples.dfy) states the cases of `dent_test.go` as lemmas.

## Model

| member | source | states |
|---|---|---|
| `Strings.Split` | dent.go:16 | splitting on `"\n"` always gives at least one line, and no line contains a newline |
| `Strings.Join` | dent.go:20 | the joined text starts with the first line; with `JoinSplit` and `SplitJoin` it is the inverse of `Split` |
| `Strings.JoinSplit` | dent.go:16-20 | joining the split lines with `"\n"` gives back the original text |
| `Strings.SplitJoin` | dent.go:51-55 | splitting a join of one or more newline-free lines gives back exactly those lines |
| `Strings.SplitCount` | dent.go:32 | a text with n newlines splits into n + 1 lines |
| `Strings.SplitSingle` | dent.go:32 | the line count is 1 exactly when the text contains no newline |
| `Strings.SplitSnoc` | dent.go:51 | a trailing newline adds one empty last line and changes no other line |
| `Strings.TrimLeft` | dent.go:33 | the result is a suffix of the input; every character removed is in the cutset; the result is empty or starts with a character outside the cutset |
| `Strings.TrimPrefix` | dent.go:52 | when the prefix is a literal prefix, prefix + result is the input; otherwise the result is the input unchanged |
| `Strings.FromBytes` | dent.go:10 | `string(b)`: the text has one character per byte, with the same code |
| `Strings.ToBytes` | dent.go:10 | `[]byte(s)` on text made of bytes: reading the bytes back as text gives the text |
| `DentSpec.LeadingWs` | dent.go:40 | the captured run `^[ \t]*` is a prefix of the line, is all spaces and tabs, and is followed by a non-blank character or by the end of the line |
| `DentSpec.Qualifies` | dent.go:40 | a line qualifies exactly when it starts with some run of spaces and tabs followed by a character that is neither a blank nor a newline, which is where the regex matches at a line start |
| `DentSpec.ChosenIndex` | dent.go:42-49 | the line the scan settles on, when there is one, is a line of the text and qualifies |
| `DentSpec.ChosenIndexSpec` | dent.go:42-49 | the scan picks nothing exactly when no line qualifies; otherwise it picks a line j exactly when j is the first qualifying line with the shortest run (the strict `<` keeps the earliest of equal runs) |
| `DentSpec.CommonIndentSpec` | dent.go:38-49 | the common indent is no longer than any qualifying line's run; it equals the run of the first shortest qualifying line; it is `""` when no line qualifies |
| `DentSpec.CommonIndent` | dent.go:38-49 | the indent that is stripped is made only of spaces and tabs |
| `DentSpec.CommonIndentEmpty` | dent.go:45-47 | a qualifying line with no leading blanks makes the common indent empty |
| `DentSpec.TrimLeftBlanks` | dent.go:33 | `TrimLeft(s, " \t")` removes exactly the leading blank run of `s` |
| `DentSpec.Indented` | dent.go:13-20 | the result starts with the indent and holds no character other than those of the text, of the indent and the newline |
| `DentSpec.IndentedLines` | dent.go:13-20 | when the indent has no newline, the result has as many lines as the text, and output line i is the indent followed by input line i |
| `DentSpec.IndentedEmpty` | dent.go:13-20 | indenting the empty text gives the indent itself |
| `DentSpec.IndentedTrailingNewline` | dent.go:13-20 | when the text ends in a newline, the last output line is the indent alone |
| `DentSpec.Dedented` | dent.go:27-56 | the result is never longer than the text and holds no character that the text does not |
| `DentSpec.DedentedShortcuts` | dent.go:28-34 | the empty text dedents to `""`; a text without a newline loses exactly its leading blank run, and the result does not start with a blank |
| `DentSpec.DedentedLines` | dent.go:51-55 | on a text with a newline, the output has the same number of lines in the same order; each output line is the input line minus the common indent when the indent is a literal prefix of it, and otherwise the input line unchanged |
| `DentSpec.DedentedTrailingNewline` | dent.go:51-55 | a trailing empty line is kept as an empty last line |
| `DentSpec.DedentedNothingQualifies` | dent.go:38-39 | on a text with a newline where every line is empty or blank, the result is the input unchanged |
| `DentSpec.DedentedIdempotent` | dent.go:27-56 | dedenting a second time changes nothing |
| `DentSpec.DedentIndentRoundTrip` | dent.go:13-56 | dedenting undoes an indent made of spaces and tabs, under two conditions: no line of the text starts with a blank; and the text is one line or has a non-empty line |
| `Dent.IndentString` | dent.go:13-20 | the loop-built result equals `Indented(text, indent)`; when the indent has no newline, output line i is the indent followed by input line i |
| `Dent.MatchIndent` | dent.go:40-43 | the per-line scan matches exactly when the line qualifies, and then returns the line's leading blank run |
| `Dent.SmallestIndent` | dent.go:38-49 | the loop's final `smallestIndent` is the common indent; it is no longer than any qualifying run; it is `""` when no line qualifies |
| `Dent.DedentString` | dent.go:27-56 | the method's result equals `Dedented(text)` on all three paths |
| `Dent.Indent` | dent.go:9-11 | the byte result, read as text, is `Indented` of the inputs read as text |
| `Dent.Dedent` | dent.go:23-25 | the byte result, read as text, is `Dedented` of the input read as text |
| `DentExamples.IndentSingleLineExamples` | dent_test.go:18-28 | `("", "")`, `("", "  ")` and `("a", "  ")` indent to `""`, `"  "` and `"  a"` |
| `DentExamples.IndentMultiLineExamples` | dent_test.go:29-43 | `"a\nb"` indents line by line; `"a\nb\n"` with `"xxx"` ends in a last line `"xxx"` |
| `DentExamples.DedentSingleLineExamples` | dent_test.go:68-77 | `""`, `"   "` and `"a"` dedent to `""`, `""` and `"a"` |
| `DentExamples.DedentUnindented` | dent.go:42-53 | a multi-line text with a qualifying line that has no leading blank is returned unchanged |
| `DentExamples.DedentTwoLinesExample` | dent_test.go:79-84 | `"a\nb"` is returned unchanged |
| `DentExamples.DedentTrailingNewlineExample` | dent_test.go:86-92 | `"a\nb\n"` is returned unchanged, keeping its trailing empty line |
| `DentExamples.DedentFirstLineIndentedExample` | dent_test.go:94-99 | `"  a\nb"` is returned unchanged, because the line `b` makes the common indent empty |
| `DentExamples.DedentedBy` | dent.go:42-55 | once the first shortest qualifying line is known, the result is every line with that line's run trimmed, joined again |
| `DentExamples.DedentTabBlankLinesExample` | dent_test.go:125-140 | with a tab indent, the lines made of a tab and two spaces lose the tab like every other line |
| `DentExamples.DedentSpaceBlankLinesExample` | dent_test.go:141-156 | with a tab indent, lines of two spaces keep both spaces, because the tab is not a literal prefix of them |

## Left out

- The regular expression engine (dent.go:40): `FindAllStringSubmatch` with `(?m)(^[ \t]*)[^ \t\n]` is modelled as a scan of each line, in line order. `(?m)^` anchors at each line start and `[^ \t\n]` cannot cross a newline, so there is at most one match per line. The model takes this correspondence as given rather than proving it against regex semantics.
- The `math.MaxInt` sentinel (dent.go:38) becomes an absent size (`Option<nat>`). Machine integers are not modelled.
- `strings.SplitSeq` (dent.go:16, 51) is an iterator; it is modelled as the list of lines that `Split` returns.
- Go strings are byte strings. In the model each byte is one character, so the regex's UTF-8 decoding is not modelled. It cannot change which bytes count as space, tab or newline.
- The tests compare string results with `strings.EqualFold` (dent_test.go:56, 169), which ignores case. The model states exact equality.
- `ExampleIndent` and `ExampleDedent` (dent_test.go:176-204) are output-checked cases: `go test` compares what they print with their `// Output:` comments. They are instances of `IndentedLines` and `DedentedLines` and are not restated as example lemmas.
- The benchmarks (dent_test.go:206-228) only time the functions.
- Of the test cases, the two indented blocks at dent_test.go:101-123 are not restated as example lemmas. `DedentedLines` and `CommonIndentSpec` cover them in general.
