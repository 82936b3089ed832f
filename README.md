# Command-line tokenizer and argument extractor, in Dafny

This project models the header-only command-line toolkit made of
`get_argument.h` and two string helpers from `utility_functions.h`, and proves
properties of the model.

- **Tokenizing (`ParseArguments`).** A raw command line is split into a
  sequence of tokens: arguments, and the runs of separators between them.
  Words are maximal runs of characters that are neither whitespace nor `=`.
  A quote the quote pattern picks out (a recorded quote) counts when it sits
  at the start of the argument under construction or on the last character of
  a word. An odd count opens a quoted argument that spans several words, and
  the next counted quote closes it. Quotes inside a word, escaped quotes, and
  a quote straight after a recorded quote are ignored.
- **Rebuilding (`CollapseArguments`, `ReparseArguments`).** The tokens are
  concatenated back into a line and re-tokenized.
- **Extraction (`GetArgument` overloads).** The three overloads edit the token
  vector in place. They take the n-th argument (slot 2n), a flag matching a
  pattern, or a pattern followed by a value, and empty the slots they consume.
- **Post-processing (`UnquoteString`, `TrimQuotes`).** These un-escape `\"` and
  strip one pair of surrounding quotes.

Files and modules:

| file | module | contents |
|---|---|---|
| `scanner.dfy` | `Scanner` | the character classes; the word stream (leftmost-longest matches of `[^\s=]+`); the quote stream (successive leftmost matches of `((?:^\|[^\\])(?:\\{2})*)"`), and its characterization as the "recorded" quotes |
| `reconstruct.dfy` | `Reconstructor` | `Collapse` and the `CollapseArguments` loop |
| `tokenizer.dfy` | `Tokenizer` | the cursor state of `ParseArguments`, its passes as functions, the `ParseArguments` method with its nested loops, and the theorems about its output |
| `extraction.dfy` | `Extraction` | class `ArgumentList`, which holds the token vector, with `Reparse` and the three `GetArgument` overloads |
| `quoting.dfy` | `Quoting` | `UnquoteString`, its specification `Unescape` and the inverse `Escape`, and `TrimQuotes` |
| `parse_cases.dfy` | `ParseCases` | the documented example, run through the model, and the behaviours of the extractors on small lines |

### Where the documentation and the code differ (the model follows the code)

- **Lossless parsing.** The comment at get_argument.h:39-40 calls the parse
  "lossless ... in all cases". The code loses two things:
  - trailing separators are never emitted;
  - an argument whose quote is still open at the end of the line is dropped
    with everything after it.

  `Tokenizer.ParseLossless` states exactly when `Collapse(Parse(s)) == s`: when
  `s` is empty, or when it ends with a word character and the quote count
  ends even. For example, `a  ` gives `["a"]` and `a "b` gives `["a", " "]`.
- **`=` is a separator.** The word pattern is `[^\s=]+`, so `=` separates words
  like whitespace does, and `--out=f` gives three tokens.
- **Which quotes count.** Only recorded quotes are seen at all. A recorded
  quote counts when it sits at `pos_word_0` or at the last character of the
  current word. `pos_word_0` is the start of the whole argument under
  construction, not the start of the current word.
  - A quote inside a word is consumed without being counted.
    `Tokenizer.InnerQuotesParse` proves that a line whose recorded quotes all
    lie strictly inside words parses exactly as if it had no quotes.
  - A quote at the start of a later word of an open quoted argument is also
    consumed without being counted.
- **Empty quoted argument.** The quote pattern at get_argument.h:28 consumes
  the character before the quote it matches. So a quote straight after a
  recorded quote is never recorded, and the closing quote of `""` neither
  closes nor counts. The argument stays open and is dropped, as an
  unterminated quoted argument is: `ParseCases.EmptyQuotedExample` proves that
  the line `""` parses to no tokens at all, with an odd quote count.
- **Leading separators.** `pos_word_0` starts at 0, so any separators at the
  start of the line become part of the first token.

## Model

| member | source | states |
|---|---|---|
| Scanner.SkipSeparators | get_argument.h:29 | the first position at or after i that is not a separator: everything skipped is whitespace or `=`, and it stops at a word character or the end |
| Scanner.SkipWord | get_argument.h:29 | the end of the maximal run of word characters from i: everything passed over is a word character, and it stops at a separator or the end |
| Scanner.WordsFromSplit | get_argument.h:62-69 | the word matches cut the line into non-empty runs of word characters, with only non-empty separator runs between them and only separators before the first and after the last |
| Scanner.WordsFrom | get_argument.h:63-67 | the successive word matches from position i: every span starts at or after i, is non-empty and lies inside the line |
| Scanner.Words | get_argument.h:63-67 | the word iterator over the whole line: non-empty spans inside the line, each strictly after the previous one, which is what the cursor arithmetic relies on |
| Scanner.BackslashesBefore | get_argument.h:28 | the length of the backslash run ending just before q: all those characters are backslashes and the one before the run is not |
| Scanner.BackslashesFrom | get_argument.h:28 | the length of the backslash run starting at i, with the same maximality |
| Scanner.MatchAt | get_argument.h:28 | a match of the quote pattern that starts at m ends on a quote character at or after m |
| Scanner.SearchFrom | get_argument.h:28 | the leftmost match at or after m ends on a quote character at or after m |
| Scanner.QuotesFrom | get_argument.h:64-68 | the successive quote matches from position p, each search starting just after the quote that ended the previous match. It carries no contract of its own: `Scanner.QuotesFromRecorded` states what it lists |
| Scanner.QuoteStream | get_argument.h:64-68 | the quote iterator over the whole line. It carries no contract of its own: `Scanner.QuoteStreamIsRecorded` states that it lists exactly the recorded quotes, in increasing order |
| Scanner.RecordedFromSpec | get_argument.h:28 | the list of recorded quotes holds every recorded position and no other, in strictly increasing order |
| Scanner.NextRecorded | get_argument.h:106-107 | the first recorded quote at or after p, with none between p and it; none at all when absent |
| Scanner.SearchFromStart | get_argument.h:106-107 | a search that begins at the line start or just after a recorded quote stops at the next recorded quote |
| Scanner.QuotesFromRecorded | get_argument.h:62-69 | the successive leftmost matches of the quote pattern are exactly the recorded quotes: a quote preceded by an even backslash run whose preceding character is not itself a recorded quote |
| Scanner.QuoteStreamIsRecorded | get_argument.h:62-69 | the quote stream holds exactly the recorded quotes, in increasing order |
| Scanner.QuoteFreeStream | get_argument.h:62-69 | a line without quote characters has an empty quote stream |
| Tokenizer.QuotePos | get_argument.h:77-78 | `pos_quote`: the current quote, with the line length standing for the exhausted iterator. It carries no contract of its own: `Tokenizer.Sentinels` states its meaning |
| Tokenizer.WordStart | get_argument.h:118-119 | `iter_word->position()`: the start of the current word, with the line length standing for the exhausted iterator. It carries no contract of its own: `Tokenizer.Sentinels` states its meaning |
| Tokenizer.Sentinels | get_argument.h:77-119 | the stand-in for an exhausted word or quote iterator is never a real position: each of `pos_quote` and the next word start is at most the line length, and equals it exactly when its stream is used up |
| Tokenizer.ConsumeQuotes | get_argument.h:96-108 | the inner loop stops at the first quote outside [argument start, word end), or when the quotes run out |
| Tokenizer.ConsumeQuotesCounts | get_argument.h:96-108 | every quote the inner loop consumes lies in [argument start, word end). The count grows by exactly the number of consumed quotes at the argument start or on the word's last character, so a quote in the middle of a word is never counted |
| Tokenizer.Step | get_argument.h:86-121 | one outer pass advances to the next word, and the new argument start lies at or before that word |
| Tokenizer.Scan | get_argument.h:86-121 | the outer loop runs until the word stream is exhausted |
| Tokenizer.Run | get_argument.h:86-121 | the final state of ParseArguments: the outer loop stops exactly when the word iterator is exhausted |
| Tokenizer.Parse | get_argument.h:56-124 | the vector ParseArguments returns. The tokens always rebuild a prefix of the line: nothing is reordered, duplicated or invented |
| Tokenizer.ParseArguments | get_argument.h:56-124 | the nested loops over the two cursors return exactly `Parse(argLine)`, the result of running the passes to the end |
| Tokenizer.ParseAlternating | get_argument.h:86-121 | no token is empty. Tokens alternate from an argument: an argument ends with a word character and, past the first, starts with one; a gap between arguments holds only separators |
| Tokenizer.ParseLossless | get_argument.h:34-124 | the tokens rebuild the whole line if and only if the line is empty, or it ends with a word character and the final quote count is even |
| Tokenizer.ReparseFresh | get_argument.h:141-150 | on a line the parse rebuilds exactly, re-parsing the rebuilt line gives the same tokens |
| Tokenizer.PlainStep | get_argument.h:86-121 | with no quotes, every word closes an argument and the pass adds the gap and the word |
| Tokenizer.PlainScan | get_argument.h:86-121 | with no quotes, the outer loop builds the plain split word by word |
| Tokenizer.UnquotedParse | get_argument.h:86-121 | on a line with no recorded quote, the parse is the plain split: the first word with its leading separators, then each gap and word in turn |
| Tokenizer.PlainLine | get_argument.h:36-37 | the same for a line without quote characters |
| Tokenizer.InnerQuotesParse | get_argument.h:96-102 | quotes within words are ignored: when every recorded quote lies strictly inside a word, the parse is the plain split, as if the line had no quotes |
| Reconstructor.CollapseArguments | get_argument.h:133-138 | the loop returns the in-order concatenation of the tokens |
| Reconstructor.CollapseAppend | get_argument.h:127-138 | rebuilding distributes over concatenation of token lists, so `Collapse(xs + [t]) == Collapse(xs) + t` |
| Reconstructor.CollapseEmpties | get_argument.h:133-138 | empty tokens contribute nothing to the rebuilt line |
| Extraction.FirstFrom | get_argument.h:190-191 | the first index in [i, n) whose token matches, with no match before it; none when nothing in the range matches |
| Extraction.FirstMatch | get_argument.h:190-191 | the first token that matches the pattern, with no match before it; none when no token matches |
| Extraction.FirstNamed | get_argument.h:222-223 | the first token that matches and has at least two tokens after it; none when no such token exists |
| Extraction.NamedVersusFlag | get_argument.h:186-233 | the named search stops where the flag search does when that match has two successors; it finds nothing when the first match is too close to the end or there is no match |
| Extraction.CollapseCleared | get_argument.h:141-150 | emptying a block of slots removes exactly that block's text from the rebuilt line, which is what re-parsing after an extraction sees |
| Extraction.PositionalSlots | get_argument.h:153-173 | on a fresh parse, slot 2k holds the k-th argument and slot 2k+1 the non-empty separator run after it |
| Extraction.ArgumentList.constructor | get_argument.h:165 | the list holds the given tokens |
| Extraction.ArgumentList.FromLine | get_argument.h:56-124 | the list holds the tokens of a command line |
| Extraction.ArgumentList.Reparse | get_argument.h:147-150 | the new tokens are the parse of the old tokens rebuilt into one line |
| Extraction.ArgumentList.GetPositional | get_argument.h:165-173 | found if and only if the index is non-negative and twice it is below the length. When found: the value is the old slot 2·index, slots 2·index and 2·index+1 (if present) are emptied, nothing else changes. Otherwise the value is empty and the list is unchanged |
| Extraction.ArgumentList.GetFlag | get_argument.h:186-199 | found if and only if some token matches. When found: the first matching slot and the slot after it (if present) are emptied, nothing else changes. Otherwise the list is unchanged |
| Extraction.ArgumentList.GetNamed | get_argument.h:216-233 | found if and only if some token matches with two tokens after it. For the first such slot j: the value is the old slot j+2, and slots j to j+3 (those present) are emptied. Otherwise the value is empty and the list is unchanged |
| Quoting.UnquoteString | utility_functions.h:68-85 | the loop returns `Unescape(input)`: each backslash followed by a quote becomes a quote, scanning resumes after it, and every other character is copied in order |
| Quoting.UnescapeLength | utility_functions.h:72-82 | the output is shorter than the input by exactly the number of replaced pairs, which is at most half the input |
| Quoting.UnescapeShrinks | utility_functions.h:72 | the output is never longer than the input |
| Quoting.UnescapeIdentity | utility_functions.h:74-81 | a text with no backslash immediately followed by a quote comes back unchanged |
| Quoting.UnescapeChangesIffPair | utility_functions.h:74-81 | a text changes if and only if at least one pair is replaced |
| Quoting.BackslashBeforePair | utility_functions.h:75-81 | a backslash not followed by a quote is copied, so `\\"` becomes `\"` |
| Quoting.UnescapeEscape | utility_functions.h:19-23 | un-escaping undoes the escaping a caller applies to a value it puts in quotes (a backslash before every quote), for every text |
| Quoting.TrimQuotes | utility_functions.h:88-95 | trims if and only if the first and last characters are quotes. When trimmed, the input is the result wrapped in one pair of quotes and two characters longer; otherwise the string is unchanged |
| ParseCases.DocExample | get_argument.h:42-50 | the documented line `arg1  arg2 "arg 3"   arg"4` parses to exactly the seven documented tokens |
| ParseCases.DocWords | get_argument.h:42-50 | the word matches of the documented line |
| ParseCases.DocQuoteStream | get_argument.h:42-50 | the recorded quotes of the documented line: the two around `arg 3` and the one inside `arg"4` |
| ParseCases.MidExample | get_argument.h:96-108 | `arg"4` is one token: its quote is consumed but not counted |
| ParseCases.EmptyQuotedExample | get_argument.h:28 | `""` parses to no tokens: its closing quote is not recorded, so the quote count ends odd and the argument is dropped |
| ParseCases.EscExample | get_argument.h:37-39 | `\"arg\"` is one token: quotes after an odd backslash run are not recorded |
| ParseCases.PosExample | get_argument.h:56-124 | `arg1 arg2 "arg 3"` parses to the three arguments and the two gaps between them |
| ParseCases.PositionalExample | get_argument.h:165-173 | arguments 0, 1 and 2 of that line are `arg1`, `arg2` and `"arg 3"`, taken one after another; there is no argument 3 |
| ParseCases.FlagExample | get_argument.h:186-199 | taking the flag `--verbose` from `run --verbose now` succeeds, and the rest rebuilds to `run now` |
| ParseCases.NamedMissingExample | get_argument.h:216-233 | `--name` with nothing after it is not found: the value is empty and the line is untouched |
| ParseCases.NamedFoundExample | get_argument.h:216-233 | `--out file.txt` yields the value `file.txt`, and every slot is emptied |

## Left out

- `log.h` and `include/log.h` (stream output, console redirection through the
  Windows API, the global logging configuration) are I/O and are not part of
  this model.
- `NarrowString` and `GetExecPath` (utility_functions.h:105-126) wrap Windows
  API calls and are not part of this model. So are `UpperCase`
  (utility_functions.h:98-101), a locale-dependent `toupper`, and the two test
  programs, which only print.
- **Caller patterns.** The `std::regex` engine used for them is not modelled.
  A pattern is an abstract `string -> bool` predicate applied to every token,
  including separator tokens and already emptied ones. The case-insensitive
  flag and `regex_error` on a malformed pattern are outside the model.
- **Characters.** The source uses wide strings, and `\s` follows the wide
  character classification. The model uses `string` (a sequence of `char`),
  and whitespace is the fixed set space, tab, newline, carriage return,
  vertical tab and form feed.
- **Regex iterators.** The word and quote streams are modelled by their match
  semantics (leftmost-longest word runs, successive leftmost quote matches),
  not by the regex engine.
- **End iterators.** `ParseArguments` dereferences the end iterator of a
  stream at get_argument.h:78, 107 and 119, which is undefined behaviour. The
  model uses the position |s| there instead. That value makes the inner loop's
  guard false and is never read as a position of the line.
- **Integer widths.** `cnt_quote` is an `int` and positions are `size_t`, but the model's
  counts are unbounded: an overflow of the quote count is not modelled.
- Extraction.ArgumentList.GetPositional: `index` is a C++ `int`. A negative
  index converts to a huge unsigned value in the comparison and is never
  found; the model states this directly. The signed overflow of `index*2`
  for very large indices is undefined behaviour and is not modelled.
- Quoting.TrimQuotes: the source edits its argument in place through a
  reference; the model returns the new string. It excludes the empty string
  (reading its first and last character is undefined) and the lone string `"`
  (the second erase is then at an empty string's end).
- Extraction.ArgumentList: the vector the `GetArgument` overloads receive by
  reference is modelled as the object's `args` field.
  - Aliasing between the vector and the `value` out-parameter is not modelled.
  - `value` is a fresh out-parameter.
  - Swapping `value` with a slot that was cleared first is the same as moving
    the slot's text into `value` and emptying the slot.
