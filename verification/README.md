# A verified model of the jlox scanner

This project models the lexical scanner of jlox, the tree-walking
interpreter for the Lox scripting language. The scanner turns source text
into a flat list of tokens. Each token has a kind, its exact lexeme, an
optional literal and a line number. The list always ends with one
end-of-input token. The model covers `Scanner.scanTokens` with every helper
it calls (`scanToken`, `identifier`, `number`, `string`, `peek`,
`peekNext`, `match`, `advance`, `addToken`, the character classes and the
reserved-word table) and the `Token` record with its `toString`.

How the model is shaped:

- **Pure functions.** The scanner's mutable fields `start`, `current` and
  `line` become arguments. Recognising one lexeme (`Scanner.ScanToken`)
  returns a `Step`: the new cursor, the new line, the token emitted (if
  any) and the diagnostic reported (if any). The scan loop is
  `Scanner.Run`, and the whole scan is `Scanner.ScanTokens`.
- **Diagnostics are returned.** Calls to `Lox.error(line, message)` become
  `Diagnostic(line, message)` values. They are returned in order beside the
  tokens, and they never stop the scan.
- **Number literals are kept as digits.** A number's literal is
  `Num(whole, fraction)`, the exact digit strings on each side of the
  point. The model does not hold a floating-point value.
- **The block comment is modelled as written.** The source closes a block
  comment when the cursor is on `*` *or* the next character is `/`
  (Scanner.java line 91). It then advances twice, blindly (lines 103-104).
  If the second advance reads at the source's length, `String.charAt`
  throws. The model makes that outcome explicit: `Threw(index,
  diagnostics)`.
- **Two comment rules.** The block-comment scanner takes a `CommentRule`.
  - `AsWritten` is the code's test. `Scanner.ScanTokens` uses it.
  - `Intended` closes a comment only on `*` immediately followed by `/`.
    `Scanner.ScanTokensCorrected` uses it.

  Properties that hold under both rules are stated once, for
  `Scanner.ScanWith`. The "## Findings" section below says where the two
  rules differ.

Two consequences of the code that are easy to miss:

- **String token lines.** A string token carries the line of its closing
  quote, because the newlines in its body are counted before `addToken`
  runs. `ScannerLemmas.StringTerminated` states this.
- **Exceptions.** With the comment test as written, the scan throws
  (`Threw`) when a block comment's loop reaches the source's last
  character without stopping earlier and that character is `*`;
  `Scanner.BlockComment` states exactly when. `/* * *` does not throw: its
  loop stops on the first `*`. `ScannerLemmas.ThrowsOnlyAfterTrailingStar`
  proves that a source not ending in `*` never throws.

Modules:

- `Wrappers`: `Option`.
- `Tokens`: token kinds, literals, tokens and their rendering.
- `Scanner`: the scanner itself.
- `ScannerLemmas`: what each first character leads to, plus whole-scan
  properties.
- `ScanExamples`: worked scans of small sources.
- `CommentFindings`: the block-comment discrepancies, each proved under
  both rules.

## Model

| member | source | states |
|---|---|---|
| Tokens.NameIsOneWord | jlox/src/Token.java:20 | a kind's printed name contains no space, so it is the first word of a rendering |
| Tokens.ToString | jlox/src/Token.java:19-21 | the rendering starts with the kind name and ends with the literal's rendering, `null` for a missing literal and the text itself for a string; the lexeme sits exactly between the two separating spaces |
| Tokens.FirstWordOfJoin | jlox/src/Token.java:20 | words joined by a space give back the first word |
| Tokens.ToStringNamesKind | jlox/src/Token.java:19-21 | the first space-separated word of any token's rendering is its kind's name |
| Scanner.KeywordKind | jlox/src/Scanner.java:141-143 | a word's kind is Identifier or a reserved kind; it is reserved exactly when the word is in the table, and a reserved kind is spelled exactly as the word |
| Scanner.IsDigit | jlox/src/Scanner.java:158-160 | no contract of its own: the ASCII digits; Scanner.NumberShaped and ScannerLemmas.NumberMunch state what it decides |
| Scanner.IsAlpha | jlox/src/Scanner.java:148-152 | no contract of its own: ASCII letters and underscore; ScannerLemmas.WordMunch and ScannerLemmas.UnexpectedExactlyUnclassified state what it decides |
| Scanner.IsAlphaNumeric | jlox/src/Scanner.java:154-156 | no contract of its own: a letter, underscore or digit; Scanner.WordToken's ensures state the identifier run it bounds |
| Scanner.Peek | jlox/src/Scanner.java:201-204 | no contract of its own: the character under the cursor, or NUL at the end; Scanner.StringBody, Scanner.CommentBody and Scanner.SkipWhile state the loops built on it |
| Scanner.PeekNext | jlox/src/Scanner.java:176-179 | no contract of its own: the character after the cursor, or NUL past the end; Scanner.NumberToken and Scanner.CommentBody state what it decides |
| Scanner.Emit | jlox/src/Scanner.java:219-226 | no contract of its own: the token cut from the span `[start, next)` on the current line; Scanner.ScanToken's SoundStep and ScannerLemmas.TokensAreSourceSpans state that every emitted lexeme is its source span |
| Scanner.Match | jlox/src/Scanner.java:206-212 | the cursor moves on by exactly one when, and only when, the character under it is the expected one; otherwise it stays put, including at the end |
| Scanner.SkipWhile | jlox/src/Scanner.java:138 | the consuming loops stop at the end of the longest run of accepted characters: every character passed is accepted, and the one stopped at is not, or the source has ended |
| Scanner.SkipWhileStopsAt | jlox/src/Scanner.java:163 | the converse: any position that ends such a run is the position the loop stops at |
| Scanner.StringBody | jlox/src/Scanner.java:182-185 | the string loop stops at the first double quote or at the end, and adds one line for each newline it passes |
| Scanner.StringBodyStopsAt | jlox/src/Scanner.java:182-185 | the string loop stops exactly at the first double quote after its start |
| Scanner.CommentBody | jlox/src/Scanner.java:91-94 | the comment loop stops at the first position where the closing test holds, or at the end, and adds one line for each newline it passes |
| Scanner.ClosesComment | jlox/src/Scanner.java:91 | no contract of its own: it is the loop's exit test, `*` under the cursor OR `/` after it as written, `*` AND `/` as intended; Scanner.AsWrittenStopsNoLater relates the two |
| Scanner.AsWrittenStopsNoLater | jlox/src/Scanner.java:91 | the comment loop with the test as written stops no later than with the intended test, since every `*/` also passes the test as written |
| Scanner.CommentBodyStopsAt | jlox/src/Scanner.java:91-94 | the comment loop stops exactly at the first position where the closing test holds |
| Scanner.OneCharKind | jlox/src/Scanner.java:78-81 | each of `!`, `=`, `<`, `>` alone is scanned as one of Bang, Equal, Less, Greater, the kind spelled as that character |
| Scanner.TwoCharKind | jlox/src/Scanner.java:78-81 | each of `!`, `=`, `<`, `>` followed by `=` is scanned as the kind spelled as that character followed by `=` |
| Scanner.Operator | jlox/src/Scanner.java:78-81 | an operator character takes a following `=` exactly when one is there; the kind is the two-character one exactly then; the one-character kind is never followed by `=` |
| Scanner.NumberToken | jlox/src/Scanner.java:162-174 | a number's lexeme is a whole digit run, plus a point and a digit run only when a digit follows the point; the literal records those digits; a number without a fraction is not followed by a digit, nor by a point and a digit |
| Scanner.Fractional | jlox/src/Scanner.java:166-171 | once a point followed by a digit is taken, the fraction is the whole digit run after the point |
| Scanner.WordToken | jlox/src/Scanner.java:137-146 | an identifier is the longest run of letters, digits and underscores from its start, and its kind is the reserved kind of exactly that text, or Identifier |
| Scanner.StringToken | jlox/src/Scanner.java:181-199 | a string token exists exactly when no diagnostic is reported. A token runs to the first closing quote, its literal is the text between the quotes, and its line counts the newlines inside it. Without a closing quote the rest of the source is consumed and one "Unterminated string." is reported |
| Scanner.QuotedSpan | jlox/src/Scanner.java:196-198 | the span from an opening quote to the first closing quote forms a string token whose literal is the text between them |
| Scanner.BlockComment | jlox/src/Scanner.java:88-104 | a block comment emits no token. It reports "Unterminated comment." exactly when no position after the opening satisfies the closing test, and then it has consumed the whole source. The as-written rule may undercount lines and fails, exactly when the source ends in `*` that no earlier closing position precedes, by reading at the source's length. The intended rule counts every newline and never fails |
| Scanner.LineComment | jlox/src/Scanner.java:86-87 | a line comment emits nothing, passes no newline, and stops at the newline or at the end |
| Scanner.SlashToken | jlox/src/Scanner.java:85-108 | a slash is a line comment, a block comment or the division operator; a Slash token is never followed by `/` or `*`; a diagnostic here is only for an unterminated comment at the end |
| Scanner.PunctuationKind | jlox/src/Scanner.java:66-75 | each single-character mark maps to the kind spelled exactly as that character |
| Scanner.Punctuation | jlox/src/Scanner.java:66-75 | a single-character mark is one token, and its lexeme is both its one-character source span and its kind's fixed spelling; no literal, no newline passed |
| Scanner.Whitespace | jlox/src/Scanner.java:111-117 | whitespace consumes exactly one character, emits nothing, and the line grows by the number of newlines in what it consumed |
| Scanner.Unexpected | jlox/src/Scanner.java:130-132 | a character that starts no lexeme is skipped alone, emits nothing, leaves the line as it is (there is no newline in what it consumed), and reports one "Unexpected character." on that line |
| Scanner.Run | jlox/src/Scanner.java:46-51 | no contract of its own: the scan loop, one lexeme at a time until the source is exhausted or a read fails; Scanner.RunCountsLines, Scanner.RunFailsOnlyAtEnd, Scanner.RunLexesWell and Scanner.RunLexesInOrder state its properties |
| Scanner.ScanToken | jlox/src/Scanner.java:61-135 | each lexeme moves the cursor forward inside the source. The line grows by at most the newlines consumed, and by exactly those under the intended rule. An emitted token is well formed for its source span and carries the line reached. Only the comment loop as written can fail, and only at the source's length on a source ending in `*` |
| Scanner.RunCountsLines | jlox/src/Scanner.java:46-51 | over a whole scan the line never decreases, grows by at most the number of newlines in the source (exactly that number under the intended rule), and every diagnostic carries a line reached during the scan |
| Scanner.RunFailsOnlyAtEnd | jlox/src/Scanner.java:46-51 | a scan fails only under the as-written rule, only by reading at the source's length, and only when the source ends in `*` |
| Scanner.RunLexesWell | jlox/src/Scanner.java:46-51 | every token of a scan is well formed for the source span it was cut from, and its line lies between the starting line and the final one |
| Scanner.RunLexesInOrder | jlox/src/Scanner.java:46-51 | the tokens' spans follow each other in source order without overlapping, and token lines never decrease |
| Scanner.RunTokenLines | jlox/src/Scanner.java:46-51 | under the intended rule a token's line is one plus the number of newlines before its end |
| Scanner.ScanWith | jlox/src/Scanner.java:46-55 | a finished scan ends in exactly one end-of-input token, with an empty lexeme, no literal and the final line. No other token is end-of-input, lines never decrease, and the rest of the list is the loop's tokens. A scan throws only under the as-written rule, on a non-empty source ending in `*`, at index equal to its length |
| Scanner.ScanTokens | jlox/src/Scanner.java:46-55 | the scanner as written either returns a list ending in the end-of-input token, or throws, and it throws only reading at the length of a source ending in `*` |
| Scanner.ScanTokensCorrected | jlox/src/Scanner.java:46-55 | with the intended comment rule the scan never throws, and the end-of-input token's line is one plus the number of newlines in the source |
| ScannerLemmas.KeywordTableExact | jlox/src/Scanner.java:20-39 | the table maps each of the sixteen reserved kinds from its own spelling and nothing else, so a word is reserved exactly when it is in the table |
| ScannerLemmas.PunctuationIsOneToken | jlox/src/Scanner.java:66-75 | the scanner emits each single-character mark as one token spelled as that character, with no literal |
| ScannerLemmas.OperatorMunch | jlox/src/Scanner.java:78-81 | `!`, `=`, `<`, `>` followed by `=` give one two-character token; otherwise they give a one-character token and leave the next character unconsumed |
| ScannerLemmas.SlashAlone | jlox/src/Scanner.java:105-107 | a slash followed by neither `/` nor `*` is the one-character division token |
| ScannerLemmas.LineCommentSkipped | jlox/src/Scanner.java:86-87 | a line comment is skipped up to, but not including, the first newline, and emits nothing |
| ScannerLemmas.WhitespaceSkipped | jlox/src/Scanner.java:111-117 | blanks are skipped; a newline is skipped and adds one to the line |
| ScannerLemmas.UnexpectedCharacterReported | jlox/src/Scanner.java:125-133 | any character outside the language's classes is skipped with exactly one diagnostic on the current line |
| ScannerLemmas.UnexpectedExactlyUnclassified | jlox/src/Scanner.java:125-133 | "Unexpected character." is reported exactly when the first character is in none of the dispatched classes; every other first character is scanned silently or with its own message |
| ScannerLemmas.StringTerminated | jlox/src/Scanner.java:181-199 | a string runs to the first quote after its start; its literal drops the quotes, and it carries the line of the closing quote |
| ScannerLemmas.StringUnterminated | jlox/src/Scanner.java:187-191 | a string with no closing quote consumes the rest of the source, emits nothing and reports one diagnostic on the last line |
| ScannerLemmas.NumberMunch | jlox/src/Scanner.java:162-174 | a number takes the whole digit run at its start, and takes a fraction exactly when a point is followed by a digit; a trailing point is left unconsumed |
| ScannerLemmas.WordMunch | jlox/src/Scanner.java:137-146 | an identifier takes the whole identifier-character run, with the reserved kind of exactly that text or Identifier |
| ScannerLemmas.BlockCommentAsWritten | jlox/src/Scanner.java:88-104 | as written: the comment stops at the first `*` or the first character before a `/`, counts only the newlines before it, then consumes two characters, or throws when only one is left |
| ScannerLemmas.BlockCommentIntended | jlox/src/Scanner.java:88-104 | with the intended test the comment runs to the first `*/` and counts every newline in it; without one it runs to the end and reports one diagnostic |
| ScannerLemmas.BlankRun | jlox/src/Scanner.java:111-117 | the scan loop over blanks and newlines emits nothing and ends on the starting line plus the number of newlines |
| ScannerLemmas.RunStep | jlox/src/Scanner.java:47-51 | one turn of the scan loop: the lexeme at the cursor, then the rest of the scan |
| ScannerLemmas.RunFault | jlox/src/Scanner.java:214-217 | a failed character read ends the scan loop at once |
| ScannerLemmas.ScanOfAbortedRun | jlox/src/Scanner.java:46-55 | a scan loop that fails makes the whole scan throw, with the diagnostics reported before the failure |
| ScannerLemmas.ScanOfFinishedRun | jlox/src/Scanner.java:53-54 | a finished scan loop's tokens followed by the end-of-input token on the final line are the scan's result |
| ScannerLemmas.BlankSource | jlox/src/Scanner.java:46-55 | a source of blanks and newlines alone scans to the end-of-input token alone, on the line after its last newline, under either rule |
| ScannerLemmas.ThrowsOnlyAfterTrailingStar | jlox/src/Scanner.java:102-104 | the scanner as written returns a token list for every source that does not end in `*` |
| ScannerLemmas.TokensAreSourceSpans | jlox/src/Scanner.java:223-226 | every token before the end-of-input one is the exact source text of its span, and the spans are in source order and disjoint |
| ScanExamples.TrailingPointIsDot | jlox/src/Scanner.java:166 | `123.` scans to the number `123` and a separate Dot token |
| ScanExamples.LineCommentThenOperator | jlox/src/Scanner.java:86-87 | `// x` then a newline and `+` scans to a single Plus token on line 2 |
| ScanExamples.QuotedString | jlox/src/Scanner.java:181-199 | a quoted `abc` scans to one string token whose literal is `abc` |
| CommentFindings.SlashInCommentAsWritten | jlox/src/Scanner.java:91 | as written, `/* a/b */` yields the tokens `b`, `*` and `/` |
| CommentFindings.SlashInCommentCorrected | jlox/src/Scanner.java:91 | with the intended test, `/* a/b */` yields only the end-of-input token |
| CommentFindings.StarAtEndAsWritten | jlox/src/Scanner.java:103-104 | as written, `/* *` throws reading at index 4 |
| CommentFindings.StarAtEndCorrected | jlox/src/Scanner.java:97-100 | with the intended test, `/* *` reports one unterminated comment and returns the end-of-input token |
| CommentFindings.StarNewlineAsWritten | jlox/src/Scanner.java:91-92 | as written, `/* *`, a newline, then `*/ +` yields `*`, `/` and `+` on line 1, losing the newline |
| CommentFindings.StarNewlineCorrected | jlox/src/Scanner.java:91-92 | with the intended test, the same source yields `+` alone, on line 2 |

## Left out

- Printing diagnostics and the `hadError` flag of `Lox.error` are left out: Lox.java is not part of this model, and its calls are returned as `Diagnostic` values.
- Scanner.NumberToken: the literal is the pair of digit strings, not the `double` that `Double.parseDouble` would produce, because floating point is not modelled.
- Tokens.ToString: a number literal is rendered by a caller-supplied function standing in for Java's `Double.toString`, so the model says nothing about that text.
- TokenType.java is not part of this model. `Tokens.TokenType` has one constructor for each constant Scanner.java uses (`LEFT_PAREN`, `BANG_EQUAL`, …, and `EOF`). `TokenType.Name()` assumes the enum keeps Java's default `toString`, which is the constant's name.
- The source is a sequence of Unicode scalar values, not Java's UTF-16 code units. A lone surrogate has no counterpart. A supplementary character such as U+1F600 is one character here but two `char`s in Java. Outside a string or comment, Java therefore reports "Unexpected character." twice for it, and the model reports it once. Every index the model gives, including `Threw`'s, counts scalar values where Java counts code units. Inside a string or a comment closed by the intended test the difference only changes indices, because the scanner compares characters with ASCII ones alone. When the character right after the one the as-written comment loop stops on is a supplementary character, Java's second blind advance takes only its high surrogate and reports "Unexpected character." for the low one; the model consumes the whole character and reports nothing (for `/**` followed by U+1F600, Java reports one diagnostic on line 1 and the model none).
- Java's 32-bit `int` for `line`, `start` and `current` is modelled as unbounded. Overflow would need more than 2^31 characters or lines.
- The mutable fields and the constructor (Scanner.java:14-18, 42-44; Token.java:7-17) are left out. Each scan starts from cursor 0 and line 1, and a token is an immutable datatype. Because `tokens` is a field that `scanTokens` appends to and returns (Scanner.java:15, 53-54), a second `scanTokens()` on the same Scanner skips the loop and appends a second end-of-input token to the list the first call returned; `Scanner.ScanTokens` is a function of the source alone, so Scanner.ScanWith's "no other token is end-of-input" holds only for a Scanner's first call.
- `HashMap` lookup is a Dafny `map` lookup.
- Scanner.BlockComment: under the as-written rule the line is stated as a bound, not exactly. The source's count depends on where the faulty test stops; ScannerLemmas.BlockCommentAsWritten gives it exactly for a known stopping position.
- Scanner.ScanWith: under the as-written rule the end-of-input line is stated as a bound (at most one plus the number of newlines) rather than exactly, because the faulty comment test skips newlines.
- Scanner.ScanTokens: what the scanner does after a scan throws (the caller's handling of the exception) is not modelled.

## Findings

| source | as written | input that shows it | evidently intended | confidence | as-written member | corrected member |
|---|---|---|---|---|---|---|
| jlox/src/Scanner.java:91 | the block-comment loop stops when the cursor is on `*` OR the next character is `/` | `/* a/b */` ends the comment after `a/`, then scans `b`, `*` and `/` as tokens | stop only at `*` immediately followed by `/`; the whole source is one comment | not executed | CommentFindings.SlashInCommentAsWritten | CommentFindings.SlashInCommentCorrected |
| jlox/src/Scanner.java:103-104 | after the loop two characters are consumed without checking that two remain | `/* *` stops at the final `*`; the second advance reads index 4 of a 4-character string and throws | an unclosed comment reports "Unterminated comment." and the scan continues | not executed | CommentFindings.StarAtEndAsWritten | CommentFindings.StarAtEndCorrected |
| jlox/src/Scanner.java:91-92 | a lone `*` ends the comment, and the two blind advances do not count a newline | `/* *`, a newline, then `*/ +` stops at the first `*`, swallows the newline uncounted, and emits `*`, `/` and `+` on line 1 | the comment runs to `*/`, every newline in it is counted, and only `+` is emitted, on line 2 | not executed | CommentFindings.StarNewlineAsWritten | CommentFindings.StarNewlineCorrected |
