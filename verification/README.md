# A verified model of the lexical analyser of FalsoMoralista/Compiler

The repository is a compiler front end written in Go for a small Pascal-like
teaching language. Its lexical analyser, `analyzer/lexical.go`, is a state
machine in the style of "lexical scanning in Go". A `lexer` record holds the
input, the start of the pending lexeme (`start`), the cursor (`pos`), the
width of the last rune read (`width`) and a line counter. Each state function
(`lexText`, `lexLetter`, `lexIdentifier`, `lexNumber`, `lexArithmeticOperator`,
`lexCommentBlock`, `lexRelationalOperator`, `lexDelimiter`, `lexChar`,
`lexString`, `lexLogicalOperator`) reads runes through the cursor helpers
`next`, `backup`, `peek`, `ignore`, `accept` and `acceptRun`. It emits tokens
and returns the next state. `run` loops until a state returns nil.
`checkErrors` then picks the malformed tokens out of the token list.

This project models that machine and proves what it delivers.

- `tokens.dfy` (module `Tokens`) holds the pieces the scanner shares:
  - the 28 token kinds;
  - the token record;
  - the twenty reserved words;
  - the rune classes `isIdentifier` and the `unicode` predicates.

  The end-of-input sentinel is `rune(tokenEOF)`, which is U+0008.
- `scanner.dfy` (module `Scanner`) is the cursor machine itself, one Dafny
  function per Go function.
  - The token channel is replaced by the list of tokens emitted so far.
  - `run` becomes `Run`/`Lex`, which gives `Ok(tokens)` or `Crash(tokens)`.
  - `Crash` is reached only where the source panics: `lexNumber` backs up
    twice, and the next `emit` slices `input[start:pos]` with `pos < start`.
  - Every state function is total, and its contract says the scan moves
    forward and only appends tokens. That is the termination argument of
    `run`.
- `reference.dfy` (module `Reference`) is an independent, cursor-free
  description of the same tokenisation.
  - `ScanFrom` cuts the input into spans: kind, first index, end index, line.
  - The extent of each span comes from the end of a run of runes or from a
    fixed width. It never comes from stepping a cursor back and forth.
  - `ScannedSound` proves what every such description satisfies.
- `agreement.dfy` (module `Agreement`) proves the machine and the description
  agree on every input: `Lex(s) == Render(s, [], Scanned(s))`. The proof goes
  state by state and case by case.
- `properties.dfy` (module `Properties`) states the consequences for `Lex`:
  - tokens are slices of the input, in order, and the text between them
    is only whitespace and runes that start no lexeme;
  - exactly one EOF token comes last, unless the scan panicked;
  - a token's line is the number of newlines dropped in front of it;
  - only the emittable kinds occur;
  - words are classified as keywords exactly when they are reserved words.
- `rules.dfy` (module `Rules`) derives the scanning rules for individual
  lexemes from the description.
- `scenarios.dfy` (module `Scenarios`) applies those rules to concrete
  inputs, and shows what `Lex` delivers for them.
- `diagnostics.dfy` (module `Diagnostics`) models `checkErrors`, with its two
  nested loops, and relates it to a reference filter.

## Behaviour of the code worth knowing

- **Line numbers.** They start at 0: the counter starts at its zero value.
  It grows only when the whitespace case of `lexText` consumes a `'\n'`
  (lines 250-254). A newline inside a block comment, a string or a
  character literal belongs to that token and is not counted, so in
  `/#` newline `#/x` the identifier `x` is on line 0. `Properties.LexLineCount`
  states that a token's line is the number of newlines dropped in front of it.
- **`!=`.** It is never a relational operator. The guard in `lexText` that would
  emit one asks whether a single rune is both `!` and `=`, which never holds
  (line 258). So `!=` is a logical `!` followed by an arithmetic `=`.
- **`=` and `==`.** They are emitted as arithmetic operators (lines 400-406).
- **`3.x`.** A number followed by `.` and a non-digit crashes the scanner.
  The source backs up twice (lines 351 and 355). Unless the `.` ends the input,
  the second backup puts the cursor before `start`, and the next `emit`
  panics. `Lex` gives `Crash([MalformedNumber "3"])`.
- **`3.` at the end of the input.** The sentinel has width 0, so both backups
  are harmless. The tokens are a malformed number `3.`, a number with an
  empty lexeme, and EOF.
- **`'ab'`.** A quote followed by a letter or digit reads two more runes, so
  `'ab'` is the character literal `'ab` followed by a malformed character
  literal `'`.
- **Pending runes.** A rune that starts no lexeme (`@`, `#` or `$`, for
  example) is not emitted on its own. It stays pending and becomes the front
  of the next token, unless whitespace follows, which drops it. Up to where
  the scan stops, whitespace and such dropped runes are the only input no
  token covers (`Properties.LexTiles`).
- **The underscore test in `lexIdentifier`.** It passes its arguments to
  `strings.Contains` swapped (line 328), so the keyword lookup always runs.
  No reserved word contains `_`, so the outcome is the one evidently
  intended.
- **`checkErrors`.** It never reports malformed character literals or
  malformed relational operators: they are not in its list.

## Model

| member | source | states |
|---|---|---|
| Tokens.WordKindBySwitch | analyzer/lexical.go:494-559 | a word is classified as a keyword exactly when one of the twenty arms of the `emitIfKeyword` switch matches it, and as an identifier when the switch falls through to `default` |
| Tokens.NotKeyword | analyzer/lexical.go:44-63 | every reserved word starts with two letters, so a text that does not is no keyword |
| Tokens.KeywordsHaveNoUnderscore | analyzer/lexical.go:44-63 | no reserved word contains an underscore |
| Tokens.DigitsAreNumbers | analyzer/lexical.go:341-347 | the digit string `lexNumber` accepts holds exactly the runes its `unicode.IsNumber` test admits |
| Tokens.ContainsNeedsRoom | analyzer/lexical.go:328 | `strings.Contains(s, sub)` fails when `sub` is longer than `s` |
| Scanner.NextReads | analyzer/lexical.go:229-237 | `next` appends exactly the rune it consumes to the text the lexer has accounted for (emitted lexemes and pending text); at end of input it appends nothing |
| Scanner.BackupUndoesNext | analyzer/lexical.go:575-577 | `backup` after `next` restores the lexer except for the width, also at end of input, where `next` set the width to 0 and `backup` is a no-op |
| Scanner.Peek | analyzer/lexical.go:579-583 | returns the rune at the cursor, or the sentinel at end of input, and leaves the cursor where it was |
| Scanner.IgnoreDrops | analyzer/lexical.go:570-572 | `ignore` forgets exactly the pending text from the text accounted for, keeps the tokens and leaves nothing pending |
| Scanner.EmitKeepsSeen | analyzer/lexical.go:239-242 | `emit` loses no text: the pending text becomes one new last token of the given kind, so the text accounted for is unchanged and is then exactly the emitted lexemes |
| Scanner.Accept | analyzer/lexical.go:585-591 | consumes the next rune exactly when it is in the valid set, and reports whether it did |
| Scanner.AcceptRun | analyzer/lexical.go:593-597 | the cursor only moves forward, stays inside the input, and nothing but cursor and width change |
| Scanner.AcceptRunLongest | analyzer/lexical.go:593-597 | the run consumed is the longest one: every rune in it is valid and the rune after it is not |
| Scanner.SentinelCase | analyzer/lexical.go:296-298 | the sentinel selects the end-of-input case of `lexText` |
| Scanner.LexText | analyzer/lexical.go:245-301 | the input is untouched, tokens are only appended, and the scan either moves forward or hands over to a state ranked below `lexText` |
| Scanner.LexQuote | analyzer/lexical.go:270-279 | the quote case of `lexText` keeps the input, only appends tokens and never moves the cursor back |
| Scanner.LexSlashOrStar | analyzer/lexical.go:282-292 | the `/`-or-`*` case of `lexText` keeps the input, only appends tokens and never moves the cursor back |
| Scanner.LexLetter | analyzer/lexical.go:305-323 | `lexLetter` keeps the input, only appends tokens and makes progress in the termination measure |
| Scanner.EmitIfKeywordSwitch | analyzer/lexical.go:494-559 | `emitIfKeyword` reports true exactly when an arm of its switch matches the pending word, and then has appended it as a keyword token without losing text; when the switch falls through the lexer is unchanged |
| Scanner.LexIdentifier | analyzer/lexical.go:327-337 | `lexIdentifier` keeps the input, only appends tokens and makes progress |
| Scanner.UnderscoreGuardPasses | analyzer/lexical.go:328 | for every word of two or more runes the swapped `strings.Contains("_", word)` is false |
| Scanner.LexNumber | analyzer/lexical.go:340-358 | `lexNumber` keeps the input, only appends tokens and makes progress; a panic leaves the cursor before `start` |
| Scanner.LexFraction | analyzer/lexical.go:344-357 | the part of `lexNumber` after its first digit run keeps the input and only appends tokens; a panic leaves the cursor before `start` |
| Scanner.LexArithmeticOperator | analyzer/lexical.go:360-378 | `lexArithmeticOperator` keeps the input, only appends tokens and makes progress in the termination measure |
| Scanner.LexCommentBlock | analyzer/lexical.go:381-396 | `lexCommentBlock` keeps the input, only appends tokens and makes progress |
| Scanner.LexRelationalOperator | analyzer/lexical.go:398-426 | `lexRelationalOperator` keeps the input, only appends tokens and makes progress in the termination measure |
| Scanner.LexDelimiter | analyzer/lexical.go:428-432 | `lexDelimiter` keeps the input, only appends tokens and makes progress in the termination measure |
| Scanner.LexChar | analyzer/lexical.go:434-438 | `lexChar` keeps the input, only appends tokens and makes progress |
| Scanner.LexString | analyzer/lexical.go:440-453 | `lexString` keeps the input, only appends tokens and makes progress |
| Scanner.LexLogicalOperator | analyzer/lexical.go:455-469 | `lexLogicalOperator` keeps the input, only appends tokens and makes progress in the termination measure |
| Scanner.Dispatch | analyzer/lexical.go:221-226 | each step of the `run` loop makes progress in (unread input, state rank), so the loop terminates |
| Scanner.Run | analyzer/lexical.go:221-226 | the tokens delivered extend the tokens already emitted |
| Reference.ScannedSound | analyzer/lexical.go:245-469 | the described scan lays its spans inside the input in order without overlap, leaves between them only dropped text ending in whitespace, counts exactly the dropped newlines, ends with exactly one EOF at the end of input or after a sentinel unless it broke off, uses only emittable kinds and classifies words by the reserved-word table |
| Reference.RunEnd | analyzer/lexical.go:593-597 | the end of a run of runes of a class: every rune before it is in the class and the rune at it is not |
| Reference.CommentEnd | analyzer/lexical.go:381-396 | a comment's scan stops at the first `#/`, the first sentinel or the end of input, and not before |
| Reference.LeadAt | analyzer/lexical.go:245-301 | the lead is `AtEnd` exactly at the end of the input |
| Agreement.LexAgrees | analyzer/lexical.go:221-226 | on every input the machine delivers exactly the tokens the description's spans cut out of it, and panics exactly when the description breaks off |
| Agreement.RunAgrees | analyzer/lexical.go:221-226 | from every state the machine can be in, running it delivers what the description says from that point |
| Agreement.CaseMatchesLead | analyzer/lexical.go:247-298 | the case of the `lexText` switch a rune selects matches the description's classification of that rune |
| Agreement.TextAgrees | analyzer/lexical.go:245-301 | running from `lexText` agrees with the description |
| Agreement.LetterAgrees | analyzer/lexical.go:305-323 | running from `lexLetter` agrees with the description |
| Agreement.IdentifierAgrees | analyzer/lexical.go:327-337 | running from `lexIdentifier` agrees with the description: a keyword token exactly for a reserved word |
| Agreement.NumberAgrees | analyzer/lexical.go:340-358 | running from `lexNumber` agrees with the description, including the double backup and its panic |
| Agreement.ArithmeticAgrees | analyzer/lexical.go:360-378 | running from `lexArithmeticOperator` agrees with the description |
| Agreement.CommentAgrees | analyzer/lexical.go:381-396 | running from `lexCommentBlock` agrees with the description |
| Agreement.RelationalAgrees | analyzer/lexical.go:398-426 | running from `lexRelationalOperator` agrees with the description |
| Agreement.DelimiterAgrees | analyzer/lexical.go:428-432 | running from `lexDelimiter` agrees with the description |
| Agreement.CharAgrees | analyzer/lexical.go:434-438 | running from `lexChar` agrees with the description |
| Agreement.StringAgrees | analyzer/lexical.go:440-453 | running from `lexString` agrees with the description |
| Agreement.LogicalAgrees | analyzer/lexical.go:455-469 | running from `lexLogicalOperator` agrees with the description |
| Properties.LexCutsInput | analyzer/lexical.go:239-242 | every token's lexeme is a slice of the input; the slices run left to right without overlapping, each carrying its kind and line |
| Properties.CutOutByScan | analyzer/lexical.go:239-242 | the slices are exactly the spans of the description |
| Properties.LexEnds | analyzer/lexical.go:296-298 | `Lex` delivers at least one token, no EOF before the last token, and the last token is EOF exactly when the scan did not panic |
| Properties.LexLines | analyzer/lexical.go:250-254 | line numbers are never negative and never decrease along the token list |
| Properties.LexLineCount | analyzer/lexical.go:250-254 | each token's line is the number of `'\n'` runes in the text dropped in front of it, which excludes newlines inside comments, strings and character literals; a token with no newline before it is on line 0 |
| Properties.LexTiles | analyzer/lexical.go:245-301 | in front of the first token and between two tokens lies only whitespace and runes that start no lexeme, and such a gap ends in whitespace; a scan that does not panic ends at the end of input or right after a literal U+0008 |
| Properties.LexKinds | analyzer/lexical.go:245-469 | only emittable kinds occur; in particular no malformed relational or arithmetic operator, letter or digit token is ever emitted |
| Properties.LexWords | analyzer/lexical.go:327-337 | a keyword token's lexeme is a reserved word and an identifier token's is not |
| Rules.BangEqual | analyzer/lexical.go:257-263 | `!=` scans as a logical `!` and then an arithmetic `=` or `==` |
| Rules.TriplePlus | analyzer/lexical.go:360-364 | `+++` scans as `++` and then `+`, or `++` `++` when a fourth `+` follows |
| Rules.DoubledOperator | analyzer/lexical.go:360-367 | `++` and `--` are one arithmetic operator of two runes |
| Rules.OneRuneOperator | analyzer/lexical.go:282-295 | `*`, a `/` not followed by `#`, and a `+` or `-` that is not doubled are one-rune arithmetic operators |
| Rules.LongWord | analyzer/lexical.go:305-337 | a word of two or more runes is one token, a keyword exactly when it is reserved |
| Rules.OneLetter | analyzer/lexical.go:318-321 | a single letter not followed by an identifier rune is an identifier |
| Rules.LastLetter | analyzer/lexical.go:307-310 | a single letter at the end of the input is an identifier followed by EOF |
| Rules.OneDelimiter | analyzer/lexical.go:428-432 | a delimiter is a one-rune token |
| Rules.SkipsSpace | analyzer/lexical.go:250-254 | whitespace is dropped, and a newline counts a line |
| Rules.EndOfInput | analyzer/lexical.go:296-298 | at end of input the pending text becomes the EOF token and the scan stops |
| Rules.SentinelStops | analyzer/lexical.go:296-298 | a literal U+0008 in the input ends the scan like the end of input |
| Rules.StaysPending | analyzer/lexical.go:246-299 | a rune that starts no lexeme stays pending in front of the next token |
| Rules.DoubleLogical | analyzer/lexical.go:457-462 | `&&` and `\|\|` are logical operators |
| Rules.LoneLogical | analyzer/lexical.go:465-466 | a lone `&` or `\|` is a malformed logical operator |
| Rules.Comparison | analyzer/lexical.go:398-421 | `=` and `==` are arithmetic; `>`, `>=`, `<`, `<=` are relational |
| Rules.CommentCloses | analyzer/lexical.go:381-389 | a comment ends at the first `#/` after its opener |
| Rules.ShortestComment | analyzer/lexical.go:283-287 | `/#/` is a complete comment, since its `#` is directly followed by `/` |
| Rules.CommentUnclosed | analyzer/lexical.go:390-393 | a comment without `#/` is malformed, runs to the end of input, and an empty EOF token follows |
| Rules.CommentCutShort | analyzer/lexical.go:390-393 | a sentinel inside a comment ends the scan with a malformed comment |
| Rules.StringCloses | analyzer/lexical.go:440-446 | a string runs from its quote to the next `"`, both included |
| Rules.StringUnclosed | analyzer/lexical.go:447-450 | a string without a closing quote is malformed and runs to the end of input |
| Rules.StringCutShort | analyzer/lexical.go:447-450 | a sentinel inside a string ends the scan with a malformed string |
| Rules.CharLiteral | analyzer/lexical.go:270-279 | a quote followed by a letter or digit reads two runes more and is a character literal |
| Rules.LoneQuote | analyzer/lexical.go:275-277 | any other quote is a one-rune malformed character literal |
| Rules.TwoRuneChar | analyzer/lexical.go:270-279 | `'ab'` is the character literal `'ab` and the malformed literal `'` |
| Rules.WholeNumber | analyzer/lexical.go:340-357 | a digit run not followed by `.` is one number |
| Rules.FractionNumber | analyzer/lexical.go:344-349 | digits, `.` and digits are one number |
| Rules.DotAtEnd | analyzer/lexical.go:350-356 | digits and `.` at the end of the input give the malformed number with the dot, an empty number and EOF |
| Rules.DotCrash | analyzer/lexical.go:350-356 | digits and `.` followed by a non-digit give the malformed number without the dot, then the scan panics |
| Scenarios.BangEqualInput | analyzer/lexical.go:257-263 | `Lex("!=")` is `Ok([LogicalOp "!", ArithmeticOp "=", EOF ""])` |
| Scenarios.TriplePlusInput | analyzer/lexical.go:360-371 | `Lex("+++")` is `Ok([ArithmeticOp "++", ArithmeticOp "+", EOF ""])` |
| Scenarios.OperatorsInput | analyzer/lexical.go:282-295 | the input `--`, `*`, `/` is three arithmetic operators and EOF |
| Scenarios.ShortestCommentInput | analyzer/lexical.go:381-389 | `Lex("/#/")` is one block comment and EOF |
| Scenarios.UnclosedCommentInput | analyzer/lexical.go:390-393 | `Lex("/#a")` is a malformed comment `/#a` and an empty EOF |
| Scenarios.UnclosedStringInput | analyzer/lexical.go:447-450 | `Lex("\"ab")` is a malformed string and an empty EOF |
| Scenarios.SentinelInStringInput | analyzer/lexical.go:447-450 | a U+0008 inside a string ends the scan there; the rest of the input is never read |
| Scenarios.TwoRuneCharInput | analyzer/lexical.go:270-279 | `Lex("'ab'")` is `Ok([Char "'ab", MalformedChar "'", EOF ""])` |
| Scenarios.DotAtEndInput | analyzer/lexical.go:340-358 | `Lex("3.")` is `Ok([MalformedNumber "3.", Number "", EOF ""])` |
| Scenarios.DotCrashInput | analyzer/lexical.go:340-358 | `Lex("3.x")` is `Crash([MalformedNumber "3"])` |
| Scenarios.PendingRuneInput | analyzer/lexical.go:246-299 | `Lex("@x;")` is `Ok([Identifier "@x", Delimiter ";", EOF ""])` |
| Scenarios.PendingDroppedInput | analyzer/lexical.go:250-254 | `Lex("@ x")` is `Ok([Identifier "x", EOF ""])`: a pending rune is dropped with the whitespace after it |
| Scenarios.NewlineInput | analyzer/lexical.go:250-254 | `Lex("a\nb")` puts `a` on line 0 and `b` and EOF on line 1 |
| Scenarios.SmallProgramInput | analyzer/lexical.go:245-469 | `Lex("program p; var{integer x;}")` is the ten tokens keyword, identifier, delimiter, keyword, delimiter, keyword, identifier, delimiter, delimiter, EOF, all on line 0 |
| Diagnostics.CheckErrors | analyzer/lexical.go:625-637 | the nested loops return exactly the reference filter `ErrorsOf` of the token list |
| Diagnostics.ErrorCopies | analyzer/lexical.go:629-633 | the inner loop appends a token once when its kind is one of the five error kinds, and nothing otherwise |
| Diagnostics.CopiesDistinct | analyzer/lexical.go:626-633 | over a list of distinct kinds, the inner loop copies a token at most once |
| Diagnostics.ErrorsOf | analyzer/lexical.go:625-637 | the filter never returns more tokens than it is given |
| Diagnostics.ErrorsOfAppend | analyzer/lexical.go:628-634 | the filter distributes over concatenation, so reported tokens keep their order |
| Diagnostics.ErrorsOfCount | analyzer/lexical.go:625-637 | each token is reported exactly as often as it occurs if its kind is in the error list, and never otherwise |
| Diagnostics.ErrorsOfMembers | analyzer/lexical.go:625-637 | every reported token comes from the input and has one of the five error kinds |
| Diagnostics.ErrorsOfSkips | analyzer/lexical.go:626 | malformed character literals and malformed relational operators are never reported |
| Diagnostics.ErrorsOfIdempotent | analyzer/lexical.go:625-637 | filtering the errors a second time changes nothing |

## Left out

- Concurrency. The goroutine that runs the machine and the token channel are
  left out. The channel is replaced by the list of tokens emitted so far.
- The first-token discard. `Lex` receives the first token from the channel
  and throws it away before `outputTokens` reads the rest. This is part of
  the channel plumbing, so the model's `Lex` returns every token the machine
  emits.
- Output and debugging code. `outputTokens`, `check`, `Debug`,
  `token.String` and `parseTokenType` only format or write.
- Other files. `lexical_analyzer.go` (an older draft), the syntax analyser
  files and `main/main.go` are not part of this model.
- Unicode.
  - `unicode.IsLetter`, `unicode.IsNumber` and `unicode.IsDigit` are modelled
    by their ASCII members.
  - `unicode.IsSpace` is modelled by its Latin-1 members.
  - UTF-8 decoding is not modelled: every rune has width 1, and the input is
    a sequence of runes.
- Scanner.LexText: its contract states progress and append-only output. What
  it emits is stated by `Agreement.TextAgrees` and the `Rules` lemmas.
- Scanner.LexQuote: its contract states progress and append-only output.
  What it emits is stated by `Agreement.TextAgrees`.
- Scanner.LexSlashOrStar: its contract states progress and append-only
  output. What it emits is stated by `Agreement.TextAgrees`.
- Scanner.LexFraction: its contract states that the input is kept, tokens
  are only appended, and a panic leaves the cursor before `start`. What it
  emits, and when it panics, is stated by `Agreement.NumberAgrees`.
- Scanner.LexLetter: its contract is the termination invariant. What it emits is
  stated by `Agreement.LetterAgrees`.
- Scanner.LexIdentifier: its contract is the termination invariant. What it emits is
  stated by `Agreement.IdentifierAgrees`.
- Scanner.LexNumber: its contract is the termination invariant. What it emits is
  stated by `Agreement.NumberAgrees`.
- Scanner.LexArithmeticOperator: its contract is the termination invariant. What it emits is
  stated by `Agreement.ArithmeticAgrees`.
- Scanner.LexCommentBlock: its contract is the termination invariant. What it emits is
  stated by `Agreement.CommentAgrees`.
- Scanner.LexRelationalOperator: its contract is the termination invariant. What it emits is
  stated by `Agreement.RelationalAgrees`.
- Scanner.LexDelimiter: its contract is the termination invariant. What it emits is
  stated by `Agreement.DelimiterAgrees`.
- Scanner.LexChar: its contract is the termination invariant. What it emits is
  stated by `Agreement.CharAgrees`.
- Scanner.LexString: its contract is the termination invariant. What it emits is
  stated by `Agreement.StringAgrees`.
- Scanner.LexLogicalOperator: its contract is the termination invariant. What it emits is
  stated by `Agreement.LogicalAgrees`.
- Scanner.Run: its contract only says that the tokens are extended. The full
  outcome is `Agreement.LexAgrees`.
- `isEOF` and `isIdentifier`: both are plain predicates, `Scanner.IsEOF` and
  `Tokens.IsIdentifierRune`. They carry no contract of their own.
- Integer width. `pos`, `start` and `line` are unbounded integers. The Go
  `int` cannot overflow on any input that fits in memory.
