/** The scanning engine as a state machine over an immutable input.

    The lexer record holds the cursor (`start`, `pos`, `width`, `line`) and,
    in place of the token channel, the tokens emitted so far. Each state
    function consumes the record and returns the next state, a stop (the
    source's nil state) or a panic: the one place where the cursor can be
    driven below `start`, so that `emit`'s slice is out of range. */
module Scanner {
  import opened Tokens

  datatype Lexer = Lexer(input: string, start: int, pos: int, width: int, line: int, out: seq<Token>)

  /** The state functions. */
  datatype State =
    | ScanText | ScanLetter | ScanIdentifier | ScanNumber | ScanArithmetic | ScanComment
    | ScanRelational | ScanDelimiter | ScanChar | ScanString | ScanLogical

  /** What running one state function produced. */
  datatype Step = Goto(l: Lexer, next: State) | Stop(l: Lexer) | Panic(l: Lexer)

  /** A finished scan: all tokens of a scan that stopped, or the tokens
      delivered before a panic. */
  datatype Outcome = Ok(tokens: seq<Token>) | Crash(tokens: seq<Token>)

  predicate Valid(l: Lexer) {
    0 <= l.start <= l.pos <= |l.input| && 0 <= l.line
  }

  /** The conditions under which the source enters each state: the
      operator and delimiter states are entered after a `backup` over the
      rune they read, and the word states after at least one rune of the
      word has been read. */
  predicate Ready(l: Lexer, st: State) {
    match st
    case ScanLetter => l.start < l.pos
    case ScanIdentifier => l.start + 2 <= l.pos
    case ScanArithmetic | ScanRelational | ScanDelimiter | ScanLogical => l.pos < |l.input|
    case _ => true
  }

  /** Tie-breaker of the termination measure: a state that may return to
      `lexText` without consuming ranks above it, and `lexText` ranks above
      the states it enters after a `backup`. */
  function Rank(st: State): nat {
    match st
    case ScanText => 1
    case ScanLetter | ScanIdentifier | ScanNumber | ScanChar => 2
    case _ => 0
  }

  /** What every state function guarantees: the input is untouched,
      tokens are only appended, and a continuing scan moves forward in the
      measure (|input| - pos, Rank). */
  ghost predicate Advances(l: Lexer, st: State, step: Step) {
    match step
    case Goto(l', st') =>
      && l'.input == l.input && Valid(l') && Ready(l', st') && l.out <= l'.out
      && (l'.pos > l.pos || (l'.pos == l.pos && Rank(st') < Rank(st)))
    case Stop(l') => l'.input == l.input && l.out <= l'.out
    case Panic(l') => l'.input == l.input && l.out <= l'.out && l'.pos < l'.start
  }

  /** What the arms of `lexText` guarantee relative to the cursor after
      the rune they dispatched on: like `Advances`, but the cursor may stay. */
  ghost predicate Continues(l: Lexer, step: Step) {
    match step
    case Goto(l', st') =>
      l'.input == l.input && Valid(l') && Ready(l', st') && l.out <= l'.out && l'.pos >= l.pos
    case Stop(l') => l'.input == l.input && l.out <= l'.out
    case Panic(l') => l'.input == l.input && l.out <= l'.out && l'.pos < l'.start
  }

  // ---------------------------------------------------------------------
  // Cursor helpers

  predicate IsEOF(l: Lexer) {
    l.pos >= |l.input|
  }

  /** `next`: the rune at the cursor, consumed; at end of input the
      sentinel, with `width` set to 0 and nothing consumed. */
  function Next(l: Lexer): (res: (char, Lexer))
    requires 0 <= l.pos <= |l.input|
    ensures res.1 == l.(pos := res.1.pos, width := res.1.width)
    ensures l.pos < |l.input| ==> res.0 == l.input[l.pos] && res.1.pos == l.pos + 1 && res.1.width == 1
    ensures l.pos == |l.input| ==> res.0 == EofRune && res.1.pos == l.pos && res.1.width == 0
  {
    if IsEOF(l) then (EofRune, l.(width := 0))
    else (l.input[l.pos], l.(pos := l.pos + 1, width := 1))
  }

  /** `backup`: step back over the last rune read. */
  function Backup(l: Lexer): (l': Lexer)
    ensures l' == l.(pos := l.pos - l.width)
  {
    l.(pos := l.pos - l.width)
  }

  /** `peek`: the next rune without consuming it. */
  function Peek(l: Lexer): (res: (char, Lexer))
    requires 0 <= l.pos <= |l.input|
    ensures res.1 == l.(width := res.1.width)
    ensures res.0 == if l.pos < |l.input| then l.input[l.pos] else EofRune
  {
    var (r, l1) := Next(l);
    (r, Backup(l1))
  }

  /** `ignore`: drop the pending text. */
  function Ignore(l: Lexer): (l': Lexer)
    ensures l' == l.(start := l.pos)
  {
    l.(start := l.pos)
  }

  /** A slice `input[start:pos]` is in range. */
  predicate CanSlice(l: Lexer) {
    0 <= l.start <= l.pos <= |l.input|
  }

  /** `emit`: deliver the pending text as a token of kind `k` and start a
      new lexeme at the cursor. */
  function Emit(l: Lexer, k: Kind): (l': Lexer)
    requires CanSlice(l)
    ensures l'.out == l.out + [Token(k, l.input[l.start..l.pos], l.line)]
    ensures l' == l.(start := l.pos, out := l'.out)
  {
    l.(out := l.out + [Token(k, l.input[l.start..l.pos], l.line)], start := l.pos)
  }

  /** The text of the tokens `ts`, one lexeme after the other. */
  function Lexemes(ts: seq<Token>): string {
    if ts == [] then [] else Lexemes(ts[..|ts| - 1]) + ts[|ts| - 1].lexeme
  }

  /** The text the lexer has accounted for: the lexemes it emitted,
      followed by the pending text. */
  function Seen(l: Lexer): string
    requires CanSlice(l)
  {
    Lexemes(l.out) + l.input[l.start..l.pos]
  }

  /** `next` appends the rune it consumes to the text seen; at end of
      input it appends nothing. */
  lemma NextReads(l: Lexer)
    requires CanSlice(l)
    ensures CanSlice(Next(l).1)
    ensures Seen(Next(l).1) == Seen(l) + (if l.pos < |l.input| then [l.input[l.pos]] else [])
  {
    if l.pos < |l.input| {
      assert l.input[l.start..l.pos + 1] == l.input[l.start..l.pos] + [l.input[l.pos]];
    }
  }

  /** `backup` undoes `next`, also at end of input, where `next` consumed
      nothing and set the width to 0: only the width remains changed. */
  lemma BackupUndoesNext(l: Lexer)
    requires 0 <= l.pos <= |l.input|
    ensures Backup(Next(l).1) == l.(width := Next(l).1.width)
  {
  }

  /** `ignore` forgets exactly the pending text, and leaves nothing
      pending. */
  lemma IgnoreDrops(l: Lexer)
    requires CanSlice(l)
    ensures CanSlice(Ignore(l)) && Ignore(l).out == l.out
    ensures Seen(Ignore(l)) + l.input[l.start..l.pos] == Seen(l)
    ensures Seen(Ignore(l)) == Lexemes(l.out)
  {
  }

  /** `emit` loses no text: the pending text moves into a new last token,
      so the text seen stays the same and nothing is left pending. */
  lemma EmitKeepsSeen(l: Lexer, k: Kind)
    requires CanSlice(l)
    ensures CanSlice(Emit(l, k))
    ensures Seen(Emit(l, k)) == Seen(l)
    ensures Seen(Emit(l, k)) == Lexemes(Emit(l, k).out)
    ensures |Emit(l, k).out| == |l.out| + 1 && Emit(l, k).out[|l.out|].kind == k
  {
    var out := Emit(l, k).out;
    assert out[..|out| - 1] == l.out;
  }

  /** `accept`: consume the next rune if it is in `valid`. */
  function Accept(l: Lexer, valid: string): (res: (bool, Lexer))
    requires 0 <= l.pos <= |l.input|
    ensures res.0 <==> (if l.pos < |l.input| then l.input[l.pos] else EofRune) in valid
    ensures res.1.pos == if res.0 && l.pos < |l.input| then l.pos + 1 else l.pos
    ensures res.1 == l.(pos := res.1.pos, width := res.1.width)
  {
    var (r, l1) := Next(l);
    if r in valid then (true, l1) else (false, Backup(l1))
  }

  /** `acceptRun`: consume the longest run of runes from `valid`. The
      sentinel must not be in `valid`, otherwise the source loops forever
      at end of input. */
  function AcceptRun(l: Lexer, valid: string): (l': Lexer)
    requires 0 <= l.pos <= |l.input|
    requires EofRune !in valid
    ensures l' == l.(pos := l'.pos, width := l'.width)
    ensures l.pos <= l'.pos <= |l.input|
    ensures l'.width == if l'.pos < |l.input| then 1 else 0
    decreases |l.input| - l.pos
  {
    var (r, l1) := Next(l);
    if r in valid then AcceptRun(l1, valid) else Backup(l1)
  }

  /** The run `acceptRun` consumes is the longest one: every rune in it is
      from `valid`, and the rune after it is not. */
  lemma {:induction false} AcceptRunLongest(l: Lexer, valid: string)
    requires 0 <= l.pos <= |l.input|
    requires EofRune !in valid
    ensures forall m :: l.pos <= m < AcceptRun(l, valid).pos ==> l.input[m] in valid
    ensures AcceptRun(l, valid).pos == |l.input| || l.input[AcceptRun(l, valid).pos] !in valid
    decreases |l.input| - l.pos
  {
    var (r, l1) := Next(l);
    if r in valid {
      AcceptRunLongest(l1, valid);
    }
  }

  // ---------------------------------------------------------------------
  // State functions

  /** The cases of the switch in `lexText`, in source order. */
  datatype TextCase =
    | LetterCase | SpaceCase | NumberCase | LogicalCase | RelationalCase | DelimiterCase
    | QuoteCase | DoubleQuoteCase | SlashOrStarCase | ArithmeticCase | EofCase | NoCase

  /** The first case of the switch in `lexText` whose condition holds for `r`. */
  function CaseOf(r: char): TextCase {
    if IsLetter(r) then LetterCase
    else if IsSpace(r) then SpaceCase
    else if IsNumber(r) then NumberCase
    else if r in "&|!" then LogicalCase
    else if r in "=!><" then RelationalCase
    else if r in Delimiters then DelimiterCase
    else if r in "'" then QuoteCase
    else if r in "\"" then DoubleQuoteCase
    else if r in "/" || r in "*" then SlashOrStarCase
    else if r in "+-*" then ArithmeticCase
    else if r == EofRune then EofCase
    else NoCase
  }

  /** Only the sentinel reaches the last-but-one case of the switch, so
      every other case has consumed a rune. */
  lemma SentinelCase()
    ensures CaseOf(EofRune) == EofCase
  {
  }

  /** `lexText`: skip whitespace (counting newlines), leave runes that
      start no lexeme pending, and dispatch on the first rune of a lexeme. */
  function LexText(l: Lexer): (step: Step)
    requires Valid(l)
    ensures Advances(l, ScanText, step)
    decreases |l.input| - l.pos, 0
  {
    var (r, l) := Next(l);
    SentinelCase();
    match CaseOf(r)
    case LetterCase => Goto(l, ScanLetter)
    case SpaceCase => LexText(SkipSpace(l, r))
    case NumberCase => Goto(l, ScanNumber)
    case LogicalCase =>
      // The guard asks whether one rune is both '!' and '=': it never holds.
      if r in "!" && r in "=" then Goto(Emit(l, RelationalOp), ScanText)
      else Goto(Backup(l), ScanLogical)
    case RelationalCase => Goto(Backup(l), ScanRelational)
    case DelimiterCase => Goto(Backup(l), ScanDelimiter)
    case QuoteCase => LexQuote(l)
    case DoubleQuoteCase => Goto(l, ScanString)
    case SlashOrStarCase => LexSlashOrStar(l, r)
    case ArithmeticCase => Goto(Backup(l), ScanArithmetic)
    case EofCase => Stop(Emit(l, EOF))
    case NoCase => LexText(l)
  }

  /** The whitespace case of `lexText`, after the rune `r` has been read:
      a newline counts a line, and the pending text is dropped. */
  function SkipSpace(l: Lexer, r: char): (l': Lexer)
    ensures l' == l.(start := l.pos, line := l'.line)
    ensures l'.line == if r == '\n' then l.line + 1 else l.line
  {
    var l := if r == '\n' then l.(line := l.line + 1) else l;
    Ignore(l)
  }

  /** The quote case of `lexText`, after the quote has been read: a
      letter or digit after it starts a character literal, anything else
      makes the quote a malformed character literal. */
  function LexQuote(l: Lexer): (step: Step)
    requires Valid(l)
    ensures Continues(l, step)
  {
    // The source peeks twice; both peeks read the same rune.
    var (p, l) := Peek(l);
    if IsLetter(p) || IsDigit(p) then
      var (q, l) := Next(l);
      // q is a letter or digit, so it is never the closing quote.
      if q == '\'' then Goto(l, ScanChar) else Goto(l, ScanChar)
    else Goto(Emit(l, MalformedChar), ScanText)
  }

  /** The '/'-or-'*' case of `lexText`, after `r` has been read: "/#"
      opens a comment; otherwise the operator is emitted and the loop of
      `lexText` goes on. */
  function LexSlashOrStar(l: Lexer, r: char): (step: Step)
    requires Valid(l)
    ensures Continues(l, step)
    decreases |l.input| - l.pos, 1
  {
    if r == '/' then
      var (p, l) := Peek(l);
      if p != '#' then LexText(Emit(l, ArithmeticOp))
      else Goto(l, ScanComment)
    else LexText(Emit(l, ArithmeticOp))
  }

  /** `lexLetter`: read one more rune of a word; a word of one letter is
      an identifier, a longer one goes to `lexIdentifier`. */
  function LexLetter(l: Lexer): (step: Step)
    requires Valid(l) && Ready(l, ScanLetter)
    ensures Advances(l, ScanLetter, step)
  {
    var (r, l) := Next(l);
    if r == EofRune then Stop(Emit(Emit(l, Identifier), EOF))
    else if IsIdentifierRune(r) then
      var (p, l) := Peek(l);
      if IsIdentifierRune(p) then Goto(l, ScanLetter) else Goto(l, ScanIdentifier)
    else Goto(Emit(Backup(l), Identifier), ScanText)
  }

  /** `emitIfKeyword`: emit the pending word as a keyword when it is a
      reserved word, and report whether it did. */
  function EmitIfKeyword(l: Lexer): (res: (bool, Lexer))
    requires CanSlice(l)
    ensures res.0 <==> IsKeyword(l.input[l.start..l.pos])
    ensures res.1 == if res.0 then Emit(l, Keyword) else l
  {
    var word := l.input[l.start..l.pos];
    if IsKeyword(word) then (true, Emit(l, Keyword)) else (false, l)
  }

  /** `emitIfKeyword` against the switch it is written as: it reports
      true exactly when an arm matches the pending word, and then the word
      has become a keyword token with no text lost; when the switch falls
      through, the lexer is unchanged. */
  lemma EmitIfKeywordSwitch(l: Lexer)
    requires CanSlice(l)
    ensures var word := l.input[l.start..l.pos];
      && (EmitIfKeyword(l).0 <==> SwitchedWord(word))
      && (EmitIfKeyword(l).0 ==>
            && Seen(EmitIfKeyword(l).1) == Seen(l)
            && EmitIfKeyword(l).1.out == l.out + [Token(Keyword, word, l.line)])
      && (!EmitIfKeyword(l).0 ==> EmitIfKeyword(l).1 == l)
  {
    WordKindBySwitch(l.input[l.start..l.pos]);
    EmitKeepsSeen(l, Keyword);
  }

  /** `lexIdentifier`: classify a finished word. The underscore guard
      passes its arguments to `strings.Contains` swapped, so it asks
      whether the word occurs in "_". */
  function LexIdentifier(l: Lexer): (step: Step)
    requires Valid(l) && Ready(l, ScanIdentifier)
    ensures Advances(l, ScanIdentifier, step)
  {
    UnderscoreGuardPasses(l.input[l.start..l.pos]);
    if !Contains("_", l.input[l.start..l.pos]) then
      var (emitted, l) := EmitIfKeyword(l);
      if !emitted then Goto(Emit(l, Identifier), ScanText)
      else Goto(l, ScanText)
    else
      // The source emits an identifier here; the branch is dead.
      assert false; Goto(l, ScanText)
  }

  /** A word of two or more runes never occurs in "_", so the swapped
      underscore guard of `lexIdentifier` always lets the keyword lookup run. */
  lemma UnderscoreGuardPasses(w: string)
    requires |w| >= 2
    ensures !Contains("_", w)
  {
    ContainsNeedsRoom("_", w);
  }

  /** `lexNumber`: a digit run, optionally followed by '.' and a second
      digit run. After a '.' that is not followed by a digit the source
      backs up twice; unless the '.' ended the input, the second backup
      leaves the cursor before `start` and the next `emit` panics. */
  function LexNumber(l: Lexer): (step: Step)
    requires Valid(l)
    ensures Advances(l, ScanNumber, step)
  {
    LexFraction(AcceptRun(l, Digits))
  }

  /** The rest of `lexNumber`, once its first run of digits is consumed. */
  function LexFraction(l: Lexer): (step: Step)
    requires Valid(l)
    ensures Continues(l, step)
  {
    var (r, l) := Next(l);
    if r in "." then
      var (p, l) := Peek(l);
      if IsNumber(p) then Goto(Emit(AcceptRun(l, Digits), Number), ScanText)
      else
        var l := Emit(Backup(l), MalformedNumber);
        var l := Backup(l);
        if CanSlice(l) then Goto(Emit(l, Number), ScanText) else Panic(l)
    else Goto(Emit(Backup(l), Number), ScanText)
  }

  /** `lexArithmeticOperator`: "++" and "--" are one token, a single
      '+', '-' or '*' another. */
  function LexArithmeticOperator(l: Lexer): (step: Step)
    requires Valid(l) && Ready(l, ScanArithmetic)
    ensures Advances(l, ScanArithmetic, step)
  {
    var (r, l) := Next(l);
    if r == '+' || r == '-' then
      var (p, l) := Peek(l);
      if p == r then Goto(Emit(Next(l).1, ArithmeticOp), ScanText)
      else Goto(Emit(l, ArithmeticOp), ScanText)
    else if r == '*' then Goto(Emit(l, ArithmeticOp), ScanText)
    else Goto(Emit(l, MalformedArithmeticOp), ScanText)
  }

  /** `lexCommentBlock`: scan to the first "#/"; the sentinel ends the
      scan with a malformed comment. */
  function LexCommentBlock(l: Lexer): (step: Step)
    requires Valid(l)
    ensures Advances(l, ScanComment, step)
    decreases |l.input| - l.pos
  {
    var (r, l) := Next(l);
    if r == '#' then
      var (p, l) := Peek(l);
      if p == '/' then Goto(Emit(Next(l).1, BlockComment), ScanText)
      else LexCommentBlock(l)
    else if r == EofRune then Stop(Emit(Emit(l, MalformedComment), EOF))
    else LexCommentBlock(l)
  }

  /** `lexRelationalOperator`: '=' and "==" are arithmetic operators,
      '>', ">=", '<' and "<=" relational ones. */
  function LexRelationalOperator(l: Lexer): (step: Step)
    requires Valid(l) && Ready(l, ScanRelational)
    ensures Advances(l, ScanRelational, step)
  {
    var (r, l) := Next(l);
    if r == '=' || r == '>' || r == '<' then
      var kind := if r == '=' then ArithmeticOp else RelationalOp;
      var (p, l) := Peek(l);
      if p == '=' then Goto(Emit(Next(l).1, kind), ScanText)
      else Goto(Emit(l, kind), ScanText)
    else Goto(Emit(l, MalformedRelationalOp), ScanText)
  }

  /** `lexDelimiter`: one rune. */
  function LexDelimiter(l: Lexer): (step: Step)
    requires Valid(l) && Ready(l, ScanDelimiter)
    ensures Advances(l, ScanDelimiter, step)
  {
    Goto(Emit(Next(l).1, Delimiter), ScanText)
  }

  /** `lexChar`: one more rune, whatever it is. */
  function LexChar(l: Lexer): (step: Step)
    requires Valid(l)
    ensures Advances(l, ScanChar, step)
  {
    Goto(Emit(Next(l).1, Char), ScanText)
  }

  /** `lexString`: scan to the next '"'; the sentinel ends the scan with a
      malformed string. */
  function LexString(l: Lexer): (step: Step)
    requires Valid(l)
    ensures Advances(l, ScanString, step)
    decreases |l.input| - l.pos
  {
    var (r, l) := Next(l);
    if r == '"' then Goto(Emit(l, String), ScanText)
    else if r == EofRune then Stop(Emit(Emit(l, MalformedString), EOF))
    else LexString(l)
  }

  /** `lexLogicalOperator`: "&&", "||" and '!' are logical operators, a
      lone '&' or '|' is malformed. */
  function LexLogicalOperator(l: Lexer): (step: Step)
    requires Valid(l) && Ready(l, ScanLogical)
    ensures Advances(l, ScanLogical, step)
  {
    var (r, l) := Next(l);
    if r == '&' || r == '|' then
      var (p, l) := Peek(l);
      if p == r then Goto(Emit(Next(l).1, LogicalOp), ScanText)
      else Goto(Emit(l, MalformedLogicalOp), ScanText)
    else if r == '!' then Goto(Emit(l, LogicalOp), ScanText)
    else Goto(Emit(l, MalformedLogicalOp), ScanText)
  }

  function Dispatch(l: Lexer, st: State): (step: Step)
    requires Valid(l) && Ready(l, st)
    ensures Advances(l, st, step)
  {
    match st
    case ScanText => LexText(l)
    case ScanLetter => LexLetter(l)
    case ScanIdentifier => LexIdentifier(l)
    case ScanNumber => LexNumber(l)
    case ScanArithmetic => LexArithmeticOperator(l)
    case ScanComment => LexCommentBlock(l)
    case ScanRelational => LexRelationalOperator(l)
    case ScanDelimiter => LexDelimiter(l)
    case ScanChar => LexChar(l)
    case ScanString => LexString(l)
    case ScanLogical => LexLogicalOperator(l)
  }

  /** `run`: apply state functions until one returns nil. */
  function Run(l: Lexer, st: State): (o: Outcome)
    requires Valid(l) && Ready(l, st)
    ensures l.out <= o.tokens
    decreases |l.input| - l.pos, Rank(st)
  {
    match Dispatch(l, st)
    case Goto(l', st') => Run(l', st')
    case Stop(l') => Ok(l'.out)
    case Panic(l') => Crash(l'.out)
  }

  /** Scan a whole input: the cursor and the line counter start at 0. */
  function Lex(input: string): Outcome {
    Run(Lexer(input, 0, 0, 0, 0, []), ScanText)
  }
}
