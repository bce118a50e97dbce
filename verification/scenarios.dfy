/** Concrete inputs and what `Lex` delivers for them. Each is derived in
    two steps: the scanning rules give the spans of the description, and
    `LexAgrees` turns them into the machine's tokens. */
module Scenarios {
  import opened Tokens
  import opened Scanner
  import opened Reference
  import opened Agreement
  import opened Rules

  /** `Lex` delivers the tokens the spans of the scan cut out, and crashes
      exactly when the scan breaks off. */
  lemma Delivers(s: string, spans: seq<Span>, crashed: bool, ts: seq<Token>)
    requires Scanned(s) == Scan(spans, crashed) && TokensOf(s, spans) == ts
    ensures Lex(s) == if crashed then Crash(ts) else Ok(ts)
  {
    LexAgrees(s);
  }

  // ---------------------------------------------------------------------
  // Operators

  /** "!=" is two tokens: a logical '!' and an arithmetic '='. */
  lemma BangEqualInput(s: string)
    requires s == "!="
    ensures Lex(s) == Ok([Token(LogicalOp, "!", 0), Token(ArithmeticOp, "=", 0), Token(EOF, "", 0)])
  {
    BangEqualSpans(s);
    Delivers(s, [Span(LogicalOp, 0, 1, 0), Span(ArithmeticOp, 1, 2, 0), Span(EOF, 2, 2, 0)], false,
      [Token(LogicalOp, "!", 0), Token(ArithmeticOp, "=", 0), Token(EOF, "", 0)]);
  }

  lemma BangEqualSpans(s: string)
    requires s == "!="
    ensures var sp := [Span(LogicalOp, 0, 1, 0), Span(ArithmeticOp, 1, 2, 0), Span(EOF, 2, 2, 0)];
      Scanned(s) == Scan(sp, false) && TokensOf(s, sp) == [Token(LogicalOp, "!", 0), Token(ArithmeticOp, "=", 0), Token(EOF, "", 0)]
  {
    var sp := [Span(LogicalOp, 0, 1, 0), Span(ArithmeticOp, 1, 2, 0), Span(EOF, 2, 2, 0)];
    BangEqual(s, 0, 0, 0);
    EndOfInput(s, 2, 0);
    var ts := TokensOf(s, sp);
    assert ts[0] == Token(LogicalOp, "!", 0);
    assert ts[1] == Token(ArithmeticOp, "=", 0);
    assert ts[2] == Token(EOF, "", 0);
  }

  /** "+++" is "++" and then '+'. */
  lemma TriplePlusInput(s: string)
    requires s == "+++"
    ensures Lex(s) == Ok([Token(ArithmeticOp, "++", 0), Token(ArithmeticOp, "+", 0), Token(EOF, "", 0)])
  {
    TriplePlusSpans(s);
    Delivers(s, [Span(ArithmeticOp, 0, 2, 0), Span(ArithmeticOp, 2, 3, 0), Span(EOF, 3, 3, 0)], false,
      [Token(ArithmeticOp, "++", 0), Token(ArithmeticOp, "+", 0), Token(EOF, "", 0)]);
  }

  lemma TriplePlusSpans(s: string)
    requires s == "+++"
    ensures var sp := [Span(ArithmeticOp, 0, 2, 0), Span(ArithmeticOp, 2, 3, 0), Span(EOF, 3, 3, 0)];
      Scanned(s) == Scan(sp, false) && TokensOf(s, sp) == [Token(ArithmeticOp, "++", 0), Token(ArithmeticOp, "+", 0), Token(EOF, "", 0)]
  {
    var sp := [Span(ArithmeticOp, 0, 2, 0), Span(ArithmeticOp, 2, 3, 0), Span(EOF, 3, 3, 0)];
    TriplePlus(s, 0, 0, 0);
    EndOfInput(s, 3, 0);
    var ts := TokensOf(s, sp);
    assert ts[0] == Token(ArithmeticOp, "++", 0);
    assert ts[1] == Token(ArithmeticOp, "+", 0);
    assert ts[2] == Token(EOF, "", 0);
  }

  // ---------------------------------------------------------------------
  // Comments and strings

  /** "/#/" is a complete comment. */
  lemma ShortestCommentInput(s: string)
    requires s == "/#/"
    ensures Lex(s) == Ok([Token(BlockComment, "/#/", 0), Token(EOF, "", 0)])
  {
    ShortestCommentSpans(s);
    Delivers(s, [Span(BlockComment, 0, 3, 0), Span(EOF, 3, 3, 0)], false,
      [Token(BlockComment, "/#/", 0), Token(EOF, "", 0)]);
  }

  lemma ShortestCommentSpans(s: string)
    requires s == "/#/"
    ensures var sp := [Span(BlockComment, 0, 3, 0), Span(EOF, 3, 3, 0)];
      Scanned(s) == Scan(sp, false) && TokensOf(s, sp) == [Token(BlockComment, "/#/", 0), Token(EOF, "", 0)]
  {
    var sp := [Span(BlockComment, 0, 3, 0), Span(EOF, 3, 3, 0)];
    ShortestComment(s, 0, 0, 0);
    EndOfInput(s, 3, 0);
    var ts := TokensOf(s, sp);
    assert ts[0] == Token(BlockComment, "/#/", 0);
    assert ts[1] == Token(EOF, "", 0);
  }

  /** A newline inside a comment is part of the comment and is not
      counted: the identifier after it stays on line 0. */
  lemma CommentNewlineInput(s: string)
    requires s == "/#\n#/x"
    ensures Lex(s) == Ok([Token(BlockComment, "/#\n#/", 0), Token(Identifier, "x", 0), Token(EOF, "", 0)])
  {
    CommentNewlineSpans(s);
    Delivers(s, [Span(BlockComment, 0, 5, 0), Span(Identifier, 5, 6, 0), Span(EOF, 6, 6, 0)], false,
      [Token(BlockComment, "/#\n#/", 0), Token(Identifier, "x", 0), Token(EOF, "", 0)]);
  }

  lemma CommentNewlineSpans(s: string)
    requires s == "/#\n#/x"
    ensures var sp := [Span(BlockComment, 0, 5, 0), Span(Identifier, 5, 6, 0), Span(EOF, 6, 6, 0)];
      && Scanned(s) == Scan(sp, false)
      && TokensOf(s, sp) == [Token(BlockComment, "/#\n#/", 0), Token(Identifier, "x", 0), Token(EOF, "", 0)]
  {
    var sp := [Span(BlockComment, 0, 5, 0), Span(Identifier, 5, 6, 0), Span(EOF, 6, 6, 0)];
    assert Closes(s, 3);
    CommentCloses(s, 0, 0, 3, 0);
    LastLetter(s, 5, 5, 0);
    var ts := TokensOf(s, sp);
    assert ts[0] == Token(BlockComment, "/#\n#/", 0);
    assert ts[1] == Token(Identifier, "x", 0);
    assert ts[2] == Token(EOF, "", 0);
  }

  /** An unclosed comment runs to the end of input; an empty EOF token follows. */
  lemma UnclosedCommentInput(s: string)
    requires s == "/#a"
    ensures Lex(s) == Ok([Token(MalformedComment, "/#a", 0), Token(EOF, "", 0)])
  {
    UnclosedCommentSpans(s);
    Delivers(s, [Span(MalformedComment, 0, 3, 0), Span(EOF, 3, 3, 0)], false,
      [Token(MalformedComment, "/#a", 0), Token(EOF, "", 0)]);
  }

  lemma UnclosedCommentSpans(s: string)
    requires s == "/#a"
    ensures var sp := [Span(MalformedComment, 0, 3, 0), Span(EOF, 3, 3, 0)];
      Scanned(s) == Scan(sp, false) && TokensOf(s, sp) == [Token(MalformedComment, "/#a", 0), Token(EOF, "", 0)]
  {
    var sp := [Span(MalformedComment, 0, 3, 0), Span(EOF, 3, 3, 0)];
    CommentUnclosed(s, 0, 0, 0);
    var ts := TokensOf(s, sp);
    assert ts[0] == Token(MalformedComment, "/#a", 0);
    assert ts[1] == Token(EOF, "", 0);
  }

  /** An unclosed string runs to the end of input; an empty EOF token follows. */
  lemma UnclosedStringInput(s: string)
    requires s == "\"ab"
    ensures Lex(s) == Ok([Token(MalformedString, "\"ab", 0), Token(EOF, "", 0)])
  {
    UnclosedStringSpans(s);
    Delivers(s, [Span(MalformedString, 0, 3, 0), Span(EOF, 3, 3, 0)], false,
      [Token(MalformedString, "\"ab", 0), Token(EOF, "", 0)]);
  }

  lemma UnclosedStringSpans(s: string)
    requires s == "\"ab"
    ensures var sp := [Span(MalformedString, 0, 3, 0), Span(EOF, 3, 3, 0)];
      Scanned(s) == Scan(sp, false) && TokensOf(s, sp) == [Token(MalformedString, "\"ab", 0), Token(EOF, "", 0)]
  {
    var sp := [Span(MalformedString, 0, 3, 0), Span(EOF, 3, 3, 0)];
    StringUnclosed(s, 0, 0, 0);
    var ts := TokensOf(s, sp);
    assert ts[0] == Token(MalformedString, "\"ab", 0);
    assert ts[1] == Token(EOF, "", 0);
  }

  /** A sentinel rune inside a string ends the scan early: the rest of the
      input is never read. */
  lemma SentinelInStringInput(s: string)
    requires s == ['"', 'a', EofRune, '"', ';']
    ensures Lex(s) == Ok([Token(MalformedString, ['"', 'a', EofRune], 0), Token(EOF, "", 0)])
  {
    SentinelInStringSpans(s);
    Delivers(s, [Span(MalformedString, 0, 3, 0), Span(EOF, 3, 3, 0)], false,
      [Token(MalformedString, ['"', 'a', EofRune], 0), Token(EOF, "", 0)]);
  }

  lemma SentinelInStringSpans(s: string)
    requires s == ['"', 'a', EofRune, '"', ';']
    ensures var sp := [Span(MalformedString, 0, 3, 0), Span(EOF, 3, 3, 0)];
      Scanned(s) == Scan(sp, false) && TokensOf(s, sp) == [Token(MalformedString, ['"', 'a', EofRune], 0), Token(EOF, "", 0)]
  {
    var sp := [Span(MalformedString, 0, 3, 0), Span(EOF, 3, 3, 0)];
    StringCutShort(s, 0, 0, 2, 0);
    var ts := TokensOf(s, sp);
    assert ts[0] == Token(MalformedString, ['"', 'a', EofRune], 0);
    assert ts[1] == Token(EOF, "", 0);
  }

  // ---------------------------------------------------------------------
  // Character literals and numbers

  /** "'ab'" is the character literal "'ab" and a malformed one, "'". */
  lemma TwoRuneCharInput(s: string)
    requires s == "'ab'"
    ensures Lex(s) == Ok([Token(Char, "'ab", 0), Token(MalformedChar, "'", 0), Token(EOF, "", 0)])
  {
    TwoRuneCharSpans(s);
    Delivers(s, [Span(Char, 0, 3, 0), Span(MalformedChar, 3, 4, 0), Span(EOF, 4, 4, 0)], false,
      [Token(Char, "'ab", 0), Token(MalformedChar, "'", 0), Token(EOF, "", 0)]);
  }

  lemma TwoRuneCharSpans(s: string)
    requires s == "'ab'"
    ensures var sp := [Span(Char, 0, 3, 0), Span(MalformedChar, 3, 4, 0), Span(EOF, 4, 4, 0)];
      Scanned(s) == Scan(sp, false) && TokensOf(s, sp) == [Token(Char, "'ab", 0), Token(MalformedChar, "'", 0), Token(EOF, "", 0)]
  {
    var sp := [Span(Char, 0, 3, 0), Span(MalformedChar, 3, 4, 0), Span(EOF, 4, 4, 0)];
    TwoRuneChar(s, 0, 0, 0);
    EndOfInput(s, 4, 0);
    var ts := TokensOf(s, sp);
    assert ts[0] == Token(Char, "'ab", 0);
    assert ts[1] == Token(MalformedChar, "'", 0);
    assert ts[2] == Token(EOF, "", 0);
  }

  /** "3." is a malformed number "3.", a number with an empty lexeme, and
      an empty EOF token. */
  lemma DotAtEndInput(s: string)
    requires s == "3."
    ensures Lex(s) == Ok([Token(MalformedNumber, "3.", 0), Token(Number, "", 0), Token(EOF, "", 0)])
  {
    DotAtEndSpans(s);
    Delivers(s, [Span(MalformedNumber, 0, 2, 0), Span(Number, 2, 2, 0), Span(EOF, 2, 2, 0)], false,
      [Token(MalformedNumber, "3.", 0), Token(Number, "", 0), Token(EOF, "", 0)]);
  }

  lemma DotAtEndSpans(s: string)
    requires s == "3."
    ensures var sp := [Span(MalformedNumber, 0, 2, 0), Span(Number, 2, 2, 0), Span(EOF, 2, 2, 0)];
      Scanned(s) == Scan(sp, false) && TokensOf(s, sp) == [Token(MalformedNumber, "3.", 0), Token(Number, "", 0), Token(EOF, "", 0)]
  {
    var sp := [Span(MalformedNumber, 0, 2, 0), Span(Number, 2, 2, 0), Span(EOF, 2, 2, 0)];
    DotAtEnd(s, 0, 0, 0);
    var ts := TokensOf(s, sp);
    assert ts[0] == Token(MalformedNumber, "3.", 0);
    assert ts[1] == Token(Number, "", 0);
    assert ts[2] == Token(EOF, "", 0);
  }

  /** "3.x" crashes after delivering the malformed number "3". */
  lemma DotCrashInput(s: string)
    requires s == "3.x"
    ensures Lex(s) == Crash([Token(MalformedNumber, "3", 0)])
  {
    DotCrashSpans(s);
    Delivers(s, [Span(MalformedNumber, 0, 1, 0)], true,
      [Token(MalformedNumber, "3", 0)]);
  }

  lemma DotCrashSpans(s: string)
    requires s == "3.x"
    ensures var sp := [Span(MalformedNumber, 0, 1, 0)];
      Scanned(s) == Scan(sp, true) && TokensOf(s, sp) == [Token(MalformedNumber, "3", 0)]
  {
    var sp := [Span(MalformedNumber, 0, 1, 0)];
    DotCrash(s, 0, 0, 1, 0);
    var ts := TokensOf(s, sp);
    assert ts[0] == Token(MalformedNumber, "3", 0);
  }

  // ---------------------------------------------------------------------
  // Pending runes and lines

  /** A rune that starts no lexeme becomes the front of the next token. */
  lemma PendingRuneInput(s: string)
    requires s == "@x;"
    ensures Lex(s) == Ok([Token(Identifier, "@x", 0), Token(Delimiter, ";", 0), Token(EOF, "", 0)])
  {
    PendingRuneSpans(s);
    Delivers(s, [Span(Identifier, 0, 2, 0), Span(Delimiter, 2, 3, 0), Span(EOF, 3, 3, 0)], false,
      [Token(Identifier, "@x", 0), Token(Delimiter, ";", 0), Token(EOF, "", 0)]);
  }

  lemma PendingRuneSpans(s: string)
    requires s == "@x;"
    ensures var sp := [Span(Identifier, 0, 2, 0), Span(Delimiter, 2, 3, 0), Span(EOF, 3, 3, 0)];
      Scanned(s) == Scan(sp, false) && TokensOf(s, sp) == [Token(Identifier, "@x", 0), Token(Delimiter, ";", 0), Token(EOF, "", 0)]
  {
    var sp := [Span(Identifier, 0, 2, 0), Span(Delimiter, 2, 3, 0), Span(EOF, 3, 3, 0)];
    assert LeadAt(s, 0) == Other;
    StaysPending(s, 0, 0, 0);
    OneLetter(s, 0, 1, 0);
    OneDelimiter(s, 2, 2, 0);
    EndOfInput(s, 3, 0);
    var ts := TokensOf(s, sp);
    assert ts[0] == Token(Identifier, "@x", 0);
    assert ts[1] == Token(Delimiter, ";", 0);
    assert ts[2] == Token(EOF, "", 0);
  }

  /** A newline between tokens counts a line; lines start at 0. */
  lemma NewlineInput(s: string)
    requires s == "a\nb"
    ensures Lex(s) == Ok([Token(Identifier, "a", 0), Token(Identifier, "b", 1), Token(EOF, "", 1)])
  {
    NewlineSpans(s);
    Delivers(s, [Span(Identifier, 0, 1, 0), Span(Identifier, 2, 3, 1), Span(EOF, 3, 3, 1)], false,
      [Token(Identifier, "a", 0), Token(Identifier, "b", 1), Token(EOF, "", 1)]);
  }

  lemma NewlineSpans(s: string)
    requires s == "a\nb"
    ensures var sp := [Span(Identifier, 0, 1, 0), Span(Identifier, 2, 3, 1), Span(EOF, 3, 3, 1)];
      Scanned(s) == Scan(sp, false) && TokensOf(s, sp) == [Token(Identifier, "a", 0), Token(Identifier, "b", 1), Token(EOF, "", 1)]
  {
    var sp := [Span(Identifier, 0, 1, 0), Span(Identifier, 2, 3, 1), Span(EOF, 3, 3, 1)];
    LastLetter(s, 2, 2, 1);
    SkipsSpace(s, 1, 1, 0);
    OneLetter(s, 0, 0, 0);
    var ts := TokensOf(s, sp);
    assert ts[0] == Token(Identifier, "a", 0);
    assert ts[1] == Token(Identifier, "b", 1);
    assert ts[2] == Token(EOF, "", 1);
  }

  /** A pending rune followed by whitespace is dropped with it. */
  lemma PendingDroppedInput(s: string)
    requires s == "@ x"
    ensures Lex(s) == Ok([Token(Identifier, "x", 0), Token(EOF, "", 0)])
  {
    PendingDroppedSpans(s);
    Delivers(s, [Span(Identifier, 2, 3, 0), Span(EOF, 3, 3, 0)], false,
      [Token(Identifier, "x", 0), Token(EOF, "", 0)]);
  }

  lemma PendingDroppedSpans(s: string)
    requires s == "@ x"
    ensures var sp := [Span(Identifier, 2, 3, 0), Span(EOF, 3, 3, 0)];
      Scanned(s) == Scan(sp, false) && TokensOf(s, sp) == [Token(Identifier, "x", 0), Token(EOF, "", 0)]
  {
    var sp := [Span(Identifier, 2, 3, 0), Span(EOF, 3, 3, 0)];
    LastLetter(s, 2, 2, 0);
    SkipsSpace(s, 0, 1, 0);
    assert LeadAt(s, 0) == Other;
    StaysPending(s, 0, 0, 0);
    var ts := TokensOf(s, sp);
    assert ts[0] == Token(Identifier, "x", 0);
    assert ts[1] == Token(EOF, "", 0);
  }

  // The input "--", '*', '/' gives three operators: a '/' that is not
  // followed by '#' is an operator of its own.
  lemma OperatorsInput(s: string)
    requires s == "--*/"
    ensures Lex(s) == Ok([Token(ArithmeticOp, "--", 0), Token(ArithmeticOp, "*", 0), Token(ArithmeticOp, "/", 0),
                          Token(EOF, "", 0)])
  {
    OperatorsSpans(s);
    Delivers(s, [Span(ArithmeticOp, 0, 2, 0), Span(ArithmeticOp, 2, 3, 0), Span(ArithmeticOp, 3, 4, 0),
                 Span(EOF, 4, 4, 0)], false,
      [Token(ArithmeticOp, "--", 0), Token(ArithmeticOp, "*", 0), Token(ArithmeticOp, "/", 0), Token(EOF, "", 0)]);
  }

  lemma OperatorsSpans(s: string)
    requires s == "--*/"
    ensures var sp := [Span(ArithmeticOp, 0, 2, 0), Span(ArithmeticOp, 2, 3, 0), Span(ArithmeticOp, 3, 4, 0),
                       Span(EOF, 4, 4, 0)];
      Scanned(s) == Scan(sp, false) &&
      TokensOf(s, sp) == [Token(ArithmeticOp, "--", 0), Token(ArithmeticOp, "*", 0), Token(ArithmeticOp, "/", 0),
                          Token(EOF, "", 0)]
  {
    var sp := [Span(ArithmeticOp, 0, 2, 0), Span(ArithmeticOp, 2, 3, 0), Span(ArithmeticOp, 3, 4, 0),
               Span(EOF, 4, 4, 0)];
    OperatorsScan(s);
    var ts := TokensOf(s, sp);
    assert ts[0] == Token(ArithmeticOp, "--", 0);
    assert ts[1] == Token(ArithmeticOp, "*", 0);
    assert ts[2] == Token(ArithmeticOp, "/", 0);
    assert ts[3] == Token(EOF, "", 0);
  }

  lemma OperatorsScan(s: string)
    requires s == "--*/"
    ensures Scanned(s) == Scan([Span(ArithmeticOp, 0, 2, 0), Span(ArithmeticOp, 2, 3, 0),
                                Span(ArithmeticOp, 3, 4, 0), Span(EOF, 4, 4, 0)], false)
  {
    EndOfInput(s, 4, 0);
    OneRuneOperator(s, 3, 3, 0);
    assert ScanFrom(s, 3, 3, 0) == Scan([Span(ArithmeticOp, 3, 4, 0), Span(EOF, 4, 4, 0)], false);
    OneRuneOperator(s, 2, 2, 0);
    assert ScanFrom(s, 2, 2, 0) == Scan([Span(ArithmeticOp, 2, 3, 0), Span(ArithmeticOp, 3, 4, 0), Span(EOF, 4, 4, 0)], false);
    DoubledOperator(s, 0, 0, 0);
  }

  // ---------------------------------------------------------------------
  // A small program

  /** The input of the sanity example: `program p; var{integer x;}`. The
      scan is derived stretch by stretch, from the end backwards. */
  predicate IsSmall(s: string) {
    s == "program p; var{integer x;}"
  }
  lemma SmallProgramEnd(s: string)
    requires IsSmall(s)
    ensures ScanFrom(s, 22, 22, 0) ==
      Scan([Span(Identifier, 23, 24, 0), Span(Delimiter, 24, 25, 0), Span(Delimiter, 25, 26, 0),
            Span(EOF, 26, 26, 0)], false)
  {
    EndOfInput(s, 26, 0);
    OneDelimiter(s, 25, 25, 0);
    OneDelimiter(s, 24, 24, 0);
    OneLetter(s, 23, 23, 0);
    SkipsSpace(s, 22, 22, 0);
  }

  lemma SmallProgramInteger(s: string)
    requires IsSmall(s)
    ensures ScanFrom(s, 14, 14, 0) ==
      Cons(Span(Delimiter, 14, 15, 0), Cons(Span(Keyword, 15, 22, 0), ScanFrom(s, 22, 22, 0)))
  {
    assert s[15..22] == "integer" == Keywords[13];
    LongWord(s, 15, 15, 22, 0);
    OneDelimiter(s, 14, 14, 0);
  }

  lemma SmallProgramVar(s: string)
    requires IsSmall(s)
    ensures ScanFrom(s, 11, 11, 0) == Cons(Span(Keyword, 11, 14, 0), ScanFrom(s, 14, 14, 0))
  {
    assert s[11..14] == "var" == Keywords[1];
    LongWord(s, 11, 11, 14, 0);
  }

  lemma SmallProgramName(s: string)
    requires IsSmall(s)
    ensures ScanFrom(s, 7, 7, 0) == Cons(Span(Identifier, 8, 9, 0), ScanFrom(s, 9, 9, 0))
  {
    assert s[7] == ' ' && s[8] == 'p' && s[9] == ';';
    SpaceThenLetter(s, 7, 0);
  }

  /** Whitespace, then a one-letter word. */
  lemma SpaceThenLetter(s: string, i: nat, line: nat)
    requires i + 2 < |s| && s[i] == ' ' && IsLetter(s[i + 1]) && !IsIdentifierRune(s[i + 2]) && s[i + 2] != EofRune
    ensures ScanFrom(s, i, i, line) == Cons(Span(Identifier, i + 1, i + 2, line), ScanFrom(s, i + 2, i + 2, line))
  {
    SkipsSpace(s, i, i, line);
    OneLetter(s, i + 1, i + 1, line);
  }

  lemma SmallProgramSemicolon(s: string)
    requires IsSmall(s)
    ensures ScanFrom(s, 9, 9, 0) == Cons(Span(Delimiter, 9, 10, 0), ScanFrom(s, 11, 11, 0))
  {
    SkipsSpace(s, 10, 10, 0);
    OneDelimiter(s, 9, 9, 0);
  }

  lemma SmallProgramStart(s: string)
    requires IsSmall(s)
    ensures Scanned(s) == Cons(Span(Keyword, 0, 7, 0), ScanFrom(s, 7, 7, 0))
  {
    assert s[0..7] == "program" == Keywords[0];
    LongWord(s, 0, 0, 7, 0);
  }

  lemma SmallProgramComposes(t0: Scan, t7: Scan, t9: Scan, t11: Scan, t14: Scan, t22: Scan)
    requires t22 == Scan([Span(Identifier, 23, 24, 0), Span(Delimiter, 24, 25, 0), Span(Delimiter, 25, 26, 0),
                          Span(EOF, 26, 26, 0)], false)
    requires t14 == Cons(Span(Delimiter, 14, 15, 0), Cons(Span(Keyword, 15, 22, 0), t22))
    requires t11 == Cons(Span(Keyword, 11, 14, 0), t14)
    requires t9 == Cons(Span(Delimiter, 9, 10, 0), t11)
    requires t7 == Cons(Span(Identifier, 8, 9, 0), t9)
    requires t0 == Cons(Span(Keyword, 0, 7, 0), t7)
    ensures t0 ==
      Scan([Span(Keyword, 0, 7, 0), Span(Identifier, 8, 9, 0), Span(Delimiter, 9, 10, 0),
            Span(Keyword, 11, 14, 0), Span(Delimiter, 14, 15, 0), Span(Keyword, 15, 22, 0),
            Span(Identifier, 23, 24, 0), Span(Delimiter, 24, 25, 0), Span(Delimiter, 25, 26, 0),
            Span(EOF, 26, 26, 0)], false)
  {
  }

  lemma SmallProgramScan(s: string)
    requires IsSmall(s)
    ensures Scanned(s) ==
      Scan([Span(Keyword, 0, 7, 0), Span(Identifier, 8, 9, 0), Span(Delimiter, 9, 10, 0),
            Span(Keyword, 11, 14, 0), Span(Delimiter, 14, 15, 0), Span(Keyword, 15, 22, 0),
            Span(Identifier, 23, 24, 0), Span(Delimiter, 24, 25, 0), Span(Delimiter, 25, 26, 0),
            Span(EOF, 26, 26, 0)], false)
  {
    SmallProgramEnd(s);
    SmallProgramInteger(s);
    SmallProgramVar(s);
    SmallProgramSemicolon(s);
    SmallProgramName(s);
    SmallProgramStart(s);
    SmallProgramComposes(Scanned(s), ScanFrom(s, 7, 7, 0), ScanFrom(s, 9, 9, 0), ScanFrom(s, 11, 11, 0),
      ScanFrom(s, 14, 14, 0), ScanFrom(s, 22, 22, 0));
  }

  function SmallProgramLayout(): seq<Span> {
    [Span(Keyword, 0, 7, 0), Span(Identifier, 8, 9, 0), Span(Delimiter, 9, 10, 0),
               Span(Keyword, 11, 14, 0), Span(Delimiter, 14, 15, 0), Span(Keyword, 15, 22, 0),
               Span(Identifier, 23, 24, 0), Span(Delimiter, 24, 25, 0), Span(Delimiter, 25, 26, 0),
               Span(EOF, 26, 26, 0)]
  }

  lemma SmallProgramWords(s: string)
    requires IsSmall(s)
    ensures var ts := TokensOf(s, SmallProgramLayout());
      ts[0] == Token(Keyword, "program", 0) && ts[3] == Token(Keyword, "var", 0) && ts[5] == Token(Keyword, "integer", 0)
  {
    assert s[0..7] == "program";
    assert s[11..14] == "var";
    assert s[15..22] == "integer";
  }

  lemma SmallProgramTokens(s: string)
    requires IsSmall(s)
    ensures TokensOf(s, SmallProgramLayout()) ==
      [Token(Keyword, "program", 0), Token(Identifier, "p", 0), Token(Delimiter, ";", 0),
       Token(Keyword, "var", 0), Token(Delimiter, "{", 0), Token(Keyword, "integer", 0),
       Token(Identifier, "x", 0), Token(Delimiter, ";", 0), Token(Delimiter, "}", 0),
       Token(EOF, "", 0)]
  {
    var ts := TokensOf(s, SmallProgramLayout());
    SmallProgramWords(s);
    assert ts[1] == Token(Identifier, "p", 0);
    assert ts[2] == Token(Delimiter, ";", 0);
    assert ts[4] == Token(Delimiter, "{", 0);
    assert ts[6] == Token(Identifier, "x", 0);
    assert ts[7] == Token(Delimiter, ";", 0);
    assert ts[8] == Token(Delimiter, "}", 0);
    assert ts[9] == Token(EOF, "", 0);
  }

  lemma SmallProgramInput(s: string)
    requires IsSmall(s)
    ensures Lex(s) == Ok([Token(Keyword, "program", 0), Token(Identifier, "p", 0), Token(Delimiter, ";", 0),
                          Token(Keyword, "var", 0), Token(Delimiter, "{", 0), Token(Keyword, "integer", 0),
                          Token(Identifier, "x", 0), Token(Delimiter, ";", 0), Token(Delimiter, "}", 0),
                          Token(EOF, "", 0)])
  {
    SmallProgramScan(s);
    SmallProgramTokens(s);
    Delivers(s, SmallProgramLayout(), false,
      [Token(Keyword, "program", 0), Token(Identifier, "p", 0), Token(Delimiter, ";", 0),
       Token(Keyword, "var", 0), Token(Delimiter, "{", 0), Token(Keyword, "integer", 0),
       Token(Identifier, "x", 0), Token(Delimiter, ";", 0), Token(Delimiter, "}", 0),
       Token(EOF, "", 0)]);
  }
}
