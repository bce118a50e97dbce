/** The scanning rules for particular inputs, stated on the span
    description from a cursor `i` with pending text from `st`. By
    `LexAgrees` each one says what `Lex` delivers at that point. */
module Rules {
  import opened Tokens
  import opened Reference

  /** The run of runes of class `c` from `k` ends at `j` exactly when all
      runes in [k, j) are in the class and the rune at `j` is not. */
  lemma {:induction false} RunEndIs(s: string, k: nat, j: nat, c: RuneClass)
    requires k <= j <= |s|
    requires forall m :: k <= m < j ==> InClass(c, s[m])
    requires j == |s| || !InClass(c, s[j])
    ensures RunEnd(s, k, c) == j
    decreases j - k
  {
    if k < j {
      RunEndIs(s, k + 1, j, c);
    }
  }

  /** "!=" is not one operator: '!' is a logical operator on its own, and
      the '=' starts an arithmetic one. */
  lemma BangEqual(s: string, st: nat, i: nat, line: nat)
    requires st <= i && i + 1 < |s| && s[i] == '!' && s[i + 1] == '='
    ensures var e := if i + 2 < |s| && s[i + 2] == '=' then i + 3 else i + 2;
      ScanFrom(s, st, i, line) ==
        Cons(Span(LogicalOp, st, i + 1, line), Cons(Span(ArithmeticOp, i + 1, e, line), ScanFrom(s, e, e, line)))
  {
    assert LeadAt(s, i) == Logical && LogicalOperator(s, i) == (LogicalOp, i + 1);
    var e := if i + 2 < |s| && s[i + 2] == '=' then i + 3 else i + 2;
    assert LeadAt(s, i + 1) == Relational && RelationalOperator(s, i + 1) == (ArithmeticOp, e);
    assert ScanFrom(s, st, i, line) == Resume(s, LogicalOp, st, i + 1, line);
    assert ScanFrom(s, i + 1, i + 1, line) == Resume(s, ArithmeticOp, i + 1, e, line);
  }

  /** "+++" is "++" followed by a '+' that starts the next operator. */
  lemma TriplePlus(s: string, st: nat, i: nat, line: nat)
    requires st <= i && i + 2 < |s| && s[i] == '+' && s[i + 1] == '+' && s[i + 2] == '+'
    ensures var e := if i + 3 < |s| && s[i + 3] == '+' then i + 4 else i + 3;
      ScanFrom(s, st, i, line) ==
        Cons(Span(ArithmeticOp, st, i + 2, line), Cons(Span(ArithmeticOp, i + 2, e, line), ScanFrom(s, e, e, line)))
  {
    assert LeadAt(s, i) == Operator && ArithmeticEnd(s, i) == i + 2;
    var e := if i + 3 < |s| && s[i + 3] == '+' then i + 4 else i + 3;
    assert LeadAt(s, i + 2) == Operator && ArithmeticEnd(s, i + 2) == e;
    assert ScanFrom(s, st, i, line) == Resume(s, ArithmeticOp, st, i + 2, line);
    assert ScanFrom(s, i + 2, i + 2, line) == Resume(s, ArithmeticOp, i + 2, e, line);
  }

  /** "++" and "--" are one operator of two runes. */
  lemma DoubledOperator(s: string, st: nat, i: nat, line: nat)
    requires st <= i && i + 1 < |s| && (s[i] == '+' || s[i] == '-') && s[i + 1] == s[i]
    ensures ScanFrom(s, st, i, line) == Cons(Span(ArithmeticOp, st, i + 2, line), ScanFrom(s, i + 2, i + 2, line))
  {
    assert LeadAt(s, i) == Operator && ArithmeticEnd(s, i) == i + 2;
    assert ScanFrom(s, st, i, line) == Resume(s, ArithmeticOp, st, i + 2, line);
  }

  /** '*', a '/' that does not open a comment, and a '+' or '-' that is
      not doubled are operators of one rune. */
  lemma OneRuneOperator(s: string, st: nat, i: nat, line: nat)
    requires st <= i < |s|
    requires || s[i] == '*'
             || (s[i] == '/' && !(i + 1 < |s| && s[i + 1] == '#'))
             || ((s[i] == '+' || s[i] == '-') && !(i + 1 < |s| && s[i + 1] == s[i]))
    ensures ScanFrom(s, st, i, line) == Cons(Span(ArithmeticOp, st, i + 1, line), ScanFrom(s, i + 1, i + 1, line))
  {
    assert LeadAt(s, i) == Operator && ArithmeticEnd(s, i) == i + 1;
    assert ScanFrom(s, st, i, line) == Resume(s, ArithmeticOp, st, i + 1, line);
  }

  // ---------------------------------------------------------------------
  // Words

  /** A word of two or more identifier runes is one token, a keyword
      exactly when the lexeme is a reserved word. */
  lemma LongWord(s: string, st: nat, i: nat, j: nat, line: nat)
    requires st <= i && i + 2 <= j <= |s| && IsLetter(s[i])
    requires forall m :: i < m < j ==> IsIdentifierRune(s[m])
    requires j == |s| || !IsIdentifierRune(s[j])
    ensures ScanFrom(s, st, i, line) ==
      Cons(Span(if IsKeyword(s[st..j]) then Keyword else Identifier, st, j, line), ScanFrom(s, j, j, line))
  {
    RunEndIs(s, i + 1, j, WordRunes);
    assert LeadAt(s, i) == Word;
    assert ScanFrom(s, st, i, line) == WordFrom(s, st, i + 1, line);
    assert WordFrom(s, st, i + 1, line) == Resume(s, WordKind(s[st..j]), st, j, line);
  }

  /** A letter followed by a rune that cannot continue a word is an
      identifier on its own. */
  lemma OneLetter(s: string, st: nat, i: nat, line: nat)
    requires st <= i && i + 1 < |s| && IsLetter(s[i]) && !IsIdentifierRune(s[i + 1]) && s[i + 1] != EofRune
    ensures ScanFrom(s, st, i, line) == Cons(Span(Identifier, st, i + 1, line), ScanFrom(s, i + 1, i + 1, line))
  {
    assert RunEnd(s, i + 1, WordRunes) == i + 1;
    assert LeadAt(s, i) == Word;
    assert ScanFrom(s, st, i, line) == WordFrom(s, st, i + 1, line);
    assert WordFrom(s, st, i + 1, line) == Resume(s, Identifier, st, i + 1, line);
  }

  /** A letter that ends the input is an identifier, followed by an
      empty EOF token. */
  lemma LastLetter(s: string, st: nat, i: nat, line: nat)
    requires st <= i && i + 1 == |s| && IsLetter(s[i])
    ensures ScanFrom(s, st, i, line) == Scan([Span(Identifier, st, i + 1, line), Span(EOF, i + 1, i + 1, line)], false)
  {
    assert RunEnd(s, i + 1, WordRunes) == i + 1;
    assert LeadAt(s, i) == Word;
  }

  // ---------------------------------------------------------------------
  // Single-rune tokens, whitespace and the end

  /** A delimiter is a token of one rune. */
  lemma OneDelimiter(s: string, st: nat, i: nat, line: nat)
    requires st <= i < |s| && IsDelimiter(s[i])
    ensures ScanFrom(s, st, i, line) == Cons(Span(Delimiter, st, i + 1, line), ScanFrom(s, i + 1, i + 1, line))
  {
    assert LeadAt(s, i) == Delimiting;
  }

  /** Whitespace drops the pending text; a newline counts a line. */
  lemma SkipsSpace(s: string, st: nat, i: nat, line: nat)
    requires st <= i < |s| && IsSpace(s[i])
    ensures ScanFrom(s, st, i, line) == ScanFrom(s, i + 1, i + 1, if s[i] == '\n' then line + 1 else line)
  {
    assert LeadAt(s, i) == Space;
  }

  /** At the end of input the pending text becomes the EOF token. */
  lemma EndOfInput(s: string, st: nat, line: nat)
    requires st <= |s|
    ensures ScanFrom(s, st, |s|, line) == Scan([Span(EOF, st, |s|, line)], false)
  {
  }

  /** A literal sentinel rune ends the scan: the pending text and the
      sentinel become the EOF token, and the rest of the input is never
      read. */
  lemma SentinelStops(s: string, st: nat, i: nat, line: nat)
    requires st <= i < |s| && s[i] == EofRune
    ensures ScanFrom(s, st, i, line) == Scan([Span(EOF, st, i + 1, line)], false)
  {
    assert LeadAt(s, i) == Sentinel;
  }

  /** A rune that starts no lexeme stays pending: it becomes the front of
      the next token. */
  lemma StaysPending(s: string, st: nat, i: nat, line: nat)
    requires st <= i < |s| && LeadAt(s, i) == Other
    ensures ScanFrom(s, st, i, line) == ScanFrom(s, st, i + 1, line)
  {
  }

  // ---------------------------------------------------------------------
  // Logical and relational operators

  /** "&&" and "||" are logical operators. */
  lemma DoubleLogical(s: string, st: nat, i: nat, line: nat)
    requires st <= i && i + 1 < |s| && (s[i] == '&' || s[i] == '|') && s[i + 1] == s[i]
    ensures ScanFrom(s, st, i, line) == Cons(Span(LogicalOp, st, i + 2, line), ScanFrom(s, i + 2, i + 2, line))
  {
    assert LeadAt(s, i) == Logical && LogicalOperator(s, i) == (LogicalOp, i + 2);
    assert ScanFrom(s, st, i, line) == Resume(s, LogicalOp, st, i + 2, line);
  }

  /** A '&' or '|' that is not doubled is a malformed logical operator. */
  lemma LoneLogical(s: string, st: nat, i: nat, line: nat)
    requires st <= i < |s| && (s[i] == '&' || s[i] == '|') && !(i + 1 < |s| && s[i + 1] == s[i])
    ensures ScanFrom(s, st, i, line) == Cons(Span(MalformedLogicalOp, st, i + 1, line), ScanFrom(s, i + 1, i + 1, line))
  {
    assert LeadAt(s, i) == Logical && LogicalOperator(s, i) == (MalformedLogicalOp, i + 1);
    assert ScanFrom(s, st, i, line) == Resume(s, MalformedLogicalOp, st, i + 1, line);
  }

  /** '>' and '<', each optionally followed by '=', are relational
      operators; '=' and "==" are arithmetic ones. */
  lemma Comparison(s: string, st: nat, i: nat, line: nat)
    requires st <= i < |s| && (s[i] == '>' || s[i] == '<' || s[i] == '=')
    ensures var e := if i + 1 < |s| && s[i + 1] == '=' then i + 2 else i + 1;
      var kind := if s[i] == '=' then ArithmeticOp else RelationalOp;
      ScanFrom(s, st, i, line) == Cons(Span(kind, st, e, line), ScanFrom(s, e, e, line))
  {
    var e := if i + 1 < |s| && s[i + 1] == '=' then i + 2 else i + 1;
    var kind := if s[i] == '=' then ArithmeticOp else RelationalOp;
    assert LeadAt(s, i) == Relational && RelationalOperator(s, i) == (kind, e);
    assert ScanFrom(s, st, i, line) == Resume(s, kind, st, e, line);
  }

  // ---------------------------------------------------------------------
  // Block comments

  /** "#/" at `j`: a comment's closer. */
  predicate Closes(s: string, j: nat) {
    j + 1 < |s| && s[j] == '#' && s[j + 1] == '/'
  }

  lemma {:induction false} CommentEndIs(s: string, k: nat, j: nat)
    requires k <= j < |s| && (s[j] == EofRune || Closes(s, j))
    requires forall m :: k <= m < j ==> s[m] != EofRune && !Closes(s, m)
    ensures CommentEnd(s, k) == j
    decreases j - k
  {
    if k < j {
      CommentEndIs(s, k + 1, j);
    }
  }

  lemma {:induction false} CommentEndAtEnd(s: string, k: nat)
    requires k <= |s|
    requires forall m :: k <= m < |s| ==> s[m] != EofRune && !Closes(s, m)
    ensures CommentEnd(s, k) == |s|
    decreases |s| - k
  {
    if k < |s| {
      CommentEndAtEnd(s, k + 1);
    }
  }

  /** A comment opened by "/#" at `i` runs to the first "#/" after the
      '/', delimiters included; the opener's '#' may be the closer's. */
  lemma CommentCloses(s: string, st: nat, i: nat, j: nat, line: nat)
    requires st <= i && i + 1 <= j && Closes(s, j) && s[i] == '/' && s[i + 1] == '#'
    requires forall m :: i + 1 <= m < j ==> s[m] != EofRune && !Closes(s, m)
    ensures ScanFrom(s, st, i, line) == Cons(Span(BlockComment, st, j + 2, line), ScanFrom(s, j + 2, j + 2, line))
  {
    CommentEndIs(s, i + 1, j);
    assert LeadAt(s, i) == Comment;
    assert ScanFrom(s, st, i, line) == CommentFrom(s, st, i + 1, line);
    assert CommentFrom(s, st, i + 1, line) == CommentUpTo(s, st, j, line);
    assert CommentUpTo(s, st, j, line) == Resume(s, BlockComment, st, j + 2, line);
  }

  /** "/#/" is a complete comment. */
  lemma ShortestComment(s: string, st: nat, i: nat, line: nat)
    requires st <= i && i + 2 < |s| && s[i] == '/' && s[i + 1] == '#' && s[i + 2] == '/'
    ensures ScanFrom(s, st, i, line) == Cons(Span(BlockComment, st, i + 3, line), ScanFrom(s, i + 3, i + 3, line))
  {
    CommentCloses(s, st, i, i + 1, line);
  }

  /** A comment that is never closed runs to the end of input; an empty
      EOF token follows it. */
  lemma CommentUnclosed(s: string, st: nat, i: nat, line: nat)
    requires st <= i && i + 1 < |s| && s[i] == '/' && s[i + 1] == '#'
    requires forall m :: i + 1 <= m < |s| ==> s[m] != EofRune && !Closes(s, m)
    ensures ScanFrom(s, st, i, line) ==
      Scan([Span(MalformedComment, st, |s|, line), Span(EOF, |s|, |s|, line)], false)
  {
    CommentEndAtEnd(s, i + 1);
    assert LeadAt(s, i) == Comment;
    assert ScanFrom(s, st, i, line) == CommentFrom(s, st, i + 1, line);
  }

  /** A sentinel rune inside a comment ends the scan: it closes a
      malformed comment, an empty EOF token follows, and the rest of the
      input is never read. */
  lemma CommentCutShort(s: string, st: nat, i: nat, j: nat, line: nat)
    requires st <= i && i + 1 <= j < |s| && s[i] == '/' && s[i + 1] == '#' && s[j] == EofRune
    requires forall m :: i + 1 <= m < j ==> s[m] != EofRune && !Closes(s, m)
    ensures ScanFrom(s, st, i, line) ==
      Scan([Span(MalformedComment, st, j + 1, line), Span(EOF, j + 1, j + 1, line)], false)
  {
    CommentEndIs(s, i + 1, j);
    assert LeadAt(s, i) == Comment;
    assert ScanFrom(s, st, i, line) == CommentFrom(s, st, i + 1, line);
    assert CommentFrom(s, st, i + 1, line) == CommentUpTo(s, st, j, line);
    assert CommentUpTo(s, st, j, line) == Final(s, MalformedComment, st, j + 1, line);
  }

  // ---------------------------------------------------------------------
  // String literals

  /** A string runs from '"' to the next '"', both included. */
  lemma StringCloses(s: string, st: nat, i: nat, j: nat, line: nat)
    requires st <= i < j < |s| && s[i] == '"' && s[j] == '"'
    requires forall m :: i < m < j ==> InString(s[m])
    ensures ScanFrom(s, st, i, line) == Cons(Span(String, st, j + 1, line), ScanFrom(s, j + 1, j + 1, line))
  {
    RunEndIs(s, i + 1, j, StringRunes);
    assert LeadAt(s, i) == Quoted;
    assert ScanFrom(s, st, i, line) == StringFrom(s, st, i + 1, line);
    assert StringFrom(s, st, i + 1, line) == StringUpTo(s, st, j, line);
    assert StringUpTo(s, st, j, line) == Resume(s, String, st, j + 1, line);
  }

  /** A string that is never closed runs to the end of input; an empty
      EOF token follows it. */
  lemma StringUnclosed(s: string, st: nat, i: nat, line: nat)
    requires st <= i < |s| && s[i] == '"'
    requires forall m :: i < m < |s| ==> InString(s[m])
    ensures ScanFrom(s, st, i, line) ==
      Scan([Span(MalformedString, st, |s|, line), Span(EOF, |s|, |s|, line)], false)
  {
    RunEndIs(s, i + 1, |s|, StringRunes);
    assert LeadAt(s, i) == Quoted;
    assert ScanFrom(s, st, i, line) == StringFrom(s, st, i + 1, line);
  }

  /** A sentinel rune inside a string ends the scan with a malformed
      string and an empty EOF token. */
  lemma StringCutShort(s: string, st: nat, i: nat, j: nat, line: nat)
    requires st <= i < j < |s| && s[i] == '"' && s[j] == EofRune
    requires forall m :: i < m < j ==> InString(s[m])
    ensures ScanFrom(s, st, i, line) ==
      Scan([Span(MalformedString, st, j + 1, line), Span(EOF, j + 1, j + 1, line)], false)
  {
    RunEndIs(s, i + 1, j, StringRunes);
    assert LeadAt(s, i) == Quoted;
    assert ScanFrom(s, st, i, line) == StringFrom(s, st, i + 1, line);
    assert StringFrom(s, st, i + 1, line) == StringUpTo(s, st, j, line);
    assert StringUpTo(s, st, j, line) == Final(s, MalformedString, st, j + 1, line);
  }

  // ---------------------------------------------------------------------
  // Character literals

  /** A quote followed by a letter or digit is a character literal of
      three runes (two at the end of input); the closing quote is never
      checked. */
  lemma CharLiteral(s: string, st: nat, i: nat, line: nat)
    requires st <= i && i + 1 < |s| && s[i] == '\'' && (IsLetter(s[i + 1]) || IsDigit(s[i + 1]))
    ensures var e := if i + 2 < |s| then i + 3 else i + 2;
      ScanFrom(s, st, i, line) == Cons(Span(Char, st, e, line), ScanFrom(s, e, e, line))
  {
    assert LeadAt(s, i) == Quote;
    var e := if i + 2 < |s| then i + 3 else i + 2;
    assert ScanFrom(s, st, i, line) == CharFrom(s, st, i + 2, line);
    assert CharFrom(s, st, i + 2, line) == Resume(s, Char, st, e, line);
  }

  /** Any other quote is a malformed character literal of one rune. */
  lemma LoneQuote(s: string, st: nat, i: nat, line: nat)
    requires st <= i < |s| && s[i] == '\'' && !(i + 1 < |s| && (IsLetter(s[i + 1]) || IsDigit(s[i + 1])))
    ensures ScanFrom(s, st, i, line) == Cons(Span(MalformedChar, st, i + 1, line), ScanFrom(s, i + 1, i + 1, line))
  {
    assert LeadAt(s, i) == Quote;
  }

  /** So "'ab'" is the character literal "'ab" followed by a malformed
      one, "'", when nothing that starts a literal follows. */
  lemma TwoRuneChar(s: string, st: nat, i: nat, line: nat)
    requires st <= i && i + 3 < |s| && s[i] == '\'' && IsLetter(s[i + 1]) && s[i + 3] == '\''
    requires !(i + 4 < |s| && (IsLetter(s[i + 4]) || IsDigit(s[i + 4])))
    ensures ScanFrom(s, st, i, line) ==
      Cons(Span(Char, st, i + 3, line), Cons(Span(MalformedChar, i + 3, i + 4, line), ScanFrom(s, i + 4, i + 4, line)))
  {
    CharLiteral(s, st, i, line);
    LoneQuote(s, i + 3, i + 3, line);
  }

  // ---------------------------------------------------------------------
  // Numbers

  /** The digits in [i, j) form a maximal run. */
  predicate DigitRun(s: string, i: nat, j: nat) {
    && i < j <= |s|
    && (forall m :: i <= m < j ==> IsNumber(s[m]))
    && (j == |s| || !IsNumber(s[j]))
  }

  lemma NumberLead(s: string, st: nat, i: nat, j: nat, line: nat)
    requires st <= i && DigitRun(s, i, j)
    ensures ScanFrom(s, st, i, line) == NumberFrom(s, st, i + 1, line)
    ensures RunEnd(s, i + 1, Numerals) == j
  {
    RunEndIs(s, i + 1, j, Numerals);
    assert LeadAt(s, i) == Numeral;
  }

  /** A run of digits not followed by '.' is a number. */
  lemma WholeNumber(s: string, st: nat, i: nat, j: nat, line: nat)
    requires st <= i && DigitRun(s, i, j) && (j == |s| || s[j] != '.')
    ensures ScanFrom(s, st, i, line) == Cons(Span(Number, st, j, line), ScanFrom(s, j, j, line))
  {
    NumberLead(s, st, i, j, line);
  }

  /** Digits, '.', digits is one number. */
  lemma FractionNumber(s: string, st: nat, i: nat, j: nat, k: nat, line: nat)
    requires st <= i && DigitRun(s, i, j) && j < |s| && s[j] == '.' && DigitRun(s, j + 1, k)
    ensures ScanFrom(s, st, i, line) == Cons(Span(Number, st, k, line), ScanFrom(s, k, k, line))
  {
    NumberLead(s, st, i, j, line);
    RunEndIs(s, j + 1, k, Numerals);
  }

  /** Digits and a '.' that ends the input: a malformed number including
      the '.', then a number with an empty lexeme, then an empty EOF. */
  lemma DotAtEnd(s: string, st: nat, i: nat, line: nat)
    requires 0 < |s| && st <= i && DigitRun(s, i, |s| - 1) && s[|s| - 1] == '.'
    ensures ScanFrom(s, st, i, line) ==
      Scan([Span(MalformedNumber, st, |s|, line), Span(Number, |s|, |s|, line), Span(EOF, |s|, |s|, line)], false)
  {
    NumberLead(s, st, i, |s| - 1, line);
    NumberDotAtEndScan(s, st, i + 1, line);
    assert ScanFrom(s, |s|, |s|, line) == Scan([Span(EOF, |s|, |s|, line)], false);
  }

  /** Digits and a '.' followed by anything but a digit: the source emits
      a malformed number without the '.', then backs up before the start
      of the next lexeme and panics. The scan breaks off there. */
  lemma DotCrash(s: string, st: nat, i: nat, j: nat, line: nat)
    requires st <= i && DigitRun(s, i, j) && j + 1 < |s| && s[j] == '.' && !IsNumber(s[j + 1])
    ensures ScanFrom(s, st, i, line) == Scan([Span(MalformedNumber, st, j, line)], true)
  {
    NumberLead(s, st, i, j, line);
  }
}
