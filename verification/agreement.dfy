/** The cursor machine and the span description agree: on every input,
    `Lex` delivers exactly the tokens the spans of `Scanned` cut out of it,
    and it panics exactly when the description breaks off. */
module Agreement {
  import opened Tokens
  import opened Scanner
  import opened Reference

  /** The text a span cuts out of `s`; a span outside `s` cuts nothing
      (no span of a sound scan is). */
  function Cut(s: string, from: nat, to: nat): (w: string)
    ensures from <= to <= |s| ==> w == s[from..to]
  {
    if from <= to <= |s| then s[from..to] else []
  }

  function TokenOf(s: string, sp: Span): Token {
    Token(sp.kind, Cut(s, sp.from, sp.to), sp.line)
  }

  /** The tokens the spans cut out of `s`. */
  function TokensOf(s: string, spans: seq<Span>): (ts: seq<Token>)
    ensures |ts| == |spans|
    ensures forall k :: 0 <= k < |ts| ==> ts[k] == TokenOf(s, spans[k])
  {
    seq(|spans|, k requires 0 <= k < |spans| => TokenOf(s, spans[k]))
  }

  /** The outcome a scan describes, after the tokens `acc` already delivered. */
  function Render(s: string, acc: seq<Token>, r: Scan): (o: Outcome)
    ensures o.tokens == acc + TokensOf(s, r.spans)
    ensures o.Crash? <==> r.crashed
  {
    if r.crashed then Crash(acc + TokensOf(s, r.spans)) else Ok(acc + TokensOf(s, r.spans))
  }

  lemma RenderCons(s: string, acc: seq<Token>, sp: Span, r: Scan)
    ensures Render(s, acc, Cons(sp, r)) == Render(s, acc + [TokenOf(s, sp)], r)
  {
    var c := Cons(sp, r);
    assert forall k :: 1 <= k < |c.spans| ==> c.spans[k] == r.spans[k - 1];
    assert TokensOf(s, c.spans) == [TokenOf(s, sp)] + TokensOf(s, r.spans);
  }

  /** Facts about the input that hold whenever the source enters a state
      (beyond `Ready`), and that fix which operator the state reads. */
  predicate Reach(l: Lexer, st: State) {
    match st
    case ScanArithmetic => 0 <= l.pos < |l.input| && l.input[l.pos] in "+-"
    case ScanRelational => 0 <= l.pos < |l.input| && l.input[l.pos] in "=><"
    case _ => true
  }

  /** What running the machine from state `st` delivers, in terms of the
      span description. */
  ghost function Expected(l: Lexer, st: State): Outcome
    requires Valid(l) && Ready(l, st) && Reach(l, st)
  {
    var s := l.input;
    var line := l.line as nat;
    var r := match st
      case ScanText => ScanFrom(s, l.start, l.pos, line)
      case ScanLetter => WordFrom(s, l.start, l.pos, line)
      case ScanIdentifier => Resume(s, WordKind(s[l.start..l.pos]), l.start, l.pos, line)
      case ScanNumber => NumberFrom(s, l.start, l.pos, line)
      case ScanArithmetic => Resume(s, ArithmeticOp, l.start, ArithmeticEnd(s, l.pos), line)
      case ScanComment => CommentFrom(s, l.start, l.pos, line)
      case ScanRelational =>
        var (kind, e) := RelationalOperator(s, l.pos);
        Resume(s, kind, l.start, e, line)
      case ScanDelimiter => Resume(s, Delimiter, l.start, l.pos + 1, line)
      case ScanChar => CharFrom(s, l.start, l.pos, line)
      case ScanString => StringFrom(s, l.start, l.pos, line)
      case ScanLogical =>
        var (kind, e) := LogicalOperator(s, l.pos);
        Resume(s, kind, l.start, e, line);
    Render(s, l.out, r)
  }

  /** Running the machine from any state it can be in delivers what the
      span description says. */
  lemma {:induction false} RunAgrees(l: Lexer, st: State)
    requires Valid(l) && Ready(l, st) && Reach(l, st)
    ensures Run(l, st) == Expected(l, st)
    decreases |l.input| - l.pos, Rank(st), 2
  {
    match st
    case ScanText => TextAgrees(l);
    case ScanLetter => LetterAgrees(l);
    case ScanIdentifier => IdentifierAgrees(l);
    case ScanNumber => NumberAgrees(l);
    case ScanArithmetic => ArithmeticAgrees(l);
    case ScanComment => CommentAgrees(l);
    case ScanRelational => RelationalAgrees(l);
    case ScanDelimiter => DelimiterAgrees(l);
    case ScanChar => CharAgrees(l);
    case ScanString => StringAgrees(l);
    case ScanLogical => LogicalAgrees(l);
  }

  // ---------------------------------------------------------------------
  // Three ways a state function can continue, each reduced to the claim
  // for the state it continues in.

  /** The machine moves to state `st'` at `l'`, which the description
      continues from unchanged. */
  lemma {:induction false} Chain(l: Lexer, st: State, l': Lexer, st': State)
    requires Valid(l) && Ready(l, st) && Reach(l, st)
    requires Dispatch(l, st) == Goto(l', st') && Reach(l', st')
    requires Expected(l', st') == Expected(l, st)
    ensures Run(l, st) == Expected(l, st)
    decreases |l.input| - l'.pos, Rank(st'), 3
  {
    RunAgrees(l', st');
  }

  /** `l'` is `l` after emitting `input[start..e]` as a `kind` token, with
      any width. */
  predicate AfterToken(l: Lexer, kind: Kind, e: nat, l': Lexer)
    requires CanSlice(l) && l.start <= e <= |l.input|
  {
    l' == l.(pos := e, start := e, out := l.out + [Token(kind, l.input[l.start..e], l.line)], width := l'.width)
  }

  /** The machine emits one token and returns to `lexText`; the
      description says that token, then the rest of a scan from its end. */
  lemma {:induction false} TokenThenText(l: Lexer, st: State, kind: Kind, e: nat)
    requires Valid(l) && Ready(l, st) && Reach(l, st)
    requires l.start <= e <= |l.input| && Emittable(kind) && kind != EOF
    requires Dispatch(l, st).Goto? && Dispatch(l, st).next == ScanText
    requires AfterToken(l, kind, e, Dispatch(l, st).l)
    requires Expected(l, st) == Render(l.input, l.out, Resume(l.input, kind, l.start, e, l.line as nat))
    ensures Run(l, st) == Expected(l, st)
    decreases |l.input| - e, Rank(ScanText), 3
  {
    var l' := Dispatch(l, st).l;
    RunAgrees(l', ScanText);
    var s := l.input;
    var line := l.line as nat;
    RenderCons(s, l.out, Span(kind, l.start, e, line), ScanFrom(s, e, e, line));
  }

  /** The machine's loop inside one state function takes another turn, and
      the description is the same from the later position. */
  lemma {:induction false} Loop(l: Lexer, st: State, l': Lexer)
    requires Valid(l) && Ready(l, st) && Reach(l, st)
    requires Valid(l') && Ready(l', st) && Reach(l', st) && l'.input == l.input && l'.pos > l.pos
    requires Dispatch(l, st) == Dispatch(l', st)
    requires Expected(l', st) == Expected(l, st)
    ensures Run(l, st) == Expected(l, st)
    decreases |l.input| - l'.pos, Rank(st), 3
  {
    RunAgrees(l', st);
  }

  /** The tokens of a final two-span scan. */
  lemma FinalTokens(s: string, kind: Kind, st: nat, e: nat, line: nat)
    requires st <= e <= |s| && Emittable(kind) && kind != EOF
    ensures TokensOf(s, Final(s, kind, st, e, line).spans) == [Token(kind, s[st..e], line), Token(EOF, s[e..e], line)]
  {
  }

  // ---------------------------------------------------------------------
  // lexText

  /** The case of the switch in `lexText` that the rune at `i` selects,
      for each way the description classifies it. */
  lemma CaseMatchesLead(s: string, i: nat)
    requires i < |s|
    ensures match LeadAt(s, i)
      case Word => CaseOf(s[i]) == LetterCase
      case Space => CaseOf(s[i]) == SpaceCase
      case Numeral => CaseOf(s[i]) == NumberCase
      case Logical => CaseOf(s[i]) == LogicalCase
      case Relational => CaseOf(s[i]) == RelationalCase
      case Delimiting => CaseOf(s[i]) == DelimiterCase
      case Quote => CaseOf(s[i]) == QuoteCase
      case Quoted => CaseOf(s[i]) == DoubleQuoteCase
      case Comment => CaseOf(s[i]) == SlashOrStarCase
      case Operator => CaseOf(s[i]) == if s[i] in "/*" then SlashOrStarCase else ArithmeticCase
      case Sentinel => CaseOf(s[i]) == EofCase
      case Other => CaseOf(s[i]) == NoCase
      case AtEnd => false
  {
    var c := s[i];
    assert c in "&|!" <==> c == '&' || c == '|' || c == '!';
    assert c in "=!><" <==> c == '=' || c == '!' || c == '>' || c == '<';
    assert c in "+-*" <==> c == '+' || c == '-' || c == '*';
    DelimiterClass(c);
  }

  lemma {:induction false} TextAgrees(l: Lexer)
    requires Valid(l)
    ensures Run(l, ScanText) == Expected(l, ScanText)
    decreases |l.input| - l.pos, Rank(ScanText), 1
  {
    var s := l.input;
    var i := l.pos;
    if i == |s| {
      TextAtEnd(l);
    } else {
      CaseMatchesLead(s, i);
      match LeadAt(s, i)
      case Word => TextLetter(l);
      case Space => TextSpace(l);
      case Numeral => TextNumber(l);
      case Logical => TextLogical(l);
      case Relational => TextRelational(l);
      case Delimiting => TextDelimiter(l);
      case Quote =>
        if i + 1 < |s| && (IsLetter(s[i + 1]) || IsDigit(s[i + 1])) { TextCharLiteral(l); } else { TextLoneQuote(l); }
      case Quoted => TextString(l);
      case Comment => TextComment(l);
      case Operator =>
        if s[i] in "/*" { TextSlashOrStar(l); } else { TextArithmetic(l); }
      case Sentinel => TextSentinel(l);
      case Other => TextPending(l);
    }
  }

  /** `l` after reading the rune at its cursor. */
  function Read(l: Lexer): Lexer {
    l.(pos := l.pos + 1, width := 1)
  }

  /** At end of input the scan stops with an EOF token holding the
      pending text. */
  lemma {:induction false} TextAtEnd(l: Lexer)
    requires Valid(l) && l.pos == |l.input|
    ensures Run(l, ScanText) == Expected(l, ScanText)
  {
    var s := l.input;
    var i := l.pos;
    var line := l.line as nat;
    TextAtEndMachine(l);
    assert TokensOf(s, [Span(EOF, l.start, i, line)]) == [Token(EOF, s[l.start..i], line)];
  }

  lemma TextAtEndMachine(l: Lexer)
    requires Valid(l) && l.pos == |l.input|
    ensures LexText(l) == Stop(Emit(l.(width := 0), EOF))
  {
    assert Next(l) == (EofRune, l.(width := 0));
    SentinelCase();
    EofMachine(l);
  }

  /** Whatever reads as the sentinel stops the scan with an EOF token. */
  lemma EofMachine(l: Lexer)
    requires Valid(l) && CaseOf(Next(l).0) == EofCase
    ensures LexText(l) == Stop(Emit(Next(l).1, EOF))
  {
  }

  /** A literal sentinel rune stops the scan the same way. */
  lemma {:induction false} TextSentinel(l: Lexer)
    requires Valid(l) && l.pos < |l.input| && CaseOf(l.input[l.pos]) == EofCase && LeadAt(l.input, l.pos) == Sentinel
    ensures Run(l, ScanText) == Expected(l, ScanText)
  {
    TextSentinelMachine(l);
    TextSentinelDescribed(l);
  }

  lemma TextSentinelMachine(l: Lexer)
    requires Valid(l) && l.pos < |l.input| && CaseOf(l.input[l.pos]) == EofCase
    ensures LexText(l) == Stop(Emit(Read(l), EOF))
  {
    assert Next(l) == (l.input[l.pos], Read(l));
    EofMachine(l);
  }

  lemma TextSentinelDescribed(l: Lexer)
    requires Valid(l) && LeadAt(l.input, l.pos) == Sentinel
    ensures Expected(l, ScanText) == Ok(l.out + [Token(EOF, l.input[l.start..l.pos + 1], l.line)])
  {
    var s := l.input;
    var i := l.pos;
    var line := l.line as nat;
    assert TokensOf(s, [Span(EOF, l.start, i + 1, line)]) == [Token(EOF, s[l.start..i + 1], line)];
  }

  /** A letter starts a word. */
  lemma {:induction false} TextLetter(l: Lexer)
    requires Valid(l) && l.pos < |l.input| && CaseOf(l.input[l.pos]) == LetterCase && LeadAt(l.input, l.pos) == Word
    ensures Run(l, ScanText) == Expected(l, ScanText)
    decreases |l.input| - l.pos, Rank(ScanText), 0
  {
    TextLetterMachine(l);
    TextLetterDescribed(l);
    Chain(l, ScanText, Read(l), ScanLetter);
  }

  lemma TextLetterMachine(l: Lexer)
    requires Valid(l) && l.pos < |l.input| && CaseOf(l.input[l.pos]) == LetterCase
    ensures LexText(l) == Goto(Read(l), ScanLetter)
  {
    assert Next(l) == (l.input[l.pos], Read(l));
  }

  lemma TextLetterDescribed(l: Lexer)
    requires Valid(l) && LeadAt(l.input, l.pos) == Word
    ensures Expected(l, ScanText) == Expected(Read(l), ScanLetter)
  {
  }

  /** A digit starts a number. */
  lemma {:induction false} TextNumber(l: Lexer)
    requires Valid(l) && l.pos < |l.input| && CaseOf(l.input[l.pos]) == NumberCase && LeadAt(l.input, l.pos) == Numeral
    ensures Run(l, ScanText) == Expected(l, ScanText)
    decreases |l.input| - l.pos, Rank(ScanText), 0
  {
    TextNumberMachine(l);
    TextNumberDescribed(l);
    Chain(l, ScanText, Read(l), ScanNumber);
  }

  lemma TextNumberMachine(l: Lexer)
    requires Valid(l) && l.pos < |l.input| && CaseOf(l.input[l.pos]) == NumberCase
    ensures LexText(l) == Goto(Read(l), ScanNumber)
  {
    assert Next(l) == (l.input[l.pos], Read(l));
  }

  lemma TextNumberDescribed(l: Lexer)
    requires Valid(l) && LeadAt(l.input, l.pos) == Numeral
    ensures Expected(l, ScanText) == Expected(Read(l), ScanNumber)
  {
  }

  /** A double quote starts a string literal. */
  lemma {:induction false} TextString(l: Lexer)
    requires Valid(l) && l.pos < |l.input| && CaseOf(l.input[l.pos]) == DoubleQuoteCase && LeadAt(l.input, l.pos) == Quoted
    ensures Run(l, ScanText) == Expected(l, ScanText)
    decreases |l.input| - l.pos, Rank(ScanText), 0
  {
    TextStringMachine(l);
    TextStringDescribed(l);
    Chain(l, ScanText, Read(l), ScanString);
  }

  lemma TextStringMachine(l: Lexer)
    requires Valid(l) && l.pos < |l.input| && CaseOf(l.input[l.pos]) == DoubleQuoteCase
    ensures LexText(l) == Goto(Read(l), ScanString)
  {
    assert Next(l) == (l.input[l.pos], Read(l));
  }

  lemma TextStringDescribed(l: Lexer)
    requires Valid(l) && LeadAt(l.input, l.pos) == Quoted
    ensures Expected(l, ScanText) == Expected(Read(l), ScanString)
  {
  }

  /** "/#" starts a block comment. */
  lemma {:induction false} TextComment(l: Lexer)
    requires Valid(l) && l.pos < |l.input| && CaseOf(l.input[l.pos]) == SlashOrStarCase && l.input[l.pos] == '/' && l.pos + 1 < |l.input| && l.input[l.pos + 1] == '#' && LeadAt(l.input, l.pos) == Comment
    ensures Run(l, ScanText) == Expected(l, ScanText)
    decreases |l.input| - l.pos, Rank(ScanText), 0
  {
    TextCommentMachine(l);
    TextCommentDescribed(l);
    Chain(l, ScanText, Read(l), ScanComment);
  }

  lemma TextCommentMachine(l: Lexer)
    requires Valid(l) && l.pos < |l.input| && CaseOf(l.input[l.pos]) == SlashOrStarCase && l.input[l.pos] == '/' && l.pos + 1 < |l.input| && l.input[l.pos + 1] == '#'
    ensures LexText(l) == Goto(Read(l), ScanComment)
  {
    assert Next(l) == (l.input[l.pos], Read(l));
    assert LexText(l) == LexSlashOrStar(Read(l), '/');
    assert Peek(Read(l)) == ('#', Read(l));
  }

  lemma TextCommentDescribed(l: Lexer)
    requires Valid(l) && LeadAt(l.input, l.pos) == Comment && l.input[l.pos] == '/' && l.pos + 1 < |l.input| && l.input[l.pos + 1] == '#'
    ensures Expected(l, ScanText) == Expected(Read(l), ScanComment)
  {
  }

  /** '&', '|' and '!' are backed up over and handed to the logical-operator state. */
  lemma {:induction false} TextLogical(l: Lexer)
    requires Valid(l) && l.pos < |l.input| && CaseOf(l.input[l.pos]) == LogicalCase && LeadAt(l.input, l.pos) == Logical
    ensures Run(l, ScanText) == Expected(l, ScanText)
    decreases |l.input| - l.pos, Rank(ScanText), 0
  {
    TextLogicalMachine(l);
    TextLogicalDescribed(l);
    Chain(l, ScanText, l.(width := 1), ScanLogical);
  }

  lemma TextLogicalMachine(l: Lexer)
    requires Valid(l) && l.pos < |l.input| && CaseOf(l.input[l.pos]) == LogicalCase
    ensures LexText(l) == Goto(l.(width := 1), ScanLogical)
  {
    assert Next(l) == (l.input[l.pos], Read(l));
  }

  lemma TextLogicalDescribed(l: Lexer)
    requires Valid(l) && LeadAt(l.input, l.pos) == Logical
    ensures Expected(l, ScanText) == Expected(l.(width := 1), ScanLogical)
  {
  }

  /** '=', '>' and '<' are handed to the relational-operator state. */
  lemma {:induction false} TextRelational(l: Lexer)
    requires Valid(l) && l.pos < |l.input| && CaseOf(l.input[l.pos]) == RelationalCase && LeadAt(l.input, l.pos) == Relational
    ensures Run(l, ScanText) == Expected(l, ScanText)
    decreases |l.input| - l.pos, Rank(ScanText), 0
  {
    TextRelationalMachine(l);
    TextRelationalDescribed(l);
    Chain(l, ScanText, l.(width := 1), ScanRelational);
  }

  lemma TextRelationalMachine(l: Lexer)
    requires Valid(l) && l.pos < |l.input| && CaseOf(l.input[l.pos]) == RelationalCase
    ensures LexText(l) == Goto(l.(width := 1), ScanRelational)
  {
    assert Next(l) == (l.input[l.pos], Read(l));
  }

  lemma TextRelationalDescribed(l: Lexer)
    requires Valid(l) && LeadAt(l.input, l.pos) == Relational
    ensures Expected(l, ScanText) == Expected(l.(width := 1), ScanRelational)
  {
  }

  /** A delimiter is handed to the delimiter state. */
  lemma {:induction false} TextDelimiter(l: Lexer)
    requires Valid(l) && l.pos < |l.input| && CaseOf(l.input[l.pos]) == DelimiterCase && LeadAt(l.input, l.pos) == Delimiting
    ensures Run(l, ScanText) == Expected(l, ScanText)
    decreases |l.input| - l.pos, Rank(ScanText), 0
  {
    TextDelimiterMachine(l);
    TextDelimiterDescribed(l);
    Chain(l, ScanText, l.(width := 1), ScanDelimiter);
  }

  lemma TextDelimiterMachine(l: Lexer)
    requires Valid(l) && l.pos < |l.input| && CaseOf(l.input[l.pos]) == DelimiterCase
    ensures LexText(l) == Goto(l.(width := 1), ScanDelimiter)
  {
    assert Next(l) == (l.input[l.pos], Read(l));
  }

  lemma TextDelimiterDescribed(l: Lexer)
    requires Valid(l) && LeadAt(l.input, l.pos) == Delimiting
    ensures Expected(l, ScanText) == Expected(l.(width := 1), ScanDelimiter)
  {
  }

  /** '+' and '-' are handed to the arithmetic-operator state. */
  lemma {:induction false} TextArithmetic(l: Lexer)
    requires Valid(l) && l.pos < |l.input| && CaseOf(l.input[l.pos]) == ArithmeticCase && l.input[l.pos] in "+-" && LeadAt(l.input, l.pos) == Operator
    ensures Run(l, ScanText) == Expected(l, ScanText)
    decreases |l.input| - l.pos, Rank(ScanText), 0
  {
    TextArithmeticMachine(l);
    TextArithmeticDescribed(l);
    Chain(l, ScanText, l.(width := 1), ScanArithmetic);
  }

  lemma TextArithmeticMachine(l: Lexer)
    requires Valid(l) && l.pos < |l.input| && CaseOf(l.input[l.pos]) == ArithmeticCase && l.input[l.pos] in "+-"
    ensures LexText(l) == Goto(l.(width := 1), ScanArithmetic)
  {
    assert Next(l) == (l.input[l.pos], Read(l));
  }

  lemma TextArithmeticDescribed(l: Lexer)
    requires Valid(l) && LeadAt(l.input, l.pos) == Operator && l.input[l.pos] in "+-"
    ensures Expected(l, ScanText) == Expected(l.(width := 1), ScanArithmetic)
  {
  }

  /** A quote followed by a letter or digit starts a character literal. */
  lemma {:induction false} TextCharLiteral(l: Lexer)
    requires Valid(l) && l.pos < |l.input| && CaseOf(l.input[l.pos]) == QuoteCase && l.pos + 1 < |l.input| && (IsLetter(l.input[l.pos + 1]) || IsDigit(l.input[l.pos + 1])) && LeadAt(l.input, l.pos) == Quote
    ensures Run(l, ScanText) == Expected(l, ScanText)
    decreases |l.input| - l.pos, Rank(ScanText), 0
  {
    TextCharLiteralMachine(l);
    TextCharLiteralDescribed(l);
    Chain(l, ScanText, l.(pos := l.pos + 2, width := 1), ScanChar);
  }

  lemma TextCharLiteralMachine(l: Lexer)
    requires Valid(l) && l.pos < |l.input| && CaseOf(l.input[l.pos]) == QuoteCase && l.pos + 1 < |l.input| && (IsLetter(l.input[l.pos + 1]) || IsDigit(l.input[l.pos + 1]))
    ensures LexText(l) == Goto(l.(pos := l.pos + 2, width := 1), ScanChar)
  {
    assert Next(l) == (l.input[l.pos], Read(l));
    QuoteStep(l);
    QuoteMachine(Read(l));
  }

  /** Whatever reads as a quote is handed to the quote case. */
  lemma QuoteStep(l: Lexer)
    requires Valid(l) && CaseOf(Next(l).0) == QuoteCase
    ensures LexText(l) == LexQuote(Next(l).1)
  {
  }

  /** After the quote, a letter or digit is read as the literal's rune. */
  lemma QuoteMachine(l: Lexer)
    requires Valid(l) && l.pos < |l.input| && (IsLetter(l.input[l.pos]) || IsDigit(l.input[l.pos]))
    ensures LexQuote(l) == Goto(Read(l), ScanChar)
  {
    assert Peek(l) == (l.input[l.pos], Read(l).(pos := l.pos));
    assert Next(l.(width := 1)) == (l.input[l.pos], Read(l));
  }

  lemma TextCharLiteralDescribed(l: Lexer)
    requires Valid(l) && LeadAt(l.input, l.pos) == Quote && l.pos + 1 < |l.input| && (IsLetter(l.input[l.pos + 1]) || IsDigit(l.input[l.pos + 1]))
    ensures Expected(l, ScanText) == Expected(l.(pos := l.pos + 2, width := 1), ScanChar)
  {
  }

  /** Whitespace is dropped together with the pending text; a newline
      counts a line. */
  lemma {:induction false} TextSpace(l: Lexer)
    requires Valid(l) && l.pos < |l.input| && CaseOf(l.input[l.pos]) == SpaceCase && LeadAt(l.input, l.pos) == Space
    ensures Run(l, ScanText) == Expected(l, ScanText)
    decreases |l.input| - l.pos, Rank(ScanText), 0
  {
    TextSpaceMachine(l);
    TextSpaceDescribed(l);
    Loop(l, ScanText, AfterSpace(l));
  }

  /** `l` after a whitespace rune: the pending text is dropped. */
  function AfterSpace(l: Lexer): (l': Lexer)
    requires Valid(l) && l.pos < |l.input|
    ensures Valid(l') && l'.input == l.input && l'.pos == l.pos + 1 && l'.start == l'.pos
  {
    SkipSpace(Read(l), l.input[l.pos])
  }

  lemma TextSpaceMachine(l: Lexer)
    requires Valid(l) && l.pos < |l.input| && CaseOf(l.input[l.pos]) == SpaceCase
    ensures LexText(l) == LexText(AfterSpace(l))
  {
    assert Next(l) == (l.input[l.pos], Read(l));
  }

  lemma TextSpaceDescribed(l: Lexer)
    requires Valid(l) && LeadAt(l.input, l.pos) == Space
    ensures Expected(l, ScanText) == Expected(AfterSpace(l), ScanText)
  {
  }

  /** A rune that starts no lexeme stays pending. */
  lemma {:induction false} TextPending(l: Lexer)
    requires Valid(l) && l.pos < |l.input| && CaseOf(l.input[l.pos]) == NoCase && LeadAt(l.input, l.pos) == Other
    ensures Run(l, ScanText) == Expected(l, ScanText)
    decreases |l.input| - l.pos, Rank(ScanText), 0
  {
    TextPendingMachine(l);
    TextPendingDescribed(l);
    Loop(l, ScanText, Read(l));
  }

  lemma TextPendingMachine(l: Lexer)
    requires Valid(l) && l.pos < |l.input| && CaseOf(l.input[l.pos]) == NoCase
    ensures LexText(l) == LexText(Read(l))
  {
    assert Next(l) == (l.input[l.pos], Read(l));
  }

  lemma TextPendingDescribed(l: Lexer)
    requires Valid(l) && LeadAt(l.input, l.pos) == Other
    ensures Expected(l, ScanText) == Expected(Read(l), ScanText)
  {
  }

  /** '/' not opening a comment, and '*', are emitted without leaving the
      loop of `lexText`. */
  lemma {:induction false} TextSlashOrStar(l: Lexer)
    requires Valid(l) && l.pos < |l.input| && CaseOf(l.input[l.pos]) == SlashOrStarCase && l.input[l.pos] in "/*" && !(l.input[l.pos] == '/' && l.pos + 1 < |l.input| && l.input[l.pos + 1] == '#') && LeadAt(l.input, l.pos) == Operator
    ensures Run(l, ScanText) == Expected(l, ScanText)
    decreases |l.input| - l.pos, Rank(ScanText), 0
  {
    TextSlashOrStarMachine(l);
    TextSlashOrStarDescribed(l);
    Loop(l, ScanText, AfterSlashOrStar(l));
  }

  /** `l` after '/' or '*' has been emitted inside `lexText`. */
  function AfterSlashOrStar(l: Lexer): (l': Lexer)
    requires Valid(l) && l.pos < |l.input|
    ensures Valid(l') && l'.input == l.input && l'.pos == l.pos + 1
  {
    var w := if l.input[l.pos] == '/' && l.pos + 1 == |l.input| then 0 else 1;
    Emit(l.(pos := l.pos + 1, width := w), ArithmeticOp)
  }

  lemma TextSlashOrStarMachine(l: Lexer)
    requires Valid(l) && l.pos < |l.input| && CaseOf(l.input[l.pos]) == SlashOrStarCase && l.input[l.pos] in "/*" && !(l.input[l.pos] == '/' && l.pos + 1 < |l.input| && l.input[l.pos + 1] == '#')
    ensures LexText(l) == LexText(AfterSlashOrStar(l))
  {
    assert Next(l) == (l.input[l.pos], Read(l));
    assert LexText(l) == LexSlashOrStar(Read(l), l.input[l.pos]);
    if l.input[l.pos] == '/' {
      SlashMachine(Read(l));
    } else {
      StarMachine(Read(l));
    }
  }

  /** '/' not followed by '#' is an arithmetic operator. */
  lemma SlashMachine(l: Lexer)
    requires Valid(l) && 0 < l.pos && l.input[l.pos - 1] == '/' && !(l.pos < |l.input| && l.input[l.pos] == '#')
    ensures LexSlashOrStar(l, '/') == LexText(Emit(l.(width := if l.pos == |l.input| then 0 else 1), ArithmeticOp))
  {
    var w := if l.pos == |l.input| then 0 else 1;
    assert Peek(l) == (if l.pos == |l.input| then EofRune else l.input[l.pos], l.(width := w));
  }

  lemma StarMachine(l: Lexer)
    requires Valid(l)
    ensures LexSlashOrStar(l, '*') == LexText(Emit(l, ArithmeticOp))
  {
  }

  lemma TextSlashOrStarDescribed(l: Lexer)
    requires Valid(l) && LeadAt(l.input, l.pos) == Operator && l.input[l.pos] in "/*" && !(l.input[l.pos] == '/' && l.pos + 1 < |l.input| && l.input[l.pos + 1] == '#')
    ensures Expected(l, ScanText) == Expected(AfterSlashOrStar(l), ScanText)
  {
    SlashOrStarScan(l.input, l.start, l.pos, l.line as nat);
    RenderCons(l.input, l.out, Span(ArithmeticOp, l.start, l.pos + 1, l.line as nat), ScanFrom(l.input, l.pos + 1, l.pos + 1, l.line as nat));
  }

  /** A quote not followed by a letter or digit is a malformed character
      literal by itself. */
  lemma {:induction false} TextLoneQuote(l: Lexer)
    requires Valid(l) && l.pos < |l.input| && CaseOf(l.input[l.pos]) == QuoteCase && !(l.pos + 1 < |l.input| && (IsLetter(l.input[l.pos + 1]) || IsDigit(l.input[l.pos + 1]))) && LeadAt(l.input, l.pos) == Quote
    ensures Run(l, ScanText) == Expected(l, ScanText)
    decreases |l.input| - l.pos, Rank(ScanText), 0
  {
    TextLoneQuoteMachine(l);
    TextLoneQuoteDescribed(l);
    TokenThenText(l, ScanText, MalformedChar, l.pos + 1);
  }

  lemma TextLoneQuoteMachine(l: Lexer)
    requires Valid(l) && l.pos < |l.input| && CaseOf(l.input[l.pos]) == QuoteCase && !(l.pos + 1 < |l.input| && (IsLetter(l.input[l.pos + 1]) || IsDigit(l.input[l.pos + 1])))
    ensures Dispatch(l, ScanText).Goto? && Dispatch(l, ScanText).next == ScanText
    ensures AfterToken(l, MalformedChar, l.pos + 1, Dispatch(l, ScanText).l)
  {
    assert Next(l) == (l.input[l.pos], Read(l));
    QuoteStep(l);
  }

  lemma TextLoneQuoteDescribed(l: Lexer)
    requires Valid(l) && LeadAt(l.input, l.pos) == Quote && !(l.pos + 1 < |l.input| && (IsLetter(l.input[l.pos + 1]) || IsDigit(l.input[l.pos + 1])))
    ensures Expected(l, ScanText) == Render(l.input, l.out, Resume(l.input, MalformedChar, l.start, l.pos + 1, l.line as nat))
  {
  }

  // ---------------------------------------------------------------------
  // The other states

  /** The machine stops after one token and an empty EOF token, as a final
      two-span scan says. */
  lemma {:induction false} StopFinal(l: Lexer, st: State, kind: Kind, e: nat)
    requires Valid(l) && Ready(l, st) && Reach(l, st)
    requires l.start <= e <= |l.input| && Emittable(kind) && kind != EOF
    requires Dispatch(l, st).Stop?
    requires Dispatch(l, st).l.out == l.out + [Token(kind, l.input[l.start..e], l.line), Token(EOF, l.input[e..e], l.line)]
    requires Expected(l, st) == Render(l.input, l.out, Final(l.input, kind, l.start, e, l.line as nat))
    ensures Run(l, st) == Expected(l, st)
  {
    FinalTokens(l.input, kind, l.start, e, l.line as nat);
  }

  /** `acceptRun` over the digits stops where the run of number runes ends. */
  lemma {:induction false} AcceptDigits(l: Lexer)
    requires 0 <= l.pos <= |l.input|
    ensures AcceptRun(l, Digits).pos == RunEnd(l.input, l.pos, Numerals)
    decreases |l.input| - l.pos
  {
    if l.pos < |l.input| {
      DigitsAreNumbers(l.input[l.pos]);
      assert Next(l) == (l.input[l.pos], Read(l));
      if IsNumber(l.input[l.pos]) {
        AcceptDigits(Read(l));
      }
    }
  }

  function DigitsEnd(l: Lexer): (j: nat)
    requires Valid(l)
    ensures l.pos <= j <= |l.input|
  {
    RunEnd(l.input, l.pos, Numerals)
  }

  // lexLetter

  lemma {:induction false} LetterAgrees(l: Lexer)
    requires Valid(l) && Ready(l, ScanLetter) && Reach(l, ScanLetter)
    ensures Run(l, ScanLetter) == Expected(l, ScanLetter)
    decreases |l.input| - l.pos, Rank(ScanLetter), 1
  {
    var s := l.input;
    var i := l.pos;
    if i == |s| {
      LetterAtEnd(l);
    } else if s[i] == EofRune {
      LetterSentinel(l);
    } else if IsIdentifierRune(s[i]) {
      if i + 1 < |s| && IsIdentifierRune(s[i + 1]) { LetterMore(l); } else { LetterLast(l); }
    } else {
      LetterOther(l);
    }
  }

  /** At end of input the word is an identifier, followed by EOF. */
  lemma {:induction false} LetterAtEnd(l: Lexer)
    requires Valid(l) && Ready(l, ScanLetter) && Reach(l, ScanLetter) && l.pos == |l.input|
    ensures Run(l, ScanLetter) == Expected(l, ScanLetter)
  {
    LetterAtEndMachine(l);
    LetterAtEndDescribed(l);
    StopFinal(l, ScanLetter, Identifier, l.pos);
  }

  lemma LetterAtEndMachine(l: Lexer)
    requires Valid(l) && Ready(l, ScanLetter) && Reach(l, ScanLetter) && l.pos == |l.input|
    ensures Dispatch(l, ScanLetter).Stop?
    ensures Dispatch(l, ScanLetter).l.out == l.out + [Token(Identifier, l.input[l.start..l.pos], l.line), Token(EOF, l.input[l.pos..l.pos], l.line)]
  {
  }

  lemma LetterAtEndDescribed(l: Lexer)
    requires Valid(l) && Ready(l, ScanLetter) && Reach(l, ScanLetter) && l.pos == |l.input|
    ensures Expected(l, ScanLetter) == Render(l.input, l.out, Final(l.input, Identifier, l.start, l.pos, l.line as nat))
  {
  }

  /** A sentinel right after the word joins it, and the scan stops. */
  lemma {:induction false} LetterSentinel(l: Lexer)
    requires Valid(l) && Ready(l, ScanLetter) && Reach(l, ScanLetter) && l.pos < |l.input| && l.input[l.pos] == EofRune
    ensures Run(l, ScanLetter) == Expected(l, ScanLetter)
  {
    LetterSentinelMachine(l);
    LetterSentinelDescribed(l);
    StopFinal(l, ScanLetter, Identifier, l.pos + 1);
  }

  lemma LetterSentinelMachine(l: Lexer)
    requires Valid(l) && Ready(l, ScanLetter) && Reach(l, ScanLetter) && l.pos < |l.input| && l.input[l.pos] == EofRune
    ensures Dispatch(l, ScanLetter).Stop?
    ensures Dispatch(l, ScanLetter).l.out == l.out + [Token(Identifier, l.input[l.start..l.pos + 1], l.line), Token(EOF, l.input[l.pos + 1..l.pos + 1], l.line)]
  {
  }

  lemma LetterSentinelDescribed(l: Lexer)
    requires Valid(l) && Ready(l, ScanLetter) && Reach(l, ScanLetter) && l.pos < |l.input| && l.input[l.pos] == EofRune
    ensures Expected(l, ScanLetter) == Render(l.input, l.out, Final(l.input, Identifier, l.start, l.pos + 1, l.line as nat))
  {
  }

  /** Two more identifier runes: the word goes on. */
  lemma {:induction false} LetterMore(l: Lexer)
    requires Valid(l) && Ready(l, ScanLetter) && Reach(l, ScanLetter) && l.pos + 1 < |l.input| && IsIdentifierRune(l.input[l.pos]) && IsIdentifierRune(l.input[l.pos + 1])
    ensures Run(l, ScanLetter) == Expected(l, ScanLetter)
    decreases |l.input| - l.pos, Rank(ScanLetter), 0
  {
    LetterMoreMachine(l);
    LetterMoreDescribed(l);
    Chain(l, ScanLetter, l.(pos := l.pos + 1, width := 1), ScanLetter);
  }

  lemma LetterMoreMachine(l: Lexer)
    requires Valid(l) && Ready(l, ScanLetter) && Reach(l, ScanLetter) && l.pos + 1 < |l.input| && IsIdentifierRune(l.input[l.pos]) && IsIdentifierRune(l.input[l.pos + 1])
    ensures Dispatch(l, ScanLetter) == Goto(l.(pos := l.pos + 1, width := 1), ScanLetter)
  {
  }

  lemma LetterMoreDescribed(l: Lexer)
    requires Valid(l) && Ready(l, ScanLetter) && Reach(l, ScanLetter) && l.pos + 1 < |l.input| && IsIdentifierRune(l.input[l.pos]) && IsIdentifierRune(l.input[l.pos + 1])
    ensures Expected(l, ScanLetter) == Expected(l.(pos := l.pos + 1, width := 1), ScanLetter)
  {
    WordGoesOn(l.input, l.start, l.pos, l.line as nat);
  }

  /** The last identifier rune of a word of two or more. */
  lemma {:induction false} LetterLast(l: Lexer)
    requires Valid(l) && Ready(l, ScanLetter) && Reach(l, ScanLetter) && l.pos < |l.input| && IsIdentifierRune(l.input[l.pos]) && !(l.pos + 1 < |l.input| && IsIdentifierRune(l.input[l.pos + 1]))
    ensures Run(l, ScanLetter) == Expected(l, ScanLetter)
    decreases |l.input| - l.pos, Rank(ScanLetter), 0
  {
    LetterLastMachine(l);
    LetterLastDescribed(l);
    Chain(l, ScanLetter, l.(pos := l.pos + 1, width := if l.pos + 1 < |l.input| then 1 else 0), ScanIdentifier);
  }

  lemma LetterLastMachine(l: Lexer)
    requires Valid(l) && Ready(l, ScanLetter) && Reach(l, ScanLetter) && l.pos < |l.input| && IsIdentifierRune(l.input[l.pos]) && !(l.pos + 1 < |l.input| && IsIdentifierRune(l.input[l.pos + 1]))
    ensures Dispatch(l, ScanLetter) == Goto(l.(pos := l.pos + 1, width := if l.pos + 1 < |l.input| then 1 else 0), ScanIdentifier)
  {
  }

  lemma LetterLastDescribed(l: Lexer)
    requires Valid(l) && Ready(l, ScanLetter) && Reach(l, ScanLetter) && l.pos < |l.input| && IsIdentifierRune(l.input[l.pos]) && !(l.pos + 1 < |l.input| && IsIdentifierRune(l.input[l.pos + 1]))
    ensures Expected(l, ScanLetter) == Expected(l.(pos := l.pos + 1, width := if l.pos + 1 < |l.input| then 1 else 0), ScanIdentifier)
  {
    var s, line := l.input, l.line as nat;
    var l' := l.(pos := l.pos + 1, width := if l.pos + 1 < |l.input| then 1 else 0);
    WordEnds(s, l.start, l.pos, line);
    assert Expected(l, ScanLetter) == Render(s, l.out, WordFrom(s, l.start, l.pos, line));
    assert Expected(l', ScanIdentifier) ==
      Render(s, l.out, Resume(s, WordKind(s[l.start..l.pos + 1]), l.start, l.pos + 1, line));
  }

  /** A word of one letter is an identifier. */
  lemma {:induction false} LetterOther(l: Lexer)
    requires Valid(l) && Ready(l, ScanLetter) && Reach(l, ScanLetter) && l.pos < |l.input| && l.input[l.pos] != EofRune && !IsIdentifierRune(l.input[l.pos])
    ensures Run(l, ScanLetter) == Expected(l, ScanLetter)
    decreases |l.input| - l.pos, Rank(ScanLetter), 0
  {
    LetterOtherMachine(l);
    LetterOtherDescribed(l);
    TokenThenText(l, ScanLetter, Identifier, l.pos);
  }

  lemma LetterOtherMachine(l: Lexer)
    requires Valid(l) && Ready(l, ScanLetter) && Reach(l, ScanLetter) && l.pos < |l.input| && l.input[l.pos] != EofRune && !IsIdentifierRune(l.input[l.pos])
    ensures Dispatch(l, ScanLetter).Goto? && Dispatch(l, ScanLetter).next == ScanText
    ensures AfterToken(l, Identifier, l.pos, Dispatch(l, ScanLetter).l)
  {
  }

  lemma LetterOtherDescribed(l: Lexer)
    requires Valid(l) && Ready(l, ScanLetter) && Reach(l, ScanLetter) && l.pos < |l.input| && l.input[l.pos] != EofRune && !IsIdentifierRune(l.input[l.pos])
    ensures Expected(l, ScanLetter) == Render(l.input, l.out, Resume(l.input, Identifier, l.start, l.pos, l.line as nat))
  {
  }

  // lexIdentifier

  /** A finished word is a keyword or an identifier. */
  lemma {:induction false} IdentifierAgrees(l: Lexer)
    requires Valid(l) && Ready(l, ScanIdentifier) && Reach(l, ScanIdentifier)
    ensures Run(l, ScanIdentifier) == Expected(l, ScanIdentifier)
    decreases |l.input| - l.pos, Rank(ScanIdentifier), 0
  {
    IdentifierAgreesMachine(l);
    IdentifierAgreesDescribed(l);
    TokenThenText(l, ScanIdentifier, WordKind(l.input[l.start..l.pos]), l.pos);
  }

  lemma IdentifierAgreesMachine(l: Lexer)
    requires Valid(l) && Ready(l, ScanIdentifier) && Reach(l, ScanIdentifier)
    ensures Dispatch(l, ScanIdentifier).Goto? && Dispatch(l, ScanIdentifier).next == ScanText
    ensures AfterToken(l, WordKind(l.input[l.start..l.pos]), l.pos, Dispatch(l, ScanIdentifier).l)
  {
  }

  lemma IdentifierAgreesDescribed(l: Lexer)
    requires Valid(l) && Ready(l, ScanIdentifier) && Reach(l, ScanIdentifier)
    ensures Expected(l, ScanIdentifier) == Render(l.input, l.out, Resume(l.input, WordKind(l.input[l.start..l.pos]), l.start, l.pos, l.line as nat))
  {
  }

  // lexNumber

  lemma {:induction false} NumberAgrees(l: Lexer)
    requires Valid(l) && Ready(l, ScanNumber) && Reach(l, ScanNumber)
    ensures Run(l, ScanNumber) == Expected(l, ScanNumber)
    decreases |l.input| - l.pos, Rank(ScanNumber), 1
  {
    var s := l.input;
    var j := DigitsEnd(l);
    if j < |s| && s[j] == '.' {
      if j + 1 < |s| && IsNumber(s[j + 1]) { NumberFraction(l); }
      else if j + 1 == |s| { NumberDotAtEnd(l); }
      else { NumberCrash(l); }
    } else {
      NumberPlain(l);
    }
  }

  /** Digits not followed by '.'. */
  lemma {:induction false} NumberPlain(l: Lexer)
    requires Valid(l) && Ready(l, ScanNumber) && Reach(l, ScanNumber) && !(DigitsEnd(l) < |l.input| && l.input[DigitsEnd(l)] == '.')
    ensures Run(l, ScanNumber) == Expected(l, ScanNumber)
    decreases |l.input| - l.pos, Rank(ScanNumber), 0
  {
    NumberPlainMachine(l);
    NumberPlainDescribed(l);
    TokenThenText(l, ScanNumber, Number, DigitsEnd(l));
  }

  lemma NumberPlainMachine(l: Lexer)
    requires Valid(l) && Ready(l, ScanNumber) && Reach(l, ScanNumber) && !(DigitsEnd(l) < |l.input| && l.input[DigitsEnd(l)] == '.')
    ensures Dispatch(l, ScanNumber).Goto? && Dispatch(l, ScanNumber).next == ScanText
    ensures AfterToken(l, Number, DigitsEnd(l), Dispatch(l, ScanNumber).l)
  {
    var j := DigitsEnd(l);
    NumberStep(l);
    var l1 := AfterDigits(l);
    PlainMachine(l1);
  }


  lemma NumberPlainDescribed(l: Lexer)
    requires Valid(l) && Ready(l, ScanNumber) && Reach(l, ScanNumber) && !(DigitsEnd(l) < |l.input| && l.input[DigitsEnd(l)] == '.')
    ensures Expected(l, ScanNumber) == Render(l.input, l.out, Resume(l.input, Number, l.start, DigitsEnd(l), l.line as nat))
  {
  }

  /** Digits, '.', digits. */
  lemma {:induction false} NumberFraction(l: Lexer)
    requires Valid(l) && Ready(l, ScanNumber) && Reach(l, ScanNumber) && DigitsEnd(l) + 1 < |l.input| && l.input[DigitsEnd(l)] == '.' && IsNumber(l.input[DigitsEnd(l) + 1])
    ensures Run(l, ScanNumber) == Expected(l, ScanNumber)
    decreases |l.input| - l.pos, Rank(ScanNumber), 0
  {
    NumberFractionMachine(l);
    NumberFractionDescribed(l);
    TokenThenText(l, ScanNumber, Number, RunEnd(l.input, DigitsEnd(l) + 1, Numerals));
  }

  lemma NumberFractionMachine(l: Lexer)
    requires Valid(l) && Ready(l, ScanNumber) && Reach(l, ScanNumber) && DigitsEnd(l) + 1 < |l.input| && l.input[DigitsEnd(l)] == '.' && IsNumber(l.input[DigitsEnd(l) + 1])
    ensures Dispatch(l, ScanNumber).Goto? && Dispatch(l, ScanNumber).next == ScanText
    ensures AfterToken(l, Number, RunEnd(l.input, DigitsEnd(l) + 1, Numerals), Dispatch(l, ScanNumber).l)
  {
    var j := DigitsEnd(l);
    NumberStep(l);
    var l1 := AfterDigits(l);
    FractionMachine(l1);
    var e := RunEnd(l.input, j + 1, Numerals);
    var w := if e < |l.input| then 1 else 0;
    assert l1.(pos := e, width := w) == l.(pos := e, width := w);
  }


  lemma NumberFractionDescribed(l: Lexer)
    requires Valid(l) && Ready(l, ScanNumber) && Reach(l, ScanNumber) && DigitsEnd(l) + 1 < |l.input| && l.input[DigitsEnd(l)] == '.' && IsNumber(l.input[DigitsEnd(l) + 1])
    ensures Expected(l, ScanNumber) == Render(l.input, l.out, Resume(l.input, Number, l.start, RunEnd(l.input, DigitsEnd(l) + 1, Numerals), l.line as nat))
  {
  }

  /** Digits and a '.' that ends the input: the digits and the '.' are a
      malformed number, followed by an empty number. */
  lemma {:induction false} NumberDotAtEnd(l: Lexer)
    requires Valid(l) && DigitsEnd(l) + 1 == |l.input| && l.input[DigitsEnd(l)] == '.'
    ensures Run(l, ScanNumber) == Expected(l, ScanNumber)
    decreases |l.input| - l.pos, Rank(ScanNumber), 0
  {
    NumberDotAtEndMachine(l);
    NumberDotAtEndDescribed(l);
    RunAgrees(AfterDotAtEnd(l), ScanText);
  }

  /** `l` after a number whose '.' ends the input: the malformed number
      and the empty number have been emitted. */
  function AfterDotAtEnd(l: Lexer): (l': Lexer)
    requires Valid(l) && DigitsEnd(l) + 1 == |l.input|
    ensures Valid(l') && l'.input == l.input && l'.pos == |l.input|
  {
    var j := DigitsEnd(l);
    l.(start := j + 1, pos := j + 1, width := 0,
       out := l.out + [Token(MalformedNumber, l.input[l.start..j + 1], l.line), Token(Number, l.input[j + 1..j + 1], l.line)])
  }

  lemma NumberDotAtEndDescribed(l: Lexer)
    requires Valid(l) && DigitsEnd(l) + 1 == |l.input| && l.input[DigitsEnd(l)] == '.'
    ensures Expected(l, ScanNumber) == Expected(AfterDotAtEnd(l), ScanText)
  {
    var s := l.input;
    var j := DigitsEnd(l);
    var line := l.line as nat;
    NumberDotAtEndScan(s, l.start, l.pos, line);
    RenderCons(s, l.out, Span(MalformedNumber, l.start, j + 1, line), Resume(s, Number, j + 1, j + 1, line));
    RenderCons(s, l.out + [Token(MalformedNumber, s[l.start..j + 1], l.line)], Span(Number, j + 1, j + 1, line), ScanFrom(s, j + 1, j + 1, line));
  }

  lemma NumberDotAtEndMachine(l: Lexer)
    requires Valid(l) && DigitsEnd(l) + 1 == |l.input| && l.input[DigitsEnd(l)] == '.'
    ensures Dispatch(l, ScanNumber) == Goto(AfterDotAtEnd(l), ScanText)
  {
    NumberStep(l);
    DotAtEndMachine(AfterDigits(l));
  }

  /** Digits and a '.' followed by something other than a digit: the
      digits are a malformed number and the scan breaks off. */
  lemma {:induction false} NumberCrash(l: Lexer)
    requires Valid(l) && DigitsEnd(l) + 1 < |l.input| && l.input[DigitsEnd(l)] == '.' && !IsNumber(l.input[DigitsEnd(l) + 1])
    ensures Run(l, ScanNumber) == Expected(l, ScanNumber)
  {
    var s := l.input;
    var j := DigitsEnd(l);
    NumberCrashMachine(l);
    assert TokensOf(s, [Span(MalformedNumber, l.start, j, l.line as nat)]) == [Token(MalformedNumber, s[l.start..j], l.line)];
  }

  lemma NumberCrashMachine(l: Lexer)
    requires Valid(l) && DigitsEnd(l) + 1 < |l.input| && l.input[DigitsEnd(l)] == '.' && !IsNumber(l.input[DigitsEnd(l) + 1])
    ensures Dispatch(l, ScanNumber).Panic?
    ensures Dispatch(l, ScanNumber).l.out == l.out + [Token(MalformedNumber, l.input[l.start..DigitsEnd(l)], l.line)]
  {
    var j := DigitsEnd(l);
    NumberStep(l);
    var l1 := AfterDigits(l);
    CrashMachine(l1);
  }


  /** `l` after `lexNumber`'s first run of digits. */
  function AfterDigits(l: Lexer): (l': Lexer)
    requires Valid(l)
    ensures Valid(l') && l'.input == l.input && l'.pos == DigitsEnd(l)
  {
    var j := DigitsEnd(l);
    l.(pos := j, width := if j < |l.input| then 1 else 0)
  }

  /** `lexNumber` consumes the digit run and continues with the fraction. */
  lemma NumberStep(l: Lexer)
    requires Valid(l)
    ensures Dispatch(l, ScanNumber) == LexFraction(AfterDigits(l))
  {
    AcceptDigits(l);
    assert AcceptRun(l, Digits) == AfterDigits(l);
  }

  /** No '.' after the digits: the digits are a number. */
  lemma PlainMachine(l: Lexer)
    requires Valid(l) && !(l.pos < |l.input| && l.input[l.pos] == '.')
    requires l.width == if l.pos < |l.input| then 1 else 0
    ensures LexFraction(l) == Goto(Emit(l, Number), ScanText)
  {
    if l.pos < |l.input| {
      assert Next(l) == (l.input[l.pos], Read(l));
    } else {
      assert Next(l) == (EofRune, l);
    }
  }

  /** '.' and a digit: the fraction digits belong to the number. */
  lemma FractionMachine(l: Lexer)
    requires Valid(l) && l.pos + 1 < |l.input| && l.input[l.pos] == '.' && IsNumber(l.input[l.pos + 1])
    ensures var e := RunEnd(l.input, l.pos + 1, Numerals);
      LexFraction(l) == Goto(Emit(l.(pos := e, width := if e < |l.input| then 1 else 0), Number), ScanText)
  {
    assert Next(l) == ('.', Read(l));
    assert Peek(Read(l)) == (l.input[l.pos + 1], Read(l));
    AcceptDigits(Read(l));
  }

  /** A '.' that ends the input: both backups land on the end. */
  lemma DotAtEndMachine(l: Lexer)
    requires Valid(l) && l.pos + 1 == |l.input| && l.input[l.pos] == '.'
    ensures LexFraction(l) == Goto(l.(start := l.pos + 1, pos := l.pos + 1, width := 0,
      out := l.out + [Token(MalformedNumber, l.input[l.start..l.pos + 1], l.line), Token(Number, l.input[l.pos + 1..l.pos + 1], l.line)]), ScanText)
  {
    var l2 := Read(l);
    assert Next(l) == ('.', l2);
    assert Peek(l2) == (EofRune, l2.(width := 0));
  }

  /** A '.' followed by a non-digit: the second backup crosses `start`. */
  lemma CrashMachine(l: Lexer)
    requires Valid(l) && l.pos + 1 < |l.input| && l.input[l.pos] == '.' && !IsNumber(l.input[l.pos + 1])
    ensures LexFraction(l) == Panic(l.(start := l.pos, pos := l.pos - 1, width := 1,
      out := l.out + [Token(MalformedNumber, l.input[l.start..l.pos], l.line)]))
  {
    var l2 := Read(l);
    assert Next(l) == ('.', l2);
    assert Peek(l2) == (l.input[l.pos + 1], l2);
    var l3 := Emit(Backup(l2), MalformedNumber);
    assert l3 == Emit(l.(width := 1), MalformedNumber);
    assert !CanSlice(Backup(l3));
  }

  // lexArithmeticOperator

  /** '+' or '-', doubled or not. */
  lemma {:induction false} ArithmeticAgrees(l: Lexer)
    requires Valid(l) && Ready(l, ScanArithmetic) && Reach(l, ScanArithmetic)
    ensures Run(l, ScanArithmetic) == Expected(l, ScanArithmetic)
    decreases |l.input| - l.pos, Rank(ScanArithmetic), 0
  {
    ArithmeticAgreesMachine(l);
    ArithmeticAgreesDescribed(l);
    TokenThenText(l, ScanArithmetic, ArithmeticOp, ArithmeticEnd(l.input, l.pos));
  }

  lemma ArithmeticAgreesMachine(l: Lexer)
    requires Valid(l) && Ready(l, ScanArithmetic) && Reach(l, ScanArithmetic)
    ensures Dispatch(l, ScanArithmetic).Goto? && Dispatch(l, ScanArithmetic).next == ScanText
    ensures AfterToken(l, ArithmeticOp, ArithmeticEnd(l.input, l.pos), Dispatch(l, ScanArithmetic).l)
  {
  }

  lemma ArithmeticAgreesDescribed(l: Lexer)
    requires Valid(l) && Ready(l, ScanArithmetic) && Reach(l, ScanArithmetic)
    ensures Expected(l, ScanArithmetic) == Render(l.input, l.out, Resume(l.input, ArithmeticOp, l.start, ArithmeticEnd(l.input, l.pos), l.line as nat))
  {
  }

  // lexCommentBlock

  lemma {:induction false} CommentAgrees(l: Lexer)
    requires Valid(l) && Ready(l, ScanComment) && Reach(l, ScanComment)
    ensures Run(l, ScanComment) == Expected(l, ScanComment)
    decreases |l.input| - l.pos, Rank(ScanComment), 1
  {
    var s := l.input;
    var i := l.pos;
    if i == |s| {
      CommentAtEnd(l);
    } else if s[i] == EofRune {
      CommentSentinel(l);
    } else if s[i] == '#' && i + 1 < |s| && s[i + 1] == '/' {
      CommentClosed(l);
    } else {
      CommentGoesOn(l);
    }
  }

  /** An unterminated comment is malformed. */
  lemma {:induction false} CommentAtEnd(l: Lexer)
    requires Valid(l) && Ready(l, ScanComment) && Reach(l, ScanComment) && l.pos == |l.input|
    ensures Run(l, ScanComment) == Expected(l, ScanComment)
  {
    CommentAtEndMachine(l);
    CommentAtEndDescribed(l);
    StopFinal(l, ScanComment, MalformedComment, l.pos);
  }

  lemma CommentAtEndMachine(l: Lexer)
    requires Valid(l) && Ready(l, ScanComment) && Reach(l, ScanComment) && l.pos == |l.input|
    ensures Dispatch(l, ScanComment).Stop?
    ensures Dispatch(l, ScanComment).l.out == l.out + [Token(MalformedComment, l.input[l.start..l.pos], l.line), Token(EOF, l.input[l.pos..l.pos], l.line)]
  {
  }

  lemma CommentAtEndDescribed(l: Lexer)
    requires Valid(l) && Ready(l, ScanComment) && Reach(l, ScanComment) && l.pos == |l.input|
    ensures Expected(l, ScanComment) == Render(l.input, l.out, Final(l.input, MalformedComment, l.start, l.pos, l.line as nat))
  {
    assert CommentEnd(l.input, l.pos) == l.pos;
    assert CommentFrom(l.input, l.start, l.pos, l.line as nat) == CommentUpTo(l.input, l.start, l.pos, l.line as nat);
  }

  /** The sentinel inside a comment ends the scan. */
  lemma {:induction false} CommentSentinel(l: Lexer)
    requires Valid(l) && Ready(l, ScanComment) && Reach(l, ScanComment) && l.pos < |l.input| && l.input[l.pos] == EofRune
    ensures Run(l, ScanComment) == Expected(l, ScanComment)
  {
    CommentSentinelMachine(l);
    CommentSentinelDescribed(l);
    StopFinal(l, ScanComment, MalformedComment, l.pos + 1);
  }

  lemma CommentSentinelMachine(l: Lexer)
    requires Valid(l) && Ready(l, ScanComment) && Reach(l, ScanComment) && l.pos < |l.input| && l.input[l.pos] == EofRune
    ensures Dispatch(l, ScanComment).Stop?
    ensures Dispatch(l, ScanComment).l.out == l.out + [Token(MalformedComment, l.input[l.start..l.pos + 1], l.line), Token(EOF, l.input[l.pos + 1..l.pos + 1], l.line)]
  {
  }

  lemma CommentSentinelDescribed(l: Lexer)
    requires Valid(l) && Ready(l, ScanComment) && Reach(l, ScanComment) && l.pos < |l.input| && l.input[l.pos] == EofRune
    ensures Expected(l, ScanComment) == Render(l.input, l.out, Final(l.input, MalformedComment, l.start, l.pos + 1, l.line as nat))
  {
    assert CommentEnd(l.input, l.pos) == l.pos;
    assert CommentFrom(l.input, l.start, l.pos, l.line as nat) == CommentUpTo(l.input, l.start, l.pos, l.line as nat);
  }

  /** "#/" closes the comment. */
  lemma {:induction false} CommentClosed(l: Lexer)
    requires Valid(l) && Ready(l, ScanComment) && Reach(l, ScanComment) && l.pos + 1 < |l.input| && l.input[l.pos] == '#' && l.input[l.pos + 1] == '/'
    ensures Run(l, ScanComment) == Expected(l, ScanComment)
    decreases |l.input| - l.pos, Rank(ScanComment), 0
  {
    CommentClosedMachine(l);
    CommentClosedDescribed(l);
    TokenThenText(l, ScanComment, BlockComment, l.pos + 2);
  }

  lemma CommentClosedMachine(l: Lexer)
    requires Valid(l) && Ready(l, ScanComment) && Reach(l, ScanComment) && l.pos + 1 < |l.input| && l.input[l.pos] == '#' && l.input[l.pos + 1] == '/'
    ensures Dispatch(l, ScanComment).Goto? && Dispatch(l, ScanComment).next == ScanText
    ensures AfterToken(l, BlockComment, l.pos + 2, Dispatch(l, ScanComment).l)
  {
  }

  lemma CommentClosedDescribed(l: Lexer)
    requires Valid(l) && Ready(l, ScanComment) && Reach(l, ScanComment) && l.pos + 1 < |l.input| && l.input[l.pos] == '#' && l.input[l.pos + 1] == '/'
    ensures Expected(l, ScanComment) == Render(l.input, l.out, Resume(l.input, BlockComment, l.start, l.pos + 2, l.line as nat))
  {
    assert CommentEnd(l.input, l.pos) == l.pos;
    assert CommentFrom(l.input, l.start, l.pos, l.line as nat) == CommentUpTo(l.input, l.start, l.pos, l.line as nat);
  }

  /** Any other rune is part of the comment. */
  lemma {:induction false} CommentGoesOn(l: Lexer)
    requires Valid(l) && Ready(l, ScanComment) && Reach(l, ScanComment) && l.pos < |l.input| && l.input[l.pos] != EofRune && !(l.input[l.pos] == '#' && l.pos + 1 < |l.input| && l.input[l.pos + 1] == '/')
    ensures Run(l, ScanComment) == Expected(l, ScanComment)
    decreases |l.input| - l.pos, Rank(ScanComment), 0
  {
    CommentGoesOnMachine(l);
    CommentGoesOnDescribed(l);
    Loop(l, ScanComment, l.(pos := l.pos + 1, width := if l.input[l.pos] == '#' && l.pos + 1 == |l.input| then 0 else 1));
  }

  lemma CommentGoesOnMachine(l: Lexer)
    requires Valid(l) && Ready(l, ScanComment) && Reach(l, ScanComment) && l.pos < |l.input| && l.input[l.pos] != EofRune && !(l.input[l.pos] == '#' && l.pos + 1 < |l.input| && l.input[l.pos + 1] == '/')
    ensures Dispatch(l, ScanComment) == Dispatch(l.(pos := l.pos + 1, width := if l.input[l.pos] == '#' && l.pos + 1 == |l.input| then 0 else 1), ScanComment)
  {
  }

  lemma CommentGoesOnDescribed(l: Lexer)
    requires Valid(l) && Ready(l, ScanComment) && Reach(l, ScanComment) && l.pos < |l.input| && l.input[l.pos] != EofRune && !(l.input[l.pos] == '#' && l.pos + 1 < |l.input| && l.input[l.pos + 1] == '/')
    ensures Expected(l, ScanComment) == Expected(l.(pos := l.pos + 1, width := if l.input[l.pos] == '#' && l.pos + 1 == |l.input| then 0 else 1), ScanComment)
  {
    CommentSkips(l.input, l.start, l.pos, l.line as nat);
  }

  // lexRelationalOperator

  /** '=', '>' or '<', with or without a following '='. */
  lemma {:induction false} RelationalAgrees(l: Lexer)
    requires Valid(l) && Ready(l, ScanRelational) && Reach(l, ScanRelational)
    ensures Run(l, ScanRelational) == Expected(l, ScanRelational)
    decreases |l.input| - l.pos, Rank(ScanRelational), 0
  {
    RelationalAgreesMachine(l);
    RelationalAgreesDescribed(l);
    TokenThenText(l, ScanRelational, RelationalOperator(l.input, l.pos).0, RelationalOperator(l.input, l.pos).1);
  }

  lemma RelationalAgreesMachine(l: Lexer)
    requires Valid(l) && Ready(l, ScanRelational) && Reach(l, ScanRelational)
    ensures Dispatch(l, ScanRelational).Goto? && Dispatch(l, ScanRelational).next == ScanText
    ensures AfterToken(l, RelationalOperator(l.input, l.pos).0, RelationalOperator(l.input, l.pos).1, Dispatch(l, ScanRelational).l)
  {
  }

  lemma RelationalAgreesDescribed(l: Lexer)
    requires Valid(l) && Ready(l, ScanRelational) && Reach(l, ScanRelational)
    ensures Expected(l, ScanRelational) == Render(l.input, l.out, Resume(l.input, RelationalOperator(l.input, l.pos).0, l.start, RelationalOperator(l.input, l.pos).1, l.line as nat))
  {
  }

  // lexDelimiter

  /** One delimiter rune. */
  lemma {:induction false} DelimiterAgrees(l: Lexer)
    requires Valid(l) && Ready(l, ScanDelimiter) && Reach(l, ScanDelimiter)
    ensures Run(l, ScanDelimiter) == Expected(l, ScanDelimiter)
    decreases |l.input| - l.pos, Rank(ScanDelimiter), 0
  {
    DelimiterAgreesMachine(l);
    DelimiterAgreesDescribed(l);
    TokenThenText(l, ScanDelimiter, Delimiter, l.pos + 1);
  }

  lemma DelimiterAgreesMachine(l: Lexer)
    requires Valid(l) && Ready(l, ScanDelimiter) && Reach(l, ScanDelimiter)
    ensures Dispatch(l, ScanDelimiter).Goto? && Dispatch(l, ScanDelimiter).next == ScanText
    ensures AfterToken(l, Delimiter, l.pos + 1, Dispatch(l, ScanDelimiter).l)
  {
  }

  lemma DelimiterAgreesDescribed(l: Lexer)
    requires Valid(l) && Ready(l, ScanDelimiter) && Reach(l, ScanDelimiter)
    ensures Expected(l, ScanDelimiter) == Render(l.input, l.out, Resume(l.input, Delimiter, l.start, l.pos + 1, l.line as nat))
  {
  }

  // lexChar

  /** One more rune closes a character literal. */
  lemma {:induction false} CharAgrees(l: Lexer)
    requires Valid(l) && Ready(l, ScanChar) && Reach(l, ScanChar)
    ensures Run(l, ScanChar) == Expected(l, ScanChar)
    decreases |l.input| - l.pos, Rank(ScanChar), 0
  {
    CharAgreesMachine(l);
    CharAgreesDescribed(l);
    TokenThenText(l, ScanChar, Char, if l.pos < |l.input| then l.pos + 1 else l.pos);
  }

  lemma CharAgreesMachine(l: Lexer)
    requires Valid(l) && Ready(l, ScanChar) && Reach(l, ScanChar)
    ensures Dispatch(l, ScanChar).Goto? && Dispatch(l, ScanChar).next == ScanText
    ensures AfterToken(l, Char, if l.pos < |l.input| then l.pos + 1 else l.pos, Dispatch(l, ScanChar).l)
  {
  }

  lemma CharAgreesDescribed(l: Lexer)
    requires Valid(l) && Ready(l, ScanChar) && Reach(l, ScanChar)
    ensures Expected(l, ScanChar) == Render(l.input, l.out, Resume(l.input, Char, l.start, if l.pos < |l.input| then l.pos + 1 else l.pos, l.line as nat))
  {
  }

  // lexString

  lemma {:induction false} StringAgrees(l: Lexer)
    requires Valid(l) && Ready(l, ScanString) && Reach(l, ScanString)
    ensures Run(l, ScanString) == Expected(l, ScanString)
    decreases |l.input| - l.pos, Rank(ScanString), 1
  {
    var s := l.input;
    var i := l.pos;
    if i == |s| {
      StringAtEnd(l);
    } else if s[i] == EofRune {
      StringSentinel(l);
    } else if s[i] == '"' {
      StringClosed(l);
    } else {
      StringGoesOn(l);
    }
  }

  /** An unterminated string is malformed. */
  lemma {:induction false} StringAtEnd(l: Lexer)
    requires Valid(l) && Ready(l, ScanString) && Reach(l, ScanString) && l.pos == |l.input|
    ensures Run(l, ScanString) == Expected(l, ScanString)
  {
    StringAtEndMachine(l);
    StringAtEndDescribed(l);
    StopFinal(l, ScanString, MalformedString, l.pos);
  }

  lemma StringAtEndMachine(l: Lexer)
    requires Valid(l) && Ready(l, ScanString) && Reach(l, ScanString) && l.pos == |l.input|
    ensures Dispatch(l, ScanString).Stop?
    ensures Dispatch(l, ScanString).l.out == l.out + [Token(MalformedString, l.input[l.start..l.pos], l.line), Token(EOF, l.input[l.pos..l.pos], l.line)]
  {
  }

  lemma StringAtEndDescribed(l: Lexer)
    requires Valid(l) && Ready(l, ScanString) && Reach(l, ScanString) && l.pos == |l.input|
    ensures Expected(l, ScanString) == Render(l.input, l.out, Final(l.input, MalformedString, l.start, l.pos, l.line as nat))
  {
    assert RunEnd(l.input, l.pos, StringRunes) == l.pos;
    assert StringFrom(l.input, l.start, l.pos, l.line as nat) == StringUpTo(l.input, l.start, l.pos, l.line as nat);
  }

  /** The sentinel inside a string ends the scan. */
  lemma {:induction false} StringSentinel(l: Lexer)
    requires Valid(l) && Ready(l, ScanString) && Reach(l, ScanString) && l.pos < |l.input| && l.input[l.pos] == EofRune
    ensures Run(l, ScanString) == Expected(l, ScanString)
  {
    StringSentinelMachine(l);
    StringSentinelDescribed(l);
    StopFinal(l, ScanString, MalformedString, l.pos + 1);
  }

  lemma StringSentinelMachine(l: Lexer)
    requires Valid(l) && Ready(l, ScanString) && Reach(l, ScanString) && l.pos < |l.input| && l.input[l.pos] == EofRune
    ensures Dispatch(l, ScanString).Stop?
    ensures Dispatch(l, ScanString).l.out == l.out + [Token(MalformedString, l.input[l.start..l.pos + 1], l.line), Token(EOF, l.input[l.pos + 1..l.pos + 1], l.line)]
  {
  }

  lemma StringSentinelDescribed(l: Lexer)
    requires Valid(l) && Ready(l, ScanString) && Reach(l, ScanString) && l.pos < |l.input| && l.input[l.pos] == EofRune
    ensures Expected(l, ScanString) == Render(l.input, l.out, Final(l.input, MalformedString, l.start, l.pos + 1, l.line as nat))
  {
    assert RunEnd(l.input, l.pos, StringRunes) == l.pos;
    assert StringFrom(l.input, l.start, l.pos, l.line as nat) == StringUpTo(l.input, l.start, l.pos, l.line as nat);
  }

  /** A double quote closes the string. */
  lemma {:induction false} StringClosed(l: Lexer)
    requires Valid(l) && Ready(l, ScanString) && Reach(l, ScanString) && l.pos < |l.input| && l.input[l.pos] == '"'
    ensures Run(l, ScanString) == Expected(l, ScanString)
    decreases |l.input| - l.pos, Rank(ScanString), 0
  {
    StringClosedMachine(l);
    StringClosedDescribed(l);
    TokenThenText(l, ScanString, String, l.pos + 1);
  }

  lemma StringClosedMachine(l: Lexer)
    requires Valid(l) && Ready(l, ScanString) && Reach(l, ScanString) && l.pos < |l.input| && l.input[l.pos] == '"'
    ensures Dispatch(l, ScanString).Goto? && Dispatch(l, ScanString).next == ScanText
    ensures AfterToken(l, String, l.pos + 1, Dispatch(l, ScanString).l)
  {
  }

  lemma StringClosedDescribed(l: Lexer)
    requires Valid(l) && Ready(l, ScanString) && Reach(l, ScanString) && l.pos < |l.input| && l.input[l.pos] == '"'
    ensures Expected(l, ScanString) == Render(l.input, l.out, Resume(l.input, String, l.start, l.pos + 1, l.line as nat))
  {
    assert RunEnd(l.input, l.pos, StringRunes) == l.pos;
    assert StringFrom(l.input, l.start, l.pos, l.line as nat) == StringUpTo(l.input, l.start, l.pos, l.line as nat);
  }

  /** Any other rune is part of the string. */
  lemma {:induction false} StringGoesOn(l: Lexer)
    requires Valid(l) && Ready(l, ScanString) && Reach(l, ScanString) && l.pos < |l.input| && l.input[l.pos] != EofRune && l.input[l.pos] != '"'
    ensures Run(l, ScanString) == Expected(l, ScanString)
    decreases |l.input| - l.pos, Rank(ScanString), 0
  {
    StringGoesOnMachine(l);
    StringGoesOnDescribed(l);
    Loop(l, ScanString, l.(pos := l.pos + 1, width := 1));
  }

  lemma StringGoesOnMachine(l: Lexer)
    requires Valid(l) && Ready(l, ScanString) && Reach(l, ScanString) && l.pos < |l.input| && l.input[l.pos] != EofRune && l.input[l.pos] != '"'
    ensures Dispatch(l, ScanString) == Dispatch(l.(pos := l.pos + 1, width := 1), ScanString)
  {
  }

  lemma StringGoesOnDescribed(l: Lexer)
    requires Valid(l) && Ready(l, ScanString) && Reach(l, ScanString) && l.pos < |l.input| && l.input[l.pos] != EofRune && l.input[l.pos] != '"'
    ensures Expected(l, ScanString) == Expected(l.(pos := l.pos + 1, width := 1), ScanString)
  {
    StringSkips(l.input, l.start, l.pos, l.line as nat);
  }

  // lexLogicalOperator

  /** '&&', '||', '!', or a malformed lone '&' or '|'. */
  lemma {:induction false} LogicalAgrees(l: Lexer)
    requires Valid(l) && Ready(l, ScanLogical) && Reach(l, ScanLogical)
    ensures Run(l, ScanLogical) == Expected(l, ScanLogical)
    decreases |l.input| - l.pos, Rank(ScanLogical), 0
  {
    LogicalAgreesMachine(l);
    LogicalAgreesDescribed(l);
    TokenThenText(l, ScanLogical, LogicalOperator(l.input, l.pos).0, LogicalOperator(l.input, l.pos).1);
  }

  lemma LogicalAgreesMachine(l: Lexer)
    requires Valid(l) && Ready(l, ScanLogical) && Reach(l, ScanLogical)
    ensures Dispatch(l, ScanLogical).Goto? && Dispatch(l, ScanLogical).next == ScanText
    ensures AfterToken(l, LogicalOperator(l.input, l.pos).0, LogicalOperator(l.input, l.pos).1, Dispatch(l, ScanLogical).l)
  {
  }

  lemma LogicalAgreesDescribed(l: Lexer)
    requires Valid(l) && Ready(l, ScanLogical) && Reach(l, ScanLogical)
    ensures Expected(l, ScanLogical) == Render(l.input, l.out, Resume(l.input, LogicalOperator(l.input, l.pos).0, l.start, LogicalOperator(l.input, l.pos).1, l.line as nat))
  {
  }

  // ---------------------------------------------------------------------

  /** The scanner delivers, on every input, the tokens the description
      cuts out of it, and panics exactly when the description breaks off. */
  lemma LexAgrees(s: string)
    ensures Lex(s) == Render(s, [], Scanned(s))
  {
    RunAgrees(Lexer(s, 0, 0, 0, 0, []), ScanText);
  }
}
