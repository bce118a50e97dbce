/** A cursor-free description of what the scanner produces.

    `ScanFrom(s, st, i, line)` describes the rest of a scan whose pending
    lexeme begins at `st` and whose cursor is at `i`: a sequence of spans
    (kind, first index, end index, line) and whether the scan broke off.
    Each lexeme's extent is given by the end of a run of runes (`RunEnd`)
    or by a fixed width, never by stepping a cursor back and forth. */
module Reference {
  import opened Tokens

  datatype Span = Span(kind: Kind, from: nat, to: nat, line: nat)

  /** The spans of a scan, and whether it broke off with a panic. */
  datatype Scan = Scan(spans: seq<Span>, crashed: bool)

  function Cons(sp: Span, rest: Scan): (r: Scan)
    ensures r.crashed == rest.crashed && r.spans == [sp] + rest.spans
  {
    rest.(spans := [sp] + rest.spans)
  }

  /** The spans lie inside [lo, hi], each one ends where or before the
      next begins, and none is reversed. */
  predicate Laid(spans: seq<Span>, lo: nat, hi: nat) {
    && (forall k :: 0 <= k < |spans| ==> lo <= spans[k].from <= spans[k].to <= hi)
    && (forall k, m :: 0 <= k < m < |spans| ==> spans[k].to <= spans[m].from)
  }

  /** A scan that stops ends with its only EOF token; a scan that breaks
      off has none. */
  predicate Terminated(r: Scan) {
    && |r.spans| > 0
    && (forall k :: 0 <= k < |r.spans| - 1 ==> r.spans[k].kind != EOF)
    && (r.spans[|r.spans| - 1].kind == EOF <==> !r.crashed)
  }

  /** Line numbers never fall below `line` and never decrease. */
  predicate LinesFrom(spans: seq<Span>, line: nat) {
    && (forall k :: 0 <= k < |spans| ==> line <= spans[k].line)
    && (forall k, m :: 0 <= k < m < |spans| ==> spans[k].line <= spans[m].line)
  }

  /** A word span is a keyword exactly when its text is a reserved word. */
  predicate Classified(s: string, sp: Span) {
    sp.from <= sp.to <= |s| ==>
      && (sp.kind == Keyword ==> IsKeyword(s[sp.from..sp.to]))
      && (sp.kind == Identifier ==> !IsKeyword(s[sp.from..sp.to]))
  }

  /** The number of '\n' runes in `s[a..b]`. */
  function Newlines(s: string, a: nat, b: nat): (n: nat)
    requires a <= b <= |s|
    ensures n <= b - a
    ensures n == 0 <== forall m :: a <= m < b ==> s[m] != '\n'
    decreases b - a
  {
    if a == b then 0 else Newlines(s, a, b - 1) + (if s[b - 1] == '\n' then 1 else 0)
  }

  /** `s[a..b]` is text the scanner drops: whitespace and runes that start
      no lexeme, and, unless it is empty, it ends in whitespace. */
  predicate Dropped(s: string, a: nat, b: nat)
    requires a <= b <= |s|
  {
    && (forall m :: a <= m < b ==> LeadAt(s, m) == Space || LeadAt(s, m) == Other)
    && (a < b ==> LeadAt(s, b - 1) == Space)
  }

  /** A scan that stops does so at the end of the input or right after a
      sentinel. */
  predicate Stopped(s: string, e: nat)
    requires e <= |s|
  {
    e == |s| || (0 < e && s[e - 1] == EofRune)
  }

  /** The spans account for the input from `lo` on: in front of the first
      span and between two spans lies only dropped text, each line number
      is the previous one (or `line`) plus the newlines dropped in
      between, and a scan that stops ends where `Stopped` says. */
  predicate Tiled(s: string, lo: nat, line: nat, r: Scan)
    requires Laid(r.spans, lo, |s|) && |r.spans| > 0
  {
    && Dropped(s, lo, r.spans[0].from)
    && r.spans[0].line == line + Newlines(s, lo, r.spans[0].from)
    && (forall k :: 0 <= k < |r.spans| - 1 ==>
          && Dropped(s, r.spans[k].to, r.spans[k + 1].from)
          && r.spans[k + 1].line == r.spans[k].line + Newlines(s, r.spans[k].to, r.spans[k + 1].from))
    && (!r.crashed ==> Stopped(s, r.spans[|r.spans| - 1].to))
  }

  /** What every description of a scan from `lo` on satisfies. */
  predicate Sound(s: string, lo: nat, line: nat, r: Scan) {
    && Laid(r.spans, lo, |s|)
    && Terminated(r)
    && Tiled(s, lo, line, r)
    && LinesFrom(r.spans, line)
    && (forall k :: 0 <= k < |r.spans| ==> Emittable(r.spans[k].kind))
    && (forall k :: 0 <= k < |r.spans| ==> Classified(s, r.spans[k]))
  }

  lemma ConsSound(s: string, lo: nat, line: nat, sp: Span, e: nat, rest: Scan)
    requires lo == sp.from <= sp.to == e && sp.line == line && Emittable(sp.kind) && sp.kind != EOF
    requires Classified(s, sp)
    requires Sound(s, e, line, rest)
    ensures Sound(s, lo, line, Cons(sp, rest))
  {
    ConsLaid(sp, rest.spans, lo, e, |s|);
    ConsTiled(s, sp, rest, line);
    ConsLines(sp, rest.spans, line);
    ConsKinds(sp, rest.spans);
    ConsClassified(s, sp, rest.spans);
    assert Terminated(Cons(sp, rest));
  }

  lemma ConsLaid(sp: Span, rest: seq<Span>, lo: nat, e: nat, hi: nat)
    requires lo <= sp.from <= sp.to <= e && |rest| > 0 && Laid(rest, e, hi)
    ensures Laid([sp] + rest, lo, hi)
  {
    var r := [sp] + rest;
    assert forall k :: 1 <= k < |r| ==> r[k] == rest[k - 1];
    assert rest[0].from <= hi;
  }

  lemma ConsTiled(s: string, sp: Span, rest: Scan, line: nat)
    requires sp.from <= sp.to <= |s| && sp.line == line
    requires Laid(rest.spans, sp.to, |s|) && |rest.spans| > 0 && Tiled(s, sp.to, line, rest)
    requires Laid([sp] + rest.spans, sp.from, |s|)
    ensures Tiled(s, sp.from, line, Cons(sp, rest))
  {
    var r := Cons(sp, rest).spans;
    assert forall k :: 1 <= k < |r| ==> r[k] == rest.spans[k - 1];
    assert Newlines(s, sp.from, sp.from) == 0;
  }

  lemma ConsLines(sp: Span, rest: seq<Span>, line: nat)
    requires sp.line == line && LinesFrom(rest, line)
    ensures LinesFrom([sp] + rest, line)
  {
    var r := [sp] + rest;
    assert forall k :: 1 <= k < |r| ==> r[k] == rest[k - 1];
  }

  lemma ConsClassified(s: string, sp: Span, rest: seq<Span>)
    requires Classified(s, sp) && forall k :: 0 <= k < |rest| ==> Classified(s, rest[k])
    ensures forall k :: 0 <= k < |[sp] + rest| ==> Classified(s, ([sp] + rest)[k])
  {
    var r := [sp] + rest;
    assert forall k :: 1 <= k < |r| ==> r[k] == rest[k - 1];
  }

  lemma ConsKinds(sp: Span, rest: seq<Span>)
    requires Emittable(sp.kind) && forall k :: 0 <= k < |rest| ==> Emittable(rest[k].kind)
    ensures forall k :: 0 <= k < |[sp] + rest| ==> Emittable(([sp] + rest)[k].kind)
  {
    var r := [sp] + rest;
    assert forall k :: 1 <= k < |r| ==> r[k] == rest[k - 1];
  }


  /** The classes of runes whose runs make up lexemes. */
  datatype RuneClass = Numerals | WordRunes | StringRunes

  predicate InClass(c: RuneClass, r: char) {
    match c
    case Numerals => IsNumber(r)
    case WordRunes => IsIdentifierRune(r)
    case StringRunes => InString(r)
  }

  /** The end of the run of runes of class `c` that starts at `k`. */
  function RunEnd(s: string, k: nat, c: RuneClass): (j: nat)
    requires k <= |s|
    ensures k <= j <= |s|
    ensures forall m :: k <= m < j ==> InClass(c, s[m])
    ensures j == |s| || !InClass(c, s[j])
    decreases |s| - k
  {
    if k < |s| && InClass(c, s[k]) then RunEnd(s, k + 1, c) else k
  }

  /** A rune that does not end a string literal. */
  predicate InString(c: char) {
    c != '"' && c != EofRune
  }

  /** Where a block comment's scan, started at `k`, stops: the first '#'
      directly followed by '/', the first sentinel, or the end of input. */
  function CommentEnd(s: string, k: nat): (j: nat)
    requires k <= |s|
    ensures k <= j <= |s|
    ensures j == |s| || s[j] == EofRune || (s[j] == '#' && j + 1 < |s| && s[j + 1] == '/')
    ensures forall m :: k <= m < j ==> s[m] != EofRune && !(s[m] == '#' && m + 1 < |s| && s[m + 1] == '/')
    decreases |s| - k
  {
    if k == |s| || s[k] == EofRune || (s[k] == '#' && k + 1 < |s| && s[k + 1] == '/') then k
    else CommentEnd(s, k + 1)
  }

  /** Kind and end of the logical operator starting at `i`. */
  function LogicalOperator(s: string, i: nat): (res: (Kind, nat))
    requires i < |s|
    ensures i < res.1 <= |s|
  {
    if (s[i] == '&' || s[i] == '|') && i + 1 < |s| && s[i + 1] == s[i] then (LogicalOp, i + 2)
    else if s[i] == '!' then (LogicalOp, i + 1)
    else (MalformedLogicalOp, i + 1)
  }

  /** Kind and end of the operator starting with '=', '>' or '<' at `i`:
      '=' and "==" are arithmetic, the others relational. */
  function RelationalOperator(s: string, i: nat): (res: (Kind, nat))
    requires i < |s|
    ensures i < res.1 <= |s|
  {
    var kind := if s[i] == '=' then ArithmeticOp else RelationalOp;
    if i + 1 < |s| && s[i + 1] == '=' then (kind, i + 2) else (kind, i + 1)
  }

  /** End of the arithmetic operator starting at `i`: "++" and "--" are
      two runes wide, every other one rune. */
  function ArithmeticEnd(s: string, i: nat): (e: nat)
    requires i < |s|
    ensures i < e <= |s|
  {
    if (s[i] == '+' || s[i] == '-') && i + 1 < |s| && s[i + 1] == s[i] then i + 2 else i + 1
  }

  /** What the rune at `i` begins, in the order `lexText` tests it. */
  datatype Lead =
    | AtEnd | Word | Space | Numeral | Logical | Relational | Delimiting | Quote
    | Quoted | Comment | Operator | Sentinel | Other

  predicate IsDelimiter(c: char) {
    c == ';' || c == ',' || c == '(' || c == ')' || c == '{' || c == '}' || c == '[' || c == ']'
    || c == '.' || c == ':'
  }

  lemma DelimiterClass(c: char)
    ensures c in Delimiters <==> IsDelimiter(c)
  {
  }

  function LeadAt(s: string, i: nat): (d: Lead)
    requires i <= |s|
    ensures d == AtEnd <==> i == |s|
  {
    if i == |s| then AtEnd
    else
      var c := s[i];
      if IsLetter(c) then Word
      else if IsSpace(c) then Space
      else if IsNumber(c) then Numeral
      else if c == '&' || c == '|' || c == '!' then Logical
      else if c == '=' || c == '>' || c == '<' then Relational
      else if IsDelimiter(c) then Delimiting
      else if c == '\'' then Quote
      else if c == '"' then Quoted
      else if c == '/' && i + 1 < |s| && s[i + 1] == '#' then Comment
      else if c == '/' || c == '*' || c == '+' || c == '-' then Operator
      else if c == EofRune then Sentinel
      else Other
  }

  /** The rest of a scan from `i` on, with the pending lexeme at `st`. */
  function ScanFrom(s: string, st: nat, i: nat, line: nat): (r: Scan)
    requires st <= i <= |s|
    decreases |s| - i, 1
  {
    match LeadAt(s, i)
    case AtEnd => Scan([Span(EOF, st, i, line)], false)
    case Word => WordFrom(s, st, i + 1, line)
    case Space => ScanFrom(s, i + 1, i + 1, if s[i] == '\n' then line + 1 else line)
    case Numeral => NumberFrom(s, st, i + 1, line)
    case Logical =>
      var (kind, e) := LogicalOperator(s, i);
      Resume(s, kind, st, e, line)
    case Relational =>
      var (kind, e) := RelationalOperator(s, i);
      Resume(s, kind, st, e, line)
    case Delimiting => Resume(s, Delimiter, st, i + 1, line)
    case Quote =>
      if i + 1 < |s| && (IsLetter(s[i + 1]) || IsDigit(s[i + 1])) then CharFrom(s, st, i + 2, line)
      else Resume(s, MalformedChar, st, i + 1, line)
    case Quoted => StringFrom(s, st, i + 1, line)
    case Comment => CommentFrom(s, st, i + 1, line)
    case Operator => Resume(s, ArithmeticOp, st, ArithmeticEnd(s, i), line)
    case Sentinel => Scan([Span(EOF, st, i + 1, line)], false)
    case Other => ScanFrom(s, st, i + 1, line)
  }

  /** Emit `s[st..e]` as a token of kind `kind` and scan on from `e`. */
  function Resume(s: string, kind: Kind, st: nat, e: nat, line: nat): (r: Scan)
    requires st <= e <= |s| && Emittable(kind) && kind != EOF
    decreases |s| - e, 2
  {
    Cons(Span(kind, st, e, line), ScanFrom(s, e, e, line))
  }

  /** Emit `s[st..e]` as a token of kind `kind`, then an empty EOF token,
      and stop. */
  function Final(s: string, kind: Kind, st: nat, e: nat, line: nat): (r: Scan)
    requires st <= e <= |s| && Emittable(kind) && kind != EOF
  {
    Scan([Span(kind, st, e, line), Span(EOF, e, e, line)], false)
  }

  /** A word whose runes before `p` have been read. A word of one letter
      is an identifier, and the sentinel right after it ends the scan; a
      longer word is a keyword exactly when it is a reserved word. */
  function WordFrom(s: string, st: nat, p: nat, line: nat): (r: Scan)
    requires st < p <= |s|
    decreases |s| - p, 3
  {
    var j := RunEnd(s, p, WordRunes);
    if j == p then
      if p == |s| then Final(s, Identifier, st, p, line)
      else if s[p] == EofRune then Final(s, Identifier, st, p + 1, line)
      else Resume(s, Identifier, st, p, line)
    else Resume(s, WordKind(s[st..j]), st, j, line)
  }

  /** A number whose first digit, before `p`, has been read. */
  function NumberFrom(s: string, st: nat, p: nat, line: nat): (r: Scan)
    requires st <= p <= |s|
    decreases |s| - p, 3
  {
    var j := RunEnd(s, p, Numerals);
    if j < |s| && s[j] == '.' then
      if j + 1 < |s| && IsNumber(s[j + 1]) then Resume(s, Number, st, RunEnd(s, j + 1, Numerals), line)
      else if j + 1 == |s| then
        Cons(Span(MalformedNumber, st, j + 1, line), Resume(s, Number, j + 1, j + 1, line))
      else Scan([Span(MalformedNumber, st, j, line)], true)
    else Resume(s, Number, st, j, line)
  }

  /** A character literal whose quote and first rune, before `p`, have
      been read: it takes one more rune, if there is one. */
  function CharFrom(s: string, st: nat, p: nat, line: nat): (r: Scan)
    requires st <= p <= |s|
    decreases |s| - p, 3
  {
    Resume(s, Char, st, if p < |s| then p + 1 else p, line)
  }

  /** A string literal whose opening quote, before `p`, has been read. */
  function StringFrom(s: string, st: nat, p: nat, line: nat): (r: Scan)
    requires st <= p <= |s|
    decreases |s| - p, 4
  {
    StringUpTo(s, st, RunEnd(s, p, StringRunes), line)
  }

  /** A string literal from `st` whose scan stopped at `j`. */
  function StringUpTo(s: string, st: nat, j: nat, line: nat): (r: Scan)
    requires st <= j <= |s|
    requires j == |s| || !InString(s[j])
    decreases |s| - j, 3
  {
    if j == |s| then Final(s, MalformedString, st, j, line)
    else if s[j] == '"' then Resume(s, String, st, j + 1, line)
    else Final(s, MalformedString, st, j + 1, line)
  }

  /** A block comment whose '/', before `p`, has been read; `p` is at '#'.
      That '#' may also serve as the closer's. */
  function CommentFrom(s: string, st: nat, p: nat, line: nat): (r: Scan)
    requires st <= p <= |s|
    decreases |s| - p, 4
  {
    CommentUpTo(s, st, CommentEnd(s, p), line)
  }

  /** A block comment from `st` whose scan stopped at `j`. */
  function CommentUpTo(s: string, st: nat, j: nat, line: nat): (r: Scan)
    requires st <= j <= |s|
    requires j == |s| || s[j] == EofRune || (s[j] == '#' && j + 1 < |s| && s[j + 1] == '/')
    decreases |s| - j, 3
  {
    if j == |s| then Final(s, MalformedComment, st, j, line)
    else if s[j] == EofRune then Final(s, MalformedComment, st, j + 1, line)
    else Resume(s, BlockComment, st, j + 2, line)
  }

  /** The last rune of a word of two or more: the word ends after it. */
  lemma WordEnds(s: string, st: nat, p: nat, line: nat)
    requires st < p < |s| && IsIdentifierRune(s[p]) && !(p + 1 < |s| && IsIdentifierRune(s[p + 1]))
    ensures WordFrom(s, st, p, line) == Resume(s, WordKind(s[st..p + 1]), st, p + 1, line)
  {
    assert RunEnd(s, p, WordRunes) == p + 1;
  }

  /** A word goes on while identifier runes follow. */
  lemma WordGoesOn(s: string, st: nat, p: nat, line: nat)
    requires st < p && p + 1 < |s| && IsIdentifierRune(s[p]) && IsIdentifierRune(s[p + 1])
    ensures WordFrom(s, st, p, line) == WordFrom(s, st, p + 1, line)
  {
    assert RunEnd(s, p, WordRunes) == RunEnd(s, p + 1, WordRunes);
  }

  /** '/' not opening a comment, and '*', are one-rune operators. */
  lemma SlashOrStarScan(s: string, st: nat, i: nat, line: nat)
    requires st <= i < |s| && LeadAt(s, i) == Operator && s[i] in "/*"
    ensures ScanFrom(s, st, i, line) == Cons(Span(ArithmeticOp, st, i + 1, line), ScanFrom(s, i + 1, i + 1, line))
  {
    assert ArithmeticEnd(s, i) == i + 1;
  }

  /** A rune inside a comment that does not close it changes nothing. */
  lemma CommentSkips(s: string, st: nat, p: nat, line: nat)
    requires st <= p < |s| && s[p] != EofRune && !(s[p] == '#' && p + 1 < |s| && s[p + 1] == '/')
    ensures CommentFrom(s, st, p, line) == CommentFrom(s, st, p + 1, line)
  {
    CommentEndSkips(s, p);
  }

  lemma CommentEndSkips(s: string, p: nat)
    requires p < |s| && s[p] != EofRune && !(s[p] == '#' && p + 1 < |s| && s[p + 1] == '/')
    ensures CommentEnd(s, p) == CommentEnd(s, p + 1)
  {
  }

  /** A rune inside a string that does not close it changes nothing. */
  lemma StringSkips(s: string, st: nat, p: nat, line: nat)
    requires st <= p < |s| && InString(s[p])
    ensures StringFrom(s, st, p, line) == StringFrom(s, st, p + 1, line)
  {
    assert RunEnd(s, p, StringRunes) == RunEnd(s, p + 1, StringRunes);
  }

  /** Digits and a final '.': a malformed number, then an empty number. */
  lemma NumberDotAtEndScan(s: string, st: nat, p: nat, line: nat)
    requires st <= p <= |s|
    requires RunEnd(s, p, Numerals) + 1 == |s| && s[RunEnd(s, p, Numerals)] == '.'
    ensures var j := RunEnd(s, p, Numerals);
      NumberFrom(s, st, p, line) == Cons(Span(MalformedNumber, st, j + 1, line), Resume(s, Number, j + 1, j + 1, line))
  {
  }

  /** The scan of a whole input. */
  function Scanned(s: string): Scan {
    ScanFrom(s, 0, 0, 0)
  }

  // ---------------------------------------------------------------------
  // Every scan the description produces is sound: its spans are laid out
  // left to right inside the input, it ends with exactly one EOF span
  // unless it broke off, line numbers never decrease, and every kind is
  // one the scanner can emit.

  lemma ScannedSound(s: string)
    ensures Sound(s, 0, 0, Scanned(s))
  {
    ScanSound(s, 0, 0, 0);
  }

  /** The runes in [st, i) start no lexeme: they stay pending and become
      the front of the next token. */
  predicate Pending(s: string, st: nat, i: nat)
    requires i <= |s|
  {
    forall m :: st <= m < i ==> LeadAt(s, m) == Other
  }

  lemma {:induction false} ScanSound(s: string, st: nat, i: nat, line: nat)
    requires st <= i <= |s| && Pending(s, st, i)
    ensures Sound(s, st, line, ScanFrom(s, st, i, line))
    decreases |s| - i, 2
  {
    match LeadAt(s, i)
    case AtEnd => EndSound(s, st, i, line);
    case Word => WordLeadSound(s, st, i, line);
    case Space => SpaceSound(s, st, i, line);
    case Numeral => NumberSound(s, st, i + 1, line);
    case Logical => LeadTokenSound(s, st, i, line);
    case Relational => LeadTokenSound(s, st, i, line);
    case Delimiting => LeadTokenSound(s, st, i, line);
    case Quote => LeadTokenSound(s, st, i, line);
    case Quoted => StringSound(s, st, i + 1, line);
    case Comment => CommentSound(s, st, i + 1, line);
    case Operator => LeadTokenSound(s, st, i, line);
    case Sentinel => EndSound(s, st, i + 1, line);
    case Other => PendingSound(s, st, i, line);
  }

  /** A letter starts a word, with the pending runes in front of it. */
  lemma {:induction false} WordLeadSound(s: string, st: nat, i: nat, line: nat)
    requires st <= i < |s| && Pending(s, st, i) && LeadAt(s, i) == Word
    ensures Sound(s, st, line, ScanFrom(s, st, i, line))
    decreases |s| - i, 1
  {
    WordSound(s, st, i + 1, line);
  }

  /** A rune that starts no lexeme joins the pending runes. */
  lemma {:induction false} PendingSound(s: string, st: nat, i: nat, line: nat)
    requires st <= i < |s| && Pending(s, st, i) && LeadAt(s, i) == Other
    ensures Sound(s, st, line, ScanFrom(s, st, i, line))
    decreases |s| - i, 1
  {
    assert Pending(s, st, i + 1);
    ScanSound(s, st, i + 1, line);
  }

  /** A scan that is only its EOF token. */
  lemma EndSound(s: string, st: nat, e: nat, line: nat)
    requires st <= e <= |s| && Stopped(s, e)
    ensures Sound(s, st, line, Scan([Span(EOF, st, e, line)], false))
  {
  }

  /** Whitespace drops the pending text and may count a line. */
  lemma {:induction false} SpaceSound(s: string, st: nat, i: nat, line: nat)
    requires st <= i < |s| && Pending(s, st, i) && LeadAt(s, i) == Space
    ensures Sound(s, st, line, ScanFrom(s, st, i, line))
    decreases |s| - i, 1
  {
    var line' := if s[i] == '\n' then line + 1 else line;
    ScanSound(s, i + 1, i + 1, line');
    SpaceShifts(s, st, i, line, ScanFrom(s, i + 1, i + 1, line'));
  }

  /** A scan after whitespace, seen from the pending text in front of
      that whitespace: the dropped text grows by the pending runes and the
      whitespace, and only a '\n' among them adds a line. */
  lemma SpaceShifts(s: string, st: nat, i: nat, line: nat, r: Scan)
    requires st <= i < |s| && Pending(s, st, i) && LeadAt(s, i) == Space
    requires Sound(s, i + 1, if s[i] == '\n' then line + 1 else line, r)
    ensures Sound(s, st, line, r)
  {
    SpaceShiftsTiled(s, st, i, line, r);
  }

  lemma SpaceShiftsTiled(s: string, st: nat, i: nat, line: nat, r: Scan)
    requires st <= i < |s| && Pending(s, st, i) && LeadAt(s, i) == Space
    requires Laid(r.spans, i + 1, |s|) && |r.spans| > 0
    requires Tiled(s, i + 1, if s[i] == '\n' then line + 1 else line, r)
    ensures Laid(r.spans, st, |s|) && Tiled(s, st, line, r)
  {
    var b := r.spans[0].from;
    forall m | st <= m < i
      ensures s[m] != '\n'
    {
      assert LeadAt(s, m) == Other;
    }
    NewlinesSplit(s, st, i, b);
    NewlinesSplit(s, i, i + 1, b);
    assert Dropped(s, st, b);
  }

  /** Counting newlines distributes over adjacent ranges. */
  lemma {:induction false} NewlinesSplit(s: string, a: nat, b: nat, c: nat)
    requires a <= b <= c <= |s|
    ensures Newlines(s, a, c) == Newlines(s, a, b) + Newlines(s, b, c)
    decreases c - b
  {
    if b < c {
      NewlinesSplit(s, a, b, c - 1);
    }
  }

  /** The cases of `ScanFrom` that cut a token of fixed width. */
  lemma {:induction false} LeadTokenSound(s: string, st: nat, i: nat, line: nat)
    requires st <= i < |s|
    requires LeadAt(s, i) in {Logical, Relational, Delimiting, Quote, Operator}
    ensures Sound(s, st, line, ScanFrom(s, st, i, line))
    decreases |s| - i, 1
  {
    match LeadAt(s, i)
    case Logical => LogicalSound(s, st, i, line);
    case Relational => RelationalSound(s, st, i, line);
    case Delimiting => OperatorSound(s, Delimiter, st, i, i + 1, line);
    case Quote => QuoteSound(s, st, i, line);
    case Operator => OperatorSound(s, ArithmeticOp, st, i, ArithmeticEnd(s, i), line);
  }

  lemma {:induction false} LogicalSound(s: string, st: nat, i: nat, line: nat)
    requires st <= i < |s| && LeadAt(s, i) == Logical
    ensures Sound(s, st, line, ScanFrom(s, st, i, line))
    decreases |s| - i, 0
  {
    var (kind, e) := LogicalOperator(s, i);
    ResumeSound(s, kind, st, e, line);
  }

  lemma {:induction false} RelationalSound(s: string, st: nat, i: nat, line: nat)
    requires st <= i < |s| && LeadAt(s, i) == Relational
    ensures Sound(s, st, line, ScanFrom(s, st, i, line))
    decreases |s| - i, 0
  {
    var (kind, e) := RelationalOperator(s, i);
    ResumeSound(s, kind, st, e, line);
  }

  /** An operator or delimiter of kind `kind` from `i` to `e`. */
  lemma {:induction false} OperatorSound(s: string, kind: Kind, st: nat, i: nat, e: nat, line: nat)
    requires st <= i < e <= |s| && kind in {LogicalOp, MalformedLogicalOp, RelationalOp, ArithmeticOp, Delimiter}
    ensures Sound(s, st, line, Resume(s, kind, st, e, line))
    decreases |s| - i, 0
  {
    ResumeSound(s, kind, st, e, line);
  }

  /** A quote starts a character literal or is a malformed one. */
  lemma {:induction false} QuoteSound(s: string, st: nat, i: nat, line: nat)
    requires st <= i < |s| && LeadAt(s, i) == Quote
    ensures Sound(s, st, line, ScanFrom(s, st, i, line))
    decreases |s| - i, 0
  {
    if i + 1 < |s| && (IsLetter(s[i + 1]) || IsDigit(s[i + 1])) {
      CharSound(s, st, i + 2, line);
    } else {
      ResumeSound(s, MalformedChar, st, i + 1, line);
    }
  }


  lemma {:induction false} ResumeSound(s: string, kind: Kind, st: nat, e: nat, line: nat)
    requires st <= e <= |s| && Emittable(kind) && kind != EOF && Classified(s, Span(kind, st, e, line))
    ensures Sound(s, st, line, Resume(s, kind, st, e, line))
    ensures Resume(s, kind, st, e, line).spans[0] == Span(kind, st, e, line)
    decreases |s| - e, 3
  {
    ScanSound(s, e, e, line);
    ConsSound(s, st, line, Span(kind, st, e, line), e, ScanFrom(s, e, e, line));
  }

  lemma FinalSound(s: string, kind: Kind, st: nat, e: nat, line: nat)
    requires st <= e <= |s| && Stopped(s, e) && Emittable(kind) && kind != EOF && Classified(s, Span(kind, st, e, line))
    ensures Sound(s, st, line, Final(s, kind, st, e, line))
  {
    var eof := Scan([Span(EOF, e, e, line)], false);
    EndSound(s, e, e, line);
    ConsSound(s, st, line, Span(kind, st, e, line), e, eof);
    assert Final(s, kind, st, e, line) == Cons(Span(kind, st, e, line), eof);
  }

  lemma {:induction false} WordSound(s: string, st: nat, p: nat, line: nat)
    requires st < p <= |s| && Pending(s, st, p - 1) && IsLetter(s[p - 1])
    ensures Sound(s, st, line, WordFrom(s, st, p, line))
    decreases |s| - p, 6
  {
    var j := RunEnd(s, p, WordRunes);
    if j == p {
      LetterSound(s, st, p, line);
    } else {
      ResumeSound(s, WordKind(s[st..j]), st, j, line);
    }
  }

  /** A word of one letter is an identifier. */
  lemma {:induction false} LetterSound(s: string, st: nat, p: nat, line: nat)
    requires st < p <= |s| && Pending(s, st, p - 1) && RunEnd(s, p, WordRunes) == p
    ensures Sound(s, st, line, WordFrom(s, st, p, line))
    decreases |s| - p, 5
  {
    if p == |s| {
      LetterNotKeyword(s, st, p, p);
      LetterAtEndSound(s, st, p, line);
    } else if s[p] == EofRune {
      LetterNotKeyword(s, st, p, p + 1);
      LetterSentinelSound(s, st, p, line);
    } else {
      LetterNotKeyword(s, st, p, p);
      LetterThenSound(s, st, p, line);
    }
  }

  lemma LetterAtEndSound(s: string, st: nat, p: nat, line: nat)
    requires st < p == |s| && RunEnd(s, p, WordRunes) == p && !IsKeyword(s[st..p])
    ensures Sound(s, st, line, WordFrom(s, st, p, line))
  {
    FinalSound(s, Identifier, st, p, line);
  }

  lemma LetterSentinelSound(s: string, st: nat, p: nat, line: nat)
    requires st < p < |s| && RunEnd(s, p, WordRunes) == p && s[p] == EofRune && !IsKeyword(s[st..p + 1])
    ensures Sound(s, st, line, WordFrom(s, st, p, line))
  {
    FinalSound(s, Identifier, st, p + 1, line);
  }

  lemma {:induction false} LetterThenSound(s: string, st: nat, p: nat, line: nat)
    requires st < p < |s| && RunEnd(s, p, WordRunes) == p && s[p] != EofRune && !IsKeyword(s[st..p])
    ensures Sound(s, st, line, WordFrom(s, st, p, line))
    decreases |s| - p, 4
  {
    ResumeSound(s, Identifier, st, p, line);
  }

  /** A word of one letter, with the pending runes in front of it and
      perhaps a literal sentinel after it, is no reserved word. */
  lemma LetterNotKeyword(s: string, st: nat, p: nat, e: nat)
    requires st < p <= e <= |s| && e <= p + 1 && Pending(s, st, p - 1)
    requires e == p + 1 ==> s[p] == EofRune
    ensures !IsKeyword(s[st..e])
  {
    if st < p - 1 {
      assert LeadAt(s, st) == Other;
    }
    NotKeyword(s[st..e]);
  }

  lemma {:induction false} NumberSound(s: string, st: nat, p: nat, line: nat)
    requires st <= p <= |s|
    ensures Sound(s, st, line, NumberFrom(s, st, p, line))
    decreases |s| - p, 4
  {
    var j := RunEnd(s, p, Numerals);
    if j < |s| && s[j] == '.' {
      PointSound(s, st, p, line);
    } else {
      ResumeSound(s, Number, st, j, line);
    }
  }

  /** The cases of `NumberFrom` where the digits are followed by '.'. */
  lemma {:induction false} PointSound(s: string, st: nat, p: nat, line: nat)
    requires st <= p <= |s|
    requires RunEnd(s, p, Numerals) < |s| && s[RunEnd(s, p, Numerals)] == '.'
    ensures Sound(s, st, line, NumberFrom(s, st, p, line))
    decreases |s| - p, 2
  {
    var j := RunEnd(s, p, Numerals);
    if j + 1 < |s| && IsNumber(s[j + 1]) {
      FractionSound(s, st, p, j, line);
    } else if j + 1 == |s| {
      PointAtEndSound(s, st, p, j, line);
    } else {
      PointCrashSound(s, st, p, j, line);
    }
  }

  /** Digits, '.', digits. */
  lemma {:induction false} FractionSound(s: string, st: nat, p: nat, j: nat, line: nat)
    requires st <= p <= j && j + 1 < |s| && j == RunEnd(s, p, Numerals) && s[j] == '.' && IsNumber(s[j + 1])
    ensures Sound(s, st, line, NumberFrom(s, st, p, line))
    decreases |s| - p, 1
  {
    var k := RunEnd(s, j + 1, Numerals);
    assert NumberFrom(s, st, p, line) == Resume(s, Number, st, k, line);
    ResumeSound(s, Number, st, k, line);
  }

  /** Digits and '.' at the end of the input. */
  lemma {:induction false} PointAtEndSound(s: string, st: nat, p: nat, j: nat, line: nat)
    requires st <= p <= j && j + 1 == |s| && j == RunEnd(s, p, Numerals) && s[j] == '.'
    ensures Sound(s, st, line, NumberFrom(s, st, p, line))
    decreases |s| - p, 1
  {
    assert NumberFrom(s, st, p, line) ==
      Cons(Span(MalformedNumber, st, j + 1, line), Resume(s, Number, j + 1, j + 1, line));
    FinalPointSound(s, st, j, line);
  }

  /** Digits and '.' followed by a rune that is no digit. */
  lemma PointCrashSound(s: string, st: nat, p: nat, j: nat, line: nat)
    requires st <= p <= j && j + 1 < |s| && j == RunEnd(s, p, Numerals) && s[j] == '.' && !IsNumber(s[j + 1])
    ensures Sound(s, st, line, NumberFrom(s, st, p, line))
  {
    assert NumberFrom(s, st, p, line) == Scan([Span(MalformedNumber, st, j, line)], true);
    BrokenOffSound(s, st, j, line);
  }

  lemma {:induction false} FinalPointSound(s: string, st: nat, j: nat, line: nat)
    requires st <= j && j + 1 == |s|
    ensures Sound(s, st, line, Cons(Span(MalformedNumber, st, j + 1, line), Resume(s, Number, j + 1, j + 1, line)))
    decreases 0, 4
  {
    ResumeSound(s, Number, j + 1, j + 1, line);
    ConsSound(s, st, line, Span(MalformedNumber, st, j + 1, line), j + 1, Resume(s, Number, j + 1, j + 1, line));
  }

  lemma BrokenOffSound(s: string, st: nat, j: nat, line: nat)
    requires st <= j <= |s|
    ensures Sound(s, st, line, Scan([Span(MalformedNumber, st, j, line)], true))
  {
  }

  lemma {:induction false} CharSound(s: string, st: nat, p: nat, line: nat)
    requires st <= p <= |s|
    ensures Sound(s, st, line, CharFrom(s, st, p, line))
    decreases |s| - p, 4
  {
    ResumeSound(s, Char, st, if p < |s| then p + 1 else p, line);
  }

  lemma {:induction false} StringSound(s: string, st: nat, p: nat, line: nat)
    requires st <= p <= |s|
    ensures Sound(s, st, line, StringFrom(s, st, p, line))
    decreases |s| - p, 4
  {
    StringUpToSound(s, st, RunEnd(s, p, StringRunes), line);
  }

  lemma {:induction false} StringUpToSound(s: string, st: nat, j: nat, line: nat)
    requires st <= j <= |s|
    requires j == |s| || !InString(s[j])
    ensures Sound(s, st, line, StringUpTo(s, st, j, line))
    decreases |s| - j, 3
  {
    if j == |s| {
      FinalSound(s, MalformedString, st, j, line);
    } else if s[j] == '"' {
      ResumeSound(s, String, st, j + 1, line);
    } else {
      FinalSound(s, MalformedString, st, j + 1, line);
    }
  }

  lemma {:induction false} CommentSound(s: string, st: nat, p: nat, line: nat)
    requires st <= p <= |s|
    ensures Sound(s, st, line, CommentFrom(s, st, p, line))
    decreases |s| - p, 4
  {
    CommentUpToSound(s, st, CommentEnd(s, p), line);
  }

  lemma {:induction false} CommentUpToSound(s: string, st: nat, j: nat, line: nat)
    requires st <= j <= |s|
    requires j == |s| || s[j] == EofRune || (s[j] == '#' && j + 1 < |s| && s[j + 1] == '/')
    ensures Sound(s, st, line, CommentUpTo(s, st, j, line))
    decreases |s| - j, 3
  {
    if j == |s| || s[j] == EofRune {
      CommentStopsSound(s, st, j, line);
    } else {
      ResumeSound(s, BlockComment, st, j + 2, line);
    }
  }

  /** A comment that the end of input or a sentinel cuts short. */
  lemma CommentStopsSound(s: string, st: nat, j: nat, line: nat)
    requires st <= j <= |s| && (j == |s| || s[j] == EofRune)
    ensures Sound(s, st, line, CommentUpTo(s, st, j, line))
  {
    var e := if j == |s| then j else j + 1;
    FinalSound(s, MalformedComment, st, e, line);
  }
}
