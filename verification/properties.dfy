/** What every scan delivers, stated about `Lex` itself: where the tokens
    come from, how the scan ends, how line numbers and kinds behave, and
    how words are classified. Each is carried over from the soundness of
    the span description by `LexAgrees`. */
module Properties {
  import opened Tokens
  import opened Scanner
  import opened Reference
  import opened Agreement

  /** The tokens `ts` are cut out of `s` at the spans `at`: in order,
      without overlap, each with its span's kind and line. */
  predicate CutOut(s: string, ts: seq<Token>, at: seq<Span>) {
    && |at| == |ts|
    && Laid(at, 0, |s|)
    && (forall k :: 0 <= k < |ts| ==>
          && at[k].from <= at[k].to <= |s|
          && ts[k] == Token(at[k].kind, s[at[k].from..at[k].to], at[k].line))
  }

  lemma CutOutByScan(s: string)
    ensures CutOut(s, Lex(s).tokens, Scanned(s).spans)
  {
    LexAgrees(s);
    ScannedSound(s);
    assert Lex(s).tokens == TokensOf(s, Scanned(s).spans);
    CutOutOfSpans(s, Scanned(s).spans);
  }

  lemma CutOutOfSpans(s: string, at: seq<Span>)
    requires Laid(at, 0, |s|)
    ensures CutOut(s, TokensOf(s, at), at)
  {
    var ts := TokensOf(s, at);
    forall k | 0 <= k < |ts|
      ensures at[k].from <= at[k].to <= |s|
      ensures ts[k] == Token(at[k].kind, s[at[k].from..at[k].to], at[k].line)
    {
      assert ts[k] == TokenOf(s, at[k]);
    }
  }

  /** Every token's lexeme is a slice of the input, and the slices follow
      one another left to right without overlapping. */
  lemma LexCutsInput(s: string)
    ensures exists at :: CutOut(s, Lex(s).tokens, at)
  {
    CutOutByScan(s);
  }

  /** A scan always ends. One that completes delivers exactly one EOF
      token, as its last; one that breaks off delivers none. */
  lemma LexEnds(s: string)
    ensures |Lex(s).tokens| > 0
    ensures forall k :: 0 <= k < |Lex(s).tokens| - 1 ==> Lex(s).tokens[k].kind != EOF
    ensures Lex(s).Ok? <==> Lex(s).tokens[|Lex(s).tokens| - 1].kind == EOF
  {
    LexAgrees(s);
    ScannedSound(s);
    TokensEnd(s, Scanned(s));
    assert Lex(s).tokens == TokensOf(s, Scanned(s).spans);
  }

  lemma TokensEnd(s: string, r: Scan)
    requires Terminated(r)
    ensures var ts := TokensOf(s, r.spans);
      && |ts| > 0
      && (forall k :: 0 <= k < |ts| - 1 ==> ts[k].kind != EOF)
      && (ts[|ts| - 1].kind == EOF <==> !r.crashed)
  {
  }

  /** The tokens account for the whole input up to where the scan stops:
      in front of the first token and between two tokens lies only text
      the scanner drops (whitespace and runes that start no lexeme),
      ending in whitespace unless it is empty, and a scan that completes
      ends at the end of input or right after a sentinel. */
  lemma LexTiles(s: string)
    ensures exists at: seq<Span> :: CutOut(s, Lex(s).tokens, at) && |at| > 0 && Tiled(s, 0, 0, Scan(at, !Lex(s).Ok?))
  {
    ScannedSound(s);
    CutOutByScan(s);
    LexEnds(s);
    var r := Scanned(s);
    assert r == Scan(r.spans, !Lex(s).Ok?);
  }

  /** The newlines the scan drops in front of span `k`: those in the text
      before it that no earlier span covers. */
  function DroppedNewlines(s: string, at: seq<Span>, k: nat): nat
    requires Laid(at, 0, |s|) && k < |at|
  {
    if k == 0 then Newlines(s, 0, at[0].from)
    else DroppedNewlines(s, at, k - 1) + Newlines(s, at[k - 1].to, at[k].from)
  }

  /** Dropped newlines are among the newlines in front of the span. */
  lemma {:induction false} DroppedNewlinesBound(s: string, at: seq<Span>, k: nat)
    requires Laid(at, 0, |s|) && k < |at|
    ensures DroppedNewlines(s, at, k) <= Newlines(s, 0, at[k].from)
  {
    if k > 0 {
      DroppedNewlinesBound(s, at, k - 1);
      NewlinesSplit(s, 0, at[k - 1].from, at[k - 1].to);
      NewlinesSplit(s, 0, at[k - 1].to, at[k].from);
    }
  }

  /** In a tiled scan from the start of input on line 0, each span's line
      is the number of newlines dropped in front of it. */
  lemma {:induction false} TiledLine(s: string, r: Scan, k: nat)
    requires Laid(r.spans, 0, |s|) && |r.spans| > 0 && Tiled(s, 0, 0, r) && k < |r.spans|
    ensures r.spans[k].line == DroppedNewlines(s, r.spans, k)
  {
    if k > 0 {
      TiledLine(s, r, k - 1);
      assert r.spans[k].line == r.spans[k - 1].line + Newlines(s, r.spans[k - 1].to, r.spans[k].from);
    }
  }

  /** The tokens `ts` are cut out of `s` at the spans `at`, and each
      token's line is the number of newlines dropped in front of its span. */
  predicate LinesCounted(s: string, ts: seq<Token>, at: seq<Span>) {
    && CutOut(s, ts, at)
    && forall k :: 0 <= k < |at| ==> ts[k].line == DroppedNewlines(s, at, k) <= Newlines(s, 0, at[k].from)
  }

  /** A token's line is the number of '\n' runes that whitespace dropped
      in front of it; newlines inside a comment, string or character
      literal do not count. In particular a token with no newline in
      front of it is on line 0. */
  lemma LexLineCount(s: string)
    ensures exists at: seq<Span> :: LinesCounted(s, Lex(s).tokens, at)
  {
    LexTiles(s);
    var at: seq<Span> :| CutOut(s, Lex(s).tokens, at) && |at| > 0 && Tiled(s, 0, 0, Scan(at, !Lex(s).Ok?));
    CutOutLines(s, Lex(s).tokens, Scan(at, !Lex(s).Ok?));
  }

  lemma CutOutLines(s: string, ts: seq<Token>, r: Scan)
    requires CutOut(s, ts, r.spans) && |r.spans| > 0 && Tiled(s, 0, 0, r)
    ensures LinesCounted(s, ts, r.spans)
  {
    forall k | 0 <= k < |r.spans|
      ensures ts[k].line == DroppedNewlines(s, r.spans, k) <= Newlines(s, 0, r.spans[k].from)
    {
      TiledLine(s, r, k);
      DroppedNewlinesBound(s, r.spans, k);
    }
  }

  /** Line numbers are never negative and never decrease. */
  lemma LexLines(s: string)
    ensures forall k :: 0 <= k < |Lex(s).tokens| ==> 0 <= Lex(s).tokens[k].line
    ensures forall k, m :: 0 <= k < m < |Lex(s).tokens| ==> Lex(s).tokens[k].line <= Lex(s).tokens[m].line
  {
    ScannedSound(s);
    CutOutByScan(s);
  }

  /** Only the emittable kinds occur: in particular no malformed
      relational or arithmetic operator, no letter and no digit token. */
  lemma LexKinds(s: string)
    ensures forall k :: 0 <= k < |Lex(s).tokens| ==> Emittable(Lex(s).tokens[k].kind)
    ensures forall k :: 0 <= k < |Lex(s).tokens| ==>
      Lex(s).tokens[k].kind !in {MalformedRelationalOp, MalformedArithmeticOp, Letter, Digit}
  {
    ScannedSound(s);
    CutOutByScan(s);
  }

  /** A keyword token's lexeme is a reserved word, and an identifier
      token's lexeme is not. */
  lemma LexWords(s: string)
    ensures forall k :: 0 <= k < |Lex(s).tokens| && Lex(s).tokens[k].kind == Keyword ==>
      IsKeyword(Lex(s).tokens[k].lexeme)
    ensures forall k :: 0 <= k < |Lex(s).tokens| && Lex(s).tokens[k].kind == Identifier ==>
      !IsKeyword(Lex(s).tokens[k].lexeme)
  {
    ScannedSound(s);
    CutOutByScan(s);
  }
}
