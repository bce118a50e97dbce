/** Token kinds, the token record, the reserved-word table and the rune
    classes the scanner dispatches on. */
module Tokens {

  /** The closed set of token kinds, in the order of their ordinals in the
      source (tokenError = 0, tokenKeyword = 1, ..., tokenEOF = 8, ...).
      Several kinds are declared but never produced by the scanner. */
  datatype Kind =
    | Error | Keyword | Letter | Identifier | Digit | Number | ArithmeticOp
    | BlockComment | EOF | RelationalOp | LogicalOp | Delimiter | Char | MalformedChar
    | If | LeftMeta | Pipe | Range | RawString | RightMeta | String | Text
    | MalformedNumber | MalformedComment | MalformedString | MalformedLogicalOp
    | MalformedArithmeticOp | MalformedRelationalOp

  /** A token: its kind, the exact source text it covers, and the line
      counter at the moment it was emitted. */
  datatype Token = Token(kind: Kind, lexeme: string, line: int)

  /** The ordinal of a kind, as the source's iota constants number them. */
  function Ordinal(k: Kind): nat {
    match k
    case Error => 0 case Keyword => 1 case Letter => 2 case Identifier => 3
    case Digit => 4 case Number => 5 case ArithmeticOp => 6 case BlockComment => 7
    case EOF => 8 case RelationalOp => 9 case LogicalOp => 10 case Delimiter => 11
    case Char => 12 case MalformedChar => 13 case If => 14 case LeftMeta => 15
    case Pipe => 16 case Range => 17 case RawString => 18 case RightMeta => 19
    case String => 20 case Text => 21 case MalformedNumber => 22
    case MalformedComment => 23 case MalformedString => 24 case MalformedLogicalOp => 25
    case MalformedArithmeticOp => 26 case MalformedRelationalOp => 27
  }

  /** The end-of-input sentinel that `next` returns: the EOF kind's ordinal
      read as a rune, i.e. U+0008. A literal U+0008 in the input is
      indistinguishable from it. */
  const EofRune: char := 8 as char

  /** The kinds the scanner can actually emit. */
  predicate Emittable(k: Kind) {
    k in {Keyword, Identifier, Number, ArithmeticOp, BlockComment, EOF, RelationalOp,
          LogicalOp, Delimiter, Char, MalformedChar, String, MalformedNumber,
          MalformedComment, MalformedString, MalformedLogicalOp}
  }

  /** The twenty reserved words, in declaration order. */
  const Keywords: seq<string> :=
    ["program", "var", "const", "register", "function", "procedure", "return", "main",
     "if", "else", "while", "read", "write", "integer", "real", "boolean", "char",
     "string", "true", "false"]

  predicate IsKeyword(w: string) {
    w in Keywords
  }

  /** How a finished word of two or more identifier runes is classified. */
  function WordKind(w: string): (k: Kind)
    ensures k == Keyword <==> IsKeyword(w)
    ensures k == Keyword || k == Identifier
  {
    if IsKeyword(w) then Keyword else Identifier
  }

  /** The arms of the switch in `emitIfKeyword`, one comparison per
      reserved-word constant, written out independently of `Keywords`. */
  predicate SwitchedWord(w: string) {
    || w == "program" || w == "var" || w == "const" || w == "register" || w == "function"
    || w == "procedure" || w == "return" || w == "main" || w == "if" || w == "else"
    || w == "while" || w == "read" || w == "write" || w == "integer" || w == "real"
    || w == "boolean" || w == "char" || w == "string" || w == "true" || w == "false"
  }

  /** A word is classified as a keyword exactly when one arm of the switch
      matches it, and as an identifier when the switch falls through to
      its default. */
  lemma WordKindBySwitch(w: string)
    ensures WordKind(w) == Keyword <==> SwitchedWord(w)
    ensures WordKind(w) == Identifier <==> !SwitchedWord(w)
  {
  }

  // Rune classes. The Unicode category tables behind unicode.IsLetter,
  // unicode.IsNumber and unicode.IsDigit are approximated by their ASCII
  // members; unicode.IsSpace is given its full Latin-1 set.

  predicate IsLetter(r: char) {
    ('a' <= r <= 'z') || ('A' <= r <= 'Z')
  }

  predicate IsNumber(r: char) {
    '0' <= r <= '9'
  }

  /** On ASCII the decimal-digit class and the number class coincide. */
  predicate IsDigit(r: char) {
    IsNumber(r)
  }

  predicate IsSpace(r: char) {
    ('\t' <= r <= '\r') || r == ' ' || r == 0x85 as char || r == 0xA0 as char
  }

  /** A rune that may continue an identifier: letter, number or underscore. */
  predicate IsIdentifierRune(r: char) {
    IsLetter(r) || IsNumber(r) || r == '_'
  }

  /** The decimal digits `lexNumber` accepts. */
  const Digits: string := "0123456789"

  /** The single-rune delimiters. */
  const Delimiters: string := ";,(){}[].:"

  /** `strings.Contains(s, sub)`: sub occurs somewhere in s. */
  predicate Contains(s: string, sub: string)
    decreases |s|
  {
    sub <= s || (|s| > 0 && Contains(s[1..], sub))
  }

  lemma DigitsAreNumbers(r: char)
    ensures r in Digits <==> IsNumber(r)
  {
    if IsNumber(r) {
      var d := r as int - '0' as int;
      assert Digits[d] == r;
    }
  }

  /** A text occurs only in texts at least as long as itself. */
  lemma {:induction false} ContainsNeedsRoom(s: string, sub: string)
    requires |s| < |sub|
    ensures !Contains(s, sub)
    decreases |s|
  {
    if |s| > 0 {
      ContainsNeedsRoom(s[1..], sub);
    }
  }

  /** Every reserved word starts with two letters, so a text that does not
      is no reserved word. */
  lemma NotKeyword(w: string)
    requires !(|w| >= 2 && IsLetter(w[0]) && IsLetter(w[1]))
    ensures !IsKeyword(w)
  {
  }

  /** No reserved word contains an underscore. */
  lemma KeywordsHaveNoUnderscore(w: string)
    requires IsKeyword(w)
    ensures '_' !in w
  {
  }
}
