/**
 * Character classes of the SMT-LIB lexicon (SMT-LIB Standard v2.6, section 3.1)
 * as the two tokenizers of the library spell them, and the token kinds they produce.
 */
module Lexicon {

  /** Tab, line feed, carriage return and space. */
  predicate IsWhitespace(c: char) {
    c == '\t' || c == '\n' || c == '\r' || c == ' '
  }

  predicate IsDigit(c: char) {
    '0' <= c <= '9'
  }

  predicate IsHexDigit(c: char) {
    IsDigit(c) || 'a' <= c <= 'f' || 'A' <= c <= 'F'
  }

  predicate IsBinDigit(c: char) {
    c == '0' || c == '1'
  }

  predicate IsLetter(c: char) {
    'a' <= c <= 'z' || 'A' <= c <= 'Z'
  }

  /** The punctuation allowed in a simple symbol. */
  predicate IsSymbolPunct(c: char) {
    c in "~!@$%^&*+=<>.?/_-"
  }

  /** A character that may start a simple symbol. */
  predicate IsSymbolStart(c: char) {
    IsLetter(c) || IsSymbolPunct(c)
  }

  /** A character that may continue a simple symbol. */
  predicate IsSymbolChar(c: char) {
    IsSymbolStart(c) || IsDigit(c)
  }

  predicate IsLineBreak(c: char) {
    c == '\n' || c == '\r'
  }

  /** Every element of `s` is a digit. */
  predicate AllDigits(s: seq<char>) {
    forall i | 0 <= i < |s| :: IsDigit(s[i])
  }

  /**
   * Token kinds. `Dummy` is the kind `_` of the placeholder token a parser
   * holds before it has read anything; `Comment` and `Whitespace` are only
   * produced by the parser's own tokenizer, which may be asked to keep them.
   */
  datatype Kind =
    | LParen | RParen | Symbol | Numeral | Decimal | Hexadecimal | Binary | String
    | Comment | Whitespace | Eof | Dummy

  /** A comment character of parser.py's tokenizer: tab or printable ASCII. */
  predicate IsCommentChar(c: char) {
    c == '\t' || ' ' <= c <= '~'
  }

  /** A Latin-1 supplement character, which the SMT-LIB grammar admits as printable. */
  predicate IsHighPrintable(c: char) {
    '\U{80}' <= c <= '\U{FF}'
  }

  /** A character allowed inside a string literal by parser.py's tokenizer. */
  predicate IsStringChar(c: char) {
    IsWhitespace(c) || ' ' <= c <= '~' || IsHighPrintable(c)
  }

  /** A character allowed inside a `|quoted|` symbol by parser.py's tokenizer. */
  predicate IsQuotedSymbolChar(c: char) {
    (' ' <= c <= '~' && c != '\\' && c != '|') || IsHighPrintable(c)
  }

  /** The runs of characters the scanners consume greedily. */
  datatype CharClass =
    | Digits | HexDigits | BinDigits | SymbolChars | NotLineBreak | NotBarOrBackslash
    | CommentChars | StringChars | QuotedSymbolChars

  predicate InClass(c: char, cls: CharClass) {
    match cls
    case Digits => IsDigit(c)
    case HexDigits => IsHexDigit(c)
    case BinDigits => IsBinDigit(c)
    case SymbolChars => IsSymbolChar(c)
    case NotLineBreak => !IsLineBreak(c)
    case NotBarOrBackslash => c != '|' && c != '\\'
    case CommentChars => IsCommentChar(c)
    case StringChars => IsStringChar(c)
    case QuotedSymbolChars => IsQuotedSymbolChar(c)
  }

  /** The length of the longest prefix of `s` whose characters are all in `cls`. */
  function Span(s: seq<char>, cls: CharClass): (n: nat)
    ensures n <= |s|
    ensures forall i | 0 <= i < n :: InClass(s[i], cls)
    ensures n == |s| || !InClass(s[n], cls)
  {
    if s == [] || !InClass(s[0], cls) then 0 else 1 + Span(s[1..], cls)
  }

  /** A run of `cls` characters followed by one outside `cls` (or nothing) spans exactly the run. */
  lemma {:induction false} SpanOfRun(run: seq<char>, rest: seq<char>, cls: CharClass)
    requires forall i | 0 <= i < |run| :: InClass(run[i], cls)
    requires rest == [] || !InClass(rest[0], cls)
    ensures Span(run + rest, cls) == |run|
    decreases |run|
  {
    if run != [] {
      assert (run + rest)[1..] == run[1..] + rest;
      SpanOfRun(run[1..], rest, cls);
    }
  }

  /** A span that stops inside `t` is not changed by text after `t`. */
  lemma {:induction false} SpanStopsWithin(t: seq<char>, rest: seq<char>, cls: CharClass)
    requires Span(t, cls) < |t|
    ensures Span(t + rest, cls) == Span(t, cls)
    decreases |t|
  {
    if InClass(t[0], cls) {
      assert (t + rest)[1..] == t[1..] + rest;
      SpanStopsWithin(t[1..], rest, cls);
    }
  }
}
