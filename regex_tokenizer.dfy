/**
 * The tokenizer the parser actually uses (vnnlib/parser.py, `tokenize`): an
 * ordered alternation of regular expressions, one per token class, tried at
 * each position; matches must tile the text, and a gap or an unmatched tail
 * is an "Unknown string" error.
 *
 * Each class is modelled as a function giving the length of its match at the
 * start of the remaining text (the leftmost match the backtracking engine
 * finds, worked out class by class), and the alternation as the first class
 * in declaration order that matches.
 */
module RegexTokenizer {
  import opened Lexicon
  import opened Errors

  /** Start and end offsets of a token in the text. */
  datatype Meta = Meta(startPos: int, endPos: int)

  datatype Token = Token(kind: Kind, value: string, meta: Meta)

  /** The placeholder a parser holds before it reads anything. */
  const DummyToken: Token := Token(Dummy, "", Meta(0, 0))

  /** The sentinel an exhausted token stream yields. */
  const EofToken: Token := Token(Eof, "", Meta(-1, -1))

  /** The `token_type` string of a kind: the group name of its pattern, `EOF` or `_`. */
  function KindName(k: Kind): string {
    match k
    case LParen => "LPAREN"
    case RParen => "RPAREN"
    case Symbol => "SYMBOL"
    case Numeral => "NUMERAL"
    case Decimal => "DECIMAL"
    case Hexadecimal => "HEXADECIMAL"
    case Binary => "BINARY"
    case String => "STRING"
    case Comment => "COMMENT"
    case Whitespace => "WS"
    case Eof => "EOF"
    case Dummy => "_"
  }

  /** A class matched at some position, and the length of its match. */
  datatype Match = Match(kind: Kind, len: nat)

  /** The tokens produced before the stream stopped, and the error that stopped it, if any. */
  datatype TokenStream = TokenStream(tokens: seq<Token>, error: Option<Error>)


  function UnknownString(gap: string): Error {
    ParserError("Unknown string: " + Repr(gap))
  }

  /** COMMENT: `;`, a run of tab or printable ASCII, then a line break or the end of the text. */
  function MatchComment(s: seq<char>): (r: Option<nat>)
    ensures r.Some? ==> 0 < r.value <= |s|
  {
    if s == [] || s[0] != ';' then None
    else
      var e := 1 + Span(s[1..], CommentChars);
      if e == |s| then Some(e)
      else if IsLineBreak(s[e]) then Some(e + 1)
      else None
  }

  /** WS: one whitespace character. */
  function MatchWhitespace(s: seq<char>): (r: Option<nat>)
    ensures r.Some? ==> 0 < r.value <= |s|
  {
    if s != [] && IsWhitespace(s[0]) then Some(1) else None
  }

  /** LPAREN and RPAREN: one fixed character. */
  function MatchChar(s: seq<char>, c: char): (r: Option<nat>)
    ensures r.Some? ==> 0 < r.value <= |s|
  {
    if s != [] && s[0] == c then Some(1) else None
  }

  /** BINARY and HEXADECIMAL: `#`, the marker, then at least one digit of `cls`. */
  function MatchPrefixed(s: seq<char>, marker: char, cls: CharClass): (r: Option<nat>)
    ensures r.Some? ==> 2 < r.value <= |s|
  {
    if |s| < 2 || s[0] != '#' || s[1] != marker then None
    else
      var n := Span(s[2..], cls);
      if n == 0 then None else Some(2 + n)
  }

  /** NUMERAL: `0`, or a non-zero digit followed by the rest of the digit run. */
  function MatchNumeral(s: seq<char>): (r: Option<nat>)
    ensures r.Some? ==> 0 < r.value <= |s|
  {
    if s == [] || !IsDigit(s[0]) then None
    else if s[0] == '0' then Some(1)
    else Some(Span(s, Digits))
  }

  /**
   * The optional exponent of an extended DECIMAL: `e`/`E`, an optional sign,
   * then at least one digit; 0 when that is not there.
   */
  function ExponentLength(t: seq<char>): (n: nat)
    ensures n <= |t|
  {
    if t == [] || t[0] !in "eE" then 0
    else if |t| >= 2 && t[1] in "+-" && Span(t[2..], Digits) > 0 then 2 + Span(t[2..], Digits)
    else if Span(t[1..], Digits) > 0 then 1 + Span(t[1..], Digits)
    else 0
  }

  /**
   * DECIMAL: a NUMERAL, `.`, then a non-empty digit run (the regex's
   * `0*NUMERAL` matches exactly the maximal run); outside strict mode an
   * exponent may follow.
   */
  function MatchDecimal(s: seq<char>, strict: bool): (r: Option<nat>)
    ensures r.Some? ==> 0 < r.value <= |s|
  {
    match MatchNumeral(s)
    case None => None
    case Some(k) =>
      if k == |s| || s[k] != '.' then None
      else
        var f := Span(s[k + 1..], Digits);
        if f == 0 then None
        else
          var e := k + 1 + f;
          if strict then Some(e) else Some(e + ExponentLength(s[e..]))
  }

  /** The index of the last `"` in `t`, if any. */
  function LastQuote(t: seq<char>): (r: Option<nat>)
    ensures r.Some? ==> r.value < |t| && t[r.value] == '"' && forall j | r.value < j < |t| :: t[j] != '"'
    ensures r.None? ==> forall j | 0 <= j < |t| :: t[j] != '"'
  {
    if t == [] then None
    else if t[|t| - 1] == '"' then Some(|t| - 1)
    else LastQuote(t[..|t| - 1])
  }

  /**
   * STRING: `"`, then characters allowed in a string (which include `"`),
   * up to the last `"` of the longest such run.
   */
  function MatchString(s: seq<char>): (r: Option<nat>)
    ensures r.Some? ==> 1 < r.value <= |s|
  {
    if s == [] || s[0] != '"' then None
    else
      var body := s[1..1 + Span(s[1..], StringChars)];
      match LastQuote(body)
      case None => None
      case Some(q) => Some(q + 2)
  }

  /** SYMBOL: a simple symbol, or `|`, quoted-symbol characters, `|`. */
  function MatchSymbol(s: seq<char>): (r: Option<nat>)
    ensures r.Some? ==> 0 < r.value <= |s|
  {
    if s == [] then None
    else if IsSymbolStart(s[0]) then Some(Span(s, SymbolChars))
    else if s[0] == '|' then
      var n := Span(s[1..], QuotedSymbolChars);
      if 1 + n < |s| && s[1 + n] == '|' then Some(n + 2) else None
    else None
  }

  /** The named groups of the pattern, in the order it joins them. */
  const PatternOrder: seq<Kind> :=
    [Comment, Whitespace, LParen, RParen, Binary, Hexadecimal, Decimal, Numeral, String, Symbol]

  /** The match of the group for `k` at the start of `s`. */
  function MatchGroup(k: Kind, s: seq<char>, strict: bool): (r: Option<nat>)
    ensures r.Some? ==> 0 < r.value <= |s|
  {
    match k
    case Comment => MatchComment(s)
    case Whitespace => MatchWhitespace(s)
    case LParen => MatchChar(s, '(')
    case RParen => MatchChar(s, ')')
    case Binary => MatchPrefixed(s, 'b', BinDigits)
    case Hexadecimal => MatchPrefixed(s, 'x', HexDigits)
    case Decimal => MatchDecimal(s, strict)
    case Numeral => MatchNumeral(s)
    case String => MatchString(s)
    case Symbol => MatchSymbol(s)
    case Eof => None
    case Dummy => None
  }

  /** The first of `groups` that matches at the start of `s`. */
  function FirstGroup(groups: seq<Kind>, s: seq<char>, strict: bool): (r: Option<Match>)
    ensures r.Some? ==> 0 < r.value.len <= |s| && r.value.kind in groups
    ensures r.Some? ==> MatchGroup(r.value.kind, s, strict) == Some(r.value.len)
  {
    if groups == [] then None
    else
      var m := MatchGroup(groups[0], s, strict);
      if m.Some? then Some(Match(groups[0], m.value)) else FirstGroup(groups[1..], s, strict)
  }

  /** The match of the whole pattern at the start of `s`. */
  function MatchAt(s: seq<char>, strict: bool): (r: Option<Match>)
    ensures r.Some? ==> 0 < r.value.len <= |s| && r.value.kind !in {Eof, Dummy}
  {
    FirstGroup(PatternOrder, s, strict)
  }

  /** A compiled pattern: the match it finds at the start of a text, if any. */
  type Pattern = seq<char> -> Option<Match>

  /** Every match of `p` consumes at least one character of the text it is found in. */
  ghost predicate Advances(p: Pattern) {
    forall s: seq<char> :: p(s).Some? ==> 0 < p(s).value.len <= |s|
  }

  /** The pattern `tokenize` compiles for the given mode. */
  function TokenPattern(strict: bool): (p: Pattern)
    ensures Advances(p)
    ensures forall s :: p(s).Some? ==> p(s).value.kind !in {Eof, Dummy}
  {
    s => MatchAt(s, strict)
  }

  /** The first position from `pos` on where `p` matches (the search `finditer` performs). */
  function NextMatch(text: string, pos: nat, p: Pattern): (r: Option<nat>)
    requires pos <= |text|
    ensures r.Some? ==> pos <= r.value < |text| && p(text[r.value..]).Some?
    decreases |text| - pos
  {
    if pos == |text| then None
    else if p(text[pos..]).Some? then Some(pos)
    else NextMatch(text, pos + 1, p)
  }

  /** `NextMatch` finds the first matching position: `p` matches nowhere before it. */
  lemma {:induction false} NextMatchIsFirst(text: string, pos: nat, p: Pattern)
    requires pos <= |text| && NextMatch(text, pos, p).Some?
    ensures forall q | pos <= q < NextMatch(text, pos, p).value :: p(text[q..]).None?
    decreases |text| - pos
  {
    if p(text[pos..]).None? {
      NextMatchIsFirst(text, pos + 1, p);
    }
  }

  /** When `NextMatch` finds nothing, `p` matches nowhere from `pos` on. */
  lemma {:induction false} NoNextMatch(text: string, pos: nat, p: Pattern)
    requires pos <= |text| && NextMatch(text, pos, p).None?
    ensures forall q | pos <= q < |text| :: p(text[q..]).None?
    decreases |text| - pos
  {
    if pos < |text| {
      NoNextMatch(text, pos + 1, p);
    }
  }

  function Then(ts: seq<Token>, r: TokenStream): TokenStream {
    TokenStream(ts + r.tokens, r.error)
  }

  lemma ThenAssociative(a: seq<Token>, b: seq<Token>, r: TokenStream)
    ensures Then(a, Then(b, r)) == Then(a + b, r)
  {
    assert a + (b + r.tokens) == (a + b) + r.tokens;
  }

  /** What the matches of `p` yield from offset `pos` on. */
  function TokensFrom(text: string, pos: nat, skip: set<Kind>, p: Pattern): TokenStream
    requires pos <= |text| && Advances(p)
    decreases |text| - pos
  {
    match NextMatch(text, pos, p)
    case None =>
      if pos == |text| then TokenStream([], None) else TokenStream([], Some(UnknownString(text[pos..])))
    case Some(q) =>
      if q != pos then TokenStream([], Some(UnknownString(text[pos..q])))
      else
        var m := p(text[q..]).value;
        var rest := TokensFrom(text, q + m.len, skip, p);
        if m.kind in skip then rest
        else Then([Token(m.kind, text[q..q + m.len], Meta(q, q + m.len))], rest)
  }

  /** What `tokenize(text, skip, strict)` yields. */
  function Tokens(text: string, skip: set<Kind>, strict: bool): TokenStream {
    if |text| == 0 then TokenStream([], None) else TokensFrom(text, 0, skip, TokenPattern(strict))
  }

  /**
   * The loop over the matches `finditer` yields: each must start where the
   * last one ended; matches of a kind in `skip` are dropped.
   */
  method FindTokens(text: string, skip: set<Kind>, p: Pattern) returns (tokens: seq<Token>, error: Option<Error>)
    requires Advances(p)
    ensures TokenStream(tokens, error) == TokensFrom(text, 0, skip, p)
  {
    tokens, error := [], None;
    var pos := 0;
    while true
      invariant pos <= |text|
      invariant TokensFrom(text, 0, skip, p) == Then(tokens, TokensFrom(text, pos, skip, p))
      decreases |text| - pos
    {
      var found := NextMatch(text, pos, p);
      if found.None? {
        break;
      }
      var start := found.value;
      if start != pos {
        error := Some(UnknownString(text[pos..start]));
        return;
      }
      var m := p(text[start..]).value;
      var end := start + m.len;
      if m.kind !in skip {
        var t := Token(m.kind, text[start..end], Meta(start, end));
        ThenAssociative(tokens, [t], TokensFrom(text, end, skip, p));
        tokens := tokens + [t];
      }
      pos := end;
    }
    if pos != |text| {
      error := Some(UnknownString(text[pos..]));
    }
  }

  /** `tokenize`: nothing for the empty text, else the matches of the compiled pattern. */
  method Tokenize(text: string, skip: set<Kind>, strict: bool) returns (tokens: seq<Token>, error: Option<Error>)
    ensures TokenStream(tokens, error) == Tokens(text, skip, strict)
  {
    if |text| == 0 {
      return [], None;
    }
    tokens, error := FindTokens(text, skip, TokenPattern(strict));
  }
}
