/**
 * What the lexer of vnnlib/tokenizer.py promises, stated over `Lex` (which
 * `Tokenize` is proved to compute): where EOF appears, what is skipped, and
 * how each lexical class is cut out of the text.
 */
module TokenizerProperties {
  import opened Lexicon
  import opened Errors
  import opened Tokenizer

  /** The empty text yields exactly `[EOF]`. */
  lemma EmptyTextIsEof(strict: bool)
    ensures Lex([], strict) == LexResult([EofToken], Complete)
  {
  }

  /**
   * A completed scan ends with exactly one EOF and no other token is EOF;
   * a scan that fails or diverges yields no EOF at all.
   */
  predicate EofOnlyLast(r: LexResult) {
    && (r.ending.Complete? ==> |r.tokens| > 0 && r.tokens[|r.tokens| - 1] == EofToken)
    && forall i | 0 <= i < |r.tokens| && r.tokens[i].kind == Eof :: r.ending.Complete? && i == |r.tokens| - 1
  }

  lemma {:induction false} EofOnlyAtEnd(s: seq<char>, strict: bool)
    ensures EofOnlyLast(Lex(s, strict))
    decreases |s|
  {
    if s != [] {
      match Scan(s, strict)
      case Skip(n) =>
        LexSkips(s, strict, n);
        EofOnlyAtEnd(s[n..], strict);
      case Emit(t, n) =>
        LexEmits(s, strict, t, n);
        EofOnlyAtEnd(s[n..], strict);
        EofNotFirst(t, Lex(s[n..], strict));
      case Fail(e) =>
      case Hang =>
    }
  }

  /** Lex, one step: skipped text contributes nothing. */
  lemma LexSkips(s: seq<char>, strict: bool, n: nat)
    requires s != [] && Scan(s, strict) == Skip(n)
    ensures Lex(s, strict) == Lex(s[n..], strict)
  {
  }

  /** Prepending a non-EOF token keeps EOF at the end only. */
  lemma EofNotFirst(t: Token, r: LexResult)
    requires t.kind != Eof && EofOnlyLast(r)
    ensures EofOnlyLast(Then([t], r))
  {
    var ts := [t] + r.tokens;
    assert forall i | 1 <= i < |ts| :: ts[i] == r.tokens[i - 1];
  }

  /** Lex, one step: an emitted token comes first. */
  lemma LexEmits(s: seq<char>, strict: bool, t: Token, n: nat)
    requires s != [] && Scan(s, strict) == Emit(t, n)
    ensures Lex(s, strict) == Then([t], Lex(s[n..], strict))
  {
  }

  /** Lex, one step: a failing step is the whole outcome. */
  lemma LexFails(s: seq<char>, strict: bool, e: Error)
    requires s != [] && Scan(s, strict) == Fail(e)
    ensures Lex(s, strict) == LexResult([], Failed(e))
  {
  }

  lemma DigitDispatch(s: seq<char>, strict: bool)
    requires s != [] && IsDigit(s[0])
    ensures Scan(s, strict) == ScanNumber(s, strict)
  {
    var c := s[0];
    assert !IsWhitespace(c) && !IsSymbolStart(c);
    assert c != '(' && c != ')' && c != ';';
  }

  lemma HashDispatch(s: seq<char>, strict: bool)
    requires s != [] && s[0] == '#'
    ensures Scan(s, strict) == ScanHash(s)
  {
  }

  lemma BarDispatch(s: seq<char>, strict: bool)
    requires s != [] && s[0] == '|'
    ensures Scan(s, strict) == ScanQuoted(s)
  {
  }

  lemma QuoteDispatch(s: seq<char>, strict: bool)
    requires s != [] && s[0] == '"'
    ensures Scan(s, strict) == ScanString(s)
  {
  }

  lemma SymbolDispatch(s: seq<char>, strict: bool)
    requires s != [] && IsSymbolStart(s[0])
    ensures Scan(s, strict) == Emit(Token(Symbol, s[..Span(s, SymbolChars)]), Span(s, SymbolChars))
  {
  }

  lemma DropTwice(s: seq<char>, a: nat, k: nat)
    requires a + k <= |s|
    ensures s[a..][k..] == s[a + k..]
  {
  }

  /** Text that the scanner skips: whitespace, and comments closed by a line break. */
  ghost predicate Trivia(t: seq<char>)
    decreases |t|
  {
    || t == []
    || (IsWhitespace(t[0]) && Trivia(t[1..]))
    || (t[0] == ';' && var n := Span(t, NotLineBreak); n < |t| && Trivia(t[n..]))
  }

  /** Whitespace and line-closed comments produce no tokens, whatever follows them. */
  lemma {:induction false} TriviaProducesNothing(t: seq<char>, rest: seq<char>, strict: bool)
    requires Trivia(t)
    ensures Lex(t + rest, strict) == Lex(rest, strict)
    decreases |t|
  {
    if t == [] {
      assert t + rest == rest;
    } else if IsWhitespace(t[0]) && Trivia(t[1..]) {
      assert Scan(t + rest, strict) == Skip(1);
      assert (t + rest)[1..] == t[1..] + rest;
      TriviaProducesNothing(t[1..], rest, strict);
    } else {
      var n := Span(t, NotLineBreak);
      CommentStopsWithin(t, rest);
      CommentDispatch(t + rest, strict);
      TriviaProducesNothing(t[n..], rest, strict);
    }
  }

  /** A comment closed by a line break ends at that line break, whatever follows it. */
  lemma CommentStopsWithin(t: seq<char>, rest: seq<char>)
    requires t != [] && t[0] == ';' && Span(t, NotLineBreak) < |t|
    ensures var n := Span(t, NotLineBreak);
      && (t + rest)[0] == ';'
      && Span(t + rest, NotLineBreak) == n
      && (t + rest)[n..] == t[n..] + rest
  {
    SpanStopsWithin(t, rest, NotLineBreak);
    assert (t + rest)[Span(t, NotLineBreak)..] == t[Span(t, NotLineBreak)..] + rest;
  }

  lemma CommentDispatch(s: seq<char>, strict: bool)
    requires s != [] && s[0] == ';'
    ensures Scan(s, strict) == Skip(Span(s, NotLineBreak))
  {
  }

  /** A comment that runs to the end of the text yields only `[EOF]`. */
  lemma CommentToEndOfText(s: seq<char>, strict: bool)
    requires s != [] && s[0] == ';'
    requires forall i | 0 <= i < |s| :: !IsLineBreak(s[i])
    ensures Lex(s, strict) == LexResult([EofToken], Complete)
  {
    SpanOfRun(s, [], NotLineBreak);
    assert s + [] == s;
  }

  /** A maximal digit run not followed by `.`, `e` or `E` is one NUMERAL holding exactly that run. */
  lemma NumeralRun(d: seq<char>, rest: seq<char>, strict: bool)
    requires d != [] && AllDigits(d)
    requires rest == [] || (!IsDigit(rest[0]) && rest[0] !in ".eE")
    ensures Lex(d + rest, strict) == Then([Token(Numeral, d)], Lex(rest, strict))
  {
    var s := d + rest;
    SpanOfRun(d, rest, Digits);
    assert s[..|d|] == d && s[|d|..] == rest;
    DigitDispatch(s, strict);
    LexEmits(s, strict, Token(Numeral, d), |d|);
  }

  /** In strict mode an `e`/`E` right after the integer part is an error naming the text read so far. */
  lemma StrictRejectsExponentAfterInteger(d: seq<char>, c: char, rest: seq<char>)
    requires d != [] && AllDigits(d) && c in "eE"
    ensures Lex(d + [c] + rest, true) == LexResult([], Failed(StrictDecimalError(d + [c])))
  {
    var s := d + [c] + rest;
    SpanOfRun(d, [c] + rest, Digits);
    assert s == d + ([c] + rest);
    assert s[..|d| + 1] == d + [c];
    DigitDispatch(s, true);
    LexFails(s, true, StrictDecimalError(d + [c]));
  }

  /** In strict mode an `e`, `E`, `+` or `-` after the fraction is an error naming the text read so far. */
  lemma StrictRejectsExponentAfterFraction(d: seq<char>, f: seq<char>, c: char, rest: seq<char>)
    requires d != [] && AllDigits(d) && AllDigits(f) && c in "eE+-"
    ensures Lex(d + ['.'] + f + [c] + rest, true)
         == LexResult([], Failed(StrictDecimalError(d + ['.'] + f + [c])))
  {
    var s := d + ['.'] + f + [c] + rest;
    SpanOfRun(d, ['.'] + f + [c] + rest, Digits);
    assert s == d + (['.'] + f + [c] + rest);
    assert Span(s, Digits) == |d| && s[|d|] == '.';
    assert ScanNumber(s, true) == ScanFraction(s, true, |d| + 1);
    SpanOfRun(f, [c] + rest, Digits);
    assert s[|d| + 1..] == f + ([c] + rest);
    var e := |d| + 1 + |f|;
    assert Span(s[|d| + 1..], Digits) == |f| && s[e] == c;
    assert s[..e + 1] == d + ['.'] + f + [c];
    assert ScanFraction(s, true, |d| + 1) == Fail(StrictDecimalError(s[..e + 1]));
    DigitDispatch(s, true);
    LexFails(s, true, StrictDecimalError(d + ['.'] + f + [c]));
  }

  /** A decimal without exponent is one DECIMAL token, in either mode. */
  lemma DecimalRun(d: seq<char>, f: seq<char>, rest: seq<char>, strict: bool)
    requires d != [] && AllDigits(d) && AllDigits(f)
    requires f + rest != []
    requires rest == [] || (!IsDigit(rest[0]) && rest[0] !in "eE+-")
    ensures Lex(d + ['.'] + f + rest, strict) == Then([Token(Decimal, d + ['.'] + f)], Lex(rest, strict))
  {
    var s := d + ['.'] + f + rest;
    var n := |d| + 1 + |f|;
    DecimalPieces(d, f, rest);
    calc {
      Scan(s, strict);
      { DigitDispatch(s, strict); }
      ScanNumber(s, strict);
      { IntegerToFraction(s, strict, d, '.', f + rest); }
      ScanFraction(s, strict, |d| + 1);
      { FractionEnds(s, strict, |d| + 1, f, rest); }
      Emit(Token(Decimal, d + ['.'] + f), n);
    }
    LexEmits(s, strict, Token(Decimal, d + ['.'] + f), n);
  }

  /** Where the integer part, the point, the fraction and the rest of a decimal lie. */
  lemma DecimalPieces(d: seq<char>, f: seq<char>, rest: seq<char>)
    ensures var s, n := d + ['.'] + f + rest, |d| + 1 + |f|;
      && s == d + ['.'] + (f + rest)
      && s[|d| + 1..] == f + rest
      && s[..n] == d + ['.'] + f && s[n..] == rest
  {
    var s, n := d + ['.'] + f + rest, |d| + 1 + |f|;
    var p := d + ['.'];
    assert s == p + (f + rest);
    assert s[|p|..] == f + rest;
    var q := p + f;
    assert |q| == n && s == q + rest;
    assert s[..n] == q;
    assert s[n..] == rest;
  }

  /** Fraction digits followed by neither a digit nor an exponent mark end the DECIMAL token. */
  lemma FractionEnds(s: seq<char>, strict: bool, a: nat, f: seq<char>, rest: seq<char>)
    requires 0 < a < |s| && s[a..] == f + rest && AllDigits(f)
    requires rest == [] || (!IsDigit(rest[0]) && rest[0] !in "eE+-")
    ensures ScanFraction(s, strict, a) == Emit(Token(Decimal, s[..a + |f|]), a + |f|)
  {
    SpanOfRun(f, rest, Digits);
  }

  /** The exponent's optional sign and its digits complete the DECIMAL token. */
  lemma ExponentTail(s: seq<char>, start: nat, sign: seq<char>, g: seq<char>, rest: seq<char>)
    requires 0 < start <= |s| && s[start..] == sign + g + rest
    requires sign == [] || sign == ['+'] || sign == ['-']
    requires g != [] && AllDigits(g)
    requires rest == [] || !IsDigit(rest[0])
    ensures var n := start + |sign| + |g|;
      n <= |s| && ScanExponent(s, start) == Emit(Token(Decimal, s[..n]), n)
  {
    var p := start + |sign|;
    assert s[start] == (sign + g + rest)[0];
    assert s[p..] == g + rest;
    SpanOfRun(g, rest, Digits);
  }

  /** The integer part ends at `x`; a `.` (or, outside strict mode, an `e`/`E`) leads to the fraction. */
  lemma IntegerToFraction(s: seq<char>, strict: bool, d: seq<char>, x: char, tail: seq<char>)
    requires s == d + [x] + tail && d != [] && AllDigits(d)
    requires x in ".eE" && !(x in "eE" && strict) && tail != []
    ensures ScanNumber(s, strict) == ScanFraction(s, strict, |d| + 1)
  {
    assert s == d + ([x] + tail);
    SpanOfRun(d, [x] + tail, Digits);
    assert s[|d|] == x;
    NumberToFraction(s, strict, |d|);
  }

  /** The integer part of a number, ended by `.` (or, outside strict mode, `e`/`E`) and more text, leads to the fraction. */
  lemma NumberToFraction(s: seq<char>, strict: bool, k: nat)
    requires s != [] && IsDigit(s[0]) && Span(s, Digits) == k && k + 1 < |s|
    requires s[k] in ".eE" && !(s[k] in "eE" && strict)
    ensures ScanNumber(s, strict) == ScanFraction(s, strict, k + 1)
  {
    var c := s[k];
    assert c in ".eE";
    assert !(c in "eE" && strict);
  }

  /** Outside strict mode an `e`/`E` after the fraction digits passes on to the exponent. */
  lemma FractionToExponent(s: seq<char>, start: nat, f: seq<char>, y: char, tail: seq<char>)
    requires 0 < start <= |s| && s[start..] == f + [y] + tail
    requires AllDigits(f) && y in "eE" && tail != []
    ensures ScanFraction(s, false, start) == ScanExponent(s, start + |f| + 1)
  {
    FractionPieces(s, start, f, y, tail);
    SpanOfRun(f, [y] + tail, Digits);
    FractionToExponentAt(s, start, start + |f|);
  }

  /** The fraction digits, then `y`, then the rest of the text. */
  lemma FractionPieces(s: seq<char>, start: nat, f: seq<char>, y: char, tail: seq<char>)
    requires start <= |s| && s[start..] == f + [y] + tail
    ensures s[start..] == f + ([y] + tail) && start + |f| < |s| && s[start + |f|] == y
  {
    assert f + [y] + tail == f + ([y] + tail);
    assert s[start..][|f|] == y;
  }

  /** Outside strict mode the fraction digits, ended by `e`/`E` and more text, lead to the exponent. */
  lemma FractionToExponentAt(s: seq<char>, start: nat, k: nat)
    requires 0 < start < |s| && k == start + Span(s[start..], Digits) && k + 1 < |s| && s[k] in "eE"
    ensures ScanFraction(s, false, start) == ScanExponent(s, k + 1)
  {
    var c := s[k];
    assert c in "eE+-";
  }

  /** Outside strict mode, fraction digits, `e`/`E` and an exponent form the rest of one DECIMAL. */
  lemma FractionAndExponentScan(s: seq<char>, a: nat, f: seq<char>, y: char, sign: seq<char>,
                                g: seq<char>, rest: seq<char>)
    requires 0 < a <= |s| && s[a..] == f + [y] + (sign + g + rest)
    requires AllDigits(f) && y in "eE"
    requires sign == [] || sign == ['+'] || sign == ['-']
    requires g != [] && AllDigits(g)
    requires rest == [] || !IsDigit(rest[0])
    ensures var n := a + |f| + 1 + |sign| + |g|;
      n <= |s| && ScanFraction(s, false, a) == Emit(Token(Decimal, s[..n]), n)
  {
    var s3 := sign + g + rest;
    var b := a + |f| + 1;
    var n := b + |sign| + |g|;
    assert s[b..] == s3 by {
      assert (f + [y] + s3)[|f| + 1..] == s3;
      DropTwice(s, a, |f| + 1);
    }
    calc {
      ScanFraction(s, false, a);
      { FractionToExponent(s, a, f, y, s3); }
      ScanExponent(s, b);
      { ExponentTail(s, b, sign, g, rest); }
      Emit(Token(Decimal, s[..n]), n);
    }
  }

  /** How a number with an exponent splits into the parts its scan reads. */
  lemma ExponentLayout(d: seq<char>, x: char, f: seq<char>, y: char, sign: seq<char>,
                       g: seq<char>, rest: seq<char>)
    ensures var lit := d + [x] + f + [y] + sign + g;
      var s2 := f + [y] + (sign + g + rest);
      var n := |d| + 1 + |f| + 1 + |sign| + |g|;
      && lit + rest == d + [x] + s2
      && |lit| == n
      && (d + [x] + s2)[..n] == lit
      && (d + [x] + s2)[|d| + 1..] == s2
  {
    var lit := d + [x] + f + [y] + sign + g;
    var s2 := f + [y] + (sign + g + rest);
    assert lit + rest == (d + [x] + f + [y]) + (sign + g + rest);
  }

  /** The scan of a number with an exponent, outside strict mode. */
  lemma ExponentNumberScan(d: seq<char>, x: char, f: seq<char>, y: char, sign: seq<char>,
                           g: seq<char>, rest: seq<char>)
    requires d != [] && AllDigits(d) && x in ".eE"
    requires AllDigits(f) && y in "eE"
    requires sign == [] || sign == ['+'] || sign == ['-']
    requires g != [] && AllDigits(g)
    requires rest == [] || !IsDigit(rest[0])
    ensures var lit := d + [x] + f + [y] + sign + g;
      ScanNumber(lit + rest, false) == Emit(Token(Decimal, lit), |lit|)
  {
    var lit := d + [x] + f + [y] + sign + g;
    var s2 := f + [y] + (sign + g + rest);
    var s := d + [x] + s2;
    var n := |d| + 1 + |f| + 1 + |sign| + |g|;
    ExponentLayout(d, x, f, y, sign, g, rest);
    calc {
      ScanNumber(s, false);
      { IntegerToFraction(s, false, d, x, s2); }
      ScanFraction(s, false, |d| + 1);
      { FractionAndExponentScan(s, |d| + 1, f, y, sign, g, rest); }
      Emit(Token(Decimal, s[..n]), n);
    }
  }

  /**
   * Outside strict mode an exponent is absorbed into one DECIMAL token, whether
   * the integer part is followed by a fraction (`x` is `.`) or directly by `e`/`E`.
   */
  lemma ExponentAbsorbed(d: seq<char>, x: char, f: seq<char>, y: char, sign: seq<char>,
                         g: seq<char>, rest: seq<char>)
    requires d != [] && AllDigits(d) && x in ".eE"
    requires AllDigits(f) && y in "eE"
    requires sign == [] || sign == ['+'] || sign == ['-']
    requires g != [] && AllDigits(g)
    requires rest == [] || !IsDigit(rest[0])
    ensures var lit := d + [x] + f + [y] + sign + g;
      Lex(lit + rest, false) == Then([Token(Decimal, lit)], Lex(rest, false))
  {
    var lit := d + [x] + f + [y] + sign + g;
    var s := lit + rest;
    assert s[0] == d[0];
    assert s[|lit|..] == rest;
    calc {
      Lex(s, false);
      { DigitDispatch(s, false);
        ExponentNumberScan(d, x, f, y, sign, g, rest);
        LexEmits(s, false, Token(Decimal, lit), |lit|); }
      Then([Token(Decimal, lit)], Lex(rest, false));
    }
  }

  /** `#` followed by anything but `x` or `b` is "invalid number prefix". */
  lemma InvalidNumberPrefix(c: char, rest: seq<char>, strict: bool)
    requires c != 'x' && c != 'b'
    ensures Lex(['#', c] + rest, strict)
         == LexResult([], Failed(TokenizerError("invalid number prefix: #" + [c])))
  {
  }

  /** `#x` and a maximal (possibly empty) run of hex digits is one HEXADECIMAL token. */
  lemma HexadecimalRun(h: seq<char>, rest: seq<char>, strict: bool)
    requires forall i | 0 <= i < |h| :: IsHexDigit(h[i])
    requires h + rest != []
    requires rest == [] || !IsHexDigit(rest[0])
    ensures Lex(['#', 'x'] + h + rest, strict) == Then([Token(Hexadecimal, ['#', 'x'] + h)], Lex(rest, strict))
  {
    var s := ['#', 'x'] + h + rest;
    assert s[2..] == h + rest;
    SpanOfRun(h, rest, HexDigits);
    assert s[..2 + |h|] == ['#', 'x'] + h;
    assert s[2 + |h|..] == rest;
    HashDispatch(s, strict);
    LexEmits(s, strict, Token(Hexadecimal, ['#', 'x'] + h), 2 + |h|);
  }

  /** `#b` and a maximal (possibly empty) run of binary digits is one BINARY token. */
  lemma BinaryRun(b: seq<char>, rest: seq<char>, strict: bool)
    requires forall i | 0 <= i < |b| :: IsBinDigit(b[i])
    requires b + rest != []
    requires rest == [] || !IsBinDigit(rest[0])
    ensures Lex(['#', 'b'] + b + rest, strict) == Then([Token(Binary, ['#', 'b'] + b)], Lex(rest, strict))
  {
    var s := ['#', 'b'] + b + rest;
    assert s[2..] == b + rest;
    SpanOfRun(b, rest, BinDigits);
    assert s[..2 + |b|] == ['#', 'b'] + b;
    assert s[2 + |b|..] == rest;
    HashDispatch(s, strict);
    LexEmits(s, strict, Token(Binary, ['#', 'b'] + b), 2 + |b|);
  }

  /** A number prefix cut short by the end of the text is "unexpected end of file". */
  lemma NumberPrefixAtEndOfText(s: seq<char>, strict: bool)
    requires s == ['#'] || s == ['#', 'x'] || s == ['#', 'b']
    ensures Lex(s, strict) == LexResult([], Failed(EndOfFile))
  {
  }

  /** A maximal run of symbol characters that starts with a letter or punctuation is one SYMBOL. */
  lemma SimpleSymbol(sym: seq<char>, rest: seq<char>, strict: bool)
    requires sym != [] && IsSymbolStart(sym[0])
    requires forall i | 0 <= i < |sym| :: IsSymbolChar(sym[i])
    requires rest == [] || !IsSymbolChar(rest[0])
    ensures Lex(sym + rest, strict) == Then([Token(Symbol, sym)], Lex(rest, strict))
  {
    var s := sym + rest;
    SpanOfRun(sym, rest, SymbolChars);
    assert s[..|sym|] == sym && s[|sym|..] == rest;
    SymbolDispatch(s, strict);
    LexEmits(s, strict, Token(Symbol, sym), |sym|);
  }

  /** A character no lexical class starts with is "unexpected character". */
  lemma UnexpectedCharacter(c: char, rest: seq<char>, strict: bool)
    requires !IsWhitespace(c) && !IsSymbolStart(c) && !IsDigit(c)
    requires c !in "();#\"|"
    ensures Lex([c] + rest, strict)
         == LexResult([], Failed(TokenizerError("unexpected character: " + [c])))
  {
  }

  /**
   * A `|quoted|` symbol's text is what lies between the opening `|` and the
   * next `|` or backslash, both delimiters excluded.
   */
  lemma QuotedSymbol(body: seq<char>, t: char, rest: seq<char>, strict: bool)
    requires forall i | 0 <= i < |body| :: body[i] != '|' && body[i] != '\\'
    requires t == '|' || t == '\\'
    ensures Lex(['|'] + body + [t] + rest, strict) == Then([Token(Symbol, body)], Lex(rest, strict))
  {
    var s := ['|'] + body + [t] + rest;
    assert s[1..] == body + ([t] + rest);
    SpanOfRun(body, [t] + rest, NotBarOrBackslash);
    assert s[1..1 + |body|] == body;
    assert s[1 + |body| + 1..] == rest;
    BarDispatch(s, strict);
    LexEmits(s, strict, Token(Symbol, body), |body| + 2);
  }

  /** A quoted symbol still open at the end of the text is "unexpected end of file". */
  lemma UnterminatedQuotedSymbol(body: seq<char>, strict: bool)
    requires forall i | 0 <= i < |body| :: body[i] != '|' && body[i] != '\\'
    ensures Lex(['|'] + body, strict) == LexResult([], Failed(EndOfFile))
  {
    var s := ['|'] + body;
    assert s[1..] == body + [];
    SpanOfRun(body, [], NotBarOrBackslash);
  }

  /**
   * Inside a string (an odd number of quotes counted at index `p`), the scan
   * runs to the next double quote at index `k`, which makes the count even.
   */
  lemma {:induction false} StringRunsToQuote(s: seq<char>, p: nat, quotes: nat, k: nat)
    requires p < k < |s| && quotes % 2 == 1
    requires forall i | p < i < k :: s[i] != '"'
    requires s[k] == '"'
    ensures StringEnd(s, p, quotes) == StringEnd(s, k, quotes + 1)
    decreases k - p
  {
    if p + 1 < k {
      StringRunsToQuote(s, p + 1, quotes, k);
    }
  }

  /** Inside a string with no further double quote the source's loop never ends. */
  lemma {:induction false} StringNeverCloses(s: seq<char>, p: nat, quotes: nat)
    requires p <= |s| && quotes % 2 == 1
    requires forall i | p < i < |s| :: s[i] != '"'
    ensures StringEnd(s, p, quotes) == None
    decreases |s| - p
  {
    if p < |s| {
      StringNeverCloses(s, p + 1, quotes);
    }
  }

  /** A string literal with no inner quote is one STRING token, quotes included. */
  lemma SimpleString(body: seq<char>, rest: seq<char>, strict: bool)
    requires forall i | 0 <= i < |body| :: body[i] != '"'
    requires rest == [] || rest[0] != '"'
    ensures var lit := ['"'] + body + ['"'];
      Lex(lit + rest, strict) == Then([Token(String, lit)], Lex(rest, strict))
  {
    var lit := ['"'] + body + ['"'];
    var s := lit + rest;
    var k := |body| + 1;
    StringRunsToQuote(s, 0, 1, k);
    assert StringEnd(s, k, 2) == Some(k + 1);
    assert s[..k + 1] == lit && s[k + 1..] == rest;
    QuoteDispatch(s, strict);
    LexEmits(s, strict, Token(String, lit), k + 1);
  }

  /** A doubled quote inside a string does not close it. */
  lemma DoubledQuoteStaysInString(a: seq<char>, b: seq<char>, rest: seq<char>, strict: bool)
    requires forall i | 0 <= i < |a| :: a[i] != '"'
    requires forall i | 0 <= i < |b| :: b[i] != '"'
    requires rest == [] || rest[0] != '"'
    ensures var lit := ['"'] + a + ['"', '"'] + b + ['"'];
      Lex(lit + rest, strict) == Then([Token(String, lit)], Lex(rest, strict))
  {
    var lit := ['"'] + a + ['"', '"'] + b + ['"'];
    var s := lit + rest;
    var k1 := |a| + 1;
    var k2 := k1 + 1 + |b| + 1;
    StringRunsToQuote(s, 0, 1, k1);
    assert StringEnd(s, k1, 2) == StringEnd(s, k1 + 1, 3);
    StringRunsToQuote(s, k1 + 1, 3, k2);
    assert StringEnd(s, k2, 4) == Some(k2 + 1);
    assert s[..k2 + 1] == lit && s[k2 + 1..] == rest;
    QuoteDispatch(s, strict);
    LexEmits(s, strict, Token(String, lit), k2 + 1);
  }

  /** A string still open at the end of the text makes the source loop forever. */
  lemma UnterminatedStringDiverges(body: seq<char>, strict: bool)
    requires forall i | 0 <= i < |body| :: body[i] != '"'
    ensures Lex(['"'] + body, strict) == LexResult([], Diverges)
  {
    StringNeverCloses(['"'] + body, 0, 1);
  }
}
