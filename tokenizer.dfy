/**
 * The hand-written lexer of vnnlib/tokenizer.py.
 *
 * The source walks a character iterator once, front to back.  Here the
 * iterator is the sequence of characters not yet consumed (`rest`); reading
 * the next character drops the head of that sequence.  The source's two ways
 * of reading are kept apart:
 *   - `next(stream, "")` yields the empty-string sentinel at end of text, which
 *     simply ends the run being scanned;
 *   - `next(stream)` raises StopIteration at end of text, which ends the scan
 *     with EOF when the current token is complete and with
 *     "unexpected end of file" when it is not.
 *
 * `Lex` is the specification, one token at a time; `Tokenize` is the scanning
 * loop, proved to compute it.  The source is a generator that yields tokens
 * before it raises; the model returns every token yielded plus how the scan
 * ended.  A string literal that is still open at end of text makes the source
 * loop forever (its quote count stays odd while the iterator keeps answering
 * ""); the model reports that case as `Diverges` instead of running it.
 */
module Tokenizer {
  import opened Lexicon
  import opened Errors

  datatype Token = Token(kind: Kind, text: string)

  /** The end-of-input token, always the last one of a completed scan. */
  const EofToken: Token := Token(Eof, "")

  /** The placeholder token, kind `_`. */
  const DummyToken: Token := Token(Dummy, "")

  /** How a scan ended. */
  datatype Ending = Complete | Failed(error: Error) | Diverges

  /** The tokens yielded, in order, and how the scan ended. */
  datatype LexResult = LexResult(tokens: seq<Token>, ending: Ending)

  /** The outcome of scanning from one dispatch point: `len` characters consumed. */
  datatype Step = Skip(len: nat) | Emit(token: Token, len: nat) | Fail(error: Error) | Hang

  const EndOfFile: Error := TokenizerError("unexpected end of file")

  function StrictDecimalError(prefix: string): Error {
    TokenizerError("invalid decimal in strict mode: " + prefix)
  }

  /** A numeral, or a decimal with optional fraction and exponent (tokenizer.py:60-93). */
  function ScanNumber(s: seq<char>, strict: bool): (r: Step)
    requires s != [] && IsDigit(s[0])
  {
    var d := Span(s, Digits);
    if d == |s| || s[d] !in ".eE" then Emit(Token(Numeral, s[..d]), d)
    else if s[d] in "eE" && strict then Fail(StrictDecimalError(s[..d + 1]))
    else if d + 1 == |s| then Fail(EndOfFile)
    else ScanFraction(s, strict, d + 1)
  }

  /** The digits after the `.` (or, outside strict mode, an `e`/`E`) of a decimal, from index `start`. */
  function ScanFraction(s: seq<char>, strict: bool, start: nat): (r: Step)
    requires 0 < start < |s|
  {
    var d := start + Span(s[start..], Digits);
    if d == |s| || s[d] !in "eE+-" then Emit(Token(Decimal, s[..d]), d)
    else if strict then Fail(StrictDecimalError(s[..d + 1]))
    else if d + 1 == |s| then Fail(EndOfFile)
    else ScanExponent(s, d + 1)
  }

  /** The optional sign and the digits of an exponent, from index `start`. */
  function ScanExponent(s: seq<char>, start: nat): (r: Step)
    requires 0 < start < |s|
  {
    var p := if s[start] in "+-" then start + 1 else start;
    if p == |s| then Fail(EndOfFile)
    else
      var d := p + Span(s[p..], Digits);
      Emit(Token(Decimal, s[..d]), d)
  }

  /** `#x` and `#b` literals (tokenizer.py:94-112). */
  function ScanHash(s: seq<char>): (r: Step)
    requires s != [] && s[0] == '#'
  {
    if |s| == 1 then Fail(EndOfFile)
    else if s[1] == 'x' then
      if |s| == 2 then Fail(EndOfFile)
      else var n := 2 + Span(s[2..], HexDigits); Emit(Token(Hexadecimal, s[..n]), n)
    else if s[1] == 'b' then
      if |s| == 2 then Fail(EndOfFile)
      else var n := 2 + Span(s[2..], BinDigits); Emit(Token(Binary, s[..n]), n)
    else Fail(TokenizerError("invalid number prefix: #" + [s[1]]))
  }

  /**
   * The string loop of tokenizer.py:117-121, entered at index `p` with
   * `quotes` double quotes counted so far: it runs while the current character
   * is a double quote or the count is odd.  None means the loop never ends.
   */
  function StringEnd(s: seq<char>, p: nat, quotes: nat): (r: Option<nat>)
    requires p <= |s|
    ensures r.Some? ==> p <= r.value <= |s|
    ensures r.Some? && p < |s| && s[p] == '"' ==> p < r.value
    decreases |s| - p
  {
    if (p < |s| && s[p] == '"') || quotes % 2 == 1 then
      if p == |s| then None
      else StringEnd(s, p + 1, quotes + if p + 1 < |s| && s[p + 1] == '"' then 1 else 0)
    else Some(p)
  }

  /** A string literal, quotes included (tokenizer.py:113-122). */
  function ScanString(s: seq<char>): (r: Step)
    requires s != [] && s[0] == '"'
  {
    match StringEnd(s, 0, 1)
    case None => Hang
    case Some(n) => Emit(Token(String, s[..n]), n)
  }

  /** A `|quoted|` symbol; its text excludes the delimiters (tokenizer.py:123-132). */
  function ScanQuoted(s: seq<char>): (r: Step)
    requires s != [] && s[0] == '|'
  {
    if |s| == 1 then Fail(EndOfFile)
    else
      var n := 1 + Span(s[1..], NotBarOrBackslash);
      if n == |s| then Fail(EndOfFile) else Emit(Token(Symbol, s[1..n]), n + 1)
  }

  /** One iteration of the scanning loop, dispatching on the current character. */
  function Scan(s: seq<char>, strict: bool): (r: Step)
    requires s != []
    ensures r.Skip? ==> 1 <= r.len <= |s|
    ensures r.Emit? ==> 1 <= r.len <= |s| && r.token.kind != Eof
  {
    var c := s[0];
    if IsWhitespace(c) then Skip(1)
    else if c == '(' then Emit(Token(LParen, "("), 1)
    else if c == ')' then Emit(Token(RParen, ")"), 1)
    else if IsSymbolStart(c) then
      var n := Span(s, SymbolChars); Emit(Token(Symbol, s[..n]), n)
    else if c == ';' then Skip(Span(s, NotLineBreak))
    else if IsDigit(c) then ScanNumber(s, strict)
    else if c == '#' then ScanHash(s)
    else if c == '"' then ScanString(s)
    else if c == '|' then ScanQuoted(s)
    else Fail(TokenizerError("unexpected character: " + [c]))
  }

  /** `ts` followed by the outcome `r`. */
  function Then(ts: seq<Token>, r: LexResult): LexResult {
    LexResult(ts + r.tokens, r.ending)
  }

  lemma ThenAssociative(a: seq<Token>, b: seq<Token>, r: LexResult)
    ensures Then(a, Then(b, r)) == Then(a + b, r)
  {
    assert a + (b + r.tokens) == (a + b) + r.tokens;
  }

  /** The tokens of `s` and how the scan ends: the specification of `Tokenize`. */
  function Lex(s: seq<char>, strict: bool): LexResult
    decreases |s|
  {
    if s == [] then LexResult([EofToken], Complete)
    else match Scan(s, strict)
      case Skip(n) => Lex(s[n..], strict)
      case Emit(t, n) => Then([t], Lex(s[n..], strict))
      case Fail(e) => LexResult([], Failed(e))
      case Hang => LexResult([], Diverges)
  }

  /** An inner `while c in <class>` loop of the scanner, started at index `start` of `s`. */
  method ReadRun(s: seq<char>, start: nat, cls: CharClass) returns (run: seq<char>, end: nat)
    requires start <= |s|
    ensures end == start + Span(s[start..], cls)
    ensures run == s[start..end]
  {
    run, end := [], start;
    while end < |s| && InClass(s[end], cls)
      invariant start <= end <= |s|
      invariant run == s[start..end]
      invariant Span(s[start..], cls) == (end - start) + Span(s[end..], cls)
    {
      assert s[end..][1..] == s[end + 1..];
      run := run + [s[end]];
      end := end + 1;
    }
  }

  /** Scans a numeral or decimal at the head of `rest`. */
  method ReadNumber(rest: seq<char>, strict: bool) returns (step: Step)
    requires rest != [] && IsDigit(rest[0])
    ensures step == ScanNumber(rest, strict)
  {
    var number, i := ReadRun(rest, 0, Digits);
    assert rest[0..] == rest;
    if i == |rest| || rest[i] !in ".eE" {
      return Emit(Token(Numeral, number), i);
    } else if rest[i] in "eE" && strict {
      assert number + [rest[i]] == rest[..i + 1];
      return Fail(StrictDecimalError(number + [rest[i]]));
    }
    number := number + [rest[i]];
    if i + 1 == |rest| {
      return Fail(EndOfFile);
    }
    step := ReadFraction(rest, strict, i + 1, number);
  }

  /** Continues a decimal whose first `start` characters, `number`, are read. */
  method ReadFraction(rest: seq<char>, strict: bool, start: nat, number: seq<char>) returns (step: Step)
    requires 0 < start < |rest| && number == rest[..start]
    ensures step == ScanFraction(rest, strict, start)
  {
    var fraction, j := ReadRun(rest, start, Digits);
    var decimal := number + fraction;
    assert decimal == rest[..j];
    if j == |rest| || rest[j] !in "eE+-" {
      return Emit(Token(Decimal, decimal), j);
    } else if strict {
      assert decimal + [rest[j]] == rest[..j + 1];
      return Fail(StrictDecimalError(decimal + [rest[j]]));
    }
    decimal := decimal + [rest[j]];
    if j + 1 == |rest| {
      return Fail(EndOfFile);
    }
    step := ReadExponent(rest, j + 1, decimal);
  }

  /** Reads the sign and digits of an exponent after the first `start` characters, `number`. */
  method ReadExponent(rest: seq<char>, start: nat, number: seq<char>) returns (step: Step)
    requires 0 < start < |rest| && number == rest[..start]
    ensures step == ScanExponent(rest, start)
  {
    var decimal, k := number, start;
    if rest[k] in "+-" {
      decimal := decimal + [rest[k]];
      k := k + 1;
      if k == |rest| {
        return Fail(EndOfFile);
      }
    }
    var exponent, l := ReadRun(rest, k, Digits);
    decimal := decimal + exponent;
    assert decimal == rest[..l];
    return Emit(Token(Decimal, decimal), l);
  }

  /** Scans a `#x` or `#b` literal at the head of `rest`. */
  method ReadHashLiteral(rest: seq<char>) returns (step: Step)
    requires rest != [] && rest[0] == '#'
    ensures step == ScanHash(rest)
  {
    if |rest| == 1 {
      return Fail(EndOfFile);
    }
    var c := rest[1];
    if c == 'x' || c == 'b' {
      if |rest| == 2 {
        return Fail(EndOfFile);
      }
      var digits, n := ReadRun(rest, 2, if c == 'x' then HexDigits else BinDigits);
      var number := ['#', c] + digits;
      assert number == rest[..n];
      return Emit(Token(if c == 'x' then Hexadecimal else Binary, number), n);
    }
    return Fail(TokenizerError("invalid number prefix: #" + [c]));
  }

  /** Scans a string literal at the head of `rest`, counting double quotes. */
  method ReadString(rest: seq<char>) returns (step: Step)
    requires rest != [] && rest[0] == '"'
    ensures step == ScanString(rest)
  {
    var str: seq<char> := [];
    var quotes: nat := 1;
    var p := 0;
    while (p < |rest| && rest[p] == '"') || quotes % 2 == 1
      invariant p <= |rest|
      invariant str == rest[..p]
      invariant StringEnd(rest, p, quotes) == StringEnd(rest, 0, 1)
      decreases |rest| - p
    {
      if p == |rest| {
        // the source appends "" and reads "" again, forever
        return Hang;
      }
      str := str + [rest[p]];
      p := p + 1;
      if p < |rest| && rest[p] == '"' {
        quotes := quotes + 1;
      }
    }
    return Emit(Token(String, str), p);
  }

  /** Scans a `|quoted|` symbol at the head of `rest`. */
  method ReadQuotedSymbol(rest: seq<char>) returns (step: Step)
    requires rest != [] && rest[0] == '|'
    ensures step == ScanQuoted(rest)
  {
    if |rest| == 1 {
      return Fail(EndOfFile);
    }
    var symbol, n := ReadRun(rest, 1, NotBarOrBackslash);
    if n == |rest| {
      return Fail(EndOfFile);
    }
    return Emit(Token(Symbol, symbol), n + 1);
  }

  /** One iteration of the scanning loop: dispatch on the current character. */
  method NextStep(rest: seq<char>, strict: bool) returns (step: Step)
    requires rest != []
    ensures step == Scan(rest, strict)
  {
    var c := rest[0];
    assert rest[0..] == rest;
    if IsWhitespace(c) {
      step := Skip(1);
    } else if c == '(' {
      step := Emit(Token(LParen, "("), 1);
    } else if c == ')' {
      step := Emit(Token(RParen, ")"), 1);
    } else if IsSymbolStart(c) {
      var symbol, n := ReadRun(rest, 0, SymbolChars);
      step := Emit(Token(Symbol, symbol), n);
    } else if c == ';' {
      var _, n := ReadRun(rest, 0, NotLineBreak);
      step := Skip(n);
    } else if IsDigit(c) {
      step := ReadNumber(rest, strict);
    } else if c == '#' {
      step := ReadHashLiteral(rest);
    } else if c == '"' {
      step := ReadString(rest);
    } else if c == '|' {
      step := ReadQuotedSymbol(rest);
    } else {
      step := Fail(TokenizerError("unexpected character: " + [c]));
    }
  }

  /**
   * The scanning loop of tokenizer.py:22-139 (`tokenize` at tokenizer.py:142
   * only delegates to it): the tokens yielded, in order, and how it ended.
   */
  method Tokenize(text: string, strict: bool) returns (tokens: seq<Token>, ending: Ending)
    ensures LexResult(tokens, ending) == Lex(text, strict)
  {
    tokens := [];
    if |text| == 0 {
      return [EofToken], Complete;
    }
    var rest := text;
    while rest != []
      invariant Lex(text, strict) == Then(tokens, Lex(rest, strict))
      decreases |rest|
    {
      var step := NextStep(rest, strict);
      match step
      case Skip(n) =>
        rest := rest[n..];
      case Emit(t, n) =>
        ThenAssociative(tokens, [t], Lex(rest[n..], strict));
        tokens := tokens + [t];
        rest := rest[n..];
      case Fail(e) =>
        return tokens, Failed(e);
      case Hang =>
        return tokens, Diverges;
    }
    return tokens + [EofToken], Complete;
  }
}
