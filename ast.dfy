/**
 * The abstract syntax the parser builds (vnnlib/parser.py, `Script` to
 * `Identifier`), the converters it applies to literal tokens, and the
 * identifiers and sorts every script starts with.
 */
module Ast {
  import opened Lexicon
  import opened Errors

  /** The value of a `Constant`: Python's `int`, `float` or `str`. */
  datatype Literal = IntLit(i: int) | RealLit(r: real) | StrLit(s: string)

  /**
   * A term. An `Identifier` keeps only its name: the class accepts a sort
   * but does not store it. The `head` of an application (the `function` attribute) is the
   * `Identifier` the identifier table returned for its head symbol.
   */
  datatype Term =
    | Identifier(name: string)
    | Constant(value: Literal)
    | FunctionApplication(head: Term, terms: seq<Term>)

  datatype Command = DeclareConst(symbol: string, sort: string) | Assert(term: Term)

  datatype Script = Script(commands: seq<Command>)

  /** The names of `CORE_IDS`: arithmetic, comparisons and logic. */
  const CoreIds: set<string> :=
    {"+", "-", "*", "/", ">", ">=", "<", "<=", "=",
     "true", "false", "not", "=>", "or", "and", "xor", "ite"}

  /** The identifier table a parser starts with. */
  const CoreIdentifiers: map<string, Term> := map n | n in CoreIds :: Identifier(n)

  /** The sorts a parser knows. */
  const Sorts: set<string> := {"Bool", "Int", "Real"}

  /** Every name of the table is bound to the identifier of that very name. */
  ghost predicate SelfNamed(ids: map<string, Term>) {
    forall n | n in ids :: ids[n] == Identifier(n)
  }

  lemma CoreIdentifiersSelfNamed()
    ensures SelfNamed(CoreIdentifiers)
    ensures forall n :: n in CoreIdentifiers <==> n in CoreIds
  {
  }

  // ---------------------------------------------------------------------
  // Digit strings

  /** The radixes `int()` is called with. */
  datatype Base = Bin | Dec | Hex {
    function Radix(): nat {
      match this
      case Bin => 2
      case Dec => 10
      case Hex => 16
    }

    function Name(): string {
      match this
      case Bin => "2"
      case Dec => "10"
      case Hex => "16"
    }

    predicate IsDigitOf(c: char) {
      match this
      case Bin => IsBinDigit(c)
      case Dec => IsDigit(c)
      case Hex => IsHexDigit(c)
    }
  }

  /** The value of a digit character; letters count from 10 in either case. */
  function DigitValue(c: char): nat {
    if '0' <= c <= '9' then c as nat - '0' as nat
    else if 'a' <= c <= 'f' then c as nat - 'a' as nat + 10
    else if 'A' <= c <= 'F' then c as nat - 'A' as nat + 10
    else 0
  }

  lemma DigitValueBelowRadix(c: char, b: Base)
    requires b.IsDigitOf(c)
    ensures DigitValue(c) < b.Radix()
  {
  }

  /** The number a string of digits denotes in base `b`, most significant digit first. */
  function DigitsValue(s: string, b: Base): nat {
    if s == [] then 0 else DigitsValue(s[..|s| - 1], b) * b.Radix() + DigitValue(s[|s| - 1])
  }

  /** The lower-case digit character of `d`. */
  function DigitChar(d: nat): (c: char)
    requires d < 16
    ensures DigitValue(c) == d
  {
    if d < 10 then (d + '0' as nat) as char else (d - 10 + 'a' as nat) as char
  }

  /** The digits of `n` in base `b`, without leading zeros (`"0"` for zero). */
  function ToDigits(n: nat, b: Base): (s: string)
    ensures s != [] && forall i | 0 <= i < |s| :: b.IsDigitOf(s[i])
    decreases n
  {
    if n < b.Radix() then [DigitChar(n)] else ToDigits(n / b.Radix(), b) + [DigitChar(n % b.Radix())]
  }

  /** Writing a number out and reading it back gives the number. */
  lemma {:induction false} DigitsRoundTrip(n: nat, b: Base)
    ensures DigitsValue(ToDigits(n, b), b) == n
    decreases n
  {
    var s := ToDigits(n, b);
    if n >= b.Radix() {
      DigitsRoundTrip(n / b.Radix(), b);
      assert s[..|s| - 1] == ToDigits(n / b.Radix(), b);
    }
  }

  /** Extending a digit string by one digit multiplies its value by the radix and adds the digit. */
  lemma DigitsAppend(s: string, c: char, b: Base)
    ensures DigitsValue(s + [c], b) == DigitsValue(s, b) * b.Radix() + DigitValue(c)
  {
    assert (s + [c])[..|s + [c]| - 1] == s;
  }

  /** The decimal spelling of an integer, as `str()` writes it. */
  function IntToString(i: int): (s: string)
    ensures s != []
  {
    if i < 0 then "-" + ToDigits(-i, Dec) else ToDigits(i, Dec)
  }

  /** `int(text, base)` on the digit strings tokens carry: a non-empty run of digits of the base. */
  function IntOf(text: string, b: Base): (r: Result<int>)
    ensures r.Ok? <==> text != [] && forall i | 0 <= i < |text| :: b.IsDigitOf(text[i])
    ensures r.Ok? ==> r.value == DigitsValue(text, b)
    ensures r.Err? ==> r.error == ValueError("invalid literal for int() with base " + b.Name() + ": " + Repr(text))
  {
    if text != [] && forall i | 0 <= i < |text| :: b.IsDigitOf(text[i]) then Ok(DigitsValue(text, b))
    else Err(ValueError("invalid literal for int() with base " + b.Name() + ": " + Repr(text)))
  }


  // ---------------------------------------------------------------------
  // Decimals

  /** `m` with its decimal point moved `e` places, to the left when `left` holds. */
  function Shift(m: real, e: nat, left: bool): real
    decreases e
  {
    if e == 0 then m else Shift(if left then m / 10.0 else m * 10.0, e - 1, left)
  }

  /** Moving the point right multiplies by ten once per place. */
  lemma {:induction false} ShiftRight(m: real, e: nat)
    ensures Shift(m, e + 1, false) == 10.0 * Shift(m, e, false)
    decreases e
  {
    if e > 0 {
      ShiftRight(m * 10.0, e - 1);
    }
  }

  /** Moving the point left and back right again restores the number. */
  lemma {:induction false} ShiftLeftThenRight(m: real, e: nat)
    ensures Shift(Shift(m, e, true), e, false) == m
    decreases e
  {
    if e > 0 {
      calc {
        Shift(Shift(m, e, true), e, false);
        Shift(Shift(m / 10.0, e - 1, true), e, false);
        { ShiftRight(Shift(m / 10.0, e - 1, true), e - 1); }
        10.0 * Shift(Shift(m / 10.0, e - 1, true), e - 1, false);
        { ShiftLeftThenRight(m / 10.0, e - 1); }
        m;
      }
    }
  }

  /** The value of a digit string read as the digits after a decimal point. */
  function Fraction(f: string): real {
    Shift(DigitsValue(f, Dec) as real, |f|, true)
  }

  /**
   * `float(text)` on the spelling of a DECIMAL token: digits, `.`, digits,
   * then optionally `e`/`E`, an optional sign and digits. The exact rational
   * value is kept; there is no rounding to a binary float.
   */
  function DecimalValue(text: string): Option<real> {
    var k := Span(text, Digits);
    if k == 0 || k == |text| || text[k] != '.' then None
    else AfterPoint(DigitsValue(text[..k], Dec) as real, text[k + 1..])
  }

  /** The rest of a decimal after its `.`, given the value of its integer part. */
  function AfterPoint(whole: real, t: string): Option<real> {
    var f := Span(t, Digits);
    if f == 0 then None else Scaled(whole + Fraction(t[..f]), t[f..])
  }

  /** The optional exponent closing a decimal, applied to its mantissa. */
  function Scaled(mantissa: real, rest: string): Option<real> {
    if rest == [] then Some(mantissa)
    else if rest[0] != 'e' && rest[0] != 'E' then None
    else
      var negative := |rest| > 1 && rest[1] == '-';
      var g := if |rest| > 1 && rest[1] in "+-" then rest[2..] else rest[1..];
      if g == [] || !AllDigits(g) then None
      else
        Some(Shift(mantissa, DigitsValue(g, Dec), negative))
  }

  /** A digit string followed by a non-digit (or nothing) is read up to that point. */
  lemma DigitRun(a: string, rest: string)
    requires AllDigits(a) && (rest == [] || !IsDigit(rest[0]))
    ensures Span(a + rest, Digits) == |a|
  {
    SpanOfRun(a, rest, Digits);
  }

  /** The digits after the point are read up to the first non-digit. */
  lemma AfterPointRun(whole: real, f: string, tail: string)
    requires f != [] && AllDigits(f) && (tail == [] || !IsDigit(tail[0]))
    ensures AfterPoint(whole, f + tail) == Scaled(whole + Fraction(f), tail)
  {
    DigitRun(f, tail);
    assert (f + tail)[..|f|] == f && (f + tail)[|f|..] == tail;
  }

  /** A decimal starting with an integer part and its point continues after the point. */
  lemma IntegerPart(a: string, t: string)
    requires a != [] && AllDigits(a)
    ensures DecimalValue(a + ("." + t)) == AfterPoint(DigitsValue(a, Dec) as real, t)
  {
    var s := a + ("." + t);
    DigitRun(a, "." + t);
    assert s[..|a|] == a && s[|a|] == '.' && s[|a| + 1..] == t;
  }

  /** The integer part and the fraction of `a.f` followed by a non-digit tail. */
  lemma DecimalParts(a: string, f: string, tail: string)
    requires a != [] && f != [] && AllDigits(a) && AllDigits(f)
    requires tail == [] || !IsDigit(tail[0])
    ensures DecimalValue(a + "." + f + tail) == Scaled(DigitsValue(a, Dec) as real + Fraction(f), tail)
  {
    DecimalRegrouped(a, f, tail);
    IntegerPart(a, f + tail);
    AfterPointRun(DigitsValue(a, Dec) as real, f, tail);
  }

  /** The decimal's text regrouped after its integer part. */
  lemma DecimalRegrouped(a: string, f: string, tail: string)
    ensures DecimalValue(a + "." + f + tail) == DecimalValue(a + ("." + (f + tail)))
  {
    assert a + "." + f + tail == a + ("." + (f + tail));
  }

  /** `a.f` denotes a plus the fraction its digits after the point spell. */
  lemma DecimalWithoutExponent(a: string, f: string)
    requires a != [] && f != [] && AllDigits(a) && AllDigits(f)
    ensures DecimalValue(a + "." + f) == Some(DigitsValue(a, Dec) as real + Fraction(f))
  {
    DecimalParts(a, f, []);
    assert a + "." + f + [] == a + "." + f;
  }

  /** An exponent moves the point of the mantissa by the places its digits name. */
  lemma ExponentScales(m: real, e: char, sign: string, g: string)
    requires g != [] && AllDigits(g) && e in "eE" && sign in {"", "+", "-"}
    ensures Scaled(m, [e] + sign + g) == Some(Shift(m, DigitsValue(g, Dec), sign == "-"))
  {
    var tail := [e] + sign + g;
    if sign == "" {
      assert tail[1..] == g;
    } else {
      assert tail[2..] == g;
    }
  }

  // ---------------------------------------------------------------------
  // LITERAL_CONVERTERS

  /** The token kinds `LITERAL_CONVERTERS` has a converter for. */
  predicate IsLiteralKind(k: Kind) {
    k == Decimal || k == Numeral || k == Hexadecimal || k == Binary || k == String
  }

  /** Python's `x[2:]`: empty when `x` is shorter than two characters. */
  function DropPrefix(x: string): string {
    if |x| < 2 then [] else x[2..]
  }

  /**
   * The converter of a literal kind applied to the token text: `float` for
   * DECIMAL, `int` for NUMERAL, `int(x[2:], 16)` and `int(x[2:], 2)` for
   * HEXADECIMAL and BINARY, the text itself for STRING.
   */
  function ConvertLiteral(k: Kind, text: string): Result<Literal>
    requires IsLiteralKind(k)
  {
    match k
    case Decimal =>
      (match DecimalValue(text)
       case Some(v) => Ok(RealLit(v))
       case None => Err(ValueError("could not convert string to float: " + Repr(text))))
    case Numeral => var v :- IntOf(text, Dec); Ok(IntLit(v))
    case Hexadecimal => var v :- IntOf(DropPrefix(text), Hex); Ok(IntLit(v))
    case Binary => var v :- IntOf(DropPrefix(text), Bin); Ok(IntLit(v))
    case String => Ok(StrLit(text))
  }

  /** A numeral spelled from a number converts back to it. */
  lemma NumeralRoundTrip(n: nat)
    ensures ConvertLiteral(Numeral, ToDigits(n, Dec)) == Ok(IntLit(n))
  {
    DigitsRoundTrip(n, Dec);
  }

  /** `#x` followed by the hexadecimal digits of a number converts back to it. */
  lemma HexadecimalRoundTrip(n: nat)
    ensures ConvertLiteral(Hexadecimal, "#x" + ToDigits(n, Hex)) == Ok(IntLit(n))
  {
    assert DropPrefix("#x" + ToDigits(n, Hex)) == ToDigits(n, Hex);
    DigitsRoundTrip(n, Hex);
  }

  /** `#b` followed by the binary digits of a number converts back to it. */
  lemma BinaryRoundTrip(n: nat)
    ensures ConvertLiteral(Binary, "#b" + ToDigits(n, Bin)) == Ok(IntLit(n))
  {
    assert DropPrefix("#b" + ToDigits(n, Bin)) == ToDigits(n, Bin);
    DigitsRoundTrip(n, Bin);
  }

  /** A string literal keeps its text verbatim, quotes included; no other kind yields a string. */
  lemma StringVerbatim(k: Kind, text: string)
    requires IsLiteralKind(k)
    ensures ConvertLiteral(k, text).Ok? && ConvertLiteral(k, text).value.StrLit? <==> k == String
    ensures k == String ==> ConvertLiteral(k, text) == Ok(StrLit(text))
  {
  }
}
