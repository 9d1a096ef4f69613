/**
 * The recursive-descent parser of vnnlib/parser.py (`VnnLibParser`).
 *
 * The parser pulls tokens one at a time from the lazy `tokenize` generator,
 * so an "Unknown string" error surfaces only when the parser asks for the
 * token after the last good one. The stream is therefore modelled as the
 * tokens produced before the error plus the error itself, and the parser's
 * position as the number of tokens it has requested so far; the lookahead
 * `curr_token` is determined by that number.
 *
 * The specification functions (`TermAt` .. `ParseText`) describe what each
 * parser method returns and where it leaves the stream; the class below
 * implements the methods over mutable fields and is proved against them.
 */
module Parser {
  import opened Lexicon
  import opened Errors
  import opened Ast
  import opened RegexTokenizer

  /** `float()` applied to a symbol's text: Python's float syntax is not modelled. */
  type FloatParser = string -> Option<real>

  /** A parsed value and how many tokens had been requested once it was parsed. */
  datatype Parsed<T> = Parsed(value: T, pulled: nat)

  /** The parser's mutable state besides the lookahead: stream position and identifier table. */
  datatype PState = PState(pulled: nat, ids: map<string, Term>)

  /** A parsed command and the state after it. */
  datatype Step = Step(command: Command, state: PState)

  /** The lookahead once `pulled` tokens have been requested: the placeholder, a token, or EOF. */
  function Current(ts: TokenStream, pulled: nat): Token {
    if pulled == 0 then DummyToken
    else if pulled <= |ts.tokens| then ts.tokens[pulled - 1]
    else EofToken
  }

  /** How many more requests can still move the stream: the termination measure. */
  function Remaining(ts: TokenStream, pulled: nat): nat {
    if pulled <= |ts.tokens| + 1 then |ts.tokens| + 1 - pulled else 0
  }

  /**
   * `advance_token_stream`: the next token, the stream's error when the
   * tokens are used up and the tokenizer stopped on one, and EOF otherwise.
   */
  function Advance(ts: TokenStream, pulled: nat): (r: Result<nat>)
    ensures r.Ok? ==> Remaining(ts, r.value) <= Remaining(ts, pulled)
    ensures r.Ok? && pulled <= |ts.tokens| ==> r.value == pulled + 1
    ensures r.Ok? ==> Drained(ts, r.value)
    ensures r.Err? <==> pulled >= |ts.tokens| && ts.error.Some?
  {
    if pulled < |ts.tokens| then Ok(pulled + 1)
    else if ts.error.Some? then Err(ts.error.value)
    else Ok(|ts.tokens| + 1)
  }

  /** Past the last token only when the tokenizer stopped without an error. */
  predicate Drained(ts: TokenStream, pulled: nat) {
    pulled <= |ts.tokens| || ts.error.None?
  }

  /** Python's `repr` of a token, as "Unexpected token" prints it. */
  function TokenRepr(t: Token): string {
    "Token(token_type=" + Repr(KindName(t.kind)) + ", value=" + Repr(t.value)
    + ", meta=Meta(start_pos=" + IntToString(t.meta.startPos)
    + ", end_pos=" + IntToString(t.meta.endPos) + "))"
  }

  /**
   * `expect_token_type`: success when the lookahead has the kind; otherwise
   * "Expected '<v>'" when an expected value is given, and the generic
   * "unexpected token" message when it is not.
   */
  function Expect(t: Token, kind: Kind, expected: Option<string>): (r: Result<bool>)
    ensures r.Ok? <==> t.kind == kind
  {
    if t.kind == kind then Ok(true)
    else if expected.Some? && expected.value != "" then Err(ParserError("Expected " + Repr(expected.value)))
    else Err(ParserError("unexpected token: " + KindName(t.kind) + "(" + Repr(t.value) + ")"))
  }

  /** `e` followed by at least one character, all of them digits or signs. */
  predicate LooksExponential(name: string) {
    |name| >= 2 && name[0] == 'e' && forall i | 1 <= i < |name| :: name[i] in "0123456789+-"
  }

  const ExponentHint: string :=
    ".\n\tIt looks like this may be exponential notation, which is not SMT-LIB compliant."
    + "\n\tTry turning of strict mode."

  /** `lookup_identifier`: the bound identifier, or "undeclared identifier" (with a hint for exponents). */
  function Lookup(ids: map<string, Term>, name: string): (r: Result<Term>)
    ensures r.Ok? <==> name in ids
    ensures r.Ok? ==> r.value == ids[name]
  {
    if name in ids then Ok(ids[name])
    else if LooksExponential(name) then Err(ParserError("undeclared identifier: " + Repr(name) + ExponentHint))
    else Err(ParserError("undeclared identifier: " + Repr(name)))
  }

  /** `lookup_sort`: a sort of the fixed table, or "undeclared sort". */
  function LookupSort(name: string): (r: Result<string>)
    ensures r.Ok? <==> name in Sorts
    ensures r.Ok? ==> r.value == name
  {
    if name in Sorts then Ok(name) else Err(ParserError("undeclared sort: " + Repr(name)))
  }

  /** `xs` before the arguments `r` parsed, unless `r` failed. */
  function Prepend(xs: seq<Term>, r: Result<Parsed<seq<Term>>>): Result<Parsed<seq<Term>>> {
    match r
    case Ok(p) => Ok(Parsed(xs + p.value, p.pulled))
    case Err(e) => Err(e)
  }

  /** `parse_term` on the lookahead `Current(ts, pulled)`. */
  function TermAt(ts: TokenStream, ids: map<string, Term>, floatOf: FloatParser, pulled: nat): (r: Result<Parsed<Term>>)
    ensures r.Ok? ==> Remaining(ts, r.value.pulled) < Remaining(ts, pulled)
    decreases Remaining(ts, pulled), 1
  {
    var t := Current(ts, pulled);
    if t.kind == Symbol then
      var next :- Advance(ts, pulled);
      var id :- SymbolTerm(ids, floatOf, t.value);
      Ok(Parsed(id, next))
    else if t.kind == LParen then ApplicationAt(ts, ids, floatOf, pulled)
    else if IsLiteralKind(t.kind) then
      var v :- ConvertLiteral(t.kind, t.value);
      var next :- Advance(ts, pulled);
      Ok(Parsed(Constant(v), next))
    else Err(ParserError("Unexpected token: " + TokenRepr(t)))
  }

  /**
   * A bare symbol as a term: its identifier, except that a symbol starting
   * with `-` is a negative constant when `float()` accepts it, and otherwise
   * the application of `-` to the identifier of the rest.
   */
  function SymbolTerm(ids: map<string, Term>, floatOf: FloatParser, value: string): Result<Term> {
    if |value| > 0 && value[0] == '-' then
      match floatOf(value)
      case Some(v) => Ok(Constant(RealLit(v)))
      case None =>
        var minus :- Lookup(ids, "-");
        var operand :- Lookup(ids, value[1..]);
        Ok(FunctionApplication(minus, [operand]))
    else Lookup(ids, value)
  }

  /** A parenthesised term: `(`, a SYMBOL head, one or more arguments, `)`; the head is looked up last. */
  function ApplicationAt(ts: TokenStream, ids: map<string, Term>, floatOf: FloatParser, pulled: nat): (r: Result<Parsed<Term>>)
    requires Current(ts, pulled).kind == LParen
    ensures r.Ok? ==> Remaining(ts, r.value.pulled) < Remaining(ts, pulled)
    decreases Remaining(ts, pulled), 0
  {
    var afterParen :- Advance(ts, pulled);
    var head := Current(ts, afterParen);
    var _ :- Expect(head, Symbol, None);
    var afterHead :- Advance(ts, afterParen);
    var first :- TermAt(ts, ids, floatOf, afterHead);
    CloseApplication(ts, ids, head, first.value, ArgumentsAt(ts, ids, floatOf, first.pulled))
  }

  /** After the arguments: the closing `)` is consumed, then the head symbol is looked up. */
  function CloseApplication(ts: TokenStream, ids: map<string, Term>, head: Token, first: Term,
                            args: Result<Parsed<seq<Term>>>): (r: Result<Parsed<Term>>)
    ensures r.Ok? ==> args.Ok? && Remaining(ts, r.value.pulled) <= Remaining(ts, args.value.pulled)
  {
    var rest :- args;
    var next :- Advance(ts, rest.pulled);
    var f :- Lookup(ids, head.value);
    Ok(Parsed(FunctionApplication(f, [first] + rest.value), next))
  }

  /** The `while` loop of `parse_term`: terms up to (not including) the closing `)`. */
  function ArgumentsAt(ts: TokenStream, ids: map<string, Term>, floatOf: FloatParser, pulled: nat): (r: Result<Parsed<seq<Term>>>)
    ensures r.Ok? ==> Remaining(ts, r.value.pulled) <= Remaining(ts, pulled)
    ensures r.Ok? ==> Current(ts, r.value.pulled).kind == RParen
    decreases Remaining(ts, pulled), 2
  {
    if Current(ts, pulled).kind == RParen then Ok(Parsed([], pulled))
    else
      var arg :- TermAt(ts, ids, floatOf, pulled);
      var rest :- ArgumentsAt(ts, ids, floatOf, arg.pulled);
      Ok(Parsed([arg.value] + rest.value, rest.pulled))
  }

  /** `parse_assert`: the keyword is skipped, then one term. */
  function AssertAt(ts: TokenStream, floatOf: FloatParser, s: PState): (r: Result<Step>)
    ensures r.Ok? ==> Remaining(ts, r.value.state.pulled) <= Remaining(ts, s.pulled)
    ensures r.Ok? ==> r.value.state.ids == s.ids
  {
    var next :- Advance(ts, s.pulled);
    var term :- TermAt(ts, s.ids, floatOf, next);
    Ok(Step(Assert(term.value), PState(term.pulled, s.ids)))
  }

  /**
   * `parse_declare_const`: two SYMBOL tokens; the sort is looked up after
   * the stream has moved past it and before the name is bound.
   */
  function DeclareConstAt(ts: TokenStream, s: PState): (r: Result<Step>)
    ensures r.Ok? ==> Remaining(ts, r.value.state.pulled) <= Remaining(ts, s.pulled)
  {
    var afterKeyword :- Advance(ts, s.pulled);
    var symbol := Current(ts, afterKeyword);
    var _ :- Expect(symbol, Symbol, None);
    var afterSymbol :- Advance(ts, afterKeyword);
    var sort := Current(ts, afterSymbol);
    var _ :- Expect(sort, Symbol, None);
    var next :- Advance(ts, afterSymbol);
    var _ :- LookupSort(sort.value);
    Ok(Step(DeclareConst(symbol.value, sort.value), PState(next, s.ids[symbol.value := Identifier(symbol.value)])))
  }

  /** `parse_command`: `(`, a keyword naming the command, its body, `)`. */
  function CommandAt(ts: TokenStream, floatOf: FloatParser, s: PState): (r: Result<Step>)
    ensures r.Ok? ==> Remaining(ts, r.value.state.pulled) < Remaining(ts, s.pulled)
    ensures r.Ok? ==> Drained(ts, r.value.state.pulled)
  {
    var _ :- Expect(Current(ts, s.pulled), LParen, Some("("));
    var afterParen :- Advance(ts, s.pulled);
    var command := Current(ts, afterParen).value;
    if command == "assert" || command == "declare-const" then
      var body := PState(afterParen, s.ids);
      var node :- if command == "assert" then AssertAt(ts, floatOf, body) else DeclareConstAt(ts, body);
      var _ :- Expect(Current(ts, node.state.pulled), RParen, Some(")"));
      var next :- Advance(ts, node.state.pulled);
      Ok(Step(node.command, PState(next, node.state.ids)))
    else Err(ParserError("Unknown command: " + Repr(command)))
  }

  /** The loop of `parse`: commands until the lookahead is the EOF sentinel. */
  function CommandsAt(ts: TokenStream, floatOf: FloatParser, s: PState): Result<seq<Command>>
    decreases Remaining(ts, s.pulled)
  {
    if Current(ts, s.pulled) == EofToken then Ok([])
    else
      var step :- CommandAt(ts, floatOf, s);
      var rest :- CommandsAt(ts, floatOf, step.state);
      Ok([step.command] + rest)
  }

  /** A parser over the stream: the first token is requested, then commands are read. */
  function ParseStream(ts: TokenStream, floatOf: FloatParser): Result<Script> {
    var first :- Advance(ts, 0);
    var commands :- CommandsAt(ts, floatOf, PState(first, CoreIdentifiers));
    Ok(Script(commands))
  }

  /** `VnnLibParser.parse`: the text's tokens without whitespace and comments, parsed. */
  function ParseText(text: string, strict: bool, floatOf: FloatParser): Result<Script> {
    ParseStream(Tokens(text, {Whitespace, Comment}, strict), floatOf)
  }

  /** The parser object: a token stream, the lookahead and the identifier table. */
  class VnnLibParser {
    const stream: TokenStream
    const floatOf: FloatParser
    /** How many tokens have been requested from the stream. */
    var pulled: nat
    var currToken: Token
    var identifiers: map<string, Term>

    /** The lookahead is the token last requested. */
    ghost predicate Valid()
      reads this
    {
      currToken == Current(stream, pulled)
    }

    function State(): PState
      reads this
    {
      PState(pulled, identifiers)
    }

    /** A term method ended as `spec` says: the same error, or the same term at the same position. */
    ghost predicate EndedAsTerm(r: Result<Term>, spec: Result<Parsed<Term>>)
      reads this
    {
      match spec
      case Ok(p) => r == Ok(p.value) && pulled == p.pulled
      case Err(e) => r == Err(e)
    }

    /** A command method ended as `spec` says: the same error, or the same command and state. */
    ghost predicate EndedAsCommand(r: Result<Command>, spec: Result<Step>)
      reads this
    {
      match spec
      case Ok(p) => r == Ok(p.command) && State() == p.state
      case Err(e) => r == Err(e)
    }

    constructor (stream: TokenStream, floatOf: FloatParser)
      ensures Valid() && this.stream == stream && this.floatOf == floatOf
      ensures pulled == 0 && currToken == DummyToken && identifiers == CoreIdentifiers
    {
      this.stream := stream;
      this.floatOf := floatOf;
      pulled := 0;
      currToken := DummyToken;
      identifiers := CoreIdentifiers;
    }

    method AdvanceTokenStream() returns (r: Result<Token>)
      requires Valid()
      modifies this
      ensures Valid() && identifiers == old(identifiers)
      ensures match Advance(stream, old(pulled))
        case Ok(n) => pulled == n && r == Ok(currToken)
        case Err(e) => r == Err(e)
    {
      if pulled < |stream.tokens| {
        pulled := pulled + 1;
        currToken := stream.tokens[pulled - 1];
        return Ok(currToken);
      }
      if stream.error.Some? {
        return Err(stream.error.value);
      }
      pulled := |stream.tokens| + 1;
      currToken := EofToken;
      return Ok(currToken);
    }

    method ExpectTokenType(kind: Kind, expected: Option<string>) returns (r: Result<bool>)
      ensures r == Expect(currToken, kind, expected)
    {
      if currToken.kind == kind {
        return Ok(true);
      }
      if expected.Some? && expected.value != "" {
        return Err(ParserError("Expected " + Repr(expected.value)));
      }
      return Err(ParserError("unexpected token: " + KindName(currToken.kind) + "(" + Repr(currToken.value) + ")"));
    }

    method LookupIdentifier(identifier: string) returns (r: Result<Term>)
      ensures r == Lookup(identifiers, identifier)
    {
      if identifier !in identifiers {
        if LooksExponential(identifier) {
          return Err(ParserError("undeclared identifier: " + Repr(identifier) + ExponentHint));
        }
        return Err(ParserError("undeclared identifier: " + Repr(identifier)));
      }
      return Ok(identifiers[identifier]);
    }

    /** `parse_term`; the parenthesised case is `ParseApplication`. */
    method ParseTerm() returns (r: Result<Term>)
      requires Valid()
      modifies this
      ensures Valid() && identifiers == old(identifiers)
      ensures EndedAsTerm(r, TermAt(stream, identifiers, floatOf, old(pulled)))
      decreases Remaining(stream, pulled), 1
    {
      var t := currToken;
      if t.kind == Symbol {
        var _ :- AdvanceTokenStream();
        if |t.value| > 0 && t.value[0] == '-' {
          match floatOf(t.value) {
            case Some(v) => return Ok(Constant(RealLit(v)));
            case None =>
          }
          var minus :- LookupIdentifier("-");
          var operand :- LookupIdentifier(t.value[1..]);
          return Ok(FunctionApplication(minus, [operand]));
        }
        r := LookupIdentifier(t.value);
        return;
      }
      if t.kind == LParen {
        r := ParseApplication();
        return;
      }
      if IsLiteralKind(t.kind) {
        var v :- ConvertLiteral(t.kind, t.value);
        var _ :- AdvanceTokenStream();
        return Ok(Constant(v));
      }
      return Err(ParserError("Unexpected token: " + TokenRepr(t)));
    }

    /** The parenthesised-term branch of `parse_term`. */
    method ParseApplication() returns (r: Result<Term>)
      requires Valid() && currToken.kind == LParen
      modifies this
      ensures Valid() && identifiers == old(identifiers)
      ensures EndedAsTerm(r, ApplicationAt(stream, identifiers, floatOf, old(pulled)))
      decreases Remaining(stream, pulled), 0
    {
      ghost var start := pulled;
      ghost var ids := identifiers;
      var functionIdToken :- AdvanceTokenStream();
      var _ :- ExpectTokenType(Symbol, None);
      var _ :- AdvanceTokenStream();
      ghost var afterHead := pulled;
      var first :- ParseTerm();
      ghost var argsFrom := pulled;
      var children := [first];
      ghost var args: seq<Term> := [];
      assert TermAt(stream, ids, floatOf, afterHead) == Ok(Parsed(first, argsFrom));
      assert ApplicationAt(stream, ids, floatOf, start)
        == CloseApplication(stream, ids, functionIdToken, first, ArgumentsAt(stream, ids, floatOf, argsFrom));
      PrependNothing(ArgumentsAt(stream, ids, floatOf, argsFrom));
      while currToken.kind != RParen
        invariant Valid() && identifiers == ids
        invariant Remaining(stream, pulled) <= Remaining(stream, argsFrom) < Remaining(stream, start)
        invariant children == [first] + args
        invariant ApplicationAt(stream, ids, floatOf, start)
          == CloseApplication(stream, ids, functionIdToken, first, Prepend(args, ArgumentsAt(stream, ids, floatOf, pulled)))
        decreases Remaining(stream, pulled)
      {
        ArgumentsStep(stream, ids, floatOf, pulled);
        var c := ParseTerm();
        if c.Err? {
          return Err(c.error);
        }
        PrependTwice(args, [c.value], ArgumentsAt(stream, ids, floatOf, pulled));
        children := children + [c.value];
        args := args + [c.value];
      }
      assert args + [] == args;
      assert ApplicationAt(stream, ids, floatOf, start)
        == CloseApplication(stream, ids, functionIdToken, first, Ok(Parsed(args, pulled)));
      var _ :- AdvanceTokenStream();
      r := LookupIdentifier(functionIdToken.value);
      if r.Ok? {
        r := Ok(FunctionApplication(r.value, children));
      }
    }

    /** `parse_declare_const`; a failed sort lookup leaves the identifier table as it was. */
    method ParseDeclareConst() returns (r: Result<Command>)
      requires Valid()
      modifies this
      ensures Valid()
      ensures EndedAsCommand(r, DeclareConstAt(stream, old(State())))
      ensures r.Err? ==> identifiers == old(identifiers)
    {
      var symbol :- AdvanceTokenStream();
      var _ :- ExpectTokenType(Symbol, None);
      var sort :- AdvanceTokenStream();
      var _ :- ExpectTokenType(Symbol, None);
      var _ :- AdvanceTokenStream();
      var _ :- LookupSort(sort.value);
      identifiers := identifiers[symbol.value := Identifier(symbol.value)];
      return Ok(DeclareConst(symbol.value, sort.value));
    }

    method ParseAssert() returns (r: Result<Command>)
      requires Valid()
      modifies this
      ensures Valid() && identifiers == old(identifiers)
      ensures EndedAsCommand(r, AssertAt(stream, floatOf, old(State())))
    {
      var _ :- AdvanceTokenStream();
      var term :- ParseTerm();
      return Ok(Assert(term));
    }

    method ParseCommand() returns (r: Result<Command>)
      requires Valid()
      modifies this
      ensures Valid()
      ensures EndedAsCommand(r, CommandAt(stream, floatOf, old(State())))
    {
      var _ :- ExpectTokenType(LParen, Some("("));
      var keyword :- AdvanceTokenStream();
      var command := keyword.value;
      var node: Command;
      if command == "assert" {
        node :- ParseAssert();
      } else if command == "declare-const" {
        node :- ParseDeclareConst();
      } else {
        return Err(ParserError("Unknown command: " + Repr(command)));
      }
      var _ :- ExpectTokenType(RParen, Some(")"));
      var _ :- AdvanceTokenStream();
      return Ok(node);
    }

    /** `VnnLibParser.parse`: tokenize, request the first token, then read commands until EOF. */
    static method Parse(text: string, strict: bool, floatOf: FloatParser) returns (r: Result<Script>)
      ensures r == ParseText(text, strict, floatOf)
    {
      var tokens, error := Tokenize(text, {Whitespace, Comment}, strict);
      var parser := new VnnLibParser(TokenStream(tokens, error), floatOf);
      var _ :- parser.AdvanceTokenStream();
      ghost var start := parser.State();
      var commands: seq<Command> := [];
      assert start == PState(parser.pulled, CoreIdentifiers);
      AfterNothing(CommandsAt(parser.stream, floatOf, start));
      while parser.currToken != EofToken
        invariant parser.Valid() && parser.stream == TokenStream(tokens, error) && parser.floatOf == floatOf
        invariant CommandsAt(parser.stream, floatOf, start) == After(commands, CommandsAt(parser.stream, floatOf, parser.State()))
        decreases Remaining(parser.stream, parser.pulled)
      {
        CommandsStep(parser.stream, floatOf, parser.State());
        var c := parser.ParseCommand();
        if c.Err? {
          return Err(c.error);
        }
        AfterTwice(commands, [c.value], CommandsAt(parser.stream, floatOf, parser.State()));
        commands := commands + [c.value];
      }
      assert commands + [] == commands;
      assert CommandsAt(parser.stream, floatOf, start) == Ok(commands);
      return Ok(Script(commands));
    }
  }

  /** One round of the argument loop, when the lookahead is not `)`. */
  lemma ArgumentsStep(ts: TokenStream, ids: map<string, Term>, floatOf: FloatParser, pulled: nat)
    requires Current(ts, pulled).kind != RParen
    ensures ArgumentsAt(ts, ids, floatOf, pulled)
      == match TermAt(ts, ids, floatOf, pulled)
         case Err(e) => Err(e)
         case Ok(arg) => Prepend([arg.value], ArgumentsAt(ts, ids, floatOf, arg.pulled))
  {
  }

  /** `xs` before the commands `r` parsed, unless `r` failed. */
  function After(xs: seq<Command>, r: Result<seq<Command>>): Result<seq<Command>> {
    match r
    case Ok(cs) => Ok(xs + cs)
    case Err(e) => Err(e)
  }

  /** One round of the loop of `parse`, when the lookahead is not EOF. */
  lemma CommandsStep(ts: TokenStream, floatOf: FloatParser, s: PState)
    requires Current(ts, s.pulled) != EofToken
    ensures CommandAt(ts, floatOf, s).Err? ==> CommandsAt(ts, floatOf, s) == Err(CommandAt(ts, floatOf, s).error)
    ensures CommandAt(ts, floatOf, s).Ok? ==>
      var step := CommandAt(ts, floatOf, s).value;
      CommandsAt(ts, floatOf, s) == After([step.command], CommandsAt(ts, floatOf, step.state))
  {
  }

  lemma AfterNothing(r: Result<seq<Command>>)
    ensures After([], r) == r
  {
    if r.Ok? {
      assert [] + r.value == r.value;
    }
  }

  lemma AfterTwice(xs: seq<Command>, ys: seq<Command>, r: Result<seq<Command>>)
    ensures After(xs, After(ys, r)) == After(xs + ys, r)
  {
    if r.Ok? {
      assert xs + (ys + r.value) == (xs + ys) + r.value;
    }
  }

  lemma PrependNothing(r: Result<Parsed<seq<Term>>>)
    ensures Prepend([], r) == r
  {
    if r.Ok? {
      assert [] + r.value.value == r.value.value;
    }
  }

  lemma PrependTwice(xs: seq<Term>, ys: seq<Term>, r: Result<Parsed<seq<Term>>>)
    ensures Prepend(xs, Prepend(ys, r)) == Prepend(xs + ys, r)
  {
    if r.Ok? {
      assert xs + (ys + r.value.value) == (xs + ys) + r.value.value;
    }
  }
}
