/**
 * What `VnnLibParser` promises about the scripts it accepts and the errors
 * it raises: the command loop, the shape of commands and terms, the
 * declaration of constants, identifier lookup, and the lazy tokenizer error.
 */
module ParserProperties {
  import opened Lexicon
  import opened Errors
  import opened Ast
  import opened RegexTokenizer
  import opened RegexTokenizerProperties
  import opened Parser

  // ---------------------------------------------------------------------
  // The command loop

  /** The empty text is a script with no commands. */
  lemma EmptyTextGivesEmptyScript(strict: bool, floatOf: FloatParser)
    ensures ParseText([], strict, floatOf) == Ok(Script([]))
  {
    EmptyTextYieldsNothing({Whitespace, Comment}, strict);
  }

  /** Text made only of whitespace and comments is a script with no commands too. */
  lemma TriviaGivesEmptyScript(text: string, strict: bool, floatOf: FloatParser)
    requires Tokens(text, {Whitespace, Comment}, strict) == TokenStream([], None)
    ensures ParseText(text, strict, floatOf) == Ok(Script([]))
  {
  }

  /** No token of the stream is the EOF sentinel. */
  ghost predicate NoSentinel(ts: TokenStream) {
    forall i | 0 <= i < |ts.tokens| :: ts.tokens[i] != EofToken
  }

  /**
   * The command loop ends only on the EOF sentinel, which an exhausted
   * stream returns only when the tokenizer stopped without an error.
   */
  lemma {:induction false} CommandsNeedCleanStream(ts: TokenStream, floatOf: FloatParser, s: PState)
    requires NoSentinel(ts) && Drained(ts, s.pulled)
    requires CommandsAt(ts, floatOf, s).Ok?
    ensures ts.error.None?
    decreases Remaining(ts, s.pulled)
  {
    if Current(ts, s.pulled) != EofToken {
      var step := CommandAt(ts, floatOf, s).value;
      CommandsNeedCleanStream(ts, floatOf, step.state);
    }
  }

  /**
   * A text that parses tiles into tokens completely: the regex tokenizer
   * raised no "Unknown string" error on it, and its tokens, whitespace and
   * comments included, spell it.
   */
  lemma ParsedTextIsTiled(text: string, strict: bool, floatOf: FloatParser)
    requires ParseText(text, strict, floatOf).Ok?
    ensures Tokens(text, {Whitespace, Comment}, strict).error.None?
    ensures Concat(Tokens(text, {}, strict).tokens) == text
  {
    var ts := Tokens(text, {Whitespace, Comment}, strict);
    ParserSkipsTrivia(text, strict);
    assert NoSentinel(ts) by {
      forall i | 0 <= i < |ts.tokens|
        ensures ts.tokens[i] != EofToken
      {
        assert ts.tokens[i].kind !in {Eof, Dummy};
      }
    }
    var first := Advance(ts, 0).value;
    CommandsNeedCleanStream(ts, floatOf, PState(first, CoreIdentifiers));
    if |text| > 0 {
      SkipOnlyDrops(text, 0, {Whitespace, Comment}, TokenPattern(strict));
    }
    TokensSpellText(text, strict);
  }

  // ---------------------------------------------------------------------
  // Commands

  /** A command must open with `(`. */
  lemma MissingOpenParen(ts: TokenStream, floatOf: FloatParser, s: PState)
    requires Current(ts, s.pulled).kind != LParen
    ensures CommandAt(ts, floatOf, s) == Err(ParserError("Expected '('"))
  {
    assert "Expected " + Repr("(") == "Expected '('";
  }

  /** After `(`, only `assert` and `declare-const` name commands. */
  lemma UnknownCommand(ts: TokenStream, floatOf: FloatParser, s: PState)
    requires Current(ts, s.pulled).kind == LParen
    requires s.pulled < |ts.tokens| || ts.error.None?
    requires Current(ts, s.pulled + 1).value !in {"assert", "declare-const"}
    ensures CommandAt(ts, floatOf, s) == Err(ParserError("Unknown command: " + Repr(Current(ts, s.pulled + 1).value)))
  {
  }

  /** The body of a command that does not end at `)` is reported as a missing `)`. */
  lemma MissingCloseParen(ts: TokenStream, floatOf: FloatParser, s: PState)
    requires Current(ts, s.pulled).kind == LParen
    requires Current(ts, s.pulled + 1).value in {"assert", "declare-const"}
    requires var body := PState(s.pulled + 1, s.ids);
      var node := if Current(ts, s.pulled + 1).value == "assert" then AssertAt(ts, floatOf, body) else DeclareConstAt(ts, body);
      node.Ok? && Current(ts, node.value.state.pulled).kind != RParen
    ensures CommandAt(ts, floatOf, s) == Err(ParserError("Expected ')'"))
  {
    assert 0 < s.pulled <= |ts.tokens|;
    assert Advance(ts, s.pulled) == Ok(s.pulled + 1);
    var body := PState(s.pulled + 1, s.ids);
    var node := if Current(ts, s.pulled + 1).value == "assert" then AssertAt(ts, floatOf, body) else DeclareConstAt(ts, body);
    assert "Expected " + Repr(")") == "Expected ')'";
    assert Expect(Current(ts, node.value.state.pulled), RParen, Some(")")) == Err(ParserError("Expected ')'"));
  }

  /**
   * Every command read is `(`, a keyword, the command's body and `)`: the
   * keyword names the kind of command, and the token before the new
   * lookahead is the closing `)`.
   */
  lemma CommandIsParenthesised(ts: TokenStream, floatOf: FloatParser, s: PState)
    requires CommandAt(ts, floatOf, s).Ok?
    ensures Current(ts, s.pulled).kind == LParen
    ensures var keyword := Current(ts, s.pulled + 1).value;
      var c := CommandAt(ts, floatOf, s).value.command;
      (keyword == "assert" && c.Assert?) || (keyword == "declare-const" && c.DeclareConst?)
    ensures var p := CommandAt(ts, floatOf, s).value.state.pulled;
      p >= 1 && Current(ts, p - 1).kind == RParen
  {
  }

  /** An assertion leaves the identifier table alone. */
  lemma AssertKeepsTable(ts: TokenStream, floatOf: FloatParser, s: PState)
    requires Current(ts, s.pulled + 1).value == "assert"
    requires CommandAt(ts, floatOf, s).Ok?
    ensures CommandAt(ts, floatOf, s).value.state.ids == s.ids
  {
  }

  // ---------------------------------------------------------------------
  // declare-const

  /**
   * A declaration (starting at its keyword) succeeds exactly when two SYMBOL
   * tokens follow, the stream can move past the second, and the second
   * names a sort of the fixed table.
   */
  lemma DeclareConstSucceeds(ts: TokenStream, s: PState)
    ensures DeclareConstAt(ts, s).Ok? <==>
      && Current(ts, s.pulled + 1).kind == Symbol
      && Current(ts, s.pulled + 2).kind == Symbol
      && (s.pulled + 2 < |ts.tokens| || ts.error.None?)
      && Current(ts, s.pulled + 2).value in Sorts
  {
  }

  /**
   * A successful declaration binds the name to the identifier of that name,
   * replacing any earlier binding and keeping every other one; the stream
   * has moved past both symbols.
   */
  lemma DeclareConstBinds(ts: TokenStream, s: PState)
    requires DeclareConstAt(ts, s).Ok?
    ensures var name := Current(ts, s.pulled + 1).value;
      var step := DeclareConstAt(ts, s).value;
      && step.command == DeclareConst(name, Current(ts, s.pulled + 2).value)
      && step.state.pulled == s.pulled + 3
      && name in step.state.ids && step.state.ids[name] == Identifier(name)
      && (forall n | n in s.ids && n != name :: n in step.state.ids && step.state.ids[n] == s.ids[n])
      && step.state.ids.Keys == s.ids.Keys + {name}
  {
  }

  /** An unknown sort is "undeclared sort"; the table is not touched since nothing is returned. */
  lemma UndeclaredSort(ts: TokenStream, s: PState)
    requires Current(ts, s.pulled + 1).kind == Symbol && Current(ts, s.pulled + 2).kind == Symbol
    requires s.pulled + 2 < |ts.tokens| || ts.error.None?
    requires Current(ts, s.pulled + 2).value !in Sorts
    ensures DeclareConstAt(ts, s) == Err(ParserError("undeclared sort: " + Repr(Current(ts, s.pulled + 2).value)))
  {
  }

  /** A table binding each name to its own identifier stays so through any command. */
  lemma CommandKeepsSelfNamed(ts: TokenStream, floatOf: FloatParser, s: PState)
    requires SelfNamed(s.ids) && CommandAt(ts, floatOf, s).Ok?
    ensures SelfNamed(CommandAt(ts, floatOf, s).value.state.ids)
    ensures s.ids.Keys <= CommandAt(ts, floatOf, s).value.state.ids.Keys
  {
    var keyword := Current(ts, s.pulled + 1).value;
    var body := PState(s.pulled + 1, s.ids);
    CommandBody(ts, floatOf, s);
    if keyword == "declare-const" {
      DeclareConstBinds(ts, body);
    }
  }

  /** A command that parses: its body is an assertion or a declaration that parses, and leaves the table as that does. */
  lemma CommandBody(ts: TokenStream, floatOf: FloatParser, s: PState)
    requires CommandAt(ts, floatOf, s).Ok?
    ensures var keyword := Current(ts, s.pulled + 1).value;
      var body := PState(s.pulled + 1, s.ids);
      var ids := CommandAt(ts, floatOf, s).value.state.ids;
      || (keyword == "assert" && AssertAt(ts, floatOf, body).Ok? && ids == AssertAt(ts, floatOf, body).value.state.ids)
      || (keyword == "declare-const" && DeclareConstAt(ts, body).Ok? && ids == DeclareConstAt(ts, body).value.state.ids)
  {
    assert 0 < s.pulled <= |ts.tokens|;
    assert Advance(ts, s.pulled) == Ok(s.pulled + 1);
  }

  // ---------------------------------------------------------------------
  // Identifier lookup

  function UndeclaredMessage(name: string): string {
    "undeclared identifier: " + Repr(name)
  }

  /**
   * An unknown name is reported with the exponential-notation hint exactly
   * when it looks like an exponent, and without it exactly when it does not.
   */
  lemma HintIffExponential(ids: map<string, Term>, name: string)
    requires name !in ids
    ensures Lookup(ids, name) == Err(ParserError(UndeclaredMessage(name) + ExponentHint)) <==> LooksExponential(name)
    ensures Lookup(ids, name) == Err(ParserError(UndeclaredMessage(name))) <==> !LooksExponential(name)
  {
    assert |UndeclaredMessage(name) + ExponentHint| > |UndeclaredMessage(name)|;
  }

  /**
   * The part a strict tokenizer leaves behind of `1.5e-3`, an `e`, an
   * optional sign and digits, looks like an exponent.
   */
  lemma ExponentSuffixLooksExponential(sign: string, digits: string)
    requires sign in {"", "+", "-"} && digits != []
    requires forall i | 0 <= i < |digits| :: IsDigit(digits[i])
    ensures LooksExponential("e" + sign + digits)
  {
    var name := "e" + sign + digits;
    forall i | 1 <= i < |name|
      ensures name[i] in "0123456789+-"
    {
      if i > |sign| {
        assert name[i] == digits[i - 1 - |sign|];
      }
    }
  }

  /** Examples for `HintIffExponential`: ordinary names starting with `e` do not get the hint. */
  lemma NamesAreNotExponents()
    ensures !LooksExponential("e")
    ensures !LooksExponential("eps")
    ensures !LooksExponential("e1x")
  {
    assert "eps"[1] !in "0123456789+-";
    assert "e1x"[2] !in "0123456789+-";
  }

  // ---------------------------------------------------------------------
  // Terms

  /**
   * A symbol starting with `-` is a real constant when `float()` accepts
   * it, and otherwise the application of `-` to the rest of the symbol;
   * `-` is looked up before the rest.
   */
  lemma NegativeSymbol(ts: TokenStream, ids: map<string, Term>, floatOf: FloatParser, pulled: nat)
    requires Current(ts, pulled).kind == Symbol
    requires |Current(ts, pulled).value| > 0 && Current(ts, pulled).value[0] == '-'
    requires pulled < |ts.tokens| || ts.error.None?
    ensures var v := Current(ts, pulled).value;
      floatOf(v).Some? ==> TermAt(ts, ids, floatOf, pulled) == Ok(Parsed(Constant(RealLit(floatOf(v).value)), pulled + 1))
    ensures var v := Current(ts, pulled).value;
      floatOf(v).None? && SelfNamed(ids) && "-" in ids && v[1..] in ids ==>
        TermAt(ts, ids, floatOf, pulled) == Ok(Parsed(FunctionApplication(Identifier("-"), [Identifier(v[1..])]), pulled + 1))
    ensures var v := Current(ts, pulled).value;
      floatOf(v).None? && "-" !in ids ==> TermAt(ts, ids, floatOf, pulled) == Err(ParserError(UndeclaredMessage("-")))
  {
  }

  /**
   * A symbol is looked up only after the stream has moved past it: when it
   * is the last good token, the tokenizer's error wins over the lookup.
   */
  lemma TokenizerErrorBeforeLookup(ts: TokenStream, ids: map<string, Term>, floatOf: FloatParser)
    requires ts.tokens != [] && ts.tokens[|ts.tokens| - 1].kind == Symbol && ts.error.Some?
    ensures TermAt(ts, ids, floatOf, |ts.tokens|) == Err(ts.error.value)
  {
  }

  /** A literal token is its converted value; a failed conversion is raised before the stream moves. */
  lemma LiteralTerm(ts: TokenStream, ids: map<string, Term>, floatOf: FloatParser, pulled: nat)
    requires IsLiteralKind(Current(ts, pulled).kind)
    ensures var t := Current(ts, pulled);
      ConvertLiteral(t.kind, t.value).Err? ==> TermAt(ts, ids, floatOf, pulled) == Err(ConvertLiteral(t.kind, t.value).error)
    ensures var t := Current(ts, pulled);
      ConvertLiteral(t.kind, t.value).Ok? && (pulled < |ts.tokens| || ts.error.None?) ==>
        TermAt(ts, ids, floatOf, pulled) == Ok(Parsed(Constant(ConvertLiteral(t.kind, t.value).value), pulled + 1))
  {
    LiteralUnfolded(ts, ids, floatOf, pulled);
    assert 0 < pulled <= |ts.tokens|;
  }

  /** The literal branch of `TermAt`, written out. */
  lemma LiteralUnfolded(ts: TokenStream, ids: map<string, Term>, floatOf: FloatParser, pulled: nat)
    requires IsLiteralKind(Current(ts, pulled).kind)
    ensures var t := Current(ts, pulled);
      TermAt(ts, ids, floatOf, pulled)
      == var v :- ConvertLiteral(t.kind, t.value); var next :- Advance(ts, pulled); Ok(Parsed(Constant(v), next))
  {
  }

  /** A token that starts no term, `)` and EOF among them, is "Unexpected token". */
  lemma UnexpectedToken(ts: TokenStream, ids: map<string, Term>, floatOf: FloatParser, pulled: nat)
    requires var k := Current(ts, pulled).kind; k != Symbol && k != LParen && !IsLiteralKind(k)
    ensures TermAt(ts, ids, floatOf, pulled) == Err(ParserError("Unexpected token: " + TokenRepr(Current(ts, pulled))))
  {
  }

  /**
   * A parenthesised term that parses is the application of the identifier
   * bound to its SYMBOL head to at least one argument.
   */
  lemma ApplicationShape(ts: TokenStream, ids: map<string, Term>, floatOf: FloatParser, pulled: nat)
    requires Current(ts, pulled).kind == LParen
    requires TermAt(ts, ids, floatOf, pulled).Ok?
    ensures var head := Current(ts, pulled + 1);
      var t := TermAt(ts, ids, floatOf, pulled).value.value;
      && head.kind == Symbol && head.value in ids
      && t.FunctionApplication? && t.head == ids[head.value] && |t.terms| >= 1
  {
  }

  /**
   * The head is looked up only after the arguments: an argument's error is
   * reported even when the head is undeclared.
   */
  lemma ArgumentErrorWins(ts: TokenStream, ids: map<string, Term>, floatOf: FloatParser, pulled: nat)
    requires Current(ts, pulled).kind == LParen && Current(ts, pulled + 1).kind == Symbol
    requires pulled + 1 < |ts.tokens| || ts.error.None?
    ensures var first := TermAt(ts, ids, floatOf, pulled + 2);
      first.Err? ==> TermAt(ts, ids, floatOf, pulled) == Err(first.error)
    ensures var first := TermAt(ts, ids, floatOf, pulled + 2);
      first.Ok? && ArgumentsAt(ts, ids, floatOf, first.value.pulled).Err? ==>
        TermAt(ts, ids, floatOf, pulled) == Err(ArgumentsAt(ts, ids, floatOf, first.value.pulled).error)
  {
    ApplicationUnfolded(ts, ids, floatOf, pulled);
  }

  /** A parenthesised term whose head is a symbol, written out: its first argument, then the others and the `)`. */
  lemma ApplicationUnfolded(ts: TokenStream, ids: map<string, Term>, floatOf: FloatParser, pulled: nat)
    requires Current(ts, pulled).kind == LParen && Current(ts, pulled + 1).kind == Symbol
    requires pulled + 1 < |ts.tokens| || ts.error.None?
    ensures TermAt(ts, ids, floatOf, pulled)
      == var first :- TermAt(ts, ids, floatOf, pulled + 2);
         CloseApplication(ts, ids, Current(ts, pulled + 1), first.value, ArgumentsAt(ts, ids, floatOf, first.pulled))
  {
    assert 0 < pulled <= |ts.tokens|;
    assert Advance(ts, pulled) == Ok(pulled + 1);
    assert Advance(ts, pulled + 1) == Ok(pulled + 2);
  }
}
