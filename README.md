# VNN-LIB reader, modelled in Dafny

This project models the core of the VNN-LIB Python library. VNN-LIB is the
SMT-LIB-based language in which neural-network verification properties are
written. The library reads such a property in four stages:

- **Hand-written lexer** (`vnnlib/tokenizer.py`). A single pass over the
  characters that cuts the text into the lexical classes of section 3.1 of
  the SMT-LIB Standard v2.6 and ends with an `EOF` token. A `strict` switch
  rejects exponent notation.
- **Parser** (`vnnlib/parser.py`). It has three parts:
  - its own regular-expression tokenizer, whose matches must tile the text;
  - the recursive-descent `VnnLibParser`, with a one-token lookahead and a
    mutable identifier table;
  - the literal converters.
- **AST fold** `AstNodeTransformer`, in `vnnlib/transformer.py` and in the
  copy in `vnnlib/parser.py`. It transforms a node's children first, then
  calls the node class's `transform_*` handler.
- **Legacy constraint compiler** `CompatTransformer` (`vnnlib/compat.py`). It
  compiles the assertions into linear forms "sum <= 0", keyed
  `(row, var_type, index)`. It then folds them into an input box and output
  polytope rows, one pair per disjunct, grouped by identical box.

Each stage is written in the form of its source:

- The lexer is a `Lex` function with a `Tokenize` method whose scanning loop
  is proved to compute it.
- The regex tokenizer is a `TokensFrom` function with a `FindTokens` loop
  proved against it.
- The parser has specification functions (`TermAt` … `ParseText`) and a class
  `VnnLibParser` whose fields are the lookahead position and the identifier
  table. Its methods are proved against those functions.
- The fold is a function over the AST datatype, parameterised by a handler
  table and by a state that the handlers may change.
- The compiler has handler functions over its state (`Compat`), a
  finalisation function (`CompatScript`), and a class `CompatTransformer`
  whose methods update the same fields as the source's and are proved
  against those functions.

Module layout:

| file | module | models |
|---|---|---|
| errors.dfy | Errors | the exception family (`VnnLibError`, `TokenizerError`, `ParserError`) and the built-in exceptions that escape; `Result`, `Option` |
| lexicon.dfy | Lexicon | character classes and token kinds shared by both tokenizers |
| tokenizer.dfy, tokenizer_properties.dfy | Tokenizer, TokenizerProperties | `vnnlib/tokenizer.py` |
| regex_tokenizer.dfy, regex_tokenizer_properties.dfy | RegexTokenizer, RegexTokenizerProperties | `tokenize` in `vnnlib/parser.py` |
| ast.dfy | Ast | the AST classes, `CORE_IDS`, the sorts and `LITERAL_CONVERTERS` |
| parser.dfy, parser_properties.dfy | Parser, ParserProperties | `VnnLibParser` |
| transformer.dfy, transformer_properties.dfy | Transformer, TransformerProperties | `AstNodeTransformer` |
| keys.dfy | Keys | key tuples and Python's tuple order, used by `sorted` |
| compat.dfy, compat_properties.dfy | Compat, CompatProperties | the `transform_*` handlers of `CompatTransformer` except `transform_Script` |
| compat_script.dfy, compat_script_properties.dfy | CompatScript, CompatScriptProperties | `transform_Script` |
| compat_findings.dfy | CompatFindings | the polytope-row numbering finding below |
| compat_transformer.dfy | CompatCompiler | the class `CompatTransformer` and its loops |

## Model

| member | source | states |
|---|---|---|
| Lexicon.Span | vnnlib/tokenizer.py:53-55 | the inner `while c in <class>` loop stops at the first character outside the class: every character before it is in the class |
| Lexicon.SpanOfRun | vnnlib/tokenizer.py:63-65 | a run of class characters followed by a character outside the class, or by the end of the text, is read exactly up to that point |
| Tokenizer.StringEnd | vnnlib/tokenizer.py:117-121 | the string loop either stops within the text, past an opening quote, or never stops (`None`) |
| Tokenizer.Scan | vnnlib/tokenizer.py:40-134 | a turn of the scanning loop that skips or emits consumes between 1 and all of the remaining characters, and never emits EOF |
| Tokenizer.ReadRun | vnnlib/tokenizer.py:63-65 | the accumulator loop returns exactly the maximal run of the class from the start index, and the index after it |
| Tokenizer.ReadNumber | vnnlib/tokenizer.py:60-93 | the digit branch of the loop computes the numeral/decimal step of `Lex` |
| Tokenizer.ReadFraction | vnnlib/tokenizer.py:73-84 | the fraction part of the number branch computes the fraction step of `Lex` |
| Tokenizer.ReadExponent | vnnlib/tokenizer.py:85-93 | the exponent part computes the exponent step of `Lex` |
| Tokenizer.ReadHashLiteral | vnnlib/tokenizer.py:94-112 | the `#` branch computes the `#x`/`#b` step of `Lex` |
| Tokenizer.ReadString | vnnlib/tokenizer.py:113-122 | the quote-counting loop computes the string step of `Lex`, divergence included |
| Tokenizer.ReadQuotedSymbol | vnnlib/tokenizer.py:123-132 | the `\|` branch computes the quoted-symbol step of `Lex` |
| Tokenizer.NextStep | vnnlib/tokenizer.py:41-134 | the dispatch on the current character computes `Scan` |
| Tokenizer.Tokenize | vnnlib/tokenizer.py:22-139 | the scanning loop yields exactly the tokens of `Lex` and ends as `Lex` says: completed, failed with its error, or diverging |
| TokenizerProperties.EmptyTextIsEof | vnnlib/tokenizer.py:23-25 | the empty text yields exactly `[EOF]` |
| TokenizerProperties.EofOnlyAtEnd | vnnlib/tokenizer.py:135-139 | a completed scan ends with exactly one EOF, and no other token is EOF |
| TokenizerProperties.TriviaProducesNothing | vnnlib/tokenizer.py:42-59 | whitespace, and comments closed by a line break, produce no tokens whatever follows them |
| TokenizerProperties.CommentToEndOfText | vnnlib/tokenizer.py:57-59 | a comment that runs to the end of the text yields only `[EOF]` |
| TokenizerProperties.NumeralRun | vnnlib/tokenizer.py:60-68 | a maximal digit run not followed by `.`, `e` or `E` is one NUMERAL holding exactly that run |
| TokenizerProperties.StrictRejectsExponentAfterInteger | vnnlib/tokenizer.py:69-72 | in strict mode, `e`/`E` after the integer part fails with "invalid decimal in strict mode" naming the text read so far |
| TokenizerProperties.StrictRejectsExponentAfterFraction | vnnlib/tokenizer.py:81-84 | in strict mode, `e`/`E`/`+`/`-` after the fraction fails with the same message |
| TokenizerProperties.DecimalRun | vnnlib/tokenizer.py:73-80 | digits, `.`, digits, not followed by a digit or exponent mark, are one DECIMAL in either mode |
| TokenizerProperties.FractionEnds | vnnlib/tokenizer.py:75-80 | fraction digits followed by neither a digit nor an exponent mark end the DECIMAL |
| TokenizerProperties.ExponentTail | vnnlib/tokenizer.py:85-93 | the exponent's optional sign and its digits complete the DECIMAL |
| TokenizerProperties.IntegerToFraction | vnnlib/tokenizer.py:66-74 | `.` after the integer part, or `e`/`E` outside strict mode, leads on to the fraction |
| TokenizerProperties.FractionToExponent | vnnlib/tokenizer.py:78-86 | outside strict mode, `e`/`E` after the fraction digits leads on to the exponent |
| TokenizerProperties.FractionAndExponentScan | vnnlib/tokenizer.py:73-93 | outside strict mode, fraction, `e`/`E` and exponent form the rest of one DECIMAL |
| TokenizerProperties.ExponentNumberScan | vnnlib/tokenizer.py:60-93 | outside strict mode, a number with an exponent is scanned as one DECIMAL of exactly its text |
| TokenizerProperties.ExponentAbsorbed | vnnlib/tokenizer.py:60-93 | outside strict mode, the exponent is absorbed into one DECIMAL, with or without a fraction before it |
| TokenizerProperties.InvalidNumberPrefix | vnnlib/tokenizer.py:111-112 | `#` followed by anything but `x` or `b` fails with "invalid number prefix" |
| TokenizerProperties.HexadecimalRun | vnnlib/tokenizer.py:97-103 | `#x` and a maximal, possibly empty, run of hex digits is one HEXADECIMAL |
| TokenizerProperties.BinaryRun | vnnlib/tokenizer.py:104-110 | `#b` and a maximal, possibly empty, run of binary digits is one BINARY |
| TokenizerProperties.NumberPrefixAtEndOfText | vnnlib/tokenizer.py:94-138 | `#`, `#x` or `#b` cut short by the end of the text fails with "unexpected end of file" |
| TokenizerProperties.SimpleSymbol | vnnlib/tokenizer.py:50-56 | a maximal run of symbol characters that starts with a letter or punctuation is one SYMBOL |
| TokenizerProperties.UnexpectedCharacter | vnnlib/tokenizer.py:133-134 | a character that starts no lexical class fails with "unexpected character" |
| TokenizerProperties.QuotedSymbol | vnnlib/tokenizer.py:123-132 | a quoted symbol's value is the text between the opening `\|` and the next `\|` or backslash, both excluded |
| TokenizerProperties.UnterminatedQuotedSymbol | vnnlib/tokenizer.py:123-138 | a quoted symbol still open at the end of the text fails with "unexpected end of file" |
| TokenizerProperties.StringRunsToQuote | vnnlib/tokenizer.py:117-121 | inside a string, the loop runs to the next double quote, which makes the count even |
| TokenizerProperties.StringNeverCloses | vnnlib/tokenizer.py:117-121 | inside a string with no further double quote, the loop never ends |
| TokenizerProperties.SimpleString | vnnlib/tokenizer.py:113-122 | a string literal without inner quotes is one STRING, quotes included |
| TokenizerProperties.DoubledQuoteStaysInString | vnnlib/tokenizer.py:113-122 | a doubled quote inside a string does not close it |
| TokenizerProperties.UnterminatedStringDiverges | vnnlib/tokenizer.py:113-122 | a string still open at the end of the text makes the scan diverge |
| RegexTokenizer.MatchComment | vnnlib/parser.py:49 | a COMMENT match is non-empty and lies within the text |
| RegexTokenizer.MatchWhitespace | vnnlib/parser.py:50 | a WS match is non-empty and lies within the text |
| RegexTokenizer.MatchChar | vnnlib/parser.py:51-52 | an LPAREN/RPAREN match is non-empty and lies within the text |
| RegexTokenizer.MatchPrefixed | vnnlib/parser.py:53-54 | a BINARY/HEXADECIMAL match holds the prefix and at least one digit |
| RegexTokenizer.MatchNumeral | vnnlib/parser.py:58 | a NUMERAL match is non-empty and lies within the text |
| RegexTokenizer.ExponentLength | vnnlib/parser.py:56 | the optional exponent of an extended DECIMAL lies within the text |
| RegexTokenizer.MatchDecimal | vnnlib/parser.py:55-57 | a DECIMAL match, strict or extended, is non-empty and lies within the text |
| RegexTokenizer.LastQuote | vnnlib/parser.py:59 | the greedy STRING body backtracks to the last double quote: none follows it |
| RegexTokenizer.MatchString | vnnlib/parser.py:59 | a STRING match holds at least its two quotes |
| RegexTokenizer.MatchSymbol | vnnlib/parser.py:60 | a SYMBOL match is non-empty and lies within the text |
| RegexTokenizer.MatchGroup | vnnlib/parser.py:48-64 | the match of each named group is non-empty and lies within the text |
| RegexTokenizer.FirstGroup | vnnlib/parser.py:67-73 | the alternation picks a group that matches, with that group's own match |
| RegexTokenizer.MatchAt | vnnlib/parser.py:67-73 | the compiled pattern matches a non-empty prefix, of a kind that is neither EOF nor the placeholder |
| RegexTokenizer.TokenPattern | vnnlib/parser.py:65-73 | every match of the compiled pattern consumes at least one character and is neither EOF nor the placeholder |
| RegexTokenizer.NextMatch | vnnlib/parser.py:75 | `finditer`'s search finds a position, from the current one on, where the pattern matches |
| RegexTokenizer.NextMatchIsFirst | vnnlib/parser.py:75-78 | the search finds the first such position: the pattern matches nowhere before it |
| RegexTokenizer.NoNextMatch | vnnlib/parser.py:83-84 | when the search finds nothing, the pattern matches nowhere in the rest |
| RegexTokenizer.FindTokens | vnnlib/parser.py:74-84 | the loop over the matches computes `TokensFrom`: the kept tokens, and the "Unknown string" error of a gap or tail |
| RegexTokenizer.Tokenize | vnnlib/parser.py:45-84 | `tokenize` computes `Tokens`: nothing for the empty text, else the matches of the compiled pattern |
| RegexTokenizerProperties.EmptyTextYieldsNothing | vnnlib/parser.py:46-47 | the empty text yields no tokens and no error |
| RegexTokenizerProperties.Filter | vnnlib/parser.py:80-81 | filtering keeps no token of a skipped kind |
| RegexTokenizerProperties.NoMatchLeft | vnnlib/parser.py:83-84 | with no match left, the stream ends cleanly at the end of the text, else with "Unknown string" naming the tail |
| RegexTokenizerProperties.GapBeforeMatch | vnnlib/parser.py:77-78 | a match after a gap stops the stream with "Unknown string" naming the gap |
| RegexTokenizerProperties.MatchSkipped | vnnlib/parser.py:80-82 | a match of a skipped kind yields nothing and the scan resumes after it |
| RegexTokenizerProperties.MatchKept | vnnlib/parser.py:80-82 | a match of a kept kind yields its token, with its span, before the rest |
| RegexTokenizerProperties.SkipOnlyDrops | vnnlib/parser.py:80-81 | the stream with `skip` is the unskipped stream filtered, with the same error |
| RegexTokenizerProperties.TilingOrGap | vnnlib/parser.py:74-84 | without skipping, the tokens tile the text up to the first gap, and there is an error exactly when they stop short of the end |
| RegexTokenizerProperties.TilesSpell | vnnlib/parser.py:74-84 | tokens that tile a stretch of the text spell exactly that stretch |
| RegexTokenizerProperties.TokensSpellText | vnnlib/parser.py:74-84 | without skipping and without error, the token values concatenated are the whole text |
| RegexTokenizerProperties.TokenKinds | vnnlib/parser.py:80-81 | a token has a kind only if a match had that kind and `skip` let it through |
| RegexTokenizerProperties.ParserSkipsTrivia | vnnlib/parser.py:233 | the tokens the parser reads contain no whitespace, comment, EOF or placeholder token |
| Ast.CoreIdentifiersSelfNamed | vnnlib/parser.py:161-182 | the initial table binds exactly the core names, each to the identifier of that name |
| Ast.IntOf | vnnlib/parser.py:142-147 | on the texts the NUMERAL, HEXADECIMAL and BINARY tokens carry, `int(text, base)` succeeds exactly on a non-empty run of digits of the base, with its value; otherwise it raises ValueError naming the text |
| Ast.DigitsRoundTrip | vnnlib/parser.py:142-156 | writing a natural number out in base 2, 10 or 16 and reading the digits back gives the number |
| Ast.DecimalWithoutExponent | vnnlib/parser.py:155 | `float("a.f")` is `a` plus the fraction the digits `f` spell |
| Ast.ExponentScales | vnnlib/parser.py:155 | an exponent moves the point of the mantissa by the places its digits name, leftwards for `-` |
| Ast.NumeralRoundTrip | vnnlib/parser.py:156 | a numeral spelled from a number converts back to it |
| Ast.HexadecimalRoundTrip | vnnlib/parser.py:142-143 | `#x` and the hex digits of a number convert back to it |
| Ast.BinaryRoundTrip | vnnlib/parser.py:146-147 | `#b` and the binary digits of a number convert back to it |
| Ast.StringVerbatim | vnnlib/parser.py:150-159 | a STRING keeps its text verbatim, quotes included, and no other kind converts to a string |
| Parser.Advance | vnnlib/parser.py:192-194 | a request moves on by exactly one token while tokens remain and never moves backwards; it fails exactly when the tokens are used up and the tokenizer stopped on an error, so a successful request never passes that error |
| Parser.Expect | vnnlib/parser.py:196-207 | succeeds exactly when the lookahead has the expected kind |
| Parser.Lookup | vnnlib/parser.py:209-224 | succeeds exactly for names in the table, with the term bound to the name |
| Parser.LookupSort | vnnlib/parser.py:226-229 | succeeds exactly for Bool, Int and Real, and returns the name |
| Parser.TermAt | vnnlib/parser.py:270-303 | a parsed term consumes at least one token |
| Parser.ApplicationAt | vnnlib/parser.py:287-298 | a parsed parenthesised term consumes at least one token |
| Parser.CloseApplication | vnnlib/parser.py:295-298 | the application closes only after its arguments parsed |
| Parser.ArgumentsAt | vnnlib/parser.py:293-294 | the argument loop stops with `)` as the lookahead |
| Parser.AssertAt | vnnlib/parser.py:266-268 | an assertion leaves the identifier table unchanged |
| Parser.DeclareConstAt | vnnlib/parser.py:255-264 | a declaration never moves the stream backwards |
| Parser.CommandAt | vnnlib/parser.py:240-253 | a command consumes tokens and never reads past the tokenizer's error |
| Parser.VnnLibParser.constructor | vnnlib/parser.py:185-190 | a new parser holds the placeholder token, has requested nothing, and starts from the core identifiers |
| Parser.VnnLibParser.AdvanceTokenStream | vnnlib/parser.py:192-194 | the lookahead becomes the next token, or the tokenizer's error is raised; the table is unchanged |
| Parser.VnnLibParser.ExpectTokenType | vnnlib/parser.py:196-207 | computes `Expect` on the lookahead |
| Parser.VnnLibParser.LookupIdentifier | vnnlib/parser.py:209-224 | computes `Lookup` on the table |
| Parser.VnnLibParser.ParseTerm | vnnlib/parser.py:270-303 | ends as `TermAt` says, with the same error or term and position; the table is unchanged |
| Parser.VnnLibParser.ParseApplication | vnnlib/parser.py:287-298 | ends as `ApplicationAt` says |
| Parser.VnnLibParser.ParseDeclareConst | vnnlib/parser.py:255-264 | ends as `DeclareConstAt` says; a failure leaves the table as it was |
| Parser.VnnLibParser.ParseAssert | vnnlib/parser.py:266-268 | ends as `AssertAt` says; the table is unchanged |
| Parser.VnnLibParser.ParseCommand | vnnlib/parser.py:240-253 | ends as `CommandAt` says |
| Parser.VnnLibParser.Parse | vnnlib/parser.py:231-238 | computes `ParseText`: tokenize with WS and COMMENT skipped, request the first token, read commands until EOF |
| ParserProperties.EmptyTextGivesEmptyScript | vnnlib/parser.py:231-238 | the empty text is a script with no commands |
| ParserProperties.TriviaGivesEmptyScript | vnnlib/parser.py:231-238 | a text of whitespace and comments only is a script with no commands |
| ParserProperties.CommandsNeedCleanStream | vnnlib/parser.py:236 | the command loop ends only on the EOF sentinel, which comes only from a stream the tokenizer finished without error |
| ParserProperties.ParsedTextIsTiled | vnnlib/parser.py:74-84 | a text that parses has no "Unknown string" gap, and its tokens, trivia included, spell it |
| ParserProperties.MissingOpenParen | vnnlib/parser.py:241 | a command that does not open with `(` fails with "Expected '('" |
| ParserProperties.UnknownCommand | vnnlib/parser.py:248-249 | a keyword other than `assert`/`declare-const` fails with "Unknown command" |
| ParserProperties.MissingCloseParen | vnnlib/parser.py:251 | a command body not followed by `)` fails with "Expected ')'" |
| ParserProperties.CommandIsParenthesised | vnnlib/parser.py:240-253 | every command read is `(`, the keyword that names its kind, its body and `)` |
| ParserProperties.AssertKeepsTable | vnnlib/parser.py:266-268 | an assertion leaves the identifier table alone |
| ParserProperties.DeclareConstSucceeds | vnnlib/parser.py:255-264 | a declaration succeeds exactly when two SYMBOLs follow, the stream can move past them, and the second names Bool, Int or Real |
| ParserProperties.DeclareConstBinds | vnnlib/parser.py:261-264 | a declaration binds the name, replacing any earlier binding and keeping every other one |
| ParserProperties.UndeclaredSort | vnnlib/parser.py:258-262 | an unknown sort fails with "undeclared sort" |
| ParserProperties.CommandKeepsSelfNamed | vnnlib/parser.py:261-263 | every name stays bound to its own identifier through any command, and no name is unbound |
| ParserProperties.HintIffExponential | vnnlib/parser.py:210-223 | an unknown name gets the exponential-notation hint exactly when it is `e` followed by digits and signs |
| ParserProperties.ExponentSuffixLooksExponential | vnnlib/parser.py:211-215 | the part of `1.5e-3` that a strict tokenizer leaves behind gets the hint |
| ParserProperties.NamesAreNotExponents | vnnlib/parser.py:211-215 | examples of `HintIffExponential`: `e`, `eps` and `e1x` do not get the hint |
| ParserProperties.NegativeSymbol | vnnlib/parser.py:275-285 | a `-`-symbol is a real constant when `float` accepts it, else `-` applied to the rest, with `-` looked up first |
| ParserProperties.TokenizerErrorBeforeLookup | vnnlib/parser.py:273-274 | a symbol is looked up only after the stream moved past it, so the tokenizer's error wins |
| ParserProperties.LiteralTerm | vnnlib/parser.py:299-302 | a literal token is its converted value; a failed conversion is raised before the stream moves |
| ParserProperties.UnexpectedToken | vnnlib/parser.py:303 | a token that starts no term, `)` and EOF included, fails with "Unexpected token" |
| ParserProperties.ApplicationShape | vnnlib/parser.py:287-298 | a parenthesised term that parses applies the identifier bound to its SYMBOL head to at least one argument |
| ParserProperties.ArgumentErrorWins | vnnlib/parser.py:292-298 | the head is looked up after the arguments, so an argument's error wins over an undeclared head |
| Transformer.VisitScript | vnnlib/transformer.py:69-75 | the loop over the commands computes `VisitCommands`: results in command order, `Discard` left out |
| TransformerProperties.TraceIsPostOrder | vnnlib/transformer.py:45-64 | handlers run in post-order, each on its visit's arguments: the transformed head first, then the arguments left to right |
| TransformerProperties.TraceTermsArePostOrder | vnnlib/transformer.py:63 | a list of terms is transformed left to right |
| TransformerProperties.TraceCommand | vnnlib/transformer.py:51-59 | an assertion's handler runs after its term's, on that one transformed term; a declaration receives its two fields |
| TransformerProperties.TraceCommands | vnnlib/transformer.py:69-75 | the commands are transformed in order, each command's handlers after the previous command's |
| TransformerProperties.TraceScript | vnnlib/transformer.py:45-75 | the script's handler runs last, on every command's result in command order |
| TransformerProperties.BareTerm | vnnlib/transformer.py:45-49 | without term handlers a term yields its visit's arguments, nested, and the state is untouched |
| TransformerProperties.BareTerms | vnnlib/transformer.py:63 | without term handlers a list of terms yields their argument tuples |
| TransformerProperties.BareCommands | vnnlib/transformer.py:69-75 | without handlers the commands yield their argument tuples in order |
| TransformerProperties.BareScript | vnnlib/parser.py:317-346 | without handlers a script yields its commands' argument tuples: as a tuple in parser.py's fold, as the visit's list in transformer.py's |
| TransformerProperties.DeclarationsKept | vnnlib/transformer.py:69-75 | with a handler that discards assertions, the results are the declared names in command order |
| TransformerProperties.DiscardLeftOut | vnnlib/transformer.py:69-75 | results identical to `Discard` are left out, and the others keep the order of their commands |
| Keys.KeyOrder | vnnlib/compat.py:146-147 | Python's order of key tuples is strict and total |
| Keys.AscendingUnique | vnnlib/compat.py:146-147 | two ascending sequences of the same keys are the same sequence, so `sorted` is determined |
| Keys.SortedKeys | vnnlib/compat.py:146-147 | `sorted(d)` lists each key of the dictionary once, in ascending order |
| Keys.SortAscending | vnnlib/compat.py:146-147 | sorting distinct keys puts them in ascending order |
| Keys.SortKeys | vnnlib/compat.py:146-147 | listing and sorting a dictionary's keys computes `SortedKeys` |
| Compat.Split | vnnlib/compat.py:129 | `str.split` gives at least one piece, and no piece holds the separator |
| Compat.PyInt | vnnlib/compat.py:77 | a string that `int()` refuses raises ValueError naming it |
| Compat.PyInts | vnnlib/compat.py:130 | converting the index pieces gives one integer per piece |
| Compat.Greatest | vnnlib/compat.py:52 | `max` of a non-empty set of rows is in the set and at least every row |
| Compat.Least | vnnlib/compat.py:165 | `min` of a non-empty set of rows is in the set and at most every row |
| CompatProperties.SplitJoin | vnnlib/compat.py:129 | joining the pieces of `split` with the separator gives the string back |
| CompatProperties.JoinSplit | vnnlib/compat.py:129 | pieces without the separator, joined, split back into the same pieces |
| CompatProperties.PyIntOfString | vnnlib/compat.py:77 | `int(str(i)) == i` |
| CompatProperties.ElementPieces | vnnlib/compat.py:128-130 | the name `<vector>_i` splits into the vector name and `i`, whose index converts to `[i]` |
| CompatProperties.InputElement | vnnlib/compat.py:128-130 | `X_i` compiles to the coefficient 1 at key `(0, 0, i)`, the state unchanged |
| CompatProperties.OutputElement | vnnlib/compat.py:131-133 | `Y_i` compiles to the coefficient 1 at key `(0, 1, i)`, when the vectors have different names |
| CompatProperties.IdentifyNumbers | vnnlib/compat.py:136-138 | any other variable is numbered when first met, with a number of 2 or more that no variable has; earlier numbers never change |
| CompatProperties.IdentifyStable | vnnlib/compat.py:136-138 | identifying a variable again gives the same form and changes nothing |
| CompatProperties.IdentifyKeepsRest | vnnlib/compat.py:125-138 | an identifier changes nothing but the variable numbering, and keeps every number given |
| CompatProperties.DeclareOnlyWidens | vnnlib/compat.py:74-80 | a declaration changes at most the sizes, only upwards, and a size given to the constructor never changes |
| CompatProperties.DeclareInputElement | vnnlib/compat.py:75-77 | declaring `X_i` while inferring the input size makes it at least `i + 1` |
| CompatProperties.DeclareOutputElement | vnnlib/compat.py:78-80 | declaring `Y_i` while inferring the output size makes it at least `i + 1` |
| CompatProperties.DeclareTwoIndices | vnnlib/compat.py:76 | declaring `X_i_j` while inferring the input size fails to unpack the split |
| CompatProperties.GreaterIsSwappedLess | vnnlib/compat.py:87-102 | `(>= a b)` compiles as `(<= b a)`, errors included |
| CompatProperties.ComparisonForm | vnnlib/compat.py:87-102 | a comparison needs exactly two forms; `(<= l r)` is `l - r` over the keys of both sides, zero coefficients kept |
| CompatProperties.AtRowKeys | vnnlib/compat.py:107-110 | a row-0 form moved to row `i` keeps its indices and coefficients and has only row `i` |
| CompatProperties.ConjoinRows | vnnlib/compat.py:103-111 | `and` succeeds exactly when every argument is a row-0 form with three-element keys; the `j`-th argument fills row `i + j` and no other row |
| CompatProperties.DisjoinForms | vnnlib/compat.py:112-119 | `or` succeeds exactly when every argument is a list of forms, and lists the forms of all of them |
| CompatProperties.ApplyFunctionShape | vnnlib/compat.py:82-123 | `and` and `or` yield lists of forms; any other function is refused with NotImplementedError |
| CompatProperties.RecordKeeps | vnnlib/compat.py:59-67 | recording a form keeps every entry recorded before |
| CompatProperties.RecordPlaces | vnnlib/compat.py:62-63 | recording a form puts each entry as many rows up as the counter says |
| CompatProperties.RecordOnly | vnnlib/compat.py:60-66 | recording a form adds nothing but its shifted entries |
| CompatProperties.RecordAdvances | vnnlib/compat.py:64-66 | recorded rows stay below the counter, and the counter moves exactly when the form has entries |
| CompatProperties.AlternativeKeeps | vnnlib/compat.py:49-54 | an alternative keeps its own entries |
| CompatProperties.AlternativePlaces | vnnlib/compat.py:52-54 | an alternative holds the previous disjunct's entries just above its own greatest row |
| CompatProperties.AlternativeOnly | vnnlib/compat.py:49-54 | an alternative holds nothing else |
| CompatProperties.AssertForms | vnnlib/compat.py:34-68 | a single form is recorded and the disjuncts are kept; any other list replaces the single disjunct by its alternatives; a second disjunction fails the assertion |
| CompatProperties.AlternativesOk | vnnlib/compat.py:47-55 | a disjunction succeeds exactly when every alternative is a form |
| CompatProperties.AlternativesLength | vnnlib/compat.py:47-55 | a disjunction yields one disjunct per alternative |
| CompatProperties.AlternativesAt | vnnlib/compat.py:48-55 | the `j`-th disjunct is the `j`-th alternative on top of the previous disjunct |
| CompatScript.Lesser | vnnlib/compat.py:156 | `min` of two bounds is one of them and at most both |
| CompatScript.Greater | vnnlib/compat.py:158 | `max` of two bounds is one of them and at least both |
| CompatScript.Unbounded | vnnlib/compat.py:141 | the initial box has one interval per input |
| CompatScript.Zeros | vnnlib/compat.py:168 | a new polytope row has one coefficient per output |
| CompatScript.PyIndex | vnnlib/compat.py:156 | a list index succeeds exactly within `-n..n-1`, negative indices counting from the end; otherwise IndexError |
| CompatScript.CoefText | vnnlib/compat.py:160 | a whole-number coefficient is printed in the RuntimeError message as `str` prints an `int` |
| CompatScriptProperties.BoxEntryOk | vnnlib/compat.py:153-162 | an input coefficient is accepted exactly when it is 1 or -1 and its index is in the box; otherwise RuntimeError naming the coefficient, or else IndexError |
| CompatScriptProperties.BoxEntryNarrows | vnnlib/compat.py:153-162 | an input coefficient only tightens one bound: 1 the upper to minus the constant, -1 the lower to the constant; the constant is used up and the polytope untouched |
| CompatScriptProperties.PolytopeEntryShape | vnnlib/compat.py:163-172 | with rows numbered in order, an output coefficient fails only outside the output vector; it writes the last polytope row, appended when its row is new |
| CompatScriptProperties.ScanEntryShape | vnnlib/compat.py:146-173 | one entry only narrows the box, keeps the rows before the base and the shape, and adds its output row |
| CompatScriptProperties.ScanEntriesShape | vnnlib/compat.py:146-173 | a pass over sorted entries only narrows the box, keeps the rows before the base, and gathers the pass's output rows |
| CompatScriptProperties.ScanFormShape | vnnlib/compat.py:181-208 | a pass over a form on top of a box and polytope narrows the box and adds one polytope row per output row, as wide as the output vector |
| CompatScriptProperties.AddBranchBoxes | vnnlib/compat.py:214-217 | a disjunct joins the group of its box, or opens a new group when no group has it |
| CompatScriptProperties.AddBranchCount | vnnlib/compat.py:214-217 | a disjunct adds one polytope |
| CompatScriptProperties.AddBranchDistinct | vnnlib/compat.py:214-217 | groups with distinct boxes keep them distinct |
| CompatScriptProperties.CollectGroups | vnnlib/compat.py:174-218 | every disjunct lands in exactly one group: boxes stay distinct, every group refines the common part, one polytope per disjunct |
| CompatScriptProperties.FinaliseShape | vnnlib/compat.py:140-218 | the unconditional assertions give a box as long as the input vector and one polytope row per output row; the result has one polytope per disjunct, distinct boxes, all refining the common part |
| CompatFindings.RankAgrees | vnnlib/compat.py:165 | the source's number `row - min(rows)` is the rank of `row` whenever the rows seen are contiguous |
| CompatFindings.PolytopeAgrees | vnnlib/compat.py:163-171 | over contiguous rows, an output coefficient that the source numbering accepts gives the same entry when rows are numbered by rank, and the rows stay contiguous |
| CompatFindings.KeysAgree | vnnlib/compat.py:146-173 | a pass over ascending keys that the source numbering accepts gives the same box and polytope when rows are numbered by rank |
| CompatFindings.SecondOutputAsWritten | vnnlib/compat.py:165-171 | as written, an output row after an input-bound row is numbered past the end of the polytope and raises IndexError |
| CompatFindings.SecondOutputCorrected | vnnlib/compat.py:165-171 | numbered by rank, the second output row appends polytope row 1 and writes its coefficient there |
| CompatFindings.InterleavedAsWritten | vnnlib/compat.py:163-171 | as written, `transform_Script` of the interleaved assertions raises IndexError |
| CompatFindings.InterleavedCorrected | vnnlib/compat.py:163-171 | numbered by rank, the same assertions give the box `x <= 0` and a polytope of two rows |
| CompatFindings.FinaliseAgrees | vnnlib/compat.py:140-218 | whenever the source's numbering succeeds, numbering by rank gives the same groups |
| CompatFindings.CollectAgrees | vnnlib/compat.py:174-218 | whenever the source numbering succeeds on every disjunct, numbering by rank gives the same groups |
| CompatCompiler.CompatTransformer.constructor | vnnlib/compat.py:13-32 | a size not given is inferred from 0; the id map and assertions are empty; there is one empty disjunct |
| CompatCompiler.CompatTransformer.TransformIdentifier | vnnlib/compat.py:125-138 | computes `Identify` and updates the fields as it says |
| CompatCompiler.CompatTransformer.TransformConstant | vnnlib/compat.py:70-72 | a number becomes the constant of row 0; anything else fails the type assertion |
| CompatCompiler.CompatTransformer.TransformDeclareConst | vnnlib/compat.py:74-80 | computes `Declare` and updates the fields as it says |
| CompatCompiler.CompatTransformer.RecordForm | vnnlib/compat.py:60-66 | the new fields are those of `Record`: the form shifted past the recorded rows, and the counter advanced |
| CompatCompiler.CompatTransformer.TransformAssert | vnnlib/compat.py:34-68 | computes `AssertTerm` and updates the fields as it says |
| CompatCompiler.CompatTransformer.TransformTermNode | vnnlib/parser.py:318-338 | transforming a term computes `TransformTerm` with the compiler's handlers, and on success leaves the fields it prescribes |
| CompatCompiler.CompatTransformer.TransformTermNodes | vnnlib/parser.py:334 | transforming the arguments computes `TransformTerms` |
| CompatCompiler.CompatTransformer.TransformCommandNode | vnnlib/parser.py:318-330 | transforming a command computes `TransformCommand` |
| CompatCompiler.CompatTransformer.TransformScriptNode | vnnlib/parser.py:340-346 | transforming a script visits the commands in order, then compiles the state they leave, with rows numbered by rank; whenever compat.py's own numbering succeeds, the result is the one it gives |
| CompatCompiler.CompatTransformer.TransformScript | vnnlib/compat.py:140-218 | `transform_Script` computes `Finalise` of the fields, rows numbered by rank; whenever the source's numbering succeeds, the result equals `FinaliseAsWritten` |
| CompatCompiler.Subtract | vnnlib/compat.py:91-93 | the copy-and-update loop computes `l - r` key by key |
| CompatCompiler.Compare | vnnlib/compat.py:87-102 | computes `Comparison` |
| CompatCompiler.MoveToRow | vnnlib/compat.py:107-110 | the inner loop of `and` adds the form moved to row `i` |
| CompatCompiler.Conjoin | vnnlib/compat.py:103-111 | the loop of `and` computes `ConjoinFrom` |
| CompatCompiler.DisjoinAll | vnnlib/compat.py:112-119 | the loop of `or` computes `Disjoin` |
| CompatCompiler.DescribeHead | vnnlib/compat.py:121-123 | the refusal message shows the head's `repr` |
| CompatCompiler.ApplyFunctionMethod | vnnlib/compat.py:82-123 | computes `ApplyFunction` |
| CompatCompiler.CopyShifted | vnnlib/compat.py:62-64 | the loop copies the form shifted by the offset, and finds its greatest row, at least 0 |
| CompatCompiler.GreatestRow | vnnlib/compat.py:52 | `max(d, default=(-1,))[0]` is the greatest row of the form, -1 when it is empty |
| CompatCompiler.ShiftInto | vnnlib/compat.py:53-54 | the loop copies the previous disjunct shifted by the offset |
| CompatCompiler.ShiftAlternative | vnnlib/compat.py:49-54 | computes `Alternative` |
| CompatCompiler.Disjuncts | vnnlib/compat.py:48-55 | the loop over the alternatives computes `Alternatives` |
| CompatCompiler.AddBranchAt | vnnlib/compat.py:214-217 | a disjunct joins the first group with its box and only that one; without one, it opens a group at the end |
| CompatCompiler.ScanStep | vnnlib/compat.py:181-207 | the loop body computes `ScanEntry` with rows numbered by rank; on contiguous output rows, for a key not below them, it equals the source's step wherever that succeeds |
| CompatCompiler.ScanPass | vnnlib/compat.py:181-208 | one pass computes `ScanForm` with rows numbered by rank; from a polytope of `base` rows it equals the source's pass wherever that succeeds |
| CompatCompiler.ScanSorted | vnnlib/compat.py:181-183 | the loop over the keys computes `ScanKeys` with rows numbered by rank; over ascending keys it equals the source's loop wherever that succeeds |
| CompatCompiler.AddGroup | vnnlib/compat.py:214-217 | `results[str(box)]` computes `AddBranch` |
| CompatCompiler.CollectGroups | vnnlib/compat.py:175-218 | the loop over the disjuncts computes `Collect` with rows numbered by rank; it equals the source's loop wherever that succeeds |

## Left out

- File reading and gz/bz2/xz decompression (`parse_file`, `read_vnnlib_simple`) are I/O. The model starts from the text.
- `vnnlib/cli.py`, `vnnlib/__main__.py`, the benchmarking tools and `setup.py` are not part of this model. They deal with argument parsing, pickling, plotting and packaging.
- `warnings.warn` on literal negation is a side effect only, and is not modelled.
- Python floats are modelled as exact `real`s, and infinities as the bound type `NegInf | Fin | PosInf`.
  - Rounding to binary floating point is not modelled.
  - NaN is not modelled.
  - Python's `float` syntax (`inf`, `nan`, `1_0`, spaces) is not modelled.
- Parser.FloatParser: `float()` applied to a `-`-symbol is a parameter of the parser, because Python's float syntax is not modelled. The DECIMAL converter is modelled exactly on DECIMAL spellings.
- Compat.PyInt: `int()` on an index piece accepts an optional sign and ASCII digits. The surrounding whitespace, underscores and non-ASCII digits that Python also accepts are not modelled.
- Errors.Repr: Python's `repr` of a string is modelled as the string in single quotes, without escaping and without switching to double quotes.
- Compat.HeadRepr: `repr` of a refused function head is exact for strings and one-entry forms. Other values print as `<type>`.
- numpy arrays are modelled as sequences of polytope rows.
  - `(coeffs, [rhs])` pairs become `PolyRow(coeffs, rhs)`.
  - A disjunct's polytope is a sequence of rows, not the pair of arrays.
- CompatCompiler.AddGroup groups disjuncts by equality of their boxes, where the source groups by `str(box)`. Bounds are exact `real`s, so the distinction between a Python `int` and a `float` is lost, and so is the sign of a zero. The source puts `(<= X_0 1)` and `(<= X_0 1.0)` into two groups, because their boxes print as `1` and `1.0`; the model puts them into one. The same holds for a bound `0` against `-0.0`.
- CompatScript.AddBranch, the function `AddGroup` computes, groups by box equality in the same way and loses the same distinctions.
- Dictionary insertion order is not modelled, because every walk over a form in the source is order-independent:
  - `transform_Script` sorts the keys;
  - the copy loops write distinct keys.
  - Identifier numbering follows visiting order, which the model keeps.
- Reflection (`getattr` tables, `get_subclasses`, `__class__`) is modelled as a handler table indexed by node class.
- `TypeError` from calling a handler with the wrong number of arguments is modelled with a fixed message, not Python's.
- Generator laziness is modelled as the tokens produced before an error plus the error. The parser sees the error when it requests the token after the last good one.
- Tokenizer.Tokenize: a string literal still open at the end of the text makes the source loop forever. The model reports the outcome `Diverges` instead of looping.
- CompatCompiler.CompatTransformer.TransformTermNode states the fields only when the transform succeeds. After a failure the source leaves whatever the earlier handlers wrote, and the model does not state it. The same holds for TransformTermNodes and TransformCommandNode.
- CompatScript.Finalise numbers polytope rows by rank; see "## Findings". `FinaliseAsWritten` keeps the source's numbering, and `FinaliseAgrees` shows the two agree wherever the source succeeds.
- CompatCompiler.CompatTransformer.TransformScript numbers polytope rows by rank, like `Finalise`. Where compat.py:165-171 raises IndexError, it returns the corrected groups. Elsewhere it returns the source's result, as its second ensures states.
- CompatCompiler.CompatTransformer.TransformScriptNode compiles with the rank numbering. Where the source raises IndexError it returns groups; elsewhere it returns the source's result (`CompileAsWritten`).
- CompatCompiler.ScanStep numbers an output row by its rank, not by `row - min(output_polytope_rows)`. It equals the source's step only on contiguous rows.
- CompatCompiler.ScanPass uses the rank numbering; it equals the source's pass wherever that succeeds.
- CompatCompiler.ScanSorted uses the rank numbering; over ascending keys it equals the source's loop wherever that succeeds.
- CompatCompiler.CollectGroups uses the rank numbering; it equals the source's loop wherever that succeeds.
- CompatScript.BoxEntry prints a whole-number coefficient in its RuntimeError message as `str` prints an `int`. Variable coefficients are differences of the `int` 1, so they are whole. Any other value prints as `<float>`, because Python's float formatting is not modelled.
- Ast.IntOf accepts only a non-empty run of digits of the base, which is all the NUMERAL, HEXADECIMAL and BINARY tokens carry. Python's `int` also accepts surrounding whitespace, a sign, `_` separators and a `0x`/`0b` prefix; the parser never passes such a text.
- Where the repository's tests contradict the code, the model follows the code:
  - compat.py supports only `<=`, `>=`, `and` and `or`;
  - the polytope right-hand side is the stored constant, not its negation;
  - only one multi-alternative `or` assertion is accepted;
  - parser messages are lower case.

## Findings

| source | as written | input that shows it | evidently intended | confidence | as-written member | corrected member |
|---|---|---|---|---|---|---|
| vnnlib/compat.py:165-171 | An output row's polytope row is numbered `row - min(output_polytope_rows)`, and at most one row is appended before the write (the same at lines 200-206). When a row that only bounds an input lies between two output rows, the number skips past the end, and `polytope[polytope_row]` raises IndexError. | Input size 1, output size 1, and the assertions `(<= Y_0 0)`, `(<= X_0 0)`, `(<= Y_0 0)`, recorded as rows 0, 1 and 2. Row 2 is numbered 2 - 0 = 2 while the polytope has two rows. | Each output row gets the next polytope row, i.e. its rank among the output rows seen. The row's constant and coefficients then form one polytope row, as they do when no input row intervenes. | not executed | CompatFindings.InterleavedAsWritten | CompatFindings.InterleavedCorrected |
