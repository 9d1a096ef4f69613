/**
 * What the parser's tokenizer promises: the matches tile the text, a gap or
 * an unmatched tail is reported as an "Unknown string" error, and `skip`
 * only drops tokens. The tiling facts hold for any pattern whose matches
 * consume at least one character; the lexical facts are about the pattern
 * `tokenize` compiles.
 */
module RegexTokenizerProperties {
  import opened Lexicon
  import opened Errors
  import opened RegexTokenizer

  /** The empty text yields no tokens and no error. */
  lemma EmptyTextYieldsNothing(skip: set<Kind>, strict: bool)
    ensures Tokens([], skip, strict) == TokenStream([], None)
  {
  }

  /** The tokens of `ts` whose kind is not in `skip`, in order. */
  function Filter(ts: seq<Token>, skip: set<Kind>): (r: seq<Token>)
    ensures |r| <= |ts|
    ensures forall i | 0 <= i < |r| :: r[i].kind !in skip
  {
    if ts == [] then []
    else if ts[0].kind in skip then Filter(ts[1..], skip)
    else [ts[0]] + Filter(ts[1..], skip)
  }

  lemma FilterCons(t: Token, ts: seq<Token>, skip: set<Kind>)
    ensures Filter([t] + ts, skip) == if t.kind in skip then Filter(ts, skip) else [t] + Filter(ts, skip)
  {
    assert ([t] + ts)[1..] == ts;
  }

  /** The token a match at `pos` gives. */
  function TokenAt(text: string, pos: nat, m: Match): Token
    requires pos + m.len <= |text|
  {
    Token(m.kind, text[pos..pos + m.len], Meta(pos, pos + m.len))
  }

  /** The last step of `TokensFrom`: no match from `pos` on. */
  lemma NoMatchLeft(text: string, pos: nat, skip: set<Kind>, p: Pattern)
    requires pos <= |text| && Advances(p) && NextMatch(text, pos, p).None?
    ensures TokensFrom(text, pos, skip, p)
      == if pos == |text| then TokenStream([], None) else TokenStream([], Some(UnknownString(text[pos..|text|])))
  {
    assert text[pos..] == text[pos..|text|];
  }

  /** The last step of `TokensFrom`: the next match starts after a gap. */
  lemma GapBeforeMatch(text: string, pos: nat, skip: set<Kind>, p: Pattern, q: nat)
    requires pos <= |text| && Advances(p) && NextMatch(text, pos, p) == Some(q) && q != pos
    ensures TokensFrom(text, pos, skip, p) == TokenStream([], Some(UnknownString(text[pos..q])))
  {
  }

  /** One step of `TokensFrom`: a match at `pos` of a skipped kind yields nothing. */
  lemma MatchSkipped(text: string, pos: nat, skip: set<Kind>, p: Pattern, m: Match)
    requires pos <= |text| && Advances(p) && NextMatch(text, pos, p) == Some(pos)
    requires p(text[pos..]) == Some(m) && m.kind in skip
    ensures pos + m.len <= |text|
    ensures TokensFrom(text, pos, skip, p) == TokensFrom(text, pos + m.len, skip, p)
  {
  }

  /** One step of `TokensFrom`: a match at `pos` of a kept kind yields its token first. */
  lemma MatchKept(text: string, pos: nat, skip: set<Kind>, p: Pattern, m: Match)
    requires pos <= |text| && Advances(p) && NextMatch(text, pos, p) == Some(pos)
    requires p(text[pos..]) == Some(m) && m.kind !in skip
    ensures pos + m.len <= |text|
    ensures TokensFrom(text, pos, skip, p) == Then([TokenAt(text, pos, m)], TokensFrom(text, pos + m.len, skip, p))
  {
  }

  /**
   * Skipping only drops tokens: the stream with `skip` is the stream
   * without it, filtered, and stops with the same error.
   */
  lemma {:induction false} SkipOnlyDrops(text: string, pos: nat, skip: set<Kind>, p: Pattern)
    requires pos <= |text| && Advances(p)
    ensures var all := TokensFrom(text, pos, {}, p);
      TokensFrom(text, pos, skip, p) == TokenStream(Filter(all.tokens, skip), all.error)
    decreases |text| - pos
  {
    var next := NextMatch(text, pos, p);
    if next.None? {
      NoMatchLeft(text, pos, skip, p);
      NoMatchLeft(text, pos, {}, p);
    } else if next != Some(pos) {
      GapBeforeMatch(text, pos, skip, p, next.value);
      GapBeforeMatch(text, pos, {}, p, next.value);
    } else {
      var m := p(text[pos..]).value;
      var t := TokenAt(text, pos, m);
      var rest := TokensFrom(text, pos + m.len, {}, p);
      MatchKept(text, pos, {}, p, m);
      SkipOnlyDrops(text, pos + m.len, skip, p);
      FilterCons(t, rest.tokens, skip);
      if m.kind in skip {
        MatchSkipped(text, pos, skip, p, m);
      } else {
        MatchKept(text, pos, skip, p, m);
      }
    }
  }

  /**
   * `ts` covers `text[from..to]` exactly: each token starts where the previous
   * one ended, is not empty, and its value is the text between its offsets.
   */
  ghost predicate Tiles(ts: seq<Token>, text: string, from: nat, to: nat)
    decreases |ts|
  {
    if ts == [] then from == to
    else
      var t := ts[0];
      && t.meta.startPos == from
      && from < t.meta.endPos <= |text|
      && t.value == text[from..t.meta.endPos]
      && Tiles(ts[1..], text, t.meta.endPos, to)
  }

  /** Where the error for a gap starting at `e` ends: at the next match, or at the end of the text. */
  function GapEnd(text: string, e: nat, p: Pattern): nat
    requires e <= |text|
  {
    match NextMatch(text, e, p)
    case Some(q) => q
    case None => |text|
  }

  /** The offset the tokens `ts`, read from offset `from`, reach. */
  function Reach(ts: seq<Token>, from: nat): int {
    if ts == [] then from else ts[|ts| - 1].meta.endPos
  }

  lemma ReachCons(t: Token, ts: seq<Token>, from: nat)
    requires t.meta.endPos >= 0
    ensures Reach([t] + ts, from) == Reach(ts, t.meta.endPos)
  {
  }

  /**
   * The stream `r`, read from offset `pos`, tiles the text up to the offset
   * `e` its tokens reach. It has no error exactly when `e` is the end of the
   * text; otherwise `p` does not match at `e` and the error quotes the text
   * from `e` to the next match (or to the end).
   */
  ghost predicate TiledUpToGap(text: string, pos: nat, p: Pattern, r: TokenStream) {
    var e := Reach(r.tokens, pos);
    && pos <= e <= |text|
    && Tiles(r.tokens, text, pos, e)
    && (r.error.None? <==> e == |text|)
    && (r.error.Some? ==>
          && p(text[e..]).None?
          && e < GapEnd(text, e, p)
          && r.error == Some(UnknownString(text[e..GapEnd(text, e, p)])))
  }

  /** A token matched at `pos` in front of a stream that tiles from its end tiles from `pos`. */
  lemma TiledCons(text: string, pos: nat, p: Pattern, m: Match, rest: TokenStream)
    requires 0 < m.len && pos + m.len <= |text|
    requires TiledUpToGap(text, pos + m.len, p, rest)
    ensures TiledUpToGap(text, pos, p, Then([TokenAt(text, pos, m)], rest))
  {
    var t := TokenAt(text, pos, m);
    var r := Then([t], rest);
    ReachCons(t, rest.tokens, pos);
    assert r.tokens[1..] == rest.tokens;
  }

  /** Without skipping, the tokens `tokenize` finds tile the text up to the first gap. */
  lemma {:induction false} TilingOrGap(text: string, pos: nat, p: Pattern)
    requires pos <= |text| && Advances(p)
    ensures TiledUpToGap(text, pos, p, TokensFrom(text, pos, {}, p))
    decreases |text| - pos, 1
  {
    var next := NextMatch(text, pos, p);
    if next.None? {
      NoMatchLeft(text, pos, {}, p);
      if pos < |text| {
        NoNextMatch(text, pos, p);
      }
    } else if next.value != pos {
      GapBeforeMatch(text, pos, {}, p, next.value);
      NextMatchIsFirst(text, pos, p);
    } else {
      TilingAfterMatch(text, pos, p, p(text[pos..]).value);
    }
  }

  lemma {:induction false} TilingAfterMatch(text: string, pos: nat, p: Pattern, m: Match)
    requires pos <= |text| && Advances(p) && NextMatch(text, pos, p) == Some(pos) && p(text[pos..]) == Some(m)
    ensures TiledUpToGap(text, pos, p, TokensFrom(text, pos, {}, p))
    decreases |text| - pos, 0
  {
    var rest := TokensFrom(text, pos + m.len, {}, p);
    TilingOrGap(text, pos + m.len, p);
    TiledCons(text, pos, p, m, rest);
    MatchKept(text, pos, {}, p, m);
    TiledSame(text, pos, p, Then([TokenAt(text, pos, m)], rest), TokensFrom(text, pos, {}, p));
  }

  lemma TiledSame(text: string, pos: nat, p: Pattern, r: TokenStream, r': TokenStream)
    requires r == r' && TiledUpToGap(text, pos, p, r)
    ensures TiledUpToGap(text, pos, p, r')
  {
  }

  /** The concatenated values of `ts`. */
  function Concat(ts: seq<Token>): string {
    if ts == [] then [] else ts[0].value + Concat(ts[1..])
  }

  /** Tokens that tile a stretch of text spell it out. */
  lemma {:induction false} TilesSpell(ts: seq<Token>, text: string, from: nat, to: nat)
    requires from <= to <= |text| && Tiles(ts, text, from, to)
    ensures Concat(ts) == text[from..to]
    decreases |ts|
  {
    if ts != [] {
      var mid := ts[0].meta.endPos;
      TilesReach(ts[1..], text, mid, to);
      TilesSpell(ts[1..], text, mid, to);
      assert text[from..to] == text[from..mid] + text[mid..to];
    }
  }

  /** Tiling only moves forward. */
  lemma {:induction false} TilesReach(ts: seq<Token>, text: string, from: nat, to: nat)
    requires Tiles(ts, text, from, to)
    ensures from <= to && (ts != [] ==> to <= |text|)
    decreases |ts|
  {
    if ts != [] {
      TilesReach(ts[1..], text, ts[0].meta.endPos, to);
    }
  }

  /**
   * When nothing is skipped and no error occurs, the token values
   * concatenated are the whole text.
   */
  lemma TokensSpellText(text: string, strict: bool)
    requires Tokens(text, {}, strict).error.None?
    ensures Concat(Tokens(text, {}, strict).tokens) == text
  {
    if |text| > 0 {
      TilingOrGap(text, 0, TokenPattern(strict));
      TilesSpell(Tokens(text, {}, strict).tokens, text, 0, |text|);
    }
  }

  /** No match of `p` has a kind in `ks`. */
  ghost predicate NeverMatches(p: Pattern, ks: set<Kind>) {
    forall s: seq<char> :: p(s).Some? ==> p(s).value.kind !in ks
  }

  /** No token of `ts` has a kind in `skip` or in `ks`. */
  ghost predicate Avoids(ts: seq<Token>, skip: set<Kind>, ks: set<Kind>) {
    forall i | 0 <= i < |ts| :: ts[i].kind !in skip && ts[i].kind !in ks
  }

  lemma AvoidsCons(t: Token, ts: seq<Token>, skip: set<Kind>, ks: set<Kind>)
    requires t.kind !in skip && t.kind !in ks && Avoids(ts, skip, ks)
    ensures Avoids([t] + ts, skip, ks)
  {
    assert forall i | 1 <= i < 1 + |ts| :: ([t] + ts)[i] == ts[i - 1];
  }

  /** A match at `pos` of a kind outside `ks` keeps the tokens from `pos` clear of `ks` and `skip` if it kept those after it. */
  lemma AvoidsStep(text: string, pos: nat, skip: set<Kind>, p: Pattern, ks: set<Kind>, m: Match)
    requires pos <= |text| && Advances(p) && NextMatch(text, pos, p) == Some(pos)
    requires p(text[pos..]) == Some(m) && m.kind !in ks && pos + m.len <= |text|
    requires Avoids(TokensFrom(text, pos + m.len, skip, p).tokens, skip, ks)
    ensures Avoids(TokensFrom(text, pos, skip, p).tokens, skip, ks)
  {
    if m.kind in skip {
      MatchSkipped(text, pos, skip, p, m);
    } else {
      MatchKept(text, pos, skip, p, m);
      AvoidsCons(TokenAt(text, pos, m), TokensFrom(text, pos + m.len, skip, p).tokens, skip, ks);
    }
  }

  /** A token has a kind of `ks` only if a match of `p` had it and `skip` let it through. */
  lemma {:induction false} TokenKinds(text: string, pos: nat, skip: set<Kind>, p: Pattern, ks: set<Kind>)
    requires pos <= |text| && Advances(p) && NeverMatches(p, ks)
    ensures Avoids(TokensFrom(text, pos, skip, p).tokens, skip, ks)
    decreases |text| - pos
  {
    var next := NextMatch(text, pos, p);
    if next.None? {
      NoMatchLeft(text, pos, skip, p);
    } else if next != Some(pos) {
      GapBeforeMatch(text, pos, skip, p, next.value);
    } else {
      var m := p(text[pos..]).value;
      assert m.kind !in ks && 0 < m.len <= |text[pos..]|;
      TokenKinds(text, pos + m.len, skip, p, ks);
      AvoidsStep(text, pos, skip, p, ks, m);
    }
  }

  /**
   * The tokens the parser reads (whitespace and comments skipped) contain
   * neither, nor the EOF sentinel or the placeholder.
   */
  lemma ParserSkipsTrivia(text: string, strict: bool)
    ensures Avoids(Tokens(text, {Whitespace, Comment}, strict).tokens, {Whitespace, Comment}, {Eof, Dummy})
  {
    if |text| > 0 {
      var p := TokenPattern(strict);
      assert NeverMatches(p, {Eof, Dummy});
      TokenKinds(text, 0, {Whitespace, Comment}, p, {Eof, Dummy});
    }
  }
}
