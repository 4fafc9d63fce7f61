/**
 * The older lexer (BloodCodeCompiler/lexer.py): the same first-match
 * loop as the pipeline's lexer, but with no line counter; it drops both
 * WHITESPACE and COMMENT matches and emits `(token_type, text)` pairs,
 * the token shape the parser reads.  On a position where no rule
 * matches it raises with the unrecognised remainder only.
 *
 * It imports its table from a module that is not part of this model;
 * the table of lexer/tokens.py stands in for it.
 *
 * `Run` is the loop of `tokenize` as a function of the lexer's state,
 * `LegacyLexer.Tokenize` is proved to follow it, and `RunIsPieces`
 * connects it to the first-match pieces of the text, through which it is
 * compared with the newer lexer (`LegacyAgrees`).
 */
module LegacyLexer {
  import opened Wrappers
  import opened Tokens
  import opened Lexer

  /** A `(token_type, text)` tuple. */
  type Pair = (string, string)

  /** Whether a match becomes a pair: WHITESPACE and COMMENT matches are dropped. */
  predicate Kept(k: Kind)
  {
    k != Whitespace && k != Comment
  }

  /** The fields `tokenize` updates: `tokens` and `pos`. */
  datatype LegacyState = LegacyState(tokens: seq<Pair>, pos: nat)

  /** One iteration that found a match: keep it as a pair unless it is dropped, and jump to its end. */
  function Move(code: string, st: LegacyState, h: Hit): LegacyState
    requires st.pos + h.len <= |code|
  {
    var text := code[st.pos..st.pos + h.len];
    LegacyState(if Kept(h.kind) then st.tokens + [(Name(h.kind), text)] else st.tokens, st.pos + h.len)
  }

  /**
   * The `while` loop of `tokenize` from state `st`: the state where it
   * stops and whether it stopped on a syntax error.
   */
  function Run(first: Matcher, code: string, st: LegacyState): (o: (LegacyState, bool))
    requires st.pos <= |code|
    decreases |code| - st.pos
    ensures st.pos <= o.0.pos <= |code|
  {
    if st.pos == |code| then (st, false)
    else
      match first(code[st.pos..])
      case None => (st, true)
      case Some(h) => Run(first, code, Move(code, st, h))
  }

  /**
   * The loop stops at the end of the text, or with an error exactly where
   * no rule matches, and the pair list only grows.
   */
  lemma {:induction false} RunStops(first: Matcher, code: string, st: LegacyState)
    requires st.pos <= |code|
    decreases |code| - st.pos
    ensures !Run(first, code, st).1 <==> Run(first, code, st).0.pos == |code|
    ensures Run(first, code, st).1 ==> first(code[Run(first, code, st).0.pos..]).None?
    ensures st.tokens <= Run(first, code, st).0.tokens
  {
    if st.pos < |code| && first(code[st.pos..]).Some? {
      var h := first(code[st.pos..]).value;
      RunStep(first, code, st, h);
      RunStops(first, code, Move(code, st, h));
    }
  }

  /** One turn of the loop that finds a match moves `Run` on by that match. */
  lemma RunStep(first: Matcher, code: string, st: LegacyState, h: Hit)
    requires st.pos < |code| && first(code[st.pos..]) == Some(h)
    ensures st.pos + h.len <= |code|
    ensures Run(first, code, st) == Run(first, code, Move(code, st, h))
  {
  }

  /** What `Lexer(code).tokenize()` of the old lexer returns, or the remainder it raises with. */
  function LegacyLexWith(first: Matcher, code: string): Result<seq<Pair>, string>
  {
    var o := Run(first, code, LegacyState([], 0));
    if o.1 then Err(code[o.0.pos..]) else Ok(o.0.tokens)
  }

  function LegacyLex(code: string): Result<seq<Pair>, string>
  {
    LegacyLexWith(MatcherOf(TokenTable), code)
  }

  /* ---------------------------------------------------------------- */
  /* The class                                                          */
  /* ---------------------------------------------------------------- */

  class LegacyLexer {
    const code: string
    const table: Table
    var tokens: seq<Pair>
    var pos: nat

    predicate Valid()
      reads this
    {
      pos <= |code|
    }

    function State(): LegacyState
      reads this
    {
      LegacyState(tokens, pos)
    }

    /** A fresh lexer is at the start of the text with no pairs. */
    constructor(code: string)
      ensures this.code == code && table == TokenTable && State() == LegacyState([], 0) && Valid()
    {
      this.code := code;
      table := TokenTable;
      tokens := [];
      pos := 0;
    }

    /**
     * `tokenize`: runs the loop to the end of the text and returns the
     * pair list, or stops with the unrecognised remainder; either way the
     * fields are left as `Run` says.
     */
    method Tokenize() returns (r: Result<seq<Pair>, string>)
      requires Valid()
      modifies this
      ensures Valid()
      ensures Run(MatcherOf(table), code, old(State())) == (State(), r.Err?)
      ensures r.Ok? ==> r.value == tokens
      ensures r.Err? ==> r.error == code[pos..]
    {
      while pos < |code|
        invariant Valid()
        invariant Run(MatcherOf(table), code, State()) == Run(MatcherOf(table), code, old(State()))
        decreases |code| - pos
      {
        var stuck := Advance();
        if stuck {
          return Err(code[pos..]);
        }
      }
      return Ok(tokens);
    }

    /**
     * One turn of the `while` loop: take the first match at `pos`, keep
     * it as a pair unless it is whitespace or a comment, and move `pos` to
     * its end; or report that nothing matches there and change nothing.
     */
    method Advance() returns (stuck: bool)
      requires Valid() && pos < |code|
      modifies this
      ensures Valid()
      ensures stuck ==> State() == old(State()) && Run(MatcherOf(table), code, State()) == (State(), true)
      ensures !stuck ==> old(pos) < pos && Run(MatcherOf(table), code, State()) == Run(MatcherOf(table), code, old(State()))
    {
      var m := MatchAt(table, code, pos);
      if m.None? {
        return true;
      }
      ghost var before := State();
      RunStep(MatcherOf(table), code, before, m.value);
      var text := code[pos..pos + m.value.len];
      if m.value.kind != Whitespace && m.value.kind != Comment {
        tokens := tokens + [(Name(m.value.kind), text)];
      }
      pos := pos + m.value.len;
      MoveFields(code, before, m.value, State(), text);
      return false;
    }
  }

  /** The fields after one turn of the loop, as `Move` gives them. */
  lemma MoveFields(code: string, st: LegacyState, h: Hit, after: LegacyState, text: string)
    requires st.pos + h.len <= |code| && text == code[st.pos..st.pos + h.len]
    requires after.pos == st.pos + h.len
    requires Kept(h.kind) ==> after.tokens == st.tokens + [(Name(h.kind), text)]
    requires !Kept(h.kind) ==> after.tokens == st.tokens
    ensures after == Move(code, st, h)
  {
  }

  /* ---------------------------------------------------------------- */
  /* The loop in terms of first-match pieces                            */
  /* ---------------------------------------------------------------- */

  /** The pairs of a run of pieces: the kept ones, named and in order. */
  function Pairs(ps: seq<Piece>): seq<Pair>
  {
    if ps == [] then []
    else (if Kept(ps[0].kind) then [(Name(ps[0].kind), ps[0].text)] else []) + Pairs(ps[1..])
  }

  /** The outcome a cut predicts for the loop from `st`. */
  function Foretold(st: LegacyState, cut: (seq<Piece>, string)): (LegacyState, bool)
  {
    (LegacyState(st.tokens + Pairs(cut.0), st.pos + |Join(cut.0)|), cut.1 != [])
  }

  /**
   * `Run` from any state appends exactly the pairs of the pieces of the
   * rest of the text, and stops where the pieces stop.
   */
  lemma {:induction false} RunIsPieces(first: Matcher, code: string, st: LegacyState)
    requires st.pos <= |code|
    decreases |code| - st.pos
    ensures Run(first, code, st) == Foretold(st, Pieces(first, code[st.pos..]))
  {
    if st.pos == |code| {
      RunAtEnd(first, code, st);
    } else if first(code[st.pos..]).None? {
      RunStuck(first, code, st);
    } else {
      var h := first(code[st.pos..]).value;
      RunIsPieces(first, code, Move(code, st, h));
      RunMoves(first, code, st, h);
    }
  }

  lemma RunAtEnd(first: Matcher, code: string, st: LegacyState)
    requires st.pos == |code|
    ensures Run(first, code, st) == Foretold(st, Pieces(first, code[st.pos..]))
  {
    assert code[st.pos..] == [];
    assert st.tokens + Pairs([]) == st.tokens;
  }

  lemma RunStuck(first: Matcher, code: string, st: LegacyState)
    requires st.pos < |code| && first(code[st.pos..]).None?
    ensures Run(first, code, st) == Foretold(st, Pieces(first, code[st.pos..]))
  {
    assert st.tokens + Pairs([]) == st.tokens;
  }

  /** If the prediction holds after one turn of the loop, it holds before it. */
  lemma RunMoves(first: Matcher, code: string, st: LegacyState, h: Hit)
    requires st.pos < |code| && first(code[st.pos..]) == Some(h)
    requires Move(code, st, h).pos <= |code|
    requires Run(first, code, Move(code, st, h)) == Foretold(Move(code, st, h), Pieces(first, code[Move(code, st, h).pos..]))
    ensures Run(first, code, st) == Foretold(st, Pieces(first, code[st.pos..]))
  {
    RunStep(first, code, st, h);
    ForetoldMoves(first, code, st, h);
  }

  /** The prediction for the rest after one turn of the loop is the prediction before it. */
  lemma ForetoldMoves(first: Matcher, code: string, st: LegacyState, h: Hit)
    requires st.pos < |code| && first(code[st.pos..]) == Some(h)
    requires Move(code, st, h).pos <= |code|
    ensures Foretold(Move(code, st, h), Pieces(first, code[Move(code, st, h).pos..]))
         == Foretold(st, Pieces(first, code[st.pos..]))
  {
    var next := Move(code, st, h);
    assert next.pos == st.pos + h.len;
    var cut := Pieces(first, code[next.pos..]);
    PiecesAt(first, code, st.pos, h);
    ForetoldStep(code, st, h, cut);
  }

  /** The prediction after one step is the prediction with that step's piece put in front. */
  lemma ForetoldStep(code: string, st: LegacyState, h: Hit, cut: (seq<Piece>, string))
    requires st.pos + h.len <= |code|
    ensures Foretold(Move(code, st, h), cut)
         == Foretold(st, ([Piece(h.kind, code[st.pos..st.pos + h.len])] + cut.0, cut.1))
  {
    var p := Piece(h.kind, code[st.pos..st.pos + h.len]);
    PairsCons(p, cut.0);
    assert ([p] + cut.0)[1..] == cut.0;
    if Kept(h.kind) {
      var q := (Name(h.kind), p.text);
      assert (st.tokens + [q]) + Pairs(cut.0) == st.tokens + ([q] + Pairs(cut.0));
    } else {
      assert [] + Pairs(cut.0) == Pairs(cut.0);
    }
  }

  lemma PairsCons(p: Piece, ps: seq<Piece>)
    ensures Pairs([p] + ps) == (if Kept(p.kind) then [(Name(p.kind), p.text)] else []) + Pairs(ps)
  {
    assert ([p] + ps)[1..] == ps;
  }

  /**
   * `tokenize` in terms of pieces: on success the pairs of all pieces; on
   * failure the unmatched remainder of the cut.
   */
  lemma LegacyByPieces(first: Matcher, code: string)
    ensures LegacyLexWith(first, code)
         == if Pieces(first, code).1 == [] then Ok(Pairs(Pieces(first, code).0)) else Err(Pieces(first, code).1)
  {
    RunIsPieces(first, code, LegacyState([], 0));
    assert code[0..] == code;
    PiecesCover(first, code);
    var cut := Pieces(first, code);
    assert [] + Pairs(cut.0) == Pairs(cut.0);
    assert code[|Join(cut.0)|..] == cut.1;
  }

  /**
   * A failed `tokenize` reports a non-empty suffix of the text at whose
   * head no rule matches, and nothing else (no line number).
   */
  lemma LegacyErrorShape(code: string)
    requires LegacyLex(code).Err?
    ensures var rest := LegacyLex(code).error;
      |rest| <= |code| && rest == code[|code| - |rest|..] && rest != [] && FirstMatch(rest).None?
  {
    RunStops(MatcherOf(TokenTable), code, LegacyState([], 0));
  }

  /* ---------------------------------------------------------------- */
  /* The old lexer against the new one                                  */
  /* ---------------------------------------------------------------- */

  /** The new lexer's tokens as `(token_type, text)` pairs, line numbers dropped. */
  function AsPairs(ts: seq<Token>): seq<Pair>
  {
    if ts == [] then [] else [(Name(ts[0].kind), ts[0].value)] + AsPairs(ts[1..])
  }

  /** One pair per token, in order: the token's table name and its lexeme. */
  lemma {:induction false} AsPairsSpec(ts: seq<Token>)
    ensures |AsPairs(ts)| == |ts|
    ensures forall i :: 0 <= i < |ts| ==> AsPairs(ts)[i] == (Name(ts[i].kind), ts[i].value)
  {
    if ts != [] {
      AsPairsSpec(ts[1..]);
    }
  }

  /** Pieces of no COMMENT kind give the pairs of their tokens, from any line. */
  lemma {:induction false} PairsOfTokens(ps: seq<Piece>, line: nat)
    requires forall p :: p in ps ==> p.kind != Comment
    decreases ps
    ensures Pairs(ps) == AsPairs(Tokenized(ps, line))
  {
    if ps != [] {
      var rest := ps[1..];
      assert forall i :: 0 <= i < |rest| ==> rest[i] == ps[i + 1];
      var next := if ps[0].kind == Whitespace then line + Newlines(ps[0].text) else line;
      PairsOfTokens(rest, next);
      if ps[0].kind == Whitespace {
        SpacePairs(ps, line);
      } else {
        KeptPairs(ps, line);
      }
    }
  }

  /** A whitespace piece in front adds neither a pair nor a token. */
  lemma SpacePairs(ps: seq<Piece>, line: nat)
    requires ps != [] && ps[0].kind == Whitespace
    requires Pairs(ps[1..]) == AsPairs(Tokenized(ps[1..], line + Newlines(ps[0].text)))
    ensures Pairs(ps) == AsPairs(Tokenized(ps, line))
  {
    assert Tokenized(ps, line) == Tokenized(ps[1..], line + Newlines(ps[0].text));
    assert Pairs(ps) == [] + Pairs(ps[1..]);
  }

  /** A kept piece in front adds its pair, and the token whose pair that is. */
  lemma KeptPairs(ps: seq<Piece>, line: nat)
    requires ps != [] && Kept(ps[0].kind)
    requires Pairs(ps[1..]) == AsPairs(Tokenized(ps[1..], line))
    ensures Pairs(ps) == AsPairs(Tokenized(ps, line))
  {
    var t := Token(ps[0].kind, ps[0].text, line);
    assert Tokenized(ps, line) == [t] + Tokenized(ps[1..], line);
    AsPairsCons(t, Tokenized(ps[1..], line));
    assert Pairs(ps) == [(Name(t.kind), t.value)] + Pairs(ps[1..]);
  }

  lemma AsPairsCons(t: Token, ts: seq<Token>)
    ensures AsPairs([t] + ts) == [(Name(t.kind), t.value)] + AsPairs(ts)
  {
    assert ([t] + ts)[1..] == ts;
  }

  /**
   * On the same table the two lexers agree: the old one succeeds exactly
   * when the new one does, with the new one's tokens as pairs (no COMMENT
   * token is ever produced, so dropping them changes nothing), and fails
   * with the same remainder.
   */
  lemma LegacyAgrees(code: string)
    ensures Lex(code).Ok? <==> LegacyLex(code).Ok?
    ensures Lex(code).Ok? ==> LegacyLex(code).value == AsPairs(Lex(code).value)
    ensures Lex(code).Err? ==> LegacyLex(code).error == Lex(code).error.rest
  {
    var first := MatcherOf(TokenTable);
    LexByPieces(first, code);
    LegacyByPieces(first, code);
    var ps := Pieces(first, code).0;
    TableShaped();
    PiecesYield(first, WellShaped, code);
    PairsOfTokens(ps, 1);
  }
}
