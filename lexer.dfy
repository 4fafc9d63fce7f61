/**
 * The lexer the pipeline uses (lexer/lexer.py): a `Lexer` object that
 * walks the source text with a position and a line counter, tries the
 * rules of the token table in order at each position, keeps the first
 * match, drops whitespace, and stops with a syntax error where no rule
 * matches.
 *
 * `Scan` is the loop of `tokenize` as a function of the lexer's state;
 * `Lexer.Tokenize` is proved to follow it.  `Pieces` is an independent
 * description of the same thing (cut the text into first-match pieces),
 * and `ScanIsPieces` connects the two, so what is proved about pieces —
 * they cover the input, they are never of a shadowed kind — holds for
 * the tokens.
 */
module Lexer {
  import opened Wrappers
  import opened Tokens

  /** `Token`: the kind, the matched text and the line it was found on. */
  datatype Token = Token(kind: Kind, value: string, lineNumber: nat)

  /** A value of the dictionary `Token.to_dict` builds. */
  datatype Field = Text(text: string) | Count(count: int)

  /** `Token.to_dict`: the token as the JSON object the web layer returns. */
  function ToDict(t: Token): (d: map<string, Field>)
    ensures d.Keys == {"type", "value", "line_number"}
  {
    map["type" := Text(Name(t.kind)), "value" := Text(t.value), "line_number" := Count(t.lineNumber)]
  }

  /** Reads back the kind name, lexeme and line from a dictionary shaped like `to_dict`'s. */
  function FromDict(d: map<string, Field>): Option<(string, string, int)>
  {
    if "type" in d && "value" in d && "line_number" in d
       && d["type"].Text? && d["value"].Text? && d["line_number"].Count?
    then Some((d["type"].text, d["value"].text, d["line_number"].count))
    else None
  }

  /** The dictionary carries the token's table name, lexeme and line, and nothing is lost. */
  lemma DictRoundTrip(t: Token)
    ensures FromDict(ToDict(t)) == Some((Name(t.kind), t.value, t.lineNumber as int))
  {
  }

  /** Number of newline characters in `s` (Python's `text.count('\n')`). */
  function Newlines(s: string): (n: nat)
    ensures n <= |s|
  {
    if s == [] then 0 else (if s[0] == '\n' then 1 else 0) + Newlines(s[1..])
  }

  /* ---------------------------------------------------------------- */
  /* The loop of tokenize, as a function of the lexer state             */
  /* ---------------------------------------------------------------- */

  /**
   * What the loop asks of the rules at a position: the first match, if
   * any, and it always consumes at least one character of the text.
   */
  type Matcher = f: string -> Option<Hit> | Advances(f) witness NoMatch

  ghost predicate Advances(f: string -> Option<Hit>)
  {
    forall s :: f(s).Some? ==> 0 < f(s).value.len <= |s|
  }

  function NoMatch(s: string): Option<Hit>
  {
    None
  }

  /** First match in table order, as the loop uses it. */
  function MatcherOf(table: Table): Matcher
  {
    s => FirstIn(table, s)
  }

  /** The fields `tokenize` updates: `tokens`, `position`, `line_number`. */
  datatype LexState = LexState(tokens: seq<Token>, position: nat, lineNumber: nat)

  /** Where the loop stops: the state then, and whether it stopped on a syntax error. */
  datatype Outcome = Outcome(state: LexState, failed: bool)

  /** `SyntaxError('... línea N ... "rest"')`: the line counter and the unrecognised remainder. */
  datatype LexError = LexError(line: nat, rest: string)

  /** One iteration that found a match: count the newlines of whitespace, keep anything else as a token. */
  function Step(code: string, st: LexState, h: Hit): LexState
    requires st.position + h.len <= |code|
  {
    var text := code[st.position..st.position + h.len];
    if h.kind == Whitespace then
      LexState(st.tokens, st.position + h.len, st.lineNumber + Newlines(text))
    else
      LexState(st.tokens + [Token(h.kind, text, st.lineNumber)], st.position + h.len, st.lineNumber)
  }

  /**
   * The `while` loop of `tokenize` from state `st`.  It stops at the end
   * of the text, or on an error exactly where no rule matches; it only
   * appends tokens and only moves forward.
   */
  function Scan(first: Matcher, code: string, st: LexState): (o: Outcome)
    requires st.position <= |code|
    decreases |code| - st.position
    ensures st.position <= o.state.position <= |code|
  {
    if st.position == |code| then Outcome(st, false)
    else
      match first(code[st.position..])
      case None => Outcome(st, true)
      case Some(h) => Scan(first, code, Step(code, st, h))
  }

  /**
   * The loop stops at the end of the text, or with an error exactly
   * where no rule matches; it only appends tokens and never moves the
   * line counter back.
   */
  lemma {:induction false} ScanStops(first: Matcher, code: string, st: LexState)
    requires st.position <= |code|
    decreases |code| - st.position
    ensures !Scan(first, code, st).failed <==> Scan(first, code, st).state.position == |code|
    ensures Scan(first, code, st).failed ==> first(code[Scan(first, code, st).state.position..]).None?
    ensures st.tokens <= Scan(first, code, st).state.tokens
    ensures st.lineNumber <= Scan(first, code, st).state.lineNumber
  {
    if st.position < |code| && first(code[st.position..]).Some? {
      var h := first(code[st.position..]).value;
      ScanStep(first, code, st, h);
      ScanStops(first, code, Step(code, st, h));
    }
  }

  /** One turn of the loop that finds a match moves `Scan` on by that match. */
  lemma ScanStep(first: Matcher, code: string, st: LexState, h: Hit)
    requires st.position < |code| && first(code[st.position..]) == Some(h)
    ensures st.position + h.len <= |code|
    ensures Scan(first, code, st) == Scan(first, code, Step(code, st, h))
  {
  }

  /** The fields after one turn of the loop, as `Step` gives them. */
  lemma StepFields(code: string, st: LexState, h: Hit, after: LexState, text: string)
    requires st.position + h.len <= |code| && text == code[st.position..st.position + h.len]
    requires after.position == st.position + h.len
    requires h.kind == Whitespace ==> after.tokens == st.tokens && after.lineNumber == st.lineNumber + Newlines(text)
    requires h.kind != Whitespace ==> after.tokens == st.tokens + [Token(h.kind, text, st.lineNumber)] && after.lineNumber == st.lineNumber
    ensures after == Step(code, st, h)
  {
  }

  /** What `tokenize` returns or raises on a fresh lexer for `code` that finds matches with `first`. */
  function LexWith(first: Matcher, code: string): Result<seq<Token>, LexError>
  {
    var o := Scan(first, code, LexState([], 0, 1));
    if o.failed then Err(LexError(o.state.lineNumber, code[o.state.position..])) else Ok(o.state.tokens)
  }

  /** What `Lexer(code).tokenize()` returns or raises. */
  function Lex(code: string): Result<seq<Token>, LexError>
  {
    LexWith(MatcherOf(TokenTable), code)
  }

  /* ---------------------------------------------------------------- */
  /* The class                                                          */
  /* ---------------------------------------------------------------- */

  /**
   * The inner `for` loop of `tokenize`: try each rule at `position` in
   * table order and keep the first match.
   */
  method MatchAt(table: Table, code: string, position: nat) returns (m: Option<Hit>)
    requires position <= |code|
    ensures m == FirstIn(table, code[position..])
  {
    var s := code[position..];
    var i := 0;
    while i < |table|
      invariant i <= |table|
      invariant FirstMatchFrom(table, s, i) == FirstIn(table, s)
    {
      var n := MatchLength(table[i].1, s);
      if n.Some? {
        return Some(Hit(i, table[i].0, n.value));
      }
      i := i + 1;
    }
    return None;
  }

  class Lexer {
    const code: string
    const table: Table
    var tokens: seq<Token>
    var position: nat
    var lineNumber: nat

    predicate Valid()
      reads this
    {
      position <= |code|
    }

    function State(): LexState
      reads this
    {
      LexState(tokens, position, lineNumber)
    }

    /** A fresh lexer is at the start of the text, on line 1, with no tokens. */
    constructor(code: string)
      ensures this.code == code && table == TokenTable && State() == LexState([], 0, 1) && Valid()
    {
      this.code := code;
      table := TokenTable;
      tokens := [];
      position := 0;
      lineNumber := 1;
    }

    /**
     * `tokenize`: runs the loop to the end of the text and returns the
     * token list, or stops with the error where no rule matches; either
     * way the fields are left as `Scan` says.
     */
    method Tokenize() returns (r: Result<seq<Token>, LexError>)
      requires Valid()
      modifies this
      ensures Valid()
      ensures Scan(MatcherOf(table), code, old(State())) == Outcome(State(), r.Err?)
      ensures r.Ok? ==> r.value == tokens
      ensures r.Err? ==> r.error == LexError(lineNumber, code[position..])
    {
      while position < |code|
        invariant Valid()
        invariant Scan(MatcherOf(table), code, State()) == Scan(MatcherOf(table), code, old(State()))
        decreases |code| - position
      {
        var stuck := Advance();
        if stuck {
          return Err(LexError(lineNumber, code[position..]));
        }
      }
      return Ok(tokens);
    }

    /**
     * One turn of the `while` loop of `tokenize`: take the first match at
     * `position` and consume it, or report that nothing matches there
     * and change nothing.
     */
    method Advance() returns (stuck: bool)
      requires Valid() && position < |code|
      modifies this
      ensures Valid()
      ensures stuck ==> State() == old(State()) && Scan(MatcherOf(table), code, State()) == Outcome(State(), true)
      ensures !stuck ==> old(position) < position && Scan(MatcherOf(table), code, State()) == Scan(MatcherOf(table), code, old(State()))
    {
      var m := MatchAt(table, code, position);
      if m.None? {
        return true;
      }
      ghost var before := State();
      ScanStep(MatcherOf(table), code, before, m.value);
      var text := code[position..position + m.value.len];
      if m.value.kind == Whitespace {
        lineNumber := lineNumber + Newlines(text);
      } else {
        tokens := tokens + [Token(m.value.kind, text, lineNumber)];
      }
      position := position + m.value.len;
      StepFields(code, before, m.value, State(), text);
      return false;
    }
  }

  /* ---------------------------------------------------------------- */
  /* Reference description: the text cut into first-match pieces       */
  /* ---------------------------------------------------------------- */

  /** A stretch of the text and the kind of the rule that matched it. */
  datatype Piece = Piece(kind: Kind, text: string)

  function Join(ps: seq<Piece>): string
  {
    if ps == [] then [] else ps[0].text + Join(ps[1..])
  }

  /**
   * Cuts `s` into first-match pieces, left to right, and returns them with
   * the remainder where no rule matches (empty when the whole text is
   * cut).  The pieces and the remainder put back together give `s`, and
   * the remainder is empty or starts where no rule matches.
   */
  function Pieces(first: Matcher, s: string): (r: (seq<Piece>, string))
    decreases |s|
  {
    if s == [] then ([], [])
    else
      match first(s)
      case None => ([], s)
      case Some(h) =>
        var rest := Pieces(first, s[h.len..]);
        ([Piece(h.kind, s[..h.len])] + rest.0, rest.1)
  }

  /**
   * The pieces and the remainder put back together give `s`, and the
   * remainder is empty or starts where no rule matches.
   */
  lemma {:induction false} PiecesCover(first: Matcher, s: string)
    decreases |s|
    ensures Join(Pieces(first, s).0) + Pieces(first, s).1 == s
    ensures Pieces(first, s).1 != [] ==> first(Pieces(first, s).1).None?
  {
    if s != [] && first(s).Some? {
      var h := first(s).value;
      PiecesCons(first, s, h);
      PiecesCover(first, s[h.len..]);
      JoinCons(Piece(h.kind, s[..h.len]), Pieces(first, s[h.len..]), s, h.len);
    }
  }

  /** A first piece that is the head of `s`, before a cut of the rest of `s`, makes a cut of `s`. */
  lemma JoinCons(p: Piece, cut: (seq<Piece>, string), s: string, n: nat)
    requires n <= |s| && p.text == s[..n] && Join(cut.0) + cut.1 == s[n..]
    ensures Join([p] + cut.0) + cut.1 == s
  {
    assert ([p] + cut.0)[1..] == cut.0;
    assert Join([p] + cut.0) + cut.1 == s[..n] + (Join(cut.0) + cut.1);
    assert s[..n] + s[n..] == s;
  }

  /** A piece that is non-empty, of a kind first-match can reach, and spelled as its rule when that is a literal. */
  predicate WellShaped(p: Piece)
  {
    p.text != [] && Reachable(p.kind) && (Spelling(p.kind).Some? ==> p.text == Spelling(p.kind).value)
  }

  /** Every winner of `first`, taken as the piece it cuts, satisfies `good`. */
  ghost predicate Yields(first: Matcher, good: Piece -> bool)
  {
    forall s :: first(s).Some? ==> good(Piece(first(s).value.kind, s[..first(s).value.len]))
  }

  /** The winners of the first-match of the table of the language are well shaped. */
  lemma TableShaped()
    ensures Yields(MatcherOf(TokenTable), WellShaped)
  {
    forall s | MatcherOf(TokenTable)(s).Some?
      ensures WellShaped(Piece(MatcherOf(TokenTable)(s).value.kind, s[..MatcherOf(TokenTable)(s).value.len]))
    {
      WinnerShape(s);
    }
  }

  /** What holds of every winner of a matcher holds of every piece it cuts. */
  lemma {:induction false} PiecesYield(first: Matcher, good: Piece -> bool, s: string)
    requires Yields(first, good)
    decreases |s|
    ensures forall p :: p in Pieces(first, s).0 ==> good(p)
  {
    if s != [] && first(s).Some? {
      var h := first(s).value;
      PiecesCons(first, s, h);
      PiecesYield(first, good, s[h.len..]);
    }
  }

  /** Newlines counted by the line counter: those inside whitespace pieces only. */
  function Lines(ps: seq<Piece>): nat
  {
    if ps == [] then 0
    else (if ps[0].kind == Whitespace then Newlines(ps[0].text) else 0) + Lines(ps[1..])
  }

  /**
   * The tokens for a run of pieces starting on line `line`: whitespace
   * dropped, every other piece kept in order, each on the line reached by
   * counting the newlines of the whitespace before it.
   */
  function Tokenized(ps: seq<Piece>, line: nat): seq<Token>
    decreases ps
  {
    if ps == [] then []
    else if ps[0].kind == Whitespace then Tokenized(ps[1..], line + Newlines(ps[0].text))
    else [Token(ps[0].kind, ps[0].text, line)] + Tokenized(ps[1..], line)
  }

  /** Each token is one of the non-whitespace pieces, with its kind and text. */
  lemma {:induction false} TokensArePieces(ps: seq<Piece>, line: nat)
    decreases ps
    ensures forall t :: t in Tokenized(ps, line) ==> t.kind != Whitespace && Piece(t.kind, t.value) in ps
  {
    if ps != [] {
      var next := line + if ps[0].kind == Whitespace then Newlines(ps[0].text) else 0;
      TokensArePieces(ps[1..], next);
      TokenizedHead(ps, line);
      assert forall q :: q in ps[1..] ==> q in ps;
    }
  }

  /** The tokens of a non-empty run of pieces: those of its first piece, then those of the rest. */
  lemma TokenizedHead(ps: seq<Piece>, line: nat)
    requires ps != []
    ensures Tokenized(ps, line)
      == (if ps[0].kind == Whitespace then [] else [Token(ps[0].kind, ps[0].text, line)])
         + Tokenized(ps[1..], line + if ps[0].kind == Whitespace then Newlines(ps[0].text) else 0)
    ensures Lines(ps) == (if ps[0].kind == Whitespace then Newlines(ps[0].text) else 0) + Lines(ps[1..])
  {
    if ps[0].kind == Whitespace {
      assert [] + Tokenized(ps[1..], line + Newlines(ps[0].text)) == Tokenized(ps[1..], line + Newlines(ps[0].text));
    }
  }

  /** Line numbers start at `line` and never pass `line` plus the newlines counted. */
  lemma {:induction false} TokenLineBounds(ps: seq<Piece>, line: nat)
    decreases ps
    ensures forall t :: t in Tokenized(ps, line) ==> line <= t.lineNumber <= line + Lines(ps)
  {
    if ps != [] {
      var next := line + if ps[0].kind == Whitespace then Newlines(ps[0].text) else 0;
      TokenLineBounds(ps[1..], next);
      TokenizedHead(ps, line);
    }
  }

  /** Token line numbers that never decrease from one token to a later one. */
  predicate InLineOrder(ts: seq<Token>)
  {
    forall i, j :: 0 <= i < j < |ts| ==> ts[i].lineNumber <= ts[j].lineNumber
  }

  /** Line numbers never decrease from one token to the next. */
  lemma {:induction false} TokenLines(ps: seq<Piece>, line: nat)
    decreases ps
    ensures InLineOrder(Tokenized(ps, line))
  {
    if ps != [] {
      var next := line + if ps[0].kind == Whitespace then Newlines(ps[0].text) else 0;
      TokenLines(ps[1..], next);
      TokenizedHead(ps, line);
      if ps[0].kind != Whitespace {
        TokenLineBounds(ps[1..], next);
        HeadThenSorted(Token(ps[0].kind, ps[0].text, line), Tokenized(ps[1..], next));
      } else {
        assert Tokenized(ps, line) == Tokenized(ps[1..], next);
      }
    }
  }

  /** A token no later than every token of a run in line order, put in front of it, keeps it in line order. */
  lemma HeadThenSorted(t: Token, ts: seq<Token>)
    requires forall u :: u in ts ==> t.lineNumber <= u.lineNumber
    requires InLineOrder(ts)
    ensures InLineOrder([t] + ts)
  {
    var all := [t] + ts;
    forall i, j | 0 <= i < j < |all|
      ensures all[i].lineNumber <= all[j].lineNumber
    {
      assert all[j] == ts[j - 1];
      if i > 0 {
        assert all[i] == ts[i - 1];
      }
    }
  }

  /** Tokenizing a run of pieces one piece at a time. */
  lemma TokenizedCons(p: Piece, ps: seq<Piece>, line: nat)
    ensures Tokenized([p] + ps, line)
      == (if p.kind == Whitespace then [] else [Token(p.kind, p.text, line)])
         + Tokenized(ps, line + if p.kind == Whitespace then Newlines(p.text) else 0)
    ensures Lines([p] + ps) == (if p.kind == Whitespace then Newlines(p.text) else 0) + Lines(ps)
  {
    assert ([p] + ps)[1..] == ps;
  }

  /** Cutting text whose head matches: the first piece, then the pieces of the rest. */
  lemma PiecesCons(first: Matcher, s: string, h: Hit)
    requires s != [] && first(s) == Some(h)
    ensures h.len <= |s|
    ensures Pieces(first, s) == ([Piece(h.kind, s[..h.len])] + Pieces(first, s[h.len..]).0, Pieces(first, s[h.len..]).1)
  {
  }

  /**
   * The outcome a cut predicts for a scan from `st`: the tokens of the
   * pieces appended, the position where the pieces stop, the lines their
   * whitespace adds, and a failure exactly when a remainder is left.
   */
  function Predicted(st: LexState, cut: (seq<Piece>, string)): Outcome
  {
    Outcome(LexState(st.tokens + Tokenized(cut.0, st.lineNumber), st.position + |Join(cut.0)|, st.lineNumber + Lines(cut.0)), cut.1 != [])
  }

  /**
   * `Scan` from any state produces exactly the tokens and line count of
   * the pieces of the rest of the text, and stops where the pieces stop.
   */
  lemma {:induction false} ScanIsPieces(first: Matcher, code: string, st: LexState)
    requires st.position <= |code|
    decreases |code| - st.position
    ensures Scan(first, code, st) == Predicted(st, Pieces(first, code[st.position..]))
  {
    if st.position == |code| {
      ScanAtEnd(first, code, st);
    } else if first(code[st.position..]).None? {
      ScanStuck(first, code, st);
    } else {
      var h := first(code[st.position..]).value;
      ScanIsPieces(first, code, Step(code, st, h));
      ScanMoves(first, code, st, h);
    }
  }

  /** At the end of the text: no pieces, no remainder, nothing scanned. */
  lemma ScanAtEnd(first: Matcher, code: string, st: LexState)
    requires st.position == |code|
    ensures Scan(first, code, st) == Predicted(st, Pieces(first, code[st.position..]))
  {
    assert code[st.position..] == [];
    assert st.tokens + Tokenized([], st.lineNumber) == st.tokens;
  }

  /** Where no rule matches: no pieces, the rest is the remainder, and the scan fails there. */
  lemma ScanStuck(first: Matcher, code: string, st: LexState)
    requires st.position < |code| && first(code[st.position..]).None?
    ensures Scan(first, code, st) == Predicted(st, Pieces(first, code[st.position..]))
  {
    assert st.tokens + Tokenized([], st.lineNumber) == st.tokens;
  }

  /** If the prediction holds after one turn of the loop, it holds before it. */
  lemma ScanMoves(first: Matcher, code: string, st: LexState, h: Hit)
    requires st.position < |code| && first(code[st.position..]) == Some(h)
    requires Step(code, st, h).position <= |code|
    requires Scan(first, code, Step(code, st, h)) == Predicted(Step(code, st, h), Pieces(first, code[Step(code, st, h).position..]))
    ensures Scan(first, code, st) == Predicted(st, Pieces(first, code[st.position..]))
  {
    ScanStep(first, code, st, h);
    PredictedMoves(first, code, st, h);
  }

  /** The prediction for the rest after one turn of the loop is the prediction before it. */
  lemma PredictedMoves(first: Matcher, code: string, st: LexState, h: Hit)
    requires st.position < |code| && first(code[st.position..]) == Some(h)
    requires Step(code, st, h).position <= |code|
    ensures Predicted(Step(code, st, h), Pieces(first, code[Step(code, st, h).position..]))
         == Predicted(st, Pieces(first, code[st.position..]))
  {
    var next := Step(code, st, h);
    assert next.position == st.position + h.len;
    var cut := Pieces(first, code[next.position..]);
    PiecesAt(first, code, st.position, h);
    PredictedStep(code, st, h, cut);
  }

  /** `PiecesCons` for the text from `position` on. */
  lemma PiecesAt(first: Matcher, code: string, position: nat, h: Hit)
    requires position < |code| && first(code[position..]) == Some(h)
    ensures position + h.len <= |code|
    ensures Pieces(first, code[position..])
         == ([Piece(h.kind, code[position..position + h.len])] + Pieces(first, code[position + h.len..]).0,
             Pieces(first, code[position + h.len..]).1)
  {
    var s := code[position..];
    PiecesCons(first, s, h);
    assert code[position + h.len..] == s[h.len..];
    assert code[position..position + h.len] == s[..h.len];
  }

  /** The prediction after one step is the prediction with that step's piece put in front. */
  lemma PredictedStep(code: string, st: LexState, h: Hit, cut: (seq<Piece>, string))
    requires st.position + h.len <= |code|
    ensures Predicted(Step(code, st, h), cut)
         == Predicted(st, ([Piece(h.kind, code[st.position..st.position + h.len])] + cut.0, cut.1))
  {
    TokensStep(code, st, h, cut.0);
    var p := Piece(h.kind, code[st.position..st.position + h.len]);
    assert ([p] + cut.0)[1..] == cut.0;
  }

  /** The tokens and lines of one more piece, as `Step` counts them. */
  lemma TokensStep(code: string, st: LexState, h: Hit, ps: seq<Piece>)
    requires st.position + h.len <= |code|
    ensures var next := Step(code, st, h);
      var p := Piece(h.kind, code[st.position..st.position + h.len]);
      next.tokens + Tokenized(ps, next.lineNumber) == st.tokens + Tokenized([p] + ps, st.lineNumber)
      && next.lineNumber + Lines(ps) == st.lineNumber + Lines([p] + ps)
  {
    var p := Piece(h.kind, code[st.position..st.position + h.len]);
    TokenizedCons(p, ps, st.lineNumber);
    if h.kind == Whitespace {
      SpaceStep(code, st, h);
    } else {
      WordStep(code, st, h);
      TokensAppend(st.tokens, Token(h.kind, p.text, st.lineNumber), Tokenized(ps, st.lineNumber));
    }
  }

  /** `Step` on whitespace: the same tokens, the lines of its newlines added. */
  lemma SpaceStep(code: string, st: LexState, h: Hit)
    requires st.position + h.len <= |code| && h.kind == Whitespace
    ensures Step(code, st, h).tokens == st.tokens
    ensures Step(code, st, h).lineNumber == st.lineNumber + Newlines(code[st.position..st.position + h.len])
  {
  }

  /** `Step` on anything else: one token appended, on the same line. */
  lemma WordStep(code: string, st: LexState, h: Hit)
    requires st.position + h.len <= |code| && h.kind != Whitespace
    ensures Step(code, st, h).tokens == st.tokens + [Token(h.kind, code[st.position..st.position + h.len], st.lineNumber)]
    ensures Step(code, st, h).lineNumber == st.lineNumber
  {
  }

  lemma TokensAppend(ts: seq<Token>, t: Token, later: seq<Token>)
    ensures (ts + [t]) + later == ts + ([t] + later)
  {
  }

  /**
   * `tokenize` in terms of pieces: on success the tokens of all pieces
   * from line 1; on failure the error carries the line reached and the
   * unmatched remainder, which is a suffix of the text at whose head no
   * rule matches.
   */
  lemma LexByPieces(first: Matcher, code: string)
    ensures LexWith(first, code) == Reported(code, Pieces(first, code))
  {
    ScanIsPieces(first, code, LexState([], 0, 1));
    assert code[0..] == code;
    PiecesCover(first, code);
    ReportedOutcome(code, Scan(first, code, LexState([], 0, 1)), Pieces(first, code));
  }

  /** The result `tokenize` gives for a cut of the whole text. */
  function Reported(code: string, cut: (seq<Piece>, string)): Result<seq<Token>, LexError>
  {
    if cut.1 == [] then Ok(Tokenized(cut.0, 1)) else Err(LexError(1 + Lines(cut.0), cut.1))
  }

  lemma ReportedOutcome(code: string, o: Outcome, cut: (seq<Piece>, string))
    requires Join(cut.0) + cut.1 == code
    requires o == Predicted(LexState([], 0, 1), cut)
    ensures (if o.failed then Err(LexError(o.state.lineNumber, code[o.state.position..])) else Ok(o.state.tokens))
         == Reported(code, cut)
  {
    assert [] + Tokenized(cut.0, 1) == Tokenized(cut.0, 1);
    assert code[|Join(cut.0)|..] == cut.1;
  }

  /**
   * Every token `tokenize` returns is non-whitespace, non-empty, of a
   * kind first-match can reach (never GREATEREQUAL, LESSEQUAL, HUNTERS,
   * BLOODBOND or COMMENT), spelled exactly as its rule when that is a
   * literal, and numbered from line 1 without ever going back.
   */
  lemma LexedTokens(code: string)
    requires Lex(code).Ok?
    ensures forall t :: t in Lex(code).value ==>
      t.kind != Whitespace && t.value != [] && Reachable(t.kind) && 1 <= t.lineNumber
      && (Spelling(t.kind).Some? ==> t.value == Spelling(t.kind).value)
    ensures InLineOrder(Lex(code).value)
  {
    LexByPieces(MatcherOf(TokenTable), code);
    var (ps, rest) := Pieces(MatcherOf(TokenTable), code);
    TokensArePieces(ps, 1);
    TokenLineBounds(ps, 1);
    TokenLines(ps, 1);
    TableShaped();
    PiecesYield(MatcherOf(TokenTable), WellShaped, code);
  }

  /** A failed `tokenize` reports a non-empty suffix of the text at whose head no rule matches. */
  lemma LexErrorShape(code: string)
    requires Lex(code).Err?
    ensures var e := Lex(code).error;
      |e.rest| <= |code| && e.rest == code[|code| - |e.rest|..] && e.rest != [] && FirstMatch(e.rest).None? && 1 <= e.line
  {
    ScanStops(MatcherOf(TokenTable), code, LexState([], 0, 1));
  }
}
