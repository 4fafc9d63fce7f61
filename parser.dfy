/**
 * The recursive-descent parser of parser/parser.py.
 *
 * The parser reads `(kind, text)` tuples and compares kinds as strings
 * ('LBRACE', 'LPAREN', ...), whatever the lexer calls them.  Its cursor
 * is `pos` and `current_token`; `advance` always increments `pos` but
 * moves `current_token` only while `pos` is inside the list, so past the
 * end the cursor stays on the last token ("frozen") and `pos` keeps
 * growing.  The current token is therefore always `Current(ts, pos)`.
 *
 * Each `parse_*` method is a function from the token list and a start
 * position to the node built and the position after it, or the error it
 * raises.  Where the source would never return, the model returns
 * `Diverges` (a loop that repeats on a frozen cursor) or
 * `RecursionOverflow` (a call that would recur on a frozen cursor forever,
 * which Python ends with a RecursionError).  Termination of the model is
 * by the number of tokens not yet reached, then by the order of the
 * functions below.
 *
 * The class `Parser.Parser`, with the cursor fields, is in the module
 * `Parser` below; its methods are proved to follow these functions.
 */
module Grammar {
  import opened Wrappers
  import opened Ast

  /** A token as the parser reads it: `(kind, text)`. */
  type Pair = (string, string)

  /** A token list the parser can be built on: `Parser.__init__` reads `tokens[0]`. */
  type Tokens = ts: seq<Pair> | |ts| > 0 witness [("", "")]

  datatype ParseError =
    | NoTokens                                  // tokens[0] on an empty list
    | Expected(expected: string, found: string) // `expect` on another kind
    | Unexpected(found: string)                 // parse_term, parse_assignment_or_expression
    | Diverges                                  // the source loops here forever
    | RecursionOverflow                         // the source recurs here until Python's limit

  /** A parse result: the value built and the position after it. */
  type Parsed<T> = Result<(T, nat), ParseError>

  /** `current_token` when `pos` has been advanced `pos` times from 0. */
  function Current(ts: Tokens, pos: nat): Pair
  {
    ts[if pos < |ts| then pos else |ts| - 1]
  }

  function Kind(ts: Tokens, pos: nat): string
  {
    Current(ts, pos).0
  }

  /** Tokens not yet reached; 0 once the cursor is frozen. */
  function Left(ts: Tokens, pos: nat): nat
  {
    if pos < |ts| then |ts| - pos else 0
  }

  /** The kind of the last token: the kind a frozen cursor stays on. */
  function LastKind(ts: Tokens): string
  {
    ts[|ts| - 1].0
  }

  /** The twelve operators `parse_expression` loops on, all of one precedence. */
  predicate IsOperator(k: string)
  {
    || k == "PLUS" || k == "MINUS" || k == "MULTIPLY" || k == "DIVIDE" || k == "EQUAL" || k == "GREATER"
    || k == "LESS" || k == "GREATEREQUAL" || k == "LESSEQUAL" || k == "NOT" || k == "BLOODBOND" || k == "OLDBLOOD"
  }

  /** The kinds `parse_term` turns into a node from one token. */
  predicate IsLeafKind(k: string)
  {
    k == "NUMBER" || k == "STRING" || k == "IDENTIFIER"
  }

  /** The last-token kinds on which the source loops forever. */
  predicate LoopsOn(k: string)
  {
    k == "NUMBER" || k == "STRING" || k == "COMMA"
  }

  /** The trees `parse_expression` builds: one-token terms joined by the twelve operators. */
  predicate Expr(n: Node)
  {
    match n
    case Identifier(_) => true
    case Number(_) => true
    case Str(_) => true
    case BinaryOp(l, op, r) => IsOperator(op) && Expr(l) && Expr(r)
    case _ => false
  }

  /** `expect(kind)`: one step on a match, otherwise the error naming both kinds. */
  function Expect(ts: Tokens, pos: nat, kind: string): (r: Result<nat, ParseError>)
    ensures r.Ok? <==> Kind(ts, pos) == kind
    ensures r.Ok? ==> r.value == pos + 1
    ensures r.Err? ==> r.error == Expected(kind, Kind(ts, pos))
  {
    if Kind(ts, pos) == kind then Ok(pos + 1) else Err(Expected(kind, Kind(ts, pos)))
  }

  /** One step never increases the tokens left, and decreases them unless the cursor is frozen. */
  lemma StepLeft(ts: Tokens, pos: nat)
    ensures Left(ts, pos + 1) <= Left(ts, pos)
    ensures Left(ts, pos + 1) == Left(ts, pos) ==> pos >= |ts| && Current(ts, pos + 1) == Current(ts, pos)
  {
  }

  /** `parse`: a program is one block; tokens after its closing brace are not looked at. */
  function Parse(ts: Tokens): Parsed<Node>
  {
    ParseBlock(ts, 0)
  }

  /** `parse_block`: `{`, statements up to the first `}` at this level, `}`. */
  function ParseBlock(ts: Tokens, pos: nat): (r: Parsed<Node>)
    decreases Left(ts, pos), 9
    ensures r.Ok? ==> pos < r.value.1 && Left(ts, r.value.1) <= Left(ts, pos)
    ensures r.Ok? ==> r.value.0.Block? && Plain(r.value.0)
    ensures r == Err(Diverges) ==> LoopsOn(LastKind(ts))
    ensures r == Err(RecursionOverflow) ==> LastKind(ts) == "LPAREN"
  {
    match Expect(ts, pos, "LBRACE")
    case Err(e) => Err(e)
    case Ok(p1) =>
      StepLeft(ts, pos);
      match Statements(ts, p1, [])
      case Err(e) => Err(e)
      case Ok((ss, p2)) =>
        match Expect(ts, p2, "RBRACE")
        case Err(e) => Err(e)
        case Ok(p3) =>
          StepLeft(ts, p2);
          Ok((Block(ss), p3))
  }

  /**
   * The `while` loop of `parse_block`, with the statements so far: stops
   * at `}`; a statement parsed on a frozen cursor would be parsed again
   * forever.
   */
  function Statements(ts: Tokens, pos: nat, acc: seq<Node>): (r: Parsed<seq<Node>>)
    requires forall i :: 0 <= i < |acc| ==> Plain(acc[i])
    decreases Left(ts, pos), 8
    ensures r.Ok? ==> pos <= r.value.1 && Left(ts, r.value.1) <= Left(ts, pos)
    ensures r.Ok? ==> Kind(ts, r.value.1) == "RBRACE"
    ensures r.Ok? ==> acc <= r.value.0 && forall i :: 0 <= i < |r.value.0| ==> Plain(r.value.0[i])
    ensures r == Err(Diverges) ==> LoopsOn(LastKind(ts))
    ensures r == Err(RecursionOverflow) ==> LastKind(ts) == "LPAREN"
  {
    if Kind(ts, pos) == "RBRACE" then Ok((acc, pos))
    else
      match ParseStatement(ts, pos)
      case Err(e) => Err(e)
      case Ok((s, p)) =>
        if Left(ts, p) == Left(ts, pos) then Err(Diverges)
        else Statements(ts, p, acc + [s])
  }

  /** `parse_statement`: dispatch on the kind of the current token. */
  function ParseStatement(ts: Tokens, pos: nat): (r: Parsed<Node>)
    decreases Left(ts, pos), 7
    ensures r.Ok? ==> pos < r.value.1 && Left(ts, r.value.1) <= Left(ts, pos)
    ensures r.Ok? ==> Plain(r.value.0)
    ensures r == Err(Diverges) ==> LoopsOn(LastKind(ts))
    ensures r == Err(RecursionOverflow) ==> LastKind(ts) == "LPAREN"
    ensures r.Ok? ==> Left(ts, r.value.1) < Left(ts, pos) || Kind(ts, pos) in ["NUMBER", "STRING"]
  {
    var k := Kind(ts, pos);
    if k == "HUNTER" then ParseDeclaration(ts, pos)
    else if k == "INSIGHT" then ParseIf(ts, pos)
    else if k == "NIGHTMARE" then ParseNightmareLoop(ts, pos)
    else if k == "DREAM" then ParseDreamLoop(ts, pos)
    else if k == "PRAY" then ParsePray(ts, pos)
    else if k == "REST" then ParseRest(ts, pos)
    else if k == "IDENTIFIER" then ParseAssignment(ts, pos)
    else ParseExpression(ts, pos)
  }

  /** `parse_dream_loop`: DREAM ( condition ) block, with no init and no increment. */
  function ParseDreamLoop(ts: Tokens, pos: nat): (r: Parsed<Node>)
    decreases Left(ts, pos), 6
    ensures r.Ok? ==> pos < r.value.1 && Left(ts, r.value.1) < Left(ts, pos)
    ensures r.Ok? ==> Plain(r.value.0)
    ensures r == Err(Diverges) ==> LoopsOn(LastKind(ts))
    ensures r == Err(RecursionOverflow) ==> LastKind(ts) == "LPAREN"
  {
    match Expect(ts, pos, "DREAM")
    case Err(e) => Err(e)
    case Ok(p1) =>
      match Expect(ts, p1, "LPAREN")
      case Err(e) => Err(e)
      case Ok(p2) =>
        StepLeft(ts, pos);
        StepLeft(ts, p1);
        match ParseExpression(ts, p2)
        case Err(e) => Err(e)
        case Ok((c, p3)) =>
          match Expect(ts, p3, "RPAREN")
          case Err(e) => Err(e)
          case Ok(p4) =>
            StepLeft(ts, p3);
            match ParseBlock(ts, p4)
            case Err(e) => Err(e)
            case Ok((b, p5)) => Ok((Loop(None, c, None, b), p5))
  }

  /** `parse_assignment_or_expression`: an identifier, `=>`, an expression, `;`. */
  function ParseAssignment(ts: Tokens, pos: nat): (r: Parsed<Node>)
    decreases Left(ts, pos), 6
    ensures r.Ok? ==> pos < r.value.1 && Left(ts, r.value.1) < Left(ts, pos)
    ensures r.Ok? ==> Plain(r.value.0)
    ensures r == Err(Diverges) ==> LoopsOn(LastKind(ts))
    ensures r == Err(RecursionOverflow) ==> LastKind(ts) == "LPAREN"
  {
    var name := Current(ts, pos).1;
    var p1 := pos + 1;
    StepLeft(ts, pos);
    if Kind(ts, p1) != "ASSIGN" then Err(Unexpected(Kind(ts, p1)))
    else
      StepLeft(ts, p1);
      match ParseExpression(ts, p1 + 1)
      case Err(e) => Err(e)
      case Ok((e, p2)) =>
        match Expect(ts, p2, "SEMICOLON")
        case Err(err) => Err(err)
        case Ok(p3) =>
          StepLeft(ts, p2);
          Ok((BinaryOp(Identifier(name), "ASSIGN", e), p3))
  }

  /**
   * `parse_declaration`: HUNTER, the names, `:`, the kind of the next
   * token taken as the type without a check, an initializer only after
   * `=>`, and `;`.
   */
  function ParseDeclaration(ts: Tokens, pos: nat): (r: Parsed<Node>)
    decreases Left(ts, pos), 6
    ensures r.Ok? ==> pos < r.value.1 && Left(ts, r.value.1) < Left(ts, pos)
    ensures r.Ok? ==> Plain(r.value.0)
    ensures r == Err(Diverges) ==> LoopsOn(LastKind(ts))
    ensures r == Err(RecursionOverflow) ==> LastKind(ts) == "LPAREN"
  {
    match Expect(ts, pos, "HUNTER")
    case Err(e) => Err(e)
    case Ok(p1) =>
      StepLeft(ts, pos);
      match ParseIdentifierList(ts, p1)
      case Err(e) => Err(e)
      case Ok((names, p2)) =>
        match Expect(ts, p2, "COLON")
        case Err(e) => Err(e)
        case Ok(p3) =>
          StepLeft(ts, p2);
          var varType := Tag(Kind(ts, p3));
          var p4 := p3 + 1;
          StepLeft(ts, p3);
          match Initializer(ts, p4)
          case Err(e) => Err(e)
          case Ok((init, p5)) =>
            match Expect(ts, p5, "SEMICOLON")
            case Err(e) => Err(e)
            case Ok(p6) =>
              StepLeft(ts, p5);
              Ok((Declaration(names, varType, init), p6))
  }

  /** The optional `=> expression` of a declaration. */
  function Initializer(ts: Tokens, pos: nat): (r: Parsed<Option<Node>>)
    decreases Left(ts, pos), 5
    ensures r.Ok? ==> pos <= r.value.1 && Left(ts, r.value.1) <= Left(ts, pos)
    ensures r.Ok? ==> (r.value.0.Some? <==> Kind(ts, pos) == "ASSIGN")
    ensures r.Ok? && r.value.0.Some? ==> Plain(r.value.0.value)
    ensures r == Err(Diverges) ==> LoopsOn(LastKind(ts))
    ensures r == Err(RecursionOverflow) ==> LastKind(ts) == "LPAREN"
  {
    if Kind(ts, pos) != "ASSIGN" then Ok((None, pos))
    else
      StepLeft(ts, pos);
      match ParseExpression(ts, pos + 1)
      case Err(e) => Err(e)
      case Ok((e, p)) => Ok((Some(e), p))
  }

  /** `parse_identifier_list`: one name, then a name after each comma. */
  function ParseIdentifierList(ts: Tokens, pos: nat): (r: Parsed<seq<string>>)
    decreases Left(ts, pos), 5
    ensures r.Ok? ==> pos < r.value.1 && Left(ts, r.value.1) <= Left(ts, pos)
    ensures r.Ok? ==> |r.value.0| >= 1 && r.value.0[0] == Current(ts, pos).1
    ensures r == Err(Diverges) ==> LoopsOn(LastKind(ts))
    ensures r == Err(RecursionOverflow) ==> LastKind(ts) == "LPAREN"
  {
    StepLeft(ts, pos);
    MoreNames(ts, pos + 1, [Current(ts, pos).1])
  }

  /**
   * The `while` loop of `parse_identifier_list`, with the names so far;
   * `parse_identifier` takes the text of whatever token is current.  A
   * comma on a frozen cursor is taken forever.
   */
  function MoreNames(ts: Tokens, pos: nat, acc: seq<string>): (r: Parsed<seq<string>>)
    decreases Left(ts, pos)
    ensures r.Ok? ==> pos <= r.value.1 && Left(ts, r.value.1) <= Left(ts, pos)
    ensures r.Ok? ==> acc <= r.value.0 && Kind(ts, r.value.1) != "COMMA"
    ensures r == Err(Diverges) ==> LoopsOn(LastKind(ts))
    ensures r == Err(RecursionOverflow) ==> LastKind(ts) == "LPAREN"
  {
    if Kind(ts, pos) != "COMMA" then Ok((acc, pos))
    else
      var name := Current(ts, pos + 1).1;
      var p := pos + 2;
      StepLeft(ts, pos);
      StepLeft(ts, pos + 1);
      if Left(ts, p) == Left(ts, pos) then Err(Diverges)
      else MoreNames(ts, p, acc + [name])
  }

  /** `parse_if_statement`: INSIGHT ( condition ) block, and a second block only after MADNESS. */
  function ParseIf(ts: Tokens, pos: nat): (r: Parsed<Node>)
    decreases Left(ts, pos), 6
    ensures r.Ok? ==> pos < r.value.1 && Left(ts, r.value.1) < Left(ts, pos)
    ensures r.Ok? ==> Plain(r.value.0)
    ensures r == Err(Diverges) ==> LoopsOn(LastKind(ts))
    ensures r == Err(RecursionOverflow) ==> LastKind(ts) == "LPAREN"
  {
    match Expect(ts, pos, "INSIGHT")
    case Err(e) => Err(e)
    case Ok(p1) =>
      match Expect(ts, p1, "LPAREN")
      case Err(e) => Err(e)
      case Ok(p2) =>
        StepLeft(ts, pos);
        StepLeft(ts, p1);
        match ParseExpression(ts, p2)
        case Err(e) => Err(e)
        case Ok((c, p3)) =>
          match Expect(ts, p3, "RPAREN")
          case Err(e) => Err(e)
          case Ok(p4) =>
            StepLeft(ts, p3);
            match ParseBlock(ts, p4)
            case Err(e) => Err(e)
            case Ok((t, p5)) =>
              match ElseBlock(ts, p5)
              case Err(e) => Err(e)
              case Ok((f, p6)) => Ok((If(c, t, f), p6))
  }

  /** The optional `MADNESS block` of an if statement. */
  function ElseBlock(ts: Tokens, pos: nat): (r: Parsed<Option<Node>>)
    decreases Left(ts, pos), 10
    ensures r.Ok? ==> pos <= r.value.1 && Left(ts, r.value.1) <= Left(ts, pos)
    ensures r.Ok? ==> (r.value.0.Some? <==> Kind(ts, pos) == "MADNESS")
    ensures r.Ok? && r.value.0.Some? ==> Plain(r.value.0.value)
    ensures r == Err(Diverges) ==> LoopsOn(LastKind(ts))
    ensures r == Err(RecursionOverflow) ==> LastKind(ts) == "LPAREN"
  {
    if Kind(ts, pos) != "MADNESS" then Ok((None, pos))
    else
      StepLeft(ts, pos);
      match ParseBlock(ts, pos + 1)
      case Err(e) => Err(e)
      case Ok((f, p)) => Ok((Some(f), p))
  }

  /** `parse_nightmare_loop`: NIGHTMARE ( init ; condition ; increment ) block. */
  function ParseNightmareLoop(ts: Tokens, pos: nat): (r: Parsed<Node>)
    decreases Left(ts, pos), 6
    ensures r.Ok? ==> pos < r.value.1 && Left(ts, r.value.1) < Left(ts, pos)
    ensures r.Ok? ==> Plain(r.value.0)
    ensures r == Err(Diverges) ==> LoopsOn(LastKind(ts))
    ensures r == Err(RecursionOverflow) ==> LastKind(ts) == "LPAREN"
  {
    match Expect(ts, pos, "NIGHTMARE")
    case Err(e) => Err(e)
    case Ok(p1) =>
      match Expect(ts, p1, "LPAREN")
      case Err(e) => Err(e)
      case Ok(p2) =>
        StepLeft(ts, pos);
        StepLeft(ts, p1);
        match LoopHeader(ts, p2)
        case Err(e) => Err(e)
        case Ok(((i, c, inc), p3)) =>
          match ParseBlock(ts, p3)
          case Err(e) => Err(e)
          case Ok((b, p4)) => Ok((Loop(Some(i), c, Some(inc), b), p4))
  }

  /** The three clauses of a NIGHTMARE loop after its `(`, up to and including `)`. */
  function LoopHeader(ts: Tokens, pos: nat): (r: Parsed<(Node, Node, Node)>)
    decreases Left(ts, pos), 5
    ensures r.Ok? ==> pos < r.value.1 && Left(ts, r.value.1) <= Left(ts, pos)
    ensures r.Ok? ==> Plain(r.value.0.0) && Plain(r.value.0.1) && Plain(r.value.0.2)
    ensures r == Err(Diverges) ==> LoopsOn(LastKind(ts))
    ensures r == Err(RecursionOverflow) ==> LastKind(ts) == "LPAREN"
  {
    match ParseExpression(ts, pos)
    case Err(e) => Err(e)
    case Ok((i, p1)) =>
      match Expect(ts, p1, "SEMICOLON")
      case Err(e) => Err(e)
      case Ok(p2) =>
        StepLeft(ts, p1);
        match ParseExpression(ts, p2)
        case Err(e) => Err(e)
        case Ok((c, p3)) =>
          match Expect(ts, p3, "SEMICOLON")
          case Err(e) => Err(e)
          case Ok(p4) =>
            StepLeft(ts, p3);
            match ParseExpression(ts, p4)
            case Err(e) => Err(e)
            case Ok((inc, p5)) =>
              match Expect(ts, p5, "RPAREN")
              case Err(e) => Err(e)
              case Ok(p6) =>
                StepLeft(ts, p5);
                Ok(((i, c, inc), p6))
  }

  /** `parse_pray`: PRAY ( expression ) ; as a call of 'PRAY' with that one argument. */
  function ParsePray(ts: Tokens, pos: nat): (r: Parsed<Node>)
    decreases Left(ts, pos), 6
    ensures r.Ok? ==> pos < r.value.1 && Left(ts, r.value.1) < Left(ts, pos)
    ensures r.Ok? ==> Plain(r.value.0)
    ensures r == Err(Diverges) ==> LoopsOn(LastKind(ts))
    ensures r == Err(RecursionOverflow) ==> LastKind(ts) == "LPAREN"
  {
    match Expect(ts, pos, "PRAY")
    case Err(e) => Err(e)
    case Ok(p1) =>
      match Expect(ts, p1, "LPAREN")
      case Err(e) => Err(e)
      case Ok(p2) =>
        StepLeft(ts, pos);
        StepLeft(ts, p1);
        match ParseExpression(ts, p2)
        case Err(e) => Err(e)
        case Ok((e, p3)) =>
          match Expect(ts, p3, "RPAREN")
          case Err(err) => Err(err)
          case Ok(p4) =>
            match Expect(ts, p4, "SEMICOLON")
            case Err(err) => Err(err)
            case Ok(p5) =>
              StepLeft(ts, p3);
              StepLeft(ts, p4);
              Ok((FunctionCall(Builtin("PRAY"), [e]), p5))
  }

  /** `parse_rest_statement`: REST ;. */
  function ParseRest(ts: Tokens, pos: nat): (r: Parsed<Node>)
    decreases Left(ts, pos), 6
    ensures r.Ok? ==> pos < r.value.1 && Left(ts, r.value.1) < Left(ts, pos)
    ensures r.Ok? ==> r.value.0 == Rest
    ensures r == Err(Diverges) ==> LoopsOn(LastKind(ts))
    ensures r == Err(RecursionOverflow) ==> LastKind(ts) == "LPAREN"
  {
    match Expect(ts, pos, "REST")
    case Err(e) => Err(e)
    case Ok(p1) =>
      match Expect(ts, p1, "SEMICOLON")
      case Err(e) => Err(e)
      case Ok(p2) =>
        StepLeft(ts, pos);
        StepLeft(ts, p1);
        Ok((Rest, p2))
  }

  /** `parse_expression`: a term, then any number of operator-term pairs, folded to the left. */
  function ParseExpression(ts: Tokens, pos: nat): (r: Parsed<Node>)
    decreases Left(ts, pos), 4
    ensures r.Ok? ==> pos < r.value.1 && Left(ts, r.value.1) <= Left(ts, pos)
    ensures r.Ok? ==> Plain(r.value.0)
    ensures r == Err(Diverges) ==> LoopsOn(LastKind(ts))
    ensures r == Err(RecursionOverflow) ==> LastKind(ts) == "LPAREN"
    ensures r.Ok? ==> Left(ts, r.value.1) < Left(ts, pos) || IsLeafKind(Kind(ts, pos))
    ensures r.Ok? ==> Expr(r.value.0)
  {
    match ParseTerm(ts, pos)
    case Err(e) => Err(e)
    case Ok((left, p)) => Operations(ts, p, left)
  }

  /** The `while` loop of `parse_expression`, with the tree built so far on the left. */
  function Operations(ts: Tokens, pos: nat, left: Node): (r: Parsed<Node>)
    requires Plain(left)
    decreases Left(ts, pos), 3
    ensures r.Ok? ==> pos <= r.value.1 && Left(ts, r.value.1) <= Left(ts, pos)
    ensures r.Ok? ==> Plain(r.value.0) && !IsOperator(Kind(ts, r.value.1))
    ensures r == Err(Diverges) ==> LoopsOn(LastKind(ts))
    ensures r == Err(RecursionOverflow) ==> LastKind(ts) == "LPAREN"
    ensures r.Ok? && Expr(left) ==> Expr(r.value.0)
  {
    var k := Kind(ts, pos);
    if !IsOperator(k) then Ok((left, pos))
    else
      StepLeft(ts, pos);
      match ParseTerm(ts, pos + 1)
      case Err(e) => Err(e)
      case Ok((right, p)) => Operations(ts, p, BinaryOp(left, k, right))
  }

  /**
   * `parse_term`: a NUMBER, STRING or IDENTIFIER token, or an expression
   * in parentheses, returned without a wrapper node.
   */
  function ParseTerm(ts: Tokens, pos: nat): (r: Parsed<Node>)
    decreases Left(ts, pos), 2
    ensures r.Ok? ==> pos < r.value.1 && Left(ts, r.value.1) <= Left(ts, pos)
    ensures r.Ok? ==> Left(ts, r.value.1) < Left(ts, pos) || IsLeafKind(Kind(ts, pos))
    ensures r.Ok? ==> Plain(r.value.0)
    ensures r == Err(Diverges) ==> LoopsOn(LastKind(ts))
    ensures r == Err(RecursionOverflow) ==> LastKind(ts) == "LPAREN"
    ensures r.Ok? ==> Expr(r.value.0)
  {
    var k := Kind(ts, pos);
    StepLeft(ts, pos);
    if k == "NUMBER" then Ok((Number(Current(ts, pos).1), pos + 1))
    else if k == "STRING" then Ok((Str(Current(ts, pos).1), pos + 1))
    else if k == "IDENTIFIER" then Ok((Identifier(Current(ts, pos).1), pos + 1))
    else if k == "LPAREN" then
      if Left(ts, pos + 1) == Left(ts, pos) then Err(RecursionOverflow)
      else
        match ParseExpression(ts, pos + 1)
        case Err(e) => Err(e)
        case Ok((e, p)) =>
          match Expect(ts, p, "RPAREN")
          case Err(err) => Err(err)
          case Ok(q) =>
            StepLeft(ts, p);
            Ok((e, q))
    else Err(Unexpected(k))
  }

  /* ---------------------------------------------------------------- */
  /* Properties of the grammar                                          */
  /* ---------------------------------------------------------------- */

  /** `pos` only grows, and from the last token on the cursor shows the last token. */
  lemma FrozenCursor(ts: Tokens, pos: nat, later: nat)
    requires |ts| - 1 <= pos <= later
    ensures Current(ts, later) == Current(ts, pos) == ts[|ts| - 1]
    ensures Left(ts, later) == Left(ts, pos) || pos == |ts| - 1
  {
  }

  /**
   * The accumulator of the statement loop only ever has statements
   * appended: the loop from `acc` gives `acc` followed by what the loop
   * from nothing gives.
   */
  lemma AppendAssoc<T>(a: seq<T>, b: seq<T>, c: seq<T>)
    ensures a + b + c == a + (b + c)
  {
  }

  /** One turn of the statement loop. */
  lemma StatementsStep(ts: Tokens, pos: nat, acc: seq<Node>)
    requires forall i :: 0 <= i < |acc| ==> Plain(acc[i])
    requires Kind(ts, pos) != "RBRACE"
    ensures var st := ParseStatement(ts, pos);
      Statements(ts, pos, acc) ==
        if st.Err? then Err(st.error)
        else if Left(ts, st.value.1) == Left(ts, pos) then Err(Diverges)
        else Statements(ts, st.value.1, acc + [st.value.0])
  {
  }

  lemma {:induction false} StatementsAcc(ts: Tokens, pos: nat, acc: seq<Node>)
    requires forall i :: 0 <= i < |acc| ==> Plain(acc[i])
    decreases Left(ts, pos)
    ensures var r0 := Statements(ts, pos, []);
      Statements(ts, pos, acc) == (if r0.Ok? then Ok((acc + r0.value.0, r0.value.1)) else r0)
  {
    if Kind(ts, pos) != "RBRACE" {
      var st := ParseStatement(ts, pos);
      StatementsStep(ts, pos, acc);
      StatementsStep(ts, pos, []);
      if st.Ok? && Left(ts, st.value.1) != Left(ts, pos) {
        var (s, p) := st.value;
        assert [] + [s] == [s];
        StatementsAcc(ts, p, acc + [s]);
        StatementsAcc(ts, p, [s]);
        var r1 := Statements(ts, p, []);
        if r1.Ok? {
          AppendAssoc(acc, [s], r1.value.0);
        }
      }
    } else {
      assert acc + [] == acc;
    }
  }

  /**
   * A block keeps its statements in source order: the first is the
   * statement at the start, followed by the statements after it.
   */
  lemma StatementsInOrder(ts: Tokens, pos: nat)
    requires Statements(ts, pos, []).Ok? && Kind(ts, pos) != "RBRACE"
    ensures var first := ParseStatement(ts, pos);
      first.Ok? && Left(ts, first.value.1) < Left(ts, pos)
      && var rest := Statements(ts, first.value.1, []);
      rest.Ok? && Statements(ts, pos, []).value == ([first.value.0] + rest.value.0, rest.value.1)
  {
    var first := ParseStatement(ts, pos);
    StatementsStep(ts, pos, []);
    assert [] + [first.value.0] == [first.value.0];
    StatementsAcc(ts, first.value.1, [first.value.0]);
  }

  /** `parse`: a program is a single block, from `{` at the first token to its `}`. */
  lemma ProgramShape(ts: Tokens)
    requires Parse(ts).Ok?
    ensures var (n, after) := Parse(ts).value;
      Kind(ts, 0) == "LBRACE" && after >= 2 && Kind(ts, after - 1) == "RBRACE"
      && Statements(ts, 1, []) == Ok((n.statements, after - 1))
      && Repr(n).Some?
  {
    ReprDefined(Parse(ts).value.0);
  }

  /**
   * `Parser(tokens).parse()` on any token list: `__init__` reads
   * `tokens[0]`, so an empty list raises IndexError before parsing starts.
   */
  function ParseTokens(ts: seq<Pair>): Parsed<Node>
  {
    if ts == [] then Err(NoTokens) else Parse(ts)
  }

  /** An empty list fails with `NoTokens`; a parsed program is a printable block opened by `{` at the first token. */
  lemma ParseTokensOutcome(ts: seq<Pair>)
    ensures ts == [] ==> ParseTokens(ts) == Err(NoTokens)
    ensures ParseTokens(ts).Ok? ==> ts != [] && Kind(ts, 0) == "LBRACE" && Repr(ParseTokens(ts).value.0).Some?
  {
    if ParseTokens(ts).Ok? {
      ProgramShape(ts);
    }
  }

  /** The node of a one-token term. */
  function Leaf(p: Pair): Node
  {
    if p.0 == "NUMBER" then Number(p.1)
    else if p.0 == "STRING" then Str(p.1)
    else Identifier(p.1)
  }

  /**
   * From `q`: `m` pairs of an operator and a one-token term, all inside
   * the list, and then a token that is not an operator.
   */
  predicate OperatorRun(ts: Tokens, q: nat, m: nat)
    decreases m
  {
    if m == 0 then !IsOperator(Kind(ts, q))
    else
      && q + 1 < |ts|
      && IsOperator(Kind(ts, q))
      && IsLeafKind(Kind(ts, q + 1))
      && OperatorRun(ts, q + 2, m - 1)
  }

  /** Those pairs folded onto `left` from the left: `((left o1 t1) o2 t2) ...`. */
  function FoldLeft(ts: Tokens, q: nat, m: nat, left: Node): (r: Node)
    requires Plain(left)
    decreases m
    ensures Plain(r)
  {
    if m == 0 then left
    else FoldLeft(ts, q + 2, m - 1, BinaryOp(left, Kind(ts, q), Leaf(Current(ts, q + 1))))
  }

  /** The operator loop stops at a non-operator. */
  lemma OperationsStop(ts: Tokens, q: nat, left: Node)
    requires Plain(left) && !IsOperator(Kind(ts, q))
    ensures Operations(ts, q, left) == Ok((left, q))
  {
  }

  /** One turn of the operator loop over an operator and a one-token term. */
  lemma OperationsStep(ts: Tokens, q: nat, left: Node)
    requires Plain(left)
    requires q + 1 < |ts| && IsOperator(Kind(ts, q)) && IsLeafKind(Kind(ts, q + 1))
    ensures Operations(ts, q, left) == Operations(ts, q + 2, BinaryOp(left, Kind(ts, q), Leaf(Current(ts, q + 1))))
  {
    assert ParseTerm(ts, q + 1) == Ok((Leaf(Current(ts, q + 1)), q + 2));
  }

  /** The operator loop over a run of `m` pairs builds their left fold. */
  lemma {:induction false} FoldOperations(ts: Tokens, q: nat, m: nat, left: Node)
    requires Plain(left) && OperatorRun(ts, q, m)
    decreases m
    ensures Operations(ts, q, left) == Ok((FoldLeft(ts, q, m, left), q + 2 * m))
  {
    if m == 0 {
      OperationsStop(ts, q, left);
    } else {
      OperationsStep(ts, q, left);
      FoldOperations(ts, q + 2, m - 1, BinaryOp(left, Kind(ts, q), Leaf(Current(ts, q + 1))));
    }
  }

  /**
   * All twelve operators share one precedence and associate to the left:
   * a one-token term followed by `m` operator-term pairs and then a
   * non-operator parses as their left fold, and stops after the last term.
   */
  lemma LeftAssociative(ts: Tokens, pos: nat, m: nat)
    requires pos < |ts| && IsLeafKind(Kind(ts, pos))
    requires OperatorRun(ts, pos + 1, m)
    ensures ParseExpression(ts, pos) == Ok((FoldLeft(ts, pos + 1, m, Leaf(Current(ts, pos))), pos + 2 * m + 1))
  {
    assert ParseTerm(ts, pos) == Ok((Leaf(Current(ts, pos)), pos + 1));
    FoldOperations(ts, pos + 1, m, Leaf(Current(ts, pos)));
  }

  /** No precedence: `1 + 2 * 3` is `(1 + 2) * 3`. */
  lemma NoPrecedence()
    ensures ParseExpression([("NUMBER", "1"), ("PLUS", "+"), ("NUMBER", "2"), ("MULTIPLY", "*"), ("NUMBER", "3"), ("SEMICOLON", ";")], 0)
         == Ok((BinaryOp(BinaryOp(Number("1"), "PLUS", Number("2")), "MULTIPLY", Number("3")), 5))
  {
    var ts: Tokens := [("NUMBER", "1"), ("PLUS", "+"), ("NUMBER", "2"), ("MULTIPLY", "*"), ("NUMBER", "3"), ("SEMICOLON", ";")];
    assert OperatorRun(ts, 5, 0);
    assert OperatorRun(ts, 3, 1);
    assert OperatorRun(ts, 1, 2);
    LeftAssociative(ts, 0, 2);
  }

  /**
   * `parse_term`: a one-token term is its leaf; `( e )` is `e` itself,
   * with no wrapper node; any other kind raises.
   */
  lemma TermShape(ts: Tokens, pos: nat)
    ensures IsLeafKind(Kind(ts, pos)) ==> ParseTerm(ts, pos) == Ok((Leaf(Current(ts, pos)), pos + 1))
    ensures Kind(ts, pos) == "LPAREN" && pos < |ts| ==>
      var e := ParseExpression(ts, pos + 1);
      ParseTerm(ts, pos) == (if e.Ok? && Kind(ts, e.value.1) == "RPAREN" then Ok((e.value.0, e.value.1 + 1))
                             else if e.Ok? then Err(Expected("RPAREN", Kind(ts, e.value.1))) else e)
    ensures Kind(ts, pos) !in ["NUMBER", "STRING", "IDENTIFIER", "LPAREN"] ==> ParseTerm(ts, pos) == Err(Unexpected(Kind(ts, pos)))
  {
  }

  /** The texts of `m` tokens, every second one from `pos`. */
  function NamesAt(ts: Tokens, pos: nat, m: nat): (r: seq<string>)
    decreases m
    ensures |r| == m
  {
    if m == 0 then [] else [Current(ts, pos).1] + NamesAt(ts, pos + 2, m - 1)
  }

  /** `m` commas, every second token from `pos`. */
  predicate CommasAt(ts: Tokens, pos: nat, m: nat)
    decreases m
  {
    m == 0 || (Kind(ts, pos) == "COMMA" && CommasAt(ts, pos + 2, m - 1))
  }

  /**
   * The loop of `parse_identifier_list` from a loop state: after the
   * names so far, a name after each comma, in order.
   */
  lemma {:induction false} MoreNamesShape(ts: Tokens, pos: nat, acc: seq<string>)
    requires MoreNames(ts, pos, acc).Ok?
    decreases Left(ts, pos)
    ensures var (names, after) := MoreNames(ts, pos, acc).value;
      && |names| >= |acc|
      && names == acc + NamesAt(ts, pos + 1, |names| - |acc|)
      && CommasAt(ts, pos, |names| - |acc|)
      && after == pos + 2 * (|names| - |acc|)
  {
    if Kind(ts, pos) == "COMMA" {
      var name := Current(ts, pos + 1).1;
      MoreNamesShape(ts, pos + 2, acc + [name]);
      var names := MoreNames(ts, pos, acc).value.0;
      var m := |names| - |acc|;
      assert NamesAt(ts, pos + 1, m) == [name] + NamesAt(ts, pos + 3, m - 1);
      AppendAssoc(acc, [name], NamesAt(ts, pos + 3, m - 1));
    } else {
      assert acc + [] == acc;
    }
  }

  /**
   * A declaration's names are the texts of every second token from the
   * first, with a comma between each two; the list ends at the first
   * token after a name that is not a comma.
   */
  lemma NameList(ts: Tokens, pos: nat)
    requires ParseIdentifierList(ts, pos).Ok?
    ensures var (names, after) := ParseIdentifierList(ts, pos).value;
      && |names| >= 1
      && names == NamesAt(ts, pos, |names|)
      && CommasAt(ts, pos + 1, |names| - 1)
      && after == pos + 2 * |names| - 1 && Kind(ts, after) != "COMMA"
  {
    MoreNamesShape(ts, pos + 1, [Current(ts, pos).1]);
  }

  /**
   * `parse_declaration`: the names, the kind of the token after `:` taken
   * as the type whatever it is, an initializer exactly when `=>` follows
   * it, and a closing `;`.
   */
  lemma DeclarationShape(ts: Tokens, pos: nat)
    requires ParseDeclaration(ts, pos).Ok?
    ensures var (n, after) := ParseDeclaration(ts, pos).value;
      var ids := ParseIdentifierList(ts, pos + 1);
      && Kind(ts, pos) == "HUNTER" && ids.Ok? && Kind(ts, ids.value.1) == "COLON"
      && n.Declaration? && n.names == ids.value.0 && n.varType == Tag(Kind(ts, ids.value.1 + 1))
      && (n.expression.Some? <==> Kind(ts, ids.value.1 + 2) == "ASSIGN")
      && (n.expression.Some? ==> Expr(n.expression.value))
      && Kind(ts, after - 1) == "SEMICOLON"
  {
  }

  /** `parse_if_statement`: the condition is an expression; both branches are blocks. */
  lemma IfShape(ts: Tokens, pos: nat)
    requires ParseIf(ts, pos).Ok?
    ensures var n := ParseIf(ts, pos).value.0;
      n.If? && Expr(n.condition) && n.trueBlock.Block? && (n.falseBlock.Some? ==> n.falseBlock.value.Block?)
  {
  }

  /** `parse_nightmare_loop`: a loop carrying all three clauses. */
  lemma NightmareShape(ts: Tokens, pos: nat)
    requires ParseNightmareLoop(ts, pos).Ok?
    ensures var n := ParseNightmareLoop(ts, pos).value.0;
      && n.Loop? && n.init.Some? && n.increment.Some?
      && Expr(n.init.value) && Expr(n.condition) && Expr(n.increment.value) && n.body.Block?
  {
  }

  /** `parse_dream_loop`: a loop with no init and no increment. */
  lemma DreamShape(ts: Tokens, pos: nat)
    requires ParseDreamLoop(ts, pos).Ok?
    ensures var n := ParseDreamLoop(ts, pos).value.0;
      n.Loop? && n.init.None? && n.increment.None? && Expr(n.condition) && n.body.Block?
  {
  }

  /** `parse_statement` on PRAY, REST, an assignment or an expression: the node each builds. */
  lemma SimpleStatementShape(ts: Tokens, pos: nat)
    requires ParseStatement(ts, pos).Ok?
    ensures var n := ParseStatement(ts, pos).value.0; var k := Kind(ts, pos);
      && (k == "PRAY" ==> n.FunctionCall? && n.callee == Builtin("PRAY") && |n.arguments| == 1 && Expr(n.arguments[0]))
      && (k == "REST" ==> n == Rest)
      && (k == "IDENTIFIER" ==> n.BinaryOp? && n.left == Identifier(Current(ts, pos).1) && n.operator == "ASSIGN" && Expr(n.right))
      && (k !in ["HUNTER", "INSIGHT", "NIGHTMARE", "DREAM", "PRAY", "REST", "IDENTIFIER"] ==> Expr(n))
  {
  }


  /** An unclosed block whose last token is a NUMBER: `parse_block` loops forever. */
  lemma DivergesOnNumber()
    ensures Parse([("LBRACE", "{"), ("NUMBER", "1")]) == Err(Diverges)
  {
  }

  /** A declaration whose last token is a comma: `parse_identifier_list` loops forever. */
  lemma DivergesOnComma()
    ensures Parse([("LBRACE", "{"), ("HUNTER", "Hunter"), ("IDENTIFIER", "x"), ("COMMA", ",")]) == Err(Diverges)
  {
  }

  /** A term whose last token is `(`: `parse_term` recurs until Python's limit. */
  lemma OverflowsOnParen()
    ensures Parse([("LBRACE", "{"), ("LPAREN", "(")]) == Err(RecursionOverflow)
  {
  }
}

/**
 * The class of parser/parser.py: the token list, `pos` and
 * `current_token`, and one method per `parse_*` method, each proved to
 * return what the function of the same name in `Grammar` returns and to
 * leave `pos` where that function says.  Where the source would loop or
 * recur forever, the method returns `Diverges` or `RecursionOverflow`
 * instead, exactly where the function does.
 */
module Parser {
  import opened Wrappers
  import opened Ast
  import opened Grammar

  /** A method's result and final position are those of the function it follows. */
  ghost predicate Follows<T>(s: Parsed<T>, r: Result<T, ParseError>, after: nat)
  {
    if s.Ok? then r == Ok(s.value.0) && after == s.value.1 else r == Err(s.error)
  }

  class Parser {
    const tokens: Tokens
    var pos: nat
    var current: Pair

    /** `current_token` is the token at `pos`, or the last token once `pos` has passed the end. */
    ghost predicate Valid()
      reads this
    {
      current == Current(tokens, pos)
    }

    /** `__init__` on a non-empty list. */
    constructor (ts: Tokens)
      ensures Valid() && tokens == ts && pos == 0
    {
      tokens := ts;
      pos := 0;
      current := ts[0];
    }

    /** `advance`: `pos` always moves; `current_token` only while inside the list. */
    method Advance()
      requires Valid()
      modifies this
      ensures Valid() && pos == old(pos) + 1
    {
      pos := pos + 1;
      if pos < |tokens| {
        current := tokens[pos];
      }
    }

    /** `expect`: one step on a match, otherwise the error and no step. */
    method Expect(kind: string) returns (r: Result<(), ParseError>)
      requires Valid()
      modifies this
      ensures Valid()
      ensures r.Ok? <==> Grammar.Expect(tokens, old(pos), kind).Ok?
      ensures r.Ok? ==> pos == Grammar.Expect(tokens, old(pos), kind).value
      ensures r.Err? ==> r.error == Grammar.Expect(tokens, old(pos), kind).error && pos == old(pos)
    {
      if current.0 == kind {
        Advance();
        r := Ok(());
      } else {
        r := Err(Expected(kind, current.0));
      }
    }

    /** `parse_identifier`: the text of the current token, whatever its kind, and one step. */
    method ParseIdentifier() returns (name: string)
      requires Valid()
      modifies this
      ensures Valid() && pos == old(pos) + 1 && name == Current(tokens, old(pos)).1
    {
      name := current.1;
      Advance();
    }

    /** `parse`. */
    method Parse() returns (r: Result<Node, ParseError>)
      requires Valid()
      modifies this
      ensures Valid() && Follows(Grammar.Parse(tokens), r, pos)
      requires pos == 0
    {
      r := ParseBlock();
    }

    /** `parse_block`, with its `while` loop. */
    method ParseBlock() returns (r: Result<Node, ParseError>)
      requires Valid()
      modifies this
      decreases Left(tokens, pos), 9
      ensures Valid() && Follows(Grammar.ParseBlock(tokens, old(pos)), r, pos)
    {
      var e := Expect("LBRACE");
      if e.Err? {
        return Err(e.error);
      }
      StepLeft(tokens, old(pos));
      ghost var start := pos;
      var statements: seq<Node> := [];
      while current.0 != "RBRACE"
        invariant Valid() && Left(tokens, pos) <= Left(tokens, start)
        invariant forall i :: 0 <= i < |statements| ==> Plain(statements[i])
        invariant Statements(tokens, pos, statements) == Statements(tokens, start, [])
        decreases Left(tokens, pos)
      {
        var before := pos;
        var s := ParseStatement();
        if s.Err? {
          return Err(s.error);
        }
        if before >= |tokens| {
          return Err(Diverges);
        }
        statements := statements + [s.value];
      }
      e := Expect("RBRACE");
      StepLeft(tokens, pos - 1);
      return Ok(Block(statements));
    }

    /** `parse_statement`. */
    method ParseStatement() returns (r: Result<Node, ParseError>)
      requires Valid()
      modifies this
      decreases Left(tokens, pos), 7
      ensures Valid() && Follows(Grammar.ParseStatement(tokens, old(pos)), r, pos)
    {
      var k := current.0;
      if k == "HUNTER" {
        r := ParseDeclaration();
      } else if k == "INSIGHT" {
        r := ParseIf();
      } else if k == "NIGHTMARE" {
        r := ParseNightmareLoop();
      } else if k == "DREAM" {
        r := ParseDreamLoop();
      } else if k == "PRAY" {
        r := ParsePray();
      } else if k == "REST" {
        r := ParseRest();
      } else if k == "IDENTIFIER" {
        r := ParseAssignment();
      } else {
        r := ParseExpression();
      }
    }

    /** `parse_dream_loop`. */
    method ParseDreamLoop() returns (r: Result<Node, ParseError>)
      requires Valid()
      modifies this
      decreases Left(tokens, pos), 6
      ensures Valid() && Follows(Grammar.ParseDreamLoop(tokens, old(pos)), r, pos)
    {
      var e := Expect("DREAM");
      if e.Err? {
        return Err(e.error);
      }
      e := Expect("LPAREN");
      if e.Err? {
        return Err(e.error);
      }
      StepLeft(tokens, old(pos));
      StepLeft(tokens, old(pos) + 1);
      var c := ParseExpression();
      if c.Err? {
        return Err(c.error);
      }
      e := Expect("RPAREN");
      if e.Err? {
        return Err(e.error);
      }
      StepLeft(tokens, pos - 1);
      var b := ParseBlock();
      if b.Err? {
        return Err(b.error);
      }
      return Ok(Loop(None, c.value, None, b.value));
    }

    /** `parse_assignment_or_expression`. */
    method ParseAssignment() returns (r: Result<Node, ParseError>)
      requires Valid()
      modifies this
      decreases Left(tokens, pos), 6
      ensures Valid() && Follows(Grammar.ParseAssignment(tokens, old(pos)), r, pos)
    {
      var name := ParseIdentifier();
      if current.0 != "ASSIGN" {
        return Err(Unexpected(current.0));
      }
      Advance();
      StepLeft(tokens, old(pos));
      StepLeft(tokens, old(pos) + 1);
      var e := ParseExpression();
      if e.Err? {
        return Err(e.error);
      }
      var s := Expect("SEMICOLON");
      if s.Err? {
        return Err(s.error);
      }
      StepLeft(tokens, pos - 1);
      return Ok(BinaryOp(Identifier(name), "ASSIGN", e.value));
    }

    /** `parse_declaration`. */
    method ParseDeclaration() returns (r: Result<Node, ParseError>)
      requires Valid()
      modifies this
      decreases Left(tokens, pos), 6
      ensures Valid() && Follows(Grammar.ParseDeclaration(tokens, old(pos)), r, pos)
    {
      var e := Expect("HUNTER");
      if e.Err? {
        return Err(e.error);
      }
      StepLeft(tokens, old(pos));
      var names := ParseIdentifierList();
      if names.Err? {
        return Err(names.error);
      }
      e := Expect("COLON");
      if e.Err? {
        return Err(e.error);
      }
      StepLeft(tokens, pos - 1);
      var varType := current.0;
      Advance();
      StepLeft(tokens, pos - 1);
      var expression := Initializer();
      if expression.Err? {
        return Err(expression.error);
      }
      e := Expect("SEMICOLON");
      if e.Err? {
        return Err(e.error);
      }
      StepLeft(tokens, pos - 1);
      return Ok(Declaration(names.value, Tag(varType), expression.value));
    }

    /** The optional `=> expression` of `parse_declaration`. */
    method Initializer() returns (r: Result<Option<Node>, ParseError>)
      requires Valid()
      modifies this
      decreases Left(tokens, pos), 5
      ensures Valid() && Follows(Grammar.Initializer(tokens, old(pos)), r, pos)
    {
      if current.0 != "ASSIGN" {
        return Ok(None);
      }
      Advance();
      StepLeft(tokens, old(pos));
      var x := ParseExpression();
      if x.Err? {
        return Err(x.error);
      }
      return Ok(Some(x.value));
    }

    /** `parse_identifier_list`, with its `while` loop. */
    method ParseIdentifierList() returns (r: Result<seq<string>, ParseError>)
      requires Valid()
      modifies this
      ensures Valid() && Follows(Grammar.ParseIdentifierList(tokens, old(pos)), r, pos)
    {
      var first := ParseIdentifier();
      var names := [first];
      while current.0 == "COMMA"
        invariant Valid()
        invariant MoreNames(tokens, pos, names) == Grammar.ParseIdentifierList(tokens, old(pos))
        decreases Left(tokens, pos)
      {
        if pos >= |tokens| {
          return Err(Diverges);
        }
        Advance();
        var name := ParseIdentifier();
        names := names + [name];
      }
      return Ok(names);
    }

    /** `parse_if_statement`. */
    method ParseIf() returns (r: Result<Node, ParseError>)
      requires Valid()
      modifies this
      decreases Left(tokens, pos), 6
      ensures Valid() && Follows(Grammar.ParseIf(tokens, old(pos)), r, pos)
    {
      var e := Expect("INSIGHT");
      if e.Err? {
        return Err(e.error);
      }
      e := Expect("LPAREN");
      if e.Err? {
        return Err(e.error);
      }
      StepLeft(tokens, old(pos));
      StepLeft(tokens, old(pos) + 1);
      var c := ParseExpression();
      if c.Err? {
        return Err(c.error);
      }
      e := Expect("RPAREN");
      if e.Err? {
        return Err(e.error);
      }
      StepLeft(tokens, pos - 1);
      var t := ParseBlock();
      if t.Err? {
        return Err(t.error);
      }
      var f := ElseBlock();
      if f.Err? {
        return Err(f.error);
      }
      return Ok(If(c.value, t.value, f.value));
    }

    /** The optional `MADNESS block` of `parse_if_statement`. */
    method ElseBlock() returns (r: Result<Option<Node>, ParseError>)
      requires Valid()
      modifies this
      decreases Left(tokens, pos), 10
      ensures Valid() && Follows(Grammar.ElseBlock(tokens, old(pos)), r, pos)
    {
      if current.0 != "MADNESS" {
        return Ok(None);
      }
      Advance();
      StepLeft(tokens, old(pos));
      var f := ParseBlock();
      if f.Err? {
        return Err(f.error);
      }
      return Ok(Some(f.value));
    }

    /** `parse_nightmare_loop`. */
    method ParseNightmareLoop() returns (r: Result<Node, ParseError>)
      requires Valid()
      modifies this
      decreases Left(tokens, pos), 6
      ensures Valid() && Follows(Grammar.ParseNightmareLoop(tokens, old(pos)), r, pos)
    {
      var e := Expect("NIGHTMARE");
      if e.Err? {
        return Err(e.error);
      }
      e := Expect("LPAREN");
      if e.Err? {
        return Err(e.error);
      }
      StepLeft(tokens, old(pos));
      StepLeft(tokens, old(pos) + 1);
      ghost var p2 := pos;
      var init := ParseExpression();
      if init.Err? {
        return Err(init.error);
      }
      e := Expect("SEMICOLON");
      if e.Err? {
        return Err(e.error);
      }
      StepLeft(tokens, pos - 1);
      var c := ParseExpression();
      if c.Err? {
        return Err(c.error);
      }
      e := Expect("SEMICOLON");
      if e.Err? {
        return Err(e.error);
      }
      StepLeft(tokens, pos - 1);
      var inc := ParseExpression();
      if inc.Err? {
        return Err(inc.error);
      }
      e := Expect("RPAREN");
      if e.Err? {
        return Err(e.error);
      }
      StepLeft(tokens, pos - 1);
      assert LoopHeader(tokens, p2) == Ok(((init.value, c.value, inc.value), pos));
      var b := ParseBlock();
      if b.Err? {
        return Err(b.error);
      }
      return Ok(Loop(Some(init.value), c.value, Some(inc.value), b.value));
    }

    /** `parse_pray`. */
    method ParsePray() returns (r: Result<Node, ParseError>)
      requires Valid()
      modifies this
      decreases Left(tokens, pos), 6
      ensures Valid() && Follows(Grammar.ParsePray(tokens, old(pos)), r, pos)
    {
      var e := Expect("PRAY");
      if e.Err? {
        return Err(e.error);
      }
      e := Expect("LPAREN");
      if e.Err? {
        return Err(e.error);
      }
      StepLeft(tokens, old(pos));
      StepLeft(tokens, old(pos) + 1);
      var x := ParseExpression();
      if x.Err? {
        return Err(x.error);
      }
      e := Expect("RPAREN");
      if e.Err? {
        return Err(e.error);
      }
      e := Expect("SEMICOLON");
      if e.Err? {
        return Err(e.error);
      }
      StepLeft(tokens, pos - 2);
      StepLeft(tokens, pos - 1);
      return Ok(FunctionCall(Builtin("PRAY"), [x.value]));
    }

    /** `parse_rest_statement`. */
    method ParseRest() returns (r: Result<Node, ParseError>)
      requires Valid()
      modifies this
      decreases Left(tokens, pos), 6
      ensures Valid() && Follows(Grammar.ParseRest(tokens, old(pos)), r, pos)
    {
      var e := Expect("REST");
      if e.Err? {
        return Err(e.error);
      }
      e := Expect("SEMICOLON");
      if e.Err? {
        return Err(e.error);
      }
      StepLeft(tokens, old(pos));
      StepLeft(tokens, old(pos) + 1);
      return Ok(Rest);
    }

    /** `parse_expression`, with its `while` loop. */
    method ParseExpression() returns (r: Result<Node, ParseError>)
      requires Valid()
      modifies this
      decreases Left(tokens, pos), 4
      ensures Valid() && Follows(Grammar.ParseExpression(tokens, old(pos)), r, pos)
    {
      var t := ParseTerm();
      if t.Err? {
        return Err(t.error);
      }
      var left := t.value;
      while IsOperator(current.0)
        invariant Valid() && Plain(left) && Expr(left) && Left(tokens, pos) <= Left(tokens, old(pos))
        invariant Operations(tokens, pos, left) == Grammar.ParseExpression(tokens, old(pos))
        decreases Left(tokens, pos)
      {
        var op := current.0;
        Advance();
        StepLeft(tokens, pos - 1);
        var right := ParseTerm();
        if right.Err? {
          return Err(right.error);
        }
        left := BinaryOp(left, op, right.value);
      }
      return Ok(left);
    }

    /** `parse_term`. */
    method ParseTerm() returns (r: Result<Node, ParseError>)
      requires Valid()
      modifies this
      decreases Left(tokens, pos), 2
      ensures Valid() && Follows(Grammar.ParseTerm(tokens, old(pos)), r, pos)
    {
      var k := current.0;
      StepLeft(tokens, pos);
      if k == "NUMBER" {
        var value := current.1;
        Advance();
        return Ok(Number(value));
      } else if k == "STRING" {
        var value := current.1;
        Advance();
        return Ok(Str(value));
      } else if k == "IDENTIFIER" {
        var name := ParseIdentifier();
        return Ok(Identifier(name));
      } else if k == "LPAREN" {
        var frozen := pos >= |tokens|;
        Advance();
        if frozen {
          return Err(RecursionOverflow);
        }
        var x := ParseExpression();
        if x.Err? {
          return Err(x.error);
        }
        var e := Expect("RPAREN");
        if e.Err? {
          return Err(e.error);
        }
        StepLeft(tokens, pos - 1);
        return x;
      } else {
        return Err(Unexpected(k));
      }
    }
  }
}
