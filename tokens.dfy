/**
 * The ordered rule table of BloodCodeCompiler/lexer/tokens.py.
 *
 * Every rule is a (kind, pattern) pair; the regular expressions of the
 * table are few enough to be written out as hand-made ASCII matchers
 * (`Pattern`).  `MatchLength(p, s)` is the length of the match of `p` at
 * the start of `s`, as Python's `re.match` would report it.
 */
module Tokens {
  import opened Wrappers

  /** The token kinds, in table order. */
  datatype Kind =
    | Nightmare | Dream | Hunter | Hunters | GreatOnes | Djura | Eileen | Blood | Maria | Gehrman
    | Rom | Drunkenness | Rest | Insight | Madness | Eyes | Pray | Vileblood | Bloodbond | OldBlood
    | Greater | Less | GreaterEqual | LessEqual | Equal | Assign | Not | Colon
    | LeftParenthesis | RightParenthesis | LeftBrace | RightBrace | Comma | Semicolon
    | Plus | Minus | Multiply | Divide
    | Light | Darkness | Comment | Whitespace
    | Number | StringLiteral | Identifier

  /** The kind's name as the table spells it. */
  function Name(k: Kind): string
  {
    match k
    case Nightmare => "NIGHTMARE"          case Dream => "DREAM"
    case Hunter => "HUNTER"                case Hunters => "HUNTERS"
    case GreatOnes => "GREATONES"          case Djura => "DJURA"
    case Eileen => "EILEEN"                case Blood => "BLOOD"
    case Maria => "MARIA"                  case Gehrman => "GEHRMAN"
    case Rom => "ROM"                      case Drunkenness => "DRUNKENNESS"
    case Rest => "REST"                    case Insight => "INSIGHT"
    case Madness => "MADNESS"              case Eyes => "EYES"
    case Pray => "PRAY"                    case Vileblood => "VILEBLOOD"
    case Bloodbond => "BLOODBOND"          case OldBlood => "OLDBLOOD"
    case Greater => "GREATER"              case Less => "LESS"
    case GreaterEqual => "GREATEREQUAL"    case LessEqual => "LESSEQUAL"
    case Equal => "EQUAL"                  case Assign => "ASSIGN"
    case Not => "NOT"                      case Colon => "COLON"
    case LeftParenthesis => "LEFTPARENTHESIS"
    case RightParenthesis => "RIGHTPARENTHESIS"
    case LeftBrace => "LEFTBRACE"          case RightBrace => "RIGHTBRACE"
    case Comma => "COMMA"                  case Semicolon => "SEMICOLON"
    case Plus => "PLUS"                    case Minus => "MINUS"
    case Multiply => "MULTIPLY"            case Divide => "DIVIDE"
    case Light => "LIGHT"                  case Darkness => "DARKNESS"
    case Comment => "COMMENT"              case Whitespace => "WHITESPACE"
    case Number => "NUMBER"                case StringLiteral => "STRING"
    case Identifier => "IDENTIFIER"
  }

  /**
   * The regular expressions of the table.  `Literal(w)` is a pattern
   * without metacharacters once its escapes are removed (`\(` is "(").
   */
  datatype Pattern =
    | Literal(text: string)   // Nightmare, >=, \( ...
    | LineComment             // //.*
    | Spaces                  // \s+
    | Decimal                 // \d+(\.\d+)?
    | Quoted                  // "[^"]*"
    | Word                    // [a-zA-Z_]\w*

  type Rule = (Kind, Pattern)

  /**
   * A rule list none of whose rules is the empty literal, so that every
   * match consumes at least one character and the lexer loop moves on.
   */
  type Table = t: seq<Rule> | NoEmptyRule(t) witness []

  predicate NoEmptyRule(table: seq<Rule>)
  {
    forall i :: 0 <= i < |table| ==> table[i].1 != Literal("")
  }

  /**
   * The rule list `tokens`, in the order the lexers try it.  The source
   * writes it as one list literal with blank lines between four groups;
   * here each group is one literal and the table is their concatenation.
   */
  const TokenTable: Table := KeywordRules + OperatorRules + MiscRules + LiteralRules

  const KeywordRules: seq<Rule> := [
    (Nightmare, Literal("Nightmare")),
    (Dream, Literal("Dream")),
    (Hunter, Literal("Hunter")),
    (Hunters, Literal("Hunters")),
    (GreatOnes, Literal("GreatOnes")),
    (Djura, Literal("Djura")),
    (Eileen, Literal("Eileen")),
    (Blood, Literal("Blood")),
    (Maria, Literal("Maria")),
    (Gehrman, Literal("Gehrman")),
    (Rom, Literal("Rom")),
    (Drunkenness, Literal("Drunkenness")),
    (Rest, Literal("Rest")),
    (Insight, Literal("Insight")),
    (Madness, Literal("Madness")),
    (Eyes, Literal("Eyes")),
    (Pray, Literal("Pray")),
    (Vileblood, Literal("Vileblood")),
    (Bloodbond, Literal("Bloodbond")),
    (OldBlood, Literal("OldBlood"))
  ]

  const OperatorRules: seq<Rule> := [
    (Greater, Literal(">")),
    (Less, Literal("<")),
    (GreaterEqual, Literal(">=")),
    (LessEqual, Literal("<=")),
    (Equal, Literal("==")),
    (Assign, Literal("=>")),
    (Not, Literal("!=")),
    (Colon, Literal(":")),
    (LeftParenthesis, Literal("(")),
    (RightParenthesis, Literal(")")),
    (LeftBrace, Literal("{")),
    (RightBrace, Literal("}")),
    (Comma, Literal(",")),
    (Semicolon, Literal(";")),
    (Plus, Literal("+")),
    (Minus, Literal("-")),
    (Multiply, Literal("*")),
    (Divide, Literal("/"))
  ]

  const MiscRules: seq<Rule> := [
    (Light, Literal("Light")),
    (Darkness, Literal("Darkness")),
    (Comment, LineComment),
    (Whitespace, Spaces)
  ]

  const LiteralRules: seq<Rule> := [
    (Number, Decimal),
    (StringLiteral, Quoted),
    (Identifier, Word)
  ]

  /** Position of each kind in `TokenTable`. */
  function Rank(k: Kind): nat
  {
    match k
    case Nightmare => 0     case Dream => 1        case Hunter => 2       case Hunters => 3
    case GreatOnes => 4     case Djura => 5        case Eileen => 6       case Blood => 7
    case Maria => 8         case Gehrman => 9      case Rom => 10         case Drunkenness => 11
    case Rest => 12         case Insight => 13     case Madness => 14     case Eyes => 15
    case Pray => 16         case Vileblood => 17   case Bloodbond => 18   case OldBlood => 19
    case Greater => 20      case Less => 21        case GreaterEqual => 22
    case LessEqual => 23    case Equal => 24       case Assign => 25      case Not => 26
    case Colon => 27        case LeftParenthesis => 28                    case RightParenthesis => 29
    case LeftBrace => 30    case RightBrace => 31  case Comma => 32       case Semicolon => 33
    case Plus => 34         case Minus => 35       case Multiply => 36    case Divide => 37
    case Light => 38        case Darkness => 39    case Comment => 40     case Whitespace => 41
    case Number => 42       case StringLiteral => 43                      case Identifier => 44
  }

  lemma TableLength()
    ensures |TokenTable| == 45
  {
  }

  lemma KindAtRank(k: Kind)
    ensures Rank(k) < |TokenTable| && TokenTable[Rank(k)].0 == k
  {
    if Rank(k) < 20 {
      KeywordKindAtRank(k);
    } else if Rank(k) < 38 {
      OperatorKindAtRank(k);
    } else {
      OtherKindAtRank(k);
    }
  }

  lemma KeywordKindAtRank(k: Kind)
    requires Rank(k) < 20
    ensures Rank(k) < |TokenTable| && TokenTable[Rank(k)].0 == k
  {
    GroupsOfTable();
    match k
    case Nightmare => assert KeywordRules[0].0 == Nightmare;
    case Dream => assert KeywordRules[1].0 == Dream;
    case Hunter => assert KeywordRules[2].0 == Hunter;
    case Hunters => assert KeywordRules[3].0 == Hunters;
    case GreatOnes => assert KeywordRules[4].0 == GreatOnes;
    case Djura => assert KeywordRules[5].0 == Djura;
    case Eileen => assert KeywordRules[6].0 == Eileen;
    case Blood => assert KeywordRules[7].0 == Blood;
    case Maria => assert KeywordRules[8].0 == Maria;
    case Gehrman => assert KeywordRules[9].0 == Gehrman;
    case Rom => assert KeywordRules[10].0 == Rom;
    case Drunkenness => assert KeywordRules[11].0 == Drunkenness;
    case Rest => assert KeywordRules[12].0 == Rest;
    case Insight => assert KeywordRules[13].0 == Insight;
    case Madness => assert KeywordRules[14].0 == Madness;
    case Eyes => assert KeywordRules[15].0 == Eyes;
    case Pray => assert KeywordRules[16].0 == Pray;
    case Vileblood => assert KeywordRules[17].0 == Vileblood;
    case Bloodbond => assert KeywordRules[18].0 == Bloodbond;
    case OldBlood => assert KeywordRules[19].0 == OldBlood;
    case _ => assert false;
  }

  lemma OperatorKindAtRank(k: Kind)
    requires 20 <= Rank(k) < 38
    ensures Rank(k) < |TokenTable| && TokenTable[Rank(k)].0 == k
  {
    GroupsOfTable();
    match k
    case Greater => assert OperatorRules[0].0 == Greater;
    case Less => assert OperatorRules[1].0 == Less;
    case GreaterEqual => assert OperatorRules[2].0 == GreaterEqual;
    case LessEqual => assert OperatorRules[3].0 == LessEqual;
    case Equal => assert OperatorRules[4].0 == Equal;
    case Assign => assert OperatorRules[5].0 == Assign;
    case Not => assert OperatorRules[6].0 == Not;
    case Colon => assert OperatorRules[7].0 == Colon;
    case LeftParenthesis => assert OperatorRules[8].0 == LeftParenthesis;
    case RightParenthesis => assert OperatorRules[9].0 == RightParenthesis;
    case LeftBrace => assert OperatorRules[10].0 == LeftBrace;
    case RightBrace => assert OperatorRules[11].0 == RightBrace;
    case Comma => assert OperatorRules[12].0 == Comma;
    case Semicolon => assert OperatorRules[13].0 == Semicolon;
    case Plus => assert OperatorRules[14].0 == Plus;
    case Minus => assert OperatorRules[15].0 == Minus;
    case Multiply => assert OperatorRules[16].0 == Multiply;
    case Divide => assert OperatorRules[17].0 == Divide;
    case _ => assert false;
  }

  lemma OtherKindAtRank(k: Kind)
    requires 38 <= Rank(k)
    ensures Rank(k) < |TokenTable| && TokenTable[Rank(k)].0 == k
  {
    GroupsOfTable();
    match k
    case Light => assert MiscRules[0].0 == Light;
    case Darkness => assert MiscRules[1].0 == Darkness;
    case Comment => assert MiscRules[2].0 == Comment;
    case Whitespace => assert MiscRules[3].0 == Whitespace;
    case Number => assert LiteralRules[0].0 == Number;
    case StringLiteral => assert LiteralRules[1].0 == StringLiteral;
    case Identifier => assert LiteralRules[2].0 == Identifier;
    case _ => assert false;
  }

  lemma GroupsOfTable()
    ensures |KeywordRules| == 20 && |OperatorRules| == 18 && |MiscRules| == 4 && |LiteralRules| == 3
    ensures forall i :: 0 <= i < 20 ==> TokenTable[i] == KeywordRules[i]
    ensures forall i :: 20 <= i < 38 ==> TokenTable[i] == OperatorRules[i - 20]
    ensures forall i :: 38 <= i < 42 ==> TokenTable[i] == MiscRules[i - 38]
    ensures forall i :: 42 <= i < 45 ==> TokenTable[i] == LiteralRules[i - 42]
  {
  }

  lemma RankAt(i: nat)
    requires i < |TokenTable|
    ensures Rank(TokenTable[i].0) == i
  {
    GroupsOfTable();
    if i < 20 {
      KeywordRank(i);
    } else if i < 38 {
      OperatorRank(i - 20);
    } else if i < 42 {
      MiscRank(i - 38);
    } else {
      LiteralRank(i - 42);
    }
  }

  lemma KeywordRank(j: nat)
    requires j < |KeywordRules|
    ensures Rank(KeywordRules[j].0) == j
  {
    if j < 5 {
      KeywordRank0(j);
    } else if j < 10 {
      KeywordRank5(j);
    } else if j < 15 {
      KeywordRank10(j);
    } else {
      KeywordRank15(j);
    }
  }

  /** `KeywordRank` for the rules 0 to 4 of the group. */
  lemma KeywordRank0(j: nat)
    requires j < 5
    ensures Rank(KeywordRules[j].0) == j
  {
    if j == 0 {
      assert KeywordRules[0].0 == Nightmare;
    } else if j == 1 {
      assert KeywordRules[1].0 == Dream;
    } else if j == 2 {
      assert KeywordRules[2].0 == Hunter;
    } else if j == 3 {
      assert KeywordRules[3].0 == Hunters;
    } else {
      assert KeywordRules[4].0 == GreatOnes;
    }
  }

  /** `KeywordRank` for the rules 5 to 9 of the group. */
  lemma KeywordRank5(j: nat)
    requires 5 <= j < 10
    ensures Rank(KeywordRules[j].0) == j
  {
    if j == 5 {
      assert KeywordRules[5].0 == Djura;
    } else if j == 6 {
      assert KeywordRules[6].0 == Eileen;
    } else if j == 7 {
      assert KeywordRules[7].0 == Blood;
    } else if j == 8 {
      assert KeywordRules[8].0 == Maria;
    } else {
      assert KeywordRules[9].0 == Gehrman;
    }
  }

  /** `KeywordRank` for the rules 10 to 14 of the group. */
  lemma KeywordRank10(j: nat)
    requires 10 <= j < 15
    ensures Rank(KeywordRules[j].0) == j
  {
    if j == 10 {
      assert KeywordRules[10].0 == Rom;
    } else if j == 11 {
      assert KeywordRules[11].0 == Drunkenness;
    } else if j == 12 {
      assert KeywordRules[12].0 == Rest;
    } else if j == 13 {
      assert KeywordRules[13].0 == Insight;
    } else {
      assert KeywordRules[14].0 == Madness;
    }
  }

  /** `KeywordRank` for the rules 15 to 19 of the group. */
  lemma KeywordRank15(j: nat)
    requires 15 <= j < 20
    ensures Rank(KeywordRules[j].0) == j
  {
    if j == 15 {
      assert KeywordRules[15].0 == Eyes;
    } else if j == 16 {
      assert KeywordRules[16].0 == Pray;
    } else if j == 17 {
      assert KeywordRules[17].0 == Vileblood;
    } else if j == 18 {
      assert KeywordRules[18].0 == Bloodbond;
    } else {
      assert KeywordRules[19].0 == OldBlood;
    }
  }

  lemma OperatorRank(j: nat)
    requires j < |OperatorRules|
    ensures Rank(OperatorRules[j].0) == j + 20
  {
    if j < 5 {
      OperatorRank0(j);
    } else if j < 10 {
      OperatorRank5(j);
    } else if j < 15 {
      OperatorRank10(j);
    } else {
      OperatorRank15(j);
    }
  }

  /** `OperatorRank` for the rules 0 to 4 of the group. */
  lemma OperatorRank0(j: nat)
    requires j < 5
    ensures Rank(OperatorRules[j].0) == j + 20
  {
    if j == 0 {
      assert OperatorRules[0].0 == Greater;
    } else if j == 1 {
      assert OperatorRules[1].0 == Less;
    } else if j == 2 {
      assert OperatorRules[2].0 == GreaterEqual;
    } else if j == 3 {
      assert OperatorRules[3].0 == LessEqual;
    } else {
      assert OperatorRules[4].0 == Equal;
    }
  }

  /** `OperatorRank` for the rules 5 to 9 of the group. */
  lemma OperatorRank5(j: nat)
    requires 5 <= j < 10
    ensures Rank(OperatorRules[j].0) == j + 20
  {
    if j == 5 {
      assert OperatorRules[5].0 == Assign;
    } else if j == 6 {
      assert OperatorRules[6].0 == Not;
    } else if j == 7 {
      assert OperatorRules[7].0 == Colon;
    } else if j == 8 {
      assert OperatorRules[8].0 == LeftParenthesis;
    } else {
      assert OperatorRules[9].0 == RightParenthesis;
    }
  }

  /** `OperatorRank` for the rules 10 to 14 of the group. */
  lemma OperatorRank10(j: nat)
    requires 10 <= j < 15
    ensures Rank(OperatorRules[j].0) == j + 20
  {
    if j == 10 {
      assert OperatorRules[10].0 == LeftBrace;
    } else if j == 11 {
      assert OperatorRules[11].0 == RightBrace;
    } else if j == 12 {
      assert OperatorRules[12].0 == Comma;
    } else if j == 13 {
      assert OperatorRules[13].0 == Semicolon;
    } else {
      assert OperatorRules[14].0 == Plus;
    }
  }

  /** `OperatorRank` for the rules 15 to 17 of the group. */
  lemma OperatorRank15(j: nat)
    requires 15 <= j < 18
    ensures Rank(OperatorRules[j].0) == j + 20
  {
    if j == 15 {
      assert OperatorRules[15].0 == Minus;
    } else if j == 16 {
      assert OperatorRules[16].0 == Multiply;
    } else {
      assert OperatorRules[17].0 == Divide;
    }
  }

  lemma MiscRank(j: nat)
    requires j < |MiscRules|
    ensures Rank(MiscRules[j].0) == j + 38
  {
    if j == 0 {
      assert MiscRules[0].0 == Light;
    } else if j == 1 {
      assert MiscRules[1].0 == Darkness;
    } else if j == 2 {
      assert MiscRules[2].0 == Comment;
    } else {
      assert MiscRules[3].0 == Whitespace;
    }
  }

  lemma LiteralRank(j: nat)
    requires j < |LiteralRules|
    ensures Rank(LiteralRules[j].0) == j + 42
  {
    if j == 0 {
      assert LiteralRules[0].0 == Number;
    } else if j == 1 {
      assert LiteralRules[1].0 == StringLiteral;
    } else {
      assert LiteralRules[2].0 == Identifier;
    }
  }

  /* ---------------------------------------------------------------- */
  /* Matchers                                                           */
  /* ---------------------------------------------------------------- */

  predicate IsDigit(c: char) { '0' <= c <= '9' }

  /** `\s` on ASCII text: space, tab, newline, vertical tab, form feed, carriage return, and the separators \x1c to \x1f. */
  predicate IsSpace(c: char) { c == ' ' || '\t' <= c <= '\r' || '\U{1c}' <= c <= '\U{1f}' }

  predicate IsWordStart(c: char) { 'a' <= c <= 'z' || 'A' <= c <= 'Z' || c == '_' }

  /** `\w` on ASCII text. */
  predicate IsWordChar(c: char) { IsWordStart(c) || IsDigit(c) }

  /** Length of the longest prefix of `s` whose characters all satisfy `p`. */
  function Span(s: string, p: char -> bool): (n: nat)
    ensures n <= |s|
    ensures forall i :: 0 <= i < n ==> p(s[i])
    ensures n < |s| ==> !p(s[n])
  {
    if s == [] || !p(s[0]) then 0 else 1 + Span(s[1..], p)
  }

  /**
   * Length of the match of `p` at the start of `s` (Python's
   * `re.match(pattern, s)`), or None when it does not match there.
   */
  function MatchLength(p: Pattern, s: string): (r: Option<nat>)
    ensures r.Some? ==> r.value <= |s|
    ensures r.Some? && p != Literal("") ==> r.value > 0
    ensures r.Some? && r.value > 0 ==> CanStart(p, s[0])
  {
    match p
    case Literal(w) =>
      if |w| <= |s| && s[..|w|] == w then Some(|w|) else None
    case LineComment =>
      if 2 <= |s| && s[..2] == "//" then Some(2 + Span(s[2..], NotNewline)) else None
    case Spaces =>
      var n := Span(s, IsSpace);
      if n > 0 then Some(n) else None
    case Decimal =>
      var n := Span(s, IsDigit);
      if n == 0 then None
      else if n < |s| && s[n] == '.' && Span(s[n + 1..], IsDigit) > 0 then Some(n + 1 + Span(s[n + 1..], IsDigit))
      else Some(n)
    case Quoted =>
      if 0 < |s| && s[0] == '"' && 1 + Span(s[1..], NotQuote) < |s|
      then Some(2 + Span(s[1..], NotQuote))
      else None
    case Word =>
      if 0 < |s| && IsWordStart(s[0]) then Some(1 + Span(s[1..], IsWordChar)) else None
  }

  predicate NotNewline(c: char) { c != '\n' }

  predicate NotQuote(c: char) { c != '"' }

  /** The characters a match of `p` can begin with. */
  predicate CanStart(p: Pattern, c: char)
  {
    match p
    case Literal(w) => |w| > 0 && w[0] == c
    case LineComment => c == '/'
    case Spaces => IsSpace(c)
    case Decimal => IsDigit(c)
    case Quoted => c == '"'
    case Word => IsWordStart(c)
  }

  /* ---------------------------------------------------------------- */
  /* First match in table order                                         */
  /* ---------------------------------------------------------------- */

  /** The winning rule at a position: its index in the table, its kind, and the match length. */
  datatype Hit = Hit(rule: nat, kind: Kind, len: nat)

  /** Rule `r` matches at the start of `s`. */
  predicate RuleMatches(r: Rule, s: string)
  {
    MatchLength(r.1, s).Some?
  }

  /** Rule `i` of the table matches at the start of `s`. */
  predicate Matches(i: nat, s: string)
    requires i < |TokenTable|
  {
    RuleMatches(TokenTable[i], s)
  }

  /** The first rule of `table` at or after index `i` that matches at the start of `s`. */
  function FirstMatchFrom(table: seq<Rule>, s: string, i: nat): (r: Option<Hit>)
    requires i <= |table|
    decreases |table| - i
    ensures r.Some? ==> i <= r.value.rule < |table| && r.value.len <= |s|
  {
    if i == |table| then None
    else if RuleMatches(table[i], s) then Some(Hit(i, table[i].0, MatchLength(table[i].1, s).value))
    else FirstMatchFrom(table, s, i + 1)
  }

  /** `FirstMatchFrom` returns a rule that matches, with that rule's kind and match length. */
  lemma {:induction false} FirstMatchFromHit(table: seq<Rule>, s: string, i: nat)
    requires i <= |table|
    decreases |table| - i
    ensures var r := FirstMatchFrom(table, s, i);
      r.Some? ==> (RuleMatches(table[r.value.rule], s) && r.value.kind == table[r.value.rule].0
                   && MatchLength(table[r.value.rule].1, s) == Some(r.value.len))
  {
    if i < |table| && !RuleMatches(table[i], s) {
      FirstMatchFromHit(table, s, i + 1);
    }
  }

  /** No rule from `i` up to the one `FirstMatchFrom` returns matches; with no result, none from `i` on does. */
  lemma {:induction false} FirstMatchFromEarliest(table: seq<Rule>, s: string, i: nat)
    requires i <= |table|
    decreases |table| - i
    ensures forall j :: i <= j < (if FirstMatchFrom(table, s, i).Some? then FirstMatchFrom(table, s, i).value.rule else |table|)
                        ==> !RuleMatches(table[j], s)
  {
    if i < |table| && !RuleMatches(table[i], s) {
      FirstMatchFromEarliest(table, s, i + 1);
    }
  }

  /**
   * What both lexers do at one position: try the rules of `table` in
   * order and keep the first that matches, whatever the length of later
   * matches.  The winner always consumes at least one character.  (Which
   * rule wins is stated by `FirstInSpec`.)
   */
  function FirstIn(table: Table, s: string): (r: Option<Hit>)
    ensures r.Some? ==> r.value.rule < |table| && 0 < r.value.len <= |s|
  {
    var r := FirstMatchFrom(table, s, 0);
    if r.Some? then FirstMatchFromHit(table, s, 0); r else r
  }

  /**
   * The winner is the earliest rule of `table` that matches at the start
   * of `s`, with its kind and its match length; there is no winner only
   * when no rule matches.
   */
  lemma FirstInSpec(table: Table, s: string)
    ensures var r := FirstIn(table, s);
      r.Some? ==> (RuleMatches(table[r.value.rule], s) && r.value.kind == table[r.value.rule].0
                   && MatchLength(table[r.value.rule].1, s) == Some(r.value.len))
    ensures FirstIn(table, s).Some? ==> forall j :: 0 <= j < FirstIn(table, s).value.rule ==> !RuleMatches(table[j], s)
    ensures FirstIn(table, s).None? <==> forall j :: 0 <= j < |table| ==> !RuleMatches(table[j], s)
  {
    FirstMatchFromHit(table, s, 0);
    FirstMatchFromEarliest(table, s, 0);
  }

  /** First match in the table of the language. */
  function FirstMatch(s: string): (r: Option<Hit>)
    ensures r.Some? ==> r.value.rule < |TokenTable| && 0 < r.value.len <= |s|
  {
    FirstIn(TokenTable, s)
  }

  /** `FirstInSpec` for the table of the language. */
  lemma FirstMatchSpec(s: string)
    ensures var r := FirstMatch(s);
      r.Some? ==> (Matches(r.value.rule, s) && r.value.kind == TokenTable[r.value.rule].0
                   && MatchLength(TokenTable[r.value.rule].1, s) == Some(r.value.len))
    ensures FirstMatch(s).Some? ==> forall j :: 0 <= j < FirstMatch(s).value.rule ==> !Matches(j, s)
    ensures FirstMatch(s).None? <==> forall j :: 0 <= j < |TokenTable| ==> !Matches(j, s)
  {
    FirstInSpec(TokenTable, s);
    if FirstMatch(s).Some? {
      assert Matches(FirstMatch(s).value.rule, s);
    }
  }

  /* ---------------------------------------------------------------- */
  /* Properties of the table                                            */
  /* ---------------------------------------------------------------- */

  predicate IsLower(c: char) { 'a' <= c <= 'z' }

  /** No rule of the table is the empty literal, so no rule matches the empty string. */
  lemma NonEmptyPattern(i: nat)
    requires i < |TokenTable|
    ensures TokenTable[i].1 != Literal("")
  {
    GroupsOfTable();
    if i < 20 {
      KeywordStarts(i);
    } else if i < 38 {
      OperatorStarts(i - 20);
    }
  }

  /**
   * Every literal of the table begins with an upper-case letter or a
   * symbol: the only rule that can begin with a lower-case letter is the
   * last one, IDENTIFIER.
   */
  lemma NoLowerStartBefore(i: nat, c: char)
    requires i < Rank(Identifier) && IsLower(c)
    ensures !CanStart(TokenTable[i].1, c)
  {
    GroupsOfTable();
    if i < 20 {
      KeywordStarts(i);
    } else if i < 38 {
      OperatorStarts(i - 20);
    }
  }

  lemma KeywordStarts(j: nat)
    requires j < |KeywordRules|
    ensures KeywordRules[j].1.Literal? && |KeywordRules[j].1.text| > 0
    ensures 'A' <= KeywordRules[j].1.text[0] <= 'Z'
  {
  }

  lemma OperatorStarts(j: nat)
    requires j < |OperatorRules|
    ensures OperatorRules[j].1.Literal? && |OperatorRules[j].1.text| > 0
    ensures !IsWordStart(OperatorRules[j].1.text[0])
  {
  }

  /** The first match is at or before any rule that matches. */
  lemma FirstMatchAtOrBefore(s: string, i: nat)
    requires i < |TokenTable| && Matches(i, s)
    ensures FirstMatch(s).Some? && FirstMatch(s).value.rule <= i
  {
    FirstMatchSpec(s);
  }

  /** The kind of a hit determines its rule: the table lists each kind once. */
  lemma HitRule(s: string)
    requires FirstMatch(s).Some?
    ensures FirstMatch(s).value.rule == Rank(FirstMatch(s).value.kind)
  {
    FirstMatchSpec(s);
    RankAt(FirstMatch(s).value.rule);
  }

  /** Where a literal matches, every prefix of it matches too. */
  lemma PrefixMatches(s: string, u: string, w: string)
    requires u <= w && MatchLength(Literal(w), s).Some?
    ensures MatchLength(Literal(u), s).Some?
  {
    assert s[..|u|] == s[..|w|][..|u|];
  }

  /** An earlier literal that is a prefix of a later literal wins wherever the later one matches. */
  lemma PrefixShadows(s: string, i: nat, j: nat)
    requires i < j < |TokenTable|
    requires TokenTable[i].1.Literal? && TokenTable[j].1.Literal?
    requires TokenTable[i].1.text <= TokenTable[j].1.text
    ensures FirstMatch(s).Some? ==> FirstMatch(s).value.rule != j
  {
    FirstMatchSpec(s);
    if Matches(j, s) {
      PrefixMatches(s, TokenTable[i].1.text, TokenTable[j].1.text);
      FirstMatchAtOrBefore(s, i);
    }
  }

  /** The table entries that shadow one another. */
  lemma ShadowingEntries()
    ensures TokenTable[2] == (Hunter, Literal("Hunter")) && TokenTable[3] == (Hunters, Literal("Hunters"))
    ensures TokenTable[7] == (Blood, Literal("Blood")) && TokenTable[18] == (Bloodbond, Literal("Bloodbond"))
    ensures TokenTable[20] == (Greater, Literal(">")) && TokenTable[22] == (GreaterEqual, Literal(">="))
    ensures TokenTable[21] == (Less, Literal("<")) && TokenTable[23] == (LessEqual, Literal("<="))
    ensures TokenTable[37] == (Divide, Literal("/")) && TokenTable[40] == (Comment, LineComment)
  {
    GroupsOfTable();
    assert TokenTable[2] == KeywordRules[2] && TokenTable[3] == KeywordRules[3];
    assert TokenTable[7] == KeywordRules[7] && TokenTable[18] == KeywordRules[18];
    assert TokenTable[20] == OperatorRules[0] && TokenTable[22] == OperatorRules[2];
    assert TokenTable[21] == OperatorRules[1] && TokenTable[23] == OperatorRules[3];
    assert TokenTable[37] == OperatorRules[17] && TokenTable[40] == MiscRules[2];
  }

  /** A kind whose literal extends an earlier literal of the table is never produced. */
  lemma ShadowedKind(s: string, i: nat, j: nat)
    requires i < j < |TokenTable|
    requires TokenTable[i].1.Literal? && TokenTable[j].1.Literal?
    requires TokenTable[i].1.text <= TokenTable[j].1.text
    ensures FirstMatch(s).Some? ==> FirstMatch(s).value.kind != TokenTable[j].0
  {
    if FirstMatch(s).Some? {
      HitRule(s);
      RankAt(j);
      PrefixShadows(s, i, j);
    }
  }

  /** `>` and `<` come before `>=` and `<=`: GREATEREQUAL and LESSEQUAL are never produced. */
  lemma ComparisonShadowing(s: string)
    ensures FirstMatch(s).Some? ==> FirstMatch(s).value.kind != GreaterEqual
    ensures FirstMatch(s).Some? ==> FirstMatch(s).value.kind != LessEqual
  {
    ShadowingEntries();
    ShadowedKind(s, 20, 22);
    ShadowedKind(s, 21, 23);
  }

  /** Hunter comes before Hunters and Blood before Bloodbond: HUNTERS and BLOODBOND are never produced. */
  lemma KeywordShadowing(s: string)
    ensures FirstMatch(s).Some? ==> FirstMatch(s).value.kind != Hunters
    ensures FirstMatch(s).Some? ==> FirstMatch(s).value.kind != Bloodbond
  {
    ShadowingEntries();
    ShadowedKind(s, 2, 3);
    ShadowedKind(s, 7, 18);
  }

  /** DIVIDE `/` comes before COMMENT `//.*`: COMMENT is never produced. */
  lemma CommentShadowing(s: string)
    ensures FirstMatch(s).Some? ==> FirstMatch(s).value.kind != Comment
  {
    ShadowingEntries();
    FirstMatchSpec(s);
    if FirstMatch(s).Some? {
      HitRule(s);
      RankAt(40);
      if Matches(40, s) {
        assert s[..1] == s[..2][..1];
        FirstMatchAtOrBefore(s, 37);
      }
    }
  }

  /** IDENTIFIER is the last rule of the table, and the only one matching a word. */
  lemma IdentifierEntry()
    ensures Rank(Identifier) == |TokenTable| - 1
    ensures TokenTable[Rank(Identifier)] == (Identifier, Word)
  {
    GroupsOfTable();
    assert TokenTable[44] == LiteralRules[2];
  }

  /**
   * A literal rule (every keyword among them) that matches at the head of
   * the input always beats IDENTIFIER, because IDENTIFIER is last: the
   * winner is that rule or an earlier one.  So an exact keyword spelling
   * never lexes as IDENTIFIER, and a word that begins with a keyword
   * spelling is split after the keyword.
   */
  lemma LiteralBeatsIdentifier(s: string, k: Kind)
    requires TokenTable[Rank(k)].1.Literal?
    requires TokenTable[Rank(k)].1.text <= s
    ensures FirstMatch(s).Some? && FirstMatch(s).value.rule <= Rank(k)
    ensures FirstMatch(s).value.kind != Identifier
  {
    var w := TokenTable[Rank(k)].1.text;
    assert s[..|w|] == w;
    KindAtRank(k);
    IdentifierEntry();
    FirstMatchAtOrBefore(s, Rank(k));
    HitRule(s);
  }

  /**
   * Keyword rules are case-sensitive in the table the lexers use: a word
   * that starts with a lower-case letter ("nightmare") matches no keyword
   * and lexes as one IDENTIFIER covering the whole word.
   */
  lemma LowerCaseWordIsIdentifier(s: string)
    requires |s| > 0 && IsLower(s[0])
    ensures FirstMatch(s) == Some(Hit(Rank(Identifier), Identifier, 1 + Span(s[1..], IsWordChar)))
  {
    IdentifierEntry();
    LowerCaseMissesEarlierRules(s);
    WordMatchesIdentifier(s);
    FirstMatchSpec(s);
  }

  /** No rule before IDENTIFIER matches text that starts with a lower-case letter. */
  lemma LowerCaseMissesEarlierRules(s: string)
    requires |s| > 0 && IsLower(s[0])
    ensures forall j :: 0 <= j < |TokenTable| - 1 ==> !Matches(j, s)
  {
    forall j | 0 <= j < |TokenTable| - 1
      ensures !Matches(j, s)
    {
      NoLowerStartBefore(j, s[0]);
      NonEmptyPattern(j);
    }
  }

  /** The IDENTIFIER rule takes the whole word at the head of text that starts with a lower-case letter. */
  lemma WordMatchesIdentifier(s: string)
    requires |s| > 0 && IsLower(s[0])
    ensures Matches(|TokenTable| - 1, s)
    ensures MatchLength(TokenTable[|TokenTable| - 1].1, s) == Some(1 + Span(s[1..], IsWordChar))
  {
    IdentifierEntry();
  }

  /* ---------------------------------------------------------------- */
  /* Shapes of NUMBER and STRING lexemes                                */
  /* ---------------------------------------------------------------- */

  /**
   * A NUMBER lexeme is one or more digits with at most one '.', which
   * sits between digits; the match is greedy, so the character after it
   * is not a digit.
   */
  lemma NumberLexeme(s: string)
    requires MatchLength(Decimal, s).Some?
    ensures var n := MatchLength(Decimal, s).value;
      0 < n && IsDigit(s[0]) && IsDigit(s[n - 1]) && (n < |s| ==> !IsDigit(s[n]))
    ensures forall i :: 0 <= i < MatchLength(Decimal, s).value && s[i] != '.' ==> IsDigit(s[i])
    ensures forall i, j :: 0 <= i < j < MatchLength(Decimal, s).value && s[i] == '.' ==> s[j] != '.'
  {
    var d := Span(s, IsDigit);
    if d < |s| && s[d] == '.' && Span(s[d + 1..], IsDigit) > 0 {
      var f := Span(s[d + 1..], IsDigit);
      assert forall i :: d < i < d + 1 + f ==> s[i] == s[d + 1..][i - d - 1];
    }
  }

  /** A run of digits not followed by a digit or by '.' and a digit is one whole NUMBER lexeme. */
  lemma NumeralMatch(digits: string, rest: string)
    requires |digits| > 0 && forall i :: 0 <= i < |digits| ==> IsDigit(digits[i])
    requires rest == [] || (!IsDigit(rest[0]) && rest[0] != '.')
    ensures MatchLength(Decimal, digits + rest) == Some(|digits|)
  {
    SpanOfRun(digits, rest, IsDigit);
  }

  /** Span stops exactly at the end of a run of characters satisfying `p` followed by one that does not. */
  lemma {:induction false} SpanOfRun(run: string, rest: string, p: char -> bool)
    requires forall i :: 0 <= i < |run| ==> p(run[i])
    requires rest == [] || !p(rest[0])
    ensures Span(run + rest, p) == |run|
  {
    if run != [] {
      assert (run + rest)[1..] == run[1..] + rest;
      SpanOfRun(run[1..], rest, p);
    } else {
      assert run + rest == rest;
    }
  }

  /**
   * A STRING lexeme runs from a '"' to the first following '"', newlines
   * included; without a closing quote the rule does not match at all.
   */
  lemma StringLexeme(s: string)
    ensures MatchLength(Quoted, s).Some? ==> var n := MatchLength(Quoted, s).value;
      2 <= n && s[0] == '"' && s[n - 1] == '"' && forall i :: 0 < i < n - 1 ==> s[i] != '"'
    ensures MatchLength(Quoted, s).None? <==> (|s| == 0 || s[0] != '"' || forall i :: 0 < i < |s| ==> s[i] != '"')
  {
    if 0 < |s| && s[0] == '"' {
      var n := Span(s[1..], NotQuote);
      assert forall i :: 0 < i <= n ==> s[i] == s[1..][i - 1];
      if 1 + n < |s| {
        assert s[1 + n] == s[1..][n];
      } else {
        assert forall i :: 0 < i < |s| ==> s[i] == s[1..][i - 1];
      }
    }
  }

  /* ---------------------------------------------------------------- */
  /* compiled_tokens                                                    */
  /* ---------------------------------------------------------------- */

  /** One entry of `compiled_tokens`: a kind and its pattern compiled with re.IGNORECASE. */
  datatype CompiledRule = CompiledRule(kind: Kind, pattern: Pattern, ignoreCase: bool)

  /**
   * `compiled_tokens`: the rules of the table, same kinds in the same
   * order, each compiled case-insensitively.  Neither lexer reads it.
   */
  function CompiledTokens(): (r: seq<CompiledRule>)
    ensures |r| == |TokenTable|
    ensures forall i :: 0 <= i < |r| ==> r[i].kind == TokenTable[i].0 && r[i].pattern == TokenTable[i].1
    ensures forall i :: 0 <= i < |r| ==> r[i].ignoreCase
  {
    seq(|TokenTable|, i requires 0 <= i < |TokenTable| => CompiledRule(TokenTable[i].0, TokenTable[i].1, true))
  }

  /** ASCII case folding, as re.IGNORECASE applies it to ASCII letters. */
  function Fold(c: char): char
  {
    if 'A' <= c <= 'Z' then (c as int + 32) as char else c
  }

  predicate SameIgnoringCase(a: string, b: string)
  {
    |a| == |b| && forall i :: 0 <= i < |a| ==> Fold(a[i]) == Fold(b[i])
  }

  /**
   * Length of the match of a compiled rule.  Case-insensitivity changes
   * only the literals: the character classes of the other patterns are
   * closed under ASCII case already.
   */
  function CompiledMatchLength(c: CompiledRule, s: string): (r: Option<nat>)
    ensures r.Some? ==> r.value <= |s|
  {
    match c.pattern
    case Literal(w) =>
      if !c.ignoreCase then MatchLength(c.pattern, s)
      else if |w| <= |s| && SameIgnoringCase(s[..|w|], w) then Some(|w|) else None
    case _ => MatchLength(c.pattern, s)
  }

  /** Compiling with re.IGNORECASE only widens a rule: every match of the table rule is a match of the compiled rule, of the same length. */
  lemma CompiledWidens(i: nat, s: string)
    requires i < |TokenTable|
    ensures Matches(i, s) ==> CompiledMatchLength(CompiledTokens()[i], s) == MatchLength(TokenTable[i].1, s)
  {
  }

  /**
   * ... and strictly: the compiled NIGHTMARE rule matches "nightmare",
   * the table rule the lexers use does not, and the lexers read that word
   * as an IDENTIFIER.
   */
  lemma CompiledIsCaseInsensitive()
    ensures CompiledMatchLength(CompiledTokens()[0], "nightmare") == Some(9)
    ensures MatchLength(TokenTable[0].1, "nightmare") == None
    ensures FirstMatch("nightmare").Some? && FirstMatch("nightmare").value.kind == Identifier
  {
    GroupsOfTable();
    assert TokenTable[0] == (Nightmare, Literal("Nightmare"));
    var w := "Nightmare";
    assert SameIgnoringCase("nightmare"[..|w|], w);
    assert "nightmare"[..|w|] != w by { assert "nightmare"[0] != w[0]; }
    LowerCaseWordIsIdentifier("nightmare");
  }

  /* ---------------------------------------------------------------- */
  /* What a winning match looks like                                    */
  /* ---------------------------------------------------------------- */

  /** The kinds first-match can produce: all but the five shadowed by an earlier rule. */
  predicate Reachable(k: Kind)
  {
    k != GreaterEqual && k != LessEqual && k != Hunters && k != Bloodbond && k != Comment
  }

  /** The fixed spelling of a kind whose rule is a literal. */
  function Spelling(k: Kind): (r: Option<string>)
    ensures r.Some? ==> |r.value| > 0
  {
    KindAtRank(k);
    NonEmptyPattern(Rank(k));
    var p := TokenTable[Rank(k)].1;
    if p.Literal? then Some(p.text) else None
  }

  /**
   * The winning match: a reachable kind, and, when that kind's rule is a
   * literal, exactly its spelling.
   */
  lemma WinnerShape(s: string)
    requires FirstMatch(s).Some?
    ensures Reachable(FirstMatch(s).value.kind)
    ensures var h := FirstMatch(s).value;
      Spelling(h.kind).Some? ==> s[..h.len] == Spelling(h.kind).value
  {
    FirstMatchSpec(s);
    ComparisonShadowing(s);
    KeywordShadowing(s);
    CommentShadowing(s);
    HitRule(s);
  }
}

/**
 * How Python evaluates the list display of tokens.py, which is written
 * with one comma missing (line 7).
 */
module TokenDisplay {
  import opened Wrappers
  import opened Tokens

  /**
   * One element of the list display of tokens.py.  Two parenthesised
   * pairs with no comma between them are one element: a call of the
   * first tuple, whose arguments are the two strings inside the second
   * pair of parentheses.
   */
  datatype Element = Pair(rule: Rule) | Applied(callee: Rule, arguments: seq<string>)

  /** What evaluating the display can raise: calling a tuple is a TypeError. */
  datatype DisplayError = TupleNotCallable

  /** Every rule of `t` as an element of its own. */
  function Elements(t: seq<Rule>): (es: seq<Element>)
    ensures |es| == |t|
    ensures forall i :: 0 <= i < |t| ==> es[i] == Pair(t[i])
  {
    if t == [] then [] else [Pair(t[0])] + Elements(t[1..])
  }

  /**
   * Evaluating the display: the list of its pairs when every element is
   * a pair, the TypeError as soon as one element is a call.
   */
  function Evaluate(es: seq<Element>): (r: Result<seq<Rule>, DisplayError>)
    ensures r.Ok? <==> forall i :: 0 <= i < |es| ==> es[i].Pair?
    ensures r.Err? ==> r.error == TupleNotCallable
    ensures r.Ok? ==> |r.value| == |es| && forall i :: 0 <= i < |es| ==> r.value[i] == es[i].rule
  {
    if es == [] then Ok([])
    else if es[0].Applied? then Err(TupleNotCallable)
    else match Evaluate(es[1..])
      case Err(e) => Err(e)
      case Ok(rest) => Ok([es[0].rule] + rest)
  }

  /**
   * The display as written: the pairs up to HUNTER's, then HUNTERS's pair
   * called with the two strings 'GREATONES' and 'GreatOnes', then the
   * pairs from DJURA's on.
   */
  function WrittenDisplay(): seq<Element>
  {
    Elements(TokenTable[..3]) + [Applied(TokenTable[3], ["GREATONES", "GreatOnes"])] + Elements(TokenTable[5..])
  }

  /** As written, building the table raises the TypeError, so importing tokens.py fails. */
  lemma WrittenDisplayFails()
    ensures Evaluate(WrittenDisplay()) == Err(TupleNotCallable)
  {
    assert !WrittenDisplay()[3].Pair?;
  }

  /** With the comma restored the display evaluates to `TokenTable`, the table the model uses. */
  lemma IntendedDisplayEvaluates()
    ensures Evaluate(Elements(TokenTable)) == Ok(TokenTable)
  {
    var r := Evaluate(Elements(TokenTable));
    assert r.Ok?;
    assert r.value == TokenTable;
  }
}
