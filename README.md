# BloodCode pipeline, modelled in Dafny

BloodCode is a small toy language whose keywords come from *Bloodborne*.
Its Python implementation runs a program through four stages:

1. a regular-expression lexer over an ordered rule table;
2. a recursive-descent parser that builds a syntax tree;
3. a semantic analyser with a scoped type environment;
4. a tree-walking interpreter whose console is `print` and `input`.

This project models each stage in Dafny and proves what each stage
promises. One Dafny file models one source file:

| Dafny file | module | source |
|---|---|---|
| `wrappers.dfy` | `Wrappers` | `Option` and `Result`, which stand for Python's `None` and for raised exceptions |
| `tokens.dfy` | `Tokens`, `TokenDisplay` | `BloodCodeCompiler/lexer/tokens.py` |
| `lexer.dfy` | `Lexer` | `BloodCodeCompiler/lexer/lexer.py` |
| `legacy_lexer.dfy` | `LegacyLexer` | `BloodCodeCompiler/lexer.py` (the older lexer) |
| `ast.dfy` | `Ast` | `BloodCodeCompiler/parser/ast.py` |
| `parser.dfy` | `Grammar`, `Parser` | `BloodCodeCompiler/parser/parser.py` |
| `type_env.dfy` | `TypeEnv` | `BloodCodeCompiler/semantic_analyzer/TypeEnviroment.py` |
| `typing.dfy`, `analyzer.dfy` | `Typing`, `Analyzer` | `BloodCodeCompiler/semantic_analyzer/SemanticAnalyzer.py` |
| `evaluation.dfy`, `interpreter.dfy` | `Evaluation`, `Interpreter` | `BloodCodeCompiler/interpreter/interpreter.py` |

## How the model is built

The source is written in two styles, and the model follows each.

- **The rule table and the tree are values.** The token table is a
  constant sequence of `(kind, pattern)` rules. Each regular expression
  in it is a hand-written ASCII matcher whose result is the length of
  Python's `re.match` at the start of the text. The tree is one `Node`
  datatype.
- **The lexers, the parser, the type environment, the analyser and the
  interpreter are classes.** Their methods update fields in loops, and
  each becomes a Dafny `class` with the same fields.
  - Every method is proved to return exactly what a specification
    function returns, and to leave exactly the state that function
    gives. These functions are `Scan`, `Run`, `Grammar.*`, `Entered`,
    `Exited`, `WithVariable`, `Typing.*` and `Evaluation.*`.
  - The properties of each stage are lemmas about those functions.

The source does not always terminate, and the model makes that explicit:

- The parser's cursor stops moving at the last token while `pos` keeps
  growing. Some inputs therefore make it loop forever, or recurse until
  Python raises `RecursionError`. The model returns `Diverges` where the
  cursor is frozen and the source loops forever, and `RecursionOverflow`
  where the source recurses without end, and proves a concrete case of
  each. Python's recursion limit (about 1000 frames) is not modelled:
  deep but finite nesting, such as a thousand nested parentheses, raises
  `RecursionError` in the source and gives a tree in the model.
- An interpreted `while` loop need not end. Every run of a loop gets at
  most `fuel` iterations and otherwise gives `OutOfFuel`. `ExecuteFuel`
  proves that a run which finishes gives the same outcome with more fuel.

Where the code does something surprising, the model follows the code:

- The keyword patterns are case-sensitive. The comment at `tokens.py:54`
  says the tokens are meant to ignore case, and `compiled_tokens`
  (`tokens.py:55`) compiles them with `re.IGNORECASE`. Neither lexer
  reads it, though, so `nightmare` lexes as an IDENTIFIER
  (`CompiledIsCaseInsensitive`).
- Rules are tried in table order, and the first match wins, however long
  a later match would be. Five kinds are therefore never produced:
  GREATEREQUAL, LESSEQUAL, HUNTERS, BLOODBOND and COMMENT. In particular
  `//` lexes as two DIVIDE tokens.
- All twelve binary operators share one precedence and associate to the
  left, so `1 + 2 * 3` is `(1 + 2) * 3` (`NoPrecedence`).
- `Parser.__init__` reads `tokens[0]`, so an empty token list, which the
  lexers give for an empty program, raises IndexError before parsing
  starts (`ParseTokensOutcome`).
- The parser compares kinds against names such as `'LBRACE'` and
  `'LPAREN'`. The table calls these `LEFTBRACE` and `LEFTPARENTHESIS`.
  The parser is modelled on `(kind, text)` pairs exactly as written.
- A declaration's initializer is executed once for each declared name
  (`DeclarationReevaluates`).
- Decimal literals are not all digits, so `1.5 + 2.5` is the string
  `"1.52.5"` (`DecimalsConcatenate`).
- `has_return` stops at the first `if` and returns that `if`'s verdict.
  The analyser model uses the intended check (see Findings), so it
  accepts some function bodies that the source rejects. "Left out" lists
  the members this affects.

## Model

| member | source | states |
|---|---|---|
| Tokens.TableLength | BloodCodeCompiler/lexer/tokens.py:3-52 | the rule table has 45 rules |
| Tokens.GroupsOfTable | BloodCodeCompiler/lexer/tokens.py:3-52 | the table is the keyword group (20 rules), then the operators (18), then LIGHT/DARKNESS/COMMENT/WHITESPACE (4), then NUMBER/STRING/IDENTIFIER (3), in that order |
| Tokens.KindAtRank | BloodCodeCompiler/lexer/tokens.py:3-52 | every kind has exactly one rule, at its rank in the table |
| Tokens.RankAt | BloodCodeCompiler/lexer/tokens.py:3-52 | the rule at index i has a kind of rank i, so no kind is listed twice |
| Tokens.Span | BloodCodeCompiler/lexer/tokens.py:46-51 | the greedy run of a character class: every character in the run is in the class, and the next one is not |
| Tokens.MatchLength | BloodCodeCompiler/lexer/tokens.py:3-52 | the match of a pattern at the head of the text stays inside the text, is non-empty for every pattern but the empty literal, and begins with a character the pattern can start with |
| Tokens.FirstMatchFrom | BloodCodeCompiler/lexer/lexer.py:30-41 | the `for` over the rules from index `i` on: a hit names a rule at or after `i` and a length within the text; FirstMatchFromHit and FirstMatchFromEarliest state which rule it is |
| Tokens.FirstMatch | BloodCodeCompiler/lexer/lexer.py:30-41 | the scan over the language's own table: a hit names one of its rules and consumes between 1 and all of the text; FirstMatchSpec states which rule it is |
| Tokens.FirstMatchFromHit | BloodCodeCompiler/lexer/lexer.py:30-41 | the rule that the table scan returns does match, and the hit carries that rule's kind and match length |
| Tokens.FirstMatchFromEarliest | BloodCodeCompiler/lexer/lexer.py:30-41 | no rule before the returned one matches; when nothing is returned, no rule matches |
| Tokens.FirstIn | BloodCodeCompiler/lexer/lexer.py:30-41 | the winner of the first-match scan is a rule of the table and consumes between 1 and all of the remaining characters |
| Tokens.FirstInSpec | BloodCodeCompiler/lexer/lexer.py:30-41 | the winner is the earliest matching rule, with its kind and length; there is no winner exactly when no rule matches |
| Tokens.FirstMatchSpec | BloodCodeCompiler/lexer/lexer.py:30-41 | FirstInSpec for the language's own table |
| Tokens.NonEmptyPattern | BloodCodeCompiler/lexer/tokens.py:3-52 | no rule is the empty literal, so every match moves the lexer forward |
| Tokens.NoLowerStartBefore | BloodCodeCompiler/lexer/tokens.py:3-51 | no rule before IDENTIFIER can begin with a lower-case letter |
| Tokens.KeywordStarts | BloodCodeCompiler/lexer/tokens.py:4-23 | every keyword is a non-empty literal that begins with an upper-case letter |
| Tokens.OperatorStarts | BloodCodeCompiler/lexer/tokens.py:25-42 | every operator is a non-empty literal that does not begin with a word character |
| Tokens.FirstMatchAtOrBefore | BloodCodeCompiler/lexer/lexer.py:30-41 | any matching rule bounds the winner: the winner is that rule or an earlier one |
| Tokens.HitRule | BloodCodeCompiler/lexer/tokens.py:3-52 | the kind of the winner determines which rule won |
| Tokens.PrefixMatches | BloodCodeCompiler/lexer/tokens.py:3-52 | where a literal matches, every prefix of that literal matches too |
| Tokens.PrefixShadows | BloodCodeCompiler/lexer/lexer.py:30-41 | a later literal that extends an earlier literal never wins |
| Tokens.ShadowingEntries | BloodCodeCompiler/lexer/tokens.py:6-46 | the pairs that shadow each other: Hunter/Hunters, Blood/Bloodbond, `>`/`>=`, `<`/`<=`, and `/` before `//.*` |
| Tokens.ShadowedKind | BloodCodeCompiler/lexer/lexer.py:30-41 | the kind of a shadowed literal is never produced |
| Tokens.ComparisonShadowing | BloodCodeCompiler/lexer/tokens.py:25-28 | GREATEREQUAL and LESSEQUAL are never produced |
| Tokens.KeywordShadowing | BloodCodeCompiler/lexer/tokens.py:6-22 | HUNTERS and BLOODBOND are never produced |
| Tokens.CommentShadowing | BloodCodeCompiler/lexer/tokens.py:42-46 | COMMENT is never produced, because DIVIDE comes first |
| Tokens.IdentifierEntry | BloodCodeCompiler/lexer/tokens.py:51 | IDENTIFIER is the last rule, with the word pattern |
| Tokens.LiteralBeatsIdentifier | BloodCodeCompiler/lexer/tokens.py:3-52 | a literal at the head of the text always beats IDENTIFIER, so no keyword spelling lexes as an identifier |
| Tokens.LowerCaseWordIsIdentifier | BloodCodeCompiler/lexer/tokens.py:51 | a word that starts with a lower-case letter is one IDENTIFIER covering the whole word |
| Tokens.LowerCaseMissesEarlierRules | BloodCodeCompiler/lexer/tokens.py:4-50 | no rule before IDENTIFIER matches text that starts with a lower-case letter |
| Tokens.WordMatchesIdentifier | BloodCodeCompiler/lexer/tokens.py:51 | the IDENTIFIER rule matches the whole word |
| Tokens.NumberLexeme | BloodCodeCompiler/lexer/tokens.py:49 | a NUMBER is digits with at most one `.`, and that `.` sits between digits; the match is greedy |
| Tokens.NumeralMatch | BloodCodeCompiler/lexer/tokens.py:49 | a run of digits that is followed by neither a digit nor `.` is exactly one NUMBER |
| Tokens.SpanOfRun | BloodCodeCompiler/lexer/tokens.py:47-51 | a greedy class match stops exactly at the end of the run |
| Tokens.StringLexeme | BloodCodeCompiler/lexer/tokens.py:50 | a STRING runs from `"` to the next `"`, newlines included; without a closing quote the rule does not match |
| Tokens.CompiledTokens | BloodCodeCompiler/lexer/tokens.py:55 | `compiled_tokens` has the same kinds and patterns in the same order, all case-insensitive |
| Tokens.CompiledMatchLength | BloodCodeCompiler/lexer/tokens.py:55 | a case-insensitive match stays inside the text |
| Tokens.CompiledWidens | BloodCodeCompiler/lexer/tokens.py:55 | every match of a table rule is a match of the compiled rule, of the same length |
| Tokens.CompiledIsCaseInsensitive | BloodCodeCompiler/lexer/tokens.py:55 | the compiled NIGHTMARE rule matches `nightmare`; the table rule does not, and the lexers read the word as an IDENTIFIER |
| Tokens.Spelling | BloodCodeCompiler/lexer/tokens.py:3-52 | a literal rule has a non-empty spelling |
| Tokens.WinnerShape | BloodCodeCompiler/lexer/lexer.py:30-41 | the winner's kind is reachable, and a literal kind's lexeme is exactly its spelling |
| TokenDisplay.Elements | BloodCodeCompiler/lexer/tokens.py:3-52 | each rule becomes its own element of the list display |
| TokenDisplay.Evaluate | BloodCodeCompiler/lexer/tokens.py:3-52 | a list display evaluates to its pairs, in order, exactly when no element is a call; otherwise it raises the tuple-not-callable TypeError |
| TokenDisplay.WrittenDisplayFails | BloodCodeCompiler/lexer/tokens.py:6-8 | as written, the display raises TypeError, so importing the module fails |
| TokenDisplay.IntendedDisplayEvaluates | BloodCodeCompiler/lexer/tokens.py:3-52 | with the comma restored, the display is the 45-rule table the model uses |
| Lexer.ToDict | BloodCodeCompiler/lexer/lexer.py:13-18 | `to_dict` has exactly the keys `type`, `value` and `line_number` |
| Lexer.DictRoundTrip | BloodCodeCompiler/lexer/lexer.py:13-18 | the dictionary gives back the token's table name, its lexeme and its line |
| Lexer.Newlines | BloodCodeCompiler/lexer/lexer.py:36 | `count('\n')` is at most the length of the text |
| Lexer.Step | BloodCodeCompiler/lexer/lexer.py:34-40 | one iteration that found a match: whitespace adds its newlines to the line counter, any other match appends a Token on the current line, and the position moves to the match's end; StepFields states this |
| Lexer.Lex | BloodCodeCompiler/lexer/lexer.py:27-44 | what `Lexer(code).tokenize()` returns or raises; LexByPieces, LexedTokens and LexErrorShape state what that is |
| Lexer.Scan | BloodCodeCompiler/lexer/lexer.py:28-43 | the `while` loop only moves forward and stays inside the text |
| Lexer.ScanStops | BloodCodeCompiler/lexer/lexer.py:28-43 | the loop ends without error exactly at the end of the text, and otherwise fails exactly where no rule matches; tokens are only appended and the line counter never goes back |
| Lexer.ScanStep | BloodCodeCompiler/lexer/lexer.py:33-41 | one turn that finds a match continues the loop from that match's end |
| Lexer.StepFields | BloodCodeCompiler/lexer/lexer.py:35-40 | one turn: whitespace adds its newlines to the line counter, and every other match appends a token on the current line |
| Lexer.MatchAt | BloodCodeCompiler/lexer/lexer.py:29-41 | the inner `for` loop returns the earliest matching rule at `position`, as `FirstIn` gives it |
| Lexer.Lexer.constructor | BloodCodeCompiler/lexer/lexer.py:21-25 | a new lexer is at position 0, on line 1, with no tokens |
| Lexer.Lexer.Tokenize | BloodCodeCompiler/lexer/lexer.py:27-44 | returns the token list, or raises with the current line and the unmatched rest of the text; the fields end as `Scan` says |
| Lexer.Lexer.Advance | BloodCodeCompiler/lexer/lexer.py:29-43 | one turn of the loop either consumes a match or changes nothing and reports that nothing matches |
| Lexer.PiecesCover | BloodCodeCompiler/lexer/lexer.py:28-43 | cutting the text into first-match pieces loses nothing; a non-empty remainder starts where no rule matches |
| Lexer.TableShaped | BloodCodeCompiler/lexer/tokens.py:3-52 | every winner of the language's table is a non-empty, reachable, correctly spelled piece |
| Lexer.PiecesYield | BloodCodeCompiler/lexer/lexer.py:28-43 | a property of every winner holds for every piece of the cut |
| Lexer.TokensArePieces | BloodCodeCompiler/lexer/lexer.py:35-39 | every token is a non-whitespace piece, with that piece's kind and text |
| Lexer.TokenizedHead | BloodCodeCompiler/lexer/lexer.py:35-39 | the tokens of a run of pieces are those of its first piece followed by those of the rest, with the line moved on by the first piece's newlines |
| Lexer.TokenLineBounds | BloodCodeCompiler/lexer/lexer.py:36-39 | token lines lie between the starting line and the starting line plus the newlines counted |
| Lexer.TokenLines | BloodCodeCompiler/lexer/lexer.py:36-39 | token lines never decrease |
| Lexer.TokenizedCons | BloodCodeCompiler/lexer/lexer.py:35-39 | tokenizing one more piece in front |
| Lexer.PiecesCons | BloodCodeCompiler/lexer/lexer.py:33-41 | the cut of a text whose head matches is that match followed by the cut of the rest |
| Lexer.ScanIsPieces | BloodCodeCompiler/lexer/lexer.py:28-43 | the loop from any state appends exactly the tokens of the pieces of the rest of the text, adds their lines, and stops where the pieces stop |
| Lexer.ScanAtEnd | BloodCodeCompiler/lexer/lexer.py:28 | at the end of the text the loop does nothing |
| Lexer.ScanStuck | BloodCodeCompiler/lexer/lexer.py:42-43 | where nothing matches the loop fails at once |
| Lexer.ScanMoves | BloodCodeCompiler/lexer/lexer.py:33-41 | the pieces prediction carries back over one turn of the loop |
| Lexer.PredictedMoves | BloodCodeCompiler/lexer/lexer.py:33-41 | the prediction for the rest after one turn equals the prediction before it |
| Lexer.PiecesAt | BloodCodeCompiler/lexer/lexer.py:32-40 | the cut from `position` begins with the match found there |
| Lexer.PredictedStep | BloodCodeCompiler/lexer/lexer.py:35-40 | one turn's effect is the effect of one more piece in front |
| Lexer.TokensStep | BloodCodeCompiler/lexer/lexer.py:35-39 | the tokens and lines after one turn agree with the pieces, including that turn's piece |
| Lexer.SpaceStep | BloodCodeCompiler/lexer/lexer.py:35-36 | whitespace adds no token and adds its newlines to the line counter |
| Lexer.WordStep | BloodCodeCompiler/lexer/lexer.py:37-39 | any other match adds one token on the current line |
| Lexer.LexByPieces | BloodCodeCompiler/lexer/lexer.py:27-44 | `tokenize` is the tokens of the cut of the whole text from line 1, or an error carrying the line reached and the remainder |
| Lexer.ReportedOutcome | BloodCodeCompiler/lexer/lexer.py:42-44 | the returned list, or the raised error, is what the predicted outcome of the cut says |
| Lexer.LexedTokens | BloodCodeCompiler/lexer/lexer.py:27-44 | every returned token is non-whitespace and non-empty, of a reachable kind, spelled as its literal, on a line of at least 1, and the lines never decrease |
| Lexer.LexErrorShape | BloodCodeCompiler/lexer/lexer.py:42-43 | the error reports a non-empty suffix of the text at whose head no rule matches, and a line of at least 1 |
| LegacyLexer.Move | BloodCodeCompiler/lexer.py:17-20 | one iteration that found a match: `(kind, text)` is appended unless the kind is WHITESPACE or COMMENT, and the position moves to the match's end; MoveFields states this |
| LegacyLexer.LegacyLex | BloodCodeCompiler/lexer.py:10-24 | what the old lexer's `tokenize()` returns, or the remainder it raises with; LegacyByPieces, LegacyErrorShape and LegacyAgrees state what that is |
| LegacyLexer.Run | BloodCodeCompiler/lexer.py:11-23 | the old lexer's loop only moves forward and stays inside the text |
| LegacyLexer.RunStops | BloodCodeCompiler/lexer.py:11-23 | the loop ends without error exactly at the end of the text, and fails exactly where no rule matches; pairs are only appended |
| LegacyLexer.RunStep | BloodCodeCompiler/lexer.py:16-21 | one turn that finds a match continues the loop from that match's end |
| LegacyLexer.LegacyLexer.constructor | BloodCodeCompiler/lexer.py:5-8 | a new lexer is at position 0 with no pairs |
| LegacyLexer.LegacyLexer.Tokenize | BloodCodeCompiler/lexer.py:10-24 | returns the pair list, or raises with the unmatched rest; the fields end as `Run` says |
| LegacyLexer.LegacyLexer.Advance | BloodCodeCompiler/lexer.py:12-23 | one turn keeps the match unless it is WHITESPACE or COMMENT, or changes nothing and reports that nothing matches |
| LegacyLexer.MoveFields | BloodCodeCompiler/lexer.py:17-20 | one turn appends `(kind, text)` for a kept match, and nothing for a dropped one |
| LegacyLexer.RunIsPieces | BloodCodeCompiler/lexer.py:11-23 | the loop appends exactly the kept pairs of the pieces of the rest, and stops where the pieces stop |
| LegacyLexer.RunAtEnd | BloodCodeCompiler/lexer.py:11 | at the end of the text the loop does nothing |
| LegacyLexer.RunStuck | BloodCodeCompiler/lexer.py:22-23 | where nothing matches the loop fails at once |
| LegacyLexer.RunMoves | BloodCodeCompiler/lexer.py:16-21 | the pieces prediction carries back over one turn |
| LegacyLexer.ForetoldMoves | BloodCodeCompiler/lexer.py:16-21 | the prediction after one turn equals the prediction before it |
| LegacyLexer.ForetoldStep | BloodCodeCompiler/lexer.py:17-20 | one turn's effect is the effect of one more piece in front |
| LegacyLexer.LegacyByPieces | BloodCodeCompiler/lexer.py:10-24 | `tokenize` is the kept pairs of the whole cut, or the remainder where no rule matches |
| LegacyLexer.LegacyErrorShape | BloodCodeCompiler/lexer.py:22-23 | the error reports a non-empty suffix of the text at whose head no rule matches, and no line number |
| LegacyLexer.AsPairsSpec | BloodCodeCompiler/lexer.py:19 | one pair per token, in order, holding the token's table name and its lexeme |
| LegacyLexer.PairsOfTokens | BloodCodeCompiler/lexer.py:18-19 | with no COMMENT piece, the old lexer's pairs are the new lexer's tokens without their lines |
| LegacyLexer.LegacyAgrees | BloodCodeCompiler/lexer.py:10-24 | on the same table the two lexers agree: both succeed or both fail; the pairs are the new tokens without lines, and the error remainder is the same |
| Ast.Repr | BloodCodeCompiler/parser/ast.py:9-83 | `repr(node)` through each class's f-string; ReprDefined states the trees it is defined on |
| Ast.ReprDefined | BloodCodeCompiler/parser/ast.py:9-83 | `Repr` gives the printed text exactly when the tree holds no FunctionDeclaration, Return or Array node, which print a memory address because those three classes define no `__repr__`, and no tuple type, whose text is not modelled |
| Ast.ItemsDefined | BloodCodeCompiler/parser/ast.py:48-49 | a list of nodes prints without an address exactly when each of its nodes does |
| Grammar.Parse | BloodCodeCompiler/parser/parser.py:20-21 | `parse` is `parse_block` from the first token; ParseBlock and ProgramShape state what it gives |
| Grammar.ParseTokens | BloodCodeCompiler/parser/parser.py:4-7 | `Parser(tokens).parse()` on any token list: an empty list fails before parsing, and any other list is parsed as `parse` says; ParseTokensOutcome states both cases |
| Grammar.ParseTokensOutcome | BloodCodeCompiler/parser/parser.py:4-7 | an empty token list gives `NoTokens`, the IndexError of `tokens[0]`; a list that parses starts with `{` and gives a tree that prints without an address |
| Grammar.Expect | BloodCodeCompiler/parser/parser.py:14-18 | `expect` advances one position exactly when the current kind is the expected one, and otherwise raises naming both kinds |
| Grammar.StepLeft | BloodCodeCompiler/parser/parser.py:9-12 | `advance` never increases the number of tokens left, and decreases it unless the cursor is frozen on the last token |
| Grammar.ParseBlock | BloodCodeCompiler/parser/parser.py:23-29 | on success a Block whose tree prints without an address, after consuming tokens; it diverges only when the last token is NUMBER, STRING or COMMA, and overflows only on a last `(` |
| Grammar.Statements | BloodCodeCompiler/parser/parser.py:25-28 | the statement loop stops at a `}` and only appends statements |
| Grammar.ParseStatement | BloodCodeCompiler/parser/parser.py:31-47 | a statement consumes tokens, except one starting with NUMBER or STRING on a frozen cursor |
| Grammar.ParseDreamLoop | BloodCodeCompiler/parser/parser.py:49-55 | a DREAM loop consumes tokens and builds a printable tree |
| Grammar.ParseAssignment | BloodCodeCompiler/parser/parser.py:57-65 | an assignment consumes tokens and builds a printable tree |
| Grammar.ParseDeclaration | BloodCodeCompiler/parser/parser.py:67-78 | a declaration consumes tokens and builds a printable tree |
| Grammar.Initializer | BloodCodeCompiler/parser/parser.py:74-76 | there is an initializer exactly when the current kind is ASSIGN |
| Grammar.ParseIdentifierList | BloodCodeCompiler/parser/parser.py:80-85 | the list has at least one name, and its first name is the current token's text |
| Grammar.MoreNames | BloodCodeCompiler/parser/parser.py:82-84 | the loop appends names and stops at a kind other than COMMA |
| Grammar.ParseIf | BloodCodeCompiler/parser/parser.py:87-97 | an if statement consumes tokens and builds a printable tree |
| Grammar.ElseBlock | BloodCodeCompiler/parser/parser.py:94-96 | there is an else block exactly when the current kind is MADNESS |
| Grammar.ParseNightmareLoop | BloodCodeCompiler/parser/parser.py:99-109 | a NIGHTMARE loop consumes tokens and builds a printable tree |
| Grammar.LoopHeader | BloodCodeCompiler/parser/parser.py:101-107 | the three clauses of the header are printable trees |
| Grammar.ParsePray | BloodCodeCompiler/parser/parser.py:111-117 | PRAY consumes tokens and builds a printable tree |
| Grammar.ParseRest | BloodCodeCompiler/parser/parser.py:119-122 | REST builds a RestNode |
| Grammar.ParseExpression | BloodCodeCompiler/parser/parser.py:124-131 | an expression is one-token terms joined by the twelve operators |
| Grammar.Operations | BloodCodeCompiler/parser/parser.py:126-130 | the operator loop stops at a kind that is not an operator |
| Grammar.ParseTerm | BloodCodeCompiler/parser/parser.py:133-150 | a term is an expression tree and consumes its token unless the cursor is frozen |
| Grammar.FrozenCursor | BloodCodeCompiler/parser/parser.py:9-12 | from the last token on, the cursor shows the last token and no token is left |
| Grammar.StatementsStep | BloodCodeCompiler/parser/parser.py:25-28 | one turn of the statement loop, and a frozen repeat is divergence |
| Grammar.StatementsAcc | BloodCodeCompiler/parser/parser.py:24-28 | the loop from some statements gives those statements followed by what the loop from none gives |
| Grammar.StatementsInOrder | BloodCodeCompiler/parser/parser.py:25-28 | a block keeps its statements in source order |
| Grammar.ProgramShape | BloodCodeCompiler/parser/parser.py:20-29 | a parsed program starts with `{` at the first token and ends at its matching `}`; its tree prints without an address |
| Grammar.FoldLeft | BloodCodeCompiler/parser/parser.py:126-130 | the left fold of operator-term pairs is printable |
| Grammar.OperationsStop | BloodCodeCompiler/parser/parser.py:126 | the operator loop stops at a non-operator |
| Grammar.OperationsStep | BloodCodeCompiler/parser/parser.py:126-130 | one turn of the operator loop over an operator and a one-token term |
| Grammar.FoldOperations | BloodCodeCompiler/parser/parser.py:126-130 | the operator loop over a run of pairs builds their left fold |
| Grammar.LeftAssociative | BloodCodeCompiler/parser/parser.py:124-131 | every operator has the same precedence and associates to the left |
| Grammar.NoPrecedence | BloodCodeCompiler/parser/parser.py:124-131 | `1 + 2 * 3` parses as `(1 + 2) * 3` |
| Grammar.TermShape | BloodCodeCompiler/parser/parser.py:133-150 | NUMBER, STRING and IDENTIFIER give a leaf; `( e )` gives `e` itself, or raises without `)`; any other kind raises |
| Grammar.NamesAt | BloodCodeCompiler/parser/parser.py:80-85 | the texts of every second token, one per name |
| Grammar.MoreNamesShape | BloodCodeCompiler/parser/parser.py:82-84 | the loop adds a name after each comma, in order |
| Grammar.NameList | BloodCodeCompiler/parser/parser.py:80-85 | the names are the texts of every second token, with commas between them, ending at the first token after a name that is not a comma |
| Grammar.DeclarationShape | BloodCodeCompiler/parser/parser.py:67-78 | a declaration is HUNTER, its names, `:`, then any kind taken as the type; it has an initializer exactly when `=>` follows, and it ends with `;` |
| Grammar.IfShape | BloodCodeCompiler/parser/parser.py:87-97 | the condition is an expression and both branches are blocks |
| Grammar.NightmareShape | BloodCodeCompiler/parser/parser.py:99-109 | a NIGHTMARE loop has all three clauses, each an expression |
| Grammar.DreamShape | BloodCodeCompiler/parser/parser.py:49-55 | a DREAM loop has no init and no increment |
| Grammar.SimpleStatementShape | BloodCodeCompiler/parser/parser.py:31-65 | PRAY is a call of `'PRAY'` with one argument; REST is a RestNode; an identifier starts an assignment; anything else is an expression |
| Grammar.DivergesOnNumber | BloodCodeCompiler/parser/parser.py:25-28 | an unclosed block that ends in a NUMBER loops forever |
| Grammar.DivergesOnComma | BloodCodeCompiler/parser/parser.py:82-84 | an identifier list that ends in a comma loops forever |
| Grammar.OverflowsOnParen | BloodCodeCompiler/parser/parser.py:144-147 | a term that ends in `(` recurses until Python's limit |
| Parser.Parser.constructor | BloodCodeCompiler/parser/parser.py:4-7 | the cursor starts at position 0 on the first token |
| Parser.Parser.Advance | BloodCodeCompiler/parser/parser.py:9-12 | `pos` always grows by one; `current_token` follows it only inside the list |
| Parser.Parser.Expect | BloodCodeCompiler/parser/parser.py:14-18 | on a match it advances as `Grammar.Expect` says; otherwise it raises that error and does not move |
| Parser.Parser.ParseIdentifier | BloodCodeCompiler/parser/parser.py:152-155 | the text of the current token, whatever its kind, and one step |
| Parser.Parser.Parse | BloodCodeCompiler/parser/parser.py:20-21 | result and final position are those of `Grammar.Parse` |
| Parser.Parser.ParseBlock | BloodCodeCompiler/parser/parser.py:23-29 | result and final position are those of `Grammar.ParseBlock` |
| Parser.Parser.ParseStatement | BloodCodeCompiler/parser/parser.py:31-47 | result and final position are those of `Grammar.ParseStatement` |
| Parser.Parser.ParseDreamLoop | BloodCodeCompiler/parser/parser.py:49-55 | result and final position are those of `Grammar.ParseDreamLoop` |
| Parser.Parser.ParseAssignment | BloodCodeCompiler/parser/parser.py:57-65 | result and final position are those of `Grammar.ParseAssignment` |
| Parser.Parser.ParseDeclaration | BloodCodeCompiler/parser/parser.py:67-78 | result and final position are those of `Grammar.ParseDeclaration` |
| Parser.Parser.Initializer | BloodCodeCompiler/parser/parser.py:74-76 | result and final position are those of `Grammar.Initializer` |
| Parser.Parser.ParseIdentifierList | BloodCodeCompiler/parser/parser.py:80-85 | result and final position are those of `Grammar.ParseIdentifierList` |
| Parser.Parser.ParseIf | BloodCodeCompiler/parser/parser.py:87-97 | result and final position are those of `Grammar.ParseIf` |
| Parser.Parser.ElseBlock | BloodCodeCompiler/parser/parser.py:94-96 | result and final position are those of `Grammar.ElseBlock` |
| Parser.Parser.ParseNightmareLoop | BloodCodeCompiler/parser/parser.py:99-109 | result and final position are those of `Grammar.ParseNightmareLoop` |
| Parser.Parser.ParsePray | BloodCodeCompiler/parser/parser.py:111-117 | result and final position are those of `Grammar.ParsePray` |
| Parser.Parser.ParseRest | BloodCodeCompiler/parser/parser.py:119-122 | result and final position are those of `Grammar.ParseRest` |
| Parser.Parser.ParseExpression | BloodCodeCompiler/parser/parser.py:124-131 | result and final position are those of `Grammar.ParseExpression` |
| Parser.Parser.ParseTerm | BloodCodeCompiler/parser/parser.py:133-150 | result and final position are those of `Grammar.ParseTerm` |
| TypeEnv.Fresh | BloodCodeCompiler/semantic_analyzer/TypeEnviroment.py:2-4 | a new environment has its global scope |
| TypeEnv.Entered | BloodCodeCompiler/semantic_analyzer/TypeEnviroment.py:6-7 | `enter_scope` adds one scope |
| TypeEnv.Exited | BloodCodeCompiler/semantic_analyzer/TypeEnviroment.py:9-13 | `exit_scope` raises exactly when only the global scope is left |
| TypeEnv.WithVariable | BloodCodeCompiler/semantic_analyzer/TypeEnviroment.py:15-18 | `declare_variable` raises exactly when the name is already in the innermost scope, and otherwise keeps the depth |
| TypeEnv.WithFunction | BloodCodeCompiler/semantic_analyzer/TypeEnviroment.py:26-29 | `declare_function` raises exactly when the name is already recorded, and leaves the scopes alone |
| TypeEnv.FunctionType | BloodCodeCompiler/semantic_analyzer/TypeEnviroment.py:31-34 | `get_function_type` succeeds exactly for recorded names |
| TypeEnv.Lookup | BloodCodeCompiler/semantic_analyzer/TypeEnviroment.py:21-23 | the binding of the innermost scope that has the name; LookupInnermost states this in both directions |
| TypeEnv.VariableType | BloodCodeCompiler/semantic_analyzer/TypeEnviroment.py:20-24 | `get_variable_type`: that binding, or the undeclared-variable error when no scope has the name; LookupInnermost and DeclareThenLookup state what it finds |
| TypeEnv.LookupInnermost | BloodCodeCompiler/semantic_analyzer/TypeEnviroment.py:20-24 | a lookup finds the binding of the innermost scope that has the name, in both directions |
| TypeEnv.FreshIsEmpty | BloodCodeCompiler/semantic_analyzer/TypeEnviroment.py:2-4 | a new environment knows no variable or function, and cannot exit its scope |
| TypeEnv.EnterThenExit | BloodCodeCompiler/semantic_analyzer/TypeEnviroment.py:6-13 | `exit_scope` undoes `enter_scope` |
| TypeEnv.ExitKeepsOuter | BloodCodeCompiler/semantic_analyzer/TypeEnviroment.py:9-13 | `exit_scope` pops only the innermost scope and keeps the function table |
| TypeEnv.EnterKeepsLookups | BloodCodeCompiler/semantic_analyzer/TypeEnviroment.py:6-7 | a new scope hides nothing |
| TypeEnv.DeclareTouchesInnermost | BloodCodeCompiler/semantic_analyzer/TypeEnviroment.py:15-18 | `declare_variable` changes only the innermost scope |
| TypeEnv.DeclareThenLookup | BloodCodeCompiler/semantic_analyzer/TypeEnviroment.py:15-24 | after declaring `n: t` the lookup of `n` gives `t`, and every other lookup is unchanged |
| TypeEnv.ShadowThenExit | BloodCodeCompiler/semantic_analyzer/TypeEnviroment.py:6-24 | an inner declaration shadows an outer one until its scope is exited, which restores the environment |
| TypeEnv.FunctionsIgnoreScopes | BloodCodeCompiler/semantic_analyzer/TypeEnviroment.py:6-34 | the function table is not scoped |
| TypeEnv.DeclareFunctionThenLookup | BloodCodeCompiler/semantic_analyzer/TypeEnviroment.py:26-34 | a declared function's signature is what the lookup gives, and other entries are kept |
| TypeEnv.TypeEnvironment.constructor | BloodCodeCompiler/semantic_analyzer/TypeEnviroment.py:2-4 | the state is `Fresh()` |
| TypeEnv.TypeEnvironment.EnterScope | BloodCodeCompiler/semantic_analyzer/TypeEnviroment.py:6-7 | the new state is `Entered` of the old |
| TypeEnv.TypeEnvironment.ExitScope | BloodCodeCompiler/semantic_analyzer/TypeEnviroment.py:9-13 | pops as `Exited` says, or raises and changes nothing |
| TypeEnv.TypeEnvironment.DeclareVariable | BloodCodeCompiler/semantic_analyzer/TypeEnviroment.py:15-18 | binds as `WithVariable` says, or raises and changes nothing |
| TypeEnv.TypeEnvironment.GetVariableType | BloodCodeCompiler/semantic_analyzer/TypeEnviroment.py:20-24 | the loop over the scopes from the innermost out gives `VariableType` |
| TypeEnv.TypeEnvironment.DeclareFunction | BloodCodeCompiler/semantic_analyzer/TypeEnviroment.py:26-29 | records as `WithFunction` says, or raises and changes nothing |
| TypeEnv.TypeEnvironment.GetFunctionType | BloodCodeCompiler/semantic_analyzer/TypeEnviroment.py:31-34 | gives `FunctionType` |
| Typing.GrowsTrans | BloodCodeCompiler/semantic_analyzer/SemanticAnalyzer.py:20-46 | the environment growing is transitive |
| Typing.Bind | BloodCodeCompiler/semantic_analyzer/SemanticAnalyzer.py:54-55 | every name of the list is paired with the declared type |
| Typing.ParamTypes | BloodCodeCompiler/semantic_analyzer/SemanticAnalyzer.py:162 | the parameter types, one per parameter, in order |
| Typing.DeclareEach | BloodCodeCompiler/semantic_analyzer/SemanticAnalyzer.py:54-55 | declaring in turn only grows the innermost scope and keeps the depth |
| Typing.DeclareEachSucceeds | BloodCodeCompiler/semantic_analyzer/SemanticAnalyzer.py:54-55 | declaring a list succeeds exactly when its names are distinct and new, and then binds each name to its type |
| Typing.HasReturnAsWritten | BloodCodeCompiler/semantic_analyzer/SemanticAnalyzer.py:180-189 | `has_return` as written: the scan stops at the first `if` with that `if`'s verdict, and fails on a node that is not a block; EarlyIfHidesReturn and AsWrittenSound state how it differs from HasReturn |
| Typing.HasReturn | BloodCodeCompiler/semantic_analyzer/SemanticAnalyzer.py:180-189 | `has_return` as evidently intended: a block returns when some statement of it returns; AnyReturnsExists and ReturnAtEnd state this |
| Typing.AnyReturns | BloodCodeCompiler/semantic_analyzer/SemanticAnalyzer.py:181-189 | the corrected statement scan; AnyReturnsExists states that it finds a returning statement wherever it is |
| Typing.AnyReturnsExists | BloodCodeCompiler/semantic_analyzer/SemanticAnalyzer.py:180-189 | the corrected scan finds a returning statement wherever it is |
| Typing.ReturnAtEnd | BloodCodeCompiler/semantic_analyzer/SemanticAnalyzer.py:180-189 | a block that ends in `return` returns |
| Typing.AsWrittenSound | BloodCodeCompiler/semantic_analyzer/SemanticAnalyzer.py:180-189 | whatever the check as written accepts, the corrected check accepts too |
| Typing.ScanSound | BloodCodeCompiler/semantic_analyzer/SemanticAnalyzer.py:181-189 | the same, for the statement scan |
| Typing.EarlyIfHidesReturn | BloodCodeCompiler/semantic_analyzer/SemanticAnalyzer.py:184-185 | an `if` without a return before a `return` makes the check as written say "no return" |
| Typing.Lift | BloodCodeCompiler/semantic_analyzer/SemanticAnalyzer.py:32 | an environment lookup leaves the environment alone |
| Typing.Analyze | BloodCodeCompiler/semantic_analyzer/SemanticAnalyzer.py:20-46 | every analysis only grows the environment and, when it succeeds, keeps the scope depth; a tree that declares nothing leaves the environment as it was |
| Typing.AnalyzeStatements | BloodCodeCompiler/semantic_analyzer/SemanticAnalyzer.py:48-50 | a block has no type |
| Typing.AnalyzeDeclaration | BloodCodeCompiler/semantic_analyzer/SemanticAnalyzer.py:52-63 | a declaration has no type and only grows the environment |
| Typing.Initialized | BloodCodeCompiler/semantic_analyzer/SemanticAnalyzer.py:56-63 | the initializer passes exactly when its type is `'ARRAY'` for a tuple type, or otherwise the declared type itself |
| Typing.AnalyzeBinaryOp | BloodCodeCompiler/semantic_analyzer/SemanticAnalyzer.py:65-109 | an operator only grows the environment |
| Typing.IndexedAssign | BloodCodeCompiler/semantic_analyzer/SemanticAnalyzer.py:75-84 | an indexed assignment only grows the environment |
| Typing.Index | BloodCodeCompiler/semantic_analyzer/SemanticAnalyzer.py:89-96 | indexing only grows the environment |
| Typing.AnalyzeElements | BloodCodeCompiler/semantic_analyzer/SemanticAnalyzer.py:111-119 | an array literal that passes has type `'ARRAY'` |
| Typing.AnalyzeCall | BloodCodeCompiler/semantic_analyzer/SemanticAnalyzer.py:121-145 | a call only grows the environment |
| Typing.AnalyzeArguments | BloodCodeCompiler/semantic_analyzer/SemanticAnalyzer.py:140-143 | the argument scan only grows the environment |
| Typing.AnalyzeIf | BloodCodeCompiler/semantic_analyzer/SemanticAnalyzer.py:147-153 | an if statement has no type |
| Typing.AnalyzeLoop | BloodCodeCompiler/semantic_analyzer/SemanticAnalyzer.py:155-159 | a loop has no type |
| Typing.AnalyzeFunctionDeclaration | BloodCodeCompiler/semantic_analyzer/SemanticAnalyzer.py:161-178 | a function declaration has no type and, on success, keeps the scope depth |
| Typing.ArithmeticRule | BloodCodeCompiler/semantic_analyzer/SemanticAnalyzer.py:69-72 | PLUS, MINUS, MULTIPLY and DIVIDE pass exactly when both sides are `'MARIA'`, and give `'MARIA'` |
| Typing.StringsDoNotAdd | BloodCodeCompiler/semantic_analyzer/SemanticAnalyzer.py:69-71 | two strings do not add |
| Typing.ComparisonRule | BloodCodeCompiler/semantic_analyzer/SemanticAnalyzer.py:98-101 | a comparison passes exactly when both sides have one type, and gives `'BLOOD'` |
| Typing.LogicalRule | BloodCodeCompiler/semantic_analyzer/SemanticAnalyzer.py:103-106 | a logical operator passes exactly when both sides are `'BLOOD'`, and gives `'BLOOD'` |
| Typing.AssignRule | BloodCodeCompiler/semantic_analyzer/SemanticAnalyzer.py:85-87 | a plain assignment passes exactly when both sides have one type, and has that type |
| Typing.IndexRule | BloodCodeCompiler/semantic_analyzer/SemanticAnalyzer.py:89-96 | indexing passes exactly when the base has a non-empty tuple type and the index is `'MARIA'`, and gives the tuple's first item |
| Typing.IndexedAssignRule | BloodCodeCompiler/semantic_analyzer/SemanticAnalyzer.py:75-84 | assigning into an element passes exactly when the base is an array of `'MARIA'` and the index and value are `'MARIA'`, and gives `'MARIA'` |
| Typing.DeclarationRule | BloodCodeCompiler/semantic_analyzer/SemanticAnalyzer.py:52-63 | a declaration that passes binds each of its names, all new and distinct, to the declared type, and its initializer has that type (`'ARRAY'` for a tuple type) |
| Typing.DeclaredNames | BloodCodeCompiler/semantic_analyzer/SemanticAnalyzer.py:54-55 | declaring a name list succeeds exactly when the names are new and distinct, and then binds each |
| Typing.TypesOf | BloodCodeCompiler/semantic_analyzer/SemanticAnalyzer.py:113-114 | each element's type, in order |
| Typing.ElementsRule | BloodCodeCompiler/semantic_analyzer/SemanticAnalyzer.py:112-118 | the element scan passes exactly when every element has a type and the types agree from the first one that is not `None` |
| Typing.ArrayRule | BloodCodeCompiler/semantic_analyzer/SemanticAnalyzer.py:111-119 | an array passes exactly when its element types agree from the first one that is not `None`; its type is `'ARRAY'` |
| Typing.AgreeAfterNone | BloodCodeCompiler/semantic_analyzer/SemanticAnalyzer.py:115-116 | a leading `None` element type constrains nothing |
| Typing.ArgumentsRule | BloodCodeCompiler/semantic_analyzer/SemanticAnalyzer.py:140-143 | the argument scan passes exactly when each argument has its parameter's type |
| Typing.CallRule | BloodCodeCompiler/semantic_analyzer/SemanticAnalyzer.py:134-145 | a call passes exactly when it has one argument per parameter, each of that parameter's type; it then has the recorded return type |
| Typing.UnknownCallee | BloodCodeCompiler/semantic_analyzer/SemanticAnalyzer.py:134 | a call of an unrecorded name raises |
| Typing.BuiltinRule | BloodCodeCompiler/semantic_analyzer/SemanticAnalyzer.py:122-132 | PRAY and EYES pass exactly with one argument of type `'MARIA'` or `'EILEEN'`, and have no type |
| Typing.ConditionRule | BloodCodeCompiler/semantic_analyzer/SemanticAnalyzer.py:147-159 | an if or a loop that passes has a `'BLOOD'` condition |
| Typing.FunctionDeclarationRule | BloodCodeCompiler/semantic_analyzer/SemanticAnalyzer.py:161-178 | a redeclared function raises; one that passes has its signature recorded, leaves the scopes as they were and, unless its type is `'ROM'`, has a body that returns |
| Typing.ExitRestores | BloodCodeCompiler/semantic_analyzer/SemanticAnalyzer.py:167-178 | leaving the function's scope restores the scopes from before it |
| Typing.RecursionAccepted | BloodCodeCompiler/semantic_analyzer/SemanticAnalyzer.py:165-172 | the signature is recorded before the body is analysed, so a function may call itself |
| Typing.HiddenReturnAccepted | BloodCodeCompiler/semantic_analyzer/SemanticAnalyzer.py:172-176 | the analyser accepts a 'MARIA' function whose body returns only after an `if` that does not return, on which `has_return` as written says no return, so the source raises |
| Analyzer.SemanticAnalyzer.constructor | BloodCodeCompiler/semantic_analyzer/SemanticAnalyzer.py:17-18 | the analyser holds the given environment |
| Analyzer.SemanticAnalyzer.Analyze | BloodCodeCompiler/semantic_analyzer/SemanticAnalyzer.py:20-46 | result and new environment are those of `Typing.Analyze` |
| Analyzer.SemanticAnalyzer.AnalyzeBlock | BloodCodeCompiler/semantic_analyzer/SemanticAnalyzer.py:48-50 | the loop gives `Typing.AnalyzeStatements` |
| Analyzer.SemanticAnalyzer.DeclareEach | BloodCodeCompiler/semantic_analyzer/SemanticAnalyzer.py:54-55 | the loop gives `Typing.DeclareEach` |
| Analyzer.SemanticAnalyzer.AnalyzeDeclaration | BloodCodeCompiler/semantic_analyzer/SemanticAnalyzer.py:52-63 | gives `Typing.AnalyzeDeclaration` |
| Analyzer.SemanticAnalyzer.AnalyzeBinaryOp | BloodCodeCompiler/semantic_analyzer/SemanticAnalyzer.py:65-109 | gives `Typing.AnalyzeBinaryOp` |
| Analyzer.SemanticAnalyzer.IndexedAssign | BloodCodeCompiler/semantic_analyzer/SemanticAnalyzer.py:75-84 | gives `Typing.IndexedAssign` |
| Analyzer.SemanticAnalyzer.Index | BloodCodeCompiler/semantic_analyzer/SemanticAnalyzer.py:89-96 | gives `Typing.Index` |
| Analyzer.SemanticAnalyzer.AnalyzeArray | BloodCodeCompiler/semantic_analyzer/SemanticAnalyzer.py:111-119 | the loop gives `Typing.AnalyzeElements` |
| Analyzer.SemanticAnalyzer.AnalyzeFunctionCall | BloodCodeCompiler/semantic_analyzer/SemanticAnalyzer.py:121-145 | the loop gives `Typing.AnalyzeCall` |
| Analyzer.SemanticAnalyzer.AnalyzeIf | BloodCodeCompiler/semantic_analyzer/SemanticAnalyzer.py:147-153 | gives `Typing.AnalyzeIf` |
| Analyzer.SemanticAnalyzer.AnalyzeLoop | BloodCodeCompiler/semantic_analyzer/SemanticAnalyzer.py:155-159 | gives `Typing.AnalyzeLoop` |
| Analyzer.SemanticAnalyzer.AnalyzeFunctionDeclaration | BloodCodeCompiler/semantic_analyzer/SemanticAnalyzer.py:161-178 | gives `Typing.AnalyzeFunctionDeclaration` |
| Analyzer.SemanticAnalyzer.HasReturn | BloodCodeCompiler/semantic_analyzer/SemanticAnalyzer.py:180-189 | the loop gives the corrected `Typing.HasReturn` |
| Evaluation.NumeralRoundTrip | BloodCodeCompiler/interpreter/interpreter.py:49-52 | `int(str(n))` is `n`, and `str(n)` is all digits |
| Evaluation.Coerce | BloodCodeCompiler/interpreter/interpreter.py:49-52 | an all-digit string becomes its integer, and every other value is unchanged |
| Evaluation.Truthy | BloodCodeCompiler/interpreter/interpreter.py:117 | Python truthiness of a condition: `None`, 0, the empty string and `False` are false; LogicalConnectives uses it |
| Evaluation.Equal | BloodCodeCompiler/interpreter/interpreter.py:90-93 | Python `==`: numbers by value, any other value only equal to itself; EqualityRules states its symmetry |
| Evaluation.Compare | BloodCodeCompiler/interpreter/interpreter.py:94-101 | the orderings: numbers by value, strings by code point, and TypeError for any other pair; OrderingConverse and Trichotomy state its properties |
| Evaluation.Apply | BloodCodeCompiler/interpreter/interpreter.py:54-112 | every operator but ASSIGN on the two coerced values, with the type errors and the unsupported-operator error; OrderingConverse, Trichotomy, EqualityRules, LogicalConnectives and DigitStringsAdd state its properties |
| Evaluation.StrCompareOrder | BloodCodeCompiler/interpreter/interpreter.py:90-101 | the string order is antisymmetric, and only equal strings compare equal |
| Evaluation.OrderingConverse | BloodCodeCompiler/interpreter/interpreter.py:90-101 | `l > r` is `r < l` and `l >= r` is `r <= l`, errors included |
| Evaluation.Trichotomy | BloodCodeCompiler/interpreter/interpreter.py:90-101 | two orderable values are equal exactly when neither is less than the other |
| Evaluation.EqualityRules | BloodCodeCompiler/interpreter/interpreter.py:90-93 | EQUAL is symmetric, and NOT is its negation |
| Evaluation.LogicalConnectives | BloodCodeCompiler/interpreter/interpreter.py:104-109 | BLOODBOND, OLDBLOOD and VILEBLOOD behave as `and`, `or` and `not` on truthiness |
| Evaluation.LaterTrans | BloodCodeCompiler/interpreter/interpreter.py:6-144 | "comes after" is transitive |
| Evaluation.Execute | BloodCodeCompiler/interpreter/interpreter.py:6-28 | `execute`: the value of a node and the state afterwards, or the exception raised; ExecuteLater and ExecuteFuel state its properties |
| Evaluation.ExecuteStatements | BloodCodeCompiler/interpreter/interpreter.py:30-34 | `execute_block`: the statements in order; BlockValue and StatementsSnoc state what it gives |
| Evaluation.DeclareFrom | BloodCodeCompiler/interpreter/interpreter.py:36-42 | the declaration loop from the i-th name; DeclareFromValue, DeclarationRule and DeclarationReevaluates state what it gives |
| Evaluation.ExecuteBinaryOp | BloodCodeCompiler/interpreter/interpreter.py:44-112 | `execute_binary_op`; AssignRule, AssignNeedsIdentifier, DigitStringsAdd and DecimalsConcatenate state what it gives |
| Evaluation.ExecuteIf | BloodCodeCompiler/interpreter/interpreter.py:115-121 | `execute_if_statement`; IfLater and IfFuel state its properties |
| Evaluation.ExecuteLoop | BloodCodeCompiler/interpreter/interpreter.py:123-133 | `execute_loop`: the init clause once, then the iterations; LoopLater and EndlessLoop state what it gives |
| Evaluation.Iterate | BloodCodeCompiler/interpreter/interpreter.py:128-131 | the `while` of `execute_loop` with a bound on the iterations; IterateGivesNone and EndlessIterate state what it gives |
| Evaluation.Step | BloodCodeCompiler/interpreter/interpreter.py:129-131 | one iteration: the body, then the increment if there is one; StepLater and StepFuel state its properties |
| Evaluation.ExecuteCall | BloodCodeCompiler/interpreter/interpreter.py:135-144 | `execute_function_call`; EyesReads, PrayPrints and Unsupported state what it gives |
| Evaluation.PrintFrom | BloodCodeCompiler/interpreter/interpreter.py:140-142 | the PRAY loop from the i-th argument; PrintFromPure states what it appends |
| Evaluation.StatementsSnoc | BloodCodeCompiler/interpreter/interpreter.py:30-34 | one more statement runs after the others |
| Evaluation.BlockValue | BloodCodeCompiler/interpreter/interpreter.py:30-34 | a block gives the value of its last statement, and `None` when empty |
| Evaluation.AssignRule | BloodCodeCompiler/interpreter/interpreter.py:82-87 | ASSIGN to an identifier binds it to the coerced right value, gives that value, and changes nothing else |
| Evaluation.AssignNeedsIdentifier | BloodCodeCompiler/interpreter/interpreter.py:82-87 | ASSIGN to anything else raises, after both sides have run |
| Evaluation.PureKeepsState | BloodCodeCompiler/interpreter/interpreter.py:6-28 | an expression without assignment or calls leaves the state as it was |
| Evaluation.PureFrame | BloodCodeCompiler/interpreter/interpreter.py:6-28 | such an expression's result depends only on the names it reads |
| Evaluation.BindAll | BloodCodeCompiler/interpreter/interpreter.py:37-42 | binding a list of names to one value binds each, keeps every other binding, and adds nothing else |
| Evaluation.DeclareFromValue | BloodCodeCompiler/interpreter/interpreter.py:37-42 | the declaration loop from the i-th name binds the rest of the names |
| Evaluation.DeclarationRule | BloodCodeCompiler/interpreter/interpreter.py:36-42 | a declaration with a pure initializer that does not read the declared names binds every name to its value (or to `None` without one), and gives `None` |
| Evaluation.DeclarationReevaluates | BloodCodeCompiler/interpreter/interpreter.py:37-42 | the initializer runs once per name: `a, b` with `n => n + 1` from `n == 0` gives `a == 1`, `b == 2`, `n == 2` |
| Evaluation.DigitStringsAdd | BloodCodeCompiler/interpreter/interpreter.py:49-61 | two digit literals add as numbers |
| Evaluation.DecimalsConcatenate | BloodCodeCompiler/interpreter/interpreter.py:49-61 | `1.5 + 2.5` is the string `"1.52.5"` |
| Evaluation.Printed | BloodCodeCompiler/interpreter/interpreter.py:139-142 | one printed line per argument |
| Evaluation.PrintedFrame | BloodCodeCompiler/interpreter/interpreter.py:139-142 | the printed lines depend only on the argument values |
| Evaluation.PrintedAfter | BloodCodeCompiler/interpreter/interpreter.py:139-142 | printing does not change the later arguments' values |
| Evaluation.PrintFromPure | BloodCodeCompiler/interpreter/interpreter.py:139-142 | the PRAY loop from the i-th argument appends the printed lines of the rest |
| Evaluation.PrayPrints | BloodCodeCompiler/interpreter/interpreter.py:139-143 | PRAY with pure arguments prints their values in order, changes nothing else, and gives `None` |
| Evaluation.EyesReads | BloodCodeCompiler/interpreter/interpreter.py:136-138 | EYES shows its prompt, then gives and consumes the next input line, or raises when none is left |
| Evaluation.Unsupported | BloodCodeCompiler/interpreter/interpreter.py:6-28 | function declarations, returns, arrays and calls other than EYES and PRAY raise and change nothing |
| Evaluation.ExecuteLater | BloodCodeCompiler/interpreter/interpreter.py:6-28 | executing any node only appends output, consumes input from the front, and never unbinds a name |
| Evaluation.StatementsLater | BloodCodeCompiler/interpreter/interpreter.py:30-34 | the same, for a block |
| Evaluation.DeclareLater | BloodCodeCompiler/interpreter/interpreter.py:36-42 | the same, for a declaration |
| Evaluation.BinaryOpLater | BloodCodeCompiler/interpreter/interpreter.py:44-112 | the same, for an operator |
| Evaluation.IfLater | BloodCodeCompiler/interpreter/interpreter.py:115-121 | the same, for an if statement |
| Evaluation.LoopLater | BloodCodeCompiler/interpreter/interpreter.py:123-133 | the same, for a loop; a loop that ends normally gives `None` |
| Evaluation.IterateLater | BloodCodeCompiler/interpreter/interpreter.py:127-133 | the same, for the iterations |
| Evaluation.StepLater | BloodCodeCompiler/interpreter/interpreter.py:130-133 | the same, for one iteration |
| Evaluation.IterateGivesNone | BloodCodeCompiler/interpreter/interpreter.py:127-133 | iterations that end normally give `None` |
| Evaluation.CallLater | BloodCodeCompiler/interpreter/interpreter.py:135-144 | the same, for a call |
| Evaluation.PrintLater | BloodCodeCompiler/interpreter/interpreter.py:139-143 | PRAY only appends output, and gives `None` |
| Evaluation.ExecuteFuel | BloodCodeCompiler/interpreter/interpreter.py:6-28 | a run that finishes with some fuel gives the same outcome with more |
| Evaluation.StatementsFuel | BloodCodeCompiler/interpreter/interpreter.py:30-34 | the same, for a block |
| Evaluation.DeclareFuel | BloodCodeCompiler/interpreter/interpreter.py:36-42 | the same, for a declaration |
| Evaluation.BinaryOpFuel | BloodCodeCompiler/interpreter/interpreter.py:44-112 | the same, for an operator |
| Evaluation.IfFuel | BloodCodeCompiler/interpreter/interpreter.py:115-121 | the same, for an if statement |
| Evaluation.LoopFuel | BloodCodeCompiler/interpreter/interpreter.py:123-133 | the same, for a loop |
| Evaluation.IterateFuel | BloodCodeCompiler/interpreter/interpreter.py:127-133 | the same, for the iterations, with more fuel and more iterations allowed |
| Evaluation.StepFuel | BloodCodeCompiler/interpreter/interpreter.py:130-133 | the same, for one iteration |
| Evaluation.CallFuel | BloodCodeCompiler/interpreter/interpreter.py:135-144 | the same, for a call |
| Evaluation.PrintFuel | BloodCodeCompiler/interpreter/interpreter.py:139-143 | the same, for the PRAY loop |
| Evaluation.EndlessIterate | BloodCodeCompiler/interpreter/interpreter.py:127-133 | `while "1"` with an empty body uses up any number of iterations |
| Evaluation.EndlessLoop | BloodCodeCompiler/interpreter/interpreter.py:123-133 | a loop whose condition is always truthy never finishes, whatever the fuel |
| Interpreter.Interpreter.constructor | BloodCodeCompiler/interpreter/interpreter.py:3-4 | a new interpreter has no bindings, no output, and the given input lines |
| Interpreter.Interpreter.Run | BloodCodeCompiler/interpreter/interpreter.py:146-147 | result and new state are those of `Evaluation.Execute` |
| Interpreter.Interpreter.Execute | BloodCodeCompiler/interpreter/interpreter.py:6-28 | result and new state are those of `Evaluation.Execute` |
| Interpreter.Interpreter.ExecuteBlock | BloodCodeCompiler/interpreter/interpreter.py:30-34 | the loop gives `Evaluation.Execute` of the block |
| Interpreter.Interpreter.ExecuteDeclaration | BloodCodeCompiler/interpreter/interpreter.py:36-42 | the loop gives `Evaluation.Execute` of the declaration |
| Interpreter.Interpreter.ExecuteBinaryOp | BloodCodeCompiler/interpreter/interpreter.py:44-112 | gives `Evaluation.Execute` of the operator |
| Interpreter.Interpreter.ExecuteIf | BloodCodeCompiler/interpreter/interpreter.py:115-121 | gives `Evaluation.Execute` of the if statement |
| Interpreter.Interpreter.ExecuteLoop | BloodCodeCompiler/interpreter/interpreter.py:123-133 | the `while` loop gives `Evaluation.Execute` of the loop |
| Interpreter.Interpreter.ExecuteCall | BloodCodeCompiler/interpreter/interpreter.py:135-144 | EYES, and the PRAY loop, give `Evaluation.Execute` of the call |

## Left out

- Console I/O. `print` and `input` become the `output` and `input` sequences of the interpreter state. A prompt and a printed line are recorded as values, not as their `str()` text.
- Floating point. DIVIDE of two numbers gives `FloatDivision` (Python gives a float, or raises ZeroDivisionError on zero), so programs that go on to use a quotient are not modelled.
- The exact texts of exception messages. Each `raise` becomes an error tag that carries the values the message mentions.
- Unicode. `str.isdigit()`, `\s`, `\w` and `\d` are modelled on ASCII; Python also accepts other Unicode digits, spaces and letters.
- Evaluation.Execute: a `while` loop runs at most `fuel` iterations per run, and then gives `OutOfFuel`; the source runs without bound.
- Parser.Parser.constructor: it takes a non-empty list. On an empty list `__init__` raises IndexError at parser.py:7; that case is modelled by `Grammar.ParseTokens`, not by the class.
- Grammar.ParseBlock, Grammar.Statements, Grammar.MoreNames, Grammar.ParseTerm: where the source never returns, the model returns `Diverges` or `RecursionOverflow` rather than not terminating.
- `Token.__repr__` (lexer/lexer.py:10-11) reads `self.line`, which does not exist, so it always raises AttributeError. It is not modelled.
- The old lexer imports `BloodCodeCompiler.tokens`, a module that is not part of this model. It is modelled on the same table as the new lexer.
- The web layer (`app.py`, `BloodCodeCompiler/app.py`), `main.py`, the frontend and the tests are not part of this model. Those callers hand the new lexer's `Token` objects to the parser, which indexes tokens as tuples; the parser is modelled on `(kind, text)` pairs.
- Ast: the constructors of the node classes only store their arguments, so the datatype constructors stand for them; `__repr__` is modelled where it does not print a memory address.
- Ast.ReprDefined: a tuple type is not modelled in `Repr`. Python prints a declaration with a tuple type such as `('ARRAY', 'MARIA')` as the tuple's `str()`, with no address, but `Repr` gives `None` there, because Python's quoting and escaping of strings inside a tuple is not modelled. The parser never builds a tuple type.
- Typing.Analyze: for a function declaration it decides "missing return" with the corrected `HasReturn`, where SemanticAnalyzer.py:174-176 calls `has_return` as written. A function with return type 'MARIA', a parameter `c` of type 'BLOOD' and the body `{ Insight (c) { } ; Return 1 }` is accepted here, while the source raises "debe tener una instrucción de retorno" (HiddenReturnAccepted).
- Typing.AnalyzeFunctionDeclaration: the same gap as Typing.Analyze, for the same input; the as-written verdict is `HasReturnAsWritten` (see Findings).
- Typing.FunctionDeclarationRule: it states `HasReturn(body)` for a return type other than 'ROM', not the as-written verdict that the source enforces; the input above separates the two.
- Analyzer.SemanticAnalyzer.Analyze: it follows Typing.Analyze, so it accepts the function body above, which the source rejects.
- Analyzer.SemanticAnalyzer.AnalyzeFunctionDeclaration: it calls the corrected `HasReturn`, not `has_return` as written, so it accepts the body above.
- Analyzer.SemanticAnalyzer.HasReturn: its loop keeps scanning past an `if` that does not return, where SemanticAnalyzer.py:185 returns that `if`'s verdict; on the body above it answers true where the source answers false.
- Analyzer: `analyze_return` (SemanticAnalyzer.py:191-193) is folded into `Typing.Analyze`, and the `SemanticError` formatting (lines 4-15) is not modelled.
- Interpreter: the web layer builds `Interpreter(env)` and reads `prompt_var` and `output`, none of which interpreter.py defines. The model follows interpreter.py, whose constructor takes no argument; the console lines given to the constructor stand for standard input.

## Findings

| source | as written | input that shows it | evidently intended | confidence | as-written member | corrected member |
|---|---|---|---|---|---|---|
| BloodCodeCompiler/semantic_analyzer/SemanticAnalyzer.py:184-185 | `has_return` returns the answer of the first `if` it meets, whether or not that `if` returns | a body `{ Insight (c) { } ; Return 1 }`: the check as written says it does not return | the scan goes on past an `if` that does not return (Typing.AsWrittenSound: the intended check accepts everything the written one accepts) | not executed | Typing.EarlyIfHidesReturn | Typing.AnyReturnsExists |
| BloodCodeCompiler/lexer/tokens.py:7 | the HUNTERS pair is missing its trailing comma, so Python reads the next parentheses as a call of that tuple with the two strings `'GREATONES'` and `'GreatOnes'` as arguments | importing the module: the list display raises TypeError ('tuple' object is not callable) | a comma after the pair, giving the 45-rule table | not executed | TokenDisplay.WrittenDisplayFails | TokenDisplay.IntendedDisplayEvaluates |
