/**
 * The typing rules of semantic_analyzer/SemanticAnalyzer.py, as
 * functions from an environment and a node to the type found and the
 * environment afterwards.
 *
 * `analyze` returns a type for expressions and Python's `None` for
 * statements (`NoType` here); every `raise` is an `Err` whose tag names
 * the rule that failed.  The environment threads through the analysis in
 * the order the source visits the tree, and an error carries the
 * environment as it was when the exception left the analyser (a scope
 * pushed by a function declaration stays pushed when its body fails).
 */
module Typing {
  import opened Wrappers
  import opened Ast
  import opened TypeEnv

  const Maria: Type := Tag("MARIA")
  const Eileen: Type := Tag("EILEEN")
  const Blood: Type := Tag("BLOOD")
  const ArrayTag: Type := Tag("ARRAY")
  const Rom: Type := Tag("ROM")

  /** What the analyser raises, by the check that failed. */
  datatype SemanticError =
    | Unsupported                                   // a node kind `analyze` does not list (RestNode)
    | EnvFailure(cause: EnvError)                   // raised by the type environment
    | ArrayExpected(found: Type)                     // tuple-typed declaration, initializer not 'ARRAY'
    | DeclarationMismatch(declared: Type, found: Type)
    | ArithmeticOperands(left: Type, right: Type)
    | IndexedAssignBase(found: Type)                // indexed assignment into a non-array or a non-'MARIA' array
    | EmptyTuple                                    // `array_type[0]` on an empty tuple type (IndexError)
    | IndexType(found: Type)
    | IndexedAssignValue(found: Type)
    | AssignMismatch(left: Type, right: Type)
    | NotAnArray(found: Type)
    | ComparisonMismatch(left: Type, right: Type)
    | LogicalOperands(left: Type, right: Type)
    | UnsupportedOperator(operator: string)
    | MixedArray(first: Type, found: Type)
    | BuiltinArity(builtin: string, count: nat)
    | BuiltinArgument(builtin: string, found: Type)
    | NotAFunctionName(text: string)                // a string callee other than PRAY/EYES (AttributeError)
    | CallArity(callee: string, parameterCount: nat, argumentCount: nat)
    | ArgumentMismatch(index: nat, expected: Type, found: Type)
    | ConditionNotBlood(found: Type)
    | MissingReturn(fname: string)

  /** The outcome of analysing a node: its type or the error, and the environment afterwards. */
  datatype Analysis = Analysis(result: Result<Type, SemanticError>, env: Env)

  /* ---------------------------------------------------------------- */
  /* Operator classes                                                   */
  /* ---------------------------------------------------------------- */

  predicate IsArithmetic(op: string)
  {
    op == "PLUS" || op == "MINUS" || op == "MULTIPLY" || op == "DIVIDE"
  }

  predicate IsComparison(op: string)
  {
    op == "EQUAL" || op == "NOT" || op == "GREATER" || op == "LESS" || op == "GREATEREQUAL" || op == "LESSEQUAL"
  }

  predicate IsLogical(op: string)
  {
    op == "BLOODBOND" || op == "OLDBLOOD" || op == "VILEBLOOD"
  }

  /* ---------------------------------------------------------------- */
  /* How the environment may change                                     */
  /* ---------------------------------------------------------------- */

  /** Every key of `m` is still in `m2`, with the same value. */
  predicate Extends<K, V(==)>(m: map<K, V>, m2: map<K, V>)
  {
    forall k :: k in m ==> k in m2 && m2[k] == m[k]
  }

  /**
   * `e2` only adds to `e`: scopes may be pushed, the enclosing scopes
   * are untouched, the innermost scope of `e` keeps its bindings, and
   * every recorded signature is kept.
   */
  predicate Grows(e: Env, e2: Env)
    requires Valid(e)
  {
    var last := |e.scopes| - 1;
    && |e.scopes| <= |e2.scopes|
    && (forall i :: 0 <= i < last ==> e2.scopes[i] == e.scopes[i])
    && Extends(e.scopes[last], e2.scopes[last])
    && Extends(e.functions, e2.functions)
  }

  /** The discipline every analysis keeps: the environment only grows, and success leaves the scope depth as it was. */
  predicate Disciplined(env: Env, a: Analysis)
    requires Valid(env)
  {
    Valid(a.env) && Grows(env, a.env) && (a.result.Ok? ==> |a.env.scopes| == |env.scopes|)
  }

  lemma GrowsTrans(e1: Env, e2: Env, e3: Env)
    requires Valid(e1) && Valid(e2) && Grows(e1, e2) && Grows(e2, e3)
    ensures Grows(e1, e3)
  {
    var last := |e1.scopes| - 1;
    if |e1.scopes| < |e2.scopes| {
      assert e3.scopes[last] == e2.scopes[last];
    }
  }

  /** No node anywhere in `n` declares anything. */
  predicate NoDeclarations(n: Node)
  {
    match n
    case Identifier(_) => true
    case Number(_) => true
    case Str(_) => true
    case BinaryOp(l, _, r) => NoDeclarations(l) && NoDeclarations(r)
    case Declaration(_, _, _) => false
    case Block(ss) => forall i :: 0 <= i < |ss| ==> NoDeclarations(ss[i])
    case If(c, t, f) => NoDeclarations(c) && NoDeclarations(t) && (f.Some? ==> NoDeclarations(f.value))
    case Loop(i, c, inc, b) =>
      (i.Some? ==> NoDeclarations(i.value)) && NoDeclarations(c) && (inc.Some? ==> NoDeclarations(inc.value)) && NoDeclarations(b)
    case FunctionCall(_, args) => forall i :: 0 <= i < |args| ==> NoDeclarations(args[i])
    case Rest => true
    case FunctionDeclaration(_, _, _, _) => false
    case Return(e) => NoDeclarations(e)
    case Array(es) => forall i :: 0 <= i < |es| ==> NoDeclarations(es[i])
  }

  /* ---------------------------------------------------------------- */
  /* Declarations                                                       */
  /* ---------------------------------------------------------------- */

  /** The innermost scope. */
  function Innermost(e: Env): Scope
    requires Valid(e)
  {
    e.scopes[|e.scopes| - 1]
  }

  /** Every name of an identifier list paired with the declared type. */
  function Bind(names: seq<string>, t: Type): (bs: seq<(string, Type)>)
    ensures |bs| == |names|
    ensures forall i :: 0 <= i < |names| ==> bs[i] == (names[i], t)
  {
    if names == [] then [] else [(names[0], t)] + Bind(names[1..], t)
  }

  /** The parameter types of a declared function, in order. */
  function ParamTypes(ps: seq<(string, Type)>): (ts: seq<Type>)
    ensures |ts| == |ps|
    ensures forall i :: 0 <= i < |ps| ==> ts[i] == ps[i].1
  {
    if ps == [] then [] else [ps[0].1] + ParamTypes(ps[1..])
  }

  /**
   * `declare_variable` on each binding in order; the first failure
   * raises, leaving the earlier bindings declared.
   */
  function DeclareEach(env: Env, bs: seq<(string, Type)>): (a: Analysis)
    requires Valid(env)
    ensures Valid(a.env) && |a.env.scopes| == |env.scopes| && Grows(env, a.env)
    ensures a.result.Ok? ==> a.result.value == NoType
    decreases |bs|
  {
    if bs == [] then Analysis(Ok(NoType), env)
    else match WithVariable(env, bs[0].0, bs[0].1)
      case Err(x) => Analysis(Err(EnvFailure(x)), env)
      case Ok(e1) =>
        var a := DeclareEach(e1, bs[1..]);
        GrowsTrans(env, e1, a.env);
        a
  }

  /** The names of `bs` are pairwise different. */
  predicate DistinctNames(bs: seq<(string, Type)>)
  {
    forall i, j :: 0 <= i < j < |bs| ==> bs[i].0 != bs[j].0
  }

  /**
   * Declaring a list succeeds exactly when its names are pairwise
   * different and none is already in the innermost scope; then every
   * name is bound there to its type.
   */
  lemma {:induction false} DeclareEachSucceeds(env: Env, bs: seq<(string, Type)>)
    requires Valid(env)
    ensures DeclareEach(env, bs).result.Ok? <==>
      DistinctNames(bs) && forall i :: 0 <= i < |bs| ==> bs[i].0 !in Innermost(env)
    ensures DeclareEach(env, bs).result.Ok? ==>
      forall i :: 0 <= i < |bs| ==>
        bs[i].0 in Innermost(DeclareEach(env, bs).env) && Innermost(DeclareEach(env, bs).env)[bs[i].0] == bs[i].1
    decreases |bs|
  {
    if bs != [] {
      var x := WithVariable(env, bs[0].0, bs[0].1);
      if x.Ok? {
        var e1 := x.value;
        var rest := bs[1..];
        DeclareEachSucceeds(e1, rest);
        assert Innermost(e1) == Innermost(env)[bs[0].0 := bs[0].1];
        assert forall i :: 1 <= i < |bs| ==> bs[i] == rest[i - 1];
        var a := DeclareEach(e1, rest);
        if a.result.Ok? {
          assert Extends(Innermost(e1), Innermost(a.env));
        }
      } else {
        assert bs[0].0 in Innermost(env);
      }
    }
  }

  /* ---------------------------------------------------------------- */
  /* has_return                                                         */
  /* ---------------------------------------------------------------- */

  /**
   * `has_return` as written: the statements are scanned in order, and
   * the first `if` decides the answer whether or not it returns.  `None`
   * is the AttributeError raised on a block that is not a BlockNode.
   */
  function HasReturnAsWritten(block: Node): Option<bool>
    decreases block, 1
  {
    if block.Block? then ScanAsWritten(block.statements) else None
  }

  function ScanAsWritten(ss: seq<Node>): Option<bool>
    decreases ss, 0
  {
    if ss == [] then Some(false)
    else match ss[0]
      case Return(_) => Some(true)
      case If(_, t, f) =>
        var then_ := HasReturnAsWritten(t);
        if then_ != Some(true) then then_
        else if f.None? then Some(true)
        else HasReturnAsWritten(f.value)
      case Block(_) =>
        var inner := HasReturnAsWritten(ss[0]);
        if inner == Some(false) then ScanAsWritten(ss[1..]) else inner
      case _ => ScanAsWritten(ss[1..])
  }

  /**
   * `has_return` as evidently intended: a block returns when one of its
   * statements returns; an `if` returns when its then-block does and its
   * else-block, if any, does too (an `if` without `else` counts, as in
   * the source); a nested block returns when it does.  A node that is
   * not a block does not return.
   */
  function HasReturn(block: Node): bool
    decreases block, 1
  {
    block.Block? && AnyReturns(block.statements)
  }

  function AnyReturns(ss: seq<Node>): bool
    decreases ss, 0
  {
    ss != [] && (Returns(ss[0]) || AnyReturns(ss[1..]))
  }

  function Returns(s: Node): bool
    decreases s, 2
  {
    match s
    case Return(_) => true
    case If(_, t, f) => HasReturn(t) && (f.None? || HasReturn(f.value))
    case Block(_) => HasReturn(s)
    case _ => false
  }

  /** The scan finds a returning statement wherever it is. */
  lemma {:induction false} AnyReturnsExists(ss: seq<Node>)
    ensures AnyReturns(ss) <==> exists i :: 0 <= i < |ss| && Returns(ss[i])
  {
    if ss != [] {
      AnyReturnsExists(ss[1..]);
      if Returns(ss[0]) {
        assert Returns(ss[0]);
      } else {
        forall i | 1 <= i < |ss| && Returns(ss[i])
          ensures exists k :: 0 <= k < |ss[1..]| && Returns(ss[1..][k])
        {
          assert ss[1..][i - 1] == ss[i];
        }
      }
    }
  }

  /** A block whose last statement is a `return` returns. */
  lemma ReturnAtEnd(ss: seq<Node>, e: Node)
    ensures HasReturn(Block(ss + [Return(e)]))
  {
    var all := ss + [Return(e)];
    assert Returns(all[|ss|]);
    AnyReturnsExists(all);
  }

  /** Whatever the code as written accepts, the intended check accepts too. */
  lemma {:induction false} AsWrittenSound(block: Node)
    ensures HasReturnAsWritten(block) == Some(true) ==> HasReturn(block)
    decreases block, 1
  {
    if block.Block? {
      ScanSound(block.statements);
    }
  }

  lemma {:induction false} ScanSound(ss: seq<Node>)
    ensures ScanAsWritten(ss) == Some(true) ==> AnyReturns(ss)
    decreases ss, 0
  {
    if ss != [] {
      var s := ss[0];
      assert s in ss;
      match s
      case Return(_) =>
      case If(_, t, f) =>
        assert t < s && (f.Some? ==> f.value < s);
        AsWrittenSound(t);
        if f.Some? {
          AsWrittenSound(f.value);
        }
      case Block(_) =>
        AsWrittenSound(ss[0]);
        ScanSound(ss[1..]);
      case _ =>
        ScanSound(ss[1..]);
    }
  }

  /**
   * The discrepancy: an `if` without a `return` ahead of a `return`
   * stops the scan, so the block is reported as not returning.
   */
  lemma EarlyIfHidesReturn()
    ensures var body := Block([If(Identifier("c"), Block([]), None), Return(Number("1"))]);
      HasReturnAsWritten(body) == Some(false) && HasReturn(body)
  {
    var body := Block([If(Identifier("c"), Block([]), None), Return(Number("1"))]);
    assert Returns(body.statements[1]);
    AnyReturnsExists(body.statements);
  }

  /* ---------------------------------------------------------------- */
  /* analyze                                                            */
  /* ---------------------------------------------------------------- */

  /** An environment lookup as an analysis result. */
  function Lift(r: Result<Type, EnvError>, env: Env): (a: Analysis)
    ensures a.env == env
  {
    match r
    case Ok(t) => Analysis(Ok(t), env)
    case Err(x) => Analysis(Err(EnvFailure(x)), env)
  }

  /** `analyze`: the type of `n`, `NoType` for statements, or the error raised. */
  function Analyze(env: Env, n: Node): (a: Analysis)
    requires Valid(env)
    ensures Disciplined(env, a)
    ensures NoDeclarations(n) ==> a.env == env
    decreases n, 2
  {
    match n
    case Identifier(name) => Lift(VariableType(env, name), env)
    case Number(_) => Analysis(Ok(Maria), env)
    case Str(_) => Analysis(Ok(Eileen), env)
    case BinaryOp(_, _, _) => AnalyzeBinaryOp(env, n)
    case Declaration(_, _, _) => AnalyzeDeclaration(env, n)
    case Block(ss) => AnalyzeStatements(env, ss)
    case If(_, _, _) => AnalyzeIf(env, n)
    case Loop(_, _, _, _) => AnalyzeLoop(env, n)
    case FunctionCall(_, _) => AnalyzeCall(env, n)
    case Rest => Analysis(Err(Unsupported), env)
    case FunctionDeclaration(_, _, _, _) => AnalyzeFunctionDeclaration(env, n)
    case Return(e) => Analyze(env, e)
    case Array(es) => AnalyzeElements(env, es, NoType)
  }

  /** `analyze_block`: each statement in order; the block itself has no type. */
  function AnalyzeStatements(env: Env, ss: seq<Node>): (a: Analysis)
    requires Valid(env)
    ensures Disciplined(env, a)
    ensures (forall i :: 0 <= i < |ss| ==> NoDeclarations(ss[i])) ==> a.env == env
    ensures a.result.Ok? ==> a.result.value == NoType
    decreases ss, 0
  {
    if ss == [] then Analysis(Ok(NoType), env)
    else
      var s := Analyze(env, ss[0]);
      if s.result.Err? then s
      else
        var rest := AnalyzeStatements(s.env, ss[1..]);
        GrowsTrans(env, s.env, rest.env);
        assert (forall i :: 0 <= i < |ss| ==> NoDeclarations(ss[i])) ==> NoDeclarations(ss[0]);
        assert forall i :: 1 <= i < |ss| ==> ss[1..][i - 1] == ss[i];
        rest
  }

  /**
   * `analyze_declaration`: every name is declared first, then the
   * initializer is analysed; a tuple type wants 'ARRAY', any other type
   * the very same type.
   */
  function AnalyzeDeclaration(env: Env, n: Node): (a: Analysis)
    requires Valid(env) && n.Declaration?
    ensures Disciplined(env, a)
    ensures a.result.Ok? ==> a.result.value == NoType
    decreases n, 1
  {
    var d := DeclareEach(env, Bind(n.names, n.varType));
    if d.result.Err? then d
    else match n.expression
      case None => d
      case Some(e) =>
        var x := Initialized(d.env, n.varType, e);
        GrowsTrans(env, d.env, x.env);
        x
  }

  /** The initializer of a declaration of type `t`: 'ARRAY' for a tuple type, `t` itself otherwise. */
  function Initialized(env: Env, t: Type, e: Node): (a: Analysis)
    requires Valid(env)
    ensures Disciplined(env, a)
    ensures var x := Analyze(env, e);
      && a.env == x.env
      && (a.result.Ok? <==> x.result.Ok? && x.result.value == (if t.Tuple? then ArrayTag else t))
      && (a.result.Ok? ==> a.result.value == NoType)
    decreases e, 3
  {
    var x := Analyze(env, e);
    if x.result.Err? then x
    else if t.Tuple? then
      if x.result.value != ArrayTag then Analysis(Err(ArrayExpected(x.result.value)), x.env)
      else Analysis(Ok(NoType), x.env)
    else if x.result.value != t then Analysis(Err(DeclarationMismatch(t, x.result.value)), x.env)
    else Analysis(Ok(NoType), x.env)
  }

  /**
   * `analyze_binary_op`: both operands are analysed left then right,
   * then the operator's rule applies.
   */
  function AnalyzeBinaryOp(env: Env, n: Node): (a: Analysis)
    requires Valid(env) && n.BinaryOp?
    ensures Disciplined(env, a)
    ensures NoDeclarations(n) ==> a.env == env
    decreases n, 1
  {
    var l := Analyze(env, n.left);
    if l.result.Err? then l
    else
      var r := Analyze(l.env, n.right);
      GrowsTrans(env, l.env, r.env);
      if r.result.Err? then r
      else
        var lt, rt, op := l.result.value, r.result.value, n.operator;
        if IsArithmetic(op) then
          if lt != Maria || rt != Maria then Analysis(Err(ArithmeticOperands(lt, rt)), r.env)
          else Analysis(Ok(Maria), r.env)
        else if op == "ASSIGN" then
          if n.left.BinaryOp? && n.left.operator == "INDEX" then
            var x := IndexedAssign(r.env, n.left, rt);
            GrowsTrans(env, r.env, x.env);
            x
          else if lt != rt then Analysis(Err(AssignMismatch(lt, rt)), r.env)
          else Analysis(Ok(lt), r.env)
        else if op == "INDEX" then
          var x := Index(r.env, n);
          GrowsTrans(env, r.env, x.env);
          x
        else if IsComparison(op) then
          if lt != rt then Analysis(Err(ComparisonMismatch(lt, rt)), r.env)
          else Analysis(Ok(Blood), r.env)
        else if IsLogical(op) then
          if lt != Blood || rt != Blood then Analysis(Err(LogicalOperands(lt, rt)), r.env)
          else Analysis(Ok(Blood), r.env)
        else Analysis(Err(UnsupportedOperator(op)), r.env)
  }

  /**
   * The indexed assignment `target = value` with `target` an INDEX node:
   * the base and the index are analysed once more; the base must be a
   * tuple type whose first item is 'MARIA', the index and the value
   * 'MARIA'.
   */
  function IndexedAssign(env: Env, target: Node, valueType: Type): (a: Analysis)
    requires Valid(env) && target.BinaryOp?
    ensures Disciplined(env, a)
    ensures NoDeclarations(target) ==> a.env == env
    decreases target, 1
  {
    var b := Analyze(env, target.left);
    if b.result.Err? then b
    else
      var base := b.result.value;
      if !base.Tuple? then Analysis(Err(IndexedAssignBase(base)), b.env)
      else if base.items == [] then Analysis(Err(EmptyTuple), b.env)
      else if base.items[0] != Maria then Analysis(Err(IndexedAssignBase(base)), b.env)
      else
        var i := Analyze(b.env, target.right);
        GrowsTrans(env, b.env, i.env);
        if i.result.Err? then i
        else if i.result.value != Maria then Analysis(Err(IndexType(i.result.value)), i.env)
        else if valueType != Maria then Analysis(Err(IndexedAssignValue(valueType)), i.env)
        else Analysis(Ok(base.items[0]), i.env)
  }

  /** The INDEX rule: base and index analysed once more; a tuple base and a 'MARIA' index give the first item. */
  function Index(env: Env, n: Node): (a: Analysis)
    requires Valid(env) && n.BinaryOp?
    ensures Disciplined(env, a)
    ensures NoDeclarations(n) ==> a.env == env
    decreases n, 0
  {
    var b := Analyze(env, n.left);
    if b.result.Err? then b
    else
      var base := b.result.value;
      if !base.Tuple? then Analysis(Err(NotAnArray(base)), b.env)
      else
        var i := Analyze(b.env, n.right);
        GrowsTrans(env, b.env, i.env);
        if i.result.Err? then i
        else if i.result.value != Maria then Analysis(Err(IndexType(i.result.value)), i.env)
        else if base.items == [] then Analysis(Err(EmptyTuple), i.env)
        else Analysis(Ok(base.items[0]), i.env)
  }

  /**
   * `analyze_array`: `seen` is the element type so far, `NoType` while
   * no element has had a type; an element of another type raises.
   */
  function AnalyzeElements(env: Env, es: seq<Node>, seen: Type): (a: Analysis)
    requires Valid(env)
    ensures Disciplined(env, a)
    ensures (forall i :: 0 <= i < |es| ==> NoDeclarations(es[i])) ==> a.env == env
    ensures a.result.Ok? ==> a.result.value == ArrayTag
    decreases es, 0
  {
    if es == [] then Analysis(Ok(ArrayTag), env)
    else
      var x := Analyze(env, es[0]);
      assert (forall i :: 0 <= i < |es| ==> NoDeclarations(es[i])) ==> NoDeclarations(es[0]);
      assert forall i :: 1 <= i < |es| ==> es[1..][i - 1] == es[i];
      if x.result.Err? then x
      else if seen != NoType && x.result.value != seen then Analysis(Err(MixedArray(seen, x.result.value)), x.env)
      else
        var rest := AnalyzeElements(x.env, es[1..], if seen == NoType then x.result.value else seen);
        GrowsTrans(env, x.env, rest.env);
        rest
  }

  /**
   * `analyze_function_call`: PRAY and EYES take one argument of type
   * 'MARIA' or 'EILEEN'; a named function takes as many arguments as it
   * has parameters, each of its parameter's type, and has its recorded
   * return type.
   */
  function AnalyzeCall(env: Env, n: Node): (a: Analysis)
    requires Valid(env) && n.FunctionCall?
    ensures Disciplined(env, a)
    ensures NoDeclarations(n) ==> a.env == env
    decreases n, 1
  {
    match n.callee
    case Builtin(text) =>
      if text != "PRAY" && text != "EYES" then Analysis(Err(NotAFunctionName(text)), env)
      else if |n.arguments| != 1 then Analysis(Err(BuiltinArity(text, |n.arguments|)), env)
      else
        var x := Analyze(env, n.arguments[0]);
        if x.result.Err? then x
        else if x.result.value != Maria && x.result.value != Eileen then Analysis(Err(BuiltinArgument(text, x.result.value)), x.env)
        else Analysis(Ok(NoType), x.env)
    case Named(name) =>
      match FunctionType(env, name)
      case Err(x) => Analysis(Err(EnvFailure(x)), env)
      case Ok(signature) =>
        if |n.arguments| != |signature.0| then Analysis(Err(CallArity(name, |signature.0|, |n.arguments|)), env)
        else
          var x := AnalyzeArguments(env, n.arguments, signature.0, 0);
          if x.result.Err? then x else Analysis(Ok(signature.1), x.env)
  }

  /** The arguments of a call in order, each against its parameter type; `index` is the position of `args[0]`. */
  function AnalyzeArguments(env: Env, args: seq<Node>, params: seq<Type>, index: nat): (a: Analysis)
    requires Valid(env) && |args| == |params|
    ensures Disciplined(env, a)
    ensures (forall i :: 0 <= i < |args| ==> NoDeclarations(args[i])) ==> a.env == env
    decreases args, 0
  {
    if args == [] then Analysis(Ok(NoType), env)
    else
      var x := Analyze(env, args[0]);
      assert (forall i :: 0 <= i < |args| ==> NoDeclarations(args[i])) ==> NoDeclarations(args[0]);
      assert forall i :: 1 <= i < |args| ==> args[1..][i - 1] == args[i];
      if x.result.Err? then x
      else if x.result.value != params[0] then Analysis(Err(ArgumentMismatch(index, params[0], x.result.value)), x.env)
      else
        var rest := AnalyzeArguments(x.env, args[1..], params[1..], index + 1);
        GrowsTrans(env, x.env, rest.env);
        rest
  }

  /** `analyze_if_statement`: a 'BLOOD' condition, then the blocks; no new scope. */
  function AnalyzeIf(env: Env, n: Node): (a: Analysis)
    requires Valid(env) && n.If?
    ensures Disciplined(env, a)
    ensures NoDeclarations(n) ==> a.env == env
    ensures a.result.Ok? ==> a.result.value == NoType
    decreases n, 1
  {
    var c := Analyze(env, n.condition);
    if c.result.Err? then c
    else if c.result.value != Blood then Analysis(Err(ConditionNotBlood(c.result.value)), c.env)
    else
      var t := Analyze(c.env, n.trueBlock);
      GrowsTrans(env, c.env, t.env);
      if t.result.Err? then t
      else match n.falseBlock
        case None => Analysis(Ok(NoType), t.env)
        case Some(f) =>
          var e := Analyze(t.env, f);
          GrowsTrans(env, t.env, e.env);
          if e.result.Err? then e else Analysis(Ok(NoType), e.env)
  }

  /** `analyze_loop`: a 'BLOOD' condition, then the body; the init and increment clauses are not analysed. */
  function AnalyzeLoop(env: Env, n: Node): (a: Analysis)
    requires Valid(env) && n.Loop?
    ensures Disciplined(env, a)
    ensures NoDeclarations(n) ==> a.env == env
    ensures a.result.Ok? ==> a.result.value == NoType
    decreases n, 1
  {
    var c := Analyze(env, n.condition);
    if c.result.Err? then c
    else if c.result.value != Blood then Analysis(Err(ConditionNotBlood(c.result.value)), c.env)
    else
      var b := Analyze(c.env, n.body);
      GrowsTrans(env, c.env, b.env);
      if b.result.Err? then b else Analysis(Ok(NoType), b.env)
  }

  /**
   * `analyze_function_declaration`: the signature is recorded first (so
   * the body may call the function), the parameters are declared in a
   * new scope, the body is analysed, a function whose return type is
   * not 'ROM' must return, and the scope is exited.
   */
  function AnalyzeFunctionDeclaration(env: Env, n: Node): (a: Analysis)
    requires Valid(env) && n.FunctionDeclaration?
    ensures Disciplined(env, a)
    ensures a.result.Ok? ==> a.result.value == NoType
    decreases n, 1
  {
    match WithFunction(env, n.fname, ParamTypes(n.parameters), n.returnType)
    case Err(x) => Analysis(Err(EnvFailure(x)), env)
    case Ok(e0) =>
      var inner := Entered(e0);
      var d := DeclareEach(inner, n.parameters);
      GrowsTrans(env, inner, d.env);
      if d.result.Err? then d
      else
        var b := Analyze(d.env, n.block);
        GrowsTrans(env, d.env, b.env);
        if b.result.Err? then b
        else if n.returnType != Rom && !HasReturn(n.block) then Analysis(Err(MissingReturn(n.fname)), b.env)
        else match Exited(b.env)
          case Err(x) => Analysis(Err(EnvFailure(x)), b.env)
          case Ok(e1) => Analysis(Ok(NoType), e1)
  }

  /* ---------------------------------------------------------------- */
  /* Typing rules                                                       */
  /* ---------------------------------------------------------------- */

  /**
   * Arithmetic wants 'MARIA' on both sides and gives 'MARIA'; strings
   * do not add.
   */
  lemma ArithmeticRule(env: Env, l: Node, op: string, r: Node)
    requires Valid(env) && IsArithmetic(op) && NoDeclarations(l) && NoDeclarations(r)
    ensures var a := Analyze(env, BinaryOp(l, op, r)).result;
      && (a.Ok? <==> Analyze(env, l).result == Ok(Maria) && Analyze(env, r).result == Ok(Maria))
      && (a.Ok? ==> a.value == Maria)
  {
  }

  lemma StringsDoNotAdd(env: Env, x: string, y: string)
    requires Valid(env)
    ensures Analyze(env, BinaryOp(Str(x), "PLUS", Str(y))).result == Err(ArithmeticOperands(Eileen, Eileen))
  {
    var n := BinaryOp(Str(x), "PLUS", Str(y));
    assert Analyze(env, n) == AnalyzeBinaryOp(env, n);
    assert Analyze(env, Str(x)) == Analysis(Ok(Eileen), env);
    assert Analyze(env, Str(y)) == Analysis(Ok(Eileen), env);
  }

  /** A comparison wants two operands of one type and gives 'BLOOD'. */
  lemma ComparisonRule(env: Env, l: Node, op: string, r: Node)
    requires Valid(env) && IsComparison(op) && NoDeclarations(l) && NoDeclarations(r)
    ensures var a := Analyze(env, BinaryOp(l, op, r)).result;
      var lt, rt := Analyze(env, l).result, Analyze(env, r).result;
      && (a.Ok? <==> lt.Ok? && rt.Ok? && lt.value == rt.value)
      && (a.Ok? ==> a.value == Blood)
  {
  }

  /** A logical operator wants 'BLOOD' on both sides and gives 'BLOOD'. */
  lemma LogicalRule(env: Env, l: Node, op: string, r: Node)
    requires Valid(env) && IsLogical(op) && NoDeclarations(l) && NoDeclarations(r)
    ensures var a := Analyze(env, BinaryOp(l, op, r)).result;
      && (a.Ok? <==> Analyze(env, l).result == Ok(Blood) && Analyze(env, r).result == Ok(Blood))
      && (a.Ok? ==> a.value == Blood)
  {
  }

  /** A plain assignment wants both sides of one type, and has that type. */
  lemma AssignRule(env: Env, l: Node, r: Node)
    requires Valid(env) && NoDeclarations(l) && NoDeclarations(r)
    requires !(l.BinaryOp? && l.operator == "INDEX")
    ensures var a := Analyze(env, BinaryOp(l, "ASSIGN", r)).result;
      var lt, rt := Analyze(env, l).result, Analyze(env, r).result;
      && (a.Ok? <==> lt.Ok? && rt.Ok? && lt.value == rt.value)
      && (a.Ok? ==> a.value == lt.value)
  {
  }

  /** Indexing wants a tuple-typed base and a 'MARIA' index, and gives the tuple's first item. */
  lemma IndexRule(env: Env, base: Node, index: Node)
    requires Valid(env) && NoDeclarations(base) && NoDeclarations(index)
    ensures var a := Analyze(env, BinaryOp(base, "INDEX", index)).result;
      var bt := Analyze(env, base).result;
      && (a.Ok? <==> bt.Ok? && bt.value.Tuple? && bt.value.items != [] && Analyze(env, index).result == Ok(Maria))
      && (a.Ok? ==> a.value == bt.value.items[0])
  {
    var n := BinaryOp(base, "INDEX", index);
    assert Analyze(env, n) == AnalyzeBinaryOp(env, n);
    var b, i := Analyze(env, base), Analyze(env, index);
    if b.result.Ok? && i.result.Ok? {
      assert AnalyzeBinaryOp(env, n) == Index(env, n);
    }
  }

  /**
   * Assigning into an indexed element wants an array of 'MARIA', a
   * 'MARIA' index and a 'MARIA' value, and gives 'MARIA'.
   */
  lemma IndexedAssignRule(env: Env, base: Node, index: Node, value: Node)
    requires Valid(env) && NoDeclarations(base) && NoDeclarations(index) && NoDeclarations(value)
    ensures var a := Analyze(env, BinaryOp(BinaryOp(base, "INDEX", index), "ASSIGN", value)).result;
      var bt := Analyze(env, base).result;
      && (a.Ok? <==>
            && bt.Ok? && bt.value.Tuple? && bt.value.items != [] && bt.value.items[0] == Maria
            && Analyze(env, index).result == Ok(Maria) && Analyze(env, value).result == Ok(Maria))
      && (a.Ok? ==> a.value == Maria)
  {
    var target := BinaryOp(base, "INDEX", index);
    var n := BinaryOp(target, "ASSIGN", value);
    IndexRule(env, base, index);
    assert Analyze(env, n) == AnalyzeBinaryOp(env, n);
    var t, v := Analyze(env, target), Analyze(env, value);
    if t.result.Ok? && v.result.Ok? {
      assert AnalyzeBinaryOp(env, n) == IndexedAssign(env, target, v.result.value);
    }
  }

  /** No name of `names` is bound in `s`. */
  predicate AllNew(s: Scope, names: seq<string>)
  {
    forall i :: 0 <= i < |names| ==> names[i] !in s
  }

  /** The names are pairwise different. */
  predicate Distinct(names: seq<string>)
  {
    forall i, j :: 0 <= i < j < |names| ==> names[i] != names[j]
  }

  /** Every name of `names` is bound in `s` to `t`. */
  predicate BindsAll(s: Scope, names: seq<string>, t: Type)
  {
    forall i :: 0 <= i < |names| ==> names[i] in s && s[names[i]] == t
  }

  /**
   * A declaration that passes has declared each of its names, all new to
   * the innermost scope and pairwise different, with the declared type,
   * and its initializer has that type ('ARRAY' for a tuple type).
   */
  lemma DeclarationRule(env: Env, names: seq<string>, t: Type, e: Option<Node>)
    requires Valid(env)
    ensures var a := Analyze(env, Declaration(names, t, e));
      a.result.Ok? ==> AllNew(Innermost(env), names) && Distinct(names) && BindsAll(Innermost(a.env), names, t)
    ensures var d := DeclareEach(env, Bind(names, t));
      Analyze(env, Declaration(names, t, e)).result.Ok? && e.Some? ==>
        var x := Analyze(d.env, e.value).result;
        x.Ok? && x.value == (if t.Tuple? then ArrayTag else t)
  {
    var d := DeclareEach(env, Bind(names, t));
    var a := Analyze(env, Declaration(names, t, e));
    assert a == AnalyzeDeclaration(env, Declaration(names, t, e));
    if a.result.Ok? {
      assert d.result.Ok?;
      DeclaredNames(env, names, t);
      if e.Some? {
        assert a == Initialized(d.env, t, e.value);
      } else {
        assert a == d;
      }
      BoundStaysBound(Innermost(d.env), Innermost(a.env), names, t);
    }
  }

  /** Declaring an identifier list succeeds exactly when its names are new and distinct, and then binds each. */
  lemma DeclaredNames(env: Env, names: seq<string>, t: Type)
    requires Valid(env)
    ensures var d := DeclareEach(env, Bind(names, t));
      && (d.result.Ok? <==> AllNew(Innermost(env), names) && Distinct(names))
      && (d.result.Ok? ==> BindsAll(Innermost(d.env), names, t))
  {
    var bs := Bind(names, t);
    DeclareEachSucceeds(env, bs);
    assert forall i :: 0 <= i < |names| ==> bs[i].0 == names[i];
    if Distinct(names) {
      forall i, j | 0 <= i < j < |bs|
        ensures bs[i].0 != bs[j].0
      {
        assert bs[i].0 == names[i] && bs[j].0 == names[j];
      }
    }
    if DistinctNames(bs) {
      forall i, j | 0 <= i < j < |names|
        ensures names[i] != names[j]
      {
        assert bs[i].0 == names[i] && bs[j].0 == names[j];
      }
    }
  }

  lemma BoundStaysBound(s: Scope, s2: Scope, names: seq<string>, t: Type)
    requires Extends(s, s2) && BindsAll(s, names, t)
    ensures BindsAll(s2, names, t)
  {
  }

  /** The types of elements analysed each in `env`, when all of them have one. */
  predicate AllTyped(env: Env, es: seq<Node>)
    requires Valid(env)
  {
    forall i :: 0 <= i < |es| ==> Analyze(env, es[i]).result.Ok?
  }

  function TypesOf(env: Env, es: seq<Node>): (ts: seq<Type>)
    requires Valid(env) && AllTyped(env, es)
    ensures |ts| == |es|
    ensures forall i :: 0 <= i < |es| ==> ts[i] == Analyze(env, es[i]).result.value
  {
    if es == [] then [] else [Analyze(env, es[0]).result.value] + TypesOf(env, es[1..])
  }

  /** Once a type other than `NoType` appears, every later type is the same. */
  predicate Agree(ts: seq<Type>)
  {
    forall i, j :: 0 <= i < j < |ts| && ts[i] != NoType ==> ts[j] == ts[i]
  }

  lemma AgreeStep(seen: Type, t: Type, rest: seq<Type>)
    requires seen == NoType || t == seen
    ensures Agree([seen] + ([t] + rest)) <==> Agree([if seen == NoType then t else seen] + rest)
  {
    var next := if seen == NoType then t else seen;
    var long, short := [seen] + ([t] + rest), [next] + rest;
    assert forall i :: 1 <= i < |long| ==> long[i] == short[i - 1];
    if Agree(long) {
      forall i, j | 0 <= i < j < |short| && short[i] != NoType
        ensures short[j] == short[i]
      {
        if i > 0 || seen == NoType {
          assert long[i + 1] == short[i] && long[j + 1] == short[j];
        } else {
          assert long[0] == short[0] && long[j + 1] == short[j];
        }
      }
    }
    if Agree(short) {
      forall i, j | 0 <= i < j < |long| && long[i] != NoType
        ensures long[j] == long[i]
      {
        if i > 0 {
          assert long[i] == short[i - 1];
        } else if j > 1 {
          assert long[j] == short[j - 1] && short[0] == seen;
        }
      }
    }
  }

  /** The element scan with `seen` in front of the remaining types. */
  lemma {:induction false} ElementsRule(env: Env, es: seq<Node>, seen: Type)
    requires Valid(env) && forall i :: 0 <= i < |es| ==> NoDeclarations(es[i])
    ensures AnalyzeElements(env, es, seen).result.Ok? <==> AllTyped(env, es) && Agree([seen] + TypesOf(env, es))
    decreases |es|
  {
    if es != [] {
      var x := Analyze(env, es[0]);
      if x.result.Ok? {
        var t := x.result.value;
        if seen != NoType && t != seen {
          ElementsMismatch(env, es, seen);
        } else {
          var rest := es[1..];
          assert forall i :: 0 <= i < |rest| ==> rest[i] == es[i + 1];
          ElementsRule(env, rest, if seen == NoType then t else seen);
          ElementsAgree(env, es, seen);
        }
      }
    }
  }

  /** An element whose type differs from the one already seen fails the scan and breaks agreement. */
  lemma ElementsMismatch(env: Env, es: seq<Node>, seen: Type)
    requires Valid(env) && es != [] && NoDeclarations(es[0])
    requires Analyze(env, es[0]).result.Ok? && seen != NoType && Analyze(env, es[0]).result.value != seen
    ensures AnalyzeElements(env, es, seen).result.Err?
    ensures AllTyped(env, es) ==> !Agree([seen] + TypesOf(env, es))
  {
    if AllTyped(env, es) {
      var ts := [seen] + TypesOf(env, es);
      assert ts[0] == seen && ts[1] == Analyze(env, es[0]).result.value;
    }
  }

  /** An element that agrees with the type seen so far: the scan goes on with the rest. */
  lemma ElementsAgree(env: Env, es: seq<Node>, seen: Type)
    requires Valid(env) && es != [] && NoDeclarations(es[0])
    requires Analyze(env, es[0]).result.Ok?
    requires var t := Analyze(env, es[0]).result.value; seen == NoType || t == seen
    requires var t := Analyze(env, es[0]).result.value;
      var next := if seen == NoType then t else seen;
      AnalyzeElements(env, es[1..], next).result.Ok? <==> AllTyped(env, es[1..]) && Agree([next] + TypesOf(env, es[1..]))
    ensures AnalyzeElements(env, es, seen).result.Ok? <==> AllTyped(env, es) && Agree([seen] + TypesOf(env, es))
  {
    var t := Analyze(env, es[0]).result.value;
    AllTypedCons(env, es);
    if AllTyped(env, es) {
      assert TypesOf(env, es) == [t] + TypesOf(env, es[1..]);
      AgreeStep(seen, t, TypesOf(env, es[1..]));
    }
  }

  /** With a typed first element, the elements are typed exactly when the rest are. */
  lemma AllTypedCons(env: Env, es: seq<Node>)
    requires Valid(env) && es != [] && Analyze(env, es[0]).result.Ok?
    ensures AllTyped(env, es) <==> AllTyped(env, es[1..])
  {
    if AllTyped(env, es[1..]) {
      AllTypedFront(env, es);
    }
    if AllTyped(env, es) {
      AllTypedTail(env, es);
    }
  }

  lemma AllTypedFront(env: Env, es: seq<Node>)
    requires Valid(env) && es != [] && Analyze(env, es[0]).result.Ok? && AllTyped(env, es[1..])
    ensures AllTyped(env, es)
  {
    var rest := es[1..];
    forall i | 0 <= i < |es|
      ensures Analyze(env, es[i]).result.Ok?
    {
      if i > 0 {
        assert es[i] == rest[i - 1];
      }
    }
  }

  lemma AllTypedTail(env: Env, es: seq<Node>)
    requires Valid(env) && es != [] && AllTyped(env, es)
    ensures AllTyped(env, es[1..])
  {
    var rest := es[1..];
    forall i | 0 <= i < |rest|
      ensures Analyze(env, rest[i]).result.Ok?
    {
      assert rest[i] == es[i + 1];
    }
  }



  /**
   * An array literal of declaration-free elements passes exactly when
   * every element has a type and, from the first element whose type is
   * not `None` on, every element has that same type; its type is 'ARRAY'.
   */
  lemma ArrayRule(env: Env, es: seq<Node>)
    requires Valid(env) && forall i :: 0 <= i < |es| ==> NoDeclarations(es[i])
    ensures var a := Analyze(env, Array(es)).result;
      && (a.Ok? <==> AllTyped(env, es) && Agree(TypesOf(env, es)))
      && (a.Ok? ==> a.value == ArrayTag)
  {
    assert Analyze(env, Array(es)) == AnalyzeElements(env, es, NoType);
    ElementsRule(env, es, NoType);
    if AllTyped(env, es) {
      AgreeAfterNone(TypesOf(env, es));
    }
  }

  /** A leading `NoType` constrains nothing. */
  lemma AgreeAfterNone(ts: seq<Type>)
    ensures Agree([NoType] + ts) <==> Agree(ts)
  {
    var long := [NoType] + ts;
    assert forall i :: 1 <= i < |long| ==> long[i] == ts[i - 1];
    if Agree(ts) {
      forall i, j | 0 <= i < j < |long| && long[i] != NoType
        ensures long[j] == long[i]
      {
        assert ts[i - 1] != NoType;
      }
    }
    if Agree(long) {
      forall i, j | 0 <= i < j < |ts| && ts[i] != NoType
        ensures ts[j] == ts[i]
      {
        assert long[i + 1] == ts[i] && long[j + 1] == ts[j];
      }
    }
  }

  /** The argument scan: each argument has its parameter's type. */
  lemma {:induction false} ArgumentsRule(env: Env, args: seq<Node>, params: seq<Type>, index: nat)
    requires Valid(env) && |args| == |params| && forall i :: 0 <= i < |args| ==> NoDeclarations(args[i])
    ensures AnalyzeArguments(env, args, params, index).result.Ok? <==>
      forall i :: 0 <= i < |args| ==> Analyze(env, args[i]).result == Ok(params[i])
    decreases |args|
  {
    if args != [] {
      var rest := args[1..];
      assert forall i :: 1 <= i < |args| ==> rest[i - 1] == args[i];
      ArgumentsRule(Analyze(env, args[0]).env, rest, params[1..], index + 1);
    }
  }

  /**
   * A call of a recorded function passes exactly when it has one
   * argument per parameter, each of the parameter's type; it then has
   * the recorded return type.
   */
  lemma CallRule(env: Env, name: string, args: seq<Node>)
    requires Valid(env) && name in env.functions && forall i :: 0 <= i < |args| ==> NoDeclarations(args[i])
    ensures var a := Analyze(env, FunctionCall(Named(name), args)).result;
      var (params, ret) := env.functions[name];
      && (a.Ok? <==> |args| == |params| && forall i :: 0 <= i < |args| ==> Analyze(env, args[i]).result == Ok(params[i]))
      && (a.Ok? ==> a.value == ret)
  {
    var params := env.functions[name].0;
    if |args| == |params| {
      ArgumentsRule(env, args, params, 0);
    }
  }

  /** A call of an unrecorded name raises. */
  lemma UnknownCallee(env: Env, name: string, args: seq<Node>)
    requires Valid(env) && name !in env.functions
    ensures Analyze(env, FunctionCall(Named(name), args)).result == Err(EnvFailure(FunctionUndeclared(name)))
  {
  }

  /** PRAY and EYES take exactly one 'MARIA' or 'EILEEN' argument and have no type. */
  lemma BuiltinRule(env: Env, text: string, args: seq<Node>)
    requires Valid(env) && (text == "PRAY" || text == "EYES")
    ensures var a := Analyze(env, FunctionCall(Builtin(text), args)).result;
      && (a.Ok? <==> |args| == 1 && (Analyze(env, args[0]).result == Ok(Maria) || Analyze(env, args[0]).result == Ok(Eileen)))
      && (a.Ok? ==> a.value == NoType)
  {
    var n := FunctionCall(Builtin(text), args);
    assert Analyze(env, n) == AnalyzeCall(env, n);
  }

  /** The condition of an `if` and of a loop must be 'BLOOD'. */
  lemma ConditionRule(env: Env, n: Node)
    requires Valid(env) && (n.If? || n.Loop?)
    ensures Analyze(env, n).result.Ok? ==> Analyze(env, n.condition).result == Ok(Blood)
  {
    if n.If? {
      assert Analyze(env, n) == AnalyzeIf(env, n);
    } else {
      assert Analyze(env, n) == AnalyzeLoop(env, n);
    }
  }

  /**
   * A function declaration that passes has recorded its signature and
   * left the scopes exactly as they were, and a function not returning
   * 'ROM' has a body that returns; a second declaration of a name raises.
   */
  lemma FunctionDeclarationRule(env: Env, name: string, ps: seq<(string, Type)>, ret: Type, body: Node)
    requires Valid(env)
    ensures var a := Analyze(env, FunctionDeclaration(name, ps, ret, body));
      && (name in env.functions ==> a.result == Err(EnvFailure(FunctionRedeclared(name))))
      && (a.result.Ok? ==>
            && FunctionType(a.env, name) == Ok((ParamTypes(ps), ret))
            && a.env.scopes == env.scopes
            && (ret != Rom ==> HasReturn(body)))
  {
    var n := FunctionDeclaration(name, ps, ret, body);
    var a := Analyze(env, n);
    assert a == AnalyzeFunctionDeclaration(env, n);
    if a.result.Ok? {
      var e0 := WithFunction(env, name, ParamTypes(ps), ret).value;
      var inner := Entered(e0);
      var d := DeclareEach(inner, ps);
      var b := Analyze(d.env, body);
      assert d.result.Ok? && b.result.Ok?;
      assert Exited(b.env) == Ok(a.env);
      GrowsTrans(inner, d.env, b.env);
      ExitRestores(env, inner, b.env, a.env);
    }
  }

  /** Leaving a scope entered on top of `env` gives back the scopes of `env`, whatever was declared inside. */
  lemma ExitRestores(env: Env, inner: Env, b: Env, a: Env)
    requires Valid(env) && inner.scopes == env.scopes + [map[]]
    requires Valid(inner) && Grows(inner, b) && |b.scopes| == |inner.scopes|
    requires Exited(b) == Ok(a)
    ensures a.scopes == env.scopes
  {
    forall i | 0 <= i < |env.scopes|
      ensures a.scopes[i] == env.scopes[i]
    {
      assert b.scopes[i] == inner.scopes[i];
    }
  }

  /** The signature is recorded before the body is analysed, so a function may call itself. */
  lemma RecursionAccepted()
    ensures var body := Block([Return(FunctionCall(Named("f"), [Identifier("x")]))]);
      Analyze(Fresh(), FunctionDeclaration("f", [("x", Maria)], Maria, body)).result == Ok(NoType)
  {
    var call := FunctionCall(Named("f"), [Identifier("x")]);
    var body := Block([Return(call)]);
    var n := FunctionDeclaration("f", [("x", Maria)], Maria, body);
    var fs := map["f" := ([Maria], Maria)];
    var e0 := Env([map[]], fs);
    var e1 := Env([map[], map["x" := Maria]], fs);
    assert ParamTypes([("x", Maria)]) == [Maria];
    assert WithFunction(Fresh(), "f", [Maria], Maria) == Ok(e0);
    assert Entered(e0) == Env([map[], map[]], fs);
    assert DeclareEach(Entered(e0), [("x", Maria)]) == Analysis(Ok(NoType), e1);
    assert Lookup(e1.scopes, "x") == Some(Maria);
    assert AnalyzeArguments(e1, [Identifier("x")], [Maria], 0) == Analysis(Ok(NoType), e1);
    assert Analyze(e1, call) == Analysis(Ok(Maria), e1);
    assert AnalyzeStatements(e1, [Return(call)]) == Analysis(Ok(NoType), e1);
    assert Returns(body.statements[0]);
    assert Exited(e1) == Ok(e0);
    assert Analyze(Fresh(), n) == AnalyzeFunctionDeclaration(Fresh(), n);
  }

  /**
   * The analyser decides "missing return" with the corrected `HasReturn`:
   * a function whose body returns only after an `if` that does not
   * return passes, where `has_return` as written says it does not return
   * and the source raises.
   */
  lemma HiddenReturnAccepted()
    ensures var body := Block([If(Identifier("c"), Block([]), None), Return(Number("1"))]);
      && Analyze(Fresh(), FunctionDeclaration("f", [("c", Blood)], Maria, body)).result == Ok(NoType)
      && HasReturnAsWritten(body) == Some(false)
  {
    var cond := If(Identifier("c"), Block([]), None);
    var body := Block([cond, Return(Number("1"))]);
    var n := FunctionDeclaration("f", [("c", Blood)], Maria, body);
    var fs := map["f" := ([Blood], Maria)];
    var e0 := Env([map[]], fs);
    var e1 := Env([map[], map["c" := Blood]], fs);
    assert ParamTypes([("c", Blood)]) == [Blood];
    assert WithFunction(Fresh(), "f", [Blood], Maria) == Ok(e0);
    assert Entered(e0) == Env([map[], map[]], fs);
    assert DeclareEach(Entered(e0), [("c", Blood)]) == Analysis(Ok(NoType), e1);
    assert Lookup(e1.scopes, "c") == Some(Blood);
    assert Analyze(e1, Block([])) == Analysis(Ok(NoType), e1);
    assert Analyze(e1, cond) == Analysis(Ok(NoType), e1);
    assert AnalyzeStatements(e1, [Return(Number("1"))]) == Analysis(Ok(NoType), e1);
    assert AnalyzeStatements(e1, body.statements) == Analysis(Ok(NoType), e1);
    assert Returns(body.statements[1]);
    assert Exited(e1) == Ok(e0);
    assert Analyze(Fresh(), n) == AnalyzeFunctionDeclaration(Fresh(), n);
    EarlyIfHidesReturn();
  }
}
