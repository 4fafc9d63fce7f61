/**
 * The class of semantic_analyzer/SemanticAnalyzer.py: a
 * `SemanticAnalyzer` holds a `TypeEnvironment` and updates it in place
 * as it walks the tree.  Each method is proved to give the result and
 * leave the environment in the state that the typing function of the
 * same rule describes.
 */
module Analyzer {
  import opened Wrappers
  import opened Ast
  import opened TypeEnv
  import opened Typing

  /** The method returned `r` and left the environment in `e`, as the analysis `a` says. */
  predicate Follows(a: Analysis, r: Result<Type, SemanticError>, e: Env)
  {
    r == a.result && e == a.env
  }

  class SemanticAnalyzer {
    const env: TypeEnvironment

    constructor (env: TypeEnvironment)
      ensures this.env == env
    {
      this.env := env;
    }

    /** `analyze`: dispatch on the node class. */
    method Analyze(n: Node) returns (r: Result<Type, SemanticError>)
      requires Valid(env.State())
      modifies env
      ensures Follows(Typing.Analyze(old(env.State()), n), r, env.State())
      decreases n, 2
    {
      match n
      case Block(_) =>
        r := AnalyzeBlock(n);
      case Declaration(_, _, _) =>
        r := AnalyzeDeclaration(n);
      case BinaryOp(_, _, _) =>
        r := AnalyzeBinaryOp(n);
      case Number(_) =>
        r := Ok(Maria);
      case Str(_) =>
        r := Ok(Eileen);
      case Identifier(name) =>
        var t := env.GetVariableType(name);
        r := if t.Ok? then Ok(t.value) else Err(EnvFailure(t.error));
      case Array(_) =>
        r := AnalyzeArray(n);
      case FunctionCall(_, _) =>
        r := AnalyzeFunctionCall(n);
      case If(_, _, _) =>
        r := AnalyzeIf(n);
      case Loop(_, _, _, _) =>
        r := AnalyzeLoop(n);
      case FunctionDeclaration(_, _, _, _) =>
        r := AnalyzeFunctionDeclaration(n);
      case Return(e) =>
        r := Analyze(e);
      case Rest =>
        r := Err(Unsupported);
    }

    /** `analyze_block`. */
    method AnalyzeBlock(n: Node) returns (r: Result<Type, SemanticError>)
      requires Valid(env.State()) && n.Block?
      modifies env
      ensures Follows(Typing.AnalyzeStatements(old(env.State()), n.statements), r, env.State())
      decreases n, 1
    {
      var ss := n.statements;
      var i := 0;
      while i < |ss|
        invariant 0 <= i <= |ss|
        invariant Valid(env.State())
        invariant Typing.AnalyzeStatements(env.State(), ss[i..]) == Typing.AnalyzeStatements(old(env.State()), ss)
      {
        assert ss[i..][1..] == ss[i + 1..];
        var x := Analyze(ss[i]);
        if x.Err? {
          return x;
        }
        i := i + 1;
      }
      r := Ok(NoType);
    }

    /** The `declare_variable` loop of a declaration and of a function's parameters. */
    method DeclareEach(bs: seq<(string, Type)>) returns (r: Result<Type, SemanticError>)
      requires Valid(env.State())
      modifies env
      ensures Follows(Typing.DeclareEach(old(env.State()), bs), r, env.State())
    {
      var i := 0;
      while i < |bs|
        invariant 0 <= i <= |bs|
        invariant Valid(env.State())
        invariant Typing.DeclareEach(env.State(), bs[i..]) == Typing.DeclareEach(old(env.State()), bs)
      {
        assert bs[i..][1..] == bs[i + 1..];
        var x := env.DeclareVariable(bs[i].0, bs[i].1);
        if x.Err? {
          return Err(EnvFailure(x.error));
        }
        i := i + 1;
      }
      r := Ok(NoType);
    }

    /** `analyze_declaration`. */
    method AnalyzeDeclaration(n: Node) returns (r: Result<Type, SemanticError>)
      requires Valid(env.State()) && n.Declaration?
      modifies env
      ensures Follows(Typing.AnalyzeDeclaration(old(env.State()), n), r, env.State())
      decreases n, 1
    {
      r := DeclareEach(Bind(n.names, n.varType));
      if r.Err? || n.expression.None? {
        return;
      }
      var x := Analyze(n.expression.value);
      if x.Err? {
        return x;
      }
      if n.varType.Tuple? {
        if x.value != ArrayTag {
          return Err(ArrayExpected(x.value));
        }
      } else if x.value != n.varType {
        return Err(DeclarationMismatch(n.varType, x.value));
      }
      r := Ok(NoType);
    }

    /** `analyze_binary_op`. */
    method AnalyzeBinaryOp(n: Node) returns (r: Result<Type, SemanticError>)
      requires Valid(env.State()) && n.BinaryOp?
      modifies env
      ensures Follows(Typing.AnalyzeBinaryOp(old(env.State()), n), r, env.State())
      decreases n, 1
    {
      var l := Analyze(n.left);
      if l.Err? {
        return l;
      }
      var rt := Analyze(n.right);
      if rt.Err? {
        return rt;
      }
      var op := n.operator;
      if IsArithmetic(op) {
        if l.value != Maria || rt.value != Maria {
          return Err(ArithmeticOperands(l.value, rt.value));
        }
        r := Ok(Maria);
      } else if op == "ASSIGN" {
        if n.left.BinaryOp? && n.left.operator == "INDEX" {
          r := IndexedAssign(n.left, rt.value);
        } else if l.value != rt.value {
          r := Err(AssignMismatch(l.value, rt.value));
        } else {
          r := Ok(l.value);
        }
      } else if op == "INDEX" {
        r := Index(n);
      } else if IsComparison(op) {
        if l.value != rt.value {
          return Err(ComparisonMismatch(l.value, rt.value));
        }
        r := Ok(Blood);
      } else if IsLogical(op) {
        if l.value != Blood || rt.value != Blood {
          return Err(LogicalOperands(l.value, rt.value));
        }
        r := Ok(Blood);
      } else {
        r := Err(UnsupportedOperator(op));
      }
    }

    /** The ASSIGN rule for an INDEX target. */
    method IndexedAssign(target: Node, valueType: Type) returns (r: Result<Type, SemanticError>)
      requires Valid(env.State()) && target.BinaryOp?
      modifies env
      ensures Follows(Typing.IndexedAssign(old(env.State()), target, valueType), r, env.State())
      decreases target, 1
    {
      var base := Analyze(target.left);
      if base.Err? {
        return base;
      }
      var t := base.value;
      if !t.Tuple? {
        return Err(IndexedAssignBase(t));
      } else if t.items == [] {
        return Err(EmptyTuple);
      } else if t.items[0] != Maria {
        return Err(IndexedAssignBase(t));
      }
      var index := Analyze(target.right);
      if index.Err? {
        return index;
      }
      if index.value != Maria {
        return Err(IndexType(index.value));
      }
      if valueType != Maria {
        return Err(IndexedAssignValue(valueType));
      }
      r := Ok(t.items[0]);
    }

    /** The INDEX rule. */
    method Index(n: Node) returns (r: Result<Type, SemanticError>)
      requires Valid(env.State()) && n.BinaryOp?
      modifies env
      ensures Follows(Typing.Index(old(env.State()), n), r, env.State())
      decreases n, 0
    {
      var base := Analyze(n.left);
      if base.Err? {
        return base;
      }
      var t := base.value;
      if !t.Tuple? {
        return Err(NotAnArray(t));
      }
      var index := Analyze(n.right);
      if index.Err? {
        return index;
      }
      if index.value != Maria {
        return Err(IndexType(index.value));
      }
      if t.items == [] {
        return Err(EmptyTuple);
      }
      r := Ok(t.items[0]);
    }

    /** `analyze_array`: `elementType` is `NoType` until an element has a type. */
    method AnalyzeArray(n: Node) returns (r: Result<Type, SemanticError>)
      requires Valid(env.State()) && n.Array?
      modifies env
      ensures Follows(Typing.AnalyzeElements(old(env.State()), n.elements, NoType), r, env.State())
      decreases n, 1
    {
      var es := n.elements;
      var elementType := NoType;
      var i := 0;
      while i < |es|
        invariant 0 <= i <= |es|
        invariant Valid(env.State())
        invariant Typing.AnalyzeElements(env.State(), es[i..], elementType)
               == Typing.AnalyzeElements(old(env.State()), es, NoType)
      {
        assert es[i..][1..] == es[i + 1..];
        var x := Analyze(es[i]);
        if x.Err? {
          return x;
        }
        if elementType == NoType {
          elementType := x.value;
        } else if x.value != elementType {
          return Err(MixedArray(elementType, x.value));
        }
        i := i + 1;
      }
      r := Ok(ArrayTag);
    }

    /** `analyze_function_call`. */
    method AnalyzeFunctionCall(n: Node) returns (r: Result<Type, SemanticError>)
      requires Valid(env.State()) && n.FunctionCall?
      modifies env
      ensures Follows(Typing.AnalyzeCall(old(env.State()), n), r, env.State())
      decreases n, 1
    {
      var args := n.arguments;
      if n.callee.Builtin? {
        var text := n.callee.text;
        if text != "PRAY" && text != "EYES" {
          return Err(NotAFunctionName(text));
        }
        if |args| != 1 {
          return Err(BuiltinArity(text, |args|));
        }
        var x := Analyze(args[0]);
        if x.Err? {
          return x;
        }
        if x.value != Maria && x.value != Eileen {
          return Err(BuiltinArgument(text, x.value));
        }
        return Ok(NoType);
      }
      var name := n.callee.name;
      var signature := env.GetFunctionType(name);
      if signature.Err? {
        return Err(EnvFailure(signature.error));
      }
      var (params, ret) := signature.value;
      if |args| != |params| {
        return Err(CallArity(name, |params|, |args|));
      }
      var i := 0;
      while i < |args|
        invariant 0 <= i <= |args|
        invariant Valid(env.State())
        invariant Typing.AnalyzeArguments(env.State(), args[i..], params[i..], i)
               == Typing.AnalyzeArguments(old(env.State()), args, params, 0)
      {
        assert args[i..][1..] == args[i + 1..] && params[i..][1..] == params[i + 1..];
        var x := Analyze(args[i]);
        if x.Err? {
          return x;
        }
        if x.value != params[i] {
          return Err(ArgumentMismatch(i, params[i], x.value));
        }
        i := i + 1;
      }
      r := Ok(ret);
    }

    /** `analyze_if_statement`. */
    method AnalyzeIf(n: Node) returns (r: Result<Type, SemanticError>)
      requires Valid(env.State()) && n.If?
      modifies env
      ensures Follows(Typing.AnalyzeIf(old(env.State()), n), r, env.State())
      decreases n, 1
    {
      var c := Analyze(n.condition);
      if c.Err? {
        return c;
      }
      if c.value != Blood {
        return Err(ConditionNotBlood(c.value));
      }
      var t := Analyze(n.trueBlock);
      if t.Err? {
        return t;
      }
      if n.falseBlock.Some? {
        var f := Analyze(n.falseBlock.value);
        if f.Err? {
          return f;
        }
      }
      r := Ok(NoType);
    }

    /** `analyze_loop`. */
    method AnalyzeLoop(n: Node) returns (r: Result<Type, SemanticError>)
      requires Valid(env.State()) && n.Loop?
      modifies env
      ensures Follows(Typing.AnalyzeLoop(old(env.State()), n), r, env.State())
      decreases n, 1
    {
      var c := Analyze(n.condition);
      if c.Err? {
        return c;
      }
      if c.value != Blood {
        return Err(ConditionNotBlood(c.value));
      }
      var b := Analyze(n.body);
      if b.Err? {
        return b;
      }
      r := Ok(NoType);
    }

    /** `analyze_function_declaration`. */
    method AnalyzeFunctionDeclaration(n: Node) returns (r: Result<Type, SemanticError>)
      requires Valid(env.State()) && n.FunctionDeclaration?
      modifies env
      ensures Follows(Typing.AnalyzeFunctionDeclaration(old(env.State()), n), r, env.State())
      decreases n, 1
    {
      var declared := env.DeclareFunction(n.fname, ParamTypes(n.parameters), n.returnType);
      if declared.Err? {
        return Err(EnvFailure(declared.error));
      }
      env.EnterScope();
      r := DeclareEach(n.parameters);
      if r.Err? {
        return;
      }
      r := Analyze(n.block);
      if r.Err? {
        return;
      }
      if n.returnType != Rom {
        var hasReturn := HasReturn(n.block);
        if !hasReturn {
          return Err(MissingReturn(n.fname));
        }
      }
      var exited := env.ExitScope();
      r := if exited.Ok? then Ok(NoType) else Err(EnvFailure(GlobalScopeExit));
    }

    /** `has_return`, with the scan going on past an `if` that does not return. */
    method HasReturn(block: Node) returns (b: bool)
      ensures b == Typing.HasReturn(block)
      decreases block
    {
      if !block.Block? {
        return false;
      }
      var ss := block.statements;
      var i := 0;
      while i < |ss|
        invariant 0 <= i <= |ss|
        invariant Typing.HasReturn(block) == AnyReturns(ss[i..])
      {
        assert ss[i..][1..] == ss[i + 1..];
        var s := ss[i];
        if s.Return? {
          return true;
        } else if s.If? {
          var t := HasReturn(s.trueBlock);
          if t {
            if s.falseBlock.None? {
              return true;
            }
            var f := HasReturn(s.falseBlock.value);
            if f {
              return true;
            }
          }
        } else if s.Block? {
          var inner := HasReturn(s);
          if inner {
            return true;
          }
        }
        i := i + 1;
      }
      b := false;
    }
  }
}
