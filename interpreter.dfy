/**
 * The class of interpreter/interpreter.py.  Its `context` is the field
 * the source updates; the console that PRAY prints to and EYES reads
 * from is two more fields.  Every method is proved to do what the
 * function of the same name in Evaluation says: the result it returns
 * and the state it leaves are that function's.
 */
module Interpreter {
  import opened Wrappers
  import opened Ast
  import opened Evaluation

  /** The method returned what the function gives, and left the state the function leaves. */
  predicate Follows(o: Outcome, r: Result<Value, RuntimeError>, st: State)
  {
    r == o.result && st == o.state
  }

  class Interpreter {
    var context: map<string, Value>
    var output: seq<Output>
    var input: seq<string>

    /** The interpreter's state as a value. */
    function Current(): State
      reads this
    {
      State(context, output, input)
    }

    /** A fresh interpreter binds no name, has printed nothing, and will read `input`. */
    constructor(input: seq<string>)
      ensures Current() == State(map[], [], input)
    {
      context := map[];
      output := [];
      this.input := input;
    }

    /** `run`: execute the whole program. */
    method Run(fuel: nat, ast: Node) returns (r: Result<Value, RuntimeError>)
      modifies this
      ensures Follows(Evaluation.Execute(fuel, old(Current()), ast), r, Current())
    {
      r := Execute(fuel, ast);
    }

    /** `execute`: dispatch on the kind of node. */
    method Execute(fuel: nat, n: Node) returns (r: Result<Value, RuntimeError>)
      modifies this
      ensures Follows(Evaluation.Execute(fuel, old(Current()), n), r, Current())
      decreases n, 2, 0
    {
      match n
      case Block(_) => r := ExecuteBlock(fuel, n);
      case Declaration(_, _, _) => r := ExecuteDeclaration(fuel, n);
      case BinaryOp(_, _, _) => r := ExecuteBinaryOp(fuel, n);
      case Number(v) => r := Ok(VStr(v));
      case Str(v) => r := Ok(VStr(v));
      case Identifier(name) => r := Ok(if name in context then context[name] else VNone);
      case If(_, _, _) => r := ExecuteIf(fuel, n);
      case Loop(_, _, _, _) => r := ExecuteLoop(fuel, n);
      case FunctionCall(_, _) => r := ExecuteCall(fuel, n);
      case Rest => r := Ok(VNone);
      case FunctionDeclaration(_, _, _, _) => r := Err(UnsupportedNode);
      case Return(_) => r := Err(UnsupportedNode);
      case Array(_) => r := Err(UnsupportedNode);
    }

    /** `execute_block`: the statements in order, giving the last one's value. */
    method ExecuteBlock(fuel: nat, n: Node) returns (r: Result<Value, RuntimeError>)
      requires n.Block?
      modifies this
      ensures Follows(Evaluation.Execute(fuel, old(Current()), n), r, Current())
      decreases n, 1, 0
    {
      var ss := n.statements;
      var result := VNone;
      var i := 0;
      while i < |ss|
        invariant 0 <= i <= |ss|
        invariant Evaluation.Execute(fuel, old(Current()), n) == ExecuteStatements(fuel, Current(), ss[i..], result)
        decreases |ss| - i
      {
        assert ss[i..][1..] == ss[i + 1..];
        var x := Execute(fuel, ss[i]);
        if x.Err? {
          return x;
        }
        result := x.value;
        i := i + 1;
      }
      r := Ok(result);
    }

    /** `execute_declaration`: every name bound in turn to a fresh run of the initializer, or to `None`. */
    method ExecuteDeclaration(fuel: nat, n: Node) returns (r: Result<Value, RuntimeError>)
      requires n.Declaration?
      modifies this
      ensures Follows(Evaluation.Execute(fuel, old(Current()), n), r, Current())
      decreases n, 1, 0
    {
      var i := 0;
      while i < |n.names|
        invariant 0 <= i <= |n.names|
        invariant Evaluation.Execute(fuel, old(Current()), n) == DeclareFrom(fuel, Current(), n, i)
        decreases |n.names| - i
      {
        var value := Ok(VNone);
        if n.expression.Some? {
          value := Execute(fuel, n.expression.value);
          if value.Err? {
            return value;
          }
        }
        context := context[n.names[i] := value.value];
        i := i + 1;
      }
      r := Ok(VNone);
    }

    /** `execute_binary_op`: both sides, the digit-string coercion, then ASSIGN or the operator. */
    method ExecuteBinaryOp(fuel: nat, n: Node) returns (r: Result<Value, RuntimeError>)
      requires n.BinaryOp?
      modifies this
      ensures Follows(Evaluation.Execute(fuel, old(Current()), n), r, Current())
      decreases n, 1, 0
    {
      var left := Execute(fuel, n.left);
      if left.Err? {
        return left;
      }
      var right := Execute(fuel, n.right);
      if right.Err? {
        return right;
      }
      var leftValue, rightValue := Coerce(left.value), Coerce(right.value);
      if n.operator == "ASSIGN" {
        if n.left.Identifier? {
          context := context[n.left.name := rightValue];
          r := Ok(rightValue);
        } else {
          r := Err(InvalidAssignment);
        }
      } else {
        r := Apply(n.operator, leftValue, rightValue);
      }
    }

    /** `execute_if_statement`. */
    method ExecuteIf(fuel: nat, n: Node) returns (r: Result<Value, RuntimeError>)
      requires n.If?
      modifies this
      ensures Follows(Evaluation.Execute(fuel, old(Current()), n), r, Current())
      decreases n, 1, 0
    {
      var condition := Execute(fuel, n.condition);
      if condition.Err? {
        return condition;
      }
      if Truthy(condition.value) {
        r := Execute(fuel, n.trueBlock);
      } else if n.falseBlock.Some? {
        r := Execute(fuel, n.falseBlock.value);
      } else {
        r := Ok(VNone);
      }
    }

    /** `execute_loop`: the init clause, then at most `fuel` iterations of the `while`. */
    method ExecuteLoop(fuel: nat, n: Node) returns (r: Result<Value, RuntimeError>)
      requires n.Loop?
      modifies this
      ensures Follows(Evaluation.Execute(fuel, old(Current()), n), r, Current())
      decreases n, 1, 0
    {
      if n.init.Some? {
        var init := Execute(fuel, n.init.value);
        if init.Err? {
          return init;
        }
      }
      var k := fuel;
      while true
        invariant Evaluation.Execute(fuel, old(Current()), n) == Iterate(fuel, k, Current(), n)
        decreases k
      {
        var condition := Execute(fuel, n.condition);
        if condition.Err? {
          return condition;
        }
        if !Truthy(condition.value) {
          return Ok(VNone);
        }
        if k == 0 {
          return Err(OutOfFuel);
        }
        var body := Execute(fuel, n.body);
        if body.Err? {
          return body;
        }
        if n.increment.Some? {
          var increment := Execute(fuel, n.increment.value);
          if increment.Err? {
            return increment;
          }
        }
        k := k - 1;
      }
    }

    /** `execute_function_call`: EYES reads a line after showing its prompt, PRAY prints each argument. */
    method ExecuteCall(fuel: nat, n: Node) returns (r: Result<Value, RuntimeError>)
      requires n.FunctionCall?
      modifies this
      ensures Follows(Evaluation.Execute(fuel, old(Current()), n), r, Current())
      decreases n, 1, 0
    {
      if n.callee == Builtin("EYES") {
        if n.arguments == [] {
          return Err(MissingArgument);
        }
        var prompt := Execute(fuel, n.arguments[0]);
        if prompt.Err? {
          return prompt;
        }
        output := output + [Prompt(prompt.value)];
        if input == [] {
          return Err(EndOfInput);
        }
        r := Ok(VStr(input[0]));
        input := input[1..];
      } else if n.callee == Builtin("PRAY") {
        var i := 0;
        while i < |n.arguments|
          invariant 0 <= i <= |n.arguments|
          invariant Evaluation.Execute(fuel, old(Current()), n) == PrintFrom(fuel, Current(), n, i)
          decreases |n.arguments| - i
        {
          var result := Execute(fuel, n.arguments[i]);
          if result.Err? {
            return result;
          }
          output := output + [Line(result.value)];
          i := i + 1;
        }
        r := Ok(VNone);
      } else {
        r := Err(UnsupportedFunction);
      }
    }
  }
}
