/**
 * The evaluation rules of interpreter/interpreter.py, as functions from
 * a state and a node to the value produced and the state afterwards.
 *
 * The state is the interpreter's `context` (names to values) together
 * with the console: what PRAY and EYES have written, and the lines EYES
 * has still to read.  An exception is an `Err` carrying the state as it
 * was when it was raised.  The source's `while` loop need not end; here
 * each run of a loop may make at most `fuel` iterations, and a loop that
 * wants more gives `OutOfFuel`.
 */
module Evaluation {
  import opened Wrappers
  import opened Ast

  /** The Python values a program can produce (floats are not modelled). */
  datatype Value = VNone | VInt(i: int) | VStr(s: string) | VBool(b: bool)

  /** What reaches the console: a `print` by PRAY, or the prompt `input` shows for EYES. */
  datatype Output = Line(printed: Value) | Prompt(shown: Value)

  datatype State = State(context: map<string, Value>, output: seq<Output>, input: seq<string>)

  /** What the interpreter raises, by cause. */
  datatype RuntimeError =
    | UnsupportedNode              // FunctionDeclaration, Return and Array nodes
    | OperandTypes(operator: string)
    | FloatDivision                // DIVIDE of two numbers gives a float (or raises on zero)
    | InvalidAssignment            // ASSIGN whose left side is not an identifier
    | UnsupportedOperator(operator: string)
    | Unorderable                  // an ordering between values Python cannot order
    | UnsupportedFunction
    | MissingArgument              // EYES without arguments (IndexError)
    | EndOfInput                   // EYES with no line left to read (EOFError)
    | OutOfFuel

  datatype Outcome = Outcome(result: Result<Value, RuntimeError>, state: State)

  /* ---------------------------------------------------------------- */
  /* Values                                                             */
  /* ---------------------------------------------------------------- */

  /** Python truthiness. */
  predicate Truthy(v: Value)
  {
    match v
    case VNone => false
    case VInt(i) => i != 0
    case VStr(s) => s != ""
    case VBool(b) => b
  }

  /** `isinstance(v, (int, float))`: a bool is an int in Python. */
  predicate IsNumber(v: Value)
  {
    v.VInt? || v.VBool?
  }

  function Num(v: Value): int
    requires IsNumber(v)
  {
    if v.VInt? then v.i else if v.b then 1 else 0
  }

  predicate IsDigit(c: char)
  {
    '0' <= c <= '9'
  }

  /** `s.isdigit()` on ASCII text: non-empty and all digits. */
  predicate IsDigits(s: string)
  {
    s != [] && forall i :: 0 <= i < |s| ==> IsDigit(s[i])
  }

  /** `int(s)` of a digit string. */
  function DigitsValue(s: string): (n: nat)
    requires forall i :: 0 <= i < |s| ==> IsDigit(s[i])
  {
    if s == [] then 0
    else
      assert IsDigit(s[|s| - 1]);
      DigitsValue(s[..|s| - 1]) * 10 + (s[|s| - 1] as int - '0' as int)
  }

  /** The decimal numeral of `n`, as `str(n)` writes it. */
  function Numeral(n: nat): string
  {
    if n < 10 then [('0' as int + n) as char] else Numeral(n / 10) + [('0' as int + n % 10) as char]
  }

  /** Reading back a numeral gives the number. */
  lemma {:induction false} NumeralRoundTrip(n: nat)
    ensures IsDigits(Numeral(n)) && DigitsValue(Numeral(n)) == n
  {
    if n >= 10 {
      NumeralRoundTrip(n / 10);
      var s := Numeral(n);
      assert s[..|s| - 1] == Numeral(n / 10);
    }
  }

  /** The coercion applied to both operands: an all-digit string becomes an int. */
  function Coerce(v: Value): (c: Value)
    ensures v.VStr? && IsDigits(v.s) ==> c == VInt(DigitsValue(v.s))
    ensures !(v.VStr? && IsDigits(v.s)) ==> c == v
  {
    if v.VStr? && IsDigits(v.s) then VInt(DigitsValue(v.s)) else v
  }

  /** Python `==`: numbers by value, other values only equal to themselves. */
  predicate Equal(l: Value, r: Value)
  {
    if IsNumber(l) && IsNumber(r) then Num(l) == Num(r) else l == r
  }

  /** Python's string ordering, by code point: negative, zero or positive. */
  function StrCompare(a: string, b: string): int
  {
    if a == [] && b == [] then 0
    else if a == [] then -1
    else if b == [] then 1
    else if a[0] < b[0] then -1
    else if a[0] > b[0] then 1
    else StrCompare(a[1..], b[1..])
  }

  /** The string ordering is antisymmetric, and only equal strings compare equal. */
  lemma {:induction false} StrCompareOrder(a: string, b: string)
    ensures StrCompare(a, b) == -StrCompare(b, a)
    ensures StrCompare(a, b) == 0 <==> a == b
    ensures -1 <= StrCompare(a, b) <= 1
  {
    if a != [] && b != [] && a[0] == b[0] {
      StrCompareOrder(a[1..], b[1..]);
      if a[1..] == b[1..] {
        assert a == [a[0]] + a[1..] && b == [b[0]] + b[1..];
      }
    }
  }

  /** The orderings `<`, `<=`, `>`, `>=`: numbers by value, strings by code point, anything else raises. */
  function Compare(l: Value, r: Value): Result<int, RuntimeError>
  {
    if IsNumber(l) && IsNumber(r) then Ok(if Num(l) < Num(r) then -1 else if Num(l) > Num(r) then 1 else 0)
    else if l.VStr? && r.VStr? then Ok(StrCompare(l.s, r.s))
    else Err(Unorderable)
  }

  function Ordered(op: string, l: Value, r: Value): Result<Value, RuntimeError>
    requires op == "GREATER" || op == "LESS" || op == "GREATEREQUAL" || op == "LESSEQUAL"
  {
    match Compare(l, r)
    case Err(x) => Err(x)
    case Ok(c) =>
      Ok(VBool(if op == "GREATER" then c > 0 else if op == "LESS" then c < 0 else if op == "GREATEREQUAL" then c >= 0 else c <= 0))
  }

  /** An operator other than ASSIGN applied to the two (coerced) operand values. */
  function Apply(op: string, l: Value, r: Value): Result<Value, RuntimeError>
  {
    if op == "PLUS" then
      if IsNumber(l) && IsNumber(r) then Ok(VInt(Num(l) + Num(r)))
      else if l.VStr? && r.VStr? then Ok(VStr(l.s + r.s))
      else Err(OperandTypes(op))
    else if op == "MINUS" then
      if IsNumber(l) && IsNumber(r) then Ok(VInt(Num(l) - Num(r))) else Err(OperandTypes(op))
    else if op == "MULTIPLY" then
      if IsNumber(l) && IsNumber(r) then Ok(VInt(Num(l) * Num(r))) else Err(OperandTypes(op))
    else if op == "DIVIDE" then
      if IsNumber(l) && IsNumber(r) then Err(FloatDivision) else Err(OperandTypes(op))
    else if op == "EQUAL" then Ok(VBool(Equal(l, r)))
    else if op == "NOT" then Ok(VBool(!Equal(l, r)))
    else if op == "GREATER" || op == "LESS" || op == "GREATEREQUAL" || op == "LESSEQUAL" then Ordered(op, l, r)
    else if op == "BLOODBOND" then Ok(if Truthy(l) then r else l)
    else if op == "OLDBLOOD" then Ok(if Truthy(l) then l else r)
    else if op == "VILEBLOOD" then Ok(VBool(!Truthy(l)))
    else Err(UnsupportedOperator(op))
  }

  /** `l > r` is `r < l`, and `l >= r` is `r <= l`, for every pair of values, the unorderable ones included. */
  lemma OrderingConverse(l: Value, r: Value)
    ensures Apply("GREATER", l, r) == Apply("LESS", r, l)
    ensures Apply("GREATEREQUAL", l, r) == Apply("LESSEQUAL", r, l)
  {
    if l.VStr? && r.VStr? {
      StrCompareOrder(l.s, r.s);
    }
  }

  /** Two values that can be ordered are equal exactly when neither is less than the other. */
  lemma Trichotomy(l: Value, r: Value)
    requires Compare(l, r).Ok?
    ensures Apply("LESS", l, r).Ok? && Apply("GREATER", l, r).Ok?
    ensures Apply("EQUAL", l, r) == Ok(VBool(Apply("LESS", l, r) == Ok(VBool(false)) && Apply("GREATER", l, r) == Ok(VBool(false))))
  {
    if l.VStr? && r.VStr? {
      StrCompareOrder(l.s, r.s);
    }
  }

  /** EQUAL is symmetric, and NOT is its negation. */
  lemma EqualityRules(l: Value, r: Value)
    ensures Apply("EQUAL", l, r) == Apply("EQUAL", r, l)
    ensures Apply("NOT", l, r) == Ok(VBool(!Apply("EQUAL", l, r).value.b))
  {
  }

  /** BLOODBOND, OLDBLOOD and VILEBLOOD are Python's `and`, `or` and `not`: the result's truth is the connective of the operands' truths. */
  lemma LogicalConnectives(l: Value, r: Value)
    ensures Apply("BLOODBOND", l, r).Ok? && (Truthy(Apply("BLOODBOND", l, r).value) <==> Truthy(l) && Truthy(r))
    ensures Apply("OLDBLOOD", l, r).Ok? && (Truthy(Apply("OLDBLOOD", l, r).value) <==> Truthy(l) || Truthy(r))
    ensures Apply("VILEBLOOD", l, r) == Ok(VBool(!Truthy(l)))
  {
  }

  /* ---------------------------------------------------------------- */
  /* How the state may change                                           */
  /* ---------------------------------------------------------------- */

  /**
   * `st2` comes after `st`: the output has only been appended to, the
   * input only consumed from the front, and no name has been unbound.
   */
  predicate Later(st: State, st2: State)
  {
    && st.output <= st2.output
    && |st2.input| <= |st.input|
    && st2.input == st.input[|st.input| - |st2.input|..]
    && st.context.Keys <= st2.context.Keys
  }

  lemma LaterTrans(s1: State, s2: State, s3: State)
    requires Later(s1, s2) && Later(s2, s3)
    ensures Later(s1, s3)
  {
    var k := |s1.input| - |s2.input|;
    assert s3.input == s2.input[|s2.input| - |s3.input|..];
    assert s1.input[|s1.input| - |s3.input|..] == s1.input[k..][|s2.input| - |s3.input|..];
  }

  /** The state with `name` bound to `v`. */
  function Bound(st: State, name: string, v: Value): State
  {
    st.(context := st.context[name := v])
  }

  /* ---------------------------------------------------------------- */
  /* execute                                                            */
  /* ---------------------------------------------------------------- */

  /** `execute`: the value of `n` and the state afterwards, or the exception raised. */
  function Execute(fuel: nat, st: State, n: Node): (o: Outcome)
    decreases n, 2, 0
  {
    match n
    case Block(ss) => ExecuteStatements(fuel, st, ss, VNone)
    case Declaration(_, _, _) => DeclareFrom(fuel, st, n, 0)
    case BinaryOp(_, _, _) => ExecuteBinaryOp(fuel, st, n)
    case Number(v) => Outcome(Ok(VStr(v)), st)
    case Str(v) => Outcome(Ok(VStr(v)), st)
    case Identifier(name) => Outcome(Ok(if name in st.context then st.context[name] else VNone), st)
    case If(_, _, _) => ExecuteIf(fuel, st, n)
    case Loop(_, _, _, _) => ExecuteLoop(fuel, st, n)
    case FunctionCall(_, _) => ExecuteCall(fuel, st, n)
    case Rest => Outcome(Ok(VNone), st)
    case FunctionDeclaration(_, _, _, _) => Outcome(Err(UnsupportedNode), st)
    case Return(_) => Outcome(Err(UnsupportedNode), st)
    case Array(_) => Outcome(Err(UnsupportedNode), st)
  }

  /** `execute_block`: the statements in order; `last` is the value of the latest one. */
  function ExecuteStatements(fuel: nat, st: State, ss: seq<Node>, last: Value): (o: Outcome)
    decreases ss, 0, 0
  {
    if ss == [] then Outcome(Ok(last), st)
    else
      var x := Execute(fuel, st, ss[0]);
      if x.result.Err? then x
      else
        var rest := ExecuteStatements(fuel, x.state, ss[1..], x.result.value);
        rest
  }

  /**
   * `execute_declaration` from the `i`-th name on: the initializer is
   * executed again for every name, and the name bound to its value, or
   * to `None` when there is none.
   */
  function DeclareFrom(fuel: nat, st: State, n: Node, i: nat): (o: Outcome)
    requires n.Declaration? && i <= |n.names|
    decreases n, 1, |n.names| - i
  {
    if i == |n.names| then Outcome(Ok(VNone), st)
    else
      var v := if n.expression.Some? then Execute(fuel, st, n.expression.value) else Outcome(Ok(VNone), st);
      if v.result.Err? then v
      else
        var next := Bound(v.state, n.names[i], v.result.value);
        var rest := DeclareFrom(fuel, next, n, i + 1);
        rest
  }

  /**
   * `execute_binary_op`: both sides executed left then right, digit
   * strings made ints, then ASSIGN binds an identifier and gives the
   * value, and every other operator applies to the two values.
   */
  function ExecuteBinaryOp(fuel: nat, st: State, n: Node): (o: Outcome)
    requires n.BinaryOp?
    decreases n, 1, 0
  {
    var l := Execute(fuel, st, n.left);
    if l.result.Err? then l
    else
      var r := Execute(fuel, l.state, n.right);
      if r.result.Err? then r
      else
        var lv, rv := Coerce(l.result.value), Coerce(r.result.value);
        if n.operator == "ASSIGN" then
          if n.left.Identifier? then
            var after := Bound(r.state, n.left.name, rv);
            Outcome(Ok(rv), after)
          else Outcome(Err(InvalidAssignment), r.state)
        else Outcome(Apply(n.operator, lv, rv), r.state)
  }

  /** `execute_if_statement`: the condition's truthiness picks the block; no block left gives `None`. */
  function ExecuteIf(fuel: nat, st: State, n: Node): (o: Outcome)
    requires n.If?
    decreases n, 1, 0
  {
    var c := Execute(fuel, st, n.condition);
    if c.result.Err? then c
    else
      var b :=
        if Truthy(c.result.value) then Execute(fuel, c.state, n.trueBlock)
        else if n.falseBlock.Some? then Execute(fuel, c.state, n.falseBlock.value)
        else Outcome(Ok(VNone), c.state);
      b
  }

  /** `execute_loop`: the init clause once, then the iterations. */
  function ExecuteLoop(fuel: nat, st: State, n: Node): (o: Outcome)
    requires n.Loop?
    decreases n, 1, 0
  {
    var i := if n.init.Some? then Execute(fuel, st, n.init.value) else Outcome(Ok(VNone), st);
    if i.result.Err? then i
    else
      var o := Iterate(fuel, fuel, i.state, n);
      o
  }

  /**
   * The `while` of `execute_loop` with at most `k` more iterations: the
   * condition, and while it is truthy the body and the increment.
   */
  function Iterate(fuel: nat, k: nat, st: State, n: Node): (o: Outcome)
    requires n.Loop?
    decreases n, 0, k
  {
    var c := Execute(fuel, st, n.condition);
    if c.result.Err? then c
    else if !Truthy(c.result.value) then Outcome(Ok(VNone), c.state)
    else if k == 0 then Outcome(Err(OutOfFuel), c.state)
    else
      var b := Step(fuel, c.state, n);
      if b.result.Err? then b else Iterate(fuel, k - 1, b.state, n)
  }

  /** One iteration after the condition: the body, then the increment if there is one. */
  function Step(fuel: nat, st: State, n: Node): Outcome
    requires n.Loop?
    decreases n, 0, 0
  {
    var b := Execute(fuel, st, n.body);
    if b.result.Err? || n.increment.None? then b
    else Execute(fuel, b.state, n.increment.value)
  }


  /**
   * `execute_function_call`: EYES shows the value of its first argument
   * as a prompt and gives the next input line; PRAY prints each
   * argument's value in order and gives `None`; anything else raises.
   */
  function ExecuteCall(fuel: nat, st: State, n: Node): (o: Outcome)
    requires n.FunctionCall?
    decreases n, 1, 0
  {
    if n.callee == Builtin("EYES") then
      if n.arguments == [] then Outcome(Err(MissingArgument), st)
      else
        var p := Execute(fuel, st, n.arguments[0]);
        if p.result.Err? then p
        else
          var shown := p.state.(output := p.state.output + [Prompt(p.result.value)]);
          if shown.input == [] then Outcome(Err(EndOfInput), shown)
          else
            var read := shown.(input := shown.input[1..]);
            Outcome(Ok(VStr(shown.input[0])), read)
    else if n.callee == Builtin("PRAY") then PrintFrom(fuel, st, n, 0)
    else Outcome(Err(UnsupportedFunction), st)
  }

  /** The PRAY loop from the `i`-th argument on. */
  function PrintFrom(fuel: nat, st: State, n: Node, i: nat): (o: Outcome)
    requires n.FunctionCall? && i <= |n.arguments|
    decreases n, 0, |n.arguments| - i
  {
    if i == |n.arguments| then Outcome(Ok(VNone), st)
    else
      var x := Execute(fuel, st, n.arguments[i]);
      if x.result.Err? then x
      else
        var printed := x.state.(output := x.state.output + [Line(x.result.value)]);
        var rest := PrintFrom(fuel, printed, n, i + 1);
        rest
  }

  /* ---------------------------------------------------------------- */
  /* Properties                                                         */
  /* ---------------------------------------------------------------- */

  /** Extending a statement list runs the new statement after the others. */
  lemma {:induction false} StatementsSnoc(fuel: nat, st: State, ss: seq<Node>, s: Node, last: Value)
    ensures ExecuteStatements(fuel, st, ss + [s], last) ==
      (var a := ExecuteStatements(fuel, st, ss, last);
       if a.result.Err? then a else Execute(fuel, a.state, s))
    decreases |ss|
  {
    if ss == [] {
      assert [] + [s] == [s];
      assert [s][1..] == [];
    } else {
      assert (ss + [s])[0] == ss[0];
      assert (ss + [s])[1..] == ss[1..] + [s];
      var x := Execute(fuel, st, ss[0]);
      if x.result.Ok? {
        StatementsSnoc(fuel, x.state, ss[1..], s, x.result.value);
      }
    }
  }

  /** A block gives the value of its last statement, and `None` when empty. */
  lemma BlockValue(fuel: nat, st: State, ss: seq<Node>, s: Node)
    ensures Execute(fuel, st, Block([])) == Outcome(Ok(VNone), st)
    ensures Execute(fuel, st, Block(ss + [s])) ==
      (var a := Execute(fuel, st, Block(ss));
       if a.result.Err? then a else Execute(fuel, a.state, s))
  {
    assert Execute(fuel, st, Block([])) == ExecuteStatements(fuel, st, [], VNone);
    assert Execute(fuel, st, Block(ss)) == ExecuteStatements(fuel, st, ss, VNone);
    assert Execute(fuel, st, Block(ss + [s])) == ExecuteStatements(fuel, st, ss + [s], VNone);
    StatementsSnoc(fuel, st, ss, s, VNone);
  }

  /** ASSIGN to an identifier binds it to the coerced right value, gives that value and touches nothing else. */
  lemma AssignRule(fuel: nat, st: State, x: string, e: Node)
    requires Execute(fuel, st, e).result.Ok?
    ensures var r := Execute(fuel, st, e);
            var v := Coerce(r.result.value);
            Execute(fuel, st, BinaryOp(Identifier(x), "ASSIGN", e)) ==
              Outcome(Ok(v), r.state.(context := r.state.context[x := v]))
  {
    var n := BinaryOp(Identifier(x), "ASSIGN", e);
    var l := Execute(fuel, st, n.left);
    assert l == Outcome(Ok(Get(st.context, x)), st);
    var r := Execute(fuel, st, e);
    var v := Coerce(r.result.value);
    assert ExecuteBinaryOp(fuel, st, n) == Outcome(Ok(v), Bound(r.state, x, v));
    assert Execute(fuel, st, n) == ExecuteBinaryOp(fuel, st, n);
  }

  /** ASSIGN to anything but an identifier raises once both sides have been executed. */
  lemma AssignNeedsIdentifier(fuel: nat, st: State, target: Node, e: Node)
    requires !target.Identifier?
    requires Execute(fuel, st, target).result.Ok?
    requires Execute(fuel, Execute(fuel, st, target).state, e).result.Ok?
    ensures Execute(fuel, st, BinaryOp(target, "ASSIGN", e)) ==
      Outcome(Err(InvalidAssignment), Execute(fuel, Execute(fuel, st, target).state, e).state)
  {
    var n := BinaryOp(target, "ASSIGN", e);
    assert Execute(fuel, st, n) == ExecuteBinaryOp(fuel, st, n);
  }

  /** Expressions without assignment, calls, blocks or loops. */
  predicate Pure(n: Node)
  {
    match n
    case Identifier(_) => true
    case Number(_) => true
    case Str(_) => true
    case BinaryOp(l, op, r) => op != "ASSIGN" && Pure(l) && Pure(r)
    case _ => false
  }

  /** The names an expression reads. */
  function FreeNames(n: Node): set<string>
  {
    match n
    case Identifier(name) => {name}
    case BinaryOp(l, _, r) => FreeNames(l) + FreeNames(r)
    case _ => {}
  }

  /** `context.get(name, None)`. */
  function Get(c: map<string, Value>, name: string): Value
  {
    if name in c then c[name] else VNone
  }

  /** A pure expression leaves the state as it was. */
  lemma {:induction false} PureKeepsState(fuel: nat, st: State, n: Node)
    requires Pure(n)
    ensures Execute(fuel, st, n).state == st
  {
    if n.BinaryOp? {
      assert Execute(fuel, st, n) == ExecuteBinaryOp(fuel, st, n);
      PureKeepsState(fuel, st, n.left);
      PureKeepsState(fuel, st, n.right);
    }
  }

  /** A pure expression's result depends only on the names it reads. */
  lemma {:induction false} PureFrame(fuel: nat, st: State, st2: State, n: Node)
    requires Pure(n)
    requires forall x :: x in FreeNames(n) ==> Get(st.context, x) == Get(st2.context, x)
    ensures Execute(fuel, st, n).result == Execute(fuel, st2, n).result
  {
    if n.BinaryOp? {
      assert Execute(fuel, st, n) == ExecuteBinaryOp(fuel, st, n);
      assert Execute(fuel, st2, n) == ExecuteBinaryOp(fuel, st2, n);
      PureKeepsState(fuel, st, n.left);
      PureKeepsState(fuel, st2, n.left);
      PureFrame(fuel, st, st2, n.left);
      PureFrame(fuel, st, st2, n.right);
    } else if n.Identifier? {
      assert n.name in FreeNames(n);
    }
  }

  /** `c` with every one of `names` bound to `v`. */
  function BindAll(c: map<string, Value>, names: seq<string>, v: Value): (r: map<string, Value>)
    ensures forall x :: x in r <==> x in c || x in names
    ensures forall x :: x in names ==> r[x] == v
    ensures forall x :: x in c && x !in names ==> r[x] == c[x]
    decreases |names|
  {
    if names == [] then c
    else
      var r := BindAll(c[names[0] := v], names[1..], v);
      assert forall x :: x in names ==> x == names[0] || x in names[1..];
      r
  }

  lemma {:induction false} DeclareFromValue(fuel: nat, st: State, n: Node, i: nat, v: Value)
    requires n.Declaration? && i <= |n.names|
    requires n.expression.None? ==> v == VNone
    requires n.expression.Some? ==>
      && Pure(n.expression.value)
      && (forall x :: x in FreeNames(n.expression.value) ==> x !in n.names)
      && Execute(fuel, st, n.expression.value).result == Ok(v)
    ensures DeclareFrom(fuel, st, n, i) == Outcome(Ok(VNone), st.(context := BindAll(st.context, n.names[i..], v)))
    decreases |n.names| - i
  {
    if i < |n.names| {
      var next := Bound(st, n.names[i], v);
      if n.expression.Some? {
        var e := n.expression.value;
        PureKeepsState(fuel, st, e);
        forall x | x in FreeNames(e)
          ensures Get(st.context, x) == Get(next.context, x)
        {
          assert x != n.names[i];
        }
        PureFrame(fuel, st, next, e);
      }
      DeclareFromValue(fuel, next, n, i + 1, v);
      assert n.names[i..][1..] == n.names[i + 1..];
    }
  }

  /**
   * A declaration whose initializer is pure and does not read the names
   * being declared binds every name to the initializer's value (to
   * `None` without one), keeps every other binding, and gives `None`.
   */
  lemma DeclarationRule(fuel: nat, st: State, names: seq<string>, t: Type, e: Option<Node>, v: Value)
    requires e.None? ==> v == VNone
    requires e.Some? ==>
      && Pure(e.value)
      && (forall x :: x in FreeNames(e.value) ==> x !in names)
      && Execute(fuel, st, e.value).result == Ok(v)
    ensures Execute(fuel, st, Declaration(names, t, e)) == Outcome(Ok(VNone), st.(context := BindAll(st.context, names, v)))
  {
    DeclareFromValue(fuel, st, Declaration(names, t, e), 0, v);
    assert names[0..] == names;
  }

  /**
   * The initializer runs once per declared name: declaring `a, b` with
   * `n = n + 1` from `n == 0` gives `a == 1`, `b == 2` and `n == 2`.
   */
  lemma DeclarationReevaluates(fuel: nat, out: seq<Output>, inp: seq<string>)
    ensures var init := BinaryOp(Identifier("n"), "ASSIGN", BinaryOp(Identifier("n"), "PLUS", Number("1")));
            var st := State(map["n" := VInt(0)], out, inp);
            Execute(fuel, st, Declaration(["a", "b"], Tag("MARIA"), Some(init))).state.context ==
              map["n" := VInt(2), "a" := VInt(1), "b" := VInt(2)]
  {
    assert IsDigits("1") && DigitsValue("1") == 1;
    var plus := BinaryOp(Identifier("n"), "PLUS", Number("1"));
    var init := BinaryOp(Identifier("n"), "ASSIGN", plus);
    var d := Declaration(["a", "b"], Tag("MARIA"), Some(init));
    var st := State(map["n" := VInt(0)], out, inp);
    assert Execute(fuel, st, plus) == ExecuteBinaryOp(fuel, st, plus);
    AssignRule(fuel, st, "n", plus);
    var st1 := Execute(fuel, st, init).state;
    assert Execute(fuel, st, init).result == Ok(VInt(1));
    assert st1.context == map["n" := VInt(1)];
    var st2 := Bound(st1, "a", VInt(1));
    assert Execute(fuel, st2, plus) == ExecuteBinaryOp(fuel, st2, plus);
    AssignRule(fuel, st2, "n", plus);
    assert Execute(fuel, st2, init).result == Ok(VInt(2));
    var st3 := Execute(fuel, st2, init).state;
    assert DeclareFrom(fuel, st, d, 0) == DeclareFrom(fuel, Bound(st1, "a", VInt(1)), d, 1);
    assert DeclareFrom(fuel, st2, d, 1) == DeclareFrom(fuel, Bound(st3, "b", VInt(2)), d, 2);
  }

  /** Two digit literals add as numbers, not as text. */
  lemma DigitStringsAdd(fuel: nat, st: State, a: string, b: string)
    requires IsDigits(a) && IsDigits(b)
    ensures Execute(fuel, st, BinaryOp(Number(a), "PLUS", Number(b))) ==
      Outcome(Ok(VInt(DigitsValue(a) + DigitsValue(b))), st)
  {
    var n := BinaryOp(Number(a), "PLUS", Number(b));
    assert Execute(fuel, st, n) == ExecuteBinaryOp(fuel, st, n);
  }

  /** A decimal literal is not all digits, so two of them are joined as text. */
  lemma DecimalsConcatenate(fuel: nat, st: State)
    ensures Execute(fuel, st, BinaryOp(Number("1.5"), "PLUS", Number("2.5"))) == Outcome(Ok(VStr("1.52.5")), st)
  {
    var n := BinaryOp(Number("1.5"), "PLUS", Number("2.5"));
    assert !IsDigit("1.5"[1]) && !IsDigit("2.5"[1]);
    assert Coerce(VStr("1.5")) == VStr("1.5") && Coerce(VStr("2.5")) == VStr("2.5");
    assert "1.5" + "2.5" == "1.52.5";
    assert Execute(fuel, st, n) == ExecuteBinaryOp(fuel, st, n);
  }

  /** The lines PRAY prints for pure arguments, each evaluated in `st`. */
  function Printed(fuel: nat, st: State, args: seq<Node>): (lines: seq<Output>)
    requires forall j :: 0 <= j < |args| ==> Execute(fuel, st, args[j]).result.Ok?
    ensures |lines| == |args|
    decreases |args|
  {
    if args == [] then []
    else [Line(Execute(fuel, st, args[0]).result.value)] + Printed(fuel, st, args[1..])
  }

  /** The printed lines depend only on the bindings. */
  lemma {:induction false} PrintedFrame(fuel: nat, st: State, st2: State, args: seq<Node>)
    requires forall j :: 0 <= j < |args| ==> Execute(fuel, st, args[j]).result.Ok?
    requires forall j :: 0 <= j < |args| ==> Execute(fuel, st2, args[j]).result == Execute(fuel, st, args[j]).result
    ensures Printed(fuel, st2, args) == Printed(fuel, st, args)
    decreases |args|
  {
    if args != [] {
      assert forall j :: 0 <= j < |args| - 1 ==> args[1..][j] == args[j + 1];
      PrintedFrame(fuel, st, st2, args[1..]);
    }
  }

  /** Printing leaves the bindings, so the later arguments' lines are as they were. */
  lemma PrintedAfter(fuel: nat, st: State, printed: State, n: Node, i: nat)
    requires n.FunctionCall? && i < |n.arguments| && printed.context == st.context
    requires forall j :: i < j < |n.arguments| ==> Pure(n.arguments[j]) && Execute(fuel, st, n.arguments[j]).result.Ok?
    ensures forall j :: i < j < |n.arguments| ==> Execute(fuel, printed, n.arguments[j]).result == Execute(fuel, st, n.arguments[j]).result
    ensures Printed(fuel, printed, n.arguments[i + 1..]) == Printed(fuel, st, n.arguments[i + 1..])
  {
    forall j | i < j < |n.arguments|
      ensures Execute(fuel, printed, n.arguments[j]).result == Execute(fuel, st, n.arguments[j]).result
    {
      PureFrame(fuel, st, printed, n.arguments[j]);
    }
    var rest := n.arguments[i + 1..];
    forall j | 0 <= j < |rest|
      ensures Execute(fuel, st, rest[j]).result.Ok?
      ensures Execute(fuel, printed, rest[j]).result == Execute(fuel, st, rest[j]).result
    {
      assert rest[j] == n.arguments[i + 1 + j];
    }
    PrintedFrame(fuel, st, printed, rest);
  }

  lemma {:induction false} PrintFromPure(fuel: nat, st: State, n: Node, i: nat)
    requires n.FunctionCall? && i <= |n.arguments|
    requires forall j :: i <= j < |n.arguments| ==> Pure(n.arguments[j]) && Execute(fuel, st, n.arguments[j]).result.Ok?
    ensures PrintFrom(fuel, st, n, i) == Outcome(Ok(VNone), st.(output := st.output + Printed(fuel, st, n.arguments[i..])))
    decreases |n.arguments| - i
  {
    if i < |n.arguments| {
      var a := n.arguments[i];
      PureKeepsState(fuel, st, a);
      var line := Line(Execute(fuel, st, a).result.value);
      var printed := st.(output := st.output + [line]);
      assert PrintFrom(fuel, st, n, i) == PrintFrom(fuel, printed, n, i + 1);
      PrintedAfter(fuel, st, printed, n, i);
      PrintFromPure(fuel, printed, n, i + 1);
      var rest := Printed(fuel, st, n.arguments[i + 1..]);
      assert n.arguments[i..][1..] == n.arguments[i + 1..];
      assert Printed(fuel, st, n.arguments[i..]) == [line] + rest;
      assert st.output + [line] + rest == st.output + ([line] + rest);
    }
  }


  /** PRAY of pure arguments prints their values in order, changes nothing else and gives `None`. */
  lemma PrayPrints(fuel: nat, st: State, args: seq<Node>)
    requires forall j :: 0 <= j < |args| ==> Pure(args[j]) && Execute(fuel, st, args[j]).result.Ok?
    ensures Execute(fuel, st, FunctionCall(Builtin("PRAY"), args)) ==
      Outcome(Ok(VNone), st.(output := st.output + Printed(fuel, st, args)))
  {
    PrintFromPure(fuel, st, FunctionCall(Builtin("PRAY"), args), 0);
    assert args[0..] == args;
  }

  /**
   * EYES with a pure prompt shows the prompt, then gives the next input
   * line and consumes it, or raises when no line is left.
   */
  lemma EyesReads(fuel: nat, st: State, args: seq<Node>)
    requires args != [] && Pure(args[0]) && Execute(fuel, st, args[0]).result.Ok?
    ensures var shown := st.output + [Prompt(Execute(fuel, st, args[0]).result.value)];
            Execute(fuel, st, FunctionCall(Builtin("EYES"), args)) ==
              if st.input == [] then Outcome(Err(EndOfInput), st.(output := shown))
              else Outcome(Ok(VStr(st.input[0])), st.(output := shown, input := st.input[1..]))
  {
    PureKeepsState(fuel, st, args[0]);
  }

  /** Nodes the interpreter has no rule for, and calls to anything but EYES and PRAY, raise. */
  lemma Unsupported(fuel: nat, st: State, n: Node)
    requires n.FunctionDeclaration? || n.Return? || n.Array? ||
             (n.FunctionCall? && n.callee != Builtin("EYES") && n.callee != Builtin("PRAY"))
    ensures Execute(fuel, st, n).result.Err?
    ensures n.FunctionCall? ==> Execute(fuel, st, n) == Outcome(Err(UnsupportedFunction), st)
    ensures !n.FunctionCall? ==> Execute(fuel, st, n) == Outcome(Err(UnsupportedNode), st)
  {
  }

  /* ---------------------------------------------------------------- */
  /* Output is only appended, input only consumed, names never unbound  */
  /* ---------------------------------------------------------------- */

  lemma LaterRefl(st: State)
    ensures Later(st, st)
  {
    assert st.input[0..] == st.input;
  }

  lemma BoundIsLater(st: State, name: string, v: Value)
    ensures Later(st, Bound(st, name, v))
  {
    LaterRefl(st);
  }

  /** Executing any node only appends output, consumes input from the front and adds or rebinds names. */
  lemma {:induction false} ExecuteLater(fuel: nat, st: State, n: Node)
    ensures Later(st, Execute(fuel, st, n).state)
    decreases n, 2, 0
  {
    match n
    case Block(ss) => StatementsLater(fuel, st, ss, VNone);
    case Declaration(_, _, _) => DeclareLater(fuel, st, n, 0);
    case BinaryOp(_, _, _) => BinaryOpLater(fuel, st, n);
    case If(_, _, _) => IfLater(fuel, st, n);
    case Loop(_, _, _, _) => LoopLater(fuel, st, n);
    case FunctionCall(_, _) => CallLater(fuel, st, n);
    case _ => LaterRefl(st);
  }

  lemma {:induction false} StatementsLater(fuel: nat, st: State, ss: seq<Node>, last: Value)
    ensures Later(st, ExecuteStatements(fuel, st, ss, last).state)
    decreases ss, 0, 0
  {
    if ss == [] {
      LaterRefl(st);
    } else {
      ExecuteLater(fuel, st, ss[0]);
      var x := Execute(fuel, st, ss[0]);
      if x.result.Ok? {
        StatementsLater(fuel, x.state, ss[1..], x.result.value);
        LaterTrans(st, x.state, ExecuteStatements(fuel, x.state, ss[1..], x.result.value).state);
      }
    }
  }

  lemma {:induction false} DeclareLater(fuel: nat, st: State, n: Node, i: nat)
    requires n.Declaration? && i <= |n.names|
    ensures Later(st, DeclareFrom(fuel, st, n, i).state)
    decreases n, 1, |n.names| - i
  {
    LaterRefl(st);
    if i < |n.names| {
      var v := if n.expression.Some? then Execute(fuel, st, n.expression.value) else Outcome(Ok(VNone), st);
      if n.expression.Some? {
        ExecuteLater(fuel, st, n.expression.value);
      }
      assert Later(st, v.state);
      if v.result.Ok? {
        var next := Bound(v.state, n.names[i], v.result.value);
        assert DeclareFrom(fuel, st, n, i) == DeclareFrom(fuel, next, n, i + 1);
        BoundIsLater(v.state, n.names[i], v.result.value);
        DeclareLater(fuel, next, n, i + 1);
        LaterTrans(st, v.state, next);
        LaterTrans(st, next, DeclareFrom(fuel, next, n, i + 1).state);
      } else {
        assert DeclareFrom(fuel, st, n, i) == v;
      }
    }
  }

  lemma {:induction false} BinaryOpLater(fuel: nat, st: State, n: Node)
    requires n.BinaryOp?
    ensures Later(st, ExecuteBinaryOp(fuel, st, n).state)
    decreases n, 1, 0
  {
    ExecuteLater(fuel, st, n.left);
    var l := Execute(fuel, st, n.left);
    if l.result.Ok? {
      ExecuteLater(fuel, l.state, n.right);
      var r := Execute(fuel, l.state, n.right);
      LaterTrans(st, l.state, r.state);
      if r.result.Ok? && n.operator == "ASSIGN" && n.left.Identifier? {
        var rv := Coerce(r.result.value);
        BoundIsLater(r.state, n.left.name, rv);
        LaterTrans(st, r.state, Bound(r.state, n.left.name, rv));
      }
    }
  }

  lemma {:induction false} IfLater(fuel: nat, st: State, n: Node)
    requires n.If?
    ensures Later(st, ExecuteIf(fuel, st, n).state)
    decreases n, 1, 0
  {
    ExecuteLater(fuel, st, n.condition);
    var c := Execute(fuel, st, n.condition);
    if c.result.Ok? {
      LaterRefl(c.state);
      if Truthy(c.result.value) {
        ExecuteLater(fuel, c.state, n.trueBlock);
      } else if n.falseBlock.Some? {
        ExecuteLater(fuel, c.state, n.falseBlock.value);
      }
      LaterTrans(st, c.state, ExecuteIf(fuel, st, n).state);
    }
  }

  /** A loop only changes the state as statements do, and when it ends normally gives `None`. */
  lemma {:induction false} LoopLater(fuel: nat, st: State, n: Node)
    requires n.Loop?
    ensures Later(st, ExecuteLoop(fuel, st, n).state)
    ensures ExecuteLoop(fuel, st, n).result.Ok? ==> ExecuteLoop(fuel, st, n).result.value == VNone
    decreases n, 1, 0
  {
    LaterRefl(st);
    if n.init.Some? {
      ExecuteLater(fuel, st, n.init.value);
    }
    var i := if n.init.Some? then Execute(fuel, st, n.init.value) else Outcome(Ok(VNone), st);
    if i.result.Ok? {
      IterateLater(fuel, fuel, i.state, n);
      IterateGivesNone(fuel, fuel, i.state, n);
      LaterTrans(st, i.state, Iterate(fuel, fuel, i.state, n).state);
    }
  }

  lemma {:induction false} IterateLater(fuel: nat, k: nat, st: State, n: Node)
    requires n.Loop?
    ensures Later(st, Iterate(fuel, k, st, n).state)
    decreases n, 0, k
  {
    ExecuteLater(fuel, st, n.condition);
    var c := Execute(fuel, st, n.condition);
    if c.result.Ok? && Truthy(c.result.value) && k > 0 {
      StepLater(fuel, c.state, n);
      var b := Step(fuel, c.state, n);
      LaterTrans(st, c.state, b.state);
      if b.result.Ok? {
        IterateLater(fuel, k - 1, b.state, n);
        LaterTrans(st, b.state, Iterate(fuel, k - 1, b.state, n).state);
      }
    }
  }

  lemma {:induction false} StepLater(fuel: nat, st: State, n: Node)
    requires n.Loop?
    ensures Later(st, Step(fuel, st, n).state)
    decreases n, 0, 0
  {
    ExecuteLater(fuel, st, n.body);
    var b := Execute(fuel, st, n.body);
    if b.result.Ok? && n.increment.Some? {
      ExecuteLater(fuel, b.state, n.increment.value);
      LaterTrans(st, b.state, Execute(fuel, b.state, n.increment.value).state);
    }
  }


  /** A loop that ends normally gives `None`. */
  lemma {:induction false} IterateGivesNone(fuel: nat, k: nat, st: State, n: Node)
    requires n.Loop?
    ensures Iterate(fuel, k, st, n).result.Ok? ==> Iterate(fuel, k, st, n).result.value == VNone
    decreases k
  {
    var c := Execute(fuel, st, n.condition);
    if c.result.Ok? && Truthy(c.result.value) && k > 0 {
      var b := Step(fuel, c.state, n);
      if b.result.Ok? {
        IterateGivesNone(fuel, k - 1, b.state, n);
      }
    }
  }


  lemma {:induction false} CallLater(fuel: nat, st: State, n: Node)
    requires n.FunctionCall?
    ensures Later(st, ExecuteCall(fuel, st, n).state)
    decreases n, 1, 0
  {
    LaterRefl(st);
    if n.callee == Builtin("EYES") && n.arguments != [] {
      ExecuteLater(fuel, st, n.arguments[0]);
      var p := Execute(fuel, st, n.arguments[0]);
      if p.result.Ok? {
        var shown := p.state.(output := p.state.output + [Prompt(p.result.value)]);
        LaterRefl(p.state);
        LaterTrans(st, p.state, shown);
        if shown.input != [] {
          var read := shown.(input := shown.input[1..]);
          assert read.input == shown.input[|shown.input| - |read.input|..];
          LaterTrans(st, shown, read);
        }
      }
    } else if n.callee == Builtin("PRAY") {
      PrintLater(fuel, st, n, 0);
    }
  }

  /** PRAY only appends output and gives `None`. */
  lemma {:induction false} PrintLater(fuel: nat, st: State, n: Node, i: nat)
    requires n.FunctionCall? && i <= |n.arguments|
    ensures Later(st, PrintFrom(fuel, st, n, i).state)
    ensures PrintFrom(fuel, st, n, i).result.Ok? ==> PrintFrom(fuel, st, n, i).result.value == VNone
    decreases n, 0, |n.arguments| - i
  {
    LaterRefl(st);
    if i < |n.arguments| {
      ExecuteLater(fuel, st, n.arguments[i]);
      var x := Execute(fuel, st, n.arguments[i]);
      if x.result.Ok? {
        var printed := x.state.(output := x.state.output + [Line(x.result.value)]);
        LaterRefl(x.state);
        LaterTrans(st, x.state, printed);
        PrintLater(fuel, printed, n, i + 1);
        LaterTrans(st, printed, PrintFrom(fuel, printed, n, i + 1).state);
      }
    }
  }

  /* ---------------------------------------------------------------- */
  /* The fuel bound only cuts runs off                                  */
  /* ---------------------------------------------------------------- */

  /** The run did not stop for want of fuel. */
  predicate Finished(o: Outcome)
  {
    o.result != Err(OutOfFuel)
  }

  /** A run that finishes with some fuel gives the same outcome with more. */
  lemma {:induction false} ExecuteFuel(f: nat, g: nat, st: State, n: Node)
    requires f <= g && Finished(Execute(f, st, n))
    ensures Execute(g, st, n) == Execute(f, st, n)
    decreases n, 2, 0
  {
    match n
    case Block(ss) => StatementsFuel(f, g, st, ss, VNone);
    case Declaration(_, _, _) => DeclareFuel(f, g, st, n, 0);
    case BinaryOp(_, _, _) => BinaryOpFuel(f, g, st, n);
    case If(_, _, _) => IfFuel(f, g, st, n);
    case Loop(_, _, _, _) => LoopFuel(f, g, st, n);
    case FunctionCall(_, _) => CallFuel(f, g, st, n);
    case _ =>
  }

  lemma {:induction false} StatementsFuel(f: nat, g: nat, st: State, ss: seq<Node>, last: Value)
    requires f <= g && Finished(ExecuteStatements(f, st, ss, last))
    ensures ExecuteStatements(g, st, ss, last) == ExecuteStatements(f, st, ss, last)
    decreases ss, 0, 0
  {
    if ss != [] {
      ExecuteFuel(f, g, st, ss[0]);
      var x := Execute(f, st, ss[0]);
      if x.result.Ok? {
        StatementsFuel(f, g, x.state, ss[1..], x.result.value);
      }
    }
  }

  lemma {:induction false} DeclareFuel(f: nat, g: nat, st: State, n: Node, i: nat)
    requires n.Declaration? && i <= |n.names|
    requires f <= g && Finished(DeclareFrom(f, st, n, i))
    ensures DeclareFrom(g, st, n, i) == DeclareFrom(f, st, n, i)
    decreases n, 1, |n.names| - i
  {
    if i < |n.names| {
      if n.expression.Some? {
        ExecuteFuel(f, g, st, n.expression.value);
      }
      var v := if n.expression.Some? then Execute(f, st, n.expression.value) else Outcome(Ok(VNone), st);
      if v.result.Ok? {
        DeclareFuel(f, g, Bound(v.state, n.names[i], v.result.value), n, i + 1);
      }
    }
  }

  lemma {:induction false} BinaryOpFuel(f: nat, g: nat, st: State, n: Node)
    requires n.BinaryOp?
    requires f <= g && Finished(ExecuteBinaryOp(f, st, n))
    ensures ExecuteBinaryOp(g, st, n) == ExecuteBinaryOp(f, st, n)
    decreases n, 1, 0
  {
    ExecuteFuel(f, g, st, n.left);
    var l := Execute(f, st, n.left);
    if l.result.Ok? {
      ExecuteFuel(f, g, l.state, n.right);
    }
  }

  lemma {:induction false} IfFuel(f: nat, g: nat, st: State, n: Node)
    requires n.If?
    requires f <= g && Finished(ExecuteIf(f, st, n))
    ensures ExecuteIf(g, st, n) == ExecuteIf(f, st, n)
    decreases n, 1, 0
  {
    ExecuteFuel(f, g, st, n.condition);
    var c := Execute(f, st, n.condition);
    if c.result.Ok? {
      if Truthy(c.result.value) {
        ExecuteFuel(f, g, c.state, n.trueBlock);
      } else if n.falseBlock.Some? {
        ExecuteFuel(f, g, c.state, n.falseBlock.value);
      }
    }
  }

  lemma {:induction false} LoopFuel(f: nat, g: nat, st: State, n: Node)
    requires n.Loop?
    requires f <= g && Finished(ExecuteLoop(f, st, n))
    ensures ExecuteLoop(g, st, n) == ExecuteLoop(f, st, n)
    decreases n, 1, 0
  {
    if n.init.Some? {
      ExecuteFuel(f, g, st, n.init.value);
    }
    var i := if n.init.Some? then Execute(f, st, n.init.value) else Outcome(Ok(VNone), st);
    if i.result.Ok? {
      IterateFuel(f, g, f, g, i.state, n);
    }
  }

  lemma {:induction false} IterateFuel(f: nat, g: nat, k: nat, k2: nat, st: State, n: Node)
    requires n.Loop?
    requires f <= g && k <= k2 && Finished(Iterate(f, k, st, n))
    ensures Iterate(g, k2, st, n) == Iterate(f, k, st, n)
    decreases n, 0, k
  {
    ExecuteFuel(f, g, st, n.condition);
    var c := Execute(f, st, n.condition);
    if c.result.Ok? && Truthy(c.result.value) && k > 0 {
      StepFuel(f, g, c.state, n);
      var b := Step(f, c.state, n);
      if b.result.Ok? {
        IterateFuel(f, g, k - 1, k2 - 1, b.state, n);
      }
    }
  }

  lemma {:induction false} StepFuel(f: nat, g: nat, st: State, n: Node)
    requires n.Loop?
    requires f <= g && Finished(Step(f, st, n))
    ensures Step(g, st, n) == Step(f, st, n)
    decreases n, 0, 0
  {
    ExecuteFuel(f, g, st, n.body);
    var b := Execute(f, st, n.body);
    if b.result.Ok? && n.increment.Some? {
      ExecuteFuel(f, g, b.state, n.increment.value);
    }
  }


  lemma {:induction false} CallFuel(f: nat, g: nat, st: State, n: Node)
    requires n.FunctionCall?
    requires f <= g && Finished(ExecuteCall(f, st, n))
    ensures ExecuteCall(g, st, n) == ExecuteCall(f, st, n)
    decreases n, 1, 0
  {
    if n.callee == Builtin("EYES") && n.arguments != [] {
      ExecuteFuel(f, g, st, n.arguments[0]);
    } else if n.callee == Builtin("PRAY") {
      PrintFuel(f, g, st, n, 0);
    }
  }

  lemma {:induction false} PrintFuel(f: nat, g: nat, st: State, n: Node, i: nat)
    requires n.FunctionCall? && i <= |n.arguments|
    requires f <= g && Finished(PrintFrom(f, st, n, i))
    ensures PrintFrom(g, st, n, i) == PrintFrom(f, st, n, i)
    decreases n, 0, |n.arguments| - i
  {
    if i < |n.arguments| {
      ExecuteFuel(f, g, st, n.arguments[i]);
      var x := Execute(f, st, n.arguments[i]);
      if x.result.Ok? {
        PrintFuel(f, g, x.state.(output := x.state.output + [Line(x.result.value)]), n, i + 1);
      }
    }
  }

  lemma {:induction false} EndlessIterate(f: nat, k: nat, st: State, n: Node)
    requires n == Loop(None, Number("1"), None, Block([]))
    ensures Iterate(f, k, st, n) == Outcome(Err(OutOfFuel), st)
    decreases k
  {
    assert Execute(f, st, n.condition) == Outcome(Ok(VStr("1")), st);
    assert Truthy(VStr("1"));
    assert Execute(f, st, n.body) == ExecuteStatements(f, st, [], VNone) == Outcome(Ok(VNone), st);
    assert Step(f, st, n) == Outcome(Ok(VNone), st);
    if k > 0 {
      EndlessIterate(f, k - 1, st, n);
    }
  }

  /** A loop whose condition is always truthy and whose body does nothing finishes with no fuel. */
  lemma EndlessLoop(f: nat, st: State)
    ensures Execute(f, st, Loop(None, Number("1"), None, Block([]))) == Outcome(Err(OutOfFuel), st)
  {
    EndlessIterate(f, f, st, Loop(None, Number("1"), None, Block([])));
  }
}
