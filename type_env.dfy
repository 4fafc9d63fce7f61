/**
 * The scope stack and function table of
 * semantic_analyzer/TypeEnviroment.py.
 *
 * `Env` is the state of a `TypeEnvironment` as a value: the list of
 * scopes, innermost last, and the function table.  The functions below
 * give the new state or the error of each method; the class
 * `TypeEnvironment` holds the same state in fields and its methods are
 * proved to follow the functions.
 */
module TypeEnv {
  import opened Wrappers
  import opened Ast

  /** One scope: variable names to their declared types. */
  type Scope = map<string, Type>

  /** A recorded function: its parameter types and its return type. */
  type Signature = (seq<Type>, Type)

  /** The exceptions the class raises, by cause. */
  datatype EnvError =
    | GlobalScopeExit            // exit_scope with only the global scope left
    | AlreadyDeclared(name: string)
    | Undeclared(name: string)
    | FunctionRedeclared(name: string)
    | FunctionUndeclared(name: string)

  datatype Env = Env(scopes: seq<Scope>, functions: map<string, Signature>)

  /** There is always a global scope: nothing removes the last one. */
  predicate Valid(e: Env)
  {
    |e.scopes| >= 1
  }

  /** `TypeEnvironment()`: one empty scope and no functions. */
  function Fresh(): (e: Env)
    ensures Valid(e)
  {
    Env([map[]], map[])
  }

  /** `enter_scope`: an empty scope pushed innermost. */
  function Entered(e: Env): (r: Env)
    ensures |r.scopes| == |e.scopes| + 1
  {
    e.(scopes := e.scopes + [map[]])
  }

  /** `exit_scope`: the innermost scope popped, unless it is the only one. */
  function Exited(e: Env): (r: Result<Env, EnvError>)
    ensures r.Err? <==> |e.scopes| <= 1
    ensures r.Err? ==> r.error == GlobalScopeExit
    ensures r.Ok? ==> Valid(r.value)
  {
    if |e.scopes| > 1 then Ok(e.(scopes := e.scopes[..|e.scopes| - 1])) else Err(GlobalScopeExit)
  }

  /** `declare_variable`: the name bound in the innermost scope, unless it is already there. */
  function WithVariable(e: Env, name: string, t: Type): (r: Result<Env, EnvError>)
    requires Valid(e)
    ensures r.Err? <==> name in e.scopes[|e.scopes| - 1]
    ensures r.Err? ==> r.error == AlreadyDeclared(name)
    ensures r.Ok? ==> Valid(r.value) && |r.value.scopes| == |e.scopes|
  {
    var last := |e.scopes| - 1;
    if name in e.scopes[last] then Err(AlreadyDeclared(name))
    else Ok(e.(scopes := e.scopes[last := e.scopes[last][name := t]]))
  }

  /** The binding of `name` in the innermost of `scopes` that has it. */
  function Lookup(scopes: seq<Scope>, name: string): Option<Type>
  {
    if scopes == [] then None
    else if name in scopes[|scopes| - 1] then Some(scopes[|scopes| - 1][name])
    else Lookup(scopes[..|scopes| - 1], name)
  }

  /** `get_variable_type`. */
  function VariableType(e: Env, name: string): Result<Type, EnvError>
  {
    match Lookup(e.scopes, name)
    case Some(t) => Ok(t)
    case None => Err(Undeclared(name))
  }

  /** `declare_function`: a new entry in the table, unless the name has one. */
  function WithFunction(e: Env, name: string, params: seq<Type>, ret: Type): (r: Result<Env, EnvError>)
    ensures r.Err? <==> name in e.functions
    ensures r.Err? ==> r.error == FunctionRedeclared(name)
    ensures r.Ok? ==> r.value.scopes == e.scopes
  {
    if name in e.functions then Err(FunctionRedeclared(name))
    else Ok(e.(functions := e.functions[name := (params, ret)]))
  }

  /** `get_function_type`. */
  function FunctionType(e: Env, name: string): (r: Result<Signature, EnvError>)
    ensures r.Ok? <==> name in e.functions
  {
    if name !in e.functions then Err(FunctionUndeclared(name)) else Ok(e.functions[name])
  }

  /* ---------------------------------------------------------------- */
  /* Properties                                                         */
  /* ---------------------------------------------------------------- */

  /**
   * A lookup finds the innermost scope holding the name: `Lookup` gives
   * `t` exactly when some scope binds the name to `t` and no scope inside
   * it has the name.
   */
  lemma {:induction false} LookupInnermost(scopes: seq<Scope>, name: string, t: Type)
    ensures Lookup(scopes, name) == Some(t) <==>
      exists i :: 0 <= i < |scopes| && name in scopes[i] && scopes[i][name] == t
        && forall j :: i < j < |scopes| ==> name !in scopes[j]
  {
    if scopes != [] {
      var last := |scopes| - 1;
      var inner := scopes[..last];
      LookupInnermost(inner, name, t);
      if name in scopes[last] {
        if scopes[last][name] == t {
          assert name in scopes[last] && scopes[last][name] == t;
        }
        forall i | 0 <= i < last && name in scopes[i] && scopes[i][name] == t
          ensures exists j :: i < j < |scopes| && name in scopes[j]
        {
          assert name in scopes[last];
        }
      } else {
        forall i | 0 <= i < last
          ensures (name in inner[i] && inner[i][name] == t && forall j :: i < j < |inner| ==> name !in inner[j]) <==>
                  (name in scopes[i] && scopes[i][name] == t && forall j :: i < j < |scopes| ==> name !in scopes[j])
        {
          assert inner[i] == scopes[i];
          assert forall j :: i < j < |inner| ==> inner[j] == scopes[j];
        }
      }
    }
  }

  /** A lookup in a fresh environment finds nothing. */
  lemma FreshIsEmpty(name: string)
    ensures VariableType(Fresh(), name) == Err(Undeclared(name))
    ensures FunctionType(Fresh(), name) == Err(FunctionUndeclared(name))
    ensures Exited(Fresh()) == Err(GlobalScopeExit)
  {
    assert Lookup([map[]], name) == Lookup([], name);
  }

  /** `exit_scope` undoes `enter_scope`, and leaves every other scope as it was. */
  lemma EnterThenExit(e: Env)
    requires Valid(e)
    ensures Exited(Entered(e)) == Ok(e)
  {
    assert (e.scopes + [map[]])[..|e.scopes|] == e.scopes;
  }

  /** `exit_scope` pops only the innermost scope and keeps the function table. */
  lemma ExitKeepsOuter(e: Env)
    requires Exited(e).Ok?
    ensures var r := Exited(e).value;
      |r.scopes| == |e.scopes| - 1 && r.functions == e.functions
      && forall i :: 0 <= i < |r.scopes| ==> r.scopes[i] == e.scopes[i]
  {
  }

  /** A new scope hides nothing: every lookup is as before until something is declared in it. */
  lemma EnterKeepsLookups(e: Env, name: string)
    ensures VariableType(Entered(e), name) == VariableType(e, name)
  {
    var s := Entered(e).scopes;
    assert s[..|e.scopes|] == e.scopes;
    assert s[|s| - 1] == map[];
    assert Lookup(s, name) == Lookup(e.scopes, name);
  }

  /** `declare_variable` touches only the innermost scope and not the function table. */
  lemma DeclareTouchesInnermost(e: Env, name: string, t: Type)
    requires Valid(e) && WithVariable(e, name, t).Ok?
    ensures var r := WithVariable(e, name, t).value; var last := |e.scopes| - 1;
      && r.functions == e.functions
      && (forall i :: 0 <= i < last ==> r.scopes[i] == e.scopes[i])
      && r.scopes[last] == e.scopes[last][name := t]
  {
  }

  /** After `declare_variable(n, t)`, `get_variable_type(n)` is `t`; other names are looked up as before. */
  lemma DeclareThenLookup(e: Env, name: string, t: Type, other: string)
    requires Valid(e) && WithVariable(e, name, t).Ok?
    ensures VariableType(WithVariable(e, name, t).value, name) == Ok(t)
    ensures other != name ==> VariableType(WithVariable(e, name, t).value, other) == VariableType(e, other)
  {
    var r := WithVariable(e, name, t).value;
    var last := |e.scopes| - 1;
    assert r.scopes[..last] == e.scopes[..last];
  }

  /**
   * Shadowing: a name declared in an outer scope can be declared again in
   * a new scope, and the inner binding wins until that scope is exited,
   * which restores the environment.
   */
  lemma ShadowThenExit(e: Env, name: string, t: Type)
    requires Valid(e)
    ensures WithVariable(Entered(e), name, t).Ok?
    ensures VariableType(WithVariable(Entered(e), name, t).value, name) == Ok(t)
    ensures Exited(WithVariable(Entered(e), name, t).value) == Ok(e)
  {
    var inner := WithVariable(Entered(e), name, t).value;
    assert inner.scopes[..|e.scopes|] == e.scopes;
  }

  /** The function table is not scoped: entering, exiting and declaring variables leave it alone. */
  lemma FunctionsIgnoreScopes(e: Env, name: string, t: Type, f: string)
    ensures FunctionType(Entered(e), f) == FunctionType(e, f)
    ensures Exited(e).Ok? ==> FunctionType(Exited(e).value, f) == FunctionType(e, f)
    ensures Valid(e) && WithVariable(e, name, t).Ok? ==> FunctionType(WithVariable(e, name, t).value, f) == FunctionType(e, f)
  {
  }

  /** `declare_function` then `get_function_type` gives the recorded signature; other entries are kept. */
  lemma DeclareFunctionThenLookup(e: Env, name: string, params: seq<Type>, ret: Type, other: string)
    requires WithFunction(e, name, params, ret).Ok?
    ensures FunctionType(WithFunction(e, name, params, ret).value, name) == Ok((params, ret))
    ensures other != name ==> FunctionType(WithFunction(e, name, params, ret).value, other) == FunctionType(e, other)
  {
  }

  /**
   * The class: `scopes` and `functions` are fields the methods update in
   * place, each as the function of the same name says.
   */
  class TypeEnvironment {
    var scopes: seq<Scope>
    var functions: map<string, Signature>

    function State(): Env
      reads this
    {
      Env(scopes, functions)
    }

    constructor ()
      ensures State() == Fresh()
    {
      scopes := [map[]];
      functions := map[];
    }

    /** `enter_scope`. */
    method EnterScope()
      modifies this
      ensures State() == Entered(old(State()))
    {
      scopes := scopes + [map[]];
    }

    /** `exit_scope`: pops, or raises and changes nothing. */
    method ExitScope() returns (r: Result<(), EnvError>)
      modifies this
      ensures var x := Exited(old(State()));
        if x.Ok? then r.Ok? && State() == x.value else r == Err(x.error) && State() == old(State())
    {
      if |scopes| > 1 {
        scopes := scopes[..|scopes| - 1];
        r := Ok(());
      } else {
        r := Err(GlobalScopeExit);
      }
    }

    /** `declare_variable`: binds, or raises and changes nothing. */
    method DeclareVariable(name: string, t: Type) returns (r: Result<(), EnvError>)
      requires Valid(State())
      modifies this
      ensures var x := WithVariable(old(State()), name, t);
        if x.Ok? then r.Ok? && State() == x.value else r == Err(x.error) && State() == old(State())
    {
      var last := |scopes| - 1;
      if name in scopes[last] {
        return Err(AlreadyDeclared(name));
      }
      scopes := scopes[last := scopes[last][name := t]];
      r := Ok(());
    }

    /** `get_variable_type`: the scopes from the innermost out, by a loop. */
    method GetVariableType(name: string) returns (r: Result<Type, EnvError>)
      ensures r == VariableType(State(), name)
    {
      var i := |scopes|;
      assert scopes[..i] == scopes;
      while i > 0
        invariant 0 <= i <= |scopes|
        invariant Lookup(scopes[..i], name) == Lookup(scopes, name)
      {
        i := i - 1;
        assert scopes[..i + 1][..i] == scopes[..i];
        if name in scopes[i] {
          return Ok(scopes[i][name]);
        }
      }
      r := Err(Undeclared(name));
    }

    /** `declare_function`: records, or raises and changes nothing. */
    method DeclareFunction(name: string, params: seq<Type>, ret: Type) returns (r: Result<(), EnvError>)
      modifies this
      ensures var x := WithFunction(old(State()), name, params, ret);
        if x.Ok? then r.Ok? && State() == x.value else r == Err(x.error) && State() == old(State())
    {
      if name in functions {
        return Err(FunctionRedeclared(name));
      }
      functions := functions[name := (params, ret)];
      r := Ok(());
    }

    /** `get_function_type`. */
    method GetFunctionType(name: string) returns (r: Result<Signature, EnvError>)
      ensures r == FunctionType(State(), name)
    {
      if name !in functions {
        return Err(FunctionUndeclared(name));
      }
      r := Ok(functions[name]);
    }
  }
}
