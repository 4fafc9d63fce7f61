/**
 * The syntax tree of parser/ast.py: one datatype for all node classes,
 * and their `__repr__` strings.
 *
 * The source's nodes are plain records whose constructors store their
 * arguments unchanged; here each class is a constructor of `Node`.  An
 * optional child (`DeclarationNode.expression`, the `false_block` of an
 * `if`, the `init` and `increment` of a loop) is an `Option`, `None`
 * where the source's default `None` is used.  An identifier list and the
 * name of a function or parameter, which the source holds as
 * `IdentifierNode`s and reads only through `.name`, is held as the name.
 */
module Ast {
  import opened Wrappers

  /**
   * A type as the analyser handles it: Python's `None` (the result of
   * statements and of PRAY/EYES), a tag string ('MARIA', 'EILEEN',
   * 'BLOOD', 'ARRAY', a token kind, ...), or a tuple of types (an array
   * type, whose element type is its first item).
   */
  datatype Type = NoType | Tag(name: string) | Tuple(items: seq<Type>)

  /** The `identifier` of a call: the string 'PRAY' the parser stores, or an `IdentifierNode`. */
  datatype Callee = Builtin(text: string) | Named(name: string)

  datatype Node =
    | Identifier(name: string)
    | Number(value: string)                       // the lexeme, e.g. "12" or "1.5"
    | Str(value: string)                          // the lexeme, quotes included
    | BinaryOp(left: Node, operator: string, right: Node)
    | Declaration(names: seq<string>, varType: Type, expression: Option<Node>)
    | Block(statements: seq<Node>)
    | If(condition: Node, trueBlock: Node, falseBlock: Option<Node>)
    | Loop(init: Option<Node>, condition: Node, increment: Option<Node>, body: Node)
    | FunctionCall(callee: Callee, arguments: seq<Node>)
    | Rest
    | FunctionDeclaration(fname: string, parameters: seq<(string, Type)>, returnType: Type, block: Node)
    | Return(returned: Node)
    | Array(elements: seq<Node>)

  /* ---------------------------------------------------------------- */
  /* __repr__                                                           */
  /* ---------------------------------------------------------------- */

  /**
   * `repr(node)`, where it does not depend on memory addresses:
   * FunctionDeclarationNode, ReturnNode and ArrayNode define no
   * `__repr__`, so Python prints them with their address, and a node
   * holding one prints that too; for those the result is `None`.  A
   * tuple type inside a declaration prints as Python's `str` of a tuple,
   * with each item quoted and escaped as `repr` does; that text is not
   * modelled, and the result is `None` there too.
   */
  function Repr(n: Node): Option<string>
    decreases n, 2
  {
    match n
    case Identifier(name) => Some("Identifier(" + name + ")")
    case Number(v) => Some("Number(" + v + ")")
    case Str(v) => Some("String(" + v + ")")
    case BinaryOp(l, op, r) =>
      if Repr(l).Some? && Repr(r).Some? then Some("BinaryOp(" + Repr(l).value + ", " + op + ", " + Repr(r).value + ")") else None
    case Declaration(names, t, e) =>
      if TypeStr(t).Some? && OptRepr(e).Some?
      then Some("Declaration(" + NamesRepr(names) + ", " + TypeStr(t).value + ", " + OptRepr(e).value + ")") else None
    case Block(ss) =>
      if ListRepr(ss).Some? then Some("Block(" + ListRepr(ss).value + ")") else None
    case If(c, t, f) =>
      if Repr(c).Some? && Repr(t).Some? && OptRepr(f).Some?
      then Some("If(" + Repr(c).value + ", " + Repr(t).value + ", " + OptRepr(f).value + ")") else None
    case Loop(i, c, inc, b) =>
      if OptRepr(i).Some? && Repr(c).Some? && OptRepr(inc).Some? && Repr(b).Some?
      then Some("Loop(" + OptRepr(i).value + ", " + Repr(c).value + ", " + OptRepr(inc).value + ", " + Repr(b).value + ")")
      else None
    case FunctionCall(callee, args) =>
      if ListRepr(args).Some? then Some("FunctionCall(" + CalleeStr(callee) + ", " + ListRepr(args).value + ")") else None
    case Rest => Some("Rest()")
    case FunctionDeclaration(_, _, _, _) => None
    case Return(_) => None
    case Array(_) => None
  }

  /** An optional child: its repr, or "None". */
  function OptRepr(e: Option<Node>): Option<string>
    decreases e, 1
  {
    match e
    case None => Some("None")
    case Some(n) => Repr(n)
  }

  /** `str(list)` of nodes: "[" then the reprs separated by ", " then "]". */
  function ListRepr(ns: seq<Node>): Option<string>
    decreases ns, 1
  {
    var items := Items(ns);
    if items.Some? then Some("[" + items.value + "]") else None
  }

  function Items(ns: seq<Node>): Option<string>
    decreases ns, 0
  {
    if ns == [] then Some("")
    else if |ns| == 1 then Repr(ns[0])
    else if Repr(ns[0]).Some? && Items(ns[1..]).Some? then Some(Repr(ns[0]).value + ", " + Items(ns[1..]).value)
    else None
  }

  /** The identifier list of a declaration, printed as a list of `Identifier(name)`. */
  function NamesRepr(names: seq<string>): string
  {
    "[" + NameItems(names) + "]"
  }

  function NameItems(names: seq<string>): string
  {
    if names == [] then ""
    else if |names| == 1 then "Identifier(" + names[0] + ")"
    else "Identifier(" + names[0] + "), " + NameItems(names[1..])
  }

  /** A type inside an f-string: a tag prints bare, `None` as "None"; a tuple is not modelled. */
  function TypeStr(t: Type): Option<string>
  {
    match t
    case NoType => Some("None")
    case Tag(name) => Some(name)
    case Tuple(_) => None
  }

  /** The callee inside an f-string: the bare string, or the identifier's repr. */
  function CalleeStr(c: Callee): string
  {
    match c
    case Builtin(text) => text
    case Named(name) => "Identifier(" + name + ")"
  }

  /* ---------------------------------------------------------------- */
  /* Which trees print                                                  */
  /* ---------------------------------------------------------------- */

  /**
   * A tree with no node of the three classes without `__repr__` and no
   * tuple type (whose text is not modelled): the trees the parser builds.
   */
  predicate Plain(n: Node)
  {
    match n
    case Identifier(_) => true
    case Number(_) => true
    case Str(_) => true
    case BinaryOp(l, _, r) => Plain(l) && Plain(r)
    case Declaration(_, t, e) => !t.Tuple? && (e.Some? ==> Plain(e.value))
    case Block(ss) => forall i :: 0 <= i < |ss| ==> Plain(ss[i])
    case If(c, t, f) => Plain(c) && Plain(t) && (f.Some? ==> Plain(f.value))
    case Loop(i, c, inc, b) => (i.Some? ==> Plain(i.value)) && Plain(c) && (inc.Some? ==> Plain(inc.value)) && Plain(b)
    case FunctionCall(_, args) => forall i :: 0 <= i < |args| ==> Plain(args[i])
    case Rest => true
    case FunctionDeclaration(_, _, _, _) => false
    case Return(_) => false
    case Array(_) => false
  }

  /**
   * `Repr` gives the printed text exactly when the tree is plain: no
   * FunctionDeclaration, Return or Array node anywhere in it (those print
   * an address), and no tuple type (whose text is not modelled).
   */
  lemma {:induction false} ReprDefined(n: Node)
    decreases n, 1
    ensures Repr(n).Some? <==> Plain(n)
  {
    match n
    case BinaryOp(l, _, r) =>
      ReprDefined(l);
      ReprDefined(r);
    case Declaration(_, t, e) =>
      if e.Some? {
        ReprDefined(e.value);
      }
    case Block(ss) =>
      ItemsDefined(ss);
    case If(c, t, f) =>
      ReprDefined(c);
      ReprDefined(t);
      if f.Some? {
        ReprDefined(f.value);
      }
    case Loop(i, c, inc, b) =>
      if i.Some? {
        ReprDefined(i.value);
      }
      ReprDefined(c);
      if inc.Some? {
        ReprDefined(inc.value);
      }
      ReprDefined(b);
    case FunctionCall(_, args) =>
      ItemsDefined(args);
    case _ =>
  }

  lemma {:induction false} ItemsDefined(ns: seq<Node>)
    decreases ns, 0
    ensures Items(ns).Some? <==> forall i :: 0 <= i < |ns| ==> Plain(ns[i])
  {
    if |ns| == 1 {
      ReprDefined(ns[0]);
    } else if ns != [] {
      ReprDefined(ns[0]);
      ItemsDefined(ns[1..]);
      assert forall i :: 1 <= i < |ns| ==> ns[i] == ns[1..][i - 1];
    }
  }
}
