/** The part of Python's syntax that the definition-time policy of src/harness_guard.py looks at. */
module PythonSyntax {
  import opened Wrappers

  datatype Kind = Literal | Walrus(target: string) | Suspension | Plain

  /** Comp is a comprehension or generator: the names it binds, its outermost iterable, and everything else in it.
      Other stands for every remaining expression, with its parts. */
  datatype Expr =
    | Name(id: string)
    | Attribute(value: Expr, attr: string)
    | Call(func: Expr, args: seq<Expr>)
    | Lambda(defaults: seq<Expr>, body: Expr)
    | Comp(targets: set<string>, first: Expr, parts: seq<Expr>)
    | Other(kind: Kind, parts: seq<Expr>)

  /** A statement: the structure that the policy looks at, and its dump (ast.dump without attributes), which tells
      its constants, operators and keyword names too. An import is the list of names it binds with what they stand
      for, and the names it binds from packages that are not resolved; Another is any other statement. */
  datatype Stmt =
    | Define(d: Definition, dump: string)
    | Import(pairs: seq<(string, string)>, unresolved: set<string>, dump: string)
    | Assign(targets: seq<Expr>, value: Expr, dump: string)
    | AnnAssign(target: Expr, annotation: Expr, stored: Option<Expr>, dump: string)
    | If(test: Expr, body: seq<Stmt>, orelse: seq<Stmt>, dump: string)
    | Return(result: Option<Expr>, dump: string)
    | Pass(dump: string)
    | Evaluate(value: Expr, dump: string)
    | Another(dump: string)

  datatype Definition =
    | Function(name: string, coroutine: bool, decorators: seq<Expr>, params: set<string>, defaults: seq<Expr>,
               annotations: seq<Expr>, body: seq<Stmt>)
    | Class(name: string, decorators: seq<Expr>, bases: seq<Expr>, keywords: seq<Expr>, body: seq<Stmt>)

  /** Some node of an expression has this property, wherever it stands (ast.walk). */
  predicate Anywhere(f: Expr -> bool, e: Expr) {
    f(e) ||
    match e
    case Name(_) => false
    case Attribute(v, _) => Anywhere(f, v)
    case Call(g, args) => Anywhere(f, g) || exists k :: 0 <= k < |args| && Anywhere(f, args[k])
    case Lambda(defaults, body) => Anywhere(f, body) || exists k :: 0 <= k < |defaults| && Anywhere(f, defaults[k])
    case Comp(_, first, parts) => Anywhere(f, first) || exists k :: 0 <= k < |parts| && Anywhere(f, parts[k])
    case Other(_, parts) => exists k :: 0 <= k < |parts| && Anywhere(f, parts[k])
  }

  /** Every call that _definition_calls yields has this property; the bodies of lambdas are not searched. */
  predicate AllCalls(ok: Expr -> bool, e: Expr) {
    match e
    case Name(_) => true
    case Attribute(v, _) => AllCalls(ok, v)
    case Call(g, args) => ok(e) && AllCalls(ok, g) && forall k :: 0 <= k < |args| ==> AllCalls(ok, args[k])
    case Lambda(defaults, _) => forall k :: 0 <= k < |defaults| ==> AllCalls(ok, defaults[k])
    case Comp(_, first, parts) => AllCalls(ok, first) && forall k :: 0 <= k < |parts| ==> AllCalls(ok, parts[k])
    case Other(_, parts) => forall k :: 0 <= k < |parts| ==> AllCalls(ok, parts[k])
  }

  /** The name that a chain of attributes starts from. */
  function Root(e: Expr): Option<string> {
    match e
    case Name(id) => Some(id)
    case Attribute(v, _) => Root(v)
    case _ => None
  }

  function Qualified(e: Expr, bindings: map<string, string>): Option<string> {
    match e
    case Name(id) => if id in bindings then Some(bindings[id]) else None
    case Attribute(v, attr) =>
      var parent := Qualified(v, bindings);
      if parent.Some? && parent.value != "" then Some(parent.value + "." + attr) else None
    case _ => None
  }

  predicate IsName(e: Expr, names: set<string>) {
    e.Name? && e.id in names
  }

  predicate IsConstant(e: Expr) {
    e.Other? && e.kind == Literal && e.parts == []
  }
}
