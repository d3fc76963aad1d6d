/** The definition-time policy of src/harness_guard.py against what Python runs when a module is imported:
    decorators, defaults, annotations and class bodies are evaluated, function and lambda bodies are not. */
module HarnessPolicy {
  import opened Wrappers
  import opened PythonSyntax

  const COMPILER_DECORATORS: set<string> := {"triton.jit", "triton.autotune", "triton.heuristics"}
  const CONSTRUCTORS: set<string> := {"triton.Config", "triton.cdiv", "triton.next_power_of_2"}
  const FACTORY_CALLS: set<string> := {"triton.Config", "triton.cdiv", "triton.next_power_of_2", "itertools.product"}
  const METHOD_DECORATORS: set<string> := {"staticmethod", "classmethod", "property"}
  const TEST_PACKAGES: set<string> := {"pytest", "unittest", "pluggy"}
  const HOOKS: set<string> := {"__getattr__", "__dir__"}
  const LIFECYCLE: set<string> := {"setup_module", "teardown_module", "setup_function", "teardown_function",
                                   "setup_class", "teardown_class", "setup_method", "teardown_method"}

  /** What a module binds: its imports, the names of the original file, the names of its definitions now, and the
      functions that may be called for configuration. */
  datatype Context = Context(bindings: map<string, string>, initial: set<string>, defined: set<string>,
                             factories: set<string>)

  // ---- The policy ----

  function FirstPart(s: string): string {
    if s == "" || s[0] == '.' then "" else [s[0]] + FirstPart(s[1..])
  }

  predicate IsExecutable(e: Expr) {
    e.Call? || e.Comp? || (e.Other? && (e.kind.Walrus? || e.kind == Suspension))
  }

  predicate PassiveExpression(e: Expr) {
    !Anywhere(IsExecutable, e)
  }

  predicate IsWalrus(e: Expr) {
    e.Other? && e.kind.Walrus?
  }

  /** The calls allowed in the arguments of a decorator, and (with more constructors) in a factory. */
  predicate CallAllowed(ctx: Context, constructors: set<string>, call: Expr) {
    call.Call? &&
    (var q := Qualified(call.func, ctx.bindings);
     || (q.Some? && q.value in constructors)
     || IsName(call.func, ctx.factories)
     || (IsName(call.func, {"range"}) && "range" !in ctx.initial + ctx.defined))
  }

  function Target(decorator: Expr): Expr {
    if decorator.Call? then decorator.func else decorator
  }

  /** The name leads into a test package. */
  predicate ReadsTests(bindings: map<string, string>, e: Expr) {
    var q := Qualified(e, bindings);
    q.Some? && FirstPart(q.value) in TEST_PACKAGES
  }

  predicate DecoratorAllowed(ctx: Context, method_: bool, decorator: Expr) {
    && (var q := Qualified(Target(decorator), ctx.bindings);
        || (q.Some? && q.value in COMPILER_DECORATORS)
        || (method_ && IsName(decorator, METHOD_DECORATORS) && decorator.id !in ctx.bindings
            && decorator.id !in ctx.initial + ctx.defined))
    && !Anywhere(e => ReadsTests(ctx.bindings, e), decorator)
    && (decorator.Call? ==>
          forall k :: 0 <= k < |decorator.args| ==>
            && !Anywhere(IsWalrus, decorator.args[k])
            && AllCalls(c => CallAllowed(ctx, CONSTRUCTORS, c), decorator.args[k]))
  }

  predicate HasPrefix(p: string, s: string) {
    p <= s
  }

  /** Names that test runners call by themselves. */
  predicate NameAllowed(name: string, method_: bool) {
    && !(!method_ && name in HOOKS)
    && !HasPrefix("test", name) && !HasPrefix("Test", name) && !HasPrefix("pytest_", name) && name !in LIFECYCLE
  }

  function TargetNames(targets: seq<Expr>): set<string> {
    set k | 0 <= k < |targets| && targets[k].Name? :: targets[k].id
  }

  /** The names one statement of a class body binds. */
  function BoundBy(s: Stmt): set<string> {
    match s
    case Define(d, _) => {d.name}
    case Assign(targets, _, _) => TargetNames(targets)
    case AnnAssign(target, _, _, _) => TargetNames([target])
    case _ => {}
  }

  function LocalNames(body: seq<Stmt>): (names: set<string>)
    ensures forall k :: 0 <= k < |body| ==> BoundBy(body[k]) <= names
  {
    set k, n | 0 <= k < |body| && n in BoundBy(body[k]) :: n
  }

  function Inside(ctx: Context, names: set<string>): Context {
    Context(ctx.bindings - names, ctx.initial, ctx.defined + names, ctx.factories - names)
  }

  /** _validate_editable_definition, true when it raises nothing. */
  predicate Accepts(ctx: Context, d: Definition, newHelper: bool, method_: bool)
    decreases d
  {
    && (newHelper ==> NameAllowed(d.name, method_))
    && (forall k :: 0 <= k < |d.decorators| ==> DecoratorAllowed(ctx, method_, d.decorators[k]))
    && match d
       case Function(_, _, _, _, defaults, annotations, _) =>
         && (forall k :: 0 <= k < |defaults| ==> PassiveExpression(defaults[k]))
         && (forall k :: 0 <= k < |annotations| ==> PassiveExpression(annotations[k]))
       case Class(_, _, bases, keywords, body) =>
         && keywords == []
         && (forall k :: 0 <= k < |bases| ==> IsName(bases[k], {"object"}) && "object" !in ctx.initial + ctx.defined)
         && forall k :: 0 <= k < |body| ==>
              if body[k].Define? then Accepts(Inside(ctx, LocalNames(body)), body[k].d, true, true)
              else DataAllowed(body[k])
  }

  /** The statements of a class body that are no definitions. */
  predicate DataAllowed(s: Stmt) {
    match s
    case Pass(_) => true
    case Evaluate(v, _) => IsConstant(v)
    case Assign(targets, v, _) => (forall j :: 0 <= j < |targets| ==> targets[j].Name?) && PassiveExpression(v)
    case AnnAssign(target, annotation, v, _) =>
      target.Name? && (v.Some? ==> PassiveExpression(v.value)) && PassiveExpression(annotation)
    case _ => false
  }

  // ---- What importing a module runs ----

  /** What a callee turns out to be: something imported, a definition of the module, a builtin, or anything else. */
  datatype Callee = Imported(path: string) | Global(name: string) | Builtin(name: string) | Unknown

  /** A name that is imported and also defined stands for whichever came last. */
  function Resolve(m: Context, shadow: set<string>, n: string): Callee {
    if n in shadow || (n in m.bindings && n in m.defined) then Unknown
    else if n in m.bindings then Imported(m.bindings[n])
    else if n in m.initial + m.defined then Global(n)
    else Builtin(n)
  }

  function Denotes(m: Context, shadow: set<string>, e: Expr): Callee {
    match e
    case Name(id) => Resolve(m, shadow, id)
    case Attribute(v, attr) =>
      var parent := Denotes(m, shadow, v);
      if parent.Imported? && parent.path != "" then Imported(parent.path + "." + attr) else Unknown
    case _ => Unknown
  }

  /** Evaluating an expression may call c. The names of a surrounding class are seen outside comprehensions only;
      the names a comprehension binds are seen inside it. */
  predicate MayCall(m: Context, names: set<string>, bound: set<string>, e: Expr, c: Callee)
    decreases e
  {
    match e
    case Name(_) => false
    case Attribute(v, _) => MayCall(m, names, bound, v, c)
    case Call(f, args) =>
      c == Denotes(m, names + bound, f) || MayCall(m, names, bound, f, c)
      || exists k :: 0 <= k < |args| && MayCall(m, names, bound, args[k], c)
    case Lambda(defaults, _) => exists k :: 0 <= k < |defaults| && MayCall(m, names, bound, defaults[k], c)
    case Comp(targets, first, parts) =>
      MayCall(m, names, bound, first, c)
      || exists k :: 0 <= k < |parts| && MayCall(m, {}, bound + targets, parts[k], c)
    case Other(_, parts) => exists k :: 0 <= k < |parts| && MayCall(m, names, bound, parts[k], c)
  }

  /** What a definition does when it is reached: it applies a decorator, or makes some other call. */
  datatype Event = Applies(callee: Callee) | Calls(callee: Callee)

  predicate DecoratorDoes(m: Context, names: set<string>, d: Expr, ev: Event) {
    if ev.Applies? then ev.callee == Denotes(m, names, Target(d))
    else MayCall(m, names, {}, Target(d), ev.callee)
         || (d.Call? && exists k :: 0 <= k < |d.args| && MayCall(m, names, {}, d.args[k], ev.callee))
  }

  predicate AnyCalls(m: Context, names: set<string>, es: seq<Expr>, ev: Event) {
    ev.Calls? && exists k :: 0 <= k < |es| && MayCall(m, names, {}, es[k], ev.callee)
  }

  /** The names of a class body that are bound before its k-th statement runs. */
  function BoundBefore(body: seq<Stmt>, k: nat): set<string>
    requires k <= |body|
  {
    LocalNames(body[..k])
  }

  /** Reaching a definition may do this. A metaclass argument, a base other than object, a store into anything but
      a name, and any other kind of statement may run anything. */
  predicate Does(m: Context, names: set<string>, d: Definition, ev: Event)
    decreases d, 1
  {
    || (exists k :: 0 <= k < |d.decorators| && DecoratorDoes(m, names, d.decorators[k], ev))
    || match d
       case Function(_, _, _, _, defaults, annotations, _) =>
         AnyCalls(m, names, defaults, ev) || AnyCalls(m, names, annotations, ev)
       case Class(_, _, bases, keywords, body) =>
         || (keywords != [] && ev == Calls(Unknown))
         || AnyCalls(m, names, bases, ev)
         || (exists k :: 0 <= k < |bases| && Denotes(m, names, bases[k]) != Builtin("object") && ev == Calls(Unknown))
         || exists k :: 0 <= k < |body| && DoesAt(m, d, k, ev)
  }

  /** The k-th statement of a class body may do this. */
  predicate DoesAt(m: Context, d: Definition, k: nat, ev: Event)
    requires d.Class? && k < |d.body|
    decreases d, 0
  {
    if d.body[k].Define? then Does(m, BoundBefore(d.body, k), d.body[k].d, ev)
    else DataDoes(m, BoundBefore(d.body, k), d.body[k], ev)
  }

  predicate DataDoes(m: Context, names: set<string>, s: Stmt, ev: Event) {
    match s
    case Pass(_) => false
    case Evaluate(v, _) => AnyCalls(m, names, [v], ev)
    case Assign(targets, v, _) =>
      AnyCalls(m, names, [v], ev) || (ev == Calls(Unknown) && exists j :: 0 <= j < |targets| && !targets[j].Name?)
    case AnnAssign(target, annotation, v, _) =>
      AnyCalls(m, names, [annotation] + (if v.Some? then [v.value] else []), ev)
      || (ev == Calls(Unknown) && !target.Name?)
    case _ => ev == Calls(Unknown)
  }

  predicate Approved(m: Context, ev: Event) {
    match ev
    case Applies(c) =>
      (c.Imported? && c.path in COMPILER_DECORATORS) || (c.Builtin? && c.name in METHOD_DECORATORS)
    case Calls(c) => ApprovedCall(m, CONSTRUCTORS, c)
  }

  predicate ApprovedCall(m: Context, constructors: set<string>, c: Callee) {
    (c.Imported? && c.path in constructors) || (c.Global? && c.name in m.factories) || c == Builtin("range")
  }

  // ---- The policy is sound, up to names with two meanings ----

  predicate OneMeaning(m: Context, n: string) {
    !(n in m.bindings && n in m.defined)
  }

  predicate RootIsClear(m: Context, bound: set<string>, f: Expr) {
    Root(f).Some? ==> Root(f).value !in bound && OneMeaning(m, Root(f).value)
  }

  /** No callee starts from a name that a surrounding comprehension binds, or that is both imported and defined. */
  predicate Hygienic(m: Context, bound: set<string>, e: Expr)
    decreases e
  {
    match e
    case Name(_) => true
    case Attribute(v, _) => Hygienic(m, bound, v)
    case Call(f, args) =>
      RootIsClear(m, bound, f) && Hygienic(m, bound, f) && forall k :: 0 <= k < |args| ==> Hygienic(m, bound, args[k])
    case Lambda(defaults, _) => forall k :: 0 <= k < |defaults| ==> Hygienic(m, bound, defaults[k])
    case Comp(targets, first, parts) =>
      Hygienic(m, bound, first) && forall k :: 0 <= k < |parts| ==> Hygienic(m, bound + targets, parts[k])
    case Other(_, parts) => forall k :: 0 <= k < |parts| ==> Hygienic(m, bound, parts[k])
  }

  predicate HygienicDecorator(m: Context, d: Expr) {
    && RootIsClear(m, {}, Target(d))
    && (d.Call? ==> forall k :: 0 <= k < |d.args| ==> Hygienic(m, {}, d.args[k]))
  }

  /** The same for a definition: its own decorators, and those of the definitions inside a class. */
  predicate HygienicDefinition(m: Context, d: Definition)
    decreases d
  {
    && (forall k :: 0 <= k < |d.decorators| ==> HygienicDecorator(m, d.decorators[k]))
    && (d.Class? ==> forall k :: 0 <= k < |d.body| && d.body[k].Define? ==> HygienicDefinition(m, d.body[k].d))
  }

  /** The imports are among the names of the original file, and factories are definitions. */
  predicate Settled(m: Context) {
    m.bindings.Keys <= m.initial && m.factories <= m.defined
  }

  /** What the policy knows inside a class is not more than what holds there. */
  predicate Covers(ctx: Context, m: Context, names: set<string>) {
    && ctx.initial == m.initial && m.defined <= ctx.defined && names <= ctx.defined
    && (forall n :: n in ctx.bindings ==> n !in names && n in m.bindings && m.bindings[n] == ctx.bindings[n])
    && (forall n :: n in ctx.factories ==> n !in names && n in m.factories)
  }

  lemma {:induction false} QualifiedDenotes(ctx: Context, m: Context, names: set<string>, bound: set<string>, f: Expr)
    requires Covers(ctx, m, names) && Qualified(f, ctx.bindings).Some?
    ensures Root(f).Some? && Root(f).value in ctx.bindings
    ensures Denotes(m, names + bound, f)
            == if RootIsClear(m, bound, f) then Imported(Qualified(f, ctx.bindings).value) else Unknown
  {
    if f.Attribute? {
      QualifiedDenotes(ctx, m, names, bound, f.value);
    }
  }

  lemma AllowedCallDenotes(ctx: Context, m: Context, constructors: set<string>, names: set<string>, bound: set<string>,
                           call: Expr)
    requires Covers(ctx, m, names) && Settled(m) && CallAllowed(ctx, constructors, call)
    ensures ApprovedCall(m, constructors, Denotes(m, names + bound, call.func)) <==> RootIsClear(m, bound, call.func)
  {
    var q := Qualified(call.func, ctx.bindings);
    if q.Some? && q.value in constructors {
      QualifiedDenotes(ctx, m, names, bound, call.func);
    }
  }

  ghost predicate AllApproved(m: Context, cs: set<string>, names: set<string>, bound: set<string>, e: Expr) {
    forall c :: MayCall(m, names, bound, e, c) ==> ApprovedCall(m, cs, c)
  }

  /** All calls an expression may make are approved exactly when it is hygienic. */
  lemma {:induction false} ExpressionSound(ok: Expr -> bool, ctx: Context, m: Context, cs: set<string>,
                                           names: set<string>, bound: set<string>, e: Expr)
    requires forall c :: ok(c) ==> CallAllowed(ctx, cs, c)
    requires AllCalls(ok, e) && Covers(ctx, m, names) && Settled(m)
    ensures AllApproved(m, cs, names, bound, e) <==> Hygienic(m, bound, e)
    decreases e
  {
    hide CallAllowed, ApprovedCall, Covers, Settled, RootIsClear, Denotes;
    match e
    case Name(_) =>
    case Attribute(v, _) =>
      ExpressionSound(ok, ctx, m, cs, names, bound, v);
      ApprovedInValue(m, cs, names, bound, e);
    case Call(f, args) =>
      AllowedCallDenotes(ctx, m, cs, names, bound, e);
      ExpressionSound(ok, ctx, m, cs, names, bound, f);
      forall k | 0 <= k < |args| ensures AllApproved(m, cs, names, bound, args[k]) <==> Hygienic(m, bound, args[k]) {
        ExpressionSound(ok, ctx, m, cs, names, bound, args[k]);
      }
      ApprovedInCall(m, cs, names, bound, e);
    case Lambda(defaults, _) =>
      forall k | 0 <= k < |defaults|
        ensures AllApproved(m, cs, names, bound, defaults[k]) <==> Hygienic(m, bound, defaults[k])
      {
        ExpressionSound(ok, ctx, m, cs, names, bound, defaults[k]);
      }
      ApprovedInParts(m, cs, names, bound, e);
    case Comp(targets, first, parts) =>
      ExpressionSound(ok, ctx, m, cs, names, bound, first);
      CoversOutside(ctx, m, names);
      forall k | 0 <= k < |parts|
        ensures AllApproved(m, cs, {}, bound + targets, parts[k]) <==> Hygienic(m, bound + targets, parts[k])
      {
        ExpressionSound(ok, ctx, m, cs, {}, bound + targets, parts[k]);
      }
      ApprovedInComp(m, cs, names, bound, e);
    case Other(_, parts) =>
      forall k | 0 <= k < |parts| ensures AllApproved(m, cs, names, bound, parts[k]) <==> Hygienic(m, bound, parts[k]) {
        ExpressionSound(ok, ctx, m, cs, names, bound, parts[k]);
      }
      ApprovedInParts(m, cs, names, bound, e);
  }

  lemma ApprovedInValue(m: Context, cs: set<string>, names: set<string>, bound: set<string>, e: Expr)
    requires e.Attribute?
    ensures AllApproved(m, cs, names, bound, e) <==> AllApproved(m, cs, names, bound, e.value)
  {
  }

  lemma ApprovedInCall(m: Context, cs: set<string>, names: set<string>, bound: set<string>, e: Expr)
    requires e.Call?
    ensures AllApproved(m, cs, names, bound, e) <==>
              && ApprovedCall(m, cs, Denotes(m, names + bound, e.func)) && AllApproved(m, cs, names, bound, e.func)
              && forall k :: 0 <= k < |e.args| ==> AllApproved(m, cs, names, bound, e.args[k])
  {
  }

  lemma ApprovedInParts(m: Context, cs: set<string>, names: set<string>, bound: set<string>, e: Expr)
    requires e.Lambda? || e.Other?
    ensures var parts := if e.Lambda? then e.defaults else e.parts;
            AllApproved(m, cs, names, bound, e) <==>
              forall k :: 0 <= k < |parts| ==> AllApproved(m, cs, names, bound, parts[k])
  {
  }

  lemma ApprovedInComp(m: Context, cs: set<string>, names: set<string>, bound: set<string>, e: Expr)
    requires e.Comp?
    ensures AllApproved(m, cs, names, bound, e) <==>
              && AllApproved(m, cs, names, bound, e.first)
              && forall k :: 0 <= k < |e.parts| ==> AllApproved(m, cs, {}, bound + e.targets, e.parts[k])
  {
  }

  lemma CoversOutside(ctx: Context, m: Context, names: set<string>)
    requires Covers(ctx, m, names)
    ensures Covers(ctx, m, {})
  {
  }

  lemma {:induction false} PassiveIsQuiet(m: Context, names: set<string>, bound: set<string>, e: Expr, c: Callee)
    requires PassiveExpression(e)
    ensures !MayCall(m, names, bound, e, c)
    decreases e
  {
    hide Denotes;
    match e
    case Name(_) =>
    case Attribute(v, _) => PassiveIsQuiet(m, names, bound, v, c);
    case Call(_, _) =>
    case Lambda(defaults, _) =>
      forall k | 0 <= k < |defaults| ensures !MayCall(m, names, bound, defaults[k], c) {
        assert !Anywhere(IsExecutable, defaults[k]);
        PassiveIsQuiet(m, names, bound, defaults[k], c);
      }
    case Comp(_, _, _) =>
    case Other(_, parts) =>
      forall k | 0 <= k < |parts| ensures !MayCall(m, names, bound, parts[k], c) {
        assert !Anywhere(IsExecutable, parts[k]);
        PassiveIsQuiet(m, names, bound, parts[k], c);
      }
  }

  lemma {:induction false} ChainIsQuiet(m: Context, names: set<string>, bound: set<string>, e: Expr, c: Callee)
    requires Root(e).Some?
    ensures !MayCall(m, names, bound, e, c)
  {
    if e.Attribute? {
      ChainIsQuiet(m, names, bound, e.value, c);
    }
  }

  ghost predicate DecoratorApproved(m: Context, names: set<string>, d: Expr) {
    forall ev :: DecoratorDoes(m, names, d, ev) ==> Approved(m, ev)
  }

  /** The decorator itself: applied, it is what it looks like exactly when its root is clear. */
  lemma TargetSound(ctx: Context, m: Context, names: set<string>, method_: bool, d: Expr)
    requires DecoratorAllowed(ctx, method_, d) && Covers(ctx, m, names) && Settled(m)
    ensures Root(Target(d)).Some?
    ensures Approved(m, Applies(Denotes(m, names, Target(d)))) <==> RootIsClear(m, {}, Target(d))
  {
    hide Anywhere, AllCalls, FirstPart;
    assert names + {} == names;
    var q := Qualified(Target(d), ctx.bindings);
    if q.Some? {
      QualifiedDenotes(ctx, m, names, {}, Target(d));
    }
  }

  lemma DecoratorSound(ctx: Context, m: Context, names: set<string>, method_: bool, d: Expr)
    requires DecoratorAllowed(ctx, method_, d) && Covers(ctx, m, names) && Settled(m)
    ensures DecoratorApproved(m, names, d) <==> HygienicDecorator(m, d)
  {
    hide Denotes, Approved, Covers, Settled, RootIsClear, CallAllowed, Anywhere, AllCalls, FirstPart, MayCall, Hygienic,
         DecoratorApproved, AllApproved;
    TargetSound(ctx, m, names, method_, d);
    forall c ensures !MayCall(m, names, {}, Target(d), c) {
      ChainIsQuiet(m, names, {}, Target(d), c);
    }
    DecoratorEvents(m, names, d);
    if d.Call? {
      forall k | 0 <= k < |d.args|
        ensures AllApproved(m, CONSTRUCTORS, names, {}, d.args[k]) <==> Hygienic(m, {}, d.args[k])
      {
        ArgumentSound(ctx, m, names, method_, d, k);
      }
    }
  }

  lemma DecoratorEvents(m: Context, names: set<string>, d: Expr)
    requires forall c :: !MayCall(m, names, {}, Target(d), c)
    ensures DecoratorApproved(m, names, d) <==>
              && Approved(m, Applies(Denotes(m, names, Target(d))))
              && (d.Call? ==> forall k :: 0 <= k < |d.args| ==> AllApproved(m, CONSTRUCTORS, names, {}, d.args[k]))
  {
    hide Denotes, ApprovedCall, MayCall, Target;
    assert DecoratorDoes(m, names, d, Applies(Denotes(m, names, Target(d))));
    if d.Call? {
      forall k, c | 0 <= k < |d.args| && MayCall(m, names, {}, d.args[k], c)
        ensures DecoratorDoes(m, names, d, Calls(c)) && (Approved(m, Calls(c)) <==> ApprovedCall(m, CONSTRUCTORS, c))
      {
      }
    }
  }

  lemma ArgumentSound(ctx: Context, m: Context, names: set<string>, method_: bool, d: Expr, k: nat)
    requires DecoratorAllowed(ctx, method_, d) && Covers(ctx, m, names) && Settled(m)
    requires d.Call? && k < |d.args|
    ensures AllApproved(m, CONSTRUCTORS, names, {}, d.args[k]) <==> Hygienic(m, {}, d.args[k])
  {
    hide CallAllowed, Covers, Settled, Hygienic, AllApproved;
    ExpressionSound(c => CallAllowed(ctx, CONSTRUCTORS, c), ctx, m, CONSTRUCTORS, names, {}, d.args[k]);
  }

  // ---- Whole definitions ----

  predicate DecoratorsDo(m: Context, names: set<string>, d: Definition, ev: Event) {
    exists k :: 0 <= k < |d.decorators| && DecoratorDoes(m, names, d.decorators[k], ev)
  }

  /** Beside its decorators, an accepted function does nothing when it is defined. */
  lemma FunctionDoes(ctx: Context, m: Context, names: set<string>, d: Definition, newHelper: bool, method_: bool,
                     ev: Event)
    requires Accepts(ctx, d, newHelper, method_) && d.Function?
    ensures Does(m, names, d, ev) <==> DecoratorsDo(m, names, d, ev)
  {
    hide DecoratorAllowed, DecoratorDoes, NameAllowed, PassiveExpression;
    forall k | 0 <= k < |d.defaults| ensures !MayCall(m, names, {}, d.defaults[k], ev.callee) {
      PassiveIsQuiet(m, names, {}, d.defaults[k], ev.callee);
    }
    forall k | 0 <= k < |d.annotations| ensures !MayCall(m, names, {}, d.annotations[k], ev.callee) {
      PassiveIsQuiet(m, names, {}, d.annotations[k], ev.callee);
    }
  }

  predicate InnerDoes(m: Context, body: seq<Stmt>, k: nat, ev: Event)
    requires k < |body|
  {
    body[k].Define? && Does(m, BoundBefore(body, k), body[k].d, ev)
  }

  lemma DataIsQuiet(m: Context, names: set<string>, s: Stmt, ev: Event)
    requires DataAllowed(s) && !s.Define?
    ensures !DataDoes(m, names, s, ev)
  {
    hide PassiveExpression;
    match s
    case Assign(_, v, _) => PassiveIsQuiet(m, names, {}, v, ev.callee);
    case AnnAssign(_, annotation, v, _) =>
      PassiveIsQuiet(m, names, {}, annotation, ev.callee);
      if v.Some? {
        PassiveIsQuiet(m, names, {}, v.value, ev.callee);
      }
    case Evaluate(v, _) => ConstantIsQuiet(m, names, v, ev.callee);
    case _ =>
  }

  /** A constant has no parts. */
  lemma ConstantIsQuiet(m: Context, names: set<string>, v: Expr, c: Callee)
    requires IsConstant(v)
    ensures !MayCall(m, names, {}, v, c)
  {
  }

  lemma BasesAreQuiet(ctx: Context, m: Context, names: set<string>, b: Expr, c: Callee)
    requires Covers(ctx, m, names) && Settled(m) && IsName(b, {"object"}) && "object" !in ctx.initial + ctx.defined
    ensures Denotes(m, names, b) == Builtin("object") && !MayCall(m, names, {}, b, c)
  {
  }

  /** Beside its decorators and the definitions inside it, neither does an accepted class. */
  lemma ClassDoes(ctx: Context, m: Context, names: set<string>, d: Definition, newHelper: bool, method_: bool,
                  ev: Event)
    requires Accepts(ctx, d, newHelper, method_) && d.Class? && Covers(ctx, m, names) && Settled(m)
    ensures Does(m, names, d, ev) <==>
              DecoratorsDo(m, names, d, ev) || exists k :: 0 <= k < |d.body| && InnerDoes(m, d.body, k, ev)
  {
    hide DecoratorAllowed, DecoratorDoes, NameAllowed, Covers, Settled, DataAllowed, DataDoes, Denotes, MayCall,
         BoundBefore, Inside, LocalNames;
    forall k | 0 <= k < |d.bases|
      ensures Denotes(m, names, d.bases[k]) == Builtin("object") && !MayCall(m, names, {}, d.bases[k], ev.callee)
    {
      BasesAreQuiet(ctx, m, names, d.bases[k], ev.callee);
    }
    forall k | 0 <= k < |d.body| && !d.body[k].Define? ensures !DataDoes(m, BoundBefore(d.body, k), d.body[k], ev) {
      DataIsQuiet(m, BoundBefore(d.body, k), d.body[k], ev);
    }
    forall k | 0 <= k < |d.body| ensures DoesAt(m, d, k, ev) <==> InnerDoes(m, d.body, k, ev) {
    }
  }

  ghost predicate AllDone(m: Context, names: set<string>, d: Definition) {
    forall ev :: Does(m, names, d, ev) ==> Approved(m, ev)
  }

  lemma CoversInside(ctx: Context, m: Context, names: set<string>, body: seq<Stmt>, k: nat)
    requires Covers(ctx, m, names) && k <= |body|
    ensures Covers(Inside(ctx, LocalNames(body)), m, BoundBefore(body, k))
  {
  }

  /** Everything an accepted definition does when the module is imported is approved, exactly when none of its
      callees starts from a name with a second meaning. */
  lemma {:induction false} DefinitionSound(ctx: Context, m: Context, names: set<string>, d: Definition, newHelper: bool,
                                           method_: bool)
    requires Accepts(ctx, d, newHelper, method_) && Covers(ctx, m, names) && Settled(m)
    ensures AllDone(m, names, d) <==> HygienicDefinition(m, d)
    decreases d
  {
    hide DecoratorAllowed, DecoratorDoes, NameAllowed, Covers, Settled, Denotes, MayCall, BoundBefore, Inside,
         LocalNames, DataAllowed, DataDoes, Does, Approved, PassiveExpression, HygienicDecorator;
    forall k | 0 <= k < |d.decorators|
      ensures DecoratorApproved(m, names, d.decorators[k]) <==> HygienicDecorator(m, d.decorators[k])
    {
      DecoratorSound(ctx, m, names, method_, d.decorators[k]);
    }
    if d.Function? {
      forall ev ensures Does(m, names, d, ev) <==> DecoratorsDo(m, names, d, ev) {
        FunctionDoes(ctx, m, names, d, newHelper, method_, ev);
      }
      FunctionApproved(m, names, d);
    } else {
      forall ev
        ensures Does(m, names, d, ev) <==>
                  DecoratorsDo(m, names, d, ev) || exists k :: 0 <= k < |d.body| && InnerDoes(m, d.body, k, ev)
      {
        ClassDoes(ctx, m, names, d, newHelper, method_, ev);
      }
      forall k | 0 <= k < |d.body| && d.body[k].Define?
        ensures AllDone(m, BoundBefore(d.body, k), d.body[k].d) <==> HygienicDefinition(m, d.body[k].d)
      {
        CoversInside(ctx, m, names, d.body, k);
        DefinitionSound(Inside(ctx, LocalNames(d.body)), m, BoundBefore(d.body, k), d.body[k].d, true, true);
      }
      ClassApproved(m, names, d);
    }
  }

  lemma FunctionApproved(m: Context, names: set<string>, d: Definition)
    requires d.Function? && forall ev :: Does(m, names, d, ev) <==> DecoratorsDo(m, names, d, ev)
    ensures AllDone(m, names, d)
            <==> forall k :: 0 <= k < |d.decorators| ==> DecoratorApproved(m, names, d.decorators[k])
  {
  }

  lemma ClassApproved(m: Context, names: set<string>, d: Definition)
    requires d.Class?
    requires forall ev :: Does(m, names, d, ev) <==>
               DecoratorsDo(m, names, d, ev) || exists k :: 0 <= k < |d.body| && InnerDoes(m, d.body, k, ev)
    ensures AllDone(m, names, d) <==>
              && (forall k :: 0 <= k < |d.decorators| ==> DecoratorApproved(m, names, d.decorators[k]))
              && forall k :: 0 <= k < |d.body| && d.body[k].Define? ==> AllDone(m, BoundBefore(d.body, k), d.body[k].d)
  {
    hide Does, DecoratorDoes, Approved, BoundBefore;
    assert forall k, ev :: 0 <= k < |d.decorators| && DecoratorDoes(m, names, d.decorators[k], ev) ==>
        DecoratorsDo(m, names, d, ev);
    forall k, ev | 0 <= k < |d.body| && d.body[k].Define? && Does(m, BoundBefore(d.body, k), d.body[k].d, ev)
      ensures InnerDoes(m, d.body, k, ev)
    {
    }
  }

  const CONFIG := Call(Attribute(Name("triton"), "Config"), [])
  const REBINDING := Comp({"triton"}, Name("others"), [CONFIG])
  const REBOUND := Call(Attribute(Name("triton"), "autotune"), [REBINDING])
  const TRITON: map<string, string> := map["triton" := "triton"]

  lemma {:induction false} FirstPartOf(p: string, rest: string)
    requires '.' !in p && (rest == "" || rest[0] == '.')
    ensures FirstPart(p + rest) == p
  {
    if p == "" {
      assert p + rest == rest;
    } else {
      assert (p + rest)[1..] == p[1..] + rest && p[0] in p;
      FirstPartOf(p[1..], rest);
      assert p == [p[0]] + p[1..];
    }
  }

  /** What the policy reads in the decorator. */
  lemma TritonNames()
    ensures Qualified(Name("triton"), TRITON) == Some("triton") && Qualified(Name("others"), TRITON) == None
    ensures forall attr :: Qualified(Attribute(Name("triton"), attr), TRITON) == Some("triton" + "." + attr)
    ensures "triton" + "." + "Config" in CONSTRUCTORS && "triton" + "." + "autotune" in COMPILER_DECORATORS
  {
    assert "triton" + "." + "Config" == "triton.Config" && "triton" + "." + "autotune" == "triton.autotune";
  }

  lemma NoTestsInIt(f: Expr -> bool)
    requires forall e :: f(e) <==> ReadsTests(TRITON, e)
    ensures !Anywhere(f, REBOUND)
  {
    hide FirstPart;
    TritonNames();
    forall attr: string ensures FirstPart("triton" + "." + attr) == "triton" == FirstPart("triton") {
      assert "triton" + "." + attr == "triton" + ("." + attr);
      FirstPartOf("triton", "." + attr);
      FirstPartOf("triton", "");
      assert "triton" + "" == "triton";
    }
    assert "triton" !in TEST_PACKAGES;
    assert !Anywhere(f, Name("triton")) && !Anywhere(f, Name("others"));
    assert !Anywhere(f, CONFIG.func) && !Anywhere(f, CONFIG) && !Anywhere(f, REBINDING) && !Anywhere(f, REBOUND.func);
  }

  lemma ReboundIsAllowed(m: Context)
    requires m.bindings == TRITON
    ensures DecoratorAllowed(m, false, REBOUND)
  {
    hide FirstPart;
    TritonNames();
    hide ReadsTests;
    NoTestsInIt(e => ReadsTests(m.bindings, e));
    var ok := c => CallAllowed(m, CONSTRUCTORS, c);
    assert REBINDING.parts[0] == CONFIG && REBOUND.args[0] == REBINDING;
    assert ok(CONFIG) && AllCalls(ok, CONFIG) && AllCalls(ok, REBINDING);
    assert CallAllowed(m, CONSTRUCTORS, CONFIG);
    assert !Anywhere(IsWalrus, CONFIG) && !Anywhere(IsWalrus, REBINDING);
  }

  /** Inside the comprehension the name is rebound, so the callee is unknown. */
  lemma ReboundCalls(m: Context)
    ensures MayCall(m, {}, {}, REBINDING, Unknown) && !Hygienic(m, {}, REBINDING)
  {
    assert REBINDING.parts[0] == CONFIG;
    assert Denotes(m, {} + ({} + {"triton"}), CONFIG.func) == Unknown;
    assert MayCall(m, {}, {} + {"triton"}, CONFIG, Unknown);
    assert !Hygienic(m, {} + {"triton"}, CONFIG);
  }

  /** The condition is needed: a decorator whose comprehension binds the imported name is accepted, and calls
      whatever the comprehension runs over. */
  lemma AcceptedButRebound()
    ensures var m := Context(TRITON, {"triton", "kernel"}, {"kernel"}, {});
            var d := Function("kernel", false, [REBOUND], {}, [], [], []);
            && Accepts(m, d, false, false) && Settled(m) && Covers(m, m, {})
            && !HygienicDefinition(m, d) && Does(m, {}, d, Calls(Unknown)) && !Approved(m, Calls(Unknown))
  {
    hide DecoratorAllowed, MayCall, Hygienic, Denotes;
    var m := Context(TRITON, {"triton", "kernel"}, {"kernel"}, {});
    var d := Function("kernel", false, [REBOUND], {}, [], [], []);
    ReboundIsAllowed(m);
    ReboundCalls(m);
    assert REBOUND.args[0] == REBINDING;
    assert DecoratorDoes(m, {}, d.decorators[0], Calls(Unknown));
    assert !HygienicDecorator(m, d.decorators[0]);
  }
}
