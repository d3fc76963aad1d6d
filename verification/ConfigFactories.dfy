/** Editable configuration factories: _config_factory_body_allowed of src/harness_guard.py against what calling
    such a function runs. The bodies of lambdas stay deferred. */
module ConfigFactories {
  import opened Wrappers
  import opened PythonSyntax
  import opened HarnessPolicy

  // ---- The policy ----

  /** The names an expression stores to, in any comprehension or assignment expression inside it. */
  function Stores(e: Expr): set<string> {
    match e
    case Name(_) => {}
    case Attribute(v, _) => Stores(v)
    case Call(f, args) => Stores(f) + set k, n | 0 <= k < |args| && n in Stores(args[k]) :: n
    case Lambda(defaults, body) => Stores(body) + set k, n | 0 <= k < |defaults| && n in Stores(defaults[k]) :: n
    case Comp(targets, first, parts) =>
      targets + Stores(first) + set k, n | 0 <= k < |parts| && n in Stores(parts[k]) :: n
    case Other(kind, parts) =>
      (if kind.Walrus? then {kind.target} else {}) + set k, n | 0 <= k < |parts| && n in Stores(parts[k]) :: n
  }

  function StoresOption(e: Option<Expr>): set<string> {
    if e.Some? then Stores(e.value) else {}
  }

  function StoresIn(s: Stmt): set<string> {
    match s
    case Assign(targets, v, _) => TargetNames(targets) + Stores(v)
    case AnnAssign(target, annotation, v, _) => TargetNames([target]) + Stores(annotation) + StoresOption(v)
    case If(test, body, orelse, _) =>
      Stores(test) + (set k, n | 0 <= k < |body| && n in StoresIn(body[k]) :: n)
      + (set k, n | 0 <= k < |orelse| && n in StoresIn(orelse[k]) :: n)
    case Return(e, _) => StoresOption(e)
    case Evaluate(e, _) => Stores(e)
    case _ => {}
  }

  /** Parameters and everything stored to anywhere in the function. */
  function Locals(d: Definition): set<string>
    requires d.Function?
  {
    d.params + (set k, n | 0 <= k < |d.defaults| && n in Stores(d.defaults[k]) :: n)
    + (set k, n | 0 <= k < |d.annotations| && n in Stores(d.annotations[k]) :: n)
    + (set k, n | 0 <= k < |d.body| && n in StoresIn(d.body[k]) :: n)
  }

  predicate IsRefused(e: Expr) {
    e.Other? && (e.kind.Walrus? || e.kind == Suspension)
  }

  predicate Plainly(ok: Expr -> bool, e: Expr) {
    !Anywhere(IsRefused, e) && AllCalls(ok, e)
  }

  predicate StatementAllowed(ok: Expr -> bool, s: Stmt) {
    match s
    case Assign(targets, v, _) => (forall k :: 0 <= k < |targets| ==> targets[k].Name?) && Plainly(ok, v)
    case AnnAssign(target, annotation, v, _) =>
      target.Name? && Plainly(ok, annotation) && (v.Some? ==> Plainly(ok, v.value))
    case If(test, body, orelse, _) =>
      && Plainly(ok, test) && (forall k :: 0 <= k < |body| ==> StatementAllowed(ok, body[k]))
      && (forall k :: 0 <= k < |orelse| ==> StatementAllowed(ok, orelse[k]))
    case Return(e, _) => e.Some? ==> Plainly(ok, e.value)
    case Pass(_) => true
    case Evaluate(e, _) => IsConstant(e)
    case _ => false
  }

  /** The policy's view of names inside the factory; m.factories are the protected functions. */
  predicate FactoryAllowed(m: Context, d: Definition)
    requires d.Function?
  {
    var ctx := Inside(m, Locals(d));
    && d.decorators == []
    && forall k :: 0 <= k < |d.body| ==> StatementAllowed(call => CallAllowed(ctx, FACTORY_CALLS, call), d.body[k])
  }

  // ---- What calling it runs ----

  /** The names that are local to the function when it runs. */
  function Assigned(s: Stmt): set<string> {
    match s
    case Assign(targets, _, _) => TargetNames(targets)
    case AnnAssign(target, _, _, _) => TargetNames([target])
    case If(_, body, orelse, _) =>
      (set k, n | 0 <= k < |body| && n in Assigned(body[k]) :: n)
      + (set k, n | 0 <= k < |orelse| && n in Assigned(orelse[k]) :: n)
    case _ => {}
  }

  function RunLocals(d: Definition): set<string>
    requires d.Function?
  {
    d.params + set k, n | 0 <= k < |d.body| && n in Assigned(d.body[k]) :: n
  }

  /** Running a statement may call c: either branch of a condition may be taken, annotations of locals are not
      evaluated, and any other kind of statement may call anything. */
  predicate Runs(m: Context, locals: set<string>, s: Stmt, c: Callee) {
    match s
    case Assign(targets, v, _) =>
      MayCall(m, {}, locals, v, c) || (c == Unknown && exists k :: 0 <= k < |targets| && !targets[k].Name?)
    case AnnAssign(target, _, v, _) =>
      (v.Some? && MayCall(m, {}, locals, v.value, c)) || (c == Unknown && !target.Name?)
    case If(test, body, orelse, _) =>
      || MayCall(m, {}, locals, test, c)
      || (exists k :: 0 <= k < |body| && Runs(m, locals, body[k], c))
      || (exists k :: 0 <= k < |orelse| && Runs(m, locals, orelse[k], c))
    case Return(e, _) => e.Some? && MayCall(m, {}, locals, e.value, c)
    case Pass(_) => false
    case Evaluate(e, _) => MayCall(m, {}, locals, e, c)
    case _ => c == Unknown
  }

  // ---- Soundness ----

  predicate RootHasOneMeaning(m: Context, call: Expr) {
    call.Call? && (Root(call.func).Some? ==> OneMeaning(m, Root(call.func).value))
  }

  /** Every callee in the statement starts from a name with one meaning. */
  predicate Clear(m: Context, s: Stmt) {
    var ok := call => RootHasOneMeaning(m, call);
    match s
    case Assign(_, v, _) => AllCalls(ok, v)
    case AnnAssign(_, _, v, _) => v.Some? ==> AllCalls(ok, v.value)
    case If(test, body, orelse, _) =>
      && AllCalls(ok, test) && (forall k :: 0 <= k < |body| ==> Clear(m, body[k]))
      && (forall k :: 0 <= k < |orelse| ==> Clear(m, orelse[k]))
    case Return(e, _) => e.Some? ==> AllCalls(ok, e.value)
    case Evaluate(e, _) => AllCalls(ok, e)
    case _ => true
  }

  lemma {:induction false} RootOfQualified(f: Expr, bindings: map<string, string>)
    requires Qualified(f, bindings).Some?
    ensures Root(f).Some? && Root(f).value in bindings
  {
    if f.Attribute? {
      RootOfQualified(f.value, bindings);
    }
  }

  /** No allowed callee starts from a local name. */
  lemma AllowedRootIsFree(m: Context, locals: set<string>, call: Expr)
    requires CallAllowed(Inside(m, locals), FACTORY_CALLS, call)
    ensures Root(call.func).Some? && Root(call.func).value !in locals
  {
    var ctx := Inside(m, locals);
    if Qualified(call.func, ctx.bindings).Some? {
      RootOfQualified(call.func, ctx.bindings);
    }
  }

  /** Comprehensions inside a factory cannot rebind a callee, because their names count as local. */
  lemma {:induction false} StoresKeepHygiene(ok: Expr -> bool, one: Expr -> bool, m: Context, locals: set<string>,
                                             bound: set<string>, e: Expr)
    requires forall c :: ok(c) ==> CallAllowed(Inside(m, locals), FACTORY_CALLS, c)
    requires forall c :: one(c) <==> RootHasOneMeaning(m, c)
    requires AllCalls(ok, e) && Stores(e) <= locals && bound <= locals
    ensures Hygienic(m, bound, e) <==> AllCalls(one, e)
    decreases e
  {
    hide CallAllowed, OneMeaning, Inside;
    match e
    case Name(_) =>
    case Attribute(v, _) => StoresKeepHygiene(ok, one, m, locals, bound, v);
    case Call(f, args) =>
      AllowedRootIsFree(m, locals, e);
      StoresKeepHygiene(ok, one, m, locals, bound, f);
      forall k | 0 <= k < |args| ensures Hygienic(m, bound, args[k]) <==> AllCalls(one, args[k]) {
        StoresKeepHygiene(ok, one, m, locals, bound, args[k]);
      }
    case Lambda(defaults, _) =>
      forall k | 0 <= k < |defaults| ensures Hygienic(m, bound, defaults[k]) <==> AllCalls(one, defaults[k]) {
        StoresKeepHygiene(ok, one, m, locals, bound, defaults[k]);
      }
    case Comp(targets, first, parts) =>
      StoresKeepHygiene(ok, one, m, locals, bound, first);
      forall k | 0 <= k < |parts| ensures Hygienic(m, bound + targets, parts[k]) <==> AllCalls(one, parts[k]) {
        StoresKeepHygiene(ok, one, m, locals, bound + targets, parts[k]);
      }
    case Other(_, parts) =>
      forall k | 0 <= k < |parts| ensures Hygienic(m, bound, parts[k]) <==> AllCalls(one, parts[k]) {
        StoresKeepHygiene(ok, one, m, locals, bound, parts[k]);
      }
  }

  ghost predicate Quiet(m: Context, locals: set<string>, s: Stmt) {
    forall c :: Runs(m, locals, s, c) ==> ApprovedCall(m, FACTORY_CALLS, c)
  }

  lemma ValueSound(ok: Expr -> bool, one: Expr -> bool, m: Context, locals: set<string>, running: set<string>, e: Expr)
    requires forall c :: ok(c) <==> CallAllowed(Inside(m, locals), FACTORY_CALLS, c)
    requires forall c :: one(c) <==> RootHasOneMeaning(m, c)
    requires Plainly(ok, e) && Stores(e) <= locals && running <= locals && Settled(m)
    ensures AllApproved(m, FACTORY_CALLS, {}, running, e) <==> AllCalls(one, e)
  {
    hide CallAllowed, RootHasOneMeaning, Hygienic, AllApproved;
    ExpressionSound(ok, Inside(m, locals), m, FACTORY_CALLS, {}, running, e);
    StoresKeepHygiene(ok, one, m, locals, running, e);
  }

  lemma {:induction false} StatementSound(ok: Expr -> bool, m: Context, locals: set<string>, running: set<string>,
                                          s: Stmt)
    requires forall c :: ok(c) <==> CallAllowed(Inside(m, locals), FACTORY_CALLS, c)
    requires StatementAllowed(ok, s) && StoresIn(s) <= locals && running <= locals && Settled(m)
    ensures Quiet(m, running, s) <==> Clear(m, s)
    decreases s
  {
    hide CallAllowed, RootHasOneMeaning, ApprovedCall, Settled, AllCalls, Plainly, MayCall, Stores;
    var one := call => RootHasOneMeaning(m, call);
    match s
    case Assign(_, v, _) => ValueSound(ok, one, m, locals, running, v);
    case AnnAssign(_, _, v, _) =>
      if v.Some? {
        ValueSound(ok, one, m, locals, running, v.value);
      }
    case Return(e, _) =>
      if e.Some? {
        ValueSound(ok, one, m, locals, running, e.value);
      }
    case If(test, body, orelse, _) =>
      ValueSound(ok, one, m, locals, running, test);
      forall k | 0 <= k < |body| ensures Quiet(m, running, body[k]) <==> Clear(m, body[k]) {
        StatementSound(ok, m, locals, running, body[k]);
      }
      forall k | 0 <= k < |orelse| ensures Quiet(m, running, orelse[k]) <==> Clear(m, orelse[k]) {
        StatementSound(ok, m, locals, running, orelse[k]);
      }
      QuietIf(m, running, s);
    case Evaluate(e, _) => NothingInConstant(one, m, running, e);
    case _ =>
  }

  lemma NothingInConstant(one: Expr -> bool, m: Context, running: set<string>, e: Expr)
    requires IsConstant(e)
    ensures AllCalls(one, e) && forall c :: !MayCall(m, {}, running, e, c)
  {
  }

  lemma QuietIf(m: Context, running: set<string>, s: Stmt)
    requires s.If?
    ensures Quiet(m, running, s) <==>
              && AllApproved(m, FACTORY_CALLS, {}, running, s.test)
              && (forall k :: 0 <= k < |s.body| ==> Quiet(m, running, s.body[k]))
              && (forall k :: 0 <= k < |s.orelse| ==> Quiet(m, running, s.orelse[k]))
  {
  }

  lemma {:induction false} AssignedIsStored(s: Stmt)
    ensures Assigned(s) <= StoresIn(s)
  {
    if s.If? {
      forall k | 0 <= k < |s.body| ensures Assigned(s.body[k]) <= StoresIn(s.body[k]) {
        AssignedIsStored(s.body[k]);
      }
      forall k | 0 <= k < |s.orelse| ensures Assigned(s.orelse[k]) <= StoresIn(s.orelse[k]) {
        AssignedIsStored(s.orelse[k]);
      }
    }
  }

  /** Everything an allowed factory calls when it runs is listed for factories, exactly when none of its callees
      starts from a name that is both imported and defined. */
  lemma FactorySound(m: Context, d: Definition)
    requires d.Function? && FactoryAllowed(m, d) && Settled(m)
    ensures (forall k :: 0 <= k < |d.body| ==> Quiet(m, RunLocals(d), d.body[k]))
            <==> forall k :: 0 <= k < |d.body| ==> Clear(m, d.body[k])
  {
    hide Settled, Clear, Quiet, CallAllowed, StatementAllowed, StoresIn, Assigned;
    forall k | 0 <= k < |d.body| ensures StoresIn(d.body[k]) <= Locals(d) && Assigned(d.body[k]) <= Locals(d) {
      AssignedIsStored(d.body[k]);
    }
    forall k | 0 <= k < |d.body| ensures Quiet(m, RunLocals(d), d.body[k]) <==> Clear(m, d.body[k]) {
      StatementSound(call => CallAllowed(Inside(m, Locals(d)), FACTORY_CALLS, call), m, Locals(d), RunLocals(d),
                     d.body[k]);
    }
  }
}
