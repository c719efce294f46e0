/** What expressions evaluate to, for any meaning of the operations; equal expressions evaluate alike. */
module Meaning {
  import opened Expressions
  import opened AlphaEquivalence

  /** What an operation learns of a child: the type of the variable it binds, the value of a child in scope of
      that variable for each value it may take, or the value of any other child. */
  datatype Argument<!V> = Bind(typ: Option<Type>) | Under(values: imap<V, V>) | Plain(value: V)

  /** A meaning of constants, of names defined elsewhere and of operations. */
  datatype Interp<!V> = Interp(constant: real -> V, global: string -> V, node: (Op, seq<Argument<V>>) -> V)

  ghost function Lookup<V>(I: Interp<V>, env: map<string, V>, x: string): V {
    if x in env then env[x] else I.global(x)
  }

  function Extend<V>(env: map<string, V>, x: string, v: V): map<string, V> {
    env[x := v]
  }

  ghost function Eval<V(!new)>(I: Interp<V>, e: Expr, env: map<string, V>): V
    decreases e, 1
  {
    match e
    case Constant(c) => I.constant(c)
    case Variable(x, _) => Lookup(I, env, x)
    case Node(op, cs) => I.node(op, seq(|cs|, i requires 0 <= i < |cs| => EvalChild(I, e, i, env)))
  }

  ghost function EvalChild<V(!new)>(I: Interp<V>, e: Expr, i: nat, env: map<string, V>): Argument<V>
    requires e.Node? && i < |e.children|
    decreases e, 0
  {
    if !Binds(e, i) then Plain(Eval(I, e.children[i], env))
    else if i == BoundIndex(e.op) then Bind(if e.op.Lam? then BoundVar(e).typ else None)
    else Under(imap v: V | true :: Eval(I, e.children[i], Extend(env, BoundVar(e).name, v)))
  }

  /** A let evaluates its second child outside the scope of its variable, and the last one for every value that the
      variable may take; so do builds, with their size, and a lambda passes on the type of its argument. */
  lemma {:induction false} ChildrenOfBinder<V(!new)>(I: Interp<V>, op: Op, x: string, typ: Option<Type>, a: Expr,
      b: Expr, env: map<string, V>)
    ensures op.Let? ==> var e := Node(op, [Variable(x, typ), a, b]);
      EvalChild(I, e, 0, env) == Argument.Bind(None) && EvalChild(I, e, 1, env) == Plain(Eval(I, a, env))
        && EvalChild(I, e, 2, env) == Under(imap v: V | true :: Eval(I, b, Extend(env, x, v)))
    ensures op.Build? || op.Sumbuild? ==> var e := Node(op, [a, Variable(x, typ), b]);
      EvalChild(I, e, 0, env) == Plain(Eval(I, a, env)) && EvalChild(I, e, 1, env) == Argument.Bind(None)
        && EvalChild(I, e, 2, env) == Under(imap v: V | true :: Eval(I, b, Extend(env, x, v)))
    ensures op.Lam? ==> var e := Node(op, [Variable(x, typ), b]);
      EvalChild(I, e, 0, env) == Argument.Bind(typ)
        && EvalChild(I, e, 1, env) == Under(imap v: V | true :: Eval(I, b, Extend(env, x, v)))
  {
    hide Eval, Extend;
  }

  // ---------------------------------------------------------------- nameless forms

  /** Evaluation of a nameless form: `base` holds the values of the free variables, `stack` holds the values of the
      bound variables, outermost first. */
  ghost function EvalNameless<V(!new)>(I: Interp<V>, base: map<string, V>, n: Nameless, stack: seq<V>): V
    decreases n, 1
  {
    match n
    case NConstant(c) => I.constant(c)
    case NFree(x) => Lookup(I, base, x)
    case NBound(d) => if 1 <= d <= |stack| then stack[|stack| - d] else I.global("")
    case NNode(op, _, cs) => I.node(op, seq(|cs|, i requires 0 <= i < |cs| => EvalNamelessChild(I, base, n, i, stack)))
  }

  ghost function EvalNamelessChild<V(!new)>(I: Interp<V>, base: map<string, V>, n: Nameless, i: nat, stack: seq<V>)
      : Argument<V>
    requires n.NNode? && i < |n.children|
    decreases n, 0
  {
    if !(IsBinder(n.op) && (i == BoundIndex(n.op) || i == |n.children| - 1))
      then Plain(EvalNameless(I, base, n.children[i], stack))
    else if i == BoundIndex(n.op) then Bind(n.arg)
    else Under(imap v: V | true :: EvalNameless(I, base, n.children[i], stack + [v]))
  }

  /** The environment gives every name the value that the stack gives it. */
  ghost predicate Holds<V>(I: Interp<V>, base: map<string, V>, ctx: seq<string>, stack: seq<V>, env: map<string, V>) {
    |stack| == |ctx| && forall x :: Lookup(I, env, x) == ValueOf(I, base, Look(ctx, x), stack)
  }

  ghost function ValueOf<V>(I: Interp<V>, base: map<string, V>, n: Nameless, stack: seq<V>): V
    requires n.NFree? || n.NBound?
  {
    if n.NFree? then Lookup(I, base, n.name) else if 1 <= n.distance <= |stack| then stack[|stack| - n.distance]
    else I.global("")
  }

  lemma {:induction false} HoldsPush<V>(I: Interp<V>, base: map<string, V>, ctx: seq<string>, stack: seq<V>,
      env: map<string, V>, b: string, v: V)
    requires Holds(I, base, ctx, stack, env)
    ensures Holds(I, base, ctx + [b], stack + [v], Extend(env, b, v))
  {
    hide Look;
    forall x ensures Lookup(I, Extend(env, b, v), x) == ValueOf(I, base, Look(ctx + [b], x), stack + [v]) {
      LookPush(ctx, b, x);
      LookPositive(ctx, x);
      assert Lookup(I, env, x) == ValueOf(I, base, Look(ctx, x), stack);
    }
  }

  /** An expression has the value of its nameless form. */
  lemma {:induction false} EvalStrip<V(!new)>(I: Interp<V>, base: map<string, V>, e: Expr, ctx: seq<string>,
      stack: seq<V>, env: map<string, V>)
    requires Valid(e) && Holds(I, base, ctx, stack, env)
    ensures Eval(I, e, env) == EvalNameless(I, base, Strip(e, ctx), stack)
    decreases e, 1
  {
    hide Look, Holds, EvalChild, EvalNamelessChild;
    match e
    case Constant(_) =>
    case Variable(x, _) => EvalVariable(I, base, x, ctx, stack, env);
    case Node(op, cs) =>
      var n := Strip(e, ctx);
      var s := seq(|cs|, i requires 0 <= i < |cs| => EvalChild(I, e, i, env));
      var t := seq(|cs|, i requires 0 <= i < |n.children| => EvalNamelessChild(I, base, n, i, stack));
      forall i: nat | i < |cs| ensures EvalChild(I, e, i, env) == EvalNamelessChild(I, base, n, i, stack) {
        EvalStripChild(I, base, e, i, ctx, stack, env);
      }
      assert s == t;
  }

  lemma {:induction false} EvalVariable<V(!new)>(I: Interp<V>, base: map<string, V>, x: string, ctx: seq<string>,
      stack: seq<V>, env: map<string, V>)
    requires Holds(I, base, ctx, stack, env)
    ensures Lookup(I, env, x) == EvalNameless(I, base, Look(ctx, x), stack)
  {
    hide Look;
    assert Lookup(I, env, x) == ValueOf(I, base, Look(ctx, x), stack);
  }

  lemma {:induction false} EvalStripChild<V(!new)>(I: Interp<V>, base: map<string, V>, e: Expr, i: nat,
      ctx: seq<string>, stack: seq<V>, env: map<string, V>)
    requires Valid(e) && Holds(I, base, ctx, stack, env) && e.Node? && i < |e.children|
    ensures Strip(e, ctx).NNode? && i < |Strip(e, ctx).children|
    ensures EvalChild(I, e, i, env) == EvalNamelessChild(I, base, Strip(e, ctx), i, stack)
    decreases e, 0
  {
    hide Look, Holds, Eval, EvalNameless;
    var n, c := Strip(e, ctx), e.children[i];
    assert n.children[i] == Strip(c, Below(e, i, ctx));
    if !Binds(e, i) {
      EvalStrip(I, base, c, ctx, stack, env);
    } else if i != BoundIndex(e.op) {
      var b := BoundVar(e).name;
      forall v: V ensures Eval(I, c, Extend(env, b, v)) == EvalNameless(I, base, n.children[i], stack + [v]) {
        HoldsPush(I, base, ctx, stack, env, b, v);
        EvalStrip(I, base, c, ctx + [b], stack + [v], Extend(env, b, v));
      }
    }
  }

  /** Expressions that compare equal evaluate alike, in every environment and for every meaning of the operations. */
  lemma {:induction false} EqualEvaluateAlike<V(!new)>(I: Interp<V>, e: Expr, f: Expr, env: map<string, V>)
    requires Valid(e) && Valid(f) && Alpha(e) == Alpha(f)
    ensures Eval(I, e, env) == Eval(I, f, env)
  {
    hide *;
    HoldsNothing(I, env);
    EvalStrip(I, env, e, [], [], env);
    EvalStrip(I, env, f, [], [], env);
    AlphaIs(e);
    AlphaIs(f);
  }

  lemma {:induction false} HoldsNothing<V>(I: Interp<V>, env: map<string, V>)
    ensures Holds(I, env, [], [], env)
  {}

  lemma {:induction false} AlphaIs(e: Expr)
    ensures Alpha(e) == Strip(e, [])
  {
    hide Strip;
  }
}
