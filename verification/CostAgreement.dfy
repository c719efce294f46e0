/** Where the abstract interpreter returns, on a well-typed program, it returns the cost that the cost function
    computes, and a value of the type of the program. */
module CostAgreement {
  import opened CostModels
  import opened AbstractInterpreter

  /** The shape of a nested tensor, of assumed vector sizes. */
  function Shape(t: Type): seq<nat> {
    if t.Tensor? then [ASSUMED_VECTOR_SIZE as nat] + Shape(t.elem) else []
  }

  /** `v` is a value, known or abstract, of type `t`. */
  ghost predicate HasType(v: Value, t: Type) {
    match t
    case Integer => v.IntV? || v.AbstractInt?
    case Float => v.FloatV? || v.AbstractFloat?
    case Bool => v.BoolV? || v.AbstractBool?
    case Tuple(ts) => v.TupleV? && |v.elems| == |ts| && forall i | 0 <= i < |ts| :: HasType(v.elems[i], ts[i])
    case Tensor(_) => v == AbstractTensor(Shape(t), Base(t)) && IsScalar(Base(t))
  }

  /** The environment has what the context promises; a lambda is closed over the environment in which it was bound. */
  ghost predicate Fits(env: Env, ctx: Context) {
    match ctx
    case Empty => env.NoVars?
    case Data(x, t, outer) => env.Bind? && env.name == x && HasType(env.value, t) && Fits(env.outer, outer)
    case Lambda(f, x, arg, b, result, outer) =>
      && env.Bind? && env.name == f && env.value == Closure(x, b, env.outer)
      && TypeOf(b, Data(x, arg, outer)) == Some(result) && Fits(env.outer, outer)
  }

  /** The costs of the lambdas in scope: those that `_compute_cost` carries along. */
  function LamCosts(ctx: Context): map<string, real> {
    match ctx
    case Empty => map[]
    case Data(x, _, outer) => LamCosts(outer) - {x}
    case Lambda(f, x, arg, b, _, outer) =>
      LamCosts(outer)[f := ComputeCost(b, Data(x, arg, outer), LamCosts(outer) - {x})]
  }

  lemma {:induction false} FitsData(env: Env, ctx: Context, x: string)
    requires Fits(env, ctx) && Entry(ctx, x).Data?
    ensures Find(env, x).Some? && HasType(Find(env, x).value, Entry(ctx, x).typ)
  {
    hide HasType, TypeOf;
    if ctx.name != x {
      FitsData(env.outer, ctx.outer, x);
    }
  }

  lemma {:induction false} FitsBind(env: Env, ctx: Context, x: string, v: Value, t: Type)
    requires Fits(env, ctx) && HasType(v, t)
    ensures Fits(Bind(x, v, env), Data(x, t, ctx)) && LamCosts(Data(x, t, ctx)) == LamCosts(ctx) - {x}
  {
    hide HasType;
  }

  /** A lambda in scope is a closure over an environment that fits the context of its definition, at its recorded
      cost. */
  lemma {:induction false} FitsLambda(env: Env, ctx: Context, f: string) returns (cenv: Env)
    requires Fits(env, ctx) && Entry(ctx, f).Lambda?
    ensures var l := Entry(ctx, f);
      && Find(env, f) == Some(Closure(l.param, l.body, cenv)) && Fits(cenv, l.outer)
      && TypeOf(l.body, Data(l.param, l.arg, l.outer)) == Some(l.result)
      && f in LamCosts(ctx)
        && LamCosts(ctx)[f] == ComputeCost(l.body, Data(l.param, l.arg, l.outer), LamCosts(l.outer) - {l.param})
  {
    hide HasType, TypeOf, ComputeCost;
    if ctx.name != f {
      cenv := FitsLambda(env.outer, ctx.outer, f);
    } else {
      cenv := env.outer;
    }
  }

  // ---------------------------------------------------------------- values

  lemma {:induction false} ShapeProduct(t: Type)
    requires IsScalar(Base(t))
    ensures Product(Shape(t)) == NumElements(t) && NumElements(t) >= 1
    ensures t.Tensor? ==> NumElements(t) > 1
  {
    if t.Tensor? {
      ShapeProduct(t.elem);
      assert Shape(t)[1..] == Shape(t.elem);
    }
  }

  lemma {:induction false} AbstractHasType(v: Value, t: Type)
    requires HasType(v, t) && AbstractLike(v).Some?
    ensures HasType(AbstractLike(v).value, t)
    decreases t, 0
  {
    if t.Tuple? {
      AbstractAllHaveType(v, t, |v.elems|);
    }
  }

  lemma {:induction false} AbstractAllHaveType(v: Value, t: Type, k: nat)
    requires t.Tuple? && HasType(v, t) && k <= |v.elems| && AbstractAll(v, k).Some?
    ensures forall i | 0 <= i < k :: HasType(AbstractAll(v, k).value[i], t.elems[i])
    decreases t, 0, k
  {
    if k > 0 {
      AbstractAllHaveType(v, t, k - 1);
      AbstractHasType(v.elems[k - 1], t.elems[k - 1]);
    }
  }

  lemma {:induction false} JoinedHasType(y: Value, n: Value, t: Type)
    requires HasType(y, t) && HasType(n, t) && Joined(y, n).Some?
    ensures HasType(Joined(y, n).value, t)
  {
    hide HasType, AbstractLike;
    if y != n {
      AbstractHasType(y, t);
    }
  }

  lemma {:induction false} StackedHasType(v: Value, t: Type)
    requires HasType(v, t) && IsScalar(Base(t)) && Stacked(v).Some?
    ensures HasType(Stacked(v).value, Tensor(t))
  {
    if !t.Tensor? {
      AbstractHasType(v, t);
    }
  }

  lemma {:induction false} ElementHasType(v: Value, t: Type)
    requires HasType(v, Tensor(t)) && Element(v).Some?
    ensures HasType(Element(v).value, t)
  {
    assert Shape(Tensor(t))[1..] == Shape(t);
    assert Base(Tensor(t)) == Base(t);
    if t.Tensor? {
      assert |Shape(t)| >= 1;
    }
  }

  lemma {:induction false} CountOf(v: Value, t: Type)
    requires HasType(v, t) && !t.Tuple?
    ensures ElementCount(v) == NumElements(t)
  {
    if t.Tensor? {
      ShapeProduct(t);
    }
  }

  // ---------------------------------------------------------------- built-in functions

  lemma {:induction false} BuiltinUnaryAgrees(l: Library, op: Op, v: Value, t: Type, u: Type)
    requires HasType(v, t) && UnaryType(op, t) == Some(u) && BuiltinUnary(l, op, v).Some?
    ensures BuiltinUnary(l, op, v).value.cost == NodeCost(op) && HasType(BuiltinUnary(l, op, v).value.value, u)
  {
    if op.Sum? {
      ShapeProduct(t);
    }
  }

  lemma {:induction false} ElementwiseAgrees(v: Value, w: Value, t: Type, u: Type, perElement: real)
    requires HasType(v, t) && HasType(w, u) && t.Tensor? && u.Tensor? && Elementwise(v, w, perElement).Some?
    ensures Elementwise(v, w, perElement).value.value == v
    ensures Elementwise(v, w, perElement).value.cost == perElement * (NumElements(t) as real) + BUILD_MALLOC_COST
    ensures NumElements(t) > 1
  {
    ShapeProduct(t);
  }

  /** What a built-in function of two arguments returns on values of the types it is declared for. */
  lemma {:induction false} BuiltinBinaryAgrees(op: Op, v: Value, w: Value, t: Type, u: Type, r: Type)
    requires HasType(v, t) && HasType(w, u) && BinaryType(op, t, u) == Some(r) && BuiltinBinary(op, v, w).Some?
    ensures BuiltinBinary(op, v, w).value.cost == BinaryCost(op, NumElements(t), NumElements(u))
    ensures HasType(BuiltinBinary(op, v, w).value.value, r)
  {
    if t.Tensor? && u.Tensor? && Arithmetic(op) {
      ElementwiseAgrees(v, w, t, u, NodeCost(op));
    }
  }

  // ---------------------------------------------------------------- the theorem

  ghost predicate Agrees(o: Outcome, e: Expr, ctx: Context, t: Type) {
    o.cost == ComputeCost(e, ctx, LamCosts(ctx)) && HasType(o.value, t)
  }

  /** Whenever the abstract interpreter returns, its cost is that of the cost function and its value has the type of
      the expression, calls of lambdas bound by lets included. */
  lemma {:induction false} CostsAgree(l: Library, e: Expr, env: Env, ctx: Context, fuel: nat, t: Type)
    requires Fits(env, ctx) && TypeOf(e, ctx) == Some(t) && Evaluate(l, e, env, fuel).Some?
    ensures Agrees(Evaluate(l, e, env, fuel).value, e, ctx, t)
    decreases fuel, 2
  {
    hide Evaluate, TypeOf, Agrees, Fits;
    match e
    case IntConst(_) => LeafAgrees(l, e, env, ctx, fuel, t);
    case FloatConst(_) => LeafAgrees(l, e, env, ctx, fuel, t);
    case BoolConst(_) => LeafAgrees(l, e, env, ctx, fuel, t);
    case Var(_) => LeafAgrees(l, e, env, ctx, fuel, t);
    case Let(_, _, _) => LetAgrees(l, e, env, ctx, fuel, t);
    case LetLam(_, _, _, _, _) => LetLamAgrees(l, e, env, ctx, fuel, t);
    case If(_, _, _) => IfAgrees(l, e, env, ctx, fuel, t);
    case Select(_, _) => SelectAgrees(l, e, env, ctx, fuel, t);
    case MakeTuple(_) => MakeTupleAgrees(l, e, env, ctx, fuel, t);
    case Index(_, _) => IndexAgrees(l, e, env, ctx, fuel, t);
    case Size(_) => SizeAgrees(l, e, env, ctx, fuel, t);
    case Build(_, _, _) => BuildAgrees(l, e, env, ctx, fuel, t);
    case Sumbuild(_, _, _) => SumbuildAgrees(l, e, env, ctx, fuel, t);
    case Assert(_, _) => AssertAgrees(l, e, env, ctx, fuel, t);
    case Apply(_, _) => ApplyAgrees(l, e, env, ctx, fuel, t);
    case Unary(_, _) => UnaryAgrees(l, e, env, ctx, fuel, t);
    case Binary(_, _, _) => BinaryAgrees(l, e, env, ctx, fuel, t);
  }

  lemma {:induction false} LeafAgrees(l: Library, e: Expr, env: Env, ctx: Context, fuel: nat, t: Type)
    requires Fits(env, ctx) && TypeOf(e, ctx) == Some(t) && Evaluate(l, e, env, fuel).Some?
    requires e.IntConst? || e.FloatConst? || e.BoolConst? || e.Var?
    ensures Agrees(Evaluate(l, e, env, fuel).value, e, ctx, t)
    decreases fuel, 1
  {
    hide Fits, LamCosts, Find;
    if e.Var? {
      FitsData(env, ctx, e.name);
    }
  }

  lemma {:induction false} LetAgrees(l: Library, e: Expr, env: Env, ctx: Context, fuel: nat, t: Type)
    requires e.Let? && Fits(env, ctx) && TypeOf(e, ctx) == Some(t) && Evaluate(l, e, env, fuel).Some?
    ensures Agrees(Evaluate(l, e, env, fuel).value, e, ctx, t)
    decreases fuel, 1
  {
    hide HasType, Joined, Stacked, Element, BuiltinUnary, BuiltinBinary, AbstractLike, NumElements, Find, Entry,
      UnaryType, BinaryType, BinaryCost, OfType, IsLength, ElementCount, Base, SizeOf, Smaller, Larger, NodeCost,
      EvaluateAll, ComputeCosts, TypesOf;
    var u := TypeOf(e.rhs, ctx).value;
    var v := Evaluate(l, e.rhs, env, fuel - 1).value;
    CostsAgree(l, e.rhs, env, ctx, fuel - 1, u);
    CostsAgree(l, e.body, Bind(e.x, v.value, env), Data(e.x, u, ctx), fuel - 1, t);
  }

  lemma {:induction false} LetLamAgrees(l: Library, e: Expr, env: Env, ctx: Context, fuel: nat, t: Type)
    requires e.LetLam? && Fits(env, ctx) && TypeOf(e, ctx) == Some(t) && Evaluate(l, e, env, fuel).Some?
    ensures Agrees(Evaluate(l, e, env, fuel).value, e, ctx, t)
    decreases fuel, 1
  {
    hide HasType, Joined, Stacked, Element, BuiltinUnary, BuiltinBinary, AbstractLike, NumElements, Find, Entry,
      UnaryType, BinaryType, BinaryCost, OfType, IsLength, ElementCount, Base, SizeOf, Smaller, Larger, NodeCost,
      EvaluateAll, ComputeCosts, TypesOf;
    var u := TypeOf(e.lamBody, Data(e.param, e.arg, ctx)).value;
    CostsAgree(l, e.body, Bind(e.f, Closure(e.param, e.lamBody, env), env),
      Lambda(e.f, e.param, e.arg, e.lamBody, u, ctx), fuel - 1, t);
  }

  lemma {:induction false} IfAgrees(l: Library, e: Expr, env: Env, ctx: Context, fuel: nat, t: Type)
    requires e.If? && Fits(env, ctx) && TypeOf(e, ctx) == Some(t) && Evaluate(l, e, env, fuel).Some?
    ensures Agrees(Evaluate(l, e, env, fuel).value, e, ctx, t)
    decreases fuel, 1
  {
    hide HasType, Fits, LamCosts, Joined, Stacked, Element, BuiltinUnary, BuiltinBinary, AbstractLike, NumElements,
      Find, Entry, UnaryType, BinaryType, BinaryCost, OfType, IsLength, ElementCount, Base, SizeOf, Smaller, Larger,
      NodeCost, EvaluateAll, ComputeCosts, TypesOf;
    CostsAgree(l, e.cond, env, ctx, fuel - 1, Bool);
    CostsAgree(l, e.yes, env, ctx, fuel - 1, t);
    CostsAgree(l, e.no, env, ctx, fuel - 1, t);
    JoinedHasType(Evaluate(l, e.yes, env, fuel - 1).value.value, Evaluate(l, e.no, env, fuel - 1).value.value, t);
  }

  lemma {:induction false} SelectAgrees(l: Library, e: Expr, env: Env, ctx: Context, fuel: nat, t: Type)
    requires e.Select? && Fits(env, ctx) && TypeOf(e, ctx) == Some(t) && Evaluate(l, e, env, fuel).Some?
    ensures Agrees(Evaluate(l, e, env, fuel).value, e, ctx, t)
    decreases fuel, 1
  {
    hide Fits, LamCosts, Joined, Stacked, Element, BuiltinUnary, BuiltinBinary, AbstractLike, NumElements, Find,
      Entry, UnaryType, BinaryType, BinaryCost, OfType, IsLength, ElementCount, Base, SizeOf, Smaller, Larger,
      NodeCost, EvaluateAll, ComputeCosts, TypesOf;
    CostsAgree(l, e.tuple, env, ctx, fuel - 1, TypeOf(e.tuple, ctx).value);
  }

  lemma {:induction false} MakeTupleAgrees(l: Library, e: Expr, env: Env, ctx: Context, fuel: nat, t: Type)
    requires e.MakeTuple? && Fits(env, ctx) && TypeOf(e, ctx) == Some(t) && Evaluate(l, e, env, fuel).Some?
    ensures Agrees(Evaluate(l, e, env, fuel).value, e, ctx, t)
    decreases fuel, 1
  {
    hide Fits, LamCosts, Joined, Stacked, Element, BuiltinUnary, BuiltinBinary, AbstractLike, NumElements, Find,
      Entry, UnaryType, BinaryType, BinaryCost, OfType, IsLength, ElementCount, Base, SizeOf, Smaller, Larger,
      NodeCost, EvaluateAll, ComputeCosts, TypesOf;
    AllAgree(l, e, |e.es|, env, ctx, fuel - 1);
  }

  lemma {:induction false} IndexAgrees(l: Library, e: Expr, env: Env, ctx: Context, fuel: nat, t: Type)
    requires e.Index? && Fits(env, ctx) && TypeOf(e, ctx) == Some(t) && Evaluate(l, e, env, fuel).Some?
    ensures Agrees(Evaluate(l, e, env, fuel).value, e, ctx, t)
    decreases fuel, 1
  {
    hide Fits, LamCosts, Joined, Stacked, Element, BuiltinUnary, BuiltinBinary, AbstractLike, NumElements, Find,
      Entry, UnaryType, BinaryType, BinaryCost, OfType, IsLength, ElementCount, Base, SizeOf, Smaller, Larger,
      NodeCost, EvaluateAll, ComputeCosts, TypesOf;
    var u := TypeOf(e.vec, ctx).value;
    CostsAgree(l, e.idx, env, ctx, fuel - 1, Integer);
    CostsAgree(l, e.vec, env, ctx, fuel - 1, u);
    ElementHasType(Evaluate(l, e.vec, env, fuel - 1).value.value, t);
  }

  lemma {:induction false} SizeAgrees(l: Library, e: Expr, env: Env, ctx: Context, fuel: nat, t: Type)
    requires e.Size? && Fits(env, ctx) && TypeOf(e, ctx) == Some(t) && Evaluate(l, e, env, fuel).Some?
    ensures Agrees(Evaluate(l, e, env, fuel).value, e, ctx, t)
    decreases fuel, 1
  {
    hide Fits, LamCosts, Joined, Stacked, Element, BuiltinUnary, BuiltinBinary, AbstractLike, NumElements, Find,
      Entry, UnaryType, BinaryType, BinaryCost, OfType, IsLength, ElementCount, Base, SizeOf, Smaller, Larger,
      NodeCost, EvaluateAll, ComputeCosts, TypesOf;
    CostsAgree(l, e.vec, env, ctx, fuel - 1, TypeOf(e.vec, ctx).value);
  }

  lemma {:induction false} FitsIndex(env: Env, ctx: Context, x: string)
    requires Fits(env, ctx)
    ensures Fits(Bind(x, AbstractInt, env), Data(x, Integer, ctx))
      && LamCosts(Data(x, Integer, ctx)) == LamCosts(ctx) - {x}
  {
    hide LamCosts;
    FitsBind(env, ctx, x, AbstractInt, Integer);
  }

  lemma {:induction false} SizeOfSome(t: Option<Type>)
    requires t.Some?
    ensures SizeOf(t) == NumElements(t.value)
  {}

  lemma {:induction false} BuildAgrees(l: Library, e: Expr, env: Env, ctx: Context, fuel: nat, t: Type)
    requires e.Build? && Fits(env, ctx) && TypeOf(e, ctx) == Some(t) && Evaluate(l, e, env, fuel).Some?
    ensures Agrees(Evaluate(l, e, env, fuel).value, e, ctx, t)
    decreases fuel, 1
  {
    hide Fits, LamCosts, Joined, Stacked, Element, BuiltinUnary, BuiltinBinary, AbstractLike, NumElements, Find,
      Entry, UnaryType, BinaryType, BinaryCost, OfType, ElementCount, Base, SizeOf, Smaller, Larger, NodeCost,
      EvaluateAll, ComputeCosts, TypesOf;
    var u := TypeOf(e.body, Data(e.x, Integer, ctx)).value;
    CostsAgree(l, e.length, env, ctx, fuel - 1, Integer);
    FitsIndex(env, ctx, e.x);
    CostsAgree(l, e.body, Bind(e.x, AbstractInt, env), Data(e.x, Integer, ctx), fuel - 1, u);
    StackedHasType(Evaluate(l, e.body, Bind(e.x, AbstractInt, env), fuel - 1).value.value, u);
  }

  lemma {:induction false} SumbuildAgrees(l: Library, e: Expr, env: Env, ctx: Context, fuel: nat, t: Type)
    requires e.Sumbuild? && Fits(env, ctx) && TypeOf(e, ctx) == Some(t) && Evaluate(l, e, env, fuel).Some?
    ensures Agrees(Evaluate(l, e, env, fuel).value, e, ctx, t)
    decreases fuel, 1
  {
    hide HasType, Fits, LamCosts, Joined, Stacked, Element, BuiltinUnary, BuiltinBinary, AbstractLike, NumElements,
      Find, Entry, UnaryType, BinaryType, BinaryCost, OfType, IsLength, ElementCount, Base, SizeOf, Smaller, Larger,
      NodeCost, EvaluateAll, ComputeCosts, TypesOf;
    CostsAgree(l, e.length, env, ctx, fuel - 1, Integer);
    FitsIndex(env, ctx, e.x);
    CostsAgree(l, e.body, Bind(e.x, AbstractInt, env), Data(e.x, Integer, ctx), fuel - 1, t);
    var v := Evaluate(l, e.body, Bind(e.x, AbstractInt, env), fuel - 1).value.value;
    AbstractHasType(v, t);
    CountOf(v, t);
    SizeOfSome(TypeOf(e.body, Data(e.x, Integer, ctx)));
  }

  lemma {:induction false} AssertAgrees(l: Library, e: Expr, env: Env, ctx: Context, fuel: nat, t: Type)
    requires e.Assert? && Fits(env, ctx) && TypeOf(e, ctx) == Some(t) && Evaluate(l, e, env, fuel).Some?
    ensures Agrees(Evaluate(l, e, env, fuel).value, e, ctx, t)
    decreases fuel, 1
  {
    hide HasType, Fits, LamCosts, Joined, Stacked, Element, BuiltinUnary, BuiltinBinary, AbstractLike, NumElements,
      Find, Entry, UnaryType, BinaryType, BinaryCost, OfType, IsLength, ElementCount, Base, SizeOf, Smaller, Larger,
      NodeCost, EvaluateAll, ComputeCosts, TypesOf;
    CostsAgree(l, e.cond, env, ctx, fuel - 1, Bool);
    CostsAgree(l, e.body, env, ctx, fuel - 1, t);
  }

  lemma {:induction false} ApplyAgrees(l: Library, e: Expr, env: Env, ctx: Context, fuel: nat, t: Type)
    requires e.Apply? && Fits(env, ctx) && TypeOf(e, ctx) == Some(t) && Evaluate(l, e, env, fuel).Some?
    ensures Agrees(Evaluate(l, e, env, fuel).value, e, ctx, t)
    decreases fuel, 1
  {
    hide HasType, LamCosts, Entry, Find, Fits, Joined, Stacked, Element, BuiltinUnary, BuiltinBinary, AbstractLike,
      NumElements, UnaryType, BinaryType, BinaryCost, OfType, IsLength, ElementCount, Base, SizeOf, Smaller, Larger,
      NodeCost, EvaluateAll, ComputeCosts, TypesOf;
    var cenv := FitsLambda(env, ctx, e.f);
    var c := Entry(ctx, e.f);
    CostsAgree(l, e.actual, env, ctx, fuel - 1, c.arg);
    var v := Evaluate(l, e.actual, env, fuel - 1).value.value;
    FitsBind(cenv, c.outer, c.param, v, c.arg);
    CostsAgree(l, c.body, Bind(c.param, v, cenv), Data(c.param, c.arg, c.outer), fuel - 1, t);
  }

  lemma {:induction false} UnaryAgrees(l: Library, e: Expr, env: Env, ctx: Context, fuel: nat, t: Type)
    requires e.Unary? && Fits(env, ctx) && TypeOf(e, ctx) == Some(t) && Evaluate(l, e, env, fuel).Some?
    ensures Agrees(Evaluate(l, e, env, fuel).value, e, ctx, t)
    decreases fuel, 1
  {
    hide HasType, Fits, LamCosts, Joined, Stacked, Element, BuiltinUnary, BuiltinBinary, AbstractLike, NumElements,
      Find, Entry, UnaryType, BinaryType, BinaryCost, OfType, IsLength, ElementCount, Base, SizeOf, Smaller, Larger,
      NodeCost, EvaluateAll, ComputeCosts, TypesOf;
    var u := TypeOf(e.a, ctx).value;
    CostsAgree(l, e.a, env, ctx, fuel - 1, u);
    BuiltinUnaryAgrees(l, e.op, Evaluate(l, e.a, env, fuel - 1).value.value, u, t);
  }

  lemma {:induction false} BinaryAgrees(l: Library, e: Expr, env: Env, ctx: Context, fuel: nat, t: Type)
    requires e.Binary? && Fits(env, ctx) && TypeOf(e, ctx) == Some(t) && Evaluate(l, e, env, fuel).Some?
    ensures Agrees(Evaluate(l, e, env, fuel).value, e, ctx, t)
    decreases fuel, 1
  {
    hide HasType, Fits, LamCosts, Joined, Stacked, Element, BuiltinUnary, BuiltinBinary, AbstractLike, NumElements,
      Find, Entry, UnaryType, BinaryType, BinaryCost, OfType, IsLength, ElementCount, Base, Smaller, Larger,
      NodeCost, EvaluateAll, ComputeCosts, TypesOf;
    var u, w := TypeOf(e.a, ctx).value, TypeOf(e.b, ctx).value;
    CostsAgree(l, e.a, env, ctx, fuel - 1, u);
    CostsAgree(l, e.b, env, ctx, fuel - 1, w);
    BuiltinBinaryAgrees(e.op, Evaluate(l, e.a, env, fuel - 1).value.value, Evaluate(l, e.b, env, fuel - 1).value.value,
      u, w, t);
  }

  lemma {:induction false} AllAgree(l: Library, e: Expr, k: nat, env: Env, ctx: Context, fuel: nat)
    requires e.MakeTuple? && k <= |e.es| && Fits(env, ctx) && TypesOf(e, k, ctx).Some?
    requires EvaluateAll(l, e, k, env, fuel).Some?
    ensures EvaluateAll(l, e, k, env, fuel).value.1 == ComputeCosts(e, k, ctx, LamCosts(ctx))
    ensures forall i | 0 <= i < k :: HasType(EvaluateAll(l, e, k, env, fuel).value.0[i], TypesOf(e, k, ctx).value[i])
    decreases fuel, 3, k
  {
    hide HasType, Fits, LamCosts, Evaluate, ComputeCost, TypeOf;
    if k > 0 {
      AllAgree(l, e, k - 1, env, ctx, fuel);
      CostsAgree(l, e.es[k - 1], env, ctx, fuel, TypeOf(e.es[k - 1], ctx).value);
    }
  }
}
