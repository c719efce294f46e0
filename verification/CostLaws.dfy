/** What programs cost, said without the cost function's helpers: the weights of the two arms of an `if`, the price of
    a call, and the cost of small programs in numbers. */
module CostLaws {
  import opened CostModels

  ghost predicate NonNegative(boundLams: map<string, real>) {
    forall f | f in boundLams :: boundLams[f] >= 0.0
  }

  /** No cost is negative. */
  lemma {:induction false} CostIsNonNegative(e: Expr, ctx: Context, boundLams: map<string, real>)
    requires NonNegative(boundLams)
    ensures ComputeCost(e, ctx, boundLams) >= 0.0
    decreases e, 1
  {
    hide ComputeCost, NonNegative;
    match e
    case Let(_, _, _) => LetIsNonNegative(e, ctx, boundLams);
    case LetLam(_, _, _, _, _) => LetIsNonNegative(e, ctx, boundLams);
    case If(_, _, _) => BranchIsNonNegative(e, ctx, boundLams);
    case Build(_, _, _) => BranchIsNonNegative(e, ctx, boundLams);
    case Sumbuild(_, _, _) => BranchIsNonNegative(e, ctx, boundLams);
    case _ => OtherIsNonNegative(e, ctx, boundLams);
  }

  lemma {:induction false} LetIsNonNegative(e: Expr, ctx: Context, boundLams: map<string, real>)
    requires NonNegative(boundLams) && (e.Let? || e.LetLam?)
    ensures ComputeCost(e, ctx, boundLams) >= 0.0
    decreases e, 0
  {
    hide TypeOf;
    if e.Let? {
      var t := TypeOf(e.rhs, ctx);
      CostIsNonNegative(e.rhs, ctx, boundLams);
      CostIsNonNegative(e.body, if t.Some? then Data(e.x, t.value, ctx) else ctx, boundLams - {e.x});
    } else {
      var inner := Data(e.param, e.arg, ctx);
      var t := TypeOf(e.lamBody, inner);
      CostIsNonNegative(e.lamBody, inner, boundLams - {e.param});
      CostIsNonNegative(e.body, if t.Some? then Lambda(e.f, e.param, e.arg, e.lamBody, t.value, ctx) else ctx,
        boundLams[e.f := ComputeCost(e.lamBody, inner, boundLams - {e.param})]);
    }
  }

  lemma {:induction false} BranchIsNonNegative(e: Expr, ctx: Context, boundLams: map<string, real>)
    requires NonNegative(boundLams) && (e.If? || e.Build? || e.Sumbuild?)
    ensures ComputeCost(e, ctx, boundLams) >= 0.0
    decreases e, 0
  {
    hide TypeOf, SizeOf;
    if e.If? {
      CostIsNonNegative(e.cond, ctx, boundLams);
      CostIsNonNegative(e.yes, ctx, boundLams);
      CostIsNonNegative(e.no, ctx, boundLams);
    } else {
      CostIsNonNegative(e.length, ctx, boundLams);
      CostIsNonNegative(e.body, Data(e.x, Integer, ctx), boundLams - {e.x});
    }
  }

  lemma {:induction false} OtherIsNonNegative(e: Expr, ctx: Context, boundLams: map<string, real>)
    requires NonNegative(boundLams) && !e.Let? && !e.LetLam? && !e.If? && !e.Build? && !e.Sumbuild?
    ensures ComputeCost(e, ctx, boundLams) >= 0.0
    decreases e, 0
  {
    hide TypeOf, SizeOf, BinaryCost;
    match e
    case Select(t, _) => CostIsNonNegative(t, ctx, boundLams);
    case MakeTuple(es) => CostsAreNonNegative(e, |es|, ctx, boundLams);
    case Index(i, v) =>
      CostIsNonNegative(i, ctx, boundLams);
      CostIsNonNegative(v, ctx, boundLams);
    case Size(v) => CostIsNonNegative(v, ctx, boundLams);
    case Assert(c, b) =>
      CostIsNonNegative(c, ctx, boundLams);
      CostIsNonNegative(b, ctx, boundLams);
    case Apply(f, a) => CostIsNonNegative(a, ctx, boundLams);
    case Unary(_, a) => CostIsNonNegative(a, ctx, boundLams);
    case Binary(op, a, b) =>
      CostIsNonNegative(a, ctx, boundLams);
      CostIsNonNegative(b, ctx, boundLams);
      OperationCost(op, SizeOf(TypeOf(a, ctx)), SizeOf(TypeOf(b, ctx)));
    case _ =>
  }

  lemma {:induction false} CostsAreNonNegative(e: Expr, k: nat, ctx: Context, boundLams: map<string, real>)
    requires NonNegative(boundLams) && e.MakeTuple? && k <= |e.es|
    ensures ComputeCosts(e, k, ctx, boundLams) >= 0.0
    decreases e, 0, k
  {
    if k > 0 {
      CostsAreNonNegative(e, k - 1, ctx, boundLams);
      CostIsNonNegative(e.es[k - 1], ctx, boundLams);
    }
  }

  // ---------------------------------------------------------------- conditionals

  /** The dearer arm counts in full, the cheaper one a ten-thousandth. */
  lemma {:induction false} IfCost(c: Expr, y: Expr, n: Expr, ctx: Context, boundLams: map<string, real>)
    requires ComputeCost(n, ctx, boundLams) <= ComputeCost(y, ctx, boundLams)
    ensures ComputeCost(If(c, y, n), ctx, boundLams)
      == 1.0 + ComputeCost(c, ctx, boundLams) + ComputeCost(y, ctx, boundLams)
        + ComputeCost(n, ctx, boundLams) / 10000.0
    ensures ComputeCost(If(c, n, y), ctx, boundLams) == ComputeCost(If(c, y, n), ctx, boundLams)
  {}

  /** An `if` costs more than its condition and either arm, so that testing `true` never pays; the other arm adds no
      more than a ten-thousandth of the dearer one; the order of the arms does not matter. */
  lemma {:induction false} IfBounds(c: Expr, y: Expr, n: Expr, ctx: Context, boundLams: map<string, real>, bound: real)
    requires NonNegative(boundLams)
    ensures var cost := ComputeCost(If(c, y, n), ctx, boundLams);
      && cost >= 1.0 + ComputeCost(c, ctx, boundLams) + ComputeCost(y, ctx, boundLams)
      && cost >= 1.0 + ComputeCost(c, ctx, boundLams) + ComputeCost(n, ctx, boundLams)
      && (ComputeCost(y, ctx, boundLams) <= bound && ComputeCost(n, ctx, boundLams) <= bound ==>
        cost <= 1.0 + ComputeCost(c, ctx, boundLams) + 1.0001 * bound)
      && cost == ComputeCost(If(c, n, y), ctx, boundLams)
  {
    CostIsNonNegative(y, ctx, boundLams);
    CostIsNonNegative(n, ctx, boundLams);
    if ComputeCost(n, ctx, boundLams) <= ComputeCost(y, ctx, boundLams) {
      IfCost(c, y, n, ctx, boundLams);
    } else {
      IfCost(c, n, y, ctx, boundLams);
    }
  }

  /** Making either arm cheaper makes the `if` cheaper, be it the dearer arm or not. */
  lemma {:induction false} IfIsStrict(c: Expr, y: Expr, n: Expr, better: Expr, ctx: Context,
      boundLams: map<string, real>)
    requires ComputeCost(better, ctx, boundLams) < ComputeCost(y, ctx, boundLams)
    ensures ComputeCost(If(c, better, n), ctx, boundLams) < ComputeCost(If(c, y, n), ctx, boundLams)
    ensures ComputeCost(If(c, n, better), ctx, boundLams) < ComputeCost(If(c, n, y), ctx, boundLams)
  {
    if ComputeCost(n, ctx, boundLams) <= ComputeCost(better, ctx, boundLams) {
      IfCost(c, better, n, ctx, boundLams);
      IfCost(c, y, n, ctx, boundLams);
    } else if ComputeCost(n, ctx, boundLams) <= ComputeCost(y, ctx, boundLams) {
      IfCost(c, n, better, ctx, boundLams);
      IfCost(c, y, n, ctx, boundLams);
    } else {
      IfCost(c, n, better, ctx, boundLams);
      IfCost(c, n, y, ctx, boundLams);
    }
  }

  // ---------------------------------------------------------------- functions and operations

  /** A call costs two more than its function's body with the parameter bound by a `let` in its place. */
  lemma {:induction false} CallCost(f: string, x: string, b: Expr, k: int, ctx: Context, boundLams: map<string, real>)
    ensures ComputeCost(LetLam(f, x, Integer, b, Apply(f, IntConst(k))), ctx, boundLams)
      == ComputeCost(Let(x, IntConst(k), b), ctx, boundLams) + 2.0
  {
    var inner := if TypeOf(b, Data(x, Integer, ctx)).Some?
      then Lambda(f, x, Integer, b, TypeOf(b, Data(x, Integer, ctx)).value, ctx) else ctx;
    var boundCost := ComputeCost(b, Data(x, Integer, ctx), boundLams - {x});
    assert ComputeCost(IntConst(k), inner, boundLams[f := boundCost]) == 0.0;
    assert ComputeCost(Apply(f, IntConst(k)), inner, boundLams[f := boundCost]) == 2.0 + boundCost;
    assert TypeOf(IntConst(k), ctx) == Some(Integer);
  }

  /** Additions and subtractions cost one for every element of the larger operand, multiplications and divisions two,
      and a result of several elements costs an allocation; comparisons cost one. */
  lemma {:induction false} OperationCost(op: Op, l: nat, r: nat)
    ensures BinaryCost(op, l, r) == BinaryCost(op, r, l) >= 0.0
    ensures l <= r && r > 1 && (op.Add? || op.Sub?) ==> BinaryCost(op, l, r) == 2.0 + (r as real)
    ensures l <= r && r > 1 && (op.Mul? || op.Div?) ==> BinaryCost(op, l, r) == 2.0 + 2.0 * (r as real)
    ensures op.Add? || op.Sub? ==> BinaryCost(op, 1, 1) == 1.0
    ensures op.Mul? || op.Div? ==> BinaryCost(op, 1, 1) == 2.0
    ensures op.Eq? || op.Gt? || op.Gte? ==> BinaryCost(op, l, r) == 1.0
  {}

  /** Which operations apply to which types, and what they give. */
  lemma {:induction false} OperationTypes(op: Op, t: Type, u: Type, r: Type)
    ensures op.Eq? || op.Gt? || op.Gte? ==>
      (BinaryType(op, t, u) == Some(r) <==> r == Bool && t == u && (t == Integer || t == Float))
    ensures op.Add? || op.Sub? || op.Mul? || op.Div? ==>
      (BinaryType(op, t, u) == Some(r) <==> ((t == u == r)
        || ((t == Integer || t == Float) && u == r && u.Tensor? && Base(u) == t)
        || ((u == Integer || u == Float) && t == r && t.Tensor? && Base(t) == u)))
    ensures UnaryType(Sum, t) == Some(r) <==> t == Tensor(r) && (r == Integer || r == Float)
    ensures op.ToFloat? || op.RanHashDoub? ==> (UnaryType(op, t) == Some(r) <==> t == Integer && r == Float)
    ensures op.Exp? || op.Log? ==> (UnaryType(op, t) == Some(r) <==> t == r)
  {}

  /** Scalars count one, tensors sixteen times their elements, tuples the sum of their components. */
  lemma {:induction false} ElementCounts(t: Type, u: Type)
    ensures t.Integer? || t.Float? || t.Bool? ==> NumElements(t) == 1
    ensures NumElements(Tensor(t)) == 16 * NumElements(t)
    ensures NumElements(Tuple([])) == 0
    ensures NumElements(Tuple([t, u])) == NumElements(t) + NumElements(u)
  {
    var tu := Tuple([t, u]);
    assert NumElementsOf(tu, 1) == NumElements(t);
    assert NumElementsOf(tu, 2) == NumElementsOf(tu, 1) + NumElements(u);
  }

  /** What is paid beside the costs of the parts. */
  lemma {:induction false} OwnCosts(e: Expr, ctx: Context, boundLams: map<string, real>)
    ensures e.IntConst? || e.FloatConst? || e.BoolConst? || e.Var? ==> ComputeCost(e, ctx, boundLams) == 0.0
    ensures e.Select? ==> ComputeCost(e, ctx, boundLams) == ComputeCost(e.tuple, ctx, boundLams)
    ensures e.Size? ==> ComputeCost(e, ctx, boundLams) == 1.0 + ComputeCost(e.vec, ctx, boundLams)
    ensures e.Index? ==>
      ComputeCost(e, ctx, boundLams) == 1.0 + ComputeCost(e.idx, ctx, boundLams) + ComputeCost(e.vec, ctx, boundLams)
    ensures e.Assert? ==>
      ComputeCost(e, ctx, boundLams) == 1.0 + ComputeCost(e.cond, ctx, boundLams) + ComputeCost(e.body, ctx, boundLams)
    ensures e.Apply? && e.f !in boundLams ==>
      ComputeCost(e, ctx, boundLams) == 9.0 + ComputeCost(e.actual, ctx, boundLams)
    ensures e.Unary? && (e.op.Exp? || e.op.Log?) ==>
      ComputeCost(e, ctx, boundLams) == 4.0 + ComputeCost(e.a, ctx, boundLams)
    ensures e.Unary? && (e.op.ToFloat? || e.op.RanHashDoub?) ==>
      ComputeCost(e, ctx, boundLams) == 1.0 + ComputeCost(e.a, ctx, boundLams)
    ensures e.Unary? && e.op.Sum? ==> ComputeCost(e, ctx, boundLams) == 15.0 + ComputeCost(e.a, ctx, boundLams)
  {
    hide TypeOf, NumElements, BinaryCost;
  }

  lemma {:induction false} PairCost(a: Expr, b: Expr, ctx: Context, boundLams: map<string, real>)
    ensures ComputeCost(MakeTuple([a, b]), ctx, boundLams)
      == 0.2 + ComputeCost(a, ctx, boundLams) + ComputeCost(b, ctx, boundLams)
  {
    var pair := MakeTuple([a, b]);
    assert ComputeCosts(pair, 0, ctx, boundLams) == 0.0;
    assert ComputeCosts(pair, 1, ctx, boundLams) == ComputeCost(a, ctx, boundLams);
    assert ComputeCosts(pair, 2, ctx, boundLams) == ComputeCost(a, ctx, boundLams) + ComputeCost(b, ctx, boundLams);
  }

  /** An element-wise operation costs as much as its larger operand has elements, and an allocation. */
  lemma {:induction false} BinaryOwnCost(op: Op, a: Expr, b: Expr, t: Type, u: Type, ctx: Context,
      boundLams: map<string, real>)
    requires TypeOf(a, ctx) == Some(t) && TypeOf(b, ctx) == Some(u)
    ensures ComputeCost(Binary(op, a, b), ctx, boundLams)
      == BinaryCost(op, NumElements(t), NumElements(u)) + ComputeCost(a, ctx, boundLams)
        + ComputeCost(b, ctx, boundLams)
  {
    hide TypeOf, NumElements, BinaryCost;
  }

  /** An operand of unknown type counts as one element. */
  lemma {:induction false} UntypedCost(a: Expr, b: Expr, ctx: Context, boundLams: map<string, real>)
    requires TypeOf(a, ctx).None? && TypeOf(b, ctx).None?
    ensures ComputeCost(Binary(Mul, a, b), ctx, boundLams)
      == 2.0 + ComputeCost(a, ctx, boundLams) + ComputeCost(b, ctx, boundLams)
  {
    hide TypeOf, NumElements;
  }

  /** A loop costs its length, sixteen times its body and an allocation or fifteen additions of the body's value. */
  lemma {:induction false} LoopOwnCost(n: Expr, x: string, b: Expr, t: Type, ctx: Context, boundLams: map<string, real>)
    requires TypeOf(b, Data(x, Integer, ctx)) == Some(t)
    ensures var all := ComputeCost(n, ctx, boundLams)
        + 16.0 * ComputeCost(b, Data(x, Integer, ctx), boundLams - {x});
      && ComputeCost(Build(n, x, b), ctx, boundLams) == 2.0 + all
      && ComputeCost(Sumbuild(n, x, b), ctx, boundLams) == 15.0 * (NumElements(t) as real) + all
  {
    hide TypeOf, NumElements;
  }

  lemma {:induction false} VariableType(x: string, t: Type, ctx: Context)
    ensures TypeOf(Var(x), Data(x, t, ctx)) == Some(t)
  {}

  lemma {:induction false} FloatType(r: real, ctx: Context)
    ensures TypeOf(FloatConst(r), ctx) == Some(Float)
  {}

  lemma {:induction false} LetOwnCost(x: string, rhs: Expr, body: Expr, t: Type, ctx: Context,
      boundLams: map<string, real>)
    requires TypeOf(rhs, ctx) == Some(t)
    ensures ComputeCost(Let(x, rhs, body), ctx, boundLams)
      == 0.1 + ComputeCost(rhs, ctx, boundLams) + ComputeCost(body, Data(x, t, ctx), boundLams - {x})
  {
    hide TypeOf;
  }

  // ---------------------------------------------------------------- programs

  /** Adding two vectors of sixteen elements, and multiplying a vector and a matrix by a number. */
  lemma {:induction false} TensorOperations()
    ensures var vec, mat := Data("v", Tensor(Float), Empty), Data("v", Tensor(Tensor(Float)), Empty);
      && ComputeCost(Binary(Add, Var("v"), Var("v")), vec, map[]) == 18.0
      && ComputeCost(Binary(Mul, FloatConst(3.0), Var("v")), vec, map[]) == 34.0
      && ComputeCost(Binary(Mul, Var("v"), FloatConst(3.0)), mat, map[]) == 514.0
  {
    hide *;
    var vec, mat := Data("v", Tensor(Float), Empty), Data("v", Tensor(Tensor(Float)), Empty);
    var v, x := Var("v"), FloatConst(3.0);
    ElementCounts(Float, Float);
    ElementCounts(Tensor(Float), Float);
    VariableType("v", Tensor(Float), Empty);
    VariableType("v", Tensor(Tensor(Float)), Empty);
    FloatType(3.0, vec);
    FloatType(3.0, mat);
    OwnCosts(v, vec, map[]);
    OwnCosts(x, vec, map[]);
    OwnCosts(v, mat, map[]);
    OwnCosts(x, mat, map[]);
    BinaryOwnCost(Add, v, v, Tensor(Float), Tensor(Float), vec, map[]);
    BinaryOwnCost(Mul, x, v, Float, Tensor(Float), vec, map[]);
    BinaryOwnCost(Mul, v, x, Tensor(Tensor(Float)), Float, mat, map[]);
    OperationCost(Add, 16, 16);
    OperationCost(Mul, 1, 16);
    OperationCost(Mul, 1, 256);
  }

  /** Sixteen squares, built and added up. */
  lemma {:induction false} LoopExamples()
    ensures var square := Binary(Mul, Var("i"), Var("i"));
      && ComputeCost(Build(IntConst(3), "i", square), Empty, map[]) == 34.0
      && ComputeCost(Sumbuild(IntConst(3), "i", square), Empty, map[]) == 47.0
  {
    hide *;
    var i, inner := Var("i"), Data("i", Integer, Empty);
    VariableType("i", Integer, Empty);
    SquareType(inner);
    ElementCounts(Integer, Integer);
    OwnCosts(i, inner, map[] - {"i"});
    OwnCosts(IntConst(3), Empty, map[]);
    BinaryOwnCost(Mul, i, i, Integer, Integer, inner, map[] - {"i"});
    OperationCost(Mul, 1, 1);
    LoopOwnCost(IntConst(3), "i", Binary(Mul, i, i), Integer, Empty, map[]);
  }

  lemma {:induction false} SquareType(ctx: Context)
    requires TypeOf(Var("i"), ctx) == Some(Integer)
    ensures TypeOf(Binary(Mul, Var("i"), Var("i")), ctx) == Some(Integer)
  {}

  lemma {:induction false} ScalarExamples()
    ensures ComputeCost(If(BoolConst(true), Unary(Exp, FloatConst(1.0)), FloatConst(0.0)), Empty, map[]) == 5.0
    ensures ComputeCost(Let("x", FloatConst(1.0), If(BoolConst(true), FloatConst(2.0), Var("x"))), Empty, map[]) == 1.1
  {
    hide *;
    var inner := Data("x", Float, Empty);
    FloatType(1.0, Empty);
    OwnCosts(FloatConst(1.0), Empty, map[]);
    OwnCosts(FloatConst(0.0), Empty, map[]);
    OwnCosts(BoolConst(true), Empty, map[]);
    OwnCosts(Unary(Exp, FloatConst(1.0)), Empty, map[]);
    IfCost(BoolConst(true), Unary(Exp, FloatConst(1.0)), FloatConst(0.0), Empty, map[]);
    OwnCosts(BoolConst(true), inner, map[] - {"x"});
    OwnCosts(FloatConst(2.0), inner, map[] - {"x"});
    OwnCosts(Var("x"), inner, map[] - {"x"});
    IfCost(BoolConst(true), FloatConst(2.0), Var("x"), inner, map[] - {"x"});
    LetOwnCost("x", FloatConst(1.0), If(BoolConst(true), FloatConst(2.0), Var("x")), Float, Empty, map[]);
  }
}
