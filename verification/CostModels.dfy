/** The two cost models of RLO, on first-order programs: a recursive cost function, and an abstract interpreter. */
module CostModels {
  datatype Option<T> = None | Some(value: T)

  datatype Type = Integer | Float | Bool | Tuple(elems: seq<Type>) | Tensor(elem: Type)

  datatype Op = Add | Sub | Mul | Div | Eq | Gt | Gte | Sum | ToFloat | Exp | Log | RanHashDoub

  /** First-order expressions: lambdas are bound by lets and called by name. */
  datatype Expr =
    | IntConst(i: int) | FloatConst(r: real) | BoolConst(flag: bool)
    | Var(name: string)
    | Let(x: string, rhs: Expr, body: Expr)
    | LetLam(f: string, param: string, arg: Type, lamBody: Expr, body: Expr)
    | If(cond: Expr, yes: Expr, no: Expr)
    | Select(tuple: Expr, index: nat)
    | MakeTuple(es: seq<Expr>)
    | Index(idx: Expr, vec: Expr)
    | Size(vec: Expr)
    | Build(length: Expr, x: string, body: Expr)
    | Sumbuild(length: Expr, x: string, body: Expr)
    | Assert(cond: Expr, body: Expr)
    | Apply(f: string, actual: Expr)
    | Unary(op: Op, a: Expr)
    | Binary(op: Op, a: Expr, b: Expr)

  const ASSUMED_VECTOR_SIZE := 16
  const BUILD_MALLOC_COST := 2.0
  const IF_SELECTION_COST := 1.0
  const IF_EPSILON := 0.0001
  const APPLY_COST := 2.0
  const DEFAULT_EDEF_COST := 7.0
  const LET_COST := 0.1
  const ASSERT_COST := 1.0
  const INDEX_COST := 1.0
  const SIZE_COST := 1.0

  // ---------------------------------------------------------------- types

  predicate IsScalar(t: Type) {
    t.Integer? || t.Float? || t.Bool?
  }

  /** The type of the elements of a nested tensor. */
  function Base(t: Type): Type {
    if t.Tensor? then Base(t.elem) else t
  }

  function NumElements(t: Type): nat {
    match t
    case Tuple(ts) => NumElementsOf(t, |ts|)
    case Tensor(e) => ASSUMED_VECTOR_SIZE * NumElements(e)
    case _ => 1
  }

  function NumElementsOf(t: Type, k: nat): nat
    requires t.Tuple? && k <= |t.elems|
  {
    if k == 0 then 0 else NumElementsOf(t, k - 1) + NumElements(t.elems[k - 1])
  }

  /** What is known of the variables in scope, innermost first: the type of a value, or a lambda. */
  datatype Context =
    | Empty
    | Data(name: string, typ: Type, outer: Context)
    | Lambda(name: string, param: string, arg: Type, body: Expr, result: Type, outer: Context)

  function Entry(ctx: Context, x: string): Context {
    if ctx.Empty? || ctx.name == x then ctx else Entry(ctx.outer, x)
  }

  function TypeOf(e: Expr, ctx: Context): Option<Type>
    decreases e, 0
  {
    match e
    case IntConst(_) => Some(Integer)
    case FloatConst(_) => Some(Float)
    case BoolConst(_) => Some(Bool)
    case Var(x) => if Entry(ctx, x).Data? then Some(Entry(ctx, x).typ) else None
    case Let(x, rhs, body) =>
      var t := TypeOf(rhs, ctx);
      if t.None? then None else TypeOf(body, Data(x, t.value, ctx))
    case LetLam(f, x, arg, b, body) =>
      var t := TypeOf(b, Data(x, arg, ctx));
      if t.None? then None else TypeOf(body, Lambda(f, x, arg, b, t.value, ctx))
    case If(c, y, n) => if TypeOf(c, ctx) == Some(Bool) && TypeOf(y, ctx) == TypeOf(n, ctx) then TypeOf(y, ctx)
      else None
    case Select(t, i) =>
      var tt := TypeOf(t, ctx);
      if tt.Some? && tt.value.Tuple? && i < |tt.value.elems| then Some(tt.value.elems[i]) else None
    case MakeTuple(es) =>
      var ts := TypesOf(e, |es|, ctx);
      if ts.None? then None else Some(Tuple(ts.value))
    case Index(i, v) =>
      var t := TypeOf(v, ctx);
      if TypeOf(i, ctx) == Some(Integer) && t.Some? && t.value.Tensor? then Some(t.value.elem) else None
    case Size(v) =>
      var t := TypeOf(v, ctx);
      if t.Some? && t.value.Tensor? then Some(Integer) else None
    case Build(n, x, b) =>
      var t := TypeOf(b, Data(x, Integer, ctx));
      if TypeOf(n, ctx) == Some(Integer) && t.Some? && IsScalar(Base(t.value)) then Some(Tensor(t.value)) else None
    case Sumbuild(n, x, b) =>
      var t := TypeOf(b, Data(x, Integer, ctx));
      if TypeOf(n, ctx) == Some(Integer) && t.Some? && !t.value.Tuple? then t else None
    case Assert(c, b) => if TypeOf(c, ctx) == Some(Bool) then TypeOf(b, ctx) else None
    case Apply(f, a) =>
      var l := Entry(ctx, f);
      if l.Lambda? && TypeOf(a, ctx) == Some(l.arg) then Some(l.result) else None
    case Unary(op, a) =>
      var t := TypeOf(a, ctx);
      if t.None? then None else UnaryType(op, t.value)
    case Binary(op, a, b) =>
      var t, u := TypeOf(a, ctx), TypeOf(b, ctx);
      if t.None? || u.None? then None else BinaryType(op, t.value, u.value)
  }

  function TypesOf(e: Expr, k: nat, ctx: Context): (ts: Option<seq<Type>>)
    requires e.MakeTuple? && k <= |e.es|
    ensures ts.Some? ==> |ts.value| == k
    decreases e, 0, k
  {
    if k == 0 then Some([]) else
      var init, last := TypesOf(e, k - 1, ctx), TypeOf(e.es[k - 1], ctx);
      if init.None? || last.None? then None else Some(init.value + [last.value])
  }

  /** Sums are over vectors of numbers. */
  function UnaryType(op: Op, t: Type): Option<Type> {
    match op
    case Sum => if t == Tensor(Integer) || t == Tensor(Float) then Some(t.elem) else None
    case ToFloat | RanHashDoub => if t.Integer? then Some(Float) else None
    case Exp | Log => Some(t)
    case _ => None
  }

  /** A number may be combined with every element of a tensor. */
  function BinaryType(op: Op, t: Type, u: Type): Option<Type> {
    match op
    case Eq | Gt | Gte => if t == u && (t.Integer? || t.Float?) then Some(Bool) else None
    case Add | Sub | Mul | Div =>
      if t == u then Some(t)
      else if (t.Integer? || t.Float?) && u.Tensor? && Base(u) == t then Some(u)
      else if (u.Integer? || u.Float?) && t.Tensor? && Base(t) == u then Some(t)
      else None
    case _ => None
  }

  // ---------------------------------------------------------------- the cost function

  /** `_node_costs` */
  function NodeCost(op: Op): real {
    match op
    case Add | Sub => 1.0
    case Mul | Div => 2.0
    case Eq | Gt | Gte | ToFloat | RanHashDoub => 1.0
    case Exp | Log => 4.0
    case Sum => (ASSUMED_VECTOR_SIZE - 1) as real
  }

  predicate Arithmetic(op: Op) {
    op.Add? || op.Sub? || op.Mul? || op.Div?
  }

  function Larger(x: real, y: real): real {
    if x < y then y else x
  }

  function Smaller(x: real, y: real): real {
    if x < y then x else y
  }

  function SizeOf(t: Option<Type>): nat {
    if t.None? then 1 else NumElements(t.value)
  }

  /** `_compute_cost`, without definitions of edefs. */
  function ComputeCost(e: Expr, ctx: Context, boundLams: map<string, real>): real
    decreases e, 0
  {
    match e
    case IntConst(_) => 0.0
    case FloatConst(_) => 0.0
    case BoolConst(_) => 0.0
    case Var(_) => 0.0
    case Let(x, rhs, body) =>
      var t := TypeOf(rhs, ctx);
      ComputeCost(rhs, ctx, boundLams)
      + ComputeCost(body, if t.Some? then Data(x, t.value, ctx) else ctx, boundLams - {x}) + LET_COST
    case LetLam(f, x, arg, b, body) =>
      var t := TypeOf(b, Data(x, arg, ctx));
      var boundCost := ComputeCost(b, Data(x, arg, ctx), boundLams - {x});
      ComputeCost(body, if t.Some? then Lambda(f, x, arg, b, t.value, ctx) else ctx, boundLams[f := boundCost])
        + LET_COST
    case If(c, y, n) =>
      var yes, no := ComputeCost(y, ctx, boundLams), ComputeCost(n, ctx, boundLams);
      IF_SELECTION_COST + ComputeCost(c, ctx, boundLams) + (Smaller(yes, no) * IF_EPSILON + Larger(yes, no))
    case Select(t, _) => ComputeCost(t, ctx, boundLams)
    case MakeTuple(es) => LET_COST * (|es| as real) + ComputeCosts(e, |es|, ctx, boundLams)
    case Index(i, v) => INDEX_COST + ComputeCost(i, ctx, boundLams) + ComputeCost(v, ctx, boundLams)
    case Size(v) => SIZE_COST + ComputeCost(v, ctx, boundLams)
    case Build(n, x, b) =>
      BUILD_MALLOC_COST + ComputeCost(n, ctx, boundLams)
      + ComputeCost(b, Data(x, Integer, ctx), boundLams - {x}) * (ASSUMED_VECTOR_SIZE as real)
    case Sumbuild(n, x, b) =>
      ((ASSUMED_VECTOR_SIZE - 1) * SizeOf(TypeOf(b, Data(x, Integer, ctx)))) as real + ComputeCost(n, ctx, boundLams)
      + ComputeCost(b, Data(x, Integer, ctx), boundLams - {x}) * (ASSUMED_VECTOR_SIZE as real)
    case Assert(c, b) => ASSERT_COST + ComputeCost(c, ctx, boundLams) + ComputeCost(b, ctx, boundLams)
    case Apply(f, a) => APPLY_COST + (if f in boundLams then boundLams[f] else DEFAULT_EDEF_COST)
      + ComputeCost(a, ctx, boundLams)
    case Unary(op, a) => NodeCost(op) + ComputeCost(a, ctx, boundLams)
    case Binary(op, a, b) =>
      BinaryCost(op, SizeOf(TypeOf(a, ctx)), SizeOf(TypeOf(b, ctx))) + ComputeCost(a, ctx, boundLams)
        + ComputeCost(b, ctx, boundLams)
  }

  /** An operation on elements costs so much for every element, and an allocation if there are several. */
  function BinaryCost(op: Op, l: nat, r: nat): real {
    if !Arithmetic(op) then NodeCost(op)
    else NodeCost(op) * ((if l < r then r else l) as real) + if l > 1 || r > 1 then BUILD_MALLOC_COST else 0.0
  }

  function ComputeCosts(e: Expr, k: nat, ctx: Context, boundLams: map<string, real>): real
    requires e.MakeTuple? && k <= |e.es|
    decreases e, 0, k
  {
    if k == 0 then 0.0 else ComputeCosts(e, k - 1, ctx, boundLams) + ComputeCost(e.es[k - 1], ctx, boundLams)
  }
}
