/** The abstract interpreter, which computes a value and a cost; its cost is that of the cost function. */
module AbstractInterpreter {
  import opened CostModels

  /** Values: known or only of a known type; tensors of a known shape; closures. */
  datatype Value =
    | IntV(i: int) | FloatV(r: real) | BoolV(b: bool)
    | AbstractInt | AbstractFloat | AbstractBool
    | AbstractTensor(shape: seq<nat>, typ: Type)
    | TupleV(elems: seq<Value>)
    | Closure(param: string, body: Expr, env: Env)
    | Nothing

  datatype Env = NoVars | Bind(name: string, value: Value, outer: Env)

  datatype Outcome = Outcome(value: Value, cost: real)

  /** Functions on numbers that the source takes from elsewhere; none is an exception. */
  datatype Library = Library(exp: real -> real, log: real -> Option<real>)

  function Find(env: Env, x: string): Option<Value> {
    if env.NoVars? then None else if env.name == x then Some(env.value) else Find(env.outer, x)
  }

  function Product(shape: seq<nat>): nat {
    if shape == [] then 1 else shape[0] * Product(shape[1..])
  }

  /** `Value.of_type`; the element type of a tensor is a scalar. */
  function OfType(t: Type): Option<Value> {
    match t
    case Integer => Some(AbstractInt)
    case Float => Some(AbstractFloat)
    case Bool => Some(AbstractBool)
    case _ => None
  }

  /** `Value.abstract_like`; none is its ValueError. */
  function AbstractLike(v: Value): Option<Value>
    decreases v, 0
  {
    match v
    case IntV(_) => Some(AbstractInt)
    case FloatV(_) => Some(AbstractFloat)
    case BoolV(_) => Some(AbstractBool)
    case AbstractInt => Some(v)
    case AbstractFloat => Some(v)
    case AbstractBool => Some(v)
    case AbstractTensor(_, _) => Some(v)
    case TupleV(vs) =>
      var us := AbstractAll(v, |vs|);
      if us.None? then None else Some(TupleV(us.value))
    case _ => None
  }

  function AbstractAll(v: Value, k: nat): (us: Option<seq<Value>>)
    requires v.TupleV? && k <= |v.elems|
    ensures us.Some? ==> |us.value| == k
    decreases v, 0, k
  {
    if k == 0 then Some([]) else
      var init, last := AbstractAll(v, k - 1), AbstractLike(v.elems[k - 1]);
      if init.None? || last.None? then None else Some(init.value + [last.value])
  }

  /** `Value.typeof`, for an abstract scalar or a tuple: none where it is not a type of elements in this model. */
  function ScalarType(v: Value): Option<Type> {
    match v
    case AbstractInt => Some(Integer)
    case AbstractFloat => Some(Float)
    case AbstractBool => Some(Bool)
    case _ => None
  }

  // ---------------------------------------------------------------- built-in functions; none is an exception

  function FloorDiv(x: int, y: int): int
    requires y != 0
  {
    if y > 0 then x / y else (-x) / (-y)
  }

  /** `_elementwise_op` */
  function Elementwise(a: Value, b: Value, perElement: real): Option<Outcome>
    requires a.AbstractTensor? && b.AbstractTensor?
  {
    if a.typ == b.typ && a.shape == b.shape
      then Some(Outcome(a, (Product(a.shape) as real) * perElement + BUILD_MALLOC_COST)) else None
  }

  function BuiltinUnary(l: Library, op: Op, a: Value): Option<Outcome> {
    match (op, a)
    case (Sum, AbstractTensor(shape, typ)) =>
      Some(Outcome(if typ.Float? then AbstractFloat else if typ.Integer? then AbstractInt else Nothing,
        (Product(shape) - 1) as real))
    case (ToFloat, IntV(i)) => Some(Outcome(FloatV(i as real), 1.0))
    case (ToFloat, AbstractInt) => Some(Outcome(AbstractFloat, 1.0))
    case (Exp, FloatV(x)) => Some(Outcome(FloatV(l.exp(x)), 4.0))
    case (Exp, AbstractFloat) => Some(Outcome(AbstractFloat, 4.0))
    case (Log, FloatV(x)) => if l.log(x).Some? then Some(Outcome(FloatV(l.log(x).value), 4.0)) else None
    case (Log, AbstractFloat) => Some(Outcome(AbstractFloat, 4.0))
    case (RanHashDoub, IntV(_)) => Some(Outcome(AbstractFloat, 1.0))
    case (RanHashDoub, AbstractInt) => Some(Outcome(AbstractFloat, 1.0))
    case _ => None
  }

  function BuiltinAdd(a: Value, b: Value): Option<Outcome> {
    match (a, b)
    case (IntV(x), IntV(y)) => Some(Outcome(IntV(x + y), 1.0))
    case (FloatV(x), FloatV(y)) => Some(Outcome(FloatV(x + y), 1.0))
    case (AbstractInt, AbstractInt) => Some(Outcome(AbstractInt, 1.0))
    case (AbstractFloat, AbstractFloat) => Some(Outcome(AbstractFloat, 1.0))
    case (AbstractTensor(_, _), AbstractTensor(_, _)) => Elementwise(a, b, 1.0)
    case _ => None
  }

  function BuiltinSub(a: Value, b: Value): Option<Outcome> {
    match (a, b)
    case (IntV(x), IntV(y)) => Some(Outcome(IntV(x - y), 1.0))
    case (FloatV(x), FloatV(y)) => Some(Outcome(FloatV(x - y), 1.0))
    case (IntV(_), AbstractInt) => Some(Outcome(AbstractInt, 1.0))
    case (AbstractInt, IntV(_)) => Some(Outcome(AbstractInt, 1.0))
    case (AbstractInt, AbstractInt) => Some(Outcome(AbstractInt, 1.0))
    case (IntV(_), AbstractFloat) => Some(Outcome(AbstractFloat, 1.0))
    case (AbstractFloat, IntV(_)) => Some(Outcome(AbstractFloat, 1.0))
    case (FloatV(_), AbstractFloat) => Some(Outcome(AbstractFloat, 1.0))
    case (AbstractFloat, FloatV(_)) => Some(Outcome(AbstractFloat, 1.0))
    case (AbstractInt, AbstractFloat) => Some(Outcome(AbstractFloat, 1.0))
    case (AbstractFloat, AbstractInt) => Some(Outcome(AbstractFloat, 1.0))
    case (AbstractFloat, AbstractFloat) => Some(Outcome(AbstractFloat, 1.0))
    case (AbstractTensor(_, _), AbstractTensor(_, _)) => Elementwise(a, b, 1.0)
    case _ => None
  }

  function BuiltinMul(a: Value, b: Value): Option<Outcome> {
    match (a, b)
    case (IntV(x), IntV(y)) => Some(Outcome(IntV(x * y), 2.0))
    case (FloatV(x), FloatV(y)) => Some(Outcome(FloatV(x * y), 2.0))
    case (AbstractInt, AbstractInt) => Some(Outcome(AbstractInt, 2.0))
    case (AbstractFloat, AbstractFloat) => Some(Outcome(AbstractFloat, 2.0))
    case (AbstractTensor(_, _), AbstractTensor(_, _)) => Elementwise(a, b, 2.0)
    case _ => None
  }

  function BuiltinDiv(a: Value, b: Value): Option<Outcome> {
    match (a, b)
    case (IntV(x), IntV(y)) => if y == 0 then None else Some(Outcome(IntV(FloorDiv(x, y)), 2.0))
    case (FloatV(x), FloatV(y)) => if y == 0.0 then None else Some(Outcome(FloatV(x / y), 2.0))
    case (AbstractInt, AbstractInt) => Some(Outcome(AbstractInt, 2.0))
    case (AbstractFloat, AbstractFloat) => Some(Outcome(AbstractFloat, 2.0))
    case (AbstractInt, AbstractFloat) => Some(Outcome(AbstractFloat, 2.0))
    case (AbstractFloat, AbstractInt) => Some(Outcome(AbstractFloat, 2.0))
    case (AbstractTensor(_, _), AbstractTensor(_, _)) => Elementwise(a, b, 2.0)
    case _ => None
  }

  /** Equality, and the comparisons by `holds`, which do not apply to truth values and tensors. */
  function BuiltinEq(a: Value, b: Value): Option<Outcome> {
    match (a, b)
    case (BoolV(x), BoolV(y)) => Some(Outcome(BoolV(x == y), 1.0))
    case (AbstractBool, AbstractBool) => Some(Outcome(AbstractBool, 1.0))
    case (AbstractTensor(_, _), AbstractTensor(_, _)) => Some(Outcome(AbstractBool, 1.0))
    case (IntV(x), IntV(y)) => Some(Outcome(BoolV(x == y), 1.0))
    case (FloatV(x), FloatV(y)) => Some(Outcome(BoolV(x == y), 1.0))
    case (AbstractInt, AbstractInt) => Some(Outcome(AbstractBool, 1.0))
    case (AbstractFloat, AbstractFloat) => Some(Outcome(AbstractBool, 1.0))
    case _ => None
  }

  function BuiltinCompare(a: Value, b: Value, strict: bool): Option<Outcome> {
    match (a, b)
    case (IntV(x), IntV(y)) => Some(Outcome(BoolV(if strict then x > y else x >= y), 1.0))
    case (FloatV(x), FloatV(y)) => Some(Outcome(BoolV(if strict then x > y else x >= y), 1.0))
    case (AbstractInt, AbstractInt) => Some(Outcome(AbstractBool, 1.0))
    case (AbstractFloat, AbstractFloat) => Some(Outcome(AbstractBool, 1.0))
    case _ => None
  }

  function BuiltinBinary(op: Op, a: Value, b: Value): Option<Outcome> {
    match op
    case Add => BuiltinAdd(a, b)
    case Sub => BuiltinSub(a, b)
    case Mul => BuiltinMul(a, b)
    case Div => BuiltinDiv(a, b)
    case Eq => BuiltinEq(a, b)
    case Gt => BuiltinCompare(a, b, true)
    case Gte => BuiltinCompare(a, b, false)
    case _ => None
  }

  // ---------------------------------------------------------------- the interpreter

  function MapCost(o: Option<Outcome>, more: real): Option<Outcome> {
    if o.None? then None else Some(Outcome(o.value.value, more + o.value.cost))
  }

  /** The value of an `if`: that of both branches, abstracted if they differ. */
  function Joined(y: Value, n: Value): Option<Value> {
    if y == n then Some(y)
    else if AbstractLike(y).Some? && AbstractLike(y) == AbstractLike(n) then AbstractLike(y) else None
  }

  /** The value of a `build` of elements like `v`. */
  function Stacked(v: Value): Option<Value> {
    if v.AbstractTensor? then Some(AbstractTensor([ASSUMED_VECTOR_SIZE as nat] + v.shape, v.typ))
    else
      var a := AbstractLike(v);
      if a.None? || ScalarType(a.value).None? then None
      else Some(AbstractTensor([ASSUMED_VECTOR_SIZE as nat], ScalarType(a.value).value))
  }

  /** `length == AbstractInt() or (type(length) == int and length >= 0)` */
  predicate IsLength(v: Value) {
    v.AbstractInt? || (v.IntV? && v.i >= 0)
  }

  function Element(v: Value): Option<Value> {
    if !v.AbstractTensor? || |v.shape| == 0 then None
    else if |v.shape| > 1 then Some(AbstractTensor(v.shape[1..], v.typ)) else OfType(v.typ)
  }

  function ElementCount(v: Value): nat {
    if v.AbstractTensor? then Product(v.shape) else 1
  }

  /** `evaluate` in the approximate mode: the value and the cost, or none where the source raises an exception.
      `fuel` bounds the depth of the recursion. */
  function Evaluate(l: Library, e: Expr, env: Env, fuel: nat): Option<Outcome>
    decreases fuel, 0
  {
    if fuel == 0 then None else
    match e
    case IntConst(i) => Some(Outcome(IntV(i), 0.0))
    case FloatConst(r) => Some(Outcome(FloatV(r), 0.0))
    case BoolConst(b) => Some(Outcome(BoolV(b), 0.0))
    case Var(x) => if Find(env, x).None? then None else Some(Outcome(Find(env, x).value, 0.0))
    case Let(x, rhs, body) =>
      var v := Evaluate(l, rhs, env, fuel - 1);
      if v.None? then None else MapCost(Evaluate(l, body, Bind(x, v.value.value, env), fuel - 1),
        LET_COST + v.value.cost)
    case LetLam(f, x, _, b, body) => MapCost(Evaluate(l, body, Bind(f, Closure(x, b, env), env), fuel - 1), LET_COST)
    case If(c, y, n) =>
      var cond := Evaluate(l, c, env, fuel - 1);
      var yes, no := Evaluate(l, y, env, fuel - 1), Evaluate(l, n, env, fuel - 1);
      if cond.None? || yes.None? || no.None? then None else
      var v := Joined(yes.value.value, no.value.value);
      if v.None? then None else
        Some(Outcome(v.value, IF_SELECTION_COST + cond.value.cost
          + (Smaller(yes.value.cost, no.value.cost) * IF_EPSILON + Larger(yes.value.cost, no.value.cost))))
    case Select(t, i) =>
      var v := Evaluate(l, t, env, fuel - 1);
      if v.None? || !v.value.value.TupleV? || i >= |v.value.value.elems| then None
      else Some(Outcome(v.value.value.elems[i], v.value.cost))
    case MakeTuple(es) =>
      var vs := EvaluateAll(l, e, |es|, env, fuel - 1);
      if vs.None? then None else Some(Outcome(TupleV(vs.value.0), LET_COST * (|es| as real) + vs.value.1))
    case Index(i, v) =>
      var idx, vec := Evaluate(l, i, env, fuel - 1), Evaluate(l, v, env, fuel - 1);
      if idx.None? || vec.None? || !(idx.value.value.IntV? || idx.value.value.AbstractInt?) then None else
      var r := Element(vec.value.value);
      if r.None? then None else Some(Outcome(r.value, INDEX_COST + idx.value.cost + vec.value.cost))
    case Size(v) =>
      var vec := Evaluate(l, v, env, fuel - 1);
      if vec.None? || !vec.value.value.AbstractTensor? || |vec.value.value.shape| == 0 then None
      else Some(Outcome(IntV(vec.value.value.shape[0]), SIZE_COST + vec.value.cost))
    case Build(n, x, b) =>
      var length := Evaluate(l, n, env, fuel - 1);
      if length.None? || !IsLength(length.value.value) then None else
      var body := Evaluate(l, b, Bind(x, AbstractInt, env), fuel - 1);
      if body.None? then None else
      var v := Stacked(body.value.value);
      if v.None? then None
      else Some(Outcome(v.value,
        length.value.cost + body.value.cost * (ASSUMED_VECTOR_SIZE as real) + BUILD_MALLOC_COST))
    case Sumbuild(n, x, b) =>
      var length := Evaluate(l, n, env, fuel - 1);
      if length.None? || !IsLength(length.value.value) then None else
      var body := Evaluate(l, b, Bind(x, AbstractInt, env), fuel - 1);
      if body.None? || AbstractLike(body.value.value).None? then None
      else Some(Outcome(AbstractLike(body.value.value).value,
        length.value.cost + body.value.cost * (ASSUMED_VECTOR_SIZE as real)
        + ((ASSUMED_VECTOR_SIZE - 1) * ElementCount(body.value.value)) as real))
    case Assert(c, b) =>
      var cond, body := Evaluate(l, c, env, fuel - 1), Evaluate(l, b, env, fuel - 1);
      if cond.None? then None else MapCost(body, ASSERT_COST + cond.value.cost)
    case Apply(f, a) =>
      var fn, arg := Find(env, f), Evaluate(l, a, env, fuel - 1);
      if fn.None? || arg.None? || !fn.value.Closure? then None
      else MapCost(Evaluate(l, fn.value.body, Bind(fn.value.param, arg.value.value, fn.value.env), fuel - 1),
        APPLY_COST + arg.value.cost)
    case Unary(op, a) =>
      var v := Evaluate(l, a, env, fuel - 1);
      if v.None? then None else MapCost(BuiltinUnary(l, op, v.value.value), v.value.cost)
    case Binary(op, a, b) =>
      var v, w := Evaluate(l, a, env, fuel - 1), Evaluate(l, b, env, fuel - 1);
      if v.None? || w.None? then None
      else MapCost(BuiltinBinary(op, v.value.value, w.value.value), v.value.cost + w.value.cost)
  }

  /** The values of the first `k` components of a tuple, and the sum of their costs. */
  function EvaluateAll(l: Library, e: Expr, k: nat, env: Env, fuel: nat): (vs: Option<(seq<Value>, real)>)
    requires e.MakeTuple? && k <= |e.es|
    ensures vs.Some? ==> |vs.value.0| == k
    decreases fuel, 1, k
  {
    if k == 0 then Some(([], 0.0)) else
      var init, last := EvaluateAll(l, e, k - 1, env, fuel), Evaluate(l, e.es[k - 1], env, fuel);
      if init.None? || last.None? then None
      else Some((init.value.0 + [last.value.value], init.value.1 + last.value.cost))
  }
}
