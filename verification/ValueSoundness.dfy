/** What the value of the abstract interpreter says of a scalar program: it describes the value that the program has. */
module ValueSoundness {
  import opened CostModels
  import opened AbstractInterpreter

  /** The operations on numbers and truth values. A quotient of integers is rounded down. */
  function Operation(op: Op, a: Value, b: Value): Option<Value> {
    match (op, a, b)
    case (Add, IntV(x), IntV(y)) => Some(IntV(x + y))
    case (Sub, IntV(x), IntV(y)) => Some(IntV(x - y))
    case (Mul, IntV(x), IntV(y)) => Some(IntV(x * y))
    case (Div, IntV(x), IntV(y)) => if y == 0 then None else Some(IntV((x as real / y as real).Floor))
    case (Add, FloatV(x), FloatV(y)) => Some(FloatV(x + y))
    case (Sub, FloatV(x), FloatV(y)) => Some(FloatV(x - y))
    case (Mul, FloatV(x), FloatV(y)) => Some(FloatV(x * y))
    case (Div, FloatV(x), FloatV(y)) => if y == 0.0 then None else Some(FloatV(x / y))
    case (Eq, IntV(x), IntV(y)) => Some(BoolV(x == y))
    case (Eq, FloatV(x), FloatV(y)) => Some(BoolV(x == y))
    case (Eq, BoolV(x), BoolV(y)) => Some(BoolV(x == y))
    case (Gt, IntV(x), IntV(y)) => Some(BoolV(x > y))
    case (Gt, FloatV(x), FloatV(y)) => Some(BoolV(x > y))
    case (Gte, IntV(x), IntV(y)) => Some(BoolV(x >= y))
    case (Gte, FloatV(x), FloatV(y)) => Some(BoolV(x >= y))
    case _ => None
  }

  function Conversion(l: Library, op: Op, a: Value): Option<Value> {
    match (op, a)
    case (ToFloat, IntV(i)) => Some(FloatV(i as real))
    case (Exp, FloatV(x)) => Some(FloatV(l.exp(x)))
    case (Log, FloatV(x)) => if l.log(x).Some? then Some(FloatV(l.log(x).value)) else None
    case _ => None
  }

  /** The value of a scalar program, if it has one: only the chosen branch of an `if` is run, and an assertion must
      hold. */
  function Run(l: Library, e: Expr, env: Env, fuel: nat): Option<Value>
    decreases fuel, 0
  {
    if fuel == 0 then None else
    match e
    case IntConst(i) => Some(IntV(i))
    case FloatConst(r) => Some(FloatV(r))
    case BoolConst(b) => Some(BoolV(b))
    case Var(x) => Find(env, x)
    case Let(x, rhs, body) =>
      var v := Run(l, rhs, env, fuel - 1);
      if v.None? then None else Run(l, body, Bind(x, v.value, env), fuel - 1)
    case LetLam(f, x, _, b, body) => Run(l, body, Bind(f, Closure(x, b, env), env), fuel - 1)
    case If(c, y, n) =>
      var v := Run(l, c, env, fuel - 1);
      if v == Some(BoolV(true)) then Run(l, y, env, fuel - 1)
      else if v == Some(BoolV(false)) then Run(l, n, env, fuel - 1)
      else None
    case Select(t, i) =>
      var v := Run(l, t, env, fuel - 1);
      if v.Some? && v.value.TupleV? && i < |v.value.elems| then Some(v.value.elems[i]) else None
    case MakeTuple(es) =>
      var vs := RunAll(l, e, |es|, env, fuel - 1);
      if vs.None? then None else Some(TupleV(vs.value))
    case Assert(c, b) => if Run(l, c, env, fuel - 1) == Some(BoolV(true)) then Run(l, b, env, fuel - 1) else None
    case Apply(f, a) =>
      var fn, arg := Find(env, f), Run(l, a, env, fuel - 1);
      if fn.None? || arg.None? || !fn.value.Closure? then None
      else Run(l, fn.value.body, Bind(fn.value.param, arg.value, fn.value.env), fuel - 1)
    case Unary(op, a) =>
      var v := Run(l, a, env, fuel - 1);
      if v.None? then None else Conversion(l, op, v.value)
    case Binary(op, a, b) =>
      var v, w := Run(l, a, env, fuel - 1), Run(l, b, env, fuel - 1);
      if v.None? || w.None? then None else Operation(op, v.value, w.value)
    case _ => None
  }

  function RunAll(l: Library, e: Expr, k: nat, env: Env, fuel: nat): (vs: Option<seq<Value>>)
    requires e.MakeTuple? && k <= |e.es|
    ensures vs.Some? ==> |vs.value| == k
    decreases fuel, 1, k
  {
    if k == 0 then Some([]) else
      var init, last := RunAll(l, e, k - 1, env, fuel), Run(l, e.es[k - 1], env, fuel);
      if init.None? || last.None? then None else Some(init.value + [last.value])
  }

  /** `a`, known or abstract, describes the value `c`. */
  ghost predicate Describes(a: Value, c: Value)
    decreases a
  {
    match a
    case AbstractInt => c.IntV?
    case AbstractFloat => c.FloatV?
    case AbstractBool => c.BoolV?
    case TupleV(vs) => c.TupleV? && |c.elems| == |vs| && forall i | 0 <= i < |vs| :: Describes(vs[i], c.elems[i])
    case Closure(x, b, env) => c.Closure? && c.param == x && c.body == b && DescribesAll(env, c.env)
    case AbstractTensor(_, _) => false
    case Nothing => false
    case _ => c == a
  }

  ghost predicate DescribesAll(env: Env, concrete: Env)
    decreases env
  {
    match env
    case NoVars => concrete.NoVars?
    case Bind(x, v, outer) =>
      concrete.Bind? && concrete.name == x && Describes(v, concrete.value) && DescribesAll(outer, concrete.outer)
  }

  lemma {:induction false} FindDescribes(env: Env, concrete: Env, x: string)
    requires DescribesAll(env, concrete)
    ensures Find(env, x).Some? <==> Find(concrete, x).Some?
    ensures Find(env, x).Some? ==> Describes(Find(env, x).value, Find(concrete, x).value)
  {
    hide Describes;
    if env.Bind? && env.name != x {
      FindDescribes(env.outer, concrete.outer, x);
    }
  }

  lemma {:induction false} AbstractDescribes(a: Value, c: Value)
    requires Describes(a, c) && AbstractLike(a).Some?
    ensures Describes(AbstractLike(a).value, c)
    decreases a, 0
  {
    if a.TupleV? {
      AbstractAllDescribe(a, c, |a.elems|);
    }
  }

  lemma {:induction false} AbstractAllDescribe(a: Value, c: Value, k: nat)
    requires a.TupleV? && Describes(a, c) && k <= |a.elems| && AbstractAll(a, k).Some?
    ensures forall i | 0 <= i < k :: Describes(AbstractAll(a, k).value[i], c.elems[i])
    decreases a, 0, k
  {
    if k > 0 {
      AbstractAllDescribe(a, c, k - 1);
      AbstractDescribes(a.elems[k - 1], c.elems[k - 1]);
    }
  }

  /** The joined value describes the values of both arms. */
  lemma {:induction false} JoinedDescribes(y: Value, n: Value, c: Value)
    requires Joined(y, n).Some? && (Describes(y, c) || Describes(n, c))
    ensures Describes(Joined(y, n).value, c)
  {
    hide Describes, AbstractLike;
    if y != n {
      if Describes(y, c) {
        AbstractDescribes(y, c);
      } else {
        AbstractDescribes(n, c);
      }
    }
  }

  lemma {:induction false} FloorDivIsFloor(x: int, y: int)
    requires y != 0
    ensures FloorDiv(x, y) == (x as real / y as real).Floor
  {
    var q := FloorDiv(x, y);
    var r := x - q * y;
    assert if y > 0 then 0 <= r < y else y < r <= 0;
    assert x as real == (q as real) * (y as real) + (r as real);
    assert x as real / y as real == q as real + (r as real) / (y as real);
    assert 0.0 <= (r as real) / (y as real) < 1.0;
  }

  lemma {:induction false} OperationDescribed(op: Op, a: Value, b: Value, c: Value, d: Value)
    requires Describes(a, c) && Describes(b, d) && BuiltinBinary(op, a, b).Some? && Operation(op, c, d).Some?
    ensures Describes(BuiltinBinary(op, a, b).value.value, Operation(op, c, d).value)
  {
    hide FloorDiv;
    if op.Div? && a.IntV? && b.IntV? {
      FloorDivIsFloor(a.i, b.i);
    }
  }

  lemma {:induction false} ConversionDescribed(l: Library, op: Op, a: Value, c: Value)
    requires Describes(a, c) && BuiltinUnary(l, op, a).Some? && Conversion(l, op, c).Some?
    ensures Describes(BuiltinUnary(l, op, a).value.value, Conversion(l, op, c).value)
  {}

  ghost predicate Described(l: Library, e: Expr, env: Env, concrete: Env, fuel: nat, steps: nat)
    requires Evaluate(l, e, env, fuel).Some? && Run(l, e, concrete, steps).Some?
  {
    Describes(Evaluate(l, e, env, fuel).value.value, Run(l, e, concrete, steps).value)
  }

  /** Whatever a scalar program evaluates to is described by what the interpreter returns, in any environment that is
      described: whichever arm a condition chooses, and through calls of lambdas. */
  lemma {:induction false} ValueIsDescribed(l: Library, e: Expr, env: Env, concrete: Env, fuel: nat, steps: nat)
    requires DescribesAll(env, concrete) && Evaluate(l, e, env, fuel).Some? && Run(l, e, concrete, steps).Some?
    ensures Described(l, e, env, concrete, fuel, steps)
    decreases fuel, 1
  {
    hide Evaluate, Run, Described, DescribesAll;
    match e
    case IntConst(_) => LeafIsDescribed(l, e, env, concrete, fuel, steps);
    case FloatConst(_) => LeafIsDescribed(l, e, env, concrete, fuel, steps);
    case BoolConst(_) => LeafIsDescribed(l, e, env, concrete, fuel, steps);
    case Var(_) => LeafIsDescribed(l, e, env, concrete, fuel, steps);
    case Let(_, _, _) => LetIsDescribed(l, e, env, concrete, fuel, steps);
    case LetLam(_, _, _, _, _) => LetLamIsDescribed(l, e, env, concrete, fuel, steps);
    case If(_, _, _) => IfIsDescribed(l, e, env, concrete, fuel, steps);
    case Select(_, _) => SelectIsDescribed(l, e, env, concrete, fuel, steps);
    case MakeTuple(_) => TupleIsDescribed(l, e, env, concrete, fuel, steps);
    case Assert(_, _) => AssertIsDescribed(l, e, env, concrete, fuel, steps);
    case Apply(_, _) => ApplyIsDescribed(l, e, env, concrete, fuel, steps);
    case Unary(_, _) => UnaryIsDescribed(l, e, env, concrete, fuel, steps);
    case Binary(_, _, _) => BinaryIsDescribed(l, e, env, concrete, fuel, steps);
    case _ => NotScalar(l, e, concrete, steps);
  }

  lemma {:induction false} NotScalar(l: Library, e: Expr, env: Env, steps: nat)
    requires e.Index? || e.Size? || e.Build? || e.Sumbuild?
    ensures Run(l, e, env, steps).None?
  {}

  lemma {:induction false} LeafIsDescribed(l: Library, e: Expr, env: Env, concrete: Env, fuel: nat, steps: nat)
    requires e.IntConst? || e.FloatConst? || e.BoolConst? || e.Var?
    requires DescribesAll(env, concrete) && Evaluate(l, e, env, fuel).Some? && Run(l, e, concrete, steps).Some?
    ensures Described(l, e, env, concrete, fuel, steps)
  {
    hide Describes, Find, BuiltinBinary, BuiltinUnary, Operation, Conversion, Joined, Smaller, Larger, EvaluateAll,
      RunAll;
    if e.Var? {
      FindDescribes(env, concrete, e.name);
    } else {
      ConstantIsDescribed(l, e, env, concrete, fuel, steps);
    }
  }

  lemma {:induction false} LetIsDescribed(l: Library, e: Expr, env: Env, concrete: Env, fuel: nat, steps: nat)
    requires e.Let?
    requires DescribesAll(env, concrete) && Evaluate(l, e, env, fuel).Some? && Run(l, e, concrete, steps).Some?
    ensures Described(l, e, env, concrete, fuel, steps)
    decreases fuel, 0
  {
    hide Describes, Find, BuiltinBinary, BuiltinUnary, Operation, Conversion, Joined, Smaller, Larger, EvaluateAll,
      RunAll;
    ValueIsDescribed(l, e.rhs, env, concrete, fuel - 1, steps - 1);
    var v, w := Evaluate(l, e.rhs, env, fuel - 1).value.value, Run(l, e.rhs, concrete, steps - 1).value;
    ValueIsDescribed(l, e.body, Bind(e.x, v, env), Bind(e.x, w, concrete), fuel - 1, steps - 1);
  }

  lemma {:induction false} LetLamIsDescribed(l: Library, e: Expr, env: Env, concrete: Env, fuel: nat, steps: nat)
    requires e.LetLam?
    requires DescribesAll(env, concrete) && Evaluate(l, e, env, fuel).Some? && Run(l, e, concrete, steps).Some?
    ensures Described(l, e, env, concrete, fuel, steps)
    decreases fuel, 0
  {
    hide Describes, Find, BuiltinBinary, BuiltinUnary, Operation, Conversion, Joined, Smaller, Larger, EvaluateAll,
      RunAll;
    var v, w := Closure(e.param, e.lamBody, env), Closure(e.param, e.lamBody, concrete);
    ClosureIsDescribed(e.param, e.lamBody, env, concrete);
    ValueIsDescribed(l, e.body, Bind(e.f, v, env), Bind(e.f, w, concrete), fuel - 1, steps - 1);
  }

  lemma {:induction false} IfIsDescribed(l: Library, e: Expr, env: Env, concrete: Env, fuel: nat, steps: nat)
    requires e.If?
    requires DescribesAll(env, concrete) && Evaluate(l, e, env, fuel).Some? && Run(l, e, concrete, steps).Some?
    ensures Described(l, e, env, concrete, fuel, steps)
    decreases fuel, 0
  {
    hide Describes, Find, BuiltinBinary, BuiltinUnary, Operation, Conversion, Joined, Smaller, Larger, EvaluateAll,
      RunAll;
    var yes, no := Evaluate(l, e.yes, env, fuel - 1).value.value, Evaluate(l, e.no, env, fuel - 1).value.value;
    if Run(l, e.cond, concrete, steps - 1) == Some(BoolV(true)) {
      ValueIsDescribed(l, e.yes, env, concrete, fuel - 1, steps - 1);
    } else {
      ValueIsDescribed(l, e.no, env, concrete, fuel - 1, steps - 1);
    }
    JoinedDescribes(yes, no, Run(l, e, concrete, steps).value);
  }

  lemma {:induction false} SelectIsDescribed(l: Library, e: Expr, env: Env, concrete: Env, fuel: nat, steps: nat)
    requires e.Select?
    requires DescribesAll(env, concrete) && Evaluate(l, e, env, fuel).Some? && Run(l, e, concrete, steps).Some?
    ensures Described(l, e, env, concrete, fuel, steps)
    decreases fuel, 0
  {
    hide Describes, Find, BuiltinBinary, BuiltinUnary, Operation, Conversion, Joined, Smaller, Larger, EvaluateAll,
      RunAll;
    ValueIsDescribed(l, e.tuple, env, concrete, fuel - 1, steps - 1);
    ComponentIsDescribed(Evaluate(l, e.tuple, env, fuel - 1).value.value, Run(l, e.tuple, concrete, steps - 1).value,
      e.index);
  }

  lemma {:induction false} AssertIsDescribed(l: Library, e: Expr, env: Env, concrete: Env, fuel: nat, steps: nat)
    requires e.Assert?
    requires DescribesAll(env, concrete) && Evaluate(l, e, env, fuel).Some? && Run(l, e, concrete, steps).Some?
    ensures Described(l, e, env, concrete, fuel, steps)
    decreases fuel, 0
  {
    hide Describes, Find, BuiltinBinary, BuiltinUnary, Operation, Conversion, Joined, Smaller, Larger, EvaluateAll,
      RunAll;
    ValueIsDescribed(l, e.body, env, concrete, fuel - 1, steps - 1);
  }

  lemma {:induction false} ApplyIsDescribed(l: Library, e: Expr, env: Env, concrete: Env, fuel: nat, steps: nat)
    requires e.Apply?
    requires DescribesAll(env, concrete) && Evaluate(l, e, env, fuel).Some? && Run(l, e, concrete, steps).Some?
    ensures Described(l, e, env, concrete, fuel, steps)
    decreases fuel, 0
  {
    hide Describes, Find, BuiltinBinary, BuiltinUnary, Operation, Conversion, Joined, Smaller, Larger, EvaluateAll,
      RunAll;
    FindDescribes(env, concrete, e.f);
    var fn, gn := Find(env, e.f).value, Find(concrete, e.f).value;
    ClosureFits(fn, gn);
    ValueIsDescribed(l, e.actual, env, concrete, fuel - 1, steps - 1);
    var v, w := Evaluate(l, e.actual, env, fuel - 1).value.value, Run(l, e.actual, concrete, steps - 1).value;
    ValueIsDescribed(l, fn.body, Bind(fn.param, v, fn.env), Bind(gn.param, w, gn.env), fuel - 1, steps - 1);
  }

  lemma {:induction false} UnaryIsDescribed(l: Library, e: Expr, env: Env, concrete: Env, fuel: nat, steps: nat)
    requires e.Unary?
    requires DescribesAll(env, concrete) && Evaluate(l, e, env, fuel).Some? && Run(l, e, concrete, steps).Some?
    ensures Described(l, e, env, concrete, fuel, steps)
    decreases fuel, 0
  {
    hide Describes, Find, BuiltinBinary, BuiltinUnary, Operation, Conversion, Joined, Smaller, Larger, EvaluateAll,
      RunAll;
    ValueIsDescribed(l, e.a, env, concrete, fuel - 1, steps - 1);
    ConversionDescribed(l, e.op, Evaluate(l, e.a, env, fuel - 1).value.value, Run(l, e.a, concrete, steps - 1).value);
  }

  lemma {:induction false} BinaryIsDescribed(l: Library, e: Expr, env: Env, concrete: Env, fuel: nat, steps: nat)
    requires e.Binary?
    requires DescribesAll(env, concrete) && Evaluate(l, e, env, fuel).Some? && Run(l, e, concrete, steps).Some?
    ensures Described(l, e, env, concrete, fuel, steps)
    decreases fuel, 0
  {
    hide Describes, Find, BuiltinBinary, BuiltinUnary, Operation, Conversion, Joined, Smaller, Larger, EvaluateAll,
      RunAll;
    ValueIsDescribed(l, e.a, env, concrete, fuel - 1, steps - 1);
    ValueIsDescribed(l, e.b, env, concrete, fuel - 1, steps - 1);
    OperationDescribed(e.op, Evaluate(l, e.a, env, fuel - 1).value.value, Evaluate(l, e.b, env, fuel - 1).value.value,
      Run(l, e.a, concrete, steps - 1).value, Run(l, e.b, concrete, steps - 1).value);
  }

  lemma {:induction false} ConstantIsDescribed(l: Library, e: Expr, env: Env, concrete: Env, fuel: nat, steps: nat)
    requires e.IntConst? || e.FloatConst? || e.BoolConst?
    requires fuel > 0 && steps > 0
    ensures Evaluate(l, e, env, fuel).Some? && Run(l, e, concrete, steps).Some?
    ensures Describes(Evaluate(l, e, env, fuel).value.value, Run(l, e, concrete, steps).value)
  {}

  lemma {:induction false} ClosureIsDescribed(x: string, b: Expr, env: Env, concrete: Env)
    requires DescribesAll(env, concrete)
    ensures Describes(Closure(x, b, env), Closure(x, b, concrete))
  {}

  lemma {:induction false} ClosureFits(a: Value, c: Value)
    requires a.Closure? && Describes(a, c)
    ensures c.Closure? && c.param == a.param && c.body == a.body && DescribesAll(a.env, c.env)
  {}

  lemma {:induction false} ComponentIsDescribed(a: Value, c: Value, i: nat)
    requires Describes(a, c) && a.TupleV? && i < |a.elems|
    ensures c.TupleV? && |c.elems| == |a.elems| && Describes(a.elems[i], c.elems[i])
  {}

  lemma {:induction false} TupleIsDescribed(l: Library, e: Expr, env: Env, concrete: Env, fuel: nat, steps: nat)
    requires e.MakeTuple?
    requires DescribesAll(env, concrete) && Evaluate(l, e, env, fuel).Some? && Run(l, e, concrete, steps).Some?
    ensures Described(l, e, env, concrete, fuel, steps)
    decreases fuel, 0
  {
    hide EvaluateAll, RunAll;
    AllAreDescribed(l, e, |e.es|, env, concrete, fuel - 1, steps - 1);
  }

  lemma {:induction false} AllAreDescribed(l: Library, e: Expr, k: nat, env: Env, concrete: Env, fuel: nat, steps: nat)
    requires e.MakeTuple? && k <= |e.es| && DescribesAll(env, concrete)
    requires EvaluateAll(l, e, k, env, fuel).Some? && RunAll(l, e, k, concrete, steps).Some?
    ensures forall i | 0 <= i < k ::
      Describes(EvaluateAll(l, e, k, env, fuel).value.0[i], RunAll(l, e, k, concrete, steps).value[i])
    decreases fuel, 2, k
  {
    hide Describes, Evaluate, Run;
    if k > 0 {
      AllAreDescribed(l, e, k - 1, env, concrete, fuel, steps);
      ValueIsDescribed(l, e.es[k - 1], env, concrete, fuel, steps);
    }
  }

  // ---------------------------------------------------------------- programs without conditionals

  ghost predicate Straight(e: Expr) {
    match e
    case Let(_, rhs, body) => Straight(rhs) && Straight(body)
    case LetLam(_, _, _, b, body) => Straight(b) && Straight(body)
    case Select(t, _) => Straight(t)
    case MakeTuple(es) => forall i | 0 <= i < |es| :: Straight(es[i])
    case Assert(c, b) => Straight(c) && Straight(b)
    case Apply(_, a) => Straight(a)
    case Unary(_, a) => Straight(a)
    case Binary(_, a, b) => Straight(a) && Straight(b)
    case _ => !e.If?
  }

  /** The closures in it are straight. */
  ghost predicate StraightValue(v: Value) {
    match v
    case TupleV(vs) => forall i | 0 <= i < |vs| :: StraightValue(vs[i])
    case Closure(_, b, env) => Straight(b) && StraightEnv(env)
    case _ => true
  }

  ghost predicate StraightEnv(env: Env) {
    env.Bind? ==> StraightValue(env.value) && StraightEnv(env.outer)
  }

  lemma {:induction false} FindStraight(env: Env, x: string)
    requires StraightEnv(env) && Find(env, x).Some?
    ensures StraightValue(Find(env, x).value)
  {
    if env.name != x {
      FindStraight(env.outer, x);
    }
  }

  /** The interpreter returns the very value that the program has. */
  ghost predicate Exact(l: Library, e: Expr, env: Env, fuel: nat) {
    var v := Run(l, e, env, fuel);
    v.Some? && StraightValue(v.value)
      && Evaluate(l, e, env, fuel).Some? && Evaluate(l, e, env, fuel).value.value == v.value
  }

  lemma {:induction false} OperationExact(op: Op, a: Value, b: Value)
    requires Operation(op, a, b).Some?
    ensures BuiltinBinary(op, a, b).Some? && BuiltinBinary(op, a, b).value.value == Operation(op, a, b).value
    ensures StraightValue(Operation(op, a, b).value)
  {
    hide FloorDiv;
    if op.Div? && a.IntV? && b.IntV? {
      FloorDivIsFloor(a.i, b.i);
    }
  }

  lemma {:induction false} ConversionExact(l: Library, op: Op, a: Value)
    requires Conversion(l, op, a).Some?
    ensures BuiltinUnary(l, op, a).Some? && BuiltinUnary(l, op, a).value.value == Conversion(l, op, a).value
    ensures StraightValue(Conversion(l, op, a).value)
  {}

  /** A scalar program without conditionals that has a value is evaluated to that value, calls of lambdas included. */
  lemma {:induction false} StraightIsExact(l: Library, e: Expr, env: Env, fuel: nat)
    requires Straight(e) && StraightEnv(env) && Run(l, e, env, fuel).Some?
    ensures Exact(l, e, env, fuel)
    decreases fuel, 1
  {
    hide Evaluate, Run, Exact, StraightValue, StraightEnv, Straight;
    match e
    case IntConst(_) => LeafIsExact(l, e, env, fuel);
    case FloatConst(_) => LeafIsExact(l, e, env, fuel);
    case BoolConst(_) => LeafIsExact(l, e, env, fuel);
    case Var(_) => LeafIsExact(l, e, env, fuel);
    case Let(_, _, _) => LetIsExact(l, e, env, fuel);
    case LetLam(_, _, _, _, _) => LetLamIsExact(l, e, env, fuel);
    case If(_, _, _) => StraightHasNoIf(e);
    case Select(_, _) => SelectIsExact(l, e, env, fuel);
    case MakeTuple(_) => TupleIsExact(l, e, env, fuel);
    case Assert(_, _) => AssertIsExact(l, e, env, fuel);
    case Apply(_, _) => ApplyIsExact(l, e, env, fuel);
    case Unary(_, _) => UnaryIsExact(l, e, env, fuel);
    case Binary(_, _, _) => BinaryIsExact(l, e, env, fuel);
    case _ => NotScalar(l, e, env, fuel);
  }

  lemma {:induction false} StraightHasNoIf(e: Expr)
    requires Straight(e)
    ensures !e.If?
  {}

  lemma {:induction false} LeafIsExact(l: Library, e: Expr, env: Env, fuel: nat)
    requires e.IntConst? || e.FloatConst? || e.BoolConst? || e.Var?
    requires Straight(e) && StraightEnv(env) && Run(l, e, env, fuel).Some?
    ensures Exact(l, e, env, fuel)
  {
    hide StraightEnv, Find;
    if e.Var? {
      FindStraight(env, e.name);
    }
  }

  lemma {:induction false} LetIsExact(l: Library, e: Expr, env: Env, fuel: nat)
    requires e.Let?
    requires Straight(e) && StraightEnv(env) && Run(l, e, env, fuel).Some?
    ensures Exact(l, e, env, fuel)
    decreases fuel, 0
  {
    hide StraightValue, StraightEnv, Find, BuiltinBinary, BuiltinUnary, Operation, Conversion, Joined, Smaller, Larger,
      EvaluateAll, RunAll;
    StraightIsExact(l, e.rhs, env, fuel - 1);
    var inner := Bind(e.x, Run(l, e.rhs, env, fuel - 1).value, env);
    StraightBind(e.x, inner.value, env);
    StraightIsExact(l, e.body, inner, fuel - 1);
  }

  lemma {:induction false} StraightBind(x: string, v: Value, env: Env)
    requires StraightValue(v) && StraightEnv(env)
    ensures StraightEnv(Bind(x, v, env))
  {
    hide StraightValue;
  }

  lemma {:induction false} StraightClosure(v: Value)
    requires v.Closure?
    ensures StraightValue(v) <==> Straight(v.body) && StraightEnv(v.env)
  {
    hide Straight;
  }

  lemma {:induction false} LetLamIsExact(l: Library, e: Expr, env: Env, fuel: nat)
    requires e.LetLam?
    requires Straight(e) && StraightEnv(env) && Run(l, e, env, fuel).Some?
    ensures Exact(l, e, env, fuel)
    decreases fuel, 0
  {
    hide StraightValue, StraightEnv, Find, BuiltinBinary, BuiltinUnary, Operation, Conversion, Joined, Smaller, Larger,
      EvaluateAll, RunAll;
    var v := Closure(e.param, e.lamBody, env);
    StraightClosure(v);
    StraightBind(e.f, v, env);
    StraightIsExact(l, e.body, Bind(e.f, v, env), fuel - 1);
  }

  lemma {:induction false} SelectIsExact(l: Library, e: Expr, env: Env, fuel: nat)
    requires e.Select?
    requires Straight(e) && StraightEnv(env) && Run(l, e, env, fuel).Some?
    ensures Exact(l, e, env, fuel)
    decreases fuel, 0
  {
    hide StraightEnv, Find, BuiltinBinary, BuiltinUnary, Operation, Conversion, Joined, Smaller, Larger,
      EvaluateAll, RunAll;
    StraightIsExact(l, e.tuple, env, fuel - 1);
    var v := Run(l, e.tuple, env, fuel - 1).value;
    assert StraightValue(v.elems[e.index]);
  }

  lemma {:induction false} TupleIsExact(l: Library, e: Expr, env: Env, fuel: nat)
    requires e.MakeTuple?
    requires Straight(e) && StraightEnv(env) && Run(l, e, env, fuel).Some?
    ensures Exact(l, e, env, fuel)
    decreases fuel, 0
  {
    hide StraightEnv, EvaluateAll, RunAll;
    AllAreExact(l, e, |e.es|, env, fuel - 1);
  }

  lemma {:induction false} AllAreExact(l: Library, e: Expr, k: nat, env: Env, fuel: nat)
    requires e.MakeTuple? && k <= |e.es| && Straight(e) && StraightEnv(env) && RunAll(l, e, k, env, fuel).Some?
    ensures EvaluateAll(l, e, k, env, fuel).Some?
      && EvaluateAll(l, e, k, env, fuel).value.0 == RunAll(l, e, k, env, fuel).value
    ensures forall i | 0 <= i < k :: StraightValue(RunAll(l, e, k, env, fuel).value[i])
    decreases fuel, 2, k
  {
    hide StraightValue, StraightEnv, Evaluate, Run;
    if k > 0 {
      AllAreExact(l, e, k - 1, env, fuel);
      StraightIsExact(l, e.es[k - 1], env, fuel);
    }
  }

  lemma {:induction false} AssertIsExact(l: Library, e: Expr, env: Env, fuel: nat)
    requires e.Assert?
    requires Straight(e) && StraightEnv(env) && Run(l, e, env, fuel).Some?
    ensures Exact(l, e, env, fuel)
    decreases fuel, 0
  {
    hide StraightValue, StraightEnv, Find, BuiltinBinary, BuiltinUnary, Operation, Conversion, Joined, Smaller, Larger,
      EvaluateAll, RunAll;
    StraightIsExact(l, e.cond, env, fuel - 1);
    StraightIsExact(l, e.body, env, fuel - 1);
  }

  lemma {:induction false} ApplyIsExact(l: Library, e: Expr, env: Env, fuel: nat)
    requires e.Apply?
    requires Straight(e) && StraightEnv(env) && Run(l, e, env, fuel).Some?
    ensures Exact(l, e, env, fuel)
    decreases fuel, 0
  {
    hide StraightValue, StraightEnv, Find, BuiltinBinary, BuiltinUnary, Operation, Conversion, Joined, Smaller, Larger,
      EvaluateAll, RunAll;
    var fn, arg := Find(env, e.f).value, Run(l, e.actual, env, fuel - 1).value;
    FindStraight(env, e.f);
    StraightClosure(fn);
    StraightIsExact(l, e.actual, env, fuel - 1);
    StraightBind(fn.param, arg, fn.env);
    StraightIsExact(l, fn.body, Bind(fn.param, arg, fn.env), fuel - 1);
  }

  lemma {:induction false} UnaryIsExact(l: Library, e: Expr, env: Env, fuel: nat)
    requires e.Unary?
    requires Straight(e) && StraightEnv(env) && Run(l, e, env, fuel).Some?
    ensures Exact(l, e, env, fuel)
    decreases fuel, 0
  {
    hide StraightValue, StraightEnv, Find, BuiltinBinary, BuiltinUnary, Operation, Conversion, Joined, Smaller, Larger,
      EvaluateAll, RunAll;
    StraightIsExact(l, e.a, env, fuel - 1);
    ConversionExact(l, e.op, Run(l, e.a, env, fuel - 1).value);
  }

  lemma {:induction false} BinaryIsExact(l: Library, e: Expr, env: Env, fuel: nat)
    requires e.Binary?
    requires Straight(e) && StraightEnv(env) && Run(l, e, env, fuel).Some?
    ensures Exact(l, e, env, fuel)
    decreases fuel, 0
  {
    hide StraightValue, StraightEnv, Find, BuiltinBinary, BuiltinUnary, Operation, Conversion, Joined, Smaller, Larger,
      EvaluateAll, RunAll;
    StraightIsExact(l, e.a, env, fuel - 1);
    StraightIsExact(l, e.b, env, fuel - 1);
    OperationExact(e.op, Run(l, e.a, env, fuel - 1).value, Run(l, e.b, env, fuel - 1).value);
  }

  // ---------------------------------------------------------------- tensors

  ghost predicate HasValue(l: Library, e: Expr, env: Env, fuel: nat, v: Value) {
    Evaluate(l, e, env, fuel).Some? && Evaluate(l, e, env, fuel).value.value == v
  }

  /** The element of a tensor has its shape without the outermost dimension, or is a number of its type. */
  lemma {:induction false} IndexValue(l: Library, e: Expr, env: Env, fuel: nat, n: nat, rest: seq<nat>, t: Type)
    requires e.Index? && fuel > 0 && Evaluate(l, e.idx, env, fuel - 1).Some? && Evaluate(l, e.vec, env, fuel - 1).Some?
    requires Evaluate(l, e.idx, env, fuel - 1).value.value.IntV?
      || Evaluate(l, e.idx, env, fuel - 1).value.value.AbstractInt?
    requires Evaluate(l, e.vec, env, fuel - 1).value.value == AbstractTensor([n] + rest, t) && t.Float?
    ensures HasValue(l, e, env, fuel, if rest == [] then AbstractFloat else AbstractTensor(rest, t))
  {
    hide BuiltinUnary, BuiltinBinary, Joined, Stacked;
    assert ([n] + rest)[1..] == rest;
  }

  /** The size of a tensor is its outermost dimension. */
  lemma {:induction false} SizeValue(l: Library, e: Expr, env: Env, fuel: nat, n: nat, rest: seq<nat>, t: Type)
    requires e.Size? && fuel > 0 && Evaluate(l, e.vec, env, fuel - 1).Some?
    requires Evaluate(l, e.vec, env, fuel - 1).value.value == AbstractTensor([n] + rest, t)
    ensures HasValue(l, e, env, fuel, IntV(n))
  {
    hide BuiltinUnary, BuiltinBinary, Joined, Stacked, Element;
  }

  /** A build puts sixteen elements in front of the shape of its body, whatever the length, if it is not negative. */
  lemma {:induction false} BuildValue(l: Library, e: Expr, env: Env, fuel: nat, shape: seq<nat>)
    requires e.Build? && fuel > 0 && Evaluate(l, e.length, env, fuel - 1).Some?
    requires Evaluate(l, e.body, Bind(e.x, AbstractInt, env), fuel - 1).Some?
    ensures var n := Evaluate(l, e.length, env, fuel - 1).value.value;
      var v := Evaluate(l, e.body, Bind(e.x, AbstractInt, env), fuel - 1).value.value;
      && (Evaluate(l, e, env, fuel).Some? ==> n.AbstractInt? || (n.IntV? && n.i >= 0))
      && (n.AbstractInt? || (n.IntV? && n.i >= 0) ==>
        && (v == FloatV(1.0) || v == AbstractFloat ==> HasValue(l, e, env, fuel, AbstractTensor([16], Float)))
        && (v == AbstractTensor(shape, Float) ==> HasValue(l, e, env, fuel, AbstractTensor([16] + shape, Float))))
  {
    hide BuiltinUnary, BuiltinBinary, Joined, Element, Product;
  }

  /** A sumbuild has the shape of its body. */
  lemma {:induction false} SumbuildValue(l: Library, e: Expr, env: Env, fuel: nat, shape: seq<nat>)
    requires e.Sumbuild? && fuel > 0 && Evaluate(l, e.length, env, fuel - 1).Some?
    requires Evaluate(l, e.body, Bind(e.x, AbstractInt, env), fuel - 1).Some?
    ensures var n := Evaluate(l, e.length, env, fuel - 1).value.value;
      var v := Evaluate(l, e.body, Bind(e.x, AbstractInt, env), fuel - 1).value.value;
      && (Evaluate(l, e, env, fuel).Some? ==> n.AbstractInt? || (n.IntV? && n.i >= 0))
      && (n.AbstractInt? || (n.IntV? && n.i >= 0) ==>
        && (v == FloatV(1.0) || v == AbstractFloat ==> HasValue(l, e, env, fuel, AbstractFloat))
        && (v == AbstractTensor(shape, Float) ==> HasValue(l, e, env, fuel, AbstractTensor(shape, Float))))
  {
    hide BuiltinUnary, BuiltinBinary, Joined, Element, Product;
  }

  /** Exactly tensors of one shape and type are combined, into one like them; all built-in functions cost what the
      operation costs, for mixed arguments too. */
  lemma {:induction false} BuiltinCosts(l: Library, op: Op, a: Value, b: Value)
    ensures BuiltinBinary(op, a, b).Some? && !a.AbstractTensor? ==>
      BuiltinBinary(op, a, b).value.cost == if op.Mul? || op.Div? then 2.0 else 1.0
    ensures a.AbstractTensor? && (op.Add? || op.Sub? || op.Mul? || op.Div?) ==>
      (BuiltinBinary(op, a, b).Some? <==> a == b) && (a == b ==> BuiltinBinary(op, a, b).value.value == a)
    ensures BuiltinUnary(l, op, a).Some? && !op.Sum? ==>
      BuiltinUnary(l, op, a).value.cost == if op.Exp? || op.Log? then 4.0 else 1.0
    ensures op.Sub? && a.AbstractFloat? && (b.IntV? || b.FloatV? || b.AbstractInt? || b.AbstractFloat?) ==>
      BuiltinBinary(op, a, b).Some? && BuiltinBinary(op, a, b).value.value == AbstractFloat
  {}

  // ---------------------------------------------------------------- examples

  /** Integer division rounds down, and a lambda negates its argument. */
  lemma {:induction false} ExampleValues(l: Library)
    ensures BuiltinDiv(IntV(-7), IntV(2)).value.value == IntV(-4)
    ensures BuiltinDiv(IntV(7), IntV(-2)).value.value == IntV(-4)
    ensures BuiltinDiv(IntV(-7), IntV(-2)).value.value == IntV(3)
    ensures BuiltinSub(IntV(5), IntV(7)).value.value == IntV(-2)
    ensures BuiltinAdd(IntV(5), IntV(7)).value.value == IntV(12)
    ensures BuiltinMul(IntV(-5), IntV(7)).value.value == IntV(-35)
    ensures BuiltinCompare(IntV(5), IntV(5), true).value.value == BoolV(false)
    ensures BuiltinCompare(IntV(5), IntV(5), false).value.value == BoolV(true)
    ensures BuiltinCompare(IntV(5), IntV(4), true).value.value == BoolV(true)
    ensures BuiltinEq(IntV(5), IntV(4)).value.value == BoolV(false)
    ensures BuiltinUnary(l, ToFloat, IntV(5)).value.value == FloatV(5.0)
    ensures Joined(FloatV(2.0), FloatV(1.0)) == Some(AbstractFloat) && Joined(IntV(2), IntV(2)) == Some(IntV(2))
    ensures Joined(IntV(2), FloatV(1.0)) == None
  {}
}
