/** Removing lets that bind several names at once. */
module DetupleLets {
  import X = Expressions

  datatype Option<T> = None | Some(value: T)

  /** One variable, or a tuple of them. */
  datatype Pattern = One(name: string) | Many(names: seq<string>)

  datatype Expr =
    | Const(value: real)
    | Var(name: string)
    | Call(name: string, args: seq<Expr>)
    | Lam(arg: string, body: Expr)
    | Let(vars: Pattern, rhs: Expr, body: Expr)
    | If(cond: Expr, tBody: Expr, fBody: Expr)
    | Assert(cond: Expr, body: Expr)

  // ---------------------------------------------------------------- names

  const PREFIX := "detuple_lets$"

  function Temporary(n: nat): string {
    PREFIX + X.Decimal(n)
  }

  predicate IsTemporary(x: string) {
    PREFIX <= x
  }

  /** The name of the function that takes component `k`, counted from one, of a tuple of `n`. */
  function Get(k: nat, n: nat): string {
    "get$" + X.Decimal(k) + "$" + X.Decimal(n)
  }

  lemma {:induction false} TemporariesDiffer(m: nat, n: nat)
    requires Temporary(m) == Temporary(n)
    ensures m == n
  {
    assert Temporary(m)[|PREFIX|..] == X.Decimal(m) && Temporary(n)[|PREFIX|..] == X.Decimal(n);
    X.ReadBack(m);
    X.ReadBack(n);
  }

  predicate AllDistinct(names: seq<string>) {
    forall i, j | 0 <= i < j < |names| :: names[i] != names[j]
  }

  /** Patterns have distinct names; no temporary name is used. */
  predicate Plain(e: Expr) {
    match e
    case Const(_) => true
    case Var(x) => !IsTemporary(x)
    case Call(_, args) => forall i | 0 <= i < |args| :: Plain(args[i])
    case Lam(x, b) => !IsTemporary(x) && Plain(b)
    case Let(p, rhs, b) => PlainPattern(p) && Plain(rhs) && Plain(b)
    case If(c, t, f) => Plain(c) && Plain(t) && Plain(f)
    case Assert(c, b) => Plain(c) && Plain(b)
  }

  predicate PlainPattern(p: Pattern) {
    match p
    case One(x) => !IsTemporary(x)
    case Many(xs) => AllDistinct(xs) && forall i | 0 <= i < |xs| :: !IsTemporary(xs[i])
  }

  predicate NoTupleLets(e: Expr) {
    match e
    case Const(_) => true
    case Var(_) => true
    case Call(_, args) => forall i | 0 <= i < |args| :: NoTupleLets(args[i])
    case Lam(_, b) => NoTupleLets(b)
    case Let(p, rhs, b) => p.One? && NoTupleLets(rhs) && NoTupleLets(b)
    case If(c, t, f) => NoTupleLets(c) && NoTupleLets(t) && NoTupleLets(f)
    case Assert(c, b) => NoTupleLets(c) && NoTupleLets(b)
  }

  // ---------------------------------------------------------------- the transformation

  /** `body` inside lets for the first `k` of the names, the first innermost. */
  function Wrap(t: string, names: seq<string>, k: nat, body: Expr): Expr
    requires k <= |names|
  {
    if k == 0 then body
    else Let(One(names[k - 1]), Call(Get(k, |names|), [Var(t)]), Wrap(t, names, k - 1, body))
  }

  /** The result, and the number of the last temporary, given the last one before. */
  function Detupled(e: Expr, n: nat): (r: (Expr, nat))
    ensures r.1 >= n
    decreases e, 0
  {
    match e
    case Const(_) => (e, n)
    case Var(_) => (e, n)
    case Call(f, args) => var r := DetupledAll(e, |args|, n); (Call(f, r.0), r.1)
    case Lam(x, b) => var r := Detupled(b, n); (Lam(x, r.0), r.1)
    case Let(One(x), rhs, b) =>
      var r := Detupled(rhs, n);
      var s := Detupled(b, r.1);
      (Let(One(x), r.0, s.0), s.1)
    case Let(Many(xs), rhs, b) =>
      var s := Detupled(b, n + 1);
      var r := Detupled(rhs, s.1);
      (Let(One(Temporary(n + 1)), r.0, Wrap(Temporary(n + 1), xs, |xs|, s.0)), r.1)
    case If(c, t, f) =>
      var r := Detupled(c, n);
      var s := Detupled(t, r.1);
      var u := Detupled(f, s.1);
      (If(r.0, s.0, u.0), u.1)
    case Assert(c, b) =>
      var r := Detupled(c, n);
      var s := Detupled(b, r.1);
      (Assert(r.0, s.0), s.1)
  }

  /** The first `k` arguments of a call. */
  function DetupledAll(e: Expr, k: nat, n: nat): (r: (seq<Expr>, nat))
    requires e.Call? && k <= |e.args|
    ensures |r.0| == k && r.1 >= n
    decreases e, 0, k
  {
    if k == 0 then ([], n) else
      var init := DetupledAll(e, k - 1, n);
      var last := Detupled(e.args[k - 1], init.1);
      (init.0 + [last.0], last.1)
  }

  // ---------------------------------------------------------------- what it means

  /** A meaning of constants, of names defined elsewhere, of functions and of control flow. */
  datatype Interp<!V> = Interp(constant: real -> V, global: string -> V, call: (string, seq<V>) -> V, lam: imap<V,
    V> -> V,
    branch: (V, V, V) -> V, check: (V, V) -> V)

  function Lookup<V>(I: Interp<V>, env: map<string, V>, x: string): V {
    if x in env then env[x] else I.global(x)
  }

  function Extend<V>(env: map<string, V>, x: string, v: V): map<string, V> {
    env[x := v]
  }

  /** The first `k` names bound to the components of `v`. */
  function BindAll<V>(I: Interp<V>, env: map<string, V>, names: seq<string>, k: nat, v: V): map<string, V>
    requires k <= |names|
  {
    if k == 0 then env else Extend(BindAll(I, env, names, k - 1, v), names[k - 1], I.call(Get(k, |names|), [v]))
  }

  ghost function Eval<V(!new)>(I: Interp<V>, e: Expr, env: map<string, V>): V
    decreases e, 0
  {
    match e
    case Const(c) => I.constant(c)
    case Var(x) => Lookup(I, env, x)
    case Call(f, args) => I.call(f, EvalAll(I, e, |args|, env))
    case Lam(x, b) => I.lam(Abstraction(I, x, b, env))
    case Let(One(x), rhs, b) => Eval(I, b, Extend(env, x, Eval(I, rhs, env)))
    case Let(Many(xs), rhs, b) => Eval(I, b, BindAll(I, env, xs, |xs|, Eval(I, rhs, env)))
    case If(c, t, f) => I.branch(Eval(I, c, env), Eval(I, t, env), Eval(I, f, env))
    case Assert(c, b) => I.check(Eval(I, c, env), Eval(I, b, env))
  }

  ghost function Abstraction<V(!new)>(I: Interp<V>, x: string, b: Expr, env: map<string, V>): imap<V, V>
    decreases b, 1
  {
    imap v: V | true :: Eval(I, b, Extend(env, x, v))
  }

  ghost function EvalAll<V(!new)>(I: Interp<V>, e: Expr, k: nat, env: map<string, V>): (vs: seq<V>)
    requires e.Call? && k <= |e.args|
    ensures |vs| == k
    decreases e, 0, k
  {
    if k == 0 then [] else EvalAll(I, e, k - 1, env) + [Eval(I, e.args[k - 1], env)]
  }

  /** The environments agree on all names but the temporaries. */
  ghost predicate Agree<V>(I: Interp<V>, env: map<string, V>, env': map<string, V>) {
    forall x | !IsTemporary(x) :: Lookup(I, env, x) == Lookup(I, env', x)
  }

  lemma {:induction false} AgreeExtend<V>(I: Interp<V>, env: map<string, V>, env': map<string, V>, x: string, v: V)
    requires Agree(I, env, env')
    ensures Agree(I, Extend(env, x, v), Extend(env', x, v))
    ensures IsTemporary(x) ==> Agree(I, env, Extend(env', x, v))
  {
    hide IsTemporary;
  }

  /** Whether `x` is among the first `k` names. */
  predicate Among(names: seq<string>, k: nat, x: string)
    requires k <= |names|
  {
    exists i :: 0 <= i < k && names[i] == x
  }

  lemma {:induction false} BindAllLookup<V>(I: Interp<V>, env: map<string, V>, names: seq<string>, k: nat, v: V,
      x: string)
    requires k <= |names| && AllDistinct(names)
    ensures !Among(names, k, x) ==> Lookup(I, BindAll(I, env, names, k, v), x) == Lookup(I, env, x)
    ensures forall i | 0 <= i < k && names[i] == x ::
      Lookup(I, BindAll(I, env, names, k, v), x) == I.call(Get(i + 1, |names|), [v])
  {
    hide Get;
    if k > 0 {
      BindAllLookup(I, env, names, k - 1, v, x);
    }
  }

  /** The environment in which the body of the wrapped lets is evaluated: the last name is bound first. */
  function BindDown<V>(I: Interp<V>, env: map<string, V>, t: string, names: seq<string>, k: nat): map<string, V>
    requires k <= |names|
    decreases k
  {
    if k == 0 then env else BindDown(I, Extend(env, names[k - 1], I.call(Get(k, |names|), [Lookup(I, env, t)])), t,
      names, k - 1)
  }

  lemma {:induction false} EvalWrap<V(!new)>(I: Interp<V>, env: map<string, V>, t: string, names: seq<string>, k: nat,
      body: Expr)
    requires k <= |names|
    ensures Eval(I, Wrap(t, names, k, body), env) == Eval(I, body, BindDown(I, env, t, names, k))
    decreases k
  {
    hide Get;
    if k > 0 {
      var c := Call(Get(k, |names|), [Var(t)]);
      assert EvalAll(I, c, 1, env) == [Lookup(I, env, t)] by { assert EvalAll(I, c, 0, env) == []; }
      EvalWrap(I, Extend(env, names[k - 1], I.call(Get(k, |names|), [Lookup(I, env, t)])), t, names, k - 1, body);
    }
  }

  lemma {:induction false} BindDownLookup<V>(I: Interp<V>, env: map<string, V>, t: string, names: seq<string>, k: nat,
      x: string)
    requires k <= |names| && AllDistinct(names) && !Among(names, |names|, t)
    ensures !Among(names, k, x) ==> Lookup(I, BindDown(I, env, t, names, k), x) == Lookup(I, env, x)
    ensures forall i | 0 <= i < k && names[i] == x ::
      Lookup(I, BindDown(I, env, t, names, k), x) == I.call(Get(i + 1, |names|), [Lookup(I, env, t)])
    decreases k
  {
    hide Get;
    if k > 0 {
      var env' := Extend(env, names[k - 1], I.call(Get(k, |names|), [Lookup(I, env, t)]));
      assert Lookup(I, env', t) == Lookup(I, env, t);
      BindDownLookup(I, env', t, names, k - 1, x);
    }
  }

  /** The names of a pattern get the same values either way. */
  lemma {:induction false} PatternAgrees<V>(I: Interp<V>, env: map<string, V>, env': map<string, V>, t: string,
      names: seq<string>, v: V)
    requires Agree(I, env, env') && IsTemporary(t) && PlainPattern(Many(names))
    ensures Agree(I, BindAll(I, env, names, |names|, v), BindDown(I, Extend(env', t, v), t, names, |names|))
  {
    hide IsTemporary, Get, BindAll, BindDown, Extend;
    AgreeExtend(I, env, env', t, v);
    var env1 := Extend(env', t, v);
    ExtendLookup(I, env', t, v);
    forall x | !IsTemporary(x)
      ensures Lookup(I, BindAll(I, env, names, |names|, v), x) == Lookup(I, BindDown(I, env1, t, names, |names|), x)
    {
      BindAllLookup(I, env, names, |names|, v, x);
      BindDownLookup(I, env1, t, names, |names|, x);
      if Among(names, |names|, x) {
        var i :| 0 <= i < |names| && names[i] == x;
        assert Lookup(I, BindAll(I, env, names, |names|, v), x) == I.call(Get(i + 1, |names|), [v]);
      }
    }
  }

  lemma {:induction false} ExtendLookup<V>(I: Interp<V>, env: map<string, V>, x: string, v: V)
    ensures Lookup(I, Extend(env, x, v), x) == v
  {}

  /** Removing tuple lets keeps the meaning: the result evaluates as the original does, whatever the values of
      temporaries outside. */
  lemma {:induction false} KeepsMeaning<V(!new)>(I: Interp<V>, e: Expr, n: nat, env: map<string, V>,
      env': map<string, V>)
    requires Plain(e) && Agree(I, env, env')
    ensures Eval(I, Detupled(e, n).0, env') == Eval(I, e, env)
    decreases e, 0
  {
    hide Agree, IsTemporary, Extend, BindAll, BindDown, Wrap, DetupledAll, EvalAll, Lookup, Temporary;
    match e
    case Const(_) =>
    case Var(x) => AgreeAt(I, env, env', x);
    case Call(f, args) =>
      var r := DetupledAll(e, |args|, n);
      assert r.0[..|args|] == r.0;
      KeepsMeaningAll(I, e, Call(f, r.0), |args|, n, env, env');
    case Lam(x, b) =>
      forall v: V ensures Eval(I, Detupled(b, n).0, Extend(env', x, v)) == Eval(I, b, Extend(env, x, v)) {
        AgreeExtend(I, env, env', x, v);
        KeepsMeaning(I, b, n, Extend(env, x, v), Extend(env', x, v));
      }
      LamMeaning(I, x, b, Detupled(b, n).0, env, env');
    case Let(One(x), rhs, b) =>
      KeepsMeaning(I, rhs, n, env, env');
      var v := Eval(I, rhs, env);
      AgreeExtend(I, env, env', x, v);
      KeepsMeaning(I, b, Detupled(rhs, n).1, Extend(env, x, v), Extend(env', x, v));
    case Let(Many(xs), rhs, b) =>
      var s := Detupled(b, n + 1);
      KeepsMeaning(I, rhs, s.1, env, env');
      var v := Eval(I, rhs, env);
      var t := Temporary(n + 1);
      TemporaryIs(n + 1);
      PatternAgrees(I, env, env', t, xs, v);
      EvalWrap(I, Extend(env', t, v), t, xs, |xs|, s.0);
      KeepsMeaning(I, b, n + 1, BindAll(I, env, xs, |xs|, v), BindDown(I, Extend(env', t, v), t, xs, |xs|));
    case If(c, t, f) =>
      KeepsMeaning(I, c, n, env, env');
      KeepsMeaning(I, t, Detupled(c, n).1, env, env');
      KeepsMeaning(I, f, Detupled(t, Detupled(c, n).1).1, env, env');
    case Assert(c, b) =>
      KeepsMeaning(I, c, n, env, env');
      KeepsMeaning(I, b, Detupled(c, n).1, env, env');
  }

  lemma {:induction false} LamMeaning<V(!new)>(I: Interp<V>, x: string, b: Expr, b': Expr, env: map<string, V>,
      env': map<string, V>)
    requires forall v: V :: Eval(I, b', Extend(env', x, v)) == Eval(I, b, Extend(env, x, v))
    ensures Eval(I, Lam(x, b'), env') == Eval(I, Lam(x, b), env)
  {
    SameAbstraction(I, x, b, b', env, env');
    hide Abstraction;
  }

  lemma {:induction false} SameAbstraction<V(!new)>(I: Interp<V>, x: string, b: Expr, b': Expr, env: map<string, V>,
      env': map<string, V>)
    requires forall v: V :: Eval(I, b', Extend(env', x, v)) == Eval(I, b, Extend(env, x, v))
    ensures Abstraction(I, x, b', env') == Abstraction(I, x, b, env)
  {
    hide Extend, Eval;
  }

  lemma {:induction false} AgreeAt<V>(I: Interp<V>, env: map<string, V>, env': map<string, V>, x: string)
    requires Agree(I, env, env') && !IsTemporary(x)
    ensures Lookup(I, env', x) == Lookup(I, env, x)
  {
    hide IsTemporary;
  }

  lemma {:induction false} TemporaryIs(n: nat)
    ensures IsTemporary(Temporary(n))
  {}

  lemma {:induction false} KeepsMeaningAll<V(!new)>(I: Interp<V>, e: Expr, g: Expr, k: nat, n: nat, env: map<string, V>,
      env': map<string, V>)
    requires e.Call? && Plain(e) && Agree(I, env, env') && k <= |e.args|
    requires g.Call? && k <= |g.args| && g.args[..k] == DetupledAll(e, k, n).0
    ensures EvalAll(I, g, k, env') == EvalAll(I, e, k, env)
    decreases e, 0, k
  {
    hide Agree, Eval, Plain, Detupled;
    if k > 0 {
      var init := DetupledAll(e, k - 1, n);
      assert DetupledAll(e, k, n).0[..k - 1] == init.0;
      assert g.args[..k][..k - 1] == g.args[..k - 1];
      assert g.args[..k][k - 1] == g.args[k - 1];
      PlainArg(e, k - 1);
      KeepsMeaningAll(I, e, g, k - 1, n, env, env');
      KeepsMeaning(I, e.args[k - 1], init.1, env, env');
    }
  }

  lemma {:induction false} PlainArg(e: Expr, i: nat)
    requires e.Call? && Plain(e) && i < |e.args|
    ensures Plain(e.args[i])
  {}

  /** No let of the result binds a tuple. */
  lemma {:induction false} RemovesTupleLets(e: Expr, n: nat)
    ensures NoTupleLets(Detupled(e, n).0)
    decreases e, 0
  {
    match e
    case Const(_) =>
    case Var(_) =>
    case Call(_, args) =>
      RemovesAll(e, |args|, n);
    case Lam(_, b) => RemovesTupleLets(b, n);
    case Let(One(x), rhs, b) =>
      RemovesTupleLets(rhs, n);
      RemovesTupleLets(b, Detupled(rhs, n).1);
    case Let(Many(xs), rhs, b) =>
      RemovesTupleLets(b, n + 1);
      RemovesTupleLets(rhs, Detupled(b, n + 1).1);
      WrapRemoves(Temporary(n + 1), xs, |xs|, Detupled(b, n + 1).0);
    case If(c, t, f) =>
      RemovesTupleLets(c, n);
      RemovesTupleLets(t, Detupled(c, n).1);
      RemovesTupleLets(f, Detupled(t, Detupled(c, n).1).1);
    case Assert(c, b) =>
      RemovesTupleLets(c, n);
      RemovesTupleLets(b, Detupled(c, n).1);
  }

  lemma {:induction false} RemovesAll(e: Expr, k: nat, n: nat)
    requires e.Call? && k <= |e.args|
    ensures forall i | 0 <= i < k :: NoTupleLets(DetupledAll(e, k, n).0[i])
    decreases e, 0, k
  {
    if k > 0 {
      RemovesAll(e, k - 1, n);
      RemovesTupleLets(e.args[k - 1], DetupledAll(e, k - 1, n).1);
    }
  }

  lemma {:induction false} WrapRemoves(t: string, names: seq<string>, k: nat, body: Expr)
    requires k <= |names| && NoTupleLets(body)
    ensures NoTupleLets(Wrap(t, names, k, body))
  {
    if k > 0 {
      WrapRemoves(t, names, k - 1, body);
    }
  }

  // ---------------------------------------------------------------- the temporaries

  /** The temporaries that an expression binds, in the order in which they are made. */
  function Temporaries(e: Expr): seq<string>
    decreases e, 0
  {
    match e
    case Const(_) => []
    case Var(_) => []
    case Call(_, args) => TemporariesOf(e, |args|)
    case Lam(_, b) => Temporaries(b)
    case Let(p, rhs, b) =>
      if p.One? && IsTemporary(p.name) then [p.name] + Temporaries(b) + Temporaries(rhs)
      else Temporaries(rhs) + Temporaries(b)
    case If(c, t, f) => Temporaries(c) + Temporaries(t) + Temporaries(f)
    case Assert(c, b) => Temporaries(c) + Temporaries(b)
  }

  function TemporariesOf(e: Expr, k: nat): seq<string>
    requires e.Call? && k <= |e.args|
    decreases e, 0, k
  {
    if k == 0 then [] else TemporariesOf(e, k - 1) + Temporaries(e.args[k - 1])
  }

  function Numbered(m: nat, n: nat): seq<string>
    requires m <= n
  {
    seq(n - m, i requires 0 <= i => Temporary(m + 1 + i))
  }

  lemma {:induction false} NumberedJoin(l: nat, m: nat, n: nat)
    requires l <= m <= n
    ensures Numbered(l, m) + Numbered(m, n) == Numbered(l, n)
    ensures l < n ==> [Temporary(l + 1)] + Numbered(l + 1, n) == Numbered(l, n)
  {
    hide Temporary;
  }

  /** The result binds each temporary from the next number on exactly once, and no other. */
  lemma {:induction false} BindsNumbered(e: Expr, n: nat)
    requires Plain(e)
    ensures Temporaries(Detupled(e, n).0) == Numbered(n, Detupled(e, n).1)
    decreases e, 0
  {
    hide Numbered, Temporary, IsTemporary, AllDistinct, Wrap;
    NumberedNone(n);
    match e
    case Const(_) =>
    case Var(_) =>
    case Call(f, args) =>
      var r := DetupledAll(e, |args|, n);
      assert r.0[..|args|] == r.0;
      BindsNumberedAll(e, Call(f, r.0), |args|, n);
    case Lam(_, b) => BindsNumbered(b, n);
    case Let(One(x), rhs, b) =>
      BindsNumbered(rhs, n);
      BindsNumbered(b, Detupled(rhs, n).1);
      NumberedJoin(n, Detupled(rhs, n).1, Detupled(e, n).1);
    case Let(Many(xs), rhs, b) =>
      var s := Detupled(b, n + 1);
      BindsNumbered(b, n + 1);
      BindsNumbered(rhs, s.1);
      TupleTemporaries(xs, s.0, Detupled(rhs, s.1).0, n, s.1, Detupled(rhs, s.1).1);
    case If(c, t, f) =>
      var r := Detupled(c, n);
      var s := Detupled(t, r.1);
      BindsNumbered(c, n);
      BindsNumbered(t, r.1);
      BindsNumbered(f, s.1);
      NumberedJoin(n, r.1, s.1);
      NumberedJoin(n, s.1, Detupled(e, n).1);
    case Assert(c, b) =>
      BindsNumbered(c, n);
      BindsNumbered(b, Detupled(c, n).1);
      NumberedJoin(n, Detupled(c, n).1, Detupled(e, n).1);
  }

  lemma {:induction false} TupleTemporaries(xs: seq<string>, body: Expr, rhs: Expr, n: nat, mid: nat, end: nat)
    requires n + 1 <= mid <= end && forall i | 0 <= i < |xs| :: !IsTemporary(xs[i])
    requires Temporaries(body) == Numbered(n + 1, mid) && Temporaries(rhs) == Numbered(mid, end)
    ensures Temporaries(Let(One(Temporary(n + 1)), rhs, Wrap(Temporary(n + 1), xs, |xs|, body))) == Numbered(n, end)
  {
    hide Numbered, Temporary, IsTemporary, Wrap;
    var t := Temporary(n + 1);
    WrapTemporaries(t, xs, |xs|, body);
    TemporaryIs(n + 1);
    NumberedJoin(n + 1, mid, end);
    NumberedJoin(n, n + 1, end);
    assert [t] + Numbered(n + 1, mid) + Numbered(mid, end) == [t] + (Numbered(n + 1, mid) + Numbered(mid, end));
  }

  lemma {:induction false} NumberedNone(n: nat)
    ensures Numbered(n, n) == []
  {}

  lemma {:induction false} BindsNumberedAll(e: Expr, g: Expr, k: nat, n: nat)
    requires e.Call? && Plain(e) && k <= |e.args| && g.Call? && k <= |g.args| && g.args[..k] == DetupledAll(e, k, n).0
    ensures TemporariesOf(g, k) == Numbered(n, DetupledAll(e, k, n).1)
    decreases e, 0, k
  {
    hide Numbered, Temporaries, Plain, Detupled;
    NumberedNone(n);
    if k > 0 {
      var init := DetupledAll(e, k - 1, n);
      assert DetupledAll(e, k, n).0[..k - 1] == init.0;
      assert g.args[..k][..k - 1] == g.args[..k - 1];
      assert g.args[..k][k - 1] == g.args[k - 1];
      PlainArg(e, k - 1);
      BindsNumberedAll(e, g, k - 1, n);
      BindsNumbered(e.args[k - 1], init.1);
      NumberedJoin(n, init.1, DetupledAll(e, k, n).1);
    }
  }

  lemma {:induction false} WrapTemporaries(t: string, names: seq<string>, k: nat, body: Expr)
    requires k <= |names| && forall i | 0 <= i < |names| :: !IsTemporary(names[i])
    ensures Temporaries(Wrap(t, names, k, body)) == Temporaries(body)
  {
    hide IsTemporary, Get;
    if k > 0 {
      WrapTemporaries(t, names, k - 1, body);
      var c := Call(Get(k, |names|), [Var(t)]);
      assert TemporariesOf(c, 1) == [] by { assert TemporariesOf(c, 0) == []; }
    }
  }

  /** In particular all temporaries differ. */
  lemma {:induction false} TemporariesDistinct(e: Expr, n: nat)
    requires Plain(e)
    ensures AllDistinct(Temporaries(Detupled(e, n).0))
  {
    hide Plain, Detupled, Temporaries, Temporary;
    BindsNumbered(e, n);
    var ts := Numbered(n, Detupled(e, n).1);
    forall i, j | 0 <= i < j < |ts| ensures ts[i] != ts[j] {
      if ts[i] == ts[j] {
        TemporariesDiffer(n + 1 + i, n + 1 + j);
        assert false;
      }
    }
  }

  // ---------------------------------------------------------------- names and components written out

  /** A let that binds a tuple gives each name its component: the one of its place, counted from one, of as many as
      there are names. Other names keep their values. */
  lemma {:induction false} NamesAreComponents<V>(I: Interp<V>, env: map<string, V>, names: seq<string>, v: V, x: string)
    requires AllDistinct(names)
    ensures forall i | 0 <= i < |names| && names[i] == x ::
      Lookup(I, BindAll(I, env, names, |names|, v), x)
        == I.call("get$" + X.Decimal(i + 1) + "$" + X.Decimal(|names|), [v])
    ensures x !in names ==> Lookup(I, BindAll(I, env, names, |names|, v), x) == Lookup(I, env, x)
  {
    BindAllLookup(I, env, names, |names|, v, x);
    hide BindAll, Lookup;
  }

  lemma {:induction false} Numbers()
    ensures X.Decimal(1) == "1" && X.Decimal(2) == "2" && X.Decimal(1001) == "1001" && X.Decimal(1002) == "1002"
  {
    assert X.Decimal(1) == "1" && X.Decimal(0) == "0" && X.Decimal(2) == "2";
    assert X.Decimal(10) == "10" && X.Decimal(100) == "100";
    assert X.Decimal(1001) == X.Decimal(100) + "1" && X.Decimal(1002) == X.Decimal(100) + "2";
  }

  /** A pair is taken apart from its last component on, the first name innermost. */
  lemma {:induction false} PairIs(a: string, b: string, rhs: Expr, body: Expr, t: string)
    ensures Wrap(t, [a, b], 2, body)
      == Let(One(b), Call("get$2$2", [Var(t)]), Let(One(a), Call("get$1$2", [Var(t)]), body))
  {
    Numbers();
    hide X.Decimal;
    assert Get(1, 2) == "get$1$2" && Get(2, 2) == "get$2$2";
    assert Wrap(t, [a, b], 0, body) == body;
    assert Wrap(t, [a, b], 1, body) == Let(One(a), Call(Get(1, 2), [Var(t)]), body);
  }

  /** The example of the source: two pairs, one inside the other. */
  lemma {:induction false} ExampleDetupled(rhs: Expr, rhs': Expr)
    requires rhs == Call("tuple", [Var("a"), Var("a")]) && rhs' == Call("tuple", [Const(2.0), Const(3.0)])
    ensures var t, u := Var("detuple_lets$1001"), Var("detuple_lets$1002");
      Detupled(Let(Many(["b", "c"]), rhs, Let(Many(["d", "e"]), rhs', Var("d"))), 1000) == (
        Let(One(t.name), rhs, Let(One("c"), Call("get$2$2", [t]), Let(One("b"), Call("get$1$2", [t]),
          Let(One(u.name), rhs', Let(One("e"), Call("get$2$2", [u]), Let(One("d"), Call("get$1$2", [u]), Var("d"))))))),
        1002)
  {
    Numbers();
    hide X.Decimal, Wrap;
    assert Temporary(1001) == "detuple_lets$1001" && Temporary(1002) == "detuple_lets$1002";
    hide Temporary;
    CallOfLeaves(rhs, 1002);
    CallOfLeaves(rhs', 1002);
    var inner := Let(Many(["d", "e"]), rhs', Var("d"));
    TupleLetIs(inner, 1001);
    TupleLetIs(Let(Many(["b", "c"]), rhs, inner), 1000);
    PairIs("d", "e", rhs', Var("d"), Temporary(1002));
    PairIs("b", "c", rhs, Detupled(inner, 1001).0, Temporary(1001));
  }

  lemma {:induction false} CallOfLeaves(e: Expr, n: nat)
    requires e.Call? && |e.args| == 2 && forall i | 0 <= i < 2 :: e.args[i].Var? || e.args[i].Const?
    ensures Detupled(e, n) == (e, n)
  {
    assert Detupled(e.args[0], n) == (e.args[0], n) && Detupled(e.args[1], n) == (e.args[1], n);
    assert DetupledAll(e, 0, n) == ([], n);
    assert DetupledAll(e, 1, n).0 == [e.args[0]] && DetupledAll(e, 1, n).1 == n;
    assert DetupledAll(e, 2, n).0 == e.args && DetupledAll(e, 2, n).1 == n;
  }

  // ---------------------------------------------------------------- the pass

  /** A let that binds several names occurs in the expression. */
  predicate HasTupleLet(e: Expr) {
    match e
    case Const(_) => false
    case Var(_) => false
    case Call(_, args) => exists i :: 0 <= i < |args| && HasTupleLet(args[i])
    case Lam(_, b) => HasTupleLet(b)
    case Let(p, rhs, b) => (p.Many? && p.names != []) || HasTupleLet(rhs) || HasTupleLet(b)
    case If(c, t, f) => HasTupleLet(c) || HasTupleLet(t) || HasTupleLet(f)
    case Assert(c, b) => HasTupleLet(c) || HasTupleLet(b)
  }

  /** In a result there is none. */
  lemma {:induction false} NoneLeft(e: Expr)
    requires NoTupleLets(e)
    ensures !HasTupleLet(e)
  {
    match e
    case Const(_) =>
    case Var(_) =>
    case Call(_, args) =>
      forall i | 0 <= i < |args| ensures !HasTupleLet(args[i]) { NoneLeft(args[i]); }
    case Lam(_, b) => NoneLeft(b);
    case Let(_, rhs, b) =>
      NoneLeft(rhs);
      NoneLeft(b);
    case If(c, t, f) =>
      NoneLeft(c);
      NoneLeft(t);
      NoneLeft(f);
    case Assert(c, b) =>
      NoneLeft(c);
      NoneLeft(b);
  }

  lemma {:induction false} TupleLetIs(e: Expr, n: nat)
    requires e.Let? && e.vars.Many?
    ensures var s := Detupled(e.body, n + 1);
      var r := Detupled(e.rhs, s.1);
      Detupled(e, n) == (Let(One(Temporary(n + 1)), r.0, Wrap(Temporary(n + 1), e.vars.names, |e.vars.names|, s.0)),
        r.1)
    ensures HasTupleLet(e) <==> e.vars.names != [] || HasTupleLet(e.rhs) || HasTupleLet(e.body)
  {
    hide Wrap, Temporary;
  }

  /** What the pass is given. */
  datatype Input = Definition(name: string, body: Expr) | External(name: string) | Generated(name: string) |
    Rule(name: string) | Expression(e: Expr)

  /** Without assertions the source returns nothing for an input of unknown kind. */
  datatype Outcome = AttributeError | AssertionError | Nothing | Done(output: Input)

  class Pass {
    /** The global counter of the source. */
    var varNumber: nat
    /** Whether assertions are checked: `StructuredName.from_str` asserts that a name has no `$`. */
    const assertions: bool

    constructor (assertions: bool)
      ensures varNumber == 1000 && this.assertions == assertions
    {
      varNumber := 1000;
      this.assertions := assertions;
    }

    /** `Call(f"get${k+1}${n}", ...)`: none is the AssertionError. */
    method MakeGet(k: nat, n: nat, t: string) returns (r: Option<Expr>)
      ensures r == if assertions then None else Some(Call(Get(k, n), [Var(t)]))
    {
      var name := Get(k, n);
      assert name[3] == '$';
      if assertions && '$' in name {
        return None;
      }
      r := Some(Call(name, [Var(t)]));
    }

    /** `detuple_lets`, for expressions. With assertions it fails on every expression that has a tuple let. */
    method Detuple(e: Expr) returns (r: Option<Expr>)
      modifies this`varNumber
      ensures r.None? <==> assertions && HasTupleLet(e)
      ensures r.Some? ==> r.value == Detupled(e, old(varNumber)).0 && varNumber == Detupled(e, old(varNumber)).1
      decreases e
    {
      hide Wrap, Get;
      match e {
        case Const(_) => return Some(e);
        case Var(_) => return Some(e);
        case Call(f, args) =>
          var done: seq<Expr> := [];
          ghost var n := varNumber;
          for i := 0 to |args|
            invariant done == DetupledAll(e, i, n).0 && varNumber == DetupledAll(e, i, n).1
            invariant assertions ==> forall j | 0 <= j < i :: !HasTupleLet(args[j])
          {
            var a := Detuple(args[i]);
            if a.None? { return None; }
            done := done + [a.value];
          }
          r := Some(Call(f, done));
        case Lam(x, b) =>
          var s := Detuple(b);
          if s.None? { return None; }
          r := Some(Lam(x, s.value));
        case Let(One(x), rhs, b) =>
          var s := Detuple(rhs);
          if s.None? { return None; }
          var u := Detuple(b);
          if u.None? { return None; }
          r := Some(Let(One(x), s.value, u.value));
        case Let(Many(xs), rhs, b) =>
          r := DetupleTuple(e);
        case If(c, t, f) =>
          var s := Detuple(c);
          if s.None? { return None; }
          var u := Detuple(t);
          if u.None? { return None; }
          var v := Detuple(f);
          if v.None? { return None; }
          r := Some(If(s.value, u.value, v.value));
        case Assert(c, b) =>
          var s := Detuple(c);
          if s.None? { return None; }
          var u := Detuple(b);
          if u.None? { return None; }
          r := Some(Assert(s.value, u.value));
      }
    }

    /** `detuple_lets`. A definition is an AttributeError: its type is looked up by a name that it does not have. Rules
        and generated definitions are of unknown kind. */
    method DetupleInput(d: Input) returns (r: Outcome)
      modifies this`varNumber
      ensures r.AttributeError? <==> d.Definition?
      ensures r.AssertionError? <==> assertions && (d.Rule? || d.Generated? || (d.Expression? && HasTupleLet(d.e)))
      ensures r.Nothing? <==> !assertions && (d.Rule? || d.Generated?)
      ensures d.External? ==> r == Done(d)
      ensures r.Done? && d.Expression? ==> r.output == Expression(Detupled(d.e, old(varNumber)).0)
      ensures !d.Expression? ==> varNumber == old(varNumber)
    {
      match d
      case Definition(_, _) => return AttributeError;
      case External(_) => return Done(d);
      case Generated(_) => return if assertions then AssertionError else Nothing;
      case Rule(_) => return if assertions then AssertionError else Nothing;
      case Expression(e) =>
        var s := Detuple(e);
        r := if s.None? then AssertionError else Done(Expression(s.value));
    }

    /** The case of a tuple let. */
    method DetupleTuple(e: Expr) returns (r: Option<Expr>)
      requires e.Let? && e.vars.Many?
      modifies this`varNumber
      ensures r.None? <==> assertions && HasTupleLet(e)
      ensures r.Some? ==> r.value == Detupled(e, old(varNumber)).0 && varNumber == Detupled(e, old(varNumber)).1
      decreases e, 0
    {
      hide Get, Detupled, HasTupleLet, Temporary;
      TupleLetIs(e, varNumber);
      varNumber := varNumber + 1;
      var t := Temporary(varNumber);
      var inner := Detuple(e.body);
      if inner.None? { return None; }
      var body := inner.value;
      var names := e.vars.names;
      ghost var m := varNumber;
      for k := 0 to |names|
        invariant body == Wrap(t, names, k, inner.value)
        invariant varNumber == m && (assertions ==> k == 0)
      {
        var get := MakeGet(k + 1, |names|, t);
        if get.None? { return None; }
        body := Let(One(names[k]), get.value, body);
      }
      var rhs := Detuple(e.rhs);
      if rhs.None? { return None; }
      r := Some(Let(One(t), rhs.value, body));
    }
  }
}
