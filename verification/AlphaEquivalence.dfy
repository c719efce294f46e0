/** `__eq__` on expressions decides alpha-equivalence: equality of the forms in which bound variables
    have lost their names. */
module AlphaEquivalence {
  import opened Expressions

  /** The nameless form: a bound variable is the number of binders out to its own. The type of the
      argument of a lambda is kept. */
  datatype Nameless =
    | NConstant(value: real)
    | NFree(name: string)
    | NBound(distance: nat)
    | NNode(op: Op, arg: Option<Type>, children: seq<Nameless>)

  /** What a variable means below the binders of `ctx`, outermost first. */
  function Look(ctx: seq<string>, x: string): (n: Nameless)
    ensures n.NFree? || n.NBound?
  {
    if ctx == [] then NFree(x)
    else if ctx[|ctx| - 1] == x then NBound(1)
    else Lift(Look(ctx[..|ctx| - 1], x))
  }

  function Lift(n: Nameless): Nameless {
    if n.NBound? then NBound(n.distance + 1) else n
  }

  /** The binders around child `i`. */
  function Below(e: Expr, i: nat, ctx: seq<string>): seq<string> {
    if Binds(e, i) then ctx + [BoundVar(e).name] else ctx
  }

  function ArgType(e: Expr): Option<Type> {
    if Binder(e) && e.op.Lam? then BoundVar(e).typ else None
  }

  function Strip(e: Expr, ctx: seq<string>): Nameless
    decreases e, 1
  {
    match e
    case Constant(v) => NConstant(v)
    case Variable(x, _) => Look(ctx, x)
    case Node(op, cs) => NNode(op, ArgType(e), seq(|cs|, i requires 0 <= i < |cs| => Strip(cs[i], Below(e, i, ctx))))
  }

  /** The nameless form of an expression on its own. */
  function Alpha(e: Expr): Nameless {
    Strip(e, [])
  }

  lemma {:induction false} LookPush(ctx: seq<string>, b: string, x: string)
    ensures Look(ctx + [b], x) == if x == b then NBound(1) else Lift(Look(ctx, x))
    ensures x != b ==> Look(ctx + [b], x) != NBound(1)
  {
    assert (ctx + [b])[..|ctx|] == ctx;
    LookPositive(ctx, x);
  }

  lemma {:induction false} LookPositive(ctx: seq<string>, x: string)
    ensures Look(ctx, x).NBound? ==> 1 <= Look(ctx, x).distance <= |ctx| && ctx[|ctx| - Look(ctx, x).distance] == x
    ensures Look(ctx, x).NFree? ==> Look(ctx, x) == NFree(x)
  {
    if ctx != [] && ctx[|ctx| - 1] != x {
      LookPositive(ctx[..|ctx| - 1], x);
    }
  }

  /** No two names mean the same. */
  lemma {:induction false} LookInjective(ctx: seq<string>, x: string, y: string)
    requires Look(ctx, x) == Look(ctx, y)
    ensures x == y
  {
    LookPositive(ctx, x);
    LookPositive(ctx, y);
  }

  lemma {:induction false} StripNode(e: Expr, f: Expr, c: seq<string>, d: seq<string>)
    requires e.Node? && f.Node? && e.op == f.op && |e.children| == |f.children| && ArgType(e) == ArgType(f)
    ensures Strip(e, c) == Strip(f, d) <==> forall i: nat | i < |e.children| ::
      Strip(e.children[i], Below(e, i, c)) == Strip(f.children[i], Below(f, i, d))
  {
    hide Below, ArgType, Look;
    var s, t := Strip(e, c).children, Strip(f, d).children;
    forall i: nat | i < |e.children|
      ensures s[i] == Strip(e.children[i], Below(e, i, c)) && t[i] == Strip(f.children[i], Below(f, i, d))
    {}
  }

  lemma {:induction false} StripKind(e: Expr, f: Expr, c: seq<string>, d: seq<string>)
    requires Strip(e, c) == Strip(f, d)
    ensures e.Node? <==> f.Node?
    ensures e.Constant? <==> f.Constant?
    ensures e.Node? ==> e.op == f.op && |e.children| == |f.children| && ArgType(e) == ArgType(f)
  {
    hide Below, ArgType, Look;
    if e.Node? && f.Node? {
      assert |Strip(e, c).children| == |e.children| && |Strip(f, d).children| == |f.children|;
    }
  }

  /** Only the meaning of its free variables matters to a nameless form. */
  lemma {:induction false} StripAgree(e: Expr, c: seq<string>, d: seq<string>)
    ensures Strip(e, c) == Strip(e, d) <==> Agree(e, c, d)
    decreases e
  {
    hide Look, ArgType, BoundIn, Strip, Below, FreeVars;
    match e
    case Constant(_) => StripLeaf(e, c); StripLeaf(e, d);
    case Variable(_, _) => StripLeaf(e, c); StripLeaf(e, d);
    case Node(_, cs) =>
      StripNode(e, e, c, d);
      forall i: nat | i < |cs|
        ensures Strip(cs[i], Below(e, i, c)) == Strip(cs[i], Below(e, i, d)) <==> ChildAgrees(e, i, c, d)
      {
        StripAgree(cs[i], Below(e, i, c), Below(e, i, d));
        ChildAgreesBelow(e, i, c, d);
      }
      AllChildrenAgree(e, c, d);
  }

  /** Both contexts give the same meaning to the free names. */
  predicate Agree(e: Expr, c: seq<string>, d: seq<string>) {
    forall x | x in FreeVars(e) :: Look(c, x) == Look(d, x)
  }

  predicate ChildAgrees(e: Expr, i: nat, c: seq<string>, d: seq<string>)
    requires e.Node? && i < |e.children|
  {
    forall x | x in FreeVars(e.children[i]) && !BoundIn(e, i, x) :: Look(c, x) == Look(d, x)
  }

  lemma {:induction false} ChildAgreesBelow(e: Expr, i: nat, c: seq<string>, d: seq<string>)
    requires e.Node? && i < |e.children|
    ensures ChildAgrees(e, i, c, d) <==> Agree(e.children[i], Below(e, i, c), Below(e, i, d))
  {
    hide Look, BoundIn, Below, FreeVars;
    if ChildAgrees(e, i, c, d) {
      forall x | x in FreeVars(e.children[i]) ensures Look(Below(e, i, c), x) == Look(Below(e, i, d), x) {
        LookBelow(e, i, c, d, x);
      }
    }
    if Agree(e.children[i], Below(e, i, c), Below(e, i, d)) {
      forall x | x in FreeVars(e.children[i]) && !BoundIn(e, i, x) ensures Look(c, x) == Look(d, x) {
        LookBelow(e, i, c, d, x);
      }
    }
  }

  lemma {:induction false} AllChildrenAgree(e: Expr, c: seq<string>, d: seq<string>)
    requires e.Node?
    ensures Agree(e, c, d) <==> forall i: nat | i < |e.children| :: ChildAgrees(e, i, c, d)
  {
    hide Look, BoundIn, FreeVars;
    if forall i: nat | i < |e.children| :: ChildAgrees(e, i, c, d) {
      forall x | x in FreeVars(e) ensures Look(c, x) == Look(d, x) {
        var i := FreeSomewhere(e, x);
        assert ChildAgrees(e, i, c, d);
      }
    }
    if Agree(e, c, d) {
      forall i: nat | i < |e.children| ensures ChildAgrees(e, i, c, d) {
        forall x | x in FreeVars(e.children[i]) && !BoundIn(e, i, x) ensures Look(c, x) == Look(d, x) {
          FreeChild(e, i, x);
        }
      }
    }
  }

  lemma {:induction false} StripLeaf(e: Expr, c: seq<string>)
    ensures e.Constant? ==> Strip(e, c) == NConstant(e.value) && FreeVars(e) == {}
    ensures e.Variable? ==> Strip(e, c) == Look(c, e.name) && FreeVars(e) == {e.name}
  {}

  lemma {:induction false} LookBelow(e: Expr, i: nat, c: seq<string>, d: seq<string>, x: string)
    ensures Look(Below(e, i, c), x) == Look(Below(e, i, d), x) <==> (BoundIn(e, i, x) || Look(c, x) == Look(d, x))
  {
    if Binds(e, i) {
      LookPush(c, BoundVar(e).name, x);
      LookPush(d, BoundVar(e).name, x);
    }
  }

  // ---------------------------------------------------------------- the mapping of free variables

  /** Names mean the same in the two contexts, as far as `m` relates them. */
  predicate Compatible(c: seq<string>, d: seq<string>, m: map<string, string>) {
    forall x | x in m :: Look(c, x) == Look(d, m[x])
  }

  /** The first `n` of the children numbered in `which` have equal nameless forms. */
  predicate SameSome(e: Expr, f: Expr, which: seq<nat>, c: seq<string>, d: seq<string>, n: nat)
    requires Twins(e, f) && InRange(e, which) && n <= |which|
  {
    forall k | 0 <= k < n :: Strip(e.children[which[k]], c) == Strip(f.children[which[k]], d)
  }

  /** Nodes of one shape. */
  predicate Twins(e: Expr, f: Expr) {
    Valid(e) && Valid(f) && e.Node? && f.Node? && e.op == f.op && |e.children| == |f.children|
  }

  predicate InRange(e: Expr, which: seq<nat>)
    requires e.Node?
  {
    forall k | 0 <= k < |which| :: which[k] < |e.children|
  }

  predicate FreeInSome(e: Expr, which: seq<nat>, n: nat, x: string)
    requires e.Node? && InRange(e, which) && n <= |which|
  {
    exists k :: 0 <= k < n && x in FreeVars(e.children[which[k]])
  }

  lemma {:induction false} CompatibleMerge(c: seq<string>, d: seq<string>, m: map<string, string>,
      m': map<string, string>)
    requires forall x | x in m && x in m' :: m[x] == m'[x]
    ensures Compatible(c, d, m + m') <==> Compatible(c, d, m) && Compatible(c, d, m')
  {
    hide Look;
    if Compatible(c, d, m + m') {
      forall x | x in m ensures Look(c, x) == Look(d, m[x]) { assert x in m + m'; }
      forall x | x in m' ensures Look(c, x) == Look(d, m'[x]) { assert x in m + m'; }
    }
  }

  lemma {:induction false} NotCompatible(c: seq<string>, d: seq<string>, m: map<string, string>,
      m': map<string, string>, x: string)
    requires x in m && x in m' && m[x] != m'[x]
    ensures !(Compatible(c, d, m) && Compatible(c, d, m'))
  {
    hide Look;
    if Look(d, m[x]) == Look(d, m'[x]) {
      LookInjective(d, m[x], m'[x]);
    }
  }

  /** The mapping of a binder's scope, with its variable removed: nothing else may map to the other variable. */
  lemma {:induction false} CompatibleBelow(c: seq<string>, d: seq<string>, b: string, b': string,
      m: map<string, string>)
    requires b in m && m[b] == b'
    ensures Compatible(c + [b], d + [b'], m) <==> b' !in (m - {b}).Values && Compatible(c, d, m - {b})
  {
    hide Look;
    LookPush(c, b, b);
    LookPush(d, b', b');
    forall x ensures Look(c + [b], x) == if x == b then NBound(1) else Lift(Look(c, x)) { LookPush(c, b, x); }
    forall x ensures Look(d + [b'], x) == if x == b' then NBound(1) else Lift(Look(d, x)) { LookPush(d, b', x); }
    if Compatible(c + [b], d + [b'], m) {
      forall x | x in m - {b} ensures m[x] != b' && Look(c, x) == Look(d, m[x]) {
        LookPush(c, b, x);
      }
    }
    if b' !in (m - {b}).Values && Compatible(c, d, m - {b}) {
      forall x | x in m ensures Look(c + [b], x) == Look(d + [b'], m[x]) {
        if x != b {
          assert x in m - {b} && (m - {b})[x] in (m - {b}).Values;
        }
      }
    }
  }

  /** The children of a binder that its variable reaches, and the others. */
  predicate Partition(e: Expr, bound: seq<nat>, unbound: seq<nat>) {
    && e.Node? && InRange(e, bound) && InRange(e, unbound)
    && (forall k | 0 <= k < |bound| :: Binds(e, bound[k])) && (forall k | 0 <= k < |unbound| :: !Binds(e, unbound[k]))
    && (forall i: nat | i < |e.children| :: i in bound || i in unbound)
  }

  function Push(e: Expr, c: seq<string>): seq<string> {
    if Binder(e) then c + [BoundVar(e).name] else c
  }

  lemma {:induction false} TwinsBind(e: Expr, f: Expr, i: nat)
    requires Twins(e, f)
    ensures (Binds(e, i) <==> Binds(f, i)) && (Binder(e) <==> Binder(f)) && (Binder(e) <==> IsBinder(e.op))
  {}

  lemma {:induction false} TwinsBelow(e: Expr, f: Expr, i: nat, c: seq<string>, d: seq<string>)
    requires Twins(e, f)
    ensures Below(e, i, c) == (if Binds(e, i) then Push(e, c) else c)
    ensures Below(f, i, d) == (if Binds(e, i) then Push(f, d) else d)
  {
    TwinsBind(e, f, i);
    hide Twins, Valid;
  }

  lemma {:induction false} StripTwins(e: Expr, f: Expr, bound: seq<nat>, unbound: seq<nat>, c: seq<string>,
      d: seq<string>)
    requires Twins(e, f) && ArgType(e) == ArgType(f) && Partition(e, bound, unbound)
    ensures Strip(e, c) == Strip(f, d) <==>
      SameSome(e, f, bound, Push(e, c), Push(f, d), |bound|) && SameSome(e, f, unbound, c, d, |unbound|)
  {
    hide Binds, Push, Strip, ArgType, Below;
    StripNode(e, f, c, d);
    forall i: nat | i < |e.children|
      ensures Below(e, i, c) == (if Binds(e, i) then Push(e, c) else c)
      ensures Below(f, i, d) == (if Binds(e, i) then Push(f, d) else d)
    {
      TwinsBelow(e, f, i, c, d);
    }
    if SameSome(e, f, bound, Push(e, c), Push(f, d), |bound|) && SameSome(e, f, unbound, c, d, |unbound|) {
      forall i: nat | i < |e.children|
        ensures Strip(e.children[i], Below(e, i, c)) == Strip(f.children[i], Below(f, i, d)) {
        if i in bound {
          var k :| 0 <= k < |bound| && bound[k] == i;
          assert Strip(e.children[bound[k]], Push(e, c)) == Strip(f.children[bound[k]], Push(f, d));
        } else {
          var k :| 0 <= k < |unbound| && unbound[k] == i;
          assert Strip(e.children[unbound[k]], c) == Strip(f.children[unbound[k]], d);
        }
      }
    }
  }

  lemma {:induction false} FreeOfPartition(e: Expr, bound: seq<nat>, unbound: seq<nat>, x: string)
    requires Partition(e, bound, unbound)
    ensures x in FreeVars(e) <==>
      (FreeInSome(e, bound, |bound|, x) && x != BoundName(e)) || FreeInSome(e, unbound, |unbound|, x)
  {
    hide FreeVars, Binder;
    if x in FreeVars(e) {
      var i := FreeSomewhere(e, x);
      if i in bound {
        var k :| 0 <= k < |bound| && bound[k] == i;
      } else {
        var k :| 0 <= k < |unbound| && unbound[k] == i;
      }
    }
    if FreeInSome(e, bound, |bound|, x) && x != BoundName(e) {
      var k :| 0 <= k < |bound| && x in FreeVars(e.children[bound[k]]);
      FreeChild(e, bound[k], x);
    }
    if FreeInSome(e, unbound, |unbound|, x) {
      var k :| 0 <= k < |unbound| && x in FreeVars(e.children[unbound[k]]);
      FreeChild(e, unbound[k], x);
    }
  }

  function BoundName(e: Expr): string {
    if Binder(e) then BoundVar(e).name else ""
  }

  // ---------------------------------------------------------------- the methods

  /** The lists `bound_pairs` and `unbound_pairs`, as child numbers. */
  method SplitChildren(e: Expr) returns (bound: seq<nat>, unbound: seq<nat>)
    requires e.Node?
    ensures Partition(e, bound, unbound)
    ensures Binder(e) ==> BoundIndex(e.op) in bound
    ensures !Binder(e) ==> bound == []
  {
    hide Binder, BoundIndex;
    bound, unbound := [], [];
    for i := 0 to |e.children|
      invariant InRange(e, bound) && InRange(e, unbound)
      invariant forall k | 0 <= k < |bound| :: Binds(e, bound[k])
      invariant forall k | 0 <= k < |unbound| :: !Binds(e, unbound[k])
      invariant forall j: nat | j < i :: j in bound || j in unbound
      invariant !Binder(e) ==> bound == []
    {
      if Binds(e, i) {
        bound := bound + [i];
      } else {
        unbound := unbound + [i];
      }
    }
    if Binder(e) {
      assert Binds(e, BoundIndex(e.op));
      BinderRange(e);
    }
  }

  lemma {:induction false} BinderRange(e: Expr)
    requires Binder(e)
    ensures BoundIndex(e.op) < |e.children|
  {}

  /** `add_child_mappings`: extends `combined` by the mappings of the chosen children, unless they disagree. */
  method AddChildMappings(self: Expr, other: Expr, which: seq<nat>, combined: map<string, string>)
    returns (ok: bool, result: map<string, string>)
    requires Twins(self, other) && InRange(self, which)
    ensures ok ==> forall x :: x in result <==> x in combined || FreeInSome(self, which, |which|, x)
    ensures ok ==> MapsVariables(self, other, which, result, |which|)
    ensures ok ==> Extends(self, other, which, |which|, combined, result)
    ensures !ok ==> Clash(self, other, which, combined)
    decreases NumNodes(self), 0, 0
  {
    hide Strip, Look, FreeVars, Compatible, SameSome, FreeInSome, MapsVariables, NumNodes, NodesBefore, Valid,
      Extends, Clash;
    result := combined;
    ExtendsNone(self, other, which, combined);
    NoneYet(self, other, which);
    for n := 0 to |which|
      invariant forall x :: x in result <==> x in combined || FreeInSome(self, which, n, x)
      invariant MapsVariables(self, other, which, result, n)
      invariant Extends(self, other, which, n, combined, result)
    {
      var c1, c2 := self.children[which[n]], other.children[which[n]];
      ValidChildren(self, which[n]);
      ValidChildren(other, which[n]);
      OneMore(self, other, which, n);
      var cd := GetVarMapping(c1, c2);
      if cd.None? {
        ExtendsFail(self, other, which, n, combined, result);
        return false, result;
      }
      if exists v | v in result.Keys * cd.value.Keys :: result[v] != cd.value[v] {
        var v :| v in result.Keys * cd.value.Keys && result[v] != cd.value[v];
        forall c, d | Compatible(c, d, result) ensures Strip(c1, c) != Strip(c2, d) {
          NotCompatible(c, d, result, cd.value, v);
        }
        ExtendsFail(self, other, which, n, combined, result);
        return false, result;
      }
      ExtendsStep(self, other, which, n, combined, result, cd.value);
      MapsOneMore(self, other, which, n, result, cd.value);
      result := result + cd.value;
    }
    ok := true;
  }

  /** `result` says what `m` says and that the first `n` chosen children are alike. */
  ghost predicate Extends(e: Expr, f: Expr, which: seq<nat>, n: nat, m: map<string, string>,
      result: map<string, string>)
    requires Twins(e, f) && InRange(e, which) && n <= |which|
  {
    forall c, d :: Compatible(c, d, result) <==> Compatible(c, d, m) && SameSome(e, f, which, c, d, n)
  }

  /** In contexts that agree with `m` the chosen children are never all alike. */
  ghost predicate Clash(e: Expr, f: Expr, which: seq<nat>, m: map<string, string>)
    requires Twins(e, f) && InRange(e, which)
  {
    forall c, d :: !(Compatible(c, d, m) && SameSome(e, f, which, c, d, |which|))
  }

  lemma {:induction false} ExtendsNone(e: Expr, f: Expr, which: seq<nat>, m: map<string, string>)
    requires Twins(e, f) && InRange(e, which)
    ensures Extends(e, f, which, 0, m, m)
  {
    hide Strip, Compatible, Valid;
  }

  lemma {:induction false} ExtendsStep(e: Expr, f: Expr, which: seq<nat>, n: nat, m: map<string, string>,
      result: map<string, string>, cd: map<string, string>)
    requires Twins(e, f) && InRange(e, which) && n < |which| && Extends(e, f, which, n, m, result)
    requires forall v | v in result.Keys * cd.Keys :: result[v] == cd[v]
    requires forall c, d :: Strip(e.children[which[n]], c) == Strip(f.children[which[n]], d) <==> Compatible(c, d, cd)
    ensures Extends(e, f, which, n + 1, m, result + cd)
  {
    hide Strip, Compatible, SameSome, Twins;
    forall c, d ensures Compatible(c, d, result + cd) <==> Compatible(c, d, m) && SameSome(e, f, which, c, d, n + 1) {
      CompatibleMerge(c, d, result, cd);
      SameOneMore(e, f, which, c, d, n);
    }
  }

  lemma {:induction false} ExtendsFail(e: Expr, f: Expr, which: seq<nat>, n: nat, m: map<string, string>,
      result: map<string, string>)
    requires Twins(e, f) && InRange(e, which) && n < |which| && Extends(e, f, which, n, m, result)
    requires forall c, d ::
      !(Compatible(c, d, result) && Strip(e.children[which[n]], c) == Strip(f.children[which[n]], d))
    ensures Clash(e, f, which, m)
  {
    hide Strip, Compatible, SameSome, Twins;
    forall c, d ensures !(Compatible(c, d, m) && SameSome(e, f, which, c, d, |which|)) {
      SameOneMore(e, f, which, c, d, n);
    }
  }

  lemma {:induction false} SameOneMore(e: Expr, f: Expr, which: seq<nat>, c: seq<string>, d: seq<string>, n: nat)
    requires Twins(e, f) && InRange(e, which) && n < |which|
    ensures SameSome(e, f, which, c, d, n + 1) <==>
      SameSome(e, f, which, c, d, n) && Strip(e.children[which[n]], c) == Strip(f.children[which[n]], d)
    ensures SameSome(e, f, which, c, d, |which|) ==> SameSome(e, f, which, c, d, n + 1)
  {
    hide Strip, Valid;
  }

  lemma {:induction false} NoneYet(e: Expr, f: Expr, which: seq<nat>)
    requires Twins(e, f) && InRange(e, which)
    ensures forall x :: !FreeInSome(e, which, 0, x)
    ensures forall m :: MapsVariables(e, f, which, m, 0)
  {
    hide Twins, Valid, Strip, FreeVars;
  }

  lemma {:induction false} OneMore(e: Expr, f: Expr, which: seq<nat>, n: nat)
    requires Twins(e, f) && InRange(e, which) && n < |which|
    ensures forall x ::
      FreeInSome(e, which, n + 1, x) <==> FreeInSome(e, which, n, x) || x in FreeVars(e.children[which[n]])
  {
    hide Valid, Strip, FreeVars;
  }

  lemma {:induction false} MapsOneMore(e: Expr, f: Expr, which: seq<nat>, n: nat, m: map<string, string>,
      cd: map<string, string>)
    requires Twins(e, f) && InRange(e, which) && n < |which| && MapsVariables(e, f, which, m, n)
    requires forall v | v in m.Keys * cd.Keys :: m[v] == cd[v]
    requires e.children[which[n]].Variable? && f.children[which[n]].Variable? ==>
      cd == map[e.children[which[n]].name := f.children[which[n]].name]
    ensures MapsVariables(e, f, which, m + cd, n + 1)
  {
    hide Valid;
  }

  /** Variables among the chosen children are mapped to their counterparts. */
  predicate MapsVariables(self: Expr, other: Expr, which: seq<nat>, m: map<string, string>, n: nat)
    requires Twins(self, other) && InRange(self, which) && n <= |which|
  {
    forall k | 0 <= k < n && self.children[which[k]].Variable? && other.children[which[k]].Variable? ::
      self.children[which[k]].name in m && m[self.children[which[k]].name] == other.children[which[k]].name
  }

  /** `_get_var_mapping`: the free variables of `self` as renamed in `other`. In any contexts the nameless
      forms are equal exactly when a mapping exists that the contexts agree with. The choice of `shared`
      stands for two references to one object. */
  method GetVarMapping(self: Expr, other: Expr) returns (r: Option<map<string, string>>)
    requires Valid(self) && Valid(other)
    ensures r.Some? ==> r.value.Keys == FreeVars(self)
    ensures self.Variable? && other.Variable? ==> r == Some(map[self.name := other.name])
    ensures forall c, d :: Strip(self, c) == Strip(other, d) <==> r.Some? && Compatible(c, d, r.value)
    decreases NumNodes(self), 1, 0
  {
    hide Strip, Look, FreeVars, Compatible, NumNodes, NodesBefore, Valid;
    var shared: bool := *;
    if shared && self == other {
      r := Some(map v | v in FreeVars(self) :: v);
      forall c, d ensures Strip(self, c) == Strip(other, d) <==> Compatible(c, d, r.value) {
        SharedCompatible(self, c, d, r.value);
      }
      MappingOfVariable(self, r.value);
      return;
    }
    if self.Node? && other.Node? {
      r := GetVarMappingNodes(self, other);
    } else {
      LeafVars(self);
      r := if self.Constant? && other.Constant? && self.value == other.value then Some(map[])
           else if self.Variable? && other.Variable? then Some(map[self.name := other.name])
           else None;
      forall c, d ensures Strip(self, c) == Strip(other, d) <==> r.Some? && Compatible(c, d, r.value) {
        LeafCompatible(self, other, c, d);
      }
    }
  }

  /** The rest of `_get_var_mapping`, for two operations. */
  method GetVarMappingNodes(self: Expr, other: Expr) returns (r: Option<map<string, string>>)
    requires self.Node? && other.Node? && Valid(self) && Valid(other)
    ensures r.Some? ==> r.value.Keys == FreeVars(self)
    ensures forall c, d :: Strip(self, c) == Strip(other, d) <==> r.Some? && Compatible(c, d, r.value)
    decreases NumNodes(self), 0, 1
  {
    hide Strip, Look, FreeVars, Compatible, SameSome, FreeInSome, MapsVariables, NumNodes, NodesBefore, Valid, Twins,
      Binder, Binds, ArgType, BoundIndex;
    if self.op != other.op || |self.children| != |other.children| || (self.op.Lam? && ArgType(self) != ArgType(other)) {
      forall c, d ensures Strip(self, c) != Strip(other, d) { StripUnlike(self, other, c, d); }
      return None;
    }
    TwinNodes(self, other);
    var bound, unbound := SplitChildren(self);
    forall c, d ensures Strip(self, c) == Strip(other, d) <==>
      SameSome(self, other, bound, Push(self, c), Push(other, d), |bound|)
        && SameSome(self, other, unbound, c, d, |unbound|)
    {
      StripTwins(self, other, bound, unbound, c, d);
    }
    forall x ensures x in FreeVars(self) <==>
      (FreeInSome(self, bound, |bound|, x) && x != BoundName(self)) || FreeInSome(self, unbound, |unbound|, x)
    {
      FreeOfPartition(self, bound, unbound, x);
    }
    EmptyCompatible();
    var ok, combined := AddChildMappings(self, other, bound, map[]);
    if !ok {
      return None;
    }
    NoneYet(self, other, bound);
    if Binder(self) {
      var b, b' := BoundVar(self).name, BoundVar(other).name;
      MapsBound(self, other, bound, combined);
      assert b in combined && combined[b] == b';
      forall c, d ensures Compatible(c + [b], d + [b'], combined)
        <==> b' !in (combined - {b}).Values && Compatible(c, d, combined - {b}) {
        CompatibleBelow(c, d, b, b', combined);
      }
      combined := combined - {b};
      if b' in combined.Values {
        return None;
      }
    }
    ok, combined := AddChildMappings(self, other, unbound, combined);
    if !ok {
      return None;
    }
    r := Some(combined);
    assert forall x :: x in r.value.Keys <==> x in FreeVars(self);
  }

  lemma {:induction false} EmptyCompatible()
    ensures forall c, d :: Compatible(c, d, map[])
  {}

  lemma {:induction false} MapsBound(e: Expr, f: Expr, bound: seq<nat>, m: map<string, string>)
    requires Twins(e, f) && Binder(e) && Binder(f) && InRange(e, bound) && BoundIndex(e.op) in bound
    requires MapsVariables(e, f, bound, m, |bound|)
    ensures BoundVar(e).name in m && m[BoundVar(e).name] == BoundVar(f).name
  {
    var k :| 0 <= k < |bound| && bound[k] == BoundIndex(e.op);
  }

  lemma {:induction false} TwinNodes(e: Expr, f: Expr)
    requires e.Node? && f.Node? && Valid(e) && Valid(f)
    requires !(e.op != f.op || |e.children| != |f.children| || (e.op.Lam? && ArgType(e) != ArgType(f)))
    ensures Twins(e, f) && ArgType(e) == ArgType(f) && (Binder(e) <==> Binder(f))
  {}

  lemma {:induction false} StripUnlike(e: Expr, f: Expr, c: seq<string>, d: seq<string>)
    requires e.Node? && f.Node?
    requires e.op != f.op || |e.children| != |f.children| || (e.op.Lam? && ArgType(e) != ArgType(f))
    ensures Strip(e, c) != Strip(f, d)
  {
    hide ArgType, Strip;
    if Strip(e, c) == Strip(f, d) {
      StripKind(e, f, c, d);
      assert false;
    }
  }

  lemma {:induction false} LeafVars(e: Expr)
    ensures FreeVars(e) == if e.Constant? then {} else if e.Variable? then {e.name} else FreeVars(e)
  {}

  lemma {:induction false} LeafCompatible(e: Expr, f: Expr, c: seq<string>, d: seq<string>)
    requires !(e.Node? && f.Node?)
    ensures Strip(e, c) == Strip(f, d) <==>
      (e.Constant? && f.Constant? && e.value == f.value)
        || (e.Variable? && f.Variable? && Compatible(c, d, map[e.name := f.name]))
    ensures Compatible(c, d, map[])
  {
    hide Below, ArgType, FreeVars;
  }

  lemma {:induction false} SharedCompatible(e: Expr, c: seq<string>, d: seq<string>, m: map<string, string>)
    requires m == map v | v in FreeVars(e) :: v
    ensures Strip(e, c) == Strip(e, d) <==> Compatible(c, d, m)
  {
    hide Look, FreeVars;
    StripAgree(e, c, d);
  }

  lemma {:induction false} MappingOfVariable(e: Expr, m: map<string, string>)
    requires m == map v | v in FreeVars(e) :: v
    ensures e.Variable? ==> m == map[e.name := e.name]
  {}

  /** `__eq__` */
  method Equal(self: Expr, other: Expr) returns (same: bool)
    requires Valid(self) && Valid(other)
    ensures same <==> Alpha(self) == Alpha(other)
  {
    hide Strip, FreeVars;
    var sd := GetVarMapping(self, other);
    same := sd.Some? && forall k | k in sd.value.Keys :: k == sd.value[k];
  }

  /** Lambdas are alike exactly if their arguments have the same type and their bodies are alike below them. */
  lemma {:induction false} LambdasAlike(x: string, t: Option<Type>, b: Expr, y: string, u: Option<Type>, c: Expr,
      ctx: seq<string>, ctx': seq<string>)
    ensures Strip(Node(Lam, [Variable(x, t), b]), ctx) == Strip(Node(Lam, [Variable(y, u), c]), ctx') <==>
      t == u && Strip(b, ctx + [x]) == Strip(c, ctx' + [y])
  {
    hide Look;
    var e, f := Node(Lam, [Variable(x, t), b]), Node(Lam, [Variable(y, u), c]);
    LookPush(ctx, x, x);
    LookPush(ctx', y, y);
    StripChildren(e, ctx);
    StripChildren(f, ctx');
    assert Below(e, 1, ctx) == ctx + [x] && Below(f, 1, ctx') == ctx' + [y];
    assert Strip(e, ctx).children == [NBound(1), Strip(b, ctx + [x])];
    assert Strip(f, ctx').children == [NBound(1), Strip(c, ctx' + [y])];
  }

  /** The types of variables bound by a let do not matter. */
  lemma {:induction false} LetsAlike(x: string, t: Option<Type>, a: Expr, b: Expr, y: string, u: Option<Type>, c: Expr,
      d: Expr, ctx: seq<string>, ctx': seq<string>)
    ensures Strip(Node(Let, [Variable(x, t), a, b]), ctx) == Strip(Node(Let, [Variable(y, u), c, d]), ctx') <==>
      Strip(a, ctx) == Strip(c, ctx') && Strip(b, ctx + [x]) == Strip(d, ctx' + [y])
  {
    hide Look;
    var e, f := Node(Let, [Variable(x, t), a, b]), Node(Let, [Variable(y, u), c, d]);
    LookPush(ctx, x, x);
    LookPush(ctx', y, y);
    StripChildren(e, ctx);
    StripChildren(f, ctx');
    assert Below(e, 2, ctx) == ctx + [x] && Below(f, 2, ctx') == ctx' + [y];
    assert Strip(e, ctx).children == [NBound(1), Strip(a, ctx), Strip(b, ctx + [x])];
    assert Strip(f, ctx').children == [NBound(1), Strip(c, ctx'), Strip(d, ctx' + [y])];
  }

  lemma {:induction false} StripChildren(e: Expr, ctx: seq<string>)
    requires e.Node?
    ensures var n := Strip(e, ctx);
      n.NNode? && n.op == e.op && n.arg == ArgType(e) && |n.children| == |e.children|
      && forall i: nat | i < |e.children| :: n.children[i] == Strip(e.children[i], Below(e, i, ctx))
  {
    hide Look, Below, ArgType;
  }

  /** The names of bound variables, and only those, do not matter: free variables are alike if their names are. */
  lemma {:induction false} FreeVariablesAlike(x: string, t: Option<Type>, y: string, u: Option<Type>)
    ensures Alpha(Variable(x, t)) == Alpha(Variable(y, u)) <==> x == y
  {}
}
