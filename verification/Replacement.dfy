/** `replace_subtree`: capture-avoiding replacement of the subtree at a pre-order index. */
module Replacement {
  import opened Expressions
  import opened AlphaEquivalence
  import opened Meaning

  /** What to put in place of a subtree: an expression, or a function of the subtree. */
  datatype Change = ByExpr(val: Expr) | ByFun(f: Expr -> Expr)

  /** `index` counts nodes in pre-order, zero being the root. No variable free in `preserve` may be captured. */
  datatype Target = Target(index: nat, change: Change, preserve: Expr)

  function Apply(c: Change, subtree: Expr): Expr {
    match c
    case ByExpr(val) => val
    case ByFun(f) => f(subtree)
  }

  // ---------------------------------------------------------------- pre-order indices

  /** The index of child `i`, in the numbering of `e`. */
  function Start(e: Expr, i: nat): nat
    requires e.Node? && i <= |e.children|
  {
    1 + NodesBefore(e, i)
  }

  predicate InChild(e: Expr, i: nat, index: nat)
    requires e.Node? && i < |e.children|
  {
    Start(e, i) <= index < Start(e, i) + NumNodes(e.children[i])
  }

  function ChildTarget(e: Expr, i: nat, t: Option<Target>): Option<Target>
    requires e.Node? && i < |e.children|
  {
    if t.Some? && InChild(e, i, t.value.index) then Some(t.value.(index := t.value.index - Start(e, i))) else None
  }

  predicate InTree(e: Expr, t: Option<Target>) {
    t.Some? ==> t.value.index < NumNodes(e)
  }

  /** The node at `index` is not the binding occurrence of a variable. */
  predicate Replaceable(e: Expr, index: nat)
    decreases e
  {
    index == 0 || (e.Node? && forall i: nat | i < |e.children| && InChild(e, i, index) ::
      !(Binder(e) && i == BoundIndex(e.op)) && Replaceable(e.children[i], index - Start(e, i)))
  }

  /** `nodes`: all subtrees, in pre-order. */
  function Nodes(e: Expr): seq<Expr>
    decreases e, 1, 0
  {
    [e] + if e.Node? then NodesOfFirst(e, |e.children|) else []
  }

  function NodesOfFirst(e: Expr, k: nat): seq<Expr>
    requires e.Node? && k <= |e.children|
    decreases e, 0, k
  {
    if k == 0 then [] else NodesOfFirst(e, k - 1) + Nodes(e.children[k - 1])
  }

  lemma {:induction false} NodesCounted(e: Expr)
    ensures |Nodes(e)| == NumNodes(e)
    decreases e, 1, 0
  {
    if e.Node? {
      FirstNodesCounted(e, |e.children|);
    }
  }

  lemma {:induction false} FirstNodesCounted(e: Expr, k: nat)
    requires e.Node? && k <= |e.children|
    ensures |NodesOfFirst(e, k)| == NodesBefore(e, k)
    decreases e, 0, k
  {
    if k > 0 {
      FirstNodesCounted(e, k - 1);
      NodesCounted(e.children[k - 1]);
    }
  }

  lemma {:induction false} FirstNodesPrefix(e: Expr, i: nat, k: nat)
    requires e.Node? && i < k <= |e.children|
    ensures NodesOfFirst(e, i) + Nodes(e.children[i]) <= NodesOfFirst(e, k)
    decreases k
  {
    hide Nodes;
    if i < k - 1 {
      FirstNodesPrefix(e, i, k - 1);
    }
  }

  /** The numbering of `children_with_indices` is the position in `nodes`. */
  lemma {:induction false} NodesOfChild(e: Expr, i: nat, index: nat)
    requires e.Node? && i < |e.children| && InChild(e, i, index)
    ensures index < |Nodes(e)| && index - Start(e, i) < |Nodes(e.children[i])|
    ensures Nodes(e)[index] == Nodes(e.children[i])[index - Start(e, i)]
  {
    hide NumNodes, NodesBefore;
    FirstNodesCounted(e, i);
    NodesCounted(e.children[i]);
    FirstNodesPrefix(e, i, |e.children|);
    assert Nodes(e) == [e] + NodesOfFirst(e, |e.children|);
    assert (NodesOfFirst(e, i) + Nodes(e.children[i]))[index - 1] == Nodes(e.children[i])[index - Start(e, i)];
  }

  // ---------------------------------------------------------------- the transformation

  /** The substitutions that matter to the free variables of `e`. */
  function Relevant(e: Expr, subst: map<string, Expr>): map<string, Expr> {
    map x | x in subst && x in FreeVars(e) :: subst[x]
  }

  /** All that must not be captured below a node. */
  function AllVals(t: Option<Target>, vals: map<string, Expr>): set<Expr> {
    (if t.Some? then {t.value.preserve} else {}) + vals.Values
  }

  predicate Captures(e: Expr, vals: set<Expr>) {
    Binder(e) && exists v :: v in vals && BoundVar(e).name in FreeVars(v)
  }

  /** The substitutions that apply where the variable of `e` is in scope: it is renamed if it would capture. */
  ghost function Scope(e: Expr, t: Option<Target>, subst: map<string, Expr>): map<string, Expr> {
    var vals := Relevant(e, subst);
    if Captures(e, AllVals(t, vals)) then vals[BoundVar(e).name := NewVar({e} + AllVals(t, vals), BoundVar(e).typ)]
    else vals
  }

  ghost function ChildSubst(e: Expr, i: nat, t: Option<Target>, subst: map<string, Expr>): map<string, Expr> {
    if Binds(e, i) then Scope(e, t, subst) else Relevant(e, subst)
  }

  /** The result of `_cav_helper`. */
  ghost function Cav(e: Expr, t: Option<Target>, subst: map<string, Expr>): Expr
    requires InTree(e, t)
    decreases e, if t.Some? then 1 else 0
  {
    if t.Some? && t.value.index == 0 then Apply(t.value.change, Cav(e, None, subst))
    else match e
      case Constant(_) => e
      case Variable(x, _) => if x in subst then subst[x] else e
      case Node(op, cs) =>
        if t.None? && Relevant(e, subst) == map[] then e
        else Node(op, seq(|cs|, i requires 0 <= i < |cs| =>
          Cav(cs[i], ChildTarget(e, i, t), ChildSubst(e, i, t, subst))))
  }

  // ---------------------------------------------------------------- what it means

  /** Evaluation with the value of the node at `index` changed by `H`. */
  ghost function EvalAt<V(!new)>(I: Interp<V>, e: Expr, index: nat, env: map<string, V>, H: V -> V): V
    decreases e, 1
  {
    if index == 0 || !e.Node? then H(Eval(I, e, env))
    else I.node(e.op, seq(|e.children|, i requires 0 <= i < |e.children| => EvalChildAt(I, e, i, index, env, H)))
  }

  ghost function EvalChildAt<V(!new)>(I: Interp<V>, e: Expr, i: nat, index: nat, env: map<string, V>, H: V -> V)
      : Argument<V>
    requires e.Node? && i < |e.children|
    decreases e, 0
  {
    if !InChild(e, i, index) then EvalChild(I, e, i, env)
    else if !Binds(e, i) then Plain(EvalAt(I, e.children[i], index - Start(e, i), env, H))
    else if i == BoundIndex(e.op) then Bind(if e.op.Lam? then BoundVar(e).typ else None)
    else Under(imap v: V | true :: EvalAt(I, e.children[i], index - Start(e, i), Extend(env, BoundVar(e).name, v), H))
  }

  /** The two environments agree on the free variables of `p`. */
  ghost predicate AgreeOn<V>(I: Interp<V>, p: Expr, env: map<string, V>, env': map<string, V>) {
    forall x | x in FreeVars(p) :: Lookup(I, env, x) == Lookup(I, env', x)
  }

  /** Wherever the free variables of `preserve` mean what they mean in `env0`, the change acts on values as `H`. */
  ghost predicate Realises<V(!new)>(I: Interp<V>, c: Change, preserve: Expr, env0: map<string, V>, H: V -> V) {
    forall e: Expr, env: map<string, V> {:trigger Eval(I, Apply(c, e), env)} |
      AgreeOn(I, preserve, env, env0) :: Eval(I, Apply(c, e), env) == H(Eval(I, e, env))
  }

  function NameAfter(subst: map<string, Expr>, x: string): string {
    if x in subst && subst[x].Variable? then subst[x].name else x
  }

  /** The substitution renames to distinct variables that `e` does not mention and that `preserve` does not depend
      on. */
  ghost predicate Fresh(e: Expr, t: Option<Target>, subst: map<string, Expr>) {
    && (forall x | x in subst :: Valid(subst[x]) && subst[x].Variable? && subst[x].name !in Names(e))
    && (t.Some? ==> forall x | x in subst :: subst[x].name !in FreeVars(t.value.preserve))
    && (forall x, y | x in subst && y in subst && x != y :: subst[x].name != subst[y].name)
  }

  /** Every name goes to a variable of another name. */
  predicate IsRenaming(subst: map<string, Expr>) {
    forall x | x in subst :: Valid(subst[x]) && subst[x].Variable? && subst[x].name != x
  }

  /** As far as it matters to `e`, the substitution renames. The new names need not be fresh. */
  predicate Renames(e: Expr, subst: map<string, Expr>) {
    IsRenaming(Relevant(e, subst))
  }

  /** After the renaming the free variables of `e` have in `env'` the values they had in `env`. */
  ghost predicate Renamed<V>(I: Interp<V>, e: Expr, subst: map<string, Expr>, env: map<string, V>, env': map<string, V>)
  {
    forall x | x in FreeVars(e) :: Lookup(I, env, x) == Lookup(I, env', NameAfter(subst, x))
  }

  // ---------------------------------------------------------------- names under a binder

  lemma {:induction false} RelevantNames(e: Expr, subst: map<string, Expr>, x: string)
    ensures x in FreeVars(e) ==> NameAfter(Relevant(e, subst), x) == NameAfter(subst, x)
    ensures x in Relevant(e, subst) <==> x in subst && x in FreeVars(e)
  {
    hide FreeVars;
  }

  lemma {:induction false} RelevantFresh(e: Expr, t: Option<Target>, subst: map<string, Expr>)
    requires Fresh(e, t, subst)
    ensures Fresh(e, t, Relevant(e, subst))
  {
    hide FreeVars, Names;
  }

  lemma {:induction false} FreshNames(e: Expr, t: Option<Target>, subst: map<string, Expr>)
    requires Fresh(e, t, subst)
    ensures forall x | x in subst :: subst[x].Variable? && subst[x].name !in Names(e)
    ensures t.Some? ==> forall x | x in subst :: subst[x].name !in FreeVars(t.value.preserve)
  {
    hide Names, FreeVars, Valid;
  }

  /** The new name of a binder's variable is fresh for everything below. */
  lemma {:induction false} NewBinderName(e: Expr, t: Option<Target>, vals: map<string, Expr>)
    requires Binder(e)
    ensures var nv := NewVar({e} + AllVals(t, vals), BoundVar(e).typ);
      && nv.name !in Names(e) && (forall x | x in vals :: nv.name !in Names(vals[x]))
      && (t.Some? ==> nv.name !in FreeVars(t.value.preserve)) && Valid(nv)
  {
    hide FreeVars, Names, NewVar, Valid, Binder;
    var es := {e} + AllVals(t, vals);
    NewVarIsFresh(es, BoundVar(e).typ, e);
    NewVarIsValid(es, BoundVar(e).typ);
    forall x | x in vals ensures NewVar(es, BoundVar(e).typ).name !in Names(vals[x]) {
      assert vals[x] in vals.Values;
      NewVarIsFresh(es, BoundVar(e).typ, vals[x]);
    }
    if t.Some? {
      NewVarIsFresh(es, BoundVar(e).typ, t.value.preserve);
      FreeAreNames(t.value.preserve);
    }
  }

  lemma {:induction false} NewVarIsValid(es: set<Expr>, typ: Option<Type>)
    ensures Valid(NewVar(es, typ))
  {
    hide NextUnusedAll;
    VarNameHasNoSpace(NextUnusedAll(es));
  }

  lemma {:induction false} ScopeFresh(e: Expr, t: Option<Target>, subst: map<string, Expr>)
    requires Binder(e) && Fresh(e, t, subst)
    ensures Fresh(e, t, Scope(e, t, subst))
    ensures t.Some? ==> NameAfter(Scope(e, t, subst), BoundVar(e).name) !in FreeVars(t.value.preserve)
  {
    hide FreeVars, Names, NewVar, Valid, Binder, Fresh;
    RelevantFresh(e, t, subst);
    var vals := Relevant(e, subst);
    hide Relevant;
    FreshNames(e, t, vals);
    if Captures(e, AllVals(t, vals)) {
      NewBinderName(e, t, vals);
      VariableNames(vals);
      RenewedFresh(e, t, vals, BoundVar(e).name, NewVar({e} + AllVals(t, vals), BoundVar(e).typ));
    } else if t.Some? {
      assert t.value.preserve in AllVals(t, vals);
    }
  }

  lemma {:induction false} RenewedFresh(e: Expr, t: Option<Target>, vals: map<string, Expr>, b: string, nv: Expr)
    requires Fresh(e, t, vals) && Valid(nv) && nv.Variable? && nv.name !in Names(e)
    requires t.Some? ==> nv.name !in FreeVars(t.value.preserve)
    requires forall x | x in vals :: vals[x].Variable? && vals[x].name != nv.name
    ensures Fresh(e, t, vals[b := nv])
  {
    hide FreeVars, Names, Valid;
  }

  lemma {:induction false} VariableNames(vals: map<string, Expr>)
    ensures forall x | x in vals && vals[x].Variable? :: vals[x].name in Names(vals[x])
  {}

  /** Below a binder the other names are as outside, and none of them is the name of its variable. */
  lemma {:induction false} ScopeNames(e: Expr, t: Option<Target>, subst: map<string, Expr>, x: string)
    requires Binder(e) && Fresh(e, t, subst) && x in FreeVars(e) && x != BoundVar(e).name
    ensures NameAfter(Scope(e, t, subst), x) == NameAfter(subst, x)
    ensures NameAfter(Scope(e, t, subst), x) != NameAfter(Scope(e, t, subst), BoundVar(e).name)
  {
    hide FreeVars, Names, NewVar, Valid, Binder;
    FreeAreNames(e);
    BoundIsName(e);
    RelevantNames(e, subst, x);
    RelevantFresh(e, t, subst);
    var vals := Relevant(e, subst);
    hide Relevant;
    if Captures(e, AllVals(t, vals)) {
      NewBinderName(e, t, vals);
      VariableNames(vals);
    }
  }

  lemma {:induction false} ChildFresh(e: Expr, i: nat, t: Option<Target>, subst: map<string, Expr>)
    requires e.Node? && i < |e.children| && Fresh(e, t, subst)
    ensures Fresh(e.children[i], ChildTarget(e, i, t), ChildSubst(e, i, t, subst))
  {
    hide FreeVars, Names, Valid, InChild, Relevant, Binder, Scope;
    RelevantFresh(e, t, subst);
    NamesOfChild(e, i);
    if Binds(e, i) {
      ScopeFresh(e, t, subst);
    }
  }

  lemma {:induction false} FreshRenames(e: Expr, t: Option<Target>, subst: map<string, Expr>)
    requires Fresh(e, t, subst)
    ensures Renames(e, subst)
  {
    hide FreeVars, Names, Valid;
    FreeAreNames(e);
  }

  lemma {:induction false} ScopeRenames(e: Expr, t: Option<Target>, subst: map<string, Expr>)
    requires Binder(e) && Renames(e, subst)
    ensures IsRenaming(Scope(e, t, subst))
  {
    hide FreeVars, Names, NewVar, Valid, Binder, Relevant;
    BoundIsName(e);
    NewBinderName(e, t, Relevant(e, subst));
  }

  lemma {:induction false} ChildRenames(e: Expr, i: nat, t: Option<Target>, subst: map<string, Expr>)
    requires e.Node? && i < |e.children| && Renames(e, subst)
    ensures IsRenaming(ChildSubst(e, i, t, subst)) && Renames(e.children[i], ChildSubst(e, i, t, subst))
  {
    hide FreeVars, Binder, Scope, Valid;
    if Binds(e, i) {
      ScopeRenames(e, t, subst);
    }
  }

  /** The variable of a binder becomes the renamed variable, of the same type where it matters. */
  lemma {:induction false} BinderAfter(e: Expr, t: Option<Target>, subst: map<string, Expr>)
    requires Valid(e) && Binder(e) && Renames(e, subst)
    ensures var x := Cav(BoundVar(e), None, Scope(e, t, subst));
      x.Variable? && x.name == NameAfter(Scope(e, t, subst), BoundVar(e).name)
        && (e.op.Lam? ==> x.typ == BoundVar(e).typ)
  {
    hide FreeVars, Names, NewVar;
    ScopeRenames(e, t, subst);
    if e.op.Lam? {
      LamBindsAll(e);
      RelevantNames(e, subst, BoundVar(e).name);
    }
    hide Relevant;
  }

  lemma {:induction false} LamBindsAll(e: Expr)
    requires Valid(e) && Binder(e) && e.op.Lam?
    ensures BoundVar(e).name !in FreeVars(e)
  {}

  // ---------------------------------------------------------------- the theorem

  /** What the result should evaluate to. */
  ghost function Goal<V(!new)>(I: Interp<V>, e: Expr, t: Option<Target>, env: map<string, V>, H: V -> V): V {
    if t.Some? then EvalAt(I, e, t.value.index, env, H) else Eval(I, e, env)
  }

  ghost function GoalChild<V(!new)>(I: Interp<V>, e: Expr, i: nat, t: Option<Target>, env: map<string, V>, H: V -> V)
      : Argument<V>
    requires e.Node? && i < |e.children|
  {
    if !Binds(e, i) then Plain(Goal(I, e.children[i], ChildTarget(e, i, t), env, H))
    else if i == BoundIndex(e.op) then Bind(if e.op.Lam? then BoundVar(e).typ else None)
    else Under(imap v: V | true :: Goal(I, e.children[i], ChildTarget(e, i, t), Extend(env, BoundVar(e).name, v), H))
  }

  lemma {:induction false} GoalNode<V(!new)>(I: Interp<V>, e: Expr, t: Option<Target>, env: map<string, V>, H: V -> V)
    requires e.Node? && !(t.Some? && t.value.index == 0)
    ensures Goal(I, e, t, env, H)
      == I.node(e.op, seq(|e.children|, i requires 0 <= i < |e.children| => GoalChild(I, e, i, t, env, H)))
  {
    hide GoalChild, EvalChild, EvalChildAt;
    var s := seq(|e.children|, i requires 0 <= i < |e.children| => GoalChild(I, e, i, t, env, H));
    forall i: nat | i < |e.children|
      ensures GoalChild(I, e, i, t, env, H) == if t.Some? then EvalChildAt(I, e, i, t.value.index, env, H)
        else EvalChild(I, e, i, env)
    {
      GoalChildIs(I, e, i, t, env, H);
    }
    if t.Some? {
      assert s == seq(|e.children|, i requires 0 <= i < |e.children| => EvalChildAt(I, e, i, t.value.index, env, H));
    } else {
      assert s == seq(|e.children|, i requires 0 <= i < |e.children| => EvalChild(I, e, i, env));
    }
  }

  lemma {:induction false} GoalChildIs<V(!new)>(I: Interp<V>, e: Expr, i: nat, t: Option<Target>, env: map<string, V>,
      H: V -> V)
    requires e.Node? && i < |e.children|
    ensures GoalChild(I, e, i, t, env, H) == if t.Some? then EvalChildAt(I, e, i, t.value.index, env, H)
      else EvalChild(I, e, i, env)
  {
    hide Eval, EvalAt, InChild, Start;
  }

  /** Everything the theorem assumes at a node on the way down. */
  ghost predicate Sound<V(!new)>(I: Interp<V>, e: Expr, t: Option<Target>, subst: map<string, Expr>,
      env: map<string, V>, env': map<string, V>, env0: map<string, V>, H: V -> V)
  {
    && Valid(e) && InTree(e, t) && Fresh(e, t, subst) && Renamed(I, e, subst, env, env')
    && (t.Some? ==> Replaceable(e, t.value.index) && AgreeOn(I, t.value.preserve, env', env0)
                    && Realises(I, t.value.change, t.value.preserve, env0, H))
  }

  lemma {:induction false} TargetBelow(e: Expr, i: nat, t: Option<Target>)
    requires e.Node? && i < |e.children| && InTree(e, t)
    requires t.Some? ==> t.value.index != 0 && Replaceable(e, t.value.index)
    ensures InTree(e.children[i], ChildTarget(e, i, t))
    ensures ChildTarget(e, i, t).Some? ==> (
      t.Some? && ChildTarget(e, i, t).value.preserve == t.value.preserve
        && ChildTarget(e, i, t).value.change == t.value.change
      && Replaceable(e.children[i], ChildTarget(e, i, t).value.index))
    ensures Binder(e) && i == BoundIndex(e.op) ==> ChildTarget(e, i, t).None?
  {
    hide NumNodes, Start;
  }

  lemma {:induction false} ChildSound<V(!new)>(I: Interp<V>, e: Expr, i: nat, t: Option<Target>,
      subst: map<string, Expr>, env: map<string, V>, env': map<string, V>, env0: map<string, V>, H: V -> V)
    requires Sound(I, e, t, subst, env, env', env0, H) && e.Node? && i < |e.children| && !Binds(e, i)
    requires !(t.Some? && t.value.index == 0)
    ensures Sound(I, e.children[i], ChildTarget(e, i, t), ChildSubst(e, i, t, subst), env, env', env0, H)
  {
    hide FreeVars, Names, Realises, InTree, Replaceable, ChildTarget, Fresh, Binds, Relevant;
    TargetBelow(e, i, t);
    ChildFresh(e, i, t, subst);
    forall x | x in FreeVars(e.children[i])
      ensures Lookup(I, env, x) == Lookup(I, env', NameAfter(ChildSubst(e, i, t, subst), x))
    {
      FreeChild(e, i, x);
      RelevantNames(e, subst, x);
    }
  }

  lemma {:induction false} BoundChildSound<V(!new)>(I: Interp<V>, e: Expr, i: nat, t: Option<Target>,
      subst: map<string, Expr>, env: map<string, V>, env': map<string, V>, env0: map<string, V>, H: V -> V, v: V)
    requires Sound(I, e, t, subst, env, env', env0, H) && e.Node? && i < |e.children| && Binds(e, i) && Binder(e)
    requires !(t.Some? && t.value.index == 0)
    ensures Sound(I, e.children[i], ChildTarget(e, i, t), Scope(e, t, subst),
      Extend(env, BoundVar(e).name, v), Extend(env', NameAfter(Scope(e, t, subst), BoundVar(e).name), v), env0, H)
  {
    hide FreeVars, Names, Realises, InTree, Replaceable, ChildTarget, Fresh, Binder, Scope;
    TargetBelow(e, i, t);
    ChildFresh(e, i, t, subst);
    ScopeFresh(e, t, subst);
    var b := BoundVar(e).name;
    var b' := NameAfter(Scope(e, t, subst), b);
    forall x | x in FreeVars(e.children[i])
      ensures Lookup(I, Extend(env, b, v), x) == Lookup(I, Extend(env', b', v), NameAfter(Scope(e, t, subst), x))
    {
      if x != b {
        FreeChild(e, i, x);
        ScopeNames(e, t, subst, x);
      }
    }
  }

  /** Capture-avoiding replacement keeps the meaning: below any renaming, the result evaluates as the original does
      with the value of the target changed. */
  lemma {:induction false} CavMeans<V(!new)>(I: Interp<V>, e: Expr, t: Option<Target>, subst: map<string, Expr>,
      env: map<string, V>, env': map<string, V>, env0: map<string, V>, H: V -> V)
    requires Sound(I, e, t, subst, env, env', env0, H)
    ensures InTree(e, t) && Eval(I, Cav(e, t, subst), env') == Goal(I, e, t, env, H)
    decreases e, if t.Some? then 3 else 2
  {
    hide FreeVars, Names, Realises, Replaceable, ChildTarget, Fresh, Binder, Scope, Binds, EvalChild, EvalAt,
      Relevant, ChildSubst, NumNodes;
    if t.Some? && t.value.index == 0 {
      SoundWithout(I, e, t, subst, env, env', env0, H);
      CavMeans(I, e, None, subst, env, env', env0, H);
      CavRoot(I, e, t.value, subst, env', env0, H);
      EvalAtRoot(I, e, env, H);
    } else if e.Node? && !(t.None? && Relevant(e, subst) == map[]) {
      CavNodeMeans(I, e, t, subst, env, env', env0, H);
    } else if e.Node? {
      NothingRelevant(e, subst);
      EvalAgree(I, e, env, env');
    } else {
      CavLeaf(I, e, t, subst, env, env', env0, H);
    }
  }

  lemma {:induction false} SoundWithout<V(!new)>(I: Interp<V>, e: Expr, t: Option<Target>, subst: map<string, Expr>,
      env: map<string, V>, env': map<string, V>, env0: map<string, V>, H: V -> V)
    requires Sound(I, e, t, subst, env, env', env0, H)
    ensures Sound(I, e, None, subst, env, env', env0, H)
  {
    hide FreeVars, Names, Realises, Replaceable, Renamed, Valid, AgreeOn;
  }

  lemma {:induction false} CavRoot<V(!new)>(I: Interp<V>, e: Expr, t: Target, subst: map<string, Expr>,
      env': map<string, V>, env0: map<string, V>, H: V -> V)
    requires t.index == 0 && AgreeOn(I, t.preserve, env', env0) && Realises(I, t.change, t.preserve, env0, H)
    ensures InTree(e, Some(t)) && Eval(I, Cav(e, Some(t), subst), env') == H(Eval(I, Cav(e, None, subst), env'))
  {
    hide AgreeOn, Eval, Apply;
    CavAtRoot(e, t, subst);
    assert Eval(I, Apply(t.change, Cav(e, None, subst)), env') == H(Eval(I, Cav(e, None, subst), env'));
  }

  lemma {:induction false} CavAtRoot(e: Expr, t: Target, subst: map<string, Expr>)
    requires t.index == 0
    ensures InTree(e, Some(t)) && Cav(e, Some(t), subst) == Apply(t.change, Cav(e, None, subst))
    ensures t.change.ByExpr? ==> Cav(e, Some(t), subst) == t.change.val
  {
    hide NumNodes, ChildSubst, Relevant;
  }

  lemma {:induction false} EvalAtRoot<V(!new)>(I: Interp<V>, e: Expr, env: map<string, V>, H: V -> V)
    ensures EvalAt(I, e, 0, env, H) == H(Eval(I, e, env))
  {
    hide Eval;
  }

  lemma {:induction false} CavLeaf<V(!new)>(I: Interp<V>, e: Expr, t: Option<Target>, subst: map<string, Expr>,
      env: map<string, V>, env': map<string, V>, env0: map<string, V>, H: V -> V)
    requires Sound(I, e, t, subst, env, env', env0, H) && !e.Node? && !(t.Some? && t.value.index == 0)
    ensures InTree(e, t) && Eval(I, Cav(e, t, subst), env') == Goal(I, e, t, env, H)
  {
    hide Names, Realises, Replaceable, EvalChild, ChildTarget;
  }

  lemma {:induction false} NothingRelevant(e: Expr, subst: map<string, Expr>)
    requires Relevant(e, subst) == map[]
    ensures forall x | x in FreeVars(e) :: NameAfter(subst, x) == x
  {
    forall x | x in FreeVars(e) ensures NameAfter(subst, x) == x {
      RelevantNames(e, subst, x);
    }
  }

  /** Only the values of the free variables matter. */
  lemma {:induction false} EvalAgree<V(!new)>(I: Interp<V>, e: Expr, env: map<string, V>, env': map<string, V>)
    requires AgreeOn(I, e, env, env')
    ensures Eval(I, e, env) == Eval(I, e, env')
    decreases e, 1
  {
    hide EvalChild;
    if e.Node? {
      var s := seq(|e.children|, i requires 0 <= i < |e.children| => EvalChild(I, e, i, env));
      var s' := seq(|e.children|, i requires 0 <= i < |e.children| => EvalChild(I, e, i, env'));
      forall i: nat | i < |e.children| ensures EvalChild(I, e, i, env) == EvalChild(I, e, i, env') {
        EvalChildAgree(I, e, i, env, env');
      }
      assert s == s';
    }
  }

  lemma {:induction false} EvalChildAgree<V(!new)>(I: Interp<V>, e: Expr, i: nat, env: map<string, V>,
      env': map<string, V>)
    requires AgreeOn(I, e, env, env') && e.Node? && i < |e.children|
    ensures EvalChild(I, e, i, env) == EvalChild(I, e, i, env')
    decreases e, 0
  {
    hide FreeVars, Eval, Binder;
    forall x | x in FreeVars(e.children[i]) && !BoundIn(e, i, x) ensures Lookup(I, env, x) == Lookup(I, env', x) {
      FreeChild(e, i, x);
    }
    if !Binds(e, i) {
      EvalAgree(I, e.children[i], env, env');
    } else {
      forall v: V ensures Eval(I, e.children[i], Extend(env, BoundVar(e).name, v))
        == Eval(I, e.children[i], Extend(env', BoundVar(e).name, v)) {
        EvalAgree(I, e.children[i], Extend(env, BoundVar(e).name, v), Extend(env', BoundVar(e).name, v));
      }
    }
  }

  lemma {:induction false} CavNodeMeans<V(!new)>(I: Interp<V>, e: Expr, t: Option<Target>, subst: map<string, Expr>,
      env: map<string, V>, env': map<string, V>, env0: map<string, V>, H: V -> V)
    requires Sound(I, e, t, subst, env, env', env0, H) && e.Node? && !(t.Some? && t.value.index == 0)
    requires !(t.None? && Relevant(e, subst) == map[])
    ensures InTree(e, t) && Eval(I, Cav(e, t, subst), env') == Goal(I, e, t, env, H)
    decreases e, 1
  {
    hide Sound, GoalChild, EvalChild, Goal, ChildTarget, ChildSubst, Relevant;
    SoundInTree(I, e, t, subst, env, env', env0, H);
    var e' := Cav(e, t, subst);
    CavNode(e, t, subst);
    forall i: nat | i < |e.children| ensures EvalChild(I, e', i, env') == GoalChild(I, e, i, t, env, H) {
      CavChildMeans(I, e, i, t, subst, env, env', env0, H);
    }
    GoalNode(I, e, t, env, H);
    assert seq(|e.children|, i requires 0 <= i < |e.children| => GoalChild(I, e, i, t, env, H))
        == seq(|e'.children|, i requires 0 <= i < |e'.children| => EvalChild(I, e', i, env'));
  }

  lemma {:induction false} SoundInTree<V(!new)>(I: Interp<V>, e: Expr, t: Option<Target>, subst: map<string, Expr>,
      env: map<string, V>, env': map<string, V>, env0: map<string, V>, H: V -> V)
    requires Sound(I, e, t, subst, env, env', env0, H)
    ensures InTree(e, t) && Valid(e) && Fresh(e, t, subst)
  {
    hide FreeVars, Names, Realises, Replaceable, Renamed, Valid, AgreeOn, Fresh;
  }

  /** The shape of the result at an operation. */
  lemma {:induction false} CavNode(e: Expr, t: Option<Target>, subst: map<string, Expr>)
    requires e.Node? && InTree(e, t) && !(t.Some? && t.value.index == 0) && !(t.None? && Relevant(e, subst) == map[])
    ensures var e' := Cav(e, t, subst); e'.Node? && e'.op == e.op && |e'.children| == |e.children|
    ensures forall i: nat | i < |e.children| ::
      InTree(e.children[i], ChildTarget(e, i, t))
      && Cav(e, t, subst).children[i] == Cav(e.children[i], ChildTarget(e, i, t), ChildSubst(e, i, t, subst))
  {
    hide ChildSubst, Relevant, NumNodes, Start;
  }

  lemma {:induction false} CavBinder(e: Expr, t: Option<Target>, subst: map<string, Expr>)
    requires Valid(e) && Renames(e, subst) && e.Node? && InTree(e, t)
    requires !(t.Some? && t.value.index == 0) && !(t.None? && Relevant(e, subst) == map[])
    requires t.Some? ==> Replaceable(e, t.value.index)
    ensures var e' := Cav(e, t, subst);
      e'.Node? && e'.op == e.op && |e'.children| == |e.children| && ArgType(e') == ArgType(e)
      && (forall i: nat :: Binds(e', i) <==> Binds(e, i))
      && (Binder(e) <==> Binder(e'))
        && (Binder(e) ==> BoundVar(e').name == NameAfter(Scope(e, t, subst), BoundVar(e).name))
  {
    hide Cav, Renames, FreeVars, Names, Scope, ChildTarget, InTree, Replaceable, Relevant;
    CavNode(e, t, subst);
    if Binder(e) {
      TargetBelow(e, BoundIndex(e.op), t);
      BinderAfter(e, t, subst);
    } else {
      NotABinder(e);
    }
  }

  lemma {:induction false} NotABinder(e: Expr)
    requires Valid(e) && e.Node? && !Binder(e)
    ensures !IsBinder(e.op)
  {}

  lemma {:induction false} CavChildMeans<V(!new)>(I: Interp<V>, e: Expr, i: nat, t: Option<Target>,
      subst: map<string, Expr>, env: map<string, V>, env': map<string, V>, env0: map<string, V>, H: V -> V)
    requires Sound(I, e, t, subst, env, env', env0, H) && e.Node? && !(t.Some? && t.value.index == 0)
    requires InTree(e, t) && !(t.None? && Relevant(e, subst) == map[]) && i < |e.children|
    ensures Cav(e, t, subst).Node? && i < |Cav(e, t, subst).children|
    ensures EvalChild(I, Cav(e, t, subst), i, env') == GoalChild(I, e, i, t, env, H)
    decreases e, 0, 1
  {
    hide Cav, Sound, Goal, Eval, ChildTarget, ChildSubst, Relevant, Scope, Binds, Binder, InTree;
    hide Valid, Fresh, Renames, Replaceable, NameAfter, Extend, ArgType, NumNodes;
    SoundInTree(I, e, t, subst, env, env', env0, H);
    SoundReplaceable(I, e, t, subst, env, env', env0, H);
    CavNode(e, t, subst);
    FreshRenames(e, t, subst);
    CavBinder(e, t, subst);
    if !Binds(e, i) {
      PlainChildMeans(I, e, i, t, subst, env, env', env0, H);
    } else if i == BoundIndex(e.op) {
      BinderIfBinds(e, i);
      ArgTypeIs(e);
      ArgTypeIs(Cav(e, t, subst));
    } else {
      BinderIfBinds(e, i);
      ScopeIsChildSubst(e, i, t, subst);
      forall v: V ensures Eval(I, Cav(e.children[i], ChildTarget(e, i, t), Scope(e, t, subst)),
        Extend(env', NameAfter(Scope(e, t, subst), BoundVar(e).name), v))
        == Goal(I, e.children[i], ChildTarget(e, i, t), Extend(env, BoundVar(e).name, v), H)
      {
        ScopeChildMeans(I, e, i, t, subst, env, env', env0, H, v);
      }
    }
  }

  lemma {:induction false} PlainChildMeans<V(!new)>(I: Interp<V>, e: Expr, i: nat, t: Option<Target>,
      subst: map<string, Expr>, env: map<string, V>, env': map<string, V>, env0: map<string, V>, H: V -> V)
    requires Sound(I, e, t, subst, env, env', env0, H) && e.Node? && !(t.Some? && t.value.index == 0)
    requires i < |e.children| && !Binds(e, i)
    ensures InTree(e.children[i], ChildTarget(e, i, t))
    ensures Eval(I, Cav(e.children[i], ChildTarget(e, i, t), ChildSubst(e, i, t, subst)), env')
      == Goal(I, e.children[i], ChildTarget(e, i, t), env, H)
    decreases e, 0, 0
  {
    hide *;
    ChildSound(I, e, i, t, subst, env, env', env0, H);
    CavMeans(I, e.children[i], ChildTarget(e, i, t), ChildSubst(e, i, t, subst), env, env', env0, H);
  }

  lemma {:induction false} ScopeChildMeans<V(!new)>(I: Interp<V>, e: Expr, i: nat, t: Option<Target>,
      subst: map<string, Expr>, env: map<string, V>, env': map<string, V>, env0: map<string, V>, H: V -> V, v: V)
    requires Sound(I, e, t, subst, env, env', env0, H) && e.Node? && !(t.Some? && t.value.index == 0)
    requires i < |e.children| && Binds(e, i) && Binder(e)
    ensures InTree(e.children[i], ChildTarget(e, i, t))
    ensures Eval(I, Cav(e.children[i], ChildTarget(e, i, t), Scope(e, t, subst)),
      Extend(env', NameAfter(Scope(e, t, subst), BoundVar(e).name), v))
      == Goal(I, e.children[i], ChildTarget(e, i, t), Extend(env, BoundVar(e).name, v), H)
    decreases e, 0, 0
  {
    hide *;
    BoundChildSound(I, e, i, t, subst, env, env', env0, H, v);
    CavMeans(I, e.children[i], ChildTarget(e, i, t), Scope(e, t, subst), Extend(env, BoundVar(e).name, v),
      Extend(env', NameAfter(Scope(e, t, subst), BoundVar(e).name), v), env0, H);
  }

  lemma {:induction false} SoundReplaceable<V(!new)>(I: Interp<V>, e: Expr, t: Option<Target>, subst: map<string, Expr>,
      env: map<string, V>, env': map<string, V>, env0: map<string, V>, H: V -> V)
    requires Sound(I, e, t, subst, env, env', env0, H)
    ensures t.Some? ==> Replaceable(e, t.value.index)
  {
    hide FreeVars, Names, Realises, Replaceable, Renamed, Valid, AgreeOn, Fresh, InTree;
  }

  lemma {:induction false} ScopeIsChildSubst(e: Expr, i: nat, t: Option<Target>, subst: map<string, Expr>)
    requires Binds(e, i)
    ensures Binder(e) && ChildSubst(e, i, t, subst) == Scope(e, t, subst)
  {}

  lemma {:induction false} ArgTypeIs(e: Expr)
    requires Binder(e)
    ensures ArgType(e) == if e.op.Lam? then BoundVar(e).typ else None
  {}

  lemma {:induction false} BinderIfBinds(e: Expr, i: nat)
    requires Binds(e, i)
    ensures Binder(e)
  {}

  // ---------------------------------------------------------------- replace_subtree

  /** Replacing the subtree at `index` never captures: the result evaluates as the original does with the value at
      `index` changed by `H`, for any change that acts as `H` where the variables of `preserve` mean what they mean
      outside. */
  lemma {:induction false} ReplaceMeans<V(!new)>(I: Interp<V>, e: Expr, t: Target, env: map<string, V>, H: V -> V)
    requires Valid(e) && t.index < NumNodes(e) && Replaceable(e, t.index) && Realises(I, t.change, t.preserve, env, H)
    ensures Eval(I, Cav(e, Some(t), map[]), env) == EvalAt(I, e, t.index, env, H)
  {
    hide FreeVars, Names, Eval, EvalAt, Realises, Replaceable, Valid, NumNodes, Cav;
    CavMeans(I, e, Some(t), map[], env, env, env, H);
  }

  /** In particular the inserted expression has, where it ends up, the value that it has outside. */
  lemma {:induction false} ReplaceByExprMeans<V(!new)>(I: Interp<V>, e: Expr, index: nat, val: Expr,
      env: map<string, V>)
    requires Valid(e) && index < NumNodes(e) && Replaceable(e, index)
    ensures Eval(I, Cav(e, Some(Target(index, ByExpr(val), val)), map[]), env)
      == EvalAt(I, e, index, env, v => Eval(I, val, env))
  {
    hide FreeVars, Names, EvalAt, Replaceable, Valid, NumNodes, Cav, AgreeOn, Eval;
    var H := v => Eval(I, val, env);
    forall f: Expr, rho: map<string, V> | AgreeOn(I, val, rho, env)
      ensures Eval(I, Apply(ByExpr(val), f), rho) == H(Eval(I, f, rho)) {
      EvalAgree(I, val, rho, env);
    }
    ReplaceMeans(I, e, Target(index, ByExpr(val), val), env, H);
  }

  /** What the result of a change must be for the constructor to accept it. */
  ghost predicate KeepsValid(c: Change) {
    forall e {:trigger Apply(c, e)} | Valid(e) :: Valid(Apply(c, e))
  }

  /** `_cav_helper`. The assertions about indices and identity renamings never fail. */
  method CavHelper(self: Expr, targetted: Option<Target>, subst: map<string, Expr>) returns (r: Expr)
    requires Valid(self) && InTree(self, targetted) && Renames(self, subst)
    requires targetted.Some? ==> Replaceable(self, targetted.value.index) && KeepsValid(targetted.value.change)
    ensures r == Cav(self, targetted, subst) && Valid(r)
    decreases NumNodes(self), targetted.Some?
  {
    hide Cav, Valid, InTree, Renames, Replaceable, KeepsValid, Names, FreeVars, NumNodes, NodesBefore, Relevant,
      AllVals, Captures, ChildSubst, Scope, NewVar, Binder, Binds, BoundVar, ChildTarget, Apply, InChild, Start;
    if targetted.Some? && targetted.value.index == 0 {
      CavAtRoot(self, targetted.value, subst);
      match targetted.value.change {
        case ByExpr(val) =>
          ChangeValid(targetted.value.change, self);
          return val;
        case ByFun(f) =>
          WithoutTarget(self);
          var renamed := CavHelper(self, None, subst);
          ChangeValid(targetted.value.change, renamed);
          return f(renamed);
      }
    }
    if self.Variable? {
      NotIdentity(self, subst);
      assert self.name !in subst || Alpha(subst[self.name]) != Alpha(self);
      CavVariable(self, targetted, subst);
      return if self.name in subst then subst[self.name] else self;
    }
    var vals := Relevant(self, subst);
    if targetted.None? && vals == map[] {
      CavUnchanged(self, subst);
      return self;
    }
    ConstantUnchanged(self, targetted, subst);
    var allVals := AllVals(targetted, vals);
    var boundVals := vals;
    if Captures(self, allVals) {
      BinderIfCaptures(self, allVals);
      var nv := MakeNewVar({self} + allVals, BoundVar(self).typ);
      boundVals := vals[BoundVar(self).name := nv];
    }
    ScopeIs(self, targetted, subst);
    var searching := targetted.Some?;
    var targetIdx := if searching then targetted.value.index - 1 else 0;
    var newChildren: seq<Expr> := [];
    StartAt(self, 0);
    for i := 0 to |self.children|
      invariant |newChildren| == i
      invariant searching <==> targetted.Some? && Start(self, i) <= targetted.value.index
      invariant searching ==> targetIdx == targetted.value.index - Start(self, i)
      invariant forall k: nat | k < i ::
        InTree(self.children[k], ChildTarget(self, k, targetted))
          && newChildren[k] == Cav(self.children[k], ChildTarget(self, k, targetted),
          ChildSubst(self, k, targetted, subst)) && Valid(newChildren[k])
    {
      StartAt(self, i);
      var childTgt := None;
      if searching {
        if targetIdx < NumNodes(self.children[i]) {
          childTgt := Some(targetted.value.(index := targetIdx));
          searching := false;
        } else {
          targetIdx := targetIdx - NumNodes(self.children[i]);
        }
      }
      ChildTargetIs(self, i, targetted);
      TargetBelow(self, i, targetted);
      ChildRenames(self, i, targetted, subst);
      ValidChildren(self, i);
      var c := CavHelper(self.children[i], childTgt, if Binds(self, i) then boundVals else vals);
      newChildren := newChildren + [c];
    }
    FoundTarget(self, targetted);
    assert !searching;
    r := Node(self.op, newChildren);
    CavNode(self, targetted, subst);
    assert r == Cav(self, targetted, subst);
    CavNodeValid(self, targetted, subst);
  }

  lemma {:induction false} WithoutTarget(e: Expr)
    ensures InTree(e, None)
  {}

  lemma {:induction false} ChangeValid(c: Change, e: Expr)
    requires KeepsValid(c) && Valid(e)
    ensures Valid(Apply(c, e))
    ensures c.ByExpr? ==> Apply(c, e) == c.val
    ensures c.ByFun? ==> Apply(c, e) == c.f(e)
  {
    hide Valid;
  }

  lemma {:induction false} NotIdentity(e: Expr, subst: map<string, Expr>)
    requires Renames(e, subst) && e.Variable?
    ensures e.name in subst ==> Alpha(subst[e.name]) != Alpha(e) && Valid(subst[e.name])
  {
    assert e.name in subst ==> e.name in Relevant(e, subst);
    hide Valid;
  }

  lemma {:induction false} CavVariable(e: Expr, t: Option<Target>, subst: map<string, Expr>)
    requires e.Variable? && InTree(e, t) && !(t.Some? && t.value.index == 0)
    ensures Cav(e, t, subst) == if e.name in subst then subst[e.name] else e
  {}

  lemma {:induction false} CavUnchanged(e: Expr, subst: map<string, Expr>)
    requires !e.Variable? && Relevant(e, subst) == map[]
    ensures InTree(e, None) && Cav(e, None, subst) == e
  {
    hide Relevant;
  }

  lemma {:induction false} ConstantUnchanged(e: Expr, t: Option<Target>, subst: map<string, Expr>)
    requires !e.Variable? && InTree(e, t) && !(t.Some? && t.value.index == 0)
    requires !(t.None? && Relevant(e, subst) == map[])
    ensures e.Node?
  {
    hide Relevant, FreeVars, NumNodes;
    ConstantSize(e);
    if e.Constant? {
      RelevantToNone(e, subst);
      assert false;
    }
  }

  lemma {:induction false} RelevantToNone(e: Expr, subst: map<string, Expr>)
    requires FreeVars(e) == {}
    ensures Relevant(e, subst) == map[]
  {
    hide FreeVars;
  }

  lemma {:induction false} ConstantSize(e: Expr)
    ensures e.Constant? ==> NumNodes(e) == 1 && FreeVars(e) == {}
  {}

  lemma {:induction false} BinderIfCaptures(e: Expr, vals: set<Expr>)
    requires Captures(e, vals)
    ensures Binder(e)
  {
    hide FreeVars;
  }

  lemma {:induction false} ScopeIs(e: Expr, t: Option<Target>, subst: map<string, Expr>)
    requires e.Node?
    ensures var vals := Relevant(e, subst);
      && (Captures(e, AllVals(t, vals)) ==>
        Binder(e) && Scope(e, t, subst) == vals[BoundVar(e).name := NewVar({e} + AllVals(t, vals), BoundVar(e).typ)])
      && (!Captures(e, AllVals(t, vals)) ==> Scope(e, t, subst) == vals)
      && (forall i :: ChildSubst(e, i, t, subst) == if Binds(e, i) then Scope(e, t, subst) else vals)
  {
    hide FreeVars, AllVals, NewVar, Relevant;
  }

  lemma {:induction false} StartAt(e: Expr, i: nat)
    requires e.Node? && i <= |e.children|
    ensures i == 0 ==> Start(e, i) == 1
    ensures i < |e.children| ==> Start(e, i + 1) == Start(e, i) + NumNodes(e.children[i])
  {}

  lemma {:induction false} ChildTargetIs(e: Expr, i: nat, t: Option<Target>)
    requires e.Node? && i < |e.children|
    ensures ChildTarget(e, i, t) ==
      if t.Some? && Start(e, i) <= t.value.index < Start(e, i) + NumNodes(e.children[i])
        then Some(t.value.(index := t.value.index - Start(e, i))) else None
  {
    hide Start, NumNodes;
  }

  lemma {:induction false} FoundTarget(e: Expr, t: Option<Target>)
    requires e.Node? && InTree(e, t)
    ensures t.Some? ==> t.value.index < Start(e, |e.children|)
  {
    hide NodesBefore;
  }

  /** The constructor accepts the result: a binder still has a variable to bind, of known type for a lambda. */
  lemma {:induction false} CavNodeValid(e: Expr, t: Option<Target>, subst: map<string, Expr>)
    requires Valid(e) && InTree(e, t) && Renames(e, subst) && e.Node? && !(t.Some? && t.value.index == 0)
    requires t.Some? ==> Replaceable(e, t.value.index)
    requires !(t.None? && Relevant(e, subst) == map[])
    requires Cav(e, t, subst).Node? && forall k: nat | k < |Cav(e, t, subst).children| ::
      Valid(Cav(e, t, subst).children[k])
    ensures Valid(Cav(e, t, subst))
  {
    hide Cav, Renames, FreeVars, Names, Scope, ChildTarget, InTree, Replaceable, Relevant;
    CavNode(e, t, subst);
    if Binder(e) {
      TargetBelow(e, BoundIndex(e.op), t);
      BinderAfter(e, t, subst);
    } else {
      NotABinder(e);
    }
  }

  /** `replace_subtree` */
  method ReplaceSubtree(self: Expr, targetIdx: nat, change: Change, preserve: Option<Expr>)
    returns (r: Expr, ghost t: Target)
    requires Valid(self) && targetIdx < NumNodes(self) && Replaceable(self, targetIdx) && KeepsValid(change)
    ensures t == Target(targetIdx, change,
      if preserve.Some? then preserve.value else if change.ByExpr? then change.val else Constant(0.0))
    ensures r == Cav(self, Some(t), map[]) && Valid(r)
  {
    hide Cav, Valid, Replaceable, KeepsValid, Names, FreeVars, NumNodes;
    var p := if preserve.Some? then preserve.value else if change.ByExpr? then change.val else Constant(0.0);
    t := Target(targetIdx, change, p);
    r := CavHelper(self, Some(Target(targetIdx, change, p)), map[]);
  }
}
