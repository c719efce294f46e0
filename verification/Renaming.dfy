/** `rename_free`: renaming the free occurrences of a variable to any other name, with the exact condition under which
    nothing is captured. */
module Renaming {
  import opened Expressions
  import opened AlphaEquivalence
  import opened Meaning
  import opened Replacement

  /** What renaming should do: in the nameless form, every free `x` becomes a free `y`. */
  function SubstFree(n: Nameless, x: string, y: string): Nameless {
    match n
    case NFree(z) => if z == x then NFree(y) else n
    case NNode(op, arg, cs) => NNode(op, arg, seq(|cs|, i requires 0 <= i < |cs| => SubstFree(cs[i], x, y)))
    case _ => n
  }

  /** Where `x` is free, no binder of `x` has a free `y` in its scope, except inside the scope of a binder of `y`,
      which has been `renamed` there. */
  predicate Clean(e: Expr, x: string, y: string, renamed: bool) {
    e.Node? && x in FreeVars(e) ==>
      && (Binder(e) && BoundVar(e).name == x ==> renamed || y !in FreeVars(e.children[|e.children| - 1]))
      && forall i: nat | i < |e.children| ::
        Clean(e.children[i], x, y, renamed || (Binds(e, i) && BoundVar(e).name == y))
  }

  // ---------------------------------------------------------------- any substitution of variables for variables

  /** Where a variable is in scope, the other name `z` does not get its name. */
  ghost predicate Distinguished(e: Expr, i: nat, subst: map<string, Expr>, z: string) {
    Binds(e, i) ==> NameAfter(Scope(e, None, subst), z) != NameAfter(Scope(e, None, subst), BoundVar(e).name)
  }

  ghost predicate Apart(e: Expr, i: nat, subst: map<string, Expr>)
    requires e.Node? && i < |e.children|
  {
    forall z | z in FreeVars(e.children[i]) && !BoundIn(e, i, z) :: Distinguished(e, i, subst, z)
  }

  /** No binder captures a name that the substitution puts in its scope. */
  ghost predicate NoCapture(e: Expr, subst: map<string, Expr>)
    decreases e
  {
    e.Node? ==> forall i: nat | i < |e.children| ::
      Apart(e, i, subst) && NoCapture(e.children[i], ChildSubst(e, i, None, subst))
  }

  /** In context `d` the free names, once substituted, mean what they should given their meaning in `c`. */
  ghost predicate Faithful(e: Expr, subst: map<string, Expr>, c: seq<string>, d: seq<string>, x: string, y: string) {
    forall z | z in FreeVars(e) :: LooksRight(subst, c, d, x, y, z)
  }

  ghost predicate LooksRight(subst: map<string, Expr>, c: seq<string>, d: seq<string>, x: string, y: string, z: string)
  {
    Look(d, NameAfter(subst, z)) == SubstFree(Look(c, z), x, y)
  }

  /** The binders around child `i` of the result. */
  ghost function BelowAfter(e: Expr, i: nat, subst: map<string, Expr>, d: seq<string>): seq<string> {
    if Binds(e, i) then d + [NameAfter(Scope(e, None, subst), BoundVar(e).name)] else d
  }

  lemma {:induction false} CavNone(e: Expr)
    ensures Cav(e, None, map[]) == e
  {
    hide FreeVars;
    assert Relevant(e, map[]) == map[];
  }

  /** The shape of the result, whether or not the substitution matters. */
  lemma {:induction false} CavShape(e: Expr, subst: map<string, Expr>)
    requires Valid(e) && e.Node? && Renames(e, subst)
    ensures var e' := Cav(e, None, subst);
      && e'.Node? && e'.op == e.op && ArgType(e') == ArgType(e) && |e'.children| == |e.children|
      && forall i: nat | i < |e.children| ::
        && e'.children[i] == Cav(e.children[i], None, ChildSubst(e, i, None, subst))
        && (forall d :: Below(e', i, d) == BelowAfter(e, i, subst, d))
  {
    hide Cav, FreeVars, Relevant, Renames, Scope, ArgType, Valid, Binder;
    if Relevant(e, subst) == map[] {
      CavIdle(e, subst);
    } else {
      WithoutTarget(e);
      CavNode(e, None, subst);
      forall i: nat | i < |e.children|
        ensures Cav(e, None, subst).children[i] == Cav(e.children[i], None, ChildSubst(e, i, None, subst))
      {}
      CavBinder(e, None, subst);
    }
  }

  /** A substitution that does not matter to `e` changes nothing below either. */
  lemma {:induction false} CavIdle(e: Expr, subst: map<string, Expr>)
    requires e.Node? && Relevant(e, subst) == map[]
    ensures Cav(e, None, subst) == e
    ensures forall i: nat | i < |e.children| :: Cav(e.children[i], None, ChildSubst(e, i, None, subst)) == e.children[i]
    ensures forall i: nat, d | i < |e.children| :: Below(e, i, d) == BelowAfter(e, i, subst, d)
  {
    hide FreeVars, Relevant, Scope, Cav, Binds;
    WithoutTarget(e);
    CavUnchanged(e, subst);
    ScopeIdle(e, subst);
    forall i: nat | i < |e.children| ensures Cav(e.children[i], None, ChildSubst(e, i, None, subst)) == e.children[i] {
      CavNone(e.children[i]);
    }
  }

  lemma {:induction false} ScopeIdle(e: Expr, subst: map<string, Expr>)
    requires Relevant(e, subst) == map[]
    ensures Scope(e, None, subst) == map[]
  {
    hide FreeVars, Relevant, Binder;
  }

  lemma {:induction false} SubstFreeLift(n: Nameless, x: string, y: string)
    requires n.NFree? || n.NBound?
    ensures SubstFree(Lift(n), x, y) == Lift(SubstFree(n, x, y))
      && (SubstFree(n, x, y).NFree? || SubstFree(n, x, y).NBound?)
  {}

  /** What a name means below the binders of child `i`. */
  lemma {:induction false} LooksRightBelow(e: Expr, i: nat, subst: map<string, Expr>, c: seq<string>, d: seq<string>,
      x: string, y: string, z: string)
    requires e.Node? && i < |e.children| && z in FreeVars(e.children[i])
    ensures var r := LooksRight(ChildSubst(e, i, None, subst), Below(e, i, c), BelowAfter(e, i, subst, d), x, y, z);
      && (BoundIn(e, i, z) ==> r)
      && (!BoundIn(e, i, z) ==>
        (r <==> LooksRight(subst, c, d, x, y, z) && Distinguished(e, i, subst, z)))
  {
    hide Look, FreeVars, Binder, Scope, Relevant, NameAfter, Captures;
    var sub := ChildSubst(e, i, None, subst);
    if Binds(e, i) {
      var b := BoundVar(e).name;
      LookPush(c, b, z);
      LookPush(d, NameAfter(sub, b), NameAfter(sub, z));
      SubstFreeLift(Look(c, z), x, y);
      LookPositive(c, z);
    }
    if !BoundIn(e, i, z) {
      FreeChild(e, i, z);
      SubstAtOther(e, i, subst, z);
    }
  }

  lemma {:induction false} SubstAtOther(e: Expr, i: nat, subst: map<string, Expr>, z: string)
    requires e.Node? && i < |e.children| && z in FreeVars(e) && !BoundIn(e, i, z)
    ensures NameAfter(ChildSubst(e, i, None, subst), z) == NameAfter(subst, z)
  {
    hide FreeVars, Binder, Captures, NewVar;
  }

  lemma {:induction false} FaithfulChild(e: Expr, i: nat, subst: map<string, Expr>, c: seq<string>, d: seq<string>,
      x: string, y: string)
    requires e.Node? && i < |e.children|
    ensures Faithful(e.children[i], ChildSubst(e, i, None, subst), Below(e, i, c), BelowAfter(e, i, subst, d), x, y)
      <==> Apart(e, i, subst) && forall z | z in FreeVars(e.children[i]) && !BoundIn(e, i, z) ::
        LooksRight(subst, c, d, x, y, z)
  {
    hide FreeVars, Binder, Scope, ChildSubst, Below, BelowAfter, NameAfter, LooksRight;
    forall z | z in FreeVars(e.children[i]) ensures
      var r := LooksRight(ChildSubst(e, i, None, subst), Below(e, i, c), BelowAfter(e, i, subst, d), x, y, z);
      && (BoundIn(e, i, z) ==> r)
      && (!BoundIn(e, i, z) ==>
        (r <==> LooksRight(subst, c, d, x, y, z) && Distinguished(e, i, subst, z)))
    {
      LooksRightBelow(e, i, subst, c, d, x, y, z);
    }
  }

  lemma {:induction false} FaithfulNode(e: Expr, subst: map<string, Expr>, c: seq<string>, d: seq<string>, x: string,
      y: string)
    requires e.Node?
    ensures (forall i: nat | i < |e.children| ::
        Faithful(e.children[i], ChildSubst(e, i, None, subst), Below(e, i, c), BelowAfter(e, i, subst, d), x, y))
      <==> Faithful(e, subst, c, d, x, y) && forall i: nat | i < |e.children| :: Apart(e, i, subst)
  {
    hide FreeVars, BoundIn, ChildSubst, Below, BelowAfter, LooksRight, Apart;
    forall i: nat | i < |e.children| ensures
      Faithful(e.children[i], ChildSubst(e, i, None, subst), Below(e, i, c), BelowAfter(e, i, subst, d), x, y)
      <==> Apart(e, i, subst) && forall z | z in FreeVars(e.children[i]) && !BoundIn(e, i, z) ::
        LooksRight(subst, c, d, x, y, z)
    {
      FaithfulChild(e, i, subst, c, d, x, y);
    }
    if Faithful(e, subst, c, d, x, y) {
      forall i: nat, z | i < |e.children| && z in FreeVars(e.children[i]) && !BoundIn(e, i, z)
        ensures LooksRight(subst, c, d, x, y, z)
      {
        FreeChild(e, i, z);
      }
    } else {
      var z :| z in FreeVars(e) && !LooksRight(subst, c, d, x, y, z);
      var i := FreeSomewhere(e, z);
    }
  }

  lemma {:induction false} SubstFreeNode(n: Nameless, m: Nameless, x: string, y: string)
    requires n.NNode? && m.NNode? && n.op == m.op && n.arg == m.arg && |n.children| == |m.children|
    ensures m == SubstFree(n, x, y) <==> forall i: nat | i < |n.children| ::
      m.children[i] == SubstFree(n.children[i], x, y)
  {}

  /** For any substitution of variables and any two contexts, the result has the nameless form it should have exactly
      if the free names mean what they should and no binder captures. */
  lemma {:induction false} CavForm(e: Expr, subst: map<string, Expr>, c: seq<string>, d: seq<string>, x: string,
      y: string)
    requires Valid(e) && Renames(e, subst)
    ensures Strip(Cav(e, None, subst), d) == SubstFree(Strip(e, c), x, y)
      <==> Faithful(e, subst, c, d, x, y) && NoCapture(e, subst)
    decreases e
  {
    if e.Node? {
      CavFormNode(e, subst, c, d, x, y);
    } else {
      CavFormLeaf(e, subst, c, d, x, y);
    }
  }

  lemma {:induction false} CavFormLeaf(e: Expr, subst: map<string, Expr>, c: seq<string>, d: seq<string>, x: string,
      y: string)
    requires Renames(e, subst) && !e.Node?
    ensures Strip(Cav(e, None, subst), d) == SubstFree(Strip(e, c), x, y)
      <==> Faithful(e, subst, c, d, x, y) && NoCapture(e, subst)
  {
    hide Look, Valid;
    if e.Variable? {
      RelevantNames(e, subst, e.name);
      assert Faithful(e, subst, c, d, x, y) <==> LooksRight(subst, c, d, x, y, e.name);
    }
  }

  lemma {:induction false} CavFormNode(e: Expr, subst: map<string, Expr>, c: seq<string>, d: seq<string>, x: string,
      y: string)
    requires Valid(e) && Renames(e, subst) && e.Node?
    ensures Strip(Cav(e, None, subst), d) == SubstFree(Strip(e, c), x, y)
      <==> Faithful(e, subst, c, d, x, y) && NoCapture(e, subst)
    decreases e, 0
  {
    hide Cav, FreeVars, Renames, ChildSubst, ArgType, Below, BelowAfter, Apart, Faithful, SubstFree;
    var e' := Cav(e, None, subst);
    CavShape(e, subst);
    SubstFreeNode(Strip(e, c), Strip(e', d), x, y);
    forall i: nat | i < |e.children|
      ensures Strip(e', d).children[i] == SubstFree(Strip(e, c).children[i], x, y) <==>
        && Faithful(e.children[i], ChildSubst(e, i, None, subst), Below(e, i, c), BelowAfter(e, i, subst, d), x, y)
        && NoCapture(e.children[i], ChildSubst(e, i, None, subst))
    {
      ChildRenames(e, i, None, subst);
      CavForm(e.children[i], ChildSubst(e, i, None, subst), Below(e, i, c), BelowAfter(e, i, subst, d), x, y);
    }
    FaithfulNode(e, subst, c, d, x, y);
  }

  // ---------------------------------------------------------------- the condition on `rename_free`

  /** What the substitution is like below a renaming of `x` to `v`: a free `y` is substituted exactly if it is
      `renamed`. */
  ghost predicate OnTheWay(e: Expr, x: string, v: Expr, renamed: bool, subst: map<string, Expr>)
    requires v.Variable?
  {
    var y := v.name;
    && subst.Keys <= {x, y} && (x in subst ==> subst[x] == v)
    && (y in subst ==> NewName(e, v, subst[y]))
    && (x in FreeVars(e) ==> x in subst && (y in FreeVars(e) ==> (y in subst <==> renamed)))
  }

  ghost predicate NewName(e: Expr, v: Expr, nv: Expr)
    requires v.Variable?
  {
    Valid(nv) && nv.Variable? && nv.name !in Names(e) && nv.name != v.name
  }

  /** A renaming to fresh variables is never captured. */
  lemma {:induction false} FreshNoCapture(e: Expr, subst: map<string, Expr>)
    requires Fresh(e, None, subst)
    ensures NoCapture(e, subst)
    decreases e
  {
    hide FreeVars, Names, Fresh, ChildSubst, Scope, NameAfter;
    if e.Node? {
      forall i: nat | i < |e.children|
        ensures Apart(e, i, subst) && NoCapture(e.children[i], ChildSubst(e, i, None, subst))
      {
        forall z | z in FreeVars(e.children[i]) && !BoundIn(e, i, z) ensures Distinguished(e, i, subst, z) {
          FreeChild(e, i, z);
          if Binds(e, i) {
            ScopeNames(e, None, subst, z);
          }
        }
        ChildFresh(e, i, None, subst);
        WithoutTarget(e);
        FreshNoCapture(e.children[i], ChildSubst(e, i, None, subst));
      }
    }
  }

  lemma {:induction false} NoCaptureRelevant(e: Expr, subst: map<string, Expr>)
    requires NoCapture(e, Relevant(e, subst))
    ensures NoCapture(e, subst)
  {
    hide FreeVars, Captures, NewVar, Binder;
    if e.Node? {
      assert Relevant(e, Relevant(e, subst)) == Relevant(e, subst);
      assert Scope(e, None, Relevant(e, subst)) == Scope(e, None, subst);
      hide Scope, Relevant, NameAfter;
      forall i: nat | i < |e.children|
        ensures Apart(e, i, subst) && NoCapture(e.children[i], ChildSubst(e, i, None, subst)) {
        assert Apart(e, i, Relevant(e, subst));
      }
    }
  }

  /** Where `x` is not free, what remains is a fresh renaming of `y`. */
  lemma {:induction false} NoCaptureElsewhere(e: Expr, x: string, v: Expr, renamed: bool, subst: map<string, Expr>)
    requires v.Variable? && v.name != x && OnTheWay(e, x, v, renamed, subst) && x !in FreeVars(e)
    ensures NoCapture(e, subst)
  {
    hide FreeVars, Names, NoCapture, Valid;
    FreshNoCapture(e, Relevant(e, subst));
    NoCaptureRelevant(e, subst);
  }

  /** Only a binder of `y` gets a new variable. */
  lemma {:induction false} ScopeOnTheWay(e: Expr, x: string, v: Expr, renamed: bool, subst: map<string, Expr>)
    requires Binder(e) && v.Variable? && v.name != x && OnTheWay(e, x, v, renamed, subst) && x in FreeVars(e)
    ensures var b, scope, vals := BoundVar(e).name, Scope(e, None, subst), Relevant(e, subst);
      if b == v.name then b in scope && NewName(e, v, scope[b]) && scope == vals[b := scope[b]] else scope == vals
  {
    hide FreeVars, Names, Valid, Binder, NewVar;
    var b, vals := BoundVar(e).name, Relevant(e, subst);
    BoundIsName(e);
    NewBinderName(e, None, vals);
    VariableNames(vals);
    VariableFree();
    assert vals[x] == v && v in vals.Values;
    if b == v.name {
      assert v in AllVals(None, vals);
      assert Captures(e, AllVals(None, vals));
    }
  }

  lemma {:induction false} VariableFree()
    ensures forall w: Expr | w.Variable? :: FreeVars(w) == {w.name} && Names(w) == {w.name}
  {}

  lemma {:induction false} ChildOnTheWay(e: Expr, i: nat, x: string, v: Expr, renamed: bool, subst: map<string, Expr>)
    requires e.Node? && i < |e.children| && v.Variable? && v.name != x
    requires OnTheWay(e, x, v, renamed, subst) && x in FreeVars(e)
    ensures OnTheWay(e.children[i], x, v, renamed || (Binds(e, i) && BoundVar(e).name == v.name),
      ChildSubst(e, i, None, subst))
  {
    hide FreeVars, Names, Valid, Binder, Scope;
    NamesOfChild(e, i);
    if Binds(e, i) {
      ScopeOnTheWay(e, x, v, renamed, subst);
    }
    forall z | z in FreeVars(e.children[i]) && !BoundIn(e, i, z) ensures z in FreeVars(e) {
      FreeChild(e, i, z);
    }
  }

  /** A variable in scope is captured exactly by a binder of `x` over a `y` that is not renamed. */
  lemma {:induction false} ApartIff(e: Expr, i: nat, x: string, v: Expr, renamed: bool, subst: map<string, Expr>)
    requires e.Node? && i < |e.children| && v.Variable? && v.name != x
    requires OnTheWay(e, x, v, renamed, subst) && x in FreeVars(e)
    ensures Apart(e, i, subst)
      <==> (Binds(e, i) && BoundVar(e).name == x ==> renamed || v.name !in FreeVars(e.children[i]))
  {
    hide FreeVars, Names, Valid, Binder, Scope, Relevant;
    if Binds(e, i) {
      var b, y := BoundVar(e).name, v.name;
      ScopeOnTheWay(e, x, v, renamed, subst);
      FreeAreNames(e);
      BoundIsName(e);
      forall z | z in FreeVars(e.children[i]) && z != b
        ensures Distinguished(e, i, subst, z) <==> !(b == x && z == y && !renamed)
      {
        FreeChild(e, i, z);
        RelevantNames(e, subst, z);
        RelevantNames(e, subst, b);
      }
    }
  }

  /** The condition that a caller can check is the one that matters. */
  lemma {:induction false} CleanIffNoCapture(e: Expr, x: string, v: Expr, renamed: bool, subst: map<string, Expr>)
    requires v.Variable? && v.name != x && OnTheWay(e, x, v, renamed, subst)
    ensures NoCapture(e, subst) <==> Clean(e, x, v.name, renamed)
    decreases e
  {
    hide FreeVars, Names, OnTheWay, Apart, ChildSubst, Valid;
    if x !in FreeVars(e) {
      NoCaptureElsewhere(e, x, v, renamed, subst);
    } else if e.Node? {
      forall i: nat | i < |e.children|
        ensures Apart(e, i, subst)
          <==> (Binds(e, i) && BoundVar(e).name == x ==> renamed || v.name !in FreeVars(e.children[i]))
        ensures NoCapture(e.children[i], ChildSubst(e, i, None, subst))
          <==> Clean(e.children[i], x, v.name, renamed || (Binds(e, i) && BoundVar(e).name == v.name))
      {
        ApartIff(e, i, x, v, renamed, subst);
        ChildOnTheWay(e, i, x, v, renamed, subst);
        CleanIffNoCapture(e.children[i], x, v, renamed || (Binds(e, i) && BoundVar(e).name == v.name),
          ChildSubst(e, i, None, subst));
      }
      OnlyTheLast(e, x, v.name);
    }
  }

  /** The binding occurrence has no other name in it. */
  lemma {:induction false} OnlyTheLast(e: Expr, x: string, y: string)
    requires e.Node? && x != y
    ensures Binder(e) && BoundVar(e).name == x && y !in FreeVars(e.children[|e.children| - 1]) ==>
      forall i: nat | i < |e.children| && Binds(e, i) :: y !in FreeVars(e.children[i])
  {
    hide FreeVars;
    VariableFree();
  }

  // ---------------------------------------------------------------- rename_free

  /** Renaming `x` to any other `y` does what it should, exactly if the expression is clean. */
  lemma {:induction false} RenameFreeForm(e: Expr, x: string, v: Expr)
    requires Valid(e) && Valid(v) && v.Variable? && v.name != x
    ensures Alpha(Cav(e, None, map[x := v])) == SubstFree(Alpha(e), x, v.name) <==> Clean(e, x, v.name, false)
  {
    hide FreeVars, Names, Cav, NoCapture, Clean, Strip;
    var y := v.name;
    CavForm(e, map[x := v], [], [], x, y);
    CleanIffNoCapture(e, x, v, false, map[x := v]);
  }

  /** In particular a name that does not occur can always be used. */
  lemma {:induction false} UnusedIsClean(e: Expr, x: string, y: string, renamed: bool)
    requires y !in Names(e)
    ensures Clean(e, x, y, renamed)
    decreases e
  {
    hide FreeVars, Names;
    if e.Node? && x in FreeVars(e) {
      forall i: nat | i < |e.children|
        ensures y !in FreeVars(e.children[i])
        ensures Clean(e.children[i], x, y, renamed || (Binds(e, i) && BoundVar(e).name == y))
      {
        NamesOfChild(e, i);
        FreeAreNames(e.children[i]);
        UnusedIsClean(e.children[i], x, y, renamed || (Binds(e, i) && BoundVar(e).name == y));
      }
    }
  }

  /** The result is acceptable to the constructor, clean or not. */
  lemma {:induction false} CavValid(e: Expr, subst: map<string, Expr>)
    requires Valid(e) && Renames(e, subst)
    ensures Valid(Cav(e, None, subst))
    decreases e
  {
    hide FreeVars, Valid, Cav, Relevant, Renames, ChildSubst;
    WithoutTarget(e);
    if e.Variable? {
      NotIdentity(e, subst);
      CavVariable(e, None, subst);
    } else if Relevant(e, subst) == map[] {
      CavUnchanged(e, subst);
    } else {
      ConstantUnchanged(e, None, subst);
      CavShape(e, subst);
      forall i: nat | i < |e.children| ensures Valid(Cav(e, None, subst).children[i]) {
        ValidChildren(e, i);
        ChildRenames(e, i, None, subst);
        CavValid(e.children[i], ChildSubst(e, i, None, subst));
      }
      CavNodeValid(e, None, subst);
    }
  }

  /** A free `y` in the place of a free `x` has the value of `y`. */
  lemma {:induction false} EvalSubstFree<V(!new)>(I: Interp<V>, base: map<string, V>, n: Nameless, stack: seq<V>,
      x: string, y: string)
    ensures EvalNameless(I, base, SubstFree(n, x, y), stack)
      == EvalNameless(I, Extend(base, x, Lookup(I, base, y)), n, stack)
    decreases n, 1
  {
    hide EvalNamelessChild;
    if n.NNode? {
      var n', base' := SubstFree(n, x, y), Extend(base, x, Lookup(I, base, y));
      forall i: nat | i < |n.children|
        ensures EvalNamelessChild(I, base, n', i, stack) == EvalNamelessChild(I, base', n, i, stack)
      {
        EvalSubstFreeChild(I, base, n, i, stack, x, y);
      }
      assert seq(|n.children|, i requires 0 <= i < |n.children| => EvalNamelessChild(I, base', n, i, stack))
          == seq(|n'.children|, i requires 0 <= i < |n'.children| => EvalNamelessChild(I, base, n', i, stack));
    }
  }

  lemma {:induction false} EvalSubstFreeChild<V(!new)>(I: Interp<V>, base: map<string, V>, n: Nameless, i: nat,
      stack: seq<V>, x: string, y: string)
    requires n.NNode? && i < |n.children|
    ensures SubstFree(n, x, y).NNode? && i < |SubstFree(n, x, y).children|
    ensures EvalNamelessChild(I, base, SubstFree(n, x, y), i, stack)
      == EvalNamelessChild(I, Extend(base, x, Lookup(I, base, y)), n, i, stack)
    decreases n, 0
  {
    hide EvalNameless, Extend, Lookup;
    EvalSubstFree(I, base, n.children[i], stack, x, y);
    forall v: V ensures EvalNameless(I, base, SubstFree(n.children[i], x, y), stack + [v])
      == EvalNameless(I, Extend(base, x, Lookup(I, base, y)), n.children[i], stack + [v])
    {
      EvalSubstFree(I, base, n.children[i], stack + [v], x, y);
    }
  }

  /** A clean expression evaluates, after the renaming, as it did with the value of `y` for `x`. */
  lemma {:induction false} RenameFreeMeans<V(!new)>(I: Interp<V>, e: Expr, x: string, v: Expr, env: map<string, V>)
    requires Valid(e) && Valid(v) && v.Variable? && v.name != x && Clean(e, x, v.name, false)
    ensures Eval(I, Cav(e, None, map[x := v]), env) == Eval(I, e, Extend(env, x, Lookup(I, env, v.name)))
  {
    hide *;
    WithoutTarget(e);
    var e', env' := Cav(e, None, map[x := v]), Extend(env, x, Lookup(I, env, v.name));
    RenamesOne(e, x, v);
    CavValid(e, map[x := v]);
    RenameFreeForm(e, x, v);
    HoldsNothing(I, env);
    HoldsNothing(I, env');
    EvalStrip(I, env, e', [], [], env);
    EvalStrip(I, env', e, [], [], env');
    AlphaIs(e);
    AlphaIs(e');
    EvalSubstFree(I, env, Alpha(e), [], x, v.name);
  }

  lemma {:induction false} RenamesOne(e: Expr, x: string, v: Expr)
    requires Valid(v) && v.Variable? && v.name != x
    ensures Renames(e, map[x := v])
  {}

  /** `rename_free`. The assertion that it renames nothing to itself does not fail if the names differ. */
  method RenameFree(self: Expr, varName: string, newVar: Expr) returns (r: Expr)
    requires Valid(self) && Valid(newVar) && newVar.Variable? && newVar.name != varName
    ensures Valid(r) && r == Cav(self, None, map[varName := newVar])
    ensures Alpha(r) == SubstFree(Alpha(self), varName, newVar.name) <==> Clean(self, varName, newVar.name, false)
  {
    hide *;
    RenamesOne(self, varName, newVar);
    WithoutTarget(self);
    RenameFreeForm(self, varName, newVar);
    r := CavHelper(self, None, map[varName := newVar]);
  }

  /** Another name may be captured: in `let x = x in y`, renaming `x` to `y` gives `let y = y in y`, whose body means
      something else than that of `let x = y in y`. */
  lemma {:induction false} RenameFreeMayCapture()
    ensures var x, y := Variable("x", None), Variable("y", None);
      var e, e' := Node(Let, [x, x, y]), Node(Let, [y, y, y]);
      && Cav(e, None, map["x" := y]) == e' && !Clean(e, "x", "y", false)
      && Alpha(e') != SubstFree(Alpha(e), "x", "y") && Alpha(e') != Alpha(Node(Let, [x, y, y]))
  {
    hide Strip, Cav, SubstFree;
    var x, y := Variable("x", None), Variable("y", None);
    var e, e', subst := Node(Let, [x, x, y]), Node(Let, [y, y, y]), map["x" := y];
    assert Binder(e) && BoundVar(e) == x && !Binds(e, 1) && Binds(e, 0) && Binds(e, 2);
    VariableFree();
    FreeChild(e, 1, "x");
    assert "x" in Relevant(e, subst) && Relevant(e, subst) == subst;
    assert forall v | v in AllVals(None, subst) :: v == y;
    assert ChildSubst(e, 0, None, subst) == ChildSubst(e, 1, None, subst) == ChildSubst(e, 2, None, subst) == subst;
    CavShape(e, subst);
    CavVariable(x, None, subst);
    CavVariable(y, None, subst);
    assert Cav(e, None, subst).children == [y, y, y];
    RenameFreeForm(e, "x", y);
    CapturedInLet(x, y);
  }

  lemma {:induction false} CapturedInLet(x: Expr, y: Expr)
    requires x.Variable? && y.Variable? && x.name != y.name
    ensures Alpha(Node(Let, [y, y, y])) != Alpha(Node(Let, [x, y, y]))
  {
    hide Look;
    LookPush([], y.name, y.name);
    LookPush([], x.name, y.name);
    StripNode(Node(Let, [y, y, y]), Node(Let, [x, y, y]), [], []);
    assert Strip(y, Below(Node(Let, [y, y, y]), 2, [])) != Strip(y, Below(Node(Let, [x, y, y]), 2, []));
  }
}
