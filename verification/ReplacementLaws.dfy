/** What the result of a replacement looks like: where the new subtree is, which binders are renamed, and that nothing
    else changes. */
module ReplacementLaws {
  import opened Expressions
  import opened AlphaEquivalence
  import opened Replacement

  // ---------------------------------------------------------------- renaming only to avoid capture

  /** Plain replacement and substitution, which never renames a binder. */
  ghost function Substituted(e: Expr, t: Option<Target>, subst: map<string, Expr>): Expr
    requires InTree(e, t)
    decreases e, if t.Some? then 1 else 0
  {
    if t.Some? && t.value.index == 0 then Replacement.Apply(t.value.change, Substituted(e, None, subst))
    else match e
      case Constant(_) => e
      case Variable(x, _) => if x in subst then subst[x] else e
      case Node(op, cs) =>
        Node(op, seq(|cs|, i requires 0 <= i < |cs| => Substituted(cs[i], ChildTarget(e, i, t), subst)))
  }

  /** No binder in `e` has a name that is substituted, that a new value contains, or that must be preserved. */
  ghost predicate NothingBound(e: Expr, t: Option<Target>, subst: map<string, Expr>) {
    e.Node? ==>
      && (Binder(e) ==>
        && BoundVar(e).name !in subst
        && (forall x | x in subst :: BoundVar(e).name !in FreeVars(subst[x]))
        && (t.Some? ==> BoundVar(e).name !in FreeVars(t.value.preserve)))
      && forall i | 0 <= i < |e.children| :: NothingBound(e.children[i], t, subst)
  }

  lemma {:induction false} NothingBoundLess(e: Expr, t: Option<Target>, subst: map<string, Expr>, t': Option<Target>,
      subst': map<string, Expr>)
    requires NothingBound(e, t, subst) && (forall x | x in subst' :: x in subst && subst'[x] == subst[x])
    requires t'.Some? ==> t.Some? && t'.value.preserve == t.value.preserve
    ensures NothingBound(e, t', subst')
  {
    hide FreeVars, Binder;
    if e.Node? {
      forall i | 0 <= i < |e.children| ensures NothingBound(e.children[i], t', subst') {
        NothingBoundLess(e.children[i], t, subst, t', subst');
      }
    }
  }

  lemma {:induction false} NothingCaptured(e: Expr, t: Option<Target>, subst: map<string, Expr>)
    requires NothingBound(e, t, subst)
    ensures !Captures(e, AllVals(t, Relevant(e, subst)))
  {
    hide FreeVars, Relevant, AllVals;
    RelevantIs(e, subst);
    if Captures(e, AllVals(t, Relevant(e, subst))) {
      CaptureIs(e, t, Relevant(e, subst));
      assert false;
    }
  }

  /** Only what is free in `e` matters. */
  lemma {:induction false} OnlyRelevant(e: Expr, t: Option<Target>, subst: map<string, Expr>, subst': map<string, Expr>)
    requires InTree(e, t) && NothingBound(e, None, subst)
    requires forall x | x in subst' :: x in subst && subst'[x] == subst[x]
    requires forall x | x in subst && x in FreeVars(e) :: x in subst'
    ensures Substituted(e, t, subst') == Substituted(e, t, subst)
    decreases e, if t.Some? then 1 else 0
  {
    hide FreeVars, Binder, InChild;
    if t.Some? && t.value.index == 0 {
      OnlyRelevant(e, None, subst, subst');
    } else if e.Node? {
      forall i | 0 <= i < |e.children|
        ensures InTree(e.children[i], ChildTarget(e, i, t))
        ensures Substituted(e.children[i], ChildTarget(e, i, t), subst')
          == Substituted(e.children[i], ChildTarget(e, i, t), subst) {
        forall x | x in subst && x in FreeVars(e.children[i]) ensures x in subst' {
          FreeChild(e, i, x);
        }
        TargetInChild(e, i, t);
        OnlyRelevant(e.children[i], ChildTarget(e, i, t), subst, subst');
      }
    } else {
      FreeInLeaf(e);
    }
  }

  lemma {:induction false} TargetInChild(e: Expr, i: nat, t: Option<Target>)
    requires e.Node? && i < |e.children|
    ensures InTree(e.children[i], ChildTarget(e, i, t))
  {
    hide NumNodes, Start;
  }

  lemma {:induction false} SubstitutedNothing(e: Expr)
    ensures InTree(e, None) && Substituted(e, None, map[]) == e
  {
    if e.Node? {
      forall i | 0 <= i < |e.children| ensures Substituted(e.children[i], None, map[]) == e.children[i] {
        SubstitutedNothing(e.children[i]);
      }
    }
  }

  /** If nothing could be captured, replacement is plain replacement: no binder is renamed. */
  lemma {:induction false} PlainIfNothingBound(e: Expr, t: Option<Target>, subst: map<string, Expr>)
    requires InTree(e, t) && NothingBound(e, t, subst)
    ensures Cav(e, t, subst) == Substituted(e, t, subst)
    decreases e, if t.Some? then 1 else 0
  {
    hide FreeVars, Binder, InChild, Captures, AllVals, Relevant, ChildSubst;
    NothingBoundLess(e, t, subst, None, subst);
    if t.Some? && t.value.index == 0 {
      PlainIfNothingBound(e, None, subst);
    } else if e.Node? {
      var vals := Relevant(e, subst);
      RelevantIs(e, subst);
      if t.None? && vals == map[] {
        OnlyRelevant(e, None, subst, vals);
        SubstitutedNothing(e);
      } else {
        NothingCaptured(e, t, subst);
        ScopeIs(e, t, subst);
        CavNode(e, t, subst);
        forall i: nat | i < |e.children|
          ensures Cav(e.children[i], ChildTarget(e, i, t), ChildSubst(e, i, t, subst))
            == Substituted(e.children[i], ChildTarget(e, i, t), vals) {
          NothingBoundLess(e.children[i], t, subst, ChildTarget(e, i, t), vals);
          PlainIfNothingBound(e.children[i], ChildTarget(e, i, t), vals);
        }
        OnlyRelevant(e, t, subst, vals);
        SubstitutedNode(e, t, vals, Cav(e, t, subst));
      }
    }
  }

  lemma {:induction false} SubstitutedNode(e: Expr, t: Option<Target>, subst: map<string, Expr>, e': Expr)
    requires e.Node? && InTree(e, t) && !(t.Some? && t.value.index == 0)
    requires e'.Node? && e'.op == e.op && |e'.children| == |e.children|
    requires forall i: nat | i < |e.children| ::
      InTree(e.children[i], ChildTarget(e, i, t))
      && e'.children[i] == Substituted(e.children[i], ChildTarget(e, i, t), subst)
    ensures e' == Substituted(e, t, subst)
  {
    hide ChildTarget;
    assert e'.children == Substituted(e, t, subst).children;
  }

  lemma {:induction false} RelevantIs(e: Expr, subst: map<string, Expr>)
    ensures forall x | x in Relevant(e, subst) :: x in subst && Relevant(e, subst)[x] == subst[x]
    ensures forall x | x in subst && x in FreeVars(e) :: x in Relevant(e, subst)
  {
    hide FreeVars;
  }

  /** On the way to the target, and where something is substituted, a binder is renamed exactly if its name is free in
      what is preserved or in a new value that matters below it. */
  lemma {:induction false} RenamedIffCaptures(e: Expr, t: Option<Target>, subst: map<string, Expr>)
    requires Binder(e) && InTree(e, t) && BoundVar(e).name !in subst
    requires t.Some? ==> t.value.index > 0 && !InChild(e, BoundIndex(e.op), t.value.index)
    ensures var b, e' := BoundVar(e).name, Cav(e, t, subst);
      && e'.Node? && |e'.children| == |e.children|
      && (e'.children[BoundIndex(e.op)] != BoundVar(e) <==>
        (t.Some? && b in FreeVars(t.value.preserve))
        || exists x :: x in subst && x in FreeVars(e) && b in FreeVars(subst[x]))
  {
    hide FreeVars, InChild, NewVar, Names, Relevant, Valid;
    var vals, b := Relevant(e, subst), BoundVar(e);
    RelevantIs(e, subst);
    RelevantWithin(e, subst);
    if t.Some? || vals != map[] {
      CavNode(e, t, subst);
      ScopeIs(e, t, subst);
      NewBinderName(e, t, vals);
      BoundIsName(e);
      CavBound(b, Scope(e, t, subst));
      CaptureIs(e, t, vals);
    }
  }

  lemma {:induction false} RelevantWithin(e: Expr, subst: map<string, Expr>)
    ensures forall x | x in Relevant(e, subst) :: x in FreeVars(e)
  {
    hide FreeVars;
  }

  lemma {:induction false} CavBound(b: Expr, subst: map<string, Expr>)
    requires b.Variable?
    ensures InTree(b, None) && Cav(b, None, subst) == if b.name in subst then subst[b.name] else b
  {}

  lemma {:induction false} CaptureIs(e: Expr, t: Option<Target>, vals: map<string, Expr>)
    requires Binder(e)
    ensures Captures(e, AllVals(t, vals)) <==>
      (t.Some? && BoundVar(e).name in FreeVars(t.value.preserve))
      || exists x :: x in vals && BoundVar(e).name in FreeVars(vals[x])
  {
    hide FreeVars, Binder;
    if x :| x in vals && BoundVar(e).name in FreeVars(vals[x]) {
      assert vals[x] in vals.Values;
    }
  }

  // ---------------------------------------------------------------- where the new subtree is

  /** Substituting variables for variables keeps the number of nodes. */
  lemma {:induction false} SameSize(e: Expr, subst: map<string, Expr>)
    requires forall x | x in subst :: subst[x].Variable?
    ensures InTree(e, None) && NumNodes(Cav(e, None, subst)) == NumNodes(e)
    decreases e
  {
    hide FreeVars, NewVar, Relevant, Binder;
    if e.Node? && Relevant(e, subst) != map[] {
      var e' := Cav(e, None, subst);
      CavNode(e, None, subst);
      forall i: nat | i < |e.children| ensures NumNodes(e'.children[i]) == NumNodes(e.children[i]) {
        ChildVariables(e, i, None, subst);
        NoTargetBelow(e, i);
        SameSize(e.children[i], ChildSubst(e, i, None, subst));
      }
      SameBefore(e, e', |e.children|);
    }
  }

  lemma {:induction false} NoTargetBelow(e: Expr, i: nat)
    requires e.Node? && i < |e.children|
    ensures ChildTarget(e, i, None) == None
  {}

  lemma {:induction false} ChildVariables(e: Expr, i: nat, t: Option<Target>, subst: map<string, Expr>)
    requires e.Node? && i < |e.children| && forall x | x in subst :: subst[x].Variable?
    ensures forall x | x in ChildSubst(e, i, t, subst) :: ChildSubst(e, i, t, subst)[x].Variable?
  {
    hide FreeVars, Captures, AllVals;
  }

  lemma {:induction false} SameBefore(e: Expr, e': Expr, k: nat)
    requires e.Node? && e'.Node? && k <= |e.children| == |e'.children|
    requires forall i: nat | i < k :: NumNodes(e'.children[i]) == NumNodes(e.children[i])
    ensures NodesBefore(e', k) == NodesBefore(e, k)
  {
    hide NumNodes;
    if k > 0 {
      SameBefore(e, e', k - 1);
    }
  }

  /** The child that contains the target. */
  lemma {:induction false} TargetChild(e: Expr, index: nat, k: nat) returns (i: nat)
    requires e.Node? && k <= |e.children| && 0 < index < Start(e, k)
    ensures i < k && InChild(e, i, index)
  {
    hide NumNodes;
    if index >= Start(e, k - 1) {
      i := k - 1;
    } else {
      i := TargetChild(e, index, k - 1);
    }
  }

  lemma {:induction false} OneTargetChild(e: Expr, index: nat, i: nat, j: nat)
    requires e.Node? && i < |e.children| && j < |e.children| && InChild(e, i, index) && InChild(e, j, index)
    ensures i == j
  {
    hide NumNodes;
    if i < j {
      StartMonotone(e, i + 1, j);
    } else if j < i {
      StartMonotone(e, j + 1, i);
    }
  }

  lemma {:induction false} StartMonotone(e: Expr, i: nat, j: nat)
    requires e.Node? && i <= j <= |e.children|
    ensures NodesBefore(e, i) <= NodesBefore(e, j)
    decreases j
  {
    hide NumNodes;
    if i < j {
      StartMonotone(e, i, j - 1);
    }
  }

  /** The subtree at the target's index is the replacement itself, whatever was renamed on the way to it. */
  lemma {:induction false} TargetIsReplaced(e: Expr, index: nat, val: Expr, preserve: Expr, subst: map<string, Expr>)
    requires index < NumNodes(e) && forall x | x in subst :: subst[x].Variable?
    ensures var r := Cav(e, Some(Target(index, ByExpr(val), preserve)), subst);
      index < |Nodes(r)| && Nodes(r)[index] == val
    decreases e
  {
    hide FreeVars, NewVar, Relevant, Binder, NumNodes, Nodes, ChildSubst, InChild, NodesBefore, Start;
    var t := Target(index, ByExpr(val), preserve);
    var r := Cav(e, Some(t), subst);
    if index == 0 {
      CavAtRoot(e, t, subst);
      RootIsFirst(val);
    } else {
      SizeOfNode(e);
      var i := TargetChild(e, index, |e.children|);
      CavNode(e, Some(t), subst);
      ChildVariables(e, i, Some(t), subst);
      forall j: nat | j < i ensures NumNodes(r.children[j]) == NumNodes(e.children[j]) {
        NotBoth(e, index, i, j);
        ChildVariables(e, j, Some(t), subst);
        SameSize(e.children[j], ChildSubst(e, j, Some(t), subst));
      }
      SameBefore(e, r, i);
      BelowStart(e, i, index);
      TargetIsReplaced(e.children[i], index - Start(e, i), val, preserve, ChildSubst(e, i, Some(t), subst));
      NodesCounted(r.children[i]);
      SameStart(e, r, i, index);
      NodesOfChild(r, i, index);
    }
  }

  lemma {:induction false} RootIsFirst(e: Expr)
    ensures |Nodes(e)| > 0 && Nodes(e)[0] == e
  {}

  lemma {:induction false} SizeOfNode(e: Expr)
    ensures e.Node? ==> NumNodes(e) == Start(e, |e.children|)
    ensures !e.Node? ==> NumNodes(e) == 1
  {}

  lemma {:induction false} BelowStart(e: Expr, i: nat, index: nat)
    requires e.Node? && i < |e.children| && InChild(e, i, index)
    ensures Start(e, i) <= index && index - Start(e, i) < NumNodes(e.children[i])
    ensures forall t: Target | t.index == index :: ChildTarget(e, i, Some(t)) == Some(t.(index := index - Start(e, i)))
  {
    hide NumNodes, Start;
  }

  lemma {:induction false} SameStart(e: Expr, r: Expr, i: nat, index: nat)
    requires e.Node? && r.Node? && i < |e.children| == |r.children| && NodesBefore(r, i) == NodesBefore(e, i)
    requires Start(e, i) <= index && index - Start(e, i) < NumNodes(r.children[i])
    ensures Start(r, i) == Start(e, i) && InChild(r, i, index)
  {
    hide NumNodes, NodesBefore;
  }

  lemma {:induction false} NotBoth(e: Expr, index: nat, i: nat, j: nat)
    requires e.Node? && j < i < |e.children| && InChild(e, i, index)
    ensures !InChild(e, j, index)
  {
    if InChild(e, j, index) {
      OneTargetChild(e, index, i, j);
    }
  }
}
