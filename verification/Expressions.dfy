/** RLO's expression language: trees of operations, four of which bind a variable. */
module Expressions {
  datatype Option<T> = None | Some(value: T)

  datatype Type = Integer | Float | Bool | String | Tuple(elems: seq<Type>) | Tensor(rank: nat, elem: Type) |
    Lambda(arg: Type, result: Type)

  datatype Op =
    | Let | If | MakeTuple | Select | Apply | Lam | Stop | Assert | Add | Sub | Mul | Div | Exp | Log | Eq | Gt | Gte
    | ToFloat | RanHashDoub | Build | Index | Size | Sum | Sumbuild | DeltaVec | ConstVec

  datatype Expr =
    | Constant(value: real)
    | Variable(name: string, typ: Option<Type>)
    | Node(op: Op, children: seq<Expr>)

  /** The number of children, for all operations but tuples. */
  function Arity(op: Op): nat {
    match op
    case Let | If | Build | Sumbuild | DeltaVec => 3
    case Stop | Exp | Log | ToFloat | RanHashDoub | Size | Sum => 1
    case _ => 2
  }

  predicate IsBinder(op: Op) {
    op.Let? || op.Lam? || op.Build? || op.Sumbuild?
  }

  /** Which child of a binder is the binding occurrence of its variable. */
  function BoundIndex(op: Op): nat {
    if op.Let? || op.Lam? then 0 else 1
  }

  /** What the constructor of the source checks, types and first-order restrictions aside. */
  predicate Valid(e: Expr) {
    match e
    case Constant(_) => true
    case Variable(name, _) => ' ' !in name
    case Node(op, cs) =>
      && (if op.MakeTuple? then |cs| != 1 else |cs| == Arity(op))
      && (IsBinder(op) ==> cs[BoundIndex(op)].Variable?)
      && (op.Lam? ==> cs[0].typ.Some?)
      && forall i | 0 <= i < |cs| :: Valid(cs[i])
  }

  /** Which nodes are valid, operation by operation: first those that bind a variable. */
  lemma {:induction false} ValidBinders(op: Op, cs: seq<Expr>, x: string, t: Option<Type>)
    requires forall i | 0 <= i < |cs| :: Valid(cs[i])
    ensures Valid(Variable(x, t)) <==> forall c | c in x :: c != ' '
    ensures op.Let? ==> (Valid(Node(op, cs)) <==> |cs| == 3 && cs[0].Variable?)
    ensures op.Build? || op.Sumbuild? ==> (Valid(Node(op, cs)) <==> |cs| == 3 && cs[1].Variable?)
    ensures op.Lam? ==> (Valid(Node(op, cs)) <==> |cs| == 2 && cs[0].Variable? && cs[0].typ.Some?)
  {}

  lemma {:induction false} ValidOthers(op: Op, cs: seq<Expr>)
    requires forall i | 0 <= i < |cs| :: Valid(cs[i])
    requires !op.Let? && !op.Lam? && !op.Build? && !op.Sumbuild?
    ensures Valid(Node(op, cs)) <==>
      if op.MakeTuple? then |cs| != 1
      else if op in {If, DeltaVec} then |cs| == 3
      else if op in {Stop, Exp, Log, ToFloat, RanHashDoub, Size, Sum} then |cs| == 1
      else |cs| == 2
  {}

  predicate Binder(e: Expr) {
    e.Node? && IsBinder(e.op) && BoundIndex(e.op) < |e.children| && e.children[BoundIndex(e.op)].Variable?
  }

  /** The variable of a binder is in scope in the binding occurrence and in the last child. */
  predicate Binds(e: Expr, i: nat) {
    Binder(e) && (i == BoundIndex(e.op) || i == |e.children| - 1)
  }

  function BoundVar(e: Expr): (x: Expr)
    requires Binder(e)
    ensures x.Variable?
  {
    e.children[BoundIndex(e.op)]
  }

  /** Whether `x` inside child `i` is the variable that `e` binds. */
  predicate BoundIn(e: Expr, i: nat, x: string) {
    Binds(e, i) && x == BoundVar(e).name
  }

  function FreeVars(e: Expr): set<string> {
    match e
    case Constant(_) => {}
    case Variable(name, _) => {name}
    case Node(_, cs) => set i: nat, x: string | i < |cs| && x in FreeVars(cs[i]) && !BoundIn(e, i, x) :: x
  }

  lemma {:induction false} FreeChild(e: Expr, i: nat, x: string)
    requires e.Node? && i < |e.children| && x in FreeVars(e.children[i]) && !BoundIn(e, i, x)
    ensures x in FreeVars(e)
  {
    hide BoundIn;
  }

  lemma {:induction false} FreeSomewhere(e: Expr, x: string) returns (i: nat)
    requires e.Node? && x in FreeVars(e)
    ensures i < |e.children| && x in FreeVars(e.children[i]) && !BoundIn(e, i, x)
  {
    hide BoundIn;
    i :| 0 <= i < |e.children| && x in FreeVars(e.children[i]) && !BoundIn(e, i, x);
  }

  /** The names in the first `k` children that are in scope of the variable of `e`, or in the others. */
  ghost function NamesInFirst(e: Expr, k: nat, inScope: bool): set<string>
    requires e.Node? && k <= |e.children|
  {
    set i: nat, x: string | i < k && (Binds(e, i) <==> inScope) && x in FreeVars(e.children[i]) :: x
  }

  lemma {:induction false} OneMoreChild(e: Expr, k: nat, inScope: bool)
    requires e.Node? && k < |e.children|
    ensures NamesInFirst(e, k + 1, inScope)
      == NamesInFirst(e, k, inScope) + if Binds(e, k) <==> inScope then FreeVars(e.children[k]) else {}
  {
    hide Binds, FreeVars;
  }

  lemma {:induction false} FreeInAll(e: Expr)
    requires e.Node?
    ensures Binder(e) ==>
      FreeVars(e) == NamesInFirst(e, |e.children|, true) - {BoundVar(e).name} + NamesInFirst(e, |e.children|, false)
    ensures !Binder(e) ==> FreeVars(e) == NamesInFirst(e, |e.children|, false)
  {
    forall x | x in FreeVars(e)
      ensures exists i: nat :: i < |e.children| && x in FreeVars(e.children[i]) && !BoundIn(e, i, x) {
      var i := FreeSomewhere(e, x);
    }
  }

  /** The free names as the constructor computes them. Removing the name of the bound variable never fails. */
  method FreeVarNames(e: Expr) returns (names: set<string>)
    requires Valid(e)
    ensures names == FreeVars(e)
    decreases e
  {
    hide FreeVars, Valid, Binder, NamesInFirst;
    if !e.Node? {
      FreeInLeaf(e);
      return if e.Variable? then {e.name} else {};
    }
    FreeInNone(e);
    names := {};
    if Binder(e) {
      for i := 0 to |e.children|
        invariant names == NamesInFirst(e, i, true)
      {
        OneMoreChild(e, i, true);
        if Binds(e, i) {
          ValidChildren(e, i);
          var inChild := FreeVarNames(e.children[i]);
          names := names + inChild;
        }
      }
      BoundVarNamed(e);
      assert BoundVar(e).name in names;
      names := names - {BoundVar(e).name};
    }
    ghost var inScope := names;
    for i := 0 to |e.children|
      invariant names == inScope + NamesInFirst(e, i, false)
    {
      OneMoreChild(e, i, false);
      if !Binds(e, i) {
        ValidChildren(e, i);
        var inChild := FreeVarNames(e.children[i]);
        names := names + inChild;
      }
    }
    FreeInAll(e);
  }

  lemma {:induction false} FreeInLeaf(e: Expr)
    requires !e.Node?
    ensures FreeVars(e) == if e.Variable? then {e.name} else {}
  {}

  lemma {:induction false} FreeInNone(e: Expr)
    requires e.Node?
    ensures NamesInFirst(e, 0, true) == NamesInFirst(e, 0, false) == {}
  {}

  lemma {:induction false} BoundVarNamed(e: Expr)
    requires Binder(e)
    ensures BoundVar(e).name in NamesInFirst(e, |e.children|, true)
  {
    FreeInLeaf(BoundVar(e));
  }

  /** All names in an expression, bound ones included. */
  function Names(e: Expr): set<string> {
    match e
    case Constant(_) => {}
    case Variable(name, _) => {name}
    case Node(_, cs) => set i: nat, x: string | i < |cs| && x in Names(cs[i]) :: x
  }

  lemma {:induction false} NamesOfChild(e: Expr, i: nat)
    requires e.Node? && i < |e.children|
    ensures Names(e.children[i]) <= Names(e)
  {}

  lemma {:induction false} FreeAreNames(e: Expr)
    ensures FreeVars(e) <= Names(e)
  {
    hide BoundIn;
    if e.Node? {
      forall x | x in FreeVars(e) ensures x in Names(e) {
        var i := FreeSomewhere(e, x);
        FreeAreNames(e.children[i]);
        NamesOfChild(e, i);
      }
    }
  }

  lemma {:induction false} BoundIsName(e: Expr)
    requires Binder(e)
    ensures BoundVar(e).name in Names(e)
  {
    NamesOfChild(e, BoundIndex(e.op));
    assert BoundVar(e).name in Names(BoundVar(e));
  }

  // ---------------------------------------------------------------- the four binders

  lemma {:induction false} FreeInLet(x: Expr, a: Expr, b: Expr)
    requires x.Variable?
    ensures FreeVars(Node(Let, [x, a, b])) == FreeVars(a) + (FreeVars(b) - {x.name})
  {
    FreeOfThree(Let, x, a, b);
  }

  lemma {:induction false} FreeInLam(x: Expr, b: Expr)
    requires x.Variable?
    ensures FreeVars(Node(Lam, [x, b])) == FreeVars(b) - {x.name}
  {
    hide FreeVars;
    var e := Node(Lam, [x, b]);
    FreeInLeaf(x);
    forall y | y in FreeVars(b) && y != x.name ensures y in FreeVars(e) { FreeChild(e, 1, y); }
    forall y | y in FreeVars(e) ensures y in FreeVars(b) && y != x.name { var i := FreeSomewhere(e, y); }
  }

  lemma {:induction false} FreeInBuild(n: Expr, x: Expr, b: Expr)
    requires x.Variable?
    ensures FreeVars(Node(Build, [n, x, b])) == FreeVars(n) + (FreeVars(b) - {x.name})
  {
    FreeOfThree(Build, n, x, b);
  }

  lemma {:induction false} FreeInSumbuild(n: Expr, x: Expr, b: Expr)
    requires x.Variable?
    ensures FreeVars(Node(Sumbuild, [n, x, b])) == FreeVars(n) + (FreeVars(b) - {x.name})
  {
    FreeOfThree(Sumbuild, n, x, b);
  }

  /** A let binds its first child, a build and a sumbuild their second, in their third. */
  lemma {:induction false} FreeOfThree(op: Op, a: Expr, b: Expr, c: Expr)
    requires (op == Let && a.Variable?) || ((op == Build || op == Sumbuild) && b.Variable?)
    ensures var x, outside := if op == Let then a.name else b.name, if op == Let then b else a;
      FreeVars(Node(op, [a, b, c])) == FreeVars(outside) + (FreeVars(c) - {x})
  {
    hide FreeVars;
    var e := Node(op, [a, b, c]);
    var x, outside := if op == Let then a.name else b.name, if op == Let then b else a;
    FreeInLeaf(if op == Let then a else b);
    forall y | y in FreeVars(outside) ensures y in FreeVars(e) { FreeChild(e, if op == Let then 1 else 0, y); }
    forall y | y in FreeVars(c) && y != x ensures y in FreeVars(e) { FreeChild(e, 2, y); }
    forall y | y in FreeVars(e) ensures y in FreeVars(outside) + (FreeVars(c) - {x}) { var i := FreeSomewhere(e, y); }
  }

  /** The other operations bind nothing. */
  lemma {:induction false} FreeInOthers(e: Expr, x: string)
    requires e.Node? && e.op !in {Let, Lam, Build, Sumbuild}
    ensures x in FreeVars(e) <==> exists i :: 0 <= i < |e.children| && x in FreeVars(e.children[i])
  {
    hide FreeVars;
    if x in FreeVars(e) {
      var i := FreeSomewhere(e, x);
    }
    if i: nat :| i < |e.children| && x in FreeVars(e.children[i]) {
      FreeChild(e, i, x);
    }
  }

  // ---------------------------------------------------------------- numbering

  function NumNodes(e: Expr): (n: nat)
    ensures n >= 1
    decreases e, 1, 0
  {
    if e.Node? then 1 + NodesBefore(e, |e.children|) else 1
  }

  /** The nodes in the first `k` children. */
  function NodesBefore(e: Expr, k: nat): nat
    requires e.Node? && k <= |e.children|
    decreases e, 0, k
  {
    if k == 0 then 0 else NodesBefore(e, k - 1) + NumNodes(e.children[k - 1])
  }

  lemma {:induction false} ValidChildren(e: Expr, i: nat)
    requires Valid(e) && e.Node? && i < |e.children|
    ensures Valid(e.children[i]) && NumNodes(e.children[i]) < NumNodes(e)
  {
    NodesInside(e, i, |e.children|);
  }

  lemma {:induction false} NodesInside(e: Expr, i: nat, k: nat)
    requires e.Node? && i < k <= |e.children|
    ensures NumNodes(e.children[i]) <= NodesBefore(e, k)
  {
    if i < k - 1 {
      NodesInside(e, i, k - 1);
    }
  }

  // ---------------------------------------------------------------- fresh names

  function Decimal(n: nat): (s: string)
    ensures |s| > 0 && forall i | 0 <= i < |s| :: '0' <= s[i] <= '9'
  {
    if n < 10 then [DigitOf(n)] else Decimal(n / 10) + [DigitOf(n % 10)]
  }

  function DigitOf(n: nat): (c: char)
    requires n < 10
    ensures '0' <= c <= '9' && c as int - '0' as int == n
  {
    ('0' as int + n) as char
  }

  predicate AllDigits(s: string) {
    forall i | 0 <= i < |s| :: '0' <= s[i] <= '9'
  }

  function ReadDecimal(s: string): nat
    requires AllDigits(s)
  {
    if s == [] then 0 else ReadDecimal(s[..|s| - 1]) * 10 + (s[|s| - 1] as int - '0' as int)
  }

  lemma {:induction false} ReadBack(n: nat)
    ensures ReadDecimal(Decimal(n)) == n
  {
    if n >= 10 {
      ReadBack(n / 10);
      assert Decimal(n)[..|Decimal(n)| - 1] == Decimal(n / 10);
    } else {
      assert Decimal(n)[..0] == [];
    }
  }

  function VarName(n: nat): string {
    "var" + Decimal(n)
  }

  /** One more than the number in a name that matches "var[0-9]+", or zero. */
  function UnusedAfter(name: string): nat {
    if |name| > 3 && name[..3] == "var" && AllDigits(name[3..]) then ReadDecimal(name[3..]) + 1 else 0
  }

  function NextUnused(e: Expr): nat
    decreases e, 1, 0
  {
    match e
    case Constant(_) => 0
    case Variable(name, _) => UnusedAfter(name)
    case Node(_, cs) => NextUnusedIn(e, |cs|)
  }

  function NextUnusedIn(e: Expr, k: nat): nat
    requires e.Node? && k <= |e.children|
    decreases e, 0, k
  {
    if k == 0 then 0 else Max(NextUnusedIn(e, k - 1), NextUnused(e.children[k - 1]))
  }

  function Max(a: nat, b: nat): nat {
    if a < b then b else a
  }

  /** The largest of the numbers of a collection of expressions. */
  ghost function NextUnusedAll(es: set<Expr>): nat {
    if es == {} then 0 else
      var e :| e in es;
      Max(NextUnusedAll(es - {e}), NextUnused(e))
  }

  /** `new_var`: a variable that no expression in `es` mentions. */
  ghost function NewVar(es: set<Expr>, typ: Option<Type>): (x: Expr)
    ensures x.Variable? && x.typ == typ
  {
    Variable(VarName(NextUnusedAll(es)), typ)
  }

  lemma {:induction false} VarNameUnused(n: nat)
    ensures UnusedAfter(VarName(n)) == n + 1
  {
    ReadBack(n);
    assert VarName(n)[3..] == Decimal(n) && VarName(n)[..3] == "var";
  }

  lemma {:induction false} NamesAreUsed(e: Expr, x: string)
    requires x in Names(e)
    ensures UnusedAfter(x) <= NextUnused(e)
    decreases e, 1, 0
  {
    hide UnusedAfter;
    if e.Node? {
      var i: nat :| i < |e.children| && x in Names(e.children[i]);
      NamesAreUsed(e.children[i], x);
      NextUnusedGrows(e, i, |e.children|);
    }
  }

  lemma {:induction false} NextUnusedGrows(e: Expr, i: nat, k: nat)
    requires e.Node? && i < k <= |e.children|
    ensures NextUnused(e.children[i]) <= NextUnusedIn(e, k)
    decreases e, 0, k
  {
    if i < k - 1 {
      NextUnusedGrows(e, i, k - 1);
    }
  }

  lemma {:induction false} NextUnusedAllGrows(es: set<Expr>, e: Expr)
    requires e in es
    ensures NextUnused(e) <= NextUnusedAll(es)
  {
    var f :| f in es && NextUnusedAll(es) == Max(NextUnusedAll(es - {f}), NextUnused(f));
    assert NextUnusedAll(es) == Max(NextUnusedAll(es - {f}), NextUnused(f));
    if e != f {
      NextUnusedAllGrows(es - {f}, e);
    }
  }

  lemma {:induction false} NextUnusedAllReached(es: set<Expr>)
    ensures NextUnusedAll(es) == 0 || exists e :: e in es && NextUnused(e) == NextUnusedAll(es)
  {
    if es != {} {
      var f :| f in es && NextUnusedAll(es) == Max(NextUnusedAll(es - {f}), NextUnused(f));
      assert NextUnusedAll(es) == Max(NextUnusedAll(es - {f}), NextUnused(f));
      NextUnusedAllReached(es - {f});
    }
  }

  lemma {:induction false} NewVarIsFresh(es: set<Expr>, typ: Option<Type>, e: Expr)
    requires e in es
    ensures NewVar(es, typ).name !in Names(e)
  {
    hide NextUnused, UnusedAfter, Names, VarName, NextUnusedAll;
    var n := NextUnusedAll(es);
    VarNameUnused(n);
    NextUnusedAllGrows(es, e);
    if VarName(n) in Names(e) {
      NamesAreUsed(e, VarName(n));
      assert false;
    }
  }

  /** A name that `new_var` could have made, or one with more digits: "var" and the decimal digits of `n`. */
  predicate IsNumbered(x: string, n: nat) {
    |x| > 3 && x[..3] == "var" && (forall i | 3 <= i < |x| :: '0' <= x[i] <= '9') && ReadDecimal(x[3..]) == n
  }

  lemma {:induction false} NextIsNumbered(e: Expr)
    ensures NextUnused(e) > 0 ==> exists x :: x in Names(e) && IsNumbered(x, NextUnused(e) - 1)
    decreases e, 1, 0
  {
    hide ReadDecimal, Names;
    match e
    case Constant(_) =>
    case Variable(name, _) => NamesOfLeaf(e);
    case Node(_, cs) => NextIsNumberedIn(e, |cs|);
  }

  lemma {:induction false} NamesOfLeaf(e: Expr)
    requires e.Variable?
    ensures e.name in Names(e)
  {}

  lemma {:induction false} NextIsNumberedIn(e: Expr, k: nat)
    requires e.Node? && k <= |e.children|
    ensures NextUnusedIn(e, k) > 0 ==> exists x :: x in Names(e) && IsNumbered(x, NextUnusedIn(e, k) - 1)
    decreases e, 0, k
  {
    hide IsNumbered, NextUnused, Names;
    if k > 0 {
      NextIsNumberedIn(e, k - 1);
      NextIsNumbered(e.children[k - 1]);
      NamesOfChild(e, k - 1);
    }
  }

  ghost predicate InUse(es: set<Expr>, n: nat) {
    exists e, x :: e in es && x in Names(e) && IsNumbered(x, n)
  }

  /** The number of a new variable is the least above those in use: zero, or one more than that of a name in the
      arguments. */
  lemma {:induction false} NewVarIsNext(es: set<Expr>, typ: Option<Type>)
    ensures exists n: nat :: NewVar(es, typ) == Variable("var" + Decimal(n), typ) && (n == 0 || InUse(es, n - 1))
  {
    hide IsNumbered, NextUnused, Names, NextUnusedAll, Decimal;
    var n := NextUnusedAll(es);
    NextUnusedAllReached(es);
    assert NewVar(es, typ) == Variable("var" + Decimal(n), typ);
    if n > 0 {
      var e :| e in es && NextUnused(e) == n;
      NextIsNumbered(e);
    }
  }

  /** `new_var`, taking the maximum over its arguments. */
  method MakeNewVar(es: set<Expr>, typ: Option<Type>) returns (x: Expr)
    ensures x == NewVar(es, typ)
    ensures Valid(x)
  {
    hide NextUnused, VarName, NextUnusedAll, DigitOf, Decimal;
    var n: nat := 0;
    var rest := es;
    while rest != {}
      invariant rest <= es
      invariant forall e | e in es - rest :: NextUnused(e) <= n
      invariant n == 0 || exists e :: e in es && NextUnused(e) == n
      decreases rest
    {
      var e :| e in rest;
      n := Max(n, NextUnused(e));
      rest := rest - {e};
    }
    NextUnusedAllReached(es);
    forall e | e in es ensures NextUnused(e) <= NextUnusedAll(es) {
      NextUnusedAllGrows(es, e);
    }
    x := Variable(VarName(n), typ);
    VarNameHasNoSpace(n);
  }

  lemma {:induction false} VarNameHasNoSpace(n: nat)
    ensures ' ' !in VarName(n)
  {}
}
