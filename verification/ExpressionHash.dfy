/** `__hash__` on expressions respects alpha-equivalence. */
module ExpressionHash {
  import opened Expressions
  import opened AlphaEquivalence

  const MODULUS := 2147483647

  /** The hashes of names and constants, which the source takes from elsewhere. */
  datatype Leaves = Leaves(name: string -> nat, constant: real -> int)

  /** The place of an operation among the sorted names of all node types. */
  function OpCode(op: Op): nat {
    match op
    case RanHashDoub => 0 case Add => 1 case Apply => 2 case Assert => 3 case Build => 4 case ConstVec => 5
    case DeltaVec => 7 case Div => 8 case Eq => 9 case Exp => 10 case Gt => 11 case Gte => 12 case If => 13
    case Index => 14 case Lam => 15 case Let => 16 case Log => 17 case Mul => 18 case Select => 19 case Size => 20
    case Stop => 21 case Sub => 22 case Sum => 23 case Sumbuild => 24 case ToFloat => 25 case MakeTuple => 26
  }

  const CONSTANT_CODE := 6
  const VARIABLE_CODE := 27

  // ---------------------------------------------------------------- the hash of a nameless form

  function Hash(l: Leaves, n: Nameless): int
    decreases n, 1, 0
  {
    (match n
     case NConstant(v) => CONSTANT_CODE + l.constant(v)
     case NFree(x) => VARIABLE_CODE + l.name(x)
     case NBound(d) => VARIABLE_CODE + d
     case NNode(op, _, cs) => HashFirst(l, n, |cs|)) % MODULUS
  }

  function HashFirst(l: Leaves, n: Nameless, k: nat): int
    requires n.NNode? && k <= |n.children|
    decreases n, 0, k
  {
    if k == 0 then OpCode(n.op) else HashFirst(l, n, k - 1) * 13 + Hash(l, n.children[k - 1])
  }

  // ---------------------------------------------------------------- the hash the source computes

  /** `hash_for_var` and `num_binders` describe the binders of `ctx`. */
  ghost predicate Tracks(ctx: seq<string>, hashForVar: map<string, nat>, numBinders: nat) {
    && (forall x :: x in hashForVar <==> Look(ctx, x).NBound?)
    && (forall x | x in hashForVar :: hashForVar[x] <= numBinders && Look(ctx, x) == NBound(numBinders - hashForVar[x]))
  }

  lemma {:induction false} TracksNothing()
    ensures Tracks([], map[], 0)
  {}

  lemma {:induction false} TracksPush(ctx: seq<string>, hashForVar: map<string, nat>, numBinders: nat, b: string)
    requires Tracks(ctx, hashForVar, numBinders)
    ensures Tracks(ctx + [b], hashForVar[b := numBinders], numBinders + 1)
  {
    hide Look;
    forall x ensures Look(ctx + [b], x) == if x == b then NBound(1) else Lift(Look(ctx, x)) {
      LookPush(ctx, b, x);
    }
  }

  /** An expression that no enclosing binder reaches has the same nameless form as on its own. */
  lemma {:induction false} StripOutside(e: Expr, ctx: seq<string>, hashForVar: map<string, nat>, numBinders: nat)
    requires Tracks(ctx, hashForVar, numBinders) && FreeVars(e) !! hashForVar.Keys
    ensures Strip(e, ctx) == Alpha(e)
  {
    hide Look, FreeVars, Strip;
    StripAgree(e, ctx, []);
    forall x | x in FreeVars(e) ensures Look(ctx, x) == Look([], x) {
      LookPositive(ctx, x);
      LookPositive([], x);
    }
  }

  lemma {:induction false} HashNode(l: Leaves, e: Expr, ctx: seq<string>, k: nat)
    requires e.Node? && k <= |e.children|
    ensures Strip(e, ctx).NNode? && |Strip(e, ctx).children| == |e.children|
    ensures k == 0 ==> HashFirst(l, Strip(e, ctx), k) == OpCode(e.op)
    ensures k > 0 ==> (HashFirst(l, Strip(e, ctx), k) ==
                       HashFirst(l, Strip(e, ctx), k - 1) * 13
                         + Hash(l, Strip(e.children[k - 1], Below(e, k - 1, ctx))))
    ensures k == |e.children| ==> Hash(l, Strip(e, ctx)) == HashFirst(l, Strip(e, ctx), k) % MODULUS
  {
    hide OpCode, Below, ArgType;
  }

  /** `__hash__` and `_hash_with_var_mapping`, with the switch between the cached hash of a subtree that no
      enclosing binder reaches and one computed in context. */
  method HashWithVarMapping(l: Leaves, e: Expr, hashForVar: map<string, nat>, numBinders: nat, ghost ctx: seq<string>)
    returns (h: int)
    requires Valid(e) && Tracks(ctx, hashForVar, numBinders)
    ensures h == Hash(l, Strip(e, ctx)) && 0 <= h < MODULUS
    decreases NumNodes(e)
  {
    hide Strip, Look, FreeVars, Hash, HashFirst, OpCode, Tracks, Valid, NumNodes, NodesBefore, Binds;
    HashLeaf(l, e, ctx, hashForVar, numBinders);
    match e {
      case Constant(value) => h := CONSTANT_CODE + l.constant(value);
      case Variable(name, _) =>
        h := VARIABLE_CODE + (if name in hashForVar then numBinders - hashForVar[name] else l.name(name));
      case Node(op, children) =>
        h := OpCode(op);
        var hashForVarBound := if Binder(e) then hashForVar[BoundVar(e).name := numBinders] else hashForVar;
        HashNode(l, e, ctx, 0);
        for i := 0 to |children|
          invariant h == HashFirst(l, Strip(e, ctx), i)
        {
          h := h * 13;
          var bound := Binds(e, i);
          var hv, n := if bound then hashForVarBound else hashForVar, if bound then numBinders + 1 else numBinders;
          TracksBelow(e, i, ctx, hashForVar, numBinders);
          ValidChildren(e, i);
          HashNode(l, e, ctx, i + 1);
          var hc;
          if FreeVars(children[i]) !! hv.Keys {
            TracksNothing();
            StripOutside(children[i], Below(e, i, ctx), hv, n);
            hc := HashWithVarMapping(l, children[i], map[], 0, []);
          } else {
            hc := HashWithVarMapping(l, children[i], hv, n, Below(e, i, ctx));
          }
          h := h + hc;
        }
        HashNode(l, e, ctx, |children|);
    }
    h := h % MODULUS;
  }

  lemma {:induction false} TracksBelow(e: Expr, i: nat, ctx: seq<string>, hashForVar: map<string, nat>, numBinders: nat)
    requires Tracks(ctx, hashForVar, numBinders)
    ensures Binds(e, i) ==>
      Binder(e) && Tracks(Below(e, i, ctx), hashForVar[BoundVar(e).name := numBinders], numBinders + 1)
    ensures !Binds(e, i) ==> Tracks(Below(e, i, ctx), hashForVar, numBinders)
  {
    if Binds(e, i) {
      TracksPush(ctx, hashForVar, numBinders, BoundVar(e).name);
    }
  }

  lemma {:induction false} HashLeaf(l: Leaves, e: Expr, ctx: seq<string>, hashForVar: map<string, nat>, numBinders: nat)
    requires Tracks(ctx, hashForVar, numBinders)
    ensures e.Constant? ==> Hash(l, Strip(e, ctx)) == (CONSTANT_CODE + l.constant(e.value)) % MODULUS
    ensures e.Variable? && e.name in hashForVar ==>
      hashForVar[e.name] <= numBinders
        && Hash(l, Strip(e, ctx)) == (VARIABLE_CODE + (numBinders - hashForVar[e.name])) % MODULUS
    ensures e.Variable? && e.name !in hashForVar ==>
      Hash(l, Strip(e, ctx)) == (VARIABLE_CODE + l.name(e.name)) % MODULUS
    ensures e.Node? ==> Strip(e, ctx).NNode? && |Strip(e, ctx).children| == |e.children|
  {
    hide Look, Below, ArgType;
    if e.Variable? {
      LookPositive(ctx, e.name);
    }
  }

  /** Equal expressions have equal hashes. */
  method HashOf(l: Leaves, e: Expr) returns (h: int)
    requires Valid(e)
    ensures h == Hash(l, Alpha(e))
  {
    TracksNothing();
    h := HashWithVarMapping(l, e, map[], 0, []);
  }

  // ---------------------------------------------------------------- the hash in closed form

  /** The name of an operation in the source. */
  function TypeName(op: Op): string {
    match op
    case RanHashDoub => "$ranhashdoub" case Add => "add" case Apply => "apply" case Assert => "assert"
    case Build => "build" case ConstVec => "constVec" case DeltaVec => "deltaVec" case Div => "div" case Eq => "eq"
    case Exp => "exp" case Gt => "gt" case Gte => "gte" case If => "if" case Index => "index" case Lam => "lam"
    case Let => "let" case Log => "log" case Mul => "mul" case Select => "select" case Size => "size"
    case Stop => "stop" case Sub => "sub" case Sum => "sum" case Sumbuild => "sumbuild" case ToFloat => "to_float"
    case MakeTuple => "tuple"
  }

  /** The node types in the order of their names. */
  function NodeType(code: nat): string {
    match code
    case 0 => "$ranhashdoub" case 1 => "add" case 2 => "apply" case 3 => "assert" case 4 => "build"
    case 5 => "constVec" case 6 => "constant" case 7 => "deltaVec" case 8 => "div" case 9 => "eq"
    case 10 => "exp" case 11 => "gt" case 12 => "gte" case 13 => "if" case 14 => "index" case 15 => "lam"
    case 16 => "let" case 17 => "log" case 18 => "mul" case 19 => "select" case 20 => "size" case 21 => "stop"
    case 22 => "sub" case 23 => "sum" case 24 => "sumbuild" case 25 => "to_float" case 26 => "tuple"
    case _ => "variable"
  }

  /** The code of a node type is its place among the sorted names. */
  lemma {:induction false} CodesArePlaces(op: Op)
    ensures 0 <= OpCode(op) < 27 && NodeType(OpCode(op)) == TypeName(op)
    ensures NodeType(CONSTANT_CODE) == "constant" && VARIABLE_CODE == 27
  {}

  function Power(b: nat, n: nat): nat {
    if n == 0 then 1 else b * Power(b, n - 1)
  }

  /** What the children numbered from `k` on add to the hash of a node. */
  function ChildrenHash(l: Leaves, n: Nameless, k: nat): int
    requires n.NNode? && k <= |n.children|
    decreases |n.children| - k
  {
    if k == |n.children| then 0
    else Hash(l, n.children[k]) * Power(13, |n.children| - 1 - k) + ChildrenHash(l, n, k + 1)
  }

  /** The hash of a node is a polynomial in thirteen, its own code the leading coefficient. */
  lemma {:induction false} HashIsPolynomial(l: Leaves, n: Nameless)
    requires n.NNode?
    ensures Hash(l, n) == (OpCode(n.op) * Power(13, |n.children|) + ChildrenHash(l, n, 0)) % 2147483647
  {
    hide OpCode, ChildrenHash;
    HornerFrom(l, n, 0);
  }

  lemma {:induction false} HornerFrom(l: Leaves, n: Nameless, k: nat)
    requires n.NNode? && k <= |n.children|
    ensures HashFirst(l, n, |n.children|) == HashFirst(l, n, k) * Power(13, |n.children| - k) + ChildrenHash(l, n, k)
    decreases |n.children| - k
  {
    hide OpCode, Hash;
    if k < |n.children| {
      HornerFrom(l, n, k + 1);
      Expand(HashFirst(l, n, k), Hash(l, n.children[k]), Power(13, |n.children| - k - 1));
    }
  }

  lemma {:induction false} Expand(h: int, c: int, p: nat)
    ensures (h * 13 + c) * p == h * (13 * p) + c * p
  {
    assert (h * 13 + c) * p == (h * 13) * p + c * p;
    assert (h * 13) * p == h * (13 * p);
  }
}
