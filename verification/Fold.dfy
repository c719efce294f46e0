/** Forward and reverse derivatives of `fold`: `RFold` is the adjoint of `FFold`. */
module Fold {
  import opened RuntimeMemory
  import opened InplaceAddition

  /** A fold with its two derivatives. `fwd` takes the tangents of accumulator and element, the tangent
      of the scope being part of its closure; `rev` gives the cotangents of scope, accumulator and element.
      `tangent` and `elemTangent` say which tangents belong to an accumulator or an element. */
  datatype Step<!A, !T> = Step(
    f: (A, T) -> A,
    fwd: (A, T, Val, Val) -> Val,
    rev: (A, T, Val) -> (Val, Val, Val),
    tangent: (A, Val) -> bool,
    elemTangent: (T, Val) -> bool)

  /** The inner product of tangents. */
  function Dot(v: Val, w: Val): real
    requires SameShape(v, w)
    decreases v, 1, 0
  {
    match v
    case Num(x) => x * w.x
    case VUnit => 0.0
    case VPack(h, t) => Dot(h, w.head) + Dot(t, w.tail)
    case VTensor(_, elems) => DotElems(v, w, |elems|)
  }

  function DotElems(v: Val, w: Val, n: nat): real
    requires v.VTensor? && SameShape(v, w) && n <= |v.elems|
    decreases v, 0, n
  {
    if n == 0 then 0.0 else DotElems(v, w, n - 1) + Dot(v.elems[n - 1], w.elems[n - 1])
  }

  lemma {:induction false} SumShape(v: Val, w: Val, u: Val)
    requires SameShape(v, w) && SameShape(v, u)
    ensures SameShape(w, u) && SameShape(v, AddVal(w, u))
    decreases v
  {
    match v
    case Num(_) =>
    case VUnit =>
    case VPack(h, t) =>
      SumShape(h, w.head, u.head);
      SumShape(t, w.tail, u.tail);
    case VTensor(_, elems) =>
      forall i | 0 <= i < |elems|
        ensures SameShape(w.elems[i], u.elems[i]) && SameShape(elems[i], AddVal(w.elems[i], u.elems[i]))
      {
        SumShape(elems[i], w.elems[i], u.elems[i]);
      }
  }

  lemma {:induction false} DotLinear(v: Val, w: Val, u: Val)
    requires SameShape(v, w) && SameShape(v, u)
    ensures SameShape(w, u) && SameShape(v, AddVal(w, u))
    ensures Dot(v, AddVal(w, u)) == Dot(v, w) + Dot(v, u)
    decreases v, 1, 0
  {
    SumShape(v, w, u);
    match v
    case Num(_) =>
    case VUnit =>
    case VPack(h, t) =>
      DotLinear(h, w.head, u.head);
      DotLinear(t, w.tail, u.tail);
    case VTensor(_, elems) =>
      DotElemsLinear(v, w, u, |elems|);
  }

  lemma {:induction false} DotElemsLinear(v: Val, w: Val, u: Val, n: nat)
    requires v.VTensor? && SameShape(v, w) && SameShape(v, u) && n <= |v.elems|
    ensures SameShape(w, u) && SameShape(v, AddVal(w, u))
    ensures DotElems(v, AddVal(w, u), n) == DotElems(v, w, n) + DotElems(v, u, n)
    decreases v, 0, n
  {
    SumShape(v, w, u);
    if n > 0 {
      DotElemsLinear(v, w, u, n - 1);
      DotLinear(v.elems[n - 1], w.elems[n - 1], u.elems[n - 1]);
    }
  }

  /** A zero: it adds nothing to an inner product. */
  predicate IsZero(v: Val) {
    match v
    case Num(x) => x == 0.0
    case VUnit => true
    case VPack(h, t) => IsZero(h) && IsZero(t)
    case VTensor(_, elems) => forall i | 0 <= i < |elems| :: IsZero(elems[i])
  }

  lemma {:induction false} DotZero(v: Val, z: Val)
    requires SameShape(v, z) && IsZero(z)
    ensures Dot(v, z) == 0.0
    decreases v, 1, 0
  {
    match v
    case Num(_) =>
    case VUnit =>
    case VPack(h, t) =>
      DotZero(h, z.head);
      DotZero(t, z.tail);
    case VTensor(_, elems) => DotElemsZero(v, z, |elems|);
  }

  lemma {:induction false} DotElemsZero(v: Val, z: Val, n: nat)
    requires v.VTensor? && SameShape(v, z) && IsZero(z) && n <= |v.elems|
    ensures DotElems(v, z, n) == 0.0
    decreases v, 0, n
  {
    if n > 0 {
      DotElemsZero(v, z, n - 1);
      DotZero(v.elems[n - 1], z.elems[n - 1]);
    }
  }

  /** The inner product of a tangent with itself is positive unless it is a zero. */
  lemma {:induction false} DotPositive(v: Val)
    ensures SameShape(v, v) && if IsZero(v) then Dot(v, v) == 0.0 else Dot(v, v) > 0.0
    decreases v, 1, 0
  {
    hide SameShape, DotElems;
    ShapeReflexive(v);
    match v
    case Num(x) =>
      assert Dot(v, v) == x * x;
      Square(x, Dot(v, v));
    case VUnit =>
    case VPack(h, t) =>
      DotPositive(h);
      DotPositive(t);
    case VTensor(_, elems) => DotElemsPositive(v, |elems|);
  }

  lemma {:induction false} Square(x: real, square: real)
    requires square == x * x
    ensures if x == 0.0 then square == 0.0 else square > 0.0
  {
    if x > 0.0 {
      Product(x, x, square);
    } else if x < 0.0 {
      Product(-x, -x, square);
    }
  }

  lemma {:induction false} Product(x: real, y: real, product: real)
    requires x > 0.0 && y > 0.0 && product == x * y
    ensures product > 0.0
  {}

  lemma {:induction false} DotElemsPositive(v: Val, n: nat)
    requires v.VTensor? && SameShape(v, v) && n <= |v.elems|
    ensures if forall i | 0 <= i < n :: IsZero(v.elems[i]) then DotElems(v, v, n) == 0.0 else DotElems(v, v, n) > 0.0
    decreases v, 0, n
  {
    hide SameShape, Dot, IsZero;
    if n > 0 {
      DotElemsPositive(v, n - 1);
      DotPositive(v.elems[n - 1]);
    }
  }

  lemma {:induction false} ShapeReflexive(v: Val)
    ensures SameShape(v, v)
  {
    match v
    case Num(_) =>
    case VUnit =>
    case VPack(h, t) =>
      ShapeReflexive(h);
      ShapeReflexive(t);
    case VTensor(_, elems) =>
      forall i | 0 <= i < |elems| ensures SameShape(elems[i], elems[i]) { ShapeReflexive(elems[i]); }
  }

  // ---------------------------------------------------------------- the folds

  /** The accumulator before element `i`. */
  function AccAt<A, T>(s: Step<A, T>, acc: A, v: seq<T>, i: nat): A
    requires i <= |v|
  {
    if i == 0 then acc else s.f(AccAt(s, acc, v, i - 1), v[i - 1])
  }

  /** `FFold_recursive`, as the source has it. */
  function FFoldRecursive<A, T>(s: Step<A, T>, i: nat, acc: A, v: seq<T>, dacc: Val, dv: seq<Val>): Val
    requires i <= |v| == |dv|
    decreases |v| - i
  {
    if i == |v| then dacc
    else FFoldRecursive(s, i + 1, s.f(acc, v[i]), v, s.fwd(acc, v[i], dacc, dv[i]), dv)
  }

  function FFold<A, T>(s: Step<A, T>, acc: A, v: seq<T>, dacc: Val, dv: seq<Val>): Val
    requires |v| == |dv|
  {
    FFoldRecursive(s, 0, acc, v, dacc, dv)
  }

  /** The cotangent of the accumulator before element `i`, if that of the result is `dr`. */
  function RevAcc<A, T>(s: Step<A, T>, acc: A, v: seq<T>, dr: Val, i: nat): Val
    requires i <= |v|
    decreases |v| - i
  {
    if i == |v| then dr else s.rev(AccAt(s, acc, v, i), v[i], RevAcc(s, acc, v, dr, i + 1)).1
  }

  function RevElem<A, T>(s: Step<A, T>, acc: A, v: seq<T>, dr: Val, i: nat): Val
    requires i < |v|
  {
    s.rev(AccAt(s, acc, v, i), v[i], RevAcc(s, acc, v, dr, i + 1)).2
  }

  /** The cotangent of the scope gathered from the elements from `i` on. */
  function RevScope<A, T>(s: Step<A, T>, zero: Val, acc: A, v: seq<T>, dr: Val, i: nat): Val
    requires i <= |v|
    decreases |v| - i
  {
    if i == |v| then zero else
      var later := RevScope(s, zero, acc, v, dr, i + 1);
      var here := s.rev(AccAt(s, acc, v, i), v[i], RevAcc(s, acc, v, dr, i + 1)).0;
      if SameShape(later, here) then AddVal(later, here) else later
  }

  /** The sums of scope cotangents are defined from element `i` on. */
  predicate Addable<A, T>(s: Step<A, T>, zero: Val, acc: A, v: seq<T>, dr: Val, i: nat)
    requires i <= |v|
    decreases |v| - i
  {
    i == |v| || (Addable(s, zero, acc, v, dr, i + 1) &&
    SameShape(RevScope(s, zero, acc, v, dr, i + 1), s.rev(AccAt(s, acc, v, i), v[i], RevAcc(s, acc, v, dr, i + 1)).0))
  }

  function RevElems<A, T>(s: Step<A, T>, acc: A, v: seq<T>, dr: Val): seq<Val> {
    seq(|v|, i requires 0 <= i < |v| => RevElem(s, acc, v, dr, i))
  }

  lemma {:induction false} NotAddable<A, T>(s: Step<A, T>, zero: Val, acc: A, v: seq<T>, dr: Val, i: nat)
    requires i <= |v| && !Addable(s, zero, acc, v, dr, i)
    ensures !Addable(s, zero, acc, v, dr, 0)
  {
    hide *;
    hide RevScope, RevAcc, AccAt, SameShape;
    if i > 0 {
      AddableStep(s, zero, acc, v, dr, i - 1);
      NotAddable(s, zero, acc, v, dr, i - 1);
    }
  }

  lemma {:induction false} AddableStep<A, T>(s: Step<A, T>, zero: Val, acc: A, v: seq<T>, dr: Val, i: nat)
    requires i < |v|
    ensures RevAcc(s, acc, v, dr, i) == s.rev(AccAt(s, acc, v, i), v[i], RevAcc(s, acc, v, dr, i + 1)).1
    ensures RevElem(s, acc, v, dr, i) == s.rev(AccAt(s, acc, v, i), v[i], RevAcc(s, acc, v, dr, i + 1)).2
    ensures Addable(s, zero, acc, v, dr, i) ==> Addable(s, zero, acc, v, dr, i + 1) && ScopeAdds(s, zero, acc, v, dr, i)
    ensures Addable(s, zero, acc, v, dr, i) <== Addable(s, zero, acc, v, dr, i + 1) && ScopeAdds(s, zero, acc, v, dr, i)
    ensures ScopeAdds(s, zero, acc, v, dr, i) ==> RevScope(s, zero, acc, v, dr, i) == AddVal(
      RevScope(s, zero, acc, v, dr, i + 1), s.rev(AccAt(s, acc, v, i), v[i], RevAcc(s, acc, v, dr, i + 1)).0)
  {
    hide SameShape, AddVal, AccAt;
  }

  /** The addition made for element `i` is defined. */
  predicate ScopeAdds<A, T>(s: Step<A, T>, zero: Val, acc: A, v: seq<T>, dr: Val, i: nat)
    requires i < |v|
  {
    SameShape(RevScope(s, zero, acc, v, dr, i + 1), s.rev(AccAt(s, acc, v, i), v[i], RevAcc(s, acc, v, dr, i + 1)).0)
  }

  /** `RFold`: a forward pass records the accumulators, a backward pass runs the reverse derivative.
      It fails only where an addition of scope cotangents would. */
  method RFold<A(0), T>(s: Step<A, T>, zero: Val, acc: A, v: seq<T>, dr: Val)
    returns (ok: bool, dScope: Val, dacc: Val, dv: array<Val>)
    ensures ok == Addable(s, zero, acc, v, dr, 0)
    ensures ok ==> dacc == RevAcc(s, acc, v, dr, 0) && dScope == RevScope(s, zero, acc, v, dr, 0)
    ensures ok ==> dv[..] == RevElems(s, acc, v, dr)
  {
    hide SameShape, AddVal, RevScope, RevAcc, RevElem, AccAt, Addable;
    var forwardPass := new A[|v|];
    var a := acc;
    AccStart(s, acc, v);
    for i := 0 to |v|
      invariant a == AccAt(s, acc, v, i)
      invariant forall j | 0 <= j < i :: forwardPass[j] == AccAt(s, acc, v, j)
    {
      AccStep(s, acc, v, i);
      forwardPass[i] := a;
      a := s.f(a, v[i]);
    }
    dScope, dacc := zero, dr;
    dv := new Val[|v|](_ => VUnit);
    RevStart(s, zero, acc, v, dr);
    for i := |v| downto 0
      invariant forall j | 0 <= j < |v| :: forwardPass[j] == AccAt(s, acc, v, j)
      invariant dacc == RevAcc(s, acc, v, dr, i) && dScope == RevScope(s, zero, acc, v, dr, i)
      invariant Addable(s, zero, acc, v, dr, i)
      invariant forall j | i <= j < |v| :: dv[j] == RevElem(s, acc, v, dr, j)
    {
      AddableStep(s, zero, acc, v, dr, i);
      var call := s.rev(forwardPass[i], v[i], dacc);
      if !SameShape(dScope, call.0) {
        NotAddable(s, zero, acc, v, dr, i);
        return false, dScope, dacc, dv;
      }
      dacc := call.1;
      dScope := AddVal(dScope, call.0);
      dv[i] := call.2;
    }
    ok := true;
  }

  lemma {:induction false} AccStart<A, T>(s: Step<A, T>, acc: A, v: seq<T>)
    ensures AccAt(s, acc, v, 0) == acc
  {}

  lemma {:induction false} AccStep<A, T>(s: Step<A, T>, acc: A, v: seq<T>, i: nat)
    requires i < |v|
    ensures AccAt(s, acc, v, i + 1) == s.f(AccAt(s, acc, v, i), v[i])
  {}

  lemma {:induction false} RevStart<A, T>(s: Step<A, T>, zero: Val, acc: A, v: seq<T>, dr: Val)
    ensures RevAcc(s, acc, v, dr, |v|) == dr && RevScope(s, zero, acc, v, dr, |v|) == zero
    ensures Addable(s, zero, acc, v, dr, |v|)
  {}

  // ---------------------------------------------------------------- the adjoint

  /** All tangents of one accumulator, or of one element, have one shape. */
  ghost predicate TangentsConform<A(!new), T(!new)>(s: Step<A, T>) {
    forall a: A, x: Val, y: Val {:trigger s.tangent(a, x), s.tangent(a, y)} | s.tangent(a, x) && s.tangent(a, y) ::
      SameShape(x, y)
  }

  /** One step: for the tangents `ds`, `da`, `dt` of its inputs and a cotangent `dr` of its result, the
      reverse derivative is the adjoint of the forward one. */
  ghost predicate AdjointAt<A, T>(s: Step<A, T>, ds: Val, a: A, t: T, da: Val, dt: Val, dr: Val) {
    var (rs, ra, rt) := s.rev(a, t, dr);
    var out := s.fwd(a, t, da, dt);
    && s.tangent(a, ra) && s.elemTangent(t, rt)
    && SameShape(out, dr) && SameShape(ds, rs) && SameShape(da, ra) && SameShape(dt, rt)
    && Dot(out, dr) == Dot(ds, rs) + Dot(da, ra) + Dot(dt, rt)
  }

  ghost predicate ForwardConforms<A(!new), T(!new)>(s: Step<A, T>) {
    forall a: A, t: T, da: Val, dt: Val {:trigger s.fwd(a, t, da, dt)} |
      s.tangent(a, da) && s.elemTangent(t, dt) :: s.tangent(s.f(a, t), s.fwd(a, t, da, dt))
  }

  ghost predicate StepAdjoint<A(!new), T(!new)>(s: Step<A, T>, ds: Val) {
    forall a: A, t: T, da: Val, dt: Val, dr: Val {:trigger AdjointAt(s, ds, a, t, da, dt, dr)} |
      s.tangent(a, da) && s.elemTangent(t, dt) && s.tangent(s.f(a, t), dr) :: AdjointAt(s, ds, a, t, da, dt, dr)
  }

  /** The sum of the inner products of the elements from `i` on. */
  function SumDots(xs: seq<Val>, ys: seq<Val>, i: nat): real
    requires i <= |xs| == |ys| && forall j | i <= j < |xs| :: SameShape(xs[j], ys[j])
    decreases |xs| - i
  {
    if i == |xs| then 0.0 else Dot(xs[i], ys[i]) + SumDots(xs, ys, i + 1)
  }

  /** Everything the theorem assumes of its tangents. */
  ghost predicate Conform<A(!new), T(!new)>(s: Step<A, T>, ds: Val, zero: Val, acc: A, v: seq<T>, dr: Val, dv: seq<Val>)
  {
    && ForwardConforms(s) && StepAdjoint(s, ds) && TangentsConform(s) && SameShape(ds, zero) && IsZero(zero)
    && |dv| == |v| && (forall i | 0 <= i < |v| :: s.elemTangent(v[i], dv[i]))
    && s.tangent(AccAt(s, acc, v, |v|), dr)
  }

  /** The cotangents from element `i` on have the shapes they should. */
  ghost predicate Shaped<A(!new), T(!new)>(s: Step<A, T>, ds: Val, zero: Val, acc: A, v: seq<T>, dr: Val, dv: seq<Val>,
      i: nat) {
    && i <= |v| == |dv|
    && s.tangent(AccAt(s, acc, v, i), RevAcc(s, acc, v, dr, i))
    && SameShape(ds, RevScope(s, zero, acc, v, dr, i)) && Addable(s, zero, acc, v, dr, i)
    && (forall j | i <= j < |v| :: SameShape(dv[j], RevElems(s, acc, v, dr)[j]))
  }

  lemma {:induction false} Instance<A(!new), T(!new)>(s: Step<A, T>, ds: Val, a: A, t: T, da: Val, dt: Val, dr: Val)
    requires StepAdjoint(s, ds) && s.tangent(a, da) && s.elemTangent(t, dt) && s.tangent(s.f(a, t), dr)
    ensures AdjointAt(s, ds, a, t, da, dt, dr)
  {
    hide AdjointAt;
    assert AdjointAt(s, ds, a, t, da, dt, dr);
  }

  lemma {:induction false} AdjointTail<A(!new), T(!new)>(s: Step<A, T>, ds: Val, zero: Val, acc: A, v: seq<T>, dr: Val,
      dv: seq<Val>, da: Val, i: nat)
    requires Conform(s, ds, zero, acc, v, dr, dv) && i <= |v|
    requires s.tangent(AccAt(s, acc, v, i), da)
    ensures Shaped(s, ds, zero, acc, v, dr, dv, i)
    ensures SameShape(da, RevAcc(s, acc, v, dr, i))
    ensures SameShape(FFoldRecursive(s, i, AccAt(s, acc, v, i), v, da, dv), dr)
    ensures Dot(FFoldRecursive(s, i, AccAt(s, acc, v, i), v, da, dv), dr) ==
      Dot(ds, RevScope(s, zero, acc, v, dr, i)) + Dot(da, RevAcc(s, acc, v, dr, i))
        + SumDots(dv, RevElems(s, acc, v, dr), i)
    decreases |v| - i
  {
    hide Dot, SameShape, AddVal, RevAcc, RevScope, RevElem, AccAt, IsZero, Addable, StepAdjoint;
    if i == |v| {
      RevStart(s, zero, acc, v, dr);
      DotZero(ds, zero);
    } else {
      var a, t := AccAt(s, acc, v, i), v[i];
      var out := s.fwd(a, t, da, dv[i]);
      var dr' := RevAcc(s, acc, v, dr, i + 1);
      AccStep(s, acc, v, i);
      AddableStep(s, zero, acc, v, dr, i);
      AdjointTail(s, ds, zero, acc, v, dr, dv, out, i + 1);
      Instance(s, ds, a, t, da, dv[i], dr');
      SumShape(ds, RevScope(s, zero, acc, v, dr, i + 1), s.rev(a, t, dr').0);
      DotLinear(ds, RevScope(s, zero, acc, v, dr, i + 1), s.rev(a, t, dr').0);
    }
  }

  /** `RFold` is the adjoint of `FFold`. */
  lemma {:induction false} RFoldIsAdjoint<A(!new), T(!new)>(s: Step<A, T>, ds: Val, zero: Val, acc: A, v: seq<T>,
      dr: Val, dacc: Val, dv: seq<Val>)
    requires Conform(s, ds, zero, acc, v, dr, dv) && s.tangent(acc, dacc)
    ensures Addable(s, zero, acc, v, dr, 0)
    ensures SameShape(FFold(s, acc, v, dacc, dv), dr) && SameShape(ds, RevScope(s, zero, acc, v, dr, 0))
    ensures SameShape(dacc, RevAcc(s, acc, v, dr, 0))
    ensures forall i | 0 <= i < |v| :: SameShape(dv[i], RevElems(s, acc, v, dr)[i])
    ensures Dot(FFold(s, acc, v, dacc, dv), dr) ==
      Dot(ds, RevScope(s, zero, acc, v, dr, 0)) + Dot(dacc, RevAcc(s, acc, v, dr, 0))
        + SumDots(dv, RevElems(s, acc, v, dr), 0)
  {
    hide Dot, SameShape, AddVal, RevAcc, RevScope, RevElem, IsZero, Addable, StepAdjoint;
    AccStart(s, acc, v);
    AdjointTail(s, ds, zero, acc, v, dr, dv, dacc, 0);
  }
}
