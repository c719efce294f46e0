/** `inplace_add`: accumulating one nested value into another. */
module InplaceAddition {
  import opened RuntimeMemory
  import opened CopydownLemmas
  import opened Footprint
  import opened MoveLemmas

  predicate SameShape(v: Val, w: Val) {
    match v
    case Num(_) => w.Num?
    case VUnit => w.VUnit?
    case VPack(h, t) => w.VPack? && SameShape(h, w.head) && SameShape(t, w.tail)
    case VTensor(shape, elems) =>
      && w.VTensor? && w.shape == shape && |w.elems| == |elems|
      && forall i | 0 <= i < |elems| :: SameShape(elems[i], w.elems[i])
  }

  /** Elementwise sum. */
  function AddVal(v: Val, w: Val): Val
    requires SameShape(v, w)
    decreases v, 1
  {
    match v
    case Num(x) => Num(x + w.x)
    case VUnit => VUnit
    case VPack(h, t) => VPack(AddVal(h, w.head), AddVal(t, w.tail))
    case VTensor(shape, elems) => VTensor(shape, AddVals(v, elems, w.elems, |elems|))
  }

  function AddVals(v: Val, vs: seq<Val>, ws: seq<Val>, n: nat): (us: seq<Val>)
    requires v.VTensor? && vs == v.elems && n == |vs| == |ws| && forall i | 0 <= i < n :: SameShape(vs[i], ws[i])
    ensures |us| == n
    decreases v, 0
  {
    seq(n, i requires 0 <= i < n => AddVal(vs[i], ws[i]))
  }

  /** A sum takes as much memory as its first summand. */
  lemma {:induction false} InflatedAdd(ty: Ty, v: Val, w: Val)
    requires SameShape(v, w)
    ensures Inflated(ty, AddVal(v, w)) == Inflated(ty, v)
    decreases v, 1
  {
    match v
    case Num(_) =>
    case VUnit =>
    case VPack(h, t) =>
      if ty.Pack? {
        InflatedAdd(ty.head, h, w.head);
        InflatedAdd(ty.tail, t, w.tail);
      }
    case VTensor(_, elems) =>
      if ty.Tensor? {
        hide Padded, Span;
        InflatedAddElems(ty.elem, v, elems, w.elems, AddVals(v, elems, w.elems, |elems|), |elems|);
      }
  }

  lemma {:induction false} InflatedAddElems(e: Ty, v: Val, vs: seq<Val>, ws: seq<Val>, us: seq<Val>, k: nat)
    requires v.VTensor? && vs == v.elems && k <= |vs| == |ws| == |us|
    requires forall i | 0 <= i < |vs| :: SameShape(vs[i], ws[i]) && us[i] == AddVal(vs[i], ws[i])
    ensures InflatedElems(e, us, k) == InflatedElems(e, vs, k)
    decreases v, 0, k
  {
    if k > 0 {
      InflatedAddElems(e, v, vs, ws, us, k - 1);
      InflatedAdd(e, vs[k - 1], ws[k - 1]);
    }
  }

  // ---------------------------------------------------------------- the numbers of an object

  /** Numbers and handles are where the type says. */
  ghost predicate Formed(m: Memory, ty: Ty, a: nat) {
    match ty
    case Scalar => a < |m| && m[a].NumCell?
    case Unit => true
    case Pack(h, t) => Formed(m, h, a) && Formed(m, t, a + Sizeof(h))
    case Tensor(r, e) =>
      && a < |m| && m[a].Handle? && m[a].elem == e && |m[a].shape| == r
      && forall i: nat | i < NumElements(m[a].shape) :: Formed(m, e, ElemAt(e, m[a].data, i))
  }

  /** The addresses of the numbers that an object reaches. */
  ghost function Cells(m: Memory, ty: Ty, a: nat): set<nat> {
    match ty
    case Scalar => {a}
    case Unit => {}
    case Pack(h, t) => Cells(m, h, a) + Cells(m, t, a + Sizeof(h))
    case Tensor(_, e) =>
      if a < |m| && m[a].Handle? then
        set i: nat, q: nat | i < NumElements(m[a].shape) && q in Cells(m, e, ElemAt(e, m[a].data, i)) :: q
      else {}
  }

  /** No number is reached twice. */
  ghost predicate Sole(m: Memory, ty: Ty, a: nat)
    decreases ty, 0
  {
    match ty
    case Scalar => true
    case Unit => true
    case Pack(h, t) => Sole(m, h, a) && Sole(m, t, a + Sizeof(h)) && Cells(m, h, a) !! Cells(m, t, a + Sizeof(h))
    case Tensor(_, e) =>
      a < |m| && m[a].Handle? ==> SoleElems(m, e, m[a].data, NumElements(m[a].shape))
  }

  ghost predicate SoleElems(m: Memory, e: Ty, d: nat, n: nat)
    decreases e, 1
  {
    && (forall i: nat | i < n :: Sole(m, e, ElemAt(e, d, i)))
    && (forall i: nat, j: nat | i < j < n :: Cells(m, e, ElemAt(e, d, i)) !! Cells(m, e, ElemAt(e, d, j)))
  }

  /** Some of the numbers at `cells` may have changed, and nothing else. */
  ghost predicate OnlyNumbers(m: Memory, m': Memory, cells: set<nat>) {
    && |m'| == |m|
    && forall q {:trigger m'[q]} | 0 <= q < |m| :: m'[q] == m[q] || (q in cells && m[q].NumCell? && m'[q].NumCell?)
  }

  lemma {:induction false} OnlyNumbersTransitive(m: Memory, m1: Memory, m2: Memory, cells: set<nat>, more: set<nat>)
    requires OnlyNumbers(m, m1, cells) && OnlyNumbers(m1, m2, more)
    ensures OnlyNumbers(m, m2, cells + more)
  {
    forall q {:trigger m2[q]} | 0 <= q < |m|
      ensures m2[q] == m[q] || (q in cells + more && m[q].NumCell? && m2[q].NumCell?)
    {
      var _ := m1[q];
    }
  }

  lemma {:induction false} OnlyNumbersOf(m: Memory, m': Memory, cells: set<nat>, more: set<nat>)
    requires OnlyNumbers(m, m', cells) && cells <= more
    ensures OnlyNumbers(m, m', more)
  {}

  lemma {:induction false} CellsOfElem(m: Memory, r: nat, e: Ty, a: nat, i: nat)
    requires a < |m| && m[a].Handle? && i < NumElements(m[a].shape)
    ensures Cells(m, e, ElemAt(e, m[a].data, i)) <= Cells(m, Tensor(r, e), a)
  {
    hide NumElements, ElemAt;
  }

  lemma {:induction false} CellsOfElems(m: Memory, r: nat, e: Ty, a: nat, q: nat) returns (i: nat)
    requires a < |m| && m[a].Handle? && q in Cells(m, Tensor(r, e), a)
    ensures i < NumElements(m[a].shape) && q in Cells(m, e, ElemAt(e, m[a].data, i))
  {
    hide NumElements, ElemAt;
    i :| i < NumElements(m[a].shape) && q in Cells(m, e, ElemAt(e, m[a].data, i));
  }

  /** Changing numbers leaves the form of every object, and the values of those that do not reach the numbers. */
  lemma {:induction false} NumbersKeep(m: Memory, m': Memory, cells: set<nat>, ty: Ty, a: nat)
    requires OnlyNumbers(m, m', cells) && Formed(m, ty, a)
    ensures Formed(m', ty, a) && Cells(m', ty, a) == Cells(m, ty, a)
    ensures Sole(m, ty, a) ==> Sole(m', ty, a)
    ensures SameShape(Deep(m, ty, a), Deep(m', ty, a))
    ensures Cells(m, ty, a) !! cells ==> Deep(m', ty, a) == Deep(m, ty, a)
    decreases ty, 1
  {
    match ty
    case Scalar => var c := m'[a];
    case Unit =>
    case Pack(h, t) =>
      NumbersKeep(m, m', cells, h, a);
      NumbersKeep(m, m', cells, t, a + Sizeof(h));
    case Tensor(r, e) => NumbersKeepTensor(m, m', cells, r, e, a);
  }

  lemma {:induction false} NumbersKeepTensor(m: Memory, m': Memory, cells: set<nat>, r: nat, e: Ty, a: nat)
    requires OnlyNumbers(m, m', cells) && Formed(m, Tensor(r, e), a)
    ensures Formed(m', Tensor(r, e), a) && Cells(m', Tensor(r, e), a) == Cells(m, Tensor(r, e), a)
    ensures Sole(m, Tensor(r, e), a) ==> Sole(m', Tensor(r, e), a)
    ensures SameShape(Deep(m, Tensor(r, e), a), Deep(m', Tensor(r, e), a))
    ensures Cells(m, Tensor(r, e), a) !! cells ==> Deep(m', Tensor(r, e), a) == Deep(m, Tensor(r, e), a)
    decreases e, 2
  {
    hide NumElements, ElemAt;
    assert m'[a] == m[a];
    var d, n := m[a].data, NumElements(m[a].shape);
    forall i: nat | i < n
      ensures Formed(m', e, ElemAt(e, d, i)) && Cells(m', e, ElemAt(e, d, i)) == Cells(m, e, ElemAt(e, d, i))
      ensures Sole(m, e, ElemAt(e, d, i)) ==> Sole(m', e, ElemAt(e, d, i))
      ensures SameShape(Deep(m, e, ElemAt(e, d, i)), Deep(m', e, ElemAt(e, d, i)))
      ensures Cells(m, Tensor(r, e), a) !! cells ==> Deep(m', e, ElemAt(e, d, i)) == Deep(m, e, ElemAt(e, d, i))
    {
      NumbersKeep(m, m', cells, e, ElemAt(e, d, i));
      CellsOfElem(m, r, e, a, i);
    }
    SameCellsElems(m, m', r, e, a);
    if Sole(m, Tensor(r, e), a) {
      SameSoleElems(m, m', r, e, a);
    }
    SameDeepElems(m, m', r, e, a);
  }

  lemma {:induction false} SameCellsElems(m: Memory, m': Memory, r: nat, e: Ty, a: nat)
    requires a < |m| && m[a].Handle? && a < |m'| && m'[a] == m[a]
    requires forall i: nat | i < NumElements(m[a].shape) ::
      Cells(m', e, ElemAt(e, m[a].data, i)) == Cells(m, e, ElemAt(e, m[a].data, i))
    ensures Cells(m', Tensor(r, e), a) == Cells(m, Tensor(r, e), a)
  {
    hide NumElements, ElemAt;
    forall q ensures q in Cells(m', Tensor(r, e), a) <==> q in Cells(m, Tensor(r, e), a) {
      if q in Cells(m, Tensor(r, e), a) {
        var i := CellsOfElems(m, r, e, a, q);
        CellsOfElem(m', r, e, a, i);
      }
      if q in Cells(m', Tensor(r, e), a) {
        var i := CellsOfElems(m', r, e, a, q);
        CellsOfElem(m, r, e, a, i);
      }
    }
  }

  lemma {:induction false} SameSoleElems(m: Memory, m': Memory, r: nat, e: Ty, a: nat)
    requires a < |m| && m[a].Handle? && a < |m'| && m'[a] == m[a] && Sole(m, Tensor(r, e), a)
    requires forall i: nat | i < NumElements(m[a].shape) ::
      Cells(m', e, ElemAt(e, m[a].data, i)) == Cells(m, e, ElemAt(e, m[a].data, i))
      && (Sole(m, e, ElemAt(e, m[a].data, i)) ==> Sole(m', e, ElemAt(e, m[a].data, i)))
    ensures Sole(m', Tensor(r, e), a)
  {
    hide NumElements, ElemAt, Cells;
  }

  lemma {:induction false} SameDeepElems(m: Memory, m': Memory, r: nat, e: Ty, a: nat)
    requires a < |m| && m[a].Handle? && a < |m'| && m'[a] == m[a]
    ensures (forall i: nat | i < NumElements(m[a].shape) ::
        SameShape(Deep(m, e, ElemAt(e, m[a].data, i)), Deep(m', e, ElemAt(e, m[a].data, i)))) ==>
      SameShape(Deep(m, Tensor(r, e), a), Deep(m', Tensor(r, e), a))
    ensures (forall i: nat | i < NumElements(m[a].shape) ::
        Deep(m', e, ElemAt(e, m[a].data, i)) == Deep(m, e, ElemAt(e, m[a].data, i))) ==>
      Deep(m', Tensor(r, e), a) == Deep(m, Tensor(r, e), a)
  {
    hide NumElements, ElemAt;
    var d, n := m[a].data, NumElements(m[a].shape);
    var vs, ws := DeepElems(m, e, d, n), DeepElems(m', e, d, n);
    assert forall i | 0 <= i < n :: vs[i] == Deep(m, e, ElemAt(e, d, i)) && ws[i] == Deep(m', e, ElemAt(e, d, i));
    assert (forall i | 0 <= i < n :: vs[i] == ws[i]) ==> vs == ws;
  }

  // ---------------------------------------------------------------- the addition

  /** No number of `t1` is reached twice, nor by `t2`. */
  ghost predicate Separate(m: Memory, ty: Ty, t1: nat, t2: nat) {
    Formed(m, ty, t1) && Formed(m, ty, t2) && Sole(m, ty, t1) && Cells(m, ty, t1) !! Cells(m, ty, t2)
  }

  /** `t1` now has the sum, and nothing but its numbers has changed. */
  ghost predicate Added(m: Memory, m': Memory, ty: Ty, t1: nat, t2: nat) {
    && SameShape(Deep(m, ty, t1), Deep(m, ty, t2))
    && Deep(m', ty, t1) == AddVal(Deep(m, ty, t1), Deep(m, ty, t2))
    && OnlyNumbers(m, m', Cells(m, ty, t1))
  }

  /** `inplace_add`, for any objects; a failed assertion of the source is the outcome `!ok`. */
  method InplaceAdd(mem: array<Cell>, ty: Ty, t1: nat, t2: nat) returns (ok: bool)
    requires Separate(mem[..], ty, t1, t2)
    modifies mem
    ensures ok <==> SameShape(Deep(old(mem[..]), ty, t1), Deep(old(mem[..]), ty, t2))
    ensures ok ==> Added(old(mem[..]), mem[..], ty, t1, t2)
    ensures OnlyNumbers(old(mem[..]), mem[..], Cells(old(mem[..]), ty, t1))
    decreases ty, 1
  {
    hide Separate, Added, Deep, SameShape, Sizeof, OnlyNumbers, Cells, AddVal;
    ghost var m := mem[..];
    match ty
    case Scalar =>
      SeparateScalar(m, t1, t2);
      mem[t1] := NumCell(mem[t1].x + mem[t2].x);
      assert mem[..] == m[t1 := NumCell(m[t1].x + m[t2].x)];
      AddedScalar(m, mem[..], t1, t2);
      ok := true;
    case Unit =>
      AddedUnit(m, t1, t2);
      ok := true;
    case Pack(h, tl) =>
      SeparateHead(m, h, tl, t1, t2);
      ok := InplaceAdd(mem, h, t1, t2);
      ghost var m1 := mem[..];
      HeadAdded(m, m1, h, tl, t1, t2);
      if !ok { return; }
      ok := InplaceAdd(mem, tl, t1 + Sizeof(h), t2 + Sizeof(h));
      TailAdded(m, m1, mem[..], h, tl, t1, t2, ok);
    case Tensor(r, e) =>
      ok := InplaceAddTensor(mem, r, e, t1, t2);
  }

  lemma {:induction false} SeparateScalar(m: Memory, t1: nat, t2: nat)
    requires Separate(m, Scalar, t1, t2)
    ensures t1 < |m| && m[t1].NumCell? && t2 < |m| && m[t2].NumCell?
  {}

  lemma {:induction false} AddedScalar(m: Memory, m': Memory, t1: nat, t2: nat)
    requires Separate(m, Scalar, t1, t2)
    requires t1 < |m| && m[t1].NumCell? && t2 < |m| && m[t2].NumCell?
    requires m' == m[t1 := NumCell(m[t1].x + m[t2].x)]
    ensures Added(m, m', Scalar, t1, t2)
  {}

  lemma {:induction false} AddedUnit(m: Memory, t1: nat, t2: nat)
    ensures Added(m, m, Unit, t1, t2)
  {}

  lemma {:induction false} SeparateHead(m: Memory, h: Ty, t: Ty, t1: nat, t2: nat)
    requires Separate(m, Pack(h, t), t1, t2)
    ensures Separate(m, h, t1, t2)
  {
    hide Sizeof;
  }

  /** Adding to the head leaves the tail summable and unchanged. */
  lemma {:induction false} HeadAdded(m: Memory, m1: Memory, h: Ty, t: Ty, t1: nat, t2: nat)
    requires Separate(m, Pack(h, t), t1, t2) && OnlyNumbers(m, m1, Cells(m, h, t1))
    ensures OnlyNumbers(m, m1, Cells(m, Pack(h, t), t1))
    ensures Separate(m1, t, t1 + Sizeof(h), t2 + Sizeof(h))
      && Cells(m1, t, t1 + Sizeof(h)) == Cells(m, t, t1 + Sizeof(h))
    ensures Deep(m1, t, t1 + Sizeof(h)) == Deep(m, t, t1 + Sizeof(h))
    ensures Deep(m1, t, t2 + Sizeof(h)) == Deep(m, t, t2 + Sizeof(h))
    ensures SameShape(Deep(m, Pack(h, t), t1), Deep(m, Pack(h, t), t2)) <==>
      SameShape(Deep(m, h, t1), Deep(m, h, t2)) && SameShape(Deep(m, t, t1 + Sizeof(h)), Deep(m, t, t2 + Sizeof(h)))
  {
    hide OnlyNumbers, Sizeof, Formed, Sole, Cells, Deep, SameShape;
    SeparatePack(m, h, t, t1, t2);
    OnlyNumbersOf(m, m1, Cells(m, h, t1), Cells(m, Pack(h, t), t1));
    NumbersKeep(m, m1, Cells(m, h, t1), t, t1 + Sizeof(h));
    NumbersKeep(m, m1, Cells(m, h, t1), t, t2 + Sizeof(h));
    PackShape(m, h, t, t1, t2);
  }

  lemma {:induction false} PackShape(m: Memory, h: Ty, t: Ty, t1: nat, t2: nat)
    ensures SameShape(Deep(m, Pack(h, t), t1), Deep(m, Pack(h, t), t2)) <==>
      SameShape(Deep(m, h, t1), Deep(m, h, t2)) && SameShape(Deep(m, t, t1 + Sizeof(h)), Deep(m, t, t2 + Sizeof(h)))
  {
    hide Sizeof, Deep;
    DeepPack(m, h, t, t1);
    DeepPack(m, h, t, t2);
  }

  lemma {:induction false} TailAdded(m: Memory, m1: Memory, m2: Memory, h: Ty, t: Ty, t1: nat, t2: nat, ok: bool)
    requires Separate(m, Pack(h, t), t1, t2) && Added(m, m1, h, t1, t2)
    requires Deep(m1, t, t1 + Sizeof(h)) == Deep(m, t, t1 + Sizeof(h))
    requires Deep(m1, t, t2 + Sizeof(h)) == Deep(m, t, t2 + Sizeof(h))
    requires Cells(m1, t, t1 + Sizeof(h)) == Cells(m, t, t1 + Sizeof(h))
    requires OnlyNumbers(m1, m2, Cells(m1, t, t1 + Sizeof(h)))
    requires ok ==> Added(m1, m2, t, t1 + Sizeof(h), t2 + Sizeof(h))
    ensures OnlyNumbers(m, m2, Cells(m, Pack(h, t), t1)) && (ok ==> Added(m, m2, Pack(h, t), t1, t2))
  {
    hide OnlyNumbers, Sizeof, Separate, Formed, Sole, Cells, Deep, SameShape, AddVal;
    SeparatePack(m, h, t, t1, t2);
    OnlyNumbersTransitive(m, m1, m2, Cells(m, h, t1), Cells(m, t, t1 + Sizeof(h)));
    NumbersKeep(m, m1, Cells(m, h, t1), h, t1);
    NumbersKeep(m1, m2, Cells(m, t, t1 + Sizeof(h)), h, t1);
    if ok {
      PackSum(m, m2, h, t, t1, t2);
    }
  }

  lemma {:induction false} SeparatePack(m: Memory, h: Ty, t: Ty, t1: nat, t2: nat)
    requires Separate(m, Pack(h, t), t1, t2)
    ensures Formed(m, h, t1) && Cells(m, h, t1) !! Cells(m, t, t1 + Sizeof(h))
    ensures Cells(m, Pack(h, t), t1) == Cells(m, h, t1) + Cells(m, t, t1 + Sizeof(h))
    ensures Separate(m, t, t1 + Sizeof(h), t2 + Sizeof(h)) && Cells(m, h, t1) !! Cells(m, t, t2 + Sizeof(h))
  {
    hide Sizeof;
  }

  /** The sum of two pairs is the pair of the sums. */
  lemma {:induction false} PackSum(m: Memory, m': Memory, h: Ty, t: Ty, t1: nat, t2: nat)
    requires SameShape(Deep(m, h, t1), Deep(m, h, t2))
    requires SameShape(Deep(m, t, t1 + Sizeof(h)), Deep(m, t, t2 + Sizeof(h)))
    requires Deep(m', h, t1) == AddVal(Deep(m, h, t1), Deep(m, h, t2))
    requires Deep(m', t, t1 + Sizeof(h)) == AddVal(Deep(m, t, t1 + Sizeof(h)), Deep(m, t, t2 + Sizeof(h)))
    ensures SameShape(Deep(m, Pack(h, t), t1), Deep(m, Pack(h, t), t2))
    ensures Deep(m', Pack(h, t), t1) == AddVal(Deep(m, Pack(h, t), t1), Deep(m, Pack(h, t), t2))
  {
    hide Sizeof, Deep;
    DeepPack(m, h, t, t1);
    DeepPack(m, h, t, t2);
    DeepPack(m', h, t, t1);
  }

  /** The tensor case. */
  method InplaceAddTensor(mem: array<Cell>, r: nat, e: Ty, t1: nat, t2: nat) returns (ok: bool)
    requires Separate(mem[..], Tensor(r, e), t1, t2)
    modifies mem
    ensures ok <==> SameShape(Deep(old(mem[..]), Tensor(r, e), t1), Deep(old(mem[..]), Tensor(r, e), t2))
    ensures ok ==> Added(old(mem[..]), mem[..], Tensor(r, e), t1, t2)
    ensures OnlyNumbers(old(mem[..]), mem[..], Cells(old(mem[..]), Tensor(r, e), t1))
    decreases e, 3
  {
    hide Separate, Added, Deep, DeepElems, SameShape, NumElements, OnlyNumbers, Cells, AddVal, ElemAt, PartlyAdded;
    ghost var m := mem[..];
    SeparateTensor(m, r, e, t1, t2);
    var shape1, shape2 := mem[t1].shape, mem[t2].shape;
    OnlyNumbersNone(m, Cells(m, Tensor(r, e), t1));
    if shape1 != shape2 { return false; }
    var t1data, t2data, n := mem[t1].data, mem[t2].data, NumElements(shape1);
    NothingAdded(m, r, e, t1, t2);
    var i := 0;
    while i < n
      invariant 0 <= i <= n
      invariant PartlyAdded(m, mem[..], r, e, t1, t2, i)
    {
      ghost var mi := mem[..];
      SeparateElem(m, mi, r, e, t1, t2, i);
      ok := InplaceAdd(mem, e, ElemAt(e, t1data, i), ElemAt(e, t2data, i));
      ElemAdded(m, mi, mem[..], r, e, t1, t2, i, ok);
      if !ok { return; }
      i := i + 1;
    }
    AddedTensor(m, mem[..], r, e, t1, t2);
    ok := true;
  }

  lemma {:induction false} OnlyNumbersNone(m: Memory, cells: set<nat>)
    ensures OnlyNumbers(m, m, cells)
  {}

  lemma {:induction false} SeparateTensor(m: Memory, r: nat, e: Ty, t1: nat, t2: nat)
    requires Separate(m, Tensor(r, e), t1, t2)
    ensures t1 < |m| && m[t1].Handle? && t2 < |m| && m[t2].Handle?
    ensures m[t1].shape != m[t2].shape ==> !SameShape(Deep(m, Tensor(r, e), t1), Deep(m, Tensor(r, e), t2))
  {
    hide NumElements, ElemAt, Cells, Sole, DeepElems;
  }

  /** The first `i` elements of `t2` have been added to those of `t1`. */
  ghost predicate PartlyAdded(m: Memory, mi: Memory, r: nat, e: Ty, t1: nat, t2: nat, i: nat)
    requires t1 < |m| && m[t1].Handle? && t2 < |m| && m[t2].Handle?
  {
    && OnlyNumbers(m, mi, Cells(m, Tensor(r, e), t1))
    && (forall j: nat | j < i :: SameShape(Elem(m, e, t1, j), Elem(m, e, t2, j))
         && Deep(mi, e, ElemAt(e, m[t1].data, j)) == AddVal(Elem(m, e, t1, j), Elem(m, e, t2, j)))
    && (forall j: nat | i <= j < NumElements(m[t1].shape) :: Deep(mi, e, ElemAt(e, m[t1].data, j)) == Elem(m, e, t1, j))
  }

  ghost function Elem(m: Memory, e: Ty, a: nat, i: nat): Val
    requires a < |m| && m[a].Handle?
  {
    Deep(m, e, ElemAt(e, m[a].data, i))
  }

  lemma {:induction false} NothingAdded(m: Memory, r: nat, e: Ty, t1: nat, t2: nat)
    requires t1 < |m| && m[t1].Handle? && t2 < |m| && m[t2].Handle?
    ensures PartlyAdded(m, m, r, e, t1, t2, 0)
  {
    hide Deep, Cells, NumElements, ElemAt;
  }

  lemma {:induction false} TensorParts(m: Memory, r: nat, e: Ty, t1: nat, t2: nat, i: nat)
    requires Separate(m, Tensor(r, e), t1, t2) && t1 < |m| && m[t1].Handle? && t2 < |m| && m[t2].Handle?
    requires i < NumElements(m[t1].shape) && m[t2].shape == m[t1].shape
    ensures Separate(m, e, ElemAt(e, m[t1].data, i), ElemAt(e, m[t2].data, i))
    ensures Cells(m, e, ElemAt(e, m[t1].data, i)) <= Cells(m, Tensor(r, e), t1)
    ensures Cells(m, e, ElemAt(e, m[t2].data, i)) !! Cells(m, Tensor(r, e), t1)
    ensures forall j: nat | j < NumElements(m[t1].shape) && j != i ::
      Cells(m, e, ElemAt(e, m[t1].data, i)) !! Cells(m, e, ElemAt(e, m[t1].data, j))
  {
    hide NumElements, ElemAt, Cells, Sole, Formed;
    CellsOfElem(m, r, e, t1, i);
    CellsOfElem(m, r, e, t2, i);
    FormedElem(m, r, e, t1, i);
    FormedElem(m, r, e, t2, i);
    SoleElem(m, r, e, t1, i);
  }

  lemma {:induction false} FormedElem(m: Memory, r: nat, e: Ty, a: nat, i: nat)
    requires a < |m| && m[a].Handle? && i < NumElements(m[a].shape) && Formed(m, Tensor(r, e), a)
    ensures Formed(m, e, ElemAt(e, m[a].data, i))
  {
    hide NumElements, ElemAt;
  }

  lemma {:induction false} SoleElem(m: Memory, r: nat, e: Ty, a: nat, i: nat)
    requires a < |m| && m[a].Handle? && i < NumElements(m[a].shape) && Sole(m, Tensor(r, e), a)
    ensures Sole(m, e, ElemAt(e, m[a].data, i))
    ensures forall j: nat | j < NumElements(m[a].shape) && j != i ::
      Cells(m, e, ElemAt(e, m[a].data, i)) !! Cells(m, e, ElemAt(e, m[a].data, j))
  {
    hide NumElements, ElemAt, Cells;
  }

  /** The next pair of elements can be added. */
  lemma {:induction false} SeparateElem(m: Memory, mi: Memory, r: nat, e: Ty, t1: nat, t2: nat, i: nat)
    requires Separate(m, Tensor(r, e), t1, t2) && t1 < |m| && m[t1].Handle? && t2 < |m| && m[t2].Handle?
    requires i < NumElements(m[t1].shape) && m[t2].shape == m[t1].shape && PartlyAdded(m, mi, r, e, t1, t2, i)
    ensures Separate(mi, e, ElemAt(e, m[t1].data, i), ElemAt(e, m[t2].data, i))
    ensures Cells(mi, e, ElemAt(e, m[t1].data, i)) == Cells(m, e, ElemAt(e, m[t1].data, i))
    ensures Deep(mi, e, ElemAt(e, m[t1].data, i)) == Elem(m, e, t1, i)
    ensures Deep(mi, e, ElemAt(e, m[t2].data, i)) == Elem(m, e, t2, i)
  {
    TensorParts(m, r, e, t1, t2, i);
    hide OnlyNumbers, NumElements, ElemAt, Cells, Sole, Formed, Deep, SameShape, AddVal;
    var cells := Cells(m, Tensor(r, e), t1);
    NumbersKeep(m, mi, cells, e, ElemAt(e, m[t1].data, i));
    NumbersKeep(m, mi, cells, e, ElemAt(e, m[t2].data, i));
  }

  /** Adding one pair of elements disturbs no other element. */
  lemma {:induction false} ElemAdded(m: Memory, mi: Memory, m1: Memory, r: nat, e: Ty, t1: nat, t2: nat, i: nat,
      ok: bool)
    requires Separate(m, Tensor(r, e), t1, t2) && t1 < |m| && m[t1].Handle? && t2 < |m| && m[t2].Handle?
    requires i < NumElements(m[t1].shape) && m[t2].shape == m[t1].shape && PartlyAdded(m, mi, r, e, t1, t2, i)
    requires var a1, a2 := ElemAt(e, m[t1].data, i), ElemAt(e, m[t2].data, i);
      && OnlyNumbers(mi, m1, Cells(m, e, a1)) && (ok ==> Added(mi, m1, e, a1, a2))
      && Deep(mi, e, a1) == Elem(m, e, t1, i) && Deep(mi, e, a2) == Elem(m, e, t2, i)
      && (ok <==> SameShape(Deep(mi, e, a1), Deep(mi, e, a2)))
    ensures OnlyNumbers(m, m1, Cells(m, Tensor(r, e), t1))
    ensures ok ==> PartlyAdded(m, m1, r, e, t1, t2, i + 1)
    ensures !ok ==> !SameShape(Deep(m, Tensor(r, e), t1), Deep(m, Tensor(r, e), t2))
  {
    TensorParts(m, r, e, t1, t2, i);
    var cells, a1 := Cells(m, Tensor(r, e), t1), ElemAt(e, m[t1].data, i);
    assert cells + Cells(m, e, a1) == cells;
    OnlyNumbersTransitive(m, mi, m1, cells, Cells(m, e, a1));
    hide OnlyNumbers, Cells, Separate;
    ShapeOfElem(m, r, e, t1, t2, i);
    hide NumElements, ElemAt, Deep, SameShape, AddVal;
    forall j: nat | j < NumElements(m[t1].shape) && j != i
      ensures Deep(m1, e, ElemAt(e, m[t1].data, j)) == Deep(mi, e, ElemAt(e, m[t1].data, j))
    {
      TensorFormed(m, r, e, t1, t2);
      FormedElem(m, r, e, t1, j);
      NumbersKeep(m, mi, cells, e, ElemAt(e, m[t1].data, j));
      NumbersKeep(mi, m1, Cells(m, e, a1), e, ElemAt(e, m[t1].data, j));
    }
  }

  lemma {:induction false} TensorFormed(m: Memory, r: nat, e: Ty, t1: nat, t2: nat)
    requires Separate(m, Tensor(r, e), t1, t2)
    ensures Formed(m, Tensor(r, e), t1)
  {
    hide Formed, Cells, Sole;
  }

  lemma {:induction false} ShapeOfElem(m: Memory, r: nat, e: Ty, t1: nat, t2: nat, i: nat)
    requires t1 < |m| && m[t1].Handle? && t2 < |m| && m[t2].Handle? && m[t2].shape == m[t1].shape
    requires i < NumElements(m[t1].shape)
    ensures SameShape(Deep(m, Tensor(r, e), t1), Deep(m, Tensor(r, e), t2)) ==>
      SameShape(Elem(m, e, t1, i), Elem(m, e, t2, i))
  {
    hide NumElements, ElemAt;
    var n := NumElements(m[t1].shape);
    assert DeepElems(m, e, m[t1].data, n)[i] == Elem(m, e, t1, i);
    assert DeepElems(m, e, m[t2].data, n)[i] == Elem(m, e, t2, i);
  }

  lemma {:induction false} AddedTensor(m: Memory, m1: Memory, r: nat, e: Ty, t1: nat, t2: nat)
    requires Separate(m, Tensor(r, e), t1, t2) && t1 < |m| && m[t1].Handle? && t2 < |m| && m[t2].Handle?
    requires m[t2].shape == m[t1].shape && PartlyAdded(m, m1, r, e, t1, t2, NumElements(m[t1].shape))
    ensures Added(m, m1, Tensor(r, e), t1, t2) && OnlyNumbers(m, m1, Cells(m, Tensor(r, e), t1))
    ensures SameShape(Deep(m, Tensor(r, e), t1), Deep(m, Tensor(r, e), t2))
  {
    hide Separate, Cells, NumElements, ElemAt, Sole, Formed;
    assert m1[t1] == m[t1];
    hide OnlyNumbers;
    var d1, d2, n := m[t1].data, m[t2].data, NumElements(m[t1].shape);
    var vs, ws, us := DeepElems(m, e, d1, n), DeepElems(m, e, d2, n), DeepElems(m1, e, d1, n);
    assert Deep(m, Tensor(r, e), t1) == VTensor(m[t1].shape, vs)
      && Deep(m, Tensor(r, e), t2) == VTensor(m[t1].shape, ws);
    assert Deep(m1, Tensor(r, e), t1) == VTensor(m[t1].shape, us);
    forall i | 0 <= i < n ensures SameShape(vs[i], ws[i]) && us[i] == AddVal(vs[i], ws[i]) {
      assert vs[i] == Elem(m, e, t1, i) && ws[i] == Elem(m, e, t2, i) && us[i] == Deep(m1, e, ElemAt(e, d1, i));
    }
    hide Deep;
    assert AddVals(VTensor(m[t1].shape, vs), vs, ws, n) == us;
  }

  // ---------------------------------------------------------------- accumulators that are laid out in pre-order

  /** All memory that the value of the object at `a` depends on: its own cells and its blocks. */
  ghost function Reads(m: Memory, ty: Ty, a: nat): seq<Block> {
    [Block(a, a + Sizeof(ty))] + Blocks(m, ty, a)
  }

  ghost predicate Apart(bs: seq<Block>, x: nat, y: nat) {
    forall b | b in bs :: b.end <= x || y <= b.from
  }

  lemma {:induction false} ApartReads(a: nat, b: nat, bs: seq<Block>, x: nat, y: nat)
    ensures Apart([Block(a, b)] + bs, x, y) <==> (b <= x || y <= a) && Apart(bs, x, y)
  {
    hide Blocks;
    var all := [Block(a, b)] + bs;
    assert Block(a, b) in all && forall k | k in bs :: k in all;
  }

  /** `t1` is laid out from `s`, away from its own cells, and shares nothing with what `t2` reads. */
  ghost predicate Addable(m: Memory, ty: Ty, t1: nat, t2: nat, s: nat, start: nat, limit: nat) {
    && Laid(m, ty, t1, s) && WellFormed(m, ty, t2, start, limit)
    && var end := s + Inflated(ty, Deep(m, ty, t1));
    && (t1 + Sizeof(ty) <= s || end <= t1)
    && Apart(Reads(m, ty, t2), t1, t1 + Sizeof(ty)) && Apart(Reads(m, ty, t2), s, end)
  }

  lemma {:induction false} IsAddable(m: Memory, ty: Ty, t1: nat, t2: nat, s: nat, start: nat, limit: nat)
    requires Laid(m, ty, t1, s) && WellFormed(m, ty, t2, start, limit)
    requires var end := s + Inflated(ty, Deep(m, ty, t1));
      && (t1 + Sizeof(ty) <= s || end <= t1)
      && (t2 + Sizeof(ty) <= t1 || t1 + Sizeof(ty) <= t2) && (t2 + Sizeof(ty) <= s || end <= t2)
      && Apart(Blocks(m, ty, t2), t1, t1 + Sizeof(ty)) && Apart(Blocks(m, ty, t2), s, end)
    ensures Addable(m, ty, t1, t2, s, start, limit)
  {
    hide Laid, WellFormed, Deep, Inflated, Blocks, Sizeof, Apart;
    ApartReads(t2, t2 + Sizeof(ty), Blocks(m, ty, t2), t1, t1 + Sizeof(ty));
    ApartReads(t2, t2 + Sizeof(ty), Blocks(m, ty, t2), s, s + Inflated(ty, Deep(m, ty, t1)));
  }

  /** Within one of two ranges. */
  ghost predicate Inside(cells: set<nat>, a: nat, b: nat, from: nat, end: nat) {
    forall q | q in cells :: a <= q < b || from <= q < end
  }

  lemma {:induction false} InsideApart(xs: set<nat>, ys: set<nat>, a: nat, b: nat, from: nat, end: nat, c: nat, d: nat,
      from': nat, end': nat)
    requires Inside(xs, a, b, from, end) && Inside(ys, c, d, from', end')
    requires b <= c && end <= from' && (d <= from || end <= c) && (b <= from' || end' <= a)
    ensures xs !! ys
  {}

  lemma {:induction false} InsideWider(xs: set<nat>, a: nat, b: nat, from: nat, end: nat, a': nat, b': nat, from': nat,
      end': nat)
    requires Inside(xs, a, b, from, end) && a' <= a && b <= b' && from' <= from && end <= end'
    ensures Inside(xs, a', b', from', end')
  {}

  /** In an object laid out in pre-order no number is reached twice, and its numbers lie where it is laid out. */
  lemma {:induction false} LaidSole(m: Memory, ty: Ty, a: nat, s: nat)
    requires Laid(m, ty, a, s)
    requires a + Sizeof(ty) <= s || s + Inflated(ty, Deep(m, ty, a)) <= a
    ensures Formed(m, ty, a) && Sole(m, ty, a)
    ensures Inside(Cells(m, ty, a), a, a + Sizeof(ty), s, s + Inflated(ty, Deep(m, ty, a)))
    decreases ty, 1
  {
    hide *;
    match ty
    case Scalar => LaidSoleLeaf(m, ty, a, s);
    case Unit => LaidSoleLeaf(m, ty, a, s);
    case Pack(h, t) => LaidSolePack(m, h, t, a, s);
    case Tensor(r, e) => LaidSoleTensor(m, r, e, a, s);
  }

  lemma {:induction false} LaidSoleLeaf(m: Memory, ty: Ty, a: nat, s: nat)
    requires Laid(m, ty, a, s) && (ty.Scalar? || ty.Unit?)
    ensures Formed(m, ty, a) && Sole(m, ty, a)
    ensures Inside(Cells(m, ty, a), a, a + Sizeof(ty), s, s + Inflated(ty, Deep(m, ty, a)))
  {}

  lemma {:induction false} LaidSolePack(m: Memory, h: Ty, t: Ty, a: nat, s: nat)
    requires Laid(m, Pack(h, t), a, s)
    requires a + Sizeof(Pack(h, t)) <= s || s + Inflated(Pack(h, t), Deep(m, Pack(h, t), a)) <= a
    ensures Formed(m, Pack(h, t), a) && Sole(m, Pack(h, t), a)
    ensures Inside(Cells(m, Pack(h, t), a), a, a + Sizeof(Pack(h, t)), s,
      s + Inflated(Pack(h, t), Deep(m, Pack(h, t), a)))
    decreases Pack(h, t), 0
  {
    hide Laid, Deep, Inflated, Sizeof, Inside;
    SizeofPack(h, t);
    LaidPack(m, h, t, a, s);
    InflatedPack(m, h, t, a);
    var mid, k, j := a + Sizeof(h), Inflated(h, Deep(m, h, a)), Inflated(t, Deep(m, t, a + Sizeof(h)));
    var end := mid + Sizeof(t);
    LaidSole(m, h, a, s);
    LaidSole(m, t, mid, s + k);
    InsideApart(Cells(m, h, a), Cells(m, t, mid), a, mid, s, s + k, mid, end, s + k, s + k + j);
    InsideWider(Cells(m, h, a), a, mid, s, s + k, a, end, s, s + k + j);
    InsideWider(Cells(m, t, mid), mid, end, s + k, s + k + j, a, end, s, s + k + j);
    InsideBoth(Cells(m, h, a), Cells(m, t, mid), a, end, s, s + k + j);
  }

  lemma {:induction false} InsideBoth(xs: set<nat>, ys: set<nat>, a: nat, b: nat, from: nat, end: nat)
    requires Inside(xs, a, b, from, end) && Inside(ys, a, b, from, end)
    ensures Inside(xs + ys, a, b, from, end)
  {}

  lemma {:induction false} LaidSoleTensor(m: Memory, r: nat, e: Ty, a: nat, s: nat)
    requires Laid(m, Tensor(r, e), a, s)
    ensures Formed(m, Tensor(r, e), a) && Sole(m, Tensor(r, e), a)
    ensures Inside(Cells(m, Tensor(r, e), a), a, a + Sizeof(Tensor(r, e)), s,
      s + Inflated(Tensor(r, e), Deep(m, Tensor(r, e), a)))
    decreases e, 3
  {
    hide *;
    LaidHandle(m, r, e, a, s);
    var vs := DeepElems(m, e, s, NumElements(m[a].shape));
    forall i: nat | i < |vs| ensures SoleAt(m, e, vs, s, i) {
      LaidSoleElem(m, e, vs, s, i);
    }
    SoleFromElems(m, r, e, a, vs, s);
  }

  /** Element `i` reaches no number twice, and its numbers lie in it and where it is laid out. */
  ghost predicate SoleAt(m: Memory, e: Ty, vs: seq<Val>, s: nat, i: nat)
    requires i < |vs|
  {
    && Formed(m, e, ElemAt(e, s, i)) && Sole(m, e, ElemAt(e, s, i))
    && Inside(Cells(m, e, ElemAt(e, s, i)), ElemAt(e, s, i), ElemAt(e, s, i) + Sizeof(e), ElemDest(e, vs, s, i),
      ElemDest(e, vs, s, i + 1))
  }

  lemma {:induction false} LaidSoleElem(m: Memory, e: Ty, vs: seq<Val>, s: nat, i: nat)
    requires i < |vs| && Laid(m, e, ElemAt(e, s, i), ElemDest(e, vs, s, i)) && Deep(m, e, ElemAt(e, s, i)) == vs[i]
    ensures SoleAt(m, e, vs, s, i)
    decreases e, 2
  {
    hide Formed, Sole, Inside, Cells, ElemAt, ElemDest, Laid, Deep, Inflated, Sizeof;
    ElementBounds(e, vs, s, i);
    LaidSole(m, e, ElemAt(e, s, i), ElemDest(e, vs, s, i));
  }

  lemma {:induction false} SoleFromElems(m: Memory, r: nat, e: Ty, a: nat, vs: seq<Val>, s: nat)
    requires a < |m| && m[a].Handle? && m[a].data == s && m[a].elem == e && |m[a].shape| == r
    requires |vs| == NumElements(m[a].shape) && forall i: nat | i < |vs| :: SoleAt(m, e, vs, s, i)
    ensures Formed(m, Tensor(r, e), a) && Sole(m, Tensor(r, e), a)
    ensures Inside(Cells(m, Tensor(r, e), a), a, a + Sizeof(Tensor(r, e)), s, ElemDest(e, vs, s, |vs|))
  {
    hide NumElements, ElemAt, ElemDest, Inside, Cells, Inflated, SoleAt;
    var n, end := |vs|, ElemDest(e, vs, s, |vs|);
    forall i: nat | i < n
      ensures Formed(m, e, ElemAt(e, s, i)) && Sole(m, e, ElemAt(e, s, i))
      ensures Inside(Cells(m, e, ElemAt(e, s, i)), s, end, s, end)
    {
      ElemWithin(m, e, vs, s, i);
    }
    forall i: nat, j: nat | i < j < n ensures Cells(m, e, ElemAt(e, s, i)) !! Cells(m, e, ElemAt(e, s, j)) {
      ElemsDisjoint(m, e, vs, s, i, j);
    }
    InsideElems(m, r, e, a, s, end);
  }

  lemma {:induction false} ElemWithin(m: Memory, e: Ty, vs: seq<Val>, s: nat, i: nat)
    requires i < |vs| && SoleAt(m, e, vs, s, i)
    ensures Formed(m, e, ElemAt(e, s, i)) && Sole(m, e, ElemAt(e, s, i))
    ensures Inside(Cells(m, e, ElemAt(e, s, i)), s, ElemDest(e, vs, s, |vs|), s, ElemDest(e, vs, s, |vs|))
  {
    hide ElemAt, ElemDest, Inside, Cells, Inflated, Formed, Sole, Sizeof, Span;
    ElementBounds(e, vs, s, i);
    DestOrder(e, vs, s, i + 1, |vs|);
    DestOrder(e, vs, s, i, |vs|);
    InsideWider(Cells(m, e, ElemAt(e, s, i)), ElemAt(e, s, i), ElemAt(e, s, i) + Sizeof(e), ElemDest(e, vs, s, i),
      ElemDest(e, vs, s, i + 1), s, ElemDest(e, vs, s, |vs|), s, ElemDest(e, vs, s, |vs|));
  }

  lemma {:induction false} ElemsDisjoint(m: Memory, e: Ty, vs: seq<Val>, s: nat, i: nat, j: nat)
    requires i < j < |vs| && SoleAt(m, e, vs, s, i) && SoleAt(m, e, vs, s, j)
    ensures Cells(m, e, ElemAt(e, s, i)) !! Cells(m, e, ElemAt(e, s, j))
  {
    hide ElemAt, ElemDest, Inside, Cells, Inflated, Formed, Sole, Sizeof, Span;
    ElementOrder(e, vs, s, i, j);
    ElementBounds(e, vs, s, j);
    InsideApart(Cells(m, e, ElemAt(e, s, i)), Cells(m, e, ElemAt(e, s, j)), ElemAt(e, s, i),
      ElemAt(e, s, i) + Sizeof(e), ElemDest(e, vs, s, i), ElemDest(e, vs, s, i + 1), ElemAt(e, s, j),
      ElemAt(e, s, j) + Sizeof(e), ElemDest(e, vs, s, j), ElemDest(e, vs, s, j + 1));
  }

  lemma {:induction false} LaidHandle(m: Memory, r: nat, e: Ty, a: nat, s: nat)
    requires Laid(m, Tensor(r, e), a, s)
    ensures a < |m| && m[a].Handle? && m[a].data == s && m[a].elem == e && |m[a].shape| == r
    ensures var n := NumElements(m[a].shape);
      var vs := DeepElems(m, e, s, n);
      && s + Inflated(Tensor(r, e), Deep(m, Tensor(r, e), a)) == ElemDest(e, vs, s, n)
      && forall i: nat | i < n ::
        Laid(m, e, ElemAt(e, s, i), ElemDest(e, vs, s, i)) && vs[i] == Deep(m, e, ElemAt(e, s, i))
  {
    hide NumElements, ElemAt, InflatedElems, Span, Padded;
  }

  lemma {:induction false} DestOrder(e: Ty, vs: seq<Val>, s: nat, i: nat, j: nat)
    requires i <= j <= |vs|
    ensures s <= ElemDest(e, vs, s, i) <= ElemDest(e, vs, s, j)
  {
    hide Inflated, Span, Padded, Sizeof;
    if i < j {
      InflatedMonotone(e, vs, i, j);
    }
  }

  lemma {:induction false} InsideElems(m: Memory, r: nat, e: Ty, a: nat, s: nat, end: nat)
    requires a < |m| && m[a].Handle?
    requires forall i: nat | i < NumElements(m[a].shape) :: Inside(Cells(m, e, ElemAt(e, m[a].data, i)), s, end, s, end)
    ensures Inside(Cells(m, Tensor(r, e), a), a, a + Sizeof(Tensor(r, e)), s, end)
  {
    hide NumElements, ElemAt, Cells, Sizeof;
    forall q | q in Cells(m, Tensor(r, e), a) ensures s <= q < end {
      var i := CellsOfElems(m, r, e, a, q);
    }
  }

  ghost predicate Covered(cells: set<nat>, bs: seq<Block>) {
    forall q | q in cells :: exists b :: b in bs && b.from <= q < b.end
  }

  lemma {:induction false} CoveredMore(cells: set<nat>, xs: seq<Block>, bs: seq<Block>)
    requires Covered(cells, xs) && forall b | b in xs :: b in bs
    ensures Covered(cells, bs)
  {}

  /** The numbers of an object are in its own cells or in its blocks. */
  lemma {:induction false} CellsAreRead(m: Memory, ty: Ty, a: nat, start: nat, limit: nat)
    requires WellFormed(m, ty, a, start, limit)
    ensures Formed(m, ty, a) && Covered(Cells(m, ty, a), Reads(m, ty, a))
    decreases ty, 1
  {
    hide Covered;
    match ty
    case Scalar => CoveredScalar(m, a);
    case Unit => CoveredNone(Reads(m, ty, a));
    case Pack(h, t) =>
      CellsAreRead(m, h, a, start, limit);
      CellsAreRead(m, t, a + Sizeof(h), start, limit);
      hide WellFormed, Formed;
      CoveredPack(m, h, t, a);
    case Tensor(r, e) =>
      CellsAreReadTensor(m, r, e, a, start, limit);
  }

  lemma {:induction false} CoveredScalar(m: Memory, a: nat)
    ensures Covered(Cells(m, Scalar, a), Reads(m, Scalar, a))
  {
    assert Block(a, a + Sizeof(Scalar)) in Reads(m, Scalar, a);
  }

  lemma {:induction false} CoveredNone(bs: seq<Block>)
    ensures Covered({}, bs)
  {}

  lemma {:induction false} CoveredPack(m: Memory, h: Ty, t: Ty, a: nat)
    requires Covered(Cells(m, h, a), Reads(m, h, a)) && Covered(Cells(m, t, a + Sizeof(h)), Reads(m, t, a + Sizeof(h)))
    ensures Covered(Cells(m, Pack(h, t), a), Reads(m, Pack(h, t), a))
  {
    hide Sizeof, Blocks, Cells, Covered;
    SizeofPack(h, t);
    BlocksPack(m, h, t, a);
    CellsPack(m, h, t, a);
    var mid := a + Sizeof(h);
    CoveredBoth(Cells(m, h, a), Cells(m, t, mid), a, mid, mid + Sizeof(t), Blocks(m, h, a), Blocks(m, t, mid));
  }

  lemma {:induction false} CoveredBoth(cs: set<nat>, ds: set<nat>, a: nat, mid: nat, end: nat, xs: seq<Block>,
      ys: seq<Block>)
    requires Covered(cs, [Block(a, mid)] + xs) && Covered(ds, [Block(mid, end)] + ys) && a <= mid <= end
    ensures Covered(cs + ds, [Block(a, end)] + (xs + ys))
  {
    var bs := [Block(a, end)] + (xs + ys);
    assert bs[0] == Block(a, end);
    forall b | b in xs || b in ys ensures b in bs {
      assert b in xs + ys;
    }
    CoveredPart(cs, a, mid, xs, a, end, bs);
    CoveredPart(ds, mid, end, ys, a, end, bs);
  }

  /** What is covered by some blocks and a range is covered by those blocks and a wider range. */
  lemma {:induction false} CoveredPart(cells: set<nat>, from: nat, to: nat, xs: seq<Block>, a: nat, end: nat,
      bs: seq<Block>)
    requires Covered(cells, [Block(from, to)] + xs) && a <= from && to <= end
    requires Block(a, end) in bs && forall b | b in xs :: b in bs
    ensures Covered(cells, bs)
  {
    forall q | q in cells ensures exists b :: b in bs && b.from <= q < b.end {
      var b :| b in [Block(from, to)] + xs && b.from <= q < b.end;
      assert b in bs || Block(a, end).from <= q < Block(a, end).end;
    }
  }

  lemma {:induction false} CellsPack(m: Memory, h: Ty, t: Ty, a: nat)
    ensures Cells(m, Pack(h, t), a) == Cells(m, h, a) + Cells(m, t, a + Sizeof(h))
  {
    hide Sizeof;
  }

  lemma {:induction false} CellsAreReadTensor(m: Memory, r: nat, e: Ty, a: nat, start: nat, limit: nat)
    requires WellFormed(m, Tensor(r, e), a, start, limit)
    ensures Formed(m, Tensor(r, e), a) && Covered(Cells(m, Tensor(r, e), a), Reads(m, Tensor(r, e), a))
    decreases e, 2
  {
    HandleParts(m, r, e, a, start, limit);
    var d, n := m[a].data, NumElements(m[a].shape);
    var inner := if d < start then start else limit;
    hide NumElements, ElemAt, WellFormedElems, Blocks, ElemBlocks, Cells, Sizeof, DeepElems, InflatedElems, Covered;
    forall i: nat | i < n
      ensures Formed(m, e, ElemAt(e, d, i)) && Covered(Cells(m, e, ElemAt(e, d, i)), Reads(m, Tensor(r, e), a))
    {
      ElemOf(m, e, d, n, i, start, inner);
      CellsAreRead(m, e, ElemAt(e, d, i), start, inner);
      ElemCovered(m, r, e, a, i);
    }
    hide WellFormed;
    CoveredElems(m, r, e, a, Reads(m, Tensor(r, e), a));
  }

  lemma {:induction false} CoveredElems(m: Memory, r: nat, e: Ty, a: nat, bs: seq<Block>)
    requires a < |m| && m[a].Handle?
    requires forall i: nat | i < NumElements(m[a].shape) :: Covered(Cells(m, e, ElemAt(e, m[a].data, i)), bs)
    ensures Covered(Cells(m, Tensor(r, e), a), bs)
  {
    hide NumElements, ElemAt, Cells;
    forall q | q in Cells(m, Tensor(r, e), a) ensures exists b :: b in bs && b.from <= q < b.end {
      var i := CellsOfElems(m, r, e, a, q);
      assert Covered(Cells(m, e, ElemAt(e, m[a].data, i)), bs);
    }
  }

  lemma {:induction false} ElemCovered(m: Memory, r: nat, e: Ty, a: nat, i: nat)
    requires a < |m| && m[a].Handle? && i < NumElements(m[a].shape)
    requires Covered(Cells(m, e, ElemAt(e, m[a].data, i)), Reads(m, e, ElemAt(e, m[a].data, i)))
    ensures Covered(Cells(m, e, ElemAt(e, m[a].data, i)), Reads(m, Tensor(r, e), a))
  {
    var d, n := m[a].data, NumElements(m[a].shape);
    var x, bs := ElemAt(e, d, i), Reads(m, Tensor(r, e), a);
    var whole := Block(d, ElemAt(e, d, n));
    BlocksInElems(m, e, d, i, n);
    assert Blocks(m, Tensor(r, e), a) == [whole] + ElemBlocks(m, e, d, n);
    ElemAtGrows(e, d, i);
    SpanMonotone(Sizeof(e), i, n);
    assert d <= x && x + Sizeof(e) <= whole.end;
    hide NumElements, ElemAt, Cells, Blocks, ElemBlocks, Sizeof, Span;
    forall b | b in Blocks(m, e, x) ensures b in bs {
      assert b in [whole] + ElemBlocks(m, e, d, n);
    }
    assert whole in [whole] + ElemBlocks(m, e, d, n) && whole in bs;
    CoveredPart(Cells(m, e, x), x, x + Sizeof(e), Blocks(m, e, x), whole.from, whole.end, bs);
  }

  lemma {:induction false} BlocksInElems(m: Memory, e: Ty, d: nat, i: nat, n: nat)
    requires i < n
    ensures forall b | b in Blocks(m, e, ElemAt(e, d, i)) :: b in ElemBlocks(m, e, d, n)
    decreases n
  {
    hide Blocks, ElemAt;
    if i < n - 1 {
      BlocksInElems(m, e, d, i, n - 1);
    }
  }

  /** An accumulator that is laid out in pre-order and shares no memory with the summand. */
  lemma {:induction false} AddableSeparate(m: Memory, ty: Ty, t1: nat, t2: nat, s: nat, start: nat, limit: nat)
    requires Addable(m, ty, t1, t2, s, start, limit)
    ensures Separate(m, ty, t1, t2)
  {
    hide Laid, WellFormed, Deep, Inflated, Sizeof, Blocks, Cells, Sole, Formed, Reads, Covered, Inside, Apart;
    LaidSole(m, ty, t1, s);
    CellsAreRead(m, ty, t2, start, limit);
    CoveredApart(Cells(m, ty, t1), Cells(m, ty, t2), Reads(m, ty, t2), t1, t1 + Sizeof(ty), s,
      s + Inflated(ty, Deep(m, ty, t1)));
  }

  lemma {:induction false} CoveredApart(xs: set<nat>, ys: set<nat>, bs: seq<Block>, a: nat, b: nat, from: nat, end: nat)
    requires Inside(xs, a, b, from, end) && Covered(ys, bs) && Apart(bs, a, b) && Apart(bs, from, end)
    ensures xs !! ys
  {
    forall q | q in ys ensures q !in xs {
      var k :| k in bs && k.from <= q < k.end;
    }
  }

  /** What adding does to such an accumulator: it stays laid out, and nothing is written elsewhere. */
  ghost predicate LaidAdded(m: Memory, m': Memory, ty: Ty, t1: nat, t2: nat, s: nat) {
    && SameShape(Deep(m, ty, t1), Deep(m, ty, t2))
    && Deep(m', ty, t1) == AddVal(Deep(m, ty, t1), Deep(m, ty, t2))
    && Laid(m', ty, t1, s)
    && OnlyWrote(m, m', t1, t1 + Sizeof(ty), s, s + Inflated(ty, Deep(m, ty, t1)))
  }

  lemma {:induction false} AddedStaysLaid(m: Memory, m': Memory, ty: Ty, t1: nat, t2: nat, s: nat, start: nat,
      limit: nat)
    requires Addable(m, ty, t1, t2, s, start, limit) && Added(m, m', ty, t1, t2)
    ensures LaidAdded(m, m', ty, t1, t2, s)
  {
    hide Laid, WellFormed, Deep, Inflated, Sizeof, Blocks, Cells, Sole, Formed, Reads, Apart, OnlyNumbers, SameShape,
      AddVal;
    LaidSole(m, ty, t1, s);
    NumbersStayLaid(m, m', Cells(m, ty, t1), ty, t1, s);
    NumbersWrote(m, m', Cells(m, ty, t1), t1, t1 + Sizeof(ty), s, s + Inflated(ty, Deep(m, ty, t1)));
  }

  lemma {:induction false} NumbersWrote(m: Memory, m': Memory, cells: set<nat>, a: nat, b: nat, from: nat, end: nat)
    requires OnlyNumbers(m, m', cells) && Inside(cells, a, b, from, end)
    ensures OnlyWrote(m, m', a, b, from, end)
  {
    forall q {:trigger m[q]} | 0 <= q < |m| && !(a <= q < b) && !(from <= q < end) ensures m'[q] == m[q] {
      var _ := m'[q];
    }
  }

  lemma {:induction false} SameShapeInflated(ty: Ty, v: Val, w: Val)
    requires SameShape(v, w)
    ensures Inflated(ty, v) == Inflated(ty, w)
    decreases v, 1
  {
    hide Padded, Span;
    match v
    case Num(_) =>
    case VUnit =>
    case VPack(h, t) =>
      if ty.Pack? {
        SameShapeInflated(ty.head, h, w.head);
        SameShapeInflated(ty.tail, t, w.tail);
      }
    case VTensor(_, elems) =>
      if ty.Tensor? {
        SameShapeInflatedElems(ty.elem, v, elems, w.elems, |elems|);
      }
  }

  lemma {:induction false} SameShapeInflatedElems(e: Ty, v: Val, vs: seq<Val>, ws: seq<Val>, k: nat)
    requires v.VTensor? && vs == v.elems && k <= |vs| == |ws| && forall i | 0 <= i < |vs| :: SameShape(vs[i], ws[i])
    ensures InflatedElems(e, vs, k) == InflatedElems(e, ws, k)
    decreases v, 0, k
  {
    if k > 0 {
      SameShapeInflatedElems(e, v, vs, ws, k - 1);
      SameShapeInflated(e, vs[k - 1], ws[k - 1]);
    }
  }

  /** Changing numbers leaves an object laid out. */
  lemma {:induction false} NumbersStayLaid(m: Memory, m': Memory, cells: set<nat>, ty: Ty, a: nat, s: nat)
    requires OnlyNumbers(m, m', cells) && Laid(m, ty, a, s) && Formed(m, ty, a)
    ensures Laid(m', ty, a, s)
    decreases ty, 1
  {
    hide Laid, Deep, Inflated, Sizeof, OnlyNumbers;
    match ty
    case Scalar => LeafStaysLaid(m, m', cells, ty, a, s);
    case Unit => LeafStaysLaid(m, m', cells, ty, a, s);
    case Pack(h, t) =>
      LaidPack(m, h, t, a, s);
      LaidPack(m', h, t, a, s);
      NumbersStayLaid(m, m', cells, h, a, s);
      NumbersStayLaid(m, m', cells, t, a + Sizeof(h), s + Inflated(h, Deep(m, h, a)));
      NumbersKeep(m, m', cells, h, a);
      SameShapeInflated(h, Deep(m, h, a), Deep(m', h, a));
    case Tensor(r, e) => NumbersStayLaidTensor(m, m', cells, r, e, a, s);
  }

  lemma {:induction false} LeafStaysLaid(m: Memory, m': Memory, cells: set<nat>, ty: Ty, a: nat, s: nat)
    requires OnlyNumbers(m, m', cells) && Laid(m, ty, a, s) && (ty.Scalar? || ty.Unit?)
    ensures Laid(m', ty, a, s)
  {
    if ty.Scalar? {
      var c := m'[a];
    }
  }

  lemma {:induction false} NumbersStayLaidTensor(m: Memory, m': Memory, cells: set<nat>, r: nat, e: Ty, a: nat, s: nat)
    requires OnlyNumbers(m, m', cells) && Laid(m, Tensor(r, e), a, s) && Formed(m, Tensor(r, e), a)
    ensures Laid(m', Tensor(r, e), a, s)
    decreases e, 2
  {
    LaidHandle(m, r, e, a, s);
    assert m'[a] == m[a];
    var n := NumElements(m[a].shape);
    var vs, ws := DeepElems(m, e, s, n), DeepElems(m', e, s, n);
    hide NumElements, ElemAt, ElemDest, OnlyNumbers, SameShape, InflatedElems, Inflated;
    forall i: nat | i < n ensures SameShape(vs[i], ws[i]) && Formed(m, e, ElemAt(e, s, i)) {
      FormedElem(m, r, e, a, i);
      NumbersKeep(m, m', cells, e, ElemAt(e, s, i));
    }
    hide Deep;
    forall i: nat | i < n ensures Laid(m', e, ElemAt(e, s, i), ElemDest(e, ws, s, i)) {
      SameDest(e, vs, ws, s, i);
      NumbersStayLaid(m, m', cells, e, ElemAt(e, s, i), ElemDest(e, vs, s, i));
    }
  }

  lemma {:induction false} SameDest(e: Ty, vs: seq<Val>, ws: seq<Val>, s: nat, i: nat)
    requires i < |vs| == |ws| && forall j | 0 <= j < |vs| :: SameShape(vs[j], ws[j])
    ensures ElemDest(e, ws, s, i) == ElemDest(e, vs, s, i)
  {
    hide InflatedElems, Span, Padded, SameShape;
    SameShapeInflatedElems(e, VTensor([], vs), vs, ws, i);
  }
}
