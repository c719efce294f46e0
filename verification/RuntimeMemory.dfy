/** The objects of the C++ runtime as they lie in memory: types, cells, and the value,
    the layout and the size of the object found at an address. */
module RuntimeMemory {

  /** Scalars, tuples as parameter packs (`Pack(A, Pack(B, Unit))` is `Tuple<A, B>`), and tensors. */
  datatype Ty = Scalar | Unit | Pack(head: Ty, tail: Ty) | Tensor(rank: nat, elem: Ty) {
    ghost function Depth(): nat {
      match this
      case Scalar => 1
      case Unit => 1
      case Pack(h, t) => 1 + h.Depth() + t.Depth()
      case Tensor(_, e) => 1 + e.Depth()
    }
  }

  /** A deep value: what remains of an object once its addresses are forgotten. */
  datatype Val = Num(x: real) | VUnit | VPack(head: Val, tail: Val) | VTensor(shape: seq<nat>, elems: seq<Val>)

  /** The contents of memory at the first byte of a scalar or of a tensor handle.
      A handle carries its static element type, its `size_` and its `data_`. */
  datatype Cell = NumCell(x: real) | Handle(elem: Ty, shape: seq<nat>, data: nat)

  type Memory = seq<Cell>

  function NumElements(shape: seq<nat>): nat {
    if shape == [] then 1 else NumElements(shape[..|shape| - 1]) * shape[|shape| - 1]
  }

  function Sizeof(ty: Ty): nat {
    match ty
    case Scalar => 4
    case Unit => 0
    case Pack(h, t) => Sizeof(h) + Sizeof(t)
    case Tensor(r, _) => 8 * ((r + 1) / 2) + 8
  }

  /** The offset of element `n` of an array whose elements take `size` bytes each. */
  function Span(size: nat, n: nat): nat {
    if n == 0 then 0 else Span(size, n - 1) + size
  }

  predicate Aligned(a: nat) {
    a % 16 == 0
  }

  lemma {:induction false} AlignedSum(a: nat, b: nat)
    requires Aligned(a) && Aligned(b)
    ensures Aligned(a + b)
  {
  }

  function Padded(size: nat): (p: nat)
    ensures size <= p < size + 16 && Aligned(p)
  {
    ((size + 15) / 16) * 16
  }

  /** The address of element `i` of an array of `e` at `d`. */
  function ElemAt(e: Ty, d: nat, i: nat): nat {
    d + Span(Sizeof(e), i)
  }

  /** The deep value of the object of type `ty` at address `a`. */
  ghost function Deep(m: Memory, ty: Ty, a: nat): Val
    decreases ty, 0
  {
    match ty
    case Scalar => if a < |m| && m[a].NumCell? then Num(m[a].x) else VUnit
    case Unit => VUnit
    case Pack(h, t) => VPack(Deep(m, h, a), Deep(m, t, a + Sizeof(h)))
    case Tensor(_, e) =>
      if a < |m| && m[a].Handle?
      then VTensor(m[a].shape, DeepElems(m, e, m[a].data, NumElements(m[a].shape)))
      else VUnit
  }

  ghost function DeepElems(m: Memory, e: Ty, d: nat, n: nat): (s: seq<Val>)
    ensures |s| == n
    decreases e, 1
  {
    seq(n, (i: nat) => Deep(m, e, ElemAt(e, d, i)))
  }

  /** Bytes an allocator needs for an inflated copy of a value. */
  ghost function Inflated(ty: Ty, v: Val): nat
    decreases ty, 0
  {
    match ty
    case Scalar => 0
    case Unit => 0
    case Pack(h, t) => if v.VPack? then Inflated(h, v.head) + Inflated(t, v.tail) else 0
    case Tensor(_, e) => if v.VTensor? then InflatedAll(e, v.elems) else 0
  }

  /** Bytes for a fresh array of these elements and everything in them. */
  ghost function InflatedAll(e: Ty, vs: seq<Val>): nat
    decreases e, |vs| + 2
  {
    Padded(Span(Sizeof(e), |vs|)) + InflatedElems(e, vs, |vs|)
  }

  /** Bytes for what the first `k` of a sequence of values refer to. */
  ghost function InflatedElems(e: Ty, vs: seq<Val>, k: nat): nat
    requires k <= |vs|
    decreases e, k + 1
  {
    if k == 0 then 0 else InflatedElems(e, vs, k - 1) + Inflated(e, vs[k - 1])
  }

  /** The object at `a` is well formed: every tensor it reaches lies below `limit`, and data
      that starts below `start` ends below `start` and refers only to data below `start`. */
  ghost predicate WellFormed(m: Memory, ty: Ty, a: nat, start: nat, limit: nat)
    decreases ty, 0
  {
    match ty
    case Scalar => a < |m| && m[a].NumCell?
    case Unit => true
    case Pack(h, t) => WellFormed(m, h, a, start, limit) && WellFormed(m, t, a + Sizeof(h), start, limit)
    case Tensor(r, e) =>
      && a < |m| && m[a].Handle? && m[a].elem == e && |m[a].shape| == r
      && WellFormedElems(m, e, m[a].data, NumElements(m[a].shape), start, if m[a].data < start then start else limit)
  }

  ghost predicate WellFormedElems(m: Memory, e: Ty, d: nat, n: nat, start: nat, limit: nat)
    decreases e, 1
  {
    && ElemAt(e, d, n) <= limit
    && forall i: nat | i < n :: WellFormed(m, e, ElemAt(e, d, i), start, limit)
  }

  /** `copydown_by_memmove` may move the object at `a` so that its first tensor lands at `dest`:
      a tensor's data either ends by `start` or does not start before its own future destination. */
  ghost predicate Prepared(m: Memory, ty: Ty, a: nat, start: nat, dest: nat)
    decreases ty, 0
  {
    match ty
    case Scalar => true
    case Unit => true
    case Pack(h, t) =>
      && Prepared(m, h, a, start, dest)
      && Prepared(m, t, a + Sizeof(h), start, dest + Inflated(h, Deep(m, h, a)))
    case Tensor(_, e) =>
      a < |m| && m[a].Handle? && start < ElemAt(e, m[a].data, NumElements(m[a].shape)) ==>
        dest <= m[a].data && PreparedElems(m, e, m[a].data, NumElements(m[a].shape), start, dest)
  }

  ghost predicate PreparedElems(m: Memory, e: Ty, d: nat, n: nat, start: nat, dest: nat)
    decreases e, 1
  {
    forall i: nat | i < n :: Prepared(m, e, ElemAt(e, d, i), start, ElemDest(e, DeepElems(m, e, d, n), dest, i))
  }

  /** Where the first tensor inside element `i` goes, if the array of these elements goes to `dest`. */
  ghost function ElemDest(e: Ty, vs: seq<Val>, dest: nat, i: nat): nat
    requires i <= |vs|
  {
    dest + Padded(Span(Sizeof(e), |vs|)) + InflatedElems(e, vs, i)
  }

  /** The object at `a` is laid out as an inflated copy that starts at `s`: in pre-order, each
      tensor's data follows the one before it. */
  ghost predicate Laid(m: Memory, ty: Ty, a: nat, s: nat)
    decreases ty, 0
  {
    match ty
    case Scalar => a < |m| && m[a].NumCell?
    case Unit => true
    case Pack(h, t) => Laid(m, h, a, s) && Laid(m, t, a + Sizeof(h), s + Inflated(h, Deep(m, h, a)))
    case Tensor(r, e) =>
      && a < |m| && m[a].Handle? && m[a].elem == e && |m[a].shape| == r && m[a].data == s
      && LaidElems(m, e, s, NumElements(m[a].shape))
  }

  ghost predicate LaidElems(m: Memory, e: Ty, s: nat, n: nat)
    decreases e, 1
  {
    forall i: nat | i < n :: Laid(m, e, ElemAt(e, s, i), ElemDest(e, DeepElems(m, e, s, n), s, i))
  }

  lemma {:induction false} SpanMonotone(size: nat, i: nat, j: nat)
    requires i < j
    ensures Span(size, i) + size <= Span(size, j)
    decreases j
  {
    if i + 1 < j { SpanMonotone(size, i, j - 1); }
  }

  /** The array of element addresses is the one of pointer arithmetic. */
  lemma {:induction false} SpanIsProduct(size: nat, n: nat)
    ensures Span(size, n) == size * n
  {
    if n > 0 { SpanIsProduct(size, n - 1); }
  }

  /** A number takes four bytes; the handle of a tensor four for each dimension, filled up to a multiple of eight, and
      eight for the address; a tuple the sum of its parts. */
  lemma {:induction false} SizesOfTypes(elem: Ty, rank: nat)
    ensures Sizeof(Scalar) == 4 && Sizeof(Pack(Scalar, Pack(elem, Unit))) == 4 + Sizeof(elem)
    ensures Sizeof(Tensor(rank, elem)) % 8 == 0 && 4 * rank + 8 <= Sizeof(Tensor(rank, elem)) <= 4 * rank + 12
  {}

  /** Requests are filled up to a multiple of sixteen, by less than sixteen bytes. */
  lemma {:induction false} PaddedIs(size: nat, p: nat)
    ensures p == Padded(size) <==> p % 16 == 0 && size <= p < size + 16
  {}

  lemma {:induction false} InflatedMonotone(e: Ty, vs: seq<Val>, i: nat, j: nat)
    requires i < j <= |vs|
    ensures InflatedElems(e, vs, i) + Inflated(e, vs[i]) == InflatedElems(e, vs, i + 1) <= InflatedElems(e, vs, j)
    decreases j
  {
    if i + 1 < j { InflatedMonotone(e, vs, i, j - 1); }
  }

  /** Types without a leaf have no bytes; their objects are always fine. */
  lemma {:induction false} NoBytes(m: Memory, ty: Ty, a: nat, start: nat, limit: nat, dest: nat)
    requires Sizeof(ty) == 0
    ensures WellFormed(m, ty, a, start, limit) && Prepared(m, ty, a, start, dest)
    decreases ty
  {
    match ty
    case Scalar =>
    case Unit =>
    case Pack(h, t) =>
      NoBytes(m, h, a, start, limit, dest);
      hide WellFormed, Prepared;
      WellFormedPack(m, h, t, a, start, limit);
      PreparedPack(m, h, t, a, start, dest);
      NoBytes(m, t, a + Sizeof(h), start, limit, dest + Inflated(h, Deep(m, h, a)));
    case Tensor(_, _) =>
  }

  /** Arrays without a byte are always fine. */
  lemma {:induction false} NoBytesElems(m: Memory, e: Ty, d: nat, n: nat, start: nat, limit: nat, dest: nat)
    requires ElemAt(e, d, n) == d <= limit
    ensures WellFormedElems(m, e, d, n, start, limit) && PreparedElems(m, e, d, n, start, dest)
  {
    hide WellFormed, Prepared, Deep, DeepElems;
    forall i: nat | i < n
      ensures WellFormed(m, e, ElemAt(e, d, i), start, limit)
      ensures Prepared(m, e, ElemAt(e, d, i), start, ElemDest(e, DeepElems(m, e, d, n), dest, i))
    {
      SpanMonotone(Sizeof(e), i, n);
      NoBytes(m, e, ElemAt(e, d, i), start, limit, ElemDest(e, DeepElems(m, e, d, n), dest, i));
    }
  }

  // The definitions, one constructor at a time.

  lemma {:induction false} ElemOf(m: Memory, e: Ty, d: nat, n: nat, i: nat, start: nat, limit: nat)
    requires i < n && WellFormedElems(m, e, d, n, start, limit)
    ensures DeepElems(m, e, d, n)[i] == Deep(m, e, ElemAt(e, d, i))
    ensures WellFormed(m, e, ElemAt(e, d, i), start, limit)
    ensures ElemAt(e, d, i) + Sizeof(e) <= ElemAt(e, d, n) <= limit
  {
    hide Deep, WellFormed, Sizeof;
    SpanMonotone(Sizeof(e), i, n);
  }

  lemma {:induction false} WellFormedEnd(m: Memory, e: Ty, d: nat, n: nat, start: nat, limit: nat)
    requires WellFormedElems(m, e, d, n, start, limit)
    ensures ElemAt(e, d, n) <= limit
  {
    hide WellFormed, ElemAt;
  }

  lemma {:induction false} SizeofPack(h: Ty, t: Ty)
    ensures Sizeof(Pack(h, t)) == Sizeof(h) + Sizeof(t)
  {
  }

  lemma {:induction false} DeepPack(m: Memory, h: Ty, t: Ty, a: nat)
    ensures Deep(m, Pack(h, t), a) == VPack(Deep(m, h, a), Deep(m, t, a + Sizeof(h)))
  {
    hide Sizeof;
  }

  lemma {:induction false} InflatedPack(m: Memory, h: Ty, t: Ty, a: nat)
    ensures Inflated(Pack(h, t), Deep(m, Pack(h, t), a))
      == Inflated(h, Deep(m, h, a)) + Inflated(t, Deep(m, t, a + Sizeof(h)))
  {
    hide Sizeof, InflatedAll, DeepElems, NumElements;
  }

  lemma {:induction false} PreparedPack(m: Memory, h: Ty, t: Ty, a: nat, start: nat, dest: nat)
    ensures Prepared(m, Pack(h, t), a, start, dest) <==>
      Prepared(m, h, a, start, dest) && Prepared(m, t, a + Sizeof(h), start, dest + Inflated(h, Deep(m, h, a)))
  {
    hide Sizeof, Inflated, Deep, PreparedElems;
  }

  lemma {:induction false} WellFormedPack(m: Memory, h: Ty, t: Ty, a: nat, start: nat, limit: nat)
    ensures WellFormed(m, Pack(h, t), a, start, limit) <==>
      WellFormed(m, h, a, start, limit) && WellFormed(m, t, a + Sizeof(h), start, limit)
  {
    hide Sizeof, WellFormedElems;
  }

  lemma {:induction false} LaidPack(m: Memory, h: Ty, t: Ty, a: nat, s: nat)
    ensures Laid(m, Pack(h, t), a, s) <==>
      Laid(m, h, a, s) && Laid(m, t, a + Sizeof(h), s + Inflated(h, Deep(m, h, a)))
  {
    hide Sizeof, Inflated, Deep, LaidElems;
  }
}
