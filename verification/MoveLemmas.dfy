/** The pass that moves everything down to its final place, as relations between memories. */
module MoveLemmas {
  import opened RuntimeMemory
  import opened CopydownLemmas
  import opened PrepareLemmas

  /** Only `[a, b)` and `[from, end)` were written. */
  ghost predicate OnlyWrote(m: Memory, m': Memory, a: nat, b: nat, from: nat, end: nat) {
    && |m'| == |m|
    && forall q {:trigger m[q]} | 0 <= q < |m| && !(a <= q < b) && !(from <= q < end) :: m'[q] == m[q]
  }

  /** The object at `a`, itself in its final place or outside the buffer, may be moved down to `top`;
      its data is somewhere below `high`. */
  ghost predicate Movable(m: Memory, top: nat, z: Zone, high: nat, ty: Ty, a: nat) {
    && z.start <= top && z.start <= high <= z.capacity
    && ((z.start <= a && a + Sizeof(ty) <= top) || z.capacity <= a)
    && a + Sizeof(ty) <= |m|
    && WellFormed(m, ty, a, z.start, high)
    && Prepared(m, ty, a, z.start, top)
  }

  /** The effect of `copydown_by_memmove_inplace` on the object at `a`. */
  ghost predicate Moved(m: Memory, top: nat, m': Memory, top': nat, ty: Ty, a: nat) {
    && top' == top + Inflated(ty, Deep(m, ty, a))
    && Laid(m', ty, a, top)
    && Deep(m', ty, a) == Deep(m, ty, a)
    && OnlyWrote(m, m', a, a + Sizeof(ty), top, top')
  }

  lemma {:induction false} OnlyWroteCarries(m: Memory, m': Memory, a: nat, b: nat, from: nat, end: nat, x: nat, y: nat)
    requires OnlyWrote(m, m', a, b, from, end)
    requires (y <= a || b <= x) && (y <= from || end <= x)
    ensures Carried(m, m', x, y, 0)
  {
    hide Movable;
    forall q | x <= q < y && q < |m|
      ensures m'[q + 0] == m[q]
    {
      var _ := m[q];
    }
  }

  lemma {:induction false} OnlyWroteTransitive(m: Memory, m1: Memory, m2: Memory, a: nat, b: nat, from: nat, mid: nat,
      end: nat, a1: nat, b1: nat, a2: nat, b2: nat)
    requires OnlyWrote(m, m1, a1, b1, from, mid) && OnlyWrote(m1, m2, a2, b2, mid, end)
    requires (a <= a1 && b1 <= b) || (from <= a1 && b1 <= end) || b1 <= a1
    requires (a <= a2 && b2 <= b) || (from <= a2 && b2 <= end) || b2 <= a2
    requires from <= mid <= end
    ensures OnlyWrote(m, m2, a, b, from, end)
  {
    hide Movable;
  }

  // ---------------------------------------------------------------- packs

  /** Moving the head leaves the tail movable. */
  lemma {:induction false} MovedHead(m: Memory, top: nat, m1: Memory, top1: nat, z: Zone, high: nat, h: Ty, t: Ty,
      a: nat)
    requires Movable(m, top, z, high, Pack(h, t), a)
    requires Moved(m, top, m1, top1, h, a) && top1 <= z.capacity
    ensures Movable(m1, top1, z, high, t, a + Sizeof(h))
    ensures Deep(m1, t, a + Sizeof(h)) == Deep(m, t, a + Sizeof(h))
  {
    hide WellFormed, Deep, Prepared, Inflated, Sizeof, OnlyWrote, Laid;
    SizeofPack(h, t);
    var mid := a + Sizeof(h);
    WellFormedPack(m, h, t, a, z.start, high);
    PreparedPack(m, h, t, a, z.start, top);
    OnlyWroteCarries(m, m1, a, mid, top, top1, 0, z.start);
    OnlyWroteCarries(m, m1, a, mid, top, top1, top1, high);
    OnlyWroteCarries(m, m1, a, mid, top, top1, mid, mid + Sizeof(t));
    assert |m1| == |m| by { OnlyWroteLength(m, m1, a, mid, top, top1); }
    MoveKeeps(m, m1, z.start, top1, high, t, mid, 0, top1);
  }

  lemma {:induction false} OnlyWroteLength(m: Memory, m': Memory, a: nat, b: nat, from: nat, end: nat)
    requires OnlyWrote(m, m', a, b, from, end)
    ensures |m'| == |m|
  {
    hide Movable;
  }

  lemma {:induction false} MovedPack(m: Memory, top: nat, m1: Memory, top1: nat, m2: Memory, top2: nat, z: Zone,
      high: nat, h: Ty, t: Ty, a: nat)
    requires Movable(m, top, z, high, Pack(h, t), a)
    requires Moved(m, top, m1, top1, h, a) && Moved(m1, top1, m2, top2, t, a + Sizeof(h)) && top2 <= z.capacity
    requires Deep(m1, t, a + Sizeof(h)) == Deep(m, t, a + Sizeof(h))
    ensures Moved(m, top, m2, top2, Pack(h, t), a)
  {
    hide WellFormed, Deep, Prepared, Inflated, Sizeof, OnlyWrote, Laid;
    SizeofPack(h, t);
    var mid, end := a + Sizeof(h), a + Sizeof(h) + Sizeof(t);
    OnlyWroteCarries(m1, m2, mid, end, top1, top2, a, mid);
    OnlyWroteCarries(m1, m2, mid, end, top1, top2, top, top1);
    OnlyWroteLength(m1, m2, mid, end, top1, top2);
    LaidKeeps(m1, m2, h, a, top);
    OnlyWroteTransitive(m, m1, m2, a, end, top, top1, top2, a, mid, mid, end);
    LaidPack(m2, h, t, a, top);
    InflatedPack(m, h, t, a);
    DeepPack(m, h, t, a);
    DeepPack(m2, h, t, a);
  }

  lemma {:induction false} MovablePack(m: Memory, top: nat, z: Zone, high: nat, h: Ty, t: Ty, a: nat)
    requires Movable(m, top, z, high, Pack(h, t), a)
    ensures Movable(m, top, z, high, h, a)
    ensures Inflated(Pack(h, t), Deep(m, Pack(h, t), a))
      == Inflated(h, Deep(m, h, a)) + Inflated(t, Deep(m, t, a + Sizeof(h)))
  {
    hide WellFormed, Deep, Prepared, Inflated, Sizeof;
    SizeofPack(h, t);
    WellFormedPack(m, h, t, a, z.start, high);
    PreparedPack(m, h, t, a, z.start, top);
    InflatedPack(m, h, t, a);
  }

  lemma {:induction false} MovedTrivial(m: Memory, top: nat, z: Zone, high: nat, ty: Ty, a: nat)
    requires Movable(m, top, z, high, ty, a) && (ty.Scalar? || ty.Unit?)
    ensures Moved(m, top, m, top, ty, a)
  {
    hide Prepared;
  }

  // ---------------------------------------------------------------- tensors

  /** Objects that refer only below the mark may be moved anywhere above it. */
  lemma {:induction false} BelowMovable(m: Memory, ty: Ty, a: nat, start: nat, high: nat, dest: nat)
    requires WellFormed(m, ty, a, start, start) && start <= high
    ensures WellFormed(m, ty, a, start, high) && Prepared(m, ty, a, start, dest)
    decreases ty, 1
  {
    hide WellFormed, Prepared, Inflated, Deep, Sizeof;
    match ty
    case Scalar => BelowMovableLeaf(m, ty, a, start, high, dest);
    case Unit => BelowMovableLeaf(m, ty, a, start, high, dest);
    case Pack(h, t) =>
      WellFormedPack(m, h, t, a, start, start);
      WellFormedPack(m, h, t, a, start, high);
      PreparedPack(m, h, t, a, start, dest);
      BelowMovable(m, h, a, start, high, dest);
      BelowMovable(m, t, a + Sizeof(h), start, high, dest + Inflated(h, Deep(m, h, a)));
    case Tensor(r, e) =>
      BelowMovableTensor(m, r, e, a, start, high, dest);
  }

  lemma {:induction false} BelowMovableLeaf(m: Memory, ty: Ty, a: nat, start: nat, high: nat, dest: nat)
    requires WellFormed(m, ty, a, start, start) && (ty.Scalar? || ty.Unit?)
    ensures WellFormed(m, ty, a, start, high) && Prepared(m, ty, a, start, dest)
  {}

  lemma {:induction false} BelowMovableTensor(m: Memory, r: nat, e: Ty, a: nat, start: nat, high: nat, dest: nat)
    requires WellFormed(m, Tensor(r, e), a, start, start) && start <= high
    ensures WellFormed(m, Tensor(r, e), a, start, high) && Prepared(m, Tensor(r, e), a, start, dest)
    decreases Tensor(r, e), 0
  {
    hide NumElements, WellFormedElems, PreparedElems, Deep, DeepElems, Inflated;
    var d, n := m[a].data, NumElements(m[a].shape);
    WellFormedEnd(m, e, d, n, start, start);
    if start <= d { BelowMovableElems(m, e, d, n, start, high, dest); }
  }

  lemma {:induction false} BelowMovableElems(m: Memory, e: Ty, d: nat, n: nat, start: nat, high: nat, dest: nat)
    requires WellFormedElems(m, e, d, n, start, start) && start <= high
    ensures WellFormedElems(m, e, d, n, start, high)
    ensures forall i: nat | i < n :: Prepared(m, e, ElemAt(e, d, i), start, dest)
    decreases e, 2
  {
    hide NumElements, WellFormed, Prepared, Deep, DeepElems, Inflated, ElemAt;
    WellFormedEnd(m, e, d, n, start, start);
    forall i: nat | i < n
      ensures WellFormed(m, e, ElemAt(e, d, i), start, high) && Prepared(m, e, ElemAt(e, d, i), start, dest)
    {
      ElemOf(m, e, d, n, i, start, start);
      BelowMovable(m, e, ElemAt(e, d, i), start, high, dest);
    }
  }

  /** The elements of an array already moved to `s`, `i` of which have been moved in depth. */
  ghost predicate PartlyMoved(m: Memory, top: nat, z: Zone, high: nat, e: Ty, vs: seq<Val>, s: nat, i: nat)
    requires i <= |vs|
  {
    && top == ElemDest(e, vs, s, i)
    && (forall j: nat | j < i :: LaidAs(m, e, vs, s, j))
    && (forall j: nat | i <= j < |vs| :: MovableAs(m, z, high, e, vs, s, j))
  }

  ghost predicate LaidAs(m: Memory, e: Ty, vs: seq<Val>, s: nat, j: nat)
    requires j < |vs|
  {
    Laid(m, e, ElemAt(e, s, j), ElemDest(e, vs, s, j)) && Deep(m, e, ElemAt(e, s, j)) == vs[j]
  }

  ghost predicate MovableAs(m: Memory, z: Zone, high: nat, e: Ty, vs: seq<Val>, s: nat, j: nat)
    requires j < |vs|
  {
    Movable(m, ElemDest(e, vs, s, j), z, high, e, ElemAt(e, s, j)) && Deep(m, e, ElemAt(e, s, j)) == vs[j]
  }

  /** `m1` is `m` after `*t = create(...)` and the move of `size` bytes of data from `d` down to `s`. */
  ghost predicate DataMoved(m: Memory, m1: Memory, p: nat, d: nat, s: nat, size: nat) {
    && |m1| == |m| && p < |m| && m[p].Handle? && m[p].data == d
    && m1[p] == m[p].(data := s)
    && Carried(m, m1, d, d + size, s - d)
    && OnlyWrote(m, m1, p, p + 1, s, s + size)
  }

  /** After the data of a tensor was moved to its destination, each element can be moved in turn. */
  lemma {:induction false} DataMovedElems(m: Memory, m1: Memory, z: Zone, high: nat, r: nat, e: Ty, p: nat, s: nat,
      n: nat)
    requires Movable(m, s, z, high, Tensor(r, e), p) && p < |m| && m[p].Handle? && n == NumElements(m[p].shape)
    requires DataMoved(m, m1, p, m[p].data, s, Span(Sizeof(e), n)) && s + Span(Sizeof(e), n) <= |m|
    ensures var vs := DeepElems(m, e, m[p].data, n); PartlyMoved(m1, ElemDest(e, vs, s, 0), z, high, e, vs, s, 0)
  {
    var d := m[p].data;
    var vs := DeepElems(m, e, d, n);
    assert (z.start <= p < s) || z.capacity <= p;
    var low := s + Padded(Span(Sizeof(e), n));
    OnlyWroteCarries(m, m1, p, p + 1, s, s + Span(Sizeof(e), n), 0, z.start);
    OnlyWroteCarries(m, m1, p, p + 1, s, s + Span(Sizeof(e), n), low, high);
    assert Agree(m, m1, z.start, low, high);
    WellFormedEnd(m, e, d, n, z.start, if d < z.start then z.start else high);
    hide Agree, Carried, OnlyWrote, NumElements, Padded;
    forall j: nat | j < n
      ensures MovableAs(m1, z, high, e, vs, s, j)
    {
      DataMovedElem(m, m1, z, low, high, r, e, p, s, n, j);
    }
  }

  lemma {:induction false} DataMovedElem(m: Memory, m1: Memory, z: Zone, low: nat, high: nat, r: nat, e: Ty, p: nat,
      s: nat, n: nat, j: nat)
    requires Movable(m, s, z, high, Tensor(r, e), p) && p < |m| && m[p].Handle? && n == NumElements(m[p].shape)
    requires DataMoved(m, m1, p, m[p].data, s, Span(Sizeof(e), n)) && s + Span(Sizeof(e), n) <= |m|
    requires low == s + Padded(Span(Sizeof(e), n)) && Agree(m, m1, z.start, low, high)
    requires j < n
    ensures MovableAs(m1, z, high, e, DeepElems(m, e, m[p].data, n), s, j)
  {
    hide *;
    var d := m[p].data;
    var vs := DeepElems(m, e, d, n);
    var at, dest, shift := ElemAt(e, d, j), ElemDest(e, vs, s, j), s - d;
    ElementMovable(m, z, high, r, e, p, s, n, j);
    ElementPlace(e, vs, d, s, j);
    DataMovedCells(m, m1, p, d, s, Span(Sizeof(e), n), at, at + Sizeof(e));
    MoveKeeps(m, m1, z.start, low, high, e, at, shift, dest);
    IsMovableAs(m, m1, z, high, r, e, p, vs, s, j);
  }

  lemma {:induction false} DataMovedCells(m: Memory, m1: Memory, p: nat, d: nat, s: nat, size: nat, x: nat, y: nat)
    requires DataMoved(m, m1, p, d, s, size) && d <= x && y <= d + size
    ensures |m1| == |m| && Carried(m, m1, x, y, s - d)
  {
    hide Carried, OnlyWrote;
    CarriedPart(m, m1, d, d + size, s - d, x, y);
  }

  lemma {:induction false} ElementPlace(e: Ty, vs: seq<Val>, d: nat, s: nat, j: nat)
    requires j < |vs|
    ensures d <= ElemAt(e, d, j) && ElemAt(e, d, j) + Sizeof(e) <= d + Span(Sizeof(e), |vs|)
    ensures ElemAt(e, d, j) + (s - d) == ElemAt(e, s, j)
    ensures s <= ElemAt(e, s, j) && ElemAt(e, s, j) + Sizeof(e) <= s + Span(Sizeof(e), |vs|)
    ensures s + Padded(Span(Sizeof(e), |vs|)) <= ElemDest(e, vs, s, j)
  {
    hide Inflated, InflatedElems, Padded, Sizeof;
    SpanMonotone(Sizeof(e), j, |vs|);
  }

  lemma {:induction false} IsMovableAs(m: Memory, m1: Memory, z: Zone, high: nat, r: nat, e: Ty, p: nat, vs: seq<Val>,
      s: nat, j: nat)
    requires j < |vs| && s + Span(Sizeof(e), |vs|) <= |m1| && Movable(m, s, z, high, Tensor(r, e), p)
    requires WellFormed(m1, e, ElemAt(e, s, j), z.start, high)
    requires Prepared(m1, e, ElemAt(e, s, j), z.start, ElemDest(e, vs, s, j))
    requires Deep(m1, e, ElemAt(e, s, j)) == vs[j]
    ensures MovableAs(m1, z, high, e, vs, s, j)
  {
    hide WellFormed, Prepared, Deep, ElemAt, ElemDest, Span, Sizeof, Padded;
    ElementPlace(e, vs, s, s, j);
  }

  lemma {:induction false} ElementMovable(m: Memory, z: Zone, high: nat, r: nat, e: Ty, p: nat, s: nat, n: nat, j: nat)
    requires Movable(m, s, z, high, Tensor(r, e), p) && p < |m| && m[p].Handle? && n == NumElements(m[p].shape) && j < n
    ensures z.start <= high
    ensures var d := m[p].data; var vs := DeepElems(m, e, d, n);
      && WellFormed(m, e, ElemAt(e, d, j), z.start, high)
      && Prepared(m, e, ElemAt(e, d, j), z.start, ElemDest(e, vs, s, j))
      && Deep(m, e, ElemAt(e, d, j)) == vs[j]
  {
    var d := m[p].data;
    var vs := DeepElems(m, e, d, n);
    var inner := if d < z.start then z.start else high;
    hide NumElements, Deep, DeepElems, WellFormedElems, Inflated;
    ElemOf(m, e, d, n, j, z.start, inner);
    if ElemAt(e, d, n) <= z.start {
      hide Prepared, PreparedElems, WellFormed, ElemAt;
      if z.start <= d {
        ElemAtGrows(e, d, n);
        NoBytesElems(m, e, d, n, z.start, z.start, s);
        ElemOf(m, e, d, n, j, z.start, z.start);
      }
      BelowMovable(m, e, ElemAt(e, d, j), z.start, high, ElemDest(e, vs, s, j));
    } else {
      assert PreparedElems(m, e, d, n, z.start, s);
      WellFormedEnd(m, e, d, n, z.start, inner);
      assert ElemAt(e, d, n) <= inner;
    }
  }

  /** Elements and destinations lie in memory in the order of their numbers, elements first. */
  lemma {:induction false} ElementOrder(e: Ty, vs: seq<Val>, s: nat, i: nat, j: nat)
    requires i < j < |vs|
    ensures s <= ElemAt(e, s, i) && ElemAt(e, s, i) + Sizeof(e) <= ElemAt(e, s, j)
    ensures ElemAt(e, s, j) + Sizeof(e) <= s + Span(Sizeof(e), |vs|) <= ElemDest(e, vs, s, i)
    ensures ElemDest(e, vs, s, i) + Inflated(e, vs[i]) == ElemDest(e, vs, s, i + 1) <= ElemDest(e, vs, s, j)
  {
    hide Inflated, Sizeof;
    SpanMonotone(Sizeof(e), i, j);
    SpanMonotone(Sizeof(e), j, |vs|);
    InflatedMonotone(e, vs, i, j);
  }

  lemma {:induction false} ElementBounds(e: Ty, vs: seq<Val>, s: nat, i: nat)
    requires i < |vs|
    ensures s <= ElemAt(e, s, i) && ElemAt(e, s, i) + Sizeof(e) <= s + Span(Sizeof(e), |vs|) <= ElemDest(e, vs, s, i)
    ensures ElemDest(e, vs, s, i) + Inflated(e, vs[i]) == ElemDest(e, vs, s, i + 1)
  {
    hide Inflated, Sizeof;
    SpanMonotone(Sizeof(e), i, |vs|);
  }

  lemma {:induction false} PartlyMovedStep(m: Memory, top: nat, m1: Memory, top1: nat, z: Zone, high: nat, e: Ty,
      vs: seq<Val>, s: nat, i: nat)
    requires i < |vs| && z.start <= s && PartlyMoved(m, top, z, high, e, vs, s, i)
    requires Moved(m, top, m1, top1, e, ElemAt(e, s, i)) && top1 <= z.capacity
    ensures PartlyMoved(m1, top1, z, high, e, vs, s, i + 1)
  {
    hide LaidAs, MovableAs, Moved, ElemAt, ElemDest;
    assert MovableAs(m, z, high, e, vs, s, i);
    assert top1 == ElemDest(e, vs, s, i + 1) && LaidAs(m1, e, vs, s, i)
      by { ThisElement(m, top, m1, top1, z, high, e, vs, s, i); }
    forall j: nat | j < i
      ensures LaidAs(m1, e, vs, s, j)
    {
      EarlierElement(m, top, m1, top1, e, vs, s, i, j);
    }
    forall j: nat | i < j < |vs|
      ensures MovableAs(m1, z, high, e, vs, s, j)
    {
      LaterElement(m, top, m1, top1, z, high, e, vs, s, i, j);
    }
  }

  lemma {:induction false} ThisElement(m: Memory, top: nat, m1: Memory, top1: nat, z: Zone, high: nat, e: Ty,
      vs: seq<Val>, s: nat, i: nat)
    requires i < |vs| && top == ElemDest(e, vs, s, i) && MovableAs(m, z, high, e, vs, s, i)
    requires Moved(m, top, m1, top1, e, ElemAt(e, s, i))
    ensures top1 == ElemDest(e, vs, s, i + 1) && LaidAs(m1, e, vs, s, i)
  {
    hide Movable, Laid, Deep, OnlyWrote, ElemAt, Inflated, Padded;
  }

  lemma {:induction false} EarlierElement(m: Memory, top: nat, m1: Memory, top1: nat, e: Ty, vs: seq<Val>, s: nat,
      i: nat, j: nat)
    requires j < i < |vs| && top == ElemDest(e, vs, s, i) && LaidAs(m, e, vs, s, j)
    requires Moved(m, top, m1, top1, e, ElemAt(e, s, i))
    ensures LaidAs(m1, e, vs, s, j)
  {
    hide Laid, Deep, OnlyWrote, ElemAt, ElemDest, Inflated, Sizeof, Span;
    var at, dest, k := ElemAt(e, s, i), ElemDest(e, vs, s, j), Inflated(e, vs[j]);
    ElementOrder(e, vs, s, j, i);
    OnlyWroteLength(m, m1, at, at + Sizeof(e), top, top1);
    OnlyWroteCarries(m, m1, at, at + Sizeof(e), top, top1, ElemAt(e, s, j), ElemAt(e, s, j) + Sizeof(e));
    OnlyWroteCarries(m, m1, at, at + Sizeof(e), top, top1, dest, dest + k);
    LaidKeeps(m, m1, e, ElemAt(e, s, j), dest);
  }

  lemma {:induction false} LaterElement(m: Memory, top: nat, m1: Memory, top1: nat, z: Zone, high: nat, e: Ty,
      vs: seq<Val>, s: nat, i: nat, j: nat)
    requires i < j < |vs| && z.start <= s && top == ElemDest(e, vs, s, i) && MovableAs(m, z, high, e, vs, s, j)
    requires Moved(m, top, m1, top1, e, ElemAt(e, s, i)) && top1 == ElemDest(e, vs, s, i + 1)
    ensures MovableAs(m1, z, high, e, vs, s, j)
  {
    hide Laid, Deep, OnlyWrote, ElemAt, ElemDest, Inflated, Sizeof, Span, WellFormed, Prepared;
    var at, dest := ElemAt(e, s, i), ElemDest(e, vs, s, j);
    ElementOrder(e, vs, s, i, j);
    OnlyWroteLength(m, m1, at, at + Sizeof(e), top, top1);
    OnlyWroteCarries(m, m1, at, at + Sizeof(e), top, top1, ElemAt(e, s, j), ElemAt(e, s, j) + Sizeof(e));
    OnlyWroteCarries(m, m1, at, at + Sizeof(e), top, top1, 0, z.start);
    OnlyWroteCarries(m, m1, at, at + Sizeof(e), top, top1, top1, high);
    MoveKeeps(m, m1, z.start, top1, high, e, ElemAt(e, s, j), 0, dest);
  }

  lemma {:induction false} TensorMoved(m: Memory, m1: Memory, m2: Memory, top2: nat, z: Zone, high: nat, r: nat, e: Ty,
      p: nat, s: nat, n: nat)
    requires Movable(m, s, z, high, Tensor(r, e), p) && p < |m| && m[p].Handle? && n == NumElements(m[p].shape)
    requires DataMoved(m, m1, p, m[p].data, s, Span(Sizeof(e), n))
    requires PartlyMoved(m2, top2, z, high, e, DeepElems(m, e, m[p].data, n), s, n) && top2 <= z.capacity
    requires OnlyWrote(m1, m2, s, s + Span(Sizeof(e), n), ElemDest(e, DeepElems(m, e, m[p].data, n), s, 0), top2)
    ensures Moved(m, s, m2, top2, Tensor(r, e), p)
  {
    hide WellFormed, Prepared, Deep, DeepElems, Inflated, InflatedElems, Padded, ElemDest, ElemAt, Sizeof, Span,
      NumElements, Laid, LaidElems, OnlyWrote, Carried, LaidAs;
    var vs := DeepElems(m, e, m[p].data, n);
    TensorFacts(m, z, high, r, e, p, s, n);
    TensorWrites(m, m1, m2, p, s, Span(Sizeof(e), n), ElemDest(e, vs, s, 0), top2, Sizeof(Tensor(r, e)), z.start,
      z.capacity);
    LaidTensor(m2, r, e, vs, p, s, n);
  }

  lemma {:induction false} TensorFacts(m: Memory, z: Zone, high: nat, r: nat, e: Ty, p: nat, s: nat, n: nat)
    requires Movable(m, s, z, high, Tensor(r, e), p) && p < |m| && m[p].Handle? && n == NumElements(m[p].shape)
    ensures var vs := DeepElems(m, e, m[p].data, n);
      && m[p].elem == e && |m[p].shape| == r
      && ((z.start <= p < s) || z.capacity <= p) && p + 1 <= p + Sizeof(Tensor(r, e)) <= |m|
      && Deep(m, Tensor(r, e), p) == VTensor(m[p].shape, vs)
      && s + Inflated(Tensor(r, e), Deep(m, Tensor(r, e), p)) == ElemDest(e, vs, s, n)
      && s + Span(Sizeof(e), n) <= ElemDest(e, vs, s, 0) <= ElemDest(e, vs, s, n)
  {
    hide Prepared, DeepElems, NumElements, Span, WellFormedElems;
  }

  lemma {:induction false} TensorWrites(m: Memory, m1: Memory, m2: Memory, p: nat, s: nat, size: nat, low: nat,
      top2: nat, handle: nat, start: nat, capacity: nat)
    requires p < |m| && m[p].Handle? && DataMoved(m, m1, p, m[p].data, s, size)
    requires OnlyWrote(m1, m2, s, s + size, low, top2)
    requires start <= s && (start <= p < s || capacity <= p) && s + size <= low <= top2 <= capacity && 1 <= handle
    ensures OnlyWrote(m, m2, p, p + handle, s, top2)
    ensures p < |m2| && m2[p] == m[p].(data := s)
  {
    hide Carried;
    assert m2[p] == m1[p];
    OnlyWroteTransitive(m, m1, m2, p, p + handle, s, low, top2, p, p + 1, s, s + size);
  }

  lemma {:induction false} LaidTensor(m2: Memory, r: nat, e: Ty, vs: seq<Val>, p: nat, s: nat, n: nat)
    requires p < |m2| && m2[p].Handle? && m2[p].elem == e && |m2[p].shape| == r && m2[p].data == s
    requires n == NumElements(m2[p].shape) == |vs| && forall j: nat | j < n :: LaidAs(m2, e, vs, s, j)
    ensures Laid(m2, Tensor(r, e), p, s) && Deep(m2, Tensor(r, e), p) == VTensor(m2[p].shape, vs)
  {
    hide ElemDest, ElemAt, NumElements, Inflated;
    forall j: nat | j < n
      ensures Deep(m2, e, ElemAt(e, s, j)) == vs[j] && Laid(m2, e, ElemAt(e, s, j), ElemDest(e, vs, s, j))
    {
      assert LaidAs(m2, e, vs, s, j);
    }
    assert DeepElems(m2, e, s, n) == vs;
    assert LaidElems(m2, e, s, n);
  }
}
