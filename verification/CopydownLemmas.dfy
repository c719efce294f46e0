/** How objects survive the memory operations of a copydown. */
module CopydownLemmas {
  import opened RuntimeMemory

  /** An object of type `ty` may live at `a`: in the allocated part of the buffer or outside it. */
  predicate Home(ty: Ty, a: nat, top: nat, capacity: nat) {
    a + Sizeof(ty) <= top || capacity <= a
  }

  /** The cells from `a` to `b` reappear `shift` bytes further on. */
  ghost predicate Carried(m: Memory, m': Memory, a: nat, b: nat, shift: int) {
    forall q {:trigger m[q]} | a <= q < b && q < |m| :: 0 <= q + shift < |m'| && m'[q + shift] == m[q]
  }

  lemma {:induction false} CarriedCell(m: Memory, m': Memory, a: nat, b: nat, shift: int, q: nat)
    requires Carried(m, m', a, b, shift) && a <= q < b && q < |m|
    ensures 0 <= q + shift < |m'| && m'[q + shift] == m[q]
  {
    hide Sizeof;
    var c := m[q];
    assert c == m[q];
  }

  lemma {:induction false} CarriedPart(m: Memory, m': Memory, a: nat, b: nat, shift: int, x: nat, y: nat)
    requires Carried(m, m', a, b, shift) && a <= x && y <= b
    ensures Carried(m, m', x, y, shift)
  {
    forall q {:trigger m[q]} | x <= q < y && q < |m|
      ensures 0 <= q + shift < |m'| && m'[q + shift] == m[q]
    {
      CarriedCell(m, m', a, b, shift, q);
    }
  }

  /** An object depends on its own cells and on memory below its limit only. */
  lemma {:induction false} CarryKeeps(m: Memory, m': Memory, ty: Ty, a: nat, shift: int, start: nat, limit: nat)
    requires |m'| == |m| && Carried(m, m', 0, limit, 0) && start <= limit
    requires 0 <= a + shift && Carried(m, m', a, a + Sizeof(ty), shift) && WellFormed(m, ty, a, start, limit)
    ensures WellFormed(m', ty, a + shift, start, limit) && Deep(m', ty, a + shift) == Deep(m, ty, a)
    decreases ty, 1
  {
    hide NumElements, WellFormedElems, DeepElems, Carried;
    match ty
    case Scalar =>
      CarriedCell(m, m', a, a + Sizeof(ty), shift, a);
    case Unit =>
    case Pack(h, t) =>
      CarryKeepsPack(m, m', h, t, a, shift, start, limit);
    case Tensor(r, e) =>
      CarriedCell(m, m', a, a + Sizeof(ty), shift, a);
      var inner := if m[a].data < start then start else limit;
      CarriedPart(m, m', 0, limit, 0, 0, inner);
      CarryKeepsElems(m, m', e, m[a].data, NumElements(m[a].shape), start, inner);
  }

  lemma {:induction false} CarryKeepsPack(m: Memory, m': Memory, h: Ty, t: Ty, a: nat, shift: int, start: nat,
      limit: nat)
    requires |m'| == |m| && Carried(m, m', 0, limit, 0) && start <= limit
    requires 0 <= a + shift && Carried(m, m', a, a + Sizeof(Pack(h, t)), shift)
    requires WellFormed(m, Pack(h, t), a, start, limit)
    ensures WellFormed(m', Pack(h, t), a + shift, start, limit)
    ensures Deep(m', Pack(h, t), a + shift) == Deep(m, Pack(h, t), a)
    decreases Pack(h, t), 0
  {
    hide *;
    SizeofPack(h, t);
    var mid := a + Sizeof(h);
    CarriedPart(m, m', a, mid + Sizeof(t), shift, a, mid);
    CarriedPart(m, m', a, mid + Sizeof(t), shift, mid, mid + Sizeof(t));
    WellFormedPack(m, h, t, a, start, limit);
    CarryKeeps(m, m', h, a, shift, start, limit);
    CarryKeeps(m, m', t, mid, shift, start, limit);
    assert mid + shift == a + shift + Sizeof(h);
    WellFormedPack(m', h, t, a + shift, start, limit);
    DeepPack(m, h, t, a);
    DeepPack(m', h, t, a + shift);
  }

  lemma {:induction false} CarryKeepsElems(m: Memory, m': Memory, e: Ty, d: nat, n: nat, start: nat, limit: nat)
    requires |m'| == |m| && Carried(m, m', 0, limit, 0) && start <= limit
    requires WellFormedElems(m, e, d, n, start, limit)
    ensures WellFormedElems(m', e, d, n, start, limit)
    ensures DeepElems(m', e, d, n) == DeepElems(m, e, d, n)
    decreases e, 2
  {
    hide WellFormed, Deep, Sizeof, Span, Carried;
    forall i: nat | i < n
      ensures WellFormed(m', e, ElemAt(e, d, i), start, limit)
      ensures Deep(m', e, ElemAt(e, d, i)) == Deep(m, e, ElemAt(e, d, i))
    {
      SpanMonotone(Sizeof(e), i, n);
      CarriedPart(m, m', 0, limit, 0, ElemAt(e, d, i), ElemAt(e, d, i) + Sizeof(e));
      CarryKeeps(m, m', e, ElemAt(e, d, i), 0, start, limit);
    }
    assert DeepElems(m', e, d, n) == DeepElems(m, e, d, n);
  }

  // ---------------------------------------------------------------- redirecting a handle

  /** `m'` is `m` after the handle at `p` was redirected to a fresh copy of its data, `shift` bytes away. */
  ghost predicate Redirected(m: Memory, m': Memory, p: nat, shift: int, start: nat, top: nat, top': nat, capacity: nat)
  {
    && |m'| == |m| && start <= top <= top' <= capacity <= |m|
    && p < |m| && (start <= p < top || capacity <= p)
    && m[p].Handle? && start <= m[p].data
    && var end := ElemAt(m[p].elem, m[p].data, NumElements(m[p].shape));
    && end <= top <= m[p].data + shift && end + shift <= top'
    && m'[p] == m[p].(data := m[p].data + shift)
    && (forall q {:trigger m[q]} | 0 <= q < |m| && (q < top || capacity <= q) && q != p :: m'[q] == m[q])
    && SameCells(m, m', p, m[p].data, end, shift)
  }

  /** The cells from `a` to `b` reappear `shift` bytes further on, up to the redirection of `p`. */
  ghost predicate SameCells(m: Memory, m': Memory, p: nat, a: nat, b: nat, shift: int)
  {
    p < |m'| &&
    forall q {:trigger m[q]} | a <= q < b && q < |m| ::
      0 <= q + shift < |m'| && m'[q + shift] == if q == p then m'[p] else m[q]
  }

  lemma {:induction false} SameCellsPart(m: Memory, m': Memory, p: nat, a: nat, b: nat, shift: int, x: nat, y: nat)
    requires SameCells(m, m', p, a, b, shift) && a <= x && y <= b
    ensures SameCells(m, m', p, x, y, shift)
  {
    forall q {:trigger m[q]} | x <= q < y && q < |m|
      ensures 0 <= q + shift < |m'| && m'[q + shift] == if q == p then m'[p] else m[q]
    {
      var c := m[q];
      assert c == m[q];
    }
  }

  /** Redirecting a handle changes no object, wherever it is reached from: it stays well formed and
      keeps its value, also when its cells were carried along by the copying. */
  lemma {:induction false} RedirectKeeps(m: Memory, m': Memory, p: nat, move: int, start: nat, top: nat, top': nat,
      capacity: nat, ty: Ty, a: nat, shift: int)
    requires Redirected(m, m', p, move, start, top, top', capacity)
    requires WellFormed(m, ty, a, start, top)
    requires 0 <= a + shift && SameCells(m, m', p, a, a + Sizeof(ty), shift)
    ensures WellFormed(m', ty, a + shift, start, top')
    ensures Deep(m', ty, a + shift) == Deep(m, ty, a)
    decreases ty, 1
  {
    assert p < |m| && m[p].Handle?;
    hide NumElements, Redirected, WellFormedElems, DeepElems;
    match ty
    case Scalar =>
    case Unit =>
    case Pack(h, t) =>
      RedirectKeepsPack(m, m', p, move, start, top, top', capacity, h, t, a, shift);
    case Tensor(r, e) =>
      RedirectKeepsTensor(m, m', p, move, start, top, top', capacity, r, e, a, shift);
  }

  lemma {:induction false} RedirectKeepsPack(m: Memory, m': Memory, p: nat, move: int, start: nat, top: nat, top': nat,
      capacity: nat, h: Ty, t: Ty, a: nat, shift: int)
    requires Redirected(m, m', p, move, start, top, top', capacity)
    requires WellFormed(m, Pack(h, t), a, start, top)
    requires 0 <= a + shift && SameCells(m, m', p, a, a + Sizeof(Pack(h, t)), shift)
    ensures WellFormed(m', Pack(h, t), a + shift, start, top')
    ensures Deep(m', Pack(h, t), a + shift) == Deep(m, Pack(h, t), a)
    decreases Pack(h, t), 0
  {
    hide *;
    SizeofPack(h, t);
    var mid, end := a + Sizeof(h), a + Sizeof(Pack(h, t));
    SameCellsPart(m, m', p, a, end, shift, a, mid);
    SameCellsPart(m, m', p, a, end, shift, mid, mid + Sizeof(t));
    WellFormedPack(m, h, t, a, start, top);
    RedirectKeeps(m, m', p, move, start, top, top', capacity, h, a, shift);
    RedirectKeeps(m, m', p, move, start, top, top', capacity, t, a + Sizeof(h), shift);
    assert a + Sizeof(h) + shift == a + shift + Sizeof(h);
    WellFormedPack(m', h, t, a + shift, start, top');
    DeepPack(m, h, t, a);
    DeepPack(m', h, t, a + shift);
  }

  lemma {:induction false} RedirectKeepsTensor(m: Memory, m': Memory, p: nat, move: int, start: nat, top: nat,
      top': nat, capacity: nat, r: nat, e: Ty, a: nat, shift: int)
    requires Redirected(m, m', p, move, start, top, top', capacity)
    requires WellFormed(m, Tensor(r, e), a, start, top)
    requires 0 <= a + shift < |m'| && m'[a + shift] == if a == p then m'[p] else m[a]
    ensures WellFormed(m', Tensor(r, e), a + shift, start, top')
    ensures Deep(m', Tensor(r, e), a + shift) == Deep(m, Tensor(r, e), a)
    ensures start <= m[a].data ==> start <= m'[a + shift].data
    decreases e, 3
  {
    hide NumElements, SameCells, Span, Sizeof, WellFormedElems, DeepElems;
    var d, n := m[a].data, NumElements(m[a].shape);
    if d < start {
      CarryKeepsElems(m, m', e, d, n, start, start);
    } else {
      RedirectKeepsElems(m, m', p, move, start, top, top', capacity, e, d, n, if a == p then move else 0);
    }
  }

  lemma {:induction false} RedirectKeepsElems(m: Memory, m': Memory, p: nat, move: int, start: nat, top: nat, top': nat,
      capacity: nat, e: Ty, d: nat, n: nat, shift: int)
    requires Redirected(m, m', p, move, start, top, top', capacity)
    requires WellFormedElems(m, e, d, n, start, top)
    requires shift == 0 || (shift == move && d == m[p].data && n == NumElements(m[p].shape) && e == m[p].elem)
    ensures 0 <= d + shift
    ensures WellFormedElems(m', e, d + shift, n, start, top')
    ensures DeepElems(m', e, d + shift, n) == DeepElems(m, e, d, n)
    decreases e, 2
  {
    hide NumElements, Span, Sizeof, WellFormed, Deep;
    forall i: nat | i < n
      ensures WellFormed(m', e, ElemAt(e, d + shift, i), start, top')
      ensures Deep(m', e, ElemAt(e, d + shift, i)) == Deep(m, e, ElemAt(e, d, i))
    {
      SpanMonotone(Sizeof(e), i, n);
      RedirectKeeps(m, m', p, move, start, top, top', capacity, e, ElemAt(e, d, i), shift);
    }
    assert ElemAt(e, d + shift, n) <= top';
    assert forall i: nat {:trigger ElemAt(e, d + shift, i)} | i < n ::
      WellFormed(m', e, ElemAt(e, d + shift, i), start, top');
    assert DeepElems(m', e, d + shift, n) == DeepElems(m, e, d, n);
  }

  /** For destinations that end at or before `dest`, the least place a fresh copy may take, redirecting
      a handle leaves what is prepared prepared: re-moving a shared handle undoes no earlier work. */
  lemma {:induction false} RedirectKeepsPrepared(m: Memory, m': Memory, p: nat, move: int, start: nat, top: nat,
      top': nat, capacity: nat, ty: Ty, a: nat, shift: int, dest: nat)
    requires Redirected(m, m', p, move, start, top, top', capacity)
    requires WellFormed(m, ty, a, start, top)
    requires 0 <= a + shift && SameCells(m, m', p, a, a + Sizeof(ty), shift)
    requires Prepared(m, ty, a, start, dest)
    requires dest + Inflated(ty, Deep(m, ty, a)) <= m[p].data + move
    ensures Prepared(m', ty, a + shift, start, dest)
    decreases ty, 1
  {
    assert p < |m| && m[p].Handle?;
    hide NumElements, Redirected, WellFormedElems, DeepElems, PreparedElems, InflatedAll;
    match ty
    case Scalar =>
    case Unit =>
    case Pack(h, t) =>
      RedirectKeepsPreparedPack(m, m', p, move, start, top, top', capacity, h, t, a, shift, dest);
    case Tensor(r, e) =>
      RedirectKeepsPreparedTensor(m, m', p, move, start, top, top', capacity, r, e, a, shift, dest);
  }

  lemma {:induction false} RedirectKeepsPreparedPack(m: Memory, m': Memory, p: nat, move: int, start: nat, top: nat,
      top': nat, capacity: nat, h: Ty, t: Ty, a: nat, shift: int, dest: nat)
    requires Redirected(m, m', p, move, start, top, top', capacity)
    requires WellFormed(m, Pack(h, t), a, start, top)
    requires 0 <= a + shift && SameCells(m, m', p, a, a + Sizeof(Pack(h, t)), shift)
    requires Prepared(m, Pack(h, t), a, start, dest)
    requires dest + Inflated(Pack(h, t), Deep(m, Pack(h, t), a)) <= m[p].data + move
    ensures Prepared(m', Pack(h, t), a + shift, start, dest)
    decreases Pack(h, t), 0
  {
    hide *;
    SizeofPack(h, t);
    var mid, end := a + Sizeof(h), a + Sizeof(Pack(h, t));
    SameCellsPart(m, m', p, a, end, shift, a, mid);
    SameCellsPart(m, m', p, a, end, shift, mid, mid + Sizeof(t));
    WellFormedPack(m, h, t, a, start, top);
    PreparedPack(m, h, t, a, start, dest);
    InflatedPack(m, h, t, a);
    var k := Inflated(h, Deep(m, h, a));
    RedirectKeeps(m, m', p, move, start, top, top', capacity, h, a, shift);
    RedirectKeepsPrepared(m, m', p, move, start, top, top', capacity, h, a, shift, dest);
    RedirectKeepsPrepared(m, m', p, move, start, top, top', capacity, t, a + Sizeof(h), shift, dest + k);
    assert a + Sizeof(h) + shift == a + shift + Sizeof(h);
    PreparedPack(m', h, t, a + shift, start, dest);
  }

  lemma {:induction false} RedirectKeepsPreparedTensor(m: Memory, m': Memory, p: nat, move: int, start: nat, top: nat,
      top': nat, capacity: nat, r: nat, e: Ty, a: nat, shift: int, dest: nat)
    requires Redirected(m, m', p, move, start, top, top', capacity)
    requires WellFormed(m, Tensor(r, e), a, start, top)
    requires 0 <= a + shift < |m'| && m'[a + shift] == if a == p then m'[p] else m[a]
    requires Prepared(m, Tensor(r, e), a, start, dest)
    requires dest + Inflated(Tensor(r, e), Deep(m, Tensor(r, e), a)) <= m[p].data + move
    ensures Prepared(m', Tensor(r, e), a + shift, start, dest)
    decreases e, 3
  {
    hide NumElements, SameCells, Span, Sizeof, WellFormedElems, DeepElems, PreparedElems, InflatedAll;
    var d, n := m[a].data, NumElements(m[a].shape);
    var shift' := if a == p then move else 0;
    WellFormedEnd(m, e, d, n, start, if d < start then start else top);
    if start < ElemAt(e, d, n) {
      RedirectKeepsPreparedElems(m, m', p, move, start, top, top', capacity, e, d, n, shift', dest);
    } else if a == p {
      assert ElemAt(e, d + move, n) == d + move;
      NoBytesElems(m', e, d + move, n, start, d + move, dest);
    }
  }

  lemma {:induction false} RedirectKeepsPreparedElems(m: Memory, m': Memory, p: nat, move: int, start: nat, top: nat,
      top': nat, capacity: nat, e: Ty, d: nat, n: nat, shift: int, dest: nat)
    requires Redirected(m, m', p, move, start, top, top', capacity)
    requires WellFormedElems(m, e, d, n, start, top)
    requires shift == 0 || (shift == move && d == m[p].data && n == NumElements(m[p].shape) && e == m[p].elem)
    requires PreparedElems(m, e, d, n, start, dest)
    requires dest + InflatedAll(e, DeepElems(m, e, d, n)) <= m[p].data + move
    ensures 0 <= d + shift && PreparedElems(m', e, d + shift, n, start, dest)
    ensures dest <= d ==> dest <= d + shift
    decreases e, 2
  {
    hide NumElements, Span, Sizeof, WellFormed, Deep, Prepared, InflatedElems, Inflated, Padded;
    RedirectKeepsElems(m, m', p, move, start, top, top', capacity, e, d, n, shift);
    var vs := DeepElems(m, e, d, n);
    forall i: nat | i < n
      ensures Prepared(m', e, ElemAt(e, d + shift, i), start, ElemDest(e, vs, dest, i))
    {
      SpanMonotone(Sizeof(e), i, n);
      InflatedMonotone(e, vs, i, n);
      RedirectKeepsPrepared(m, m', p, move, start, top, top', capacity, e, ElemAt(e, d, i), shift,
        ElemDest(e, vs, dest, i));
    }
  }

  // ---------------------------------------------------------------- moving down

  /** `m'` has the cells of `m` below `start` and between `low` and `high`. */
  ghost predicate Agree(m: Memory, m': Memory, start: nat, low: nat, high: nat) {
    |m'| == |m| && Carried(m, m', 0, start, 0) && Carried(m, m', low, high, 0)
  }

  /** A prepared object keeps its value while memory between `start` and its destination is
      overwritten, and while its own cells are carried elsewhere. */
  lemma {:induction false} MoveKeeps(m: Memory, m': Memory, start: nat, low: nat, high: nat, ty: Ty, a: nat, shift: int,
      dest: nat)
    requires Agree(m, m', start, low, high) && low <= dest && start <= high
    requires WellFormed(m, ty, a, start, high) && Prepared(m, ty, a, start, dest)
    requires 0 <= a + shift && Carried(m, m', a, a + Sizeof(ty), shift)
    ensures WellFormed(m', ty, a + shift, start, high) && Prepared(m', ty, a + shift, start, dest)
    ensures Deep(m', ty, a + shift) == Deep(m, ty, a)
    decreases ty, 1
  {
    hide NumElements, Carried, WellFormedElems, DeepElems, PreparedElems, InflatedAll;
    match ty
    case Scalar =>
      CarriedCell(m, m', a, a + Sizeof(ty), shift, a);
    case Unit =>
    case Pack(h, t) =>
      MoveKeepsPack(m, m', start, low, high, h, t, a, shift, dest);
    case Tensor(r, e) =>
      CarriedCell(m, m', a, a + Sizeof(ty), shift, a);
      MoveKeepsTensor(m, m', start, low, high, r, e, a, shift, dest);
  }

  lemma {:induction false} MoveKeepsTensor(m: Memory, m': Memory, start: nat, low: nat, high: nat, r: nat, e: Ty,
      a: nat, shift: int, dest: nat)
    requires Agree(m, m', start, low, high) && low <= dest && start <= high
    requires WellFormed(m, Tensor(r, e), a, start, high) && Prepared(m, Tensor(r, e), a, start, dest)
    requires 0 <= a + shift < |m'| && m'[a + shift] == m[a]
    ensures WellFormed(m', Tensor(r, e), a + shift, start, high) && Prepared(m', Tensor(r, e), a + shift, start, dest)
    ensures Deep(m', Tensor(r, e), a + shift) == Deep(m, Tensor(r, e), a)
    decreases Tensor(r, e), 0
  {
    hide NumElements, Carried, WellFormedElems, DeepElems, PreparedElems, InflatedAll;
    var d, n := m[a].data, NumElements(m[a].shape);
    WellFormedEnd(m, e, d, n, start, if d < start then start else high);
    if ElemAt(e, d, n) <= start {
      hide ElemAt;
      if start <= d { assert d == start by { ElemAtGrows(e, d, n); } NoBytesElems(m, e, d, n, start, start, dest); }
      CarryKeepsElems(m, m', e, d, n, start, start);
      if start <= d { NoBytesElems(m', e, d, n, start, high, dest); }
    } else {
      MoveKeepsElems(m, m', start, low, high, e, d, n, dest);
    }
  }

  lemma {:induction false} ElemAtGrows(e: Ty, d: nat, n: nat)
    ensures d <= ElemAt(e, d, n)
  {
  }

  lemma {:induction false} MoveKeepsPack(m: Memory, m': Memory, start: nat, low: nat, high: nat, h: Ty, t: Ty, a: nat,
      shift: int, dest: nat)
    requires Agree(m, m', start, low, high) && low <= dest && start <= high
    requires WellFormed(m, Pack(h, t), a, start, high) && Prepared(m, Pack(h, t), a, start, dest)
    requires 0 <= a + shift && Carried(m, m', a, a + Sizeof(Pack(h, t)), shift)
    ensures WellFormed(m', Pack(h, t), a + shift, start, high) && Prepared(m', Pack(h, t), a + shift, start, dest)
    ensures Deep(m', Pack(h, t), a + shift) == Deep(m, Pack(h, t), a)
    decreases Pack(h, t), 0
  {
    hide *;
    SizeofPack(h, t);
    var mid, k := a + Sizeof(h), Inflated(h, Deep(m, h, a));
    CarriedPart(m, m', a, mid + Sizeof(t), shift, a, mid);
    CarriedPart(m, m', a, mid + Sizeof(t), shift, mid, mid + Sizeof(t));
    WellFormedPack(m, h, t, a, start, high);
    PreparedPack(m, h, t, a, start, dest);
    MoveKeeps(m, m', start, low, high, h, a, shift, dest);
    MoveKeeps(m, m', start, low, high, t, mid, shift, dest + k);
    assert mid + shift == a + shift + Sizeof(h);
    WellFormedPack(m', h, t, a + shift, start, high);
    PreparedPack(m', h, t, a + shift, start, dest);
    DeepPack(m, h, t, a);
    DeepPack(m', h, t, a + shift);
  }

  lemma {:induction false} MoveKeepsElems(m: Memory, m': Memory, start: nat, low: nat, high: nat, e: Ty, d: nat, n: nat,
      dest: nat)
    requires Agree(m, m', start, low, high) && low <= dest <= d && start <= high
    requires WellFormedElems(m, e, d, n, start, high) && PreparedElems(m, e, d, n, start, dest)
    ensures WellFormedElems(m', e, d, n, start, high) && PreparedElems(m', e, d, n, start, dest)
    ensures DeepElems(m', e, d, n) == DeepElems(m, e, d, n)
    decreases e, 2
  {
    hide NumElements, Span, Sizeof, WellFormed, Deep, Prepared, InflatedElems, Inflated, Padded;
    var vs := DeepElems(m, e, d, n);
    forall i: nat | i < n
      ensures WellFormed(m', e, ElemAt(e, d, i), start, high)
      ensures Prepared(m', e, ElemAt(e, d, i), start, ElemDest(e, vs, dest, i))
      ensures Deep(m', e, ElemAt(e, d, i)) == Deep(m, e, ElemAt(e, d, i))
    {
      SpanMonotone(Sizeof(e), i, n);
      MoveKeeps(m, m', start, low, high, e, ElemAt(e, d, i), 0, ElemDest(e, vs, dest, i));
    }
    assert DeepElems(m', e, d, n) == vs;
  }

  /** An object laid out in `[s, s + Inflated)` depends on that block and on its own cells only. */
  lemma {:induction false} LaidKeeps(m: Memory, m': Memory, ty: Ty, a: nat, s: nat)
    requires |m'| == |m| && Laid(m, ty, a, s)
    requires Carried(m, m', a, a + Sizeof(ty), 0) && Carried(m, m', s, s + Inflated(ty, Deep(m, ty, a)), 0)
    ensures Laid(m', ty, a, s) && Deep(m', ty, a) == Deep(m, ty, a)
    decreases ty, 1
  {
    hide NumElements, LaidElems, DeepElems, InflatedAll, Carried;
    match ty
    case Scalar =>
      CarriedCell(m, m', a, a + Sizeof(ty), 0, a);
    case Unit =>
    case Pack(h, t) =>
      LaidKeepsPack(m, m', h, t, a, s);
    case Tensor(r, e) =>
      CarriedCell(m, m', a, a + Sizeof(ty), 0, a);
      LaidKeepsElems(m, m', e, s, NumElements(m[a].shape));
  }

  lemma {:induction false} LaidKeepsPack(m: Memory, m': Memory, h: Ty, t: Ty, a: nat, s: nat)
    requires |m'| == |m| && Laid(m, Pack(h, t), a, s)
    requires Carried(m, m', a, a + Sizeof(Pack(h, t)), 0)
    requires Carried(m, m', s, s + Inflated(Pack(h, t), Deep(m, Pack(h, t), a)), 0)
    ensures Laid(m', Pack(h, t), a, s) && Deep(m', Pack(h, t), a) == Deep(m, Pack(h, t), a)
    decreases Pack(h, t), 0
  {
    hide *;
    SizeofPack(h, t);
    var mid, k := a + Sizeof(h), Inflated(h, Deep(m, h, a));
    LaidPack(m, h, t, a, s);
    InflatedPack(m, h, t, a);
    var end := s + k + Inflated(t, Deep(m, t, mid));
    CarriedPart(m, m', a, mid + Sizeof(t), 0, a, mid);
    CarriedPart(m, m', a, mid + Sizeof(t), 0, mid, mid + Sizeof(t));
    CarriedPart(m, m', s, end, 0, s, s + k);
    CarriedPart(m, m', s, end, 0, s + k, end);
    LaidKeeps(m, m', h, a, s);
    LaidKeeps(m, m', t, mid, s + k);
    LaidPack(m', h, t, a, s);
    DeepPack(m, h, t, a);
    DeepPack(m', h, t, a);
  }

  lemma {:induction false} LaidKeepsElems(m: Memory, m': Memory, e: Ty, s: nat, n: nat)
    requires |m'| == |m| && LaidElems(m, e, s, n)
    requires Carried(m, m', s, s + InflatedAll(e, DeepElems(m, e, s, n)), 0)
    ensures LaidElems(m', e, s, n) && DeepElems(m', e, s, n) == DeepElems(m, e, s, n)
    decreases e, 2
  {
    hide NumElements, Span, Sizeof, Laid, Deep, InflatedElems, Inflated, Carried;
    var vs := DeepElems(m, e, s, n);
    forall i: nat | i < n
      ensures Laid(m', e, ElemAt(e, s, i), ElemDest(e, vs, s, i))
      ensures Deep(m', e, ElemAt(e, s, i)) == Deep(m, e, ElemAt(e, s, i))
    {
      SpanMonotone(Sizeof(e), i, n);
      InflatedMonotone(e, vs, i, n);
      var at, to := ElemAt(e, s, i), ElemDest(e, vs, s, i);
      CarriedPart(m, m', s, s + InflatedAll(e, vs), 0, at, at + Sizeof(e));
      CarriedPart(m, m', s, s + InflatedAll(e, vs), 0, to, to + Inflated(e, vs[i]));
      LaidKeeps(m, m', e, ElemAt(e, s, i), ElemDest(e, vs, s, i));
    }
    assert DeepElems(m', e, s, n) == vs;
  }
}
