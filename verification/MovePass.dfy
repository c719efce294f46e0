/** The second pass of a copydown: every tensor's data is moved down to its final place. */
module MovePass {
  import opened RuntimeMemory
  import opened CopydownLemmas
  import opened Footprint
  import opened MoveLemmas
  import opened PrepareLemmas
  import opened Allocation

  method CopydownByMemmoveInplace(alloc: Allocator, ty: Ty, t: nat, ghost z: Zone, ghost high: nat) returns (ok: bool)
    requires alloc.Valid() && z.capacity == alloc.maxSize && Movable(alloc.mem[..], alloc.top, z, high, ty, t)
    modifies alloc`top, alloc`peak, alloc.mem
    ensures ok ==> alloc.Valid() && Moved(old(alloc.mem[..]), old(alloc.top), alloc.mem[..], alloc.top, ty, t)
    ensures MoveFits(old(alloc.top), z, Inflated(ty, Deep(old(alloc.mem[..]), ty, t))) ==> ok
    decreases ty, 1
  {
    hide Movable, Moved, MoveFits, Inflated, Deep;
    ghost var m, top := alloc.mem[..], alloc.top;
    match ty
    case Scalar =>
      MovedTrivial(m, top, z, high, ty, t);
      ok := true;
    case Unit =>
      MovedTrivial(m, top, z, high, ty, t);
      ok := true;
    case Pack(h, tl) =>
      MovePackParts(m, top, z, high, h, tl, t);
      ok := CopydownByMemmoveInplace(alloc, h, t, z, high);
      if !ok { return; }
      ghost var m1, top1 := alloc.mem[..], alloc.top;
      MovedHeadFits(m, top, m1, top1, z, high, h, tl, t);
      ok := CopydownByMemmoveInplace(alloc, tl, t + Sizeof(h), z, high);
      if ok { MovedPack(m, top, m1, top1, alloc.mem[..], alloc.top, z, high, h, tl, t); }
    case Tensor(r, e) =>
      ok := MoveTensorInplace(alloc, r, e, t, z, high);
  }

  ghost predicate MoveFits(top: nat, z: Zone, size: nat) {
    size < REQUEST_LIMIT && top + size < z.capacity
  }

  lemma {:induction false} MovePackParts(m: Memory, top: nat, z: Zone, high: nat, h: Ty, t: Ty, a: nat)
    requires Movable(m, top, z, high, Pack(h, t), a)
    ensures Movable(m, top, z, high, h, a)
    ensures MoveFits(top, z, Inflated(Pack(h, t), Deep(m, Pack(h, t), a))) ==>
      MoveFits(top, z, Inflated(h, Deep(m, h, a)))
  {
    hide Movable, Inflated, Deep;
    MovablePack(m, top, z, high, h, t, a);
  }

  lemma {:induction false} MovedHeadFits(m: Memory, top: nat, m1: Memory, top1: nat, z: Zone, high: nat, h: Ty, t: Ty,
      a: nat)
    requires Movable(m, top, z, high, Pack(h, t), a)
    requires Moved(m, top, m1, top1, h, a) && top1 <= z.capacity
    ensures Movable(m1, top1, z, high, t, a + Sizeof(h))
    ensures Deep(m1, t, a + Sizeof(h)) == Deep(m, t, a + Sizeof(h))
    ensures MoveFits(top, z, Inflated(Pack(h, t), Deep(m, Pack(h, t), a))) ==>
      MoveFits(top1, z, Inflated(t, Deep(m1, t, a + Sizeof(h))))
  {
    hide Movable, Inflated, Deep, Laid, OnlyWrote;
    MovedHead(m, top, m1, top1, z, high, h, t, a);
    InflatedPack(m, h, t, a);
  }

  method MoveTensorInplace(alloc: Allocator, r: nat, e: Ty, t: nat, ghost z: Zone, ghost high: nat) returns (ok: bool)
    requires alloc.Valid() && z.capacity == alloc.maxSize && Movable(alloc.mem[..], alloc.top, z, high, Tensor(r, e), t)
    modifies alloc`top, alloc`peak, alloc.mem
    ensures ok ==> alloc.Valid() && Moved(old(alloc.mem[..]), old(alloc.top), alloc.mem[..], alloc.top, Tensor(r, e), t)
    ensures MoveFits(old(alloc.top), z, Inflated(Tensor(r, e), Deep(old(alloc.mem[..]), Tensor(r, e), t))) ==> ok
    decreases e, 3
  {
    hide Movable, Moved, MoveFits, Inflated, Deep, DeepElems, PartlyMoved, OnlyWrote, ElemDest, DataMoved,
      NumElements, Sizeof, Span, Padded;
    ghost var m, s := alloc.mem[..], alloc.top;
    var mem := alloc.mem;
    MoveTensorFacts(m, z, high, r, e, t, s);
    var oldData, n := mem[t].data, NumElements(mem[t].shape);
    var newData;
    ok, newData := MoveData(alloc, e, t, n, z);
    if !ok { return; }
    ghost var m1 := mem[..];
    DataMovedElems(m, m1, z, high, r, e, t, s, n);
    ok := MoveElements(alloc, e, newData, n, z, high, DeepElems(m, e, oldData, n));
    if ok { TensorMoved(m, m1, mem[..], alloc.top, z, high, r, e, t, s, n); }
  }

  /** Creates a tensor at the allocator's top in place of the one at `t` and moves the data there. */
  method MoveData(alloc: Allocator, e: Ty, t: nat, n: nat, ghost z: Zone) returns (ok: bool, newData: nat)
    requires alloc.Valid() && z.capacity == alloc.maxSize && t < alloc.mem.Length && alloc.mem[t].Handle?
    requires (t < alloc.top || z.capacity <= t) && alloc.mem[t].data + Span(Sizeof(e), n) <= z.capacity
    requires !(alloc.mem[t].data <= t < alloc.mem[t].data + Span(Sizeof(e), n))
    modifies alloc`top, alloc`peak, alloc.mem
    ensures var size := Span(Sizeof(e), n);
      (size < REQUEST_LIMIT && old(alloc.top) + Padded(size) < z.capacity) ==> ok
    ensures ok ==> alloc.Valid() && newData == old(alloc.top) && alloc.top == newData + Padded(Span(Sizeof(e), n))
    ensures ok ==> DataMoved(old(alloc.mem[..]), alloc.mem[..], t, old(alloc.mem[t].data), newData, Span(Sizeof(e), n))
  {
    hide NumElements, Sizeof, Span, DataMoved;
    ghost var m := alloc.mem[..];
    var mem, oldData, size := alloc.mem, alloc.mem[t].data, Span(Sizeof(e), n);
    ok, newData := alloc.Allocate(size);
    if !ok { return; }
    mem[t] := mem[t].(data := newData);
    assert mem[..] == m[t := m[t].(data := newData)];
    MemMove(mem, newData, oldData, size);
    IsDataMoved(m, mem[..], t, oldData, newData, size);
  }

  method MoveElements(alloc: Allocator, e: Ty, newData: nat, n: nat, ghost z: Zone, ghost high: nat, ghost vs: seq<Val>)
      returns (ok: bool)
    requires alloc.Valid() && z.capacity == alloc.maxSize && z.start <= newData && n == |vs|
    requires PartlyMoved(alloc.mem[..], alloc.top, z, high, e, vs, newData, 0)
    modifies alloc`top, alloc`peak, alloc.mem
    ensures ok ==> alloc.Valid() && PartlyMoved(alloc.mem[..], alloc.top, z, high, e, vs, newData, n)
    ensures ok ==> OnlyWrote(old(alloc.mem[..]), alloc.mem[..], newData, newData + Span(Sizeof(e), n), old(alloc.top),
      alloc.top)
    ensures MoveFits(old(alloc.top), z, InflatedElems(e, vs, n)) ==> ok
    decreases e, 2
  {
    hide Movable, Moved, MoveFits, Inflated, InflatedElems, Deep, PartlyMoved, OnlyWrote, ElemDest, Sizeof, Span,
      ElemAt;
    ghost var m, low := alloc.mem[..], alloc.top;
    var i := 0;
    PartlyMovedTop(m, low, z, high, e, vs, newData, 0);
    OnlyWroteNothing(m, newData, newData + Span(Sizeof(e), n), low);
    while i < n
      invariant 0 <= i <= n
      invariant alloc.Valid() && PartlyMoved(alloc.mem[..], alloc.top, z, high, e, vs, newData, i)
      invariant OnlyWrote(m, alloc.mem[..], newData, newData + Span(Sizeof(e), n), low, alloc.top)
    {
      ghost var m1, top1 := alloc.mem[..], alloc.top;
      MoveElementParts(m1, top1, z, high, e, vs, newData, i, low);
      ok := CopydownByMemmoveInplace(alloc, e, ElemAt(e, newData, i), z, high);
      if !ok { return; }
      PartlyMovedStep(m1, top1, alloc.mem[..], alloc.top, z, high, e, vs, newData, i);
      MoveElementWrites(m, low, m1, top1, alloc.mem[..], alloc.top, e, vs, newData, i);
      i := i + 1;
    }
    ok := true;
  }

  lemma {:induction false} MoveTensorFacts(m: Memory, z: Zone, high: nat, r: nat, e: Ty, p: nat, s: nat)
    requires Movable(m, s, z, high, Tensor(r, e), p)
    ensures p < |m| && m[p].Handle?
    ensures var d, n := m[p].data, NumElements(m[p].shape);
      var size, vs := Span(Sizeof(e), n), DeepElems(m, e, d, n);
      && d + size <= high <= z.capacity && z.start <= s && ((z.start <= p < s) || z.capacity <= p)
      && !(d <= p < d + size)
      && ElemDest(e, vs, s, 0) == s + Padded(size)
      && (MoveFits(s, z, Inflated(Tensor(r, e), Deep(m, Tensor(r, e), p))) ==>
            size < REQUEST_LIMIT && s + Padded(size) < z.capacity
              && MoveFits(s + Padded(size), z, InflatedElems(e, vs, n)))
  {
    hide DeepElems, NumElements, Span, WellFormedElems, PreparedElems, InflatedElems, Inflated, Deep, Padded;
    HandleParts(m, r, e, p, z.start, high);
    hide WellFormed;
    assert 1 <= Sizeof(Tensor(r, e));
    assert !(m[p].data <= p < ElemAt(e, m[p].data, NumElements(m[p].shape)));
    hide Sizeof, Prepared;
    InflatedNone(e, DeepElems(m, e, m[p].data, NumElements(m[p].shape)));
  }

  lemma {:induction false} IsDataMoved(m: Memory, m1: Memory, p: nat, d: nat, s: nat, size: nat)
    requires p < |m| && m[p].Handle? && m[p].data == d && d + size <= |m| && s + size <= |m|
    requires !(d <= p < d + size) && !(s <= p < s + size)
    requires m1 == Copied(m[p := m[p].(data := s)], s, d, size)
    ensures DataMoved(m, m1, p, d, s, size)
  {
    hide NumElements;
    var m0 := m[p := m[p].(data := s)];
    forall q {:trigger m[q]} | d <= q < d + size && q < |m|
      ensures 0 <= q + (s - d) < |m1| && m1[q + (s - d)] == m[q]
    {
      assert m1[q + (s - d)] == m0[q];
    }
    forall q {:trigger m[q]} | 0 <= q < |m| && !(p <= q < p + 1) && !(s <= q < s + size)
      ensures m1[q] == m[q]
    {
      assert m1[q] == m0[q];
    }
  }

  lemma {:induction false} OnlyWroteNothing(m: Memory, a: nat, b: nat, from: nat)
    ensures OnlyWrote(m, m, a, b, from, from)
  {
    hide Movable;
  }

  lemma {:induction false} PartlyMovedTop(m: Memory, top: nat, z: Zone, high: nat, e: Ty, vs: seq<Val>, s: nat, i: nat)
    requires i <= |vs| && PartlyMoved(m, top, z, high, e, vs, s, i)
    ensures top == ElemDest(e, vs, s, i)
  {
    hide LaidAs, MovableAs, ElemDest;
  }

  /** What the first `i` elements leave for element `i`. */
  lemma {:induction false} MoveElementParts(m: Memory, top: nat, z: Zone, high: nat, e: Ty, vs: seq<Val>, s: nat,
      i: nat, low: nat)
    requires i < |vs| && PartlyMoved(m, top, z, high, e, vs, s, i) && low == ElemDest(e, vs, s, 0)
    ensures Movable(m, top, z, high, e, ElemAt(e, s, i)) && low <= top
    ensures MoveFits(low, z, InflatedElems(e, vs, |vs|)) ==> MoveFits(top, z, Inflated(e, Deep(m, e, ElemAt(e, s, i))))
  {
    hide Movable, Deep, Inflated, InflatedElems, ElemAt, Padded, Span;
    assert MovableAs(m, z, high, e, vs, s, i);
    InflatedMonotone(e, vs, i, |vs|);
    assert InflatedElems(e, vs, 0) == 0 by { InflatedNone(e, vs); }
  }

  lemma {:induction false} InflatedNone(e: Ty, vs: seq<Val>)
    ensures InflatedElems(e, vs, 0) == 0
  {
  }

  lemma {:induction false} MoveElementWrites(m: Memory, low: nat, m1: Memory, top1: nat, m2: Memory, top2: nat, e: Ty,
      vs: seq<Val>, s: nat, i: nat)
    requires i < |vs| && low <= top1
    requires OnlyWrote(m, m1, s, s + Span(Sizeof(e), |vs|), low, top1)
    requires Moved(m1, top1, m2, top2, e, ElemAt(e, s, i))
    ensures OnlyWrote(m, m2, s, s + Span(Sizeof(e), |vs|), low, top2)
  {
    hide Deep, Inflated, InflatedElems, Sizeof, Padded, Span, OnlyWrote, Laid;
    ElementBounds(e, vs, s, i);
    var end := s + Span(Sizeof(e), |vs|);
    OnlyWroteTransitive(m, m1, m2, s, end, low, top1, top2, s, end, ElemAt(e, s, i), ElemAt(e, s, i) + Sizeof(e));
  }
}
