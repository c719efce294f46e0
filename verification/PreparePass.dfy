/** The first pass of a copydown: data that is in the way of earlier destinations is moved aside. */
module PreparePass {
  import opened RuntimeMemory
  import opened CopydownLemmas
  import opened Footprint
  import opened PrepareLemmas
  import opened Allocation

  class PrepareCopydownState {
    var subobjectDestination: nat
    const startOfDestination: nat
    const alloc: Allocator

    constructor (start: nat, alloc: Allocator)
      ensures subobjectDestination == startOfDestination == start && this.alloc == alloc
    {
      subobjectDestination, startOfDestination, this.alloc := start, start, alloc;
    }

    ghost predicate Valid()
      reads this, alloc
    {
      && alloc.Valid() && startOfDestination <= alloc.top
      && startOfDestination <= subobjectDestination && Aligned(subobjectDestination)
    }

    ghost function Now(): Stage
      reads this, alloc, alloc.mem
    {
      Stage(alloc.mem[..], alloc.top, subobjectDestination)
    }

    ghost function Z(): Zone { Zone(startOfDestination, alloc.maxSize) }
  }

  function Max(x: nat, y: nat): nat { if x < y then y else x }

  /** Enough room to prepare and then move `size` bytes. */
  ghost predicate Fits(s: Stage, z: Zone, size: nat) {
    s.dest - z.start + size < REQUEST_LIMIT && s.High() + size < z.capacity
  }

  lemma {:induction false} InflatedAligned(ty: Ty, v: Val)
    ensures Aligned(Inflated(ty, v))
    decreases ty, 0, 0
  {
    match ty
    case Scalar =>
    case Unit =>
    case Pack(h, t) =>
      if v.VPack? {
        InflatedAligned(h, v.head);
        InflatedAligned(t, v.tail);
        AlignedSum(Inflated(h, v.head), Inflated(t, v.tail));
      }
    case Tensor(_, e) =>
      if v.VTensor? {
        InflatedElemsAligned(e, v.elems, |v.elems|);
        AlignedSum(Padded(Span(Sizeof(e), |v.elems|)), InflatedElems(e, v.elems, |v.elems|));
      }
  }

  lemma {:induction false} InflatedElemsAligned(e: Ty, vs: seq<Val>, k: nat)
    requires k <= |vs|
    ensures Aligned(InflatedElems(e, vs, k))
    decreases e, 1, k
  {
    if k > 0 {
      InflatedElemsAligned(e, vs, k - 1);
      InflatedAligned(e, vs[k - 1]);
      AlignedSum(InflatedElems(e, vs, k - 1), Inflated(e, vs[k - 1]));
    }
  }

  method PrepareCopydownInplace(dest: PrepareCopydownState, ty: Ty, t: nat) returns (ok: bool)
    requires dest.Valid()
    requires dest.startOfDestination <= t && Home(ty, t, dest.alloc.top, dest.alloc.maxSize)
    requires WellFormed(dest.alloc.mem[..], ty, t, dest.startOfDestination, dest.alloc.top)
    modifies dest`subobjectDestination, dest.alloc`top, dest.alloc`peak, dest.alloc.mem
    ensures ok ==> dest.Valid() && Step(old(dest.Now()), dest.Now(), dest.Z(), ty, t)
    ensures Fits(old(dest.Now()), dest.Z(), Inflated(ty, Deep(old(dest.Now()).mem, ty, t))) ==> ok
    decreases ty, 1
  {
    hide Step, WellFormed, WellFormedElems, Deep, Inflated;
    match ty
    case Scalar =>
      StepTrivial(dest.Now(), dest.Z(), ty, t);
      ok := true;
    case Unit =>
      StepTrivial(dest.Now(), dest.Z(), ty, t);
      ok := true;
    case Pack(h, tl) =>
      ok := PreparePackInplace(dest, h, tl, t);
    case Tensor(r, e) =>
      ok := PrepareTensorInplace(dest, r, e, t);
  }

  method PreparePackInplace(dest: PrepareCopydownState, h: Ty, tl: Ty, t: nat) returns (ok: bool)
    requires dest.Valid()
    requires dest.startOfDestination <= t && Home(Pack(h, tl), t, dest.alloc.top, dest.alloc.maxSize)
    requires WellFormed(dest.alloc.mem[..], Pack(h, tl), t, dest.startOfDestination, dest.alloc.top)
    modifies dest`subobjectDestination, dest.alloc`top, dest.alloc`peak, dest.alloc.mem
    ensures ok ==> dest.Valid() && Step(old(dest.Now()), dest.Now(), dest.Z(), Pack(h, tl), t)
    ensures Fits(old(dest.Now()), dest.Z(), Inflated(Pack(h, tl), Deep(old(dest.Now()).mem, Pack(h, tl), t))) ==> ok
    decreases Pack(h, tl), 0
  {
    hide Step, WellFormed, Deep, Inflated, Fits;
    ghost var s, z := dest.Now(), dest.Z();
    PackParts(s, z, h, tl, t);
    ok := PrepareCopydownInplace(dest, h, t);
    if !ok { return; }
    ghost var s1 := dest.Now();
    StepUse(s, s1, z, h, tl, t);
    ok := PrepareCopydownInplace(dest, tl, t + Sizeof(h));
    if ok { StepPack(s, s1, dest.Now(), z, h, tl, t); }
  }

  lemma {:induction false} PackParts(s: Stage, z: Zone, h: Ty, t: Ty, a: nat)
    requires WellFormed(s.mem, Pack(h, t), a, z.start, s.top) && Home(Pack(h, t), a, s.top, z.capacity)
    ensures WellFormed(s.mem, h, a, z.start, s.top) && Home(h, a, s.top, z.capacity)
    ensures WellFormed(s.mem, t, a + Sizeof(h), z.start, s.top) && Home(t, a + Sizeof(h), s.top, z.capacity)
    ensures Fits(s, z, Inflated(Pack(h, t), Deep(s.mem, Pack(h, t), a))) ==> Fits(s, z, Inflated(h, Deep(s.mem, h, a)))
  {
    hide WellFormed, Deep, Inflated;
    WellFormedPack(s.mem, h, t, a, z.start, s.top);
    InflatedPack(s.mem, h, t, a);
  }

  /** What preparing the head leaves for the tail. */
  lemma {:induction false} StepUse(s: Stage, s1: Stage, z: Zone, h: Ty, t: Ty, a: nat)
    requires Step(s, s1, z, h, a)
    requires WellFormed(s.mem, t, a + Sizeof(h), z.start, s.top) && Home(t, a + Sizeof(h), s.top, z.capacity)
    ensures WellFormed(s1.mem, t, a + Sizeof(h), z.start, s1.top) && Home(t, a + Sizeof(h), s1.top, z.capacity)
    ensures Fits(s, z, Inflated(Pack(h, t), Deep(s.mem, Pack(h, t), a))) ==>
              Fits(s1, z, Inflated(t, Deep(s1.mem, t, a + Sizeof(h))))
    ensures s.top <= s1.top && s.dest <= s1.dest
  {
    hide Keeps, Frame, Deep, WellFormed, Prepared, Inflated;
    KeepsUse(s, s1, z, t, a + Sizeof(h));
    InflatedPack(s.mem, h, t, a);
  }

  method PrepareTensorInplace(dest: PrepareCopydownState, r: nat, e: Ty, t: nat) returns (ok: bool)
    requires dest.Valid()
    requires dest.startOfDestination <= t && Home(Tensor(r, e), t, dest.alloc.top, dest.alloc.maxSize)
    requires WellFormed(dest.alloc.mem[..], Tensor(r, e), t, dest.startOfDestination, dest.alloc.top)
    modifies dest`subobjectDestination, dest.alloc`top, dest.alloc`peak, dest.alloc.mem
    ensures ok ==> dest.Valid() && Step(old(dest.Now()), dest.Now(), dest.Z(), Tensor(r, e), t)
    ensures Fits(old(dest.Now()), dest.Z(), Inflated(Tensor(r, e), Deep(old(dest.Now()).mem, Tensor(r, e), t))) ==> ok
    decreases e, 3
  {
    hide Step, WellFormed, WellFormedElems, Deep, DeepElems, Inflated, InflatedElems, Fits, MovedAside, ElemSteps,
      NumElements, Aligned;
    ghost var s, z := dest.Now(), dest.Z();
    var alloc := dest.alloc;
    HandleParts(s.mem, r, e, t, z.start, s.top);
    InflatedAligned(Tensor(r, e), Deep(s.mem, Tensor(r, e), t));
    if alloc.mem[t].data < dest.startOfDestination {
      // The source asserts here that data below the mark does not overlap the destination.
      var overlaps := MemoryOverlaps(dest.startOfDestination, dest.subobjectDestination, alloc.mem, Tensor(r, e), t,
                                     dest.startOfDestination, alloc.top);
      assert !overlaps by { BelowNeverOverlaps(s.mem, r, e, t, z.start, s.top, s.dest); }
      AlignedSum(s.dest, Inflated(Tensor(r, e), Deep(s.mem, Tensor(r, e), t)));
      var bytes := InflatedBytes(alloc.mem, Tensor(r, e), t, dest.startOfDestination, alloc.top);
      dest.subobjectDestination := dest.subobjectDestination + bytes;
      StepBelow(s, dest.Now(), z, r, e, t);
      ok := true;
    } else {
      FitsPart(s, z, r, e, t);
      ok := MoveAside(dest, r, e, t);
      if !ok { return; }
      ghost var s1 := dest.Now();
      AsideParts(s, s1, z, r, e, t);
      var tdata, n := alloc.mem[t].data, NumElements(alloc.mem[t].shape);
      ok := PrepareElements(dest, e, tdata, n);
      if ok { StepTensor(s, s1, dest.Now(), z, r, e, t); }
    }
  }

  /** Allocates `size` bytes that do not lie before `destination`. */
  method AllocateBeyond(alloc: Allocator, destination: nat, size: nat) returns (ok: bool, storage: nat)
    requires alloc.Valid() && Aligned(destination)
    modifies alloc`top, alloc`peak
    ensures ok ==> alloc.Valid() && storage == Max(old(alloc.top), destination) && alloc.top == storage + Padded(size)
    ensures (destination < REQUEST_LIMIT + old(alloc.top) && size < REQUEST_LIMIT &&
      Max(old(alloc.top), destination) + Padded(size) < alloc.maxSize) ==> ok
  {
    if alloc.top < destination {
      assert Padded(destination - alloc.top) == destination - alloc.top;
      // Make sure that the copy does not land in a place that is still in the way.
      ok, storage := alloc.Allocate(destination - alloc.top);
      if !ok { return; }
    }
    ok, storage := alloc.Allocate(size);
  }

  /** Moves the data of the tensor handle at `t` out of the way of earlier destinations, then
      accounts for the destination of that data. */
  method MoveAside(dest: PrepareCopydownState, r: nat, e: Ty, t: nat) returns (ok: bool)
    requires dest.Valid()
    requires dest.startOfDestination <= t && Home(Tensor(r, e), t, dest.alloc.top, dest.alloc.maxSize)
    requires WellFormed(dest.alloc.mem[..], Tensor(r, e), t, dest.startOfDestination, dest.alloc.top)
    requires dest.startOfDestination <= dest.alloc.mem[t].data
    modifies dest`subobjectDestination, dest.alloc`top, dest.alloc`peak, dest.alloc.mem
    ensures ok ==> dest.Valid() && MovedAside(old(dest.Now()), dest.Now(), dest.Z(), r, e, t)
    ensures Fits(old(dest.Now()), dest.Z(), Padded(Span(Sizeof(e), NumElements(old(dest.alloc.mem[t]).shape)))) ==> ok
  {
    hide WellFormed, WellFormedElems, Deep, DeepElems, Inflated, InflatedElems, Keeps, Frame, NumElements, Span,
      MovedAside, Blocks, Aligned, Padded, ElemBlocks;
    ghost var s, z := dest.Now(), dest.Z();
    HandleParts(s.mem, r, e, t, z.start, s.top);
    assert t < s.top || z.capacity <= t;
    hide Sizeof, Home, Copied;
    var alloc := dest.alloc;
    var sourceData, size := alloc.mem[t].data, Span(Sizeof(e), NumElements(alloc.mem[t].shape));
    AlignedSum(dest.subobjectDestination, Padded(size));
    ok := true;
    if sourceData < dest.subobjectDestination {
      var storage;
      ok, storage := CopyAside(alloc, t, size, dest.subobjectDestination);
      if !ok { return; }
      dest.subobjectDestination := dest.subobjectDestination + Padded(size);
      AsideByRedirect(s, dest.Now(), z, r, e, t, storage, size);
    } else {
      dest.subobjectDestination := dest.subobjectDestination + Padded(size);
      AsideInPlace(s, dest.Now(), z, r, e, t, size);
    }
  }

  /** Redirects the handle at `t` to a copy of its data that does not lie before `destination`. */
  method CopyAside(alloc: Allocator, t: nat, size: nat, destination: nat) returns (ok: bool, storage: nat)
    requires alloc.Valid() && Aligned(destination) && t < alloc.mem.Length && alloc.mem[t].Handle?
    requires alloc.mem[t].data + size <= alloc.top
    modifies alloc`top, alloc`peak, alloc.mem
    ensures ok ==> alloc.Valid() && storage == Max(old(alloc.top), destination) && alloc.top == storage + Padded(size)
    ensures ok ==> storage + size <= alloc.mem.Length
    ensures ok ==> var m :=
      old(alloc.mem[..]); alloc.mem[..] == Copied(m[t := m[t].(data := storage)], storage, m[t].data, size)
    ensures (destination < REQUEST_LIMIT + old(alloc.top) && size < REQUEST_LIMIT &&
      Max(old(alloc.top), destination) + Padded(size) < alloc.maxSize) ==> ok
  {
    hide Copied, Padded, Aligned;
    ghost var m := alloc.mem[..];
    var mem, handle := alloc.mem, alloc.mem[t];
    ok, storage := AllocateBeyond(alloc, destination, size);
    if !ok { return; }
    mem[t] := handle.(data := storage);
    assert mem[..] == m[t := m[t].(data := storage)];
    MemCpy(mem, storage, handle.data, size);
  }

  lemma {:induction false} AsideByRedirect(s: Stage, s1: Stage, z: Zone, r: nat, e: Ty, p: nat, storage: nat, size: nat)
    requires z.start <= s.top && storage == s.High() && z.capacity <= |s.mem|
    requires s1.top == storage + Padded(size) <= z.capacity
    requires z.start <= p < |s.mem| && (p < s.top || z.capacity <= p)
    requires s.mem[p].Handle? && s.mem[p].elem == e && z.start <= s.mem[p].data
    requires size == Span(Sizeof(e), NumElements(s.mem[p].shape)) && s.mem[p].data + size <= s.top
    requires storage + size <= |s.mem|
    requires s1.mem == Copied(s.mem[p := s.mem[p].(data := storage)], storage, s.mem[p].data, size)
    requires s1.dest == s.dest + Padded(size)
    ensures MovedAside(s, s1, z, r, e, p)
  {
    hide Keeps, Frame, NumElements, Span, Sizeof, Redirected;
    var move := storage - s.mem[p].data;
    IsRedirected(s, s1, z, p, storage, size);
    hide Copied;
    RedirectGivesKeeps(s, s1, z, p, move);
    RedirectFrame(s, s1, z, p, move, r);
  }

  lemma {:induction false} IsRedirected(s: Stage, s1: Stage, z: Zone, p: nat, storage: nat, size: nat)
    requires z.start <= s.top <= storage && z.capacity <= |s.mem| && storage + size <= s1.top <= z.capacity
    requires z.start <= p < |s.mem| && (p < s.top || z.capacity <= p) && s.mem[p].Handle? && z.start <= s.mem[p].data
    requires size == Span(Sizeof(s.mem[p].elem), NumElements(s.mem[p].shape)) && s.mem[p].data + size <= s.top
    requires s1.mem == Copied(s.mem[p := s.mem[p].(data := storage)], storage, s.mem[p].data, size)
    ensures Redirected(s.mem, s1.mem, p, storage - s.mem[p].data, z.start, s.top, s1.top, z.capacity)
    ensures s1.mem[p] == s.mem[p].(data := storage)
  {
    hide NumElements, Span, Sizeof;
    var m, m1, d := s.mem, s1.mem, s.mem[p].data;
    var m0 := m[p := m[p].(data := storage)];
    forall q {:trigger m[q]} | d <= q < d + size && q < |m|
      ensures 0 <= q + (storage - d) < |m1| && m1[q + (storage - d)] == if q == p then m1[p] else m[q]
    {
      assert m1[q + (storage - d)] == m0[q];
    }
    forall q {:trigger m[q]} | 0 <= q < |m| && (q < s.top || z.capacity <= q) && q != p
      ensures m1[q] == m[q]
    {
      assert m1[q] == m0[q];
    }
  }

  lemma {:induction false} AsideInPlace(s: Stage, s1: Stage, z: Zone, r: nat, e: Ty, p: nat, size: nat)
    requires z.start <= s.top <= z.capacity
    requires z.start <= p < |s.mem| && (p < s.top || z.capacity <= p)
    requires s.mem[p].Handle? && s.mem[p].elem == e && z.start <= s.mem[p].data && s.dest <= s.mem[p].data
    requires size == Span(Sizeof(e), NumElements(s.mem[p].shape)) && s1 == s.(dest := s.dest + Padded(size))
    ensures MovedAside(s, s1, z, r, e, p)
  {
    hide Keeps, Frame, NumElements, Span, Sizeof;
    KeepsSame(s, s1, z);
    FrameSame(s, s1, z, Tensor(r, e).Depth(), p, p + Sizeof(Tensor(r, e)));
  }

  lemma {:induction false} FitsPart(s: Stage, z: Zone, r: nat, e: Ty, t: nat)
    requires WellFormed(s.mem, Tensor(r, e), t, z.start, s.top)
    ensures t < |s.mem| && s.mem[t].Handle?
    ensures Fits(s, z, Inflated(Tensor(r, e), Deep(s.mem, Tensor(r, e), t))) ==>
      Fits(s, z, Padded(Span(Sizeof(e), NumElements(s.mem[t].shape))))
  {
    hide WellFormed, WellFormedElems, Deep, DeepElems, Inflated, InflatedElems, NumElements, Sizeof, Span, Blocks,
      Padded;
    HandleParts(s.mem, r, e, t, z.start, s.top);
  }

  /** What moving a tensor's data aside leaves for its elements. */
  lemma {:induction false} AsideParts(s: Stage, s1: Stage, z: Zone, r: nat, e: Ty, t: nat)
    requires WellFormed(s.mem, Tensor(r, e), t, z.start, s.top) && Home(Tensor(r, e), t, s.top, z.capacity)
    requires MovedAside(s, s1, z, r, e, t)
    ensures t < |s1.mem| && s1.mem[t].Handle? && z.start <= s1.mem[t].data
    ensures var d, n := s1.mem[t].data, NumElements(s1.mem[t].shape);
      && WellFormedElems(s1.mem, e, d, n, z.start, s1.top)
      && (Fits(s, z, Inflated(Tensor(r, e), Deep(s.mem, Tensor(r, e), t))) ==>
            Fits(s1, z, InflatedElems(e, DeepElems(s1.mem, e, d, n), n)))
  {
    hide WellFormed, WellFormedElems, Deep, DeepElems, Inflated, InflatedElems, Keeps, Frame, NumElements, Sizeof,
      Span, Blocks, Home, Padded;
    KeepsUse(s, s1, z, Tensor(r, e), t);
    HandleParts(s.mem, r, e, t, z.start, s.top);
    HandleParts(s1.mem, r, e, t, z.start, s1.top);
  }

  method PrepareElements(dest: PrepareCopydownState, e: Ty, tdata: nat, n: nat) returns (ok: bool)
    requires dest.Valid() && dest.startOfDestination <= tdata
    requires WellFormedElems(dest.alloc.mem[..], e, tdata, n, dest.startOfDestination, dest.alloc.top)
    modifies dest`subobjectDestination, dest.alloc`top, dest.alloc`peak, dest.alloc.mem
    ensures ok ==> dest.Valid()
    ensures ok ==>
      ElemSteps(old(dest.Now()), dest.Now(), dest.Z(), e, DeepElems(old(dest.Now()).mem, e, tdata, n), tdata, n)
    ensures Fits(old(dest.Now()), dest.Z(), InflatedElems(e, DeepElems(old(dest.Now()).mem, e, tdata, n), n)) ==> ok
    decreases e, 2
  {
    hide Step, WellFormed, WellFormedElems, Deep, DeepElems, Inflated, InflatedElems, Sizeof, ElemSteps, Fits,
      ElemAt, Home;
    ghost var s, z := dest.Now(), dest.Z();
    ghost var vs := DeepElems(s.mem, e, tdata, n);
    ElemStepsStart(s, z, e, vs, tdata);
    var i := 0;
    while i < n
      invariant 0 <= i <= n
      invariant dest.Valid() && ElemSteps(s, dest.Now(), z, e, vs, tdata, i)
    {
      ghost var s1 := dest.Now();
      ElemStepsUse(s, s1, z, e, vs, tdata, i);
      ok := PrepareCopydownInplace(dest, e, ElemAt(e, tdata, i));
      if !ok { return; }
      StepElem(s, s1, dest.Now(), z, e, vs, tdata, i);
      i := i + 1;
    }
    ok := true;
  }

  /** What the first `i` elements leave for element `i`. */
  lemma {:induction false} ElemStepsUse(s: Stage, s1: Stage, z: Zone, e: Ty, vs: seq<Val>, d: nat, i: nat)
    requires i < |vs| && z.start <= d && z.start <= s.top <= z.capacity
    requires WellFormedElems(s.mem, e, d, |vs|, z.start, s.top) && vs == DeepElems(s.mem, e, d, |vs|)
    requires ElemSteps(s, s1, z, e, vs, d, i)
    ensures z.start <= ElemAt(e, d, i)
    ensures WellFormed(s1.mem, e, ElemAt(e, d, i), z.start, s1.top) && Home(e, ElemAt(e, d, i), s1.top, z.capacity)
    ensures Fits(s, z, InflatedElems(e, vs, |vs|)) ==> Fits(s1, z, Inflated(e, Deep(s1.mem, e, ElemAt(e, d, i))))
  {
    hide WellFormed, WellFormedElems, Deep, DeepElems, Inflated, InflatedElems, Prepared, Keeps, Frame, Sizeof, Span;
    ElemOf(s.mem, e, d, |vs|, i, z.start, s.top);
    InflatedMonotone(e, vs, i, |vs|);
    KeepsUse(s, s1, z, e, ElemAt(e, d, i));
  }
}
