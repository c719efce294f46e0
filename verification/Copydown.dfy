/** `copydown`: a deep copy compacted down to a mark of the allocator, in place. */
module Compaction {
  import opened RuntimeMemory
  import opened CopydownLemmas
  import opened Footprint
  import opened PrepareLemmas
  import opened MoveLemmas
  import opened Allocation
  import opened PreparePass
  import opened MovePass

  /** Only the object at `a` and the buffer above the mark may differ from before. */
  ghost predicate Elsewhere(m: Memory, m': Memory, mark: nat, capacity: nat, a: nat, b: nat) {
    |m'| == |m| && Carried(m, m', 0, mark, 0) && Carried(m, m', capacity, a, 0) && Carried(m, m', b, |m|, 0)
  }

  /** Readies the object at `val` for `CopydownByMemmove`. */
  method PrepareCopydown(alloc: Allocator, mark: nat, ty: Ty, val: nat) returns (ok: bool)
    requires alloc.Valid() && mark <= alloc.top && Aligned(mark)
    requires alloc.maxSize <= val && val + Sizeof(ty) <= alloc.mem.Length
    requires WellFormed(alloc.mem[..], ty, val, mark, alloc.top)
    modifies alloc`top, alloc`peak, alloc.mem
    ensures ok ==> alloc.Valid() && old(alloc.top) <= alloc.top
    ensures ok ==> WellFormed(alloc.mem[..], ty, val, mark, alloc.top) && Prepared(alloc.mem[..], ty, val, mark, mark)
    ensures ok ==> Deep(alloc.mem[..], ty, val) == Deep(old(alloc.mem[..]), ty, val)
    ensures ok ==> Elsewhere(old(alloc.mem[..]), alloc.mem[..], mark, alloc.maxSize, val, val + Sizeof(ty))
    ensures var size := Inflated(ty, Deep(old(alloc.mem[..]), ty, val));
      size < REQUEST_LIMIT && old(alloc.top) + size < alloc.maxSize ==> ok
    // Temporary copies never need more room than an inflated copy would.
    ensures ok ==> alloc.top <= old(alloc.top) + Inflated(ty, Deep(old(alloc.mem[..]), ty, val))
  {
    hide WellFormed, Deep, Inflated, Step, Prepared, Sizeof, Elsewhere;
    var dest := new PrepareCopydownState(mark, alloc);
    ghost var s, z := dest.Now(), dest.Z();
    ok := PrepareCopydownInplace(dest, ty, val);
    if ok { StepOutcome(s, dest.Now(), z, ty, val); }
  }

  lemma {:induction false} StepOutcome(s: Stage, s1: Stage, z: Zone, ty: Ty, a: nat)
    requires Step(s, s1, z, ty, a) && WellFormed(s.mem, ty, a, z.start, s.top) && z.start == s.dest <= s.top
    requires z.capacity <= a
    ensures s.top <= s1.top <= s.top + Inflated(ty, Deep(s.mem, ty, a))
    ensures WellFormed(s1.mem, ty, a, z.start, s1.top) && Prepared(s1.mem, ty, a, z.start, z.start)
    ensures Deep(s1.mem, ty, a) == Deep(s.mem, ty, a)
    ensures Elsewhere(s.mem, s1.mem, z.start, z.capacity, a, a + Sizeof(ty))
  {
    hide WellFormed, Deep, Inflated, Prepared, Keeps, Sizeof;
    KeepsUse(s, s1, z, ty, a);
  }

  method CopydownByMemmove(alloc: Allocator, mark: nat, ty: Ty, val: nat) returns (ok: bool)
    requires alloc.Valid() && mark <= alloc.top && Aligned(mark)
    requires alloc.maxSize <= val && val + Sizeof(ty) <= alloc.mem.Length
    requires WellFormed(alloc.mem[..], ty, val, mark, alloc.top) && Prepared(alloc.mem[..], ty, val, mark, mark)
    modifies alloc`top, alloc`peak, alloc.mem
    ensures ok ==> alloc.Valid() && Moved(old(alloc.mem[..]), mark, alloc.mem[..], alloc.top, ty, val)
    ensures var size := Inflated(ty, Deep(old(alloc.mem[..]), ty, val));
      size < REQUEST_LIMIT && mark + size < alloc.maxSize ==> ok
  {
    hide WellFormed, Deep, Inflated, Prepared, Sizeof, Moved;
    ghost var z, high := Zone(mark, alloc.maxSize), alloc.top;
    alloc.Reset(mark);
    ok := CopydownByMemmoveInplace(alloc, ty, val, z, high);
  }

  /** Copies the object of type `ty` at `val` down to the mark; the object that refers to the copy
      is stored at `ret`. The object itself may refer to memory that overlaps its copy. */
  method Copydown(alloc: Allocator, mark: nat, ty: Ty, val: nat, ret: nat) returns (ok: bool)
    requires alloc.Valid() && mark <= alloc.top && Aligned(mark)
    requires WellFormed(alloc.mem[..], ty, val, mark, alloc.top)
    requires Home(ty, val, alloc.top, alloc.maxSize) && val + Sizeof(ty) <= alloc.mem.Length
    requires alloc.maxSize <= ret && ret + Sizeof(ty) <= alloc.mem.Length
    requires val + Sizeof(ty) <= ret || ret + Sizeof(ty) <= val
    modifies alloc`top, alloc`peak, alloc.mem
    // The result is deep-equal to the original, ...
    ensures ok ==> Deep(alloc.mem[..], ty, ret) == Deep(old(alloc.mem[..]), ty, val)
    // ... laid out as an inflated copy from the mark to the new top, its blocks pairwise disjoint, ...
    ensures ok ==> alloc.Valid() && alloc.top == mark + Inflated(ty, Deep(old(alloc.mem[..]), ty, val))
    ensures ok ==> Laid(alloc.mem[..], ty, ret, mark)
    ensures ok ==> Successive(Blocks(alloc.mem[..], ty, ret), mark, alloc.top)
    // ... and nothing below the mark or outside the buffer has changed, except the result itself.
    ensures ok ==> Elsewhere(old(alloc.mem[..]), alloc.mem[..], mark, alloc.maxSize, ret, ret + Sizeof(ty))
    // It cannot run out of memory if an inflated copy above the top would not.
    ensures var size := Inflated(ty, Deep(old(alloc.mem[..]), ty, val));
      size < REQUEST_LIMIT && old(alloc.top) + size < alloc.maxSize ==> ok
  {
    hide WellFormed, Deep, Inflated, Prepared, Sizeof, Moved, Elsewhere, Laid, Blocks, Successive, Home, Copied;
    ghost var m := alloc.mem[..];
    MemCpy(alloc.mem, ret, val, Sizeof(ty));
    ghost var m1 := alloc.mem[..];
    ArgumentCopied(m, m1, ty, val, ret, mark, alloc.top, alloc.maxSize);
    ok := PrepareCopydown(alloc, mark, ty, ret);
    if !ok { return; }
    ghost var m2 := alloc.mem[..];
    ok := CopydownByMemmove(alloc, mark, ty, ret);
    if ok {
      MovedOutcome(m, m1, m2, alloc.mem[..], mark, alloc.top, alloc.maxSize, ty, ret);
    }
  }

  lemma {:induction false} ArgumentCopied(m: Memory, m1: Memory, ty: Ty, val: nat, ret: nat, mark: nat, top: nat,
      capacity: nat)
    requires WellFormed(m, ty, val, mark, top) && mark <= top <= capacity <= ret
    requires val + Sizeof(ty) <= |m| && ret + Sizeof(ty) <= |m| && m1 == Copied(m, ret, val, Sizeof(ty))
    ensures WellFormed(m1, ty, ret, mark, top) && Deep(m1, ty, ret) == Deep(m, ty, val)
    ensures Elsewhere(m, m1, mark, capacity, ret, ret + Sizeof(ty))
  {
    hide WellFormed, Deep, Sizeof, Elsewhere;
    var size := Sizeof(ty);
    CopiedCells(m, m1, val, ret, size, top, mark, capacity);
    CarryKeeps(m, m1, ty, val, ret - val, mark, top);
  }

  lemma {:induction false} CopiedCells(m: Memory, m1: Memory, val: nat, ret: nat, size: nat, top: nat, mark: nat,
      capacity: nat)
    requires mark <= top <= capacity <= ret
    requires val + size <= |m| && ret + size <= |m| && m1 == Copied(m, ret, val, size)
    ensures Carried(m, m1, 0, top, 0) && Carried(m, m1, val, val + size, ret - val)
    ensures Elsewhere(m, m1, mark, capacity, ret, ret + size)
  {
    forall q {:trigger m[q]} | val <= q < val + size && q < |m|
      ensures 0 <= q + (ret - val) < |m1| && m1[q + (ret - val)] == m[q]
    {
    }
    forall q {:trigger m[q]} | 0 <= q < |m| && (q < ret || ret + size <= q) ensures m1[q] == m[q] {}
  }

  lemma {:induction false} MovedOutcome(m: Memory, m1: Memory, m2: Memory, m3: Memory, mark: nat, top: nat,
      capacity: nat, ty: Ty, ret: nat)
    requires Elsewhere(m, m1, mark, capacity, ret, ret + Sizeof(ty))
    requires Elsewhere(m1, m2, mark, capacity, ret, ret + Sizeof(ty))
    requires Moved(m2, mark, m3, top, ty, ret) && top <= capacity <= ret
    ensures Elsewhere(m, m3, mark, capacity, ret, ret + Sizeof(ty))
    ensures Deep(m3, ty, ret) == Deep(m2, ty, ret) && Laid(m3, ty, ret, mark)
      && top == mark + Inflated(ty, Deep(m2, ty, ret))
    ensures Successive(Blocks(m3, ty, ret), mark, top)
  {
    hide Deep, Inflated, Sizeof, Laid, Blocks, Successive;
    LaidBlocks(m3, ty, ret, mark);
  }
}
