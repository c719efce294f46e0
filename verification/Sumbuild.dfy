/** `sumbuild`: the sum of a body over a box of indices, accumulated in place. */
module Sumbuild {
  import opened RuntimeMemory
  import opened CopydownLemmas
  import opened Footprint
  import opened MoveLemmas
  import opened Allocation
  import opened Compaction
  import opened InplaceAddition
  import opened TensorIndex

  /** What a call of the body does to memory, its result being left at a fixed place on the stack. */
  datatype Outcome = Aborted | Returned(mem: Memory, top: nat)

  type Body = (Memory, nat, Index) -> Outcome

  /** The places of one `sumbuild`: memory at entry, the type and place of the accumulated result, the
      place of the body's result, the mark at entry and the end of the buffer. */
  datatype Places = Places(env: Memory, ty: Ty, ret: nat, tmp: nat, base: nat, capacity: nat) {
    ghost predicate Valid() {
      && base <= capacity <= ret && capacity <= tmp
      && (ret + Sizeof(ty) <= tmp || tmp + Sizeof(ty) <= ret)
      && ret + Sizeof(ty) <= |env| && tmp + Sizeof(ty) <= |env|
    }
  }

  /** Memory may differ from that at entry only above the mark and where the results are. */
  ghost predicate EnvKept(m: Memory, p: Places) {
    && |m| == |p.env| && Carried(p.env, m, 0, p.base, 0)
    && forall q {:trigger p.env[q]} | p.capacity <= q < |p.env| &&
         !(p.ret <= q < p.ret + Sizeof(p.ty)) && !(p.tmp <= q < p.tmp + Sizeof(p.ty)) :: m[q] == p.env[q]
  }

  /** A call of the body at `index` left the value `v`: it allocated above `top`, and its result refers
      to what existed at entry or to its own allocations, but not to what lies in between. */
  ghost predicate CallDone(m: Memory, top: nat, m': Memory, top': nat, p: Places, v: Val) {
    && |m'| == |m| && top <= top' <= p.capacity && Aligned(top')
    && Carried(m, m', 0, top, 0) && Carried(m, m', p.capacity, p.tmp, 0) && Carried(m, m', p.tmp + Sizeof(p.ty), |m|, 0)
    && WellFormed(m', p.ty, p.tmp, p.base, top') && Deep(m', p.ty, p.tmp) == v
    && Apart(Blocks(m', p.ty, p.tmp), p.base, top)
  }

  /** The body computes `F`, in whatever memory it is called that agrees with the one at entry. */
  ghost predicate Computes(f: Body, F: Index -> Val, p: Places) {
    forall m: Memory, top: nat, index: Index {:trigger f(m, top, index)} |
      EnvKept(m, p) && p.base <= top <= p.capacity && Aligned(top) && f(m, top, index).Returned? ::
      CallDone(m, top, f(m, top, index).mem, f(m, top, index).top, p, F(index))
  }

  // ---------------------------------------------------------------- the specification

  /** All indices of the box that extend `higher`, in row-major order. */
  ghost function RowMajor(higher: Index, size: Index): seq<Index>
    requires |higher| <= |size|
    decreases |size| - |higher|, 1, 0
  {
    if |higher| == |size| then [higher] else RowMajorUpTo(higher, size, size[|higher|])
  }

  ghost function RowMajorUpTo(higher: Index, size: Index, k: nat): seq<Index>
    requires |higher| < |size|
    decreases |size| - |higher|, 0, k
  {
    if k == 0 then [] else RowMajorUpTo(higher, size, k - 1) + RowMajor(higher + [k - 1], size)
  }

  /** `v` plus the values of `F` at the indices, added from left to right; shapes must agree. */
  ghost function SumFrom(v: Val, F: Index -> Val, indices: seq<Index>): Val {
    if indices == [] then v else
      var n := |indices| - 1;
      var sum, w := SumFrom(v, F, indices[..n]), F(indices[n]);
      if SameShape(sum, w) then AddVal(sum, w) else sum
  }

  /** At every addition the shapes agree. */
  ghost predicate Summable(v: Val, F: Index -> Val, indices: seq<Index>) {
    indices != [] ==>
      var n := |indices| - 1;
      Summable(v, F, indices[..n]) && SameShape(SumFrom(v, F, indices[..n]), F(indices[n]))
  }

  lemma {:induction false} SumConcat(v: Val, F: Index -> Val, xs: seq<Index>, ys: seq<Index>)
    ensures SumFrom(v, F, xs + ys) == SumFrom(SumFrom(v, F, xs), F, ys)
    ensures Summable(v, F, xs + ys) <==> Summable(v, F, xs) && Summable(SumFrom(v, F, xs), F, ys)
  {
    hide SameShape, AddVal;
    if ys == [] {
      assert xs + ys == xs;
    } else {
      var n := |ys| - 1;
      assert (xs + ys)[..|xs + ys| - 1] == xs + ys[..n];
      SumConcat(v, F, xs, ys[..n]);
    }
  }

  /** No call of the body at this top stops the program. */
  ghost predicate Steady(f: Body, p: Places, top: nat) {
    forall m: Memory, index: Index {:trigger f(m, top, index)} | EnvKept(m, p) :: f(m, top, index).Returned?
  }

  /** The first call returns, and leaves room for an inflated copy of its result. */
  ghost predicate Starts(f: Body, F: Index -> Val, p: Places, index: Index) {
    && Inflated(p.ty, F(index)) < REQUEST_LIMIT
    && forall m: Memory {:trigger f(m, p.base, index)} | EnvKept(m, p) ::
         f(m, p.base, index).Returned? && f(m, p.base, index).top + Inflated(p.ty, F(index)) < p.capacity
  }

  lemma {:induction false} SteadyCall(f: Body, p: Places, top: nat, m: Memory, index: Index)
    requires Steady(f, p, top) && EnvKept(m, p)
    ensures f(m, top, index).Returned?
  {
    hide EnvKept;
  }

  lemma {:induction false} StartsCall(f: Body, F: Index -> Val, p: Places, m: Memory, index: Index)
    requires Starts(f, F, p, index) && EnvKept(m, p)
    ensures f(m, p.base, index).Returned? && f(m, p.base, index).top + Inflated(p.ty, F(index)) < p.capacity
    ensures Inflated(p.ty, F(index)) < REQUEST_LIMIT
  {
    hide EnvKept, Inflated;
  }

  /** With a nonempty box the program runs to the end if its calls do and its shapes agree. */
  ghost predicate RunsFrom(f: Body, F: Index -> Val, p: Places, first: Index) {
    Starts(f, F, p, first) && Steady(f, p, p.base + Inflated(p.ty, F(first)))
  }

  lemma {:induction false} SummablePrefix(v: Val, F: Index -> Val, higher: Index, size: Index, i: nat, n: nat)
    requires |higher| < |size| && i < n && Summable(v, F, RowMajorUpTo(higher, size, n))
    ensures Summable(v, F, RowMajorUpTo(higher, size, i)) && Summable(v, F, RowMajorUpTo(higher, size, i + 1))
    ensures Summable(SumFrom(v, F, RowMajorUpTo(higher, size, i)), F, RowMajor(higher + [i], size))
    decreases n
  {
    hide SumFrom, Summable, RowMajor;
    if i < n - 1 {
      SumConcat(v, F, RowMajorUpTo(higher, size, n - 1), RowMajor(higher + [n - 1], size));
      SummablePrefix(v, F, higher, size, i, n - 1);
    } else {
      SumConcat(v, F, RowMajorUpTo(higher, size, i), RowMajor(higher + [i], size));
    }
  }

  // ---------------------------------------------------------------- the state between calls

  /** The result so far is `v`, laid out from the mark up to the top. */
  ghost predicate Holding(m: Memory, top: nat, p: Places, v: Val) {
    && p.Valid() && EnvKept(m, p)
    && Laid(m, p.ty, p.ret, p.base) && Deep(m, p.ty, p.ret) == v
    && top == p.base + Inflated(p.ty, v) <= p.capacity
  }

  method CallBody(alloc: Allocator, f: Body, index: Index, ghost F: Index -> Val, ghost p: Places) returns (ok: bool)
    requires alloc.Valid() && alloc.maxSize == p.capacity && Computes(f, F, p) && EnvKept(alloc.mem[..], p)
    requires p.base <= alloc.top
    modifies alloc`top, alloc`peak, alloc.mem
    ensures ok <==> f(old(alloc.mem[..]), old(alloc.top), index).Returned?
    ensures ok ==> alloc.top == f(old(alloc.mem[..]), old(alloc.top), index).top
    ensures ok ==> alloc.Valid() && CallDone(old(alloc.mem[..]), old(alloc.top), alloc.mem[..], alloc.top, p, F(index))
  {
    hide EnvKept, WellFormed, Deep, Carried, Apart, Blocks, Aligned, Sizeof;
    var outcome := f(alloc.mem[..], alloc.top, index);
    if outcome.Aborted? { return false; }
    forall q | 0 <= q < alloc.mem.Length { alloc.mem[q] := outcome.mem[q]; }
    assert alloc.mem[..] == outcome.mem;
    alloc.top := outcome.top;
    if alloc.top > alloc.peak { alloc.peak := alloc.top; }
    ok := true;
  }

  /** Calls the body and adds its result to the one held, then frees what the call allocated. */
  method AddCall(alloc: Allocator, f: Body, index: Index, ty: Ty, ret: nat, tmp: nat, ghost F: Index -> Val,
      ghost p: Places, ghost v: Val)
      returns (ok: bool)
    requires alloc.Valid() && alloc.maxSize == p.capacity && Computes(f, F, p)
    requires Holding(alloc.mem[..], alloc.top, p, v)
    requires ty == p.ty && ret == p.ret && tmp == p.tmp
    modifies alloc`top, alloc`peak, alloc.mem
    ensures ok ==> alloc.Valid() && alloc.top == old(alloc.top)
    ensures ok ==> SameShape(v, F(index)) && Holding(alloc.mem[..], alloc.top, p, AddVal(v, F(index)))
    ensures Steady(f, p, old(alloc.top)) && SameShape(v, F(index)) ==> ok
  {
    hide Computes, Holding, CallDone, EnvKept, Addable, Added, LaidAdded, Separate, SameShape, AddVal, Deep, Steady;
    ghost var m := alloc.mem[..];
    var mark := alloc.top;
    HoldingFacts(m, mark, p, v);
    if Steady(f, p, mark) { SteadyCall(f, p, mark, m, index); }
    ok := CallBody(alloc, f, index, F, p);
    if !ok { return; }
    ghost var m1, top1 := alloc.mem[..], alloc.top;
    CallAddable(m, mark, m1, top1, p, v, F(index));
    AddableSeparate(m1, ty, ret, tmp, p.base, p.base, top1);
    ok := InplaceAdd(alloc.mem, ty, ret, tmp);
    if !ok { return; }
    AddedStaysLaid(m1, alloc.mem[..], ty, ret, tmp, p.base, p.base, top1);
    AddedHolding(m, mark, m1, top1, alloc.mem[..], p, v, F(index));
    alloc.Reset(mark);
  }

  lemma {:induction false} HoldingFacts(m: Memory, top: nat, p: Places, v: Val)
    requires Holding(m, top, p, v)
    ensures p.Valid() && EnvKept(m, p) && p.base <= top <= p.capacity
  {
    hide EnvKept, Laid, Deep, Inflated, Sizeof;
  }

  /** A call's result shares no memory with the result held. */
  lemma {:induction false} CallAddable(m: Memory, top: nat, m1: Memory, top1: nat, p: Places, v: Val, w: Val)
    requires Holding(m, top, p, v) && CallDone(m, top, m1, top1, p, w)
    ensures Addable(m1, p.ty, p.ret, p.tmp, p.base, p.base, top1)
    ensures Deep(m1, p.ty, p.ret) == v && Deep(m1, p.ty, p.tmp) == w && top <= top1
  {
    hide EnvKept, Laid, Deep, Inflated, Sizeof, Carried, Apart, Blocks, WellFormed, Aligned;
    EnvLength(m, p);
    CallKeepsResult(m, m1, p);
    CarriedPart(m, m1, 0, top, 0, p.base, top);
    LaidKeeps(m, m1, p.ty, p.ret, p.base);
    BlocksBelow(m1, p.ty, p.tmp, p.base, top1);
    BelowApart(Blocks(m1, p.ty, p.tmp), top1, p.ret, p.ret + Sizeof(p.ty));
    IsAddable(m1, p.ty, p.ret, p.tmp, p.base, p.base, top1);
  }

  lemma {:induction false} EnvLength(m: Memory, p: Places)
    requires EnvKept(m, p)
    ensures |m| == |p.env|
  {
    hide Carried;
  }

  lemma {:induction false} CallKeepsResult(m: Memory, m1: Memory, p: Places)
    requires p.Valid() && |m| == |p.env|
    requires Carried(m, m1, p.capacity, p.tmp, 0) && Carried(m, m1, p.tmp + Sizeof(p.ty), |m|, 0)
    ensures Carried(m, m1, p.ret, p.ret + Sizeof(p.ty), 0)
  {
    hide Sizeof, Carried;
    if p.ret + Sizeof(p.ty) <= p.tmp {
      CarriedPart(m, m1, p.capacity, p.tmp, 0, p.ret, p.ret + Sizeof(p.ty));
    } else {
      CarriedPart(m, m1, p.tmp + Sizeof(p.ty), |m|, 0, p.ret, p.ret + Sizeof(p.ty));
    }
  }

  lemma {:induction false} BelowApart(bs: seq<Block>, limit: nat, x: nat, y: nat)
    requires Below(bs, limit) && limit <= x
    ensures Apart(bs, x, y)
  {
    hide Blocks;
  }

  lemma {:induction false} AddedHolding(m: Memory, top: nat, m1: Memory, top1: nat, m2: Memory, p: Places, v: Val,
      w: Val)
    requires Holding(m, top, p, v) && CallDone(m, top, m1, top1, p, w)
    requires Deep(m1, p.ty, p.ret) == v && Deep(m1, p.ty, p.tmp) == w
    requires LaidAdded(m1, m2, p.ty, p.ret, p.tmp, p.base)
    ensures SameShape(v, w) && Holding(m2, top, p, AddVal(v, w))
  {
    hide EnvKept, Laid, Deep, Inflated, Sizeof, Carried, Apart, Blocks, WellFormed, Aligned, OnlyWrote, SameShape,
      AddVal;
    InflatedAdd(p.ty, v, w);
    CallEnvKept(m, top, m1, p);
    WriteEnvKept(m1, m2, top, p);
  }

  lemma {:induction false} CallEnvKept(m: Memory, top: nat, m1: Memory, p: Places)
    requires p.Valid() && EnvKept(m, p) && p.base <= top && |m1| == |m|
    requires Carried(m, m1, 0, top, 0) && Carried(m, m1, p.capacity, p.tmp, 0)
    requires Carried(m, m1, p.tmp + Sizeof(p.ty), |m|, 0)
    ensures EnvKept(m1, p)
  {
    hide Sizeof;
    forall q {:trigger p.env[q]} | 0 <= q < p.base && q < |p.env| ensures m1[q] == p.env[q] {
      assert m[q] == p.env[q];
    }
    forall q {:trigger p.env[q]} | p.capacity <= q < |p.env| &&
      !(p.ret <= q < p.ret + Sizeof(p.ty)) && !(p.tmp <= q < p.tmp + Sizeof(p.ty))
      ensures m1[q] == p.env[q]
    {
      assert m[q] == p.env[q];
    }
  }

  lemma {:induction false} WriteEnvKept(m: Memory, m1: Memory, end: nat, p: Places)
    requires p.Valid() && EnvKept(m, p) && end <= p.capacity
    requires OnlyWrote(m, m1, p.ret, p.ret + Sizeof(p.ty), p.base, end)
    ensures EnvKept(m1, p)
  {
    hide Sizeof;
    forall q {:trigger p.env[q]} | 0 <= q < p.base && q < |p.env| ensures m1[q] == p.env[q] {
      assert m[q] == p.env[q];
    }
    forall q {:trigger p.env[q]} | p.capacity <= q < |p.env| &&
      !(p.ret <= q < p.ret + Sizeof(p.ty)) && !(p.tmp <= q < p.tmp + Sizeof(p.ty))
      ensures m1[q] == p.env[q]
    {
      assert m[q] == p.env[q];
    }
  }

  /** Calls the body for the first time; a copydown turns its result into the one held. */
  method FirstCall(alloc: Allocator, f: Body, index: Index, ty: Ty, ret: nat, tmp: nat, ghost F: Index -> Val,
      ghost p: Places) returns (ok: bool)
    requires alloc.Valid() && alloc.maxSize == p.capacity && Computes(f, F, p) && p.Valid()
    requires EnvKept(alloc.mem[..], p) && alloc.top == p.base && ty == p.ty && ret == p.ret && tmp == p.tmp
    modifies alloc`top, alloc`peak, alloc.mem
    ensures ok ==> alloc.Valid() && Holding(alloc.mem[..], alloc.top, p, F(index))
    ensures Starts(f, F, p, index) ==> ok
  {
    hide Computes, Holding, CallDone, EnvKept, Deep, WellFormed, Laid, Inflated, Elsewhere, Successive, Blocks, Starts;
    ghost var m := alloc.mem[..];
    var mark0 := alloc.top;
    if Starts(f, F, p, index) { StartsCall(f, F, p, m, index); }
    ok := CallBody(alloc, f, index, F, p);
    if !ok { return; }
    ghost var m1, top1 := alloc.mem[..], alloc.top;
    CallFacts(m, mark0, m1, top1, p, F(index));
    ok := Copydown(alloc, mark0, ty, tmp, ret);
    if ok { CopiedHolding(m, m1, top1, alloc.mem[..], alloc.top, p, F(index)); }
  }

  lemma {:induction false} CallFacts(m: Memory, top: nat, m1: Memory, top1: nat, p: Places, v: Val)
    requires CallDone(m, top, m1, top1, p, v) && p.Valid() && EnvKept(m, p)
    ensures top <= top1 && p.ret + Sizeof(p.ty) <= |m1| && p.tmp + Sizeof(p.ty) <= |m1|
    ensures WellFormed(m1, p.ty, p.tmp, p.base, top1) && Deep(m1, p.ty, p.tmp) == v
    ensures Home(p.ty, p.tmp, top1, p.capacity)
  {
    hide Deep, WellFormed, Sizeof, Blocks, Apart, Carried, EnvKept;
    EnvLength(m, p);
  }

  lemma {:induction false} CopiedHolding(m: Memory, m1: Memory, top1: nat, m2: Memory, top2: nat, p: Places, v: Val)
    requires p.Valid() && EnvKept(m, p) && CallDone(m, p.base, m1, top1, p, v)
    requires Elsewhere(m1, m2, p.base, p.capacity, p.ret, p.ret + Sizeof(p.ty))
    requires Laid(m2, p.ty, p.ret, p.base) && Deep(m2, p.ty, p.ret) == v
    requires top2 == p.base + Inflated(p.ty, v) <= p.capacity
    ensures Holding(m2, top2, p, v)
  {
    hide EnvKept, Laid, Deep, Inflated, Sizeof, Apart, Blocks, WellFormed, Aligned;
    CallEnvKept(m, p.base, m1, p);
    ElsewhereEnvKept(m1, m2, p);
  }

  lemma {:induction false} ElsewhereEnvKept(m1: Memory, m2: Memory, p: Places)
    requires p.Valid() && EnvKept(m1, p) && Elsewhere(m1, m2, p.base, p.capacity, p.ret, p.ret + Sizeof(p.ty))
    ensures EnvKept(m2, p)
  {
    hide Sizeof;
    forall q {:trigger p.env[q]} | 0 <= q < p.base && q < |p.env| ensures m2[q] == p.env[q] {
      assert m1[q] == p.env[q];
    }
    forall q {:trigger p.env[q]} | p.capacity <= q < |p.env| &&
      !(p.ret <= q < p.ret + Sizeof(p.ty)) && !(p.tmp <= q < p.tmp + Sizeof(p.ty))
      ensures m2[q] == p.env[q]
    {
      assert m1[q] == p.env[q];
    }
  }

  // ---------------------------------------------------------------- the loops

  method InplaceSumbuild(alloc: Allocator, size: Index, f: Body, higher: Index, ty: Ty, ret: nat, tmp: nat,
      ghost F: Index -> Val, ghost p: Places, ghost v: Val) returns (ok: bool)
    requires |higher| < |size|
    requires alloc.Valid() && alloc.maxSize == p.capacity && Computes(f, F, p)
    requires Holding(alloc.mem[..], alloc.top, p, v)
    requires ty == p.ty && ret == p.ret && tmp == p.tmp
    modifies alloc`top, alloc`peak, alloc.mem
    ensures ok ==> alloc.Valid() && Holding(alloc.mem[..], alloc.top, p, SumFrom(v, F, RowMajor(higher, size)))
    ensures ok ==> Summable(v, F, RowMajor(higher, size)) && alloc.top == old(alloc.top)
    ensures Steady(f, p, old(alloc.top)) && Summable(v, F, RowMajor(higher, size)) ==> ok
    decreases |size| - |higher|
  {
    hide Computes, Holding, SameShape, AddVal, Steady, SumFrom, Summable;
    ghost var sum := v;
    NothingSummed(v, F, higher, size);
    var thisDimension := size[|higher|];
    for i := 0 to thisDimension
      invariant sum == SumFrom(v, F, RowMajorUpTo(higher, size, i)) && Summable(v, F, RowMajorUpTo(higher, size, i))
      invariant alloc.Valid() && Holding(alloc.mem[..], alloc.top, p, sum) && alloc.top == old(alloc.top)
    {
      if Summable(v, F, RowMajor(higher, size)) { SummablePrefix(v, F, higher, size, i, thisDimension); }
      if |higher| + 1 == |size| {
        SummableOne(sum, F, higher + [i], size);
        ok := AddCall(alloc, f, higher + [i], ty, ret, tmp, F, p, sum);
        if !ok { return; }
        SumOne(sum, F, higher + [i], size);
      } else {
        ok := InplaceSumbuild(alloc, size, f, higher + [i], ty, ret, tmp, F, p, sum);
        if !ok { return; }
      }
      SumConcat(v, F, RowMajorUpTo(higher, size, i), RowMajor(higher + [i], size));
      sum := SumFrom(sum, F, RowMajor(higher + [i], size));
    }
    ok := true;
  }

  lemma {:induction false} SumOne(v: Val, F: Index -> Val, index: Index, size: Index)
    requires |index| == |size| && SameShape(v, F(index))
    ensures SumFrom(v, F, RowMajor(index, size)) == AddVal(v, F(index)) && Summable(v, F, RowMajor(index, size))
  {
    hide SameShape, AddVal;
    assert [index][..0] == [];
    assert SumFrom(v, F, []) == v;
  }

  lemma {:induction false} SummableOne(v: Val, F: Index -> Val, index: Index, size: Index)
    requires |index| == |size|
    ensures Summable(v, F, RowMajor(index, size)) <==> SameShape(v, F(index))
  {
    hide SameShape, AddVal;
    assert [index][..0] == [];
    assert SumFrom(v, F, []) == v;
  }

  lemma {:induction false} NothingSummed(v: Val, F: Index -> Val, higher: Index, size: Index)
    requires |higher| < |size|
    ensures SumFrom(v, F, RowMajorUpTo(higher, size, 0)) == v && Summable(v, F, RowMajorUpTo(higher, size, 0))
    ensures RowMajor(higher, size) == RowMajorUpTo(higher, size, size[|higher|])
  {}

  /** The sum over a nonempty list of indices, starting from the value at the first. */
  ghost function SumOver(F: Index -> Val, indices: seq<Index>): Val
    requires indices != []
  {
    SumFrom(F(indices[0]), F, indices[1..])
  }

  ghost predicate AllSummable(F: Index -> Val, indices: seq<Index>)
    requires indices != []
  {
    Summable(F(indices[0]), F, indices[1..])
  }

  method DoSumbuild(alloc: Allocator, size: Index, f: Body, higher: Index, ty: Ty, ret: nat, tmp: nat,
      ghost F: Index -> Val, ghost p: Places) returns (ok: bool)
    requires |higher| < |size|
    requires alloc.Valid() && alloc.maxSize == p.capacity && Computes(f, F, p) && p.Valid()
    requires EnvKept(alloc.mem[..], p) && alloc.top == p.base && ty == p.ty && ret == p.ret && tmp == p.tmp
    modifies alloc`top, alloc`peak, alloc.mem
    ensures ok ==> RowMajor(higher, size) != [] && AllSummable(F, RowMajor(higher, size))
    ensures ok ==> alloc.Valid() && Holding(alloc.mem[..], alloc.top, p, SumOver(F, RowMajor(higher, size)))
    ensures ok ==> alloc.top == p.base + Inflated(ty, F(RowMajor(higher, size)[0]))
    ensures var box := RowMajor(higher, size);
      box != [] && AllSummable(F, box) && RunsFrom(f, F, p, box[0]) ==> ok
    decreases |size| - |higher|
  {
    hide Computes, Holding, SameShape, AddVal, EnvKept, SumFrom, Summable, SumOver, AllSummable, Starts, Steady,
      Inflated, RowMajor, RowMajorUpTo, Sizeof, Aligned;
    var thisDimension := size[|higher|];
    if thisDimension == 0 {
      NoRows(higher, size);
      return false;
    }
    ghost var runs := RowMajor(higher, size) != [] && AllSummable(F, RowMajor(higher, size))
      && RunsFrom(f, F, p, RowMajor(higher, size)[0]);
    FirstRow(higher, size);
    if RowMajor(higher, size) != [] { FirstOfRows(F, higher, size); }
    if |higher| + 1 == |size| {
      SumFirst(F, higher + [0], size);
      ok := FirstCall(alloc, f, higher + [0], ty, ret, tmp, F, p);
      if !ok { return; }
      HoldingResult(alloc.mem[..], alloc.top, p, F(higher + [0]));
    } else {
      ok := DoSumbuild(alloc, size, f, higher + [0], ty, ret, tmp, F, p);
      if !ok { return; }
    }
    RowsStart(higher, size);
    ghost var sum := SumOver(F, RowMajor(higher + [0], size));
    ghost var top := alloc.top;
    for i := 1 to thisDimension
      invariant RowMajorUpTo(higher, size, i) != [] && sum == SumOver(F, RowMajorUpTo(higher, size, i))
      invariant AllSummable(F, RowMajorUpTo(higher, size, i))
      invariant alloc.Valid() && Holding(alloc.mem[..], alloc.top, p, sum) && alloc.top == top
    {
      if runs { AllSummablePrefix(F, higher, size, i, thisDimension); }
      if |higher| + 1 == |size| {
        SummableOne(sum, F, higher + [i], size);
        ok := AddCall(alloc, f, higher + [i], ty, ret, tmp, F, p, sum);
        if !ok { return; }
        SumOne(sum, F, higher + [i], size);
      } else {
        ok := InplaceSumbuild(alloc, size, f, higher + [i], ty, ret, tmp, F, p, sum);
        if !ok { return; }
      }
      RowStep(higher, size, i);
      SumOverConcat(F, RowMajorUpTo(higher, size, i), RowMajor(higher + [i], size));
      sum := SumFrom(sum, F, RowMajor(higher + [i], size));
    }
    ok := true;
  }

  lemma {:induction false} NoRows(higher: Index, size: Index)
    requires |higher| < |size| && size[|higher|] == 0
    ensures RowMajor(higher, size) == []
  {}

  /** If the box is not empty, its first row is not, and has the same first index. */
  lemma {:induction false} FirstOfRows(F: Index -> Val, higher: Index, size: Index)
    requires |higher| < |size| && RowMajor(higher, size) != []
    ensures RowMajor(higher + [0], size) != [] && RowMajor(higher, size)[0] == RowMajor(higher + [0], size)[0]
    ensures AllSummable(F, RowMajor(higher, size)) ==> AllSummable(F, RowMajor(higher + [0], size))
  {
    hide AllSummable, NumElements, UnflattenIndex;
    var sub := size[|higher|..];
    RowMajorPositions(higher, size);
    RowMajorPositions(higher + [0], size);
    NumElementsSplit(sub);
    assert size[|higher + [0]|..] == sub[1..];
    FirstRow(higher, size);
    RowsPrefix(F, higher, size, 1, size[|higher|]);
  }

  lemma {:induction false} RowsPrefix(F: Index -> Val, higher: Index, size: Index, i: nat, n: nat)
    requires |higher| < |size| && i <= n && RowMajorUpTo(higher, size, i) != []
    ensures RowMajorUpTo(higher, size, n) != [] && RowMajorUpTo(higher, size, n)[0] == RowMajorUpTo(higher, size, i)[0]
    ensures AllSummable(F, RowMajorUpTo(higher, size, n)) ==> AllSummable(F, RowMajorUpTo(higher, size, i))
    decreases n
  {
    hide AllSummable, RowMajor;
    if i < n {
      RowsPrefix(F, higher, size, i, n - 1);
      SumOverConcat(F, RowMajorUpTo(higher, size, n - 1), RowMajor(higher + [n - 1], size));
    }
  }

  lemma {:induction false} AllSummablePrefix(F: Index -> Val, higher: Index, size: Index, i: nat, n: nat)
    requires |higher| < |size| && i < n && RowMajorUpTo(higher, size, i) != []
    requires RowMajorUpTo(higher, size, n) != [] && AllSummable(F, RowMajorUpTo(higher, size, n))
    ensures Summable(SumOver(F, RowMajorUpTo(higher, size, i)), F, RowMajor(higher + [i], size))
  {
    hide AllSummable, Summable, SumOver, RowMajor;
    RowsPrefix(F, higher, size, i + 1, n);
    SumOverConcat(F, RowMajorUpTo(higher, size, i), RowMajor(higher + [i], size));
  }

  lemma {:induction false} RowStep(higher: Index, size: Index, i: nat)
    requires |higher| < |size|
    ensures RowMajorUpTo(higher, size, i + 1) == RowMajorUpTo(higher, size, i) + RowMajor(higher + [i], size)
  {
    hide RowMajor;
  }

  lemma {:induction false} RowsStart(higher: Index, size: Index)
    requires |higher| < |size|
    ensures RowMajor(higher, size) == RowMajorUpTo(higher, size, size[|higher|])
  {}

  lemma {:induction false} SumFirst(F: Index -> Val, index: Index, size: Index)
    requires |index| == |size|
    ensures RowMajor(index, size) == [index] && SumOver(F, RowMajor(index, size)) == F(index)
    ensures AllSummable(F, RowMajor(index, size))
  {
    assert [index][1..] == [];
  }

  lemma {:induction false} FirstRow(higher: Index, size: Index)
    requires |higher| < |size|
    ensures RowMajorUpTo(higher, size, 1) == RowMajor(higher + [0], size)
  {
    assert RowMajorUpTo(higher, size, 0) == [];
  }

  lemma {:induction false} SumOverConcat(F: Index -> Val, xs: seq<Index>, ys: seq<Index>)
    requires xs != []
    ensures SumOver(F, xs + ys) == SumFrom(SumOver(F, xs), F, ys)
    ensures AllSummable(F, xs + ys) <==> AllSummable(F, xs) && Summable(SumOver(F, xs), F, ys)
  {
    hide SumFrom, Summable;
    assert (xs + ys)[1..] == xs[1..] + ys;
    SumConcat(F(xs[0]), F, xs[1..], ys);
  }

  /** The row-major order is the order of the flat positions, so that the indices are exactly those of the box. */
  lemma {:induction false} RowMajorPositions(higher: Index, size: Index)
    requires |higher| <= |size|
    ensures var sub := size[|higher|..];
      && |RowMajor(higher, size)| == NumElements(sub)
      && forall k: nat | k < NumElements(sub) :: RowMajor(higher, size)[k] == higher + UnflattenIndex(k, sub)
    decreases |size| - |higher|, 1, 0
  {
    var sub := size[|higher|..];
    if |higher| == |size| {
      assert sub == [];
      assert higher + [] == higher;
    } else {
      hide NumElements, UnflattenIndex;
      NumElementsSplit(sub);
      RowMajorUpToPositions(higher, size, size[|higher|]);
    }
  }

  lemma {:induction false} RowMajorUpToPositions(higher: Index, size: Index, i: nat)
    requires |higher| < |size| && i <= size[|higher|]
    ensures var sub := size[|higher|..]; var n := i * NumElements(sub[1..]);
      && |RowMajorUpTo(higher, size, i)| == n
      && forall k: nat | k < n :: RowMajorUpTo(higher, size, i)[k] == higher + UnflattenIndex(k, sub)
    decreases |size| - |higher|, 0, i
  {
    hide NumElements, UnflattenIndex, RowMajor;
    var sub := size[|higher|..];
    var row := NumElements(sub[1..]);
    if i > 0 {
      RowMajorUpToPositions(higher, size, i - 1);
      assert size[|higher + [i - 1]|..] == sub[1..];
      RowMajorPositions(higher + [i - 1], size);
      PositionsLeft(i - 1, i, row);
      forall k: nat | k < i * row
        ensures RowMajorUpTo(higher, size, i)[k] == higher + UnflattenIndex(k, sub)
      {
        if k >= (i - 1) * row {
          var j: nat := k - (i - 1) * row;
          UnflattenOuter(i - 1, j, sub);
          assert higher + [i - 1] + UnflattenIndex(j, sub[1..]) == higher + ([i - 1] + UnflattenIndex(j, sub[1..]));
        }
      }
    }
  }

  /** The indices of the box in the order of their flat positions. */
  ghost function BoxOf(size: Index): seq<Index> {
    seq(NumElements(size), (k: nat) => UnflattenIndex(k, size))
  }

  /** Leaves at `ret` the sum of the body over all indices of the box, laid out from the mark at entry
      up to the new top; memory below the mark is as it was. */
  method Sumbuild(alloc: Allocator, size: Index, f: Body, ty: Ty, ret: nat, tmp: nat, ghost F: Index -> Val,
      ghost p: Places)
      returns (ok: bool)
    requires 1 <= |size| && alloc.Valid()
    requires p == Places(alloc.mem[..], ty, ret, tmp, alloc.top, alloc.maxSize) && p.Valid() && Computes(f, F, p)
    modifies alloc`top, alloc`peak, alloc.mem
    ensures ok ==> BoxOf(size) != [] && forall d | 0 <= d < |size| :: size[d] > 0
    ensures ok ==> AllSummable(F, BoxOf(size)) && Deep(alloc.mem[..], ty, ret) == SumOver(F, BoxOf(size))
    ensures ok ==> alloc.Valid() && alloc.top == old(alloc.top) + Inflated(ty, SumOver(F, BoxOf(size)))
    ensures ok ==> Laid(alloc.mem[..], ty, ret, old(alloc.top))
    ensures ok ==> EnvKept(alloc.mem[..], p)
    // It runs to the end if the box is not empty, the shapes agree, and the body has room to run.
    ensures BoxOf(size) != [] && AllSummable(F, BoxOf(size)) && RunsFrom(f, F, p, BoxOf(size)[0]) ==> ok
  {
    hide Computes, Holding, SameShape, AddVal, EnvKept, SumFrom, SumOver, AllSummable, NumElements, UnflattenIndex,
      RowMajor, Deep, Laid, Inflated, RunsFrom;
    EnvStart(p);
    assert size[0..] == size;
    RowMajorPositions([], size);
    BoxIndices(size);
    ok := DoSumbuild(alloc, size, f, [], ty, ret, tmp, F, p);
    if ok {
      PositiveDimensions(size);
      HoldingResult(alloc.mem[..], alloc.top, p, SumOver(F, BoxOf(size)));
    }
  }

  lemma {:induction false} EnvStart(p: Places)
    ensures EnvKept(p.env, p)
  {
    hide Sizeof;
  }

  lemma {:induction false} BoxIndices(size: Index)
    requires |RowMajor([], size)| == NumElements(size)
    requires forall k: nat | k < NumElements(size) :: RowMajor([], size)[k] == [] + UnflattenIndex(k, size)
    ensures RowMajor([], size) == BoxOf(size)
  {
    hide NumElements, UnflattenIndex, RowMajor;
    forall k: nat | k < NumElements(size) ensures RowMajor([], size)[k] == UnflattenIndex(k, size) {
      assert [] + UnflattenIndex(k, size) == UnflattenIndex(k, size);
    }
  }

  lemma {:induction false} PositiveDimensions(size: Index)
    requires NumElements(size) > 0
    ensures forall d | 0 <= d < |size| :: size[d] > 0
  {
    if size != [] {
      var d := |size| - 1;
      PositiveDimensions(size[..d]);
      forall k | 0 <= k < |size| ensures size[k] > 0 {
        if k < d { assert size[..d][k] == size[k]; }
      }
    }
  }

  lemma {:induction false} HoldingResult(m: Memory, top: nat, p: Places, v: Val)
    requires Holding(m, top, p, v)
    ensures Deep(m, p.ty, p.ret) == v && top == p.base + Inflated(p.ty, v) && Laid(m, p.ty, p.ret, p.base)
      && EnvKept(m, p)
  {
    hide EnvKept, Laid, Deep, Inflated, Sizeof;
  }
}
