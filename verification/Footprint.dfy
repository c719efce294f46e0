/** The blocks of memory an object refers to, and the runtime's questions about them. */
module Footprint {
  import opened RuntimeMemory

  datatype Block = Block(from: nat, end: nat)

  /** The data of every tensor subobject, in pre-order. A tensor reached twice is listed twice. */
  ghost function Blocks(m: Memory, ty: Ty, a: nat): seq<Block>
    decreases ty, 0
  {
    match ty
    case Scalar => []
    case Unit => []
    case Pack(h, t) => Blocks(m, h, a) + Blocks(m, t, a + Sizeof(h))
    case Tensor(_, e) =>
      if a < |m| && m[a].Handle? then
        var d, n := m[a].data, NumElements(m[a].shape);
        [Block(d, ElemAt(e, d, n))] + ElemBlocks(m, e, d, n)
      else []
  }

  ghost function ElemBlocks(m: Memory, e: Ty, d: nat, n: nat): seq<Block>
    decreases e, n + 1
  {
    if n == 0 then [] else ElemBlocks(m, e, d, n - 1) + Blocks(m, e, ElemAt(e, d, n - 1))
  }

  ghost predicate Touches(bs: seq<Block>, from: nat, end: nat) {
    exists b | b in bs :: b.from < end && from < b.end
  }

  lemma {:induction false} BlocksPack(m: Memory, h: Ty, t: Ty, a: nat)
    ensures Blocks(m, Pack(h, t), a) == Blocks(m, h, a) + Blocks(m, t, a + Sizeof(h))
  {
    hide Sizeof, ElemBlocks;
  }

  lemma {:induction false} TouchesConcat(xs: seq<Block>, ys: seq<Block>, from: nat, end: nat)
    ensures Touches(xs + ys, from, end) <==> Touches(xs, from, end) || Touches(ys, from, end)
  {
    hide Blocks;
    forall b | b in xs || b in ys ensures b in xs + ys {}
  }

  /** The parts of a well-formed tensor that callers need. */
  lemma {:induction false} HandleParts(m: Memory, r: nat, e: Ty, a: nat, start: nat, limit: nat)
    requires WellFormed(m, Tensor(r, e), a, start, limit)
    ensures a < |m| && m[a].Handle? && m[a].elem == e
    ensures var d, n := m[a].data, NumElements(m[a].shape);
      && WellFormedElems(m, e, d, n, start, if d < start then start else limit)
      && ElemAt(e, d, n) <= (if d < start then start else limit)
      && Deep(m, Tensor(r, e), a) == VTensor(m[a].shape, DeepElems(m, e, d, n))
      && Inflated(Tensor(r, e), Deep(m, Tensor(r, e), a)) ==
           Padded(Span(Sizeof(e), n)) + InflatedElems(e, DeepElems(m, e, d, n), n)
      && Blocks(m, Tensor(r, e), a) == [Block(d, ElemAt(e, d, n))] + ElemBlocks(m, e, d, n)
  {
    hide DeepElems, InflatedElems, ElemAt, NumElements, Sizeof, Span, ElemBlocks, WellFormedElems;
    var d, n := m[a].data, NumElements(m[a].shape);
    WellFormedEnd(m, e, d, n, start, if d < start then start else limit);
  }

  lemma {:induction false} InflatedLeaf(m: Memory, ty: Ty, a: nat)
    requires ty.Scalar? || ty.Unit?
    ensures Inflated(ty, Deep(m, ty, a)) == 0
  {}

  lemma {:induction false} NoElems(e: Ty, vs: seq<Val>)
    ensures InflatedElems(e, vs, 0) == 0
  {}

  /** The bytes an allocator would need for an inflated copy of the object at `t`. */
  method InflatedBytes(mem: array<Cell>, ty: Ty, t: nat, ghost start: nat, ghost limit: nat) returns (bytes: nat)
    requires WellFormed(mem[..], ty, t, start, limit)
    ensures bytes == Inflated(ty, Deep(mem[..], ty, t))
    decreases ty, 1
  {
    hide WellFormed, WellFormedElems, Deep, DeepElems, Inflated, InflatedElems, NumElements, Blocks, ElemBlocks, Padded;
    match ty
    case Scalar =>
      InflatedLeaf(mem[..], ty, t);
      bytes := 0;
    case Unit =>
      InflatedLeaf(mem[..], ty, t);
      bytes := 0;
    case Pack(h, tl) =>
      WellFormedPack(mem[..], h, tl, t, start, limit);
      InflatedPack(mem[..], h, tl, t);
      var x := InflatedBytes(mem, h, t, start, limit);
      var y := InflatedBytes(mem, tl, t + Sizeof(h), start, limit);
      bytes := x + y;
    case Tensor(r, e) =>
      HandleParts(mem[..], r, e, t, start, limit);
      var d, n := mem[t].data, NumElements(mem[t].shape);
      ghost var inner := if d < start then start else limit;
      NoElems(e, DeepElems(mem[..], e, d, n));
      bytes := Padded(Span(Sizeof(e), n));
      var i := 0;
      while i < n
        invariant 0 <= i <= n
        invariant bytes == Padded(Span(Sizeof(e), n)) + InflatedElems(e, DeepElems(mem[..], e, d, n), i)
      {
        ElemOf(mem[..], e, d, n, i, start, inner);
        InflatedMonotone(e, DeepElems(mem[..], e, d, n), i, i + 1);
        var x := InflatedBytes(mem, e, ElemAt(e, d, i), start, inner);
        bytes := bytes + x;
        i := i + 1;
      }
  }

  /** Whether any memory that the object at `t` refers to overlaps `[from, end)`. */
  method MemoryOverlaps(from: nat, end: nat, mem: array<Cell>, ty: Ty, t: nat, ghost start: nat, ghost limit: nat)
    returns (b: bool)
    requires WellFormed(mem[..], ty, t, start, limit)
    ensures b <==> Touches(Blocks(mem[..], ty, t), from, end)
    decreases ty, 1
  {
    hide WellFormed, Deep, DeepElems, Inflated, InflatedElems, NumElements, WellFormedElems, ElemAt;
    match ty
    case Scalar => b := false;
    case Unit => b := false;
    case Pack(h, tl) =>
      hide Blocks, Touches;
      WellFormedPack(mem[..], h, tl, t, start, limit);
      BlocksPack(mem[..], h, tl, t);
      TouchesConcat(Blocks(mem[..], h, t), Blocks(mem[..], tl, t + Sizeof(h)), from, end);
      b := MemoryOverlaps(from, end, mem, h, t, start, limit);
      if !b { b := MemoryOverlaps(from, end, mem, tl, t + Sizeof(h), start, limit); }
    case Tensor(r, e) =>
      HandleParts(mem[..], r, e, t, start, limit);
      hide Blocks, ElemBlocks, Touches;
      var d, n := mem[t].data, NumElements(mem[t].shape);
      ghost var inner := if d < start then start else limit;
      ElemBlocksStart(mem[..], e, d, from, end);
      TouchesConcat([Block(d, ElemAt(e, d, n))], ElemBlocks(mem[..], e, d, n), from, end);
      var i := 0;
      while i < n
        invariant 0 <= i <= n
        invariant !Touches(ElemBlocks(mem[..], e, d, i), from, end)
      {
        ElemOf(mem[..], e, d, n, i, start, inner);
        ElemBlocksNext(mem[..], e, d, i, n, from, end);
        b := MemoryOverlaps(from, end, mem, e, ElemAt(e, d, i), start, inner);
        if b { return; }
        i := i + 1;
      }
      b := d < end && ElemAt(e, d, n) > from;
      TouchesOne(Block(d, ElemAt(e, d, n)), from, end);
  }

  lemma {:induction false} TouchesOne(b: Block, from: nat, end: nat)
    ensures Touches([b], from, end) <==> b.from < end && from < b.end
  {
    hide Blocks;
    assert b in [b];
  }

  lemma {:induction false} ElemBlocksStart(m: Memory, e: Ty, d: nat, from: nat, end: nat)
    ensures !Touches(ElemBlocks(m, e, d, 0), from, end)
  {
    hide Blocks;
  }

  lemma {:induction false} ElemBlocksNext(m: Memory, e: Ty, d: nat, i: nat, n: nat, from: nat, end: nat)
    requires i < n
    ensures Touches(ElemBlocks(m, e, d, i + 1), from, end) <==>
      Touches(ElemBlocks(m, e, d, i), from, end) || Touches(Blocks(m, e, ElemAt(e, d, i)), from, end)
    ensures Touches(ElemBlocks(m, e, d, i + 1), from, end) ==> Touches(ElemBlocks(m, e, d, n), from, end)
    decreases n
  {
    hide Blocks, ElemAt, Touches;
    TouchesConcat(ElemBlocks(m, e, d, i), Blocks(m, e, ElemAt(e, d, i)), from, end);
    if i + 1 < n {
      ElemBlocksNext(m, e, d, i, n - 1, from, end);
      TouchesConcat(ElemBlocks(m, e, d, n - 1), Blocks(m, e, ElemAt(e, d, n - 1)), from, end);
    }
  }

  ghost predicate Below(bs: seq<Block>, limit: nat) {
    forall b | b in bs :: b.end <= limit
  }

  /** Everything a well-formed object refers to ends below its limit. */
  lemma {:induction false} BlocksBelow(m: Memory, ty: Ty, a: nat, start: nat, limit: nat)
    requires WellFormed(m, ty, a, start, limit) && start <= limit
    ensures Below(Blocks(m, ty, a), limit)
    decreases ty, 0
  {
    hide ElemAt, NumElements, Deep, Inflated;
    match ty
    case Scalar =>
    case Unit =>
    case Pack(h, t) =>
      hide WellFormed, Blocks;
      WellFormedPack(m, h, t, a, start, limit);
      BlocksPack(m, h, t, a);
      BlocksBelow(m, h, a, start, limit);
      BlocksBelow(m, t, a + Sizeof(h), start, limit);
    case Tensor(r, e) =>
      HandleParts(m, r, e, a, start, limit);
      hide WellFormed, WellFormedElems, Blocks, ElemBlocks;
      var d, n := m[a].data, NumElements(m[a].shape);
      ElemBlocksBelow(m, e, d, n, n, start, if d < start then start else limit);
  }

  lemma {:induction false} ElemBlocksBelow(m: Memory, e: Ty, d: nat, i: nat, n: nat, start: nat, limit: nat)
    requires i <= n && WellFormedElems(m, e, d, n, start, limit) && start <= limit
    ensures Below(ElemBlocks(m, e, d, i), limit)
    decreases e, i + 1
  {
    hide ElemAt, WellFormed, WellFormedElems, Blocks;
    if i > 0 {
      ElemBlocksBelow(m, e, d, i - 1, n, start, limit);
      ElemOf(m, e, d, n, i - 1, start, limit);
      BlocksBelow(m, e, ElemAt(e, d, i - 1), start, limit);
    }
  }

  /** Data below the mark never overlaps what lies above it: the source's assertion cannot fail. */
  lemma {:induction false} BelowNeverOverlaps(m: Memory, r: nat, e: Ty, a: nat, start: nat, limit: nat, end: nat)
    requires WellFormed(m, Tensor(r, e), a, start, limit)
    requires a < |m| && m[a].Handle? && m[a].data < start
    ensures !Touches(Blocks(m, Tensor(r, e), a), start, end)
  {
    hide NumElements, WellFormedElems, Blocks, ElemAt;
    assert WellFormed(m, Tensor(r, e), a, start, start);
    BlocksBelow(m, Tensor(r, e), a, start, start);
  }

  // ---------------------------------------------------------------- disjointness

  /** The blocks lie in `[from, end)`, each before the next: in particular no two overlap. */
  ghost predicate Successive(bs: seq<Block>, from: nat, end: nat) {
    && (forall k | 0 <= k < |bs| :: from <= bs[k].from <= bs[k].end <= end)
    && (forall j, k | 0 <= j < k < |bs| :: bs[j].end <= bs[k].from)
  }

  lemma {:induction false} SuccessiveConcat(xs: seq<Block>, ys: seq<Block>, from: nat, mid: nat, end: nat)
    requires Successive(xs, from, mid) && Successive(ys, mid, end) && from <= mid <= end
    ensures Successive(xs + ys, from, end)
  {
    hide Blocks;
  }

  /** In an inflated layout the data of the tensor subobjects is pairwise disjoint, in pre-order,
      and fills no more than the bytes of the inflated copy. */
  lemma {:induction false} LaidBlocks(m: Memory, ty: Ty, a: nat, s: nat)
    requires Laid(m, ty, a, s)
    ensures Successive(Blocks(m, ty, a), s, s + Inflated(ty, Deep(m, ty, a)))
    decreases ty, 0
  {
    hide NumElements, LaidElems, DeepElems, InflatedElems, ElemBlocks, Successive;
    match ty
    case Scalar => SuccessiveEmpty(s, s);
    case Unit => SuccessiveEmpty(s, s);
    case Pack(h, t) =>
      hide Deep, Inflated, Laid;
      LaidPack(m, h, t, a, s);
      InflatedPack(m, h, t, a);
      var mid := s + Inflated(h, Deep(m, h, a));
      LaidBlocks(m, h, a, s);
      LaidBlocks(m, t, a + Sizeof(h), mid);
      SuccessiveConcat(Blocks(m, h, a), Blocks(m, t, a + Sizeof(h)), s, mid,
        mid + Inflated(t, Deep(m, t, a + Sizeof(h))));
    case Tensor(r, e) =>
      var n := NumElements(m[a].shape);
      var vs := DeepElems(m, e, s, n);
      LaidElemBlocks(m, e, s, n, n);
      SuccessiveOne(s, ElemAt(e, s, n), ElemDest(e, vs, s, 0));
      SuccessiveConcat([Block(s, ElemAt(e, s, n))], ElemBlocks(m, e, s, n), s, ElemDest(e, vs, s, 0),
        ElemDest(e, vs, s, n));
  }

  lemma {:induction false} SuccessiveEmpty(from: nat, end: nat)
    ensures Successive([], from, end)
  {
    hide Blocks;
  }

  lemma {:induction false} SuccessiveOne(from: nat, mid: nat, end: nat)
    requires from <= mid <= end
    ensures Successive([Block(from, mid)], from, end)
  {
    hide Blocks;
  }

  lemma {:induction false} LaidElemBlocks(m: Memory, e: Ty, s: nat, i: nat, n: nat)
    requires i <= n && LaidElems(m, e, s, n)
    ensures var vs := DeepElems(m, e, s, n); Successive(ElemBlocks(m, e, s, i), ElemDest(e, vs, s, 0),
      ElemDest(e, vs, s, i))
    ensures var vs := DeepElems(m, e, s, n); ElemDest(e, vs, s, 0) <= ElemDest(e, vs, s, i)
    decreases e, i + 1
  {
    hide NumElements, Inflated, Laid, Blocks, Deep, Successive, ElemAt, Padded;
    var vs := DeepElems(m, e, s, n);
    if i == 0 {
      SuccessiveEmpty(ElemDest(e, vs, s, 0), ElemDest(e, vs, s, 0));
    } else {
      LaidElemBlocks(m, e, s, i - 1, n);
      LaidBlocks(m, e, ElemAt(e, s, i - 1), ElemDest(e, vs, s, i - 1));
      SuccessiveConcat(ElemBlocks(m, e, s, i - 1), Blocks(m, e, ElemAt(e, s, i - 1)),
                       ElemDest(e, vs, s, 0), ElemDest(e, vs, s, i - 1), ElemDest(e, vs, s, i));
    }
  }
}
