/** The pass that moves data out of the way, as relations between the memories before and after. */
module PrepareLemmas {
  import opened RuntimeMemory
  import opened CopydownLemmas

  /** The mark that everything is copied down to, and the end of the allocator's buffer. */
  datatype Zone = Zone(start: nat, capacity: nat)

  /** Memory, the allocator's top, and the destination of the next tensor subobject. */
  datatype Stage = Stage(mem: Memory, top: nat, dest: nat) {
    function High(): nat { if top < dest then dest else top }
  }

  /** From `s` to `s'` no object lost its form or its value, and none that was prepared for
      destinations up to `s.dest` lost that. */
  ghost predicate Keeps(s: Stage, s': Stage, z: Zone) {
    forall ty: Ty, a: nat {:trigger WellFormed(s.mem, ty, a, z.start, s.top)} |
      Home(ty, a, s.top, z.capacity) && WellFormed(s.mem, ty, a, z.start, s.top) ::
      KeepsAt(s, s', z, ty, a)
  }

  ghost predicate KeepsAt(s: Stage, s': Stage, z: Zone, ty: Ty, a: nat) {
    && WellFormed(s'.mem, ty, a, z.start, s'.top)
    && Deep(s'.mem, ty, a) == Deep(s.mem, ty, a)
    && forall dest: nat {:trigger Prepared(s.mem, ty, a, z.start, dest)} |
         Prepared(s.mem, ty, a, z.start, dest) && dest + Inflated(ty, Deep(s.mem, ty, a)) <= s.dest ::
         Prepared(s'.mem, ty, a, z.start, dest)
  }

  /** What one call of `prepare_copydown_inplace` may write: nothing below the mark, nothing outside
      the buffer except its own object, and in old buffer memory only handles nested in its type. */
  ghost predicate Frame(s: Stage, s': Stage, z: Zone, depth: nat, a: nat, b: nat) {
    && |s'.mem| == |s.mem|
    && Carried(s.mem, s'.mem, 0, z.start, 0)
    && Carried(s.mem, s'.mem, z.capacity, a, 0)
    && Carried(s.mem, s'.mem, if z.capacity < b then b else z.capacity, |s.mem|, 0)
    && forall q {:trigger s.mem[q]} | 0 <= q < |s.mem| && (q < s.top || z.capacity <= q) ::
         s'.mem[q] == s.mem[q] || (s.mem[q].Handle? && s.mem[q].elem.Depth() < depth)
  }

  /** The effect of `prepare_copydown_inplace` on the object of type `ty` at `a`. */
  ghost predicate Step(s: Stage, s': Stage, z: Zone, ty: Ty, a: nat) {
    && s.top <= s'.top <= z.capacity
    && s'.dest == s.dest + Inflated(ty, Deep(s.mem, ty, a))
    && s'.top + s.dest <= s.High() + s'.dest
    && Keeps(s, s', z)
    && Prepared(s'.mem, ty, a, z.start, s.dest)
    && Frame(s, s', z, ty.Depth(), a, a + Sizeof(ty))
  }

  /** The effect of the loop over the elements of a tensor whose data is at `d`, after `i` of them. */
  ghost predicate ElemSteps(s: Stage, s': Stage, z: Zone, e: Ty, vs: seq<Val>, d: nat, i: nat)
    requires i <= |vs|
  {
    && s.top <= s'.top <= z.capacity
    && s'.dest == s.dest + InflatedElems(e, vs, i)
    && s'.top + s.dest <= s.High() + s'.dest
    && Keeps(s, s', z)
    && (forall j: nat | j < i :: Prepared(s'.mem, e, ElemAt(e, d, j), z.start, s.dest + InflatedElems(e, vs, j)))
    && Frame(s, s', z, e.Depth(), z.capacity, z.capacity)
  }

  lemma {:induction false} KeepsUse(s: Stage, s': Stage, z: Zone, ty: Ty, a: nat)
    requires Keeps(s, s', z)
    requires Home(ty, a, s.top, z.capacity) && WellFormed(s.mem, ty, a, z.start, s.top)
    ensures KeepsAt(s, s', z, ty, a)
  {
    hide WellFormed, KeepsAt, Sizeof;
  }

  lemma {:induction false} KeepsIntro(s: Stage, s': Stage, z: Zone)
    requires forall ty: Ty, a: nat {:trigger WellFormed(s.mem, ty, a, z.start, s.top)} |
      Home(ty, a, s.top, z.capacity) && WellFormed(s.mem, ty, a, z.start, s.top) :: KeepsAt(s, s', z, ty, a)
    ensures Keeps(s, s', z)
  {
    hide WellFormed, KeepsAt, Sizeof;
  }

  lemma {:induction false} KeepsTransitive(s: Stage, s1: Stage, s2: Stage, z: Zone)
    requires Keeps(s, s1, z) && Keeps(s1, s2, z)
    requires s.dest <= s1.dest && s.top <= s1.top
    ensures Keeps(s, s2, z)
  {
    hide WellFormed, Deep, Prepared, Inflated, Keeps, Sizeof;
    forall ty: Ty, a: nat | Home(ty, a, s.top, z.capacity) && WellFormed(s.mem, ty, a, z.start, s.top)
      ensures KeepsAt(s, s2, z, ty, a)
    {
      KeepsUse(s, s1, z, ty, a);
      KeepsUse(s1, s2, z, ty, a);
    }
    KeepsIntro(s, s2, z);
  }

  lemma {:induction false} KeepsSame(s: Stage, s': Stage, z: Zone)
    requires s'.mem == s.mem && s'.top == s.top
    ensures Keeps(s, s', z)
  {
    hide WellFormed, Deep, Prepared, Inflated, Sizeof;
  }

  lemma {:induction false} FrameTransitive(s: Stage, s1: Stage, s2: Stage, z: Zone, depth: nat, a: nat, b: nat)
    requires Frame(s, s1, z, depth, a, b) && Frame(s1, s2, z, depth, a, b)
    requires z.start <= s.top <= s1.top <= z.capacity
    ensures Frame(s, s2, z, depth, a, b)
  {
    hide Keeps;
  }

  lemma {:induction false} FrameWiden(s: Stage, s': Stage, z: Zone, depth: nat, a: nat, b: nat, depth': nat, a': nat,
      b': nat)
    requires Frame(s, s', z, depth, a, b) && depth <= depth'
    requires (a' <= a && b <= b') || b <= z.capacity
    ensures Frame(s, s', z, depth', a', b')
  {
    hide Keeps;
    assert b <= z.capacity ==> Carried(s.mem, s'.mem, z.capacity, |s.mem|, 0);
  }

  lemma {:induction false} FrameSame(s: Stage, s': Stage, z: Zone, depth: nat, a: nat, b: nat)
    requires s'.mem == s.mem
    ensures Frame(s, s', z, depth, a, b)
  {
    hide Keeps;
  }

  /** Preparing a pack is preparing its head, then its tail. */
  lemma {:induction false} StepPack(s: Stage, s1: Stage, s2: Stage, z: Zone, h: Ty, t: Ty, a: nat)
    requires z.start <= s.top && WellFormed(s.mem, Pack(h, t), a, z.start, s.top)
    requires Home(Pack(h, t), a, s.top, z.capacity)
    requires Step(s, s1, z, h, a)
    requires Step(s1, s2, z, t, a + Sizeof(h))
    ensures Step(s, s2, z, Pack(h, t), a)
  {
    hide Keeps, Frame, Deep, Inflated, Prepared, WellFormed;
    KeepsTransitive(s, s1, s2, z);
    StepPackValues(s, s1, s2, z, h, t, a);
    StepPackFrame(s, s1, s2, z, h, t, a);
  }

  lemma {:induction false} StepPackValues(s: Stage, s1: Stage, s2: Stage, z: Zone, h: Ty, t: Ty, a: nat)
    requires z.start <= s.top && WellFormed(s.mem, Pack(h, t), a, z.start, s.top)
    requires Home(Pack(h, t), a, s.top, z.capacity)
    requires Step(s, s1, z, h, a)
    requires Step(s1, s2, z, t, a + Sizeof(h))
    ensures Prepared(s2.mem, Pack(h, t), a, z.start, s.dest)
    ensures s2.dest == s.dest + Inflated(Pack(h, t), Deep(s.mem, Pack(h, t), a))
  {
    hide Keeps, Frame, Deep, Inflated, Prepared, WellFormed;
    WellFormedPack(s.mem, h, t, a, z.start, s.top);
    KeepsUse(s, s1, z, h, a);
    KeepsUse(s, s1, z, t, a + Sizeof(h));
    KeepsUse(s1, s2, z, h, a);
    PreparedPack(s2.mem, h, t, a, z.start, s.dest);
    InflatedPack(s.mem, h, t, a);
  }

  lemma {:induction false} StepPackFrame(s: Stage, s1: Stage, s2: Stage, z: Zone, h: Ty, t: Ty, a: nat)
    requires z.start <= s.top <= s1.top <= z.capacity
    requires Frame(s, s1, z, h.Depth(), a, a + Sizeof(h))
    requires Frame(s1, s2, z, t.Depth(), a + Sizeof(h), a + Sizeof(h) + Sizeof(t))
    ensures Frame(s, s2, z, Pack(h, t).Depth(), a, a + Sizeof(Pack(h, t)))
  {
    hide Frame;
    var depth, mid, end := Pack(h, t).Depth(), a + Sizeof(h), a + Sizeof(h) + Sizeof(t);
    FrameWiden(s, s1, z, h.Depth(), a, mid, depth, a, end);
    FrameWiden(s1, s2, z, t.Depth(), mid, end, depth, a, end);
    FrameTransitive(s, s1, s2, z, depth, a, end);
  }

  /** Preparing one more element. */
  lemma {:induction false} StepElem(s: Stage, s1: Stage, s2: Stage, z: Zone, e: Ty, vs: seq<Val>, d: nat, i: nat)
    requires z.start <= s.top && i < |vs| && z.start <= d && vs == DeepElems(s.mem, e, d, |vs|)
    requires WellFormedElems(s.mem, e, d, |vs|, z.start, s.top)
    requires ElemSteps(s, s1, z, e, vs, d, i)
    requires Step(s1, s2, z, e, ElemAt(e, d, i))
    ensures ElemSteps(s, s2, z, e, vs, d, i + 1)
  {
    hide Keeps, Frame, WellFormed, WellFormedElems, Deep, DeepElems, Prepared, Inflated, InflatedElems, ElemAt;
    KeepsTransitive(s, s1, s2, z);
    StepElemValues(s, s1, s2, z, e, vs, d, i);
    assert ElemAt(e, d, |vs|) <= s.top by { WellFormedEnd(s.mem, e, d, |vs|, z.start, s.top); }
    StepElemFrame(s, s1, s2, z, e, d, i, |vs|);
  }

  lemma {:induction false} StepElemValues(s: Stage, s1: Stage, s2: Stage, z: Zone, e: Ty, vs: seq<Val>, d: nat, i: nat)
    requires z.start <= s.top && i < |vs| && z.start <= d && vs == DeepElems(s.mem, e, d, |vs|)
    requires WellFormedElems(s.mem, e, d, |vs|, z.start, s.top)
    requires ElemSteps(s, s1, z, e, vs, d, i)
    requires Step(s1, s2, z, e, ElemAt(e, d, i))
    ensures s2.dest == s.dest + InflatedElems(e, vs, i + 1)
    ensures forall j: nat | j < i + 1 :: Prepared(s2.mem, e, ElemAt(e, d, j), z.start, s.dest + InflatedElems(e, vs, j))
  {
    hide Keeps, Frame, WellFormed, WellFormedElems, Deep, DeepElems, Prepared, Inflated, InflatedElems, ElemAt;
    ElemOf(s.mem, e, d, |vs|, i, z.start, s.top);
    KeepsUse(s, s1, z, e, ElemAt(e, d, i));
    InflatedMonotone(e, vs, i, i + 1);
    forall j: nat | j < i
      ensures Prepared(s2.mem, e, ElemAt(e, d, j), z.start, s.dest + InflatedElems(e, vs, j))
    {
      ElemOf(s.mem, e, d, |vs|, j, z.start, s.top);
      InflatedMonotone(e, vs, j, i);
      KeepsUse(s, s1, z, e, ElemAt(e, d, j));
      KeepsUse(s1, s2, z, e, ElemAt(e, d, j));
    }
  }

  lemma {:induction false} StepElemFrame(s: Stage, s1: Stage, s2: Stage, z: Zone, e: Ty, d: nat, i: nat, n: nat)
    requires z.start <= s.top <= s1.top <= z.capacity && i < n && ElemAt(e, d, n) <= s.top
    requires Frame(s, s1, z, e.Depth(), z.capacity, z.capacity)
    requires Frame(s1, s2, z, e.Depth(), ElemAt(e, d, i), ElemAt(e, d, i) + Sizeof(e))
    ensures Frame(s, s2, z, e.Depth(), z.capacity, z.capacity)
  {
    hide Frame, Span, Sizeof;
    SpanMonotone(Sizeof(e), i, n);
    FrameWiden(s1, s2, z, e.Depth(), ElemAt(e, d, i), ElemAt(e, d, i) + Sizeof(e), e.Depth(), z.capacity, z.capacity);
    FrameTransitive(s, s1, s2, z, e.Depth(), z.capacity, z.capacity);
  }

  lemma {:induction false} ElemStepsStart(s: Stage, z: Zone, e: Ty, vs: seq<Val>, d: nat)
    requires s.top <= z.capacity
    ensures ElemSteps(s, s, z, e, vs, d, 0)
  {
    hide Keeps, Frame;
    KeepsSame(s, s, z);
    FrameSame(s, s, z, e.Depth(), z.capacity, z.capacity);
  }

  /** Redirecting the handle at `p` takes nothing from anyone. */
  lemma {:induction false} RedirectGivesKeeps(s: Stage, s': Stage, z: Zone, p: nat, move: int)
    requires Redirected(s.mem, s'.mem, p, move, z.start, s.top, s'.top, z.capacity)
    requires s.dest <= s.mem[p].data + move
    ensures Keeps(s, s', z)
  {
    hide Keeps, WellFormed, Deep, Prepared, Inflated, Sizeof, ElemAt, NumElements, Redirected;
    forall ty: Ty, a: nat | Home(ty, a, s.top, z.capacity) && WellFormed(s.mem, ty, a, z.start, s.top)
      ensures KeepsAt(s, s', z, ty, a)
    {
      RedirectInPlace(s, s', z, p, move, ty, a);
      RedirectKeeps(s.mem, s'.mem, p, move, z.start, s.top, s'.top, z.capacity, ty, a, 0);
      forall dest: nat | Prepared(s.mem, ty, a, z.start, dest) && dest + Inflated(ty, Deep(s.mem, ty, a)) <= s.dest
        ensures Prepared(s'.mem, ty, a, z.start, dest)
      {
        RedirectKeepsPrepared(s.mem, s'.mem, p, move, z.start, s.top, s'.top, z.capacity, ty, a, 0, dest);
      }
    }
    KeepsIntro(s, s', z);
  }

  lemma {:induction false} RedirectInPlace(s: Stage, s': Stage, z: Zone, p: nat, move: int, ty: Ty, a: nat)
    requires Redirected(s.mem, s'.mem, p, move, z.start, s.top, s'.top, z.capacity) && Home(ty, a, s.top, z.capacity)
    ensures SameCells(s.mem, s'.mem, p, a, a + Sizeof(ty), 0)
  {
    hide Sizeof, ElemAt, NumElements;
    forall q {:trigger s.mem[q]} | a <= q < a + Sizeof(ty) && q < |s.mem|
      ensures s'.mem[q] == if q == p then s'.mem[p] else s.mem[q]
    {
      var _ := s.mem[q];
    }
  }

  lemma {:induction false} RedirectFrame(s: Stage, s': Stage, z: Zone, p: nat, move: int, r: nat)
    requires Redirected(s.mem, s'.mem, p, move, z.start, s.top, s'.top, z.capacity)
    ensures Frame(s, s', z, Tensor(r, s.mem[p].elem).Depth(), p, p + Sizeof(Tensor(r, s.mem[p].elem)))
  {
    hide ElemAt, NumElements, SameCells;
    assert s.mem[p].elem.Depth() < Tensor(r, s.mem[p].elem).Depth();
    assert p < p + Sizeof(Tensor(r, s.mem[p].elem));
    hide Sizeof;
  }

  /** The stage at which the loop over the elements starts: the handle at `p` may have been redirected. */
  ghost predicate MovedAside(s: Stage, s1: Stage, z: Zone, r: nat, e: Ty, p: nat) {
    && p < |s.mem| && p < |s1.mem| && s.mem[p].Handle? && s1.mem[p].Handle? && s.mem[p].elem == e
    && s1.mem[p] == s.mem[p].(data := s1.mem[p].data)
    && (z.start <= p < s.top || z.capacity <= p)
    && z.start <= s1.mem[p].data && s.dest <= s1.mem[p].data && s.top <= s1.top <= z.capacity
    && s1.dest == s.dest + Padded(Span(Sizeof(e), NumElements(s.mem[p].shape)))
    && s1.top + s.dest <= s.High() + s1.dest
    && Keeps(s, s1, z)
    && Frame(s, s1, z, Tensor(r, e).Depth(), p, p + Sizeof(Tensor(r, e)))
  }

  /** Preparing a tensor whose data does not lie below the mark is moving its data aside if need be,
      then preparing its elements. */
  lemma {:induction false} StepTensor(s: Stage, s1: Stage, s2: Stage, z: Zone, r: nat, e: Ty, p: nat)
    requires z.start <= s.top && WellFormed(s.mem, Tensor(r, e), p, z.start, s.top)
    requires Home(Tensor(r, e), p, s.top, z.capacity)
    requires MovedAside(s, s1, z, r, e, p)
    requires var d, n := s1.mem[p].data,
      NumElements(s1.mem[p].shape); ElemSteps(s1, s2, z, e, DeepElems(s1.mem, e, d, n), d, n)
    ensures Step(s, s2, z, Tensor(r, e), p)
  {
    hide Keeps, Frame, WellFormed, Deep, DeepElems, Prepared, PreparedElems, Inflated, InflatedAll, InflatedElems, Home;
    hide Sizeof, Span, NumElements, Padded;
    KeepsTransitive(s, s1, s2, z);
    StepTensorFrame(s, s1, s2, z, r, e, p);
    StepTensorValues(s, s1, s2, z, r, e, p);
  }

  lemma {:induction false} StepTensorFrame(s: Stage, s1: Stage, s2: Stage, z: Zone, r: nat, e: Ty, p: nat)
    requires z.start <= s.top <= s1.top <= z.capacity
    requires Frame(s, s1, z, Tensor(r, e).Depth(), p, p + Sizeof(Tensor(r, e)))
    requires Frame(s1, s2, z, e.Depth(), z.capacity, z.capacity)
    ensures Frame(s, s2, z, Tensor(r, e).Depth(), p, p + Sizeof(Tensor(r, e)))
  {
    var depth, end := Tensor(r, e).Depth(), p + Sizeof(Tensor(r, e));
    hide Frame, Sizeof;
    FrameWiden(s1, s2, z, e.Depth(), z.capacity, z.capacity, depth, p, end);
    FrameTransitive(s, s1, s2, z, depth, p, end);
  }

  lemma {:induction false} StepTensorValues(s: Stage, s1: Stage, s2: Stage, z: Zone, r: nat, e: Ty, p: nat)
    requires z.start <= s.top && WellFormed(s.mem, Tensor(r, e), p, z.start, s.top)
    requires Home(Tensor(r, e), p, s.top, z.capacity)
    requires MovedAside(s, s1, z, r, e, p)
    requires var d, n := s1.mem[p].data,
      NumElements(s1.mem[p].shape); ElemSteps(s1, s2, z, e, DeepElems(s1.mem, e, d, n), d, n)
    ensures Prepared(s2.mem, Tensor(r, e), p, z.start, s.dest)
    ensures s2.dest == s.dest + Inflated(Tensor(r, e), Deep(s.mem, Tensor(r, e), p))
  {
    hide Keeps, Frame, Deep, DeepElems, Inflated, InflatedElems, Sizeof, Span, NumElements, Padded, WellFormed,
      Prepared, PreparedElems, ElemAt;
    var d, n := s1.mem[p].data, NumElements(s1.mem[p].shape);
    var vs := DeepElems(s1.mem, e, d, n);
    KeepsUse(s, s1, z, Tensor(r, e), p);
    KeepsUse(s1, s2, z, Tensor(r, e), p);
    HandleStays(s1, s2, z, e, p);
    HandleSeen(s1.mem, s2.mem, r, e, p);
    InflatedTensor(s1.mem, r, e, p);
    PreparedTensor(s2.mem, r, e, p, z.start, s.dest);
  }

  /** Preparing the elements leaves the handle of their tensor alone. */
  lemma {:induction false} HandleStays(s: Stage, s': Stage, z: Zone, e: Ty, p: nat)
    requires Frame(s, s', z, e.Depth(), z.capacity, z.capacity)
    requires p < |s.mem| && s.mem[p].Handle? && s.mem[p].elem == e && (p < s.top || z.capacity <= p)
    ensures p < |s'.mem| && s'.mem[p] == s.mem[p]
  {
    hide Carried;
  }

  /** A handle of the same deep value has the same shape, and elements of the same deep values if its data stays. */
  lemma {:induction false} HandleSeen(m: Memory, m': Memory, r: nat, e: Ty, p: nat)
    requires p < |m| && m[p].Handle? && p < |m'| && m'[p].Handle?
      && Deep(m', Tensor(r, e), p) == Deep(m, Tensor(r, e), p)
    ensures m'[p].shape == m[p].shape
    ensures m'[p].data == m[p].data ==>
      DeepElems(m', e, m[p].data, NumElements(m[p].shape)) == DeepElems(m, e, m[p].data, NumElements(m[p].shape))
  {
    hide DeepElems, NumElements;
  }

  lemma {:induction false} InflatedTensor(m: Memory, r: nat, e: Ty, p: nat)
    requires p < |m| && m[p].Handle?
    ensures var vs := DeepElems(m, e, m[p].data, NumElements(m[p].shape));
      Inflated(Tensor(r, e), Deep(m, Tensor(r, e), p)) == Padded(Span(Sizeof(e), |vs|)) + InflatedElems(e, vs, |vs|)
  {
    hide DeepElems, NumElements, InflatedElems, Padded, Span, Sizeof;
  }

  lemma {:induction false} PreparedTensor(m: Memory, r: nat, e: Ty, p: nat, start: nat, dest: nat)
    requires p < |m| && m[p].Handle? && dest <= m[p].data
    requires var d, n := m[p].data, NumElements(m[p].shape);
      var vs := DeepElems(m, e, d, n);
      forall j: nat | j < n ::
        Prepared(m, e, ElemAt(e, d, j), start, dest + Padded(Span(Sizeof(e), n)) + InflatedElems(e, vs, j))
    ensures Prepared(m, Tensor(r, e), p, start, dest)
  {
    hide DeepElems, NumElements, InflatedElems, Padded, Span, Sizeof;
  }

  /** What is prepared already is left alone. */
  lemma {:induction false} StepIdle(s: Stage, s': Stage, z: Zone, ty: Ty, a: nat)
    requires s.top <= z.capacity && Prepared(s.mem, ty, a, z.start, s.dest)
    requires s' == s.(dest := s.dest + Inflated(ty, Deep(s.mem, ty, a)))
    ensures Step(s, s', z, ty, a)
  {
    hide Keeps, Frame, Prepared, Inflated, Deep;
    KeepsSame(s, s', z);
    FrameSame(s, s', z, ty.Depth(), a, a + Sizeof(ty));
  }

  lemma {:induction false} StepTrivial(s: Stage, z: Zone, ty: Ty, a: nat)
    requires s.top <= z.capacity && (ty.Scalar? || ty.Unit?)
    ensures Step(s, s, z, ty, a)
  {
    hide Keeps, Frame, Deep;
    StepIdle(s, s, z, ty, a);
  }

  lemma {:induction false} StepBelow(s: Stage, s': Stage, z: Zone, r: nat, e: Ty, a: nat)
    requires s.top <= z.capacity && WellFormed(s.mem, Tensor(r, e), a, z.start, s.top) && s.mem[a].data < z.start
    requires s' == s.(dest := s.dest + Inflated(Tensor(r, e), Deep(s.mem, Tensor(r, e), a)))
    ensures Step(s, s', z, Tensor(r, e), a)
  {
    WellFormedEnd(s.mem, e, s.mem[a].data, NumElements(s.mem[a].shape), z.start, z.start);
    hide Step, Inflated, Deep, WellFormed;
    StepIdle(s, s', z, Tensor(r, e), a);
  }
}
