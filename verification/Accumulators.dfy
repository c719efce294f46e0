/** Accumulating, edge by edge, upper bounds on the best value within reach of every node of a graph. */
module Accumulators {
  import opened CumSequences
  import opened BoundPropagation

  class UpperBoundsAccumulator<N(==, !new)> {
    const valueFn: N -> real
    const maxTimeLeft: Option<int>
    var inboundNodes: map<N, set<N>>
    var upperBounds: map<N, CumSequence>
    /** The recorded edges. */
    ghost var edges: set<(N, N)>
    /** The critical values of every known node. */
    ghost var view: View<N>

    ghost predicate Valid()
      reads this, upperBounds.Values
    {
      && view.Keys == upperBounds.Keys
      && (forall n | n in upperBounds :: Tracks(upperBounds[n], view[n]))
      && (forall m, n | m in upperBounds && n in upperBounds && m != n :: upperBounds[m] != upperBounds[n])
      && Recorded(edges, inboundNodes)
    }

    lemma {:induction false} ViewKeys()
      requires Valid()
      ensures view.Keys == upperBounds.Keys
    {
      hide Tracks;
    }

    /** Every bound is exact: the least value within reach in the time left. */
    ghost predicate Exact()
      reads this
    {
      Invariant(edges, valueFn, view) && AllConsistent(edges, maxTimeLeft, view) && Settled(maxTimeLeft, view)
    }

    constructor (valueFn: N -> real, maxTimeLeft: Option<int>)
      ensures Valid() && Exact() && edges == {} && view == map[]
      ensures this.valueFn == valueFn && this.maxTimeLeft == maxTimeLeft
    {
      this.valueFn, this.maxTimeLeft := valueFn, maxTimeLeft;
      inboundNodes, upperBounds := map[], map[];
      edges, view := {}, map[];
    }

    /** `_get_upper_bounds` */
    method GetUpperBounds(node: N) returns (b: CumSequence)
      requires Valid()
      modifies this`upperBounds, this`view
      ensures Valid() && edges == old(edges) && view == Known(valueFn, old(view), node)
      ensures node in old(upperBounds) ==> upperBounds == old(upperBounds)
      ensures node !in old(upperBounds) ==> fresh(b) && upperBounds == old(upperBounds)[node := b]
      ensures node in upperBounds && b == upperBounds[node] && b.items == view[node]
    {
      hide Sorted, Refines, At, Recorded, Tracks;
      if node in upperBounds {
        TracksIs(upperBounds[node], view[node]);
        return upperBounds[node];
      }
      b := new CumSequence(Min);
      var _ := b.Update(0, valueFn(node));
      SingleItem(b.direction, b.items, valueFn(node));
      TracksIs(b, b.items);
      upperBounds := upperBounds[node := b];
      view := view[node := b.items];
    }

    /** The first part of `_update_edge`: applies the updates one step later and keeps those that helped. */
    method Apply(b: CumSequence, src: N, updates: seq<Item>) returns (survivors: seq<Item>)
      requires Valid() && Ordered(view) && src in upperBounds && b == upperBounds[src]
      requires forall u | u in updates :: u.key >= 0
      modifies this`view, b
      ensures Valid()
      ensures Applied(maxTimeLeft, old(view), view, src, updates, survivors)
    {
      hide Sorted, Refines, At, Applied, Updated, Ordered, Tracks, Recorded;
      survivors := [];
      AppliedNone(maxTimeLeft, view, src);
      for i := 0 to |updates|
        invariant Valid()
        invariant Applied(maxTimeLeft, old(view), view, src, updates[..i], survivors)
      {
        var u := updates[i];
        assert updates[..i + 1] == updates[..i] + [u];
        if InTime(maxTimeLeft, u.key) {
          ghost var before := view;
          TracksIs(b, view[src]);
          var helped := b.Update(u.key + 1, u.value);
          assert helped.Some? && helped == Some(helped.value);
          view := view[src := b.items];
          TracksIs(b, view[src]);
          UpdatedHere(before, view, src, u.key + 1, u.value, helped.value, b);
          AppliedOne(maxTimeLeft, old(view), before, view, src, updates[..i], survivors, u, helped.value);
          if helped.value {
            survivors := survivors + [Item(u.key + 1, u.value)];
          }
        } else {
          AppliedSkip(maxTimeLeft, old(view), view, src, updates[..i], survivors, u);
        }
      }
      assert updates[..|updates|] == updates;
    }

    /** The known nodes keep their sequences. */
    twostate predicate Keeps(src: N)
      reads this
    {
      && edges == old(edges) && upperBounds.Keys == old(upperBounds).Keys + {src}
      && (forall n | n in old(upperBounds) :: upperBounds[n] == old(upperBounds)[n])
      && (forall n | n in upperBounds && n !in old(upperBounds) :: fresh(upperBounds[n]))
    }

    /** `_update_edge` */
    method UpdateEdge(src: N, updates: seq<Item>, ghost fuel: nat)
      requires Valid() && Pending(edges, valueFn, Known(valueFn, view, src), src, updates, fuel)
      modifies this, upperBounds.Values
      ensures Valid() && Keeps(src) && Invariant(edges, valueFn, view)
      ensures Propagated(edges, maxTimeLeft, Known(valueFn, old(view), src), view)
      ensures Reached(view, maxTimeLeft, {src}, updates)
      ensures Settled(maxTimeLeft, old(view)) ==> Settled(maxTimeLeft, view)
      decreases fuel, 1
    {
      hide Valid, Tracks, Invariant, Propagated, Applied, Ordered, Pending, Handed, Reached, HandedOn, Settled, Known;
      var b := GetUpperBounds(src);
      ghost var v0 := view;
      PendingIs(edges, valueFn, v0, src, updates, fuel);
      var survivors := Apply(b, src, updates);
      ghost var v1 := view;
      if Settled(maxTimeLeft, old(view)) {
        KnownSettled(maxTimeLeft, valueFn, old(view), src);
        AppliedSettled(maxTimeLeft, v0, v1, src, updates, survivors);
      }
      AppliedInvariant(edges, valueFn, maxTimeLeft, v0, v1, src, updates, survivors, fuel);
      if |survivors| > 0 {
        PendingSurvivors(edges, valueFn, maxTimeLeft, v0, v1, src, updates, survivors, fuel);
        UpdateNode(src, survivors, fuel - 1);
      } else {
        NoneHandedOn(edges, maxTimeLeft, v1, src);
      }
      EdgeDone(edges, valueFn, maxTimeLeft, v0, v1, view, src, updates, survivors);
    }

    /** `_inbound_nodes[node]`, a dictionary that makes missing entries */
    method Inbound(node: N) returns (sources: set<N>)
      requires Valid()
      modifies this`inboundNodes
      ensures Valid() && forall a :: (a, node) in edges <==> a in sources
    {
      hide Tracks;
      if node !in inboundNodes {
        inboundNodes := inboundNodes[node := {}];
      }
      sources := inboundNodes[node];
    }

    /** `_update_node` */
    method UpdateNode(node: N, updates: seq<Item>, ghost fuel: nat)
      requires Valid() && Handed(edges, valueFn, view, node, updates, fuel)
      modifies this, upperBounds.Values
      ensures Valid() && edges == old(edges) && upperBounds == old(upperBounds) && Invariant(edges, valueFn, view)
      ensures Propagated(edges, maxTimeLeft, old(view), view) && HandedOn(edges, maxTimeLeft, view, node, updates)
      ensures Settled(maxTimeLeft, old(view)) ==> Settled(maxTimeLeft, view)
      decreases fuel, 2
    {
      hide Valid, Tracks, Invariant, Propagated, Applied, Ordered, Pending, Handed, Reached, HandedOn, Known,
        Settled;
      var sources := Inbound(node);
      var rest := sources;
      HandedNone(edges, valueFn, maxTimeLeft, view, node, updates, fuel);
      ghost var done: set<N> := {};
      while rest != {}
        invariant rest <= sources && done == sources - rest
        invariant Valid() && edges == old(edges) && upperBounds == old(upperBounds) && Invariant(edges, valueFn, view)
        invariant Propagated(edges, maxTimeLeft, old(view), view)
        invariant Reached(view, maxTimeLeft, done, updates)
        invariant Settled(maxTimeLeft, old(view)) ==> Settled(maxTimeLeft, view)
        decreases |rest|
      {
        var src :| src in rest;
        ghost var before := view;
        ViewKeys();
        PendingSource(edges, valueFn, maxTimeLeft, old(view), view, src, node, updates, fuel);
        UpdateEdge(src, updates, fuel);
        SameKnown(old(upperBounds), upperBounds, src);
        PropagatedTransitive(edges, maxTimeLeft, old(view), before, view);
        ReachedMore(edges, maxTimeLeft, before, view, done, src, updates);
        rest, done := rest - {src}, done + {src};
      }
      assert done == sources;
      AllHandedOn(edges, maxTimeLeft, view, node, updates, done);
    }

    /** `_inbound_nodes[dst].add(src)` */
    method RecordEdge(src: N, dst: N)
      requires Valid()
      modifies this`inboundNodes, this`edges
      ensures Valid() && edges == old(edges) + {(src, dst)}
    {
      hide Tracks;
      inboundNodes := inboundNodes[dst := (if dst in inboundNodes then inboundNodes[dst] else {}) + {src}];
      edges := edges + {(src, dst)};
    }

    /** `add_edge`: afterwards the bound of every known node, at every time left within the limit, is the least
        value of the nodes within that many recorded edges. */
    method AddEdge(src: N, dst: N)
      requires Valid() && Exact()
      modifies this, upperBounds.Values
      ensures Valid() && Exact()
      ensures edges == if src == dst then old(edges) else old(edges) + {(src, dst)}
      ensures view.Keys == if src == dst then old(view).Keys else old(view).Keys + {src, dst}
      ensures forall n, t: nat | n in view && (maxTimeLeft.None? || t <= maxTimeLeft.value) ::
        Least(edges, valueFn, view, n, t)
      ensures maxTimeLeft.Some? && maxTimeLeft.value >= 0 ==> forall n, t: nat | t >= maxTimeLeft.value ::
        Bound(view, n, t) == Bound(view, n, maxTimeLeft.value)
    {
      hide Valid, Tracks, Invariant, Propagated, Known, Least, AllConsistent, Pending, Reached, Bound;
      if src != dst {
        RecordEdge(src, dst);
        var dstBounds := GetUpperBounds(dst);
        ghost var v2 := Known(valueFn, view, src);
        EdgePending(old(edges), valueFn, maxTimeLeft, old(view), src, dst);
        KnownSettled(maxTimeLeft, valueFn, old(view), dst);
        UpdateEdge(src, dstBounds.items, |v2.Keys|);
        EdgeExact(old(edges), valueFn, maxTimeLeft, v2, view, src, dst, |v2.Keys|);
      }
      forall n, t: nat | n in view && (maxTimeLeft.None? || t <= maxTimeLeft.value)
        ensures Least(edges, valueFn, view, n, t) {
        ExactIsLeast(edges, valueFn, maxTimeLeft, view, n, t);
      }
    }
  }

  /** The edges are those of the dictionary. */
  ghost predicate Recorded<N(!new)>(edges: set<(N, N)>, inbound: map<N, set<N>>) {
    forall a, b :: (a, b) in edges <==> b in inbound && a in inbound[b]
  }

  ghost predicate Tracks(b: CumSequence, items: seq<Item>)
    reads b
  {
    b.Valid() && b.direction == Min && b.items == items
  }

  lemma {:induction false} TracksIs(b: CumSequence, items: seq<Item>)
    ensures Tracks(b, items) <==> b.Valid() && b.direction == Min && b.items == items
  {}

  lemma {:induction false} SingleItem(d: Direction, items: seq<Item>, v: real)
    requires Sorted(d, items) && forall t :: At(items, t) == if 0 <= t then Improve(d, At([], t), v) else At([], t)
    ensures items == [Item(0, v)]
  {
    hide At, Sorted;
    AtNothing();
    var one := [Item(0, v)];
    forall t ensures At(items, t) == At(one, t) {
      OneItem(d, v, t);
    }
    OneItem(d, v, 0);
    DenseDetermines(d, items, one);
  }

  lemma {:induction false} OneItem(d: Direction, v: real, t: int)
    ensures Sorted(d, [Item(0, v)]) && At([Item(0, v)], t) == if t >= 0 then Some(v) else None
  {
    BisectIs(d, [Item(0, v)], t, if t >= 0 then 1 else 0);
  }

  lemma {:induction false} UpdatedHere<N(!new)>(view: View<N>, view': View<N>, src: N, t: int, v: real, helped: bool,
      b: CumSequence)
    requires b.Valid() && b.direction == Min && src in view && view' == view[src := b.items]
    requires forall u :: At(b.items, u) == if t <= u then Improve(Min, At(view[src], u), v) else At(view[src], u)
    requires !helped ==> b.items == view[src]
    requires helped ==> At(b.items, t) == Some(v) && At(view[src], t) != Some(v)
    ensures Updated(view, view', src, t, v, helped)
  {
    hide At, Sorted, Refines;
  }

  // ---------------------------------------------------------------- what the methods pass on

  /** `updates` can be applied to `src` one step later: their values are in reach, and `fuel` bounds how many nodes
      each of them can still help, which is why the recursion ends on any graph. */
  ghost predicate Pending<N(!new)>(edges: set<(N, N)>, valueFn: N -> real, view: View<N>, src: N, updates: seq<Item>,
      fuel: nat) {
    && Invariant(edges, valueFn, view) && src in view
    && (forall u | u in updates ::
      u.key >= 0 && Achieved(edges, valueFn, src, u.key + 1, u.value) && |Worse(view, u.key + 1, u.value)| <= fuel)
  }

  /** `updates` have lowered the bounds of `node`, and can be handed to the nodes before it. */
  ghost predicate Handed<N(!new)>(edges: set<(N, N)>, valueFn: N -> real, view: View<N>, node: N, updates: seq<Item>,
      fuel: nat) {
    && Invariant(edges, valueFn, view) && node in view
    && (forall u | u in updates ::
      u.key >= 0 && Achieved(edges, valueFn, node, u.key, u.value) && |Worse(view, u.key + 1, u.value)| <= fuel)
  }

  /** The updates have got through to `nodes`. */
  ghost predicate Reached<N(!new)>(view: View<N>, limit: Option<int>, nodes: set<N>, updates: seq<Item>) {
    forall a, u {:trigger a in nodes, u in updates} |
      a in nodes && u in updates && InTime(limit, u.key) :: AtMost(view, a, u.key + 1, u.value)
  }

  ghost predicate HandedOn<N(!new)>(edges: set<(N, N)>, limit: Option<int>, view: View<N>, node: N, updates: seq<Item>)
  {
    forall a, u {:trigger (a, node) in edges, u in updates} |
      (a, node) in edges && u in updates && InTime(limit, u.key) :: AtMost(view, a, u.key + 1, u.value)
  }

  lemma {:induction false} SameKnown<N>(bs: map<N, CumSequence>, bs': map<N, CumSequence>, src: N)
    requires src in bs && bs'.Keys == bs.Keys + {src} && forall n | n in bs :: bs'[n] == bs[n]
    ensures bs' == bs
  {
    assert bs'.Keys == bs.Keys;
  }

  lemma {:induction false} PendingIs<N(!new)>(edges: set<(N, N)>, valueFn: N -> real, view: View<N>, src: N,
      updates: seq<Item>, fuel: nat)
    requires Pending(edges, valueFn, view, src, updates, fuel)
    ensures Ordered(view) && src in view && forall u | u in updates :: u.key >= 0
  {
    hide Ordered, Sound, Closed, Achieved, Worse;
  }

  lemma {:induction false} AppliedInvariant<N(!new)>(edges: set<(N, N)>, valueFn: N -> real, limit: Option<int>,
      v0: View<N>, v1: View<N>, src: N, updates: seq<Item>, survivors: seq<Item>, fuel: nat)
    requires Pending(edges, valueFn, v0, src, updates, fuel) && Applied(limit, v0, v1, src, updates, survivors)
    ensures Invariant(edges, valueFn, v1) && src in v1
  {
    hide Sound, At, Bound, AtMost, Survives, Achieved, Worse;
    AppliedSound(edges, valueFn, limit, v0, v1, src, updates, survivors);
  }

  /** Each update that helped can help fewer nodes at the next step. */
  lemma {:induction false} PendingSurvivors<N(!new)>(edges: set<(N, N)>, valueFn: N -> real, limit: Option<int>,
      v0: View<N>, v1: View<N>, src: N, updates: seq<Item>, survivors: seq<Item>, fuel: nat)
    requires Pending(edges, valueFn, v0, src, updates, fuel) && Applied(limit, v0, v1, src, updates, survivors)
    requires |survivors| > 0
    ensures fuel > 0 && Handed(edges, valueFn, v1, src, survivors, fuel - 1)
  {
    hide At, Bound, AtMost, Worse, Ordered, Lower, InTime, Sound, Closed, Achieved;
    AppliedSound(edges, valueFn, limit, v0, v1, src, updates, survivors);
    AppliedInvariant(edges, valueFn, limit, v0, v1, src, updates, survivors, fuel);
    forall s | s in survivors ensures s.key >= 0 && |Worse(v1, s.key + 1, s.value)| < fuel {
      assert Survives(limit, v0, v1, src, updates, s);
      var u := Item(s.key - 1, s.value);
      assert u in updates;
      FewerWorse(v0, v1, src, s.key, s.value);
    }
    assert survivors[0] in survivors;
  }

  lemma {:induction false} NoneHandedOn<N(!new)>(edges: set<(N, N)>, limit: Option<int>, view: View<N>, node: N)
    ensures Propagated(edges, limit, view, view) && HandedOn(edges, limit, view, node, [])
  {
    hide Propagated, AtMost;
    PropagatedSame(edges, limit, view);
  }

  lemma {:induction false} EdgeDone<N(!new)>(edges: set<(N, N)>, valueFn: N -> real, limit: Option<int>, v0: View<N>,
      v1: View<N>, v2: View<N>, src: N, updates: seq<Item>, survivors: seq<Item>)
    requires Applied(limit, v0, v1, src, updates, survivors) && Propagated(edges, limit, v1, v2)
    requires Invariant(edges, valueFn, v2)
    requires HandedOn(edges, limit, v2, src, survivors)
    ensures Propagated(edges, limit, v0, v2) && Reached(v2, limit, {src}, updates)
  {
    hide Applied, Propagated, Ordered, Sound, Closed, AtMost, InTime;
    AppliedPropagated(edges, limit, v0, v1, v2, src, updates, survivors);
  }

  lemma {:induction false} HandedNone<N(!new)>(edges: set<(N, N)>, valueFn: N -> real, limit: Option<int>,
      view: View<N>, node: N, updates: seq<Item>, fuel: nat)
    requires Handed(edges, valueFn, view, node, updates, fuel)
    ensures Invariant(edges, valueFn, view) && node in view
    ensures Propagated(edges, limit, view, view) && Reached(view, limit, {}, updates)
  {
    hide Propagated, AtMost, Invariant, Achieved, Worse;
    PropagatedSame(edges, limit, view);
  }

  lemma {:induction false} PendingSource<N(!new)>(edges: set<(N, N)>, valueFn: N -> real, limit: Option<int>,
      v0: View<N>, v1: View<N>, src: N, node: N, updates: seq<Item>, fuel: nat)
    requires Handed(edges, valueFn, v0, node, updates, fuel)
    requires Invariant(edges, valueFn, v1) && Propagated(edges, limit, v0, v1) && (src, node) in edges
    ensures src in v1 && Known(valueFn, v1, src) == v1 && Pending(edges, valueFn, v1, src, updates, fuel)
  {
    hide At, Bound, AtMost, Worse, Ordered, Achieved, Sound, Lower;
    forall u | u in updates
      ensures Achieved(edges, valueFn, src, u.key + 1, u.value) && |Worse(v1, u.key + 1, u.value)| <= fuel {
      AchievedBefore(edges, valueFn, src, node, u.key, u.value);
      NoMoreWorse(v0, v1, u.key + 1, u.value);
    }
  }

  lemma {:induction false} ReachedMore<N(!new)>(edges: set<(N, N)>, limit: Option<int>, v0: View<N>, v1: View<N>,
      nodes: set<N>, src: N, updates: seq<Item>)
    requires Propagated(edges, limit, v0, v1) && Reached(v0, limit, nodes, updates)
    requires Reached(v1, limit, {src}, updates)
    ensures Reached(v1, limit, nodes + {src}, updates)
  {
    hide At, Bound, AtMost, Lower;
    forall a, u | a in nodes + {src} && u in updates && InTime(limit, u.key) ensures AtMost(v1, a, u.key + 1, u.value) {
      if a in nodes {
        LowerAtMost(v0, v1, a, u.key + 1, u.value);
      } else {
        assert a in {src};
      }
    }
  }

  lemma {:induction false} AllHandedOn<N(!new)>(edges: set<(N, N)>, limit: Option<int>, view: View<N>, node: N,
      updates: seq<Item>, nodes: set<N>)
    requires Reached(view, limit, nodes, updates) && forall a :: (a, node) in edges ==> a in nodes
    ensures HandedOn(edges, limit, view, node, updates)
  {
    hide AtMost, InTime;
  }

  lemma {:induction false} EnoughFuel<N(!new)>(view: View<N>, updates: seq<Item>)
    ensures forall u | u in updates :: |Worse(view, u.key + 1, u.value)| <= |view.Keys|
  {
    hide Worse;
    PropagatedSame({}, None, view);
    forall u | u in updates ensures |Worse(view, u.key + 1, u.value)| <= |view.Keys| {
      NoMoreWorse(view, view, u.key + 1, u.value);
    }
  }

  /** When an edge has been recorded, the values of its end are ready to be propagated. */
  lemma {:induction false} EdgePending<N(!new)>(edges: set<(N, N)>, valueFn: N -> real, limit: Option<int>,
      view: View<N>, src: N, dst: N)
    requires Invariant(edges, valueFn, view) && AllConsistent(edges, limit, view) && src != dst
    ensures var v1 := Known(valueFn, view, dst);
      var v2 := Known(valueFn, v1, src);
      && dst in v1 && dst in v2 && v2[dst] == v1[dst] && v2.Keys == view.Keys + {src, dst}
      && Pending(edges + {(src, dst)}, valueFn, v2, src, v1[dst], |v2.Keys|) && AllConsistent(edges, limit, v2)
  {
    hide Ordered, Sound, Closed, AllConsistent, Pending, Known, Invariant;
    KnownKeys(valueFn, view, dst);
    NewEdge(edges, valueFn, limit, view, src, dst);
    var v2 := Known(valueFn, Known(valueFn, view, dst), src);
    ItemsPending(edges + {(src, dst)}, valueFn, v2, src, dst);
  }

  lemma {:induction false} ItemsPending<N(!new)>(edges: set<(N, N)>, valueFn: N -> real, view: View<N>, src: N, dst: N)
    requires Invariant(edges, valueFn, view) && (src, dst) in edges && src in view && dst in view
    ensures Pending(edges, valueFn, view, src, view[dst], |view.Keys|)
  {
    hide Invariant, Achieved, Worse;
    ItemsAchieved(edges, valueFn, view, src, dst);
    EnoughFuel(view, view[dst]);
  }

  lemma {:induction false} EdgeExact<N(!new)>(edges: set<(N, N)>, valueFn: N -> real, limit: Option<int>, view: View<N>,
      view': View<N>, src: N, dst: N, fuel: nat)
    requires dst in view && Pending(edges + {(src, dst)}, valueFn, view, src, view[dst], fuel)
    requires Invariant(edges + {(src, dst)}, valueFn, view')
    requires AllConsistent(edges, limit, view) && Propagated(edges + {(src, dst)}, limit, view, view')
    requires Reached(view', limit, {src}, view[dst])
    ensures AllConsistent(edges + {(src, dst)}, limit, view') && view'.Keys == view.Keys
  {
    hide Ordered, Sound, Closed, AllConsistent, AtMost, InTime, Achieved, Worse;
    forall u | u in view[dst] && InTime(limit, u.key) ensures AtMost(view', src, u.key + 1, u.value) {
      assert src in {src};
    }
    EdgePropagated(edges, limit, view, view', src, dst);
  }

  lemma {:induction false} ExactIsLeast<N(!new)>(edges: set<(N, N)>, valueFn: N -> real, limit: Option<int>,
      view: View<N>, n: N, t: nat)
    requires Invariant(edges, valueFn, view) && AllConsistent(edges, limit, view) && n in view && InTime(limit, t - 1)
    ensures Least(edges, valueFn, view, n, t)
  {
    hide Ordered, Sound, Closed, AllConsistent, InTime, Least;
    ConsistentIsLeast(edges, valueFn, limit, view, n, t);
  }
}
