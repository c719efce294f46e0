/** Upper bounds on nodes of a graph, and what propagating them along an edge keeps. */
module BoundPropagation {
  import opened CumSequences

  /** The critical values of every known node. */
  type View<!N> = map<N, seq<Item>>

  ghost predicate Ordered<N(!new)>(view: View<N>) {
    forall n | n in view :: Sorted(Min, view[n])
  }

  function Bound<N>(view: View<N>, n: N, t: int): Option<real> {
    if n in view then At(view[n], t) else None
  }

  /** The bound of `n` at `t` is at most `v`. */
  predicate AtMost<N>(view: View<N>, n: N, t: int, v: real) {
    Bound(view, n, t).Some? && Bound(view, n, t).value <= v
  }

  /** Along the edge from `a` to `b`: what `b` can reach in `t` steps `a` can reach in one more. */
  predicate Consistent<N>(view: View<N>, a: N, b: N, t: int) {
    Bound(view, b, t).Some? ==> AtMost(view, a, t + 1, Bound(view, b, t).value)
  }

  predicate InTime(limit: Option<int>, t: int) {
    limit.None? || t < limit.value
  }

  /** Bounds have only got lower. */
  ghost predicate Lower<N(!new)>(view: View<N>, view': View<N>) {
    && view'.Keys == view.Keys
    && (forall n, t {:trigger Bound(view', n, t)} | Bound(view, n, t).Some? ::
      AtMost(view', n, t, Bound(view, n, t).value))
  }

  /** Bounds have got lower, and an edge is inconsistent at `t` only if it was so before and its head is as it was. */
  ghost predicate Propagated<N(!new)>(edges: set<(N, N)>, limit: Option<int>, view: View<N>, view': View<N>) {
    && Lower(view, view')
    && (forall a, b, t {:trigger Consistent(view', a, b, t)} |
      (a, b) in edges && t >= 0 && InTime(limit, t) && !Consistent(view', a, b, t) ::
          !Consistent(view, a, b, t) && Bound(view', b, t) == Bound(view, b, t))
  }

  lemma {:induction false} AtLater(items: seq<Item>, t: int, u: int)
    requires Sorted(Min, items) && t <= u && At(items, t).Some?
    ensures At(items, u).Some? && At(items, u).value <= At(items, t).value
  {
    BisectSplits(Min, items, t);
    BisectSplits(Min, items, u);
    hide Bisect;
    assert items[Bisect(items, t) - 1].key <= u;
  }

  /** Bounds do not grow with the time left. */
  lemma {:induction false} AtMostLater<N(!new)>(view: View<N>, n: N, t: int, u: int, v: real)
    requires Ordered(view) && t <= u && AtMost(view, n, t, v)
    ensures AtMost(view, n, u, v)
  {
    hide Sorted, At;
    AtLater(view[n], t, u);
  }

  lemma {:induction false} PropagatedTransitive<N(!new)>(edges: set<(N, N)>, limit: Option<int>, v0: View<N>,
      v1: View<N>, v2: View<N>)
    requires Propagated(edges, limit, v0, v1) && Propagated(edges, limit, v1, v2)
    ensures Propagated(edges, limit, v0, v2)
  {
    hide At, Consistent, Bound;
    forall n, t | Bound(v0, n, t).Some? ensures AtMost(v2, n, t, Bound(v0, n, t).value) {
      assert AtMost(v1, n, t, Bound(v0, n, t).value);
      assert AtMost(v2, n, t, Bound(v1, n, t).value);
    }
    forall a, b, t | (a, b) in edges && t >= 0 && InTime(limit, t) && !Consistent(v2, a, b, t)
      ensures !Consistent(v0, a, b, t) && Bound(v2, b, t) == Bound(v0, b, t)
    {
      assert !Consistent(v1, a, b, t);
    }
  }

  lemma {:induction false} PropagatedSame<N(!new)>(edges: set<(N, N)>, limit: Option<int>, view: View<N>)
    ensures Propagated(edges, limit, view, view)
  {
    hide At, Consistent, Bound;
  }

  lemma {:induction false} LowerAtMost<N(!new)>(view: View<N>, view': View<N>, n: N, t: int, v: real)
    requires Lower(view, view') && AtMost(view, n, t, v)
    ensures AtMost(view', n, t, v)
  {
    hide At, Bound;
    assert AtMost(view', n, t, Bound(view, n, t).value);
  }

  // ---------------------------------------------------------------- one node

  /** What applying `updates`, each one step later, does to the bounds of `src`; `survivors` are those that helped. */
  ghost predicate Applied<N(!new)>(limit: Option<int>, view: View<N>, view': View<N>, src: N, updates: seq<Item>,
      survivors: seq<Item>) {
    && Lower(view, view') && Ordered(view')
    && (forall n, t {:trigger Bound(view', n, t)} | n != src :: Bound(view', n, t) == Bound(view, n, t))
    && (forall t {:trigger Bound(view', src, t)} | Bound(view', src, t) != Bound(view, src, t) ::
          exists s :: s in survivors && s.key <= t && Bound(view', src, t) == Some(s.value))
    && (forall u | u in updates && InTime(limit, u.key) :: AtMost(view', src, u.key + 1, u.value))
    && (forall s | s in survivors :: Survives(limit, view, view', src, updates, s))
  }

  ghost predicate Survives<N(!new)>(limit: Option<int>, view: View<N>, view': View<N>, src: N, updates: seq<Item>,
      s: Item) {
    && Item(s.key - 1, s.value) in updates && InTime(limit, s.key - 1)
    && !AtMost(view, src, s.key, s.value) && AtMost(view', src, s.key, s.value)
  }

  /** Nothing is recorded for more time than the limit: beyond it bounds stay as they are. */
  ghost predicate Settled<N(!new)>(limit: Option<int>, view: View<N>) {
    limit.Some? ==> forall n, t {:trigger Bound(view, n, t)} | t >= limit.value && t >= 0 ::
      Bound(view, n, t) == Bound(view, n, if limit.value < 0 then 0 else limit.value)
  }

  lemma {:induction false} AppliedSettled<N(!new)>(limit: Option<int>, v0: View<N>, v1: View<N>, src: N,
      updates: seq<Item>, survivors: seq<Item>)
    requires Applied(limit, v0, v1, src, updates, survivors) && Settled(limit, v0)
    requires forall u | u in updates :: u.key >= 0
    ensures Settled(limit, v1)
  {
    hide At, Bound, Ordered;
    if limit.Some? {
      var last := if limit.value < 0 then 0 else limit.value;
      forall n, t {:trigger Bound(v1, n, t)} | t >= limit.value && t >= 0
        ensures Bound(v1, n, t) == Bound(v1, n, last) {
        SettledAt(limit, v0, v1, src, updates, survivors, n, t, last);
      }
    }
  }

  lemma {:induction false} SettledAt<N(!new)>(limit: Option<int>, v0: View<N>, v1: View<N>, src: N, updates: seq<Item>,
      survivors: seq<Item>, n: N, t: int, last: int)
    requires Applied(limit, v0, v1, src, updates, survivors) && Settled(limit, v0) && limit.Some?
    requires t >= last >= 0 && last == (if limit.value < 0 then 0 else limit.value)
    requires forall u | u in updates :: u.key >= 0
    ensures Bound(v1, n, t) == Bound(v1, n, last)
  {
    hide At, Bound, Ordered, AtMost, Lower, Survives;
    assert Bound(v0, n, t) == Bound(v0, n, last);
    if n == src && Bound(v1, n, t) != Bound(v0, n, t) {
      var s :| s in survivors && s.key <= t && Bound(v1, src, t) == Some(s.value);
      assert Survives(limit, v0, v1, src, updates, s);
      SurvivorInTime(limit, v0, v1, src, updates, s, last);
      AtMostLater(v1, src, s.key, last, s.value);
      SameIfLater(v1, src, last, t, s.value);
    } else if n == src && Bound(v1, n, last) != Bound(v0, n, last) {
      var s :| s in survivors && s.key <= last && Bound(v1, src, last) == Some(s.value);
      SameIfLower(v0, v1, src, last, t);
    }
  }

  lemma {:induction false} SurvivorInTime<N(!new)>(limit: Option<int>, v0: View<N>, v1: View<N>, src: N,
      updates: seq<Item>, s: Item, last: int)
    requires Survives(limit, v0, v1, src, updates, s) && limit.Some? && forall u | u in updates :: u.key >= 0
    requires last == if limit.value < 0 then 0 else limit.value
    ensures 0 < s.key <= last && AtMost(v1, src, s.key, s.value)
  {
    hide AtMost;
  }

  lemma {:induction false} SameIfLater<N(!new)>(view: View<N>, n: N, t: int, u: int, v: real)
    requires Ordered(view) && t <= u && AtMost(view, n, t, v) && Bound(view, n, u) == Some(v)
    ensures Bound(view, n, t) == Bound(view, n, u)
  {
    hide Bound, Ordered;
    AtMostLater(view, n, t, u, Bound(view, n, t).value);
  }

  lemma {:induction false} SameIfLower<N(!new)>(v0: View<N>, v1: View<N>, n: N, t: int, u: int)
    requires Ordered(v1) && Lower(v0, v1) && t <= u && Bound(v1, n, t).Some? && Bound(v1, n, u) == Bound(v0, n, t)
    ensures Bound(v1, n, t) == Bound(v1, n, u)
  {
    hide Bound, Ordered;
    AtMostLater(v1, n, t, u, Bound(v1, n, t).value);
  }

  lemma {:induction false} KnownSettled<N(!new)>(limit: Option<int>, valueFn: N -> real, view: View<N>, n: N)
    requires Settled(limit, view)
    ensures Settled(limit, Known(valueFn, view, n))
  {
    hide Bound, Known;
    KnownBound(valueFn, view, n);
  }

  /** Lowering the bounds of one node, then those of the nodes before it, leaves no edge newly inconsistent. */
  lemma {:induction false} AppliedPropagated<N(!new)>(edges: set<(N, N)>, limit: Option<int>, v0: View<N>, v1: View<N>,
      v2: View<N>, src: N, updates: seq<Item>, survivors: seq<Item>)
    requires Applied(limit, v0, v1, src, updates, survivors) && Propagated(edges, limit, v1, v2) && Ordered(v2)
    requires forall a, s {:trigger (a, src) in edges, s in survivors} |
      (a, src) in edges && s in survivors && InTime(limit, s.key) :: AtMost(v2, a, s.key + 1, s.value)
    ensures Propagated(edges, limit, v0, v2)
    ensures forall u | u in updates && InTime(limit, u.key) :: AtMost(v2, src, u.key + 1, u.value)
  {
    hide At, Bound, Ordered, Survives;
    forall u | u in updates && InTime(limit, u.key) ensures AtMost(v2, src, u.key + 1, u.value) {
      LowerAtMost(v1, v2, src, u.key + 1, u.value);
    }
    forall n, t | Bound(v0, n, t).Some? ensures AtMost(v2, n, t, Bound(v0, n, t).value) {
      assert AtMost(v1, n, t, Bound(v0, n, t).value);
      assert AtMost(v2, n, t, Bound(v1, n, t).value);
    }
    forall a, b, t | (a, b) in edges && t >= 0 && InTime(limit, t) && !Consistent(v2, a, b, t)
      ensures !Consistent(v0, a, b, t) && Bound(v2, b, t) == Bound(v0, b, t)
    {
      assert !Consistent(v1, a, b, t) && Bound(v2, b, t) == Bound(v1, b, t);
      if Bound(v1, b, t) != Bound(v0, b, t) {
        assert b == src;
        var s :| s in survivors && s.key <= t && Bound(v1, src, t) == Some(s.value);
        AtMostLater(v2, a, s.key + 1, t + 1, s.value);
        assert false;
      }
      if Consistent(v0, a, b, t) {
        LowerAtMost(v0, v1, a, t + 1, Bound(v0, b, t).value);
        assert false;
      }
    }
  }

  /** `view` with the bounds of `src` after one update, which was made if it helped. */
  ghost predicate Updated<N(!new)>(view: View<N>, view': View<N>, src: N, t: int, v: real, helped: bool) {
    && src in view && src in view' && view' == view[src := view'[src]] && Sorted(Min, view'[src])
    && (forall u :: At(view'[src], u) == if t <= u then Improve(Min, At(view[src], u), v) else At(view[src], u))
    && (!helped ==> view'[src] == view[src])
    && (helped ==> At(view'[src], t) == Some(v) && At(view[src], t) != Some(v))
  }

  lemma {:induction false} AppliedNone<N(!new)>(limit: Option<int>, view: View<N>, src: N)
    requires Ordered(view)
    ensures Applied(limit, view, view, src, [], [])
  {
    hide At, Bound, Ordered, Survives;
    PropagatedSame({}, limit, view);
  }

  lemma {:induction false} AppliedSkip<N(!new)>(limit: Option<int>, v0: View<N>, v1: View<N>, src: N,
      updates: seq<Item>, survivors: seq<Item>, u: Item)
    requires Applied(limit, v0, v1, src, updates, survivors) && !InTime(limit, u.key)
    ensures Applied(limit, v0, v1, src, updates + [u], survivors)
  {
    hide At, Bound, Ordered, InTime, Lower, AtMost;
  }

  lemma {:induction false} UpdatedLower<N(!new)>(view: View<N>, view': View<N>, src: N, t: int, v: real, helped: bool)
    requires Updated(view, view', src, t, v, helped) && Ordered(view)
    ensures Lower(view, view') && Ordered(view') && AtMost(view', src, t, v)
    ensures forall n, u {:trigger Bound(view', n, u)} | n != src :: Bound(view', n, u) == Bound(view, n, u)
    ensures forall u {:trigger Bound(view', src, u)} | Bound(view', src, u) != Bound(view, src, u) ::
      helped && t <= u && Bound(view', src, u) == Some(v)
    ensures helped ==> !AtMost(view, src, t, v)
  {
    hide At, Sorted;
    assert view'.Keys == view.Keys;
    forall n, u | Bound(view, n, u).Some? ensures AtMost(view', n, u, Bound(view, n, u).value) {
      if n == src {
        assert At(view'[src], u) == if t <= u then Improve(Min, At(view[src], u), v) else At(view[src], u);
      }
    }
  }

  lemma {:induction false} SurvivesMore<N(!new)>(limit: Option<int>, v0: View<N>, v1: View<N>, v2: View<N>, src: N,
      updates: seq<Item>, u: Item, s: Item)
    requires Survives(limit, v0, v1, src, updates, s) && Lower(v1, v2)
    ensures Survives(limit, v0, v2, src, updates + [u], s)
  {
    hide At, Bound, Lower;
    LowerAtMost(v1, v2, src, s.key, s.value);
  }

  lemma {:induction false} SurvivesNew<N(!new)>(limit: Option<int>, v0: View<N>, v1: View<N>, v2: View<N>, src: N,
      updates: seq<Item>, u: Item)
    requires Lower(v0, v1) && !AtMost(v1, src, u.key + 1, u.value) && AtMost(v2, src, u.key + 1, u.value)
    requires InTime(limit, u.key)
    ensures Survives(limit, v0, v2, src, updates + [u], Item(u.key + 1, u.value))
  {
    hide At, Bound, Lower;
    if AtMost(v0, src, u.key + 1, u.value) {
      LowerAtMost(v0, v1, src, u.key + 1, u.value);
      assert false;
    }
  }

  lemma {:induction false} AppliedOne<N(!new)>(limit: Option<int>, v0: View<N>, v1: View<N>, v2: View<N>, src: N,
      updates: seq<Item>, survivors: seq<Item>, u: Item, helped: bool)
    requires Applied(limit, v0, v1, src, updates, survivors) && InTime(limit, u.key)
    requires Updated(v1, v2, src, u.key + 1, u.value, helped)
    ensures Applied(limit, v0, v2, src, updates + [u],
      if helped then survivors + [Item(u.key + 1, u.value)] else survivors)
  {
    hide At, Bound, Ordered, InTime, Lower, Updated, AtMost, Survives;
    AppliedIs(limit, v0, v1, src, updates, survivors);
    UpdatedLower(v1, v2, src, u.key + 1, u.value, helped);
    LowerTransitive(v0, v1, v2);
    var s2 := if helped then survivors + [Item(u.key + 1, u.value)] else survivors;
    forall t | Bound(v2, src, t) != Bound(v0, src, t)
      ensures exists s :: s in s2 && s.key <= t && Bound(v2, src, t) == Some(s.value) {
      if Bound(v2, src, t) != Bound(v1, src, t) {
        assert Item(u.key + 1, u.value) in s2;
      } else {
        var s :| s in survivors && s.key <= t && Bound(v1, src, t) == Some(s.value);
        assert s in s2;
      }
    }
    forall w | w in updates + [u] && InTime(limit, w.key) ensures AtMost(v2, src, w.key + 1, w.value) {
      if w in updates {
        LowerAtMost(v1, v2, src, w.key + 1, w.value);
      }
    }
    forall s | s in s2 ensures Survives(limit, v0, v2, src, updates + [u], s) {
      if s in survivors {
        SurvivesMore(limit, v0, v1, v2, src, updates, u, s);
      } else {
        SurvivesNew(limit, v0, v1, v2, src, updates, u);
      }
    }
    forall n, t | n != src ensures Bound(v2, n, t) == Bound(v0, n, t) {}
  }

  lemma {:induction false} AppliedIs<N(!new)>(limit: Option<int>, v0: View<N>, v1: View<N>, src: N, updates: seq<Item>,
      survivors: seq<Item>)
    requires Applied(limit, v0, v1, src, updates, survivors)
    ensures Lower(v0, v1) && Ordered(v1)
  {
    hide At, Bound, Ordered, InTime, Lower, AtMost, Survives;
  }

  lemma {:induction false} LowerTransitive<N(!new)>(v0: View<N>, v1: View<N>, v2: View<N>)
    requires Lower(v0, v1) && Lower(v1, v2)
    ensures Lower(v0, v2)
  {
    hide At, Bound;
    forall n, t | Bound(v0, n, t).Some? ensures AtMost(v2, n, t, Bound(v0, n, t).value) {
      assert AtMost(v1, n, t, Bound(v0, n, t).value);
      assert AtMost(v2, n, t, Bound(v1, n, t).value);
    }
  }

  // ---------------------------------------------------------------- termination

  /** The nodes that an update with value `v` at `t` could still help. */
  ghost function Worse<N(!new)>(view: View<N>, t: int, v: real): set<N> {
    set n | n in view && !AtMost(view, n, t, v)
  }

  lemma {:induction false} FewerWorse<N(!new)>(v0: View<N>, v1: View<N>, src: N, t: int, v: real)
    requires Lower(v0, v1) && Ordered(v1) && src in v0 && !AtMost(v0, src, t, v) && AtMost(v1, src, t, v)
    ensures |Worse(v1, t + 1, v)| < |Worse(v0, t, v)|
  {
    hide At, Bound, Ordered;
    forall n | n in Worse(v1, t + 1, v) ensures n in Worse(v0, t, v) && n != src {
      if AtMost(v0, n, t, v) {
        LowerAtMost(v0, v1, n, t, v);
      }
      if AtMost(v1, n, t, v) {
        AtMostLater(v1, n, t, t + 1, v);
        assert false;
      }
    }
    Smaller(Worse(v1, t + 1, v), Worse(v0, t, v), src);
  }

  lemma {:induction false} Smaller<N(!new)>(a: set<N>, b: set<N>, x: N)
    requires a <= b && x in b && x !in a
    ensures |a| < |b|
  {
    Cardinality(a, b - {x});
  }

  lemma {:induction false} Cardinality<N(!new)>(a: set<N>, b: set<N>)
    requires a <= b
    ensures |a| <= |b|
  {
    if a != {} {
      var x :| x in a;
      Cardinality(a - {x}, b - {x});
    }
  }

  lemma {:induction false} NoMoreWorse<N(!new)>(v0: View<N>, v1: View<N>, t: int, v: real)
    requires Lower(v0, v1)
    ensures |Worse(v1, t, v)| <= |Worse(v0, t, v)| <= |v0.Keys|
  {
    hide At, Bound;
    forall n | n in Worse(v1, t, v) ensures n in Worse(v0, t, v) {
      if AtMost(v0, n, t, v) {
        LowerAtMost(v0, v1, n, t, v);
      }
    }
    Cardinality(Worse(v1, t, v), Worse(v0, t, v));
    Cardinality(Worse(v0, t, v), v0.Keys);
  }

  // ---------------------------------------------------------------- reachability

  /** `b` can be reached from `a` along at most `k` edges. */
  ghost predicate Reaches<N(!new)>(edges: set<(N, N)>, a: N, b: N, k: nat) {
    a == b || (k > 0 && exists c :: (a, c) in edges && Reaches(edges, c, b, k - 1))
  }

  /** `v` is the value of a node within `k` steps of `n`. */
  ghost predicate Achieved<N(!new)>(edges: set<(N, N)>, valueFn: N -> real, n: N, k: int, v: real) {
    k >= 0 && exists m :: Reaches(edges, n, m, k) && valueFn(m) == v
  }

  /** Every bound is the value of a node within reach, and no worse than the value of the node itself. */
  ghost predicate Sound<N(!new)>(edges: set<(N, N)>, valueFn: N -> real, view: View<N>) {
    && (forall n, t {:trigger Bound(view, n, t)} | Bound(view, n, t).Some? ::
      Achieved(edges, valueFn, n, t, Bound(view, n, t).value))
    && (forall n | n in view :: AtMost(view, n, 0, valueFn(n)))
  }

  ghost predicate AllConsistent<N(!new)>(edges: set<(N, N)>, limit: Option<int>, view: View<N>) {
    forall a, b, t {:trigger Consistent(view, a, b, t)} | (a, b) in edges && t >= 0 && InTime(limit, t) ::
      Consistent(view, a, b, t)
  }

  ghost predicate Closed<N(!new)>(edges: set<(N, N)>, view: View<N>) {
    forall a, b | (a, b) in edges :: a in view && b in view
  }

  lemma {:induction false} ReachesLater<N(!new)>(edges: set<(N, N)>, a: N, b: N, k: nat, l: nat)
    requires Reaches(edges, a, b, k) && k <= l
    ensures Reaches(edges, a, b, l)
    decreases k
  {
    if a != b {
      var c :| (a, c) in edges && Reaches(edges, c, b, k - 1);
      ReachesLater(edges, c, b, k - 1, l - 1);
    }
  }

  lemma {:induction false} AchievedBefore<N(!new)>(edges: set<(N, N)>, valueFn: N -> real, a: N, b: N, k: int, v: real)
    requires (a, b) in edges && Achieved(edges, valueFn, b, k, v)
    ensures Achieved(edges, valueFn, a, k + 1, v)
  {
    var m :| Reaches(edges, b, m, k) && valueFn(m) == v;
    assert Reaches(edges, a, m, k + 1);
  }

  lemma {:induction false} AchievedLater<N(!new)>(edges: set<(N, N)>, valueFn: N -> real, a: N, k: int, l: int, v: real)
    requires Achieved(edges, valueFn, a, k, v) && k <= l
    ensures Achieved(edges, valueFn, a, l, v)
  {
    var m :| Reaches(edges, a, m, k) && valueFn(m) == v;
    ReachesLater(edges, a, m, k, l);
  }

  /** Applying achievable values keeps the bounds sound. */
  lemma {:induction false} AppliedSound<N(!new)>(edges: set<(N, N)>, valueFn: N -> real, limit: Option<int>,
      v0: View<N>, v1: View<N>, src: N, updates: seq<Item>, survivors: seq<Item>)
    requires Sound(edges, valueFn, v0) && Applied(limit, v0, v1, src, updates, survivors)
    requires forall u | u in updates :: Achieved(edges, valueFn, src, u.key + 1, u.value)
    ensures Sound(edges, valueFn, v1)
    ensures forall s | s in survivors :: Achieved(edges, valueFn, src, s.key, s.value)
  {
    hide At, Bound, Ordered, AtMost, Achieved;
    forall s | s in survivors ensures Achieved(edges, valueFn, src, s.key, s.value) {
      assert Survives(limit, v0, v1, src, updates, s);
    }
    forall n, t | Bound(v1, n, t).Some? ensures Achieved(edges, valueFn, n, t, Bound(v1, n, t).value) {
      if Bound(v1, n, t) != Bound(v0, n, t) {
        var s :| s in survivors && s.key <= t && Bound(v1, src, t) == Some(s.value);
        AchievedLater(edges, valueFn, src, s.key, t, s.value);
      }
    }
    forall n | n in v1 ensures AtMost(v1, n, 0, valueFn(n)) {
      LowerAtMost(v0, v1, n, 0, valueFn(n));
    }
  }

  lemma {:induction false} BoundOfReachable<N(!new)>(edges: set<(N, N)>, valueFn: N -> real, limit: Option<int>,
      view: View<N>, n: N, m: N, t: nat)
    requires Ordered(view) && Sound(edges, valueFn, view) && AllConsistent(edges, limit, view) && Closed(edges, view)
    requires n in view && Reaches(edges, n, m, t) && InTime(limit, t - 1)
    ensures AtMost(view, n, t, valueFn(m))
    decreases t
  {
    hide At, Bound, Ordered;
    if n == m {
      AtMostLater(view, n, 0, t, valueFn(m));
    } else {
      var c :| (n, c) in edges && Reaches(edges, c, m, t - 1);
      BoundOfReachable(edges, valueFn, limit, view, c, m, t - 1);
      assert Consistent(view, n, c, t - 1);
    }
  }

  /** The bound of a known node at `t` is the least value within `t` steps of it. */
  ghost predicate Least<N(!new)>(edges: set<(N, N)>, valueFn: N -> real, view: View<N>, n: N, t: nat) {
    && Bound(view, n, t).Some? && Achieved(edges, valueFn, n, t, Bound(view, n, t).value)
    && forall m | Reaches(edges, n, m, t) :: Bound(view, n, t).value <= valueFn(m)
  }

  lemma {:induction false} ConsistentIsLeast<N(!new)>(edges: set<(N, N)>, valueFn: N -> real, limit: Option<int>,
      view: View<N>, n: N, t: nat)
    requires Ordered(view) && Sound(edges, valueFn, view) && AllConsistent(edges, limit, view) && Closed(edges, view)
    requires n in view && InTime(limit, t - 1)
    ensures Least(edges, valueFn, view, n, t)
  {
    hide At, Bound, Ordered, Achieved, AllConsistent, Closed;
    BoundOfReachable(edges, valueFn, limit, view, n, n, t);
    forall m | Reaches(edges, n, m, t) ensures Bound(view, n, t).value <= valueFn(m) {
      BoundOfReachable(edges, valueFn, limit, view, n, m, t);
    }
  }

  // ---------------------------------------------------------------- new nodes and edges

  /** `view` with `n` known: at first all that is known is its own value. */
  function Known<N>(valueFn: N -> real, view: View<N>, n: N): View<N> {
    if n in view then view else view[n := [Item(0, valueFn(n))]]
  }

  ghost predicate Invariant<N(!new)>(edges: set<(N, N)>, valueFn: N -> real, view: View<N>) {
    Ordered(view) && Sound(edges, valueFn, view) && Closed(edges, view)
  }

  lemma {:induction false} SingleAt(v: real, t: int)
    ensures Sorted(Min, [Item(0, v)]) && At([Item(0, v)], t) == if t >= 0 then Some(v) else None
  {
    BisectIs(Min, [Item(0, v)], t, if t >= 0 then 1 else 0);
  }

  lemma {:induction false} KnownBound<N(!new)>(valueFn: N -> real, view: View<N>, n: N)
    ensures forall m, t {:trigger Bound(Known(valueFn, view, n), m, t)} :: (Bound(Known(valueFn, view, n), m, t) ==
      if m == n && n !in view then (if t >= 0 then Some(valueFn(n)) else None) else Bound(view, m, t))
    ensures Ordered(view) ==> Ordered(Known(valueFn, view, n))
  {
    hide At;
    forall t ensures At([Item(0, valueFn(n))], t) == if t >= 0 then Some(valueFn(n)) else None {
      SingleAt(valueFn(n), t);
    }
    SingleAt(valueFn(n), 0);
  }

  lemma {:induction false} KnownSound<N(!new)>(edges: set<(N, N)>, valueFn: N -> real, view: View<N>, n: N)
    requires Sound(edges, valueFn, view) && Ordered(view)
    ensures Sound(edges, valueFn, Known(valueFn, view, n)) && Ordered(Known(valueFn, view, n))
  {
    hide Bound, Known;
    KnownBound(valueFn, view, n);
    KnownKeys(valueFn, view, n);
    var w := Known(valueFn, view, n);
    forall m, t | Bound(w, m, t).Some? ensures Achieved(edges, valueFn, m, t, Bound(w, m, t).value) {
      if m == n && n !in view {
        assert Reaches(edges, n, n, t);
      }
    }
    forall m | m in w ensures AtMost(w, m, 0, valueFn(m)) {
      if m in view { assert AtMost(view, m, 0, valueFn(m)); }
    }
  }

  lemma {:induction false} KnownKeys<N(!new)>(valueFn: N -> real, view: View<N>, n: N)
    ensures Known(valueFn, view, n).Keys == view.Keys + {n}
  {}

  lemma {:induction false} ReachesMore<N(!new)>(edges: set<(N, N)>, edges': set<(N, N)>, a: N, b: N, k: nat)
    requires edges <= edges' && Reaches(edges, a, b, k)
    ensures Reaches(edges', a, b, k)
    decreases k
  {
    if a != b {
      var c :| (a, c) in edges && Reaches(edges, c, b, k - 1);
      ReachesMore(edges, edges', c, b, k - 1);
    }
  }

  lemma {:induction false} SoundMore<N(!new)>(edges: set<(N, N)>, edges': set<(N, N)>, valueFn: N -> real,
      view: View<N>)
    requires edges <= edges' && Sound(edges, valueFn, view)
    ensures Sound(edges', valueFn, view)
  {
    hide Bound, Reaches, AtMost;
    forall n, t | Bound(view, n, t).Some? ensures Achieved(edges', valueFn, n, t, Bound(view, n, t).value) {
      var m :| Reaches(edges, n, m, t) && valueFn(m) == Bound(view, n, t).value;
      ReachesMore(edges, edges', n, m, t);
    }
  }

  /** Knowing both ends of a new edge, everything holds but the consistency of that edge. */
  lemma {:induction false} NewEdge<N(!new)>(edges: set<(N, N)>, valueFn: N -> real, limit: Option<int>, view: View<N>,
      src: N, dst: N)
    requires Invariant(edges, valueFn, view) && AllConsistent(edges, limit, view)
    ensures var v2 := Known(valueFn, Known(valueFn, view, dst), src);
      && Invariant(edges + {(src, dst)}, valueFn, v2) && AllConsistent(edges, limit, v2)
      && (src != dst ==> v2[dst] == Known(valueFn, view, dst)[dst])
      && v2.Keys == view.Keys + {dst, src}
  {
    hide Bound, Known, Sound, Ordered;
    var v1 := Known(valueFn, view, dst);
    var v2 := Known(valueFn, v1, src);
    KnownSound(edges, valueFn, view, dst);
    KnownSound(edges, valueFn, v1, src);
    SoundMore(edges, edges + {(src, dst)}, valueFn, v2);
    KnownKeys(valueFn, view, dst);
    KnownKeys(valueFn, v1, src);
    KnownBound(valueFn, view, dst);
    KnownBound(valueFn, v1, src);
    KnownElsewhere(valueFn, v1, src, dst);
    forall a, b, t | (a, b) in edges && t >= 0 && InTime(limit, t) ensures Consistent(v2, a, b, t) {
      assert Consistent(view, a, b, t);
    }
  }

  lemma {:induction false} KnownElsewhere<N(!new)>(valueFn: N -> real, view: View<N>, n: N, m: N)
    requires m in view
    ensures m in Known(valueFn, view, n) && Known(valueFn, view, n)[m] == view[m]
  {}

  lemma {:induction false} AtItem(items: seq<Item>, t: int) returns (i: Item)
    requires Sorted(Min, items) && At(items, t).Some?
    ensures i in items && i.key <= t && At(items, t) == Some(i.value) && At(items, i.key) == Some(i.value)
  {
    BisectSplits(Min, items, t);
    hide Bisect;
    var k := Bisect(items, t);
    i := items[k - 1];
    BisectIs(Min, items, i.key, k);
  }

  lemma {:induction false} ItemAt(items: seq<Item>, i: Item)
    requires Sorted(Min, items) && i in items
    ensures i.key >= 0 && At(items, i.key) == Some(i.value)
  {
    hide Bisect;
    var k :| 0 <= k < |items| && items[k] == i;
    BisectIs(Min, items, i.key, k + 1);
  }

  /** The values of `dst` are in reach of `src`, one step later. */
  lemma {:induction false} ItemsAchieved<N(!new)>(edges: set<(N, N)>, valueFn: N -> real, view: View<N>, src: N, dst: N)
    requires Invariant(edges, valueFn, view) && (src, dst) in edges
    ensures forall u | u in view[dst] :: u.key >= 0 && Achieved(edges, valueFn, src, u.key + 1, u.value)
  {
    hide Reaches, Achieved, At;
    forall u | u in view[dst] ensures u.key >= 0 && Achieved(edges, valueFn, src, u.key + 1, u.value) {
      ItemAt(view[dst], u);
      assert Bound(view, dst, u.key) == Some(u.value);
      AchievedBefore(edges, valueFn, src, dst, u.key, u.value);
    }
  }

  /** Once the values of `dst` have been propagated to `src` and beyond, every edge is consistent. */
  lemma {:induction false} EdgePropagated<N(!new)>(edges: set<(N, N)>, limit: Option<int>, view: View<N>,
      view': View<N>, src: N, dst: N)
    requires Ordered(view) && Ordered(view') && AllConsistent(edges, limit, view) && dst in view
    requires Propagated(edges + {(src, dst)}, limit, view, view')
    requires forall u | u in view[dst] && InTime(limit, u.key) :: AtMost(view', src, u.key + 1, u.value)
    ensures AllConsistent(edges + {(src, dst)}, limit, view')
  {
    hide At, Lower, Ordered;
    forall a, b, t | (a, b) in edges + {(src, dst)} && t >= 0 && InTime(limit, t) ensures Consistent(view', a, b, t) {
      if !Consistent(view', a, b, t) {
        assert !Consistent(view, a, b, t) && Bound(view', b, t) == Bound(view, b, t);
        assert a == src && b == dst;
        OrderedAt(view, dst);
        var i := AtItem(view[dst], t);
        AtMostLater(view', src, i.key + 1, t + 1, i.value);
        assert false;
      }
    }
  }

  lemma {:induction false} OrderedAt<N(!new)>(view: View<N>, n: N)
    requires Ordered(view) && n in view
    ensures Sorted(Min, view[n])
  {}
}
