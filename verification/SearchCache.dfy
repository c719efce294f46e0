/** The cache of a best-first search, which keeps one node of every expression open: the one with most time left. */
module SearchCache {
  import opened Episodes

  /** A node, apart from its key. `pruned` is unset until `get_node` first returns the node. */
  datatype Node<A, E> = Node(pruned: Option<bool>, transitions: Option<seq<Transition<A, E>>>)

  type Nodes<!A, !E(==)> = map<Key<E>, Node<A, E>>

  type Times<!E(==)> = map<E, nat>

  // ---------------------------------------------------------------- the setter of transitions

  /** `uniquify`, by the node that a transition leads to. */
  function Uniquify<A, E(==)>(ts: seq<Transition<A, E>>): seq<Transition<A, E>> {
    if ts == [] then [] else
      var init := Uniquify(ts[..|ts| - 1]);
      if exists i :: 0 <= i < |ts| - 1 && ts[i].next == ts[|ts| - 1].next then init else init + [ts[|ts| - 1]]
  }

  /** An ordered dictionary by action: a repeated action keeps its place and takes the later node. */
  function ByAction<A(==), E>(ts: seq<Transition<A, E>>): seq<Transition<A, E>> {
    if ts == [] then [] else Insert(ByAction(ts[..|ts| - 1]), ts[|ts| - 1])
  }

  function Insert<A(==), E>(ts: seq<Transition<A, E>>, t: Transition<A, E>): seq<Transition<A, E>> {
    if ts == [] then [t] else if ts[0].action == t.action then [t] + ts[1..] else [ts[0]] + Insert(ts[1..], t)
  }

  /** No action and no node appears twice. */
  ghost predicate Distinct<A, E>(ts: seq<Transition<A, E>>) {
    forall i, j | 0 <= i < j < |ts| :: ts[i].action != ts[j].action && ts[i].next != ts[j].next
  }

  ghost predicate NextDistinct<A, E>(ts: seq<Transition<A, E>>) {
    forall i, j | 0 <= i < j < |ts| :: ts[i].next != ts[j].next
  }

  lemma {:induction false} UniquifyDistinct<A, E>(ts: seq<Transition<A, E>>)
    ensures NextDistinct(Uniquify(ts))
    ensures forall t | t in Uniquify(ts) :: t in ts
    ensures NextDistinct(ts) ==> Uniquify(ts) == ts
  {
    if ts != [] {
      var init, last := ts[..|ts| - 1], ts[|ts| - 1];
      assert ts == init + [last];
      UniquifyDistinct(init);
      var u := Uniquify(init);
      if exists i :: 0 <= i < |ts| - 1 && ts[i].next == last.next {
        assert Uniquify(ts) == u;
      } else {
        assert Uniquify(ts) == u + [last];
        forall i | 0 <= i < |u| ensures u[i].next != last.next {
          assert u[i] in u;
          var j :| 0 <= j < |init| && init[j] == u[i];
          assert ts[j] == u[i];
        }
      }
    }
  }

  lemma {:induction false} DistinctNext<A, E>(ts: seq<Transition<A, E>>)
    ensures Distinct(ts) ==> NextDistinct(ts)
  {}

  lemma {:induction false} InsertDistinct<A, E>(ts: seq<Transition<A, E>>, t: Transition<A, E>)
    requires Distinct(ts) && forall u | u in ts :: u.next != t.next
    ensures Distinct(Insert(ts, t))
    ensures forall u | u in Insert(ts, t) :: u in ts || u == t
    ensures (forall u | u in ts :: u.action != t.action) ==> Insert(ts, t) == ts + [t]
  {
    if ts != [] && ts[0].action != t.action {
      InsertDistinct(ts[1..], t);
      var r := Insert(ts[1..], t);
      forall j | 0 <= j < |r| ensures r[j].action != ts[0].action && r[j].next != ts[0].next {
        assert r[j] in r;
      }
      assert Insert(ts, t) == [ts[0]] + r;
    }
  }

  lemma {:induction false} ByActionDistinct<A, E>(ts: seq<Transition<A, E>>)
    requires NextDistinct(ts)
    ensures Distinct(ByAction(ts))
    ensures forall t | t in ByAction(ts) :: t in ts
    ensures Distinct(ts) ==> ByAction(ts) == ts
  {
    if ts != [] {
      var init, last := ts[..|ts| - 1], ts[|ts| - 1];
      ByActionDistinct(init);
      assert ts == init + [last];
      InsertDistinct(ByAction(init), last);
    }
  }

  /** Transition `i` is the first one to its node. */
  ghost predicate FirstTo<A, E>(ts: seq<Transition<A, E>>, i: nat)
    requires i < |ts|
  {
    forall j | 0 <= j < i :: ts[j].next != ts[i].next
  }

  /** Of the transitions to a node exactly the first is kept. */
  lemma {:induction false} UniquifyKeepsFirst<A, E>(ts: seq<Transition<A, E>>)
    ensures forall i: nat | i < |ts| && FirstTo(ts, i) :: ts[i] in Uniquify(ts)
    ensures forall t | t in Uniquify(ts) :: IsFirst(ts, t)
  {
    hide Uniquify, FirstTo, IsFirst;
    if ts == [] {
      UniquifyNone(ts);
    } else {
      var init := ts[..|ts| - 1];
      UniquifyKeepsFirst(init);
      UniquifyLast(ts);
      forall i: nat | i < |ts| && FirstTo(ts, i) ensures ts[i] in Uniquify(ts) {
        FirstBefore(ts, i);
      }
      forall t | t in Uniquify(ts) ensures IsFirst(ts, t) {
        if t in Uniquify(init) {
          FirstLater(ts, t);
        } else {
          LastIsFirst(ts);
        }
      }
    }
  }

  ghost predicate IsFirst<A, E>(ts: seq<Transition<A, E>>, t: Transition<A, E>) {
    exists i: nat :: i < |ts| && FirstTo(ts, i) && ts[i] == t
  }

  lemma {:induction false} FirstBefore<A, E>(ts: seq<Transition<A, E>>, i: nat)
    requires i < |ts| && FirstTo(ts, i)
    ensures i < |ts| - 1 ==> FirstTo(ts[..|ts| - 1], i) && ts[..|ts| - 1][i] == ts[i]
  {}

  lemma {:induction false} FirstLater<A, E>(ts: seq<Transition<A, E>>, t: Transition<A, E>)
    requires ts != [] && IsFirst(ts[..|ts| - 1], t)
    ensures IsFirst(ts, t)
  {
    var i: nat :| i < |ts| - 1 && FirstTo(ts[..|ts| - 1], i) && ts[..|ts| - 1][i] == t;
    assert FirstTo(ts, i) && ts[i] == t;
  }

  lemma {:induction false} LastIsFirst<A, E>(ts: seq<Transition<A, E>>)
    ensures ts != [] && FirstTo(ts, |ts| - 1) ==> IsFirst(ts, ts[|ts| - 1])
  {}

  lemma {:induction false} UniquifyNone<A, E>(ts: seq<Transition<A, E>>)
    requires ts == []
    ensures Uniquify(ts) == []
  {}

  lemma {:induction false} UniquifyLast<A, E>(ts: seq<Transition<A, E>>)
    requires ts != []
    ensures var init := Uniquify(ts[..|ts| - 1]);
      Uniquify(ts) == if FirstTo(ts, |ts| - 1) then init + [ts[|ts| - 1]] else init
  {}

  /** The order stays. */
  lemma {:induction false} UniquifyInOrder<A, E>(ts: seq<Transition<A, E>>, n: nat)
    requires n <= |ts|
    ensures Uniquify(ts[..n]) <= Uniquify(ts)
  {
    hide Uniquify;
    if n == |ts| {
      assert ts[..n] == ts;
    } else {
      var init := ts[..|ts| - 1];
      UniquifyLast(ts);
      assert init[..n] == ts[..n];
      UniquifyInOrder(init, n);
    }
  }

  /** Transition `i` is the last one with its action. */
  ghost predicate LastBy<A, E>(ts: seq<Transition<A, E>>, i: nat)
    requires i < |ts|
  {
    forall j | i < j < |ts| :: ts[j].action != ts[i].action
  }

  ghost predicate ActionsDiffer<A, E>(ts: seq<Transition<A, E>>) {
    forall i, j | 0 <= i < j < |ts| :: ts[i].action != ts[j].action
  }

  ghost predicate IsLast<A, E>(ts: seq<Transition<A, E>>, t: Transition<A, E>) {
    exists i: nat :: i < |ts| && LastBy(ts, i) && ts[i] == t
  }

  /** Of the transitions with an action the last one counts, where the first one was. */
  lemma {:induction false} ByActionKeepsLast<A, E>(ts: seq<Transition<A, E>>)
    ensures ActionsDiffer(ByAction(ts))
    ensures forall i: nat | i < |ts| && LastBy(ts, i) :: ts[i] in ByAction(ts)
    ensures forall t | t in ByAction(ts) :: IsLast(ts, t)
    ensures ts != [] ==> SameActions(ByAction(ts[..|ts| - 1]), ByAction(ts))
  {
    hide Insert, ByAction, LastBy, IsLast, ActionsDiffer, SameActions;
    ByActionStep(ts);
    if ts != [] {
      var init, last := ts[..|ts| - 1], ts[|ts| - 1];
      var us := ByAction(init);
      ByActionKeepsLast(init);
      var k := InsertIs(us, last);
      forall i: nat | i < |ts| && LastBy(ts, i) ensures ts[i] in ByAction(ts) {
        LastBefore(ts, i);
        if i < |ts| - 1 {
          StillIn(us, last, k, ts[i]);
        } else {
          LastIsIn(us, last, k);
        }
      }
      forall t | t in ByAction(ts) ensures IsLast(ts, t) {
        WasIn(us, last, k, t);
        LastLater(ts, t);
      }
    }
  }

  lemma {:induction false} LastBefore<A, E>(ts: seq<Transition<A, E>>, i: nat)
    requires i < |ts| && LastBy(ts, i)
    ensures i < |ts| - 1 ==>
      LastBy(ts[..|ts| - 1], i) && ts[..|ts| - 1][i] == ts[i] && ts[i].action != ts[|ts| - 1].action
  {}

  lemma {:induction false} LastLater<A, E>(ts: seq<Transition<A, E>>, t: Transition<A, E>)
    requires ts != []
    requires t == ts[|ts| - 1] || (IsLast(ts[..|ts| - 1], t) && t.action != ts[|ts| - 1].action)
    ensures IsLast(ts, t)
  {
    if t == ts[|ts| - 1] {
      assert LastBy(ts, |ts| - 1);
    } else {
      var i: nat :| i < |ts| - 1 && LastBy(ts[..|ts| - 1], i) && ts[..|ts| - 1][i] == t;
      assert LastBy(ts, i) && ts[i] == t;
    }
  }

  lemma {:induction false} LastIsIn<A, E>(us: seq<Transition<A, E>>, last: Transition<A, E>, k: nat)
    requires k <= |us|
    ensures last in if k == |us| then us + [last] else us[k := last]
  {
    assert (if k == |us| then us + [last] else us[k := last])[k] == last;
  }

  /** The later list has the actions of the earlier one, in their places. */
  ghost predicate SameActions<A, E>(us: seq<Transition<A, E>>, ts: seq<Transition<A, E>>) {
    |us| <= |ts| && forall k | 0 <= k < |us| :: ts[k].action == us[k].action
  }

  lemma {:induction false} ByActionStep<A, E>(ts: seq<Transition<A, E>>)
    ensures ts == [] ==> ByAction(ts) == [] && ActionsDiffer(ByAction(ts))
    ensures ts != [] ==> ByAction(ts) == Insert(ByAction(ts[..|ts| - 1]), ts[|ts| - 1])
  {
    hide Insert;
  }

  /** The transition with the action of `t` makes way for it, or it comes last. */
  lemma {:induction false} InsertIs<A, E>(ts: seq<Transition<A, E>>, t: Transition<A, E>) returns (k: nat)
    ensures k <= |ts| && forall i | 0 <= i < k :: ts[i].action != t.action
    ensures k < |ts| ==> ts[k].action == t.action
    ensures Insert(ts, t) == if k == |ts| then ts + [t] else ts[k := t]
    ensures SameActions(ts, Insert(ts, t)) && (ActionsDiffer(ts) ==> ActionsDiffer(Insert(ts, t)))
  {
    k := InsertPlace(ts, t);
    InsertedActions(ts, t, k);
  }

  lemma {:induction false} InsertPlace<A, E>(ts: seq<Transition<A, E>>, t: Transition<A, E>) returns (k: nat)
    ensures k <= |ts| && forall i | 0 <= i < k :: ts[i].action != t.action
    ensures k < |ts| ==> ts[k].action == t.action
    ensures Insert(ts, t) == if k == |ts| then ts + [t] else ts[k := t]
  {
    if ts != [] && ts[0].action != t.action {
      k := InsertPlace(ts[1..], t);
      k := k + 1;
      assert ts == [ts[0]] + ts[1..];
      assert forall i | 1 <= i < k :: ts[i] == ts[1..][i - 1];
    } else {
      k := 0;
    }
  }

  lemma {:induction false} InsertedActions<A, E>(ts: seq<Transition<A, E>>, t: Transition<A, E>, k: nat)
    requires k <= |ts| && (forall i | 0 <= i < k :: ts[i].action != t.action) && (k < |ts| ==> ts[k].action == t.action)
    ensures var r := if k == |ts| then ts + [t] else ts[k := t];
      SameActions(ts, r) && (ActionsDiffer(ts) ==> ActionsDiffer(r))
  {}

  lemma {:induction false} StillIn<A, E>(us: seq<Transition<A, E>>, last: Transition<A, E>, k: nat, t: Transition<A, E>)
    requires k <= |us| && (k < |us| ==> us[k].action == last.action) && t in us && t.action != last.action
    ensures t in if k == |us| then us + [last] else us[k := last]
  {
    var i :| 0 <= i < |us| && us[i] == t;
    assert i != k;
    assert (if k == |us| then us + [last] else us[k := last])[i] == t;
  }

  lemma {:induction false} WasIn<A, E>(us: seq<Transition<A, E>>, last: Transition<A, E>, k: nat, t: Transition<A, E>)
    requires k <= |us| && (k < |us| ==> us[k].action == last.action) && ActionsDiffer(us)
    requires forall i | 0 <= i < k :: us[i].action != last.action
    requires t in if k == |us| then us + [last] else us[k := last]
    ensures t == last || (t in us && t.action != last.action)
  {
    if k < |us| {
      var i :| 0 <= i < |us| && us[k := last][i] == t;
      assert i != k ==> us[i] == t && us[i].action != us[k].action;
    } else if t != last {
      var i :| 0 <= i < |us| && us[i] == t;
    }
  }

  // ---------------------------------------------------------------- what every call keeps

  /** The state of the cache. */
  datatype Snapshot<!A, !E(==)> = Snapshot(nodes: Nodes<A, E>, greatest: Times<E>, prunedCount: nat,
    waiting: set<E>, evaluated: set<E>, enqueued: seq<Key<E>>, taken: set<Key<E>>)

  /** Exactly one node of every expression is not pruned: the one with the greatest time left. */
  ghost predicate Registered<A(!new), E(!new)>(s: Snapshot<A, E>) {
    PrunedRight(s) && TopsExist(s) && Counted(s)
  }

  ghost predicate PrunedRight<A(!new), E(!new)>(s: Snapshot<A, E>) {
    forall k | k in s.nodes ::
      k.expr in s.greatest && k.timeLeft <= s.greatest[k.expr]
      && s.nodes[k].pruned == Some(k.timeLeft < s.greatest[k.expr])
  }

  ghost predicate TopsExist<A(!new), E(!new)>(s: Snapshot<A, E>) {
    forall e | e in s.greatest :: Key(e, s.greatest[e]) in s.nodes
  }

  /** The pruned nodes are counted, and every expression has been evaluated or waits to be. */
  ghost predicate Counted<A, E>(s: Snapshot<A, E>) {
    s.prunedCount + |s.greatest.Keys| == |s.nodes.Keys| && s.evaluated + s.waiting == s.greatest.Keys
  }

  /** Transitions lead to nodes with one step less. */
  ghost predicate Children<A(!new), E(!new)>(s: Snapshot<A, E>) {
    forall k | k in s.nodes && s.nodes[k].transitions.Some? :: Leads(s, k, s.nodes[k].transitions.value)
  }

  ghost predicate Leads<A, E>(s: Snapshot<A, E>, k: Key<E>, ts: seq<Transition<A, E>>) {
    Distinct(ts) && forall i | 0 <= i < |ts| :: ts[i].next in s.nodes && ts[i].next.timeLeft + 1 == k.timeLeft
  }

  function Top<A, E>(s: Snapshot<A, E>, e: E): Key<E>
    requires e in s.greatest
  {
    Key(e, s.greatest[e])
  }

  /** The same actions and expressions. */
  ghost predicate Same<A, E>(ts: seq<Transition<A, E>>, us: seq<Transition<A, E>>) {
    |ts| == |us| && forall i | 0 <= i < |ts| :: ts[i].action == us[i].action && ts[i].next.expr == us[i].next.expr
  }

  ghost predicate HandsOver<A, E>(s: Snapshot<A, E>, k: Key<E>) {
    && k in s.nodes && s.nodes[k].transitions.Some? && k.expr in s.greatest && Top(s, k.expr) in s.nodes
    && s.nodes[Top(s, k.expr)].transitions.Some?
    && Same(s.nodes[k].transitions.value, s.nodes[Top(s, k.expr)].transitions.value)
  }

  /** Whatever node of an expression was expanded, the open one has the same transitions, later in time. The
      expressions in `stack` are still being worked on. */
  ghost predicate HandedOver<A(!new), E(!new)>(s: Snapshot<A, E>, stack: set<E>) {
    forall k | k in s.nodes && s.nodes[k].transitions.Some? && k.expr !in stack :: HandsOver(s, k)
  }

  /** The open node of an evaluated expression has been enqueued or expanded. */
  ghost predicate Queued<A(!new), E(!new)>(s: Snapshot<A, E>, stack: set<E>) {
    forall e | e in s.evaluated && e !in stack ::
      e in s.greatest && Top(s, e) in s.nodes && (s.nodes[Top(s, e)].transitions.Some? || Top(s, e) in s.enqueued)
  }

  ghost predicate NoRepeats<T>(ts: seq<T>) {
    forall i, j | 0 <= i < j < |ts| :: ts[i] != ts[j]
  }

  /** A node is enqueued at most once, when its expression has been evaluated, and has not been expanded while it is
      on the open list. */
  ghost predicate Listed<A(!new), E(!new)>(s: Snapshot<A, E>) {
    && NoRepeats(s.enqueued) && s.waiting !! s.evaluated
    && (forall k | k in s.enqueued :: k in s.nodes && k.expr in s.evaluated)
    && (forall k | k in s.taken :: k in s.enqueued)
    && (forall k | k in s.nodes && s.nodes[k].transitions.Some? ::
      k.expr in s.evaluated && (k in s.enqueued ==> k in s.taken))
  }

  ghost predicate Good<A(!new), E(!new)>(s: Snapshot<A, E>, stack: set<E>) {
    Registered(s) && Children(s) && HandedOver(s, stack) && Queued(s, stack) && Listed(s)
  }

  /** The expressions of which some node has been expanded. */
  ghost function ExpandedExprs<A(!new), E(!new)>(ns: Nodes<A, E>): set<E> {
    set k | k in ns && ns[k].transitions.Some? :: k.expr
  }

  /** What a call with time left `t` may change: nodes keep their transitions, and nothing later than `t` comes
      about. */
  ghost predicate Grown<A(!new), E(!new)>(s: Snapshot<A, E>, s': Snapshot<A, E>, t: int, stack: set<E>) {
    && (forall k | k in s.nodes :: k in s'.nodes && s'.nodes[k].transitions == s.nodes[k].transitions)
    && (forall k | k in s'.nodes && k !in s.nodes ::
      k.timeLeft <= t && (k.expr in stack ==> s'.nodes[k].transitions.None?))
    && (forall e | e in s.greatest ::
      e in s'.greatest && (s'.greatest[e] == s.greatest[e] || s.greatest[e] < s'.greatest[e] <= t))
    && (forall e | e in s'.greatest && e !in s.greatest :: s'.greatest[e] <= t)
    && s'.evaluated == s.evaluated && s.enqueued <= s'.enqueued && s'.taken == s.taken
    && (forall k | k in s'.enqueued && k !in s.enqueued :: k !in s.nodes)
    && ExpandedExprs(s'.nodes) == ExpandedExprs(s.nodes)
  }

  /** What is expanded stays so, what is pruned stays so, and new nodes have at most time `t` left. */
  ghost predicate Later<A(!new), E(!new)>(ns: Nodes<A, E>, ns': Nodes<A, E>, t: int) {
    && (forall k | k in ns :: k in ns'
         && (ns[k].transitions.Some? ==> ns'[k].transitions == ns[k].transitions)
         && (ns[k].pruned == Some(true) ==> ns'[k].pruned == Some(true)))
    && (forall k | k in ns' && k !in ns :: k.timeLeft <= t)
  }

  lemma {:induction false} GrownLater<A(!new), E(!new)>(s: Snapshot<A, E>, s': Snapshot<A, E>, t: int, stack: set<E>)
    requires Registered(s) && Registered(s') && Grown(s, s', t, stack)
    ensures Later(s.nodes, s'.nodes, t)
  {
    hide TopsExist, Counted;
  }

  lemma {:induction false} GrownLaterBelow<A(!new), E(!new)>(s: Snapshot<A, E>, s': Snapshot<A, E>, t: int, e: E)
    requires Good(s, {}) && Good(s', {e}) && Grown(s, s', t, {e})
    ensures Later(s.nodes, s'.nodes, t)
  {
    hide Registered, Children, HandedOver, Queued, Listed, Grown, Later;
    GrownLater(s, s', t, {e});
  }

  lemma {:induction false} ExpandedLater<A(!new), E(!new)>(s: Snapshot<A, E>, s': Snapshot<A, E>, t: int, k: Key<E>,
      ts: seq<Transition<A, E>>)
    requires Later(s.nodes, s'.nodes, t) && k in s.nodes && k in s'.nodes && s.nodes[k].transitions.None?
    ensures Later(s.nodes, Expanded(s', k, ts).nodes, t)
  {}

  lemma {:induction false} GrownSame<A(!new), E(!new)>(s: Snapshot<A, E>, t: int, stack: set<E>)
    ensures Grown(s, s, t, stack)
  {}

  lemma {:induction false} GrownTransitive<A(!new), E(!new)>(s: Snapshot<A, E>, s1: Snapshot<A, E>, s2: Snapshot<A, E>,
      t: int, stack: set<E>)
    requires Grown(s, s1, t, stack) && Grown(s1, s2, t, stack)
    ensures Grown(s, s2, t, stack)
  {}

  // ---------------------------------------------------------------- where new nodes come from

  predicate LeadsTo<A, E(==)>(ts: seq<Transition<A, E>>, x: Key<E>) {
    exists i :: 0 <= i < |ts| && ts[i].next == x
  }

  ghost predicate HasParent<A(!new), E(!new)>(ns: Nodes<A, E>, x: Key<E>) {
    exists y :: y in ns && ns[y].transitions.Some? && LeadsTo(ns[y].transitions.value, x)
  }

  /** Every new node is the child of some node, or one of `extra`. */
  ghost predicate Parented<A(!new), E(!new)>(ns: Nodes<A, E>, ns': Nodes<A, E>, extra: set<Key<E>>) {
    forall x | x in ns' && x !in ns && x !in extra :: HasParent(ns', x)
  }

  function Nexts<A, E(==)>(ts: seq<Transition<A, E>>): set<Key<E>> {
    set i | 0 <= i < |ts| :: ts[i].next
  }

  predicate Unfruitful<A, E>(n: Node<A, E>) {
    n.transitions.None? || n.transitions.value == []
  }

  /** No node of `e` has children. */
  ghost predicate Barren<A(!new), E(!new)>(ns: Nodes<A, E>, e: E) {
    forall k | k in ns && k.expr == e :: Unfruitful(ns[k])
  }

  /** What a call for `k` may add: `k`, and nodes with a parent; `k` alone if no node of its expression has children. */
  ghost predicate Offspring<A(!new), E(!new)>(ns: Nodes<A, E>, ns': Nodes<A, E>, k: Key<E>) {
    && Parented(ns, ns', {k}) && k in ns'
    && (Barren(ns, k.expr) ==> ns'.Keys == ns.Keys + {k} && Unfruitful(ns'[k]))
  }

  lemma {:induction false} OffspringSame<A(!new), E(!new)>(ns: Nodes<A, E>, k: Key<E>)
    requires k in ns
    ensures Offspring(ns, ns, k)
  {}

  lemma {:induction false} AddsOffspring<A(!new), E(!new)>(s: Snapshot<A, E>, s': Snapshot<A, E>, k: Key<E>)
    requires Adds(s, s', k)
    ensures Offspring(s.nodes, s'.nodes, k)
  {}

  /** Children of a node that is about to be expanded, one call after another. */
  lemma {:induction false} ParentedMore<A(!new), E(!new)>(s: Snapshot<A, E>, s1: Snapshot<A, E>, s2: Snapshot<A, E>,
      ts: seq<Transition<A, E>>, child: Transition<A, E>, t: int, stack: set<E>)
    requires Parented(s.nodes, s1.nodes, Nexts(ts)) && Offspring(s1.nodes, s2.nodes, child.next)
      && Grown(s1, s2, t, stack)
    ensures Parented(s.nodes, s2.nodes, Nexts(ts + [child]))
  {
    hide LeadsTo, Barren, Unfruitful;
    NextsMore(ts, child);
    forall x | x in s2.nodes && x !in s.nodes && x !in Nexts(ts + [child]) ensures HasParent(s2.nodes, x) {
      if x in s1.nodes {
        ParentStays(s1, s2, x, t, stack);
      }
    }
  }

  lemma {:induction false} ParentStays<A(!new), E(!new)>(s: Snapshot<A, E>, s': Snapshot<A, E>, x: Key<E>, t: int,
      stack: set<E>)
    requires HasParent(s.nodes, x) && Grown(s, s', t, stack)
    ensures HasParent(s'.nodes, x)
  {
    hide LeadsTo;
    var y :| y in s.nodes && s.nodes[y].transitions.Some? && LeadsTo(s.nodes[y].transitions.value, x);
    assert s'.nodes[y].transitions == s.nodes[y].transitions;
  }

  lemma {:induction false} NextsMore<A, E>(ts: seq<Transition<A, E>>, t: Transition<A, E>)
    ensures Nexts(ts + [t]) == Nexts(ts) + {t.next} && Nexts<A, E>([]) == {}
  {
    var us := ts + [t];
    forall x | x in Nexts(ts) ensures x in Nexts(us) {
      var i :| 0 <= i < |ts| && ts[i].next == x;
      assert us[i].next == x;
    }
    assert us[|ts|].next == t.next;
  }

  lemma {:induction false} ParentedNone<A(!new), E(!new)>(ns: Nodes<A, E>)
    ensures Nexts<A, E>([]) == {} && Parented(ns, ns, {})
  {}

  /** Expanding a node makes it the parent of its children. */
  lemma {:induction false} ExpandedParents<A(!new), E(!new)>(ns: Nodes<A, E>, s: Snapshot<A, E>, k: Key<E>,
      ts: seq<Transition<A, E>>, extra: set<Key<E>>)
    requires k in s.nodes && s.nodes[k].transitions.None? && Parented(ns, s.nodes, extra)
    ensures Parented(ns, Expanded(s, k, ts).nodes, extra - Nexts(ts)) && Expanded(s, k, ts).nodes.Keys == s.nodes.Keys
  {
    hide LeadsTo;
    var ns' := Expanded(s, k, ts).nodes;
    AddedKey(s.nodes, k, s.nodes[k].(transitions := Some(ts)));
    forall x | x in ns' && x !in ns && x !in extra - Nexts(ts) ensures HasParent(ns', x) {
      if x in Nexts(ts) {
        NextIs(ts, x);
        assert ns'[k].transitions == Some(ts);
      } else {
        var y :| y in s.nodes && s.nodes[y].transitions.Some? && LeadsTo(s.nodes[y].transitions.value, x);
        assert ns'[y].transitions == s.nodes[y].transitions;
      }
    }
  }

  lemma {:induction false} NextIs<A, E>(ts: seq<Transition<A, E>>, x: Key<E>)
    ensures x in Nexts(ts) <==> LeadsTo(ts, x)
  {}

  /** The node that takes over from `prev`, with its children, is all that came new without a parent. */
  lemma {:induction false} HandedOffspring<A(!new), E(!new)>(s0: Snapshot<A, E>, s1: Snapshot<A, E>, s2: Snapshot<A, E>,
      prev: Key<E>, k: Key<E>, ts: seq<Transition<A, E>>)
    requires Adds(s0, s1, k) && Parented(s1.nodes, s2.nodes, Nexts(ts)) && k in s2.nodes
      && s2.nodes[k].transitions.None?
    requires prev in s0.nodes && prev.expr == k.expr && s0.nodes[prev].transitions.Some?
    requires |ts| == |s0.nodes[prev].transitions.value| && (ts == [] ==> s2.nodes == s1.nodes)
    ensures Offspring(s0.nodes, Expanded(s2, k, ts).nodes, k)
  {
    hide LeadsTo, HasParent;
    ExpandedParents(s1.nodes, s2, k, ts, Nexts(ts));
    if Barren(s0.nodes, k.expr) {
      assert Unfruitful(s0.nodes[prev]);
    }
  }

  /** All that expanding a node with these rewrites may add so far, `ts` having been made. */
  ghost predicate Brood<A(!new), E(!new)>(ns: Nodes<A, E>, ns': Nodes<A, E>, rewrites: seq<(A, E)>,
      ts: seq<Transition<A, E>>) {
    && Parented(ns, ns', Nexts(ts))
    && (AllBarren(ns, rewrites) ==> ns'.Keys == ns.Keys + Nexts(ts) && AllBarren(ns', rewrites))
  }

  ghost predicate AllBarren<A(!new), E(!new)>(ns: Nodes<A, E>, rewrites: seq<(A, E)>) {
    forall i | 0 <= i < |rewrites| :: Barren(ns, rewrites[i].1)
  }

  lemma {:induction false} BroodNone<A(!new), E(!new)>(ns: Nodes<A, E>, rewrites: seq<(A, E)>)
    ensures Brood(ns, ns, rewrites, [])
  {
    hide Barren;
    ParentedNone(ns);
  }

  lemma {:induction false} BroodMore<A(!new), E(!new)>(s: Snapshot<A, E>, s1: Snapshot<A, E>, s2: Snapshot<A, E>,
      rewrites: seq<(A, E)>, ts: seq<Transition<A, E>>, i: nat, child: Transition<A, E>, t: int, stack: set<E>)
    requires Brood(s.nodes, s1.nodes, rewrites, ts) && Offspring(s1.nodes, s2.nodes, child.next)
      && Grown(s1, s2, t, stack)
    requires i < |rewrites| && child.next.expr == rewrites[i].1
    ensures Brood(s.nodes, s2.nodes, rewrites, ts + [child])
  {
    hide Parented, Barren, Unfruitful;
    ParentedMore(s, s1, s2, ts, child, t, stack);
    NextsMore(ts, child);
    if AllBarren(s.nodes, rewrites) {
      assert Barren(s1.nodes, rewrites[i].1);
      forall j | 0 <= j < |rewrites| ensures Barren(s2.nodes, rewrites[j].1) {
        assert Barren(s1.nodes, rewrites[j].1);
        BarrenStays(s1, s2, child.next, rewrites[j].1, t, stack);
      }
    }
  }

  lemma {:induction false} BarrenStays<A(!new), E(!new)>(s: Snapshot<A, E>, s': Snapshot<A, E>, k: Key<E>, e: E, t: int,
      stack: set<E>)
    requires Barren(s.nodes, e) && Grown(s, s', t, stack) && s'.nodes.Keys == s.nodes.Keys + {k}
      && Unfruitful(s'.nodes[k])
    ensures Barren(s'.nodes, e)
  {}

  lemma {:induction false} ExpandedBrood<A(!new), E(!new)>(ns: Nodes<A, E>, s: Snapshot<A, E>, k: Key<E>,
      rewrites: seq<(A, E)>, ts: seq<Transition<A, E>>, us: seq<Transition<A, E>>)
    requires k in s.nodes && s.nodes[k].transitions.None? && Brood(ns, s.nodes, rewrites, ts)
    ensures Parented(ns, Expanded(s, k, us).nodes, Nexts(ts) - Nexts(us))
    ensures AllBarren(ns, rewrites) ==> Expanded(s, k, us).nodes.Keys == ns.Keys + Nexts(ts)
  {
    hide Parented, Barren;
    ExpandedParents(ns, s, k, us, Nexts(ts));
  }

  /** A snapshot with a new node. */
  function WithNode<A, E(==)>(s: Snapshot<A, E>, k: Key<E>, pruned: bool): Snapshot<A, E> {
    s.(nodes := s.nodes[k := Node(Some(pruned), None)], waiting := if k.expr in s.evaluated then s.waiting
      else s.waiting + {k.expr})
  }

  lemma {:induction false} AddedKey<K, V>(m: map<K, V>, k: K, v: V)
    ensures m[k := v].Keys == m.Keys + {k}
    ensures k !in m ==> |m[k := v].Keys| == |m.Keys| + 1
    ensures k in m ==> m[k := v].Keys == m.Keys
  {
    assert m[k := v].Keys == m.Keys + {k};
  }

  /** `s'` has one node more, `k`, without transitions, and differs only in the greatest time of its expression. */
  ghost predicate Adds<A(!new), E(!new)>(s: Snapshot<A, E>, s': Snapshot<A, E>, k: Key<E>) {
    && k !in s.nodes && s'.nodes.Keys == s.nodes.Keys + {k} && s'.nodes[k].transitions.None?
    && (forall x | x in s.nodes :: s'.nodes[x].transitions == s.nodes[x].transitions)
    && s'.evaluated == s.evaluated && s'.enqueued == s.enqueued && s'.taken == s.taken
    && s'.waiting == s.waiting + (if k.expr in s.evaluated then {} else {k.expr})
    && s'.greatest.Keys == s.greatest.Keys + {k.expr}
      && (forall e | e in s.greatest && e != k.expr :: s'.greatest[e] == s.greatest[e])
  }

  lemma {:induction false} AddsChildren<A(!new), E(!new)>(s: Snapshot<A, E>, s': Snapshot<A, E>, k: Key<E>)
    requires Adds(s, s', k) && Children(s)
    ensures Children(s')
  {
    hide Distinct;
    forall x | x in s'.nodes && s'.nodes[x].transitions.Some? ensures Leads(s', x, s'.nodes[x].transitions.value) {
      assert x in s.nodes && Leads(s, x, s.nodes[x].transitions.value);
    }
  }

  /** Expressions whose greatest time stays as it is are handed over as before. */
  lemma {:induction false} AddsHandedOver<A(!new), E(!new)>(s: Snapshot<A, E>, s': Snapshot<A, E>, k: Key<E>,
      stack: set<E>, stack': set<E>)
    requires Adds(s, s', k) && HandedOver(s, stack) && stack <= stack'
    requires k.expr in stack' || (k.expr in s.greatest ==> s'.greatest[k.expr] == s.greatest[k.expr])
    ensures HandedOver(s', stack')
  {
    hide Same;
    forall x | x in s'.nodes && s'.nodes[x].transitions.Some? && x.expr !in stack' ensures HandsOver(s', x) {
      assert x in s.nodes && HandsOver(s, x);
    }
  }

  lemma {:induction false} AddsQueued<A(!new), E(!new)>(s: Snapshot<A, E>, s': Snapshot<A, E>, k: Key<E>, stack: set<E>,
      stack': set<E>)
    requires Adds(s, s', k) && Queued(s, stack) && stack <= stack'
    requires k.expr in stack' || (k.expr in s.greatest ==> s'.greatest[k.expr] == s.greatest[k.expr])
    ensures Queued(s', stack')
  {}

  lemma {:induction false} AddsListed<A(!new), E(!new)>(s: Snapshot<A, E>, s': Snapshot<A, E>, k: Key<E>)
    requires Adds(s, s', k) && Listed(s)
    ensures Listed(s')
  {}

  lemma {:induction false} AddsGrown<A(!new), E(!new)>(s: Snapshot<A, E>, s': Snapshot<A, E>, k: Key<E>, stack: set<E>)
    requires Adds(s, s', k)
    requires k.expr in s.greatest ==>
      s'.greatest[k.expr] == s.greatest[k.expr] || (s.greatest[k.expr] < s'.greatest[k.expr] <= k.timeLeft)
    requires k.expr !in s.greatest ==> s'.greatest[k.expr] <= k.timeLeft
    ensures Grown(s, s', k.timeLeft, stack)
  {}

  lemma {:induction false} AddsGood<A(!new), E(!new)>(s: Snapshot<A, E>, s': Snapshot<A, E>, k: Key<E>, stack: set<E>,
      stack': set<E>)
    requires Good(s, stack) && Registered(s') && Adds(s, s', k) && stack <= stack'
    requires k.expr in stack' || (k.expr in s.greatest ==> s'.greatest[k.expr] == s.greatest[k.expr])
    requires k.expr in s.greatest ==>
      s'.greatest[k.expr] == s.greatest[k.expr] || (s.greatest[k.expr] < s'.greatest[k.expr] <= k.timeLeft)
    requires k.expr !in s.greatest ==> s'.greatest[k.expr] <= k.timeLeft
    ensures Good(s', stack') && Grown(s, s', k.timeLeft, stack)
  {
    hide Registered, Children, HandedOver, Queued, Listed, Grown;
    AddsChildren(s, s', k);
    AddsHandedOver(s, s', k, stack, stack');
    AddsQueued(s, s', k, stack, stack');
    AddsListed(s, s', k);
    AddsGrown(s, s', k, stack);
  }

  /** The first node of an expression. */
  function Started<A, E(==)>(s: Snapshot<A, E>, k: Key<E>): Snapshot<A, E> {
    WithNode(s, k, false).(greatest := s.greatest[k.expr := k.timeLeft])
  }

  lemma {:induction false} FirstNode<A(!new), E(!new)>(s: Snapshot<A, E>, stack: set<E>, k: Key<E>)
    requires Good(s, stack) && k !in s.nodes && k.expr !in s.greatest
    ensures Good(Started(s, k), stack) && Grown(s, Started(s, k), k.timeLeft, stack)
    ensures Offspring(s.nodes, Started(s, k).nodes, k)
  {
    hide Offspring, Children, HandedOver, Queued, Listed, Grown, PrunedRight, TopsExist, Counted, Started;
    FirstNodeRegistered(s, k);
    FirstNodeAdds(s, k);
    AddsGood(s, Started(s, k), k, stack, stack);
    AddsOffspring(s, Started(s, k), k);
  }

  lemma {:induction false} FirstNodeAdds<A(!new), E(!new)>(s: Snapshot<A, E>, k: Key<E>)
    requires k !in s.nodes && k.expr !in s.greatest
    ensures Adds(s, Started(s, k), k) && k.expr in Started(s, k).greatest
      && Started(s, k).greatest[k.expr] == k.timeLeft
  {
    AddedKey(s.nodes, k, Node(Some(false), None));
    AddedKey(s.greatest, k.expr, k.timeLeft);
  }

  lemma {:induction false} FirstNodeRegistered<A(!new), E(!new)>(s: Snapshot<A, E>, k: Key<E>)
    requires Registered(s) && k !in s.nodes && k.expr !in s.greatest
    ensures Registered(Started(s, k))
  {
    hide PrunedRight, TopsExist, Counted, Started;
    FirstNodeCounted(s, k);
    FirstNodeTops(s, k);
    FirstNodePruned(s, k);
  }

  lemma {:induction false} FirstNodeCounted<A(!new), E(!new)>(s: Snapshot<A, E>, k: Key<E>)
    requires Counted(s) && k !in s.nodes && k.expr !in s.greatest
    ensures Counted(Started(s, k))
  {
    var s' := Started(s, k);
    AddedKey(s.nodes, k, Node(Some(false), None));
    AddedKey(s.greatest, k.expr, k.timeLeft);
    assert s'.evaluated + s'.waiting == s'.greatest.Keys;
  }

  lemma {:induction false} FirstNodeTops<A(!new), E(!new)>(s: Snapshot<A, E>, k: Key<E>)
    requires TopsExist(s) && k !in s.nodes && k.expr !in s.greatest
    ensures TopsExist(Started(s, k))
  {}

  lemma {:induction false} FirstNodePruned<A(!new), E(!new)>(s: Snapshot<A, E>, k: Key<E>)
    requires PrunedRight(s) && k !in s.nodes && k.expr !in s.greatest
    ensures PrunedRight(Started(s, k))
  {}

  /** A node with less time left than the open one. */
  function Late<A, E(==)>(s: Snapshot<A, E>, k: Key<E>): Snapshot<A, E> {
    WithNode(s, k, true).(prunedCount := s.prunedCount + 1)
  }

  lemma {:induction false} LateNode<A(!new), E(!new)>(s: Snapshot<A, E>, stack: set<E>, k: Key<E>)
    requires Good(s, stack) && k !in s.nodes && k.expr in s.greatest && k.timeLeft < s.greatest[k.expr]
    ensures Good(Late(s, k), stack) && Grown(s, Late(s, k), k.timeLeft, stack)
    ensures Offspring(s.nodes, Late(s, k).nodes, k)
  {
    hide Offspring, Children, HandedOver, Queued, Listed, Grown, PrunedRight, TopsExist, Counted, Late;
    LateNodeRegistered(s, k);
    LateNodeAdds(s, k);
    AddsGood(s, Late(s, k), k, stack, stack);
    AddsOffspring(s, Late(s, k), k);
  }

  lemma {:induction false} LateNodeAdds<A(!new), E(!new)>(s: Snapshot<A, E>, k: Key<E>)
    requires k !in s.nodes && k.expr in s.greatest
    ensures Adds(s, Late(s, k), k) && Late(s, k).greatest == s.greatest
  {
    AddedKey(s.nodes, k, Node(Some(true), None));
    assert s.greatest.Keys == s.greatest.Keys + {k.expr};
  }

  lemma {:induction false} LateNodeRegistered<A(!new), E(!new)>(s: Snapshot<A, E>, k: Key<E>)
    requires Registered(s) && k !in s.nodes && k.expr in s.greatest && k.timeLeft < s.greatest[k.expr]
    ensures Registered(Late(s, k))
  {
    hide PrunedRight, TopsExist, Counted, Late;
    LateNodeCounted(s, k);
    LateNodeTops(s, k);
    LateNodePruned(s, k);
  }

  lemma {:induction false} LateNodeCounted<A(!new), E(!new)>(s: Snapshot<A, E>, k: Key<E>)
    requires Counted(s) && k !in s.nodes && k.expr in s.greatest && k.timeLeft < s.greatest[k.expr]
    ensures Counted(Late(s, k))
  {
    var s' := Late(s, k);
    AddedKey(s.nodes, k, Node(Some(true), None));
    assert s'.evaluated + s'.waiting == s'.greatest.Keys;
  }

  lemma {:induction false} LateNodeTops<A(!new), E(!new)>(s: Snapshot<A, E>, k: Key<E>)
    requires TopsExist(s) && k !in s.nodes && k.expr in s.greatest && k.timeLeft < s.greatest[k.expr]
    ensures TopsExist(Late(s, k))
  {}

  lemma {:induction false} LateNodePruned<A(!new), E(!new)>(s: Snapshot<A, E>, k: Key<E>)
    requires PrunedRight(s) && k !in s.nodes && k.expr in s.greatest && k.timeLeft < s.greatest[k.expr]
    ensures PrunedRight(Late(s, k))
  {}

  /** A snapshot in which a new node has taken over as the open one. */
  function Superseded<A, E(==)>(s: Snapshot<A, E>, k: Key<E>): Snapshot<A, E>
    requires k.expr in s.greatest && Top(s, k.expr) in s.nodes
  {
    var s1 := WithNode(s, k, false);
    var prev := Top(s, k.expr);
    s1.(nodes := s1.nodes[prev := s.nodes[prev].(pruned := Some(true))], greatest :=
      s.greatest[k.expr := k.timeLeft], prunedCount := s.prunedCount + 1)
  }

  lemma {:induction false} EarlierNode<A(!new), E(!new)>(s: Snapshot<A, E>, stack: set<E>, k: Key<E>)
    requires Good(s, stack) && k !in s.nodes && k.expr in s.greatest && k.timeLeft > s.greatest[k.expr]
    ensures Top(s, k.expr) in s.nodes && s.nodes[Top(s, k.expr)].pruned == Some(false)
    ensures Good(Superseded(s, k), stack + {k.expr}) && Grown(s, Superseded(s, k), k.timeLeft, stack)
    ensures k in Superseded(s, k).nodes && Superseded(s, k).nodes[k].transitions.None?
  {
    hide Children, HandedOver, Queued, Listed, Grown, PrunedRight, TopsExist, Counted, Superseded;
    TopExists(s, k.expr);
    EarlierNodeRegistered(s, k);
    EarlierNodeAdds(s, k);
    AddsGood(s, Superseded(s, k), k, stack, stack + {k.expr});
  }

  lemma {:induction false} TopExists<A(!new), E(!new)>(s: Snapshot<A, E>, e: E)
    requires Registered(s) && e in s.greatest
    ensures Top(s, e) in s.nodes && s.nodes[Top(s, e)].pruned == Some(false)
  {
    hide Counted;
  }

  lemma {:induction false} EarlierNodeAdds<A(!new), E(!new)>(s: Snapshot<A, E>, k: Key<E>)
    requires k !in s.nodes && k.expr in s.greatest && Top(s, k.expr) in s.nodes
    ensures Adds(s, Superseded(s, k), k) && Superseded(s, k).greatest == s.greatest[k.expr := k.timeLeft]
  {
    AddedKey(s.nodes, k, Node(Some(false), None));
    AddedKey(s.nodes[k := Node(Some(false), None)], Top(s, k.expr), s.nodes[Top(s, k.expr)].(pruned := Some(true)));
    AddedKey(s.greatest, k.expr, k.timeLeft);
  }

  lemma {:induction false} EarlierNodeRegistered<A(!new), E(!new)>(s: Snapshot<A, E>, k: Key<E>)
    requires Registered(s) && k !in s.nodes && k.expr in s.greatest && k.timeLeft > s.greatest[k.expr]
    requires Top(s, k.expr) in s.nodes
    ensures Registered(Superseded(s, k))
  {
    hide PrunedRight, TopsExist, Counted, Superseded;
    EarlierNodeCounted(s, k);
    EarlierNodeTops(s, k);
    EarlierNodePruned(s, k);
  }

  lemma {:induction false} EarlierNodeCounted<A(!new), E(!new)>(s: Snapshot<A, E>, k: Key<E>)
    requires Counted(s) && k !in s.nodes && k.expr in s.greatest && k.timeLeft > s.greatest[k.expr]
    requires Top(s, k.expr) in s.nodes
    ensures Counted(Superseded(s, k))
  {
    var s' := Superseded(s, k);
    AddedKey(s.nodes, k, Node(Some(false), None));
    AddedKey(s.nodes[k := Node(Some(false), None)], Top(s, k.expr), s.nodes[Top(s, k.expr)].(pruned := Some(true)));
    AddedKey(s.greatest, k.expr, k.timeLeft);
    assert s'.evaluated + s'.waiting == s'.greatest.Keys;
  }

  lemma {:induction false} EarlierNodeTops<A(!new), E(!new)>(s: Snapshot<A, E>, k: Key<E>)
    requires TopsExist(s) && k !in s.nodes && k.expr in s.greatest && k.timeLeft > s.greatest[k.expr]
    requires Top(s, k.expr) in s.nodes
    ensures TopsExist(Superseded(s, k))
  {}

  lemma {:induction false} EarlierNodePruned<A(!new), E(!new)>(s: Snapshot<A, E>, k: Key<E>)
    requires PrunedRight(s) && k !in s.nodes && k.expr in s.greatest && k.timeLeft > s.greatest[k.expr]
    requires Top(s, k.expr) in s.nodes
    ensures PrunedRight(Superseded(s, k))
  {}

  // ---------------------------------------------------------------- expanding a node

  /** A snapshot in which `k` has been expanded. */
  function Expanded<A, E(==)>(s: Snapshot<A, E>, k: Key<E>, ts: seq<Transition<A, E>>): Snapshot<A, E>
    requires k in s.nodes
  {
    s.(nodes := s.nodes[k := s.nodes[k].(transitions := Some(ts))])
  }

  /** All nodes of `e` that were expanded have the actions and expressions of `ts`. */
  ghost predicate AllSame<A(!new), E(!new)>(s: Snapshot<A, E>, e: E, ts: seq<Transition<A, E>>) {
    forall k | k in s.nodes && k.expr == e && s.nodes[k].transitions.Some? :: Same(s.nodes[k].transitions.value, ts)
  }

  lemma {:induction false} ExpandedRegistered<A(!new), E(!new)>(s: Snapshot<A, E>, k: Key<E>, ts: seq<Transition<A, E>>)
    requires Registered(s) && k in s.nodes
    ensures Registered(Expanded(s, k, ts))
  {
    AddedKey(s.nodes, k, s.nodes[k].(transitions := Some(ts)));
  }

  lemma {:induction false} ExpandedChildren<A(!new), E(!new)>(s: Snapshot<A, E>, k: Key<E>, ts: seq<Transition<A, E>>)
    requires Children(s) && k in s.nodes && Leads(s, k, ts)
    ensures Children(Expanded(s, k, ts))
  {
    hide Distinct;
    var s' := Expanded(s, k, ts);
    forall x | x in s'.nodes && s'.nodes[x].transitions.Some? ensures Leads(s', x, s'.nodes[x].transitions.value) {
      if x != k {
        assert Leads(s, x, s.nodes[x].transitions.value);
      }
    }
  }

  lemma {:induction false} ExpandedHandedOver<A(!new), E(!new)>(s: Snapshot<A, E>, stack: set<E>, k: Key<E>,
      ts: seq<Transition<A, E>>)
    requires HandedOver(s, stack + {k.expr}) && k in s.nodes && k.expr in s.greatest
    requires k.timeLeft == s.greatest[k.expr] && AllSame(s, k.expr, ts)
    ensures HandedOver(Expanded(s, k, ts), stack)
  {
    hide Same;
    var s' := Expanded(s, k, ts);
    SameReflexive(ts);
    forall x | x in s'.nodes && s'.nodes[x].transitions.Some? && x.expr !in stack ensures HandsOver(s', x) {
      if x.expr != k.expr {
        assert HandsOver(s, x);
      }
    }
  }

  lemma {:induction false} SameReflexive<A, E>(ts: seq<Transition<A, E>>)
    ensures Same(ts, ts)
  {}

  lemma {:induction false} ExpandedQueued<A(!new), E(!new)>(s: Snapshot<A, E>, stack: set<E>, k: Key<E>,
      ts: seq<Transition<A, E>>)
    requires Queued(s, stack + {k.expr}) && k in s.nodes && k.expr in s.greatest && k.timeLeft == s.greatest[k.expr]
    ensures Queued(Expanded(s, k, ts), stack)
  {}

  lemma {:induction false} ExpandedListed<A(!new), E(!new)>(s: Snapshot<A, E>, k: Key<E>, ts: seq<Transition<A, E>>)
    requires Listed(s) && k in s.nodes && k.expr in s.evaluated && (k in s.enqueued ==> k in s.taken)
    ensures Listed(Expanded(s, k, ts))
  {}

  lemma {:induction false} ExpandedGood<A(!new), E(!new)>(s: Snapshot<A, E>, stack: set<E>, k: Key<E>,
      ts: seq<Transition<A, E>>)
    requires Good(s, stack + {k.expr}) && k in s.nodes && k.expr in s.greatest && k.timeLeft == s.greatest[k.expr]
    requires k.expr in s.evaluated && (k in s.enqueued ==> k in s.taken)
    requires Leads(s, k, ts) && AllSame(s, k.expr, ts)
    ensures Good(Expanded(s, k, ts), stack)
  {
    hide Registered, Children, HandedOver, Queued, Listed, Leads, AllSame, Expanded;
    ExpandedRegistered(s, k, ts);
    ExpandedChildren(s, k, ts);
    ExpandedHandedOver(s, stack, k, ts);
    ExpandedQueued(s, stack, k, ts);
    ExpandedListed(s, k, ts);
  }

  /** If no node of `e` was expanded, it is enough that the open one is queued. */
  lemma {:induction false} UnexpandedGood<A(!new), E(!new)>(s: Snapshot<A, E>, stack: set<E>, e: E, queue: seq<Key<E>>)
    requires Good(s, stack + {e}) && e in s.greatest && s.enqueued <= queue
    requires forall k | k in s.nodes && k.expr == e :: s.nodes[k].transitions.None?
    requires e in s.evaluated ==> Top(s, e) in queue
    requires Listed(s.(enqueued := queue))
    ensures Good(s.(enqueued := queue), stack)
  {
    hide Same, Distinct, Listed;
    var s' := s.(enqueued := queue);
    assert forall k | k in s.enqueued :: k in queue;
    forall x | x in s'.nodes && s'.nodes[x].transitions.Some? ensures Leads(s', x, s'.nodes[x].transitions.value) {
      assert Leads(s, x, s.nodes[x].transitions.value);
    }
    forall x | x in s'.nodes && s'.nodes[x].transitions.Some? && x.expr !in stack ensures HandsOver(s', x) {
      assert HandsOver(s, x);
    }
    TopExists(s, e);
  }

  lemma {:induction false} GoodMore<A(!new), E(!new)>(s: Snapshot<A, E>, stack: set<E>, e: E)
    requires Good(s, stack)
    ensures Good(s, stack + {e})
  {
    hide Registered, Children, Listed;
  }

  /** The nodes that were handed over before a node took over have the transitions of its predecessor. */
  lemma {:induction false} PredecessorSame<A(!new), E(!new)>(s0: Snapshot<A, E>, s1: Snapshot<A, E>, s2: Snapshot<A, E>,
      stack: set<E>, k: Key<E>, t: int, ts: seq<Transition<A, E>>)
    requires HandedOver(s0, stack) && k.expr in s0.greatest && k.expr !in stack && Adds(s0, s1, k)
    requires Grown(s1, s2, t, stack + {k.expr})
    requires Top(s0, k.expr) in s0.nodes && s0.nodes[Top(s0, k.expr)].transitions.Some?
    requires Same(ts, s0.nodes[Top(s0, k.expr)].transitions.value)
    ensures AllSame(s2, k.expr, ts) && k in s2.nodes && s2.nodes[k].transitions.None?
  {
    forall x | x in s2.nodes && x.expr == k.expr && s2.nodes[x].transitions.Some?
      ensures Same(s2.nodes[x].transitions.value, ts) {
      assert x in s0.nodes && HandsOver(s0, x);
    }
  }

  lemma {:induction false} NoneExpanded<A(!new), E(!new)>(s0: Snapshot<A, E>, s1: Snapshot<A, E>, stack: set<E>,
      k: Key<E>)
    requires HandedOver(s0, stack) && k.expr in s0.greatest && k.expr !in stack && Adds(s0, s1, k)
    requires Top(s0, k.expr) in s0.nodes && s0.nodes[Top(s0, k.expr)].transitions.None?
    ensures forall x | x in s1.nodes && x.expr == k.expr :: s1.nodes[x].transitions.None?
  {
    forall x | x in s1.nodes && x.expr == k.expr ensures s1.nodes[x].transitions.None? {
      assert s1.nodes[x].transitions.Some? ==> HandsOver(s0, x);
    }
  }

  lemma {:induction false} StackStays<A(!new), E(!new)>(s: Snapshot<A, E>, s': Snapshot<A, E>, t: int, stack: set<E>)
    requires Grown(s, s', t, stack) && forall x | x in stack :: x in s.greatest && s.greatest[x] > t
    ensures forall x | x in stack :: x in s'.greatest && s'.greatest[x] == s.greatest[x]
  {}

  /** What `get_node` returned for the first `n` of a list of transitions: nodes with time left `t`. */
  ghost predicate Fetched<A, E>(s: Snapshot<A, E>, from: seq<Transition<A, E>>, ts: seq<Transition<A, E>>, n: nat,
      t: nat) {
    && n <= |from| && |ts| == n
    && forall i | 0 <= i < n :: ts[i] == Transition(from[i].action, Key(from[i].next.expr, t)) && ts[i].next in s.nodes
  }

  lemma {:induction false} FetchedMore<A(!new), E(!new)>(s: Snapshot<A, E>, s': Snapshot<A, E>,
      from: seq<Transition<A, E>>, ts: seq<Transition<A, E>>, n: nat, t: nat, stack: set<E>)
    requires Fetched(s, from, ts, n, t) && n < |from| && Grown(s, s', t, stack) && Key(from[n].next.expr, t) in s'.nodes
    ensures Fetched(s', from, ts + [Transition(from[n].action, Key(from[n].next.expr, t))], n + 1, t)
  {}

  lemma {:induction false} FetchedAll<A, E>(s: Snapshot<A, E>, from: seq<Transition<A, E>>, ts: seq<Transition<A, E>>,
      t: nat)
    requires Fetched(s, from, ts, |from|, t)
    ensures |ts| == |from|
  {}

  /** Children handed on, one step later each, are as distinct as they were. */
  lemma {:induction false} FetchedLeads<A(!new), E(!new)>(s0: Snapshot<A, E>, s: Snapshot<A, E>, prev: Key<E>,
      k: Key<E>, from: seq<Transition<A, E>>, ts: seq<Transition<A, E>>)
    requires Leads(s0, prev, from) && k.timeLeft > 0 && Fetched(s, from, ts, |from|, k.timeLeft - 1)
    ensures Leads(s, k, ts) && Same(ts, from) && ByAction(Uniquify(ts)) == ts
  {
    hide Uniquify, ByAction;
    forall i, j | 0 <= i < j < |ts| ensures ts[i].action != ts[j].action && ts[i].next != ts[j].next {
      assert from[i].next.timeLeft == from[j].next.timeLeft;
    }
    UniquifyDistinct(ts);
    ByActionDistinct(ts);
  }

  class EarliestEnqueuingCache<A(==, !new), E(==, !new)> {
    var nodes: Nodes<A, E>
    var greatestTimeLeft: Times<E>
    var prunedCount: nat
    /** The expressions waiting for an evaluation, and those that have one. */
    var waiting: set<E>
    var evaluated: set<E>
    /** All that was handed to `enqueue_fn`. */
    var enqueued: seq<Key<E>>
    /** Those of them that are no longer on the open list. */
    var taken: set<Key<E>>

    ghost function State(): Snapshot<A, E>
      reads this
    {
      Snapshot(nodes, greatestTimeLeft, prunedCount, waiting, evaluated, enqueued, taken)
    }

    ghost predicate Valid()
      reads this
    {
      Good(State(), {})
    }

    constructor ()
      ensures Valid() && State() == Snapshot(map[], map[], 0, {}, {}, [], {})
    {
      nodes, greatestTimeLeft, prunedCount, waiting, evaluated, enqueued, taken := map[], map[], 0, {}, {}, [], {};
    }

    /** `get_node`. Expressions in `stack` have an open node, later than `timeLeft`, that is still being expanded.
        The assertions of the source hold: an existing node is pruned exactly if it is not the open one, the node that
        is superseded was open, and no transitions are set twice. */
    method GetNode(expr: E, timeLeft: nat, ghost stack: set<E>) returns (k: Key<E>)
      requires Good(State(), stack)
      requires forall x | x in stack :: x in greatestTimeLeft && greatestTimeLeft[x] > timeLeft
      modifies this
      ensures Good(State(), stack) && Grown(old(State()), State(), timeLeft, stack)
      ensures k == Key(expr, timeLeft) && k in nodes && Offspring(old(nodes), nodes, k)
      ensures k in old(nodes) ==> State() == old(State())
      ensures waiting == old(waiting) + if expr in evaluated then {} else {expr}
      decreases timeLeft, 1
    {
      hide Good, Grown, Registered, Expanded, Children, HandedOver, Listed, Offspring;
      k := Key(expr, timeLeft);
      ghost var s0 := State();
      if k in nodes {
        Existing(s0, stack, k);
        OffspringSame(nodes, k);
        assert nodes[k].pruned.Some?;
        assert timeLeft <= greatestTimeLeft[expr];
        assert nodes[k].pruned.value == (timeLeft < greatestTimeLeft[expr]);
        return;
      }
      nodes := nodes[k := Node(None, None)];
      if expr !in evaluated {
        waiting := waiting + {expr};
      }
      nodes := nodes[k := nodes[k].(pruned := Some(false))];
      NewNode(s0, k);
      hide WithNode;
      assert State() == WithNode(s0, k, false);
      if expr !in greatestTimeLeft {
        greatestTimeLeft := greatestTimeLeft[expr := timeLeft];
        FirstNode(s0, stack, k);
        assert State() == Started(s0, k);
      } else if timeLeft < greatestTimeLeft[expr] {
        prunedCount := prunedCount + 1;
        nodes := nodes[k := nodes[k].(pruned := Some(true))];
        LateNode(s0, stack, k);
        assert State() == Late(s0, k);
      } else {
        NotTop(s0, stack, k);
        assert timeLeft > greatestTimeLeft[expr];
        EarlierNode(s0, stack, k);
        var prev := Key(expr, greatestTimeLeft[expr]);
        assert nodes[prev].pruned == Some(false);
        greatestTimeLeft := greatestTimeLeft[expr := timeLeft];
        nodes := nodes[prev := nodes[prev].(pruned := Some(true))];
        prunedCount := prunedCount + 1;
        assert State() == Superseded(s0, k);
        HandOn(prev, k, s0, stack);
      }
    }

    /** The last part of `get_node`: a node that takes over from one that was expanded gets the same transitions, one
        step later each; one that has an evaluation is enqueued. */
    method HandOn(prev: Key<E>, k: Key<E>, ghost s0: Snapshot<A, E>, ghost stack: set<E>)
      requires Good(s0, stack) && k !in s0.nodes && k.expr in s0.greatest && k.timeLeft > s0.greatest[k.expr]
      requires prev == Top(s0, k.expr) && prev in s0.nodes && State() == Superseded(s0, k)
      requires forall x | x in stack :: x in s0.greatest && s0.greatest[x] > k.timeLeft
      modifies this
      ensures Good(State(), stack) && Grown(s0, State(), k.timeLeft, stack) && k in nodes
      ensures waiting == old(waiting) && evaluated == old(evaluated) && Offspring(s0.nodes, nodes, k)
      decreases k.timeLeft, 0, 1
    {
      hide Good, Grown, Superseded, Registered, Expanded, Children, HandedOver, Fetched, Leads, Same, AllSame, Adds,
        Listed, Offspring, Parented, Nexts;
      EarlierNode(s0, stack, k);
      EarlierNodeAdds(s0, k);
      ghost var s1 := State();
      assert k.expr !in stack;
      Predecessor(s0, s1, prev, k, stack);
      if nodes[prev].transitions.Some? {
        var from := nodes[prev].transitions.value;
        var ts := FetchChildren(prev, k, from, s0, stack);
        HandedOn(s0, s1, State(), prev, k, from, ts, stack);
        SetTransitions(k, ts);
      } else {
        NoneExpanded(s0, s1, stack, k);
        EnqueuedListed(s1, stack, s0, k);
        if k.expr in evaluated {
          enqueued := enqueued + [k];
        }
        UnexpandedGood(s1, stack, k.expr, enqueued);
        QueueGrown(s0, s1, enqueued, k.timeLeft, stack);
        AddsOffspring(s0, s1, k);
      }
    }

    /** The nodes for the transitions handed on to `k`. */
    method FetchChildren(prev: Key<E>, k: Key<E>, from: seq<Transition<A, E>>, ghost s0: Snapshot<A, E>,
        ghost stack: set<E>)
      returns (ts: seq<Transition<A, E>>)
      requires Good(State(), stack + {k.expr}) && Leads(s0, prev, from) && k.timeLeft > 0
      requires forall x | x in stack + {k.expr} :: x in greatestTimeLeft && greatestTimeLeft[x] > k.timeLeft - 1
      requires forall x | x in s0.nodes :: x in nodes
      modifies this
      ensures Good(State(), stack + {k.expr}) && Grown(old(State()), State(), k.timeLeft - 1, stack + {k.expr})
      ensures Fetched(State(), from, ts, |from|, k.timeLeft - 1) && Parented(old(nodes), nodes, Nexts(ts))
      ensures waiting == old(waiting) && evaluated == old(evaluated) && (from == [] ==> nodes == old(nodes))
      decreases k.timeLeft, 0, 0
    {
      hide Good, Grown, Registered, Children, HandedOver, Fetched, Leads, Listed, Offspring, Parented, Nexts;
      ghost var s1 := State();
      ts := [];
      GrownSame(s1, k.timeLeft - 1, stack + {k.expr});
      NoneFetched(s1, from, k.timeLeft - 1);
      ParentedNone(s1.nodes);
      for i := 0 to |from|
        invariant Good(State(), stack + {k.expr}) && Grown(s1, State(), k.timeLeft - 1, stack + {k.expr})
        invariant Fetched(State(), from, ts, i, k.timeLeft - 1)
        invariant waiting == s1.waiting && evaluated == s1.evaluated
        invariant Parented(s1.nodes, nodes, Nexts(ts)) && (i == 0 ==> nodes == s1.nodes)
      {
        ghost var before := State();
        StackStays(s1, before, k.timeLeft - 1, stack + {k.expr});
        ChildKnown(s0, s1, before, prev, from, i, k.timeLeft - 1, stack + {k.expr});
        var child := GetNode(from[i].next.expr, k.timeLeft - 1, stack + {k.expr});
        FetchedMore(before, State(), from, ts, i, k.timeLeft - 1, stack + {k.expr});
        ParentedMore(s1, before, State(), ts, Transition(from[i].action, child), k.timeLeft - 1, stack + {k.expr});
        GrownTransitive(s1, before, State(), k.timeLeft - 1, stack + {k.expr});
        ts := ts + [Transition(from[i].action, child)];
      }
    }

    /** The setter of `transitions`; setting them twice would be an AttributeError. */
    method SetTransitions(k: Key<E>, ts: seq<Transition<A, E>>)
      requires k in nodes && nodes[k].transitions.None?
      modifies this`nodes
      ensures k in nodes && State() == Expanded(old(State()), k, ByAction(Uniquify(ts)))
      ensures nodes[k].transitions.Some? && Distinct(nodes[k].transitions.value)
      ensures forall t | t in nodes[k].transitions.value :: t in ts
      ensures Distinct(ts) ==> nodes[k].transitions.value == ts
    {
      hide Uniquify, ByAction, Distinct;
      UniquifyDistinct(ts);
      ByActionDistinct(Uniquify(ts));
      DistinctNext(ts);
      nodes := nodes[k := nodes[k].(transitions := Some(ByAction(Uniquify(ts))))];
    }

    /** The open list of the search. */
    function OpenList(): set<Key<E>>
      reads this
    {
      set k | k in enqueued && k !in taken
    }

    /** What the search does with a node that it takes off its open list: unless it was pruned meanwhile, it is
        expanded. */
    method Visit(k: Key<E>, rewrites: seq<(A, E)>)
      requires Valid() && k in OpenList()
      modifies this
      ensures Valid() && taken == old(taken) + {k} && k in old(nodes) && k in nodes && evaluated == old(evaluated)
      ensures Later(old(nodes), nodes, k.timeLeft - 1) && old(enqueued) <= enqueued
      ensures old(nodes)[k].pruned == Some(true) ==> nodes == old(nodes)
      ensures old(nodes)[k].pruned != Some(true) ==> Bred(old(nodes), nodes, k, rewrites)
    {
      hide Good, Bred;
      TakenGood(State(), k);
      if nodes[k].pruned == Some(true) {
        taken := taken + {k};
      } else {
        PrunedKnown(State(), k);
        Expand(k, rewrites);
      }
    }

    /** `Expander.__call__`, for an open node that comes off the open list: `rewrites` are the rewrites of its
        expression and their results. The assertion that it has not been expanded does not fail. */
    method Expand(k: Key<E>, rewrites: seq<(A, E)>)
      requires Valid() && k in OpenList() && k in nodes && nodes[k].pruned == Some(false)
      modifies this
      ensures Valid() && Bred(old(nodes), nodes, k, rewrites)
      ensures forall x | x in old(nodes) && x != k :: x in nodes && nodes[x].transitions == old(nodes)[x].transitions
      ensures taken == old(taken) + {k} && evaluated == old(evaluated) && Later(old(nodes), nodes, k.timeLeft - 1)
      ensures old(enqueued) <= enqueued
    {
      hide Good, Grown, Registered, Children, HandedOver, Listed, Later, Leads, AllSame, Made, Brood,
        Bred;
      TakenGood(State(), k);
      assert nodes[k].transitions.None?;
      taken := taken + {k};
      ghost var s0 := State();
      OpenNode(s0, k);
      var ts: seq<Transition<A, E>> := [];
      GoodMore(s0, {}, k.expr);
      assert {} + {k.expr} == {k.expr};
      GrownSame(s0, k.timeLeft - 1, {k.expr});
      NoneMade(s0, k, rewrites);
      BroodNone(nodes, rewrites);
      if k.timeLeft > 0 {
        for i := 0 to |rewrites|
          invariant Good(State(), {k.expr}) && Grown(s0, State(), k.timeLeft - 1, {k.expr})
          invariant Made(State(), k, rewrites, ts, i) && Brood(s0.nodes, nodes, rewrites, ts)
        {
          ghost var before := State();
          StackStays(s0, before, k.timeLeft - 1, {k.expr});
          var child := GetNode(rewrites[i].1, k.timeLeft - 1, {k.expr});
          GrownTransitive(s0, before, State(), k.timeLeft - 1, {k.expr});
          MadeMore(before, State(), k, rewrites, ts, i);
          BroodMore(s0, before, State(), rewrites, ts, i, Transition(rewrites[i].0, child), k.timeLeft - 1, {k.expr});
          ts := ts + [Transition(rewrites[i].0, child)];
        }
      }
      Expansion(s0, State(), k, rewrites, ts);
      SetTransitions(k, ts);
    }

    /** `process_batches`: evaluates all that waits, and enqueues the open nodes. */
    method ProcessBatches()
      requires Valid()
      modifies this`waiting, this`evaluated, this`enqueued
      ensures Valid() && waiting == {} && evaluated == old(evaluated) + old(waiting)
      ensures old(enqueued) <= enqueued
      ensures forall e | e in old(waiting) :: e in greatestTimeLeft && Key(e, greatestTimeLeft[e]) in OpenList()
    {
      hide Good, TopsOf;
      ghost var s0 := State();
      var rest := waiting;
      ghost var done: set<E> := {};
      ghost var batch: seq<Key<E>> := [];
      evaluated := evaluated + waiting;
      waiting := {};
      TopsOfNone(s0);
      while rest != {}
        invariant rest <= s0.waiting && done == s0.waiting - rest && TopsOf(s0, done, batch)
        invariant enqueued == s0.enqueued + batch && waiting == {} && evaluated == s0.evaluated + s0.waiting
        decreases |rest|
      {
        var e :| e in rest;
        WaitingKnown(s0, e);
        TopsOfMore(s0, done, batch, e);
        AppendLast(s0.enqueued, batch, Top(s0, e));
        enqueued := enqueued + [Key(e, greatestTimeLeft[e])];
        batch, done, rest := batch + [Top(s0, e)], done + {e}, rest - {e};
      }
      assert done == s0.waiting;
      EvaluatedGood(s0, batch);
      assert State() == s0.(waiting := {}, evaluated := s0.evaluated + s0.waiting, enqueued := s0.enqueued + batch);
      BatchOpen(s0, batch);
    }

    /** The graph of the search, for `_convert_to_episodes`. */
    function SearchGraph(): Graph<A, E>
      reads this
    {
      map k | k in nodes :: if nodes[k].transitions.Some? then nodes[k].transitions.value else []
    }

    /** Time runs out along transitions, and every transition leads to a node of the cache. */
    lemma {:induction false} SearchGraphWellFormed()
      requires Valid()
      ensures WellFormed(SearchGraph())
    {
      hide Registered, HandedOver, Queued, Listed, Distinct;
      forall k, i | k in SearchGraph() && 0 <= i < |SearchGraph()[k]|
        ensures SearchGraph()[k][i].next in nodes && SearchGraph()[k][i].next.timeLeft < k.timeLeft
      {
        assert Leads(State(), k, nodes[k].transitions.value);
      }
    }
  }

  /** In any state between calls, every expression has exactly one open node, and if any of its nodes has been expanded
      so has that one, to the same actions and expressions. */
  lemma {:induction false} OneOpenNode<A(!new), E(!new)>(s: Snapshot<A, E>, k: Key<E>)
    requires Good(s, {}) && k in s.nodes
    ensures k.expr in s.greatest && Top(s, k.expr) in s.nodes
    ensures s.nodes[k].pruned == Some(k != Top(s, k.expr))
    ensures s.nodes[k].transitions.Some? ==> HandsOver(s, k)
  {
    hide Children, Queued, Listed, Counted, HandsOver;
    TopExists(s, k.expr);
  }

  function Result<A, E>(k: Key<E>, rewrite: (A, E)): Transition<A, E>
    requires k.timeLeft > 0
  {
    Transition(rewrite.0, Key(rewrite.1, k.timeLeft - 1))
  }

  function Results<A, E>(k: Key<E>, rewrites: seq<(A, E)>): seq<Transition<A, E>> {
    if k.timeLeft == 0 then []
    else seq(|rewrites|, i requires 0 <= i < |rewrites| => Result(k, rewrites[i]))
  }

  /** The first `n` results of expanding `k`, as nodes. */
  ghost predicate Made<A, E>(s: Snapshot<A, E>, k: Key<E>, rewrites: seq<(A, E)>, ts: seq<Transition<A, E>>, n: nat) {
    n <= |Results(k, rewrites)| && ts == Results(k, rewrites)[..n] && forall i | 0 <= i < n :: ts[i].next in s.nodes
  }

  lemma {:induction false} NoneMade<A, E>(s: Snapshot<A, E>, k: Key<E>, rewrites: seq<(A, E)>)
    ensures Made(s, k, rewrites, [], 0) && (k.timeLeft == 0 ==> Made(s, k, rewrites, [], |Results(k, rewrites)|))
    ensures k.timeLeft > 0 ==> |Results(k, rewrites)| == |rewrites|
  {}

  lemma {:induction false} MadeMore<A(!new), E(!new)>(s: Snapshot<A, E>, s': Snapshot<A, E>, k: Key<E>,
      rewrites: seq<(A, E)>, ts: seq<Transition<A, E>>, n: nat)
    requires Made(s, k, rewrites, ts, n) && n < |rewrites| && k.timeLeft > 0
    requires Grown(s, s', k.timeLeft - 1, {k.expr}) && Key(rewrites[n].1, k.timeLeft - 1) in s'.nodes
    ensures Made(s', k, rewrites, ts + [Transition(rewrites[n].0, Key(rewrites[n].1, k.timeLeft - 1))], n + 1)
  {}

  lemma {:induction false} MadeLeads<A(!new), E(!new)>(s: Snapshot<A, E>, k: Key<E>, rewrites: seq<(A, E)>,
      ts: seq<Transition<A, E>>)
    requires Made(s, k, rewrites, ts, |Results(k, rewrites)|)
    ensures ts == Results(k, rewrites) && Leads(s, k, ByAction(Uniquify(ts)))
  {
    hide Uniquify, ByAction, Distinct;
    UniquifyDistinct(ts);
    ByActionDistinct(Uniquify(ts));
    var us := ByAction(Uniquify(ts));
    forall i | 0 <= i < |us| ensures us[i].next in s.nodes && us[i].next.timeLeft + 1 == k.timeLeft {
      assert us[i] in us;
      assert us[i] in Uniquify(ts);
      assert us[i] in ts;
    }
  }

  lemma {:induction false} OpenNode<A(!new), E(!new)>(s: Snapshot<A, E>, k: Key<E>)
    requires Good(s, {}) && k in s.nodes && s.nodes[k].pruned == Some(false)
    ensures k.expr in s.greatest && s.greatest[k.expr] == k.timeLeft
  {
    hide Children, HandedOver, Queued, Listed, Counted, TopsExist;
  }

  /** Nothing of the expression was expanded before its open node. */
  lemma {:induction false} OnlyOpenExpands<A(!new), E(!new)>(s0: Snapshot<A, E>, s1: Snapshot<A, E>, k: Key<E>,
      ts: seq<Transition<A, E>>)
    requires Good(s0, {}) && k in s0.nodes && s0.nodes[k].transitions.None? && k.expr in s0.greatest
    requires s0.greatest[k.expr] == k.timeLeft
    requires Grown(s0, s1, k.timeLeft - 1, {k.expr})
    ensures k in s1.nodes && s1.nodes[k].transitions.None? && AllSame(s1, k.expr, ts)
  {
    hide Registered, Children, Queued, Listed, Same;
    forall x | x in s1.nodes && x.expr == k.expr ensures s1.nodes[x].transitions.None? {
      assert x in s0.nodes && s0.nodes[x].transitions.Some? ==> HandsOver(s0, x);
    }
  }

  lemma {:induction false} ExpandedElsewhere<A(!new), E(!new)>(s0: Snapshot<A, E>, s1: Snapshot<A, E>, k: Key<E>,
      ts: seq<Transition<A, E>>)
    requires Grown(s0, s1, k.timeLeft - 1, {k.expr}) && k in s1.nodes
    ensures k in Expanded(s1, k, ts).nodes && Expanded(s1, k, ts).nodes[k].transitions == Some(ts)
    ensures forall x | x in s0.nodes && x != k ::
      x in Expanded(s1, k, ts).nodes && Expanded(s1, k, ts).nodes[x].transitions == s0.nodes[x].transitions
  {}

  /** What expanding `k` does to the nodes: it gets the results of its rewrites, and all nodes that are new without
      being the child of a node are results that were dropped. */
  ghost predicate Bred<A(!new), E(!new)>(ns: Nodes<A, E>, ns': Nodes<A, E>, k: Key<E>, rewrites: seq<(A, E)>) {
    var results := Results(k, rewrites);
    var ts := ByAction(Uniquify(results));
    && k in ns' && ns'[k].transitions == Some(ts) && ExpandedExprs(ns') == ExpandedExprs(ns) + {k.expr}
    && Parented(ns, ns', Nexts(results) - Nexts(ts))
    && (AllBarren(ns, rewrites) ==> ns'.Keys == ns.Keys + Nexts(results))
  }

  /** The node may get the results of its rewrites. */
  lemma {:induction false} Expansion<A(!new), E(!new)>(s0: Snapshot<A, E>, s1: Snapshot<A, E>, k: Key<E>,
      rewrites: seq<(A, E)>, ts: seq<Transition<A, E>>)
    requires Good(s0, {}) && Good(s1, {k.expr}) && Grown(s0, s1, k.timeLeft - 1, {k.expr})
    requires k in s0.nodes && s0.nodes[k].transitions.None? && k.expr in s0.greatest
      && s0.greatest[k.expr] == k.timeLeft
    requires k.expr in s0.evaluated && k in s0.taken && Made(s1, k, rewrites, ts, |Results(k, rewrites)|)
    requires Brood(s0.nodes, s1.nodes, rewrites, ts)
    ensures k in s1.nodes && s1.nodes[k].transitions.None? && ts == Results(k, rewrites)
    ensures var s2 := Expanded(s1, k, ByAction(Uniquify(ts)));
      && Good(s2, {}) && Later(s0.nodes, s2.nodes, k.timeLeft - 1) && s2.taken == s0.taken && s0.enqueued <= s2.enqueued
        && s2.evaluated == s0.evaluated
      && Bred(s0.nodes, s2.nodes, k, rewrites)
      && forall x | x in s0.nodes && x != k :: x in s2.nodes && s2.nodes[x].transitions == s0.nodes[x].transitions
  {
    hide Good, Grown, Later, Made, Leads, AllSame, Uniquify, ByAction, Results, Brood, AllBarren, Parented, Nexts;
    var us := ByAction(Uniquify(ts));
    StackStays(s0, s1, k.timeLeft - 1, {k.expr});
    MadeLeads(s1, k, rewrites, ts);
    OnlyOpenExpands(s0, s1, k, us);
    GrownLaterBelow(s0, s1, k.timeLeft - 1, k.expr);
    ExpandedLater(s0, s1, k.timeLeft - 1, k, us);
    GrownQueue(s0, s1, k.timeLeft - 1, {k.expr});
    assert {} + {k.expr} == {k.expr};
    ExpandedGood(s1, {}, k, us);
    ExpandedElsewhere(s0, s1, k, us);
    ExpandedBrood(s0.nodes, s1, k, rewrites, ts, us);
    OneMoreExpanded(s0, s1, k, us);
  }

  lemma {:induction false} OneMoreExpanded<A(!new), E(!new)>(s0: Snapshot<A, E>, s1: Snapshot<A, E>, k: Key<E>,
      ts: seq<Transition<A, E>>)
    requires Grown(s0, s1, k.timeLeft - 1, {k.expr}) && k in s1.nodes
    ensures ExpandedExprs(Expanded(s1, k, ts).nodes) == ExpandedExprs(s0.nodes) + {k.expr}
  {
    hide ExpandedExprs;
    ExprsOfExpanded(s1, k, ts);
  }

  lemma {:induction false} WaitingKnown<A(!new), E(!new)>(s: Snapshot<A, E>, e: E)
    requires Good(s, {}) && e in s.waiting
    ensures e in s.greatest
  {
    hide Children, HandedOver, Queued, Listed, PrunedRight, TopsExist;
    assert e in s.evaluated + s.waiting;
  }

  /** The open nodes of the expressions in `es`, each once. */
  ghost predicate TopsOf<A, E>(s: Snapshot<A, E>, es: set<E>, batch: seq<Key<E>>) {
    && NoRepeats(batch) && (forall k | k in batch :: k.expr in es)
    && (forall e | e in es :: e in s.greatest && Top(s, e) in batch)
    && (forall k | k in batch :: k.expr in s.greatest && k == Top(s, k.expr))
  }

  lemma {:induction false} AppendLast<T>(a: seq<T>, b: seq<T>, x: T)
    ensures a + b + [x] == a + (b + [x])
  {}

  lemma {:induction false} TopsOfNone<A, E>(s: Snapshot<A, E>)
    ensures TopsOf(s, {}, [])
  {}

  lemma {:induction false} TopsOfMore<A, E>(s: Snapshot<A, E>, es: set<E>, batch: seq<Key<E>>, e: E)
    requires TopsOf(s, es, batch) && e !in es && e in s.greatest
    ensures TopsOf(s, es + {e}, batch + [Top(s, e)])
  {}

  /** What was just evaluated has not been taken off the open list. */
  lemma {:induction false} BatchOpen<A(!new), E(!new)>(s: Snapshot<A, E>, batch: seq<Key<E>>)
    requires Good(s, {}) && TopsOf(s, s.waiting, batch)
    ensures forall e | e in s.waiting :: e in s.greatest && Top(s, e) in s.enqueued + batch && Top(s, e) !in s.taken
  {
    hide Registered, Children, HandedOver, Queued;
  }

  lemma {:induction false} EvaluatedGood<A(!new), E(!new)>(s: Snapshot<A, E>, batch: seq<Key<E>>)
    requires Good(s, {}) && TopsOf(s, s.waiting, batch)
    ensures Good(s.(waiting := {}, evaluated := s.evaluated + s.waiting, enqueued := s.enqueued + batch), {})
  {
    hide PrunedRight, TopsExist, Counted, Children, HandedOver, Listed;
    var s' := s.(waiting := {}, evaluated := s.evaluated + s.waiting, enqueued := s.enqueued + batch);
    EvaluatedCounted(s, s');
    SameNodesKeep(s, s', {});
    forall e | e in s.waiting ensures Top(s, e) in s.nodes {
      TopExists(s, e);
    }
    EvaluatedListed(s, batch);
    forall e | e in s'.evaluated ensures
      e in s'.greatest && Top(s', e) in s'.nodes
        && (s'.nodes[Top(s', e)].transitions.Some? || Top(s', e) in s'.enqueued)
    {
      assert e in s.waiting ==> Top(s, e) in batch;
    }
  }

  lemma {:induction false} EvaluatedListed<A(!new), E(!new)>(s: Snapshot<A, E>, batch: seq<Key<E>>)
    requires Listed(s) && TopsOf(s, s.waiting, batch) && forall e | e in s.waiting :: Top(s, e) in s.nodes
    ensures Listed(s.(waiting := {}, evaluated := s.evaluated + s.waiting, enqueued := s.enqueued + batch))
  {
    var queue := s.enqueued + batch;
    forall i, j | 0 <= i < j < |queue| ensures queue[i] != queue[j] {
      if i < |s.enqueued| <= j {
        assert s.enqueued[i] in s.enqueued && batch[j - |s.enqueued|] in batch;
      }
    }
  }

  lemma {:induction false} SameNodesKeep<A(!new), E(!new)>(s: Snapshot<A, E>, s': Snapshot<A, E>, stack: set<E>)
    requires s'.nodes == s.nodes && s'.greatest == s.greatest && PrunedRight(s) && TopsExist(s) && Children(s)
    requires HandedOver(s, stack)
    ensures PrunedRight(s') && TopsExist(s') && Children(s') && HandedOver(s', stack)
  {
    hide Distinct, Same;
    forall x | x in s'.nodes && s'.nodes[x].transitions.Some? ensures Leads(s', x, s'.nodes[x].transitions.value) {
      assert Leads(s, x, s.nodes[x].transitions.value);
    }
    forall x | x in s'.nodes && s'.nodes[x].transitions.Some? && x.expr !in stack ensures HandsOver(s', x) {
      assert HandsOver(s, x);
    }
  }

  lemma {:induction false} EvaluatedCounted<A, E>(s: Snapshot<A, E>, s': Snapshot<A, E>)
    requires Counted(s) && s' == s.(waiting := {}, evaluated := s.evaluated + s.waiting, enqueued := s'.enqueued)
    ensures Counted(s')
  {
    assert s'.evaluated + s'.waiting == s.greatest.Keys;
  }

  lemma {:induction false} Existing<A(!new), E(!new)>(s: Snapshot<A, E>, stack: set<E>, k: Key<E>)
    requires Good(s, stack) && k in s.nodes
    ensures k.expr in s.greatest && k.timeLeft <= s.greatest[k.expr]
      && s.nodes[k].pruned == Some(k.timeLeft < s.greatest[k.expr])
    ensures Grown(s, s, k.timeLeft, stack) && s.waiting == s.waiting + if k.expr in s.evaluated then {} else {k.expr}
  {
    hide Children, HandedOver, Queued, Listed;
  }

  lemma {:induction false} NotTop<A(!new), E(!new)>(s: Snapshot<A, E>, stack: set<E>, k: Key<E>)
    requires Good(s, stack) && k !in s.nodes && k.expr in s.greatest
    ensures k.timeLeft != s.greatest[k.expr]
  {
    hide Children, HandedOver, Queued, Listed, PrunedRight, Counted;
  }

  lemma {:induction false} NoneFetched<A(!new), E(!new)>(s: Snapshot<A, E>, from: seq<Transition<A, E>>, t: nat)
    ensures Fetched(s, from, [], 0, t)
  {}

  /** What is known of the node that is superseded. */
  lemma {:induction false} Predecessor<A(!new), E(!new)>(s0: Snapshot<A, E>, s1: Snapshot<A, E>, prev: Key<E>,
      k: Key<E>, stack: set<E>)
    requires Good(s0, stack) && Adds(s0, s1, k) && k.expr in s0.greatest && prev == Top(s0, k.expr) && prev in s0.nodes
    requires k.expr !in stack
    ensures k !in s0.nodes && k in s1.nodes && prev in s1.nodes
      && s1.nodes[prev].transitions == s0.nodes[prev].transitions
    ensures s0.nodes[prev].transitions.Some? ==> Leads(s0, prev, s0.nodes[prev].transitions.value)
    ensures HandedOver(s0, stack)
    ensures s0.nodes[prev].transitions.Some? ==> k.expr in ExpandedExprs(s0.nodes)
  {
    hide Registered, HandedOver, Queued, Listed, Leads;
  }

  lemma {:induction false} ChildKnown<A(!new), E(!new)>(s0: Snapshot<A, E>, s1: Snapshot<A, E>, s: Snapshot<A, E>,
      prev: Key<E>, from: seq<Transition<A, E>>, i: nat, t: int, stack: set<E>)
    requires Leads(s0, prev, from) && i < |from| && Good(s, stack) && Grown(s1, s, t, stack) && forall x |
      x in s0.nodes :: x in s1.nodes
    ensures from[i].next.expr in s.waiting || from[i].next.expr in s.evaluated
  {
    hide Children, HandedOver, Queued, Listed, TopsExist;
    assert from[i].next in s.nodes;
  }

  lemma {:induction false} ExpandedGrown<A(!new), E(!new)>(s0: Snapshot<A, E>, s1: Snapshot<A, E>, s2: Snapshot<A, E>,
      k: Key<E>, ts: seq<Transition<A, E>>, stack: set<E>)
    requires Grown(s0, s1, k.timeLeft, stack) && Grown(s1, s2, k.timeLeft - 1, stack + {k.expr}) && k in s2.nodes
    requires k !in s0.nodes && k.expr !in stack && k.expr in ExpandedExprs(s0.nodes)
    ensures Grown(s0, Expanded(s2, k, ts), k.timeLeft, stack)
  {
    hide Grown, ExpandedExprs;
    GrownWeaker(s1, s2, k.timeLeft - 1, k.timeLeft, stack + {k.expr}, stack);
    GrownTransitive(s0, s1, s2, k.timeLeft, stack);
    NewExpandedGrown(s0, s2, k, ts, stack);
  }

  lemma {:induction false} GrownWeaker<A(!new), E(!new)>(s: Snapshot<A, E>, s': Snapshot<A, E>, t: int, t': int,
      stack: set<E>, stack': set<E>)
    requires Grown(s, s', t, stack) && t <= t' && stack' <= stack
    ensures Grown(s, s', t', stack')
  {
    hide ExpandedExprs;
  }

  lemma {:induction false} NewExpandedGrown<A(!new), E(!new)>(s0: Snapshot<A, E>, s2: Snapshot<A, E>, k: Key<E>,
      ts: seq<Transition<A, E>>, stack: set<E>)
    requires Grown(s0, s2, k.timeLeft, stack) && k in s2.nodes
    requires k !in s0.nodes && k.expr !in stack && k.expr in ExpandedExprs(s0.nodes)
    ensures Grown(s0, Expanded(s2, k, ts), k.timeLeft, stack)
  {
    hide ExpandedExprs;
    ExprsOfExpanded(s2, k, ts);
  }

  lemma {:induction false} ExprsOfExpanded<A(!new), E(!new)>(s: Snapshot<A, E>, k: Key<E>, ts: seq<Transition<A, E>>)
    requires k in s.nodes
    ensures ExpandedExprs(Expanded(s, k, ts).nodes) == ExpandedExprs(s.nodes) + {k.expr}
  {
    var ns := Expanded(s, k, ts).nodes;
    assert ns[k].transitions.Some?;
    forall x | x in s.nodes && s.nodes[x].transitions.Some? ensures x.expr in ExpandedExprs(ns) {
      assert ns[x].transitions.Some?;
    }
  }

  lemma {:induction false} QueueGrown<A(!new), E(!new)>(s0: Snapshot<A, E>, s1: Snapshot<A, E>, queue: seq<Key<E>>,
      t: int, stack: set<E>)
    requires Grown(s0, s1, t, stack) && s1.enqueued <= queue
    requires forall k | k in queue :: k in s1.enqueued || k !in s0.nodes
    ensures Grown(s0, s1.(enqueued := queue), t, stack)
  {}

  lemma {:induction false} GrownQueue<A(!new), E(!new)>(s: Snapshot<A, E>, s': Snapshot<A, E>, t: int, stack: set<E>)
    requires Grown(s, s', t, stack)
    ensures s'.evaluated == s.evaluated && s'.taken == s.taken && s.enqueued <= s'.enqueued
  {}

  lemma {:induction false} PrunedKnown<A(!new), E(!new)>(s: Snapshot<A, E>, k: Key<E>)
    requires Good(s, {}) && k in s.nodes
    ensures s.nodes[k].pruned == Some(true) || s.nodes[k].pruned == Some(false)
  {
    hide TopsExist, Counted, Children, HandedOver, Queued, Listed;
  }

  /** A node that gets its transitions from its predecessor is never on the open list. */
  lemma {:induction false} NeverEnqueued<A(!new), E(!new)>(s0: Snapshot<A, E>, s1: Snapshot<A, E>, s2: Snapshot<A, E>,
      prev: Key<E>, k: Key<E>, t: int, stack: set<E>)
    requires Good(s0, stack) && Adds(s0, s1, k) && Grown(s1, s2, t, stack + {k.expr})
    requires prev in s0.nodes && prev.expr == k.expr && s0.nodes[prev].transitions.Some?
    ensures k.expr in s2.evaluated && k !in s2.enqueued
  {
    hide Registered, Children, HandedOver, Queued;
  }

  /** The new node may get the transitions of its predecessor. */
  lemma {:induction false} HandedOn<A(!new), E(!new)>(s0: Snapshot<A, E>, s1: Snapshot<A, E>, s2: Snapshot<A, E>,
      prev: Key<E>, k: Key<E>, from: seq<Transition<A, E>>, ts: seq<Transition<A, E>>, stack: set<E>)
    requires Good(s0, stack) && Adds(s0, s1, k) && Good(s2, stack + {k.expr}) && Grown(s0, s1, k.timeLeft, stack)
    requires k.expr in s0.greatest && k.expr !in stack && prev == Top(s0, k.expr) && prev in s0.nodes
    requires s0.nodes[prev].transitions == Some(from) && k.expr in s1.greatest && s1.greatest[k.expr] == k.timeLeft > 0
    requires forall x | x in stack :: x in s1.greatest && s1.greatest[x] > k.timeLeft - 1
    requires Grown(s1, s2, k.timeLeft - 1, stack + {k.expr}) && Fetched(s2, from, ts, |from|, k.timeLeft - 1)
    requires Parented(s1.nodes, s2.nodes, Nexts(ts)) && (from == [] ==> s2.nodes == s1.nodes)
    ensures k in s2.nodes && s2.nodes[k].transitions.None? && ByAction(Uniquify(ts)) == ts
    ensures Good(Expanded(s2, k, ts), stack) && Grown(s0, Expanded(s2, k, ts), k.timeLeft, stack)
    ensures Offspring(s0.nodes, Expanded(s2, k, ts).nodes, k)
  {
    hide Good, Grown, Adds, Fetched, Leads, Same, AllSame, Expanded, HandedOver, Uniquify, ByAction, Offspring,
      Parented, Nexts;
    FetchedAll(s2, from, ts, k.timeLeft - 1);
    Predecessor(s0, s1, prev, k, stack);
    FetchedLeads(s0, s2, prev, k, from, ts);
    PredecessorSame(s0, s1, s2, stack, k, k.timeLeft - 1, ts);
    StackStays(s1, s2, k.timeLeft - 1, stack + {k.expr});
    NeverEnqueued(s0, s1, s2, prev, k, k.timeLeft - 1, stack);
    ExpandedGood(s2, stack, k, ts);
    ExpandedGrown(s0, s1, s2, k, ts, stack);
    HandedOffspring(s0, s1, s2, prev, k, ts);
  }

  lemma {:induction false} EnqueuedListed<A(!new), E(!new)>(s: Snapshot<A, E>, stack: set<E>, s0: Snapshot<A, E>,
      k: Key<E>)
    requires Good(s0, stack) && Adds(s0, s, k)
    ensures Listed(s)
    ensures k.expr in s.evaluated ==> Listed(s.(enqueued := s.enqueued + [k]))
    ensures forall x | x in s.enqueued + [k] :: x in s.enqueued || x !in s0.nodes
  {
    hide Registered, Children, HandedOver, Queued, Adds, Listed;
    AddsListed(s0, s, k);
    EnqueuedMore(s, s0, k);
  }

  lemma {:induction false} EnqueuedMore<A(!new), E(!new)>(s: Snapshot<A, E>, s0: Snapshot<A, E>, k: Key<E>)
    requires Listed(s0) && Listed(s) && Adds(s0, s, k)
    ensures k !in s0.nodes
    ensures k.expr in s.evaluated ==> Listed(s.(enqueued := s.enqueued + [k]))
  {}

  /** A node on the open list has not been expanded, and may be taken off it. */
  lemma {:induction false} TakenGood<A(!new), E(!new)>(s: Snapshot<A, E>, k: Key<E>)
    requires Good(s, {}) && k in s.enqueued && k !in s.taken
    ensures k in s.nodes && s.nodes[k].transitions.None? && k.expr in s.evaluated
    ensures Good(s.(taken := s.taken + {k}), {})
  {
    hide PrunedRight, TopsExist, Counted, Children, HandedOver;
    SameNodesKeep(s, s.(taken := s.taken + {k}), {});
    TakenCounted(s, s.taken + {k});
  }

  lemma {:induction false} TakenCounted<A, E>(s: Snapshot<A, E>, taken: set<Key<E>>)
    requires Counted(s)
    ensures Counted(s.(taken := taken))
  {}

  lemma {:induction false} NewNode<A, E>(s: Snapshot<A, E>, k: Key<E>)
    ensures s.nodes[k := Node(None, None)][k := Node(Some(false), None)] == WithNode(s, k, false).nodes
    ensures (if k.expr in s.evaluated then s.waiting else s.waiting + {k.expr}) == WithNode(s, k, false).waiting
    ensures WithNode(s, k, false).waiting == s.waiting + if k.expr in s.evaluated then {} else {k.expr}
    ensures WithNode(s, k, false).(nodes := WithNode(s, k, false).nodes[k := Node(Some(true), None)])
      == WithNode(s, k, true)
    ensures k in WithNode(s, k, false).nodes && WithNode(s, k, false).nodes[k] == Node(Some(false), None)
    ensures forall x | x in s.nodes && x != k ::
      x in WithNode(s, k, false).nodes && WithNode(s, k, false).nodes[x] == s.nodes[x]
    ensures WithNode(s, k, false) == s.(nodes := WithNode(s, k, false).nodes, waiting := WithNode(s, k, false).waiting)
  {}
}
