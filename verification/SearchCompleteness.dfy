/** What a search has found when nothing is left to do: when every expression within reach has been met. */
module SearchCompleteness {
  import opened Episodes
  import opened SearchCache

  /** Some `n` rewrites lead from `e` to `f`. */
  ghost predicate Reaches<A(!new), E(!new)>(rules: E -> seq<(A, E)>, e: E, f: E, n: nat)
    decreases n
  {
    if n == 0 then e == f else exists i :: 0 <= i < |rules(e)| && Reaches(rules, rules(e)[i].1, f, n - 1)
  }

  /** A rewrite has one result. */
  ghost predicate Deterministic<A(!new), E(!new)>(rules: E -> seq<(A, E)>) {
    forall e, i, j | 0 <= i < |rules(e)| && 0 <= j < |rules(e)| && rules(e)[i].0 == rules(e)[j].0 ::
      rules(e)[i].1 == rules(e)[j].1
  }

  /** The transitions that a node should have. */
  function Own<A(==), E(==)>(rules: E -> seq<(A, E)>, k: Key<E>): seq<Transition<A, E>> {
    ByAction(Uniquify(Results(k, rules(k.expr))))
  }

  /** The state of a search from `start`: what was taken off the open list was expanded by its own rewrites, unless
      it was pruned; every expression of which a node has been expanded has one that was expanded in this way; and
      all nodes come from the start. */
  ghost predicate Explored<A(!new), E(!new)>(s: Snapshot<A, E>, rules: E -> seq<(A, E)>, start: Key<E>) {
    && (forall k | k in s.nodes :: k.timeLeft <= start.timeLeft && (k == start || HasParent(s.nodes, k)))
    && (forall k | k in s.taken :: k in s.nodes && (ByRules(s, rules, k) || s.nodes[k].pruned == Some(true)))
    && (forall e | e in ExpandedExprs(s.nodes) :: Rooted(s, rules, e))
    && start in s.nodes
  }

  ghost predicate ByRules<A(!new), E(!new)>(s: Snapshot<A, E>, rules: E -> seq<(A, E)>, k: Key<E>) {
    k in s.nodes && s.nodes[k].transitions == Some(Own(rules, k))
  }

  ghost predicate Rooted<A(!new), E(!new)>(s: Snapshot<A, E>, rules: E -> seq<(A, E)>, e: E) {
    exists k :: k in s.taken && k.expr == e && ByRules(s, rules, k)
  }

  /** The open node of every expression has been expanded. */
  ghost predicate AllExpanded<A(!new), E(!new)>(s: Snapshot<A, E>) {
    forall e | e in s.greatest :: Top(s, e) in s.nodes && s.nodes[Top(s, e)].transitions.Some?
  }

  // ---------------------------------------------------------------- a node's own transitions

  /** With deterministic rewrites no result is dropped but repetitions. */
  lemma {:induction false} OwnIsUniquified<A(!new), E(!new)>(rules: E -> seq<(A, E)>, k: Key<E>)
    requires Deterministic(rules)
    ensures Own(rules, k) == Uniquify(Results(k, rules(k.expr)))
    ensures Nexts(Own(rules, k)) == Nexts(Results(k, rules(k.expr)))
  {
    hide Uniquify, ByAction;
    var ts := Results(k, rules(k.expr));
    var us := Uniquify(ts);
    UniquifyDistinct(ts);
    UniquifyNexts(ts);
    forall i, j | 0 <= i < j < |us| ensures us[i].action != us[j].action && us[i].next != us[j].next {
      assert us[i] in us && us[j] in us;
      var p :| 0 <= p < |ts| && ts[p] == us[i];
      var q :| 0 <= q < |ts| && ts[q] == us[j];
    }
    ByActionDistinct(us);
  }

  lemma {:induction false} UniquifyNexts<A, E>(ts: seq<Transition<A, E>>)
    ensures Nexts(Uniquify(ts)) == Nexts(ts)
  {
    hide Nexts;
    if ts == [] {
      assert Uniquify(ts) == ts;
    } else {
      var init, last := ts[..|ts| - 1], ts[|ts| - 1];
      assert ts == init + [last];
      UniquifyNexts(init);
      NextsMore(init, last);
      NextsMore(Uniquify(init), last);
      if i :| 0 <= i < |ts| - 1 && ts[i].next == last.next {
        NextIs(init, last.next);
        assert init[i].next == last.next;
        assert Uniquify(ts) == Uniquify(init);
      } else {
        assert Uniquify(ts) == Uniquify(init) + [last];
      }
    }
  }

  /** The same transitions at another time. */
  function Retimed<A, E>(ts: seq<Transition<A, E>>, t: nat): seq<Transition<A, E>> {
    seq(|ts|, i requires 0 <= i < |ts| => Transition(ts[i].action, Key(ts[i].next.expr, t)))
  }

  ghost predicate AllAt<A, E>(ts: seq<Transition<A, E>>, t: nat) {
    forall i | 0 <= i < |ts| :: ts[i].next.timeLeft == t
  }

  lemma {:induction false} UniquifyRetimed<A, E>(ts: seq<Transition<A, E>>, t0: nat, t: nat)
    requires AllAt(ts, t0)
    ensures Uniquify(Retimed(ts, t)) == Retimed(Uniquify(ts), t)
  {
    if ts == [] {
      assert Retimed(ts, t) == [] == Retimed(Uniquify(ts), t);
    } else {
      var init, last := ts[..|ts| - 1], ts[|ts| - 1];
      var rs := Retimed(ts, t);
      assert rs[..|rs| - 1] == Retimed(init, t);
      UniquifyRetimed(init, t0, t);
      assert (exists i :: 0 <= i < |ts| - 1 && ts[i].next == last.next)
        <==> (exists i :: 0 <= i < |rs| - 1 && rs[i].next == rs[|rs| - 1].next) by {
        if i :| 0 <= i < |ts| - 1 && ts[i].next == last.next { assert rs[i].next == rs[|rs| - 1].next; }
        if i :| 0 <= i < |rs| - 1 && rs[i].next == rs[|rs| - 1].next { assert ts[i].next == last.next; }
      }
      assert Retimed(Uniquify(init) + [last], t) == Retimed(Uniquify(init), t) + [rs[|rs| - 1]];
    }
  }

  lemma {:induction false} OwnRetimed<A(!new), E(!new)>(rules: E -> seq<(A, E)>, k: Key<E>, k': Key<E>)
    requires Deterministic(rules) && k.expr == k'.expr && k.timeLeft > 0 && k'.timeLeft > 0
    ensures Own(rules, k') == Retimed(Own(rules, k), k'.timeLeft - 1)
  {
    hide Own, Uniquify;
    OwnIsUniquified(rules, k);
    OwnIsUniquified(rules, k');
    var ts := Results(k, rules(k.expr));
    assert Results(k', rules(k.expr)) == Retimed(ts, k'.timeLeft - 1);
    UniquifyRetimed(ts, k.timeLeft - 1, k'.timeLeft - 1);
  }

  lemma {:induction false} OwnNone<A(!new), E(!new)>(rules: E -> seq<(A, E)>, k: Key<E>)
    requires Deterministic(rules)
    ensures Own(rules, k) == [] <==> k.timeLeft == 0 || rules(k.expr) == []
  {
    hide Own;
    OwnIsUniquified(rules, k);
    var ts := Results(k, rules(k.expr));
    if ts != [] {
      assert ts[0].next in Nexts(ts);
      assert Nexts<A, E>([]) == {};
    }
  }

  // ---------------------------------------------------------------- when an open node has its own transitions

  /** The expression was expanded when no time was left, to no transitions, and has been met with time left since. */
  ghost predicate Lost<A(!new), E(!new)>(s: Snapshot<A, E>, rules: E -> seq<(A, E)>, e: E) {
    && Key(e, 0) in s.nodes && s.nodes[Key(e, 0)].transitions.Some?
    && e in s.greatest && s.greatest[e] > 0 && rules(e) != []
  }

  /** The open node of every expression has the transitions it should have, exactly if the expression is not lost. */
  ghost predicate OwnUnlessLost<A(!new), E(!new)>(s: Snapshot<A, E>, rules: E -> seq<(A, E)>) {
    forall e | e in s.greatest :: (ByRules(s, rules, Top(s, e)) <==> !Lost(s, rules, e))
  }

  /** Transitions that are the same and lead one step on are those of the other node, at another time. */
  lemma {:induction false} SameRetimed<A, E>(ts: seq<Transition<A, E>>, us: seq<Transition<A, E>>, t: nat)
    requires Same(ts, us) && AllAt(us, t)
    ensures us == Retimed(ts, t)
  {}

  lemma {:induction false} ChildrenAt<A(!new), E(!new)>(s: Snapshot<A, E>, k: Key<E>)
    requires Good(s, {}) && k in s.nodes && s.nodes[k].transitions.Some?
    ensures var ts := s.nodes[k].transitions.value;
      && (k.timeLeft == 0 ==> ts == []) && (k.timeLeft > 0 ==> AllAt(ts, k.timeLeft - 1))
      && (forall x | x in Nexts(ts) :: x in s.nodes && x.timeLeft + 1 == k.timeLeft)
  {
    hide Registered, HandedOver, Queued, Listed, Distinct;
    var ts := s.nodes[k].transitions.value;
    assert Leads(s, k, ts);
    if ts != [] {
      assert ts[0].next.timeLeft + 1 == k.timeLeft;
    }
  }

  lemma {:induction false} SameAsOpen<A(!new), E(!new)>(s: Snapshot<A, E>, k: Key<E>)
    requires Good(s, {}) && k in s.nodes && s.nodes[k].transitions.Some?
    ensures k.expr in s.greatest && Top(s, k.expr) in s.nodes && s.nodes[Top(s, k.expr)].transitions.Some?
    ensures Same(s.nodes[k].transitions.value, s.nodes[Top(s, k.expr)].transitions.value)
  {
    hide Registered, Children, Queued, Listed, Same;
    assert HandsOver(s, k);
  }

  lemma {:induction false} IsExpandedExpr<A(!new), E(!new)>(ns: Nodes<A, E>, k: Key<E>)
    requires k in ns && ns[k].transitions.Some?
    ensures k.expr in ExpandedExprs(ns)
  {}

  /** The open node of an expression has the transitions it should have, exactly if the expression was not expanded too
      late to have any. */
  lemma {:induction false} OpenNodesOwn<A(!new), E(!new)>(s: Snapshot<A, E>, rules: E -> seq<(A, E)>, start: Key<E>,
      e: E)
    requires Good(s, {}) && Explored(s, rules, start) && Deterministic(rules)
    requires e in s.greatest && Top(s, e) in s.nodes && s.nodes[Top(s, e)].transitions.Some?
    ensures ByRules(s, rules, Top(s, e)) <==> !Lost(s, rules, e)
  {
    hide Good, Own, Same, HasParent, ExpandedExprs, Deterministic;
    var top := Top(s, e);
    OwnNone(rules, top);
    if Lost(s, rules, e) {
      SameAsOpen(s, Key(e, 0));
      ChildrenAt(s, Key(e, 0));
      SameNone(s.nodes[Key(e, 0)].transitions.value, s.nodes[top].transitions.value);
    } else {
      IsExpandedExpr(s.nodes, top);
      assert Rooted(s, rules, e);
      var k :| k in s.taken && k.expr == e && ByRules(s, rules, k);
      SameAsOpen(s, k);
      ChildrenAt(s, k);
      ChildrenAt(s, top);
      SameNone(s.nodes[k].transitions.value, s.nodes[top].transitions.value);
      if k.timeLeft > 0 && top.timeLeft > 0 {
        SameRetimed(Own(rules, k), s.nodes[top].transitions.value, top.timeLeft - 1);
        OwnRetimed(rules, k, top);
      } else if k.timeLeft > 0 {
        OpenIsLatest(s, k);
        assert false;
      } else {
        assert k == Key(e, 0);
      }
    }
  }

  lemma {:induction false} SameNone<A, E>(ts: seq<Transition<A, E>>, us: seq<Transition<A, E>>)
    requires Same(ts, us)
    ensures ts == [] <==> us == []
  {}

  lemma {:induction false} OpenIsLatest<A(!new), E(!new)>(s: Snapshot<A, E>, k: Key<E>)
    requires Good(s, {}) && k in s.nodes
    ensures k.expr in s.greatest && k.timeLeft <= s.greatest[k.expr] && Top(s, k.expr) in s.nodes
  {
    hide Children, HandedOver, Queued, Listed, Counted;
  }

  // ---------------------------------------------------------------- every expression within reach

  /** Every expression that some rewrites lead to, no more than there is time for, has been met. */
  ghost predicate Complete<A(!new), E(!new)>(s: Snapshot<A, E>, rules: E -> seq<(A, E)>, e: E, time: nat) {
    forall f, n: nat | n <= time && Reaches(rules, e, f, n) :: f in s.greatest
  }

  /** What lies within reach of the lost expressions has been met. */
  ghost predicate CompleteBehindLost<A(!new), E(!new)>(s: Snapshot<A, E>, rules: E -> seq<(A, E)>) {
    forall e | e in s.greatest && Lost(s, rules, e) :: Complete(s, rules, e, s.greatest[e])
  }

  /** One rewrite on from an expression that is not lost. */
  lemma {:induction false} NextMet<A(!new), E(!new)>(s: Snapshot<A, E>, rules: E -> seq<(A, E)>, start: Key<E>, e: E,
      i: nat)
    requires Good(s, {}) && Explored(s, rules, start) && Deterministic(rules) && AllExpanded(s)
    requires e in s.greatest && s.greatest[e] > 0 && !Lost(s, rules, e) && i < |rules(e)|
    ensures var f := rules(e)[i].1; f in s.greatest && s.greatest[f] + 1 >= s.greatest[e]
  {
    hide Good, Explored, Own, Lost, Deterministic, Reaches;
    var top := Top(s, e);
    OpenNodesOwn(s, rules, start, e);
    OwnIsUniquified(rules, top);
    ChildrenAt(s, top);
    assert Results(top, rules(e))[i].next in Nexts(Results(top, rules(e)));
    OpenIsLatest(s, Key(rules(e)[i].1, s.greatest[e] - 1));
  }

  /** What lies within reach of a met expression is met, unless it lies within reach of a lost one. */
  lemma {:induction false} MetOrBehindLost<A(!new), E(!new)>(s: Snapshot<A, E>, rules: E -> seq<(A, E)>, start: Key<E>,
      e: E, f: E, n: nat)
    requires Good(s, {}) && Explored(s, rules, start) && Deterministic(rules) && AllExpanded(s)
    requires CompleteBehindLost(s, rules)
    requires e in s.greatest && n <= s.greatest[e] && Reaches(rules, e, f, n)
    ensures f in s.greatest
    decreases n
  {
    hide Good, Explored, Lost, Deterministic, AllExpanded;
    if Lost(s, rules, e) {
      assert Complete(s, rules, e, s.greatest[e]);
    } else if n > 0 {
      var i :| 0 <= i < |rules(e)| && Reaches(rules, rules(e)[i].1, f, n - 1);
      NextMet(s, rules, start, e, i);
      MetOrBehindLost(s, rules, start, rules(e)[i].1, f, n - 1);
    }
  }

  lemma {:induction false} ReachesOn<A(!new), E(!new)>(rules: E -> seq<(A, E)>, e: E, f: E, g: E, m: nat, n: nat)
    requires Reaches(rules, e, f, m) && Reaches(rules, f, g, n)
    ensures Reaches(rules, e, g, m + n)
    decreases m
  {
    if m > 0 {
      var i :| 0 <= i < |rules(e)| && Reaches(rules, rules(e)[i].1, f, m - 1);
      ReachesOn(rules, rules(e)[i].1, f, g, m - 1, n);
    }
  }

  /** The child of a node is a result of a rewrite of its expression. */
  lemma {:induction false} ChildByRule<A(!new), E(!new)>(s: Snapshot<A, E>, rules: E -> seq<(A, E)>, start: Key<E>,
      y: Key<E>, x: Key<E>)
    requires Good(s, {}) && Explored(s, rules, start) && Deterministic(rules)
    requires y in s.nodes && s.nodes[y].transitions.Some? && x in Nexts(s.nodes[y].transitions.value)
    ensures y.timeLeft == x.timeLeft + 1 && Reaches(rules, y.expr, x.expr, 1)
  {
    hide Good, Own, Same, HasParent, ExpandedExprs, Deterministic;
    ChildrenAt(s, y);
    IsExpandedExpr(s.nodes, y);
    assert Rooted(s, rules, y.expr);
    var k :| k in s.taken && k.expr == y.expr && ByRules(s, rules, k);
    SameAsOpen(s, k);
    SameAsOpen(s, y);
    var ts := s.nodes[y].transitions.value;
    var j :| 0 <= j < |ts| && ts[j].next == x;
    SameAt(Own(rules, k), s.nodes[Top(s, y.expr)].transitions.value, ts, j);
    OwnIsUniquified(rules, k);
    assert Own(rules, k)[j].next in Nexts(Own(rules, k));
    ResultByRule(rules, k, Own(rules, k)[j].next);
  }

  lemma {:induction false} SameAt<A, E>(ts: seq<Transition<A, E>>, us: seq<Transition<A, E>>, vs: seq<Transition<A, E>>,
      j: nat)
    requires Same(ts, us) && Same(vs, us) && j < |vs|
    ensures j < |ts| && ts[j].next.expr == vs[j].next.expr
  {}

  lemma {:induction false} ResultByRule<A(!new), E(!new)>(rules: E -> seq<(A, E)>, k: Key<E>, x: Key<E>)
    requires x in Nexts(Results(k, rules(k.expr)))
    ensures Reaches(rules, k.expr, x.expr, 1)
  {
    var ts := Results(k, rules(k.expr));
    var i :| 0 <= i < |ts| && ts[i].next == x;
    assert Reaches(rules, rules(k.expr)[i].1, x.expr, 0);
  }

  /** A node stands for a way from the start that leaves its time. */
  lemma {:induction false} NodeIsReached<A(!new), E(!new)>(s: Snapshot<A, E>, rules: E -> seq<(A, E)>, start: Key<E>,
      x: Key<E>)
    requires Good(s, {}) && Explored(s, rules, start) && Deterministic(rules) && x in s.nodes
    ensures x.timeLeft <= start.timeLeft && Reaches(rules, start.expr, x.expr, start.timeLeft - x.timeLeft)
    decreases start.timeLeft - x.timeLeft
  {
    hide Good, Deterministic, ByRules, Rooted, ExpandedExprs;
    if x != start {
      assert HasParent(s.nodes, x);
      var y :| y in s.nodes && s.nodes[y].transitions.Some? && LeadsTo(s.nodes[y].transitions.value, x);
      NextIs(s.nodes[y].transitions.value, x);
      ChildByRule(s, rules, start, y, x);
      NodeIsReached(s, rules, start, y);
      ReachesOn(rules, start.expr, y.expr, x.expr, start.timeLeft - y.timeLeft, 1);
    }
  }

  /** A search with nothing left to do has met every expression within reach, exactly if it has met what lies within
      reach of the expressions it expanded too late. */
  lemma {:induction false} CompleteUnlessLost<A(!new), E(!new)>(s: Snapshot<A, E>, rules: E -> seq<(A, E)>,
      start: Key<E>)
    requires Good(s, {}) && Explored(s, rules, start) && Deterministic(rules) && AllExpanded(s)
    ensures Complete(s, rules, start.expr, start.timeLeft)
      <==> CompleteBehindLost(s, rules)
  {
    hide Good, Explored, Lost, Deterministic, AllExpanded, Reaches;
    StartIsOpen(s, rules, start);
    if Complete(s, rules, start.expr, start.timeLeft) {
      forall e, f, n: nat | e in s.greatest && Lost(s, rules, e) && n <= s.greatest[e] && Reaches(rules, e, f, n)
        ensures f in s.greatest
      {
        OpenNodeExists(s, e);
        NodeIsReached(s, rules, start, Top(s, e));
        ReachesOn(rules, start.expr, e, f, start.timeLeft - s.greatest[e], n);
      }
    }
    if CompleteBehindLost(s, rules) {
      forall f, n: nat | n <= start.timeLeft && Reaches(rules, start.expr, f, n) ensures f in s.greatest {
        MetOrBehindLost(s, rules, start, start.expr, f, n);
      }
    }
  }

  lemma {:induction false} OpenNodeExists<A(!new), E(!new)>(s: Snapshot<A, E>, e: E)
    requires Good(s, {}) && e in s.greatest
    ensures Top(s, e) in s.nodes
  {
    hide Children, HandedOver, Queued, Listed, Counted, PrunedRight;
  }

  lemma {:induction false} StartIsOpen<A(!new), E(!new)>(s: Snapshot<A, E>, rules: E -> seq<(A, E)>, start: Key<E>)
    requires Good(s, {}) && Explored(s, rules, start)
    ensures start in s.nodes && start.expr in s.greatest && s.greatest[start.expr] == start.timeLeft
  {
    hide Good, HasParent, ByRules, Rooted, ExpandedExprs;
    OpenIsLatest(s, start);
  }

  /** No expression that has rewrites is reached both by as many rewrites as there is time for and by fewer. */
  ghost predicate NoneLate<A(!new), E(!new)>(rules: E -> seq<(A, E)>, start: Key<E>) {
    forall e, n: nat | n < start.timeLeft && rules(e) != [] && Reaches(rules, start.expr, e, start.timeLeft) ::
      !Reaches(rules, start.expr, e, n)
  }

  /** Then nothing is lost, whatever the order of the search. */
  lemma {:induction false} NothingLost<A(!new), E(!new)>(s: Snapshot<A, E>, rules: E -> seq<(A, E)>, start: Key<E>,
      e: E)
    requires Good(s, {}) && Explored(s, rules, start) && Deterministic(rules) && NoneLate(rules, start)
    ensures !Lost(s, rules, e)
  {
    hide Good, Explored, Deterministic, Reaches;
    if Lost(s, rules, e) {
      NodeIsReached(s, rules, start, Key(e, 0));
      OpenNodeExists(s, e);
      NodeIsReached(s, rules, start, Top(s, e));
      assert false;
    }
  }

  /** If nothing is lost, expressions are met with as much time left as any way to them leaves. */
  lemma {:induction false} MetInTime<A(!new), E(!new)>(s: Snapshot<A, E>, rules: E -> seq<(A, E)>, start: Key<E>, e: E,
      f: E, n: nat)
    requires Good(s, {}) && Explored(s, rules, start) && Deterministic(rules) && AllExpanded(s)
    requires forall x :: !Lost(s, rules, x)
    requires e in s.greatest && n <= s.greatest[e] && Reaches(rules, e, f, n)
    ensures f in s.greatest && s.greatest[f] + n >= s.greatest[e]
    decreases n
  {
    hide Good, Explored, Lost, Deterministic, AllExpanded;
    if n > 0 {
      var i :| 0 <= i < |rules(e)| && Reaches(rules, rules(e)[i].1, f, n - 1);
      NextMet(s, rules, start, e, i);
      MetInTime(s, rules, start, rules(e)[i].1, f, n - 1);
    }
  }

  /** The fewest rewrites that lead from `e` to `f`. */
  ghost predicate Fewest<A(!new), E(!new)>(rules: E -> seq<(A, E)>, e: E, f: E, n: nat) {
    Reaches(rules, e, f, n) && forall m: nat | m < n :: !Reaches(rules, e, f, m)
  }

  /** Where no expression can be expanded too late, a search with nothing left to do has met every expression within
      reach, by the shortest way, in whatever order it went. */
  lemma {:induction false} CompleteIfNoneLate<A(!new), E(!new)>(s: Snapshot<A, E>, rules: E -> seq<(A, E)>,
      start: Key<E>)
    requires Good(s, {}) && Explored(s, rules, start) && Deterministic(rules) && AllExpanded(s)
      && NoneLate(rules, start)
    ensures Complete(s, rules, start.expr, start.timeLeft)
    ensures forall f | f in s.greatest ::
      s.greatest[f] <= start.timeLeft && Fewest(rules, start.expr, f, start.timeLeft - s.greatest[f])
  {
    hide Good, Explored, Lost, Deterministic, AllExpanded, Reaches, NoneLate;
    StartIsOpen(s, rules, start);
    forall e ensures !Lost(s, rules, e) {
      NothingLost(s, rules, start, e);
    }
    CompleteUnlessLost(s, rules, start);
    forall f | f in s.greatest
      ensures s.greatest[f] <= start.timeLeft && Fewest(rules, start.expr, f, start.timeLeft - s.greatest[f])
    {
      OpenNodeExists(s, f);
      NodeIsReached(s, rules, start, Top(s, f));
      forall m: nat | m < start.timeLeft - s.greatest[f] ensures !Reaches(rules, start.expr, f, m) {
        if Reaches(rules, start.expr, f, m) {
          MetInTime(s, rules, start, start.expr, f, m);
          assert false;
        }
      }
    }
  }

  // ---------------------------------------------------------------- what the search keeps

  lemma {:induction false} ExploredFirst<A(!new), E(!new)>(s0: Snapshot<A, E>, s: Snapshot<A, E>,
      rules: E -> seq<(A, E)>, start: Key<E>)
    requires s0.nodes == map[] && s0.taken == {} && Grown(s0, s, start.timeLeft, {})
      && Offspring(s0.nodes, s.nodes, start)
    ensures Explored(s, rules, start)
  {
    assert ExpandedExprs(s0.nodes) == {};
  }

  lemma {:induction false} ExploredBatch<A(!new), E(!new)>(s: Snapshot<A, E>, s': Snapshot<A, E>,
      rules: E -> seq<(A, E)>, start: Key<E>)
    requires Explored(s, rules, start) && s'.nodes == s.nodes && s'.taken == s.taken
    ensures Explored(s', rules, start)
  {
    hide HasParent, ExpandedExprs, Own;
    forall e | e in ExpandedExprs(s'.nodes) ensures Rooted(s', rules, e) {
      assert Rooted(s, rules, e);
      var k :| k in s.taken && k.expr == e && ByRules(s, rules, k);
      assert ByRules(s', rules, k);
    }
  }

  lemma {:induction false} ByRulesStays<A(!new), E(!new)>(s: Snapshot<A, E>, s': Snapshot<A, E>,
      rules: E -> seq<(A, E)>, k: Key<E>, t: int)
    requires ByRules(s, rules, k) && Later(s.nodes, s'.nodes, t)
    ensures ByRules(s', rules, k)
  {
    hide Own;
  }

  lemma {:induction false} ParentsStay<A(!new), E(!new)>(ns: Nodes<A, E>, ns': Nodes<A, E>, x: Key<E>, t: int)
    requires HasParent(ns, x) && Later(ns, ns', t)
    ensures HasParent(ns', x)
  {
    hide LeadsTo;
    var y :| y in ns && ns[y].transitions.Some? && LeadsTo(ns[y].transitions.value, x);
    assert ns'[y].transitions == ns[y].transitions;
  }

  /** A node that was pruned is dropped. */
  lemma {:induction false} ExploredDrop<A(!new), E(!new)>(s: Snapshot<A, E>, s': Snapshot<A, E>,
      rules: E -> seq<(A, E)>, start: Key<E>, k: Key<E>)
    requires Explored(s, rules, start) && s'.nodes == s.nodes && s'.taken == s.taken + {k}
    requires k in s.nodes && s.nodes[k].pruned == Some(true)
    ensures Explored(s', rules, start)
  {
    hide HasParent, ExpandedExprs, Own;
    forall e | e in ExpandedExprs(s'.nodes) ensures Rooted(s', rules, e) {
      assert Rooted(s, rules, e);
      var x :| x in s.taken && x.expr == e && ByRules(s, rules, x);
      assert ByRules(s', rules, x);
    }
  }

  /** A node is expanded. */
  lemma {:induction false} ExploredMore<A(!new), E(!new)>(s: Snapshot<A, E>, s': Snapshot<A, E>,
      rules: E -> seq<(A, E)>, start: Key<E>, k: Key<E>)
    requires Explored(s, rules, start) && Deterministic(rules) && k in s.nodes && s'.taken == s.taken + {k}
    requires Later(s.nodes, s'.nodes, k.timeLeft - 1) && Bred(s.nodes, s'.nodes, k, rules(k.expr))
    ensures Explored(s', rules, start)
  {
    hide HasParent, ExpandedExprs, Deterministic, Nexts, AllBarren;
    assert ByRules(s', rules, k);
    OwnIsUniquified(rules, k);
    assert Nexts(Results(k, rules(k.expr))) - Nexts(Own(rules, k)) == {};
    hide Own;
    forall x | x in s'.nodes ensures x.timeLeft <= start.timeLeft && (x == start || HasParent(s'.nodes, x)) {
      if x in s.nodes && x != start {
        ParentsStay(s.nodes, s'.nodes, x, k.timeLeft - 1);
      }
    }
    forall x | x in s'.taken ensures x in s'.nodes && (ByRules(s', rules, x) || s'.nodes[x].pruned == Some(true)) {
      if x != k && ByRules(s, rules, x) {
        ByRulesStays(s, s', rules, x, k.timeLeft - 1);
      }
    }
    forall e | e in ExpandedExprs(s'.nodes) ensures Rooted(s', rules, e) {
      if e != k.expr {
        assert Rooted(s, rules, e);
        var x :| x in s.taken && x.expr == e && ByRules(s, rules, x);
        ByRulesStays(s, s', rules, x, k.timeLeft - 1);
      }
    }
  }
}
