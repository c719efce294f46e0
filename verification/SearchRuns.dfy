/** Whole searches: nodes are evaluated in batches and expanded in any order, and the graph becomes episodes. */
module SearchRuns {
  import opened Episodes
  import opened SearchCache
  import opened SearchCompleteness

  /** All that can ever be on the open list. */
  function Box<E(==)>(es: set<E>, depth: nat): set<Key<E>> {
    set e, t: nat | e in es && t <= depth :: Key(e, t)
  }

  class AStarSearcher<A(==, !new), E(==, !new)> {
    const maxGnn: nat
    const batchSize: nat
    const depth: nat
    /** The rewrites that apply to an expression, and the result of a rewrite. */
    const allRewrites: E -> seq<A>
    const apply: (A, E) -> E

    constructor (maxGnn: nat, batchSize: nat, depth: nat, allRewrites: E -> seq<A>, apply: (A, E) -> E)
      requires maxGnn > 0
      ensures this.maxGnn == maxGnn && this.batchSize == batchSize && this.depth == depth
      ensures this.allRewrites == allRewrites && this.apply == apply
    {
      this.maxGnn, this.batchSize, this.depth := maxGnn, batchSize, depth;
      this.allRewrites, this.apply := allRewrites, apply;
    }

    /** The rewrites of an expression with their results. */
    function Rules(): E -> seq<(A, E)> {
      e => seq(|allRewrites(e)|, i requires 0 <= i < |allRewrites(e)| =>
        (allRewrites(e)[i], apply(allRewrites(e)[i], e)))
    }

    lemma {:induction false} RulesDeterministic()
      ensures Deterministic(Rules())
    {}

    /** `_search_to_tree`, for any order of urgency. The open list is never empty when a node is taken from it, no
        node is expanded twice, and the loop ends. If it ends before its evaluations are used up, every open node has
        the transitions it should have unless its expression was expanded too late to have any, and every expression
        within reach has been met exactly if those within reach of such expressions have. */
    method SearchToTree(startExpr: E) returns (start: Key<E>, cache: EarliestEnqueuingCache<A, E>)
      ensures fresh(cache) && cache.Valid() && start == Key(startExpr, depth) && start in cache.nodes
      ensures |cache.evaluated| < maxGnn ==> cache.waiting == {} && AllExpanded(cache.State())
      ensures |cache.evaluated| < maxGnn ==> OwnUnlessLost(cache.State(), Rules())
      ensures |cache.evaluated| < maxGnn ==>
        (Complete(cache.State(), Rules(), startExpr, depth) <==> CompleteBehindLost(cache.State(), Rules()))
      ensures |cache.evaluated| < maxGnn && NoneLate(Rules(), start) ==>
        Complete(cache.State(), Rules(), startExpr, depth)
    {
      hide Good, Explored, Box, Later, Deterministic, Offspring, Grown, OwnUnlessLost, CompleteBehindLost, Complete,
        NoneLate, Rules, AllExpanded;
      RulesDeterministic();
      cache := new EarliestEnqueuingCache();
      ghost var empty := cache.State();
      start := cache.GetNode(startExpr, depth, {});
      GrownQueue(empty, cache.State(), depth, {});
      ExploredFirst(empty, cache.State(), Rules(), start);
      while |cache.evaluated| < maxGnn
        invariant fresh(cache) && cache.Valid() && Explored(cache.State(), Rules(), start)
        decreases Left(cache.evaluated), |Box(cache.evaluated, depth)| - |cache.taken|
      {
        var more := Turn(cache, start);
        if !more {
          Ended(cache.State(), Rules(), start);
          break;
        }
      }
      StartIsOpen(cache.State(), Rules(), start);
    }

    /** One turn of the loop; without anything left to do it does nothing. */
    method Turn(cache: EarliestEnqueuingCache<A, E>, ghost start: Key<E>) returns (more: bool)
      requires cache.Valid() && Explored(cache.State(), Rules(), start) && start.timeLeft == depth
      requires |cache.evaluated| < maxGnn
      modifies cache
      ensures cache.Valid() && Explored(cache.State(), Rules(), start)
      ensures !more ==> cache.State() == old(cache.State()) && cache.waiting == {} && AllExpanded(cache.State())
      ensures more && Left(cache.evaluated) >= Left(old(cache.evaluated)) ==>
        cache.evaluated == old(cache.evaluated) && |old(cache.taken)| < |cache.taken| <= |Box(cache.evaluated, depth)|
    {
      hide Good, Explored, Box, AllExpanded, Later, Deterministic, Bred;
      if cache.OpenList() == {} && cache.waiting == {} {
        NothingLeft(cache, Rules(), start);
        return false;
      }
      ghost var s0 := cache.State();
      if cache.OpenList() == {} || |cache.waiting| >= batchSize {
        cache.ProcessBatches();
        BatchCounts(s0, cache.State());
        ExploredBatch(s0, cache.State(), Rules(), start);
        if e :| e in s0.waiting {
          assert Key(e, cache.greatestTimeLeft[e]) in cache.OpenList();
        } else {
          assert forall k | k in old(cache.OpenList()) :: k in cache.enqueued && k !in cache.taken;
          assert old(cache.OpenList()) <= cache.OpenList();
        }
      }
      ghost var s1 := cache.State();
      var node :| node in cache.OpenList();
      var rewrites := Rules()(node.expr);
      cache.Visit(node, rewrites);
      RulesDeterministic();
      VisitCounts(s1, cache.State(), Rules(), start, node);
      more := true;
    }

    /** `_search_impl`: a search, and its episodes. They are real paths from the start, visit all that can be
        reached, and none ends on another one. */
    method Search(startExpr: E) returns (episodes: seq<Episode<A, E>>, cache: EarliestEnqueuingCache<A, E>)
      ensures fresh(cache) && cache.Valid() && Key(startExpr, depth) in cache.nodes
      ensures forall i | 0 <= i < |episodes| :: IsEpisode(cache.SearchGraph(), Key(startExpr, depth), episodes[i])
      ensures forall k | Reachable(cache.SearchGraph(), Key(startExpr, depth), k) :: Visited(episodes, k)
      ensures EndsAlone(episodes)
    {
      hide Good, AllExpanded, IsEpisode, Reachable, Visited, WellFormed, OwnUnlessLost, CompleteBehindLost, Complete,
        NoneLate, EndsAlone, Converted;
      var start;
      start, cache := SearchToTree(startExpr);
      cache.SearchGraphWellFormed();
      var converter := new Converter(cache.SearchGraph());
      episodes := converter.ToEpisodes(start);
    }

    /** How many evaluations are left. */
    function Left(es: set<E>): nat {
      if |es| < maxGnn then maxGnn - |es| else 0
    }
  }

  /** What is known when nothing is left to do. */
  lemma {:induction false} Ended<A(!new), E(!new)>(s: Snapshot<A, E>, rules: E -> seq<(A, E)>, start: Key<E>)
    requires Good(s, {}) && Explored(s, rules, start) && Deterministic(rules) && AllExpanded(s)
    ensures OwnUnlessLost(s, rules)
    ensures Complete(s, rules, start.expr, start.timeLeft) <==> CompleteBehindLost(s, rules)
    ensures NoneLate(rules, start) ==> Complete(s, rules, start.expr, start.timeLeft)
  {
    hide Good, Explored, Deterministic, ByRules, Lost, Complete, CompleteBehindLost, NoneLate;
    forall e | e in s.greatest ensures ByRules(s, rules, Top(s, e)) <==> !Lost(s, rules, e) {
      OpenNodesOwn(s, rules, start, e);
    }
    CompleteUnlessLost(s, rules, start);
    if NoneLate(rules, start) {
      CompleteIfNoneLate(s, rules, start);
    }
  }

  lemma {:induction false} InBox<A(!new), E(!new)>(s: Snapshot<A, E>, rules: E -> seq<(A, E)>, start: Key<E>)
    requires Good(s, {}) && Explored(s, rules, start)
    ensures |s.taken| <= |Box(s.evaluated, start.timeLeft)|
  {
    hide Registered, Children, HandedOver, Queued, HasParent, ByRules, Rooted;
    Smaller(s.taken, Box(s.evaluated, start.timeLeft));
  }

  lemma {:induction false} Smaller<T>(a: set<T>, b: set<T>)
    requires a <= b
    ensures |a| <= |b|
  {
    assert b == a + (b - a);
  }

  /** A batch uses up evaluations, unless nothing waits. */
  lemma {:induction false} BatchCounts<A(!new), E(!new)>(s: Snapshot<A, E>, s': Snapshot<A, E>)
    requires Good(s, {}) && s'.evaluated == s.evaluated + s.waiting
    ensures |s'.evaluated| == |s.evaluated| + |s.waiting|
  {
    hide Registered, Children, HandedOver, Queued;
  }

  /** A visit takes one node off the open list, of those that can ever be on it. */
  lemma {:induction false} VisitCounts<A(!new), E(!new)>(s: Snapshot<A, E>, s': Snapshot<A, E>, rules: E -> seq<(A, E)>,
      start: Key<E>, k: Key<E>)
    requires Explored(s, rules, start) && Deterministic(rules) && Good(s', {}) && s'.evaluated == s.evaluated
    requires Later(s.nodes, s'.nodes, k.timeLeft - 1) && k !in s.taken && s'.taken == s.taken + {k} && k in s.nodes
    requires s.nodes[k].pruned == Some(true) ==> s'.nodes == s.nodes
    requires s.nodes[k].pruned != Some(true) ==> Bred(s.nodes, s'.nodes, k, rules(k.expr))
    ensures Explored(s', rules, start) && |s'.taken| == |s.taken| + 1 <= |Box(s'.evaluated, start.timeLeft)|
  {
    hide Good, Explored, Box, Later, Bred, Deterministic;
    if s.nodes[k].pruned == Some(true) {
      ExploredDrop(s, s', rules, start, k);
    } else {
      ExploredMore(s, s', rules, start, k);
    }
    InBox(s', rules, start);
  }

  lemma {:induction false} NothingLeft<A(!new), E(!new)>(cache: EarliestEnqueuingCache<A, E>, rules: E -> seq<(A, E)>,
      start: Key<E>)
    requires cache.Valid() && Explored(cache.State(), rules, start) && cache.waiting == {} && cache.OpenList() == {}
    ensures AllExpanded(cache.State())
  {
    hide Children, HandedOver, Listed, HasParent, Rooted;
    var s := cache.State();
    assert forall k | k in s.enqueued && k !in s.taken :: k in cache.OpenList();
    forall e | e in s.greatest ensures Top(s, e) in s.nodes && s.nodes[Top(s, e)].transitions.Some? {
      TopExists(s, e);
    }
  }
}
