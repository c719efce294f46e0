/** A search that misses an expression within reach: one on the way is expanded when no time is left, and keeps
    having no transitions when it is met again with time left. */
module LateExpansion {
  import opened Episodes
  import opened SearchCache
  import opened SearchCompleteness

  const S: nat := 0
  const A: nat := 1
  const B: nat := 2
  const C: nat := 3
  const X: nat := 4
  const Y: nat := 5

  /** From S by way of A and B, or by way of C, to X, and on to Y. */
  function Rules(e: nat): seq<(nat, nat)> {
    if e == S then [(0, A), (1, C)]
    else if e == A then [(0, B)]
    else if e == B || e == C then [(0, X)]
    else if e == X then [(0, Y)]
    else []
  }

  type Cache = EarliestEnqueuingCache<nat, nat>

  /** What the cache holds, apart from transitions. */
  ghost predicate Holds(cache: Cache, keys: set<Key<nat>>, evaluated: set<nat>, taken: set<Key<nat>>)
    reads cache
  {
    cache.Valid() && cache.nodes.Keys == keys && cache.evaluated == evaluated && cache.taken == taken
  }

  /** Expressions are met as nodes; what has not been evaluated waits. */
  lemma {:induction false} Met(s: Snapshot<nat, nat>)
    requires Good(s, {})
    ensures forall k | k in s.nodes :: k.expr in s.greatest && k.timeLeft <= s.greatest[k.expr]
    ensures forall k | k in s.nodes :: s.nodes[k].pruned == Some(k.timeLeft < s.greatest[k.expr])
    ensures forall e | e in s.greatest :: Key(e, s.greatest[e]) in s.nodes
    ensures s.evaluated <= s.greatest.Keys && s.waiting == s.greatest.Keys - s.evaluated && forall k |
      k in s.enqueued :: k in s.nodes
    ensures forall k | k in s.nodes && s.nodes[k].transitions.Some? && k in s.enqueued :: k in s.taken
  {
    hide Children, HandedOver, Queued;
  }

  lemma {:induction false} MetExprs(s: Snapshot<nat, nat>)
    requires Good(s, {})
    ensures s.greatest.Keys == Exprs(s.nodes.Keys)
  {
    hide Good;
    Met(s);
    forall e | e in s.greatest ensures e in Exprs(s.nodes.Keys) {
      assert Key(e, s.greatest[e]) in s.nodes;
    }
  }

  function Exprs(keys: set<Key<nat>>): set<nat> {
    set k | k in keys :: k.expr
  }

  lemma {:induction false} OnlyNodesWait(s: Snapshot<nat, nat>)
    requires Good(s, {})
    requires forall x, y | x in s.nodes && y in s.nodes && x.expr == y.expr && x.expr !in s.evaluated :: x == y
    ensures s.evaluated + s.waiting == Exprs(s.nodes.Keys) && (s.waiting == {} ==> s.evaluated == Exprs(s.nodes.Keys))
    ensures forall k | k in s.nodes && k.expr !in s.evaluated ::
      k.expr in s.waiting && k.expr in s.greatest && Key(k.expr, s.greatest[k.expr]) == k
  {
    hide Good, Exprs;
    Met(s);
    MetExprs(s);
    forall k | k in s.nodes && k.expr !in s.evaluated
      ensures k.expr in s.waiting && k.expr in s.greatest && Key(k.expr, s.greatest[k.expr]) == k
    {
      assert Key(k.expr, s.greatest[k.expr]) in s.nodes;
    }
  }

  /** In batches of one, what waits is evaluated, and the nodes enqueued if they are the only ones of their
      expressions. */
  method Evaluate(cache: Cache, ghost keys: set<Key<nat>>, ghost evaluated: set<nat>, ghost taken: set<Key<nat>>)
    requires Holds(cache, keys, evaluated, taken)
    requires forall x, y | x in keys && y in keys && x.expr == y.expr && x.expr !in evaluated :: x == y
    modifies cache
    ensures Holds(cache, keys, Exprs(keys), taken) && cache.nodes == old(cache.nodes)
    ensures forall k | k in keys && k.expr !in evaluated :: k in cache.OpenList()
    ensures old(cache.OpenList()) <= cache.OpenList()
  {
    hide Good, Exprs;
    ghost var s := cache.State();
    OnlyNodesWait(s);
    if |cache.waiting| >= 1 {
      cache.ProcessBatches();
      assert forall x | x in old(cache.OpenList()) :: x in cache.enqueued && x !in cache.taken;
    }
  }

  /** A node with the only or the latest node of its expression is expanded; if no result has children, the results
      are all that is new. */
  method Visit(cache: Cache, k: Key<nat>, ghost keys: set<Key<nat>>, ghost evaluated: set<nat>,
      ghost taken: set<Key<nat>>)
    requires Holds(cache, keys, evaluated, taken) && k in cache.OpenList()
    requires forall x | x in keys && x.expr == k.expr :: x.timeLeft <= k.timeLeft
    requires AllBarren(cache.nodes, Rules(k.expr))
    modifies cache
    ensures Holds(cache, keys + Nexts(Results(k, Rules(k.expr))), evaluated, taken + {k})
    ensures old(cache.OpenList()) - {k} <= cache.OpenList()
    ensures ByRules(cache.State(), Rules, k) && Later(old(cache.nodes), cache.nodes, k.timeLeft - 1)
  {
    hide Good, AllBarren, ExpandedExprs, Nexts, Parented;
    Met(cache.State());
    ghost var open := cache.OpenList();
    cache.Visit(k, Rules(k.expr));
    assert forall x | x in open && x != k :: x in cache.enqueued && x !in cache.taken;
  }

  lemma {:induction false} WayToY()
    ensures Reaches(Rules, S, Y, 3)
  {
    assert Reaches(Rules, Y, Y, 0);
    assert Rules(X)[0].1 == Y && Reaches(Rules, X, Y, 1);
    assert Rules(C)[0].1 == X && Reaches(Rules, C, Y, 2);
    assert Rules(S)[1].1 == C;
  }

  /** Expressions of which there is no node may be met. */
  lemma {:induction false} NewAreBarren(ns: Nodes<nat, nat>, rewrites: seq<(nat, nat)>)
    requires forall i, k | 0 <= i < |rewrites| && k in ns && k.expr == rewrites[i].1 :: Unfruitful(ns[k])
    ensures AllBarren(ns, rewrites)
  {}

  // ---------------------------------------------------------------- the run: S, A, B, X without time left, then C

  /** The node that turn `n` takes off the open list. */
  function Taken(n: nat): Key<nat> {
    if n == 1 then Key(S, 3) else if n == 2 then Key(A, 2) else if n == 3 then Key(B, 1) else if n == 4 then Key(X, 0)
    else Key(C, 2)
  }

  /** The nodes that are new after turn `n`. */
  function New(n: nat): set<Key<nat>> {
    if n == 0 then {Key(S, 3)} else if n == 1 then {Key(A, 2), Key(C, 2)} else if n == 2 then {Key(B, 1)}
    else if n == 3 then {Key(X, 0)} else if n == 4 then {} else {Key(X, 1)}
  }

  function Keys(n: nat): set<Key<nat>> {
    if n == 0 then New(0) else Keys(n - 1) + New(n)
  }

  function TakenUpTo(n: nat): set<Key<nat>> {
    if n == 0 then {} else TakenUpTo(n - 1) + {Taken(n)}
  }

  /** What is evaluated after turn `n`: all that had been met before it. */
  function Evaluated(n: nat): set<nat> {
    if n == 0 then {} else Exprs(Keys(n - 1))
  }

  lemma {:induction false} KeysAre()
    ensures Keys(0) == {Key(S, 3)} && Keys(1) == {Key(S, 3), Key(A, 2), Key(C, 2)}
    ensures Keys(2) == {Key(S, 3), Key(A, 2), Key(C, 2), Key(B, 1)}
    ensures Keys(3) == {Key(S, 3), Key(A, 2), Key(C, 2), Key(B, 1), Key(X, 0)} == Keys(4)
    ensures Keys(5) == {Key(S, 3), Key(A, 2), Key(C, 2), Key(B, 1), Key(X, 0), Key(X, 1)}
  {
    assert Keys(1) == Keys(0) + New(1);
    assert Keys(2) == Keys(1) + New(2);
    assert Keys(3) == Keys(2) + New(3);
    assert Keys(4) == Keys(3) + New(4);
    assert Keys(5) == Keys(4) + New(5);
  }

  lemma {:induction false} NewAreResults(n: nat)
    requires 1 <= n <= 5
    ensures Nexts(Results(Taken(n), Rules(Taken(n).expr))) == New(n)
  {
    var ts := Results(Taken(n), Rules(Taken(n).expr));
    if n == 1 {
      assert ts == [Transition(0, Key(A, 2)), Transition(1, Key(C, 2))];
      assert ts[0].next in Nexts(ts) && ts[1].next in Nexts(ts);
    } else if n != 4 {
      assert |ts| == 1 && ts[0].next in Nexts(ts) && ts[0].next in New(n);
    }
  }

  /** Before turn 5 every expression has one node. */
  lemma {:induction false} OneNodeEach(n: nat)
    requires n <= 4
    ensures forall x, y | x in Keys(n) && y in Keys(n) && x.expr == y.expr :: x == y
  {
    KeysAre();
    hide Keys;
  }

  /** The node that a turn takes, and what its rewrites lead to. */
  lemma {:induction false} TakenIs(n: nat)
    requires 1 <= n <= 5
    ensures Taken(n) in Keys(n - 1) && (n == 2 ==> Key(C, 2) in Keys(n - 1))
    ensures n <= 4 ==> Taken(n).expr !in Evaluated(n - 1)
    ensures n == 2 ==> C !in Evaluated(n - 1)
    ensures forall i, k | 0 <= i < |Rules(Taken(n).expr)| && k in Keys(n - 1) && k.expr == Rules(Taken(n).expr)[i].1 ::
      n == 5 && k == Key(X, 0)
  {
    KeysAre();
    hide Keys;
  }

  lemma {:induction false} Unfolded(n: nat)
    requires 1 <= n
    ensures Keys(n) == Keys(n - 1) + New(n) && TakenUpTo(n) == TakenUpTo(n - 1) + {Taken(n)}
    ensures Evaluated(n) == Exprs(Keys(n - 1))
  {}

  lemma {:induction false} RulesDeterministic()
    ensures Deterministic(Rules)
  {}

  lemma {:induction false} StaysExpanded(ns: Nodes<nat, nat>, ns': Nodes<nat, nat>, k: Key<nat>, t: int)
    requires Later(ns, ns', t) && k in ns && ns[k].transitions.Some?
    ensures k in ns' && ns'[k].transitions == ns[k].transitions
  {}

  /** One turn of the search loop. */
  method Turn(cache: Cache, n: nat)
    requires 1 <= n <= 5 && Holds(cache, Keys(n - 1), Evaluated(n - 1), TakenUpTo(n - 1))
    requires n >= 3 ==> Key(C, 2) in cache.OpenList()
    requires n == 5 ==> Key(X, 0) in cache.nodes && cache.nodes[Key(X, 0)].transitions == Some([])
    modifies cache
    ensures Holds(cache, Keys(n), Evaluated(n), TakenUpTo(n))
    ensures 2 <= n <= 4 ==> Key(C, 2) in cache.OpenList()
    ensures n >= 4 ==> Key(X, 0) in cache.nodes && cache.nodes[Key(X, 0)].transitions == Some([])
  {
    hide Good, Own, AllBarren, Nexts, Keys, Exprs, Rules, New, TakenUpTo, Evaluated, Results, Later;
    OneNodeEach(n - 1);
    Unfolded(n);
    TakenIs(n);
    NewAreResults(n);
    Evaluate(cache, Keys(n - 1), Evaluated(n - 1), TakenUpTo(n - 1));
    NewAreBarren(cache.nodes, Rules(Taken(n).expr));
    RulesDeterministic();
    OwnNone(Rules, Key(X, 0));
    ghost var ns := cache.nodes;
    Visit(cache, Taken(n), Keys(n - 1), Evaluated(n), TakenUpTo(n - 1));
    if n == 5 {
      StaysExpanded(ns, cache.nodes, Key(X, 0), 1);
    }
  }

  /** The search loop with batches of one, when X without time left comes off the open list before C: nothing is left
      to do, three rewrites lead to Y, and Y has not been met. */
  method Run() returns (cache: Cache)
    ensures fresh(cache) && cache.Valid() && cache.waiting == {} && cache.OpenList() == {}
    ensures Key(S, 3) in cache.nodes && Y !in cache.greatestTimeLeft && Reaches(Rules, S, Y, 3)
    ensures Lost(cache.State(), Rules, X)
  {
    hide Good, Reaches, Keys, Exprs, TakenUpTo, Lost;
    KeysAre();
    cache := First();
    for n := 1 to 6
      invariant fresh(cache) && Holds(cache, Keys(n - 1), Evaluated(n - 1), TakenUpTo(n - 1))
      invariant n >= 3 && n <= 5 ==> Key(C, 2) in cache.OpenList()
      invariant n >= 5 ==> Key(X, 0) in cache.nodes && cache.nodes[Key(X, 0)].transitions == Some([])
    {
      Turn(cache, n);
    }
    WayToY();
    AtTheEnd(cache);
  }

  lemma {:induction false} AtTheEnd(cache: Cache)
    requires Holds(cache, Keys(5), Evaluated(5), TakenUpTo(5))
    requires Key(X, 0) in cache.nodes && cache.nodes[Key(X, 0)].transitions == Some([])
    ensures Key(S, 3) in cache.nodes && cache.waiting == {} && cache.OpenList() == {} && Y !in cache.greatestTimeLeft
    ensures Lost(cache.State(), Rules, X)
  {
    hide Good, Same, Keys, TakenUpTo, Exprs;
    var s := cache.State();
    KeysAre();
    ExprsAre();
    TakenAre();
    Met(s);
    MetExprs(s);
    SameAsOpen(s, Key(X, 0));
    assert Key(X, s.greatest[X]) in Keys(5) && s.greatest[X] == 1;
    assert s.waiting == {};
    forall k | k in s.enqueued ensures k in s.taken {
      assert k in Keys(5);
    }
  }

  lemma {:induction false} ExprsAre()
    ensures Exprs(Keys(5)) == Exprs(Keys(4)) == {S, A, B, C, X}
  {
    KeysAre();
    hide Keys;
    var keys := Keys(4);
    assert Key(S, 3) in keys && Key(A, 2) in keys && Key(C, 2) in keys && Key(B, 1) in keys && Key(X, 0) in keys;
  }

  lemma {:induction false} TakenAre()
    ensures TakenUpTo(5) == {Key(S, 3), Key(A, 2), Key(B, 1), Key(X, 0), Key(C, 2)}
  {
    assert TakenUpTo(3) == TakenUpTo(2) + {Taken(3)};
    assert TakenUpTo(2) == TakenUpTo(1) + {Taken(2)};
    assert TakenUpTo(4) == TakenUpTo(3) + {Taken(4)};
    assert TakenUpTo(5) == TakenUpTo(4) + {Taken(5)};
  }

  method First() returns (cache: Cache)
    ensures fresh(cache) && Holds(cache, Keys(0), Evaluated(0), TakenUpTo(0))
  {
    hide Good, Grown;
    cache := new EarliestEnqueuingCache();
    ghost var s := cache.State();
    var start := cache.GetNode(S, 3, {});
    GrownQueue(s, cache.State(), 3, {});
  }
}
