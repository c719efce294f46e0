/** Turning the graph of a search into episodes: paths from the start that together visit every node. */
module Episodes {
  datatype Option<T> = None | Some(value: T)

  /** A search state: an expression and the number of rewrites left. Each has at most one node. */
  datatype Key<E> = Key(expr: E, timeLeft: nat)

  datatype Transition<A, E> = Transition(action: A, next: Key<E>)

  /** The transitions of all nodes; a node that has not been expanded has none. */
  type Graph<!A, !E(==)> = map<Key<E>, seq<Transition<A, E>>>

  datatype NodeAction<A, E> = NodeAction(node: Key<E>, action: Option<A>)

  type Episode<A, E> = seq<NodeAction<A, E>>

  /** A route: the start, then the transitions taken. */
  datatype Route<A, E> = Route(start: Key<E>, steps: seq<Transition<A, E>>)

  ghost predicate WellFormed<A, E>(g: Graph<A, E>) {
    forall k, i | k in g && 0 <= i < |g[k]| :: g[k][i].next in g && g[k][i].next.timeLeft < k.timeLeft
  }

  /** The node reached after `i` steps. */
  function NodeAt<A, E>(r: Route<A, E>, i: nat): Key<E>
    requires i <= |r.steps|
  {
    if i == 0 then r.start else r.steps[i - 1].next
  }

  ghost predicate IsRoute<A, E>(g: Graph<A, E>, r: Route<A, E>) {
    && r.start in g
    && forall i | 0 <= i < |r.steps| :: NodeAt(r, i) in g && r.steps[i] in g[NodeAt(r, i)]
  }

  /** `to_episode`: every node with the action taken from it. */
  function ToEpisode<A, E>(r: Route<A, E>): Episode<A, E> {
    seq(|r.steps| + 1, i requires 0 <= i <= |r.steps| =>
      NodeAction(NodeAt(r, i), if i < |r.steps| then Some(r.steps[i].action) else None))
  }

  /** An episode is a path in the graph from `start`; only its last node has no action. */
  ghost predicate IsEpisode<A, E>(g: Graph<A, E>, start: Key<E>, e: Episode<A, E>) {
    && |e| > 0 && e[0].node == start && e[|e| - 1].action == None
    && (forall i | 0 <= i < |e| :: e[i].node in g)
    && (forall i | 0 <= i < |e| - 1 ::
      e[i].action.Some? && Transition(e[i].action.value, e[i + 1].node) in g[e[i].node])
  }

  lemma {:induction false} RouteIsEpisode<A, E>(g: Graph<A, E>, r: Route<A, E>)
    requires WellFormed(g) && IsRoute(g, r)
    ensures IsEpisode(g, r.start, ToEpisode(r))
  {
    var e := ToEpisode(r);
    forall i | 0 <= i < |e| ensures e[i].node in g {
      if i > 0 {
        var k := NodeAt(r, i - 1);
        var j :| 0 <= j < |g[k]| && g[k][j] == r.steps[i - 1];
      }
    }
    forall i | 0 <= i < |e| - 1
      ensures e[i].action.Some? && Transition(e[i].action.value, e[i + 1].node) in g[e[i].node] {
      assert r.steps[i] in g[NodeAt(r, i)];
      assert e[i + 1].node == r.steps[i].next;
    }
  }

  ghost predicate OnEpisode<A, E>(e: Episode<A, E>, k: Key<E>) {
    exists i :: 0 <= i < |e| && e[i].node == k
  }

  ghost predicate Visited<A, E>(es: seq<Episode<A, E>>, k: Key<E>) {
    exists i :: 0 <= i < |es| && OnEpisode(es[i], k)
  }

  /** Reachable along transitions. */
  ghost predicate Reachable<A(!new), E(!new)>(g: Graph<A, E>, a: Key<E>, b: Key<E>)
    decreases a.timeLeft
  {
    a == b || (a in g && exists t :: t in g[a] && t.next.timeLeft < a.timeLeft && Reachable(g, t.next, b))
  }

  /** `nodes` contains the successors of all its members outside `before`. */
  ghost predicate ClosedBeyond<A, E>(g: Graph<A, E>, before: set<Key<E>>, nodes: set<Key<E>>) {
    forall k, t | k in nodes - before && k in g && t in g[k] :: t.next in nodes
  }

  /** What a call returns: episodes, all from the start and all through the route, that visit all it adds to `seen`. */
  ghost predicate Covers<A, E>(g: Graph<A, E>, r: Route<A, E>, before: set<Key<E>>, after: set<Key<E>>,
      es: seq<Episode<A, E>>) {
    && before <= after
    && (forall i | 0 <= i < |es| :: IsEpisode(g, r.start, es[i]))
    && (forall i, j | 0 <= i < |es| && 0 <= j <= |r.steps| :: OnEpisode(es[i], NodeAt(r, j)))
    && (forall k | k in after - before :: Visited(es, k))
  }

  /** The episode begins with the nodes of the route, and those from position `n` on are new. */
  ghost predicate Extends<A, E>(e: Episode<A, E>, r: Route<A, E>, n: nat, before: set<Key<E>>, after: set<Key<E>>) {
    && |e| > n && |e| > |r.steps|
    && (forall j | 0 <= j <= |r.steps| :: e[j].node == NodeAt(r, j))
    && (forall j | n <= j < |e| :: e[j].node in after - before)
  }

  /** No other episode visits the node at which an episode ends. */
  ghost predicate EndsAlone<A, E>(es: seq<Episode<A, E>>) {
    forall i, j | 0 <= i < |es| && 0 <= j < |es| && i != j :: es[i] != [] && !OnEpisode(es[j], es[i][|es[i]| - 1].node)
  }

  ghost predicate Apart<A, E>(r: Route<A, E>, n: nat, before: set<Key<E>>, after: set<Key<E>>, es: seq<Episode<A, E>>) {
    && before <= after && (forall i | 0 <= i < |es| :: Extends(es[i], r, n, before, after)) && EndsAlone(es)
  }

  /** The nodes of the route before its last one have been seen. */
  ghost predicate Traversed<A, E>(r: Route<A, E>, seen: set<Key<E>>) {
    forall j | 0 <= j < |r.steps| :: NodeAt(r, j) in seen
  }

  datatype Found<A, E(==)> = Found(episodes: seq<Episode<A, E>>, seen: set<Key<E>>)

  /** Depth first: a node that has been seen gives nothing, another one what its transitions give in their order, and
      only if that is nothing the route to it. */
  ghost function Converted<A, E>(g: Graph<A, E>, node: Key<E>, route: Route<A, E>, seen: set<Key<E>>): Found<A, E>
    requires WellFormed(g) && node in g
    decreases node.timeLeft, 1, 0
  {
    if node in seen then Found([], seen)
    else
      var below := ConvertedFirst(g, node, route, |g[node]|, seen + {node});
      if below.episodes == [] then Found([ToEpisode(route)], below.seen) else below
  }

  /** The first `n` transitions of a node. */
  ghost function ConvertedFirst<A, E>(g: Graph<A, E>, node: Key<E>, route: Route<A, E>, n: nat, seen: set<Key<E>>)
      : Found<A, E>
    requires WellFormed(g) && node in g && n <= |g[node]|
    decreases node.timeLeft, 0, n
  {
    if n == 0 then Found([], seen)
    else
      var earlier, t := ConvertedFirst(g, node, route, n - 1, seen), g[node][n - 1];
      var more := Converted(g, t.next, Route(route.start, route.steps + [t]), earlier.seen);
      Found(earlier.episodes + more.episodes, more.seen)
  }

  class Converter<A(==, !new), E(==, !new)> {
    const graph: Graph<A, E>
    var seen: set<Key<E>>

    constructor (graph: Graph<A, E>)
      ensures this.graph == graph && seen == {}
    {
      this.graph := graph;
      seen := {};
    }

    /** `_convert_to_episodes`. Recursion ends because time runs out along transitions. */
    method Convert(node: Key<E>, route: Route<A, E>) returns (episodes: seq<Episode<A, E>>)
      requires WellFormed(graph) && IsRoute(graph, route) && node in graph && NodeAt(route, |route.steps|) == node
      modifies this
      ensures Found(episodes, seen) == Converted(graph, node, route, old(seen))
      ensures Covers(graph, route, old(seen), seen, episodes)
      ensures node in seen && ClosedBeyond(graph, old(seen), seen)
      ensures node in old(seen) ==> seen == old(seen) && episodes == []
      ensures Traversed(route, old(seen)) ==> Apart(route, |route.steps|, old(seen), seen, episodes)
      decreases node.timeLeft
    {
      hide IsEpisode, OnEpisode, ToEpisode, IsRoute, Covers, Apart, ClosedBeyond, Traversed;
      ConvertedCovers(graph, node, route, seen);
      if Traversed(route, seen) {
        ConvertedApart(graph, node, route, seen);
      }
      if node in seen {
        return [];
      }
      seen := seen + {node};
      episodes := [];
      for i := 0 to |graph[node]|
        invariant Found(episodes, seen) == ConvertedFirst(graph, node, route, i, old(seen) + {node})
      {
        var t := graph[node][i];
        RouteStep(graph, route, t);
        var more := Convert(t.next, Route(route.start, route.steps + [t]));
        episodes := episodes + more;
      }
      if |episodes| == 0 {
        episodes := [ToEpisode(route)];
      }
    }

    /** The episodes of a whole search: real paths from the start, visiting every node that can be reached, none of
        them ending on another one. */
    method ToEpisodes(start: Key<E>) returns (episodes: seq<Episode<A, E>>)
      requires WellFormed(graph) && start in graph && seen == {}
      modifies this
      ensures episodes == Converted(graph, start, Route(start, []), {}).episodes
      ensures forall i | 0 <= i < |episodes| :: IsEpisode(graph, start, episodes[i])
      ensures forall k | Reachable(graph, start, k) :: Visited(episodes, k)
      ensures EndsAlone(episodes)
    {
      hide IsEpisode, OnEpisode, Reachable, EndsAlone, Converted;
      episodes := Convert(start, Route(start, []));
      forall k | Reachable(graph, start, k) ensures Visited(episodes, k) {
        ReachableIsSeen(graph, start, k, seen);
      }
    }
  }

  /** Real episodes through the route that visit every node that is new, and nothing new is left out. */
  lemma {:induction false} ConvertedCovers<A, E>(g: Graph<A, E>, node: Key<E>, r: Route<A, E>, seen: set<Key<E>>)
    requires WellFormed(g) && IsRoute(g, r) && node in g && NodeAt(r, |r.steps|) == node
    ensures var found := Converted(g, node, r, seen);
      Covers(g, r, seen, found.seen, found.episodes) && node in found.seen && ClosedBeyond(g, seen, found.seen)
    decreases node.timeLeft, 1, 0
  {
    hide IsEpisode, OnEpisode, ToEpisode, IsRoute;
    if node !in seen {
      var below := ConvertedFirst(g, node, r, |g[node]|, seen + {node});
      FirstCovers(g, node, r, |g[node]|, seen + {node});
      if below.episodes == [] {
        RouteIsEpisode(g, r);
        RouteCovers(g, r, seen, below.seen, node);
      } else {
        EpisodesCover(g, r, seen, below.seen, below.episodes, node);
      }
    }
  }

  lemma {:induction false} FirstCovers<A, E>(g: Graph<A, E>, node: Key<E>, r: Route<A, E>, n: nat, seen: set<Key<E>>)
    requires WellFormed(g) && IsRoute(g, r) && node in g && NodeAt(r, |r.steps|) == node && n <= |g[node]|
    ensures var found := ConvertedFirst(g, node, r, n, seen);
      && Covers(g, r, seen, found.seen, found.episodes) && ClosedBeyond(g, seen, found.seen)
      && forall j | 0 <= j < n :: g[node][j].next in found.seen
    decreases node.timeLeft, 0, n
  {
    hide IsEpisode, OnEpisode, ToEpisode, IsRoute;
    if n > 0 {
      var earlier, t := ConvertedFirst(g, node, r, n - 1, seen), g[node][n - 1];
      var r' := Route(r.start, r.steps + [t]);
      var more := Converted(g, t.next, r', earlier.seen);
      RouteStep(g, r, t);
      FirstCovers(g, node, r, n - 1, seen);
      ConvertedCovers(g, t.next, r', earlier.seen);
      CoversMore(g, r, t, seen, earlier.seen, more.seen, earlier.episodes, more.episodes);
    }
  }

  /** No episode visits the node at which another one ends, so none is a prefix of another or occurs twice. */
  lemma {:induction false} ConvertedApart<A, E>(g: Graph<A, E>, node: Key<E>, r: Route<A, E>, seen: set<Key<E>>)
    requires WellFormed(g) && node in g && NodeAt(r, |r.steps|) == node && Traversed(r, seen)
    ensures var found := Converted(g, node, r, seen); Apart(r, |r.steps|, seen, found.seen, found.episodes)
    decreases node.timeLeft, 1, 0
  {
    hide OnEpisode;
    if node !in seen {
      var below := ConvertedFirst(g, node, r, |g[node]|, seen + {node});
      FirstApart(g, node, r, |g[node]|, seen + {node});
    }
  }

  lemma {:induction false} FirstApart<A, E>(g: Graph<A, E>, node: Key<E>, r: Route<A, E>, n: nat, seen: set<Key<E>>)
    requires WellFormed(g) && node in g && NodeAt(r, |r.steps|) == node && n <= |g[node]|
    requires Traversed(r, seen) && node in seen
    ensures var found := ConvertedFirst(g, node, r, n, seen); Apart(r, |r.steps| + 1, seen, found.seen, found.episodes)
    decreases node.timeLeft, 0, n
  {
    hide OnEpisode;
    if n > 0 {
      var earlier, t := ConvertedFirst(g, node, r, n - 1, seen), g[node][n - 1];
      var r' := Route(r.start, r.steps + [t]);
      var more := Converted(g, t.next, r', earlier.seen);
      FirstApart(g, node, r, n - 1, seen);
      assert Traversed(r', earlier.seen) by {
        forall j | 0 <= j < |r'.steps| ensures NodeAt(r', j) in earlier.seen {
          assert NodeAt(r', j) == NodeAt(r, j);
        }
      }
      ConvertedApart(g, t.next, r', earlier.seen);
      ApartMore(r, t, seen, earlier.seen, more.seen, earlier.episodes, more.episodes);
    }
  }

  lemma {:induction false} NotVisited<A, E>(r: Route<A, E>, e: Episode<A, E>, f: Episode<A, E>, before: set<Key<E>>,
      middle: set<Key<E>>, after: set<Key<E>>)
    requires before <= middle <= after && Traversed(r, before) && NodeAt(r, |r.steps|) in before
    requires Extends(e, r, |r.steps| + 1, before, middle) && Extends(f, r, |r.steps| + 1, middle, after)
    ensures !OnEpisode(f, e[|e| - 1].node) && !OnEpisode(e, f[|f| - 1].node)
  {
    forall j | 0 <= j < |f| ensures f[j].node in before || f[j].node !in middle {
      assert j <= |r.steps| ==> f[j].node == NodeAt(r, j);
    }
    forall j | 0 <= j < |e| ensures e[j].node in middle {
      assert j <= |r.steps| ==> e[j].node == NodeAt(r, j);
    }
  }

  lemma {:induction false} ApartMore<A, E>(r: Route<A, E>, t: Transition<A, E>, before: set<Key<E>>,
      middle: set<Key<E>>, after: set<Key<E>>, es: seq<Episode<A, E>>, more: seq<Episode<A, E>>)
    requires Apart(r, |r.steps| + 1, before, middle, es)
    requires Apart(Route(r.start, r.steps + [t]), |r.steps| + 1, middle, after, more)
    requires Traversed(r, before) && NodeAt(r, |r.steps|) in before
    ensures Apart(r, |r.steps| + 1, before, after, es + more)
  {
    var r' := Route(r.start, r.steps + [t]);
    var n := |r.steps| + 1;
    forall i | 0 <= i < |more| ensures Extends(more[i], r, n, before, after) {
      var e := more[i];
      assert Extends(e, r', n, middle, after);
      forall j | 0 <= j <= |r.steps| ensures e[j].node == NodeAt(r, j) {
        assert NodeAt(r', j) == NodeAt(r, j);
      }
    }
    forall i, j | 0 <= i < |es + more| && 0 <= j < |es + more| && i != j
      ensures (es + more)[i] != [] && !OnEpisode((es + more)[j], (es + more)[i][|(es + more)[i]| - 1].node) {
      if i < |es| <= j {
        NotVisited(r, es[i], more[j - |es|], before, middle, after);
      } else if j < |es| <= i {
        NotVisited(r, es[j], more[i - |es|], before, middle, after);
      }
    }
  }

  lemma {:induction false} ReachableIsSeen<A(!new), E(!new)>(g: Graph<A, E>, a: Key<E>, b: Key<E>, seen: set<Key<E>>)
    requires a in seen && ClosedBeyond(g, {}, seen) && Reachable(g, a, b)
    ensures b in seen
    decreases a.timeLeft
  {
    if a != b {
      var t :| t in g[a] && t.next.timeLeft < a.timeLeft && Reachable(g, t.next, b);
      assert a in seen - {};
      ReachableIsSeen(g, t.next, b, seen);
    }
  }

  lemma {:induction false} CoversMore<A, E>(g: Graph<A, E>, r: Route<A, E>, t: Transition<A, E>, before: set<Key<E>>,
      middle: set<Key<E>>, after: set<Key<E>>, es: seq<Episode<A, E>>, more: seq<Episode<A, E>>)
    requires Covers(g, r, before, middle, es) && Covers(g, Route(r.start, r.steps + [t]), middle, after, more)
    ensures Covers(g, r, before, after, es + more)
  {
    hide IsEpisode, OnEpisode;
    var all := es + more;
    forall i, j | 0 <= i < |all| && 0 <= j <= |r.steps| ensures OnEpisode(all[i], NodeAt(r, j)) {
      if i >= |es| {
        assert NodeAt(Route(r.start, r.steps + [t]), j) == NodeAt(r, j);
        assert all[i] == more[i - |es|];
      }
    }
    forall k | k in after - before ensures Visited(all, k) {
      if k in middle {
        assert k in middle - before && Visited(es, k);
        var i :| 0 <= i < |es| && OnEpisode(es[i], k);
        assert all[i] == es[i];
      } else {
        assert k in after - middle && Visited(more, k);
        var i :| 0 <= i < |more| && OnEpisode(more[i], k);
        assert all[|es| + i] == more[i];
      }
    }
  }

  /** If nothing new was found below, the route itself is the only episode. */
  lemma {:induction false} RouteCovers<A, E>(g: Graph<A, E>, r: Route<A, E>, before: set<Key<E>>, after: set<Key<E>>,
      node: Key<E>)
    requires IsEpisode(g, r.start, ToEpisode(r)) && Covers(g, r, before + {node}, after, [])
    requires NodeAt(r, |r.steps|) == node
    ensures Covers(g, r, before, after, [ToEpisode(r)])
  {
    hide IsEpisode;
    var es := [ToEpisode(r)];
    forall j | 0 <= j <= |r.steps| ensures OnEpisode(es[0], NodeAt(r, j)) {
      assert es[0][j].node == NodeAt(r, j);
    }
    forall k | k in after - before ensures Visited(es, k) {
      assert k in after - (before + {node}) ==> Visited<A, E>([], k);
      assert OnEpisode(es[0], NodeAt(r, |r.steps|));
    }
  }

  lemma {:induction false} EpisodesCover<A, E>(g: Graph<A, E>, r: Route<A, E>, before: set<Key<E>>, after: set<Key<E>>,
      es: seq<Episode<A, E>>, node: Key<E>)
    requires Covers(g, r, before + {node}, after, es) && |es| > 0 && NodeAt(r, |r.steps|) == node
    ensures Covers(g, r, before, after, es)
  {
    hide IsEpisode, OnEpisode;
    assert OnEpisode(es[0], NodeAt(r, |r.steps|));
  }

  lemma {:induction false} RouteStep<A, E>(g: Graph<A, E>, r: Route<A, E>, t: Transition<A, E>)
    requires IsRoute(g, r) && NodeAt(r, |r.steps|) in g && t in g[NodeAt(r, |r.steps|)]
    ensures IsRoute(g, Route(r.start, r.steps + [t]))
  {
    var r' := Route(r.start, r.steps + [t]);
    forall i | 0 <= i < |r'.steps| ensures NodeAt(r', i) in g && r'.steps[i] in g[NodeAt(r', i)] {
      assert NodeAt(r', i) == NodeAt(r, i);
    }
  }

  // ---------------------------------------------------------------- an example

  /** Two ways lead to D, of which the first is taken. */
  ghost function DagExample(): Graph<nat, char> {
    map[Key('A', 3) := [Transition(1, Key('B', 2)), Transition(2, Key('C', 2))],
        Key('B', 2) := [Transition(3, Key('C', 1)), Transition(4, Key('D', 1))],
        Key('C', 2) := [Transition(5, Key('D', 1)), Transition(6, Key('E', 1))],
        Key('E', 1) := [Transition(7, Key('F', 0))],
        Key('C', 1) := [], Key('D', 1) := [], Key('F', 0) := []]
  }

  lemma {:induction false} LeafGivesRoute<A, E>(g: Graph<A, E>, node: Key<E>, r: Route<A, E>, seen: set<Key<E>>)
    requires WellFormed(g) && node in g && g[node] == [] && node !in seen
    ensures Converted(g, node, r, seen) == Found([ToEpisode(r)], seen + {node})
  {}

  lemma {:induction false} InnerGivesBoth<A, E>(g: Graph<A, E>, node: Key<E>, r: Route<A, E>, seen: set<Key<E>>)
    requires WellFormed(g) && node in g && |g[node]| == 2 && node !in seen
    ensures var t, u := g[node][0], g[node][1];
      var first := Converted(g, t.next, Route(r.start, r.steps + [t]), seen + {node});
      var second := Converted(g, u.next, Route(r.start, r.steps + [u]), first.seen);
      first.episodes != [] || second.episodes != [] ==>
        Converted(g, node, r, seen) == Found(first.episodes + second.episodes, second.seen)
  {
    hide ToEpisode;
    assert ConvertedFirst(g, node, r, 0, seen + {node}).episodes == [];
    var first := ConvertedFirst(g, node, r, 1, seen + {node});
    var second := ConvertedFirst(g, node, r, 2, seen + {node});
  }

  lemma {:induction false} ChainGivesBelow<A, E>(g: Graph<A, E>, node: Key<E>, r: Route<A, E>, seen: set<Key<E>>)
    requires WellFormed(g) && node in g && |g[node]| == 1 && node !in seen
    ensures var t := g[node][0];
      var below := Converted(g, t.next, Route(r.start, r.steps + [t]), seen + {node});
      below.episodes != [] ==> Converted(g, node, r, seen) == below
  {
    hide ToEpisode;
    assert ConvertedFirst(g, node, r, 0, seen + {node}).episodes == [];
    var only := ConvertedFirst(g, node, r, 1, seen + {node});
  }

  lemma {:induction false} ExampleGraph()
    ensures var g := DagExample();
      && WellFormed(g) && g.Keys >= {Key('A', 3), Key('B', 2), Key('C', 2), Key('C', 1), Key('D', 1), Key('E', 1),
        Key('F', 0)}
      && g[Key('A', 3)] == [Transition(1, Key('B', 2)), Transition(2, Key('C', 2))]
      && g[Key('B', 2)] == [Transition(3, Key('C', 1)), Transition(4, Key('D', 1))]
      && g[Key('C', 2)] == [Transition(5, Key('D', 1)), Transition(6, Key('E', 1))]
      && g[Key('E', 1)] == [Transition(7, Key('F', 0))]
      && g[Key('C', 1)] == g[Key('D', 1)] == g[Key('F', 0)] == []
  {}

  lemma {:induction false} ExampleLeft(seen: set<Key<char>>)
    requires Key('B', 2) !in seen && Key('C', 1) !in seen && Key('D', 1) !in seen
    ensures WellFormed(DagExample()) && Key('B', 2) in DagExample()
    ensures Converted(DagExample(), Key('B', 2), Route(Key('A', 3), [Transition(1, Key('B', 2))]), seen) == Found([
      [NodeAction(Key('A', 3), Some(1)), NodeAction(Key('B', 2), Some(3)), NodeAction(Key('C', 1), None)],
      [NodeAction(Key('A', 3), Some(1)), NodeAction(Key('B', 2), Some(4)), NodeAction(Key('D', 1), None)]],
      seen + {Key('B', 2)} + {Key('C', 1)} + {Key('D', 1)})
  {
    ExampleGraph();
    hide DagExample, WellFormed, Converted, ToEpisode;
    var g, a, b, c, d := DagExample(), Key('A', 3), Key('B', 2), Key('C', 1), Key('D', 1);
    var toB, toC, toD := Transition(1, b), Transition(3, c), Transition(4, d);
    var r, q := Route(a, [toB] + [toC]), Route(a, [toB] + [toD]);
    RouteOfTwo(a, toB, toC);
    RouteOfTwo(a, toB, toD);
    LeafGivesRoute(g, c, r, seen + {b});
    assert Converted(g, c, r, seen + {b}).seen == seen + {b} + {c};
    LeafGivesRoute(g, d, q, seen + {b} + {c});
    assert [ToEpisode(r)] + [ToEpisode(q)] == [ToEpisode(r), ToEpisode(q)];
    InnerGivesBoth(g, b, Route(a, [toB]), seen);
  }

  lemma {:induction false} ExampleRight(seen: set<Key<char>>)
    requires Key('C', 2) !in seen && Key('D', 1) in seen && Key('E', 1) !in seen && Key('F', 0) !in seen
    ensures WellFormed(DagExample()) && Key('C', 2) in DagExample()
    ensures Converted(DagExample(), Key('C', 2), Route(Key('A', 3), [Transition(2, Key('C', 2))]), seen).episodes == [
      [NodeAction(Key('A', 3), Some(2)), NodeAction(Key('C', 2), Some(6)), NodeAction(Key('E', 1), Some(7)),
        NodeAction(Key('F', 0), None)]]
  {
    ExampleGraph();
    hide DagExample, WellFormed, Converted, ToEpisode;
    var g, a, c, d, e, f := DagExample(), Key('A', 3), Key('C', 2), Key('D', 1), Key('E', 1), Key('F', 0);
    var toC, toD, toE, toF := Transition(2, c), Transition(5, d), Transition(6, e), Transition(7, f);
    var r := Route(a, [toC] + [toE] + [toF]);
    RouteOfThree(a, toC, toE, toF);
    LeafGivesRoute(g, f, r, seen + {c} + {e});
    assert Converted(g, f, r, seen + {c} + {e}).episodes == [ToEpisode(r)];
    ChainGivesBelow(g, e, Route(a, [toC] + [toE]), seen + {c});
    SeenGivesNothing(g, d, Route(a, [toC] + [toD]), seen + {c});
    InnerGivesBoth(g, c, Route(a, [toC]), seen);
    assert [] + [ToEpisode(r)] == [ToEpisode(r)];
  }

  /** Three episodes: none ends at an inner node, and D is visited by the first way only. */
  lemma {:induction false} ExampleEpisodes()
    ensures WellFormed(DagExample()) && Key('A', 3) in DagExample()
    ensures Converted(DagExample(), Key('A', 3), Route(Key('A', 3), []), {}).episodes == [
      [NodeAction(Key('A', 3), Some(1)), NodeAction(Key('B', 2), Some(3)), NodeAction(Key('C', 1), None)],
      [NodeAction(Key('A', 3), Some(1)), NodeAction(Key('B', 2), Some(4)), NodeAction(Key('D', 1), None)],
      [NodeAction(Key('A', 3), Some(2)), NodeAction(Key('C', 2), Some(6)), NodeAction(Key('E', 1), Some(7)),
        NodeAction(Key('F', 0), None)]]
  {
    ExampleGraph();
    hide DagExample, WellFormed, Converted;
    var g, a := DagExample(), Key('A', 3);
    ExampleLeft({a});
    ExampleRight({a} + {Key('B', 2)} + {Key('C', 1)} + {Key('D', 1)});
    assert [] + [g[a][0]] == [g[a][0]] && [] + [g[a][1]] == [g[a][1]] && {} + {a} == {a};
    InnerGivesBoth(g, a, Route(a, []), {});
  }

  lemma {:induction false} SeenGivesNothing<A, E>(g: Graph<A, E>, node: Key<E>, r: Route<A, E>, seen: set<Key<E>>)
    requires WellFormed(g) && node in g && node in seen
    ensures Converted(g, node, r, seen) == Found([], seen)
  {}

  lemma {:induction false} RouteOfTwo<A, E>(k: Key<E>, t: Transition<A, E>, u: Transition<A, E>)
    ensures ToEpisode(Route(k, [t] + [u])) ==
      [NodeAction(k, Some(t.action)), NodeAction(t.next, Some(u.action)), NodeAction(u.next, None)]
  {}

  lemma {:induction false} RouteOfThree<A, E>(k: Key<E>, t: Transition<A, E>, u: Transition<A, E>, v: Transition<A, E>)
    ensures ToEpisode(Route(k, [t] + [u] + [v])) ==
      [NodeAction(k, Some(t.action)), NodeAction(t.next, Some(u.action)), NodeAction(u.next, Some(v.action)),
        NodeAction(v.next, None)]
  {}
}
