/** Refining the datasets of successive generations by the best values of all generations so far. */
module DatasetRefiners {
  import opened CumSequences
  import opened Datasets

  /** The best value of `e` at `t` in any of the datasets seen. */
  ghost function Best<E>(seen: seq<Values<E>>, e: E, t: int): Option<real> {
    if seen == [] then None else ImproveBy(Max, Best(seen[..|seen| - 1], e, t), ValueAt(seen[|seen| - 1], e, t))
  }

  /** The best value is one of those seen, and none of them is greater. */
  lemma {:induction false} BestIsGreatest<E>(seen: seq<Values<E>>, e: E, t: int)
    ensures Best(seen, e, t).None? <==> forall vs | vs in seen :: ValueAt(vs, e, t).None?
    ensures Best(seen, e, t).Some? ==> exists vs :: vs in seen && ValueAt(vs, e, t) == Best(seen, e, t)
    ensures Best(seen, e, t).Some? ==>
      forall vs | vs in seen && ValueAt(vs, e, t).Some? :: ValueAt(vs, e, t).value <= Best(seen, e, t).value
  {
    hide At;
    if seen != [] {
      var init, last := seen[..|seen| - 1], seen[|seen| - 1];
      assert seen == init + [last];
      BestIsGreatest(init, e, t);
    }
  }

  ghost function SeenKeys<E>(seen: seq<Values<E>>): set<E> {
    if seen == [] then {} else SeenKeys(seen[..|seen| - 1]) + seen[|seen| - 1].Keys
  }

  ghost predicate IsBest<E(!new)>(seen: seq<Values<E>>, view: Values<E>) {
    view.Keys == SeenKeys(seen) && forall e, t {:trigger ValueAt(view, e, t)} :: ValueAt(view, e, t) == Best(seen, e, t)
  }

  /** Some value of `e` within its maximal time has got greater. */
  ghost predicate Improved<E(!new)>(a: Values<E>, b: Values<E>, maxTime: map<E, int>, e: E) {
    e in maxTime && exists t :: 0 <= t <= maxTime[e] && Rises(a, b, e, t)
  }

  class BestAcrossGenerationsRefiner<E(==, !new)> {
    const cache: StateValueDataset<E>
    /** The values of the datasets seen so far, as they came in. */
    ghost var seen: seq<Values<E>>

    ghost predicate Valid()
      reads this, cache, cache.maxValues.Values
    {
      cache.Valid() && IsBest(seen, cache.view)
    }

    constructor ()
      ensures Valid() && seen == [] && fresh(cache)
    {
      cache := new StateValueDataset<E>();
      seen := [];
    }

    /** `__call__` with the inner refiner that does nothing: the cache takes in the dataset, then every sequence of the
        dataset is replaced by that of the cache. `changed` counts the expressions that gained from it. */
    method Call(dataset: StateValueDataset?<E>) returns (r: StateValueDataset?<E>, changed: nat)
      requires Valid() && dataset != cache && (dataset != null ==> dataset.Valid())
      modifies this, cache, if dataset == null then {} else {dataset}
      ensures Valid() && r == dataset
      ensures dataset == null ==> seen == old(seen) && cache.view == old(cache.view)
      ensures dataset != null ==>
        seen == old(seen) + [old(dataset.view)] && Merged(old(cache.view), old(dataset.view), cache.view)
      ensures dataset != null ==> dataset.Valid() && dataset.maxTime == old(dataset.maxTime)
      ensures dataset != null ==> dataset.view.Keys == old(dataset.view.Keys) && forall e | e in dataset.view ::
        e in cache.view && dataset.view[e] == cache.view[e]
      ensures dataset != null ==>
        changed == |set e | e in old(dataset.view) && Improved(old(dataset.view), cache.view, dataset.maxTime, e)|
    {
      hide StateValueDataset<E>.Valid, Merged, IsBest, Improved;
      changed := 0;
      if dataset == null {
        return dataset, 0;
      }
      ghost var was := dataset.view;
      cache.MergeDataset(dataset);
      seen := seen + [was];
      StillBest(old(seen), old(cache.view), was, cache.view);
      changed := MergeWithCache(dataset, old(cache.view));
      r := dataset;
    }

    /** `_merge_with_cache`: no copy ever fails. */
    method MergeWithCache(dataset: StateValueDataset<E>, ghost before: Values<E>) returns (changed: nat)
      requires cache.Valid() && dataset.Valid() && dataset != cache && Merged(before, dataset.view, cache.view)
      modifies dataset
      ensures dataset.Valid() && dataset.maxTime == old(dataset.maxTime)
      ensures dataset.view.Keys == old(dataset.view.Keys) && forall e | e in dataset.view ::
        e in cache.view && dataset.view[e] == cache.view[e]
      ensures changed == |set e | e in old(dataset.view) && Improved(old(dataset.view), cache.view, dataset.maxTime, e)|
    {
      hide StateValueDataset<E>.Valid, Merged, Improved, Rises, Falls, Mixed, Gained;
      ghost var was := dataset.view;
      dataset.SameKeys();
      var rest := dataset.maxValues.Keys;
      ghost var done: set<E> := {};
      MixedNone(before, was, cache.view, dataset.maxTime);
      changed := 0;
      while rest != {}
        invariant rest <= was.Keys && done == was.Keys - rest
        invariant dataset.Valid() && dataset.maxTime == old(dataset.maxTime)
        invariant Mixed(was, cache.view, dataset.view, done)
        invariant changed == |Gained(was, cache.view, dataset.maxTime, done)|
        decreases rest
      {
        var e :| e in rest;
        var increased := CopyOne(dataset, e, before, was, done);
        GainedMore(was, cache.view, dataset.maxTime, done, e);
        if increased {
          changed := changed + 1;
        }
        rest, done := rest - {e}, done + {e};
      }
      MixedAll(was, cache.view, dataset.view, done, dataset.maxTime);
    }

    /** The copy for one expression, which never fails. */
    method CopyOne(dataset: StateValueDataset<E>, e: E, ghost before: Values<E>, ghost was: Values<E>,
        ghost done: set<E>)
      returns (increased: bool)
      requires cache.Valid() && dataset.Valid() && dataset != cache && Merged(before, was, cache.view)
      requires Mixed(was, cache.view, dataset.view, done) && e in was && e !in done
      modifies dataset
      ensures dataset.Valid() && dataset.maxTime == old(dataset.maxTime)
      ensures Mixed(was, cache.view, dataset.view, done + {e})
      ensures increased <==> Improved(was, cache.view, dataset.maxTime, e)
    {
      hide StateValueDataset<E>.Valid, Merged, Improved, Rises, Falls, Mixed, Drops, NoticesFalls;
      ghost var now := dataset.view;
      NeverFalls(before, was, cache.view, e);
      MixedAt(was, cache.view, now, done, dataset.maxTime, e);
      dataset.SameKeys();
      var copied := dataset.CopySequenceFrom(cache, e);
      assert copied.Copied?;
      increased := copied.increased;
      ImprovedIs(now, cache.view, dataset.maxTime, e);
      MixedMore(was, cache.view, now, done, e);
    }
  }

  /** The sequences of `done` have been taken over from the cache. */
  ghost predicate Mixed<E(!new)>(was: Values<E>, cached: Values<E>, view: Values<E>, done: set<E>) {
    && view.Keys == was.Keys && was.Keys <= cached.Keys
    && (forall e | e in was :: view[e] == if e in done then cached[e] else was[e])
  }

  /** The expressions of `done` that gained. */
  ghost function Gained<E(!new)>(was: Values<E>, cached: Values<E>, maxTime: map<E, int>, done: set<E>): set<E> {
    set e | e in done && Improved(was, cached, maxTime, e)
  }

  lemma {:induction false} MixedNone<E(!new)>(before: Values<E>, was: Values<E>, cached: Values<E>,
      maxTime: map<E, int>)
    requires Merged(before, was, cached)
    ensures Mixed(was, cached, was, {}) && Gained(was, cached, maxTime, {}) == {}
  {
    hide At;
  }

  lemma {:induction false} MixedAt<E(!new)>(was: Values<E>, cached: Values<E>, view: Values<E>, done: set<E>,
      maxTime: map<E, int>, e: E)
    requires Mixed(was, cached, view, done) && e in was && e !in done
    ensures e in view && e in cached
    ensures forall t :: Falls(view, cached, e, t) <==> Falls(was, cached, e, t)
    ensures Improved(view, cached, maxTime, e) <==> Improved(was, cached, maxTime, e)
  {
    hide Improved, Falls;
    SameAt(was, view, cached, maxTime, e);
  }

  lemma {:induction false} MixedMore<E(!new)>(was: Values<E>, cached: Values<E>, view: Values<E>, done: set<E>, e: E)
    requires Mixed(was, cached, view, done) && e in was
    ensures e in cached && Mixed(was, cached, view[e := cached[e]], done + {e})
  {
    assert view[e := cached[e]].Keys == view.Keys;
  }

  lemma {:induction false} GainedMore<E(!new)>(was: Values<E>, cached: Values<E>, maxTime: map<E, int>, done: set<E>,
      e: E)
    requires e !in done
    ensures |Gained(was, cached, maxTime, done + {e})|
      == |Gained(was, cached, maxTime, done)| + if Improved(was, cached, maxTime, e) then 1 else 0
  {
    hide Improved;
    var g := Gained(was, cached, maxTime, done);
    assert Gained(was, cached, maxTime, done + {e}) == if Improved(was, cached, maxTime, e) then g + {e} else g;
  }

  lemma {:induction false} MixedAll<E(!new)>(was: Values<E>, cached: Values<E>, view: Values<E>, done: set<E>,
      maxTime: map<E, int>)
    requires Mixed(was, cached, view, done) && done == was.Keys
    ensures view.Keys == was.Keys && forall e | e in view :: e in cached && view[e] == cached[e]
    ensures Gained(was, cached, maxTime, done) == set e | e in was && Improved(was, cached, maxTime, e)
  {
    hide Improved;
  }

  lemma {:induction false} StillBest<E(!new)>(seen: seq<Values<E>>, view: Values<E>, next: Values<E>, view': Values<E>)
    requires IsBest(seen, view) && Merged(view, next, view')
    ensures IsBest(seen + [next], view')
  {
    hide At;
    assert (seen + [next])[..|seen|] == seen;
    forall e, t ensures ValueAt(view', e, t) == Best(seen + [next], e, t) {
      assert ValueAt(view, e, t) == Best(seen, e, t);
    }
  }

  /** Only the values of `e` matter to whether they change. */
  lemma {:induction false} SameAt<E(!new)>(a: Values<E>, a': Values<E>, b: Values<E>, maxTime: map<E, int>, e: E)
    requires e in a && e in a' && a[e] == a'[e]
    ensures forall t :: Falls(a', b, e, t) <==> Falls(a, b, e, t)
    ensures Improved(a', b, maxTime, e) <==> Improved(a, b, maxTime, e)
  {
    hide At;
    forall t ensures Rises(a', b, e, t) <==> Rises(a, b, e, t) {}
    forall t ensures Falls(a', b, e, t) <==> Falls(a, b, e, t) {}
  }

  lemma {:induction false} ImprovedIs<E(!new)>(a: Values<E>, b: Values<E>, maxTime: map<E, int>, e: E)
    requires e in maxTime
    ensures Improved(a, b, maxTime, e) <==> exists t :: 0 <= t <= maxTime[e] && Rises(a, b, e, t)
  {
    hide Rises;
  }

  lemma {:induction false} NeverFalls<E(!new)>(a: Values<E>, b: Values<E>, merged: Values<E>, e: E)
    requires Merged(a, b, merged)
    ensures forall t :: !Falls(b, merged, e, t)
  {
    hide At;
    forall t ensures !Falls(b, merged, e, t) {
      assert ValueAt(merged, e, t) == ImproveBy(Max, ValueAt(a, e, t), ValueAt(b, e, t));
    }
  }
}
