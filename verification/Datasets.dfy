/** Datasets of values by time left, whose sequences several datasets may share. */
module Datasets {
  import opened CumSequences

  /** The values a dataset records, as the critical values of every expression. */
  type Values<!E> = map<E, seq<Item>>

  function ValueAt<E>(vs: Values<E>, e: E, t: int): Option<real> {
    if e in vs then At(vs[e], t) else None
  }

  /** `merged` holds the greater of the two values of every expression at every time. */
  ghost predicate Merged<E(!new)>(a: Values<E>, b: Values<E>, merged: Values<E>) {
    && merged.Keys == a.Keys + b.Keys
    && (forall e, t {:trigger ValueAt(merged, e, t)} ::
      ValueAt(merged, e, t) == ImproveBy(Max, ValueAt(a, e, t), ValueAt(b, e, t)))
  }

  datatype Added = Nothing | AlreadyPresent | Fresh(any: bool)

  datatype Lookup = Absent | IndexError | Found(value: real)

  datatype Copied = KeyError | Decreased | Copied(increased: bool)

  /** The points that `add_expr` records. */
  function Positive(items: seq<Item>): seq<Item> {
    if items == [] then [] else Positive(items[..|items| - 1]) + if items[|items| - 1].key > 0 then [items[|items| - 1]]
    else []
  }

  class StateValueDataset<E(==, !new)> {
    var maxValues: map<E, CumSequence>
    var maxTime: map<E, int>
    /** The critical values of every expression. */
    ghost var view: Values<E>

    ghost predicate Valid()
      reads this, maxValues.Values
    {
      && maxTime.Keys == maxValues.Keys == view.Keys
      && forall e | e in maxValues :: Recorded(maxValues[e], view[e]) && maxTime[e] > 0
    }

    constructor ()
      ensures Valid() && maxValues == map[] && view == map[]
    {
      maxValues, maxTime, view := map[], map[], map[];
    }

    /** What `Valid` says of one expression. */
    lemma {:induction false} Holds(e: E)
      requires Valid() && e in maxValues
      ensures e in view && e in maxTime && maxTime[e] > 0 && Recorded(maxValues[e], view[e])
    {
      hide Recorded;
    }

    lemma {:induction false} SameKeys()
      requires Valid()
      ensures maxTime.Keys == maxValues.Keys == view.Keys
    {
      hide Recorded;
    }

    /** Records a sequence and a maximal time. */
    method Put(e: E, s: CumSequence, time: int)
      requires Valid() && Recorded(s, s.items) && time > 0
      modifies this
      ensures Valid() && view == old(view)[e := s.items]
      ensures maxValues == old(maxValues)[e := s] && maxTime == old(maxTime)[e := time]
    {
      hide Recorded;
      maxValues, maxTime, view := maxValues[e := s], maxTime[e := time], view[e := s.items];
    }

    /** `add_expr`: a new expression gets the running maximum of its points at positive times, from zero at time zero.
        It tells whether any of them is positive. */
    method AddExpr(e: E, items: seq<Item>) returns (r: Added)
      requires Valid()
      modifies this
      ensures Valid()
      ensures r.Nothing? <==> forall i | i in items :: i.key <= 0
      ensures r.AlreadyPresent? <==> e in old(maxValues) && Positive(items) != []
      ensures !r.Fresh? ==> maxValues == old(maxValues) && maxTime == old(maxTime) && view == old(view)
      ensures r.Fresh? ==> e in maxValues && fresh(maxValues[e]) && maxValues == old(maxValues)[e := maxValues[e]]
      ensures r.Fresh? ==> e in view && view == old(view)[e := view[e]]
      ensures r.Fresh? ==> Refines(Max, view[e], [Item(0, 0.0)] + Positive(items))
      ensures r.Fresh? ==> e in maxTime && maxTime == old(maxTime)[e := maxTime[e]]
      ensures r.Fresh? ==> IsMaxTime(Positive(items), maxTime[e])
      ensures r.Fresh? ==> (r.any <==> exists i :: i in Positive(items) && i.value > 0.0)
    {
      hide Valid, Sorted, Refines, At, Recorded, IsMaxTime, Positive;
      var points := SelectPositive(items);
      PositiveIs(items);
      if |points| == 0 {
        return Nothing;
      }
      if e in maxValues {
        return AlreadyPresent;
      }
      var latest := LatestTime(points);
      var s, any := Build(points);
      Put(e, s, latest);
      r := Fresh(any);
    }

    /** `get_value`; no time left means the greatest value at any time. */
    method GetValue(e: E, timeLeft: Option<int>) returns (r: Lookup)
      requires Valid()
      ensures r.Absent? <==> e !in maxValues
      ensures r.IndexError? <==> e in maxValues && timeLeft.Some? && timeLeft.value < 0
      ensures r.Found? && timeLeft.Some? ==> Some(r.value) == ValueAt(view, e, timeLeft.value)
      ensures r.Found? && timeLeft.None? ==> e in view && IsGreatest(view[e], r.value)
    {
      hide Sorted, Refines, At;
      if e !in maxValues {
        return Absent;
      }
      var s := maxValues[e];
      if timeLeft.None? {
        LastIsGreatest(s.items);
        return Found(s.items[|s.items| - 1].value);
      }
      var v := s.GetItem(timeLeft.value);
      if timeLeft.value >= 0 {
        AtFromZero(s.items, timeLeft.value);
      }
      r := if v.None? then IndexError else Found(v.value);
    }

    /** `merge_dataset`: takes the greater values. Sequences may be shared with other datasets, so none is changed:
        only this object is. */
    method MergeDataset(other: StateValueDataset<E>)
      requires Valid() && other.Valid()
      modifies this
      ensures Valid() && Merged(old(view), old(other.view), view)
      ensures maxTime == LaterTimes(old(maxTime), old(other.maxTime))
    {
      hide Valid, Sorted, Refines, At, Recorded, Merged, LaterTimes, Step;
      ghost var theirs := other.view;
      var otherValues, otherTime := other.maxValues, other.maxTime;
      other.SameKeys();
      assert forall e | e in otherValues :: Recorded(otherValues[e], theirs[e]) && otherTime[e] > 0 by {
        forall e | e in otherValues ensures Recorded(otherValues[e], theirs[e]) && otherTime[e] > 0 { other.Holds(e); }
      }
      var rest := otherValues.Keys;
      ghost var done: set<E> := {};
      MergedNone(view, theirs);
      LaterNone(maxTime, otherTime);
      while rest != {}
        invariant rest <= otherValues.Keys && done == otherValues.Keys - rest
        invariant Valid() && Merged(old(view), Only(theirs, done), view)
        invariant maxTime == LaterTimes(old(maxTime), OnlyTimes(otherTime, done))
        decreases |rest|
      {
        var e :| e in rest;
        ghost var before := view;
        MergeOne(e, otherValues[e], otherTime[e], theirs[e]);
        MergedMore(old(view), theirs, done, before, view, e);
        LaterMore(old(maxTime), otherTime, done, e);
        rest, done := rest - {e}, done + {e};
      }
      OnlyAll(theirs, otherTime, done);
    }

    /** The body of the loop of `merge_dataset`. */
    method MergeOne(e: E, cumSeq: CumSequence, time: int, ghost items: seq<Item>)
      requires Valid() && Recorded(cumSeq, items) && time > 0
      modifies this
      ensures Valid() && Step(old(view), view, e, items)
      ensures maxTime == old(maxTime)[e := if e in old(maxTime) then Largest(old(maxTime)[e], time) else time]
    {
      hide Valid, Sorted, Refines, At, Step;
      SameKeys();
      if e !in maxValues {
        StepNew(view, e, items);
        Put(e, cumSeq, time);
      } else {
        Holds(e);
        var merged := new CumSequence.Copy(maxValues[e]);
        var better := merged.UpdateFromSeq(cumSeq);
        FirstKey(view[e], items, merged.items);
        StepOld(view, e, items, merged.items);
        Put(e, if better then merged else maxValues[e], Largest(maxTime[e], time));
      }
    }

    /** `copy_sequence_from`: takes over the sequence of another dataset; `Decreased` is its ValueError. If no value
        up to the maximal time is smaller in the other dataset this never fails, and tells whether any is greater. A
        value that is smaller may go unnoticed: the contract says when. */
    method CopySequenceFrom(other: StateValueDataset<E>, e: E) returns (r: Copied)
      requires Valid() && other.Valid()
      modifies this
      ensures Valid() && maxTime == old(maxTime)
      ensures r.KeyError? <==> e !in old(view) || e !in old(other.view)
      ensures view == if r.KeyError? then old(view) else old(view)[e := old(other.view)[e]]
      ensures maxValues == if r.KeyError? then old(maxValues) else old(maxValues)[e := old(other.maxValues)[e]]
      ensures !r.KeyError? ==> (r.Decreased? <==> Drops(old(view)[e], old(other.view)[e], maxTime[e]))
      ensures r.Decreased? ==> exists t :: 0 <= t <= maxTime[e] && Falls(old(view), old(other.view), e, t)
      ensures !r.KeyError? ==>
        ((r.Decreased? <==> exists t :: 0 <= t <= maxTime[e] && Falls(old(view), old(other.view), e, t))
          <==> NoticesFalls(old(view)[e], old(other.view)[e], maxTime[e]))
      ensures r.Copied? && r.increased ==> exists t :: 0 <= t <= maxTime[e] && Rises(old(view), old(other.view), e, t)
      ensures r.Copied? && !r.increased ==> forall t | 0 <= t <= maxTime[e] :: !Rises(old(view), old(other.view), e, t)
    {
      hide Valid, Sorted, Refines, At;
      SameKeys();
      other.SameKeys();
      if e !in maxValues || e !in other.maxValues {
        return KeyError;
      }
      Holds(e);
      other.Holds(e);
      var oldSeq, newSeq := maxValues[e], other.maxValues[e];
      if oldSeq == newSeq {
        NoDropInSame(newSeq.items, maxTime[e]);
        FallsNoticed(newSeq.items, newSeq.items, maxTime[e]);
        assert maxValues == maxValues[e := newSeq] && view == view[e := newSeq.items];
        return Copied(false);
      }
      Put(e, newSeq, maxTime[e]);
      assert maxTime == old(maxTime);
      r := Compare(oldSeq, newSeq, maxTime[e]);
      FallsNoticed(oldSeq.items, newSeq.items, maxTime[e]);
      forall t
        ensures Rises(old(view), old(other.view), e, t) <==> Worse(newSeq.items, oldSeq.items, t)
        ensures Falls(old(view), old(other.view), e, t) <==> Worse(oldSeq.items, newSeq.items, t)
      {}
    }
  }

  /** The loop of `copy_sequence_from`. */
  method Compare(oldSeq: CumSequence, newSeq: CumSequence, limit: int) returns (r: Copied)
    requires Recorded(oldSeq, oldSeq.items) && Recorded(newSeq, newSeq.items)
    ensures !r.KeyError?
    ensures r.Decreased? <==> Drops(oldSeq.items, newSeq.items, limit)
    ensures r.Decreased? ==> exists t :: 0 <= t <= limit && Worse(oldSeq.items, newSeq.items, t)
    ensures r.Copied? && r.increased ==> exists t :: 0 <= t <= limit && Worse(newSeq.items, oldSeq.items, t)
    ensures r.Copied? && !r.increased ==> forall t | 0 <= t <= limit :: !Worse(newSeq.items, oldSeq.items, t)
  {
    hide Sorted, Refines, At;
    ghost var a := oldSeq.items;
    ghost var b := newSeq.items;
    for i := 0 to |newSeq.items|
      invariant forall j | 0 <= j < i :: At(a, newSeq.items[j].key) == Some(newSeq.items[j].value)
    {
      var item := newSeq.items[i];
      ItemIsAt(newSeq.items, i);
      if item.key > limit {
        NoDropBefore(a, b, i, limit);
        NoRise(a, newSeq.items, i, limit);
        return Copied(false);
      }
      AtFromZero(a, item.key);
      var was := oldSeq.GetItem(item.key);
      if item.value < was.value {
        assert Worse(a, newSeq.items, item.key);
        assert DropsAt(a, b, limit, i);
        return Decreased;
      }
      if item.value > was.value {
        assert Worse(newSeq.items, a, item.key);
        NoDropBefore(a, b, i, limit);
        return Copied(true);
      }
    }
    NoDropBefore(a, b, |b|, limit);
    NoRise(a, newSeq.items, |newSeq.items|, limit);
    r := Copied(false);
  }

  /** `b` has a smaller value at `t` than `a`. */
  predicate Worse(a: seq<Item>, b: seq<Item>, t: int) {
    At(a, t).Some? && At(b, t).Some? && At(b, t).value < At(a, t).value
  }

  /** New item `i` is the first whose value is not the old one, and it is smaller. */
  predicate DropsAt(a: seq<Item>, b: seq<Item>, limit: int, i: nat)
    requires i < |b|
  {
    && b[i].key <= limit && At(a, b[i].key).Some? && b[i].value < At(a, b[i].key).value
    && forall j | 0 <= j < i :: At(a, b[j].key) == Some(b[j].value)
  }

  /** When the ValueError is raised. */
  predicate Drops(a: seq<Item>, b: seq<Item>, limit: int) {
    exists i: nat :: i < |b| && DropsAt(a, b, limit, i)
  }

  /** The new sequence stays below an old critical value. */
  predicate Undercuts(b: seq<Item>, item: Item) {
    At(b, item.key).Some? && At(b, item.key).value < item.value
  }

  /** Every fall is noticed: either the first new value to differ is smaller, or no old critical value is undercut. */
  predicate NoticesFalls(a: seq<Item>, b: seq<Item>, limit: int) {
    Drops(a, b, limit) || forall i | 0 <= i < |a| && a[i].key <= limit :: !Undercuts(b, a[i])
  }

  /** The filter of `add_expr`. */
  method SelectPositive(items: seq<Item>) returns (points: seq<Item>)
    ensures points == Positive(items) && forall i | i in points :: i.key > 0
  {
    points := [];
    for k := 0 to |items|
      invariant points == Positive(items[..k]) && forall i | i in points :: i.key > 0
    {
      assert items[..k + 1][..k] == items[..k];
      if items[k].key > 0 {
        points := points + [items[k]];
      }
    }
    assert items[..|items|] == items;
  }

  /** The first loop of `add_expr`: the sequence of an expression, and whether an update did anything. */
  method Build(points: seq<Item>) returns (s: CumSequence, any: bool)
    requires forall i | i in points :: i.key > 0
    ensures fresh(s) && Recorded(s, s.items) && Refines(Max, s.items, [Item(0, 0.0)] + points)
    ensures any <==> exists i :: i in points && i.value > 0.0
  {
    hide Sorted, Refines, At;
    s := new CumSequence(Max);
    var _ := s.Update(0, 0.0);
    AtNothing();
    any := false;
    for k := 0 to |points|
      invariant fresh(s) && s.Valid() && s.direction == Max && s.log == [Item(0, 0.0)] + points[..k]
      invariant At(s.items, 0) == Some(0.0) && forall t | t >= 0 :: At(s.items, t).Some? && At(s.items, t).value >= 0.0
      invariant !any ==> forall t | t >= 0 :: At(s.items, t) == Some(0.0)
      invariant any <==> exists j :: 0 <= j < k && points[j].value > 0.0
    {
      assert points[k] in points;
      ghost var was := s.items;
      var updated := s.Update(points[k].key, points[k].value);
      assert updated.Some? && updated == Some(updated.value);
      assert points[..k + 1] == points[..k] + [points[k]];
      assert At(was, points[k].key).value >= 0.0;
      any := any || updated.value;
    }
    assert points[..|points|] == points;
    FromZero(s.items);
  }

  /** `max(t for t, _v in items)` */
  method LatestTime(points: seq<Item>) returns (t: int)
    requires |points| > 0
    requires forall i | i in points :: i.key > 0
    ensures IsMaxTime(points, t) && t > 0
  {
    t := points[0].key;
    for k := 1 to |points|
      invariant exists i :: i in points && i.key == t
      invariant forall j | 0 <= j < k :: points[j].key <= t
    {
      assert points[k] in points;
      if points[k].key > t {
        t := points[k].key;
      }
    }
  }

  /** A sequence that a dataset holds: a maximum with a value from time zero on. */
  ghost predicate Recorded(s: CumSequence, items: seq<Item>)
    reads s
  {
    s.items == items && s.Valid() && s.direction == Max && s.items != [] && s.items[0].key == 0
  }

  ghost predicate IsMaxTime(items: seq<Item>, t: int) {
    (exists i :: i in items && i.key == t) && forall i | i in items :: i.key <= t
  }

  ghost predicate IsGreatest(items: seq<Item>, v: real) {
    (exists t :: At(items, t) == Some(v)) && forall t | At(items, t).Some? :: At(items, t).value <= v
  }

  function LaterTimes<E>(a: map<E, int>, b: map<E, int>): map<E, int> {
    map e | e in a.Keys + b.Keys :: if e in a && e in b then Largest(a[e], b[e]) else if e in a then a[e] else b[e]
  }

  /** `t` is a time of `e` in one of the two, and not before that in the other. */
  ghost predicate IsLatest<E>(a: map<E, int>, b: map<E, int>, e: E, t: int) {
    && ((e in a && a[e] == t) || (e in b && b[e] == t))
    && (e in a ==> a[e] <= t) && (e in b ==> b[e] <= t)
  }

  lemma {:induction false} LaterTimesIs<E>(a: map<E, int>, b: map<E, int>)
    ensures LaterTimes(a, b).Keys == a.Keys + b.Keys
    ensures forall e | e in LaterTimes(a, b) :: IsLatest(a, b, e, LaterTimes(a, b)[e])
  {}

  function Only<E>(vs: Values<E>, es: set<E>): Values<E> {
    map e | e in vs && e in es :: vs[e]
  }

  function OnlyTimes<E>(ts: map<E, int>, es: set<E>): map<E, int> {
    map e | e in ts && e in es :: ts[e]
  }

  /** The values of one expression have been merged in. */
  ghost predicate Step<E(!new)>(v: Values<E>, v': Values<E>, e: E, items: seq<Item>) {
    && v'.Keys == v.Keys + {e} && (forall x | x in v && x != e :: v'[x] == v[x])
    && (forall t {:trigger ValueAt(v', e, t)} :: ValueAt(v', e, t) == ImproveBy(Max, ValueAt(v, e, t), At(items, t)))
  }

  predicate Rises<E>(a: Values<E>, b: Values<E>, e: E, t: int) {
    e in a && e in b && Worse(b[e], a[e], t)
  }

  predicate Falls<E>(a: Values<E>, b: Values<E>, e: E, t: int) {
    Rises(b, a, e, t)
  }

  lemma {:induction false} StepNew<E(!new)>(v: Values<E>, e: E, items: seq<Item>)
    requires e !in v
    ensures Step(v, v[e := items], e, items)
  {
    hide At;
  }

  lemma {:induction false} StepOld<E(!new)>(v: Values<E>, e: E, items: seq<Item>, merged: seq<Item>)
    requires e in v && forall t :: At(merged, t) == ImproveBy(Max, At(v[e], t), At(items, t))
    ensures Step(v, v[e := merged], e, items)
  {
    hide At;
    assert v[e := merged].Keys == v.Keys + {e};
  }

  lemma {:induction false} MergedNone<E(!new)>(v: Values<E>, other: Values<E>)
    ensures Merged(v, Only(other, {}), v)
  {
    hide At;
  }

  lemma {:induction false} MergedMore<E(!new)>(mine: Values<E>, theirs: Values<E>, done: set<E>, v: Values<E>,
      v': Values<E>, e: E)
    requires Merged(mine, Only(theirs, done), v) && e in theirs && e !in done && Step(v, v', e, theirs[e])
    ensures Merged(mine, Only(theirs, done + {e}), v')
  {
    hide At;
    var o := Only(theirs, done + {e});
    forall x, t ensures ValueAt(v', x, t) == ImproveBy(Max, ValueAt(mine, x, t), ValueAt(o, x, t)) {
      assert ValueAt(v, x, t) == ImproveBy(Max, ValueAt(mine, x, t), ValueAt(Only(theirs, done), x, t));
      assert x == e ==> ValueAt(v', e, t) == ImproveBy(Max, ValueAt(v, e, t), At(theirs[e], t));
    }
  }

  lemma {:induction false} LaterNone<E>(a: map<E, int>, b: map<E, int>)
    ensures a == LaterTimes(a, OnlyTimes(b, {}))
  {}

  lemma {:induction false} LaterMore<E>(a: map<E, int>, b: map<E, int>, done: set<E>, e: E)
    requires e in b && e !in done
    ensures var was := LaterTimes(a, OnlyTimes(b, done));
      LaterTimes(a, OnlyTimes(b, done + {e})) == was[e := if e in was then Largest(was[e], b[e]) else b[e]]
  {}

  lemma {:induction false} OnlyAll<E>(vs: Values<E>, ts: map<E, int>, es: set<E>)
    requires vs.Keys == ts.Keys == es
    ensures Only(vs, es) == vs && OnlyTimes(ts, es) == ts
  {}

  lemma {:induction false} AtFromZero(items: seq<Item>, t: int)
    requires Sorted(Max, items) && items != [] && items[0].key == 0 && t >= 0
    ensures At(items, t).Some?
  {
    BisectSplits(Max, items, t);
    hide Bisect;
  }

  lemma {:induction false} FromZero(items: seq<Item>)
    requires Sorted(Max, items) && At(items, 0).Some?
    ensures items != [] && items[0].key == 0
  {
    BisectSplits(Max, items, 0);
    hide Bisect;
  }

  lemma {:induction false} FirstKey(a: seq<Item>, b: seq<Item>, c: seq<Item>)
    requires Sorted(Max, a) && a != [] && a[0].key == 0 && Sorted(Max, c)
    requires forall t :: At(c, t) == ImproveBy(Max, At(a, t), At(b, t))
    ensures c != [] && c[0].key == 0
  {
    hide At, Sorted;
    AtFromZero(a, 0);
    FromZero(c);
  }

  lemma {:induction false} LastIsGreatest(items: seq<Item>)
    requires Sorted(Max, items) && items != []
    ensures IsGreatest(items, items[|items| - 1].value)
  {
    hide Bisect;
    var last := items[|items| - 1];
    BisectIs(Max, items, last.key, |items|);
    assert At(items, last.key) == Some(last.value);
    forall t | At(items, t).Some? ensures At(items, t).value <= last.value {
      BisectSplits(Max, items, t);
    }
  }

  lemma {:induction false} ItemIsAt(items: seq<Item>, i: nat)
    requires Sorted(Max, items) && i < |items|
    ensures At(items, items[i].key) == Some(items[i].value) && items[i].key >= 0
  {
    hide Bisect;
    BisectIs(Max, items, items[i].key, i + 1);
  }

  /** If the first `n` critical values, all those up to `limit`, are the old ones, nothing up to `limit` has risen. */
  lemma {:induction false} NoRise(a: seq<Item>, b: seq<Item>, n: nat, limit: int)
    requires Sorted(Max, a) && Sorted(Max, b) && n <= |b| && (n < |b| ==> b[n].key > limit)
    requires forall j | 0 <= j < n :: At(a, b[j].key) == Some(b[j].value)
    ensures forall t | t <= limit && At(b, t).Some? && At(a, t).Some? :: At(b, t).value <= At(a, t).value
  {
    hide At, Bisect, Sorted;
    forall t | t <= limit && At(b, t).Some? && At(a, t).Some? ensures At(b, t).value <= At(a, t).value {
      var j := ItemBefore(b, t, n);
      AtMoreLater(a, b[j].key, t);
    }
  }

  lemma {:induction false} ItemBefore(items: seq<Item>, t: int, n: nat) returns (j: nat)
    requires Sorted(Max, items) && At(items, t).Some? && n <= |items| && (n < |items| ==> items[n].key > t)
    ensures j < n && items[j].key <= t && At(items, t) == Some(items[j].value)
  {
    BisectSplits(Max, items, t);
    hide Bisect;
    j := Bisect(items, t) - 1;
  }

  lemma {:induction false} AtMoreLater(items: seq<Item>, t: int, u: int)
    requires Sorted(Max, items) && t <= u && At(items, t).Some?
    ensures At(items, u).Some? && At(items, u).value >= At(items, t).value
  {
    BisectSplits(Max, items, t);
    BisectSplits(Max, items, u);
    hide Bisect;
    assert items[Bisect(items, t) - 1].key <= u;
  }

  /** Exactly the points at positive times, in their order. */
  lemma {:induction false} PositiveIs(items: seq<Item>)
    ensures forall i :: i in Positive(items) <==> i in items && i.key > 0
    ensures Positive(items) == [] <==> forall i | i in items :: i.key <= 0
  {
    if items != [] {
      var init, last := items[..|items| - 1], items[|items| - 1];
      assert items == init + [last];
      PositiveIs(init);
      if last.key > 0 {
        assert last in Positive(items);
      }
    }
  }

  /** What merging gives is the greater of the two values, or the only one. */
  lemma {:induction false} MergedIsGreater<E(!new)>(a: Values<E>, b: Values<E>, merged: Values<E>, e: E, t: int)
    requires Merged(a, b, merged)
    ensures ValueAt(merged, e, t).None? <==> ValueAt(a, e, t).None? && ValueAt(b, e, t).None?
    ensures ValueAt(merged, e, t).Some? ==> ValueAt(merged, e, t) in {ValueAt(a, e, t), ValueAt(b, e, t)}
    ensures ValueAt(a, e, t).Some? ==> ValueAt(merged, e, t).value >= ValueAt(a, e, t).value
    ensures ValueAt(b, e, t).Some? ==> ValueAt(merged, e, t).value >= ValueAt(b, e, t).value
  {
    hide At;
    assert ValueAt(merged, e, t) == ImproveBy(Max, ValueAt(a, e, t), ValueAt(b, e, t));
  }

  // ---------------------------------------------------------------- when a decrease is noticed

  lemma {:induction false} NoDropInSame(items: seq<Item>, limit: int)
    requires Sorted(Max, items)
    ensures !Drops(items, items, limit)
  {
    hide At, Sorted;
    forall i: nat | i < |items| ensures !DropsAt(items, items, limit, i) {
      ItemIsAt(items, i);
    }
  }

  /** The loop has ended without a ValueError: beyond the limit, at the end or at a greater value. */
  lemma {:induction false} NoDropBefore(a: seq<Item>, b: seq<Item>, n: nat, limit: int)
    requires Sorted(Max, b) && n <= |b| && forall j | 0 <= j < n :: At(a, b[j].key) == Some(b[j].value)
    requires n < |b| ==> b[n].key > limit || (At(a, b[n].key).Some? && At(a, b[n].key).value < b[n].value)
    ensures !Drops(a, b, limit)
  {
    hide At;
    forall i: nat | i < |b| ensures !DropsAt(a, b, limit, i) {}
  }

  /** Some value has fallen exactly if an old critical value within the limit is undercut. */
  lemma {:induction false} FallsIffUndercut(a: seq<Item>, b: seq<Item>, limit: int)
    requires Sorted(Max, a) && Sorted(Max, b) && b != [] && b[0].key == 0
    ensures (exists t :: 0 <= t <= limit && Worse(a, b, t))
      <==> exists i :: 0 <= i < |a| && a[i].key <= limit && Undercuts(b, a[i])
  {
    hide At, Sorted;
    if t :| 0 <= t <= limit && Worse(a, b, t) {
      var i := ItemBefore(a, t, |a|);
      ItemIsAt(a, i);
      AtFromZero(b, a[i].key);
      AtMoreLater(b, a[i].key, t);
      assert Undercuts(b, a[i]);
    }
    if i :| 0 <= i < |a| && a[i].key <= limit && Undercuts(b, a[i]) {
      ItemIsAt(a, i);
      assert Worse(a, b, a[i].key);
    }
  }

  /** The ValueError is raised just when some value up to the limit has fallen, exactly if `NoticesFalls`. */
  lemma {:induction false} FallsNoticed(a: seq<Item>, b: seq<Item>, limit: int)
    requires Sorted(Max, a) && Sorted(Max, b) && b != [] && b[0].key == 0
    ensures (Drops(a, b, limit) <==> exists t :: 0 <= t <= limit && Worse(a, b, t)) <==> NoticesFalls(a, b, limit)
  {
    hide At, Sorted, Undercuts;
    FallsIffUndercut(a, b, limit);
    if i: nat :| i < |b| && DropsAt(a, b, limit, i) {
      ItemIsAt(b, i);
      assert Worse(a, b, b[i].key);
    }
  }

  /** If no new critical value within the limit differs, the falls are where an old critical value has gone. */
  lemma {:induction false} FallsIfGone(a: seq<Item>, b: seq<Item>, limit: int)
    requires Sorted(Max, a) && Sorted(Max, b) && b != [] && b[0].key == 0
    requires forall j | 0 <= j < |b| && b[j].key <= limit :: At(a, b[j].key) == Some(b[j].value)
    ensures !Drops(a, b, limit)
    ensures (exists t :: 0 <= t <= limit && Worse(a, b, t)) <==> exists i ::
      0 <= i < |a| && a[i].key <= limit && a[i] !in b
  {
    hide At, Sorted;
    forall i | 0 <= i < |a| && a[i].key <= limit ensures Undercuts(b, a[i]) <==> a[i] !in b {
      GoneIffUndercut(a, b, i);
    }
    FallsIffUndercut(a, b, limit);
  }

  lemma {:induction false} GoneIffUndercut(a: seq<Item>, b: seq<Item>, i: nat)
    requires Sorted(Max, a) && Sorted(Max, b) && b != [] && b[0].key == 0 && i < |a|
    requires forall j | 0 <= j < |b| && b[j].key <= a[i].key :: At(a, b[j].key) == Some(b[j].value)
    ensures Undercuts(b, a[i]) <==> a[i] !in b
  {
    hide At;
    ItemIsAt(a, i);
    if a[i] in b {
      var j: nat :| j < |b| && b[j] == a[i];
      ItemIsAt(b, j);
    } else {
      AtFromZero(b, a[i].key);
      var j := ItemBefore(b, a[i].key, |b|);
      var k := ItemBefore(a, b[j].key, |a|);
      assert a[k].value == b[j].value;
      assert k != i;
      assert k < i;
    }
  }

  /** A fall that no new critical value shows. */
  lemma {:induction false} FallBetweenKeys()
    ensures var a, b := [Item(0, 0.0), Item(1, 5.0)], [Item(0, 0.0)];
      Worse(a, b, 1) && !Drops(a, b, 1) && !NoticesFalls(a, b, 1)
  {
    hide At;
    var a, b := [Item(0, 0.0), Item(1, 5.0)], [Item(0, 0.0)];
    AtIs(a, 0, 1);
    AtIs(a, 1, 2);
    AtIs(b, 1, 1);
    NoDropBefore(a, b, 1, 1);
    assert Undercuts(b, a[1]);
  }

  /** A fall after a rise, at which the loop returns. */
  lemma {:induction false} FallAfterRise()
    ensures var a, b := [Item(0, 0.0), Item(1, 1.0), Item(2, 10.0)], [Item(0, 0.0), Item(1, 2.0)];
      Worse(a, b, 2) && !Drops(a, b, 2) && !NoticesFalls(a, b, 2)
  {
    hide At;
    var a, b := [Item(0, 0.0), Item(1, 1.0), Item(2, 10.0)], [Item(0, 0.0), Item(1, 2.0)];
    AtIs(a, 0, 1);
    AtIs(a, 1, 2);
    AtIs(a, 2, 3);
    AtIs(b, 2, 2);
    NoDropBefore(a, b, 1, 2);
    assert Undercuts(b, a[2]);
  }

  /** A fall at the limit itself is noticed, one behind it is not. */
  lemma {:induction false} FallAtLimit()
    ensures var a, b := [Item(0, 0.0), Item(1, 5.0)], [Item(0, 0.0), Item(1, 3.0)];
      Worse(a, b, 1) && Drops(a, b, 1) && !Drops(a, b, 0)
  {
    hide At;
    var a, b := [Item(0, 0.0), Item(1, 5.0)], [Item(0, 0.0), Item(1, 3.0)];
    AtIs(a, 0, 1);
    AtIs(a, 1, 2);
    AtIs(b, 1, 2);
    assert DropsAt(a, b, 1, 1);
  }

  lemma {:induction false} AtIs(items: seq<Item>, t: int, n: nat)
    requires Sorted(Max, items) && 0 < n <= |items| && items[n - 1].key <= t && (n < |items| ==> items[n].key > t)
    ensures At(items, t) == Some(items[n - 1].value)
  {
    hide Bisect;
    BisectIs(Max, items, t, n);
  }
}
