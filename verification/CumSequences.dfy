/** Cumulative maxima and minima, stored sparsely. */
module CumSequences {
  datatype Option<T> = None | Some(value: T)

  /** A critical value: from `key` on the sequence is at least as good as `value`. */
  datatype Item = Item(key: int, value: real)

  /** A cumulative maximum or minimum. */
  datatype Direction = Max | Min

  /** `_skip_update` */
  predicate Skip(d: Direction, current: real, new_: real) {
    if d.Max? then new_ <= current else new_ >= current
  }

  /** Critical values at increasing keys, each strictly better than the last. */
  ghost predicate Sorted(d: Direction, items: seq<Item>) {
    && (forall i | 0 <= i < |items| :: items[i].key >= 0)
    && (forall i, j | 0 <= i < j < |items| :: items[i].key < items[j].key && !Skip(d, items[i].value, items[j].value))
  }

  /** The number of keys up to `t`: `bisect` of the sorted dictionary. */
  function Bisect(items: seq<Item>, t: int): (n: nat)
    ensures n <= |items|
  {
    if items == [] || items[|items| - 1].key <= t then |items| else Bisect(items[..|items| - 1], t)
  }

  lemma {:induction false} BisectSplits(d: Direction, items: seq<Item>, t: int)
    requires Sorted(d, items)
    ensures forall i | 0 <= i < |items| :: items[i].key <= t <==> i < Bisect(items, t)
  {
    if items != [] && items[|items| - 1].key > t {
      BisectSplits(d, items[..|items| - 1], t);
      forall i | 0 <= i < |items| ensures items[i].key <= t <==> i < Bisect(items, t) {
        if i < |items| - 1 { assert items[i] == items[..|items| - 1][i]; }
      }
    }
  }

  /** The dense sequence: the value of the last key up to `t`. */
  function At(items: seq<Item>, t: int): Option<real> {
    if Bisect(items, t) == 0 then None else Some(items[Bisect(items, t) - 1].value)
  }

  function Improve(d: Direction, current: Option<real>, v: real): Option<real> {
    if current.None? || !Skip(d, current.value, v) then Some(v) else current
  }

  /** The best value recorded by the updates in `log` at indices up to `t`. */
  ghost function Running(d: Direction, log: seq<Item>, t: int): Option<real> {
    if log == [] then None
    else if log[|log| - 1].key <= t then Improve(d, Running(d, log[..|log| - 1], t), log[|log| - 1].value)
    else Running(d, log[..|log| - 1], t)
  }

  lemma {:induction false} RunningStep(d: Direction, log: seq<Item>, x: Item, t: int)
    ensures Running(d, log + [x], t) == if x.key <= t then Improve(d, Running(d, log, t), x.value)
      else Running(d, log, t)
  {
    assert (log + [x])[..|log|] == log;
  }

  /** `items` stands for the running best of `log`. */
  ghost predicate Refines(d: Direction, items: seq<Item>, log: seq<Item>) {
    forall t :: At(items, t) == Running(d, log, t)
  }

  /** The running best is the value of some update, and no update up to `t` has a better one. */
  lemma {:induction false} RunningIsBest(d: Direction, log: seq<Item>, t: int)
    ensures Running(d, log, t).None? <==> forall u | u in log :: u.key > t
    ensures Running(d, log, t).Some? ==> exists u :: u in log && u.key <= t && u.value == Running(d, log, t).value
    ensures Running(d, log, t).Some? && d.Max? ==> forall u | u in log && u.key <= t ::
      u.value <= Running(d, log, t).value
    ensures Running(d, log, t).Some? && d.Min? ==> forall u | u in log && u.key <= t ::
      u.value >= Running(d, log, t).value
  {
    if log != [] {
      var init, last := log[..|log| - 1], log[|log| - 1];
      assert log == init + [last];
      RunningIsBest(d, init, t);
    }
  }

  /** `items` with a new value at `index`, in place of the items from `p` to `q`. */
  function Spliced(items: seq<Item>, p: nat, q: nat, index: int, value: real): seq<Item>
    requires p <= q <= |items|
  {
    items[..p] + [Item(index, value)] + items[q..]
  }

  ghost predicate Cut(d: Direction, items: seq<Item>, p: nat, q: nat, index: int, value: real) {
    && index >= 0 && p <= q <= |items|
    && (forall i | 0 <= i < p :: items[i].key < index && !Skip(d, items[i].value, value))
    && (forall i | p <= i < q :: items[i].key >= index && (items[i].key == index || Skip(d, value, items[i].value)))
    && (forall i | p <= i < q && items[i].key == index :: !Skip(d, items[i].value, value))
    && (forall i | q <= i < |items| :: items[i].key > index && !Skip(d, value, items[i].value))
  }

  lemma {:induction false} SplicedSorted(d: Direction, items: seq<Item>, p: nat, q: nat, index: int, value: real)
    requires Sorted(d, items) && Cut(d, items, p, q, index, value)
    ensures Sorted(d, Spliced(items, p, q, index, value))
  {
    var s := Spliced(items, p, q, index, value);
    forall i | 0 <= i < |s|
      ensures s[i] == if i < p then items[i] else if i == p then Item(index, value) else items[i - p - 1 + q] {}
    hide Spliced;
  }

  lemma {:induction false} BisectIs(d: Direction, items: seq<Item>, t: int, n: nat)
    requires Sorted(d, items) && n <= |items|
    requires (n > 0 ==> items[n - 1].key <= t) && (n < |items| ==> items[n].key > t)
    ensures Bisect(items, t) == n
  {
    BisectSplits(d, items, t);
    hide Bisect;
  }

  lemma {:induction false} SplicedItem(items: seq<Item>, p: nat, q: nat, index: int, value: real, i: nat)
    requires p <= q <= |items|
    ensures |Spliced(items, p, q, index, value)| == |items| - (q - p) + 1
    ensures i < p ==> Spliced(items, p, q, index, value)[i] == items[i]
    ensures Spliced(items, p, q, index, value)[p] == Item(index, value)
    ensures p < i < |items| - (q - p) + 1 ==> Spliced(items, p, q, index, value)[i] == items[i - p - 1 + q]
  {}

  /** How many keys of the spliced items are up to `t`. */
  lemma {:induction false} SplicedBisect(d: Direction, items: seq<Item>, p: nat, q: nat, index: int, value: real,
      t: int)
    requires Sorted(d, items) && Cut(d, items, p, q, index, value)
    ensures var m, n := Bisect(items, t), Bisect(Spliced(items, p, q, index, value), t);
      if t < index then m <= p && n == m else if m > q then n == m - q + p + 1 else m >= p && n == p + 1
  {
    hide Bisect, Spliced, Sorted;
    var s := Spliced(items, p, q, index, value);
    SplicedSorted(d, items, p, q, index, value);
    var m := Bisect(items, t);
    BisectSplits(d, items, t);
    var n := if t < index then m else if m > q then m - q + p + 1 else p + 1;
    assert m > p ==> items[p].key <= t;
    assert t < index ==> m <= p;
    assert t >= index ==> m >= p;
    SplicedItem(items, p, q, index, value, n);
    if n > 0 { SplicedItem(items, p, q, index, value, n - 1); }
    BisectIs(d, s, t, n);
  }

  lemma {:induction false} SplicedAt(d: Direction, items: seq<Item>, p: nat, q: nat, index: int, value: real, t: int)
    requires Sorted(d, items) && Cut(d, items, p, q, index, value)
    ensures At(Spliced(items, p, q, index, value), t) == if index <= t then Improve(d, At(items, t), value)
      else At(items, t)
  {
    hide Bisect, Spliced, Sorted;
    SplicedBisect(d, items, p, q, index, value, t);
    BisectSplits(d, items, t);
    var n := Bisect(Spliced(items, p, q, index, value), t);
    if n > 0 { SplicedItem(items, p, q, index, value, n - 1); }
  }

  /** The list views of the sorted dictionary. */
  predicate Has(items: seq<Item>, index: int) {
    Bisect(items, index) > 0 && items[Bisect(items, index) - 1].key == index
  }

  /** `merge` of two dense sequences at one point. */
  function ImproveBy(d: Direction, current: Option<real>, other: Option<real>): Option<real> {
    if other.None? then current else Improve(d, current, other.value)
  }

  class CumSequence {
    const direction: Direction
    var items: seq<Item>
    /** All updates made so far. */
    ghost var log: seq<Item>

    ghost predicate Valid()
      reads this
    {
      Sorted(direction, items) && Refines(direction, items, log)
    }

    constructor (direction: Direction)
      ensures Valid() && this.direction == direction && items == [] && log == []
    {
      this.direction := direction;
      items, log := [], [];
    }

    /** `copy` */
    constructor Copy(other: CumSequence)
      requires other.Valid()
      ensures Valid() && direction == other.direction && items == other.items && log == other.log
    {
      direction, items, log := other.direction, other.items, other.log;
    }

    /** `update`: takes the better of the present value and the new one at `index` and beyond. `None` is an
        IndexError. */
    method Update(index: int, value: real) returns (r: Option<bool>)
      requires Valid()
      modifies this`items, this`log
      ensures Valid()
      ensures r.None? <==> index < 0
      ensures r.None? ==> items == old(items) && log == old(log)
      ensures r.Some? ==> log == old(log) + [Item(index, value)]
      ensures r.Some? ==> forall t ::
        At(items, t) == if index <= t then Improve(direction, At(old(items), t), value) else At(old(items), t)
      ensures r == Some(false) ==> items == old(items)
      ensures r == Some(true) ==> At(items, index) == Some(value) && At(old(items), index) != Some(value)
    {
      hide Sorted, Refines, Bisect, Cut, Spliced;
      if index < 0 {
        return None;
      }
      var right := Bisect(items, index);
      BisectSplits(direction, items, index);
      ghost var was, now := items, log + [Item(index, value)];
      ghost var p: nat := right;
      if Has(items, index) {
        if Skip(direction, items[right - 1].value, value) {
          log := now;
          Unchanged(direction, items, old(log), index, value);
          return Some(false);
        }
        p := right - 1;
        items := items[right - 1 := Item(index, value)];
      } else {
        if right > 0 && Skip(direction, items[right - 1].value, value) {
          log := now;
          Unchanged(direction, items, old(log), index, value);
          return Some(false);
        }
        items := items[..right] + [Item(index, value)] + items[right..];
        right := right + 1;
      }
      ghost var q := Propagate(was, p, right, value);
      log := now;
      CutFrom(direction, was, p, q, index, value);
      assert items == Spliced(was, p, q, index, value) by { SplicedIs(was, p, q, index, value); }
      Spread(direction, was, p, q, index, value, old(log));
      r := Some(true);
    }

    /** `_propagate`: deletes the items from `keyIndex` on that the new value makes pointless. */
    method Propagate(ghost was: seq<Item>, ghost p: nat, keyIndex: nat, value: real) returns (ghost q: nat)
      requires 0 < keyIndex <= |items|
      requires Sorted(direction, was) && p <= |was| && (keyIndex == p + 1)
      requires |was| - |items| + keyIndex >= p && |items| >= keyIndex
      requires items[keyIndex..] == was[|was| - |items| + keyIndex..] && items[..p] == was[..p]
      modifies this`items
      ensures |was| - |old(items)| + keyIndex <= q <= |was|
      ensures items == old(items)[..keyIndex] + was[q..]
      ensures forall i | |was| - |old(items)| + keyIndex <= i < q :: Skip(direction, value, was[i].value)
      ensures q < |was| ==> !Skip(direction, value, was[q].value)
    {
      hide Sorted;
      ghost var base := |was| - |items| + keyIndex;
      var snapshot := items[keyIndex..];
      var n := 0;
      while n < |snapshot| && Skip(direction, value, snapshot[n].value)
        invariant n <= |snapshot|
        invariant items == old(items)[..keyIndex] + snapshot[n..]
        invariant forall i | 0 <= i < n :: Skip(direction, value, snapshot[i].value)
      {
        items := items[..keyIndex] + items[keyIndex + 1..];
        n := n + 1;
      }
      q := base + n;
      assert forall i | 0 <= i < |snapshot| :: snapshot[i] == was[base + i];
      assert snapshot[n..] == was[q..];
    }

    /** `update_from_seq`: merges the other sequence in, and tells whether anything got better. */
    method UpdateFromSeq(other: CumSequence) returns (any: bool)
      requires Valid() && other.Valid() && other.direction == direction
      modifies this`items, this`log
      ensures Valid() && log == old(log) + old(other.items)
      ensures forall t :: At(items, t) == ImproveBy(direction, At(old(items), t), At(old(other.items), t))
      ensures !any ==> items == old(items)
      ensures any ==> exists t :: t >= 0 && Rose(direction, At(old(items), t), At(items, t))
    {
      hide Sorted, Refines, At;
      any := false;
      var updates := other.items;
      ghost var start := items;
      ghost var w := 0;
      AtNothing();
      for i := 0 to |updates|
        invariant Valid() && log == old(log) + updates[..i]
        invariant forall t :: At(items, t) == ImproveBy(direction, At(start, t), At(updates[..i], t))
        invariant !any ==> items == start
        invariant any ==> w >= 0 && Rose(direction, At(start, w), At(items, w))
      {
        ghost var before := items;
        SortedKey(direction, updates, i);
        var updated := Update(updates[i].key, updates[i].value);
        assert updated.Some? && updated == Some(updated.value);
        if updated.value {
          w := if any then w else updates[i].key;
          any := true;
        }
        forall t ensures At(items, t) == ImproveBy(direction, At(start, t), At(updates[..i + 1], t)) {
          AtOneMore(direction, updates, i, t);
        }
        assert updates[..i] + [updates[i]] == updates[..i + 1];
      }
      assert updates[..|updates|] == updates;
    }

    /** `__getitem__`; `None` is an IndexError. */
    method GetItem(index: int) returns (r: Option<real>)
      requires Valid()
      ensures r == At(items, index)
      ensures index < 0 ==> r == None
    {
      hide Refines, Bisect;
      BisectSplits(direction, items, index);
      if Has(items, index) {
        return Some(items[Bisect(items, index) - 1].value);
      }
      if index < 0 {
        return None;
      }
      var n := Bisect(items, index);
      r := if n == 0 then None else Some(items[n - 1].value);
    }

    /** `__len__`: one more than the last index at which the dense sequence changes. */
    method Len() returns (n: nat)
      requires Valid()
      ensures n == Length(items)
      ensures n == 0 <==> forall t :: At(items, t) == None
      ensures n > 0 ==> At(items, n - 1) != At(items, n - 2) && forall t | t >= n :: At(items, t) == At(items, n - 1)
    {
      hide Refines, Bisect;
      n := Length(items);
      if items != [] {
        forall t | t >= n - 1 ensures Bisect(items, t) == |items| { BisectIs(direction, items, t, |items|); }
        BisectIs(direction, items, n - 2, |items| - 1);
        assert At(items, n - 1) != None;
      } else {
        forall t ensures At(items, t) == None { assert Bisect(items, t) == 0; }
      }
    }

    /** `__iter__` */
    method Iter() returns (r: Iteration)
      requires Valid()
      ensures r.Empty? <==> items == []
      ensures r.Failed? <==> items != [] && items[0].key != 0
      ensures r.Iterating? ==>
        fresh(r.it) && r.it.Valid() && r.it.items == items && r.it.direction == direction && r.it.index == 0
    {
      hide Refines;
      if items == [] {
        return Empty;
      }
      if items[0].key != 0 {
        return Failed;
      }
      var it := new HoleyIter(direction, items);
      r := Iterating(it);
    }

    /** `to_list`: the dense sequence, cropped or padded with its last value to `length` if there is one.
        `None` is the ValueError of the iterator. */
    method ToList(length: Option<int>) returns (r: Option<seq<real>>)
      requires Valid()
      ensures r.None? <==> items != [] && items[0].key != 0
      ensures items == [] ==> r == Some([])
      ensures r.Some? && items != [] ==> |r.value| == ListLength(items, length)
      ensures r.Some? && items != [] && length.None? ==> |r.value| == items[|items| - 1].key + 1
      ensures r.Some? && items != [] && length.Some? && length.value >= 0 ==> |r.value| == length.value
      ensures r.Some? && items != [] && length.Some? && length.value < 0 ==>
        (|r.value| == items[|items| - 1].key + 1 + length.value
          || (|r.value| == 0 > items[|items| - 1].key + length.value))
      ensures r.Some? ==> forall t | 0 <= t < |r.value| :: At(items, t) == Some(r.value[t])
    {
      hide Sorted, Refines, At;
      if items != [] { LengthIs(direction, items, |items|); SortedKey(direction, items, |items| - 1); }
      var dense := ToDenseList();
      if dense.None? || length.None? {
        return dense;
      }
      var out := dense.value;
      var padding := length.value - |out|;
      var cropped := if length.value < 0 then out[..Largest(0, |out| + length.value)]
        else if length.value <= |out| then out[..length.value] else out;
      if padding > 0 && |out| > 0 {
        forall t | t >= |out| ensures At(items, t) == At(items, |out| - 1) {
          AtBeyond(direction, items, t);
        }
        r := Some(cropped + seq(padding, _ => out[|out| - 1]));
      } else {
        r := Some(cropped);
      }
    }

    /** `list(self)` */
    method ToDenseList() returns (r: Option<seq<real>>)
      requires Valid()
      ensures r.None? <==> items != [] && items[0].key != 0
      ensures r.Some? ==> |r.value| == Length(items) && forall t | 0 <= t < |r.value| ::
        At(items, t) == Some(r.value[t])
      ensures items == [] ==> r == Some([])
    {
      hide Sorted, Refines, At;
      var iteration := Iter();
      var out: seq<real> := [];
      match iteration {
        case Failed => return None;
        case Empty =>
        case Iterating(it) =>
          var next := it.Next();
          while next.Some?
            invariant it.Valid() && it.items == items && it.direction == direction
            invariant fresh(it) && it.index <= Length(items)
            invariant |out| == it.index - (if next.Some? then 1 else 0)
            invariant next.Some? ==> At(items, |out|) == next
            invariant next.None? ==> |out| == Length(items)
            invariant forall t | 0 <= t < |out| :: At(items, t) == Some(out[t])
            decreases Length(items) - |out|, next.Some?
          {
            out := out + [next.value];
            next := it.Next();
          }
      }
      r := Some(out);
    }
  }

  function ListLength(items: seq<Item>, length: Option<int>): nat {
    if length.None? then Length(items) else if length.value >= 0 then length.value
    else Largest(0, Length(items) + length.value)
  }

  function Largest(a: int, b: int): int {
    if a < b then b else a
  }

  /** One more than the last key. */
  function Length(items: seq<Item>): nat {
    if items == [] || items[|items| - 1].key < 0 then 0 else items[|items| - 1].key + 1
  }

  /** The result of asking for an iterator: none is needed, the first key is not zero, or an iterator. */
  datatype Iteration = Empty | Failed | Iterating(it: HoleyIter)

  /** `_HoleyIter`: yields the dense sequence, reading the critical values one ahead. */
  class HoleyIter {
    const direction: Direction
    const items: seq<Item>
    var read: nat
    var index: int
    var currValue: real
    var nextIndex: int
    var nextValue: real
    var finished: bool

    ghost predicate Valid()
      reads this
    {
      && Sorted(direction, items) && 1 <= read <= |items| && items[0].key == 0
      && (if finished then
            && read == |items| && currValue == items[read - 1].value && nextIndex == items[read - 1].key + 1
            && items[read - 1].key <= index <= nextIndex
          else
            && read >= 2 && currValue == items[read - 2].value && nextIndex == items[read - 1].key
              && nextValue == items[read - 1].value
            && items[read - 2].key <= index <= nextIndex)
    }

    constructor (direction: Direction, items: seq<Item>)
      requires Sorted(direction, items) && items != [] && items[0].key == 0
      ensures Valid() && this.items == items && this.direction == direction && index == 0
    {
      this.direction, this.items := direction, items;
      read, index, currValue, nextValue, finished, nextIndex := 1, items[0].key, items[0].value, 0.0, false, 0;
      new;
      Advance();
    }

    /** `_advance` */
    method Advance()
      requires Sorted(direction, items) && 1 <= read <= |items| && items[0].key == 0
      requires !finished && index == items[read - 1].key && currValue == items[read - 1].value
      modifies this`read, this`nextIndex, this`nextValue, this`finished
      ensures Valid()
    {
      if read < |items| {
        nextIndex, nextValue := items[read].key, items[read].value;
        read := read + 1;
      } else {
        nextIndex := index + 1;
        finished := true;
      }
    }

    /** `__next__`; `None` is StopIteration. */
    method Next() returns (r: Option<real>)
      requires Valid()
      modifies this
      ensures Valid()
      ensures old(index) < Length(items) ==> r.Some? && r == At(items, old(index)) && index == old(index) + 1
      ensures old(index) >= Length(items) ==> r == None && index == old(index)
      ensures index <= Length(items)
    {
      hide Bisect;
      LengthIs(direction, items, read);
      if index == nextIndex {
        if finished {
          return None;
        }
        currValue := nextValue;
        Advance();
      }
      BisectIs(direction, items, index, if finished then read else read - 1);
      index := index + 1;
      r := Some(currValue);
    }
  }

  lemma {:induction false} LengthIs(d: Direction, items: seq<Item>, k: nat)
    requires Sorted(d, items) && 1 <= k <= |items|
    ensures items[k - 1].key < Length(items) && (k == |items| ==> Length(items) == items[k - 1].key + 1)
  {}

  /** `new_` is a value, better than `old_` if that is one. */
  predicate Rose(d: Direction, old_: Option<real>, new_: Option<real>) {
    new_.Some? && (old_.None? || !Skip(d, old_.value, new_.value))
  }

  lemma {:induction false} AtNothing()
    ensures forall t :: At([], t) == None
  {}

  lemma {:induction false} SortedKey(d: Direction, items: seq<Item>, i: nat)
    requires Sorted(d, items) && i < |items|
    ensures items[i].key >= 0
  {}

  lemma {:induction false} AtBeyond(d: Direction, items: seq<Item>, t: int)
    requires Sorted(d, items) && items != [] && t >= Length(items)
    ensures At(items, t) == At(items, Length(items) - 1)
  {
    BisectIs(d, items, t, |items|);
    BisectIs(d, items, Length(items) - 1, |items|);
  }

  lemma {:induction false} AtOneMore(d: Direction, items: seq<Item>, i: nat, t: int)
    requires Sorted(d, items) && i < |items|
    ensures At(items[..i + 1], t) == if items[i].key <= t then Some(items[i].value) else At(items[..i], t)
    ensures items[i].key <= t && At(items[..i], t).Some? ==> !Skip(d, At(items[..i], t).value, items[i].value)
  {
    var n := Bisect(items[..i], t);
    assert items[..i + 1][..i] == items[..i];
    assert Bisect(items[..i + 1], t) == if items[i].key <= t then i + 1 else n;
    hide Bisect;
    assert n > 0 ==> items[..i][n - 1] == items[n - 1];
    assert n > 0 ==> !Skip(d, items[n - 1].value, items[i].value);
  }

  /** The dense sequence changes at the last key. */
  lemma {:induction false} ChangesAtLast(d: Direction, items: seq<Item>, t: int)
    requires Sorted(d, items) && items != []
    ensures var last := items[|items| - 1];
      && (t >= last.key ==> At(items, t) == Some(last.value))
        && (t < last.key ==> At(items, t) == At(items[..|items| - 1], t))
      && (t >= last.key ==> At(items[..|items| - 1], t) == At(items, last.key - 1))
        && At(items, last.key - 1) != Some(last.value)
  {
    hide At, Bisect, Sorted;
    var n := |items|;
    var k := items[n - 1].key;
    assert items[..n] == items;
    AtOneMore(d, items, n - 1, t);
    AtOneMore(d, items, n - 1, k - 1);
    AtOneMore(d, items, n - 1, k);
    BeyondKeys(d, items, k);
    if t >= k { BeyondKeys(d, items, t); }
  }

  lemma {:induction false} BeyondKeys(d: Direction, items: seq<Item>, t: int)
    requires Sorted(d, items) && items != [] && t >= items[|items| - 1].key
    ensures At(items[..|items| - 1], t) == At(items[..|items| - 1], items[|items| - 1].key - 1)
  {
    hide Bisect;
    BisectIs(d, items[..|items| - 1], t, |items| - 1);
    BisectIs(d, items[..|items| - 1], items[|items| - 1].key - 1, |items| - 1);
  }

  /** The critical values are determined by the dense sequence. */
  lemma {:induction false} DenseDetermines(d: Direction, a: seq<Item>, b: seq<Item>)
    requires Sorted(d, a) && Sorted(d, b) && forall t :: At(a, t) == At(b, t)
    ensures a == b
  {
    hide At, Bisect;
    AtNothing();
    if a == [] || b == [] {
      if a != [] { ChangesAtLast(d, a, a[|a| - 1].key); }
      if b != [] { ChangesAtLast(d, b, b[|b| - 1].key); }
    } else {
      var x, y := a[|a| - 1], b[|b| - 1];
      ChangesAtLast(d, a, x.key); ChangesAtLast(d, a, y.key); ChangesAtLast(d, a, y.key - 1);
      ChangesAtLast(d, b, x.key); ChangesAtLast(d, b, y.key); ChangesAtLast(d, b, x.key - 1);
      assert x == y;
      var a', b' := a[..|a| - 1], b[..|b| - 1];
      forall t ensures At(a', t) == At(b', t) {
        ChangesAtLast(d, a, t);
        ChangesAtLast(d, b, t);
      }
      DenseDetermines(d, a', b');
      assert a == a' + [x] && b == b' + [y];
    }
  }

  lemma {:induction false} SplicedIs(items: seq<Item>, p: nat, q: nat, index: int, value: real)
    requires p <= q <= |items|
    ensures Spliced(items, p, q, index, value) == items[..p] + [Item(index, value)] + items[q..]
  {}

  lemma {:induction false} CutFrom(d: Direction, items: seq<Item>, p: nat, q: nat, index: int, value: real)
    requires Sorted(d, items) && index >= 0
    requires p == (if Has(items, index) then Bisect(items, index) - 1 else Bisect(items, index))
    requires Bisect(items, index) > 0 ==> !Skip(d, items[Bisect(items, index) - 1].value, value)
    requires Bisect(items, index) <= q <= |items|
    requires forall i | Bisect(items, index) <= i < q :: Skip(d, value, items[i].value)
    requires q < |items| ==> !Skip(d, value, items[q].value)
    ensures Cut(d, items, p, q, index, value)
  {
    BisectSplits(d, items, index);
    hide Bisect;
  }

  lemma {:induction false} Unchanged(d: Direction, items: seq<Item>, log: seq<Item>, index: int, value: real)
    requires Sorted(d, items) && Refines(d, items, log)
    requires Bisect(items, index) > 0 && Skip(d, items[Bisect(items, index) - 1].value, value)
    ensures Refines(d, items, log + [Item(index, value)])
    ensures forall t | index <= t :: At(items, t) == Improve(d, At(items, t), value)
  {
    hide Bisect, Running;
    forall t ensures index <= t ==> At(items, t) == Improve(d, At(items, t), value) {
      BisectSplits(d, items, index);
      BisectSplits(d, items, t);
    }
    forall t ensures At(items, t) == Running(d, log + [Item(index, value)], t) {
      RunningStep(d, log, Item(index, value), t);
    }
  }

  lemma {:induction false} Spread(d: Direction, items: seq<Item>, p: nat, q: nat, index: int, value: real,
      log: seq<Item>)
    requires Sorted(d, items) && Refines(d, items, log) && Cut(d, items, p, q, index, value)
    ensures Sorted(d, Spliced(items, p, q, index, value))
      && Refines(d, Spliced(items, p, q, index, value), log + [Item(index, value)])
    ensures forall t :: At(Spliced(items, p, q, index, value), t) == if index <= t then Improve(d, At(items, t), value)
      else At(items, t)
  {
    hide Bisect, Running, Spliced, At, Improve, Sorted;
    SplicedSorted(d, items, p, q, index, value);
    forall t ensures At(Spliced(items, p, q, index, value), t) == if index <= t then Improve(d, At(items, t), value)
      else At(items, t) {
      SplicedAt(d, items, p, q, index, value, t);
    }
    forall t ensures At(Spliced(items, p, q, index, value), t) == Running(d, log + [Item(index, value)], t) {
      RunningStep(d, log, Item(index, value), t);
    }
  }
}