/** Multi-dimensional indices of tensors, their row-major positions, and `build`. */
module TensorIndex {
  import opened RuntimeMemory

  type Index = seq<nat>

  predicate InRange(index: Index, size: Index) {
    |index| == |size| && forall k | 0 <= k < |size| :: index[k] < size[k]
  }

  /** `flatten_index_recursive`: the last index varies fastest. */
  function FlattenIndex(index: Index, size: Index): nat
    requires 1 <= |index| == |size|
  {
    var d := |index| - 1;
    if d == 0 then index[0] else index[d] + size[d] * FlattenIndex(index[..d], size[..d])
  }

  function Quotient(p: nat, b: nat): nat { if b == 0 then 0 else p / b }

  function Remainder(p: nat, b: nat): nat { if b == 0 then p else p % b }

  /** The index at a row-major position. */
  function UnflattenIndex(position: nat, size: Index): (index: Index)
    ensures |index| == |size|
    decreases |size|
  {
    if size == [] then [] else
      var d := |size| - 1;
      UnflattenIndex(Quotient(position, size[d]), size[..d]) + [Remainder(position, size[d])]
  }

  lemma {:induction false} QuotientRemainder(p: nat, a: nat, b: nat)
    requires p < a * b
    ensures Quotient(p, b) < a && Remainder(p, b) < b && p == Remainder(p, b) + b * Quotient(p, b)
  {
    assert b > 0;
    if a <= p / b { MulMonotone(a, p / b, b); }
  }

  lemma {:induction false} MulMonotone(a: nat, c: nat, b: nat)
    requires a <= c
    ensures a * b <= c * b && b * a <= b * c
  {
  }

  lemma {:induction false} QuotientUnique(r: nat, b: nat, q: nat)
    requires r < b
    ensures Quotient(r + b * q, b) == q && Remainder(r + b * q, b) == r
  {
    var x := r + b * q;
    if q + 1 <= x / b { MulMonotone(q + 1, x / b, b); }
    if x / b + 1 <= q { MulMonotone(x / b + 1, q, b); }
  }

  lemma {:induction false} PositionBound(r: nat, b: nat, q: nat, n: nat)
    requires r < b && q < n
    ensures r + b * q < n * b
  {
    MulMonotone(q + 1, n, b);
  }

  lemma {:induction false} NumElementsSnoc(size: Index)
    requires 1 <= |size|
    ensures var d := |size| - 1; NumElements(size) == NumElements(size[..d]) * size[d]
    ensures |size| == 1 ==> NumElements(size[..0]) == 1 && NumElements(size) == size[0]
  {
    if |size| == 1 { assert size[..0] == []; }
  }

  /** `flatten_index` maps the indices in range into `[0, num_elements)`, and `UnflattenIndex` undoes it. */
  lemma {:induction false} FlattenInRange(index: Index, size: Index)
    requires 1 <= |size| && InRange(index, size)
    ensures FlattenIndex(index, size) < NumElements(size)
    ensures UnflattenIndex(FlattenIndex(index, size), size) == index
    decreases |size|
  {
    hide *;
    var d := |size| - 1;
    InRangePrefix(index, size, d);
    NumElementsSnoc(size);
    if d == 0 {
      FlattenOne(index, size);
    } else {
      var q := FlattenIndex(index[..d], size[..d]);
      FlattenInRange(index[..d], size[..d]);
      FlattenSnoc(index, size);
      PositionBound(index[d], size[d], q, NumElements(size[..d]));
      QuotientUnique(index[d], size[d], q);
      UnflattenSnoc(FlattenIndex(index, size), size);
      assert index == index[..d] + [index[d]];
    }
  }

  lemma {:induction false} InRangePrefix(index: Index, size: Index, d: nat)
    requires InRange(index, size) && d < |size|
    ensures |index| == |size| && InRange(index[..d], size[..d]) && index[d] < size[d]
  {
    hide NumElements;
  }

  lemma {:induction false} FlattenSnoc(index: Index, size: Index)
    requires 2 <= |index| == |size|
    ensures var d := |index| - 1; FlattenIndex(index, size) == index[d] + size[d] * FlattenIndex(index[..d], size[..d])
  {
    hide NumElements;
  }

  lemma {:induction false} UnflattenSnoc(position: nat, size: Index)
    requires 1 <= |size|
    ensures var d := |size| - 1;
      UnflattenIndex(position, size)
        == UnflattenIndex(Quotient(position, size[d]), size[..d]) + [Remainder(position, size[d])]
  {
    hide Quotient, Remainder;
  }

  lemma {:induction false} FlattenOne(index: Index, size: Index)
    requires |size| == 1 && InRange(index, size)
    ensures FlattenIndex(index, size) == index[0] < size[0] && UnflattenIndex(index[0], size) == index
  {
    hide Quotient, Remainder;
    QuotientUnique(index[0], size[0], 0);
    UnflattenSnoc(index[0], size);
    assert UnflattenIndex(0, size[..0]) == [];
    assert index == [] + [index[0]];
  }

  /** Row-major order: the last index varies fastest. */
  lemma {:induction false} RowMajor(i: nat, j: nat, k: nat, l: nat, m: nat, n: nat)
    ensures FlattenIndex([i], [l]) == i && FlattenIndex([i, j], [l, m]) == i * m + j
    ensures FlattenIndex([i, j, k], [l, m, n]) == (i * m + j) * n + k
    ensures NumElements([]) == 1 && NumElements([l]) == l && NumElements([l, m, n]) == l * m * n
  {
    assert [i, j][..1] == [i] && [l, m][..1] == [l] && [i, j, k][..2] == [i, j] && [l, m, n][..2] == [l, m];
    assert [l][..0] == [] && [l, m][..1] == [l];
    assert NumElements([l]) == l && NumElements([l, m]) == l * m;
  }

  /** Every position below `num_elements` is the position of an index in range: with
      `FlattenInRange`, a bijection. */
  lemma {:induction false} UnflattenInRange(position: nat, size: Index)
    requires 1 <= |size| && position < NumElements(size)
    ensures InRange(UnflattenIndex(position, size), size)
    ensures FlattenIndex(UnflattenIndex(position, size), size) == position
    decreases |size|
  {
    hide Quotient, Remainder, NumElements;
    var d := |size| - 1;
    NumElementsSnoc(size);
    QuotientRemainder(position, NumElements(size[..d]), size[d]);
    var q, r := Quotient(position, size[d]), Remainder(position, size[d]);
    var front := UnflattenIndex(q, size[..d]);
    var index := UnflattenIndex(position, size);
    assert index == front + [r];
    if d > 0 {
      UnflattenInRange(q, size[..d]);
      assert index[..d] == front;
      forall k | 0 <= k < |size| ensures index[k] < size[k] {
        if k < d { assert index[k] == front[k]; }
      }
    }
  }

  /** `num_elements` of the outer dimension times that of the rest. */
  lemma {:induction false} NumElementsSplit(size: Index)
    requires 1 <= |size|
    ensures NumElements(size) == size[0] * NumElements(size[1..])
  {
    var d := |size| - 1;
    if d == 0 {
      assert size[..0] == [] == size[1..];
    } else {
      NumElementsSplit(size[..d]);
      assert size[..d][1..] == size[1..][..d - 1];
      assert NumElements(size) == size[0] * NumElements(size[1..][..d - 1]) * size[d];
      MulAssociative(size[0], NumElements(size[1..][..d - 1]), size[d]);
    }
  }

  lemma {:induction false} MulAssociative(a: nat, b: nat, c: nat)
    ensures a * b * c == a * (b * c)
  {
  }

  /** The offset of the element reached by `t[i0][i1]...`: each `subtensor` step skips whole subtensors. */
  function SubtensorOffset(index: Index, size: Index): nat
    requires |index| == |size|
  {
    if index == [] then 0 else index[0] * NumElements(size[1..]) + SubtensorOffset(index[1..], size[1..])
  }

  /** Repeated `subtensor` reaches the same element as the flat index. */
  lemma {:induction false} SubtensorIsFlatten(index: Index, size: Index)
    requires 1 <= |index| == |size|
    ensures SubtensorOffset(index, size) == FlattenIndex(index, size)
  {
    var d := |size| - 1;
    if d == 0 {
      assert size[1..] == [] && index[1..] == [];
    } else {
      SubtensorIsFlatten(index[..d], size[..d]);
      SubtensorSnoc(index, size);
    }
  }

  lemma {:induction false} SubtensorSnoc(index: Index, size: Index)
    requires 1 <= |index| == |size|
    ensures var d := |size| - 1;
      SubtensorOffset(index, size) == index[d] + size[d] * SubtensorOffset(index[..d], size[..d])
  {
    hide NumElements;
    var d := |size| - 1;
    if d == 0 {
      NumElementsSnoc(size);
      assert size[1..] == [] == size[..0] && index[1..] == [] == index[..0];
    } else {
      SubtensorSnoc(index[1..], size[1..]);
      assert index[1..][..d - 1] == index[..d][1..] && size[1..][..d - 1] == size[..d][1..];
      var inner := SubtensorOffset(index[..d][1..], size[..d][1..]);
      var n := NumElements(size[..d][1..]);
      assert NumElements(size[1..]) == n * size[d] by { NumElementsSnoc(size[1..]); }
      Distribute(index[0], n, size[d], inner);
      assert SubtensorOffset(index[..d], size[..d]) == index[0] * n + inner;
    }
  }

  lemma {:induction false} Distribute(a: nat, n: nat, b: nat, c: nat)
    ensures a * (n * b) + b * c == b * (a * n + c)
  {
    assert a * (n * b) == b * (a * n);
  }

  // ---------------------------------------------------------------- build

  /** Within a tensor, the positions with outer index `i` follow those with smaller ones. */
  lemma {:induction false} UnflattenOuter(i: nat, k: nat, size: Index)
    requires 1 <= |size| && i < size[0] && k < NumElements(size[1..])
    ensures UnflattenIndex(i * NumElements(size[1..]) + k, size) == [i] + UnflattenIndex(k, size[1..])
  {
    hide NumElements, UnflattenIndex, FlattenIndex;
    var rest := size[1..];
    var inner := UnflattenIndex(k, rest);
    var index := [i] + inner;
    assert index[1..] == inner;
    if rest == [] {
      NumElementsSnoc(size);
      assert size[..0] == [] == rest;
      OneDimension(i, k, size);
    } else {
      UnflattenInRange(k, rest);
      SubtensorIsFlatten(inner, rest);
    }
    SubtensorIsFlatten(index, size);
    FlattenInRange(index, size);
  }

  lemma {:induction false} OneDimension(i: nat, k: nat, size: Index)
    requires |size| == 1 && i < size[0] && k < NumElements(size[1..])
    ensures k == 0 && NumElements(size[1..]) == 1 && FlattenIndex([i] + UnflattenIndex(k, size[1..]), size) == i
    ensures SubtensorOffset(UnflattenIndex(k, size[1..]), size[1..]) == k
  {
    assert size[1..] == [];
  }

  /** The elements `from..to` of an array are those of `f` in row-major order of `size`, below `higher`. */
  ghost predicate Built<T>(s: seq<T>, position: nat, count: nat, f: Index -> T, higher: Index, size: Index) {
    position + count <= |s| && forall k | 0 <= k < count :: s[position + k] == f(higher + UnflattenIndex(k, size))
  }

  /** Fills in the elements below `higher` through a running position, which ends behind the last of them. */
  method DoBuild<T>(size: Index, data: array<T>, position: nat, f: Index -> T, higher: Index) returns (next: nat)
    requires |higher| < |size| && position + NumElements(size[|higher|..]) <= data.Length
    modifies data
    ensures next == position + NumElements(size[|higher|..])
    ensures Built(data[..], position, next - position, f, higher, size[|higher|..])
    ensures forall q | 0 <= q < data.Length && !(position <= q < next) :: data[q] == old(data[q])
    decreases |size| - |higher|
  {
    hide NumElements, UnflattenIndex, Built;
    var thisDimension := size[|higher|];
    ghost var sub := size[|higher|..];
    ghost var n := NumElements(sub[1..]);
    assert sub[1..] == size[|higher| + 1..];
    NumElementsSplit(sub);
    next := position;
    BuiltNone(data[..], position, f, higher, sub);
    for i := 0 to thisDimension
      invariant next == position + i * n
      invariant next <= data.Length && Built(data[..], position, i * n, f, higher, sub)
      invariant forall q | 0 <= q < data.Length && !(position <= q < next) :: data[q] == old(data[q])
    {
      PositionsLeft(i, thisDimension, n);
      ghost var before := data[..];
      if |higher| + 1 == |size| {
        BuildOne(i, sub);
        data[next] := f(higher + [i]);
        BuiltHere(data[..], next, f, higher + [i], sub[1..]);
        next := next + 1;
      } else {
        next := DoBuild(size, data, next, f, higher + [i]);
      }
      BuiltRow(before, data[..], position, i, n, f, higher, sub);
    }
  }

  lemma {:induction false} BuiltNone<T>(s: seq<T>, position: nat, f: Index -> T, higher: Index, size: Index)
    requires position <= |s|
    ensures Built(s, position, 0, f, higher, size)
  {}

  lemma {:induction false} BuiltHere<T>(s: seq<T>, position: nat, f: Index -> T, higher: Index, size: Index)
    requires position < |s| && s[position] == f(higher) && UnflattenIndex(0, size) == []
    ensures Built(s, position, 1, f, higher, size)
  {
    assert higher + [] == higher;
  }

  lemma {:induction false} PositionsLeft(i: nat, d: nat, n: nat)
    requires i < d
    ensures i * n + n == (i + 1) * n <= d * n
  {
    MulMonotone(i + 1, d, n);
  }

  lemma {:induction false} BuildOne(i: nat, sub: Index)
    requires |sub| == 1 && i < sub[0]
    ensures NumElements(sub[1..]) == 1 && UnflattenIndex(0, sub[1..]) == []
  {
    assert sub[1..] == [];
  }

  lemma {:induction false} BuiltRow<T>(before: seq<T>, after: seq<T>, position: nat, i: nat, n: nat, f: Index -> T,
      higher: Index, sub: Index)
    requires 1 <= |sub| && i < sub[0] && n == NumElements(sub[1..]) && |before| == |after|
    requires Built(before, position, i * n, f, higher, sub)
    requires Built(after, position + i * n, n, f, higher + [i], sub[1..])
    requires position + i * n <= |before| && forall q | 0 <= q < position + i * n :: after[q] == before[q]
    ensures Built(after, position, (i + 1) * n, f, higher, sub)
  {
    hide NumElements, UnflattenIndex;
    PositionsLeft(i, sub[0], n);
    forall k | 0 <= k < (i + 1) * n
      ensures after[position + k] == f(higher + UnflattenIndex(k, sub))
    {
      if k < i * n {
        assert after[position + k] == before[position + k];
      } else {
        var j := k - i * n;
        assert after[position + i * n + j] == f(higher + [i] + UnflattenIndex(j, sub[1..]));
        UnflattenOuter(i, j, sub);
        assert higher + [i] + UnflattenIndex(j, sub[1..]) == higher + ([i] + UnflattenIndex(j, sub[1..]));
      }
    }
  }

  /** `build` stores `f(index)` at exactly the flat position of `index`. */
  method Build<T(0)>(size: Index, f: Index -> T) returns (ret: array<T>)
    requires 1 <= |size|
    ensures fresh(ret) && ret.Length == NumElements(size)
    ensures forall index | InRange(index, size) ::
      FlattenIndex(index, size) < ret.Length && ret[FlattenIndex(index, size)] == f(index)
  {
    hide NumElements, UnflattenIndex, FlattenIndex;
    ret := new T[NumElements(size)];
    assert size[0..] == size;
    var next := DoBuild(size, ret, 0, f, []);
    forall index | InRange(index, size)
      ensures FlattenIndex(index, size) < ret.Length && ret[FlattenIndex(index, size)] == f(index)
    {
      FlattenInRange(index, size);
      var k := FlattenIndex(index, size);
      assert ret[..][0 + k] == f([] + UnflattenIndex(k, size));
      assert [] + index == index;
    }
  }
}
