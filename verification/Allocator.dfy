/** The bump allocator and the memory it hands out. */
module Allocation {
  import opened RuntimeMemory

  /** Largest request that the allocator accepts. */
  const REQUEST_LIMIT: nat := 1000 * 1000000

  /** `mem[..maxSize]` is the allocator's buffer; the rest of memory, such as the stack, follows it. */
  class Allocator {
    const mem: array<Cell>
    const maxSize: nat
    var top: nat
    var peak: nat

    ghost predicate Valid()
      reads this
    {
      maxSize <= mem.Length && top <= peak <= maxSize && Aligned(top)
    }

    constructor (mem: array<Cell>, maxSize: nat, peak: nat)
      requires maxSize <= mem.Length && peak <= maxSize
      ensures Valid() && this.mem == mem && this.maxSize == maxSize && top == 0 && this.peak == peak
    {
      this.mem, this.maxSize, this.top, this.peak := mem, maxSize, 0, peak;
    }

    /** A failed assertion of the source stops the program; here it is the outcome `!ok`. */
    method Allocate(size: nat) returns (ok: bool, address: nat)
      requires Valid()
      modifies this`top, this`peak
      ensures ok <==>
        (size < 1000000000 && (old(top) + Padded(size) <= old(peak) || old(top) + Padded(size) < maxSize))
      ensures ok ==> Valid() && address == old(top) && top == old(top) + Padded(size)
      ensures ok ==> peak == if old(peak) < top then top else old(peak)
    {
      address := top;
      if size >= REQUEST_LIMIT { return false, address; }
      AlignedSum(top, Padded(size));
      top := top + Padded(size);
      if top > peak {
        peak := top;
        if top >= maxSize { return false, address; }
      }
      ok := true;
    }

    /** Any top is accepted; the invariants need one on an allocation boundary and not above the peak. */
    method Reset(mark: nat)
      modifies this`top
      ensures top == mark
      ensures old(Valid()) && mark <= peak && Aligned(mark) ==> Valid()
    {
      top := mark;
    }
  }

  /** Memory after `size` bytes from `source` were copied to `target`. */
  ghost function Copied(m: Memory, target: nat, source: nat, size: nat): (m': Memory)
    requires target + size <= |m| && source + size <= |m|
    ensures |m'| == |m|
    ensures forall q {:trigger m'[q]} | 0 <= q < |m| ::
      m'[q] == if target <= q < target + size then m[q - target + source] else m[q]
  {
    m[..target] + m[source..source + size] + m[target + size..]
  }

  method MemMove(mem: array<Cell>, target: nat, source: nat, size: nat)
    requires target + size <= mem.Length && source + size <= mem.Length
    modifies mem
    ensures mem[..] == Copied(old(mem[..]), target, source, size)
  {
    forall k | 0 <= k < size { mem[target + k] := mem[source + k]; }
  }

  /** Unlike `MemMove`, undefined on ranges that overlap. */
  method MemCpy(mem: array<Cell>, target: nat, source: nat, size: nat)
    requires target + size <= mem.Length && source + size <= mem.Length
    requires target + size <= source || source + size <= target
    modifies mem
    ensures mem[..] == Copied(old(mem[..]), target, source, size)
  {
    forall k | 0 <= k < size { mem[target + k] := mem[source + k]; }
  }
}
