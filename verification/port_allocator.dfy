/** Host port blocks: internal/vm/ports.go. */
module Ports {
  import opened Options

  const MAX_PORT: int := 65535
  const SERVICES: int := 5     // VNC, SSH, SSH2, RPC and Frida sit at offsets 0 to 4

  datatype PortBlock = PortBlock(base: int, vnc: int, ssh: int, ssh2: int, rpc: int, frida: int)

  function BlockFor(base: int): PortBlock {
    PortBlock(base, base, base + 1, base + 2, base + 3, base + 4)
  }

  function ServicePorts(b: PortBlock): set<int> {
    {b.vnc, b.ssh, b.ssh2, b.rpc, b.frida}
  }

  /** The k-th block base of the grid. */
  function Slot(base: int, size: int, k: nat): int { base + k * size }

  predicate Fits(b: int, size: int) { b + size - 1 <= MAX_PORT }

  ghost predicate OnGrid(base: int, size: int, b: int) {
    exists k: nat :: b == Slot(base, size, k)
  }

  /** The first free base at or after b, in steps of size. */
  function FirstFree(b: int, size: int, used: set<int>): Option<int>
    requires size >= 1
    decreases MAX_PORT + 1 - b
  {
    if !Fits(b, size) then None
    else if b !in used then Some(b)
    else FirstFree(b + size, size, used)
  }

  /** FirstFree finds the least free slot that fits, and fails only when every fitting slot is used. */
  lemma {:induction false} FirstFreeFrom(base: int, size: int, used: set<int>, k: nat)
    requires size >= 1
    ensures match FirstFree(Slot(base, size, k), size, used)
      case Some(b) =>
        && b !in used && Fits(b, size)
        && exists n: nat :: n >= k && b == Slot(base, size, n)
             && forall i: nat :: k <= i < n ==> Slot(base, size, i) in used
      case None => forall i: nat :: i >= k && Fits(Slot(base, size, i), size) ==> Slot(base, size, i) in used
    decreases MAX_PORT + 1 - Slot(base, size, k)
  {
    var b := Slot(base, size, k);
    if !Fits(b, size) {
      forall i: nat | i >= k ensures !Fits(Slot(base, size, i), size) { SlotsGrow(base, size, k, i); }
    } else if b in used {
      assert Slot(base, size, k + 1) == b + size;
      FirstFreeFrom(base, size, used, k + 1);
      match FirstFree(b + size, size, used)
      case Some(c) =>
        var n: nat :| n >= k + 1 && c == Slot(base, size, n)
                      && forall i: nat :: k + 1 <= i < n ==> Slot(base, size, i) in used;
        assert forall i: nat :: k <= i < n ==> Slot(base, size, i) in used;
      case None =>
    } else {
      assert Slot(base, size, k) == b;
    }
  }

  lemma SlotsGrow(base: int, size: int, i: nat, k: nat)
    requires size >= 1 && i <= k
    ensures Slot(base, size, i) <= Slot(base, size, k)
    ensures i < k ==> Slot(base, size, i) + size <= Slot(base, size, k)
  {
    assert (k - i) * size >= 0;
    if i < k { assert (k - i) * size == size + (k - i - 1) * size; assert (k - i - 1) * size >= 0; }
  }

  lemma LeastFree(base: int, size: int, used: set<int>)
    requires size >= 1
    ensures match FirstFree(base, size, used)
      case Some(b) =>
        && b !in used && Fits(b, size)
        && exists n: nat :: b == Slot(base, size, n) && forall i: nat :: i < n ==> Slot(base, size, i) in used
      case None => forall i: nat :: Fits(Slot(base, size, i), size) ==> Slot(base, size, i) in used
  {
    assert Slot(base, size, 0) == base;
    FirstFreeFrom(base, size, used, 0);
  }

  class PortAllocator {
    const base: int
    const blockSize: int
    var used: set<int>

    constructor (base: int, blockSize: int)
      requires blockSize >= 1
      ensures this.base == base && this.blockSize == blockSize && used == {}
    {
      this.base, this.blockSize, used := base, blockSize, {};
    }

    method Reserve(b: int)
      modifies this
      ensures used == old(used) + {b}
    {
      used := used + {b};
    }

    /** The least free block of the grid that fits below 65536. */
    method Allocate() returns (r: Option<PortBlock>)
      requires blockSize >= 1
      modifies this
      ensures match r
        case Some(blk) =>
          && FirstFree(base, blockSize, old(used)) == Some(blk.base) && blk == BlockFor(blk.base)
          && blk.base !in old(used) && used == old(used) + {blk.base} && Fits(blk.base, blockSize)
          && exists n: nat :: blk.base == Slot(base, blockSize, n)
               && forall i: nat :: i < n ==> Slot(base, blockSize, i) in old(used)
        case None =>
          && FirstFree(base, blockSize, old(used)) == None && used == old(used)
          && forall i: nat :: Fits(Slot(base, blockSize, i), blockSize) ==> Slot(base, blockSize, i) in old(used)
    {
      LeastFree(base, blockSize, used);
      var b := base;
      while b + blockSize - 1 <= MAX_PORT
        invariant FirstFree(base, blockSize, used) == FirstFree(b, blockSize, used)
        decreases MAX_PORT + 1 - b
      {
        if b !in used {
          used := used + {b};
          return Some(BlockFor(b));
        }
        b := b + blockSize;
      }
      r := None;
    }

    method Release(b: int)
      modifies this
      ensures used == old(used) - {b}
    {
      used := used - {b};
    }
  }

  /** Releasing what was just allocated restores the allocator, and the block is handed out next. */
  lemma ReleaseUndoesAllocate(base: int, size: int, used: set<int>)
    requires size >= 1 && FirstFree(base, size, used).Some?
    ensures var b := FirstFree(base, size, used).value;
      used + {b} - {b} == used && FirstFree(base, size, used + {b} - {b}) == Some(b)
  {
    LeastFree(base, size, used);
    var b := FirstFree(base, size, used).value;
    assert used + {b} - {b} == used;
  }

  /** The services of any two different grid blocks are disjoint exactly when blocks hold at least
      five ports. The configuration accepts four. */
  lemma ServicesDisjoint(base: int, size: int)
    requires size >= 1
    ensures (forall i: nat, k: nat :: i < k ==>
               ServicePorts(BlockFor(Slot(base, size, i))) !! ServicePorts(BlockFor(Slot(base, size, k))))
            <==> size >= SERVICES
  {
    if size >= SERVICES {
      forall i: nat, k: nat | i < k
        ensures ServicePorts(BlockFor(Slot(base, size, i))) !! ServicePorts(BlockFor(Slot(base, size, k)))
      {
        SlotsGrow(base, size, i, k);
      }
    } else {
      var p := Slot(base, size, 1);
      assert Slot(base, size, 0) == base && p == base + size;
      assert p in ServicePorts(BlockFor(Slot(base, size, 0)));
      assert p in ServicePorts(BlockFor(Slot(base, size, 1)));
    }
  }

  /** Every service port of a block that fits is a valid port, exactly when blocks hold five ports. */
  lemma ServicesInRange(size: int)
    requires size >= 1
    ensures (forall b: int :: 1024 <= b && Fits(b, size) ==>
               forall p :: p in ServicePorts(BlockFor(b)) ==> 1024 <= p <= MAX_PORT)
            <==> size >= SERVICES
  {
    if size < SERVICES {
      var b := MAX_PORT - size + 1;
      assert 1024 <= b && Fits(b, size) && b + 4 in ServicePorts(BlockFor(b));
    }
  }

  /** At block size four a block's Frida port is its successor's VNC port. */
  lemma FourPortsCollide(base: int, k: nat)
    ensures BlockFor(Slot(base, 4, k)).frida == BlockFor(Slot(base, 4, k + 1)).vnc
  {
    assert Slot(base, 4, k + 1) == Slot(base, 4, k) + 4;
  }
}
