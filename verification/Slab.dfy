/** Two plainer allocators: the client slab, handed out by a bump index and then by a free
    list, and the pool of spill blocks. */
module Slab {
  import opened ThreadedLists

  /** Connection objects.  The slab takes the addresses base .. base + cap; malloc() returns
      null or an address outside it and not in use. */
  class ClientSlab {
    const base: nat
    const cap: nat
    var used: nat
    var freeList: nat
    var nextFree: map<nat, nat>
    ghost var live: set<nat>     // handed out and not yet freed
    ghost var free: seq<nat>     // the free list

    ghost predicate Valid()
      reads this
    {
      && base != 0 && used <= cap && Threads(freeList, nextFree, free) && 0 !in live
      && (forall a :: a in free ==> base <= a < base + used && a !in live)
      && (forall a :: base <= a < base + used ==> a in live || a in free)
      && (forall a :: a in live ==> !(base + used <= a < base + cap))
    }

    constructor (base: nat, cap: nat)
      requires base != 0
      ensures Valid() && live == {} && this.base == base && this.cap == cap
    {
      this.base, this.cap, used, freeList := base, cap, 0, 0;
      nextFree, live, free := map[], {}, [];
    }

    /** A client nobody has: a slab slot while there is one, else what malloc gives. */
    method Alloc(room: nat) returns (c: nat)
      requires Valid() && room !in live && !(base <= room < base + cap)
      modifies this
      ensures Valid() && c !in old(live)
      ensures live == if c == 0 then old(live) else old(live) + {c}
      ensures base <= c < base + cap || (forall a :: base <= a < base + cap ==> a in old(live))
      ensures c == if old(freeList) != 0 then old(freeList) else if old(used) < cap then base + old(used) else room
    {
      if freeList != 0 {
        assert free == [freeList] + free[1..];
        assert freeList in free;
        c := freeList;
        freeList := nextFree[c];
        free := free[1..];
        assert c !in free && forall a :: a in old(free) <==> a == c || a in free;
      } else if used < cap {
        assert free == [];
        c := base + used;
        assert c !in live;
        used := used + 1;
      } else {
        assert free == [] && used == cap;
        c := room;
        if c == 0 {
          return;
        }
      }
      live := live + {c};
    }

    /** A slab slot goes to the free list, anything else to malloc. */
    method Free(c: nat)
      requires Valid() && c in live
      modifies this
      ensures Valid() && live == old(live) - {c}
      ensures free == if base <= c < base + cap then [c] + old(free) else old(free)
    {
      if base <= c < base + cap {
        ThreadsPush(freeList, nextFree, free, c);
        nextFree := nextFree[c := freeList];
        freeList := c;
        free := [c] + free;
      }
      live := live - {c};
    }
  }

  const SPILL_POOL_MAX: nat := 64

  /** The spill blocks, with at most one to a connection. */
  class SpillPool {
    var pool: nat
    var poolN: nat
    var first: map<nat, nat>
    var spill: map<nat, nat>     // tls_spill of each connection, 0 if it holds none
    ghost var held: map<nat, nat>  // the connection holding a block
    ghost var free: seq<nat>

    ghost predicate Valid()
      reads this
    {
      && Threads(pool, first, free) && poolN == |free| <= SPILL_POOL_MAX && 0 !in held
      && (forall b :: b in free ==> b !in held)
      && (forall c :: c in spill && spill[c] != 0 ==> spill[c] in held && held[spill[c]] == c)
      && (forall b :: b in held ==> held[b] in spill && spill[held[b]] == b)
    }

    constructor ()
      ensures Valid() && held == map[] && spill == map[] && free == []
    {
      pool, poolN, first, spill, held, free := 0, 0, map[], map[], map[], [];
    }

    /** A connection without a spill block gets one that no other connection has. */
    method Get(c: nat, room: nat) returns (block: nat)
      requires Valid() && (c in spill ==> spill[c] == 0) && room !in held && room !in free
      modifies this
      ensures Valid() && block !in old(held) && block == if old(pool) != 0 then old(pool) else room
      ensures spill == old(spill)[c := block]
      ensures held == if block == 0 then old(held) else old(held)[block := c]
    {
      block := pool;
      if block != 0 {
        assert block in free;
        assert free == [block] + free[1..];
        pool, poolN := first[block], poolN - 1;
        free := free[1..];
      } else {
        block := room;
      }
      spill := spill[c := block];
      if block != 0 {
        held := held[block := c];
      }
    }

    /** A connection gives its block back, if it has one; doing it twice does nothing more. */
    method Release(c: nat)
      requires Valid() && c in spill
      modifies this
      ensures Valid() && spill == old(spill)[c := 0] && held == old(held) - {old(spill)[c]}
      ensures old(spill)[c] == 0 ==>
                pool == old(pool) && poolN == old(poolN) && first == old(first) && free == old(free)
      ensures old(spill)[c] != 0 ==>
              free == if old(poolN) < SPILL_POOL_MAX then [old(spill)[c]] + old(free) else old(free)
    {
      var block := spill[c];
      spill := spill[c := 0];
      held := held - {block};
      if block != 0 && poolN < SPILL_POOL_MAX {
        ThreadsPush(pool, first, free, block);
        first, pool, poolN := first[block := pool], block, poolN + 1;
        free := [block] + free;
      }
    }
  }
}
