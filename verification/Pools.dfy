/** The pools behind the TLS write path, as the server and its connections use them.  malloc()
    may return null or any address not in use: `room` is what it would return. */
module Pools {
  import opened ThreadedLists
  import opened Ownership
  import opened PoolStore
  import opened PoolLinks
  import opened PoolState
  import opened TlsWrite

  ghost function Chained(x: State): set<nat> {
    set c, a | c in x.chain && a in x.chain[c] :: a
  }

  ghost function Oversized(x: State): set<nat> {
    set c | c in x.bigs && x.bigs[c] != 0 :: x.bigs[c]
  }

  /** Between operations: no block is in two responses, or in one and on the free list; the
      live counters are what the connections hold; and what malloc handed out is live,
      retained or freed. */
  lemma PoolConservation(x: State)
    requires Good(x) && x.hand == {}
    ensures Threads(x.s.pool, x.s.first, x.l.free) && x.s.n.poolN == |x.l.free| <= WBUF_POOL_MAX
    ensures forall c, a :: c in x.chain && a in x.chain[c] ==> a !in x.l.free
    ensures forall c, d, a :: c in x.chain && d in x.chain && a in x.chain[c] && a in x.chain[d] ==> c == d
    ensures x.s.n.live == |Chained(x)| && x.s.n.bigLive == |Oversized(x)|
    ensures x.s.n.mallocs == |Chained(x)| + |Oversized(x)| + |x.l.free| + (if x.s.bigbuf != 0 then 1 else 0) + x.l.freed
  {
    HeldIsChained(x);
    BigIsOversized(x);
    assert PartOk(Storage, x);
    forall c, a | c in x.chain && a in x.chain[c] ensures a !in x.l.free {
      OwnerOfChained(x, c, a);
      assert a in x.l.free <==> Listed(x.l.own, a, Pooled);
    }
    forall c, d, a | c in x.chain && d in x.chain && a in x.chain[c] && a in x.chain[d] ensures c == d {
      OwnerOfChained(x, c, a);
      OwnerOfChained(x, d, a);
    }
  }

  lemma OwnerOfChained(x: State, c: nat, a: nat)
    requires Good(x) && c in x.chain && a in x.chain[c]
    ensures Listed(x.l.own, a, Held(c)) && c in x.heads && Threads(x.heads[c], x.t.next, x.chain[c])
  {
    assert PartOk(Links, x);
    assert ChainOk(x.heads[c], x.t.next, c, x.chain[c], x.l.own);
  }

  lemma HeldIsChained(x: State)
    requires Good(x) && x.hand == {}
    ensures Of(x.l.own, HeldKind) == Chained(x)
  {
    forall a ensures a in Of(x.l.own, HeldKind) <==> a in Chained(x) {
      if a in Of(x.l.own, HeldKind) {
        HeldHasChain(x, a);
      }
      if a in Chained(x) {
        var c :| c in x.chain && a in x.chain[c];
        OwnerOfChained(x, c, a);
      }
    }
  }

  lemma HeldHasChain(x: State, a: nat)
    requires Good(x) && x.hand == {} && a in x.l.own && x.l.own[a].Held?
    ensures x.l.own[a].c in x.chain && a in x.chain[x.l.own[a].c]
  {
    assert PartOk(Links, x) && PartOk(Hands, x);
    var c := x.l.own[a].c;
    assert c != 0 by {
      assert Listed(x.l.own, a, Held(0)) ==> a in x.hand;
    }
    assert ChainOk(x.heads[c], x.t.next, c, x.chain[c], x.l.own);
    assert Listed(x.l.own, a, Held(c));
  }

  lemma BigIsOversized(x: State)
    requires Good(x) && x.hand == {}
    ensures Of(x.l.own, BigKind) == Oversized(x)
  {
    assert PartOk(Links, x) && PartOk(Hands, x) && PartOk(Storage, x);
    forall a ensures a in Of(x.l.own, BigKind) <==> a in Oversized(x) {
      assert Listed(x.l.own, a, Big(0)) ==> a in x.hand;
    }
  }

  /** Once every connection is closed, nothing is live, nothing of picotls's is left, and the
      heap is the free list and the retained buffer. */
  lemma AllReturned(x: State)
    requires Good(x) && x.hand == {} && x.chain == map[]
    ensures x.s.n.live == 0 && x.s.n.bigLive == 0
    ensures x.s.n.mallocs == |x.l.free| + (if x.s.bigbuf != 0 then 1 else 0) + x.l.freed
    ensures forall a :: a in x.l.own <==> a in x.l.free || (a == x.s.bigbuf && a != 0)
  {
    PoolConservation(x);
    NoBigs(x);
    HeldIsChained(x);
    BigIsOversized(x);
    assert Chained(x) == {} && Oversized(x) == {};
    forall a ensures a in x.l.own <==> a in x.l.free || (a == x.s.bigbuf && a != 0) {
      OwnerKinds(x, a);
    }
  }

  lemma NoBigs(x: State)
    requires Good(x) && x.chain == map[]
    ensures x.bigs == map[]
  {
    assert PartOk(Links, x);
  }

  lemma OwnerKinds(x: State, a: nat)
    requires Good(x) && x.hand == {} && x.chain == map[] && Of(x.l.own, HeldKind) == {} && Of(x.l.own, BigKind) == {}
    ensures a in x.l.own <==> a in x.l.free || (a == x.s.bigbuf && a != 0)
  {
    assert PartOk(Storage, x) && PartOk(Links, x);
    assert a in x.l.free <==> Listed(x.l.own, a, Pooled);
    assert a in x.l.own && x.l.own[a].Held? ==> a in Of(x.l.own, HeldKind);
    assert a in x.l.own && x.l.own[a].Big? ==> a in Of(x.l.own, BigKind);
    SwappedForHeld(x, a);
  }

  lemma SwappedForHeld(x: State, a: nat)
    requires Good(x)
    ensures a in x.l.own && x.l.own[a].Swapped? ==> x.l.own[a].b in Of(x.l.own, HeldKind)
  {
    assert PartOk(Links, x);
  }

  lemma PoolBounded(x: State)
    requires Good(x)
    ensures x.s.n.poolN <= WBUF_POOL_MAX
  {
    assert PartOk(Storage, x);
  }

  /** The response that starts with block `b` is in the oversized buffer. */
  predicate CarriesBig(t: Trailers, b: nat, big: nat) {
    b != 0 && big != 0 && b in t.base && b in t.capacity && t.base[b] == big
  }

  /** The pool keeps no more blocks than this. */
  function Capped(n: nat): nat {
    if n < WBUF_POOL_MAX then n else WBUF_POOL_MAX
  }

  /** Which of two oversized buffers the slot ends up with: the larger, unless too large to keep. */
  function Retains(slot: nat, slotCap: nat, buf: nat, cap: nat): nat {
    if cap > BIGBUF_KEEP_MAX || (slot != 0 && cap <= slotCap) then slot else buf
  }

  class Pools {
    var s: Store
    var t: Trailers
    var wblock: map<nat, nat>    // tls_wblock and tls_wbig of each connection
    var wbig: map<nat, nat>
    ghost var chain: map<nat, seq<nat>>  // the blocks of each connection's response, in order
    ghost var l: Ledger

    /** The state while `hand` is taken or unlinked, and the pointers of the connections are
        as given. */
    ghost function During(heads: map<nat, nat>, bigs: map<nat, nat>, hand: set<nat>): State
      reads this
    {
      State(s, t, heads, bigs, chain, l, hand)
    }

    ghost function Now(): State
      reads this
    {
      During(wblock, wbig, {})
    }

    ghost predicate Valid()
      reads this
    {
      Good(Now())
    }

    constructor ()
      ensures Valid() && wblock == map[] && s.n == Counters(0, 0, 0, 0) && l.own == map[]
    {
      s := Store(0, map[], 0, 0, Counters(0, 0, 0, 0));
      t := Trailers(map[], map[], map[]);
      wblock, wbig := map[], map[];
      l := Ledger(map[], map[], [], 0);
      chain := map[];
      new;
      assert Of(l.own, HeldKind) == {} && Of(l.own, BigKind) == {};
      forall p ensures PartOk(p, Now()) {
      }
    }

    // ---- the pool and the slot ----

    /** The block comes from the free list while there is one, and is nobody else's. */
    method WbufGet(room: nat) returns (block: nat)
      requires Valid() && room !in l.own
      modifies this`s, this`l
      ensures block == if old(s.pool) != 0 then old(s.pool) else room
      ensures s.n.mallocs == old(s.n.mallocs) + (if old(s.pool) == 0 && room != 0 then 1 else 0)
      ensures block == 0 ==> Now() == old(Now())
      ensures block != 0 ==>
                && (block !in old(l.own) || old(l.own)[block] == Pooled)
                && l.own == old(l.own)[block := Held(0)]
                && Good(During(wblock, wbig, {block})) && Disposable(During(wblock, wbig, {block}), block)
    {
      block := s.pool;
      if block != 0 {
        PoppedGood(Now());
        s, l := Took(s), l.(own := l.own[s.pool := Held(0)], free := l.free[1..]);
        assert During(wblock, wbig, {block}) == Popped(old(Now()));
        return;
      }
      block := room;
      if block != 0 {
        MallocedGood(Now(), room, WBUF_SIZE, Held(0));
        s := s.(n := s.n.(mallocs := s.n.mallocs + 1, live := s.n.live + 1));
        l := l.(own := l.own[room := Held(0)], size := l.size[room := WBUF_SIZE]);
        assert During(wblock, wbig, {block}) == Malloced(old(Now()), room, WBUF_SIZE, Held(0));
      }
    }

    /** A block in hand goes to the free list, or to malloc when that is full. */
    method WbufPut(block: nat, ghost heads: map<nat, nat>, ghost bigs: map<nat, nat>)
      requires Good(During(heads, bigs, {block})) && Listed(l.own, block, Held(0)) &&
               Disposable(During(heads, bigs, {block}), block)
      modifies this`s, this`l
      ensures Good(During(heads, bigs, {}))
      ensures l.own == if old(s.n.poolN) < WBUF_POOL_MAX then old(l.own)[block := Pooled] else old(l.own) - {block}
      ensures s.n.live == old(s.n.live) - 1 && s.n.bigLive == old(s.n.bigLive) && s.n.mallocs == old(s.n.mallocs)
      ensures s.n.poolN == Capped(old(s.n.poolN) + 1) && s.bigbuf == old(s.bigbuf)
    {
      ghost var x := During(heads, bigs, {block});
      assert PartOk(Storage, x);
      BlockGivenGood(x, block);
      if s.n.poolN >= WBUF_POOL_MAX {
        s := s.(n := s.n.(live := s.n.live - 1));
        l := l.(own := l.own - {block}, freed := l.freed + 1);
      } else {
        s := Gave(s, block);
        l := l.(own := l.own[block := Pooled], free := [block] + l.free);
      }
      assert {block} - {block} == {};
      assert During(heads, bigs, {}) == BlockGiven(x, block);
    }

    /** The buffer is the retained one when that is large enough; either way it is as large
        as asked for, and nobody else's. */
    method BigbufGet(need: nat, room: nat) returns (buf: nat, cap: nat)
      requires Valid() && room !in l.own
      modifies this`s, this`l
      ensures buf == if old(s.bigbuf) != 0 && old(s.bigbufCap) >= need then old(s.bigbuf) else room
      ensures old(s.bigbuf) != 0 && old(s.bigbufCap) >= need ==> s.bigbuf == 0 && s.n.mallocs == old(s.n.mallocs)
      ensures buf == 0 ==> Now() == old(Now())
      ensures buf != 0 ==>
                && (buf !in old(l.own) || old(l.own)[buf] == Retained)
                && l.own == old(l.own)[buf := Big(0)] && buf in l.size && need <= cap == l.size[buf]
                && Good(During(wblock, wbig, {buf}))
    {
      buf := s.bigbuf;
      if buf != 0 && s.bigbufCap >= need {
        BigTakenGood(Now());
        cap := s.bigbufCap;
        l := l.(own := l.own[s.bigbuf := Big(0)]);
        s := s.(bigbuf := 0, bigbufCap := 0, n := s.n.(bigLive := s.n.bigLive + 1));
        assert During(wblock, wbig, {buf}) == BigTaken(old(Now()));
        return;
      }
      cap := need;
      buf := room;
      if buf != 0 {
        MallocedGood(Now(), room, need, Big(0));
        s := s.(n := s.n.(mallocs := s.n.mallocs + 1, bigLive := s.n.bigLive + 1));
        l := l.(own := l.own[room := Big(0)], size := l.size[room := need]);
        assert During(wblock, wbig, {buf}) == Malloced(old(Now()), room, need, Big(0));
      }
    }

    /** The buffer is retained or freed; when it is retained in place of another, that one
        is freed. */
    method BigbufPut(buf: nat, cap: nat, ghost heads: map<nat, nat>, ghost bigs: map<nat, nat>, ghost hand: set<nat>)
      requires Good(During(heads, bigs, hand)) && buf in hand && Listed(l.own, buf, Big(0))
      requires buf in l.size && l.size[buf] == cap
      modifies this`s, this`l
      ensures Good(During(heads, bigs, hand - {buf})) && l.size == old(l.size)
      ensures s.n.bigLive == old(s.n.bigLive) - 1 && s.n.live == old(s.n.live) && s.n.mallocs == old(s.n.mallocs)
      ensures l.own == if cap > BIGBUF_KEEP_MAX || (old(s.bigbuf) != 0 && cap <= old(s.bigbufCap))
              then old(l.own) - {buf}
                       else if old(s.bigbuf) == 0 then old(l.own)[buf := Retained]
                       else (old(l.own) - {old(s.bigbuf)})[buf := Retained]
      ensures old(s.bigbuf) in old(l.own) ==> old(l.own)[old(s.bigbuf)] == Retained
      ensures s.bigbuf == Retains(old(s.bigbuf), old(s.bigbufCap), buf, cap) && s.n.poolN == old(s.n.poolN)
    {
      ghost var x := During(heads, bigs, hand);
      SlotOwner(x);
      BigFreedGood(x, buf);
      if cap > BIGBUF_KEEP_MAX || (s.bigbuf != 0 && cap <= s.bigbufCap) {
        s := s.(n := s.n.(bigLive := s.n.bigLive - 1));
        l := l.(own := l.own - {buf}, freed := l.freed + 1);
        assert During(heads, bigs, hand - {buf}) == BigFreed(x, buf);
        return;
      }
      if s.bigbuf != 0 {
        EvictedGood(x);
        x := Evicted(x);
        l := l.(own := l.own - {s.bigbuf}, freed := l.freed + 1);
        s := s.(bigbuf := 0);
      }
      BigKeptGood(x, buf, cap);
      s := s.(bigbuf := buf, bigbufCap := cap, n := s.n.(bigLive := s.n.bigLive - 1));
      l := l.(own := l.own[buf := Retained]);
      assert During(heads, bigs, hand - {buf}) == BigKept(x, buf, cap);
    }

    // ---- responses ----

    method Connect(c: nat)
      requires Valid() && c !in chain && c != 0
      modifies this`wblock, this`wbig, this`chain
      ensures Valid() && chain == old(chain)[c := []]
      ensures wblock == old(wblock)[c := 0] && wbig == old(wbig)[c := 0]
    {
      AcceptedGood(Now(), c);
      wblock, wbig, chain := wblock[c := 0], wbig[c := 0], chain[c := []];
    }

    /** The first block of a response or a final write.  Both assign tls_wblock without looking;
        that an earlier chain has been released by then is what `Connection` counts `leaks` for,
        and `SingleCloseSingleWriter` proves there are none. */
    method OpenFirst(c: nat, room: nat) returns (block: nat)
      requires Valid() && c in chain && c in wblock && wblock[c] == 0 && c in wbig && wbig[c] == 0 && room !in l.own
      modifies this`s, this`t, this`l, this`wblock, this`chain
      ensures Valid() && block == if old(s.pool) != 0 then old(s.pool) else room
      ensures block == 0 ==> Now() == old(Now())
      ensures block != 0 ==> chain == old(chain)[c := [block]] && wblock == old(wblock)[c := block]
      ensures block != 0 ==> t == OpenedAt(old(t), block) && l.own == old(l.own)[block := Held(c)]
      ensures block != 0 ==> block !in old(l.own) || old(l.own)[block] == Pooled
    {
      block := WbufGet(room);
      if block != 0 {
        ghost var x := During(wblock, wbig, {block});
        FirstLinkedGood(x, c, block);
        wblock, t := wblock[c := block], OpenedAt(t, block);
        chain, l := chain[c := [block]], l.(own := l.own[block := Held(c)]);
        assert {block} - {block} == {};
        assert Now() == FirstLinked(x, c, block);
      }
    }

    /** A further block, behind the last one, whose trailer is at `seg`. */
    method OpenNext(c: nat, seg: nat, room: nat) returns (block: nat)
      requires Valid() && c in chain && chain[c] != [] && seg == Last(chain[c])
      requires c in wbig && wbig[c] == 0 && room !in l.own
      modifies this`s, this`t, this`l, this`chain
      ensures Valid() && block == if old(s.pool) != 0 then old(s.pool) else room
      ensures block == 0 ==> Now() == old(Now())
      ensures block != 0 ==> chain == old(chain)[c := old(chain)[c] + [block]] && l.own == old(l.own)[block := Held(c)]
      ensures block != 0 ==> block !in old(l.own) || old(l.own)[block] == Pooled
    {
      block := WbufGet(room);
      if block != 0 {
        ghost var x := During(wblock, wbig, {block});
        NextLinkedGood(x, c, block);
        t := OpenedAt(t.(next := t.next[seg := block]), block);
        chain, l := chain[c := chain[c] + [block]], l.(own := l.own[block := Held(c)]);
        assert {block} - {block} == {};
        assert Now() == NextLinked(x, c, block);
      }
    }

    /** The oversized buffer of a response: it is at least as large as asked for. */
    method OpenBig(c: nat, block: nat, need: nat, room: nat) returns (whole: nat)
      requires Valid() && c in chain && chain[c] == [block] && block in t.base && t.base[block] == block
      requires c in wbig && wbig[c] == 0 && room !in l.own
      modifies this`s, this`t, this`l, this`wbig
      ensures Valid()
      ensures whole == if old(s.bigbuf) != 0 && old(s.bigbufCap) >= need then old(s.bigbuf) else room
      ensures whole == 0 ==> Now() == old(Now())
      ensures whole != 0 ==> wbig == old(wbig)[c := whole] && l.own == old(l.own)[whole := Big(c)]
      ensures whole != 0 ==> block in t.base && t.base[block] == whole && whole in l.size && l.size[whole] >= need
      ensures whole != 0 ==> whole !in old(l.own) || old(l.own)[whole] == Retained
    {
      var cap;
      whole, cap := BigbufGet(need, room);
      if whole != 0 {
        ghost var x := During(wblock, wbig, {whole});
        BigLinkedGood(x, c, block, whole, cap);
        wbig := wbig[c := whole];
        t := t.(base := t.base[block := whole], capacity := t.capacity[block := cap]);
        l := l.(own := l.own[whole := Big(c)]);
        assert {whole} - {whole} == {};
        assert Now() == BigLinked(x, c, block, whole, cap);
      }
    }

    /** picotls moves a block's ciphertext to a buffer of its own. */
    method Swap(block: nat, room: nat, cap: nat)
      requires Valid() && block in l.own && l.own[block].Held? && room != 0 && room !in l.own
      modifies this`t, this`l
      ensures Valid() && block in old(t.base)
      ensures t.next == old(t.next) && t.base == old(t.base)[block := room]
      ensures l.own == SwappedOut(old(l.own), block, old(t.base)[block], room)
    {
      BaseSwappedGood(Now(), block, room, cap);
      l := l.(own := SwappedOut(l.own, block, t.base[block], room));
      t := t.(base := t.base[block := room], capacity := t.capacity[block := cap]);
      assert Now() == BaseSwapped(old(Now()), block, room, cap);
    }

    // ---- release ----

    /** What a block in hand points at goes back: to the slot when it is the oversized buffer,
        to malloc when it is picotls's, nowhere when it is the block itself. */
    method ReleaseBase(c: nat, block: nat, big: nat, ghost heads: map<nat, nat>, ghost bigs: map<nat, nat>)
        returns (bigReturned: bool)
      requires Good(During(heads, bigs, {block})) && Listed(l.own, block, Held(0)) &&
               Based(block, t, big, l.own, l.size)
      requires c in chain && c in bigs && bigs[c] == big
      requires big != 0 ==> chain[c] == [] && Listed(l.own, big, Big(c)) && c != 0
      modifies this`s, this`l
      ensures Good(During(heads, bigs[c := if bigReturned then 0 else big], {block}))
      ensures Listed(l.own, block, Held(0)) && Disposable(During(heads, bigs, {block}), block)
      ensures bigReturned == (big != 0 && t.base[block] == big)
      ensures s.n.live == old(s.n.live) && s.n.bigLive == old(s.n.bigLive) - (if bigReturned then 1 else 0)
      ensures s.n.mallocs == old(s.n.mallocs) && s.n.poolN == old(s.n.poolN)
      ensures s.bigbuf == if bigReturned then Retains(old(s.bigbuf), old(s.bigbufCap), big, t.capacity[block])
                          else old(s.bigbuf)
    {
      assert bigs[c := big] == bigs;
      ghost var x := During(heads, bigs, {block});
      bigReturned := big != 0 && t.base[block] == big;
      if bigReturned {
        BigDetachedGood(x, c);
        l := l.(own := l.own[big := Big(0)]);
        assert During(heads, bigs[c := 0], {block, big}) == BigDetached(x, c);
        BigbufPut(big, t.capacity[block], heads, bigs[c := 0], {block, big});
        assert {block, big} - {big} == {block};
      } else if t.base[block] != block {
        BaseDisposedGood(x, block);
        l := l.(own := l.own - {t.base[block]});
        assert During(heads, bigs, {block}) == BaseDisposed(x, block);
      }
    }

    /** One turn of the walk: a block of the response, and what it points at, go back. */
    method ReleaseSeg(c: nat, block: nat, big: nat, ghost heads: map<nat, nat>, ghost bigs: map<nat, nat>)
      returns (next: nat, bigReturned: bool)
      requires Good(During(heads, bigs, {}))
      requires c in heads && heads[c] == block != 0 && c in bigs && bigs[c] == big && c in chain && c != 0
      modifies this`s, this`l, this`chain
      ensures Good(During(heads[c := next], bigs[c := if bigReturned then 0 else big], {}))
      ensures old(chain)[c] != [] && chain == old(chain)[c := old(chain)[c][1..]]
      ensures big != 0 ==> chain[c] == []
      ensures bigReturned ==> big != 0
      ensures s.n.live == old(s.n.live) - 1 && s.n.bigLive == old(s.n.bigLive) - (if bigReturned then 1 else 0)
      ensures s.n.mallocs == old(s.n.mallocs) && s.n.poolN == Capped(old(s.n.poolN) + 1)
      ensures block in t.base && block in t.capacity && bigReturned == (big != 0 && t.base[block] == big)
      ensures s.bigbuf == if bigReturned then Retains(old(s.bigbuf), old(s.bigbufCap), big, t.capacity[block])
                          else old(s.bigbuf)
    {
      ghost var x := During(heads, bigs, {});
      HeadUnlinkedGood(x, c);
      next := t.next[block];
      l, chain := l.(own := l.own[block := Held(0)]), chain[c := chain[c][1..]];
      assert During(heads[c := next], bigs, {block}) == HeadUnlinked(x, c);
      bigReturned := ReleaseBase(c, block, big, heads[c := next], bigs);
      WbufPut(block, heads[c := next], bigs[c := if bigReturned then 0 else big]);
    }

    /** The walk over the chain that starts at `first`. */
    method ReleaseChain(c: nat, first: nat, big: nat, ghost heads: map<nat, nat>, ghost bigs: map<nat, nat>)
      returns (bigReturned: bool)
      requires Good(During(heads, bigs, {}))
      requires c in heads && heads[c] == first && c in bigs && bigs[c] == big && c in chain && c != 0
      modifies this`s, this`l, this`chain
      ensures Good(During(heads[c := 0], bigs[c := if bigReturned then 0 else big], {}))
      ensures chain == old(chain)[c := []] && bigReturned == CarriesBig(t, first, big)
      ensures s.bigbuf == if bigReturned then Retains(old(s.bigbuf), old(s.bigbufCap), big, t.capacity[first])
                          else old(s.bigbuf)
      ensures s.n.live == old(s.n.live) - |old(chain)[c]| && s.n.mallocs == old(s.n.mallocs)
      ensures s.n.bigLive == old(s.n.bigLive) - (if bigReturned then 1 else 0)
      ensures s.n.poolN == Capped(old(s.n.poolN) + |old(chain)[c]|)
      ensures first == 0 ==> s == old(s) && l == old(l)
    {
      var block := first;
      bigReturned := false;
      ghost var n0, now := |chain[c]|, bigs;
      assert heads[c := block] == heads;
      PoolBounded(During(heads, bigs, {}));
      while block != 0
        invariant c in chain && chain == old(chain)[c := chain[c]] && |chain[c]| <= n0
        invariant now == bigs[c := if bigReturned then 0 else big]
        invariant Good(During(heads[c := block], now, {}))
        invariant |chain[c]| == n0 ==> block == first && !bigReturned && s == old(s) && l == old(l)
        invariant |chain[c]| < n0 ==>
                    && first != 0 && bigReturned == CarriesBig(t, first, big) && (big != 0 ==> chain[c] == [])
                    && s.bigbuf == if bigReturned then Retains(old(s.bigbuf), old(s.bigbufCap), big, t.capacity[first])
                                   else old(s.bigbuf)
        invariant s.n.live == old(s.n.live) - (n0 - |chain[c]|) && s.n.mallocs == old(s.n.mallocs)
        invariant s.n.bigLive == old(s.n.bigLive) - (if bigReturned then 1 else 0)
        invariant s.n.poolN == Capped(old(s.n.poolN) + (n0 - |chain[c]|))
        decreases |chain[c]|
      {
        HeadUnlinkedGood(During(heads[c := block], now, {}), c);
        ghost var h := heads[c := block];
        block, bigReturned := ReleaseSeg(c, block, big, h, now);
        assert h[c := block] == heads[c := block];
        now := now[c := if bigReturned then 0 else big];
      }
      EmptyChain(During(heads[c := 0], now, {}), c);
    }

    /** Every block of the response goes back, with what picotls and the slot own of it;
        doing it twice does nothing more. */
    method Release(c: nat)
      requires Valid() && c in chain && c in wblock && c in wbig && c != 0
      modifies this`s, this`l, this`chain, this`wblock, this`wbig
      ensures Valid() && chain == old(chain)[c := []]
      ensures wblock == old(wblock)[c := 0] && wbig == old(wbig)[c := 0]
      ensures s.n.live == old(s.n.live) - |old(chain)[c]|
      ensures s.n.bigLive == old(s.n.bigLive) - (if old(wbig)[c] != 0 then 1 else 0)
      ensures s.n.mallocs == old(s.n.mallocs) && s.n.poolN == Capped(old(s.n.poolN) + |old(chain)[c]|)
      ensures var b, big := old(wblock)[c], old(wbig)[c];
              s.bigbuf == if CarriesBig(t, b, big) then Retains(old(s.bigbuf), old(s.bigbufCap), big, t.capacity[b])
                          else old(s.bigbuf)
      ensures old(wblock)[c] == 0 && old(wbig)[c] == 0 ==> Now() == old(Now())
    {
      var block, big := wblock[c], wbig[c];
      wblock, wbig := wblock[c := 0], wbig[c := 0];
      var bigReturned := ReleaseChain(c, block, big, old(wblock), old(wbig));
      if big != 0 && !bigReturned {
        ghost var x := During(wblock, old(wbig), {});
        assert old(wbig)[c := big] == old(wbig);
        BigDetachedGood(x, c);
        BigFreedGood(BigDetached(x, c), big);
        s := s.(n := s.n.(bigLive := s.n.bigLive - 1));
        l := l.(own := l.own - {big}, freed := l.freed + 1);
        assert {big} - {big} == {};
        assert During(wblock, wbig, {}) == BigFreed(BigDetached(x, c), big);
      }
      if block == 0 {
        EmptyChain(old(Now()), c);
        assert old(chain)[c := []] == old(chain);
        assert big == 0 ==> wblock == old(wblock) && wbig == old(wbig);
      }
    }

    /** A connection is torn down, with whatever its response still holds. */
    method Close(c: nat)
      requires Valid() && c in chain && c in wblock && c in wbig && c != 0
      modifies this`s, this`l, this`chain, this`wblock, this`wbig
      ensures Valid() && chain == old(chain) - {c} && wblock == old(wblock) - {c} && wbig == old(wbig) - {c}
      ensures s.n.live == old(s.n.live) - |old(chain)[c]|
      ensures s.n.bigLive == old(s.n.bigLive) - (if old(wbig)[c] != 0 then 1 else 0)
      ensures s.n.mallocs == old(s.n.mallocs) && s.n.poolN == Capped(old(s.n.poolN) + |old(chain)[c]|)
    {
      Release(c);
      GoneGood(Now(), c);
      wblock, wbig, chain := wblock - {c}, wbig - {c}, chain - {c};
    }
  }
}
