/** What taking and giving back blocks and oversized buffers does to the pool, the retained
    slot and the counters. */
module PoolStore {
  import opened ThreadedLists
  import opened Ownership

  function Took(s: Store): Store
    requires s.pool in s.first && s.n.poolN > 0
  {
    s.(pool := s.first[s.pool], n := s.n.(poolN := s.n.poolN - 1, live := s.n.live + 1))
  }

  lemma TookOk(s: Store, l: Ledger)
    requires StoreOk(s, l) && s.pool != 0
    ensures s.pool in s.first && s.n.poolN > 0 && l.free != [] && Listed(l.own, s.pool, Pooled)
    ensures StoreOk(Took(s), l.(own := l.own[s.pool := Held(0)], free := l.free[1..]))
  {
    var l' := l.(own := l.own[s.pool := Held(0)], free := l.free[1..]);
    assert l.free == [s.pool] + l.free[1..];
    assert s.pool in l.free;
    forall a ensures a in l'.free <==> Listed(l'.own, a, Pooled) {
      assert a in l.free <==> Listed(l.own, a, Pooled);
    }
    Recounted(l.own, s.pool, Held(0), HeldKind);
    Recounted(l.own, s.pool, Held(0), BigKind);
  }

  /** Tagging an address that is not and will not be pooled leaves the free list, and moves the
      counts by one. */
  lemma Retag(l: Ledger, a: nat, w: Owner)
    requires Exactly(l.free, l.own, Pooled) && w != Pooled && (a in l.own ==> l.own[a] != Pooled)
    ensures Exactly(l.free, l.own[a := w], Pooled)
    ensures forall k :: k == HeldKind || k == BigKind ==>
              |Of(l.own[a := w], k)| == |Of(l.own, k)| + (if KindOf(w) == k then 1 else 0)
                                        - (if a in l.own && KindOf(l.own[a]) == k then 1 else 0)
  {
    forall x ensures x in l.free <==> Listed(l.own[a := w], x, Pooled) {
      assert x in l.free <==> Listed(l.own, x, Pooled);
    }
    Recounted(l.own, a, w, HeldKind);
    Recounted(l.own, a, w, BigKind);
  }

  lemma Untag(l: Ledger, a: nat)
    requires Exactly(l.free, l.own, Pooled) && (a in l.own ==> l.own[a] != Pooled)
    ensures Exactly(l.free, l.own - {a}, Pooled)
    ensures forall k :: k == HeldKind || k == BigKind ==>
              |Of(l.own - {a}, k)| == |Of(l.own, k)| - (if a in l.own && KindOf(l.own[a]) == k then 1 else 0)
  {
    forall x ensures x in l.free <==> Listed(l.own - {a}, x, Pooled) {
      assert x in l.free <==> Listed(l.own, x, Pooled);
    }
    DroppedCount(l.own, a, HeldKind);
    DroppedCount(l.own, a, BigKind);
  }

  lemma MallocedOk(s: Store, l: Ledger, room: nat, len: nat, w: Owner)
    requires StoreOk(s, l) && room != 0 && room !in l.own && (w == Held(0) || w == Big(0))
    ensures var n := s.n.(mallocs := s.n.mallocs + 1);
            StoreOk(s.(n := if w.Held? then n.(live := n.live + 1) else n.(bigLive := n.bigLive + 1)),
                    l.(own := l.own[room := w], size := l.size[room := len]))
  {
    Retag(l, room, w);
  }

  function Gave(s: Store, block: nat): Store
    requires s.n.live > 0
  {
    s.(pool := block, first := s.first[block := s.pool], n := s.n.(poolN := s.n.poolN + 1, live := s.n.live - 1))
  }

  lemma GaveOk(s: Store, l: Ledger, block: nat)
    requires StoreOk(s, l) && Listed(l.own, block, Held(0)) && s.n.poolN < WBUF_POOL_MAX
    ensures s.n.live > 0 && StoreOk(Gave(s, block), l.(own := l.own[block := Pooled], free := [block] + l.free))
  {
    var l' := l.(own := l.own[block := Pooled], free := [block] + l.free);
    assert block !in l.free by {
      assert block in l.free <==> Listed(l.own, block, Pooled);
    }
    ThreadsPush(s.pool, s.first, l.free, block);
    forall a ensures a in l'.free <==> Listed(l'.own, a, Pooled) {
      assert a in l.free <==> Listed(l.own, a, Pooled);
    }
    assert block in Of(l.own, HeldKind);
    Recounted(l.own, block, Pooled, HeldKind);
    Recounted(l.own, block, Pooled, BigKind);
  }

  /** A block or an oversized buffer that nobody has linked goes back to malloc. */
  lemma FreedOk(s: Store, l: Ledger, a: nat)
    requires StoreOk(s, l) && (Listed(l.own, a, Held(0)) || Listed(l.own, a, Big(0)))
    ensures l.own[a].Held? ==> s.n.live > 0
    ensures l.own[a].Big? ==> s.n.bigLive > 0
    ensures StoreOk(s.(n := if l.own[a].Held? then s.n.(live := s.n.live - 1) else s.n.(bigLive := s.n.bigLive - 1)),
                    l.(own := l.own - {a}, freed := l.freed + 1))
  {
    assert a in Of(l.own, KindOf(l.own[a]));
    Untag(l, a);
  }

  lemma BigTookOk(s: Store, l: Ledger)
    requires StoreOk(s, l) && s.bigbuf != 0
    ensures Listed(l.own, s.bigbuf, Retained)
    ensures StoreOk(s.(bigbuf := 0, bigbufCap := 0, n := s.n.(bigLive := s.n.bigLive + 1)),
            l.(own := l.own[s.bigbuf := Big(0)]))
  {
    Retag(l, s.bigbuf, Big(0));
  }

  lemma KeptOk(s: Store, l: Ledger, buf: nat)
    requires StoreOk(s, l) && s.bigbuf == 0 && Listed(l.own, buf, Big(0))
    requires buf in l.size && l.size[buf] <= BIGBUF_KEEP_MAX
    ensures s.n.bigLive > 0
    ensures StoreOk(s.(bigbuf := buf, bigbufCap := l.size[buf], n := s.n.(bigLive := s.n.bigLive - 1)),
            l.(own := l.own[buf := Retained]))
  {
    assert buf in Of(l.own, BigKind);
    Retag(l, buf, Retained);
  }

  lemma EvictedOk(s: Store, l: Ledger)
    requires StoreOk(s, l) && s.bigbuf != 0
    ensures Listed(l.own, s.bigbuf, Retained)
    ensures StoreOk(s.(bigbuf := 0), l.(own := l.own - {s.bigbuf}, freed := l.freed + 1))
  {
    Untag(l, s.bigbuf);
  }

  /** Linking and unlinking are between the connections: the pool does not see them. */
  lemma RelinkedOk(s: Store, l: Ledger, a: nat, w: Owner)
    requires StoreOk(s, l) && a in l.own && KindOf(l.own[a]) == KindOf(w) && (w.Held? || w.Big?)
    ensures StoreOk(s, l.(own := l.own[a := w]))
  {
    Retag(l, a, w);
  }

  /** Neither does it see the buffers picotls allocates and frees. */
  lemma SwapAddedOk(s: Store, l: Ledger, room: nat, b: nat)
    requires StoreOk(s, l) && room != 0 && room !in l.own
    ensures StoreOk(s, l.(own := l.own[room := Swapped(b)]))
  {
    Retag(l, room, Swapped(b));
  }

  lemma SwapDroppedOk(s: Store, l: Ledger, a: nat)
    requires StoreOk(s, l) && a in l.own && l.own[a].Swapped?
    ensures StoreOk(s, l.(own := l.own - {a}))
  {
    Untag(l, a);
  }
}
