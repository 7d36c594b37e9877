/** Who owns each allocation behind the TLS write path.  The map from addresses to owners is
    the whole heap of that path: an address has one owner, and one that was given back to
    malloc has none. */
module Ownership {
  import opened ThreadedLists

  /** Connection 0 is nobody: taken from the pool and not linked to a response yet, or
      unlinked and not given back yet. */
  datatype Owner =
    | Pooled             // on the free list
    | Held(c: nat)       // a block of connection c's response
    | Retained           // the oversized buffer kept in the slot
    | Big(c: nat)        // the oversized buffer of connection c's response
    | Swapped(b: nat)    // allocated by picotls in place of what block b pointed at

  datatype Kind = PooledKind | HeldKind | RetainedKind | BigKind | SwappedKind

  function KindOf(w: Owner): Kind {
    match w
    case Pooled => PooledKind
    case Held(_) => HeldKind
    case Retained => RetainedKind
    case Big(_) => BigKind
    case Swapped(_) => SwappedKind
  }

  type Owners = map<nat, Owner>

  ghost function Of(own: Owners, k: Kind): set<nat> {
    set a | a in own && KindOf(own[a]) == k
  }

  lemma Retagged(own: Owners, a: nat, w: Owner, k: Kind)
    ensures |Of(own[a := w], k)| == |Of(own, k) - {a}| + (if KindOf(w) == k then 1 else 0)
  {
    var rest := Of(own, k) - {a};
    assert Of(own[a := w], k) == if KindOf(w) == k then rest + {a} else rest;
  }

  lemma Dropped(own: Owners, a: nat, k: Kind)
    ensures Of(own - {a}, k) == Of(own, k) - {a}
  {
  }

  // ---- the free list ----

  predicate Listed(own: Owners, a: nat, w: Owner) {
    a in own && own[a] == w
  }

  /** `items` are exactly the addresses tagged `w`. */
  ghost predicate Exactly(items: seq<nat>, own: Owners, w: Owner) {
    forall a :: a in items <==> Listed(own, a, w)
  }

  // ---- the chains ----

  ghost predicate ChainOk(head: nat, next: map<nat, nat>, c: nat, ids: seq<nat>, own: Owners) {
    Threads(head, next, ids) && Exactly(ids, own, Held(c))
  }

  ghost predicate ChainsOk(heads: map<nat, nat>, next: map<nat, nat>, chain: map<nat, seq<nat>>, own: Owners) {
    && heads.Keys == chain.Keys && 0 !in chain
    && (forall c :: c in chain ==> ChainOk(heads[c], next, c, chain[c], own))
    && (forall a :: a in own && own[a].Held? ==> own[a].c == 0 || own[a].c in chain)
  }

  /** The tag of one address changes, from and to something no chain can tell apart. */
  lemma ChainFrame(head: nat, next: map<nat, nat>, next': map<nat, nat>, c: nat, ids: seq<nat>, own: Owners,
      own': Owners)
    requires ChainOk(head, next, c, ids, own)
    requires forall a :: Listed(own, a, Held(c)) <==> Listed(own', a, Held(c))
    requires forall a :: Listed(own, a, Held(c)) && a in next ==> a in next' && next'[a] == next[a]
    ensures ChainOk(head, next', c, ids, own')
  {
    ThreadsFrame(head, next, next', ids);
  }

  ghost predicate SameChains(own: Owners, own': Owners) {
    && (forall a :: a in own && own[a].Held? && own[a].c != 0 ==> a in own' && own'[a] == own[a])
    && (forall a :: a in own' && own'[a].Held? && own'[a].c != 0 ==> a in own && own[a] == own'[a])
  }

  lemma ChainsFrame(heads: map<nat, nat>, next: map<nat, nat>, chain: map<nat, seq<nat>>, own: Owners, own': Owners)
    requires ChainsOk(heads, next, chain, own) && SameChains(own, own')
    ensures ChainsOk(heads, next, chain, own')
  {
  }

  lemma Connected(heads: map<nat, nat>, next: map<nat, nat>, chain: map<nat, seq<nat>>, own: Owners, c: nat)
    requires ChainsOk(heads, next, chain, own) && c !in chain && c != 0
    ensures ChainsOk(heads[c := 0], next, chain[c := []], own)
  {
  }

  lemma Disconnected(heads: map<nat, nat>, next: map<nat, nat>, chain: map<nat, seq<nat>>, own: Owners, c: nat)
    requires ChainsOk(heads, next, chain, own) && c in chain && chain[c] == []
    ensures ChainsOk(heads - {c}, next, chain - {c}, own)
  {
    forall a | a in own && own[a].Held? ensures own[a].c != c {
      assert a in chain[c] <==> Listed(own, a, Held(c));
    }
  }

  /** The first block of `c` leaves its chain. */
  lemma Detached(heads: map<nat, nat>, next: map<nat, nat>, chain: map<nat, seq<nat>>, own: Owners, c: nat)
    requires ChainsOk(heads, next, chain, own) && c in chain && heads[c] != 0
    ensures heads[c] in next && Listed(own, heads[c], Held(c)) && chain[c] != []
    ensures ChainsOk(heads[c := next[heads[c]]], next, chain[c := chain[c][1..]], own[heads[c] := Held(0)])
  {
    var b, ids, own' := heads[c], chain[c], own[heads[c] := Held(0)];
    assert ids == [b] + ids[1..];
    assert b in ids;
    assert Exactly(ids[1..], own', Held(c)) by {
      forall a ensures a in ids[1..] <==> Listed(own', a, Held(c)) {
        assert a in ids <==> Listed(own, a, Held(c));
      }
    }
    forall d | d in chain && d != c ensures ChainOk(heads[d], next, d, chain[d], own') {
      ChainFrame(heads[d], next, next, d, chain[d], own, own');
    }
  }

  /** A block joins the empty chain of `c`. */
  lemma AttachedFirst(heads: map<nat, nat>, next: map<nat, nat>, chain: map<nat, seq<nat>>, own: Owners, c: nat, b: nat)
    requires ChainsOk(heads, next, chain, own) && c in chain && chain[c] == [] && b != 0 && Listed(own, b, Held(0))
    ensures ChainsOk(heads[c := b], next[b := 0], chain[c := [b]], own[b := Held(c)])
  {
    var next', own' := next[b := 0], own[b := Held(c)];
    assert [b][1..] == [];
    assert Threads(0, next', []);
    assert Exactly([b], own', Held(c)) by {
      forall a ensures a in [b] <==> Listed(own', a, Held(c)) {
        assert a in chain[c] <==> Listed(own, a, Held(c));
      }
    }
    forall d | d in chain && d != c ensures ChainOk(heads[d], next', d, chain[d], own') {
      ChainFrame(heads[d], next, next', d, chain[d], own, own');
    }
  }

  /** A block joins the chain of `c` behind its last block. */
  lemma AttachedLast(heads: map<nat, nat>, next: map<nat, nat>, chain: map<nat, seq<nat>>, own: Owners, c: nat, b: nat)
    requires ChainsOk(heads, next, chain, own) && c in chain && chain[c] != [] && b != 0 && Listed(own, b, Held(0))
    ensures ChainsOk(heads, next[Last(chain[c]) := b][b := 0], chain[c := chain[c] + [b]], own[b := Held(c)])
  {
    var ids, t := chain[c], Last(chain[c]);
    var next', own' := next[t := b][b := 0], own[b := Held(c)];
    assert t in ids;
    ThreadsAppend(heads[c], next, ids, b);
    assert Exactly(ids + [b], own', Held(c)) by {
      forall a ensures a in ids + [b] <==> Listed(own', a, Held(c)) {
        assert a in ids <==> Listed(own, a, Held(c));
      }
    }
    forall d | d in chain && d != c ensures ChainOk(heads[d], next', d, chain[d], own') {
      ChainFrame(heads[d], next, next', d, chain[d], own, own');
    }
  }

  // ---- the connections ----

  /** The trailers of the blocks: the next block of the response, where the ciphertext really
      is, and that buffer's capacity. */
  datatype Trailers = Trailers(next: map<nat, nat>, base: map<nat, nat>, capacity: map<nat, nat>)

  /** Each connection's oversized buffer is its own, and rides on a chain of one block. */
  ghost predicate BigsOk(bigs: map<nat, nat>, chain: map<nat, seq<nat>>, own: Owners) {
    && bigs.Keys == chain.Keys
    && (forall c :: c in bigs && bigs[c] != 0 ==> Listed(own, bigs[c], Big(c)) && |chain[c]| <= 1)
    && (forall a :: a in own && own[a].Big? && own[a].c != 0 ==> own[a].c in bigs && bigs[own[a].c] == a)
  }

  /** The ciphertext of a block is in the block itself, in the oversized buffer of its
      response, whose size the trailer then records, or in a buffer of picotls's. */
  predicate Based(b: nat, t: Trailers, big: nat, own: Owners, size: map<nat, nat>) {
    && b in t.base && b in t.capacity
    && (|| t.base[b] == b
        || (big != 0 && t.base[b] == big && big in size && t.capacity[b] == size[big])
        || Listed(own, t.base[b], Swapped(b)))
  }

  ghost predicate BasesOk(t: Trailers, bigs: map<nat, nat>, own: Owners, size: map<nat, nat>) {
    && (forall b :: b in own && own[b].Held? && own[b].c != 0 ==>
          own[b].c in bigs && Based(b, t, bigs[own[b].c], own, size))
    && (forall a :: a in own && own[a].Swapped? ==>
          var b := own[a].b; b in own && own[b].Held? && b in t.base && t.base[b] == a)
  }

  /** An address no connection has a part in. */
  ghost predicate Idle(own: Owners, x: nat) {
    && (x in own ==> own[x] == Pooled || own[x] == Held(0) || own[x] == Retained || own[x] == Big(0))
    && (forall a :: a in own ==> own[a] != Swapped(x))
  }

  ghost predicate Elsewhere(own: Owners, own': Owners, x: nat) {
    own' - {x} == own - {x}
  }

  lemma IdleKeepsChains(heads: map<nat, nat>, next: map<nat, nat>, chain: map<nat, seq<nat>>, own: Owners,
      own': Owners, x: nat)
    requires ChainsOk(heads, next, chain, own) && Elsewhere(own, own', x) && Idle(own, x) && Idle(own', x)
    ensures ChainsOk(heads, next, chain, own')
  {
    ElsewhereSame(own, own', x);
    ChainsFrame(heads, next, chain, own, own');
  }

  lemma ElsewhereSame(own: Owners, own': Owners, x: nat)
    requires Elsewhere(own, own', x)
    ensures forall a :: a != x ==> (a in own <==> a in own') && (a in own ==> own'[a] == own[a])
  {
    forall a | a != x ensures (a in own <==> a in own') && (a in own ==> own'[a] == own[a]) {
      assert a in own <==> a in own - {x};
      assert a in own' <==> a in own' - {x};
      assert a in own ==> (own - {x})[a] == own[a] && (own' - {x})[a] == own'[a];
    }
  }

  lemma IdleKeepsBigs(bigs: map<nat, nat>, chain: map<nat, seq<nat>>, own: Owners, own': Owners, x: nat)
    requires BigsOk(bigs, chain, own) && 0 !in chain && Elsewhere(own, own', x) && Idle(own, x) && Idle(own', x)
    ensures BigsOk(bigs, chain, own')
  {
    ElsewhereSame(own, own', x);
  }

  lemma IdleKeepsBases(t: Trailers, bigs: map<nat, nat>, own: Owners, own': Owners, size: map<nat, nat>,
      size': map<nat, nat>, x: nat)
    requires BasesOk(t, bigs, own, size) && Elsewhere(own, own', x) && Idle(own, x) && Idle(own', x)
    requires forall a :: a in size && a != x ==> a in size' && size'[a] == size[a]
    requires forall c :: c in bigs && bigs[c] != 0 ==> bigs[c] != x
    ensures BasesOk(t, bigs, own', size')
  {
    ElsewhereSame(own, own', x);
  }

  // ---- the pool, the slot and the counters ----

  const WBUF_POOL_MAX: nat := 256
  const BIGBUF_KEEP_MAX: nat := 2 * 1024 * 1024

  datatype Counters = Counters(poolN: nat, live: nat, bigLive: nat, mallocs: nat)

  /** The server's part: the free list, whose links are the first words of its blocks, the
      retained oversized buffer, and the counters. */
  datatype Store = Store(pool: nat, first: map<nat, nat>, bigbuf: nat, bigbufCap: nat, n: Counters)

  /** What the proof keeps: the owners, the blocks on the free list, and how many blocks and
      oversized buffers went back to malloc. */
  datatype Ledger = Ledger(own: Owners, size: map<nat, nat>, free: seq<nat>, freed: nat)

  ghost predicate PoolOk(s: Store, l: Ledger) {
    && Threads(s.pool, s.first, l.free) && s.n.poolN == |l.free| <= WBUF_POOL_MAX
    && Exactly(l.free, l.own, Pooled)
  }

  ghost predicate SlotOk(s: Store, l: Ledger) {
    && 0 !in l.own
    && (s.bigbuf != 0 ==> Listed(l.own, s.bigbuf, Retained))
    && (s.bigbuf != 0 ==> s.bigbuf in l.size && l.size[s.bigbuf] == s.bigbufCap <= BIGBUF_KEEP_MAX)
    && (forall a :: a in l.own && l.own[a] == Retained ==> a == s.bigbuf)
  }

  ghost predicate CountsOk(s: Store, l: Ledger) {
    && s.n.live == |Of(l.own, HeldKind)| && s.n.bigLive == |Of(l.own, BigKind)|
    && s.n.mallocs == s.n.live + s.n.poolN + s.n.bigLive + (if s.bigbuf != 0 then 1 else 0) + l.freed
  }

  ghost predicate StoreOk(s: Store, l: Ledger) {
    PoolOk(s, l) && SlotOk(s, l) && CountsOk(s, l)
  }

  lemma Recounted(own: Owners, a: nat, w: Owner, k: Kind)
    ensures |Of(own[a := w], k)| ==
            |Of(own, k)| - (if a in own && KindOf(own[a]) == k then 1 else 0) + (if KindOf(w) == k then 1 else 0)
  {
    Retagged(own, a, w, k);
    assert a !in Of(own, k) ==> Of(own, k) - {a} == Of(own, k);
  }

  lemma DroppedCount(own: Owners, a: nat, k: Kind)
    ensures |Of(own - {a}, k)| == |Of(own, k)| - (if a in own && KindOf(own[a]) == k then 1 else 0)
  {
    Dropped(own, a, k);
    assert a !in Of(own, k) ==> Of(own, k) - {a} == Of(own, k);
  }

  ghost predicate ConnOk(heads: map<nat, nat>, bigs: map<nat, nat>, t: Trailers, chain: map<nat, seq<nat>>, l: Ledger) {
    ChainsOk(heads, t.next, chain, l.own) && BigsOk(bigs, chain, l.own) && BasesOk(t, bigs, l.own, l.size)
  }

  /** Whatever the pool and the slot do with an idle address, the connections stay in order. */
  lemma IdleKeeps(heads: map<nat, nat>, bigs: map<nat, nat>, t: Trailers, chain: map<nat, seq<nat>>, l: Ledger,
      l': Ledger, x: nat)
    requires ConnOk(heads, bigs, t, chain, l) && Elsewhere(l.own, l'.own, x) && Idle(l.own, x) && Idle(l'.own, x)
    requires forall a :: a in l.size && a != x ==> a in l'.size && l'.size[a] == l.size[a]
    ensures ConnOk(heads, bigs, t, chain, l')
  {
    IdleKeepsChains(heads, t.next, chain, l.own, l'.own, x);
    IdleKeepsBigs(bigs, chain, l.own, l'.own, x);
    assert forall c :: c in bigs && bigs[c] != 0 ==> bigs[c] != x;
    IdleKeepsBases(t, bigs, l.own, l'.own, l.size, l'.size, x);
  }
}
