/** The pools and all connections together, and what each operation keeps. */
module PoolState {
  import opened ThreadedLists
  import opened Ownership
  import opened PoolStore
  import opened PoolLinks

  /** `hand`: what an operation under way has taken or unlinked, and belongs to nobody. */
  datatype State = State(s: Store, t: Trailers, heads: Ptrs, bigs: Ptrs, chain: Chains, l: Ledger, hand: set<nat>)

  datatype Part = Storage | Links | Hands

  ghost predicate InHand(own: Owners, hand: set<nat>) {
    forall a :: Listed(own, a, Held(0)) || Listed(own, a, Big(0)) <==> a in hand
  }

  ghost predicate PartOk(p: Part, x: State) {
    match p
    case Storage => StoreOk(x.s, x.l)
    case Links => ConnOk(x.heads, x.bigs, x.t, x.chain, x.l)
    case Hands => InHand(x.l.own, x.hand)
  }

  /** Every part of the bookkeeping is in order. */
  ghost predicate Good(x: State) {
    forall p :: PartOk(p, x)
  }

  /** The trailer of a block points at nothing picotls allocated. */
  predicate Disposable(x: State, b: nat) {
    b in x.t.base ==> !Listed(x.l.own, x.t.base[b], Swapped(b))
  }

  lemma HandIdle(x: State, b: nat)
    requires PartOk(Links, x) && PartOk(Hands, x) && b in x.hand && Disposable(x, b)
    ensures Idle(x.l.own, b)
  {
  }

  lemma UnusedIdle(x: State, b: nat)
    requires PartOk(Links, x) && (b in x.l.own ==> x.l.own[b] == Pooled || x.l.own[b] == Retained)
    ensures Idle(x.l.own, b)
  {
  }

  // ---- taking ----

  /** `a` comes into somebody's hand, tagged `w`. */
  function Taken(x: State, s: Store, a: nat, w: Owner, size: map<nat, nat>, free: seq<nat>): State {
    x.(s := s, l := x.l.(own := x.l.own[a := w], size := size, free := free), hand := x.hand + {a})
  }

  lemma TakenGood(x: State, s: Store, a: nat, w: Owner, size: map<nat, nat>, free: seq<nat>)
    requires Good(x) && (w == Held(0) || w == Big(0))
    requires a in x.l.own ==> x.l.own[a] == Pooled || x.l.own[a] == Retained
    requires size == x.l.size || (a in size && size == x.l.size[a := size[a]])
    requires StoreOk(s, x.l.(own := x.l.own[a := w], size := size, free := free))
    ensures Good(Taken(x, s, a, w, size, free)) && Disposable(Taken(x, s, a, w, size, free), a)
  {
    var y := Taken(x, s, a, w, size, free);
    assert PartOk(Links, x) && PartOk(Hands, x);
    UnusedIdle(x, a);
    assert Elsewhere(x.l.own, y.l.own, a);
    IdleKeeps(x.heads, x.bigs, x.t, x.chain, x.l, y.l, a);
    forall p ensures PartOk(p, y) {
    }
  }

  function Popped(x: State): State
    requires x.s.pool in x.s.first && x.s.n.poolN > 0 && x.l.free != []
  {
    Taken(x, Took(x.s), x.s.pool, Held(0), x.l.size, x.l.free[1..])
  }

  lemma PoppedGood(x: State)
    requires Good(x) && x.s.pool != 0
    ensures x.s.pool in x.s.first && x.s.n.poolN > 0 && x.l.free != [] && Listed(x.l.own, x.s.pool, Pooled)
    ensures Good(Popped(x)) && Disposable(Popped(x), x.s.pool)
  {
    assert PartOk(Storage, x);
    TookOk(x.s, x.l);
    TakenGood(x, Took(x.s), x.s.pool, Held(0), x.l.size, x.l.free[1..]);
  }

  function Counted(n: Counters, w: Owner): Counters {
    if w.Held? then n.(mallocs := n.mallocs + 1, live := n.live + 1)
    else n.(mallocs := n.mallocs + 1, bigLive := n.bigLive + 1)
  }

  function Malloced(x: State, room: nat, len: nat, w: Owner): State {
    Taken(x, x.s.(n := Counted(x.s.n, w)), room, w, x.l.size[room := len], x.l.free)
  }

  lemma MallocedGood(x: State, room: nat, len: nat, w: Owner)
    requires Good(x) && room != 0 && room !in x.l.own && (w == Held(0) || w == Big(0))
    ensures Good(Malloced(x, room, len, w)) && Disposable(Malloced(x, room, len, w), room)
  {
    assert PartOk(Storage, x);
    MallocedOk(x.s, x.l, room, len, w);
    TakenGood(x, x.s.(n := Counted(x.s.n, w)), room, w, x.l.size[room := len], x.l.free);
  }

  function BigTaken(x: State): State {
    Taken(x, x.s.(bigbuf := 0, bigbufCap := 0, n := x.s.n.(bigLive := x.s.n.bigLive + 1)), x.s.bigbuf, Big(0),
        x.l.size, x.l.free)
  }

  lemma BigTakenGood(x: State)
    requires Good(x) && x.s.bigbuf != 0
    ensures Listed(x.l.own, x.s.bigbuf, Retained) && x.s.bigbuf in x.l.size && x.l.size[x.s.bigbuf] == x.s.bigbufCap
    ensures Good(BigTaken(x))
  {
    assert PartOk(Storage, x);
    BigTookOk(x.s, x.l);
    TakenGood(x, x.s.(bigbuf := 0, bigbufCap := 0, n := x.s.n.(bigLive := x.s.n.bigLive + 1)), x.s.bigbuf, Big(0),
        x.l.size, x.l.free);
  }

  // ---- giving back ----

  /** What was in hand leaves it: for the pool, for the slot, or for malloc. */
  function Given(x: State, s: Store, a: nat, l: Ledger): State {
    x.(s := s, l := l, hand := x.hand - {a})
  }

  lemma GivenGood(x: State, s: Store, a: nat, l: Ledger)
    requires Good(x) && a in x.hand && Disposable(x, a) && StoreOk(s, l) && l.size == x.l.size
    requires l.own == x.l.own - {a} || l.own == x.l.own[a := Pooled] || l.own == x.l.own[a := Retained]
    ensures Good(Given(x, s, a, l))
  {
    var y := Given(x, s, a, l);
    assert PartOk(Links, x) && PartOk(Hands, x);
    HandIdle(x, a);
    assert Elsewhere(x.l.own, l.own, a);
    IdleKeeps(x.heads, x.bigs, x.t, x.chain, x.l, l, a);
    forall p ensures PartOk(p, y) {
    }
  }

  function BlockGiven(x: State, b: nat): State
    requires x.s.n.live > 0
  {
    if x.s.n.poolN >= WBUF_POOL_MAX then
      Given(x, x.s.(n := x.s.n.(live := x.s.n.live - 1)), b, x.l.(own := x.l.own - {b}, freed := x.l.freed + 1))
    else
      Given(x, Gave(x.s, b), b, x.l.(own := x.l.own[b := Pooled], free := [b] + x.l.free))
  }

  lemma BlockGivenGood(x: State, b: nat)
    requires Good(x) && b in x.hand && Listed(x.l.own, b, Held(0)) && Disposable(x, b)
    ensures x.s.n.live > 0 && Good(BlockGiven(x, b))
  {
    assert PartOk(Storage, x);
    if x.s.n.poolN >= WBUF_POOL_MAX {
      FreedOk(x.s, x.l, b);
      GivenGood(x, x.s.(n := x.s.n.(live := x.s.n.live - 1)), b, x.l.(own := x.l.own - {b}, freed := x.l.freed + 1));
    } else {
      GaveOk(x.s, x.l, b);
      GivenGood(x, Gave(x.s, b), b, x.l.(own := x.l.own[b := Pooled], free := [b] + x.l.free));
    }
  }

  function BigFreed(x: State, g: nat): State
    requires x.s.n.bigLive > 0
  {
    Given(x, x.s.(n := x.s.n.(bigLive := x.s.n.bigLive - 1)), g, x.l.(own := x.l.own - {g}, freed := x.l.freed + 1))
  }

  lemma BigFreedGood(x: State, g: nat)
    requires Good(x) && g in x.hand && Listed(x.l.own, g, Big(0))
    ensures x.s.n.bigLive > 0 && Good(BigFreed(x, g))
  {
    BigDisposable(x, g);
    assert PartOk(Storage, x);
    FreedOk(x.s, x.l, g);
    GivenGood(x, x.s.(n := x.s.n.(bigLive := x.s.n.bigLive - 1)), g,
        x.l.(own := x.l.own - {g}, freed := x.l.freed + 1));
  }

  lemma BigDisposable(x: State, g: nat)
    requires Good(x) && g in x.l.own && !x.l.own[g].Held?
    ensures Disposable(x, g)
  {
    assert PartOk(Links, x);
  }

  function BigKept(x: State, g: nat, cap: nat): State
    requires x.s.n.bigLive > 0
  {
    Given(x, x.s.(bigbuf := g, bigbufCap := cap, n := x.s.n.(bigLive := x.s.n.bigLive - 1)), g,
        x.l.(own := x.l.own[g := Retained]))
  }

  lemma BigKeptGood(x: State, g: nat, cap: nat)
    requires Good(x) && g in x.hand && Listed(x.l.own, g, Big(0)) && x.s.bigbuf == 0
    requires g in x.l.size && x.l.size[g] == cap <= BIGBUF_KEEP_MAX
    ensures x.s.n.bigLive > 0 && Good(BigKept(x, g, cap))
  {
    BigDisposable(x, g);
    assert PartOk(Storage, x);
    KeptOk(x.s, x.l, g);
    GivenGood(x, x.s.(bigbuf := g, bigbufCap := cap, n := x.s.n.(bigLive := x.s.n.bigLive - 1)), g,
        x.l.(own := x.l.own[g := Retained]));
  }

  /** The retained buffer is freed, to make way for a larger one. */
  function Evicted(x: State): State {
    x.(s := x.s.(bigbuf := 0), l := x.l.(own := x.l.own - {x.s.bigbuf}, freed := x.l.freed + 1))
  }

  lemma EvictedGood(x: State)
    requires Good(x) && x.s.bigbuf != 0
    ensures Listed(x.l.own, x.s.bigbuf, Retained) && Good(Evicted(x))
  {
    assert PartOk(Storage, x) && PartOk(Links, x) && PartOk(Hands, x);
    EvictedOk(x.s, x.l);
    EvictedLinks(x);
    forall p ensures PartOk(p, Evicted(x)) {
    }
  }

  lemma SlotOwner(x: State)
    requires Good(x)
    ensures x.s.bigbuf in x.l.own ==> x.l.own[x.s.bigbuf] == Retained
  {
    assert PartOk(Storage, x);
  }

  lemma EvictedLinks(x: State)
    requires PartOk(Links, x) && Listed(x.l.own, x.s.bigbuf, Retained)
    ensures PartOk(Links, Evicted(x))
  {
    UnusedIdle(x, x.s.bigbuf);
    assert Elsewhere(x.l.own, Evicted(x).l.own, x.s.bigbuf);
    IdleKeeps(x.heads, x.bigs, x.t, x.chain, x.l, Evicted(x).l, x.s.bigbuf);
  }

  // ---- linking to a response, and unlinking ----

  /** Relinking leaves the pool alone; the two other parts have to be in order. */
  lemma RelinkedGood(x: State, y: State, a: nat, w: Owner)
    requires Good(x) && PartOk(Links, y) && PartOk(Hands, y)
    requires y.s == x.s && y.l == x.l.(own := x.l.own[a := w])
    requires a in x.l.own && KindOf(x.l.own[a]) == KindOf(w) && (w.Held? || w.Big?)
    ensures Good(y)
  {
    assert PartOk(Storage, x);
    RelinkedOk(x.s, x.l, a, w);
    forall p ensures PartOk(p, y) {
    }
  }

  lemma LinkedHands(x: State, y: State, a: nat, w: Owner)
    requires PartOk(Hands, x) && y.l.own == x.l.own[a := w] && y.hand == x.hand - {a}
    requires (w.Held? || w.Big?) && w.c != 0
    ensures PartOk(Hands, y)
  {
  }

  lemma UnlinkedHands(x: State, y: State, a: nat, w: Owner)
    requires PartOk(Hands, x) && y.l.own == x.l.own[a := w] && y.hand == x.hand + {a}
    requires w == Held(0) || w == Big(0)
    ensures PartOk(Hands, y)
  {
  }

  function FirstLinked(x: State, c: nat, b: nat): State {
    x.(t := OpenedAt(x.t, b), heads := x.heads[c := b], chain := x.chain[c := [b]],
       l := x.l.(own := x.l.own[b := Held(c)]), hand := x.hand - {b})
  }

  lemma FirstLinkedGood(x: State, c: nat, b: nat)
    requires Good(x) && c in x.chain && c in x.heads && x.heads[c] == 0 && c in x.bigs && x.bigs[c] == 0
    requires b in x.hand && Listed(x.l.own, b, Held(0)) && Disposable(x, b)
    ensures Good(FirstLinked(x, c, b)) && x.chain[c] == []
  {
    assert PartOk(Links, x) && PartOk(Hands, x);
    NonNull(x, b);
    HandIdle(x, b);
    assert ChainOk(x.heads[c], x.t.next, c, x.chain[c], x.l.own);
    OpenedFirst(x.heads, x.bigs, x.t, x.chain, x.l, c, b);
    LinkedHands(x, FirstLinked(x, c, b), b, Held(c));
    RelinkedGood(x, FirstLinked(x, c, b), b, Held(c));
  }

  lemma NonNull(x: State, a: nat)
    requires Good(x) && a in x.l.own
    ensures a != 0
  {
    assert PartOk(Storage, x);
  }

  function NextLinked(x: State, c: nat, b: nat): State
    requires c in x.chain && x.chain[c] != []
  {
    x.(t := OpenedAt(x.t.(next := x.t.next[Last(x.chain[c]) := b]), b), chain := x.chain[c := x.chain[c] + [b]],
       l := x.l.(own := x.l.own[b := Held(c)]), hand := x.hand - {b})
  }

  lemma NextLinkedGood(x: State, c: nat, b: nat)
    requires Good(x) && c in x.chain && x.chain[c] != [] && c in x.bigs && x.bigs[c] == 0
    requires b in x.hand && Listed(x.l.own, b, Held(0)) && Disposable(x, b)
    ensures Good(NextLinked(x, c, b))
  {
    assert PartOk(Links, x) && PartOk(Hands, x);
    NonNull(x, b);
    HandIdle(x, b);
    OpenedNext(x.heads, x.bigs, x.t, x.chain, x.l, c, b);
    LinkedHands(x, NextLinked(x, c, b), b, Held(c));
    RelinkedGood(x, NextLinked(x, c, b), b, Held(c));
  }

  function BigLinked(x: State, c: nat, b: nat, g: nat, cap: nat): State {
    x.(t := x.t.(base := x.t.base[b := g], capacity := x.t.capacity[b := cap]), bigs := x.bigs[c := g],
       l := x.l.(own := x.l.own[g := Big(c)]), hand := x.hand - {g})
  }

  lemma BigLinkedGood(x: State, c: nat, b: nat, g: nat, cap: nat)
    requires Good(x) && c in x.chain && x.chain[c] == [b] && c in x.bigs && x.bigs[c] == 0
    requires b in x.t.base && x.t.base[b] == b
    requires g in x.hand && Listed(x.l.own, g, Big(0)) && g in x.l.size && x.l.size[g] == cap
    ensures Good(BigLinked(x, c, b, g, cap))
  {
    assert PartOk(Links, x) && PartOk(Hands, x) && PartOk(Storage, x);
    OpenedBig(x.heads, x.bigs, x.t, x.chain, x.l, c, b, g, cap);
    LinkedHands(x, BigLinked(x, c, b, g, cap), g, Big(c));
    RelinkedGood(x, BigLinked(x, c, b, g, cap), g, Big(c));
  }

  /** The first block of a response is unlinked and in hand. */
  function HeadUnlinked(x: State, c: nat): State
    requires c in x.heads && x.heads[c] in x.t.next && c in x.chain && x.chain[c] != []
  {
    var b := x.heads[c];
    x.(heads := x.heads[c := x.t.next[b]], chain := x.chain[c := x.chain[c][1..]],
       l := x.l.(own := x.l.own[b := Held(0)]), hand := x.hand + {b})
  }

  lemma HeadUnlinkedGood(x: State, c: nat)
    requires Good(x) && c in x.heads && x.heads[c] != 0
    ensures c in x.chain && c in x.bigs && x.heads[c] in x.t.next && x.chain[c] != [] &&
            Listed(x.l.own, x.heads[c], Held(c))
    ensures Based(x.heads[c], x.t, x.bigs[c], x.l.own, x.l.size)
    ensures x.bigs[c] != 0 ==> |x.chain[c]| == 1 && Listed(x.l.own, x.bigs[c], Big(c))
    ensures Good(HeadUnlinked(x, c))
  {
    assert PartOk(Links, x) && PartOk(Hands, x);
    Unlinked(x.heads, x.bigs, x.t, x.chain, x.l, c);
    UnlinkedHands(x, HeadUnlinked(x, c), x.heads[c], Held(0));
    RelinkedGood(x, HeadUnlinked(x, c), x.heads[c], Held(0));
  }

  function BigDetached(x: State, c: nat): State
    requires c in x.bigs
  {
    x.(bigs := x.bigs[c := 0], l := x.l.(own := x.l.own[x.bigs[c] := Big(0)]), hand := x.hand + {x.bigs[c]})
  }

  lemma BigDetachedGood(x: State, c: nat)
    requires Good(x) && c in x.chain && x.chain[c] == [] && c in x.bigs && x.bigs[c] != 0
    ensures Good(BigDetached(x, c)) && Listed(x.l.own, x.bigs[c], Big(c))
  {
    assert PartOk(Links, x) && PartOk(Hands, x);
    BigUnlinked(x.heads, x.bigs, x.t, x.chain, x.l, c);
    UnlinkedHands(x, BigDetached(x, c), x.bigs[c], Big(0));
    RelinkedGood(x, BigDetached(x, c), x.bigs[c], Big(0));
  }

  // ---- picotls ----

  function BaseSwapped(x: State, b: nat, room: nat, cap: nat): State
    requires b in x.t.base
  {
    x.(t := x.t.(base := x.t.base[b := room], capacity := x.t.capacity[b := cap]),
       l := x.l.(own := SwappedOut(x.l.own, b, x.t.base[b], room)))
  }

  lemma BaseSwappedGood(x: State, b: nat, room: nat, cap: nat)
    requires Good(x) && x.hand == {} && b in x.l.own && x.l.own[b].Held? && room != 0 && room !in x.l.own
    ensures b in x.t.base && Good(BaseSwapped(x, b, room, cap))
  {
    SwapParts(x, b, room, cap);
    SwapStored(x, b, room, cap);
    forall p ensures PartOk(p, BaseSwapped(x, b, room, cap)) {
    }
  }

  lemma SwapParts(x: State, b: nat, room: nat, cap: nat)
    requires Good(x) && x.hand == {} && b in x.l.own && x.l.own[b].Held? && room != 0 && room !in x.l.own
    ensures b in x.t.base && PartOk(Links, BaseSwapped(x, b, room, cap)) && PartOk(Hands, BaseSwapped(x, b, room, cap))
  {
    assert PartOk(Links, x) && PartOk(Hands, x);
    assert x.l.own[b].c != 0 by {
      assert Listed(x.l.own, b, Held(0)) ==> b in x.hand;
    }
    SwapOk(x.heads, x.bigs, x.t, x.chain, x.l, b, room, cap);
  }

  lemma SwapStored(x: State, b: nat, room: nat, cap: nat)
    requires Good(x) && room != 0 && room !in x.l.own && b in x.t.base
    ensures PartOk(Storage, BaseSwapped(x, b, room, cap))
  {
    assert PartOk(Storage, x);
    var was := x.t.base[b];
    if Listed(x.l.own, was, Swapped(b)) {
      SwapDroppedOk(x.s, x.l, was);
      SwapAddedOk(x.s, x.l.(own := x.l.own - {was}), room, b);
    } else {
      SwapAddedOk(x.s, x.l, room, b);
    }
  }

  /** ptls_buffer_dispose() on a block in hand. */
  function BaseDisposed(x: State, b: nat): State
    requires b in x.t.base
  {
    x.(l := x.l.(own := x.l.own - {x.t.base[b]}))
  }

  lemma BaseDisposedGood(x: State, b: nat)
    requires Good(x) && b in x.hand && Listed(x.l.own, b, Held(0)) && b in x.t.base &&
             Listed(x.l.own, x.t.base[b], Swapped(b))
    ensures Good(BaseDisposed(x, b)) && Disposable(BaseDisposed(x, b), b)
  {
    assert PartOk(Links, x) && PartOk(Hands, x) && PartOk(Storage, x);
    Disposed(x.heads, x.bigs, x.t, x.chain, x.l, b, x.t.base[b]);
    SwapDroppedOk(x.s, x.l, x.t.base[b]);
    forall p ensures PartOk(p, BaseDisposed(x, b)) {
    }
  }

  // ---- connections ----

  lemma EmptyChain(x: State, c: nat)
    requires Good(x) && c in x.heads && x.heads[c] == 0
    ensures c in x.chain && x.chain[c] == []
  {
    assert PartOk(Links, x);
    assert ChainOk(x.heads[c], x.t.next, c, x.chain[c], x.l.own);
  }

  function Accepted(x: State, c: nat): State {
    x.(heads := x.heads[c := 0], bigs := x.bigs[c := 0], chain := x.chain[c := []])
  }

  lemma AcceptedGood(x: State, c: nat)
    requires Good(x) && c != 0 && c !in x.chain
    ensures Good(Accepted(x, c))
  {
    AcceptedLinks(x, c);
    forall p ensures PartOk(p, Accepted(x, c)) {
      assert PartOk(p, x);
    }
  }

  lemma AcceptedLinks(x: State, c: nat)
    requires Good(x) && c != 0 && c !in x.chain
    ensures PartOk(Links, Accepted(x, c))
  {
    assert PartOk(Links, x);
    Connected(x.heads, x.t.next, x.chain, x.l.own, c);
    ConnectedBigs(x.bigs, x.chain, x.l.own, c);
    ConnectedBases(x.t, x.bigs, x.l.own, x.l.size, c);
  }

  function Gone(x: State, c: nat): State {
    x.(heads := x.heads - {c}, bigs := x.bigs - {c}, chain := x.chain - {c})
  }

  lemma GoneGood(x: State, c: nat)
    requires Good(x) && c in x.heads && x.heads[c] == 0 && c in x.bigs && x.bigs[c] == 0
    ensures Good(Gone(x, c))
  {
    GoneLinks(x, c);
    forall p ensures PartOk(p, Gone(x, c)) {
      assert PartOk(p, x);
    }
  }

  lemma GoneLinks(x: State, c: nat)
    requires Good(x) && c in x.heads && x.heads[c] == 0 && c in x.bigs && x.bigs[c] == 0
    ensures PartOk(Links, Gone(x, c))
  {
    assert PartOk(Links, x) && PartOk(Storage, x);
    assert ChainOk(x.heads[c], x.t.next, c, x.chain[c], x.l.own);
    Disconnected(x.heads, x.t.next, x.chain, x.l.own, c);
    forall a | a in x.l.own && x.l.own[a].Held? ensures x.l.own[a].c != c || c == 0 {
      assert a in x.chain[c] <==> Listed(x.l.own, a, Held(c));
    }
  }
}
