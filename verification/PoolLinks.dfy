/** How blocks and oversized buffers join and leave the responses of the connections. */
module PoolLinks {
  import opened ThreadedLists
  import opened Ownership
  import opened TlsWrite

  type Ptrs = map<nat, nat>
  type Chains = map<nat, seq<nat>>

  /** The trailer of a block just opened: nothing behind it, pointing at its own data area. */
  function OpenedAt(t: Trailers, b: nat): Trailers {
    Trailers(t.next[b := 0], t.base[b := b], t.capacity[b := WBUF_SIZE])
  }

  lemma OpenedBases(bigs: Ptrs, t: Trailers, next: Ptrs, own: Owners, size: map<nat, nat>, c: nat, b: nat)
    requires BasesOk(t, bigs, own, size) && Listed(own, b, Held(0)) && Idle(own, b) && c in bigs && c != 0
    ensures BasesOk(Trailers(next, t.base[b := b], t.capacity[b := WBUF_SIZE]), bigs, own[b := Held(c)], size)
  {
  }

  lemma OpenedBigs(bigs: Ptrs, chain: Chains, own: Owners, c: nat, b: nat)
    requires BigsOk(bigs, chain, own) && Listed(own, b, Held(0)) && c in bigs && bigs[c] == 0
    ensures BigsOk(bigs, chain[c := chain[c] + [b]], own[b := Held(c)])
  {
  }

  lemma OpenedFirst(heads: Ptrs, bigs: Ptrs, t: Trailers, chain: Chains, l: Ledger, c: nat, b: nat)
    requires ConnOk(heads, bigs, t, chain, l) && c in chain && chain[c] == [] && bigs[c] == 0
    requires b != 0 && Listed(l.own, b, Held(0)) && Idle(l.own, b)
    ensures ConnOk(heads[c := b], bigs, OpenedAt(t, b), chain[c := [b]], l.(own := l.own[b := Held(c)]))
  {
    AttachedFirst(heads, t.next, chain, l.own, c, b);
    OpenedBigs(bigs, chain, l.own, c, b);
    OpenedBases(bigs, t, t.next[b := 0], l.own, l.size, c, b);
    assert chain[c] + [b] == [b];
  }

  lemma OpenedNext(heads: Ptrs, bigs: Ptrs, t: Trailers, chain: Chains, l: Ledger, c: nat, b: nat)
    requires ConnOk(heads, bigs, t, chain, l) && c in chain && chain[c] != [] && bigs[c] == 0
    requires b != 0 && Listed(l.own, b, Held(0)) && Idle(l.own, b)
    ensures ConnOk(heads, bigs, OpenedAt(t.(next := t.next[Last(chain[c]) := b]), b), chain[c := chain[c] + [b]],
            l.(own := l.own[b := Held(c)]))
  {
    AttachedLast(heads, t.next, chain, l.own, c, b);
    OpenedBigs(bigs, chain, l.own, c, b);
    OpenedBases(bigs, t, t.next[Last(chain[c]) := b][b := 0], l.own, l.size, c, b);
  }

  /** The oversized buffer joins a response of one untouched block. */
  lemma OpenedBig(heads: Ptrs, bigs: Ptrs, t: Trailers, chain: Chains, l: Ledger, c: nat, b: nat, g: nat, cap: nat)
    requires ConnOk(heads, bigs, t, chain, l) && c in chain && chain[c] == [b] && bigs[c] == 0
    requires b in t.base && t.base[b] == b
    requires 0 !in l.own && g != 0 && Listed(l.own, g, Big(0)) && g in l.size && l.size[g] == cap
    ensures ConnOk(heads, bigs[c := g], t.(base := t.base[b := g], capacity := t.capacity[b := cap]), chain,
            l.(own := l.own[g := Big(c)]))
  {
    var t' := t.(base := t.base[b := g], capacity := t.capacity[b := cap]);
    var own' := l.own[g := Big(c)];
    ChainsFrame(heads, t.next, chain, l.own, own');
    OnlyBlock(heads, t, chain, l, c, b);
    BigBases(bigs, t, l.own, l.size, c, b, g, cap);
  }

  lemma OnlyBlock(heads: Ptrs, t: Trailers, chain: Chains, l: Ledger, c: nat, b: nat)
    requires ChainsOk(heads, t.next, chain, l.own) && c in chain && chain[c] == [b]
    ensures forall a :: a in l.own && l.own[a] == Held(c) <==> a == b
  {
    forall a ensures a in l.own && l.own[a] == Held(c) <==> a == b {
      assert a in chain[c] <==> Listed(l.own, a, Held(c));
    }
  }

  lemma BigBases(bigs: Ptrs, t: Trailers, own: Owners, size: map<nat, nat>, c: nat, b: nat, g: nat, cap: nat)
    requires BasesOk(t, bigs, own, size) && c in bigs && bigs[c] == 0 && c != 0
    requires forall a :: a in own && own[a] == Held(c) <==> a == b
    requires b in t.base && t.base[b] == b
    requires g != 0 && Listed(own, g, Big(0)) && g in size && size[g] == cap
    ensures BasesOk(t.(base := t.base[b := g], capacity := t.capacity[b := cap]), bigs[c := g], own[g := Big(c)], size)
  {
  }

  /** picotls outgrows what a block points at, and moves to a buffer of its own; one it had
      allocated for the block before, it frees. */
  function SwappedOut(own: Owners, b: nat, was: nat, room: nat): Owners {
    (if Listed(own, was, Swapped(b)) then own - {was} else own)[room := Swapped(b)]
  }

  lemma SwapOk(heads: Ptrs, bigs: Ptrs, t: Trailers, chain: Chains, l: Ledger, b: nat, room: nat, cap: nat)
    requires ConnOk(heads, bigs, t, chain, l)
    requires b in l.own && l.own[b].Held? && l.own[b].c != 0 && room != 0 && room !in l.own && b in t.base
    ensures ConnOk(heads, bigs, t.(base := t.base[b := room], capacity := t.capacity[b := cap]), chain,
                   l.(own := SwappedOut(l.own, b, t.base[b], room)))
  {
    var own' := SwappedOut(l.own, b, t.base[b], room);
    ChainsFrame(heads, t.next, chain, l.own, own');
    SwapBases(bigs, t, l.own, l.size, b, room, cap);
  }

  lemma SwapBases(bigs: Ptrs, t: Trailers, own: Owners, size: map<nat, nat>, b: nat, room: nat, cap: nat)
    requires BasesOk(t, bigs, own, size)
    requires b in own && own[b].Held? && own[b].c != 0 && room != 0 && room !in own && b in t.base
    ensures BasesOk(t.(base := t.base[b := room], capacity := t.capacity[b := cap]), bigs,
            SwappedOut(own, b, t.base[b], room), size)
  {
  }

  // ---- leaving ----

  lemma UnlinkedBases(bigs: Ptrs, t: Trailers, own: Owners, size: map<nat, nat>, b: nat)
    requires BasesOk(t, bigs, own, size) && b in own && own[b].Held?
    ensures BasesOk(t, bigs, own[b := Held(0)], size)
  {
  }

  /** The first block of a response is unlinked. */
  lemma Unlinked(heads: Ptrs, bigs: Ptrs, t: Trailers, chain: Chains, l: Ledger, c: nat)
    requires ConnOk(heads, bigs, t, chain, l) && c in chain && heads[c] != 0
    ensures var b := heads[c];
            && b in t.next && Listed(l.own, b, Held(c)) && chain[c] != [] && c in bigs
            && Based(b, t, bigs[c], l.own, l.size)
            && ConnOk(heads[c := t.next[b]], bigs, t, chain[c := chain[c][1..]], l.(own := l.own[b := Held(0)]))
  {
    Detached(heads, t.next, chain, l.own, c);
    UnlinkedBases(bigs, t, l.own, l.size, heads[c]);
  }

  /** With its last block unlinked, a response gives up its oversized buffer. */
  lemma BigUnlinked(heads: Ptrs, bigs: Ptrs, t: Trailers, chain: Chains, l: Ledger, c: nat)
    requires ConnOk(heads, bigs, t, chain, l) && c in chain && chain[c] == [] && bigs[c] != 0
    ensures Listed(l.own, bigs[c], Big(c))
    ensures ConnOk(heads, bigs[c := 0], t, chain, l.(own := l.own[bigs[c] := Big(0)]))
  {
    var own' := l.own[bigs[c] := Big(0)];
    ChainsFrame(heads, t.next, chain, l.own, own');
    forall a | a in l.own && l.own[a].Held? ensures l.own[a].c != c {
      assert a in chain[c] <==> Listed(l.own, a, Held(c));
    }
  }

  /** What picotls allocated for an unlinked block is disposed of. */
  lemma Disposed(heads: Ptrs, bigs: Ptrs, t: Trailers, chain: Chains, l: Ledger, b: nat, x: nat)
    requires ConnOk(heads, bigs, t, chain, l) && Listed(l.own, x, Swapped(b)) && Listed(l.own, b, Held(0))
    ensures ConnOk(heads, bigs, t, chain, l.(own := l.own - {x})) && Idle(l.own - {x}, b)
  {
  }

  // ---- a connection without a response ----

  lemma ConnectedBigs(bigs: Ptrs, chain: Chains, own: Owners, c: nat)
    requires BigsOk(bigs, chain, own) && c !in bigs
    ensures BigsOk(bigs[c := 0], chain[c := []], own)
  {
  }

  lemma ConnectedBases(t: Trailers, bigs: Ptrs, own: Owners, size: map<nat, nat>, c: nat)
    requires BasesOk(t, bigs, own, size) && c !in bigs
    ensures BasesOk(t, bigs[c := 0], own, size)
  {
  }
}
