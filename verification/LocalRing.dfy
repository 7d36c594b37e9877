/** The ring of a server that runs a single process, rotated in place. */
module LocalRing {
  import opened TicketRing
  import opened TicketRingInvariant
  import opened TicketRingTheorems

  /** A slot; one that is not live has never been filled, or was just zeroized. */
  datatype Slot = Slot(key: Key, live: bool)

  const ZERO: Slot := Slot(Key(0, 0, 0), false)

  /** What a slot holds once `minted` keys were minted, newest last. */
  function SlotAfter(minted: seq<Key>, slot: nat): Slot
    requires slot < RING && minted != []
  {
    var g := Generation(|minted| - 1, slot);
    if 0 <= g < |minted| then Slot(minted[g], true) else ZERO
  }

  /** A rotation fills one slot and leaves the others. */
  lemma SlotRotated(minted: seq<Key>, mint: Key, slot: nat)
    requires slot < RING && minted != []
    ensures SlotAfter(minted + [mint], slot) ==
            if slot == |minted| % RING then Slot(mint, true) else SlotAfter(minted, slot)
  {
  }

  lemma NextAfter(n: nat)
    requires n > 0
    ensures ((n - 1) % RING + 1) % RING == n % RING
  {
  }

  class Ring {
    const keys: array<Slot>
    var cur: nat
    ghost var minted: seq<Key>   // every key this process minted, oldest first

    ghost predicate Valid()
      reads this, keys
    {
      && keys.Length == RING && minted != [] && cur == (|minted| - 1) % RING
      && forall slot: nat :: slot < RING ==> keys[slot] == SlotAfter(minted, slot)
    }

    constructor (first: Key)
      ensures Valid() && minted == [first] && fresh(keys)
    {
      keys := new Slot[RING](_ => ZERO);
      cur := 0;
      minted := [first];
      new;
      keys[0] := Slot(first, true);
    }

    method RotateOnce(mint: Key)
      requires Valid()
      modifies this, keys
      ensures Valid() && minted == old(minted) + [mint]
    {
      NextAfter(|minted|);
      forall slot: nat | slot < RING
        ensures SlotAfter(minted + [mint], slot) == if slot == |minted| % RING then Slot(mint, true)
                else SlotAfter(minted, slot)
      {
        SlotRotated(minted, mint, slot);
      }
      var next := (cur + 1) % RING;
      keys[next] := ZERO;
      keys[next] := Slot(mint, true);
      cur := next;
      minted := minted + [mint];
    }

    /** The newest key seals. */
    method SealKey() returns (s: Slot)
      requires Valid()
      ensures s == Slot(minted[|minted| - 1], true)
    {
      GenerationStep(|minted| - 1, cur);
      s := keys[cur];
    }

    /** A name opens exactly while its key is one of the last RING minted. */
    method ByName(name: int) returns (found: bool, slot: nat)
      requires Valid()
      ensures found <==> exists g :: 0 <= g < |minted| <= g + RING && minted[g].name == name
      ensures found ==> slot < RING && keys[slot].live && keys[slot].key in minted && keys[slot].key.name == name
    {
      for i := 0 to RING
        invariant forall j: nat :: j < i && keys[j].live ==> keys[j].key.name != name
      {
        if keys[i].live && keys[i].key.name == name {
          GenerationStep(|minted| - 1, i);
          ghost var g := Generation(|minted| - 1, i);
          assert 0 <= g < |minted| <= g + RING && minted[g].name == name;
          return true, i;
        }
      }
      forall g | 0 <= g < |minted| <= g + RING ensures minted[g].name != name {
        SlotOf(|minted| - 1, g);
        assert keys[g % RING] == SlotAfter(minted, g % RING);
      }
      return false, 0;
    }
  }
}
