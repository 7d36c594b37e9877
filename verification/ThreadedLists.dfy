/** Lists threaded through the blocks they hold: a head and, in a word of each block, the next
    block.  Addresses are numbers and 0 is the null pointer. */
module ThreadedLists {

  /** Followed from `head`, the list is exactly `items`: it ends, and repeats nothing. */
  predicate Threads(head: nat, link: map<nat, nat>, items: seq<nat>)
    decreases |items|
  {
    if items == [] then head == 0
    else
      && head == items[0] != 0 && head in link && head !in items[1..]
      && Threads(link[head], link, items[1..])
  }

  /** A threaded list determines what it holds: there is one way to follow it. */
  lemma {:induction false} ThreadsUnique(head: nat, link: map<nat, nat>, a: seq<nat>, b: seq<nat>)
    requires Threads(head, link, a) && Threads(head, link, b)
    ensures a == b
    decreases |a|
  {
    if a != [] && b != [] {
      ThreadsUnique(link[head], link, a[1..], b[1..]);
      assert a == [a[0]] + a[1..] && b == [b[0]] + b[1..];
    }
  }

  /** A list does not notice writes to blocks it does not hold. */
  lemma {:induction false} ThreadsFrame(head: nat, link: map<nat, nat>, link': map<nat, nat>, items: seq<nat>)
    requires Threads(head, link, items)
    requires forall a :: a in items && a in link ==> a in link' && link'[a] == link[a]
    ensures Threads(head, link', items)
    decreases |items|
  {
    if items != [] {
      assert items[0] in items;
      forall a | a in items[1..] && a in link ensures a in link' && link'[a] == link[a] {
        assert a in items;
      }
      ThreadsFrame(link[head], link, link', items[1..]);
    }
  }

  lemma ThreadsPush(head: nat, link: map<nat, nat>, items: seq<nat>, block: nat)
    requires Threads(head, link, items) && block != 0 && block !in items
    ensures Threads(block, link[block := head], [block] + items)
  {
    ThreadsFrame(head, link, link[block := head], items);
    assert ([block] + items)[1..] == items;
  }

  function Last(items: seq<nat>): nat
    requires items != []
  {
    items[|items| - 1]
  }

  /** Linking a fresh block behind the last one. */
  lemma {:induction false} ThreadsAppend(head: nat, link: map<nat, nat>, items: seq<nat>, block: nat)
    requires Threads(head, link, items) && items != [] && block != 0 && block !in items
    ensures Threads(head, link[Last(items) := block][block := 0], items + [block])
    decreases |items|
  {
    var link' := link[Last(items) := block][block := 0];
    var rest := items[1..];
    assert (items + [block])[1..] == rest + [block];
    if rest == [] {
      assert [block][1..] == [];
      assert Threads(block, link', [block]);
    } else {
      assert Last(rest) == Last(items) && Last(rest) in rest;
      ThreadsAppend(link[head], link, rest, block);
    }
  }
}
