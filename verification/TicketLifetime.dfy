/** Which key a worker picks out of a snapshot, and what that means for tickets over time. */
module TicketLifetime {
  import opened Sequences
  import opened TicketRing
  import opened TicketRingInvariant
  import opened TicketRingTheorems

  // ---- tls_ticket_key_pick_shared on a snapshot ----

  /** A snapshot's copy of a slot; entry 0 is cur. */
  function SlotKey(got: seq<int>, slot: nat): Key
    requires slot < RING && |got| == |SnapshotFields()|
  {
    Key(got[1 + 4 * slot], got[2 + 4 * slot], got[3 + 4 * slot])
  }

  predicate SlotLive(got: seq<int>, slot: nat)
    requires slot < RING && |got| == |SnapshotFields()|
  {
    got[4 + 4 * slot] != 0
  }

  /** Only the newest key seals. */
  function SealKey(got: seq<int>): Option<Key>
    requires |got| == |SnapshotFields()|
  {
    if 0 <= got[0] < RING && SlotLive(got, got[0]) then Some(SlotKey(got, got[0])) else None
  }

  /** The first live slot from `slot` on that carries the name. */
  function OpenKeyFrom(got: seq<int>, name: int, slot: nat): Option<Key>
    requires slot <= RING && |got| == |SnapshotFields()|
    decreases RING - slot
  {
    if slot == RING then None
    else if SlotLive(got, slot) && SlotKey(got, slot).name == name then Some(SlotKey(got, slot))
    else OpenKeyFrom(got, name, slot + 1)
  }

  /** The search of the unseal path. */
  method PickByName(got: seq<int>, name: int) returns (r: Option<Key>)
    requires |got| == |SnapshotFields()|
    ensures r == OpenKeyFrom(got, name, 0)
    ensures r.Some? ==> exists slot: nat ::
              slot < RING && SlotLive(got, slot) && SlotKey(got, slot) == r.value && r.value.name == name
    ensures r.None? ==> forall slot: nat :: slot < RING && SlotLive(got, slot) ==> SlotKey(got, slot).name != name
  {
    r := None;
    for i := 0 to RING
      invariant r == None && OpenKeyFrom(got, name, 0) == OpenKeyFrom(got, name, i)
      invariant forall slot: nat :: slot < i && SlotLive(got, slot) ==> SlotKey(got, slot).name != name
    {
      if SlotLive(got, i) && SlotKey(got, i).name == name {
        return Some(SlotKey(got, i));
      }
    }
  }

  lemma OpenKeyFinds(got: seq<int>, name: int, slot: nat, from: nat)
    requires from <= slot < RING && |got| == |SnapshotFields()|
    requires SlotLive(got, slot) && SlotKey(got, slot).name == name
    requires forall other: nat :: other < RING && other != slot && SlotLive(got, other) ==>
             SlotKey(got, other).name != name
    ensures OpenKeyFrom(got, name, from) == Some(SlotKey(got, slot))
  {
  }

  lemma OpenKeyMisses(got: seq<int>, name: int, from: nat)
    requires from <= RING && |got| == |SnapshotFields()|
    requires forall slot: nat :: slot < RING && SlotLive(got, slot) ==> SlotKey(got, slot).name != name
    ensures OpenKeyFrom(got, name, from) == None
  {
  }

  // ---- snapshots of publications ----

  predicate IsSnapshot(d: Done) {
    d.want == SnapshotFields()
  }

  /** A coherent snapshot shows, slot by slot, the ring of its publication. */
  lemma SnapshotShows(t: Sys, d: Done, slot: nat)
    requires Coherent(t, d) && IsSnapshot(d) && slot < RING
    ensures var mem := t.pubs[d.ended - 1].mem;
            && d.got[0] == mem[CUR]
            && SlotKey(d.got, slot) == KeyIn(mem, slot) && SlotLive(d.got, slot) == Live(mem, slot)
  {
  }

  /** A slot of a snapshot holds what publication `n` left there. */
  predicate SlotShows(got: seq<int>, pubs: seq<Pub>, n: nat, slot: nat)
    requires |got| == |SnapshotFields()| && n < |pubs| && slot < RING
  {
    var g := Generation(n, slot);
    && g <= n < g + RING && g % RING == slot && SlotLive(got, slot) == (g >= 0)
    && (g >= 0 ==> SlotKey(got, slot) == pubs[g].key)
  }

  /** The snapshot is that of publication `n`. */
  predicate IsOf(got: seq<int>, pubs: seq<Pub>, n: nat) {
    && |got| == |SnapshotFields()| && n < |pubs| && got[0] == n % RING
    && SlotShows(got, pubs, n, 0) && SlotShows(got, pubs, n, 1) && SlotShows(got, pubs, n, 2)
  }

  lemma SnapshotSlot(t: Sys, d: Done, slot: nat)
    requires Counting(t) && InPlace(t) && Coherent(t, d) && IsSnapshot(d) && slot < RING
    ensures d.got[0] == (d.ended - 1) % RING && SlotShows(d.got, t.pubs, d.ended - 1, slot)
  {
    SnapshotShows(t, d, slot);
    GenerationStep(d.ended - 1, slot);
    assert Holds(t.pubs, d.ended - 1, t.pubs[d.ended - 1].mem);
  }

  lemma SnapshotIs(t: Sys, d: Done)
    requires Counting(t) && InPlace(t) && Coherent(t, d) && IsSnapshot(d)
    ensures 1 <= d.ended <= |t.pubs| && IsOf(d.got, t.pubs, d.ended - 1)
  {
    SnapshotSlot(t, d, 0);
    SnapshotSlot(t, d, 1);
    SnapshotSlot(t, d, 2);
  }

  lemma LogCoherent(s: Sys, es: seq<Event>, t: Sys, i: nat)
    requires Initial(s) && Reachable(s, es, t) && |t.pubs| < UINT32 / 2 && i < |t.log|
    ensures Counting(t) && InPlace(t) && Coherent(t, t.log[i])
  {
    ReachableInv(s, es, t);
  }

  /** Every successful snapshot read is one publication's. */
  lemma SnapshotOf(s: Sys, es: seq<Event>, t: Sys, i: nat)
    requires Initial(s) && Reachable(s, es, t) && |t.pubs| < UINT32 / 2
    requires i < |t.log| && IsSnapshot(t.log[i])
    ensures 1 <= t.log[i].ended <= |t.pubs| && IsOf(t.log[i].got, t.pubs, t.log[i].ended - 1)
  {
    LogCoherent(s, es, t, i);
    SnapshotIs(t, t.log[i]);
  }

  lemma LogAdvances(s: Sys, es: seq<Event>, t: Sys, i: nat, j: nat)
    requires Initial(s) && Reachable(s, es, t) && |t.pubs| < UINT32 / 2 && i <= j < |t.log|
    ensures t.log[i].ended <= t.log[j].ended
  {
    ReachableInv(s, es, t);
  }

  lemma SealsNewest(got: seq<int>, pubs: seq<Pub>, n: nat)
    requires IsOf(got, pubs, n)
    ensures SealKey(got) == Some(pubs[n].key)
  {
    SlotOf(n, n);
    assert SlotShows(got, pubs, n, n % RING);
  }

  lemma OpensMinted(got: seq<int>, pubs: seq<Pub>, n: nat, name: int)
    requires IsOf(got, pubs, n)
    ensures var r := OpenKeyFrom(got, name, 0); r.Some? ==> exists g :: 0 <= g <= n && pubs[g].key == r.value
  {
    if OpenKeyFrom(got, name, 0).Some? {
      var slot := FoundSlot(got, name, 0);
      assert SlotShows(got, pubs, n, slot);
    }
  }

  /** No torn picks: whatever a worker picks, to seal or to open, is one whole minted key. */
  lemma PickedKeyIsMinted(s: Sys, es: seq<Event>, t: Sys, d: Done, name: int)
    requires Initial(s) && Reachable(s, es, t) && |t.pubs| < UINT32 / 2
    requires d in t.log && IsSnapshot(d)
    ensures |d.got| == |SnapshotFields()| && 1 <= d.ended <= |t.pubs|
    ensures SealKey(d.got) == Some(t.pubs[d.ended - 1].key)
    ensures var r := OpenKeyFrom(d.got, name, 0);
            r.Some? ==> exists g :: 0 <= g < d.ended && t.pubs[g].key == r.value
  {
    var i :| 0 <= i < |t.log| && t.log[i] == d;
    SnapshotOf(s, es, t, i);
    SealsNewest(d.got, t.pubs, d.ended - 1);
    OpensMinted(d.got, t.pubs, d.ended - 1, name);
  }

  lemma {:induction false} FoundSlot(got: seq<int>, name: int, from: nat) returns (slot: nat)
    requires from <= RING && |got| == |SnapshotFields()| && OpenKeyFrom(got, name, from).Some?
    ensures slot < RING && SlotLive(got, slot) && OpenKeyFrom(got, name, from).value == SlotKey(got, slot)
    decreases RING - from
  {
    if SlotLive(got, from) && SlotKey(got, from).name == name {
      slot := from;
    } else {
      slot := FoundSlot(got, name, from + 1);
    }
  }

  // ---- lifetime ----

  predicate FreshNames(pubs: seq<Pub>) {
    forall i, j :: 0 <= i < j < |pubs| ==> pubs[i].key.name != pubs[j].key.name
  }

  /** Rotations never come early. */
  predicate Spaced(pubs: seq<Pub>) {
    forall n :: 0 <= n && n + 1 < |pubs| ==> pubs[n].began + ROTATE_MS <= pubs[n + 1].began
  }

  /** A generation's name is found exactly while a slot holds it. */
  lemma OpensWhileHeld(got: seq<int>, pubs: seq<Pub>, n: nat, g: nat)
    requires IsOf(got, pubs, n) && FreshNames(pubs) && g < |pubs|
    ensures OpenKeyFrom(got, pubs[g].key.name, 0) == if g <= n < g + RING then Some(pubs[g].key) else None
  {
    OthersDiffer(got, pubs, n, g);
    if g <= n < g + RING {
      SlotOf(n, g);
      assert SlotShows(got, pubs, n, g % RING);
      OpenKeyFinds(got, pubs[g].key.name, g % RING, 0);
    } else {
      OpenKeyMisses(got, pubs[g].key.name, 0);
    }
  }

  lemma OthersDiffer(got: seq<int>, pubs: seq<Pub>, n: nat, g: nat)
    requires IsOf(got, pubs, n) && FreshNames(pubs) && g < |pubs|
    ensures forall slot: nat :: slot < RING && SlotLive(got, slot) && !(g <= n < g + RING && slot == g % RING) ==>
              SlotKey(got, slot).name != pubs[g].key.name
  {
    forall slot: nat | slot < RING && SlotLive(got, slot) && !(g <= n < g + RING && slot == g % RING)
      ensures SlotKey(got, slot).name != pubs[g].key.name
    {
      assert SlotShows(got, pubs, n, slot);
      assert Generation(n, slot) != g;
    }
  }

  lemma RetiresExactly(sealing: seq<int>, opening: seq<int>, pubs: seq<Pub>, m: nat, n: nat)
    requires IsOf(sealing, pubs, m) && IsOf(opening, pubs, n) && m <= n && FreshNames(pubs)
    ensures SealKey(sealing).Some?
    ensures var key := SealKey(sealing).value;
            OpenKeyFrom(opening, key.name, 0) == if n - m < RING then Some(key) else None
  {
    SealsNewest(sealing, pubs, m);
    OpensWhileHeld(opening, pubs, n, m);
  }

  /** A ticket's key: sealed from read `i`, it opens from the later read `j` if and only if
      fewer than RING publications lie between them. */
  lemma OpensUntilRetired(s: Sys, es: seq<Event>, t: Sys, i: nat, j: nat)
    requires Initial(s) && Reachable(s, es, t) && |t.pubs| < UINT32 / 2
    requires FreshNames(t.pubs) && i <= j < |t.log| && IsSnapshot(t.log[i]) && IsSnapshot(t.log[j])
    ensures |t.log[i].got| == |t.log[j].got| == |SnapshotFields()|
    ensures SealKey(t.log[i].got).Some?
    ensures var key := SealKey(t.log[i].got).value;
            OpenKeyFrom(t.log[j].got, key.name, 0) ==
              if t.log[j].ended - t.log[i].ended < RING then Some(key) else None
  {
    SnapshotOf(s, es, t, i);
    SnapshotOf(s, es, t, j);
    LogAdvances(s, es, t, i, j);
    RetiresExactly(t.log[i].got, t.log[j].got, t.pubs, t.log[i].ended - 1, t.log[j].ended - 1);
  }

  /** RING rotations take at least the lifetime of a ticket. */
  lemma RotationsTakeLong(t: Sys, i: nat, j: nat)
    requires Inv(t) && Spaced(t.pubs) && i <= j < |t.log|
    requires t.log[j].ended - t.log[i].ended >= RING
    ensures t.log[j].at >= t.log[i].at + LIFETIME_MS
  {
    var a, b := t.log[i], t.log[j];
    assert Coherent(t, a) && Coherent(t, b);
    var g := a.ended;
    assert t.pubs[g].began + ROTATE_MS <= t.pubs[g + 1].began;
    assert t.pubs[g + 1].began + ROTATE_MS <= t.pubs[g + 2].began;
    assert TimedPub(t, t.pubs[g + 2]) && TimedPub(t, t.pubs[b.ended - 1]);
  }

  // ---- sealing ----

  /** A read of the ring in a run: one that succeeded, or one that lost every attempt. */
  datatype RingRead = Succeeded(i: nat) | GaveUp(i: nat)

  predicate Happened(t: Sys, read: RingRead, want: seq<nat>) {
    match read
    case Succeeded(i) => i < |t.log| && t.log[i].want == want
    case GaveUp(i) => i < |t.lost| && t.lost[i].want == want
  }

  /** The key a ticket is sealed under: the one picked from the read that succeeded, or, when
      that gave up, a fresh one that is in no ring. */
  function SealedUnder(t: Sys, read: RingRead, mint: Key): Key
    requires Happened(t, read, SnapshotFields())
  {
    if read.Succeeded? && |t.log[read.i].got| == |SnapshotFields()| && SealKey(t.log[read.i].got).Some?
    then SealKey(t.log[read.i].got).value
    else mint
  }

  /** A name no publication brought is not found in any snapshot. */
  lemma ForeignNeverOpens(got: seq<int>, pubs: seq<Pub>, n: nat, name: int)
    requires IsOf(got, pubs, n) && forall g :: 0 <= g < |pubs| ==> pubs[g].key.name != name
    ensures OpenKeyFrom(got, name, 0) == None
  {
    forall slot: nat | slot < RING && SlotLive(got, slot) ensures SlotKey(got, slot).name != name {
      assert SlotShows(got, pubs, n, slot);
    }
    OpenKeyMisses(got, name, 0);
  }

  /** A ticket sealed from read `i` is openable before its lifetime is over. */
  lemma OpensInTime(s: Sys, es: seq<Event>, t: Sys, i: nat, j: nat)
    requires Initial(s) && Reachable(s, es, t) && |t.pubs| < UINT32 / 2
    requires FreshNames(t.pubs) && Spaced(t.pubs)
    requires i <= j < |t.log| && IsSnapshot(t.log[i]) && IsSnapshot(t.log[j])
    requires t.log[j].at < t.log[i].at + LIFETIME_MS
    ensures |t.log[i].got| == |t.log[j].got| == |SnapshotFields()|
    ensures SealKey(t.log[i].got).Some?
    ensures var key := SealKey(t.log[i].got).value;
            OpenKeyFrom(t.log[j].got, key.name, 0) == Some(key)
  {
    OpensUntilRetired(s, es, t, i, j);
    if t.log[j].ended - t.log[i].ended >= RING {
      ReachableInv(s, es, t);
      RotationsTakeLong(t, i, j);
      assert false;
    }
  }

  /** Ticket lifetime: with rotations at least ROTATE apart, a ticket is openable on every
      process reading the ring, at any time before LIFETIME later, if and only if the read
      behind its seal succeeded; one that gave up had made all its attempts, and its ticket
      is never openable. */
  lemma TicketOutlivesPromise(s: Sys, es: seq<Event>, t: Sys, read: RingRead, mint: Key, j: nat)
    requires Initial(s) && Reachable(s, es, t) && |t.pubs| < UINT32 / 2
    requires FreshNames(t.pubs) && Spaced(t.pubs) && forall g :: 0 <= g < |t.pubs| ==> t.pubs[g].key.name != mint.name
    requires j < |t.log| && IsSnapshot(t.log[j]) && Happened(t, read, SnapshotFields())
    requires read.Succeeded? ==> read.i <= j && t.log[j].at < t.log[read.i].at + LIFETIME_MS
    ensures |t.log[j].got| == |SnapshotFields()|
    ensures var key := SealedUnder(t, read, mint);
            OpenKeyFrom(t.log[j].got, key.name, 0) == if read.Succeeded? then Some(key) else None
    ensures read.GaveUp? ==> GaveUpRightly(t.lost[read.i])
  {
    match read
    case Succeeded(i) =>
      OpensInTime(s, es, t, i, j);
    case GaveUp(i) =>
      LostReadsTried(s, es, t);
      SnapshotOf(s, es, t, j);
      ForeignNeverOpens(t.log[j].got, t.pubs, t.log[j].ended - 1, mint.name);
  }

  // ---- staleness ----

  /** tls_ticket_ring_is_stale(): after a stable read of the deadline, whether that and the
      grace are over; after a lost one, no. */
  function IsStale(t: Sys, read: RingRead, now: nat, graceMs: nat): bool
    requires Happened(t, read, [DUE])
  {
    read.Succeeded? && |t.log[read.i].got| == 1 && now > t.log[read.i].got[0] + graceMs
  }

  /** The ceilings tls_ticket_ring_attach() enforces on what the owner published. */
  predicate AttachOk(rotateMs: nat, graceMs: nat) {
    rotateMs <= ROTATE_MS && graceMs <= GRACE_MS
  }

  /** Rotations never come late. */
  predicate Punctual(pubs: seq<Pub>) {
    forall n :: 0 <= n && n + 1 < |pubs| ==> pubs[n + 1].stamp <= pubs[n].stamp + ROTATE_MS
  }

  /** A stable read of the deadline gives that of one publication. */
  lemma DeadlineRead(s: Sys, es: seq<Event>, t: Sys, i: nat)
    requires Initial(s) && Reachable(s, es, t) && |t.pubs| < UINT32 / 2
    requires i < |t.log| && t.log[i].want == [DUE]
    ensures |t.log[i].got| == 1 && 1 <= t.log[i].ended <= |t.pubs|
    ensures t.log[i].got[0] == t.pubs[t.log[i].ended - 1].stamp + t.rotateMs
  {
    ReachableInv(s, es, t);
    var d := t.log[i];
    assert Coherent(t, d) && TimedPub(t, t.pubs[d.ended - 1]);
    assert d.got[0] == t.pubs[d.ended - 1].mem[d.want[0]];
  }

  /** The ring is found stale if and only if the read succeeded and the publication it showed
      is older than the rotation period and the grace together. */
  lemma StaleExactly(s: Sys, es: seq<Event>, t: Sys, read: RingRead, now: nat, graceMs: nat)
    requires Initial(s) && Reachable(s, es, t) && |t.pubs| < UINT32 / 2 && Happened(t, read, [DUE])
    ensures read.Succeeded? ==> 1 <= t.log[read.i].ended <= |t.pubs|
    ensures IsStale(t, read, now, graceMs) <==>
              read.Succeeded? && now > t.pubs[t.log[read.i].ended - 1].stamp + t.rotateMs + graceMs
  {
    if read.Succeeded? {
      DeadlineRead(s, es, t, read.i);
    }
  }

  /** An owner that is late by no more than the grace is never found stale: not until its next
      publication is due, if that comes in time. */
  lemma LateOwnerNotStale(s: Sys, es: seq<Event>, t: Sys, read: RingRead, now: nat, graceMs: nat)
    requires Initial(s) && Reachable(s, es, t) && |t.pubs| < UINT32 / 2 && Happened(t, read, [DUE])
    requires read.Succeeded? ==>
               && t.log[read.i].ended < |t.pubs| && now <= t.pubs[t.log[read.i].ended].stamp
               && (var n := t.log[read.i].ended;
                   1 <= n ==> t.pubs[n].stamp <= t.pubs[n - 1].stamp + t.rotateMs + graceMs)
    ensures !IsStale(t, read, now, graceMs)
  {
    StaleExactly(s, es, t, read, now, graceMs);
  }

  /** Staleness bound: a worker that finds the ring fresh by a stable read uses a sealing key
      published at most ROTATE + GRACE ago, and, if earlier rotations were punctual, live keys
      published at most RING * ROTATE + GRACE ago. */
  lemma FreshMeansRecent(s: Sys, es: seq<Event>, t: Sys, read: RingRead, now: nat, graceMs: nat)
    requires Initial(s) && Reachable(s, es, t) && |t.pubs| < UINT32 / 2
    requires Happened(t, read, [DUE]) && read.Succeeded? && AttachOk(t.rotateMs, graceMs)
    ensures 1 <= t.log[read.i].ended <= |t.pubs|
    ensures !IsStale(t, read, now, graceMs) ==>
              && now <= t.pubs[t.log[read.i].ended - 1].stamp + ROTATE_MS + GRACE_MS
              && (Punctual(t.pubs) ==>
                    forall g: nat :: g < t.log[read.i].ended <= g + RING ==>
                      now <= t.pubs[g].stamp + RING * ROTATE_MS + GRACE_MS)
  {
    StaleExactly(s, es, t, read, now, graceMs);
    var n := t.log[read.i].ended - 1;
    if !IsStale(t, read, now, graceMs) && Punctual(t.pubs) {
      forall g: nat | g <= n < g + RING ensures now <= t.pubs[g].stamp + RING * ROTATE_MS + GRACE_MS {
        assert n > g ==> t.pubs[g + 1].stamp <= t.pubs[g].stamp + ROTATE_MS;
        assert n > g + 1 ==> t.pubs[g + 2].stamp <= t.pubs[g + 1].stamp + ROTATE_MS;
      }
    }
  }
}
