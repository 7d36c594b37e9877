/** What every interleaving of the ring's writer and readers keeps. */
module TicketRingInvariant {
  import opened TicketRing

  /** seq counts half-publications.  It is a uint32, so this needs fewer than 2^31 of them. */
  predicate Counting(s: Sys) {
    && |s.mem| == FIELDS
    && |s.pubs| < UINT32 / 2
    && s.seqno == 2 * |s.pubs| + (if s.writer.Writing? then 1 else 0)
    && (s.writer.Writing? ==> s.writer.pc <= WRITES)
  }

  /** Every key slot of a ring after publication `n` holds the latest generation that maps
      to it, or has never been filled. */
  function Generation(n: nat, slot: nat): int
    requires slot < RING
  {
    n - (n - slot) % RING
  }

  ghost predicate Holds(pubs: seq<Pub>, n: int, mem: seq<int>)
    requires -1 <= n < |pubs| && |mem| == FIELDS
  {
    && (n >= 0 ==> mem[CUR] == n % RING)
    && forall slot: nat :: slot < RING ==>
         if n < 0 || Generation(n, slot) < 0 then !Live(mem, slot)
         else Live(mem, slot) && KeyIn(mem, slot) == pubs[Generation(n, slot)].key
  }

  /** The ring the current or last publication started from. */
  function Settled(s: Sys): seq<int> {
    if s.pubs == [] then seq(FIELDS, _ => 0) else s.pubs[|s.pubs| - 1].mem
  }

  /** A ring after the first `pc` stores of a publication. */
  function After(base: seq<int>, slot: nat, key: Key, pc: nat, due: int): (r: seq<int>)
    requires |base| == FIELDS && slot < RING && pc <= WRITES
    ensures |r| == FIELDS
  {
    if pc == 0 then base
    else
      var (i, v) := Store(slot, key, pc - 1, due);
      After(base, slot, key, pc - 1, due)[i := v]
  }

  ghost predicate InPlace(s: Sys) {
    && (forall n :: 0 <= n < |s.pubs| ==> |s.pubs[n].mem| == FIELDS && Holds(s.pubs, n, s.pubs[n].mem))
    && |Settled(s)| == FIELDS
    && (match s.writer
        case Resting => s.mem == Settled(s)
        case Writing(slot, key, pc, _, _, stamp) =>
          slot == |s.pubs| % RING && pc <= WRITES &&
          s.mem == After(Settled(s), slot, key, pc, stamp + s.rotateMs))
  }

  lemma AfterIgnoresDue(base: seq<int>, slot: nat, key: Key, pc: nat, due: int, due': int)
    requires |base| == FIELDS && slot < RING && pc < WRITES
    ensures After(base, slot, key, pc, due) == After(base, slot, key, pc, due')
  {
  }

  /** The ring a publication leaves: one slot and the two scalars new, the rest as before. */
  lemma AfterAll(base: seq<int>, slot: nat, key: Key, due: int)
    requires |base| == FIELDS && slot < RING
    ensures var r := After(base, slot, key, WRITES, due);
            && r[CUR] == slot && r[DUE] == due
            && Live(r, slot) && KeyIn(r, slot) == key
            && forall other: nat :: other < RING && other != slot ==>
                 KeyIn(r, other) == KeyIn(base, other) && Live(r, other) == Live(base, other)
  {
    var a := After(base, slot, key, 4, due);
    assert a == After(base, slot, key, 3, due)[Base(slot) + 3 := 0];
    assert After(base, slot, key, 2, due) == After(base, slot, key, 1, due)[Base(slot) + 1 := 0];
    var b := After(base, slot, key, 8, due);
    assert After(base, slot, key, 6, due) == After(base, slot, key, 5, due)[Base(slot) + 1 := key.aes];
    assert b == After(base, slot, key, 7, due)[Base(slot) + 3 := 1];
  }

  lemma GenerationStep(n: nat, slot: nat)
    requires slot < RING
    ensures Generation(n, slot) ==
            (if slot == n % RING then n else if n == 0 then slot - RING else Generation(n - 1, slot))
    ensures n - RING < Generation(n, slot) <= n && Generation(n, slot) % RING == slot
  {
  }

  /** A complete publication moves the ring on by one generation. */
  lemma PublishHolds(pubs: seq<Pub>, base: seq<int>, p: Pub, due: int)
    requires |base| == FIELDS && Holds(pubs, |pubs| - 1, base)
    requires p.mem == After(base, |pubs| % RING, p.key, WRITES, due)
    ensures Holds(pubs + [p], |pubs|, p.mem)
  {
    var n := |pubs|;
    AfterAll(base, n % RING, p.key, due);
    forall slot: nat | slot < RING
      ensures if Generation(n, slot) < 0 then !Live(p.mem, slot)
              else Live(p.mem, slot) && KeyIn(p.mem, slot) == (pubs + [p])[Generation(n, slot)].key
    {
      GenerationStep(n, slot);
    }
  }

  lemma HoldsExtends(pubs: seq<Pub>, p: Pub, n: nat)
    requires n < |pubs| && |pubs[n].mem| == FIELDS && Holds(pubs, n, pubs[n].mem)
    ensures Holds(pubs + [p], n, pubs[n].mem)
  {
  }

  lemma SettledHolds(s: Sys)
    requires Counting(s) && InPlace(s)
    ensures Holds(s.pubs, |s.pubs| - 1, Settled(s))
  {
  }

  lemma NextSlotIs(s: Sys)
    requires Counting(s) && InPlace(s) && s.writer.Resting?
    ensures NextSlot(s) == |s.pubs| % RING
  {
    SettledHolds(s);
    if s.pubs != [] {
      assert Holds(s.pubs, |s.pubs| - 1, Settled(s));
    }
  }

  lemma InPlaceBegin(s: Sys, key: Key)
    requires Counting(s) && InPlace(s) && Enabled(s, Begin(key))
    ensures InPlace(BeginPublish(s, key))
  {
    NextSlotIs(s);
    var t := BeginPublish(s, key);
    assert t.pubs == s.pubs && Settled(t) == Settled(s);
  }

  lemma InPlaceWrite(s: Sys)
    requires Counting(s) && InPlace(s) && Enabled(s, Write)
    ensures InPlace(WriteNext(s))
  {
    var w := s.writer;
    AfterIgnoresDue(Settled(s), w.slot, w.key, w.pc, w.stamp + s.rotateMs, s.now + s.rotateMs);
  }

  lemma InPlaceEnd(s: Sys)
    requires Counting(s) && InPlace(s) && Enabled(s, End)
    ensures InPlace(EndPublish(s))
  {
    SettledHolds(s);
    var t := EndPublish(s);
    var p := t.pubs[|s.pubs|];
    PublishHolds(s.pubs, Settled(s), p, s.writer.stamp + s.rotateMs);
    forall n | 0 <= n < |s.pubs| ensures Holds(t.pubs, n, t.pubs[n].mem) {
      HoldsExtends(s.pubs, p, n);
    }
  }

  lemma InPlaceStep(s: Sys, e: Event)
    requires Counting(s) && InPlace(s) && Enabled(s, e)
    ensures InPlace(Next(s, e))
  {
    match e
    case Begin(key) => InPlaceBegin(s, key);
    case Write => InPlaceWrite(s);
    case End => InPlaceEnd(s);
    case _ =>
  }

  lemma CountingStep(s: Sys, e: Event)
    requires Counting(s) && InPlace(s) && Enabled(s, e) && |Next(s, e).pubs| < UINT32 / 2
    ensures Counting(Next(s, e))
  {
  }

  // ---- readers ----

  /** While nothing has been published since a reader loaded seq, all it copied is current. */
  predicate Copying(s: Sys, r: Actor)
    requires |s.mem| == FIELDS
  {
    r.Reader? ==>
      && InRange(r.want) && r.begun <= |s.pubs|
      && (r.stage.Copy? ==>
            && |r.stage.got| <= |r.want|
            && r.stage.s1 == 2 * r.stage.seen && r.begun <= r.stage.seen <= |s.pubs| && 0 < r.stage.seen
            && (r.stage.seen == |s.pubs| && s.writer.Resting? ==>
                  forall i :: 0 <= i < |r.stage.got| ==> r.stage.got[i] == s.mem[r.want[i]]))
  }

  predicate AllCopying(s: Sys)
    requires |s.mem| == FIELDS
  {
    forall id :: id in s.actors ==> Copying(s, s.actors[id])
  }

  /** A reader that takes no step itself stays current or is overtaken. */
  lemma CopyingIdle(s: Sys, e: Event, r: Actor)
    requires Counting(s) && InPlace(s) && Copying(s, r) && Enabled(s, e) && Counting(Next(s, e))
    ensures Copying(Next(s, e), r)
  {
  }

  lemma CopyingOwn(s: Sys, e: Event, id: nat)
    requires Counting(s) && AllCopying(s) && Enabled(s, e) && Counting(Next(s, e))
    requires (e.Open? || e.LoadSeq? || e.CopyField? || e.Check?) && e.id == id
    requires id in Next(s, e).actors
    ensures Copying(Next(s, e), Next(s, e).actors[id])
  {
    assert id in s.actors ==> Copying(s, s.actors[id]);
  }

  lemma CopyingStep(s: Sys, e: Event)
    requires Counting(s) && InPlace(s) && AllCopying(s) && Enabled(s, e)
    requires Counting(Next(s, e))
    ensures AllCopying(Next(s, e))
  {
    var t := Next(s, e);
    forall id | id in t.actors ensures Copying(t, t.actors[id]) {
      if (e.Open? || e.LoadSeq? || e.CopyField? || e.Check?) && e.id == id {
        CopyingOwn(s, e, id);
      } else if t.actors[id].Reader? {
        assert id in s.actors && t.actors[id] == s.actors[id];
        CopyingIdle(s, e, s.actors[id]);
      }
    }
  }

  // ---- time ----

  predicate TimedPub(s: Sys, p: Pub) {
    && p.began <= p.stamp <= p.ended <= s.now && p.first < s.step && p.last < s.step
    && |p.mem| == FIELDS && p.mem[DUE] == p.stamp + s.rotateMs
  }

  predicate Timed(s: Sys) {
    && (forall n :: 0 <= n < |s.pubs| ==> TimedPub(s, s.pubs[n]))
    && (forall m, n :: 0 <= m < n < |s.pubs| ==> s.pubs[m].ended <= s.pubs[n].began)
    && (s.writer.Writing? ==>
          && s.writer.began <= s.now && s.writer.first < s.step
          && (s.writer.pc > 0 ==> s.writer.began <= s.writer.stamp <= s.now)
          && forall n :: 0 <= n < |s.pubs| ==> s.pubs[n].ended <= s.writer.began)
  }

  lemma TimedEnd(s: Sys)
    requires Counting(s) && InPlace(s) && Timed(s) && Enabled(s, End)
    ensures Timed(Next(s, End))
  {
  }

  lemma TimedStep(s: Sys, e: Event)
    requires Counting(s) && InPlace(s) && Timed(s) && Enabled(s, e)
    ensures Timed(Next(s, e))
  {
    if e.End? {
      TimedEnd(s);
    } else {
      var t := Next(s, e);
      assert t.pubs == s.pubs;
      forall n | 0 <= n < |t.pubs| ensures TimedPub(t, t.pubs[n]) {
        assert TimedPub(s, s.pubs[n]);
      }
    }
  }

  // ---- finished reads ----

  /** A successful read holds the latest publication complete at its final check, and no
      other had begun by then. */
  predicate Coherent(s: Sys, d: Done) {
    && InRange(d.want) && |d.got| == |d.want|
    && 1 <= d.ended <= |s.pubs| && d.begun <= d.ended
    && |s.pubs[d.ended - 1].mem| == FIELDS
    && (forall i :: 0 <= i < |d.got| ==> d.got[i] == s.pubs[d.ended - 1].mem[d.want[i]])
    && s.pubs[d.ended - 1].ended <= d.at <= s.now
    && (d.ended < |s.pubs| ==> d.at <= s.pubs[d.ended].began)
    && (d.ended == |s.pubs| && s.writer.Writing? ==> d.at <= s.writer.began)
  }

  predicate AllCoherent(s: Sys) {
    && (forall i :: 0 <= i < |s.log| ==> Coherent(s, s.log[i]))
    && (forall i, j :: 0 <= i < j < |s.log| ==> s.log[i].ended <= s.log[j].ended && s.log[i].at <= s.log[j].at)
  }

  lemma CoherentCheck(s: Sys, id: nat)
    requires Counting(s) && InPlace(s) && AllCopying(s) && Timed(s) && Enabled(s, Check(id))
    requires s.seqno == s.actors[id].stage.s1
    ensures var r := s.actors[id];
            Coherent(s, Done(r.want, r.stage.got, r.begun, |s.pubs|, r.prior, s.now))
  {
  }

  lemma CoherentKept(s: Sys, e: Event, d: Done)
    requires Counting(s) && Timed(s) && Coherent(s, d) && Enabled(s, e)
    ensures Coherent(Next(s, e), d)
  {
  }

  /** The read that a step completes, if any, comes last. */
  lemma LogGrows(s: Sys, e: Event)
    requires Enabled(s, e)
    ensures var t := Next(s, e);
            if e.Check? && s.seqno == s.actors[e.id].stage.s1 then
              var r := s.actors[e.id];
              t.log == s.log + [Done(r.want, r.stage.got, r.begun, |s.pubs|, r.prior, s.now)]
            else t.log == s.log
  {
  }

  lemma CoherentStep(s: Sys, e: Event)
    requires Counting(s) && InPlace(s) && AllCopying(s) && Timed(s) && AllCoherent(s) && Enabled(s, e)
    ensures AllCoherent(Next(s, e))
  {
    var t := Next(s, e);
    LogGrows(s, e);
    if e.Check? && s.seqno == s.actors[e.id].stage.s1 {
      CoherentCheck(s, e.id);
    }
    forall i | 0 <= i < |t.log| ensures Coherent(t, t.log[i]) {
      assert i < |s.log| ==> Coherent(s, s.log[i]);
      CoherentKept(s, e, t.log[i]);
    }
    forall i, j | 0 <= i < j < |t.log| ensures t.log[i].ended <= t.log[j].ended && t.log[i].at <= t.log[j].at {
      assert Coherent(s, s.log[i]);
    }
  }

  // ---- order between reads ----

  /** What a read may count on from those that had succeeded when it started. */
  predicate Later(log: seq<Done>, prior: nat, begun: nat) {
    prior <= |log| && forall i :: 0 <= i < prior ==> log[i].ended <= begun
  }

  predicate Ordered(s: Sys) {
    && (forall id :: id in s.actors && s.actors[id].Reader? ==>
          Later(s.log, s.actors[id].prior, s.actors[id].begun))
    && (forall j :: 0 <= j < |s.log| ==> s.log[j].prior <= j && Later(s.log, s.log[j].prior, s.log[j].begun))
  }

  lemma OrderedStep(s: Sys, e: Event)
    requires AllCoherent(s) && Ordered(s) && Enabled(s, e)
    ensures Ordered(Next(s, e))
  {
    var t := Next(s, e);
    forall i | 0 <= i < |s.log| ensures s.log[i].ended <= |s.pubs| {
      assert Coherent(s, s.log[i]);
    }
    forall id | id in t.actors && t.actors[id].Reader?
      ensures Later(t.log, t.actors[id].prior, t.actors[id].begun)
    {
      if id in s.actors {
        assert s.actors[id].Reader? ==> Later(s.log, s.actors[id].prior, s.actors[id].begun);
      }
    }
  }

  // ---- the rotation hook ----

  function Busy(s: Sys): nat {
    if s.writer.Writing? then 1 else 0
  }

  /** Publications complete at the sample began before it; those not yet under way, after. */
  predicate Waiting(s: Sys, h: Actor) {
    h.Hook? ==>
      var due := h.pubs + if h.busy then 1 else 0;
      && h.before == 2 * h.pubs + (if h.busy then 1 else 0) && h.at < s.step
      && h.pubs <= |s.pubs| && due <= |s.pubs| + Busy(s)
      && (forall k :: 0 <= k < h.pubs ==> s.pubs[k].first < h.at)
      && (h.busy ==>
            if h.pubs < |s.pubs| then s.pubs[h.pubs].first < h.at else s.writer.Writing? && s.writer.first < h.at)
      && (forall k :: due <= k < |s.pubs| ==> h.at < s.pubs[k].first)
      && (s.writer.Writing? && due <= |s.pubs| ==> h.at < s.writer.first)
  }

  /** A whole publication lies between the sample and the return. */
  predicate Served(s: Sys, d: Hooked) {
    exists k :: 0 <= k < |s.pubs| && d.sampled < s.pubs[k].first && s.pubs[k].last < d.returned
  }

  /** seq stood at its last even value: all publications there can be began before the sample. */
  const LAST_SEQ: nat := UINT32 - 2

  predicate Spent(s: Sys, d: Hooked) {
    |s.pubs| == UINT32 / 2 - 1 && forall k :: 0 <= k < |s.pubs| ==> s.pubs[k].first < d.sampled
  }

  predicate Hooking(s: Sys) {
    && (forall id :: id in s.actors ==> Waiting(s, s.actors[id]))
    && (forall i :: 0 <= i < |s.hooks| ==>
        if s.hooks[i].before == LAST_SEQ then Spent(s, s.hooks[i]) else Served(s, s.hooks[i]))
  }

  lemma PollServed(s: Sys, id: nat)
    requires Counting(s) && Timed(s) && Enabled(s, Poll(id)) && Waiting(s, s.actors[id])
    requires |PollStep(s, id).hooks| > |s.hooks|
    ensures var d := Hooked(s.actors[id].before, s.actors[id].at, s.step);
            if d.before == LAST_SEQ then Spent(s, d) else Served(s, d)
  {
    var h := s.actors[id];
    var k := h.pubs + if h.busy then 1 else 0;
    if h.before != LAST_SEQ {
      assert k < |s.pubs|;
      assert TimedPub(s, s.pubs[k]);
    }
  }

  lemma WaitingStep(s: Sys, e: Event, h: Actor)
    requires Counting(s) && Timed(s) && Waiting(s, h) && Enabled(s, e)
    ensures Waiting(Next(s, e), h)
  {
  }

  lemma SampleWaits(s: Sys, id: nat)
    requires Counting(s) && Timed(s) && Enabled(s, Sample(id))
    ensures Waiting(Next(s, Sample(id)), Next(s, Sample(id)).actors[id])
  {
    forall k | 0 <= k < |s.pubs| ensures s.pubs[k].first < s.step {
      assert TimedPub(s, s.pubs[k]);
    }
  }

  lemma HookKept(s: Sys, e: Event, d: Hooked)
    requires Enabled(s, e) && |Next(s, e).pubs| < UINT32 / 2
    ensures Served(s, d) ==> Served(Next(s, e), d)
    ensures Spent(s, d) ==> Spent(Next(s, e), d)
  {
  }

  lemma ActorsWait(s: Sys, e: Event, id: nat)
    requires Counting(s) && Timed(s) && Hooking(s) && Enabled(s, e) && id in Next(s, e).actors
    ensures Waiting(Next(s, e), Next(s, e).actors[id])
  {
    var t := Next(s, e);
    if e == Sample(id) {
      SampleWaits(s, id);
    } else if t.actors[id].Hook? {
      assert id in s.actors && t.actors[id] == s.actors[id];
      WaitingStep(s, e, s.actors[id]);
    }
  }

  lemma HookingStep(s: Sys, e: Event)
    requires Counting(s) && Timed(s) && Hooking(s) && Enabled(s, e) && |Next(s, e).pubs| < UINT32 / 2
    ensures Hooking(Next(s, e))
  {
    var t := Next(s, e);
    forall id | id in t.actors ensures Waiting(t, t.actors[id]) {
      ActorsWait(s, e, id);
    }
    forall i | 0 <= i < |t.hooks|
      ensures if t.hooks[i].before == LAST_SEQ then Spent(t, t.hooks[i]) else Served(t, t.hooks[i])
    {
      HookKept(s, e, t.hooks[i]);
      if i >= |s.hooks| {
        PollServed(s, e.id);
      }
    }
  }
}
