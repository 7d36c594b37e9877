/** What the shared ring guarantees in every run. */
module TicketRingTheorems {
  import opened TicketRing
  import opened TicketRingInvariant

  ghost predicate Inv(s: Sys) {
    Counting(s) && InPlace(s) && AllCopying(s) && Timed(s) && AllCoherent(s) && Ordered(s) && Hooking(s)
  }

  lemma InitialInv(s: Sys)
    requires Initial(s)
    ensures Inv(s)
  {
  }

  lemma {:induction false} PubsGrow(s: Sys, es: seq<Event>, t: Sys)
    requires Reachable(s, es, t)
    ensures |s.pubs| <= |t.pubs|
    decreases |es|
  {
    if es != [] {
      PubsGrow(Next(s, es[0]), es[1..], t);
      assert |s.pubs| <= |Next(s, es[0]).pubs|;
    }
  }

  lemma StepInv(s: Sys, e: Event)
    requires Inv(s) && Enabled(s, e) && |Next(s, e).pubs| < UINT32 / 2
    ensures Inv(Next(s, e))
  {
    InPlaceStep(s, e);
    CountingStep(s, e);
    CopyingStep(s, e);
    TimedStep(s, e);
    CoherentStep(s, e);
    OrderedStep(s, e);
    HookingStep(s, e);
  }

  lemma {:induction false} RunInv(s: Sys, es: seq<Event>, t: Sys)
    requires Inv(s) && Reachable(s, es, t) && |t.pubs| < UINT32 / 2
    ensures Inv(t)
    decreases |es|
  {
    if es != [] {
      PubsGrow(s, es, t);
      PubsGrow(Next(s, es[0]), es[1..], t);
      StepInv(s, es[0]);
      RunInv(Next(s, es[0]), es[1..], t);
    }
  }

  lemma ReachableInv(s: Sys, es: seq<Event>, t: Sys)
    requires Initial(s) && Reachable(s, es, t) && |t.pubs| < UINT32 / 2
    ensures Inv(t)
  {
    InitialInv(s);
    RunInv(s, es, t);
  }

  /** Seqlock coherence: under every interleaving, a read that returns true holds the fields
      of one publication, the latest complete at its final check and at least as new as any
      complete at its start; and a read that starts after another succeeded never returns
      an older publication. */
  lemma SeqlockCoherence(s: Sys, es: seq<Event>, t: Sys)
    requires Initial(s) && Reachable(s, es, t) && |t.pubs| < UINT32 / 2
    ensures forall i :: 0 <= i < |t.log| ==> Coherent(t, t.log[i])
    ensures forall i, j :: 0 <= j < |t.log| && 0 <= i < t.log[j].prior ==> i < j && t.log[i].ended <= t.log[j].ended
  {
    InitialInv(s);
    RunInv(s, es, t);
    forall i, j | 0 <= j < |t.log| && 0 <= i < t.log[j].prior
      ensures i < j && t.log[i].ended <= t.log[j].ended
    {
      assert Later(t.log, t.log[j].prior, t.log[j].begun);
      assert Coherent(t, t.log[j]);
    }
  }

  /** The hook's promise: when it returns success, some publication both began and ended
      between its sample of seq and its return, even if the sample was odd; except exactly
      when it sampled the last even value of seq, whose successor wraps. */
  lemma HookWaitsForRotation(s: Sys, es: seq<Event>, t: Sys)
    requires Initial(s) && Reachable(s, es, t) && |t.pubs| < UINT32 / 2
    ensures forall i :: 0 <= i < |t.hooks| ==> (Served(t, t.hooks[i]) <==> t.hooks[i].before != LAST_SEQ)
  {
    InitialInv(s);
    RunInv(s, es, t);
  }

  // ---- reads that fail ----

  /** What may spoil an attempt: it loads seq during a publication or before the first one, or
      the writer takes a step between its load and its check. */
  predicate Spoiled(y: Try) {
    match y
    case AtLoad(busy, complete) => busy || complete == 0
    case AtCheck(from, to) => from < to
  }

  predicate AllSpoiled(tries: seq<Try>) {
    forall i :: 0 <= i < |tries| ==> Spoiled(tries[i])
  }

  /** A reader charges an attempt only for such a cause, and while the writer has taken no step
      since it loaded seq, that is still seq. */
  predicate Trying(s: Sys, r: Actor) {
    r.Reader? ==>
      && r.attempt == |r.tries| < SEQ_RETRIES && AllSpoiled(r.tries)
      && (r.stage.Copy? ==> r.stage.from <= s.writes && (r.stage.from == s.writes ==> s.seqno == r.stage.s1))
  }

  /** One that gave up has made all its attempts, each of them spoiled. */
  predicate GaveUpRightly(d: Lost) {
    |d.tries| == SEQ_RETRIES && AllSpoiled(d.tries)
  }

  predicate Spending(s: Sys) {
    && (forall id :: id in s.actors ==> Trying(s, s.actors[id]))
    && (forall i :: 0 <= i < |s.lost| ==> GaveUpRightly(s.lost[i]))
  }

  lemma TryingIdle(s: Sys, e: Event, r: Actor)
    requires Trying(s, r) && Enabled(s, e)
    ensures Trying(Next(s, e), r)
  {
  }

  lemma TryingOwn(s: Sys, e: Event)
    requires Counting(s) && Spending(s) && Enabled(s, e) && (e.Open? || e.LoadSeq? || e.CopyField? || e.Check?)
    ensures var t := Next(s, e);
            && (e.id in t.actors ==> Trying(t, t.actors[e.id]))
            && (forall i :: 0 <= i < |t.lost| ==> GaveUpRightly(t.lost[i]))
  {
    assert e.id in s.actors ==> Trying(s, s.actors[e.id]);
  }

  lemma SpendingStep(s: Sys, e: Event)
    requires Counting(s) && Spending(s) && Enabled(s, e)
    ensures Spending(Next(s, e))
  {
    var t := Next(s, e);
    if e.Open? || e.LoadSeq? || e.CopyField? || e.Check? {
      TryingOwn(s, e);
    }
    forall id | id in t.actors ensures Trying(t, t.actors[id]) {
      if t.actors[id].Reader? && !((e.Open? || e.LoadSeq? || e.CopyField? || e.Check?) && e.id == id) {
        assert id in s.actors && t.actors[id] == s.actors[id];
        TryingIdle(s, e, s.actors[id]);
      }
    }
  }

  lemma {:induction false} RunSpends(s: Sys, es: seq<Event>, t: Sys)
    requires Inv(s) && Spending(s) && Reachable(s, es, t) && |t.pubs| < UINT32 / 2
    ensures Spending(t)
    decreases |es|
  {
    if es != [] {
      PubsGrow(Next(s, es[0]), es[1..], t);
      StepInv(s, es[0]);
      SpendingStep(s, es[0]);
      RunSpends(Next(s, es[0]), es[1..], t);
    }
  }

  /** The cause of a loss: a read returns false only after its whole budget of attempts, each of
      which loaded seq during a publication or before the first one, or had a step of the
      writer between its load and its check. */
  lemma LostReadsTried(s: Sys, es: seq<Event>, t: Sys)
    requires Initial(s) && Reachable(s, es, t) && |t.pubs| < UINT32 / 2
    ensures forall i :: 0 <= i < |t.lost| ==> GaveUpRightly(t.lost[i])
  {
    InitialInv(s);
    RunSpends(s, es, t);
  }

  // ---- reads that succeed ----

  /** How many of these steps are the reader's own. */
  function OwnSteps(es: seq<Event>, id: nat): nat {
    if es == [] then 0
    else (if es[0] == LoadSeq(id) || es[0] == CopyField(id) || es[0] == Check(id) then 1 else 0) + OwnSteps(es[1..], id)
  }

  predicate NoWriter(es: seq<Event>) {
    forall i :: 0 <= i < |es| ==> !ByWriter(es[i])
  }

  /** The reader at `id` is on its way to a copy of `mem`, with `left` own steps to go. */
  predicate OnItsWay(s: Sys, id: nat, want: seq<nat>, mem: seq<int>, left: nat) {
    && s.seqno != 0 && s.seqno % 2 == 0 && s.mem == mem && |mem| == FIELDS && InRange(want)
    && id in s.actors && s.actors[id].Reader? && s.actors[id].want == want
    && match s.actors[id].stage
       case Load => left == |want| + 2
       case Copy(s1, _, got, _) =>
         && s1 == s.seqno && |got| <= |want| && left == |want| - |got| + 1
         && forall k :: 0 <= k < |got| ==> got[k] == mem[want[k]]
  }

  predicate ReadOut(d: Done, want: seq<nat>, mem: seq<int>) {
    && d.want == want && |d.got| == |want|
    && forall k :: 0 <= k < |want| ==> want[k] < |mem| && d.got[k] == mem[want[k]]
  }

  lemma WayStep(s: Sys, e: Event, id: nat, want: seq<nat>, mem: seq<int>, left: nat)
    requires OnItsWay(s, id, want, mem, left) && Enabled(s, e) && !ByWriter(e)
    ensures var t := Next(s, e); var own := OwnSteps([e], id);
            && s.log <= t.log
            && if own == 1 && left == 1 then |t.log| > |s.log| && ReadOut(t.log[|s.log|], want, mem)
               else left >= own && OnItsWay(t, id, want, mem, left - own)
  {
    assert [e][1..] == [];
  }

  lemma {:induction false} WayEnds(s: Sys, es: seq<Event>, t: Sys, id: nat, want: seq<nat>, mem: seq<int>, left: nat)
    requires OnItsWay(s, id, want, mem, left) && Reachable(s, es, t) && NoWriter(es)
    requires OwnSteps(es, id) >= left > 0
    ensures exists i :: |s.log| <= i < |t.log| && ReadOut(t.log[i], want, mem)
    decreases |es|
  {
    var e, u := es[0], Next(s, es[0]);
    assert [e][1..] == [] && OwnSteps(es, id) == OwnSteps([e], id) + OwnSteps(es[1..], id);
    WayStep(s, e, id, want, mem, left);
    LogKept(u, es[1..], t);
    if OwnSteps([e], id) == 1 && left == 1 {
      assert t.log[|s.log|] == u.log[|s.log|];
    } else {
      WayEnds(u, es[1..], t, id, want, mem, left - OwnSteps([e], id));
    }
  }

  lemma {:induction false} LogKept(s: Sys, es: seq<Event>, t: Sys)
    requires Reachable(s, es, t)
    ensures s.log <= t.log
    decreases |es|
  {
    if es != [] {
      LogKept(Next(s, es[0]), es[1..], t);
      assert s.log <= Next(s, es[0]).log;
    }
  }

  lemma SetsOut(s0: Sys, es0: seq<Event>, s: Sys, id: nat)
    requires Initial(s0) && Reachable(s0, es0, s) && 0 < |s.pubs| < UINT32 / 2 && s.writer.Resting?
    requires id in s.actors && s.actors[id].Reader? && s.actors[id].stage.Load?
    ensures OnItsWay(s, id, s.actors[id].want, s.mem, |s.actors[id].want| + 2)
  {
    ReachableInv(s0, es0, s);
    assert Copying(s, s.actors[id]);
  }

  /** An undisturbed read succeeds: once something is published and the writer rests, a reader
      that takes its steps with none of the writer's between them, whatever else happens,
      has the ring as it stands. */
  lemma UndisturbedReadSucceeds(s0: Sys, es0: seq<Event>, s: Sys, es: seq<Event>, t: Sys, id: nat)
    requires Initial(s0) && Reachable(s0, es0, s) && 0 < |s.pubs| < UINT32 / 2 && s.writer.Resting?
    requires id in s.actors && s.actors[id].Reader? && s.actors[id].stage.Load?
    requires Reachable(s, es, t) && NoWriter(es) && OwnSteps(es, id) >= |s.actors[id].want| + 2
    ensures exists i :: |s.log| <= i < |t.log| && ReadOut(t.log[i], s.actors[id].want, s.mem)
  {
    SetsOut(s0, es0, s, id);
    WayEnds(s, es, t, id, s.actors[id].want, s.mem, |s.actors[id].want| + 2);
  }

  // ---- the hook, both ways ----

  /** A whole publication began after the sample of hook `id` and is complete. */
  predicate Rotated(s: Sys, id: nat)
    requires Enabled(s, Poll(id))
  {
    exists k :: 0 <= k < |s.pubs| && s.actors[id].at < s.pubs[k].first && s.pubs[k].last < s.step
  }

  lemma PollExact(s: Sys, id: nat)
    requires Counting(s) && Timed(s) && Enabled(s, Poll(id)) && Waiting(s, s.actors[id])
    requires s.actors[id].before != LAST_SEQ
    ensures |Next(s, Poll(id)).hooks| > |s.hooks| <==> s.writer.Resting? && Rotated(s, id)
  {
    var h := s.actors[id];
    var due := h.pubs + if h.busy then 1 else 0;
    if due < |s.pubs| {
      assert TimedPub(s, s.pubs[due]);
    }
    if Rotated(s, id) {
      var k :| 0 <= k < |s.pubs| && h.at < s.pubs[k].first && s.pubs[k].last < s.step;
      assert k >= due;
    }
  }

  /** The hook returns at once when it may: a poll ends the wait if and only if a whole
      publication has begun after the sample and ended, and no other is under way. */
  lemma HookReturnsExactly(s0: Sys, es: seq<Event>, s: Sys, id: nat)
    requires Initial(s0) && Reachable(s0, es, s) && |s.pubs| < UINT32 / 2
    requires Enabled(s, Poll(id)) && s.actors[id].before != LAST_SEQ
    ensures |Next(s, Poll(id)).hooks| > |s.hooks| <==> s.writer.Resting? && Rotated(s, id)
  {
    ReachableInv(s0, es, s);
    assert Waiting(s, s.actors[id]);
    PollExact(s, id);
  }

  // ---- what is destroyed ----

  /** Halfway through a publication the retired key is gone and nothing in its slot is live. */
  lemma RetiredIsGone(s0: Sys, es: seq<Event>, s: Sys)
    requires Initial(s0) && Reachable(s0, es, s) && |s.pubs| < UINT32 / 2
    ensures |s.mem| == FIELDS
    ensures s.writer.Writing? ==>
              && s.writer.slot < RING
              && (s.writer.pc == 4 ==> KeyIn(s.mem, s.writer.slot) == Key(0, 0, 0))
              && (4 <= s.writer.pc < 8 ==> !Live(s.mem, s.writer.slot))
  {
    ReachableInv(s0, es, s);
    if s.writer.Writing? && 4 <= s.writer.pc < 8 {
      AfterHalf(Settled(s), s.writer.slot, s.writer.key, s.writer.pc, s.writer.stamp + s.rotateMs);
    }
  }

  lemma AfterHalf(base: seq<int>, slot: nat, key: Key, pc: nat, due: int)
    requires |base| == FIELDS && slot < RING && 4 <= pc < 8
    ensures var r := After(base, slot, key, pc, due);
            !Live(r, slot) && (pc == 4 ==> KeyIn(r, slot) == Key(0, 0, 0))
  {
    var a := After(base, slot, key, 4, due);
    assert After(base, slot, key, 2, due) == After(base, slot, key, 1, due)[Base(slot) + 1 := 0];
    assert a == After(base, slot, key, 3, due)[Base(slot) + 3 := 0];
    assert After(base, slot, key, 6, due) == After(base, slot, key, 5, due)[Base(slot) + 1 := key.aes];
  }

  // ---- runs of any length ----

  lemma {:induction false} ReachableThen(s: Sys, es: seq<Event>, t: Sys, e: Event)
    requires Reachable(s, es, t) && Enabled(t, e)
    ensures Reachable(s, es + [e], Next(t, e))
    decreases |es|
  {
    if es == [] {
      assert [e][1..] == [] && es + [e] == [e];
    } else {
      assert (es + [e])[1..] == es[1..] + [e];
      ReachableThen(Next(s, es[0]), es[1..], t, e);
    }
  }

  /** A publication under way can be finished. */
  lemma {:induction false} FinishPublication(s: Sys, es: seq<Event>, t: Sys) returns (es': seq<Event>, t': Sys)
    requires Reachable(s, es, t) && t.writer.Writing? && t.writer.pc <= WRITES
    ensures Reachable(s, es', t') && t'.writer.Resting? && |t'.pubs| == |t.pubs| + 1
    ensures t'.actors == t.actors && t'.hooks == t.hooks
    decreases WRITES - t.writer.pc
  {
    if t.writer.pc == WRITES {
      ReachableThen(s, es, t, End);
      es', t' := es + [End], Next(t, End);
    } else {
      ReachableThen(s, es, t, Write);
      es', t' := FinishPublication(s, es + [Write], Next(t, Write));
    }
  }

  /** There are runs with any number of publications. */
  lemma {:induction false} PublicationsReachable(s: Sys, n: nat) returns (es: seq<Event>, t: Sys)
    requires Initial(s)
    ensures Reachable(s, es, t) && t.writer.Resting? && |t.pubs| == n && t.actors == map[] && t.hooks == []
  {
    if n == 0 {
      es, t := [], s;
    } else {
      es, t := PublicationsReachable(s, n - 1);
      var begin := Begin(Key(n, n, n));
      ReachableThen(s, es, t, begin);
      es, t := FinishPublication(s, es + [begin], Next(t, begin));
    }
  }

  lemma HookReturnsAtOnce(t: Sys)
    requires Counting(t) && t.writer.Resting? && |t.pubs| == UINT32 / 2 - 1 && t.actors == map[] && t.hooks == []
    ensures Enabled(t, Sample(0)) && Enabled(Next(t, Sample(0)), Poll(0))
    ensures var u := Next(Next(t, Sample(0)), Poll(0));
            u.pubs == t.pubs && u.hooks == [Hooked(LAST_SEQ, t.step, t.step + 1)]
  {
  }

  /** The exception is real: there is a run in which the hook, sampling after 2^31 - 1
      publications, reports success at once and without any. */
  lemma HookAtWrap(s: Sys) returns (es: seq<Event>, t: Sys)
    requires Initial(s)
    ensures Reachable(s, es, t) && |t.pubs| < UINT32 / 2
    ensures |t.hooks| == 1 && t.hooks[0].returned == t.hooks[0].sampled + 1 && !Served(t, t.hooks[0])
  {
    var n := UINT32 / 2 - 1;
    es, t := PublicationsReachable(s, n);
    ReachableInv(s, es, t);
    HookReturnsAtOnce(t);
    ReachableThen(s, es, t, Sample(0));
    es, t := es + [Sample(0)], Next(t, Sample(0));
    ReachableThen(s, es, t, Poll(0));
    es, t := es + [Poll(0)], Next(t, Poll(0));
    HookWaitsForRotation(s, es, t);
  }

  // ---- the ring's contents ----

  /** Ring contents: after n rotations the live keys are exactly those of generations
      max(0, n - RING + 1) to n, and the sealing slot holds generation n. */
  lemma LiveKeysExact(s: Sys, es: seq<Event>, t: Sys, n: nat)
    requires Initial(s) && Reachable(s, es, t) && n < |t.pubs| < UINT32 / 2
    ensures |t.pubs[n].mem| == FIELDS
    ensures var mem := t.pubs[n].mem;
            && 0 <= mem[CUR] < RING && Live(mem, mem[CUR]) && KeyIn(mem, mem[CUR]) == t.pubs[n].key
            && (set slot: nat | slot < RING && Live(mem, slot) :: KeyIn(mem, slot)) ==
               (set g: nat | g <= n < g + RING :: t.pubs[g].key)
  {
    InitialInv(s);
    RunInv(s, es, t);
    LiveKeys(t.pubs, n, t.pubs[n].mem);
  }

  lemma LiveKeys(pubs: seq<Pub>, n: nat, mem: seq<int>)
    requires n < |pubs| && |mem| == FIELDS && Holds(pubs, n, mem)
    ensures 0 <= mem[CUR] < RING && Live(mem, mem[CUR]) && KeyIn(mem, mem[CUR]) == pubs[n].key
    ensures (set slot: nat | slot < RING && Live(mem, slot) :: KeyIn(mem, slot)) ==
            (set g: nat | g <= n < g + RING :: pubs[g].key)
  {
    GenerationStep(n, n % RING);
    var live := set slot: nat | slot < RING && Live(mem, slot) :: KeyIn(mem, slot);
    var recent := set g: nat | g <= n < g + RING :: pubs[g].key;
    forall k | k in live ensures k in recent {
      var slot: nat :| slot < RING && Live(mem, slot) && KeyIn(mem, slot) == k;
      GenerationStep(n, slot);
    }
    forall k | k in recent ensures k in live {
      var g: nat :| g <= n < g + RING && pubs[g].key == k;
      SlotOf(n, g);
      assert Live(mem, g % RING) && KeyIn(mem, g % RING) == k;
    }
  }

  lemma SlotOf(n: nat, g: nat)
    requires g <= n < g + RING
    ensures Generation(n, g % RING) == g
  {
  }
}
