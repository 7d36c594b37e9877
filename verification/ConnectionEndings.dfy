/** How connections come to their end: what decides that one is given up, that nothing is
    served behind it, and how it is closed. */
module ConnectionEndings {
  import opened Parsing
  import opened TlsSizes
  import opened Decrypt
  import opened Connection
  import opened ConnectionInvariant
  import opened ConnectionRuns

  lemma {:induction false} RunThen(p: Parser, s: Conn, es: seq<Event>, more: seq<Event>)
    requires Possible(p, s, es + more)
    ensures Possible(p, s, es) && Possible(p, Run(p, s, es), more)
    ensures Run(p, s, es + more) == Run(p, Run(p, s, es), more)
    decreases |es|
  {
    if es == [] {
      assert es + more == more;
    } else {
      assert (es + more)[1..] == es[1..] + more;
      RunThen(p, Step(p, s, es[0]), es[1..], more);
    }
  }

  // ---- giving a connection up ----

  /** Closed, saying goodbye, or going to be once the response in flight is out. */
  predicate Leaving(s: Conn) {
    s.uv.closing || s.uv.writer.Final? || (s.inFlight && !s.keepAlive)
  }

  /** Not reading, and never going to again. */
  predicate Deaf(s: Conn) {
    s.uv.closing || !s.armed
  }

  predicate Ending(s: Conn) {
    s.uv.closing || s.uv.writer.Final?
  }

  lemma LeavingRead(p: Parser, s: Conn, input: Input, env: Env)
    requires Inv(p, s) && Leaving(s) && Enabled(s, Read(input, env))
    ensures var t := Step(p, s, Read(input, env));
            Leaving(t) && t.Dispatched() == s.Dispatched() && s.armed
  {
  }

  lemma LeavingStep(p: Parser, s: Conn, e: Event)
    requires Inv(p, s) && Leaving(s) && Enabled(s, e)
    ensures var t := Step(p, s, e);
            && Leaving(t) && t.Dispatched() == s.Dispatched()
            && (Deaf(s) ==> Deaf(t)) && (e.Wrote? || Ending(s) ==> Ending(t))
  {
    if e.Read? {
      LeavingRead(p, s, e.input, e.env);
    }
  }

  /** Nothing is served behind a connection given up: whatever happens, no further request is
      dispatched, one that does not read never does again, and once its response is written
      it is closed or says goodbye. */
  lemma {:induction false} LeavingRun(p: Parser, s: Conn, es: seq<Event>)
    requires Lawful(p) && Inv(p, s) && Leaving(s) && Possible(p, s, es)
    ensures var t := Run(p, s, es);
            && Leaving(t) && t.Dispatched() == s.Dispatched() && (Deaf(s) ==> Deaf(t))
            && (Ending(s) || (exists i :: 0 <= i < |es| && es[i].Wrote?) ==> Ending(t))
    decreases |es|
  {
    if es != [] {
      StepKeeps(p, s, es[0]);
      LeavingStep(p, s, es[0]);
      LeavingRun(p, Step(p, s, es[0]), es[1..]);
      assert forall i :: 0 < i < |es| ==> es[1..][i - 1] == es[i];
    }
  }

  lemma FailedLeaves(p: Parser, s: Conn, env: Env)
    requires Inv(p, s) && Enabled(s, Read(Failed, env))
    ensures var t := Step(p, s, Read(Failed, env));
            && Leaving(t) && Deaf(t) && t.Dispatched() == s.Dispatched() && (t.uv.closing <==> !s.inFlight)
  {
  }

  /** A peer that ends or fails is served what it had asked for and no more: the response in
      flight stands, behind it the connection closes, and with none it closes at once. */
  lemma PeerGone(p: Parser, s: Conn, before: seq<Event>, env: Env, after: seq<Event>)
    requires Lawful(p) && Initial(s) && Possible(p, s, before + ([Read(Failed, env)] + after))
    ensures Possible(p, s, before)
    ensures var u, t := Run(p, s, before), Run(p, s, before + ([Read(Failed, env)] + after));
            && t.Dispatched() == u.Dispatched() && Deaf(t)
            && ((!u.inFlight || exists i :: 0 <= i < |after| && after[i].Wrote?) ==> Ending(t))
            && (after == [] ==> (t.uv.closing <==> !u.inFlight))
  {
    InitialInv(p, s);
    RunThen(p, s, before, [Read(Failed, env)] + after);
    RunKeeps(p, s, before);
    var u, e := Run(p, s, before), Read(Failed, env);
    assert ([e] + after)[1..] == after;
    StepKeeps(p, u, e);
    FailedLeaves(p, u, env);
    LeavingRun(p, Step(p, u, e), after);
  }

  // ---- a broken record layer ----

  lemma BrokenStep(p: Parser, s: Conn, e: Event)
    requires Lawful(p) && Inv(p, s) && s.broken && Enabled(s, e)
    ensures Step(p, s, e).broken
  {
  }

  lemma {:induction false} BrokenSticks(p: Parser, s: Conn, es: seq<Event>)
    requires Lawful(p) && Inv(p, s) && s.broken && Possible(p, s, es)
    ensures Run(p, s, es).broken && Inv(p, Run(p, s, es))
    decreases |es|
  {
    if es != [] {
      StepKeeps(p, s, es[0]);
      BrokenStep(p, s, es[0]);
      BrokenSticks(p, Step(p, s, es[0]), es[1..]);
    }
  }

  /** Once the record layer is broken the connection does not read, dispatches nothing more,
      closes behind the response in flight, and never says goodbye. */
  lemma BrokenIsLeft(p: Parser, s: Conn, before: seq<Event>, after: seq<Event>)
    requires Lawful(p) && Initial(s) && Possible(p, s, before + after) && Run(p, s, before).broken
    ensures var u, t := Run(p, s, before), Run(p, s, before + after);
            && t.Dispatched() == u.Dispatched() && Deaf(t) && !t.uv.writer.Final?
            && ((exists i :: 0 <= i < |after| && after[i].Wrote?) ==> t.uv.closing)
  {
    InitialInv(p, s);
    RunThen(p, s, before, after);
    RunKeeps(p, s, before);
    LeavingRun(p, Run(p, s, before), after);
    BrokenSticks(p, Run(p, s, before), after);
  }

  /** A record that fails breaks the layer; and so does nothing but a record that fails or a
      surplus without a block. */
  lemma WhatBreaks(p: Parser, s: Conn, e: Event)
    requires Lawful(p) && Inv(p, s) && Enabled(s, e) && !s.broken
    ensures Step(p, s, e).broken <==>
              e.Read? && e.input.Sweep? && (!e.input.good || Loses(s, e))
  {
    match e
    case Read(Sweep(records, left, good), env) => SweepBreaks(p, s, records, left, good, env);
    case _ =>
  }

  lemma SweepBreaks(p: Parser, s: Conn, records: seq<Record>, left: nat, good: bool, env: Env)
    requires Lawful(p) && Inv(p, s) && Enabled(s, Read(Sweep(records, left, good), env)) && !s.broken
    ensures ReadSweep(p, s, records, left, good, env).broken <==>
            !good || Loses(s, Read(Sweep(records, left, good), env))
  {
    if good {
      CompactKeeps(p, s);
      SweepDelivers(p, s, records, left, env);
      DeliverBreaks(p, CompactIfFree(s), Plain(records), left, env);
    }
  }

  lemma DeliverBreaks(p: Parser, s: Conn, plain: seq<byte>, left: nat, env: Env)
    requires !s.broken && s.q.spill == [] && |plain| <= TLS_SPILL_SIZE
    ensures Deliver(p, s, plain, left, env).broken <==> |plain| > s.q.Room() && !env.blockFree
  {
  }

  // ---- completions ----

  /** How a response that is written ends: on a connection that is kept, with the next request;
      on TLS with a close_notify, exactly if the write succeeded, the record layer is sound
      and its own write was accepted; and otherwise with a bare close. */
  lemma WrittenEnds(p: Parser, s: Conn, es: seq<Event>, ok: bool, env: Env)
    requires Lawful(p) && Initial(s) && Possible(p, s, es) && Enabled(Run(p, s, es), Wrote(ok, env))
    ensures var u := Run(p, s, es); var t := Step(p, u, Wrote(ok, env));
            && (t.log.done == u.log.done + [u.current] <==> ok && u.keepAlive)
            && (!(ok && u.keepAlive) ==>
                  && t.Dispatched() == u.Dispatched()
                  && (t.uv.writer.Final? <==> u.tls && ok && !u.broken && env.finalSent)
                  && (t.uv.closing <==> !t.uv.writer.Final?))
  {
    InitialInv(p, s);
    RunKeeps(p, s, es);
    var u := Run(p, s, es);
    if !(ok && u.keepAlive) {
      FinishEnds(p, u, ok, env);
    }
  }

  lemma FinishEnds(p: Parser, s: Conn, ok: bool, env: Env)
    requires Inv(p, s) && Enabled(s, Wrote(ok, env)) && !(ok && s.keepAlive)
    ensures var t := Step(p, s, Wrote(ok, env));
            && t.Dispatched() == s.Dispatched() && t.log == s.log
            && (t.uv.writer.Final? <==> s.tls && ok && !s.broken && env.finalSent)
            && (t.uv.closing <==> !t.uv.writer.Final?)
  {
  }

  // ---- answers ----

  /** What becomes of an answer: it is on the wire, or, on TLS, could not be put there and the
      connection is closed. */
  predicate Answered(t: Conn, writes: bool) {
    && t.answered
    && (t.uv.writer.Response? <==> !t.tls || writes) && (t.uv.closing <==> t.tls && !writes)
  }

  /** An answer given later: it is written, and the connection is kept only if it agrees to. */
  lemma LateAnswer(p: Parser, s: Conn, es: seq<Event>, keeps: bool, writes: bool)
    requires Lawful(p) && Initial(s) && Possible(p, s, es) && Enabled(Run(p, s, es), Respond(keeps, writes))
    ensures var u := Run(p, s, es); var t := Step(p, u, Respond(keeps, writes));
            && Answered(t, writes) && t.Dispatched() == u.Dispatched()
            && (t.keepAlive <==> u.keepAlive && keeps) && (!keeps ==> Leaving(t))
  {
    InitialInv(p, s);
    RunKeeps(p, s, es);
  }

  /** A step that dispatches. */
  predicate Serves(s: Conn, t: Conn) {
    t.Dispatched() != s.Dispatched()
  }

  function EnvOf(e: Event): Env
    requires e.Read? || e.Wrote?
  {
    e.env
  }

  /** A request just dispatched has been answered exactly if the application did so at once,
      and the connection is kept exactly as the request asks and that answer agrees. */
  predicate Begun(p: Parser, t: Conn, turn: AppTurn) {
    && t.inFlight && (t.keepAlive <==> KeepsOpen(p, t.current) && (turn.Now? ==> turn.keeps))
    && match turn
       case Later => !t.answered && t.uv.writer.Idle? && !t.uv.closing
       case Now(_, writes) => Answered(t, writes)
  }

  lemma DispatchBegins(p: Parser, s: Conn, env: Env)
    requires Lawful(p) && Ready(p, s) && Dispatch(p, s, env).1.Started?
    ensures Begun(p, Dispatch(p, s, env).0, env.turn)
  {
    VerdictSound(p, s);
    FirstIsFramed(p, s.q.buf);
  }

  lemma FlowBegins(p: Parser, s: Conn, turn: AppTurn)
    requires Begun(p, s, turn)
    ensures Begun(p, ReadFlow(s), turn) && Begun(p, ReadTail(s), turn) && Begun(p, Resumed(s), turn)
  {
  }

  lemma AfterSweepBegins(p: Parser, s: Conn, env: Env)
    requires Lawful(p) && Ready(p, s) && AfterSweep(p, s, env).inFlight
    ensures Begun(p, AfterSweep(p, s, env), env.turn)
  {
    if Dispatch(p, s, env).1.Started? {
      DispatchBegins(p, s, env);
      FlowBegins(p, Dispatch(p, s, env).0, env.turn);
    }
  }

  lemma SweepBegins(p: Parser, s: Conn, records: seq<Record>, left: nat, good: bool, env: Env)
    requires Lawful(p) && Inv(p, s) && Enabled(s, Read(Sweep(records, left, good), env)) && !s.inFlight
    requires ReadSweep(p, s, records, left, good, env).inFlight
    ensures Begun(p, ReadSweep(p, s, records, left, good, env), env.turn)
  {
    CompactKeeps(p, s);
    SweepDelivers(p, s, records, left, env);
    var t, plain := CompactIfFree(s), Plain(records);
    StoredReady(p, t, plain, left);
    var k := Kept(t.q, plain);
    AfterSweepBegins(p, Store(Note(t, plain, left), plain[..k], plain[k..]), env);
  }

  lemma PlainBegins(p: Parser, s: Conn, bytes: seq<byte>, env: Env)
    requires Lawful(p) && Inv(p, s) && !s.tls && s.armed && !s.uv.closing && !s.inFlight
    requires s.q.ReadLen() + |bytes| <= READ_BUF_SIZE && ReadPlain(p, s, bytes, env).inFlight
    ensures Begun(p, ReadPlain(p, s, bytes, env), env.turn)
  {
    assert bytes + [] == bytes;
    StoreKeeps(p, s, bytes, [], s.held);
    var t := Store(Note(s, bytes, s.held), bytes, []);
    DispatchBegins(p, t, env);
    FlowBegins(p, Dispatch(p, t, env).0, env.turn);
  }

  lemma NextBegins(p: Parser, s: Conn, env: Env)
    requires Lawful(p) && Ready(p, s) && NextRequest(p, s, env).inFlight
    ensures Begun(p, NextRequest(p, s, env), env.turn)
  {
    if s.q.buf != [] && Dispatch(p, s, env).1.Started? {
      DispatchBegins(p, s, env);
      FlowBegins(p, Dispatch(p, s, env).0, env.turn);
    }
  }

  lemma ReadServes(p: Parser, s: Conn, input: Input, env: Env)
    requires Inv(p, s) && Enabled(s, Read(input, env)) && Serves(s, Step(p, s, Read(input, env)))
    ensures !s.inFlight && Step(p, s, Read(input, env)).inFlight && !input.Failed? && !input.Nothing?
  {
    if s.inFlight {
      StepPinned(p, s, Read(input, env));
    }
  }

  lemma WroteServes(p: Parser, s: Conn, ok: bool, env: Env)
    requires Lawful(p) && Inv(p, s) && Enabled(s, Wrote(ok, env)) && Serves(s, OnWrite(p, s, ok, env))
    ensures ok && s.keepAlive && OnWrite(p, s, ok, env).inFlight
  {
  }

  lemma ReadBegins(p: Parser, s: Conn, input: Input, env: Env)
    requires Lawful(p) && Inv(p, s) && Enabled(s, Read(input, env)) && Serves(s, Step(p, s, Read(input, env)))
    ensures Begun(p, Step(p, s, Read(input, env)), env.turn)
  {
    ReadServes(p, s, input, env);
    match input
    case Data(bytes) =>
      CompactKeeps(p, s);
      PlainBegins(p, AllocCb(s), bytes, env);
    case Sweep(records, left, good) => SweepBegins(p, s, records, left, good, env);
  }

  lemma WroteBegins(p: Parser, s: Conn, ok: bool, env: Env)
    requires Lawful(p) && Inv(p, s) && Enabled(s, Wrote(ok, env)) && Serves(s, OnWrite(p, s, ok, env))
    ensures Begun(p, OnWrite(p, s, ok, env), env.turn)
  {
    WroteServes(p, s, ok, env);
    RenewKeeps(p, UvWritten(s));
    NextBegins(p, Renew(UvWritten(s)), env);
  }

  /** Whenever a request is dispatched, by a read or behind a response, it has been answered
      exactly if the application did so at once, and the connection is kept exactly as the
      request asks and that answer agrees. */
  lemma DispatchBegun(p: Parser, s: Conn, es: seq<Event>, e: Event)
    requires Lawful(p) && Initial(s) && Possible(p, s, es) && Enabled(Run(p, s, es), e)
    requires Serves(Run(p, s, es), Step(p, Run(p, s, es), e))
    ensures (e.Read? || e.Wrote?) && Begun(p, Step(p, Run(p, s, es), e), EnvOf(e).turn)
  {
    InitialInv(p, s);
    RunKeeps(p, s, es);
    match e
    case Read(input, env) => ReadBegins(p, Run(p, s, es), input, env);
    case Wrote(ok, env) => WroteBegins(p, Run(p, s, es), ok, env);
    case _ =>
  }

  // ---- refusals ----

  /** The 400 behind which a malformed request is refused: written on its way to the close, or
      on TLS as the final write, exactly if that was accepted. */
  predicate Refused(t: Conn, env: Env) {
    if t.tls then (t.uv.writer.Final? <==> env.finalSent) && (t.uv.closing <==> !env.finalSent)
    else t.uv.writer.Orphan? && t.uv.closing
  }

  lemma DispatchRefuses(p: Parser, s: Conn, env: Env)
    requires Lawful(p) && Ready(p, s)
    ensures var (t, v) := Dispatch(p, s, env);
            && (v.Gone? ==> Refused(t, env) && p(t.q.buf, 0).Bad? && !t.inFlight)
            && (s.scan.lastLen == 0 && p(s.q.buf, 0).Bad? ==> v.Gone?)
            && (v.NeedMore? && Resume(p, s.q.buf, s.scan.lastLen).Incomplete? ==> t.scan.lastLen == |s.q.buf|)
  {
    VerdictSound(p, s);
  }

  /** A response behind which the next request is malformed: that one is refused. */
  lemma NextRefused(p: Parser, s: Conn, env: Env)
    requires Lawful(p) && Inv(p, s) && Enabled(s, Wrote(true, env)) && s.keepAlive
    ensures var t := Step(p, s, Wrote(true, env));
            t.q.buf != [] && p(t.q.buf, 0).Bad? && !t.inFlight ==> Refused(t, env)
  {
    RenewKeeps(p, UvWritten(s));
    var u := Renew(UvWritten(s));
    DispatchRefuses(p, u, env);
  }

  /** A connection that has nothing in hand and reads something malformed refuses it. */
  lemma FirstRefused(p: Parser, s: Conn, input: Input, env: Env)
    requires Lawful(p) && Inv(p, s) && Enabled(s, Read(input, env)) && !s.inFlight && s.scan.lastLen == 0
    requires input.Data? || (input.Sweep? && input.good && Plain(input.records) != [] && !Loses(s, Read(input, env)))
    ensures var t := Step(p, s, Read(input, env));
            p(t.q.buf, 0).Bad? && !t.inFlight ==> Refused(t, env)
  {
    match input
    case Data(bytes) => PlainRefused(p, AllocCb(s), bytes, env);
    case Sweep(records, left, good) => SweepRefused(p, s, records, left, env);
  }

  lemma PlainRefused(p: Parser, s: Conn, bytes: seq<byte>, env: Env)
    requires Lawful(p) && Inv(p, s) && !s.tls && s.armed && !s.uv.closing && !s.inFlight && s.scan.lastLen == 0
    requires s.q.ReadLen() + |bytes| <= READ_BUF_SIZE
    ensures var t := ReadPlain(p, s, bytes, env);
            p(t.q.buf, 0).Bad? && !t.inFlight ==> Refused(t, env)
  {
    assert bytes + [] == bytes;
    StoreKeeps(p, s, bytes, [], s.held);
    DispatchRefuses(p, Store(Note(s, bytes, s.held), bytes, []), env);
  }

  lemma SweepRefused(p: Parser, s: Conn, records: seq<Record>, left: nat, env: Env)
    requires Lawful(p) && Inv(p, s) && Enabled(s, Read(Sweep(records, left, true), env)) && !s.inFlight
    requires s.scan.lastLen == 0 && Plain(records) != [] && !Loses(s, Read(Sweep(records, left, true), env))
    ensures var t := ReadSweep(p, s, records, left, true, env);
            p(t.q.buf, 0).Bad? && !t.inFlight ==> Refused(t, env)
  {
    CompactKeeps(p, s);
    SweepDelivers(p, s, records, left, env);
    var t, plain := CompactIfFree(s), Plain(records);
    StoredReady(p, t, plain, left);
    var k := Kept(t.q, plain);
    DispatchRefuses(p, Store(Note(t, plain, left), plain[..k], plain[k..]), env);
  }

  // ---- why a connection ends ----

  /** The handle is still free for whatever comes. */
  predicate Open(s: Conn) {
    !s.uv.closing && !s.uv.writer.Final?
  }

  /** What may end a connection that serves nothing: on plaintext a malformed request, refused;
      on TLS that, a broken record layer, or a request that fills the buffer. */
  lemma IdleEnds(p: Parser, s: Conn, env: Env)
    requires Lawful(p) && Ready(p, s) && !Complete(p, s.q.buf)
    ensures var (t, v) := Dispatch(p, s, env);
            && (Open(t) <==> !v.Gone?)
            && (s.tls && !v.Gone? ==> (Open(ReadFlow(t)) <==> |t.q.buf| < READ_BUF_SIZE))
            && (!s.tls && !v.Gone? ==> Open(ReadTail(t)) && Open(Resumed(t)))
  {
    VerdictSound(p, s);
  }
}
