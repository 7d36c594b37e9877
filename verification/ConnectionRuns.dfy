/** What holds in every run of a connection. */
module ConnectionRuns {
  import opened Parsing
  import opened TlsSizes
  import opened Decrypt
  import opened Connection
  import opened ConnectionInvariant

  /** The plaintext an event brings. */
  function Arrival(e: Event): seq<byte> {
    match e
    case Read(Data(bytes), _) => bytes
    case Read(Sweep(records, _, _), _) => Plain(records)
    case _ => []
  }

  function Arrivals(es: seq<Event>): seq<byte> {
    if es == [] then [] else Arrival(es[0]) + Arrivals(es[1..])
  }

  lemma StepReceives(p: Parser, s: Conn, e: Event)
    requires Lawful(p) && Inv(p, s) && Enabled(s, e)
    ensures Step(p, s, e).log.received == s.log.received + Arrival(e)
  {
    match e
    case Read(Sweep(records, left, good), env) =>
      if good {
        SweepDelivers(p, s, records, left, env);
      }
    case _ =>
  }

  lemma {:induction false} RunReceives(p: Parser, s: Conn, es: seq<Event>)
    requires Lawful(p) && Inv(p, s) && Possible(p, s, es)
    ensures Run(p, s, es).log.received == s.log.received + Arrivals(es)
    decreases |es|
  {
    if es == [] {
      assert s.log.received + Arrivals(es) == s.log.received;
    } else {
      ReceivesStep(p, s, es);
      var t := Step(p, s, es[0]);
      RunReceives(p, t, es[1..]);
      Reassociate(s.log.received, Arrival(es[0]), Arrivals(es[1..]));
    }
  }

  lemma ReceivesStep(p: Parser, s: Conn, es: seq<Event>)
    requires Lawful(p) && Inv(p, s) && Possible(p, s, es) && es != []
    ensures var t := Step(p, s, es[0]);
            && Inv(p, t) && Possible(p, t, es[1..]) && Run(p, s, es) == Run(p, t, es[1..])
            && t.log.received == s.log.received + Arrival(es[0])
            && Arrivals(es) == Arrival(es[0]) + Arrivals(es[1..])
  {
    StepKeeps(p, s, es[0]);
    StepReceives(p, s, es[0]);
  }

  lemma Reassociate(a: seq<byte>, b: seq<byte>, c: seq<byte>)
    ensures (a + b) + c == a + (b + c)
  {
  }

  /** Answered requests, unread bytes and spill are, in this order, all that was received. */
  predicate Exact(s: Conn) {
    Flat(s.log.done) + s.q.buf + s.q.spill == s.log.received
  }

  /** A read that loses plaintext: it overflows read_buf when no spill block can be had, or a
      record fails behind others that had decrypted to something. */
  predicate Loses(s: Conn, e: Event) {
    e.Read? && e.input.Sweep? &&
    var plain := Plain(e.input.records);
    if e.input.good then !e.env.blockFree && |plain| > CompactIfFree(s).q.Room() else plain != []
  }

  predicate Lossless(p: Parser, s: Conn, es: seq<Event>)
    decreases |es|
  {
    es == [] || (!Loses(s, es[0]) && Lossless(p, Step(p, s, es[0]), es[1..]))
  }

  lemma UnbrokenExact(p: Parser, s: Conn)
    requires Inv(p, s) && !s.broken
    ensures Exact(s)
  {
  }

  lemma DeliverExact(p: Parser, s: Conn, plain: seq<byte>, left: nat, env: Env)
    requires !s.broken && s.q.spill == [] && Exact(s) && |plain| <= TLS_SPILL_SIZE
    ensures var t := Deliver(p, s, plain, left, env);
            if |plain| > s.q.Room() && !env.blockFree then !Exact(t) else t.broken == false
  {
    var k := Kept(s.q, plain);
    if |plain| > s.q.Room() && !env.blockFree {
      var t := Store(Note(s, plain, left), plain[..k], []);
      assert |Flat(t.log.done) + t.q.buf + t.q.spill| < |t.log.received|;
    }
  }

  lemma SweepExact(p: Parser, s: Conn, e: Event)
    requires Lawful(p) && Inv(p, s) && Enabled(s, e) && e.Read? && e.input.Sweep?
    ensures Exact(s) && (Exact(Step(p, s, e)) <==> !Loses(s, e))
  {
    var t := CompactIfFree(s);
    UnbrokenExact(p, s);
    if e.input.good {
      CompactKeeps(p, s);
      SweepDelivers(p, s, e.input.records, e.input.left, e.env);
      DeliverExact(p, t, Plain(e.input.records), e.input.left, e.env);
      StepKeeps(p, s, e);
    }
  }

  lemma WroteExact(p: Parser, s: Conn, ok: bool, env: Env)
    requires Lawful(p) && Inv(p, s) && Enabled(s, Wrote(ok, env))
    ensures Exact(OnWrite(p, s, ok, env)) <==> Exact(s)
  {
    if ok && s.keepAlive {
      UnbrokenExact(p, s);
      OnWriteKeeps(p, s, ok, env);
      UnbrokenExact(p, OnWrite(p, s, ok, env));
    }
  }

  lemma PlainExact(p: Parser, s: Conn, bytes: seq<byte>, env: Env)
    requires Lawful(p) && Inv(p, s) && Enabled(s, Read(Data(bytes), env))
    ensures Exact(s) && Exact(Step(p, s, Read(Data(bytes), env)))
  {
    UnbrokenExact(p, s);
    ReadKeeps(p, s, Data(bytes), env);
    UnbrokenExact(p, Step(p, s, Read(Data(bytes), env)));
  }

  /** A step keeps the account exact unless it is such a read, and none makes it exact again. */
  lemma StepExact(p: Parser, s: Conn, e: Event)
    requires Lawful(p) && Inv(p, s) && Enabled(s, e)
    ensures Exact(Step(p, s, e)) <==> Exact(s) && !Loses(s, e)
  {
    match e
    case Read(Data(bytes), env) => PlainExact(p, s, bytes, env);
    case Read(Sweep(_, _, _), _) => SweepExact(p, s, e);
    case Wrote(ok, env) => WroteExact(p, s, ok, env);
    case _ =>
  }

  lemma {:induction false} RunExact(p: Parser, s: Conn, es: seq<Event>)
    requires Lawful(p) && Inv(p, s) && Possible(p, s, es)
    ensures Exact(Run(p, s, es)) <==> Exact(s) && Lossless(p, s, es)
    decreases |es|
  {
    if es != [] {
      StepKeeps(p, s, es[0]);
      StepExact(p, s, es[0]);
      RunExact(p, Step(p, s, es[0]), es[1..]);
    }
  }

  /** Stream conservation.  Through in-place appends, growth, stashing, draining, lazy
      resets and compaction, the answered requests, the buffered bytes and the spill are,
      in this order, what arrived, up to its end exactly when no read lost plaintext; and
      the request in flight is still the front of the buffer. */
  lemma StreamConservation(p: Parser, s: Conn, es: seq<Event>)
    requires Lawful(p) && Initial(s) && Possible(p, s, es)
    ensures var t := Run(p, s, es);
            && Flat(t.log.done) + t.q.buf + t.q.spill <= Arrivals(es)
            && (Flat(t.log.done) + t.q.buf + t.q.spill == Arrivals(es) <==> Lossless(p, s, es))
            && (t.inFlight ==> t.current.raw <= t.q.buf && Framed(p, t.current))
  {
    InitialInv(p, s);
    RunKeeps(p, s, es);
    RunReceives(p, s, es);
    RunExact(p, s, es);
    assert s.log.received + Arrivals(es) == Arrivals(es);
    var t := Run(p, s, es);
    if t.inFlight {
      FirstIsFramed(p, t.q.buf);
    }
  }

  /** With a block for every read that needs one, and no record failing behind one that had
      decrypted, nothing is lost in any run. */
  lemma {:induction false} BlocksSuffice(p: Parser, s: Conn, es: seq<Event>)
    requires forall i :: 0 <= i < |es| && es[i].Read? ==>
               es[i].env.blockFree && (es[i].input.Sweep? && !es[i].input.good ==> Plain(es[i].input.records) == [])
    ensures Lossless(p, s, es)
    decreases |es|
  {
    if es != [] {
      BlocksSuffice(p, Step(p, s, es[0]), es[1..]);
    }
  }

  /** Nothing is being answered, written or closed. */
  predicate Quiescent(s: Conn) {
    !s.uv.closing && !s.inFlight && s.uv.writer.Idle?
  }

  /** What is received behind the answered requests: the buffer, the spill and anything lost. */
  lemma SplitReceived(p: Parser, s: Conn) returns (more: seq<byte>)
    requires Inv(p, s)
    ensures s.log.received == Flat(s.log.done) + (s.q.buf + more)
    ensures Quiescent(s) ==> more == []
  {
    var known := Flat(s.log.done) + s.q.buf + s.q.spill;
    more := s.q.spill + s.log.received[|known|..];
    assert s.log.received == known + s.log.received[|known|..];
  }

  /** The requests of everything received: the dispatched ones, then those further behind. */
  lemma SplitRequests(p: Parser, s: Conn) returns (more: seq<Request>)
    requires Lawful(p) && Inv(p, s)
    ensures Requests(p, s.log.received) == s.Dispatched() + more
    ensures Quiescent(s) ==> more == []
  {
    var behind := SplitReceived(p, s);
    var rest := s.q.buf + behind;
    RequestsOfFlat(p, s.log.done, rest);
    if s.inFlight {
      CompleteAppend(p, s.q.buf, behind);
      more := Requests(p, rest[FirstLen(p, rest)..]);
      assert Requests(p, rest) == [s.current] + more;
      assert s.log.done + ([s.current] + more) == s.log.done + [s.current] + more;
    } else {
      more := Requests(p, rest);
      assert Quiescent(s) ==> rest == s.q.buf;
    }
  }

  lemma CurrentKeeps(p: Parser, s: Conn)
    requires Lawful(p) && Inv(p, s) && s.inFlight
    ensures p(s.q.buf, 0).Ok? && (KeepsOpen(p, s.current) <==> p(s.q.buf, 0).keepAlive)
    ensures s.keepAlive ==> KeepsOpen(p, s.current)
  {
    FirstIsFramed(p, s.q.buf);
  }

  lemma DispatchedIsDue(p: Parser, s: Conn)
    requires Lawful(p) && Inv(p, s)
    ensures s.Dispatched() <= Due(p, s.log.received)
    ensures Quiescent(s) ==> s.Dispatched() == Due(p, s.log.received)
    ensures s.inFlight && !KeepsOpen(p, s.current) ==> s.Dispatched() == Due(p, s.log.received)
  {
    var more := SplitRequests(p, s);
    if s.inFlight {
      UpToCloseThrough(p, s.log.done, s.current, more);
    } else {
      UpToCloseAppend(p, s.log.done, more);
    }
  }

  /** Order: at every point the requests handed to the application are a prefix of those the
      byte stream contains up to the first that asks to close; all of them once nothing is in
      flight, or once that one is. */
  lemma DispatchFollowsStream(p: Parser, s: Conn, es: seq<Event>)
    requires Lawful(p) && Initial(s) && Possible(p, s, es)
    ensures var t := Run(p, s, es);
            && t.Dispatched() <= Due(p, Arrivals(es)) <= Requests(p, Arrivals(es))
            && (Quiescent(t) ==> t.Dispatched() == Due(p, Arrivals(es)))
            && (t.inFlight && !KeepsOpen(p, t.current) ==> t.Dispatched() == Due(p, Arrivals(es)))
            && (t.inFlight && t.keepAlive ==> KeepsOpen(p, t.current))
  {
    InitialInv(p, s);
    RunKeeps(p, s, es);
    RunReceives(p, s, es);
    assert s.log.received + Arrivals(es) == Arrivals(es);
    DispatchedIsDue(p, Run(p, s, es));
    OnlyLastCloses(p, Requests(p, Arrivals(es)));
    if Run(p, s, es).inFlight {
      CurrentKeeps(p, Run(p, s, es));
    }
  }

  /** Two connections in any two runs, one of them possibly encrypted, that got the same bytes
      have dispatched the same requests whenever both are quiescent. */
  lemma QuiescentRunsAgree(p: Parser, s1: Conn, es1: seq<Event>, s2: Conn, es2: seq<Event>)
    requires Lawful(p)
    requires Initial(s1) && Possible(p, s1, es1) && Quiescent(Run(p, s1, es1))
    requires Initial(s2) && Possible(p, s2, es2) && Quiescent(Run(p, s2, es2))
    requires Arrivals(es1) == Arrivals(es2)
    ensures Run(p, s1, es1).Dispatched() == Run(p, s2, es2).Dispatched()
  {
    DispatchFollowsStream(p, s1, es1);
    DispatchFollowsStream(p, s2, es2);
  }

  /** uv_close() is called at most once, write_req never has two users, and tls_wblock is never
      overwritten while it may hold a chain; once the handle is closing no completion that
      could close it again is outstanding. */
  lemma SingleCloseSingleWriter(p: Parser, s: Conn, es: seq<Event>)
    requires Lawful(p) && Initial(s) && Possible(p, s, es)
    ensures var t := Run(p, s, es);
            && t.uv.closes <= 1 && t.uv.clashes == 0 && t.uv.leaks == 0
            && (t.uv.closing ==> forall e :: !Enabled(t, e))
  {
    InitialInv(p, s);
    RunKeeps(p, s, es);
  }

  /** Read flow.  Plaintext: libuv is offered an empty buffer only when one unfinished
      request fills all of read_buf, never while a response is in flight.  TLS: a spill
      stands behind a full buffer and in front of a pending write or response.  Either way
      an open connection is reading, owes an answer or has a write pending, and a quiescent
      one is reading. */
  lemma ReadFlowInvariant(p: Parser, s: Conn, es: seq<Event>)
    requires Lawful(p) && Initial(s) && Possible(p, s, es)
    ensures var t := Run(p, s, es);
            && (Quiescent(t) ==> t.armed && t.q.spill == [])
            && (!t.uv.closing ==> t.armed || (t.inFlight && !t.answered) || !t.uv.writer.Idle?)
            && (!t.tls && t.armed && !t.uv.closing && AllocCb(t).q.Room() == 0 ==>
                  !t.inFlight && |t.q.buf| == READ_BUF_SIZE && !Complete(p, t.q.buf))
            && (t.q.spill != [] ==>
                  && t.tls && t.q.ReadLen() == READ_BUF_SIZE
                  && (t.inFlight || t.uv.writer.Final? || t.uv.closing))
            && (t.tls && t.armed && !t.uv.closing ==> t.q.spill == [] && t.q.Room() > 0)
  {
    InitialInv(p, s);
    RunKeeps(p, s, es);
  }

  /** While a response is in flight only the write completion may touch its request: every
      other callback leaves the request's bytes where and what they are. */
  lemma {:induction false} InFlightPinned(p: Parser, s: Conn, es: seq<Event>)
    requires Lawful(p) && Inv(p, s) && s.inFlight && Possible(p, s, es)
    requires forall i :: 0 <= i < |es| ==> !es[i].Wrote?
    ensures var t := Run(p, s, es);
            t.inFlight && t.q.off == s.q.off && s.q.buf <= t.q.buf && t.current == s.current
    decreases |es|
  {
    if es != [] {
      StepKeeps(p, s, es[0]);
      var t := Step(p, s, es[0]);
      StepPinned(p, s, es[0]);
      InFlightPinned(p, t, es[1..]);
    }
  }

  lemma SweepPinned(p: Parser, s: Conn, records: seq<Record>, left: nat, good: bool, env: Env)
    requires s.inFlight
    ensures var t := ReadSweep(p, s, records, left, good, env);
            t.inFlight && t.q.off == s.q.off && s.q.buf <= t.q.buf && t.current == s.current
  {
  }

  lemma StepPinned(p: Parser, s: Conn, e: Event)
    requires s.inFlight && !e.Wrote?
    ensures var t := Step(p, s, e);
            t.inFlight && t.q.off == s.q.off && s.q.buf <= t.q.buf && t.current == s.current
  {
    if e.Read? && e.input.Sweep? {
      SweepPinned(p, AllocCb(s), e.input.records, e.input.left, e.input.good, e.env);
    }
  }
}
