/** Connections that nothing goes wrong on: they keep up with the stream, and stay open until
    a request asks them to close. */
module CleanRuns {
  import opened Parsing
  import opened TlsSizes
  import opened Decrypt
  import opened Connection
  import opened ConnectionInvariant
  import opened ConnectionRuns
  import ConnectionEndings

  /** Up to the first request that asks to close, nothing in the stream is malformed and every
      request fits read_buf. */
  predicate Clean(p: Parser, s: seq<byte>)
    decreases |s|
  {
    && !p(s, 0).Bad?
    && (|s| >= READ_BUF_SIZE ==> Complete(p, s[..READ_BUF_SIZE]))
    && (Complete(p, s) && p(s, 0).keepAlive ==> Clean(p, s[FirstLen(p, s)..]))
  }

  predicate BenignEnv(env: Env) {
    env.blockFree && (env.turn.Now? ==> env.turn.keeps && env.turn.writes)
  }

  /** No EOF, no failed write, no decryption failure, no allocation failure, and no
      response that gives the connection up. */
  predicate Benign(e: Event) {
    match e
    case Read(Failed, _) => false
    case Read(Sweep(_, _, good), env) => good && BenignEnv(env)
    case Read(_, env) => BenignEnv(env)
    case Respond(keeps, writes) => keeps && writes
    case Wrote(ok, env) => ok && BenignEnv(env)
    case FinalWrote => true
  }

  /** The unanswered part of the stream, of which the buffer and spill hold a prefix. */
  ghost predicate Ahead(p: Parser, s: Conn, rest: seq<byte>) {
    s.q.buf + s.q.spill <= rest && Clean(p, rest)
  }

  /** The first request of the buffer leaves the connection open. */
  predicate WantsMore(p: Parser, s: Conn) {
    p(s.q.buf, 0).Ok? && p(s.q.buf, 0).keepAlive
  }

  /** Open, reading or writing a response, and going to do as the request in flight asks. */
  predicate Alive(p: Parser, s: Conn) {
    && !s.uv.closing && !s.broken && (s.uv.writer.Idle? || s.uv.writer.Response?)
    && (s.inFlight ==> s.keepAlive == WantsMore(p, s))
  }

  /** Closed or about to be, because the request just answered asked for it. */
  predicate Over(p: Parser, s: Conn) {
    (s.uv.closing || s.uv.writer.Final?) && s.inFlight && !WantsMore(p, s)
  }

  lemma BufferIsPrefix(p: Parser, s: Conn, rest: seq<byte>)
    requires Ahead(p, s, rest)
    ensures s.q.buf <= rest && rest == s.q.buf + rest[|s.q.buf|..]
  {
  }

  lemma DispatchAlive(p: Parser, s: Conn, env: Env, rest: seq<byte>)
    requires Lawful(p) && Ready(p, s) && Ahead(p, s, rest) && BenignEnv(env)
    ensures var (t, v) := Dispatch(p, s, env);
            && !v.Gone? && Alive(p, t)
            && (v.NeedMore? ==> |s.q.buf| < READ_BUF_SIZE)
            && (v.NeedMore? <==> !t.inFlight)
  {
    BufferIsPrefix(p, s, rest);
    VerdictSound(p, s);
    var more := rest[|s.q.buf|..];
    assert rest == Extend(s.q.buf, more);
    assert |s.q.buf| == READ_BUF_SIZE ==> rest[..READ_BUF_SIZE] == s.q.buf;
    if Complete(p, s.q.buf) {
      CompleteAppend(p, s.q.buf, more);
    }
  }

  lemma AfterSweepAlive(p: Parser, s: Conn, env: Env, rest: seq<byte>)
    requires Lawful(p) && Accounted(p, s) && Bounded(s) && s.tls && Alive(p, s)
    requires s.inFlight || (s.uv.writer.Idle? && s.q.off == 0)
    requires Ahead(p, s, rest) && BenignEnv(env)
    ensures Alive(p, AfterSweep(p, s, env))
  {
    if !s.inFlight {
      DispatchAlive(p, s, env, rest);
    }
  }

  lemma StoredBytes(q: Queue, plain: seq<byte>, k: nat)
    requires q.spill == [] && k <= |plain|
    ensures (q.buf + plain[..k]) + (q.spill + plain[k..]) == q.buf + q.spill + plain
  {
  }

  /** Bytes that arrive behind the request in flight do not change what it asks for. */
  lemma StoredAlive(p: Parser, s: Conn, x: seq<byte>, y: seq<byte>, plain: seq<byte>, left: nat)
    requires Lawful(p) && Accounted(p, s) && Alive(p, s)
    ensures Alive(p, Store(Note(s, plain, left), x, y))
  {
    if s.inFlight {
      CompleteAppend(p, s.q.buf, x);
    }
  }

  lemma StoredAhead(p: Parser, s: Conn, plain: seq<byte>, left: nat, rest: seq<byte>)
    requires Lawful(p) && Inv(p, s) && s.tls && s.armed && Alive(p, s)
    requires |plain| <= TLS_SPILL_SIZE && left < 5 + TLS_MAX_ENC_RECORD
    requires s.q.buf + s.q.spill + plain <= rest && Clean(p, rest)
    ensures var k := Kept(s.q, plain);
            var t := Store(Note(s, plain, left), plain[..k], plain[k..]);
            Accounted(p, t) && Bounded(t) && Ahead(p, t, rest)
  {
    var k := Kept(s.q, plain);
    StoredBytes(s.q, plain, k);
    assert plain == plain[..k] + plain[k..];
    StoreKeeps(p, s, plain[..k], plain[k..], left);
  }

  lemma DeliverAlive(p: Parser, s: Conn, plain: seq<byte>, left: nat, env: Env, rest: seq<byte>)
    requires Lawful(p) && Inv(p, s) && s.tls && s.armed && Alive(p, s)
    requires !s.inFlight ==> s.q.off == 0
    requires |plain| <= TLS_SPILL_SIZE && left < 5 + TLS_MAX_ENC_RECORD
    requires s.q.buf + s.q.spill + plain <= rest && Clean(p, rest) && BenignEnv(env)
    ensures Alive(p, Deliver(p, s, plain, left, env))
  {
    if plain != [] {
      var k := Kept(s.q, plain);
      StoredAhead(p, s, plain, left, rest);
      StoredAlive(p, s, plain[..k], plain[k..], plain, left);
      AfterSweepAlive(p, Store(Note(s, plain, left), plain[..k], plain[k..]), env, rest);
    }
  }

  lemma PlainAlive(p: Parser, s: Conn, bytes: seq<byte>, env: Env, rest: seq<byte>)
    requires Lawful(p) && Inv(p, s) && !s.tls && Alive(p, s)
    requires s.q.ReadLen() + |bytes| <= READ_BUF_SIZE
    requires s.q.buf + bytes <= rest && Clean(p, rest) && BenignEnv(env)
    ensures Alive(p, ReadPlain(p, s, bytes, env))
  {
    StoredAlive(p, s, bytes, [], bytes, s.held);
    if !s.inFlight {
      assert bytes + [] == bytes;
      StoreKeeps(p, s, bytes, [], s.held);
      var t := Store(Note(s, bytes, s.held), bytes, []);
      assert t.q.buf + t.q.spill == s.q.buf + bytes;
      DispatchAlive(p, t, env, rest);
    }
  }

  lemma SweepAlive(p: Parser, s: Conn, records: seq<Record>, left: nat, env: Env, rest: seq<byte>)
    requires Lawful(p) && Inv(p, s) && Alive(p, s)
    requires Enabled(s, Read(Sweep(records, left, true), env)) && BenignEnv(env)
    requires s.q.buf + s.q.spill + Plain(records) <= rest && Clean(p, rest)
    ensures Alive(p, ReadSweep(p, s, records, left, true, env))
  {
    CompactKeeps(p, s);
    SweepDelivers(p, s, records, left, env);
    DeliverAlive(p, CompactIfFree(s), Plain(records), left, env, rest);
  }

  lemma ReadAlive(p: Parser, s: Conn, input: Input, env: Env, rest: seq<byte>)
    requires Lawful(p) && Inv(p, s) && Alive(p, s)
    requires Enabled(s, Read(input, env)) && Benign(Read(input, env))
    requires s.q.buf + s.q.spill + Arrival(Read(input, env)) <= rest && Clean(p, rest)
    ensures Alive(p, Step(p, s, Read(input, env)))
  {
    match input
    case Nothing =>
    case Data(bytes) =>
      CompactKeeps(p, s);
      assert s.q.buf + s.q.spill == s.q.buf;
      PlainAlive(p, CompactIfFree(s), bytes, env, rest);
    case Sweep(records, left, good) =>
      SweepAlive(p, s, records, left, env, rest);
  }

  lemma NextRequestAlive(p: Parser, s: Conn, env: Env, rest: seq<byte>)
    requires Lawful(p) && Ready(p, s) && Ahead(p, s, rest) && BenignEnv(env)
    requires s.q.spill != [] ==> s.q.off == 0
    ensures Alive(p, NextRequest(p, s, env))
  {
    if s.q.buf != [] {
      DispatchAlive(p, s, env, rest);
    }
  }

  /** What stands behind the request in flight is clean, if that leaves the connection open. */
  lemma CleanBehind(p: Parser, buf: seq<byte>, rest: seq<byte>)
    requires Lawful(p) && Complete(p, buf) && p(buf, 0).keepAlive && buf <= rest && Clean(p, rest)
    ensures FirstLen(p, buf) <= |rest| && Clean(p, rest[FirstLen(p, buf)..])
  {
    var more := rest[|buf|..];
    assert rest == buf + more;
    CompleteAppend(p, buf, more);
    assert FirstLen(p, rest) == FirstLen(p, buf);
  }

  lemma DropPrefix(a: seq<byte>, b: seq<byte>, rest: seq<byte>, n: nat)
    requires n <= |a| && a + b <= rest
    ensures a[n..] + b <= rest[n..]
  {
    assert a[n..] + b == (a + b)[n..];
    assert rest[n..|a + b|] == (a + b)[n..];
  }

  /** Answering a request leaves a clean rest. */
  lemma CleanRest(p: Parser, s: Conn, rest: seq<byte>)
    requires Lawful(p) && Accounted(p, s) && s.inFlight && s.keepAlive && Ahead(p, s, rest)
    ensures var n := |s.current.raw|;
            n <= |rest| && Clean(p, rest[n..]) && Reset(s).q.buf + Reset(s).q.spill <= rest[n..]
    ensures Reset(s).log.done == s.log.done + [s.current]
  {
    BufferIsPrefix(p, s, rest);
    CleanBehind(p, s.q.buf, rest);
    var n := FirstLen(p, s.q.buf);
    AdvanceDrops(s.q, n);
    DropPrefix(s.q.buf, s.q.spill, rest, n);
  }

  lemma RefillAhead(p: Parser, s: Conn, rest: seq<byte>)
    requires Ahead(p, s, rest)
    ensures Ahead(p, s.(q := Refill(s.q)), rest)
  {
    RefillBytes(s.q, []);
    assert [] + s.q.buf + s.q.spill == s.q.buf + s.q.spill;
    assert [] + Refill(s.q).buf + Refill(s.q).spill == Refill(s.q).buf + Refill(s.q).spill;
  }

  lemma RenewAhead(p: Parser, s: Conn, rest: seq<byte>)
    requires Lawful(p) && Accounted(p, s) && s.inFlight && s.keepAlive && Ahead(p, s, rest)
    ensures |s.current.raw| <= |rest| && Ahead(p, Renew(s), rest[|s.current.raw|..])
  {
    CleanRest(p, s, rest);
    RefillAhead(p, Reset(s), rest[|s.current.raw|..]);
  }

  lemma WroteAlive(p: Parser, s: Conn, env: Env, rest: seq<byte>)
    requires Lawful(p) && Inv(p, s) && Alive(p, s) && s.keepAlive && Ahead(p, s, rest)
    requires Enabled(s, Wrote(true, env)) && BenignEnv(env)
    ensures Alive(p, Step(p, s, Wrote(true, env)))
  {
    var t := UvWritten(s);
    RenewKeeps(p, t);
    RenewAhead(p, t, rest);
    NextRequestAlive(p, Renew(t), env, rest[|s.current.raw|..]);
  }

  /** `whole` is the complete stream: what was received, and after it what is to come. */
  ghost predicate Healthy(p: Parser, s: Conn, whole: seq<byte>) {
    && Inv(p, s) && Alive(p, s)
    && s.log.received <= whole
    && |Flat(s.log.done)| <= |whole| && Clean(p, whole[|Flat(s.log.done)|..])
  }

  lemma HealthyAhead(p: Parser, s: Conn, whole: seq<byte>, x: seq<byte>)
    requires Healthy(p, s, whole) && s.log.received + x <= whole
    ensures s.q.buf + s.q.spill + x <= whole[|Flat(s.log.done)|..]
  {
  }

  lemma HealthyRest(p: Parser, s: Conn, whole: seq<byte>)
    requires Healthy(p, s, whole)
    ensures Ahead(p, s, whole[|Flat(s.log.done)|..])
  {
    assert s.log.received + [] == s.log.received;
    HealthyAhead(p, s, whole, []);
    assert s.q.buf + s.q.spill + [] == s.q.buf + s.q.spill;
  }

  lemma DropTwice(s: seq<byte>, m: nat, n: nat)
    requires m + n <= |s|
    ensures s[m..][n..] == s[m + n..]
  {
  }

  /** What an answered request leaves of the whole stream. */
  lemma WroteRest(p: Parser, s: Conn, whole: seq<byte>)
    requires Lawful(p) && Accounted(p, s) && s.inFlight && s.keepAlive
    requires |Flat(s.log.done)| <= |whole| && Ahead(p, s, whole[|Flat(s.log.done)|..])
    ensures var d := |Flat(s.log.done + [s.current])|;
            d <= |whole| && Clean(p, whole[d..])
  {
    var d := |Flat(s.log.done)|;
    CleanRest(p, s, whole[d..]);
    FlatAppend(s.log.done, s.current);
    DropTwice(whole, d, |s.current.raw|);
  }

  lemma WroteHealthy(p: Parser, s: Conn, env: Env, whole: seq<byte>)
    requires Lawful(p) && Healthy(p, s, whole) && Enabled(s, Wrote(true, env)) && BenignEnv(env) && s.keepAlive
    ensures Healthy(p, Step(p, s, Wrote(true, env)), whole)
  {
    HealthyRest(p, s, whole);
    WroteRest(p, s, whole);
    StepKeeps(p, s, Wrote(true, env));
    StepReceives(p, s, Wrote(true, env));
    WroteAlive(p, s, env, whole[|Flat(s.log.done)|..]);
    assert Step(p, s, Wrote(true, env)).log.done == s.log.done + [s.current];
  }

  /** A response is written behind which the connection is not kept. */
  lemma WroteOver(p: Parser, s: Conn, env: Env)
    requires Inv(p, s) && Alive(p, s) && Enabled(s, Wrote(true, env)) && !s.keepAlive
    ensures Over(p, Step(p, s, Wrote(true, env)))
  {
  }

  /** Nothing but the end of the final write can follow. */
  lemma OverStays(p: Parser, s: Conn, e: Event)
    requires Inv(p, s) && Over(p, s) && Enabled(s, e)
    ensures Over(p, Step(p, s, e))
  {
  }

  /** On a clean stream a connection is healthy or, as asked, over. */
  ghost predicate Fine(p: Parser, s: Conn, whole: seq<byte>) {
    Healthy(p, s, whole) || (Inv(p, s) && Over(p, s))
  }

  lemma StepFine(p: Parser, s: Conn, e: Event, whole: seq<byte>)
    requires Lawful(p) && Fine(p, s, whole) && Enabled(s, e) && Benign(e)
    requires s.log.received + Arrival(e) <= whole
    ensures Fine(p, Step(p, s, e), whole)
  {
    StepKeeps(p, s, e);
    if Over(p, s) {
      OverStays(p, s, e);
    } else if e.Wrote? && !s.keepAlive {
      WroteOver(p, s, e.env);
    } else {
      StepHealthy(p, s, e, whole);
    }
  }

  lemma StepHealthy(p: Parser, s: Conn, e: Event, whole: seq<byte>)
    requires Lawful(p) && Healthy(p, s, whole) && Enabled(s, e) && Benign(e) && (e.Wrote? ==> s.keepAlive)
    requires s.log.received + Arrival(e) <= whole
    ensures Healthy(p, Step(p, s, e), whole)
  {
    match e
    case Read(input, env) =>
      StepKeeps(p, s, e);
      StepReceives(p, s, e);
      HealthyAhead(p, s, whole, Arrival(e));
      ReadAlive(p, s, input, env, whole[|Flat(s.log.done)|..]);
    case Respond(keeps, writes) =>
      StepKeeps(p, s, e);
    case Wrote(ok, env) =>
      WroteHealthy(p, s, env, whole);
    case FinalWrote =>
  }

  lemma {:induction false} RunFine(p: Parser, s: Conn, es: seq<Event>, whole: seq<byte>)
    requires Lawful(p) && Fine(p, s, whole) && Possible(p, s, es)
    requires forall i :: 0 <= i < |es| ==> Benign(es[i])
    requires s.log.received + Arrivals(es) == whole
    ensures Fine(p, Run(p, s, es), whole)
    decreases |es|
  {
    if es != [] {
      ReceivesStep(p, s, es);
      Reassociate(s.log.received, Arrival(es[0]), Arrivals(es[1..]));
      StepFine(p, s, es[0], whole);
      RunFine(p, Step(p, s, es[0]), es[1..], whole);
    }
  }

  /** A run on a clean stream in which nothing fails. */
  ghost predicate CleanRun(p: Parser, s: Conn, es: seq<Event>) {
    && Lawful(p) && Initial(s) && Possible(p, s, es)
    && (forall i :: 0 <= i < |es| ==> Benign(es[i])) && Clean(p, Arrivals(es))
  }

  lemma CleanRunFine(p: Parser, s: Conn, es: seq<Event>)
    requires CleanRun(p, s, es)
    ensures Fine(p, Run(p, s, es), Arrivals(es))
  {
    InitialInv(p, s);
    assert Arrivals(es)[0..] == Arrivals(es);
    assert s.log.received + Arrivals(es) == Arrivals(es);
    RunFine(p, s, es, Arrivals(es));
  }

  /** Closed, or saying goodbye. */
  predicate Ended(s: Conn) {
    s.uv.closing || s.uv.writer.Final?
  }

  /** With nothing in flight, or at its end. */
  predicate AtRest(s: Conn) {
    !s.inFlight || Ended(s)
  }

  lemma FineMeans(p: Parser, t: Conn, whole: seq<byte>)
    requires Lawful(p) && Fine(p, t, whole)
    ensures Ended(t) ==> t.inFlight && !KeepsOpen(p, t.current)
    ensures !t.inFlight ==> Quiescent(t) && t.armed && AllocCb(t).q.Room() > 0
  {
    if t.inFlight {
      CurrentKeeps(p, t);
    } else {
      HealthyRest(p, t, whole);
      RoomLeft(p, t, whole[|Flat(t.log.done)|..]);
    }
  }

  /** On a clean stream, cut and encrypted in any way, a connection on which nothing fails
      dispatches what is due and nothing else: all of it whenever nothing is in flight, when
      it can also read on; and all of it when it ends, which it does only once the request in
      flight asked it to. */
  lemma CleanRunServesStream(p: Parser, s: Conn, es: seq<Event>)
    requires CleanRun(p, s, es)
    ensures var t := Run(p, s, es);
            && t.Dispatched() <= Due(p, Arrivals(es))
            && (AtRest(t) ==> t.Dispatched() == Due(p, Arrivals(es)))
            && (!t.inFlight ==> Quiescent(t) && t.armed && AllocCb(t).q.Room() > 0)
            && (Ended(t) ==> t.inFlight && !KeepsOpen(p, t.current))
  {
    CleanRunFine(p, s, es);
    FineMeans(p, Run(p, s, es), Arrivals(es));
    DispatchFollowsStream(p, s, es);
  }

  /** No spurious close: if every request of the stream leaves the connection open, so does
      the server. */
  lemma CleanRunStaysOpen(p: Parser, s: Conn, es: seq<Event>)
    requires CleanRun(p, s, es)
    requires AllKeepOpen(p, Requests(p, Arrivals(es)))
    ensures var t := Run(p, s, es);
            t.uv.closes == 0 && (!t.inFlight ==> t.Dispatched() == Requests(p, Arrivals(es)))
  {
    var t := Run(p, s, es);
    CleanRunServesStream(p, s, es);
    SingleCloseSingleWriter(p, s, es);
    DispatchFollowsStream(p, s, es);
    AllDue(p, Requests(p, Arrivals(es)));
    ClosesOnce(p, s, es);
    if t.inFlight {
      assert t.Dispatched()[|t.log.done|] == t.current;
    }
  }

  lemma AllDue(p: Parser, rs: seq<Request>)
    requires AllKeepOpen(p, rs)
    ensures UpToClose(p, rs) == rs
  {
    UpToCloseAppend(p, rs, []);
    assert rs + [] == rs;
  }

  lemma ClosesOnce(p: Parser, s: Conn, es: seq<Event>)
    requires Lawful(p) && Initial(s) && Possible(p, s, es)
    ensures Run(p, s, es).uv.closes == if Run(p, s, es).uv.closing then 1 else 0
  {
    InitialInv(p, s);
    RunKeeps(p, s, es);
  }

  /** `t` is where some clean run on `stream` ends: some connection, the stream cut and, on TLS,
      encrypted in some way. */
  ghost predicate Reached(p: Parser, stream: seq<byte>, t: Conn) {
    exists s, es :: CleanRun(p, s, es) && Arrivals(es) == stream && Run(p, s, es) == t
  }

  lemma ReachedServed(p: Parser, stream: seq<byte>, t: Conn)
    requires Reached(p, stream, t) && AtRest(t)
    ensures t.Dispatched() == Due(p, stream) && (Ended(t) <==> !AllKeepOpen(p, Due(p, stream)))
  {
    var s, es :| CleanRun(p, s, es) && Arrivals(es) == stream && Run(p, s, es) == t;
    CleanRunServesStream(p, s, es);
    EndsAlike(p, s, es);
  }

  /** Segmentation independence: two connections, one of them possibly encrypted, that got the
      same clean bytes cut in any two ways, and on which nothing failed, have dispatched the
      same requests with the same bodies once each has nothing in flight or has ended; and
      they end alike. */
  lemma SegmentationIndependence(p: Parser, stream: seq<byte>, t1: Conn, t2: Conn)
    requires Reached(p, stream, t1) && Reached(p, stream, t2) && AtRest(t1) && AtRest(t2)
    ensures t1.Dispatched() == t2.Dispatched() == Due(p, stream)
    ensures Ended(t1) == Ended(t2)
  {
    ReachedServed(p, stream, t1);
    ReachedServed(p, stream, t2);
  }

  // ---- the close_notify ----

  /** Every final write a TLS connection attempts is accepted. */
  predicate Accepting(e: Event) {
    e.Read? || e.Wrote? ==> e.env.finalSent
  }

  predicate SaysGoodbye(es: seq<Event>) {
    exists i :: 0 <= i < |es| && es[i].FinalWrote?
  }

  lemma ReadKeepsTls(p: Parser, s: Conn, input: Input, env: Env)
    ensures OnRead(p, s, input, env).tls == s.tls
  {
  }

  lemma WriteKeepsTls(p: Parser, s: Conn, ok: bool, env: Env)
    ensures OnWrite(p, s, ok, env).tls == s.tls
  {
  }

  lemma TlsKept(p: Parser, s: Conn, e: Event)
    ensures Step(p, s, e).tls == s.tls
  {
    match e
    case Read(input, env) => ReadKeepsTls(p, AllocCb(s), input, env);
    case Wrote(ok, env) => WriteKeepsTls(p, s, ok, env);
    case _ =>
  }

  /** Healthy connections are open, and one that is over has nothing but its final write. */
  lemma StepGoodbye(p: Parser, s: Conn, e: Event, whole: seq<byte>)
    requires Lawful(p) && Fine(p, s, whole) && s.tls && !s.uv.closing && Enabled(s, e) && Benign(e) && Accepting(e)
    requires s.log.received + Arrival(e) <= whole
    ensures Step(p, s, e).uv.closing <==> e.FinalWrote?
  {
    if e.Wrote? && !s.keepAlive {
      ConnectionEndings.FinishEnds(p, s, true, e.env);
    } else if !e.FinalWrote? {
      StillHealthy(p, s, e, whole);
      StepHealthy(p, s, e, whole);
    }
  }

  lemma StillHealthy(p: Parser, s: Conn, e: Event, whole: seq<byte>)
    requires Fine(p, s, whole) && !s.uv.closing && Enabled(s, e) && !e.FinalWrote?
    ensures Healthy(p, s, whole)
  {
  }

  lemma NothingFollows(p: Parser, s: Conn, es: seq<Event>)
    requires Lawful(p) && Inv(p, s) && s.uv.closing && Possible(p, s, es)
    ensures es == []
  {
  }

  lemma LaterGoodbye(es: seq<Event>)
    requires es != [] && !es[0].FinalWrote?
    ensures SaysGoodbye(es) <==> SaysGoodbye(es[1..])
  {
    assert forall i :: 0 < i < |es| ==> es[1..][i - 1] == es[i];
  }

  lemma {:induction false} RunGoodbye(p: Parser, s: Conn, es: seq<Event>, whole: seq<byte>)
    requires Lawful(p) && Fine(p, s, whole) && s.tls && !s.uv.closing && Possible(p, s, es)
    requires forall i :: 0 <= i < |es| ==> Benign(es[i]) && Accepting(es[i])
    requires s.log.received + Arrivals(es) == whole
    ensures Run(p, s, es).uv.closing <==> SaysGoodbye(es)
    decreases |es|
  {
    if es != [] {
      var e, t := es[0], Step(p, s, es[0]);
      ReceivesStep(p, s, es);
      Reassociate(s.log.received, Arrival(e), Arrivals(es[1..]));
      StepGoodbye(p, s, e, whole);
      StepFine(p, s, e, whole);
      TlsKept(p, s, e);
      if e.FinalWrote? {
        NothingFollows(p, t, es[1..]);
      } else {
        RunGoodbye(p, t, es[1..], whole);
        LaterGoodbye(es);
      }
    }
  }

  /** The one close a TLS peer is entitled to see coming: on a clean stream a TLS connection
      whose final writes are accepted is closed if and only if its close_notify is out. */
  lemma CleanCloseIsAnnounced(p: Parser, s: Conn, es: seq<Event>)
    requires CleanRun(p, s, es) && s.tls && forall i :: 0 <= i < |es| ==> Accepting(es[i])
    ensures Run(p, s, es).uv.closing <==> SaysGoodbye(es)
  {
    InitialInv(p, s);
    assert Arrivals(es)[0..] == Arrivals(es);
    assert s.log.received + Arrivals(es) == Arrivals(es);
    RunGoodbye(p, s, es, Arrivals(es));
  }

  /** The last request due tells how the connection ends. */
  lemma EndsAlike(p: Parser, s: Conn, es: seq<Event>)
    requires CleanRun(p, s, es)
    requires AtRest(Run(p, s, es))
    ensures Ended(Run(p, s, es)) <==> !AllKeepOpen(p, Due(p, Arrivals(es)))
  {
    var t := Run(p, s, es);
    CleanRunServesStream(p, s, es);
    InitialInv(p, s);
    RunKeeps(p, s, es);
    if t.inFlight {
      assert t.Dispatched()[|t.log.done|] == t.current;
    }
  }

  lemma RoomLeft(p: Parser, s: Conn, rest: seq<byte>)
    requires Inv(p, s) && Alive(p, s) && !s.inFlight && Ahead(p, s, rest)
    ensures AllocCb(s).q.Room() > 0
  {
    BufferIsPrefix(p, s, rest);
    assert s.q.buf == rest[..|s.q.buf|];
  }
}
