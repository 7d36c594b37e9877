/** Reading goes on while a response is in flight, for as long as there is room. */
module ConnectionFlow {
  import opened Parsing
  import opened TlsSizes
  import opened Decrypt
  import opened Connection
  import opened ConnectionInvariant
  import opened ConnectionRuns

  /** A connection that is kept reads during a response exactly while read_buf has room. */
  predicate Listening(s: Conn) {
    s.inFlight && s.keepAlive && !s.uv.closing ==> (s.armed <==> s.q.ReadLen() < READ_BUF_SIZE)
  }

  lemma FlowListens(s: Conn)
    requires s.q.spill != [] ==> s.q.ReadLen() == READ_BUF_SIZE
    ensures Listening(ReadFlow(s))
  {
  }

  lemma AfterSweepListens(p: Parser, s: Conn, env: Env)
    requires Lawful(p) && (s.inFlight || Ready(p, s)) && Bounded(s)
    ensures Listening(AfterSweep(p, s, env))
  {
    if s.inFlight {
      FlowListens(s);
    } else {
      var (t, v) := Dispatch(p, s, env);
      match v
      case Gone => DispatchGone(p, s, env);
      case NeedMore => FlowListens(t);
      case Started => FlowListens(t);
    }
  }

  lemma DeliverListens(p: Parser, s: Conn, plain: seq<byte>, left: nat, env: Env)
    requires Lawful(p) && Receptive(p, s) && Listening(s) && |plain| <= TLS_SPILL_SIZE && left < 5 + TLS_MAX_ENC_RECORD
    ensures Listening(Deliver(p, s, plain, left, env))
  {
    var k := Kept(s.q, plain);
    StoredReady(p, s, plain, left);
    StoreBounded(s, plain, left);
    AfterSweepListens(p, Store(Note(s, plain, left), plain[..k], plain[k..]), env);
  }

  lemma SweepListens(p: Parser, s: Conn, records: seq<Record>, left: nat, good: bool, env: Env)
    requires Lawful(p) && Inv(p, s) && Listening(s) && Enabled(s, Read(Sweep(records, left, good), env))
    ensures Listening(ReadSweep(p, s, records, left, good, env))
  {
    if good {
      ReceptiveCompact(p, s);
      SweepDelivers(p, s, records, left, env);
      DeliverListens(p, CompactIfFree(s), Plain(records), left, env);
    }
  }

  lemma PlainListens(p: Parser, s: Conn, bytes: seq<byte>, env: Env)
    requires Lawful(p) && Inv(p, s) && Listening(s) && !s.tls && s.armed && !s.uv.closing
    requires s.q.ReadLen() + |bytes| <= READ_BUF_SIZE
    ensures Listening(ReadPlain(p, s, bytes, env))
  {
    assert bytes + [] == bytes;
    StoreKeeps(p, s, bytes, [], s.held);
    var t := Store(Note(s, bytes, s.held), bytes, []);
    if !t.inFlight {
      var (u, v) := Dispatch(p, t, env);
      match v
      case Gone => DispatchGone(p, t, env);
      case NeedMore => DispatchNeedMore(p, t, env);
      case Started => DispatchStarted(p, t, env);
    }
  }

  /** What an answered request leaves is as full as before, or empty. */
  lemma RenewRoom(p: Parser, s: Conn)
    requires Lawful(p) && Accounted(p, s) && s.inFlight && s.keepAlive && !s.tls
    ensures Renew(s).armed == s.armed
    ensures Renew(s).q.buf == [] || Renew(s).q.ReadLen() == s.q.ReadLen()
  {
  }

  lemma NextListens(p: Parser, s: Conn, env: Env)
    requires Lawful(p) && Ready(p, s)
    requires !s.tls ==> s.q.buf == [] || (s.armed <==> s.q.ReadLen() < READ_BUF_SIZE)
    ensures Listening(NextRequest(p, s, env))
  {
    if s.q.buf == [] {
      if s.tls {
        FlowListens(s);
      }
    } else {
      var (t, v) := Dispatch(p, s, env);
      match v
      case Gone => DispatchGone(p, s, env);
      case NeedMore =>
        DispatchNeedMore(p, s, env);
        if s.tls { FlowListens(t); }
      case Started =>
        DispatchStarted(p, s, env);
        if s.tls { FlowListens(t); }
    }
  }

  lemma WroteListens(p: Parser, s: Conn, ok: bool, env: Env)
    requires Lawful(p) && Inv(p, s) && Listening(s) && Enabled(s, Wrote(ok, env))
    ensures Listening(OnWrite(p, s, ok, env))
  {
    var t := UvWritten(s);
    if ok && t.keepAlive {
      RenewKeeps(p, t);
      if !t.tls {
        RenewRoom(p, t);
      }
      NextListens(p, Renew(t), env);
    }
  }

  lemma StepListens(p: Parser, s: Conn, e: Event)
    requires Lawful(p) && Inv(p, s) && Listening(s) && Enabled(s, e)
    ensures Listening(Step(p, s, e))
  {
    match e
    case Read(Data(bytes), env) =>
      CompactKeeps(p, s);
      PlainListens(p, AllocCb(s), bytes, env);
    case Read(Sweep(records, left, good), env) => SweepListens(p, s, records, left, good, env);
    case Wrote(ok, env) => WroteListens(p, s, ok, env);
    case _ =>
  }

  lemma {:induction false} ListensOn(p: Parser, s: Conn, es: seq<Event>)
    requires Lawful(p) && Inv(p, s) && Listening(s) && Possible(p, s, es)
    ensures Listening(Run(p, s, es))
    decreases |es|
  {
    if es != [] {
      StepKeeps(p, s, es[0]);
      StepListens(p, s, es[0]);
      ListensOn(p, Step(p, s, es[0]), es[1..]);
    }
  }

  /** Reading stays armed across a response: in every run, an open connection that is kept
      reads during a response exactly while there is room. */
  lemma ReadsDuringResponse(p: Parser, s: Conn, es: seq<Event>)
    requires Lawful(p) && Initial(s) && Possible(p, s, es)
    ensures Listening(Run(p, s, es))
  {
    InitialInv(p, s);
    ListensOn(p, s, es);
  }
}
