/** The invariant of a connection, and its preservation by every callback. */
module ConnectionInvariant {
  import opened Parsing
  import opened TlsSizes
  import opened Decrypt
  import opened Connection

  /** The request being answered is still, byte for byte, at the front of the buffer, and the
      connection is not kept open against its will. */
  ghost predicate Serving(p: Parser, s: Conn) {
    && Complete(p, s.q.buf)
    && First(p, s.q.buf) == s.current
    && p(s.q.buf, 0).headersEnd == s.scan.headersEnd
    && p(s.q.buf, 0).contentLength == s.scan.contentLength
    && (s.keepAlive ==> p(s.q.buf, 0).keepAlive)
  }

  /** Where the received bytes are, and what has been made of them. */
  ghost predicate Accounted(p: Parser, s: Conn) {
    && AllFramed(p, s.log.done) && AllKeepOpen(p, s.log.done)
    && Flat(s.log.done) + s.q.buf + s.q.spill <= s.log.received
    && (!s.broken ==> Flat(s.log.done) + s.q.buf + s.q.spill == s.log.received)
    && s.scan.lastLen <= |s.q.buf|
    && (if s.inFlight then Serving(p, s) else !p(s.q.buf[..s.scan.lastLen], 0).Ok?)
  }

  predicate Bounded(s: Conn) {
    && s.q.ReadLen() <= READ_BUF_SIZE
    && |s.q.spill| <= TLS_SPILL_SIZE
    && s.held < 5 + TLS_MAX_ENC_RECORD
    && (!s.tls ==> s.q.spill == [] && !s.broken)
    && (s.q.spill != [] ==> s.q.ReadLen() == READ_BUF_SIZE)
    && s.uv.closes == (if s.uv.closing then 1 else 0)
    && s.uv.clashes == 0 && s.uv.leaks == 0
    && (s.uv.chained && !s.uv.closing ==> !s.uv.writer.Idle?)
  }

  /** An answer that is still owed finds the handle open and write_req free; one that was
      given is being written, unless the handle is closing. */
  predicate Owed(s: Conn) {
    s.inFlight ==>
      if s.answered then s.uv.closing || !s.uv.writer.Idle? else s.uv.writer.Idle? && !s.uv.closing
  }

  /** Who may be reading, writing and closing. */
  predicate Flowing(s: Conn) {
    && (s.uv.closing ==> s.uv.writer.Idle? || s.uv.writer.Orphan?)
    && (s.uv.writer.Orphan? ==> s.uv.closing)
    && (s.uv.writer.Response? ==> s.inFlight)
    && Owed(s)
    && (s.uv.writer.Final? ==> s.tls && !s.armed && !s.broken)
    && (s.armed && !s.uv.closing && s.inFlight ==> s.q.ReadLen() < READ_BUF_SIZE)
    && (s.armed && !s.uv.closing && s.tls ==> s.q.ReadLen() < READ_BUF_SIZE && s.q.spill == [])
    && (!s.uv.closing && !s.inFlight && s.uv.writer.Idle? ==> s.armed)
    && (s.broken && !s.uv.closing ==> s.inFlight && !s.keepAlive && !s.armed)
  }

  ghost predicate Inv(p: Parser, s: Conn) {
    Accounted(p, s) && Bounded(s) && Flowing(s) &&
    (!s.inFlight && !s.uv.closing ==> !Complete(p, s.q.buf))
  }

  lemma InitialInv(p: Parser, s: Conn)
    requires Lawful(p) && Initial(s)
    ensures Inv(p, s)
  {
  }

  /** A connection about to try its buffer for a request. */
  ghost predicate Ready(p: Parser, s: Conn) {
    Accounted(p, s) && Bounded(s) && !s.inFlight && s.uv.writer.Idle? && !s.uv.closing && !s.broken
  }

  /** The parser's verdict, as far as dispatching depends on it. */
  lemma VerdictSound(p: Parser, s: Conn)
    requires Lawful(p) && s.scan.lastLen <= |s.q.buf| && !p(s.q.buf[..s.scan.lastLen], 0).Ok?
    ensures var r := Resume(p, s.q.buf, s.scan.lastLen);
            && (r.Ok? ==> p(s.q.buf, 0) == r && 0 < r.headersEnd <= |s.q.buf|)
            && (!r.Ok? ==> !p(s.q.buf, 0).Ok?)
  {
  }

  lemma DispatchGone(p: Parser, s: Conn, env: Env)
    requires Lawful(p) && Ready(p, s)
    requires Dispatch(p, s, env).1.Gone?
    ensures Inv(p, Dispatch(p, s, env).0)
  {
  }

  lemma DispatchNeedMore(p: Parser, s: Conn, env: Env)
    requires Lawful(p) && Ready(p, s)
    requires Dispatch(p, s, env).1.NeedMore?
    ensures var t := Dispatch(p, s, env).0;
            Ready(p, t) && !Complete(p, t.q.buf) && t.armed == s.armed
  {
    VerdictSound(p, s);
    assert s.q.buf[..|s.q.buf|] == s.q.buf;
  }

  lemma DispatchStarted(p: Parser, s: Conn, env: Env)
    requires Lawful(p) && Ready(p, s)
    requires Dispatch(p, s, env).1.Started?
    ensures var t := Dispatch(p, s, env).0;
            && Accounted(p, t) && Bounded(t) && t.inFlight && !t.broken && t.armed == s.armed
            && (t.uv.writer.Idle? || (t.uv.writer.Response? && !t.uv.closing)) && Owed(t)
  {
  }

  lemma StoreKeeps(p: Parser, s: Conn, x: seq<byte>, y: seq<byte>, left: nat)
    requires Lawful(p) && Accounted(p, s) && s.q.spill == [] && !s.broken
    ensures Accounted(p, Store(Note(s, x + y, left), x, y))
  {
    var t := Store(Note(s, x + y, left), x, y);
    assert Flat(t.log.done) + t.q.buf + t.q.spill == Flat(s.log.done) + s.q.buf + s.q.spill + (x + y);
    if s.inFlight {
      CompleteAppend(p, s.q.buf, x);
    } else {
      assert t.q.buf[..t.scan.lastLen] == s.q.buf[..s.scan.lastLen];
    }
  }

  lemma CompactKeeps(p: Parser, s: Conn)
    requires Inv(p, s) && s.q.spill == [] && !s.uv.closing
    ensures Inv(p, CompactIfFree(s))
  {
  }

  lemma WriteResponseKeeps(p: Parser, s: Conn, keeps: bool, writes: bool)
    requires Inv(p, s) && Enabled(s, Respond(keeps, writes))
    ensures Inv(p, WriteResponse(s, keeps, writes))
  {
  }

  /** The flow decision is right whenever the bytes are in place. */
  lemma ReadFlowKeeps(p: Parser, s: Conn)
    requires Accounted(p, s) && Bounded(s) && s.tls && !s.broken
    requires s.q.spill != [] && !s.inFlight ==> s.q.off == 0
    requires s.inFlight || (s.uv.writer.Idle? && !s.uv.closing && !Complete(p, s.q.buf))
    requires s.uv.writer.Idle? || (s.uv.writer.Response? && !s.uv.closing)
    requires s.uv.closing ==> s.uv.writer.Idle?
    requires Owed(s)
    ensures Inv(p, ReadFlow(s))
  {
  }

  lemma AfterSweepKeeps(p: Parser, s: Conn, env: Env)
    requires Lawful(p) && Accounted(p, s) && Bounded(s) && s.tls && !s.broken && !s.uv.closing
    requires s.inFlight || (s.uv.writer.Idle? && s.q.off == 0)
    requires (s.uv.writer.Idle? || s.uv.writer.Response?) && Owed(s)
    ensures Inv(p, AfterSweep(p, s, env))
  {
    if s.inFlight {
      ReadFlowKeeps(p, s);
    } else {
      var (t, v) := Dispatch(p, s, env);
      match v
      case Gone => DispatchGone(p, s, env);
      case NeedMore => DispatchNeedMore(p, s, env); ReadFlowKeeps(p, t);
      case Started => DispatchStarted(p, s, env); ReadFlowKeeps(p, t);
    }
  }

  lemma ReadFailedKeeps(p: Parser, s: Conn)
    requires Accounted(p, s.(broken := true)) && Bounded(s) && s.tls && !s.uv.closing
    requires (s.uv.writer.Idle? || (s.uv.writer.Response? && s.inFlight)) && Owed(s)
    ensures Inv(p, ReadFailed(s))
  {
  }

  /** A sweep loses its surplus when no spill block can be had. */
  lemma LossKeeps(p: Parser, s: Conn, x: seq<byte>, y: seq<byte>, left: nat)
    requires Lawful(p) && Accounted(p, s) && s.q.spill == [] && !s.broken
    ensures Accounted(p, Store(Note(s, x + y, left), x, []).(broken := true))
  {
    StoreKeeps(p, s, x, y, left);
    var t := Store(Note(s, x + y, left), x, y);
    assert t.q.spill == y;
    var u := Store(Note(s, x + y, left), x, []);
    assert Flat(u.log.done) + u.q.buf + u.q.spill <= Flat(t.log.done) + t.q.buf + t.q.spill;
  }

  /** A failed sweep loses what it had decrypted. */
  lemma NoteLost(p: Parser, s: Conn, plain: seq<byte>)
    requires Accounted(p, s)
    ensures Accounted(p, Note(s, plain, s.held).(broken := true))
  {
  }

  /** In place, copied back or spilled, a sweep stays within its bounds. */
  lemma StoreBounded(s: Conn, plain: seq<byte>, left: nat)
    requires Bounded(s) && s.tls && s.q.spill == [] && |plain| <= TLS_SPILL_SIZE && left < 5 + TLS_MAX_ENC_RECORD
    ensures var k := Kept(s.q, plain);
            && Bounded(Store(Note(s, plain, left), plain[..k], plain[k..]))
            && Bounded(Store(Note(s, plain, left), plain[..k], []))
  {
  }

  lemma DeliverKeeps(p: Parser, s: Conn, plain: seq<byte>, left: nat, env: Env)
    requires Lawful(p) && Inv(p, s) && s.tls && s.armed && !s.uv.closing
    requires !s.inFlight ==> s.q.off == 0
    requires |plain| <= TLS_SPILL_SIZE && left < 5 + TLS_MAX_ENC_RECORD
    ensures Inv(p, Deliver(p, s, plain, left, env))
  {
    var k := Kept(s.q, plain);
    var x, y := plain[..k], plain[k..];
    assert plain == x + y;
    StoreBounded(s, plain, left);
    if plain == [] {
    } else if k < |plain| && !SpillFits(s.q, |plain| - k, env) {
      LossKeeps(p, s, x, y, left);
      ReadFailedKeeps(p, Store(Note(s, plain, left), x, []));
    } else {
      StoreKeeps(p, s, x, y, left);
      AfterSweepKeeps(p, Store(Note(s, plain, left), x, y), env);
    }
  }

  /** The two bounds of a sweep: in place it stays inside read_buf, and altogether it
      fits the spill. */
  lemma SweepBounds(s: Conn, records: seq<Record>, left: nat, env: Env)
    requires Bounded(s) && Enabled(s, Read(Sweep(records, left, true), env))
    ensures |Plain(records)| <= TLS_SPILL_SIZE
    ensures !Grows(records, READ_BUF_ALLOC - s.q.ReadLen()) ==> |Plain(records)| <= s.q.Room()
  {
    SweepFitsSpill(records, Wire(records) + left - s.held, s.held, left);
    if !Grows(records, READ_BUF_ALLOC - s.q.ReadLen()) {
      SlackSuffices(records, s.q.ReadLen());
    }
  }

  /** A TLS connection libuv may hand ciphertext to. */
  ghost predicate Receptive(p: Parser, s: Conn) {
    && Accounted(p, s) && Bounded(s) && s.tls && s.q.spill == []
    && !s.uv.closing && !s.broken && (s.inFlight || s.uv.writer.Idle?)
  }

  /** A sweep put where it belongs leaves a connection that may try its buffer. */
  lemma StoredReady(p: Parser, s: Conn, plain: seq<byte>, left: nat)
    requires Lawful(p) && Receptive(p, s) && |plain| <= TLS_SPILL_SIZE && left < 5 + TLS_MAX_ENC_RECORD
    ensures var k := Kept(s.q, plain);
            var t := Store(Note(s, plain, left), plain[..k], plain[k..]);
            t.inFlight || Ready(p, t)
  {
    var k := Kept(s.q, plain);
    assert plain == plain[..k] + plain[k..];
    StoreKeeps(p, s, plain[..k], plain[k..], left);
  }

  lemma ReceptiveCompact(p: Parser, s: Conn)
    requires Receptive(p, s)
    ensures Receptive(p, CompactIfFree(s))
  {
  }

  /** A sweep that decrypts is delivered: the in-place guard does not fire. */
  lemma SweepDelivers(p: Parser, s: Conn, records: seq<Record>, left: nat, env: Env)
    requires Inv(p, s) && Enabled(s, Read(Sweep(records, left, true), env))
    ensures |Plain(records)| <= TLS_SPILL_SIZE && left < 5 + TLS_MAX_ENC_RECORD
    ensures ReadSweep(p, s, records, left, true, env) == Deliver(p, CompactIfFree(s), Plain(records), left, env)
  {
    SweepBounds(CompactIfFree(s), records, left, env);
  }

  lemma ReadSweepKeeps(p: Parser, s: Conn, records: seq<Record>, left: nat, good: bool, env: Env)
    requires Lawful(p) && Inv(p, s) && Enabled(s, Read(Sweep(records, left, good), env))
    ensures Inv(p, ReadSweep(p, s, records, left, good, env))
  {
    CompactKeeps(p, s);
    if good {
      SweepDelivers(p, s, records, left, env);
      DeliverKeeps(p, CompactIfFree(s), Plain(records), left, env);
    } else {
      var t := CompactIfFree(s);
      NoteLost(p, t, Plain(records));
      ReadFailedKeeps(p, Note(t, Plain(records), t.held));
    }
  }

  lemma ReadPlainKeeps(p: Parser, s: Conn, bytes: seq<byte>, env: Env)
    requires Lawful(p) && Inv(p, s) && !s.tls && s.armed && !s.uv.closing
    requires s.q.ReadLen() + |bytes| <= READ_BUF_SIZE
    ensures Inv(p, ReadPlain(p, s, bytes, env))
  {
    assert bytes + [] == bytes;
    StoreKeeps(p, s, bytes, [], s.held);
    var t := Store(Note(s, bytes, s.held), bytes, []);
    if !t.inFlight {
      var (u, v) := Dispatch(p, t, env);
      match v
      case Gone => DispatchGone(p, t, env);
      case NeedMore => DispatchNeedMore(p, t, env);
      case Started => DispatchStarted(p, t, env);
    }
  }

  lemma AdvanceDrops(q: Queue, n: nat)
    requires 0 < n <= |q.buf|
    ensures Advance(q, n).buf == q.buf[n..] && Advance(q, n).spill == q.spill
    ensures Advance(q, n).ReadLen() <= q.ReadLen()
  {
  }

  lemma Rejoin(a: seq<byte>, b: seq<byte>, n: nat, c: seq<byte>)
    requires n <= |b|
    ensures (a + b[..n]) + b[n..] + c == a + b + c
  {
    assert b[..n] + b[n..] == b;
    assert (a + b[..n]) + b[n..] == a + b;
  }

  lemma AnsweredBytes(rs: seq<Request>, buf: seq<byte>, n: nat, h: nat, spill: seq<byte>)
    requires n <= |buf|
    ensures Flat(rs + [Request(buf[..n], h)]) + buf[n..] + spill == Flat(rs) + buf + spill
  {
    FlatAppend(rs, Request(buf[..n], h));
    Rejoin(Flat(rs), buf, n, spill);
  }

  /** Stepping over the answered request, on a connection that is kept, moves its bytes, and
      nothing else, to the log. */
  lemma ResetKeeps(p: Parser, s: Conn)
    requires Lawful(p) && Accounted(p, s) && s.inFlight && s.keepAlive
    ensures Accounted(p, Reset(s))
    ensures Reset(s).q.ReadLen() <= s.q.ReadLen() && Reset(s).q.spill == s.q.spill
  {
    var n := FirstLen(p, s.q.buf);
    AdvanceDrops(s.q, n);
    AnsweredBytes(s.log.done, s.q.buf, n, s.scan.headersEnd, s.q.spill);
    FirstIsFramed(p, s.q.buf);
    EmptyIsIncomplete(p);
    var t := Reset(s);
    assert t.q.buf[..0] == [];
    assert AllFramed(p, t.log.done);
  }

  lemma EmptyIsIncomplete(p: Parser)
    requires Lawful(p)
    ensures !p([], 0).Ok?
  {
  }

  lemma MoveAcross(a: seq<byte>, b: seq<byte>, c: seq<byte>, n: nat)
    requires n <= |c|
    ensures a + (b + c[..n]) + c[n..] == a + b + c
  {
    assert c[..n] + c[n..] == c;
    assert a + (b + c[..n]) == (a + b) + c[..n];
    assert ((a + b) + c[..n]) + c[n..] == (a + b) + (c[..n] + c[n..]);
  }

  lemma RefillBytes(q: Queue, done: seq<byte>)
    ensures done + Refill(q).buf + Refill(q).spill == done + q.buf + q.spill
  {
    if q.spill != [] {
      var room := q.(off := 0).Room();
      MoveAcross(done, q.buf, q.spill, if |q.spill| < room then |q.spill| else room);
    }
  }

  /** Draining the spill keeps the byte order, and leaves a rest only behind a full buffer. */
  lemma RefillKeeps(p: Parser, s: Conn)
    requires Lawful(p) && Accounted(p, s) && !s.inFlight && s.scan.lastLen == 0
    requires s.q.ReadLen() <= READ_BUF_SIZE && |s.q.spill| <= TLS_SPILL_SIZE
    ensures var t := s.(q := Refill(s.q));
            && Accounted(p, t) && t.q.ReadLen() <= READ_BUF_SIZE && |t.q.spill| <= TLS_SPILL_SIZE
            && (t.q.spill != [] ==> t.q.ReadLen() == READ_BUF_SIZE && t.q.off == 0)
  {
    var t := s.(q := Refill(s.q));
    RefillBytes(s.q, Flat(s.log.done));
    assert t.q.buf[..0] == s.q.buf[..0];
  }

  lemma NextRequestKeeps(p: Parser, s: Conn, env: Env)
    requires Lawful(p) && Ready(p, s)
    requires s.q.spill != [] ==> s.q.off == 0
    requires !s.tls && s.armed ==> s.q.ReadLen() < READ_BUF_SIZE
    ensures Inv(p, NextRequest(p, s, env))
  {
    if s.q.buf == [] {
      EmptyIsIncomplete(p);
      if s.tls {
        ReadFlowKeeps(p, s);
      }
    } else {
      var (t, v) := Dispatch(p, s, env);
      match v
      case Gone => DispatchGone(p, s, env);
      case NeedMore =>
        DispatchNeedMore(p, s, env);
        if s.tls { ReadFlowKeeps(p, t); }
      case Started =>
        DispatchStarted(p, s, env);
        if s.tls { ReadFlowKeeps(p, t); }
    }
  }

  lemma RenewKeeps(p: Parser, s: Conn)
    requires Lawful(p) && Accounted(p, s) && Bounded(s) && s.inFlight && s.keepAlive
    requires s.uv.writer.Idle? && !s.uv.closing && !s.broken
    requires s.armed ==> s.q.ReadLen() < READ_BUF_SIZE
    ensures var t := Renew(s);
            && Ready(p, t) && (t.q.spill != [] ==> t.q.off == 0)
            && (!t.tls && t.armed ==> t.q.ReadLen() < READ_BUF_SIZE)
  {
    ResetKeeps(p, s);
    if s.tls {
      RefillKeeps(p, Reset(s));
    }
  }

  lemma OnWriteKeeps(p: Parser, s: Conn, ok: bool, env: Env)
    requires Lawful(p) && Inv(p, s) && Enabled(s, Wrote(ok, env))
    ensures Inv(p, OnWrite(p, s, ok, env))
  {
    var t := UvWritten(s);
    if ok && t.keepAlive {
      RenewKeeps(p, t);
      NextRequestKeeps(p, Renew(t), env);
    }
  }

  lemma ReadKeeps(p: Parser, s: Conn, input: Input, env: Env)
    requires Lawful(p) && Inv(p, s) && Enabled(s, Read(input, env))
    ensures Inv(p, Step(p, s, Read(input, env)))
  {
    var t := AllocCb(s);
    if !s.tls {
      CompactKeeps(p, s);
    }
    match input
    case Failed =>
    case Nothing =>
    case Data(bytes) => ReadPlainKeeps(p, t, bytes, env);
    case Sweep(records, left, good) => ReadSweepKeeps(p, s, records, left, good, env);
  }

  /** Every callback libuv may make keeps the invariant. */
  lemma StepKeeps(p: Parser, s: Conn, e: Event)
    requires Lawful(p) && Inv(p, s) && Enabled(s, e)
    ensures Inv(p, Step(p, s, e))
  {
    match e
    case Read(input, env) => ReadKeeps(p, s, input, env);
    case Respond(keeps, writes) => WriteResponseKeeps(p, s, keeps, writes);
    case Wrote(ok, env) => OnWriteKeeps(p, s, ok, env);
    case FinalWrote =>
  }

  lemma {:induction false} RunKeeps(p: Parser, s: Conn, es: seq<Event>)
    requires Lawful(p) && Inv(p, s) && Possible(p, s, es)
    ensures Inv(p, Run(p, s, es))
    decreases |es|
  {
    if es != [] {
      StepKeeps(p, s, es[0]);
      RunKeeps(p, Step(p, s, es[0]), es[1..]);
    }
  }
}
