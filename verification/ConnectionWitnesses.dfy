/** Runs that show where the promises of a connection end. */
module ConnectionWitnesses {
  import opened Parsing
  import opened TlsSizes
  import opened Decrypt
  import opened Connection
  import opened ConnectionRuns

  function Zeros(n: nat): seq<byte> {
    seq(n, _ => 0)
  }

  /** A TLS connection just past its handshake. */
  const FRESH: Conn := Conn(true, Queue(0, [], []), Scan(0, 0, 0), false, false, false, true, false, 0,
                            Handle(Idle, false, 0, 0, false, 0), History([], []), Request([], 0))

  const CALM: Env := Env(Later, true, true)
  const STARVED: Env := Env(Later, true, false)

  function Unpadded(plain: seq<byte>): Record {
    Record(plain, Zeros(17))
  }

  lemma PlainOne(r: Record)
    ensures Plain([r]) == r.plain && Wire([r]) == r.Reserve()
  {
    assert [r][1..] == [];
  }

  function Arriving(plain: seq<byte>, env: Env): Event {
    Read(Sweep([Unpadded(plain)], 0, true), env)
  }

  /** A request of one byte, and behind it more malformed bytes than read_buf holds. */
  const FLOOD: seq<byte> := [1] + Zeros(16399)

  lemma ArrivingEnabled(s: Conn, plain: seq<byte>, env: Env)
    requires s.tls && s.armed && !s.uv.closing && s.held == 0 && 0 < |plain| <= 16400
    ensures Enabled(s, Arriving(plain, env)) && Plain([Unpadded(plain)]) == plain
    ensures |plain| == 16400 ==> Grows([Unpadded(plain)], READ_BUF_ALLOC - s.q.ReadLen())
  {
    PlainOne(Unpadded(plain));
  }

  // ---- a spill in front of a final write ----

  /** The flood has been read: its first byte is in flight, its end is in the spill. */
  const FLOODED: Conn := FRESH.(
    q := Queue(0, FLOOD[..READ_BUF_SIZE], FLOOD[READ_BUF_SIZE..]), scan := Scan(0, 1, 0), keepAlive := true,
    inFlight := true, armed := false, log := History(FLOOD, []), current := Request([1], 1))

  lemma ReadsFlood()
    ensures Enabled(FRESH, Arriving(FLOOD, CALM))
    ensures Step(OneByteHeader, FRESH, Arriving(FLOOD, CALM)) == FLOODED
  {
    ArrivingEnabled(FRESH, FLOOD, CALM);
    var buf := FLOOD[..READ_BUF_SIZE];
    assert [] + buf == buf && [] + FLOOD[READ_BUF_SIZE..] == FLOOD[READ_BUF_SIZE..] && [] + FLOOD == FLOOD;
    var s := Store(Note(FRESH, FLOOD, 0), buf, FLOOD[READ_BUF_SIZE..]);
    assert s.q == Queue(0, buf, FLOOD[READ_BUF_SIZE..]);
    assert buf[0] == 1 && PrefixOf(buf, 1) == [1];
    assert Deliver(OneByteHeader, FRESH, FLOOD, 0, CALM) == AfterSweep(OneByteHeader, s, CALM);
  }

  lemma AnswersFlood()
    ensures var t := OnWrite(OneByteHeader, WriteResponse(FLOODED, true, true), true, CALM);
            t.q.spill != [] && !t.inFlight && !t.uv.closing && t.uv.writer.Final?
  {
    var u := UvWritten(WriteResponse(FLOODED, true, true));
    var t := Renew(u);
    var q := Reset(u).q;
    assert q.off == 1 && |q.buf| == READ_BUF_SIZE - 1 && |q.spill| == 16;
    assert |t.q.spill| == 15 && t.q.buf[0] == q.buf[0] == FLOOD[1] == 0;
    assert Dispatch(OneByteHeader, t, CALM) == (Refuse(t, CALM), Gone);
  }

  /** A spill need not have a response in flight or a closing handle in front of it: a
      malformed request behind an answered one leaves it before a pending final write. */
  lemma SpillBehindFinalWrite() returns (es: seq<Event>)
    ensures Initial(FRESH) && Possible(OneByteHeader, FRESH, es)
    ensures var t := Run(OneByteHeader, FRESH, es);
            t.q.spill != [] && !t.inFlight && !t.uv.closing && t.uv.writer.Final?
  {
    ReadsFlood();
    AnswersFlood();
    var e1, e2, e3 := Arriving(FLOOD, CALM), Respond(true, true), Wrote(true, CALM);
    es := [e1, e2, e3];
    assert es[1..] == [e2, e3] && [e2, e3][1..] == [e3] && [e3][1..] == [];
    var t2 := Step(OneByteHeader, FLOODED, e2);
    var t3 := Step(OneByteHeader, t2, e3);
    assert Possible(OneByteHeader, t3, []) && Run(OneByteHeader, t3, []) == t3;
    assert Possible(OneByteHeader, t2, [e3]) && Run(OneByteHeader, t2, [e3]) == t3;
    assert Possible(OneByteHeader, FLOODED, [e2, e3]) && Run(OneByteHeader, FLOODED, [e2, e3]) == t3;
  }

  // ---- bytes lost on an open connection ----

  const SERVING: Conn := FRESH.(
    q := Queue(0, [1], []), scan := Scan(0, 1, 0), keepAlive := true,
    inFlight := true, log := History([1], []), current := Request([1], 1))

  lemma ReadsOne()
    ensures Enabled(FRESH, Arriving([1], CALM))
    ensures Step(OneByteHeader, FRESH, Arriving([1], CALM)) == SERVING
  {
    ArrivingEnabled(FRESH, [1], CALM);
    var one: seq<byte> := [1];
    assert [] + one == one && one[..1] == one && one[1..] == [];
    var s := Store(Note(FRESH, one, 0), one, []);
    assert s.q == Queue(0, one, []);
    assert Deliver(OneByteHeader, FRESH, one, 0, CALM) == AfterSweep(OneByteHeader, s, CALM);
  }

  lemma LosesZeros()
    ensures var e := Arriving(Zeros(16400), STARVED);
            && Enabled(SERVING, e) && Loses(SERVING, e)
            && var t := Step(OneByteHeader, SERVING, e); t.inFlight && !t.uv.closing && t.broken
  {
    ArrivingEnabled(SERVING, Zeros(16400), STARVED);
  }

  /** One way to lose bytes: a read overflows read_buf and no spill block can be had.  With a
      response in flight the connection stays open without them. */
  lemma SurplusLost() returns (es: seq<Event>)
    ensures Initial(FRESH) && Possible(OneByteHeader, FRESH, es) && !Lossless(OneByteHeader, FRESH, es)
    ensures var t := Run(OneByteHeader, FRESH, es);
            && t.inFlight && !t.uv.closing
            && Flat(t.log.done) + t.q.buf + t.q.spill != Arrivals(es)
  {
    ReadsOne();
    LosesZeros();
    var e1, e2 := Arriving([1], CALM), Arriving(Zeros(16400), STARVED);
    es := [e1, e2];
    assert es[1..] == [e2] && [e2][1..] == [];
    var t := Step(OneByteHeader, SERVING, e2);
    assert Possible(OneByteHeader, t, []) && Run(OneByteHeader, t, []) == t;
    assert Possible(OneByteHeader, SERVING, [e2]) && Run(OneByteHeader, SERVING, [e2]) == t;
    assert !Lossless(OneByteHeader, SERVING, [e2]);
    LawsAreMet();
    StreamConservation(OneByteHeader, FRESH, es);
  }

  /** A read of two records of which only the first decrypts. */
  const HALF: Event := Read(Sweep([Unpadded([1])], 0, false), CALM)

  lemma LosesFirst()
    ensures Enabled(SERVING, HALF) && Loses(SERVING, HALF)
    ensures var t := Step(OneByteHeader, SERVING, HALF); t.inFlight && !t.uv.closing
  {
    PlainOne(Unpadded([1]));
  }

  /** The other way: a record fails behind one of the same read that had decrypted.  With a
      response in flight the connection stays open, and every spill block is to be had. */
  lemma DecryptedLost() returns (es: seq<Event>)
    ensures Initial(FRESH) && Possible(OneByteHeader, FRESH, es) && !Lossless(OneByteHeader, FRESH, es)
    ensures forall i :: 0 <= i < |es| && es[i].Read? ==> es[i].env.blockFree
    ensures var t := Run(OneByteHeader, FRESH, es);
            && t.inFlight && !t.uv.closing
            && Flat(t.log.done) + t.q.buf + t.q.spill != Arrivals(es)
  {
    ReadsOne();
    LosesFirst();
    var e1, e2 := Arriving([1], CALM), HALF;
    es := [e1, e2];
    assert es[1..] == [e2] && [e2][1..] == [];
    var t := Step(OneByteHeader, SERVING, e2);
    assert Possible(OneByteHeader, t, []) && Run(OneByteHeader, t, []) == t;
    assert Possible(OneByteHeader, SERVING, [e2]) && Run(OneByteHeader, SERVING, [e2]) == t;
    assert !Lossless(OneByteHeader, SERVING, [e2]);
    LawsAreMet();
    StreamConservation(OneByteHeader, FRESH, es);
  }
}
