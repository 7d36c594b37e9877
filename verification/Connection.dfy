/** One connection, as a state machine over libuv's callbacks.
    The state is what `client_t` means rather than how it is laid out: the unread bytes
    as a sequence, the length of the consumed prefix in front of them, and the spill.
    The last group of fields is history: what has been received, dispatched and answered,
    how often uv_close was called and how often write_req was taken while in use.
    Everything the environment decides inside a callback is a parameter of the event. */
module Connection {
  import opened Parsing
  import opened TlsSizes
  import opened Decrypt

  /** Who is using the connection's single write request.  `Orphan` is the plaintext
      400, which is written without a completion callback. */
  datatype Writer = Idle | Response | Final | Orphan

  /** The bytes in hand: `off` is the consumed prefix (read_off), `buf` the unread bytes
      read_buf[read_off..read_len], `spill` the overflow behind them. */
  datatype Queue = Queue(
    off: nat,
    buf: seq<byte>,
    spill: seq<byte>)
  {
    function ReadLen(): nat {
      off + |buf|
    }

    /** Free space behind the unread bytes. */
    function Room(): nat {
      if ReadLen() < READ_BUF_SIZE then READ_BUF_SIZE - ReadLen() else 0
    }
  }

  /** What the last parse left behind. */
  datatype Scan = Scan(lastLen: nat, headersEnd: nat, contentLength: nat)

  /** The libuv handle: the user of write_req, whether uv_close() was called, how often,
      and how often write_req was taken while in use.  `chained`: tls_wblock may hold a chain
      of blocks; `leaks`: how often it was overwritten while it might. */
  datatype Handle = Handle(writer: Writer, closing: bool, closes: nat, clashes: nat, chained: bool, leaks: nat)

  /** What happened so far: the plaintext received and the requests answered. */
  datatype History = History(received: seq<byte>, done: seq<Request>)

  datatype Conn = Conn(
    tls: bool,
    q: Queue,
    scan: Scan,
    keepAlive: bool,
    inFlight: bool,
    answered: bool,   // the request in flight has been answered
    armed: bool,
    broken: bool,     // tls_broken
    held: nat,        // bytes of an unfinished record inside picotls
    uv: Handle,
    log: History,
    current: Request) // the last request dispatched
  {
    /** Every request handed to the application so far, in order. */
    function Dispatched(): seq<Request> {
      if inFlight then log.done + [current] else log.done
    }
  }

  /** What the application does inside the callback that dispatches to it: nothing yet,
      or answer at once.  `writes` is false when a TLS response could not be encrypted
      or a block could not be had. */
  datatype AppTurn = Later | Now(keeps: bool, writes: bool)

  /** `finalSent`: tls_send_final() got its bytes accepted.  `blockFree`: a spill block
      could be had. */
  datatype Env = Env(turn: AppTurn, finalSent: bool, blockFree: bool)

  /** The outcome of one read.  A sweep that is not `good` failed inside picotls, behind the
      records given. */
  datatype Input =
    | Failed
    | Nothing
    | Data(bytes: seq<byte>)
    | Sweep(records: seq<Record>, left: nat, good: bool)

  datatype Event =
    | Read(input: Input, env: Env)
    | Respond(keeps: bool, writes: bool)
    | Wrote(ok: bool, env: Env)
    | FinalWrote

  // ---- libuv, as far as it matters here ----

  function UvClose(s: Conn): Conn {
    s.(uv := s.uv.(closing := true, closes := s.uv.closes + 1))
  }

  /** libuv is done with the write request; both completions release the chain first. */
  function UvWritten(s: Conn): Conn {
    s.(uv := s.uv.(writer := Idle, chained := false))
  }

  /** A TLS write puts its first block into tls_wblock, whatever is there.  One that fails
      may do so before or after; it is taken to have done it. */
  function OpenChain(s: Conn): Conn {
    s.(uv := s.uv.(chained := true, leaks := s.uv.leaks + if s.uv.chained then 1 else 0))
  }

  function UvWrite(s: Conn, user: Writer): Conn {
    s.(uv := s.uv.(writer := user, clashes := s.uv.clashes + if s.uv.writer.Idle? then 0 else 1))
  }

  // ---- the server's own steps ----

  function Compact(s: Conn): Conn {
    s.(q := s.q.(off := 0))
  }

  function CompactIfFree(s: Conn): Conn {
    if !s.inFlight && s.q.off > 0 then Compact(s) else s
  }

  /** client_reset on the buffer: step over the answered request, or start afresh. */
  function Advance(q: Queue, consumed: nat): Queue {
    if 0 < consumed < |q.buf|
    then Queue(q.off + consumed, q.buf[consumed..], q.spill)
    else Queue(0, [], q.spill)
  }

  function Reset(s: Conn): Conn {
    s.(q := Advance(s.q, s.scan.headersEnd + s.scan.contentLength), scan := Scan(0, 0, 0),
       inFlight := false, log := s.log.(done := s.log.done + [s.current]))
  }

  /** alloc_cb on a plaintext connection; on TLS it hands out the ciphertext buffer. */
  function AllocCb(s: Conn): Conn {
    if s.tls then s else CompactIfFree(s)
  }

  function WriteResponse(s: Conn, keeps: bool, writes: bool): Conn {
    var t := s.(keepAlive := s.keepAlive && keeps, answered := true);
    if !s.tls then UvWrite(t, Response)
    else if writes then UvWrite(OpenChain(t), Response)
    else UvClose(OpenChain(t))
  }

  /** `t` differs from `s` at most in its flags, its handle and what a parse leaves behind. */
  predicate SameBytes(s: Conn, t: Conn) {
    t.tls == s.tls && t.q == s.q && t.log == s.log && t.broken == s.broken && t.tls == s.tls && t.held == s.held
  }

  function RunApp(s: Conn, turn: AppTurn): (t: Conn)
    ensures SameBytes(s, t) && t.scan == s.scan && t.current == s.current
    ensures t.inFlight == s.inFlight && t.armed == s.armed
  {
    match turn
    case Later => s
    case Now(keeps, writes) => WriteResponse(s, keeps, writes)
  }

  function SendFinal(s: Conn, sent: bool): Conn {
    var t := OpenChain(s.(armed := false));
    if sent then UvWrite(t, Final) else t
  }

  datatype Verdict = NeedMore | Started | Gone

  function Refuse(s: Conn, env: Env): (t: Conn)
    ensures SameBytes(s, t) && t.inFlight == s.inFlight
  {
    if s.tls then
      var t := SendFinal(s, env.finalSent);
      if env.finalSent then t else UvClose(t)
    else
      UvClose(UvWrite(s, Orphan))
  }

  function Dispatch(p: Parser, s: Conn, env: Env): (r: (Conn, Verdict))
    ensures SameBytes(s, r.0)
  {
    match Resume(p, s.q.buf, s.scan.lastLen)
    case Incomplete => (s.(scan := s.scan.(lastLen := |s.q.buf|)), NeedMore)
    case Bad => (Refuse(s, env), Gone)
    case Ok(h, n, ka) => Accept(s, h, n, ka, env)
  }

  /** The header block is complete; the request may not be. */
  function Accept(s: Conn, h: nat, n: nat, ka: bool, env: Env): (r: (Conn, Verdict))
    ensures SameBytes(s, r.0)
  {
    var t := s.(scan := s.scan.(headersEnd := h, contentLength := n), keepAlive := ka);
    if |s.q.buf| - h < n then (t, NeedMore)
    else (RunApp(Start(t, Request(PrefixOf(s.q.buf, h + n), h)), env.turn), Started)
  }

  function Start(s: Conn, r: Request): Conn {
    s.(inFlight := true, answered := false, current := r)
  }

  function PrefixOf(s: seq<byte>, n: nat): seq<byte> {
    if n <= |s| then s[..n] else s
  }

  function ReadFailed(s: Conn): (t: Conn)
    ensures t.q == s.q && t.log == s.log && t.inFlight == s.inFlight && t.current == s.current && t.tls == s.tls
  {
    if s.inFlight then s.(broken := true, keepAlive := false, armed := false)
    else UvClose(s.(broken := true))
  }

  /** tls_read_flow */
  function ReadFlow(s: Conn): (t: Conn)
    ensures t.log == s.log && t.inFlight == s.inFlight && t.current == s.current
    ensures (s.inFlight ==> t.q == s.q) && t.broken == s.broken && t.tls == s.tls
  {
    if s.uv.closing then s
    else
      var t := CompactIfFree(s);
      if t.q.ReadLen() >= READ_BUF_SIZE && !t.inFlight then UvClose(t.(armed := false))
      else t.(armed := t.q.ReadLen() < READ_BUF_SIZE && t.q.spill == [])
  }

  /** tls_spill_drain */
  function Refill(q: Queue): Queue {
    if q.spill == [] then q
    else
      var t := q.(off := 0);
      var take := if |q.spill| < t.Room() then |q.spill| else t.Room();
      t.(buf := q.buf + q.spill[..take], spill := q.spill[take..])
  }

  /** How much of a sweep's plaintext stays in read_buf. */
  function Kept(q: Queue, plain: seq<byte>): (n: nat)
    ensures n <= |plain|
  {
    if |plain| < q.Room() then |plain| else q.Room()
  }

  /** `x` goes behind the buffered bytes and `y` behind the spilled ones. */
  function Store(s: Conn, x: seq<byte>, y: seq<byte>): Conn {
    s.(q := Queue(s.q.off, s.q.buf + x, s.q.spill + y))
  }

  function Note(s: Conn, plain: seq<byte>, left: nat): Conn {
    s.(log := s.log.(received := s.log.received + plain), held := left)
  }

  /** A sweep's plaintext goes into read_buf as far as it fits there, and the surplus to
      the spill. */
  function Deliver(p: Parser, s: Conn, plain: seq<byte>, left: nat, env: Env): (t: Conn)
    ensures t.log == s.log.(received := s.log.received + plain) && t.tls == s.tls
    ensures s.inFlight ==> t.inFlight && t.q.off == s.q.off && s.q.buf <= t.q.buf && t.current == s.current
  {
    var k := Kept(s.q, plain);
    if plain == [] then s.(held := left)
    else if k < |plain| && !SpillFits(s.q, |plain| - k, env) then
      ReadFailed(Store(Note(s, plain, left), plain[..k], []))
    else
      AfterSweep(p, Store(Note(s, plain, left), plain[..k], plain[k..]), env)
  }

  predicate SpillFits(q: Queue, surplus: nat, env: Env) {
    |q.spill| + surplus <= TLS_SPILL_SIZE && (q.spill == [] ==> env.blockFree)
  }

  /** tls_on_read_data, past the handshake. */
  function ReadSweep(p: Parser, s: Conn, records: seq<Record>, left: nat, good: bool, env: Env): Conn {
    DecryptAndDeliver(p, CompactIfFree(s), records, left, good, env)
  }

  /** When a record fails, what the ones before it decrypted to is received and dropped. */
  function DecryptAndDeliver(p: Parser, s: Conn, records: seq<Record>, left: nat, good: bool, env: Env): Conn {
    var plain := Plain(records);
    if !good || (!Grows(records, READ_BUF_ALLOC - s.q.ReadLen()) && |plain| > s.q.Room()) then
      ReadFailed(Note(s, plain, s.held))
    else Deliver(p, s, plain, left, env)
  }

  function AfterSweep(p: Parser, s: Conn, env: Env): (t: Conn)
    ensures t.log == s.log && t.broken == s.broken && t.tls == s.tls
    ensures s.inFlight ==> t.inFlight && t.q == s.q && t.current == s.current
  {
    if s.inFlight then ReadFlow(s)
    else
      var d := Dispatch(p, s, env);
      if d.1.Gone? then d.0 else ReadFlow(d.0)
  }

  function ReadTail(s: Conn): Conn {
    if s.q.ReadLen() >= READ_BUF_SIZE && s.inFlight then s.(armed := false) else s
  }

  function ReadPlain(p: Parser, s: Conn, bytes: seq<byte>, env: Env): (t: Conn)
    ensures t.log == s.log.(received := s.log.received + bytes) && t.broken == s.broken && t.tls == s.tls
    ensures s.inFlight ==> t.inFlight && t.q.off == s.q.off && s.q.buf <= t.q.buf && t.current == s.current
  {
    AfterPlain(p, Store(Note(s, bytes, s.held), bytes, []), env)
  }

  function AfterPlain(p: Parser, s: Conn, env: Env): (t: Conn)
    ensures t.log == s.log && t.broken == s.broken && t.tls == s.tls
    ensures s.inFlight ==> t.inFlight && t.q == s.q && t.current == s.current
  {
    if s.inFlight then ReadTail(s)
    else
      var d := Dispatch(p, s, env);
      if d.1.Gone? then d.0 else ReadTail(d.0)
  }

  /** EOF, an error, or no room: with a response in flight the close is left to on_write. */
  function HangUp(s: Conn): Conn {
    if s.inFlight then s.(keepAlive := false, armed := false) else UvClose(s)
  }

  function OnRead(p: Parser, s: Conn, input: Input, env: Env): Conn {
    match input
    case Failed => HangUp(s)
    case Nothing => s
    case Data(bytes) => ReadPlain(p, s, bytes, env)
    case Sweep(records, left, good) => ReadSweep(p, s, records, left, good, env)
  }

  /** The end of on_write on a connection that stays open. */
  function Resumed(s: Conn): Conn {
    if s.tls then ReadFlow(s)
    else if !s.armed && !s.inFlight then s.(armed := true)
    else s
  }

  function NextRequest(p: Parser, s: Conn, env: Env): (t: Conn)
    ensures t.log == s.log && t.broken == s.broken && t.tls == s.tls
  {
    if s.q.buf == [] then Resumed(s)
    else
      var d := Dispatch(p, s, env);
      if d.1.Gone? then d.0 else Resumed(d.0)
  }

  /** The answered request is dropped and the spill refills what it leaves. */
  function Renew(s: Conn): Conn {
    var t := Reset(s);
    if t.tls then t.(q := Refill(t.q)) else t
  }

  /** The close branch of on_write: a close_notify first where one may be sent. */
  function Finish(s: Conn, ok: bool, env: Env): (t: Conn)
    ensures SameBytes(s, t)
  {
    if s.tls && ok && !s.broken then
      var t := SendFinal(s, env.finalSent);
      if env.finalSent then t else UvClose(t)
    else UvClose(s)
  }

  function OnWrite(p: Parser, s: Conn, ok: bool, env: Env): Conn {
    var t := UvWritten(s);
    if !ok || !t.keepAlive then Finish(t, ok, env) else NextRequest(p, Renew(t), env)
  }

  function OnFinalWrite(s: Conn): Conn {
    UvClose(UvWritten(s))
  }

  // ---- runs ----

  /** What libuv, picotls and the application may do in a state.  A completion may arrive
      after uv_close(), cancelled; reads may not.  The application answers each request at
      most once, whenever it likes and whatever has become of the connection. */
  predicate Enabled(s: Conn, e: Event) {
    match e
    case Read(input, _) =>
      s.armed && !s.uv.closing &&
      (match input
       case Failed => true
       case Nothing => s.tls || AllocCb(s).q.ReadLen() < READ_BUF_SIZE
       case Data(bytes) => !s.tls && bytes != [] && AllocCb(s).q.ReadLen() + |bytes| <= READ_BUF_SIZE
       case Sweep(records, left, good) =>
         s.tls && AllValid(records) &&
         (good ==> left < 5 + TLS_MAX_ENC_RECORD &&
                   s.held < Wire(records) + left <= s.held + TLS_ENC_BUF_SIZE))
    case Respond(_, _) => s.inFlight && !s.answered
    case Wrote(ok, _) => s.uv.writer.Response? && (s.uv.closing ==> !ok)
    case FinalWrote => s.uv.writer.Final?
  }

  function Step(p: Parser, s: Conn, e: Event): Conn {
    match e
    case Read(input, env) => OnRead(p, AllocCb(s), input, env)
    case Respond(keeps, writes) => WriteResponse(s, keeps, writes)
    case Wrote(ok, env) => OnWrite(p, s, ok, env)
    case FinalWrote => OnFinalWrite(s)
  }

  predicate Possible(p: Parser, s: Conn, es: seq<Event>)
    decreases |es|
  {
    es == [] || (Enabled(s, es[0]) && Possible(p, Step(p, s, es[0]), es[1..]))
  }

  function Run(p: Parser, s: Conn, es: seq<Event>): Conn
    decreases |es|
  {
    if es == [] then s else Run(p, Step(p, s, es[0]), es[1..])
  }

  /** A connection as accepted, TLS handshake over if there is one; picotls may already
      hold part of a record. */
  predicate Initial(s: Conn) {
    && s.q.off == 0 && s.q.buf == [] && s.q.spill == [] && s.scan == Scan(0, 0, 0)
    && !s.inFlight && s.armed && !s.broken && s.uv.writer.Idle? && !s.uv.closing
    && s.held < 5 + TLS_MAX_ENC_RECORD
    && s.log.received == [] && s.log.done == [] && s.uv.closes == 0 && s.uv.clashes == 0
    && !s.uv.chained && s.uv.leaks == 0
  }
}
