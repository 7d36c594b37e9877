/** `client_t` and the callbacks of server.c, on the buffers they really work on.
    Every method is proved to do to its fields and arrays what the corresponding step of
    `Connection` does to the connection they stand for. */
module Client {
  import opened Parsing
  import opened TlsSizes
  import opened Decrypt
  import opened Connection
  import opened ConnectionInvariant

  /** memcpy of `src` to a[at..] */
  method CopyIn(a: array<byte>, at: nat, src: seq<byte>)
    requires at + |src| <= a.Length
    modifies a
    ensures forall lo, hi :: 0 <= lo <= hi <= at ==> a[lo..hi] == old(a[lo..hi])
    ensures forall n :: 0 <= n <= |src| ==> a[at..at + n] == src[..n]
  {
    forall i | 0 <= i < |src| {
      a[at + i] := src[i];
    }
  }

  /** memmove of a[from..from + n] to the front */
  method MoveToFront(a: array<byte>, from: nat, n: nat)
    requires from + n <= a.Length
    modifies a
    ensures a[..n] == old(a[from..from + n])
  {
    forall i | 0 <= i < n {
      a[i] := a[from + i];
    }
  }

  class Client {
    const parse: Parser
    const tls: bool
    const readBuf: array<byte>
    var readOff: nat
    var readLen: nat
    var scan: Scan          // last_len, headers_end, content_length
    var keepAlive: bool
    var inFlight: bool
    var readArmed: bool
    var tlsBroken: bool
    var tlsSpill: array?<byte>
    var tlsSpillLen: nat
    var uv: Handle          // handle and write_req
    // history
    ghost var held: nat
    ghost var log: History
    ghost var current: Request
    ghost var answered: bool

    ghost predicate Valid()
      reads this, readBuf, tlsSpill
    {
      && readBuf.Length == READ_BUF_ALLOC
      && readOff <= readLen <= READ_BUF_SIZE
      && (tlsSpill == null <==> tlsSpillLen == 0)
      && (tlsSpill != null ==>
            tlsSpill.Length == TLS_SPILL_SIZE && tlsSpill != readBuf && tlsSpillLen <= TLS_SPILL_SIZE)
    }

    ghost function Spilled(): seq<byte>
      reads this, tlsSpill
      requires tlsSpill != null ==> tlsSpillLen <= tlsSpill.Length
    {
      if tlsSpill == null then [] else tlsSpill[..tlsSpillLen]
    }

    /** The connection these fields and arrays stand for. */
    ghost function State(): Conn
      reads this, readBuf, tlsSpill
      requires Valid()
    {
      Conn(tls, Queue(readOff, readBuf[readOff..readLen], Spilled()), scan,
           keepAlive, inFlight, answered, readArmed, tlsBroken, held, uv, log, current)
    }

    /** libuv aborts on a second uv_close(). */
    method UvClose()
      requires Valid() && !uv.closing
      modifies this`uv
      ensures Valid() && State() == Connection.UvClose(old(State()))
    {
      uv := uv.(closing := true, closes := uv.closes + 1);
    }

    /** A write request in use may not be submitted again. */
    method UvWrite(user: Writer)
      requires Valid() && uv.writer.Idle?
      modifies this`uv
      ensures Valid() && State() == Connection.UvWrite(old(State()), user)
    {
      uv := uv.(writer := user);
    }

    /** tls_wblock is assigned without looking: a chain still there would be lost. */
    method OpenChain()
      requires Valid() && !uv.chained
      modifies this`uv
      ensures Valid() && State() == Connection.OpenChain(old(State()))
    {
      uv := uv.(chained := true);
    }

    /** A write may start: the handle is open, write_req free and tls_wblock empty. */
    predicate Writable()
      reads this
    {
      !uv.closing && uv.writer.Idle? && !uv.chained
    }

    method Compact()
      requires Valid()
      modifies this`readOff, this`readLen, readBuf
      ensures Valid() && State() == Connection.Compact(old(State()))
    {
      if readOff == 0 {
        return;
      }
      ghost var unread := readBuf[readOff..readLen];
      var buffered := readLen - readOff;
      if buffered > 0 {
        MoveToFront(readBuf, readOff, buffered);
      }
      readOff := 0;
      readLen := buffered;
      assert readBuf[readOff..readLen] == unread;
    }

    /** The part of client_reset() that moves the buffer's ends. */
    method AdvanceBuffer(consumed: nat)
      requires Valid()
      modifies this`readOff, this`readLen
      ensures Valid() && State().q == Advance(old(State()).q, consumed)
    {
      ghost var unread := readBuf[readOff..readLen];
      var buffered := readLen - readOff;
      if consumed > 0 && consumed < buffered {
        readOff := readOff + consumed;
        assert readBuf[readOff..readLen] == unread[consumed..];
      } else {
        readOff, readLen := 0, 0;
      }
    }

    method Reset()
      requires Valid()
      modifies this`readOff, this`readLen, this`scan, this`inFlight, this`log
      ensures Valid() && State() == Connection.Reset(old(State()))
    {
      ghost var s := State();
      AdvanceBuffer(scan.headersEnd + scan.contentLength);
      ghost var q := State().q;
      scan := Scan(0, 0, 0);
      inFlight := false;
      log := log.(done := log.done + [current]);
      assert State().q == q == Connection.Reset(s).q;
    }

    method CompactIfFree()
      requires Valid()
      modifies this`readOff, this`readLen, readBuf
      ensures Valid() && State() == Connection.CompactIfFree(old(State()))
    {
      if !inFlight && readOff > 0 {
        Compact();
      }
    }

    /** Returns the length of the buffer handed to libuv. */
    method AllocCb() returns (len: nat)
      requires Valid()
      modifies this`readOff, this`readLen, readBuf
      ensures Valid() && State() == Connection.AllocCb(old(State()))
      ensures len == if tls then TLS_ENC_BUF_SIZE else State().q.Room()
    {
      if tls {
        return TLS_ENC_BUF_SIZE;
      }
      CompactIfFree();
      len := READ_BUF_SIZE - readLen;
    }

    method WriteResponse(keeps: bool, writes: bool)
      requires Valid() && Writable()
      modifies this`keepAlive, this`answered, this`uv
      ensures Valid() && State() == Connection.WriteResponse(old(State()), keeps, writes)
    {
      keepAlive := keepAlive && keeps;
      answered := true;
      if tls {
        OpenChain();
      }
      if tls && !writes {
        UvClose();
      } else {
        UvWrite(Response);
      }
    }

    /** Returns whether closing is now the final write's job. */
    method SendFinal(accepted: bool) returns (sent: bool)
      requires Valid() && Writable()
      modifies this`readArmed, this`uv
      ensures Valid() && sent == accepted && State() == Connection.SendFinal(old(State()), sent)
    {
      if readArmed {
        readArmed := false;
      }
      OpenChain();
      if accepted {
        UvWrite(Final);
      }
      return accepted;
    }

    method Refuse(env: Env)
      requires Valid() && Writable()
      modifies this`readArmed, this`uv
      ensures Valid() && State() == Connection.Refuse(old(State()), env)
    {
      if tls {
        var sent := SendFinal(env.finalSent);
        if !sent {
          UvClose();
        }
      } else {
        UvWrite(Orphan);
        UvClose();
      }
    }

    method HttpDispatch(env: Env) returns (v: Verdict)
      requires Valid() && Lawful(parse) && Ready(parse, State())
      modifies this`scan, this`keepAlive, this`inFlight, this`answered, this`readArmed, this`uv, this`current
      ensures Valid() && (State(), v) == Dispatch(parse, old(State()), env)
    {
      VerdictSound(parse, State());
      var request := readBuf[readOff..readLen];
      var buffered := readLen - readOff;
      match Resume(parse, request, scan.lastLen) {
        case Incomplete =>
          scan := scan.(lastLen := buffered);
          return NeedMore;
        case Bad =>
          Refuse(env);
          return Gone;
        case Ok(h, n, ka) =>
          v := Accept(h, n, ka, env);
      }
    }

    /** The header block is complete; the request may not be. */
    method Accept(h: nat, n: nat, ka: bool, env: Env) returns (v: Verdict)
      requires Valid() && Writable() && h <= readLen - readOff
      modifies this`scan, this`keepAlive, this`inFlight, this`answered, this`uv, this`current
      ensures Valid() && (State(), v) == Connection.Accept(old(State()), h, n, ka, env)
    {
      var request := readBuf[readOff..readLen];
      scan := scan.(headersEnd := h, contentLength := n);
      keepAlive := ka;
      if |request| - h < n {
        return NeedMore;
      }
      StartRequest(Request(request[..h + n], h), env.turn);
      return Started;
    }

    /** Hand the request to the application, which may answer before it returns. */
    method StartRequest(request: Request, turn: AppTurn)
      requires Valid() && Writable()
      modifies this`keepAlive, this`inFlight, this`answered, this`uv, this`current
      ensures Valid() && State() == RunApp(Start(old(State()), request), turn)
    {
      inFlight := true;
      answered := false;
      current := request;
      assert State() == Start(old(State()), request);
      if turn.Now? {
        WriteResponse(turn.keeps, turn.writes);
      }
    }

    method ReadFailed()
      requires Valid() && !uv.closing
      modifies this`tlsBroken, this`keepAlive, this`readArmed, this`uv
      ensures Valid() && State() == Connection.ReadFailed(old(State()))
    {
      tlsBroken := true;
      if inFlight {
        keepAlive := false;
        if readArmed {
          readArmed := false;
        }
        return;
      }
      UvClose();
    }

    method ReadFlow()
      requires Valid()
      modifies this`readOff, this`readLen, this`readArmed, this`uv, readBuf
      ensures Valid() && State() == Connection.ReadFlow(old(State()))
    {
      if uv.closing {
        return;
      }
      CompactIfFree();
      if readLen >= READ_BUF_SIZE && !inFlight {
        if readArmed {
          readArmed := false;
        }
        UvClose();
        return;
      }
      var want := readLen < READ_BUF_SIZE && tlsSpillLen == 0;
      if want == readArmed {
        return;
      }
      readArmed := want;
    }

    /** Returns false when the surplus does not fit or no block can be had. */
    method SpillStash(src: seq<byte>, blockFree: bool) returns (ok: bool)
      requires Valid() && src != []
      modifies this`tlsSpill, this`tlsSpillLen, tlsSpill
      ensures Valid() && (tlsSpill == old(tlsSpill) || (old(tlsSpill) == null && fresh(tlsSpill)))
      ensures var q := old(State()).q;
              ok == (|q.spill| + |src| <= TLS_SPILL_SIZE && (q.spill == [] ==> blockFree))
      ensures State() == if ok then Store(old(State()), [], src) else old(State())
    {
      if tlsSpillLen + |src| > TLS_SPILL_SIZE {
        return false;
      }
      if tlsSpill == null {
        if !blockFree {
          return false;
        }
        tlsSpill := new byte[TLS_SPILL_SIZE];
      }
      ghost var spill := Spilled();
      CopyIn(tlsSpill, tlsSpillLen, src);
      assert tlsSpill[0..tlsSpillLen] == spill;
      assert tlsSpill[tlsSpillLen..tlsSpillLen + |src|] == src[..|src|];
      assert tlsSpill[..tlsSpillLen + |src|] == spill + src;
      tlsSpillLen := tlsSpillLen + |src|;
      ok := true;
    }

    /** Bytes arrive at the end of read_buf. */
    method Append(src: seq<byte>)
      requires Valid() && readLen + |src| <= READ_BUF_SIZE
      modifies this`readLen, readBuf
      ensures Valid() && State() == old(State()).(q := old(State()).q.(buf := old(State()).q.buf + src))
    {
      ghost var unread := readBuf[readOff..readLen];
      CopyIn(readBuf, readLen, src);
      assert readBuf[readOff..readLen] == unread;
      assert readBuf[readLen..readLen + |src|] == src[..|src|];
      readLen := readLen + |src|;
      assert readBuf[readOff..readLen] == unread + src;
    }

    /** The first `take` spilled bytes leave; an empty block goes back to the pool. */
    method SpillDrop(take: nat)
      requires Valid() && take <= tlsSpillLen && 0 < tlsSpillLen
      modifies this`tlsSpill, this`tlsSpillLen, tlsSpill
      ensures Valid() && (tlsSpill == old(tlsSpill) || tlsSpill == null)
      ensures State() == old(State()).(q := old(State()).q.(spill := old(State()).q.spill[take..]))
    {
      ghost var spill := Spilled();
      tlsSpillLen := tlsSpillLen - take;
      if tlsSpillLen > 0 {
        MoveToFront(tlsSpill, take, tlsSpillLen);
      } else {
        tlsSpill := null;
      }
      assert Spilled() == spill[take..];
    }

    method SpillDrain()
      requires Valid()
      modifies this`readOff, this`readLen, this`tlsSpill, this`tlsSpillLen, readBuf, tlsSpill
      ensures Valid() && (tlsSpill == old(tlsSpill) || tlsSpill == null)
      ensures State() == old(State()).(q := Refill(old(State()).q))
    {
      if tlsSpillLen == 0 {
        return;
      }
      if readOff > 0 {
        Compact();
      }
      SpillRefill();
    }

    /** The spill goes into what room there is. */
    method SpillRefill()
      requires Valid() && tlsSpillLen > 0 && readOff == 0
      modifies this`readLen, this`tlsSpill, this`tlsSpillLen, readBuf, tlsSpill
      ensures Valid() && (tlsSpill == old(tlsSpill) || tlsSpill == null)
      ensures State() == old(State()).(q := Refill(old(State()).q))
    {
      var room := READ_BUF_SIZE - readLen;
      if room == 0 {
        ghost var q := State().q;
        assert q.buf + q.spill[..0] == q.buf && q.spill[0..] == q.spill;
        return;
      }
      TopUp(if tlsSpillLen < room then tlsSpillLen else room);
    }

    /** Move `take` spilled bytes into read_buf. */
    method TopUp(take: nat)
      requires Valid() && 0 < tlsSpillLen && take <= tlsSpillLen && readLen + take <= READ_BUF_SIZE
      modifies this`readLen, this`tlsSpill, this`tlsSpillLen, readBuf, tlsSpill
      ensures Valid() && (tlsSpill == old(tlsSpill) || tlsSpill == null)
      ensures var s := old(State());
              State() == s.(q := Queue(s.q.off, s.q.buf + s.q.spill[..take], s.q.spill[take..]))
    {
      ghost var s := State();
      var src := tlsSpill[..take];
      assert src == s.q.spill[..take];
      Append(src);
      assert State().q == Queue(s.q.off, s.q.buf + src, s.q.spill);
      SpillDrop(take);
      assert State().q == Queue(s.q.off, s.q.buf + src, s.q.spill[take..]);
    }

    /** The decrypt buffer after the records `rs`: in read_buf's tail, or picotls's own. */
    ghost predicate Swept(rs: seq<Record>, grown: bool, produced: nat, own: seq<byte>)
      reads this, readBuf
      requires readLen <= readBuf.Length == READ_BUF_ALLOC
    {
      && produced == |Plain(rs)| && grown == Grows(rs, READ_BUF_ALLOC - readLen)
      && if grown then own == Plain(rs)
         else readLen + produced <= READ_BUF_ALLOC && readBuf[readLen..readLen + produced] == Plain(rs)
    }

    method DecryptNext(ghost rs: seq<Record>, rec: Record, was: bool, at: nat, mine: seq<byte>)
      returns (grown: bool, produced: nat, own: seq<byte>)
      requires Valid() && Swept(rs, was, at, mine)
      modifies readBuf
      ensures readBuf[readOff..readLen] == old(readBuf[readOff..readLen])
      ensures Swept(rs + [rec], grown, produced, own)
    {
      PlainAppend(rs, rec);
      GrowsAppend(rs, rec, READ_BUF_ALLOC - readLen);
      grown, own := was, mine;
      if !grown && readLen + at + rec.Reserve() > READ_BUF_ALLOC {
        own := MoveOut(at);
        grown := true;
      }
      if grown {
        own := own + rec.plain;
      } else {
        DecryptRecord(at, rec);
      }
      produced := at + |rec.plain|;
    }

    /** picotls decrypting a sweep at the end of read_buf.  `grown` says it moved to an
        allocation of its own, which then holds the whole sweep. */
    method DecryptSweep(records: seq<Record>) returns (grown: bool, produced: nat, own: seq<byte>)
      requires Valid() && AllValid(records)
      modifies readBuf
      ensures Valid() && State() == old(State()) && Swept(records, grown, produced, own)
      ensures !grown ==> readLen + produced <= READ_BUF_SIZE
    {
      grown, produced, own := false, 0, [];
      ghost var unread := readBuf[readOff..readLen];
      for i := 0 to |records|
        invariant readBuf[readOff..readLen] == unread
        invariant Swept(records[..i], grown, produced, own)
      {
        assert records[..i + 1] == records[..i] + [records[i]];
        grown, produced, own := DecryptNext(records[..i], records[i], grown, produced, own);
      }
      assert records[..|records|] == records;
      if !grown {
        SlackSuffices(records, readLen);
      }
    }

    /** picotls takes the sweep so far with it and scrubs where it was. */
    method MoveOut(n: nat) returns (own: seq<byte>)
      requires Valid() && readLen + n <= READ_BUF_ALLOC
      modifies readBuf
      ensures own == old(readBuf[readLen..readLen + n])
      ensures readBuf[readOff..readLen] == old(readBuf[readOff..readLen])
    {
      own := readBuf[readLen..readLen + n];
      CopyIn(readBuf, readLen, seq(n, _ => 0));
    }

    /** One record in place: its plaintext behind what the sweep has, scratch behind that. */
    method DecryptRecord(at: nat, rec: Record)
      requires Valid() && readLen + at + rec.Reserve() <= READ_BUF_ALLOC
      modifies readBuf
      ensures readBuf[readOff..readLen] == old(readBuf[readOff..readLen])
      ensures readBuf[readLen..readLen + at + |rec.plain|] == old(readBuf[readLen..readLen + at]) + rec.plain
    {
      ghost var end := readLen + at;
      CopyIn(readBuf, readLen + at, rec.plain + rec.tail);
      assert readBuf[end..end + |rec.plain|] == (rec.plain + rec.tail)[..|rec.plain|];
      assert readBuf[readLen..end + |rec.plain|] == readBuf[readLen..end] + readBuf[end..end + |rec.plain|];
    }

    /** Keep a sweep: in place if it was decrypted there, else copied back as far as it
        fits and stashed from there on.  Returns false if the stash failed. */
    method KeepSweep(grown: bool, produced: nat, own: seq<byte>, ghost plain: seq<byte>, ghost left: nat, env: Env)
      returns (stashed: bool)
      requires Valid() && produced == |plain| && tlsSpill == null
      requires if grown then own == plain
               else readLen + produced <= READ_BUF_SIZE && readBuf[readLen..readLen + produced] == plain
      modifies this`readLen, this`tlsSpill, this`tlsSpillLen, this`held, this`log, readBuf
      ensures Valid() && (tlsSpill == null || fresh(tlsSpill))
      ensures var s := old(State());
              var k := Kept(s.q, plain);
              && stashed == (k == |plain| || SpillFits(s.q, |plain| - k, env))
              && State() == Store(Note(s, plain, left), plain[..k], if stashed then plain[k..] else [])
    {
      ghost var s := State();
      ghost var k := Kept(s.q, plain);
      held := left;
      log := log.(received := log.received + plain);
      stashed := true;
      if !grown {
        assert readBuf[readOff..readLen + produced] == s.q.buf + plain;
        readLen := readLen + produced;
        assert plain[..k] == plain && plain[k..] == [];
      } else {
        stashed := KeepOwn(produced, own, env);
      }
    }

    /** The growth fallback: copy back what fits, stash the rest. */
    method KeepOwn(produced: nat, own: seq<byte>, env: Env) returns (stashed: bool)
      requires Valid() && produced == |own| && tlsSpill == null
      modifies this`readLen, this`tlsSpill, this`tlsSpillLen, readBuf
      ensures Valid() && (tlsSpill == null || fresh(tlsSpill))
      ensures var s := old(State());
              var k := Kept(s.q, own);
              && stashed == (k == |own| || SpillFits(s.q, |own| - k, env))
              && State() == Store(s, own[..k], if stashed then own[k..] else [])
    {
      var room := READ_BUF_SIZE - readLen;
      var take := if produced < room then produced else room;
      stashed := true;
      Append(own[..take]);
      if take < produced {
        stashed := SpillStash(own[take..], env.blockFree);
      }
    }

    method AfterSweep(env: Env)
      requires Valid() && Lawful(parse) && (inFlight || Ready(parse, State()))
      modifies this, readBuf
      ensures Valid() && tlsSpill == old(tlsSpill)
      ensures State() == Connection.AfterSweep(parse, old(State()), env)
    {
      if !inFlight {
        var v := HttpDispatch(env);
        if v.Gone? {
          return;
        }
      }
      ReadFlow();
    }

    /** What follows decryption in tls_on_read_data. */
    method Deliver(grown: bool, produced: nat, own: seq<byte>, ghost plain: seq<byte>, ghost left: nat, env: Env)
      requires Valid() && Lawful(parse) && Receptive(parse, State())
      requires |plain| <= TLS_SPILL_SIZE && left < 5 + TLS_MAX_ENC_RECORD
      requires produced == |plain|
      requires if grown then own == plain
               else readLen + produced <= READ_BUF_SIZE && readBuf[readLen..readLen + produced] == plain
      modifies this, readBuf
      ensures Valid() && State() == Connection.Deliver(parse, old(State()), plain, left, env)
      ensures tlsSpill == null || fresh(tlsSpill)
    {
      ghost var s := State();
      if produced == 0 {
        held := left;
        return;
      }
      StoredReady(parse, s, plain, left);
      var stashed := KeepSweep(grown, produced, own, plain, left, env);
      if !stashed {
        ReadFailed();
        return;
      }
      AfterSweep(env);
    }

    /** tls_on_read_data once the handshake is done. */
    method ReadSweep(records: seq<Record>, ghost left: nat, good: bool, env: Env)
      requires Valid() && Lawful(parse) && Receptive(parse, State()) && AllValid(records)
      requires good ==> |Plain(records)| <= TLS_SPILL_SIZE && left < 5 + TLS_MAX_ENC_RECORD
      modifies this, readBuf
      ensures Valid() && State() == Connection.ReadSweep(parse, old(State()), records, left, good, env)
      ensures tlsSpill == null || fresh(tlsSpill)
    {
      ReceptiveCompact(parse, State());
      CompactIfFree();
      DecryptAndDeliver(records, left, good, env);
    }

    method DecryptAndDeliver(records: seq<Record>, ghost left: nat, good: bool, env: Env)
      requires Valid() && Lawful(parse) && Receptive(parse, State()) && AllValid(records)
      requires good ==> |Plain(records)| <= TLS_SPILL_SIZE && left < 5 + TLS_MAX_ENC_RECORD
      modifies this, readBuf
      ensures Valid() && State() == Connection.DecryptAndDeliver(parse, old(State()), records, left, good, env)
      ensures tlsSpill == null || fresh(tlsSpill)
    {
      var grown, produced, own := DecryptSweep(records);
      if !good {
        log := log.(received := log.received + Plain(records));
        ReadFailed();
        return;
      }
      Deliver(grown, produced, own, Plain(records), left, env);
    }

    method AfterPlain(env: Env)
      requires Valid() && Lawful(parse) && (inFlight || Ready(parse, State()))
      modifies this`scan, this`keepAlive, this`inFlight, this`answered, this`readArmed, this`uv, this`current
      ensures Valid() && State() == Connection.AfterPlain(parse, old(State()), env)
    {
      if !inFlight {
        var v := HttpDispatch(env);
        if v.Gone? {
          return;
        }
      }
      if readLen >= READ_BUF_SIZE && inFlight {
        readArmed := false;
      }
    }

    /** on_read on a plaintext connection: libuv has put `bytes` where alloc_cb pointed it. */
    method ReadPlain(bytes: seq<byte>, env: Env)
      requires Valid() && Lawful(parse) && Inv(parse, State()) && !tls && readArmed && !uv.closing
      requires readLen + |bytes| <= READ_BUF_SIZE
      modifies this, readBuf
      ensures Valid() && State() == Connection.ReadPlain(parse, old(State()), bytes, env)
      ensures tlsSpill == old(tlsSpill)
    {
      assert bytes + [] == bytes;
      StoreKeeps(parse, State(), bytes, [], held);
      log := log.(received := log.received + bytes);
      Append(bytes);
      assert Spilled() == Spilled() + [];
      AfterPlain(env);
    }

    method HangUp()
      requires Valid() && !uv.closing
      modifies this`keepAlive, this`readArmed, this`uv
      ensures Valid() && State() == Connection.HangUp(old(State()))
    {
      if inFlight {
        keepAlive := false;
        readArmed := false;
        return;
      }
      UvClose();
    }

    /** One read: alloc_cb, libuv's outcome, on_read. */
    method OnRead(input: Input, env: Env)
      requires Valid() && Lawful(parse) && Inv(parse, State()) && Enabled(State(), Read(input, env))
      modifies this, readBuf, tlsSpill
      ensures Valid() && State() == Step(parse, old(State()), Read(input, env))
      ensures tlsSpill == old(tlsSpill) || tlsSpill == null || fresh(tlsSpill)
    {
      ghost var s := State();
      if input.Data? {
        CompactKeeps(parse, s);
      }
      var len := AllocCb();
      match input {
        case Failed => HangUp();
        case Nothing =>
        case Data(bytes) => ReadPlain(bytes, env);
        case Sweep(records, left, good) =>
          if good {
            SweepBounds(s, records, left, env);
          }
          ReadSweep(records, left, good, env);
      }
    }

    method OnWrite(ok: bool, env: Env)
      requires Valid() && Lawful(parse) && Inv(parse, State()) && Enabled(State(), Wrote(ok, env))
      modifies this, readBuf, tlsSpill
      ensures Valid() && State() == Step(parse, old(State()), Wrote(ok, env))
      ensures tlsSpill == old(tlsSpill) || tlsSpill == null || fresh(tlsSpill)
    {
      uv := uv.(writer := Idle, chained := false);
      if !ok || !keepAlive {
        Finish(ok, env);
        return;
      }
      RenewKeeps(parse, State());
      Renew();
      NextRequest(env);
    }

    /** The close branch of on_write: a close_notify first where one may be sent. */
    method Finish(ok: bool, env: Env)
      requires Valid() && Writable()
      modifies this`readArmed, this`uv
      ensures Valid() && State() == Connection.Finish(old(State()), ok, env)
    {
      if tls && ok && !tlsBroken {
        var sent := SendFinal(env.finalSent);
        if sent {
          return;
        }
      }
      UvClose();
    }

    method Renew()
      requires Valid()
      modifies this`readOff, this`readLen, this`scan, this`inFlight, this`log, this`tlsSpill, this`tlsSpillLen,
               readBuf, tlsSpill
      ensures Valid() && State() == Connection.Renew(old(State()))
      ensures tlsSpill == old(tlsSpill) || tlsSpill == null
    {
      Reset();
      if tls {
        SpillDrain();
      }
    }

    /** The end of on_write: a pipelined request may already be buffered. */
    method NextRequest(env: Env)
      requires Valid() && Lawful(parse) && Ready(parse, State())
      modifies this, readBuf
      ensures Valid() && State() == Connection.NextRequest(parse, old(State()), env)
      ensures tlsSpill == old(tlsSpill)
    {
      if readLen - readOff > 0 {
        var v := HttpDispatch(env);
        if v.Gone? {
          return;
        }
      }
      if tls {
        ReadFlow();
        return;
      }
      if !readArmed && !inFlight {
        readArmed := true;
      }
    }

    method OnFinalWrite()
      requires Valid() && Inv(parse, State()) && Enabled(State(), FinalWrote)
      modifies this`uv
      ensures Valid() && State() == Step(parse, old(State()), FinalWrote)
    {
      uv := uv.(writer := Idle, chained := false);
      UvClose();
    }

    /** The application answers a request it had kept. */
    method OnRespond(keeps: bool, writes: bool)
      requires Valid() && Inv(parse, State()) && Enabled(State(), Respond(keeps, writes))
      modifies this`keepAlive, this`answered, this`uv
      ensures Valid() && State() == Step(parse, old(State()), Respond(keeps, writes))
    {
      WriteResponse(keeps, writes);
    }

    /** One callback, whichever it is. */
    method OnEvent(e: Event)
      requires Valid() && Lawful(parse) && Inv(parse, State()) && Enabled(State(), e)
      modifies this, readBuf, tlsSpill
      ensures Valid() && State() == Step(parse, old(State()), e)
      ensures tlsSpill == old(tlsSpill) || tlsSpill == null || fresh(tlsSpill)
      ensures Inv(parse, State())
    {
      StepKeeps(parse, State(), e);
      match e {
        case Read(input, env) => OnRead(input, env);
        case Respond(keeps, writes) => OnRespond(keeps, writes);
        case Wrote(ok, env) => OnWrite(ok, env);
        case FinalWrote => OnFinalWrite();
      }
    }

    /** client_alloc() and the arming at the end of on_new_connection(). */
    constructor (parse: Parser, tls: bool)
      ensures Valid() && Initial(State()) && State().tls == tls && this.parse == parse
    {
      this.parse, this.tls := parse, tls;
      readBuf := new byte[READ_BUF_ALLOC];
      readOff, readLen := 0, 0;
      scan := Scan(0, 0, 0);
      keepAlive, inFlight, readArmed, tlsBroken := false, false, true, false;
      tlsSpill, tlsSpillLen := null, 0;
      uv := Handle(Idle, false, 0, 0, false, 0);
      held := 0;
      log := History([], []);
      current := Request([], 0);
      answered := false;
    }
  }

  /** Any run, on the real buffers: the callbacks in the order libuv makes them leave the
      client in the state the run predicts, so what `ConnectionRuns` and `CleanRuns` prove
      of runs holds of it. */
  method Drive(c: Client, es: seq<Event>)
    requires c.Valid() && Lawful(c.parse) && Inv(c.parse, c.State()) && Possible(c.parse, c.State(), es)
    modifies c, c.readBuf, c.tlsSpill
    ensures c.Valid() && Inv(c.parse, c.State())
    ensures c.State() == Run(c.parse, old(c.State()), es)
  {
    ghost var s := c.State();
    for i := 0 to |es|
      invariant c.Valid() && Inv(c.parse, c.State())
      invariant c.tlsSpill == null || c.tlsSpill == old(c.tlsSpill) || fresh(c.tlsSpill)
      invariant Possible(c.parse, c.State(), es[i..])
      invariant Run(c.parse, c.State(), es[i..]) == Run(c.parse, s, es)
    {
      assert es[i..][1..] == es[i + 1..];
      c.OnEvent(es[i]);
    }
  }
}
