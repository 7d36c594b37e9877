/** The HTTP request parser as the connection sees it.
    picohttpparser itself is not part of this model: a parser is any function
    that obeys the laws of `Lawful`. */
module Parsing {

  newtype byte = b: int | 0 <= b < 256

  /** The outcome of one parse attempt: more bytes needed, malformed, or a complete
      header block of `headersEnd` bytes announcing a body of `contentLength` bytes. */
  datatype Parse = Incomplete | Bad | Ok(headersEnd: nat, contentLength: nat, keepAlive: bool)

  /** The second argument is the number of bytes already offered to the previous
      attempt (`last_len`), 0 for a first attempt. */
  type Parser = (seq<byte>, nat) -> Parse

  /** An accepted header block is nonempty and lies inside the input. */
  ghost predicate Sound(p: Parser) {
    forall s :: p(s, 0).Ok? ==> 0 < p(s, 0).headersEnd <= |s|
  }

  /** The header block an accepting parse consumed. */
  function HeaderBlock(p: Parser, s: seq<byte>): seq<byte> {
    var r := p(s, 0);
    if r.Ok? && r.headersEnd <= |s| then s[..r.headersEnd] else s
  }

  /** Acceptance depends on the consumed header block only. */
  ghost predicate Local(p: Parser) {
    forall s {:trigger HeaderBlock(p, s)} :: p(s, 0).Ok? ==> p(HeaderBlock(p, s), 0) == p(s, 0)
  }

  /** A verdict survives the arrival of further bytes. */
  ghost predicate Stable(p: Parser) {
    forall s, t {:trigger Extend(s, t), p(s, 0)} :: !p(s, 0).Incomplete? ==> p(Extend(s, t), 0) == p(s, 0)
  }

  /** `t` arrives behind `s`. */
  function Extend(s: seq<byte>, t: seq<byte>): seq<byte> {
    s + t
  }

  /** The resume hint is only a shortcut: it never changes an acceptance, and can at
      most postpone a rejection. */
  ghost predicate HintSafe(p: Parser) {
    forall s, n: nat {:trigger Resume(p, s, n)} :: n <= |s| && !p(s[..n], 0).Ok? ==>
      Resume(p, s, n) == p(s, 0) || (p(s, 0).Bad? && Resume(p, s, n).Incomplete?)
  }

  /** A parse attempt that remembers the previous one stopped at `lastLen`. */
  function Resume(p: Parser, s: seq<byte>, lastLen: nat): Parse {
    p(s, lastLen)
  }

  ghost predicate Lawful(p: Parser) {
    Sound(p) && Local(p) && Stable(p) && HintSafe(p)
  }

  /** One byte of header: 0 is malformed, any other announces a body one shorter than itself. */
  function OneByteHeader(s: seq<byte>, lastLen: nat): Parse {
    if s == [] then Incomplete else if s[0] == 0 then Bad else Ok(1, s[0] as nat - 1, true)
  }

  lemma OneByteLocal()
    ensures Sound(OneByteHeader) && Local(OneByteHeader)
  {
  }

  lemma OneByteStable()
    ensures Stable(OneByteHeader)
  {
    forall s, t | OneByteHeader(s, 0) != Incomplete ensures OneByteHeader(Extend(s, t), 0) == OneByteHeader(s, 0) {
      assert Extend(s, t)[0] == s[0];
    }
  }

  /** The laws admit parsers that accept, reject and wait. */
  lemma LawsAreMet()
    ensures Lawful(OneByteHeader)
  {
    OneByteLocal();
    OneByteStable();
  }

  /** One request: its bytes on the wire and where its body starts. */
  datatype Request = Request(raw: seq<byte>, headersEnd: nat)

  /** `s` starts with a whole request, body included. */
  predicate Complete(p: Parser, s: seq<byte>) {
    var r := p(s, 0);
    r.Ok? && 0 < r.headersEnd && r.headersEnd + r.contentLength <= |s|
  }

  function FirstLen(p: Parser, s: seq<byte>): (n: nat)
    requires Complete(p, s)
    ensures 0 < n <= |s|
  {
    p(s, 0).headersEnd + p(s, 0).contentLength
  }

  function First(p: Parser, s: seq<byte>): Request
    requires Complete(p, s)
  {
    Request(s[..FirstLen(p, s)], p(s, 0).headersEnd)
  }

  /** The reference: every whole request of an unbounded stream, in order. */
  function Requests(p: Parser, s: seq<byte>): seq<Request>
    decreases |s|
  {
    if Complete(p, s) then [First(p, s)] + Requests(p, s[FirstLen(p, s)..]) else []
  }

  /** The wire bytes of a list of requests. */
  function Flat(rs: seq<Request>): seq<byte> {
    if rs == [] then [] else rs[0].raw + Flat(rs[1..])
  }

  /** `r.raw` parses, on its own, as exactly the request `r`. */
  predicate Framed(p: Parser, r: Request) {
    var v := p(r.raw, 0);
    v.Ok? && 0 < v.headersEnd == r.headersEnd && v.headersEnd + v.contentLength == |r.raw|
  }

  predicate AllFramed(p: Parser, rs: seq<Request>) {
    forall i :: 0 <= i < |rs| ==> Framed(p, rs[i])
  }

  lemma FirstIsFramed(p: Parser, s: seq<byte>)
    requires Lawful(p) && Complete(p, s)
    ensures Framed(p, First(p, s))
    ensures p(First(p, s).raw, 0) == p(s, 0)
  {
    var h := p(s, 0).headersEnd;
    var n := FirstLen(p, s);
    assert HeaderBlock(p, s) == s[..h];
    assert s[..n] == Extend(s[..h], s[h..n]);
  }

  /** Appending bytes keeps a whole request whole, and the same. */
  lemma CompleteAppend(p: Parser, s: seq<byte>, t: seq<byte>)
    requires Lawful(p) && Complete(p, s)
    ensures p(s + t, 0) == p(s, 0) && Complete(p, s + t)
    ensures First(p, s + t) == First(p, s)
  {
    assert Extend(s, t) == s + t;
    assert (s + t)[..FirstLen(p, s)] == s[..FirstLen(p, s)];
  }

  lemma {:induction false} FlatAppend(rs: seq<Request>, r: Request)
    ensures Flat(rs + [r]) == Flat(rs) + r.raw
  {
    if rs == [] {
      assert rs + [r] == [r];
      assert [r][1..] == [];
    } else {
      assert (rs + [r])[1..] == rs[1..] + [r];
      FlatAppend(rs[1..], r);
    }
  }

  /** One framed request in front of any stream is read first, and consumed exactly. */
  lemma RequestsOfFramed(p: Parser, r: Request, x: seq<byte>)
    requires Lawful(p) && Framed(p, r)
    ensures Complete(p, r.raw + x) && First(p, r.raw + x) == r
    ensures Requests(p, r.raw + x) == [r] + Requests(p, x)
  {
    CompleteAppend(p, r.raw, x);
    assert r.raw[..|r.raw|] == r.raw;
    assert (r.raw + x)[|r.raw|..] == x;
  }

  /** A framed prefix is read back request by request, whatever follows it. */
  lemma {:induction false} RequestsOfFlat(p: Parser, rs: seq<Request>, x: seq<byte>)
    requires Lawful(p) && AllFramed(p, rs)
    ensures Requests(p, Flat(rs) + x) == rs + Requests(p, x)
  {
    if rs == [] {
      assert Flat(rs) + x == x;
      assert rs + Requests(p, x) == Requests(p, x);
    } else {
      var rest := Flat(rs[1..]) + x;
      assert Flat(rs) + x == rs[0].raw + rest;
      RequestsOfFlat(p, rs[1..], x);
      RequestsOfFramed(p, rs[0], rest);
      Prepend(rs, Requests(p, x));
    }
  }

  lemma Prepend(rs: seq<Request>, more: seq<Request>)
    requires rs != []
    ensures [rs[0]] + (rs[1..] + more) == rs + more
  {
  }

  /** More input can only add requests at the end. */
  lemma {:induction false} RequestsMonotone(p: Parser, s: seq<byte>, t: seq<byte>)
    requires Lawful(p)
    ensures Requests(p, s) <= Requests(p, s + t)
    decreases |s|
  {
    if Complete(p, s) {
      CompleteAppend(p, s, t);
      var n := FirstLen(p, s);
      assert (s + t)[n..] == s[n..] + t;
      RequestsMonotone(p, s[n..], t);
      assert Requests(p, s + t) == [First(p, s)] + Requests(p, s[n..] + t);
    }
  }

  // ---- requests that ask to close ----

  /** A request that leaves the connection open. */
  predicate KeepsOpen(p: Parser, r: Request) {
    p(r.raw, 0).Ok? && p(r.raw, 0).keepAlive
  }

  predicate AllKeepOpen(p: Parser, rs: seq<Request>) {
    forall i :: 0 <= i < |rs| ==> KeepsOpen(p, rs[i])
  }

  /** The requests up to and including the first that asks to close. */
  function UpToClose(p: Parser, rs: seq<Request>): seq<Request> {
    if rs == [] then []
    else if KeepsOpen(p, rs[0]) then [rs[0]] + UpToClose(p, rs[1..])
    else [rs[0]]
  }

  /** The requests of a stream that are to be answered: none behind one that asks to close. */
  function Due(p: Parser, s: seq<byte>): seq<Request> {
    UpToClose(p, Requests(p, s))
  }

  lemma {:induction false} UpToCloseAppend(p: Parser, rs: seq<Request>, more: seq<Request>)
    requires AllKeepOpen(p, rs)
    ensures UpToClose(p, rs + more) == rs + UpToClose(p, more)
  {
    if rs == [] {
      assert rs + more == more && rs + UpToClose(p, more) == UpToClose(p, more);
    } else {
      assert KeepsOpen(p, rs[0]) && (rs + more)[1..] == rs[1..] + more;
      UpToCloseAppend(p, rs[1..], more);
      Prepend(rs, UpToClose(p, more));
    }
  }

  lemma UpToCloseThrough(p: Parser, done: seq<Request>, r: Request, more: seq<Request>)
    requires AllKeepOpen(p, done)
    ensures done + [r] <= UpToClose(p, done + [r] + more)
    ensures !KeepsOpen(p, r) ==> UpToClose(p, done + [r] + more) == done + [r]
  {
    var all := [r] + more;
    assert done + [r] + more == done + all;
    UpToCloseAppend(p, done, all);
    assert [r] <= UpToClose(p, all);
  }

  /** Answering what is due leaves the connection open until one request asks otherwise. */
  lemma {:induction false} OnlyLastCloses(p: Parser, rs: seq<Request>)
    ensures UpToClose(p, rs) <= rs
    ensures forall i :: 0 <= i < |UpToClose(p, rs)| - 1 ==> KeepsOpen(p, UpToClose(p, rs)[i])
    ensures var due := UpToClose(p, rs); due == rs || (due != [] && !KeepsOpen(p, due[|due| - 1]))
  {
    if rs != [] && KeepsOpen(p, rs[0]) {
      OnlyLastCloses(p, rs[1..]);
    }
  }
}
