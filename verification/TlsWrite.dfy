/** Cutting a response into TLS records and packing those into blocks. */
module TlsWrite {
  import opened Sequences
  import opened Parsing

  const MAX_PLAIN: nat := 16384        // TLS_MAX_RECORD_PLAINTEXT
  const WBUF_SIZE: nat := MAX_PLAIN + 512
  const WSEG_MAX: nat := 128

  /** Records picotls makes of a run of plaintext; none for an empty one. */
  function RecordCount(len: nat): nat {
    (len + MAX_PLAIN - 1) / MAX_PLAIN
  }

  /** What the server reserves for a run of plaintext. */
  function EncryptedSize(len: nat, overhead: nat): nat {
    len + (len / MAX_PLAIN + 1) * overhead
  }

  lemma RecordCountBounds(len: nat)
    ensures (RecordCount(len) == 0) == (len == 0)
    ensures len > 0 ==> (RecordCount(len) - 1) * MAX_PLAIN < len <= RecordCount(len) * MAX_PLAIN
  {
  }

  /** The reservation never under-counts, and over-counts by exactly one record's framing
      when the run ends on a record boundary. */
  lemma EncryptedSizeCovers(len: nat, overhead: nat)
    ensures len + RecordCount(len) * overhead <= EncryptedSize(len, overhead)
    ensures EncryptedSize(len, overhead) - (len + RecordCount(len) * overhead) ==
            if len % MAX_PLAIN == 0 then overhead else 0
  {
    var q := len / MAX_PLAIN;
    if len % MAX_PLAIN == 0 {
      assert RecordCount(len) == q;
    } else {
      assert RecordCount(len) == q + 1;
    }
  }

  // ---- the cursor over header and body ----

  /** A cursor into the vectors: at a byte, or at the very end. */
  predicate CursorOk(vec: seq<seq<byte>>, veci: nat, vecoff: nat) {
    if veci < |vec| then vecoff < |vec[veci]| else veci == |vec| && vecoff == 0
  }

  /** What is left to send. */
  function Rest(vec: seq<seq<byte>>, veci: nat, vecoff: nat): seq<byte>
    requires CursorOk(vec, veci, vecoff)
  {
    if veci < |vec| then vec[veci][vecoff..] + Concat(vec[veci + 1..]) else []
  }

  predicate NonEmptyParts(vec: seq<seq<byte>>) {
    forall i :: 0 <= i < |vec| ==> vec[i] != []
  }

  lemma RestFromStart(vec: seq<seq<byte>>, veci: nat)
    requires NonEmptyParts(vec) && veci <= |vec|
    ensures CursorOk(vec, veci, 0) && Rest(vec, veci, 0) == Concat(vec[veci..])
  {
  }

  /** Moving the cursor by `take` bytes of its vector drops them from the rest. */
  lemma CursorStep(vec: seq<seq<byte>>, veci: nat, vecoff: nat, take: nat)
    requires NonEmptyParts(vec) && CursorOk(vec, veci, vecoff) && veci < |vec|
    requires 0 < take <= |vec[veci]| - vecoff
    ensures var rest := Rest(vec, veci, vecoff);
            && take <= |rest| && rest[..take] == vec[veci][vecoff..vecoff + take]
            && (if vecoff + take == |vec[veci]|
                then CursorOk(vec, veci + 1, 0) && Rest(vec, veci + 1, 0) == rest[take..]
                else CursorOk(vec, veci, vecoff + take) && Rest(vec, veci, vecoff + take) == rest[take..])
  {
    SplitFront(vec[veci], vecoff, take, Concat(vec[veci + 1..]));
    RestFromStart(vec, veci + 1);
  }

  lemma SplitFront(v: seq<byte>, at: nat, take: nat, tail: seq<byte>)
    requires at + take <= |v|
    ensures take <= |v[at..] + tail|
    ensures (v[at..] + tail)[..take] == v[at..at + take]
    ensures (v[at..] + tail)[take..] == v[at + take..] + tail
    ensures at + take == |v| ==> (v[at..] + tail)[take..] == tail
  {
  }

  lemma CutMoves(out: seq<seq<byte>>, rest: seq<byte>, take: nat)
    requires take <= |rest|
    ensures Concat(out + [rest[..take]]) + rest[take..] == Concat(out) + rest
    ensures |Concat(out + [rest[..take]])| == |Concat(out)| + take
  {
    ConcatOne(out, rest[..take]);
    assert rest == rest[..take] + rest[take..];
  }

  /** `part` is the front of `rest`, and `behind` is what is left of it. */
  predicate Splits(rest: seq<byte>, part: seq<byte>, behind: seq<byte>) {
    |part| <= |rest| && part == rest[..|part|] && behind == rest[|part|..]
  }

  lemma BytesLeft(vec: seq<seq<byte>>, veci: nat, vecoff: nat)
    requires CursorOk(vec, veci, vecoff) && Rest(vec, veci, vecoff) != []
    ensures veci < |vec|
  {
  }

  /** The cursor after `take` bytes of its vector. */
  function Moved(vec: seq<seq<byte>>, veci: nat, vecoff: nat, take: nat): (nat, nat)
    requires veci < |vec|
  {
    if vecoff + take == |vec[veci]| then (veci + 1, 0) else (veci, vecoff + take)
  }

  lemma PartSplits(vec: seq<seq<byte>>, veci: nat, vecoff: nat, take: nat)
    requires NonEmptyParts(vec) && CursorOk(vec, veci, vecoff) && veci < |vec| && 0 < take <= |vec[veci]| - vecoff
    ensures var (i, off) := Moved(vec, veci, vecoff, take);
            && CursorOk(vec, i, off)
            && Splits(Rest(vec, veci, vecoff), vec[veci][vecoff..vecoff + take], Rest(vec, i, off))
  {
    CursorStep(vec, veci, vecoff, take);
    assert |vec[veci][vecoff..vecoff + take]| == take;
  }

  /** The part of the next `want` bytes that lies in the current vector. */
  method SliceOnce(vec: seq<seq<byte>>, veci: nat, vecoff: nat, want: nat)
    returns (veci': nat, vecoff': nat, part: seq<byte>)
    requires NonEmptyParts(vec) && CursorOk(vec, veci, vecoff) && veci < |vec| && want > 0
    ensures CursorOk(vec, veci', vecoff') && 0 < |part| <= want
    ensures Splits(Rest(vec, veci, vecoff), part, Rest(vec, veci', vecoff'))
    ensures veci <= veci' && (|part| < want ==> veci' == veci + 1)
  {
    var avail := |vec[veci]| - vecoff;
    var take := if avail < want then avail else want;
    part := vec[veci][vecoff..vecoff + take];
    PartSplits(vec, veci, vecoff, take);
    veci', vecoff' := veci, vecoff + take;
    if vecoff' == |vec[veci]| {
      veci', vecoff' := veci + 1, 0;
    }
    assert (veci', vecoff') == Moved(vec, veci, vecoff, take);
  }

  /** Cut the next `want` bytes out of the vectors.  The caller has checked that they are
      there. */
  method Slice(vec: seq<seq<byte>>, veci: nat, vecoff: nat, want: nat)
    returns (veci': nat, vecoff': nat, out: seq<seq<byte>>)
    requires NonEmptyParts(vec) && CursorOk(vec, veci, vecoff) && want <= |Rest(vec, veci, vecoff)|
    ensures CursorOk(vec, veci', vecoff')
    ensures Concat(out) == Rest(vec, veci, vecoff)[..want]
    ensures Rest(vec, veci', vecoff') == Rest(vec, veci, vecoff)[want..]
    ensures |out| <= |vec| - veci && NonEmptyParts(out)
  {
    ghost var rest := Rest(vec, veci, vecoff);
    veci', vecoff', out := veci, vecoff, [];
    var left: nat := want;
    while left != 0
      invariant left <= want <= |rest| && CursorOk(vec, veci', vecoff')
      invariant Concat(out) + Rest(vec, veci', vecoff') == rest && |Concat(out)| == want - left
      invariant NonEmptyParts(out) && |out| <= |vec| - veci
      invariant left != 0 ==> |out| == veci' - veci
      decreases left
    {
      ghost var now := Rest(vec, veci', vecoff');
      BytesLeft(vec, veci', vecoff');
      var part;
      veci', vecoff', part := SliceOnce(vec, veci', vecoff', left);
      CutMoves(out, now, |part|);
      out := out + [part];
      left := left - |part|;
    }
  }

  // ---- packing records into blocks ----

  /** `n` blocks with one maximal record each. */
  function FullBlocks(n: nat, overhead: nat): seq<nat> {
    seq(n, _ => MAX_PLAIN + overhead)
  }

  /** Plaintext of the last record of a nonempty response. */
  function LastRecord(total: nat): nat
    requires total > 0
  {
    RecordCountBounds(total);
    total - (RecordCount(total) - 1) * MAX_PLAIN
  }

  /** The closed form of the greedy packing: how full each block of a response ends up. */
  function BlockPlan(total: nat, overhead: nat): seq<nat> {
    if total == 0 then [0] else PlanOf(RecordCount(total), LastRecord(total), overhead)
  }

  /** `n` records, maximal but for the last of `last` bytes. */
  function PlanOf(n: nat, last: nat, overhead: nat): seq<nat>
    requires n > 0
  {
    if n > 1 && MAX_PLAIN + overhead + last + overhead <= WBUF_SIZE
    then FullBlocks(n - 2, overhead) + [MAX_PLAIN + overhead + last + overhead]
    else FullBlocks(n - 1, overhead) + [last + overhead]
  }

  /** Block-chain bound: at picotls's 22 bytes of framing a response of n >= 1 records takes
      n blocks, or n - 1 when n > 1 and its last record is at most 468 bytes; no block
      overflows, and a response on the chained path never claims more than its cap. */
  lemma BlockChainBound(total: nat)
    requires total > 0
    ensures var n := RecordCount(total);
            && |BlockPlan(total, 22)| == (if n > 1 && LastRecord(total) <= 468 then n - 1 else n)
            && (n <= WSEG_MAX ==> |BlockPlan(total, 22)| <= WSEG_MAX)
            && forall i :: 0 <= i < |BlockPlan(total, 22)| ==> 0 < BlockPlan(total, 22)[i] <= WBUF_SIZE
  {
  }

  lemma {:induction false} SumOfFull(n: nat, overhead: nat)
    ensures Sum(FullBlocks(n, overhead)) == n * (MAX_PLAIN + overhead)
  {
    if n > 0 {
      assert FullBlocks(n, overhead)[1..] == FullBlocks(n - 1, overhead);
      SumOfFull(n - 1, overhead);
    }
  }

  lemma SumOfFullThen(n: nat, overhead: nat, last: nat)
    ensures Sum(FullBlocks(n, overhead) + [last]) == n * MAX_PLAIN + n * overhead + last
  {
    SumOne(FullBlocks(n, overhead), last);
    SumOfFull(n, overhead);
    assert n * (MAX_PLAIN + overhead) == n * MAX_PLAIN + n * overhead;
  }

  lemma SumOfPlan(n: nat, last: nat, overhead: nat)
    requires n > 0
    ensures Sum(PlanOf(n, last, overhead)) == (n - 1) * MAX_PLAIN + last + n * overhead
  {
    if n > 1 && MAX_PLAIN + overhead + last + overhead <= WBUF_SIZE {
      SumOfFullThen(n - 2, overhead, MAX_PLAIN + overhead + last + overhead);
      assert n * overhead == (n - 2) * overhead + 2 * overhead;
    } else {
      SumOfFullThen(n - 1, overhead, last + overhead);
      assert n * overhead == (n - 1) * overhead + overhead;
    }
  }

  /** The plan holds the whole ciphertext: every plaintext byte and every record's framing. */
  lemma PlanHoldsCiphertext(total: nat, overhead: nat)
    ensures Sum(BlockPlan(total, overhead)) == total + RecordCount(total) * overhead
  {
    if total == 0 {
      assert Sum([0]) == 0 + Sum([0][1..]);
    } else {
      RecordCountBounds(total);
      SumOfPlan(RecordCount(total), LastRecord(total), overhead);
    }
  }

  /** The blocks after `n` maximal records of a longer response. */
  function Packed(n: nat, overhead: nat): seq<nat> {
    if n == 0 then [0] else FullBlocks(n, overhead)
  }

  predicate AllMaximal(records: seq<seq<byte>>) {
    forall i :: 0 <= i < |records| ==> |records[i]| == MAX_PLAIN
  }

  /** A record goes into the last block, or into a new one if it does not fit there. */
  function Placed(blocks: seq<nat>, chunk: nat, overhead: nat): seq<nat>
    requires blocks != []
  {
    var last := blocks[|blocks| - 1];
    if last + chunk + overhead <= WBUF_SIZE then blocks[..|blocks| - 1] + [last + chunk + overhead]
    else blocks + [chunk + overhead]
  }

  /** The greedy packing is the planned one: a record behind `n` maximal ones goes where the
      closed form has it. */
  lemma PlaceFollowsPlan(n: nat, total: nat, overhead: nat)
    requires 0 < overhead <= 512 && n * MAX_PLAIN < total
    ensures var chunk := Chunk(n * MAX_PLAIN, total);
            var next := Placed(Packed(n, overhead), chunk, overhead);
            && next == (if n * MAX_PLAIN + chunk < total then Packed(n + 1, overhead) else BlockPlan(total, overhead))
            && |next| <= |BlockPlan(total, overhead)|
            && (n * MAX_PLAIN + chunk == total ==> RecordCount(total) == n + 1)
  {
  }

  /** The two vectors of a response, empty ones left out. */
  function Vectors(hdr: seq<byte>, body: seq<byte>): (vec: seq<seq<byte>>)
    ensures NonEmptyParts(vec) && |vec| <= 2 && Concat(vec) == hdr + body
  {
    var b := if body != [] then [body] else [];
    assert Concat(b) == body by { assert [body][1..] == []; }
    assert hdr != [] ==> ([hdr] + b)[1..] == b;
    if hdr != [] then [hdr] + b else b
  }

  /** The records cover `off` bytes of the stream, and `rest` is what is left of it. */
  ghost predicate Cut(stream: seq<byte>, records: seq<seq<byte>>, rest: seq<byte>, off: nat) {
    Concat(records) + rest == stream && |Concat(records)| == off
  }

  /** All records but the last are maximal, and none is empty. */
  predicate Sized(records: seq<seq<byte>>) {
    && (forall i :: 0 <= i < |records| - 1 ==> |records[i]| == MAX_PLAIN)
    && (forall i :: 0 <= i < |records| ==> 0 < |records[i]| <= MAX_PLAIN)
  }

  /** As far as the first `off` bytes go, the records and blocks are those of the plan. */
  predicate OnPlan(records: seq<seq<byte>>, blocks: seq<nat>, off: nat, total: nat, overhead: nat) {
    if off < total
    then off == |records| * MAX_PLAIN && AllMaximal(records) && blocks == Packed(|records|, overhead)
    else off == total && |records| == RecordCount(total) && blocks == BlockPlan(total, overhead)
  }

  /** The next record's size. */
  function Chunk(off: nat, total: nat): (n: nat)
    requires off < total
    ensures 0 < n <= total - off
  {
    if total - off > MAX_PLAIN then MAX_PLAIN else total - off
  }

  lemma PlanStep(records: seq<seq<byte>>, blocks: seq<nat>, record: seq<byte>, off: nat, total: nat, overhead: nat)
    requires 0 < overhead <= 512 && off < total && OnPlan(records, blocks, off, total, overhead) && Sized(records)
    requires |record| == Chunk(off, total)
    ensures var next := Placed(blocks, |record|, overhead);
            OnPlan(records + [record], next, off + |record|, total, overhead) && Sized(records + [record])
  {
    PlaceFollowsPlan(|records|, total, overhead);
  }

  /** There is an open block, and the next record stays within the plan and its cap. */
  lemma PlanInCap(records: seq<seq<byte>>, blocks: seq<nat>, off: nat, total: nat, overhead: nat)
    requires 0 < overhead <= 512 && off < total && OnPlan(records, blocks, off, total, overhead)
    requires RecordCount(total) <= WSEG_MAX
    ensures blocks != [] && |Placed(blocks, Chunk(off, total), overhead)| <= |BlockPlan(total, overhead)| <= WSEG_MAX
    ensures |records| < RecordCount(total)
  {
    RecordCountBounds(total);
    PlaceFollowsPlan(|records|, total, overhead);
  }

  /** Find room for a record: the open block, or a new one.  Fails when a block is needed and
      none can be had; the cap is never what stops it. */
  method Place(blocks: seq<nat>, chunk: nat, overhead: nat, blocksFree: nat) returns (ok: bool, blocks': seq<nat>)
    requires 0 < |blocks| <= blocksFree && |Placed(blocks, chunk, overhead)| <= WSEG_MAX
    ensures ok == (|Placed(blocks, chunk, overhead)| <= blocksFree)
    ensures ok ==> blocks' == Placed(blocks, chunk, overhead)
  {
    // the blocks before the open one, and how full that is
    var shut, fill := blocks[..|blocks| - 1], blocks[|blocks| - 1];
    if fill + chunk + overhead > WBUF_SIZE {
      assert |blocks| != WSEG_MAX;
      if |blocks| == blocksFree {
        return false, blocks;
      }
      shut, fill := blocks, 0;
    }
    return true, shut + [fill + chunk + overhead];
  }

  /** The plaintext ptls_send_v() is handed for one record. */
  method NextRecord(ghost stream: seq<byte>, ghost records: seq<seq<byte>>, ghost off: nat,
                    vec: seq<seq<byte>>, veci: nat, vecoff: nat, chunk: nat)
    returns (veci': nat, vecoff': nat, record: seq<byte>)
    requires NonEmptyParts(vec) && CursorOk(vec, veci, vecoff) && Cut(stream, records, Rest(vec, veci, vecoff), off)
    requires chunk <= |stream| - off
    ensures |record| == chunk && CursorOk(vec, veci', vecoff')
    ensures Cut(stream, records + [record], Rest(vec, veci', vecoff'), off + chunk)
  {
    CutMoves(records, Rest(vec, veci, vecoff), chunk);
    var part;
    veci', vecoff', part := Slice(vec, veci, vecoff, chunk);
    record := Concat(part);
  }

  /** The record loop of tls_write_response_impl() on the chained path: one record per
      ptls_send_v().  Succeeds exactly when the pool and malloc can supply the blocks of the
      plan and none of its sends fails; otherwise what was encrypted is a prefix. */
  method WriteChained(hdr: seq<byte>, body: seq<byte>, overhead: nat, blocksFree: nat, goodSends: nat)
    returns (ok: bool, records: seq<seq<byte>>, blocks: seq<nat>)
    requires 0 < overhead <= 512 && RecordCount(|hdr| + |body|) <= WSEG_MAX
    ensures ok == (|BlockPlan(|hdr| + |body|, overhead)| <= blocksFree && RecordCount(|hdr| + |body|) <= goodSends)
    ensures Concat(records) <= hdr + body && Sized(records)
    ensures ok ==> Concat(records) == hdr + body && |records| == RecordCount(|hdr| + |body|)
    ensures ok ==> blocks == BlockPlan(|hdr| + |body|, overhead)
  {
    var total := |hdr| + |body|;
    ok, records, blocks := blocksFree > 0, [], [0];
    if !ok {
      return;
    }
    var vec := Vectors(hdr, body);
    RestFromStart(vec, 0);
    assert vec[0..] == vec;
    var off, veci, vecoff := 0, 0, 0;
    while off < total
      invariant off <= total && CursorOk(vec, veci, vecoff)
      invariant Cut(hdr + body, records, Rest(vec, veci, vecoff), off)
      invariant OnPlan(records, blocks, off, total, overhead) && Sized(records)
      invariant |blocks| <= blocksFree && |records| <= goodSends
    {
      var chunk := Chunk(off, total);
      PlanInCap(records, blocks, off, total, overhead);
      var next;
      ok, next := Place(blocks, chunk, overhead, blocksFree);
      if !ok {
        return;
      }
      var record;
      veci, vecoff, record := NextRecord(hdr + body, records, off, vec, veci, vecoff, chunk);
      if |records| == goodSends {
        return false, records, blocks;
      }
      PlanStep(records, blocks, record, off, total, overhead);
      records, blocks, off := records + [record], next, off + chunk;
    }
    ok := true;
  }

  /** The whole of it: a response of more records than a chain may have blocks is sent in one
      piece, from a buffer of its own that holds its ciphertext; any other in a chain. */
  method WriteResponse(hdr: seq<byte>, body: seq<byte>, overhead: nat, blocksFree: nat, bigFree: bool, goodSends: nat)
    returns (ok: bool, sends: seq<seq<byte>>, oversized: bool, need: nat)
    requires 0 < overhead <= 512
    ensures oversized <==> RecordCount(|hdr| + |body|) > WSEG_MAX
    ensures Concat(sends) <= hdr + body && (ok ==> Concat(sends) == hdr + body)
    ensures oversized ==>
              && (ok <==> blocksFree > 0 && bigFree && goodSends > 0) && (ok ==> |sends| == 1)
              && |hdr| + |body| + RecordCount(|hdr| + |body|) * overhead <= need <= |hdr| + |body|
                   + (RecordCount(|hdr| + |body|) + 1) * overhead
    ensures !oversized ==>
              && Sized(sends)
              && (ok <==> |BlockPlan(|hdr| + |body|, overhead)| <= blocksFree &&
                            RecordCount(|hdr| + |body|) <= goodSends)
  {
    var total := |hdr| + |body|;
    oversized, need := RecordCount(total) > WSEG_MAX, 0;
    if !oversized {
      var blocks;
      ok, sends, blocks := WriteChained(hdr, body, overhead, blocksFree, goodSends);
      return;
    }
    need := EncryptedSize(total, overhead);
    EncryptedSizeCovers(total, overhead);
    OneFraming(RecordCount(total), overhead);
    sends := [];
    ok := blocksFree > 0 && bigFree && goodSends > 0;
    if ok {
      var vec := Vectors(hdr, body);
      RestFromStart(vec, 0);
      assert vec[0..] == vec;
      var veci, vecoff, part := Slice(vec, 0, 0, total);
      sends := [Concat(part)];
      assert sends[1..] == [];
    }
  }

  lemma OneFraming(n: nat, overhead: nat)
    ensures (n + 1) * overhead == n * overhead + overhead
  {
  }
}
