/** The size constants of the encrypted read path. */
module TlsSizes {
  const READ_BUF_SIZE: nat := 16384
  const TLS_MAX_ENC_RECORD: nat := 16384 + 256
  const TLS_ENC_BUF_SIZE: nat := 5 + TLS_MAX_ENC_RECORD
  const TLS_SPILL_SIZE: nat := TLS_ENC_BUF_SIZE + TLS_MAX_ENC_RECORD
  const TLS_RECORD_OVERHEAD: nat := 22
  const TLS_DECRYPT_SLACK: nat := TLS_RECORD_OVERHEAD
  const READ_BUF_ALLOC: nat := READ_BUF_SIZE + TLS_DECRYPT_SLACK
}

/** What one read's worth of ciphertext does to the buffer it is decrypted into.
    picotls is seen through its receive contract only: it reserves a record's wire
    length, moves to an allocation of its own when that does not fit, decrypts in
    place, and advances by the plaintext. */
module Decrypt {
  import opened Parsing
  import opened TlsSizes

  /** A decrypted record: the application bytes it yields and the bytes its body
      leaves behind them (content type, padding, tag; the whole message when the
      record carries no application data). */
  datatype Record = Record(plain: seq<byte>, tail: seq<byte>) {
    predicate Valid() {
      |tail| >= 1 + 16 && |plain| + |tail| <= TLS_MAX_ENC_RECORD
    }

    /** Wire length, which is also the capacity reserved before decrypting. */
    function Reserve(): nat {
      5 + |plain| + |tail|
    }

    predicate Unpadded() {
      |tail| == 1 + 16
    }
  }

  predicate AllValid(rs: seq<Record>) {
    forall i :: 0 <= i < |rs| ==> rs[i].Valid()
  }

  /** The plaintext of a sweep. */
  function Plain(rs: seq<Record>): seq<byte> {
    if rs == [] then [] else rs[0].plain + Plain(rs[1..])
  }

  /** The wire bytes of a sweep. */
  function Wire(rs: seq<Record>): nat {
    if rs == [] then 0 else rs[0].Reserve() + Wire(rs[1..])
  }

  /** Some reservation of the sweep exceeds the capacity left, so picotls replaces the buffer. */
  predicate Grows(rs: seq<Record>, cap: int) {
    rs != [] && (rs[0].Reserve() > cap || Grows(rs[1..], cap - |rs[0].plain|))
  }

  lemma {:induction false} UngrownFits(rs: seq<Record>, cap: int)
    requires AllValid(rs) && rs != [] && !Grows(rs, cap)
    ensures |Plain(rs)| + TLS_RECORD_OVERHEAD <= cap
  {
    if |rs| == 1 {
      assert rs[1..] == [];
    } else {
      UngrownFits(rs[1..], cap - |rs[0].plain|);
    }
  }

  /** Decrypt slack: however many records a sweep holds, if none of them made picotls
      replace the buffer then the plaintext stays inside read_buf proper. */
  lemma SlackSuffices(rs: seq<Record>, readLen: nat)
    requires AllValid(rs) && readLen <= READ_BUF_SIZE
    requires !Grows(rs, READ_BUF_ALLOC - readLen)
    ensures readLen + |Plain(rs)| <= READ_BUF_SIZE
  {
    if rs != [] {
      UngrownFits(rs, READ_BUF_ALLOC - readLen);
    }
  }

  lemma {:induction false} GrowsOverruns(rs: seq<Record>, cap: int)
    requires forall i :: 0 <= i < |rs| ==> rs[i].Unpadded()
    requires Grows(rs, cap)
    ensures |Plain(rs)| + TLS_RECORD_OVERHEAD > cap
  {
    if rs[0].Reserve() <= cap {
      GrowsOverruns(rs[1..], cap - |rs[0].plain|);
    }
  }

  /** Zero copy is exact: a sweep of unpadded records leaves read_buf if and only if its
      plaintext does not fit there. */
  lemma ZeroCopyExact(rs: seq<Record>, readLen: nat)
    requires AllValid(rs) && readLen <= READ_BUF_SIZE
    requires forall i :: 0 <= i < |rs| ==> rs[i].Unpadded()
    ensures Grows(rs, READ_BUF_ALLOC - readLen) <==> readLen + |Plain(rs)| > READ_BUF_SIZE
  {
    if Grows(rs, READ_BUF_ALLOC - readLen) {
      GrowsOverruns(rs, READ_BUF_ALLOC - readLen);
    } else {
      SlackSuffices(rs, readLen);
    }
  }

  /** Every record costs at least its framing on the wire. */
  lemma {:induction false} FramingCost(rs: seq<Record>)
    requires AllValid(rs)
    ensures |Plain(rs)| + TLS_RECORD_OVERHEAD * |rs| <= Wire(rs)
  {
    if rs != [] {
      FramingCost(rs[1..]);
    }
  }

  /** Spill bound: fresh ciphertext on top of one held partial record decrypts to no more
      than a spill block holds. */
  lemma SweepFitsSpill(rs: seq<Record>, arrived: nat, held: nat, left: nat)
    requires AllValid(rs)
    requires arrived <= TLS_ENC_BUF_SIZE && held < 5 + TLS_MAX_ENC_RECORD
    requires Wire(rs) + left == arrived + held
    ensures |Plain(rs)| <= TLS_SPILL_SIZE
  {
    FramingCost(rs);
  }

  lemma {:induction false} PlainAppend(rs: seq<Record>, r: Record)
    ensures Plain(rs + [r]) == Plain(rs) + r.plain
  {
    if rs == [] {
      assert rs + [r] == [r];
      assert [r][1..] == [];
    } else {
      assert (rs + [r])[1..] == rs[1..] + [r];
      PlainAppend(rs[1..], r);
    }
  }

  lemma {:induction false} GrowsAppend(rs: seq<Record>, r: Record, cap: int)
    ensures Grows(rs + [r], cap) <==> Grows(rs, cap) || |Plain(rs)| + r.Reserve() > cap
  {
    if rs == [] {
      assert rs + [r] == [r];
      assert [r][1..] == [];
    } else {
      assert (rs + [r])[1..] == rs[1..] + [r];
      GrowsAppend(rs[1..], r, cap - |rs[0].plain|);
    }
  }
}
