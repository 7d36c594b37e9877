/** Formatting a response header block into its fixed buffer. */
module Headers {
  import opened Sequences
  import opened Decimal
  import opened HeaderChecks
  import opened HeaderText

  const RESP_HDR_SIZE: nat := 8192

  // ---- what is appended ----

  function Lower(c: char): char {
    if 'A' <= c <= 'Z' then (c as int + 32) as char else c
  }

  function LowerAll(s: string): string {
    seq(|s|, i requires 0 <= i < |s| => Lower(s[i]))
  }

  /** Some field has this name, letter case aside. */
  predicate Has(fields: seq<Field>, name: string) {
    exists i :: 0 <= i < |fields| && LowerAll(fields[i].name) == name
  }

  function FieldPieces(fields: seq<Field>): seq<string> {
    if fields == [] then []
    else [fields[0].name, ": ", fields[0].value, CRLF] + FieldPieces(fields[1..])
  }

  function ConnectionText(keepAlive: bool): string {
    if keepAlive then "Connection: keep-alive\r\n" else "Connection: close\r\n"
  }

  function TailPieces(length: bool, connection: bool, bodyLen: nat, keepAlive: bool): seq<string> {
    (if length then [] else ["Content-Length: ", Digits(bodyLen), CRLF])
    + (if connection then [] else [ConnectionText(keepAlive)]) + [CRLF]
  }

  /** Everything the formatter appends, in order. */
  function Pieces(status: string, fields: seq<Field>, bodyLen: nat, keepAlive: bool): seq<string> {
    ["HTTP/1.1 ", status, CRLF] + FieldPieces(fields)
    + TailPieces(Has(fields, "content-length"), Has(fields, "connection"), bodyLen, keepAlive)
  }

  /** The fields the server adds: those the application left out. */
  function Auto(fields: seq<Field>, bodyLen: nat, keepAlive: bool): seq<Field> {
    (if Has(fields, "content-length") then [] else [Field("Content-Length", Digits(bodyLen))])
    + (if Has(fields, "connection") then [] else [Field("Connection", if keepAlive then "keep-alive" else "close")])
  }

  // ---- appending within bounds ----

  datatype Outcome = Done(text: string) | TooSmall | Undefined

  /** A length kept in a 32-bit int. */
  function Int32(n: nat): int {
    var m := n % 0x1_0000_0000;
    if m >= 0x8000_0000 then m - 0x1_0000_0000 else m
  }

  /** Appending pieces one by one, each with its length kept in an int: a piece that does not
      fit stops it, and one whose length comes out negative is copied with a senseless size. */
  function Emit(text: string, pieces: seq<string>): Outcome
    decreases |pieces|
  {
    if pieces == [] then Done(text)
    else
      var w := Int32(|pieces[0]|);
      if w > RESP_HDR_SIZE - |text| then TooSmall
      else if w < 0 then Undefined
      else Emit(text + pieces[0][..w], pieces[1..])
  }

  lemma EmitOne(text: string, p: string)
    requires 0 <= Int32(|p|) <= RESP_HDR_SIZE - |text|
    ensures Emit(text, [p]) == Done(text + p[..Int32(|p|)])
  {
  }

  /** Going on behind an outcome: only one that is not final goes on. */
  function Then(o: Outcome, pieces: seq<string>): Outcome {
    if o.Done? then Emit(o.text, pieces) else o
  }

  lemma {:induction false} EmitSplit(text: string, a: seq<string>, b: seq<string>)
    ensures Emit(text, a + b) == Then(Emit(text, a), b)
    decreases |a|
  {
    if a == [] {
      assert a + b == b;
    } else {
      assert (a + b)[1..] == a[1..] + b;
      var w := Int32(|a[0]|);
      if 0 <= w <= RESP_HDR_SIZE - |text| {
        EmitSplit(text + a[0][..w], a[1..], b);
      }
    }
  }

  lemma ThenThen(o: Outcome, a: seq<string>, b: seq<string>)
    ensures Then(o, a + b) == Then(Then(o, a), b)
  {
    if o.Done? {
      EmitSplit(o.text, a, b);
    }
  }

  predicate Short(s: string) {
    |s| < 0x8000_0000
  }

  /** What the formatter is meant to do: everything, exactly when it fits. */
  function Ideal(text: string, pieces: seq<string>): Outcome {
    if |text + Concat(pieces)| <= RESP_HDR_SIZE then Done(text + Concat(pieces)) else TooSmall
  }

  lemma {:induction false} ShortIsIdeal(text: string, pieces: seq<string>)
    requires |text| <= RESP_HDR_SIZE && EachShort(pieces)
    ensures Emit(text, pieces) == Ideal(text, pieces)
    decreases |pieces|
  {
    if pieces == [] {
      assert text + Concat(pieces) == text;
    } else {
      var p := pieces[0];
      assert Short(p) && p[..|p|] == p;
      assert text + Concat(pieces) == (text + p) + Concat(pieces[1..]);
      if |p| <= RESP_HDR_SIZE - |text| {
        ShortIsIdeal(text + p, pieces[1..]);
      }
    }
  }

  lemma {:induction false} LongIsTooLong(pieces: seq<string>, i: nat)
    requires i < |pieces|
    ensures |Concat(pieces)| >= |pieces[i]|
    decreases i
  {
    if i > 0 {
      LongIsTooLong(pieces[1..], i - 1);
    }
  }

  function Lengths(pieces: seq<string>): seq<int> {
    seq(|pieces|, i requires 0 <= i < |pieces| => Int32(|pieces[i]|))
  }

  /** The first `k` lengths, as the ints that hold them, are all sound and overrun the buffer. */
  predicate OverrunAt(room: int, lengths: seq<int>, k: int) {
    0 <= k <= |lengths| && (forall i :: 0 <= i < k ==> lengths[i] >= 0) && Sum(lengths[..k]) > room
  }

  /** The truncated lengths overrun the buffer before one of them is negative. */
  predicate Overrun(room: int, lengths: seq<int>) {
    exists k :: 0 <= k <= |lengths| && OverrunAt(room, lengths, k)
  }

  lemma OverrunStep(room: int, lengths: seq<int>, k: int)
    requires lengths != [] && room >= 0
    ensures OverrunAt(room, lengths, k + 1) <==> lengths[0] >= 0 && OverrunAt(room - lengths[0], lengths[1..], k)
    ensures !OverrunAt(room, lengths, 0)
  {
    if 0 <= k < |lengths| {
      var head := lengths[..k + 1];
      assert head[0] == lengths[0] && head[1..] == lengths[1..][..k];
      assert forall i :: 0 < i < k + 1 ==> lengths[i] == lengths[1..][i - 1];
      assert forall i :: 0 <= i < k ==> lengths[1..][i] == lengths[i + 1];
    }
  }

  lemma OverrunUnfolds(room: int, lengths: seq<int>)
    requires lengths != [] && room >= 0
    ensures Overrun(room, lengths) <==>
            lengths[0] > room || (0 <= lengths[0] <= room && Overrun(room - lengths[0], lengths[1..]))
  {
    if k :| OverrunAt(room, lengths, k) {
      OverrunStep(room, lengths, k - 1);
    }
    var less, rest := room - lengths[0], lengths[1..];
    if lengths[0] > room {
      assert OverrunAt(less, rest, 0);
      OverrunStep(room, lengths, 0);
    } else if k :| OverrunAt(less, rest, k) {
      OverrunStep(room, lengths, k);
    }
  }

  lemma {:induction false} OverrunIsTooSmall(text: string, pieces: seq<string>)
    requires |text| <= RESP_HDR_SIZE
    ensures Emit(text, pieces).TooSmall? <==> Overrun(RESP_HDR_SIZE - |text|, Lengths(pieces))
    decreases |pieces|
  {
    if pieces != [] {
      var w := Int32(|pieces[0]|);
      assert Lengths(pieces)[0] == w && Lengths(pieces)[1..] == Lengths(pieces[1..]);
      OverrunUnfolds(RESP_HDR_SIZE - |text|, Lengths(pieces));
      if 0 <= w <= RESP_HDR_SIZE - |text| {
        OverrunIsTooSmall(text + pieces[0][..w], pieces[1..]);
      }
    }
  }

  predicate EachShort(pieces: seq<string>) {
    forall i :: 0 <= i < |pieces| ==> Short(pieces[i])
  }

  lemma LongIsRefused(pieces: seq<string>)
    requires !EachShort(pieces)
    ensures Ideal("", pieces) == TooSmall
  {
    var i :| 0 <= i < |pieces| && !Short(pieces[i]);
    LongIsTooLong(pieces, i);
    assert "" + Concat(pieces) == Concat(pieces);
  }

  /** The formatter does what it is meant to exactly when every piece is shorter than 2 GiB,
      or the truncated lengths overrun the buffer all the same. */
  lemma EmitExact(pieces: seq<string>)
    ensures Emit("", pieces) == Ideal("", pieces) <==>
            EachShort(pieces) || Overrun(RESP_HDR_SIZE, Lengths(pieces))
  {
    OverrunIsTooSmall("", pieces);
    if EachShort(pieces) {
      ShortIsIdeal("", pieces);
    } else {
      LongIsRefused(pieces);
    }
  }

  // ---- the block ----

  lemma Concat3(a: string, b: string, c: string)
    ensures Concat([a, b, c]) == a + b + c
  {
    assert [a, b, c][1..] == [b, c] && [b, c][1..] == [c] && [c][1..] == [];
    assert Concat([c]) == c && Concat([b, c]) == b + c;
  }

  lemma Concat4(a: string, b: string, c: string, d: string)
    ensures Concat([a, b, c, d]) == a + b + c + d
  {
    assert [a, b, c, d][1..] == [b, c, d];
    Concat3(b, c, d);
  }

  lemma {:induction false} FieldPiecesText(fields: seq<Field>, more: seq<Field>)
    ensures Concat(FieldPieces(fields)) + FieldText(more) == FieldText(fields + more)
  {
    if fields == [] {
      assert fields + more == more;
    } else {
      var f, all := fields[0], fields + more;
      assert all[0] == f && all[1..] == fields[1..] + more;
      FieldPiecesText(fields[1..], more);
      ConcatAppend([f.name, ": ", f.value, CRLF], FieldPieces(fields[1..]));
      Concat4(f.name, ": ", f.value, CRLF);
    }
  }

  lemma ConnectionLine(keepAlive: bool)
    ensures FieldText([Field("Connection", if keepAlive then "keep-alive" else "close")]) ==
            ConnectionText(keepAlive) + CRLF
  {
  }

  lemma EndText(connection: bool, keepAlive: bool)
    ensures Concat((if connection then [] else [ConnectionText(keepAlive)]) + [CRLF]) ==
            FieldText(if connection then [] else [Field("Connection", if keepAlive then "keep-alive" else "close")])
  {
    assert [CRLF][1..] == [] && Concat([CRLF]) == CRLF;
    if connection {
      assert [] + [CRLF] == [CRLF];
    } else {
      ConnectionLine(keepAlive);
      assert ([ConnectionText(keepAlive)] + [CRLF])[1..] == [CRLF];
    }
  }

  lemma LengthText(bodyLen: nat, more: seq<Field>)
    ensures FieldText([Field("Content-Length", Digits(bodyLen))] + more) ==
            Concat(["Content-Length: ", Digits(bodyLen), CRLF]) + FieldText(more)
  {
    var f := Field("Content-Length", Digits(bodyLen));
    assert ([f] + more)[1..] == more;
    Concat3("Content-Length: ", Digits(bodyLen), CRLF);
    assert "Content-Length" + ": " == "Content-Length: ";
  }

  lemma TailText(fields: seq<Field>, bodyLen: nat, keepAlive: bool)
    ensures Concat(TailPieces(Has(fields, "content-length"), Has(fields, "connection"), bodyLen, keepAlive)) ==
            FieldText(Auto(fields, bodyLen, keepAlive))
  {
    var length, connection := Has(fields, "content-length"), Has(fields, "connection");
    var conn := if connection then [] else [Field("Connection", if keepAlive then "keep-alive" else "close")];
    var end := (if connection then [] else [ConnectionText(keepAlive)]) + [CRLF];
    EndText(connection, keepAlive);
    if length {
      assert TailPieces(length, connection, bodyLen, keepAlive) == end;
      assert Auto(fields, bodyLen, keepAlive) == conn;
    } else {
      var piece := ["Content-Length: ", Digits(bodyLen), CRLF];
      assert TailPieces(length, connection, bodyLen, keepAlive) == piece + end;
      ConcatAppend(piece, end);
      LengthText(bodyLen, conn);
    }
  }

  /** The pieces make up the block of the application's fields and the added ones. */
  lemma PiecesText(status: string, fields: seq<Field>, bodyLen: nat, keepAlive: bool)
    ensures Concat(Pieces(status, fields, bodyLen, keepAlive)) ==
            Text(status, fields + Auto(fields, bodyLen, keepAlive))
  {
    var tail := TailPieces(Has(fields, "content-length"), Has(fields, "connection"), bodyLen, keepAlive);
    ConcatAppend(["HTTP/1.1 ", status, CRLF] + FieldPieces(fields), tail);
    ConcatAppend(["HTTP/1.1 ", status, CRLF], FieldPieces(fields));
    Concat3("HTTP/1.1 ", status, CRLF);
    TailText(fields, bodyLen, keepAlive);
    FieldPiecesText(fields, Auto(fields, bodyLen, keepAlive));
  }

  lemma AutoOk(fields: seq<Field>, bodyLen: nat, keepAlive: bool)
    ensures forall i :: 0 <= i < |Auto(fields, bodyLen, keepAlive)| ==> FieldOk(Auto(fields, bodyLen, keepAlive)[i])
  {
    DigitsDecode(bodyLen);
    assert forall c: char {:trigger IsDigit(c)} :: IsDigit(c) ==> FieldChar(c);
    assert ValueOk(Digits(bodyLen));
    assert NameOk("Content-Length") && NameOk("Connection") && ValueOk("keep-alive") && ValueOk("close");
  }

  predicate AllShort(status: string, fields: seq<Field>) {
    Short(status) && forall i :: 0 <= i < |fields| ==> Short(fields[i].name) && Short(fields[i].value)
  }

  lemma {:induction false} FieldPiecesShort(fields: seq<Field>)
    requires AllShort("", fields)
    ensures forall i :: 0 <= i < |FieldPieces(fields)| ==> Short(FieldPieces(fields)[i])
  {
    if fields != [] {
      FieldPiecesShort(fields[1..]);
    }
  }

  lemma LengthShort(bodyLen: nat)
    requires bodyLen < 0x8000_0000_0000_0000
    ensures |Digits(bodyLen)| <= 19
  {
    DigitsCount(bodyLen, 19);
    assert Pow10(19) == 10_000_000_000_000_000_000 by {
      assert Pow10(5) == 100_000 && Pow10(10) == 10_000_000_000 && Pow10(15) == 1_000_000_000_000_000;
    }
  }

  lemma PiecesShort(status: string, fields: seq<Field>, bodyLen: nat, keepAlive: bool)
    requires bodyLen < 0x8000_0000_0000_0000
    ensures EachShort(Pieces(status, fields, bodyLen, keepAlive)) <==> AllShort(status, fields)
  {
    var pieces := Pieces(status, fields, bodyLen, keepAlive);
    LengthShort(bodyLen);
    if AllShort(status, fields) {
      FieldPiecesShort(fields);
      var tail := TailPieces(Has(fields, "content-length"), Has(fields, "connection"), bodyLen, keepAlive);
      assert forall i :: 0 <= i < |tail| ==> Short(tail[i]);
    } else if Short(status) {
      var i :| 0 <= i < |fields| && !(Short(fields[i].name) && Short(fields[i].value));
      FieldPiecesAt(fields, i);
      assert pieces[3 + 4 * i] == fields[i].name && pieces[3 + 4 * i + 2] == fields[i].value;
    } else {
      assert pieces[1] == status;
    }
  }

  lemma {:induction false} FieldPiecesAt(fields: seq<Field>, i: nat)
    requires i < |fields|
    ensures 4 * i + 2 < |FieldPieces(fields)|
    ensures FieldPieces(fields)[4 * i] == fields[i].name && FieldPieces(fields)[4 * i + 2] == fields[i].value
    decreases i
  {
    if i > 0 {
      FieldPiecesAt(fields[1..], i - 1);
    }
  }

  /** What formatting a response is meant to give: its block, exactly when that fits. */
  function Intended(status: string, fields: seq<Field>, bodyLen: nat, keepAlive: bool): Outcome {
    var block := Text(status, fields + Auto(fields, bodyLen, keepAlive));
    if |block| <= RESP_HDR_SIZE then Done(block) else TooSmall
  }

  /** No string of the response is 2 GiB or longer, or else the lengths left of them overrun
      the buffer all the same. */
  predicate Formattable(status: string, fields: seq<Field>, bodyLen: nat, keepAlive: bool) {
    AllShort(status, fields) || Overrun(RESP_HDR_SIZE, Lengths(Pieces(status, fields, bodyLen, keepAlive)))
  }

  /** For every response start_response() accepts, formatting gives the block exactly when it
      fits, if and only if the response is formattable; and taking the block apart gives back
      the status, the application's fields in order, and behind them the fields it left out,
      the length decoding to the body's. */
  lemma HeaderRoundTrip(status: string, fields: seq<Field>, bodyLen: nat, keepAlive: bool)
    requires Acceptable(status, fields) && bodyLen < 0x8000_0000_0000_0000
    ensures Emit("", Pieces(status, fields, bodyLen, keepAlive)) == Intended(status, fields, bodyLen, keepAlive) <==>
            Formattable(status, fields, bodyLen, keepAlive)
    ensures var all := fields + Auto(fields, bodyLen, keepAlive);
            && ParseBlock(Text(status, all)) == Some(Response(status, all))
            && Completes(fields, all, bodyLen, keepAlive)
  {
    var all, pieces := fields + Auto(fields, bodyLen, keepAlive), Pieces(status, fields, bodyLen, keepAlive);
    PiecesShort(status, fields, bodyLen, keepAlive);
    EmitExact(pieces);
    PiecesText(status, fields, bodyLen, keepAlive);
    assert "" + Concat(pieces) == Concat(pieces);
    AutoOk(fields, bodyLen, keepAlive);
    BlockRoundTrip(status, all);
    AutoCompletes(fields, bodyLen, keepAlive);
  }

  // ---- a response that is not formattable ----

  /** A piece counts as what its truncated length leaves of it. */
  lemma EmitClips(text: string, p: string, rest: seq<string>)
    requires Int32(|p|) >= 0
    ensures Emit(text, [p] + rest) == Emit(text, [p[..Int32(|p|)]] + rest)
  {
    var q := p[..Int32(|p|)];
    assert ([p] + rest)[1..] == rest && ([q] + rest)[1..] == rest && q[..|q|] == q;
  }

  lemma OneField(status: string, name: string, value: string, bodyLen: nat, keepAlive: bool)
    ensures Pieces(status, [Field(name, value)], bodyLen, keepAlive) ==
            ["HTTP/1.1 ", status, CRLF, name, ": "] + ([value] + ([CRLF] +
              TailPieces(LowerAll(name) == "content-length", LowerAll(name) == "connection", bodyLen, keepAlive)))
  {
    var fields := [Field(name, value)];
    assert fields[1..] == [];
    assert FieldPieces(fields) == [name, ": ", value, CRLF];
    assert forall n :: Has(fields, n) <==> LowerAll(name) == n by {
      assert LowerAll(fields[0].name) == LowerAll(name);
    }
  }

  lemma ValueTruncated(status: string, name: string, value: string, bodyLen: nat, keepAlive: bool)
    requires |value| == 0x1_0000_0000
    ensures Emit("", Pieces(status, [Field(name, value)], bodyLen, keepAlive)) ==
            Emit("", Pieces(status, [Field(name, "")], bodyLen, keepAlive))
  {
    OneField(status, name, value, bodyLen, keepAlive);
    OneField(status, name, "", bodyLen, keepAlive);
    var front := ["HTTP/1.1 ", status, CRLF, name, ": "];
    var back := [CRLF] + TailPieces(LowerAll(name) == "content-length", LowerAll(name) ==
        "connection", bodyLen, keepAlive);
    EmitSplit("", front, [value] + back);
    EmitSplit("", front, [""] + back);
    var o := Emit("", front);
    if o.Done? {
      assert value[..0] == "";
      EmitClips(o.text, value, back);
    }
  }

  lemma FieldTextLength(f: Field, more: seq<Field>)
    ensures |FieldText([f] + more)| == |f.name| + |f.value| + 4 + |FieldText(more)|
  {
    assert ([f] + more)[1..] == more;
  }

  /** The added fields and the empty line take at most 80 bytes. */
  lemma AutoLength(fields: seq<Field>, bodyLen: nat, keepAlive: bool)
    requires bodyLen < 0x8000_0000_0000_0000
    ensures |FieldText(Auto(fields, bodyLen, keepAlive))| <= 80
  {
    LengthShort(bodyLen);
    var length, conn := Field("Content-Length", Digits(bodyLen)),
        Field("Connection", if keepAlive then "keep-alive" else "close");
    assert [length] + [] == [length] && [conn] + [] == [conn] && [] + [conn] == [conn];
    FieldTextLength(conn, []);
    FieldTextLength(length, []);
    FieldTextLength(length, [conn]);
    assert Auto(fields, bodyLen, keepAlive) ==
           (if Has(fields, "content-length") then [] else [length]) +
               (if Has(fields, "connection") then [] else [conn]);
  }

  /** A value of 4 GiB is formatted as an empty one: an acceptable response with such a value
      is sent without it instead of being refused. */
  lemma LongValueVanishes(status: string, name: string, value: string, bodyLen: nat, keepAlive: bool)
    requires Acceptable(status, [Field(name, value)]) && |value| == 0x1_0000_0000
    requires |status| + |name| <= 8000 && bodyLen < 0x8000_0000_0000_0000
    ensures var lost := [Field(name, "")];
            && Emit("", Pieces(status, [Field(name, value)], bodyLen, keepAlive)) ==
               Done(Text(status, lost + Auto(lost, bodyLen, keepAlive)))
            && Intended(status, [Field(name, value)], bodyLen, keepAlive) == TooSmall
            && !Formattable(status, [Field(name, value)], bodyLen, keepAlive)
  {
    ValueTruncated(status, name, value, bodyLen, keepAlive);
    ShortValueFits(status, name, bodyLen, keepAlive);
    HeaderRoundTrip(status, [Field(name, value)], bodyLen, keepAlive);
    FieldTextLength(Field(name, value), Auto([Field(name, value)], bodyLen, keepAlive));
  }

  lemma ShortValueFits(status: string, name: string, bodyLen: nat, keepAlive: bool)
    requires StatusOk(status) && NameOk(name) && |status| + |name| <= 8000 && bodyLen < 0x8000_0000_0000_0000
    ensures var fields := [Field(name, "")];
            Emit("", Pieces(status, fields, bodyLen, keepAlive)) ==
                Done(Text(status, fields + Auto(fields, bodyLen, keepAlive)))
  {
    var fields := [Field(name, "")];
    AutoLength(fields, bodyLen, keepAlive);
    FieldTextLength(fields[0], Auto(fields, bodyLen, keepAlive));
    HeaderRoundTrip(status, fields, bodyLen, keepAlive);
    assert AllShort(status, fields);
  }

  /** A decimal number without a leading zero that decodes to `n`. */
  predicate Denotes(s: string, n: nat) {
    && s != "" && (forall i :: 0 <= i < |s| ==> IsDigit(s[i])) && Value(s) == n && (n > 0 ==> s[0] != '0')
  }

  /** The application's fields, then a Content-Length that is the body's exactly if they have
      none, then a Connection that says what the server does exactly if they have none. */
  predicate Completes(fields: seq<Field>, all: seq<Field>, bodyLen: nat, keepAlive: bool) {
    var length, connection := !Has(fields, "content-length"), !Has(fields, "connection");
    && |all| == |fields| + (if length then 1 else 0) + (if connection then 1 else 0) && fields <= all
    && (length ==> all[|fields|].name == "Content-Length" && Denotes(all[|fields|].value, bodyLen))
    && (connection ==> all[|all| - 1] == Field("Connection", if keepAlive then "keep-alive" else "close"))
  }

  lemma AutoCompletes(fields: seq<Field>, bodyLen: nat, keepAlive: bool)
    ensures Completes(fields, fields + Auto(fields, bodyLen, keepAlive), bodyLen, keepAlive)
  {
    DigitsDecode(bodyLen);
  }

  /** So every block has one of each. */
  lemma CompletesHas(fields: seq<Field>, all: seq<Field>, bodyLen: nat, keepAlive: bool)
    requires Completes(fields, all, bodyLen, keepAlive)
    ensures Has(all, "content-length") && Has(all, "connection")
  {
    assert LowerAll("Content-Length") == "content-length" && LowerAll("Connection") == "connection";
    assert all == fields + all[|fields|..];
    if Has(fields, "content-length") {
      HasAppend(fields, all[|fields|..], "content-length");
    } else {
      assert LowerAll(all[|fields|].name) == "content-length";
    }
    if Has(fields, "connection") {
      HasAppend(fields, all[|fields|..], "connection");
    } else {
      assert LowerAll(all[|all| - 1].name) == "connection";
    }
  }

  lemma HasAppend(fields: seq<Field>, more: seq<Field>, name: string)
    requires Has(fields, name)
    ensures Has(fields + more, name)
  {
    var i :| 0 <= i < |fields| && LowerAll(fields[i].name) == name;
    assert (fields + more)[i] == fields[i];
  }
}
