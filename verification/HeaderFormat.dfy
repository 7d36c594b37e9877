/** format_response_headers(): the formatter in place, with its running length and flags. */
module HeaderFormat {
  import opened Sequences
  import opened Decimal
  import opened HeaderChecks
  import opened HeaderText
  import opened Headers

  /** `Senseless`: memcpy was asked for a negative length. */
  datatype Result = Formatted(len: nat) | NoRoom | Senseless

  /** The buffer holds what was emitted. */
  predicate Shows(r: Result, buf: string, o: Outcome) {
    match o
    case Done(t) => r == Formatted(|t|) && |t| <= |buf| && buf[..|t|] == t
    case TooSmall => r == NoRoom
    case Undefined => r == Senseless
  }

  /** One piece behind what is there, unless formatting has failed already. */
  method Append(hdr: array<char>, before: Result, src: string, ghost o: Outcome) returns (r: Result)
    requires hdr.Length == RESP_HDR_SIZE && Shows(before, hdr[..], o)
    modifies hdr
    ensures Shows(r, hdr[..], Then(o, [src]))
  {
    if !before.Formatted? {
      return before;
    }
    assert [src][1..] == [];
    var len, sl := before.len, Int32(|src|);
    if sl > RESP_HDR_SIZE - len {
      return NoRoom;
    }
    if sl < 0 {
      return Senseless;
    }
    forall i | 0 <= i < sl {
      hdr[len + i] := src[i];
    }
    EmitOne(o.text, src);
    assert hdr[..len] == o.text && hdr[len..len + sl] == src[..sl];
    assert hdr[..][..len + sl] == o.text + src[..sl];
    return Formatted(len + sl);
  }

  method AppendAll(hdr: array<char>, before: Result, pieces: seq<string>, ghost o: Outcome) returns (r: Result)
    requires hdr.Length == RESP_HDR_SIZE && Shows(before, hdr[..], o)
    modifies hdr
    ensures Shows(r, hdr[..], Then(o, pieces))
  {
    r := before;
    assert Then(o, []) == o;
    for i := 0 to |pieces|
      invariant Shows(r, hdr[..], Then(o, pieces[..i]))
    {
      ThenThen(o, pieces[..i], [pieces[i]]);
      assert pieces[..i + 1] == pieces[..i] + [pieces[i]];
      r := Append(hdr, r, pieces[i], Then(o, pieces[..i]));
    }
    assert pieces[..|pieces|] == pieces;
  }

  /** strncasecmp() over names of one length. */
  method SameName(name: string, want: string) returns (same: bool)
    ensures same <==> LowerAll(name) == LowerAll(want)
  {
    if |name| != |want| {
      assert |LowerAll(name)| != |LowerAll(want)|;
      return false;
    }
    for i := 0 to |name|
      invariant forall j :: 0 <= j < i ==> Lower(name[j]) == Lower(want[j])
    {
      if Lower(name[i]) != Lower(want[i]) {
        assert LowerAll(name)[i] != LowerAll(want)[i];
        return false;
      }
    }
    assert LowerAll(name) == LowerAll(want);
    return true;
  }

  lemma LowerNames()
    ensures LowerAll("content-length") == "content-length" && LowerAll("connection") == "connection"
  {
  }

  lemma HasNext(fields: seq<Field>, i: nat, name: string)
    requires i < |fields|
    ensures Has(fields[..i + 1], name) <==> Has(fields[..i], name) || LowerAll(fields[i].name) == name
  {
  }

  /** The application's fields, and whether a length and a connection field are among them. */
  method AppendFields(hdr: array<char>, before: Result, fields: seq<Field>, ghost o: Outcome)
      returns (r: Result, length: bool, connection: bool)
    requires hdr.Length == RESP_HDR_SIZE && Shows(before, hdr[..], o)
    modifies hdr
    ensures Shows(r, hdr[..], Then(o, FieldPieces(fields)))
    ensures length == Has(fields, "content-length") && connection == Has(fields, "connection")
  {
    r, length, connection := before, false, false;
    ghost var now := o;
    for i := 0 to |fields|
      invariant Shows(r, hdr[..], now) && Then(now, FieldPieces(fields[i..])) == Then(o, FieldPieces(fields))
      invariant length == Has(fields[..i], "content-length") && connection == Has(fields[..i], "connection")
    {
      HasNext(fields, i, "content-length");
      HasNext(fields, i, "connection");
      length, connection := Flags(fields[i].name, length, connection);
      var four := [fields[i].name, ": ", fields[i].value, CRLF];
      NextField(now, fields, i);
      r := AppendAll(hdr, r, four, now);
      now := Then(now, four);
    }
    assert fields[..|fields|] == fields && fields[|fields|..] == [];
    assert Then(now, []) == now;
  }

  lemma NextField(o: Outcome, fields: seq<Field>, i: nat)
    requires i < |fields|
    ensures Then(o, FieldPieces(fields[i..])) ==
            Then(Then(o, [fields[i].name, ": ", fields[i].value, CRLF]), FieldPieces(fields[i + 1..]))
  {
    assert fields[i..][1..] == fields[i + 1..];
    ThenThen(o, [fields[i].name, ": ", fields[i].value, CRLF], FieldPieces(fields[i + 1..]));
  }

  /** The two flags after one more name: only a name that is not the first can be the second. */
  method Flags(name: string, length: bool, connection: bool) returns (length': bool, connection': bool)
    ensures length' == (length || LowerAll(name) == "content-length")
    ensures connection' == (connection || LowerAll(name) == "connection")
  {
    LowerNames();
    length', connection' := length, connection;
    var same := SameName(name, "content-length");
    if same {
      length' := true;
    } else {
      same := SameName(name, "connection");
      if same {
        connection' := true;
      }
    }
  }

  /** The number is written in place, without a piece of text to copy. */
  method AppendNumber(hdr: array<char>, before: Result, n: nat, ghost o: Outcome) returns (r: Result)
    requires hdr.Length == RESP_HDR_SIZE && Shows(before, hdr[..], o) && n < 0x8000_0000_0000_0000
    modifies hdr
    ensures Shows(r, hdr[..], Then(o, [Digits(n)]))
  {
    if !before.Formatted? {
      return before;
    }
    LengthShort(n);
    ghost var d: string := Digits(n);
    assert d[..|d|] == d;
    var w := WriteUint(hdr, before.len, RESP_HDR_SIZE - before.len, n);
    if w < 0 {
      return NoRoom;
    }
    EmitOne(o.text, d);
    assert hdr[..][..before.len + w] == o.text + d;
    return Formatted(before.len + w);
  }

  method AppendLength(hdr: array<char>, before: Result, bodyLen: nat, ghost o: Outcome) returns (r: Result)
    requires hdr.Length == RESP_HDR_SIZE && Shows(before, hdr[..], o) && bodyLen < 0x8000_0000_0000_0000
    modifies hdr
    ensures Shows(r, hdr[..], Then(o, ["Content-Length: ", Digits(bodyLen), CRLF]))
  {
    LengthPieces(o, bodyLen);
    r := AppendAll(hdr, before, ["Content-Length: "], o);
    r := AppendNumber(hdr, r, bodyLen, Then(o, ["Content-Length: "]));
    r := AppendAll(hdr, r, [CRLF], Then(Then(o, ["Content-Length: "]), [Digits(bodyLen)]));
  }

  lemma LengthPieces(o: Outcome, bodyLen: nat)
    ensures Then(o, ["Content-Length: ", Digits(bodyLen), CRLF]) ==
            Then(Then(Then(o, ["Content-Length: "]), [Digits(bodyLen)]), [CRLF])
  {
    assert ["Content-Length: ", Digits(bodyLen), CRLF] == ["Content-Length: "] + [Digits(bodyLen)] + [CRLF];
    ThenThen(o, ["Content-Length: "] + [Digits(bodyLen)], [CRLF]);
    ThenThen(o, ["Content-Length: "], [Digits(bodyLen)]);
  }

  method AppendTail(hdr: array<char>, before: Result, length: bool, connection: bool, bodyLen: nat, keepAlive: bool,
      ghost o: Outcome)
    returns (r: Result)
    requires hdr.Length == RESP_HDR_SIZE && Shows(before, hdr[..], o) && bodyLen < 0x8000_0000_0000_0000
    modifies hdr
    ensures Shows(r, hdr[..], Then(o, TailPieces(length, connection, bodyLen, keepAlive)))
  {
    r := before;
    var end := (if connection then [] else [ConnectionText(keepAlive)]) + [CRLF];
    if length {
      assert TailPieces(length, connection, bodyLen, keepAlive) == end;
      r := AppendAll(hdr, r, end, o);
    } else {
      ghost var piece := ["Content-Length: ", Digits(bodyLen), CRLF];
      assert TailPieces(length, connection, bodyLen, keepAlive) == piece + end;
      ThenThen(o, piece, end);
      r := AppendLength(hdr, r, bodyLen, o);
      r := AppendAll(hdr, r, end, Then(o, piece));
    }
  }

  lemma WholePieces(o: Outcome, status: string, fields: seq<Field>, bodyLen: nat, keepAlive: bool)
    ensures Then(o, Pieces(status, fields, bodyLen, keepAlive)) ==
            Then(Then(Then(o, ["HTTP/1.1 ", status, CRLF]), FieldPieces(fields)),
                 TailPieces(Has(fields, "content-length"), Has(fields, "connection"), bodyLen, keepAlive))
  {
    var tail := TailPieces(Has(fields, "content-length"), Has(fields, "connection"), bodyLen, keepAlive);
    ThenThen(o, ["HTTP/1.1 ", status, CRLF] + FieldPieces(fields), tail);
    ThenThen(o, ["HTTP/1.1 ", status, CRLF], FieldPieces(fields));
  }

  /** The whole formatter: what it emits is the pieces of the block, one behind the other. */
  method Format(hdr: array<char>, status: string, fields: seq<Field>, bodyLen: nat, keepAlive: bool) returns (r: Result)
    requires hdr.Length == RESP_HDR_SIZE && bodyLen < 0x8000_0000_0000_0000
    modifies hdr
    ensures Shows(r, hdr[..], Emit("", Pieces(status, fields, bodyLen, keepAlive)))
  {
    ghost var o := Done("");
    WholePieces(o, status, fields, bodyLen, keepAlive);
    var line := ["HTTP/1.1 ", status, CRLF];
    r := AppendAll(hdr, Formatted(0), line, o);
    o := Then(o, line);
    var length, connection;
    r, length, connection := AppendFields(hdr, r, fields, o);
    o := Then(o, FieldPieces(fields));
    r := AppendTail(hdr, r, length, connection, bodyLen, keepAlive, o);
  }

  lemma ShowsOne(r: Result, buf: string, o: Outcome, o': Outcome)
    requires Shows(r, buf, o)
    ensures Shows(r, buf, o') <==> o == o'
  {
  }

  /** From start_response() to the wire: a response is refused, or the buffer ends up as it is
      meant to if and only if the response is formattable; the block then comes apart into
      exactly that response. */
  method Respond(hdr: array<char>, status: string, fields: seq<Field>, bodyLen: nat, keepAlive: bool)
    returns (v: Verdict, r: Result)
    requires hdr.Length == RESP_HDR_SIZE && bodyLen < 0x8000_0000_0000_0000
    modifies hdr
    ensures v.Accepted? <==> Acceptable(status, fields)
    ensures v.Accepted? ==>
              (Shows(r, hdr[..], Intended(status, fields, bodyLen, keepAlive)) <==>
                  Formattable(status, fields, bodyLen, keepAlive))
    ensures v.Accepted? && Formattable(status, fields, bodyLen, keepAlive) ==>
              var all := fields + Auto(fields, bodyLen, keepAlive);
              && Completes(fields, all, bodyLen, keepAlive)
              && if |Text(status, all)| > RESP_HDR_SIZE then r == NoRoom
                 else r == Formatted(|Text(status, all)|) && ParseBlock(hdr[..r.len]) == Some(Response(status, all))
  {
    v := CheckResponse(status, fields);
    r := NoRoom;
    if v.Accepted? {
      HeaderRoundTrip(status, fields, bodyLen, keepAlive);
      r := Format(hdr, status, fields, bodyLen, keepAlive);
      ShowsOne(r, hdr[..], Emit("", Pieces(status, fields, bodyLen, keepAlive)),
          Intended(status, fields, bodyLen, keepAlive));
      assert r.Formatted? && r.len <= hdr.Length ==> hdr[..][..r.len] == hdr[..r.len];
    }
  }
}
