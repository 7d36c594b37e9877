/** Response header blocks as text, and how a recipient takes one apart again: lines end in
    CRLF, a field name ends at the first colon, an empty line ends the block. */
module HeaderText {
  import opened Sequences
  import opened HeaderChecks

  const CRLF: string := "\r\n"

  /** The block of section 2.1 of RFC 9112. */
  function Text(status: string, fields: seq<Field>): string {
    "HTTP/1.1 " + status + CRLF + FieldText(fields)
  }

  /** The field lines and the empty line behind them. */
  function FieldText(fields: seq<Field>): string {
    if fields == [] then CRLF
    else fields[0].name + ": " + fields[0].value + CRLF + FieldText(fields[1..])
  }

  // ---- taking it apart ----

  /** Where the first CRLF is; the length if there is none. */
  function FindCrlf(s: string): (i: nat)
    ensures i < |s| ==> i + 2 <= |s| && s[i] == '\r' && s[i + 1] == '\n'
    ensures i <= |s|
  {
    if |s| < 2 then |s|
    else if s[0] == '\r' && s[1] == '\n' then 0
    else 1 + FindCrlf(s[1..])
  }

  function SplitLines(s: string): seq<string>
    decreases |s|
  {
    var i := FindCrlf(s);
    if i < |s| then [s[..i]] + SplitLines(s[i + 2..]) else [s]
  }

  function FindColon(s: string): (i: nat)
    ensures i <= |s| && (i < |s| ==> s[i] == ':')
  {
    if s == "" || s[0] == ':' then 0 else 1 + FindColon(s[1..])
  }

  function ParseField(line: string): Option<Field> {
    var i := FindColon(line);
    if i + 1 < |line| && line[i + 1] == ' ' then Some(Field(line[..i], line[i + 2..])) else None
  }

  /** Field lines up to the empty line, behind which nothing follows. */
  function ParseFields(lines: seq<string>): Option<seq<Field>> {
    if lines == [] || lines[0] == "" then
      if |lines| == 2 && lines[1] == "" then Some([]) else None
    else
      var first, rest := ParseField(lines[0]), ParseFields(lines[1..]);
      if first.Some? && rest.Some? then Some([first.value] + rest.value) else None
  }

  datatype Response = Response(status: string, fields: seq<Field>)

  function ParseBlock(s: string): Option<Response> {
    var lines := SplitLines(s);
    if lines != [] && "HTTP/1.1 " <= lines[0] then
      var fields := ParseFields(lines[1..]);
      if fields.Some? then Some(Response(lines[0][9..], fields.value)) else None
    else None
  }

  // ---- the round trip ----

  predicate NoCr(s: string) {
    forall i :: 0 <= i < |s| ==> s[i] != '\r'
  }

  lemma {:induction false} CrlfBehind(line: string, rest: string)
    requires NoCr(line)
    ensures FindCrlf(line + CRLF + rest) == |line|
  {
    var s := line + CRLF + rest;
    if line == "" {
      assert s == CRLF + rest;
      assert s[0] == '\r' && s[1] == '\n';
    } else {
      assert s[0] == line[0];
      assert s[1..] == line[1..] + CRLF + rest;
      CrlfBehind(line[1..], rest);
    }
  }

  lemma LineSplits(line: string, rest: string)
    requires NoCr(line)
    ensures SplitLines(line + CRLF + rest) == [line] + SplitLines(rest)
  {
    var s := line + CRLF + rest;
    CrlfBehind(line, rest);
    assert s[..|line|] == line && s[|line| + 2..] == rest;
  }

  lemma {:induction false} ColonBehind(name: string, rest: string)
    requires forall i :: 0 <= i < |name| ==> name[i] != ':'
    ensures FindColon(name + ":" + rest) == |name|
  {
    var s := name + ":" + rest;
    if name == "" {
      assert s == ":" + rest;
    } else {
      assert s[0] == name[0];
      assert s[1..] == name[1..] + ":" + rest;
      ColonBehind(name[1..], rest);
    }
  }

  function Line(f: Field): string {
    f.name + ": " + f.value
  }

  lemma FieldSplits(f: Field)
    requires FieldOk(f)
    ensures ParseField(Line(f)) == Some(f) && NoCr(Line(f)) && Line(f) != ""
  {
    forall i | 0 <= i < |f.name| ensures f.name[i] != ':' && f.name[i] != '\r' {
      assert TokenChar(f.name[i]);
    }
    forall i | 0 <= i < |f.value| ensures f.value[i] != '\r' {
      assert FieldChar(f.value[i]);
    }
    assert Line(f) == f.name + ":" + (" " + f.value);
    ColonBehind(f.name, " " + f.value);
    assert Line(f)[..|f.name|] == f.name && Line(f)[|f.name| + 2..] == f.value;
  }

  lemma {:induction false} FieldsRoundTrip(fields: seq<Field>)
    requires forall i :: 0 <= i < |fields| ==> FieldOk(fields[i])
    ensures ParseFields(SplitLines(FieldText(fields))) == Some(fields)
  {
    if fields == [] {
      LineSplits("", "");
      assert "" + CRLF + "" == CRLF;
    } else {
      FieldsRoundTrip(fields[1..]);
      FieldPrepended(fields[0], fields[1..]);
      assert fields == [fields[0]] + fields[1..];
    }
  }

  lemma FieldPrepended(f: Field, fields: seq<Field>)
    requires FieldOk(f) && ParseFields(SplitLines(FieldText(fields))) == Some(fields)
    ensures ParseFields(SplitLines(FieldText([f] + fields))) == Some([f] + fields)
  {
    var rest := FieldText(fields);
    FieldSplits(f);
    LineSplits(Line(f), rest);
    assert ([f] + fields)[1..] == fields;
    assert FieldText([f] + fields) == Line(f) + CRLF + rest;
    var lines := [Line(f)] + SplitLines(rest);
    assert lines[0] == Line(f) && lines[1..] == SplitLines(rest);
  }

  /** Taking a block apart gives back exactly what went into it. */
  lemma BlockRoundTrip(status: string, fields: seq<Field>)
    requires Acceptable(status, fields)
    ensures ParseBlock(Text(status, fields)) == Some(Response(status, fields))
  {
    var first := "HTTP/1.1 " + status;
    forall i | 0 <= i < |status| ensures status[i] != '\r' {
      assert FieldChar(status[i]);
    }
    assert NoCr(first);
    LineSplits(first, FieldText(fields));
    assert Text(status, fields) == first + CRLF + FieldText(fields);
    FieldsRoundTrip(fields);
    var lines := [first] + SplitLines(FieldText(fields));
    assert lines[1..] == SplitLines(FieldText(fields));
    assert first[9..] == status;
  }
}
