/** What an application may put into a response header: token characters in names, no
    control characters in values, three digits in front of a status. */
module HeaderChecks {
  import opened Decimal

  /** A token character as section 5.6.2 of RFC 9110 has it. */
  predicate TokenChar(c: char) {
    || '0' <= c <= '9' || 'a' <= c <= 'z' || 'A' <= c <= 'Z'
    || c == '!' || c == '#' || c == '$' || c == '%' || c == '&' || c == '\'' || c == '*' || c == '+'
    || c == '-' || c == '.' || c == '^' || c == '_' || c == '`' || c == '|' || c == '~'
  }

  /** A field value as section 5.5 of RFC 9110 has it: no control character but HTAB. */
  predicate FieldChar(c: char) {
    c == '\t' || (' ' <= c && c as int != 0x7f)
  }

  predicate NameOk(s: string) {
    s != "" && forall i :: 0 <= i < |s| ==> TokenChar(s[i])
  }

  predicate ValueOk(s: string) {
    forall i :: 0 <= i < |s| ==> FieldChar(s[i])
  }

  predicate StatusOk(s: string) {
    && |s| >= 3 && IsDigit(s[0]) && IsDigit(s[1]) && IsDigit(s[2])
    && (|s| > 3 ==> s[3] == ' ')
    && ValueOk(s)
  }

  // ---- the table ----

  /** The table, eight entries to a row; outside printable ASCII it is empty. */
  function TableRow(r: nat): seq<bool> {
    match r
    case 4 => [false, true, false, true, true, true, true, true]
    case 5 => [false, false, true, true, false, true, true, false]
    case 6 => [true, true, true, true, true, true, true, true]
    case 7 => [true, true, false, false, false, false, false, false]
    case 8 => [false, true, true, true, true, true, true, true]
    case 9 => [true, true, true, true, true, true, true, true]
    case 10 => [true, true, true, true, true, true, true, true]
    case 11 => [true, true, true, false, false, false, true, true]
    case 12 => [true, true, true, true, true, true, true, true]
    case 13 => [true, true, true, true, true, true, true, true]
    case 14 => [true, true, true, true, true, true, true, true]
    case 15 => [true, true, true, false, true, false, true, false]
    case _ => [false, false, false, false, false, false, false, false]
  }

  function Tchar(c: nat): bool
    requires c < 256
  {
    TableRow(c / 8)[c % 8]
  }

  /** The 256-entry table is the token production. */
  lemma TableIsToken(c: nat)
    requires c < 256
    ensures Tchar(c) == TokenChar(c as char)
  {
  }

  // ---- the scans ----

  /** The table's answer for a byte of a string. */
  method TcharAt(c: char) returns (ok: bool)
    ensures ok == TokenChar(c)
  {
    if c as int >= 256 {
      return false;
    }
    TableIsToken(c as nat);
    return Tchar(c as nat);
  }

  method HdrNameOk(s: string) returns (ok: bool)
    ensures ok == NameOk(s)
  {
    if |s| <= 0 {
      return false;
    }
    for i := 0 to |s|
      invariant forall j :: 0 <= j < i ==> TokenChar(s[j])
    {
      var tchar := TcharAt(s[i]);
      if !tchar {
        return false;
      }
    }
    return true;
  }

  method HdrValueOk(s: string) returns (ok: bool)
    ensures ok == ValueOk(s)
  {
    for i := 0 to |s|
      invariant forall j :: 0 <= j < i ==> FieldChar(s[j])
    {
      if s[i] != '\t' && (s[i] < ' ' || s[i] as int == 0x7f) {
        assert !FieldChar(s[i]);
        return false;
      }
    }
    return true;
  }

  method StatusLineOk(s: string) returns (ok: bool)
    ensures ok == StatusOk(s)
  {
    if |s| < 3 {
      return false;
    }
    for i := 0 to 3
      invariant forall j :: 0 <= j < i ==> IsDigit(s[j])
    {
      if s[i] < '0' || s[i] > '9' {
        assert !IsDigit(s[i]);
        return false;
      }
    }
    if |s| > 3 && s[3] != ' ' {
      return false;
    }
    ok := HdrValueOk(s[3..]);
    assert ValueOk(s) ==> ValueOk(s[3..]);
    assert ValueOk(s[3..]) ==> ValueOk(s) by {
      if ValueOk(s[3..]) {
        forall i | 0 <= i < |s| ensures FieldChar(s[i]) {
          assert i >= 3 ==> s[i] == s[3..][i - 3];
        }
      }
    }
  }

  datatype Field = Field(name: string, value: string)

  predicate FieldOk(f: Field) {
    NameOk(f.name) && ValueOk(f.value)
  }

  /** What start_response() lets through. */
  predicate Acceptable(status: string, fields: seq<Field>) {
    StatusOk(status) && forall i :: 0 <= i < |fields| ==> FieldOk(fields[i])
  }

  datatype Verdict = Accepted | BadStatus | BadName(i: nat) | BadValue(i: nat)

  /** The checks of start_response(), reporting the first header that fails. */
  method CheckResponse(status: string, fields: seq<Field>) returns (v: Verdict)
    ensures v.Accepted? <==> Acceptable(status, fields)
    ensures v.BadStatus? <==> !StatusOk(status)
    ensures v.BadName? ==> v.i < |fields| && !NameOk(fields[v.i].name) && Acceptable(status, fields[..v.i])
    ensures v.BadValue? ==>
              && v.i < |fields| && NameOk(fields[v.i].name) && !ValueOk(fields[v.i].value)
              && Acceptable(status, fields[..v.i])
  {
    var ok := StatusLineOk(status);
    if !ok {
      return BadStatus;
    }
    for i := 0 to |fields|
      invariant Acceptable(status, fields[..i])
    {
      ok := HdrNameOk(fields[i].name);
      if !ok {
        assert !FieldOk(fields[i]);
        return BadName(i);
      }
      ok := HdrValueOk(fields[i].value);
      if !ok {
        assert !FieldOk(fields[i]);
        return BadValue(i);
      }
      assert fields[..i + 1] == fields[..i] + [fields[i]];
    }
    assert fields[..|fields|] == fields;
    return Accepted;
  }
}
