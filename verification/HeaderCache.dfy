/** The cache of common request header names: a table sorted by length with an index from
    lengths to slices of it, and the builders it stands in for. */
module HeaderCache {
  import opened Sequences
  import opened Headers

  const MAX_LEN: nat := 32

  // ---- what an uncached name becomes ----

  function KeyChar(c: char): char {
    if 'a' <= c <= 'z' then (c as int - 32) as char else if c == '-' then '_' else c
  }

  function KeyChars(s: string): string {
    seq(|s|, i requires 0 <= i < |s| => KeyChar(s[i]))
  }

  /** The environ key of a header name. */
  function WsgiKey(name: string): string {
    "HTTP_" + KeyChars(name)
  }

  /** The key does not depend on the letter case of the name. */
  lemma KeyOfLower(name: string)
    ensures WsgiKey(LowerAll(name)) == WsgiKey(name)
  {
  }

  /** Letter case and the two dashes aside. */
  function Folded(c: char): char {
    if 'A' <= c <= 'Z' then (c as int + 32) as char else if c == '_' then '-' else c
  }

  /** An environ key has no lowercase letter and no hyphen, and two names share one if and only
      if they are equal but for letter case and for '-' against '_'. */
  lemma KeysApart(a: string, b: string)
    ensures forall i :: 0 <= i < |WsgiKey(a)| ==> !('a' <= WsgiKey(a)[i] <= 'z') && WsgiKey(a)[i] != '-'
    ensures WsgiKey(a) == WsgiKey(b) <==> |a| == |b| && forall i :: 0 <= i < |a| ==> Folded(a[i]) == Folded(b[i])
  {
    assert WsgiKey(a)[5..] == KeyChars(a) && WsgiKey(b)[5..] == KeyChars(b);
    if WsgiKey(a) == WsgiKey(b) {
      forall i | 0 <= i < |a| ensures Folded(a[i]) == Folded(b[i]) {
        assert KeyChars(a)[i] == KeyChars(b)[i];
      }
    }
    if |a| == |b| && forall i :: 0 <= i < |a| ==> Folded(a[i]) == Folded(b[i]) {
      assert KeyChars(a) == KeyChars(b);
    }
  }

  /** For instance. */
  lemma KeyOfSmall()
    ensures WsgiKey("a-B") == "HTTP_A_B"
  {
    assert KeyChars("a-B") == "A_B";
  }

  /** The ASGI name, built byte by byte. */
  method LowerName(name: string) returns (dst: array<char>)
    ensures fresh(dst) && dst[..] == LowerAll(name)
  {
    dst := new char[|name|];
    for j := 0 to |name|
      invariant dst[..j] == LowerAll(name)[..j]
    {
      dst[j] := if 'A' <= name[j] <= 'Z' then (name[j] as int + 32) as char else name[j];
    }
  }

  method WsgiHeaderKey(name: string) returns (dst: array<char>)
    ensures fresh(dst) && dst[..] == WsgiKey(name)
  {
    dst := new char[5 + |name|];
    dst[0], dst[1], dst[2], dst[3], dst[4] := 'H', 'T', 'T', 'P', '_';
    for j := 0 to |name|
      invariant dst[..5] == "HTTP_"
      invariant forall k :: 0 <= k < j ==> dst[5 + k] == KeyChar(name[k])
    {
      var ch := name[j];
      dst[5 + j] := if 'a' <= ch <= 'z' then (ch as int - 32) as char else if ch == '-' then '_' else ch;
    }
    assert dst[5..] == KeyChars(name);
    assert dst[..] == dst[..5] + dst[5..];
  }

  // ---- comparing ----

  /** A byte with bit 5 the other way. */
  function Flip5(a: nat): nat {
    if a / 32 % 2 == 1 then a - 32 else a + 32
  }

  predicate Lowercase(s: string) {
    LowerAll(s) == s
  }

  lemma LowercaseAt(s: string, i: nat)
    requires Lowercase(s) && i < |s|
    ensures Lower(s[i]) == s[i]
  {
  }

  /** One byte matches a lowercase one exactly when the bit-5 shortcut says so. */
  lemma FlipIsLower(a: char, b: char)
    requires a as int < 256 && Lower(b) == b
    ensures Lower(a) == b <==> a == b || (Flip5(a as nat) == b as nat && 'a' <= b <= 'z')
  {
  }

  predicate Bytes(s: string) {
    forall i :: 0 <= i < |s| ==> s[i] as int < 256
  }

  method EqualNoCase(s: string, lower: string) returns (same: bool)
    requires |s| == |lower| && Bytes(s) && Lowercase(lower)
    ensures same <==> LowerAll(s) == lower
  {
    for i := 0 to |s|
      invariant forall k :: 0 <= k < i ==> Lower(s[k]) == lower[k]
    {
      LowercaseAt(lower, i);
      FlipIsLower(s[i], lower[i]);
      if s[i] != lower[i] {
        if Flip5(s[i] as nat) != lower[i] as nat || lower[i] < 'a' || lower[i] > 'z' {
          assert LowerAll(s)[i] != lower[i];
          return false;
        }
      }
    }
    assert LowerAll(s) == lower;
    return true;
  }

  // ---- the table ----

  /** `None` is an object that could not be allocated, or was not yet. */
  datatype Entry = Entry(name: string, asgiName: Option<string>, wsgiKey: Option<string>)

  function EntryOf(name: string): Entry {
    Entry(name, Some(name), Some(WsgiKey(name)))
  }

  const EMPTY: Entry := Entry("", None, None)

  /** Sorted by length, with no name empty or too long. */
  predicate Sorted(names: seq<string>) {
    && (forall i :: 0 <= i < |names| ==> 0 < |names[i]| <= MAX_LEN)
    && (forall i, j :: 0 <= i <= j < |names| ==> |names[i]| <= |names[j]|)
  }

  predicate AllLowercase(names: seq<string>) {
    forall i :: 0 <= i < |names| ==> Lowercase(names[i])
  }

  /** `at` is the first entry of length `len` or more. */
  predicate FirstOf(names: seq<string>, len: nat, at: nat) {
    && at <= |names|
    && (forall i :: 0 <= i < at ==> |names[i]| < len)
    && (forall i :: at <= i < |names| ==> |names[i]| >= len)
  }

  predicate LengthOk(name: string) {
    0 < |name| <= MAX_LEN
  }

  /** Filling in the first entry gets as far as its ASGI name, by which a later set-up tells
      whether there was an earlier one. */
  predicate Marked(names: seq<string>, objects: nat)
    requires names != []
  {
    LengthOk(names[0]) && objects > 0
  }

  class Cache {
    const names: seq<string>
    const table: array<Entry>
    const offset: array<nat>

    constructor (names: seq<string>)
      requires 0 < |names| < 256
      ensures this.names == names && Sized() && table[0].asgiName.None? && fresh(table) && fresh(offset)
    {
      this.names := names;
      table := new Entry[|names|](_ => EMPTY);
      offset := new nat[MAX_LEN + 2](_ => 0);
    }

    predicate Sized()
      reads this
    {
      0 < |names| < 256 && table.Length == |names| && offset.Length == MAX_LEN + 2
    }

    ghost predicate Filled(n: nat)
      reads this, table
      requires n <= |names| && n <= table.Length
    {
      forall i :: 0 <= i < n ==> table[i] == EntryOf(names[i])
    }

    /** The table holds every name with what the builders make of it, and the index cuts it
        by length. */
    ghost predicate Built()
      reads this, table, offset
    {
      && Sized() && Sorted(names) && Filled(|names|)
      && forall len :: 0 <= len < MAX_LEN + 2 ==> FirstOf(names, len, offset[len])
    }

    /** The key of a table name, in a buffer for the longest of them; what is behind it stays
        unread. */
    method BuildKey(n: string) returns (key: array<char>)
      requires |n| <= MAX_LEN
      ensures fresh(key) && key.Length == MAX_LEN + 6 && key[..5 + |n|] == WsgiKey(n) && key[5 + |n|] == '\0'
    {
      key := new char[MAX_LEN + 6];
      key[0], key[1], key[2], key[3], key[4] := 'H', 'T', 'T', 'P', '_';
      var j := 0;
      while j < |n|
        invariant 0 <= j <= |n| && key[..5] == "HTTP_"
        invariant forall k :: 0 <= k < j ==> key[5 + k] == KeyChar(n[k])
      {
        key[5 + j] := if 'a' <= n[j] <= 'z' then (n[j] as int - 32) as char else if n[j] == '-' then '_' else n[j];
        j := j + 1;
      }
      key[5 + |n|] := '\0';
      assert key[5..5 + |n|] == KeyChars(n);
      assert key[..5 + |n|] == key[..5] + key[5..5 + |n|];
    }

    /** One entry.  Of the two objects it needs, `objects` can still be allocated. */
    method FillEntry(i: nat, objects: nat) returns (ok: bool)
      requires Sized() && i < |names| && LengthOk(names[i])
      modifies table
      ensures forall j :: 0 <= j < table.Length && j != i ==> table[j] == old(table[j])
      ensures ok == (objects >= 2) && (ok <==> table[i] == EntryOf(names[i]))
      ensures table[i].asgiName.Some? <==> objects > 0
    {
      var n := names[i];
      var key := BuildKey(n);
      table[i] := Entry(n, if objects > 0 then Some(n) else None, if objects > 1 then Some(key[..5 + |n|]) else None);
      return table[i].asgiName.Some? && table[i].wsgiKey.Some?;
    }

    /** `objects` is how many objects can be allocated before one cannot. */
    method FillTable(objects: nat) returns (ok: bool)
      requires Sized() && table[0].asgiName.None?
      modifies table
      ensures ok <==> Sorted(names) && objects >= 2 * |names|
      ensures ok ==> Filled(|names|)
      ensures !ok ==> !Sorted(names) || !Filled(|names|)
      ensures table[0].asgiName.Some? <==> Marked(names, objects)
    {
      var prev := 0;
      for i := 0 to |names|
        invariant Filled(i) && Sorted(names[..i]) && objects >= 2 * i
        invariant table[0].asgiName.Some? <==> i > 0
        invariant prev == if i == 0 then 0 else |names[i - 1]|
      {
        var n := names[i];
        if |n| == 0 || |n| > MAX_LEN || |n| < prev {
          assert names[..i + 1][i] == n;
          return false;
        }
        prev := |n|;
        ok := FillEntry(i, objects - 2 * i);
        if !ok {
          return;
        }
        assert names[..i + 1] == names[..i] + [n];
      }
      assert names[..|names|] == names;
      return true;
    }

    method FillIndex()
      requires Sized() && Sorted(names) && Filled(|names|)
      modifies offset
      ensures forall len :: 0 <= len < MAX_LEN + 2 ==> FirstOf(names, len, offset[len])
    {
      var idx := 0;
      for len := 0 to MAX_LEN + 2
        invariant 0 <= idx <= |names| && Filled(|names|)
        invariant forall i :: 0 <= i < idx ==> |names[i]| < len
        invariant forall l :: 0 <= l < len ==> FirstOf(names, l, offset[l])
      {
        while idx < |names| && |table[idx].name| < len
          invariant idx <= |names| && Filled(|names|)
          invariant forall i :: 0 <= i < idx ==> |names[i]| < len
        {
          idx := idx + 1;
        }
        offset[len] := idx;
      }
    }

    /** Succeeds exactly when the names are sorted by length and every object can be allocated,
        and then everything is built; but once the first entry has its ASGI name it succeeds
        without doing anything. */
    method Init(objects: nat) returns (ok: bool)
      requires Sized()
      modifies table, offset
      ensures old(table[0].asgiName).None? ==>
                && (ok <==> Sorted(names) && objects >= 2 * |names|) && (ok <==> Built())
                && (table[0].asgiName.Some? <==> Marked(names, objects))
      ensures old(table[0].asgiName).Some? ==> ok && table[..] == old(table[..]) && offset[..] == old(offset[..])
    {
      if table[0].asgiName.Some? {
        return true;
      }
      ok := FillTable(objects);
      if ok {
        FillIndex();
      }
    }

    /** A hit is exactly a name whose lowercase form is in the table, and what it gives is what
        the builders would have made. */
    method Lookup(name: string) returns (e: Option<Entry>)
      requires Built() && AllLowercase(names) && Bytes(name)
      ensures e.Some? <==> LowerAll(name) in names
      ensures e.Some? ==> e.value.asgiName == Some(LowerAll(name)) && e.value.wsgiKey == Some(WsgiKey(name))
    {
      if |name| == 0 || |name| > MAX_LEN {
        assert |LowerAll(name)| == |name|;
        return None;
      }
      var len := |name|;
      var c0 := if 'A' <= name[0] <= 'Z' then (name[0] as int + 32) as char else name[0];
      var i := offset[len];
      var end := offset[len + 1];
      SliceOf(names, len, offset[len], offset[len + 1]);
      while i < end
        invariant offset[len] <= i && (i < end ==> i < |names|)
        invariant forall k :: offset[len] <= k < i && k < end ==> names[k] != LowerAll(name)
      {
        var entry := table[i];
        assert |names[i]| == len;
        assert entry.name == names[i] && Lowercase(names[i]);
        if entry.name[0] == c0 {
          SplitFirst(name, entry.name);
          var same := EqualNoCase(name[1..], entry.name[1..]);
          if same {
            KeyOfLower(name);
            return Some(entry);
          }
        } else {
          assert LowerAll(name)[0] != entry.name[0];
        }
        i := i + 1;
      }
      return None;
    }
  }

  /** The index selects exactly the entries of one length. */
  lemma SliceOf(names: seq<string>, len: nat, first: nat, last: nat)
    requires Sorted(names) && FirstOf(names, len, first) && FirstOf(names, len + 1, last)
    ensures first <= last
    ensures forall i :: 0 <= i < |names| ==> (|names[i]| == len <==> first <= i < last)
  {
    assert last == |names| || |names[last]| > len;
  }

  lemma SplitFirst(name: string, lower: string)
    requires |name| == |lower| > 0 && Lowercase(lower) && Lower(name[0]) == lower[0]
    ensures Lowercase(lower[1..]) && (LowerAll(name) == lower <==> LowerAll(name[1..]) == lower[1..])
  {
  }

  // ---- the names the server caches ----

  /** The cached names of one length, in table order. */
  function Group(len: nat): seq<string> {
    match len
    case 3 => ["dnt"]
    case 4 => ["host"]
    case 5 => ["range"]
    case 6 => ["accept", "cookie", "expect", "origin", "pragma"]
    case 7 => ["referer", "upgrade"]
    case 8 => ["if-match", "priority"]
    case 9 => ["sec-ch-ua", "x-real-ip"]
    case 10 => ["connection", "keep-alive", "user-agent"]
    case 12 => ["content-type", "max-forwards", "x-request-id"]
    case 13 => ["authorization", "cache-control", "if-none-match"]
    case 14 => ["accept-charset", "content-length", "sec-fetch-dest",
                "sec-fetch-mode", "sec-fetch-site", "sec-fetch-user"]
    case 15 => ["accept-encoding", "accept-language", "x-forwarded-for"]
    case 16 => ["sec-ch-ua-mobile", "x-forwarded-host", "x-requested-with"]
    case 17 => ["if-modified-since", "transfer-encoding", "x-forwarded-proto"]
    case 18 => ["sec-ch-ua-platform"]
    case 19 => ["if-unmodified-since"]
    case 25 => ["upgrade-insecure-requests"]
    case _ => []
  }

  /** The groups, in order of length. */
  function NamesUpTo(group: nat -> seq<string>, len: nat): seq<string> {
    if len == 0 then [] else NamesUpTo(group, len - 1) + group(len)
  }

  function GroupSize(len: nat): nat {
    if len < 3 then 0
    else if len < 6 then 1
    else if len == 6 then 5
    else if len < 10 then 2
    else if len == 11 then 0
    else if len == 14 then 6
    else if len < 18 then 3
    else if len < 20 || len == 25 then 1
    else 0
  }

  function Count(len: nat): nat {
    if len == 0 then 0 else Count(len - 1) + GroupSize(len)
  }

  const NAMES: seq<string> := NamesUpTo(Group, MAX_LEN)

  predicate GroupOk(names: seq<string>, len: nat) {
    forall i :: 0 <= i < |names| ==> |names[i]| == len && Lowercase(names[i])
  }

  predicate NameOf(s: string, len: nat) {
    |s| == len && Lowercase(s)
  }

  lemma GroupOf3(a: string, b: string, c: string, len: nat)
    requires NameOf(a, len) && NameOf(b, len) && NameOf(c, len)
    ensures GroupOk([a, b, c], len)
  {
  }

  lemma Group3()
    ensures GroupOk(Group(3), 3) && |Group(3)| == GroupSize(3)
  {
  }

  lemma Group4()
    ensures GroupOk(Group(4), 4) && |Group(4)| == GroupSize(4)
  {
  }

  lemma Group5()
    ensures GroupOk(Group(5), 5) && |Group(5)| == GroupSize(5)
  {
  }

  lemma Group6()
    ensures GroupOk(Group(6), 6) && |Group(6)| == GroupSize(6)
  {
  }

  lemma Group7()
    ensures GroupOk(Group(7), 7) && |Group(7)| == GroupSize(7)
  {
  }

  lemma Group8()
    ensures GroupOk(Group(8), 8) && |Group(8)| == GroupSize(8)
  {
  }

  lemma Group9()
    ensures GroupOk(Group(9), 9) && |Group(9)| == GroupSize(9)
  {
  }

  lemma Group10()
    ensures GroupOk(Group(10), 10) && |Group(10)| == GroupSize(10)
  {
  }

  lemma Group12()
    ensures GroupOk(Group(12), 12) && |Group(12)| == GroupSize(12)
  {
    GroupOf3("content-type", "max-forwards", "x-request-id", 12);
  }

  lemma Group13()
    ensures GroupOk(Group(13), 13) && |Group(13)| == GroupSize(13)
  {
    GroupOf3("authorization", "cache-control", "if-none-match", 13);
  }

  lemma Group14a()
    ensures GroupOk(["accept-charset", "content-length", "sec-fetch-dest"], 14)
  {
    GroupOf3("accept-charset", "content-length", "sec-fetch-dest", 14);
  }

  lemma Group14b()
    ensures GroupOk(["sec-fetch-mode", "sec-fetch-site", "sec-fetch-user"], 14)
  {
    GroupOf3("sec-fetch-mode", "sec-fetch-site", "sec-fetch-user", 14);
  }

  lemma Group14()
    ensures GroupOk(Group(14), 14) && |Group(14)| == GroupSize(14)
  {
    Group14a();
    Group14b();
    assert Group(14) ==
           ["accept-charset", "content-length", "sec-fetch-dest"] +
           ["sec-fetch-mode", "sec-fetch-site", "sec-fetch-user"];
  }

  lemma Group15()
    ensures GroupOk(Group(15), 15) && |Group(15)| == GroupSize(15)
  {
    GroupOf3("accept-encoding", "accept-language", "x-forwarded-for", 15);
  }

  lemma Group16()
    ensures GroupOk(Group(16), 16) && |Group(16)| == GroupSize(16)
  {
    GroupOf3("sec-ch-ua-mobile", "x-forwarded-host", "x-requested-with", 16);
  }

  lemma Group17()
    ensures GroupOk(Group(17), 17) && |Group(17)| == GroupSize(17)
  {
    GroupOf3("if-modified-since", "transfer-encoding", "x-forwarded-proto", 17);
  }

  lemma Group18()
    ensures GroupOk(Group(18), 18) && |Group(18)| == GroupSize(18)
  {
  }

  lemma Group19()
    ensures GroupOk(Group(19), 19) && |Group(19)| == GroupSize(19)
  {
  }

  lemma Group25()
    ensures GroupOk(Group(25), 25) && |Group(25)| == GroupSize(25)
  {
  }

  lemma EveryGroup(len: nat)
    ensures GroupOk(Group(len), len) && |Group(len)| == GroupSize(len)
  {
    match len {
      case 3 => Group3();
      case 4 => Group4();
      case 5 => Group5();
      case 6 => Group6();
      case 7 => Group7();
      case 8 => Group8();
      case 9 => Group9();
      case 10 => Group10();
      case 12 => Group12();
      case 13 => Group13();
      case 14 => Group14();
      case 15 => Group15();
      case 16 => Group16();
      case 17 => Group17();
      case 18 => Group18();
      case 19 => Group19();
      case 25 => Group25();
      case _ => assert Group(len) == [];
    }
  }

  lemma GroupBehind(names: seq<string>, more: seq<string>, len: nat)
    requires Sorted(names) && AllLowercase(names) && (forall i :: 0 <= i < |names| ==> |names[i]| < len)
    requires GroupOk(more, len) && 0 < len <= MAX_LEN
    ensures Sorted(names + more) && AllLowercase(names + more)
    ensures forall i :: 0 <= i < |names + more| ==> |(names + more)[i]| <= len
  {
  }

  /** Groups of names of one length each make up a table in the order the lookup relies on. */
  lemma {:induction false} NamesOk(group: nat -> seq<string>, len: nat)
    requires forall l :: GroupOk(group(l), l) && |group(l)| == GroupSize(l)
    requires len <= MAX_LEN
    ensures Sorted(NamesUpTo(group, len)) && AllLowercase(NamesUpTo(group, len))
    ensures forall i :: 0 <= i < |NamesUpTo(group, len)| ==> |NamesUpTo(group, len)[i]| <= len
    ensures |NamesUpTo(group, len)| == Count(len)
  {
    if len > 0 {
      NamesOk(group, len - 1);
      GroupBehind(NamesUpTo(group, len - 1), group(len), len);
    }
  }

  /** The server's own cache: setting it up fails only for want of memory. */
  method ServerCache(objects: nat) returns (ok: bool, cache: Cache)
    ensures fresh(cache) && cache.names == NAMES && AllLowercase(cache.names)
    ensures (ok <==> objects >= 2 * |NAMES|) && (ok <==> cache.Built())
  {
    NamesFit();
    cache := new Cache(NAMES);
    ok := cache.Init(objects);
  }

  /** Setting up twice: a second attempt that reports success has built the cache if and only
      if the first succeeded or did not get as far as the first ASGI name. */
  method SetUpTwice(cache: Cache, objects: nat, more: nat) returns (first: bool, second: bool)
    requires cache.Sized() && cache.table[0].asgiName.None?
    modifies cache.table, cache.offset
    ensures first <==> Sorted(cache.names) && objects >= 2 * |cache.names|
    ensures second <==> Marked(cache.names, objects) || (Sorted(cache.names) && more >= 2 * |cache.names|)
    ensures second ==> (cache.Built() <==> first || !Marked(cache.names, objects))
  {
    first := cache.Init(objects);
    second := cache.Init(more);
  }

  /** The exception is real for every sorted table, so for the server's own: if memory runs
      out behind the first object, the second attempt reports success over a cache that is
      not built. */
  method SecondSetUpUnbuilt(cache: Cache, objects: nat, more: nat) returns (first: bool, second: bool)
    requires cache.Sized() && cache.table[0].asgiName.None?
    requires Sorted(cache.names) && 0 < objects < 2 * |cache.names|
    modifies cache.table, cache.offset
    ensures !first && second && !cache.Built()
  {
    assert LengthOk(cache.names[0]);
    first, second := SetUpTwice(cache, objects, more);
  }

  lemma NamesFit()
    ensures Sorted(NAMES) && AllLowercase(NAMES) && |NAMES| == 41
  {
    CountAll();
    forall l ensures GroupOk(Group(l), l) && |Group(l)| == GroupSize(l) {
      EveryGroup(l);
    }
    NamesOk(Group, MAX_LEN);
  }

  lemma CountAll()
    ensures Count(MAX_LEN) == 41
  {
    assert Count(6) == 8 && Count(10) == 17;
    assert Count(14) == 29 && Count(18) == 39;
    assert Count(22) == 40 && Count(26) == 41;
  }
}
