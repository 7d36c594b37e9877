/** Decimal numbers, and the server's two-digits-at-a-time writer for them. */
module Decimal {

  function Digit(d: nat): char
    requires d < 10
  {
    '0' + d as char
  }

  /** The decimal form, most significant digit first. */
  function Digits(u: nat): string {
    if u < 10 then [Digit(u)] else Digits(u / 10) + [Digit(u % 10)]
  }

  predicate IsDigit(c: char) {
    '0' <= c <= '9'
  }

  function DigitValue(c: char): nat
    requires IsDigit(c)
  {
    c as nat - '0' as nat
  }

  function Value(s: string): nat
    requires forall i :: 0 <= i < |s| ==> IsDigit(s[i])
  {
    if s == "" then 0 else Value(s[..|s| - 1]) * 10 + DigitValue(s[|s| - 1])
  }

  /** Digits and nothing else, decoding to the number, and no leading zero. */
  lemma {:induction false} DigitsDecode(u: nat)
    ensures |Digits(u)| > 0 && forall i :: 0 <= i < |Digits(u)| ==> IsDigit(Digits(u)[i])
    ensures Value(Digits(u)) == u
    ensures u > 0 ==> Digits(u)[0] != '0'
  {
    if u < 10 {
      assert Digits(u)[..0] == "";
    } else {
      DigitsDecode(u / 10);
      assert Digits(u)[..|Digits(u)| - 1] == Digits(u / 10);
    }
  }

  function Pow10(k: nat): nat {
    if k == 0 then 1 else 10 * Pow10(k - 1)
  }

  /** The length of the decimal form is the number of digits. */
  lemma {:induction false} DigitsCount(u: nat, k: nat)
    ensures k > 0 ==> (|Digits(u)| <= k <==> u < Pow10(k))
  {
    if k > 0 {
      if k == 1 {
        assert Pow10(1) == 10 * Pow10(0);
      } else if u >= 10 {
        DigitsCount(u / 10, k - 1);
      } else {
        DigitsCount(u, k - 1);
      }
    }
  }

  /** Two digits go at once. */
  lemma DigitsDrop2(u: nat)
    requires u >= 100
    ensures Digits(u) == Digits(u / 100) + [Digit(u % 100 / 10), Digit(u % 100 % 10)]
  {
    assert u / 10 / 10 == u / 100 && u / 10 % 10 == u % 100 / 10 && u % 10 == u % 100 % 10;
    assert [Digit(u / 10 % 10)] + [Digit(u % 10)] == [Digit(u / 10 % 10), Digit(u % 10)];
  }

  lemma PairMoves(u: nat, done: string)
    requires u >= 100
    ensures |Digits(u)| == |Digits(u / 100)| + 2
    ensures Digits(u / 100) + ([Digit(u % 100 / 10), Digit(u % 100 % 10)] + done) == Digits(u) + done
  {
  }

  /** Four digits go at once. */
  lemma DigitsDrop4(u: nat)
    requires u >= 10000
    ensures |Digits(u)| == |Digits(u / 10000)| + 4
  {
    DigitsDrop2(u);
    DigitsDrop2(u / 100);
    assert u / 100 / 100 == u / 10000;
  }

  method NumDigits(n: nat) returns (d: nat)
    ensures d == |Digits(n)|
  {
    var u := n;
    d := 1;
    while true
      invariant u >= 0 && d >= 1 && d - 1 + |Digits(u)| == |Digits(n)|
      decreases u
    {
      if u < 10 {
        return d;
      }
      if u < 100 {
        return d + 1;
      }
      DigitsDrop2(u);
      if u < 1000 {
        return d + 2;
      }
      if u < 10000 {
        return d + 3;
      }
      DigitsDrop4(u);
      u := u / 10000;
      d := d + 4;
    }
  }

  /** The table of digit pairs, ten to a row. */
  function PairRow(tens: nat): string {
    match tens
    case 0 => "00010203040506070809"
    case 1 => "10111213141516171819"
    case 2 => "20212223242526272829"
    case 3 => "30313233343536373839"
    case 4 => "40414243444546474849"
    case 5 => "50515253545556575859"
    case 6 => "60616263646566676869"
    case 7 => "70717273747576777879"
    case 8 => "80818283848586878889"
    case _ => "90919293949596979899"
  }

  function TwoDigits(i: nat): char
    requires i < 200
  {
    PairRow(i / 20)[i % 20]
  }

  lemma PairsAreDigits(v: nat)
    requires v < 100
    ensures TwoDigits(2 * v) == Digit(v / 10) && TwoDigits(2 * v + 1) == Digit(v % 10)
  {
    var t, o := v / 10, v % 10;
    assert 2 * v == 20 * t + 2 * o;
    assert 2 * v / 20 == t && 2 * v % 20 == 2 * o && (2 * v + 1) / 20 == t && (2 * v + 1) % 20 == 2 * o + 1;
    assert |PairRow(t)| == 20;
    PairInRow(t, o);
  }

  predicate Pair(row: string, o: nat, t: nat)
    requires |row| == 20 && o < 10 && t < 10
  {
    row[2 * o] == Digit(t) && row[2 * o + 1] == Digit(o)
  }

  predicate WholeRow(row: string, t: nat) {
    && t < 10 && |row| == 20
    && Pair(row, 0, t) && Pair(row, 1, t) && Pair(row, 2, t) && Pair(row, 3, t) && Pair(row, 4, t)
    && Pair(row, 5, t) && Pair(row, 6, t) && Pair(row, 7, t) && Pair(row, 8, t) && Pair(row, 9, t)
  }

  lemma Row0() ensures WholeRow(PairRow(0), 0) { }
  lemma Row1() ensures WholeRow(PairRow(1), 1) { }
  lemma Row2() ensures WholeRow(PairRow(2), 2) { }
  lemma Row3() ensures WholeRow(PairRow(3), 3) { }
  lemma Row4() ensures WholeRow(PairRow(4), 4) { }
  lemma Row5() ensures WholeRow(PairRow(5), 5) { }
  lemma Row6() ensures WholeRow(PairRow(6), 6) { }
  lemma Row7() ensures WholeRow(PairRow(7), 7) { }
  lemma Row8() ensures WholeRow(PairRow(8), 8) { }
  lemma Row9() ensures WholeRow(PairRow(9), 9) { }

  lemma PairInRow(t: nat, o: nat)
    requires t < 10 && o < 10
    ensures |PairRow(t)| == 20 && Pair(PairRow(t), o, t)
  {
    match t {
      case 0 => Row0();
      case 1 => Row1();
      case 2 => Row2();
      case 3 => Row3();
      case 4 => Row4();
      case 5 => Row5();
      case 6 => Row6();
      case 7 => Row7();
      case 8 => Row8();
      case _ => Row9();
    }
    PairInWholeRow(PairRow(t), t, o);
  }

  lemma PairInWholeRow(row: string, t: nat, o: nat)
    requires WholeRow(row, t) && o < 10
    ensures Pair(row, o, t)
  {
  }

  /** Two digits out of the table. */
  method PutPair(dst: array<char>, p: nat, v: nat)
    requires p + 2 <= dst.Length && v < 100
    modifies dst
    ensures Written(dst[..], old(dst[..]), p, [Digit(v / 10), Digit(v % 10)])
  {
    PairsAreDigits(v);
    var i := v * 2;
    dst[p] := TwoDigits(i);
    dst[p + 1] := TwoDigits(i + 1);
  }

  /** `now` is `was` with `text` written at `at`. */
  predicate Written(now: string, was: string, at: nat, text: string) {
    at + |text| <= |was| && now == was[..at] + text + was[at + |text|..]
  }

  /** Writes in front of a text written before it. */
  lemma WrittenBefore(now: string, mid: string, was: string, at: nat, front: string, text: string)
    requires Written(mid, was, at + |front|, text) && Written(now, mid, at, front)
    ensures Written(now, was, at, front + text)
  {
  }

  /** The one or two leading digits. */
  method PutLead(dst: array<char>, at: nat, u: nat)
    requires u < 100 && at + |Digits(u)| <= dst.Length
    modifies dst
    ensures Written(dst[..], old(dst[..]), at, Digits(u))
  {
    if u >= 10 {
      assert Digits(u) == [Digit(u / 10), Digit(u % 10)];
      PutPair(dst, at, u);
    } else {
      dst[at] := '0' + u as char;
    }
  }

  /** Two more digits in front of those written. */
  method PutBefore(dst: array<char>, p: nat, v: nat, ghost was: string, ghost done: string)
    requires v < 100 && |was| == dst.Length && Written(dst[..], was, p + 2, done)
    modifies dst
    ensures Written(dst[..], was, p, [Digit(v / 10), Digit(v % 10)] + done)
  {
    ghost var mid := dst[..];
    PutPair(dst, p, v);
    WrittenBefore(dst[..], mid, was, p, [Digit(v / 10), Digit(v % 10)], done);
  }

  /** The digits behind those, two at a time from the end. */
  method PutPairs(dst: array<char>, at: nat, d: nat, n: nat) returns (u: nat, ghost done: string)
    requires d == |Digits(n)| && at + d <= dst.Length
    modifies dst
    ensures u < 100 && Digits(u) + done == Digits(n)
    ensures Written(dst[..], old(dst[..]), at + |Digits(u)|, done)
  {
    u, done := n, "";
    var p := at + d;
    assert Digits(n) + done == Digits(n);
    while u >= 100
      invariant p == at + |Digits(u)| && Digits(u) + done == Digits(n)
      invariant Written(dst[..], old(dst[..]), p, done)
      decreases u
    {
      PairMoves(u, done);
      var v := u % 100;
      u := u / 100;
      p := p - 2;
      PutBefore(dst, p, v, old(dst[..]), done);
      done := [Digit(v / 10), Digit(v % 10)] + done;
    }
  }

  /** Writes the decimal form in place, backwards, if it fits what remains. */
  method WriteUint(dst: array<char>, at: nat, remaining: nat, n: nat) returns (r: int)
    requires at + remaining <= dst.Length
    modifies dst
    ensures r == if |Digits(n)| <= remaining then |Digits(n)| else -1
    ensures r >= 0 ==> Written(dst[..], old(dst[..]), at, Digits(n))
    ensures r < 0 ==> dst[..] == old(dst[..])
  {
    var d := NumDigits(n);
    if d > remaining {
      return -1;
    }
    ghost var done;
    var u;
    u, done := PutPairs(dst, at, d, n);
    ghost var mid := dst[..];
    PutLead(dst, at, u);
    WrittenBefore(dst[..], mid, old(dst[..]), at, Digits(u), done);
    return d;
  }
}
