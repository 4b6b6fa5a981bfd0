/**
 Numerals: the text of a number in a base, the value of a text, and what str2int reads.
 Convert.dfy proves the code of lib/cvt*.c and lib/str2int.c against these functions.
 */
module Digits {
  import opened Wrappers

  const HEXDIGITS: string := "0123456789ABCDEF"

  /** The bases the conversions write. */
  predicate Base(b: nat) { b == 8 || b == 10 || b == 16 }

  function DigitChar(d: nat): char
    requires d < 16
  {
    if d < 10 then (48 + d) as char else (55 + d) as char
  }

  /** Position of a character in hexdigits, or -1. */
  function DigitOf(ch: char): (d: int)
    ensures -1 <= d < 16
    ensures d >= 0 ==> DigitChar(d) == ch
  {
    if '0' <= ch <= '9' then ch as int - 48 else if 'A' <= ch <= 'F' then ch as int - 55 else -1
  }

  /** The shortest numeral of n. */
  function Numeral(n: nat, b: nat): string
    requires Base(b)
  {
    (if n / b == 0 then "" else Numeral(n / b, b)) + [DigitChar(n % b)]
  }

  /** The number a digit string denotes. */
  function Eval(ds: string, b: nat): int {
    if ds == "" then 0 else Eval(ds[..|ds| - 1], b) * b + DigitOf(ds[|ds| - 1])
  }

  ghost predicate AllDigits(ds: string, b: nat) {
    forall i :: 0 <= i < |ds| ==> 0 <= DigitOf(ds[i]) < b
  }

  // ---- the numeral of a number ---------------------------------------------------------

  lemma DigitBack(d: nat)
    requires d < 16
    ensures DigitOf(DigitChar(d)) == d
  {
  }

  /** The numeral consists of digits, denotes the number, and has no leading zero. */
  lemma {:induction false} NumeralExact(n: nat, b: nat)
    requires Base(b)
    ensures AllDigits(Numeral(n, b), b) && Numeral(n, b) != ""
    ensures Eval(Numeral(n, b), b) == n
    ensures Numeral(n, b)[0] == '0' ==> n == 0 && Numeral(n, b) == "0"
  {
    NumeralStep(n, b);
    if n / b != 0 { NumeralExact(n / b, b); }
    NumeralLast(n, n / b, n % b, b);
  }

  lemma NumeralStep(n: nat, b: nat)
    requires Base(b)
    ensures n / b >= 0 && 0 <= n % b < b && n == n / b * b + n % b
    ensures Numeral(n, b) == (if n / b == 0 then "" else Numeral(n / b, b)) + [DigitChar(n % b)]
    ensures n / b != 0 ==> n / b < n
  {
  }

  lemma NumeralLast(n: nat, q: nat, d: nat, b: nat)
    requires Base(b) && d < b && n == q * b + d
    requires Numeral(n, b) == (if q == 0 then "" else Numeral(q, b)) + [DigitChar(d)]
    requires q != 0 ==> AllDigits(Numeral(q, b), b) && Numeral(q, b) != "" && Eval(Numeral(q, b), b) == q
    requires q != 0 ==> Numeral(q, b)[0] != '0'
    ensures AllDigits(Numeral(n, b), b) && Eval(Numeral(n, b), b) == n
    ensures Numeral(n, b)[0] == '0' ==> n == 0 && Numeral(n, b) == "0"
  {
    DigitBack(d);
    var t := if q == 0 then "" else Numeral(q, b);
    AppendDigit(t, DigitChar(d), b);
  }

  lemma AppendDigit(t: string, ch: char, b: nat)
    requires AllDigits(t, b) && 0 <= DigitOf(ch) < b
    ensures AllDigits(t + [ch], b) && Eval(t + [ch], b) == Eval(t, b) * b + DigitOf(ch)
  {
    assert (t + [ch])[..|t|] == t;
  }

  function Power(b: nat, k: nat): nat { if k == 0 then 1 else b * Power(b, k - 1) }

  lemma DivLess(n: nat, b: nat, p: nat)
    requires Base(b) && n < b * p
    ensures n / b < p
  {
  }

  lemma {:induction false} NumeralLength(n: nat, b: nat, k: nat)
    requires Base(b) && k > 0 && n < Power(b, k)
    ensures 0 < |Numeral(n, b)| <= k
  {
    if n / b != 0 {
      DivLess(n, b, Power(b, k - 1));
      NumeralLength(n / b, b, k - 1);
    }
  }

  /** No digit string of the same value is shorter. */
  lemma {:induction false} NumeralShortest(n: nat, b: nat, ds: string)
    requires Base(b) && AllDigits(ds, b) && ds != "" && Eval(ds, b) == n
    ensures |Numeral(n, b)| <= |ds|
  {
    if n / b != 0 {
      var t := ds[..|ds| - 1];
      assert forall i :: 0 <= i < |t| ==> t[i] == ds[i];
      EvalSign(t, b);
      assert Eval(t, b) == n / b by { DivIs(n, b, Eval(t, b), DigitOf(ds[|ds| - 1])); }
      NumeralShortest(n / b, b, t);
    }
  }

  lemma DivIs(n: nat, b: nat, q: int, d: int)
    requires Base(b) && n == q * b + d && 0 <= d < b
    ensures n / b == q
  {
  }

  lemma {:induction false} EvalSign(ds: string, b: nat)
    requires AllDigits(ds, b)
    ensures Eval(ds, b) >= 0
  {
    if ds != "" {
      var t := ds[..|ds| - 1];
      assert forall i :: 0 <= i < |t| ==> t[i] == ds[i];
      EvalSign(t, b);
      assert 0 <= DigitOf(ds[|ds| - 1]);
      Product(Eval(t, b), b);
    }
  }

  lemma Product(x: nat, b: nat)
    ensures x * b >= 0
  {
  }

  // ---- what str2int reads -----------------------------------------------------------------

  /** UCASE */
  function Upper(ch: char): char { if 'a' <= ch <= 'z' then (ch as int - 32) as char else ch }

  /** The signed 8-bit character with the same low bits. */
  function SignedChar(x: int): (r: int)
    ensures -128 <= r < 128 && (x - r) % 256 == 0
  {
    var u := x % 256;
    if u < 128 then u else u - 256
  }

  /** bchar: the code of the largest digit character of a base. */
  function MaxCode(b: int): int {
    if b == 16 then 'F' as int else if b == 10 then '9' as int else SignedChar('0' as int + b - 1)
  }

  /** The digit str2int takes a character for, or -1 when it stops there. */
  function Taken(ch: char, b: int): int {
    var d := DigitOf(Upper(ch));
    if d >= 0 && Upper(ch) as int <= MaxCode(b) then d else -1
  }

  /** In terms of the characters: in base 16 '0' to '9', 'A' to 'F' and 'a' to 'f' are worth 0 to 15; in
      a smaller base only decimal digits count, and only those below the base. */
  lemma TakenCodes(ch: char, b: int)
    requires 2 <= b <= 16
    ensures '0' <= ch <= '9' ==> Taken(ch, b) == if ch as int - 48 < b then ch as int - 48 else -1
    ensures 'A' <= ch <= 'F' ==> Taken(ch, b) == if b == 16 then ch as int - 55 else -1
    ensures 'a' <= ch <= 'f' ==> Taken(ch, b) == if b == 16 then ch as int - 87 else -1
    ensures !('0' <= ch <= '9' || 'A' <= ch <= 'F' || 'a' <= ch <= 'f') ==> Taken(ch, b) == -1
  {
  }

  /** The digits that are written, as characters. */
  lemma DigitCodes(d: nat)
    requires d < 16
    ensures DigitChar(d) == "0123456789ABCDEF"[d]
  {
  }

  /** The conversion loop: from `num`, read digits until something else, in 32-bit arithmetic. */
  function Read(s: string, b: int, num: int): int {
    if s == "" || Taken(s[0], b) < 0 then num else Read(s[1..], b, Wrap32(num * b + Taken(s[0], b)))
  }

  /** "0x" or "0X" in base 16, "0b" or "0B" in base 2. */
  predicate Prefixed(s: string, b: int) {
    && |s| >= 2 && s[0] == '0'
    && ((b == 16 && (s[1] == 'x' || s[1] == 'X')) || (b == 2 && (s[1] == 'b' || s[1] == 'B')))
  }

  /** str2int of a string (without its NUL), in any base. */
  function StrToInt(s: string, b: int): int {
    var neg := s != "" && s[0] == '-';
    var t := if neg then s[1..] else s;
    var num := Read(if Prefixed(t, b) then t[2..] else t, b, 0);
    Wrap32(num * if neg then -1 else 1)
  }

  lemma WrapSame(x: int, k: int)
    ensures Wrap32(x + k * TWO_32) == Wrap32(x)
  {
    assert (x + k * TWO_32) % TWO_32 == x % TWO_32;
  }

  /** Wrapping early does not matter: only the value modulo 2^32 counts. */
  lemma WrapAgain(x: int, b: int, d: int)
    ensures Wrap32(Wrap32(x) * b + d) == Wrap32(x * b + d)
  {
    var k := (x - Wrap32(x)) / TWO_32;
    assert x == Wrap32(x) + k * TWO_32;
    Distribute(Wrap32(x), k, b);
    WrapSame(Wrap32(x) * b + d, k * b);
  }

  lemma Distribute(w: int, k: int, b: int)
    ensures (w + k * TWO_32) * b == w * b + (k * b) * TWO_32
  {
  }

  /** Reading stops at the first character that is no digit of the base. */
  predicate Stops(rest: string, b: int) { rest == "" || Taken(rest[0], b) < 0 }

  /** Only characters that str2int takes for digits, of either case. */
  ghost predicate AllTaken(ds: string, b: int) {
    forall i :: 0 <= i < |ds| ==> Taken(ds[i], b) >= 0
  }

  /** What they add up to, without wrapping. */
  function Value(ds: string, b: int): int {
    if ds == "" then 0 else Value(ds[..|ds| - 1], b) * b + Taken(ds[|ds| - 1], b)
  }

  lemma {:induction false} ReadAppend(a: string, c: string, b: int, num: int)
    requires AllTaken(a, b)
    ensures Read(a + c, b, num) == Read(c, b, Read(a, b, num))
  {
    if a == "" {
      assert a + c == c;
    } else {
      assert (a + c)[1..] == a[1..] + c;
      ReadAppend(a[1..], c, b, Wrap32(num * b + Taken(a[0], b)));
    }
  }

  /** A run of digits, whatever its length, reads as its value modulo 2^32. */
  lemma {:induction false} ReadDigits(ds: string, rest: string, b: int)
    requires AllTaken(ds, b) && Stops(rest, b)
    ensures Read(ds + rest, b, 0) == Wrap32(Value(ds, b))
    decreases |ds|
  {
    if ds == "" {
      assert ds + rest == rest;
    } else {
      var n := |ds| - 1;
      var t := ds[..n];
      assert AllTaken(t, b);
      ReadDigits(t, "", b);
      assert t + "" == t;
      ReadJoined(t, ds[n], rest, b, Value(t, b));
      LastApart(ds, n, rest);
    }
  }

  lemma LastApart(ds: string, n: nat, rest: string)
    requires n + 1 == |ds|
    ensures ds + rest == ds[..n] + ([ds[n]] + rest)
  {
  }

  lemma ReadJoined(t: string, ch: char, rest: string, b: int, v: int)
    requires AllTaken(t, b) && Taken(ch, b) >= 0 && Stops(rest, b) && Read(t, b, 0) == Wrap32(v)
    ensures Read(t + ([ch] + rest), b, 0) == Wrap32(v * b + Taken(ch, b))
  {
    ReadAppend(t, [ch] + rest, b, 0);
    ReadOne(ch, rest, b, Wrap32(v));
    WrapAgain(v, b, Taken(ch, b));
  }

  lemma ReadOne(ch: char, rest: string, b: int, num: int)
    requires Taken(ch, b) >= 0 && Stops(rest, b)
    ensures Read([ch] + rest, b, num) == Wrap32(num * b + Taken(ch, b))
  {
    assert ([ch] + rest)[1..] == rest;
  }

  /** A sign or none, a prefix or none, digits, and a rest that does not go on with a digit. */
  ghost predicate Parsed(s: string, neg: bool, pre: string, ds: string, rest: string, b: int) {
    && s == (if neg then "-" else "") + (pre + (ds + rest))
    && AllTaken(ds, b) && Stops(rest, b)
    && (pre == "" || (Prefixed(pre, b) && |pre| == 2))
    && (pre == "" ==> !Prefixed(ds + rest, b) && (neg || ds + rest == "" || (ds + rest)[0] != '-'))
  }

  /** The result is the value of the digits, negated after '-', modulo 2^32. */
  lemma {:induction false} StrToIntIs(s: string, neg: bool, pre: string, ds: string, rest: string, b: int)
    requires Parsed(s, neg, pre, ds, rest, b)
    ensures StrToInt(s, b) == Wrap32(if neg then -Value(ds, b) else Value(ds, b))
  {
    var t := pre + (ds + rest);
    assert if neg then s[0] == '-' && s[1..] == t else s == t;
    if pre == "" {
      assert t == ds + rest;
    } else {
      assert t[0] == pre[0] && t[1] == pre[1] && t[2..] == ds + rest;
    }
    ReadDigits(ds, rest, b);
    WrapAgain(Value(ds, b), 1, 0);
    WrapNegated(Value(ds, b));
  }

  /** The same letter, or its other case. */
  predicate SameLetter(x: char, y: char) {
    x == y || ('a' <= y <= 'z' && x as int == y as int - 32) || ('a' <= x <= 'z' && y as int == x as int - 32)
  }

  /** The case of the letters does not matter, in digits or prefix. */
  lemma CaseBlind(s: string, t: string, b: int)
    requires |s| == |t| && forall i :: 0 <= i < |s| ==> SameLetter(s[i], t[i])
    ensures StrToInt(s, b) == StrToInt(t, b)
  {
    var neg := s != "" && s[0] == '-';
    assert neg == (t != "" && t[0] == '-');
    var s1, t1 := if neg then s[1..] else s, if neg then t[1..] else t;
    assert Prefixed(s1, b) == Prefixed(t1, b);
    ReadBlind(if Prefixed(s1, b) then s1[2..] else s1, if Prefixed(t1, b) then t1[2..] else t1, b, 0);
  }

  lemma {:induction false} ReadBlind(s: string, t: string, b: int, num: int)
    requires |s| == |t| && forall i :: 0 <= i < |s| ==> SameLetter(s[i], t[i])
    ensures Read(s, b, num) == Read(t, b, num)
    decreases |s|
  {
    if s != "" {
      assert SameLetter(s[0], t[0]);
      assert Taken(s[0], b) == Taken(t[0], b);
      if Taken(s[0], b) >= 0 { ReadBlind(s[1..], t[1..], b, Wrap32(num * b + Taken(s[0], b))); }
    }
  }

  lemma FfIs255()
    ensures StrToInt("ff", 16) == 255 == StrToInt("0xFF", 16)
  {
    assert Read("f", 16, 15) == Read("", 16, 255) == 255;
    assert "ff"[1..] == "f" && "FF"[1..] == "F" && "0xFF"[2..] == "FF";
    assert Read("ff", 16, 0) == Read("f", 16, 15);
    assert Read("F", 16, 15) == Read("", 16, 255) == 255;
    assert Read("FF", 16, 0) == Read("F", 16, 15);
  }

  /** Every string takes that form. */
  lemma EveryString(s: string, b: int) returns (neg: bool, pre: string, ds: string, rest: string)
    ensures Parsed(s, neg, pre, ds, rest, b)
  {
    neg := s != "" && s[0] == '-';
    var t := if neg then s[1..] else s;
    assert s == (if neg then "-" else "") + t;
    pre := if Prefixed(t, b) then t[..2] else "";
    var u := t[|pre|..];
    assert t == pre + u;
    ds, rest := Digitwise(u, b);
  }

  /** As many digits as there are. */
  lemma {:induction false} Digitwise(u: string, b: int) returns (ds: string, rest: string)
    ensures u == ds + rest && AllTaken(ds, b) && Stops(rest, b)
  {
    if Stops(u, b) {
      ds, rest := "", u;
    } else {
      ds, rest := Digitwise(u[1..], b);
      ds := [u[0]] + ds;
    }
  }

  // ---- numerals are read as what they denote -------------------------------------------------

  /** The bases with numerals that str2int reads. */
  predicate ReadBase(b: nat) { b == 2 || Base(b) }

  lemma TakenDigits(ds: string, b: nat)
    requires ReadBase(b) && AllDigits(ds, b)
    ensures AllTaken(ds, b) && forall i :: 0 <= i < |ds| ==> Taken(ds[i], b) == DigitOf(ds[i])
  {
  }

  lemma {:induction false} ValueIsEval(ds: string, b: nat)
    requires ReadBase(b) && AllDigits(ds, b)
    ensures Value(ds, b) == Eval(ds, b)
  {
    if ds != "" {
      var t := ds[..|ds| - 1];
      assert AllDigits(t, b) by { assert forall i :: 0 <= i < |t| ==> t[i] == ds[i]; }
      ValueIsEval(t, b);
      TakenDigits(ds, b);
    }
  }

  /** No digit string looks like it starts with a sign or a prefix. */
  lemma PlainStart(ds: string, b: nat)
    requires ReadBase(b) && AllDigits(ds, b) && ds != ""
    ensures ds[0] != '-' && !Prefixed(ds, b)
  {
    assert 0 <= DigitOf(ds[0]) < b;
    if |ds| >= 2 { assert 0 <= DigitOf(ds[1]) < b; }
  }

  lemma SignedDigits(neg: bool, ds: string, b: nat)
    requires ReadBase(b) && AllDigits(ds, b) && ds != ""
    ensures StrToInt((if neg then "-" else "") + ds, b) == Wrap32(if neg then -Eval(ds, b) else Eval(ds, b))
  {
    PlainStart(ds, b);
    TakenDigits(ds, b);
    ValueIsEval(ds, b);
    assert ds + "" == ds && "" + (ds + "") == ds;
    StrToIntIs((if neg then "-" else "") + ds, neg, "", ds, "", b);
  }

  lemma WrapNegated(x: int)
    ensures Wrap32(Wrap32(x) * -1) == Wrap32(-x)
  {
    var k := (x - Wrap32(x)) / TWO_32;
    assert x == Wrap32(x) + k * TWO_32;
    assert Wrap32(x) * -1 == -x + k * TWO_32;
    WrapSame(-x, k);
  }

  // ---- round trips --------------------------------------------------------------------------

  /** The text cvtdec writes for an int32. */
  function DecText(v: int): string {
    if v < 0 then "-" + Numeral(-v, 10) else Numeral(v, 10)
  }

  predicate IsInt32(v: int) { -TWO_31 <= v < TWO_31 }

  /** str2int undoes cvtdec on every int32, INT_MIN included. */
  lemma DecRoundTrip(v: int)
    requires IsInt32(v)
    ensures StrToInt(DecText(v), 10) == v
  {
    var n := if v < 0 then -v else v;
    NumeralExact(n, 10);
    SignedDigits(v < 0, Numeral(n, 10), 10);
    assert "" + Numeral(n, 10) == Numeral(n, 10);
  }

  /** str2int undoes cvtuns and cvthex modulo 2^32. */
  lemma UnsignedRoundTrip(v: nat, b: nat)
    requires v < TWO_32 && Base(b)
    ensures StrToInt(Numeral(v, b), b) == Wrap32(v)
  {
    NumeralExact(v, b);
    SignedDigits(false, Numeral(v, b), b);
    assert "" + Numeral(v, b) == Numeral(v, b);
  }

  /** What cvtoct actually writes: after the two topmost bits it shifts by three, so bit 29 is lost
      and the other bits move up one place. */
  function OctSeen(v: nat): nat { v / 0x4000_0000 * 0x4000_0000 + v % 0x2000_0000 * 2 }

  /** So the octal round trip works for multiples of 2^30 and for no other number. */
  lemma OctRoundTrip(v: nat)
    requires v < TWO_32
    ensures StrToInt(Numeral(OctSeen(v), 8), 8) == Wrap32(v) <==> v % 0x4000_0000 == 0
  {
    OctSeenBound(v);
    UnsignedRoundTrip(OctSeen(v), 8);
    WrapDistinct(OctSeen(v), v);
  }

  lemma OctSeenBound(v: nat)
    requires v < TWO_32
    ensures OctSeen(v) < TWO_32 && (OctSeen(v) == v <==> v % 0x4000_0000 == 0)
  {
  }

  lemma WrapDistinct(x: nat, y: nat)
    requires x < TWO_32 && y < TWO_32
    ensures Wrap32(x) == Wrap32(y) <==> x == y
  {
  }

  /** For example 1 is written as "2". */
  lemma OctOfOne()
    ensures Numeral(OctSeen(1), 8) == "2" && StrToInt("2", 8) == 2
  {
    assert OctSeen(1) == 2;
    UnsignedRoundTrip(2, 8);
  }

  /** Every text fits the 12-byte buffer of sprint, with its NUL. */
  lemma TextsFit(v: int)
    ensures IsInt32(v) ==> |DecText(v)| + 1 <= 12
    ensures 0 <= v < TWO_32 ==> |Numeral(v, 10)| + 1 <= 12 && |Numeral(v, 16)| + 1 <= 12
    ensures 0 <= v < TWO_32 ==> |Numeral(OctSeen(v), 8)| + 1 <= 12
  {
    Powers();
    if IsInt32(v) { NumeralLength(if v < 0 then -v else v, 10, 10); }
    if 0 <= v < TWO_32 {
      NumeralLength(v, 10, 10);
      NumeralLength(v, 16, 8);
      NumeralLength(OctSeen(v), 8, 11);
    }
  }

  lemma Powers()
    ensures Power(10, 10) == 100_0000_0000 && Power(16, 8) == TWO_32 && Power(8, 11) == 0x2_0000_0000
  {
    assert Power(10, 3) == 1000;
    assert Power(10, 6) == 100_0000;
    assert Power(16, 3) == 0x1000;
    assert Power(16, 6) == 0x100_0000;
    assert Power(8, 3) == 512;
    assert Power(8, 6) == 0x4_0000;
    assert Power(8, 9) == 0x800_0000;
  }
}
