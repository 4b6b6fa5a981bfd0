/**
 lib/cvtdec0.c, cvtdec.c, cvtuns0.c, cvtuns.c, cvthex.c, cvtoct.c and str2int.c: the code, which
 writes into the caller's buffer through an advancing pointer, against the numerals of Digits.
 A pointer into a buffer is an index.
 */
module Convert {
  import opened Wrappers
  import opened Digits
  import opened Division

  /** The buffer holds t at `at` and is otherwise as it was. */
  ghost predicate Wrote(was: seq<char>, now: seq<char>, at: nat, t: string) {
    at + |t| <= |was| && now == was[..at] + t + was[at + |t|..]
  }

  lemma WroteMore(was: seq<char>, now: seq<char>, at: nat, t: string, ch: char)
    requires Wrote(was, now, at, t) && at + |t| < |was|
    ensures Wrote(was, now[at + |t| := ch], at, t + [ch])
  {
    assert |now| == |was|;
    assert now[at + |t| := ch] == was[..at] + (t + [ch]) + was[at + |t| + 1..];
  }

  lemma WroteNothing(was: seq<char>, at: nat)
    requires at <= |was|
    ensures Wrote(was, was, at, "")
  {
  }

  /** t was written right after u. */
  lemma WroteBoth(was: seq<char>, mid: seq<char>, now: seq<char>, at: nat, u: string, t: string)
    requires Wrote(was, mid, at, u) && Wrote(mid, now, at + |u|, t)
    ensures Wrote(was, now, at, u + t)
  {
    assert |mid| == |was|;
    assert mid[..at + |u|] == was[..at] + u;
    assert mid[at + |u| + |t|..] == was[at + |u| + |t|..];
  }

  /** `*bp++ = ch`, in a buffer that has received t so far. */
  method Put(buf: array<char>, bp: nat, ch: char, ghost was: seq<char>, ghost at: nat, ghost t: string)
    returns (next: nat)
    requires Wrote(was, buf[..], at, t) && bp == at + |t| < buf.Length
    modifies buf
    ensures next == bp + 1 && Wrote(was, buf[..], at, t + [ch])
  {
    WroteMore(was, buf[..], at, t, ch);
    buf[bp] := ch;
    next := bp + 1;
  }

  // ---- decimal ---------------------------------------------------------------------------

  /** C's division by ten. */
  function Tenth(v: int): int { if v < 0 then -(-v / 10) else v / 10 }

  /** What cvtdec0 writes: the numeral of a value that is not negative, the digits of 2^31 for
      anything from -10 down, and one character below '0' for the rest. */
  function Dec0Text(v: int): string {
    if v >= 0 then Numeral(v, 10)
    else if v <= -10 then Numeral(0x8000_0000, 10)
    else [(48 + v) as char]
  }

  lemma Dec0Step(v: int)
    requires IsInt32(v)
    ensures var q, w := if Tenth(v) < 0 then 214748364 else Tenth(v), if Tenth(v) < 0 then 8 else v;
      Dec0Text(v) == (if q != 0 then Dec0Text(q) else "") + [(48 + (w - Tenth(w) * 10)) as char]
  {
  }

  /** cvtdec0 */
  method Cvtdec0(buf: array<char>, at: nat, v: int) returns (end: nat)
    requires IsInt32(v) && at + |Dec0Text(v)| <= buf.Length
    modifies buf
    ensures end == at + |Dec0Text(v)| && Wrote(old(buf[..]), buf[..], at, Dec0Text(v))
    decreases if v < 0 then TWO_31 else v
  {
    Dec0Step(v);
    var quotient, value := Tenth(v), v;
    if quotient < 0 {
      quotient := 214748364;
      value := 8;
    }
    end := at;
    ghost var t := if quotient != 0 then Dec0Text(quotient) else "";
    if quotient != 0 { end := Cvtdec0(buf, at, quotient); } else { WroteNothing(buf[..], at); }
    end := Put(buf, end, (48 + (value - Tenth(value) * 10)) as char, old(buf[..]), at, t);
  }

  /** cvtdec: the text and a NUL, and the length of the text. */
  method Cvtdec(buf: array<char>, v: int) returns (length: nat)
    requires IsInt32(v) && |DecText(v)| < buf.Length
    modifies buf
    ensures length == |DecText(v)| && Wrote(old(buf[..]), buf[..], 0, DecText(v) + "\0")
  {
    var bp, value := 0, v;
    WroteNothing(buf[..], 0);
    if value < 0 {
      bp := Put(buf, bp, '-', buf[..], 0, "");
      assert "" + ['-'] == "-";
      value := Wrap32(-value);
    }
    ghost var sign, mid := if v < 0 then "-" else "", buf[..];
    NegatedText(v, value);
    bp := Cvtdec0(buf, bp, value);
    WroteBoth(old(buf[..]), mid, buf[..], 0, sign, Dec0Text(value));
    length := bp;
    bp := Put(buf, bp, '\0', old(buf[..]), 0, DecText(v));
  }

  /** After the sign, cvtdec0 writes the rest of the text, even when -value overflows. */
  lemma NegatedText(v: int, value: int)
    requires IsInt32(v) && value == if v < 0 then Wrap32(-v) else v
    ensures IsInt32(value) && (if v < 0 then "-" else "") + Dec0Text(value) == DecText(v)
  {
    assert v == -TWO_31 ==> value == -TWO_31 && -v == 0x8000_0000;
    assert v >= 0 ==> "" + Numeral(v, 10) == Numeral(v, 10);
  }

  /** cvtuns0 */
  method Cvtuns0(buf: array<char>, at: nat, value: nat) returns (end: nat)
    requires value < TWO_32 && at + |Numeral(value, 10)| <= buf.Length
    modifies buf
    ensures end == at + |Numeral(value, 10)| && Wrote(old(buf[..]), buf[..], at, Numeral(value, 10))
  {
    var quotient := value / 10;
    end := at;
    ghost var t := if quotient != 0 then Numeral(quotient, 10) else "";
    if quotient != 0 { end := Cvtdec0(buf, at, quotient); } else { WroteNothing(buf[..], at); }
    end := Put(buf, end, (48 + value % 10) as char, old(buf[..]), at, t);
  }

  /** cvtuns */
  method Cvtuns(buf: array<char>, value: nat) returns (length: nat)
    requires value < TWO_32 && |Numeral(value, 10)| < buf.Length
    modifies buf
    ensures length == |Numeral(value, 10)| && Wrote(old(buf[..]), buf[..], 0, Numeral(value, 10) + "\0")
  {
    length := Cvtuns0(buf, 0, value);
    var _ := Put(buf, length, '\0', old(buf[..]), 0, Numeral(value, 10));
  }

  // ---- hexadecimal and octal: digits come off the top of a shifted word --------------------

  lemma Regroup(a: nat, b: nat, d: nat, lo: nat)
    ensures a * (b * lo) + d * lo == (a * b + d) * lo
  {
  }

  /** Taking v apart by b * lo and then by lo. */
  lemma SplitDigit(v: nat, b: nat, lo: nat)
    requires lo > 0 && b > 0 && b * lo > 0
    ensures v / lo == v / (b * lo) * b + v % (b * lo) / lo
    ensures v % lo == v % (b * lo) % lo
    ensures v % (b * lo) == v % (b * lo) / lo * lo + v % lo
  {
    var a, r := v / (b * lo), v % (b * lo);
    Euclid(v, b * lo);
    Euclid(r, lo);
    Regroup(a, b, r / lo, lo);
    DivUnique(v, lo, a * b + r / lo, r % lo);
  }

  lemma DigitBound(r: nat, b: nat, lo: nat)
    requires lo > 0 && r < b * lo
    ensures r / lo < b
  {
  }

  lemma Scale(d: nat, lo: nat, e: nat, q: nat)
    requires e < lo && q > 0
    ensures (d * lo + e) * q == d * (lo * q) + e * q
    ensures e * q < lo * q
  {
  }

  /** A word holding the low digits of v shifted up: its top digit, and what is left. */
  lemma TopDigit(v: nat, b: nat, lo: nat, q: nat, top: nat)
    requires b > 0 && lo > 0 && q > 0 && lo * q == top && b * lo > 0
    ensures var word := v % (b * lo) * q;
      && word / top < b && word / top == v % (b * lo) / lo && word % top == v % lo * q
      && v / lo == v / (b * lo) * b + word / top
  {
    SplitDigit(v, b, lo);
    var d := v % (b * lo) / lo;
    DigitBound(v % (b * lo), b, lo);
    Scale(d, lo, v % lo, q);
    DivUnique(v % (b * lo) * q, top, d, v % lo * q);
  }

  lemma {:induction false} PowerSum(b: nat, j: nat, k: nat)
    ensures Power(b, j) * Power(b, k) == Power(b, j + k)
  {
    if j > 0 {
      PowerSum(b, j - 1, k);
      Assoc(Power(b, j - 1), b, Power(b, k));
      Assoc(Power(b, j - 1), Power(b, k), b);
    }
  }

  lemma {:induction false} PowerPositive(b: nat, k: nat)
    requires b > 0
    ensures Power(b, k) > 0
  {
    if k > 0 { PowerPositive(b, k - 1); }
  }

  /** The word after i shifts by four. */
  function HexWord(v: nat, i: nat): nat
    requires i <= 8
  {
    PowerPositive(16, 8 - i);
    v % Power(16, 8 - i) * Power(16, i)
  }

  /** The digits already shifted out. */
  function HexDone(v: nat, i: nat): nat
    requires i <= 8
  {
    PowerPositive(16, 8 - i);
    v / Power(16, 8 - i)
  }

  lemma HexShift(v: nat, i: nat)
    requires i < 8
    ensures var word := HexWord(v, i);
      && word / 0x1000_0000 < 16 && word * 16 % TWO_32 == HexWord(v, i + 1)
      && HexDone(v, i + 1) == HexDone(v, i) * 16 + word / 0x1000_0000
  {
    Powers16();
    var lo, q := Power(16, 7 - i), Power(16, i);
    PowerSum(16, 7 - i, i);
    PowerPositive(16, 7 - i);
    PowerPositive(16, i);
    assert Power(16, 8 - i) == 16 * lo && Power(16, i + 1) == 16 * q;
    TopDigit(v, 16, lo, q, 0x1000_0000);
    ShiftOut(HexWord(v, i), 16, 0x1000_0000);
    Assoc(v % lo, q, 16);
  }

  lemma Assoc(x: nat, q: nat, b: nat)
    ensures x * q * b == x * (b * q)
  {
  }

  lemma Powers16()
    ensures Power(16, 7) == 0x1000_0000
  {
    assert Power(16, 3) == 0x1000;
    assert Power(16, 5) == 0x10_0000;
  }

  lemma ShiftOut(word: nat, b: nat, top: nat)
    requires (b == 16 && top == 0x1000_0000) || (b == 8 && top == 0x2000_0000)
    ensures word * b % TWO_32 == word % top * b
  {
  }

  lemma HexEnds(v: nat)
    requires v < TWO_32
    ensures HexWord(v, 0) == v && HexDone(v, 0) == 0 && HexDone(v, 8) == v
  {
    Powers();
    assert Power(16, 0) == 1;
  }

  /** The digits written so far: none while they would all be zero. */
  function Minimal(n: nat, b: nat): string
    requires Base(b)
  {
    if n == 0 then "" else Numeral(n, b)
  }

  lemma Quotient(hi: nat, d: nat, b: nat)
    requires Base(b) && d < b
    ensures hi * b + d >= 0 && (hi * b + d) / b == hi && (hi * b + d) % b == d
    ensures hi * b + d == 0 <==> hi == 0 && d == 0
  {
  }

  lemma MinimalStep(hi: nat, d: nat, b: nat)
    requires Base(b) && d < b
    ensures Minimal(hi * b + d, b) == if hi == 0 && d == 0 then "" else Minimal(hi, b) + [DigitChar(d)]
    ensures Numeral(hi * b + d, b) == Minimal(hi, b) + [DigitChar(d)]
    ensures hi > 0 ==> Minimal(hi, b) != ""
  {
    Quotient(hi, d, b);
    NumeralStep(hi * b + d, b);
  }

  /** The text after i + 1 of `n` digits, of which the last is always written. */
  function SoFar(done: nat, i: nat, n: nat, b: nat): string
    requires Base(b)
  {
    if i == n then Numeral(done, b) else Minimal(done, b)
  }

  lemma SoFarNext(hi: nat, d: nat, done: nat, i: nat, n: nat, b: nat)
    requires Base(b) && i < n && done == hi * b + d
    ensures SoFar(done, i + 1, n, b) == if i == n - 1 then Numeral(hi * b + d, b) else Minimal(hi * b + d, b)
  {
  }

  lemma {:induction false} LengthGrows(m: nat, n: nat, b: nat)
    requires Base(b) && m <= n
    ensures |Numeral(m, b)| <= |Numeral(n, b)|
  {
    NumeralStep(m, b);
    NumeralStep(n, b);
    DivGrows(m, n, b);
    if m / b != 0 { LengthGrows(m / b, n / b, b); }
  }

  lemma DivGrows(m: nat, n: nat, b: nat)
    requires Base(b) && m <= n
    ensures 0 <= m / b <= n / b
  {
  }

  lemma DoneFits(v: nat, i: nat)
    requires i <= 8
    ensures |Minimal(HexDone(v, i), 16)| <= |Numeral(v, 16)| && HexDone(v, i) <= v
  {
    PowerPositive(16, 8 - i);
    Smaller(v, Power(16, 8 - i));
    LengthGrows(HexDone(v, i), v, 16);
  }

  lemma Smaller(v: nat, p: nat)
    requires p > 0
    ensures v / p <= v
  {
    Euclid(v, p);
    Grows(1, p, v / p);
    assert 1 * (v / p) == v / p && p * (v / p) == v / p * p;
  }

  lemma DigitNext(hi: nat, val: nat, b: nat, last: bool)
    requires Base(b) && val < b
    ensures var t := if last then Numeral(hi * b + val, b) else Minimal(hi * b + val, b);
      t == if Minimal(hi, b) != "" || val != 0 || last then Minimal(hi, b) + [HEXDIGITS[val]] else Minimal(hi, b)
  {
    MinimalStep(hi, val, b);
    assert HEXDIGITS[val] == DigitChar(val);
  }

  /** The body of cvthex's and cvtoct's loops: a digit is stored unless it would lead with a zero. */
  method PutDigit(buf: array<char>, bp: nat, val: nat, last: bool, ghost was: seq<char>, ghost hi: nat, ghost b: nat)
    returns (next: nat)
    requires Base(b) && val < b && Wrote(was, buf[..], 0, Minimal(hi, b)) && bp == |Minimal(hi, b)|
    requires bp != 0 || val != 0 || last ==> bp < buf.Length
    modifies buf
    ensures var t := if last then Numeral(hi * b + val, b) else Minimal(hi * b + val, b);
      Wrote(was, buf[..], 0, t) && next == |t|
  {
    DigitNext(hi, val, b, last);
    next := bp;
    if bp != 0 || val != 0 || last {
      next := Put(buf, bp, HEXDIGITS[val], was, 0, Minimal(hi, b));
    }
  }

  lemma HexTurn(v: nat, i: nat)
    requires v < TWO_32 && i < 8
    ensures HexWord(v, i) / 0x1000_0000 < 16 && HexWord(v, i) * 16 % TWO_32 == HexWord(v, i + 1)
    ensures HexDone(v, i + 1) == HexDone(v, i) * 16 + HexWord(v, i) / 0x1000_0000
    ensures |Minimal(HexDone(v, i), 16)| <= |Numeral(v, 16)|
  {
    HexShift(v, i);
    DoneFits(v, i);
  }

  /** One turn of cvthex's loop. */
  method PutTop(buf: array<char>, stored: nat, value: nat, i: nat, ghost v: nat, ghost was: seq<char>)
    returns (next: nat, shifted: nat)
    requires v < TWO_32 && |Numeral(v, 16)| < buf.Length && i < 8 && value == HexWord(v, i)
    requires var t := SoFar(HexDone(v, i), i, 8, 16); stored == |t| && Wrote(was, buf[..], 0, t)
    modifies buf
    ensures shifted == HexWord(v, i + 1)
    ensures var t := SoFar(HexDone(v, i + 1), i + 1, 8, 16); next == |t| && Wrote(was, buf[..], 0, t)
  {
    HexTurn(v, i);
    var val := value / 0x1000_0000;
    SoFarNext(HexDone(v, i), val, HexDone(v, i + 1), i, 8, 16);
    next := PutDigit(buf, stored, val, i == 7, was, HexDone(v, i), 16);
    shifted := value * 16 % TWO_32;
  }

  /** cvthex */
  method Cvthex(buf: array<char>, v: nat) returns (stored: nat)
    requires v < TWO_32 && |Numeral(v, 16)| < buf.Length
    modifies buf
    ensures stored == |Numeral(v, 16)| && Wrote(old(buf[..]), buf[..], 0, Numeral(v, 16) + "\0")
  {
    stored := 0;
    var value, i := v, 0;
    WroteNothing(buf[..], 0);
    HexEnds(v);
    while i < 8
      invariant 0 <= i <= 8 && value == HexWord(v, i)
      invariant stored == |SoFar(HexDone(v, i), i, 8, 16)|
      invariant Wrote(old(buf[..]), buf[..], 0, SoFar(HexDone(v, i), i, 8, 16))
    {
      stored, value := PutTop(buf, stored, value, i, v, old(buf[..]));
      i := i + 1;
    }
    var _ := Put(buf, stored, '\0', old(buf[..]), 0, Numeral(v, 16));
  }

  /** After the two topmost bits, cvtoct's word holds the low digits of the number it writes, a
      quarter word up: at step i >= 1 the low 11 - i of them. */
  function OctWord(o: nat, i: nat): nat
    requires 1 <= i <= 11
  {
    PowerPositive(8, 11 - i);
    o % Power(8, 11 - i) * (4 * Power(8, i - 1))
  }

  function OctDone(o: nat, i: nat): nat
    requires 1 <= i <= 11
  {
    PowerPositive(8, 11 - i);
    o / Power(8, 11 - i)
  }

  lemma OctShift(o: nat, i: nat)
    requires 1 <= i <= 10
    ensures var word := OctWord(o, i);
      && word / 0x2000_0000 < 8 && word * 8 % TWO_32 == OctWord(o, i + 1)
      && OctDone(o, i + 1) == OctDone(o, i) * 8 + word / 0x2000_0000
  {
    var lo, q := Power(8, 10 - i), 4 * Power(8, i - 1);
    OctScale(i);
    PowerPositive(8, 10 - i);
    PowerPositive(8, i - 1);
    assert Power(8, 11 - i) == 8 * lo && Power(8, i) == 8 * Power(8, i - 1);
    TopDigit(o, 8, lo, q, 0x2000_0000);
    ShiftOut(OctWord(o, i), 8, 0x2000_0000);
    Assoc(o % lo, q, 8);
  }

  lemma OctScale(i: nat)
    requires 1 <= i <= 10
    ensures Power(8, 10 - i) * (4 * Power(8, i - 1)) == 0x2000_0000
  {
    PowerSum(8, 10 - i, i - 1);
    assert Power(8, 3) == 512 && Power(8, 6) == 0x4_0000 && Power(8, 9) == 0x800_0000;
    assert Power(8, 10 - i) * (4 * Power(8, i - 1)) == 4 * (Power(8, 10 - i) * Power(8, i - 1));
  }

  /** The first step takes the two topmost bits but shifts by three. */
  lemma OctStart(v: nat)
    requires v < TWO_32
    ensures v / 0x4000_0000 < 8 && v * 8 % TWO_32 == OctWord(OctSeen(v), 1)
    ensures OctDone(OctSeen(v), 1) == v / 0x4000_0000
  {
    assert Power(8, 3) == 512 && Power(8, 6) == 0x4_0000 && Power(8, 9) == 0x800_0000;
    assert Power(8, 10) == 0x4000_0000 && Power(8, 0) == 1;
    OctTop(v);
  }

  /** Shifting out the three topmost bits, and what OctSeen keeps of the rest. */
  lemma OctTop(v: nat)
    ensures v * 8 % TWO_32 == v % 0x2000_0000 * 8
    ensures OctSeen(v) % 0x4000_0000 == v % 0x2000_0000 * 2 && OctSeen(v) / 0x4000_0000 == v / 0x4000_0000
  {
  }

  /** The word, the three bits cvtoct looks at, and the digits behind it, at step i. */
  function WordAt(v: nat, i: nat): nat
    requires i <= 11
  {
    if i == 0 then v else OctWord(OctSeen(v), i)
  }

  function BitsAt(v: nat, i: nat): nat
    requires i <= 11
  {
    if i == 0 then v / 0x4000_0000 else WordAt(v, i) / 0x2000_0000
  }

  function DoneAt(v: nat, i: nat): nat
    requires i <= 11
  {
    if i == 0 then 0 else OctDone(OctSeen(v), i)
  }

  lemma OctTurn(v: nat, i: nat)
    requires v < TWO_32 && i <= 10
    ensures BitsAt(v, i) < 8 && WordAt(v, i) * 8 % TWO_32 == WordAt(v, i + 1)
    ensures DoneAt(v, i + 1) == DoneAt(v, i) * 8 + BitsAt(v, i)
    ensures BitsAt(v, i + 1) == WordAt(v, i + 1) / 0x2000_0000
    ensures |Minimal(DoneAt(v, i), 8)| <= |Numeral(OctSeen(v), 8)|
  {
    if i == 0 { OctStart(v); } else { OctShift(OctSeen(v), i); OctFits(OctSeen(v), i); }
  }

  lemma OctEnds(v: nat)
    ensures DoneAt(v, 11) == OctSeen(v)
  {
    assert Power(8, 0) == 1;
  }

  lemma OctFits(o: nat, i: nat)
    requires 1 <= i <= 11
    ensures |Minimal(OctDone(o, i), 8)| <= |Numeral(o, 8)|
  {
    PowerPositive(8, 11 - i);
    Smaller(o, Power(8, 11 - i));
    LengthGrows(OctDone(o, i), o, 8);
  }

  /** cvtoct.  The number written is OctSeen(v), which is v only for multiples of 2^30. */
  method Cvtoct(buf: array<char>, v: nat) returns (length: nat)
    requires v < TWO_32 && |Numeral(OctSeen(v), 8)| < buf.Length
    modifies buf
    ensures length == |Numeral(OctSeen(v), 8)|
    ensures Wrote(old(buf[..]), buf[..], 0, Numeral(OctSeen(v), 8) + "\0")
  {
    length := 0;
    var value, val, i := v, v / 0x4000_0000, 0;
    WroteNothing(buf[..], 0);
    while i < 11
      invariant 0 <= i <= 11 && value == WordAt(v, i) && val == BitsAt(v, i)
      invariant length == |SoFar(DoneAt(v, i), i, 11, 8)|
      invariant Wrote(old(buf[..]), buf[..], 0, SoFar(DoneAt(v, i), i, 11, 8))
    {
      OctTurn(v, i);
      SoFarNext(DoneAt(v, i), val, DoneAt(v, i + 1), i, 11, 8);
      length := PutDigit(buf, length, val, i == 10, old(buf[..]), DoneAt(v, i), 8);
      value := value * 8 % TWO_32;
      val := value / 0x2000_0000;
      i := i + 1;
    }
    OctEnds(v);
    var _ := Put(buf, length, '\0', old(buf[..]), 0, Numeral(OctSeen(v), 8));
  }

  // ---- str2int -----------------------------------------------------------------------------

  /** The string at `at`: everything up to the first NUL. */
  ghost predicate StringAt(s: seq<char>, at: nat, t: string) {
    at + |t| < |s| && s[at..at + |t|] == t && s[at + |t|] == '\0' && '\0' !in t
  }

  lemma StringTail(s: seq<char>, at: nat, t: string)
    requires StringAt(s, at, t)
    ensures s[at] == if t == "" then '\0' else t[0]
    ensures t != "" ==> s[at] != '\0' && StringAt(s, at + 1, t[1..])
  {
    if t != "" {
      assert s[at..at + |t|][0] == s[at];
      assert t[0] in t;
      assert s[at + 1..at + |t|] == t[1..];
    }
  }

  /** strchr(hexdigits, ch), as the position found, or 16 for NULL. */
  method FindDigit(ch: char) returns (i: nat)
    ensures i <= 16
    ensures i < 16 ==> DigitOf(ch) == i && HEXDIGITS[i] == ch
    ensures i == 16 ==> DigitOf(ch) == -1
  {
    i := 0;
    while i < |HEXDIGITS| && HEXDIGITS[i] != ch
      invariant i <= 16 && forall j :: 0 <= j < i ==> HEXDIGITS[j] != ch
    {
      i := i + 1;
    }
    if i < 16 { HexDigit(i); } else if DigitOf(ch) >= 0 { HexDigit(DigitOf(ch)); }
  }

  lemma HexDigit(i: nat)
    requires i < 16
    ensures HEXDIGITS[i] == DigitChar(i) && DigitOf(HEXDIGITS[i]) == i
  {
  }

  /** str2int */
  method Str2Int(str: array<char>, base: int, ghost text: string) returns (r: int)
    requires StringAt(str[..], 0, text)
    ensures r == StrToInt(text, base)
  {
    var sign, at := 1, 0;
    ghost var t := text;
    StringTail(str[..], at, t);
    if str[at] == '-' {
      sign := -1;
      at := at + 1;
      t := t[1..];
    }
    var bchar;
    at, bchar, t := Prepare(str, at, base, t);
    var num := Convert(str, at, base, bchar, t);
    r := Wrap32(num * sign);
  }

  /** The largest digit of the base, and the position after any prefix. */
  method Prepare(str: array<char>, start: nat, base: int, ghost t: string)
    returns (at: nat, bchar: int, ghost rest: string)
    requires StringAt(str[..], start, t)
    ensures StringAt(str[..], at, rest) && bchar == MaxCode(base)
    ensures rest == if Prefixed(t, base) then t[2..] else t
  {
    at, bchar, rest := start, '9' as int, t;
    if base != 10 {
      bchar := SignedChar('0' as int + base - 1);
      if base == 16 {
        bchar := 'F' as int;
        at, rest := SkipPrefix(str, at, 'x', 'X', t);
      } else if base == 2 {
        at, rest := SkipPrefix(str, at, 'b', 'B', t);
      }
    }
  }

  /** "0" followed by one of two letters is skipped. */
  method SkipPrefix(str: array<char>, at: nat, lower: char, upper: char, ghost t: string)
    returns (next: nat, ghost rest: string)
    requires StringAt(str[..], at, t) && lower != '\0' && upper != '\0'
    ensures StringAt(str[..], next, rest)
    ensures rest == if |t| >= 2 && t[0] == '0' && (t[1] == lower || t[1] == upper) then t[2..] else t
  {
    StringTail(str[..], at, t);
    next, rest := at, t;
    if str[at] == '0' {
      StringTail(str[..], at + 1, t[1..]);
      if str[at + 1] == lower || str[at + 1] == upper {
        next, rest := at + 2, t[2..];
        assert t[1..][1..] == t[2..];
      }
    }
  }

  /** The conversion loop. */
  method Convert(str: array<char>, start: nat, base: int, bchar: int, ghost t: string) returns (num: int)
    requires StringAt(str[..], start, t) && bchar == MaxCode(base)
    ensures num == Digits.Read(t, base, 0)
  {
    num := 0;
    var at := start;
    ghost var rest := t;
    StringTail(str[..], at, rest);
    while str[at] != '\0'
      invariant 0 <= at < str.Length && StringAt(str[..], at, rest) && (str[at] == '\0' <==> rest == "")
      invariant rest != "" ==> str[at] == rest[0]
      invariant Digits.Read(rest, base, num) == Digits.Read(t, base, 0)
      decreases |rest|
    {
      StringTail(str[..], at, rest);
      var ch := Upper(str[at]);
      var digit := FindDigit(ch);
      if digit == 16 { break; }
      if HEXDIGITS[digit] as int > bchar { break; }
      num := Wrap32(num * base + digit);
      at := at + 1;
      rest := rest[1..];
      StringTail(str[..], at, rest);
    }
  }
}
