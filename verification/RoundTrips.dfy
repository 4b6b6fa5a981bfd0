/**
 The conversions and str2int one after the other, on the same buffer: what a program reads
 back that has written a number into the 12 bytes sprint has for it.
 */
module RoundTrips {
  import opened Wrappers
  import opened Digits
  import opened Convert

  /** What was written with a NUL is there to be read. */
  lemma WroteString(was: seq<char>, now: seq<char>, t: string)
    requires Wrote(was, now, 0, t + "\0") && '\0' !in t
    ensures StringAt(now, 0, t)
  {
    assert now[..|t| + 1] == t + "\0";
    assert now[0..|t|] == now[..|t| + 1][..|t|];
    assert now[|t|] == now[..|t| + 1][|t|];
  }

  lemma NoNul(n: nat, b: nat)
    requires Base(b)
    ensures '\0' !in Numeral(n, b)
  {
    NumeralExact(n, b);
    assert DigitOf('\0') == -1;
  }

  /** cvtdec, then str2int with base 10: the number itself. */
  method DecBack(buf: array<char>, v: int) returns (r: int)
    requires IsInt32(v) && buf.Length >= 12
    modifies buf
    ensures r == v
  {
    TextsFit(v);
    var _ := Cvtdec(buf, v);
    NoNul(if v < 0 then -v else v, 10);
    WroteString(old(buf[..]), buf[..], DecText(v));
    r := Str2Int(buf, 10, DecText(v));
    DecRoundTrip(v);
  }

  /** cvtuns, then str2int with base 10: the number as an int32. */
  method UnsBack(buf: array<char>, v: nat) returns (r: int)
    requires v < TWO_32 && buf.Length >= 12
    modifies buf
    ensures r == Wrap32(v)
  {
    TextsFit(v);
    var _ := Cvtuns(buf, v);
    NoNul(v, 10);
    WroteString(old(buf[..]), buf[..], Numeral(v, 10));
    r := Str2Int(buf, 10, Numeral(v, 10));
    UnsignedRoundTrip(v, 10);
  }

  /** cvthex, then str2int with base 16. */
  method HexBack(buf: array<char>, v: nat) returns (r: int)
    requires v < TWO_32 && buf.Length >= 12
    modifies buf
    ensures r == Wrap32(v)
  {
    TextsFit(v);
    var _ := Cvthex(buf, v);
    NoNul(v, 16);
    WroteString(old(buf[..]), buf[..], Numeral(v, 16));
    r := Str2Int(buf, 16, Numeral(v, 16));
    UnsignedRoundTrip(v, 16);
  }

  /** cvtoct, then str2int with base 8: right for multiples of 2^30 and for no other number. */
  method OctBack(buf: array<char>, v: nat) returns (r: int)
    requires v < TWO_32 && buf.Length >= 12
    modifies buf
    ensures r == Wrap32(v) <==> v % 0x4000_0000 == 0
  {
    TextsFit(v);
    var _ := Cvtoct(buf, v);
    NoNul(OctSeen(v), 8);
    WroteString(old(buf[..]), buf[..], Numeral(OctSeen(v), 8));
    r := Str2Int(buf, 8, Numeral(OctSeen(v), 8));
    OctRoundTrip(v);
  }
}
