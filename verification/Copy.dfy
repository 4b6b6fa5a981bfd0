/**
 lib/memmove.c and lib/blkmov.c over byte-addressed memory.  The two may overlap in any way; no
 block wraps around the end of memory.
 */
module Copy {

  type Byte = x: int | 0 <= x < 256

  /** Bytes lo..hi of the block at src have arrived at dst, and nothing else has changed. */
  ghost predicate Moved(was: seq<Byte>, now: seq<Byte>, dst: nat, src: nat, lo: int, hi: int) {
    && |now| == |was| && 0 <= lo && src + hi <= |was|
    && forall i :: 0 <= i < |now| ==> CameFrom(was, now, i, Origin(dst, src, lo, hi, i))
  }

  ghost predicate CameFrom(was: seq<Byte>, now: seq<Byte>, i: int, j: int) {
    0 <= i < |now| && 0 <= j < |was| && now[i] == was[j]
  }

  /** Where the byte that ends up at i comes from. */
  function Origin(dst: nat, src: nat, lo: int, hi: int, i: int): int {
    if dst + lo <= i < dst + hi then src + i - dst else i
  }

  /** Byte by byte: the destination holds the bytes the source had, and every other byte is as it was. */
  lemma MovedBytes(was: seq<Byte>, now: seq<Byte>, dst: nat, src: nat, len: nat, k: nat)
    requires Moved(was, now, dst, src, 0, len) && dst + len <= |was|
    ensures k < len ==> now[dst + k] == was[src + k]
    ensures k < |was| && (k < dst || dst + len <= k) ==> now[k] == was[k]
  {
    if k < len { assert CameFrom(was, now, dst + k, Origin(dst, src, 0, len, dst + k)); }
    if k < |was| { assert CameFrom(was, now, k, Origin(dst, src, 0, len, k)); }
  }

  /** The move has only one outcome, so any two ways of moving agree. */
  lemma MovedUnique(was: seq<Byte>, now: seq<Byte>, now': seq<Byte>, dst: nat, src: nat, len: nat)
    requires Moved(was, now, dst, src, 0, len) && Moved(was, now', dst, src, 0, len)
    ensures now == now'
  {
    forall i | 0 <= i < |was| ensures now[i] == now'[i] {
      assert CameFrom(was, now, i, Origin(dst, src, 0, len, i));
      assert CameFrom(was, now', i, Origin(dst, src, 0, len, i));
    }
  }

  /** One more unit of w bytes below, or above, the part already moved: its source is still intact. */
  lemma UnitBelow(was: seq<Byte>, mid: seq<Byte>, now: seq<Byte>, dst: nat, src: nat, at: nat, hi: nat, w: nat)
    requires Moved(was, mid, dst, src, at + w, hi) && at + w <= hi && src < dst && dst + hi <= |was|
    requires Moved(mid, now, dst + at, src + at, 0, w)
    ensures Moved(was, now, dst, src, at, hi)
  {
    forall i | 0 <= i < |now| ensures CameFrom(was, now, i, Origin(dst, src, at, hi, i)) {
      var j := Origin(dst + at, src + at, 0, w, i);
      assert CameFrom(mid, now, i, j) && CameFrom(was, mid, j, Origin(dst, src, at + w, hi, j));
    }
  }

  lemma UnitAbove(was: seq<Byte>, mid: seq<Byte>, now: seq<Byte>, dst: nat, src: nat, at: nat, w: nat)
    requires Moved(was, mid, dst, src, 0, at) && (dst <= src || src + at + w <= dst)
    requires Moved(mid, now, dst + at, src + at, 0, w) && dst + at + w <= |was|
    ensures Moved(was, now, dst, src, 0, at + w)
  {
    var hi := at + w;
    forall i | 0 <= i < |now| ensures CameFrom(was, now, i, Origin(dst, src, 0, hi, i)) {
      var j := Origin(dst + at, src + at, 0, w, i);
      assert CameFrom(mid, now, i, j) && CameFrom(was, mid, j, Origin(dst, src, 0, at, j));
    }
  }

  lemma NothingMoved(was: seq<Byte>, dst: nat, src: nat, at: nat)
    requires src + at <= |was|
    ensures Moved(was, was, dst, src, at, at)
  {
  }

  /** `*--dest = *--source`, for bytes (w = 1) or words (w = 4): w bytes are read, then w written. */
  method MoveDown(mem: array<Byte>, dest: nat, source: nat, w: nat, ghost was: seq<Byte>, ghost dst: nat,
                  ghost src: nat, ghost hi: nat)
    requires (w == 1 || w == 4) && dest - dst == source - src >= 0 && dest - dst + w <= hi && src < dst
    requires dst + hi <= mem.Length && Moved(was, mem[..], dst, src, dest - dst + w, hi)
    modifies mem
    ensures Moved(was, mem[..], dst, src, dest - dst, hi)
  {
    ghost var mid := mem[..];
    MoveUnit(mem, dest, source, w);
    UnitBelow(was, mid, mem[..], dst, src, dest - dst, hi, w);
  }

  /** `*dest++ = *source++` */
  method MoveUp(mem: array<Byte>, dest: nat, source: nat, w: nat, ghost was: seq<Byte>, ghost dst: nat, ghost src: nat)
    requires (w == 1 || w == 4) && dest - dst == source - src >= 0 && (dst <= src || source + w <= dst)
    requires dest + w <= mem.Length && source + w <= mem.Length && Moved(was, mem[..], dst, src, 0, dest - dst)
    modifies mem
    ensures Moved(was, mem[..], dst, src, 0, dest - dst + w)
  {
    ghost var mid := mem[..];
    MoveUnit(mem, dest, source, w);
    UnitAbove(was, mid, mem[..], dst, src, dest - dst, w);
  }

  method MoveUnit(mem: array<Byte>, dest: nat, source: nat, w: nat)
    requires w == 1 || w == 4
    requires dest + w <= mem.Length && source + w <= mem.Length
    modifies mem
    ensures Moved(old(mem[..]), mem[..], dest, source, 0, w)
  {
    if w == 1 {
      mem[dest] := mem[source];
    } else {
      mem[dest], mem[dest + 1], mem[dest + 2], mem[dest + 3] :=
        mem[source], mem[source + 1], mem[source + 2], mem[source + 3];
    }
  }

  /** memmove */
  method Memmove(mem: array<Byte>, dst: nat, src: nat, len: nat)
    requires dst + len <= mem.Length && src + len <= mem.Length
    modifies mem
    ensures Moved(old(mem[..]), mem[..], dst, src, 0, len)
  {
    if src < dst && src + len > dst { BytesDown(mem, dst, src, len); } else { BytesUp(mem, dst, src, len); }
  }

  /** memmove's first loop, from the last byte down. */
  method BytesDown(mem: array<Byte>, dst: nat, src: nat, len: nat)
    requires src < dst && dst + len <= mem.Length
    modifies mem
    ensures Moved(old(mem[..]), mem[..], dst, src, 0, len)
  {
    var dest, source, left := dst + len, src + len, len;
    NothingMoved(mem[..], dst, src, len);
    while left > 0
      invariant 0 <= left <= len && source == src + left && dest == dst + left
      invariant Moved(old(mem[..]), mem[..], dst, src, left, len)
    {
      left, dest, source := left - 1, dest - 1, source - 1;
      MoveDown(mem, dest, source, 1, old(mem[..]), dst, src, len);
    }
  }

  /** memmove's second loop, from the first byte up. */
  method BytesUp(mem: array<Byte>, dst: nat, src: nat, len: nat)
    requires dst <= src || src + len <= dst
    requires dst + len <= mem.Length && src + len <= mem.Length
    modifies mem
    ensures Moved(old(mem[..]), mem[..], dst, src, 0, len)
  {
    var dest, source, left := dst, src, len;
    NothingMoved(mem[..], dst, src, 0);
    while left > 0
      invariant 0 <= left <= len && source == src + (len - left) && dest == dst + (len - left)
      invariant Moved(old(mem[..]), mem[..], dst, src, 0, len - left)
    {
      MoveUp(mem, dest, source, 1, old(mem[..]), dst, src);
      left, dest, source := left - 1, dest + 1, source + 1;
    }
  }

  /** blkmov: whole words when everything is aligned, memmove otherwise. */
  method Blkmov(mem: array<Byte>, dst: nat, src: nat, len: nat)
    requires dst + len <= mem.Length && src + len <= mem.Length
    modifies mem
    ensures Moved(old(mem[..]), mem[..], dst, src, 0, len)
  {
    if dst % 4 != 0 || src % 4 != 0 || len % 4 != 0 {
      Memmove(mem, dst, src, len);
      return;
    }
    var words := len / 4;
    if src < dst && src + 4 * words > dst { WordsDown(mem, dst, src, words); } else { WordsUp(mem, dst, src, words); }
  }

  /** blkmov's first loop, from the last word down.  Two different aligned words do not overlap. */
  method WordsDown(mem: array<Byte>, dst: nat, src: nat, words: nat)
    requires src < dst && dst + 4 * words <= mem.Length
    modifies mem
    ensures Moved(old(mem[..]), mem[..], dst, src, 0, 4 * words)
  {
    var source, dest, left := src + 4 * words, dst + 4 * words, words;
    NothingMoved(mem[..], dst, src, 4 * words);
    while left > 0
      invariant 0 <= left <= words && source == src + 4 * left && dest == dst + 4 * left
      invariant Moved(old(mem[..]), mem[..], dst, src, 4 * left, 4 * words)
    {
      left, dest, source := left - 1, dest - 4, source - 4;
      MoveDown(mem, dest, source, 4, old(mem[..]), dst, src, 4 * words);
    }
  }

  /** blkmov's second loop, from the first word up. */
  method WordsUp(mem: array<Byte>, dst: nat, src: nat, words: nat)
    requires dst <= src || src + 4 * words <= dst
    requires dst + 4 * words <= mem.Length && src + 4 * words <= mem.Length
    modifies mem
    ensures Moved(old(mem[..]), mem[..], dst, src, 0, 4 * words)
  {
    var source, dest, left := src, dst, words;
    NothingMoved(mem[..], dst, src, 0);
    while left > 0
      invariant 0 <= left <= words && source == src + 4 * (words - left) && dest == dst + 4 * (words - left)
      invariant Moved(old(mem[..]), mem[..], dst, src, 0, 4 * (words - left))
    {
      MoveUp(mem, dest, source, 4, old(mem[..]), dst, src);
      left, dest, source := left - 1, dest + 4, source + 4;
    }
  }
}
