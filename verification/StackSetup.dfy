/**
 stk_setup of kernel/stacks.c: the layout of a new process's stack.  Memory is an array of
 bytes and an address is an index; a word is four bytes, low byte first.

     context (18 words) | fake return address | argument pointer | string ... | 0 | ... | 0
 */
module StackSetup {
  import opened Wrappers
  import opened Copy

  const SZ_STACK: nat := 8192
  const SZ_CONTEXT: nat := 72
  const CTX_WORDS: nat := 18
  const DEFAULT_EFLAGS: nat := 0x202
  const GDT_CODE: nat := 0x10
  const GDT_DATA: nat := 0x18
  const GDT_STACK: nat := 0x20

  // the positions of the fields of context_t that are set
  const SS: nat := 0
  const GS: nat := 1
  const FS: nat := 2
  const ES: nat := 3
  const DS: nat := 4
  const EIP: nat := 15
  const CS: nat := 16
  const EFLAGS: nat := 17

  // ---- the layout ------------------------------------------------------------------------

  /** The bytes of a string and its NUL, rounded up to whole words. */
  function ArgBytes(length: nat): nat { (length + 1 + 3) / 4 * 4 }

  /** Where the argument pointer goes: below the string and the final 0, at a multiple of 16. */
  function ArgPointer(stk: nat, argBytes: nat): int { (stk + SZ_STACK - (argBytes + 8)) / 16 * 16 }

  function ReturnAddress(stk: nat, argBytes: nat): int { ArgPointer(stk, argBytes) - 4 }

  function Context(stk: nat, argBytes: nat): int { ReturnAddress(stk, argBytes) - SZ_CONTEXT }

  /** Nothing is written outside the stack exactly when the string takes at most 8104 bytes. */
  lemma StaysInside(stk: nat, length: nat)
    requires stk % 4096 == 0
    ensures var n := ArgBytes(length);
      stk <= Context(stk, n) && ArgPointer(stk, n) + 4 + n <= stk + SZ_STACK <==> n <= 8104
  {
    var n := ArgBytes(length);
    assert stk % 16 == 0;
    Floor16(stk, SZ_STACK - (n + 8));
    Floor16Bound(SZ_STACK - (n + 8));
  }

  lemma Floor16(stk: nat, x: int)
    requires stk % 16 == 0
    ensures (stk + x) / 16 * 16 == stk + x / 16 * 16
  {
  }

  lemma Floor16Bound(x: int)
    ensures x / 16 * 16 <= x && (x / 16 * 16 >= 76 <==> x >= 80)
  {
  }

  /** The parts do not overlap, the last word of the stack is left alone, the argument pointer is
      16-aligned (section 2.2.2 of the System V i386 psABI), and the string is NUL-terminated. */
  lemma PartsApart(stk: nat, length: nat)
    requires stk % 4096 == 0
    ensures var n := ArgBytes(length); var a := ArgPointer(stk, n);
      && Context(stk, n) + SZ_CONTEXT == ReturnAddress(stk, n) && ReturnAddress(stk, n) + 4 == a
      && a + 4 + n <= stk + SZ_STACK - 4
      && a % 16 == 0 && length < n < length + 5
  {
    assert ArgBytes(length) % 4 == 0;
  }

  // ---- words in memory --------------------------------------------------------------------

  function WordAt(s: seq<Byte>, a: nat): nat
    requires a + 4 <= |s|
  {
    var b0: int, b1: int, b2: int, b3: int := s[a], s[a + 1], s[a + 2], s[a + 3];
    b0 + b1 * 0x100 + b2 * 0x1_0000 + b3 * 0x100_0000
  }

  /** Nothing outside the n bytes at a has changed. */
  ghost predicate Only(was: seq<Byte>, now: seq<Byte>, a: nat, n: nat) {
    |now| == |was| && forall i :: 0 <= i < |now| && !(a <= i < a + n) ==> Same(was, now, i)
  }

  ghost predicate Same(was: seq<Byte>, now: seq<Byte>, i: int) {
    0 <= i < |was| && i < |now| && now[i] == was[i]
  }

  /** Byte k at `to` is what byte k at `from` was. */
  ghost predicate Copied(was: seq<Byte>, now: seq<Byte>, from: nat, to: nat, k: nat) {
    from + k < |was| && to + k < |now| && now[to + k] == was[from + k]
  }

  ghost predicate AllCopied(was: seq<Byte>, now: seq<Byte>, from: nat, to: nat, n: nat) {
    forall k: nat :: k < n ==> Copied(was, now, from, to, k)
  }

  lemma WordSame(was: seq<Byte>, now: seq<Byte>, a: nat, n: nat, b: nat)
    requires Only(was, now, a, n) && (b + 4 <= a || a + n <= b) && b + 4 <= |was|
    ensures WordAt(now, b) == WordAt(was, b)
  {
    assert Same(was, now, b) && Same(was, now, b + 1) && Same(was, now, b + 2) && Same(was, now, b + 3);
  }

  lemma OnlyThen(was: seq<Byte>, mid: seq<Byte>, now: seq<Byte>, a: nat, n: nat, a': nat, n': nat, lo: nat, size: nat)
    requires Only(was, mid, a, n) && Only(mid, now, a', n')
    requires lo <= a && a + n <= lo + size && lo <= a' && a' + n' <= lo + size
    ensures Only(was, now, lo, size)
  {
    forall i | 0 <= i < |now| && !(lo <= i < lo + size) ensures Same(was, now, i) {
      assert Same(was, mid, i) && Same(mid, now, i);
    }
  }

  lemma Octets(v: nat)
    requires v < TWO_32
    ensures v % 0x100 + v / 0x100 % 0x100 * 0x100
            + v / 0x1_0000 % 0x100 * 0x1_0000 + v / 0x100_0000 % 0x100 * 0x100_0000 == v
  {
  }

  /** `*ptr = v` */
  method Store(mem: array<Byte>, a: nat, v: nat)
    requires a + 4 <= mem.Length && v < TWO_32
    modifies mem
    ensures WordAt(mem[..], a) == v && Only(old(mem[..]), mem[..], a, 4)
  {
    Octets(v);
    mem[a], mem[a + 1], mem[a + 2], mem[a + 3] :=
      v % 0x100, v / 0x100 % 0x100, v / 0x1_0000 % 0x100, v / 0x100_0000 % 0x100;
  }

  // ---- the context ------------------------------------------------------------------------

  /** The context at ctx has the given fields, and its other fields are as they were. */
  ghost predicate Filled(was: seq<Byte>, now: seq<Byte>, ctx: nat, given: map<nat, nat>) {
    && ctx + SZ_CONTEXT <= |was| && Only(was, now, ctx, SZ_CONTEXT)
    && forall k: nat :: k < CTX_WORDS ==> Field(was, now, ctx, given, k)
  }

  ghost predicate Field(was: seq<Byte>, now: seq<Byte>, ctx: nat, given: map<nat, nat>, k: nat)
    requires ctx + SZ_CONTEXT <= |was| && |now| == |was| && k < CTX_WORDS
  {
    WordAt(now, ctx + 4 * k) == if k in given then given[k] else WordAt(was, ctx + 4 * k)
  }

  /** `ctx->field = v` */
  method SetField(mem: array<Byte>, ctx: nat, k: nat, v: nat, ghost was: seq<Byte>, ghost given: map<nat, nat>)
    requires Filled(was, mem[..], ctx, given) && k < CTX_WORDS && v < TWO_32
    modifies mem
    ensures Filled(was, mem[..], ctx, given[k := v])
  {
    ghost var mid := mem[..];
    Store(mem, ctx + 4 * k, v);
    FieldSet(was, mid, mem[..], ctx, given, k, v);
  }

  lemma FieldSet(was: seq<Byte>, mid: seq<Byte>, now: seq<Byte>, ctx: nat, given: map<nat, nat>, k: nat, v: nat)
    requires Filled(was, mid, ctx, given) && k < CTX_WORDS
    requires Only(mid, now, ctx + 4 * k, 4) && WordAt(now, ctx + 4 * k) == v
    ensures Filled(was, now, ctx, given[k := v])
  {
    OnlyThen(was, mid, now, ctx, SZ_CONTEXT, ctx + 4 * k, 4, ctx, SZ_CONTEXT);
    var given' := given[k := v];
    forall j: nat | j < CTX_WORDS ensures Field(was, now, ctx, given', j) {
      if j != k {
        assert Field(was, mid, ctx, given, j);
        WordSame(mid, now, ctx + 4 * k, 4, ctx + 4 * j);
      }
    }
  }

  /** What the initial context says. */
  function Initial(entry: nat): map<nat, nat> {
    map[EFLAGS := DEFAULT_EFLAGS, EIP := entry, CS := GDT_CODE, SS := GDT_STACK,
        GS := GDT_DATA, FS := GDT_DATA, ES := GDT_DATA, DS := GDT_DATA]
  }

  method FillContext(mem: array<Byte>, ctx: nat, entry: nat)
    requires ctx + SZ_CONTEXT <= mem.Length && entry < TWO_32
    modifies mem
    ensures Filled(old(mem[..]), mem[..], ctx, Initial(entry))
  {
    ghost var was, m := mem[..], map[];
    SetField(mem, ctx, EFLAGS, DEFAULT_EFLAGS, was, m);
    m := m[EFLAGS := DEFAULT_EFLAGS];
    SetField(mem, ctx, EIP, entry, was, m);
    m := m[EIP := entry];
    SetField(mem, ctx, CS, GDT_CODE, was, m);
    m := m[CS := GDT_CODE];
    SetField(mem, ctx, SS, GDT_STACK, was, m);
    m := m[SS := GDT_STACK];
    SetField(mem, ctx, GS, GDT_DATA, was, m);
    m := m[GS := GDT_DATA];
    SetField(mem, ctx, FS, GDT_DATA, was, m);
    m := m[FS := GDT_DATA];
    SetField(mem, ctx, ES, GDT_DATA, was, m);
    m := m[ES := GDT_DATA];
    SetField(mem, ctx, DS, GDT_DATA, was, m);
    assert m[DS := GDT_DATA] == Initial(entry);
  }

  // ---- stk_setup --------------------------------------------------------------------------

  /** A NUL-terminated string of the given length. */
  ghost predicate CString(s: seq<Byte>, at: nat, length: nat) {
    at + length < |s| && s[at + length] == 0 && forall i :: at <= i < at + length ==> s[i] != 0
  }

  /** strlen */
  method Strlen(mem: array<Byte>, str: nat, ghost length: nat) returns (len: nat)
    requires CString(mem[..], str, length)
    ensures len == length
  {
    len := 0;
    while mem[str + len] != 0
      invariant 0 <= len <= length
      decreases length - len
    {
      len := len + 1;
    }
  }

  /** The finished stack. */
  ghost predicate SetUp(was: seq<Byte>, now: seq<Byte>, stk: nat, entry: nat, fake: nat, args: nat, length: nat) {
    var n := ArgBytes(length);
    var a, ctx := ArgPointer(stk, n), Context(stk, n);
    && 0 <= ctx && a + 4 + n <= |now| == |was| && args + n <= |was|
    && WordAt(now, a) == a + 4
    && AllCopied(was, now, args, a + 4, n)
    && WordAt(now, ReturnAddress(stk, n)) == fake
    && (forall k: nat :: k < CTX_WORDS ==> Field(was, now, ctx, Initial(entry), k))
    && Only(was, now, ctx, SZ_CONTEXT + 8 + n)
  }

  /** stk_setup.  `fake` is user_locs[ULOC_FAKE].  The string lies outside the part of the stack
      that is written; up to three bytes after its NUL are copied with it. */
  method StkSetup(mem: array<Byte>, stk: nat, entry: nat, fake: nat, args: nat, ghost length: nat) returns (ctx: nat)
    requires mem.Length <= TWO_32 && stk % 4096 == 0 && stk + SZ_STACK <= mem.Length && entry < TWO_32 && fake < TWO_32
    requires CString(mem[..], args, length) && args + ArgBytes(length) <= mem.Length
    requires 0 <= Context(stk, ArgBytes(length))
    requires args + ArgBytes(length) <= Context(stk, ArgBytes(length)) || stk + SZ_STACK <= args
    modifies mem
    ensures ctx == Context(stk, ArgBytes(length))
    ensures SetUp(old(mem[..]), mem[..], stk, entry, fake, args, length)
  {
    ghost var was := mem[..];
    PartsApart(stk, length);
    var len := Strlen(mem, args, length);
    var argbytes, avptr := MakeRoom(stk, len);
    PlaceText(mem, avptr, args, argbytes);
    ghost var m2 := mem[..];
    Store(mem, avptr - 4, fake);
    ghost var m3 := mem[..];
    TopPart(was, m2, m3, avptr, argbytes, args);
    ctx := avptr - 4 - SZ_CONTEXT;
    FillContext(mem, ctx, entry);
    AllParts(was, m3, mem[..], avptr, argbytes, args, ctx, Initial(entry), fake);
  }

  /** How many bytes the string takes, and where the argument pointer goes. */
  method MakeRoom(stk: nat, len: nat) returns (argbytes: nat, avptr: int)
    ensures argbytes == ArgBytes(len) && avptr == ArgPointer(stk, argbytes)
  {
    var totwords := 1;
    argbytes := len + 1;
    argbytes := (argbytes + 3) / 4 * 4;
    totwords := totwords + argbytes / 4;
    totwords := totwords + 1;
    avptr := stk + SZ_STACK - 4 * totwords;
    avptr := avptr / 16 * 16;
  }

  /** The argument pointer and the string are in place. */
  ghost predicate TextOk(was: seq<Byte>, now: seq<Byte>, a: nat, n: nat, args: nat) {
    && a + 4 + n <= |now| == |was| && args + n <= |was|
    && WordAt(now, a) == a + 4 && AllCopied(was, now, args, a + 4, n)
  }

  /** The argument pointer, and the string behind it. */
  method PlaceText(mem: array<Byte>, avptr: nat, args: nat, argbytes: nat)
    requires mem.Length <= TWO_32 && avptr + 4 + argbytes <= mem.Length && avptr + 4 < TWO_32
    requires args + argbytes <= avptr || (avptr + 4 + argbytes <= args && args + argbytes <= mem.Length)
    modifies mem
    ensures TextOk(old(mem[..]), mem[..], avptr, argbytes, args) && Only(old(mem[..]), mem[..], avptr, 4 + argbytes)
  {
    Store(mem, avptr, avptr + 4);
    ghost var m1 := mem[..];
    Memmove(mem, avptr + 4, args, argbytes);
    TextThere(old(mem[..]), m1, mem[..], avptr, args, argbytes);
  }

  lemma TextThere(was: seq<Byte>, m1: seq<Byte>, m2: seq<Byte>, a: nat, args: nat, n: nat)
    requires Only(was, m1, a, 4) && a + 4 + n <= |was| && args + n <= |was| && WordAt(m1, a) == a + 4
    requires Moved(m1, m2, a + 4, args, 0, n) && (args + n <= a || a + 4 + n <= args)
    ensures TextOk(was, m2, a, n, args) && Only(was, m2, a, 4 + n)
  {
    MovedOnly(m1, m2, a + 4, args, n);
    WordSame(m1, m2, a + 4, n, a);
    OnlyThen(was, m1, m2, a, 4, a + 4, n, a, 4 + n);
    var to := a + 4;
    forall k: nat | k < n ensures Copied(was, m2, args, to, k) {
      MovedBytes(m1, m2, to, args, n, k);
      assert Same(was, m1, args + k);
    }
  }

  lemma MovedOnly(m1: seq<Byte>, m2: seq<Byte>, dst: nat, src: nat, n: nat)
    requires Moved(m1, m2, dst, src, 0, n) && dst + n <= |m1|
    ensures Only(m1, m2, dst, n)
  {
    forall i | 0 <= i < |m2| && !(dst <= i < dst + n) ensures Same(m1, m2, i) {
      MovedBytes(m1, m2, dst, src, n, i);
    }
  }

  lemma TextKept(was: seq<Byte>, m: seq<Byte>, now: seq<Byte>, a: nat, n: nat, args: nat, b: nat, size: nat)
    requires TextOk(was, m, a, n, args) && Only(m, now, b, size) && b + size <= a
    ensures TextOk(was, now, a, n, args)
  {
    WordSame(m, now, b, size, a);
    var to := a + 4;
    forall k: nat | k < n ensures Copied(was, now, args, to, k) {
      assert Copied(was, m, args, to, k) && Same(m, now, to + k);
    }
  }

  lemma TopPart(was: seq<Byte>, m2: seq<Byte>, m3: seq<Byte>, a: nat, n: nat, args: nat)
    requires TextOk(was, m2, a, n, args) && Only(was, m2, a, 4 + n) && a >= 4 && Only(m2, m3, a - 4, 4)
    ensures TextOk(was, m3, a, n, args) && Only(was, m3, a - 4, 8 + n)
  {
    TextKept(was, m2, m3, a, n, args, a - 4, 4);
    OnlyThen(was, m2, m3, a, 4 + n, a - 4, 4, a - 4, 8 + n);
  }

  lemma AllParts(was: seq<Byte>, m3: seq<Byte>, now: seq<Byte>, a: nat, n: nat, args: nat, ctx: nat,
                 init: map<nat, nat>, fake: nat)
    requires TextOk(was, m3, a, n, args) && ctx + SZ_CONTEXT + 4 == a && Only(was, m3, a - 4, 8 + n)
    requires WordAt(m3, a - 4) == fake && Filled(m3, now, ctx, init)
    ensures TextOk(was, now, a, n, args) && WordAt(now, a - 4) == fake
    ensures Only(was, now, ctx, SZ_CONTEXT + 8 + n)
    ensures forall k: nat :: k < CTX_WORDS ==> Field(was, now, ctx, init, k)
  {
    TextKept(was, m3, now, a, n, args, ctx, SZ_CONTEXT);
    WordSame(m3, now, ctx, SZ_CONTEXT, a - 4);
    OnlyThen(was, m3, now, a - 4, 8 + n, ctx, SZ_CONTEXT, ctx, SZ_CONTEXT + 8 + n);
    forall k: nat | k < CTX_WORDS ensures Field(was, now, ctx, init, k) {
      assert Field(m3, now, ctx, init, k);
      WordSame(was, m3, a - 4, 8 + n, ctx + 4 * k);
    }
  }

  /** Where the context starts, in numbers. */
  lemma ContextAt(stk: nat, length: nat, ctx: nat)
    requires ctx + 76 == (stk + 8192 - ((length + 4) / 4 * 4 + 8)) / 16 * 16
    ensures var n := ArgBytes(length);
      && n == (length + 4) / 4 * 4 && length < n
      && ArgPointer(stk, n) == ctx + 76 && ReturnAddress(stk, n) == ctx + 72 && Context(stk, n) == ctx
  {
  }

  /** The context on a stack that was clear, word by word: the stack selector, four data selectors, ten
      words of zeroes, the entry point, the code selector and the flags; behind it the return address,
      the argument pointer and the string. */
  lemma ContextWords(was: seq<Byte>, now: seq<Byte>, stk: nat, entry: nat, fake: nat, args: nat, length: nat, ctx: nat)
    requires SetUp(was, now, stk, entry, fake, args, length)
    requires ctx + 76 == (stk + 8192 - ((length + 4) / 4 * 4 + 8)) / 16 * 16 && ctx + 72 <= |was|
    requires forall i :: ctx <= i < ctx + 72 ==> was[i] == 0
    ensures |now| == |was| && ctx + 80 + length < |now| && args + length < |was|
    ensures WordAt(now, ctx) == 0x20
    ensures WordAt(now, ctx + 4) == WordAt(now, ctx + 8) == WordAt(now, ctx + 12) == WordAt(now, ctx + 16) == 0x18
    ensures forall k :: 5 <= k < 15 ==> WordAt(now, ctx + 4 * k) == 0
    ensures WordAt(now, ctx + 60) == entry && WordAt(now, ctx + 64) == 0x10 && WordAt(now, ctx + 68) == 0x202
    ensures WordAt(now, ctx + 72) == fake && WordAt(now, ctx + 76) == ctx + 80
    ensures now[ctx + 80..ctx + 80 + length] == was[args..args + length]
  {
    ContextAt(stk, length, ctx);
    FieldsAre(was, now, ctx, entry);
    TextIs(was, now, args, ctx + 80, ArgBytes(length), length);
  }

  lemma TextIs(was: seq<Byte>, now: seq<Byte>, from: nat, to: nat, n: nat, length: nat)
    requires AllCopied(was, now, from, to, n) && length < n && from + n <= |was| && to + n <= |now|
    ensures now[to..to + length] == was[from..from + length]
  {
    var a, b := now[to..to + length], was[from..from + length];
    forall i | 0 <= i < length ensures a[i] == b[i] { assert Copied(was, now, from, to, i); }
  }

  lemma FieldsAre(was: seq<Byte>, now: seq<Byte>, ctx: nat, entry: nat)
    requires ctx + SZ_CONTEXT <= |was| && |now| == |was|
    requires forall k: nat :: k < CTX_WORDS ==> Field(was, now, ctx, Initial(entry), k)
    requires forall i :: ctx <= i < ctx + 72 ==> was[i] == 0
    ensures WordAt(now, ctx) == 0x20
    ensures WordAt(now, ctx + 4) == WordAt(now, ctx + 8) == WordAt(now, ctx + 12) == WordAt(now, ctx + 16) == 0x18
    ensures forall k :: 5 <= k < 15 ==> WordAt(now, ctx + 4 * k) == 0
    ensures WordAt(now, ctx + 60) == entry && WordAt(now, ctx + 64) == 0x10 && WordAt(now, ctx + 68) == 0x202
  {
    OneField(was, now, ctx, entry, 0);
    OneField(was, now, ctx, entry, 1);
    OneField(was, now, ctx, entry, 2);
    OneField(was, now, ctx, entry, 3);
    OneField(was, now, ctx, entry, 4);
    forall k | 5 <= k < 15 ensures WordAt(now, ctx + 4 * k) == 0 { OneField(was, now, ctx, entry, k); }
    OneField(was, now, ctx, entry, 15);
    OneField(was, now, ctx, entry, 16);
    OneField(was, now, ctx, entry, 17);
  }

  function ContextWord(entry: nat, k: nat): nat {
    if k == 0 then 0x20 else if k < 5 then 0x18 else if k < 15 then 0
    else if k == 15 then entry else if k == 16 then 0x10 else 0x202
  }

  lemma OneField(was: seq<Byte>, now: seq<Byte>, ctx: nat, entry: nat, k: nat)
    requires ctx + SZ_CONTEXT <= |was| && |now| == |was| && k < CTX_WORDS
    requires forall j: nat :: j < CTX_WORDS ==> Field(was, now, ctx, Initial(entry), j)
    requires forall i :: ctx <= i < ctx + 72 ==> was[i] == 0
    ensures WordAt(now, ctx + 4 * k) == ContextWord(entry, k)
  {
    assert Field(was, now, ctx, Initial(entry), k);
    assert WordAt(was, ctx + 4 * k) == 0;
  }

  /** On a stack that was clear, a string that fits leaves everything inside the stack, the last
      word 0, and the copied string terminated. */
  lemma SetUpSound(was: seq<Byte>, now: seq<Byte>, stk: nat, entry: nat, fake: nat, args: nat, length: nat)
    requires SetUp(was, now, stk, entry, fake, args, length) && CString(was, args, length)
    requires stk % 4096 == 0 && stk + SZ_STACK <= |was| && ArgBytes(length) <= 8104
    requires forall i :: stk <= i < stk + SZ_STACK ==> was[i] == 0
    ensures Only(was, now, stk, SZ_STACK)
    ensures WordAt(now, stk + SZ_STACK - 4) == 0
    ensures CString(now, ArgPointer(stk, ArgBytes(length)) + 4, length)
  {
    var n := ArgBytes(length);
    var a, ctx := ArgPointer(stk, n), Context(stk, n);
    StaysInside(stk, length);
    PartsApart(stk, length);
    OnlyThen(was, was, now, stk, 0, ctx, SZ_CONTEXT + 8 + n, stk, SZ_STACK);
    WordSame(was, now, ctx, SZ_CONTEXT + 8 + n, stk + SZ_STACK - 4);
    assert Copied(was, now, args, a + 4, length);
    forall i | a + 4 <= i < a + 4 + length ensures now[i] != 0 {
      assert Copied(was, now, args, a + 4, i - (a + 4));
    }
  }
}
