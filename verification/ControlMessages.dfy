/**
 Ancillary data in pyte_shim.c: the control buffer that sendmsg packs and the two passes by which recvmsg reads one.

 Layout as on LP64 Linux: a header is cmsg_len (8 bytes), cmsg_level and cmsg_type (4 each), little-endian, and every
 message starts at a multiple of 8. Section 20 of RFC 3542 lets CMSG_NXTHDR look only at whether a next header fits;
 some C libraries also look at whether its message does. `strict` tells which, and everything holds for both.
 */
module ControlMessages {
  import opened Common

  type int32 = x: int | -0x8000_0000 <= x < 0x8000_0000

  const HEADER_SIZE: nat := 16
  const SIZE_LIMIT: nat := 0x1_0000_0000_0000_0000

  datatype Message = Message(level: int32, kind: int32, data: seq<byte>)

  function Align(n: nat): nat { (n + 7) / 8 * 8 }
  function Len(n: nat): nat { HEADER_SIZE + n }
  function Space(n: nat): nat { HEADER_SIZE + Align(n) }

  // ---- integers in memory ----

  function Le(n: nat, k: nat): (r: seq<byte>)
    ensures |r| == k
  {
    if k == 0 then [] else [n % 256] + Le(n / 256, k - 1)
  }

  function FromLe(s: seq<byte>): nat {
    if s == [] then 0 else s[0] + 256 * FromLe(s[1..])
  }

  function Pow256(k: nat): nat {
    if k == 0 then 1 else 256 * Pow256(k - 1)
  }

  lemma {:induction false} FromLeLe(n: nat, k: nat)
    requires n < Pow256(k)
    ensures FromLe(Le(n, k)) == n
  {
    if k > 0 {
      FromLeLe(n / 256, k - 1);
      assert Le(n, k)[1..] == Le(n / 256, k - 1);
    }
  }

  function Zeros(n: nat): seq<byte> { seq(n, _ => 0) }

  lemma {:induction false} FromLeZeros(n: nat)
    ensures FromLe(Zeros(n)) == 0
  {
    if n > 0 {
      assert Zeros(n)[1..] == Zeros(n - 1);
      FromLeZeros(n - 1);
    }
  }

  function Bits(x: int32): nat { if x < 0 then x + 0x1_0000_0000 else x }
  function Signed(n: nat): int32
    requires n < 0x1_0000_0000
  {
    if n >= 0x8000_0000 then n - 0x1_0000_0000 else n
  }

  lemma {:induction false} FromLeBound(s: seq<byte>)
    ensures FromLe(s) < Pow256(|s|)
  {
    if s != [] { FromLeBound(s[1..]); }
  }

  // ---- reading a buffer ----

  function LenAt(buf: seq<byte>, off: nat): nat
    requires off + HEADER_SIZE <= |buf|
  {
    FromLe(buf[off..off + 8])
  }

  function IntAt(buf: seq<byte>, off: nat): int32
    requires off + 4 <= |buf|
  {
    FromLeBound(buf[off..off + 4]);
    assert Pow256(4) == 0x1_0000_0000;
    Signed(FromLe(buf[off..off + 4]))
  }

  /** CMSG_FIRSTHDR */
  function FirstHdr(buf: seq<byte>): Option<nat> {
    if |buf| >= HEADER_SIZE then Some(0) else None
  }

  /** CMSG_NXTHDR */
  function NextHdr(buf: seq<byte>, off: nat, strict: bool): (r: Option<nat>)
    requires off + HEADER_SIZE <= |buf|
    ensures r.Some? ==> off < r.value && r.value + HEADER_SIZE <= |buf|
  {
    var len := LenAt(buf, off);
    if len < HEADER_SIZE then None else
    var next := off + Align(len);
    if next + HEADER_SIZE > |buf| then None
    else if strict && next + Align(LenAt(buf, next)) > |buf| then None
    else Some(next)
  }

  /** The headers a traversal visits. */
  function Chain(buf: seq<byte>, c: Option<nat>, strict: bool): seq<nat>
    requires c.Some? ==> c.value + HEADER_SIZE <= |buf|
    decreases if c.Some? then |buf| - c.value else 0
  {
    if c.None? then [] else [c.value] + Chain(buf, NextHdr(buf, c.value, strict), strict)
  }

  /** A header whose message lies in the buffer. */
  predicate WellFormedAt(buf: seq<byte>, off: nat) {
    off + HEADER_SIZE <= |buf| && HEADER_SIZE <= LenAt(buf, off) <= |buf| - off
  }

  function MessageAt(buf: seq<byte>, off: nat): Message
    requires WellFormedAt(buf, off)
  {
    Message(IntAt(buf, off + 8), IntAt(buf, off + 12), buf[off + HEADER_SIZE..off + LenAt(buf, off)])
  }

  /** What recvmsg returns for a buffer all of whose messages are well-formed. */
  function Parsed(buf: seq<byte>, chain: seq<nat>): seq<Message>
    requires forall off <- chain :: WellFormedAt(buf, off)
  {
    if chain == [] then [] else
    assert forall off <- chain[1..] :: off in chain;
    [MessageAt(buf, chain[0])] + Parsed(buf, chain[1..])
  }

  // ---- the packed form ----

  function Size(xs: seq<Message>): nat {
    if xs == [] then 0 else Size(xs[..|xs| - 1]) + Space(|xs[|xs| - 1].data|)
  }

  function Header(x: Message): (r: seq<byte>)
    ensures |r| == HEADER_SIZE
  {
    Le(Len(|x.data|), 8) + Le(Bits(x.level), 4) + Le(Bits(x.kind), 4)
  }

  function One(x: Message): (r: seq<byte>)
    ensures |r| == Space(|x.data|)
  {
    Header(x) + x.data + Zeros(Align(|x.data|) - |x.data|)
  }

  function Packed(xs: seq<Message>): (r: seq<byte>)
    ensures |r| == Size(xs)
  {
    if xs == [] then [] else Packed(xs[..|xs| - 1]) + One(xs[|xs| - 1])
  }

  lemma {:induction false} SliceSlice<T>(s: seq<T>, i: nat, j: nat, a: nat, b: nat)
    requires i <= j <= |s| && a <= b <= j - i
    ensures s[i..j][a..b] == s[i + a..i + b]
  {
    forall k | 0 <= k < b - a
      ensures s[i..j][a..b][k] == s[i + a..i + b][k]
    {
      assert s[i..j][a..b][k] == s[i..j][a + k] == s[i + (a + k)];
    }
  }

  lemma {:induction false} SliceOfPrefix<T>(s: seq<T>, t: seq<T>, i: nat, j: nat)
    requires i <= j <= |s|
    ensures (s + t)[i..j] == s[i..j]
  {
    assert (s + t)[i..j] == s[i..j];
  }

  lemma {:induction false} Border<T>(p: seq<T>, z: seq<T>, k: nat)
    requires k <= |z|
    ensures (p + z)[..|p|] == p && (p + z)[|p| + k..] == z[k..]
  {
  }

  /** Writing h at i and then d right behind it. */
  lemma {:induction false} TwoWrites<T>(s: seq<T>, i: nat, h: seq<T>, d: seq<T>, s1: seq<T>, s2: seq<T>)
    requires i + |h| + |d| <= |s|
    requires s1 == s[..i] + h + s[i + |h|..] && s2 == s1[..i + |h|] + d + s1[i + |h| + |d|..]
    ensures s2 == s[..i] + h + d + s[i + |h| + |d|..]
  {
    assert s1[..i + |h|] == s[..i] + h && s1[i + |h| + |d|..] == s[i + |h| + |d|..];
  }

  lemma {:induction false} Regroup<T>(p: seq<T>, h: seq<T>, d: seq<T>, z1: seq<T>, z2: seq<T>)
    ensures p + h + d + (z1 + z2) == p + (h + d + z1) + z2
  {
  }

  lemma {:induction false} HeadAt<T>(p: seq<T>, h: seq<T>, d: seq<T>, z: seq<T>, rest: seq<T>, buf: seq<T>)
    requires buf == p + (h + d + z) + rest
    ensures buf[|p|..|p| + |h|] == h
  {
  }

  lemma {:induction false} Assemble<T>(p: seq<T>, h: seq<T>, d: seq<T>, z: seq<T>, z1: seq<T>, z2: seq<T>, buf: seq<T>)
    requires |h| + |d| <= |z| && z[|h| + |d|..] == z1 + z2
    requires buf == (p + z)[..|p|] + h + d + (p + z)[|p| + (|h| + |d|)..]
    ensures buf == p + (h + d + z1) + z2
  {
    Border(p, z, |h| + |d|);
    Regroup(p, h, d, z1, z2);
  }

  lemma {:induction false} ZerosSplit(n: nat, k: nat)
    requires k <= n
    ensures |Zeros(n)| == n && Zeros(n)[k..] == Zeros(n - k) && Zeros(k) + Zeros(n - k) == Zeros(n)
  {
  }

  lemma {:induction false} HeaderReadsBack(buf: seq<byte>, off: nat, x: Message)
    requires off + HEADER_SIZE <= |buf| && buf[off..off + HEADER_SIZE] == Header(x) && Len(|x.data|) < SIZE_LIMIT
    ensures LenAt(buf, off) == Len(|x.data|) && IntAt(buf, off + 8) == x.level && IntAt(buf, off + 12) == x.kind
  {
    var h := Header(x);
    SliceSlice(buf, off, off + HEADER_SIZE, 0, 8);
    SliceSlice(buf, off, off + HEADER_SIZE, 8, 12);
    SliceSlice(buf, off, off + HEADER_SIZE, 12, 16);
    assert h[0..8] == Le(Len(|x.data|), 8) && h[8..12] == Le(Bits(x.level), 4) && h[12..16] == Le(Bits(x.kind), 4);
    assert Pow256(8) == SIZE_LIMIT && Pow256(4) == 0x1_0000_0000;
    FromLeLe(Len(|x.data|), 8);
    FromLeLe(Bits(x.level), 4);
    FromLeLe(Bits(x.kind), 4);
  }

  lemma {:induction false} SpaceIsAligned(n: nat)
    ensures Align(Len(n)) == Space(n) && Align(n) >= n
  {
  }

  lemma {:induction false} SizeSplit(xs: seq<Message>, i: nat)
    requires i < |xs|
    ensures Size(xs[..i + 1]) == Size(xs[..i]) + Space(|xs[i].data|)
  {
    assert xs[..i + 1][..i] == xs[..i];
  }

  lemma {:induction false} SizeGrows(xs: seq<Message>, i: nat, j: nat)
    requires i <= j <= |xs|
    ensures Size(xs[..i]) <= Size(xs[..j]) && (i < j ==> Size(xs[..i]) + HEADER_SIZE <= Size(xs[..j]))
  {
    if i < j {
      SizeGrows(xs, i, j - 1);
      SizeSplit(xs, j - 1);
    }
  }

  /** The i-th message stands where the sum of the spaces before it says. */
  lemma {:induction false} PackedAt(xs: seq<Message>, i: nat)
    requires i < |xs|
    ensures var off := Size(xs[..i]);
      off + Space(|xs[i].data|) <= |Packed(xs)| && Packed(xs)[off..off + Space(|xs[i].data|)] == One(xs[i])
    decreases |xs|
  {
    hide One, Space;
    var n := |xs| - 1;
    var rest := xs[..n];
    if i < n {
      PackedAt(rest, i);
      assert rest[..i] == xs[..i];
      SliceOfPrefix(Packed(rest), One(xs[n]), Size(xs[..i]), Size(xs[..i]) + Space(|xs[i].data|));
    } else {
      LastSlice(Packed(rest), One(xs[n]));
    }
  }

  lemma {:induction false} LastSlice<T>(s: seq<T>, t: seq<T>)
    ensures (s + t)[|s|..|s| + |t|] == t
  {
  }

  /** Stepping over a message that has been written, to a place where a next one fits. */
  lemma {:induction false} StepOver(buf: seq<byte>, off: nat, x: Message, strict: bool)
    requires off + Space(|x.data|) <= |buf| < SIZE_LIMIT && buf[off..off + HEADER_SIZE] == Header(x)
    requires var next := off + Space(|x.data|);
      next == |buf| || (next + HEADER_SIZE <= |buf| && (strict ==> next + Align(LenAt(buf, next)) <= |buf|))
    ensures var next := off + Space(|x.data|); NextHdr(buf, off, strict) == if next == |buf| then None else Some(next)
  {
    hide Header, Le, FromLe, LenAt, IntAt;
    SpaceIsAligned(|x.data|);
    HeaderReadsBack(buf, off, x);
  }

  lemma {:induction false} MessageReadsBack(buf: seq<byte>, off: nat, x: Message)
    requires off + Space(|x.data|) <= |buf| < SIZE_LIMIT && buf[off..off + Space(|x.data|)] == One(x)
    ensures buf[off..off + HEADER_SIZE] == Header(x) && LenAt(buf, off) == Len(|x.data|)
    ensures WellFormedAt(buf, off) && MessageAt(buf, off) == x
  {
    hide Le, FromLe, LenAt, IntAt;
    var one, end := One(x), off + Space(|x.data|);
    SliceSlice(buf, off, end, 0, HEADER_SIZE);
    SliceSlice(buf, off, end, HEADER_SIZE, Len(|x.data|));
    assert one[0..HEADER_SIZE] == Header(x) && one[HEADER_SIZE..Len(|x.data|)] == x.data;
    HeaderReadsBack(buf, off, x);
  }

  lemma {:induction false} ChainEnds(buf: seq<byte>, strict: bool)
    ensures Chain(buf, None, strict) == [] && Parsed(buf, []) == []
  {
  }

  lemma {:induction false} ChainSteps(buf: seq<byte>, off: nat, strict: bool)
    requires WellFormedAt(buf, off)
    requires forall k <- Chain(buf, NextHdr(buf, off, strict), strict) :: WellFormedAt(buf, k)
    ensures var (chain, rest) := (Chain(buf, Some(off), strict), Chain(buf, NextHdr(buf, off, strict), strict));
      (forall k <- chain :: WellFormedAt(buf, k)) && Parsed(buf, chain) == [MessageAt(buf, off)] + Parsed(buf, rest)
  {
    hide MessageAt, NextHdr;
    var rest := Chain(buf, NextHdr(buf, off, strict), strict);
    assert Chain(buf, Some(off), strict) == [off] + rest && ([off] + rest)[1..] == rest;
  }

  /** From its i-th message on, a packed buffer is traversed message by message and reads back as the rest of the
      list. */
  lemma {:induction false} PackedChain(xs: seq<Message>, i: nat, strict: bool)
    requires i <= |xs| && Size(xs) < SIZE_LIMIT
    ensures i == |xs| || Size(xs[..i]) + HEADER_SIZE <= |Packed(xs)|
    ensures var chain := Chain(Packed(xs), if i < |xs| then Some(Size(xs[..i])) else None, strict);
      (forall off <- chain :: WellFormedAt(Packed(xs), off)) && Parsed(Packed(xs), chain) == xs[i..]
    decreases |xs| - i
  {
    hide Packed, One, Header, MessageAt, WellFormedAt, Le, FromLe, LenAt, IntAt, NextHdr, Chain, Parsed, Size;
    ChainEnds(Packed(xs), strict);
    if i < |xs| {
      var buf, off, x := Packed(xs), Size(xs[..i]), xs[i];
      PackedAt(xs, i);
      MessageReadsBack(buf, off, x);
      SizeSplit(xs, i);
      assert xs[..|xs|] == xs;
      if i + 1 < |xs| {
        PackedAt(xs, i + 1);
        MessageReadsBack(buf, off + Space(|x.data|), xs[i + 1]);
        SpaceIsAligned(|xs[i + 1].data|);
      }
      StepOver(buf, off, x, strict);
      PackedChain(xs, i + 1, strict);
      ChainSteps(buf, off, strict);
      assert [x] + xs[i + 1..] == xs[i..];
    }
  }

  /** What was packed is what is read: every list of messages, empty data included, comes back unchanged. */
  lemma {:induction false} PackedReadsBack(xs: seq<Message>, strict: bool)
    requires Size(xs) < SIZE_LIMIT
    ensures var chain := Chain(Packed(xs), FirstHdr(Packed(xs)), strict);
      (forall off <- chain :: WellFormedAt(Packed(xs), off)) && Parsed(Packed(xs), chain) == xs
  {
    hide Packed, Chain, Parsed, WellFormedAt;
    PackedChain(xs, 0, strict);
    if xs != [] {
      assert xs[..0] == [] && xs[0..] == xs;
    }
  }

  // ---- the loops ----

  /** memcpy */
  method Copy(a: array<byte>, off: nat, bytes: seq<byte>)
    requires off + |bytes| <= a.Length
    modifies a
    ensures a[..] == old(a[..])[..off] + bytes + old(a[..])[off + |bytes|..]
  {
    for i := 0 to |bytes|
      invariant forall k :: 0 <= k < off || off + i <= k < a.Length ==> a[k] == old(a[k])
      invariant forall k :: off <= k < off + i ==> a[k] == bytes[k - off]
    {
      a[off + i] := bytes[i];
    }
  }

  method WriteHeader(a: array<byte>, off: nat, x: Message)
    requires off + HEADER_SIZE <= a.Length
    modifies a
    ensures a[..] == old(a[..])[..off] + Header(x) + old(a[..])[off + HEADER_SIZE..]
  {
    hide Le, Bits, Len;
    var len, level, kind := Le(Len(|x.data|), 8), Le(Bits(x.level), 4), Le(Bits(x.kind), 4);
    ghost var was := a[..];
    Copy(a, off + 8, level);
    ghost var first := a[..];
    Copy(a, off + 12, kind);
    ghost var second := a[..];
    Copy(a, off, len);
    ThreeWrites(was, off, len, level, kind, first, second, a[..]);
  }

  /** Fields of a header written behind, behind and in front. */
  lemma {:induction false} ThreeWrites<T>(s: seq<T>, i: nat, l: seq<T>, v: seq<T>, k: seq<T>,
                                          s1: seq<T>, s2: seq<T>, s3: seq<T>)
    requires i + |l| + |v| + |k| <= |s| && s1 == s[..i + |l|] + v + s[i + |l| + |v|..]
    requires s2 == s1[..i + |l| + |v|] + k + s1[i + |l| + |v| + |k|..]
    requires s3 == s2[..i] + l + s2[i + |l|..]
    ensures s3 == s[..i] + (l + v + k) + s[i + |l| + |v| + |k|..]
  {
    assert s2[..i] == s[..i] && s2[i + |l|..] == v + k + s[i + |l| + |v| + |k|..];
  }

  method WriteMessage(a: array<byte>, off: nat, x: Message)
    requires off + Len(|x.data|) <= a.Length
    modifies a
    ensures a[..] == old(a[..])[..off] + Header(x) + x.data + old(a[..])[off + Len(|x.data|)..]
  {
    hide Header;
    WriteHeader(a, off, x);
    ghost var half := a[..];
    Copy(a, off + HEADER_SIZE, x.data);
    TwoWrites(old(a[..]), off, Header(x), x.data, half, a[..]);
  }

  method SumOfSpaces(xs: seq<Message>) returns (total: nat)
    ensures total == Size(xs)
  {
    total := 0;
    for i := 0 to |xs|
      invariant total == Size(xs[..i])
    {
      SizeSplit(xs, i);
      total := total + Space(|xs[i].data|);
    }
    assert xs[..|xs|] == xs;
  }

  /** The send side: the fill loop stays inside the buffer, never meets a null header, and leaves the packed form. */
  method Fill(xs: seq<Message>, strict: bool) returns (r: Result<array<byte>, string>)
    requires xs != [] && Size(xs) < SIZE_LIMIT
    ensures r.Ok? && fresh(r.value) && r.value[..] == Packed(xs)
  {
    hide One, Header, Le, FromLe, LenAt, IntAt, NextHdr, Packed, Size, Zeros;
    Empty();
    var total := SumOfSpaces(xs);
    var ctrl := new byte[total](_ => 0);
    ZerosAre(ctrl[..]);
    assert xs[..0] == [] && xs[..|xs|] == xs;
    assert Packed([]) + Zeros(total) == Zeros(total);
    SizeGrows(xs, 0, |xs|);
    var c := FirstHdr(ctrl[..]);
    for i := 0 to |xs|
      invariant ctrl.Length == total == Size(xs)
      invariant Size(xs[..i]) <= total && ctrl[..] == Packed(xs[..i]) + Zeros(total - Size(xs[..i]))
      invariant c == if i < |xs| then Some(Size(xs[..i])) else None
    {
      if c.None? {
        return Err("EINVAL");
      }
      Put(ctrl, xs, i);
      NextIsNext(xs, i, ctrl[..], strict);
      c := NextHdr(ctrl[..], c.value, strict);
    }
    assert Packed(xs) + Zeros(0) == Packed(xs);
    return Ok(ctrl);
  }

  /** One turn of the fill loop. */
  method Put(ctrl: array<byte>, xs: seq<Message>, i: nat)
    requires i < |xs| && ctrl.Length == Size(xs) && Size(xs[..i]) <= Size(xs)
    requires ctrl[..] == Packed(xs[..i]) + Zeros(Size(xs) - Size(xs[..i]))
    modifies ctrl
    ensures Size(xs[..i + 1]) <= Size(xs) && ctrl[..] == Packed(xs[..i + 1]) + Zeros(Size(xs) - Size(xs[..i + 1]))
    ensures i + 1 < |xs| ==> Size(xs[..i + 1]) + HEADER_SIZE <= Size(xs)
  {
    hide Header, Packed, Size, Zeros;
    assert xs[..|xs|] == xs;
    SizeGrows(xs, i + 1, |xs|);
    SizeSplit(xs, i);
    SpaceIsAligned(|xs[i].data|);
    WriteMessage(ctrl, Size(xs[..i]), xs[i]);
    Written(xs, i, ctrl[..]);
  }

  lemma {:induction false} Empty()
    ensures Size([]) == 0 && Packed([]) == [] && Zeros(0) == []
  {
  }

  lemma {:induction false} ZerosAre(s: seq<byte>)
    requires forall i :: 0 <= i < |s| ==> s[i] == 0
    ensures s == Zeros(|s|)
  {
  }

  /** The buffer after the i-th message was written over the zeros. */
  lemma {:induction false} Written(xs: seq<Message>, i: nat, buf: seq<byte>)
    requires i < |xs| && Size(xs[..i]) + Space(|xs[i].data|) <= Size(xs)
    requires var (before, x, off) := (Packed(xs[..i]) + Zeros(Size(xs) - Size(xs[..i])), xs[i], Size(xs[..i]));
      buf == before[..off] + Header(x) + x.data + before[off + Len(|x.data|)..]
    ensures Size(xs[..i + 1]) <= Size(xs) && buf == Packed(xs[..i + 1]) + Zeros(Size(xs) - Size(xs[..i + 1]))
  {
    hide Header, Zeros, Size, Packed, One;
    var p, x, n := Packed(xs[..i]), xs[i], Size(xs) - Size(xs[..i]);
    var used, space := Len(|x.data|), Space(|x.data|);
    var z1, z2 := Zeros(space - used), Zeros(n - space);
    SpaceIsAligned(|x.data|);
    SizeSplit(xs, i);
    PackedSplit(xs, i);
    ZerosSplit(n, used);
    ZerosSplit(n - used, space - used);
    assert |p| + (HEADER_SIZE + |x.data|) == |p| + used;
    Assemble(p, Header(x), x.data, Zeros(n), z1, z2, buf);
  }

  lemma {:induction false} PackedSplit(xs: seq<Message>, i: nat)
    requires i < |xs|
    ensures Packed(xs[..i + 1]) == Packed(xs[..i])
      + (Header(xs[i]) + xs[i].data + Zeros(Align(|xs[i].data|) - |xs[i].data|))
  {
    assert xs[..i + 1][..i] == xs[..i];
  }

  lemma {:induction false} NextIsNext(xs: seq<Message>, i: nat, buf: seq<byte>, strict: bool)
    requires i < |xs| && Size(xs) < SIZE_LIMIT && |buf| == Size(xs) && Size(xs[..i + 1]) <= Size(xs)
    requires i + 1 < |xs| ==> Size(xs[..i + 1]) + HEADER_SIZE <= Size(xs)
    requires buf == Packed(xs[..i + 1]) + Zeros(|buf| - Size(xs[..i + 1]))
    ensures Size(xs[..i]) + HEADER_SIZE <= |buf|
    ensures NextHdr(buf, Size(xs[..i]), strict) == if i + 1 < |xs| then Some(Size(xs[..i + 1])) else None
  {
    hide Le, FromLe, IntAt, NextHdr, Header, Packed, Size;
    SpaceIsAligned(|xs[i].data|);
    var off, next, x := Size(xs[..i]), Size(xs[..i + 1]), xs[i];
    SizeSplit(xs, i);
    PackedSplit(xs, i);
    assert xs[..|xs|] == xs;
    HeadAt(Packed(xs[..i]), Header(x), x.data, Zeros(Align(|x.data|) - |x.data|), Zeros(|buf| - next), buf);
    if i + 1 < |xs| {
      Border(Packed(xs[..i + 1]), Zeros(|buf| - next), 0);
      SliceSlice(buf, next, |buf|, 0, 8);
      assert buf[next..next + 8] == Zeros(|buf| - next)[0..8] == Zeros(8);
      FromLeZeros(8);
    }
    StepOver(buf, off, x, strict);
  }

  /** The counting pass. */
  method Count(buf: seq<byte>, strict: bool) returns (nc: nat)
    ensures nc == |Chain(buf, FirstHdr(buf), strict)|
  {
    hide NextHdr;
    nc := 0;
    var c := FirstHdr(buf);
    while c.Some?
      invariant c.Some? ==> c.value + HEADER_SIZE <= |buf|
      invariant nc + |Chain(buf, c, strict)| == |Chain(buf, FirstHdr(buf), strict)|
      decreases if c.Some? then |buf| - c.value + 1 else 0
    {
      nc, c := nc + 1, NextHdr(buf, c.value, strict);
    }
  }

  /** The length of a message's data as computed in size_t: below the header's size it wraps. */
  function DataLen(buf: seq<byte>, off: nat): nat
    requires off + HEADER_SIZE <= |buf|
  {
    (LenAt(buf, off) + (SIZE_LIMIT - HEADER_SIZE)) % SIZE_LIMIT
  }

  lemma {:induction false} DataFits(buf: seq<byte>, off: nat, room: nat)
    requires off + HEADER_SIZE <= |buf| && DataLen(buf, off) <= room < SIZE_LIMIT / 2
    ensures HEADER_SIZE <= LenAt(buf, off) && DataLen(buf, off) == LenAt(buf, off) - HEADER_SIZE
  {
    hide LenAt;
    LenBound(buf, off);
  }

  lemma {:induction false} LenBound(buf: seq<byte>, off: nat)
    requires off + HEADER_SIZE <= |buf|
    ensures LenAt(buf, off) < SIZE_LIMIT
  {
    FromLeBound(buf[off..off + 8]);
    assert Pow256(8) == SIZE_LIMIT;
  }

  /** No message that malloc has room for runs past the end of the buffer. */
  predicate Sound(buf: seq<byte>, off: nat, room: nat) {
    off + HEADER_SIZE <= |buf| && (DataLen(buf, off) <= room ==> LenAt(buf, off) <= |buf| - off)
  }

  lemma {:induction false} SoundIsWellFormed(buf: seq<byte>, off: nat, room: nat)
    requires Sound(buf, off, room) && room < SIZE_LIMIT / 2
    ensures DataLen(buf, off) <= room ==> WellFormedAt(buf, off)
  {
    hide LenAt, DataLen;
    if DataLen(buf, off) <= room { DataFits(buf, off, room); }
  }

  datatype Received = Received(levels: array<int32>, kinds: array<int32>, datas: array<seq<byte>>)

  /** The receive side: a counting pass, then one that fills arrays of that size; its index never leaves them. `room` is
      the largest block malloc gives for data, at most half the address space, and `arrays` tells whether it gives the
      arrays. */
  method Receive(ctrl: array<byte>, room: nat, arrays: bool, strict: bool) returns (r: Result<Received, string>)
    requires room < SIZE_LIMIT / 2
    requires forall off <- Chain(ctrl[..], FirstHdr(ctrl[..]), strict) :: Sound(ctrl[..], off, room)
    ensures var (buf, chain) := (ctrl[..], Chain(ctrl[..], FirstHdr(ctrl[..]), strict));
      && (r.Ok? <==>
            (chain == [] || arrays) && forall off <- chain :: Sound(buf, off, room) && DataLen(buf, off) <= room)
      && (r.Err? ==> r.error == "ENOMEM")
      && (r.Ok? ==>
            && fresh(r.value.levels) && fresh(r.value.kinds) && fresh(r.value.datas)
            && r.value.levels.Length == r.value.kinds.Length == r.value.datas.Length
            && (forall off <- chain :: WellFormedAt(buf, off))
            && Parsed(buf, chain) == Listed(r.value.levels[..], r.value.kinds[..], r.value.datas[..]))
  {
    hide WellFormedAt, DataLen, Parsed, Listed, Sound, Chain;
    var buf := ctrl[..];
    var nc := Count(buf, strict);
    if nc > 0 && !arrays {
      return Err("ENOMEM");
    }
    r := SecondPass(buf, nc, room, strict);
  }

  /** The filling pass. */
  method SecondPass(buf: seq<byte>, nc: nat, room: nat, strict: bool) returns (r: Result<Received, string>)
    requires room < SIZE_LIMIT / 2 && nc == |Chain(buf, FirstHdr(buf), strict)|
    requires forall off <- Chain(buf, FirstHdr(buf), strict) :: Sound(buf, off, room)
    ensures var chain := Chain(buf, FirstHdr(buf), strict);
      && (r.Ok? <==> forall off <- chain :: Sound(buf, off, room) && DataLen(buf, off) <= room)
      && (r.Err? ==> r.error == "ENOMEM")
      && (r.Ok? ==>
            && fresh(r.value.levels) && fresh(r.value.kinds) && fresh(r.value.datas)
            && r.value.levels.Length == r.value.kinds.Length == r.value.datas.Length
            && (forall off <- chain :: WellFormedAt(buf, off))
            && Parsed(buf, chain) == Listed(r.value.levels[..], r.value.kinds[..], r.value.datas[..]))
  {
    hide WellFormedAt, IntAt, LenAt, DataLen, NextHdr, MessageAt, Parsed, Listed;
    Nothing(buf);
    ghost var chain := Chain(buf, FirstHdr(buf), strict);
    var levels, kinds, datas := new int32[nc](_ => 0), new int32[nc](_ => 0), new seq<byte>[nc](_ => []);
    var i, c := 0, FirstHdr(buf);
    while c.Some?
      invariant c.Some? ==> c.value + HEADER_SIZE <= |buf|
      invariant levels.Length == kinds.Length == datas.Length == nc && levels != kinds
      invariant i <= |chain| == nc && Chain(buf, c, strict) == chain[i..]
      invariant forall off <- chain[..i] :: Sound(buf, off, room) && DataLen(buf, off) <= room && WellFormedAt(buf, off)
      invariant Parsed(buf, chain[..i]) == Listed(levels[..i], kinds[..i], datas[..i])
      decreases if c.Some? then |buf| - c.value + 1 else 0
    {
      var off := c.value;
      assert chain[i..][0] == chain[i] == off && chain[i..][1..] == chain[i + 1..];
      if DataLen(buf, off) > room {
        assert off in chain;
        return Err("ENOMEM");
      }
      SoundIsWellFormed(buf, off, room);
      var m := MessageAt(buf, off);
      assert chain[..i + 1] == chain[..i] + [off];
      ParsedSnoc(buf, chain[..i], off);
      Store(levels, kinds, datas, i, m);
      i, c := i + 1, NextHdr(buf, off, strict);
    }
    assert chain[i..] == [] && chain[..i] == chain;
    assert levels[..i] == levels[..] && kinds[..i] == kinds[..] && datas[..i] == datas[..];
    return Ok(Received(levels, kinds, datas));
  }

  method Store(levels: array<int32>, kinds: array<int32>, datas: array<seq<byte>>, i: nat, m: Message)
    requires levels != kinds && i < levels.Length == kinds.Length == datas.Length
    modifies levels, kinds, datas
    ensures Listed(levels[..i + 1], kinds[..i + 1], datas[..i + 1])
         == Listed(old(levels[..i]), old(kinds[..i]), old(datas[..i])) + [m]
  {
    hide Listed;
    levels[i], kinds[i], datas[i] := m.level, m.kind, m.data;
    ListedSnoc(levels[..i], kinds[..i], datas[..i], m);
    assert levels[..i + 1] == old(levels[..i]) + [m.level] && kinds[..i + 1] == old(kinds[..i]) + [m.kind];
    assert datas[..i + 1] == old(datas[..i]) + [m.data];
  }

  /** Parallel arrays as one list. */
  function Listed(levels: seq<int32>, kinds: seq<int32>, datas: seq<seq<byte>>): seq<Message>
    requires |levels| == |kinds| == |datas|
  {
    if levels == [] then []
    else
      var n := |levels| - 1;
      Listed(levels[..n], kinds[..n], datas[..n]) + [Message(levels[n], kinds[n], datas[n])]
  }

  lemma {:induction false} Nothing(buf: seq<byte>)
    ensures Parsed(buf, []) == [] == Listed([], [], [])
  {
  }

  lemma {:induction false} ListedSnoc(levels: seq<int32>, kinds: seq<int32>, datas: seq<seq<byte>>, m: Message)
    requires |levels| == |kinds| == |datas|
    ensures Listed(levels + [m.level], kinds + [m.kind], datas + [m.data]) == Listed(levels, kinds, datas) + [m]
  {
    var n := |levels|;
    assert (levels + [m.level])[..n] == levels && (kinds + [m.kind])[..n] == kinds && (datas + [m.data])[..n] == datas;
  }

  lemma {:induction false} ParsedSnoc(buf: seq<byte>, chain: seq<nat>, off: nat)
    requires WellFormedAt(buf, off) && forall k <- chain :: WellFormedAt(buf, k)
    ensures Parsed(buf, chain + [off]) == Parsed(buf, chain) + [MessageAt(buf, off)]
  {
    hide WellFormedAt, MessageAt;
    if chain != [] {
      ParsedSnoc(buf, chain[1..], off);
      assert (chain + [off])[1..] == chain[1..] + [off];
    }
  }

  // ---- from end to end ----

  lemma {:induction false} ParsedAt(buf: seq<byte>, chain: seq<nat>, i: nat)
    requires (forall off <- chain :: WellFormedAt(buf, off)) && i < |chain|
    ensures |Parsed(buf, chain)| == |chain| && Parsed(buf, chain)[i] == MessageAt(buf, chain[i])
  {
    hide WellFormedAt, MessageAt;
    if i > 0 {
      ParsedAt(buf, chain[1..], i - 1);
    } else if |chain| > 1 {
      ParsedAt(buf, chain[1..], 0);
    }
  }

  lemma {:induction false} LengthOfMessage(buf: seq<byte>, off: nat)
    requires WellFormedAt(buf, off)
    ensures DataLen(buf, off) == |MessageAt(buf, off).data|
  {
    hide LenAt, IntAt;
    LenBound(buf, off);
  }

  /** What Fill leaves, Receive can read: it gives back the very list, exactly when there is room for all data. */
  lemma {:induction false} PackedIsReceived(xs: seq<Message>, room: nat, strict: bool)
    requires Size(xs) < SIZE_LIMIT
    ensures var (buf, chain) := (Packed(xs), Chain(Packed(xs), FirstHdr(Packed(xs)), strict));
      && (forall off <- chain :: Sound(buf, off, room))
      && ((forall off <- chain :: DataLen(buf, off) <= room) <==> forall x <- xs :: |x.data| <= room)
      && (forall off <- chain :: WellFormedAt(buf, off)) && Parsed(buf, chain) == xs
  {
    hide Packed, Chain, Parsed, WellFormedAt, MessageAt, DataLen, Size;
    PackedReadsBack(xs, strict);
    var buf, chain := Packed(xs), Chain(Packed(xs), FirstHdr(Packed(xs)), strict);
    assert |xs| == |chain| by { ParsedCount(buf, chain); }
    forall i | 0 <= i < |chain|
      ensures Sound(buf, chain[i], room) && DataLen(buf, chain[i]) == |xs[i].data|
    {
      ParsedAt(buf, chain, i);
      LengthOfMessage(buf, chain[i]);
      WellFormedIsSound(buf, chain[i], room);
    }
    assert forall i :: 0 <= i < |chain| ==> chain[i] in chain && xs[i] in xs;
  }

  lemma {:induction false} ParsedCount(buf: seq<byte>, chain: seq<nat>)
    requires forall off <- chain :: WellFormedAt(buf, off)
    ensures |Parsed(buf, chain)| == |chain|
  {
    hide WellFormedAt, MessageAt;
    if chain != [] { ParsedAt(buf, chain, 0); }
  }

  lemma {:induction false} WellFormedIsSound(buf: seq<byte>, off: nat, room: nat)
    requires WellFormedAt(buf, off)
    ensures Sound(buf, off, room)
  {
    hide LenAt, DataLen;
  }

  /** A whole transfer over a buffer that arrives as it was sent. */
  method Transfer(xs: seq<Message>, room: nat, strict: bool) returns (r: Result<seq<Message>, string>)
    requires xs != [] && Size(xs) < SIZE_LIMIT && room < SIZE_LIMIT / 2
    ensures r == if forall x <- xs :: |x.data| <= room then Ok(xs) else Err("ENOMEM")
  {
    hide Packed, Chain, Parsed, WellFormedAt, DataLen, Size, Listed, Sound;
    var filled := Fill(xs, strict);
    PackedIsReceived(xs, room, strict);
    var got :- Receive(filled.value, room, true, strict);
    r := Ok(Listed(got.levels[..], got.kinds[..], got.datas[..]));
  }
}
