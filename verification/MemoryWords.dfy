/** riscv-tests/benchmarks/common/syscalls.c: memcpy and memset, which work word by word when the
    pointers and the length allow it.  Memory is an array of bytes; a word has W of them, lowest
    address first. */
module MemoryWords {
  import opened Arithmetic

  /** The n bytes at dest are those that were at src, and no other byte has changed. */
  ghost predicate Copied(before: seq<bv8>, after: seq<bv8>, dest: nat, src: nat, n: nat) {
    && dest + n <= |before| && src + n <= |before|
    && after == before[..dest] + before[src..src + n] + before[dest + n..]
  }

  predicate Apart(dest: nat, src: nat, len: nat) { dest + len <= src || src + len <= dest }

  /** The test for the word path: no low bit is set in any of the three. */
  predicate Aligned(dest: nat, src: nat, len: nat, W: nat)
    requires W > 0
  {
    dest % W == 0 && src % W == 0 && WholeWords(len, W)
  }

  method LoadWord(mem: array<bv8>, s: nat, W: nat) returns (w: seq<bv8>)
    requires s + W <= mem.Length
    ensures w == mem[s..s + W]
  {
    w := mem[s..s + W];
  }

  method StoreWord(mem: array<bv8>, d: nat, w: seq<bv8>)
    requires d + |w| <= mem.Length
    modifies mem
    ensures mem[..] == old(mem[..d]) + w + old(mem[d + |w|..])
  {
    ghost var before := mem[..];
    var k := 0;
    while k < |w|
      invariant 0 <= k <= |w|
      invariant forall q :: 0 <= q < |before| ==> mem[q] == if d <= q < d + k then w[q - d] else before[q]
    {
      mem[d + k] := w[k];
      k := k + 1;
    }
    assert mem[..] == before[..d] + w + before[d + |w|..];
  }

  /** Storing the next word of the source. */
  lemma NextWord(before: seq<bv8>, mid: seq<bv8>, after: seq<bv8>, dest: nat, src: nat, n: nat, w: seq<bv8>)
    requires Copied(before, mid, dest, src, n) && src + n + |w| <= |before| && dest + n + |w| <= |before|
    requires w == before[src + n..src + n + |w|]
    requires after == mid[..dest + n] + w + mid[dest + n + |w|..]
    ensures Copied(before, after, dest, src, n + |w|)
  {
    assert mid[..dest + n] == before[..dest] + before[src..src + n];
    assert mid[dest + n + |w|..] == before[dest + n + |w|..];
    assert before[src..src + n] + w == before[src..src + n + |w|];
  }

  /** The source is not changed by what has been copied. */
  lemma SourceKept(before: seq<bv8>, after: seq<bv8>, dest: nat, src: nat, n: nat, lo: nat, hi: nat)
    requires Copied(before, after, dest, src, n) && lo <= hi <= |before| && (hi <= dest || dest + n <= lo)
    ensures |after| == |before| && after[lo..hi] == before[lo..hi]
  {
  }

  lemma CopiedNothing(s: seq<bv8>, dest: nat, src: nat)
    requires dest <= |s| && src <= |s|
    ensures Copied(s, s, dest, src, 0)
  {
  }

  method PutWord(mem: array<bv8>, ghost before: seq<bv8>, dest: nat, ghost src: nat, n: nat, w: seq<bv8>)
    requires Copied(before, mem[..], dest, src, n)
    requires src + n + |w| <= |before| && dest + n + |w| <= |before| == mem.Length
      && w == before[src + n..src + n + |w|]
    modifies mem
    ensures Copied(before, mem[..], dest, src, n + |w|)
  {
    hide Copied;
    ghost var mid := mem[..];
    assert mem[..dest + n] == mid[..dest + n] && mem[dest + n + |w|..] == mid[dest + n + |w|..];
    StoreWord(mem, dest + n, w);
    NextWord(before, mid, mem[..], dest, src, n, w);
  }

  /** Reading a word of the source. */
  method GetWord(mem: array<bv8>, ghost before: seq<bv8>, ghost dest: nat, src: nat, ghost n: nat, x: nat,
                 ghost len: nat, W: nat)
    returns (w: seq<bv8>)
    requires Copied(before, mem[..], dest, src, n) && Apart(dest, src, len) && dest + len <= |before| == mem.Length
    requires n <= len && x + W <= len && src + len <= |before|
    ensures |w| == W && w == before[src + x..src + x + W]
  {
    SourceKept(before, mem[..], dest, src, n, src + x, src + x + W);
    hide Copied;
    assert mem[src + x..src + x + W] == mem[..][src + x..src + x + W];
    w := LoadWord(mem, src + x, W);
  }

  /** *d++ = *s++, with words. */
  method CopyWord(mem: array<bv8>, ghost before: seq<bv8>, dest: nat, src: nat, n: nat, ghost len: nat, W: nat)
    requires n + W <= len && Apart(dest, src, len) && dest + len <= mem.Length && src + len <= mem.Length == |before|
    requires Copied(before, mem[..], dest, src, n)
    modifies mem
    ensures Copied(before, mem[..], dest, src, n + W)
  {
    hide Copied;
    var w := GetWord(mem, before, dest, src, n, n, len, W);
    PutWord(mem, before, dest, src, n, w);
  }

  /** The body of the unrolled loop: eight words are read before the first is written. */
  method CopyEight(mem: array<bv8>, ghost before: seq<bv8>, dest: nat, src: nat, n: nat, ghost len: nat, W: nat)
    requires n + 8 * W <= len && Apart(dest, src, len) && dest + len <= mem.Length
      && src + len <= mem.Length == |before|
    requires Copied(before, mem[..], dest, src, n)
    modifies mem
    ensures Copied(before, mem[..], dest, src, n + 8 * W)
  {
    hide Copied, Apart;
    var r0, r1, r2, r3 := GetFour(mem, before, dest, src, n, n, len, W);
    var r4, r5, r6, r7 := GetFour(mem, before, dest, src, n, n + 4 * W, len, W);
    PutFour(mem, before, dest, src, n, W, r0, r1, r2, r3);
    PutFour(mem, before, dest, src, n + 4 * W, W, r4, r5, r6, r7);
  }

  /** Reading four neighbouring words. */
  method GetFour(mem: array<bv8>, ghost before: seq<bv8>, ghost dest: nat, src: nat, ghost n: nat, x: nat,
                 ghost len: nat, W: nat)
    returns (r0: seq<bv8>, r1: seq<bv8>, r2: seq<bv8>, r3: seq<bv8>)
    requires Copied(before, mem[..], dest, src, n) && Apart(dest, src, len) && dest + len <= |before| == mem.Length
    requires n <= len && x + 4 * W <= len && src + len <= |before|
    ensures |r0| == |r1| == |r2| == |r3| == W
    ensures r0 == before[src + x..src + x + W] && r1 == before[src + x + W..src + x + W + W]
    ensures r2 == before[src + x + 2 * W..src + x + 2 * W + W] && r3 == before[src + x + 3 * W..src + x + 3 * W + W]
  {
    hide Copied, Apart;
    r0 := GetWord(mem, before, dest, src, n, x, len, W);
    r1 := GetWord(mem, before, dest, src, n, x + W, len, W);
    r2 := GetWord(mem, before, dest, src, n, x + 2 * W, len, W);
    r3 := GetWord(mem, before, dest, src, n, x + 3 * W, len, W);
  }

  /** Writing four neighbouring words. */
  method PutFour(mem: array<bv8>, ghost before: seq<bv8>, dest: nat, ghost src: nat, n: nat, W: nat,
                 r0: seq<bv8>, r1: seq<bv8>, r2: seq<bv8>, r3: seq<bv8>)
    requires Copied(before, mem[..], dest, src, n)
    requires src + n + 4 * W <= |before| && dest + n + 4 * W <= |before| == mem.Length
      && |r0| == |r1| == |r2| == |r3| == W
    requires r0 == before[src + n..src + n + W] && r1 == before[src + n + W..src + n + W + W]
    requires r2 == before[src + n + 2 * W..src + n + 2 * W + W] && r3 == before[src + n + 3 * W..src + n + 3 * W + W]
    modifies mem
    ensures Copied(before, mem[..], dest, src, n + 4 * W)
  {
    hide Copied;
    PutWord(mem, before, dest, src, n, r0);
    PutWord(mem, before, dest, src, n + W, r1);
    PutWord(mem, before, dest, src, n + 2 * W, r2);
    PutWord(mem, before, dest, src, n + 3 * W, r3);
  }

  /** A number of bytes that can be taken word by word. */
  predicate WholeWords(len: nat, W: nat)
    requires W > 0
  {
    len % W == 0
  }

  /** n bytes are u words. */
  predicate Words(n: nat, u: nat, W: nat) { n == u * W }

  lemma MoreWords(n: nat, u: nat, W: nat)
    requires Words(n, u, W)
    ensures Words(n + W, u + 1, W) && Words(n + 8 * W, u + 8, W)
  {
    assert (u + 1) * W == u * W + W && (u + 8) * W == u * W + 8 * W;
  }

  lemma WordsLeft(n: nat, len: nat, W: nat, u: nat)
    requires W > 0 && WholeWords(len, W) && Words(n, u, W) && n < len
    ensures n + W <= len
  {
    var g := len / W;
    assert len == W * g;
    if g <= u {
      MulMonotone(g, u, W);
    } else {
      MulMonotone(u + 1, g, W);
    }
  }

  /** memcpy on areas that do not overlap. */
  method Memcpy(mem: array<bv8>, dest: nat, src: nat, len: nat, W: nat)
    requires (W == 4 || W == 8) && Apart(dest, src, len) && dest + len <= mem.Length && src + len <= mem.Length
    modifies mem
    ensures Copied(old(mem[..]), mem[..], dest, src, len)
  {
    CopiedNothing(mem[..], dest, src);
    var n := 0;
    if Aligned(dest, src, len, W) {
      WordPath(mem, dest, src, len, W);
    } else {
      hide Copied;
      while n < len
        invariant 0 <= n <= len
        invariant Copied(old(mem[..]), mem[..], dest, src, n)
      {
        CopyWord(mem, old(mem[..]), dest, src, n, len, 1);
        n := n + 1;
      }
    }
  }

  /** The branch of memcpy that works with words. */
  method WordPath(mem: array<bv8>, dest: nat, src: nat, len: nat, W: nat)
    requires W > 0 && WholeWords(len, W) && Apart(dest, src, len) && dest + len <= mem.Length && src + len <= mem.Length
    modifies mem
    ensures Copied(old(mem[..]), mem[..], dest, src, len)
  {
    CopiedNothing(mem[..], dest, src);
    hide Copied, WholeWords, Apart;
    ghost var before := mem[..];
    ghost var u;
    var n;
    n, u := UnrolledLoop(mem, before, dest, src, len, W);
    TailLoop(mem, before, dest, src, n, len, W, u);
  }

  method UnrolledLoop(mem: array<bv8>, ghost before: seq<bv8>, dest: nat, src: nat, len: nat, W: nat)
      returns (n: nat, ghost u: nat)
    requires W > 0 && Apart(dest, src, len) && dest + len <= mem.Length && src + len <= mem.Length == |before|
    requires Copied(before, mem[..], dest, src, 0)
    modifies mem
    ensures n <= len && Words(n, u, W) && Copied(before, mem[..], dest, src, n)
  {
    assert Words(0, 0, W);
    hide Copied, Words, Apart;
    n, u := 0, 0;
    while n + 8 * W < len
      invariant 0 <= n <= len && Words(n, u, W)
      invariant Copied(before, mem[..], dest, src, n)
    {
      MoreWords(n, u, W);
      CopyEight(mem, before, dest, src, n, len, W);
      n := n + 8 * W;
      u := u + 8;
    }
  }

  method TailLoop(mem: array<bv8>, ghost before: seq<bv8>, dest: nat, src: nat, n0: nat, len: nat, W: nat,
                  ghost u0: nat)
    requires W > 0 && WholeWords(len, W) && Apart(dest, src, len) && dest + len <= mem.Length
      && src + len <= mem.Length == |before|
    requires n0 <= len && Words(n0, u0, W) && Copied(before, mem[..], dest, src, n0)
    modifies mem
    ensures Copied(before, mem[..], dest, src, len)
  {
    hide Copied, Words, WholeWords, Apart;
    var n := n0;
    ghost var u := u0;
    while n < len
      invariant 0 <= n <= len && 0 <= u && Words(n, u, W)
      invariant Copied(before, mem[..], dest, src, n)
    {
      WordsLeft(n, len, W, u);
      MoreWords(n, u, W);
      CopyWord(mem, before, dest, src, n, len, W);
      n := n + W;
      u := u + 1;
    }
  }

  // ---------- memset ----------

  /** The fill word of a 64-bit machine. */
  function Fill64(b: bv8): bv64 {
    var w0 := b as bv64;
    var w1 := w0 | (w0 << 8);
    var w2 := w1 | (w1 << 16);
    w2 | ((w2 << 16) << 16)
  }

  /** The fill word of a 32-bit machine, where the last step shifts everything out. */
  function Fill32(b: bv8): bv32 {
    var w0 := b as bv32;
    var w1 := w0 | (w0 << 8);
    var w2 := w1 | (w1 << 16);
    w2 | ((w2 << 16) << 16)
  }

  function Bytes64(w: bv64): seq<bv8> {
    [(w & 0xFF) as bv8, ((w >> 8) & 0xFF) as bv8, ((w >> 16) & 0xFF) as bv8, ((w >> 24) & 0xFF) as bv8,
     ((w >> 32) & 0xFF) as bv8, ((w >> 40) & 0xFF) as bv8, ((w >> 48) & 0xFF) as bv8, ((w >> 56) & 0xFF) as bv8]
  }

  function Bytes32(w: bv32): seq<bv8> {
    [(w & 0xFF) as bv8, ((w >> 8) & 0xFF) as bv8, ((w >> 16) & 0xFF) as bv8, ((w >> 24) & 0xFF) as bv8]
  }

  /** Every byte of the fill word is the fill byte, at either word size. */
  lemma FillWords(b: bv8)
    ensures Bytes64(Fill64(b)) == seq(8, _ => b)
    ensures Bytes32(Fill32(b)) == seq(4, _ => b)
  {
  }

  /** The len bytes at dest are b, and no other byte has changed. */
  ghost predicate Filled(before: seq<bv8>, after: seq<bv8>, dest: nat, b: bv8, len: nat) {
    dest + len <= |before| && after == before[..dest] + seq(len, _ => b) + before[dest + len..]
  }

  lemma FilledMore(before: seq<bv8>, mid: seq<bv8>, after: seq<bv8>, dest: nat, b: bv8, n: nat, w: seq<bv8>)
    requires Filled(before, mid, dest, b, n) && dest + n + |w| <= |before| && w == seq(|w|, _ => b)
    requires after == mid[..dest + n] + w + mid[dest + n + |w|..]
    ensures Filled(before, after, dest, b, n + |w|)
  {
    assert seq(n, _ => b) + w == seq(n + |w|, _ => b);
    assert mid[dest + n + |w|..] == before[dest + n + |w|..];
    assert mid[..dest + n] == before[..dest] + seq(n, _ => b);
  }

  lemma FilledNothing(s: seq<bv8>, dest: nat, b: bv8)
    requires dest <= |s|
    ensures Filled(s, s, dest, b, 0)
  {
  }

  /** The fill word, as the bytes it puts into memory. */
  method FillWord(b: bv8, W: nat) returns (w: seq<bv8>)
    requires W == 4 || W == 8
    ensures |w| == W && w == seq(W, _ => b)
  {
    FillWords(b);
    w := if W == 8 then Bytes64(Fill64(b)) else Bytes32(Fill32(b));
  }

  /** The loops of memset: words or single bytes. */
  method FillLoop(mem: array<bv8>, dest: nat, b: bv8, len: nat, w: seq<bv8>)
    requires |w| > 0 && WholeWords(len, |w|) && w == seq(|w|, _ => b) && dest + len <= mem.Length
    modifies mem
    ensures Filled(old(mem[..]), mem[..], dest, b, len)
  {
    FilledNothing(mem[..], dest, b);
    assert Words(0, 0, |w|);
    hide Filled, Words, WholeWords;
    ghost var before := mem[..];
    var n := 0;
    ghost var u := 0;
    while n < len
      invariant 0 <= n <= len && 0 <= u && Words(n, u, |w|)
      invariant Filled(before, mem[..], dest, b, n)
    {
      WordsLeft(n, len, |w|, u);
      MoreWords(n, u, |w|);
      ghost var mid := mem[..];
      assert mem[..dest + n] == mid[..dest + n] && mem[dest + n + |w|..] == mid[dest + n + |w|..];
      StoreWord(mem, dest + n, w);
      FilledMore(before, mid, mem[..], dest, b, n, w);
      n := n + |w|;
      u := u + 1;
    }
  }

  /** memset */
  method Memset(mem: array<bv8>, dest: nat, byte: int, len: nat, W: nat)
    requires (W == 4 || W == 8) && dest + len <= mem.Length
    modifies mem
    ensures Filled(old(mem[..]), mem[..], dest, (byte % 256) as bv8, len)
  {
    hide Filled;
    var b := (byte % 256) as bv8;
    if dest % W == 0 && WholeWords(len, W) {
      var w := FillWord(b, W);
      FillLoop(mem, dest, b, len, w);
    } else {
      assert WholeWords(len, 1);
      assert [b] == seq(1, _ => b);
      FillLoop(mem, dest, b, len, [b]);
    }
  }
}
