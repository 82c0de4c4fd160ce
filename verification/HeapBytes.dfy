/**
  The bytes of a heap whose blocks are laid out as in `Layout`, shared by the two heap allocators.

  Storing to a block header overwrites its `h` bytes; the lemmas say which payloads stay as they are.
 */
module HeapBytes {
  import opened Layout

  type byte = bv8

  const NULL := -1
  const SIZE_MODULUS := 0x1_0000_0000

  // RT_ALIGN in 32-bit arithmetic, for a power of two `align`.
  function AlignUp(size: nat, align: nat): (r: nat)
    requires align > 0
  {
    var q := (size + align - 1) % SIZE_MODULUS / align;
    assert 0 <= q;
    MulNonNegative(q, align);
    q * align
  }

  lemma MulNonNegative(a: nat, b: nat)
    ensures 0 <= a * b
  {
  }

  lemma AlignUpIsEnough(size: nat, align: nat)
    requires align > 0 && size + align - 1 < SIZE_MODULUS
    ensures size <= AlignUp(size, align) < size + align
  {
    var s := size + align - 1;
    assert s == s / align * align + s % align;
  }

  // A request rounds to nothing when it is zero, or when it is so large that the sum wraps around.
  lemma RoundsToZero(size: nat, align: nat)
    requires AlignOk(align) && size < SIZE_MODULUS
    ensures AlignUp(size, align) == 0 <==> size == 0 || size > SIZE_MODULUS - align
  {
    if size + align - 1 < SIZE_MODULUS {
      AlignUpIsEnough(size, align);
      assert (align - 1) / align == 0;
    } else {
      assert (size + align - 1) % SIZE_MODULUS == size + align - 1 - SIZE_MODULUS < align;
      assert (size + align - 1 - SIZE_MODULUS) / align == 0;
    }
  }

  // RT_ALIGN_SIZE is a power of two.
  predicate AlignOk(align: nat) {
    0 < align <= SIZE_MODULUS / 2 && SIZE_MODULUS % align == 0
  }

  ghost predicate InHeaders(s: set<int>, h: nat, i: int) {
    exists a :: a in s && a <= i < a + h
  }

  // Store to the headers at the addresses in `s`.
  function Stamped(mem: seq<byte>, s: set<int>, h: nat): (r: seq<byte>)
    ensures |r| == |mem|
    ensures forall i :: 0 <= i < |mem| && !InHeaders(s, h, i) ==> r[i] == mem[i]
  {
    seq(|mem|, i requires 0 <= i < |mem| => if exists a :: a in s && a <= i < a + h then 0 else mem[i])
  }

  function Bytes(m: seq<byte>, from: int, n: nat): seq<byte> {
    if 0 <= from && from + n <= |m| then m[from..from + n] else []
  }

  lemma SameSlice(m: seq<byte>, m': seq<byte>, from: int, to: int, n: nat)
    requires SameBytes(m, m', from, to) && from + n <= to
    ensures Bytes(m, from, n) == Bytes(m', from, n)
  {
  }

  ghost predicate SameBytes(m: seq<byte>, m': seq<byte>, from: int, to: int) {
    |m| == |m'| && forall i :: from <= i < to && 0 <= i < |m| ==> m'[i] == m[i]
  }

  // The payload of `b` is the same in both memories.
  ghost predicate Kept(h: nat, m: seq<byte>, m': seq<byte>, b: Block) {
    SameBytes(m, m', b.addr + h, End(h, b))
  }

  lemma StampKeeps(h: nat, pool: int, mem: seq<byte>, s: set<int>, bs: seq<Block>, bs': seq<Block>, b: Block)
    requires Tiles(h, 0, pool, bs) && Tiles(h, 0, pool, bs')
    requires forall a :: a in s ==> a in Addrs(bs) || a in Addrs(bs') || a + h <= 0
    requires b in bs && b in bs'
    ensures Kept(h, mem, Stamped(mem, s, h), b)
  {
    forall a | a in s ensures a <= b.addr || End(h, b) <= a {
      if a in Addrs(bs) {
        HeadersApart(h, 0, pool, bs, a, b);
      } else if a in Addrs(bs') {
        HeadersApart(h, 0, pool, bs', a, b);
      } else {
        TilesOrder(h, 0, pool, bs);
      }
    }
  }

  // Every address in `s` is a header of one of the two layouts, or lies outside the pool.
  ghost predicate OnlyHeaders(h: nat, s: set<int>, bs: seq<Block>, bs': seq<Block>) {
    forall a :: a in s ==> a in Addrs(bs) || a in Addrs(bs') || a + h <= 0
  }

  lemma StampKeepsAll(h: nat, pool: int, mem: seq<byte>, s: set<int>, bs: seq<Block>, bs': seq<Block>)
    requires Good(h, 0, pool, bs) && Good(h, 0, pool, bs') && OnlyHeaders(h, s, bs, bs')
    ensures forall b :: b in bs && b in bs' ==> Kept(h, mem, Stamped(mem, s, h), b)
  {
    forall b | b in bs && b in bs' ensures Kept(h, mem, Stamped(mem, s, h), b) {
      StampKeeps(h, pool, mem, s, bs, bs', b);
    }
  }

  // A block that is resized in place keeps the bytes that lie in both its payloads.
  lemma StampKeepsCommon(h: nat, pool: int, mem: seq<byte>, s: set<int>, bs: seq<Block>, bs': seq<Block>, b: Block, b': Block)
    requires Good(h, 0, pool, bs) && Good(h, 0, pool, bs') && OnlyHeaders(h, s, bs, bs')
    requires b in bs && b' in bs' && b.addr == b'.addr
    ensures SameBytes(mem, Stamped(mem, s, h), b.addr + h, b.addr + h + (if b'.size < b.size then b'.size else b.size))
  {
    forall a | a in s ensures a <= b.addr || End(h, b) <= a || End(h, b') <= a {
      if a in Addrs(bs) {
        HeadersApart(h, 0, pool, bs, a, b);
      } else if a in Addrs(bs') {
        HeadersApart(h, 0, pool, bs', a, b');
      } else {
        TilesOrder(h, 0, pool, bs);
      }
    }
  }

  // All live payloads but that of `x` are the same.
  ghost predicate OthersKept(h: nat, s: set<Block>, x: Block, m: seq<byte>, m': seq<byte>) {
    forall b :: b in s && b != x ==> Kept(h, m, m', b)
  }

  // The payload of `c` in `m'` starts with the first `n` bytes of that of `b` in `m`.
  ghost predicate Carried(h: nat, b: Block, m: seq<byte>, c: Block, m': seq<byte>, n: nat) {
    Bytes(m', c.addr + h, n) == Bytes(m, b.addr + h, n)
  }

  // A store to a header leaves nothing of what was there.
  lemma HeadersAreOverwritten(mem: seq<byte>, s: set<int>, h: nat, a: int, i: nat)
    requires a in s && a <= i < a + h && i < |mem|
    ensures Stamped(mem, s, h)[i] == 0
  {
  }

  // What it means that bytes are kept and carried over, byte for byte.
  lemma KeptByteForByte(h: nat, m: seq<byte>, m': seq<byte>, b: Block, j: nat)
    requires Kept(h, m, m', b) && 0 <= b.addr && End(h, b) <= |m| && j < b.size
    ensures End(h, b) == b.addr + h + b.size && |m'| == |m| && m'[b.addr + h + j] == m[b.addr + h + j]
  {
  }

  lemma CarriedByteForByte(h: nat, b: Block, m: seq<byte>, c: Block, m': seq<byte>, n: nat, j: nat)
    requires Carried(h, b, m, c, m', n) && 0 <= b.addr && b.addr + h + n <= |m| && 0 <= c.addr && c.addr + h + n <= |m'| && j < n
    ensures m'[c.addr + h + j] == m[b.addr + h + j]
  {
    assert m'[c.addr + h + j] == m'[c.addr + h..c.addr + h + n][j];
    assert m[b.addr + h + j] == m[b.addr + h..b.addr + h + n][j];
  }

  // Writing into the payload of one live block leaves the others alone.
  lemma CopyKeeps(h: nat, pool: int, bs: seq<Block>, m: seq<byte>, m': seq<byte>, c: Block, n: nat)
    requires Good(h, 0, pool, bs) && c in UsedSet(bs) && n <= c.size && |m| == |m'|
    requires forall j :: 0 <= j < |m| && (j < c.addr + h || j >= c.addr + h + n) ==> m'[j] == m[j]
    ensures forall b :: b in UsedSet(bs) && b != c ==> Kept(h, m, m', b)
  {
    forall b | b in UsedSet(bs) && b != c ensures Kept(h, m, m', b) {
      BlockPairApart(h, pool, bs, b, c);
    }
  }

  lemma BlockPairApart(h: nat, pool: int, bs: seq<Block>, b: Block, c: Block)
    requires Good(h, 0, pool, bs) && b in bs && c in bs && b != c
    ensures End(h, b) <= c.addr || End(h, c) <= b.addr
  {
    var i :| 0 <= i < |bs| && bs[i] == b;
    var j :| 0 <= j < |bs| && bs[j] == c;
    if i < j { BlocksApart(h, 0, pool, bs, i, j); } else { BlocksApart(h, 0, pool, bs, j, i); }
  }

  lemma KeptTwice(h: nat, s: set<Block>, m1: seq<byte>, m2: seq<byte>, m3: seq<byte>)
    requires forall x :: x in s ==> Kept(h, m1, m2, x)
    requires forall x :: x in s ==> Kept(h, m2, m3, x)
    ensures forall x :: x in s ==> Kept(h, m1, m3, x)
  {
    forall x | x in s ensures Kept(h, m1, m3, x) {
      assert Kept(h, m1, m2, x) && Kept(h, m2, m3, x);
    }
  }

  lemma KeptSlice(h: nat, m: seq<byte>, m': seq<byte>, b: Block, n: nat)
    requires Kept(h, m, m', b) && n <= b.size
    ensures Bytes(m, b.addr + h, n) == Bytes(m', b.addr + h, n)
  {
    SameSlice(m, m', b.addr + h, End(h, b), n);
  }
}
