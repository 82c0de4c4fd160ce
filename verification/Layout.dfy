/**
  Block layouts of the heap allocators (src/memheap.c, src/mem.c).

  A heap is a sequence of blocks in address order.  Each block is a header of `h` bytes followed by
  `size` payload bytes, and the next block starts where it ends.  The functions here are what the
  allocators do to the sequence; the lemmas say what that keeps.
 */
module Layout {
  datatype Block = Block(addr: int, size: nat, used: bool)

  function End(h: nat, b: Block): int { b.addr + h + b.size }

  // The blocks cover [lo, hi) without gap or overlap.
  ghost predicate Tiles(h: nat, lo: int, hi: int, bs: seq<Block>)
    decreases bs
  {
    if bs == [] then lo == hi
    else bs[0].addr == lo && Tiles(h, End(h, bs[0]), hi, bs[1..])
  }

  ghost predicate NoTwoFree(bs: seq<Block>)
    decreases bs
  {
    |bs| < 2 || ((bs[0].used || bs[1].used) && NoTwoFree(bs[1..]))
  }

  function FreeSum(bs: seq<Block>): nat {
    if bs == [] then 0 else (if bs[0].used then 0 else bs[0].size) + FreeSum(bs[1..])
  }

  function UsedSum(h: nat, bs: seq<Block>): nat {
    if bs == [] then 0 else (if bs[0].used then h + bs[0].size else 0) + UsedSum(h, bs[1..])
  }

  ghost function UsedSet(bs: seq<Block>): set<Block> {
    set b | b in bs && b.used
  }

  ghost function FreeAddrs(bs: seq<Block>): set<int> {
    set b | b in bs && !b.used :: b.addr
  }

  function Addrs(bs: seq<Block>): (r: seq<int>)
    ensures |r| == |bs| && forall i :: 0 <= i < |bs| ==> r[i] == bs[i].addr
  {
    seq(|bs|, i requires 0 <= i < |bs| => bs[i].addr)
  }

  // ----- concatenation

  lemma {:induction false} TilesConcat(h: nat, lo: int, mid: int, hi: int, a: seq<Block>, b: seq<Block>)
    requires Tiles(h, lo, mid, a) && Tiles(h, mid, hi, b)
    ensures Tiles(h, lo, hi, a + b)
    decreases a
  {
    if a == [] {
      assert a + b == b;
    } else {
      TilesConcat(h, End(h, a[0]), mid, hi, a[1..], b);
      assert (a + b)[1..] == a[1..] + b;
    }
  }

  // Where a run of blocks that starts at `lo` ends.
  function Mid(lo: int, h: nat, bs: seq<Block>): int {
    if bs == [] then lo else End(h, bs[|bs| - 1])
  }

  lemma {:induction false} TilesSplit(h: nat, lo: int, hi: int, a: seq<Block>, b: seq<Block>)
    requires Tiles(h, lo, hi, a + b)
    ensures Tiles(h, lo, Mid(lo, h, a), a) && Tiles(h, Mid(lo, h, a), hi, b)
    ensures b != [] ==> b[0].addr == Mid(lo, h, a)
    decreases a
  {
    if a == [] {
      assert a + b == b;
    } else {
      assert (a + b)[1..] == a[1..] + b;
      TilesSplit(h, End(h, a[0]), hi, a[1..], b);
    }
  }

  lemma {:induction false} TilesOrder(h: nat, lo: int, hi: int, bs: seq<Block>)
    requires Tiles(h, lo, hi, bs)
    ensures lo <= hi && forall b :: b in bs ==> lo <= b.addr && End(h, b) <= hi
    decreases bs
  {
    if bs != [] {
      TilesOrder(h, End(h, bs[0]), hi, bs[1..]);
    }
  }

  lemma {:induction false} NoTwoFreeConcat(a: seq<Block>, b: seq<Block>)
    ensures NoTwoFree(a + b) <==>
      NoTwoFree(a) && NoTwoFree(b) && (a == [] || b == [] || a[|a| - 1].used || b[0].used)
    decreases a
  {
    if a == [] {
      assert a + b == b;
    } else {
      NoTwoFreeConcat(a[1..], b);
      assert (a + b)[1..] == a[1..] + b;
      if |a| == 1 {
        assert a + b == [a[0]] + b;
      }
    }
  }

  lemma {:induction false} SumsConcat(h: nat, a: seq<Block>, b: seq<Block>)
    ensures FreeSum(a + b) == FreeSum(a) + FreeSum(b)
    ensures UsedSum(h, a + b) == UsedSum(h, a) + UsedSum(h, b)
    decreases a
  {
    if a == [] {
      assert a + b == b;
    } else {
      SumsConcat(h, a[1..], b);
      assert (a + b)[1..] == a[1..] + b;
    }
  }

  // ----- separation

  // Two different blocks do not overlap.
  lemma BlocksApart(h: nat, lo: int, hi: int, bs: seq<Block>, i: nat, j: nat)
    requires Tiles(h, lo, hi, bs) && i < j < |bs|
    ensures End(h, bs[i]) <= bs[j].addr
  {
    assert bs == bs[..i] + bs[i..];
    TilesSplit(h, lo, hi, bs[..i], bs[i..]);
    TilesOrder(h, End(h, bs[i]), hi, bs[i..][1..]);
    assert bs[i..][1..][j - i - 1] == bs[j];
  }

  // No header lies in a payload: a block that starts at `a` starts at or before the header of `b`, or
  // behind the payload of `b`.
  lemma HeadersApart(h: nat, lo: int, hi: int, bs: seq<Block>, a: int, b: Block)
    requires Tiles(h, lo, hi, bs) && a in Addrs(bs) && b in bs
    ensures a <= b.addr || End(h, b) <= a
  {
    var i :| 0 <= i < |bs| && Addrs(bs)[i] == a;
    var j :| 0 <= j < |bs| && bs[j] == b;
    if i < j { BlocksApart(h, lo, hi, bs, i, j); }
    if j < i { BlocksApart(h, lo, hi, bs, j, i); }
  }

  lemma InsideIsNoAddr(h: nat, lo: int, hi: int, bs: seq<Block>, i: nat, a: int)
    requires Tiles(h, lo, hi, bs) && i < |bs| && bs[i].addr < a < End(h, bs[i])
    ensures a !in Addrs(bs)
  {
    if a in Addrs(bs) {
      var j :| 0 <= j < |bs| && Addrs(bs)[j] == a;
      if i < j { BlocksApart(h, lo, hi, bs, i, j); }
      if j < i { BlocksApart(h, lo, hi, bs, j, i); }
    }
  }

  // The used bits, kept by address, agree with the blocks.
  ghost predicate Bits(inUse: map<int, bool>, bs: seq<Block>) {
    forall b :: b in bs ==> b.addr in inUse && inUse[b.addr] == b.used
  }

  lemma SpliceBits(h: nat, lo: int, hi: int, bs: seq<Block>, i: nat, k: nat, n: seq<Block>, u: map<int, bool>, u': map<int, bool>)
    requires Tiles(h, lo, hi, bs) && h > 0 && i <= k <= |bs| && Bits(u, bs) && Bits(u', n)
    requires forall a :: a in u && a in Addrs(bs) && a !in Addrs(bs[i..k]) ==> a in u' && u'[a] == u[a]
    ensures Bits(u', Splice(bs, i, k, n))
  {
    SpliceMembers(h, lo, hi, bs, i, k, n);
    forall b | b in bs && b !in bs[i..k] ensures b.addr in Addrs(bs) && b.addr !in Addrs(bs[i..k]) {
      var j :| 0 <= j < |bs| && bs[j] == b;
      assert Addrs(bs)[j] == b.addr;
      if b.addr in Addrs(bs[i..k]) {
        var q :| 0 <= q < k - i && Addrs(bs[i..k])[q] == b.addr;
        SameAddr(h, lo, hi, bs, b, bs[i + q]);
      }
    }
  }

  lemma AddrsDistinct(h: nat, lo: int, hi: int, bs: seq<Block>, i: nat, j: nat)
    requires Tiles(h, lo, hi, bs) && h > 0 && i < |bs| && j < |bs| && bs[i].addr == bs[j].addr
    ensures i == j
  {
    if i < j { BlocksApart(h, lo, hi, bs, i, j); }
    if j < i { BlocksApart(h, lo, hi, bs, j, i); }
  }

  // ----- replacing a run of blocks by another that spans the same bytes

  ghost predicate SameSpan(h: nat, m: seq<Block>, n: seq<Block>) {
    && m != [] && n != [] && n[0].addr == m[0].addr
    && Tiles(h, m[0].addr, Mid(m[0].addr, h, m), n)
  }

  function Splice(bs: seq<Block>, i: nat, k: nat, n: seq<Block>): seq<Block>
    requires i <= k <= |bs|
  {
    bs[..i] + n + bs[k..]
  }

  lemma SpliceTiles(h: nat, lo: int, hi: int, bs: seq<Block>, i: nat, k: nat, n: seq<Block>)
    requires Tiles(h, lo, hi, bs) && i < k <= |bs| && SameSpan(h, bs[i..k], n)
    ensures Tiles(h, lo, hi, Splice(bs, i, k, n))
  {
    var a, m, c := bs[..i], bs[i..k], bs[k..];
    var s := Mid(lo, h, a);
    assert bs[i..] == m + c;
    TilesTail(h, lo, hi, bs, i);
    TilesSplit(h, s, hi, m, c);
    TilesConcat(h, s, Mid(s, h, m), hi, n, c);
    TilesConcat(h, lo, s, hi, a, n + c);
    assert a + n + c == a + (n + c);
  }

  lemma TilesTail(h: nat, lo: int, hi: int, bs: seq<Block>, i: nat)
    requires Tiles(h, lo, hi, bs) && i < |bs|
    ensures Tiles(h, lo, Mid(lo, h, bs[..i]), bs[..i]) && Tiles(h, Mid(lo, h, bs[..i]), hi, bs[i..])
    ensures bs[i].addr == Mid(lo, h, bs[..i])
  {
    assert bs == bs[..i] + bs[i..];
    TilesSplit(h, lo, hi, bs[..i], bs[i..]);
  }

  lemma SpliceSums(h: nat, bs: seq<Block>, i: nat, k: nat, n: seq<Block>)
    requires i <= k <= |bs|
    ensures FreeSum(Splice(bs, i, k, n)) == FreeSum(bs) - FreeSum(bs[i..k]) + FreeSum(n)
    ensures UsedSum(h, Splice(bs, i, k, n)) == UsedSum(h, bs) - UsedSum(h, bs[i..k]) + UsedSum(h, n)
  {
    var a, m, c := bs[..i], bs[i..k], bs[k..];
    assert bs == a + (m + c) && a + n + c == a + (n + c);
    SumsConcat(h, a, m + c);
    SumsConcat(h, m, c);
    SumsConcat(h, a, n + c);
    SumsConcat(h, n, c);
  }

  lemma SpliceNoTwoFree(bs: seq<Block>, i: nat, k: nat, n: seq<Block>)
    requires NoTwoFree(bs) && i <= k <= |bs| && NoTwoFree(n) && n != []
    requires i == 0 || bs[i - 1].used || n[0].used
    requires k == |bs| || bs[k].used || n[|n| - 1].used
    ensures NoTwoFree(Splice(bs, i, k, n))
  {
    var a, m, c := bs[..i], bs[i..k], bs[k..];
    assert bs == a + bs[i..];
    NoTwoFreeConcat(a, bs[i..]);
    assert bs == bs[..k] + c;
    NoTwoFreeConcat(bs[..k], c);
    NoTwoFreeConcat(a, n);
    NoTwoFreeConcat(a + n, c);
    assert (a + n)[|a + n| - 1] == n[|n| - 1];
  }

  lemma SpliceAddrs(bs: seq<Block>, i: nat, k: nat, n: seq<Block>)
    requires i <= k <= |bs|
    ensures Addrs(Splice(bs, i, k, n)) == Addrs(bs)[..i] + Addrs(n) + Addrs(bs)[k..]
  {
  }

  // Membership in a spliced sequence, for blocks and for free addresses.
  lemma SpliceMembers(h: nat, lo: int, hi: int, bs: seq<Block>, i: nat, k: nat, n: seq<Block>)
    requires Tiles(h, lo, hi, bs) && h > 0 && i <= k <= |bs|
    ensures forall b :: b in Splice(bs, i, k, n) <==> b in n || (b in bs && b !in bs[i..k])
  {
    var s := Splice(bs, i, k, n);
    forall b | b in bs && b !in bs[i..k] ensures b in s {
      assert bs == bs[..i] + bs[i..k] + bs[k..];
    }
    forall b | b in s && b !in n ensures b in bs && b !in bs[i..k] {
      OutsideRun(h, lo, hi, bs, i, k, b);
    }
  }

  lemma OutsideRun(h: nat, lo: int, hi: int, bs: seq<Block>, i: nat, k: nat, b: Block)
    requires Tiles(h, lo, hi, bs) && h > 0 && i <= k <= |bs|
    requires b in bs[..i] || b in bs[k..]
    ensures b in bs && b !in bs[i..k]
  {
    var j :| 0 <= j < |bs| && bs[j] == b && (j < i || j >= k);
    if b in bs[i..k] {
      var q :| 0 <= q < k - i && bs[i..k][q] == b;
      AddrsDistinct(h, lo, hi, bs, j, i + q);
    }
  }

  // ----- what the allocators do

  // A used block of `size` bytes cut from the front of `b`, and the free remainder.
  function Halves(h: nat, b: Block, size: nat): (r: seq<Block>)
    requires size + h <= b.size
    ensures |r| == 2
  {
    [Block(b.addr, size, true), Block(b.addr + h + size, b.size - size - h, false)]
  }

  // Use the front of free block `i` for `size` bytes and leave a free remainder.
  function Split(h: nat, bs: seq<Block>, i: nat, size: nat): seq<Block>
    requires i < |bs| && size + h <= bs[i].size
  {
    Splice(bs, i, i + 1, Halves(h, bs[i], size))
  }

  // Use free block `i` whole.
  function Take(bs: seq<Block>, i: nat): seq<Block>
    requires i < |bs|
  {
    Splice(bs, i, i + 1, [bs[i].(used := true)])
  }

  predicate LeftFree(bs: seq<Block>, i: nat) { 0 < i < |bs| && !bs[i - 1].used }

  predicate RightFree(bs: seq<Block>, i: nat) { i + 1 < |bs| && !bs[i + 1].used }

  // The first and last of the blocks that freeing block `i` merges.
  function First(bs: seq<Block>, i: nat): nat { if LeftFree(bs, i) then i - 1 else i }

  function Last(bs: seq<Block>, i: nat): nat { if RightFree(bs, i) then i + 1 else i }

  // Free block `i` and merge it with its free neighbours.
  function Release(h: nat, bs: seq<Block>, i: nat): seq<Block>
    requires i < |bs|
  {
    Splice(bs, First(bs, i), Last(bs, i) + 1, [Merged(h, bs, i)])
  }

  function Merged(h: nat, bs: seq<Block>, i: nat): Block
    requires i < |bs|
  {
    Block(if LeftFree(bs, i) then bs[i - 1].addr else bs[i].addr,
          (if LeftFree(bs, i) then bs[i - 1].size + h else 0) + bs[i].size + (if RightFree(bs, i) then h + bs[i + 1].size else 0),
          false)
  }

  // The payload of used block `i` together with a free right neighbour.
  function Room(h: nat, bs: seq<Block>, i: nat): nat
    requires i < |bs|
  {
    bs[i].size + (if RightFree(bs, i) then h + bs[i + 1].size else 0)
  }

  // Resize used block `i` to `size` bytes; the rest, with a free right neighbour, becomes free.
  function Resize(h: nat, bs: seq<Block>, i: nat, size: nat): seq<Block>
    requires i < |bs| && size + h <= Room(h, bs, i)
  {
    Splice(bs, i, Last(bs, i) + 1, Resized(h, bs, i, size))
  }

  // ----- what each operation keeps and changes

  lemma Neighbours(h: nat, lo: int, hi: int, bs: seq<Block>, i: nat)
    requires Tiles(h, lo, hi, bs) && i + 1 < |bs|
    ensures bs[i + 1].addr == End(h, bs[i])
  {
    assert bs == bs[..i] + bs[i..];
    TilesSplit(h, lo, hi, bs[..i], bs[i..]);
    assert bs[i..][1..][0] == bs[i + 1];
  }

  lemma ShortTiles(h: nat, a: Block, b: Block)
    ensures Tiles(h, a.addr, End(h, a), [a])
    ensures b.addr == End(h, a) ==> Tiles(h, a.addr, End(h, b), [a, b])
  {
    assert [a][1..] == [] && [a, b][1..] == [b] && [b][1..] == [];
  }

  lemma ShortSums(h: nat, a: Block, b: Block, c: Block)
    ensures FreeSum([a]) == if a.used then 0 else a.size
    ensures FreeSum([a, b]) == FreeSum([a]) + FreeSum([b])
    ensures FreeSum([a, b, c]) == FreeSum([a]) + FreeSum([b]) + FreeSum([c])
    ensures UsedSum(h, [a]) == if a.used then h + a.size else 0
    ensures UsedSum(h, [a, b]) == UsedSum(h, [a]) + UsedSum(h, [b])
    ensures UsedSum(h, [a, b, c]) == UsedSum(h, [a]) + UsedSum(h, [b]) + UsedSum(h, [c])
  {
    assert [a, b] == [a] + [b] && [a, b, c] == [a] + [b, c] && [b, c] == [b] + [c];
    SumsConcat(h, [a], [b]);
    SumsConcat(h, [a], [b, c]);
    SumsConcat(h, [b], [c]);
    assert [a][1..] == [];
  }

  ghost predicate Good(h: nat, lo: int, hi: int, bs: seq<Block>) {
    h > 0 && Tiles(h, lo, hi, bs) && NoTwoFree(bs)
  }

  lemma FreeNeighbours(bs: seq<Block>, i: nat)
    requires NoTwoFree(bs) && i < |bs| && !bs[i].used
    ensures (i > 0 ==> bs[i - 1].used) && (i + 1 < |bs| ==> bs[i + 1].used)
  {
    if i > 0 {
      assert bs == bs[..i] + bs[i..];
      NoTwoFreeConcat(bs[..i], bs[i..]);
    }
    if i + 1 < |bs| {
      assert bs == bs[..i + 1] + bs[i + 1..];
      NoTwoFreeConcat(bs[..i + 1], bs[i + 1..]);
    }
  }

  lemma SplitKeeps(h: nat, lo: int, hi: int, bs: seq<Block>, i: nat, size: nat)
    requires Good(h, lo, hi, bs) && i < |bs| && !bs[i].used && size + h <= bs[i].size
    ensures Good(h, lo, hi, Split(h, bs, i, size))
    ensures FreeSum(Split(h, bs, i, size)) == FreeSum(bs) - size - h
    ensures UsedSum(h, Split(h, bs, i, size)) == UsedSum(h, bs) + h + size
    ensures Addrs(Split(h, bs, i, size)) == Addrs(bs)[..i + 1] + [bs[i].addr + h + size] + Addrs(bs)[i + 1..]
  {
    var x, y := Block(bs[i].addr, size, true), Block(bs[i].addr + h + size, bs[i].size - size - h, false);
    assert bs[i..i + 1] == [bs[i]];
    ShortTiles(h, x, y);
    ShortTiles(h, bs[i], y);
    ShortSums(h, x, y, y);
    ShortSums(h, bs[i], y, y);
    FreeNeighbours(bs, i);
    SpliceTiles(h, lo, hi, bs, i, i + 1, [x, y]);
    SpliceSums(h, bs, i, i + 1, [x, y]);
    SpliceNoTwoFree(bs, i, i + 1, [x, y]);
    SpliceAddrs(bs, i, i + 1, [x, y]);
    assert Addrs([x, y]) == [x.addr, y.addr];
    assert Addrs(bs)[..i] + [x.addr, y.addr] == Addrs(bs)[..i + 1] + [y.addr];
  }

  lemma TakeKeeps(h: nat, lo: int, hi: int, bs: seq<Block>, i: nat)
    requires Good(h, lo, hi, bs) && i < |bs| && !bs[i].used
    ensures Good(h, lo, hi, Take(bs, i))
    ensures FreeSum(Take(bs, i)) == FreeSum(bs) - bs[i].size
    ensures UsedSum(h, Take(bs, i)) == UsedSum(h, bs) + h + bs[i].size
    ensures Addrs(Take(bs, i)) == Addrs(bs)
  {
    var x := bs[i].(used := true);
    assert bs[i..i + 1] == [bs[i]];
    ShortTiles(h, x, x);
    ShortTiles(h, bs[i], x);
    ShortSums(h, x, x, x);
    ShortSums(h, bs[i], x, x);
    SpliceTiles(h, lo, hi, bs, i, i + 1, [x]);
    SpliceSums(h, bs, i, i + 1, [x]);
    SpliceNoTwoFree(bs, i, i + 1, [x]);
    SpliceAddrs(bs, i, i + 1, [x]);
    assert Addrs([x]) == [x.addr];
  }

  lemma MergedSpan(h: nat, lo: int, hi: int, bs: seq<Block>, i: nat)
    requires Tiles(h, lo, hi, bs) && i < |bs|
    ensures SameSpan(h, bs[First(bs, i)..Last(bs, i) + 1], [Merged(h, bs, i)])
  {
    var j, k := First(bs, i), Last(bs, i);
    if j < i { Neighbours(h, lo, hi, bs, j); }
    if i < k { Neighbours(h, lo, hi, bs, i); }
    var m := Merged(h, bs, i);
    ShortTiles(h, m, m);
    if j < i && i < k {
      assert bs[j..k + 1] == [bs[j], bs[i], bs[k]];
      ShortTiles(h, bs[j], bs[i]);
    } else if j < k {
      assert bs[j..k + 1] == [bs[j], bs[k]];
      ShortTiles(h, bs[j], bs[k]);
    } else {
      assert bs[j..k + 1] == [bs[i]];
      ShortTiles(h, bs[i], m);
    }
  }

  lemma MergedSums(h: nat, bs: seq<Block>, i: nat)
    requires i < |bs| && bs[i].used
    ensures var m := bs[First(bs, i)..Last(bs, i) + 1];
      && FreeSum([Merged(h, bs, i)]) ==
           FreeSum(m) + bs[i].size + (if LeftFree(bs, i) then h else 0) + (if RightFree(bs, i) then h else 0)
      && UsedSum(h, m) == h + bs[i].size && UsedSum(h, [Merged(h, bs, i)]) == 0
  {
    var j, k := First(bs, i), Last(bs, i);
    var m := Merged(h, bs, i);
    ShortSums(h, m, m, m);
    if j < i && i < k {
      assert bs[j..k + 1] == [bs[j], bs[i], bs[k]];
      ShortSums(h, bs[j], bs[i], bs[k]);
      ShortSums(h, bs[k], bs[i], bs[k]);
      ShortSums(h, bs[i], bs[i], bs[k]);
    } else if j < k {
      assert bs[j..k + 1] == [bs[j], bs[k]];
      ShortSums(h, bs[j], bs[k], m);
      ShortSums(h, bs[k], m, m);
    } else {
      assert bs[j..k + 1] == [bs[i]];
      ShortSums(h, bs[i], m, m);
    }
  }

  lemma ReleaseNoTwoFree(h: nat, bs: seq<Block>, i: nat)
    requires NoTwoFree(bs) && i < |bs| && bs[i].used
    ensures NoTwoFree(Release(h, bs, i))
  {
    var j, k := First(bs, i), Last(bs, i);
    if j < i { FreeNeighbours(bs, j); }
    if i < k { FreeNeighbours(bs, k); }
    SpliceNoTwoFree(bs, j, k + 1, [Merged(h, bs, i)]);
  }

  lemma ReleaseKeeps(h: nat, lo: int, hi: int, bs: seq<Block>, i: nat)
    requires Good(h, lo, hi, bs) && i < |bs| && bs[i].used
    ensures Good(h, lo, hi, Release(h, bs, i))
    ensures FreeSum(Release(h, bs, i)) ==
      FreeSum(bs) + bs[i].size + (if LeftFree(bs, i) then h else 0) + (if RightFree(bs, i) then h else 0)
    ensures UsedSum(h, Release(h, bs, i)) == UsedSum(h, bs) - h - bs[i].size
    ensures Addrs(Release(h, bs, i)) ==
      Addrs(bs)[..First(bs, i) + 1] + Addrs(bs)[Last(bs, i) + 1..]
  {
    var j, k := First(bs, i), Last(bs, i);
    var m := Merged(h, bs, i);
    MergedSpan(h, lo, hi, bs, i);
    MergedSums(h, bs, i);
    SpliceTiles(h, lo, hi, bs, j, k + 1, [m]);
    SpliceSums(h, bs, j, k + 1, [m]);
    ReleaseNoTwoFree(h, bs, i);
    SpliceAddrs(bs, j, k + 1, [m]);
    assert Addrs([m]) == [m.addr];
    assert Addrs(bs)[..j] + [m.addr] == Addrs(bs)[..j + 1];
  }

  // The two blocks that `Resize` leaves.
  function Resized(h: nat, bs: seq<Block>, i: nat, size: nat): (r: seq<Block>)
    requires i < |bs|
    requires size + h <= Room(h, bs, i)
    ensures |r| == 2
  {
    [Block(bs[i].addr, size, true), Block(bs[i].addr + h + size, Room(h, bs, i) - size - h, false)]
  }

  lemma ResizedSpan(h: nat, lo: int, hi: int, bs: seq<Block>, i: nat, size: nat)
    requires Tiles(h, lo, hi, bs) && i < |bs| && size + h <= Room(h, bs, i)
    ensures SameSpan(h, bs[i..Last(bs, i) + 1], Resized(h, bs, i, size))
  {
    var k, n := Last(bs, i), Resized(h, bs, i, size);
    if i < k { Neighbours(h, lo, hi, bs, i); }
    ShortTiles(h, n[0], n[1]);
    assert bs[i..k + 1] == if i < k then [bs[i], bs[k]] else [bs[i]];
  }

  lemma ResizedSums(h: nat, bs: seq<Block>, i: nat, size: nat)
    requires i < |bs| && bs[i].used && size + h <= Room(h, bs, i)
    ensures var m, n := bs[i..Last(bs, i) + 1], Resized(h, bs, i, size);
      && FreeSum(m) == (if RightFree(bs, i) then bs[i + 1].size else 0)
      && FreeSum(n) == Room(h, bs, i) - size - h
      && UsedSum(h, m) == h + bs[i].size && UsedSum(h, n) == h + size
  {
    var k, n := Last(bs, i), Resized(h, bs, i, size);
    ShortSums(h, n[0], n[1], n[1]);
    ShortSums(h, n[1], n[1], n[1]);
    ShortSums(h, bs[i], bs[k], bs[k]);
    ShortSums(h, bs[k], bs[k], bs[k]);
    assert bs[i..k + 1] == if i < k then [bs[i], bs[k]] else [bs[i]];
  }

  lemma ResizeKeeps(h: nat, lo: int, hi: int, bs: seq<Block>, i: nat, size: nat)
    requires Good(h, lo, hi, bs) && i + 1 < |bs| && bs[i].used && size + h <= Room(h, bs, i)
    ensures Good(h, lo, hi, Resize(h, bs, i, size))
    ensures FreeSum(Resize(h, bs, i, size)) ==
      FreeSum(bs) + bs[i].size - size - (if RightFree(bs, i) then 0 else h)
    ensures UsedSum(h, Resize(h, bs, i, size)) == UsedSum(h, bs) + size - bs[i].size
    ensures Addrs(Resize(h, bs, i, size)) ==
      Addrs(bs)[..i + 1] + [bs[i].addr + h + size] + Addrs(bs)[Last(bs, i) + 1..]
  {
    var k, n := Last(bs, i), Resized(h, bs, i, size);
    ResizedSpan(h, lo, hi, bs, i, size);
    ResizedSums(h, bs, i, size);
    if i < k { FreeNeighbours(bs, k); }
    SpliceTiles(h, lo, hi, bs, i, k + 1, n);
    SpliceSums(h, bs, i, k + 1, n);
    SpliceNoTwoFree(bs, i, k + 1, n);
    SpliceAddrs(bs, i, k + 1, n);
    assert Addrs(bs)[..i] + Addrs(n) == Addrs(bs)[..i + 1] + [n[1].addr];
  }

  // ----- which blocks live on

  lemma SameAddr(h: nat, lo: int, hi: int, bs: seq<Block>, x: Block, y: Block)
    requires Tiles(h, lo, hi, bs) && h > 0 && x in bs && y in bs && x.addr == y.addr
    ensures x == y
  {
    var i :| 0 <= i < |bs| && bs[i] == x;
    var j :| 0 <= j < |bs| && bs[j] == y;
    AddrsDistinct(h, lo, hi, bs, i, j);
  }

  lemma SpliceSets(h: nat, lo: int, hi: int, bs: seq<Block>, i: nat, k: nat, n: seq<Block>)
    requires Tiles(h, lo, hi, bs) && h > 0 && i <= k <= |bs|
    ensures UsedSet(Splice(bs, i, k, n)) == UsedSet(bs) - UsedSet(bs[i..k]) + UsedSet(n)
    ensures FreeAddrs(Splice(bs, i, k, n)) == FreeAddrs(bs) - FreeAddrs(bs[i..k]) + FreeAddrs(n)
  {
    var s := Splice(bs, i, k, n);
    SpliceMembers(h, lo, hi, bs, i, k, n);
    forall a | a in FreeAddrs(bs) && a !in FreeAddrs(bs[i..k]) ensures a in FreeAddrs(s) {
      var x :| x in bs && !x.used && x.addr == a;
      assert x in s;
    }
    forall a | a in FreeAddrs(n) ensures a in FreeAddrs(s) {
      var x :| x in n && !x.used && x.addr == a;
      assert x in s;
    }
    forall a | a in FreeAddrs(s) && a !in FreeAddrs(n) ensures a in FreeAddrs(bs) && a !in FreeAddrs(bs[i..k]) {
      var x :| x in s && !x.used && x.addr == a;
      if a in FreeAddrs(bs[i..k]) {
        var y :| y in bs[i..k] && !y.used && y.addr == a;
        SameAddr(h, lo, hi, bs, x, y);
      }
    }
  }

  lemma ShortSets(a: Block, b: Block)
    ensures UsedSet([a]) == if a.used then {a} else {}
    ensures UsedSet([a, b]) == UsedSet([a]) + UsedSet([b])
    ensures FreeAddrs([a]) == if a.used then {} else {a.addr}
    ensures FreeAddrs([a, b]) == FreeAddrs([a]) + FreeAddrs([b])
  {
    assert a in [a] && a in [a, b] && b in [b] && b in [a, b];
  }

  lemma ShortSets3(a: Block, b: Block, c: Block)
    ensures UsedSet([a, b, c]) == UsedSet([a]) + UsedSet([b]) + UsedSet([c])
    ensures FreeAddrs([a, b, c]) == FreeAddrs([a]) + FreeAddrs([b]) + FreeAddrs([c])
  {
    assert a in [a] && b in [b] && c in [c];
    assert a in [a, b, c] && b in [a, b, c] && c in [a, b, c];
  }

  lemma ReleasedRunSets(bs: seq<Block>, i: nat)
    requires i < |bs| && bs[i].used
    ensures var r := bs[First(bs, i)..Last(bs, i) + 1];
      && UsedSet(r) == {bs[i]}
      && FreeAddrs(r) == (if LeftFree(bs, i) then {bs[i - 1].addr} else {}) + (if RightFree(bs, i) then {bs[i + 1].addr} else {})
  {
    var j, k := First(bs, i), Last(bs, i);
    ShortSets(bs[i], bs[i]);
    ShortSets(bs[j], bs[k]);
    ShortSets(bs[k], bs[k]);
    if j < i && i < k {
      assert bs[j..k + 1] == [bs[j], bs[i], bs[k]];
      ShortSets3(bs[j], bs[i], bs[k]);
    } else if j < k {
      assert bs[j..k + 1] == [bs[j], bs[k]];
    } else {
      assert bs[j..k + 1] == [bs[i]];
    }
  }

  lemma SplitSets(h: nat, lo: int, hi: int, bs: seq<Block>, i: nat, size: nat)
    requires Good(h, lo, hi, bs) && i < |bs| && !bs[i].used && size + h <= bs[i].size
    ensures UsedSet(Split(h, bs, i, size)) == UsedSet(bs) + {Block(bs[i].addr, size, true)}
    ensures FreeAddrs(Split(h, bs, i, size)) == FreeAddrs(bs) - {bs[i].addr} + {bs[i].addr + h + size}
  {
    var x, y := Block(bs[i].addr, size, true), Block(bs[i].addr + h + size, bs[i].size - size - h, false);
    assert bs[i..i + 1] == [bs[i]];
    SpliceSets(h, lo, hi, bs, i, i + 1, [x, y]);
    ShortSets(bs[i], y);
    ShortSets(x, y);
    ShortSets(y, y);
  }

  lemma TakeSets(h: nat, lo: int, hi: int, bs: seq<Block>, i: nat)
    requires Good(h, lo, hi, bs) && i < |bs| && !bs[i].used
    ensures UsedSet(Take(bs, i)) == UsedSet(bs) + {bs[i].(used := true)}
    ensures FreeAddrs(Take(bs, i)) == FreeAddrs(bs) - {bs[i].addr}
  {
    var x := bs[i].(used := true);
    assert bs[i..i + 1] == [bs[i]];
    SpliceSets(h, lo, hi, bs, i, i + 1, [x]);
    ShortSets(bs[i], x);
    ShortSets(x, x);
  }

  lemma ReleaseSets(h: nat, lo: int, hi: int, bs: seq<Block>, i: nat)
    requires Good(h, lo, hi, bs) && i < |bs| && bs[i].used
    ensures UsedSet(Release(h, bs, i)) == UsedSet(bs) - {bs[i]}
    ensures FreeAddrs(Release(h, bs, i)) ==
      FreeAddrs(bs) - (if RightFree(bs, i) then {bs[i + 1].addr} else {}) + {bs[First(bs, i)].addr}
  {
    var j, k, m := First(bs, i), Last(bs, i), Merged(h, bs, i);
    SpliceSets(h, lo, hi, bs, j, k + 1, [m]);
    ShortSets(m, m);
    ReleasedRunSets(bs, i);
    if j < i && i < k {
      AddrsDistinctFrom(h, lo, hi, bs, j, k);
    }
    if j < i {
      assert bs[j] in bs && bs[j].addr in FreeAddrs(bs);
    }
  }

  lemma AddrsDistinctFrom(h: nat, lo: int, hi: int, bs: seq<Block>, i: nat, j: nat)
    requires Tiles(h, lo, hi, bs) && h > 0 && i < j < |bs|
    ensures bs[i].addr != bs[j].addr
  {
    BlocksApart(h, lo, hi, bs, i, j);
  }

  lemma ResizeSets(h: nat, lo: int, hi: int, bs: seq<Block>, i: nat, size: nat)
    requires Good(h, lo, hi, bs) && i < |bs| && bs[i].used && size + h <= Room(h, bs, i)
    ensures UsedSet(Resize(h, bs, i, size)) == UsedSet(bs) - {bs[i]} + {Block(bs[i].addr, size, true)}
    ensures FreeAddrs(Resize(h, bs, i, size)) ==
      FreeAddrs(bs) - (if RightFree(bs, i) then {bs[i + 1].addr} else {}) + {bs[i].addr + h + size}
  {
    var k, n := Last(bs, i), Resized(h, bs, i, size);
    SpliceSets(h, lo, hi, bs, i, k + 1, n);
    ShortSets(n[0], n[1]);
    ShortSets(n[1], n[1]);
    assert n == [n[0], n[1]];
    ResizedRunSets(bs, i);
  }

  lemma ResizedRunSets(bs: seq<Block>, i: nat)
    requires i < |bs| && bs[i].used
    ensures var r := bs[i..Last(bs, i) + 1];
      UsedSet(r) == {bs[i]} && FreeAddrs(r) == if RightFree(bs, i) then {bs[i + 1].addr} else {}
  {
    var k := Last(bs, i);
    ShortSets(bs[i], bs[k]);
    ShortSets(bs[k], bs[k]);
    assert bs[i..k + 1] == if i < k then [bs[i], bs[k]] else [bs[i]];
  }

  // ----- the used bits

  lemma SplitBits(h: nat, lo: int, hi: int, bs: seq<Block>, i: nat, size: nat, u: map<int, bool>)
    requires Good(h, lo, hi, bs) && i < |bs| && !bs[i].used && size + h <= bs[i].size && Bits(u, bs)
    ensures Bits(u[bs[i].addr + h + size := false][bs[i].addr := true], Split(h, bs, i, size))
  {
    InsideIsNoAddr(h, lo, hi, bs, i, bs[i].addr + h + size);
    assert Addrs(bs[i..i + 1])[0] == bs[i].addr;
    SpliceBits(h, lo, hi, bs, i, i + 1, Halves(h, bs[i], size), u, u[bs[i].addr + h + size := false][bs[i].addr := true]);
  }

  lemma TakeBits(h: nat, lo: int, hi: int, bs: seq<Block>, i: nat, u: map<int, bool>)
    requires Good(h, lo, hi, bs) && i < |bs| && Bits(u, bs)
    ensures Bits(u[bs[i].addr := true], Take(bs, i))
  {
    assert Addrs(bs[i..i + 1])[0] == bs[i].addr;
    SpliceBits(h, lo, hi, bs, i, i + 1, [bs[i].(used := true)], u, u[bs[i].addr := true]);
  }

  lemma ReleaseBits(h: nat, lo: int, hi: int, bs: seq<Block>, i: nat, u: map<int, bool>)
    requires Good(h, lo, hi, bs) && i < |bs| && bs[i].used && Bits(u, bs)
    ensures Bits(u[bs[i].addr := false], Release(h, bs, i))
  {
    var j, k := First(bs, i), Last(bs, i);
    assert Addrs(bs[j..k + 1])[i - j] == bs[i].addr;
    SpliceBits(h, lo, hi, bs, j, k + 1, [Merged(h, bs, i)], u, u[bs[i].addr := false]);
  }

  lemma ResizeBits(h: nat, lo: int, hi: int, bs: seq<Block>, i: nat, size: nat, u: map<int, bool>)
    requires Good(h, lo, hi, bs) && i + 1 < |bs| && bs[i].used && size + h <= Room(h, bs, i) && Bits(u, bs)
    requires bs[i].addr + h + size in Addrs(bs) ==> RightFree(bs, i) && bs[i].addr + h + size == bs[i + 1].addr
    ensures Bits(u[bs[i].addr + h + size := false], Resize(h, bs, i, size))
  {
    var k := Last(bs, i);
    assert Addrs(bs[i..k + 1])[k - i] == bs[k].addr && Addrs(bs[i..k + 1])[0] == bs[i].addr;
    SpliceBits(h, lo, hi, bs, i, k + 1, Resized(h, bs, i, size), u, u[bs[i].addr + h + size := false]);
  }
}
