/**
  The small-memory heap, src/mem.c: next and prev offsets in every header, `lfree` below which malloc
  does not look, `plug_holes` for merging, and the byte counter `used_mem`.
 */
module SmallMemSpec {
  import opened Layout
  import opened HeapBytes
  import opened Rings

  // MIN_SIZE on a 32-bit machine.
  const MIN_SIZE: nat := 12

  // ----- the chain of headers

  predicate NextIs(next: map<int, int>, xs: seq<int>, i: nat)
    requires i + 1 < |xs|
  {
    xs[i] in next && next[xs[i]] == xs[i + 1]
  }

  predicate PrevIs(prev: map<int, int>, xs: seq<int>, i: nat)
    requires i < |xs|
  {
    xs[i] in prev && prev[xs[i]] == if i == 0 then xs[0] else xs[i - 1]
  }

  // The headers at `xs` are linked in order.  The first one's prev is itself; the last one is the end
  // of the heap, whose links say nothing.
  ghost predicate Chain(next: map<int, int>, prev: map<int, int>, xs: seq<int>) {
    && (forall i {:trigger NextIs(next, xs, i)} :: 0 <= i < |xs| - 1 ==> NextIs(next, xs, i))
    && (forall i {:trigger PrevIs(prev, xs, i)} :: 0 <= i < |xs| - 1 ==> PrevIs(prev, xs, i))
  }

  lemma InsertChain(next: map<int, int>, prev: map<int, int>, xs: seq<int>, i: nat, x: int, next': map<int, int>, prev': map<int, int>)
    requires Chain(next, prev, xs) && Distinct(xs) && x !in xs && i + 1 < |xs|
    requires next' == next[x := xs[i + 1]][xs[i] := x]
    requires prev' == (if i + 2 < |xs| then prev[x := xs[i]][xs[i + 1] := x] else prev[x := xs[i]])
    ensures Chain(next', prev', xs[..i + 1] + [x] + xs[i + 1..])
  {
    var ys := xs[..i + 1] + [x] + xs[i + 1..];
    assert forall j :: 0 <= j < |ys| ==> ys[j] == if j <= i then xs[j] else if j == i + 1 then x else xs[j - 1];
    forall j | 0 <= j < |ys| - 1 ensures NextIs(next', ys, j) && PrevIs(prev', ys, j) {
      if j != i + 1 {
        var k: nat := if j <= i then j else j - 1;
        assert NextIs(next, xs, k) && PrevIs(prev, xs, k);
        assert k != i ==> xs[k] != xs[i];
        assert k != i + 1 ==> xs[k] != xs[i + 1];
      }
    }
  }

  lemma RemoveChain(next: map<int, int>, prev: map<int, int>, xs: seq<int>, i: nat)
    requires Chain(next, prev, xs) && Distinct(xs) && i + 2 < |xs|
    ensures Chain(next[xs[i] := xs[i + 2]], prev[xs[i + 2] := xs[i]], xs[..i + 1] + xs[i + 2..])
  {
    var ys := xs[..i + 1] + xs[i + 2..];
    var next', prev' := next[xs[i] := xs[i + 2]], prev[xs[i + 2] := xs[i]];
    assert forall j :: 0 <= j < |ys| ==> ys[j] == if j <= i then xs[j] else xs[j + 1];
    forall j | 0 <= j < |ys| - 1 ensures NextIs(next', ys, j) && PrevIs(prev', ys, j) {
      var k: nat := if j <= i then j else j + 1;
      assert NextIs(next, xs, k) && PrevIs(prev, xs, k);
      assert k != i ==> xs[k] != xs[i];
      assert k != i + 2 ==> xs[k] != xs[i + 2];
    }
  }

  lemma AddrsAreDistinct(h: nat, lo: int, hi: int, bs: seq<Block>)
    requires Tiles(h, lo, hi, bs) && h > 0
    ensures Distinct(Addrs(bs))
  {
    var xs := Addrs(bs);
    forall i, j | 0 <= i < j < |xs| ensures xs[i] != xs[j] {
      BlocksApart(h, lo, hi, bs, i, j);
    }
  }

  // ----- the heap

  // The headers in memory spell out the blocks `bs`, the last of which is the end of the heap at `end`.
  // Two neighbours may both be free here.
  ghost predicate Laid(h: nat, end: nat, bs: seq<Block>, next: map<int, int>, prev: map<int, int>, used: map<int, bool>) {
    && h > 0 && Tiles(h, 0, end + h, bs) && |bs| >= 2 && bs[|bs| - 1] == Block(end, 0, true)
    && Bits(used, bs) && Chain(next, prev, Addrs(bs)) && end in next && next[end] == end
  }

  // `lfree` is the end of the heap or a free header.
  ghost predicate FreeOrEnd(end: nat, bs: seq<Block>, lfree: int) {
    lfree == end || lfree in FreeAddrs(bs)
  }

  // Blocks handed out have at least one byte.
  ghost predicate NonEmpty(end: nat, s: set<Block>) {
    forall b :: b in s && b.addr != end ==> b.size > 0
  }

  // No free block lies below `lfree`.
  ghost predicate LowestFree(bs: seq<Block>, lfree: int) {
    forall b :: b in bs && !b.used ==> lfree <= b.addr
  }

  // The block of `bs` that satisfies a request of `size` bytes: the lowest one at or above `from` that
  // is large enough, where an exact fit in the last block does not count.
  predicate Fits(bs: seq<Block>, from: int, size: nat, i: nat)
    requires i < |bs|
  {
    !bs[i].used && from <= bs[i].addr && size <= bs[i].size && (i + 2 < |bs| || size < bs[i].size)
  }

  ghost predicate FirstFit(bs: seq<Block>, from: int, size: nat, i: nat) {
    i < |bs| && Fits(bs, from, size, i) && forall j :: 0 <= j < i ==> !Fits(bs, from, size, j)
  }

  ghost predicate NoFit(bs: seq<Block>, from: int, size: nat) {
    forall j :: 0 <= j < |bs| ==> !Fits(bs, from, size, j)
  }

  // While `lfree` is the lowest free block, nothing fits just if no free block is large enough, but for
  // an exact fit in the last block.
  lemma NoFitMeansNoBlock(bs: seq<Block>, lfree: int, size: nat)
    requires LowestFree(bs, lfree)
    ensures NoFit(bs, lfree, size) <==>
            forall j :: 0 <= j < |bs| && !bs[j].used ==> bs[j].size < size || (j + 2 >= |bs| && bs[j].size == size)
  {
    forall j | 0 <= j < |bs| && !bs[j].used
      ensures Fits(bs, lfree, size, j) <==> !(bs[j].size < size || (j + 2 >= |bs| && bs[j].size == size))
    {
      assert bs[j] in bs;
    }
  }

  // The search loop's bound is the exact-fit exception.
  lemma BoundIsFit(h: nat, end: nat, bs: seq<Block>, j: nat, size: nat)
    requires h > 0 && Tiles(h, 0, end + h, bs) && |bs| >= 2 && bs[|bs| - 1] == Block(end, 0, true)
    requires j + 1 < |bs| && size <= bs[j].size && h <= end
    ensures bs[j].addr < end - h - size <==> j + 2 < |bs| || size < bs[j].size
  {
    BlocksApart(h, 0, end + h, bs, j, |bs| - 1);
    if j + 2 < |bs| {
      BlocksApart(h, 0, end + h, bs, j, j + 1);
      BlocksApart(h, 0, end + h, bs, j + 1, |bs| - 1);
    } else {
      Neighbours(h, 0, end + h, bs, j);
    }
  }

  // ----- splitting a block

  lemma LaidParts(h: nat, end: nat, bs: seq<Block>, next: map<int, int>, prev: map<int, int>, used: map<int, bool>, i: nat)
    requires Laid(h, end, bs, next, prev, used) && i + 1 < |bs|
    ensures bs[i].addr in next && next[bs[i].addr] == bs[i + 1].addr == End(h, bs[i])
    ensures bs[i].addr in used && used[bs[i].addr] == bs[i].used
    ensures bs[i + 1].addr in used && used[bs[i + 1].addr] == bs[i + 1].used
    ensures bs[i].addr in prev && prev[bs[i].addr] == (if i == 0 then bs[0].addr else bs[i - 1].addr)
    ensures 0 <= bs[i].addr < bs[i + 1].addr && End(h, bs[i]) <= end
    ensures i > 0 ==> bs[i - 1].addr < bs[i].addr
    ensures bs[i + 1].addr in next
    ensures next[bs[i + 1].addr] == if i + 2 < |bs| then bs[i + 2].addr else end
    ensures bs[i + 1].addr == end <==> i + 2 == |bs|
  {
    assert NextIs(next, Addrs(bs), i) && PrevIs(prev, Addrs(bs), i);
    if i + 2 < |bs| {
      assert NextIs(next, Addrs(bs), i + 1);
      BlocksApart(h, 0, end + h, bs, i + 1, |bs| - 1);
    }
    Neighbours(h, 0, end + h, bs, i);
    if i > 0 { Neighbours(h, 0, end + h, bs, i - 1); }
    TilesOrder(h, 0, end + h, bs);
    BlocksApart(h, 0, end + h, bs, i, |bs| - 1);
    assert bs[i] in bs && bs[i + 1] in bs;
  }

  lemma SplitLaid(h: nat, end: nat, bs: seq<Block>, next: map<int, int>, prev: map<int, int>, used: map<int, bool>, i: nat, size: nat,
                  next': map<int, int>, prev': map<int, int>)
    requires Laid(h, end, bs, next, prev, used) && i + 1 < |bs| && size + h <= bs[i].size
    requires var x := bs[i].addr + h + size;
      && next' == next[x := bs[i + 1].addr][bs[i].addr := x]
      && prev' == (if i + 2 < |bs| then prev[x := bs[i].addr][bs[i + 1].addr := x] else prev[x := bs[i].addr])
    ensures Laid(h, end, Split(h, bs, i, size), next', prev', used[bs[i].addr + h + size := false][bs[i].addr := true])
    ensures Addrs(Split(h, bs, i, size)) == Addrs(bs)[..i + 1] + [bs[i].addr + h + size] + Addrs(bs)[i + 1..]
    ensures bs[i].addr + h + size !in Addrs(bs)
  {
    hide Tiles, Bits, Chain, Split, Addrs;
    AddrsAreDistinct(h, 0, end + h, bs);
    LaidParts(h, end, bs, next, prev, used, i);
    SplitTiles(h, end, bs, i, size);
    SplitUsed(h, end, bs, used, i, size);
    SplitAddrs(h, bs, i, size);
    InsertChain(next, prev, Addrs(bs), i, bs[i].addr + h + size, next', prev');
    LastIsHeader(bs);
    LaidParts(h, end, bs, next, prev, used, |bs| - 2);
  }

  lemma LastIsHeader(bs: seq<Block>)
    ensures |bs| > 0 ==> bs[|bs| - 1].addr in Addrs(bs)
    ensures forall i :: 0 <= i < |bs| ==> bs[i].addr in Addrs(bs)
  {
    forall i | 0 <= i < |bs| ensures bs[i].addr in Addrs(bs) { assert Addrs(bs)[i] == bs[i].addr; }
  }

  lemma SplitAddrs(h: nat, bs: seq<Block>, i: nat, size: nat)
    requires i < |bs| && size + h <= bs[i].size
    ensures Addrs(Split(h, bs, i, size)) == Addrs(bs)[..i + 1] + [bs[i].addr + h + size] + Addrs(bs)[i + 1..]
  {
    var x, n := bs[i].addr + h + size, Halves(h, bs[i], size);
    SpliceAddrs(bs, i, i + 1, n);
    assert Addrs(n) == [bs[i].addr, x];
    assert Addrs(bs)[..i] + [bs[i].addr, x] == Addrs(bs)[..i + 1] + [x];
  }

  lemma SplitUsed(h: nat, end: nat, bs: seq<Block>, used: map<int, bool>, i: nat, size: nat)
    requires h > 0 && Tiles(h, 0, end + h, bs) && Bits(used, bs) && i < |bs| && size + h <= bs[i].size
    ensures Bits(used[bs[i].addr + h + size := false][bs[i].addr := true], Split(h, bs, i, size))
    ensures bs[i].addr + h + size !in Addrs(bs)
  {
    var x := bs[i].addr + h + size;
    InsideIsNoAddr(h, 0, end + h, bs, i, x);
    assert Addrs(bs[i..i + 1])[0] == bs[i].addr;
    SpliceBits(h, 0, end + h, bs, i, i + 1, Halves(h, bs[i], size), used, used[x := false][bs[i].addr := true]);
  }

  lemma SplitTiles(h: nat, end: nat, bs: seq<Block>, i: nat, size: nat)
    requires Tiles(h, 0, end + h, bs) && i + 1 < |bs| && size + h <= bs[i].size
    ensures Tiles(h, 0, end + h, Split(h, bs, i, size))
    ensures |Split(h, bs, i, size)| == |bs| + 1 && Split(h, bs, i, size)[|bs|] == bs[|bs| - 1]
  {
    var x, y := Block(bs[i].addr, size, true), Block(bs[i].addr + h + size, bs[i].size - size - h, false);
    assert bs[i..i + 1] == [bs[i]];
    ShortTiles(h, x, y);
    ShortTiles(h, bs[i], y);
    SpliceTiles(h, 0, end + h, bs, i, i + 1, [x, y]);
  }

  // ----- plugging holes

  // Blocks j and j + 1 as one free block.
  function MergeTwo(h: nat, bs: seq<Block>, j: nat): seq<Block>
    requires j + 1 < |bs|
  {
    Splice(bs, j, j + 2, [Block(bs[j].addr, bs[j].size + h + bs[j + 1].size, false)])
  }

  lemma MergeLaid(h: nat, end: nat, bs: seq<Block>, next: map<int, int>, prev: map<int, int>, used: map<int, bool>, j: nat)
    requires Laid(h, end, bs, next, prev, used) && j + 2 < |bs| && !bs[j].used
    ensures Laid(h, end, MergeTwo(h, bs, j), next[bs[j].addr := bs[j + 2].addr], prev[bs[j + 2].addr := bs[j].addr], used)
  {
    hide Tiles, Bits, Chain, Addrs, MergeTwo;
    MergeTiles(h, end, bs, j);
    MergeUsed(h, end, bs, used, j);
    MergeAddrs(h, bs, j);
    AddrsAreDistinct(h, 0, end + h, bs);
    RemoveChain(next, prev, Addrs(bs), j);
    LaidParts(h, end, bs, next, prev, used, j);
  }

  lemma MergeTiles(h: nat, end: nat, bs: seq<Block>, j: nat)
    requires Tiles(h, 0, end + h, bs) && j + 2 < |bs|
    ensures Tiles(h, 0, end + h, MergeTwo(h, bs, j))
    ensures |MergeTwo(h, bs, j)| == |bs| - 1 && MergeTwo(h, bs, j)[|bs| - 2] == bs[|bs| - 1]
  {
    var m := Block(bs[j].addr, bs[j].size + h + bs[j + 1].size, false);
    Neighbours(h, 0, end + h, bs, j);
    assert bs[j..j + 2] == [bs[j], bs[j + 1]];
    ShortTiles(h, bs[j], bs[j + 1]);
    ShortTiles(h, m, m);
    SpliceTiles(h, 0, end + h, bs, j, j + 2, [m]);
  }

  lemma MergeUsed(h: nat, end: nat, bs: seq<Block>, used: map<int, bool>, j: nat)
    requires h > 0 && Tiles(h, 0, end + h, bs) && Bits(used, bs) && j + 1 < |bs| && !bs[j].used
    ensures Bits(used, MergeTwo(h, bs, j))
  {
    assert bs[j] in bs;
    SpliceBits(h, 0, end + h, bs, j, j + 2, [Block(bs[j].addr, bs[j].size + h + bs[j + 1].size, false)], used, used);
  }

  lemma MergeAddrs(h: nat, bs: seq<Block>, j: nat)
    requires j + 1 < |bs|
    ensures Addrs(MergeTwo(h, bs, j)) == Addrs(bs)[..j + 1] + Addrs(bs)[j + 2..]
  {
    var m := Block(bs[j].addr, bs[j].size + h + bs[j + 1].size, false);
    SpliceAddrs(bs, j, j + 2, [m]);
    assert Addrs([m]) == [m.addr];
    assert Addrs(bs)[..j] + [m.addr] + Addrs(bs)[j + 2..] == Addrs(bs)[..j + 1] + Addrs(bs)[j + 2..];
  }

  // Forward and then backward merging is what `Release` says.
  lemma PlugIsRelease(h: nat, bs: seq<Block>, j: nat)
    requires j < |bs|
    ensures var ys := if RightFree(bs, j) then MergeTwo(h, bs, j) else bs;
      && |ys| > j && ys[..j] == bs[..j] && ys[j].addr == bs[j].addr && (!bs[j].used ==> !ys[j].used)
      && (!bs[j].used ==> Release(h, bs, j) == if LeftFree(bs, j) then MergeTwo(h, ys, j - 1) else ys)
  {
    var ys := if RightFree(bs, j) then MergeTwo(h, bs, j) else bs;
    if RightFree(bs, j) {
      assert ys == bs[..j] + [Block(bs[j].addr, bs[j].size + h + bs[j + 1].size, false)] + bs[j + 2..];
      assert ys[j + 1..] == bs[j + 2..];
    }
    assert ys[..j] == bs[..j];
    if !bs[j].used {
      if LeftFree(bs, j) {
        assert ys[j - 1] == ys[..j][j - 1] == bs[j - 1];
        assert bs[..j][..j - 1] == bs[..j - 1] == ys[..j - 1];
        assert Merged(h, bs, j) == Block(ys[j - 1].addr, ys[j - 1].size + h + ys[j].size, false);
      } else if !RightFree(bs, j) {
        assert Merged(h, bs, j) == bs[j];
        assert bs[..j] + [bs[j]] + bs[j + 1..] == bs;
      }
    }
  }

  lemma LastIsUsed(h: nat, end: nat, bs: seq<Block>, next: map<int, int>, prev: map<int, int>, used: map<int, bool>)
    requires Laid(h, end, bs, next, prev, used)
    ensures |bs| >= 2 && bs[|bs| - 1] == Block(end, 0, true) && h > 0
  {
  }

  lemma TakeIsBit(bs: seq<Block>, i: nat)
    requires i < |bs|
    ensures Take(bs, i) == bs[i := bs[i].(used := true)]
  {
  }

  // What plug_holes makes of `lfree`: it follows the headers that vanish.
  function PluggedFree(h: nat, bs: seq<Block>, j: nat, lfree: int): int
    requires j < |bs|
  {
    if lfree == bs[j].addr || (RightFree(bs, j) && lfree == bs[j + 1].addr) then Merged(h, bs, j).addr else lfree
  }

  lemma KeptSame(h: nat, m: seq<byte>)
    ensures forall b :: Kept(h, m, m, b)
  {
  }

  // ----- freeing

  lemma BitLaid(h: nat, end: nat, bs: seq<Block>, next: map<int, int>, prev: map<int, int>, used: map<int, bool>, i: nat, v: bool)
    requires Laid(h, end, bs, next, prev, used) && i + 1 < |bs|
    ensures Laid(h, end, bs[i := bs[i].(used := v)], next, prev, used[bs[i].addr := v])
  {
    hide Tiles, Bits, Chain, Addrs;
    var x := bs[i].(used := v);
    BitTiles(h, end, bs, i, x);
    BitUsed(h, end, bs, used, i, x);
    assert Addrs(bs[i := x]) == Addrs(bs) by { SameAddrs(bs, i, x); }
  }

  lemma BitTiles(h: nat, end: nat, bs: seq<Block>, i: nat, x: Block)
    requires Tiles(h, 0, end + h, bs) && i < |bs| && x.addr == bs[i].addr && x.size == bs[i].size
    ensures Tiles(h, 0, end + h, bs[i := x])
  {
    assert bs[i..i + 1] == [bs[i]];
    ShortTiles(h, x, x);
    ShortTiles(h, bs[i], x);
    SpliceTiles(h, 0, end + h, bs, i, i + 1, [x]);
    assert Splice(bs, i, i + 1, [x]) == bs[i := x];
  }

  lemma BitUsed(h: nat, end: nat, bs: seq<Block>, used: map<int, bool>, i: nat, x: Block)
    requires h > 0 && Tiles(h, 0, end + h, bs) && Bits(used, bs) && i < |bs| && x.addr == bs[i].addr
    ensures Bits(used[x.addr := x.used], bs[i := x])
  {
    assert Addrs(bs[i..i + 1])[0] == bs[i].addr;
    SpliceBits(h, 0, end + h, bs, i, i + 1, [x], used, used[x.addr := x.used]);
    assert Splice(bs, i, i + 1, [x]) == bs[i := x];
  }

  lemma SameAddrs(bs: seq<Block>, i: nat, x: Block)
    requires i < |bs| && x.addr == bs[i].addr
    ensures Addrs(bs[i := x]) == Addrs(bs)
  {
  }

  // Clearing the used bit first does not change what merging gives.
  lemma ReleaseAfterBit(h: nat, bs: seq<Block>, i: nat)
    requires i < |bs|
    ensures Release(h, bs[i := bs[i].(used := false)], i) == Release(h, bs, i)
    ensures Merged(h, bs[i := bs[i].(used := false)], i) == Merged(h, bs, i)
    ensures RightFree(bs[i := bs[i].(used := false)], i) == RightFree(bs, i)
  {
  }

  // Freeing block i: `lfree` ends up on a free header or the end, and stays the lowest free one if it was.
  lemma FreedIsLowest(h: nat, end: nat, bs: seq<Block>, i: nat, lfree: int)
    requires Good(h, 0, end + h, bs) && i + 1 < |bs| && bs[i].used && bs[|bs| - 1].used && bs[|bs| - 1].addr == end
    requires FreeOrEnd(end, bs, lfree)
    ensures var lfree' := PluggedFree(h, bs, i, if bs[i].addr < lfree then bs[i].addr else lfree);
      && FreeOrEnd(end, Release(h, bs, i), lfree')
      && (LowestFree(bs, lfree) ==> LowestFree(Release(h, bs, i), lfree'))
  {
    var lfree' := PluggedFree(h, bs, i, if bs[i].addr < lfree then bs[i].addr else lfree);
    ReleaseSets(h, 0, end + h, bs, i);
    var j, k := First(bs, i), Last(bs, i);
    SpliceMembers(h, 0, end + h, bs, j, k + 1, [Merged(h, bs, i)]);
    if j < i { BlocksApart(h, 0, end + h, bs, j, i); assert bs[j] in bs; }
    if i < k { BlocksApart(h, 0, end + h, bs, i, k); assert bs[k] in bs; }
    if LowestFree(bs, lfree) {
      forall b | b in Release(h, bs, i) && !b.used ensures lfree' <= b.addr {
        if b in bs { assert lfree <= b.addr; }
      }
    }
  }

  lemma FreedFacts(h: nat, end: nat, bs: seq<Block>, next: map<int, int>, prev: map<int, int>, used: map<int, bool>, i: nat)
    requires Laid(h, end, bs, next, prev, used) && NoTwoFree(bs) && i + 1 < |bs| && bs[i].used
    ensures Good(h, 0, end + h, bs) && bs[|bs| - 1].used && bs[|bs| - 1].addr == end
    ensures NoTwoFree(Release(h, bs, i))
    ensures UsedSum(h, Release(h, bs, i)) == UsedSum(h, bs) - h - bs[i].size
    ensures UsedSet(Release(h, bs, i)) == UsedSet(bs) - {bs[i]}
  {
    ReleaseKeeps(h, 0, end + h, bs, i);
    ReleaseSets(h, 0, end + h, bs, i);
  }

  // The headers around block i.
  ghost predicate HeadersNear(bs: seq<Block>, i: nat, touched: set<int>)
    requires i + 1 < |bs|
  {
    forall a :: a in touched ==>
      a == bs[i].addr || a == bs[i + 1].addr || a == bs[|bs| - 1].addr || (i + 2 < |bs| && a == bs[i + 2].addr) || (i > 0 && a == bs[i - 1].addr)
  }

  lemma NearAreHeaders(h: nat, bs: seq<Block>, bs': seq<Block>, i: nat, touched: set<int>)
    requires i + 1 < |bs| && HeadersNear(bs, i, touched)
    ensures OnlyHeaders(h, touched, bs, bs')
  {
    LastIsHeader(bs);
  }

  lemma FreedBytes(h: nat, end: nat, bs: seq<Block>, next: map<int, int>, prev: map<int, int>, used: map<int, bool>, i: nat,
                   mem: seq<byte>, touched: set<int>)
    requires Laid(h, end, bs, next, prev, used) && NoTwoFree(bs) && i + 1 < |bs| && bs[i].used
    requires var x := bs[i].addr; && x in next && x in prev && next[x] in next && touched == {x, next[x], next[next[x]], prev[x]}
    ensures forall b :: b in UsedSet(Release(h, bs, i)) ==> Kept(h, mem, Stamped(mem, touched, h), b)
  {
    hide *;
    LaidParts(h, end, bs, next, prev, used, i);
    LastIsUsed(h, end, bs, next, prev, used);
    assert HeadersNear(bs, i, touched) by { AreNear(bs, i, touched); }
    NearAreHeaders(h, bs, Release(h, bs, i), i, touched);
    FreedFacts(h, end, bs, next, prev, used, i);
    ReleaseKeeps(h, 0, end + h, bs, i);
    StampKeepsAll(h, end + h, mem, touched, bs, Release(h, bs, i));
    UsedIn(bs);
    UsedIn(Release(h, bs, i));
  }

  lemma UsedIn(bs: seq<Block>)
    ensures forall b :: b in UsedSet(bs) ==> b in bs && b.used
  {
  }

  lemma AreNear(bs: seq<Block>, i: nat, touched: set<int>)
    requires i + 1 < |bs|
    requires forall a :: a in touched ==>
      a == bs[i].addr || a == bs[i + 1].addr || a == bs[|bs| - 1].addr || (i + 2 < |bs| && a == bs[i + 2].addr) || (i > 0 && a == bs[i - 1].addr)
    ensures HeadersNear(bs, i, touched)
  {
  }

  // ----- allocating

  lemma BelowDoesNotFit(h: nat, end: nat, bs: seq<Block>, k: nat, size: nat)
    requires h > 0 && Tiles(h, 0, end + h, bs) && k < |bs|
    ensures forall j :: 0 <= j < k ==> !Fits(bs, bs[k].addr, size, j)
  {
    forall j | 0 <= j < k ensures !Fits(bs, bs[k].addr, size, j) {
      BlocksApart(h, 0, end + h, bs, j, k);
    }
  }

  lemma BeyondDoesNotFit(h: nat, end: nat, bs: seq<Block>, from: int, k: nat, size: nat)
    requires h > 0 && Tiles(h, 0, end + h, bs) && |bs| >= 2 && bs[|bs| - 1] == Block(end, 0, true)
    requires h <= end && k < |bs| && end - h - size <= bs[k].addr
    ensures forall j :: k <= j < |bs| ==> !Fits(bs, from, size, j)
  {
    forall j | k <= j < |bs| ensures !Fits(bs, from, size, j) {
      if j > k { BlocksApart(h, 0, end + h, bs, k, j); }
      if j + 1 < |bs| && size <= bs[j].size { BoundIsFit(h, end, bs, j, size); }
    }
  }

  // `bs'` is `bs` after the first block that fits was used for `size` bytes.
  ghost predicate TakenFirst(h: nat, min: nat, bs: seq<Block>, from: int, size: nat, bs': seq<Block>, got: Block) {
    exists i: nat :: FirstFit(bs, from, size, i)
      && var split := size + h + min <= bs[i].size;
         bs' == Used(h, bs, i, size, split) && got == Got(bs, i, size, split)
  }

  lemma TakenIsFree(h: nat, min: nat, bs: seq<Block>, from: int, size: nat, bs': seq<Block>, got: Block)
    requires TakenFirst(h, min, bs, from, size, bs', got)
    ensures exists i :: 0 <= i < |bs| && !bs[i].used && bs[i].addr == got.addr
  {
  }

  // `bs'` and `lfree'` are what shrinking block `b` in place leaves.
  ghost predicate ShrunkInPlace(h: nat, bs: seq<Block>, lfree: int, b: Block, n: nat, bs': seq<Block>, lfree': int) {
    exists i: nat :: i < |bs| && bs[i] == b && n + h <= Room(h, bs, i)
      && bs' == Resize(h, bs, i, n) && lfree' == ShrunkFree(h, bs, i, n, lfree)
  }

  // Using the front of the free block i, or all of it.
  function Used(h: nat, bs: seq<Block>, i: nat, size: nat, split: bool): seq<Block>
    requires i < |bs| && (split ==> size + h <= bs[i].size)
  {
    if split then Split(h, bs, i, size) else Take(bs, i)
  }

  function Got(bs: seq<Block>, i: nat, size: nat, split: bool): Block
    requires i < |bs|
  {
    if split then Block(bs[i].addr, size, true) else bs[i].(used := true)
  }

  lemma UsedFacts(h: nat, end: nat, bs: seq<Block>, i: nat, size: nat, split: bool)
    requires Good(h, 0, end + h, bs) && i < |bs| && !bs[i].used && (split ==> size + h <= bs[i].size)
    ensures Good(h, 0, end + h, Used(h, bs, i, size, split))
    ensures UsedSum(h, Used(h, bs, i, size, split)) == UsedSum(h, bs) + h + Got(bs, i, size, split).size
    ensures UsedSet(Used(h, bs, i, size, split)) == UsedSet(bs) + {Got(bs, i, size, split)}
    ensures FreeAddrs(bs) - {bs[i].addr} <= FreeAddrs(Used(h, bs, i, size, split))
    ensures bs[i].addr in FreeAddrs(bs)
    ensures |Used(h, bs, i, size, split)| >= |bs| && Used(h, bs, i, size, split)[..i] == bs[..i]
    ensures Used(h, bs, i, size, split)[i] == Got(bs, i, size, split)
    ensures forall b :: b in Used(h, bs, i, size, split) && !b.used ==> b in bs || bs[i].addr < b.addr
  {
    assert bs[i] in bs;
    if split {
      SplitKeeps(h, 0, end + h, bs, i, size);
      SplitSets(h, 0, end + h, bs, i, size);
      SpliceMembers(h, 0, end + h, bs, i, i + 1, Halves(h, bs[i], size));
    } else {
      TakeKeeps(h, 0, end + h, bs, i);
      TakeSets(h, 0, end + h, bs, i);
      SpliceMembers(h, 0, end + h, bs, i, i + 1, [bs[i].(used := true)]);
    }
  }

  // The block before a header starts below it.
  lemma AddrsAscend(h: nat, end: nat, bs: seq<Block>, i: nat, j: nat)
    requires Good(h, 0, end + h, bs) && i < j < |bs|
    ensures bs[i].addr < bs[j].addr
  {
    BlocksApart(h, 0, end + h, bs, i, j);
  }

  // Moving `lfree` from the block i that was just used up to the next free block.
  lemma AdvanceKeepsLowest(h: nat, end: nat, bs: seq<Block>, i: nat, size: nat, split: bool, lfree: int, j: nat)
    requires Good(h, 0, end + h, bs) && i < |bs| && !bs[i].used && (split ==> size + h <= bs[i].size)
    requires LowestFree(bs, lfree) && lfree == bs[i].addr
    requires i <= j < |Used(h, bs, i, size, split)|
    requires forall k :: i <= k < j ==> Used(h, bs, i, size, split)[k].used
    ensures LowestFree(Used(h, bs, i, size, split), Used(h, bs, i, size, split)[j].addr)
  {
    UsedFacts(h, end, bs, i, size, split);
    var bs' := Used(h, bs, i, size, split);
    forall b | b in bs' && !b.used ensures bs'[j].addr <= b.addr {
      var k :| 0 <= k < |bs'| && bs'[k] == b;
      if k < i {
        assert bs'[..i][k] == bs[..i][k] == b;
        assert b in bs;
        AddrsAscend(h, end, bs, k, i);
      } else if k > j {
        AddrsAscend(h, end, bs', j, k);
      }
    }
  }

  lemma OtherKeepsLowest(h: nat, end: nat, bs: seq<Block>, i: nat, size: nat, split: bool, lfree: int)
    requires Good(h, 0, end + h, bs) && i < |bs| && !bs[i].used && (split ==> size + h <= bs[i].size)
    requires lfree <= bs[i].addr
    ensures LowestFree(bs, lfree) ==> LowestFree(Used(h, bs, i, size, split), lfree)
    ensures FreeOrEnd(end, bs, lfree) && lfree != bs[i].addr ==> FreeOrEnd(end, Used(h, bs, i, size, split), lfree)
  {
    UsedFacts(h, end, bs, i, size, split);
  }

  lemma UsedBytes(h: nat, end: nat, bs: seq<Block>, i: nat, size: nat, split: bool, mem: seq<byte>, touched: set<int>)
    requires Good(h, 0, end + h, bs) && i + 1 < |bs| && !bs[i].used && (split ==> size + h <= bs[i].size)
    requires touched <= {bs[i].addr, bs[i + 1].addr} + (if split then {bs[i].addr + h + size} else {})
    ensures forall b :: b in UsedSet(bs) ==> Kept(h, mem, Stamped(mem, touched, h), b)
  {
    hide Stamped, Kept, Good, Used, UsedSet, FreeAddrs;
    var bs' := Used(h, bs, i, size, split);
    UsedFacts(h, end, bs, i, size, split);
    assert OnlyHeaders(h, touched, bs, bs') by {
      LastIsHeader(bs);
      if split { SplitHeader(h, bs, i, size); }
    }
    StampKeepsAll(h, end + h, mem, touched, bs, bs');
    UsedIn(bs);
    UsedIn(bs');
  }

  lemma SplitHeader(h: nat, bs: seq<Block>, i: nat, size: nat)
    requires i < |bs| && size + h <= bs[i].size
    ensures bs[i].addr + h + size in Addrs(Used(h, bs, i, size, true))
  {
    SplitAddrs(h, bs, i, size);
    assert Addrs(Split(h, bs, i, size))[i + 1] == bs[i].addr + h + size;
  }

  lemma UsedOf(h: nat, end: nat, bs: seq<Block>, next: map<int, int>, prev: map<int, int>, used: map<int, bool>, i: nat)
    requires Laid(h, end, bs, next, prev, used) && i < |bs|
    ensures bs[i].addr in used && used[bs[i].addr] == bs[i].used
    ensures bs[i].addr == end <==> i + 1 == |bs|
  {
    assert bs[i] in bs;
    if i + 1 < |bs| { BlocksApart(h, 0, end + h, bs, i, |bs| - 1); }
  }

  lemma FitIsFree(h: nat, end: nat, bs: seq<Block>, next: map<int, int>, prev: map<int, int>, used: map<int, bool>, lfree: int, size: nat, k: nat)
    requires Laid(h, end, bs, next, prev, used) && k + 1 < |bs| && FirstFit(bs, lfree, size, k)
    ensures !bs[k].used && lfree <= bs[k].addr && size <= bs[k].size && !NoFit(bs, lfree, size) && 0 <= bs[k].addr
  {
    LaidParts(h, end, bs, next, prev, used, k);
  }

  lemma GoodParts(h: nat, end: nat, bs: seq<Block>)
    requires Good(h, 0, end + h, bs)
    ensures NoTwoFree(bs)
  {
  }

  // ----- shrinking in place

  // Splitting the used block i and plugging the hole behind it.
  lemma SplitThenPlug(h: nat, bs: seq<Block>, i: nat, n: nat)
    requires i + 1 < |bs| && bs[i].used && n + h <= bs[i].size
    ensures var bs1 := Split(h, bs, i, n);
      && |bs1| == |bs| + 1 && bs1[i + 1] == Block(bs[i].addr + h + n, bs[i].size - n - h, false)
      && n + h <= Room(h, bs, i)
      && Release(h, bs1, i + 1) == Resize(h, bs, i, n)
      && RightFree(bs1, i + 1) == RightFree(bs, i) && bs1[i + 2] == bs[i + 1]
      && Merged(h, bs1, i + 1).addr == bs[i].addr + h + n
  {
    var bs1 := Split(h, bs, i, n);
    var x, y := Block(bs[i].addr, n, true), Block(bs[i].addr + h + n, bs[i].size - n - h, false);
    assert bs1 == bs[..i] + [x, y] + bs[i + 1..];
    assert bs1[i] == x && bs1[i + 1] == y && bs1[i + 2] == bs[i + 1];
    assert !LeftFree(bs1, i + 1);
    assert bs1[..i + 1] == bs[..i] + [x];
    if RightFree(bs, i) {
      assert bs1[i + 3..] == bs[i + 2..];
    } else {
      assert bs1[i + 2..] == bs[i + 1..];
    }
  }

  // `lfree` after shrinking block i to n bytes.
  function ShrunkFree(h: nat, bs: seq<Block>, i: nat, n: nat, lfree: int): int
    requires i < |bs|
  {
    if RightFree(bs, i) && lfree == bs[i + 1].addr then bs[i].addr + h + n else lfree
  }

  lemma ShrinkFacts(h: nat, end: nat, bs: seq<Block>, i: nat, n: nat, lfree: int)
    requires Good(h, 0, end + h, bs) && i + 1 < |bs| && bs[i].used && n + h <= bs[i].size
    requires bs[|bs| - 1] == Block(end, 0, true) && FreeOrEnd(end, bs, lfree)
    ensures n + h <= Room(h, bs, i)
    ensures Good(h, 0, end + h, Resize(h, bs, i, n))
    ensures UsedSum(h, Resize(h, bs, i, n)) == UsedSum(h, bs) + n - bs[i].size
    ensures UsedSet(Resize(h, bs, i, n)) == UsedSet(bs) - {bs[i]} + {Block(bs[i].addr, n, true)}
    ensures FreeOrEnd(end, Resize(h, bs, i, n), ShrunkFree(h, bs, i, n, lfree))
    ensures bs[i].addr + h + n in FreeAddrs(Resize(h, bs, i, n))
    ensures lfree != bs[i].addr + h + n
  {
    ResizeKeeps(h, 0, end + h, bs, i, n);
    ResizeSets(h, 0, end + h, bs, i, n);
    InsideIsNoAddr(h, 0, end + h, bs, i, bs[i].addr + h + n);
    LastIsHeader(bs);
    if lfree in FreeAddrs(bs) {
      var b :| b in bs && !b.used && b.addr == lfree;
      var k :| 0 <= k < |bs| && bs[k] == b;
    }
  }

  // Shrinking is where `lfree` can stop being the lowest free block: it stays so exactly if it lies
  // below the shrunk block or is the free block right behind it.
  lemma ShrinkLowest(h: nat, end: nat, bs: seq<Block>, i: nat, n: nat, lfree: int)
    requires Good(h, 0, end + h, bs) && i + 1 < |bs| && bs[i].used && n + h <= bs[i].size
    requires bs[|bs| - 1] == Block(end, 0, true) && FreeOrEnd(end, bs, lfree) && LowestFree(bs, lfree)
    ensures n + h <= Room(h, bs, i)
    ensures LowestFree(Resize(h, bs, i, n), ShrunkFree(h, bs, i, n, lfree)) <==>
            lfree < bs[i].addr || (RightFree(bs, i) && lfree == bs[i + 1].addr)
  {
    hide Good, Resize, FreeOrEnd;
    ShrinkFacts(h, end, bs, i, n, lfree);
    var x, bs' := bs[i].addr + h + n, Resize(h, bs, i, n);
    var rest :| rest in bs' && !rest.used && rest.addr == x;
    LfreeOutside(h, end, bs, i, lfree);
    ShrunkFreeBlocks(h, end, bs, i, n);
    if lfree < bs[i].addr || (RightFree(bs, i) && lfree == bs[i + 1].addr) {
      forall b | b in bs' && !b.used ensures ShrunkFree(h, bs, i, n, lfree) <= b.addr {
        if b in bs { assert lfree <= b.addr; }
      }
    }
  }

  lemma ShrunkFreeBlocks(h: nat, end: nat, bs: seq<Block>, i: nat, n: nat)
    requires Good(h, 0, end + h, bs) && i + 1 < |bs| && n + h <= Room(h, bs, i)
    ensures forall b :: b in Resize(h, bs, i, n) && !b.used ==> b in bs || b.addr == bs[i].addr + h + n
    ensures RightFree(bs, i) ==> bs[i + 1].addr == End(h, bs[i])
  {
    SpliceMembers(h, 0, end + h, bs, i, Last(bs, i) + 1, Resized(h, bs, i, n));
    if RightFree(bs, i) { Neighbours(h, 0, end + h, bs, i); }
  }

  lemma LfreeOutside(h: nat, end: nat, bs: seq<Block>, i: nat, lfree: int)
    requires Good(h, 0, end + h, bs) && i + 1 < |bs| && bs[i].used && bs[|bs| - 1] == Block(end, 0, true)
    requires FreeOrEnd(end, bs, lfree)
    ensures lfree < bs[i].addr || End(h, bs[i]) <= lfree
  {
    LastIsHeader(bs);
    assert lfree in Addrs(bs) by {
      if lfree != end {
        var b :| b in bs && !b.used && b.addr == lfree;
        var k :| 0 <= k < |bs| && bs[k] == b;
      }
    }
    assert bs[i] in bs;
    HeadersApart(h, 0, end + h, bs, lfree, bs[i]);
    LfreeIsNotUsed(h, end, bs, i, lfree);
  }

  lemma LfreeIsNotUsed(h: nat, end: nat, bs: seq<Block>, i: nat, lfree: int)
    requires Good(h, 0, end + h, bs) && i + 1 < |bs| && bs[i].used && bs[|bs| - 1] == Block(end, 0, true)
    requires FreeOrEnd(end, bs, lfree)
    ensures lfree != bs[i].addr
  {
    BlocksApart(h, 0, end + h, bs, i, |bs| - 1);
    if lfree in FreeAddrs(bs) {
      var b :| b in bs && !b.used && b.addr == lfree;
      if b.addr == bs[i].addr { SameAddr(h, 0, end + h, bs, b, bs[i]); }
    }
  }

  lemma ShrinkBytes(h: nat, end: nat, bs: seq<Block>, i: nat, n: nat, mem: seq<byte>, touched: set<int>)
    requires Good(h, 0, end + h, bs) && i + 1 < |bs| && bs[i].used && n + h <= bs[i].size && n + h <= Room(h, bs, i)
    requires touched <= {bs[i].addr, bs[i].addr + h + n, bs[i + 1].addr, if i + 2 < |bs| then bs[i + 2].addr else bs[i + 1].addr}
    ensures OthersKept(h, UsedSet(bs), bs[i], mem, Stamped(mem, touched, h))
    ensures Carried(h, bs[i], mem, Block(bs[i].addr, n, true), Stamped(mem, touched, h), n)
  {
    hide Stamped, Kept, Good, Resize, SameBytes, Bytes, UsedSet;
    var b, got, bs' := bs[i], Block(bs[i].addr, n, true), Resize(h, bs, i, n);
    ResizeKeeps(h, 0, end + h, bs, i, n);
    ResizeSets(h, 0, end + h, bs, i, n);
    assert OnlyHeaders(h, touched, bs, bs') by {
      LastIsHeader(bs);
      assert Addrs(bs')[i + 1] == b.addr + h + n;
    }
    StampKeepsAll(h, end + h, mem, touched, bs, bs');
    UsedIn(bs);
    UsedIn(bs');
    StampKeepsCommon(h, end + h, mem, touched, bs, bs', b, got);
    SameSlice(mem, Stamped(mem, touched, h), b.addr + h, b.addr + h + n, n);
  }

  // A move keeps the other payloads and carries the first k bytes over.
  lemma Chained(h: nat, was: set<Block>, b: Block, got: Block, m0: seq<byte>, m1: seq<byte>, m2: seq<byte>, m3: seq<byte>, k: nat)
    requires b in was && got !in was && k <= b.size && k <= got.size
    requires forall x :: x in was ==> Kept(h, m0, m1, x)
    requires forall x :: x in was ==> Kept(h, m1, m2, x)
    requires Bytes(m2, got.addr + h, k) == Bytes(m1, b.addr + h, k)
    requires forall x :: x in was + {got} - {b} ==> Kept(h, m2, m3, x)
    ensures OthersKept(h, was, b, m0, m3)
    ensures Carried(h, b, m0, got, m3, k)
  {
    hide Kept, Bytes;
    KeptTwice(h, was, m0, m1, m2);
    KeptTwice(h, was - {b}, m0, m2, m3);
    KeptSlice(h, m0, m1, b, k);
    assert got in was + {got} - {b};
    KeptSlice(h, m2, m3, got, k);
  }

  lemma InHeap(h: nat, end: nat, bs: seq<Block>, b: Block)
    requires Good(h, 0, end + h, bs) && b in bs
    ensures 0 <= b.addr && End(h, b) <= end + h
  {
    TilesOrder(h, 0, end + h, bs);
  }

  lemma AsItIs(h: nat, s: set<Block>, b: Block, m: seq<byte>, n: nat)
    requires b in s
    ensures s == s - {b} + {b} && Carried(h, b, m, b, m, n) && OthersKept(h, s, b, m, m)
  {
  }
}

module SmallMem {
  import opened Layout
  import opened HeapBytes
  import opened SmallMemSpec

  class SmallHeap {
    const h: nat         // SIZEOF_STRUCT_MEM
    const align: nat     // RT_ALIGN_SIZE
    const memSize: nat   // mem_size_aligned
    const end: nat       // offset of heap_end
    var next: map<int, int>
    var prev: map<int, int>
    var used: map<int, bool>
    var lfree: int
    var usedMem: int
    var mem: seq<byte>
    ghost var bs: seq<Block>

    // The heap is at least as large as the smallest block, and lies in a 32-bit address space.
    ghost predicate Params()
      reads this`mem
    {
      && h > 0 && AlignOk(align) && end == memSize + h && |mem| == end + h
      && MinAligned() <= memSize && end + h + align + MIN_SIZE <= SIZE_MODULUS
    }

    // MIN_SIZE_ALIGNED
    function MinAligned(): nat
      requires align > 0
    {
      AlignUp(MIN_SIZE, align)
    }

    ghost predicate Valid()
      reads this
    {
      && Params()
      && Laid(h, end, bs, next, prev, used) && NoTwoFree(bs)
      && FreeOrEnd(end, bs, lfree) && NonEmpty(end, UsedSet(bs))
      && usedMem == UsedSum(h, bs) - h
    }

    // rt_system_heap_init on aligned addresses.
    constructor (h: nat, align: nat, memSize: nat, mem: seq<byte>)
      requires h > 0 && AlignOk(align) && AlignUp(MIN_SIZE, align) <= memSize
      requires memSize + 2 * h + align + MIN_SIZE <= SIZE_MODULUS && |mem| == memSize + 2 * h
      ensures Valid() && LowestFree(bs, lfree) && this.h == h && this.align == align && this.memSize == memSize && lfree == 0
      ensures bs == [Block(0, memSize, false), Block(memSize + h, 0, true)]
    {
      this.h, this.align, this.memSize, end := h, align, memSize, memSize + h;
      next := map[0 := memSize + h, memSize + h := memSize + h];
      prev := map[0 := 0, memSize + h := memSize + h];
      used := map[0 := false, memSize + h := true];
      lfree := 0;
      usedMem := 0;
      this.mem := Stamped(mem, {0, memSize + h}, h);
      var first, last := Block(0, memSize, false), Block(memSize + h, 0, true);
      bs := [first, last];
      ShortTiles(h, first, last);
      ShortSums(h, first, last, last);
      ShortSums(h, last, last, last);
      ShortSets(first, last);
      assert NoTwoFree([last]);
      assert Addrs([first, last]) == [0, memSize + h];
    }

    // ----- merging

    // plug_holes, for the free block j.
    method PlugHoles(header: int, ghost j: nat)
      requires Laid(h, end, bs, next, prev, used) && j + 1 < |bs| && !bs[j].used && bs[j].addr == header
      modifies this`next, this`prev, this`lfree, this`bs
      ensures bs == Release(h, old(bs), j) && Laid(h, end, bs, next, prev, used)
      ensures lfree == PluggedFree(h, old(bs), j, old(lfree))
    {
      hide Laid, Release, MergeTwo;
      PlugIsRelease(h, bs, j);
      LaidParts(h, end, bs, next, prev, used, j);
      LastIsUsed(h, end, bs, next, prev, used);
      PlugForward(header, j);
      LastIsUsed(h, end, bs, next, prev, used);
      PlugBackward(header, j);
    }

    method PlugForward(header: int, ghost j: nat)
      requires Laid(h, end, bs, next, prev, used) && j + 1 < |bs| && !bs[j].used && bs[j].addr == header
      modifies this`next, this`prev, this`lfree, this`bs
      ensures bs == if RightFree(old(bs), j) then MergeTwo(h, old(bs), j) else old(bs)
      ensures Laid(h, end, bs, next, prev, used)
      ensures lfree == if RightFree(old(bs), j) && old(lfree) == old(bs)[j + 1].addr then header else old(lfree)
    {
      hide Laid, MergeTwo;
      LaidParts(h, end, bs, next, prev, used, j);
      LastIsUsed(h, end, bs, next, prev, used);
      var nmem := next[header];
      if header != nmem && !used[nmem] && nmem != end {
        if lfree == nmem {
          lfree := header;
        }
        MergeLaid(h, end, bs, next, prev, used, j);
        next := next[header := next[nmem]];
        prev := prev[next[header] := header];
        bs := MergeTwo(h, bs, j);
      }
    }

    method PlugBackward(header: int, ghost j: nat)
      requires Laid(h, end, bs, next, prev, used) && j + 1 < |bs| && !bs[j].used && bs[j].addr == header
      modifies this`next, this`prev, this`lfree, this`bs
      ensures bs == if LeftFree(old(bs), j) then MergeTwo(h, old(bs), j - 1) else old(bs)
      ensures Laid(h, end, bs, next, prev, used)
      ensures lfree == if LeftFree(old(bs), j) && old(lfree) == header then old(bs)[j - 1].addr else old(lfree)
    {
      hide Laid, MergeTwo;
      LaidParts(h, end, bs, next, prev, used, j);
      var pmem := prev[header];
      if j > 0 { LaidParts(h, end, bs, next, prev, used, j - 1); }
      if pmem != header && !used[pmem] {
        if lfree == header {
          lfree := pmem;
        }
        MergeLaid(h, end, bs, next, prev, used, j - 1);
        next := next[pmem := next[header]];
        prev := prev[next[header] := pmem];
        bs := MergeTwo(h, bs, j - 1);
      }
    }

    // ----- freeing

    // `p` is what malloc or realloc returned for a block that is still in use.
    ghost predicate Owns(p: int)
      reads this`bs
    {
      exists b :: b in UsedSet(bs) && b.addr + h == p && b.addr != end
    }

    ghost function BlockOf(p: int): (b: Block)
      reads this`bs
      requires Owns(p)
      ensures b in UsedSet(bs) && b.addr + h == p && b.addr != end
    {
      var b :| b in UsedSet(bs) && b.addr + h == p && b.addr != end;
      b
    }

    lemma OwnedIndex(p: int) returns (i: nat)
      requires Laid(h, end, bs, next, prev, used) && Owns(p)
      ensures i + 1 < |bs| && bs[i] == BlockOf(p) && bs[i].used
    {
      var b := BlockOf(p);
      i :| 0 <= i < |bs| && bs[i] == b;
      assert b.addr != end;
    }

    // A pointer outside the heap, which free and realloc ignore.
    predicate Outside(p: int) { p < 0 || end <= p }

    // rt_free
    method Free(p: int)
      requires Valid() && (p < 0 || end <= p || Owns(p))
      modifies this
      ensures Valid()
      ensures p < 0 || end <= p ==> bs == old(bs) && mem == old(mem) && lfree == old(lfree)
      ensures 0 <= p < end ==> old(Owns(p)) && UsedSet(bs) == UsedSet(old(bs)) - {old(BlockOf(p))}
      ensures forall b :: b in UsedSet(bs) ==> Kept(h, old(mem), mem, b)
      ensures LowestFree(old(bs), old(lfree)) ==> LowestFree(bs, lfree)
    {
      hide Laid, Good, UsedSum, Stamped, Kept, UsedSet, FreeAddrs, Release, LowestFree, FreeOrEnd;
      KeptSame(h, mem);
      if p == NULL || Outside(p) {
        return;
      }
      ghost var i := OwnedIndex(p);
      var header := p - h;
      LaidParts(h, end, bs, next, prev, used, i);
      ghost var bs1 := bs[i := bs[i].(used := false)];
      BitLaid(h, end, bs, next, prev, used, i, false);
      var touched := {header, next[header], next[next[header]], prev[header]};
      ReleaseAfterBit(h, bs, i);
      FreedFacts(h, end, bs, next, prev, used, i);
      FreedIsLowest(h, end, bs, i, lfree);
      FreedBytes(h, end, bs, next, prev, used, i, mem, touched);
      mem := Stamped(mem, touched, h);
      used := used[header := false];
      bs := bs1;
      if header < lfree {
        lfree := header;
      }
      usedMem := usedMem - (next[header] - header);
      PlugHoles(header, i);
    }

    // ----- allocating

    function Request(size: nat): (n: nat)
      requires align > 0
    {
      var n := AlignUp(size, align);
      if n < MinAligned() then MinAligned() else n
    }

    // The search loop of rt_malloc: the first block at or above `lfree` that is large enough.
    method Search(size: nat) returns (ptr: int, found: bool, ghost k: nat)
      requires Valid() && size <= memSize
      ensures k < |bs| && bs[k].addr == ptr
      ensures found ==> k + 1 < |bs| && FirstFit(bs, lfree, size, k)
      ensures !found ==> NoFit(bs, lfree, size)
    {
      hide Tiles, Bits, Chain, UsedSum, FreeAddrs, NoTwoFree;
      ptr := lfree;
      k := LfreeIndex();
      BelowDoesNotFit(h, end, bs, k, size);
      found := false;
      while ptr < memSize - size
        invariant k < |bs| && bs[k].addr == ptr && lfree <= ptr
        invariant forall j :: 0 <= j < k ==> !Fits(bs, lfree, size, j)
        decreases |bs| - k
      {
        LaidParts(h, end, bs, next, prev, used, k);
        if bs[k].size >= size { BoundIsFit(h, end, bs, k, size); }
        if !used[ptr] && next[ptr] - (ptr + h) >= size {
          found := true;
          return;
        }
        ptr := next[ptr];
        k := k + 1;
      }
      BeyondDoesNotFit(h, end, bs, lfree, k, size);
    }

    lemma LfreeIndex() returns (k: nat)
      requires Valid()
      ensures k < |bs| && bs[k].addr == lfree
    {
      if lfree == end {
        k := |bs| - 1;
      } else {
        var b :| b in bs && !b.used && b.addr == lfree;
        k :| 0 <= k < |bs| && bs[k] == b;
      }
    }

    // Move `lfree` up to the next free block.
    method Advance(ghost i: nat) returns (ghost j: nat)
      requires Laid(h, end, bs, next, prev, used) && i < |bs| && bs[i].addr == lfree
      modifies this`lfree
      ensures i <= j < |bs| && bs[j].addr == lfree && FreeOrEnd(end, bs, lfree)
      ensures forall k :: i <= k < j ==> bs[k].used
    {
      hide Laid;
      LastIsUsed(h, end, bs, next, prev, used);
      j := i;
      UsedOf(h, end, bs, next, prev, used, j);
      while used[lfree] && lfree != end
        invariant i <= j < |bs| && bs[j].addr == lfree && lfree in used && used[lfree] == bs[j].used
        invariant forall k :: i <= k < j ==> bs[k].used
        decreases |bs| - j
      {
        LaidParts(h, end, bs, next, prev, used, j);
        lfree := next[lfree];
        j := j + 1;
        UsedOf(h, end, bs, next, prev, used, j);
      }
      assert bs[j] in bs;
    }

    // Use block i at `ptr`, whose size is enough.
    method Use(ptr: int, size: nat, ghost i: nat) returns (ghost split: bool)
      requires Valid() && i + 1 < |bs| && bs[i].addr == ptr && !bs[i].used && 0 < size <= bs[i].size && lfree <= ptr
      modifies this
      ensures Valid()
      ensures split <==> size + h + MinAligned() <= old(bs)[i].size
      ensures bs == Used(h, old(bs), i, size, split)
      ensures forall b :: b in UsedSet(old(bs)) ==> Kept(h, old(mem), mem, b)
      ensures LowestFree(old(bs), old(lfree)) ==> LowestFree(bs, lfree)
    {
      hide Laid, Good, UsedSum, Stamped, Kept, UsedSet, FreeAddrs, Used, LowestFree, FreeOrEnd;
      GoodOf();
      LaidParts(h, end, bs, next, prev, used, i);
      split := next[ptr] - (ptr + h) >= size + h + MinAligned();
      UsedFacts(h, end, bs, i, size, split);
      OtherKeepsLowest(h, end, bs, i, size, split, lfree);
      UsedBytes(h, end, bs, i, size, split, mem, Touched(bs, i, size, split));
      Occupy(ptr, size, i, split);
      GoodParts(h, end, bs);
      if ptr == lfree {
        ghost var j := Advance(i);
        if LowestFree(old(bs), old(lfree)) {
          AdvanceKeepsLowest(h, end, old(bs), i, size, split, old(lfree), j);
        }
      }
    }

    ghost function Touched(s: seq<Block>, i: nat, size: nat, split: bool): set<int>
      requires i + 1 < |s|
    {
      if split then {s[i].addr, s[i].addr + h + size, s[i + 1].addr} else {s[i].addr}
    }

    method Occupy(ptr: int, size: nat, ghost i: nat, ghost split: bool)
      requires align > 0 && Laid(h, end, bs, next, prev, used)
      requires i + 1 < |bs| && bs[i].addr == ptr && size <= bs[i].size
      requires split <==> size + h + MinAligned() <= bs[i].size
      modifies this`next, this`prev, this`used, this`mem, this`usedMem, this`bs
      ensures bs == Used(h, old(bs), i, size, split) && Laid(h, end, bs, next, prev, used)
      ensures usedMem == old(usedMem) + h + Got(old(bs), i, size, split).size
      ensures mem == Stamped(old(mem), Touched(old(bs), i, size, split), h)
    {
      hide Laid, Split, Take, Stamped;
      LaidParts(h, end, bs, next, prev, used, i);
      if next[ptr] - (ptr + h) >= size + h + MinAligned() {
        SplitUsing(ptr, size, i);
      } else {
        TakeUsing(ptr, i);
      }
    }

    method SplitUsing(ptr: int, size: nat, ghost i: nat)
      requires Laid(h, end, bs, next, prev, used) && i + 1 < |bs| && bs[i].addr == ptr && size + h <= bs[i].size
      modifies this`next, this`prev, this`used, this`mem, this`usedMem, this`bs
      ensures bs == Split(h, old(bs), i, size) && Laid(h, end, bs, next, prev, used)
      ensures usedMem == old(usedMem) + size + h
      ensures mem == Stamped(old(mem), {ptr, ptr + h + size, old(bs)[i + 1].addr}, h)
    {
      hide Laid, Split, Stamped;
      LastIsUsed(h, end, bs, next, prev, used);
      LaidParts(h, end, bs, next, prev, used, i);
      var ptr2 := ptr + h + size;
      mem := Stamped(mem, {ptr, ptr2, next[ptr]}, h);
      used := used[ptr2 := false];
      next := next[ptr2 := next[ptr]];
      prev := prev[ptr2 := ptr];
      next := next[ptr := ptr2];
      used := used[ptr := true];
      if next[ptr2] != end {
        prev := prev[next[ptr2] := ptr2];
      }
      usedMem := usedMem + (size + h);
      SplitLaid(h, end, bs, old(next), old(prev), old(used), i, size, next, prev);
      bs := Split(h, bs, i, size);
    }

    method TakeUsing(ptr: int, ghost i: nat)
      requires Laid(h, end, bs, next, prev, used) && i + 1 < |bs| && bs[i].addr == ptr
      modifies this`used, this`mem, this`usedMem, this`bs
      ensures bs == Take(old(bs), i) && Laid(h, end, bs, next, prev, used)
      ensures usedMem == old(usedMem) + h + old(bs)[i].size
      ensures mem == Stamped(old(mem), {ptr}, h)
    {
      hide Laid, Stamped;
      LaidParts(h, end, bs, next, prev, used, i);
      BitLaid(h, end, bs, next, prev, used, i, true);
      TakeIsBit(bs, i);
      mem := Stamped(mem, {ptr}, h);
      used := used[ptr := true];
      usedMem := usedMem + (next[ptr] - ptr);
      bs := Take(bs, i);
    }

    lemma GoodOf()
      requires Laid(h, end, bs, next, prev, used) && NoTwoFree(bs)
      ensures Good(h, 0, end + h, bs)
    {
    }

    // rt_malloc
    method Malloc(size: nat) returns (r: int, ghost got: Block)
      requires Valid()
      modifies this
      ensures Valid()
      ensures r == NULL <==>
        size == 0 || AlignUp(size, align) > memSize || NoFit(old(bs), old(lfree), Request(size))
      ensures r == NULL ==> bs == old(bs) && mem == old(mem) && lfree == old(lfree)
      ensures r != NULL ==>
        && UsedSet(bs) == UsedSet(old(bs)) + {got} && got.used && got.addr + h == r
        && Request(size) <= got.size < Request(size) + h + MinAligned()
        && TakenFirst(h, MinAligned(), old(bs), old(lfree), Request(size), bs, got)
      ensures forall b :: b in UsedSet(old(bs)) ==> Kept(h, old(mem), mem, b)
      ensures LowestFree(old(bs), old(lfree)) ==> LowestFree(bs, lfree)
    {
      hide Laid, Good, UsedSum, Stamped, Kept, UsedSet, FreeAddrs, Used, LowestFree, FreeOrEnd, NoFit, AlignUp;
      got := Block(0, 0, false);
      KeptSame(h, mem);
      if size == 0 {
        return NULL, got;
      }
      var n := AlignUp(size, align);
      if n > memSize {
        return NULL, got;
      }
      if n < MinAligned() {
        n := MinAligned();
      }
      AlignUpIsEnough(MIN_SIZE, align);
      var ptr, found;
      ghost var k;
      ptr, found, k := Search(n);
      if !found {
        return NULL, got;
      }
      FitIsFree(h, end, bs, next, prev, used, lfree, n, k);
      GoodOf();
      ghost var was := bs;
      ghost var split := Use(ptr, n, k);
      UsedFacts(h, end, was, k, n, split);
      got := Got(was, k, n, split);
      return ptr + h, got;
    }

    // The request is large enough up to 2^32 - align; beyond that rt_malloc hands out the smallest block.
    lemma RequestHolds(size: nat)
      requires Params() && size < SIZE_MODULUS
      ensures size <= Request(size) <==> size <= SIZE_MODULUS - align
      ensures size > SIZE_MODULUS - align ==> Request(size) == MinAligned()
    {
      RoundsToZero(size, align);
      if size <= SIZE_MODULUS - align {
        AlignUpIsEnough(size, align);
      }
    }

    // ----- reallocating

    // The part of rt_realloc that gives back the end of a block.
    method Shrink(p: int, n: nat, ghost i: nat)
      requires Valid() && i + 1 < |bs| && bs[i].addr + h == p && bs[i].used && n + h <= bs[i].size && 0 < n
      modifies this
      ensures n + h <= Room(h, old(bs), i) && Valid() && bs == Resize(h, old(bs), i, n)
      ensures lfree == ShrunkFree(h, old(bs), i, n, old(lfree))
      ensures OthersKept(h, UsedSet(old(bs)), old(bs)[i], old(mem), mem)
      ensures Carried(h, old(bs)[i], old(mem), Block(p - h, n, true), mem, n)
    {
      hide Laid, Good, Split, Resize, Release, UsedSum, Stamped, UsedSet, OthersKept, Carried, FreeOrEnd, Bytes;
      GoodOf();
      LastIsUsed(h, end, bs, next, prev, used);
      LaidParts(h, end, bs, next, prev, used, i);
      ShrinkFacts(h, end, bs, i, n, lfree);
      SplitThenPlug(h, bs, i, n);
      var header := p - h;
      var ptr2 := header + h + n;
      var touched := {header, ptr2, next[header], next[next[header]]};
      ShrinkBytes(h, end, bs, i, n, mem, touched);
      SplitAtEnd(header, ptr2, n, i);
      mem := Stamped(mem, touched, h);
      PlugHoles(ptr2, i + 1);
      GoodParts(h, end, bs);
    }

    method SplitAtEnd(header: int, ptr2: int, n: nat, ghost i: nat)
      requires Laid(h, end, bs, next, prev, used) && i + 1 < |bs| && bs[i].addr == header && bs[i].used
      requires n + h <= bs[i].size && ptr2 == header + h + n
      modifies this`next, this`prev, this`used, this`usedMem, this`bs
      ensures bs == Split(h, old(bs), i, n) && Laid(h, end, bs, next, prev, used)
      ensures usedMem == old(usedMem) - (old(bs)[i].size - n)
    {
      hide Laid, Split;
      LastIsUsed(h, end, bs, next, prev, used);
      LaidParts(h, end, bs, next, prev, used, i);
      var size := next[header] - header - h;
      usedMem := usedMem - (size - n);
      used := used[ptr2 := false];
      next := next[ptr2 := next[header]];
      prev := prev[ptr2 := header];
      next := next[header := ptr2];
      if next[ptr2] != end {
        prev := prev[next[ptr2] := ptr2];
      }
      SplitLaid(h, end, bs, old(next), old(prev), old(used), i, n, next, prev);
      assert used == old(used)[ptr2 := false][header := true];
      bs := Split(h, bs, i, n);
    }

    // rt_memcpy of `n` bytes within the heap.
    method CopyBytes(to: int, from: int, n: nat)
      requires 0 <= to && to + n <= |mem| && 0 <= from && from + n <= |mem|
      modifies this`mem
      ensures |mem| == |old(mem)|
      ensures Bytes(mem, to, n) == Bytes(old(mem), from, n)
      ensures forall j :: 0 <= j < |mem| && (j < to || j >= to + n) ==> mem[j] == old(mem)[j]
    {
      mem := mem[..to] + mem[from..from + n] + mem[to + n..];
    }

    // rt_realloc of a block that cannot be resized in place: allocate, copy, free.
    method Move(p: int, n: nat, size: nat) returns (r: int, ghost got: Block)
      requires Valid() && Owns(p) && BlockOf(p).size == size && 0 < n <= memSize
      modifies this
      ensures Valid()
      ensures r == NULL <==> AlignUp(n, align) > memSize || NoFit(old(bs), old(lfree), Request(n))
      ensures r == NULL ==> bs == old(bs) && mem == old(mem) && lfree == old(lfree)
      ensures r != NULL ==>
        && UsedSet(bs) == UsedSet(old(bs)) - {old(BlockOf(p))} + {got}
        && got.used && got.addr + h == r && n <= got.size < Request(n) + h + MinAligned()
        && Carried(h, old(BlockOf(p)), old(mem), got, mem, if size < n then size else n)
      ensures OthersKept(h, UsedSet(old(bs)), old(BlockOf(p)), old(mem), mem)
      ensures LowestFree(old(bs), old(lfree)) ==> LowestFree(bs, lfree)
    {
      hide Laid, Good, UsedSum, Kept, UsedSet, FreeAddrs, LowestFree, FreeOrEnd, NoFit, AlignUp, Bytes, TakenFirst;
      ghost var b, was, m0 := BlockOf(p), UsedSet(bs), mem;
      GoodOf();
      r, got := Malloc(n);
      if r == NULL {
        return;
      }
      RequestIsEnough(n);
      TakenIsFree(h, MinAligned(), old(bs), old(lfree), Request(n), bs, got);
      UsedIn(bs);
      UsedIn(old(bs));
      GoodOf();
      InHeap(h, end, bs, b);
      InHeap(h, end, bs, got);
      GotIsNew(was, got, old(bs));
      StillOwned(p, b);
      var k := if size < n then size else n;
      ghost var m1 := mem;
      CopyBytes(r, p, k);
      CopyKeeps(h, end + h, bs, m1, mem, got, k);
      ghost var m2 := mem;
      Free(p);
      Chained(h, was, b, got, m0, m1, m2, mem, k);
    }

    lemma RequestIsEnough(n: nat)
      requires Params() && n <= memSize
      ensures n <= Request(n)
    {
      AlignUpIsEnough(n, align);
    }

    lemma StillOwned(p: int, b: Block)
      requires Valid() && b in UsedSet(bs) && b.addr + h == p && b.addr != end
      ensures Owns(p) && BlockOf(p) == b && 0 <= p < end && p != NULL
    {
      SameAddr(h, 0, end + h, bs, b, BlockOf(p));
      TilesOrder(h, 0, end + h, bs);
      var i := OwnedIndex(p);
      LaidParts(h, end, bs, next, prev, used, i);
    }

    lemma GotIsNew(was: set<Block>, got: Block, s: seq<Block>)
      requires exists i :: 0 <= i < |s| && !s[i].used && s[i].addr == got.addr
      requires was == UsedSet(s) && Good(h, 0, end + h, s)
      ensures got !in was
    {
      var i :| 0 <= i < |s| && !s[i].used && s[i].addr == got.addr;
      if got in was {
        SameAddr(h, 0, end + h, s, got, s[i]);
      }
    }

    // rt_realloc
    method Realloc(p: int, newsize: nat) returns (r: int, ghost got: Block)
      requires Valid() && (p < 0 || end <= p || Owns(p))
      modifies this
      ensures Valid()
      // more than the heap holds: nothing happens; a size that rounds to zero frees
      ensures AlignUp(newsize, align) > memSize ==> r == NULL && bs == old(bs) && mem == old(mem)
      ensures AlignUp(newsize, align) == 0 ==> r == NULL
      ensures AlignUp(newsize, align) == 0 && old(Owns(p)) ==> UsedSet(bs) == UsedSet(old(bs)) - {old(BlockOf(p))}
      ensures AlignUp(newsize, align) == 0 && (p < 0 || end <= p) ==> bs == old(bs) && mem == old(mem)
      // no block yet: allocate; a foreign pointer: hand it back
      ensures 0 < AlignUp(newsize, align) <= memSize && p == NULL ==>
        if CannotMove(old(bs), old(lfree), AlignUp(newsize, align)) then
          r == NULL && bs == old(bs) && mem == old(mem)
        else
          UsedSet(bs) == UsedSet(old(bs)) + {got} && got.used && got.addr + h == r && AlignUp(newsize, align) <= got.size
      ensures 0 < AlignUp(newsize, align) <= memSize && p != NULL && (p < 0 || end <= p) ==> r == p && bs == old(bs) && mem == old(mem)
      // otherwise a failure changes nothing, and happens just if the block has to move and nothing fits
      ensures 0 < AlignUp(newsize, align) <= memSize && old(Owns(p)) && r == NULL ==>
        MustMove(old(BlockOf(p)), AlignUp(newsize, align)) && bs == old(bs) && mem == old(mem) && lfree == old(lfree)
      ensures 0 < AlignUp(newsize, align) <= memSize && old(Owns(p)) && MustMove(old(BlockOf(p)), AlignUp(newsize, align)) ==>
        (r == NULL <==> CannotMove(old(bs), old(lfree), AlignUp(newsize, align)))
      // and a success resizes exactly this block, wherever it ends up, and carries its bytes over
      ensures 0 < AlignUp(newsize, align) <= memSize && old(Owns(p)) && r != NULL ==>
        var n, b := AlignUp(newsize, align), old(BlockOf(p));
        && UsedSet(bs) == UsedSet(old(bs)) - {b} + {got}
        && got.used && got.addr + h == r && n <= got.size
        && (if MustMove(b, n) then got.size < Request(n) + h + MinAligned() else r == p && got.size == n)
        && Carried(h, b, old(mem), got, mem, if b.size < n then b.size else n)
      // a block that is cut in place leaves its end free, and `lfree` above it if it was
      ensures 0 < AlignUp(newsize, align) <= memSize && old(Owns(p)) && old(BlockOf(p)).size > AlignUp(newsize, align) + h + MIN_SIZE ==>
        ShrunkInPlace(h, old(bs), old(lfree), old(BlockOf(p)), AlignUp(newsize, align), bs, lfree)
      // no other live payload changes
      ensures p < 0 || end <= p ==> forall b :: b in UsedSet(old(bs)) ==> Kept(h, old(mem), mem, b)
      ensures old(Owns(p)) ==> OthersKept(h, UsedSet(old(bs)), old(BlockOf(p)), old(mem), mem)
    {
      hide Laid, Good, UsedSum, UsedSet, FreeAddrs, LowestFree, FreeOrEnd, NoFit, AlignUp, Bytes, Release, Resize, SameBytes;
      got := Block(0, 0, false);
      r := NULL;
      KeptSame(h, mem);
      GoodOf();
      if Owns(p) { StillOwned(p, BlockOf(p)); }
      var n := AlignUp(newsize, align);
      if n > memSize {
        return;
      } else if n == 0 {
        Free(p);
        return;
      }
      if p == NULL {
        RequestIsEnough(n);
        r, got := Malloc(n);
        return;
      }
      if Outside(p) {
        return p, got;
      }
      r, got := ResizeBlock(p, n);
    }

    // The block can neither stay as it is nor be shrunk in place.
    predicate MustMove(b: Block, n: nat) {
      b.size != n && b.size <= n + h + MIN_SIZE
    }

    ghost predicate CannotMove(s: seq<Block>, from: int, n: nat)
      requires align > 0
    {
      AlignUp(n, align) > memSize || NoFit(s, from, Request(n))
    }

    // rt_realloc of an existing block to an aligned size.
    method ResizeBlock(p: int, n: nat) returns (r: int, ghost got: Block)
      requires Valid() && Owns(p) && 0 < n <= memSize
      modifies this
      ensures Valid()
      ensures r == NULL <==> MustMove(old(BlockOf(p)), n) && CannotMove(old(bs), old(lfree), n)
      ensures r == NULL ==> bs == old(bs) && mem == old(mem) && lfree == old(lfree)
      ensures r != NULL ==>
        var b := old(BlockOf(p));
        && UsedSet(bs) == UsedSet(old(bs)) - {b} + {got}
        && got.used && got.addr + h == r && n <= got.size
        && (if MustMove(b, n) then got.size < Request(n) + h + MinAligned() else r == p && got.size == n)
        && Carried(h, b, old(mem), got, mem, if b.size < n then b.size else n)
      ensures old(BlockOf(p)).size > n + h + MIN_SIZE ==> ShrunkInPlace(h, old(bs), old(lfree), old(BlockOf(p)), n, bs, lfree)
      ensures OthersKept(h, UsedSet(old(bs)), old(BlockOf(p)), old(mem), mem)
    {
      hide Laid, Good, UsedSum, UsedSet, FreeAddrs, LowestFree, FreeOrEnd, NoFit, AlignUp, Bytes, Release, Resize, OthersKept, Carried, ShrunkFree;
      ghost var i := OwnedIndex(p);
      GoodOf();
      LastIsUsed(h, end, bs, next, prev, used);
      LaidParts(h, end, bs, next, prev, used, i);
      StillOwned(p, BlockOf(p));
      got := BlockOf(p);
      var header := p - h;
      var size := next[header] - header - h;
      if size == n {
        AsItIs(h, UsedSet(bs), got, mem, n);
        return p, got;
      }
      if n + h + MIN_SIZE < size {
        ShrinkFacts(h, end, bs, i, n, lfree);
        Shrink(p, n, i);
        return p, Block(header, n, true);
      }
      r, got := Move(p, n, size);
    }
  }
  // ----- what the algorithm misses

  // An exact fit in the last block is refused: 200 bytes of a heap of 200 free bytes.
  method ExactFitIsRefused() returns (heap: SmallHeap, r: int)
    ensures fresh(heap) && heap.Valid() && r == NULL && heap.bs == [Block(0, 200, false), Block(212, 0, true)]
  {
    heap := new SmallHeap(12, 4, 200, seq(224, _ => 0));
    assert heap.Request(200) == 200;
    ghost var got;
    r, got := heap.Malloc(200);
  }

  // A request of 2^32 - 1 bytes gets 12.
  method MallocOfNearlyAll() returns (heap: SmallHeap, r: int, ghost got: Block)
    ensures fresh(heap) && heap.Valid() && r != NULL && got in UsedSet(heap.bs) && r == got.addr + heap.h && got.size == 12
  {
    heap := new SmallHeap(12, 4, 200, seq(224, _ => 0));
    assert heap.Request(0xffff_ffff) == 12;
    assert Fits(heap.bs, heap.lfree, 12, 0);
    r, got := heap.Malloc(0xffff_ffff);
  }

  const THREE: seq<Block> := [Block(0, 100, true), Block(112, 88, false), Block(212, 0, true)]
  const FULL: seq<Block> := [Block(0, 100, true), Block(112, 88, true), Block(212, 0, true)]
  const CUT: seq<Block> := [Block(0, 20, true), Block(32, 68, false), Block(112, 88, true), Block(212, 0, true)]

  // The heap is filled, its first block cut to 20 bytes, and then a request for 40 bytes fails although 68
  // bytes are free: `lfree` still says that nothing is.
  method ShrinkHidesFreeBlock() returns (heap: SmallHeap, r: int)
    ensures fresh(heap) && heap.Valid() && heap.bs == CUT && heap.lfree == 212
    ensures r == NULL && Fits(heap.bs, 0, 40, 1) && !LowestFree(heap.bs, heap.lfree)
  {
    hide *;
    heap := FilledHeap();
    FilledFacts(heap);
    ghost var got;
    r, got := heap.Realloc(12, 20);
    CutIs(heap.bs, heap.lfree);
    CutFacts(heap);
    r, got := heap.Malloc(40);
  }

  method FilledHeap() returns (heap: SmallHeap)
    ensures fresh(heap) && heap.Valid() && heap.h == 12 && heap.align == 4 && heap.memSize == 200
    ensures heap.bs == FULL && heap.lfree == 212
  {
    hide Laid, UsedSum, UsedSet, FreeAddrs, Kept, Used, TakenFirst;
    heap := new SmallHeap(12, 4, 200, seq(224, _ => 0));
    ghost var got;
    var r;
    assert Fits(heap.bs, heap.lfree, 100, 0);
    r, got := heap.Malloc(100);
    FirstTaken(heap.bs, got);
    LfreeIs(heap.bs, heap.lfree);
    assert Fits(heap.bs, heap.lfree, 80, 1);
    r, got := heap.Malloc(80);
    SecondTaken(heap.bs, got);
    LfreeIs(heap.bs, heap.lfree);
  }

  lemma FirstTaken(bs: seq<Block>, got: Block)
    requires TakenFirst(12, 12, [Block(0, 200, false), Block(212, 0, true)], 0, 100, bs, got)
    ensures bs == THREE
  {
  }

  lemma SecondTaken(bs: seq<Block>, got: Block)
    requires TakenFirst(12, 12, THREE, 112, 80, bs, got)
    ensures bs == FULL
  {
  }

  lemma LfreeIs(bs: seq<Block>, lfree: int)
    requires (bs == THREE || bs == FULL) && FreeOrEnd(212, bs, lfree) && LowestFree(bs, lfree)
    ensures lfree == if bs == THREE then 112 else 212
  {
    if bs == THREE { assert bs[1] in bs; }
  }

  lemma FilledFacts(heap: SmallHeap)
    requires heap.Valid() && heap.h == 12 && heap.align == 4 && heap.memSize == 200 && heap.bs == FULL
    ensures heap.Owns(12) && heap.BlockOf(12) == Block(0, 100, true)
    ensures AlignUp(20, 4) == 20 && 100 > 20 + 12 + MIN_SIZE
  {
    assert FULL[0] in heap.bs;
    heap.GoodOf();
    heap.StillOwned(12, FULL[0]);
  }

  lemma CutIs(bs: seq<Block>, lfree: int)
    requires ShrunkInPlace(12, FULL, 212, Block(0, 100, true), 20, bs, lfree)
    ensures bs == CUT && lfree == 212
  {
  }

  lemma CutFacts(heap: SmallHeap)
    requires heap.Valid() && heap.h == 12 && heap.align == 4 && heap.memSize == 200 && heap.bs == CUT
    ensures heap.Request(40) == 40 && NoFit(CUT, 212, 40) && Fits(CUT, 0, 40, 1) && !LowestFree(CUT, 212)
  {
    assert CUT[1] in CUT;
  }
}
