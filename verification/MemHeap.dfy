/**
  The memory heap (src/memheap.c): first fit over a free list, split, resize in place, and merging with
  both neighbours on free.

  Addresses are offsets from the start of the pool.  The link fields of the item headers are kept in two
  rings (all items in address order; the free items behind the heap's own free header), the used bit in
  `inUse`, and the bytes of the pool in `mem`.  Storing to a header overwrites its `h` bytes of `mem`.
 */
module MemHeaps {
  import opened Layout
  import opened HeapBytes
  import opened Rings

  const MINIALLOC: nat := 12

  // The size that a request is rounded to.
  function Rounded(size: nat, align: nat): (r: nat)
    requires align > 0
    ensures r >= MINIALLOC
  {
    var s := AlignUp(size, align);
    if s < MINIALLOC then MINIALLOC else s
  }

  lemma RoundedBound(size: nat, align: nat)
    requires 0 < align && size + align - 1 < SIZE_MODULUS
    ensures size <= Rounded(size, align) < size + align || Rounded(size, align) == MINIALLOC
    ensures size <= Rounded(size, align)
  {
    AlignUpIsEnough(size, align);
  }

  // Rounding gives at least the request exactly up to 2^32 - align.
  lemma RoundedIsEnough(size: nat, align: nat)
    requires AlignOk(align) && size < SIZE_MODULUS
    ensures size <= Rounded(size, align) <==> size <= SIZE_MODULUS - align
  {
    if size <= SIZE_MODULUS - align {
      RoundedBound(size, align);
    } else {
      RoundsToZero(size, align);
    }
  }

  class MemHeap {
    const h: nat
    const align: nat
    const poolSize: nat
    const HEAD: int
    var availableSize: int
    var maxUsedSize: int
    const items: Ring
    const frees: Ring
    var inUse: map<int, bool>
    var mem: seq<byte>
    ghost var bs: seq<Block>

    ghost predicate Valid()
      reads this, items, frees
    {
      Blocks() && ItemsAre(bs) && FreesAre(bs) && poolSize - availableSize <= maxUsedSize
    }

    // The block layout, with the used bits and the byte counter that go with it.
    ghost predicate Blocks()
      reads this
    {
      && h > MINIALLOC && poolSize <= SIZE_MODULUS && AlignOk(align) && HEAD == 0 - h && items != frees && |mem| == poolSize
      && Good(h, 0, poolSize, bs)
      && |bs| >= 2 && bs[|bs| - 1] == Block(poolSize - h, 0, true)
      && Bits(inUse, bs)
      && availableSize == FreeSum(bs)
    }

    // The item ring links the blocks in address order.
    ghost predicate ItemsAre(s: seq<Block>)
      reads items
    {
      items.Valid() && items.nodes == Addrs(s)
    }

    // The free ring holds the heap's header and, in some order, exactly the free blocks.
    ghost predicate FreesAre(s: seq<Block>)
      reads frees
    {
      FreeRing() && forall a :: a in frees.nodes[1..] <==> a in FreeAddrs(s)
    }

    ghost predicate FreeRing()
      reads frees
    {
      frees.Valid() && |frees.nodes| > 0 && frees.nodes[0] == HEAD
    }

    // Blocks handed out have at least the minimum size.
    ghost predicate NoneTiny()
      reads this
    {
      forall b :: b in UsedSet(bs) && b.addr != poolSize - h ==> b.size >= MINIALLOC
    }

    // rt_memheap_init on `pool` bytes (a multiple of the alignment) of a 32-bit address space.
    constructor (h: nat, align: nat, pool: nat, mem: seq<byte>)
      requires h > MINIALLOC && AlignOk(align) && 2 * h <= pool <= SIZE_MODULUS && |mem| == pool
      ensures Valid() && NoneTiny() && this.h == h && this.align == align && poolSize == pool && fresh(items) && fresh(frees)
      ensures bs == [Block(0, pool - 2 * h, false), Block(pool - h, 0, true)]
    {
      this.h, this.align, poolSize, HEAD := h, align, pool, 0 - h;
      availableSize := pool - 2 * h;
      maxUsedSize := 2 * h;
      var ring := new Ring(0);
      ring.InsertAfter(0, pool - h, 0);
      var free := new Ring(0 - h);
      free.InsertAfter(0 - h, 0, 0);
      items, frees := ring, free;
      inUse := map[0 := false, pool - h := true];
      this.mem := Stamped(mem, {0, pool - h}, h);
      bs := [Block(0, pool - 2 * h, false), Block(pool - h, 0, true)];
      hide Good, FreeSum, UsedSet, FreeAddrs, Linked, Stamped;
      FirstBlocks(h, pool);
      assert ring.nodes == [0, pool - h];
      assert free.nodes[1..] == [0];
    }

    static lemma FirstBlocks(h: nat, pool: nat)
      requires 0 < h && 2 * h <= pool
      ensures var s := [Block(0, pool - 2 * h, false), Block(pool - h, 0, true)];
        && Good(h, 0, pool, s) && FreeSum(s) == pool - 2 * h && Addrs(s) == [0, pool - h]
        && UsedSet(s) == {Block(pool - h, 0, true)} && FreeAddrs(s) == {0}
    {
      var first, tail := Block(0, pool - 2 * h, false), Block(pool - h, 0, true);
      ShortTiles(h, first, tail);
      ShortSums(h, first, tail, tail);
      ShortSums(h, tail, tail, tail);
      ShortSets(first, tail);
      ShortSets(tail, tail);
      assert NoTwoFree([tail]);
    }

    // MEMITEM_SIZE
    function ItemSize(a: int): int
      requires a in items.next
      reads this, items
    {
      items.next[a] - a - h
    }

    lemma ItemSizeIs(i: nat)
      requires Valid() && i + 1 < |bs|
      ensures bs[i].addr in items.next && items.next[bs[i].addr] == bs[i + 1].addr
      ensures ItemSize(bs[i].addr) == bs[i].size
    {
      assert NextOk(items.next, items.nodes, i);
      Neighbours(h, 0, poolSize, bs, i);
    }

    lemma FreeIsInner(a: int) returns (i: nat)
      requires Blocks() && a in FreeAddrs(bs)
      ensures i + 1 < |bs| && bs[i].addr == a && !bs[i].used
    {
      var b :| b in bs && !b.used && b.addr == a;
      i :| 0 <= i < |bs| && bs[i] == b;
    }

    // `a` is the first address of the free list whose block has at least `size` bytes.
    ghost predicate FirstFit(nodes: seq<int>, s: seq<Block>, a: int, size: nat) {
      exists k :: 0 < k < |nodes| && nodes[k] == a
        && forall j, b :: 0 < j < k && b in s && b.addr == nodes[j] ==> b.size < size
    }

    // The search loop of rt_memheap_alloc: the first item of the free list that is large enough.
    method FindFit(size: nat) returns (header: int, freeSize: int, ghost k: nat)
      requires Valid() && size > 0
      ensures freeSize >= size ==>
        && 0 < k < |frees.nodes| && frees.nodes[k] == header
        && header in items.next && freeSize == ItemSize(header)
      ensures freeSize < size ==> forall b :: b in bs && !b.used ==> b.size < size
      ensures freeSize >= size ==> FirstFit(frees.nodes, bs, header, size)
    {
      assert NextOk(frees.next, frees.nodes, 0);
      k := 1;
      header := frees.next[HEAD];
      freeSize := 0;
      while header != HEAD && freeSize < size
        invariant 0 < k <= |frees.nodes|
        invariant header == if k < |frees.nodes| then frees.nodes[k] else HEAD
        invariant freeSize >= size ==> k < |frees.nodes| && header in items.next && freeSize == ItemSize(header)
        invariant forall j, b :: 0 < j < k && b in bs && b.addr == frees.nodes[j] ==> b.size < size
        decreases |frees.nodes| - k, size - freeSize
      {
        assert frees.nodes[1..][k - 1] == header;
        var i := FreeIsInner(header);
        ItemSizeIs(i);
        freeSize := ItemSize(header);
        if freeSize < size {
          forall b | b in bs && b.addr == header ensures b.size < size {
            SameAddr(h, 0, poolSize, bs, b, bs[i]);
          }
          assert NextOk(frees.next, frees.nodes, k);
          header := frees.next[header];
          k := k + 1;
        }
      }
      if freeSize >= size {
        assert frees.nodes[k] == header;
      } else {
        forall b | b in bs && !b.used ensures b.size < size {
          assert b.addr in FreeAddrs(bs);
          var j :| 0 <= j < |frees.nodes[1..]| && frees.nodes[1..][j] == b.addr;
          assert frees.nodes[j + 1] == b.addr;
          assert frees.nodes[0] == HEAD;
        }
      }
    }

    // ----- the free list

    method PushFree(a: int)
      requires FreeRing() && a !in frees.nodes
      modifies frees
      ensures FreeRing() && forall x :: x in frees.nodes[1..] <==> x in old(frees.nodes)[1..] || x == a
    {
      frees.InsertAfter(HEAD, a, 0);
      assert frees.nodes[1..] == [a] + old(frees.nodes)[1..];
    }

    method DropFree(a: int, ghost k: nat)
      requires FreeRing() && 0 < k < |frees.nodes| && frees.nodes[k] == a
      modifies frees
      ensures FreeRing() && forall x :: x in frees.nodes[1..] <==> x in old(frees.nodes)[1..] && x != a
    {
      ghost var was := frees.nodes;
      frees.Unlink(a, k);
      RemoveDistinct(was, k);
      assert frees.nodes[1..] == RemoveAt(was[1..], k - 1);
      assert Distinct(was[1..]) by {
        assert forall j :: 0 <= j < |was[1..]| ==> was[1..][j] == was[j + 1];
      }
      RemoveDistinct(was[1..], k - 1);
    }

    lemma FreeIndex(a: int) returns (k: nat)
      requires FreeRing() && a in frees.nodes[1..]
      ensures 0 < k < |frees.nodes| && frees.nodes[k] == a
    {
      var j :| 0 <= j < |frees.nodes[1..]| && frees.nodes[1..][j] == a;
      k := j + 1;
    }

    // The headers that a change of the free list around node `k` writes.
    function Around(a: int): set<int>
      requires a in frees.next && a in frees.prev
      reads this, frees
    {
      {a, frees.next[a], frees.prev[a]}
    }

    lemma AroundAreHeaders(k: nat)
      requires Valid() && k < |frees.nodes|
      ensures frees.nodes[k] in frees.next && frees.nodes[k] in frees.prev
      ensures OnlyHeaders(h, Around(frees.nodes[k]), bs, bs)
    {
      assert NextOk(frees.next, frees.nodes, k) && PrevOk(frees.prev, frees.nodes, k);
      var n := |frees.nodes|;
      FreeNodeIsHeader(k);
      FreeNodeIsHeader(Succ(k, n));
      FreeNodeIsHeader(Pred(k, n));
    }

    lemma FreeNodeIsHeader(j: nat)
      requires Valid() && j < |frees.nodes|
      ensures frees.nodes[j] in Addrs(bs) || frees.nodes[j] + h <= 0
    {
      if j > 0 {
        assert frees.nodes[1..][j - 1] == frees.nodes[j];
        var i := FreeIsInner(frees.nodes[j]);
        assert Addrs(bs)[i] == frees.nodes[j];
      }
    }

    lemma ItemIsHeader(i: nat)
      requires Valid() && i < |bs|
      ensures bs[i].addr in items.next && bs[i].addr in items.prev
      ensures bs[i].addr in Addrs(bs) && items.next[bs[i].addr] in Addrs(bs) && items.prev[bs[i].addr] in Addrs(bs)
    {
      assert NextOk(items.next, items.nodes, i) && PrevOk(items.prev, items.nodes, i);
      assert Addrs(bs)[i] == bs[i].addr;
    }

    method CountUse()
      modifies this`maxUsedSize
      ensures maxUsedSize == Larger(old(maxUsedSize), poolSize - availableSize)
    {
      if poolSize - availableSize > maxUsedSize {
        maxUsedSize := poolSize - availableSize;
      }
    }

    // ----- allocating

    // The links after item `i` was split: a new item behind it, and the new item instead of it at the
    // front of the free list.
    method SplitLinks(header: int, rest: int, size: nat, ghost i: nat, ghost k: nat)
      requires Valid() && i + 1 < |bs| && bs[i].addr == header && !bs[i].used && size + h <= bs[i].size
      requires rest == header + size + h
      requires 0 < k < |frees.nodes| && frees.nodes[k] == header
      modifies items, frees
      ensures ItemsAre(Split(h, bs, i, size)) && FreesAre(Split(h, bs, i, size))
    {
      hide FreeSum, UsedSum, Split, Halves, Linked, FreeAddrs, NoTwoFree, Bits;
      SplitKeeps(h, 0, poolSize, bs, i, size);
      SplitSets(h, 0, poolSize, bs, i, size);
      RestIsFresh(i, rest);
      items.InsertAfter(header, rest, i);
      DropFree(header, k);
      PushFree(rest);
    }

    lemma RestIsFresh(i: nat, rest: int)
      requires Valid() && i < |bs| && bs[i].addr < rest < End(h, bs[i])
      ensures rest !in items.nodes && rest !in frees.nodes
    {
      TilesOrder(h, 0, poolSize, bs);
      InsideIsNoAddr(h, 0, poolSize, bs, i, rest);
      NotFree(rest);
    }

    lemma NotFree(a: int)
      requires Valid() && a !in Addrs(bs) && a > 0
      ensures a !in frees.nodes
    {
      if a in frees.nodes {
        var j :| 0 <= j < |frees.nodes| && frees.nodes[j] == a;
        FreeNodeIsHeader(j);
      }
    }

    // The headers that splitting the item `header` writes.
    function SplitTouches(header: int, rest: int): set<int>
      requires header in items.next && header in frees.next && header in frees.prev && HEAD in frees.next && HEAD in frees.prev
      reads this, items, frees
    {
      {header, rest, items.next[header]} + Around(header) + Around(HEAD)
    }

    lemma SplitStamp(header: int, size: nat, i: nat, k: nat)
      requires Valid() && i + 1 < |bs| && bs[i].addr == header && !bs[i].used && size + h <= bs[i].size
      requires 0 < k < |frees.nodes| && frees.nodes[k] == header
      ensures header in items.next && header in frees.next && header in frees.prev && HEAD in frees.next && HEAD in frees.prev
      ensures forall b :: b in UsedSet(bs) ==> Kept(h, mem, Stamped(mem, SplitTouches(header, header + size + h), h), b)
    {
      hide FreeSum, UsedSum, Kept, Linked, FreeAddrs, NoTwoFree, Tiles, Bits;
      var now := Split(h, bs, i, size);
      SplitKeeps(h, 0, poolSize, bs, i, size);
      SplitSets(h, 0, poolSize, bs, i, size);
      AroundAreHeaders(k);
      AroundAreHeaders(0);
      ItemIsHeader(i);
      assert Addrs(now)[i + 1] == header + size + h;
      StampKeepsAll(h, poolSize, mem, SplitTouches(header, header + size + h), bs, now);
    }

    lemma SplitLaysOut(i: nat, size: nat)
      requires Blocks() && i + 1 < |bs| && !bs[i].used && size + h <= bs[i].size
      ensures var r := Split(h, bs, i, size);
        && Good(h, 0, poolSize, r) && |r| >= 2 && r[|r| - 1] == bs[|bs| - 1]
        && Bits(inUse[bs[i].addr + size + h := false][bs[i].addr := true], r)
        && FreeSum(r) == availableSize - size - h
    {
      hide Good, Split, FreeSum, UsedSum, Bits;
      SplitKeeps(h, 0, poolSize, bs, i, size);
      SplitBits(h, 0, poolSize, bs, i, size, inUse);
      SplitEnds(h, bs, i, size);
    }

    // Item `i` is split at `size`: the front is taken, the rest goes to the front of the free list.
    method SplitItem(header: int, size: nat, ghost i: nat, ghost k: nat)
      requires Valid() && i + 1 < |bs| && bs[i].addr == header && !bs[i].used && size + h <= bs[i].size
      requires 0 < k < |frees.nodes| && frees.nodes[k] == header
      modifies this, items, frees
      ensures Valid() && bs == Split(h, old(bs), i, size)
      ensures maxUsedSize == Larger(old(maxUsedSize), poolSize - availableSize)
      ensures forall b :: b in UsedSet(old(bs)) ==> Kept(h, old(mem), mem, b)
    {
      hide Good, FreeSum, UsedSum, Kept, Linked, FreeAddrs, UsedSet, Bits, Stamped, Split, ItemsAre, FreesAre;
      ghost var was := bs;
      var rest := header + size + h;
      SplitLaysOut(i, size);
      SplitStamp(header, size, i, k);
      var touched := SplitTouches(header, rest);
      SplitLinks(header, rest, size, i, k);
      mem := Stamped(mem, touched, h);
      availableSize := availableSize - size - h;
      CountUse();
      inUse := inUse[rest := false][header := true];
      bs := Split(h, was, i, size);
    }

    static lemma SplitEnds(h: nat, s: seq<Block>, i: nat, size: nat)
      requires i + 1 < |s| && size + h <= s[i].size
      ensures |Split(h, s, i, size)| == |s| + 1 && Split(h, s, i, size)[|s|] == s[|s| - 1]
    {
    }

    // Item `i` leaves the free list.
    method TakeLinks(header: int, ghost i: nat, ghost k: nat)
      requires Valid() && i + 1 < |bs| && bs[i].addr == header && !bs[i].used
      requires 0 < k < |frees.nodes| && frees.nodes[k] == header
      modifies frees
      ensures FreesAre(Take(bs, i))
    {
      hide FreeSum, UsedSum, Take, Linked, FreeAddrs, NoTwoFree, Bits;
      TakeSets(h, 0, poolSize, bs, i);
      DropFree(header, k);
    }

    lemma TakeLaysOut(i: nat)
      requires Blocks() && i + 1 < |bs| && !bs[i].used
      ensures var r := Take(bs, i);
        && Good(h, 0, poolSize, r) && |r| >= 2 && r[|r| - 1] == bs[|bs| - 1]
        && Bits(inUse[bs[i].addr := true], r)
        && FreeSum(r) == availableSize - bs[i].size && Addrs(r) == Addrs(bs)
    {
      hide Good, Take, FreeSum, UsedSum, Bits;
      TakeKeeps(h, 0, poolSize, bs, i);
      TakeBits(h, 0, poolSize, bs, i, inUse);
      TakeEnds(bs, i);
    }

    // Item `i` is taken whole.
    method TakeItem(header: int, ghost i: nat, ghost k: nat)
      requires Valid() && i + 1 < |bs| && bs[i].addr == header && !bs[i].used
      requires 0 < k < |frees.nodes| && frees.nodes[k] == header
      modifies this, frees
      ensures Valid() && bs == Take(old(bs), i)
      ensures maxUsedSize == Larger(old(maxUsedSize), poolSize - availableSize)
      ensures forall b :: b in UsedSet(old(bs)) ==> Kept(h, old(mem), mem, b)
    {
      hide Good, FreeSum, UsedSum, Kept, Linked, UsedSet, Bits, Stamped, OnlyHeaders, Take, FreesAre;
      ghost var was := bs;
      TakeLaysOut(i);
      AroundAreHeaders(k);
      ItemSizeIs(i);
      var touched := Around(header);
      TakeStamp(touched, i);
      TakeLinks(header, i, k);
      availableSize := availableSize - ItemSize(header);
      CountUse();
      inUse := inUse[header := true];
      mem := Stamped(mem, touched, h);
      bs := Take(was, i);
    }

    static lemma TakeEnds(s: seq<Block>, i: nat)
      requires i + 1 < |s|
      ensures |Take(s, i)| == |s| && Take(s, i)[|s| - 1] == s[|s| - 1]
    {
    }

    lemma TakeStamp(touched: set<int>, i: nat)
      requires Valid() && i + 1 < |bs| && !bs[i].used && OnlyHeaders(h, touched, bs, bs)
      ensures forall b :: b in UsedSet(bs) ==> Kept(h, mem, Stamped(mem, touched, h), b)
    {
      StampKeepsAll(h, poolSize, mem, touched, bs, bs);
    }

    // A free item of `have` bytes is only split when the rest can be a block of its own.
    function CutTo(have: nat, size: nat): nat {
      if have >= size + h + MINIALLOC then size else have
    }

    // rt_memheap_alloc
    method Alloc(request: nat) returns (r: int, ghost got: Block)
      requires Valid()
      modifies this, items, frees
      ensures Valid()
      ensures r == NULL <==>
        Rounded(request, align) >= old(availableSize)
        || forall b :: b in old(bs) && !b.used ==> b.size < Rounded(request, align)
      ensures r == NULL ==> bs == old(bs) && mem == old(mem) && maxUsedSize == old(maxUsedSize)
      // the largest use so far
      ensures r != NULL ==> maxUsedSize == Larger(old(maxUsedSize), poolSize - availableSize)
      ensures r != NULL ==>
        && UsedSet(bs) == UsedSet(old(bs)) + {got}
        && got.used && got.addr + h == r && got.addr in FreeAddrs(old(bs))
        && Rounded(request, align) <= got.size
        && (exists b :: b in old(bs) && b.addr == got.addr && got.size == CutTo(b.size, Rounded(request, align)))
        && FirstFit(old(frees.nodes), old(bs), got.addr, Rounded(request, align))
      ensures forall b :: b in UsedSet(old(bs)) ==> Kept(h, old(mem), mem, b)
      ensures old(NoneTiny()) ==> NoneTiny()
    {
      hide Good, FreeSum, UsedSum, Linked, Bits, Stamped, Kept, ItemsAre;
      var size := Rounded(request, align);
      got := Block(0, 0, false);
      ghost var m := mem;
      if size < availableSize {
        var header, freeSize;
        ghost var k;
        header, freeSize, k := FindFit(size);
        if freeSize >= size {
          assert frees.nodes[1..][k - 1] == header;
          ghost var i := FreeIsInner(header);
          ItemSizeIs(i);
          assert bs[i] in bs;
          AllocSets(i, size);
          if freeSize >= size + h + MINIALLOC {
            got := Block(header, size, true);
            SplitItem(header, size, i, k);
          } else {
            got := bs[i].(used := true);
            TakeItem(header, i, k);
          }
          return header + h, got;
        }
      }
      KeptRefl(m);
      return NULL, got;
    }

    lemma KeptRefl(m: seq<byte>)
      ensures forall b :: Kept(h, m, m, b)
    {
    }

    lemma AllocSets(i: nat, size: nat)
      requires Valid() && i + 1 < |bs| && !bs[i].used
      ensures bs[i].addr in FreeAddrs(bs) && bs[i].addr >= 0 && bs[i].size <= availableSize
      ensures size + h <= bs[i].size ==> UsedSet(Split(h, bs, i, size)) == UsedSet(bs) + {Block(bs[i].addr, size, true)}
      ensures UsedSet(Take(bs, i)) == UsedSet(bs) + {bs[i].(used := true)}
    {
      TilesOrder(h, 0, poolSize, bs);
      assert bs[i] in bs;
      TakeSets(h, 0, poolSize, bs, i);
      TakeKeeps(h, 0, poolSize, bs, i);
      if size + h <= bs[i].size {
        SplitSets(h, 0, poolSize, bs, i, size);
      }
    }

    // ----- freeing

    // The merging part of rt_memheap_free, for item `i` whose used bit has just been cleared.
    method ReleaseLinks(header: int, ghost i: nat) returns (left: bool, right: bool)
      requires Valid() && i + 1 < |bs| && bs[i].addr == header && bs[i].used
      modifies items, frees
      ensures ItemsAre(Release(h, bs, i)) && FreesAre(Release(h, bs, i))
      ensures left == LeftFree(bs, i) && right == RightFree(bs, i)
    {
      hide Blocks, Release, FreesAre, Linked;
      ReleaseAddrs(i);
      var hd, behind;
      hd, left := MergeLeft(header, i);
      right, behind := MergeRight(hd, i);
      ReleaseFrees(header, behind, left, right, i);
    }

    lemma ReleaseAddrs(i: nat)
      requires Blocks() && i < |bs| && bs[i].used
      ensures items != frees
      ensures Addrs(Release(h, bs, i)) == Addrs(bs)[..First(bs, i) + 1] + Addrs(bs)[Last(bs, i) + 1..]
    {
      ReleaseKeeps(h, 0, poolSize, bs, i);
    }

    static lemma RemoveSecond(s: seq<int>, f: nat, i: nat)
      requires f <= i < |s|
      ensures RemoveAt(s[..f] + s[i..], f) == s[..f] + s[i + 1..]
    {
    }

    // The item absorbs a free right neighbour.
    method MergeRight(hd: int, ghost i: nat) returns (right: bool, behind: int)
      requires Blocks() && i + 1 < |bs| && bs[i].used && items.Valid()
      requires items.nodes == Addrs(bs)[..First(bs, i) + 1] + Addrs(bs)[i + 1..]
      requires hd in items.next && items.next[hd] == bs[i + 1].addr
      modifies items
      ensures right == RightFree(bs, i) && behind == bs[i + 1].addr
      ensures items.Valid() && items.nodes == Addrs(bs)[..First(bs, i) + 1] + Addrs(bs)[Last(bs, i) + 1..]
    {
      hide FreeSum, FreeAddrs, NoTwoFree, Tiles, Good, FreesAre, Linked, RemoveAt;
      assert bs[i + 1] in bs;
      RemoveSecond(Addrs(bs), First(bs, i) + 1, i + 1);
      behind := items.next[hd];
      right := !inUse[behind];
      if right {
        items.Unlink(behind, First(bs, i) + 1);
      }
    }

    // A free left neighbour absorbs the item.
    method MergeLeft(header: int, ghost i: nat) returns (hd: int, left: bool)
      requires Valid() && i + 1 < |bs| && bs[i].addr == header && bs[i].used
      modifies items
      ensures left == LeftFree(bs, i) && hd == bs[First(bs, i)].addr
      ensures items.Valid() && items.nodes == Addrs(bs)[..First(bs, i) + 1] + Addrs(bs)[i + 1..]
      ensures hd in items.next && items.next[hd] == bs[i + 1].addr
    {
      hide FreeSum, FreeAddrs, NoTwoFree, Tiles, Good, FreesAre;
      ItemLinks(i);
      ghost var addrs := Addrs(bs);
      hd := header;
      left := !inUse[items.prev[header]];
      if left {
        var front := items.prev[header];
        items.Unlink(header, i);
        hd := front;
      }
      assert NextOk(items.next, items.nodes, First(bs, i));
    }

    // Its free-list half: a free right neighbour leaves the list, and the item enters it at the front
    // unless a free left neighbour, which is on the list already, absorbs it.
    method ReleaseFrees(header: int, behind: int, left: bool, right: bool, ghost i: nat)
      requires Blocks() && FreesAre(bs) && i + 1 < |bs| && bs[i].addr == header && bs[i].used && bs[i + 1].addr == behind
      requires left == LeftFree(bs, i) && right == RightFree(bs, i)
      modifies frees
      ensures FreesAre(Release(h, bs, i))
    {
      hide FreeSum, UsedSum, Release, FreeAddrs, NoTwoFree, Tiles, Linked;
      ReleaseSets(h, 0, poolSize, bs, i);
      UsedNotFree(i);
      if left {
        LeftStaysFree(i);
      }
      if right {
        ghost var k := FreeIndexOf(i + 1);
        DropFree(behind, k);
      }
      if !left {
        PushFree(header);
      }
    }

    lemma ItemLinks(i: nat)
      requires Valid() && i + 1 < |bs|
      ensures bs[i].addr in items.next && items.next[bs[i].addr] == bs[i + 1].addr
      ensures bs[i].addr in items.prev && items.prev[bs[i].addr] == bs[Pred(i, |bs|)].addr
      ensures bs[i + 1].addr in inUse && inUse[bs[i + 1].addr] == bs[i + 1].used
      ensures bs[Pred(i, |bs|)].addr in inUse && inUse[bs[Pred(i, |bs|)].addr] == bs[Pred(i, |bs|)].used
    {
      assert NextOk(items.next, items.nodes, i) && PrevOk(items.prev, items.nodes, i);
      assert bs[i + 1] in bs && bs[Pred(i, |bs|)] in bs;
    }

    lemma UsedNotFree(i: nat)
      requires Blocks() && FreesAre(bs) && i < |bs| && bs[i].used
      ensures bs[i].addr !in frees.nodes
    {
      TilesOrder(h, 0, poolSize, bs);
      assert bs[i] in bs;
      forall j | 0 <= j < |frees.nodes| ensures frees.nodes[j] != bs[i].addr {
        if j > 0 {
          assert frees.nodes[1..][j - 1] == frees.nodes[j];
          var k := FreeIsInner(frees.nodes[j]);
          assert bs[k] in bs;
        }
      }
    }

    lemma LeftStaysFree(i: nat)
      requires Blocks() && LeftFree(bs, i)
      ensures bs[i - 1].addr in FreeAddrs(bs)
      ensures i + 1 < |bs| ==> bs[i - 1].addr != bs[i + 1].addr
    {
      assert bs[i - 1] in bs;
      if i + 1 < |bs| {
        AddrsDistinctFrom(h, 0, poolSize, bs, i - 1, i + 1);
      }
    }

    lemma FreeIndexOf(i: nat) returns (k: nat)
      requires i < |bs| && !bs[i].used && FreesAre(bs)
      ensures 0 < k < |frees.nodes| && frees.nodes[k] == bs[i].addr
    {
      assert bs[i] in bs && bs[i].addr in FreeAddrs(bs);
      k := FreeIndex(bs[i].addr);
    }

    // The headers that freeing the item `header` writes.
    function ReleaseTouches(header: int): set<int>
      requires header in items.next && header in items.prev && items.next[header] in inUse
      requires !inUse[items.next[header]] ==>
        items.next[header] in items.next && items.next[header] in frees.next && items.next[header] in frees.prev
      requires HEAD in frees.next && HEAD in frees.prev
      reads this, items, frees
    {
      var behind := items.next[header];
      {header, items.prev[header], behind} + Around(HEAD) + (if inUse[behind] then {} else {items.next[behind]} + Around(behind))
    }

    lemma ReleaseStamp(header: int, i: nat)
      requires Valid() && i + 1 < |bs| && bs[i].addr == header && bs[i].used
      ensures header in items.next && header in items.prev && items.next[header] in inUse
      ensures !inUse[items.next[header]] ==>
        items.next[header] in items.next && items.next[header] in frees.next && items.next[header] in frees.prev
      ensures HEAD in frees.next && HEAD in frees.prev
      ensures forall b :: b in UsedSet(bs) ==> Kept(h, mem, Stamped(mem, ReleaseTouches(header), h), b)
    {
      hide FreeSum, UsedSum, Kept, Linked, NoTwoFree, Tiles, Good;
      ItemLinks(i);
      ItemIsHeader(i);
      ItemIsHeader(i + 1);
      AroundAreHeaders(0);
      if !bs[i + 1].used {
        var k := FreeIndexOf(i + 1);
        AroundAreHeaders(k);
      }
      StampKeepsAll(h, poolSize, mem, ReleaseTouches(header), bs, bs);
    }

    static lemma ReleaseEnds(h: nat, s: seq<Block>, i: nat)
      requires i + 1 < |s| && s[i].used && s[|s| - 1].used
      ensures |Release(h, s, i)| >= 2 && Release(h, s, i)[|Release(h, s, i)| - 1] == s[|s| - 1]
    {
    }

    lemma ReleaseLaysOut(i: nat)
      requires Blocks() && i + 1 < |bs| && bs[i].used
      ensures var r := Release(h, bs, i);
        && Good(h, 0, poolSize, r) && |r| >= 2 && r[|r| - 1] == bs[|bs| - 1]
        && Bits(inUse[bs[i].addr := false], r)
        && FreeSum(r) == availableSize + bs[i].size + (if LeftFree(bs, i) then h else 0) + (if RightFree(bs, i) then h else 0)
    {
      hide Good, Release, FreeSum, UsedSum, Bits;
      ReleaseKeeps(h, 0, poolSize, bs, i);
      ReleaseBits(h, 0, poolSize, bs, i, inUse);
      ReleaseEnds(h, bs, i);
    }

    // rt_memheap_free, for item `i`.
    method ReleaseItem(header: int, ghost i: nat)
      requires Valid() && i + 1 < |bs| && bs[i].addr == header && bs[i].used
      modifies this, items, frees
      ensures Valid() && bs == Release(h, old(bs), i) && maxUsedSize == old(maxUsedSize)
      ensures forall b :: b in UsedSet(old(bs)) ==> Kept(h, old(mem), mem, b)
    {
      hide Good, FreeSum, UsedSum, Kept, Linked, UsedSet, Bits, Stamped, Release, FreesAre, ItemsAre;
      ghost var was := bs;
      ReleaseLaysOut(i);
      ReleaseStamp(header, i);
      ItemSizeIs(i);
      var touched := ReleaseTouches(header);
      var size := ItemSize(header);
      var left, right := ReleaseLinks(header, i);
      inUse := inUse[header := false];
      availableSize := availableSize + size;
      if left {
        availableSize := availableSize + h;
      }
      if right {
        availableSize := availableSize + h;
      }
      mem := Stamped(mem, touched, h);
      bs := Release(h, was, i);
    }

    // A client's pointer: the payload of a used block that is not the tail.
    ghost predicate Owns(p: int)
      reads this
    {
      exists b :: b in bs && b.used && b.addr + h == p && b.addr != poolSize - h
    }

    ghost function BlockOf(p: int): (r: Block)
      requires Owns(p)
      reads this
      ensures r in bs && r.used && r.addr + h == p && r.addr != poolSize - h
    {
      var b :| b in bs && b.used && b.addr + h == p && b.addr != poolSize - h;
      b
    }

    lemma OwnedIndex(p: int) returns (i: nat)
      requires Blocks() && Owns(p)
      ensures p > 0 && i + 1 < |bs|
      ensures bs[i] == BlockOf(p)
      ensures bs[i].used && bs[i].addr + h == p
    {
      var b := BlockOf(p);
      assert b.addr != poolSize - h;
      i :| 0 <= i < |bs| && bs[i] == b;
      assert bs[|bs| - 1].addr == poolSize - h;
      assert bs[i].addr != poolSize - h;
      assert bs[i].addr != bs[|bs| - 1].addr;
      TilesOrder(h, 0, poolSize, bs);
    }

    // rt_memheap_free
    method Free(p: int)
      requires Valid() && (p == NULL || Owns(p))
      modifies this, items, frees
      ensures Valid() && maxUsedSize == old(maxUsedSize)
      ensures p == NULL ==> bs == old(bs) && mem == old(mem)
      ensures p != NULL ==> UsedSet(bs) == UsedSet(old(bs)) - {old(BlockOf(p))}
      ensures forall b :: b in UsedSet(old(bs)) ==> Kept(h, old(mem), mem, b)
      ensures old(NoneTiny()) ==> NoneTiny()
    {
      hide Good, FreeSum, UsedSum, Kept, Linked, UsedSet, Bits, FreesAre, ItemsAre;
      KeptRefl(mem);
      if p == NULL {
        return;
      }
      ghost var i := OwnedIndex(p);
      ReleaseUsed(i);
      ReleaseItem(p - h, i);
    }

    lemma ReleaseUsed(i: nat)
      requires Blocks() && i < |bs| && bs[i].used
      ensures UsedSet(Release(h, bs, i)) == UsedSet(bs) - {bs[i]}
    {
      ReleaseSets(h, 0, poolSize, bs, i);
    }

    // ----- resizing in place

    // The links after resizing item `i` by moving its free right neighbour `behind` up to `rest`.
    method GrowLinks(header: int, behind: int, rest: int, size: nat, ghost i: nat)
      requires Valid() && i + 1 < |bs| && bs[i].addr == header && bs[i].used && bs[i + 1].addr == behind
      requires RightFree(bs, i) && rest == header + h + size && bs[i].size < size && size + h <= Room(h, bs, i)
      modifies items, frees
      ensures ItemsAre(Resize(h, bs, i, size)) && FreesAre(Resize(h, bs, i, size))
    {
      hide Blocks, Resize, FreeAddrs, Linked;
      ResizeAddrs(i, size);
      GrowFresh(i, size, rest);
      ghost var k := FreeIndexOf(i + 1);
      ghost var addrs := Addrs(bs);
      DropFree(behind, k);
      items.Unlink(behind, i + 1);
      items.InsertAfter(header, rest, i);
      InsertIn(addrs, i, rest);
      PushFree(rest);
    }

    static lemma InsertIn(s: seq<int>, i: nat, x: int)
      requires i + 1 < |s|
      ensures Insert(RemoveAt(s, i + 1), i + 1, x) == s[..i + 1] + [x] + s[i + 2..]
    {
    }

    lemma ResizeAddrs(i: nat, size: nat)
      requires Blocks() && i + 1 < |bs| && bs[i].used && size + h <= Room(h, bs, i)
      ensures items != frees
      ensures Addrs(Resize(h, bs, i, size)) == Addrs(bs)[..i + 1] + [bs[i].addr + h + size] + Addrs(bs)[Last(bs, i) + 1..]
      ensures FreeAddrs(Resize(h, bs, i, size)) ==
        FreeAddrs(bs) - (if RightFree(bs, i) then {bs[i + 1].addr} else {}) + {bs[i].addr + h + size}
    {
      hide Good, Resize, FreeSum, UsedSum, Bits, FreeAddrs, UsedSet;
      ResizeKeeps(h, 0, poolSize, bs, i, size);
      ResizeSets(h, 0, poolSize, bs, i, size);
    }

    lemma GrowFresh(i: nat, size: nat, rest: int)
      requires Valid() && RightFree(bs, i) && rest == bs[i].addr + h + size && bs[i].size < size && size + h <= Room(h, bs, i)
      ensures rest !in items.nodes && rest !in frees.nodes
    {
      Neighbours(h, 0, poolSize, bs, i);
      RestIsFresh(i + 1, rest);
    }

    // The links after shrinking item `i`: a new item behind it, which absorbs a free right neighbour.
    method ShrinkLinks(header: int, behind: int, rest: int, size: nat, ghost i: nat) returns (right: bool)
      requires Valid() && i + 1 < |bs| && bs[i].addr == header && bs[i].used && bs[i + 1].addr == behind
      requires rest == header + h + size && size + h <= bs[i].size
      modifies items, frees
      ensures right == RightFree(bs, i)
      ensures ItemsAre(Resize(h, bs, i, size)) && FreesAre(Resize(h, bs, i, size))
    {
      hide Blocks, Resize, FreeAddrs, Linked;
      ResizeAddrs(i, size);
      ItemLinks(i);
      InnerIsFresh(i, size, rest);
      ghost var addrs := Addrs(bs);
      items.InsertAfter(header, rest, i);
      right := !inUse[behind];
      if right {
        ghost var k := FreeIndexOf(i + 1);
        items.Unlink(behind, i + 2);
        RemoveBehind(addrs, i, rest);
        DropFree(behind, k);
      }
      PushFree(rest);
    }

    lemma InnerIsFresh(i: nat, size: nat, rest: int)
      requires Valid() && i < |bs| && rest == bs[i].addr + h + size && size + h <= bs[i].size
      ensures rest !in items.nodes && rest !in frees.nodes
    {
      RestIsFresh(i, rest);
    }

    static lemma RemoveBehind(s: seq<int>, i: nat, x: int)
      requires i + 1 < |s|
      ensures RemoveAt(Insert(s, i + 1, x), i + 2) == s[..i + 1] + [x] + s[i + 2..]
    {
    }

    lemma ResizeLaysOut(i: nat, size: nat)
      requires Blocks() && i + 1 < |bs| && bs[i].used && size + h <= Room(h, bs, i)
      requires size + h <= bs[i].size || bs[i].size < size
      ensures var r := Resize(h, bs, i, size);
        && Good(h, 0, poolSize, r) && |r| >= 2 && r[|r| - 1] == bs[|bs| - 1]
        && Bits(inUse[bs[i].addr + h + size := false], r)
        && FreeSum(r) == availableSize + bs[i].size - size - (if RightFree(bs, i) then 0 else h)
    {
      hide Good, Resize, FreeSum, UsedSum, Bits;
      ResizeKeeps(h, 0, poolSize, bs, i, size);
      ResizeEnds(h, bs, i, size);
      RestAddr(i, size);
      ResizeBits(h, 0, poolSize, bs, i, size, inUse);
    }

    lemma RestAddr(i: nat, size: nat)
      requires Blocks() && i + 1 < |bs| && size + h <= Room(h, bs, i)
      requires size + h <= bs[i].size || bs[i].size < size
      ensures bs[i].addr + h + size !in Addrs(bs)
    {
      if bs[i].size < size {
        Neighbours(h, 0, poolSize, bs, i);
        InsideIsNoAddr(h, 0, poolSize, bs, i + 1, bs[i].addr + h + size);
      } else {
        InsideIsNoAddr(h, 0, poolSize, bs, i, bs[i].addr + h + size);
      }
    }

    static lemma ResizeEnds(h: nat, s: seq<Block>, i: nat, size: nat)
      requires i + 1 < |s| && s[i].used && s[|s| - 1].used && size + h <= Room(h, s, i)
      ensures |Resize(h, s, i, size)| >= 2 && Resize(h, s, i, size)[|Resize(h, s, i, size)| - 1] == s[|s| - 1]
    {
    }

    // The headers that resizing the item `header` writes.
    function ResizeTouches(header: int, rest: int): set<int>
      requires header in items.next && items.next[header] in inUse
      requires !inUse[items.next[header]] ==>
        items.next[header] in items.next && items.next[header] in frees.next && items.next[header] in frees.prev
      requires HEAD in frees.next && HEAD in frees.prev
      reads this, items, frees
    {
      var behind := items.next[header];
      {header, rest, behind} + Around(HEAD) + (if inUse[behind] then {} else {items.next[behind]} + Around(behind))
    }

    // What resizing block `i` leaves of the bytes: all other live payloads, and the common part of its own.
    ghost predicate ResizeKept(i: nat, size: nat, m: seq<byte>)
      requires i < |bs|
      reads this
    {
      && (forall b :: b in UsedSet(bs) && b != bs[i] ==> Kept(h, mem, m, b))
      && SameBytes(mem, m, bs[i].addr + h, bs[i].addr + h + (if size < bs[i].size then size else bs[i].size))
    }

    lemma ResizeStamp(header: int, size: nat, i: nat)
      requires Valid() && i + 1 < |bs| && bs[i].addr == header && bs[i].used && size + h <= Room(h, bs, i)
      requires size + h <= bs[i].size || bs[i].size < size
      ensures header in items.next && items.next[header] in inUse
      ensures !inUse[items.next[header]] ==>
        items.next[header] in items.next && items.next[header] in frees.next && items.next[header] in frees.prev
      ensures HEAD in frees.next && HEAD in frees.prev
      ensures ResizeKept(i, size, Stamped(mem, ResizeTouches(header, header + h + size), h))
    {
      hide FreeSum, UsedSum, Kept, Linked, NoTwoFree, Tiles, Good, Stamped, Resize, Bits;
      ItemLinks(i);
      ItemIsHeader(i);
      ItemIsHeader(i + 1);
      AroundAreHeaders(0);
      if !bs[i + 1].used {
        var k := FreeIndexOf(i + 1);
        AroundAreHeaders(k);
      }
      var now, s := Resize(h, bs, i, size), ResizeTouches(header, header + h + size);
      ResizeOnlyHeaders(i, size);
      assert OnlyHeaders(h, s, bs, now);
      ResizeStampKeeps(i, size, s);
    }

    lemma ResizeOnlyHeaders(i: nat, size: nat)
      requires Blocks() && i + 1 < |bs| && bs[i].used && size + h <= Room(h, bs, i)
      ensures bs[i].addr + h + size in Addrs(Resize(h, bs, i, size))
    {
      ResizeAddrs(i, size);
      assert Addrs(Resize(h, bs, i, size))[i + 1] == bs[i].addr + h + size;
    }

    lemma ResizeStampKeeps(i: nat, size: nat, s: set<int>)
      requires Blocks() && i + 1 < |bs| && bs[i].used && size + h <= Room(h, bs, i)
      requires OnlyHeaders(h, s, bs, Resize(h, bs, i, size))
      ensures ResizeKept(i, size, Stamped(mem, s, h))
    {
      hide FreeSum, UsedSum, Resize, Bits, Stamped, OnlyHeaders;
      var now := Resize(h, bs, i, size);
      var new_ := Block(bs[i].addr, size, true);
      ResizeKeeps(h, 0, poolSize, bs, i, size);
      ResizeSets(h, 0, poolSize, bs, i, size);
      StampKeepsAll(h, poolSize, mem, s, bs, now);
      forall b | b in UsedSet(bs) && b != bs[i] ensures Kept(h, mem, Stamped(mem, s, h), b) {
        assert b in UsedSet(now);
      }
      assert new_ in UsedSet(now) && bs[i] in bs;
      StampKeepsCommon(h, poolSize, mem, s, bs, now, bs[i], new_);
    }

    // Item `i` takes room from its free right neighbour.
    method GrowItem(header: int, size: nat, ghost i: nat)
      requires Valid() && i + 1 < |bs| && bs[i].addr == header && bs[i].used
      requires RightFree(bs, i) && bs[i].size < size && size + h <= Room(h, bs, i)
      modifies this, items, frees
      ensures Valid() && bs == Resize(h, old(bs), i, size)
      ensures maxUsedSize == Larger(old(maxUsedSize), poolSize - availableSize)
      ensures forall b :: b in UsedSet(old(bs)) && b != old(bs)[i] ==> Kept(h, old(mem), mem, b)
      ensures SameBytes(old(mem), mem, header + h, header + h + old(bs)[i].size)
    {
      hide Good, FreeSum, UsedSum, Kept, Linked, UsedSet, Bits, Stamped, Resize, FreesAre, ItemsAre, SameBytes;
      ghost var was := bs;
      var rest := header + h + size;
      ResizeLaysOut(i, size);
      ResizeStamp(header, size, i);
      ItemSizeIs(i);
      ItemLinks(i);
      var touched := ResizeTouches(header, rest);
      var oldSize := ItemSize(header);
      var behind := items.next[header];
      GrowLinks(header, behind, rest, size, i);
      availableSize := availableSize - (size - oldSize);
      CountUse();
      inUse := inUse[rest := false];
      mem := Stamped(mem, touched, h);
      bs := Resize(h, was, i, size);
    }

    // Item `i` gives its end back.
    method ShrinkItem(header: int, size: nat, ghost i: nat)
      requires Valid() && i + 1 < |bs| && bs[i].addr == header && bs[i].used && size + h <= bs[i].size
      modifies this, items, frees
      ensures Valid() && bs == Resize(h, old(bs), i, size) && maxUsedSize == old(maxUsedSize)
      ensures forall b :: b in UsedSet(old(bs)) && b != old(bs)[i] ==> Kept(h, old(mem), mem, b)
      ensures SameBytes(old(mem), mem, header + h, header + h + size)
    {
      hide Good, FreeSum, UsedSum, Kept, Linked, UsedSet, Bits, Stamped, Resize, FreesAre, ItemsAre, SameBytes;
      ghost var was := bs;
      var rest := header + h + size;
      ResizeLaysOut(i, size);
      ResizeStamp(header, size, i);
      ItemSizeIs(i);
      ItemLinks(i);
      var touched := ResizeTouches(header, rest);
      var oldSize := ItemSize(header);
      var behind := items.next[header];
      var right := ShrinkLinks(header, behind, rest, size, i);
      availableSize := availableSize + (oldSize - size) - (if right then 0 else h);
      inUse := inUse[rest := false];
      mem := Stamped(mem, touched, h);
      bs := Resize(h, was, i, size);
    }

    // ----- reallocating

    // rt_memcpy of `n` bytes within the pool.
    method CopyBytes(to: int, from: int, n: nat)
      requires 0 <= to && to + n <= |mem| && 0 <= from && from + n <= |mem|
      modifies this`mem
      ensures |mem| == |old(mem)|
      ensures Bytes(mem, to, n) == Bytes(old(mem), from, n)
      ensures forall j :: 0 <= j < |mem| && (j < to || j >= to + n) ==> mem[j] == old(mem)[j]
    {
      mem := mem[..to] + mem[from..from + n] + mem[to + n..];
    }

    lemma PayloadInPool(b: Block)
      requires Blocks() && b in bs
      ensures 0 <= b.addr && End(h, b) <= poolSize
    {
      TilesOrder(h, 0, poolSize, bs);
    }

    // The last resort of rt_memheap_realloc: allocate, copy, free.
    method MoveItem(p: int, size: nat, oldSize: nat) returns (r: int, ghost got: Block)
      requires Valid() && Owns(p) && BlockOf(p).size == oldSize && oldSize < size && size + align - 1 < SIZE_MODULUS
      modifies this, items, frees
      ensures Valid() && maxUsedSize >= old(maxUsedSize)
      ensures r == NULL ==> bs == old(bs) && mem == old(mem)
      ensures r == NULL ==>
        Rounded(size, align) >= old(availableSize)
        || forall b :: b in old(bs) && !b.used ==> b.size < Rounded(size, align)
      ensures r != NULL ==>
        && UsedSet(bs) == UsedSet(old(bs)) - {old(BlockOf(p))} + {got}
        && got.used && got.addr + h == r && Rounded(size, align) <= got.size
        && Carried(h, old(BlockOf(p)), old(mem), got, mem, oldSize)
      ensures OthersKept(h, UsedSet(old(bs)), old(BlockOf(p)), old(mem), mem)
    {
      hide Good, FreeSum, UsedSum, Linked, Bits, FreesAre, ItemsAre, FreeAddrs, UsedSet, Kept, Bytes;
      ghost var b, was, m0 := BlockOf(p), UsedSet(bs), mem;
      FreeIsNotUsed();
      r, got := Alloc(size);
      if r == NULL {
        return;
      }
      UsedIsIn();
      RoundedBound(size, align);
      GotIsNew(b, got);
      StillOwned(p, b);
      ghost var m1 := mem;
      CopyAndFree(p, r, oldSize, got);
      ChainKept(was, b, got, m0, m1, mem);
      KeptSlice(h, m0, m1, b, oldSize);
    }

    // The copy and the free of a move, into the block `got` at `r`.
    method CopyAndFree(p: int, r: int, n: nat, ghost got: Block)
      requires Valid() && Owns(p) && n <= BlockOf(p).size
      requires got in UsedSet(bs) && got.addr + h == r && n <= got.size && got.addr != BlockOf(p).addr
      modifies this, items, frees
      ensures Valid() && maxUsedSize == old(maxUsedSize)
      ensures UsedSet(bs) == UsedSet(old(bs)) - {old(BlockOf(p))}
      ensures Carried(h, old(BlockOf(p)), old(mem), got, mem, n)
      ensures forall x :: x in UsedSet(old(bs)) && x != got ==> Kept(h, old(mem), mem, x)
    {
      hide Good, FreeSum, UsedSum, Linked, Bits, FreesAre, ItemsAre, FreeAddrs, UsedSet, Kept, Bytes;
      ghost var b, was, m1 := BlockOf(p), UsedSet(bs), mem;
      UsedIsIn();
      PayloadInPool(got);
      PayloadInPool(b);
      CopyBytes(r, p, n);
      CopyKeeps(h, poolSize, bs, m1, mem, got, n);
      StillOwned(p, b);
      ghost var m2 := mem;
      Free(p);
      KeptTwice(h, was - {got}, m1, m2, mem);
      KeptSlice(h, m2, mem, got, n);
    }

    lemma FreeIsNotUsed()
      requires Blocks()
      ensures forall x :: x in UsedSet(bs) ==> x.addr !in FreeAddrs(bs)
      ensures forall x :: x in bs && x.used ==> x in UsedSet(bs)
    {
    }

    lemma UsedIsIn()
      ensures forall x :: x in UsedSet(bs) ==> x in bs && x.used
    {
    }

    lemma GotIsNew(b: Block, got: Block)
      requires Blocks() && b in bs && got in bs && b != got
      ensures b.addr != got.addr
    {
      if b.addr == got.addr {
        SameAddr(h, 0, poolSize, bs, b, got);
      }
    }

    lemma StillOwned(p: int, b: Block)
      requires Blocks() && b in bs && b.used && b.addr + h == p && b.addr != poolSize - h
      ensures Owns(p) && BlockOf(p) == b
    {
      SameAddr(h, 0, poolSize, bs, b, BlockOf(p));
    }

    lemma ChainKept(was: set<Block>, b: Block, got: Block, m0: seq<byte>, m1: seq<byte>, m2: seq<byte>)
      requires got !in was
      requires forall x :: x in was ==> Kept(h, m0, m1, x)
      requires forall x :: x in was + {got} && x != got ==> Kept(h, m1, m2, x)
      ensures OthersKept(h, was, b, m0, m2)
    {
      KeptTwice(h, was, m0, m1, m2);
    }

    // A block is only cut when the rest can be a block of its own.
    function ShrunkTo(oldSize: nat, size: nat): nat {
      if size + h + MINIALLOC >= oldSize then oldSize else size
    }

    // The block right behind `b` is free and has enough room.  The sum on the right has 32 bits.
    ghost predicate GrowsInPlace(s: seq<Block>, b: Block, size: nat) {
      exists c :: c in s && !c.used && c.addr == End(h, b) && c.size + b.size > (size + MINIALLOC) % SIZE_MODULUS
    }

    // The sum wraps, and so a free item behind `b` always seems to have enough room.
    ghost predicate Overgrows(s: seq<Block>, b: Block, size: nat) {
      size + MINIALLOC >= SIZE_MODULUS && GrowsInPlace(s, b, size)
    }

    lemma OvergrowsBeforeFree(p: int, size: nat)
      requires Valid() && NoneTiny() && Owns(p) && SIZE_MODULUS - MINIALLOC <= size < SIZE_MODULUS
      ensures Overgrows(bs, BlockOf(p), size) <==> exists c :: c in bs && !c.used && c.addr == End(h, BlockOf(p))
    {
      assert BlockOf(p) in UsedSet(bs);
    }

    lemma NextIsBehind(i: nat)
      requires Blocks() && i + 1 < |bs|
      ensures forall c :: c in bs && c.addr == End(h, bs[i]) ==> c == bs[i + 1]
    {
      Neighbours(h, 0, poolSize, bs, i);
      forall c | c in bs && c.addr == End(h, bs[i]) ensures c == bs[i + 1] { SameAddr(h, 0, poolSize, bs, c, bs[i + 1]); }
    }

    // What a resize does when it goes well.
    twostate predicate ItemResized(p: int, size: nat, r: int, got: Block)
      reads this
      requires align > 0 && old(Owns(p))
    {
      var b := old(BlockOf(p));
      // a failure changes nothing, and happens only if allocation would fail
      && (r == NULL ==> bs == old(bs) && mem == old(mem))
      && (r == NULL ==>
           Rounded(size, align) >= old(availableSize) || forall b :: b in old(bs) && !b.used ==> b.size < Rounded(size, align))
      // a success resizes exactly this block, wherever it ends up, and carries its bytes over
      && (r != NULL ==>
           && UsedSet(bs) == UsedSet(old(bs)) - {b} + {got}
           && got.used && got.addr + h == r && size <= got.size
           && Carried(h, b, old(mem), got, mem, Min(b.size, size)))
      // it stays where it is unless it must grow and the next block is not free or too small
      && (size <= b.size ==> r == p && got.size == ShrunkTo(b.size, size))
      && (size > b.size && GrowsInPlace(old(bs), b, size) ==> r == p && got.size == size)
      // no other live payload changes
      && OthersKept(h, UsedSet(old(bs)), b, old(mem), mem)
    }

    // A header of the item ring lies within the header of the block at `p`.
    ghost predicate Overlapped(p: int)
      reads this, items
    {
      p - h in items.nodes && exists a :: a in items.nodes && p - h < a < p
    }

    // No layout of the pool fits the item ring.
    ghost predicate Broken()
      reads this, items
    {
      forall s :: !(Good(h, 0, poolSize, s) && ItemsAre(s))
    }

    lemma OverlappedIsBroken(p: int)
      requires Overlapped(p) && h > 0
      ensures Broken()
    {
      forall s | Good(h, 0, poolSize, s) && ItemsAre(s) ensures false {
        var a :| a in items.nodes && p - h < a < p;
        var k :| 0 <= k < |Addrs(s)| && Addrs(s)[k] == p - h;
        HeadersApart(h, 0, poolSize, s, a, s[k]);
      }
    }

    // rt_memheap_realloc of an existing block to a rounded size.
    method ResizeItem(p: int, size: nat) returns (r: int, ghost got: Block)
      requires Valid() && Owns(p) && MINIALLOC <= size && size + align - 1 < SIZE_MODULUS
      modifies this, items, frees
      ensures !old(Overgrows(bs, BlockOf(p), size)) ==> Valid() && ItemResized(p, size, r, got) && (old(NoneTiny()) ==> NoneTiny())
      ensures old(Overgrows(bs, BlockOf(p), size)) ==> r == p && Overlapped(p)
      ensures maxUsedSize >= old(maxUsedSize)
    {
      hide Good, FreeSum, UsedSum, Linked, Bits, FreesAre, ItemsAre, FreeAddrs, UsedSet, Kept, SameBytes, Bytes, Resize;
      ghost var b := BlockOf(p);
      ghost var i := OwnedIndex(p);
      var header := p - h;
      ItemSizeIs(i);
      ItemLinks(i);
      NextIsBehind(i);
      BlockInPool(i);
      var oldSize := ItemSize(header);
      if size > oldSize {
        var next := items.next[header];
        if !inUse[next] {
          ItemSizeIs(i + 1);
          var nextSize := ItemSize(next);
          if nextSize + oldSize > (size + MINIALLOC) % SIZE_MODULUS {
            if size + MINIALLOC < SIZE_MODULUS {
              r, got := GrowInPlace(p, size, i);
            } else {
              // ptr + newsize, where the new header goes, wraps to an address before ptr
              r, got := p, b;
              Overgrow(p, size, i);
            }
            return;
          }
        }
        RoundedBound(size, align);
        r, got := MoveItem(p, size, oldSize);
        return;
      }
      if size + h + MINIALLOC >= oldSize {
        got := b;
        KeptAsIs(b, size);
        return p, got;
      }
      r, got := ShrinkInPlace(p, size, i);
    }

    // Growing in place when the sum has wrapped: the same stores as in GrowItem, with the new header
    // before the payload.
    method Overgrow(p: int, size: nat, ghost i: nat)
      requires Valid() && i + 1 < |bs| && bs[i].addr + h == p && bs[i].used && RightFree(bs, i)
      requires bs[i].size < size && SIZE_MODULUS - MINIALLOC <= size < SIZE_MODULUS
      modifies this, items, frees
      ensures Overlapped(p)
      ensures inUse == old(inUse)[p + size - SIZE_MODULUS := false] && availableSize == (old(availableSize) - (size - old(bs[i].size))) % SIZE_MODULUS
      ensures maxUsedSize == Larger(old(maxUsedSize), poolSize - availableSize)
    {
      hide Good, FreeSum, UsedSum, Kept, UsedSet, Bits, Stamped, Linked, FreesAre, ItemsAre;
      var header, rest := p - h, p + size - SIZE_MODULUS;
      BlockInPool(i);
      ItemSizeIs(i);
      ItemLinks(i);
      OvergrowTouches(header, i);
      var touched := ResizeTouches(header, rest);
      var oldSize := ItemSize(header);
      var behind := items.next[header];
      OvergrowLinks(header, behind, rest, i);
      availableSize := (availableSize - (size - oldSize)) % SIZE_MODULUS;
      CountUse();
      inUse := inUse[rest := false];
      mem := Stamped(mem, touched, h);
    }

    method OvergrowLinks(header: int, behind: int, rest: int, ghost i: nat)
      requires Valid() && i + 1 < |bs| && bs[i].addr == header && bs[i].used && bs[i + 1].addr == behind && RightFree(bs, i)
      requires header < rest < header + h && 0 <= header
      modifies items, frees
      ensures header in items.nodes && rest in items.nodes
    {
      hide Good, FreeSum, UsedSum, Bits, Linked, FreeAddrs;
      RestIsFresh(i, rest);
      ghost var k := FreeIndexOf(i + 1);
      ghost var addrs := Addrs(bs);
      DropFree(behind, k);
      items.Unlink(behind, i + 1);
      assert forall x :: x in frees.nodes ==> x == HEAD || x in frees.nodes[1..];
      assert items.nodes == RemoveAt(addrs, i + 1) && items.nodes[i] == header;
      items.InsertAfter(header, rest, i);
      assert items.nodes[i] == header && items.nodes[i + 1] == rest;
      PushFree(rest);
    }

    lemma BlockInPool(i: nat)
      requires Blocks() && i < |bs|
      ensures 0 <= bs[i].addr && End(h, bs[i]) <= poolSize
    {
      assert bs[i] in bs;
      TilesOrder(h, 0, poolSize, bs);
    }

    lemma OvergrowTouches(header: int, i: nat)
      requires Valid() && i + 1 < |bs| && bs[i].addr == header && RightFree(bs, i)
      ensures header in items.next && items.next[header] in inUse
      ensures items.next[header] in items.next && items.next[header] in frees.next && items.next[header] in frees.prev
      ensures HEAD in frees.next && HEAD in frees.prev
    {
      ItemLinks(i);
      ItemIsHeader(i + 1);
      AroundAreHeaders(0);
      var k := FreeIndexOf(i + 1);
      AroundAreHeaders(k);
    }

    method GrowInPlace(p: int, size: nat, ghost i: nat) returns (r: int, ghost got: Block)
      requires Valid() && i + 1 < |bs| && bs[i].addr + h == p && bs[i].used
      requires RightFree(bs, i) && bs[i].size < size && size + h <= Room(h, bs, i)
      modifies this, items, frees
      ensures Valid() && r == p && got == Block(p - h, size, true)
      ensures UsedSet(bs) == UsedSet(old(bs)) - {old(bs)[i]} + {got}
      ensures Carried(h, old(bs)[i], old(mem), got, mem, old(bs)[i].size)
      ensures OthersKept(h, UsedSet(old(bs)), old(bs)[i], old(mem), mem)
      ensures maxUsedSize >= old(maxUsedSize)
    {
      hide Blocks, ItemsAre, FreesAre, UsedSet, Kept, Bytes, Resize, SameBytes;
      ghost var b, m := bs[i], mem;
      ResizedUsed(i, size);
      GrowItem(p - h, size, i);
      SameSlice(m, mem, p, p + b.size, b.size);
      return p, Block(p - h, size, true);
    }

    method ShrinkInPlace(p: int, size: nat, ghost i: nat) returns (r: int, ghost got: Block)
      requires Valid() && i + 1 < |bs| && bs[i].addr + h == p && bs[i].used && size + h <= bs[i].size
      modifies this, items, frees
      ensures Valid() && r == p && got == Block(p - h, size, true)
      ensures UsedSet(bs) == UsedSet(old(bs)) - {old(bs)[i]} + {got}
      ensures Carried(h, old(bs)[i], old(mem), got, mem, size)
      ensures OthersKept(h, UsedSet(old(bs)), old(bs)[i], old(mem), mem)
      ensures maxUsedSize >= old(maxUsedSize)
    {
      hide Blocks, ItemsAre, FreesAre, UsedSet, Kept, Bytes, Resize, SameBytes;
      ghost var b, m := bs[i], mem;
      ResizedUsed(i, size);
      ShrinkItem(p - h, size, i);
      SameSlice(m, mem, p, p + size, size);
      return p, Block(p - h, size, true);
    }

    // The next item is free and the sum of rt_memheap_realloc wraps.
    ghost predicate ReallocWraps(p: int, request: nat)
      requires align > 0
      reads this
    {
      request != 0 && Owns(p) && Overgrows(bs, BlockOf(p), Rounded(request, align))
    }

    // rt_memheap_realloc.  It keeps its promise exactly if the sum does not wrap before a free item.
    method Realloc(p: int, request: nat) returns (r: int, ghost got: Block)
      requires Valid() && (p == NULL || Owns(p))
      modifies this, items, frees
      ensures !old(ReallocWraps(p, request)) ==> Valid() && (old(NoneTiny()) ==> NoneTiny())
      ensures old(ReallocWraps(p, request)) ==> r == p && Overlapped(p) && Broken()
      // a request of zero bytes frees
      ensures request == 0 ==> r == NULL
      ensures request == 0 && p != NULL ==> UsedSet(bs) == UsedSet(old(bs)) - {old(BlockOf(p))}
      // no block yet: allocate
      ensures request != 0 && p == NULL && r != NULL ==>
        UsedSet(bs) == UsedSet(old(bs)) + {got} && got.used && got.addr + h == r && Rounded(request, align) <= got.size
      ensures request != 0 && p == NULL && r == NULL ==> bs == old(bs) && mem == old(mem)
      ensures request != 0 && p == NULL ==> (r == NULL <==>
        Rounded(Rounded(request, align), align) >= old(availableSize)
        || forall b :: b in old(bs) && !b.used ==> b.size < Rounded(Rounded(request, align), align))
      ensures p == NULL ==> forall b :: b in UsedSet(old(bs)) ==> Kept(h, old(mem), mem, b)
      // resize
      ensures request != 0 && p != NULL && !old(ReallocWraps(p, request)) ==> ItemResized(p, Rounded(request, align), r, got)
      ensures request == 0 && p != NULL ==> OthersKept(h, UsedSet(old(bs)), old(BlockOf(p)), old(mem), mem)
      ensures maxUsedSize >= old(maxUsedSize)
    {
      hide Blocks, ItemsAre, FreesAre, UsedSet, Kept, Bytes, ItemResized, Overlapped, Broken, Overgrows, NoneTiny, Rounded;
      got := Block(0, 0, false);
      Parameters();
      if request == 0 {
        Free(p);
        return NULL, got;
      }
      var size := Rounded(request, align);
      RoundedTwice(request, align);
      assert size >= MINIALLOC;
      if p == NULL {
        RoundedBound(size, align);
        r, got := Alloc(size);
      } else {
        r, got := ResizeItem(p, size);
        if Overlapped(p) {
          OverlappedIsBroken(p);
        }
      }
    }

    lemma Parameters()
      requires Blocks()
      ensures AlignOk(align) && align > 0 && h > MINIALLOC && !Owns(NULL)
    {
      TilesOrder(h, 0, poolSize, bs);
    }

    lemma ResizedUsed(i: nat, size: nat)
      requires Blocks() && i < |bs| && bs[i].used && size + h <= Room(h, bs, i)
      ensures UsedSet(Resize(h, bs, i, size)) == UsedSet(bs) - {bs[i]} + {Block(bs[i].addr, size, true)}
    {
      ResizeSets(h, 0, poolSize, bs, i, size);
    }

    lemma KeptAsIs(b: Block, n: nat)
      requires b in bs && b.used
      ensures UsedSet(bs) == UsedSet(bs) - {b} + {b}
      ensures Carried(h, b, mem, b, mem, n)
      ensures OthersKept(h, UsedSet(bs), b, mem, mem)
    {
    }
  }

  function Min(a: nat, b: nat): nat { if a < b then a else b }

  function Larger(a: int, b: int): int { if a < b then b else a }

  // ----- what wrapping around does

  // A request of 2^32 - 1 bytes gets a block of 12.
  method AllocOfNearlyAll() returns (heap: MemHeap, r: int, ghost got: Block)
    ensures fresh(heap) && heap.Valid() && r != NULL && got in UsedSet(heap.bs) && r == got.addr + heap.h && got.size == 12
  {
    heap := new MemHeap(24, 4, 4096, seq(4096, _ => 0));
    FreshHeap(heap);
    r, got := heap.Alloc(0xffff_ffff);
  }

  // On a heap with one block of 100 bytes and a free rest, growing the block to 2^32 - 8 bytes succeeds,
  // and leaves a header within the block's own.
  method ReallocOfNearlyAll() returns (heap: MemHeap, p: int, r: int)
    ensures fresh(heap) && r == p != NULL && heap.Overlapped(p) && heap.Broken()
  {
    hide *;
    heap, p := HeapOfOneBlock();
    ghost var got;
    WouldWrap(heap, p);
    r, got := heap.Realloc(p, 0xffff_fff8);
  }

  method HeapOfOneBlock() returns (heap: MemHeap, p: int)
    ensures fresh(heap) && fresh(heap.items) && fresh(heap.frees) && heap.Valid() && heap.NoneTiny()
    ensures heap.h == 24 && heap.align == 4 && heap.poolSize == 4096 && p == 24
    ensures UsedSet(heap.bs) == {Block(4072, 0, true), Block(0, 100, true)}
  {
    heap := new MemHeap(24, 4, 4096, seq(4096, _ => 0));
    FreshHeap(heap);
    ghost var got;
    p, got := heap.Alloc(100);
  }

  lemma WouldWrap(heap: MemHeap, p: int)
    requires heap.Valid() && heap.NoneTiny() && heap.h == 24 && heap.align == 4 && heap.poolSize == 4096 && p == 24
    requires UsedSet(heap.bs) == {Block(4072, 0, true), Block(0, 100, true)}
    ensures heap.Owns(p) && heap.ReallocWraps(p, 0xffff_fff8) && p != NULL
  {
    hide Good, FreeSum, UsedSet, FreeAddrs, Linked, Bits;
    RestIsFree(heap);
    heap.StillOwned(p, Block(0, 100, true));
    heap.OvergrowsBeforeFree(p, 0xffff_fff8);
    assert Rounded(0xffff_fff8, 4) == 0xffff_fff8;
  }

  lemma FreshHeap(heap: MemHeap)
    requires heap.h == 24 && heap.poolSize == 4096
    requires heap.Valid() && heap.bs == [Block(0, 4048, false), Block(4072, 0, true)]
    ensures heap.availableSize == 4048 && FreeAddrs(heap.bs) == {0} && UsedSet(heap.bs) == {Block(4072, 0, true)}
    ensures heap.bs[0] in heap.bs && forall b :: b in heap.bs ==> b == heap.bs[0] || b == heap.bs[1]
  {
    MemHeap.FirstBlocks(24, 4096);
  }

  lemma RestIsFree(heap: MemHeap)
    requires heap.Valid() && heap.h == 24 && heap.poolSize == 4096
    requires UsedSet(heap.bs) == {Block(4072, 0, true), Block(0, 100, true)}
    ensures Block(0, 100, true) in heap.bs
    ensures exists c :: c in heap.bs && !c.used && c.addr == 124
  {
    var s, b := heap.bs, Block(0, 100, true);
    assert b in UsedSet(s);
    assert s[0].addr == 0;
    SameAddr(24, 0, 4096, s, s[0], b);
    Neighbours(24, 0, 4096, s, 0);
    heap.FreeIsNotUsed();
    assert s[1] in s;
  }

  // Rounding a rounded size does not wrap.
  lemma RoundedTwice(size: nat, align: nat)
    requires AlignOk(align)
    ensures Rounded(size, align) + align - 1 < SIZE_MODULUS
  {
    var x := (size + align - 1) % SIZE_MODULUS;
    var q := SIZE_MODULUS / align;
    assert q * align == SIZE_MODULUS;
    assert x == x / align * align + x % align;
    MulMonotone(x / align, q, align);
  }

  lemma MulMonotone(d: nat, q: nat, a: nat)
    requires d * a < q * a
    ensures d * a <= q * a - a
  {
    assert d < q;
    assert q * a - a == (q - 1) * a;
    assert d * a <= (q - 1) * a;
  }
}
