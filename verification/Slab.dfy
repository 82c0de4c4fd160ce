/**
  The slab allocator, src/slab.c: chunks of 72 sizes in zones of equal chunks, zones and large blocks in
  runs of pages, and a table that tells for every page what it belongs to.

  Chunks are named by their zone and number; `Addr` is their address.
 */
module SlabSpec {
  import opened Division
  import opened PageRuns

  const PAGE: nat := 4096           // RT_MM_PAGE_SIZE
  const NZONES: nat := 72
  const HEADER: nat := 36           // sizeof(slab_zone) on a 32-bit machine
  const MIN_CHUNK: nat := 8
  const KEPT_ZONES: nat := 2        // ZONE_RELEASE_THRESH

  // ----- size classes

  function RoundUp(n: nat, to: nat): nat
    requires to > 0
  {
    (n + to - 1) / to * to
  }

  // The chunk granularity for a request of n bytes, and what has to be added to the quotient.
  function Grain(n: nat): nat {
    if n < 128 then 8 else if n < 256 then 16 else if n < 512 then 32 else if n < 1024 then 64
    else if n < 2048 then 128 else if n < 4096 then 256 else if n < 8192 then 512 else 1024
  }

  function Offset(n: nat): int {
    if n < 128 then -1 else if n < 256 then 7 else if n < 512 then 15 else if n < 1024 then 23
    else if n < 2048 then 31 else if n < 4096 then 39 else if n < 8192 then 47 else 55
  }

  // zoneindex: the chunk size for a request, and its class.
  function ChunkSize(n: nat): nat { RoundUp(n, Grain(n)) }

  function ZoneIndex(n: nat): int { ChunkSize(n) / Grain(n) + Offset(n) }

  // (n + g - 1) & ~(g - 1) for a grain g.
  lemma RoundUpIs(n: nat, g: nat)
    requires g > 0
    ensures n <= RoundUp(n, g) < n + g && RoundUp(n, g) % g == 0 && RoundUp(n, g) / g == (n + g - 1) / g
  {
    var q := (n + g - 1) / g;
    assert n + g - 1 == q * g + (n + g - 1) % g;
    DivMul(q, g);
  }

  lemma ChunkSizeIs(n: nat)
    requires 0 < n < 16384
    ensures n <= ChunkSize(n) < n + Grain(n) && ChunkSize(n) % Grain(n) == 0 && 8 <= ChunkSize(n) <= 16384
    ensures ZoneIndex(n) == ChunkSize(n) / Grain(n) + Offset(n)
  {
    RoundUpIs(n, Grain(n));
  }

  // The chunk size of a class, and the class of a chunk size.
  function SizeOf(i: int): int {
    if i < 16 then 8 * (i + 1) else if i < 24 then 16 * (i - 7) else if i < 32 then 32 * (i - 15) else if i < 40 then 64 * (i - 23)
    else if i < 48 then 128 * (i - 31) else if i < 56 then 256 * (i - 39) else if i < 64 then 512 * (i - 47) else 1024 * (i - 55)
  }

  function ClassOf(s: nat): int {
    if s <= 128 then s / 8 - 1 else if s <= 256 then s / 16 + 7 else if s <= 512 then s / 32 + 15 else if s <= 1024 then s / 64 + 23
    else if s <= 2048 then s / 128 + 31 else if s <= 4096 then s / 256 + 39 else if s <= 8192 then s / 512 + 47 else s / 1024 + 55
  }

  lemma ClassIsSize(n: nat)
    requires 0 < n < 16384
    ensures 0 <= ZoneIndex(n) < NZONES
    ensures SizeOf(ZoneIndex(n)) == ChunkSize(n) && ClassOf(ChunkSize(n)) == ZoneIndex(n)
  {
    hide ChunkSize, ZoneIndex;
    ChunkSizeIs(n);
    var s := ChunkSize(n);
    if n < 128 { assert s == 8 * (s / 8); }
    else if n < 256 { assert s == 16 * (s / 16); }
    else if n < 512 { assert s == 32 * (s / 32); }
    else if n < 1024 { assert s == 64 * (s / 64); }
    else if n < 2048 { assert s == 128 * (s / 128); }
    else if n < 4096 { assert s == 256 * (s / 256); }
    else if n < 8192 { assert s == 512 * (s / 512); }
    else { assert s == 1024 * (s / 1024); }
  }

  // 72 classes; two requests share a class exactly when they share a chunk size.
  lemma ClassesAreSizes(n: nat, m: nat)
    requires 0 < n < 16384 && 0 < m < 16384
    ensures 0 <= ZoneIndex(n) < NZONES
    ensures ZoneIndex(n) == ZoneIndex(m) <==> ChunkSize(n) == ChunkSize(m)
  {
    hide ChunkSize, ZoneIndex, SizeOf, ClassOf;
    ClassIsSize(n);
    ClassIsSize(m);
  }

  // A chunk size is its own chunk size, and wastes less than 8 bytes or at most an eighth of the request.
  lemma ChunkSizeTwice(n: nat)
    requires 0 < n < 16384
    ensures ChunkSize(n) < 16384 ==> ChunkSize(ChunkSize(n)) == ChunkSize(n)
    ensures ChunkSize(n) - n < 8 || (ChunkSize(n) - n) * 8 <= n
  {
    ChunkSizeIs(n);
    if ChunkSize(n) < 16384 {
      SameGrain(n, ChunkSize(n));
      RoundUpOfMultiple(ChunkSize(n), Grain(ChunkSize(n)));
    }
    assert Grain(n) <= 8 || Grain(n) * 8 <= n;
  }

  lemma RoundUpOfMultiple(s: nat, g: nat)
    requires g > 0 && s % g == 0
    ensures RoundUp(s, g) == s
  {
    var x, q := s + g - 1, s / g;
    Euclid(s, g);
    Euclid(x, g);
    SameQuotient(q, g - 1, x / g, x % g, g);
  }

  // A chunk size is a multiple of its own grain.
  lemma SameGrain(n: nat, s: nat)
    requires 0 < n < 16384 && n <= s < n + Grain(n) && s % Grain(n) == 0 && s < 16384
    ensures s % Grain(s) == 0
  {
  }

  // ----- zones and pages

  datatype Zone = Zone(index: nat, chunkSize: nat, base: nat, nmax: nat, nfree: nat, uindex: nat, freeChunks: seq<nat>)

  // The entry of a page in the usage table.
  datatype Usage = FreePage | Small(off: nat) | Large(n: nat)

  type Zones = map<nat, Zone>

  ghost predicate Different(xs: seq<nat>) {
    forall i, j :: 0 <= i < j < |xs| ==> xs[i] != xs[j]
  }

  // The free chunks of a zone are those never used (above uindex) and those on its list.
  ghost predicate ZoneOk(zp: nat, page: nat, z: Zone) {
    && z.index < NZONES && z.chunkSize > 0 && z.chunkSize == SizeOf(z.index)
    && page * PAGE + HEADER <= z.base == page * PAGE + ChunksFrom(z.chunkSize) && z.base + z.nmax * z.chunkSize <= (page + zp) * PAGE
    && 2 <= z.nmax && z.uindex < z.nmax
    && z.nfree == z.nmax - 1 - z.uindex + |z.freeChunks|
    && Different(z.freeChunks) && forall k :: k in z.freeChunks ==> k <= z.uindex
  }

  predicate LiveIn(z: Zone, k: nat) { k <= z.uindex && k !in z.freeChunks }

  // Chunk k of zone z is in use.
  ghost predicate Live(zones: Zones, cached: seq<nat>, z: nat, k: nat) {
    z in zones && z !in cached && LiveIn(zones[z], k)
  }

  function Addr(zones: Zones, z: nat, k: nat): nat
    requires z in zones
  {
    zones[z].base + k * zones[z].chunkSize
  }

  // A zone is on the list of its class exactly when it is in use and has a free chunk.
  ghost predicate ListsOk(zones: Zones, lists: seq<seq<nat>>, cached: seq<nat>) {
    && |lists| == NZONES && |cached| <= KEPT_ZONES && Different(cached)
    && (forall z :: z in cached ==> z in zones)
    && (forall i :: 0 <= i < NZONES ==> Different(lists[i]))
    && (forall i, z :: 0 <= i < NZONES ==> (z in lists[i] <==> OnList(zones, cached, i, z)))
  }

  predicate OnList(zones: Zones, cached: seq<nat>, i: nat, z: nat) {
    z in zones && z !in cached && zones[z].index == i && zones[z].nfree > 0
  }

  ghost predicate ZonesOk(zp: nat, zones: Zones, cached: seq<nat>) {
    forall z :: z in zones && z !in cached ==> ZoneOk(zp, z, zones[z])
  }

  // The block of pages that starts at p contains page q.
  predicate Holds(held: map<nat, nat>, p: nat, q: nat) { p in held && p <= q < p + held[p] }

  // Blocks of pages are held by zones and by large allocations.  No page is held twice, and none that is
  // held is free.
  ghost predicate PagesOk(held: map<nat, nat>, owner: map<nat, nat>, free: set<nat>) {
    && (forall p :: p in held ==> held[p] > 0)
    && (forall p, q :: Holds(held, p, q) ==> q in owner && owner[q] == p && q !in free)
    && (forall q :: q in owner ==> Holds(held, owner[q], q))
  }

  // The table leads from page q to the block that starts at p.
  predicate Points(usage: map<nat, Usage>, p: nat, q: nat) { q in usage && p <= q && usage[q] == Small(q - p) }

  // The usage table leads from every page of a zone to the zone, and knows the size of every large block.
  ghost predicate UsageOk(zs: set<nat>, held: map<nat, nat>, usage: map<nat, Usage>) {
    && (forall p: nat, q: nat :: Holds(held, p, q) && p in zs ==> Points(usage, p, q))
    && (forall p: nat :: p in held && p !in zs ==> p in usage && usage[p] == Large(held[p]))
  }

  // No block contains a page of [p, p + n).
  ghost predicate Unheld(held: map<nat, nat>, p: nat, n: nat) {
    forall x: nat, q: nat :: Holds(held, x, q) ==> !(p <= q < p + n)
  }

  // ----- changes of pages

  lemma HoldMore(held: map<nat, nat>, owner: map<nat, nat>, free: set<nat>, p: nat, n: nat, owner': map<nat, nat>)
    requires PagesOk(held, owner, free) && Range(p, n) <= free && n > 0
    requires owner' == owner + (map q | q in Range(p, n) :: p)
    ensures Unheld(held, p, n) && p !in held
    ensures PagesOk(held[p := n], owner', free - Range(p, n))
    ensures free - Range(p, n) + owner'.Keys == free + owner.Keys
  {
    hide Range;
    var held' := held[p := n];
    assert p in Range(p, n);
    assert !Holds(held, p, p);
    forall x: nat, q: nat | Holds(held', x, q) ensures q in owner' && owner'[q] == x && q !in free - Range(p, n) {
      if x != p { assert Holds(held, x, q); }
    }
    forall q | q in owner' ensures Holds(held', owner'[q], q) {
      if q !in Range(p, n) { assert Holds(held, owner[q], q); }
    }
  }

  lemma HoldLess(held: map<nat, nat>, owner: map<nat, nat>, free: set<nat>, p: nat)
    requires PagesOk(held, owner, free) && p in held
    ensures Range(p, held[p]) !! free
    ensures PagesOk(held - {p}, owner - Range(p, held[p]), free + Range(p, held[p]))
    ensures free + Range(p, held[p]) + (owner - Range(p, held[p])).Keys == free + owner.Keys
    ensures Unheld(held - {p}, p, held[p])
  {
    hide Range;
    var held', owner' := held - {p}, owner - Range(p, held[p]);
    forall q | q in Range(p, held[p]) ensures q in owner && owner[q] == p && q !in free { assert Holds(held, p, q); }
    forall x: nat, q: nat | Holds(held', x, q)
      ensures q in owner' && owner'[q] == x && q !in free + Range(p, held[p]) && !(p <= q < p + held[p])
    {
      assert Holds(held, x, q);
    }
    forall q | q in owner' ensures Holds(held', owner'[q], q) { assert Holds(held, owner[q], q); }
  }

  // The usage table after a new zone, a new large block, and after dropping one of them.
  lemma UsageOfZone(zs: set<nat>, held: map<nat, nat>, usage: map<nat, Usage>, z: nat, n: nat, usage': map<nat, Usage>)
    requires UsageOk(zs, held, usage) && z !in held && Unheld(held, z, n) && (forall p :: p in held ==> held[p] > 0)
    requires forall q: nat :: z <= q < z + n ==> Points(usage', z, q)
    requires forall q: nat :: q in usage && !(z <= q < z + n) ==> q in usage' && usage'[q] == usage[q]
    ensures UsageOk(zs + {z}, held[z := n], usage')
  {
    var held' := held[z := n];
    forall p: nat, q: nat | Holds(held', p, q) && p in zs + {z} ensures Points(usage', p, q) {
      if p != z { assert Holds(held, p, q) && Points(usage, p, q); }
    }
    forall p | p in held && p !in zs ensures p in usage' && usage'[p] == Large(held[p]) { assert Holds(held, p, p); }
  }

  lemma UsageOfLarge(zs: set<nat>, held: map<nat, nat>, usage: map<nat, Usage>, p: nat, n: nat)
    requires UsageOk(zs, held, usage) && p !in held && n > 0 && Unheld(held, p, n) && zs <= held.Keys
    ensures UsageOk(zs, held[p := n], usage[p := Large(n)])
  {
    var held', usage' := held[p := n], usage[p := Large(n)];
    forall x: nat, q: nat | Holds(held', x, q) && x in zs ensures Points(usage', x, q) {
      assert Holds(held, x, q) && Points(usage, x, q);
    }
  }

  lemma UsageWithout(zs: set<nat>, held: map<nat, nat>, usage: map<nat, Usage>, p: nat, usage': map<nat, Usage>)
    requires UsageOk(zs, held, usage) && p in held && Unheld(held - {p}, p, held[p]) && (forall x :: x in held ==> held[x] > 0)
    requires forall q: nat :: q in usage && !(p <= q < p + held[p]) ==> q in usage' && usage'[q] == usage[q]
    ensures UsageOk(zs - {p}, held - {p}, usage')
  {
    var held' := held - {p};
    forall x: nat, q: nat | Holds(held', x, q) && x in zs - {p} ensures Points(usage', x, q) {
      assert Holds(held, x, q) && Points(usage, x, q);
    }
    forall x | x in held' && x !in zs ensures x in usage' && usage'[x] == Large(held'[x]) { assert Holds(held', x, x); }
  }

  // ----- chunks

  // The chunk that rt_malloc takes from a zone: one never used as long as there is one, else from the list.
  function TakenChunk(z: Zone): nat {
    if z.uindex + 1 != z.nmax then z.uindex + 1 else if z.freeChunks == [] then 0 else z.freeChunks[0]
  }

  function AfterTake(z: Zone): Zone
    requires z.nfree > 0
  {
    if z.uindex + 1 != z.nmax then z.(nfree := z.nfree - 1, uindex := z.uindex + 1)
    else z.(nfree := z.nfree - 1, freeChunks := if z.freeChunks == [] then [] else z.freeChunks[1..])
  }

  function AfterPut(z: Zone, k: nat): Zone {
    z.(nfree := z.nfree + 1, freeChunks := [k] + z.freeChunks)
  }

  lemma TakeKeepsZone(zp: nat, page: nat, z: Zone)
    requires ZoneOk(zp, page, z) && z.nfree > 0
    ensures ZoneOk(zp, page, AfterTake(z))
    ensures !LiveIn(z, TakenChunk(z)) && forall k :: LiveIn(AfterTake(z), k) <==> LiveIn(z, k) || k == TakenChunk(z)
  {
    if z.uindex + 1 == z.nmax {
      RestDiffers(z.freeChunks);
    }
  }

  lemma RestDiffers(xs: seq<nat>)
    requires Different(xs) && xs != []
    ensures Different(xs[1..]) && xs[0] !in xs[1..] && forall x :: x in xs <==> x == xs[0] || x in xs[1..]
  {
    assert forall i :: 0 <= i < |xs| - 1 ==> xs[1..][i] == xs[i + 1];
    assert xs == [xs[0]] + xs[1..];
  }

  lemma PutKeepsZone(zp: nat, page: nat, z: Zone, k: nat)
    requires ZoneOk(zp, page, z) && LiveIn(z, k)
    ensures ZoneOk(zp, page, AfterPut(z, k))
    ensures forall j :: LiveIn(AfterPut(z, k), j) <==> LiveIn(z, j) && j != k
  {
  }

  lemma WithoutOne(xs: seq<nat>, i: nat)
    requires Different(xs) && i < |xs|
    ensures Different(xs[..i] + xs[i + 1..]) && forall x :: x in xs[..i] + xs[i + 1..] <==> x in xs && x != xs[i]
  {
    var ys := xs[..i] + xs[i + 1..];
    assert forall j :: 0 <= j < |ys| ==> ys[j] == if j < i then xs[j] else xs[j + 1];
    forall x | x in xs && x != xs[i] ensures x in ys {
      var j :| 0 <= j < |xs| && xs[j] == x;
      assert ys[if j < i then j else j - 1] == x;
    }
  }

  lemma {:induction false} Crowded(xs: seq<nat>, n: nat)
    requires Different(xs) && forall x :: x in xs ==> x < n
    ensures |xs| <= n && (|xs| == n ==> forall k :: 0 <= k < n ==> k in xs)
    decreases n
  {
    assert xs != [] ==> xs[0] in xs;
    if n > 0 {
      if n - 1 in xs {
        var i :| 0 <= i < |xs| && xs[i] == n - 1;
        var ys := xs[..i] + xs[i + 1..];
        WithoutOne(xs, i);
        forall y | y in ys ensures y < n - 1 { assert y in xs && y != xs[i]; }
        Crowded(ys, n - 1);
      } else {
        Crowded(xs, n - 1);
      }
    }
  }

  // A zone all of whose chunks are counted as free has no live chunk.
  lemma AllFree(zp: nat, page: nat, z: Zone)
    requires ZoneOk(zp, page, z)
    ensures z.nfree <= z.nmax && (z.nfree == z.nmax ==> forall k :: !LiveIn(z, k))
  {
    Crowded(z.freeChunks, z.uindex + 1);
  }

  // ----- a new zone

  predicate PowerOfTwo(n: nat) {
    n == 8 || n == 16 || n == 32 || n == 64 || n == 128 || n == 256 || n == 512 || n == 1024 || n == 2048 || n == 4096 || n == 8192
    || n == 16384
  }

  // Where the chunks of a zone start: aligned to the chunk size if that is a power of two.
  function ChunksFrom(size: nat): nat
    requires size > 0
  {
    RoundUp(HEADER, if PowerOfTwo(size) then size else MIN_CHUNK)
  }

  function NewZone(page: nat, zp: nat, index: nat, size: nat): Zone
    requires size > 0 && ChunksFrom(size) <= zp * PAGE
  {
    var nmax := (zp * PAGE - ChunksFrom(size)) / size;
    Zone(index, size, page * PAGE + ChunksFrom(size), nmax, if nmax > 0 then nmax - 1 else 0, 0, [])
  }

  lemma ChunksFromIs(size: nat)
    requires 8 <= size
    ensures HEADER <= ChunksFrom(size) && (ChunksFrom(size) <= 64 || ChunksFrom(size) <= size)
    ensures PowerOfTwo(size) ==> ChunksFrom(size) % size == 0
  {
    RoundUpIs(HEADER, if PowerOfTwo(size) then size else MIN_CHUNK);
    if size >= 64 && PowerOfTwo(size) {
      assert HEADER + size - 1 < 2 * size;
      Euclid(HEADER + size - 1, size);
      SameQuotient(1, HEADER - 1, (HEADER + size - 1) / size, (HEADER + size - 1) % size, size);
    }
  }

  lemma NewZoneOk(page: nat, zp: nat, index: nat, size: nat)
    requires index < NZONES && 8 <= size == SizeOf(index) && 8 <= zp && 4 * size <= zp * PAGE
    ensures ChunksFrom(size) <= zp * PAGE && ZoneOk(zp, page, NewZone(page, zp, index, size))
    ensures forall k :: LiveIn(NewZone(page, zp, index, size), k) <==> k == 0
    ensures NewZone(page, zp, index, size).nfree > 0
  {
    ChunksFromIs(size);
    var room := zp * PAGE - ChunksFrom(size);
    var nmax := room / size;
    Euclid(room, size);
    if nmax < 2 { MulGrows(nmax, 2, size); }
  }

  // ----- addresses

  // The address of a live chunk lies in the pages of its zone.
  lemma AddrInZone(zp: nat, page: nat, z: Zone, k: nat)
    requires ZoneOk(zp, page, z) && k < z.nmax
    ensures page * PAGE < z.base + k * z.chunkSize
    ensures z.base + k * z.chunkSize + z.chunkSize <= (page + zp) * PAGE
  {
    MulNat(k, z.chunkSize);
    if k + 1 < z.nmax { MulGrows(k + 1, z.nmax, z.chunkSize); }
    assert (k + 1) * z.chunkSize == k * z.chunkSize + z.chunkSize;
  }

  // Different chunks do not overlap.
  lemma ChunksApart(zp: nat, held: map<nat, nat>, owner: map<nat, nat>, free: set<nat>, zones: Zones, cached: seq<nat>,
                    z: nat, k: nat, y: nat, j: nat)
    requires PagesOk(held, owner, free) && ZonesOk(zp, zones, cached)
    requires forall x :: x in zones ==> x in held && held[x] == zp
    requires Live(zones, cached, z, k) && Live(zones, cached, y, j) && (z != y || k != j)
    ensures Addr(zones, z, k) + zones[z].chunkSize <= Addr(zones, y, j) || Addr(zones, y, j) + zones[y].chunkSize <= Addr(zones, z, k)
  {
    assert ZoneOk(zp, z, zones[z]) && ZoneOk(zp, y, zones[y]);
    if z == y {
      if k < j { MulGrows(k, j, zones[z].chunkSize); } else { MulGrows(j, k, zones[z].chunkSize); }
    } else {
      AddrInZone(zp, z, zones[z], k);
      AddrInZone(zp, y, zones[y], j);
      ZonesApart(held, owner, free, z, y);
    }
  }

  lemma ZonesApart(held: map<nat, nat>, owner: map<nat, nat>, free: set<nat>, z: nat, y: nat)
    requires PagesOk(held, owner, free) && z in held && y in held && z != y
    ensures z + held[z] <= y || y + held[y] <= z
  {
    var q := if z < y then y else z;
    assert Holds(held, z, q) ==> owner[q] == z;
    assert Holds(held, y, q) ==> owner[q] == y;
  }

  // The page-usage table leads from a live chunk to its zone.
  lemma UsageLeadsHome(zp: nat, held: map<nat, nat>, usage: map<nat, Usage>, zones: Zones, cached: seq<nat>, z: nat, k: nat)
    requires UsageOk(zones.Keys, held, usage) && ZonesOk(zp, zones, cached)
    requires forall x :: x in zones ==> x in held && held[x] == zp
    requires Live(zones, cached, z, k)
    ensures z in zones && zones[z].chunkSize > 0
    ensures var page := Addr(zones, z, k) / PAGE; Points(usage, z, page)
    ensures Addr(zones, z, k) - zones[z].base == k * zones[z].chunkSize && k * zones[z].chunkSize / zones[z].chunkSize == k
  {
    AddrInZone(zp, z, zones[z], k);
    var page := Addr(zones, z, k) / PAGE;
    assert Holds(held, z, page);
    DivMul(k, zones[z].chunkSize);
  }

  // Chunks whose size is a power of two are aligned to their size exactly if their zone is; pages only
  // guarantee that up to the page size.
  lemma PowerOfTwoAlignment(zp: nat, zones: Zones, z: nat, k: nat)
    requires z in zones && ZoneOk(zp, z, zones[z]) && PowerOfTwo(zones[z].chunkSize)
    ensures Addr(zones, z, k) % zones[z].chunkSize == 0 <==> z * PAGE % zones[z].chunkSize == 0
    ensures zones[z].chunkSize <= PAGE ==> Addr(zones, z, k) % zones[z].chunkSize == 0
  {
    hide PowerOfTwo, ChunksFrom, SizeOf;
    var s := zones[z].chunkSize;
    AtLeastEight(s);
    ChunksFromIs(s);
    var m := ChunksFrom(s) / s;
    Euclid(ChunksFrom(s), s);
    assert m * s + k * s == (m + k) * s;
    ModPlusMultiple(z * PAGE, m + k, s);
    PageIsMultiple(z, s);
  }

  // The powers of two up to the page size.
  predicate SmallPower(n: nat) { n == 1 || n == 2 || n == 4 || (n <= PAGE && PowerOfTwo(n)) }

  lemma SmallPowersAre(n: nat)
    ensures SmallPower(n) <==> n in {1, 2, 4, 8, 16, 32, 64, 128, 256, 512, 1024, 2048, 4096}
  {
  }

  lemma SmallPowerSize(n: nat)
    requires SmallPower(n)
    ensures PowerOfTwo(ChunkSize(n)) && ChunkSize(n) <= PAGE && (ChunkSize(n) == n || (ChunkSize(n) == 8 && (n == 1 || n == 2 || n == 4)))
  {
  }

  lemma MultipleOf(a: nat, s: nat, n: nat)
    requires s > 0 && n > 0 && a % s == 0 && (s == n || (s == 8 && (n == 1 || n == 2 || n == 4)))
    ensures a % n == 0
  {
    if s != n {
      var q := a / 8;
      assert a == 8 * q;
      if n == 2 { assert a == 2 * (4 * q); } else if n == 4 { assert a == 4 * (2 * q); }
    }
  }

  lemma AtLeastEight(s: nat)
    requires PowerOfTwo(s)
    ensures s >= 8
  {
  }

  lemma PageIsMultiple(z: nat, s: nat)
    requires PowerOfTwo(s)
    ensures s <= PAGE ==> z * PAGE % s == 0
  {
    if s <= PAGE {
      var k := PAGE / s;
      assert k * s == PAGE;
      assert z * (k * s) == z * k * s;
      DivMul(z * k, s);
    }
  }

  lemma ModPlusMultiple(a: nat, b: nat, s: nat)
    requires s > 0
    ensures (a + b * s) % s == a % s
  {
    Euclid(a, s);
    MulNat(b, s);
    var x := a + b * s;
    Euclid(x, s);
    assert x == (a / s + b) * s + a % s;
    SameQuotient(a / s + b, a % s, x / s, x % s, s);
  }

  // ----- the lists of zones

  // Zone z became v; its list changes as its free chunks require.
  lemma ChangeListed(zones: Zones, lists: seq<seq<nat>>, cached: seq<nat>, z: nat, v: Zone, list: seq<nat>)
    requires ListsOk(zones, lists, cached) && z in zones && z !in cached
    requires v.index == zones[z].index < NZONES
    requires Different(list) && forall x :: x in list <==> (x in lists[v.index] && x != z) || (x == z && v.nfree > 0)
    ensures ListsOk(zones[z := v], lists[v.index := list], cached)
  {
    var lists' := lists[v.index := list];
    forall i, x | 0 <= i < NZONES ensures x in lists'[i] <==> OnList(zones[z := v], cached, i, x) {
      assert x in lists[i] <==> OnList(zones, cached, i, x);
    }
  }

  // Zone z, new or taken from the cache, goes to the head of its list.
  lemma NewListed(zones: Zones, lists: seq<seq<nat>>, cached: seq<nat>, cached': seq<nat>, z: nat, v: Zone)
    requires ListsOk(zones, lists, cached) && v.index < NZONES && v.nfree > 0
    requires (z !in zones && cached' == cached) || (cached != [] && z == cached[0] && cached' == cached[1..])
    ensures ListsOk(zones[z := v], lists[v.index := [z] + lists[v.index]], cached')
    ensures forall y, k :: Live(zones[z := v], cached', y, k) <==> Live(zones, cached, y, k) || (y == z && LiveIn(v, k))
  {
    if cached' != cached { RestDiffers(cached); }
    var lists' := lists[v.index := [z] + lists[v.index]];
    assert z !in lists[v.index];
    forall y, k ensures Live(zones[z := v], cached', y, k) <==> Live(zones, cached, y, k) || (y == z && LiveIn(v, k)) {
      assert y in cached' <==> y in cached && !(y == z && cached' != cached);
    }
    forall i, x | 0 <= i < NZONES ensures x in lists'[i] <==> OnList(zones[z := v], cached', i, x) {
      assert x in lists[i] <==> OnList(zones, cached, i, x);
    }
  }

  // A zone without live chunks leaves its list for the cache, or altogether if the cache is full.
  lemma Retire(zones: Zones, lists: seq<seq<nat>>, cached: seq<nat>, z: nat, list: seq<nat>)
    requires ListsOk(zones, lists, cached) && z in zones && z !in cached && zones[z].index < NZONES
    requires forall k :: !LiveIn(zones[z], k)
    requires Different(list) && forall x :: x in list <==> x in lists[zones[z].index] && x != z
    ensures |cached| < KEPT_ZONES ==> ListsOk(zones, lists[zones[z].index := list], [z] + cached)
    ensures ListsOk(zones - {z}, lists[zones[z].index := list], cached)
    ensures forall y, k :: Live(zones, [z] + cached, y, k) <==> Live(zones, cached, y, k)
    ensures forall y, k :: Live(zones - {z}, cached, y, k) <==> Live(zones, cached, y, k)
  {
    var lists' := lists[zones[z].index := list];
    forall i, x | 0 <= i < NZONES
      ensures x in lists'[i] <==> OnList(zones, [z] + cached, i, x)
      ensures x in lists'[i] <==> OnList(zones - {z}, cached, i, x)
    {
      assert x in lists[i] <==> OnList(zones, cached, i, x);
    }
  }

  // Only chunk k of zone z changed its state, and no live chunk moved.
  ghost predicate OnlyChunk(zones: Zones, cached: seq<nat>, zones': Zones, cached': seq<nat>, z: nat, k: nat) {
    forall y, j :: (y != z || j != k) ==>
      (Live(zones', cached', y, j) <==> Live(zones, cached, y, j))
      && (Live(zones, cached, y, j) ==> zones'[y].base == zones[y].base && zones'[y].chunkSize == zones[y].chunkSize)
  }

  // The large blocks are the same.
  ghost predicate SameLarge(zones: Zones, held: map<nat, nat>, zones': Zones, held': map<nat, nat>) {
    forall p :: (p in held' && p !in zones' <==> p in held && p !in zones) && (p in held && p !in zones ==> held'[p] == held[p])
  }

  // All live chunks but chunk k of zone z are live and where they were.
  ghost predicate ChunksKept(zones: Zones, cached: seq<nat>, zones': Zones, cached': seq<nat>, z: nat, k: nat) {
    forall y, j :: Live(zones, cached, y, j) && (y != z || j != k) ==>
      Live(zones', cached', y, j) && zones'[y].base == zones[y].base && zones'[y].chunkSize == zones[y].chunkSize
  }

  // All large blocks but the one at page p are there.
  ghost predicate LargeKept(zones: Zones, held: map<nat, nat>, zones': Zones, held': map<nat, nat>, p: int) {
    forall q :: q in held && q !in zones && q != p ==> q in held' && q !in zones' && held'[q] == held[q]
  }

  predicate LargeAt(zones: Zones, held: map<nat, nat>, p: int) {
    p >= 0 && p % PAGE == 0 && p / PAGE in held && p / PAGE !in zones
  }

  ghost predicate BlockAt(zones: Zones, cached: seq<nat>, held: map<nat, nat>, p: int, z: nat, k: nat, size: nat) {
    || (LargeAt(zones, held, p) && size <= held[p / PAGE] * PAGE)
    || (Live(zones, cached, z, k) && p == Addr(zones, z, k) && size <= zones[z].chunkSize)
  }

  // After an allocation all that was in use still is.
  lemma TookChunk(zones: Zones, cached: seq<nat>, held: map<nat, nat>, zones': Zones, cached': seq<nat>, held': map<nat, nat>, z: nat, k: nat)
    requires OnlyChunk(zones, cached, zones', cached', z, k) && SameLarge(zones, held, zones', held') && !Live(zones, cached, z, k)
    ensures AllKept(zones, cached, held, zones', cached', held')
  {
  }

  lemma TookPages(zones: Zones, cached: seq<nat>, held: map<nat, nat>, p: nat, n: nat)
    requires p !in held
    ensures AllKept(zones, cached, held, zones, cached, held[p := n])
  {
  }

  ghost predicate AllKept(zones: Zones, cached: seq<nat>, held: map<nat, nat>, zones': Zones, cached': seq<nat>, held': map<nat, nat>) {
    && (forall y, j :: Live(zones, cached, y, j) ==>
          Live(zones', cached', y, j) && zones'[y].base == zones[y].base && zones'[y].chunkSize == zones[y].chunkSize)
    && (forall q :: q in held && q !in zones ==> q in held' && q !in zones' && held'[q] == held[q])
  }

  // A block is a chunk or a large block, not both.
  lemma LiveNotLarge(zp: nat, held: map<nat, nat>, owner: map<nat, nat>, free: set<nat>, zones: Zones, cached: seq<nat>, z: nat, k: nat)
    requires PagesOk(held, owner, free) && ZonesOk(zp, zones, cached) && Live(zones, cached, z, k)
    requires forall x :: x in zones ==> x in held && held[x] == zp
    ensures z in zones && !LargeAt(zones, held, Addr(zones, z, k))
  {
    var page := Addr(zones, z, k) / PAGE;
    AddrInZone(zp, z, zones[z], k);
    assert Holds(held, z, page);
    if page in held {
      assert Holds(held, page, page);
    }
  }

  // A new block, and then freeing chunk k of zone z.
  lemma MovedFromChunk(zones: Zones, cached: seq<nat>, held: map<nat, nat>, zones': Zones, cached': seq<nat>, held': map<nat, nat>,
                       zones'': Zones, cached'': seq<nat>, held'': map<nat, nat>, z: nat, k: nat, r: int, z': nat, k': nat, size: nat)
    requires AllKept(zones, cached, held, zones', cached', held') && Live(zones, cached, z, k)
    requires BlockAt(zones', cached', held', r, z', k', size)
    requires (LargeAt(zones', held', r) && size <= held'[r / PAGE] * PAGE) || z' != z || k' != k
    requires OnlyChunk(zones', cached', zones'', cached'', z, k) && SameLarge(zones', held', zones'', held'')
    ensures ChunksKept(zones, cached, zones'', cached'', z, k) && LargeKept(zones, held, zones'', held'', -1)
    ensures BlockAt(zones'', cached'', held'', r, z', k', size)
  {
    if !(LargeAt(zones', held', r) && size <= held'[r / PAGE] * PAGE) {
      assert Live(zones'', cached'', z', k') && zones''[z'].base == zones'[z'].base;
    }
  }

  // A new block, and then freeing the large block at page p.
  lemma MovedFromPages(zones: Zones, cached: seq<nat>, held: map<nat, nat>, zones': Zones, cached': seq<nat>, held': map<nat, nat>,
                       p: nat, r: int, z: nat, k: nat, size: nat)
    requires AllKept(zones, cached, held, zones', cached', held')
    requires BlockAt(zones', cached', held', r, z, k, size) && (LargeAt(zones', held', r) ==> r / PAGE != p)
    ensures ChunksKept(zones, cached, zones', cached', z, k) && LargeKept(zones, held, zones', held' - {p}, p)
    ensures BlockAt(zones', cached', held' - {p}, r, z, k, size)
  {
  }

  // The size that rt_realloc asks for: zoneindex rounds all but the largest.
  function Rounded(size: nat): nat { if size < 16384 then ChunkSize(size) else size }

  function Smaller(a: nat, b: nat): (r: nat)
    ensures r <= a && r <= b && (r == a || r == b)
  {
    if a < b then a else b
  }

  // Forgetting zones that have no live chunk changes nothing else.
  lemma OnlyChunkThen(zones: Zones, cached: seq<nat>, zones': Zones, cached': seq<nat>, zones'': Zones, cached'': seq<nat>, z: nat, k: nat)
    requires OnlyChunk(zones, cached, zones', cached', z, k)
    requires forall y, j :: Live(zones'', cached'', y, j) <==> Live(zones', cached', y, j)
    requires forall y :: y in zones'' ==> y in zones' && zones''[y] == zones'[y]
    ensures OnlyChunk(zones, cached, zones'', cached'', z, k)
  {
    forall y, j | y != z || j != k
      ensures (Live(zones'', cached'', y, j) <==> Live(zones, cached, y, j))
      ensures Live(zones, cached, y, j) ==> zones''[y].base == zones[y].base && zones''[y].chunkSize == zones[y].chunkSize
    {
      assert Live(zones'', cached'', y, j) <==> Live(zones', cached', y, j);
    }
  }

  lemma ChangeOne(zones: Zones, cached: seq<nat>, z: nat, v: Zone, k: nat)
    requires z in zones && z !in cached && v.base == zones[z].base && v.chunkSize == zones[z].chunkSize
    requires forall j :: j != k ==> (LiveIn(v, j) <==> LiveIn(zones[z], j))
    ensures OnlyChunk(zones, cached, zones[z := v], cached, z, k)
    ensures Live(zones[z := v], cached, z, k) <==> LiveIn(v, k)
  {
  }
}

module Slab {
  import HeapBytes
  import opened Division
  import opened PageRuns
  import opened PageLists
  import opened SlabSpec

  // The pages of the usage table, four bytes for every page.
  function TablePages(npages: nat): (t: nat)
    requires npages > 0
    ensures 0 < t <= npages
  {
    (npages * 4 + PAGE - 1) / PAGE
  }

  // The size of a zone: doubled up to 128 kB, or a thousandth of the heap.
  function ZoneSizeFor(npages: nat): nat {
    var thousandth := npages * PAGE / 1024;
    if 65536 < thousandth then (if 131072 < thousandth then 131072 else 65536) else 32768
  }

  lemma NothingHeld(free: set<nat>, zp: nat)
    ensures PagesOk(map[], map[], free) && UsageOk({}, map[], map[]) && ZonesOk(zp, map[], []) && ListsOk(map[], NoLists(), [])
  {
    assert forall i, z: nat :: 0 <= i < NZONES ==> z !in NoLists()[i] && !OnList(map[], [], i, z);
  }

  function NoLists(): (lists: seq<seq<nat>>)
    ensures |lists| == NZONES && forall i :: 0 <= i < NZONES ==> lists[i] == []
  {
    seq(NZONES, _ => [])
  }

  lemma AfterTable(start: nat, npages: nat, whole: seq<Run>, table: int, rest: seq<Run>)
    requires npages > 0 && whole == [Run(start, npages)]
    requires table == NULL ==> forall a: nat :: !(Range(a, TablePages(npages)) <= Pages(whole))
    requires table != NULL ==> table >= 0 && LowestRun(whole, table, TablePages(npages)) && Taken(whole, table, TablePages(npages), rest)
    ensures Pages(rest) == Range(start + TablePages(npages), npages - TablePages(npages))
    ensures npages > TablePages(npages) ==> rest == [Run(start + TablePages(npages), npages - TablePages(npages))]
  {
    var t := TablePages(npages);
    OnePages(Run(start, npages));
    assert Range(start, t) <= Pages(whole);
    if table != NULL {
      assert table == start;
      OnePages(Run(start + t, npages - t));
      if npages > t {
        CanonicalIsUnique(rest, [Run(start + t, npages - t)]);
      }
    }
  }

  class SlabHeap {
    const zoneSize: nat
    const zoneLimit: nat
    const zonePages: nat
    const pages: PageList
    var zones: Zones
    var zoneArray: seq<seq<nat>>
    var zoneFree: seq<nat>
    var usage: map<nat, Usage>
    ghost var held: map<nat, nat>
    ghost var owner: map<nat, nat>
    ghost const all: set<nat>

    ghost predicate Params() {
      && (zoneSize == 32768 || zoneSize == 65536 || zoneSize == 131072) && zoneSize == zonePages * PAGE
      && zoneLimit == if zoneSize / 4 > 16384 then 16384 else zoneSize / 4
    }

    ghost predicate Valid()
      reads this, pages
    {
      && Params() && pages.Valid()
      && PagesOk(held, owner, Pages(pages.runs)) && UsageOk(zones.Keys, held, usage)
      // every page is free or belongs to a block
      && Pages(pages.runs) + owner.Keys == all
      && (forall z :: z in zones ==> z in held && held[z] == zonePages)
      && ZonesOk(zonePages, zones, zoneFree) && ListsOk(zones, zoneArray, zoneFree)
    }

    // rt_system_heap_init on the pages from `start`.
    constructor (start: nat, npages: nat)
      requires 0 < npages
      ensures Valid() && fresh(pages) && zones == map[] && held == map[] && zoneFree == []
      ensures zoneSize == ZoneSizeFor(npages) && forall i :: 0 <= i < |zoneArray| ==> zoneArray[i] == []
      ensures npages > TablePages(npages) ==> pages.runs == [Run(start + TablePages(npages), npages - TablePages(npages))]
      ensures all == Range(start + TablePages(npages), npages - TablePages(npages))
    {
      hide PagesOk, UsageOk, ListsOk, ZonesOk, Pages, Range, Canonical, Taken, LowestRun, TablePages;
      var size := 32768;
      while size < 131072 && 2 * size < npages * PAGE / 1024
        invariant size == 32768 || (size == 65536 && 65536 < npages * PAGE / 1024) || (size == 131072 && 131072 < npages * PAGE / 1024)
        decreases 131072 - size
      {
        size := 2 * size;
      }
      zoneSize, zonePages := size, size / PAGE;
      zoneLimit := if size / 4 > 16384 then 16384 else size / 4;
      var none: Zones := map[];
      assert none.Keys == {};
      zones, usage, zoneFree := none, map[], [];
      zoneArray := NoLists();
      held, owner := map[], map[];
      var list := new PageList(start, npages);
      // the pages of the usage table itself
      ghost var whole := list.runs;
      var table := list.Alloc(TablePages(npages));
      AfterTable(start, npages, whole, table, list.runs);
      NothingHeld(Pages(list.runs), size / PAGE);
      pages, all := list, Pages(list.runs);
    }

    // ----- large blocks

    // rt_malloc of at least zone_limit bytes.
    method MallocLarge(npages: nat) returns (p: int)
      requires Valid()
      modifies this`usage, this`held, this`owner, pages
      ensures Valid()
      ensures p == NULL ==> held == old(held) && usage == old(usage) && pages.runs == old(pages.runs)
      ensures p == NULL <==> npages == 0 || forall a: nat :: !(Range(a, npages) <= Pages(old(pages.runs)))
      ensures p != NULL ==> p >= 0 && npages > 0 && p !in old(held) && held == old(held)[p := npages]
      ensures p != NULL ==> LowestRun(old(pages.runs), p, npages)
    {
      hide PagesOk, UsageOk, ZonesOk, ListsOk, Range, Pages;
      p := pages.Alloc(npages);
      if p == NULL {
        return;
      }
      ghost var owner' := owner + (map q | q in Range(p, npages) :: p as nat);
      HoldMore(held, owner, Pages(old(pages.runs)), p, npages, owner');
      UsageOfLarge(zones.Keys, held, usage, p, npages);
      usage := usage[p := Large(npages)];
      held, owner := held[p := npages], owner';
    }

    // ----- chunks

    // The zone's record after a chunk was taken, and its list.
    method TakeFromZone(zi: nat) returns (z: nat, k: nat)
      requires Valid() && zi < NZONES && zoneArray[zi] != []
      modifies this`zones, this`zoneArray
      ensures Valid() && z in zones && zones[z].index == zi
      // the head of the list, and a chunk never used before if it has one
      ensures zi < |old(zoneArray)| && z == old(zoneArray)[zi][0] && z in old(zones) && k == TakenChunk(old(zones)[z])
      ensures !Live(old(zones), zoneFree, z, k) && Live(zones, zoneFree, z, k)
      ensures OnlyChunk(old(zones), zoneFree, zones, zoneFree, z, k)
      ensures SameLarge(old(zones), held, zones, held)
    {
      hide PagesOk, UsageOk, ListsOk, ZoneOk, LiveIn, AfterTake, TakenChunk, OnlyChunk;
      ListsLength(zones, zoneArray, zoneFree);
      HeadOfList(zones, zoneArray, zoneFree, zi);
      z := zoneArray[zi][0];
      var v := zones[z];
      TakeKeepsZone(zonePages, z, v);
      k := TakenChunk(v);
      SameRecord(v, k);
      ChangeOne(zones, zoneFree, z, AfterTake(v), k);
      v := AfterTake(v);
      var list := zoneArray[zi];
      if v.nfree == 0 {
        list := list[1..];
      }
      ChangeListed(zones, zoneArray, zoneFree, z, v, list);
      zoneArray := zoneArray[zi := list];
      zones := zones[z := v];
      assert zones.Keys == old(zones).Keys;
    }

    // Enter a zone into the usage table.
    method MarkZone(z: nat)
      modifies this`usage
      ensures forall q: nat :: z <= q < z + zonePages ==> Points(usage, z, q)
      ensures forall q: nat :: q in old(usage) && !(z <= q < z + zonePages) ==> q in usage && usage[q] == old(usage)[q]
    {
      var off := 0;
      while off < zonePages
        invariant 0 <= off <= zonePages
        invariant forall q: nat :: z <= q < z + off ==> Points(usage, z, q)
        invariant forall q: nat :: q in old(usage) && !(z <= q < z + zonePages) ==> q in usage && usage[q] == old(usage)[q]
      {
        ghost var before := usage;
        usage := usage[z + off := Small(off)];
        off := off + 1;
        forall q: nat | z <= q < z + off ensures Points(usage, z, q) {
          if q < z + off - 1 { assert Points(before, z, q); }
        }
      }
    }

    // Pages for a new zone, from the page allocator.
    method ZoneFromPages() returns (z: int)
      requires Valid()
      modifies this`usage, this`held, this`owner, pages
      ensures pages.Valid() && PagesOk(held, owner, Pages(pages.runs)) && Pages(pages.runs) + owner.Keys == all
      ensures z == NULL ==> Valid() && held == old(held) && usage == old(usage)
      ensures z == NULL <==> forall a: nat :: !(Range(a, zonePages) <= Pages(old(pages.runs)))
      ensures z != NULL ==> z >= 0 && z !in old(held) && held == old(held)[z := zonePages] && UsageOk(zones.Keys + {z}, held, usage)
      ensures z != NULL ==> LowestRun(old(pages.runs), z, zonePages)
    {
      hide PagesOk, UsageOk, ZonesOk, ListsOk, Range, Pages, Points;
      z := pages.Alloc(zonePages);
      if z == NULL {
        return;
      }
      ghost var owner' := owner + (map q | q in Range(z, zonePages) :: z as nat);
      HoldMore(held, owner, Pages(old(pages.runs)), z, zonePages, owner');
      HeldPositive(held, owner, Pages(old(pages.runs)));
      MarkZone(z);
      UsageOfZone(zones.Keys, held, old(usage), z, zonePages, usage);
      held, owner := held[z := zonePages], owner';
    }

    // Fill in the header of zone z and put it at the head of its list.
    method Install(z: nat, zi: nat, size: nat, ghost was: seq<nat>)
      requires zi < NZONES && 8 <= size == SizeOf(zi) && 4 * size <= zoneSize && Params()
      requires ListsOk(zones, zoneArray, was) && ZonesOk(zonePages, zones, was)
      requires (z !in zones && zoneFree == was) || (was != [] && z == was[0] && zoneFree == was[1..])
      modifies this`zones, this`zoneArray
      ensures ListsOk(zones, zoneArray, zoneFree) && ZonesOk(zonePages, zones, zoneFree)
      ensures zones.Keys == old(zones).Keys + {z} && zones[z].index == zi && zones[z].chunkSize == size
      ensures !Live(old(zones), was, z, 0) && Live(zones, zoneFree, z, 0)
      ensures OnlyChunk(old(zones), was, zones, zoneFree, z, 0)
    {
      hide ListsOk, ZoneOk, LiveIn;
      NewZoneOk(z, zonePages, zi, size);
      ListsLength(zones, zoneArray, was);
      var v := NewZone(z, zonePages, zi, size);
      NewListed(zones, zoneArray, was, zoneFree, z, v);
      if zoneFree != was { CacheHead(zones, zoneArray, was); }
      zoneArray := zoneArray[zi := [z] + zoneArray[zi]];
      zones := zones[z := v];
    }

    // A new zone for chunks of `size` bytes, cached or made of fresh pages; its first chunk is taken.
    method OpenZone(zi: nat, size: nat) returns (z: int)
      requires Valid() && zi < NZONES && 8 <= size == SizeOf(zi) && 4 * size <= zoneSize
      modifies this, pages
      ensures Valid()
      ensures z == NULL ==> zones == old(zones) && zoneFree == old(zoneFree) && zoneArray == old(zoneArray) && held == old(held)
      ensures z == NULL <==> old(zoneFree) == [] && forall a: nat :: !(Range(a, zonePages) <= Pages(old(pages.runs)))
      ensures z != NULL ==> z >= 0 && z in zones && zones[z].index == zi && zones[z].chunkSize == size
      ensures old(zoneFree) != [] ==> z == old(zoneFree)[0] && zoneFree == old(zoneFree)[1..] && held == old(held)
      ensures old(zoneFree) == [] && z != NULL ==> LowestRun(old(pages.runs), z, zonePages)
      ensures z != NULL ==> !Live(old(zones), old(zoneFree), z, 0) && Live(zones, zoneFree, z, 0)
      ensures z != NULL ==> OnlyChunk(old(zones), old(zoneFree), zones, zoneFree, z, 0)
      ensures SameLarge(old(zones), old(held), zones, held)
    {
      hide PagesOk, UsageOk, ListsOk, ZonesOk, OnlyChunk, Live, NewZone, Range, Pages;
      ghost var was := zoneFree;
      if zoneFree != [] {
        CacheHead(zones, zoneArray, zoneFree);
        z := zoneFree[0];
        zoneFree := zoneFree[1..];
        Install(z, zi, size, was);
        assert zones.Keys == old(zones).Keys;
      } else {
        z := ZoneFromPages();
        if z == NULL {
          return;
        }
        Install(z, zi, size, was);
      }
    }

    // rt_malloc of less than zone_limit bytes: chunk k of zone z.
    method MallocSmall(size: nat) returns (r: int, ghost z: nat, ghost k: nat)
      requires Valid() && 0 < size < zoneLimit
      modifies this, pages
      ensures Valid()
      ensures r == NULL ==> zones == old(zones) && zoneFree == old(zoneFree) && held == old(held)
      // it fails just if there is no chunk, no cached zone and no room for a zone, and uses them in this order
      ensures 0 <= ZoneIndex(size) < |old(zoneArray)|
      ensures r == NULL <==>
        && old(zoneArray)[ZoneIndex(size)] == [] && old(zoneFree) == []
        && forall a: nat :: !(Range(a, zonePages) <= Pages(old(pages.runs)))
      ensures old(zoneArray)[ZoneIndex(size)] != [] ==> z == old(zoneArray)[ZoneIndex(size)][0] && held == old(held) && zoneFree == old(zoneFree)
      ensures old(zoneArray)[ZoneIndex(size)] == [] && old(zoneFree) != [] ==>
        z == old(zoneFree)[0] && k == 0 && held == old(held) && zoneFree == old(zoneFree)[1..]
      ensures old(zoneArray)[ZoneIndex(size)] == [] && old(zoneFree) == [] && r != NULL ==> k == 0 && LowestRun(old(pages.runs), z, zonePages)
      // up to the page size, powers of two are aligned to themselves
      ensures r != NULL && SmallPower(size) ==> r % size == 0
      ensures r != NULL ==>
        && z in zones && r == Addr(zones, z, k) && size <= zones[z].chunkSize == ChunkSize(size)
        && !Live(old(zones), old(zoneFree), z, k) && Live(zones, zoneFree, z, k)
        && OnlyChunk(old(zones), old(zoneFree), zones, zoneFree, z, k)
      ensures SameLarge(old(zones), old(held), zones, held)
    {
      hide *;
      SmallEnough(size);
      ZonesThere();
      var zi, chunk := ZoneIndex(size), ChunkSize(size);
      z, k := 0, 0;
      if zoneArray[zi] != [] {
        var y, j := TakeFromZone(zi);
        z, k := y, j;
        ChunkAddr(y, j);
        ChunkAligned(y, j, size);
        r := zones[y].base + j * chunk;
      } else {
        r := OpenZone(zi, chunk);
        if r != NULL {
          z := r;
          ChunkAddr(r, 0);
          ChunkAligned(r, 0, size);
          r := zones[r].base;
        }
      }
    }

    lemma ZonesThere()
      requires Valid()
      ensures |zoneArray| == NZONES
    {
    }

    lemma ChunkAddr(z: nat, k: nat)
      requires Valid() && Live(zones, zoneFree, z, k)
      ensures z in zones && zones[z].chunkSize == SizeOf(zones[z].index)
      ensures Addr(zones, z, k) == zones[z].base + k * zones[z].chunkSize
      ensures Addr(zones, z, k) as int != NULL
      ensures k == 0 ==> Addr(zones, z, k) == zones[z].base
    {
      MulNat(k, zones[z].chunkSize);
    }

    lemma ChunkAligned(z: nat, k: nat, size: nat)
      requires Valid() && Live(zones, zoneFree, z, k) && 0 < size < zoneLimit && zones[z].chunkSize == ChunkSize(size)
      ensures SmallPower(size) ==> Addr(zones, z, k) % size == 0
    {
      hide PagesOk, UsageOk, ListsOk, ZoneOk, SmallPower, PowerOfTwo, ChunkSize, Addr, Pages;
      if SmallPower(size) {
        SmallPowerSize(size);
        PowerOfTwoAlignment(zonePages, zones, z, k);
        MultipleOf(Addr(zones, z, k), ChunkSize(size), size);
      }
    }

    lemma SmallEnough(size: nat)
      requires Valid() && 0 < size < zoneLimit
      ensures 8 <= ChunkSize(size) && size <= ChunkSize(size) == SizeOf(ZoneIndex(size)) && 4 * ChunkSize(size) <= zoneSize
      ensures 0 <= ZoneIndex(size) < NZONES
    {
      ChunkSizeIs(size);
      ClassIsSize(size);
    }

    // rt_malloc.  A small request gives chunk k of zone z.
    method Malloc(size: nat) returns (r: int, ghost z: nat, ghost k: nat)
      requires Valid() && size < HeapBytes.SIZE_MODULUS
      modifies this, pages
      ensures Valid()
      ensures size == 0 ==> r == NULL
      ensures r == NULL ==> zones == old(zones) && zoneFree == old(zoneFree) && held == old(held)
      // a small block is a chunk that was free, of the size of its class
      ensures r != NULL && size < zoneLimit ==>
        && z in zones && r == Addr(zones, z, k) && size <= zones[z].chunkSize == ChunkSize(size)
        && !Live(old(zones), old(zoneFree), z, k) && Live(zones, zoneFree, z, k)
        && OnlyChunk(old(zones), old(zoneFree), zones, zoneFree, z, k) && SameLarge(old(zones), old(held), zones, held)
      // a large block is whole pages that were free
      ensures r != NULL && size >= zoneLimit ==>
        && r >= 0 && r % PAGE == 0 && r / PAGE !in old(held) && zones == old(zones) && zoneFree == old(zoneFree)
        && held == old(held)[r / PAGE := PagesFor(size)] && size <= PagesFor(size) * PAGE
        && LowestRun(old(pages.runs), r / PAGE, PagesFor(size))
      // up to the page size, powers of two are aligned to themselves
      ensures r != NULL && SmallPower(size) ==> r % size == 0
      // a request fails just if there is nothing for it
      ensures 0 < size < zoneLimit ==> 0 <= ZoneIndex(size) < |old(zoneArray)|
      ensures 0 < size < zoneLimit && r != NULL && old(zoneArray)[ZoneIndex(size)] == [] && old(zoneFree) == [] ==>
        k == 0 && LowestRun(old(pages.runs), z, zonePages)
      ensures 0 < size < zoneLimit ==> (r == NULL <==>
        && old(zoneArray)[ZoneIndex(size)] == [] && old(zoneFree) == []
        && forall a: nat :: !(Range(a, zonePages) <= Pages(old(pages.runs))))
      ensures size >= zoneLimit ==> (r == NULL <==>
        PagesFor(size) == 0 || forall a: nat :: !(Range(a, PagesFor(size)) <= Pages(old(pages.runs))))
    {
      hide PagesOk, UsageOk, ListsOk, ZonesOk, OnlyChunk, Live, Range, Pages, ChunkSize, PagesFor;
      z, k := 0, 0;
      if size == 0 {
        return NULL, z, k;
      }
      if size >= zoneLimit {
        PagesForIs(size);
        var npages := PagesFor(size);
        var p := MallocLarge(npages);
        if p == NULL {
          return NULL, z, k;
        }
        return p * PAGE, z, k;
      }
      r, z, k := MallocSmall(size);
    }

    // ----- freeing

    // rt_free of a large block.
    method FreeLarge(p: nat)
      requires Valid() && p in held && p !in zones
      modifies this`usage, this`held, this`owner, pages
      ensures Valid() && held == old(held) - {p} && usage == old(usage)[p := Large(0)]
    {
      hide PagesOk, ZonesOk, ListsOk, Range, Pages;
      var n := usage[p].n;
      HeldPositive(held, owner, Pages(pages.runs));
      HoldLess(held, owner, Pages(pages.runs), p);
      UsageWithout(zones.Keys, held, usage, p, usage[p := Large(0)]);
      usage := usage[p := Large(0)];
      pages.Free(p, n);
      held, owner := held - {p}, owner - Range(p, n);
      assert zones.Keys - {p} == zones.Keys;
    }

    // Take zone z out of a list.
    method RemoveFromList(list: seq<nat>, z: nat) returns (rest: seq<nat>)
      requires Different(list) && z in list
      ensures Different(rest) && forall x :: x in rest <==> x in list && x != z
    {
      var i := 0;
      while list[i] != z
        invariant 0 <= i < |list| && z !in list[..i]
        decreases |list| - i
      {
        assert list[..i + 1] == list[..i] + [list[i]];
        assert list == list[..i + 1] + list[i + 1..];
        i := i + 1;
      }
      WithoutOne(list, i);
      rest := list[..i] + list[i + 1..];
    }

    // What freeing chunk k of zone z does with the zone.  It stays unless it has become free and another
    // zone of its class has a free chunk; then it is cached, or given back if the cache is full.
    twostate predicate ZoneAfterFree(z: nat, k: nat)
      reads this
      requires z in old(zones) && old(zones)[z].index < |old(zoneArray)|
    {
      var v := AfterPut(old(zones)[z], k);
      if v.nfree == v.nmax && Another(old(zoneArray)[v.index], z) then
        if |old(zoneFree)| < KEPT_ZONES then
          zones == old(zones)[z := v] && zoneFree == [z] + old(zoneFree) && held == old(held)
        else
          zones == old(zones) - {z} && zoneFree == old(zoneFree) && held == old(held) - {z}
      else
        zones == old(zones)[z := v] && zoneFree == old(zoneFree) && held == old(held)
    }

    // rt_free of chunk k of zone z.
    method FreeSmall(z: nat, k: nat)
      requires Valid() && Live(zones, zoneFree, z, k)
      modifies this, pages
      ensures Valid()
      ensures z in old(zones) && old(zones)[z].index < |old(zoneArray)| && ZoneAfterFree(z, k)
      ensures !Live(zones, zoneFree, z, k) && OnlyChunk(old(zones), old(zoneFree), zones, zoneFree, z, k)
      ensures SameLarge(old(zones), old(held), zones, held)
    {
      hide PagesOk, UsageOk, ListsOk, ZoneOk, LiveIn, AfterPut, OnlyChunk, Range, Pages;
      ZonesThere();
      var v := zones[z];
      LiveRecord(zonePages, zones, zoneFree, z, k);
      PutKeepsZone(zonePages, z, v, k);
      PutRecord(v, k);
      ChangeOne(zones, zoneFree, z, AfterPut(v, k), k);
      var list := zoneArray[v.index];
      ListOfZone(zones, zoneArray, zoneFree, z);
      if v.nfree == 0 {
        list := [z] + list;
      }
      v := AfterPut(v, k);
      AllFree(zonePages, z, v);
      ChangeListed(zones, zoneArray, zoneFree, z, v, list);
      zoneArray := zoneArray[v.index := list];
      zones := zones[z := v];
      assert zones.Keys == old(zones).Keys;
      OthersListed(old(zoneArray)[v.index], list, z);
      if v.nfree == v.nmax && (|list| > 1 || list[0] != z) {
        ghost var mid := zones;
        ghost var cache := zoneFree;
        RetireZone(z, list);
        OnlyChunkThen(old(zones), old(zoneFree), mid, cache, zones, zoneFree, z, k);
      }
    }

    // Zone z has become free and there is another zone of its class.
    method RetireZone(z: nat, list: seq<nat>)
      requires Valid() && z in zones && z !in zoneFree && zones[z].index < NZONES
      requires list == zoneArray[zones[z].index] && z in list && Different(list) && forall k :: !LiveIn(zones[z], k)
      modifies this, pages
      ensures Valid()
      ensures if |old(zoneFree)| < KEPT_ZONES then zones == old(zones) && zoneFree == [z] + old(zoneFree) && held == old(held)
              else zones == old(zones) - {z} && zoneFree == old(zoneFree) && held == old(held) - {z}
      ensures forall y, k :: Live(zones, zoneFree, y, k) <==> Live(old(zones), old(zoneFree), y, k)
      ensures forall y :: y in zones ==> y in old(zones) && zones[y] == old(zones)[y]
      ensures SameLarge(old(zones), old(held), zones, held)
    {
      hide PagesOk, UsageOk, ListsOk, ZoneOk, LiveIn, Range, Pages;
      var rest := RemoveFromList(list, z);
      CacheBound(zones, zoneArray, zoneFree);
      ListOfZone(zones, zoneArray, zoneFree, z);
      Retire(zones, zoneArray, zoneFree, z, rest);
      zoneArray := zoneArray[zones[z].index := rest];
      zoneFree := [z] + zoneFree;
      if |zoneFree| > KEPT_ZONES {
        zoneFree := zoneFree[1..];
        ReleaseZone(z);
      }
    }

    // Give the pages of a zone back.
    method ReleaseZone(z: nat)
      requires Params() && pages.Valid() && PagesOk(held, owner, Pages(pages.runs)) && UsageOk(zones.Keys, held, usage)
      requires Pages(pages.runs) + owner.Keys == all
      requires (forall y :: y in zones ==> y in held && held[y] == zonePages) && z in zones && z !in zoneFree
      modifies this`zones, this`usage, this`held, this`owner, pages
      ensures Params() && pages.Valid() && PagesOk(held, owner, Pages(pages.runs)) && UsageOk(zones.Keys, held, usage)
      ensures Pages(pages.runs) + owner.Keys == all
      ensures zones == old(zones) - {z} && held == old(held) - {z}
      ensures forall q: nat :: z <= q < z + zonePages ==> q in usage && usage[q] == FreePage
    {
      hide PagesOk, UsageOk, Range, Pages;
      HeldPositive(held, owner, Pages(pages.runs));
      HoldLess(held, owner, Pages(pages.runs), z);
      var i := 0;
      while i < zonePages
        invariant 0 <= i <= zonePages
        invariant forall q: nat :: q in old(usage) && !(z <= q < z + zonePages) ==> q in usage && usage[q] == old(usage)[q]
        invariant forall q: nat :: z <= q < z + i ==> q in usage && usage[q] == FreePage
        modifies this`usage
      {
        usage := usage[z + i := FreePage];
        i := i + 1;
      }
      UsageWithout(zones.Keys, held, old(usage), z, usage);
      pages.Free(z, zonePages);
      zones := zones - {z};
      held, owner := held - {z}, owner - Range(z, zonePages);
      assert zones.Keys == old(zones).Keys - {z};
    }

    // rt_free.  The usage table tells what the pointer is: chunk k of zone z, or the start of a large block.
    method Free(p: int, ghost z: nat, ghost k: nat)
      requires Valid()
      requires p == NULL || (Live(zones, zoneFree, z, k) && p == Addr(zones, z, k)) || IsLarge(p)
      modifies this, pages
      ensures Valid()
      ensures p == NULL ==> zones == old(zones) && held == old(held) && zoneFree == old(zoneFree)
      ensures old(IsLarge(p)) ==> held == old(held) - {p / PAGE} && zones == old(zones) && zoneFree == old(zoneFree)
      ensures p != NULL && !old(IsLarge(p)) ==>
        && !Live(zones, zoneFree, z, k) && OnlyChunk(old(zones), old(zoneFree), zones, zoneFree, z, k)
        && SameLarge(old(zones), old(held), zones, held)
        && z in old(zones) && old(zones)[z].index < |old(zoneArray)| && ZoneAfterFree(z, k)
    {
      hide PagesOk, ListsOk, ZonesOk, OnlyChunk, Live, Range, Pages, Addr;
      if p == NULL {
        return;
      }
      if !IsLarge(p) {
        UsageLeadsHome(zonePages, held, usage, zones, zoneFree, z, k);
        AddrPositive(zones, z, k);
      }
      var page := p / PAGE;
      if usage[page].Large? {
        FreeLarge(page);
        return;
      }
      var zone := page - usage[page].off;
      ChunkNumber(zone, k);
      FreeSmall(zone, (p - zones[zone].base) / zones[zone].chunkSize);
    }

    // Allocate, copy and free, as rt_realloc does when it cannot leave the block where it is.
    method Move(p: int, size: nat, osize: nat, ghost z: nat, ghost k: nat)
      returns (r: int, copied: nat, ghost z': nat, ghost k': nat)
      requires Valid() && 0 < size < HeapBytes.SIZE_MODULUS
      requires IsLarge(p) || (Live(zones, zoneFree, z, k) && p == Addr(zones, z, k))
      modifies this, pages
      ensures Valid()
      ensures r == NULL ==> zones == old(zones) && zoneFree == old(zoneFree) && held == old(held)
      ensures r != NULL ==> copied == (if size < osize then size else osize) && IsBlock(r, z', k', size)
      ensures r != NULL && !old(IsLarge(p)) ==>
        && !Live(zones, zoneFree, z, k)
        && ChunksKept(old(zones), old(zoneFree), zones, zoneFree, z, k) && LargeKept(old(zones), old(held), zones, held, NULL)
      ensures r != NULL && old(IsLarge(p)) ==>
        && p / PAGE !in held
        && ChunksKept(old(zones), old(zoneFree), zones, zoneFree, z', k') && LargeKept(old(zones), old(held), zones, held, p / PAGE)
    {
      hide PagesOk, UsageOk, ListsOk, ZonesOk, ZoneOk, Range, Pages, ChunkSize, LiveIn;
      copied := 0;
      LiveNotLargeNow(z, k);
      r, z', k' := Malloc(size);
      if r == NULL {
        return;
      }
      ghost var mid, cache, pagesHeld := zones, zoneFree, held;
      TookBlock(old(zones), old(zoneFree), old(held), mid, cache, pagesHeld, r, z', k', size, zoneLimit);
      LiveNotLargeNow(z, k);
      LiveNotLargeNow(z', k');
      copied := if size < osize then size else osize;
      Free(p, z, k);
      if old(IsLarge(p)) {
        MovedFromPages(old(zones), old(zoneFree), old(held), mid, cache, pagesHeld, p / PAGE, r, z', k', size);
      } else {
        MovedFromChunk(old(zones), old(zoneFree), old(held), mid, cache, pagesHeld, zones, zoneFree, held, z, k, r, z', k', size);
      }
    }

    lemma LiveNotLargeNow(z: nat, k: nat)
      requires Valid()
      ensures Live(zones, zoneFree, z, k) ==> z in zones && !IsLarge(Addr(zones, z, k))
    {
      if Live(zones, zoneFree, z, k) {
        LiveNotLarge(zonePages, held, owner, Pages(pages.runs), zones, zoneFree, z, k);
      }
    }

    // rt_realloc.  Chunk k of zone z or a large block; the first `copied` bytes are copied.
    method Realloc(p: int, size: nat, ghost z: nat, ghost k: nat)
      returns (r: int, copied: nat, ghost z': nat, ghost k': nat)
      requires Valid() && size < HeapBytes.SIZE_MODULUS
      requires p == NULL || IsLarge(p) || (Live(zones, zoneFree, z, k) && p == Addr(zones, z, k))
      modifies this, pages
      ensures Valid()
      // a request that fails leaves the block alone
      ensures r == NULL && size > 0 ==> zones == old(zones) && zoneFree == old(zoneFree) && held == old(held)
      ensures r != NULL ==> size > 0 && IsBlock(r, z', k', size)
      // a request for nothing frees it, and without a block this is rt_malloc
      ensures size == 0 && p != NULL && old(IsLarge(p)) ==>
        r == NULL && held == old(held) - {p / PAGE} && zones == old(zones) && zoneFree == old(zoneFree)
      ensures size == 0 && p != NULL && !old(IsLarge(p)) ==>
        && r == NULL && !Live(zones, zoneFree, z, k)
        && OnlyChunk(old(zones), old(zoneFree), zones, zoneFree, z, k) && SameLarge(old(zones), old(held), zones, held)
      ensures r != NULL && p == NULL ==> AllKept(old(zones), old(zoneFree), old(held), zones, zoneFree, held)
      // the block stays, or as much as fits of its bytes is copied
      ensures r != NULL && p != NULL && !old(IsLarge(p)) ==>
        if old(zones[z].chunkSize) == (if size < 16384 then ChunkSize(size) else size) then
          r == p && zones == old(zones) && zoneFree == old(zoneFree) && held == old(held)
        else
          && copied == Smaller(if size < 16384 then ChunkSize(size) else size, old(zones[z].chunkSize))
          && !Live(zones, zoneFree, z, k)
          && ChunksKept(old(zones), old(zoneFree), zones, zoneFree, z, k) && LargeKept(old(zones), old(held), zones, held, NULL)
      ensures r != NULL && p != NULL && old(IsLarge(p)) ==>
        copied == (if size < old(held[p / PAGE]) * PAGE then size else old(held[p / PAGE]) * PAGE) && p / PAGE !in held
        && ChunksKept(old(zones), old(zoneFree), zones, zoneFree, z', k') && LargeKept(old(zones), old(held), zones, held, p / PAGE)
    {
      hide PagesOk, ListsOk, ZonesOk, ZoneOk, OnlyChunk, Live, Range, Pages, Addr, ChunkSize, ChunksKept, LargeKept, IsBlock, SameLarge, AllKept, BlockAt;
      r, copied, z', k' := NULL, 0, z, k;
      if p == NULL {
        r, z', k' := Malloc(size);
        if r != NULL {
          TookBlock(old(zones), old(zoneFree), old(held), zones, zoneFree, held, r, z', k', size, zoneLimit);
          AsBlock(r, z', k', size);
        }
        return;
      }
      if size == 0 {
        Free(p, z, k);
        return;
      }
      if !IsLarge(p) {
        UsageLeadsHome(zonePages, held, usage, zones, zoneFree, z, k);
        AddrPositive(zones, z, k);
      }
      var page := p / PAGE;
      if usage[page].Large? {
        r, copied, z', k' := Move(p, size, usage[page].n * PAGE, z, k);
      } else {
        var zone := page - usage[page].off;
        var wanted := Rounded(size);
        RoundedIs(size);
        if zones[zone].chunkSize == wanted {
          SameChunk(p, z, k, size);
          return p, 0, z, k;
        }
        r, copied, z', k' := Move(p, wanted, zones[zone].chunkSize, z, k);
        SmallerBlock(r, z', k', size, wanted);
      }
    }

    // `p` is chunk k of zone z or a large block, and has room for `size` bytes.
    ghost predicate IsBlock(p: int, z: nat, k: nat, size: nat)
      reads this`held, this`zones, this`zoneFree
    {
      BlockAt(zones, zoneFree, held, p, z, k, size)
    }

    // `p` is the address of a large block.
    ghost predicate IsLarge(p: int)
      reads this`held, this`zones
    {
      LargeAt(zones, held, p)
    }

    lemma AsBlock(p: int, z: nat, k: nat, size: nat)
      requires BlockAt(zones, zoneFree, held, p, z, k, size)
      ensures IsBlock(p, z, k, size)
    {
    }

    lemma SmallerBlock(p: int, z: nat, k: nat, size: nat, wanted: nat)
      requires size <= wanted
      ensures IsBlock(p, z, k, wanted) ==> IsBlock(p, z, k, size)
    {
    }

    lemma SameChunk(p: int, z: nat, k: nat, size: nat)
      requires Live(zones, zoneFree, z, k) && p == Addr(zones, z, k) && size <= zones[z].chunkSize
      ensures IsBlock(p, z, k, size)
    {
    }

    lemma ChunkNumber(z: nat, k: nat)
      requires Valid() && Live(zones, zoneFree, z, k)
      ensures z in zones && zones[z].chunkSize > 0 && Addr(zones, z, k) >= zones[z].base
      ensures (Addr(zones, z, k) - zones[z].base) / zones[z].chunkSize == k
    {
      hide PagesOk, UsageOk, ListsOk, ZonesOk, ZoneOk, Live, Addr, Pages;
      UsageLeadsHome(zonePages, held, usage, zones, zoneFree, z, k);
      FromBase(zones, z, k);
    }
  }

  lemma TookBlock(zones: Zones, cached: seq<nat>, held: map<nat, nat>, zones': Zones, cached': seq<nat>, held': map<nat, nat>,
                  r: int, z: nat, k: nat, size: nat, limit: nat)
    requires size < limit ==>
      && z in zones' && r == Addr(zones', z, k) && size <= zones'[z].chunkSize
      && !Live(zones, cached, z, k) && Live(zones', cached', z, k)
      && OnlyChunk(zones, cached, zones', cached', z, k) && SameLarge(zones, held, zones', held')
    requires size >= limit ==>
      && r >= 0 && r % PAGE == 0 && r / PAGE !in held && r / PAGE !in zones && zones' == zones && cached' == cached
      && held' == held[r / PAGE := PagesFor(size)] && size <= PagesFor(size) * PAGE
    ensures AllKept(zones, cached, held, zones', cached', held') && BlockAt(zones', cached', held', r, z, k, size)
    ensures if size < limit then !Live(zones, cached, z, k)
            else LargeAt(zones', held', r) && r / PAGE !in held && size <= held'[r / PAGE] * PAGE
  {
    hide Live, Addr;
    if size < limit {
      TookChunk(zones, cached, held, zones', cached', held', z, k);
    } else {
      TookPages(zones, cached, held, r / PAGE, PagesFor(size));
    }
  }

  predicate Another(list: seq<nat>, z: nat) { exists y :: y in list && y != z }

  // The test of rt_free for other zones on the list of z.
  lemma OthersListed(was: seq<nat>, list: seq<nat>, z: nat)
    requires Different(list) && z in list && (list == was || list == [z] + was)
    ensures (|list| > 1 || list[0] != z) <==> Another(was, z)
  {
    if list[0] != z {
      assert list[0] in list;
    } else if |list| > 1 {
      assert list[1] in list && list[1] != z;
    } else {
      assert list == [z];
    }
  }

  lemma FromBase(zones: Zones, z: nat, k: nat)
    requires z in zones
    ensures Addr(zones, z, k) >= zones[z].base
  {
    MulNat(k, zones[z].chunkSize);
  }

  lemma AddrPositive(zones: Zones, z: nat, k: nat)
    requires z in zones
    ensures Addr(zones, z, k) >= 0
  {
  }

  lemma RoundedIs(size: nat)
    requires 0 < size < HeapBytes.SIZE_MODULUS
    ensures size <= Rounded(size) < HeapBytes.SIZE_MODULUS
  {
    if size < 16384 { ChunkSizeIs(size); }
  }

  function PagesFor(size: nat): nat { HeapBytes.AlignUp(size, PAGE) / PAGE }

  // The number of pages of a large request; a request that wraps around asks for none.
  lemma PagesForIs(size: nat)
    requires 0 < size < HeapBytes.SIZE_MODULUS
    ensures PagesFor(size) > 0 ==> size <= PagesFor(size) * PAGE
    ensures PagesFor(size) == 0 <==> size > HeapBytes.SIZE_MODULUS - PAGE
  {
    HeapBytes.RoundsToZero(size, PAGE);
    if HeapBytes.AlignUp(size, PAGE) > 0 { HeapBytes.AlignUpIsEnough(size, PAGE); }
  }

  lemma LiveRecord(zp: nat, zones: Zones, cached: seq<nat>, z: nat, k: nat)
    requires ZonesOk(zp, zones, cached) && Live(zones, cached, z, k)
    ensures z in zones && z !in cached && ZoneOk(zp, z, zones[z]) && zones[z].index < NZONES && LiveIn(zones[z], k)
  {
  }

  lemma PutRecord(v: Zone, k: nat)
    ensures AfterPut(v, k).index == v.index && AfterPut(v, k).base == v.base && AfterPut(v, k).chunkSize == v.chunkSize
    ensures AfterPut(v, k).nfree == v.nfree + 1 && AfterPut(v, k).nmax == v.nmax
  {
  }

  lemma ListOfZone(zones: Zones, lists: seq<seq<nat>>, cached: seq<nat>, z: nat)
    requires ListsOk(zones, lists, cached) && z in zones && z !in cached && zones[z].index < NZONES
    ensures |lists| == NZONES && Different(lists[zones[z].index])
    ensures z in lists[zones[z].index] <==> zones[z].nfree > 0
    ensures z !in lists[zones[z].index] ==> Different([z] + lists[zones[z].index])
  {
    assert z in lists[zones[z].index] <==> OnList(zones, cached, zones[z].index, z);
  }

  lemma CacheBound(zones: Zones, lists: seq<seq<nat>>, cached: seq<nat>)
    requires ListsOk(zones, lists, cached)
    ensures |cached| <= KEPT_ZONES && |lists| == NZONES
  {
  }

  lemma HeldPositive(held: map<nat, nat>, owner: map<nat, nat>, free: set<nat>)
    requires PagesOk(held, owner, free)
    ensures forall p :: p in held ==> held[p] > 0
  {
  }

  lemma ListsLength(zones: Zones, lists: seq<seq<nat>>, cached: seq<nat>)
    requires ListsOk(zones, lists, cached)
    ensures |lists| == NZONES
  {
  }

  lemma HeadOfList(zones: Zones, lists: seq<seq<nat>>, cached: seq<nat>, i: nat)
    requires ListsOk(zones, lists, cached) && i < NZONES && lists[i] != []
    ensures |lists| == NZONES && OnList(zones, cached, i, lists[i][0])
    ensures Different(lists[i]) && Different(lists[i][1..])
    ensures forall x :: x in lists[i][1..] <==> x in lists[i] && x != lists[i][0]
  {
    assert lists[i][0] in lists[i];
    RestDiffers(lists[i]);
  }

  lemma CacheHead(zones: Zones, lists: seq<seq<nat>>, cached: seq<nat>)
    requires ListsOk(zones, lists, cached) && cached != []
    ensures cached[0] in zones && forall x :: x in cached <==> x == cached[0] || x in cached[1..]
  {
    RestDiffers(cached);
    assert cached[0] in cached;
  }

  lemma SameRecord(v: Zone, k: nat)
    requires v.nfree > 0
    ensures AfterTake(v).index == v.index && AfterTake(v).base == v.base && AfterTake(v).chunkSize == v.chunkSize
    ensures AfterTake(v).nfree == v.nfree - 1
  {
  }

  // ----- powers of two above the page size

  // For every power of two above the page size there is a heap that returns a block of that size at an
  // address that is not a multiple of it.
  method MisalignedBlock(s: nat) returns (heap: SlabHeap, r: int)
    requires s > PAGE && s % (2 * PAGE) == 0 && s <= 0x8000_0000
    ensures fresh(heap) && heap.Valid() && heap.IsLarge(r) && heap.held[r / PAGE] == s / PAGE && r % s != 0
  {
    hide PagesOk, UsageOk, ListsOk, ZonesOk, OnlyChunk, Live, Range, Pages, TablePages, PagesFor, LowestRun, ChunkSize, ZoneIndex, SameLarge, ZoneSizeFor;
    var npages := s / PAGE + s / PAGE / 512 + 2;
    RoomAfterTable(s);
    var table := TablePages(npages);
    ghost var first: nat;
    heap, first := HeapFromOdd(npages, table);
    OnlyRun(first, npages - table, s / PAGE);
    ghost var z, k;
    r, z, k := heap.Malloc(s);
    OddIsNoMultiple(first, s);
  }

  // A heap whose first free page is an odd one.
  method HeapFromOdd(npages: nat, table: nat) returns (heap: SlabHeap, ghost first: nat)
    requires npages > 0 && table == TablePages(npages) < npages
    ensures fresh(heap) && fresh(heap.pages) && heap.Valid() && heap.zones == map[] && heap.held == map[]
    ensures heap.zoneSize == ZoneSizeFor(npages) && heap.zoneLimit == if heap.zoneSize / 4 > 16384 then 16384 else heap.zoneSize / 4
    ensures first % 2 == 1 && heap.pages.runs == [Run(first, npages - table)]
  {
    hide PagesOk, UsageOk, ListsOk, ZonesOk, Range, Pages, TablePages, ZoneSizeFor;
    var start := if table % 2 == 0 then 1 else 2;
    heap := new SlabHeap(start, npages);
    first := start + table;
  }

  lemma RoomAfterTable(s: nat)
    requires s > PAGE && s % (2 * PAGE) == 0 && s <= 0x8000_0000
    ensures var n := s / PAGE; var npages := n + n / 512 + 2;
      && npages > TablePages(npages) && npages - TablePages(npages) >= n && PagesFor(s) == n > 0
      && (s == 8192 ==> ZoneSizeFor(npages) == 32768) && (s > 8192 ==> s >= 16384)
  {
    hide HeapBytes.AlignUp, TablePages, ZoneSizeFor, PagesFor;
    RoomFor(s / PAGE);
    WholePages(s / PAGE);
    assert s == s / PAGE * PAGE;
  }

  lemma RoomFor(n: nat)
    requires n >= 2
    ensures var npages := n + n / 512 + 2;
      && npages > TablePages(npages) && npages - TablePages(npages) >= n && (n == 2 ==> ZoneSizeFor(npages) == 32768)
  {
  }

  lemma WholePages(n: nat)
    requires 0 < n <= 0x8_0000
    ensures PagesFor(n * PAGE) == n
  {
    DivMul(n, PAGE);
    Euclid(n * PAGE + PAGE - 1, PAGE);
    SameQuotient(n, PAGE - 1, (n * PAGE + PAGE - 1) / PAGE, (n * PAGE + PAGE - 1) % PAGE, PAGE);
  }

  lemma OnlyRun(first: nat, len: nat, n: nat)
    requires 0 < n <= len
    ensures Range(first, n) <= Pages([Run(first, len)])
    ensures forall p: nat :: LowestRun([Run(first, len)], p, n) ==> p == first
  {
    OnePages(Run(first, len));
  }

  lemma OddIsNoMultiple(first: nat, s: nat)
    requires first % 2 == 1 && s > 0 && s % (2 * PAGE) == 0
    ensures first * PAGE % s != 0
  {
    var x, m := first * PAGE, s / (2 * PAGE);
    if x % s == 0 {
      Euclid(x, s);
      Euclid(s, 2 * PAGE);
      EvenMultiple(first, m, x / s);
    }
  }

  lemma EvenMultiple(first: nat, m: nat, q: nat)
    requires first * PAGE == q * (m * (2 * PAGE))
    ensures first % 2 == 0
  {
    assert q * (m * (2 * PAGE)) == q * m * (2 * PAGE);
  }

  // With zones of 64 kB also chunks of 8 kB can be misaligned: here is the first one of a heap of 20000 pages.
  method MisalignedChunk() returns (heap: SlabHeap, r: int, ghost z: nat)
    ensures fresh(heap) && heap.Valid() && r % 8192 != 0
    ensures Live(heap.zones, heap.zoneFree, z, 0) && r == Addr(heap.zones, z, 0) && heap.zones[z].chunkSize == 8192
  {
    hide PagesOk, UsageOk, ListsOk, ZonesOk, OnlyChunk, Live, Range, Pages, LowestRun, SameLarge;
    heap := new SlabHeap(1, 20000);
    OnlyRun(21, 19980, 16);
    ghost var k;
    r, z, k := heap.Malloc(8192);
    ChunkBase(heap, z);
  }

  lemma ChunkBase(heap: SlabHeap, z: nat)
    requires heap.Valid() && Live(heap.zones, heap.zoneFree, z, 0) && heap.zones[z].chunkSize == 8192
    ensures Addr(heap.zones, z, 0) == z * PAGE + 8192
  {
    assert ZoneOk(heap.zonePages, z, heap.zones[z]);
    assert ChunksFrom(8192) == 8192;
  }
}
