/**
 * What close leaves on the disk, after every single sector write: the file it
 * closes, and every other file.  The phases are growing the chain, writing the
 * data and recording the size; or, for a size of zero, freeing the chain.
 */
module FatClose {
  import opened Wrappers
  import opened Octets
  import opened FatDisk
  import opened FatChains
  import opened FatData
  import opened FatDirs
  import opened FatVolume
  import opened FatGrowth

  // ---------- what close keeps on disk ----------

  // The directory is on the disk, and the entry of that name starts at cluster c.
  ghost predicate EntryNames(t: Disk, b: Bpb, dir: seq<nat>, name: Name, c: nat) {
    && OnDisk(t, Lbas(b, dir)) && Lookup(DirBytes(t, b, dir), name).Some?
    && Lookup(DirBytes(t, b, dir), name).value.entry.firstCluster == c
  }

  // The file's chain is well formed, its directory entry names it, and it is large enough for the size there.
  ghost predicate Healthy(t: Disk, b: Bpb, g: seq<nat>, first: nat, dir: seq<nat>, name: Name) {
    && Mounted(t, b)
    && IsChain(Fat(t, b), g) && g[0] == first
    && EntryNames(t, b, dir, name, first)
    && Lookup(DirBytes(t, b, dir), name).value.entry.size <= 512 * |Lbas(b, g)|
  }

  // The directory reads as before.
  ghost predicate SameDir(d: Disk, t: Disk, b: Bpb, dir: seq<nat>) {
    OnDisk(d, Lbas(b, dir)) && OnDisk(t, Lbas(b, dir)) && DirBytes(t, b, dir) == DirBytes(d, b, dir)
  }

  // The entry of that name differs from before in its size alone.
  ghost predicate Resized(d: Disk, t: Disk, b: Bpb, dir: seq<nat>, name: Name, size: nat) {
    && OnDisk(d, Lbas(b, dir)) && OnDisk(t, Lbas(b, dir)) && Lookup(DirBytes(d, b, dir), name).Some?
    && var f := Lookup(DirBytes(d, b, dir), name).value;
       Lookup(DirBytes(t, b, dir), name) == Some(f.(entry := f.entry.(size := size)))
  }

  lemma PatchResizes(d: Disk, mid: Disk, b: Bpb, dir: seq<nat>, name: Name, size: nat, t: Disk)
    requires SameDir(d, mid, b, dir) && Patched(mid, b, dir, Resize(size), name, t) && size < 0x1_0000_0000
    ensures Resized(d, t, b, dir, name, size)
  {
    hide Lbas, DirBytes, Lookup, Apply;
    ResizeLookup(size, DirBytes(mid, b, dir), name);
    PatchedOnDisk(mid, b, dir, Resize(size), name, t);
    assert size % 0x1_0000_0000 == size;
  }

  // Each sector of the chain is as on d, or carries its share of data.
  ghost predicate OldOrNew(d: Disk, t: Disk, b: Bpb, g: seq<nat>, data: seq<Byte>) {
    && |t| == |d|
    && forall k :: 0 <= k < |Lbas(b, g)| && Lbas(b, g)[k] < |d| ==>
         SectorOldOrNew(d[Lbas(b, g)[k]], t[Lbas(b, g)[k]], data, k)
  }

  ghost predicate SectorOldOrNew(was: Sector, now: Sector, data: seq<Byte>, k: nat) {
    now == was || (512 * k <= |data| && now == Overlay(was, Chunk(data, k)))
  }

  // What a crash at t leaves behind.
  ghost predicate Safe(d: Disk, t: Disk, b: Bpb, first: nat, dir: seq<nat>, name: Name, g: seq<nat>, data: seq<Byte>) {
    && (exists h :: Healthy(t, b, h, first, dir, name))
    && OldOrNew(d, t, b, g, data)
  }

  // The file and its directory before close.
  ghost predicate Ready(d: Disk, b: Bpb, a: seq<nat>, dir: seq<nat>, name: Name) {
    && a != [] && a[0] < b.Eoc() && Healthy(d, b, a, a[0], dir, name)
    && |a| <= CHAIN_LIMIT
    && Apart(d, b, a, dir)
  }

  // A directory chain in use that shares no cluster with the file.
  ghost predicate Apart(d: Disk, b: Bpb, a: seq<nat>, dir: seq<nat>)
    requires Mounted(d, b)
  {
    && Distinct(dir) && DataClusters(dir)
    && (forall c :: c in dir ==> c < b.Eoc() && Fat(d, b)[c] != 0 && c !in a)
  }

  lemma DirSame(d: Disk, t: Disk, b: Bpb, dir: seq<nat>)
    requires OnDisk(d, Lbas(b, dir)) && |t| == |d|
    requires forall k :: 0 <= k < |Lbas(b, dir)| ==> t[Lbas(b, dir)[k]] == d[Lbas(b, dir)[k]]
    ensures OnDisk(t, Lbas(b, dir)) && DirBytes(t, b, dir) == DirBytes(d, b, dir)
  {
    hide Lbas;
    var n := 512 * |Lbas(b, dir)|;
    assert forall i :: 0 <= i < n ==> Bytes(t, Lbas(b, dir), n)[i] == Bytes(d, Lbas(b, dir), n)[i];
  }

  lemma TableOnlyDir(d: Disk, t: Disk, b: Bpb, dir: seq<nat>)
    requires OnDisk(d, Lbas(b, dir)) && TableOnly(d, t, b)
    ensures OnDisk(t, Lbas(b, dir)) && DirBytes(t, b, dir) == DirBytes(d, b, dir)
  {
    hide Lbas, DirBytes;
    forall k | 0 <= k < |Lbas(b, dir)|
      ensures t[Lbas(b, dir)[k]] == d[Lbas(b, dir)[k]]
    {
      LbasInData(b, dir, k);
    }
    DirSame(d, t, b, dir);
  }

  lemma TableOnlyData(d: Disk, t: Disk, b: Bpb, g: seq<nat>, data: seq<Byte>)
    requires TableOnly(d, t, b)
    ensures OldOrNew(d, t, b, g, data)
  {
    hide Lbas;
    forall k | 0 <= k < |Lbas(b, g)| && Lbas(b, g)[k] < |d|
      ensures t[Lbas(b, g)[k]] == d[Lbas(b, g)[k]]
    {
      LbasInData(b, g, k);
    }
  }

  // While the chain grows from its last cluster.
  lemma GrowthSafe(d: Disk, b: Bpb, a: seq<nat>, dir: seq<nat>, name: Name, t: Disk, g: seq<nat>, data: seq<Byte>)
    requires Ready(d, b, a, dir, name) && |a| == 1
    requires TableOnly(d, t, b) && Seen(Fat(d, b), a[0], Fat(t, b))
    ensures Safe(d, t, b, a[0], dir, name, g, data)
  {
    hide Lbas, DirBytes, Fat, TableOnly, Seen, OldOrNew, Lookup;
    TableOnlyLength(d, t, b);
    var h := SeenChain(Fat(d, b), a, Fat(t, b));
    LbasPrefix(b, a, h);
    TableOnlyDir(d, t, b, dir);
    TableOnlyData(d, t, b, g, data);
    assert Healthy(t, b, h, a[0], dir, name);
  }

  // The chain close writes to, once grown.
  lemma GrownHealthy(d: Disk, b: Bpb, a: seq<nat>, dir: seq<nat>, name: Name, x: seq<nat>, e: Disk)
    requires Ready(d, b, a, dir, name) && (x == [] || |a| == 1) && GrownTo(d, b, a[0], x, e)
    ensures Healthy(e, b, a + x, a[0], dir, name) && Apart(e, b, a + x, dir)
  {
    hide Lbas, DirBytes, Fat, TableOnly, Lookup;
    assert |e| == |d| by {
      TableOnlyLength(d, e, b);
    }
    GrownIff(Fat(d, b), a, x);
    LbasPrefix(b, a, a + x);
    TableOnlyDir(d, e, b, dir);
    forall c | c in dir
      ensures Fat(e, b)[c] != 0 && c !in a + x
    {
      LinkedInUse(Fat(d, b), a[0], x, c);
    }
  }

  lemma TableOnlyLength(d: Disk, e: Disk, b: Bpb)
    requires TableOnly(d, e, b)
    ensures |e| == |d|
  {
  }

  // Writing the sectors of g leaves the table alone, and a directory that shares no cluster with it.
  lemma FlushFrames(e: Disk, b: Bpb, g: seq<nat>, dir: seq<nat>, data: seq<Byte>, j: nat)
    requires Mounted(e, b) && DataClusters(g) && DataClusters(dir) && OnDisk(e, Lbas(b, dir))
    requires forall c :: c in dir ==> c !in g
    requires j <= |Lbas(b, g)| && OnDisk(e, Lbas(b, g)[..j]) && 512 * j < |data| + 512
    ensures Fat(Flushed(e, Lbas(b, g), data, j), b) == Fat(e, b)
    ensures OnDisk(Flushed(e, Lbas(b, g), data, j), Lbas(b, dir))
    ensures DirBytes(Flushed(e, Lbas(b, g), data, j), b, dir) == DirBytes(e, b, dir)
  {
    hide Lbas, DirBytes;
    FlushTable(e, b, g, data, j);
    var t := Flushed(e, Lbas(b, g), data, j);
    forall k | 0 <= k < |Lbas(b, dir)|
      ensures t[Lbas(b, dir)[k]] == e[Lbas(b, dir)[k]]
    {
      DirUntouched(b, g, dir, j, k);
      FlushedFrame(e, Lbas(b, g), data, j, Lbas(b, dir)[k]);
    }
    DirSame(e, t, b, dir);
  }

  lemma FlushTable(e: Disk, b: Bpb, g: seq<nat>, data: seq<Byte>, j: nat)
    requires Mounted(e, b) && j <= |Lbas(b, g)| && OnDisk(e, Lbas(b, g)[..j]) && 512 * j < |data| + 512
    ensures Fat(Flushed(e, Lbas(b, g), data, j), b) == Fat(e, b)
  {
    hide Lbas;
    var t := Flushed(e, Lbas(b, g), data, j);
    forall lba | 0 <= lba < b.baseSector + b.dataStartSector
      ensures t[lba] == e[lba]
    {
      TableUntouched(b, g, j, lba);
      FlushedFrame(e, Lbas(b, g), data, j, lba);
    }
    ViewSame(e, t, b, 0);
  }

  // While the data is written.
  lemma FlushHealthy(e: Disk, b: Bpb, g: seq<nat>, first: nat, dir: seq<nat>, name: Name, data: seq<Byte>, j: nat)
    requires Healthy(e, b, g, first, dir, name) && Apart(e, b, g, dir)
    requires j <= |Lbas(b, g)| && OnDisk(e, Lbas(b, g)[..j]) && 512 * j < |data| + 512
    ensures Healthy(Flushed(e, Lbas(b, g), data, j), b, g, first, dir, name)
    ensures Apart(Flushed(e, Lbas(b, g), data, j), b, g, dir)
  {
    hide Lbas, DirBytes, Lookup, Fat;
    ChainClusters(Fat(e, b), g);
    FlushFrames(e, b, g, dir, data, j);
  }

  lemma ChainClusters(next: Table, g: seq<nat>)
    requires IsChain(next, g)
    ensures DataClusters(g) && Distinct(g)
  {
    forall i | 0 <= i < |g|
      ensures 2 <= g[i]
    {
      assert Cluster(next, g[i]);
    }
    forall i, j | 0 <= i < j < |g|
      ensures g[i] != g[j]
    {
      ChainAcyclic(next, g, i, j);
    }
  }

  lemma TableUntouched(b: Bpb, g: seq<nat>, j: nat, lba: nat)
    requires j <= |Lbas(b, g)| && lba < b.baseSector + b.dataStartSector
    ensures lba !in Lbas(b, g)[..j]
  {
    hide Lbas;
    forall k | 0 <= k < j
      ensures Lbas(b, g)[k] != lba
    {
      LbasInData(b, g, k);
    }
  }

  lemma DirUntouched(b: Bpb, g: seq<nat>, dir: seq<nat>, j: nat, k: nat)
    requires j <= |Lbas(b, g)| && k < |Lbas(b, dir)| && DataClusters(g) && DataClusters(dir)
    requires forall c :: c in dir ==> c !in g
    ensures Lbas(b, dir)[k] !in Lbas(b, g)[..j]
  {
    hide Lbas;
    forall i | 0 <= i < j
      ensures Lbas(b, g)[i] != Lbas(b, dir)[k]
    {
      LbasDisjoint(b, dir, g, k, i);
    }
  }

  lemma FlushOldOrNew(d: Disk, e: Disk, b: Bpb, g: seq<nat>, data: seq<Byte>, j: nat)
    requires TableOnly(d, e, b) && DataClusters(g) && Distinct(g)
    requires j <= |Lbas(b, g)| && OnDisk(e, Lbas(b, g)[..j]) && 512 * j < |data| + 512
    ensures OldOrNew(d, Flushed(e, Lbas(b, g), data, j), b, g, data)
  {
    hide Lbas, Flushed;
    LbasDistinct(b, g);
    var lbas := Lbas(b, g);
    forall k | 0 <= k < |lbas| && lbas[k] < |d|
      ensures SectorOldOrNew(d[lbas[k]], Flushed(e, lbas, data, j)[lbas[k]], data, k)
    {
      LbasInData(b, g, k);
      FlushedAt(e, lbas, data, j, k);
    }
  }

  // When the size is written, last.
  lemma ResizeHealthy(e: Disk, b: Bpb, g: seq<nat>, first: nat, dir: seq<nat>, name: Name, size: nat, t: Disk)
    requires Healthy(e, b, g, first, dir, name) && Apart(e, b, g, dir)
    requires Patched(e, b, dir, Resize(size), name, t) && size <= 512 * |Lbas(b, g)| && size < 0x1_0000_0000
    ensures Healthy(t, b, g, first, dir, name)
    ensures Lookup(DirBytes(t, b, dir), name).value.entry.size == size
    ensures forall k :: 0 <= k < |Lbas(b, g)| && Lbas(b, g)[k] < |e| ==> t[Lbas(b, g)[k]] == e[Lbas(b, g)[k]]
  {
    hide Lbas, DirBytes, Lookup, Apply, Fat, OnDisk;
    var raw := DirBytes(e, b, dir);
    var o := Lookup(raw, name).value.offset;
    ResizeLookup(size, raw, name);
    assert size % 0x1_0000_0000 == size;
    DirLength(e, b, dir);
    OneDirSector(e, b, dir, o / 512, t);
    ChainClusters(Fat(e, b), g);
    forall k | 0 <= k < |Lbas(b, g)| && Lbas(b, g)[k] < |e|
      ensures t[Lbas(b, g)[k]] == e[Lbas(b, g)[k]]
    {
      LbasDisjoint(b, dir, g, o / 512, k);
    }
  }

  lemma OneDirSector(e: Disk, b: Bpb, dir: seq<nat>, i: nat, t: Disk)
    requires Mounted(e, b) && i < |Lbas(b, dir)| && OnDisk(e, Lbas(b, dir)) && |t| == |e|
    requires forall lba :: 0 <= lba < |e| && lba != Lbas(b, dir)[i] ==> t[lba] == e[lba]
    ensures Fat(t, b) == Fat(e, b) && OnDisk(t, Lbas(b, dir))
  {
    hide Lbas;
    LbasInData(b, dir, i);
    ViewSame(e, t, b, 0);
  }

  // The chain is long enough for the size close computed it from.
  lemma EnoughClusters(b: Bpb, size: nat, g: seq<nat>)
    requires 0 < b.sectorsPerCluster && (size + 512 * b.sectorsPerCluster - 1) / (512 * b.sectorsPerCluster) <= |g|
    ensures size <= 512 * |Lbas(b, g)|
  {
    hide Lbas;
    Capacity(b, g);
    Ceiling(size, 512 * b.sectorsPerCluster, |g|);
  }

  lemma Capacity(b: Bpb, g: seq<nat>)
    ensures 512 * |Lbas(b, g)| == |g| * (512 * b.sectorsPerCluster)
  {
    assert 512 * (|g| * b.sectorsPerCluster) == |g| * (512 * b.sectorsPerCluster);
  }

  lemma Ceiling(size: nat, m: nat, n: nat)
    requires 0 < m && (size + m - 1) / m <= n
    ensures size <= n * m
  {
    var q := (size + m - 1) / m;
    assert size + m - 1 == q * m + (size + m - 1) % m;
    assert size <= q * m;
    if q < n {
      CopiesBelow(q, n, m);
    }
  }

  ghost predicate AllSafe(d: Disk, b: Bpb, a: seq<nat>, dir: seq<nat>, name: Name, g: seq<nat>, data: seq<Byte>,
                          log: seq<Disk>) {
    a != [] && forall t :: t in log ==> Safe(d, t, b, a[0], dir, name, g, data)
  }

  lemma AllSafeAppend(d: Disk, b: Bpb, a: seq<nat>, dir: seq<nat>, name: Name, g: seq<nat>, data: seq<Byte>,
                      log: seq<Disk>, more: seq<Disk>)
    requires AllSafe(d, b, a, dir, name, g, data, log) && AllSafe(d, b, a, dir, name, g, data, more)
    ensures AllSafe(d, b, a, dir, name, g, data, log + more)
  {
    hide Safe;
  }

  lemma GrowthAllSafe(d: Disk, b: Bpb, a: seq<nat>, dir: seq<nat>, name: Name, g: seq<nat>, data: seq<Byte>,
                      log: seq<Disk>)
    requires Ready(d, b, a, dir, name) && (log == [] || |a| == 1) && GrowthSeen(d, b, a[0], log)
    ensures AllSafe(d, b, a, dir, name, g, data, log)
  {
    hide Safe, Fat, Seen, TableOnly, Healthy;
    forall t | t in log
      ensures Safe(d, t, b, a[0], dir, name, g, data)
    {
      GrowthSafe(d, b, a, dir, name, t, g, data);
    }
  }

  lemma {:induction false} FlushLogIs(e: Disk, lbas: seq<nat>, data: seq<Byte>, k: nat, t: Disk) returns (j: nat)
    requires k <= |lbas| && OnDisk(e, lbas[..k]) && 512 * k < |data| + 512 && t in FlushLog(e, lbas, data, k)
    ensures j <= k && OnDisk(e, lbas[..j]) && t == Flushed(e, lbas, data, j)
  {
    assert lbas[..k - 1] == lbas[..k][..k - 1];
    if t == Flushed(e, lbas, data, k) {
      j := k;
    } else {
      j := FlushLogIs(e, lbas, data, k - 1, t);
    }
  }

  lemma FlushAllSafe(d: Disk, e: Disk, b: Bpb, a: seq<nat>, dir: seq<nat>, name: Name, g: seq<nat>, data: seq<Byte>,
                     k: nat)
    requires a != [] && TableOnly(d, e, b) && Healthy(e, b, g, a[0], dir, name) && Apart(e, b, g, dir)
    requires k <= |Lbas(b, g)| && OnDisk(e, Lbas(b, g)[..k]) && 512 * k < |data| + 512
    ensures AllSafe(d, b, a, dir, name, g, data, FlushLog(e, Lbas(b, g), data, k))
  {
    hide Lbas, Fat, OldOrNew, TableOnly, Apart, DirBytes, Lookup;
    ChainClusters(Fat(e, b), g);
    forall t | t in FlushLog(e, Lbas(b, g), data, k)
      ensures Safe(d, t, b, a[0], dir, name, g, data)
    {
      var j := FlushLogIs(e, Lbas(b, g), data, k, t);
      FlushHealthy(e, b, g, a[0], dir, name, data, j);
      FlushOldOrNew(d, e, b, g, data, j);
    }
  }

  lemma ResizeSafe(d: Disk, e: Disk, b: Bpb, a: seq<nat>, g: seq<nat>, dir: seq<nat>, name: Name, data: seq<Byte>,
                   size: nat, t: Disk)
    requires a != [] && Healthy(e, b, g, a[0], dir, name) && Apart(e, b, g, dir) && OldOrNew(d, e, b, g, data)
    requires Patched(e, b, dir, Resize(size), name, t) && size <= 512 * |Lbas(b, g)| && size < 0x1_0000_0000
    ensures AllSafe(d, b, a, dir, name, g, data, [t])
  {
    hide Healthy, Apart, Lbas, Patched, SectorOldOrNew;
    assert |t| == |e| by {
      PatchedLength(e, b, dir, Resize(size), name, t);
    }
    ResizeHealthy(e, b, g, a[0], dir, name, size, t);
  }

  lemma PatchedLength(e: Disk, b: Bpb, dir: seq<nat>, p: Patch, name: Name, t: Disk)
    requires Patched(e, b, dir, p, name, t)
    ensures |t| == |e|
  {
  }

  // The chain's sectors hold data, byte for byte.
  ghost predicate Stored(d: Disk, b: Bpb, g: seq<nat>, data: seq<Byte>) {
    Copied(d, Lbas(b, g), data, data, |data|)
  }

  lemma FlushStored(e: Disk, b: Bpb, g: seq<nat>, data: seq<Byte>)
    requires DataClusters(g) && Distinct(g) && |data| <= 512 * |Lbas(b, g)|
    requires OnDisk(e, Lbas(b, g)[..SectorsFor(|data|)])
    ensures Stored(Flushed(e, Lbas(b, g), data, SectorsFor(|data|)), b, g, data)
  {
    hide Lbas, Flushed, Distinct;
    LbasDistinct(b, g);
    var lbas, k := Lbas(b, g), SectorsFor(|data|);
    forall i | 0 <= i < |data|
      ensures lbas[i / 512] < |e| && data[i] == Flushed(e, lbas, data, k)[lbas[i / 512]][i % 512]
    {
      assert i == 512 * (i / 512) + i % 512 && i / 512 < k;
      FlushedByte(e, lbas, data, k, i / 512, i % 512);
    }
  }

  lemma ResizeStored(e: Disk, b: Bpb, g: seq<nat>, first: nat, dir: seq<nat>, name: Name, size: nat, t: Disk,
                     data: seq<Byte>)
    requires Healthy(e, b, g, first, dir, name) && Apart(e, b, g, dir) && Stored(e, b, g, data)
    requires Patched(e, b, dir, Resize(size), name, t) && size <= 512 * |Lbas(b, g)| && size < 0x1_0000_0000
    ensures Stored(t, b, g, data)
  {
    hide Lbas, Healthy, Apart, Patched;
    PatchedLength(e, b, dir, Resize(size), name, t);
    ResizeHealthy(e, b, g, first, dir, name, size, t);
  }

  // Everything a completed flush establishes.
  ghost predicate FlushedFile(d: Disk, e: Disk, b: Bpb, a: seq<nat>, g: seq<nat>, dir: seq<nat>, name: Name,
                              data: seq<Byte>, size: nat) {
    && a != [] && Healthy(e, b, g, a[0], dir, name) && Apart(e, b, g, dir)
    && OldOrNew(d, e, b, g, data)
    && size <= 512 * |Lbas(b, g)|
    && (size == |data| ==> Stored(e, b, g, data))
  }

  lemma FlushDone(d: Disk, mid: Disk, b: Bpb, a: seq<nat>, g: seq<nat>, dir: seq<nat>, name: Name, data: seq<Byte>,
                  size: nat, written: nat, k: nat)
    requires a != [] && TableOnly(d, mid, b) && Healthy(mid, b, g, a[0], dir, name) && Apart(mid, b, g, dir)
    requires size <= 512 * |Lbas(b, g)| && written == Min(|data|, 512 * |Lbas(b, g)|) && k == SectorsFor(written)
    requires k <= |Lbas(b, g)| && OnDisk(mid, Lbas(b, g)[..k]) && 512 * k < |data| + 512
    ensures FlushedFile(d, Flushed(mid, Lbas(b, g), data, k), b, a, g, dir, name, data, size)
  {
    hide Lbas, Fat, OldOrNew, TableOnly, DirBytes, Lookup, Stored;
    ChainClusters(Fat(mid, b), g);
    FlushHealthy(mid, b, g, a[0], dir, name, data, k);
    FlushOldOrNew(d, mid, b, g, data, k);
    if size == |data| {
      FlushStored(mid, b, g, data);
    }
  }

  function ClustersNeeded(b: Bpb, size: nat): nat
    requires b.Valid()
  {
    var bytesPerCluster := 512 * b.sectorsPerCluster;
    (size + bytesPerCluster - 1) / bytesPerCluster
  }

  // The conditions under which close is crash safe: a well-formed file, and
  // growth only from a chain of one cluster.
  ghost predicate Closable(d: Disk, b: Bpb, first: nat, a: seq<nat>, dir: seq<nat>, name: Name, size: nat)
    requires Mounted(d, b)
  {
    Ready(d, b, a, dir, name) && a[0] == first && (|a| == 1 || ClustersNeeded(b, size) <= |a|)
  }

  lemma ChainPhase(d: Disk, b: Bpb, first: nat, a: seq<nat>, dir: seq<nat>, name: Name, data: seq<Byte>, size: nat,
                   chain0: seq<nat>, x: seq<nat>, log: seq<Disk>, mid: Disk)
    requires Mounted(d, b) && first < b.Eoc() && Closable(d, b, first, a, dir, name, size)
    requires chain0 == Walk(Raw(d, b), first, CHAIN_LIMIT) && GrowthSeen(d, b, first, log)
    requires ClustersNeeded(b, size) <= |chain0| ==> x == [] && log == []
    ensures chain0 == a && AllSafe(d, b, a, dir, name, chain0 + x, data, log)
    ensures GrownTo(d, b, first, x, mid) && ClustersNeeded(b, size) <= |chain0 + x| ==>
              TableOnly(d, mid, b) && Healthy(mid, b, a + x, a[0], dir, name) && Apart(mid, b, a + x, dir)
              && size <= 512 * |Lbas(b, a + x)|
  {
    hide Fat, Lbas, TableOnly, Apart, AllSafe, GrowthSeen;
    assert chain0 == a by {
      ChainWalked(d, b, a);
    }
    GrowthAllSafe(d, b, a, dir, name, chain0 + x, data, log);
    if GrownTo(d, b, first, x, mid) && ClustersNeeded(b, size) <= |chain0 + x| {
      GrownHealthy(d, b, a, dir, name, x, mid);
      EnoughClusters(b, size, a + x);
    }
  }

  lemma DataPhase(d: Disk, mid: Disk, b: Bpb, a: seq<nat>, g: seq<nat>, dir: seq<nat>, name: Name, data: seq<Byte>,
                  size: nat, k: nat, e: Disk, log: seq<Disk>, before: seq<Disk>, after: seq<Disk>)
    requires AllSafe(d, b, a, dir, name, g, data, log)
    requires TableOnly(d, mid, b) && Healthy(mid, b, g, a[0], dir, name) && Apart(mid, b, g, dir)
    requires size <= 512 * |Lbas(b, g)| && Flushing(mid, Lbas(b, g), data, k, e, before, after)
    ensures AllSafe(d, b, a, dir, name, g, data, log + FlushLog(mid, Lbas(b, g), data, k))
    ensures k == SectorsFor(Min(|data|, 512 * |Lbas(b, g)|)) ==> FlushedFile(d, e, b, a, g, dir, name, data, size)
  {
    hide Healthy, Apart, Lbas, Safe, TableOnly, FlushedFile;
    FlushAllSafe(d, mid, b, a, dir, name, g, data, k);
    AllSafeAppend(d, b, a, dir, name, g, data, log, FlushLog(mid, Lbas(b, g), data, k));
    if k == SectorsFor(Min(|data|, 512 * |Lbas(b, g)|)) {
      FlushDone(d, mid, b, a, g, dir, name, data, size, Min(|data|, 512 * |Lbas(b, g)|), k);
    }
  }

  lemma ClosableFirst(d: Disk, b: Bpb, first: nat, a: seq<nat>, dir: seq<nat>, name: Name, size: nat)
    requires Mounted(d, b) && Closable(d, b, first, a, dir, name, size)
    ensures 2 <= first && a != [] && a[0] == first
  {
    hide Fat, Lbas;
    assert Cluster(Fat(d, b), a[0]);
  }

  // The trace of a flush, as a log.
  lemma FlushTrace(d: Disk, lbas: seq<nat>, buf: seq<Byte>, k: nat, e: Disk, before: seq<Disk>, after: seq<Disk>)
    requires Flushing(d, lbas, buf, k, e, before, after)
    ensures k <= |lbas| && OnDisk(d, lbas[..k]) && 512 * k < |buf| + 512
    ensures |e| == |d| && after == before + FlushLog(d, lbas, buf, k) && e == Last(d, FlushLog(d, lbas, buf, k))
  {
  }

  // The file as a later open would find it.
  ghost predicate Saved(e: Disk, b: Bpb, g: seq<nat>, first: nat, dir: seq<nat>, name: Name, data: seq<Byte>) {
    && Healthy(e, b, g, first, dir, name)
    && Lookup(DirBytes(e, b, dir), name).value.entry.size == |data| % 0x1_0000_0000
    && (|data| < 0x1_0000_0000 ==> Stored(e, b, g, data))
  }

  lemma SizePhase(d: Disk, mid: Disk, b: Bpb, a: seq<nat>, g: seq<nat>, dir: seq<nat>, name: Name, data: seq<Byte>,
                  log: seq<Disk>, e: Disk)
    requires AllSafe(d, b, a, dir, name, g, data, log)
    requires FlushedFile(d, mid, b, a, g, dir, name, data, |data| % 0x1_0000_0000)
    requires Patched(mid, b, dir, Resize(|data| % 0x1_0000_0000), name, e)
    ensures AllSafe(d, b, a, dir, name, g, data, log + [e]) && Saved(e, b, g, a[0], dir, name, data)
  {
    hide Healthy, Apart, OldOrNew, Stored, Lbas, Safe, Patched, DirBytes, Lookup;
    var size := |data| % 0x1_0000_0000;
    ResizeSafe(d, mid, b, a, g, dir, name, data, size, e);
    AllSafeAppend(d, b, a, dir, name, g, data, log, [e]);
    ResizeHealthy(mid, b, g, a[0], dir, name, size, e);
    if |data| < 0x1_0000_0000 {
      ResizeStored(mid, b, g, a[0], dir, name, size, e, data);
    }
  }

  // ---------- when close is not safe ----------

  // A recorded size is covered exactly when the file's chain has the clusters it needs.
  lemma CoveredIff(t: Disk, b: Bpb, g: seq<nat>, dir: seq<nat>, name: Name, size: nat)
    requires Mounted(t, b) && IsChain(Fat(t, b), g) && EntryNames(t, b, dir, name, g[0]) && 0 < size
    requires Lookup(DirBytes(t, b, dir), name).value.entry.size == size
    ensures (exists h :: Healthy(t, b, h, g[0], dir, name)) <==> ClustersNeeded(b, size) <= |g|
  {
    hide Fat, Lbas, DirBytes, Lookup, ClustersNeeded;
    if ClustersNeeded(b, size) <= |g| {
      NeededFits(b, size, g);
      assert Healthy(t, b, g, g[0], dir, name);
    }
    if exists h :: Healthy(t, b, h, g[0], dir, name) {
      var h :| Healthy(t, b, h, g[0], dir, name);
      ChainUnique(Fat(t, b), h, g);
      NeededFits(b, size, g);
    }
  }

  lemma NeededFits(b: Bpb, size: nat, g: seq<nat>)
    requires b.Valid() && 0 < size
    ensures ClustersNeeded(b, size) <= |g| <==> size <= 512 * |Lbas(b, g)|
  {
    hide Lbas;
    Capacity(b, g);
    CeilingIff(size, 512 * b.sectorsPerCluster, |g|);
  }

  lemma CeilingIff(size: nat, m: nat, n: nat)
    requires 0 < m && 0 < size
    ensures (size + m - 1) / m <= n <==> size <= n * m
  {
    if (size + m - 1) / m <= n {
      Ceiling(size, m, n);
    } else {
      var q := (size + m - 1) / m;
      assert size + m - 1 == q * m + (size + m - 1) % m;
      CopiesBelow(n, q, m);
    }
  }

  // A grown file after its size was recorded: covered exactly when close did not
  // have to grow it, or grew it from a single cluster.
  lemma GrownCoveredIff(d: Disk, b: Bpb, a: seq<nat>, x: seq<nat>, e: Disk, t: Disk, dir: seq<nat>, name: Name,
                        size: nat)
    requires Mounted(d, b) && IsChain(Fat(d, b), a) && a[0] < b.Eoc() && GrownTo(d, b, a[0], x, e)
    requires |a + x| == if ClustersNeeded(b, size) <= |a| then |a| else ClustersNeeded(b, size)
    requires Mounted(t, b) && Fat(t, b) == Fat(e, b) && EntryNames(t, b, dir, name, a[0]) && 0 < size
    requires Lookup(DirBytes(t, b, dir), name).value.entry.size == size
    ensures (exists h :: Healthy(t, b, h, a[0], dir, name)) <==> (|a| == 1 || ClustersNeeded(b, size) <= |a|)
  {
    hide Lbas, DirBytes, Lookup, ClustersNeeded, TableOnly, Fat, Healthy;
    GrownIff(Fat(d, b), a, x);
    if x == [] || |a| == 1 {
      CoveredIff(t, b, a + x, dir, name, size);
    } else {
      assert ([a[0]] + x)[0] == a[0];
      CoveredIff(t, b, [a[0]] + x, dir, name, size);
    }
  }

  lemma SameSectors(d: Disk, d': Disk, lbas: seq<nat>)
    requires |d'| == |d|
    ensures OnDisk(d', lbas) == OnDisk(d, lbas)
  {
  }

  // The directory is readable and names the file.
  lemma FlushedFind(d: Disk, mid: Disk, b: Bpb, a: seq<nat>, g: seq<nat>, dir: seq<nat>, name: Name, data: seq<Byte>,
                    size: nat)
    requires FlushedFile(d, mid, b, a, g, dir, name, data, size)
    ensures OnDisk(mid, Lbas(b, dir)) && Lookup(DirBytes(mid, b, dir), name).Some? && dir != []
  {
    hide Lookup, Fat, OldOrNew, Stored, Apart;
    if dir == [] {
      EmptyDir(mid, b, name);
    }
  }

  lemma EmptyDir(d: Disk, b: Bpb, name: Name)
    requires OnDisk(d, Lbas(b, []))
    ensures Lookup(DirBytes(d, b, []), name).None?
  {
    AtStart(b);
    assert Scan(DirBytes(d, b, []), 0, []) == [];
  }

  // No cluster is left.
  ghost predicate Full(d: Disk, b: Bpb) {
    forall x :: 2 <= x <= b.MaxCluster() ==> Fat(d, b)[x] != 0
  }

  lemma NoSpaceFull(d: Disk, b: Bpb, hint: nat)
    requires forall x :: hint <= x <= b.MaxCluster() || 2 <= x < hint ==> Entry(d, b, 0, x) != 0
    ensures Full(d, b)
  {
    hide Entry;
  }

  // ---------- other files ----------

  // The sectors of the chain hold what they held.
  ghost predicate SameData(d: Disk, t: Disk, b: Bpb, f: seq<nat>) {
    && |t| == |d|
    && forall k :: 0 <= k < |Lbas(b, f)| && Lbas(b, f)[k] < |d| ==> t[Lbas(b, f)[k]] == d[Lbas(b, f)[k]]
  }

  // Chain f is still a chain, with the same contents unless it shares clusters with the directory.
  ghost predicate OtherKept(d: Disk, t: Disk, b: Bpb, dir: seq<nat>, f: seq<nat>) {
    IsChain(Fat(t, b), f) && (Disjoint(f, dir) ==> SameData(d, t, b, f))
  }

  // No file but the one with chain a notices.
  ghost predicate OthersKept(d: Disk, t: Disk, b: Bpb, a: seq<nat>, dir: seq<nat>) {
    |t| == |d| && forall f :: IsChain(Fat(d, b), f) && Disjoint(f, a) ==> OtherKept(d, t, b, dir, f)
  }

  ghost predicate AllOthers(d: Disk, b: Bpb, a: seq<nat>, dir: seq<nat>, log: seq<Disk>) {
    forall t :: t in log ==> OthersKept(d, t, b, a, dir)
  }

  // The chain a of the file with this first cluster; empty while it has none.
  ghost predicate FileChain(d: Disk, b: Bpb, first: nat, a: seq<nat>) {
    if a == [] then first == 0 && 0 < b.Entries() else IsChain(Fat(d, b), a) && a[0] == first && |a| <= CHAIN_LIMIT
  }

  lemma FileAnchored(d: Disk, b: Bpb, first: nat, a: seq<nat>)
    requires Mounted(d, b) && FileChain(d, b, first, a)
    ensures Anchored(d, b, first)
  {
    hide Fat;
    if a != [] {
      ChainInTable(d, b, a);
      assert a[0] in a;
      ChainNotFree(Fat(d, b), a, a[0]);
    }
  }

  lemma SameDataSelf(d: Disk, t: Disk, b: Bpb, f: seq<nat>)
    requires TableOnly(d, t, b)
    ensures SameData(d, t, b, f)
  {
    hide Lbas;
    forall k | 0 <= k < |Lbas(b, f)| && Lbas(b, f)[k] < |d|
      ensures t[Lbas(b, f)[k]] == d[Lbas(b, f)[k]]
    {
      LbasInData(b, f, k);
    }
  }

  lemma GrowthOthers(d: Disk, b: Bpb, first: nat, a: seq<nat>, dir: seq<nat>, t: Disk)
    requires Mounted(d, b) && FileChain(d, b, first, a) && first < b.Eoc()
    requires TableOnly(d, t, b) && Seen(Fat(d, b), first, Fat(t, b))
    ensures OthersKept(d, t, b, a, dir)
  {
    hide Fat, Seen, SameData, TableOnly;
    TableOnlyLength(d, t, b);
    forall f | IsChain(Fat(d, b), f) && Disjoint(f, a)
      ensures OtherKept(d, t, b, dir, f)
    {
      ChainClusters(Fat(d, b), f);
      assert a != [] ==> a[0] in a;
      SeenKeepsChain(Fat(d, b), first, Fat(t, b), f);
      SameDataSelf(d, t, b, f);
    }
  }

  lemma GrowthAllOthers(d: Disk, b: Bpb, first: nat, a: seq<nat>, dir: seq<nat>, log: seq<Disk>)
    requires Mounted(d, b) && FileChain(d, b, first, a) && first < b.Eoc() && GrowthSeen(d, b, first, log)
    ensures AllOthers(d, b, a, dir, log)
  {
    hide Fat, Seen, TableOnly, OthersKept, FileChain;
    forall t | t in log
      ensures OthersKept(d, t, b, a, dir)
    {
      GrowthOthers(d, b, first, a, dir, t);
    }
  }

  // How the growth of a chain ended: all clusters linked, no cluster to be had, or a link that failed.
  datatype Growth = Grown | NoRoom | Broken

  // What growth from first did, clusters x later.
  ghost predicate Grew(d: Disk, b: Bpb, first: nat, x: seq<nat>, growth: Growth, linked: bool, log: seq<Disk>,
                       mid: Disk)
    requires Mounted(d, b) && first < b.Eoc()
  {
    && GrowthSeen(d, b, first, log) && mid == Last(d, log)
    && (growth.Grown? ==> GrownTo(d, b, first, x, mid))
    && (growth.Broken? ==> TornAt(d, b, first, x, linked, mid))
  }

  lemma GrewOthers(d: Disk, b: Bpb, first: nat, a: seq<nat>, x: seq<nat>, growth: Growth, linked: bool, dir: seq<nat>,
                   log: seq<Disk>, mid: Disk)
    requires Mounted(d, b) && FileChain(d, b, first, a) && first < b.Eoc()
    requires Grew(d, b, first, x, growth, linked, log, mid)
    ensures AllOthers(d, b, a, dir, log) && OthersKept(d, mid, b, a, dir)
    ensures !growth.NoRoom? ==> OwnClusters(d, b, a, a + x)
  {
    hide Fat, OthersKept, GrowthSeen, Linked, TableOnly, FileChain;
    GrowthAllOthers(d, b, first, a, dir, log);
    OthersSelf(d, b, a, dir);
    if !growth.NoRoom? {
      OwnGrown(d, b, first, a, x);
    }
  }

  lemma OwnGrown(d: Disk, b: Bpb, first: nat, a: seq<nat>, x: seq<nat>)
    requires Mounted(d, b) && FileChain(d, b, first, a) && first < b.Eoc() && Picks(Fat(d, b), first, x)
    ensures OwnClusters(d, b, a, a + x)
  {
    hide Fat;
    forall i | 0 <= i < |a + x|
      ensures 2 <= (a + x)[i] && ((a + x)[i] in a || ((a + x)[i] < b.Eoc() && Fat(d, b)[(a + x)[i]] == 0))
    {
      if i < |a| {
        assert Cluster(Fat(d, b), a[i]);
      } else {
        PickedFree(Fat(d, b), first, x, i - |a|);
      }
    }
  }

  // The chain close starts from is the file's.
  lemma ChainRead(d: Disk, b: Bpb, first: nat, a: seq<nat>)
    requires Mounted(d, b) && FileChain(d, b, first, a)
    ensures first != 0 ==> Walk(Raw(d, b), first, CHAIN_LIMIT) == a && Readable(d, b, a)
    ensures first == 0 ==> a == []
    ensures Anchored(d, b, first) && first < b.Eoc()
  {
    hide Fat, Raw;
    FileAnchored(d, b, first, a);
    if a != [] {
      ChainWalked(d, b, a);
      ChainClusters(Fat(d, b), a);
    }
  }

  lemma ReadyChain(d: Disk, b: Bpb, a: seq<nat>, dir: seq<nat>, name: Name)
    requires Ready(d, b, a, dir, name)
    ensures Mounted(d, b) && a != [] && FileChain(d, b, a[0], a)
  {
  }

  // The clusters written to are the file's own, or were free.
  ghost predicate OwnClusters(d: Disk, b: Bpb, a: seq<nat>, g: seq<nat>) {
    DataClusters(g) && forall c :: c in g ==> c in a || (c < b.Eoc() && Fat(d, b)[c] == 0)
  }

  lemma OwnDisjoint(d: Disk, b: Bpb, a: seq<nat>, g: seq<nat>, f: seq<nat>)
    requires OwnClusters(d, b, a, g) && IsChain(Fat(d, b), f) && Disjoint(f, a)
    ensures Disjoint(f, g) && DataClusters(f)
  {
    hide Fat;
    forall c | c in f
      ensures c !in g
    {
      ChainNotFree(Fat(d, b), f, c);
    }
    ChainClusters(Fat(d, b), f);
  }

  lemma FlushOthers(d: Disk, mid: Disk, b: Bpb, a: seq<nat>, g: seq<nat>, dir: seq<nat>, data: seq<Byte>, j: nat)
    requires Mounted(mid, b) && OthersKept(d, mid, b, a, dir) && OwnClusters(d, b, a, g)
    requires j <= |Lbas(b, g)| && OnDisk(mid, Lbas(b, g)[..j]) && 512 * j < |data| + 512
    ensures OthersKept(d, Flushed(mid, Lbas(b, g), data, j), b, a, dir)
  {
    hide Fat, SameData, Lbas, OwnClusters;
    var t := Flushed(mid, Lbas(b, g), data, j);
    FlushTable(mid, b, g, data, j);
    forall f | IsChain(Fat(d, b), f) && Disjoint(f, a)
      ensures OtherKept(d, t, b, dir, f)
    {
      assert OtherKept(d, mid, b, dir, f);
      OwnDisjoint(d, b, a, g, f);
      assert DataClusters(g) by {
        OwnData(d, b, a, g);
      }
      if Disjoint(f, dir) {
        FlushSameData(d, mid, b, g, f, data, j);
      }
    }
  }

  lemma OwnData(d: Disk, b: Bpb, a: seq<nat>, g: seq<nat>)
    requires OwnClusters(d, b, a, g)
    ensures DataClusters(g)
  {
  }

  lemma FlushSameData(d: Disk, mid: Disk, b: Bpb, g: seq<nat>, f: seq<nat>, data: seq<Byte>, j: nat)
    requires SameData(d, mid, b, f) && DataClusters(f) && DataClusters(g) && Disjoint(f, g)
    requires j <= |Lbas(b, g)| && OnDisk(mid, Lbas(b, g)[..j]) && 512 * j < |data| + 512
    ensures SameData(d, Flushed(mid, Lbas(b, g), data, j), b, f)
  {
    hide Lbas, Flushed;
    forall k | 0 <= k < |Lbas(b, f)| && Lbas(b, f)[k] < |d|
      ensures Flushed(mid, Lbas(b, g), data, j)[Lbas(b, f)[k]] == d[Lbas(b, f)[k]]
    {
      DirUntouched(b, g, f, j, k);
      FlushedFrame(mid, Lbas(b, g), data, j, Lbas(b, f)[k]);
    }
  }

  lemma FlushAllOthers(d: Disk, mid: Disk, b: Bpb, a: seq<nat>, g: seq<nat>, dir: seq<nat>, data: seq<Byte>, k: nat)
    requires Mounted(mid, b) && OthersKept(d, mid, b, a, dir) && OwnClusters(d, b, a, g)
    requires k <= |Lbas(b, g)| && OnDisk(mid, Lbas(b, g)[..k]) && 512 * k < |data| + 512
    ensures AllOthers(d, b, a, dir, FlushLog(mid, Lbas(b, g), data, k))
    ensures OthersKept(d, Flushed(mid, Lbas(b, g), data, k), b, a, dir)
  {
    hide Lbas, OthersKept, OwnClusters;
    forall t | t in FlushLog(mid, Lbas(b, g), data, k)
      ensures OthersKept(d, t, b, a, dir)
    {
      var j := FlushLogIs(mid, Lbas(b, g), data, k, t);
      FlushOthers(d, mid, b, a, g, dir, data, j);
    }
    FlushOthers(d, mid, b, a, g, dir, data, k);
  }

  // Rewriting the directory entry.
  lemma ResizeOthers(d: Disk, e: Disk, b: Bpb, a: seq<nat>, dir: seq<nat>, p: Patch, name: Name, t: Disk)
    requires Mounted(e, b) && OthersKept(d, e, b, a, dir) && Patched(e, b, dir, p, name, t) && DataClusters(dir)
    ensures OthersKept(d, t, b, a, dir) && Fat(t, b) == Fat(e, b)
  {
    hide Fat, Lbas, DirBytes, Lookup, Apply;
    var i := Lookup(DirBytes(e, b, dir), name).value.offset / 512;
    DirLength(e, b, dir);
    OneDirSector(e, b, dir, i, t);
    forall f | IsChain(Fat(d, b), f) && Disjoint(f, a)
      ensures OtherKept(d, t, b, dir, f)
    {
      assert OtherKept(d, e, b, dir, f);
      if Disjoint(f, dir) {
        ChainClusters(Fat(d, b), f);
        forall k | 0 <= k < |Lbas(b, f)| && Lbas(b, f)[k] < |d|
          ensures t[Lbas(b, f)[k]] == d[Lbas(b, f)[k]]
        {
          LbasDisjoint(b, f, dir, k, i);
        }
      }
    }
  }

  lemma OthersSelf(d: Disk, b: Bpb, a: seq<nat>, dir: seq<nat>)
    ensures OthersKept(d, d, b, a, dir) && AllOthers(d, b, a, dir, [])
  {
    hide Fat, Lbas;
  }

  // ---------- truncation ----------

  // The first cluster starts no well-formed chain.
  ghost predicate Chainless(t: Disk, b: Bpb, first: nat) {
    forall h :: IsChain(Fat(t, b), h) ==> h[0] != first
  }

  // From the first table write on, the file's first cluster has no chain.
  lemma FreeingCuts(d: Disk, b: Bpb, a: seq<nat>, t: Disk)
    requires Mounted(d, b) && IsChain(Fat(d, b), a) && InTable(b, a) && Freeing(d, b, a, t)
    ensures Chainless(t, b, a[0])
  {
    hide Fat;
    var next := Fat(d, b);
    var i :| 0 < i <= |a| && Fat(t, b) == Zeroed(next, a[..i]);
    assert a[..i][0] == a[0] && a[0] in a[..i] && Cluster(next, a[0]);
    ZeroedAt(next, a[..i], a[0]);
    forall h | IsChain(Fat(t, b), h)
      ensures h[0] != a[0]
    {
      assert h[0] in h;
      ChainNotFree(Fat(t, b), h, h[0]);
    }
  }

  // And the entry goes on naming it: after a crash it leads to no chain.
  lemma FreeingBreaks(d: Disk, b: Bpb, a: seq<nat>, t: Disk, dir: seq<nat>, name: Name)
    requires Mounted(d, b) && IsChain(Fat(d, b), a) && InTable(b, a) && Freeing(d, b, a, t)
    requires EntryNames(d, b, dir, name, a[0])
    ensures EntryNames(t, b, dir, name, a[0]) && Chainless(t, b, a[0])
    ensures forall h, first :: !Healthy(t, b, h, first, dir, name)
  {
    hide Fat, Lbas, DirBytes, Lookup, TableOnly;
    FreeingCuts(d, b, a, t);
    TableOnlyDir(d, t, b, dir);
  }

  lemma FreeOthers(d: Disk, b: Bpb, a: seq<nat>, dir: seq<nat>, t: Disk)
    requires Mounted(d, b) && IsChain(Fat(d, b), a) && InTable(b, a) && Freeing(d, b, a, t)
    ensures OthersKept(d, t, b, a, dir)
  {
    hide Fat, TableOnly, SameData;
    TableOnlyLength(d, t, b);
    var next := Fat(d, b);
    var i :| 0 < i <= |a| && Fat(t, b) == Zeroed(next, a[..i]);
    forall f | IsChain(next, f) && Disjoint(f, a)
      ensures OtherKept(d, t, b, dir, f)
    {
      forall c | c in f
        ensures c < |next| && Fat(t, b)[c] == next[c]
      {
        ChainNotFree(next, f, c);
        ZeroedAt(next, a[..i], c);
      }
      ChainKept(next, Fat(t, b), f);
      SameDataSelf(d, t, b, f);
    }
  }

  // The log of freeing the chain.
  ghost predicate FreeingLog(d: Disk, b: Bpb, a: seq<nat>, log: seq<Disk>) {
    InTable(b, a) && forall t :: t in log ==> Freeing(d, b, a, t)
  }

  lemma FreePhase(d: Disk, b: Bpb, a: seq<nat>, dir: seq<nat>, log: seq<Disk>)
    requires Mounted(d, b) && IsChain(Fat(d, b), a) && FreeingLog(d, b, a, log)
    ensures AllOthers(d, b, a, dir, log) && OthersKept(d, Last(d, log), b, a, dir)
    ensures forall t :: t in log ==> Chainless(t, b, a[0])
    ensures TableOnly(d, Last(d, log), b) && (log != [] ==> Chainless(Last(d, log), b, a[0]))
  {
    hide Fat, OthersKept, Chainless, TableOnly, InTable;
    forall t | t in log
      ensures OthersKept(d, t, b, a, dir) && Chainless(t, b, a[0]) && TableOnly(d, t, b)
    {
      FreeOthers(d, b, a, dir, t);
      FreeingCuts(d, b, a, t);
    }
    OthersSelf(d, b, a, dir);
    TableOnlySelf(d, b);
  }

  // Everything truncation promises: every disk has the old table or no chain at the file's first
  // cluster, an entry that named it goes on naming it, and recording the size changes nothing else there.
  ghost predicate Truncation(d: Disk, e: Disk, b: Bpb, a: seq<nat>, dir: seq<nat>, name: Name, saved: bool,
                             log: seq<Disk>) {
    && a != []
    && (forall t :: t in log ==> Fat(t, b) == Fat(d, b) || Chainless(t, b, a[0]))
    && (EntryNames(d, b, dir, name, a[0]) ==> forall t :: t in log ==> EntryNames(t, b, dir, name, a[0]))
    && (saved ==> Resized(d, e, b, dir, name, 0))
  }

  lemma TruncatedUnsaved(d: Disk, b: Bpb, a: seq<nat>, dir: seq<nat>, name: Name, log: seq<Disk>)
    requires Mounted(d, b) && IsChain(Fat(d, b), a) && FreeingLog(d, b, a, log)
    ensures Truncation(d, Last(d, log), b, a, dir, name, false, log)
  {
    hide Fat, Chainless, FreeingLog, EntryNames;
    FreePhase(d, b, a, dir, log);
    FreeingNames(d, b, a, dir, name, log);
  }

  lemma FreeingNames(d: Disk, b: Bpb, a: seq<nat>, dir: seq<nat>, name: Name, log: seq<Disk>)
    requires FreeingLog(d, b, a, log)
    ensures EntryNames(d, b, dir, name, if a == [] then 0 else a[0]) ==>
              forall t :: t in log ==> EntryNames(t, b, dir, name, if a == [] then 0 else a[0])
  {
    hide Fat, Lbas, DirBytes, Lookup, TableOnly;
    if EntryNames(d, b, dir, name, if a == [] then 0 else a[0]) {
      forall t | t in log
        ensures EntryNames(t, b, dir, name, if a == [] then 0 else a[0])
      {
        TableOnlyDir(d, t, b, dir);
      }
    }
  }

  lemma TruncatedSaved(d: Disk, b: Bpb, a: seq<nat>, dir: seq<nat>, name: Name, log: seq<Disk>, mid: Disk, e: Disk)
    requires Mounted(d, b) && IsChain(Fat(d, b), a) && FreeingLog(d, b, a, log) && mid == Last(d, log)
    requires Mounted(mid, b)
    requires Patched(mid, b, dir, Resize(0), name, e) && DataClusters(dir)
    ensures Truncation(d, e, b, a, dir, name, true, log + [e])
    ensures AllOthers(d, b, a, dir, log + [e])
  {
    hide Fat, FreeingLog, OthersKept, TableOnly, Lbas, DirBytes, Lookup, Apply;
    FreePhase(d, b, a, dir, log);
    ResizeOthers(d, mid, b, a, dir, Resize(0), name, e);
    assert log == [] ==> Fat(e, b) == Fat(d, b);
    TableOnlyBack(d, mid, b, dir);
    TableOnlyDir(d, mid, b, dir);
    PatchResizes(d, mid, b, dir, name, 0, e);
    FreeingNames(d, b, a, dir, name, log);
  }

  lemma TableOnlyBack(d: Disk, t: Disk, b: Bpb, dir: seq<nat>)
    requires TableOnly(d, t, b) && OnDisk(t, Lbas(b, dir))
    ensures OnDisk(d, Lbas(b, dir))
  {
  }

  lemma PatchedOnDisk(d: Disk, b: Bpb, dir: seq<nat>, p: Patch, name: Name, t: Disk)
    requires Patched(d, b, dir, p, name, t)
    ensures OnDisk(t, Lbas(b, dir))
  {
  }

  // ---------- growth that tears ----------

  // After torn growth and the data write: a chain of known length, and the directory as before.
  ghost predicate TornFile(d: Disk, e: Disk, b: Bpb, first: nat, n: nat, dir: seq<nat>) {
    && Mounted(e, b)
    && (exists h :: IsChain(Fat(e, b), h) && h[0] == first && |h| == n)
    && SameDir(d, e, b, dir)
  }

  lemma TornPhase(d: Disk, b: Bpb, a: seq<nat>, dir: seq<nat>, name: Name, x: seq<nat>, linked: bool, mid: Disk,
                  data: seq<Byte>, k: nat)
    requires Ready(d, b, a, dir, name) && |a| == 1 && TornAt(d, b, a[0], x, linked, mid)
    requires k <= |Lbas(b, a + x)| && OnDisk(mid, Lbas(b, a + x)[..k]) && 512 * k < |data| + 512
    ensures TornFile(d, Flushed(mid, Lbas(b, a + x), data, k), b, a[0], |a + x| + (if linked then 1 else 0), dir)
  {
    hide Fat, Lbas, DirBytes, TableOnly, Lookup, Flushed, TornTable;
    TableOnlyLength(d, mid, b);
    TableOnlyDir(d, mid, b, dir);
    var h := TornChain(d, b, a, x, linked, mid);
    TornApart(d, b, a, x, dir);
    FlushFrames(mid, b, a + x, dir, data, k);
  }

  lemma TornApart(d: Disk, b: Bpb, a: seq<nat>, x: seq<nat>, dir: seq<nat>)
    requires Mounted(d, b) && IsChain(Fat(d, b), a) && a[0] < b.Eoc() && Picks(Fat(d, b), a[0], x)
    requires Apart(d, b, a, dir)
    ensures DataClusters(a + x) && forall c :: c in dir ==> c !in a + x
  {
    hide Fat;
    var next := Fat(d, b);
    forall i | 0 <= i < |a + x|
      ensures 2 <= (a + x)[i]
    {
      if i < |a| {
        assert Cluster(next, a[i]);
      } else {
        PickedFree(next, a[0], x, i - |a|);
      }
    }
    forall c | c in dir
      ensures c !in a + x
    {
      LinkedInUse(next, a[0], x, c);
    }
  }

  // extend_chain failed and the size was recorded all the same: it is covered exactly
  // when the cluster that failed was the last one needed and its link reached copy 0.
  lemma TornCoveredIff(d: Disk, e: Disk, b: Bpb, first: nat, g: seq<nat>, dir: seq<nat>, name: Name, linked: bool,
                       size: nat, t: Disk)
    requires TornFile(d, e, b, first, |g| + (if linked then 1 else 0), dir) && DataClusters(dir)
    requires 0 < size < 0x1_0000_0000 && |g| < ClustersNeeded(b, size) && EntryNames(d, b, dir, name, first)
    requires Patched(e, b, dir, Resize(size), name, t)
    ensures (exists h :: Healthy(t, b, h, first, dir, name)) <==> linked && |g| + 1 == ClustersNeeded(b, size)
  {
    hide Fat, Lbas, DirBytes, Lookup, Apply, ClustersNeeded, Healthy;
    var h :| IsChain(Fat(e, b), h) && h[0] == first && |h| == |g| + (if linked then 1 else 0);
    OthersSelf(e, b, [], dir);
    ResizeOthers(e, e, b, [], dir, Resize(size), name, t);
    PatchResizes(d, e, b, dir, name, size, t);
    PatchedLength(e, b, dir, Resize(size), name, t);
    CoveredIff(t, b, h, dir, name, size);
  }

  // ---------- following the growth ----------

  // On the way: the clusters x are linked behind first, and last is the one to link behind.
  ghost predicate OnTrack(d: Disk, b: Bpb, first: nat, x: seq<nat>, last: nat, e: Disk) {
    Mounted(d, b) && first < b.Eoc() && Anchored(d, b, first) && GrownTo(d, b, first, x, e) && last == Tail(first, x)
  }

  // One more cluster, or the end of the growth.
  ghost predicate Linking(d: Disk, b: Bpb, first: nat, x: seq<nat>, c: nat, step: Growth, linked: bool, more: seq<Disk>,
                          e: Disk) {
    && Mounted(d, b) && first < b.Eoc() && GrowthSeen(d, b, first, more)
    && (step.Grown? ==> GrownTo(d, b, first, x + [c], e))
    && (step.Broken? ==> TornAt(d, b, first, x, linked, e))
  }

  lemma StartTrack(d: Disk, b: Bpb, first: nat)
    requires Mounted(d, b) && Anchored(d, b, first)
    ensures first < b.Eoc() && OnTrack(d, b, first, [], first, d) && GrowthSeen(d, b, first, [])
  {
    hide Fat;
    NotGrown(d, b, first);
  }

  lemma TrackTail(d: Disk, b: Bpb, first: nat, x: seq<nat>, last: nat, e: Disk)
    requires OnTrack(d, b, first, x, last, e)
    ensures last < b.Entries() && Mounted(e, b)
  {
    hide Fat;
    GrownTail(d, b, first, x, e);
  }

  // The cluster the scan found lies in the table.
  lemma ScanInside(e: Disk, b: Bpb, last: nat, c: nat, more: seq<Disk>)
    requires more != [] ==> FirstFree(e, b, Hint(last), c)
    ensures last < b.Entries() && (FreeBehind(e, b, Hint(last)) || b.MaxCluster() < b.Entries()) ==>
              more == [] || c < b.Entries()
    ensures more != [] ==> 2 <= c && (c < b.Entries() ==> Fat(e, b)[c] == 0)
  {
    hide Fat, Entry;
    if more != [] {
      ScanStays(e, b, Hint(last), c);
    }
  }

  lemma LinkingNoRoom(d: Disk, b: Bpb, first: nat, x: seq<nat>, last: nat, e: Disk, c: nat, more: seq<Disk>)
    requires Mounted(e, b) && (more != [] ==> FirstFree(e, b, Hint(last), c))
    requires c < b.Entries() ==> Puts(e, b, c, b.Eoc(), more)
    ensures (more == [] || c < b.Entries()) && OnTrack(d, b, first, x, last, e) ==>
              Linking(d, b, first, x, 0, NoRoom, false, more, Last(e, more))
  {
    hide Fat, GrownTo, FirstFree;
    ScanInside(e, b, last, c, more);
    if more != [] && c < b.Entries() && OnTrack(d, b, first, x, last, e) {
      SeenAllocated(d, b, first, x, e, c, more);
    }
  }

  lemma LinkingIs(d: Disk, b: Bpb, first: nat, x: seq<nat>, last: nat, e: Disk, c: nat, e1: Disk, more: seq<Disk>,
                  rest: seq<Disk>, step: Growth, linked: bool)
    requires OnTrack(d, b, first, x, last, e) && Mounted(e, b) && Mounted(e1, b) && FirstFree(e, b, Hint(last), c)
    requires c < b.Entries() && more != [] && Puts(e, b, c, b.Eoc(), more) && e1 == Last(e, more)
    requires last < b.Entries() && LinkWrites(e1, b, last, c, rest)
    requires !step.NoRoom? && (2 <= last && step.Grown? ==> rest != [])
    requires step.Broken? ==> linked == (rest != [])
    ensures Linking(d, b, first, x, c, step, linked, more + rest, Last(e, more + rest))
  {
    hide Fat, GrownTo, GrowthSeen, LinkWrites, Puts, TornAt, FirstFree, Mounted, Anchored;
    ScanInside(e, b, last, c, more);
    SeenAllocated(d, b, first, x, e, c, more);
    PutsLast(e, b, c, b.Eoc(), more);
    var all := LinkSeen(d, b, first, x, e, c, e1, more, rest);
    assert Last(e, more + rest) == Last(e1, rest);
    if step.Broken? {
      TornIs(d, b, first, x, e, c, e1, rest);
    }
  }

  // The log grows with the chain.
  lemma TrackLog(d: Disk, b: Bpb, first: nat, x: seq<nat>, last: nat, e: Disk, c: nat, step: Growth, linked: bool,
                 log: seq<Disk>, more: seq<Disk>, e': Disk) returns (all: seq<Disk>)
    requires OnTrack(d, b, first, x, last, e) && GrowthSeen(d, b, first, log)
    requires Linking(d, b, first, x, c, step, linked, more, e') && e' == Last(d, log + more)
    ensures all == log + more && GrowthSeen(d, b, first, all)
    ensures step.Grown? ==> OnTrack(d, b, first, x + [c], c, e')
    ensures !step.Grown? ==> Grew(d, b, first, x, step, linked, all, e')
  {
    hide Fat, GrownTo, GrowthSeen, TornAt, Mounted;
    all := SeenAppend(d, b, first, log, more);
  }

  lemma TrackEnds(d: Disk, b: Bpb, first: nat, x: seq<nat>, last: nat, linked: bool, log: seq<Disk>, e: Disk)
    requires OnTrack(d, b, first, x, last, e) && GrowthSeen(d, b, first, log) && e == Last(d, log)
    ensures Grew(d, b, first, x, Grown, linked, log, e)
  {
  }

  lemma TrackRoom(d: Disk, b: Bpb, first: nat, x: seq<nat>, last: nat, e: Disk, c: nat, e': Disk, k: int)
    requires OnTrack(d, b, first, x, last, e) && OnTrack(d, b, first, x + [c], c, e')
    requires Roomy(e, b, last, k) && 0 < k && FirstFree(e, b, Hint(last), c)
    ensures Roomy(e', b, c, k - 1)
  {
    hide Fat, GrownTo, Roomy, FirstFree;
    RoomyStep(d, b, first, x, e, c, e', k);
  }

  // ---------- the phases, as close goes through them ----------

  // Clean: every phase did its work.  Torn: a link failed.  Lost: the chain could not
  // be read, or a cluster without an entry in the table was taken.
  datatype Course = Clean | Torn(linked: bool) | Lost

  // The clusters close has to add are there: free and behind the first one, or the table is of full size.
  ghost predicate Spacious(d: Disk, b: Bpb, first: nat, a: seq<nat>, size: nat)
    requires b.Valid()
  {
    Roomy(d, b, first, ClustersNeeded(b, size) - |a|) || b.MaxCluster() < b.Entries()
  }

  lemma ClosableReady(d: Disk, b: Bpb, first: nat, a: seq<nat>, dir: seq<nat>, name: Name, size: nat)
    requires Mounted(d, b) && Closable(d, b, first, a, dir, name, size)
    ensures Ready(d, b, a, dir, name) && a != [] && a[0] == first && FileChain(d, b, first, a) && 2 <= first
  {
    ReadyChain(d, b, a, dir, name);
    ClosableFirst(d, b, first, a, dir, name, size);
  }

  lemma CloseGrown(d: Disk, b: Bpb, first: nat, a: seq<nat>, dir: seq<nat>, name: Name, data: seq<Byte>, size: nat,
                   x: seq<nat>, growth: Growth, linked: bool, log: seq<Disk>, mid: Disk)
    requires Mounted(d, b) && first < b.Eoc() && Closable(d, b, first, a, dir, name, size)
    requires Grew(d, b, first, x, growth, linked, log, mid)
    requires ClustersNeeded(b, size) <= |a| ==> x == [] && log == []
    requires growth.Grown? ==> ClustersNeeded(b, size) <= |a + x|
    ensures AllSafe(d, b, a, dir, name, a + x, data, log)
    ensures growth.Grown? ==>
              TableOnly(d, mid, b) && Healthy(mid, b, a + x, a[0], dir, name) && Apart(mid, b, a + x, dir)
              && size <= 512 * |Lbas(b, a + x)|
  {
    hide Fat, Raw, Lbas, TableOnly, Apart, AllSafe, GrowthSeen, GrownTo, TornAt, ClustersNeeded, Healthy;
    ClosableReady(d, b, first, a, dir, name, size);
    ChainWalked(d, b, a);
    ChainPhase(d, b, first, a, dir, name, data, size, a, x, log, mid);
  }

  lemma OthersFlushed(d: Disk, mid: Disk, b: Bpb, a: seq<nat>, g: seq<nat>, dir: seq<nat>, data: seq<Byte>, k: nat,
                      log: seq<Disk>, e: Disk, before: seq<Disk>, after: seq<Disk>)
    requires Mounted(mid, b) && AllOthers(d, b, a, dir, log) && OthersKept(d, mid, b, a, dir) && OwnClusters(d, b, a, g)
    requires Flushing(mid, Lbas(b, g), data, k, e, before, after)
    ensures AllOthers(d, b, a, dir, log + FlushLog(mid, Lbas(b, g), data, k)) && OthersKept(d, e, b, a, dir)
  {
    hide OthersKept, OwnClusters, Lbas;
    FlushAllOthers(d, mid, b, a, g, dir, data, k);
  }

  lemma TornFlushed(d: Disk, b: Bpb, a: seq<nat>, dir: seq<nat>, name: Name, x: seq<nat>, linked: bool, log: seq<Disk>,
                    mid: Disk, data: seq<Byte>, k: nat, e: Disk, before: seq<Disk>, after: seq<Disk>)
    requires Ready(d, b, a, dir, name) && |a| == 1 && Grew(d, b, a[0], x, Broken, linked, log, mid)
    requires Flushing(mid, Lbas(b, a + x), data, k, e, before, after)
    ensures TornFile(d, e, b, a[0], |a + x| + (if linked then 1 else 0), dir)
  {
    hide Ready, TornAt, TornFile, Lbas, GrowthSeen;
    TornPhase(d, b, a, dir, name, x, linked, mid, data, k);
  }

  lemma SizeOthers(d: Disk, mid: Disk, b: Bpb, a: seq<nat>, dir: seq<nat>, p: Patch, name: Name, log: seq<Disk>,
                   e: Disk)
    requires Mounted(mid, b) && AllOthers(d, b, a, dir, log) && OthersKept(d, mid, b, a, dir)
    requires Patched(mid, b, dir, p, name, e) && DataClusters(dir)
    ensures AllOthers(d, b, a, dir, log + [e])
  {
    hide OthersKept, Patched;
    ResizeOthers(d, mid, b, a, dir, p, name, e);
  }

  // Whether a failed link reached copy 0 matters only when one failed.
  lemma GrewAnyway(d: Disk, b: Bpb, first: nat, x: seq<nat>, growth: Growth, linked: bool, log: seq<Disk>, mid: Disk)
    requires Mounted(d, b) && first < b.Eoc() && Grew(d, b, first, x, growth, linked, log, mid) && !growth.Broken?
    ensures Grew(d, b, first, x, growth, false, log, mid)
  {
  }

  lemma ReadyFile(d: Disk, b: Bpb, first: nat, a: seq<nat>, dir: seq<nat>, name: Name, size: nat)
    requires Mounted(d, b)
    ensures Closable(d, b, first, a, dir, name, size) ==> Ready(d, b, a, dir, name) && a[0] == first
    ensures Ready(d, b, a, dir, name) ==> a != [] && FileChain(d, b, a[0], a)
  {
    hide Healthy, Apart, ClustersNeeded;
    if Ready(d, b, a, dir, name) {
      ReadyChain(d, b, a, dir, name);
    }
  }

  // The chain as PrepareChain leaves it.
  ghost predicate Prepared(d: Disk, b: Bpb, first: nat, a: seq<nat>, needed: nat, chain: seq<nat>, growth: Growth,
                           course: Course, x: seq<nat>, log: seq<Disk>, mid: Disk) {
    && Mounted(d, b) && Mounted(mid, b)
    && (growth.Broken? ==> |chain| < needed) && (course.Torn? ==> growth.Broken?) && (course.Clean? ==> !growth.Broken?)
    && (FileChain(d, b, first, a) && !course.Lost? ==>
          && chain == a + x && (needed <= |a| ==> x == [] && log == []) && (growth.Grown? ==> needed <= |a + x|)
          && first < b.Eoc()
          && Grew(d, b, first, x, growth, course.Torn? && course.linked, log, mid))
  }

  // What the chain and data phases promise, whatever the device did.
  ghost predicate FlushPromise(d: Disk, e: Disk, b: Bpb, first: nat, a: seq<nat>, dir: seq<nat>, name: Name,
                               data: seq<Byte>, size: nat, course: Course, go: bool, g: seq<nat>, log: seq<Disk>) {
    && Mounted(d, b) && Mounted(e, b)
    && (course.Clean? && Closable(d, b, first, a, dir, name, size) ==>
          && AllSafe(d, b, a, dir, name, g, data, log)
          && (go ==> FlushedFile(d, e, b, a, g, dir, name, data, size)))
    && (course.Torn? && go && Ready(d, b, a, dir, name) && a[0] == first && |a| == 1 ==>
          && |g| < ClustersNeeded(b, size)
          && TornFile(d, e, b, a[0], |g| + (if course.linked then 1 else 0), dir))
    && (!course.Lost? && FileChain(d, b, first, a) ==> AllOthers(d, b, a, dir, log) && OthersKept(d, e, b, a, dir))
    && (!course.Lost? && FileChain(d, b, first, a) && OnDisk(d, Lbas(b, dir)) && Apart(d, b, a, dir) ==>
          SameDir(d, e, b, dir))
  }

  // And on a reliable device.
  ghost predicate FlushProgress(d: Disk, e: Disk, b: Bpb, first: nat, a: seq<nat>, size: nat, course: Course, go: bool,
                                g: seq<nat>)
    requires b.Valid()
  {
    FileChain(d, b, first, a) ==>
      && (Spacious(d, b, first, a, size) ==> course.Clean? && (go || Full(e, b) || !OnDisk(e, Lbas(b, g))))
      && (Roomy(d, b, first, ClustersNeeded(b, size) - |a|) ==> go || !OnDisk(e, Lbas(b, g)))
  }

  // Growth leaves the directory alone.
  lemma GrewDir(d: Disk, b: Bpb, first: nat, x: seq<nat>, growth: Growth, linked: bool, log: seq<Disk>, mid: Disk,
                dir: seq<nat>)
    requires Mounted(d, b) && first < b.Eoc() && Grew(d, b, first, x, growth, linked, log, mid)
    requires OnDisk(d, Lbas(b, dir))
    ensures SameDir(d, mid, b, dir)
  {
    hide Fat, Lbas, DirBytes, TableOnly, Seen, GrownTo, TornAt;
    if log != [] {
      assert mid in log;
      TableOnlyDir(d, mid, b, dir);
    }
  }

  // And so does writing to clusters of the file or free ones.
  lemma FlushedDir(d: Disk, mid: Disk, b: Bpb, a: seq<nat>, g: seq<nat>, dir: seq<nat>, data: seq<Byte>, k: nat,
                   e: Disk, before: seq<Disk>, after: seq<Disk>)
    requires Mounted(d, b) && Mounted(mid, b) && Apart(d, b, a, dir) && OwnClusters(d, b, a, g)
    requires SameDir(d, mid, b, dir) && Flushing(mid, Lbas(b, g), data, k, e, before, after)
    ensures SameDir(d, e, b, dir)
  {
    hide Fat, Lbas, DirBytes;
    FlushFrames(mid, b, g, dir, data, k);
  }

  lemma FlushStops(d: Disk, b: Bpb, first: nat, a: seq<nat>, dir: seq<nat>, name: Name, data: seq<Byte>, size: nat,
                   chain: seq<nat>, course: Course, x: seq<nat>, log: seq<Disk>, mid: Disk)
    requires b.Valid() && Prepared(d, b, first, a, ClustersNeeded(b, size), chain, NoRoom, course, x, log, mid)
    ensures FlushPromise(d, mid, b, first, a, dir, name, data, size, course, false, chain, log)
  {
    hide Closable, AllSafe, FlushedFile, Grew, Ready, TornFile, FileChain, AllOthers, OthersKept, ClustersNeeded,
      Healthy, Apart;
    ReadyFile(d, b, first, a, dir, name, size);
    if !course.Lost? && FileChain(d, b, first, a) {
      GrewOthers(d, b, first, a, x, NoRoom, false, dir, log, mid);
      if OnDisk(d, Lbas(b, dir)) {
        GrewDir(d, b, first, x, NoRoom, false, log, mid, dir);
      }
    }
    if course.Clean? && Closable(d, b, first, a, dir, name, size) {
      CloseGrown(d, b, first, a, dir, name, data, size, x, NoRoom, false, log, mid);
    }
  }

  lemma FlushEnds(d: Disk, b: Bpb, first: nat, a: seq<nat>, dir: seq<nat>, name: Name, data: seq<Byte>, size: nat,
                  g: seq<nat>, growth: Growth, course: Course, x: seq<nat>, log: seq<Disk>, mid: Disk, go: bool, k: nat,
                  e: Disk, before: seq<Disk>, after: seq<Disk>)
    requires b.Valid() && Prepared(d, b, first, a, ClustersNeeded(b, size), g, growth, course, x, log, mid)
    requires !growth.NoRoom?
    requires Flushing(mid, Lbas(b, g), data, k, e, before, after)
    requires go ==> k == SectorsFor(Min(|data|, 512 * |Lbas(b, g)|))
    ensures k <= |Lbas(b, g)| && OnDisk(mid, Lbas(b, g)[..k]) && 512 * k < |data| + 512
    ensures FlushPromise(d, e, b, first, a, dir, name, data, size, course, go, g,
                         log + FlushLog(mid, Lbas(b, g), data, k))
  {
    hide Closable, AllSafe, FlushedFile, Grew, Ready, TornFile, FileChain, AllOthers, OthersKept, ClustersNeeded,
      Healthy, Apart, Lbas, SectorsFor, OwnClusters, Flushing, OnDisk, TableOnly;
    var linked := course.Torn? && course.linked;
    ReadyFile(d, b, first, a, dir, name, size);
    FlushTrace(mid, Lbas(b, g), data, k, e, before, after);
    if !course.Lost? && FileChain(d, b, first, a) {
      GrewOthers(d, b, first, a, x, growth, linked, dir, log, mid);
      OthersFlushed(d, mid, b, a, g, dir, data, k, log, e, before, after);
      if OnDisk(d, Lbas(b, dir)) && Apart(d, b, a, dir) {
        GrewDir(d, b, first, x, growth, linked, log, mid, dir);
        FlushedDir(d, mid, b, a, g, dir, data, k, e, before, after);
      }
    }
    if course.Clean? && Closable(d, b, first, a, dir, name, size) {
      CloseGrown(d, b, first, a, dir, name, data, size, x, growth, linked, log, mid);
      DataPhase(d, mid, b, a, g, dir, name, data, size, k, e, log, before, after);
    }
    if course.Torn? && go && Ready(d, b, a, dir, name) && a[0] == first && |a| == 1 {
      TornFlushed(d, b, a, dir, name, x, linked, log, mid, data, k, e, before, after);
    }
  }

  // ---------- what close promises ----------

  // Crash safety, and the exact outcome when a link failed.
  ghost predicate CloseSafe(d: Disk, e: Disk, b: Bpb, first: nat, a: seq<nat>, dir: seq<nat>, name: Name,
                            data: seq<Byte>, course: Course, saved: bool, g: seq<nat>, log: seq<Disk>)
    requires Mounted(d, b)
  {
    var size := |data| % 0x1_0000_0000;
    && (course.Clean? && 0 < size && Closable(d, b, first, a, dir, name, size) ==>
          && AllSafe(d, b, a, dir, name, g, data, log)
          && (saved ==> Saved(e, b, g, a[0], dir, name, data)))
    && (course.Torn? && saved && 0 < size && Ready(d, b, a, dir, name) && a[0] == first && |a| == 1 ==>
          ((exists h :: Healthy(e, b, h, a[0], dir, name)) <==> course.linked && |g| + 1 == ClustersNeeded(b, size)))
  }

  // On a reliable device a closable file is saved, unless the volume is full or the chain leaves the disk.
  ghost predicate CloseProgress(d: Disk, e: Disk, b: Bpb, first: nat, a: seq<nat>, dir: seq<nat>, name: Name, size: nat,
                                course: Course, saved: bool, g: seq<nat>)
    requires Mounted(d, b)
  {
    Closable(d, b, first, a, dir, name, size) ==>
      && (Spacious(d, b, first, a, size) ==> course.Clean? && (saved || Full(e, b) || !OnDisk(e, Lbas(b, g))))
      && (Roomy(d, b, first, ClustersNeeded(b, size) - |a|) ==> saved || !OnDisk(e, Lbas(b, g)))
  }

  // Truncation done: the chain's entries read 0, and on no disk on the way does the entry lead to a chain.
  ghost predicate Dangling(d: Disk, e: Disk, b: Bpb, a: seq<nat>, log: seq<Disk>) {
    && a != [] && (forall i :: 0 <= i < |a| ==> Cluster(Fat(d, b), a[i]))
    && Fat(e, b) == Zeroed(Fat(d, b), a) && log != []
    && forall t :: t in log ==> Chainless(t, b, a[0])
  }

  // Whatever the device did: crash safety for the file, nothing lost of other files, only the size
  // changed in the entry, also of a file that had no cluster yet, and for a size of 0 what truncation leaves.
  ghost predicate ClosePromise(d: Disk, e: Disk, b: Bpb, first: nat, a: seq<nat>, dir: seq<nat>, name: Name,
                               data: seq<Byte>, course: Course, saved: bool, g: seq<nat>, log: seq<Disk>)
    requires Mounted(d, b)
  {
    && CloseSafe(d, e, b, first, a, dir, name, data, course, saved, g, log)
    && (!course.Lost? && FileChain(d, b, first, a) ==> AllOthers(d, b, a, dir, log))
    && (!course.Lost? && FileChain(d, b, first, a) && OnDisk(d, Lbas(b, dir)) && Apart(d, b, a, dir) && saved ==>
          Resized(d, e, b, dir, name, |data| % 0x1_0000_0000))
    && (|data| % 0x1_0000_0000 == 0 && a != [] && FileChain(d, b, first, a) ==>
          Truncation(d, e, b, a, dir, name, saved, log))
  }

  // On a reliable device: the file is saved, or its chain is freed.
  ghost predicate CloseDelivers(d: Disk, e: Disk, b: Bpb, first: nat, a: seq<nat>, dir: seq<nat>, name: Name,
                                data: seq<Byte>, course: Course, saved: bool, g: seq<nat>, log: seq<Disk>, first': nat)
    requires Mounted(d, b)
  {
    if 0 < |data| % 0x1_0000_0000
    then CloseProgress(d, e, b, first, a, dir, name, |data| % 0x1_0000_0000, course, saved, g)
    else a != [] && FileChain(d, b, first, a) ==> first' == 0 && Dangling(d, e, b, a, log)
  }

  // ---------- putting the phases together ----------

  lemma NothingClosed(d: Disk, b: Bpb, first: nat, a: seq<nat>, dir: seq<nat>, name: Name, data: seq<Byte>)
    requires Mounted(d, b)
    ensures ClosePromise(d, d, b, first, a, dir, name, data, Clean, false, [], [])
  {
    hide Healthy, Apart, ClustersNeeded;
  }

  lemma CloseUnsaved(d: Disk, e: Disk, b: Bpb, first: nat, a: seq<nat>, dir: seq<nat>, name: Name, data: seq<Byte>,
                     course: Course, go: bool, g: seq<nat>, log: seq<Disk>)
    requires FlushPromise(d, e, b, first, a, dir, name, data, |data| % 0x1_0000_0000, course, go, g, log)
    requires 0 < |data| % 0x1_0000_0000
    ensures ClosePromise(d, e, b, first, a, dir, name, data, course, false, g, log)
  {
    hide Closable, AllSafe, Ready, FlushedFile, TornFile, AllOthers, OthersKept, FileChain, ClustersNeeded;
  }

  lemma ReadyNames(d: Disk, b: Bpb, a: seq<nat>, dir: seq<nat>, name: Name)
    requires Ready(d, b, a, dir, name)
    ensures EntryNames(d, b, dir, name, a[0])
  {
  }

  lemma CloseSaved(d: Disk, mid: Disk, e: Disk, b: Bpb, first: nat, a: seq<nat>, dir: seq<nat>, name: Name,
                   data: seq<Byte>, course: Course, g: seq<nat>, log: seq<Disk>)
    requires FlushPromise(d, mid, b, first, a, dir, name, data, |data| % 0x1_0000_0000, course, true, g, log)
    requires 0 < |data| % 0x1_0000_0000 && DataClusters(dir)
    requires Patched(mid, b, dir, Resize(|data| % 0x1_0000_0000), name, e)
    ensures ClosePromise(d, e, b, first, a, dir, name, data, course, true, g, log + [e])
  {
    hide Closable, AllSafe, Ready, FlushedFile, TornFile, AllOthers, OthersKept, FileChain, ClustersNeeded, Patched,
      Saved, Healthy, DataClusters;
    var size := |data| % 0x1_0000_0000;
    ReadyFile(d, b, first, a, dir, name, size);
    if course.Clean? && Closable(d, b, first, a, dir, name, size) {
      SizePhase(d, mid, b, a, g, dir, name, data, log, e);
    }
    if course.Torn? && Ready(d, b, a, dir, name) && a[0] == first && |a| == 1 {
      ReadyNames(d, b, a, dir, name);
      TornCoveredIff(d, mid, b, first, g, dir, name, course.linked, size, e);
    }
    if !course.Lost? && FileChain(d, b, first, a) && OnDisk(d, Lbas(b, dir)) && Apart(d, b, a, dir) {
      PatchResizes(d, mid, b, dir, name, size, e);
    }
    if !course.Lost? && FileChain(d, b, first, a) {
      SizeOthers(d, mid, b, a, dir, Resize(size), name, log, e);
    }
  }

  // The directory is on the disk and names the file.
  ghost predicate Listed(d: Disk, b: Bpb, dir: seq<nat>, name: Name) {
    dir != [] && OnDisk(d, Lbas(b, dir)) && Lookup(DirBytes(d, b, dir), name).Some?
  }

  // After a completed flush it does.
  lemma CloseFinds(d: Disk, mid: Disk, b: Bpb, first: nat, a: seq<nat>, dir: seq<nat>, name: Name, data: seq<Byte>,
                   size: nat, g: seq<nat>, log: seq<Disk>)
    requires FlushPromise(d, mid, b, first, a, dir, name, data, size, Clean, true, g, log)
    requires Closable(d, b, first, a, dir, name, size)
    ensures Listed(mid, b, dir, name)
  {
    hide Closable, AllSafe, Ready, FlushedFile, AllOthers, OthersKept, FileChain, ClustersNeeded, Lbas, DirBytes,
      Lookup;
    FlushedFind(d, mid, b, a, g, dir, name, data, size);
  }

  lemma ProgressStops(d: Disk, e: Disk, b: Bpb, first: nat, a: seq<nat>, dir: seq<nat>, name: Name, data: seq<Byte>,
                      course: Course, g: seq<nat>, log: seq<Disk>, first': nat)
    requires Mounted(d, b) && 0 < |data| % 0x1_0000_0000
    requires FlushProgress(d, e, b, first, a, |data| % 0x1_0000_0000, course, false, g)
    ensures CloseDelivers(d, e, b, first, a, dir, name, data, course, false, g, log, first')
  {
    hide Ready, FileChain, Roomy, Full, OnDisk, Lbas, ClustersNeeded, Dangling;
    var size := |data| % 0x1_0000_0000;
    ReadyFile(d, b, first, a, dir, name, size);
  }

  // A flush that got through is followed by a size that is recorded.
  lemma ProgressEnds(d: Disk, mid: Disk, e: Disk, b: Bpb, first: nat, a: seq<nat>, dir: seq<nat>, name: Name,
                     data: seq<Byte>, course: Course, g: seq<nat>, log: seq<Disk>, saved: bool, all: seq<Disk>,
                     first': nat)
    requires Mounted(d, b) && 0 < |data| % 0x1_0000_0000
    requires FlushProgress(d, mid, b, first, a, |data| % 0x1_0000_0000, course, true, g)
    requires FlushPromise(d, mid, b, first, a, dir, name, data, |data| % 0x1_0000_0000, course, true, g, log)
    requires Listed(mid, b, dir, name) ==> saved
    ensures CloseDelivers(d, e, b, first, a, dir, name, data, course, saved, g, all, first')
  {
    hide Ready, FileChain, Roomy, Full, OnDisk, Lbas, ClustersNeeded, FlushPromise, DirBytes, Lookup, Dangling;
    var size := |data| % 0x1_0000_0000;
    ReadyFile(d, b, first, a, dir, name, size);
    if Closable(d, b, first, a, dir, name, size) && course.Clean? {
      CloseFinds(d, mid, b, first, a, dir, name, data, size, g, log);
    }
  }

  lemma TruncationReads(d: Disk, b: Bpb, first: nat, a: seq<nat>)
    requires Mounted(d, b) && a != [] && FileChain(d, b, first, a)
    ensures 2 <= first && Walk(Raw(d, b), first, CHAIN_LIMIT) == a && Readable(d, b, a) && InTable(b, a)
  {
    hide Fat, Raw;
    ChainWalked(d, b, a);
    ChainClusters(Fat(d, b), a);
  }

  // The disk between freeing the chain and recording the size.
  ghost predicate ChainFreed(d: Disk, b: Bpb, first: nat, a: seq<nat>, ok: bool, log: seq<Disk>, mid: Disk) {
    && Mounted(d, b) && Mounted(mid, b) && mid == Last(d, log)
    && (FileChain(d, b, first, a) ==>
          if a == [] then log == [] else FreeingLog(d, b, a, log) && (ok ==> Freed(d, b, a, mid)))
  }

  lemma FreedChain(d: Disk, b: Bpb, first: nat, a: seq<nat>, freed: seq<nat>, ok: bool, log: seq<Disk>, mid: Disk)
    requires Mounted(d, b) && Mounted(mid, b) && mid == Last(d, log) && 2 <= first
    requires ok || log != [] ==> freed == Walk(Raw(d, b), first, CHAIN_LIMIT)
    requires InTable(b, freed) ==>
               (forall t :: t in log ==> Freeing(d, b, freed, t)) && (ok ==> Freed(d, b, freed, mid))
    ensures ChainFreed(d, b, first, a, ok, log, mid)
  {
    hide Fat, Raw, Freeing, Freed, InTable;
    if FileChain(d, b, first, a) {
      ChainWalked(d, b, a);
    }
  }

  lemma NothingFreed(d: Disk, b: Bpb, first: nat, a: seq<nat>)
    requires Mounted(d, b) && first < 2
    ensures ChainFreed(d, b, first, a, false, [], d) && (FileChain(d, b, first, a) ==> a == [])
  {
    hide Fat;
    if a != [] && IsChain(Fat(d, b), a) {
      ChainClusters(Fat(d, b), a);
    }
  }

  // The truncating close, whole.
  lemma TruncatingClose(d: Disk, b: Bpb, first: nat, a: seq<nat>, dir: seq<nat>, name: Name, data: seq<Byte>, ok: bool,
                        log: seq<Disk>, mid: Disk, saved: bool, e: Disk, g: seq<nat>, all: seq<Disk>, first': nat)
    requires ChainFreed(d, b, first, a, ok, log, mid) && |data| % 0x1_0000_0000 == 0
    requires if saved then Patched(mid, b, dir, Resize(0), name, e) && DataClusters(dir) && all == log + [e]
             else e == mid && all == log
    ensures ClosePromise(d, e, b, first, a, dir, name, data, Clean, saved, g, all)
    ensures (a != [] && FileChain(d, b, first, a) ==> ok && first' == 0) ==>
              CloseDelivers(d, e, b, first, a, dir, name, data, Clean, saved, g, all, first')
  {
    hide FileChain, AllOthers, Truncation, Dangling, Patched, DataClusters, Resized, Apart, Closable, Ready;
    if FileChain(d, b, first, a) {
      TruncationEnds(d, b, first, a, dir, name, ok, log, mid, saved, e, all);
    }
  }

  lemma TruncationEnds(d: Disk, b: Bpb, first: nat, a: seq<nat>, dir: seq<nat>, name: Name, ok: bool, log: seq<Disk>,
                       mid: Disk, saved: bool, e: Disk, all: seq<Disk>)
    requires ChainFreed(d, b, first, a, ok, log, mid) && FileChain(d, b, first, a)
    requires if saved then Patched(mid, b, dir, Resize(0), name, e) && DataClusters(dir) && all == log + [e]
             else e == mid && all == log
    ensures AllOthers(d, b, a, dir, all)
    ensures a != [] ==> Truncation(d, e, b, a, dir, name, saved, all)
    ensures saved ==> Resized(d, e, b, dir, name, 0)
    ensures a != [] && ok ==> Dangling(d, e, b, a, all)
  {
    hide Fat, FreeingLog, Freed, AllOthers, OthersKept, Truncation, Patched, Dangling, DataClusters, Resized;
    OthersSelf(d, b, a, dir);
    if a == [] {
      if saved {
        SizeOthers(d, mid, b, a, dir, Resize(0), name, log, e);
        PatchedHere(d, b, dir, name, e);
      }
    } else {
      FreePhase(d, b, a, dir, log);
      if saved {
        TruncatedSaved(d, b, a, dir, name, log, mid, e);
        TruncationResizes(d, e, b, a, dir, name, all);
      } else {
        TruncatedUnsaved(d, b, a, dir, name, log);
      }
      if ok {
        DanglingIs(d, b, a, dir, name, log, mid, saved, e, all);
      }
    }
  }

  lemma PatchedHere(d: Disk, b: Bpb, dir: seq<nat>, name: Name, e: Disk)
    requires Patched(d, b, dir, Resize(0), name, e)
    ensures Resized(d, e, b, dir, name, 0)
  {
    hide Lbas, DirBytes, Lookup, Resized;
    PatchResizes(d, d, b, dir, name, 0, e);
  }

  lemma TruncationResizes(d: Disk, e: Disk, b: Bpb, a: seq<nat>, dir: seq<nat>, name: Name, log: seq<Disk>)
    requires Truncation(d, e, b, a, dir, name, true, log)
    ensures Resized(d, e, b, dir, name, 0)
  {
  }

  lemma DanglingIs(d: Disk, b: Bpb, a: seq<nat>, dir: seq<nat>, name: Name, log: seq<Disk>, mid: Disk, saved: bool,
                   e: Disk, all: seq<Disk>)
    requires Mounted(d, b) && Mounted(mid, b) && mid == Last(d, log) && IsChain(Fat(d, b), a)
    requires FreeingLog(d, b, a, log)
    requires Freed(d, b, a, mid)
    requires if saved then Patched(mid, b, dir, Resize(0), name, e) && DataClusters(dir) && all == log + [e]
             else e == mid && all == log
    ensures Dangling(d, e, b, a, all)
  {
    hide FreeingLog, OthersKept, Patched, DataClusters, TableOnly;
    FreePhase(d, b, a, dir, log);
    assert Cluster(Fat(d, b), a[0]) && a[0] in a;
    ChainNotFree(Fat(d, b), a, a[0]);
    ZeroedAt(Fat(d, b), a, a[0]);
    assert Fat(mid, b) == Zeroed(Fat(d, b), a);
    if saved {
      OthersSelf(mid, b, a, dir);
      ResizeOthers(mid, mid, b, a, dir, Resize(0), name, e);
    }
  }
}
