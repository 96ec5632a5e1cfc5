/**
 * Open files.  A handle buffers the whole file; close grows the chain, writes
 * the data and, last, the size in the directory entry.
 */
module FatFile {
  import opened Wrappers
  import opened Octets
  import opened FatDisk
  import opened FatChains
  import opened FatData
  import opened FatDirs
  import opened FatVolume
  import opened FatGrowth
  import opened FatClose

  class FileHandle {
    const vol: Volume
    const name: Name
    var data: seq<Byte>
    var pos: nat
    var firstCluster: nat
    var diskSize: nat
    var dirChain: Option<seq<nat>>
    var dirty: bool

    constructor (vol: Volume, data: seq<Byte>, firstCluster: nat, diskSize: nat, dirChain: Option<seq<nat>>, name: Name)
      ensures this.vol == vol && this.name == name && this.data == data && pos == 0 && this.firstCluster == firstCluster
      ensures this.diskSize == diskSize && this.dirChain == dirChain && !dirty
    {
      this.vol, this.data, this.pos, this.firstCluster := vol, data, 0, firstCluster;
      this.diskSize, this.dirChain, this.name, this.dirty := diskSize, dirChain, name, false;
    }

    // One more cluster behind last: allocated, then linked.
    method LinkOne(last: nat, ghost d0: Disk, ghost first: nat, ghost x: seq<nat>)
      returns (step: Growth, c: nat, ghost inside: bool, ghost linked: bool, ghost more: seq<Disk>)
      requires vol.Valid()
      modifies vol`d, vol`trace
      ensures vol.Valid() && vol.trace == old(vol.trace) + more && vol.d == Last(old(vol.d), more)
      ensures step.Grown? ==> FirstFree(old(vol.d), vol.b, Hint(last), c)
      ensures inside && OnTrack(d0, vol.b, first, x, last, old(vol.d)) ==>
                Linking(d0, vol.b, first, x, c, step, linked, more, vol.d)
      ensures last < vol.b.Entries() ==>
                (FreeBehind(old(vol.d), vol.b, Hint(last)) || vol.b.MaxCluster() < vol.b.Entries() ==> inside)
      ensures vol.reliable && inside && last < vol.b.Entries() ==> !step.Broken?
      ensures vol.reliable && FreeBehind(old(vol.d), vol.b, Hint(last)) && last < vol.b.Entries() ==> step.Grown?
      ensures vol.reliable && vol.b.MaxCluster() < vol.b.Entries() && last < vol.b.Entries() && step.NoRoom? ==>
                Full(vol.d, vol.b) && more == []
    {
      hide OnTrack, Linking, FirstFree, FreeBehind, Full, Fat, Mounted, Puts, AllCopies, Extension, Extending, Entry;
      var b := vol.b;
      ghost var e := vol.d;
      var r;
      ghost var k;
      r, k, more := vol.AllocateCluster(if last >= 2 then last + 1 else 2);
      inside, linked, c := more == [] || k < b.Entries(), false, 0;
      ScanInside(e, b, last, k, more);
      if r.Err? {
        if r == Err(NoSpace) {
          NoSpaceFull(vol.d, b, Hint(last));
        }
        LinkingNoRoom(d0, b, first, x, last, e, k, more);
        step := NoRoom;
        return;
      }
      c := r.value;
      ghost var e1, rest := vol.d, [];
      var ok;
      if last >= 2 {
        ok, rest := vol.ExtendChain(last, c);
        linked := rest != [];
        step := if ok then Grown else Broken;
      } else {
        ok, rest := vol.WriteFatEntry(c, b.Eoc());
        KeepEoc(b);
        step := Grown;
      }
      if inside && OnTrack(d0, b, first, x, last, e) {
        TrackTail(d0, b, first, x, last, e);
        LinkingIs(d0, b, first, x, last, e, c, e1, more, rest, step, linked);
      }
      more := more + rest;
    }

    // close, step 1: allocate clusters until the chain is long enough.
    method GrowChain(chain0: seq<nat>, needed: nat)
      returns (chain: seq<nat>, growth: Growth, ghost x: seq<nat>, ghost log: seq<Disk>, ghost inside: bool,
               ghost linked: bool)
      requires vol.Valid()
      modifies vol`d, vol`trace
      ensures vol.Valid() && vol.trace == old(vol.trace) + log && vol.d == Last(old(vol.d), log)
      ensures chain == chain0 + x && (growth.Grown? ==> needed <= |chain|) && (growth.Broken? ==> |chain| < needed)
      ensures needed <= |chain0| ==> growth.Grown? && x == [] && log == [] && inside
      ensures Anchored(old(vol.d), vol.b, firstCluster) && inside ==>
                Grew(old(vol.d), vol.b, firstCluster, x, growth, linked, log, vol.d)
      ensures Anchored(old(vol.d), vol.b, firstCluster)
              && (Roomy(old(vol.d), vol.b, firstCluster, needed - |chain0|) || vol.b.MaxCluster() < vol.b.Entries()) ==>
                inside && (vol.reliable ==> growth.Grown? || (growth.NoRoom? && Full(vol.d, vol.b)))
      ensures vol.reliable && Anchored(old(vol.d), vol.b, firstCluster) ==>
                (Roomy(old(vol.d), vol.b, firstCluster, needed - |chain0|) ==> growth.Grown?)
    {
      hide Grew, Anchored, Roomy, GrownTo, GrowthSeen, Fat, Mounted, FirstFree, FreeBehind, Full, Linking;
      var b := vol.b;
      ghost var d0, first := vol.d, firstCluster;
      ghost var anchored := Anchored(d0, b, first);
      ghost var roomy := anchored && Roomy(d0, b, first, needed - |chain0|);
      ghost var wide := anchored && b.MaxCluster() < b.Entries();
      chain, x, log, inside, linked := chain0, [], [], true, false;
      if anchored {
        StartTrack(d0, b, first);
      }
      var last := firstCluster;
      while |chain| < needed
        invariant vol.Valid() && vol.trace == old(vol.trace) + log && vol.d == Last(d0, log)
        invariant chain == chain0 + x && last == Tail(first, x)
        invariant needed <= |chain0| ==> x == [] && log == []
        invariant anchored && inside ==> OnTrack(d0, b, first, x, last, vol.d) && GrowthSeen(d0, b, first, log)
        invariant roomy || wide || (x == [] && log == []) ==> inside
        invariant roomy ==> Roomy(vol.d, b, last, needed - |chain|)
        decreases needed - |chain|
      {
        ghost var e := vol.d;
        if roomy {
          RoomyFinds(e, b, last, needed - |chain|);
        }
        if anchored && inside {
          TrackTail(d0, b, first, x, last, e);
        }
        var c;
        ghost var stays, more;
        growth, c, stays, linked, more := LinkOne(last, d0, first, x);
        inside := inside && stays;
        if anchored && inside {
          log := TrackLog(d0, b, first, x, last, e, c, growth, linked, log, more, vol.d);
        } else {
          log := log + more;
        }
        if !growth.Grown? {
          return;
        }
        if roomy {
          TrackRoom(d0, b, first, x, last, e, c, vol.d, needed - |chain|);
        }
        chain, x := chain + [c], x + [c];
        last := c;
      }
      growth := Grown;
      if anchored && inside {
        TrackEnds(d0, b, first, x, last, linked, log, vol.d);
      }
    }

    // close, step 1: read the chain and grow it.
    method PrepareChain(needed: nat, ghost a: seq<nat>)
      returns (chain: seq<nat>, growth: Growth, ghost course: Course, ghost x: seq<nat>, ghost log: seq<Disk>)
      requires vol.Valid()
      modifies vol`d, vol`trace
      ensures vol.Valid() && vol.trace == old(vol.trace) + log && vol.d == Last(old(vol.d), log)
      ensures Prepared(old(vol.d), vol.b, firstCluster, a, needed, chain, growth, course, x, log, vol.d)
      ensures vol.reliable && FileChain(old(vol.d), vol.b, firstCluster, a) ==>
                && (Roomy(old(vol.d), vol.b, firstCluster, needed - |a|) || vol.b.MaxCluster() < vol.b.Entries() ==>
                      course.Clean? && (growth.Grown? || Full(vol.d, vol.b)))
                && (Roomy(old(vol.d), vol.b, firstCluster, needed - |a|) ==> growth.Grown?)
    {
      hide Grew, Anchored, Raw, FileChain, Roomy, Full, Readable, Mounted;
      var b := vol.b;
      chain := [];
      ghost var read := true;
      if FileChain(vol.d, b, firstCluster, a) {
        ChainRead(vol.d, b, firstCluster, a);
      }
      if firstCluster != 0 {
        var ok;
        ok, chain := vol.ReadClusterChain(firstCluster);
        if !ok {
          chain := [];
        }
        read := ok;
      }
      ghost var inside, linked;
      chain, growth, x, log, inside, linked := GrowChain(chain, needed);
      course := if !read || !inside then Lost else if growth.Broken? then Torn(linked) else Clean;
      if !course.Lost? && FileChain(old(vol.d), b, firstCluster, a) && !growth.Broken? {
        GrewAnyway(old(vol.d), b, firstCluster, x, growth, linked, log, vol.d);
      }
    }

    // close, step 1: chain, then data.
    method FlushData(newSize: nat, ghost a: seq<nat>, ghost dir: seq<nat>)
      returns (go: bool, ghost course: Course, ghost g: seq<nat>, ghost log: seq<Disk>)
      requires vol.Valid()
      modifies this`firstCluster, vol`d, vol`trace
      ensures vol.Valid() && vol.trace == old(vol.trace) + log && vol.d == Last(old(vol.d), log)
      ensures FlushPromise(old(vol.d), vol.d, vol.b, old(firstCluster), a, dir, name, data, newSize, course, go, g, log)
      ensures vol.reliable ==> FlushProgress(old(vol.d), vol.d, vol.b, old(firstCluster), a, newSize, course, go, g)
      ensures old(firstCluster) != 0 ==> firstCluster == old(firstCluster)
      ensures old(firstCluster) == 0 && go ==> firstCluster == if g == [] then 0 else g[0]
    {
      hide FlushPromise, Prepared, Fat, Flushing, FileChain, Roomy, ClustersNeeded, Lbas, SectorsFor, Full, OnDisk;
      var b := vol.b;
      ghost var first, d0 := firstCluster, vol.d;
      var chain, growth;
      ghost var x;
      chain, growth, course, x, log := PrepareChain(ClustersNeeded(b, newSize), a);
      g := chain;
      ghost var mid, log1 := vol.d, log;
      if growth.NoRoom? {
        FlushStops(d0, b, first, a, dir, name, data, newSize, chain, course, x, log, mid);
        return false, course, g, log;
      }
      if firstCluster == 0 && chain != [] {
        firstCluster := chain[0];
      }
      var written;
      ghost var k;
      go, written, k := vol.WriteFromStart(chain, data);
      FlushTrace(mid, Lbas(b, g), data, k, vol.d, old(vol.trace) + log1, vol.trace);
      SameSectors(mid, vol.d, Lbas(b, g));
      FlushEnds(d0, b, first, a, dir, name, data, newSize, g, growth, course, x, log1, mid, go, k, vol.d,
                old(vol.trace) + log1, vol.trace);
      log := log1 + FlushLog(mid, Lbas(b, g), data, k);
    }

    // close, step 1 for an empty file: free the chain.
    method FreeChain(ghost a: seq<nat>) returns (ghost freed: bool, ghost log: seq<Disk>)
      requires vol.Valid()
      modifies this`firstCluster, vol`d, vol`trace
      ensures vol.Valid() && vol.trace == old(vol.trace) + log && vol.d == Last(old(vol.d), log)
      ensures ChainFreed(old(vol.d), vol.b, old(firstCluster), a, freed, log, vol.d)
      ensures vol.reliable && a != [] && FileChain(old(vol.d), vol.b, old(firstCluster), a) ==>
                freed && firstCluster == 0
    {
      hide FileChain, Raw, Readable, InTable, ChainFreed, Freed, Freeing, TableOnly;
      freed, log := false, [];
      ghost var d0, first := vol.d, firstCluster;
      if a != [] && FileChain(d0, vol.b, first, a) {
        TruncationReads(d0, vol.b, first, a);
      }
      if firstCluster >= 2 {
        var ok;
        ghost var chain;
        ok, chain, log := vol.FreeClusterChain(firstCluster);
        FreedChain(d0, vol.b, first, a, chain, ok, log, vol.d);
        freed := ok;
        if ok {
          firstCluster := 0;
        }
      } else {
        NothingFreed(d0, vol.b, first, a);
      }
    }

    // close, step 2: the size in the directory entry.
    method RecordSize(dir: seq<nat>, newSize: nat) returns (ghost saved: bool)
      requires vol.Valid() && DataClusters(dir) && Distinct(dir)
      modifies vol`d, vol`trace
      ensures vol.Valid()
      ensures saved ==>
                Patched(old(vol.d), vol.b, dir, Resize(newSize), name, vol.d) && vol.trace == old(vol.trace) + [vol.d]
      ensures !saved ==> vol.d == old(vol.d) && vol.trace == old(vol.trace)
      ensures vol.reliable && Listed(old(vol.d), vol.b, dir, name) ==> saved
    {
      hide Patched, OnDisk, Lbas, DirBytes, Lookup, Distinct, DataClusters;
      saved := false;
      if dir != [] {
        var r := vol.UpdateDirEntrySize(dir, name, newSize);
        saved := r.Ok?;
      }
    }

    // Grow the chain, write the data, and last the size; or free the chain and record size 0.
    method Close(ghost a: seq<nat>)
      returns (ghost course: Course, ghost saved: bool, ghost g: seq<nat>, ghost log: seq<Disk>)
      requires vol.Valid()
      requires dirChain.Some? ==> DataClusters(dirChain.value) && Distinct(dirChain.value)
      modifies this, vol`d, vol`trace
      ensures vol.Valid() && vol.trace == old(vol.trace) + log && vol.d == Last(old(vol.d), log)
      ensures data == old(data) && pos == old(pos) && dirChain == old(dirChain)
      ensures !old(dirty) || dirChain.None? ==> log == [] && !saved
      ensures saved ==> !dirty && diskSize == |data| % 0x1_0000_0000
      ensures |data| % 0x1_0000_0000 > 0 && old(firstCluster) != 0 ==> firstCluster == old(firstCluster)
      ensures |data| % 0x1_0000_0000 > 0 && old(firstCluster) == 0 && saved ==>
                firstCluster == if g == [] then 0 else g[0]
      ensures dirChain.Some? ==>
                ClosePromise(old(vol.d), vol.d, vol.b, old(firstCluster), a, dirChain.value, name, data, course, saved,
                             g, log)
      ensures vol.reliable && old(dirty) && dirChain.Some? ==>
                CloseDelivers(old(vol.d), vol.d, vol.b, old(firstCluster), a, dirChain.value, name, data, course, saved,
                              g, log, firstCluster)
    {
      hide ClosePromise, CloseDelivers, FileChain, FlushPromise, FlushProgress, Patched, Distinct, DataClusters, Listed,
        ChainFreed;
      course, saved, g, log := Clean, false, [], [];
      if !dirty || dirChain.None? {
        if dirChain.Some? {
          NothingClosed(vol.d, vol.b, firstCluster, a, dirChain.value, name, data);
        }
        return;
      }
      var dir := dirChain.value;
      var newSize := |data| % 0x1_0000_0000;
      ghost var first, d0, freed := firstCluster, vol.d, false;
      if newSize > 0 {
        var go;
        go, course, g, log := FlushData(newSize, a, dir);
        CloseUnsaved(d0, vol.d, vol.b, first, a, dir, name, data, course, go, g, log);
        if !go {
          if vol.reliable {
            ProgressStops(d0, vol.d, vol.b, first, a, dir, name, data, course, g, log, firstCluster);
          }
          return;
        }
      } else {
        freed, log := FreeChain(a);
      }
      ghost var mid, log1 := vol.d, log;
      saved := RecordSize(dir, newSize);
      log := if saved then log1 + [vol.d] else log1;
      if newSize > 0 {
        if saved {
          CloseSaved(d0, mid, vol.d, vol.b, first, a, dir, name, data, course, g, log1);
        }
        if vol.reliable {
          ProgressEnds(d0, mid, vol.d, vol.b, first, a, dir, name, data, course, g, log1, saved, log, firstCluster);
        }
      } else {
        TruncatingClose(d0, vol.b, first, a, dir, name, data, freed, log1, mid, saved, vol.d, g, log, firstCluster);
      }
      dirty := false;
      diskSize := newSize;
    }

    // ---------- the buffer ----------

    method Read(n: nat) returns (out: seq<Byte>)
      modifies this`pos
      ensures out == if old(pos) < |data| then data[old(pos)..old(pos) + Min(n, |data| - old(pos))] else []
      ensures pos == old(pos) + |out|
    {
      if pos >= |data| {
        return [];
      }
      var k := Min(n, |data| - pos);
      out := data[pos..pos + k];
      pos := pos + k;
    }

    // A write past the end first fills the gap with zeros.
    method Write(buf: seq<Byte>) returns (n: nat)
      modifies this`data, this`pos, this`dirty
      ensures n == |buf|
      ensures buf == [] ==> data == old(data) && pos == old(pos) && dirty == old(dirty)
      ensures buf != [] ==> dirty && pos == old(pos) + |buf| && |data| == if pos < |old(data)| then |old(data)| else pos
      ensures buf != [] ==> data[old(pos)..pos] == buf
      ensures forall i :: 0 <= i < |data| && (i < old(pos) || pos <= i) ==>
                data[i] == if i < |old(data)| then old(data)[i] else 0
    {
      n := |buf|;
      if buf == [] {
        return;
      }
      var end := pos + |buf|;
      if end > |data| {
        data := data + seq(end - |data|, _ => 0);
      }
      data := data[..pos] + buf + data[end..];
      pos := end;
      dirty := true;
    }
  }

  // ---------- opening ----------

  function ByteAt(d: Disk, lbas: seq<nat>, i: nat): Byte {
    if i / 512 < |lbas| && lbas[i / 512] < |d| then d[lbas[i / 512]][i % 512] else 0
  }

  // What the driver reads for a first cluster and a size: the sectors of the chain, then zeros.
  ghost function FileBytes(d: Disk, b: Bpb, first: nat, size: nat): seq<Byte> {
    SectorBytes(d, Lbas(b, Walk(Raw(d, b), first, CHAIN_LIMIT)), size)
  }

  ghost function SectorBytes(d: Disk, lbas: seq<nat>, size: nat): seq<Byte> {
    seq(size, i requires 0 <= i < size => ByteAt(d, lbas, i))
  }

  method LoadFile(vol: Volume, first: nat, size: nat) returns (ok: bool, data: seq<Byte>)
    requires vol.Valid()
    ensures ok ==> data == FileBytes(vol.d, vol.b, first, size)
    ensures vol.reliable && Within(vol.d, vol.b, Walk(Raw(vol.d, vol.b), first, CHAIN_LIMIT)) ==> ok
  {
    hide Raw, Copied, Lbas, Readable, SectorBytes;
    var chain;
    ok, chain := vol.ReadClusterChain(first);
    data := [];
    if ok {
      var buf := new Byte[size](_ => 0);
      ghost var was := buf[..];
      var n;
      ok, n := vol.ReadFileData(chain, buf);
      if ok {
        CopiedBytes(vol.d, Lbas(vol.b, chain), was, buf[..], n);
      }
      data := buf[..];
    }
  }

  lemma CopiedBytes(d: Disk, lbas: seq<nat>, was: seq<Byte>, buf: seq<Byte>, n: nat)
    requires Copied(d, lbas, was, buf, n) && n == Min(|buf|, 512 * |lbas|) && forall i :: 0 <= i < |was| ==> was[i] == 0
    ensures buf == SectorBytes(d, lbas, |buf|)
  {
  }

  // Open through the path: no parent directory, so close will not write.
  method Open(vol: Volume, first: nat, size: nat) returns (ok: bool, h: FileHandle)
    requires vol.Valid()
    ensures ok ==> fresh(h) && h.vol == vol && h.firstCluster == first && h.diskSize == size && h.dirChain.None?
    ensures ok ==> !h.dirty && h.pos == 0 && h.data == FileBytes(vol.d, vol.b, first, size)
    ensures vol.reliable && Within(vol.d, vol.b, Walk(Raw(vol.d, vol.b), first, CHAIN_LIMIT)) ==> ok
  {
    hide FileBytes, Within;
    var data;
    ok, data := LoadFile(vol, first, size);
    h := new FileHandle(vol, data, first, size, None, []);
  }

  predicate IsDirectory(e: DirEntry) {
    e.attributes / 16 % 2 == 1
  }

  // The first entry of that name that is a file.
  function FirstFile(entries: seq<DirEntry>, name: Name): Option<DirEntry> {
    if entries == [] then None
    else if entries[0].name == name && !IsDirectory(entries[0]) then Some(entries[0])
    else FirstFile(entries[1..], name)
  }

  ghost function ChildFile(d: Disk, b: Bpb, dir: seq<nat>, name: Name): Option<DirEntry> {
    if OnDisk(d, Lbas(b, dir)) then FirstFile(Entries(Scan(DirBytes(d, b, dir), 0, [])), name) else None
  }

  // What opening the file by its name reads.
  ghost function Reopened(d: Disk, b: Bpb, dir: seq<nat>, name: Name): seq<Byte> {
    match ChildFile(d, b, dir, name)
    case Some(e) => FileBytes(d, b, e.firstCluster, e.size)
    case None => []
  }

  // Open by name for writing; a missing file starts empty and without a cluster.
  method CreateChildFile(vol: Volume, dir: seq<nat>, name: Name) returns (ok: bool, h: FileHandle)
    requires vol.Valid()
    ensures ok ==> fresh(h) && h.vol == vol && h.name == name && h.dirChain == Some(dir) && !h.dirty && h.pos == 0
    ensures ok ==> OnDisk(vol.d, Lbas(vol.b, dir)) && h.data == Reopened(vol.d, vol.b, dir, name)
    ensures ok ==> match ChildFile(vol.d, vol.b, dir, name)
                   case Some(e) => h.firstCluster == e.firstCluster && h.diskSize == e.size
                   case None => h.firstCluster == 0 && h.diskSize == 0
  {
    hide FileBytes, Lbas, DirBytes, IsDirectory, Within;
    var entries;
    ok, entries := vol.ReadDirEntriesFromChain(dir);
    var data: seq<Byte>, first, size := [], 0, 0;
    if ok {
      var i := 0;
      while i < |entries| && !(entries[i].name == name && !IsDirectory(entries[i]))
        invariant i <= |entries| && FirstFile(entries[i..], name) == FirstFile(entries, name)
      {
        i := i + 1;
      }
      if i < |entries| {
        first, size := entries[i].firstCluster, entries[i].size;
        ok, data := LoadFile(vol, first, size);
      }
    }
    h := new FileHandle(vol, data, first, size, Some(dir), name);
  }

  // Entries and sectors of the chain are on the disk.
  ghost predicate Within(d: Disk, b: Bpb, chain: seq<nat>) {
    Readable(d, b, chain) && OnDisk(d, Lbas(b, chain))
  }

  // ---------- closing, then opening ----------

  // The file with this first cluster has chain g and contents data.
  ghost predicate Holds(d: Disk, b: Bpb, first: nat, g: seq<nat>, data: seq<Byte>)
    requires Mounted(d, b)
  {
    IsChain(Fat(d, b), g) && g[0] == first && |g| <= CHAIN_LIMIT && Stored(d, b, g, data)
  }

  lemma HoldsRead(d: Disk, b: Bpb, first: nat, g: seq<nat>, data: seq<Byte>)
    requires Mounted(d, b) && Holds(d, b, first, g, data)
    ensures FileBytes(d, b, first, |data|) == data
  {
    hide Fat, Raw, Lbas;
    ChainWalked(d, b, g);
  }

  // A first cluster below 2 leads nowhere.
  lemma NothingRead(d: Disk, b: Bpb, first: nat, size: nat)
    requires first < 2
    ensures FileBytes(d, b, first, size) == seq(size, _ => 0)
  {
    hide Raw;
    WalkBelow(Raw(d, b), first, CHAIN_LIMIT);
    AtStart(b);
  }

  // The directory entry of that name is a file's.
  ghost predicate NamesFile(d: Disk, b: Bpb, dir: seq<nat>, name: Name) {
    && OnDisk(d, Lbas(b, dir)) && Lookup(DirBytes(d, b, dir), name).Some?
    && !IsDirectory(Lookup(DirBytes(d, b, dir), name).value.entry)
  }

  lemma {:induction false} FileFound(found: seq<Found>, name: Name)
    requires First(found, name).Some? && !IsDirectory(First(found, name).value.entry)
    ensures FirstFile(Entries(found), name) == Some(First(found, name).value.entry)
  {
    if found[0].entry.name != name {
      FileFound(found[1..], name);
      assert Entries(found)[1..] == Entries(found[1..]);
    }
  }

  // After the size was recorded, opening by name uses the first cluster the entry had before.
  lemma ResizedReopens(d: Disk, e: Disk, b: Bpb, dir: seq<nat>, name: Name, size: nat)
    requires NamesFile(d, b, dir, name) && Resized(d, e, b, dir, name, size)
    ensures Reopened(e, b, dir, name)
         == FileBytes(e, b, Lookup(DirBytes(d, b, dir), name).value.entry.firstCluster, size)
  {
    hide Lbas, DirBytes, FileBytes;
    FileFound(Scan(DirBytes(e, b, dir), 0, []), name);
  }

  // A saved file opens with what was in the buffer.
  lemma ClosedReopens(d: Disk, e: Disk, b: Bpb, first: nat, a: seq<nat>, dir: seq<nat>, name: Name, data: seq<Byte>,
                      g: seq<nat>, log: seq<Disk>)
    requires Mounted(d, b) && 0 < |data| < 0x1_0000_0000 && NamesFile(d, b, dir, name)
    requires Closable(d, b, first, a, dir, name, |data|) && |g| <= CHAIN_LIMIT
    requires ClosePromise(d, e, b, first, a, dir, name, data, Clean, true, g, log)
    ensures Reopened(e, b, dir, name) == data
  {
    hide Fat, Lbas, DirBytes, FileBytes, Stored, Lookup, ClustersNeeded, Apart, AllSafe, AllOthers, Truncation,
      Reopened;
    ClosableReady(d, b, first, a, dir, name, |data|);
    ResizedReopens(d, e, b, dir, name, |data|);
    HoldsRead(e, b, first, g, data);
  }

  // A file that had no cluster is saved too, but its entry is not told the first one: it opens as zeros.
  lemma UnlinkedReopens(d: Disk, e: Disk, b: Bpb, dir: seq<nat>, name: Name, data: seq<Byte>, course: Course,
                        g: seq<nat>, log: seq<Disk>)
    requires Mounted(d, b) && FileChain(d, b, 0, []) && |data| < 0x1_0000_0000 && NamesFile(d, b, dir, name)
    requires EntryNames(d, b, dir, name, 0) && Apart(d, b, [], dir) && !course.Lost?
    requires ClosePromise(d, e, b, 0, [], dir, name, data, course, true, g, log)
    ensures Reopened(e, b, dir, name) == data <==> forall i :: 0 <= i < |data| ==> data[i] == 0
  {
    hide Fat, Lbas, DirBytes, FileBytes, Lookup, CloseSafe, Apart, AllOthers, Truncation, Reopened;
    ResizedReopens(d, e, b, dir, name, |data|);
    NothingRead(e, b, 0, |data|);
  }

  // Both together: the buffer comes back exactly if the entry named a first cluster, or it is all zeros.
  lemma ReopensIff(d: Disk, e: Disk, b: Bpb, first: nat, a: seq<nat>, dir: seq<nat>, name: Name, data: seq<Byte>,
                   g: seq<nat>, log: seq<Disk>)
    requires Mounted(d, b) && 0 < |data| < 0x1_0000_0000 && NamesFile(d, b, dir, name)
    requires EntryNames(d, b, dir, name, first) && |g| <= CHAIN_LIMIT
    requires if first == 0 then a == [] && FileChain(d, b, 0, []) && Apart(d, b, [], dir)
             else Closable(d, b, first, a, dir, name, |data|)
    requires ClosePromise(d, e, b, first, a, dir, name, data, Clean, true, g, log)
    ensures Reopened(e, b, dir, name) == data <==> first != 0 || forall i :: 0 <= i < |data| ==> data[i] == 0
  {
    hide FileChain, Apart, Closable, ClosePromise, Reopened, NamesFile, EntryNames;
    if first == 0 {
      UnlinkedReopens(d, e, b, dir, name, data, Clean, g, log);
    } else {
      ClosedReopens(d, e, b, first, a, dir, name, data, g, log);
    }
  }

  // ---------- deleting ----------

  // The clusters the driver takes for the chain of the entry of that name.
  ghost function EntryWalk(d: Disk, b: Bpb, dir: seq<nat>, name: Name): seq<nat> {
    if OnDisk(d, Lbas(b, dir)) && Lookup(DirBytes(d, b, dir), name).Some?
    then Walk(Raw(d, b), Lookup(DirBytes(d, b, dir), name).value.entry.firstCluster, CHAIN_LIMIT) else []
  }

  // The entry is gone from the parse, and the clusters its chain had read 0 in every copy.
  ghost predicate Deleted(d: Disk, b: Bpb, dir: seq<nat>, name: Name, d': Disk)
    requires Mounted(d, b)
  {
    && |d'| == |d| && OnDisk(d, Lbas(b, dir))
    && Freed(d, b, EntryWalk(d, b, dir, name), d')
    && var found := Scan(DirBytes(d, b, dir), 0, []);
       exists k :: 0 <= k < |found| && Lookup(DirBytes(d, b, dir), name) == Some(found[k])
         && Scan(DirBytes(d', b, dir), 0, []) == found[..k] + found[k + 1..]
  }

  // The directory is on the disk, and so is the entry's chain in the table.
  ghost predicate Sound(d: Disk, b: Bpb, dir: seq<nat>, name: Name) {
    && OnDisk(d, Lbas(b, dir))
    && InTable(b, EntryWalk(d, b, dir, name)) && Readable(d, b, EntryWalk(d, b, dir, name))
  }

  // Free the chain, then the entry; as long as the chain lies in the table.
  method DeleteChildFile(vol: Volume, dir: seq<nat>, name: Name) returns (r: Result<nat>)
    requires vol.Valid() && DataClusters(dir) && Distinct(dir)
    modifies vol`d, vol`trace
    ensures vol.Valid()
    ensures r.Ok? && InTable(vol.b, EntryWalk(old(vol.d), vol.b, dir, name)) ==>
              Deleted(old(vol.d), vol.b, dir, name, vol.d)
    ensures vol.reliable && r.Err? && Sound(old(vol.d), vol.b, dir, name) ==> r == Err(NotFound)
    ensures r == Err(NotFound) ==>
              vol.d == old(vol.d) && OnDisk(vol.d, Lbas(vol.b, dir)) && Lookup(DirBytes(vol.d, vol.b, dir), name).None?
  {
    hide Lbas, DirBytes, Fat, Raw, Freed, Freeing, Patched, TableOnly, Deleted, Lookup, Distinct, DataClusters, InTable,
      Readable;
    var b := vol.b;
    var found, raw := vol.LookupDirEntry(dir, name);
    if found.Err? {
      return Err(found.error);
    }
    ghost var chain := EntryWalk(vol.d, b, dir, name);
    var first := found.value.entry.firstCluster;
    if first >= 2 {
      var ok;
      ghost var log, walked;
      ok, walked, log := vol.FreeClusterChain(first);
      if !ok {
        return Err(IoError);
      }
    } else {
      WalkBelow(Raw(vol.d, b), first, CHAIN_LIMIT);
      FreedNone(vol.d, b);
      TableOnlySelf(vol.d, b);
    }
    ghost var mid := vol.d;
    if InTable(b, chain) {
      TableOnlyDir(old(vol.d), mid, b, dir);
    }
    r := vol.DeleteDirEntry(dir, name);
    if r.Err? {
      return Err(IoError);
    }
    if InTable(b, chain) {
      DeletedBoth(old(vol.d), mid, b, dir, name, vol.d);
    }
  }

  lemma WalkBelow(next: Table, c: nat, n: nat)
    requires c < 2
    ensures Walk(next, c, n) == []
  {
  }

  lemma DeletedBoth(d: Disk, mid: Disk, b: Bpb, dir: seq<nat>, name: Name, e: Disk)
    requires Mounted(d, b) && TableOnly(d, mid, b) && Freed(d, b, EntryWalk(d, b, dir, name), mid)
    requires Patched(mid, b, dir, Delete, name, e)
    requires OnDisk(d, Lbas(b, dir)) && OnDisk(mid, Lbas(b, dir)) && DirBytes(mid, b, dir) == DirBytes(d, b, dir)
    requires Lookup(DirBytes(d, b, dir), name).Some?
    ensures Deleted(d, b, dir, name, e)
  {
    hide Lbas, DirBytes, Fat, TableOnly, Lookup, Apply, View, OnDisk, EntryWalk;
    var raw := DirBytes(d, b, dir);
    var k := PatchLookup(Delete, raw, name);
    var found := Scan(raw, 0, []);
    assert Lookup(raw, name) == Some(found[k]);
    DirLength(mid, b, dir);
    var i := found[k].offset / 512;
    LbasInData(b, dir, i);
    forall copy | 0 <= copy < b.numFats
      ensures View(e, b, copy) == View(mid, b, copy)
    {
      ViewSame(mid, e, b, copy);
    }
    assert Freed(d, b, EntryWalk(d, b, dir, name), e);
    assert Outcome(Delete, found[k]) == [];
    assert found[..k] + [] + found[k + 1..] == found[..k] + found[k + 1..];
  }

  // Deleting a file gives back exactly the clusters of its chain.
  lemma DeletedCount(d: Disk, b: Bpb, a: seq<nat>, d': Disk)
    requires Mounted(d, b) && Freed(d, b, a, d') && IsChain(Fat(d, b), a)
    ensures FreeIn(Fat(d', b), 2, b.Eoc()) == FreeIn(Fat(d, b), 2, b.Eoc()) + |a|
  {
    forall c | c in a
      ensures c < b.Eoc()
    {
      ChainNotFree(Fat(d, b), a, c);
    }
    FreeCount(Fat(d, b), a, b.Eoc());
  }
}
