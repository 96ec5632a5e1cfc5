/**
 * The driver's routines over a block device.  Any sector read or write may
 * fail; a failed write leaves the sector as it was.  The ghost field trace
 * records the disk after every sector write, in order.
 */
module FatVolume {
  import opened Wrappers
  import opened Octets
  import opened FatDisk
  import opened FatChains
  import opened FatData
  import opened FatPlace
  import opened FatDirs

  datatype Error = IoError | NoSpace | NotFound
  datatype Result<+T> = Ok(value: T) | Err(error: Error)

  // read_cluster_chain gives up after this many clusters.
  const CHAIN_LIMIT: nat := 0x10_0001

  // The table: copy 0.
  ghost function Fat(d: Disk, b: Bpb): (next: Table)
    ensures |next| == b.Eoc()
  {
    View(d, b, 0)
  }

  // What the driver takes for the table: it reads on behind its end.
  ghost function Raw(d: Disk, b: Bpb): (next: Table)
    ensures |next| == b.Eoc()
    ensures forall c :: 0 <= c < b.Eoc() ==> next[c] == Entry(d, b, 0, c)
  {
    seq(b.Eoc(), c requires 0 <= c < b.Eoc() => Entry(d, b, 0, c))
  }

  // Clusters with an entry in the table.
  predicate InTable(b: Bpb, chain: seq<nat>) {
    forall i :: 0 <= i < |chain| ==> 2 <= chain[i] < b.Entries()
  }

  // The driver can read the entries of these clusters.
  predicate Readable(d: Disk, b: Bpb, chain: seq<nat>) {
    forall i :: 0 <= i < |chain| ==> EntrySector(b, 0, chain[i]) < |d|
  }

  lemma ReadableAt(d: Disk, b: Bpb, chain: seq<nat>, i: nat)
    requires i < |chain|
    ensures Readable(d, b, chain) ==> EntrySector(b, 0, chain[i]) < |d|
  {
  }

  // Chains lie in the table, and there the driver reads it rightly.
  lemma ChainInTable(d: Disk, b: Bpb, a: seq<nat>)
    requires Mounted(d, b) && IsChain(Fat(d, b), a)
    ensures InTable(b, a) && Readable(d, b, a) && IsChain(Raw(d, b), a)
  {
    hide Entry, EntrySector;
    forall i | 0 <= i < |a|
      ensures 2 <= a[i] < b.Entries()
    {
      assert Cluster(Fat(d, b), a[i]);
      if i < |a| - 1 {
        assert Cluster(Fat(d, b), a[i + 1]);
      }
    }
    forall i | 0 <= i < |a|
      ensures EntrySector(b, 0, a[i]) < |d|
    {
      EntryPlace(b, 0, a[i]);
    }
  }

  // A file's chain is what the driver walks.
  lemma ChainWalked(d: Disk, b: Bpb, a: seq<nat>)
    requires Mounted(d, b) && IsChain(Fat(d, b), a) && |a| <= CHAIN_LIMIT
    ensures Walk(Raw(d, b), a[0], CHAIN_LIMIT) == a && InTable(b, a) && Readable(d, b, a)
  {
    ChainInTable(d, b, a);
    WalkChain(Raw(d, b), a, CHAIN_LIMIT);
  }

  // Behind the end of the table the driver reads the second copy.
  lemma BeyondIsNextCopy(d: Disk, b: Bpb, c: nat)
    requires b.Entries() < b.Eoc()
    ensures Entry(d, b, 0, b.Entries() + c) == Entry(d, b, 1, c)
  {
    hide Decode;
    RowAndOffset(b, c);
    RowAndOffset(b, b.Entries() + c);
    NextCopyPlace(b, c);
  }

  lemma NextCopyPlace(b: Bpb, c: nat)
    requires b.Entries() < b.Eoc()
    ensures EntrySector(b, 0, b.Entries() + c) == EntrySector(b, 1, c)
    ensures EntryOffset(b, b.Entries() + c) == EntryOffset(b, c)
  {
    var w := b.Width();
    assert b.Entries() * w == 512 * b.fatSizeSectors;
    assert (b.Entries() + c) * w == 512 * b.fatSizeSectors + c * w;
  }

  // The disks seen while the first n copies of the table receive an entry.
  ghost function PutLog(d: Disk, b: Bpb, c: nat, value: nat, n: nat): (log: seq<Disk>)
    ensures |log| == n
  {
    seq(n, i requires 0 <= i < n => PutCopies(d, b, c, value, i + 1))
  }

  // The disks seen while the first k sectors of buf are flushed.
  ghost function FlushLog(d: Disk, lbas: seq<nat>, buf: seq<Byte>, k: nat): (log: seq<Disk>)
    requires k <= |lbas| && OnDisk(d, lbas[..k]) && 512 * k < |buf| + 512
    ensures |log| == k
  {
    if k == 0 then []
    else
      assert lbas[..k - 1] == lbas[..k][..k - 1];
      FlushLog(d, lbas, buf, k - 1) + [Flushed(d, lbas, buf, k)]
  }

  // The disk after the writes in log.
  ghost function Last(d: Disk, log: seq<Disk>): Disk {
    if log == [] then d else log[|log| - 1]
  }

  // c reads as the first free cluster of hint, ..., max, 2, ..., hint - 1.
  ghost predicate FirstFree(d: Disk, b: Bpb, hint: nat, c: nat) {
    && Entry(d, b, 0, c) == 0
    && (hint <= c ==> c <= b.MaxCluster() && forall x :: hint <= x < c ==> Entry(d, b, 0, x) != 0)
    && (c < hint ==> 2 <= c && forall x :: hint <= x <= b.MaxCluster() || 2 <= x < c ==> Entry(d, b, 0, x) != 0)
  }

  // A free entry of the table from the hint on.
  ghost predicate FreeBehind(d: Disk, b: Bpb, hint: nat) {
    exists x :: hint <= x < b.Usable() && Fat(d, b)[x] == 0
  }

  // If the table has a free entry from the hint on, the scan stays in the table; and
  // within the table it finds the first one.
  lemma ScanStays(d: Disk, b: Bpb, hint: nat, c: nat)
    requires FirstFree(d, b, hint, c)
    ensures FreeBehind(d, b, hint) <==> hint <= c < b.Entries()
    ensures c < b.Entries() ==> Fat(d, b)[c] == 0
    ensures hint <= c < b.Entries() ==> forall x :: hint <= x < c ==> Fat(d, b)[x] != 0
  {
    hide Entry;
    if hint <= c < b.Entries() {
      assert Fat(d, b)[c] == 0;
    }
  }

  // The driver's count: the free entries of the table, and whatever reads as zero behind it.
  lemma CountRightIff(d: Disk, b: Bpb)
    ensures FreeIn(Raw(d, b), 2, b.MaxCluster() + 1) == FreeIn(Fat(d, b), 2, b.MaxCluster() + 1)
       <==> forall x :: 2 <= x && b.Usable() <= x <= b.MaxCluster() ==> Entry(d, b, 0, x) != 0
  {
    hide Entry;
    var raw, fat, hi := Raw(d, b), Fat(d, b), b.MaxCluster() + 1;
    var mid := if b.Usable() < 2 then 2 else b.Usable();
    FreeSplit(raw, 2, mid, hi);
    FreeSplit(fat, 2, mid, hi);
    FreeSame(raw, fat, 2, mid);
    FreeNone(fat, mid, hi);
    FreeNone(raw, mid, hi);
  }

  // With mirrored copies every free entry of the table that the scan meets again behind it is counted twice.
  lemma MirroredMiscounts(d: Disk, b: Bpb, x: nat)
    requires b.Entries() < b.Eoc() && 2 <= b.Entries() + x <= b.MaxCluster()
    requires Entry(d, b, 0, x) == 0 && Entry(d, b, 1, x) == Entry(d, b, 0, x)
    ensures FreeIn(Raw(d, b), 2, b.MaxCluster() + 1) != FreeIn(Fat(d, b), 2, b.MaxCluster() + 1)
  {
    hide Entry;
    BeyondIsNextCopy(d, b, x);
    CountRightIff(d, b);
  }

  // Disks that differ only inside the table area.
  ghost predicate TableOnly(d: Disk, t: Disk, b: Bpb) {
    && |t| == |d|
    && forall lba :: 0 <= lba < |d| && (lba < b.baseSector + b.reservedSectors
                                        || b.baseSector + b.dataStartSector <= lba)
         ==> t[lba] == d[lba]
  }

  lemma TableOnlyTrans(d: Disk, t: Disk, u: Disk, b: Bpb)
    requires TableOnly(d, t, b) && TableOnly(t, u, b)
    ensures TableOnly(d, u, b)
  {
  }

  lemma PutsTableOnly(d: Disk, b: Bpb, c: nat, value: nat, n: nat)
    requires Mounted(d, b) && c < b.Entries() && n <= b.numFats
    ensures TableOnly(d, PutCopies(d, b, c, value, n), b)
  {
    forall lba | 0 <= lba < |d| && (lba < b.baseSector + b.reservedSectors || b.baseSector + b.dataStartSector <= lba)
      ensures PutCopies(d, b, c, value, n)[lba] == d[lba]
    {
      PutCopiesOutside(d, b, c, value, n, lba);
    }
  }

  // Every disk seen during a table write shows the whole write in copy 0, and
  // nothing outside the table moved.
  ghost predicate Puts(d: Disk, b: Bpb, c: nat, value: nat, log: seq<Disk>)
    requires Mounted(d, b) && c < b.Entries()
  {
    forall t :: t in log ==> TableOnly(d, t, b) && Fat(t, b) == Fat(d, b)[c := value]
  }

  // The write reached every copy.
  ghost predicate AllCopies(d: Disk, b: Bpb, c: nat, value: nat, d': Disk)
    requires Mounted(d, b) && c < b.Entries()
  {
    && TableOnly(d, d', b)
    && (forall copy :: 0 <= copy < b.numFats ==> View(d', b, copy) == View(d, b, copy)[c := value])
    && (Mirrored(d, b) ==> Mirrored(d', b))
  }

  lemma PutsSeen(d: Disk, b: Bpb, c: nat, value: nat, n: nat)
    requires Mounted(d, b) && c < b.Entries() && n <= b.numFats
    ensures Puts(d, b, c, b.Keep(value), PutLog(d, b, c, value, n))
  {
    hide PutCopies, View;
    forall t | t in PutLog(d, b, c, value, n)
      ensures TableOnly(d, t, b) && Fat(t, b) == Fat(d, b)[c := b.Keep(value)]
    {
      var i :| 0 < i <= n && t == PutCopies(d, b, c, value, i);
      PutsTableOnly(d, b, c, value, i);
      PutCopiesView(d, b, c, value, i, 0);
    }
  }

  lemma PutsAll(d: Disk, b: Bpb, c: nat, value: nat)
    requires Mounted(d, b) && c < b.Entries()
    ensures AllCopies(d, b, c, b.Keep(value), PutCopies(d, b, c, value, b.numFats))
  {
    hide PutCopies, View, Mirrored;
    PutsTableOnly(d, b, c, value, b.numFats);
    forall copy | 0 <= copy < b.numFats
      ensures View(PutCopies(d, b, c, value, b.numFats), b, copy) == View(d, b, copy)[c := b.Keep(value)]
    {
      PutCopiesView(d, b, c, value, b.numFats, copy);
    }
    if Mirrored(d, b) {
      PutCopiesMirrored(d, b, c, value);
    }
  }

  // Both writes of extend_chain reached every copy.
  ghost predicate Extension(d: Disk, b: Bpb, last: nat, c: nat, d': Disk)
    requires Mounted(d, b) && last < b.Entries() && c < b.Entries()
  {
    && TableOnly(d, d', b)
    && (forall copy :: 0 <= copy < b.numFats ==> View(d', b, copy) == View(d, b, copy)[last := c][c := b.Eoc()])
    && (Mirrored(d, b) ==> Mirrored(d', b))
  }

  // A disk seen while extend_chain runs.
  ghost predicate Extending(d: Disk, b: Bpb, last: nat, c: nat, t: Disk)
    requires Mounted(d, b) && last < b.Entries() && c < b.Entries()
  {
    && TableOnly(d, t, b)
    && (Fat(t, b) == Fat(d, b)[last := c] || Fat(t, b) == Fat(d, b)[last := c][c := b.Eoc()])
  }

  lemma TwoWrites(d: Disk, b: Bpb, last: nat, c: nat, mid: Disk, d': Disk)
    requires Mounted(d, b) && Mounted(mid, b) && last < b.Entries() && c < b.Entries()
    requires AllCopies(d, b, last, c, mid) && AllCopies(mid, b, c, b.Eoc(), d')
    ensures Extension(d, b, last, c, d')
  {
    hide View, Mirrored;
  }

  lemma ExtensionLog(d: Disk, b: Bpb, last: nat, c: nat, mid: Disk, log: seq<Disk>, rest: seq<Disk>)
    requires Mounted(d, b) && Mounted(mid, b) && last < b.Entries() && c < b.Entries()
    requires Puts(d, b, last, c, log) && log != [] && mid == Last(d, log) && Puts(mid, b, c, b.Eoc(), rest)
    ensures forall t :: t in log + rest ==> Extending(d, b, last, c, t)
  {
    hide Fat;
    assert mid in log;
    forall t | t in rest
      ensures Extending(d, b, last, c, t)
    {
      TableOnlyTrans(d, mid, t, b);
    }
  }

  lemma TableOnlySelf(d: Disk, b: Bpb)
    ensures TableOnly(d, d, b)
  {
  }

  // The clusters read 0 in every copy, everything else as before.
  ghost predicate Freed(d: Disk, b: Bpb, chain: seq<nat>, d': Disk)
    requires Mounted(d, b)
  {
    && |d'| == |d|
    && InTable(b, chain)
    && (forall copy :: 0 <= copy < b.numFats ==> View(d', b, copy) == Zeroed(View(d, b, copy), chain))
  }

  lemma FreedNone(d: Disk, b: Bpb)
    requires Mounted(d, b)
    ensures Freed(d, b, [], d)
  {
  }

  lemma FreedMore(d: Disk, b: Bpb, chain: seq<nat>, i: nat, mid: Disk, d': Disk)
    requires Mounted(d, b) && Mounted(mid, b) && i < |chain| && forall j :: 0 <= j < |chain| ==>
               2 <= chain[j] < b.Entries()
    requires Freed(d, b, chain[..i], mid) && AllCopies(mid, b, chain[i], 0, d')
    ensures Freed(d, b, chain[..i + 1], d')
  {
    hide View;
    assert chain[..i + 1][..i] == chain[..i];
  }

  // A disk seen while the chain is freed: its first entries read 0.
  ghost predicate Freeing(d: Disk, b: Bpb, chain: seq<nat>, t: Disk)
    requires InTable(b, chain)
  {
    TableOnly(d, t, b) && exists i :: 0 < i <= |chain| && Fat(t, b) == Zeroed(Fat(d, b), chain[..i])
  }

  // The first i entries of the chain were freed, one by one.
  ghost predicate FreedSoFar(d: Disk, b: Bpb, chain: seq<nat>, i: nat, t: Disk, log: seq<Disk>) {
    Mounted(d, b) && i <= |chain| && (InTable(b, chain) ==>
      TableOnly(d, t, b) && Freed(d, b, chain[..i], t) && forall u :: u in log ==> Freeing(d, b, chain, u))
  }

  lemma FreedStart(d: Disk, b: Bpb, chain: seq<nat>)
    requires Mounted(d, b)
    ensures FreedSoFar(d, b, chain, 0, d, []) && TableOnly(d, d, b)
  {
    hide Freed, TableOnly;
    assert chain[..0] == [];
    FreedNone(d, b);
    TableOnlySelf(d, b);
  }

  lemma FreedStep(d: Disk, b: Bpb, chain: seq<nat>, i: nat, mid: Disk, log: seq<Disk>, ok: bool,
                  more: seq<Disk>, d': Disk)
    requires FreedSoFar(d, b, chain, i, mid, log) && i < |chain| && Mounted(mid, b) && d' == Last(mid, more)
    requires chain[i] < b.Entries() ==> Puts(mid, b, chain[i], 0, more) && (ok ==> AllCopies(mid, b, chain[i], 0, d'))
    ensures InTable(b, chain) ==> TableOnly(d, d', b) && forall u :: u in log + more ==> Freeing(d, b, chain, u)
    ensures ok ==> FreedSoFar(d, b, chain, i + 1, d', log + more)
    ensures InTable(b, chain) ==> chain[i] < b.Entries()
  {
    hide Freed, Freeing, Puts, AllCopies, TableOnly, InTable;
    if InTable(b, chain) {
      InTableAt(b, chain, i);
      FreeingMore(d, b, chain, i, mid, more);
      if ok {
        FreedMore(d, b, chain, i, mid, d');
      }
    }
  }

  lemma FreedAll(d: Disk, b: Bpb, chain: seq<nat>, t: Disk, log: seq<Disk>)
    requires FreedSoFar(d, b, chain, |chain|, t, log)
    ensures InTable(b, chain) ==> TableOnly(d, t, b) && Freed(d, b, chain, t)
    ensures InTable(b, chain) ==> forall u :: u in log ==> Freeing(d, b, chain, u)
  {
    hide Freed, Freeing, TableOnly, InTable;
    assert chain[..|chain|] == chain;
  }

  lemma InTableAt(b: Bpb, chain: seq<nat>, i: nat)
    requires InTable(b, chain) && i < |chain|
    ensures 2 <= chain[i] < b.Entries() && forall j :: 0 <= j < |chain| ==> 2 <= chain[j] < b.Entries()
  {
  }

  lemma FreeingMore(d: Disk, b: Bpb, chain: seq<nat>, i: nat, mid: Disk, log: seq<Disk>)
    requires Mounted(d, b) && Mounted(mid, b) && InTable(b, chain) && i < |chain|
    requires TableOnly(d, mid, b) && Freed(d, b, chain[..i], mid) && Puts(mid, b, chain[i], 0, log)
    ensures (forall t :: t in log ==> Freeing(d, b, chain, t)) && TableOnly(d, Last(mid, log), b)
  {
    hide View;
    assert chain[..i + 1][..i] == chain[..i];
    forall t | t in log
      ensures Freeing(d, b, chain, t)
    {
      TableOnlyTrans(d, mid, t, b);
      assert Fat(t, b) == Zeroed(Fat(d, b), chain[..i + 1]);
    }
    assert log != [] ==> Last(mid, log) in log;
  }

  lemma KeepEoc(b: Bpb)
    ensures b.Keep(b.Eoc()) == b.Eoc() && b.Keep(0) == 0
  {
  }

  lemma KeepSmall(b: Bpb, c: nat)
    ensures c < b.Entries() ==> b.Keep(c) == c
  {
  }

  lemma SectorsRise(b: Bpb, c: nat, c': nat)
    requires c <= c'
    ensures EntrySector(b, 0, c) <= EntrySector(b, 0, c')
  {
  }

  lemma EntryOnDisk(d: Disk, b: Bpb, cluster: nat)
    requires Mounted(d, b)
    ensures cluster < b.Entries() ==> EntrySector(b, 0, cluster) < |d|
  {
    if cluster < b.Entries() {
      EntryPlace(b, 0, cluster);
    }
  }

  // The scan reaches no cluster behind the table while it holds a free one.
  lemma InFree(d: Disk, b: Bpb, hint: nat, cluster: nat)
    requires Mounted(d, b) && hint <= cluster <= b.MaxCluster()
    requires forall x :: hint <= x < cluster ==> Entry(d, b, 0, x) != 0
    ensures FreeBehind(d, b, hint) ==> cluster < b.Entries()
    ensures cluster < b.Entries() ==> EntrySector(b, 0, cluster) < |d|
  {
    hide Entry;
    EntryOnDisk(d, b, cluster);
  }

  lemma NoneFree(d: Disk, b: Bpb, hint: nat)
    requires forall x :: hint <= x <= b.MaxCluster() ==> Entry(d, b, 0, x) != 0
    ensures !FreeBehind(d, b, hint)
  {
    hide Entry;
  }

  // The first n bytes of buf are the first n bytes of the sectors, the rest is as it was.
  ghost predicate Copied(d: Disk, lbas: seq<nat>, was: seq<Byte>, buf: seq<Byte>, n: nat) {
    && n <= |buf| == |was| && n <= 512 * |lbas|
    && (forall x :: 0 <= x < n ==> lbas[x / 512] < |d| && buf[x] == d[lbas[x / 512]][x % 512])
    && (forall x :: n <= x < |buf| ==> buf[x] == was[x])
  }

  lemma NoneCopied(d: Disk, lbas: seq<nat>, buf: seq<Byte>)
    ensures Copied(d, lbas, buf, buf, 0)
  {
  }

  lemma CopiedBound(d: Disk, lbas: seq<nat>, was: seq<Byte>, buf: seq<Byte>, n: nat)
    requires Copied(d, lbas, was, buf, n)
    ensures n <= 512 * |lbas|
  {
  }

  // k sectors of buf are on the disk, and the trace saw each of them arrive.
  ghost predicate Flushing(d: Disk, lbas: seq<nat>, buf: seq<Byte>, k: nat, d': Disk, before: seq<Disk>,
                           after: seq<Disk>) {
    && k <= |lbas| && 512 * k < |buf| + 512 && OnDisk(d, lbas[..k])
    && d' == Flushed(d, lbas, buf, k)
    && after == before + FlushLog(d, lbas, buf, k)
  }

  // The disks seen while the first k pieces of buf are written.
  ghost function PlaceLog(d: Disk, lbas: seq<nat>, buf: seq<Byte>, w: nat, n: nat, k: nat): (log: seq<Disk>)
    requires k <= |lbas| && OnDisk(d, lbas[..k]) && Begun(buf, w, n, k)
    ensures |log| == k
  {
    if k == 0 then []
    else
      assert lbas[..k - 1] == lbas[..k][..k - 1];
      BegunBefore(buf, w, n, k);
      PlaceLog(d, lbas, buf, w, n, k - 1) + [Placed(d, lbas, buf, w, n, k)]
  }

  // k pieces of buf are on the disk, and the trace saw each of them arrive.
  ghost predicate Placing(d: Disk, lbas: seq<nat>, buf: seq<Byte>, w: nat, n: nat, k: nat, d': Disk, before: seq<Disk>,
                          after: seq<Disk>) {
    && k <= |lbas| && Begun(buf, w, n, k) && OnDisk(d, lbas[..k])
    && d' == Placed(d, lbas, buf, w, n, k)
    && after == before + PlaceLog(d, lbas, buf, w, n, k)
  }

  lemma NonePlaced(d: Disk, lbas: seq<nat>, buf: seq<Byte>, w: nat, n: nat, trace: seq<Disk>)
    requires w < 512
    ensures Placing(d, lbas, buf, w, n, 0, d, trace, trace)
  {
  }

  lemma PlaceBound(d: Disk, lbas: seq<nat>, buf: seq<Byte>, w: nat, n: nat, k: nat, d': Disk, before: seq<Disk>,
                   after: seq<Disk>)
    requires Placing(d, lbas, buf, w, n, k, d', before, after)
    ensures k <= |lbas| && Begun(buf, w, n, k) && |d'| == |d|
  {
  }

  lemma PlaceMore(d: Disk, lbas: seq<nat>, buf: seq<Byte>, w: nat, n: nat, k: nat, e: Disk, before: seq<Disk>,
                  log: seq<Disk>, d': Disk)
    requires Placing(d, lbas, buf, w, n, k, e, before, log)
    requires k < |lbas| && w < 512 && Pos(w, n, k) < |buf| && lbas[k] < |e|
    requires d' == e[lbas[k] := OverlayAt(e[lbas[k]], Skew(w, n, k), Piece(buf, w, n, k))]
    ensures Placing(d, lbas, buf, w, n, k + 1, d', before, log + [d'])
  {
    hide OverlayAt, Piece, Skew;
    assert lbas[..k + 1] == lbas[..k] + [lbas[k]];
    assert OnDisk(d, lbas[..k + 1]);
  }

  lemma {:induction false} PlaceLogFlat(d: Disk, lbas: seq<nat>, buf: seq<Byte>, n: nat, k: nat)
    requires k <= |lbas| && OnDisk(d, lbas[..k]) && Begun(buf, 0, n, k)
    ensures 512 * k < |buf| + 512 && PlaceLog(d, lbas, buf, 0, n, k) == FlushLog(d, lbas, buf, k)
  {
    hide Begun;
    PlacedFlat(d, lbas, buf, n, k);
    if k > 0 {
      assert lbas[..k - 1] == lbas[..k][..k - 1];
      BegunBefore(buf, 0, n, k);
      PlaceLogFlat(d, lbas, buf, n, k - 1);
    }
  }

  // From the start of the file the pieces are whole sectors.
  lemma PlacingFlat(d: Disk, lbas: seq<nat>, buf: seq<Byte>, n: nat, k: nat, d': Disk, before: seq<Disk>,
                    after: seq<Disk>)
    requires Placing(d, lbas, buf, 0, n, k, d', before, after)
    ensures Flushing(d, lbas, buf, k, d', before, after)
  {
    hide Begun;
    PlacedFlat(d, lbas, buf, n, k);
    PlaceLogFlat(d, lbas, buf, n, k);
  }

  // How many pieces were written, and how much of the buffer they hold.
  ghost predicate PiecesDone(len: nat, sectors: nat, w: nat, n: nat, k: nat, written: nat) {
    && w < 512 && k <= sectors && written == Min(len, Pos(w, n, k)) && (k == 0 || Pos(w, n, k - 1) < len)
    && (written == len || k == sectors)
  }

  lemma PiecesFlat(len: nat, sectors: nat, n: nat, k: nat, written: nat)
    requires PiecesDone(len, sectors, 0, n, k, written)
    ensures written == Min(len, 512 * sectors) && k == SectorsFor(written)
  {
    PosFlat(n, k);
    if k > 0 {
      PosFlat(n, k - 1);
    }
  }

  // The part of the chain from the offset's cluster on.
  function From(chain: seq<nat>, i: nat): seq<nat> {
    if i <= |chain| then chain[i..] else []
  }

  lemma FromAll(b: Bpb, chain: seq<nat>)
    requires 0 < b.sectorsPerCluster
    ensures StartCluster(b, 0) == 0 && From(chain, 0) == chain
  {
  }

  // The pieces from k on go to the sectors of one cluster, all with the same skew.
  ghost predicate ClusterSectors(b: Bpb, cluster: nat, clusterByte: nat, lbas: seq<nat>, w: nat, n: nat, k: nat) {
    forall s: nat :: s < b.sectorsPerCluster ==> SectorHere(b, cluster, clusterByte, lbas, w, n, k, s)
  }

  ghost predicate SectorHere(b: Bpb, cluster: nat, clusterByte: nat, lbas: seq<nat>, w: nat, n: nat, k: nat, s: nat) {
    k + s < |lbas| && lbas[k + s] == b.ClusterToSector(cluster) + s && Skew(w, n, k + s) == clusterByte % 512
  }

  lemma SectorsHere(b: Bpb, chain: seq<nat>, offset: nat, i: nat)
    requires 0 < b.sectorsPerCluster && StartCluster(b, offset) <= i < |chain|
    ensures var q := StartCluster(b, offset);
      ClusterSectors(b, chain[i], if i == q then StartByte(b, offset) else 0, Lbas(b, From(chain, q)), offset % 512,
                     b.sectorsPerCluster, At(b, i - q, 0))
  {
    hide At, Bpb.ClusterToSector, StartCluster, StartByte;
    var q := StartCluster(b, offset);
    var rest := From(chain, q);
    OffsetSplit(b, offset);
    AtStart(b);
    if i > q {
      AtBelow(b, 0, b.sectorsPerCluster - 1, i - q);
      AtNext(b, 0, b.sectorsPerCluster - 1);
    }
    var lbas, byte, k := Lbas(b, rest), if i == q then StartByte(b, offset) else 0, At(b, i - q, 0);
    forall s: nat | s < b.sectorsPerCluster
      ensures SectorHere(b, chain[i], byte, lbas, offset % 512, b.sectorsPerCluster, k, s)
    {
      AtLba(b, rest, i - q, s);
      AtNext(b, i - q, s);
    }
  }

  // The piece the driver cuts for sector s of the cluster.
  lemma PieceIs(b: Bpb, cluster: nat, clusterByte: nat, buf: seq<Byte>, lbas: seq<nat>, w: nat, n: nat, k: nat, s: nat)
    requires w < 512 && ClusterSectors(b, cluster, clusterByte, lbas, w, n, k) && s < b.sectorsPerCluster
    requires Pos(w, n, k + s) < |buf|
    ensures var into := (s * 512 + clusterByte) % 512;
      && Skew(w, n, k + s) == into && k + s < |lbas| && lbas[k + s] == b.ClusterToSector(cluster) + s
      && Piece(buf, w, n, k + s) == buf[Pos(w, n, k + s)..Pos(w, n, k + s) + Min(512 - into, |buf| - Pos(w, n, k + s))]
      && Pos(w, n, k + s + 1) == Pos(w, n, k + s) + (512 - into)
  {
    hide Bpb.ClusterToSector, Skew;
    assert SectorHere(b, cluster, clusterByte, lbas, w, n, k, s);
    SameRest(s * 512 + clusterByte, s, clusterByte);
  }

  // All bytes of a directory's chain.
  ghost function DirBytes(d: Disk, b: Bpb, chain: seq<nat>): seq<Byte>
    requires OnDisk(d, Lbas(b, chain))
  {
    Bytes(d, Lbas(b, chain), 512 * |Lbas(b, chain)|)
  }

  // raw holds the first k sectors.
  ghost predicate DirSoFar(d: Disk, lbas: seq<nat>, raw: seq<Byte>, k: nat) {
    && k <= |lbas| && OnDisk(d, lbas[..k]) && |raw| == 512 * k
    && forall x :: 0 <= x < |raw| ==> lbas[x / 512] < |d| && raw[x] == d[lbas[x / 512]][x % 512]
  }

  lemma NoDirBytes(d: Disk, lbas: seq<nat>)
    ensures DirSoFar(d, lbas, [], 0)
  {
  }

  lemma MoreDirBytes(d: Disk, lbas: seq<nat>, raw: seq<Byte>, k: nat)
    requires DirSoFar(d, lbas, raw, k) && k < |lbas| && lbas[k] < |d|
    ensures DirSoFar(d, lbas, raw + d[lbas[k]], k + 1)
  {
    assert lbas[..k + 1] == lbas[..k] + [lbas[k]];
    var raw' := raw + d[lbas[k]];
    forall x | 0 <= x < |raw'|
      ensures lbas[x / 512] < |d| && raw'[x] == d[lbas[x / 512]][x % 512]
    {
      if x >= |raw| {
        assert x / 512 == k && x % 512 == x - 512 * k;
      }
    }
  }

  lemma AllDirBytes(d: Disk, b: Bpb, chain: seq<nat>, raw: seq<Byte>)
    requires DirSoFar(d, Lbas(b, chain), raw, |Lbas(b, chain)|)
    ensures OnDisk(d, Lbas(b, chain)) && raw == DirBytes(d, b, chain)
  {
    var lbas := Lbas(b, chain);
    assert lbas[..|lbas|] == lbas;
  }

  lemma FirstStep(f: Found, rest: seq<Found>, name: Name)
    ensures First([f] + rest, name) == if f.entry.name == name then Some(f) else First(rest, name)
  {
    assert ([f] + rest)[1..] == rest;
  }

  lemma LookupInside(raw: seq<Byte>, name: Name)
    requires Lookup(raw, name).Some?
    ensures Lookup(raw, name).value.offset + 32 <= |raw| && Lookup(raw, name).value.offset % 32 == 0
  {
    var k := LookupIndex(raw, name);
  }

  // The entry of that name was rewritten on the disk, and one sector with it.
  ghost predicate Patched(d: Disk, b: Bpb, chain: seq<nat>, p: Patch, name: Name, d': Disk) {
    && OnDisk(d, Lbas(b, chain)) && |d'| == |d|
    && var raw := DirBytes(d, b, chain);
       var f := Lookup(raw, name);
       && f.Some? && f.value.offset + 32 <= |raw|
       && DirBytes(d', b, chain) == Apply(p, raw, f.value.offset)
       && forall lba :: 0 <= lba < |d| && lba != Lbas(b, chain)[f.value.offset / 512] ==> d'[lba] == d[lba]
  }

  // Cluster of the chain and sector of the cluster that hold a byte of the file.
  function ClusterIdx(b: Bpb, offset: nat): int
    requires 0 < b.sectorsPerCluster
  {
    offset / (512 * b.sectorsPerCluster)
  }

  function SectorIdx(b: Bpb, offset: nat): nat
    requires 0 < b.sectorsPerCluster
  {
    offset % (512 * b.sectorsPerCluster) / 512
  }

  function SectorStart(b: Bpb, offset: nat): int
    requires 0 < b.sectorsPerCluster
  {
    ClusterIdx(b, offset) * (512 * b.sectorsPerCluster) + SectorIdx(b, offset) * 512
  }

  // The driver's cluster and sector arithmetic meets the file position.
  lemma SectorOfEntry(b: Bpb, chain: seq<nat>, offset: nat)
    requires 0 < b.sectorsPerCluster && offset < 512 * |Lbas(b, chain)|
    ensures 0 <= ClusterIdx(b, offset) < |chain|
    ensures SectorStart(b, offset) == 512 * (offset / 512)
    ensures Lbas(b, chain)[offset / 512] == b.ClusterToSector(chain[ClusterIdx(b, offset)]) + SectorIdx(b, offset)
  {
    hide Bpb.ClusterToSector, At, ClusterIdx, SectorIdx, SectorStart;
    var i, s := LbaOf(b, chain, offset / 512);
    OffsetAt(b, offset, i, s);
  }

  lemma OffsetAt(b: Bpb, offset: nat, i: nat, s: nat)
    requires s < b.sectorsPerCluster && offset / 512 == At(b, i, s)
    ensures ClusterIdx(b, offset) == i && SectorIdx(b, offset) == s && SectorStart(b, offset) == 512 * (offset / 512)
  {
    var m := 512 * b.sectorsPerCluster;
    assert i * m == 512 * (i * b.sectorsPerCluster);
    var r := 512 * s + offset % 512;
    DivMod(offset, m, i, r);
  }

  lemma DivMod(x: nat, m: nat, q: nat, r: nat)
    requires x == q * m + r && r < m
    ensures x / m == q && x % m == r
  {
    var q', r' := x / m, x % m;
    assert x == q' * m + r';
    if q' < q {
      CopiesBelow(q', q, m);
      assert false;
    } else if q < q' {
      CopiesBelow(q, q', m);
      assert false;
    }
  }

  lemma DirLength(d: Disk, b: Bpb, chain: seq<nat>)
    requires OnDisk(d, Lbas(b, chain))
    ensures |DirBytes(d, b, chain)| == 512 * |Lbas(b, chain)|
  {
  }

  lemma PatchOnDisk(d: Disk, b: Bpb, chain: seq<nat>, p: Patch, name: Name, offset: nat, raw: seq<Byte>, d': Disk)
    requires DataClusters(chain) && Distinct(chain) && OnDisk(d, Lbas(b, chain))
    requires Lookup(DirBytes(d, b, chain), name).Some? && offset == Lookup(DirBytes(d, b, chain), name).value.offset
    requires offset + 32 <= |raw| == |DirBytes(d, b, chain)| && raw == Apply(p, DirBytes(d, b, chain), offset)
    requires 512 * (offset / 512) + 512 <= |raw|
    requires d' == d[Lbas(b, chain)[offset / 512] := raw[512 * (offset / 512)..512 * (offset / 512) + 512]]
    ensures Patched(d, b, chain, p, name, d')
  {
    hide Apply, Lookup, Lbas;
    LookupInside(DirBytes(d, b, chain), name);
    LbasDistinct(b, chain);
    SectorReplaced(d, Lbas(b, chain), DirBytes(d, b, chain), raw, offset, d');
  }

  // Replacing one sector by the new bytes brings the whole file to them.
  lemma SectorReplaced(d: Disk, lbas: seq<nat>, was: seq<Byte>, raw: seq<Byte>, offset: nat, d': Disk)
    requires OnDisk(d, lbas) && Distinct(lbas) && was == Bytes(d, lbas, 512 * |lbas|) && |raw| == |was|
    requires offset % 32 == 0 && offset + 32 <= |raw|
    requires forall x :: 0 <= x < |raw| && (x < offset || offset + 32 <= x) ==> raw[x] == was[x]
    requires d' == d[lbas[offset / 512] := raw[512 * (offset / 512)..512 * (offset / 512) + 512]]
    ensures Bytes(d', lbas, 512 * |lbas|) == raw
  {
    var q := offset / 512;
    WithinSector(offset);
    forall x | 0 <= x < |raw|
      ensures Bytes(d', lbas, 512 * |lbas|)[x] == raw[x]
    {
      ReplacedByte(d, lbas, was, raw, q, offset - 512 * q, d', x / 512, x % 512);
      assert x == 512 * (x / 512) + x % 512;
    }
  }

  lemma WithinSector(offset: nat)
    requires offset % 32 == 0
    ensures 0 <= offset - 512 * (offset / 512) <= 480
  {
  }

  lemma ReplacedByte(d: Disk, lbas: seq<nat>, was: seq<Byte>, raw: seq<Byte>, q: nat, o: nat, d': Disk, k: nat, r: nat)
    requires OnDisk(d, lbas) && Distinct(lbas) && was == Bytes(d, lbas, 512 * |lbas|) && |raw| == |was|
    requires o <= 480 && q < |lbas| && k < |lbas| && r < 512
    requires forall x :: 0 <= x < |raw| && (x < 512 * q + o || 512 * q + o + 32 <= x) ==> raw[x] == was[x]
    requires d' == d[lbas[q] := raw[512 * q..512 * q + 512]]
    ensures d'[lbas[k]][r] == raw[512 * k + r]
  {
    hide Bytes;
    if k != q {
      var x := 512 * k + r;
      assert x < 512 * q + o || 512 * q + o + 32 <= x;
      ByteOf(d, lbas, k, r);
    }
  }

  lemma ByteOf(d: Disk, lbas: seq<nat>, k: nat, r: nat)
    requires OnDisk(d, lbas) && k < |lbas| && r < 512
    ensures Bytes(d, lbas, 512 * |lbas|)[512 * k + r] == d[lbas[k]][r]
  {
    var x := 512 * k + r;
    assert x / 512 == k && x % 512 == r;
  }

  class Volume {
    const b: Bpb
    // A reliable device fails on sectors it does not have and on no others.
    const reliable: bool
    var d: Disk
    ghost var trace: seq<Disk>

    ghost predicate Valid()
      reads this
    {
      Mounted(d, b)
    }

    constructor (b: Bpb, d: Disk, reliable: bool)
      requires Mounted(d, b)
      ensures Valid() && this.b == b && this.d == d && this.reliable == reliable && trace == []
    {
      this.b := b;
      this.reliable := reliable;
      this.d := d;
      trace := [];
    }

    method ReadSector(lba: nat) returns (ok: bool, buf: Sector)
      ensures ok ==> lba < |d| && buf == d[lba]
      ensures reliable && lba < |d| ==> ok
    {
      if lba < |d| {
        var works := *;
        if reliable || works {
          return true, d[lba];
        }
      }
      return false, ZeroSector();
    }

    method WriteSector(lba: nat, buf: Sector) returns (ok: bool)
      modifies this`d, this`trace
      ensures ok ==> lba < |old(d)| && d == old(d)[lba := buf] && trace == old(trace) + [d]
      ensures !ok ==> d == old(d) && trace == old(trace)
      ensures reliable && lba < |old(d)| ==> ok
    {
      if lba < |d| {
        var works := *;
        if reliable || works {
          d := d[lba := buf];
          trace := trace + [d];
          return true;
        }
      }
      return false;
    }

    // ---------- the table ----------

    method ReadFatEntry(cluster: nat) returns (ok: bool, value: nat)
      ensures ok ==> EntrySector(b, 0, cluster) < |d| && value == Entry(d, b, 0, cluster)
      ensures reliable && EntrySector(b, 0, cluster) < |d| ==> ok
    {
      RowAndOffset(b, cluster);
      var lba := b.baseSector + b.reservedSectors + cluster * b.Width() / 512;
      var buf: Sector;
      ok, buf := ReadSector(lba);
      value := Decode(b.variant, buf, cluster * b.Width() % 512);
      assert lba == EntrySector(b, 0, cluster);
    }

    // The entry goes to every copy, wherever its sector number leads; within the
    // table it is an update of that entry alone.
    method WriteFatEntry(cluster: nat, value: nat) returns (ok: bool, ghost log: seq<Disk>)
      requires Valid()
      modifies this`d, this`trace
      ensures Valid() && trace == old(trace) + log && d == Last(old(d), log)
      ensures |log| <= b.numFats && (ok ==> |log| == b.numFats > 0) && log == PutLog(old(d), b, cluster, value, |log|)
      ensures cluster < b.Entries() ==> Puts(old(d), b, cluster, b.Keep(value), log)
      ensures cluster < b.Entries() && ok ==> AllCopies(old(d), b, cluster, b.Keep(value), d)
      ensures reliable && cluster < b.Entries() ==> ok
    {
      ghost var n;
      ok, n := WriteCopies(cluster, value);
      log := PutLog(old(d), b, cluster, value, n);
      if cluster < b.Entries() {
        PutsSeen(old(d), b, cluster, value, n);
        PutsAll(old(d), b, cluster, value);
      }
    }

    // The loop over the copies of the table.
    method WriteCopies(cluster: nat, value: nat) returns (ok: bool, ghost n: nat)
      requires Valid()
      modifies this`d, this`trace
      ensures n <= b.numFats && (ok ==> n == b.numFats) && (reliable && cluster < b.Entries() ==> ok)
      ensures d == PutCopies(old(d), b, cluster, value, n)
      ensures trace == old(trace) + PutLog(old(d), b, cluster, value, n)
    {
      hide Encode;
      n := 0;
      var copy := 0;
      RowAndOffset(b, cluster);
      while copy < b.numFats
        invariant n == copy <= b.numFats
        invariant d == PutCopies(old(d), b, cluster, value, n)
        invariant trace == old(trace) + PutLog(old(d), b, cluster, value, n)
      {
        if cluster < b.Entries() {
          EntryPlace(b, copy, cluster);
        }
        var lba := b.baseSector + (b.reservedSectors + copy * b.fatSizeSectors) + cluster * b.Width() / 512;
        assert lba == EntrySector(b, copy, cluster);
        var buf: Sector;
        ok, buf := ReadSector(lba);
        if !ok {
          return;
        }
        ok := WriteSector(lba, Encode(b.variant, buf, cluster * b.Width() % 512, value));
        if !ok {
          return;
        }
        n, copy := n + 1, copy + 1;
        assert PutLog(old(d), b, cluster, value, n) == PutLog(old(d), b, cluster, value, n - 1) + [d];
      }
      ok := true;
    }

    // First free cluster from the hint on, then from 2; it becomes an end mark.
    method AllocateCluster(hint: nat) returns (r: Result<nat>, ghost c: nat, ghost log: seq<Disk>)
      requires Valid()
      modifies this`d, this`trace
      ensures Valid() && trace == old(trace) + log && d == Last(old(d), log)
      ensures log != [] ==> FirstFree(old(d), b, hint, c)
      ensures c < b.Entries() ==> Puts(old(d), b, c, b.Eoc(), log)
      ensures r.Ok? ==> c == r.value && log != [] && (c < b.Entries() ==> AllCopies(old(d), b, c, b.Eoc(), d))
      ensures r == Err(NoSpace) ==>
                log == [] && forall x :: hint <= x <= b.MaxCluster() || 2 <= x < hint ==> Entry(d, b, 0, x) != 0
      ensures reliable && FreeBehind(old(d), b, hint) ==> r.Ok?
      ensures reliable && b.MaxCluster() < b.Entries() && hint <= b.Entries() && r.Err? ==> r == Err(NoSpace)
    {
      hide Puts, AllCopies, Fat, Mounted, Entry, EntrySector;
      c, log := b.Entries(), [];
      var ok, value := true, 0;
      var cluster := hint;
      while cluster <= b.MaxCluster()
        invariant hint <= cluster && d == old(d) && trace == old(trace)
        invariant forall x :: hint <= x < cluster && x <= b.MaxCluster() ==> Entry(d, b, 0, x) != 0
        decreases b.MaxCluster() + 1 - cluster
      {
        InFree(d, b, hint, cluster);
        ok, value := ReadFatEntry(cluster);
        if !ok {
          return Err(IoError), c, log;
        }
        if value == 0 {
          ok, log := WriteFatEntry(cluster, b.Eoc());
          KeepEoc(b);
          return if ok then Ok(cluster) else Err(IoError), cluster, log;
        }
        cluster := cluster + 1;
      }
      NoneFree(d, b, hint);
      cluster := 2;
      while cluster < hint
        invariant 2 <= cluster && d == old(d) && trace == old(trace)
        invariant forall x :: 2 <= x < cluster && x < hint ==> Entry(d, b, 0, x) != 0
      {
        EntryOnDisk(d, b, cluster);
        ok, value := ReadFatEntry(cluster);
        if !ok {
          return Err(IoError), c, log;
        }
        if value == 0 {
          ok, log := WriteFatEntry(cluster, b.Eoc());
          KeepEoc(b);
          return if ok then Ok(cluster) else Err(IoError), cluster, log;
        }
        cluster := cluster + 1;
      }
      return Err(NoSpace), c, log;
    }

    // Link the new cluster behind the last one, then end the chain there.
    method ExtendChain(last: nat, new_: nat) returns (ok: bool, ghost log: seq<Disk>)
      requires Valid()
      modifies this`d, this`trace
      ensures Valid() && trace == old(trace) + log && d == Last(old(d), log)
      ensures last < b.Entries() && new_ < b.Entries() ==> forall t :: t in log ==> Extending(old(d), b, last, new_, t)
      ensures last < b.Entries() && new_ < b.Entries() && ok ==> log != [] && Extension(old(d), b, last, new_, d)
      ensures reliable && last < b.Entries() && new_ < b.Entries() ==> ok
    {
      hide Fat, Mounted, AllCopies;
      ok, log := WriteFatEntry(last, new_);
      KeepEoc(b);
      KeepSmall(b, new_);
      if ok {
        ghost var mid := d;
        ghost var rest;
        ok, rest := WriteFatEntry(new_, b.Eoc());
        if last < b.Entries() && new_ < b.Entries() {
          ExtensionLog(old(d), b, last, new_, mid, log, rest);
          if ok {
            TwoWrites(old(d), b, last, new_, mid, d);
          }
        }
        log := log + rest;
      }
    }

    // Follow the chain; an unreadable entry is an error, a long chain is cut.
    method ReadClusterChain(start: nat) returns (ok: bool, chain: seq<nat>)
      ensures ok ==> chain == Walk(Raw(d, b), start, CHAIN_LIMIT)
      ensures reliable && Readable(d, b, Walk(Raw(d, b), start, CHAIN_LIMIT)) ==> ok
    {
      hide Mounted, Entry, EntrySector, Readable;
      ghost var next := Raw(d, b);
      ghost var all := Walk(next, start, CHAIN_LIMIT);
      chain := [];
      var cluster: nat := start;
      while true
        invariant 0 < CHAIN_LIMIT - |chain|
        invariant chain + Walk(next, cluster, CHAIN_LIMIT - |chain|) == all
        decreases CHAIN_LIMIT - |chain|
      {
        if cluster < 2 || cluster >= b.Eoc() {
          break;
        }
        WalkStep(next, chain, cluster, CHAIN_LIMIT - |chain|);
        ReadableAt(d, b, all, |chain|);
        chain := chain + [cluster];
        ok, cluster := ReadFatEntry(cluster);
        if !ok {
          return false, [];
        }
        if |chain| > 0x10_0000 {
          break;
        }
      }
      return true, chain;
    }

    // Zero every entry of the chain.
    method FreeClusterChain(start: nat) returns (ok: bool, ghost chain: seq<nat>, ghost log: seq<Disk>)
      requires Valid()
      modifies this`d, this`trace
      ensures Valid() && trace == old(trace) + log && d == Last(old(d), log)
      ensures ok || log != [] ==> chain == Walk(Raw(old(d), b), start, CHAIN_LIMIT)
      ensures InTable(b, chain) ==> forall t :: t in log ==> Freeing(old(d), b, chain, t)
      ensures InTable(b, chain) ==> TableOnly(old(d), d, b) && (ok ==> Freed(old(d), b, chain, d))
      ensures var w := Walk(Raw(old(d), b), start, CHAIN_LIMIT);
        reliable && Readable(old(d), b, w) && InTable(b, w) ==> ok
    {
      hide Raw, Mounted, AllCopies, Freed, Freeing, InTable, Puts, TableOnly, FreedSoFar;
      var clusters;
      ok, clusters := ReadClusterChain(start);
      chain, log := clusters, [];
      FreedStart(d, b, chain);
      if !ok {
        return;
      }
      var i := 0;
      while i < |clusters|
        invariant i <= |clusters| && Valid() && FreedSoFar(old(d), b, chain, i, d, log)
        invariant trace == old(trace) + log && d == Last(old(d), log)
      {
        ghost var mid := d;
        ghost var more;
        ok, more := WriteFatEntry(clusters[i], 0);
        FreedStep(old(d), b, chain, i, mid, log, ok, more, d);
        log := log + more;
        if !ok {
          return;
        }
        i := i + 1;
      }
      FreedAll(old(d), b, chain, d, log);
    }

    // Count the entries that read as zero.
    method CountFreeClusters() returns (ok: bool, free: nat)
      ensures ok ==> free == FreeIn(Raw(d, b), 2, b.MaxCluster() + 1)
      ensures reliable && EntrySector(b, 0, b.MaxCluster()) < |d| ==> ok
    {
      hide Entry, EntrySector;
      free := 0;
      var cluster, value := 2, 0;
      while cluster <= b.MaxCluster()
        invariant 2 <= cluster <= b.MaxCluster() + 1
        invariant free == FreeIn(Raw(d, b), 2, cluster)
      {
        SectorsRise(b, cluster, b.MaxCluster());
        ok, value := ReadFatEntry(cluster);
        if !ok {
          return;
        }
        if value == 0 {
          free := free + 1;
        }
        cluster := cluster + 1;
      }
      ok := true;
    }

    // ---------- file data ----------

    // Copy the chain's bytes into buf, up to its length.
    method ReadFileData(chain: seq<nat>, buf: array<Byte>) returns (ok: bool, bytesRead: nat)
      modifies buf
      ensures ok ==> bytesRead == Min(buf.Length, 512 * |Lbas(b, chain)|)
      ensures ok ==> Copied(d, Lbas(b, chain), old(buf[..]), buf[..], bytesRead)
      ensures reliable && OnDisk(d, Lbas(b, chain)) ==> ok
    {
      hide At, Copied, Bpb.ClusterToSector;
      ghost var lbas := Lbas(b, chain);
      AtStart(b);
      NoneCopied(d, lbas, buf[..]);
      bytesRead := 0;
      ghost var k := 0;
      var i := 0;
      while i < |chain| && bytesRead < buf.Length
        invariant i <= |chain| && bytesRead == Min(512 * k, buf.Length)
        invariant bytesRead < buf.Length ==> k == At(b, i, 0)
        invariant Copied(d, lbas, old(buf[..]), buf[..], bytesRead)
      {
        var sector := b.ClusterToSector(chain[i]);
        var s := 0;
        while s < b.sectorsPerCluster && bytesRead < buf.Length
          invariant s <= b.sectorsPerCluster && bytesRead == Min(512 * k, buf.Length)
          invariant k == At(b, i, s)
          invariant Copied(d, lbas, old(buf[..]), buf[..], bytesRead)
        {
          AtLba(b, chain, i, s);
          AtNext(b, i, s);
          var sec: Sector;
          ok, sec := ReadSector(sector + s);
          if !ok {
            return;
          }
          bytesRead := CopyInto(buf, bytesRead, sec, d, lbas, k, old(buf[..]));
          s, k := s + 1, k + 1;
        }
        AtNext(b, i, s);
        i := i + 1;
      }
      CopiedBound(d, lbas, old(buf[..]), buf[..], bytesRead);
      ok := true;
    }

    // copy_from_slice of a sector into the buffer.
    method CopyInto(buf: array<Byte>, at: nat, sec: Sector, ghost disk: Disk, ghost lbas: seq<nat>, ghost k: nat,
                    ghost was: seq<Byte>)
      returns (end: nat)
      requires at == 512 * k < buf.Length && k < |lbas| && lbas[k] < |disk| && disk[lbas[k]] == sec
      requires Copied(disk, lbas, was, buf[..], at)
      modifies buf
      ensures end == Min(512 * (k + 1), buf.Length)
      ensures Copied(disk, lbas, was, buf[..], end)
    {
      var n := Min(512, buf.Length - at);
      end := at + n;
      forall x | 0 <= x < n {
        buf[at + x] := sec[x];
      }
      forall x | 0 <= x < end
        ensures lbas[x / 512] < |disk| && buf[x] == disk[lbas[x / 512]][x % 512]
      {
        if x < at {
          assert buf[x] == old(buf[..])[x];
        } else {
          assert x / 512 == k && x % 512 == x - at;
        }
      }
      forall x | end <= x < buf.Length
        ensures buf[x] == was[x]
      {
        assert buf[x] == old(buf[..])[x];
      }
    }

    // The sectors of one cluster, each from the same offset within the sector.
    method WriteCluster(cluster: nat, clusterByte: nat, buf: seq<Byte>, at: nat, ghost d0: Disk, ghost lbas: seq<nat>,
                        ghost w: nat, ghost n: nat, ghost k0: nat, ghost before: seq<Disk>)
      returns (ok: bool, bytesWritten: nat, ghost k: nat)
      requires w < 512 && Placing(d0, lbas, buf, w, n, k0, d, before, trace) && at == Min(Pos(w, n, k0), |buf|)
      requires ClusterSectors(b, cluster, clusterByte, lbas, w, n, k0)
      modifies this`d, this`trace
      ensures Placing(d0, lbas, buf, w, n, k, d, before, trace) && bytesWritten == Min(Pos(w, n, k), |buf|)
      ensures k0 <= k <= k0 + b.sectorsPerCluster && (ok ==> bytesWritten == |buf| || k == k0 + b.sectorsPerCluster)
      ensures reliable && OnDisk(d0, lbas) ==> ok
    {
      hide Placing, Bpb.ClusterToSector, Skew, Piece;
      var sector := b.ClusterToSector(cluster);
      bytesWritten, k := at, k0;
      var s := 0;
      while s < b.sectorsPerCluster
        invariant s <= b.sectorsPerCluster && k == k0 + s && bytesWritten == Min(Pos(w, n, k), |buf|)
        invariant Placing(d0, lbas, buf, w, n, k, d, before, trace)
      {
        if bytesWritten >= |buf| {
          break;
        }
        PlaceBound(d0, lbas, buf, w, n, k, d, before, trace);
        var into := (s * 512 + clusterByte) % 512;
        PieceIs(b, cluster, clusterByte, buf, lbas, w, n, k0, s);
        var sec: Sector;
        ok, sec := ReadSector(sector + s);
        if !ok {
          return;
        }
        ghost var e, log := d, trace;
        var m := Min(512 - into, |buf| - bytesWritten);
        ok := WriteSector(sector + s, sec[..into] + buf[bytesWritten..bytesWritten + m] + sec[into + m..]);
        if !ok {
          return;
        }
        PlaceMore(d0, lbas, buf, w, n, k, e, before, log, d);
        bytesWritten := bytesWritten + m;
        s, k := s + 1, k + 1;
      }
      ok := true;
    }

    // Overlay the sectors of the chain with buf, from the cluster the offset falls in.
    method WriteFileData(chain: seq<nat>, offset: nat, buf: seq<Byte>)
      returns (ok: bool, bytesWritten: nat, ghost k: nat)
      requires 0 < b.sectorsPerCluster
      modifies this`d, this`trace
      ensures var lbas := Lbas(b, From(chain, StartCluster(b, offset)));
        && Placing(old(d), lbas, buf, offset % 512, b.sectorsPerCluster, k, d, old(trace), trace)
        && (ok ==> PiecesDone(|buf|, |lbas|, offset % 512, b.sectorsPerCluster, k, bytesWritten))
        && (reliable && OnDisk(old(d), lbas) ==> ok)
    {
      hide At, Placing, Bpb.ClusterToSector, StartCluster, StartByte, OnDisk, ClusterSectors;
      var startIdx, startByte := StartCluster(b, offset), StartByte(b, offset);
      ghost var rest := From(chain, startIdx);
      ghost var lbas, w, n := Lbas(b, rest), offset % 512, b.sectorsPerCluster;
      AtStart(b);
      NonePlaced(d, lbas, buf, w, n, trace);
      bytesWritten, k := 0, 0;
      var i := 0;
      while i < |chain|
        invariant i <= |chain| && bytesWritten == Min(Pos(w, n, k), |buf|)
        invariant if i <= startIdx then k == 0 else bytesWritten == |buf| || k == At(b, i - startIdx, 0)
        invariant Placing(old(d), lbas, buf, w, n, k, d, old(trace), trace)
      {
        if i < startIdx {
          i := i + 1;
          continue;
        }
        if bytesWritten >= |buf| {
          break;
        }
        var clusterByte := if i == startIdx then startByte else 0;
        ghost var k0 := k;
        SectorsHere(b, chain, offset, i);
        ok, bytesWritten, k := WriteCluster(chain[i], clusterByte, buf, bytesWritten, old(d), lbas, w, n, k0,
                                            old(trace));
        if !ok {
          return;
        }
        AtNext(b, i - startIdx, 0);
        i := i + 1;
      }
      PlaceBound(old(d), lbas, buf, w, n, k, d, old(trace), trace);
      ok := true;
    }

    // The one offset close uses: the file's start.
    method WriteFromStart(chain: seq<nat>, buf: seq<Byte>) returns (ok: bool, bytesWritten: nat, ghost k: nat)
      requires 0 < b.sectorsPerCluster
      modifies this`d, this`trace
      ensures Flushing(old(d), Lbas(b, chain), buf, k, d, old(trace), trace)
      ensures ok ==> bytesWritten == Min(|buf|, 512 * |Lbas(b, chain)|) && k == SectorsFor(bytesWritten)
      ensures reliable && OnDisk(old(d), Lbas(b, chain)) ==> ok
    {
      hide Placing, Flushing, PiecesDone, StartCluster, OnDisk, Lbas, SectorsFor;
      FromAll(b, chain);
      ok, bytesWritten, k := WriteFileData(chain, 0, buf);
      PlacingFlat(old(d), Lbas(b, chain), buf, b.sectorsPerCluster, k, d, old(trace), trace);
      if ok {
        PiecesFlat(|buf|, |Lbas(b, chain)|, b.sectorsPerCluster, k, bytesWritten);
      }
    }

    // ---------- directories ----------

    // All bytes of the directory's chain.
    method ReadDirBytes(chain: seq<nat>) returns (ok: bool, raw: seq<Byte>)
      ensures ok ==> OnDisk(d, Lbas(b, chain)) && raw == DirBytes(d, b, chain)
      ensures reliable && OnDisk(d, Lbas(b, chain)) ==> ok
    {
      hide At, DirSoFar, Bpb.ClusterToSector;
      ghost var lbas := Lbas(b, chain);
      AtStart(b);
      NoDirBytes(d, lbas);
      raw := [];
      var i := 0;
      while i < |chain|
        invariant i <= |chain| && DirSoFar(d, lbas, raw, At(b, i, 0))
      {
        var sector := b.ClusterToSector(chain[i]);
        var s := 0;
        while s < b.sectorsPerCluster
          invariant s <= b.sectorsPerCluster && DirSoFar(d, lbas, raw, At(b, i, s))
        {
          AtLba(b, chain, i, s);
          AtNext(b, i, s);
          var sec: Sector;
          ok, sec := ReadSector(sector + s);
          if !ok {
            return false, [];
          }
          MoreDirBytes(d, lbas, raw, At(b, i, s));
          raw := raw + sec;
          s := s + 1;
        }
        AtNext(b, i, s);
        i := i + 1;
      }
      AllDirBytes(d, b, chain, raw);
      ok := true;
    }

    method ReadDirEntriesFromChain(chain: seq<nat>) returns (ok: bool, entries: seq<DirEntry>)
      ensures ok ==> OnDisk(d, Lbas(b, chain)) && entries == Entries(Scan(DirBytes(d, b, chain), 0, []))
      ensures reliable && OnDisk(d, Lbas(b, chain)) ==> ok
    {
      var raw;
      ok, raw := ReadDirBytes(chain);
      entries := [];
      if ok {
        entries := ParseDirEntries(raw);
      }
    }

    // Offset of the first entry of that name, with the bytes read.
    method FindDirEntry(chain: seq<nat>, name: Name) returns (r: Result<nat>, raw: seq<Byte>)
      ensures r != Err(IoError) ==> OnDisk(d, Lbas(b, chain)) && raw == DirBytes(d, b, chain)
      ensures r.Ok? ==> Lookup(raw, name).Some? && Lookup(raw, name).value.offset == r.value
      ensures r == Err(NotFound) ==> Lookup(raw, name).None?
      ensures (r.Ok? || r == Err(NotFound) || r == Err(IoError))
      ensures (reliable && OnDisk(d, Lbas(b, chain)) ==> r != Err(IoError))
    {
      hide Classify, ParseEntry, DirBytes, Lbas;
      var ok;
      ok, raw := ReadDirBytes(chain);
      if !ok {
        return Err(IoError), raw;
      }
      var offset := 0;
      var pending: Name := [];
      while offset + 32 <= |raw|
        invariant First(Scan(raw, offset, pending), name) == Lookup(raw, name)
      {
        var buf := raw[offset..offset + 32];
        ScanStep(raw, offset, pending);
        if buf[0] == 0 {
          break;
        }
        if buf[11] == LONG_NAME {
          pending := AppendLfn(pending, buf);
          offset := offset + 32;
          continue;
        }
        var parsed := ParseDirEntry(buf);
        if parsed.Some? {
          FirstStep(Found(offset, Named(parsed.value, pending)), Scan(raw, offset + 32, []), name);
          if (if pending == [] then parsed.value.name else pending) == name {
            return Ok(offset), raw;
          }
        }
        pending := [];
        offset := offset + 32;
      }
      return Err(NotFound), raw;
    }

    // The same search, returning the parsed entry.
    method LookupDirEntry(chain: seq<nat>, name: Name) returns (r: Result<Found>, raw: seq<Byte>)
      ensures r != Err(IoError) ==> OnDisk(d, Lbas(b, chain)) && raw == DirBytes(d, b, chain)
      ensures r.Ok? ==> Lookup(raw, name) == Some(r.value)
      ensures r == Err(NotFound) ==> Lookup(raw, name).None?
      ensures (r.Ok? || r == Err(NotFound) || r == Err(IoError))
      ensures (reliable && OnDisk(d, Lbas(b, chain)) ==> r != Err(IoError))
    {
      hide Classify, ParseEntry, DirBytes, Lbas;
      var ok;
      ok, raw := ReadDirBytes(chain);
      if !ok {
        return Err(IoError), raw;
      }
      var offset := 0;
      var pending: Name := [];
      while offset + 32 <= |raw|
        invariant First(Scan(raw, offset, pending), name) == Lookup(raw, name)
      {
        var buf := raw[offset..offset + 32];
        ScanStep(raw, offset, pending);
        if buf[0] == 0 {
          break;
        }
        if buf[11] == LONG_NAME {
          pending := AppendLfn(pending, buf);
          offset := offset + 32;
          continue;
        }
        var parsed := ParseDirEntry(buf);
        if parsed.Some? {
          var e := if pending == [] then parsed.value else parsed.value.(name := pending);
          FirstStep(Found(offset, e), Scan(raw, offset + 32, []), name);
          if e.name == name {
            return Ok(Found(offset, e)), raw;
          }
        }
        pending := [];
        offset := offset + 32;
      }
      return Err(NotFound), raw;
    }

    // Write back the one sector that holds the entry at offset.
    method WriteBack(chain: seq<nat>, raw: seq<Byte>, offset: nat, ghost p: Patch, ghost name: Name) returns (ok: bool)
      requires b.Valid() && DataClusters(chain) && Distinct(chain) && OnDisk(d, Lbas(b, chain))
      requires Lookup(DirBytes(d, b, chain), name).Some? && offset == Lookup(DirBytes(d, b, chain), name).value.offset
      requires offset + 32 <= |DirBytes(d, b, chain)| && raw == Apply(p, DirBytes(d, b, chain), offset)
      modifies this`d, this`trace
      ensures ok ==> Patched(old(d), b, chain, p, name, d) && trace == old(trace) + [d]
      ensures reliable ==> ok
      ensures |d| == |old(d)|
      ensures !ok ==> d == old(d) && trace == old(trace)
    {
      hide Apply, Lookup, Patched, DirBytes, Lbas, ClusterIdx, SectorIdx, SectorStart, Bpb.ClusterToSector;
      DirLength(d, b, chain);
      SectorOfEntry(b, chain, offset);
      var lba := b.ClusterToSector(chain[ClusterIdx(b, offset)]) + SectorIdx(b, offset);
      var start := SectorStart(b, offset);
      var len := Min(512, |raw| - start);
      assert len == 512 && raw[start..start + len] + ZeroSector()[len..] == raw[start..start + 512];
      ok := WriteSector(lba, raw[start..start + len] + ZeroSector()[len..]);
      if ok {
        PatchOnDisk(old(d), b, chain, p, name, offset, raw, d);
      }
    }

    // Mark the first entry of that name deleted.
    method DeleteDirEntry(chain: seq<nat>, name: Name) returns (r: Result<nat>)
      requires b.Valid() && DataClusters(chain) && Distinct(chain)
      modifies this`d, this`trace
      ensures r.Ok? ==> Patched(old(d), b, chain, Delete, name, d) && trace == old(trace) + [d]
      ensures reliable && OnDisk(old(d), Lbas(b, chain)) && r.Err? ==> r == Err(NotFound)
      ensures |d| == |old(d)|
      ensures r.Err? ==> d == old(d) && trace == old(trace)
      ensures r == Err(NotFound) ==> OnDisk(d, Lbas(b, chain)) && Lookup(DirBytes(d, b, chain), name).None?
    {
      hide Patched, Lbas, DirBytes;
      var raw;
      r, raw := FindDirEntry(chain, name);
      if r.Err? {
        return;
      }
      LookupInside(raw, name);
      var raw' := raw[r.value := DELETED];
      var ok := WriteBack(chain, raw', r.value, Delete, name);
      if !ok {
        r := Err(IoError);
      }
    }

    // Rewrite the size field of the first entry of that name.
    method UpdateDirEntrySize(chain: seq<nat>, name: Name, newSize: nat) returns (r: Result<nat>)
      requires b.Valid() && DataClusters(chain) && Distinct(chain)
      modifies this`d, this`trace
      ensures r.Ok? ==> Patched(old(d), b, chain, Resize(newSize), name, d) && trace == old(trace) + [d]
      ensures reliable && OnDisk(old(d), Lbas(b, chain)) && r.Err? ==> r == Err(NotFound)
      ensures |d| == |old(d)|
      ensures r.Err? ==> d == old(d) && trace == old(trace)
      ensures r == Err(NotFound) ==> OnDisk(d, Lbas(b, chain)) && Lookup(DirBytes(d, b, chain), name).None?
    {
      hide Classify, ParseEntry, Patched, DirBytes, Lbas, Digit;
      var ok, raw := ReadDirBytes(chain);
      if !ok {
        return Err(IoError);
      }
      var offset := 0;
      var found := false;
      var pending: Name := [];
      while offset + 32 <= |raw|
        invariant !found && d == old(d) && trace == old(trace)
        invariant First(Scan(raw, offset, pending), name) == Lookup(raw, name)
      {
        var buf := raw[offset..offset + 32];
        ScanStep(raw, offset, pending);
        if buf[0] == 0 {
          break;
        }
        if buf[11] == LONG_NAME {
          pending := AppendLfn(pending, buf);
          offset := offset + 32;
          continue;
        }
        var parsed := ParseDirEntry(buf);
        if parsed.Some? {
          FirstStep(Found(offset, Named(parsed.value, pending)), Scan(raw, offset + 32, []), name);
          if (if pending == [] then parsed.value.name else pending) == name {
            found := true;
            break;
          }
        }
        pending := [];
        offset := offset + 32;
      }
      if !found {
        return Err(NotFound);
      }
      LookupInside(raw, name);
      var raw' := raw[offset + 28 := Digit(newSize, 0)][offset + 29 := Digit(newSize, 1)]
                     [offset + 30 := Digit(newSize, 2)][offset + 31 := Digit(newSize, 3)];
      ok := WriteBack(chain, raw', offset, Resize(newSize), name);
      return if ok then Ok(offset) else Err(IoError);
    }
  }
}
