/**
 * Small volumes on which the driver falls short: each lemma is one input on
 * which a condition of the other modules fails, and what happens there.
 */
module FatCases {
  import opened Wrappers
  import opened FatDisk
  import opened FatChains
  import opened FatData
  import opened FatPlace
  import opened FatDirs
  import opened FatVolume
  import opened FatClose

  // FAT16 with one reserved sector, two tables of one sector, and one sector per cluster from sector 3 on.
  function Small(): Bpb {
    Bpb(Fat16, 1, 1, 2, 1, 0, 3)
  }

  // ---------- leaving the table ----------

  // Both tables are full, all other sectors hold zeros.
  function FullDisk(): Disk {
    [ZeroSector(), seq(512, _ => 0xFF), seq(512, _ => 0xFF)] + seq(600, _ => ZeroSector())
  }

  lemma FullReads(c: nat)
    ensures Entry(FullDisk(), Small(), 0, c) == if c < 512 then 0xFFFF else 0
  {
    var lba := EntrySector(Small(), 0, c);
    assert lba == 1 + c * 2 / 512 && (c < 512 <==> lba < 3);
  }

  // The scan passes both tables and takes cluster 512, whose entry is the first data sector.
  lemma ScanLeavesTable()
    ensures Mounted(FullDisk(), Small()) && Small().Entries() == 256
    ensures FirstFree(FullDisk(), Small(), 2, 512) && !FreeBehind(FullDisk(), Small(), 2)
    ensures EntrySector(Small(), 0, 512) == Small().ClusterToSector(2)
  {
    hide Entry;
    forall c: nat
      ensures Entry(FullDisk(), Small(), 0, c) == if c < 512 then 0xFFFF else 0
    {
      FullReads(c);
    }
    ScanStays(FullDisk(), Small(), 2, 512);
  }

  // The full volume is said to have free clusters.
  lemma FullMiscounted()
    ensures FreeIn(Fat(FullDisk(), Small()), 2, Small().MaxCluster() + 1) == 0
    ensures FreeIn(Raw(FullDisk(), Small()), 2, Small().MaxCluster() + 1) > 0
  {
    hide Entry;
    FullReads(512);
    CountRightIff(FullDisk(), Small());
    forall c | 2 <= c < Small().Entries()
      ensures Fat(FullDisk(), Small())[c] != 0
    {
      FullReads(c);
    }
    FreeNone(Fat(FullDisk(), Small()), 2, Small().MaxCluster() + 1);
  }

  // ---------- writing into the second sector of a cluster ----------

  // Of two sectors per cluster; one byte for offset 512 lands at offset 0.
  lemma SecondSectorMisplaced(b: Bpb)
    requires b.sectorsPerCluster == 2
    ensures Lands(b, 512, 0, 0) == 0 && !Rightly(b, 512, 1)
  {
    RightlyIff(b, 512, 1);
    FirstPieces(0, 2);
  }

  // ---------- a file in cluster 2, its directory in cluster 3 ----------

  // Chains [2] and [3]; with `taken` also cluster 4, allocated and not yet linked.
  function TableSector(taken: bool): Sector {
    seq(512, i => if i == 4 || i == 6 || (taken && i == 8) then 0xF8
                  else if i == 5 || i == 7 || (taken && i == 9) then 0xFF else 0)
  }

  // One file, A, in cluster 2.
  function DirSector(size: nat): Sector {
    seq(512, i => if i == 0 then 65 else if 1 <= i <= 11 then 0x20 else if i == 26 then 2
                  else if 28 <= i < 32 then Digit(size, i - 28) else 0)
  }

  ghost predicate FileDisk(d: Disk, size: nat, taken: bool) {
    |d| == 6 && d[1] == TableSector(taken) && d[2] == TableSector(taken) && d[4] == DirSector(size)
  }

  // There are such disks.
  lemma SomeFileDisk(size: nat, taken: bool) returns (d: Disk)
    ensures FileDisk(d, size, taken)
  {
    hide TableSector, DirSector, ZeroSector;
    d := seq(6, _ => ZeroSector());
    d := d[1 := TableSector(taken)][2 := TableSector(taken)][4 := DirSector(size)];
  }

  const FILE_A: Name := [97]

  lemma FileTable(d: Disk, b: Bpb, size: nat, taken: bool)
    requires FileDisk(d, size, taken) && b == Small()
    ensures Mounted(d, b) && IsChain(Fat(d, b), [2])
  {
    hide DirSector, View, Entry;
    EndMarkAt(d, b, size, taken);
    assert [2][0] == 2;
  }

  lemma EndMarkAt(d: Disk, b: Bpb, size: nat, taken: bool)
    requires FileDisk(d, size, taken) && b == Small()
    ensures Entry(d, b, 0, 2) == 0xFFF8
  {
    hide DirSector, TableSector, Decode, EntrySector, EntryOffset;
    TableBytes(d[1], taken);
    EntryAt(b);
  }

  lemma EntryAt(b: Bpb)
    requires b == Small()
    ensures EntrySector(b, 0, 2) == 1 && EntryOffset(b, 2) == 4
  {
    var x := 2 * b.Width();
    assert x == 4;
    assert x / 512 == 0 && x % 512 == 4;
  }

  lemma TableBytes(s: Sector, taken: bool)
    requires s == TableSector(taken)
    ensures Decode(Fat16, s, 4) == 0xFFF8
  {
    assert s[4] == 0xF8 && s[5] == 0xFF;
  }

  lemma OneSector(b: Bpb, c: nat)
    requires b == Small() && 2 <= c
    ensures Lbas(b, [c]) == [c + 1]
  {
    AtStart(b);
    assert [c][..0] == [];
    assert ClusterLbas(b, c) == [c + 1];
  }

  lemma FileDirectory(d: Disk, b: Bpb, size: nat, taken: bool)
    requires FileDisk(d, size, taken) && b == Small()
    ensures Lbas(b, [3]) == [4] && OnDisk(d, Lbas(b, [3])) && DirBytes(d, b, [3]) == DirSector(size)
  {
    hide TableSector, DirSector, Lbas;
    OneSector(b, 3);
  }

  lemma FileEntry(size: nat)
    requires size < 0x1_0000_0000
    ensures Lookup(DirSector(size), FILE_A) == Some(Found(0, DirEntry(FILE_A, 0x20, 2, size)))
  {
    var raw := DirSector(size);
    var buf := raw[0..32];
    SizeBytes(size);
    assert NamePart(buf, 8, 11) == [] && NamePart(buf, 1, 8) == [];
    assert NamePart(buf, 0, 8) == FILE_A;
    assert Le32(buf, 28) == size;
    assert Classify(buf) == File(DirEntry(FILE_A, 0x20, 2, size));
    assert Classify(raw[32..64]) == End;
    assert Scan(raw, 32, []) == [];
  }

  // The directory entry names cluster 2 and the size.
  ghost predicate NamesA(d: Disk, b: Bpb, dir: seq<nat>, size: nat) {
    EntryNames(d, b, dir, FILE_A, 2) && Lookup(DirBytes(d, b, dir), FILE_A).value.entry.size == size
  }

  lemma FileNamed(d: Disk, b: Bpb, size: nat, taken: bool)
    requires FileDisk(d, size, taken) && b == Small() && size < 0x1_0000_0000
    ensures NamesA(d, b, [3], size)
  {
    hide Lookup, DirBytes, FileDisk, DirSector, Lbas;
    FileDirectory(d, b, size, taken);
    FileEntry(size);
  }

  // Truncating the file: after the first of the two table writes its entry leads nowhere.
  lemma TruncationDangles(d: Disk, b: Bpb)
    requires FileDisk(d, 100, false) && b == Small()
    ensures Healthy(d, b, [2], 2, [3], FILE_A) && InTable(b, [2]) && Freeing(d, b, [2], PutCopies(d, b, 2, 0, 1))
    ensures forall h, first :: !Healthy(PutCopies(d, b, 2, 0, 1), b, h, first, [3], FILE_A)
  {
    hide Fat, DirBytes, Lookup, FileDisk, Small, Lbas, PutCopies, Freeing;
    FileTable(d, b, 100, false);
    FileNamed(d, b, 100, false);
    OneSector(b, 2);
    ChainInTable(d, b, [2]);
    FirstCopyFreed(d, b);
    FreeingBreaks(d, b, [2], PutCopies(d, b, 2, 0, 1), [3], FILE_A);
  }

  lemma FirstCopyFreed(d: Disk, b: Bpb)
    requires Mounted(d, b) && InTable(b, [2]) && IsChain(Fat(d, b), [2])
    ensures Freeing(d, b, [2], PutCopies(d, b, 2, 0, 1))
  {
    hide PutCopies, TableOnly;
    assert [2][0] == 2;
    PutsTableOnly(d, b, 2, 0, 1);
    PutCopiesView(d, b, 2, 0, 1, 0);
    assert [2][..1] == [2] && [2][..0] == [];
    assert Cluster(Fat(d, b), 2);
  }

  // Growing it to 600 bytes when the link to cluster 4 fails: the size is recorded, the chain has one cluster.
  lemma TornUncovered(d: Disk, e: Disk, t: Disk, b: Bpb)
    requires FileDisk(d, 100, false) && FileDisk(e, 100, true) && t == e[4 := DirSector(600)] && b == Small()
    ensures b.Valid() && ClustersNeeded(b, 600) == 2 && TornFile(d, e, b, 2, 1, [3])
    ensures Patched(e, b, [3], Resize(600), FILE_A, t)
    ensures forall h :: !Healthy(t, b, h, 2, [3], FILE_A)
  {
    hide Fat, DirBytes, Lookup, Healthy, TableSector, DirSector, Lbas, Apply;
    FileTable(d, b, 100, false);
    FileTable(e, b, 100, true);
    FileNamed(d, b, 100, false);
    FileDirectory(d, b, 100, false);
    FileDirectory(e, b, 100, true);
    FileDirectory(t, b, 600, true);
    FileEntry(100);
    ResizedSector(100, 600);
    TornCoveredIff(d, e, b, 2, [2], [3], FILE_A, false, 600, t);
  }

  lemma ResizedSector(size: nat, size': nat)
    ensures Apply(Resize(size'), DirSector(size), 0) == DirSector(size')
  {
  }
}
