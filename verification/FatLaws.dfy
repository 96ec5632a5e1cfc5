/**
 * The volume told by the bytes of the device: where the entries of the table
 * and the bytes of a file lie, what an end mark looks like, which cluster is
 * taken next, and what makes an entry a directory.
 */
module FatLaws {
  import opened Octets
  import opened FatDisk
  import opened FatChains
  import opened FatData
  import opened FatDirs
  import opened FatVolume
  import opened FatGrowth
  import opened FatFile

  // Byte a of the device.
  ghost function Raw8(d: Disk, a: nat): nat {
    if a / 512 < |d| then Num(d[a / 512][a % 512]) else 0
  }

  // ---------- the table ----------

  // First byte of the entry: the tables follow the reserved sectors, one behind the other; an
  // entry takes two bytes or four.
  ghost function Place(b: Bpb, copy: nat, c: nat): nat {
    512 * (b.baseSector + b.reservedSectors + copy * b.fatSizeSectors) + (if b.variant == Fat16 then 2 * c else 4 * c)
  }

  lemma PlaceIs(b: Bpb, copy: nat, c: nat)
    ensures Place(b, copy, c) == 512 * EntrySector(b, copy, c) + EntryOffset(b, c)
    ensures EntryOffset(b, c) + (if b.variant == Fat16 then 2 else 4) <= 512
  {
    hide TableStart;
    var w := if b.variant == Fat16 then 2 * c else 4 * c;
    RowOffset(b.baseSector + b.reservedSectors + copy * b.fatSizeSectors, w);
    assert TableStart(b, copy) == b.baseSector + b.reservedSectors + copy * b.fatSizeSectors by {
      StartIs(b, copy);
    }
    assert c * b.Width() == w;
    RowAndOffset(b, c);
  }

  lemma StartIs(b: Bpb, copy: nat)
    ensures TableStart(b, copy) == b.baseSector + b.reservedSectors + copy * b.fatSizeSectors
  {
  }

  lemma RowOffset(start: nat, w: nat)
    ensures 512 * start + w == 512 * (start + w / 512) + w % 512
  {
  }

  lemma SplitAt(q: nat, r: nat)
    requires r < 512
    ensures (512 * q + r) / 512 == q && (512 * q + r) % 512 == r
  {
  }

  // The little-endian number in these bytes; a FAT32 entry has 28 bits.
  ghost function EntryIn(d: Disk, b: Bpb, a: nat): nat {
    if b.variant == Fat16 then Raw8(d, a) + 0x100 * Raw8(d, a + 1)
    else Raw8(d, a) + 0x100 * Raw8(d, a + 1) + 0x1_0000 * Raw8(d, a + 2) + 0x100_0000 * (Raw8(d, a + 3) % 0x10)
  }

  lemma EntryAt(d: Disk, b: Bpb, copy: nat, c: nat)
    requires EntrySector(b, copy, c) < |d|
    ensures Entry(d, b, copy, c) == EntryIn(d, b, Place(b, copy, c))
  {
    hide Place, EntryRow, EntrySector, EntryOffset;
    PlaceIs(b, copy, c);
    var q, r := EntrySector(b, copy, c), EntryOffset(b, c);
    SplitAt(q, r);
    SplitAt(q, r + 1);
    if b.variant == Fat32 {
      SplitAt(q, r + 2);
      SplitAt(q, r + 3);
    }
  }

  // The table the proofs speak of, byte for byte.
  lemma TableAt(d: Disk, b: Bpb, c: nat)
    requires Mounted(d, b) && c < b.Entries()
    ensures c < |Fat(d, b)| && Fat(d, b)[c] == EntryIn(d, b, Place(b, 0, c))
  {
    hide Place, EntryIn, Entry, EntryRow, EntryOffset;
    EntryPlace(b, 0, c);
    EntryAt(d, b, 0, c);
  }

  // An entry ends its chain exactly if its bytes are F8 FF to FF FF, or F8 FF FF xF to FF FF FF xF.
  ghost predicate EndBytes(d: Disk, b: Bpb, a: nat) {
    if b.variant == Fat16 then Raw8(d, a) >= 0xF8 && Raw8(d, a + 1) == 0xFF
    else Raw8(d, a) >= 0xF8 && Raw8(d, a + 1) == 0xFF && Raw8(d, a + 2) == 0xFF && Raw8(d, a + 3) % 0x10 == 0xF
  }

  lemma EndIff(d: Disk, b: Bpb, c: nat)
    requires Mounted(d, b) && c < b.Entries()
    ensures Fat(d, b)[c] >= |Fat(d, b)| <==> EndBytes(d, b, Place(b, 0, c))
  {
    hide Place, Raw8, Fat;
    TableAt(d, b, c);
    EndValue(d, b, Place(b, 0, c));
    FatSize(d, b);
  }

  lemma FatSize(d: Disk, b: Bpb)
    ensures |Fat(d, b)| == if b.variant == Fat16 then 65528 else 268435448
  {
  }

  lemma EndValue(d: Disk, b: Bpb, a: nat)
    ensures EntryIn(d, b, a) >= (if b.variant == Fat16 then 65528 else 268435448) <==> EndBytes(d, b, a)
  {
    hide Raw8;
    assert Raw8(d, a) < 256 && Raw8(d, a + 1) < 256 && Raw8(d, a + 2) < 256 by {
      Small(d, a);
      Small(d, a + 1);
      Small(d, a + 2);
    }
  }

  lemma Small(d: Disk, a: nat)
    ensures Raw8(d, a) < 256
  {
  }

  // ---------- the data ----------

  // Byte o of sector s of the i-th cluster of a chain; cluster 2 is the first behind the tables.
  ghost function DataPlace(b: Bpb, c: nat, s: nat, o: nat): nat
    requires 2 <= c
  {
    512 * (b.baseSector + b.dataStartSector + (c - 2) * b.sectorsPerCluster + s) + o
  }

  // So the file's bytes are where its chain says.
  lemma FileByteAt(d: Disk, b: Bpb, chain: seq<nat>, size: nat, i: nat, s: nat, o: nat)
    requires i < |chain| && 2 <= chain[i] && s < b.sectorsPerCluster && o < 512
    requires 512 * At(b, i, s) + o < size
    ensures SectorBytes(d, Lbas(b, chain), size)[512 * At(b, i, s) + o] == Raw8(d, DataPlace(b, chain[i], s, o))
  {
    hide At, DataPlace, Bpb.ClusterToSector, SectorBytes, Raw8;
    AtLba(b, chain, i, s);
    DataPlaceIs(b, chain[i], s, o);
    SectorByteAt(d, Lbas(b, chain), size, At(b, i, s), o);
  }

  lemma SectorByteAt(d: Disk, lbas: seq<nat>, size: nat, k: nat, o: nat)
    requires k < |lbas| && o < 512 && 512 * k + o < size
    ensures SectorBytes(d, lbas, size)[512 * k + o] == Raw8(d, 512 * lbas[k] + o)
  {
    SplitAt(k, o);
    SplitAt(lbas[k], o);
  }

  lemma DataPlaceIs(b: Bpb, c: nat, s: nat, o: nat)
    requires 2 <= c
    ensures DataPlace(b, c, s, o) == 512 * (b.ClusterToSector(c) + s) + o
  {
  }

  // Clusters 0 and 1, which have no data, are taken for cluster 2.
  lemma LowClusters(b: Bpb, c: nat)
    requires c < 2
    ensures b.ClusterToSector(c) == b.ClusterToSector(2) == b.baseSector + b.dataStartSector
  {
  }

  // ---------- the next cluster ----------

  // Clusters are looked for up to FFF0, or 0FFFFFF0 on FAT32.
  ghost function LastTried(b: Bpb): nat {
    if b.variant == Fat16 then 65520 else 268435440
  }

  lemma UsableIff(b: Bpb, c: nat)
    ensures c < b.Usable() <==> c < b.Entries() && c <= LastTried(b)
  {
  }

  // From the hint on nothing is tried behind that, and a free cluster there is taken exactly if none
  // before it is free.
  lemma TakenIff(d: Disk, b: Bpb, hint: nat, c: nat)
    requires hint <= c
    ensures FirstFree(d, b, hint, c) <==>
      c <= LastTried(b) && Entry(d, b, 0, c) == 0 && forall x :: hint <= x < c ==> Entry(d, b, 0, x) != 0
  {
    hide Entry;
  }

  // Growth takes the lowest free cluster behind the last one, from 2 on, while the table has one.
  lemma NextTaken(d: Disk, b: Bpb, last: nat, c: nat)
    requires FirstFree(d, b, Hint(last), c) && last < c < b.Entries()
    ensures 2 <= c && Fat(d, b)[c] == 0
    ensures forall x :: 2 <= x < c && last < x ==> Fat(d, b)[x] != 0
  {
    hide Entry;
    ScanStays(d, b, Hint(last), c);
  }

  // ---------- directories ----------

  // What the 32 bytes of a slot are is decided by the first and the twelfth: zero ends the directory; 0F is
  // a piece of a long name; E5, or bit 3 of the attributes, is passed over; the rest are entries.
  lemma SlotIff(buf: seq<Byte>)
    requires |buf| == 32
    ensures Classify(buf).End? <==> Num(buf[0]) == 0
    ensures Classify(buf).Long? <==> Num(buf[0]) > 0 && Num(buf[11]) == 15
    ensures Classify(buf).Gone? <==>
      Num(buf[0]) > 0 && Num(buf[11]) != 15 && (Num(buf[0]) == 229 || Num(buf[11]) % 16 >= 8)
    ensures Classify(buf).File? ==> var e := Classify(buf).e;
      && e.attributes == Num(buf[11])
      && e.firstCluster == Num(buf[26]) + 256 * (Num(buf[27]) + 256 * (Num(buf[20]) + 256 * Num(buf[21])))
      && e.size == Num(buf[28]) + 256 * (Num(buf[29]) + 256 * (Num(buf[30]) + 256 * Num(buf[31])))
  {
    hide ShortName, LfnText;
  }

  // Bit 4 of the attributes.
  lemma DirectoryBit(e: DirEntry, high: nat, low: nat, set4: bool)
    requires e.attributes == 32 * high + (if set4 then 16 else 0) + low && low < 16
    ensures IsDirectory(e) <==> set4
  {
  }
}
