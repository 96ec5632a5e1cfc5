/**
 * The on-disk layout of a FAT16/FAT32 volume: sectors of 512 bytes, the file
 * allocation table packed into them, and its mirrored copies.  The table is
 * seen through View, a plain sequence from cluster number to entry; the
 * lemmas say that a write of one entry is an update of that sequence and of
 * nothing else on the disk.  The driver takes a constant for the largest
 * cluster, so it also addresses clusters that have no entry in the table.
 */
module FatDisk {
  import opened Octets

  type Sector = s: seq<Byte> | |s| == 512 witness ZeroSector()
  type Disk = seq<Sector>

  function ZeroSector(): seq<Byte> {
    seq(512, _ => 0)
  }

  datatype Variant = Fat16 | Fat32

  // The fields of the boot sector that the driver uses after mounting.
  datatype Bpb = Bpb(variant: Variant, sectorsPerCluster: nat, reservedSectors: nat, numFats: nat,
                     fatSizeSectors: nat, baseSector: nat, dataStartSector: nat)
  {
    function Width(): nat {
      if variant.Fat16? then 2 else 4
    }

    function Eoc(): nat {
      if variant.Fat16? then 0xFFF8 else 0x0FFF_FFF8
    }

    function MaxCluster(): nat {
      if variant.Fat16? then 0xFFF0 else 0x0FFF_FFF0
    }

    // Entries keep 16 or 28 bits of the value written.
    function Keep(value: nat): nat {
      if variant.Fat16? then value % 0x1_0000 else value % 0x1000_0000
    }

    // cluster_to_sector, with its saturating subtraction; Valid rules out wrap-around.
    function ClusterToSector(cluster: nat): nat {
      baseSector + dataStartSector + (if cluster < 2 then 0 else cluster - 2) * sectorsPerCluster
    }

    // Clusters below this have an entry in the table.
    function Entries(): nat {
      var n := fatSizeSectors * if variant.Fat16? then 256 else 128;
      if n < Eoc() then n else Eoc()
    }

    // Of these, the ones the driver's scan for free clusters covers end here.
    function Usable(): nat {
      if Entries() <= MaxCluster() then Entries() else MaxCluster() + 1
    }

    predicate Valid() {
      && 0 < sectorsPerCluster
      && 0 < numFats
      && reservedSectors + numFats * fatSizeSectors <= dataStartSector
      && ClusterToSector(Entries()) <= 0x1_0000_0000
    }
  }

  predicate Mounted(d: Disk, b: Bpb) {
    b.Valid() && b.baseSector + b.dataStartSector <= |d|
  }

  // ---------- one entry inside one sector ----------

  function Decode(v: Variant, s: Sector, o: nat): nat
    requires o + (if v.Fat16? then 2 else 4) <= 512
  {
    if v.Fat16? then Num(s[o]) + 0x100 * Num(s[o + 1])
    else Num(s[o]) + 0x100 * Num(s[o + 1]) + 0x1_0000 * Num(s[o + 2]) + 0x100_0000 * (Num(s[o + 3]) % 16)
  }

  // Byte i of a little-endian number: the source's shifts and masks.
  function Digit(value: nat, i: nat): Byte {
    if i == 0 then value % 0x100 else Digit(value / 0x100, i - 1)
  }

  function Encode(v: Variant, s: Sector, o: nat, value: nat): Sector
    requires o + (if v.Fat16? then 2 else 4) <= 512
  {
    if v.Fat16? then
      s[o := Digit(value, 0)][o + 1 := Digit(value, 1)]
    else
      s[o := Digit(value, 0)][o + 1 := Digit(value, 1)][o + 2 := Digit(value, 2)]
       [o + 3 := s[o + 3] / 16 * 16 + Digit(value, 3) % 16]
  }

  // The written value comes back, cut to the entry's width.
  lemma EncodeDecode(b: Bpb, s: Sector, o: nat, value: nat)
    requires o + b.Width() <= 512
    ensures Decode(b.variant, Encode(b.variant, s, o, value), o) == b.Keep(value)
  {
    Digits(value);
  }

  lemma Digits(value: nat)
    ensures Num(Digit(value, 0)) + 0x100 * Num(Digit(value, 1)) == value % 0x1_0000
    ensures Num(Digit(value, 0)) + 0x100 * Num(Digit(value, 1)) + 0x1_0000 * Num(Digit(value, 2))
         + 0x100_0000 * (Num(Digit(value, 3)) % 16) == value % 0x1000_0000
  {
    var q1 := value / 0x100;
    var q2 := q1 / 0x100;
    var q3 := q2 / 0x100;
    assert Digit(value, 1) == q1 % 0x100;
    assert Digit(value, 2) == Digit(q1, 1) == q2 % 0x100;
    assert Digit(value, 3) == Digit(q1, 2) == Digit(q2, 1) == q3 % 0x100;
    DigitSum(value, q1, value % 0x100, q2, q1 % 0x100, q3, q2 % 0x100, q3 / 0x100, q3 % 0x100);
  }

  lemma DigitSum(value: nat, q1: nat, d0: nat, q2: nat, d1: nat, q3: nat, d2: nat, q4: nat, d3: nat)
    requires value == 0x100 * q1 + d0 && q1 == 0x100 * q2 + d1 && q2 == 0x100 * q3 + d2 && q3 == 0x100 * q4 + d3
    requires d0 < 0x100 && d1 < 0x100 && d2 < 0x100 && d3 < 0x100
    ensures value % 0x1_0000 == d0 + 0x100 * d1
    ensures value % 0x1000_0000 == d0 + 0x100 * d1 + 0x1_0000 * d2 + 0x100_0000 * (d3 % 16)
  {
    Low16(value, q2, d0 + 0x100 * d1);
    var h := d3 / 16;
    assert d3 == 16 * h + d3 % 16;
    Low28(value, 16 * q4 + h, d0 + 0x100 * d1 + 0x1_0000 * d2 + 0x100_0000 * (d3 % 16));
  }

  lemma Low16(value: nat, q: nat, r: nat)
    requires value == 0x1_0000 * q + r && r < 0x1_0000
    ensures value % 0x1_0000 == r
  {
  }

  lemma Low28(value: nat, q: nat, r: nat)
    requires value == 0x1000_0000 * q + r && r < 0x1000_0000
    ensures value % 0x1000_0000 == r
  {
  }

  lemma EncodeOthers(v: Variant, s: Sector, o: nat, value: nat, p: nat)
    requires o + (if v.Fat16? then 2 else 4) <= 512 && p + (if v.Fat16? then 2 else 4) <= 512
    requires p + (if v.Fat16? then 2 else 4) <= o || o + (if v.Fat16? then 2 else 4) <= p
    ensures Decode(v, Encode(v, s, o, value), p) == Decode(v, s, p)
  {
  }

  // Bytes outside the entry stay, and so do the four reserved bits of a FAT32 entry.
  lemma EncodeBytes(v: Variant, s: Sector, o: nat, value: nat, i: nat)
    requires o + (if v.Fat16? then 2 else 4) <= 512 && i < 512
    requires i < o || o + (if v.Fat16? then 2 else 4) <= i
    ensures Encode(v, s, o, value)[i] == s[i]
    ensures v.Fat32? ==> Encode(v, s, o, value)[o + 3] / 16 == s[o + 3] / 16
  {
  }

  // ---------- where an entry lies ----------

  function TableStart(b: Bpb, copy: nat): nat {
    b.baseSector + (b.reservedSectors + copy * b.fatSizeSectors)
  }

  function EntryRow(b: Bpb, cluster: nat): nat {
    cluster * b.Width() / 512
  }

  function EntrySector(b: Bpb, copy: nat, cluster: nat): nat {
    TableStart(b, copy) + EntryRow(b, cluster)
  }

  function EntryOffset(b: Bpb, cluster: nat): nat {
    cluster * b.Width() % 512
  }

  lemma TableBounds(b: Bpb, copy: nat)
    requires b.Valid() && copy < b.numFats
    ensures b.baseSector + b.reservedSectors <= TableStart(b, copy)
    ensures TableStart(b, copy) + b.fatSizeSectors <= b.baseSector + b.dataStartSector
  {
    CopiesBelow(copy, b.numFats, b.fatSizeSectors);
  }

  lemma TablesApart(b: Bpb, i: nat, j: nat)
    requires i < j
    ensures TableStart(b, i) + b.fatSizeSectors <= TableStart(b, j)
  {
    CopiesBelow(i, j, b.fatSizeSectors);
  }

  lemma CopiesBelow(i: nat, n: nat, size: nat)
    requires i < n
    ensures i * size + size <= n * size
  {
    assert n * size == i * size + (n - i) * size;
    assert (n - i) * size == size + (n - i - 1) * size;
  }

  lemma RowAndOffset(b: Bpb, cluster: nat)
    ensures EntryOffset(b, cluster) + b.Width() <= 512
    ensures cluster < b.Entries() ==> EntryRow(b, cluster) < b.fatSizeSectors
  {
  }

  lemma EntryPlace(b: Bpb, copy: nat, cluster: nat)
    requires b.Valid() && copy < b.numFats && cluster < b.Entries()
    ensures b.baseSector + b.reservedSectors <= EntrySector(b, copy, cluster) < b.baseSector + b.dataStartSector
    ensures EntryOffset(b, cluster) + b.Width() <= 512
    ensures EntryRow(b, cluster) < b.fatSizeSectors
  {
    hide TableStart, EntryRow, EntryOffset;
    TableBounds(b, copy);
    RowAndOffset(b, cluster);
  }

  // Two entries of one table do not overlap.
  lemma OffsetsApart(b: Bpb, c: nat, c': nat)
    requires c < c' && EntryRow(b, c) == EntryRow(b, c')
    ensures EntryOffset(b, c) + b.Width() <= EntryOffset(b, c')
  {
  }

  // Two entries do not overlap, and two tables do not share sectors.
  lemma EntriesApart(b: Bpb, copy: nat, c: nat, copy': nat, c': nat)
    requires b.Valid() && copy < b.numFats && copy' < b.numFats && c < b.Entries() && c' < b.Entries()
    requires copy != copy' || c != c'
    ensures EntrySector(b, copy, c) == EntrySector(b, copy', c') ==>
              copy == copy' && (EntryOffset(b, c) + b.Width() <= EntryOffset(b, c')
                                || EntryOffset(b, c') + b.Width() <= EntryOffset(b, c))
  {
    hide TableStart, EntryRow, EntryOffset;
    RowAndOffset(b, c);
    RowAndOffset(b, c');
    if copy < copy' {
      TablesApart(b, copy, copy');
    } else if copy' < copy {
      TablesApart(b, copy', copy);
    } else if EntryRow(b, c) == EntryRow(b, c') {
      if c < c' {
        OffsetsApart(b, c, c');
      } else {
        OffsetsApart(b, c', c);
      }
    }
  }

  // ---------- the table as a sequence ----------

  // The entry as the driver reads it: it follows the sector number wherever it leads.
  function Entry(d: Disk, b: Bpb, copy: nat, cluster: nat): nat {
    RowAndOffset(b, cluster);
    if EntrySector(b, copy, cluster) < |d|
    then Decode(b.variant, d[EntrySector(b, copy, cluster)], EntryOffset(b, cluster)) else 0
  }

  // Clusters without an entry read as a reserved value: neither free, nor linked, nor an end mark.
  const OUTSIDE: nat := 1

  function View(d: Disk, b: Bpb, copy: nat): (view: seq<nat>)
    ensures |view| == b.Eoc()
    ensures forall c :: 0 <= c < b.Eoc() ==> view[c] == if c < b.Entries() then Entry(d, b, copy, c) else OUTSIDE
  {
    seq(b.Eoc(), c requires 0 <= c < b.Eoc() => if c < b.Entries() then Entry(d, b, copy, c) else OUTSIDE)
  }

  function PutEntry(d: Disk, b: Bpb, copy: nat, cluster: nat, value: nat): (d': Disk)
    ensures |d'| == |d|
  {
    RowAndOffset(b, cluster);
    var lba := EntrySector(b, copy, cluster);
    if lba < |d| then d[lba := Encode(b.variant, d[lba], EntryOffset(b, cluster), value)] else d
  }

  // The disk after the first n copies of the table received the entry.
  function PutCopies(d: Disk, b: Bpb, cluster: nat, value: nat, n: nat): (d': Disk)
    ensures |d'| == |d|
  {
    if n == 0 then d else PutEntry(PutCopies(d, b, cluster, value, n - 1), b, n - 1, cluster, value)
  }

  lemma PutEntryEntry(d: Disk, b: Bpb, copy: nat, c: nat, value: nat, copy': nat, c': nat)
    requires Mounted(d, b) && copy < b.numFats && c < b.Entries() && copy' < b.numFats && c' < b.Entries()
    ensures Entry(PutEntry(d, b, copy, c, value), b, copy', c')
         == if copy == copy' && c == c' then b.Keep(value) else Entry(d, b, copy', c')
  {
    hide TableStart, EntryRow, EntryOffset, Encode, Decode;
    EntryPlace(b, copy, c);
    EntryPlace(b, copy', c');
    var s := d[EntrySector(b, copy, c)];
    if copy == copy' && c == c' {
      EncodeDecode(b, s, EntryOffset(b, c), value);
    } else {
      EntriesApart(b, copy, c, copy', c');
      if EntrySector(b, copy, c) == EntrySector(b, copy', c') {
        EncodeOthers(b.variant, s, EntryOffset(b, c), value, EntryOffset(b, c'));
      }
    }
  }

  lemma {:induction false} PutCopiesEntry(d: Disk, b: Bpb, c: nat, value: nat, n: nat, copy: nat, c': nat)
    requires Mounted(d, b) && c < b.Entries() && n <= b.numFats && copy < b.numFats && c' < b.Entries()
    ensures Entry(PutCopies(d, b, c, value, n), b, copy, c')
         == if copy < n && c == c' then b.Keep(value) else Entry(d, b, copy, c')
  {
    if n > 0 {
      PutCopiesEntry(d, b, c, value, n - 1, copy, c');
      PutEntryEntry(PutCopies(d, b, c, value, n - 1), b, n - 1, c, value, copy, c');
    }
  }

  // A table write is a one-entry update of each table already written.
  lemma PutCopiesView(d: Disk, b: Bpb, c: nat, value: nat, n: nat, copy: nat)
    requires Mounted(d, b) && c < b.Entries() && n <= b.numFats && copy < b.numFats
    ensures View(PutCopies(d, b, c, value, n), b, copy)
         == if copy < n then View(d, b, copy)[c := b.Keep(value)] else View(d, b, copy)
  {
    hide Entry, PutEntry;
    var e := PutCopies(d, b, c, value, n);
    forall c' | 0 <= c' < b.Entries()
      ensures Entry(e, b, copy, c') == if copy < n && c == c' then b.Keep(value) else Entry(d, b, copy, c')
    {
      PutCopiesEntry(d, b, c, value, n, copy, c');
    }
  }

  // Every byte of the disk that is not part of the cluster's entry keeps its value.
  lemma {:induction false} PutCopiesFrame(d: Disk, b: Bpb, c: nat, value: nat, n: nat, lba: nat, i: nat)
    requires Mounted(d, b) && c < b.Entries() && n <= b.numFats && lba < |d| && i < 512
    requires forall copy :: 0 <= copy < n && EntrySector(b, copy, c) == lba ==>
               i < EntryOffset(b, c) || EntryOffset(b, c) + b.Width() <= i
    ensures PutCopies(d, b, c, value, n)[lba][i] == d[lba][i]
  {
    if n > 0 {
      PutCopiesFrame(d, b, c, value, n - 1, lba, i);
      EntryPlace(b, n - 1, c);
      if lba == EntrySector(b, n - 1, c) {
        EncodeBytes(b.variant, PutCopies(d, b, c, value, n - 1)[lba], EntryOffset(b, c), value, i);
      }
    }
  }

  // The four reserved bits of a FAT32 entry survive in every copy.
  lemma {:induction false} PutCopiesNibble(d: Disk, b: Bpb, c: nat, value: nat, n: nat, copy: nat)
    requires Mounted(d, b) && c < b.Entries() && n <= b.numFats && copy < b.numFats && b.variant.Fat32?
    ensures EntrySector(b, copy, c) < |d| && EntryOffset(b, c) + 3 < 512
    ensures PutCopies(d, b, c, value, n)[EntrySector(b, copy, c)][EntryOffset(b, c) + 3] / 16
         == d[EntrySector(b, copy, c)][EntryOffset(b, c) + 3] / 16
  {
    EntryPlace(b, copy, c);
    if n > 0 {
      PutCopiesNibble(d, b, c, value, n - 1, copy);
      EntryPlace(b, n - 1, c);
      if n - 1 != copy {
        EntriesApart(b, n - 1, c, copy, c);
      }
    }
  }

  // Nothing outside the table area changes.
  lemma {:induction false} PutCopiesOutside(d: Disk, b: Bpb, c: nat, value: nat, n: nat, lba: nat)
    requires Mounted(d, b) && c < b.Entries() && n <= b.numFats && lba < |d|
    requires lba < b.baseSector + b.reservedSectors || b.baseSector + b.dataStartSector <= lba
    ensures PutCopies(d, b, c, value, n)[lba] == d[lba]
  {
    if n > 0 {
      PutCopiesOutside(d, b, c, value, n - 1, lba);
      EntryPlace(b, n - 1, c);
    }
  }

  // ---------- mirrored copies ----------

  predicate Mirrored(d: Disk, b: Bpb)
    requires Mounted(d, b)
  {
    forall copy, k :: 0 <= copy < b.numFats && 0 <= k < b.fatSizeSectors ==>
      TableSector(d, b, copy, k) == TableSector(d, b, 0, k)
  }

  function TableSector(d: Disk, b: Bpb, copy: nat, k: nat): Sector
    requires Mounted(d, b) && copy < b.numFats && k < b.fatSizeSectors
  {
    TableBounds(b, copy);
    d[TableStart(b, copy) + k]
  }

  // Sector k of copy `copy` after n copies were written.
  lemma {:induction false} PutCopiesSector(d: Disk, b: Bpb, c: nat, value: nat, n: nat, copy: nat, k: nat)
    requires Mounted(d, b) && c < b.Entries() && n <= b.numFats && copy < b.numFats && k < b.fatSizeSectors
    ensures EntryOffset(b, c) + b.Width() <= 512
    ensures TableSector(PutCopies(d, b, c, value, n), b, copy, k)
         == if copy < n && k == EntryRow(b, c)
            then Encode(b.variant, TableSector(d, b, copy, k), EntryOffset(b, c), value)
            else TableSector(d, b, copy, k)
  {
    hide Encode, TableStart, EntryRow, EntryOffset, TableSector;
    EntryPlace(b, copy, c);
    if n > 0 {
      PutCopiesSector(d, b, c, value, n - 1, copy, k);
      PutEntrySector(PutCopies(d, b, c, value, n - 1), b, n - 1, c, value, copy, k);
    }
  }

  lemma PutEntrySector(d: Disk, b: Bpb, n: nat, c: nat, value: nat, copy: nat, k: nat)
    requires Mounted(d, b) && c < b.Entries() && n < b.numFats && copy < b.numFats && k < b.fatSizeSectors
    requires EntryOffset(b, c) + b.Width() <= 512
    ensures TableSector(PutEntry(d, b, n, c, value), b, copy, k)
         == if copy == n && k == EntryRow(b, c)
            then Encode(b.variant, TableSector(d, b, copy, k), EntryOffset(b, c), value)
            else TableSector(d, b, copy, k)
  {
    hide Encode, TableStart, EntryRow, EntryOffset;
    EntryPlace(b, n, c);
    TableBounds(b, copy);
    if n < copy {
      TablesApart(b, n, copy);
    } else if copy < n {
      TablesApart(b, copy, n);
    }
  }

  // Copies that were byte for byte equal stay so, once the whole write is done.
  lemma PutCopiesMirrored(d: Disk, b: Bpb, c: nat, value: nat)
    requires Mounted(d, b) && c < b.Entries() && Mirrored(d, b)
    ensures Mirrored(PutCopies(d, b, c, value, b.numFats), b)
  {
    var e := PutCopies(d, b, c, value, b.numFats);
    forall copy, k | 0 <= copy < b.numFats && 0 <= k < b.fatSizeSectors
      ensures TableSector(e, b, copy, k) == TableSector(e, b, 0, k)
    {
      PutCopiesSector(d, b, c, value, b.numFats, copy, k);
      PutCopiesSector(d, b, c, value, b.numFats, 0, k);
    }
  }
}
