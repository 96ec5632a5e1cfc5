/**
 * The layout of ELF64 headers, written as a printer in the order of the
 * System V ABI, and the proof that the loader's parser reads back every field
 * it uses from the place where the printer put it.
 */
module ElfLayout {
  import opened Wrappers
  import opened Octets
  import opened Elf

  // ---------- numbers ----------

  // n bytes, least significant first.
  function LeBytes(v: nat, n: nat): (s: seq<Byte>)
    ensures |s| == n
    decreases n
  {
    if n == 0 then [] else [v % 0x100] + LeBytes(v / 0x100, n - 1)
  }

  // 256 to the n.
  function Limit(n: nat): nat {
    if n == 0 then 1 else 0x100 * Limit(n - 1)
  }

  lemma {:induction false} LeRoundTrip(data: seq<Byte>, o: nat, v: nat, n: nat)
    requires o + n <= |data| && data[o..o + n] == LeBytes(v, n) && v < Limit(n)
    ensures Le(data, o, n) == v
    decreases n
  {
    if n > 0 {
      var all := data[o..o + n];
      assert data[o] == all[0] && all[0] == v % 0x100;
      assert data[o + 1..o + 1 + (n - 1)] == all[1..];
      LeRoundTrip(data, o + 1, v / 0x100, n - 1);
    }
  }

  // ---------- records ----------

  datatype Field = Field(value: nat, width: nat)

  // The fields one after the other.
  function Print(fields: seq<Field>): seq<Byte> {
    if fields == [] then []
    else Print(fields[..|fields| - 1]) + LeBytes(fields[|fields| - 1].value, fields[|fields| - 1].width)
  }

  // Where the k-th field starts.
  function Offset(fields: seq<Field>, k: nat): nat
    requires k <= |fields|
  {
    if k == 0 then 0 else Offset(fields, k - 1) + fields[k - 1].width
  }

  predicate Fit(fields: seq<Field>) {
    forall i :: 0 <= i < |fields| ==> fields[i].value < Limit(fields[i].width)
  }

  lemma {:induction false} OffsetPrefix(fields: seq<Field>, n: nat, k: nat)
    requires k <= n <= |fields|
    ensures Offset(fields[..n], k) == Offset(fields, k)
  {
    if k > 0 {
      OffsetPrefix(fields, n, k - 1);
    }
  }

  lemma {:induction false} PrintLength(fields: seq<Field>)
    ensures |Print(fields)| == Offset(fields, |fields|)
  {
    if fields != [] {
      PrintLength(fields[..|fields| - 1]);
      OffsetPrefix(fields, |fields| - 1, |fields| - 1);
    }
  }

  // The k-th field of a printed record is read back from its place.
  lemma {:induction false} ReadBack(data: seq<Byte>, o: nat, fields: seq<Field>, k: nat)
    requires Fit(fields) && k < |fields| && o + |Print(fields)| <= |data|
    requires data[o..o + |Print(fields)|] == Print(fields)
    ensures o + Offset(fields, k) + fields[k].width <= |data|
    ensures Le(data, o + Offset(fields, k), fields[k].width) == fields[k].value
    decreases |fields|
  {
    var n := |fields| - 1;
    var pre, last := Print(fields[..n]), LeBytes(fields[n].value, fields[n].width);
    PrintLength(fields[..n]);
    OffsetPrefix(fields, n, n);
    Halves(data, o, pre, last);
    if k == n {
      LeRoundTrip(data, o + |pre|, fields[n].value, fields[n].width);
    } else {
      ReadBack(data, o, fields[..n], k);
      OffsetPrefix(fields, n, k);
    }
  }

  lemma Halves(data: seq<Byte>, o: nat, pre: seq<Byte>, last: seq<Byte>)
    requires o + |pre + last| <= |data| && data[o..o + |pre + last|] == pre + last
    ensures data[o..o + |pre|] == pre && data[o + |pre|..o + |pre| + |last|] == last
  {
    var all := data[o..o + |pre + last|];
    assert data[o..o + |pre|] == all[..|pre|] && data[o + |pre|..o + |pre| + |last|] == all[|pre|..];
  }

  // ---------- a program header ----------

  datatype Segment = Segment(kind: nat, flags: nat, offset: nat, vaddr: nat, paddr: nat, filesz: nat, memsz: nat,
                             align: nat)

  function SegmentFields(s: Segment): seq<Field> {
    [Field(s.kind, 4), Field(s.flags, 4), Field(s.offset, 8), Field(s.vaddr, 8), Field(s.paddr, 8), Field(s.filesz, 8),
     Field(s.memsz, 8), Field(s.align, 8)]
  }

  lemma SegmentPlaces(f: seq<Field>, s: Segment)
    requires f == SegmentFields(s)
    ensures Offset(f, 0) == 0 && Offset(f, 1) == 4 && Offset(f, 2) == 8 && Offset(f, 3) == 16 && Offset(f, 4) == 24
    ensures Offset(f, 5) == 32 && Offset(f, 6) == 40 && Offset(f, 7) == 48 && Offset(f, 8) == 56 && |f| == 8
  {
  }

  // The i-th program header of a file that holds these bytes in its place.
  lemma SegmentRoundTrip(data: seq<Byte>, h: Header, i: nat, s: Segment, o: nat)
    requires Fit(SegmentFields(s)) && o == h.phoff + i * h.phentsize && o + 56 <= |data|
    requires data[o..o + 56] == Print(SegmentFields(s))
    ensures ParsePhdr(data, h, i) == Some(Phdr(s.kind, s.flags, s.offset, s.vaddr, s.filesz, s.memsz))
  {
    hide SegmentFields, Read32, Read64;
    SegmentStart(data, o, s);
    SegmentSizes(data, o, s);
  }

  lemma SegmentStart(data: seq<Byte>, o: nat, s: Segment)
    requires Fit(SegmentFields(s)) && o + 56 <= |data| && data[o..o + 56] == Print(SegmentFields(s))
    ensures Read32(data, o) == s.kind && Read32(data, o + 4) == s.flags && Read64(data, o + 8) == s.offset
  {
    var f := SegmentFields(s);
    SegmentPlaces(f, s);
    PrintLength(f);
    ReadBack(data, o, f, 0);
    ReadBack(data, o, f, 1);
    ReadBack(data, o, f, 2);
  }

  lemma SegmentSizes(data: seq<Byte>, o: nat, s: Segment)
    requires Fit(SegmentFields(s)) && o + 56 <= |data| && data[o..o + 56] == Print(SegmentFields(s))
    ensures Read64(data, o + 16) == s.vaddr && Read64(data, o + 32) == s.filesz && Read64(data, o + 40) == s.memsz
  {
    var f := SegmentFields(s);
    SegmentPlaces(f, s);
    PrintLength(f);
    ReadBack(data, o, f, 3);
    ReadBack(data, o, f, 5);
    ReadBack(data, o, f, 6);
  }

  // ---------- the file header ----------

  // After the magic number, class and data encoding; the rest of e_ident is one field of ten bytes.
  datatype FileHeader = FileHeader(magic: nat, class_: nat, encoding: nat, ident: nat, kind: nat, machine: nat,
                                   version: nat, entry: nat, phoff: nat, shoff: nat, flags: nat, ehsize: nat,
                                   phentsize: nat, phnum: nat, shentsize: nat, shnum: nat, shstrndx: nat)

  function FileFields(e: FileHeader): seq<Field> {
    [Field(e.magic, 4), Field(e.class_, 1), Field(e.encoding, 1), Field(e.ident, 10), Field(e.kind, 2),
     Field(e.machine, 2), Field(e.version, 4), Field(e.entry, 8), Field(e.phoff, 8), Field(e.shoff, 8),
     Field(e.flags, 4), Field(e.ehsize, 2), Field(e.phentsize, 2), Field(e.phnum, 2), Field(e.shentsize, 2),
     Field(e.shnum, 2), Field(e.shstrndx, 2)]
  }

  lemma FilePlaces(f: seq<Field>, e: FileHeader)
    requires f == FileFields(e)
    ensures Offset(f, 0) == 0 && Offset(f, 1) == 4 && Offset(f, 2) == 5 && Offset(f, 3) == 6 && Offset(f, 4) == 16
    ensures Offset(f, 5) == 18 && Offset(f, 6) == 20 && Offset(f, 7) == 24 && Offset(f, 8) == 32 && Offset(f, 9) == 40
    ensures Offset(f, 10) == 48 && Offset(f, 11) == 52 && Offset(f, 12) == 54 && Offset(f, 13) == 56
    ensures Offset(f, 14) == 58 && Offset(f, 15) == 60 && Offset(f, 16) == 62 && Offset(f, 17) == 64 && |f| == 17
  {
  }

  // What the loader makes of a file header, field by field; the magic number is 7F "ELF".
  function Judged(e: FileHeader, size: nat): Result<Header> {
    if e.magic != 0x464C_457F then Err(BadMagic)
    else if e.class_ != 2 then Err(NotElf64)
    else if e.encoding != 1 then Err(NotLittleEndian)
    else if e.kind !in {2, 3} then Err(NotExecutable)
    else if e.phnum == 0 then Err(NoProgramHeaders)
    else if e.phentsize < 56 then Err(BadPhdrSize)
    else if e.phoff >= size then Err(SegmentOutOfBounds)
    else Ok(Header(e.entry, e.phoff, e.phentsize, e.phnum))
  }

  lemma FileRoundTrip(data: seq<Byte>, e: FileHeader)
    requires Fit(FileFields(e)) && 64 <= |data| && data[0..64] == Print(FileFields(e))
    ensures ParseEhdr(data) == Judged(e, |data|)
  {
    var f := FileFields(e);
    FilePlaces(f, e);
    PrintLength(f);
    ReadBack(data, 0, f, 0);
    ReadBack(data, 0, f, 1);
    ReadBack(data, 0, f, 2);
    ReadBack(data, 0, f, 4);
    ReadBack(data, 0, f, 7);
    ReadBack(data, 0, f, 8);
    ReadBack(data, 0, f, 12);
    ReadBack(data, 0, f, 13);
    OneByte(data, 4);
    OneByte(data, 5);
    FourBytes(data);
  }

  lemma OneByte(data: seq<Byte>, o: nat)
    requires o < |data|
    ensures Le(data, o, 1) == Num(data[o])
  {
    assert Le(data, o + 1, 0) == 0;
  }

  lemma FourBytes(data: seq<Byte>)
    requires 4 <= |data|
    ensures Le(data, 0, 4) == 0x464C_457F <==> data[0..4] == [0x7F, 0x45, 0x4C, 0x46]
  {
    OneByte(data, 3);
    assert Le(data, 2, 2) == Num(data[2]) + 0x100 * Num(data[3]);
    assert Le(data, 1, 3) == Num(data[1]) + 0x100 * Le(data, 2, 2);
    assert Le(data, 0, 4) == Num(data[0]) + 0x100 * Le(data, 1, 3);
    Digits(Num(data[0]), Num(data[1]), Num(data[2]), Num(data[3]));
    var s := data[0..4];
    assert s == [data[0], data[1], data[2], data[3]];
  }

  lemma Digits(a: nat, b: nat, c: nat, d: nat)
    requires a < 0x100 && b < 0x100 && c < 0x100 && d < 0x100
    ensures a + 0x100 * (b + 0x100 * (c + 0x100 * d)) == 0x464C_457F
       <==> a == 0x7F && b == 0x45 && c == 0x4C && d == 0x46
  {
  }

  // ---------- the memory image ----------

  // A segment is let through exactly if its bytes are in the file and it ends at least a page below the boundary.
  lemma PermittedIff(data: seq<Byte>, ph: Phdr)
    ensures Permitted(data, ph) <==> ph.offset + ph.filesz <= |data| && ph.vaddr + ph.memsz <= 0x7FFF_FFFF_F000
  {
  }

  // The entry point lies on a page that the segment touches, or would touch if it were not empty.
  lemma EntryIff(h: Header, ph: Phdr)
    ensures EntryHere(h, ph) <==>
      ph.vaddr / 4096 <= h.entry / 4096 && h.entry / 4096 * 4096 < ph.vaddr + ph.memsz
  {
  }

  // Whole pages are taken, from the one the segment starts on to the one its last byte is on.
  lemma SpanIs(ph: Phdr)
    ensures ph.memsz > 0 ==> Span(ph) == 4096 * ((ph.vaddr + ph.memsz - 1) / 4096 - ph.vaddr / 4096 + 1)
    ensures ph.memsz == 0 ==> Span(ph) == if ph.vaddr % 4096 == 0 then 0 else 4096
  {
  }

  // Program header i of the file is the print of s.
  ghost predicate Placed(data: seq<Byte>, h: Header, i: nat, s: Segment) {
    var o := h.phoff + i * h.phentsize;
    o + 56 <= |data| && Fit(SegmentFields(s)) && data[o..o + 56] == Print(SegmentFields(s))
  }

  // The byte a linker meant to have at v, counted from the start of the segment.
  function Meant(data: seq<Byte>, s: Segment, j: nat): Byte
    requires s.offset + s.filesz <= |data|
  {
    if s.filesz <= j then 0 else data[s.offset + j]
  }

  // Address v reads what the header of s says, with the rights it says.
  ghost predicate AsMeant(data: seq<Byte>, s: Segment, pages: Pages, v: nat) {
    && s.vaddr <= v < 0x7FFF_FFFF_F000 && s.offset + s.filesz <= |data|
    && var base: nat := v - v % 4096;
       && base in pages && |pages[base].bytes| == 4096
       && pages[base].bytes[v % 4096] == Meant(data, s, v - s.vaddr)
       && (pages[base].writable <==> s.flags / 2 % 2 == 1) && (pages[base].executable <==> s.flags % 2 == 1)
  }

  // So does every address of every segment of type 1 of a program that loaded.
  lemma ImageByte(data: seq<Byte>, h: Header, was: Pages, pages: Pages, i: nat, s: Segment, v: nat)
    requires LoadedUpTo(data, h, h.phnum, was, pages) && i < h.phnum && Placed(data, h, i, s)
    requires s.kind == 1 && s.vaddr <= v < s.vaddr + s.memsz
    ensures AsMeant(data, s, pages, v)
  {
    hide ParsePhdr, Accepted, Framed, SegmentIn, Placed, LoadedUpTo, AsMeant;
    PlacedIs(data, h, i, s);
    HeaderLoaded(data, h, was, pages, i);
    ImagePage(data, s, pages, v);
  }

  lemma HeaderLoaded(data: seq<Byte>, h: Header, was: Pages, pages: Pages, i: nat)
    requires LoadedUpTo(data, h, h.phnum, was, pages) && i < h.phnum
    ensures HeaderDone(data, h, i, pages)
  {
    hide HeaderDone, OnlySegments, Extends;
  }

  lemma ImagePage(data: seq<Byte>, s: Segment, pages: Pages, v: nat)
    requires var ph := Phdr(s.kind, s.flags, s.offset, s.vaddr, s.filesz, s.memsz);
      Accepted(data, ph) && SegmentIn(data, ph, pages)
    requires s.vaddr <= v < s.vaddr + s.memsz
    ensures AsMeant(data, s, pages, v)
  {
    var ph := Phdr(s.kind, s.flags, s.offset, s.vaddr, s.filesz, s.memsz);
    var page: nat := v - v % 4096;
    assert OnPages(ph, page);
    assert Shows(data, ph, page, pages[page]);
    assert page + v % 4096 == v;
  }

  // A page that loading added touches a segment of type 1.
  lemma ImagePages(data: seq<Byte>, h: Header, was: Pages, pages: Pages, segments: seq<Segment>, page: nat)
    requires LoadedUpTo(data, h, h.phnum, was, pages) && |segments| == h.phnum
    requires forall i: nat :: i < h.phnum ==> Placed(data, h, i, segments[i])
    requires page in pages && page !in was
    ensures page % 4096 == 0
    ensures exists i :: 0 <= i < |segments| && segments[i].kind == 1 &&
              segments[i].vaddr < page + 4096 && page < segments[i].vaddr + segments[i].memsz
  {
    hide ParsePhdr, HeaderDone, OnPages, Fit, SegmentFields, Placed;
    var i: nat :| i < h.phnum && Loads(data, h, i) && OnPages(ParsePhdr(data, h, i).value, page);
    var s := segments[i];
    assert Placed(data, h, i, s);
    PlacedIs(data, h, i, s);
    OnPagesTouches(Phdr(s.kind, s.flags, s.offset, s.vaddr, s.filesz, s.memsz), page);
  }

  lemma PlacedIs(data: seq<Byte>, h: Header, i: nat, s: Segment)
    requires Placed(data, h, i, s)
    ensures ParsePhdr(data, h, i) == Some(Phdr(s.kind, s.flags, s.offset, s.vaddr, s.filesz, s.memsz))
  {
    hide ParsePhdr, Fit, SegmentFields;
    SegmentRoundTrip(data, h, i, s, h.phoff + i * h.phentsize);
  }

  lemma OnPagesTouches(ph: Phdr, page: nat)
    requires OnPages(ph, page)
    ensures page % 4096 == 0 && ph.vaddr < page + 4096 && page < ph.vaddr + ph.memsz
  {
  }
}
