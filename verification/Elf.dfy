/**
 * The ELF64 loader: headers parsed out of the file's bytes, segments copied
 * page by page into frames, and the flat image the pages then show.
 */
module Elf {
  import opened Wrappers
  import opened Octets

  const PAGE: nat := 4096
  const MAX_USER_MEM: nat := 0x1000_0000
  const USER_SPACE_END: nat := 0x8000_0000_0000
  const U64: nat := 0x1_0000_0000_0000_0000
  const PT_LOAD: nat := 1
  // No slice is longer than isize::MAX bytes.
  const MAX_SLICE: nat := 0x7FFF_FFFF_FFFF_FFFF

  // Halt: map_page panics.  Overrun: a copy runs past its frame; the source reports nothing.
  datatype Error = BadMagic | NotElf64 | NotLittleEndian | NotExecutable | NoProgramHeaders | SegmentOutOfBounds
                 | SegmentOverlap | MapFailed | BadEntry | BadPhdrSize | SegmentTooLarge | Halt | Overrun
  datatype Result<+T> = Ok(value: T) | Err(error: Error)

  datatype Header = Header(entry: nat, phoff: nat, phentsize: nat, phnum: nat)
  datatype Phdr = Phdr(kind: nat, flags: nat, offset: nat, vaddr: nat, filesz: nat, memsz: nat)

  // ---------- parsing ----------

  // Little-endian number of n bytes at o.
  function Le(data: seq<Byte>, o: nat, n: nat): nat
    requires o + n <= |data|
    decreases n
  {
    if n == 0 then 0 else Num(data[o]) + 0x100 * Le(data, o + 1, n - 1)
  }

  function Read16(data: seq<Byte>, o: nat): nat
    requires o + 2 <= |data|
  {
    Le(data, o, 2)
  }

  function Read32(data: seq<Byte>, o: nat): nat
    requires o + 4 <= |data|
  {
    Le(data, o, 4)
  }

  function Read64(data: seq<Byte>, o: nat): nat
    requires o + 8 <= |data|
  {
    Le(data, o, 8)
  }

  function ParseEhdr(data: seq<Byte>): Result<Header> {
    if |data| < 64 || data[0..4] != [0x7F, 0x45, 0x4C, 0x46] then Err(BadMagic)
    else if data[4] != 2 then Err(NotElf64)
    else if data[5] != 1 then Err(NotLittleEndian)
    else if Read16(data, 16) != 2 && Read16(data, 16) != 3 then Err(NotExecutable)
    else if Read16(data, 56) == 0 then Err(NoProgramHeaders)
    else if Read16(data, 54) < 56 then Err(BadPhdrSize)
    else if Read64(data, 32) >= |data| then Err(SegmentOutOfBounds)
    else Ok(Header(Read64(data, 24), Read64(data, 32), Read16(data, 54), Read16(data, 56)))
  }

  function ParsePhdr(data: seq<Byte>, h: Header, i: nat): Option<Phdr> {
    var o := h.phoff + i * h.phentsize;
    if o + 56 > |data| then None
    else Some(Phdr(Read32(data, o), Read32(data, o + 4), Read64(data, o + 8), Read64(data, o + 16),
                   Read64(data, o + 32), Read64(data, o + 40)))
  }

  // ---------- pages of a segment ----------

  function PageDown(v: nat): nat {
    v - v % PAGE
  }

  function PageUp(v: nat): nat {
    PageDown(v + PAGE - 1)
  }

  // First byte of the segment that belongs on the page, counted from the segment's start.
  function SegStart(ph: Phdr, page: nat): nat {
    if page >= ph.vaddr then page - ph.vaddr else 0
  }

  function Min(x: nat, y: nat): nat {
    if x < y then x else y
  }

  function SegEnd(ph: Phdr, page: nat): nat {
    Min(SegStart(ph, page) + PAGE, ph.memsz)
  }

  // Bytes copied from the file; the subtraction never goes below zero on the segment's pages.
  function DataIn(ph: Phdr, page: nat): int {
    if SegStart(ph, page) < ph.filesz then Min(SegEnd(ph, page), ph.filesz) - SegStart(ph, page) else 0
  }

  function BssIn(ph: Phdr, page: nat): int {
    if SegEnd(ph, page) > SegStart(ph, page) then SegEnd(ph, page) - SegStart(ph, page) - DataIn(ph, page) else 0
  }

  function PageOffset(ph: Phdr, page: nat): nat {
    if ph.vaddr > page then ph.vaddr - page else 0
  }

  predicate OnPages(ph: Phdr, page: nat) {
    page % PAGE == 0 && PageDown(ph.vaddr) <= page < PageUp(ph.vaddr + ph.memsz)
  }

  // The writes for one page end inside its frame.
  predicate FitsFrame(ph: Phdr, page: nat) {
    PageOffset(ph, page) + DataIn(ph, page) + BssIn(ph, page) <= PAGE
  }

  // A segment that starts on a page boundary, or lies within one page.
  predicate Framed(ph: Phdr) {
    ph.vaddr % PAGE == 0 || ph.vaddr % PAGE + ph.memsz <= PAGE
  }

  lemma PageCounts(ph: Phdr, page: nat)
    requires OnPages(ph, page)
    ensures 0 <= DataIn(ph, page) && 0 <= BssIn(ph, page)
    ensures SegStart(ph, page) <= SegEnd(ph, page)
    ensures DataIn(ph, page) + BssIn(ph, page) == SegEnd(ph, page) - SegStart(ph, page)
  {
  }

  // Every page's writes stay in its frame exactly for framed segments.
  lemma FramedIff(ph: Phdr)
    ensures Framed(ph) <==> forall page: nat :: OnPages(ph, page) ==> FitsFrame(ph, page)
  {
    if Framed(ph) {
      forall page: nat | OnPages(ph, page)
        ensures FitsFrame(ph, page)
      {
        FramedFits(ph, page);
      }
    } else {
      var page := PageDown(ph.vaddr);
      assert OnPages(ph, page) && !FitsFrame(ph, page);
    }
  }

  // 4096 bytes from the middle of a page on.
  lemma UnalignedOverruns()
    ensures var ph := Phdr(PT_LOAD, 5, 0x1000, 0x40_0800, 0x1000, 0x1000);
      OnPages(ph, 0x40_0000) && PageOffset(ph, 0x40_0000) + DataIn(ph, 0x40_0000) == 0x1800 > PAGE && !Framed(ph)
  {
  }

  lemma FramedFits(ph: Phdr, page: nat)
    requires Framed(ph) && OnPages(ph, page)
    ensures FitsFrame(ph, page)
  {
    PageCounts(ph, page);
  }

  // ---------- the flat image ----------

  predicate InFile(data: seq<Byte>, ph: Phdr) {
    ph.offset + ph.filesz <= |data|
  }

  // Byte j of the segment in memory: the file's, then zeros.
  function FlatByte(data: seq<Byte>, ph: Phdr, j: nat): Byte
    requires InFile(data, ph)
  {
    if j < ph.filesz then data[ph.offset + j] else 0
  }

  datatype Page = Page(bytes: seq<Byte>, writable: bool, executable: bool)

  // The page shows its part of the segment; other bytes are whatever the frame held.
  predicate Shows(data: seq<Byte>, ph: Phdr, page: nat, p: Page)
    requires InFile(data, ph)
  {
    && |p.bytes| == PAGE
    && p.writable == (ph.flags / 2 % 2 == 1) && p.executable == (ph.flags % 2 == 1)
    && forall o: nat :: o < PAGE && ph.vaddr <= page + o < ph.vaddr + ph.memsz ==>
         p.bytes[o] == FlatByte(data, ph, page + o - ph.vaddr)
  }

  // The frame after the page was filled: the segment's bytes, elsewhere what it held before.
  predicate Filled(data: seq<Byte>, ph: Phdr, page: nat, stale: seq<Byte>, frame: seq<Byte>)
    requires InFile(data, ph)
  {
    && |frame| == PAGE == |stale|
    && forall o: nat :: o < PAGE ==>
         frame[o] == if ph.vaddr <= page + o < ph.vaddr + ph.memsz then FlatByte(data, ph, page + o - ph.vaddr)
                     else stale[o]
  }

  // One page: copy, then clear; nothing when that would run past the frame.
  method FillPage(data: seq<Byte>, ph: Phdr, page: nat, stale: seq<Byte>) returns (r: Option<seq<Byte>>)
    requires InFile(data, ph) && OnPages(ph, page) && |stale| == PAGE
    ensures r.Some? <==> FitsFrame(ph, page)
    ensures r.Some? ==> Filled(data, ph, page, stale, r.value)
  {
    hide SegEnd, DataIn, BssIn, PageOffset, SegStart, OnPages;
    PageRange(data, ph, page);
    var start, n, z, dest := SegStart(ph, page), DataIn(ph, page), BssIn(ph, page), PageOffset(ph, page);
    if dest + n + z > PAGE {
      return None;
    }
    var frame := stale;
    if n > 0 {
      var src := ph.offset + start;
      frame := frame[..dest] + data[src..src + n] + frame[dest + n..];
    }
    if z > 0 {
      frame := frame[..dest + n] + seq(z, _ => 0) + frame[dest + n + z..];
    }
    forall o: nat | o < PAGE
      ensures frame[o] == if ph.vaddr <= page + o < ph.vaddr + ph.memsz then FlatByte(data, ph, page + o - ph.vaddr)
                          else stale[o]
    {
      ByteOnPage(ph, page, o);
    }
    return Some(frame);
  }

  // The slice taken from the file lies in it.
  lemma PageRange(data: seq<Byte>, ph: Phdr, page: nat)
    requires InFile(data, ph) && OnPages(ph, page)
    ensures 0 <= DataIn(ph, page) && 0 <= BssIn(ph, page)
    ensures 0 < DataIn(ph, page) ==> ph.offset + SegStart(ph, page) + DataIn(ph, page) <= |data|
  {
    PageCounts(ph, page);
  }

  // Which bytes of the page belong to the segment, and from where they come.
  lemma ByteOnPage(ph: Phdr, page: nat, o: nat)
    requires FitsFrame(ph, page) && OnPages(ph, page) && o < PAGE
    ensures var dest, n, z := PageOffset(ph, page), DataIn(ph, page), BssIn(ph, page);
      && (ph.vaddr <= page + o < ph.vaddr + ph.memsz <==> dest <= o < dest + n + z)
      && (dest <= o < dest + n + z ==> page + o - ph.vaddr == SegStart(ph, page) + (o - dest))
      && (dest <= o < dest + n + z ==> (o < dest + n <==> page + o - ph.vaddr < ph.filesz))
  {
  }

  // ---------- loading ----------

  predicate Loads(data: seq<Byte>, h: Header, i: nat) {
    ParsePhdr(data, h, i).Some? && ParsePhdr(data, h, i).value.kind == PT_LOAD
  }

  // The checks every loaded segment passed.
  predicate Accepted(data: seq<Byte>, ph: Phdr) {
    && InFile(data, ph)
    && ph.vaddr < USER_SPACE_END && PageUp(ph.vaddr + ph.memsz) < USER_SPACE_END
  }

  function Span(ph: Phdr): nat {
    PageUp(ph.vaddr + ph.memsz) - PageDown(ph.vaddr)
  }

  // Memory taken by the first n program headers.
  function TotalMem(data: seq<Byte>, h: Header, n: nat): nat {
    if n == 0 then 0
    else TotalMem(data, h, n - 1) + if Loads(data, h, n - 1) then Span(ParsePhdr(data, h, n - 1).value) else 0
  }

  type Pages = map<nat, Page>

  // Segment ph is in memory: every one of its pages is mapped and shows its part.
  ghost predicate SegmentIn(data: seq<Byte>, ph: Phdr, pages: Pages)
    requires InFile(data, ph)
  {
    forall page: nat :: OnPages(ph, page) ==> page in pages && Shows(data, ph, page, pages[page])
  }

  ghost predicate HeaderDone(data: seq<Byte>, h: Header, i: nat, pages: Pages) {
    && ParsePhdr(data, h, i).Some?
    && (Loads(data, h, i) ==>
          var ph := ParsePhdr(data, h, i).value;
          Accepted(data, ph) && Framed(ph) && SegmentIn(data, ph, pages))
  }

  // A page that was not mapped before belongs to one of the first n segments.
  ghost predicate OnlySegments(data: seq<Byte>, h: Header, n: nat, was: Pages, pages: Pages) {
    forall page: nat :: page in pages && page !in was ==>
      exists i: nat :: i < n && Loads(data, h, i) && OnPages(ParsePhdr(data, h, i).value, page)
  }

  ghost predicate Extends(was: Pages, pages: Pages) {
    forall page :: page in was ==> page in pages && pages[page] == was[page]
  }

  // What the first n program headers leave behind.
  ghost predicate LoadedUpTo(data: seq<Byte>, h: Header, n: nat, was: Pages, pages: Pages) {
    && (forall i: nat :: i < n ==> HeaderDone(data, h, i, pages))
    && Extends(was, pages) && OnlySegments(data, h, n, was, pages)
    && TotalMem(data, h, n) <= MAX_USER_MEM
    && PAGE * |pages| == PAGE * |was| + TotalMem(data, h, n)
  }

  predicate EntryHere(h: Header, ph: Phdr) {
    PageDown(ph.vaddr) <= h.entry < PageUp(ph.vaddr + ph.memsz)
  }

  ghost predicate EntryIn(data: seq<Byte>, h: Header, n: nat) {
    exists i: nat :: i < n && Loads(data, h, i) && EntryHere(h, ParsePhdr(data, h, i).value)
  }

  // All segments start on a page boundary or lie within one page.
  predicate AllFramed(data: seq<Byte>, h: Header) {
    forall i: nat :: i < h.phnum && Loads(data, h, i) ==> Framed(ParsePhdr(data, h, i).value)
  }

  // The pages of one segment, up to `end`.
  ghost predicate PagesUpTo(data: seq<Byte>, ph: Phdr, end: nat, was: Pages, pages: Pages)
    requires InFile(data, ph)
  {
    && (forall page: nat :: OnPages(ph, page) && page < end ==> page in pages && Shows(data, ph, page, pages[page]))
    && Extends(was, pages)
    && (forall page :: page in pages && page !in was ==> OnPages(ph, page) && page < end)
  }

  lemma SegmentPages(ph: Phdr)
    ensures PageDown(ph.vaddr) <= PageUp(ph.vaddr + ph.memsz)
    ensures PageDown(ph.vaddr) + (PageUp(ph.vaddr + ph.memsz) - PageDown(ph.vaddr)) / PAGE * PAGE
         == PageUp(ph.vaddr + ph.memsz)
  {
  }

  lemma PageOf(ph: Phdr, i: nat)
    requires PageDown(ph.vaddr) <= PageUp(ph.vaddr + ph.memsz)
    requires i < (PageUp(ph.vaddr + ph.memsz) - PageDown(ph.vaddr)) / PAGE
    ensures OnPages(ph, PageDown(ph.vaddr) + i * PAGE)
  {
  }

  lemma NoPages(data: seq<Byte>, ph: Phdr, pages: Pages)
    requires InFile(data, ph)
    ensures PagesUpTo(data, ph, PageDown(ph.vaddr), pages, pages)
    ensures forall page: nat :: OnPages(ph, page) ==> PageDown(ph.vaddr) <= page
  {
  }

  lemma FilledShows(data: seq<Byte>, ph: Phdr, page: nat, p: Page, stale: seq<Byte>)
    requires InFile(data, ph) && Filled(data, ph, page, stale, p.bytes)
    requires p.writable == (ph.flags / 2 % 2 == 1) && p.executable == (ph.flags % 2 == 1)
    ensures Shows(data, ph, page, p)
  {
  }

  lemma OnePageMore(data: seq<Byte>, ph: Phdr, page: nat, was: Pages, pages: Pages, p: Page)
    requires InFile(data, ph) && OnPages(ph, page) && page !in pages && Shows(data, ph, page, p)
    requires PagesUpTo(data, ph, page, was, pages)
    ensures PagesUpTo(data, ph, page + PAGE, was, pages[page := p])
  {
    hide Shows;
    forall q: nat | OnPages(ph, q) && q < page + PAGE
      ensures q in pages[page := p] && Shows(data, ph, q, pages[page := p][q])
    {
      PageOrder(page, q);
    }
  }

  // The pages done so far do not include the next one.
  lemma NotBefore(data: seq<Byte>, ph: Phdr, page: nat, was: Pages, pages: Pages)
    requires InFile(data, ph) && PagesUpTo(data, ph, page, was, pages)
    ensures page in pages ==> page in was
  {
  }

  lemma FitMore(ph: Phdr, page: nat)
    requires OnPages(ph, page) && FitsFrame(ph, page)
    requires forall q: nat :: OnPages(ph, q) && q < page ==> FitsFrame(ph, q)
    ensures forall q: nat :: OnPages(ph, q) && q < page + PAGE ==> FitsFrame(ph, q)
  {
    hide FitsFrame;
    forall q: nat | OnPages(ph, q) && q < page + PAGE
      ensures FitsFrame(ph, q)
    {
      PageOrder(page, q);
    }
  }

  lemma AllFit(ph: Phdr, last: nat)
    requires last == PageUp(ph.vaddr + ph.memsz)
    requires forall q: nat :: OnPages(ph, q) && q < last ==> FitsFrame(ph, q)
    ensures Framed(ph)
  {
    hide FitsFrame, Framed;
    FramedIff(ph);
  }

  lemma PageOrder(page: nat, q: nat)
    requires page % PAGE == 0 && q % PAGE == 0 && q < page + PAGE
    ensures q <= page
  {
  }

  lemma SegmentDone(data: seq<Byte>, h: Header, n: nat, was: Pages, mid: Pages, pages: Pages)
    requires LoadedUpTo(data, h, n, was, mid) && Loads(data, h, n)
    requires Accepted(data, ParsePhdr(data, h, n).value) && Framed(ParsePhdr(data, h, n).value)
    requires var ph := ParsePhdr(data, h, n).value; PagesUpTo(data, ph, PageUp(ph.vaddr + ph.memsz), mid, pages)
    requires TotalMem(data, h, n + 1) <= MAX_USER_MEM
    requires PAGE * |pages| == PAGE * |mid| + Span(ParsePhdr(data, h, n).value)
    ensures LoadedUpTo(data, h, n + 1, was, pages)
  {
    hide ParsePhdr, SegmentIn, OnPages, PageUp, HeaderDone, OnlySegments, Span, Framed;
    HeadersStay(data, h, n, was, mid, pages);
    OnlyMore(data, h, n, was, mid, pages);
  }

  // The new segment is in, and the earlier ones stay.
  lemma HeadersStay(data: seq<Byte>, h: Header, n: nat, was: Pages, mid: Pages, pages: Pages)
    requires (forall i: nat :: i < n ==> HeaderDone(data, h, i, mid)) && Loads(data, h, n)
    requires Accepted(data, ParsePhdr(data, h, n).value) && Framed(ParsePhdr(data, h, n).value)
    requires var ph := ParsePhdr(data, h, n).value; PagesUpTo(data, ph, PageUp(ph.vaddr + ph.memsz), mid, pages)
    ensures forall i: nat :: i < n + 1 ==> HeaderDone(data, h, i, pages)
  {
    hide ParsePhdr, SegmentIn, OnPages, PageUp, PageDown, Framed, Shows;
    AllPages(data, ParsePhdr(data, h, n).value, mid, pages);
    forall i: nat | i < n
      ensures HeaderDone(data, h, i, pages)
    {
      assert HeaderDone(data, h, i, mid);
      if Loads(data, h, i) {
        SegmentStays(data, ParsePhdr(data, h, i).value, mid, pages);
      }
    }
  }

  lemma OnlyMore(data: seq<Byte>, h: Header, n: nat, was: Pages, mid: Pages, pages: Pages)
    requires OnlySegments(data, h, n, was, mid) && Loads(data, h, n) && InFile(data, ParsePhdr(data, h, n).value)
    requires var ph := ParsePhdr(data, h, n).value; PagesUpTo(data, ph, PageUp(ph.vaddr + ph.memsz), mid, pages)
    ensures OnlySegments(data, h, n + 1, was, pages)
  {
    hide ParsePhdr, OnPages, PageUp, PageDown, Shows;
    forall page: nat | page in pages && page !in was
      ensures exists i: nat :: i < n + 1 && Loads(data, h, i) && OnPages(ParsePhdr(data, h, i).value, page)
    {
      if page in mid {
        var i: nat :| i < n && Loads(data, h, i) && OnPages(ParsePhdr(data, h, i).value, page);
      } else {
        assert OnPages(ParsePhdr(data, h, n).value, page);
      }
    }
  }

  lemma AllPages(data: seq<Byte>, ph: Phdr, was: Pages, pages: Pages)
    requires InFile(data, ph) && PagesUpTo(data, ph, PageUp(ph.vaddr + ph.memsz), was, pages)
    ensures SegmentIn(data, ph, pages)
  {
    hide Shows;
  }

  lemma SegmentStays(data: seq<Byte>, ph: Phdr, was: Pages, pages: Pages)
    requires InFile(data, ph) && SegmentIn(data, ph, was) && Extends(was, pages)
    ensures SegmentIn(data, ph, pages)
  {
    hide Shows, OnPages;
  }

  lemma HeaderSkipped(data: seq<Byte>, h: Header, n: nat, was: Pages, pages: Pages)
    requires LoadedUpTo(data, h, n, was, pages) && ParsePhdr(data, h, n).Some? && !Loads(data, h, n)
    ensures LoadedUpTo(data, h, n + 1, was, pages)
  {
    hide ParsePhdr, SegmentIn, Accepted, OnPages;
  }

  lemma NothingLoaded(data: seq<Byte>, h: Header, pages: Pages)
    ensures LoadedUpTo(data, h, 0, pages, pages)
  {
  }

  // What the headers must say for loading to get through.
  ghost predicate Loadable(data: seq<Byte>, h: Header) {
    && TotalMem(data, h, h.phnum) <= MAX_USER_MEM
    && forall i: nat :: i < h.phnum ==>
         ParsePhdr(data, h, i).Some? && (Loads(data, h, i) ==> Permitted(data, ParsePhdr(data, h, i).value))
  }

  predicate Permitted(data: seq<Byte>, ph: Phdr) {
    Accepted(data, ph) && ph.vaddr + ph.memsz < USER_SPACE_END
  }

  // A page wanted twice.
  ghost predicate Clash(data: seq<Byte>, h: Header, was: Pages) {
    exists i: nat, page: nat ::
      && i < h.phnum && Loads(data, h, i) && OnPages(ParsePhdr(data, h, i).value, page)
      && Taken(data, h, i, was, page)
  }

  ghost predicate Taken(data: seq<Byte>, h: Header, i: nat, was: Pages, page: nat) {
    page in was || exists j: nat :: j < i && Loads(data, h, j) && OnPages(ParsePhdr(data, h, j).value, page)
  }

  lemma FoundClash(data: seq<Byte>, h: Header, i: nat, was: Pages, mid: Pages, page: nat)
    requires LoadedUpTo(data, h, i, was, mid) && i < h.phnum && Loads(data, h, i)
    requires OnPages(ParsePhdr(data, h, i).value, page) && page in mid
    ensures Clash(data, h, was)
  {
    hide ParsePhdr, OnPages;
    assert Taken(data, h, i, was, page);
  }

  // A program that loaded has framed segments only.
  lemma LoadedFramed(data: seq<Byte>, h: Header, was: Pages, pages: Pages)
    requires LoadedUpTo(data, h, h.phnum, was, pages)
    ensures AllFramed(data, h)
  {
    hide ParsePhdr, SegmentIn, Accepted, OnlySegments, Framed;
    forall i: nat | i < h.phnum && Loads(data, h, i)
      ensures Framed(ParsePhdr(data, h, i).value)
    {
      assert HeaderDone(data, h, i, pages);
    }
  }

  lemma EntryStep(data: seq<Byte>, h: Header, i: nat)
    requires ParsePhdr(data, h, i).Some?
    ensures EntryIn(data, h, i + 1)
       <==> EntryIn(data, h, i) || (Loads(data, h, i) && EntryHere(h, ParsePhdr(data, h, i).value))
  {
    hide ParsePhdr, PageDown, PageUp;
    if EntryIn(data, h, i + 1) {
      var j: nat :| j < i + 1 && Loads(data, h, j) && EntryHere(h, ParsePhdr(data, h, j).value);
    }
    if EntryIn(data, h, i) {
      var j: nat :| j < i && Loads(data, h, j) && EntryHere(h, ParsePhdr(data, h, j).value);
      assert j < i + 1;
    }
  }

  lemma NoEntry(data: seq<Byte>, h: Header)
    ensures !EntryIn(data, h, 0)
  {
  }

  lemma TotalMemGrows(data: seq<Byte>, h: Header, i: nat, n: nat)
    requires i <= n
    ensures TotalMem(data, h, i) <= TotalMem(data, h, n)
  {
  }

  class AddressSpace {
    var pages: Pages
    // Frames do not run out.
    const ample: bool

    constructor (pages: Pages, ample: bool)
      ensures this.pages == pages && this.ample == ample
    {
      this.pages := pages;
      this.ample := ample;
    }

    // map_page stops the machine on a page that is already mapped, or without
    // frames for tables.
    method MapPage(page: nat, p: Page) returns (ok: bool)
      modifies this
      ensures ok ==> page !in old(pages) && pages == old(pages)[page := p]
      ensures !ok ==> pages == old(pages)
      ensures ample && page !in old(pages) ==> ok
    {
      if page !in pages {
        var works := *;
        if ample || works {
          pages := pages[page := p];
          return true;
        }
      }
      return false;
    }

    // A frame from the allocator, with whatever it held before.
    method AllocateFrame() returns (r: Option<seq<Byte>>)
      ensures r.Some? ==> |r.value| == PAGE
      ensures ample ==> r.Some?
    {
      var works := *;
      if ample || works {
        var stale: seq<Byte> := *;
        return Some(if |stale| == PAGE then stale else seq(PAGE, _ => 0));
      }
      return None;
    }

    // One page: a frame, mapped, then filled.
    method LoadPage(data: seq<Byte>, ph: Phdr, page: nat) returns (r: Result<bool>)
      requires InFile(data, ph) && OnPages(ph, page)
      modifies this
      ensures r.Ok? ==> page !in old(pages) && page in pages && Shows(data, ph, page, pages[page])
      ensures r.Ok? ==> FitsFrame(ph, page) && pages == old(pages)[page := pages[page]]
      ensures r.Err? ==> r == Err(MapFailed) || r == Err(Halt) || (r == Err(Overrun) && !FitsFrame(ph, page))
      ensures ample && r == Err(Halt) ==> page in old(pages)
      ensures ample ==> r != Err(MapFailed)
    {
      hide Shows, OnPages, FitsFrame, Filled;
      var stale := AllocateFrame();
      if stale.None? {
        return Err(MapFailed);
      }
      var ok := MapPage(page, Page(stale.value, ph.flags / 2 % 2 == 1, ph.flags % 2 == 1));
      if !ok {
        return Err(Halt);
      }
      var frame := FillPage(data, ph, page, stale.value);
      if frame.None? {
        return Err(Overrun);
      }
      var p := pages[page].(bytes := frame.value);
      FilledShows(data, ph, page, p, stale.value);
      pages := pages[page := p];
      return Ok(true);
    }

    method LoadSegment(data: seq<Byte>, ph: Phdr) returns (r: Result<bool>)
      requires Accepted(data, ph)
      modifies this
      ensures r.Ok? ==> Framed(ph) && PagesUpTo(data, ph, PageUp(ph.vaddr + ph.memsz), old(pages), pages)
      ensures r.Ok? ==> PAGE * |pages| == PAGE * |old(pages)| + Span(ph)
      ensures r.Err? ==> r == Err(MapFailed) || r == Err(Halt) || (r == Err(Overrun) && !Framed(ph))
      ensures ample && r == Err(Halt) ==> exists page: nat :: OnPages(ph, page) && page in old(pages)
      ensures ample ==> r != Err(MapFailed)
    {
      hide Shows, OnPages, Framed, FitsFrame, PageUp, PageDown, PagesUpTo;
      var first, last := PageDown(ph.vaddr), PageUp(ph.vaddr + ph.memsz);
      SegmentPages(ph);
      NoPages(data, ph, pages);
      FramedIff(ph);
      var count := (last - first) / PAGE;
      var i := 0;
      while i < count
        invariant 0 <= i <= count
        invariant PagesUpTo(data, ph, first + i * PAGE, old(pages), pages) && |pages| == |old(pages)| + i
        invariant forall page: nat :: OnPages(ph, page) && page < first + i * PAGE ==> FitsFrame(ph, page)
      {
        var page := first + i * PAGE;
        PageOf(ph, i);
        ghost var before := pages;
        var one := LoadPage(data, ph, page);
        if one.Err? {
          NotBefore(data, ph, page, old(pages), before);
          return one;
        }
        OnePageMore(data, ph, page, old(pages), before, pages[page]);
        FitMore(ph, page);
        i := i + 1;
      }
      AllFit(ph, last);
      return Ok(true);
    }

    // The loader's checks on one segment, with the running total.
    method CheckSegment(data: seq<Byte>, ph: Phdr, total: nat) returns (r: Result<nat>)
      requires ph.vaddr < U64 && ph.memsz < U64 && ph.offset < U64 && ph.filesz < U64 && |data| <= MAX_SLICE
      ensures r.Ok? <==> Permitted(data, ph) && total + Span(ph) <= MAX_USER_MEM
      ensures r.Ok? ==> r.value == total + Span(ph)
    {
      var segEnd := Min(ph.offset + ph.filesz, U64 - 1);
      if segEnd > |data| {
        return Err(SegmentOutOfBounds);
      }
      if ph.vaddr >= USER_SPACE_END {
        return Err(SegmentOverlap);
      }
      var start := PageDown(ph.vaddr);
      var rawEnd := ph.vaddr + ph.memsz;
      if rawEnd >= U64 || rawEnd >= USER_SPACE_END {
        return Err(SegmentOverlap);
      }
      var end := PageUp(rawEnd);
      if end >= USER_SPACE_END {
        return Err(SegmentOverlap);
      }
      var newTotal := total + (end - start);
      if newTotal >= U64 || newTotal > MAX_USER_MEM {
        return Err(SegmentTooLarge);
      }
      return Ok(newTotal);
    }

    method LoadElf(data: seq<Byte>) returns (r: Result<nat>)
      requires |data| <= MAX_SLICE
      modifies this
      ensures r.Ok? ==> ParseEhdr(data).Ok? && r.value == ParseEhdr(data).value.entry
      ensures r.Ok? ==> LoadedUpTo(data, ParseEhdr(data).value, ParseEhdr(data).value.phnum, old(pages), pages)
      ensures r.Ok? ==> EntryIn(data, ParseEhdr(data).value, ParseEhdr(data).value.phnum)
      ensures ParseEhdr(data).Err? ==> r == Err(ParseEhdr(data).error) && pages == old(pages)
      ensures ParseEhdr(data).Ok? && r.Err? ==>
                || !Loadable(data, ParseEhdr(data).value)
                || (r == Err(BadEntry) && !EntryIn(data, ParseEhdr(data).value, ParseEhdr(data).value.phnum))
                || (r == Err(Overrun) && !AllFramed(data, ParseEhdr(data).value))
                || (!ample && (r == Err(MapFailed) || r == Err(Halt)))
                || (r == Err(Halt) && Clash(data, ParseEhdr(data).value, old(pages)))
    {
      hide ParseEhdr, ParsePhdr, LoadedUpTo, PagesUpTo, Accepted, Framed, Span, PageUp, PageDown, EntryIn, Clash,
        OnPages;
      var header := ParseEhdr(data);
      if header.Err? {
        return Err(header.error);
      }
      var h := header.value;
      var entryIn, total := false, 0;
      NothingLoaded(data, h, pages);
      NoEntry(data, h);
      var i := 0;
      while i < h.phnum
        invariant 0 <= i <= h.phnum && total == TotalMem(data, h, i)
        invariant LoadedUpTo(data, h, i, old(pages), pages)
        invariant entryIn <==> EntryIn(data, h, i)
      {
        var parsed := ParsePhdr(data, h, i);
        if parsed.None? {
          return Err(SegmentOutOfBounds);
        }
        var ph := parsed.value;
        EntryStep(data, h, i);
        if ph.kind != PT_LOAD {
          HeaderSkipped(data, h, i, old(pages), pages);
          i := i + 1;
          continue;
        }
        PhdrRange(data, h, i);
        var checked := CheckSegment(data, ph, total);
        TotalMemGrows(data, h, i + 1, h.phnum);
        if checked.Err? {
          return Err(checked.error);
        }
        total := checked.value;
        if PageDown(ph.vaddr) <= h.entry < PageUp(ph.vaddr + ph.memsz) {
          entryIn := true;
        }
        ghost var mid := pages;
        var loaded := LoadSegment(data, ph);
        if loaded.Err? {
          if ample && loaded == Err(Halt) {
            ghost var page: nat :| OnPages(ph, page) && page in mid;
            FoundClash(data, h, i, old(pages), mid, page);
          }
          return Err(loaded.error);
        }
        assert TotalMem(data, h, i + 1) <= MAX_USER_MEM;
        SegmentDone(data, h, i, old(pages), mid, pages);
        i := i + 1;
      }
      if !entryIn {
        return Err(BadEntry);
      }
      return Ok(h.entry);
    }
  }

  // Virtual address v reads x.
  ghost predicate ByteIs(pages: Pages, v: nat, x: Byte) {
    PageDown(v) in pages && |pages[PageDown(v)].bytes| == PAGE && pages[PageDown(v)].bytes[v % PAGE] == x
  }

  // The loaded program seen as one flat memory: every byte of every segment is
  // the file's or zero, below the user boundary, in at most 256 MiB of pages.
  lemma FlatImage(data: seq<Byte>, h: Header, was: Pages, pages: Pages, i: nat, j: nat)
    requires LoadedUpTo(data, h, h.phnum, was, pages) && i < h.phnum && Loads(data, h, i)
    requires j < ParsePhdr(data, h, i).value.memsz
    ensures InFile(data, ParsePhdr(data, h, i).value)
    ensures ByteIs(pages, ParsePhdr(data, h, i).value.vaddr + j, FlatByte(data, ParsePhdr(data, h, i).value, j))
    ensures ParsePhdr(data, h, i).value.vaddr + j < USER_SPACE_END
    ensures PAGE * |pages| <= PAGE * |was| + MAX_USER_MEM
  {
    hide ParsePhdr, SegmentIn, Accepted, OnlySegments;
    assert HeaderDone(data, h, i, pages);
    SegmentByte(data, ParsePhdr(data, h, i).value, pages, j);
  }

  lemma SegmentByte(data: seq<Byte>, ph: Phdr, pages: Pages, j: nat)
    requires Accepted(data, ph) && SegmentIn(data, ph, pages) && j < ph.memsz
    ensures InFile(data, ph) && ph.vaddr + j < USER_SPACE_END
    ensures ByteIs(pages, ph.vaddr + j, FlatByte(data, ph, j))
  {
    var page := PageDown(ph.vaddr + j);
    assert OnPages(ph, page);
    assert Shows(data, ph, page, pages[page]);
  }

  lemma PhdrRange(data: seq<Byte>, h: Header, i: nat)
    requires ParsePhdr(data, h, i).Some?
    ensures var ph := ParsePhdr(data, h, i).value;
      ph.vaddr < U64 && ph.memsz < U64 && ph.offset < U64 && ph.filesz < U64
  {
    hide Read64, Read32;
    var o := h.phoff + i * h.phentsize;
    Le64(data, o + 8);
    Le64(data, o + 16);
    Le64(data, o + 32);
    Le64(data, o + 40);
  }

  lemma Le64(data: seq<Byte>, o: nat)
    requires o + 8 <= |data|
    ensures Read64(data, o) < U64
  {
    LeBound(data, o, 8);
    assert Pow256(8) == U64 by {
      assert Pow256(4) == 0x1_0000_0000;
    }
  }

  function Pow256(n: nat): nat {
    if n == 0 then 1 else 0x100 * Pow256(n - 1)
  }

  lemma {:induction false} LeBound(data: seq<Byte>, o: nat, n: nat)
    requires o + n <= |data|
    ensures Le(data, o, n) < Pow256(n)
    decreases n
  {
    if n > 0 {
      LeBound(data, o + 1, n - 1);
    }
  }
}
