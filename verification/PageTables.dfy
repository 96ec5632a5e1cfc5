/** Four-level page tables as they lie in physical memory, and the tree a walk finds there
    (indo-kernel/src/memory/vmm.rs; Intel SDM volume 3A, section 4.5).

    Physical memory is a sequence of frames of 512 eight-byte words. A word is kept by its
    fields, so the same word can be data or a page-table entry. Nothing records which frames
    are tables: `TableAt` recovers the tree from the memory alone, exactly as the kernel does. */
module PageTables {
  import opened Wrappers

  const FRAME_LIMIT := 0x100_0000_0000 // 52-bit physical addresses

  type FrameNo = f: int | 0 <= f < FRAME_LIMIT

  /** A 64-bit word: bits 0, 1, 2 and 7, the frame number in bits 12 to 51, and the rest. */
  datatype Word = Word(present: bool, writable: bool, user: bool, huge: bool, other: nat, frame: FrameNo)

  const ZERO := Word(false, false, false, false, 0, 0)

  type Frame = s: seq<Word> | |s| == 512 ghost witness seq(512, _ => ZERO)
  type Memory = m: seq<Frame> | |m| == FRAME_LIMIT ghost witness seq(FRAME_LIMIT, _ => seq(512, _ => ZERO))

  function ZeroFrame(): (z: Frame)
    ensures forall i :: 0 <= i < 512 ==> z[i] == ZERO
  {
    seq(512, _ => ZERO)
  }

  /** The entries of a level a walk of user space considers: the upper half of a PML4 is the kernel's. */
  function Width(level: int): nat {
    if level == 4 then 256 else 512
  }

  // ---------------------------------------------------------------- virtual pages

  datatype Va = Va(i4: nat, i3: nat, i2: nat, i1: nat)

  type Page = v: Va | v.i4 < 256 && v.i3 < 512 && v.i2 < 512 && v.i1 < 512 witness Va(0, 0, 0, 0)

  function Index(v: Page, level: int): (i: nat)
    ensures i < Width(level)
  {
    if level == 4 then v.i4 else if level == 3 then v.i3 else if level == 2 then v.i2 else v.i1
  }

  /** The page of a user address, by the shifts and masks of the walk. */
  function PageOf(address: nat): Page
    requires address < 0x8000_0000_0000
  {
    Va(address / 0x80_0000_0000 % 512, address / 0x4000_0000 % 512, address / 0x20_0000 % 512, address / 4096 % 512)
  }

  function AddressOf(v: Page): nat {
    v.i4 * 0x80_0000_0000 + v.i3 * 0x4000_0000 + v.i2 * 0x20_0000 + v.i1 * 4096
  }

  lemma {:induction false} SmallMultiple(d: int, k: int)
    requires d > 0 && 0 - d < d * k < d
    ensures k == 0
  {
  }

  lemma DivUnique(a: nat, d: nat, q: nat, r: nat)
    requires d > 0 && r < d && a == d * q + r
    ensures a / d == q && a % d == r
  {
    var k := q - a / d;
    assert d * k == d * q - d * (a / d);
    SmallMultiple(d, k);
  }

  /** Four indices name exactly one page of user space. */
  lemma PageAddressRoundTrip(v: Page)
    ensures AddressOf(v) < 0x8000_0000_0000 && PageOf(AddressOf(v)) == v
  {
    Digits(AddressOf(v), v.i4, v.i3, v.i2, v.i1, 0);
  }

  lemma AddressPageRoundTrip(address: nat)
    requires address < 0x8000_0000_0000
    ensures AddressOf(PageOf(address)) == address - address % 4096
  {
    var p, o := address / 4096, address % 4096;
    var q, i1 := p / 512, p % 512;
    var r, i2 := q / 512, q % 512;
    Digits(address, r / 512, r % 512, i2, i1, o);
  }

  lemma Digits(a: nat, i4: nat, i3: nat, i2: nat, i1: nat, o: nat)
    requires i4 < 256 && i3 < 512 && i2 < 512 && i1 < 512 && o < 4096
    requires a == i4 * 0x80_0000_0000 + i3 * 0x4000_0000 + i2 * 0x20_0000 + i1 * 4096 + o
    ensures a < 0x8000_0000_0000 && PageOf(a) == Va(i4, i3, i2, i1)
  {
    DivUnique(a, 4096, i4 * 0x800_0000 + i3 * 0x4_0000 + i2 * 512 + i1, o);
    DivUnique(a, 0x20_0000, i4 * 0x4_0000 + i3 * 512 + i2, i1 * 4096 + o);
    DivUnique(a, 0x4000_0000, i4 * 512 + i3, i2 * 0x20_0000 + i1 * 4096 + o);
    DivUnique(a, 0x80_0000_0000, i4, i3 * 0x4000_0000 + i2 * 0x20_0000 + i1 * 4096 + o);
  }

  // ---------------------------------------------------------------- the tree a walk finds

  datatype Table = Table(frame: FrameNo, kids: seq<Kid>)
  datatype Kid = Hole | Leaf(e: Word) | Sub(e: Word, table: Table)

  /** An entry that is not present, or that maps a huge page, is not followed. */
  predicate Followed(level: int, e: Word) {
    e.present && !(2 <= level <= 3 && e.huge)
  }

  ghost function KidAt(mem: Memory, level: int, e: Word): (k: Kid)
    requires 1 <= level <= 4
    decreases level, 0
  {
    if !Followed(level, e) then Hole
    else if level == 1 then Leaf(e)
    else Sub(e, TableAt(mem, level - 1, e.frame))
  }

  ghost function TableAt(mem: Memory, level: int, t: FrameNo): (r: Table)
    requires 1 <= level <= 4
    ensures r.frame == t && |r.kids| == Width(level)
    decreases level, 1
  {
    Table(t, seq(Width(level), i requires 0 <= i < Width(level) => KidAt(mem, level, mem[t][i])))
  }

  lemma KidIs(mem: Memory, level: int, t: FrameNo, i: int)
    requires 1 <= level <= 4 && 0 <= i < Width(level)
    ensures TableAt(mem, level, t).kids[i] == KidAt(mem, level, mem[t][i])
  {
  }

  /** The frames that hold the tables of a tree. */
  ghost function Frames(t: Table): set<FrameNo> {
    {t.frame} + set i, f | 0 <= i < |t.kids| && f in KidFrames(t.kids[i]) :: f
  }

  ghost function KidFrames(k: Kid): set<FrameNo> {
    if k.Sub? then Frames(k.table) else {}
  }

  /** No table is reached twice. */
  ghost predicate Separated(t: Table) {
    && (forall i :: 0 <= i < |t.kids| ==> KidSeparated(t.kids[i]) && t.frame !in KidFrames(t.kids[i]))
    && (forall i, j :: 0 <= i < j < |t.kids| ==> KidFrames(t.kids[i]) !! KidFrames(t.kids[j]))
  }

  ghost predicate KidSeparated(k: Kid) {
    k.Sub? ==> Separated(k.table)
  }

  /** How many leaf entries of the tree map frame f. */
  ghost function Count(t: Table, f: FrameNo): nat {
    CountKids(t.kids, f)
  }

  ghost function CountKids(kids: seq<Kid>, f: FrameNo): nat {
    if kids == [] then 0 else CountKids(kids[..|kids| - 1], f) + CountKid(kids[|kids| - 1], f)
  }

  ghost function CountKid(k: Kid, f: FrameNo): nat {
    match k
    case Hole => 0
    case Leaf(e) => if e.frame == f then 1 else 0
    case Sub(_, t) => Count(t, f)
  }

  /** The leaf entry of a page, if it is mapped. */
  ghost function Lookup(t: Table, level: int, v: Page): Option<Word> {
    if Index(v, level) < |t.kids| then LookupKid(t.kids[Index(v, level)], level, v) else None
  }

  ghost function LookupKid(k: Kid, level: int, v: Page): Option<Word> {
    match k
    case Hole => None
    case Leaf(e) => Some(e)
    case Sub(_, t) => Lookup(t, level - 1, v)
  }

  // ---------------------------------------------------------------- framing

  /** A tree depends on the frames of its tables and on nothing else. */
  lemma {:induction false} TableFraming(mem: Memory, mem': Memory, level: int, t: FrameNo)
    requires 1 <= level <= 4
    requires forall f :: f in Frames(TableAt(mem, level, t)) ==> mem'[f] == mem[f]
    ensures TableAt(mem', level, t) == TableAt(mem, level, t)
    decreases level, 1
  {
    var r := TableAt(mem, level, t);
    forall i | 0 <= i < Width(level)
      ensures KidAt(mem', level, mem'[t][i]) == r.kids[i]
    {
      assert r.kids[i] == KidAt(mem, level, mem[t][i]);
      assert KidFrames(r.kids[i]) <= Frames(r);
      KidFraming(mem, mem', level, mem[t][i]);
    }
    assert TableAt(mem', level, t).kids == r.kids;
  }

  lemma {:induction false} KidFraming(mem: Memory, mem': Memory, level: int, e: Word)
    requires 1 <= level <= 4
    requires forall f :: f in KidFrames(KidAt(mem, level, e)) ==> mem'[f] == mem[f]
    ensures KidAt(mem', level, e) == KidAt(mem, level, e)
    decreases level, 0
  {
    if KidAt(mem, level, e).Sub? {
      TableFraming(mem, mem', level - 1, e.frame);
    }
  }

  // ---------------------------------------------------------------- counting

  lemma {:induction false} CountUpdate(kids: seq<Kid>, i: nat, k: Kid, f: FrameNo)
    requires i < |kids|
    ensures CountKids(kids[i := k], f) + CountKid(kids[i], f) == CountKids(kids, f) + CountKid(k, f)
  {
    var n := |kids| - 1;
    if i < n {
      CountUpdate(kids[..n], i, k, f);
      assert kids[i := k][..n] == kids[..n][i := k];
    } else {
      assert kids[i := k][..n] == kids[..n];
    }
  }

  lemma {:induction false} CountHoles(kids: seq<Kid>, f: FrameNo)
    requires forall i :: 0 <= i < |kids| ==> kids[i].Hole?
    ensures CountKids(kids, f) == 0
  {
    if kids != [] {
      CountHoles(kids[..|kids| - 1], f);
    }
  }

  lemma {:induction false} CountSame(a: seq<Kid>, b: seq<Kid>, f: FrameNo)
    requires |a| == |b|
    requires forall i :: 0 <= i < |a| ==> CountKid(a[i], f) == CountKid(b[i], f)
    ensures CountKids(a, f) == CountKids(b, f)
  {
    if a != [] {
      CountSame(a[..|a| - 1], b[..|a| - 1], f);
    }
  }

  lemma {:induction false} CountPrefix(kids: seq<Kid>, n: nat, f: FrameNo)
    requires n <= |kids|
    ensures CountKids(kids[..n], f) <= CountKids(kids, f)
    ensures n < |kids| ==> CountKids(kids[..n], f) + CountKid(kids[n], f) <= CountKids(kids, f)
    decreases |kids| - n
  {
    if n < |kids| {
      CountPrefix(kids, n + 1, f);
      assert kids[..n + 1][..n] == kids[..n];
    } else {
      assert kids[..n] == kids;
    }
  }

  lemma CountStep(kids: seq<Kid>, n: nat, f: FrameNo)
    requires n < |kids|
    ensures CountKids(kids[..n + 1], f) == CountKids(kids[..n], f) + CountKid(kids[n], f)
  {
    assert kids[..n + 1][..n] == kids[..n];
  }

  lemma CountAtLeast(kids: seq<Kid>, i: nat, f: FrameNo)
    requires i < |kids|
    ensures CountKid(kids[i], f) <= CountKids(kids, f)
  {
    CountPrefix(kids, i, f);
  }

  lemma CountAtLeastTwo(kids: seq<Kid>, i: nat, j: nat, f: FrameNo)
    requires i < j < |kids|
    ensures CountKid(kids[i], f) + CountKid(kids[j], f) <= CountKids(kids, f)
  {
    CountPrefix(kids, j, f);
    CountPrefix(kids[..j], i, f);
    assert kids[..j][..i] == kids[..i];
  }

  // ---------------------------------------------------------------- lookups and counts

  /** A mapped page is counted. */
  lemma {:induction false} LookupCounts(t: Table, level: int, v: Page)
    requires Lookup(t, level, v).Some?
    ensures Count(t, Lookup(t, level, v).value.frame) >= 1
    decreases t
  {
    var i := Index(v, level);
    var f := Lookup(t, level, v).value.frame;
    CountAtLeast(t.kids, i, f);
    if t.kids[i].Sub? {
      LookupCounts(t.kids[i].table, level - 1, v);
    }
  }

  /** Two pages on one frame are counted twice. */
  lemma {:induction false} LookupCountsTwice(t: Table, level: int, v: Page, u: Page)
    requires 1 <= level <= 4 && Shaped(t, level)
    requires exists l :: 1 <= l <= level && Index(v, l) != Index(u, l)
    requires Lookup(t, level, v).Some? && Lookup(t, level, u).Some?
    requires Lookup(t, level, v).value.frame == Lookup(t, level, u).value.frame
    ensures Count(t, Lookup(t, level, v).value.frame) >= 2
    decreases t
  {
    var f := Lookup(t, level, v).value.frame;
    var i, j := Index(v, level), Index(u, level);
    if i == j {
      CountAtLeast(t.kids, i, f);
      if level > 1 {
        LookupCountsTwice(t.kids[i].table, level - 1, v, u);
      }
    } else {
      if level > 1 {
        LookupCounts(t.kids[i].table, level - 1, v);
        LookupCounts(t.kids[j].table, level - 1, u);
      }
      if i < j {
        CountAtLeastTwo(t.kids, i, j, f);
      } else {
        CountAtLeastTwo(t.kids, j, i, f);
      }
    }
  }

  /** Leaves at level 1, tables above. */
  ghost predicate Shaped(t: Table, level: int) {
    && |t.kids| == Width(level)
    && forall i :: 0 <= i < |t.kids| ==> ShapedKid(t.kids[i], level)
  }

  ghost predicate ShapedKid(k: Kid, level: int) {
    match k
    case Hole => true
    case Leaf(e) => level == 1 && e.present
    case Sub(_, t) => level > 1 && Shaped(t, level - 1)
  }

  lemma {:induction false} TableAtShaped(mem: Memory, level: int, t: FrameNo)
    requires 1 <= level <= 4
    ensures Shaped(TableAt(mem, level, t), level)
    decreases level
  {
    var r := TableAt(mem, level, t);
    forall i | 0 <= i < |r.kids| ensures ShapedKid(r.kids[i], level) {
      assert r.kids[i] == KidAt(mem, level, mem[t][i]);
      if level > 1 {
        TableAtShaped(mem, level - 1, mem[t][i].frame);
      }
    }
  }

  lemma {:induction false} LookupPresent(t: Table, level: int, v: Page)
    requires 1 <= level <= 4 && Shaped(t, level) && Lookup(t, level, v).Some?
    ensures Lookup(t, level, v).value.present
    decreases t
  {
    var k := t.kids[Index(v, level)];
    assert ShapedKid(k, level);
    if k.Sub? {
      LookupPresent(k.table, level - 1, v);
    }
  }
}
