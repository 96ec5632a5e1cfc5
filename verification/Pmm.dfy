/** The physical frame allocator: a bitmap with one bit per 4 KiB frame, a table of
    saturating one-byte reference counts and a counter of free frames
    (indo-kernel/src/memory/pmm.rs).

    `Frames` is the allocator seen as a value. The class `FrameAllocator` keeps the bytes,
    and every method states its new `Frames` value as a function of the old one. */
module Pmm {
  import opened Wrappers

  const PAGE_SIZE := 4096
  const MAX_FRAMES := 4194304
  const BITMAP_SIZE := MAX_FRAMES / 8

  type u8 = x: int | 0 <= x < 256

  // ---------------------------------------------------------------- the abstract allocator

  /** `used[f]` is the bitmap bit of frame f, `rc[f]` its reference count;
      both cover exactly the tracked frames. */
  datatype Frames = Frames(used: seq<bool>, rc: seq<u8>) {
    predicate Has(f: int) {
      0 <= f < |used| && f < |rc| && used[f]
    }
  }

  ghost predicate Consistent(p: Frames) {
    && |p.used| == |p.rc|
    && (forall f :: 0 <= f < |p.used| && p.rc[f] > 0 ==> p.used[f])
  }

  ghost function Clear(used: seq<bool>): set<int> {
    set f | 0 <= f < |used| && !used[f]
  }

  /** The frame `alloc_frame` must choose: frame 0 is never considered. */
  ghost predicate LowestClear(p: Frames, f: int) {
    && 1 <= f < |p.used|
    && !p.used[f]
    && forall g :: 1 <= g < f ==> p.used[g]
  }

  function AllocAt(p: Frames, f: int): Frames
    requires 0 <= f < |p.used| == |p.rc|
  {
    Frames(p.used[f := true], p.rc[f := 1])
  }

  function FreeAt(p: Frames, f: int): Frames
    requires 0 <= f < |p.used| == |p.rc|
  {
    Frames(p.used[f := false], p.rc[f := 0])
  }

  function IncrefAt(p: Frames, f: int): Frames
    requires 0 <= f < |p.used| == |p.rc|
  {
    p.(rc := p.rc[f := if p.rc[f] < 255 then p.rc[f] + 1 else 255])
  }

  function DecrefAt(p: Frames, f: int): Frames
    requires 0 <= f < |p.used| == |p.rc|
    requires p.rc[f] > 0
  {
    if p.rc[f] == 1 then FreeAt(p, f) else p.(rc := p.rc[f := p.rc[f] - 1])
  }

  lemma TakeFrame(used: seq<bool>, f: int)
    requires 0 <= f < |used|
    ensures Clear(used[f := true]) == Clear(used) - {f}
    ensures !used[f] ==> |Clear(used[f := true])| == |Clear(used)| - 1
  {
    assert Clear(used[f := true]) == Clear(used) - {f};
    if !used[f] {
      assert f in Clear(used);
    }
  }

  lemma GiveFrame(used: seq<bool>, f: int)
    requires 0 <= f < |used|
    ensures Clear(used[f := false]) == Clear(used) + {f}
    ensures used[f] ==> |Clear(used[f := false])| == |Clear(used)| + 1
  {
    assert Clear(used[f := false]) == Clear(used) + {f};
    if used[f] {
      assert f !in Clear(used);
    }
  }

  /** Freeing undoes allocating, exactly. */
  lemma FreeUndoesAlloc(p: Frames, f: int)
    requires Consistent(p) && 0 <= f < |p.used| && !p.used[f]
    ensures FreeAt(AllocAt(p, f), f) == p
  {
    assert p.used[f := true][f := false] == p.used;
    assert p.rc[f := 1][f := 0] == p.rc;
  }

  /** Dropping a reference undoes taking one if and only if the count was not saturated. */
  lemma DecrefUndoesIncref(p: Frames, f: int)
    requires Consistent(p) && p.Has(f) && p.rc[f] > 0
    ensures DecrefAt(IncrefAt(p, f), f) == p <==> p.rc[f] < 255
  {
    var q := IncrefAt(p, f);
    if p.rc[f] < 255 {
      assert q.rc[f := q.rc[f] - 1] == p.rc;
    } else {
      assert DecrefAt(q, f).rc[f] == 254;
    }
  }

  // ---------------------------------------------------------------- bits and bytes

  function Mask(k: int): bv8
    requires 0 <= k < 8
  {
    if k == 0 then 1 else if k == 1 then 2 else if k == 2 then 4 else if k == 3 then 8
    else if k == 4 then 16 else if k == 5 then 32 else if k == 6 then 64 else 128
  }

  /** Frame f is bit f % 8 of byte f / 8, the lowest bit first. */
  lemma MaskIs(k: int)
    requires 0 <= k < 8
    ensures Mask(k) == 1 << k
  {
  }

  predicate BitAt(bm: seq<bv8>, i: int)
    requires 0 <= i < 8 * |bm|
  {
    bm[i / 8] & Mask(i % 8) != 0
  }

  lemma MaskSet(b: bv8, j: int, k: int)
    requires 0 <= j < 8 && 0 <= k < 8
    ensures ((b | Mask(j)) & Mask(k) != 0) == (j == k || b & Mask(k) != 0)
  {
  }

  lemma MaskClear(b: bv8, j: int, k: int)
    requires 0 <= j < 8 && 0 <= k < 8
    ensures ((b & !Mask(j)) & Mask(k) != 0) == (j != k && b & Mask(k) != 0)
  {
  }

  function SetBit(bm: seq<bv8>, i: int): seq<bv8>
    requires 0 <= i < 8 * |bm|
  {
    bm[i / 8 := bm[i / 8] | Mask(i % 8)]
  }

  function ClearBit(bm: seq<bv8>, i: int): seq<bv8>
    requires 0 <= i < 8 * |bm|
  {
    bm[i / 8 := bm[i / 8] & !Mask(i % 8)]
  }

  lemma FullByte(k: int)
    requires 0 <= k < 8
    ensures 0xFF & Mask(k) != 0
  {
  }

  lemma SetBitAt(bm: seq<bv8>, i: int, k: int)
    requires 0 <= i < 8 * |bm| && 0 <= k < 8 * |bm|
    ensures BitAt(SetBit(bm, i), k) == (k == i || BitAt(bm, k))
  {
    if k / 8 == i / 8 {
      MaskSet(bm[i / 8], i % 8, k % 8);
    }
  }

  lemma ClearBitAt(bm: seq<bv8>, i: int, k: int)
    requires 0 <= i < 8 * |bm| && 0 <= k < 8 * |bm|
    ensures BitAt(ClearBit(bm, i), k) == (k != i && BitAt(bm, k))
  {
    if k / 8 == i / 8 {
      MaskClear(bm[i / 8], i % 8, k % 8);
    }
  }

  // ---------------------------------------------------------------- the firmware memory map

  datatype Region = Region(start: nat, length: nat, usable: bool)

  function FirstFrame(r: Region): nat {
    r.start / PAGE_SIZE
  }

  function EndFrame(r: Region): nat {
    (r.start + r.length + PAGE_SIZE - 1) / PAGE_SIZE
  }

  /** Frame f overlaps the address range. */
  predicate InRegion(physStart: nat, physEnd: nat, f: int) {
    physStart / PAGE_SIZE <= f < (physEnd + PAGE_SIZE - 1) / PAGE_SIZE
  }

  ghost function Range(lo: int, hi: int): (s: set<int>)
    decreases hi - lo
  {
    if lo < hi then Range(lo, hi - 1) + {hi - 1} else {}
  }

  ghost predicate FreedRange(used: seq<bool>, used': seq<bool>, lo: int, hi: int) {
    && |used'| == |used|
    && forall f :: 0 <= f < |used| ==> used'[f] == (used[f] && !(lo <= f < hi))
  }

  lemma FreedRangeClears(used: seq<bool>, used': seq<bool>, lo: int, hi: int)
    requires FreedRange(used, used', lo, hi) && 0 <= lo && hi <= |used|
    ensures Clear(used') == Clear(used) + Range(lo, hi)
  {
    forall f ensures f in Clear(used') <==> f in Clear(used) + Range(lo, hi) {
      RangeMember(lo, hi, f);
    }
  }

  lemma {:induction false} RangeMember(lo: int, hi: int, f: int)
    ensures f in Range(lo, hi) <==> lo <= f < hi
    decreases hi - lo
  {
    if lo < hi {
      RangeMember(lo, hi - 1, f);
    }
  }

  lemma {:induction false} RangeSize(lo: int, hi: int)
    ensures |Range(lo, hi)| == if lo < hi then hi - lo else 0
    decreases hi - lo
  {
    if lo < hi {
      RangeSize(lo, hi - 1);
      RangeMember(lo, hi - 1, hi - 1);
    }
  }

  /** The tracked frames a usable region touches, partial first and last pages included. */
  ghost function Cover(r: Region, total: nat): set<int> {
    if r.usable then Range(FirstFrame(r), if EndFrame(r) < total then EndFrame(r) else total) else {}
  }

  ghost function CoverAll(rs: seq<Region>, total: nat): set<int> {
    if rs == [] then {} else CoverAll(rs[..|rs| - 1], total) + Cover(rs[|rs| - 1], total)
  }

  ghost function CoverSum(rs: seq<Region>, total: nat): nat {
    if rs == [] then 0 else CoverSum(rs[..|rs| - 1], total) + |Cover(rs[|rs| - 1], total)|
  }

  ghost predicate NoFrameTwice(rs: seq<Region>, total: nat) {
    forall i, j :: 0 <= i < j < |rs| ==> Cover(rs[i], total) !! Cover(rs[j], total)
  }

  /** Some byte of the address range lies in frame f. */
  ghost predicate Touches(lo: nat, hi: nat, f: int) {
    exists a :: InFrame(a, f) && lo <= a < hi
  }

  ghost predicate InFrame(a: int, f: int) {
    f * 4096 <= a < f * 4096 + 4096
  }

  lemma TouchedIff(lo: nat, hi: nat, f: int)
    requires lo < hi
    ensures Touches(lo, hi, f) <==> InRegion(lo, hi, f)
  {
    if Touches(lo, hi, f) {
      var a :| InFrame(a, f) && lo <= a < hi;
      assert lo / 4096 <= f < (hi + 4095) / 4096;
    }
    if InRegion(lo, hi, f) {
      assert InFrame(if lo >= f * 4096 then lo else f * 4096, f);
    }
  }

  /** A usable region covers the frames that hold a byte of it; one without bytes covers the
      frame its start cuts. */
  lemma CoverIff(r: Region, total: nat, f: int)
    ensures f in Cover(r, total) <==>
      r.usable && f < total &&
      (Touches(r.start, r.start + r.length, f) || (r.length == 0 && r.start % 4096 > 0 && InFrame(r.start, f)))
  {
    RangeMember(FirstFrame(r), if EndFrame(r) < total then EndFrame(r) else total, f);
    if r.length > 0 {
      TouchedIff(r.start, r.start + r.length, f);
    }
  }

  lemma UnionSize(a: set<int>, b: set<int>)
    ensures |a + b| <= |a| + |b|
    ensures |a + b| == |a| + |b| <==> a !! b
  {
    assert a + b == a + (b - a);
    assert b == (b - a) + (b * a);
    assert a * b == b * a;
    if a !! b {
      assert b * a == {};
    } else {
      assert b * a != {};
    }
  }

  lemma {:induction false} DisjointFromAll(rs: seq<Region>, total: nat, c: set<int>)
    ensures CoverAll(rs, total) !! c <==> forall i :: 0 <= i < |rs| ==> Cover(rs[i], total) !! c
  {
    if rs != [] {
      var n := |rs| - 1;
      DisjointFromAll(rs[..n], total, c);
      assert forall i :: 0 <= i < n ==> rs[..n][i] == rs[i];
    }
  }

  lemma NoFrameTwiceStep(rs: seq<Region>, total: nat)
    requires rs != []
    ensures NoFrameTwice(rs, total)
            <==> NoFrameTwice(rs[..|rs| - 1], total) && CoverAll(rs[..|rs| - 1], total) !! Cover(rs[|rs| - 1], total)
  {
    var n := |rs| - 1;
    DisjointFromAll(rs[..n], total, Cover(rs[n], total));
    assert forall i :: 0 <= i < n ==> rs[..n][i] == rs[i];
  }

  /** Counting a frame once per region that touches it is exact if and only if
      no two usable regions touch the same frame. */
  lemma {:induction false} SumIsSizeIff(rs: seq<Region>, total: nat)
    ensures CoverSum(rs, total) >= |CoverAll(rs, total)|
    ensures CoverSum(rs, total) == |CoverAll(rs, total)| <==> NoFrameTwice(rs, total)
  {
    if rs != [] {
      var n := |rs| - 1;
      SumIsSizeIff(rs[..n], total);
      UnionSize(CoverAll(rs[..n], total), Cover(rs[n], total));
      NoFrameTwiceStep(rs, total);
    }
  }

  /** Two regions that meet in the middle of frame 1: two frames, counted as three. */
  lemma SharedFrameCountedTwice()
    ensures var rs := [Region(0, 0x1800, true), Region(0x1800, 0x400, true)];
      CoverAll(rs, 2) == {0, 1} && CoverSum(rs, 2) == 3
  {
    hide Cover;
    MeetInFrameOne();
    CoverTwo(Region(0, 0x1800, true), Region(0x1800, 0x400, true), 2);
  }

  lemma MeetInFrameOne()
    ensures Cover(Region(0, 0x1800, true), 2) == {0, 1} && Cover(Region(0x1800, 0x400, true), 2) == {1}
  {
  }

  lemma CoverOne(r: Region, total: nat)
    ensures CoverAll([r], total) == Cover(r, total) && CoverSum([r], total) == |Cover(r, total)|
  {
    hide Cover;
    assert [r][..0] == [];
  }

  lemma CoverTwo(r: Region, q: Region, total: nat)
    ensures CoverAll([r, q], total) == Cover(r, total) + Cover(q, total)
    ensures CoverSum([r, q], total) == |Cover(r, total)| + |Cover(q, total)|
  {
    hide Cover;
    assert [r, q][..1] == [r];
    CoverOne(r, total);
  }

  lemma Uncounted(p: Frames)
    requires |p.used| == |p.rc| && forall f :: 0 <= f < |p.rc| ==> p.rc[f] == 0
    ensures Consistent(p)
  {
  }

  /** Enough frames to reach the end of every region and no more, up to the tracked maximum. */
  ghost predicate IsFrameCount(rs: seq<Region>, total: nat) {
    && total <= MAX_FRAMES
    && (forall r :: r in rs ==> EndFrame(r) <= total || total == MAX_FRAMES)
    && (0 < total < MAX_FRAMES ==> exists r :: r in rs && EndFrame(r) == total)
  }

  method CountFrames(regions: seq<Region>) returns (total: nat)
    ensures IsFrameCount(regions, total)
  {
    var maxAddr := 0;
    ghost var highest := Region(0, 0, false);
    for k := 0 to |regions|
      invariant forall r :: r in regions[..k] ==> r.start + r.length <= maxAddr
      invariant maxAddr > 0 ==> highest in regions && highest.start + highest.length == maxAddr
    {
      var end := regions[k].start + regions[k].length;
      if end > maxAddr {
        maxAddr := end;
        highest := regions[k];
      }
    }
    assert regions[..|regions|] == regions;
    total := (maxAddr + PAGE_SIZE - 1) / PAGE_SIZE;
    assert total > 0 ==> EndFrame(highest) == total;
    if total > MAX_FRAMES {
      total := MAX_FRAMES;
    }
  }

  // ---------------------------------------------------------------- the allocator object

  class FrameAllocator {
    const bitmap: array<bv8>
    const refcounts: array<u8>
    var totalFrames: nat
    var freeFrames: nat
    /** What the bytes of the bitmap say, bit by bit. */
    ghost var bits: seq<bool>

    /** The statics before `init`: zeroed, and tracking no frame. */
    constructor ()
      ensures bitmap.Length == BITMAP_SIZE && refcounts.Length == MAX_FRAMES
      ensures forall f :: 0 <= f < MAX_FRAMES ==> refcounts[f] == 0
      ensures totalFrames == 0 && freeFrames == 0
      ensures fresh(bitmap) && fresh(refcounts)
    {
      bitmap := new bv8[BITMAP_SIZE](_ => 0);
      refcounts := new u8[MAX_FRAMES](_ => 0);
      totalFrames, freeFrames, bits := 0, 0, [];
    }

    ghost predicate Shape()
      reads this, bitmap
    {
      && bitmap.Length == BITMAP_SIZE
      && refcounts.Length == MAX_FRAMES
      && totalFrames <= MAX_FRAMES == |bits|
      && (forall i {:trigger BitAt(bitmap[..], i)} :: 0 <= i < MAX_FRAMES ==> BitAt(bitmap[..], i) == bits[i])
    }

    ghost function State(): (p: Frames)
      requires Shape()
      reads this, bitmap, refcounts
      ensures |p.used| == |p.rc| == totalFrames
    {
      Frames(bits[..totalFrames], refcounts[..totalFrames])
    }

    /** FREE_FRAMES is exact and a counted frame is never marked free. */
    ghost predicate Valid()
      reads this, bitmap, refcounts
    {
      && Shape()
      && Consistent(State())
      && freeFrames == |Clear(State().used)|
    }

    method BitmapSet(index: nat)
      requires Shape() && index < totalFrames
      modifies bitmap, this`bits
      ensures Shape() && bits == old(bits)[index := true]
    {
      ghost var before := bitmap[..];
      bitmap[index / 8] := bitmap[index / 8] | Mask(index % 8);
      bits := bits[index := true];
      assert bitmap[..] == SetBit(before, index);
      forall k | 0 <= k < MAX_FRAMES ensures BitAt(bitmap[..], k) == bits[k] {
        SetBitAt(before, index, k);
      }
    }

    method BitmapClear(index: nat)
      requires Shape() && index < totalFrames
      modifies bitmap, this`bits
      ensures Shape() && bits == old(bits)[index := false]
    {
      ghost var before := bitmap[..];
      bitmap[index / 8] := bitmap[index / 8] & !Mask(index % 8);
      bits := bits[index := false];
      assert bitmap[..] == ClearBit(before, index);
      forall k | 0 <= k < MAX_FRAMES ensures BitAt(bitmap[..], k) == bits[k] {
        ClearBitAt(before, index, k);
      }
    }

    method BitmapTest(index: nat) returns (b: bool)
      requires Shape() && index < totalFrames
      ensures b == bits[index]
    {
      assert BitAt(bitmap[..], index) == bits[index];
      b := bitmap[index / 8] & Mask(index % 8) != 0;
    }

    /** Set a clear bit and count it. */
    method TakeClear(index: nat)
      requires Shape() && index < totalFrames && !bits[index]
      requires freeFrames > 0
      modifies bitmap, this`bits, this`freeFrames
      ensures Shape() && freeFrames == old(freeFrames) - 1
      ensures State() == old(State()).(used := old(State()).used[index := true])
      ensures Clear(State().used) == old(Clear(State().used)) - {index}
      ensures |Clear(State().used)| == old(|Clear(State().used)|) - 1
    {
      ghost var used := State().used;
      TakeFrame(used, index);
      BitmapSet(index);
      assert State().used == used[index := true];
      freeFrames := freeFrames - 1;
    }

    /** Boot: mark everything used, free what the firmware calls usable, reserve frame 0.
        The free counter comes out exact if and only if no two usable regions share a frame. */
    method Init(regions: seq<Region>)
      requires bitmap.Length == BITMAP_SIZE && refcounts.Length == MAX_FRAMES
      requires forall f :: 0 <= f < MAX_FRAMES ==> refcounts[f] == 0
      modifies this, bitmap
      ensures Shape()
      ensures IsFrameCount(regions, totalFrames)
      ensures Clear(State().used) == CoverAll(regions, totalFrames) - {0}
      ensures Valid() <==> NoFrameTwice(regions, totalFrames)
    {
      totalFrames := CountFrames(regions);
      FillUsed();
      freeFrames := 0;
      FreeUsable(regions);
      ReserveFrameZero(regions);
    }

    method FreeUsable(regions: seq<Region>)
      requires Shape() && Clear(State().used) == {} && freeFrames == 0
      modifies this`freeFrames, this`bits, bitmap
      ensures Shape()
      ensures Clear(State().used) == CoverAll(regions, totalFrames)
      ensures freeFrames == CoverSum(regions, totalFrames)
    {
      for k := 0 to |regions|
        invariant Shape()
        invariant Clear(State().used) == CoverAll(regions[..k], totalFrames)
        invariant freeFrames == CoverSum(regions[..k], totalFrames)
      {
        assert regions[..k + 1][..k] == regions[..k];
        if regions[k].usable {
          ghost var used := State().used;
          FreeRange(FirstFrame(regions[k]), EndFrame(regions[k]));
          FreedRangeClears(used, State().used, FirstFrame(regions[k]),
                           if EndFrame(regions[k]) < totalFrames then EndFrame(regions[k]) else totalFrames);
        }
      }
      assert regions[..|regions|] == regions;
    }

    method FillUsed()
      requires bitmap.Length == BITMAP_SIZE && refcounts.Length == MAX_FRAMES && totalFrames <= MAX_FRAMES
      modifies bitmap, this`bits
      ensures Shape()
      ensures Clear(State().used) == {}
    {
      for b := 0 to BITMAP_SIZE
        invariant forall j :: 0 <= j < b ==> bitmap[j] == 0xFF
      {
        bitmap[b] := 0xFF;
      }
      bits := seq(MAX_FRAMES, _ => true);
      forall f | 0 <= f < MAX_FRAMES ensures BitAt(bitmap[..], f) {
        FullByte(f % 8);
      }
    }

    method FreeRange(lo: nat, hi: nat)
      requires Shape()
      modifies this`freeFrames, this`bits, bitmap
      ensures Shape()
      ensures FreedRange(old(State().used), State().used, lo, if hi < totalFrames then hi else totalFrames)
      ensures freeFrames == old(freeFrames) + |Range(lo, if hi < totalFrames then hi else totalFrames)|
    {
      var end := if hi < totalFrames then hi else totalFrames;
      var f := lo;
      while f < end
        invariant lo <= f && (f <= end || f == lo) && Shape()
        invariant FreedRange(old(State().used), State().used, lo, f)
        invariant freeFrames == old(freeFrames) + (f - lo)
      {
        BitmapClear(f);
        freeFrames := freeFrames + 1;
        f := f + 1;
      }
      RangeSize(lo, end);
    }

    method ReserveFrameZero(ghost regions: seq<Region>)
      requires Shape()
      requires forall f :: 0 <= f < MAX_FRAMES ==> refcounts[f] == 0
      requires Clear(State().used) == CoverAll(regions, totalFrames)
      requires freeFrames == CoverSum(regions, totalFrames)
      modifies this`freeFrames, this`bits, bitmap
      ensures Shape()
      ensures Clear(State().used) == CoverAll(regions, totalFrames) - {0}
      ensures Valid() <==> NoFrameTwice(regions, totalFrames)
    {
      hide NoFrameTwice, Consistent;
      SumIsSizeIff(regions, totalFrames);
      if totalFrames > 0 {
        var used := BitmapTest(0);
        if !used {
          assert 0 in Clear(State().used);
          TakeClear(0);
        }
      }
      Uncounted(State());
    }

    method MarkUsed(frame: nat)
      requires Valid()
      modifies this`freeFrames, this`bits, bitmap
      ensures Valid()
      ensures State() == if frame < totalFrames then old(State()).(used := old(State()).used[frame := true])
                         else old(State())
    {
      if frame < totalFrames {
        var used := BitmapTest(frame);
        if used {
          assert State().used == State().used[frame := true];
        } else {
          assert frame in Clear(State().used);
          TakeClear(frame);
        }
      }
    }

    /** Reserve the frames of an address range. */
    method MarkRegionUsed(physStart: nat, physEnd: nat)
      requires Valid()
      modifies this`freeFrames, this`bits, bitmap
      ensures Valid()
      ensures State().rc == old(State().rc)
      ensures forall f :: 0 <= f < totalFrames ==>
                State().used[f] == (old(State().used)[f] || InRegion(physStart, physEnd, f))
    {
      var endFrame := (physEnd + PAGE_SIZE - 1) / PAGE_SIZE;
      var frame := physStart / PAGE_SIZE;
      ghost var start, used := frame, State().used;
      while frame < endFrame
        invariant start <= frame && (frame <= endFrame || frame == start)
        invariant Valid() && State().rc == old(State().rc)
        invariant forall f :: 0 <= f < totalFrames ==> State().used[f] == (used[f] || start <= f < frame)
      {
        MarkUsed(frame);
        frame := frame + 1;
      }
    }

    /** Linear scan from frame 1. */
    method AllocFrame() returns (r: Option<nat>)
      requires Valid()
      modifies this`freeFrames, this`bits, bitmap, refcounts
      ensures Valid()
      ensures r.None? ==> State() == old(State()) && forall f :: 1 <= f < totalFrames ==> State().used[f]
      ensures r.Some? ==> LowestClear(old(State()), r.value) && State() == AllocAt(old(State()), r.value)
    {
      var index := 1;
      while index < totalFrames
        invariant 1 <= index && Valid()
        invariant State() == old(State()) && freeFrames == old(freeFrames)
        invariant forall f :: 1 <= f < index && f < totalFrames ==> State().used[f]
      {
        var used := BitmapTest(index);
        if !used {
          Claim(index);
          return Some(index);
        }
        index := index + 1;
      }
      return None;
    }

    /** A clear frame becomes used, with one reference. */
    method Claim(index: nat)
      requires Valid() && index < totalFrames && !State().used[index]
      modifies this`freeFrames, this`bits, bitmap, refcounts
      ensures Valid() && State() == AllocAt(old(State()), index)
    {
      ghost var p := State();
      assert index in Clear(p.used);
      TakeClear(index);
      refcounts[index] := 1;
      assert State() == AllocAt(p, index);
    }

    /** The four requirements are the four checks whose failure panics the kernel. */
    method FreeFrame(index: nat)
      requires Valid()
      requires index != 0 && index < totalFrames
      requires State().used[index]
      requires State().rc[index] == 1
      modifies this`freeFrames, this`bits, bitmap, refcounts
      ensures Valid()
      ensures State() == FreeAt(old(State()), index)
    {
      BitmapClear(index);
      refcounts[index] := 0;
      assert State() == FreeAt(old(State()), index);
      GiveFrame(old(State()).used, index);
      freeFrames := freeFrames + 1;
    }

    method Incref(index: nat)
      requires Valid()
      requires index < totalFrames
      requires State().used[index]
      modifies refcounts
      ensures Valid()
      ensures State() == IncrefAt(old(State()), index)
    {
      var before := refcounts[index];
      if before < 255 {
        refcounts[index] := before + 1;
      }
      assert State() == IncrefAt(old(State()), index);
    }

    method Decref(index: nat)
      requires Valid()
      requires index < totalFrames
      requires State().used[index]
      requires State().rc[index] > 0
      modifies this`freeFrames, this`bits, bitmap, refcounts
      ensures Valid()
      ensures State() == DecrefAt(old(State()), index)
    {
      ghost var p := State();
      refcounts[index] := refcounts[index] - 1;
      assert State() == p.(rc := p.rc[index := p.rc[index] - 1]);
      if refcounts[index] == 0 {
        BitmapClear(index);
        GiveFrame(p.used, index);
        freeFrames := freeFrames + 1;
      }
    }

    method GetRefcount(index: nat) returns (n: u8)
      requires Shape() && index < totalFrames
      ensures n == State().rc[index]
    {
      n := refcounts[index];
    }
  }
}
