/** All live address spaces together: the invariant that makes reference counts exact and
    writable pages private, and the memory each process sees. */
module Spaces {
  import opened Wrappers
  import opened PageTables
  import Pmm

  /** Slot a of `spaces` holds the PML4 frame of a live address space: the process table's
      32 slots followed by the 8 deferred-free slots. */
  datatype State = State(mem: Memory, pm: Pmm.Frames, spaces: seq<Option<FrameNo>>) {
    predicate Live(a: int) {
      0 <= a < |spaces| && spaces[a].Some?
    }
  }

  ghost function Tree(s: State, a: nat): Table
    requires s.Live(a)
  {
    TableAt(s.mem, 4, s.spaces[a].value)
  }

  /** The frames of a space's tables. */
  ghost function TableFrames(s: State, a: nat): set<FrameNo> {
    if s.Live(a) then Frames(Tree(s, a)) else {}
  }

  ghost predicate Sound(s: State, a: nat) {
    s.Live(a) ==> Separated(Tree(s, a))
  }

  /** How many pages of a space map frame f. */
  ghost function Refs(s: State, a: nat, f: FrameNo): nat {
    if s.Live(a) then Count(Tree(s, a), f) else 0
  }

  /** The leaf entry of page v in a space. */
  ghost function PageAt(s: State, a: nat, v: Page): Option<Word> {
    if s.Live(a) then Lookup(Tree(s, a), 4, v) else None
  }

  /** What a process sees at page v. */
  ghost function ReadPage(s: State, a: nat, v: Page): Option<Frame> {
    match PageAt(s, a, v)
    case None => None
    case Some(w) => Some(s.mem[w.frame])
  }

  // ---------------------------------------------------------------- references across spaces

  ghost function TotalTo(s: State, n: nat, f: FrameNo): nat {
    if n == 0 then 0 else TotalTo(s, n - 1, f) + Refs(s, n - 1, f)
  }

  /** How many pages of all live spaces map frame f. */
  ghost function Total(s: State, f: FrameNo): nat {
    TotalTo(s, |s.spaces|, f)
  }

  lemma {:induction false} TotalToSame(s: State, s': State, n: nat, f: FrameNo)
    requires forall b :: 0 <= b < n ==> Refs(s', b, f) == Refs(s, b, f)
    ensures TotalTo(s', n, f) == TotalTo(s, n, f)
  {
    if n > 0 {
      TotalToSame(s, s', n - 1, f);
    }
  }

  lemma {:induction false} TotalToChange(s: State, s': State, n: nat, a: nat, f: FrameNo)
    requires a < n
    requires forall b :: 0 <= b < n && b != a ==> Refs(s', b, f) == Refs(s, b, f)
    ensures TotalTo(s', n, f) + Refs(s, a, f) == TotalTo(s, n, f) + Refs(s', a, f)
  {
    if a < n - 1 {
      TotalToChange(s, s', n - 1, a, f);
    } else {
      TotalToSame(s, s', n - 1, f);
    }
  }

  lemma {:induction false} TotalToAtLeast(s: State, n: nat, a: nat, f: FrameNo)
    requires a < n
    ensures Refs(s, a, f) <= TotalTo(s, n, f)
  {
    if a < n - 1 {
      TotalToAtLeast(s, n - 1, a, f);
    }
  }

  lemma {:induction false} TotalToAtLeastTwo(s: State, n: nat, a: nat, b: nat, f: FrameNo)
    requires a < b < n
    ensures Refs(s, a, f) + Refs(s, b, f) <= TotalTo(s, n, f)
  {
    if b < n - 1 {
      TotalToAtLeastTwo(s, n - 1, a, b, f);
    } else {
      TotalToAtLeast(s, n - 1, a, f);
    }
  }

  lemma {:induction false} TotalToAtMost(s: State, n: nat, f: FrameNo)
    requires forall a :: 0 <= a < n ==> Refs(s, a, f) <= 1
    ensures TotalTo(s, n, f) <= n
  {
    if n > 0 {
      TotalToAtMost(s, n - 1, f);
    }
  }

  /** Only slot a's references changed. */
  lemma TotalChange(s: State, s': State, a: nat, f: FrameNo)
    requires |s'.spaces| == |s.spaces| && a < |s.spaces|
    requires forall b :: 0 <= b < |s.spaces| && b != a ==> Refs(s', b, f) == Refs(s, b, f)
    ensures Total(s', f) + Refs(s, a, f) == Total(s, f) + Refs(s', a, f)
  {
    TotalToChange(s, s', |s.spaces|, a, f);
  }

  lemma TotalSame(s: State, s': State, f: FrameNo)
    requires |s'.spaces| == |s.spaces|
    requires forall b :: 0 <= b < |s.spaces| ==> Refs(s', b, f) == Refs(s, b, f)
    ensures Total(s', f) == Total(s, f)
  {
    TotalToSame(s, s', |s.spaces|, f);
  }

  lemma TotalAtLeast(s: State, a: nat, f: FrameNo)
    ensures Refs(s, a, f) <= Total(s, f)
  {
    if a < |s.spaces| {
      TotalToAtLeast(s, |s.spaces|, a, f);
    }
  }

  lemma TotalAtLeastTwo(s: State, a: nat, b: nat, f: FrameNo)
    requires a != b
    ensures Refs(s, a, f) + Refs(s, b, f) <= Total(s, f)
  {
    TotalAtLeast(s, a, f);
    TotalAtLeast(s, b, f);
    if a < |s.spaces| && b < |s.spaces| {
      if a < b {
        TotalToAtLeastTwo(s, |s.spaces|, a, b, f);
      } else {
        TotalToAtLeastTwo(s, |s.spaces|, b, a, f);
      }
    }
  }

  // ---------------------------------------------------------------- the invariant

  /** The tables of a space are allocated, held once, and reached once. */
  ghost predicate TablesOk(s: State) {
    && (forall a: nat :: Sound(s, a))
    && (forall a: nat, f: FrameNo {:trigger f in TableFrames(s, a)} :: f in TableFrames(s, a) ==>
          f != 0 && s.pm.Has(f) && s.pm.rc[f] == 1)
    && (forall a: nat, b: nat :: a != b ==> TableFrames(s, a) !! TableFrames(s, b))
  }

  /** A frame some page maps is counted once per page that maps it, and is no table. */
  ghost predicate CountsOk(s: State) {
    && (forall f: FrameNo :: Total(s, f) > 0 ==> s.pm.Has(f) && s.pm.rc[f] == Total(s, f))
    && (forall a: nat, f: FrameNo {:trigger f in TableFrames(s, a)} :: f in TableFrames(s, a) ==> Total(s, f) == 0)
    && (forall a: nat, f: FrameNo :: Refs(s, a, f) <= 1)
  }

  /** A page that can be written without a fault is on a frame of its own. */
  ghost predicate WritesPrivate(s: State) {
    forall a: nat, v :: PageAt(s, a, v).Some? && PageAt(s, a, v).value.writable ==>
      Total(s, PageAt(s, a, v).value.frame) == 1
  }

  ghost predicate Inv(s: State) {
    && Pmm.Consistent(s.pm) && |s.pm.used| <= FRAME_LIMIT
    && TablesOk(s)
    && CountsOk(s)
    && WritesPrivate(s)
  }

  // ---------------------------------------------------------------- first consequences

  lemma PageCounts(s: State, a: nat, v: Page)
    requires PageAt(s, a, v).Some?
    ensures Refs(s, a, PageAt(s, a, v).value.frame) >= 1
    ensures PageAt(s, a, v).value.present && s.Live(a)
  {
    LookupCounts(Tree(s, a), 4, v);
    TableAtShaped(s.mem, 4, s.spaces[a].value);
    LookupPresent(Tree(s, a), 4, v);
  }

  /** A mapped page's frame is allocated, counted, and not the frame of any table. */
  lemma MappedFrame(s: State, a: nat, v: Page)
    requires CountsOk(s) && PageAt(s, a, v).Some?
    ensures var f := PageAt(s, a, v).value.frame;
            && s.pm.Has(f) && s.pm.rc[f] == Total(s, f) >= 1
            && forall b: nat :: f !in TableFrames(s, b)
  {
    var f := PageAt(s, a, v).value.frame;
    PageCounts(s, a, v);
    TotalAtLeast(s, a, f);
  }

  lemma SamePage(v: Page, u: Page)
    requires forall l :: 1 <= l <= 4 ==> Index(v, l) == Index(u, l)
    ensures v == u
  {
    assert Index(v, 1) == Index(u, 1) && Index(v, 2) == Index(u, 2) && Index(v, 3) == Index(u, 3)
           && Index(v, 4) == Index(u, 4);
  }

  lemma PageCountsTwice(s: State, a: nat, v: Page, u: Page)
    requires v != u && PageAt(s, a, v).Some? && PageAt(s, a, u).Some?
    requires PageAt(s, a, v).value.frame == PageAt(s, a, u).value.frame
    ensures Refs(s, a, PageAt(s, a, v).value.frame) >= 2
  {
    TableAtShaped(s.mem, 4, s.spaces[a].value);
    if forall l :: 1 <= l <= 4 ==> Index(v, l) == Index(u, l) {
      SamePage(v, u);
    } else {
      LookupCountsTwice(Tree(s, a), 4, v, u);
    }
  }

  /** A frame counted once is mapped by one page of one space. */
  lemma SoleMapping(s: State, a: nat, v: Page, b: nat, u: Page)
    requires PageAt(s, a, v).Some? && PageAt(s, b, u).Some?
    requires PageAt(s, a, v).value.frame == PageAt(s, b, u).value.frame
    requires Total(s, PageAt(s, a, v).value.frame) == 1
    ensures a == b && v == u
  {
    var f := PageAt(s, a, v).value.frame;
    PageCounts(s, a, v);
    PageCounts(s, b, u);
    if a != b {
      TotalAtLeastTwo(s, a, b, f);
    } else if v != u {
      TotalAtLeast(s, a, f);
      PageCountsTwice(s, a, v, u);
    }
  }

  /** Every frame space a maps can be counted once more. */
  ghost predicate Countable(s: State, a: nat) {
    forall f: FrameNo :: Refs(s, a, f) > 0 && s.pm.Has(f) ==> s.pm.rc[f] < 255
  }

  /** While there are no more than 255 spaces, every one is. */
  lemma FewSpacesCountable(s: State, a: nat, b: nat)
    requires CountsOk(s) && b < |s.spaces| <= 255 && !s.Live(b)
    ensures Countable(s, a)
  {
    hide CountsOk;
    forall f: FrameNo | Refs(s, a, f) > 0 && s.pm.Has(f)
      ensures s.pm.rc[f] < 255
    {
      CountBound(s, b, f);
      CountedRight(s, a, f);
    }
  }

  lemma CountedRight(s: State, a: nat, f: FrameNo)
    requires CountsOk(s) && Refs(s, a, f) > 0
    ensures s.pm.Has(f) && s.pm.rc[f] == Total(s, f) >= 1
  {
    TotalAtLeast(s, a, f);
  }

  /** At most one reference per live space. */
  lemma CountBound(s: State, b: nat, f: FrameNo)
    requires CountsOk(s) && b < |s.spaces| && !s.Live(b)
    ensures Total(s, f) <= |s.spaces| - 1
  {
    var n := |s.spaces|;
    TotalToAtMost(s, b, f);
    TailAtMost(s, b, n, f);
  }

  lemma {:induction false} TailAtMost(s: State, b: nat, n: nat, f: FrameNo)
    requires CountsOk(s) && b < n && !s.Live(b) && TotalTo(s, b, f) <= b
    ensures TotalTo(s, n, f) <= n - 1
  {
    if n > b + 1 {
      TailAtMost(s, b, n - 1, f);
      assert Refs(s, n - 1, f) <= 1;
    }
  }
}
