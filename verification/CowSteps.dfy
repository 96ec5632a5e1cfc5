/** The remaining steps of an address space's life: creation, a failed fork, a store, the two
    ways a write fault is resolved, and exit. Each keeps the invariant and changes what
    processes see exactly as private memory would. */
module CowSteps {
  import opened Wrappers
  import opened PageTables
  import opened ForkCopy
  import opened Teardown
  import opened PageUpdate
  import opened PageGraft
  import opened Spaces
  import opened ForkStep
  import Pmm

  // ---------------------------------------------------------------- steps that move no page

  ghost predicate FramesKept(s: State, s': State) {
    && Pmm.Consistent(s'.pm) && |s'.pm.used| == |s.pm.used|
    && forall f: FrameNo {:trigger s.pm.Has(f)} :: s.pm.Has(f) ==> s'.pm.Has(f) && s'.pm.rc[f] == s.pm.rc[f]
  }

  ghost predicate DataKept(s: State, s': State) {
    forall f: FrameNo {:trigger s'.mem[f]} :: Total(s, f) > 0 ==> s'.mem[f] == s.mem[f]
  }

  /** No table moves, no count changes, and whatever became writable was alone on its frame. */
  ghost predicate PagesStay(s: State, s': State) {
    && s'.spaces == s.spaces
    && FramesKept(s, s')
    && (forall c: nat :: TableFrames(s', c) == TableFrames(s, c))
    && (forall c: nat :: Sound(s', c))
    && (forall c: nat, f: FrameNo :: Refs(s', c, f) == Refs(s, c, f))
    && (forall c: nat, v :: PageAt(s', c, v).Some? == PageAt(s, c, v).Some?)
    && (forall c: nat, v :: PageAt(s, c, v).Some? ==>
          var w, w' := PageAt(s, c, v).value, PageAt(s', c, v).value;
          w'.frame == w.frame && (w'.writable ==> w.writable || Total(s, w.frame) == 1))
  }

  lemma PagesStayKeeps(s: State, s': State)
    requires Inv(s) && PagesStay(s, s')
    ensures Inv(s')
    ensures forall f: FrameNo :: Total(s', f) == Total(s, f)
  {
    hide TableFrames, Refs, PageAt, Sound, Total;
    forall f: FrameNo ensures Total(s', f) == Total(s, f) {
      TotalSame(s, s', f);
    }
  }

  lemma PagesStayView(s: State, s': State, c: nat, v: Page)
    requires CountsOk(s) && PagesStay(s, s')
    requires DataKept(s, s')
    ensures ReadPage(s', c, v) == ReadPage(s, c, v)
  {
    hide TableFrames, Refs, PageAt, Sound, Total, CountsOk;
    if PageAt(s, c, v).Some? {
      MappedFrame(s, c, v);
    }
  }

  lemma SameTree(s: State, s': State, c: nat)
    requires s'.spaces == s.spaces
    requires forall f: FrameNo {:trigger f in TableFrames(s, c)} :: f in TableFrames(s, c) ==> s'.mem[f] == s.mem[f]
    ensures TableFrames(s', c) == TableFrames(s, c)
    ensures Sound(s', c) == Sound(s, c)
    ensures forall f: FrameNo :: Refs(s', c, f) == Refs(s, c, f)
    ensures forall v :: PageAt(s', c, v) == PageAt(s, c, v)
    ensures forall v :: PathOpen(s', c, v) == PathOpen(s, c, v)
  {
    if s.Live(c) {
      forall f | f in Frames(Tree(s, c)) ensures s'.mem[f] == s.mem[f] {
        assert f in TableFrames(s, c);
      }
      TableFraming(s.mem, s'.mem, 4, s.spaces[c].value);
    }
  }

  lemma SameTreesStay(s: State, s': State)
    requires TablesOk(s) && s'.spaces == s.spaces && FramesKept(s, s')
    requires forall c: nat, f: FrameNo {:trigger f in TableFrames(s, c)} :: f in TableFrames(s, c) ==>
               s'.mem[f] == s.mem[f]
    ensures PagesStay(s, s')
  {
    hide TableFrames, Refs, PageAt, Sound, Total, FramesKept;
    forall c: nat ensures TableFrames(s', c) == TableFrames(s, c) && Sound(s', c) {
      SameTree(s, s', c);
    }
    forall c: nat, f: FrameNo ensures Refs(s', c, f) == Refs(s, c, f) {
      SameTree(s, s', c);
    }
    forall c: nat, v ensures PageAt(s', c, v) == PageAt(s, c, v) {
      SameTree(s, s', c);
    }
  }

  // ---------------------------------------------------------------- a new frame

  /** A frame was allocated and filled; nothing refers to it yet. */
  ghost predicate AllocOk(s: State, s': State, f: FrameNo) {
    && Pmm.Consistent(s.pm) && Pmm.LowestClear(s.pm, f)
    && s'.pm == Pmm.AllocAt(s.pm, f)
    && s'.spaces == s.spaces
    && MemDelta(s.mem, s'.mem, {f})
  }

  lemma AllocStays(s: State, s': State, f: FrameNo)
    requires Inv(s) && AllocOk(s, s', f)
    ensures PagesStay(s, s') && FreshFrame(s', f) && DataKept(s, s')
  {
    hide TableFrames, Refs, PageAt, Sound, Total;
    SameTreesStay(s, s');
    PagesStayKeeps(s, s');
  }

  lemma AllocKeeps(s: State, s': State, f: FrameNo)
    requires Inv(s) && AllocOk(s, s', f)
    ensures Inv(s') && FreshFrame(s', f)
    ensures forall a: nat, v :: ReadPage(s', a, v) == ReadPage(s, a, v)
  {
    hide TableFrames, Refs, PageAt, Sound, Total, ReadPage, TablesOk, CountsOk, WritesPrivate, FreshFrame, PagesStay;
    AllocStays(s, s', f);
    PagesStayKeeps(s, s');
    forall a: nat, v ensures ReadPage(s', a, v) == ReadPage(s, a, v) {
      PagesStayView(s, s', a, v);
    }
  }

  lemma AllocPath(s: State, s': State, f: FrameNo, c: nat, u: Page)
    requires Inv(s) && AllocOk(s, s', f)
    ensures PathOpen(s', c, u) == PathOpen(s, c, u)
  {
    hide TableFrames, Refs, PageAt, Sound, Total, PathOpen;
    SameTree(s, s', c);
  }

  // ---------------------------------------------------------------- a fork that ran out of frames

  ghost predicate ForkFailedOk(s: State, s': State, a: nat, child: FrameNo) {
    && s.Live(a) && FreshPml4(s, child)
    && s'.pm == s.pm && s'.spaces == s.spaces
    && ForkFailed(s.mem, s.pm, s'.mem, s.spaces[a].value, child)
  }

  lemma ForkFailedAt(s: State, s': State, a: nat, child: FrameNo, c: nat)
    requires TablesOk(s) && ForkFailedOk(s, s', a, child)
    ensures TableFrames(s', c) == TableFrames(s, c) && Sound(s', c)
    ensures forall f: FrameNo :: Refs(s', c, f) == Refs(s, c, f)
    ensures forall v :: PageAt(s', c, v).Some? == PageAt(s, c, v).Some?
    ensures forall v :: PageAt(s, c, v).Some? ==>
              var w, w' := PageAt(s, c, v).value, PageAt(s', c, v).value;
              w'.frame == w.frame && (w'.writable ==> w.writable)
  {
    assert Sound(s, c);
    if c == a {
      WeakenedKeeps(Tree(s, a), Tree(s', a));
    } else {
      assert TableFrames(s, c) !! TableFrames(s, a);
      SameTree(s, s', c);
    }
  }

  lemma ForkFailedStays(s: State, s': State, a: nat, child: FrameNo)
    requires Inv(s) && ForkFailedOk(s, s', a, child)
    ensures PagesStay(s, s') && DataKept(s, s')
  {
    hide Refs, PageAt, Sound, Total, Weakened;
    forall f: FrameNo | Total(s, f) > 0 ensures s'.mem[f] == s.mem[f] {
      assert f != child;
      assert f !in TableFrames(s, a);
    }
    forall c: nat ensures TableFrames(s', c) == TableFrames(s, c) && Sound(s', c) {
      ForkFailedAt(s, s', a, child, c);
    }
    forall c: nat, f: FrameNo ensures Refs(s', c, f) == Refs(s, c, f) {
      ForkFailedAt(s, s', a, child, c);
    }
    forall c: nat, v
      ensures PageAt(s', c, v).Some? == PageAt(s, c, v).Some?
      ensures PageAt(s, c, v).Some? ==>
                var w, w' := PageAt(s, c, v).value, PageAt(s', c, v).value;
                w'.frame == w.frame && (w'.writable ==> w.writable)
    {
      ForkFailedAt(s, s', a, child, c);
    }
  }

  /** The parent and everybody else read what they read before. The child's PML4 frame stays
      allocated: no caller gives it back. */
  lemma ForkFailedKeeps(s: State, s': State, a: nat, child: FrameNo)
    requires Inv(s) && ForkFailedOk(s, s', a, child)
    ensures Inv(s')
    ensures forall c: nat, v :: ReadPage(s', c, v) == ReadPage(s, c, v)
  {
    hide TableFrames, Refs, PageAt, Sound, Total, ReadPage, TablesOk, CountsOk, WritesPrivate, FreshPml4, PagesStay;
    ForkFailedStays(s, s', a, child);
    PagesStayKeeps(s, s');
    forall c: nat, v ensures ReadPage(s', c, v) == ReadPage(s, c, v) {
      PagesStayView(s, s', c, v);
    }
  }

  // ---------------------------------------------------------------- a store

  function Store(s: State, f: FrameNo, j: nat, w: Word): State
    requires j < 512
  {
    s.(mem := s.mem[f := s.mem[f][j := w]])
  }

  lemma StoreStays(s: State, a: nat, v: Page, j: nat, w: Word)
    requires Inv(s) && j < 512 && PageAt(s, a, v).Some?
    ensures PagesStay(s, Store(s, PageAt(s, a, v).value.frame, j, w))
  {
    hide TableFrames, Refs, PageAt, Sound, Total;
    MappedFrame(s, a, v);
    SameTreesStay(s, Store(s, PageAt(s, a, v).value.frame, j, w));
  }

  /** A store through a writable page is seen by that page of that process and by nothing else. */
  lemma StoreKeeps(s: State, s': State, a: nat, v: Page, j: nat, w: Word)
    requires Inv(s) && j < 512
    requires PageAt(s, a, v).Some? && PageAt(s, a, v).value.writable
    requires s' == Store(s, PageAt(s, a, v).value.frame, j, w)
    ensures Inv(s')
    ensures forall c: nat, u ::
              ReadPage(s', c, u) == if c == a && u == v then Some(ReadPage(s, a, v).value[j := w]) else ReadPage(s, c,
                       u)
  {
    hide TableFrames, Refs, PageAt, Sound, Total, TablesOk, CountsOk;
    StoreStays(s, a, v, j, w);
    PagesStayKeeps(s, s');
    forall c: nat, u ensures ReadPage(s', c, u) == if c == a && u == v then Some(ReadPage(s, a, v).value[j := w])
                                                   else ReadPage(s, c, u) {
      if PageAt(s, c, u).Some? && PageAt(s, c, u).value.frame == PageAt(s, a, v).value.frame {
        SoleMapping(s, a, v, c, u);
      }
    }
  }

  // ---------------------------------------------------------------- rewriting one leaf entry

  /** Page v of space a now has the entry w; nothing else about any space changed. */
  ghost predicate LeafChanged(s: State, s': State, a: nat, v: Page, w: Word) {
    && s'.spaces == s.spaces
    && PageAt(s, a, v).Some?
    && (forall c: nat :: TableFrames(s', c) == TableFrames(s, c))
    && (forall c: nat :: Sound(s', c))
    && (forall c: nat, f: FrameNo :: c != a ==> Refs(s', c, f) == Refs(s, c, f))
    && (forall f: FrameNo :: Refs(s', a, f) + (if PageAt(s, a, v).value.frame == f then 1 else 0)
                          == Refs(s, a, f) + (if w.frame == f then 1 else 0))
    && (forall c: nat, u :: PageAt(s', c, u) == if c == a && u == v then Some(w) else PageAt(s, c, u))
  }

  /** The word the walk points at was rewritten, and no other word of any table. */
  ghost predicate Poked(s: State, s': State, a: nat, v: Page, w: Word) {
    && s.Live(a) && s'.spaces == s.spaces && w.present
    && PageAt(s, a, v).Some?
    && var pt := LeafTable(Tree(s, a), 4, v);
       && s'.mem[pt] == s.mem[pt][v.i1 := w]
       && forall c: nat, f: FrameNo {:trigger f in TableFrames(s, c)} :: f in TableFrames(s, c) && f != pt ==>
            s'.mem[f] == s.mem[f]
  }

  lemma PokedSelf(s: State, s': State, a: nat, v: Page, w: Word)
    requires TablesOk(s) && Poked(s, s', a, v, w)
    ensures TableFrames(s', a) == TableFrames(s, a) && Sound(s', a)
    ensures forall u :: PageAt(s', a, u) == if u == v then Some(w) else PageAt(s, a, u)
    ensures forall f: FrameNo :: Refs(s', a, f) + (if PageAt(s, a, v).value.frame == f then 1 else 0)
                              == Refs(s, a, f) + (if w.frame == f then 1 else 0)
  {
    var t := Tree(s, a);
    assert Sound(s, a);
    assert TableFrames(s, a) == Frames(t);
    WriteLeaf(s.mem, s'.mem, 4, s.spaces[a].value, v, w);
    SetLeafFrames(t, 4, v, w);
    TableAtShaped(s.mem, 4, s.spaces[a].value);
    forall u ensures PageAt(s', a, u) == if u == v then Some(w) else PageAt(s, a, u) {
      SetLeafLookup(t, 4, v, u, w);
      if SamePath(v, u, 4) {
        SamePage(v, u);
      }
    }
    forall f: FrameNo ensures Refs(s', a, f) + (if PageAt(s, a, v).value.frame == f then 1 else 0)
                           == Refs(s, a, f) + (if w.frame == f then 1 else 0) {
      SetLeafCount(t, 4, v, w, f);
    }
  }

  lemma PokedOther(s: State, s': State, a: nat, v: Page, w: Word, c: nat)
    requires TablesOk(s) && Poked(s, s', a, v, w) && c != a
    ensures TableFrames(s', c) == TableFrames(s, c) && Sound(s', c)
    ensures forall f: FrameNo :: Refs(s', c, f) == Refs(s, c, f)
    ensures forall u :: PageAt(s', c, u) == PageAt(s, c, u)
  {
    LeafTableIn(Tree(s, a), 4, v);
    assert TableFrames(s, c) !! TableFrames(s, a);
    assert Sound(s, c);
    SameTree(s, s', c);
  }

  lemma PokedChanges(s: State, s': State, a: nat, v: Page, w: Word)
    requires TablesOk(s) && Poked(s, s', a, v, w)
    ensures LeafChanged(s, s', a, v, w)
  {
    hide TableFrames, Refs, PageAt, Sound, TablesOk, Poked;
    assert s'.spaces == s.spaces && PageAt(s, a, v).Some? by {
      PokedBasics(s, s', a, v, w);
    }
    PokedSelf(s, s', a, v, w);
    forall c: nat ensures TableFrames(s', c) == TableFrames(s, c) && Sound(s', c) {
      if c != a { PokedOther(s, s', a, v, w, c); }
    }
    forall c: nat, f: FrameNo | c != a ensures Refs(s', c, f) == Refs(s, c, f) {
      PokedOther(s, s', a, v, w, c);
    }
    forall c: nat, u ensures PageAt(s', c, u) == if c == a && u == v then Some(w) else PageAt(s, c, u) {
      if c != a { PokedOther(s, s', a, v, w, c); }
    }
  }

  lemma PokedBasics(s: State, s': State, a: nat, v: Page, w: Word)
    requires Poked(s, s', a, v, w)
    ensures s'.spaces == s.spaces && PageAt(s, a, v).Some?
  {
  }

  // ---------------------------------------------------------------- a fault on a page with one owner

  ghost predicate OwnerOk(s: State, s': State, a: nat, v: Page) {
    && PageAt(s, a, v).Some? && Total(s, PageAt(s, a, v).value.frame) == 1
    && Poked(s, s', a, v, PageAt(s, a, v).value.(writable := true))
    && s'.pm == s.pm
    && DataKept(s, s')
  }

  /** Making the page writable in place changes nothing anybody reads. */
  lemma OwnerKeeps(s: State, s': State, a: nat, v: Page)
    requires Inv(s) && OwnerOk(s, s', a, v)
    ensures Inv(s')
    ensures PageAt(s', a, v) == Some(PageAt(s, a, v).value.(writable := true))
    ensures forall c: nat, u :: ReadPage(s', c, u) == ReadPage(s, c, u)
  {
    hide TableFrames, Refs, PageAt, Sound, Total, CountsOk, WritesPrivate, TablesOk, Poked;
    PokedChanges(s, s', a, v, PageAt(s, a, v).value.(writable := true));
    assert PagesStay(s, s');
    PagesStayKeeps(s, s');
    forall c: nat, u ensures ReadPage(s', c, u) == ReadPage(s, c, u) {
      PagesStayView(s, s', c, u);
    }
  }

  // ---------------------------------------------------------------- a fault on a shared page

  ghost predicate CopyOk(s: State, s': State, a: nat, v: Page, n: FrameNo) {
    && PageAt(s, a, v).Some?
    && var e := PageAt(s, a, v).value;
       && Pmm.Consistent(s.pm) && Pmm.LowestClear(s.pm, n)
       && s.pm.Has(e.frame) && s.pm.rc[e.frame] > 1
       && s'.pm == Pmm.DecrefAt(Pmm.AllocAt(s.pm, n), e.frame)
       && Poked(s, s', a, v, e.(frame := n, writable := true))
       && s'.mem[n] == s.mem[e.frame]
       && DataKept(s, s')
  }

  lemma CopyTotal(s: State, s': State, a: nat, v: Page, w: Word, f: FrameNo)
    requires LeafChanged(s, s', a, v, w)
    ensures Total(s', f) + (if PageAt(s, a, v).value.frame == f then 1 else 0)
            == Total(s, f) + (if w.frame == f then 1 else 0)
  {
    PageCounts(s, a, v);
    TotalChange(s, s', a, f);
  }

  lemma CopyKeepsInv(s: State, s': State, a: nat, v: Page, n: FrameNo)
    requires Inv(s) && CopyOk(s, s', a, v, n)
    requires LeafChanged(s, s', a, v, PageAt(s, a, v).value.(frame := n, writable := true))
    ensures Inv(s')
  {
    hide TableFrames, Refs, PageAt, Sound, Total, Poked;
    var w := PageAt(s, a, v).value.(frame := n, writable := true);
    MappedFrame(s, a, v);
    assert Total(s, n) == 0;
    TotalAtLeast(s, a, n);
    forall f: FrameNo
      ensures Total(s', f) + (if PageAt(s, a, v).value.frame == f then 1 else 0)
              == Total(s, f) + (if n == f then 1 else 0)
    {
      CopyTotal(s, s', a, v, w, f);
    }
    assert TablesOk(s');
    assert CountsOk(s');
    CopyWrites(s, s', a, v, w);
  }

  lemma CopyWrites(s: State, s': State, a: nat, v: Page, w: Word)
    requires WritesPrivate(s) && LeafChanged(s, s', a, v, w)
    requires Total(s, w.frame) == 0 && Total(s, PageAt(s, a, v).value.frame) > 1
    ensures WritesPrivate(s')
  {
    hide TableFrames, Refs, PageAt, Sound, Total;
    forall c: nat, u | PageAt(s', c, u).Some? && PageAt(s', c, u).value.writable
      ensures Total(s', PageAt(s', c, u).value.frame) == 1
    {
      CopyTotal(s, s', a, v, w, PageAt(s', c, u).value.frame);
    }
  }

  /** Copying the frame changes nothing anybody reads: the copy holds what the original held. */
  lemma CopyKeeps(s: State, s': State, a: nat, v: Page, n: FrameNo)
    requires Inv(s) && CopyOk(s, s', a, v, n)
    ensures Inv(s')
    ensures PageAt(s', a, v) == Some(PageAt(s, a, v).value.(frame := n, writable := true))
    ensures forall c: nat, u :: ReadPage(s', c, u) == ReadPage(s, c, u)
  {
    hide TableFrames, Refs, PageAt, Sound, Total, WritesPrivate, TablesOk, Poked, CountsOk;
    PokedChanges(s, s', a, v, PageAt(s, a, v).value.(frame := n, writable := true));
    CopyKeepsInv(s, s', a, v, n);
    forall c: nat, u ensures ReadPage(s', c, u) == ReadPage(s, c, u) {
      if PageAt(s, c, u).Some? {
        MappedFrame(s, c, u);
      }
    }
  }

  // ---------------------------------------------------------------- exit

  ghost predicate ExitOk(s: State, s': State, a: nat) {
    && s.Live(a)
    && s'.mem == s.mem && s'.spaces == s.spaces[a := None]
    && Released(s.pm, s'.pm, Frames(Tree(s, a)), Tree(s, a).kids)
    && Pmm.Consistent(s'.pm)
  }

  lemma ExitCanFree(s: State, a: nat)
    requires Inv(s) && s.Live(a)
    ensures CanFree(s.pm, Tree(s, a))
  {
    var t := Tree(s, a);
    assert Sound(s, a);
    forall f | f in Frames(t) ensures f != 0 && s.pm.Has(f) && s.pm.rc[f] == 1 && Count(t, f) == 0 {
      assert f in TableFrames(s, a);
      assert Refs(s, a, f) == Count(t, f);
      TotalAtLeast(s, a, f);
    }
    forall f: FrameNo | Count(t, f) > 0 ensures s.pm.Has(f) && s.pm.rc[f] >= Count(t, f) {
      assert Refs(s, a, f) == Count(t, f);
      TotalAtLeast(s, a, f);
    }
  }

  /** The other spaces are untouched; frame by frame, the dead space's references are gone. */
  ghost predicate ExitEffect(s: State, s': State, a: nat) {
    && s'.mem == s.mem && |s'.spaces| == |s.spaces| && a < |s.spaces|
    && Pmm.Consistent(s'.pm) && |s'.pm.used| == |s.pm.used|
    && (forall c: nat :: TableFrames(s', c) == if c == a then {} else TableFrames(s, c))
    && (forall c: nat :: Sound(s', c) || (c != a && !Sound(s, c)))
    && (forall c: nat, f: FrameNo :: Refs(s', c, f) == if c == a then 0 else Refs(s, c, f))
    && (forall c: nat, v :: PageAt(s', c, v) == if c == a then None else PageAt(s, c, v))
    && (forall f: FrameNo {:trigger s.pm.Has(f)} ::
          s.pm.Has(f) && f !in TableFrames(s, a) && Refs(s, a, f) < s.pm.rc[f] ==>
          s'.pm.Has(f) && s'.pm.rc[f] == s.pm.rc[f] - Refs(s, a, f))
  }

  lemma ExitHasEffect(s: State, s': State, a: nat)
    requires ExitOk(s, s', a)
    ensures ExitEffect(s, s', a)
  {
    forall f: FrameNo {:trigger s.pm.Has(f)} | s.pm.Has(f) && f !in TableFrames(s, a) && Refs(s, a, f) < s.pm.rc[f]
      ensures s'.pm.Has(f) && s'.pm.rc[f] == s.pm.rc[f] - Refs(s, a, f)
    {
      assert Refs(s, a, f) == CountKids(Tree(s, a).kids, f);
      assert ReleasedFrame(s.pm.used[f], s.pm.rc[f], s'.pm.used[f], s'.pm.rc[f], f in Frames(Tree(s, a)),
                           CountKids(Tree(s, a).kids, f));
    }
    forall c: nat | c != a && s.Live(c) ensures s'.Live(c) && Tree(s', c) == Tree(s, c) {
    }
  }

  /** Exit takes away exactly one process's memory. */
  lemma ExitKeeps(s: State, s': State, a: nat)
    requires Inv(s) && ExitOk(s, s', a)
    ensures Inv(s')
    ensures forall c: nat, v :: ReadPage(s', c, v) == if c == a then None else ReadPage(s, c, v)
  {
    hide TableFrames, Refs, PageAt, Sound, Total, ExitOk;
    assert ExitEffect(s, s', a) by {
      ExitHasEffect(s, s', a);
    }
    forall f: FrameNo ensures Total(s', f) + Refs(s, a, f) == Total(s, f) {
      TotalChange(s, s', a, f);
    }
    forall c: nat, f: FrameNo ensures c != a ==> Refs(s, a, f) + Refs(s, c, f) <= Total(s, f) {
      if c != a { TotalAtLeastTwo(s, a, c, f); }
    }
    assert TablesOk(s');
    assert CountsOk(s');
    assert WritesPrivate(s') by {
      forall c: nat, v | PageAt(s', c, v).Some? && PageAt(s', c, v).value.writable
        ensures Total(s', PageAt(s', c, v).value.frame) == 1
      {
        PageCounts(s, c, v);
      }
    }
  }

  /** A frame goes free at exit exactly if it was one of the space's tables, or a page only this space mapped. */
  lemma ExitFrees(s: State, s': State, a: nat, f: FrameNo)
    requires Inv(s) && ExitOk(s, s', a) && s.pm.Has(f)
    ensures !s'.pm.Has(f)
       <==> f in TableFrames(s, a) || (Refs(s, a, f) > 0 && forall c: nat :: c != a ==> Refs(s, c, f) == 0)
  {
    assert Refs(s, a, f) == CountKids(Tree(s, a).kids, f);
    assert ReleasedFrame(s.pm.used[f], s.pm.rc[f], s'.pm.used[f], s'.pm.rc[f], f in Frames(Tree(s, a)),
                         CountKids(Tree(s, a).kids, f));
    TotalAtLeast(s, a, f);
    if Refs(s, a, f) > 0 {
      if forall c: nat :: c != a ==> Refs(s, c, f) == 0 {
        SoleTotal(s, a, |s.spaces|, f);
      } else {
        var c: nat :| c != a && Refs(s, c, f) != 0;
        TotalAtLeastTwo(s, a, c, f);
      }
    }
  }

  lemma {:induction false} SoleTotal(s: State, a: nat, n: nat, f: FrameNo)
    requires forall c: nat :: c != a ==> Refs(s, c, f) == 0
    ensures TotalTo(s, n, f) == if a < n then Refs(s, a, f) else 0
  {
    if n > 0 {
      SoleTotal(s, a, n - 1, f);
    }
  }

  // ---------------------------------------------------------------- resolving a fault in memory

  ghost predicate PathOpen(s: State, a: nat, v: Page) {
    s.Live(a) && PathAbove(Tree(s, a), 4, v)
  }

  lemma PokedPath(s: State, s': State, a: nat, v: Page, w: Word)
    requires TablesOk(s) && Poked(s, s', a, v, w)
    ensures PathOpen(s', a, v) == PathOpen(s, a, v)
  {
    assert Sound(s, a);
    assert TableFrames(s, a) == Frames(Tree(s, a));
    WriteLeaf(s.mem, s'.mem, 4, s.spaces[a].value, v, w);
    SetLeafPath(Tree(s, a), 4, v, w);
  }

  /** The facts `handle_cow_fault` relies on when it reads the entry and its reference count. */
  lemma FaultFacts(s: State, a: nat, v: Page)
    requires Inv(s) && PageAt(s, a, v).Some?
    ensures PageAt(s, a, v).value.present && s.Live(a)
    ensures var f := PageAt(s, a, v).value.frame;
            s.pm.Has(f) && s.pm.rc[f] == Total(s, f) >= 1
    ensures Pmm.Consistent(s.pm)
  {
    PageCounts(s, a, v);
    MappedFrame(s, a, v);
  }

  /** Writing the entry the walk found, and possibly a frame nobody uses, is a poke. */
  lemma WritesPoke(s: State, s': State, a: nat, v: Page, w: Word, n: FrameNo, contents: Frame)
    requires Inv(s) && PageAt(s, a, v).Some? && s.Live(a) && w.present && s'.spaces == s.spaces
    requires !s.pm.Has(n)
    requires var pt := LeafTable(Tree(s, a), 4, v);
             s'.mem == s.mem[n := contents][pt := s.mem[n := contents][pt][v.i1 := w]]
    ensures Poked(s, s', a, v, w) && DataKept(s, s') && s'.mem[n] == contents
  {
    LeafTableIn(Tree(s, a), 4, v);
    assert LeafTable(Tree(s, a), 4, v) in TableFrames(s, a);
  }

  lemma WritesPokeOnly(s: State, s': State, a: nat, v: Page, w: Word)
    requires Inv(s) && PageAt(s, a, v).Some? && s.Live(a) && w.present && s'.spaces == s.spaces
    requires var pt := LeafTable(Tree(s, a), 4, v);
             s'.mem == s.mem[pt := s.mem[pt][v.i1 := w]]
    ensures Poked(s, s', a, v, w) && DataKept(s, s')
  {
    LeafTableIn(Tree(s, a), 4, v);
    assert LeafTable(Tree(s, a), 4, v) in TableFrames(s, a);
  }

  /** The leaf of a shared page: as before, but read-only. */
  function Shared(leaf: Option<Word>): Option<Word> {
    match leaf
    case None => None
    case Some(e) => Some(Word(e.present, false, e.user, e.huge, e.other, e.frame))
  }

  /** After a fork stores find the way they found before, and the child's tables block none; both have
      the parent's leaves, read-only and otherwise as they were. */
  lemma ForkPath(s: State, s': State, a: nat, b: nat, child: FrameNo, news: seq<FrameNo>, c: nat, u: Page)
    requires TablesOk(s) && ForkOk(s, s', a, b, child, news)
    ensures c != b ==> PathOpen(s', c, u) == PathOpen(s, c, u)
    ensures PageAt(s, a, u).Some? ==> PathOpen(s', b, u)
    ensures PageAt(s', c, u) == if c == a || c == b then Shared(PageAt(s, a, u)) else PageAt(s, c, u)
  {
    hide FreshPml4, TablesOk;
    TwinAgrees(Tree(s', a), Tree(s', b));
    WeakenedLookup(Tree(s, a), Tree(s', a), 4, u);
    if c == a {
      WeakenedPath(Tree(s, a), Tree(s', a), 4, u);
    } else if c != b && s.Live(c) {
      OtherTree(s, s', a, b, child, news, c);
    }
    if PageAt(s, a, u).Some? {
      ReadOnlyLookup(Tree(s', a), 4, u);
      TableAtShaped(s'.mem, 4, s.spaces[a].value);
      TwinPath(Tree(s', a), Tree(s', b), 4, u);
    }
  }

  lemma ForkFailedPath(s: State, s': State, a: nat, child: FrameNo, c: nat, u: Page)
    requires TablesOk(s) && ForkFailedOk(s, s', a, child)
    ensures PathOpen(s', c, u) == PathOpen(s, c, u)
    ensures PageAt(s', c, u) == PageAt(s, c, u) || (c == a && PageAt(s', c, u) == Shared(PageAt(s, c, u)))
  {
    if c == a {
      WeakenedPath(Tree(s, a), Tree(s', a), 4, u);
      WeakenedLookup(Tree(s, a), Tree(s', a), 4, u);
    } else {
      assert TableFrames(s, c) !! TableFrames(s, a);
      SameTree(s, s', c);
    }
  }

  // ---------------------------------------------------------------- mapping a new page

  ghost predicate MapOk(s: State, s': State, a: nat, v: Page, w: Word, news: seq<FrameNo>) {
    && s.Live(a) && s'.spaces == s.spaces
    && FreshFrame(s, w.frame)
    && Mapped(s.mem, s.pm, s'.mem, s'.pm, 4, s.spaces[a].value, v, w, news)
    && Pmm.Consistent(s'.pm)
  }

  lemma MapCan(s: State, a: nat)
    requires Inv(s) && s.Live(a)
    ensures CanMap(s.mem, s.pm, 4, s.spaces[a].value)
  {
    assert Sound(s, a);
    assert TableFrames(s, a) == Frames(Tree(s, a));
  }

  /** Page v of space a appears; new tables hang below it; nothing else about any space changed. */
  ghost predicate MapEffect(s: State, s': State, a: nat, v: Page, w: Word, news: set<FrameNo>) {
    && |s'.spaces| == |s.spaces| && a < |s.spaces|
    && (forall c: nat :: TableFrames(s', c) == if c == a then TableFrames(s, a) + news else TableFrames(s, c))
    && (forall c: nat :: Sound(s', c))
    && (forall c: nat, f: FrameNo :: Refs(s', c, f) == Refs(s, c, f) + if c == a && f == w.frame then 1 else 0)
    && PageAt(s, a, v) == None
    && (forall c: nat, u :: PageAt(s', c, u) == if c == a && u == v then Some(w) else PageAt(s, c, u))
  }

  ghost predicate MapFrames(s: State, s': State, a: nat, news: set<FrameNo>) {
    && |s'.pm.used| == |s.pm.used|
    && (forall f: FrameNo {:trigger s.pm.Has(f)} :: s.pm.Has(f) ==> s'.pm.Has(f) && s'.pm.rc[f] == s.pm.rc[f])
    && (forall f: FrameNo {:trigger f in news} :: f in news ==>
          !s.pm.Has(f) && f != 0 && s'.pm.Has(f) && s'.pm.rc[f] == 1)
    && (forall f: FrameNo {:trigger s'.mem[f]} :: s.pm.Has(f) && f !in TableFrames(s, a) ==> s'.mem[f] == s.mem[f])
  }

  lemma MapHasFrames(s: State, s': State, a: nat, v: Page, w: Word, news: seq<FrameNo>)
    requires MapOk(s, s', a, v, w, news)
    ensures MapFrames(s, s', a, Elems(news))
  {
    hide Grafted, FreshFrame;
    assert TableFrames(s, a) == Frames(Tree(s, a));
  }

  lemma MapSelf(s: State, s': State, a: nat, v: Page, w: Word, news: seq<FrameNo>)
    requires TablesOk(s) && MapOk(s, s', a, v, w, news) && MapFrames(s, s', a, Elems(news))
    ensures TableFrames(s', a) == TableFrames(s, a) + Elems(news) && Sound(s', a)
    ensures PageAt(s, a, v) == None
    ensures forall f: FrameNo :: Refs(s', a, f) == Refs(s, a, f) + if f == w.frame then 1 else 0
    ensures forall u :: PageAt(s', a, u) == if u == v then Some(w) else PageAt(s, a, u)
  {
    var t, t' := Tree(s, a), Tree(s', a);
    assert Sound(s, a);
    assert TableFrames(s, a) == Frames(t);
    assert Elems(news) !! Frames(t);
    GraftFrames(t, t', 4, v, w, Elems(news));
    GraftLookup(t, t', 4, v, w, Elems(news), v);
    forall f: FrameNo ensures Refs(s', a, f) == Refs(s, a, f) + if f == w.frame then 1 else 0 {
      GraftCount(t, t', 4, v, w, Elems(news), f);
    }
    forall u ensures PageAt(s', a, u) == if u == v then Some(w) else PageAt(s, a, u) {
      GraftLookup(t, t', 4, v, w, Elems(news), u);
      if SamePath(v, u, 4) {
        SamePage(v, u);
      }
    }
  }

  lemma MapOther(s: State, s': State, a: nat, news: set<FrameNo>, c: nat)
    requires TablesOk(s) && s'.spaces == s.spaces && MapFrames(s, s', a, news) && c != a
    ensures TableFrames(s', c) == TableFrames(s, c) && Sound(s', c)
    ensures forall f: FrameNo :: Refs(s', c, f) == Refs(s, c, f)
    ensures forall u :: PageAt(s', c, u) == PageAt(s, c, u)
    ensures forall u :: PathOpen(s', c, u) == PathOpen(s, c, u)
  {
    hide Refs, PageAt, Sound, TableFrames, PathOpen;
    assert TableFrames(s, c) !! TableFrames(s, a);
    assert Sound(s, c);
    SameTree(s, s', c);
  }

  /** Where user stores get through after mapping page v by w. */
  lemma MapPath(s: State, s': State, a: nat, v: Page, w: Word, news: seq<FrameNo>, c: nat, u: Page)
    requires TablesOk(s) && MapOk(s, s', a, v, w, news)
    ensures w.writable && w.user ==> PathOpen(s', a, v)
    ensures PathOpen(s, c, u) ==> PathOpen(s', c, u)
    ensures c != a || (!w.writable && !w.user) ==> PathOpen(s', c, u) == PathOpen(s, c, u)
  {
    hide TableFrames, Refs, PageAt, Sound, TablesOk, MapFrames, Elems, FreshFrame, Grafted;
    MapHasFrames(s, s', a, v, w, news);
    GraftPath(Tree(s, a), Tree(s', a), 4, v, w, Elems(news), v);
    if c == a {
      GraftPath(Tree(s, a), Tree(s', a), 4, v, w, Elems(news), u);
    } else {
      MapOther(s, s', a, Elems(news), c);
    }
  }

  lemma MapHasEffect(s: State, s': State, a: nat, v: Page, w: Word, news: seq<FrameNo>)
    requires TablesOk(s) && MapOk(s, s', a, v, w, news)
    ensures MapEffect(s, s', a, v, w, Elems(news)) && MapFrames(s, s', a, Elems(news))
  {
    hide TableFrames, Refs, PageAt, Sound, TablesOk, MapFrames, Mapped, Elems, FreshFrame;
    MapHasFrames(s, s', a, v, w, news);
    MapSelf(s, s', a, v, w, news);
    forall c: nat ensures Sound(s', c) && TableFrames(s', c) == if c == a then TableFrames(s, a) + Elems(news)
                                                                else TableFrames(s, c) {
      if c != a { MapOther(s, s', a, Elems(news), c); }
    }
    forall c: nat, f: FrameNo ensures Refs(s', c, f) == Refs(s, c, f) + if c == a && f == w.frame then 1 else 0 {
      if c != a { MapOther(s, s', a, Elems(news), c); }
    }
    forall c: nat, u ensures PageAt(s', c, u) == if c == a && u == v then Some(w) else PageAt(s, c, u) {
      if c != a { MapOther(s, s', a, Elems(news), c); }
    }
  }

  lemma MapKeepsInv(s: State, s': State, a: nat, v: Page, w: Word, news: set<FrameNo>)
    requires Inv(s) && FreshFrame(s, w.frame) && Pmm.Consistent(s'.pm)
    requires MapEffect(s, s', a, v, w, news) && MapFrames(s, s', a, news)
    ensures Inv(s')
  {
    hide TableFrames, Refs, PageAt, Sound, Total;
    forall f: FrameNo ensures Total(s', f) == Total(s, f) + if f == w.frame then 1 else 0 {
      TotalChange(s, s', a, f);
    }
    TotalAtLeast(s, a, w.frame);
    forall f: FrameNo {:trigger f in news} | f in news ensures Total(s', f) == 0 {
      assert !s.pm.Has(f) && Total(s, f) == 0;
    }
    assert TablesOk(s');
    assert CountsOk(s');
    assert WritesPrivate(s');
  }

  /** A newly mapped page reads as the frame's contents and disturbs nothing. */
  lemma MapKeeps(s: State, s': State, a: nat, v: Page, w: Word, news: seq<FrameNo>)
    requires Inv(s) && MapOk(s, s', a, v, w, news)
    ensures Inv(s')
    ensures forall c: nat, u ::
              ReadPage(s', c, u) == if c == a && u == v then Some(s.mem[w.frame]) else ReadPage(s, c, u)
    ensures ReadPage(s, a, v) == None
  {
    hide TableFrames, Refs, PageAt, Sound, Total, TablesOk, CountsOk, WritesPrivate, Mapped, Elems;
    MapHasEffect(s, s', a, v, w, news);
    MapKeepsInv(s, s', a, v, w, Elems(news));
    forall c: nat, u ensures ReadPage(s', c, u) == if c == a && u == v then Some(s.mem[w.frame])
                                                   else ReadPage(s, c, u) {
      if PageAt(s, c, u).Some? {
        MappedFrame(s, c, u);
      }
    }
  }
}
