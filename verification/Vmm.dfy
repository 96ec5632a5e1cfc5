/** The virtual memory manager: sharing an address space at fork, resolving write faults and
    tearing an address space down (indo-kernel/src/memory/vmm.rs).

    The four nested loops of the source differ only in the level they work on, so each is
    written once with the level as a parameter: 4 for a PML4, 3 for a PDPT, 2 for a page
    directory and 1 for a page table. */
module Vmm {
  import opened Wrappers
  import opened PageTables
  import opened ForkCopy
  import opened Teardown
  import opened PageUpdate
  import opened PageGraft
  import opened Spaces
  import opened ForkStep
  import opened CowSteps
  import opened CowRefinement
  import opened ForkCost
  import Pmm

  /** A leaf entry through which a user store goes. */
  predicate Storable(leaf: Option<Word>) {
    leaf.Some? && leaf.value.writable && leaf.value.user
  }

  datatype ForkResult = Halted | NoFrames | Abandoned | Child

  class Machine {
    const pmm: Pmm.FrameAllocator
    /** Physical memory, reached through the identity map. */
    var mem: Memory
    /** The PML4 column of the process table and of the deferred-free list. */
    var spaces: seq<Option<FrameNo>>

    constructor (allocator: Pmm.FrameAllocator, contents: Memory, slots: nat)
      requires allocator.Valid()
      ensures pmm == allocator && mem == contents
      ensures Ok() && Sees(St(), seq(slots, _ => None))
    {
      pmm := allocator;
      mem := contents;
      spaces := seq(slots, _ => None);
      new;
      InitialState(St());
    }

    ghost function St(): State
      requires pmm.Shape()
      reads this, pmm, pmm.bitmap, pmm.refcounts
    {
      State(mem, pmm.State(), spaces)
    }

    /** The invariant of every reachable state. */
    ghost predicate Ok()
      reads this, pmm, pmm.bitmap, pmm.refcounts
    {
      pmm.Valid() && Inv(St())
    }

    ghost predicate Valid()
      reads this, pmm, pmm.bitmap, pmm.refcounts
    {
      pmm.Valid()
    }

    /** Share every page below table `pt` with table `ct`, stopping when frames run out.
        `news` lists the tables allocated, `incs` the references taken, for the rollback. */
    method CopyTable(level: int, pt: FrameNo, ct: FrameNo) returns (ok: bool, news: seq<FrameNo>, incs: seq<FrameNo>)
      requires 1 <= level <= 4
      requires Valid() && CanCopy(mem, pmm.State(), level, pt, ct)
      modifies this`mem, pmm`freeFrames, pmm`bits, pmm.bitmap, pmm.refcounts
      ensures Valid()
      ensures Copied(old(mem), old(pmm.State()), mem, pmm.State(), level, pt, ct, ok, news, incs)
      ensures Cost(TableAt(old(mem), level, pt), ok, news) && (!ok ==> FreeFrames(pmm.State()) == {})
      decreases level, 1
    {
      hide Progress, Copied, CanCopy, Cost, Taken, FreeFrames;
      ghost var m, p := mem, pmm.State();
      news, incs := [], [];
      var i := 0;
      ghost var t := TableAt(m, level, pt);
      ProgressStart(m, p, level, pt, ct);
      TakenStart(t);
      while i < Width(level)
        invariant Valid() && 0 <= i <= Width(level) && Taken(t, i, news)
        invariant Progress(m, p, mem, pmm.State(), level, pt, ct, i, news, incs)
      {
        var e := mem[pt][i];
        if !Followed(level, e) {
          ProgressHole(m, p, mem, pmm.State(), level, pt, ct, i, news, incs);
          EntryTaken(m, p, mem, pmm.State(), level, pt, ct, i, news, incs);
        } else if level == 1 {
          EntryTaken(m, p, mem, pmm.State(), level, pt, ct, i, news, incs);
          ShareEntry(pt, ct, i, m, p, news, incs);
          incs := incs + [e.frame];
        } else {
          var below, n, q := CopyBelow(level, pt, ct, i, m, p, news, incs);
          news := news + n;
          incs := incs + q;
          if !below {
            return false, news, incs;
          }
        }
        i := i + 1;
      }
      ProgressDone(m, p, mem, pmm.State(), level, pt, ct, news, incs);
      TakenAll(t, news);
      ok := true;
    }

    /** One more reference to the page of entry i, which both tables then map read-only. */
    method ShareEntry(pt: FrameNo, ct: FrameNo, i: nat, ghost m: Memory, ghost p: Pmm.Frames, ghost news: seq<FrameNo>,
                      ghost incs: seq<FrameNo>)
      requires Valid() && CanCopy(m, p, 1, pt, ct)
      requires i < 512 && mem[pt][i].present && Progress(m, p, mem, pmm.State(), 1, pt, ct, i, news, incs)
      modifies this`mem, pmm.refcounts
      ensures Valid()
      ensures Progress(m, p, mem, pmm.State(), 1, pt, ct, i + 1, news, incs + [old(mem)[pt][i].frame])
    {
      hide Progress, CanCopy;
      var e := mem[pt][i];
      LeafCounted(m, p, mem, pmm.State(), pt, ct, i, news, incs);
      ProgressLeaf(m, p, mem, pmm.State(), pt, ct, i, news, incs);
      pmm.Incref(e.frame);
      var shared := e.(writable := false);
      mem := mem[ct := mem[ct][i := shared]];
      mem := mem[pt := mem[pt][i := shared]];
    }

    /** A new table for entry i of the child, and everything below it. */
    method CopyBelow(level: int, pt: FrameNo, ct: FrameNo, i: nat, ghost m: Memory, ghost p: Pmm.Frames,
                     ghost news: seq<FrameNo>, ghost incs: seq<FrameNo>)
      returns (ok: bool, n: seq<FrameNo>, q: seq<FrameNo>)
      requires 2 <= level <= 4 && i < Width(level) && Followed(level, mem[pt][i])
      requires Valid() && CanCopy(m, p, level, pt, ct)
      requires Progress(m, p, mem, pmm.State(), level, pt, ct, i, news, incs) && Taken(TableAt(m, level, pt), i, news)
      modifies this`mem, pmm`freeFrames, pmm`bits, pmm.bitmap, pmm.refcounts
      ensures Valid()
      ensures ok ==> Progress(m, p, mem, pmm.State(), level, pt, ct, i + 1, news + n, incs + q)
                     && Taken(TableAt(m, level, pt), i + 1, news + n)
      ensures !ok ==> Copied(m, p, mem, pmm.State(), level, pt, ct, false, news + n, incs + q)
                      && Cost(TableAt(m, level, pt), false, news + n) && FreeFrames(pmm.State()) == {}
      decreases level, 0
    {
      hide Progress, Copied, CanCopy, Cost, Taken, FreeFrames, Followed, Hang;
      ghost var m', p', t := mem, pmm.State(), TableAt(m, level, pt);
      var e := mem[pt][i];
      var r := pmm.AllocFrame();
      if r.None? {
        assert news + [] == news && incs + [] == incs;
        EntryStopped(m, p, m', p', level, pt, ct, i, news, incs);
        NoneLeft(pmm.State());
        return false, [], [];
      }
      var c: FrameNo := r.value;
      SubSetup(m, p, m', p', level, pt, ct, i, news, incs, c);
      mem := mem[c := ZeroFrame()];
      mem := mem[ct := mem[ct][i := Word(true, true, true, false, 0, c)]];
      HangIs(m', ct, i, c, mem);
      var tables;
      ok, tables, q := CopyTable(level - 1, e.frame, c);
      n := [c] + tables;
      CostBelow(t.kids[i].table, ok, c, tables);
      if ok {
        ProgressSub(m, p, m', p', mem, pmm.State(), level, pt, ct, i, news, incs, c, tables, q);
        TakenNext(t, i, news, n);
      } else {
        ProgressSubFailed(m, p, m', p', mem, pmm.State(), level, pt, ct, i, news, incs, c, tables, q);
        TakenPart(t, i, news, n);
      }
    }

    /** Fork's sharing step. When it runs out of frames, at any depth, the rollback leaves the
        allocator as it was and the parent with the same pages, some of them read-only. */
    method CopyUserPages(parent: FrameNo, child: FrameNo) returns (ok: bool, ghost news: seq<FrameNo>)
      requires Valid() && CanCopy(mem, pmm.State(), 4, parent, child)
      modifies this`mem, pmm`freeFrames, pmm`bits, pmm.bitmap, pmm.refcounts
      ensures Valid()
      ensures ok ==> Forked(old(mem), old(pmm.State()), mem, pmm.State(), parent, child, news)
      ensures !ok ==> pmm.State() == old(pmm.State())
      ensures !ok ==> ForkFailed(old(mem), old(pmm.State()), mem, parent, child)
      ensures ok <==> Tables(TableAt(old(mem), 4, parent)) - 1 <= |FreeFrames(old(pmm.State()))|
      ensures ok ==>
                |FreeFrames(pmm.State())| == |FreeFrames(old(pmm.State()))| - (Tables(TableAt(old(mem), 4, parent)) - 1)
    {
      ghost var m, p := mem, pmm.State();
      var allocatedFrames, increfFrames;
      ok, allocatedFrames, increfFrames := CopyTable(4, parent, child);
      news := allocatedFrames;
      CopiedAccounts(m, p, mem, pmm.State(), parent, child, ok, allocatedFrames, increfFrames);
      EnoughIff(p, pmm.State(), TableAt(m, 4, parent), ok, allocatedFrames, increfFrames);
      if ok {
        FramesLeft(p, pmm.State(), TableAt(m, 4, parent), allocatedFrames, increfFrames);
        CopiedForked(m, p, mem, pmm.State(), parent, child, allocatedFrames, increfFrames);
      } else {
        CopiedFailed(m, p, mem, pmm.State(), parent, child, allocatedFrames, increfFrames);
        Rollback(p, allocatedFrames, increfFrames);
      }
    }

    /** Free what was allocated, then drop the references that were taken. */
    method Rollback(ghost p: Pmm.Frames, allocatedFrames: seq<FrameNo>, increfFrames: seq<FrameNo>)
      requires Valid() && PmDelta(p, pmm.State(), allocatedFrames, increfFrames)
      requires forall f :: f in increfFrames ==> f !in allocatedFrames && p.Has(f) && p.rc[f] > 0
      modifies pmm`freeFrames, pmm`bits, pmm.bitmap, pmm.refcounts
      ensures Valid() && pmm.State() == p
    {
      hide PmDelta;
      assert allocatedFrames[0..] == allocatedFrames && increfFrames[0..] == increfFrames;
      for k := 0 to |allocatedFrames|
        invariant Valid() && PmDelta(p, pmm.State(), allocatedFrames[k..], increfFrames)
      {
        assert allocatedFrames[k..] == [allocatedFrames[k]] + allocatedFrames[k + 1..];
        UndoAlloc(p, pmm.State(), allocatedFrames[k], allocatedFrames[k + 1..], increfFrames);
        pmm.FreeFrame(allocatedFrames[k]);
      }
      assert allocatedFrames[|allocatedFrames|..] == [];
      for k := 0 to |increfFrames|
        invariant Valid() && PmDelta(p, pmm.State(), [], increfFrames[k..])
      {
        assert increfFrames[k..] == [increfFrames[k]] + increfFrames[k + 1..];
        UndoIncref(p, pmm.State(), increfFrames[k], increfFrames[k + 1..]);
        pmm.Decref(increfFrames[k]);
      }
      assert increfFrames[|increfFrames|..] == [];
      PmDeltaNone(p, pmm.State());
    }

    /** Drop every page and every table below table `t`. No step trips an allocator check. */
    method FreeTable(level: int, t: FrameNo)
      requires 1 <= level <= 4
      requires Valid() && CanFree(pmm.State(), TableAt(mem, level, t))
      modifies pmm`freeFrames, pmm`bits, pmm.bitmap, pmm.refcounts
      ensures Valid()
      ensures Released(old(pmm.State()), pmm.State(), Below(TableAt(mem, level, t).kids), TableAt(mem, level, t).kids)
      decreases level
    {
      hide Released, CanFree;
      ghost var p, r := pmm.State(), TableAt(mem, level, t);
      ReleasedStart(p, r);
      var i := 0;
      while i < Width(level)
        invariant Valid() && 0 <= i <= Width(level)
        invariant Released(p, pmm.State(), Below(r.kids[..i]), r.kids[..i])
      {
        ghost var p' := pmm.State();
        var e := mem[t][i];
        KidIs(mem, level, t, i);
        if !Followed(level, e) {
          ReleasedHole(p, p', r, i);
        } else if level == 1 {
          LeafHeld(p, p', r, i);
          ReleasedLeaf(p, p', r, i);
          pmm.Decref(e.frame);
        } else {
          SubCanFree(p, p', r, i);
          FreeTable(level - 1, e.frame);
          TableHeld(p', pmm.State(), r.kids[i].table);
          ReleasedSub(p, p', pmm.State(), r, i);
          pmm.FreeFrame(e.frame);
        }
        i := i + 1;
      }
      assert r.kids[..Width(level)] == r.kids;
    }

    /** Tear an address space down, its PML4 frame last. */
    method FreeUserAddressSpace(pml4: FrameNo)
      requires Valid() && CanFree(pmm.State(), TableAt(mem, 4, pml4))
      modifies pmm`freeFrames, pmm`bits, pmm.bitmap, pmm.refcounts
      ensures Valid()
      ensures Released(old(pmm.State()), pmm.State(), Frames(TableAt(mem, 4, pml4)), TableAt(mem, 4, pml4).kids)
    {
      ghost var p, r := pmm.State(), TableAt(mem, 4, pml4);
      FreeTable(4, pml4);
      TableHeld(p, pmm.State(), r);
      ReleasedRoot(p, pmm.State(), r);
      pmm.FreeFrame(pml4);
    }

    // -------------------------------------------------------------- creating and mapping

    /** A PML4 with an empty user half and the kernel's upper half. None: the kernel panics. */
    method CreateUserPml4(kernelPml4: FrameNo) returns (r: Option<FrameNo>)
      requires Ok()
      modifies this`mem, pmm`freeFrames, pmm`bits, pmm.bitmap, pmm.refcounts
      ensures Valid()
      ensures r.None? ==> St() == old(St())
      ensures r.None? <==> FreeFrames(old(pmm.State())) == {}
      ensures r.Some? ==> AllocOk(old(St()), St(), r.value)
      ensures r.Some? ==> forall i :: 0 <= i < 256 ==> !mem[r.value][i].present
      ensures r.Some? ==>
                forall i :: 256 <= i < 512 && kernelPml4 != r.value ==> mem[r.value][i] == old(mem)[kernelPml4][i]
    {
      hide Inv;
      var f := pmm.AllocFrame();
      if f.None? {
        return None;
      }
      var table: FrameNo := f.value;
      assert table in FreeFrames(old(pmm.State()));
      mem := mem[table := ZeroFrame()];
      mem := mem[table := mem[table][..256] + mem[kernelPml4][256..]];
      return Some(table);
    }

    /** Walk to the leaf entry of page v. */
    method WalkToPte(pml4: FrameNo, v: Page) returns (r: Option<FrameNo>)
      ensures r.Some? <==> Lookup(TableAt(mem, 4, pml4), 4, v).Some?
      ensures r.Some? ==> r.value == LeafTable(TableAt(mem, 4, pml4), 4, v)
      ensures r.Some? ==> mem[r.value][v.i1] == Lookup(TableAt(mem, 4, pml4), 4, v).value
    {
      var t, level := pml4, 4;
      while level > 1
        invariant 1 <= level <= 4
        invariant Lookup(TableAt(mem, level, t), level, v) == Lookup(TableAt(mem, 4, pml4), 4, v)
        invariant LeafTable(TableAt(mem, level, t), level, v) == LeafTable(TableAt(mem, 4, pml4), 4, v)
      {
        var e := mem[t][Index(v, level)];
        KidIs(mem, level, t, Index(v, level));
        if !Followed(level, e) {
          return None;
        }
        t, level := e.frame, level - 1;
      }
      KidIs(mem, 1, t, v.i1);
      if !mem[t][v.i1].present {
        return None;
      }
      return Some(t);
    }

    /** Map page v below table t, adding the tables that are missing. False: the kernel panics. */
    method MapAt(level: int, t: FrameNo, v: Page, w: Word) returns (ok: bool, ghost news: seq<FrameNo>)
      requires 1 <= level <= 4 && w.present
      requires Valid() && CanMap(mem, pmm.State(), level, t)
      modifies this`mem, pmm`freeFrames, pmm`bits, pmm.bitmap, pmm.refcounts
      ensures Valid()
      ensures ok ==> Mapped(old(mem), old(pmm.State()), mem, pmm.State(), level, t, v, w, news)
      ensures ok ==> Room(old(mem), level, t, v)
      ensures !ok ==> !Room(old(mem), level, t, v) || FreeFrames(pmm.State()) == {}
      decreases level, 1
    {
      hide CanMap, Mapped;
      news := [];
      ghost var m, p := mem, pmm.State();
      var i := Index(v, level);
      var e := mem[t][i];
      if level == 1 {
        if e != ZERO {
          return false, [];
        }
        mem := mem[t := mem[t][i := w]];
        MappedLeaf(m, p, mem, t, v, w);
        return true, [];
      }
      if e == ZERO {
        ok, news := MapBelowNew(level, t, v, w);
      } else if !e.present || e.huge {
        return false, [];
      } else {
        ok, news := MapBelowOld(level, t, v, w);
      }
    }

    /** The entry is unused: add a table there and go on in it. */
    method MapBelowNew(level: int, t: FrameNo, v: Page, w: Word) returns (ok: bool, ghost news: seq<FrameNo>)
      requires 2 <= level <= 4 && w.present && mem[t][Index(v, level)] == ZERO
      requires Valid() && CanMap(mem, pmm.State(), level, t)
      modifies this`mem, pmm`freeFrames, pmm`bits, pmm.bitmap, pmm.refcounts
      ensures Valid()
      ensures ok ==> Mapped(old(mem), old(pmm.State()), mem, pmm.State(), level, t, v, w, news)
      ensures ok ==> Room(old(mem), level, t, v)
      ensures !ok ==> !Room(old(mem), level, t, v) || FreeFrames(pmm.State()) == {}
      decreases level, 0
    {
      hide CanMap, Mapped, FreeFrames, NewTable;
      news := [];
      ghost var m, p := mem, pmm.State();
      TableHas(m, p, level, t);
      var r := AddTable(t, Index(v, level), w);
      if r.None? {
        return false, [];
      }
      var c := r.value;
      DescendNew(m, p, level, t, v, w, c);
      RoomNew(m, p, level, t, v, w, c);
      ghost var n;
      ok, n := MapAt(level - 1, c, v, w);
      if ok {
        MappedNew(m, p, c, mem, pmm.State(), level, t, v, w, n);
      }
      news := [c] + n;
    }

    /** A zeroed table in entry i. */
    method AddTable(t: FrameNo, i: nat, w: Word) returns (r: Option<FrameNo>)
      requires Valid() && i < 512 && pmm.State().Has(t)
      modifies this`mem, pmm`freeFrames, pmm`bits, pmm.bitmap, pmm.refcounts
      ensures Valid()
      ensures r.None? ==> FreeFrames(pmm.State()) == {}
      ensures r.Some? ==> Pmm.LowestClear(old(pmm.State()), r.value)
                          && pmm.State() == Pmm.AllocAt(old(pmm.State()), r.value)
      ensures r.Some? ==> mem == NewTable(old(mem), t, i, r.value, w)
    {
      var f := pmm.AllocFrame();
      if f.None? {
        return None;
      }
      var c: FrameNo := f.value;
      mem := mem[c := ZeroFrame()];
      mem := mem[t := mem[t][i := Word(true, w.writable, w.user, false, 0, c)]];
      return Some(c);
    }

    /** A table is there: widen its permissions and go on in it. */
    method MapBelowOld(level: int, t: FrameNo, v: Page, w: Word) returns (ok: bool, ghost news: seq<FrameNo>)
      requires 2 <= level <= 4 && w.present && mem[t][Index(v, level)].present && !mem[t][Index(v, level)].huge
      requires Valid() && CanMap(mem, pmm.State(), level, t)
      modifies this`mem, pmm`freeFrames, pmm`bits, pmm.bitmap, pmm.refcounts
      ensures Valid()
      ensures ok ==> Mapped(old(mem), old(pmm.State()), mem, pmm.State(), level, t, v, w, news)
      ensures ok ==> Room(old(mem), level, t, v)
      ensures !ok ==> !Room(old(mem), level, t, v) || FreeFrames(pmm.State()) == {}
      decreases level, 0
    {
      hide CanMap, Mapped, FreeFrames, TableEntry;
      ghost var m, p := mem, pmm.State();
      var e := mem[t][Index(v, level)];
      mem := mem[t := mem[t][Index(v, level) := TableEntry(e, w)]];
      ghost var m1 := mem;
      DescendExisting(m, p, m1, level, t, v, w);
      RoomExisting(m, p, m1, level, t, v, w);
      ok, news := MapAt(level - 1, e.frame, v, w);
      if ok {
        MappedExisting(m, p, m1, mem, pmm.State(), level, t, v, w, news);
      }
    }

    // -------------------------------------------------------------- faults and stores

    /** The processor's check before a user store: every level must be writable and user-accessible. */
    method MmuWritable(pml4: FrameNo, v: Page) returns (r: Option<FrameNo>)
      ensures var t := TableAt(mem, 4, pml4);
              && (r.Some? <==> PathAbove(t, 4, v) && Storable(Lookup(t, 4, v)))
              && (r.Some? ==> r.value == Lookup(t, 4, v).value.frame)
    {
      var t, level := pml4, 4;
      while level > 1
        invariant 1 <= level <= 4
        invariant Lookup(TableAt(mem, level, t), level, v) == Lookup(TableAt(mem, 4, pml4), 4, v)
        invariant PathAbove(TableAt(mem, level, t), level, v) == PathAbove(TableAt(mem, 4, pml4), 4, v)
      {
        var e := mem[t][Index(v, level)];
        KidIs(mem, level, t, Index(v, level));
        if !Followed(level, e) || !e.writable || !e.user {
          return None;
        }
        t, level := e.frame, level - 1;
      }
      var e := mem[t][v.i1];
      KidIs(mem, 1, t, v.i1);
      if e.present && e.writable && e.user {
        return Some(e.frame);
      }
      return None;
    }

    /** Give entry i of table `pt` a private copy of the frame it maps. */
    method CopyFrame(pt: FrameNo, i: nat, e: Word) returns (r: Option<FrameNo>)
      requires Valid() && i < 512
      requires pmm.State().Has(e.frame) && pmm.State().rc[e.frame] > 1
      modifies this`mem, pmm`freeFrames, pmm`bits, pmm.bitmap, pmm.refcounts
      ensures Valid()
      ensures r.None? ==> mem == old(mem) && pmm.State() == old(pmm.State())
      ensures r.None? ==> forall f :: 1 <= f < pmm.totalFrames ==> pmm.State().used[f]
      ensures r.Some? ==> Pmm.LowestClear(old(pmm.State()), r.value) && r.value != e.frame
      ensures r.Some? ==> pmm.State() == Pmm.DecrefAt(Pmm.AllocAt(old(pmm.State()), r.value), e.frame)
      ensures r.Some? ==>
                var copied := old(mem)[r.value := old(mem)[e.frame]];
                mem == copied[pt := copied[pt][i := e.(frame := r.value, writable := true)]]
    {
      var f := pmm.AllocFrame();
      if f.None? {
        return None;
      }
      var n: FrameNo := f.value;
      mem := mem[n := mem[e.frame]];
      mem := mem[pt := mem[pt][i := e.(frame := n, writable := true)]];
      pmm.Decref(e.frame);
      return Some(n);
    }

    /** Resolve a write fault of the space in slot a: copy a shared page, or take over one nobody shares. */
    method HandleCowFault(a: nat, v: Page) returns (ok: bool)
      requires Ok() && St().Live(a)
      modifies this`mem, pmm`freeFrames, pmm`bits, pmm.bitmap, pmm.refcounts
      ensures Ok()
      ensures ok <==> Resolvable(old(St()), a, v)
      ensures !ok ==> St() == old(St())
      ensures ok ==> OwnerOk(old(St()), St(), a, v) || exists n :: CopyOk(old(St()), St(), a, v, n)
    {
      hide Inv, Poked, DataKept, Total;
      ghost var s := St();
      var pte := WalkToPte(spaces[a].value, v);
      if pte.None? {
        return false;
      }
      var pt := pte.value;
      var e := mem[pt][v.i1];
      FaultFacts(s, a, v);
      var rc := pmm.GetRefcount(e.frame);
      if rc > 1 {
        var n := CopyFrame(pt, v.i1, e);
        if n.None? {
          return false;
        }
        assert FrameLeft(s);
        WritesPoke(s, St(), a, v, e.(frame := n.value, writable := true), n.value, s.mem[e.frame]);
        assert CopyOk(s, St(), a, v, n.value);
        CopyKeeps(s, St(), a, v, n.value);
        return true;
      } else if !e.writable {
        mem := mem[pt := mem[pt][v.i1 := e.(writable := true)]];
        WritesPokeOnly(s, St(), a, v, e.(writable := true));
        OwnerKeeps(s, St(), a, v);
        return true;
      }
      return false;
    }

    /** A user store of word j of page v. A fault the kernel resolves makes the processor retry;
        one it cannot resolve kills the process, and nothing has been stored. */
    method UserWrite(a: nat, v: Page, j: nat, w: Word) returns (ok: bool)
      requires Ok() && St().Live(a) && j < 512
      modifies this`mem, pmm`freeFrames, pmm`bits, pmm.bitmap, pmm.refcounts
      ensures Ok()
      ensures Step(old(St()), Write(a, v, j, w), ok, St())
      ensures ok <==> CanWrite(old(St()), a, v)
    {
      hide Inv, Total, PathOpen, FaultStep, OwnerOk, CopyOk, FrameLeft, PageAt, Step, CanWrite;
      ghost var s := St();
      ghost var faults := 0;
      FaultNone(s, a, v);
      var f := MmuWritable(spaces[a].value, v);
      MmuFacts(s, a, v);
      while f.None?
        invariant Ok() && spaces == s.spaces
        invariant faults == 0 ==> St() == s
        invariant faults > 0 ==> Resolvable(s, a, v) && FaultDone(s, St(), a, v)
        invariant FaultStep(s, St(), a, v)
        invariant f.Some?
             <==> PathOpen(St(), a, v) && Storable(PageAt(St(), a, v))
        invariant f.Some? ==> f.value == PageAt(St(), a, v).value.frame
        decreases if faults == 0 then 1 else 0
      {
        ghost var before := St();
        var handled := HandleCowFault(a, v);
        if !handled {
          WriteFailed(s, St(), a, v, j, w);
          return false;
        }
        FaultOnce(s, before, a, v);
        FaultResolved(before, St(), a, v);
        faults := faults + 1;
        f := MmuWritable(spaces[a].value, v);
        MmuFacts(St(), a, v);
      }
      StoreDone(s, St(), a, v, j, w);
      mem := mem[f.value := mem[f.value][j := w]];
      return true;
    }

    // -------------------------------------------------------------- operations on slots

    /** An empty address space for slot a. False: the kernel panics. */
    method SpawnSpace(a: nat, kernelPml4: FrameNo) returns (ok: bool)
      requires Ok() && a < |spaces| && !St().Live(a)
      modifies this, pmm`freeFrames, pmm`bits, pmm.bitmap, pmm.refcounts
      ensures ok ==> Ok() && Step(old(St()), Spawn(a), true, St())
      ensures ok <==> FreeFrames(old(pmm.State())) != {}
    {
      hide Inv, Sees, ReadPage;
      ghost var s := St();
      var r := CreateUserPml4(kernelPml4);
      if r.None? {
        return false;
      }
      ghost var mid := St();
      AllocKeeps(s, mid, r.value);
      spaces := spaces[a := Some(r.value)];
      AttachKeeps(mid, St(), a, r.value);
      return true;
    }

    /** Map a new page of slot a, filled with `contents`. False: the kernel panics. */
    method MapPage(a: nat, v: Page, flags: Word, contents: Frame) returns (ok: bool)
      requires Ok() && St().Live(a) && flags.present
      modifies this`mem, pmm`freeFrames, pmm`bits, pmm.bitmap, pmm.refcounts
      ensures ok ==> Ok() && Step(old(St()), Map(a, v, flags, contents), true, St())
      ensures ok ==> MapPermits(old(St()), St(), a, v, flags)
      ensures ok ==> Room(old(mem), 4, spaces[a].value, v)
      ensures !ok ==> Valid() && (!Room(old(mem), 4, spaces[a].value, v) || FreeFrames(pmm.State()) == {})
    {
      hide Inv, ReadPage, Mapped, CanMap, FreshFrame, MapPermits;
      ghost var s := St();
      var r := AllocFilled(contents);
      if r.None? {
        return false;
      }
      var f := r.value;
      ghost var mid := St();
      AllocKeeps(s, mid, f);
      MapCan(mid, a);
      RoomAfter(s, mid, a, f, v);
      ghost var news;
      ok, news := MapAt(4, spaces[a].value, v, flags.(frame := f));
      if ok {
        assert MapOk(mid, St(), a, v, flags.(frame := f), news);
        MapKeeps(mid, St(), a, v, flags.(frame := f), news);
        MapOpens(s, St(), a, v, flags, contents);
      }
    }

    /** A frame from the allocator, zeroed and then filled by the loader. */
    method AllocFilled(contents: Frame) returns (r: Option<FrameNo>)
      requires Ok()
      modifies this`mem, pmm`freeFrames, pmm`bits, pmm.bitmap, pmm.refcounts
      ensures Valid()
      ensures r.Some? ==> AllocOk(old(St()), St(), r.value) && mem[r.value] == contents
      ensures r.None? ==> FreeFrames(pmm.State()) == {}
    {
      hide Inv;
      var f := pmm.AllocFrame();
      if f.None? {
        return None;
      }
      var n: FrameNo := f.value;
      mem := mem[n := ZeroFrame()];
      mem := mem[n := contents];
      return Some(n);
    }

    /** Fork slot a into the free slot b. None: the kernel panics before anything is shared.
        Some(false): out of frames while sharing; the child's PML4 frame is not given back. */
    method ForkSpace(a: nat, b: nat, kernelPml4: FrameNo) returns (r: Option<bool>)
      requires Ok() && St().Live(a) && b < |spaces| && !St().Live(b) && Countable(St(), a)
      modifies this, pmm`freeFrames, pmm`bits, pmm.bitmap, pmm.refcounts
      ensures r.Some? ==> Ok() && Step(old(St()), Fork(a, b), r.value, St())
      ensures r.None? <==> FreeFrames(old(pmm.State())) == {}
      ensures r == Some(true) <==> Tables(Tree(old(St()), a)) <= |FreeFrames(old(pmm.State()))|
      ensures r == Some(true) ==>
                |FreeFrames(pmm.State())| == |FreeFrames(old(pmm.State()))| - Tables(Tree(old(St()), a))
      ensures r == Some(false) ==> |FreeFrames(pmm.State())| == |FreeFrames(old(pmm.State()))| - 1
    {
      hide Inv, Forked, ForkFailed, CanCopy, FreshPml4, AllocOk, Step, Countable, FreeFrames;
      ghost var s := St();
      var child := CreateUserPml4(kernelPml4);
      if child.None? {
        return None;
      }
      ghost var mid := St();
      ForkBegins(s, mid, a, b, child.value);
      ghost var news;
      var ok;
      ok, news := CopyUserPages(spaces[a].value, child.value);
      if ok {
        spaces := spaces[b := child];
        ForkShared(s, mid, St(), a, b, child.value, news);
      } else {
        ForkGaveUp(s, mid, St(), a, b, child.value);
      }
      return Some(ok);
    }

    /** sys_fork: after the copy it still needs a kernel stack and a process slot. Without them it
        reports an error but keeps the whole child: its tables stay allocated, its pages stay
        shared and counted, and no process owns slot b, so nothing ever tears it down. A kernel
        stack it did get is lost with it. */
    method SysFork(a: nat, b: nat, kernelPml4: FrameNo, stack: bool, process: bool) returns (r: ForkResult)
      requires Ok() && St().Live(a) && b < |spaces| && !St().Live(b) && Countable(St(), a)
      modifies this, pmm`freeFrames, pmm`bits, pmm.bitmap, pmm.refcounts
      ensures r.Halted? <==> FreeFrames(old(pmm.State())) == {}
      ensures !r.Halted? ==> Ok() && Step(old(St()), Fork(a, b), !r.NoFrames?, St())
      ensures r.Child? <==> Tables(Tree(old(St()), a)) <= |FreeFrames(old(pmm.State()))| && stack && process
      ensures r.Abandoned? <==> Tables(Tree(old(St()), a)) <= |FreeFrames(old(pmm.State()))| && !(stack && process)
      ensures r.Child? || r.Abandoned? ==>
                |FreeFrames(pmm.State())| == |FreeFrames(old(pmm.State()))| - Tables(Tree(old(St()), a))
      ensures r.NoFrames? ==> |FreeFrames(pmm.State())| == |FreeFrames(old(pmm.State()))| - 1
    {
      hide Inv, Step, ReadPage;
      var shared := ForkSpace(a, b, kernelPml4);
      if shared.None? {
        return Halted;
      }
      if !shared.value {
        return NoFrames;
      }
      if !stack || !process {
        return Abandoned;
      }
      return Child;
    }

    /** Tear down slot a. */
    method ExitSpace(a: nat)
      requires Ok() && St().Live(a)
      modifies this, pmm`freeFrames, pmm`bits, pmm.bitmap, pmm.refcounts
      ensures Ok() && Step(old(St()), Exit(a), true, St())
    {
      hide Inv, ReadPage, Released, CanFree;
      ghost var s := St();
      ExitCanFree(s, a);
      FreeUserAddressSpace(spaces[a].value);
      spaces := spaces[a := None];
      ExitKeeps(s, St(), a);
    }
  }

  lemma StoreDone(s: State, mid: State, a: nat, v: Page, j: nat, w: Word)
    requires Inv(s) && Inv(mid) && j < 512 && FaultStep(s, mid, a, v)
    requires mid == s || (Resolvable(s, a, v) && FaultDone(s, mid, a, v))
    requires PathOpen(mid, a, v) && Storable(PageAt(mid, a, v))
    ensures Inv(Store(mid, PageAt(mid, a, v).value.frame, j, w)) && CanWrite(s, a, v)
    ensures Step(s, Write(a, v, j, w), true, Store(mid, PageAt(mid, a, v).value.frame, j, w))
  {
    hide Inv, PageAt, FaultStep, PathOpen, Step, CanWrite, Resolvable, FaultDone, ReadPage;
    StoreKeeps(mid, Store(mid, PageAt(mid, a, v).value.frame, j, w), a, v, j, w);
    WriteStored(s, mid, a, v, j, w);
  }

  lemma ForkBegins(s: State, mid: State, a: nat, b: nat, child: FrameNo)
    requires Inv(s) && s.Live(a) && b < |s.spaces| && !s.Live(b) && Countable(s, a)
    requires AllocOk(s, mid, child) && forall i :: 0 <= i < 256 ==> !mid.mem[child][i].present
    ensures Inv(mid) && FreshPml4(mid, child) && ForkStarted(s, mid, a, b, child)
    ensures CanCopy(mid.mem, mid.pm, 4, mid.spaces[a].value, child)
    ensures mid.spaces == s.spaces && Tree(mid, a) == Tree(s, a) && |FreeFrames(mid.pm)| == |FreeFrames(s.pm)| - 1
  {
    hide Inv, CanCopy, Countable, FreeFrames;
    AllocKeeps(s, mid, child);
    ForkRoom(s, mid, a, child);
    ForkCanCopy(mid, a, child);
  }

  lemma ForkShared(s: State, mid: State, s': State, a: nat, b: nat, child: FrameNo, news: seq<FrameNo>)
    requires Inv(mid) && FreshPml4(mid, child) && ForkStarted(s, mid, a, b, child) && mid.spaces == s.spaces
    requires Forked(mid.mem, mid.pm, s'.mem, s'.pm, mid.spaces[a].value, child, news) && Pmm.Consistent(s'.pm)
    requires s'.spaces == mid.spaces[b := Some(child)]
    ensures Inv(s') && Step(s, Fork(a, b), true, s')
  {
    hide Inv, Forked, FreshPml4, AllocOk, Pmm.Consistent;
    assert ForkOk(mid, s', a, b, child, news);
    ForkKeeps(mid, s', a, b, child, news);
  }

  lemma ForkGaveUp(s: State, mid: State, s': State, a: nat, b: nat, child: FrameNo)
    requires Inv(mid) && FreshPml4(mid, child) && ForkStarted(s, mid, a, b, child) && mid.spaces == s.spaces
    requires ForkFailed(mid.mem, mid.pm, s'.mem, mid.spaces[a].value, child) && s'.pm == mid.pm
    requires s'.spaces == mid.spaces
    ensures Inv(s') && Step(s, Fork(a, b), false, s')
  {
    hide Inv, ForkFailed, FreshPml4, AllocOk;
    assert ForkFailedOk(mid, s', a, child);
    ForkFailedKeeps(mid, s', a, child);
  }
}
