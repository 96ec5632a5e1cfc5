/** Copy-on-write memory refines private memory: over every run of spawn, map, fork, store and
    exit, each process reads exactly the bytes of a system in which fork copies everything and
    a store changes one process only (indo-kernel/src/memory/vmm.rs, lines 594-848). */
module CowRefinement {
  import opened Wrappers
  import opened PageTables
  import opened ForkCopy
  import opened Teardown
  import opened PageUpdate
  import opened PageGraft
  import opened Spaces
  import opened ForkStep
  import opened CowSteps
  import Pmm

  // ---------------------------------------------------------------- the simple system

  datatype Op =
    | Spawn(a: nat)
    | Map(a: nat, v: Page, flags: Word, contents: Frame)
    | Fork(a: nat, b: nat)
    | Write(a: nat, v: Page, j: nat, w: Word)
    | Exit(a: nat)

  /** Each live slot owns its pages outright. */
  type Private = seq<Option<map<Page, Frame>>>

  function Holds(m: Private, a: nat, v: Page): Option<Frame> {
    if a < |m| && m[a].Some? && v in m[a].value then Some(m[a].value[v]) else None
  }

  /** One step of the simple system; an operation that failed changes nothing. */
  function Eager(m: Private, op: Op, ok: bool): Private {
    if !ok then m else
    match op
    case Spawn(a) => if a < |m| then m[a := Some(map[])] else m
    case Map(a, v, _, contents) => if a < |m| && m[a].Some? then m[a := Some(m[a].value[v := contents])] else m
    case Fork(a, b) => if a < |m| && b < |m| then m[b := m[a]] else m
    case Write(a, v, j, w) =>
      if Holds(m, a, v).Some? && j < 512 then m[a := Some(m[a].value[v := m[a].value[v][j := w]])] else m
    case Exit(a) => if a < |m| then m[a := None] else m
  }

  function EagerRun(m: Private, ops: seq<(Op, bool)>): Private {
    if ops == [] then m
    else Eager(EagerRun(m, ops[..|ops| - 1]), ops[|ops| - 1].0, ops[|ops| - 1].1)
  }

  // ---------------------------------------------------------------- the kernel's steps

  ghost predicate SpawnStep(s: State, s': State, a: nat) {
    && a < |s.spaces| && !s.Live(a)
    && exists mid, f: FrameNo :: AllocOk(s, mid, f) && (forall i :: 0 <= i < 256 ==> !mid.mem[f][i].present)
                        && s' == mid.(spaces := s.spaces[a := Some(f)])
  }

  ghost predicate MapStep(s: State, s': State, a: nat, v: Page, flags: Word, contents: Frame) {
    exists mid, news, f: FrameNo ::
      AllocOk(s, mid, f) && mid.mem[f] == contents && MapOk(mid, s', a, v, flags.(frame := f), news)
  }

  ghost predicate ForkStarted(s: State, mid: State, a: nat, b: nat, child: FrameNo) {
    && s.Live(a) && b < |s.spaces| && !s.Live(b)
    && AllocOk(s, mid, child) && (forall i :: 0 <= i < 256 ==> !mid.mem[child][i].present)
  }

  ghost predicate ForkRun(s: State, s': State, a: nat, b: nat, ok: bool) {
    exists mid, child: FrameNo :: ForkStarted(s, mid, a, b, child) &&
      if ok then Pmm.Consistent(s'.pm) && exists news :: ForkOk(mid, s', a, b, child, news)
      else ForkFailedOk(mid, s', a, child)
  }

  /** What a fault on page v may have done before the store is retried. */
  ghost predicate FaultStep(s: State, s': State, a: nat, v: Page) {
    s' == s || OwnerOk(s, s', a, v) || exists n :: CopyOk(s, s', a, v, n)
  }

  ghost predicate FrameLeft(s: State) {
    exists f :: 1 <= f < |s.pm.used| && !s.pm.used[f]
  }

  /** A write fault on page v can be resolved. */
  ghost predicate Resolvable(s: State, a: nat, v: Page) {
    && PageAt(s, a, v).Some?
    && if Total(s, PageAt(s, a, v).value.frame) > 1 then FrameLeft(s) else !PageAt(s, a, v).value.writable
  }

  /** A user store to page v goes through, after at most one fault. */
  ghost predicate CanWrite(s: State, a: nat, v: Page) {
    && PathOpen(s, a, v)
    && PageAt(s, a, v).Some? && PageAt(s, a, v).value.user
    && (Total(s, PageAt(s, a, v).value.frame) == 1 || FrameLeft(s))
  }

  ghost predicate WriteStep(s: State, s': State, a: nat, v: Page, j: nat, w: Word, ok: bool) {
    exists mid :: FaultStep(s, mid, a, v) &&
      if ok then j < 512 && PageAt(mid, a, v).Some? && PageAt(mid, a, v).value.writable
                 && s' == Store(mid, PageAt(mid, a, v).value.frame, j, w)
      else s' == mid
  }

  /** Spawning, mapping and creating a child PML4 halt the kernel when frames run out,
      so a run never continues past such a failure. */
  ghost predicate Step(s: State, op: Op, ok: bool, s': State) {
    match op
    case Spawn(a) => ok && SpawnStep(s, s', a)
    case Map(a, v, flags, contents) => ok && MapStep(s, s', a, v, flags, contents)
    case Fork(a, b) => ForkRun(s, s', a, b, ok)
    case Write(a, v, j, w) => WriteStep(s, s', a, v, j, w, ok)
    case Exit(a) => ok && ExitOk(s, s', a)
  }

  // ---------------------------------------------------------------- refinement

  /** Every process reads from the kernel's memory what it would read from its own. */
  ghost predicate Sees(s: State, m: Private) {
    && |m| == |s.spaces|
    && (forall a: nat :: a < |m| ==> (m[a].Some? <==> s.Live(a)))
    && forall a: nat, v :: ReadPage(s, a, v) == Holds(m, a, v)
  }

  lemma AttachAt(s: State, s': State, a: nat, f: FrameNo, c: nat)
    requires a < |s.spaces| && !s.Live(a) && FreshPml4(s, f) && s' == s.(spaces := s.spaces[a := Some(f)])
    ensures TableFrames(s', c) == if c == a then {f} else TableFrames(s, c)
    ensures Sound(s', c) == (c == a || Sound(s, c))
    ensures forall g: FrameNo :: Refs(s', c, g) == Refs(s, c, g)
    ensures forall u :: PageAt(s', c, u) == PageAt(s, c, u)
  {
    if c == a {
      var t := Tree(s', a);
      forall i | 0 <= i < |t.kids| ensures t.kids[i] == Hole {
        KidIs(s.mem, 4, f, i);
      }
      EmptyTable(t);
      forall g: FrameNo ensures Count(t, g) == 0 {
        CountHoles(t.kids, g);
      }
      forall u ensures Lookup(t, 4, u) == None {
        assert t.kids[Index(u, 4)] == Hole;
      }
    }
  }

  lemma AttachKeeps(s: State, s': State, a: nat, f: FrameNo)
    requires Inv(s) && a < |s.spaces| && !s.Live(a) && FreshPml4(s, f) && s' == s.(spaces := s.spaces[a := Some(f)])
    ensures Inv(s')
    ensures forall c: nat, u :: ReadPage(s', c, u) == ReadPage(s, c, u)
  {
    hide TableFrames, Refs, PageAt, Sound, Total;
    forall c: nat ensures TableFrames(s', c) == (if c == a then {f} else TableFrames(s, c)) && Sound(s', c) {
      AttachAt(s, s', a, f, c);
    }
    forall c: nat, g: FrameNo ensures Refs(s', c, g) == Refs(s, c, g) {
      AttachAt(s, s', a, f, c);
    }
    forall c: nat, u ensures PageAt(s', c, u) == PageAt(s, c, u) {
      AttachAt(s, s', a, f, c);
    }
    forall g: FrameNo ensures Total(s', g) == Total(s, g) {
      TotalSame(s, s', g);
    }
  }

  lemma SpawnRefines(s: State, s': State, a: nat, m: Private)
    requires Inv(s) && Sees(s, m) && SpawnStep(s, s', a)
    ensures Inv(s') && Sees(s', Eager(m, Spawn(a), true))
  {
    hide Inv, ReadPage;
    var mid, f: FrameNo :| AllocOk(s, mid, f) && (forall i :: 0 <= i < 256 ==> !mid.mem[f][i].present)
        && s' == mid.(spaces := s.spaces[a := Some(f)]);
    AllocKeeps(s, mid, f);
    AttachKeeps(mid, s', a, f);
    forall v ensures ReadPage(s, a, v) == None {
      assert ReadPage(s, a, v) == Holds(m, a, v);
    }
  }

  lemma MapRefines(s: State, s': State, a: nat, v: Page, flags: Word, contents: Frame, m: Private)
    requires Inv(s) && Sees(s, m) && MapStep(s, s', a, v, flags, contents)
    ensures Inv(s') && Sees(s', Eager(m, Map(a, v, flags, contents), true))
  {
    hide Inv, ReadPage, Mapped, FreshFrame;
    var mid, news, f: FrameNo :| AllocOk(s, mid, f) && mid.mem[f] == contents
        && MapOk(mid, s', a, v, flags.(frame := f), news);
    AllocKeeps(s, mid, f);
    MapKeeps(mid, s', a, v, flags.(frame := f), news);
  }

  /** After mapping page v: if it is mapped for user writes, a user store to it goes through. Wherever
      one could go before, it still can; and without write and user permission no way is opened. */
  ghost predicate MapPermits(s: State, s': State, a: nat, v: Page, flags: Word) {
    && (flags.writable && flags.user ==> PathOpen(s', a, v) && CanWrite(s', a, v))
    && (forall c: nat, u :: PathOpen(s, c, u) ==> PathOpen(s', c, u))
    && (!flags.writable && !flags.user ==> forall c: nat, u :: PathOpen(s', c, u) ==> PathOpen(s, c, u))
  }

  lemma MapOpens(s: State, s': State, a: nat, v: Page, flags: Word, contents: Frame)
    requires Inv(s) && MapStep(s, s', a, v, flags, contents)
    ensures MapPermits(s, s', a, v, flags)
  {
    hide Inv, ReadPage, FreshFrame, PathOpen, MapOk;
    var mid, news, f: FrameNo :| AllocOk(s, mid, f) && mid.mem[f] == contents
        && MapOk(mid, s', a, v, flags.(frame := f), news);
    AllocKeeps(s, mid, f);
    MapAlone(mid, s', a, v, flags.(frame := f), news);
    forall c: nat, u
      ensures PathOpen(s, c, u) ==> PathOpen(s', c, u)
      ensures flags.writable && flags.user ==> PathOpen(s', a, v)
      ensures !flags.writable && !flags.user && PathOpen(s', c, u) ==> PathOpen(s, c, u)
    {
      AllocPath(s, mid, f, c, u);
      MapPathAt(mid, s', a, v, flags.(frame := f), news, c, u);
    }
    assert PathOpen(s, a, v) ==> PathOpen(s', a, v);
  }

  /** A fork closes no way to a page, and opens one to every page of the child; the leaves of both are
      the parent's, read-only. */
  lemma ForkOpens(s: State, s': State, a: nat, b: nat, ok: bool, c: nat, u: Page)
    requires Inv(s) && ForkRun(s, s', a, b, ok)
    ensures c != b || !ok ==> PathOpen(s', c, u) == PathOpen(s, c, u)
    ensures ok && PageAt(s, a, u).Some? ==> PathOpen(s', b, u)
    ensures ok ==> PageAt(s', c, u) == if c == a || c == b then Shared(PageAt(s, a, u)) else PageAt(s, c, u)
    ensures !ok ==> PageAt(s', c, u) == PageAt(s, c, u) || (c == a && PageAt(s', c, u) == Shared(PageAt(s, c, u)))
  {
    hide ReadPage, FreshPml4, FreshFrame, Forked, ForkFailed, PathOpen, TablesOk, CountsOk, WritesPrivate;
    var mid, child: FrameNo :| ForkStarted(s, mid, a, b, child) &&
      if ok then Pmm.Consistent(s'.pm) && exists news :: ForkOk(mid, s', a, b, child, news)
      else ForkFailedOk(mid, s', a, child);
    AllocKeeps(s, mid, child);
    AllocPath(s, mid, child, c, u);
    AllocPage(s, mid, child, a, u);
    AllocPage(s, mid, child, c, u);
    if ok {
      var news :| ForkOk(mid, s', a, b, child, news);
      ForkPath(mid, s', a, b, child, news, c, u);
    } else {
      ForkFailedPath(mid, s', a, child, c, u);
    }
  }

  lemma AllocPage(s: State, s': State, f: FrameNo, c: nat, u: Page)
    requires Inv(s) && AllocOk(s, s', f)
    ensures PageAt(s', c, u) == PageAt(s, c, u)
  {
    hide TableFrames, Refs, PageAt, Sound, Total, PathOpen;
    SameTree(s, s', c);
  }

  lemma MapPathAt(s: State, s': State, a: nat, v: Page, w: Word, news: seq<FrameNo>, c: nat, u: Page)
    requires Inv(s) && MapOk(s, s', a, v, w, news)
    ensures w.writable && w.user ==> PathOpen(s', a, v)
    ensures PathOpen(s, c, u) ==> PathOpen(s', c, u)
    ensures !w.writable && !w.user ==> PathOpen(s', c, u) == PathOpen(s, c, u)
  {
    hide PathOpen, MapOk, TablesOk;
    MapPath(s, s', a, v, w, news, c, u);
  }

  /** The new page is alone on its frame. */
  lemma MapAlone(s: State, s': State, a: nat, v: Page, w: Word, news: seq<FrameNo>)
    requires Inv(s) && MapOk(s, s', a, v, w, news)
    ensures PageAt(s', a, v) == Some(w) && Total(s', w.frame) == 1
  {
    hide TableFrames, Refs, PageAt, Sound, Total, TablesOk, CountsOk, WritesPrivate, Mapped, Elems;
    MapHasEffect(s, s', a, v, w, news);
    TotalChange(s, s', a, w.frame);
  }

  lemma ForkRefines(s: State, s': State, a: nat, b: nat, ok: bool, m: Private)
    requires Inv(s) && Sees(s, m) && ForkRun(s, s', a, b, ok)
    ensures Inv(s') && Sees(s', Eager(m, Fork(a, b), ok))
  {
    hide Inv, ReadPage, FreshFrame, Forked, ForkFailed;
    var mid, child: FrameNo :| ForkStarted(s, mid, a, b, child) &&
      if ok then Pmm.Consistent(s'.pm) && exists news :: ForkOk(mid, s', a, b, child, news)
      else ForkFailedOk(mid, s', a, child);
    AllocKeeps(s, mid, child);
    if ok {
      var news :| ForkOk(mid, s', a, b, child, news);
      ForkKeeps(mid, s', a, b, child, news);
      forall c: nat, v ensures ReadPage(s', c, v) == ReadPage(s, if c == b then a else c, v) {
        ForkView(mid, s', a, b, child, news, c, v);
      }
    } else {
      ForkFailedKeeps(mid, s', a, child);
    }
  }

  lemma FaultKeeps(s: State, s': State, a: nat, v: Page)
    requires Inv(s) && FaultStep(s, s', a, v)
    ensures Inv(s') && s'.spaces == s.spaces
    ensures forall c: nat, u :: ReadPage(s', c, u) == ReadPage(s, c, u)
  {
    hide Inv, ReadPage;
    if s' != s {
      if OwnerOk(s, s', a, v) {
        OwnerKeeps(s, s', a, v);
      } else {
        var n :| CopyOk(s, s', a, v, n);
        CopyKeeps(s, s', a, v, n);
      }
    }
  }

  lemma WriteRefines(s: State, s': State, a: nat, v: Page, j: nat, w: Word, ok: bool, m: Private)
    requires Inv(s) && Sees(s, m) && WriteStep(s, s', a, v, j, w, ok)
    ensures Inv(s') && Sees(s', Eager(m, Write(a, v, j, w), ok))
  {
    hide Inv, FaultStep, PageAt;
    var mid :| FaultStep(s, mid, a, v) &&
      if ok then j < 512 && PageAt(mid, a, v).Some? && PageAt(mid, a, v).value.writable
                 && s' == Store(mid, PageAt(mid, a, v).value.frame, j, w)
      else s' == mid;
    FaultKeeps(s, mid, a, v);
    if ok {
      StoreKeeps(mid, s', a, v, j, w);
      assert ReadPage(s, a, v) == Holds(m, a, v);
      assert ReadPage(mid, a, v).Some?;
    }
  }

  lemma ExitRefines(s: State, s': State, a: nat, m: Private)
    requires Inv(s) && Sees(s, m) && ExitOk(s, s', a)
    ensures Inv(s') && Sees(s', Eager(m, Exit(a), true))
  {
    hide Inv, ReadPage, Released;
    ExitKeeps(s, s', a);
  }

  /** One step of the kernel is one step of the simple system, as every process sees it. */
  lemma StepRefines(s: State, op: Op, ok: bool, s': State, m: Private)
    requires Inv(s) && Sees(s, m) && Step(s, op, ok, s')
    ensures Inv(s') && Sees(s', Eager(m, op, ok))
  {
    hide Inv, Sees, SpawnStep, MapStep, ForkRun, WriteStep, ExitOk;
    match op
    case Spawn(a) => SpawnRefines(s, s', a, m);
    case Map(a, v, flags, contents) => MapRefines(s, s', a, v, flags, contents, m);
    case Fork(a, b) => ForkRefines(s, s', a, b, ok, m);
    case Write(a, v, j, w) => WriteRefines(s, s', a, v, j, w, ok, m);
    case Exit(a) => ExitRefines(s, s', a, m);
  }

  ghost predicate IsRun(states: seq<State>, ops: seq<(Op, bool)>) {
    && |states| == |ops| + 1
    && forall k :: 0 <= k < |ops| ==> Step(states[k], ops[k].0, ops[k].1, states[k + 1])
  }

  /** Every reachable state keeps the invariant and looks like private memory. */
  lemma {:induction false} RunRefines(states: seq<State>, ops: seq<(Op, bool)>, m: Private)
    requires IsRun(states, ops) && Inv(states[0]) && Sees(states[0], m)
    ensures Inv(states[|ops|]) && Sees(states[|ops|], EagerRun(m, ops))
    decreases |ops|
  {
    if ops != [] {
      hide Inv, Sees, Step;
      var n := |ops| - 1;
      assert states[..n + 1][n] == states[n];
      RunRefines(states[..n + 1], ops[..n], m);
      StepRefines(states[n], ops[n].0, ops[n].1, states[n + 1], EagerRun(m, ops[..n]));
    }
  }

  /** Before any process exists the invariant holds, whatever memory contains. */
  lemma InitialState(s: State)
    requires Pmm.Consistent(s.pm) && |s.pm.used| <= FRAME_LIMIT
    requires forall a :: 0 <= a < |s.spaces| ==> s.spaces[a] == None
    ensures Inv(s)
    ensures Sees(s, seq(|s.spaces|, _ => None))
  {
    forall f: FrameNo ensures Total(s, f) == 0 {
      EmptyTotal(s, |s.spaces|, f);
    }
  }

  lemma {:induction false} EmptyTotal(s: State, n: nat, f: FrameNo)
    requires forall a :: 0 <= a < |s.spaces| ==> s.spaces[a] == None
    ensures TotalTo(s, n, f) == 0
  {
    if n > 0 {
      EmptyTotal(s, n - 1, f);
    }
  }

  // ---------------------------------------------------------------- the retry loop of a store

  /** After a resolved fault the page is writable and alone on its frame; nothing else the
      processor checks has changed. */
  ghost predicate FaultDone(s: State, s': State, a: nat, v: Page) {
    && PageAt(s, a, v).Some? && PageAt(s', a, v).Some?
    && PageAt(s', a, v).value.writable && PageAt(s', a, v).value.user == PageAt(s, a, v).value.user
    && PathOpen(s', a, v) == PathOpen(s, a, v)
    && Total(s', PageAt(s', a, v).value.frame) == 1
  }

  lemma FaultNone(s: State, a: nat, v: Page)
    ensures FaultStep(s, s, a, v)
  {
  }

  lemma MmuFacts(s: State, a: nat, v: Page)
    requires s.Live(a)
    ensures PathOpen(s, a, v) == PathAbove(Tree(s, a), 4, v)
    ensures PageAt(s, a, v) == Lookup(Tree(s, a), 4, v)
  {
  }

  lemma FaultResolved(s: State, s': State, a: nat, v: Page)
    requires Inv(s) && Inv(s')
    requires OwnerOk(s, s', a, v) || exists n :: CopyOk(s, s', a, v, n)
    ensures FaultStep(s, s', a, v) && FaultDone(s, s', a, v)
  {
    hide TableFrames, Refs, PageAt, Sound, Total, CountsOk, WritesPrivate, TablesOk, Poked, PathOpen, ReadPage;
    if OwnerOk(s, s', a, v) {
      OwnerKeeps(s, s', a, v);
      PokedPath(s, s', a, v, PageAt(s, a, v).value.(writable := true));
    } else {
      var n :| CopyOk(s, s', a, v, n);
      CopyKeeps(s, s', a, v, n);
      PokedPath(s, s', a, v, PageAt(s, a, v).value.(frame := n, writable := true));
    }
    WritablePrivate(s', a, v);
  }

  lemma WritablePrivate(s: State, a: nat, v: Page)
    requires Inv(s) && PageAt(s, a, v).Some? && PageAt(s, a, v).value.writable
    ensures Total(s, PageAt(s, a, v).value.frame) == 1
  {
  }

  /** A second fault is never resolvable, so the retry loop runs at most once. */
  lemma FaultOnce(s: State, before: State, a: nat, v: Page)
    requires Resolvable(before, a, v)
    ensures !FaultDone(s, before, a, v)
  {
  }

  lemma WriteFailed(s: State, s': State, a: nat, v: Page, j: nat, w: Word)
    requires Inv(s) && Inv(s') && FaultStep(s, s', a, v) && !Resolvable(s', a, v)
    requires s' == s || (Resolvable(s, a, v) && FaultDone(s, s', a, v))
    requires !(PathOpen(s', a, v) && PageAt(s', a, v).Some? && PageAt(s', a, v).value.writable
               && PageAt(s', a, v).value.user)
    ensures Step(s, Write(a, v, j, w), false, s')
    ensures !CanWrite(s, a, v)
  {
    hide TableFrames, Refs, PageAt, Sound, Total, CountsOk, TablesOk, PathOpen, FaultStep, FrameLeft;
    if PageAt(s, a, v).Some? {
      FaultFacts(s, a, v);
    }
  }

  lemma WriteStored(s: State, mid: State, a: nat, v: Page, j: nat, w: Word)
    requires Inv(s) && j < 512 && FaultStep(s, mid, a, v)
    requires mid == s || (Resolvable(s, a, v) && FaultDone(s, mid, a, v))
    requires PathOpen(mid, a, v) && PageAt(mid, a, v).Some? && PageAt(mid, a, v).value.writable
    requires PageAt(mid, a, v).value.user
    ensures Step(s, Write(a, v, j, w), true, Store(mid, PageAt(mid, a, v).value.frame, j, w))
    ensures CanWrite(s, a, v)
  {
    hide TableFrames, Refs, PageAt, Sound, Total, CountsOk, TablesOk, PathOpen, FaultStep, FrameLeft;
    assert PageAt(s, a, v).Some?;
    FaultFacts(s, a, v);
  }

  // ---------------------------------------------------------------- fork and exit cancel

  /** Forking and then tearing the child down gives back every frame and every reference. */
  lemma ForkThenExit(s: State, mid: State, s1: State, s2: State, a: nat, b: nat, child: FrameNo, news: seq<FrameNo>)
    requires Inv(s) && ForkStarted(s, mid, a, b, child) && ForkOk(mid, s1, a, b, child, news)
    requires Pmm.Consistent(s1.pm) && ExitOk(s1, s2, b)
    ensures s2.pm == s.pm && s2.spaces == s.spaces
    ensures forall c: nat, v :: ReadPage(s2, c, v) == ReadPage(s, c, v)
  {
    hide Inv, ReadPage, FreshFrame, Forked, Released, ForkEffect;
    AllocKeeps(s, mid, child);
    ForkKeeps(mid, s1, a, b, child, news);
    ExitKeeps(s1, s2, b);
    forall c: nat, v ensures ReadPage(s2, c, v) == ReadPage(s, c, v) {
      ForkView(mid, s1, a, b, child, news, c, v);
      if c == b {
        NotLiveReads(s, b, v);
      }
    }
    assert TablesOk(mid) && CountsOk(mid) && Pmm.Consistent(s.pm) by {
      InvParts(mid);
      InvParts(s);
    }
    ForkHasEffect(mid, s1, a, b, child, news);
    ForkExitSizes(s, mid, s1, s2, a, b, child, news);
    forall f: FrameNo | f < |s.pm.used| ensures s2.pm.used[f] == s.pm.used[f] && s2.pm.rc[f] == s.pm.rc[f] {
      ForkExitFrame(s, mid, s1, s2, a, b, child, news, f);
    }
    assert s2.pm.used == s.pm.used && s2.pm.rc == s.pm.rc;
  }

  lemma InvParts(s: State)
    requires Inv(s)
    ensures TablesOk(s) && CountsOk(s) && Pmm.Consistent(s.pm)
  {
  }

  lemma NotLiveReads(s: State, b: nat, v: Page)
    requires !s.Live(b)
    ensures ReadPage(s, b, v) == None
  {
  }

  lemma ForkExitSizes(s: State, mid: State, s1: State, s2: State, a: nat, b: nat, child: FrameNo, news: seq<FrameNo>)
    requires Inv(s) && ForkStarted(s, mid, a, b, child) && ForkOk(mid, s1, a, b, child, news) && ExitOk(s1, s2, b)
    ensures |s2.pm.used| == |s2.pm.rc| == |s.pm.used| == |s.pm.rc| == |s1.pm.used| == |s1.pm.rc| <= FRAME_LIMIT
    ensures s2.spaces == s.spaces
  {
    assert s2.spaces == s.spaces;
  }

  lemma ForkFrame(s: State, s': State, a: nat, b: nat, child: FrameNo, news: seq<FrameNo>, f: FrameNo)
    requires ForkOk(s, s', a, b, child, news) && f < |s.pm.used|
    ensures |s'.pm.used| == |s'.pm.rc| == |s.pm.used| == |s.pm.rc|
    ensures s'.pm.used[f] == (s.pm.used[f] || f in news)
    ensures s'.pm.rc[f] == if f in news then 1 else s.pm.rc[f] + Refs(s, a, f)
    ensures f in news ==> !s.pm.used[f]
  {
    hide Weakened, ReadOnly, Twin, FreshFrame;
  }

  lemma ExitFrame(s: State, s': State, a: nat, f: FrameNo)
    requires ExitOk(s, s', a) && f < |s.pm.used|
    ensures |s'.pm.used| == |s'.pm.rc| == |s.pm.used| == |s.pm.rc|
    ensures ReleasedFrame(s.pm.used[f], s.pm.rc[f], s'.pm.used[f], s'.pm.rc[f], f in TableFrames(s, a), Refs(s, a, f))
  {
  }

  lemma ForkExitFrame(s: State, mid: State, s1: State, s2: State, a: nat, b: nat, child: FrameNo, news: seq<FrameNo>,
                      f: FrameNo)
    requires Pmm.Consistent(s.pm) && CountsOk(mid)
    requires ForkStarted(s, mid, a, b, child) && ForkOk(mid, s1, a, b, child, news) && ExitOk(s1, s2, b)
    requires ForkEffect(mid, s1, a, b, child, news)
    requires f < |s.pm.used|
    ensures |s2.pm.used| == |s2.pm.rc| == |s.pm.used| == |s.pm.rc|
    ensures s2.pm.used[f] == s.pm.used[f] && s2.pm.rc[f] == s.pm.rc[f]
  {
    hide Forked, Released, FreshFrame, TableFrames, Refs, PageAt, Sound, ForkFrames, Total;
    ForkFrame(mid, s1, a, b, child, news, f);
    ExitFrame(s1, s2, b, f);
    TotalAtLeast(mid, a, f);
    assert Refs(s1, b, f) == Refs(mid, a, f);
    assert Total(mid, child) == 0 by {
      FreshTotal(mid, child);
    }
    TotalAtLeast(mid, a, child);
  }

  lemma FreshTotal(s: State, f: FrameNo)
    requires FreshFrame(s, f)
    ensures Total(s, f) == 0
  {
  }
}
