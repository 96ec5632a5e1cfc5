/** What a fork costs: one frame for every table of the parent. The copy fails exactly when
    fewer are free. */
module ForkCost {
  import opened PageTables
  import opened ForkCopy
  import opened Spaces
  import opened CowSteps
  import opened PageGraft
  import Pmm

  /** Frames the allocator can still hand out. */
  ghost function FreeFrames(p: Pmm.Frames): set<int> {
    set f | 1 <= f < |p.used| && !p.used[f]
  }

  lemma NoneLeft(p: Pmm.Frames)
    requires forall f :: 1 <= f < |p.used| ==> p.used[f]
    ensures FreeFrames(p) == {}
  {
  }

  // ---------------------------------------------------------------- counting tables

  ghost function Tables(t: Table): nat {
    1 + TablesKids(t.kids)
  }

  ghost function TablesKids(kids: seq<Kid>): nat {
    if kids == [] then 0 else TablesKids(kids[..|kids| - 1]) + TablesKid(kids[|kids| - 1])
  }

  ghost function TablesKid(k: Kid): nat {
    if k.Sub? then Tables(k.table) else 0
  }

  lemma TablesStep(kids: seq<Kid>, i: nat)
    requires i < |kids|
    ensures TablesKids(kids[..i + 1]) == TablesKids(kids[..i]) + TablesKid(kids[i])
  {
    assert kids[..i + 1][..i] == kids[..i];
  }

  lemma {:induction false} TablesPrefix(kids: seq<Kid>, i: nat)
    requires i <= |kids|
    ensures TablesKids(kids[..i]) <= TablesKids(kids)
    decreases |kids| - i
  {
    if i < |kids| {
      TablesStep(kids, i);
      TablesPrefix(kids, i + 1);
    } else {
      assert kids[..i] == kids;
    }
  }

  ghost function Union(kids: seq<Kid>, n: nat): set<FrameNo>
    requires n <= |kids|
  {
    if n == 0 then {} else Union(kids, n - 1) + KidFrames(kids[n - 1])
  }

  lemma {:induction false} UnionIn(kids: seq<Kid>, n: nat, f: FrameNo)
    requires n <= |kids|
    ensures f in Union(kids, n) <==> exists i :: 0 <= i < n && f in KidFrames(kids[i])
  {
    if n > 0 {
      UnionIn(kids, n - 1, f);
    }
  }

  lemma FramesUnion(t: Table)
    ensures Frames(t) == {t.frame} + Union(t.kids, |t.kids|)
  {
    forall f: FrameNo
      ensures f in Frames(t) <==> f in {t.frame} + Union(t.kids, |t.kids|)
    {
      UnionIn(t.kids, |t.kids|, f);
    }
  }

  /** The count is the number of table frames. */
  lemma {:induction false} TablesAreFrames(t: Table)
    requires Separated(t)
    ensures |Frames(t)| == Tables(t)
    decreases t, |t.kids| + 1
  {
    FramesUnion(t);
    UnionIn(t.kids, |t.kids|, t.frame);
    UnionSize(t, |t.kids|);
    assert t.kids[..|t.kids|] == t.kids;
    Disjoint({t.frame}, Union(t.kids, |t.kids|));
  }

  lemma {:induction false} UnionSize(t: Table, n: nat)
    requires Separated(t) && n <= |t.kids|
    ensures |Union(t.kids, n)| == TablesKids(t.kids[..n])
    decreases t, n
  {
    if n == 0 {
      assert t.kids[..0] == [];
    } else {
      UnionSize(t, n - 1);
      KidApart(t, n - 1);
      KidSize(t.kids[n - 1]);
      OneMoreKid(t.kids, n - 1);
    }
  }

  lemma OneMoreKid(kids: seq<Kid>, n: nat)
    requires n < |kids| && Union(kids, n) !! KidFrames(kids[n])
    requires |Union(kids, n)| == TablesKids(kids[..n]) && |KidFrames(kids[n])| == TablesKid(kids[n])
    ensures |Union(kids, n + 1)| == TablesKids(kids[..n + 1])
  {
    TablesStep(kids, n);
    Disjoint(Union(kids, n), KidFrames(kids[n]));
  }

  lemma {:induction false} KidSize(k: Kid)
    requires KidSeparated(k)
    ensures |KidFrames(k)| == TablesKid(k)
    decreases k, 0
  {
    if k.Sub? {
      TablesAreFrames(k.table);
    }
  }

  lemma KidApart(t: Table, n: nat)
    requires Separated(t) && n < |t.kids|
    ensures Union(t.kids, n) !! KidFrames(t.kids[n]) && KidSeparated(t.kids[n])
  {
    forall f | f in Union(t.kids, n)
      ensures f !in KidFrames(t.kids[n])
    {
      UnionIn(t.kids, n, f);
    }
  }

  lemma Disjoint(a: set<FrameNo>, b: set<FrameNo>)
    requires a !! b
    ensures |a + b| == |a| + |b|
  {
  }

  // ---------------------------------------------------------------- frames taken

  /** A copy that has handled the first i entries has taken one frame for each table below them. */
  ghost predicate Taken(t: Table, i: nat, news: seq<FrameNo>) {
    i <= |t.kids| && |news| == TablesKids(t.kids[..i])
  }

  /** How much a finished copy took, and how little one that stopped. */
  ghost predicate Cost(t: Table, ok: bool, news: seq<FrameNo>) {
    if ok then |news| + 1 == Tables(t) else |news| + 1 < Tables(t)
  }

  lemma TakenStart(t: Table)
    ensures Taken(t, 0, [])
  {
  }

  lemma TakenNext(t: Table, i: nat, news: seq<FrameNo>, more: seq<FrameNo>)
    requires Taken(t, i, news) && i < |t.kids| && |more| == TablesKid(t.kids[i])
    ensures Taken(t, i + 1, news + more)
  {
    TablesStep(t.kids, i);
  }

  lemma TakenAll(t: Table, news: seq<FrameNo>)
    requires Taken(t, |t.kids|, news)
    ensures Cost(t, true, news)
  {
    assert t.kids[..|t.kids|] == t.kids;
  }

  /** Stopped at entry i with part of its table copied. */
  lemma TakenPart(t: Table, i: nat, news: seq<FrameNo>, more: seq<FrameNo>)
    requires Taken(t, i, news) && i < |t.kids| && |more| < TablesKid(t.kids[i])
    ensures Cost(t, false, news + more)
  {
    TablesStep(t.kids, i);
    TablesPrefix(t.kids, i + 1);
  }

  /** Entry i of the parent is still what it was. */
  lemma KidStill(m: Memory, p: Pmm.Frames, m': Memory, p': Pmm.Frames, level: int, pt: FrameNo, ct: FrameNo,
                 i: int, news: seq<FrameNo>, incs: seq<FrameNo>)
    requires 1 <= level <= 4 && 0 <= i < Width(level) && Progress(m, p, m', p', level, pt, ct, i, news, incs)
    ensures TableAt(m, level, pt).kids[i] == KidAt(m', level, m'[pt][i])
  {
    hide PmDelta, MemDelta, ChildAt;
    KidIs(m', level, pt, i);
  }

  /** An entry with no table below it costs none. */
  lemma EntryTaken(m: Memory, p: Pmm.Frames, m': Memory, p': Pmm.Frames, level: int, pt: FrameNo, ct: FrameNo,
                   i: int, news: seq<FrameNo>, incs: seq<FrameNo>)
    requires 1 <= level <= 4 && 0 <= i < Width(level) && Progress(m, p, m', p', level, pt, ct, i, news, incs)
    requires Taken(TableAt(m, level, pt), i, news) && (level == 1 || !Followed(level, m'[pt][i]))
    ensures Taken(TableAt(m, level, pt), i + 1, news)
  {
    hide Progress, Taken;
    KidStill(m, p, m', p', level, pt, ct, i, news, incs);
    assert news + [] == news;
    TakenNext(TableAt(m, level, pt), i, news, []);
  }

  /** Out of frames before a table could be allocated. */
  lemma EntryStopped(m: Memory, p: Pmm.Frames, m': Memory, p': Pmm.Frames, level: int, pt: FrameNo, ct: FrameNo,
                     i: int, news: seq<FrameNo>, incs: seq<FrameNo>)
    requires 2 <= level <= 4 && 0 <= i < Width(level) && CanCopy(m, p, level, pt, ct)
    requires Progress(m, p, m', p', level, pt, ct, i, news, incs)
    requires Taken(TableAt(m, level, pt), i, news) && Followed(level, m'[pt][i])
    ensures Copied(m, p, m', p', level, pt, ct, false, news, incs) && Cost(TableAt(m, level, pt), false, news)
  {
    hide Progress, Taken, CanCopy, Copied, Cost;
    KidStill(m, p, m', p', level, pt, ct, i, news, incs);
    assert news + [] == news;
    TakenPart(TableAt(m, level, pt), i, news, []);
    ProgressStopped(m, p, m', p', level, pt, ct, i, news, incs);
  }

  // ---------------------------------------------------------------- the exact condition

  lemma DistinctSize(s: seq<FrameNo>)
    requires Distinct(s)
    ensures |Elems(s)| == |s|
  {
    if s != [] {
      var r := s[..|s| - 1];
      DistinctSize(r);
      assert s == r + [s[|s| - 1]];
      assert Elems(s) == Elems(r) + {s[|s| - 1]};
      assert s[|s| - 1] !in Elems(r);
    }
  }

  lemma SubsetSize<T>(a: set<T>, b: set<T>)
    requires a <= b
    ensures |a| <= |b|
  {
    assert b == a + (b - a);
  }

  /** The copy succeeds exactly when every table of the parent can have a counterpart. */
  lemma EnoughIff(p: Pmm.Frames, p': Pmm.Frames, t: Table, ok: bool, news: seq<FrameNo>, incs: seq<FrameNo>)
    requires PmDelta(p, p', news, incs) && Cost(t, ok, news) && (!ok ==> FreeFrames(p') == {})
    ensures ok <==> Tables(t) - 1 <= |FreeFrames(p)|
  {
    DistinctSize(news);
    var taken: set<int> := set f | f in news :: f;
    assert taken == Elems(news);
    if ok {
      assert taken <= FreeFrames(p);
      SubsetSize(taken, FreeFrames(p));
    } else {
      forall f | f in FreeFrames(p)
        ensures f in taken
      {
        assert f !in FreeFrames(p');
      }
      SubsetSize(FreeFrames(p), taken);
    }
  }

  /** A finished copy leaves that many frames fewer. */
  lemma FramesLeft(p: Pmm.Frames, p': Pmm.Frames, t: Table, news: seq<FrameNo>, incs: seq<FrameNo>)
    requires PmDelta(p, p', news, incs) && Cost(t, true, news)
    ensures |FreeFrames(p')| == |FreeFrames(p)| - (Tables(t) - 1)
  {
    DistinctSize(news);
    var taken: set<int> := set f | f in news :: f;
    assert taken == Elems(news) && taken <= FreeFrames(p);
    assert FreeFrames(p') == FreeFrames(p) - taken;
  }

  lemma CopiedAccounts(m: Memory, p: Pmm.Frames, m': Memory, p': Pmm.Frames, pt: FrameNo, ct: FrameNo, ok: bool,
                       news: seq<FrameNo>, incs: seq<FrameNo>)
    requires Copied(m, p, m', p', 4, pt, ct, ok, news, incs)
    ensures PmDelta(p, p', news, incs)
  {
    hide PmDelta, MemDelta;
  }

  /** The new table and what was copied below it. */
  lemma CostBelow(t: Table, ok: bool, c: FrameNo, n: seq<FrameNo>)
    requires Cost(t, ok, n)
    ensures if ok then |[c] + n| == Tables(t) else |[c] + n| < Tables(t)
  {
  }

  /** Taking the child's PML4 leaves one frame less and the parent's tree as it was. */
  lemma ForkRoom(s: State, mid: State, a: nat, f: FrameNo)
    requires Inv(s) && s.Live(a) && AllocOk(s, mid, f)
    ensures mid.Live(a) && Tree(mid, a) == Tree(s, a)
    ensures |FreeFrames(mid.pm)| == |FreeFrames(s.pm)| - 1
    ensures Countable(s, a) ==> Countable(mid, a)
  {
    hide Sound, CountsOk, WritesPrivate;
    assert FreeFrames(mid.pm) == FreeFrames(s.pm) - {f} && f in FreeFrames(s.pm);
    forall g | g in Frames(Tree(s, a))
      ensures mid.mem[g] == s.mem[g]
    {
      assert g in TableFrames(s, a);
    }
    TableFraming(s.mem, mid.mem, 4, s.spaces[a].value);
  }

  /** A frame taken for a page's data changes nothing about where the page can go. */
  lemma RoomAfter(s: State, mid: State, a: nat, f: FrameNo, v: Page)
    requires Inv(s) && s.Live(a) && AllocOk(s, mid, f)
    ensures Room(mid.mem, 4, s.spaces[a].value, v) == Room(s.mem, 4, s.spaces[a].value, v)
  {
    hide Sound, CountsOk, WritesPrivate;
    forall g: FrameNo | g in Frames(Tree(s, a))
      ensures mid.mem[g] == s.mem[g]
    {
      assert g in TableFrames(s, a);
    }
    RoomFraming(s.mem, mid.mem, 4, s.spaces[a].value, v);
  }
}
