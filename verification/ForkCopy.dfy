/** What `copy_user_pages` does to a parent tree and builds for the child
    (indo-kernel/src/memory/vmm.rs, lines 594-751), stated on the trees found in memory. */
module ForkCopy {
  import opened PageTables
  import Pmm

  // ---------------------------------------------------------------- parent and child trees

  function Demote(w: Word): Word {
    w.(writable := false)
  }

  /** The parent's tree after sharing, or after part of it: same tables, same frames,
      some WRITABLE bits gone from leaves. */
  ghost predicate Weakened(t: Table, t': Table) {
    && t'.frame == t.frame
    && |t'.kids| == |t.kids|
    && forall i :: 0 <= i < |t.kids| ==> WeakenedKid(t.kids[i], t'.kids[i])
  }

  ghost predicate WeakenedKid(k: Kid, k': Kid) {
    match k
    case Hole => k'.Hole?
    case Leaf(e) => k'.Leaf? && (k'.e == e || k'.e == Demote(e))
    case Sub(e, s) => k'.Sub? && k'.e == e && Weakened(s, k'.table)
  }

  ghost predicate ReadOnly(t: Table) {
    forall i :: 0 <= i < |t.kids| ==> ReadOnlyKid(t.kids[i])
  }

  ghost predicate ReadOnlyKid(k: Kid) {
    match k
    case Hole => true
    case Leaf(e) => !e.writable
    case Sub(_, s) => ReadOnly(s)
  }

  /** The child's tree: its own tables, the same leaf entries. */
  ghost predicate Twin(t: Table, c: Table) {
    && |c.kids| == |t.kids|
    && forall i :: 0 <= i < |t.kids| ==> TwinKid(t.kids[i], c.kids[i])
  }

  ghost predicate TwinKid(k: Kid, c: Kid) {
    match k
    case Hole => c.Hole?
    case Leaf(e) => c == k
    case Sub(_, s) => c.Sub? && c.e.writable && c.e.user && c.e.other == 0 && Twin(s, c.table)
  }

  lemma {:induction false} WeakenedRefl(t: Table)
    ensures Weakened(t, t)
  {
    forall i | 0 <= i < |t.kids| ensures WeakenedKid(t.kids[i], t.kids[i]) {
      if t.kids[i].Sub? {
        WeakenedRefl(t.kids[i].table);
      }
    }
  }

  /** Sharing moves no table, ... */
  lemma {:induction false} WeakenedFrames(t: Table, t': Table)
    requires Weakened(t, t')
    ensures Frames(t') == Frames(t) && Separated(t') == Separated(t)
  {
    forall i | 0 <= i < |t.kids|
      ensures KidFrames(t'.kids[i]) == KidFrames(t.kids[i]) && KidSeparated(t'.kids[i]) == KidSeparated(t.kids[i])
    {
      assert WeakenedKid(t.kids[i], t'.kids[i]);
      if t.kids[i].Sub? {
        WeakenedFrames(t.kids[i].table, t'.kids[i].table);
      }
    }
  }

  /** ... maps no frame more or less often, ... */
  lemma {:induction false} WeakenedCount(t: Table, t': Table, f: FrameNo)
    requires Weakened(t, t')
    ensures Count(t', f) == Count(t, f)
  {
    forall i | 0 <= i < |t.kids|
      ensures CountKid(t'.kids[i], f) == CountKid(t.kids[i], f)
    {
      assert WeakenedKid(t.kids[i], t'.kids[i]);
      if t.kids[i].Sub? {
        WeakenedCount(t.kids[i].table, t'.kids[i].table, f);
      }
    }
    CountSame(t'.kids, t.kids, f);
  }

  /** ... and keeps every translation. */
  lemma {:induction false} WeakenedLookup(t: Table, t': Table, level: int, v: Page)
    requires Weakened(t, t')
    ensures Lookup(t', level, v).Some? == Lookup(t, level, v).Some?
    ensures Lookup(t, level, v).Some? ==>
              Lookup(t', level, v).value in {Lookup(t, level, v).value, Demote(Lookup(t, level, v).value)}
    decreases t
  {
    forall i | 0 <= i < |t.kids| && t.kids[i].Sub?
      ensures t'.kids[i].Sub?
      ensures Lookup(t'.kids[i].table, level - 1, v).Some? == Lookup(t.kids[i].table, level - 1, v).Some?
      ensures Lookup(t.kids[i].table, level - 1, v).Some? ==>
                Lookup(t'.kids[i].table, level - 1, v).value in {Lookup(t.kids[i].table, level - 1, v).value,
                                                                 Demote(Lookup(t.kids[i].table, level - 1, v).value)}
    {
      assert WeakenedKid(t.kids[i], t'.kids[i]);
      WeakenedLookup(t.kids[i].table, t'.kids[i].table, level - 1, v);
    }
    if 0 <= Index(v, level) < |t.kids| {
      assert WeakenedKid(t.kids[Index(v, level)], t'.kids[Index(v, level)]);
    }
  }

  lemma WeakenedKeeps(t: Table, t': Table)
    requires Weakened(t, t')
    ensures Frames(t') == Frames(t) && Separated(t') == Separated(t)
    ensures forall f :: Count(t', f) == Count(t, f)
    ensures forall level, v :: Lookup(t', level, v).Some? == Lookup(t, level, v).Some?
    ensures forall level, v :: Lookup(t, level, v).Some? ==>
              Lookup(t', level, v).value in {Lookup(t, level, v).value, Demote(Lookup(t, level, v).value)}
  {
    WeakenedFrames(t, t');
    forall f: FrameNo ensures Count(t', f) == Count(t, f) {
      WeakenedCount(t, t', f);
    }
    forall level, v
      ensures Lookup(t', level, v).Some? == Lookup(t, level, v).Some?
      ensures Lookup(t, level, v).Some? ==>
                Lookup(t', level, v).value in {Lookup(t, level, v).value, Demote(Lookup(t, level, v).value)}
    {
      WeakenedLookup(t, t', level, v);
    }
  }

  lemma {:induction false} TwinAgrees(t: Table, c: Table)
    requires Twin(t, c)
    ensures forall f :: Count(c, f) == Count(t, f)
    ensures forall level, v :: Lookup(c, level, v) == Lookup(t, level, v)
  {
    forall i | 0 <= i < |t.kids|
      ensures forall f :: CountKid(c.kids[i], f) == CountKid(t.kids[i], f)
      ensures forall level, v :: LookupKid(c.kids[i], level, v) == LookupKid(t.kids[i], level, v)
    {
      assert TwinKid(t.kids[i], c.kids[i]);
      if t.kids[i].Sub? {
        TwinAgrees(t.kids[i].table, c.kids[i].table);
      }
    }
    forall f ensures Count(c, f) == Count(t, f) {
      CountSame(c.kids, t.kids, f);
    }
  }

  lemma {:induction false} ReadOnlyLookup(t: Table, level: int, v: Page)
    requires ReadOnly(t) && Lookup(t, level, v).Some?
    ensures !Lookup(t, level, v).value.writable
    decreases t
  {
    var k := t.kids[Index(v, level)];
    assert ReadOnlyKid(k);
    if k.Sub? {
      ReadOnlyLookup(k.table, level - 1, v);
    }
  }

  // ---------------------------------------------------------------- what a copy may change

  ghost predicate Distinct(s: seq<FrameNo>) {
    forall i, j :: 0 <= i < j < |s| ==> s[i] != s[j]
  }

  ghost function Elems(s: seq<FrameNo>): set<FrameNo> {
    set x | x in s
  }

  /** The allocator after allocating `news` and taking the references `incs`. */
  ghost predicate PmDelta(p: Pmm.Frames, p': Pmm.Frames, news: seq<FrameNo>, incs: seq<FrameNo>) {
    && |p.used| == |p.rc| == |p'.used| == |p'.rc|
    && Distinct(news)
    && (forall f :: f in news ==> 1 <= f < |p.used| && !p.used[f] && p.rc[f] == 0)
    && (forall f :: 0 <= f < |p.used| ==> p'.used[f] == (p.used[f] || f in news))
    && (forall f :: 0 <= f < |p.used| ==> p'.rc[f] == p.rc[f] + multiset(incs)[f] + if f in news then 1 else 0)
  }

  ghost predicate MemDelta(m: Memory, m': Memory, s: set<FrameNo>) {
    forall f :: 0 <= f < FRAME_LIMIT && f !in s ==> m'[f] == m[f]
  }

  lemma DistinctConcat(s: seq<FrameNo>, r: seq<FrameNo>)
    requires Distinct(s) && Distinct(r)
    requires forall x :: x in r ==> x !in s
    ensures Distinct(s + r)
  {
    forall i, j | 0 <= i < j < |s + r| ensures (s + r)[i] != (s + r)[j] {
      if i < |s| <= j {
        assert (s + r)[j] in r;
      }
    }
  }

  lemma PmDeltaThen(p: Pmm.Frames, p': Pmm.Frames, p'': Pmm.Frames, n: seq<FrameNo>, i: seq<FrameNo>, n': seq<FrameNo>,
                    i': seq<FrameNo>)
    requires PmDelta(p, p', n, i) && PmDelta(p', p'', n', i')
    requires forall f :: f in n' ==> f !in i
    ensures PmDelta(p, p'', n + n', i + i')
  {
    assert multiset(i + i') == multiset(i) + multiset(i');
    forall f | f in n' ensures f !in n && p.rc[f] == 0 {
      assert !p'.used[f];
    }
    DistinctConcat(n, n');
  }

  lemma PmDeltaAlloc(p: Pmm.Frames, f: FrameNo)
    requires Pmm.Consistent(p) && Pmm.LowestClear(p, f)
    ensures PmDelta(p, Pmm.AllocAt(p, f), [f], [])
  {
  }

  lemma PmDeltaIncref(p: Pmm.Frames, f: FrameNo)
    requires Pmm.Consistent(p) && f < |p.used| && p.rc[f] < 255
    ensures PmDelta(p, Pmm.IncrefAt(p, f), [], [f])
  {
  }

  // ---------------------------------------------------------------- one table, entry by entry

  /** What the kernel relies on before it copies a table. */
  ghost predicate CanCopy(m: Memory, p: Pmm.Frames, level: int, pt: FrameNo, ct: FrameNo)
    requires 1 <= level <= 4
  {
    var t := TableAt(m, level, pt);
    && Pmm.Consistent(p)
    && Separated(t)
    && ct !in Frames(t)
    && p.Has(ct)
    && (forall f :: f in Frames(t) ==> p.Has(f))
    && (forall i :: 0 <= i < Width(level) ==> !m[ct][i].present)
    && (forall f: FrameNo :: Count(t, f) > 0 ==> p.Has(f) && 0 < p.rc[f] && p.rc[f] + Count(t, f) <= 255)
  }

  /** The outcome of copying a table: the same accounting whether it succeeds or runs out of frames. */
  ghost predicate Copied(m: Memory, p: Pmm.Frames, m': Memory, p': Pmm.Frames, level: int, pt: FrameNo, ct: FrameNo,
                         ok: bool, news: seq<FrameNo>, incs: seq<FrameNo>)
    requires 1 <= level <= 4
  {
    var t, t', c := TableAt(m, level, pt), TableAt(m', level, pt), TableAt(m', level, ct);
    && PmDelta(p, p', news, incs)
    && MemDelta(m, m', Frames(t) + {ct} + Elems(news))
    && (forall i :: Width(level) <= i < 512 ==> m'[ct][i] == m[ct][i] && m'[pt][i] == m[pt][i])
    && Weakened(t, t')
    && (forall f :: multiset(incs)[f] <= Count(t, f))
    && (ok ==> && ReadOnly(t')
               && Twin(t', c)
               && Separated(c)
               && Frames(c) == {ct} + Elems(news)
               && forall f :: multiset(incs)[f] == Count(t, f))
  }

  /** The parent's kids before i are shared, the rest untouched. */
  ghost predicate ParentAt(t: Table, t': Table, i: int) {
    && Weakened(t, t')
    && 0 <= i <= |t.kids|
    && (forall j :: 0 <= j < i ==> ReadOnlyKid(t'.kids[j]))
    && (forall j :: i <= j < |t.kids| ==> t'.kids[j] == t.kids[j])
  }

  /** The child's kids before i are twins, the rest empty, and its tables are the new frames. */
  ghost predicate ChildAt(t': Table, c: Table, i: int, news: seq<FrameNo>) {
    && |c.kids| == |t'.kids|
    && 0 <= i <= |c.kids|
    && Separated(c)
    && Frames(c) == {c.frame} + Elems(news)
    && (forall j :: 0 <= j < i ==> TwinKid(t'.kids[j], c.kids[j]))
    && (forall j :: i <= j < |c.kids| ==> c.kids[j].Hole?)
  }

  /** The loop over the entries of a table has handled the first i of them. */
  ghost predicate Progress(m: Memory, p: Pmm.Frames, m': Memory, p': Pmm.Frames, level: int, pt: FrameNo, ct: FrameNo,
                           i: int, news: seq<FrameNo>, incs: seq<FrameNo>)
    requires 1 <= level <= 4
  {
    var t, t', c := TableAt(m, level, pt), TableAt(m', level, pt), TableAt(m', level, ct);
    && PmDelta(p, p', news, incs)
    && Pmm.Consistent(p')
    && MemDelta(m, m', Frames(t) + {ct} + Elems(news))
    && ParentAt(t, t', i)
    && (forall j :: i <= j < 512 ==> m'[ct][j] == m[ct][j] && m'[pt][j] == m[pt][j])
    && ChildAt(t', c, i, news)
    && (forall f :: multiset(incs)[f] == CountKids(t.kids[..i], f))
  }

  lemma EmptyTable(c: Table)
    requires forall j :: 0 <= j < |c.kids| ==> c.kids[j].Hole?
    ensures Separated(c) && Frames(c) == {c.frame}
  {
  }

  /** Hanging a separate subtree in an empty slot. */
  lemma AddKid(c: Table, i: nat, k: Kid)
    requires i < |c.kids| && c.kids[i].Hole?
    requires Separated(c) && KidSeparated(k) && KidFrames(k) !! Frames(c)
    ensures Separated(c.(kids := c.kids[i := k]))
    ensures Frames(c.(kids := c.kids[i := k])) == Frames(c) + KidFrames(k)
  {
    var c' := c.(kids := c.kids[i := k]);
    forall j | 0 <= j < |c.kids| && j != i ensures KidFrames(c'.kids[j]) <= Frames(c) {
      assert c'.kids[j] == c.kids[j];
    }
    forall f | f in Frames(c) ensures f in Frames(c') {
      if f != c.frame {
        var j :| 0 <= j < |c.kids| && f in KidFrames(c.kids[j]);
        assert c'.kids[j] == c.kids[j];
      }
    }
    assert c'.kids[i] == k;
  }

  lemma ProgressStart(m: Memory, p: Pmm.Frames, level: int, pt: FrameNo, ct: FrameNo)
    requires 1 <= level <= 4 && CanCopy(m, p, level, pt, ct)
    ensures Progress(m, p, m, p, level, pt, ct, 0, [], [])
  {
    WeakenedRefl(TableAt(m, level, pt));
    var c := TableAt(m, level, ct);
    assert forall j :: 0 <= j < |c.kids| ==> c.kids[j] == KidAt(m, level, m[ct][j]);
    EmptyTable(c);
  }

  lemma ProgressDone(m: Memory, p: Pmm.Frames, m': Memory, p': Pmm.Frames, level: int, pt: FrameNo, ct: FrameNo,
                     news: seq<FrameNo>, incs: seq<FrameNo>)
    requires 1 <= level <= 4 && CanCopy(m, p, level, pt, ct)
    requires Progress(m, p, m', p', level, pt, ct, Width(level), news, incs)
    ensures Copied(m, p, m', p', level, pt, ct, true, news, incs)
  {
    var t := TableAt(m, level, pt);
    assert t.kids[..Width(level)] == t.kids;
  }

  /** Out of frames between two entries. */
  lemma ProgressStopped(m: Memory, p: Pmm.Frames, m': Memory, p': Pmm.Frames, level: int, pt: FrameNo, ct: FrameNo,
                        i: int, news: seq<FrameNo>, incs: seq<FrameNo>)
    requires 1 <= level <= 4 && CanCopy(m, p, level, pt, ct)
    requires Progress(m, p, m', p', level, pt, ct, i, news, incs)
    ensures Copied(m, p, m', p', level, pt, ct, false, news, incs)
  {
    var t := TableAt(m, level, pt);
    forall f ensures multiset(incs)[f] <= Count(t, f) {
      CountPrefix(t.kids, i, f);
    }
  }

  lemma ProgressHole(m: Memory, p: Pmm.Frames, m': Memory, p': Pmm.Frames, level: int, pt: FrameNo, ct: FrameNo,
                     i: int, news: seq<FrameNo>, incs: seq<FrameNo>)
    requires 1 <= level <= 4 && CanCopy(m, p, level, pt, ct)
    requires 0 <= i < Width(level) && Progress(m, p, m', p', level, pt, ct, i, news, incs)
    requires !Followed(level, m'[pt][i])
    ensures Progress(m, p, m', p', level, pt, ct, i + 1, news, incs)
  {
    var t := TableAt(m, level, pt);
    KidIs(m', level, pt, i);
    assert t.kids[i].Hole?;
    forall f ensures multiset(incs)[f] == CountKids(t.kids[..i + 1], f) {
      CountStep(t.kids, i, f);
    }
    var t', c := TableAt(m', level, pt), TableAt(m', level, ct);
    KidIs(m', level, pt, i);
    KidIs(m', level, ct, i);
    assert t'.kids[i] == t.kids[i];
    assert ParentAt(t, t', i + 1);
    assert ChildAt(t', c, i + 1, news);
  }

  lemma WeakenedUpdate(t: Table, t': Table, t'': Table, i: nat, k: Kid)
    requires Weakened(t, t') && i < |t.kids|
    requires t'' == Table(t.frame, t'.kids[i := k])
    requires WeakenedKid(t.kids[i], k)
    ensures Weakened(t, t'')
  {
    forall j | 0 <= j < |t.kids| ensures WeakenedKid(t.kids[j], t''.kids[j]) {
      assert WeakenedKid(t.kids[j], t'.kids[j]);
    }
  }

  lemma ParentStep(t: Table, t': Table, t'': Table, i: int, k: Kid)
    requires ParentAt(t, t', i) && i < |t.kids|
    requires t'' == Table(t.frame, t'.kids[i := k])
    requires WeakenedKid(t.kids[i], k) && ReadOnlyKid(k)
    ensures ParentAt(t, t'', i + 1)
  {
    WeakenedUpdate(t, t', t'', i, k);
  }

  lemma ChildStep(t': Table, c: Table, t'': Table, c'': Table, i: int, k: Kid, ck: Kid, news: seq<FrameNo>,
                  more: seq<FrameNo>)
    requires ChildAt(t', c, i, news) && i < |c.kids|
    requires t'' == Table(t'.frame, t'.kids[i := k])
    requires c'' == Table(c.frame, c.kids[i := ck])
    requires TwinKid(k, ck) && KidSeparated(ck)
    requires KidFrames(ck) == Elems(more) && KidFrames(ck) !! Frames(c)
    ensures ChildAt(t'', c'', i + 1, news + more)
  {
    AddKid(c, i, ck);
    assert Elems(news + more) == Elems(news) + Elems(more);
  }

  lemma CountsStep(kids: seq<Kid>, i: nat, incs: seq<FrameNo>, more: seq<FrameNo>)
    requires i < |kids|
    requires forall f :: multiset(incs)[f] == CountKids(kids[..i], f)
    requires forall f :: multiset(more)[f] == CountKid(kids[i], f)
    ensures forall f :: multiset(incs + more)[f] == CountKids(kids[..i + 1], f)
  {
    assert multiset(incs + more) == multiset(incs) + multiset(more);
    forall f ensures multiset(incs + more)[f] == CountKids(kids[..i + 1], f) {
      CountStep(kids, i, f);
    }
  }

  /** Entry i is done: `k` now hangs in the parent and `ck` in the child. */
  lemma ProgressNext(m: Memory, p: Pmm.Frames, m': Memory, p': Pmm.Frames, m'': Memory, p'': Pmm.Frames, level: int,
                     pt: FrameNo, ct: FrameNo, i: int, news: seq<FrameNo>, incs: seq<FrameNo>, k: Kid, ck: Kid,
                     more: seq<FrameNo>, moreIncs: seq<FrameNo>)
    requires 1 <= level <= 4 && 0 <= i < Width(level)
    requires Progress(m, p, m', p', level, pt, ct, i, news, incs)
    requires PmDelta(p, p'', news + more, incs + moreIncs) && Pmm.Consistent(p'')
    requires MemDelta(m, m'', Frames(TableAt(m, level, pt)) + {ct} + Elems(news + more))
    requires forall j :: i < j < 512 ==> m''[ct][j] == m'[ct][j] && m''[pt][j] == m'[pt][j]
    requires TableAt(m'', level, pt) == Table(pt, TableAt(m', level, pt).kids[i := k])
    requires TableAt(m'', level, ct) == Table(ct, TableAt(m', level, ct).kids[i := ck])
    requires WeakenedKid(TableAt(m, level, pt).kids[i], k) && ReadOnlyKid(k)
    requires TwinKid(k, ck) && KidSeparated(ck)
    requires KidFrames(ck) == Elems(more) && KidFrames(ck) !! Frames(TableAt(m', level, ct))
    requires forall f :: multiset(moreIncs)[f] == CountKid(TableAt(m, level, pt).kids[i], f)
    ensures Progress(m, p, m'', p'', level, pt, ct, i + 1, news + more, incs + moreIncs)
  {
    hide PmDelta, MemDelta, ParentAt, ChildAt, Pmm.Consistent;
    var t, t', t'' := TableAt(m, level, pt), TableAt(m', level, pt), TableAt(m'', level, pt);
    var c, c'' := TableAt(m', level, ct), TableAt(m'', level, ct);
    CountsStep(t.kids, i, incs, moreIncs);
    ParentStep(t, t', t'', i, k);
    ChildStep(t', c, t'', c'', i, k, ck, news, more);
  }

  // ---------------------------------------------------------------- a leaf entry

  function ShareLeaf(m: Memory, pt: FrameNo, ct: FrameNo, i: nat): Memory
    requires i < 512
  {
    var w := Demote(m[pt][i]);
    var m1 := m[ct := m[ct][i := w]];
    m1[pt := m1[pt][i := w]]
  }

  lemma LeafRow(m: Memory, m': Memory, t: FrameNo, i: nat, w: Word)
    requires i < 512 && w.present
    requires m'[t] == m[t][i := w]
    ensures TableAt(m', 1, t) == Table(t, TableAt(m, 1, t).kids[i := Leaf(w)])
  {
    var r, r' := TableAt(m, 1, t), TableAt(m', 1, t);
    forall j | 0 <= j < 512 ensures r'.kids[j] == r.kids[i := Leaf(w)][j] {
      assert r'.kids[j] == KidAt(m', 1, m'[t][j]);
      assert r.kids[j] == KidAt(m, 1, m[t][j]);
    }
  }

  /** A free place in the count: the frame is allocated and its counter not full. */
  lemma LeafCounted(m: Memory, p: Pmm.Frames, m': Memory, p': Pmm.Frames, pt: FrameNo, ct: FrameNo,
                    i: int, news: seq<FrameNo>, incs: seq<FrameNo>)
    requires CanCopy(m, p, 1, pt, ct)
    requires 0 <= i < 512 && Progress(m, p, m', p', 1, pt, ct, i, news, incs)
    requires m'[pt][i].present
    ensures p'.Has(m'[pt][i].frame) && p'.rc[m'[pt][i].frame] < 255
  {
    var t, f := TableAt(m, 1, pt), m'[pt][i].frame;
    assert t.kids[i] == KidAt(m, 1, m[pt][i]);
    CountPrefix(t.kids, i, f);
    assert f !in news;
  }

  lemma ProgressLeaf(m: Memory, p: Pmm.Frames, m': Memory, p': Pmm.Frames, pt: FrameNo, ct: FrameNo,
                     i: int, news: seq<FrameNo>, incs: seq<FrameNo>)
    requires CanCopy(m, p, 1, pt, ct)
    requires 0 <= i < 512 && Progress(m, p, m', p', 1, pt, ct, i, news, incs)
    requires m'[pt][i].present && p'.Has(m'[pt][i].frame) && p'.rc[m'[pt][i].frame] < 255
    ensures Progress(m, p, ShareLeaf(m', pt, ct, i), Pmm.IncrefAt(p', m'[pt][i].frame), 1, pt, ct, i + 1, news,
                     incs + [m'[pt][i].frame])
  {
    hide PmDelta, MemDelta, Progress, CanCopy, Pmm.IncrefAt;
    var e, m'' := m'[pt][i], ShareLeaf(m', pt, ct, i);
    var k := Leaf(Demote(e));
    ProgressFrames(m, p, m', p', 1, pt, ct, i, news, incs);
    LeafEntry(m, p, m', p', pt, ct, i, news, incs);
    LeafRow(m', m'', pt, i, k.e);
    LeafRow(m', m'', ct, i, k.e);
    LeafTouches(m, m', pt, ct, i, Frames(TableAt(m, 1, pt)) + {ct} + Elems(news));
    LeafAccounts(p, p', news, incs, e.frame);
    assert news + [] == news;
    ProgressNext(m, p, m', p', m'', Pmm.IncrefAt(p', e.frame), 1, pt, ct, i, news, incs, k, k, [], [e.frame]);
  }

  lemma LeafEntry(m: Memory, p: Pmm.Frames, m': Memory, p': Pmm.Frames, pt: FrameNo, ct: FrameNo,
                  i: int, news: seq<FrameNo>, incs: seq<FrameNo>)
    requires CanCopy(m, p, 1, pt, ct)
    requires 0 <= i < 512 && m'[pt][i].present && Progress(m, p, m', p', 1, pt, ct, i, news, incs)
    ensures pt != ct && pt in Frames(TableAt(m, 1, pt)) && TableAt(m, 1, pt).kids[i] == Leaf(m'[pt][i])
  {
    hide PmDelta, MemDelta, ChildAt, Pmm.Consistent;
    OwnFrame(TableAt(m, 1, pt));
    KidIs(m, 1, pt, i);
  }

  lemma LeafTouches(m: Memory, m': Memory, pt: FrameNo, ct: FrameNo, i: nat, s: set<FrameNo>)
    requires i < 512 && MemDelta(m, m', s) && pt in s && ct in s
    ensures MemDelta(m, ShareLeaf(m', pt, ct, i), s)
  {
  }

  lemma LeafAccounts(p: Pmm.Frames, p': Pmm.Frames, news: seq<FrameNo>, incs: seq<FrameNo>, f: FrameNo)
    requires PmDelta(p, p', news, incs) && Pmm.Consistent(p')
    requires p'.Has(f) && p'.rc[f] < 255
    ensures PmDelta(p, Pmm.IncrefAt(p', f), news, incs + [f])
    ensures Pmm.Consistent(Pmm.IncrefAt(p', f))
  {
    PmDeltaIncref(p', f);
    PmDeltaThen(p, p', Pmm.IncrefAt(p', f), news, incs, [], [f]);
    assert news + [] == news;
  }

  // ---------------------------------------------------------------- an entry with a table below it

  function Entry(c: FrameNo): Word {
    Word(true, true, true, false, 0, c)
  }

  /** Zero a new table frame and point entry i of the child's table at it. */
  function Hang(m: Memory, ct: FrameNo, i: nat, c: FrameNo): Memory
    requires i < 512
  {
    m[c := ZeroFrame()][ct := m[ct][i := Entry(c)]]
  }

  lemma HangIs(m: Memory, ct: FrameNo, i: nat, c: FrameNo, m': Memory)
    requires i < 512 && c != ct && m' == m[c := ZeroFrame()][ct := m[ct][i := Entry(c)]]
    ensures m' == Hang(m, ct, i, c)
  {
  }

  /** Everything the loop is about to descend into, or has built so far, is allocated. */
  lemma Occupied(m: Memory, p: Pmm.Frames, m': Memory, p': Pmm.Frames, level: int, pt: FrameNo, ct: FrameNo,
                 i: int, news: seq<FrameNo>, incs: seq<FrameNo>)
    requires 2 <= level <= 4 && CanCopy(m, p, level, pt, ct)
    requires Progress(m, p, m', p', level, pt, ct, i, news, incs)
    ensures pt != ct
    ensures forall f :: f in Frames(TableAt(m', level, pt)) ==> p'.Has(f)
    ensures forall f :: f in Frames(TableAt(m', level, ct)) ==> p'.Has(f)
    ensures Frames(TableAt(m', level, pt)) == Frames(TableAt(m, level, pt))
    ensures Frames(TableAt(m', level, pt)) !! Frames(TableAt(m', level, ct))
    ensures Separated(TableAt(m', level, pt)) && Separated(TableAt(m', level, ct))
  {
    WeakenedFrames(TableAt(m, level, pt), TableAt(m', level, pt));
    assert pt in Frames(TableAt(m, level, pt));
  }

  lemma NextKid(m: Memory, p: Pmm.Frames, m': Memory, p': Pmm.Frames, level: int, pt: FrameNo, ct: FrameNo,
                i: int, news: seq<FrameNo>, incs: seq<FrameNo>)
    requires 2 <= level <= 4
    requires 0 <= i < Width(level) && Progress(m, p, m', p', level, pt, ct, i, news, incs)
    requires Followed(level, m'[pt][i])
    ensures TableAt(m, level, pt).kids[i] == TableAt(m', level, pt).kids[i]
    ensures TableAt(m', level, pt).kids[i] == Sub(m'[pt][i], TableAt(m', level - 1, m'[pt][i].frame))
    ensures Frames(TableAt(m', level - 1, m'[pt][i].frame)) <= Frames(TableAt(m', level, pt))
  {
    hide PmDelta, MemDelta, ChildAt;
    KidIs(m', level, pt, i);
    var t' := TableAt(m', level, pt);
    assert KidFrames(t'.kids[i]) <= Frames(t');
  }

  lemma SubSetup(m: Memory, p: Pmm.Frames, m': Memory, p': Pmm.Frames, level: int, pt: FrameNo, ct: FrameNo,
                 i: int, news: seq<FrameNo>, incs: seq<FrameNo>, c: FrameNo)
    requires 2 <= level <= 4 && CanCopy(m, p, level, pt, ct)
    requires 0 <= i < Width(level) && Progress(m, p, m', p', level, pt, ct, i, news, incs)
    requires Followed(level, m'[pt][i])
    requires Pmm.LowestClear(p', c)
    ensures c != ct
    ensures TableAt(m, level, pt).kids[i] == Sub(m'[pt][i], TableAt(Hang(m', ct, i, c), level - 1, m'[pt][i].frame))
    ensures CanCopy(Hang(m', ct, i, c), Pmm.AllocAt(p', c), level - 1, m'[pt][i].frame, c)
  {
    hide Progress, CanCopy, PmDelta, MemDelta, ChildAt, ParentAt, Hang, Followed, Housed;
    ProgressFrames(m, p, m', p', level, pt, ct, i, news, incs);
    NextKid(m, p, m', p', level, pt, ct, i, news, incs);
    CountsFor(m, p, m', p', level, pt, ct, i, news, incs);
    KidHoused(m, p, m', p', level, pt, ct, i, news, incs);
    HousedReady(m', p', level - 1, m'[pt][i].frame, ct, i, c);
  }

  /** A table whose frames are allocated and that does not use frame ct. */
  ghost predicate Housed(t: Table, p: Pmm.Frames, ct: FrameNo) {
    Separated(t) && ct !in Frames(t) && p.Has(ct) && forall f :: f in Frames(t) ==> p.Has(f)
  }

  lemma KidHoused(m: Memory, p: Pmm.Frames, m': Memory, p': Pmm.Frames, level: int, pt: FrameNo, ct: FrameNo,
                  i: int, news: seq<FrameNo>, incs: seq<FrameNo>)
    requires 2 <= level <= 4 && CanCopy(m, p, level, pt, ct)
    requires 0 <= i < Width(level) && Progress(m, p, m', p', level, pt, ct, i, news, incs)
    requires Followed(level, m'[pt][i])
    ensures Housed(TableAt(m', level - 1, m'[pt][i].frame), p', ct)
  {
    hide Progress, CanCopy, Followed;
    Occupied(m, p, m', p', level, pt, ct, i, news, incs);
    NextKid(m, p, m', p', level, pt, ct, i, news, incs);
    SeparatedKid(TableAt(m', level, pt), i);
    OwnFrame(TableAt(m', level, ct));
  }

  lemma HousedReady(m: Memory, p: Pmm.Frames, level: int, pt: FrameNo, ct: FrameNo, i: nat, c: FrameNo)
    requires 1 <= level <= 3 && i < 512
    requires Pmm.Consistent(p) && Pmm.LowestClear(p, c) && Housed(TableAt(m, level, pt), p, ct)
    requires forall f: FrameNo :: Count(TableAt(m, level, pt), f) > 0 ==>
               p.Has(f) && 0 < p.rc[f] && p.rc[f] + Count(TableAt(m, level, pt), f) <= 255
    ensures c != ct && TableAt(Hang(m, ct, i, c), level, pt) == TableAt(m, level, pt)
    ensures CanCopy(Hang(m, ct, i, c), Pmm.AllocAt(p, c), level, pt, c)
  {
    hide Hang, CanCopy;
    HangReady(m, p, level, pt, ct, i, c);
  }

  lemma SeparatedKid(t: Table, i: nat)
    requires Separated(t) && i < |t.kids| && t.kids[i].Sub?
    ensures Separated(t.kids[i].table)
  {
    assert KidSeparated(t.kids[i]);
  }

  lemma OwnFrame(t: Table)
    ensures t.frame in Frames(t)
  {
  }

  lemma ProgressFrames(m: Memory, p: Pmm.Frames, m': Memory, p': Pmm.Frames, level: int, pt: FrameNo, ct: FrameNo,
                       i: int, news: seq<FrameNo>, incs: seq<FrameNo>)
    requires 1 <= level <= 4 && Progress(m, p, m', p', level, pt, ct, i, news, incs)
    ensures Pmm.Consistent(p') && PmDelta(p, p', news, incs)
    ensures MemDelta(m, m', Frames(TableAt(m, level, pt)) + {ct} + Elems(news))
  {
    hide PmDelta, MemDelta, ChildAt, ParentAt, Pmm.Consistent;
  }

  lemma CountsFor(m: Memory, p: Pmm.Frames, m': Memory, p': Pmm.Frames, level: int, pt: FrameNo, ct: FrameNo,
                  i: int, news: seq<FrameNo>, incs: seq<FrameNo>)
    requires 2 <= level <= 4 && CanCopy(m, p, level, pt, ct)
    requires 0 <= i < Width(level) && Progress(m, p, m', p', level, pt, ct, i, news, incs)
    requires TableAt(m, level, pt).kids[i].Sub?
    ensures forall f: FrameNo :: Count(TableAt(m, level, pt).kids[i].table, f) > 0 ==>
              p'.Has(f) && 0 < p'.rc[f] && p'.rc[f] + Count(TableAt(m, level, pt).kids[i].table, f) <= 255
  {
    hide PmDelta, MemDelta, ChildAt, ParentAt;
    SubCounts(TableAt(m, level, pt), i, p, p', news, incs);
  }

  lemma HangReady(m: Memory, p: Pmm.Frames, level: int, pt: FrameNo, ct: FrameNo, i: nat, c: FrameNo)
    requires 1 <= level <= 3 && i < 512
    requires Pmm.Consistent(p) && Pmm.LowestClear(p, c) && p.Has(ct)
    requires Separated(TableAt(m, level, pt)) && ct !in Frames(TableAt(m, level, pt))
    requires forall f :: f in Frames(TableAt(m, level, pt)) ==> p.Has(f)
    requires forall f: FrameNo :: Count(TableAt(m, level, pt), f) > 0 ==>
               p.Has(f) && 0 < p.rc[f] && p.rc[f] + Count(TableAt(m, level, pt), f) <= 255
    ensures TableAt(Hang(m, ct, i, c), level, pt) == TableAt(m, level, pt)
    ensures CanCopy(Hang(m, ct, i, c), Pmm.AllocAt(p, c), level, pt, c)
  {
    TableFraming(m, Hang(m, ct, i, c), level, pt);
  }

  lemma SubCounts(t: Table, i: nat, p: Pmm.Frames, p': Pmm.Frames, news: seq<FrameNo>, incs: seq<FrameNo>)
    requires i < |t.kids| && t.kids[i].Sub?
    requires PmDelta(p, p', news, incs)
    requires forall f: FrameNo :: Count(t, f) > 0 ==> p.Has(f) && 0 < p.rc[f] && p.rc[f] + Count(t, f) <= 255
    requires forall f :: multiset(incs)[f] == CountKids(t.kids[..i], f)
    ensures forall f: FrameNo :: Count(t.kids[i].table, f) > 0 ==>
              p'.Has(f) && 0 < p'.rc[f] && p'.rc[f] + Count(t.kids[i].table, f) <= 255
  {
    forall f: FrameNo | Count(t.kids[i].table, f) > 0
      ensures p'.Has(f) && 0 < p'.rc[f] && p'.rc[f] + Count(t.kids[i].table, f) <= 255
    {
      CountPrefix(t.kids, i, f);
      assert f !in news;
    }
  }

  lemma OneKidChanged(m: Memory, m': Memory, level: int, t: FrameNo, i: int)
    requires 1 <= level <= 4 && 0 <= i < Width(level)
    requires forall j :: 0 <= j < Width(level) && j != i ==> m'[t][j] == m[t][j]
    requires forall j, f :: 0 <= j < Width(level) && j != i && f in KidFrames(TableAt(m, level, t).kids[j]) ==>
               m'[f] == m[f]
    ensures TableAt(m', level, t) == Table(t, TableAt(m, level, t).kids[i := KidAt(m', level, m'[t][i])])
  {
    var r, r' := TableAt(m, level, t), TableAt(m', level, t);
    forall j | 0 <= j < Width(level) && j != i ensures r'.kids[j] == r.kids[j] {
      assert r.kids[j] == KidAt(m, level, m[t][j]);
      KidFraming(m, m', level, m[t][j]);
    }
    assert r'.kids == r.kids[i := KidAt(m', level, m'[t][i])];
  }

  /** A copy below entry i leaves every other entry of both tables alone. */
  lemma SubTrees(m': Memory, m3: Memory, level: int, pt: FrameNo, ct: FrameNo, i: int, c: FrameNo, s: set<FrameNo>)
    requires 2 <= level <= 4 && 0 <= i < Width(level)
    requires Followed(level, m'[pt][i])
    requires Separated(TableAt(m', level, pt)) && Separated(TableAt(m', level, ct))
    requires Frames(TableAt(m', level, pt)) !! Frames(TableAt(m', level, ct))
    requires s !! Frames(TableAt(m', level, ct))
    requires forall f :: f in s && f in Frames(TableAt(m', level, pt)) ==>
               f in KidFrames(TableAt(m', level, pt).kids[i])
    requires c in s && MemDelta(Hang(m', ct, i, c), m3, s)
    ensures m3[pt] == m'[pt] && m3[ct] == m'[ct][i := Entry(c)]
    ensures MemDelta(m', m3, s + {ct})
    ensures TableAt(m3, level, pt)
         == Table(pt, TableAt(m', level, pt).kids[i := Sub(m'[pt][i], TableAt(m3, level - 1, m'[pt][i].frame))])
    ensures TableAt(m3, level, ct)
         == Table(ct, TableAt(m', level, ct).kids[i := Sub(Entry(c), TableAt(m3, level - 1, c))])
  {
    assert pt in Frames(TableAt(m', level, pt)) && ct in Frames(TableAt(m', level, ct));
    SubTreeParent(m', m3, level, pt, ct, i, c, s);
    SubTreeChild(m', m3, level, ct, i, c, s);
  }

  lemma SubTreeParent(m': Memory, m3: Memory, level: int, pt: FrameNo, ct: FrameNo, i: int, c: FrameNo, s: set<FrameNo>)
    requires 2 <= level <= 4 && 0 <= i < Width(level)
    requires Followed(level, m'[pt][i])
    requires Separated(TableAt(m', level, pt)) && ct !in Frames(TableAt(m', level, pt))
    requires forall f :: f in s && f in Frames(TableAt(m', level, pt)) ==>
               f in KidFrames(TableAt(m', level, pt).kids[i])
    requires c in s && MemDelta(Hang(m', ct, i, c), m3, s)
    ensures m3[pt] == m'[pt]
    ensures TableAt(m3, level, pt)
         == Table(pt, TableAt(m', level, pt).kids[i := Sub(m'[pt][i], TableAt(m3, level - 1, m'[pt][i].frame))])
  {
    hide MemDelta, Hang;
    var tp := TableAt(m', level, pt);
    OutsideKid(tp, i);
    KidIs(m', level, pt, i);
    Untouched(m', m3, tp, ct, i, c, s);
    OneKidChanged(m', m3, level, pt, i);
  }

  lemma OutsideKid(t: Table, i: nat)
    requires Separated(t) && i < |t.kids|
    ensures t.frame in Frames(t) && t.frame !in KidFrames(t.kids[i])
    ensures forall j, f :: 0 <= j < |t.kids| && j != i && f in KidFrames(t.kids[j]) ==>
              f in Frames(t) && f !in KidFrames(t.kids[i])
  {
  }

  lemma Untouched(m: Memory, m3: Memory, t: Table, ct: FrameNo, i: nat, c: FrameNo, s: set<FrameNo>)
    requires i < |t.kids| && i < 512 && ct !in Frames(t) && c in s && MemDelta(Hang(m, ct, i, c), m3, s)
    requires forall f :: f in s && f in Frames(t) ==> f in KidFrames(t.kids[i])
    ensures forall f :: f in Frames(t) && f !in KidFrames(t.kids[i]) ==> m3[f] == m[f]
  {
    hide Frames;
  }

  lemma SubTreeChild(m': Memory, m3: Memory, level: int, ct: FrameNo, i: int, c: FrameNo, s: set<FrameNo>)
    requires 2 <= level <= 4 && 0 <= i < Width(level)
    requires Separated(TableAt(m', level, ct)) && s !! Frames(TableAt(m', level, ct))
    requires c in s && MemDelta(Hang(m', ct, i, c), m3, s)
    ensures m3[ct] == m'[ct][i := Entry(c)]
    ensures TableAt(m3, level, ct)
         == Table(ct, TableAt(m', level, ct).kids[i := Sub(Entry(c), TableAt(m3, level - 1, c))])
  {
    var tc := TableAt(m', level, ct);
    assert ct in Frames(tc);
    forall j, f | 0 <= j < Width(level) && j != i && f in KidFrames(tc.kids[j]) && f != ct ensures m3[f] == m'[f] {
      assert f in Frames(tc);
    }
    OneKidChanged(m', m3, level, ct, i);
  }

  /** The accounts of the loop so far, of the new table and of the copy below it add up. */
  lemma SubAccounts(t: Table, i: nat, p: Pmm.Frames, p': Pmm.Frames, p3: Pmm.Frames, c: FrameNo,
                    news: seq<FrameNo>, incs: seq<FrameNo>, n: seq<FrameNo>, q: seq<FrameNo>)
    requires i <= |t.kids|
    requires PmDelta(p, p', news, incs) && Pmm.Consistent(p') && Pmm.LowestClear(p', c)
    requires PmDelta(Pmm.AllocAt(p', c), p3, n, q)
    requires forall f: FrameNo :: Count(t, f) > 0 ==> p.Has(f)
    requires forall f :: multiset(incs)[f] == CountKids(t.kids[..i], f)
    ensures PmDelta(p, p3, news + ([c] + n), incs + q)
  {
    PmDeltaAlloc(p', c);
    PmDeltaThen(p', Pmm.AllocAt(p', c), p3, [c], [], n, q);
    assert [] + q == q;
    forall f: FrameNo | f in incs ensures p'.Has(f) {
      assert multiset(incs)[f] > 0;
      CountPrefix(t.kids, i, f);
      assert p.Has(f);
    }
    PmDeltaThen(p, p', p3, news, incs, [c] + n, q);
  }

  /** What holds after the copy below entry i, whether or not it ran out of frames. */
  lemma SubAfter(m: Memory, p: Pmm.Frames, m': Memory, p': Pmm.Frames, m3: Memory, p3: Pmm.Frames, level: int,
                 pt: FrameNo, ct: FrameNo, i: int, news: seq<FrameNo>, incs: seq<FrameNo>, c: FrameNo, ok: bool,
                 n: seq<FrameNo>, q: seq<FrameNo>)
    requires 2 <= level <= 4 && CanCopy(m, p, level, pt, ct)
    requires 0 <= i < Width(level) && Progress(m, p, m', p', level, pt, ct, i, news, incs)
    requires Followed(level, m'[pt][i])
    requires Pmm.LowestClear(p', c)
    requires Copied(Hang(m', ct, i, c), Pmm.AllocAt(p', c), m3, p3, level - 1, m'[pt][i].frame, c, ok, n, q)
    ensures MemDelta(m, m3, Frames(TableAt(m, level, pt)) + {ct} + Elems(news + ([c] + n)))
    ensures m3[pt] == m'[pt] && m3[ct] == m'[ct][i := Entry(c)]
    ensures TableAt(m3, level, pt)
         == Table(pt, TableAt(m', level, pt).kids[i := Sub(m'[pt][i], TableAt(m3, level - 1, m'[pt][i].frame))])
    ensures TableAt(m3, level, ct)
         == Table(ct, TableAt(m', level, ct).kids[i := Sub(Entry(c), TableAt(m3, level - 1, c))])
    ensures TableAt(m, level, pt).kids[i] == Sub(m'[pt][i], TableAt(Hang(m', ct, i, c), level - 1, m'[pt][i].frame))
    ensures ({c} + Elems(n)) !! Frames(TableAt(m', level, ct))
  {
    hide Progress, CanCopy, Copied, PmDelta, MemDelta;
    ProgressFrames(m, p, m', p', level, pt, ct, i, news, incs);
    CopiedDeltas(Hang(m', ct, i, c), Pmm.AllocAt(p', c), m3, p3, level - 1, m'[pt][i].frame, c, ok, n, q);
    var t := TableAt(m, level, pt);
    Occupied(m, p, m', p', level, pt, ct, i, news, incs);
    NextKid(m, p, m', p', level, pt, ct, i, news, incs);
    SubSetup(m, p, m', p', level, pt, ct, i, news, incs, c);
    FreshFrames(p', c, p3, n, q);
    var s := Frames(t.kids[i].table) + {c} + Elems(n);
    SubFrames(TableAt(m', level, pt), TableAt(m', level, ct), p', i, c, n);
    SubTrees(m', m3, level, pt, ct, i, c, s);
    ElemsConcat(news, c, n);
    MemDeltaThen(m, m', m3, Frames(t) + {ct} + Elems(news), s + {ct},
                 Frames(t) + {ct} + Elems(news + ([c] + n)));
  }

  /** What a copy below entry i touches: frames below that entry, and new ones. */
  lemma SubFrames(t: Table, tc: Table, p: Pmm.Frames, i: nat, c: FrameNo, n: seq<FrameNo>)
    requires i < |t.kids| && t.kids[i].Sub? && Frames(t) !! Frames(tc) && Frames(t.kids[i].table) <= Frames(t)
    requires (forall f :: f in Frames(t) ==> p.Has(f)) && (forall f :: f in Frames(tc) ==> p.Has(f))
    requires forall f :: f in {c} + Elems(n) ==> !p.Has(f)
    ensures var s := Frames(t.kids[i].table) + {c} + Elems(n);
      && s !! Frames(tc) && ({c} + Elems(n)) !! Frames(tc)
      && forall f :: f in s && f in Frames(t) ==> f in KidFrames(t.kids[i])
  {
    hide Frames;
  }

  lemma MemDeltaThen(m: Memory, m': Memory, m3: Memory, s: set<FrameNo>, s': set<FrameNo>, all: set<FrameNo>)
    requires MemDelta(m, m', s) && MemDelta(m', m3, s') && s <= all && s' <= all
    ensures MemDelta(m, m3, all)
  {
  }

  lemma CopiedDeltas(m: Memory, p: Pmm.Frames, m3: Memory, p3: Pmm.Frames, level: int, pt: FrameNo, c: FrameNo,
                     ok: bool, n: seq<FrameNo>, q: seq<FrameNo>)
    requires 1 <= level <= 3 && Copied(m, p, m3, p3, level, pt, c, ok, n, q)
    ensures PmDelta(p, p3, n, q) && MemDelta(m, m3, Frames(TableAt(m, level, pt)) + {c} + Elems(n))
  {
    hide PmDelta, MemDelta;
  }

  lemma ElemsConcat(news: seq<FrameNo>, c: FrameNo, n: seq<FrameNo>)
    ensures Elems(news + ([c] + n)) == Elems(news) + {c} + Elems(n)
  {
  }

  lemma FreshFrames(p': Pmm.Frames, c: FrameNo, p3: Pmm.Frames, n: seq<FrameNo>, q: seq<FrameNo>)
    requires Pmm.Consistent(p') && Pmm.LowestClear(p', c) && PmDelta(Pmm.AllocAt(p', c), p3, n, q)
    ensures forall f :: f in {c} + Elems(n) ==> !p'.Has(f)
  {
  }

  lemma ProgressSub(m: Memory, p: Pmm.Frames, m': Memory, p': Pmm.Frames, m3: Memory, p3: Pmm.Frames, level: int,
                    pt: FrameNo, ct: FrameNo, i: int, news: seq<FrameNo>, incs: seq<FrameNo>, c: FrameNo,
                    n: seq<FrameNo>, q: seq<FrameNo>)
    requires 2 <= level <= 4 && CanCopy(m, p, level, pt, ct)
    requires 0 <= i < Width(level) && Progress(m, p, m', p', level, pt, ct, i, news, incs)
    requires Followed(level, m'[pt][i])
    requires Pmm.LowestClear(p', c) && Pmm.Consistent(p3)
    requires Copied(Hang(m', ct, i, c), Pmm.AllocAt(p', c), m3, p3, level - 1, m'[pt][i].frame, c, true, n, q)
    ensures Progress(m, p, m3, p3, level, pt, ct, i + 1, news + ([c] + n), incs + q)
  {
    hide Progress, CanCopy, Copied, PmDelta, MemDelta;
    ProgressFrames(m, p, m', p', level, pt, ct, i, news, incs);
    var e, hung := m'[pt][i], Hang(m', ct, i, c);
    SubAfter(m, p, m', p', m3, p3, level, pt, ct, i, news, incs, c, true, n, q);
    AccountsFor(m, p, m', p', m3, p3, level, pt, ct, i, news, incs, c, true, n, q);
    SubKids(hung, Pmm.AllocAt(p', c), m3, p3, level - 1, e, c, n, q);
    ElemsConcat([], c, n);
    assert [] + ([c] + n) == [c] + n;
    var k, ck := Sub(e, TableAt(m3, level - 1, e.frame)), Sub(Entry(c), TableAt(m3, level - 1, c));
    ProgressNext(m, p, m', p', m3, p3, level, pt, ct, i, news, incs, k, ck, [c] + n, q);
  }

  lemma AccountsFor(m: Memory, p: Pmm.Frames, m': Memory, p': Pmm.Frames, m3: Memory, p3: Pmm.Frames, level: int,
                    pt: FrameNo, ct: FrameNo, i: int, news: seq<FrameNo>, incs: seq<FrameNo>, c: FrameNo, ok: bool,
                    n: seq<FrameNo>, q: seq<FrameNo>)
    requires 2 <= level <= 4 && CanCopy(m, p, level, pt, ct)
    requires 0 <= i < Width(level) && Progress(m, p, m', p', level, pt, ct, i, news, incs)
    requires Pmm.LowestClear(p', c)
    requires Copied(Hang(m', ct, i, c), Pmm.AllocAt(p', c), m3, p3, level - 1, m'[pt][i].frame, c, ok, n, q)
    ensures PmDelta(p, p3, news + ([c] + n), incs + q)
  {
    hide PmDelta, MemDelta, ParentAt, ChildAt, Pmm.Consistent;
    SubAccounts(TableAt(m, level, pt), i, p, p', p3, c, news, incs, n, q);
  }

  /** The two entries that a finished copy below them hangs in parent and child. */
  lemma SubKids(m: Memory, p: Pmm.Frames, m3: Memory, p3: Pmm.Frames, level: int, e: Word, c: FrameNo, n: seq<FrameNo>,
                q: seq<FrameNo>)
    requires 1 <= level <= 3 && Copied(m, p, m3, p3, level, e.frame, c, true, n, q)
    ensures var k0, k := Sub(e, TableAt(m, level, e.frame)), Sub(e, TableAt(m3, level, e.frame));
            var ck := Sub(Entry(c), TableAt(m3, level, c));
      && WeakenedKid(k0, k) && ReadOnlyKid(k) && TwinKid(k, ck) && KidSeparated(ck)
      && KidFrames(ck) == Elems([c] + n)
      && forall f :: multiset(q)[f] == CountKid(k0, f)
  {
    hide PmDelta, MemDelta;
    ElemsConcat([], c, n);
    assert [] + ([c] + n) == [c] + n;
  }

  lemma ProgressSubFailed(m: Memory, p: Pmm.Frames, m': Memory, p': Pmm.Frames, m3: Memory, p3: Pmm.Frames, level: int,
                          pt: FrameNo, ct: FrameNo, i: int, news: seq<FrameNo>, incs: seq<FrameNo>, c: FrameNo,
                          n: seq<FrameNo>, q: seq<FrameNo>)
    requires 2 <= level <= 4 && CanCopy(m, p, level, pt, ct)
    requires 0 <= i < Width(level) && Progress(m, p, m', p', level, pt, ct, i, news, incs)
    requires Followed(level, m'[pt][i])
    requires Pmm.LowestClear(p', c)
    requires Copied(Hang(m', ct, i, c), Pmm.AllocAt(p', c), m3, p3, level - 1, m'[pt][i].frame, c, false, n, q)
    ensures Copied(m, p, m3, p3, level, pt, ct, false, news + ([c] + n), incs + q)
  {
    hide Progress, CanCopy, Copied, PmDelta, MemDelta, Weakened, WeakenedKid;
    var t, t', t3 := TableAt(m, level, pt), TableAt(m', level, pt), TableAt(m3, level, pt);
    ProgressFrames(m, p, m', p', level, pt, ct, i, news, incs);
    var e, hung := m'[pt][i], Hang(m', ct, i, c);
    SubAfter(m, p, m', p', m3, p3, level, pt, ct, i, news, incs, c, false, n, q);
    AccountsFor(m, p, m', p', m3, p3, level, pt, ct, i, news, incs, c, false, n, q);
    ProgressWeak(m, p, m', p', level, pt, ct, i, news, incs);
    SubPartly(hung, Pmm.AllocAt(p', c), m3, p3, level - 1, e, c, n, q);
    WeakenedUpdate(t, t', t3, i, Sub(e, TableAt(m3, level - 1, e.frame)));
    PartialCounts(t, i, incs, q);
    CopiedPartly(m, p, m3, p3, level, pt, ct, news + ([c] + n), incs + q);
  }

  lemma ProgressWeak(m: Memory, p: Pmm.Frames, m': Memory, p': Pmm.Frames, level: int, pt: FrameNo, ct: FrameNo,
                     i: int, news: seq<FrameNo>, incs: seq<FrameNo>)
    requires 1 <= level <= 4 && 0 <= i <= Width(level) && Progress(m, p, m', p', level, pt, ct, i, news, incs)
    ensures Weakened(TableAt(m, level, pt), TableAt(m', level, pt))
    ensures forall f :: multiset(incs)[f] == CountKids(TableAt(m, level, pt).kids[..i], f)
    ensures forall j :: Width(level) <= j < 512 ==> m'[ct][j] == m[ct][j] && m'[pt][j] == m[pt][j]
  {
    hide PmDelta, MemDelta, ChildAt, Weakened, Pmm.Consistent;
  }

  lemma SubPartly(m: Memory, p: Pmm.Frames, m3: Memory, p3: Pmm.Frames, level: int, e: Word, c: FrameNo,
                  n: seq<FrameNo>, q: seq<FrameNo>)
    requires 1 <= level <= 3 && Copied(m, p, m3, p3, level, e.frame, c, false, n, q)
    ensures WeakenedKid(Sub(e, TableAt(m, level, e.frame)), Sub(e, TableAt(m3, level, e.frame)))
    ensures forall f :: multiset(q)[f] <= CountKid(Sub(e, TableAt(m, level, e.frame)), f)
  {
    hide PmDelta, MemDelta;
  }

  lemma CopiedPartly(m: Memory, p: Pmm.Frames, m': Memory, p': Pmm.Frames, level: int, pt: FrameNo, ct: FrameNo,
                     news: seq<FrameNo>, incs: seq<FrameNo>)
    requires 1 <= level <= 4 && PmDelta(p, p', news, incs)
    requires MemDelta(m, m', Frames(TableAt(m, level, pt)) + {ct} + Elems(news))
    requires forall j :: Width(level) <= j < 512 ==> m'[ct][j] == m[ct][j] && m'[pt][j] == m[pt][j]
    requires Weakened(TableAt(m, level, pt), TableAt(m', level, pt))
    requires forall f :: multiset(incs)[f] <= Count(TableAt(m, level, pt), f)
    ensures Copied(m, p, m', p', level, pt, ct, false, news, incs)
  {
    hide PmDelta, MemDelta, Weakened;
  }

  lemma PartialCounts(t: Table, i: nat, incs: seq<FrameNo>, q: seq<FrameNo>)
    requires i < |t.kids|
    requires forall f :: multiset(incs)[f] == CountKids(t.kids[..i], f)
    requires forall f :: multiset(q)[f] <= CountKid(t.kids[i], f)
    ensures forall f :: multiset(incs + q)[f] <= Count(t, f)
  {
    assert multiset(incs + q) == multiset(incs) + multiset(q);
    forall f ensures multiset(incs + q)[f] <= Count(t, f) {
      CountPrefix(t.kids, i, f);
    }
  }

  // ---------------------------------------------------------------- rollback

  lemma UndoAlloc(p: Pmm.Frames, p': Pmm.Frames, f: FrameNo, news: seq<FrameNo>, incs: seq<FrameNo>)
    requires PmDelta(p, p', [f] + news, incs)
    requires f !in incs
    ensures 1 <= f < |p'.used| && p'.used[f] && p'.rc[f] == 1
    ensures PmDelta(p, Pmm.FreeAt(p', f), news, incs)
  {
    var all := [f] + news;
    assert all[0] == f && f in all && multiset(incs)[f] == 0;
    forall i | 0 <= i < |news| ensures news[i] != f {
      assert all[i + 1] == news[i];
    }
    forall i, j | 0 <= i < j < |news| ensures news[i] != news[j] {
      assert all[i + 1] == news[i] && all[j + 1] == news[j];
    }
    forall g ensures g in all <==> g == f || g in news {
    }
  }

  lemma UndoIncref(p: Pmm.Frames, p': Pmm.Frames, f: FrameNo, incs: seq<FrameNo>)
    requires PmDelta(p, p', [], [f] + incs)
    requires p.Has(f) && p.rc[f] > 0
    ensures p'.Has(f) && p'.rc[f] > 0
    ensures PmDelta(p, Pmm.DecrefAt(p', f), [], incs)
  {
    assert multiset([f] + incs) == multiset{f} + multiset(incs);
  }

  lemma PmDeltaNone(p: Pmm.Frames, p': Pmm.Frames)
    requires PmDelta(p, p', [], [])
    ensures p' == p
  {
  }

  // ---------------------------------------------------------------- the two outcomes of a fork

  /** Parent and child share every page read-only; the child's tables are new frames;
      each page's count grew by the number of entries that map it. */
  ghost predicate Forked(m: Memory, p: Pmm.Frames, m': Memory, p': Pmm.Frames, parent: FrameNo, child: FrameNo,
                         news: seq<FrameNo>) {
    var t, t', c := TableAt(m, 4, parent), TableAt(m', 4, parent), TableAt(m', 4, child);
    && |p'.used| == |p.used| == |p.rc| == |p'.rc|
    && MemDelta(m, m', Frames(t) + {child} + Elems(news))
    && Distinct(news)
    && (forall f :: f in news ==> 1 <= f < |p.used| && !p.used[f])
    && (forall f :: 0 <= f < |p.used| ==> p'.used[f] == (p.used[f] || f in news))
    && (forall f: FrameNo :: f < |p.used| ==> p'.rc[f] == if f in news then 1 else p.rc[f] + Count(t, f))
    && Weakened(t, t') && ReadOnly(t')
    && Twin(t', c) && Separated(c)
    && Frames(c) == {child} + Elems(news)
  }

  /** The parent keeps its tables and its translations, every other allocated frame its contents. */
  ghost predicate ForkFailed(m: Memory, p: Pmm.Frames, m': Memory, parent: FrameNo, child: FrameNo) {
    var t, t' := TableAt(m, 4, parent), TableAt(m', 4, parent);
    && Weakened(t, t')
    && forall f: FrameNo :: p.Has(f) && f != child && f !in Frames(t) ==> m'[f] == m[f]
  }

  lemma CopiedForked(m: Memory, p: Pmm.Frames, m': Memory, p': Pmm.Frames, parent: FrameNo, child: FrameNo,
                     news: seq<FrameNo>, incs: seq<FrameNo>)
    requires CanCopy(m, p, 4, parent, child)
    requires Copied(m, p, m', p', 4, parent, child, true, news, incs)
    ensures Forked(m, p, m', p', parent, child, news)
  {
    var t := TableAt(m, 4, parent);
    forall f: FrameNo | f < |p.used| ensures p'.rc[f] == if f in news then 1 else p.rc[f] + Count(t, f) {
      assert multiset(incs)[f] == Count(t, f);
    }
  }

  lemma CopiedFailed(m: Memory, p: Pmm.Frames, m': Memory, p': Pmm.Frames, parent: FrameNo, child: FrameNo,
                     news: seq<FrameNo>, incs: seq<FrameNo>)
    requires CanCopy(m, p, 4, parent, child)
    requires Copied(m, p, m', p', 4, parent, child, false, news, incs)
    ensures ForkFailed(m, p, m', parent, child)
    ensures forall f :: f in incs ==> f !in news && p.Has(f) && p.rc[f] > 0
  {
    var t := TableAt(m, 4, parent);
    forall f: FrameNo | f in incs ensures f !in news && p.Has(f) && p.rc[f] > 0 {
      assert multiset(incs)[f] > 0;
    }
  }
}
