/** Mapping a page that was not mapped: `map_page` walks down, adding the tables it misses,
    and fills an unused leaf entry (indo-kernel/src/memory/vmm.rs, lines 107-130). */
module PageGraft {
  import opened Wrappers
  import opened PageTables
  import opened ForkCopy
  import opened PageUpdate
  import Pmm

  ghost function Blank(c: FrameNo, level: int): Table {
    Table(c, seq(Width(level), _ => Hole))
  }

  /** t' is t with page v mapped by w, through the new tables `news`. */
  ghost predicate Grafted(t: Table, t': Table, level: int, v: Page, w: Word, news: set<FrameNo>)
    decreases level, 1
  {
    var i := Index(v, level);
    && t'.frame == t.frame
    && |t'.kids| == |t.kids| && i < |t.kids|
    && t'.kids == t.kids[i := t'.kids[i]]
    && GraftedKid(t.kids[i], t'.kids[i], level, v, w, news)
  }

  ghost predicate GraftedKid(k: Kid, k': Kid, level: int, v: Page, w: Word, news: set<FrameNo>)
    decreases level, 0
  {
    if level <= 1 then k == Hole && k' == Leaf(w) && news == {}
    else
      && k'.Sub?
      && match k
         case Hole =>
           var c := k'.table.frame;
           c in news && Grafted(Blank(c, level - 1), k'.table, level - 1, v, w, news - {c})
           && k'.e.writable == w.writable && k'.e.user == w.user
         case Leaf(_) => false
         case Sub(e, s) => Grafted(s, k'.table, level - 1, v, w, news) && Widened(e, k'.e, w)
  }

  /** The entry of a table permits what it did and what w permits, and is otherwise as before. */
  predicate Widened(e: Word, e': Word, w: Word) {
    && (e'.writable <==> e.writable || w.writable) && (e'.user <==> e.user || w.user)
    && e'.(writable := e.writable, user := e.user) == e
  }

  /** The subtree a graft starts from: the one already there, or an empty new table. */
  ghost function Stock(k: Kid, c: FrameNo, level: int): Table {
    if k.Sub? then k.table else Blank(c, level)
  }

  lemma {:induction false} GraftLookup(t: Table, t': Table, level: int, v: Page, w: Word, news: set<FrameNo>, u: Page)
    requires 1 <= level <= 4 && Grafted(t, t', level, v, w, news)
    ensures Lookup(t, level, v) == None
    ensures Lookup(t', level, u) == if SamePath(v, u, level) then Some(w) else Lookup(t, level, u)
    decreases level
  {
    var i := Index(v, level);
    var k, k' := t.kids[i], t'.kids[i];
    assert GraftedKid(k, k', level, v, w, news);
    if level > 1 {
      var s := Stock(k, k'.table.frame, level - 1);
      GraftLookup(s, k'.table, level - 1, v, w, if k.Sub? then news else news - {k'.table.frame}, u);
    }
  }

  /** A page mapped for user writes can be reached for them; no way that was open is closed; and a
      page mapped without permissions opens none. */
  lemma {:induction false} GraftPath(t: Table, t': Table, level: int, v: Page, w: Word, news: set<FrameNo>, u: Page)
    requires 1 <= level <= 4 && Grafted(t, t', level, v, w, news)
    ensures w.writable && w.user && SamePath(v, u, level) ==> PathAbove(t', level, u)
    ensures PathAbove(t, level, u) ==> PathAbove(t', level, u)
    ensures !w.writable && !w.user && PathAbove(t', level, u) ==> PathAbove(t, level, u)
    decreases level
  {
    var i := Index(v, level);
    var k, k' := t.kids[i], t'.kids[i];
    assert GraftedKid(k, k', level, v, w, news);
    if level > 1 {
      var s := Stock(k, k'.table.frame, level - 1);
      GraftPath(s, k'.table, level - 1, v, w, if k.Sub? then news else news - {k'.table.frame}, u);
    }
  }

  lemma {:induction false} GraftCount(t: Table, t': Table, level: int, v: Page, w: Word, news: set<FrameNo>, f: FrameNo)
    requires 1 <= level <= 4 && Grafted(t, t', level, v, w, news)
    ensures Count(t', f) == Count(t, f) + if w.frame == f then 1 else 0
    decreases level
  {
    var i := Index(v, level);
    var k, k' := t.kids[i], t'.kids[i];
    assert GraftedKid(k, k', level, v, w, news);
    CountUpdate(t.kids, i, k', f);
    if level > 1 {
      var s := Stock(k, k'.table.frame, level - 1);
      GraftCount(s, k'.table, level - 1, v, w, if k.Sub? then news else news - {k'.table.frame}, f);
      if k.Hole? {
        CountHoles(s.kids, f);
      }
    }
  }

  lemma {:induction false} GraftFrames(t: Table, t': Table, level: int, v: Page, w: Word, news: set<FrameNo>)
    requires 1 <= level <= 4 && Grafted(t, t', level, v, w, news)
    requires Separated(t) && news !! Frames(t)
    ensures Frames(t') == Frames(t) + news && Separated(t')
    decreases level
  {
    var i := Index(v, level);
    var k, k' := t.kids[i], t'.kids[i];
    assert GraftedKid(k, k', level, v, w, news);
    if level > 1 {
      var s := Stock(k, k'.table.frame, level - 1);
      var more := if k.Sub? then news else news - {k'.table.frame};
      if k.Hole? {
        EmptyTable(s);
      } else {
        assert KidSeparated(k);
        assert Frames(s) == KidFrames(k) <= Frames(t);
      }
      GraftFrames(s, k'.table, level - 1, v, w, more);
    }
    assert KidFrames(k') == KidFrames(k) + news;
    ReplaceKid(t, i, k', news);
  }

  /** Growing one subtree by new frames keeps a tree separated. */
  lemma ReplaceKid(t: Table, i: nat, k': Kid, news: set<FrameNo>)
    requires i < |t.kids| && Separated(t) && KidSeparated(k')
    requires KidFrames(k') == KidFrames(t.kids[i]) + news && news !! Frames(t)
    ensures Separated(Table(t.frame, t.kids[i := k']))
    ensures Frames(Table(t.frame, t.kids[i := k'])) == Frames(t) + news
  {
    var t' := Table(t.frame, t.kids[i := k']);
    forall j | 0 <= j < |t.kids| ensures KidFrames(t.kids[j]) <= KidFrames(t'.kids[j]) <= KidFrames(t.kids[j]) + news {
    }
    forall f | f in Frames(t) ensures f in Frames(t') {
      if f != t.frame {
        var j :| 0 <= j < |t.kids| && f in KidFrames(t.kids[j]);
        assert f in KidFrames(t'.kids[j]);
      }
    }
    forall f | f in news ensures f in Frames(t') {
      assert f in KidFrames(t'.kids[i]);
    }
    forall j | 0 <= j < |t.kids| ensures KidSeparated(t'.kids[j]) && t'.frame !in KidFrames(t'.kids[j]) {
      assert KidSeparated(t.kids[j]) && t.frame !in KidFrames(t.kids[j]);
      assert t.frame in Frames(t);
    }
    forall j, l | 0 <= j < l < |t.kids| ensures KidFrames(t'.kids[j]) !! KidFrames(t'.kids[l]) {
      assert KidFrames(t.kids[j]) !! KidFrames(t.kids[l]);
      assert KidFrames(t.kids[j]) <= Frames(t) && KidFrames(t.kids[l]) <= Frames(t);
    }
  }

  // ---------------------------------------------------------------- the walk that maps

  ghost predicate CanMap(m: Memory, p: Pmm.Frames, level: int, t: FrameNo)
    requires 1 <= level <= 4
  {
    && Pmm.Consistent(p)
    && Separated(TableAt(m, level, t))
    && forall f: FrameNo {:trigger f in Frames(TableAt(m, level, t))} :: f in Frames(TableAt(m, level, t)) ==> p.Has(f)
  }

  ghost predicate Mapped(m: Memory, p: Pmm.Frames, m': Memory, p': Pmm.Frames, level: int, t: FrameNo, v: Page, w: Word,
                         news: seq<FrameNo>)
    requires 1 <= level <= 4
  {
    && Grafted(TableAt(m, level, t), TableAt(m', level, t), level, v, w, Elems(news))
    && PmDelta(p, p', news, [])
    && MemDelta(m, m', Frames(TableAt(m, level, t)) + Elems(news))
  }

  lemma MappedLeaf(m: Memory, p: Pmm.Frames, m': Memory, t: FrameNo, v: Page, w: Word)
    requires CanMap(m, p, 1, t) && !m[t][v.i1].present && w.present
    requires m' == m[t := m[t][v.i1 := w]]
    ensures Mapped(m, p, m', p, 1, t, v, w, [])
  {
    KidIs(m, 1, t, v.i1);
    LeafRow(m, m', t, v.i1, w);
    assert t in Frames(TableAt(m, 1, t));
    assert Elems([]) == {};
  }

  function TableEntry(e: Word, w: Word): Word {
    e.(writable := e.writable || w.writable, user := e.user || w.user)
  }

  /** Descending into a table that is there: only permission bits of its entry grow. */
  lemma DescendExisting(m: Memory, p: Pmm.Frames, m1: Memory, level: int, t: FrameNo, v: Page, w: Word)
    requires 2 <= level <= 4 && CanMap(m, p, level, t)
    requires Followed(level, m[t][Index(v, level)])
    requires m1 == m[t := m[t][Index(v, level) := TableEntry(m[t][Index(v, level)], w)]]
    ensures var e := m[t][Index(v, level)];
            && TableAt(m1, level - 1, e.frame) == TableAt(m, level - 1, e.frame)
            && TableAt(m, level, t).kids[Index(v, level)] == Sub(e, TableAt(m, level - 1, e.frame))
            && CanMap(m1, p, level - 1, e.frame)
            && Frames(TableAt(m, level - 1, e.frame)) <= Frames(TableAt(m, level, t)) - {t}
  {
    hide CanMap, Followed;
    var i := Index(v, level);
    MapBelow(m, p, level, t, i);
    FramingBut(m, m1, level - 1, m[t][i].frame, t);
    CanMapSame(m, m1, p, level - 1, m[t][i].frame);
  }

  /** Only frame g changed, which the table does not use. */
  lemma FramingBut(m: Memory, m1: Memory, level: int, t: FrameNo, g: FrameNo)
    requires 1 <= level <= 4 && g !in Frames(TableAt(m, level, t)) && m1 == m[g := m1[g]]
    ensures TableAt(m1, level, t) == TableAt(m, level, t)
  {
    TableFraming(m, m1, level, t);
  }

  lemma CanMapSame(m: Memory, m1: Memory, p: Pmm.Frames, level: int, t: FrameNo)
    requires 1 <= level <= 4 && CanMap(m, p, level, t) && TableAt(m1, level, t) == TableAt(m, level, t)
    ensures CanMap(m1, p, level, t)
  {
  }

  lemma SubBelow(m: Memory, level: int, t: FrameNo, i: nat)
    requires 2 <= level <= 4 && i < Width(level) && Separated(TableAt(m, level, t)) && Followed(level, m[t][i])
    ensures var r, s := TableAt(m, level, t), TableAt(m, level - 1, m[t][i].frame);
      r.kids[i] == Sub(m[t][i], s) && Separated(s) && Frames(s) <= Frames(r) - {t}
  {
    var r := TableAt(m, level, t);
    KidIs(m, level, t, i);
    assert KidSeparated(r.kids[i]) && t !in KidFrames(r.kids[i]);
    assert KidFrames(r.kids[i]) <= Frames(r);
  }

  lemma MapBelow(m: Memory, p: Pmm.Frames, level: int, t: FrameNo, i: nat)
    requires 2 <= level <= 4 && i < Width(level) && CanMap(m, p, level, t) && Followed(level, m[t][i])
    ensures CanMap(m, p, level - 1, m[t][i].frame)
    ensures var r, s := TableAt(m, level, t), TableAt(m, level - 1, m[t][i].frame);
      r.kids[i] == Sub(m[t][i], s) && Frames(s) <= Frames(r) - {t}
  {
    SubBelow(m, level, t, i);
  }

  function NewTable(m: Memory, t: FrameNo, i: nat, c: FrameNo, w: Word): Memory
    requires i < 512
  {
    m[c := ZeroFrame()][t := m[t][i := Word(true, w.writable, w.user, false, 0, c)]]
  }

  lemma TableHas(m: Memory, p: Pmm.Frames, level: int, t: FrameNo)
    requires 1 <= level <= 4 && CanMap(m, p, level, t)
    ensures p.Has(t)
  {
    assert t in Frames(TableAt(m, level, t));
  }

  /** Descending into a table just added: it is empty. */
  lemma DescendNew(m: Memory, p: Pmm.Frames, level: int, t: FrameNo, v: Page, w: Word, c: FrameNo)
    requires 2 <= level <= 4 && CanMap(m, p, level, t)
    requires !Followed(level, m[t][Index(v, level)])
    requires Pmm.LowestClear(p, c)
    ensures c != t
    ensures TableAt(NewTable(m, t, Index(v, level), c, w), level - 1, c) == Blank(c, level - 1)
    ensures TableAt(m, level, t).kids[Index(v, level)] == Hole
    ensures CanMap(NewTable(m, t, Index(v, level), c, w), Pmm.AllocAt(p, c), level - 1, c)
    ensures c !in Frames(TableAt(m, level, t))
  {
    var m1 := NewTable(m, t, Index(v, level), c, w);
    var b := TableAt(m1, level - 1, c);
    KidIs(m, level, t, Index(v, level));
    assert t in Frames(TableAt(m, level, t));
    forall j | 0 <= j < Width(level - 1) ensures b.kids[j] == Hole {
      KidIs(m1, level - 1, c, j);
    }
    assert b.kids == Blank(c, level - 1).kids;
    EmptyTable(b);
  }

  /** The table above, once the page is mapped below it. */
  lemma AscendTree(m: Memory, m1: Memory, m2: Memory, level: int, t: FrameNo, i: int, s: set<FrameNo>, e1: Word)
    requires 2 <= level <= 4 && 0 <= i < Width(level)
    requires Separated(TableAt(m, level, t))
    requires m1[t] == m[t][i := e1] && t !in s && MemDelta(m1, m2, s)
    requires Followed(level, e1)
    requires forall f: FrameNo {:trigger f in Frames(TableAt(m, level, t))} ::
               f in Frames(TableAt(m, level, t)) && f != t ==> m1[f] == m[f]
    requires forall f: FrameNo {:trigger f in s} :: f in s && f in Frames(TableAt(m, level, t)) ==>
               f in KidFrames(TableAt(m, level, t).kids[i])
    ensures TableAt(m2, level, t) == Table(t, TableAt(m, level, t).kids[i := Sub(e1, TableAt(m2, level - 1, e1.frame))])
  {
    var r := TableAt(m, level, t);
    forall j, f | 0 <= j < Width(level) && j != i && f in KidFrames(r.kids[j]) ensures m2[f] == m[f] {
      assert f in Frames(r) && f != t;
      assert KidFrames(r.kids[i]) !! KidFrames(r.kids[j]);
    }
    OneKidChanged(m, m2, level, t, i);
  }

  lemma NewsFresh(p: Pmm.Frames, p': Pmm.Frames, news: seq<FrameNo>)
    requires PmDelta(p, p', news, [])
    ensures forall f: FrameNo {:trigger f in Elems(news)} :: f in Elems(news) ==> !p.Has(f)
  {
  }

  lemma MemDeltaThen(m: Memory, m1: Memory, m2: Memory, a: set<FrameNo>, b: set<FrameNo>, all: set<FrameNo>)
    requires MemDelta(m, m1, a) && MemDelta(m1, m2, b) && a <= all && b <= all
    ensures MemDelta(m, m2, all)
  {
  }

  lemma ExistingMem(m: Memory, p: Pmm.Frames, m1: Memory, m2: Memory, level: int, t: FrameNo, v: Page, w: Word,
                    news: set<FrameNo>)
    requires 2 <= level <= 4 && CanMap(m, p, level, t)
    requires Followed(level, m[t][Index(v, level)])
    requires m1 == m[t := m[t][Index(v, level) := TableEntry(m[t][Index(v, level)], w)]]
    requires forall f: FrameNo {:trigger f in news} :: f in news ==> !p.Has(f)
    requires MemDelta(m1, m2, Frames(TableAt(m1, level - 1, m[t][Index(v, level)].frame)) + news)
    ensures var e := m[t][Index(v, level)];
            var below := Sub(TableEntry(e, w), TableAt(m2, level - 1, e.frame));
            TableAt(m2, level, t) == Table(t, TableAt(m, level, t).kids[Index(v, level) := below])
    ensures MemDelta(m, m2, Frames(TableAt(m, level, t)) + news)
  {
    hide MemDelta;
    var i := Index(v, level);
    var e, r := m[t][i], TableAt(m, level, t);
    var s := Frames(TableAt(m, level - 1, e.frame)) + news;
    DescendExisting(m, p, m1, level, t, v, w);
    assert t in Frames(r);
    AscendTree(m, m1, m2, level, t, i, s, TableEntry(e, w));
    PointWrite(m, m1, {t});
    MemDeltaThen(m, m1, m2, {t}, s, Frames(r) + news);
  }

  lemma MappedExisting(m: Memory, p: Pmm.Frames, m1: Memory, m2: Memory, p2: Pmm.Frames, level: int, t: FrameNo,
                       v: Page, w: Word, news: seq<FrameNo>)
    requires 2 <= level <= 4 && CanMap(m, p, level, t)
    requires Followed(level, m[t][Index(v, level)])
    requires m1 == m[t := m[t][Index(v, level) := TableEntry(m[t][Index(v, level)], w)]]
    requires Mapped(m1, p, m2, p2, level - 1, m[t][Index(v, level)].frame, v, w, news)
    ensures Mapped(m, p, m2, p2, level, t, v, w, news)
  {
    hide PmDelta, MemDelta, Elems;
    NewsFresh(p, p2, news);
    DescendExisting(m, p, m1, level, t, v, w);
    ExistingMem(m, p, m1, m2, level, t, v, w, Elems(news));
    var e := m[t][Index(v, level)];
    GraftedUp(TableAt(m, level, t), level, v, w, Elems(news), Sub(TableEntry(e, w), TableAt(m2, level - 1, e.frame)));
  }

  lemma GraftedUp(t: Table, level: int, v: Page, w: Word, news: set<FrameNo>, k': Kid)
    requires Index(v, level) < |t.kids|
    requires GraftedKid(t.kids[Index(v, level)], k', level, v, w, news)
    ensures Grafted(t, Table(t.frame, t.kids[Index(v, level) := k']), level, v, w, news)
  {
    assert t.kids[Index(v, level) := k'][Index(v, level)] == k';
  }

  lemma PointWrite(m: Memory, m': Memory, s: set<FrameNo>)
    requires forall f: FrameNo :: f !in s ==> m'[f] == m[f]
    ensures MemDelta(m, m', s)
  {
  }

  lemma NewMem(m: Memory, p: Pmm.Frames, c: FrameNo, m2: Memory, level: int, t: FrameNo, v: Page, w: Word,
               news: set<FrameNo>)
    requires 2 <= level <= 4 && CanMap(m, p, level, t)
    requires !Followed(level, m[t][Index(v, level)])
    requires Pmm.LowestClear(p, c)
    requires forall f: FrameNo {:trigger f in news} :: f in news ==> !p.Has(f)
    requires MemDelta(NewTable(m, t, Index(v, level), c, w), m2, {c} + news)
    ensures var below := Sub(Word(true, w.writable, w.user, false, 0, c), TableAt(m2, level - 1, c));
            TableAt(m2, level, t) == Table(t, TableAt(m, level, t).kids[Index(v, level) := below])
    ensures MemDelta(m, m2, Frames(TableAt(m, level, t)) + ({c} + news))
  {
    hide MemDelta;
    var i := Index(v, level);
    var m1, r := NewTable(m, t, i, c, w), TableAt(m, level, t);
    DescendNew(m, p, level, t, v, w, c);
    assert t in Frames(r);
    AscendTree(m, m1, m2, level, t, i, {c} + news, Word(true, w.writable, w.user, false, 0, c));
    PointWrite(m, m1, {t, c});
    MemDeltaThen(m, m1, m2, {t, c}, {c} + news, Frames(r) + ({c} + news));
  }

  lemma MappedNew(m: Memory, p: Pmm.Frames, c: FrameNo, m2: Memory, p2: Pmm.Frames, level: int, t: FrameNo, v: Page,
                  w: Word, news: seq<FrameNo>)
    requires 2 <= level <= 4 && CanMap(m, p, level, t)
    requires !Followed(level, m[t][Index(v, level)])
    requires Pmm.LowestClear(p, c)
    requires Mapped(NewTable(m, t, Index(v, level), c, w), Pmm.AllocAt(p, c), m2, p2, level - 1, c, v, w, news)
    ensures Mapped(m, p, m2, p2, level, t, v, w, [c] + news)
  {
    hide PmDelta, MemDelta, Elems;
    DescendNew(m, p, level, t, v, w, c);
    EmptyTable(Blank(c, level - 1));
    NewsFresh(Pmm.AllocAt(p, c), p2, news);
    NewAccounts(p, c, p2, news);
    NewMem(m, p, c, m2, level, t, v, w, Elems(news));
    GraftedUp(TableAt(m, level, t), level, v, w, Elems([c] + news),
              Sub(Word(true, w.writable, w.user, false, 0, c), TableAt(m2, level - 1, c)));
  }

  lemma NewAccounts(p: Pmm.Frames, c: FrameNo, p2: Pmm.Frames, news: seq<FrameNo>)
    requires Pmm.Consistent(p) && Pmm.LowestClear(p, c) && PmDelta(Pmm.AllocAt(p, c), p2, news, [])
    ensures PmDelta(p, p2, [c] + news, [])
    ensures Elems([c] + news) == {c} + Elems(news)
    ensures Elems([c] + news) - {c} == Elems(news)
  {
    PmDeltaAlloc(p, c);
    PmDeltaThen(p, Pmm.AllocAt(p, c), p2, [c], [], news, []);
    var none: seq<FrameNo> := [];
    assert none + none == none;
  }

  // ---------------------------------------------------------------- when mapping gets through

  /** The page's leaf entry is unused and no table on the way is a huge page or a stray entry. */
  ghost predicate Room(m: Memory, level: int, t: FrameNo, v: Page)
    requires 1 <= level <= 4
    decreases level
  {
    var e := m[t][Index(v, level)];
    if level == 1 then e == ZERO else e == ZERO || (e.present && !e.huge && Room(m, level - 1, e.frame, v))
  }

  lemma {:induction false} RoomFraming(m: Memory, m': Memory, level: int, t: FrameNo, v: Page)
    requires 1 <= level <= 4
    requires forall f: FrameNo {:trigger f in Frames(TableAt(m, level, t))} :: f in Frames(TableAt(m, level, t)) ==>
               m'[f] == m[f]
    ensures Room(m', level, t, v) == Room(m, level, t, v)
    decreases level
  {
    var i := Index(v, level);
    var e := m[t][i];
    assert t in Frames(TableAt(m, level, t));
    if level > 1 && e.present && !e.huge {
      KidIs(m, level, t, i);
      assert KidFrames(TableAt(m, level, t).kids[i]) <= Frames(TableAt(m, level, t));
      RoomFraming(m, m', level - 1, e.frame, v);
    }
  }

  lemma RoomExisting(m: Memory, p: Pmm.Frames, m1: Memory, level: int, t: FrameNo, v: Page, w: Word)
    requires 2 <= level <= 4 && CanMap(m, p, level, t)
    requires var e := m[t][Index(v, level)]; e.present && !e.huge
    requires m1 == m[t := m[t][Index(v, level) := TableEntry(m[t][Index(v, level)], w)]]
    ensures Room(m1, level - 1, m[t][Index(v, level)].frame, v) == Room(m, level, t, v)
  {
    hide CanMap;
    DescendExisting(m, p, m1, level, t, v, w);
    RoomFraming(m, m1, level - 1, m[t][Index(v, level)].frame, v);
  }

  lemma RoomNew(m: Memory, p: Pmm.Frames, level: int, t: FrameNo, v: Page, w: Word, c: FrameNo)
    requires 2 <= level <= 4 && CanMap(m, p, level, t) && m[t][Index(v, level)] == ZERO && Pmm.LowestClear(p, c)
    ensures Room(NewTable(m, t, Index(v, level), c, w), level - 1, c, v) && Room(m, level, t, v)
  {
    hide CanMap, Pmm.LowestClear;
    DescendNew(m, p, level, t, v, w, c);
  }
}
