/** Changing one leaf entry, or adding one, and what that does to the tree. */
module PageUpdate {
  import opened Wrappers
  import opened PageTables
  import opened ForkCopy

  // ---------------------------------------------------------------- changing a leaf

  /** The tree with the leaf of page v replaced by `k`. */
  ghost function SetLeaf(t: Table, level: int, v: Page, k: Kid): Table {
    if Index(v, level) < |t.kids| then
      t.(kids := t.kids[Index(v, level) := SetLeafKid(t.kids[Index(v, level)], level, v, k)])
    else t
  }

  ghost function SetLeafKid(old_: Kid, level: int, v: Page, k: Kid): Kid {
    match old_
    case Sub(e, s) => Sub(e, SetLeaf(s, level - 1, v, k))
    case _ => k
  }

  /** The frame of the level-1 table that holds the entry of a mapped page. */
  ghost function LeafTable(t: Table, level: int, v: Page): FrameNo {
    if Index(v, level) < |t.kids| && t.kids[Index(v, level)].Sub? then
      LeafTable(t.kids[Index(v, level)].table, level - 1, v)
    else t.frame
  }

  lemma {:induction false} LeafTableIn(t: Table, level: int, v: Page)
    ensures LeafTable(t, level, v) in Frames(t)
    decreases t
  {
    var i := Index(v, level);
    if i < |t.kids| && t.kids[i].Sub? {
      LeafTableIn(t.kids[i].table, level - 1, v);
      assert LeafTable(t, level, v) in KidFrames(t.kids[i]);
    }
  }

  lemma OtherKidsKept(m: Memory, m': Memory, level: int, t: FrameNo, i: int, pt: FrameNo)
    requires 1 <= level <= 4 && 0 <= i < Width(level)
    requires Separated(TableAt(m, level, t))
    requires level > 1 ==> pt in KidFrames(TableAt(m, level, t).kids[i])
    requires forall f :: f in Frames(TableAt(m, level, t)) && f != pt ==> m'[f] == m[f]
    ensures forall j, f :: 0 <= j < Width(level) && j != i && f in KidFrames(TableAt(m, level, t).kids[j]) ==>
              m'[f] == m[f]
  {
    var r := TableAt(m, level, t);
    forall j, f | 0 <= j < Width(level) && j != i && f in KidFrames(r.kids[j]) ensures m'[f] == m[f] {
      assert f in Frames(r);
      if level > 1 {
        assert KidFrames(r.kids[i]) !! KidFrames(r.kids[j]);
      } else {
        KidIs(m, level, t, j);
      }
    }
  }

  /** Memory differs, within the frames of the tree, in the one word that holds the entry of page v. */
  ghost predicate WritesWord(m: Memory, m': Memory, t: Table, level: int, v: Page, w: Word) {
    var pt := LeafTable(t, level, v);
    m'[pt] == m[pt][v.i1 := w] && forall f :: f in Frames(t) && f != pt ==> m'[f] == m[f]
  }

  /** The tree at t has page v. */
  ghost predicate Reaches(m: Memory, level: int, t: FrameNo, v: Page)
    requires 1 <= level <= 4
  {
    Separated(TableAt(m, level, t)) && Lookup(TableAt(m, level, t), level, v).Some?
  }

  ghost predicate LeafWritten(m: Memory, m': Memory, level: int, t: FrameNo, v: Page, w: Word)
    requires 1 <= level <= 4
  {
    TableAt(m', level, t) == SetLeaf(TableAt(m, level, t), level, v, if w.present then Leaf(w) else Hole)
  }

  /** The entry lies where the walk says: writing that word of memory is `SetLeaf`. */
  lemma {:induction false} WriteLeaf(m: Memory, m': Memory, level: int, t: FrameNo, v: Page, w: Word)
    requires 1 <= level <= 4
    requires Reaches(m, level, t, v) && WritesWord(m, m', TableAt(m, level, t), level, v, w)
    ensures LeafWritten(m, m', level, t, v, w)
    decreases level
  {
    hide WritesWord, Reaches, LeafWritten;
    if level == 1 {
      WriteRow(m, m', t, v, w);
    } else {
      WritesBelow(m, m', level, t, v, w);
      WriteLeaf(m, m', level - 1, m[t][Index(v, level)].frame, v, w);
      WriteAbove(m, m', level, t, v, w);
    }
  }

  lemma WritesBelow(m: Memory, m': Memory, level: int, t: FrameNo, v: Page, w: Word)
    requires 2 <= level <= 4 && Reaches(m, level, t, v) && WritesWord(m, m', TableAt(m, level, t), level, v, w)
    ensures var s := m[t][Index(v, level)].frame;
      Reaches(m, level - 1, s, v) && WritesWord(m, m', TableAt(m, level - 1, s), level - 1, v, w)
  {
    BelowKid(m, level, t, v);
  }

  lemma WriteRow(m: Memory, m': Memory, t: FrameNo, v: Page, w: Word)
    requires Reaches(m, 1, t, v) && WritesWord(m, m', TableAt(m, 1, t), 1, v, w)
    ensures LeafWritten(m, m', 1, t, v, w)
  {
    KidIs(m, 1, t, v.i1);
    KidIs(m', 1, t, v.i1);
    forall j | 0 <= j < 512 ensures KidFrames(TableAt(m, 1, t).kids[j]) == {} {
      KidIs(m, 1, t, j);
    }
    OneKidChanged(m, m', 1, t, v.i1);
  }

  lemma WriteAbove(m: Memory, m': Memory, level: int, t: FrameNo, v: Page, w: Word)
    requires 2 <= level <= 4 && Reaches(m, level, t, v) && WritesWord(m, m', TableAt(m, level, t), level, v, w)
    requires LeafWritten(m, m', level - 1, m[t][Index(v, level)].frame, v, w)
    ensures LeafWritten(m, m', level, t, v, w)
  {
    var i := Index(v, level);
    BelowKid(m, level, t, v);
    KidIs(m', level, t, i);
    OtherKidsKept(m, m', level, t, i, LeafTable(TableAt(m, level, t), level, v));
    OneKidChanged(m, m', level, t, i);
  }

  /** The next step of the walk to a mapped page. */
  lemma BelowKid(m: Memory, level: int, t: FrameNo, v: Page)
    requires 2 <= level <= 4 && Separated(TableAt(m, level, t)) && Lookup(TableAt(m, level, t), level, v).Some?
    ensures var r, e := TableAt(m, level, t), m[t][Index(v, level)]; var s := TableAt(m, level - 1, e.frame);
      && r.kids[Index(v, level)] == Sub(e, s) && Separated(s) && Frames(s) <= Frames(r)
      && Lookup(s, level - 1, v) == Lookup(r, level, v) && LeafTable(s, level - 1, v) == LeafTable(r, level, v)
      && LeafTable(r, level, v) in Frames(s) && t in Frames(r) && t !in Frames(s)
  {
    var r, i := TableAt(m, level, t), Index(v, level);
    KidIs(m, level, t, i);
    assert KidSeparated(r.kids[i]) && t !in KidFrames(r.kids[i]);
    assert KidFrames(r.kids[i]) <= Frames(r);
    LeafTableIn(r.kids[i].table, level - 1, v);
  }

  /** And the entry read there is the one the walk finds. */
  lemma {:induction false} ReadLeaf(m: Memory, level: int, t: FrameNo, v: Page)
    requires 1 <= level <= 4
    requires Separated(TableAt(m, level, t)) && Lookup(TableAt(m, level, t), level, v).Some?
    ensures m[LeafTable(TableAt(m, level, t), level, v)][v.i1] == Lookup(TableAt(m, level, t), level, v).value
    decreases level
  {
    if level > 1 {
      BelowKid(m, level, t, v);
      ReadLeaf(m, level - 1, m[t][Index(v, level)].frame, v);
    } else {
      KidIs(m, level, t, Index(v, level));
    }
  }

  ghost predicate SamePath(v: Page, u: Page, level: int) {
    forall l :: 1 <= l <= level ==> Index(v, l) == Index(u, l)
  }

  lemma {:induction false} SetLeafLookup(t: Table, level: int, v: Page, u: Page, w: Word)
    requires 1 <= level <= 4 && Shaped(t, level)
    requires Lookup(t, level, v).Some?
    ensures Lookup(SetLeaf(t, level, v, Leaf(w)), level, u) == if SamePath(v, u, level) then Some(w)
                                                               else Lookup(t, level, u)
    ensures SetLeaf(t, level, v, Leaf(w)).frame == t.frame
    decreases t
  {
    var i := Index(v, level);
    assert ShapedKid(t.kids[i], level);
    if level > 1 && Index(u, level) == i {
      SetLeafLookup(t.kids[i].table, level - 1, v, u, w);
    }
  }

  lemma {:induction false} SetLeafFrames(t: Table, level: int, v: Page, w: Word)
    ensures Frames(SetLeaf(t, level, v, Leaf(w))) == Frames(t)
    ensures Separated(t) ==> Separated(SetLeaf(t, level, v, Leaf(w)))
    decreases t
  {
    var i := Index(v, level);
    if i < |t.kids| {
      var t' := SetLeaf(t, level, v, Leaf(w));
      if t.kids[i].Sub? {
        SetLeafFrames(t.kids[i].table, level - 1, v, w);
      }
      assert t'.kids[i] == SetLeafKid(t.kids[i], level, v, Leaf(w));
      assert KidFrames(t'.kids[i]) == KidFrames(t.kids[i]);
      assert forall j :: 0 <= j < |t.kids| ==> KidFrames(t'.kids[j]) == KidFrames(t.kids[j]);
      if Separated(t) {
        assert KidSeparated(t.kids[i]);
        forall j | 0 <= j < |t.kids| ensures KidSeparated(t'.kids[j]) && t'.frame !in KidFrames(t'.kids[j]) {
          assert KidSeparated(t.kids[j]);
        }
      }
    }
  }

  /** Replacing a leaf takes one from the old frame's count and gives one to the new frame's. */
  lemma {:induction false} SetLeafCount(t: Table, level: int, v: Page, w: Word, f: FrameNo)
    requires Lookup(t, level, v).Some?
    ensures Count(SetLeaf(t, level, v, Leaf(w)), f) + (if Lookup(t, level, v).value.frame == f then 1 else 0)
         == Count(t, f) + (if w.frame == f then 1 else 0)
    decreases t
  {
    var i := Index(v, level);
    var k := SetLeafKid(t.kids[i], level, v, Leaf(w));
    CountUpdate(t.kids, i, k, f);
    if t.kids[i].Sub? {
      SetLeafCount(t.kids[i].table, level - 1, v, w, f);
    }
  }

  // ---------------------------------------------------------------- what the MMU asks for

  /** Every table on the way to page v is there, and its entry permits user writes. */
  ghost predicate PathAbove(t: Table, level: int, v: Page) {
    var i := Index(v, level);
    level <= 1 || (i < |t.kids| && t.kids[i].Sub?
                   && t.kids[i].e.writable && t.kids[i].e.user && PathAbove(t.kids[i].table, level - 1, v))
  }

  lemma {:induction false} SetLeafPath(t: Table, level: int, v: Page, w: Word)
    ensures PathAbove(SetLeaf(t, level, v, Leaf(w)), level, v) == PathAbove(t, level, v)
    decreases t
  {
    var i := Index(v, level);
    if i < |t.kids| && t.kids[i].Sub? {
      SetLeafPath(t.kids[i].table, level - 1, v, w);
    }
  }

  lemma {:induction false} WeakenedPath(t: Table, t': Table, level: int, v: Page)
    requires Weakened(t, t')
    ensures PathAbove(t', level, v) == PathAbove(t, level, v)
    decreases t
  {
    var i := Index(v, level);
    if i < |t.kids| {
      assert WeakenedKid(t.kids[i], t'.kids[i]);
      if t.kids[i].Sub? {
        WeakenedPath(t.kids[i].table, t'.kids[i].table, level - 1, v);
      }
    }
  }

  /** The tables fork builds for the child permit stores to every page they lead to. */
  lemma {:induction false} TwinPath(t: Table, c: Table, level: int, v: Page)
    requires 1 <= level <= 4 && Shaped(t, level) && Twin(t, c) && Lookup(t, level, v).Some?
    ensures PathAbove(c, level, v)
    decreases t
  {
    var i := Index(v, level);
    assert TwinKid(t.kids[i], c.kids[i]) && ShapedKid(t.kids[i], level);
    if level > 1 {
      TwinPath(t.kids[i].table, c.kids[i].table, level - 1, v);
    }
  }

  // ---------------------------------------------------------------- the processor's walk

  /** The four entries the processor reads for page v, one table after the other; it goes on only
      through an entry that is present and, at the two middle levels, maps no huge page. */
  ghost function HardwareWalk(m: Memory, root: FrameNo, v: Page): Option<Word> {
    var e4 := m[root][v.i4];
    var e3 := m[e4.frame][v.i3];
    var e2 := m[e3.frame][v.i2];
    var e1 := m[e2.frame][v.i1];
    if e4.present && e3.present && !e3.huge && e2.present && !e2.huge && e1.present then Some(e1) else None
  }

  /** Tables present, and user stores allowed, all the way down to the level-1 table. */
  ghost predicate HardwareOpen(m: Memory, root: FrameNo, v: Page) {
    var e4 := m[root][v.i4];
    var e3 := m[e4.frame][v.i3];
    var e2 := m[e3.frame][v.i2];
    && e4.present && e4.writable && e4.user
    && e3.present && !e3.huge && e3.writable && e3.user
    && e2.present && !e2.huge && e2.writable && e2.user
  }

  lemma StepDown(m: Memory, level: int, t: FrameNo, v: Page)
    requires 1 <= level <= 4
    ensures var e := m[t][Index(v, level)];
      && (Followed(level, e) && level > 1 ==>
            Lookup(TableAt(m, level, t), level, v) == Lookup(TableAt(m, level - 1, e.frame), level - 1, v))
      && (Followed(level, e) && level == 1 ==> Lookup(TableAt(m, level, t), level, v) == Some(e))
      && (!Followed(level, e) ==> Lookup(TableAt(m, level, t), level, v) == None)
      && (level > 1 ==> (PathAbove(TableAt(m, level, t), level, v) <==>
            Followed(level, e) && e.writable && e.user && PathAbove(TableAt(m, level - 1, e.frame), level - 1, v)))
  {
    hide Followed;
    var e := m[t][Index(v, level)];
    assert TableAt(m, level, t).kids[Index(v, level)] == KidAt(m, level, e);
  }

  /** The tree read out of memory maps each page as the processor does. */
  lemma TreeIsHardware(m: Memory, root: FrameNo, v: Page)
    ensures Lookup(TableAt(m, 4, root), 4, v) == HardwareWalk(m, root, v)
    ensures PathAbove(TableAt(m, 4, root), 4, v) <==> HardwareOpen(m, root, v)
  {
    var e4 := m[root][v.i4];
    var e3 := m[e4.frame][v.i3];
    var e2 := m[e3.frame][v.i2];
    StepDown(m, 4, root, v);
    StepDown(m, 3, e4.frame, v);
    StepDown(m, 2, e3.frame, v);
    StepDown(m, 1, e2.frame, v);
  }
}
