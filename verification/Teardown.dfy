/** What `free_user_address_space` gives back (indo-kernel/src/memory/vmm.rs, lines 488-578). */
module Teardown {
  import opened PageTables
  import Pmm

  /** The table frames below a row of entries. */
  ghost function Below(kids: seq<Kid>): set<FrameNo> {
    set i, f | 0 <= i < |kids| && f in KidFrames(kids[i]) :: f
  }

  /** The allocator once the tables `s` are freed and every leaf of `kids` has dropped its
      reference: a data frame goes free exactly when its last reference went. */
  ghost predicate Released(p: Pmm.Frames, p': Pmm.Frames, s: set<FrameNo>, kids: seq<Kid>) {
    && |p.used| == |p.rc| == |p'.used| == |p'.rc| <= FRAME_LIMIT
    && forall f: FrameNo :: f < |p.used| ==>
         ReleasedFrame(p.used[f], p.rc[f], p'.used[f], p'.rc[f], f in s, CountKids(kids, f))
  }

  ghost predicate ReleasedFrame(used: bool, rc: int, used': bool, rc': int, table: bool, n: nat) {
    && rc' == (if table then 0 else rc - n)
    && used' == (used && !table && !(0 < n == rc))
  }

  /** The tables are allocated once each and hold no data; the leaves are counted. */
  ghost predicate CanFree(p: Pmm.Frames, t: Table) {
    && Pmm.Consistent(p) && |p.used| <= FRAME_LIMIT
    && Separated(t)
    && (forall f :: f in Frames(t) ==> f != 0 && p.Has(f) && p.rc[f] == 1 && Count(t, f) == 0)
    && (forall f: FrameNo :: Count(t, f) > 0 ==> p.Has(f) && p.rc[f] >= Count(t, f))
  }

  lemma FramesBelow(t: Table)
    ensures Frames(t) == {t.frame} + Below(t.kids)
  {
  }

  lemma BelowStep(kids: seq<Kid>, i: nat)
    requires i < |kids|
    ensures Below(kids[..i + 1]) == Below(kids[..i]) + KidFrames(kids[i])
  {
    var a, b := kids[..i + 1], kids[..i];
    assert forall j :: 0 <= j < i ==> a[j] == b[j];
    assert a[i] == kids[i];
    forall f | f in Below(b) ensures f in Below(a) {
      var j :| 0 <= j < |b| && f in KidFrames(b[j]);
      assert a[j] == b[j];
    }
  }

  lemma BelowPrefix(t: Table, i: nat)
    requires i < |t.kids| && Separated(t)
    ensures Below(t.kids[..i]) !! KidFrames(t.kids[i])
    ensures Below(t.kids[..i]) <= Frames(t) && KidFrames(t.kids[i]) <= Frames(t)
  {
    forall f | f in Below(t.kids[..i]) ensures f in Frames(t) && f !in KidFrames(t.kids[i]) {
      var j :| 0 <= j < i && f in KidFrames(t.kids[..i][j]);
      assert t.kids[..i][j] == t.kids[j];
    }
  }

  lemma ReleasedStart(p: Pmm.Frames, t: Table)
    requires CanFree(p, t)
    ensures Released(p, p, Below(t.kids[..0]), t.kids[..0])
  {
  }

  lemma ReleasedHole(p: Pmm.Frames, p': Pmm.Frames, t: Table, i: nat)
    requires i < |t.kids| && t.kids[i].Hole?
    requires Released(p, p', Below(t.kids[..i]), t.kids[..i])
    ensures Released(p, p', Below(t.kids[..i + 1]), t.kids[..i + 1])
  {
    BelowStep(t.kids, i);
    forall f: FrameNo ensures CountKids(t.kids[..i + 1], f) == CountKids(t.kids[..i], f) {
      CountStep(t.kids, i, f);
    }
  }

  lemma LeafHeld(p: Pmm.Frames, p': Pmm.Frames, t: Table, i: nat)
    requires CanFree(p, t) && i < |t.kids| && t.kids[i].Leaf?
    requires Released(p, p', Below(t.kids[..i]), t.kids[..i])
    ensures p'.Has(t.kids[i].e.frame) && p'.rc[t.kids[i].e.frame] > 0
  {
    var f := t.kids[i].e.frame;
    CountPrefix(t.kids, i, f);
    BelowPrefix(t, i);
    assert Count(t, f) > 0;
    assert ReleasedFrame(p.used[f], p.rc[f], p'.used[f], p'.rc[f], f in Below(t.kids[..i]), CountKids(t.kids[..i], f));
  }

  lemma ReleasedLeaf(p: Pmm.Frames, p': Pmm.Frames, t: Table, i: nat)
    requires CanFree(p, t) && i < |t.kids| && t.kids[i].Leaf?
    requires Released(p, p', Below(t.kids[..i]), t.kids[..i])
    requires p'.Has(t.kids[i].e.frame) && p'.rc[t.kids[i].e.frame] > 0
    ensures Released(p, Pmm.DecrefAt(p', t.kids[i].e.frame), Below(t.kids[..i + 1]), t.kids[..i + 1])
  {
    var g := t.kids[i].e.frame;
    BelowStep(t.kids, i);
    CountPrefix(t.kids, i, g);
    BelowPrefix(t, i);
    forall f: FrameNo ensures CountKids(t.kids[..i + 1], f) == CountKids(t.kids[..i], f) + if f == g then 1 else 0 {
      CountStep(t.kids, i, f);
    }
  }

  lemma SubCanFree(p: Pmm.Frames, p': Pmm.Frames, t: Table, i: nat)
    requires CanFree(p, t) && i < |t.kids| && t.kids[i].Sub?
    requires Pmm.Consistent(p') && Released(p, p', Below(t.kids[..i]), t.kids[..i])
    ensures CanFree(p', t.kids[i].table)
  {
    var s := t.kids[i].table;
    BelowPrefix(t, i);
    assert KidSeparated(t.kids[i]);
    forall f | f in Frames(s) ensures f != 0 && p'.Has(f) && p'.rc[f] == 1 && Count(s, f) == 0 {
      CountPrefix(t.kids, i, f);
    }
    forall f: FrameNo | Count(s, f) > 0 ensures p'.Has(f) && p'.rc[f] >= Count(s, f) {
      CountPrefix(t.kids, i, f);
      assert f !in Frames(t);
    }
  }

  /** After the tables below a table are gone, its own frame is still held exactly once. */
  lemma TableHeld(p: Pmm.Frames, p': Pmm.Frames, t: Table)
    requires CanFree(p, t) && Released(p, p', Below(t.kids), t.kids)
    ensures t.frame != 0 && p'.Has(t.frame) && p'.rc[t.frame] == 1
  {
    FramesBelow(t);
    assert t.frame !in Below(t.kids);
  }

  lemma ReleasedSub(p: Pmm.Frames, p': Pmm.Frames, p'': Pmm.Frames, t: Table, i: nat)
    requires CanFree(p, t) && i < |t.kids| && t.kids[i].Sub?
    requires Released(p, p', Below(t.kids[..i]), t.kids[..i])
    requires Released(p', p'', Below(t.kids[i].table.kids), t.kids[i].table.kids)
    requires p''.Has(t.kids[i].table.frame)
    ensures Released(p, Pmm.FreeAt(p'', t.kids[i].table.frame), Below(t.kids[..i + 1]), t.kids[..i + 1])
  {
    hide ReleasedFrame, CanFree;
    var s := t.kids[i].table;
    var q := Pmm.FreeAt(p'', s.frame);
    forall f: FrameNo | f < |p.used|
      ensures ReleasedFrame(p.used[f], p.rc[f], q.used[f], q.rc[f], f in Below(t.kids[..i + 1]),
                            CountKids(t.kids[..i + 1], f))
    {
      SubFrame(p, t, i, f);
      assert ReleasedFrame(p.used[f], p.rc[f], p'.used[f], p'.rc[f], f in Below(t.kids[..i]),
                           CountKids(t.kids[..i], f));
      assert ReleasedFrame(p'.used[f], p'.rc[f], p''.used[f], p''.rc[f], f in Below(s.kids), Count(s, f));
      ReleasedTwice(p.used[f], p.rc[f], p'.used[f], p'.rc[f], p''.used[f], p''.rc[f], f in Below(t.kids[..i]),
                    CountKids(t.kids[..i], f), f in Below(s.kids), Count(s, f), f == s.frame);
    }
  }

  /** Where a frame can be among the first i entries and below entry i. */
  lemma SubFrame(p: Pmm.Frames, t: Table, i: nat, f: FrameNo)
    requires CanFree(p, t) && i < |t.kids| && t.kids[i].Sub?
    ensures var s, before := t.kids[i].table, f in Below(t.kids[..i]); var below := f in Below(s.kids) || f == s.frame;
            var n, n1 := CountKids(t.kids[..i], f), Count(s, f);
      && (f in Below(t.kids[..i + 1]) <==> before || below) && !(before && below)
      && CountKids(t.kids[..i + 1], f) == n + n1
      && (before || below ==> n == 0 && n1 == 0)
      && (0 < n + n1 ==> p.Has(f) && n + n1 <= p.rc[f])
  {
    BelowStep(t.kids, i);
    BelowPrefix(t, i);
    FramesBelow(t.kids[i].table);
    CountStep(t.kids, i, f);
    CountPrefix(t.kids, i, f);
  }

  /** One frame, released in two steps and then, if it is the table's own, freed. */
  lemma ReleasedTwice(used: bool, rc: int, used1: bool, rc1: int, used2: bool, rc2: int, table: bool, n: nat,
                      table1: bool, n1: nat, own: bool)
    requires ReleasedFrame(used, rc, used1, rc1, table, n) && ReleasedFrame(used1, rc1, used2, rc2, table1, n1)
    requires table || table1 || own ==> n == 0 && n1 == 0
    requires 0 < n + n1 ==> used && n + n1 <= rc
    requires !(table && (table1 || own))
    ensures ReleasedFrame(used, rc, used2 && !own, if own then 0 else rc2, table || table1 || own, n + n1)
  {
  }

  lemma ReleasedRoot(p: Pmm.Frames, p': Pmm.Frames, t: Table)
    requires CanFree(p, t) && Released(p, p', Below(t.kids), t.kids)
    requires p'.Has(t.frame)
    ensures Released(p, Pmm.FreeAt(p', t.frame), Frames(t), t.kids)
  {
    FramesBelow(t);
  }
}
