/** A fork, successful or not, keeps the invariant, and the child reads exactly what the parent reads. */
module ForkStep {
  import opened Wrappers
  import opened PageTables
  import opened ForkCopy
  import opened Spaces
  import Pmm

  /** A frame just allocated: nobody refers to it yet. */
  ghost predicate FreshFrame(s: State, f: FrameNo) {
    && f != 0 && s.pm.Has(f) && s.pm.rc[f] == 1
    && (forall a: nat :: f !in TableFrames(s, a))
    && Total(s, f) == 0
  }

  /** A PML4 fresh from `create_user_pml4`: its user half is empty. */
  ghost predicate FreshPml4(s: State, child: FrameNo) {
    && FreshFrame(s, child)
    && forall i :: 0 <= i < 256 ==> !s.mem[child][i].present
  }

  /** No count saturates while a fork shares the pages of a countable space. */
  lemma ForkCanCopy(s: State, a: nat, child: FrameNo)
    requires Inv(s) && s.Live(a) && Countable(s, a) && FreshPml4(s, child)
    ensures CanCopy(s.mem, s.pm, 4, s.spaces[a].value, child)
  {
    var t := Tree(s, a);
    forall f: FrameNo | Count(t, f) > 0
      ensures s.pm.Has(f) && 0 < s.pm.rc[f] && s.pm.rc[f] + Count(t, f) <= 255
    {
      assert Count(t, f) == Refs(s, a, f) <= 1;
      CountedRight(s, a, f);
    }
    assert Sound(s, a);
    assert Frames(t) == TableFrames(s, a);
  }

  /** Slot b maps what slot a maps, and all other slots map what they did. */
  ghost predicate SharedInto(s: State, s': State, a: nat, b: nat) {
    && |s'.spaces| == |s.spaces| && b < |s.spaces| && !s.Live(b)
    && forall c: nat, f: FrameNo :: Refs(s', c, f) == Refs(s, if c == b then a else c, f)
  }

  /** And only of such a space: whatever the counts are afterwards, they cannot be right
      for a child that shares a frame whose count was at its ceiling. */
  lemma CountedOnlyIf(s: State, s': State, a: nat, b: nat)
    requires CountsOk(s) && SharedInto(s, s', a, b) && CountsOk(s')
    ensures Countable(s, a)
  {
    hide CountsOk;
    forall f: FrameNo | Refs(s, a, f) > 0 && s.pm.Has(f)
      ensures s.pm.rc[f] < 255
    {
      CountedRight(s, a, f);
      assert Refs(s', b, f) == Refs(s, a, f) && Refs(s, b, f) == 0;
      TotalChange(s, s', b, f);
      CountedRight(s', b, f);
    }
  }

  /** The situation after a successful `copy_user_pages`. */
  ghost predicate ForkOk(s: State, s': State, a: nat, b: nat, child: FrameNo, news: seq<FrameNo>) {
    && s.Live(a) && b < |s.spaces| && !s.Live(b)
    && FreshPml4(s, child)
    && Forked(s.mem, s.pm, s'.mem, s'.pm, s.spaces[a].value, child, news)
    && s'.spaces == s.spaces[b := Some(child)]
  }

  /** The same, as seen space by space. */
  ghost predicate ForkEffect(s: State, s': State, a: nat, b: nat, child: FrameNo, news: seq<FrameNo>) {
    && |s'.spaces| == |s.spaces| && b < |s.spaces| && a != b
    && !s.Live(b)
    && (forall c: nat :: c != b ==> TableFrames(s', c) == TableFrames(s, c))
    && TableFrames(s', b) == {child} + Elems(news)
    && (forall c: nat :: Sound(s', c))
    && (forall c: nat, f: FrameNo :: Refs(s', c, f) == Refs(s, if c == b then a else c, f))
    && (forall c: nat, v :: PageAt(s', c, v).Some? == PageAt(s, if c == b then a else c, v).Some?)
    && (forall c: nat, v :: PageAt(s', c, v).Some? ==>
          var w, w' := PageAt(s, if c == b then a else c, v).value, PageAt(s', c, v).value;
          w'.frame == w.frame && (w'.writable ==> w.writable && c != a && c != b))
    && ForkFrames(s, s', a, child, news)
  }

  /** And frame by frame. */
  ghost predicate ForkFrames(s: State, s': State, a: nat, child: FrameNo, news: seq<FrameNo>) {
    && (forall f: FrameNo {:trigger s.pm.Has(f)} :: s.pm.Has(f) ==>
          s'.pm.Has(f) && s'.pm.rc[f] == s.pm.rc[f] + Refs(s, a, f))
    && (forall f: FrameNo {:trigger f in news} :: f in news ==>
          !s.pm.Has(f) && f != 0 && s'.pm.Has(f) && s'.pm.rc[f] == 1)
    && (forall f: FrameNo {:trigger s'.mem[f]} :: s.pm.Has(f) && f !in TableFrames(s, a) && f != child ==>
          s'.mem[f] == s.mem[f])
  }

  lemma ForkHasFrames(s: State, s': State, a: nat, b: nat, child: FrameNo, news: seq<FrameNo>)
    requires ForkOk(s, s', a, b, child, news)
    ensures ForkFrames(s, s', a, child, news)
    ensures TableFrames(s', b) == {child} + Elems(news)
  {
    hide FreshPml4, Weakened, ReadOnly, Twin;
  }

  lemma OtherTree(s: State, s': State, a: nat, b: nat, child: FrameNo, news: seq<FrameNo>, c: nat)
    requires TablesOk(s) && ForkOk(s, s', a, b, child, news)
    requires s.Live(c) && c != a
    ensures s'.Live(c) && Tree(s', c) == Tree(s, c)
  {
    assert TableFrames(s, c) !! TableFrames(s, a);
    assert Frames(Tree(s, c)) == TableFrames(s, c);
    TableFraming(s.mem, s'.mem, 4, s.spaces[c].value);
  }

  lemma ForkEffectAt(s: State, s': State, a: nat, b: nat, child: FrameNo, news: seq<FrameNo>, c: nat)
    requires TablesOk(s) && ForkOk(s, s', a, b, child, news)
    ensures c != b ==> TableFrames(s', c) == TableFrames(s, c)
    ensures Sound(s', c)
    ensures forall f: FrameNo :: Refs(s', c, f) == Refs(s, if c == b then a else c, f)
    ensures forall v :: PageAt(s', c, v).Some? == PageAt(s, if c == b then a else c, v).Some?
    ensures forall v :: PageAt(s', c, v).Some? ==>
              var w, w' := PageAt(s, if c == b then a else c, v).value, PageAt(s', c, v).value;
              w'.frame == w.frame && (w'.writable ==> w.writable && c != a && c != b)
  {
    assert Sound(s, a) && Sound(s, c);
    if c == a || c == b {
      WeakenedKeeps(Tree(s, a), Tree(s', a));
      TwinAgrees(Tree(s', a), Tree(s', b));
      forall v | Lookup(Tree(s, a), 4, v).Some? ensures !Lookup(Tree(s', a), 4, v).value.writable {
        ReadOnlyLookup(Tree(s', a), 4, v);
      }
    } else if s.Live(c) {
      OtherTree(s, s', a, b, child, news, c);
    }
  }

  lemma ForkHasEffect(s: State, s': State, a: nat, b: nat, child: FrameNo, news: seq<FrameNo>)
    requires TablesOk(s) && ForkOk(s, s', a, b, child, news)
    ensures ForkEffect(s, s', a, b, child, news)
  {
    hide FreshPml4, Refs, PageAt, Sound, TablesOk, TableFrames, Forked, ForkFrames;
    forall c: nat ensures Sound(s', c) && (c != b ==> TableFrames(s', c) == TableFrames(s, c)) {
      ForkEffectAt(s, s', a, b, child, news, c);
    }
    forall c: nat, f: FrameNo ensures Refs(s', c, f) == Refs(s, if c == b then a else c, f) {
      ForkEffectAt(s, s', a, b, child, news, c);
    }
    forall c: nat, v
      ensures PageAt(s', c, v).Some? == PageAt(s, if c == b then a else c, v).Some?
      ensures PageAt(s', c, v).Some? ==>
                var w, w' := PageAt(s, if c == b then a else c, v).value, PageAt(s', c, v).value;
                w'.frame == w.frame && (w'.writable ==> w.writable && c != a && c != b)
    {
      ForkEffectAt(s, s', a, b, child, news, c);
    }
    ForkHasFrames(s, s', a, b, child, news);
  }

  lemma ForkTotal(s: State, s': State, a: nat, b: nat, child: FrameNo, news: seq<FrameNo>, f: FrameNo)
    requires ForkEffect(s, s', a, b, child, news)
    ensures Total(s', f) == Total(s, f) + Refs(s, a, f)
    ensures Refs(s, a, f) <= Total(s, f)
  {
    TotalChange(s, s', b, f);
    TotalAtLeast(s, a, f);
    assert Refs(s, b, f) == 0;
  }

  lemma ForkKeepsTables(s: State, s': State, a: nat, b: nat, child: FrameNo, news: seq<FrameNo>)
    requires TablesOk(s) && CountsOk(s) && FreshPml4(s, child)
    requires ForkEffect(s, s', a, b, child, news)
    ensures TablesOk(s')
  {
    hide TableFrames, Refs, PageAt, Sound, Total;
    forall c: nat, f: FrameNo {:trigger f in TableFrames(s', c)} | f in TableFrames(s', c)
      ensures f != 0 && s'.pm.Has(f) && s'.pm.rc[f] == 1
    {
      ForkTotal(s, s', a, b, child, news, f);
    }
  }

  lemma ForkKeepsCounts(s: State, s': State, a: nat, b: nat, child: FrameNo, news: seq<FrameNo>)
    requires CountsOk(s) && FreshPml4(s, child)
    requires ForkEffect(s, s', a, b, child, news)
    ensures CountsOk(s')
  {
    hide TableFrames, Refs, PageAt, Sound, Total;
    forall f: FrameNo
      ensures Total(s', f) > 0 ==> s'.pm.Has(f) && s'.pm.rc[f] == Total(s', f)
      ensures Total(s', f) == Total(s, f) + Refs(s, a, f) <= 2 * Total(s, f)
    {
      ForkTotal(s, s', a, b, child, news, f);
    }
  }

  lemma ForkKeepsWrites(s: State, s': State, a: nat, b: nat, child: FrameNo, news: seq<FrameNo>)
    requires WritesPrivate(s)
    requires ForkEffect(s, s', a, b, child, news)
    ensures WritesPrivate(s')
  {
    hide TableFrames, Refs, PageAt, Sound, Total;
    forall c: nat, v | PageAt(s', c, v).Some? && PageAt(s', c, v).value.writable
      ensures Total(s', PageAt(s', c, v).value.frame) == 1
    {
      var f := PageAt(s', c, v).value.frame;
      PageCounts(s, c, v);
      TotalAtLeastTwo(s, c, a, f);
      ForkTotal(s, s', a, b, child, news, f);
    }
  }

  /** Fork looks like a copy of the parent's memory and changes nobody else's. */
  lemma ForkView(s: State, s': State, a: nat, b: nat, child: FrameNo, news: seq<FrameNo>, c: nat, v: Page)
    requires Inv(s) && ForkOk(s, s', a, b, child, news)
    ensures ReadPage(s', c, v) == ReadPage(s, if c == b then a else c, v)
  {
    hide TableFrames, Refs, PageAt, Sound, Total, TablesOk, CountsOk, WritesPrivate, Forked;
    ForkHasEffect(s, s', a, b, child, news);
    var d := if c == b then a else c;
    if PageAt(s, d, v).Some? {
      MappedFrame(s, d, v);
    }
  }

  lemma ForkKeeps(s: State, s': State, a: nat, b: nat, child: FrameNo, news: seq<FrameNo>)
    requires Inv(s) && ForkOk(s, s', a, b, child, news)
    requires Pmm.Consistent(s'.pm)
    ensures Inv(s')
  {
    hide TablesOk, CountsOk, WritesPrivate, ForkEffect;
    ForkHasEffect(s, s', a, b, child, news);
    ForkKeepsTables(s, s', a, b, child, news);
    ForkKeepsCounts(s, s', a, b, child, news);
    ForkKeepsWrites(s, s', a, b, child, news);
  }
}
