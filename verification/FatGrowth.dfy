/**
 * How close grows a file: which tables can be seen while it links new clusters,
 * when the chain it writes to is the chain on disk, when the clusters it picks
 * lie in the table at all, and that no other file notices.
 */
module FatGrowth {
  import opened FatDisk
  import opened FatChains
  import opened FatVolume

  // ---------- linking new clusters ----------

  // close's last_cluster after linking the clusters x behind first.
  function Tail(first: nat, x: seq<nat>): nat {
    if x == [] then first else x[|x| - 1]
  }

  // allocate_cluster, then extend_chain unless there is no chain yet.
  function Link(next: Table, last: nat, c: nat): (next': Table)
    requires Cluster(next, c) && last < |next|
    ensures |next'| == |next|
  {
    if 2 <= last then Extended(Allocated(next, c), last, c) else Allocated(next, c)
  }

  // New clusters, each free when it was taken.
  ghost predicate Picks(next: Table, first: nat, x: seq<nat>)
    requires first < |next|
    decreases |x|, 0
  {
    x == [] ||
    var y := x[..|x| - 1];
    Picks(next, first, y) && Cluster(next, x[|x| - 1])
    && Linked(next, first, y)[x[|x| - 1]] == 0
  }

  ghost function Linked(next: Table, first: nat, x: seq<nat>): (next': Table)
    requires first < |next| && Picks(next, first, x)
    ensures |next'| == |next|
    decreases |x|, 1
  {
    if x == [] then next
    else
      PicksTail(next, first, x[..|x| - 1]);
      Link(Linked(next, first, x[..|x| - 1]), Tail(first, x[..|x| - 1]), x[|x| - 1])
  }

  lemma PicksTail(next: Table, first: nat, x: seq<nat>)
    requires first < |next| && Picks(next, first, x)
    ensures Tail(first, x) < |next|
    decreases |x|, 1
  {
  }

  lemma LinkedMore(next: Table, first: nat, x: seq<nat>, c: nat)
    requires first < |next| && Picks(next, first, x)
    requires Cluster(next, c) && Linked(next, first, x)[c] == 0
    ensures Tail(first, x) < |next| && Picks(next, first, x + [c])
    ensures Linked(next, first, x + [c]) == Link(Linked(next, first, x), Tail(first, x), c)
  {
    assert (x + [c])[..|x|] == x;
  }

  // A chain whose last cluster is first grows by exactly the clusters picked.
  lemma {:induction false} LinkedChain(next: Table, a: seq<nat>, x: seq<nat>)
    requires IsChain(next, a) && a[|a| - 1] < |next| && Picks(next, a[|a| - 1], x)
    ensures IsChain(Linked(next, a[|a| - 1], x), a + x)
    decreases |x|
  {
    var first := a[|a| - 1];
    if x == [] {
      assert a + x == a;
    } else {
      var y, c := x[..|x| - 1], x[|x| - 1];
      LinkedChain(next, a, y);
      var tbl := Linked(next, first, y);
      LinkChain(tbl, a + y, c);
      assert (a + y)[|a + y| - 1] == Tail(first, y);
      assert a + x == (a + y) + [c];
    }
  }

  lemma LinkChain(next: Table, g: seq<nat>, c: nat)
    requires IsChain(next, g) && Cluster(next, c) && next[c] == 0
    ensures IsChain(Allocated(next, c), g)
    ensures IsChain(Link(next, g[|g| - 1], c), g + [c])
  {
    if c in g {
      ChainNotFree(next, g, c);
    }
    assert Cluster(next, g[|g| - 1]);
    ChainKept(next, Allocated(next, c), g);
    GrowIsChain(Allocated(next, c), g, c);
  }

  // Whatever was first linked to, the chain from first is first and the clusters picked.
  lemma {:induction false} LinkedFromFirst(next: Table, first: nat, x: seq<nat>)
    requires Cluster(next, first) && next[first] != 0 && Picks(next, first, x) && x != []
    ensures IsChain(Linked(next, first, x), [first] + x)
    decreases |x|
  {
    var y, c := x[..|x| - 1], x[|x| - 1];
    var tbl := Linked(next, first, y);
    if y == [] {
      assert [first] + x == [first, c];
    } else {
      LinkedFromFirst(next, first, y);
      LinkChain(tbl, [first] + y, c);
      assert ([first] + y)[|[first] + y| - 1] == Tail(first, y);
      assert [first] + x == ([first] + y) + [c];
    }
  }

  // close links behind the first cluster: what it then takes for the file's chain
  // is the chain on disk exactly when it did not grow or the chain had one cluster.
  lemma GrownIff(next: Table, a: seq<nat>, x: seq<nat>)
    requires IsChain(next, a) && a[0] < |next| && Picks(next, a[0], x)
    ensures IsChain(Linked(next, a[0], x), a + x) <==> (x == [] || |a| == 1)
    ensures x != [] ==> IsChain(Linked(next, a[0], x), [a[0]] + x)
  {
    assert Cluster(next, a[0]) && a[0] in a;
    ChainNotFree(next, a, a[0]);
    if x == [] {
      assert a + x == a;
    } else {
      LinkedFromFirst(next, a[0], x);
      if |a| == 1 {
        assert a + x == [a[0]] + x;
      } else if IsChain(Linked(next, a[0], x), a + x) {
        ChainUnique(Linked(next, a[0], x), a + x, [a[0]] + x);
        assert false;
      }
    }
  }

  // A file in clusters 2 and 3, grown by cluster 4: cluster 3 is cut off, and the file ends after 2 and 4.
  lemma TwoClustersCutOff()
    ensures var next := seq(0xFFF8, _ => 0)[2 := 3][3 := 0xFFF8];
      && IsChain(next, [2, 3]) && Picks(next, 2, [4])
      && IsChain(Linked(next, 2, [4]), [2, 4]) && !IsChain(Linked(next, 2, [4]), [2, 3, 4])
  {
    var next: Table := seq(0xFFF8, _ => 0)[2 := 3][3 := 0xFFF8];
    assert IsChain(next, [2, 3]);
    assert [4][..0] == [];
    assert Picks(next, 2, [4]);
    GrownIff(next, [2, 3], [4]);
    assert [2, 3] + [4] == [2, 3, 4] && [2] + [4] == [2, 4];
  }

  // Entries in use stay in use.
  lemma {:induction false} LinkedInUse(next: Table, first: nat, x: seq<nat>, c: nat)
    requires first < |next| && Picks(next, first, x) && c < |next| && next[c] != 0
    ensures Linked(next, first, x)[c] != 0 && c !in x
    decreases |x|
  {
    if x != [] {
      var y, z := x[..|x| - 1], x[|x| - 1];
      LinkedInUse(next, first, y, c);
      PicksTail(next, first, y);
      LinkInUse(Linked(next, first, y), Tail(first, y), z, c);
      assert x == y + [z];
    }
  }

  lemma LinkInUse(next: Table, last: nat, z: nat, c: nat)
    requires Cluster(next, z) && last < |next| && c < |next| && next[c] != 0
    ensures Link(next, last, z)[c] != 0
  {
  }

  // ---------- tables seen while close grows the chain ----------

  ghost predicate Seen(next: Table, first: nat, t: Table)
    requires first < |next|
  {
    exists x :: Picks(next, first, x) && SeenAfter(next, first, x, t)
  }

  ghost predicate SeenAfter(next: Table, first: nat, x: seq<nat>, t: Table)
    requires first < |next| && Picks(next, first, x)
  {
    || t == Linked(next, first, x)
    || exists c: nat :: Cluster(next, c) && Linked(next, first, x)[c] == 0 && t == Allocated(Linked(next, first, x), c)
  }

  // In every such table the file's chain is the old one, possibly longer.
  lemma SeenChain(next: Table, a: seq<nat>, t: Table) returns (g: seq<nat>)
    requires IsChain(next, a) && a[|a| - 1] < |next| && Seen(next, a[|a| - 1], t)
    ensures a <= g && IsChain(t, g)
  {
    var first := a[|a| - 1];
    var x :| Picks(next, first, x) && SeenAfter(next, first, x, t);
    g := a + x;
    LinkedChain(next, a, x);
    if t != Linked(next, first, x) {
      var c: nat :| Cluster(next, c) && Linked(next, first, x)[c] == 0 && t == Allocated(Linked(next, first, x), c);
      LinkChain(Linked(next, first, x), g, c);
    }
  }

  // Every disk in log differs from d in the table only, and there as close links clusters.
  ghost predicate GrowthSeen(d: Disk, b: Bpb, first: nat, log: seq<Disk>)
    requires Mounted(d, b) && first < b.Eoc()
  {
    forall t :: t in log ==> TableOnly(d, t, b) && Seen(Fat(d, b), first, Fat(t, b))
  }

  // Disk e is reached from d by linking the clusters x.
  ghost predicate GrownTo(d: Disk, b: Bpb, first: nat, x: seq<nat>, e: Disk)
    requires Mounted(d, b) && first < b.Eoc()
  {
    && TableOnly(d, e, b)
    && Picks(Fat(d, b), first, x)
    && Fat(e, b) == Linked(Fat(d, b), first, x)
  }

  lemma NotGrown(d: Disk, b: Bpb, first: nat)
    requires Mounted(d, b) && first < b.Eoc()
    ensures GrownTo(d, b, first, [], d) && GrowthSeen(d, b, first, [])
  {
    TableOnlySelf(d, b);
  }

  // Clusters picked had a free entry, so they lie in the table.
  lemma PickedInTable(d: Disk, b: Bpb, first: nat, x: seq<nat>, e: Disk, i: nat)
    requires Mounted(d, b) && first < b.Eoc() && GrownTo(d, b, first, x, e) && i < |x|
    ensures 2 <= x[i] < b.Entries() && Fat(d, b)[x[i]] == 0
  {
    hide Entry;
    PickedFree(Fat(d, b), first, x, i);
  }

  lemma {:induction false} PickedFree(next: Table, first: nat, x: seq<nat>, i: nat)
    requires first < |next| && Picks(next, first, x) && i < |x|
    ensures Cluster(next, x[i]) && next[x[i]] == 0
    decreases |x|
  {
    if i < |x| - 1 {
      PickedFree(next, first, x[..|x| - 1], i);
    } else if next[x[i]] != 0 {
      LinkedInUse(next, first, x[..|x| - 1], x[i]);
    }
  }

  lemma GrownTail(d: Disk, b: Bpb, first: nat, x: seq<nat>, e: Disk)
    requires Mounted(d, b) && first < b.Entries() && GrownTo(d, b, first, x, e)
    ensures Tail(first, x) < b.Entries() && Mounted(e, b)
  {
    hide Fat;
    if x != [] {
      PickedInTable(d, b, first, x, e, |x| - 1);
    }
  }

  lemma SeenAllocated(d: Disk, b: Bpb, first: nat, x: seq<nat>, e: Disk, c: nat, log: seq<Disk>)
    requires Mounted(d, b) && Mounted(e, b) && first < b.Eoc() && GrownTo(d, b, first, x, e)
    requires 2 <= c < b.Entries() && Puts(e, b, c, b.Eoc(), log) && (log != [] ==> Fat(e, b)[c] == 0)
    ensures GrowthSeen(d, b, first, log)
  {
    hide Fat;
    var next := Fat(d, b);
    forall t | t in log
      ensures TableOnly(d, t, b) && Seen(next, first, Fat(t, b))
    {
      TableOnlyTrans(d, e, t, b);
      assert Cluster(next, c) && Fat(t, b) == Allocated(Linked(next, first, x), c);
      assert SeenAfter(next, first, x, Fat(t, b));
    }
  }

  lemma SeenLinked(d: Disk, b: Bpb, first: nat, x: seq<nat>, t: Disk)
    requires Mounted(d, b) && first < b.Eoc() && GrownTo(d, b, first, x, t)
    ensures TableOnly(d, t, b) && Seen(Fat(d, b), first, Fat(t, b))
  {
    hide Fat;
    assert SeenAfter(Fat(d, b), first, x, Fat(t, b));
  }

  // The cluster to link behind is in use.
  lemma TailInUse(next: Table, first: nat, x: seq<nat>)
    requires first < |next| && Picks(next, first, x) && (2 <= first ==> next[first] != 0)
    ensures Tail(first, x) < |next| && (2 <= Tail(first, x) ==> Linked(next, first, x)[Tail(first, x)] != 0)
  {
  }

  // The first cluster has an entry in the table, and the entry is in use; or there is no first cluster.
  ghost predicate Anchored(d: Disk, b: Bpb, first: nat) {
    first < b.Entries() && (2 <= first ==> Fat(d, b)[first] != 0)
  }

  // One more cluster: allocated on e1, linked on every disk t seen afterwards.
  lemma GrownMore(d: Disk, b: Bpb, first: nat, x: seq<nat>, e: Disk, c: nat, e1: Disk, t: Disk)
    requires Mounted(d, b) && Mounted(e, b) && Mounted(e1, b) && first < b.Eoc() && GrownTo(d, b, first, x, e)
    requires 2 <= c < b.Entries() && Fat(e, b)[c] == 0
    requires TableOnly(e, e1, b) && Fat(e1, b) == Fat(e, b)[c := b.Eoc()]
    requires Tail(first, x) < b.Entries() && Anchored(d, b, first)
    requires if 2 <= Tail(first, x) then Extending(e1, b, Tail(first, x), c, t)
             else TableOnly(e1, t, b) && Fat(t, b) == Fat(e1, b)[c := b.Eoc()]
    ensures GrownTo(d, b, first, x + [c], t)
  {
    hide Fat;
    TableOnlyTrans(d, e, e1, b);
    TableOnlyTrans(d, e1, t, b);
    LinkedMore(Fat(d, b), first, x, c);
    TailInUse(Fat(d, b), first, x);
    assert 2 <= Tail(first, x) ==> Fat(e1, b)[Tail(first, x) := c] == Fat(e1, b)[Tail(first, x) := c][c := b.Eoc()];
  }

  lemma SeenAppend(d: Disk, b: Bpb, first: nat, log: seq<Disk>, more: seq<Disk>) returns (all: seq<Disk>)
    requires Mounted(d, b) && first < b.Eoc() && GrowthSeen(d, b, first, log) && GrowthSeen(d, b, first, more)
    ensures all == log + more && GrowthSeen(d, b, first, all)
  {
    hide Fat, Mounted, Seen;
    all := log + more;
  }

  // The disk after a table write that reached copy 0.
  lemma PutsLast(e: Disk, b: Bpb, c: nat, value: nat, log: seq<Disk>)
    requires Mounted(e, b) && c < b.Entries() && Puts(e, b, c, value, log) && log != []
    ensures TableOnly(e, Last(e, log), b) && Fat(Last(e, log), b) == Fat(e, b)[c := value]
  {
    hide Fat, Mounted;
    assert Last(e, log) in log;
  }

  // After the allocation: every disk of `more` shows the cluster linked.
  ghost predicate LinkWrites(e1: Disk, b: Bpb, last: nat, c: nat, more: seq<Disk>)
    requires Mounted(e1, b) && last < b.Entries() && c < b.Entries()
  {
    if 2 <= last then forall t :: t in more ==> Extending(e1, b, last, c, t) else Puts(e1, b, c, b.Eoc(), more)
  }

  lemma LinkSeen(d: Disk, b: Bpb, first: nat, x: seq<nat>, e: Disk, c: nat, e1: Disk, log: seq<Disk>, more: seq<Disk>)
    returns (all: seq<Disk>)
    requires Mounted(d, b) && Mounted(e, b) && Mounted(e1, b) && first < b.Eoc() && GrownTo(d, b, first, x, e)
    requires 2 <= c < b.Entries() && Fat(e, b)[c] == 0
    requires TableOnly(e, e1, b) && Fat(e1, b) == Fat(e, b)[c := b.Eoc()]
    requires Anchored(d, b, first)
    requires Tail(first, x) < b.Entries() && LinkWrites(e1, b, Tail(first, x), c, more) && GrowthSeen(d, b, first, log)
    ensures all == log + more && GrowthSeen(d, b, first, all)
    ensures more != [] || Tail(first, x) < 2 ==> GrownTo(d, b, first, x + [c], Last(e1, more))
  {
    hide Fat, Seen, GrownTo, Extending;
    forall t | t in more
      ensures GrownTo(d, b, first, x + [c], t) && TableOnly(d, t, b) && Seen(Fat(d, b), first, Fat(t, b))
    {
      GrownMore(d, b, first, x, e, c, e1, t);
      SeenLinked(d, b, first, x + [c], t);
    }
    all := SeenAppend(d, b, first, log, more);
    if more == [] && Tail(first, x) < 2 {
      TableOnlySelf(e1, b);
      assert Fat(e1, b)[c := b.Eoc()] == Fat(e1, b);
      GrownMore(d, b, first, x, e, c, e1, e1);
    }
  }

  // ---------- room in the table ----------

  function Hint(last: nat): nat {
    if 2 <= last then last + 1 else 2
  }

  // Free entries the scan meets behind last before it leaves the table.
  ghost function FreeFrom(next: Table, b: Bpb, last: nat): nat
    requires |next| == b.Eoc()
  {
    if Hint(last) <= b.Usable() then FreeIn(next, Hint(last), b.Usable()) else 0
  }

  ghost predicate Roomy(d: Disk, b: Bpb, last: nat, k: int) {
    k <= FreeFrom(Fat(d, b), b, last)
  }

  // Room for one more: the scan finds a cluster of the table.
  lemma RoomyFinds(d: Disk, b: Bpb, last: nat, k: int)
    requires Roomy(d, b, last, k) && 0 < k
    ensures FreeBehind(d, b, Hint(last))
  {
    hide Fat;
    if !FreeBehind(d, b, Hint(last)) {
      FreeNone(Fat(d, b), Hint(last), b.Usable());
    }
  }

  // The room left once the first free cluster behind last was taken.
  lemma RoomyNext(next: Table, b: Bpb, last: nat, c: nat)
    requires |next| == b.Eoc() && Hint(last) <= c < b.Usable() && next[c] == 0
    requires forall x :: Hint(last) <= x < c ==> next[x] != 0
    ensures FreeFrom(next, b, c) == FreeFrom(next, b, last) - 1
  {
    FreeSplit(next, Hint(last), c, b.Usable());
    FreeSplit(next, c, c + 1, b.Usable());
    FreeNone(next, Hint(last), c);
    assert FreeIn(next, c, c) == 0;
  }

  lemma RoomyKept(next: Table, next': Table, b: Bpb, c: nat)
    requires |next| == |next'| == b.Eoc() && 2 <= c && forall x :: c < x < |next| ==> next'[x] == next[x]
    ensures FreeFrom(next', b, c) == FreeFrom(next, b, c)
  {
    if Hint(c) <= b.Usable() {
      FreeSame(next, next', Hint(c), b.Usable());
    }
  }

  // One growth step in a roomy table: the pick lies in the table, behind last, and leaves room for the rest.
  lemma RoomyStep(d: Disk, b: Bpb, first: nat, x: seq<nat>, e: Disk, c: nat, e': Disk, k: int)
    requires Mounted(d, b) && first < b.Entries() && GrownTo(d, b, first, x, e)
    requires Roomy(e, b, Tail(first, x), k) && 0 < k && FirstFree(e, b, Hint(Tail(first, x)), c)
    ensures 2 <= c < b.Entries() && Fat(e, b)[c] == 0
    ensures GrownTo(d, b, first, x + [c], e') ==> Roomy(e', b, c, k - 1)
  {
    hide Fat, FirstFree;
    var last := Tail(first, x);
    RoomyFinds(e, b, last, k);
    ScanStays(e, b, Hint(last), c);
    GrownTail(d, b, first, x, e);
    RoomyNext(Fat(e, b), b, last, c);
    if GrownTo(d, b, first, x + [c], e') {
      assert (x + [c])[..|x|] == x;
      RoomyKept(Fat(e, b), Fat(e', b), b, c);
    }
  }

  // ---------- other files ----------

  // Entries in use, other than the first cluster's, keep their value.
  lemma {:induction false} LinkedOther(next: Table, first: nat, x: seq<nat>, c: nat)
    requires first < |next| && Picks(next, first, x) && c < |next| && next[c] != 0 && c != first
    ensures Linked(next, first, x)[c] == next[c]
    decreases |x|
  {
    if x != [] {
      var y := x[..|x| - 1];
      LinkedOther(next, first, y, c);
      LinkedInUse(next, first, x, c);
      PicksTail(next, first, y);
      assert x[|x| - 1] in x && (y != [] ==> y[|y| - 1] == x[|y| - 1] && x[|y| - 1] in x);
    }
  }

  lemma SeenOther(next: Table, first: nat, t: Table, c: nat)
    requires first < |next| && Seen(next, first, t) && c < |next| && next[c] != 0 && c != first
    ensures |t| == |next| && t[c] == next[c]
  {
    var x :| Picks(next, first, x) && SeenAfter(next, first, x, t);
    LinkedOther(next, first, x, c);
  }

  // A chain that does not hold the first cluster stays as it is in every table seen.
  lemma SeenKeepsChain(next: Table, first: nat, t: Table, f: seq<nat>)
    requires first < |next| && Seen(next, first, t) && IsChain(next, f) && first !in f
    ensures |t| == |next| && IsChain(t, f)
  {
    hide Seen;
    assert Cluster(next, f[0]) && f[0] in f;
    forall c | c in f
      ensures c < |next| && |t| == |next| && t[c] == next[c]
    {
      ChainNotFree(next, f, c);
      SeenOther(next, first, t, c);
    }
    ChainNotFree(next, f, f[0]);
    SeenOther(next, first, t, f[0]);
    ChainKept(next, t, f);
  }

  // ---------- growth that tears ----------

  // extend_chain failed: the cluster taken last was linked in copy 0 or not.
  ghost predicate TornAt(d: Disk, b: Bpb, first: nat, x: seq<nat>, linked: bool, e: Disk)
    requires Mounted(d, b) && first < b.Eoc()
  {
    && TableOnly(d, e, b) && Picks(Fat(d, b), first, x)
    && exists c: nat ::
         && Cluster(Fat(d, b), c) && Linked(Fat(d, b), first, x)[c] == 0
         && TornTable(d, b, first, x, c, linked, Fat(e, b))
  }

  ghost predicate TornTable(d: Disk, b: Bpb, first: nat, x: seq<nat>, c: nat, linked: bool, t: Table)
    requires Mounted(d, b) && first < b.Eoc() && Picks(Fat(d, b), first, x) && Cluster(Fat(d, b), c)
    requires Linked(Fat(d, b), first, x)[c] == 0
  {
    LinkedMore(Fat(d, b), first, x, c);
    t == if linked then Linked(Fat(d, b), first, x + [c]) else Allocated(Linked(Fat(d, b), first, x), c)
  }

  lemma TornIs(d: Disk, b: Bpb, first: nat, x: seq<nat>, e: Disk, c: nat, e1: Disk, more: seq<Disk>)
    requires Mounted(d, b) && Mounted(e, b) && first < b.Eoc() && GrownTo(d, b, first, x, e)
    requires 2 <= c < b.Entries() && Fat(e, b)[c] == 0
    requires TableOnly(e, e1, b) && Fat(e1, b) == Fat(e, b)[c := b.Eoc()]
    requires more != [] ==> GrownTo(d, b, first, x + [c], Last(e1, more))
    ensures TornAt(d, b, first, x, more != [], Last(e1, more))
  {
    hide Fat;
    TableOnlyTrans(d, e, e1, b);
    LinkedMore(Fat(d, b), first, x, c);
    assert TornTable(d, b, first, x, c, more != [], Fat(Last(e1, more), b));
  }

  // The chain of a one-cluster file after torn growth.
  lemma TornChain(d: Disk, b: Bpb, a: seq<nat>, x: seq<nat>, linked: bool, e: Disk) returns (h: seq<nat>)
    requires Mounted(d, b) && IsChain(Fat(d, b), a) && |a| == 1 && a[0] < b.Eoc() && TornAt(d, b, a[0], x, linked, e)
    ensures IsChain(Fat(e, b), h) && h[0] == a[0] && |h| == |a + x| + if linked then 1 else 0
  {
    hide Fat;
    var next := Fat(d, b);
    var c: nat :| Cluster(next, c) && Linked(next, a[0], x)[c] == 0 && TornTable(d, b, a[0], x, c, linked, Fat(e, b));
    LinkedMore(next, a[0], x, c);
    if linked {
      h := a + (x + [c]);
      LinkedChain(next, a, x + [c]);
    } else {
      h := a + x;
      LinkedChain(next, a, x);
      LinkChain(Linked(next, a[0], x), h, c);
    }
  }
}
