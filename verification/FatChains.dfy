/**
 * Cluster chains in the allocation table.  The table is a sequence from
 * cluster to entry; an entry at or above the sequence's length is an
 * end-of-chain mark, 0 is free.  The lemmas follow a set of disjoint chains
 * through every allocate, extend and free.
 */
module FatChains {
  type Table = seq<nat>

  predicate Cluster(next: Table, c: nat) {
    2 <= c < |next|
  }

  // A walk from its first cluster to an end-of-chain mark.
  predicate IsChain(next: Table, a: seq<nat>) {
    && a != []
    && (forall i :: 0 <= i < |a| ==> Cluster(next, a[i]))
    && (forall i :: 0 <= i < |a| - 1 ==> next[a[i]] == a[i + 1])
    && next[a[|a| - 1]] >= |next|
  }

  predicate Disjoint(a: seq<nat>, b: seq<nat>) {
    forall c :: c in a ==> c !in b
  }

  // What the volume holds: chains that do not share a cluster.
  ghost predicate Chains(next: Table, files: set<seq<nat>>) {
    && (forall a :: a in files ==> IsChain(next, a))
    && (forall a, b :: a in files && b in files && a != b ==> Disjoint(a, b))
  }

  // ---------- shape of chains ----------

  lemma {:induction false} ChainUnique(next: Table, a: seq<nat>, b: seq<nat>)
    requires IsChain(next, a) && IsChain(next, b) && a[0] == b[0]
    ensures a == b
  {
    assert |a| > 1 ==> Cluster(next, a[1]);
    assert |b| > 1 ==> Cluster(next, b[1]);
    if |a| > 1 && |b| > 1 {
      ChainUnique(next, a[1..], b[1..]);
      assert a == [a[0]] + a[1..] && b == [b[0]] + b[1..];
    }
  }

  // Chains that meet have the same rest.
  lemma ChainsMeet(next: Table, a: seq<nat>, i: nat, b: seq<nat>, j: nat)
    requires IsChain(next, a) && IsChain(next, b) && i < |a| && j < |b| && a[i] == b[j]
    ensures a[i..] == b[j..]
  {
    ChainUnique(next, a[i..], b[j..]);
  }

  // A chain that ends never repeats a cluster.
  lemma ChainAcyclic(next: Table, a: seq<nat>, i: nat, j: nat)
    requires IsChain(next, a) && i < j < |a|
    ensures a[i] != a[j]
  {
    if a[i] == a[j] {
      ChainsMeet(next, a, i, a, j);
      assert false;
    }
  }

  lemma ChainKept(next: Table, next': Table, a: seq<nat>)
    requires IsChain(next, a) && |next'| == |next|
    requires forall c :: c in a ==> next'[c] == next[c]
    ensures IsChain(next', a)
  {
    assert forall i :: 0 <= i < |a| ==> a[i] in a;
  }

  lemma ChainNotFree(next: Table, a: seq<nat>, c: nat)
    requires IsChain(next, a) && c in a
    ensures Cluster(next, c) && next[c] != 0
  {
    var i :| 0 <= i < |a| && a[i] == c;
    if i < |a| - 1 {
      assert Cluster(next, a[i + 1]);
    }
  }

  // ---------- walking ----------

  // The clusters read_cluster_chain collects: at most n, stopping at the first
  // entry that is free, reserved or an end mark.
  function Walk(next: Table, c: nat, n: nat): seq<nat>
    decreases n, c
  {
    if n == 0 || c < 2 || c >= |next| then [] else [c] + Walk(next, next[c], n - 1)
  }

  lemma WalkStep(next: Table, done: seq<nat>, c: nat, n: nat)
    requires Cluster(next, c) && 0 < n
    ensures done + Walk(next, c, n) == (done + [c]) + Walk(next, next[c], n - 1)
    ensures |done| < |done + Walk(next, c, n)| && (done + Walk(next, c, n))[|done|] == c
  {
  }

  lemma {:induction false} WalkChain(next: Table, a: seq<nat>, n: nat)
    requires IsChain(next, a) && |a| <= n
    ensures Walk(next, a[0], n) == a
  {
    assert Cluster(next, a[0]);
    if |a| > 1 {
      WalkChain(next, a[1..], n - 1);
      assert a == [a[0]] + a[1..];
    } else {
      assert Walk(next, next[a[0]], n - 1) == [];
    }
  }

  lemma {:induction false} WalkSteps(next: Table, c: nat, n: nat)
    ensures var a := Walk(next, c, n);
      && |a| <= n
      && (forall i :: 0 <= i < |a| ==> Cluster(next, a[i]))
      && (forall i :: 0 <= i < |a| - 1 ==> next[a[i]] == a[i + 1])
      && (a != [] ==> a[0] == c)
    decreases n
  {
    if !(n == 0 || c < 2 || c >= |next|) {
      WalkSteps(next, next[c], n - 1);
    }
  }

  // The walk is a chain exactly when it ended on an end-of-chain mark.
  lemma WalkIsChain(next: Table, c: nat, n: nat)
    requires Walk(next, c, n) != []
    ensures var a := Walk(next, c, n);
      a[|a| - 1] < |next| && (IsChain(next, a) <==> next[a[|a| - 1]] >= |next|)
  {
    WalkSteps(next, c, n);
    var a := Walk(next, c, n);
    assert Cluster(next, a[|a| - 1]);
  }

  // ---------- counting free clusters ----------

  // Free entries among clusters lo, ..., hi - 1.
  function FreeIn(next: Table, lo: nat, hi: nat): nat
    requires lo <= hi <= |next|
    decreases hi - lo
  {
    if lo == hi then 0 else FreeIn(next, lo, hi - 1) + if next[hi - 1] == 0 then 1 else 0
  }

  lemma {:induction false} FreeUpdate(next: Table, lo: nat, hi: nat, c: nat, v: nat)
    requires lo <= c < hi <= |next|
    ensures FreeIn(next[c := v], lo, hi) + (if next[c] == 0 then 1 else 0)
         == FreeIn(next, lo, hi) + (if v == 0 then 1 else 0)
  {
    if c == hi - 1 {
      FreeSame(next, next[c := v], lo, hi - 1);
    } else {
      FreeUpdate(next, lo, hi - 1, c, v);
    }
  }

  lemma {:induction false} FreeSame(next: Table, next': Table, lo: nat, hi: nat)
    requires lo <= hi <= |next| == |next'|
    requires forall c :: lo <= c < hi ==> next[c] == next'[c]
    ensures FreeIn(next, lo, hi) == FreeIn(next', lo, hi)
  {
    if lo < hi {
      FreeSame(next, next', lo, hi - 1);
    }
  }

  lemma {:induction false} FreeSplit(next: Table, lo: nat, mid: nat, hi: nat)
    requires lo <= mid <= hi <= |next|
    ensures FreeIn(next, lo, hi) == FreeIn(next, lo, mid) + FreeIn(next, mid, hi)
  {
    if mid < hi {
      FreeSplit(next, lo, mid, hi - 1);
    }
  }

  lemma {:induction false} FreeNone(next: Table, lo: nat, hi: nat)
    requires lo <= hi <= |next|
    ensures FreeIn(next, lo, hi) == 0 <==> forall c :: lo <= c < hi ==> next[c] != 0
  {
    if lo < hi {
      FreeNone(next, lo, hi - 1);
    }
  }

  // ---------- the operations ----------

  // allocate_cluster: the free entry c becomes a chain of its own.
  function Allocated(next: Table, c: nat): Table
    requires Cluster(next, c)
  {
    next[c := |next|]
  }

  // extend_chain: two entries, in this order.
  function Extended(next: Table, last: nat, c: nat): Table
    requires Cluster(next, last) && Cluster(next, c)
  {
    next[last := c][c := |next|]
  }

  // free_cluster_chain: every entry of the walk becomes 0.
  function Zeroed(next: Table, a: seq<nat>): (next': Table)
    requires forall i :: 0 <= i < |a| ==> Cluster(next, a[i])
    ensures |next'| == |next|
    decreases |a|
  {
    if a == [] then next
    else
      assert Cluster(next, a[|a| - 1]);
      Zeroed(next, a[..|a| - 1])[a[|a| - 1] := 0]
  }

  lemma {:induction false} ZeroedAt(next: Table, a: seq<nat>, c: nat)
    requires forall i :: 0 <= i < |a| ==> Cluster(next, a[i])
    requires c < |next|
    ensures Zeroed(next, a)[c] == if c in a then 0 else next[c]
  {
    if a != [] {
      ZeroedAt(next, a[..|a| - 1], c);
      assert a == a[..|a| - 1] + [a[|a| - 1]];
    }
  }

  lemma AllocateKeeps(next: Table, files: set<seq<nat>>, c: nat)
    requires Chains(next, files) && Cluster(next, c) && next[c] == 0
    ensures Chains(Allocated(next, c), files + {[c]})
  {
    var next' := Allocated(next, c);
    forall a | a in files
      ensures IsChain(next', a) && c !in a
    {
      if c in a {
        ChainNotFree(next, a, c);
      }
      ChainKept(next, next', a);
    }
    assert IsChain(next', [c]);
  }

  // Linking at the tail appends the cluster; every other chain stays.
  lemma ExtendKeeps(next: Table, files: set<seq<nat>>, a: seq<nat>, c: nat)
    requires Chains(next, files) && a in files && [c] in files && a != [c]
    ensures Cluster(next, c) && Cluster(next, a[|a| - 1])
    ensures Chains(Extended(next, a[|a| - 1], c), files - {a, [c]} + {a + [c]})
  {
    var last := a[|a| - 1];
    assert IsChain(next, [c]) && [c][0] == c;
    assert Cluster(next, c) && Cluster(next, last) && c !in a by {
      assert c in [c];
    }
    var next' := Extended(next, last, c);
    GrowIsChain(next, a, c);
    forall b | b in files - {a, [c]}
      ensures IsChain(next', b) && last !in b && c !in b
    {
      assert last in a && c in [c] && Disjoint(a, b) && Disjoint([c], b);
      ChainKept(next, next', b);
    }
  }

  lemma GrowIsChain(next: Table, a: seq<nat>, c: nat)
    requires IsChain(next, a) && Cluster(next, c) && c !in a
    ensures IsChain(Extended(next, a[|a| - 1], c), a + [c])
  {
    var next' := Extended(next, a[|a| - 1], c);
    var g := a + [c];
    forall i | 0 <= i < |g| - 1
      ensures next'[g[i]] == g[i + 1]
    {
      if i < |a| - 1 {
        ChainAcyclic(next, a, i, |a| - 1);
      }
    }
  }

  lemma FreeKeeps(next: Table, files: set<seq<nat>>, a: seq<nat>)
    requires Chains(next, files) && a in files
    ensures Chains(Zeroed(next, a), files - {a})
    ensures forall c :: c in a ==> c < |next| && Zeroed(next, a)[c] == 0
  {
    var next' := Zeroed(next, a);
    forall b | b in files - {a}
      ensures IsChain(next', b)
    {
      forall c | c in b
        ensures c < |next| && next'[c] == next[c]
      {
        ChainNotFree(next, b, c);
        ZeroedAt(next, a, c);
      }
      ChainKept(next, next', b);
    }
    forall c | c in a
      ensures c < |next| && next'[c] == 0
    {
      ChainNotFree(next, a, c);
      ZeroedAt(next, a, c);
    }
  }

  // Freeing gives back exactly the chain's clusters.
  lemma FreeCount(next: Table, a: seq<nat>, hi: nat)
    requires IsChain(next, a) && 2 <= hi <= |next|
    requires forall c :: c in a ==> c < hi
    ensures FreeIn(Zeroed(next, a), 2, hi) == FreeIn(next, 2, hi) + |a|
  {
    ZeroPrefix(next, a, hi, |a|);
    assert a[..|a|] == a;
  }

  lemma {:induction false} ZeroPrefix(next: Table, a: seq<nat>, hi: nat, n: nat)
    requires IsChain(next, a) && 2 <= hi <= |next| && n <= |a|
    requires forall c :: c in a ==> c < hi
    ensures FreeIn(Zeroed(next, a[..n]), 2, hi) == FreeIn(next, 2, hi) + n
  {
    if n > 0 {
      ZeroPrefix(next, a, hi, n - 1);
      assert a[..n][..n - 1] == a[..n - 1];
      var c := a[n - 1];
      var prev := Zeroed(next, a[..n - 1]);
      assert c in a && Cluster(next, c);
      ChainNotFree(next, a, c);
      ZeroedAt(next, a[..n - 1], c);
      assert c !in a[..n - 1] by {
        if c in a[..n - 1] {
          var i :| 0 <= i < n - 1 && a[i] == c;
          ChainAcyclic(next, a, i, n - 1);
          assert false;
        }
      }
      FreeUpdate(prev, 2, hi, c, 0);
    }
  }

  lemma AllocateCount(next: Table, c: nat, hi: nat)
    requires Cluster(next, c) && next[c] == 0 && c < hi <= |next|
    ensures FreeIn(Allocated(next, c), 2, hi) == FreeIn(next, 2, hi) - 1
  {
    FreeUpdate(next, 2, hi, c, |next|);
  }

  lemma ExtendCount(next: Table, last: nat, c: nat, hi: nat)
    requires Cluster(next, last) && Cluster(next, c) && next[last] != 0 && next[c] != 0 && last < hi && c < hi <= |next|
    ensures FreeIn(Extended(next, last, c), 2, hi) == FreeIn(next, 2, hi)
  {
    FreeUpdate(next, 2, hi, last, c);
    FreeUpdate(next[last := c], 2, hi, c, |next|);
  }

  // ---------- whole runs ----------

  datatype Op =
    | Allocate(c: nat)
    | Extend(a: seq<nat>, c: nat)
    | Free(a: seq<nat>)

  datatype Allocation = Allocation(next: Table, files: set<seq<nat>>)

  // Allocation takes a free cluster, extension joins an allocated single cluster
  // to the tail of another chain, freeing takes a whole chain.
  ghost predicate Legal(v: Allocation, hi: nat, op: Op) {
    match op
    case Allocate(c) => Cluster(v.next, c) && c < hi && v.next[c] == 0
    case Extend(a, c) => a in v.files && [c] in v.files && a != [c]
    case Free(a) => a in v.files
  }

  ghost predicate Sound(v: Allocation, hi: nat) {
    && 2 <= hi <= |v.next|
    && Chains(v.next, v.files)
    && forall a, c :: a in v.files && c in a ==> c < hi
  }

  ghost function After(v: Allocation, hi: nat, op: Op): Allocation
    requires Sound(v, hi) && Legal(v, hi, op)
  {
    match op
    case Allocate(c) => Allocation(Allocated(v.next, c), v.files + {[c]})
    case Extend(a, c) =>
      ExtendKeeps(v.next, v.files, a, c);
      Allocation(Extended(v.next, a[|a| - 1], c), v.files - {a, [c]} + {a + [c]})
    case Free(a) => Allocation(Zeroed(v.next, a), v.files - {a})
  }

  function Gain(op: Op): int {
    match op
    case Allocate(_) => -1
    case Extend(_, _) => 0
    case Free(a) => |a|
  }

  lemma StepKeeps(v: Allocation, hi: nat, op: Op)
    requires Sound(v, hi) && Legal(v, hi, op)
    ensures Sound(After(v, hi, op), hi)
    ensures |After(v, hi, op).next| == |v.next|
    ensures FreeIn(After(v, hi, op).next, 2, hi) == FreeIn(v.next, 2, hi) + Gain(op)
  {
    match op
    case Allocate(c) =>
      AllocateKeeps(v.next, v.files, c);
      AllocateCount(v.next, c, hi);
    case Extend(a, c) =>
      ExtendStep(v, hi, a, c);
    case Free(a) =>
      FreeKeeps(v.next, v.files, a);
      FreeCount(v.next, a, hi);
  }

  lemma ExtendStep(v: Allocation, hi: nat, a: seq<nat>, c: nat)
    requires Sound(v, hi) && Legal(v, hi, Extend(a, c))
    ensures Sound(After(v, hi, Extend(a, c)), hi)
    ensures |After(v, hi, Extend(a, c)).next| == |v.next|
    ensures FreeIn(After(v, hi, Extend(a, c)).next, 2, hi) == FreeIn(v.next, 2, hi)
  {
    ExtendKeeps(v.next, v.files, a, c);
    var last := a[|a| - 1];
    assert c in [c] && last in a;
    ChainNotFree(v.next, a, last);
    ChainNotFree(v.next, [c], c);
    ExtendCount(v.next, last, c, hi);
  }

  ghost predicate LegalRun(v: Allocation, hi: nat, ops: seq<Op>)
    requires Sound(v, hi)
    decreases |ops|
  {
    ops == [] ||
    (Legal(v, hi, ops[0]) && (StepKeeps(v, hi, ops[0]); LegalRun(After(v, hi, ops[0]), hi, ops[1..])))
  }

  ghost function Run(v: Allocation, hi: nat, ops: seq<Op>): Allocation
    requires Sound(v, hi) && LegalRun(v, hi, ops)
    decreases |ops|
  {
    if ops == [] then v
    else
      StepKeeps(v, hi, ops[0]);
      Run(After(v, hi, ops[0]), hi, ops[1..])
  }

  function TotalGain(ops: seq<Op>): int {
    if ops == [] then 0 else Gain(ops[0]) + TotalGain(ops[1..])
  }

  // Over every run the chains stay disjoint, acyclic and properly ended, and the
  // free count moves by exactly what the operations took and gave.
  lemma {:induction false} RunKeeps(v: Allocation, hi: nat, ops: seq<Op>)
    requires Sound(v, hi) && LegalRun(v, hi, ops)
    ensures Sound(Run(v, hi, ops), hi)
    ensures FreeIn(Run(v, hi, ops).next, 2, hi) == FreeIn(v.next, 2, hi) + TotalGain(ops)
    decreases |ops|
  {
    if ops != [] {
      StepKeeps(v, hi, ops[0]);
      RunKeeps(After(v, hi, ops[0]), hi, ops[1..]);
    }
  }

  // ---------- growing from the wrong end ----------

  // Linking the new cluster behind the first one: a chain of the expected
  // clusters comes out exactly when the first cluster is also the last.
  lemma GrowFromFirst(next: Table, a: seq<nat>, c: nat)
    requires IsChain(next, a) && Cluster(next, c) && c !in a
    ensures IsChain(Extended(next, a[0], c), [a[0], c])
    ensures IsChain(Extended(next, a[0], c), a + [c]) <==> |a| == 1
  {
    var next' := Extended(next, a[0], c);
    assert a[0] in a;
    if |a| == 1 {
      assert a + [c] == [a[0], c];
    } else if IsChain(next', a + [c]) {
      ChainUnique(next', a + [c], [a[0], c]);
      assert false;
    }
  }
}
