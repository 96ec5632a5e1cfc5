/**
 * File contents: the sectors of a cluster chain in order, the bytes they
 * hold, and the disk after the first k sectors of a buffer were flushed.
 */
module FatData {
  import opened Octets
  import opened FatDisk

  // Position in the file of sector s of its i-th cluster.
  function At(b: Bpb, i: nat, s: nat): nat {
    i * b.sectorsPerCluster + s
  }

  lemma AtStart(b: Bpb)
    ensures At(b, 0, 0) == 0
  {
  }

  lemma AtNext(b: Bpb, i: nat, s: nat)
    ensures At(b, i, s) == At(b, i, 0) + s
    ensures At(b, i, s + 1) == At(b, i, s) + 1
    ensures At(b, i, b.sectorsPerCluster) == At(b, i + 1, 0)
    ensures At(b, i + 1, 0) == At(b, i, 0) + b.sectorsPerCluster
  {
  }

  lemma AtBelow(b: Bpb, i: nat, s: nat, n: nat)
    requires i < n && s < b.sectorsPerCluster
    ensures At(b, i, s) < At(b, n, 0)
  {
    CopiesBelow(i, n, b.sectorsPerCluster);
  }

  // Sectors of the chain's clusters, in file order.
  function Lbas(b: Bpb, chain: seq<nat>): (lbas: seq<nat>)
    ensures |lbas| == At(b, |chain|, 0)
  {
    if chain == [] then AtStart(b); []
    else
      var n := |chain| - 1;
      AtNext(b, n, 0);
      Lbas(b, chain[..n]) + ClusterLbas(b, chain[n])
  }

  function ClusterLbas(b: Bpb, c: nat): (lbas: seq<nat>)
    ensures |lbas| == b.sectorsPerCluster
  {
    seq(b.sectorsPerCluster, s => b.ClusterToSector(c) + s)
  }

  predicate Distinct(s: seq<nat>) {
    forall i, j :: 0 <= i < j < |s| ==> s[i] != s[j]
  }

  predicate DataClusters(chain: seq<nat>) {
    forall i :: 0 <= i < |chain| ==> 2 <= chain[i]
  }

  // Every sector of the chain belongs to one of its clusters.
  lemma {:induction false} LbaOf(b: Bpb, chain: seq<nat>, k: nat) returns (i: nat, s: nat)
    requires k < |Lbas(b, chain)|
    ensures i < |chain| && s < b.sectorsPerCluster
    ensures k == At(b, i, s)
    ensures Lbas(b, chain)[k] == b.ClusterToSector(chain[i]) + s
  {
    hide At, Bpb.ClusterToSector;
    var n := |chain| - 1;
    AtStart(b);
    AtNext(b, n, 0);
    if k < |Lbas(b, chain[..n])| {
      i, s := LbaOf(b, chain[..n], k);
    } else {
      i, s := n, k - At(b, n, 0);
      AtNext(b, n, s);
    }
  }

  lemma {:induction false} AtLba(b: Bpb, chain: seq<nat>, i: nat, s: nat)
    requires i < |chain| && s < b.sectorsPerCluster
    ensures At(b, i, s) < |Lbas(b, chain)|
    ensures Lbas(b, chain)[At(b, i, s)] == b.ClusterToSector(chain[i]) + s
  {
    hide At, Bpb.ClusterToSector;
    var n := |chain| - 1;
    AtBelow(b, i, s, |chain|);
    if i < n {
      AtBelow(b, i, s, n);
      AtLba(b, chain[..n], i, s);
    } else {
      AtNext(b, n, s);
    }
  }

  lemma ClustersApart(b: Bpb, c: nat, s: nat, c': nat, s': nat)
    requires 2 <= c && 2 <= c' && c != c' && s < b.sectorsPerCluster && s' < b.sectorsPerCluster
    ensures b.ClusterToSector(c) + s != b.ClusterToSector(c') + s'
  {
    if c < c' {
      CopiesBelow(c - 2, c' - 2, b.sectorsPerCluster);
    } else {
      CopiesBelow(c' - 2, c - 2, b.sectorsPerCluster);
    }
  }

  // Different clusters, different sectors; also across two chains.
  lemma LbasDisjoint(b: Bpb, a: seq<nat>, a': seq<nat>, k: nat, k': nat)
    requires DataClusters(a) && DataClusters(a') && k < |Lbas(b, a)| && k' < |Lbas(b, a')|
    requires forall c :: c in a ==> c !in a'
    ensures Lbas(b, a)[k] != Lbas(b, a')[k']
  {
    var i, s := LbaOf(b, a, k);
    var i', s' := LbaOf(b, a', k');
    assert a[i] in a;
    ClustersApart(b, a[i], s, a'[i'], s');
  }

  lemma LbasDistinct(b: Bpb, a: seq<nat>)
    requires DataClusters(a) && Distinct(a)
    ensures Distinct(Lbas(b, a))
  {
    forall k, k' | 0 <= k < k' < |Lbas(b, a)|
      ensures Lbas(b, a)[k] != Lbas(b, a)[k']
    {
      var i, s := LbaOf(b, a, k);
      var i', s' := LbaOf(b, a, k');
      if i != i' {
        ClustersApart(b, a[i], s, a[i'], s');
      }
    }
  }

  lemma LbasInData(b: Bpb, a: seq<nat>, k: nat)
    requires k < |Lbas(b, a)|
    ensures b.baseSector + b.dataStartSector <= Lbas(b, a)[k]
  {
    var i, s := LbaOf(b, a, k);
  }

  lemma {:induction false} LbasPrefix(b: Bpb, a: seq<nat>, a': seq<nat>)
    requires a <= a'
    ensures Lbas(b, a) <= Lbas(b, a')
  {
    if |a| < |a'| {
      LbasPrefix(b, a, a'[..|a'| - 1]);
    } else {
      assert a == a';
    }
  }

  // Data sectors do not hold the table.
  lemma ViewSame(d: Disk, d': Disk, b: Bpb, copy: nat)
    requires Mounted(d, b) && |d'| == |d| && copy < b.numFats
    requires forall lba :: 0 <= lba < b.baseSector + b.dataStartSector ==> d'[lba] == d[lba]
    ensures View(d', b, copy) == View(d, b, copy)
  {
    hide Decode, EntrySector, EntryOffset;
    forall c | 0 <= c < b.Entries()
      ensures Entry(d', b, copy, c) == Entry(d, b, copy, c)
    {
      EntryPlace(b, copy, c);
    }
  }

  // ---------- contents ----------

  predicate OnDisk(d: Disk, lbas: seq<nat>) {
    forall k :: 0 <= k < |lbas| ==> lbas[k] < |d|
  }

  // The first n bytes held by the sectors lbas.
  function Bytes(d: Disk, lbas: seq<nat>, n: nat): (r: seq<Byte>)
    requires OnDisk(d, lbas) && n <= 512 * |lbas|
    ensures |r| == n
    ensures forall i :: 0 <= i < n ==> r[i] == d[lbas[i / 512]][i % 512]
  {
    seq(n, i requires 0 <= i < n => d[lbas[i / 512]][i % 512])
  }

  function Min(x: nat, y: nat): nat {
    if x < y then x else y
  }

  // The k-th sector's share of the buffer.
  function Chunk(buf: seq<Byte>, k: nat): (r: seq<Byte>)
    requires 512 * k <= |buf|
    ensures |r| == Min(512, |buf| - 512 * k)
  {
    buf[512 * k..Min(512 * k + 512, |buf|)]
  }

  function Overlay(s: Sector, part: seq<Byte>): Sector
    requires |part| <= 512
  {
    part + s[|part|..]
  }

  // The disk after the first k sectors of buf were written.
  function Flushed(d: Disk, lbas: seq<nat>, buf: seq<Byte>, k: nat): (d': Disk)
    requires k <= |lbas| && OnDisk(d, lbas[..k]) && 512 * k < |buf| + 512
    ensures |d'| == |d|
  {
    if k == 0 then d
    else
      assert lbas[..k - 1] == lbas[..k][..k - 1] && lbas[k - 1] == lbas[..k][k - 1];
      var e := Flushed(d, lbas, buf, k - 1);
      e[lbas[k - 1] := Overlay(e[lbas[k - 1]], Chunk(buf, k - 1))]
  }

  // Sector j < k is overlaid once, on its old contents.
  lemma {:induction false} FlushedAt(d: Disk, lbas: seq<nat>, buf: seq<Byte>, k: nat, j: nat)
    requires k <= |lbas| && OnDisk(d, lbas[..k]) && 512 * k < |buf| + 512 && Distinct(lbas) && j < |lbas|
    requires lbas[j] < |d|
    ensures 512 * j <= |buf| || k <= j
    ensures Flushed(d, lbas, buf, k)[lbas[j]] == if j < k then Overlay(d[lbas[j]], Chunk(buf, j)) else d[lbas[j]]
  {
    if k > 0 {
      assert lbas[..k - 1] == lbas[..k][..k - 1] && lbas[k - 1] == lbas[..k][k - 1];
      FlushedAt(d, lbas, buf, k - 1, j);
      FlushedAt(d, lbas, buf, k - 1, k - 1);
    }
  }

  // No other sector changes.
  lemma {:induction false} FlushedFrame(d: Disk, lbas: seq<nat>, buf: seq<Byte>, k: nat, lba: nat)
    requires k <= |lbas| && OnDisk(d, lbas[..k]) && 512 * k < |buf| + 512
    requires lba < |d| && lba !in lbas[..k]
    ensures Flushed(d, lbas, buf, k)[lba] == d[lba]
  {
    if k > 0 {
      assert lbas[..k - 1] == lbas[..k][..k - 1] && lbas[k - 1] == lbas[..k][k - 1];
      FlushedFrame(d, lbas, buf, k - 1, lba);
    }
  }

  // Number of sectors a buffer of n bytes occupies.
  function SectorsFor(n: nat): nat {
    (n + 511) / 512
  }

  lemma FlushedByte(d: Disk, lbas: seq<nat>, buf: seq<Byte>, k: nat, j: nat, r: nat)
    requires k <= |lbas| && OnDisk(d, lbas[..k]) && 512 * k < |buf| + 512 && Distinct(lbas)
    requires j < k && r < 512 && 512 * j + r < |buf|
    ensures lbas[j] < |d| && Flushed(d, lbas, buf, k)[lbas[j]][r] == buf[512 * j + r]
  {
    hide Flushed;
    assert lbas[j] == lbas[..k][j];
    FlushedAt(d, lbas, buf, k, j);
    assert Chunk(buf, j)[r] == buf[512 * j + r];
  }

  // What was flushed is what is read back.
  lemma FlushedReadBack(d: Disk, lbas: seq<nat>, buf: seq<Byte>)
    requires OnDisk(d, lbas) && Distinct(lbas) && |buf| <= 512 * |lbas|
    ensures Bytes(Flushed(d, lbas, buf, SectorsFor(|buf|)), lbas, |buf|) == buf
  {
    hide Flushed, Distinct;
    var k := SectorsFor(|buf|);
    var d' := Flushed(d, lbas, buf, k);
    forall i | 0 <= i < |buf|
      ensures Bytes(d', lbas, |buf|)[i] == buf[i]
    {
      var j, r := i / 512, i % 512;
      assert i == 512 * j + r && j < k;
      FlushedByte(d, lbas, buf, k, j, r);
    }
  }
}
