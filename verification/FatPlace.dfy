/**
 * Writing from an offset.  write_file_data starts at the first sector of the
 * cluster the offset falls in and applies the offset within a sector to every
 * sector of that cluster; so the buffer comes in pieces, and the pieces land
 * where they should exactly under the condition stated here.
 */
module FatPlace {
  import opened Octets
  import opened FatDisk
  import opened FatData

  // How far into its sector the j-th piece starts; the first n sectors are skewed by w.
  function Skew(w: nat, n: nat, j: nat): nat {
    if j < n then w else 0
  }

  // Where in the buffer the j-th piece starts.
  function Pos(w: nat, n: nat, j: nat): nat
    requires w < 512
  {
    if j == 0 then 0 else Pos(w, n, j - 1) + (512 - Skew(w, n, j - 1))
  }

  lemma {:induction false} PosFlat(n: nat, j: nat)
    ensures Pos(0, n, j) == 512 * j
  {
    if j > 0 {
      PosFlat(n, j - 1);
    }
  }

  lemma {:induction false} PosOne(w: nat, j: nat)
    requires w < 512 && 0 < j
    ensures Pos(w, 1, j) == 512 * j - w
  {
    if j > 1 {
      PosOne(w, j - 1);
    } else {
      assert Pos(w, 1, 0) == 0;
    }
  }

  lemma {:induction false} PosRises(w: nat, n: nat, i: nat, j: nat)
    requires w < 512 && i <= j
    ensures Pos(w, n, i) <= Pos(w, n, j)
    decreases j
  {
    if i < j {
      PosRises(w, n, i, j - 1);
    }
  }

  // The j-th piece; it ends with its sector or with the buffer.
  function Piece(buf: seq<Byte>, w: nat, n: nat, j: nat): (r: seq<Byte>)
    requires w < 512 && Pos(w, n, j) <= |buf|
    ensures |r| == Min(512 - Skew(w, n, j), |buf| - Pos(w, n, j))
  {
    buf[Pos(w, n, j)..Min(Pos(w, n, j) + (512 - Skew(w, n, j)), |buf|)]
  }

  function OverlayAt(s: Sector, o: nat, part: seq<Byte>): Sector
    requires o + |part| <= 512
  {
    s[..o] + part + s[o + |part|..]
  }

  // k pieces of the buffer were begun.
  predicate Begun(buf: seq<Byte>, w: nat, n: nat, k: nat) {
    w < 512 && (k == 0 || Pos(w, n, k - 1) < |buf|)
  }

  lemma BegunBefore(buf: seq<Byte>, w: nat, n: nat, k: nat)
    requires Begun(buf, w, n, k) && 0 < k
    ensures Begun(buf, w, n, k - 1) && Pos(w, n, k - 1) < |buf|
  {
    if k > 1 {
      PosRises(w, n, k - 2, k - 1);
    }
  }

  // The disk after the first k pieces were written to the sectors lbas.
  function Placed(d: Disk, lbas: seq<nat>, buf: seq<Byte>, w: nat, n: nat, k: nat): (d': Disk)
    requires k <= |lbas| && OnDisk(d, lbas[..k]) && Begun(buf, w, n, k)
    ensures |d'| == |d|
  {
    if k == 0 then d
    else
      assert lbas[..k - 1] == lbas[..k][..k - 1] && lbas[k - 1] == lbas[..k][k - 1];
      BegunBefore(buf, w, n, k);
      var e := Placed(d, lbas, buf, w, n, k - 1);
      e[lbas[k - 1] := OverlayAt(e[lbas[k - 1]], Skew(w, n, k - 1), Piece(buf, w, n, k - 1))]
  }

  // Without skew this is the plain flush.
  lemma {:induction false} PlacedFlat(d: Disk, lbas: seq<nat>, buf: seq<Byte>, n: nat, k: nat)
    requires k <= |lbas| && OnDisk(d, lbas[..k]) && Begun(buf, 0, n, k)
    ensures 512 * k < |buf| + 512 && Placed(d, lbas, buf, 0, n, k) == Flushed(d, lbas, buf, k)
  {
    hide OverlayAt, Piece, Overlay, Chunk, Skew;
    if k > 0 {
      BegunBefore(buf, 0, n, k);
      PosFlat(n, k - 1);
      assert lbas[..k - 1] == lbas[..k][..k - 1] && lbas[k - 1] == lbas[..k][k - 1];
      PlacedFlat(d, lbas, buf, n, k - 1);
      FlatSector(Flushed(d, lbas, buf, k - 1)[lbas[k - 1]], buf, n, k - 1);
    }
  }

  lemma FlatSector(s: Sector, buf: seq<Byte>, n: nat, j: nat)
    requires Pos(0, n, j) <= |buf|
    ensures 512 * j <= |buf| && Skew(0, n, j) == 0
    ensures OverlayAt(s, 0, Piece(buf, 0, n, j)) == Overlay(s, Chunk(buf, j))
  {
    PosFlat(n, j);
    assert Piece(buf, 0, n, j) == Chunk(buf, j);
    FlatOverlay(s, Chunk(buf, j));
  }

  lemma FlatOverlay(s: Sector, part: seq<Byte>)
    requires |part| <= 512
    ensures OverlayAt(s, 0, part) == Overlay(s, part)
  {
  }

  // Sector j after k pieces.
  lemma {:induction false} PlacedAt(d: Disk, lbas: seq<nat>, buf: seq<Byte>, w: nat, n: nat, k: nat, j: nat)
    requires k <= |lbas| && OnDisk(d, lbas[..k]) && Begun(buf, w, n, k) && Distinct(lbas) && j < |lbas| && lbas[j] < |d|
    ensures j < k ==> Pos(w, n, j) < |buf|
    ensures Placed(d, lbas, buf, w, n, k)[lbas[j]]
         == if j < k then OverlayAt(d[lbas[j]], Skew(w, n, j), Piece(buf, w, n, j)) else d[lbas[j]]
  {
    hide OverlayAt, Piece, Skew;
    if k > 0 {
      assert lbas[..k - 1] == lbas[..k][..k - 1] && lbas[k - 1] == lbas[..k][k - 1];
      BegunBefore(buf, w, n, k);
      PlacedAt(d, lbas, buf, w, n, k - 1, j);
      PlacedAt(d, lbas, buf, w, n, k - 1, k - 1);
    }
  }

  // Byte x of the buffer, in the j-th piece, is in sector j behind the skew.
  lemma PlacedByte(d: Disk, lbas: seq<nat>, buf: seq<Byte>, w: nat, n: nat, k: nat, j: nat, x: nat)
    requires k <= |lbas| && OnDisk(d, lbas[..k]) && Begun(buf, w, n, k) && Distinct(lbas)
    requires j < k && Pos(w, n, j) <= x < Pos(w, n, j + 1) && x < |buf|
    ensures lbas[j] < |d| && Placed(d, lbas, buf, w, n, k)[lbas[j]][Skew(w, n, j) + (x - Pos(w, n, j))] == buf[x]
  {
    hide Placed;
    assert lbas[j] == lbas[..k][j];
    PlacedAt(d, lbas, buf, w, n, k, j);
    assert Piece(buf, w, n, j)[x - Pos(w, n, j)] == buf[x];
  }

  // ---------- the right place ----------

  // The cluster of the chain an offset falls in, and the offset within it.
  function StartCluster(b: Bpb, offset: nat): nat
    requires 0 < b.sectorsPerCluster
  {
    Quotient(offset, 512 * b.sectorsPerCluster);
    offset / (512 * b.sectorsPerCluster)
  }

  lemma Quotient(x: nat, m: nat)
    requires 0 < m
    ensures 0 <= x / m
  {
    var q: int := x / m;
    assert x == q * m + x % m;
  }

  function StartByte(b: Bpb, offset: nat): nat
    requires 0 < b.sectorsPerCluster
  {
    offset % (512 * b.sectorsPerCluster)
  }

  // Position in the file where byte x of the buffer lands, as part of piece j.
  function Lands(b: Bpb, offset: nat, j: nat, x: int): int
    requires 0 < b.sectorsPerCluster
  {
    var w, n := offset % 512, b.sectorsPerCluster;
    512 * (At(b, StartCluster(b, offset), 0) + j) + Skew(w, n, j) + (x - Pos(w, n, j))
  }

  // Every byte lands at its place in the file.
  ghost predicate Rightly(b: Bpb, offset: nat, len: nat)
    requires 0 < b.sectorsPerCluster
  {
    var w, n := offset % 512, b.sectorsPerCluster;
    forall j: nat, x: nat :: Pos(w, n, j) <= x < Pos(w, n, j + 1) && x < len ==> Lands(b, offset, j, x) == offset + x
  }

  lemma OffsetSplit(b: Bpb, offset: nat)
    requires 0 < b.sectorsPerCluster
    ensures offset == 512 * At(b, StartCluster(b, offset), 0) + StartByte(b, offset)
    ensures offset % 512 == StartByte(b, offset) % 512
  {
    var bytes: nat := 512 * b.sectorsPerCluster;
    var q, r := StartCluster(b, offset), StartByte(b, offset);
    assert offset == q * bytes + r;
    assert q * bytes == 512 * (q * b.sectorsPerCluster);
    SameRest(offset, q * b.sectorsPerCluster, r);
  }

  lemma SameRest(x: nat, m: nat, r: nat)
    requires x == 512 * m + r
    ensures x % 512 == r % 512
  {
    var t := r / 512;
    assert x == 512 * (m + t) + r % 512;
  }

  // Exactly for an offset at the start of a cluster; or one in its first sector, if the
  // buffer ends with that sector or clusters have one sector.
  lemma RightlyIff(b: Bpb, offset: nat, len: nat)
    requires 0 < b.sectorsPerCluster && 0 < len
    ensures var r := StartByte(b, offset);
      Rightly(b, offset, len) <==> r == 0 || (r < 512 && (len <= 512 - r || b.sectorsPerCluster == 1))
  {
    hide StartCluster, StartByte, At;
    var w, n, r := offset % 512, b.sectorsPerCluster, StartByte(b, offset);
    OffsetSplit(b, offset);
    FirstPieces(w, n);
    if r == 0 || (r < 512 && (len <= 512 - r || n == 1)) {
      forall j: nat, x: nat | Pos(w, n, j) <= x < Pos(w, n, j + 1) && x < len
        ensures Lands(b, offset, j, x) == offset + x
      {
        LandsRight(w, n, j, x, len);
      }
    } else if r >= 512 {
      assert Lands(b, offset, 0, 0) != offset;
    } else {
      assert Lands(b, offset, 1, 512 - w) != offset + (512 - w);
    }
  }

  lemma FirstPieces(w: nat, n: nat)
    requires w < 512 && 0 < n
    ensures Pos(w, n, 0) == 0 && Pos(w, n, 1) == 512 - w && Pos(w, n, 1) < Pos(w, n, 2)
  {
    assert Pos(w, n, 0) == 0;
  }

  lemma LandsRight(w: nat, n: nat, j: nat, x: nat, len: nat)
    requires w < 512 && 0 < n && (w == 0 || len <= 512 - w || n == 1) && Pos(w, n, j) <= x < len
    ensures 512 * j + Skew(w, n, j) == w + Pos(w, n, j)
  {
    FirstPieces(w, n);
    if w == 0 {
      PosFlat(n, j);
    } else if 0 < j {
      PosRises(w, n, 1, j);
      PosOne(w, j);
    }
  }
}
