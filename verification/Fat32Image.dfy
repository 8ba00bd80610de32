/** What iterating over a file visits, and what writing an image over the file leaves on the disk. */
module Fat32Image {
  import opened CTypes
  import opened Fat32
  import Bits

  /** The 32-bit sum gives the sectors of the file exactly when it does not wrap; a wrapped sum
      gives no sectors at all. */
  lemma SizeSectorsExact(g: Geometry, size: u32)
    requires GeometryOk(g)
    ensures SizeSectors(g, size) == CeilDiv(size, g.sectorSize) <==> size + g.sectorSize <= 0x1_0000_0000
    ensures size + g.sectorSize > 0x1_0000_0000 ==> SizeSectors(g, size) == 0
  {
    var sum: nat := size + g.sectorSize - 1;
    if sum >= 0x1_0000_0000 {
      Bits.DivIs(sum, 0x1_0000_0000, 1, sum - 0x1_0000_0000);
      Bits.DivIs(sum - 0x1_0000_0000, g.sectorSize, 0, sum - 0x1_0000_0000);
    } else if size > 0 {
      Bits.DivIs(sum, 0x1_0000_0000, 0, sum);
      DivShift(size - 1, g.sectorSize);
    } else {
      Bits.DivIs(sum, 0x1_0000_0000, 0, sum);
      Bits.DivIs(sum, g.sectorSize, 0, sum);
    }
  }

  lemma DivShift(a: nat, b: nat)
    requires b > 0
    ensures (a + b) / b == a / b + 1 && (a + b) % b == a % b
  {
    var q, r := a / b, a % b;
    assert a == q * b + r;
    OneMore(q, b);
    Bits.DivIs(a + b, b, q + 1, r);
  }

  lemma OneMore(q: nat, b: nat)
    ensures (q + 1) * b == q * b + b
  {}

  // ----- the chain --------------------------------------------------------------------------

  /** The j-th cluster of the chain from `cluster`. */
  function ClusterAt(v: Vol, disk: Disk, cluster: u32, j: nat): u32
    decreases j
  {
    if j == 0 then cluster else ClusterAt(v, disk, NextCluster(v, disk, cluster), j - 1)
  }

  /** The chain has at least j clusters after `cluster`. */
  predicate Goes(v: Vol, disk: Disk, cluster: u32, j: nat) {
    forall i :: 0 < i <= j ==> !IsEnd(ClusterAt(v, disk, cluster, i))
  }

  lemma {:induction false} ClusterAtSum(v: Vol, disk: Disk, cluster: u32, i: nat, j: nat)
    ensures ClusterAt(v, disk, cluster, i + j) == ClusterAt(v, disk, ClusterAt(v, disk, cluster, i), j)
    decreases i
  {
    if i > 0 {
      ClusterAtSum(v, disk, NextCluster(v, disk, cluster), i - 1, j);
    }
  }

  /** A chain that comes to an accepted end mark has no cluster twice before it. */
  lemma EndedChainIsAcyclic(v: Vol, disk: Disk, cluster: u32, j: nat)
    requires Goes(v, disk, cluster, j) && IsEnd(ClusterAt(v, disk, cluster, j + 1))
    ensures Acyclic(v, disk, cluster, j + 1)
  {
    forall a: nat, b: nat | a < b < j + 1
      ensures ClusterAt(v, disk, cluster, a) != ClusterAt(v, disk, cluster, b)
    {
      ClusterAtSum(v, disk, cluster, b, j + 1 - b);
      ClusterAtSum(v, disk, cluster, a, j + 1 - b);
      var early := a + (j + 1 - b);
      assert 0 < early <= j && !IsEnd(ClusterAt(v, disk, cluster, early));
    }
  }

  /** The first n clusters of the chain are different. */
  predicate Acyclic(v: Vol, disk: Disk, cluster: u32, n: nat) {
    forall a: nat, b: nat :: a < b < n ==> ClusterAt(v, disk, cluster, a) != ClusterAt(v, disk, cluster, b)
  }

  lemma GoesOn(v: Vol, disk: Disk, cluster: u32, j: nat)
    requires j > 0 && Goes(v, disk, cluster, j)
    ensures !IsEnd(NextCluster(v, disk, cluster)) && Goes(v, disk, NextCluster(v, disk, cluster), j - 1)
  {
    assert !IsEnd(ClusterAt(v, disk, cluster, 1));
    assert ClusterAt(v, disk, cluster, 1) == ClusterAt(v, disk, NextCluster(v, disk, cluster), 0);
    forall i | 0 < i <= j - 1
      ensures !IsEnd(ClusterAt(v, disk, NextCluster(v, disk, cluster), i))
    {
      assert !IsEnd(ClusterAt(v, disk, cluster, i + 1));
    }
  }

  lemma VisitsLength(v: Vol, disk: Disk, cluster: u32, left: nat)
    ensures left <= v.g.spc ==> |Visits(v, disk, cluster, left)| == left
    ensures left > v.g.spc ==>
      |Visits(v, disk, cluster, left)| == v.g.spc + LaterVisits(v, disk, cluster, left - v.g.spc)
  {
    assert Visits(v, disk, NextCluster(v, disk, cluster), 0) == [];
  }

  /** How many of the next `left` sectors the clusters after this one provide. */
  function LaterVisits(v: Vol, disk: Disk, cluster: u32, left: nat): nat {
    if IsEnd(NextCluster(v, disk, cluster)) then 0 else |Visits(v, disk, NextCluster(v, disk, cluster), left)|
  }

  /** j clusters of `spc` sectors and `rest` sectors, counted one cluster at a time. */
  function Counted(spc: nat, j: nat, rest: nat): nat {
    if j == 0 then rest else spc + Counted(spc, j - 1, rest)
  }

  lemma {:induction false} CountedIs(spc: nat, j: nat, rest: nat)
    ensures Counted(spc, j, rest) == j * spc + rest
  {
    if j > 0 {
      CountedIs(spc, j - 1, rest);
      OneMore(j - 1, spc);
    }
  }

  lemma {:induction false} VisitsCounted(v: Vol, disk: Disk, cluster: u32, left: nat, j: nat)
    requires Goes(v, disk, cluster, j)
    ensures left <= Counted(v.g.spc, j + 1, 0) ==> |Visits(v, disk, cluster, left)| == left
    ensures left > Counted(v.g.spc, j + 1, 0) && IsEnd(ClusterAt(v, disk, cluster, j + 1)) ==>
      |Visits(v, disk, cluster, left)| == Counted(v.g.spc, j + 1, 0)
    decreases j
  {
    hide Visits, NextCluster, Goes;
    var next := NextCluster(v, disk, cluster);
    VisitsLength(v, disk, cluster, left);
    if j == 0 {
      assert ClusterAt(v, disk, cluster, 1) == ClusterAt(v, disk, next, 0);
      assert Counted(v.g.spc, 1, 0) == v.g.spc + Counted(v.g.spc, 0, 0);
    } else if left > v.g.spc {
      GoesOn(v, disk, cluster, j);
      VisitsCounted(v, disk, next, left - v.g.spc, j - 1);
    }
  }

  /** An iteration over `left` sectors visits them all if the chain has the clusters for them; a
      chain that ends after j + 1 clusters gives just the sectors of those. */
  lemma VisitCount(v: Vol, disk: Disk, cluster: u32, left: nat, j: nat)
    requires Goes(v, disk, cluster, j)
    ensures left <= (j + 1) * v.g.spc ==> |Visits(v, disk, cluster, left)| == left
    ensures left > (j + 1) * v.g.spc && IsEnd(ClusterAt(v, disk, cluster, j + 1)) ==>
      |Visits(v, disk, cluster, left)| == (j + 1) * v.g.spc
  {
    CountedIs(v.g.spc, j + 1, 0);
    VisitsCounted(v, disk, cluster, left, j);
  }

  lemma VisitsFirst(v: Vol, disk: Disk, cluster: u32, left: nat, k: nat)
    requires k < v.g.spc && k < |Visits(v, disk, cluster, left)|
    ensures Visits(v, disk, cluster, left)[k] == Visit(cluster, FirstSector(v.g, cluster) + k)
  {}

  lemma VisitsLater(v: Vol, disk: Disk, cluster: u32, left: nat, k: nat)
    requires v.g.spc <= k < |Visits(v, disk, cluster, left)|
    ensures left > v.g.spc && k - v.g.spc < |Visits(v, disk, NextCluster(v, disk, cluster), left - v.g.spc)|
    ensures Visits(v, disk, cluster, left)[k]
         == Visits(v, disk, NextCluster(v, disk, cluster), left - v.g.spc)[k - v.g.spc]
  {}

  /** The k-th sector of the file, for clusters of `spc` sectors. */
  function FileVisit(v: Vol, disk: Disk, cluster: u32, j: nat, rest: nat): Visit {
    var c := ClusterAt(v, disk, cluster, j);
    Visit(c, FirstSector(v.g, c) + rest)
  }

  lemma {:induction false} VisitOf(v: Vol, disk: Disk, cluster: u32, left: nat, j: nat, rest: nat)
    requires Counted(v.g.spc, j, rest) < |Visits(v, disk, cluster, left)| && rest < v.g.spc
    ensures Visits(v, disk, cluster, left)[Counted(v.g.spc, j, rest)] == FileVisit(v, disk, cluster, j, rest)
    decreases j
  {
    if j == 0 {
      VisitsFirst(v, disk, cluster, left, rest);
    } else {
      VisitsLater(v, disk, cluster, left, Counted(v.g.spc, j, rest));
      VisitOf(v, disk, NextCluster(v, disk, cluster), left - v.g.spc, j - 1, rest);
    }
  }

  /** Sector k of the file: sector k mod spc of the chain's cluster k / spc. */
  function NthVisit(v: Vol, disk: Disk, cluster: u32, k: nat): Visit {
    FileVisit(v, disk, cluster, k / v.g.spc, k % v.g.spc)
  }

  lemma VisitAt(v: Vol, disk: Disk, cluster: u32, left: nat, k: nat)
    requires k < |Visits(v, disk, cluster, left)|
    ensures Visits(v, disk, cluster, left)[k] == NthVisit(v, disk, cluster, k)
  {
    var spc: nat := v.g.spc;
    assert spc > 0;
    Split(k, spc);
    CountedIs(spc, k / spc, k % spc);
    VisitOf(v, disk, cluster, left, k / spc, k % spc);
  }

  lemma Split(k: nat, d: nat)
    requires d > 0
    ensures k / d >= 0 && 0 <= k % d < d && k == k / d * d + k % d
  {}

  lemma {:induction false} VisitsAreData(v: Vol, disk: Disk, cluster: u32, left: nat)
    ensures DataVisits(v.g, Visits(v, disk, cluster, left))
    decreases left
  {
    if left > 0 {
      var next := NextCluster(v, disk, cluster);
      if !IsEnd(next) {
        VisitsAreData(v, disk, next, left - if left > v.g.spc then v.g.spc else left);
      }
    }
  }

  // ----- where a cluster's sectors are ------------------------------------------------------

  /** The cluster is one of the data area and its place is below 2^32 sectors. */
  predicate InRange(g: Geometry, cluster: u32) {
    cluster >= FIRST_CLUSTER && (cluster - FIRST_CLUSTER + 1) * g.spc <= 0x1_0000_0000
  }

  lemma FirstSectorIs(g: Geometry, cluster: u32)
    requires GeometryOk(g) && InRange(g, cluster)
    ensures FirstSector(g, cluster) == DataStart(g) + (cluster - FIRST_CLUSTER) * g.spc
  {
    var c := cluster - FIRST_CLUSTER;
    OneMore(c, g.spc);
    assert (cluster + 0x1_0000_0000 - FIRST_CLUSTER) % 0x1_0000_0000 == c;
  }

  lemma Apart(a: nat, b: nat, d: nat, i: nat, j: nat)
    requires a < b && i < d && j < d
    ensures a * d + i < b * d + j
  {
    Bits.ScaleAtLeast(b - a, d);
    assert b * d == a * d + (b - a) * d;
  }

  lemma SectorsApart(g: Geometry, a: u32, b: u32, i: nat, j: nat)
    requires GeometryOk(g) && InRange(g, a) && InRange(g, b) && a != b && i < g.spc && j < g.spc
    ensures FirstSector(g, a) + i != FirstSector(g, b) + j
  {
    FirstSectorIs(g, a);
    FirstSectorIs(g, b);
    if a < b {
      Apart(a - FIRST_CLUSTER, b - FIRST_CLUSTER, g.spc, i, j);
    } else {
      Apart(b - FIRST_CLUSTER, a - FIRST_CLUSTER, g.spc, j, i);
    }
  }

  // ----- what writing over a list of sectors leaves -----------------------------------------

  predicate Distinct(vs: seq<Visit>) {
    forall a, b :: 0 <= a < b < |vs| ==> vs[a].sector != vs[b].sector
  }

  /** How many pieces the image has. */
  function Pieces(cb: Callback): nat
    requires cb.WriteImage?
  {
    CeilDiv(cb.srcEnd, PIECE)
  }

  /** Piece k of the image. */
  function PieceAt(cb: Callback, k: nat): Sector
    requires cb.WriteImage? && CallbackOk(cb) && k < Pieces(cb)
  {
    cb.mem[k * PIECE..k * PIECE + PIECE]
  }

  lemma PieceInMemory(cb: Callback, k: nat)
    requires cb.WriteImage? && CallbackOk(cb)
    ensures (k * PIECE) % PIECE == 0
    ensures k * PIECE < cb.srcEnd <==> k < Pieces(cb)
  {}

  /** The state before piece n. */
  predicate Before(cb: Callback, s: State, n: nat) {
    cb.WriteImage? && CallbackOk(cb) && s.src == n * PIECE && !s.stop
  }

  /** From piece n on, `w` visits can be written: so many are accessible and have a piece. */
  predicate Writable(v: Vol, cb: Callback, disk: Disk, n: nat, vs: seq<Visit>, w: nat)
    requires cb.WriteImage?
  {
    && w <= |vs| && n + w <= Pieces(cb)
    && forall k :: 0 <= k < w ==> Accessible(v, disk, vs[k].sector)
  }

  /** The visit after those w cannot, because there is none, or no piece, or no access. */
  predicate EndsAt(v: Vol, cb: Callback, disk: Disk, n: nat, vs: seq<Visit>, w: nat)
    requires cb.WriteImage?
  {
    w == |vs| || (w < |vs| && (n + w == Pieces(cb) || !Accessible(v, disk, vs[w].sector)))
  }

  function WriteFailure(v: Vol): int {
    if v.writeError == 0 then ERR_GENERIC else v.writeError
  }

  /** Disk sector i is not one of the first w. */
  predicate Untouched(v: Vol, vs: seq<Visit>, w: nat, i: nat)
    requires w <= |vs|
  {
    forall k :: 0 <= k < w ==> i != v.start + vs[k].sector
  }

  /** Piece n + k stands on the k-th visited sector, and all other sectors are as before. */
  predicate Placed(v: Vol, cb: Callback, old_: Disk, n: nat, vs: seq<Visit>, w: nat, new_: Disk)
    requires cb.WriteImage? && CallbackOk(cb) && Writable(v, cb, old_, n, vs, w)
  {
    && |new_| == |old_|
    && (forall k :: 0 <= k < w ==> new_[v.start + vs[k].sector] == PieceAt(cb, n + k))
    && (forall i {:trigger new_[i]} :: 0 <= i < |old_| && Untouched(v, vs, w, i) ==> new_[i] == old_[i])
  }

  /** The error is set exactly when there was a piece for a sector that could not be written. */
  predicate Ended(v: Vol, cb: Callback, s: State, n: nat, vs: seq<Visit>, w: nat, r: State)
    requires cb.WriteImage? && w <= |vs|
  {
    && r.src == (n + w) * PIECE
    && r.err == (if w == |vs| || n + w == Pieces(cb) then s.err else WriteFailure(v))
    && r.calls == s.calls + vs[..if w == |vs| then w else w + 1]
    && r.stop == (w < |vs|)
  }

  lemma PlacedFirst(v: Vol, cb: Callback, disk: Disk, n: nat, vs: seq<Visit>, w: nat, mid: Disk, new_: Disk)
    requires cb.WriteImage? && CallbackOk(cb) && Distinct(vs) && w > 0
    requires Writable(v, cb, disk, n, vs, w) && Writable(v, cb, mid, n + 1, vs[1..], w - 1)
    requires Accessible(v, disk, vs[0].sector) && mid == disk[v.start + vs[0].sector := PieceAt(cb, n)]
    requires Placed(v, cb, mid, n + 1, vs[1..], w - 1, new_)
    ensures Placed(v, cb, disk, n, vs, w, new_)
  {
    forall k | 0 <= k < w ensures new_[v.start + vs[k].sector] == PieceAt(cb, n + k) {
      if k > 0 {
        assert vs[1..][k - 1] == vs[k];
      }
    }
    forall i | 0 <= i < |disk| && Untouched(v, vs, w, i)
      ensures new_[i] == disk[i]
    {
      assert forall k :: 0 <= k < w - 1 ==> vs[1..][k] == vs[k + 1];
    }
  }

  lemma EndedFirst(v: Vol, cb: Callback, s: State, n: nat, vs: seq<Visit>, w: nat, s1: State, r: State)
    requires cb.WriteImage? && 0 < w <= |vs|
    requires s1.calls == s.calls + [vs[0]] && s1.err == s.err
    requires Ended(v, cb, s1, n + 1, vs[1..], w - 1, r)
    ensures Ended(v, cb, s, n, vs, w, r)
  {
    var m := if w == |vs| then w else w + 1;
    assert vs[..m] == [vs[0]] + vs[1..][..m - 1];
  }

  lemma FoldNone(v: Vol, cb: Callback, s: State, n: nat, vs: seq<Visit>)
    requires Before(cb, s, n) && Writable(v, cb, s.disk, n, vs, 0) && EndsAt(v, cb, s.disk, n, vs, 0)
    ensures s.src % PIECE == 0
    ensures Fold(v, cb, s, vs).disk == s.disk
    ensures Ended(v, cb, s, n, vs, 0, Fold(v, cb, s, vs))
  {
    PieceInMemory(cb, n);
    if vs != [] {
      var s1 := Call(v, cb, s, vs[0]);
      assert s1.stop && Fold(v, cb, s1, vs[1..]) == s1;
      assert vs[..1] == [vs[0]];
    }
  }

  lemma FoldOne(v: Vol, cb: Callback, s: State, n: nat, vs: seq<Visit>) returns (s1: State)
    requires Before(cb, s, n) && vs != [] && n < Pieces(cb) && Accessible(v, s.disk, vs[0].sector)
    ensures s.src % PIECE == 0 && Before(cb, s1, n + 1) && s1.src % PIECE == 0
    ensures s1.disk == s.disk[v.start + vs[0].sector := PieceAt(cb, n)]
    ensures s1.err == s.err && s1.calls == s.calls + [vs[0]]
    ensures Fold(v, cb, s, vs) == Fold(v, cb, s1, vs[1..])
  {
    PieceInMemory(cb, n);
    s1 := Call(v, cb, s, vs[0]);
  }

  /** The first of w > 0 writes, and what then holds of the others. */
  lemma OneMoreWrite(v: Vol, cb: Callback, s: State, n: nat, vs: seq<Visit>, w: nat) returns (s1: State)
    requires Before(cb, s, n) && w > 0
    requires Writable(v, cb, s.disk, n, vs, w) && EndsAt(v, cb, s.disk, n, vs, w)
    ensures vs != [] && n < Pieces(cb) && Accessible(v, s.disk, vs[0].sector)
    ensures s.src % PIECE == 0 && Before(cb, s1, n + 1) && s1.src % PIECE == 0
    ensures s1.disk == s.disk[v.start + vs[0].sector := PieceAt(cb, n)]
    ensures s1.err == s.err && s1.calls == s.calls + [vs[0]]
    ensures Fold(v, cb, s, vs) == Fold(v, cb, s1, vs[1..])
    ensures Writable(v, cb, s1.disk, n + 1, vs[1..], w - 1) && EndsAt(v, cb, s1.disk, n + 1, vs[1..], w - 1)
    ensures Distinct(vs) ==> Distinct(vs[1..])
  {
    assert Accessible(v, s.disk, vs[0].sector);
    s1 := FoldOne(v, cb, s, n, vs);
    hide Fold, PieceAt;
    assert forall k :: 0 <= k < |vs| - 1 ==> vs[1..][k] == vs[k + 1];
  }

  /** Writing over a list of different sectors until the callback stops. */
  lemma {:induction false} FoldPlaces(v: Vol, cb: Callback, s: State, n: nat, vs: seq<Visit>, w: nat)
    requires Before(cb, s, n) && Distinct(vs)
    requires Writable(v, cb, s.disk, n, vs, w) && EndsAt(v, cb, s.disk, n, vs, w)
    ensures s.src % PIECE == 0
    ensures Placed(v, cb, s.disk, n, vs, w, Fold(v, cb, s, vs).disk)
    decreases w
  {
    if w == 0 {
      FoldNone(v, cb, s, n, vs);
    } else {
      var s1 := OneMoreWrite(v, cb, s, n, vs, w);
      var rest := vs[1..];
      hide Placed, Writable, EndsAt, Accessible, Distinct, PieceAt, Before, Fold;
      FoldPlaces(v, cb, s1, n + 1, rest, w - 1);
      PlacedFirst(v, cb, s.disk, n, vs, w, s1.disk, Fold(v, cb, s1, rest).disk);
    }
  }

  /** The callback's context at the end of that. */
  lemma {:induction false} FoldEnds(v: Vol, cb: Callback, s: State, n: nat, vs: seq<Visit>, w: nat)
    requires Before(cb, s, n)
    requires Writable(v, cb, s.disk, n, vs, w) && EndsAt(v, cb, s.disk, n, vs, w)
    ensures s.src % PIECE == 0
    ensures Ended(v, cb, s, n, vs, w, Fold(v, cb, s, vs))
    decreases w
  {
    if w == 0 {
      FoldNone(v, cb, s, n, vs);
    } else {
      var s1 := OneMoreWrite(v, cb, s, n, vs, w);
      var rest := vs[1..];
      hide Ended, Writable, EndsAt, Accessible, PieceAt, Before, Fold;
      FoldEnds(v, cb, s1, n + 1, rest, w - 1);
      EndedFirst(v, cb, s, n, vs, w, s1, Fold(v, cb, s1, rest));
    }
  }

  /** How many of the visits get a piece, from piece n on. */
  function WriteCount(v: Vol, cb: Callback, disk: Disk, n: nat, vs: seq<Visit>): nat
    requires cb.WriteImage?
    decreases |vs|
  {
    if vs == [] || n >= Pieces(cb) || !Accessible(v, disk, vs[0].sector) then 0
    else 1 + WriteCount(v, cb, disk, n + 1, vs[1..])
  }

  lemma {:induction false} WriteCountIs(v: Vol, cb: Callback, disk: Disk, n: nat, vs: seq<Visit>)
    requires cb.WriteImage? && n <= Pieces(cb)
    ensures Writable(v, cb, disk, n, vs, WriteCount(v, cb, disk, n, vs))
    ensures EndsAt(v, cb, disk, n, vs, WriteCount(v, cb, disk, n, vs))
    decreases |vs|
  {
    if vs != [] && n < Pieces(cb) && Accessible(v, disk, vs[0].sector) {
      var rest := vs[1..];
      WriteCountIs(v, cb, disk, n + 1, rest);
      var w := WriteCount(v, cb, disk, n + 1, rest);
      forall k | 0 <= k < w + 1 ensures Accessible(v, disk, vs[k].sector) {
        if k > 0 {
          assert rest[k - 1] == vs[k];
        }
      }
    }
  }

  // ----- the image on the disk --------------------------------------------------------------

  /** The chain has n clusters, each once, all of the data area. */
  predicate ChainOk(v: Vol, disk: Disk, cluster: u32, n: nat) {
    && Acyclic(v, disk, cluster, n)
    && forall j :: 0 <= j < n ==> InRange(v.g, ClusterAt(v, disk, cluster, j))
  }

  /** The file's sectors, in order, as the table on `disk` gives them. */
  function FileSectors(v: Vol, disk: Disk, cluster: u32, size: u32): seq<Visit> {
    Visits(v, disk, cluster, SizeSectors(v.g, size))
  }

  /** The cluster of the chain and the sector in it that visit k is to. */
  lemma VisitIn(v: Vol, disk: Disk, cluster: u32, left: nat, k: nat) returns (j: nat, rest: nat)
    requires k < |Visits(v, disk, cluster, left)|
    ensures Visits(v, disk, cluster, left)[k] == FileVisit(v, disk, cluster, j, rest)
    ensures rest < v.g.spc && k == j * v.g.spc + rest
    ensures j < CeilDiv(left, v.g.spc)
  {
    VisitAt(v, disk, cluster, left, k);
    Split(k, v.g.spc);
    j, rest := k / v.g.spc, k % v.g.spc;
    VisitBound(v, disk, cluster, left);
    ClusterInChain(v.g.spc, j, rest, left);
  }

  lemma {:induction false} VisitBound(v: Vol, disk: Disk, cluster: u32, left: nat)
    ensures |Visits(v, disk, cluster, left)| <= left
    decreases left
  {
    VisitsLength(v, disk, cluster, left);
    if left > v.g.spc {
      VisitBound(v, disk, NextCluster(v, disk, cluster), left - v.g.spc);
    }
  }

  lemma ClusterInChain(spc: nat, j: nat, rest: nat, left: nat)
    requires spc > 0 && j * spc + rest < left
    ensures j < CeilDiv(left, spc)
  {
    var q := (left - 1) / spc;
    Split(left - 1, spc);
    if j > q {
      Bits.ScaleAtLeast(j - q, spc);
    }
  }

  lemma VisitsDistinct(v: Vol, disk: Disk, cluster: u32, left: nat)
    requires ChainOk(v, disk, cluster, CeilDiv(left, v.g.spc))
    ensures Distinct(Visits(v, disk, cluster, left))
  {
    var vs := Visits(v, disk, cluster, left);
    forall a, b | 0 <= a < b < |vs| ensures vs[a].sector != vs[b].sector {
      var i, r := VisitIn(v, disk, cluster, left, a);
      var j, t := VisitIn(v, disk, cluster, left, b);
      PlaceDiffers(v, disk, cluster, CeilDiv(left, v.g.spc), i, r, j, t);
    }
  }

  lemma PlaceDiffers(v: Vol, disk: Disk, cluster: u32, n: nat, i: nat, r: nat, j: nat, t: nat)
    requires ChainOk(v, disk, cluster, n) && i < n && j < n && r < v.g.spc && t < v.g.spc
    requires (i, r) != (j, t)
    ensures FileVisit(v, disk, cluster, i, r).sector != FileVisit(v, disk, cluster, j, t).sector
  {
    if i != j {
      var a, b := ClusterAt(v, disk, cluster, i), ClusterAt(v, disk, cluster, j);
      assert a != b;
      SectorsApart(v.g, a, b, r, t);
    }
  }

  /** The bytes on the sectors of a list, in order. */
  function ReadOver(v: Vol, disk: Disk, vs: seq<Visit>): seq<byte>
    requires forall k :: 0 <= k < |vs| ==> v.start + vs[k].sector < |disk|
  {
    if vs == [] then []
    else
      var last := vs[|vs| - 1];
      ReadOver(v, disk, vs[..|vs| - 1]) + disk[v.start + last.sector]
  }

  /** How many pieces the image and the file both have. */
  function Fitting(cb: Callback, vs: seq<Visit>): nat
    requires cb.WriteImage?
  {
    if Pieces(cb) < |vs| then Pieces(cb) else |vs|
  }

  /** The pieces write_image_to_sd puts on the disk. */
  function WrittenPieces(v: Vol, mem: seq<byte>, srcEnd: nat, disk: Disk, cluster: u32, size: u32): nat {
    WriteCount(v, WriteImage(mem, srcEnd), disk, 0, FileSectors(v, disk, cluster, size))
  }

  /** write_image_to_sd, with the table read between the writes: every piece up to the first
      inaccessible sector is on the file's sector of the same number, no other sector of the disk
      changed, and the table still gives the same sectors for the file. No error is reported
      exactly when all pieces that the image and the file both have were written; an image longer
      than the file is cut silently. */
  lemma ImageWritten(v: Vol, mem: seq<byte>, srcEnd: nat, disk: Disk, cluster: u32, size: u32)
    requires TableInFront(v.g) && CallbackOk(WriteImage(mem, srcEnd))
    requires ChainOk(v, disk, cluster, CeilDiv(SizeSectors(v.g, size), v.g.spc))
    ensures (
      var vs := FileSectors(v, disk, cluster, size);
      var cb := WriteImage(mem, srcEnd);
      var w := WrittenPieces(v, mem, srcEnd, disk, cluster, size);
      var r := Written(v, mem, srcEnd, disk, cluster, size);
      && Writable(v, cb, disk, 0, vs, w)
      && Placed(v, cb, disk, 0, vs, w, r.disk)
      && (r.err == ERR_OK <==> w == Fitting(cb, vs))
      && (w < Fitting(cb, vs) ==> !Accessible(v, disk, vs[w].sector))
      && SameTable(v, disk, r.disk)
      && FileSectors(v, r.disk, cluster, size) == vs)
  {
    var vs := FileSectors(v, disk, cluster, size);
    var cb := WriteImage(mem, srcEnd);
    var s := State(disk, 0, ERR_OK, [], false);
    VisitsDistinct(v, disk, cluster, SizeSectors(v.g, size));
    WritesDoNotMoveTheFile(v, cb, s, cluster, SizeSectors(v.g, size));
    WriteCountIs(v, cb, disk, 0, vs);
    FoldPlaces(v, cb, s, 0, vs, WriteCount(v, cb, disk, 0, vs));
    FoldEnds(v, cb, s, 0, vs, WriteCount(v, cb, disk, 0, vs));
    SameVisits(v, disk, Written(v, mem, srcEnd, disk, cluster, size).disk, cluster, SizeSectors(v.g, size));
  }

  /** Iterating with the other callback lists the file's sectors and changes nothing. */
  lemma PrintedSectors(v: Vol, disk: Disk, cluster: u32, size: u32)
    requires TableInFront(v.g)
    ensures Clusters(v, PrintSector, State(disk, 0, ERR_OK, [], false), cluster, SizeSectors(v.g, size))
         == State(disk, 0, ERR_OK, FileSectors(v, disk, cluster, size), false)
  {
    var s := State(disk, 0, ERR_OK, [], false);
    WritesDoNotMoveTheFile(v, PrintSector, s, cluster, SizeSectors(v.g, size));
    FoldPrints(v, s, FileSectors(v, disk, cluster, size));
  }

  lemma {:induction false} FoldPrints(v: Vol, s: State, vs: seq<Visit>)
    requires s.src % PIECE == 0 && !s.stop
    ensures Fold(v, PrintSector, s, vs) == s.(calls := s.calls + vs)
    decreases |vs|
  {
    if vs == [] {
      assert s.calls + vs == s.calls;
    } else {
      FoldPrints(v, Call(v, PrintSector, s, vs[0]), vs[1..]);
      assert (s.calls + [vs[0]]) + vs[1..] == s.calls + vs;
    }
  }

  /** Iterating over the file again after the write reads the written part of the image back. */
  lemma ImageReadBack(v: Vol, mem: seq<byte>, srcEnd: nat, disk: Disk, cluster: u32, size: u32)
    requires TableInFront(v.g) && CallbackOk(WriteImage(mem, srcEnd))
    requires ChainOk(v, disk, cluster, CeilDiv(SizeSectors(v.g, size), v.g.spc))
    ensures (
      var r := Written(v, mem, srcEnd, disk, cluster, size);
      var vs := FileSectors(v, r.disk, cluster, size);
      var w := WrittenPieces(v, mem, srcEnd, disk, cluster, size);
      && w <= |vs| && w * PIECE <= |mem|
      && (forall k :: 0 <= k < w ==> v.start + vs[k].sector < |r.disk|)
      && ReadOver(v, r.disk, vs[..w]) == mem[..w * PIECE])
  {
    ImageWritten(v, mem, srcEnd, disk, cluster, size);
    var r := Written(v, mem, srcEnd, disk, cluster, size);
    var w := WrittenPieces(v, mem, srcEnd, disk, cluster, size);
    ReadPieces(v, WriteImage(mem, srcEnd), disk, FileSectors(v, disk, cluster, size), r.disk, w, w);
  }

  lemma {:induction false} ReadPieces(v: Vol, cb: Callback, disk: Disk, vs: seq<Visit>, new_: Disk, w: nat, n: nat)
    requires cb.WriteImage? && CallbackOk(cb) && Writable(v, cb, disk, 0, vs, w)
    requires Placed(v, cb, disk, 0, vs, w, new_) && n <= w
    ensures forall k :: 0 <= k < n ==> v.start + vs[k].sector < |new_|
    ensures n * PIECE <= |cb.mem|
    ensures ReadOver(v, new_, vs[..n]) == cb.mem[..n * PIECE]
    decreases n
  {
    if n > 0 {
      ReadPieces(v, cb, disk, vs, new_, w, n - 1);
      assert Accessible(v, disk, vs[n - 1].sector);
      assert vs[..n][..n - 1] == vs[..n - 1];
      assert new_[v.start + vs[n - 1].sector] == PieceAt(cb, 0 + (n - 1));
      assert cb.mem[..n * PIECE] == cb.mem[..(n - 1) * PIECE] + PieceAt(cb, n - 1);
    }
  }

  /** A callback is called on the visits in order, on all of them unless it stops. */
  lemma {:induction false} FoldCalls(v: Vol, cb: Callback, s: State, vs: seq<Visit>) returns (n: nat)
    requires CallbackOk(cb) && s.src % PIECE == 0
    ensures n <= |vs| && Fold(v, cb, s, vs).calls == s.calls + vs[..n]
    ensures !Fold(v, cb, s, vs).stop ==> n == |vs|
    decreases |vs|
  {
    if s.stop || vs == [] {
      n := 0;
      assert s.calls + vs[..0] == s.calls;
    } else {
      var m := FoldCalls(v, cb, Call(v, cb, s, vs[0]), vs[1..]);
      n := m + 1;
      assert vs[..n] == [vs[0]] + vs[1..][..m];
      assert s.calls + [vs[0]] + vs[1..][..m] == s.calls + ([vs[0]] + vs[1..][..m]);
    }
  }

  /** A file whose sectors are counted right and whose chain is long enough is visited sector by
      sector, ceil(size / sectorSize) of them; a chain that ends sooner gives its own sectors. */
  lemma FileVisits(v: Vol, disk: Disk, cluster: u32, size: u32, j: nat)
    requires size + v.g.sectorSize <= 0x1_0000_0000 && Goes(v, disk, cluster, j)
    ensures |FileSectors(v, disk, cluster, size)| <= CeilDiv(size, v.g.sectorSize)
    ensures CeilDiv(size, v.g.sectorSize) <= (j + 1) * v.g.spc ==>
      |FileSectors(v, disk, cluster, size)| == CeilDiv(size, v.g.sectorSize)
    ensures CeilDiv(size, v.g.sectorSize) > (j + 1) * v.g.spc && IsEnd(ClusterAt(v, disk, cluster, j + 1)) ==>
      |FileSectors(v, disk, cluster, size)| == (j + 1) * v.g.spc
    ensures forall k :: 0 <= k < |FileSectors(v, disk, cluster, size)| ==>
      FileSectors(v, disk, cluster, size)[k] == NthVisit(v, disk, cluster, k)
  {
    hide Visits, NthVisit, Goes;
    SizeSectorsExact(v.g, size);
    VisitBound(v, disk, cluster, SizeSectors(v.g, size));
    VisitCount(v, disk, cluster, SizeSectors(v.g, size), j);
    forall k | 0 <= k < |FileSectors(v, disk, cluster, size)|
      ensures FileSectors(v, disk, cluster, size)[k] == NthVisit(v, disk, cluster, k)
    {
      VisitAt(v, disk, cluster, SizeSectors(v.g, size), k);
    }
  }

  /** Any callback is called on sector 0, 1, 2, ... of the file; on all that FileVisits counts, unless
      it stops before. */
  lemma CalledBack(v: Vol, cb: Callback, disk: Disk, cluster: u32, size: u32)
    requires TableInFront(v.g) && CallbackOk(cb)
    ensures (
      var r := Clusters(v, cb, State(disk, 0, ERR_OK, [], false), cluster, SizeSectors(v.g, size));
      && r.calls <= FileSectors(v, disk, cluster, size)
      && (!r.stop ==> r.calls == FileSectors(v, disk, cluster, size)))
  {
    var s := State(disk, 0, ERR_OK, [], false);
    WritesDoNotMoveTheFile(v, cb, s, cluster, SizeSectors(v.g, size));
    var n := FoldCalls(v, cb, s, FileSectors(v, disk, cluster, size));
    var vs := FileSectors(v, disk, cluster, size);
    assert [] + vs[..n] == vs[..n] && vs[..|vs|] == vs;
  }

  /** The whole file can be written: its chain has different clusters of the data area for all its
      sectors, and each of these can be accessed. */
  predicate FileOk(v: Vol, disk: Disk, cluster: u32, size: u32, clusters: nat) {
    && size + v.g.sectorSize <= 0x1_0000_0000
    && CeilDiv(CeilDiv(size, v.g.sectorSize), v.g.spc) == clusters
    && ChainOk(v, disk, cluster, clusters)
    && (clusters > 0 ==> Goes(v, disk, cluster, clusters - 1))
    && forall k :: 0 <= k < CeilDiv(size, v.g.sectorSize) ==> Accessible(v, disk, NthVisit(v, disk, cluster, k).sector)
  }

  /** The image on a file that can hold it: no error, and piece k is on sector k mod spc of the
      chain's cluster k / spc for every k that both the image and the file have. */
  lemma ImageInPlace(v: Vol, mem: seq<byte>, srcEnd: nat, disk: Disk, cluster: u32, size: u32, clusters: nat)
    requires TableInFront(v.g) && CallbackOk(WriteImage(mem, srcEnd))
    requires FileOk(v, disk, cluster, size, clusters)
    ensures Written(v, mem, srcEnd, disk, cluster, size).err == ERR_OK
    ensures forall k :: 0 <= k < CeilDiv(size, v.g.sectorSize) && k < CeilDiv(srcEnd, PIECE) ==>
      v.start + NthVisit(v, disk, cluster, k).sector < |Written(v, mem, srcEnd, disk, cluster, size).disk|
      && Written(v, mem, srcEnd, disk, cluster, size).disk[v.start + NthVisit(v, disk, cluster, k).sector]
         == PieceAt(WriteImage(mem, srcEnd), k)
  {
    hide NthVisit, Goes, ChainOk, Written, PieceAt;
    var vs, cb := FileSectors(v, disk, cluster, size), WriteImage(mem, srcEnd);
    SizeSectorsExact(v.g, size);
    ImageWritten(v, mem, srcEnd, disk, cluster, size);
    WholeFile(v, disk, cluster, size, clusters);
    assert WrittenPieces(v, mem, srcEnd, disk, cluster, size) == Fitting(cb, vs);
  }

  lemma WholeFile(v: Vol, disk: Disk, cluster: u32, size: u32, clusters: nat)
    requires FileOk(v, disk, cluster, size, clusters)
    ensures |FileSectors(v, disk, cluster, size)| == CeilDiv(size, v.g.sectorSize)
    ensures forall k :: 0 <= k < CeilDiv(size, v.g.sectorSize) ==>
      FileSectors(v, disk, cluster, size)[k] == NthVisit(v, disk, cluster, k)
  {
    hide NthVisit, Goes, ChainOk, Accessible;
    if clusters > 0 {
      CeilCovers(CeilDiv(size, v.g.sectorSize), v.g.spc);
      FileVisits(v, disk, cluster, size, clusters - 1);
    } else {
      SizeSectorsExact(v.g, size);
    }
  }

  lemma CeilCovers(n: nat, d: nat)
    requires d > 0 && n > 0
    ensures n <= CeilDiv(n, d) * d && CeilDiv(n, d) > 0
  {
    Split(n - 1, d);
    OneMore((n - 1) / d, d);
  }
}
