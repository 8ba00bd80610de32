/** What a file allocation table means, byte by byte, and what write_image_to_sd does to a file whose
    chain such a table holds. Nothing here is stated through the functions that the code computes with. */
module Fat32Table {
  import opened CTypes
  import opened Fat32
  import opened Fat32Image
  import Bits

  /** The table's entry for cluster c is the word w: four bytes, lowest first, in the entry's place. */
  predicate EntryHolds(v: Vol, disk: Disk, c: u32, w: u32) {
    var entries := v.g.sectorSize / 4;
    var sector := v.g.reserved + c / entries;
    var at := 4 * (c % entries);
    && sector <= v.g.sectorsPerFat && v.start + sector < |disk| && v.start + sector !in v.bad
    && var s := disk[v.start + sector];
       && s[at] == w % 0x100 && s[at + 1] == w / 0x100 % 0x100
       && s[at + 2] == w / 0x1_0000 % 0x100 && s[at + 3] == w / 0x100_0000
  }

  /** The table holds the chain `list`: each cluster's entry is the next cluster, and the entry of the
      last one is one of the two end marks that the code knows. */
  predicate TableHolds(v: Vol, disk: Disk, list: seq<u32>, last: u32) {
    && list != [] && (last == 0x0fff_ffff || last == 0x0fff_fff8)
    && (forall j :: 0 <= j < |list| ==> list[j] != 0x0fff_ffff && list[j] != 0x0fff_fff8)
    && forall j {:trigger list[j]} :: 0 <= j < |list| ==>
         EntryHolds(v, disk, list[j], if j + 1 < |list| then list[j + 1] else last)
  }

  /** The clusters are in the data area, and none so far out that the 32-bit product wraps. */
  predicate ListInRange(g: Geometry, list: seq<u32>) {
    forall j :: 0 <= j < |list| ==> 2 <= list[j] && (list[j] - 1) * g.spc <= 0x1_0000_0000
  }

  /** The cluster that holds sector k of the file. */
  function ClusterOf(g: Geometry, list: seq<u32>, k: nat): u32
    requires GeometryOk(g)
  {
    if k / g.spc < |list| then list[k / g.spc] else 0
  }

  /** The sector of the partition that holds sector k of the file. */
  function Place(g: Geometry, list: seq<u32>, k: nat): int
    requires GeometryOk(g)
  {
    g.reserved + g.fats * g.sectorsPerFat + (ClusterOf(g, list, k) - 2) * g.spc + k % g.spc
  }

  /** ceil(size / sectorSize) */
  function FileLength(g: Geometry, size: u32): nat
    requires GeometryOk(g)
  {
    (size + g.sectorSize - 1) / g.sectorSize
  }

  /** The chain has a sector for every sector of the file. */
  predicate ListCovers(g: Geometry, list: seq<u32>, size: u32)
    requires GeometryOk(g)
  {
    FileLength(g, size) <= |list| * g.spc
  }

  lemma BytesOf(w: u32)
    ensures w == w % 0x100 + 0x100 * (w / 0x100 % 0x100) + 0x1_0000 * (w / 0x1_0000 % 0x100)
                 + 0x100_0000 * (w / 0x100_0000)
  {
    Bits.DivDiv(w, 0x100, 0x100);
    Bits.DivDiv(w, 0x1_0000, 0x100);
  }

  /** The code reads the word that the table holds. */
  lemma EntryIsRead(v: Vol, disk: Disk, c: u32, w: u32)
    requires EntryHolds(v, disk, c, w)
    ensures NextCluster(v, disk, c) == w
  {
    BytesOf(w);
  }

  lemma TailHolds(v: Vol, disk: Disk, list: seq<u32>, last: u32)
    requires TableHolds(v, disk, list, last) && |list| > 1
    ensures TableHolds(v, disk, list[1..], last)
    ensures NextCluster(v, disk, list[0]) == list[1]
  {
    hide EntryHolds, NextCluster;
    assert EntryHolds(v, disk, list[0], list[1]);
    EntryIsRead(v, disk, list[0], list[1]);
    var tail := list[1..];
    forall j | 0 <= j < |tail|
      ensures tail[j] != 0x0fff_ffff && tail[j] != 0x0fff_fff8
      ensures EntryHolds(v, disk, tail[j], if j + 1 < |tail| then tail[j + 1] else last)
    {
      assert tail[j] == list[j + 1];
    }
  }

  /** Following the table gives the list, and then its end mark. */
  lemma {:induction false} ChainIsList(v: Vol, disk: Disk, list: seq<u32>, last: u32, j: nat)
    requires TableHolds(v, disk, list, last) && j <= |list|
    ensures ClusterAt(v, disk, list[0], j) == if j < |list| then list[j] else last
    decreases j
  {
    if j > 0 {
      if |list| > 1 {
        hide NextCluster, TableHolds;
        TailHolds(v, disk, list, last);
        ChainIsList(v, disk, list[1..], last, j - 1);
      } else {
        assert EntryHolds(v, disk, list[0], last);
        EntryIsRead(v, disk, list[0], last);
        hide NextCluster, EntryHolds;
        assert ClusterAt(v, disk, list[0], 1) == ClusterAt(v, disk, last, 0);
      }
    }
  }

  lemma ListGoes(v: Vol, disk: Disk, list: seq<u32>, last: u32)
    requires TableHolds(v, disk, list, last)
    ensures Goes(v, disk, list[0], |list| - 1) && IsEnd(ClusterAt(v, disk, list[0], |list|))
  {
    hide EntryHolds, ClusterAt;
    forall i | 0 < i <= |list| - 1
      ensures !IsEnd(ClusterAt(v, disk, list[0], i))
    {
      ChainIsList(v, disk, list, last, i);
    }
    ChainIsList(v, disk, list, last, |list|);
  }

  /** A list that a table holds has no cluster twice. */
  lemma ListIsAcyclic(v: Vol, disk: Disk, list: seq<u32>, last: u32)
    requires TableHolds(v, disk, list, last)
    ensures Acyclic(v, disk, list[0], |list|)
    ensures forall a, b :: 0 <= a < b < |list| ==> list[a] != list[b]
  {
    ListGoes(v, disk, list, last);
    EndedChainIsAcyclic(v, disk, list[0], |list| - 1);
    forall a, b | 0 <= a < b < |list|
      ensures list[a] != list[b]
    {
      ChainIsList(v, disk, list, last, a);
      ChainIsList(v, disk, list, last, b);
    }
  }

  lemma LengthIs(g: Geometry, size: u32)
    requires GeometryOk(g)
    ensures FileLength(g, size) == CeilDiv(size, g.sectorSize)
  {
    if size > 0 {
      DivShift(size - 1, g.sectorSize);
    } else {
      Bits.DivIs(g.sectorSize - 1, g.sectorSize, 0, g.sectorSize - 1);
    }
  }

  lemma Below(k: nat, n: nat, d: nat)
    requires d > 0 && k < n * d
    ensures k / d < n
  {
    Split(k, d);
    if k / d >= n {
      Bits.ScaleAtLeast(k / d - n, d);
    }
  }

  /** Sector k of the file, by the code, is the place the table gives it. */
  lemma VisitIsPlace(v: Vol, disk: Disk, list: seq<u32>, last: u32, k: nat)
    requires TableHolds(v, disk, list, last) && ListInRange(v.g, list) && k / v.g.spc < |list|
    ensures NthVisit(v, disk, list[0], k).cluster == ClusterOf(v.g, list, k)
    ensures NthVisit(v, disk, list[0], k).sector == Place(v.g, list, k)
  {
    var j := k / v.g.spc;
    ChainIsList(v, disk, list, last, j);
    assert InRange(v.g, list[j]);
    hide TableHolds, ClusterAt, ListInRange, FirstSector, InRange;
    FirstSectorIs(v.g, list[j]);
  }

  /** The iteration over a file visits ceil(size / sectorSize) sectors, the k-th of them being sector
      k mod spc of the (k / spc)-th cluster in the table's list. */
  lemma TableVisits(v: Vol, disk: Disk, list: seq<u32>, last: u32, size: u32)
    requires TableHolds(v, disk, list, last) && ListInRange(v.g, list) && ListCovers(v.g, list, size)
    requires size + v.g.sectorSize <= 0x1_0000_0000
    ensures |FileSectors(v, disk, list[0], size)| == FileLength(v.g, size)
    ensures forall k :: 0 <= k < FileLength(v.g, size) ==>
      && FileSectors(v, disk, list[0], size)[k].cluster == ClusterOf(v.g, list, k)
      && FileSectors(v, disk, list[0], size)[k].sector == Place(v.g, list, k)
  {
    LengthIs(v.g, size);
    ListGoes(v, disk, list, last);
    FileVisits(v, disk, list[0], size, |list| - 1);
    forall k | 0 <= k < FileLength(v.g, size)
      ensures k / v.g.spc < |list|
    {
      hide TableHolds, NthVisit, Goes, FileSectors, ClusterAt, IsEnd;
      Below(k, |list|, v.g.spc);
    }
    forall k | 0 <= k < FileLength(v.g, size)
      ensures FileSectors(v, disk, list[0], size)[k].cluster == ClusterOf(v.g, list, k)
      ensures FileSectors(v, disk, list[0], size)[k].sector == Place(v.g, list, k)
    {
      assert list != [];
      hide TableHolds, NthVisit, Goes, FileSectors, ClusterAt, IsEnd, Place, ClusterOf;
      VisitIsPlace(v, disk, list, last, k);
    }
  }

  /** Every sector of the file can be accessed. */
  predicate PlacesAccessible(v: Vol, disk: Disk, list: seq<u32>, size: u32) {
    forall k :: 0 <= k < FileLength(v.g, size) ==>
      0 <= v.start + Place(v.g, list, k) < |disk| && v.start + Place(v.g, list, k) !in v.bad
  }

  lemma CeilWithin(n: nat, m: nat, d: nat)
    requires d > 0 && n <= m * d
    ensures CeilDiv(n, d) <= m
  {
    if n > 0 {
      Below(n - 1, m, d);
    }
  }

  lemma ListChainOk(v: Vol, disk: Disk, list: seq<u32>, last: u32, size: u32)
    requires TableHolds(v, disk, list, last) && ListInRange(v.g, list) && ListCovers(v.g, list, size)
    requires size + v.g.sectorSize <= 0x1_0000_0000
    ensures ChainOk(v, disk, list[0], CeilDiv(SizeSectors(v.g, size), v.g.spc))
  {
    ClustersNeeded(v.g, list, size);
    ListIsAcyclic(v, disk, list, last);
    forall j | 0 <= j < |list|
      ensures InRange(v.g, ClusterAt(v, disk, list[0], j))
    {
      ListedInRange(v.g, list, j);
      hide TableHolds, ClusterAt, ListCovers, SizeSectors, CeilDiv, InRange;
      ChainIsList(v, disk, list, last, j);
    }
    hide TableHolds, ClusterAt, ListCovers, SizeSectors, CeilDiv, InRange;
  }

  lemma ListedInRange(g: Geometry, list: seq<u32>, j: nat)
    requires ListInRange(g, list) && j < |list|
    ensures InRange(g, list[j])
  {}

  lemma ClustersNeeded(g: Geometry, list: seq<u32>, size: u32)
    requires GeometryOk(g) && ListCovers(g, list, size) && size + g.sectorSize <= 0x1_0000_0000
    ensures CeilDiv(SizeSectors(g, size), g.spc) <= |list|
  {
    SizeSectorsExact(g, size);
    LengthIs(g, size);
    hide CeilDiv, SizeSectors, FileLength;
    CeilWithin(FileLength(g, size), |list|, g.spc);
  }

  /** Both the image and the file have a piece k. */
  predicate HasPiece(g: Geometry, size: u32, srcEnd: nat, k: nat)
    requires GeometryOk(g)
  {
    k < FileLength(g, size) && k * 512 < srcEnd
  }

  /** Disk sector i gets no piece. */
  ghost predicate Elsewhere(v: Vol, srcEnd: nat, list: seq<u32>, size: u32, i: nat) {
    forall k :: 0 <= k && HasPiece(v.g, size, srcEnd, k) ==> i != v.start + Place(v.g, list, k)
  }

  /** The outcome on a table that holds the file's chain. */
  ghost predicate OnPlaces(v: Vol, mem: seq<byte>, srcEnd: nat, disk: Disk, list: seq<u32>, size: u32, new_: Disk)
    requires CallbackOk(WriteImage(mem, srcEnd))
  {
    && |new_| == |disk|
    && (forall k {:trigger Place(v.g, list, k)} :: 0 <= k && HasPiece(v.g, size, srcEnd, k) ==>
          && k * 512 + 512 <= |mem| && 0 <= v.start + Place(v.g, list, k) < |new_|
          && new_[v.start + Place(v.g, list, k)] == mem[k * 512..k * 512 + 512])
    && (forall i {:trigger new_[i]} ::
          0 <= i < |disk| && Elsewhere(v, srcEnd, list, size, i) ==> new_[i] == disk[i])
  }

  /** write_image_to_sd on a disk whose table holds the chain of the file, every sector of the file being
      accessible: no error, the k-th 512 bytes of the image are on sector k mod spc of the chain's cluster
      k / spc for every k that both the image and the file have, and every other sector of the disk is as
      before. */
  lemma ImageOnTable(v: Vol, mem: seq<byte>, srcEnd: nat, disk: Disk, list: seq<u32>, last: u32, size: u32)
    requires v.g.reserved > 0 && v.g.fats > 0 && CallbackOk(WriteImage(mem, srcEnd))
    requires TableHolds(v, disk, list, last) && ListInRange(v.g, list) && ListCovers(v.g, list, size)
    requires size + v.g.sectorSize <= 0x1_0000_0000 && PlacesAccessible(v, disk, list, size)
    ensures Written(v, mem, srcEnd, disk, list[0], size).err == 0
    ensures OnPlaces(v, mem, srcEnd, disk, list, size, Written(v, mem, srcEnd, disk, list[0], size).disk)
  {
    var cb, vs := WriteImage(mem, srcEnd), FileSectors(v, disk, list[0], size);
    var r := Written(v, mem, srcEnd, disk, list[0], size);
    ListChainOk(v, disk, list, last, size);
    TableVisits(v, disk, list, last, size);
    hide TableHolds, ListCovers, ListInRange, Place, FileSectors, Written, WrittenPieces, ChainOk, SameTable, Placed;
    hide FileLength, OnPlaces, CeilDiv, SizeSectors, PlacesAccessible, Accessible, Fitting;
    ImageWritten(v, mem, srcEnd, disk, list[0], size);
    var w := WrittenPieces(v, mem, srcEnd, disk, list[0], size);
    AllWritten(v, cb, disk, vs, w, list, size);
    PlacedOnPlaces(v, cb, disk, vs, w, list, size, r.disk);
  }

  /** With every sector accessible nothing stops the iteration before the image or the file ends. */
  lemma AllWritten(v: Vol, cb: Callback, disk: Disk, vs: seq<Visit>, w: nat, list: seq<u32>, size: u32)
    requires cb.WriteImage? && w <= |vs| && w <= Pieces(cb)
    requires |vs| == FileLength(v.g, size) && PlacesAccessible(v, disk, list, size)
    requires forall k :: 0 <= k < |vs| ==> vs[k].sector == Place(v.g, list, k)
    requires w < Fitting(cb, vs) ==> !Accessible(v, disk, vs[w].sector)
    ensures w == Fitting(cb, vs)
  {
    hide Place, FileLength, Pieces;
  }

  lemma PlacedOnPlaces(v: Vol, cb: Callback, disk: Disk, vs: seq<Visit>, w: nat, list: seq<u32>, size: u32, new_: Disk)
    requires cb.WriteImage? && CallbackOk(cb) && Writable(v, cb, disk, 0, vs, w) && w == Fitting(cb, vs)
    requires Placed(v, cb, disk, 0, vs, w, new_)
    requires |vs| == FileLength(v.g, size)
    requires forall k :: 0 <= k < |vs| ==> vs[k].sector == Place(v.g, list, k)
    ensures OnPlaces(v, cb.mem, cb.srcEnd, disk, list, size, new_)
  {
    hide Place, FileLength;
    forall k | 0 <= k && HasPiece(v.g, size, cb.srcEnd, k)
      ensures k < w && Accessible(v, disk, vs[k].sector)
      ensures k * 512 + 512 <= |cb.mem| && new_[v.start + vs[k].sector] == cb.mem[k * 512..k * 512 + 512]
    {
      PieceInMemory(cb, k);
      assert new_[v.start + vs[k].sector] == PieceAt(cb, 0 + k);
    }
    forall i | 0 <= i < |disk| && Elsewhere(v, cb.srcEnd, list, size, i)
      ensures new_[i] == disk[i]
    {
      forall k | 0 <= k < w
        ensures i != v.start + vs[k].sector
      {
        PieceInMemory(cb, k);
        assert HasPiece(v.g, size, cb.srcEnd, k);
      }
      assert Untouched(v, vs, w, i);
    }
  }
}
