/** fs/fat32/fat32.c and fs/fs.c: following a file's cluster chain and writing an image over the
    file, sector by sector, on the disk the chain is being read from. */
module Fat32 {
  import opened CTypes

  type Sector = s: seq<byte> | |s| == 512 witness seq(512, i => 0)

  const END_OF_CHAIN: u32 := 0x0fff_ffff
  const END_OF_CHAIN_ALT: u32 := 0x0fff_fff8
  const FIRST_CLUSTER: nat := 2
  const PIECE: nat := 512

  const ERR_OK: int := 0
  const ERR_GENERIC: int := -9

  /** The boot sector fields in use. `sectorsPerFat` is the 32-bit field cut to 16 bits. */
  datatype Geometry = Geometry(reserved: nat, fats: nat, sectorsPerFat: nat, spc: nat, sectorSize: nat)

  /** A partition on a disk: where it starts, which disk sectors cannot be accessed, and what a
      failed read (as a 32-bit word) and a failed write give. */
  datatype Volume = Volume(g: Geometry, start: nat, bad: set<nat>, readError: u32, writeError: int)

  predicate GeometryOk(g: Geometry) {
    && g.reserved < 0x1_0000 && g.fats < 0x100 && g.sectorsPerFat < 0x1_0000
    && 0 < g.spc < 0x100 && 4 <= g.sectorSize <= 512
  }

  type Vol = v: Volume | GeometryOk(v.g) && v.writeError <= 0
    witness Volume(Geometry(1, 1, 1, 1, 512), 0, {}, 0, 0)

  type Disk = seq<Sector>

  predicate Accessible(v: Vol, disk: Disk, sector: nat) {
    v.start + sector < |disk| && v.start + sector !in v.bad
  }

  function DataStart(g: Geometry): nat { g.reserved + g.fats * g.sectorsPerFat }

  function Le32(s: Sector, at: nat): u32
    requires at + 4 <= 512
  {
    var b0: nat, b1: nat, b2: nat, b3: nat := s[at], s[at + 1], s[at + 2], s[at + 3];
    b0 + 0x100 * b1 + 0x1_0000 * b2 + 0x100_0000 * b3
  }

  predicate IsEnd(cluster: nat) { cluster == END_OF_CHAIN || cluster == END_OF_CHAIN_ALT }

  function Entries(g: Geometry): (r: nat)
    requires GeometryOk(g)
    ensures 1 <= r <= 128
  {
    g.sectorSize / 4
  }

  /** The table word of entry `index` of table sector `at`, or the error word. */
  function TableWord(v: Vol, disk: Disk, at: nat, index: nat): u32
    requires index < 128
  {
    if Accessible(v, disk, at) then Le32(disk[v.start + at], 4 * index) else v.readError
  }

  /** The table sector of a cluster's entry, and the place of the entry in it. */
  function EntrySector(g: Geometry, cluster: nat): (r: nat)
    requires GeometryOk(g)
    ensures r >= g.reserved
  {
    g.reserved + cluster / Entries(g)
  }

  function EntryIndex(g: Geometry, cluster: nat): (r: nat)
    requires GeometryOk(g)
    ensures r < 128
  {
    cluster % Entries(g)
  }

  /** What fat32_get_next_cluster_num computes. */
  function NextCluster(v: Vol, disk: Disk, cluster: u32): u32 {
    var at := EntrySector(v.g, cluster);
    if at > v.g.sectorsPerFat then END_OF_CHAIN else TableWord(v, disk, at, EntryIndex(v.g, cluster))
  }

  /** The first sector of a cluster, with the 32-bit product of cl_sector_iter_init. */
  function FirstSector(g: Geometry, cluster: u32): nat {
    DataStart(g) + (cluster + 0x1_0000_0000 - FIRST_CLUSTER) % 0x1_0000_0000 * g.spc % 0x1_0000_0000
  }

  /** The sectors of a file of `size` bytes, with the 32-bit sum of fat32_iterate_file_sectors. */
  function SizeSectors(g: Geometry, size: u32): nat
    requires g.sectorSize > 0
  {
    (size + g.sectorSize - 1) % 0x1_0000_0000 / g.sectorSize
  }

  function CeilDiv(a: nat, b: nat): nat
    requires b > 0
  {
    if a == 0 then 0 else (a - 1) / b + 1
  }

  // ----- the iteration on values ------------------------------------------------------------

  datatype Visit = Visit(cluster: u32, sector: nat)

  /** fat32_file_sectors_cb_print, or write_image_per_sector with the memory it reads and the end
      of the image in it. */
  datatype Callback = PrintSector | WriteImage(mem: seq<byte>, srcEnd: nat)

  predicate CallbackOk(cb: Callback) {
    cb.WriteImage? ==> CeilDiv(cb.srcEnd, PIECE) * PIECE <= |cb.mem|
  }

  /** What a callback works on; `stop` is its last answer. */
  datatype State = State(disk: Disk, src: nat, err: int, calls: seq<Visit>, stop: bool)

  function Piece(cb: Callback, src: nat): Sector
    requires cb.WriteImage? && CallbackOk(cb) && src < cb.srcEnd && src % PIECE == 0
  {
    assert src + PIECE <= |cb.mem|;
    cb.mem[src..src + PIECE]
  }

  function Call(v: Vol, cb: Callback, s: State, to: Visit): (r: State)
    requires CallbackOk(cb) && s.src % PIECE == 0
    ensures r.src % PIECE == 0
  {
    var s1 := s.(calls := s.calls + [to]);
    match cb
    case PrintSector => s1
    case WriteImage(mem, srcEnd) =>
      if s.src >= srcEnd then s1.(stop := true)
      else if !Accessible(v, s.disk, to.sector) then
        s1.(err := if v.writeError == 0 then ERR_GENERIC else v.writeError, stop := true)
      else s1.(disk := s.disk[v.start + to.sector := Piece(cb, s.src)], src := s.src + PIECE)
  }

  /** The sectors of one cluster, until the callback stops. */
  function Sectors(v: Vol, cb: Callback, s: State, cluster: u32, sector: nat, count: nat): (r: State)
    requires CallbackOk(cb) && s.src % PIECE == 0
    ensures r.src % PIECE == 0
    decreases count
  {
    if s.stop || count == 0 then s
    else Sectors(v, cb, Call(v, cb, s, Visit(cluster, sector)), cluster, sector + 1, count - 1)
  }

  /** The clusters of a file from `cluster` on, `left` sectors of it being left. */
  function Clusters(v: Vol, cb: Callback, s: State, cluster: u32, left: nat): (r: State)
    requires CallbackOk(cb) && s.src % PIECE == 0
    ensures r.src % PIECE == 0
    decreases left
  {
    if left == 0 then s
    else
      var count := if left > v.g.spc then v.g.spc else left;
      var s1 := Sectors(v, cb, s, cluster, FirstSector(v.g, cluster), count);
      var next := NextCluster(v, s1.disk, cluster);
      if s1.stop || IsEnd(next) then s1 else Clusters(v, cb, s1, next, left - count)
  }

  // ----- the code ---------------------------------------------------------------------------

  /** The block device, the callback's context and what was called so far. */
  class Session {
    const v: Vol
    var disk: Disk
    var src: nat
    var err: int
    var calls: seq<Visit>
    var stop: bool

    constructor (v: Vol, disk: Disk)
      ensures this.v == v && Value() == State(disk, 0, ERR_OK, [], false)
    {
      this.v := v;
      this.disk, src, err, calls, stop := disk, 0, ERR_OK, [], false;
    }

    ghost function Value(): State reads this { State(disk, src, err, calls, stop) }

    /** fat32_get_next_cluster_num. */
    method GetNextClusterNum(cluster: u32) returns (next: u32)
      ensures next == NextCluster(v, disk, cluster)
    {
      var entriesPerSector := Entries(v.g);
      var entrySector := v.g.reserved + cluster / entriesPerSector;
      if entrySector > v.g.sectorsPerFat {
        return END_OF_CHAIN;
      }
      var offset := cluster % entriesPerSector;
      next := ReadTable(entrySector, offset);
    }

    /** The read of partition_device_read, and the word picked from the buffer. */
    method ReadTable(sector: nat, index: nat) returns (word: u32)
      requires index < 128
      ensures word == TableWord(v, disk, sector, index)
    {
      if v.start + sector >= |disk| || v.start + sector in v.bad {
        return v.readError;
      }
      var fatbuf := disk[v.start + sector];
      word := Le32(fatbuf, 4 * index);
    }

    /** write_image_per_sector: writes the next piece of the image, or says stop. */
    method WriteImagePerSector(mem: seq<byte>, srcEnd: nat, cluster: u32, sector: nat) returns (r: int)
      requires CallbackOk(WriteImage(mem, srcEnd)) && src % PIECE == 0 && !stop
      modifies this
      ensures Value() == Call(v, WriteImage(mem, srcEnd), old(Value()), Visit(cluster, sector))
      ensures r != 0 <==> stop
    {
      calls := calls + [Visit(cluster, sector)];
      if src >= srcEnd {
        stop := true;
        return 1;
      }
      var sectorsWritten := 1;
      if v.start + sector < |disk| && v.start + sector !in v.bad {
        disk := disk[v.start + sector := Piece(WriteImage(mem, srcEnd), src)];
      } else {
        sectorsWritten := v.writeError;
      }
      if sectorsWritten != 1 {
        err := if sectorsWritten == 0 then ERR_GENERIC else sectorsWritten;
        stop := true;
        return 1;
      }
      src := src + PIECE;
      r := 0;
    }

    /** The callback that fat32_iterate_file_sectors was given. */
    method CallBack(cb: Callback, cluster: u32, sector: nat) returns (r: int)
      requires CallbackOk(cb) && src % PIECE == 0 && !stop
      modifies this
      ensures Value() == Call(v, cb, old(Value()), Visit(cluster, sector))
      ensures r != 0 <==> stop
    {
      match cb {
        case PrintSector =>
          calls := calls + [Visit(cluster, sector)];
          r := 0;
        case WriteImage(mem, srcEnd) =>
          r := WriteImagePerSector(mem, srcEnd, cluster, sector);
      }
    }

    /** The inner loop of fat32_iterate_file_sectors. */
    method IterateClusterSectors(cb: Callback, cluster: u32, numSectors: nat)
      requires CallbackOk(cb) && src % PIECE == 0 && !stop
      modifies this
      ensures Value() == Sectors(v, cb, old(Value()), cluster, FirstSector(v.g, cluster), numSectors)
    {
      hide FirstSector, Call;
      var csi := new ClSectorIter(v.g, cluster, numSectors);
      ghost var result := Sectors(v, cb, Value(), cluster, csi.sectorIdx, numSectors);
      while csi.sectorIdx < csi.endSectorIdx
        invariant csi.sectorIdx <= csi.endSectorIdx && src % PIECE == 0 && !stop
        invariant result == Sectors(v, cb, Value(), cluster, csi.sectorIdx, csi.endSectorIdx - csi.sectorIdx)
        decreases csi.endSectorIdx - csi.sectorIdx
      {
        var r := CallBack(cb, cluster, csi.sectorIdx);
        if r != 0 {
          return;
        }
        csi.Next();
      }
    }

    /** fat32_iterate_file_sectors: terminates on every table, cyclic ones included. */
    method IterateFileSectors(cb: Callback, firstCluster: u32, size: u32)
      requires CallbackOk(cb) && src % PIECE == 0 && !stop
      modifies this
      ensures Value() == Clusters(v, cb, old(Value()), firstCluster, SizeSectors(v.g, size))
    {
      var sizeSectors: nat := (size + v.g.sectorSize - 1) % 0x1_0000_0000 / v.g.sectorSize;
      var ci := new ClusterIt(firstCluster);
      ghost var result := Clusters(v, cb, Value(), firstCluster, sizeSectors);
      while sizeSectors > 0 && ci.valid
        invariant src % PIECE == 0 && !stop
        invariant result == if ci.valid then Clusters(v, cb, Value(), ci.clusterIdx, sizeSectors) else Value()
        decreases sizeSectors
      {
        var numSectors := if sizeSectors > v.g.spc then v.g.spc else sizeSectors;
        IterateClusterSectors(cb, ci.clusterIdx, numSectors);
        if stop {
          return;
        }
        sizeSectors := sizeSectors - numSectors;
        ci.Next(this);
      }
    }

    /** write_image_to_sd once the file's first cluster and size are known. */
    method WriteImageToSd(mem: seq<byte>, srcEnd: nat, firstCluster: u32, size: u32) returns (r: int)
      requires CallbackOk(WriteImage(mem, srcEnd))
      modifies this
      ensures Value() == Written(v, mem, srcEnd, old(disk), firstCluster, size) && r == err
    {
      src, err, calls, stop := 0, ERR_OK, [], false;
      IterateFileSectors(WriteImage(mem, srcEnd), firstCluster, size);
      r := err;
    }
  }

  /** The outcome of write_image_to_sd. */
  function Written(v: Vol, mem: seq<byte>, srcEnd: nat, disk: Disk, firstCluster: u32, size: u32): State
    requires CallbackOk(WriteImage(mem, srcEnd))
  {
    Clusters(v, WriteImage(mem, srcEnd), State(disk, 0, ERR_OK, [], false), firstCluster, SizeSectors(v.g, size))
  }

  /** cluster_it: the cluster iterator. */
  class ClusterIt {
    var clusterIdx: u32
    var valid: bool

    constructor (start: u32)
      ensures clusterIdx == start && valid
    {
      clusterIdx, valid := start, true;
    }

    method Next(fs: Session)
      modifies this
      ensures clusterIdx == NextCluster(fs.v, fs.disk, old(clusterIdx))
      ensures valid == (old(valid) && !IsEnd(clusterIdx))
    {
      clusterIdx := fs.GetNextClusterNum(clusterIdx);
      if clusterIdx == END_OF_CHAIN || clusterIdx == END_OF_CHAIN_ALT {
        valid := false;
      }
    }
  }

  /** cl_sector_iter: the iterator over the sectors of a cluster. */
  class ClSectorIter {
    var clusterIdx: u32
    var sectorIdx: nat
    var endSectorIdx: nat

    constructor (g: Geometry, cluster: u32, numSectors: nat)
      ensures clusterIdx == cluster && sectorIdx == FirstSector(g, cluster)
      ensures endSectorIdx == sectorIdx + numSectors
    {
      var first := g.reserved + g.fats * g.sectorsPerFat;
      var data := (cluster + 0x1_0000_0000 - FIRST_CLUSTER) % 0x1_0000_0000 * g.spc % 0x1_0000_0000;
      clusterIdx := cluster;
      sectorIdx := first + data;
      endSectorIdx := first + data + numSectors;
    }

    method Next()
      modifies this
      ensures sectorIdx == old(sectorIdx) + 1
      ensures clusterIdx == old(clusterIdx) && endSectorIdx == old(endSectorIdx)
    {
      sectorIdx := sectorIdx + 1;
    }
  }

  // ----- the visits of a file on one disk ---------------------------------------------------

  function ClusterVisits(cluster: u32, sector: nat, count: nat): (r: seq<Visit>)
    ensures |r| == count && forall k :: 0 <= k < count ==> r[k] == Visit(cluster, sector + k)
  {
    seq(count, k requires 0 <= k => Visit(cluster, sector + k))
  }

  /** The sectors of a file, as the table on the disk gives them. */
  function Visits(v: Vol, disk: Disk, cluster: u32, left: nat): seq<Visit>
    decreases left
  {
    if left == 0 then []
    else
      var count := if left > v.g.spc then v.g.spc else left;
      var next := NextCluster(v, disk, cluster);
      ClusterVisits(cluster, FirstSector(v.g, cluster), count)
      + if IsEnd(next) then [] else Visits(v, disk, next, left - count)
  }

  /** The callback applied to a list of visits until it stops. */
  function Fold(v: Vol, cb: Callback, s: State, vs: seq<Visit>): (r: State)
    requires CallbackOk(cb) && s.src % PIECE == 0
    ensures r.src % PIECE == 0
    decreases |vs|
  {
    if s.stop || vs == [] then s else Fold(v, cb, Call(v, cb, s, vs[0]), vs[1..])
  }

  lemma {:induction false} FoldAppend(v: Vol, cb: Callback, s: State, a: seq<Visit>, b: seq<Visit>)
    requires CallbackOk(cb) && s.src % PIECE == 0
    ensures Fold(v, cb, s, a + b) == Fold(v, cb, Fold(v, cb, s, a), b)
    decreases |a|
  {
    if a == [] {
      assert a + b == b;
    } else if !s.stop {
      assert (a + b)[0] == a[0] && (a + b)[1..] == a[1..] + b;
      FoldAppend(v, cb, Call(v, cb, s, a[0]), a[1..], b);
    }
  }

  lemma {:induction false} SectorsFold(v: Vol, cb: Callback, s: State, cluster: u32, sector: nat, count: nat)
    requires CallbackOk(cb) && s.src % PIECE == 0
    ensures Sectors(v, cb, s, cluster, sector, count) == Fold(v, cb, s, ClusterVisits(cluster, sector, count))
    decreases count
  {
    if count > 0 && !s.stop {
      var all := ClusterVisits(cluster, sector, count);
      assert all[1..] == ClusterVisits(cluster, sector + 1, count - 1);
      SectorsFold(v, cb, Call(v, cb, s, Visit(cluster, sector)), cluster, sector + 1, count - 1);
    }
  }

  /** Both disks have the same sectors in front of the partition's data area. */
  predicate SameTable(v: Vol, a: Disk, b: Disk) {
    && |a| == |b|
    && forall i :: 0 <= i < |a| && i < v.start + DataStart(v.g) ==> a[i] == b[i]
  }

  /** There are reserved sectors and a table, so no accepted table sector is a data sector. */
  predicate TableInFront(g: Geometry) { g.reserved > 0 && g.fats > 0 }

  lemma SameNext(v: Vol, a: Disk, b: Disk, cluster: u32)
    requires TableInFront(v.g) && SameTable(v, a, b)
    ensures NextCluster(v, a, cluster) == NextCluster(v, b, cluster)
  {
    hide EntrySector, EntryIndex;
    TableFits(v.g);
  }

  lemma TableFits(g: Geometry)
    requires TableInFront(g)
    ensures g.sectorsPerFat < DataStart(g)
  {
    assert g.fats * g.sectorsPerFat == g.sectorsPerFat + (g.fats - 1) * g.sectorsPerFat;
  }

  lemma {:induction false} SameVisits(v: Vol, a: Disk, b: Disk, cluster: u32, left: nat)
    requires TableInFront(v.g) && SameTable(v, a, b)
    ensures Visits(v, a, cluster, left) == Visits(v, b, cluster, left)
    decreases left
  {
    if left > 0 {
      SameNext(v, a, b, cluster);
      var next := NextCluster(v, a, cluster);
      if !IsEnd(next) {
        SameVisits(v, a, b, next, left - if left > v.g.spc then v.g.spc else left);
      }
    }
  }

  predicate DataVisits(g: Geometry, vs: seq<Visit>) {
    forall k :: 0 <= k < |vs| ==> vs[k].sector >= DataStart(g)
  }

  lemma {:induction false} FoldKeepsTable(v: Vol, cb: Callback, s: State, vs: seq<Visit>)
    requires CallbackOk(cb) && s.src % PIECE == 0 && DataVisits(v.g, vs)
    ensures SameTable(v, s.disk, Fold(v, cb, s, vs).disk)
    decreases |vs|
  {
    if vs != [] && !s.stop {
      assert vs[0].sector >= DataStart(v.g);
      FoldKeepsTable(v, cb, Call(v, cb, s, vs[0]), vs[1..]);
    }
  }

  /** Reading the table between the writes is reading it before them: the iteration makes the
      calls that the table of the disk it began with gives, whatever that table holds. */
  lemma {:induction false} WritesDoNotMoveTheFile(v: Vol, cb: Callback, s: State, cluster: u32, left: nat)
    requires CallbackOk(cb) && s.src % PIECE == 0 && TableInFront(v.g)
    ensures Clusters(v, cb, s, cluster, left) == Fold(v, cb, s, Visits(v, s.disk, cluster, left))
    ensures SameTable(v, s.disk, Clusters(v, cb, s, cluster, left).disk)
    decreases left
  {
    hide NextCluster, FirstSector, Call, SameTable, ClusterVisits, DataStart;
    if left > 0 {
      var count := if left > v.g.spc then v.g.spc else left;
      FirstSectorIsData(v.g, cluster);
      var here := ClusterVisits(cluster, FirstSector(v.g, cluster), count);
      var s1 := Fold(v, cb, s, here);
      SectorsFold(v, cb, s, cluster, FirstSector(v.g, cluster), count);
      HereIsData(v.g, cluster, FirstSector(v.g, cluster), count);
      FoldKeepsTable(v, cb, s, here);
      SameNext(v, s.disk, s1.disk, cluster);
      var next := NextCluster(v, s1.disk, cluster);
      if IsEnd(next) {
        assert here + [] == here;
      } else {
        SameVisits(v, s.disk, s1.disk, next, left - count);
        FoldAppend(v, cb, s, here, Visits(v, s.disk, next, left - count));
        if !s1.stop {
          WritesDoNotMoveTheFile(v, cb, s1, next, left - count);
          SameTableAgain(v, s.disk, s1.disk, Clusters(v, cb, s1, next, left - count).disk);
        }
      }
    } else {
      SameTableAgain(v, s.disk, s.disk, s.disk);
    }
  }

  lemma SameTableAgain(v: Vol, a: Disk, b: Disk, c: Disk)
    ensures SameTable(v, a, a)
    ensures SameTable(v, a, b) && SameTable(v, b, c) ==> SameTable(v, a, c)
  {}

  lemma FirstSectorIsData(g: Geometry, cluster: u32)
    ensures FirstSector(g, cluster) >= DataStart(g)
  {}

  lemma HereIsData(g: Geometry, cluster: u32, sector: nat, count: nat)
    requires sector >= DataStart(g)
    ensures DataVisits(g, ClusterVisits(cluster, sector, count))
  {}
}
