/** bmap and create_block (fs/inode.cc), file_read and file_write (fs/file_dev.cc): a file is a function
    from offsets to bytes. */
module FileData {
  import opened Basics
  import opened BlockTree

  const MAX_BLOCKS: nat := 262_663   // 7 + 512 + 512 * 512

  // ---- _bmap -----------------------------------------------------------------------------------

  /** The place of logical block k of a file. */
  function PlaceOf(k: nat): (p: Pos)
    requires k < MAX_BLOCKS
    ensures Legal(p) && Leaf(p)
  {
    if k < 7 then Slot(k)
    else if k - 7 < 512 then Child(Slot(7), k - 7)
    else Child(Child(Slot(8), (k - 519) / 512), (k - 519) % 512)
  }

  /** A place of a data block, as opposed to an indirect block. */
  predicate Leaf(p: Pos) {
    match p
    case Slot(i) => i < 7
    case Child(Slot(i), k) => i == 7
    case Child(Child(Slot(i), k), l) => true
    case _ => false
  }

  lemma PlaceInjective(j: nat, k: nat)
    requires j < MAX_BLOCKS && k < MAX_BLOCKS && PlaceOf(j) == PlaceOf(k)
    ensures j == k
  {
  }

  /** The way from the inode to a place: the slot, then the entry in each indirect block. */
  function Path(p: Pos): (s: seq<nat>)
    ensures |s| > 0
  {
    match p
    case Slot(i) => [i]
    case Child(q, k) => Path(q) + [k]
  }

  lemma PathIs(i: nat, k: nat, l: nat)
    ensures Path(Slot(i)) == [i] && Path(Child(Slot(i), k)) == [i, k] && Path(Child(Child(Slot(i), k), l)) == [i, k, l]
  {
  }

  /** The first difference decides. */
  ghost predicate Precedes(a: seq<nat>, b: seq<nat>) {
    exists i: nat :: i < |a| && i < |b| && a[i] < b[i] && a[..i] == b[..i]
  }

  /** The blocks of a file are the leaves of its tree from left to right. */
  lemma PlacesInOrder(j: nat, k: nat)
    requires j < k < MAX_BLOCKS
    ensures Precedes(Path(PlaceOf(j)), Path(PlaceOf(k)))
  {
    var a, b := Path(PlaceOf(j)), Path(PlaceOf(k));
    hide Path;
    PathIs(if j < 7 then j else if j < 519 then 7 else 8, if j < 7 then 0 else if j < 519 then j - 7 else (j - 519) / 512, if j < 519 then 0 else (j - 519) % 512);
    PathIs(if k < 7 then k else if k < 519 then 7 else 8, if k < 7 then 0 else if k < 519 then k - 7 else (k - 519) / 512, if k < 519 then 0 else (k - 519) % 512);
    if a[0] < b[0] {
      assert a[..0] == b[..0];
    } else if a[1] < b[1] {
      assert a[..1] == b[..1];
    } else {
      assert a[2] < b[2] && a[..2] == b[..2];
    }
  }

  /** Every leaf is the place of one block. */
  lemma EveryLeaf(p: Pos) returns (k: nat)
    requires Legal(p) && Leaf(p)
    ensures k < MAX_BLOCKS && PlaceOf(k) == p && forall j: nat | j < MAX_BLOCKS && PlaceOf(j) == p :: j == k
  {
    match p
    case Slot(i) => k := i;
    case Child(Slot(_), j) => k := 7 + j;
    case Child(Child(_, i), j) => k := 519 + 512 * i + j;
    forall j: nat | j < MAX_BLOCKS && PlaceOf(j) == p ensures j == k { PlaceInjective(j, k); }
  }

  /** Entry k of the indirect block in zone z. */
  function EntryOf(d: Device, z: nat, k: nat): ZoneNr
    requires Shape(d) && k < 512
  {
    if z == 0 || z >= |d.disk| then 0 else ZoneAt(d.disk[z], k)
  }

  /** What bmap reads: seven zones in the inode, 512 in the block of zone 7, and 512 in each of the 512 blocks that the
      block of zone 8 names, in this order. */
  lemma BmapReads(d: Device, n: nat, i: nat, j: nat)
    requires Shape(d) && Inv(d) && n < |d.inodes| && d.inodes[n].file && i < 512 && j < 512
    ensures i < 7 ==> Bmap(d, n, i, false).1 == d.inodes[n].zone[i]
    ensures Bmap(d, n, 7 + i, false).1 == EntryOf(d, d.inodes[n].zone[7], i)
    ensures Bmap(d, n, 519 + 512 * i + j, false).1 == EntryOf(d, EntryOf(d, d.inodes[n].zone[8], i), j)
  {
    var k := 519 + 512 * i + j;
    hide Inv, SameBytes, Others, ZoneAt;
    BmapStep(d, n, 7 + i, false);
    BmapStep(d, n, k, false);
    assert (k - 519) / 512 == i && (k - 519) % 512 == j;
    assert PlaceOf(k) == Child(Child(Slot(8), i), j);
    hide Bmap, PlaceOf;
    assert At(d, n, Child(Slot(8), i)) == EntryOf(d, d.inodes[n].zone[8], i);
    assert At(d, n, Child(Child(Slot(8), i), j)) == EntryOf(d, EntryOf(d, d.inodes[n].zone[8], i), j);
  }

  /** The zone at place p; with create, a new block is entered when there is none. */
  function Cell(d: Device, n: nat, p: Pos, create: bool): (r: (Device, ZoneNr))
    requires Shape(d) && n < |d.inodes| && Legal(p)
    ensures Shape(r.0) && |r.0.inodes| == |d.inodes|
  {
    if At(d, n, p) != 0 || !create then (d, At(d, n, p))
    else
      var (d1, b) := NewBlock(d);
      if b == 0 then (d1, 0) else (Enter(d1, n, p, b), b)
  }

  /** _bmap: the zone of logical block k, 0 when there is none. */
  function Bmap(d: Device, n: nat, k: nat, create: bool): (r: (Device, ZoneNr))
    requires Shape(d) && n < |d.inodes| && k < MAX_BLOCKS
    ensures Shape(r.0) && |r.0.inodes| == |d.inodes|
  {
    if k < 7 then Cell(d, n, Slot(k), create)
    else if k - 7 < 512 then
      var (d1, z) := Cell(d, n, Slot(7), create);
      if z == 0 then (d1, 0) else Cell(d1, n, Child(Slot(7), k - 7), create)
    else
      var (d1, z) := Cell(d, n, Slot(8), create);
      if z == 0 then (d1, 0) else
        var (d2, y) := Cell(d1, n, Child(Slot(8), (k - 519) / 512), create);
        if y == 0 then (d2, 0) else Cell(d2, n, Child(Child(Slot(8), (k - 519) / 512), (k - 519) % 512), create)
  }

  // ---- a file's bytes --------------------------------------------------------------------------

  /** Byte off of file n; a block that is not there reads as zeros. */
  function FileByte(d: Device, n: nat, off: nat): Byte
    requires Shape(d) && n < |d.inodes| && off / BLOCK_SIZE < MAX_BLOCKS
  {
    var z := At(d, n, PlaceOf(off / BLOCK_SIZE));
    if z == 0 || z >= |d.disk| then 0 else d.disk[z][off % BLOCK_SIZE]
  }

  ghost predicate SameBytes(d: Device, r: Device)
    requires Shape(d) && Shape(r)
  {
    && |r.inodes| == |d.inodes|
    && forall m: nat, off: nat | m < |d.inodes| && off / BLOCK_SIZE < MAX_BLOCKS :: FileByte(r, m, off) == FileByte(d, m, off)
  }

  /** The sizes and kinds of all files, and every place but those of file n, are as before. */
  ghost predicate Others(d: Device, r: Device, n: nat)
    requires Shape(d) && Shape(r)
  {
    && |r.inodes| == |d.inodes| && r.first == d.first && r.nzones == d.nzones
    && (forall m: nat | m < |d.inodes| :: r.inodes[m].size == d.inodes[m].size && r.inodes[m].file == d.inodes[m].file)
    && (forall m: nat, q | m < |d.inodes| && Legal(q) && m != n :: At(r, m, q) == At(d, m, q))
    && (forall q | n < |d.inodes| && Legal(q) && At(d, n, q) != 0 :: At(r, n, q) == At(d, n, q))
  }

  lemma GrowBytes(d: Device, n: nat, p: Pos, b: ZoneNr)
    requires Shape(d) && Inv(d) && Open(d, n, p) && DataZone(d, b) && !Used(d, b)
    ensures SameBytes(d, Grow(d, n, p, b)) && Others(d, Grow(d, n, p, b), n)
  {
    GrowHolds(d, n, p, b);
    forall m: nat, off: nat | m < |d.inodes| && off / BLOCK_SIZE < MAX_BLOCKS
      ensures FileByte(Grow(d, n, p, b), m, off) == FileByte(d, m, off)
    {
      GrowByte(d, n, p, b, m, PlaceOf(off / BLOCK_SIZE), off % BLOCK_SIZE);
    }
  }

  lemma GrowByte(d: Device, n: nat, p: Pos, b: ZoneNr, m: nat, q: Pos, o: nat)
    requires Shape(d) && Inv(d) && Open(d, n, p) && DataZone(d, b) && !Used(d, b)
    requires m < |d.inodes| && Legal(q) && Leaf(q) && o < BLOCK_SIZE
    ensures var r := Grow(d, n, p, b); var y, z := At(r, m, q), At(d, m, q);
            && y < |r.disk| && z < |d.disk|
            && (if y == 0 then 0 else r.disk[y][o]) == (if z == 0 then 0 else d.disk[z][o])
  {
    GrowAt(d, n, p, b, m, q);
    var z := At(d, m, q);
    if m == n && q == p {
      NewCell(d, n, p, b, 0);
    } else if z != 0 {
      assert Holds(d, m, q);
      assert z != b;
      if p.Child? {
        ParentOld(d, n, p, b);
        assert Holds(d, n, p.parent);
        assert p.parent != q;
      }
    }
  }

  /** Entering a block where there was none: no file's bytes change, and it fails only when the device is full. */
  lemma CellStep(d: Device, n: nat, p: Pos, create: bool)
    requires Shape(d) && Inv(d) && n < |d.inodes| && d.inodes[n].file && Legal(p) && (p.Child? ==> At(d, n, p.parent) != 0)
    ensures var (r, z) := Cell(d, n, p, create);
            && Inv(r) && SameBytes(d, r) && Others(d, r, n) && z == At(r, n, p)
            && (!create ==> r == d)
            && (create && z == 0 ==> r == d && Full(d))
  {
    hide Inv, Cell, SameBytes, Others, Full, At;
    if At(d, n, p) == 0 && create {
      CellNew(d, n, p);
    } else {
      SameSelf(d, n);
      assert Cell(d, n, p, create) == (d, At(d, n, p)) by { CellOld(d, n, p, create); }
    }
  }

  lemma CellOld(d: Device, n: nat, p: Pos, create: bool)
    requires Shape(d) && n < |d.inodes| && Legal(p) && (At(d, n, p) != 0 || !create)
    ensures Cell(d, n, p, create) == (d, At(d, n, p))
  {
  }

  lemma SameSelf(d: Device, n: nat)
    requires Shape(d)
    ensures SameBytes(d, d) && Others(d, d, n)
  {
  }

  lemma CellGrown(d: Device, n: nat, p: Pos)
    requires Shape(d) && Inv(d) && n < |d.inodes| && Legal(p) && At(d, n, p) == 0
    ensures var b := NewBlock(d).1;
            if b == 0 then Cell(d, n, p, true) == (d, 0) && Full(d)
            else DataZone(d, b) && !Used(d, b) && Cell(d, n, p, true) == (Grow(d, n, p, b), b)
  {
    NewBlockFresh(d);
  }

  lemma CellNew(d: Device, n: nat, p: Pos)
    requires Shape(d) && Inv(d) && Open(d, n, p)
    ensures var (r, z) := Cell(d, n, p, true);
            && Inv(r) && SameBytes(d, r) && Others(d, r, n) && z == At(r, n, p)
            && (z == 0 ==> r == d && Full(d))
  {
    hide Inv, Grow, Cell, SameBytes, Others, Full, At, NewBlock;
    CellGrown(d, n, p);
    var b := NewBlock(d).1;
    if b == 0 {
      SameSelf(d, n);
    } else {
      GrowInv(d, n, p, b);
      GrowBytes(d, n, p, b);
      GrowAt(d, n, p, b, n, p);
    }
  }

  /** Every data zone is marked used. */
  ghost predicate Full(d: Device)
    requires Shape(d)
  {
    forall c | DataZone(d, c) :: Used(d, c)
  }

  lemma BytesTrans(d: Device, d1: Device, r: Device, n: nat)
    requires Shape(d) && Shape(d1) && Shape(r) && SameBytes(d, d1) && SameBytes(d1, r) && Others(d, d1, n) && Others(d1, r, n)
    ensures SameBytes(d, r) && Others(d, r, n)
  {
  }

  /** What bmap and create_block promise: the zone now at the block's place; no byte of any file changes. */
  ghost predicate BmapGood(d: Device, n: nat, p: Pos, create: bool, r: Device, z: ZoneNr)
    requires Shape(d) && Shape(r) && n < |d.inodes| && Legal(p)
  {
    && Inv(r) && SameBytes(d, r) && Others(d, r, n) && z == At(r, n, p)
    && (!create ==> r == d)
    && (create && z == 0 ==> Full(r))
  }

  lemma BmapStep(d: Device, n: nat, k: nat, create: bool)
    requires Shape(d) && Inv(d) && n < |d.inodes| && d.inodes[n].file && k < MAX_BLOCKS
    ensures BmapGood(d, n, PlaceOf(k), create, Bmap(d, n, k, create).0, Bmap(d, n, k, create).1)
  {
    hide Inv, SameBytes, Others, Cell, Full;
    if k < 7 {
      CellStep(d, n, Slot(k), create);
    } else if k - 7 < 512 {
      CellThen(d, n, Slot(7), k - 7, create);
    } else {
      BmapDouble(d, n, k, create);
    }
  }

  /** Two levels: the parent, then the place itself. */
  lemma CellThen(d: Device, n: nat, q: Pos, i: nat, create: bool)
    requires Shape(d) && Inv(d) && n < |d.inodes| && d.inodes[n].file && Legal(q) && Legal(Child(q, i))
    requires q.Child? ==> At(d, n, q.parent) != 0
    ensures var (d1, y) := Cell(d, n, q, create);
            var (r, z) := if y == 0 then (d1, 0) else Cell(d1, n, Child(q, i), create);
            BmapGood(d, n, Child(q, i), create, r, z)
  {
    hide Inv, SameBytes, Cell, Full;
    CellStep(d, n, q, create);
    var (d1, y) := Cell(d, n, q, create);
    if y != 0 {
      CellStep(d1, n, Child(q, i), create);
      BytesTrans(d, d1, Cell(d1, n, Child(q, i), create).0, n);
    }
  }

  lemma BmapDouble(d: Device, n: nat, k: nat, create: bool)
    requires Shape(d) && Inv(d) && n < |d.inodes| && d.inodes[n].file && 519 <= k < MAX_BLOCKS
    ensures BmapGood(d, n, PlaceOf(k), create, Bmap(d, n, k, create).0, Bmap(d, n, k, create).1)
  {
    hide Inv, SameBytes, Cell, Full;
    CellStep(d, n, Slot(8), create);
    var (d1, y) := Cell(d, n, Slot(8), create);
    var (i, j) := ((k - 519) / 512, (k - 519) % 512);
    if y == 0 {
      assert At(d1, n, Child(Slot(8), i)) == 0;
      assert Bmap(d, n, k, create) == (d1, 0);
    } else {
      CellThen(d1, n, Child(Slot(8), i), j, create);
      var (d2, x) := Cell(d1, n, Child(Slot(8), i), create);
      var (r, z) := if x == 0 then (d2, 0) else Cell(d2, n, Child(Child(Slot(8), i), j), create);
      assert Bmap(d, n, k, create) == (r, z);
      BytesTrans(d, d1, r, n);
    }
  }

  /** bmap is injective: two logical blocks, of one file or of two, never share a zone. */
  lemma BmapInjective(d: Device, n: nat, j: nat, m: nat, k: nat)
    requires Shape(d) && Inv(d) && n < |d.inodes| && m < |d.inodes| && d.inodes[n].file && d.inodes[m].file
    requires j < MAX_BLOCKS && k < MAX_BLOCKS
    requires Bmap(d, n, j, false).1 == Bmap(d, m, k, false).1 != 0
    ensures n == m && j == k
  {
    BmapStep(d, n, j, false);
    BmapStep(d, m, k, false);
    assert Holds(d, n, PlaceOf(j)) && Holds(d, m, PlaceOf(k));
    PlaceInjective(j, k);
  }

  // ---- storing bytes in a data block -----------------------------------------------------------

  function Splice(b: Block, c: nat, s: seq<Byte>): (r: Block)
    requires |b| == BLOCK_SIZE && c + |s| <= BLOCK_SIZE
    ensures |r| == BLOCK_SIZE
  {
    b[..c] + s + b[c + |s|..]
  }

  function PutBytes(d: Device, z: nat, c: nat, s: seq<Byte>): (r: Device)
    requires Shape(d) && c + |s| <= BLOCK_SIZE
    ensures Shape(r)
  {
    if z < |d.disk| then d.(disk := d.disk[z := Splice(d.disk[z], c, s)]) else d
  }

  /** A data block is no indirect block, so storing in it moves nothing. */
  lemma {:induction false} AtStored(d: Device, n: nat, l: Pos, c: nat, s: seq<Byte>, m: nat, q: Pos)
    requires Shape(d) && Inv(d) && Holds(d, n, l) && Leaf(l) && c + |s| <= BLOCK_SIZE && m < |d.inodes| && Legal(q)
    ensures At(PutBytes(d, At(d, n, l), c, s), m, q) == At(d, m, q)
    decreases q
  {
    if q.Child? {
      LegalParent(q);
      AtStored(d, n, l, c, s, m, q.parent);
      if At(d, m, q.parent) != 0 {
        assert Holds(d, m, q.parent);
        assert q.parent != l;
      }
    }
  }

  /** The file's bytes after count bytes of s at offset pos. */
  ghost predicate BytesStored(d: Device, r: Device, n: nat, pos: nat, s: seq<Byte>)
    requires Shape(d) && Shape(r) && |r.inodes| == |d.inodes|
  {
    forall m: nat, off: nat | m < |d.inodes| && off / BLOCK_SIZE < MAX_BLOCKS ::
      FileByte(r, m, off) == if m == n && pos <= off < pos + |s| then s[off - pos] else FileByte(d, m, off)
  }

  lemma StoreInBlock(d: Device, n: nat, pos: nat, s: seq<Byte>)
    requires Shape(d) && Inv(d) && n < |d.inodes| && pos / BLOCK_SIZE < MAX_BLOCKS && pos % BLOCK_SIZE + |s| <= BLOCK_SIZE
    requires Holds(d, n, PlaceOf(pos / BLOCK_SIZE))
    ensures var r := PutBytes(d, At(d, n, PlaceOf(pos / BLOCK_SIZE)), pos % BLOCK_SIZE, s);
            && Inv(r) && BytesStored(d, r, n, pos, s) && Others(d, r, n)
            && r.zmap == d.zmap && r.inodes == d.inodes
  {
    var l := PlaceOf(pos / BLOCK_SIZE);
    var r := PutBytes(d, At(d, n, l), pos % BLOCK_SIZE, s);
    forall m: nat, q | m < |d.inodes| && Legal(q) ensures At(r, m, q) == At(d, m, q) {
      AtStored(d, n, l, pos % BLOCK_SIZE, s, m, q);
    }
    StoredInv(d, r);
    forall m: nat, off: nat | m < |d.inodes| && off / BLOCK_SIZE < MAX_BLOCKS
      ensures FileByte(r, m, off) == if m == n && pos <= off < pos + |s| then s[off - pos] else FileByte(d, m, off)
    {
      StoredByte(d, n, pos, s, m, off);
    }
  }

  lemma StoredInv(d: Device, r: Device)
    requires Shape(d) && Inv(d) && Shape(r) && r.zmap == d.zmap && r.first == d.first && r.nzones == d.nzones
    requires |r.inodes| == |d.inodes|
    requires forall m: nat, q | m < |d.inodes| && Legal(q) :: At(r, m, q) == At(d, m, q)
    ensures Inv(r)
  {
    hide At;
    assert forall m: nat, q :: Holds(r, m, q) <==> Holds(d, m, q);
    forall c | DataZone(r, c) && Used(r, c) ensures Held(r, c) {
      assert Held(d, c);
    }
  }

  lemma StoredByte(d: Device, n: nat, pos: nat, s: seq<Byte>, m: nat, off: nat)
    requires Shape(d) && Inv(d) && n < |d.inodes| && pos / BLOCK_SIZE < MAX_BLOCKS && pos % BLOCK_SIZE + |s| <= BLOCK_SIZE
    requires Holds(d, n, PlaceOf(pos / BLOCK_SIZE)) && m < |d.inodes| && off / BLOCK_SIZE < MAX_BLOCKS
    ensures FileByte(PutBytes(d, At(d, n, PlaceOf(pos / BLOCK_SIZE)), pos % BLOCK_SIZE, s), m, off)
         == if m == n && pos <= off < pos + |s| then s[off - pos] else FileByte(d, m, off)
  {
    var l, q := PlaceOf(pos / BLOCK_SIZE), PlaceOf(off / BLOCK_SIZE);
    AtStored(d, n, l, pos % BLOCK_SIZE, s, m, q);
    if m == n && q == l {
      PlaceInjective(pos / BLOCK_SIZE, off / BLOCK_SIZE);
    } else {
      if At(d, m, q) != 0 { assert Holds(d, m, q); }
      if m == n && pos <= off < pos + |s| { SameBlock(pos, off, |s|); }
    }
  }

  lemma SameBlock(pos: nat, off: nat, c: nat)
    requires pos % BLOCK_SIZE + c <= BLOCK_SIZE && pos <= off < pos + c
    ensures off / BLOCK_SIZE == pos / BLOCK_SIZE && off % BLOCK_SIZE == pos % BLOCK_SIZE + (off - pos)
  {
  }
}
