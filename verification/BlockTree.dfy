/** A device: its zone bitmap, its blocks, and the block trees of its inodes (fs/inode.cc, fs/bitmap.cc).

    There is one array of blocks of 1024 bytes.  An indirect block is such a block read as 512 little-
    endian zone numbers, so a block's contents decide whether the tree is a tree. */
module BlockTree {
  import opened Basics

  const BLOCK_SIZE: nat := 1024
  const MAP_BITS: nat := 8192

  type ZoneNr = n: nat | n < 0x10000
  type Block = seq<Byte>

  /** file stands for S_ISREG || S_ISDIR; the zones of a device node are not blocks. */
  datatype Inode = Inode(zone: seq<ZoneNr>, size: nat, file: bool)

  datatype Device = Device(zmap: seq<bool>, disk: seq<Block>, inodes: seq<Inode>, first: nat, nzones: nat)

  function ZeroBlock(): (z: Block)
    ensures |z| == BLOCK_SIZE && forall i | 0 <= i < BLOCK_SIZE :: z[i] == 0
  {
    seq(BLOCK_SIZE, _ => 0)
  }

  // ---- zone numbers in a block -----------------------------------------------------------------

  function ZoneAt(b: Block, k: nat): ZoneNr
    requires |b| == BLOCK_SIZE && k < 512
  {
    var lo: int, hi: int := b[2 * k], b[2 * k + 1];
    lo + 256 * hi
  }

  function PutZone(b: Block, k: nat, z: ZoneNr): (r: Block)
    requires |b| == BLOCK_SIZE && k < 512
    ensures |r| == BLOCK_SIZE
  {
    b[2 * k := z % 256][2 * k + 1 := z / 256]
  }

  lemma PutZoneReads(b: Block, k: nat, z: ZoneNr, j: nat)
    requires |b| == BLOCK_SIZE && k < 512 && j < 512
    ensures ZoneAt(PutZone(b, k, z), j) == if j == k then z else ZoneAt(b, j)
    ensures PutZone(b, k, z)[2 * k..2 * k + 2] == [z % 256, z / 256]
  {
  }

  // ---- the block tree --------------------------------------------------------------------------

  /** A place that holds a zone number: a slot of the inode, or entry k of the block at another place. */
  datatype Pos = Slot(i: nat) | Child(parent: Pos, k: nat)

  /** Zones 0-6 are data, zone 7 is an indirect block, zone 8 a double-indirect block. */
  predicate Legal(p: Pos) {
    match p
    case Slot(i) => i < 9
    case Child(Slot(i), k) => (i == 7 || i == 8) && k < 512
    case Child(Child(Slot(i), k), l) => i == 8 && k < 512 && l < 512
    case _ => false
  }

  ghost predicate Shape(d: Device) {
    && |d.zmap| <= 8 * MAP_BITS && |d.zmap| % MAP_BITS == 0
    && 0 < d.first <= d.nzones <= |d.disk| && d.nzones < 0x10000
    && d.nzones - d.first < |d.zmap|
    && (forall b | 0 <= b < |d.disk| :: |d.disk[b]| == BLOCK_SIZE)
    && (forall n | 0 <= n < |d.inodes| :: |d.inodes[n].zone| == 9)
  }

  /** The zone number at a place of inode n; 0 where there is no block. */
  function At(d: Device, n: nat, p: Pos): ZoneNr
    requires Shape(d) && n < |d.inodes| && Legal(p)
  {
    match p
    case Slot(i) => if d.inodes[n].file then d.inodes[n].zone[i] else 0
    case Child(q, k) =>
      var b := At(d, n, q);
      if b == 0 || b >= |d.disk| then 0 else ZoneAt(d.disk[b], k)
  }

  /** Block b is a data zone; its bit in the map is b - first + 1. */
  predicate DataZone(d: Device, b: nat) { d.first <= b < d.nzones }

  predicate Used(d: Device, b: nat)
    requires Shape(d) && DataZone(d, b)
  {
    d.zmap[b - d.first + 1]
  }

  ghost predicate Holds(d: Device, n: nat, p: Pos)
    requires Shape(d)
  {
    n < |d.inodes| && Legal(p) && At(d, n, p) != 0
  }

  /** Bits that stand for no data zone are set when the device is made. */
  ghost predicate Preset(d: Device)
    requires Shape(d)
  {
    forall j | 0 <= j < |d.zmap| && !(1 <= j && j + d.first - 1 < d.nzones) :: d.zmap[j]
  }

  /** Every block of a tree is a data zone marked used. */
  ghost predicate Placed(d: Device)
    requires Shape(d)
  {
    forall n: nat, p | Holds(d, n, p) :: DataZone(d, At(d, n, p)) && Used(d, At(d, n, p))
  }

  /** No block is at two places, of one file or of two. */
  ghost predicate Injective(d: Device)
    requires Shape(d)
  {
    forall n: nat, p, m: nat, q | Holds(d, n, p) && Holds(d, m, q) && At(d, n, p) == At(d, m, q) :: n == m && p == q
  }

  /** A data zone is marked used only if some file holds it. */
  ghost predicate NoLeak(d: Device)
    requires Shape(d)
  {
    forall b | DataZone(d, b) && Used(d, b) :: Held(d, b)
  }

  ghost predicate Held(d: Device, b: nat)
    requires Shape(d)
  {
    exists n: nat, p :: Holds(d, n, p) && At(d, n, p) == b
  }

  ghost predicate Inv(d: Device) {
    Shape(d) && Preset(d) && Placed(d) && Injective(d) && NoLeak(d)
  }

  // ---- new_block -------------------------------------------------------------------------------

  /** The lowest clear bit, or |m|. */
  function FirstClear(m: seq<bool>, j: nat): (r: nat)
    requires j <= |m|
    ensures j <= r <= |m| && (r < |m| ==> !m[r]) && forall i | j <= i < r :: m[i]
    decreases |m| - j
  {
    if j == |m| || !m[j] then j else FirstClear(m, j + 1)
  }

  /** new_block up to getblk, where it can sleep: a bit is set and its zone is reserved, 0 when there is none. */
  function Reserve(d: Device): (r: (Device, ZoneNr))
    requires Shape(d)
    ensures Shape(r.0)
  {
    var j := FirstClear(d.zmap, 0);
    if j == |d.zmap| then (d, 0)
    else
      var d1 := d.(zmap := d.zmap[j := true]);
      var b: int := j + d.first - 1;
      if b < 0 || b >= d.nzones then (d1, 0) else (d1, b)
  }

  /** The rest of it. */
  function Zeroed(d: Device, b: nat): (r: Device)
    requires Shape(d) && b < d.nzones
    ensures Shape(r)
  {
    d.(disk := d.disk[b := ZeroBlock()])
  }

  /** new_block: the new device and the block, or 0 when the device is full. */
  function NewBlock(d: Device): (r: (Device, ZoneNr))
    requires Shape(d)
    ensures Shape(r.0)
  {
    var (d1, b) := Reserve(d);
    if b == 0 then (d1, 0) else (Zeroed(d1, b), b)
  }

  /** new_block hands out a data zone no file holds, zeroed; it fails only when every data zone is used. */
  lemma NewBlockFresh(d: Device)
    requires Inv(d)
    ensures var (r, b) := NewBlock(d);
            if b == 0 then r == d && forall c | DataZone(d, c) :: Used(d, c)
            else && DataZone(d, b) && !Used(d, b)
                 && r == d.(zmap := d.zmap[b - d.first + 1 := true], disk := d.disk[b := ZeroBlock()])
  {
  }

  // ---- entering a block in a tree --------------------------------------------------------------

  /** Store zone number b at place p, whose parent block exists. */
  function Enter(d: Device, n: nat, p: Pos, b: ZoneNr): (r: Device)
    requires Shape(d) && n < |d.inodes| && Legal(p)
    ensures Shape(r)
  {
    match p
    case Slot(i) => d.(inodes := d.inodes[n := d.inodes[n].(zone := d.inodes[n].zone[i := b])])
    case Child(q, k) =>
      var c := At(d, n, q);
      if c < |d.disk| then d.(disk := d.disk[c := PutZone(d.disk[c], k, b)]) else d
  }

  /** Place p is empty and there is somewhere to store its zone number. */
  ghost predicate Open(d: Device, n: nat, p: Pos)
    requires Shape(d)
  {
    n < |d.inodes| && Legal(p) && d.inodes[n].file && At(d, n, p) == 0 && (p.Child? ==> At(d, n, p.parent) != 0)
  }

  /** The device after new_block returned b and b was entered at p. */
  function Grow(d: Device, n: nat, p: Pos, b: ZoneNr): (r: Device)
    requires Shape(d) && n < |d.inodes| && Legal(p) && DataZone(d, b)
    ensures Shape(r)
  {
    Enter(d.(zmap := d.zmap[b - d.first + 1 := true], disk := d.disk[b := ZeroBlock()]), n, p, b)
  }

  lemma LegalParent(p: Pos)
    requires Legal(p) && p.Child?
    ensures Legal(p.parent) && p.k < 512
  {
  }

  /** q is below p in the tree. */
  predicate Below(q: Pos, p: Pos) {
    q.Child? && (q.parent == p || Below(q.parent, p))
  }

  /** Place p is in inode n or in an indirect block that is there. */
  ghost predicate There(d: Device, n: nat, p: Pos)
    requires Shape(d)
  {
    n < |d.inodes| && Legal(p) && d.inodes[n].file && (p.Child? ==> At(d, n, p.parent) != 0)
  }

  /** What a place holds after a zeroed block b was stored at p: only p changes, and nothing is left below it. */
  function Grown(d: Device, n: nat, p: Pos, b: ZoneNr, m: nat, q: Pos): ZoneNr
    requires Shape(d) && m < |d.inodes| && Legal(q)
  {
    if m == n && q == p then b else if m == n && Below(q, p) then 0 else At(d, m, q)
  }

  lemma {:induction false} StoredAt(d: Device, n: nat, p: Pos, b: ZoneNr, m: nat, q: Pos)
    requires Inv(d) && There(d, n, p) && DataZone(d, b) && !Used(d, b) && m < |d.inodes| && Legal(q)
    ensures At(Grow(d, n, p, b), m, q) == Grown(d, n, p, b, m, q)
    decreases q
  {
    if q.Child? {
      LegalParent(q);
      StoredAt(d, n, p, b, m, q.parent);
      if m == n && q.parent == p {
        NewCell(d, n, p, b, q.k);
        NotBelow(q.parent, q.k);
      } else if m == n && Below(q.parent, p) {
        assert q != p by { BelowOnce(q, p); }
      } else if At(d, m, q.parent) != 0 {
        OldCell(d, n, p, b, m, q);
      }
    }
  }

  lemma NotBelow(p: Pos, k: nat)
    ensures Child(p, k) != p && !Below(p, p)
  {
    if Below(p, p) { BelowOnce(p, p); }
  }

  /** Nothing is below itself. */
  lemma {:induction false} BelowOnce(q: Pos, p: Pos)
    requires Below(q, p)
    ensures q != p && p < q
    decreases q
  {
    if q.parent != p { BelowOnce(q.parent, p); }
  }

  /** Below an empty place there is nothing. */
  lemma {:induction false} EmptyBelow(d: Device, n: nat, p: Pos, q: Pos)
    requires Shape(d) && n < |d.inodes| && Legal(p) && Legal(q) && Below(q, p) && At(d, n, p) == 0
    ensures At(d, n, q) == 0
    decreases q
  {
    LegalParent(q);
    if q.parent != p { EmptyBelow(d, n, p, q.parent); }
  }

  /** Nothing but an empty place p changes, in any file: the new block is zeroed, so it adds no further places. */
  lemma GrowAt(d: Device, n: nat, p: Pos, b: ZoneNr, m: nat, q: Pos)
    requires Inv(d) && Open(d, n, p) && DataZone(d, b) && !Used(d, b) && m < |d.inodes| && Legal(q)
    ensures At(Grow(d, n, p, b), m, q) == if m == n && q == p then b else At(d, m, q)
  {
    StoredAt(d, n, p, b, m, q);
    if m == n && Below(q, p) { EmptyBelow(d, n, p, q); }
  }

  /** The block being written is not the new block. */
  lemma ParentOld(d: Device, n: nat, p: Pos, b: ZoneNr)
    requires Inv(d) && There(d, n, p) && p.Child? && DataZone(d, b) && !Used(d, b)
    ensures Legal(p.parent) && 0 < At(d, n, p.parent) < |d.disk| && At(d, n, p.parent) != b
    ensures At(d.(zmap := d.zmap[b - d.first + 1 := true], disk := d.disk[b := ZeroBlock()]), n, p.parent) == At(d, n, p.parent)
  {
    LegalParent(p);
    assert Holds(d, n, p.parent);
    AtZeroed(d, n, p.parent, b);
  }

  /** Zeroing an unused block changes no place. */
  lemma {:induction false} AtZeroed(d: Device, n: nat, p: Pos, b: ZoneNr)
    requires Inv(d) && n < |d.inodes| && Legal(p) && DataZone(d, b) && !Used(d, b)
    ensures At(d.(zmap := d.zmap[b - d.first + 1 := true], disk := d.disk[b := ZeroBlock()]), n, p) == At(d, n, p)
    decreases p
  {
    if p.Child? {
      LegalParent(p);
      AtZeroed(d, n, p.parent, b);
      assert At(d, n, p.parent) != 0 ==> Holds(d, n, p.parent);
    }
  }

  lemma NewCell(d: Device, n: nat, p: Pos, b: ZoneNr, k: nat)
    requires Inv(d) && There(d, n, p) && DataZone(d, b) && !Used(d, b) && k < 512
    ensures Grow(d, n, p, b).disk[b] == ZeroBlock() && ZoneAt(Grow(d, n, p, b).disk[b], k) == 0
  {
    if p.Child? { ParentOld(d, n, p, b); }
  }

  lemma OldCell(d: Device, n: nat, p: Pos, b: ZoneNr, m: nat, q: Pos)
    requires Inv(d) && There(d, n, p) && DataZone(d, b) && !Used(d, b)
    requires q.Child? && Legal(q) && Legal(q.parent) && Holds(d, m, q.parent)
    ensures var c := At(d, m, q.parent);
            && c < |d.disk| && q.k < 512
            && ZoneAt(Grow(d, n, p, b).disk[c], q.k) == if m == n && q == p then b else ZoneAt(d.disk[c], q.k)
  {
    LegalParent(q);
    var c := At(d, m, q.parent);
    assert c != b;
    if p.Child? {
      ParentOld(d, n, p, b);
      assert Holds(d, n, p.parent);
      if At(d, n, p.parent) == c {
        assert m == n && q.parent == p.parent;
        PutZoneReads(d.disk[c], p.k, b, q.k);
      }
    }
  }

  /** The new block is found at p, and everything else is where it was. */
  lemma GrowHolds(d: Device, n: nat, p: Pos, b: ZoneNr)
    requires Inv(d) && Open(d, n, p) && DataZone(d, b) && !Used(d, b)
    ensures var r := Grow(d, n, p, b);
            && |r.inodes| == |d.inodes| && r.first == d.first && r.nzones == d.nzones
            && r.zmap == d.zmap[b - d.first + 1 := true]
            && forall m: nat, q | m < |d.inodes| && Legal(q) :: At(r, m, q) == if m == n && q == p then b else At(d, m, q)
  {
    forall m: nat, q | m < |d.inodes| && Legal(q)
      ensures At(Grow(d, n, p, b), m, q) == if m == n && q == p then b else At(d, m, q)
    {
      GrowAt(d, n, p, b, m, q);
    }
  }

  lemma GrowInv(d: Device, n: nat, p: Pos, b: ZoneNr)
    requires Shape(d) && Inv(d) && Open(d, n, p) && DataZone(d, b) && !Used(d, b)
    ensures Inv(Grow(d, n, p, b))
  {
    GrowHolds(d, n, p, b);
    var r := Grow(d, n, p, b);
    hide Grow, At;
    forall m: nat, q | Holds(r, m, q)
      ensures (m == n && q == p) || (Holds(d, m, q) && At(r, m, q) == At(d, m, q) != b)
    {
    }
    assert Held(r, b) by { assert Holds(r, n, p); }
    forall c | DataZone(r, c) && Used(r, c) && c != b ensures Held(r, c) {
      assert Held(d, c);
      var m: nat, q :| Holds(d, m, q) && At(d, m, q) == c;
      assert Holds(r, m, q);
    }
  }
}
