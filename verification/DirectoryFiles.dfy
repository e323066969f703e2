/** Directories as files: entry i is the 16 bytes at offset 16 * i, the inode number in two bytes, little-endian, and
    then the name (struct dir_entry, fs.h).  What fs/namei.cc does to blocks and i_size is what Directories does. */
module DirectoryFiles {
  import opened Basics
  import opened BlockTree
  import opened FileData
  import opened FileIo
  import Dirs = Directories

  const ENTRY_SIZE: nat := 16

  /** Byte k of an entry. */
  function ByteOf(e: Dirs.Entry, k: nat): nat
    requires |e.name| == Dirs.NAME_LEN && k < ENTRY_SIZE
  {
    if k == 0 then e.inode % 256 else if k == 1 then e.inode / 256 else e.name[k - 2]
  }

  lemma SameEntry(e: Dirs.Entry, f: Dirs.Entry)
    requires |e.name| == |f.name| == Dirs.NAME_LEN && forall k: nat | k < ENTRY_SIZE :: ByteOf(e, k) == ByteOf(f, k)
    ensures e == f
  {
    assert ByteOf(e, 0) == ByteOf(f, 0) && ByteOf(e, 1) == ByteOf(f, 1);
    forall j: nat | j < Dirs.NAME_LEN ensures e.name[j] == f.name[j] {
      assert ByteOf(e, j + 2) == ByteOf(f, j + 2);
    }
  }

  lemma InBlock(i: nat, k: nat)
    requires k < ENTRY_SIZE
    ensures (ENTRY_SIZE * i + k) / BLOCK_SIZE == i / 64 && (ENTRY_SIZE * i + k) % BLOCK_SIZE == ENTRY_SIZE * (i % 64) + k
  {
  }

  /** Byte k of entry i of file n. */
  function DiskByte(d: Device, n: nat, i: nat, k: nat): Byte
    requires Shape(d) && n < |d.inodes| && i / 64 < MAX_BLOCKS && k < ENTRY_SIZE
  {
    InBlock(i, k);
    FileByte(d, n, ENTRY_SIZE * i + k)
  }

  /** Entry i of file n is e. */
  ghost predicate EntryIs(d: Device, n: nat, i: nat, e: Dirs.Entry)
    requires Shape(d) && n < |d.inodes| && i / 64 < MAX_BLOCKS
  {
    |e.name| == Dirs.NAME_LEN && forall k: nat | k < ENTRY_SIZE :: ByteOf(e, k) == DiskByte(d, n, i, k)
  }

  /** File n is the directory: its entries are those of the blocks it has, and zeros from there on. */
  ghost predicate OnDisk(d: Device, n: nat, dir: Dirs.Dir) {
    && Shape(d) && Inv(d) && n < |d.inodes| && d.inodes[n].file && Dirs.DirOk(dir) && |dir.blocks| <= MAX_BLOCKS
    && d.inodes[n].size == ENTRY_SIZE * dir.size
    && (forall b: nat | b < |dir.blocks| :: Holds(d, n, PlaceOf(b)))
    && (forall i: nat | i < 64 * MAX_BLOCKS :: EntryIs(d, n, i, EntryOf(dir, i)))
  }

  function EntryOf(dir: Dirs.Dir, i: nat): Dirs.Entry
    requires Dirs.DirOk(dir)
  {
    if i < 64 * |dir.blocks| then Dirs.At(dir, i) else Free()
  }

  function Free(): Dirs.Entry { Dirs.Entry(0, Dirs.Padded([])) }

  lemma EntryKept(d: Device, r: Device, n: nat, i: nat, e: Dirs.Entry)
    requires Shape(d) && Shape(r) && SameBytes(d, r) && n < |d.inodes| && i / 64 < MAX_BLOCKS && EntryIs(d, n, i, e)
    ensures EntryIs(r, n, i, e)
  {
    hide FileByte;
    forall k: nat | k < ENTRY_SIZE ensures DiskByte(r, n, i, k) == DiskByte(d, n, i, k) { InBlock(i, k); }
  }

  /** add_entry at the end of the last block: create_block gives the directory a block of free entries, unless the
      device is full. */
  lemma Grows(d: Device, n: nat, dir: Dirs.Dir)
    requires OnDisk(d, n, dir) && |dir.blocks| < MAX_BLOCKS
    ensures var (r, z) := Bmap(d, n, |dir.blocks|, true);
            && SameBytes(d, r) && (z == 0 ==> Full(r))
            && OnDisk(r, n, if z == 0 then dir else dir.(blocks := dir.blocks + [Dirs.EmptyBlock()]))
  {
    hide Inv, SameBytes, Bmap, Full, EntryIs;
    var k := |dir.blocks|;
    BmapStep(d, n, k, true);
    var (r, z) := Bmap(d, n, k, true);
    forall b: nat | b < k ensures Holds(r, n, PlaceOf(b)) { assert Holds(d, n, PlaceOf(b)); }
    var dir' := if z == 0 then dir else dir.(blocks := dir.blocks + [Dirs.EmptyBlock()]);
    forall i: nat | i < 64 * MAX_BLOCKS ensures EntryIs(r, n, i, EntryOf(dir', i)) {
      EntryKept(d, r, n, i, EntryOf(dir, i));
      assert EntryOf(dir', i) == EntryOf(dir, i);
    }
  }

  lemma Resized(d: Device, n: nat, dir: Dirs.Dir, size: nat)
    requires OnDisk(d, n, dir) && size <= 64 * |dir.blocks|
    ensures var r := SetSize(d, n, ENTRY_SIZE * size); SameBytes(d, r) && OnDisk(r, n, dir.(size := size))
  {
    hide Inv, SameBytes, EntryIs;
    var r := SetSize(d, n, ENTRY_SIZE * size);
    SetSizeStep(d, n, ENTRY_SIZE * size);
    forall b: nat | b < |dir.blocks| ensures Holds(r, n, PlaceOf(b)) { assert Holds(d, n, PlaceOf(b)); }
    forall i: nat | i < 64 * MAX_BLOCKS ensures EntryIs(r, n, i, EntryOf(dir, i)) {
      EntryKept(d, r, n, i, EntryOf(dir, i));
    }
    assert forall i: nat :: EntryOf(dir.(size := size), i) == EntryOf(dir, i);
  }

  /** Bytes s from byte c of entry j of block b on: the number is the bytes from 0 to 2, the name those from 2 to 16. */
  function StorePart(d: Device, n: nat, b: nat, j: nat, c: nat, s: seq<Byte>): (r: Device)
    requires Shape(d) && n < |d.inodes| && b < MAX_BLOCKS && j < 64 && c < ENTRY_SIZE && c + |s| <= ENTRY_SIZE
    ensures Shape(r) && r.inodes == d.inodes
  {
    PutBytes(d, At(d, n, PlaceOf(b)), ENTRY_SIZE * j + c, s)
  }

  /** e with those bytes in it. */
  predicate Patched(e: Dirs.Entry, f: Dirs.Entry, c: nat, s: seq<Byte>) {
    && |e.name| == |f.name| == Dirs.NAME_LEN && c + |s| <= ENTRY_SIZE
    && forall k: nat | k < ENTRY_SIZE :: ByteOf(f, k) == if c <= k < c + |s| then s[k - c] else ByteOf(e, k)
  }

  /** Storing in an entry on disk changes that entry of that directory and not one byte more. */
  lemma Stored(d: Device, n: nat, dir: Dirs.Dir, b: nat, j: nat, c: nat, s: seq<Byte>, f: Dirs.Entry)
    requires OnDisk(d, n, dir) && b < |dir.blocks| && j < 64 && c < ENTRY_SIZE && c + |s| <= ENTRY_SIZE
    requires Patched(Dirs.At(dir, 64 * b + j), f, c, s)
    ensures var r := StorePart(d, n, b, j, c, s);
            && |r.inodes| == |d.inodes| && BytesStored(d, r, n, ENTRY_SIZE * (64 * b + j) + c, s)
            && OnDisk(r, n, Dirs.WithEntry(dir, b, j, f))
  {
    hide Inv, BytesStored, EntryIs, FileByte, Patched, At, StorePart;
    var (i, r) := (64 * b + j, StorePart(d, n, b, j, c, s));
    assert Holds(d, n, PlaceOf(b));
    PartStored(d, n, b, j, c, s);
    PatchedLen(Dirs.At(dir, i), f, c, s);
    Dirs.WithEntryAt(dir, b, j, f);
    forall l: nat | l < |dir.blocks| ensures Holds(r, n, PlaceOf(l)) { assert Holds(d, n, PlaceOf(l)); }
    var dir' := Dirs.WithEntry(dir, b, j, f);
    forall m: nat | m < 64 * MAX_BLOCKS ensures EntryIs(r, n, m, EntryOf(dir', m)) {
      StoredEntry(d, r, n, i, c, s, m, EntryOf(dir, m), f);
      assert EntryOf(dir', m) == if m == i then f else EntryOf(dir, m);
    }
  }

  lemma PartStored(d: Device, n: nat, b: nat, j: nat, c: nat, s: seq<Byte>)
    requires Shape(d) && Inv(d) && n < |d.inodes| && b < MAX_BLOCKS && j < 64 && c < ENTRY_SIZE && c + |s| <= ENTRY_SIZE
    requires Holds(d, n, PlaceOf(b))
    ensures var r := StorePart(d, n, b, j, c, s);
            Inv(r) && r.inodes == d.inodes && BytesStored(d, r, n, ENTRY_SIZE * (64 * b + j) + c, s) && Others(d, r, n)
    ensures var r := StorePart(d, n, b, j, c, s); forall l: nat | l < MAX_BLOCKS && Holds(d, n, PlaceOf(l)) :: Holds(r, n, PlaceOf(l))
  {
    hide Inv, BytesStored, FileByte, At;
    var i := 64 * b + j;
    InBlock(i, c);
    assert i / 64 == b && i % 64 == j;
    StoreInBlock(d, n, ENTRY_SIZE * i + c, s);
  }

  lemma PatchedLen(e: Dirs.Entry, f: Dirs.Entry, c: nat, s: seq<Byte>)
    requires Patched(e, f, c, s)
    ensures |f.name| == Dirs.NAME_LEN
  {
  }

  lemma StoredEntry(d: Device, r: Device, n: nat, i: nat, c: nat, s: seq<Byte>, m: nat, e: Dirs.Entry, f: Dirs.Entry)
    requires Shape(d) && Shape(r) && n < |d.inodes| && |r.inodes| == |d.inodes| && i / 64 < MAX_BLOCKS && m / 64 < MAX_BLOCKS
    requires c + |s| <= ENTRY_SIZE && BytesStored(d, r, n, ENTRY_SIZE * i + c, s) && EntryIs(d, n, m, e)
    requires m == i ==> Patched(e, f, c, s)
    ensures EntryIs(r, n, m, if m == i then f else e)
  {
    hide FileByte;
    forall k: nat | k < ENTRY_SIZE ensures ByteOf(if m == i then f else e, k) == DiskByte(r, n, m, k) {
      InBlock(m, k);
      assert DiskByte(d, n, m, k) == ByteOf(e, k);
    }
  }

  /** The store of an inode number, as Directories makes it. */
  lemma NumberPatched(e: Dirs.Entry, ino: nat)
    requires |e.name| == Dirs.NAME_LEN && ino < 0x10000
    ensures Patched(e, e.(inode := ino), 0, [ino % 256, ino / 256])
  {
  }

  /** The copying of a padded name. */
  lemma NamePatched(e: Dirs.Entry, name: seq<Byte>)
    requires |e.name| == |name| == Dirs.NAME_LEN
    ensures Patched(e, e.(name := name), 2, name)
  {
  }

  /** What is read from a block of the directory is its entries. */
  lemma Read(d: Device, n: nat, dir: Dirs.Dir, i: nat, e: Dirs.Entry)
    requires OnDisk(d, n, dir) && i < 64 * |dir.blocks| && |e.name| == Dirs.NAME_LEN
    requires var z := At(d, n, PlaceOf(i / 64));
             z < |d.disk| && forall k: nat | k < ENTRY_SIZE :: ByteOf(e, k) == d.disk[z][ENTRY_SIZE * (i % 64) + k]
    ensures e == Dirs.At(dir, i)
  {
    assert EntryIs(d, n, i, EntryOf(dir, i)) && Holds(d, n, PlaceOf(i / 64));
    forall k: nat | k < ENTRY_SIZE ensures ByteOf(e, k) == ByteOf(Dirs.At(dir, i), k) {
      InBlock(i, k);
      assert ByteOf(Dirs.At(dir, i), k) == DiskByte(d, n, i, k);
    }
    SameEntry(e, Dirs.At(dir, i));
  }

  // ---- add_entry on the disk -----------------------------------------------------------------------

  /** Every other file reads as before. */
  ghost predicate OtherFiles(d: Device, r: Device, n: nat)
    requires Shape(d) && Shape(r)
  {
    && |r.inodes| == |d.inodes|
    && forall m: nat, off: nat | m < |d.inodes| && m != n && off / BLOCK_SIZE < MAX_BLOCKS :: FileByte(r, m, off) == FileByte(d, m, off)
  }

  lemma OthersTrans(d: Device, m: Device, r: Device, n: nat)
    requires Shape(d) && Shape(m) && Shape(r) && OtherFiles(d, m, n) && OtherFiles(m, r, n)
    ensures OtherFiles(d, r, n)
  {
    hide FileByte;
  }

  lemma OthersSame(d: Device, r: Device, n: nat)
    requires Shape(d) && Shape(r) && SameBytes(d, r)
    ensures OtherFiles(d, r, n)
  {
    hide FileByte;
  }

  lemma OthersStored(d: Device, r: Device, n: nat, pos: nat, s: seq<Byte>)
    requires Shape(d) && Shape(r) && |r.inodes| == |d.inodes| && BytesStored(d, r, n, pos, s)
    ensures OtherFiles(d, r, n)
  {
    hide FileByte;
  }

  /** The block of entry i: block 0 is there; for a later one add_entry calls create_block when it comes to its first
      entry.  0 when there is none. */
  function BlockOf(d: Device, n: nat, i: nat): (r: (Device, ZoneNr))
    requires Shape(d) && n < |d.inodes| && i < 64 * MAX_BLOCKS
    ensures Shape(r.0) && |r.0.inodes| == |d.inodes|
  {
    if i % 64 == 0 && i > 0 then Bmap(d, n, i / 64, true) else (d, At(d, n, PlaceOf(i / 64)))
  }

  /** add_entry when it stops at entry i: a new entry is cleared and counted in i_size, then it is named. */
  function AddedOnDisk(d: Device, n: nat, i: nat, name: seq<Byte>): (r: (Device, bool))
    requires Shape(d) && n < |d.inodes| && i < 64 * MAX_BLOCKS && |name| == Dirs.NAME_LEN
    ensures Shape(r.0) && |r.0.inodes| == |d.inodes|
  {
    var (d1, z) := BlockOf(d, n, i);
    if z == 0 then (d1, false)
    else
      var d2 := if ENTRY_SIZE * i >= d1.inodes[n].size
                then SetSize(StorePart(d1, n, i / 64, i % 64, 0, [0, 0]), n, ENTRY_SIZE * (i + 1)) else d1;
      (StorePart(d2, n, i / 64, i % 64, 2, name), true)
  }

  /** The directory after the block of entry i was looked for. */
  function Roomy(dir: Dirs.Dir, i: nat): (r: Dirs.Dir)
    requires Dirs.DirOk(dir)
    ensures Dirs.DirOk(r)
  {
    if i < 64 * |dir.blocks| then dir else Dirs.Extended(dir)
  }

  /** A block that is there already. */
  lemma Revisited(d: Device, n: nat, dir: Dirs.Dir, k: nat)
    requires OnDisk(d, n, dir) && k < |dir.blocks|
    ensures var (r, z) := Bmap(d, n, k, true); z != 0 && SameBytes(d, r) && OnDisk(r, n, dir)
  {
    hide Inv, SameBytes, Bmap, Full, EntryIs;
    BmapStep(d, n, k, true);
    var (r, z) := Bmap(d, n, k, true);
    forall b: nat | b < |dir.blocks| ensures Holds(r, n, PlaceOf(b)) { assert Holds(d, n, PlaceOf(b)); }
    forall i: nat | i < 64 * MAX_BLOCKS ensures EntryIs(r, n, i, EntryOf(dir, i)) { EntryKept(d, r, n, i, EntryOf(dir, i)); }
  }

  lemma BlockFound(d: Device, n: nat, dir: Dirs.Dir, i: nat)
    requires OnDisk(d, n, dir) && i < 64 * MAX_BLOCKS && i <= 64 * |dir.blocks|
    ensures var (r, z) := BlockOf(d, n, i);
            && SameBytes(d, r) && (z == 0 ==> Full(r) && i == 64 * |dir.blocks|)
            && OnDisk(r, n, if z == 0 then dir else Roomy(dir, i))
  {
    hide Inv, SameBytes, Bmap, Full, OnDisk;
    OnDiskBlocks(d, n, dir);
    if i % 64 == 0 && i > 0 {
      if i / 64 < |dir.blocks| { Revisited(d, n, dir, i / 64); } else { Grows(d, n, dir); }
    } else {
      SameSelf(d, n);
    }
  }

  lemma OnDiskBlocks(d: Device, n: nat, dir: Dirs.Dir)
    requires OnDisk(d, n, dir)
    ensures Shape(d) && n < |d.inodes| && d.inodes[n].size == ENTRY_SIZE * dir.size && dir.size <= 64 * |dir.blocks| <= 64 * MAX_BLOCKS
    ensures Dirs.DirOk(dir) && |dir.blocks| > 0 && forall b: nat | b < |dir.blocks| :: At(d, n, PlaceOf(b)) != 0
  {
    forall b: nat | b < |dir.blocks| ensures At(d, n, PlaceOf(b)) != 0 { assert Holds(d, n, PlaceOf(b)); }
  }

  /** One store in entry i. */
  lemma PartDone(d: Device, n: nat, dir: Dirs.Dir, i: nat, c: nat, s: seq<Byte>, f: Dirs.Entry)
    requires OnDisk(d, n, dir) && i < 64 * |dir.blocks| && c < ENTRY_SIZE && c + |s| <= ENTRY_SIZE
    requires Patched(Dirs.At(dir, i), f, c, s)
    ensures i / 64 < MAX_BLOCKS
    ensures var r := StorePart(d, n, i / 64, i % 64, c, s);
            OtherFiles(d, r, n) && OnDisk(r, n, Dirs.WithEntry(dir, i / 64, i % 64, f))
  {
    hide OnDisk, Patched, StorePart;
    OnDiskBlocks(d, n, dir);
    assert i == 64 * (i / 64) + i % 64;
    Stored(d, n, dir, i / 64, i % 64, c, s, f);
    OthersStored(d, StorePart(d, n, i / 64, i % 64, c, s), n, ENTRY_SIZE * i + c, s);
  }

  /** The new entry cleared and counted. */
  lemma Counted(d: Device, n: nat, dir: Dirs.Dir, i: nat)
    requires OnDisk(d, n, dir) && i == dir.size < 64 * |dir.blocks|
    ensures i / 64 < MAX_BLOCKS
    ensures var r := SetSize(StorePart(d, n, i / 64, i % 64, 0, [0, 0]), n, ENTRY_SIZE * (i + 1));
            && OtherFiles(d, r, n)
            && OnDisk(r, n, Dirs.WithEntry(dir, i / 64, i % 64, Dirs.At(dir, i).(inode := 0)).(size := i + 1))
  {
    hide OnDisk, StorePart, SetSize, OtherFiles, Patched, SameBytes;
    OnDiskBlocks(d, n, dir);
    NumberPatched(Dirs.At(dir, i), 0);
    PartDone(d, n, dir, i, 0, [0, 0], Dirs.At(dir, i).(inode := 0));
    var m := StorePart(d, n, i / 64, i % 64, 0, [0, 0]);
    OnDiskBlocks(m, n, Dirs.WithEntry(dir, i / 64, i % 64, Dirs.At(dir, i).(inode := 0)));
    Resized(m, n, Dirs.WithEntry(dir, i / 64, i % 64, Dirs.At(dir, i).(inode := 0)), i + 1);
    var r := SetSize(m, n, ENTRY_SIZE * (i + 1));
    OnDiskBlocks(r, n, Dirs.WithEntry(dir, i / 64, i % 64, Dirs.At(dir, i).(inode := 0)).(size := i + 1));
    OthersSame(m, r, n);
    OthersTrans(d, m, r, n);
  }

  /** add_entry on the bytes of the directory file, stopping at the first free entry, makes of it what Directories.AddEntry
      makes of the directory, and touches no other file; it fails only when a block is needed and the device is full. */
  lemma AddsOnDisk(d: Device, n: nat, dir: Dirs.Dir, k: Dirs.Name, name: seq<Byte>)
    requires OnDisk(d, n, dir) && |k| <= Dirs.NAME_LEN && name == Dirs.Padded(k) && Dirs.FirstFree(dir, 0) < 64 * MAX_BLOCKS
    ensures var (r, ok) := AddedOnDisk(d, n, Dirs.FirstFree(dir, 0), name);
            && OtherFiles(d, r, n) && OnDisk(r, n, Dirs.Added(dir, k, ok).0)
            && Dirs.Added(dir, k, ok).1 == (if ok then Dirs.FirstFree(dir, 0) else -1)
            && (!ok ==> Full(r))
  {
    hide OnDisk, BlockOf, StorePart, OtherFiles, Full, SameBytes, Dirs.Added, Dirs.SameBut, Dirs.FirstFree;
    OnDiskBlocks(d, n, dir);
    var i := Dirs.FirstFree(dir, 0);
    BlockFound(d, n, dir, i);
    var (d1, z) := BlockOf(d, n, i);
    OthersSame(d, d1, n);
    if z == 0 {
      Dirs.NoneFree(dir, i, k);
    } else {
      var grown := Roomy(dir, i);
      OnDiskBlocks(d1, n, grown);
      var mid := if i < dir.size then grown else Dirs.WithEntry(grown, i / 64, i % 64, Dirs.At(grown, i).(inode := 0)).(size := i + 1);
      Dirs.EntryAdded(dir, grown, mid, i, k, true);
      var d2 := if ENTRY_SIZE * i >= d1.inodes[n].size
                then SetSize(StorePart(d1, n, i / 64, i % 64, 0, [0, 0]), n, ENTRY_SIZE * (i + 1)) else d1;
      if i >= dir.size { Counted(d1, n, grown, i); OthersTrans(d, d1, d2, n); }
      NamedOnDisk(d2, n, mid, i, k, name);
      OthersTrans(d, d2, StorePart(d2, n, i / 64, i % 64, 2, name), n);
      AddedRoom(dir, k);
    }
  }

  lemma AddedRoom(dir: Dirs.Dir, k: Dirs.Name)
    requires Dirs.DirOk(dir) && |k| <= Dirs.NAME_LEN
    ensures Dirs.Added(dir, k, true).1 == Dirs.FirstFree(dir, 0)
  {
  }

  lemma NamedOnDisk(d: Device, n: nat, mid: Dirs.Dir, i: nat, k: Dirs.Name, name: seq<Byte>)
    requires OnDisk(d, n, mid) && i < 64 * |mid.blocks| && |k| <= Dirs.NAME_LEN && name == Dirs.Padded(k)
    requires Dirs.DirOk(mid) && Dirs.At(mid, i).inode == 0
    ensures i / 64 < MAX_BLOCKS
    ensures var r := StorePart(d, n, i / 64, i % 64, 2, name);
            OtherFiles(d, r, n) && OnDisk(r, n, Dirs.WithEntry(mid, i / 64, i % 64, Dirs.Entry(0, Dirs.Padded(k))))
  {
    hide OnDisk, StorePart, Patched, OtherFiles;
    OnDiskBlocks(d, n, mid);
    NamePatched(Dirs.At(mid, i), name);
    PartDone(d, n, mid, i, 2, name, Dirs.Entry(0, Dirs.Padded(k)));
  }

  /** The store of an inode number on the disk is the one Directories makes: that of the caller of add_entry, and the 0 of
      unlink and rmdir. */
  lemma NumbersOnDisk(d: Device, n: nat, dir: Dirs.Dir, i: nat, ino: nat)
    requires OnDisk(d, n, dir) && i < 64 * |dir.blocks| && ino < 0x10000
    ensures i / 64 < MAX_BLOCKS && n < |d.inodes|
    ensures var r := StorePart(d, n, i / 64, i % 64, 0, [ino % 256, ino / 256]);
            OtherFiles(d, r, n) && OnDisk(r, n, Dirs.WithNumber(dir, i, ino))
  {
    hide OnDisk, StorePart, Patched, OtherFiles;
    OnDiskBlocks(d, n, dir);
    NumberPatched(Dirs.At(dir, i), ino);
    PartDone(d, n, dir, i, 0, [ino % 256, ino / 256], Dirs.At(dir, i).(inode := ino));
  }
}
