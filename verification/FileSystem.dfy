/** The routines of fs/bitmap.cc, fs/inode.cc, fs/file_dev.cc and fs/truncate.cc, updating the bitmap, the
    blocks and the inodes in place.  Each is shown to compute the function of the same purpose in
    BlockTree, FileData, FileIo or Truncate; panic() is a precondition. */
module FileSystem {
  import opened Basics
  import opened BlockTree
  import opened FileData
  import opened FileIo
  import opened ReservedBlocks
  import opened Truncate

  /** struct file: the position and O_APPEND. */
  class OpenFile {
    var pos: nat
    const append: bool
    constructor (append: bool)
      ensures pos == 0 && this.append == append
    {
      this.pos := 0;
      this.append := append;
    }
  }

  class Fs {
    const zmap: array<bool>
    const disk: array<Block>
    const inodes: array<Inode>
    const first: nat
    const nzones: nat

    ghost function Snap(): Device
      reads zmap, disk, inodes
    {
      Device(zmap[..], disk[..], inodes[..], first, nzones)
    }

    ghost predicate Valid()
      reads zmap, disk, inodes
    {
      Shape(Snap())
    }

    constructor (zmap: array<bool>, disk: array<Block>, inodes: array<Inode>, first: nat, nzones: nat)
      requires Shape(Device(zmap[..], disk[..], inodes[..], first, nzones))
      ensures Valid() && Snap() == Device(zmap[..], disk[..], inodes[..], first, nzones)
    {
      this.zmap, this.disk, this.inodes, this.first, this.nzones := zmap, disk, inodes, first, nzones;
    }

    /** notl, bsfl: the lowest clear bit of the 32 bits at base, or 32. */
    method BitScan(base: nat) returns (k: nat)
      requires base + 32 <= zmap.Length
      ensures k <= 32 && (k < 32 ==> !zmap[base + k]) && forall i | base <= i < base + k :: zmap[i]
    {
      k := 0;
      while k < 32 && zmap[base + k]
        invariant k <= 32 && forall i | base <= i < base + k :: zmap[i]
      {
        k := k + 1;
      }
    }

    /** find_first_zero: word by word over the 8192 bits of one map block. */
    method FindFirstZero(base: nat) returns (j: nat)
      requires base + MAP_BITS <= zmap.Length
      ensures j <= MAP_BITS && (j < MAP_BITS ==> !zmap[base + j]) && forall i | base <= i < base + j :: zmap[i]
    {
      j := 0;
      while j < MAP_BITS
        invariant j <= MAP_BITS && j % 32 == 0 && forall i | base <= i < base + j :: zmap[i]
      {
        var k := BitScan(base + j);
        if k < 32 { return j + k; }
        j := j + 32;
      }
    }

    lemma FirstClearAt(m: seq<bool>, j: nat, k: nat)
      requires j <= k <= |m| && forall i | j <= i < k :: m[i]
      ensures FirstClear(m, j) == FirstClear(m, k)
      decreases k - j
    {
      if j < k { FirstClearAt(m, j + 1, k); }
    }

    /** new_block up to the sleep in getblk. */
    method ReserveBlock() returns (b: ZoneNr)
      requires Valid()
      modifies zmap
      ensures Valid() && (Snap(), b) == Reserve(old(Snap()))
    {
      var i, j := 0, MAP_BITS;
      while i < 8 && (i + 1) * MAP_BITS <= zmap.Length
        invariant 0 <= i <= 8 && i * MAP_BITS <= zmap.Length && zmap[..] == old(zmap[..])
        invariant forall k | 0 <= k < i * MAP_BITS :: zmap[k]
      {
        j := FindFirstZero(i * MAP_BITS);
        if j < MAP_BITS { break; }
        i := i + 1;
      }
      if i >= 8 || (i + 1) * MAP_BITS > zmap.Length {
        assert zmap.Length == i * MAP_BITS by { MapCount(zmap.Length, i); }
        FirstClearAt(zmap[..], 0, zmap.Length);
        return 0;
      }
      j := j + i * MAP_BITS;
      FirstClearAt(zmap[..], 0, j);
      zmap[j] := true;
      assert zmap[..] == old(zmap[..])[j := true];
      var z: int := j + first - 1;
      if z < 0 || z >= nzones { return 0; }
      b := z;
    }

    /** new_block when nothing comes in between. */
    method AllocBlock() returns (b: ZoneNr)
      requires Valid()
      modifies zmap, disk
      ensures Valid() && (Snap(), b) == NewBlock(old(Snap()))
    {
      b := ReserveBlock();
      if b != 0 { disk[b] := ZeroBlock(); }
    }

    /** The zone number into the inode, or into the indirect block whose buffer is that of zone parent. */
    method StoreZone(n: nat, p: Pos, parent: nat, z: ZoneNr)
      requires Valid() && n < inodes.Length && Legal(p) && (p.Child? ==> parent < disk.Length)
      modifies disk, inodes
      ensures Valid() && Snap() == StoreIn(old(Snap()), n, p, parent, z)
    {
      match p
      case Slot(i) => inodes[n] := inodes[n].(zone := inodes[n].zone[i := z]);
      case Child(q, k) => disk[parent] := PutZone(disk[parent], k, z);
    }

    /** What create_block does after the sleep, with the indirect block read before it: SettleKeeps says when that is
        right. */
    method SettleZone(n: nat, p: Pos, parent: nat, z: ZoneNr)
      requires Valid() && n < inodes.Length && Legal(p) && DataZone(Snap(), z) && (p.Child? ==> parent < disk.Length)
      modifies disk, inodes
      ensures Valid() && Snap() == Settle(old(Snap()), n, p, parent, z)
    {
      disk[z] := ZeroBlock();
      StoreZone(n, p, parent, z);
    }

    lemma MapCount(len: nat, i: nat)
      requires len % MAP_BITS == 0 && i * MAP_BITS <= len <= 8 * MAP_BITS
      requires i >= 8 || (i + 1) * MAP_BITS > len
      ensures len == i * MAP_BITS
    {
    }

    /** The two panics of free_block are excluded by the precondition. */
    method ReleaseBlock(b: nat)
      requires Valid() && FreeBlock(Snap(), b).ok
      modifies zmap
      ensures Valid() && Snap() == FreeBlock(old(Snap()), b).dev
    {
      zmap[b - first + 1] := false;
    }

    /** One level of _bmap: the zone number at place p, entered with create when there is none.  parent is
        the zone of the indirect block that holds it. */
    method CellAt(n: nat, p: Pos, parent: nat, create: bool) returns (z: ZoneNr)
      requires Valid() && Inv(Snap()) && n < inodes.Length && Legal(p) && inodes[n].file
      requires p.Child? ==> parent == At(Snap(), n, p.parent) && 0 < parent < disk.Length
      modifies zmap, disk, inodes
      ensures Valid() && (Snap(), z) == Cell(old(Snap()), n, p, create)
    {
      hide Inv, Used, FirstClear;
      z := if p.Slot? then inodes[n].zone[p.i] else ZoneAt(disk[parent], p.k);
      if create && z == 0 {
        ghost var d := Snap();
        NewBlockFresh(d);
        z := AllocBlock();
        if z != 0 {
          if p.Child? { ParentOld(d, n, p, z); }
          StoreZone(n, p, parent, z);
        }
      }
    }

    /** _bmap: bmap without create, create_block with it. */
    method BmapAt(n: nat, k: nat, create: bool) returns (z: ZoneNr)
      requires Valid() && Inv(Snap()) && n < inodes.Length && inodes[n].file && k < MAX_BLOCKS
      modifies zmap, disk, inodes
      ensures Valid() && Inv(Snap()) && (Snap(), z) == Bmap(old(Snap()), n, k, create)
    {
      hide Inv, Cell;
      BmapStep(Snap(), n, k, create);
      if k < 7 {
        z := CellAt(n, Slot(k), 0, create);
      } else if k - 7 < 512 {
        CellStep(Snap(), n, Slot(7), create);
        z := CellAt(n, Slot(7), 0, create);
        if z != 0 {
          ZoneThere(Snap(), n, Slot(7));
          z := CellAt(n, Child(Slot(7), k - 7), z, create);
        }
      } else {
        z := DoubleAt(n, (k - 519) / 512, (k - 519) % 512, create);
      }
    }

    /** bmap: _bmap without create only reads. */
    method BmapRead(n: nat, k: nat) returns (z: ZoneNr)
      requires Valid() && n < inodes.Length && inodes[n].file && k < MAX_BLOCKS
      ensures z == At(Snap(), n, PlaceOf(k))
    {
      if k < 7 { return inodes[n].zone[k]; }
      if k - 7 < 512 {
        z := inodes[n].zone[7];
        if z == 0 || z >= disk.Length { return 0; }
        return ZoneAt(disk[z], k - 7);
      }
      z := inodes[n].zone[8];
      ghost var mid := Child(Slot(8), (k - 519) / 512);
      assert Legal(mid) && PlaceOf(k) == Child(mid, (k - 519) % 512);
      if z == 0 || z >= disk.Length {
        assert At(Snap(), n, mid) == 0;
        return 0;
      }
      z := ZoneAt(disk[z], (k - 519) / 512);
      assert z == At(Snap(), n, mid);
      if z == 0 || z >= disk.Length { return 0; }
      z := ZoneAt(disk[z], (k - 519) % 512);
    }

    method DoubleAt(n: nat, i: nat, j: nat, create: bool) returns (z: ZoneNr)
      requires Valid() && Inv(Snap()) && n < inodes.Length && inodes[n].file && i < 512 && j < 512
      modifies zmap, disk, inodes
      ensures Valid() && (Snap(), z) == Bmap(old(Snap()), n, 519 + 512 * i + j, create)
    {
      hide Inv, Cell;
      CellStep(Snap(), n, Slot(8), create);
      z := CellAt(n, Slot(8), 0, create);
      if z == 0 { return; }
      ZoneThere(Snap(), n, Slot(8));
      CellStep(Snap(), n, Child(Slot(8), i), create);
      z := CellAt(n, Child(Slot(8), i), z, create);
      if z == 0 { return; }
      ZoneThere(Snap(), n, Child(Slot(8), i));
      z := CellAt(n, Child(Child(Slot(8), i), j), z, create);
    }

    lemma ZoneThere(d: Device, n: nat, p: Pos)
      requires Shape(d) && Inv(d) && n < |d.inodes| && Legal(p) && At(d, n, p) != 0
      ensures 0 < At(d, n, p) < |d.disk|
    {
      assert Holds(d, n, p);
    }
  
    /** file_write.  The result is -1 when nothing was written. */
    method FileWrite(n: nat, filp: OpenFile, buf: seq<Byte>) returns (res: int)
      requires Valid() && Inv(Snap()) && n < inodes.Length && inodes[n].file
      requires (if filp.append then inodes[n].size else filp.pos) + |buf| <= MAX_SIZE
      modifies zmap, disk, inodes, filp
      ensures Valid() && Inv(Snap())
      ensures var pos := if filp.append then old(inodes[n].size) else old(filp.pos);
              var (r, w) := WriteFrom(old(Snap()), n, pos, buf);
              && Snap() == r && res == (if w > 0 then w else -1)
              && filp.pos == if filp.append then old(filp.pos) else pos + w
    {
      hide Inv, WriteFrom;
      var pos := if filp.append then inodes[n].size else filp.pos;
      ghost var start := pos;
      ghost var d0 := Snap();
      var i := 0;
      while i < |buf|
        invariant 0 <= i <= |buf| && pos == start + i
        invariant Valid() && Inv(Snap()) && inodes[n].file
        invariant WriteFrom(d0, n, start, buf) == (WriteFrom(Snap(), n, pos, buf[i..]).0, i + WriteFrom(Snap(), n, pos, buf[i..]).1)
        invariant filp.pos == old(filp.pos)
      {
        var c := WriteChunk(n, pos, buf[i..]);
        if c == 0 {
          res := FinishWrite(filp, pos, i);
          return;
        }
        assert buf[i..][c..] == buf[i + c..];
        pos := pos + c;
        i := i + c;
      }
      WriteNothing(Snap(), n, pos);
      assert buf[i..] == [];
      res := FinishWrite(filp, pos, i);
    }

    lemma WriteNothing(d: Device, n: nat, pos: nat)
      requires Shape(d) && n < |d.inodes| && pos <= MAX_SIZE
      ensures WriteFrom(d, n, pos, []) == (d, 0)
    {
    }

    method FinishWrite(filp: OpenFile, pos: nat, i: nat) returns (res: int)
      modifies filp
      ensures filp.pos == (if filp.append then old(filp.pos) else pos) && res == if i > 0 then i else -1
    {
      if !filp.append { filp.pos := pos; }
      res := if i != 0 then i else -1;
    }

    /** One turn of file_write's loop: how many bytes were stored, 0 when create_block failed. */
    method WriteChunk(n: nat, pos: nat, rest: seq<Byte>) returns (c: nat)
      requires Valid() && Inv(Snap()) && n < inodes.Length && inodes[n].file && rest != [] && pos + |rest| <= MAX_SIZE
      modifies zmap, disk, inodes
      ensures Valid() && Inv(Snap()) && inodes[n].file && c <= |rest|
      ensures c == 0 ==> WriteFrom(old(Snap()), n, pos, rest) == (Snap(), 0)
      ensures c > 0 ==> var (r, w) := WriteFrom(Snap(), n, pos + c, rest[c..]); WriteFrom(old(Snap()), n, pos, rest) == (r, c + w)
    {
      hide Inv, Bmap, Written, SameBytes;
      ghost var d := Snap();
      BmapStep(d, n, pos / BLOCK_SIZE, true);
      var block := BmapAt(n, pos / BLOCK_SIZE, true);
      if block == 0 { return 0; }
      ChunkStep(d, n, pos, rest);
      KindKept(d, n, pos, rest);
      c := BLOCK_SIZE - pos % BLOCK_SIZE;
      if c > |rest| { c := |rest|; }
      assert c == Chunk(pos, |rest|);
      hide StoreChunk;
      StoreAt(n, pos, block, rest[..c]);
    }

    lemma KindKept(d: Device, n: nat, pos: nat, rest: seq<Byte>)
      requires Shape(d) && Inv(d) && n < |d.inodes| && d.inodes[n].file && rest != [] && pos + |rest| <= MAX_SIZE
      requires Bmap(d, n, pos / BLOCK_SIZE, true).1 != 0
      ensures var (d1, z) := Bmap(d, n, pos / BLOCK_SIZE, true);
              StoreChunk(d1, n, pos, z, rest[..Chunk(pos, |rest|)]).inodes[n].file
    {
      BmapStep(d, n, pos / BLOCK_SIZE, true);
    }

    /** The part of file_write's loop after create_block: the size, then the bytes. */
    method StoreAt(n: nat, pos: nat, block: nat, s: seq<Byte>)
      requires Valid() && n < inodes.Length && pos % BLOCK_SIZE + |s| <= BLOCK_SIZE
      modifies disk, inodes
      ensures Valid() && Snap() == StoreChunk(old(Snap()), n, pos, block, s)
    {
      if pos + |s| > inodes[n].size {
        inodes[n] := inodes[n].(size := pos + |s|);
      }
      if block < disk.Length {
        disk[block] := Splice(disk[block], pos % BLOCK_SIZE, s);
      }
    }

    /** file_read: the bytes copied to the user; fewer than one is asked for when count <= 0. */
    method FileRead(n: nat, filp: OpenFile, count: int) returns (out: seq<Byte>)
      requires Valid() && Inv(Snap()) && n < inodes.Length && inodes[n].file
      requires count > 0 ==> filp.pos + count <= MAX_SIZE
      modifies filp
      ensures out == if count <= 0 then [] else ReadFrom(Snap(), n, old(filp.pos), count)
      ensures filp.pos == old(filp.pos) + |out|
    {
      out := [];
      if count <= 0 { return; }
      out := ReadLoop(n, filp.pos, count);
      filp.pos := filp.pos + |out|;
    }

    /** file_read's loop; f_pos advances with pos. */
    method ReadLoop(n: nat, start: nat, count: nat) returns (out: seq<Byte>)
      requires Valid() && Inv(Snap()) && n < inodes.Length && inodes[n].file && start + count <= MAX_SIZE
      ensures out == ReadFrom(Snap(), n, start, count)
    {
      hide Inv, ReadFrom, BlockPart, Shape, Bmap;
      ghost var d := Snap();
      out := [];
      var pos, left := start, count;
      while left > 0
        invariant 0 <= left <= count && pos == start + (count - left) && |out| == count - left
        invariant ReadFrom(d, n, start, count) == out + ReadFrom(d, n, pos, left)
      {
        var part := ReadChunk(n, pos, left);
        Regroup(out, part, ReadFrom(d, n, pos + |part|, left - |part|));
        out := out + part;
        left := left - |part|;
        pos := pos + |part|;
      }
      ReadNothing(d, n, pos);
    }

    lemma Regroup(a: seq<Byte>, b: seq<Byte>, c: seq<Byte>)
      ensures a + (b + c) == (a + b) + c
    {
    }

    lemma ReadNothing(d: Device, n: nat, pos: nat)
      requires Shape(d) && n < |d.inodes| && pos <= MAX_SIZE
      ensures ReadFrom(d, n, pos, 0) == []
    {
    }

    lemma ReadUnfold(d: Device, n: nat, pos: nat, left: nat)
      requires Shape(d) && n < |d.inodes| && left > 0 && pos + left <= MAX_SIZE
      ensures var c := Chunk(pos, left);
              ReadFrom(d, n, pos, left)
              == BlockPart(d, Bmap(d, n, pos / BLOCK_SIZE, false).1, pos % BLOCK_SIZE, c) + ReadFrom(d, n, pos + c, left - c)
    {
    }

    /** One turn of file_read's loop. */
    method ReadChunk(n: nat, pos: nat, left: nat) returns (part: seq<Byte>)
      requires Valid() && Inv(Snap()) && n < inodes.Length && inodes[n].file && left > 0 && pos + left <= MAX_SIZE
      ensures 0 < |part| <= left
      ensures ReadFrom(Snap(), n, pos, left) == part + ReadFrom(Snap(), n, pos + |part|, left - |part|)
    {
      hide Inv, Bmap, ReadFrom, SameBytes, Others;
      BmapStep(Snap(), n, pos / BLOCK_SIZE, false);
      ReadUnfold(Snap(), n, pos, left);
      var nr := BmapRead(n, pos / BLOCK_SIZE);
      var c := pos % BLOCK_SIZE;
      var chars := Min(BLOCK_SIZE - c, left);
      assert chars == Chunk(pos, left);
      if nr != 0 && nr < disk.Length {
        part := disk[nr][c..c + chars];
      } else {
        part := seq(chars, _ => 0);
      }
      assert part == BlockPart(Snap(), nr, c, chars);
    }

    /** truncate; no panic of free_block is reached. */
    method TruncateAt(n: nat)
      requires Valid() && Inv(Snap()) && n < inodes.Length
      modifies zmap, inodes
      ensures Valid() && Inv(Snap()) && Snap() == TruncateFile(old(Snap()), n).dev
    {
      if !inodes[n].file { return; }
      TruncateStep(Snap(), n);
      TruncateInPlace(n);
    }

    method TruncateInPlace(n: nat)
      requires Valid() && n < inodes.Length && inodes[n].file && TruncateFile(Snap(), n).ok
      modifies zmap, inodes
      ensures Valid() && Snap() == TruncateFile(old(Snap()), n).dev
    {
      hide FreeDirect, FreeInd, FreeDind;
      ReleaseDirect(n);
      ReleaseInd(inodes[n].zone[7]);
      ReleaseDind(inodes[n].zone[8]);
      inodes[n] := inodes[n].(zone := inodes[n].zone[7 := 0][8 := 0]);
      inodes[n] := inodes[n].(size := 0);
    }

    method ReleaseDirect(n: nat)
      requires Valid() && n < inodes.Length && FreeDirect(Snap(), n, 0).ok
      modifies zmap, inodes
      ensures Valid() && Snap() == FreeDirect(old(Snap()), n, 0).dev
    {
      hide FreeBlock;
      ghost var d := Snap();
      var i := 0;
      while i < 7
        invariant 0 <= i <= 7 && Valid() && FreeDirect(Snap(), n, i) == FreeDirect(d, n, 0)
        invariant disk[..] == d.disk
      {
        if inodes[n].zone[i] != 0 {
          ReleaseBlock(inodes[n].zone[i]);
          inodes[n] := inodes[n].(zone := inodes[n].zone[i := 0]);
        }
        i := i + 1;
      }
    }

    method ReleaseInd(b: nat)
      requires Valid() && FreeInd(Snap(), b).ok
      modifies zmap
      ensures Valid() && Snap() == FreeInd(old(Snap()), b).dev
    {
      if b == 0 { return; }
      hide FreeBlock;
      ghost var d := Snap();
      var k := 0;
      while k < 512
        invariant 0 <= k <= 512 && Valid() && FreeZones(Snap(), b, k) == FreeZones(d, b, 0)
      {
        var z := ZoneAt(disk[b], k);
        if z != 0 { ReleaseBlock(z); }
        k := k + 1;
      }
      ReleaseBlock(b);
    }

    method ReleaseDind(b: nat)
      requires Valid() && FreeDind(Snap(), b).ok
      modifies zmap
      ensures Valid() && Snap() == FreeDind(old(Snap()), b).dev
    {
      if b == 0 { return; }
      hide FreeBlock, FreeInd;
      ghost var d := Snap();
      var k := 0;
      while k < 512
        invariant 0 <= k <= 512 && Valid() && FreeInds(Snap(), b, k) == FreeInds(d, b, 0)
      {
        var z := ZoneAt(disk[b], k);
        if z != 0 { ReleaseInd(z); }
        k := k + 1;
      }
      ReleaseBlock(b);
    }
  }
}
