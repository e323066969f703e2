/** file_read and file_write of fs/file_dev.cc: a file is a function from offsets to bytes. */
module FileIo {
  import opened Basics
  import opened BlockTree
  import opened FileData

  const MAX_SIZE: nat := 268_966_912   // MAX_BLOCKS * BLOCK_SIZE

  // ---- file_write ------------------------------------------------------------------------------

  function SetSize(d: Device, n: nat, size: nat): (r: Device)
    requires Shape(d) && n < |d.inodes|
    ensures Shape(r)
  {
    d.(inodes := d.inodes[n := d.inodes[n].(size := size)])
  }

  /** What one turn of file_write's loop stores: the block's part of buf at offset pos. */
  function Chunk(pos: nat, count: nat): (c: nat)
    requires count > 0
    ensures 0 < c <= count && pos % BLOCK_SIZE + c <= BLOCK_SIZE
  {
    Min(BLOCK_SIZE - pos % BLOCK_SIZE, count)
  }

  /** The loop body after create_block returned zone z. */
  function StoreChunk(d: Device, n: nat, pos: nat, z: nat, s: seq<Byte>): (r: Device)
    requires Shape(d) && n < |d.inodes| && pos % BLOCK_SIZE + |s| <= BLOCK_SIZE
    ensures Shape(r)
  {
    var d1 := if pos + |s| > d.inodes[n].size then SetSize(d, n, pos + |s|) else d;
    PutBytes(d1, z, pos % BLOCK_SIZE, s)
  }

  /** The loop of file_write from offset pos on: the new device and how many bytes were written. */
  function WriteFrom(d: Device, n: nat, pos: nat, buf: seq<Byte>): (r: (Device, nat))
    requires Shape(d) && n < |d.inodes| && pos + |buf| <= MAX_SIZE
    ensures Shape(r.0) && |r.0.inodes| == |d.inodes| && r.1 <= |buf|
    decreases |buf|
  {
    if buf == [] then (d, 0)
    else
      var (d1, z) := Bmap(d, n, pos / BLOCK_SIZE, true);
      if z == 0 then (d1, 0)
      else
        var c := Chunk(pos, |buf|);
        var (r, w) := WriteFrom(StoreChunk(d1, n, pos, z, buf[..c]), n, pos + c, buf[c..]);
        (r, c + w)
  }

  /** Exactly the first w bytes of buf were stored at pos in file n; its size covers them; nothing else changed. */
  ghost predicate Written(d: Device, r: Device, n: nat, pos: nat, buf: seq<Byte>, w: nat)
    requires Shape(d) && Shape(r) && n < |d.inodes| && |r.inodes| == |d.inodes| && w <= |buf|
  {
    && BytesStored(d, r, n, pos, buf[..w])
    && (forall m: nat | m < |d.inodes| :: r.inodes[m].file == d.inodes[m].file)
    && (forall m: nat | m < |d.inodes| && m != n :: r.inodes[m].size == d.inodes[m].size)
    && r.inodes[n].size == if w > 0 && pos + w > d.inodes[n].size then pos + w else d.inodes[n].size
  }

  lemma SetSizeStep(d: Device, n: nat, size: nat)
    requires Shape(d) && Inv(d) && n < |d.inodes|
    ensures Inv(SetSize(d, n, size)) && SameBytes(d, SetSize(d, n, size))
    ensures forall m: nat, q | m < |d.inodes| && Legal(q) :: At(SetSize(d, n, size), m, q) == At(d, m, q)
  {
    var r := SetSize(d, n, size);
    forall m: nat, q | m < |d.inodes| && Legal(q) ensures At(r, m, q) == At(d, m, q) {
      SetSizeAt(d, n, size, m, q);
    }
    StoredInv(d, r);
    assert forall m: nat, off: nat | m < |d.inodes| && off / BLOCK_SIZE < MAX_BLOCKS :: FileByte(r, m, off) == FileByte(d, m, off);
  }

  lemma {:induction false} SetSizeAt(d: Device, n: nat, size: nat, m: nat, q: Pos)
    requires Shape(d) && n < |d.inodes| && m < |d.inodes| && Legal(q)
    ensures At(SetSize(d, n, size), m, q) == At(d, m, q)
    decreases q
  {
    if q.Child? {
      LegalParent(q);
      SetSizeAt(d, n, size, m, q.parent);
    }
  }

  lemma ChunkStep(d: Device, n: nat, pos: nat, buf: seq<Byte>)
    requires Shape(d) && Inv(d) && n < |d.inodes| && d.inodes[n].file && buf != [] && pos + |buf| <= MAX_SIZE
    requires Bmap(d, n, pos / BLOCK_SIZE, true).1 != 0
    ensures var (d1, z) := Bmap(d, n, pos / BLOCK_SIZE, true);
            var c := Chunk(pos, |buf|);
            var r := StoreChunk(d1, n, pos, z, buf[..c]);
            |r.inodes| == |d.inodes| && Inv(r) && Written(d, r, n, pos, buf, c)
  {
    hide Inv, Bmap, SameBytes, BytesStored, StoreChunk;
    var k := pos / BLOCK_SIZE;
    BmapStep(d, n, k, true);
    var (d1, z) := Bmap(d, n, k, true);
    StoreChunkStep(d1, n, pos, z, buf[..Chunk(pos, |buf|)]);
    BytesAfter(d, d1, StoreChunk(d1, n, pos, z, buf[..Chunk(pos, |buf|)]), n, pos, buf[..Chunk(pos, |buf|)]);
  }

  lemma StoreChunkStep(d: Device, n: nat, pos: nat, z: nat, s: seq<Byte>)
    requires Shape(d) && Inv(d) && n < |d.inodes| && d.inodes[n].file
    requires pos + |s| <= MAX_SIZE && pos < MAX_SIZE && pos % BLOCK_SIZE + |s| <= BLOCK_SIZE
    requires z != 0 && z == At(d, n, PlaceOf(pos / BLOCK_SIZE))
    ensures var r := StoreChunk(d, n, pos, z, s);
            && Inv(r) && |r.inodes| == |d.inodes| && BytesStored(d, r, n, pos, s)
            && (forall m: nat | m < |d.inodes| :: r.inodes[m].file == d.inodes[m].file)
            && (forall m: nat | m < |d.inodes| && m != n :: r.inodes[m].size == d.inodes[m].size)
            && r.inodes[n].size == if pos + |s| > d.inodes[n].size then pos + |s| else d.inodes[n].size
  {
    hide Inv, SameBytes, BytesStored;
    var d2 := if pos + |s| > d.inodes[n].size then SetSize(d, n, pos + |s|) else d;
    SetSizeStep(d, n, pos + |s|);
    assert Holds(d2, n, PlaceOf(pos / BLOCK_SIZE)) && At(d2, n, PlaceOf(pos / BLOCK_SIZE)) == z;
    StoreInBlock(d2, n, pos, s);
    assert SameBytes(d, d2) by { SameBytesSelf(d); }
    BytesAfter(d, d2, PutBytes(d2, z, pos % BLOCK_SIZE, s), n, pos, s);
  }

  lemma SameBytesSelf(d: Device)
    requires Shape(d)
    ensures SameBytes(d, d)
  {
  }

  lemma BytesAfter(d: Device, d2: Device, r: Device, n: nat, pos: nat, s: seq<Byte>)
    requires Shape(d) && Shape(d2) && Shape(r) && |r.inodes| == |d2.inodes| == |d.inodes|
    requires SameBytes(d, d2) && BytesStored(d2, r, n, pos, s)
    ensures BytesStored(d, r, n, pos, s)
  {
  }

  lemma WrittenJoin(d: Device, d1: Device, r: Device, n: nat, pos: nat, buf: seq<Byte>, c: nat, w: nat)
    requires Shape(d) && Shape(d1) && Shape(r) && n < |d.inodes| && |r.inodes| == |d1.inodes| == |d.inodes|
    requires 0 < c && c + w <= |buf| && Written(d, d1, n, pos, buf, c) && Written(d1, r, n, pos + c, buf[c..], w)
    ensures Written(d, r, n, pos, buf, c + w)
  {
    forall m: nat, off: nat | m < |d.inodes| && off / BLOCK_SIZE < MAX_BLOCKS
      ensures FileByte(r, m, off) == if m == n && pos <= off < pos + c + w then buf[..c + w][off - pos] else FileByte(d, m, off)
    {
      assert FileByte(d1, m, off) == if m == n && pos <= off < pos + c then buf[..c][off - pos] else FileByte(d, m, off);
    }
  }

  lemma NothingWritten(d: Device, r: Device, n: nat, pos: nat, buf: seq<Byte>)
    requires Shape(d) && Shape(r) && n < |d.inodes| && (r == d || (SameBytes(d, r) && Others(d, r, n)))
    ensures |r.inodes| == |d.inodes| && Written(d, r, n, pos, buf, 0)
  {
  }

  /** file_write: the bytes written are a prefix of the buffer, and exactly they changed; fewer than
      asked only when no zone is free. */
  lemma {:induction false} WriteStep(d: Device, n: nat, pos: nat, buf: seq<Byte>)
    requires Shape(d) && Inv(d) && n < |d.inodes| && d.inodes[n].file && pos + |buf| <= MAX_SIZE
    ensures var (r, w) := WriteFrom(d, n, pos, buf);
            && Inv(r) && Written(d, r, n, pos, buf, w) && (w < |buf| ==> Full(r))
    decreases |buf|
  {
    hide Inv, Full, Bmap, StoreChunk, SameBytes, BytesStored;
    if buf == [] {
      NothingWritten(d, d, n, pos, buf);
    } else {
      BmapStep(d, n, pos / BLOCK_SIZE, true);
      var (d1, z) := Bmap(d, n, pos / BLOCK_SIZE, true);
      if z == 0 {
        NothingWritten(d, d1, n, pos, buf);
      } else {
        ChunkStep(d, n, pos, buf);
        var c := Chunk(pos, |buf|);
        var d2 := StoreChunk(d1, n, pos, z, buf[..c]);
        WriteStep(d2, n, pos + c, buf[c..]);
        var (r, w) := WriteFrom(d2, n, pos + c, buf[c..]);
        hide WriteFrom, Written;
        WrittenJoin(d, d2, r, n, pos, buf, c, w);
      }
    }
  }

  // ---- file_read -------------------------------------------------------------------------------

  /** The part of a block one turn of file_read's loop copies; zone 0 stands for a block that is not there. */
  function BlockPart(d: Device, z: nat, c: nat, len: nat): (s: seq<Byte>)
    requires Shape(d) && c + len <= BLOCK_SIZE
    ensures |s| == len
  {
    if z != 0 && z < |d.disk| then d.disk[z][c..c + len] else seq(len, _ => 0)
  }

  function ReadFrom(d: Device, n: nat, pos: nat, count: nat): (s: seq<Byte>)
    requires Shape(d) && n < |d.inodes| && pos + count <= MAX_SIZE
    ensures |s| == count
    decreases count
  {
    if count == 0 then []
    else
      var z := Bmap(d, n, pos / BLOCK_SIZE, false).1;
      var c := Chunk(pos, count);
      BlockPart(d, z, pos % BLOCK_SIZE, c) + ReadFrom(d, n, pos + c, count - c)
  }

  /** file_read returns the file's bytes at pos, whatever blocks they lie in; missing blocks read as zeros. */
  lemma {:induction false} ReadStep(d: Device, n: nat, pos: nat, count: nat)
    requires Shape(d) && Inv(d) && n < |d.inodes| && d.inodes[n].file && pos + count <= MAX_SIZE
    ensures forall i: nat | i < count :: ReadFrom(d, n, pos, count)[i] == FileByte(d, n, pos + i)
    decreases count
  {
    hide Inv, Bmap, FileByte, BlockPart;
    if count > 0 {
      var c := Chunk(pos, count);
      FirstPart(d, n, pos, c);
      ReadStep(d, n, pos + c, count - c);
      var first := BlockPart(d, Bmap(d, n, pos / BLOCK_SIZE, false).1, pos % BLOCK_SIZE, c);
      var rest := ReadFrom(d, n, pos + c, count - c);
      assert ReadFrom(d, n, pos, count) == first + rest;
      hide ReadFrom, Chunk;
      forall i: nat | i < count ensures (first + rest)[i] == FileByte(d, n, pos + i) {
        assert i >= c ==> rest[i - c] == FileByte(d, n, pos + c + (i - c));
      }
    }
  }

  lemma FirstPart(d: Device, n: nat, pos: nat, c: nat)
    requires Shape(d) && Inv(d) && n < |d.inodes| && d.inodes[n].file && pos < MAX_SIZE
    requires pos % BLOCK_SIZE + c <= BLOCK_SIZE && pos + c <= MAX_SIZE
    ensures var first := BlockPart(d, Bmap(d, n, pos / BLOCK_SIZE, false).1, pos % BLOCK_SIZE, c);
            |first| == c && forall i: nat | i < c :: first[i] == FileByte(d, n, pos + i)
  {
    hide Inv, Bmap, FileByte;
    BmapStep(d, n, pos / BLOCK_SIZE, false);
    hide BlockPart;
    forall i: nat | i < c
      ensures BlockPart(d, Bmap(d, n, pos / BLOCK_SIZE, false).1, pos % BLOCK_SIZE, c)[i] == FileByte(d, n, pos + i)
    {
      PartByte(d, n, pos, c, i);
    }
  }

  lemma PartByte(d: Device, n: nat, pos: nat, c: nat, i: nat)
    requires Shape(d) && Inv(d) && n < |d.inodes| && pos < MAX_SIZE && pos % BLOCK_SIZE + c <= BLOCK_SIZE && i < c && pos + c <= MAX_SIZE
    ensures BlockPart(d, At(d, n, PlaceOf(pos / BLOCK_SIZE)), pos % BLOCK_SIZE, c)[i] == FileByte(d, n, pos + i)
  {
    SameBlock(pos, pos + i, c);
  }

  /** Reading back what was just written gives it back; every other file, and the rest of this one,
      reads as before. */
  lemma ReadBack(d: Device, n: nat, pos: nat, buf: seq<Byte>, m: nat, at: nat, count: nat)
    requires Shape(d) && Inv(d) && n < |d.inodes| && d.inodes[n].file && pos + |buf| <= MAX_SIZE
    requires m < |d.inodes| && d.inodes[m].file && at + count <= MAX_SIZE
    ensures var (r, w) := WriteFrom(d, n, pos, buf);
            && r.inodes[m].file
            && ReadFrom(r, n, pos, w) == buf[..w]
            && (m != n || at + count <= pos || pos + w <= at ==> ReadFrom(r, m, at, count) == ReadFrom(d, m, at, count))
  {
    hide Inv, WriteFrom, ReadFrom, FileByte;
    WriteStep(d, n, pos, buf);
    var (r, w) := WriteFrom(d, n, pos, buf);
    ReadStep(r, n, pos, w);
    ReadStep(r, m, at, count);
    ReadStep(d, m, at, count);
    forall i: nat | i < w ensures ReadFrom(r, n, pos, w)[i] == buf[i] {
      assert FileByte(r, n, pos + i) == buf[..w][pos + i - pos];
    }
  }
}
