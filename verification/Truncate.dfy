/** free_block of fs/bitmap.cc and truncate of fs/truncate.cc: a file's blocks are freed, each once. */
module Truncate {
  import opened BlockTree
  import opened FileData

  /** The device, and false once free_block has reached one of its panics. */
  datatype Result = Result(dev: Device, ok: bool)

  /** free_block: clear the bit of block b, which must be a used data zone. */
  function FreeBlock(d: Device, b: nat): (r: Result)
    requires Shape(d)
    ensures Shape(r.dev) && r.dev.inodes == d.inodes && r.dev.disk == d.disk
  {
    if !DataZone(d, b) || !Used(d, b) then Result(d, false)
    else Result(d.(zmap := d.zmap[b - d.first + 1 := false]), true)
  }

  /** Entries k..511 of indirect block b. */
  function FreeZones(d: Device, b: nat, k: nat): (r: Result)
    requires Shape(d) && b < |d.disk|
    ensures Shape(r.dev) && r.dev.inodes == d.inodes && r.dev.disk == d.disk
    decreases 512 - k
  {
    if k >= 512 then Result(d, true)
    else if ZoneAt(d.disk[b], k) == 0 then FreeZones(d, b, k + 1)
    else
      var s := FreeBlock(d, ZoneAt(d.disk[b], k));
      if !s.ok then s else FreeZones(s.dev, b, k + 1)
  }

  function FreeInd(d: Device, b: nat): (r: Result)
    requires Shape(d)
    ensures Shape(r.dev) && r.dev.inodes == d.inodes && r.dev.disk == d.disk
  {
    if b == 0 then Result(d, true)
    else if b >= |d.disk| then Result(d, false)
    else
      var s := FreeZones(d, b, 0);
      if !s.ok then s else FreeBlock(s.dev, b)
  }

  function FreeInds(d: Device, b: nat, k: nat): (r: Result)
    requires Shape(d) && b < |d.disk|
    ensures Shape(r.dev) && r.dev.inodes == d.inodes && r.dev.disk == d.disk
    decreases 512 - k
  {
    if k >= 512 then Result(d, true)
    else if ZoneAt(d.disk[b], k) == 0 then FreeInds(d, b, k + 1)
    else
      var s := FreeInd(d, ZoneAt(d.disk[b], k));
      if !s.ok then s else FreeInds(s.dev, b, k + 1)
  }

  function FreeDind(d: Device, b: nat): (r: Result)
    requires Shape(d)
    ensures Shape(r.dev) && r.dev.inodes == d.inodes && r.dev.disk == d.disk
  {
    if b == 0 then Result(d, true)
    else if b >= |d.disk| then Result(d, false)
    else
      var s := FreeInds(d, b, 0);
      if !s.ok then s else FreeBlock(s.dev, b)
  }

  function SetZone(d: Device, n: nat, i: nat, z: ZoneNr): (r: Device)
    requires Shape(d) && n < |d.inodes| && i < 9
    ensures Shape(r)
  {
    d.(inodes := d.inodes[n := d.inodes[n].(zone := d.inodes[n].zone[i := z])])
  }

  /** The loop over the direct zones. */
  function FreeDirect(d: Device, n: nat, i: nat): (r: Result)
    requires Shape(d) && n < |d.inodes|
    ensures Shape(r.dev) && |r.dev.inodes| == |d.inodes|
    decreases 7 - i
  {
    if i >= 7 then Result(d, true)
    else if d.inodes[n].zone[i] == 0 then FreeDirect(d, n, i + 1)
    else
      var s := FreeBlock(d, d.inodes[n].zone[i]);
      if !s.ok then s else FreeDirect(SetZone(s.dev, n, i, 0), n, i + 1)
  }

  /** truncate */
  function TruncateFile(d: Device, n: nat): (r: Result)
    requires Shape(d) && n < |d.inodes|
    ensures Shape(r.dev)
  {
    if !d.inodes[n].file then Result(d, true)
    else
      var s1 := FreeDirect(d, n, 0);
      if !s1.ok then s1 else
        var s2 := FreeInd(s1.dev, s1.dev.inodes[n].zone[7]);
        if !s2.ok then s2 else
          var s3 := FreeDind(s2.dev, s2.dev.inodes[n].zone[8]);
          if !s3.ok then s3 else
            var e := SetZone(SetZone(s3.dev, n, 7, 0), n, 8, 0);
            Result(e.(inodes := e.inodes[n := e.inodes[n].(size := 0)]), true)
  }

  // ---- what has been freed so far --------------------------------------------------------------

  /** r is d except that the blocks of the places ps of file n are no longer marked used, and that the
      direct zones of file n may have been cleared. */
  ghost predicate Freed(d: Device, r: Device, n: nat, ps: set<Pos>)
    requires Shape(d) && Shape(r) && n < |d.inodes|
  {
    && r.disk == d.disk && r.first == d.first && r.nzones == d.nzones && |r.zmap| == |d.zmap|
    && |r.inodes| == |d.inodes| && r.inodes == d.inodes[n := d.inodes[n].(zone := r.inodes[n].zone)]
    && r.inodes[n].zone[7] == d.inodes[n].zone[7] && r.inodes[n].zone[8] == d.inodes[n].zone[8]
    && (forall j | 0 <= j < |d.zmap| && !(1 <= j && j + d.first - 1 < d.nzones) :: r.zmap[j] == d.zmap[j])
    && (forall c | DataZone(d, c) :: Used(r, c) <==> Used(d, c) && !In(d, n, ps, c))
  }

  /** Block c is at one of the places ps. */
  ghost predicate In(d: Device, n: nat, ps: set<Pos>, c: nat)
    requires Shape(d) && n < |d.inodes|
  {
    exists p :: p in ps && Holds(d, n, p) && At(d, n, p) == c
  }

  /** Freeing the block at a place not freed before does not panic. */
  lemma FreeStep(d: Device, r: Device, n: nat, ps: set<Pos>, p: Pos)
    requires Shape(d) && Inv(d) && Shape(r) && n < |d.inodes| && Freed(d, r, n, ps) && p !in ps && Legal(p)
    ensures At(d, n, p) == 0 ==> Freed(d, r, n, ps + {p})
    ensures At(d, n, p) != 0 ==> var s := FreeBlock(r, At(d, n, p)); s.ok && Freed(d, s.dev, n, ps + {p})
  {
    var b := At(d, n, p);
    if b != 0 {
      assert Holds(d, n, p);
      assert DataZone(d, b) && Used(d, b);
      assert !In(d, n, ps, b);
      assert Used(r, b);
      var s := FreeBlock(r, b);
      forall c | DataZone(d, c) ensures Used(s.dev, c) <==> Used(d, c) && !In(d, n, ps + {p}, c) {
        InMore(d, n, ps, p, c);
      }
    } else {
      forall c | DataZone(d, c) ensures In(d, n, ps, c) <==> In(d, n, ps + {p}, c) {
        InMore(d, n, ps, p, c);
      }
    }
  }

  lemma InMore(d: Device, n: nat, ps: set<Pos>, p: Pos, c: nat)
    requires Shape(d) && n < |d.inodes|
    ensures In(d, n, ps + {p}, c) <==> In(d, n, ps, c) || (Holds(d, n, p) && At(d, n, p) == c)
  {
    if In(d, n, ps, c) {
      var q :| q in ps && Holds(d, n, q) && At(d, n, q) == c;
      assert q in ps + {p};
    }
    if Holds(d, n, p) && At(d, n, p) == c {
      assert p in ps + {p};
    }
  }

  ghost function Kids(q: Pos, k: nat): set<Pos> { set j: nat | j < k :: Child(q, j) }

  /** A block that is not there has no blocks below it. */
  lemma NoKids(d: Device, r: Device, n: nat, ps: set<Pos>, more: set<Pos>)
    requires Shape(d) && Shape(r) && n < |d.inodes| && Freed(d, r, n, ps)
    requires forall p | p in more && Legal(p) :: At(d, n, p) == 0
    ensures Freed(d, r, n, ps + more)
  {
    forall c | DataZone(d, c) ensures In(d, n, ps, c) <==> In(d, n, ps + more, c) {
      if In(d, n, ps, c) {
        var q :| q in ps && Holds(d, n, q) && At(d, n, q) == c;
        assert q in ps + more;
      }
    }
  }

  lemma {:induction false} FreeZonesStep(d: Device, r: Device, n: nat, ps: set<Pos>, q: Pos, k: nat)
    requires Shape(d) && Inv(d) && Shape(r) && n < |d.inodes| && Freed(d, r, n, ps + Kids(q, k))
    requires Legal(q) && Legal(Child(q, 0)) && k <= 512 && 0 < At(d, n, q) < |d.disk|
    requires forall j: nat | k <= j < 512 :: Child(q, j) !in ps
    ensures var s := FreeZones(r, At(d, n, q), k); s.ok && Freed(d, s.dev, n, ps + Kids(q, 512))
    decreases 512 - k
  {
    hide Inv, FreeBlock, Freed;
    if k < 512 {
      var b := At(d, n, q);
      var p := Child(q, k);
      KidLegal(q, k);
      FreeStep(d, r, n, ps + Kids(q, k), p);
      assert ps + Kids(q, k + 1) == ps + Kids(q, k) + {p};
      assert r.disk == d.disk by { FreedDisk(d, r, n, ps + Kids(q, k)); }
      if At(d, n, p) == 0 {
        FreeZonesStep(d, r, n, ps, q, k + 1);
      } else {
        FreeZonesStep(d, FreeBlock(r, At(d, n, p)).dev, n, ps, q, k + 1);
      }
    }
  }

  lemma FreedDisk(d: Device, r: Device, n: nat, ps: set<Pos>)
    requires Shape(d) && Shape(r) && n < |d.inodes| && Freed(d, r, n, ps)
    ensures r.disk == d.disk && |r.inodes| == |d.inodes|
    ensures r.inodes[n].zone[7] == d.inodes[n].zone[7] && r.inodes[n].zone[8] == d.inodes[n].zone[8]
  {
  }

  lemma KidLegal(q: Pos, k: nat)
    requires Legal(Child(q, 0)) && k < 512
    ensures Legal(Child(q, k))
  {
  }

  /** free_ind of the block at place q. */
  lemma FreeIndStep(d: Device, r: Device, n: nat, ps: set<Pos>, q: Pos)
    requires Shape(d) && Inv(d) && Shape(r) && n < |d.inodes| && Freed(d, r, n, ps)
    requires Legal(q) && Legal(Child(q, 0)) && q !in ps && forall j: nat | j < 512 :: Child(q, j) !in ps
    ensures var s := FreeInd(r, At(d, n, q)); s.ok && Freed(d, s.dev, n, ps + Kids(q, 512) + {q})
  {
    hide Inv, FreeBlock, Freed, FreeZones;
    FreedDisk(d, r, n, ps);
    var b := At(d, n, q);
    if b == 0 {
      assert forall p | p in Kids(q, 512) + {q} && Legal(p) :: At(d, n, p) == 0;
      NoKids(d, r, n, ps, Kids(q, 512) + {q});
      assert ps + (Kids(q, 512) + {q}) == ps + Kids(q, 512) + {q};
    } else {
      BlockThere(d, n, q);
      assert ps + Kids(q, 0) == ps;
      FreeZonesStep(d, r, n, ps, q, 0);
      FreeStep(d, FreeZones(r, b, 0).dev, n, ps + Kids(q, 512), q);
    }
  }

  lemma BlockThere(d: Device, n: nat, q: Pos)
    requires Shape(d) && Inv(d) && Holds(d, n, q)
    ensures 0 < At(d, n, q) < |d.disk|
  {
  }

  /** The places under entries 0..k-1 of the double-indirect block. */
  ghost function Grandkids(k: nat): set<Pos> {
    if k == 0 then {} else Grandkids(k - 1) + Kids(Child(Slot(8), k - 1), 512) + {Child(Slot(8), k - 1)}
  }

  lemma {:induction false} GrandkidsAre(k: nat, p: Pos)
    ensures p in Grandkids(k) <==> match p
                                   case Child(Slot(i), j) => i == 8 && j < k
                                   case Child(Child(Slot(i), j), l) => i == 8 && j < k && l < 512
                                   case _ => false
  {
    if k > 0 { GrandkidsAre(k - 1, p); }
  }

  lemma {:induction false} FreeIndsStep(d: Device, r: Device, n: nat, ps: set<Pos>, k: nat)
    requires Shape(d) && Inv(d) && Shape(r) && n < |d.inodes| && k <= 512 && Freed(d, r, n, ps + Grandkids(k))
    requires 0 < At(d, n, Slot(8)) < |d.disk| && forall p | p in ps :: !(p.Child? && p !in Kids(Slot(7), 512))
    ensures var s := FreeInds(r, At(d, n, Slot(8)), k); s.ok && Freed(d, s.dev, n, ps + Grandkids(512))
    decreases 512 - k
  {
    hide Inv, FreeBlock, Freed, FreeZones, FreeInd;
    if k < 512 {
      var q := Child(Slot(8), k);
      FreedDisk(d, r, n, ps + Grandkids(k));
      GrandkidsAre(k, q);
      forall j: nat | j < 512 ensures Child(q, j) !in ps + Grandkids(k) { GrandkidsAre(k, Child(q, j)); }
      FreeIndStep(d, r, n, ps + Grandkids(k), q);
      assert ps + Grandkids(k + 1) == ps + Grandkids(k) + Kids(q, 512) + {q};
      var s := FreeInd(r, At(d, n, q));
      FreedDisk(d, s.dev, n, ps + Grandkids(k + 1));
      FreeIndsStep(d, s.dev, n, ps, k + 1);
      if At(d, n, q) == 0 { assert FreeInd(r, 0) == Result(r, true) by { FreeIndZero(r); } }
    }
  }

  lemma FreeIndZero(r: Device)
    requires Shape(r)
    ensures FreeInd(r, 0) == Result(r, true)
  {
  }

  lemma FreeDindStep(d: Device, r: Device, n: nat, ps: set<Pos>)
    requires Shape(d) && Inv(d) && Shape(r) && n < |d.inodes| && Freed(d, r, n, ps)
    requires Slot(8) !in ps && forall p | p in ps :: !(p.Child? && p !in Kids(Slot(7), 512))
    ensures var s := FreeDind(r, At(d, n, Slot(8))); s.ok && Freed(d, s.dev, n, ps + Grandkids(512) + {Slot(8)})
  {
    hide Inv, FreeBlock, Freed, FreeInds;
    FreedDisk(d, r, n, ps);
    var b := At(d, n, Slot(8));
    if b == 0 {
      forall p | p in Grandkids(512) + {Slot(8)} && Legal(p) ensures At(d, n, p) == 0 {
        GrandkidsAre(512, p);
        NothingBelow(d, n, p);
      }
      NoKids(d, r, n, ps, Grandkids(512) + {Slot(8)});
      assert ps + (Grandkids(512) + {Slot(8)}) == ps + Grandkids(512) + {Slot(8)};
    } else {
      BlockThere(d, n, Slot(8));
      assert ps + Grandkids(0) == ps;
      FreeIndsStep(d, r, n, ps, 0);
      GrandkidsAre(512, Slot(8));
      FreeStep(d, FreeInds(r, b, 0).dev, n, ps + Grandkids(512), Slot(8));
    }
  }

  lemma NothingBelow(d: Device, n: nat, p: Pos)
    requires Shape(d) && n < |d.inodes| && Legal(p) && At(d, n, Slot(8)) == 0
    requires match p
             case Slot(i) => i == 8
             case Child(Slot(i), j) => i == 8
             case Child(Child(Slot(i), j), l) => i == 8
             case _ => false
    ensures At(d, n, p) == 0
  {
    match p
    case Child(Child(Slot(i), j), l) => assert At(d, n, Child(Slot(i), j)) == 0;
    case _ =>
  }

  ghost function Slots(i: nat): set<Pos> { set j: nat | j < i :: Slot(j) }

  lemma {:induction false} FreeDirectStep(d: Device, r: Device, n: nat, i: nat)
    requires Shape(d) && Inv(d) && Shape(r) && n < |d.inodes| && d.inodes[n].file && i <= 7 && Freed(d, r, n, Slots(i))
    requires forall j | i <= j < 9 :: r.inodes[n].zone[j] == d.inodes[n].zone[j]
    requires forall j | 0 <= j < i :: r.inodes[n].zone[j] == 0
    ensures var s := FreeDirect(r, n, i);
            && s.ok && Freed(d, s.dev, n, Slots(7)) && forall j | 0 <= j < 7 :: s.dev.inodes[n].zone[j] == 0
    decreases 7 - i
  {
    hide Inv, FreeBlock;
    if i < 7 {
      FreeStep(d, r, n, Slots(i), Slot(i));
      assert Slots(i + 1) == Slots(i) + {Slot(i)};
      if d.inodes[n].zone[i] == 0 {
        FreeDirectStep(d, r, n, i + 1);
      } else {
        FreeDirectStep(d, SetZone(FreeBlock(r, d.inodes[n].zone[i]).dev, n, i, 0), n, i + 1);
      }
    }
  }

  /** Every place of a file is freed. */
  ghost function AllFreed(): set<Pos> {
    Slots(7) + Kids(Slot(7), 512) + {Slot(7)} + Grandkids(512) + {Slot(8)}
  }

  lemma AllFreedIsAll(p: Pos)
    requires Legal(p)
    ensures p in AllFreed()
  {
    hide Grandkids, Slots, Kids;
    match p
    case Slot(i) => assert i < 7 ==> p in Slots(7) by { InSlots(i); }
    case Child(Slot(i), k) =>
      if i == 7 { InKids(Slot(7), k); } else { GrandkidsAre(512, p); }
    case Child(Child(Slot(i), k), l) => GrandkidsAre(512, p);
  }

  lemma InSlots(i: nat)
    ensures i < 7 ==> Slot(i) in Slots(7)
  {
  }

  lemma InKids(q: Pos, k: nat)
    requires k < 512
    ensures Child(q, k) in Kids(q, 512)
  {
  }

  lemma DirectFreed(d: Device, n: nat)
    requires Shape(d) && Inv(d) && n < |d.inodes| && d.inodes[n].file
    ensures var s := FreeDirect(d, n, 0);
            s.ok && Freed(d, s.dev, n, Slots(7)) && forall j | 0 <= j < 7 :: s.dev.inodes[n].zone[j] == 0
  {
    assert Freed(d, d, n, Slots(0)) by {
      assert Slots(0) == {};
      assert d.inodes == d.inodes[n := d.inodes[n].(zone := d.inodes[n].zone)];
    }
    FreeDirectStep(d, d, n, 0);
  }

  /** truncate reaches no panic, and frees exactly the file's blocks. */
  lemma TruncateFrees(d: Device, n: nat)
    requires Shape(d) && Inv(d) && n < |d.inodes| && d.inodes[n].file
    ensures var s := TruncateFile(d, n); var r := s.dev;
            && s.ok && r.disk == d.disk && r.first == d.first && r.nzones == d.nzones && |r.zmap| == |d.zmap|
            && |r.inodes| == |d.inodes|
            && (forall m: nat | m < |d.inodes| && m != n :: r.inodes[m] == d.inodes[m])
            && r.inodes[n].file && r.inodes[n].size == 0 && (forall j | 0 <= j < 9 :: r.inodes[n].zone[j] == 0)
            && (forall j | 0 <= j < |d.zmap| && !(1 <= j && j + d.first - 1 < d.nzones) :: r.zmap[j] == d.zmap[j])
            && (forall c | DataZone(d, c) :: Used(r, c) <==> Used(d, c) && !exists p :: Holds(d, n, p) && At(d, n, p) == c)
  {
    hide Inv, FreeInd, FreeDind, FreeDirect, In, AllFreed;
    TreeFreed(d, n);
    forall c | DataZone(d, c) ensures In(d, n, AllFreed(), c) <==> exists p :: Holds(d, n, p) && At(d, n, p) == c {
      InAll(d, n, c);
    }
  }

  lemma InAll(d: Device, n: nat, c: nat)
    requires Shape(d) && n < |d.inodes|
    ensures In(d, n, AllFreed(), c) <==> exists p :: Holds(d, n, p) && At(d, n, p) == c
  {
    if p :| Holds(d, n, p) && At(d, n, p) == c { AllFreedIsAll(p); }
  }

  /** The state before truncate clears the inode. */
  lemma TreeFreed(d: Device, n: nat)
    requires Shape(d) && Inv(d) && n < |d.inodes| && d.inodes[n].file
    ensures var s1 := FreeDirect(d, n, 0);
            var s2 := FreeInd(s1.dev, s1.dev.inodes[n].zone[7]);
            var s3 := FreeDind(s2.dev, s2.dev.inodes[n].zone[8]);
            && s1.ok && s2.ok && s3.ok && Freed(d, s3.dev, n, AllFreed())
            && forall j | 0 <= j < 7 :: s3.dev.inodes[n].zone[j] == 0
  {
    hide Inv, FreeBlock, FreeInd, FreeDind, FreeDirect, Freed;
    DirectFreed(d, n);
    var s1 := FreeDirect(d, n, 0);
    FreedDisk(d, s1.dev, n, Slots(7));
    FreeIndStep(d, s1.dev, n, Slots(7), Slot(7));
    var s2 := FreeInd(s1.dev, At(d, n, Slot(7)));
    var ps := Slots(7) + Kids(Slot(7), 512) + {Slot(7)};
    FreedDisk(d, s2.dev, n, ps);
    assert forall p | p in ps :: !(p.Child? && p !in Kids(Slot(7), 512));
    FreeDindStep(d, s2.dev, n, ps);
  }

  /** truncate empties the file: no place holds a block, every other file keeps its blocks and bytes,
      and a data zone is marked used exactly when some file still holds it. */
  lemma TruncateStep(d: Device, n: nat)
    requires Shape(d) && Inv(d) && n < |d.inodes| && d.inodes[n].file
    ensures var s := TruncateFile(d, n); var r := s.dev;
            && s.ok && Inv(r) && |r.inodes| == |d.inodes|
            && (forall m: nat, q | m < |d.inodes| && Legal(q) :: At(r, m, q) == if m == n then 0 else At(d, m, q))
            && (forall m: nat, off: nat | m < |d.inodes| && off / BLOCK_SIZE < MAX_BLOCKS ::
                  FileByte(r, m, off) == if m == n then 0 else FileByte(d, m, off))
            && (forall m: nat | m < |d.inodes| ::
                  r.inodes[m].file == d.inodes[m].file && r.inodes[m].size == if m == n then 0 else d.inodes[m].size)
            && r.disk == d.disk
  {
    TruncateFrees(d, n);
    var r := TruncateFile(d, n).dev;
    hide TruncateFile, Inv;
    forall m: nat, q | m < |d.inodes| && Legal(q) ensures At(r, m, q) == if m == n then 0 else At(d, m, q) {
      TruncatedAt(d, r, n, m, q);
    }
    TruncatedInv(d, r, n);
  }

  lemma {:induction false} TruncatedAt(d: Device, r: Device, n: nat, m: nat, q: Pos)
    requires Shape(d) && Shape(r) && n < |d.inodes| && m < |d.inodes| == |r.inodes| && Legal(q) && r.disk == d.disk
    requires m != n ==> r.inodes[m] == d.inodes[m]
    requires forall j | 0 <= j < 9 :: r.inodes[n].zone[j] == 0
    ensures At(r, m, q) == if m == n then 0 else At(d, m, q)
    decreases q
  {
    if q.Child? {
      LegalParent(q);
      TruncatedAt(d, r, n, m, q.parent);
    }
  }

  lemma TruncatedInv(d: Device, r: Device, n: nat)
    requires Shape(d) && Inv(d) && Shape(r) && n < |d.inodes| == |r.inodes| && r.first == d.first && r.nzones == d.nzones
    requires |r.zmap| == |d.zmap|
    requires forall j | 0 <= j < |d.zmap| && !(1 <= j && j + d.first - 1 < d.nzones) :: r.zmap[j] == d.zmap[j]
    requires forall m: nat, q | m < |d.inodes| && Legal(q) :: At(r, m, q) == if m == n then 0 else At(d, m, q)
    requires forall c | DataZone(d, c) :: Used(r, c) <==> Used(d, c) && !exists p :: Holds(d, n, p) && At(d, n, p) == c
    ensures Inv(r)
  {
    hide At;
    forall m: nat, q | Holds(r, m, q)
      ensures m != n && Holds(d, m, q) && DataZone(r, At(r, m, q)) && Used(r, At(r, m, q))
    {
      assert Holds(d, m, q);
    }
    forall c | DataZone(r, c) && Used(r, c) ensures Held(r, c) {
      assert Held(d, c);
      var m: nat, q :| Holds(d, m, q) && At(d, m, q) == c;
      assert Holds(r, m, q);
    }
  }
}
