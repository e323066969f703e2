/** create_block (fs/inode.cc) while other tasks run: new_block sleeps in getblk after it has set the bit of a zone, and
    by the time the zone's number is stored another task may have filled the place that was found empty. */
module ReservedBlocks {
  import opened Basics
  import opened BlockTree
  import opened FileData
  import opened Truncate

  /** The device as it would be without the zones reserved by tasks asleep in new_block. */
  function Unreserved(d: Device, held: set<nat>): (r: Device)
    requires Shape(d)
    ensures Shape(r)
  {
    d.(zmap := seq(|d.zmap|, j requires 0 <= j < |d.zmap| => d.zmap[j] && j + d.first - 1 !in held))
  }

  /** Apart from those zones all is well. */
  ghost predicate InvBut(d: Device, held: set<nat>) {
    && Shape(d) && (forall b | b in held :: DataZone(d, b) && Used(d, b)) && Inv(Unreserved(d, held))
  }

  lemma NoneHeld(d: Device)
    requires Shape(d)
    ensures InvBut(d, {}) <==> Inv(d)
  {
    assert Unreserved(d, {}).zmap == d.zmap;
  }

  lemma {:induction false} AtUnreserved(d: Device, held: set<nat>, m: nat, q: Pos)
    requires Shape(d) && m < |d.inodes| && Legal(q)
    ensures At(Unreserved(d, held), m, q) == At(d, m, q)
    decreases q
  {
    if q.Child? {
      LegalParent(q);
      AtUnreserved(d, held, m, q.parent);
    }
  }

  /** new_block before it sleeps reserves a zone nobody holds or has reserved. */
  lemma ReserveKeeps(d: Device, held: set<nat>)
    requires InvBut(d, held)
    ensures var (r, b) := Reserve(d);
            if b == 0 then r == d && forall c | DataZone(d, c) :: Used(d, c)
            else DataZone(d, b) && !Used(d, b) && b !in held && InvBut(r, held + {b})
  {
    hide Placed, Injective, NoLeak;
    var u := Unreserved(d, held);
    assert Preset(u);
    var j := FirstClear(d.zmap, 0);
    if j < |d.zmap| {
      assert !u.zmap[j];
      var (r, b) := Reserve(d);
      assert Unreserved(r, held + {b}).zmap == u.zmap;
    } else {
      forall c | DataZone(d, c) ensures Used(d, c) { }
    }
  }

  /** The indirect block whose buffer create_block has read before it calls new_block; none for a slot of the inode. */
  function ParentZone(d: Device, n: nat, p: Pos): ZoneNr
    requires Shape(d) && n < |d.inodes| && Legal(p)
  {
    if p.Child? then (LegalParent(p); At(d, n, p.parent)) else 0
  }

  /** The zone number into the inode, or into indirect block c, whatever has become of that block. */
  function StoreIn(d: Device, n: nat, p: Pos, c: nat, b: ZoneNr): (r: Device)
    requires Shape(d) && n < |d.inodes| && Legal(p)
    ensures Shape(r) && |r.inodes| == |d.inodes|
  {
    match p
    case Slot(i) => d.(inodes := d.inodes[n := d.inodes[n].(zone := d.inodes[n].zone[i := b])])
    case Child(q, k) => if c < |d.disk| then d.(disk := d.disk[c := PutZone(d.disk[c], k, b)]) else d
  }

  /** new_block after the sleep, and the store of the zone number; c is the indirect block read before the sleep. */
  function Settle(d: Device, n: nat, p: Pos, c: nat, b: ZoneNr): (r: Device)
    requires Shape(d) && n < |d.inodes| && Legal(p) && DataZone(d, b)
    ensures Shape(r) && |r.inodes| == |d.inodes|
  {
    StoreIn(Zeroed(d, b), n, p, c, b)
  }

  /** Without a sleep in between, that is Cell. */
  lemma CellSettled(d: Device, n: nat, p: Pos)
    requires Inv(d) && Open(d, n, p)
    ensures var (m, b) := Reserve(d);
            if b == 0 then Cell(d, n, p, true) == (m, 0)
            else DataZone(m, b) && Cell(d, n, p, true) == (Settle(m, n, p, ParentZone(d, n, p), b), b)
  {
    NewBlockFresh(d);
    var b := Reserve(d).1;
    if b != 0 && p.Child? { ParentOld(d, n, p, b); }
  }

  /** Nothing has come between: the place is empty, and its indirect block is the one that was read. */
  predicate StillOpen(d: Device, n: nat, p: Pos, c: nat)
    requires Shape(d) && n < |d.inodes| && Legal(p)
  {
    d.inodes[n].file && At(d, n, p) == 0 && (p.Child? ==> ParentZone(d, n, p) == c)
  }

  /** The zone is at its place, and apart from those still reserved all is well. */
  ghost predicate Settled(r: Device, held: set<nat>, n: nat, p: Pos, b: ZoneNr)
    requires Shape(r) && n < |r.inodes| && Legal(p)
  {
    At(r, n, p) == b && InvBut(r, held - {b})
  }

  lemma SettleUnreserved(d: Device, held: set<nat>, n: nat, p: Pos, c: nat, b: ZoneNr)
    requires InvBut(d, held) && b in held && n < |d.inodes| && Legal(p) && d.inodes[n].file
    requires p.Child? ==> c != 0 && ParentZone(d, n, p) == c
    ensures var u := Unreserved(d, held);
            && DataZone(u, b) && !Used(u, b) && There(u, n, p)
            && Unreserved(Settle(d, n, p, c, b), held - {b}) == Grow(u, n, p, b)
  {
    StillThere(d, held, n, p);
    var u := Unreserved(d, held);
    if p.Child? {
      LegalParent(p);
      AtUnreserved(d, held, n, p.parent);
      ParentOld(u, n, p, b);
    }
    hide Inv;
    var (r, v) := (Unreserved(Settle(d, n, p, c, b), held - {b}), u.(zmap := u.zmap[b - d.first + 1 := true], disk := u.disk[b := ZeroBlock()]));
    assert v.zmap == r.zmap;
  }

  /** The zone lost: it was at the place, and is at no other. */
  lemma Overwritten(u: Device, n: nat, p: Pos, b: ZoneNr)
    requires Inv(u) && There(u, n, p) && DataZone(u, b) && !Used(u, b) && At(u, n, p) != 0
    ensures var (r, c) := (Grow(u, n, p, b), At(u, n, p)); DataZone(r, c) && Used(r, c) && !Held(r, c)
  {
    var (r, c) := (Grow(u, n, p, b), At(u, n, p));
    assert Holds(u, n, p);
    forall m: nat, q | Holds(r, m, q) ensures At(r, m, q) != c {
      StoredAt(u, n, p, b, m, q);
      assert At(r, m, q) == At(u, m, q) ==> Holds(u, m, q);
    }
  }

  /** The zone does not get to its place when the file is none any more or its indirect block is another one. */
  lemma Misplaced(u: Device, n: nat, p: Pos, c: nat, b: ZoneNr)
    requires Inv(u) && DataZone(u, b) && !Used(u, b) && n < |u.inodes| && Legal(p)
    requires !u.inodes[n].file || (p.Child? && ParentZone(u, n, p) != c)
    ensures At(Settle(u, n, p, c, b), n, p) != b
  {
    var r := Settle(u, n, p, c, b);
    if !u.inodes[n].file {
      NoFile(r, n, p);
    } else {
      LegalParent(p);
      assert r.inodes == u.inodes;
      OtherBlock(u, n, p, c, b, p.parent);
      var z := At(r, n, p.parent);
      assert At(r, n, p) == if z == 0 || z >= |r.disk| then 0 else ZoneAt(r.disk[z], p.k);
      if z == b { assert c != b ==> ZoneAt(r.disk[b], p.k) == 0; }
      assert At(u, n, p) != 0 ==> Holds(u, n, p);
    }
  }

  /** What the place's indirect block is after the store: what it was, or the new zone itself, which is empty. */
  lemma OtherBlock(u: Device, n: nat, p: Pos, c: nat, b: ZoneNr, q: Pos)
    requires Inv(u) && DataZone(u, b) && !Used(u, b) && n < |u.inodes| && Legal(p) && p.Child? && p.parent == q && Legal(q)
    requires u.inodes[n].file && At(u, n, q) != c
    ensures var z := At(Settle(u, n, p, c, b), n, q); (z == At(u, n, q) && z != b) || (z == b && c != b)
  {
    var r := Settle(u, n, p, c, b);
    assert At(u, n, q) != 0 ==> Holds(u, n, q);
    if q.Child? {
      LegalParent(p);
      LegalParent(q);
      var w := At(u, n, q.parent);
      assert w != 0 ==> Holds(u, n, q.parent);
      assert q.parent.Slot? && At(r, n, q.parent) == w;
      if w != 0 && w == c { PutZoneReads(u.disk[c], p.k, b, q.k); }
    }
  }

  lemma {:induction false} NoFile(r: Device, n: nat, p: Pos)
    requires Shape(r) && n < |r.inodes| && Legal(p) && !r.inodes[n].file
    ensures At(r, n, p) == 0
    decreases p
  {
    if p.Child? {
      LegalParent(p);
      NoFile(r, n, p.parent);
    }
  }

  /** Storing a zone reserved before the sleep is right exactly when the place is still empty and the indirect block
      read before the sleep still is the one of the place; then no byte of any file changes. */
  lemma SettleKeeps(d: Device, held: set<nat>, n: nat, p: Pos, c: nat, b: ZoneNr)
    requires InvBut(d, held) && b in held && n < |d.inodes| && Legal(p) && (p.Child? ==> c != 0)
    ensures Settled(Settle(d, n, p, c, b), held, n, p, b) <==> StillOpen(d, n, p, c)
    ensures StillOpen(d, n, p, c) ==> SameBytes(d, Settle(d, n, p, c, b))
  {
    hide Inv, Grow, SameBytes, At, Settle;
    if d.inodes[n].file && (p.Child? ==> ParentZone(d, n, p) == c) {
      SettleOpen(d, held, n, p, c, b);
    } else {
      var (u, r) := (Unreserved(d, held), Settle(d, n, p, c, b));
      Apart(d, held, n, p, c, b);
      Misplaced(u, n, p, c, b);
      AtUnreserved(r, held, n, p);
    }
  }

  lemma Apart(d: Device, held: set<nat>, n: nat, p: Pos, c: nat, b: ZoneNr)
    requires InvBut(d, held) && b in held && n < |d.inodes| && Legal(p)
    ensures var u := Unreserved(d, held);
            && DataZone(u, b) && !Used(u, b) && ParentZone(u, n, p) == ParentZone(d, n, p)
            && Unreserved(Settle(d, n, p, c, b), held) == Settle(u, n, p, c, b)
  {
    hide Inv;
    if p.Child? {
      LegalParent(p);
      AtUnreserved(d, held, n, p.parent);
    }
  }

  lemma SettleOpen(d: Device, held: set<nat>, n: nat, p: Pos, c: nat, b: ZoneNr)
    requires InvBut(d, held) && b in held && n < |d.inodes| && Legal(p) && (p.Child? ==> c != 0)
    requires d.inodes[n].file && (p.Child? ==> ParentZone(d, n, p) == c)
    ensures Settled(Settle(d, n, p, c, b), held, n, p, b) <==> At(d, n, p) == 0
    ensures At(d, n, p) == 0 ==> SameBytes(d, Settle(d, n, p, c, b))
  {
    hide Inv, Grow, SameBytes, At, Settle;
    var (u, r) := (Unreserved(d, held), Settle(d, n, p, c, b));
    SettleUnreserved(d, held, n, p, c, b);
    AtUnreserved(d, held, n, p);
    SettleHeld(d, held, n, p, c, b);
    if At(d, n, p) == 0 {
      GrowInv(u, n, p, b);
      GrowBytes(u, n, p, b);
      GrowAt(u, n, p, b, n, p);
      AtUnreserved(r, held - {b}, n, p);
      BytesUnreserved(d, held);
      BytesUnreserved(r, held - {b});
      BytesSame(d, u, Grow(u, n, p, b), r);
    } else {
      Overwritten(u, n, p, b);
      Leaked(Grow(u, n, p, b), At(u, n, p));
    }
  }

  lemma StillThere(d: Device, held: set<nat>, n: nat, p: Pos)
    requires Shape(d) && n < |d.inodes| && Legal(p) && d.inodes[n].file && (p.Child? ==> ParentZone(d, n, p) != 0)
    ensures There(Unreserved(d, held), n, p)
  {
    if p.Child? {
      LegalParent(p);
      AtUnreserved(d, held, n, p.parent);
    }
  }

  lemma SettleHeld(d: Device, held: set<nat>, n: nat, p: Pos, c: nat, b: ZoneNr)
    requires InvBut(d, held) && b in held && n < |d.inodes| && Legal(p)
    ensures var r := Settle(d, n, p, c, b); forall x | x in held - {b} :: DataZone(r, x) && Used(r, x)
  {
    hide Inv;
  }

  lemma Leaked(r: Device, c: nat)
    requires Shape(r) && DataZone(r, c) && Used(r, c) && !Held(r, c)
    ensures !Inv(r)
  {
  }

  lemma BytesUnreserved(d: Device, held: set<nat>)
    requires Shape(d)
    ensures SameBytes(d, Unreserved(d, held)) && SameBytes(Unreserved(d, held), d)
  {
    forall m: nat, off: nat | m < |d.inodes| && off / BLOCK_SIZE < MAX_BLOCKS
      ensures FileByte(Unreserved(d, held), m, off) == FileByte(d, m, off)
    {
      AtUnreserved(d, held, m, PlaceOf(off / BLOCK_SIZE));
    }
  }

  lemma BytesSame(d: Device, u: Device, v: Device, r: Device)
    requires Shape(d) && Shape(u) && Shape(v) && Shape(r) && SameBytes(d, u) && SameBytes(u, v) && SameBytes(v, r)
    ensures SameBytes(d, r)
  {
    hide FileByte;
  }

  // ---- two tasks and one place ---------------------------------------------------------------------

  /** A device with two data zones, both free, and one empty file. */
  function TwoFree(): (d: Device)
    ensures Shape(d)
  {
    Device(seq(MAP_BITS, j => j != 1 && j != 2), [ZeroBlock(), ZeroBlock(), ZeroBlock()],
           [Inode([0, 0, 0, 0, 0, 0, 0, 0, 0], 0, true)], 1, 3)
  }

  lemma {:induction false} NothingAt(q: Pos)
    requires Legal(q)
    ensures At(TwoFree(), 0, q) == 0
    decreases q
  {
    if q.Child? {
      LegalParent(q);
      NothingAt(q.parent);
    }
  }

  lemma TwoFreeInv()
    ensures Inv(TwoFree())
  {
    var d := TwoFree();
    forall n: nat, p ensures !Holds(d, n, p) {
      if n == 0 && Legal(p) { NothingAt(p); }
    }
    hide At;
  }

  /** Two tasks write block 0 of the file.  Both find no block there, both reserve a zone, both store its number: the
      first zone stays marked used and no file has it. */
  lemma CreatedTwice()
    ensures var d := TwoFree();
            var (d1, b) := Reserve(d);
            var (d2, c) := Reserve(d1);
            && Inv(d) && At(d, 0, Slot(0)) == 0 && b == 1 && c == 2
            && var d3 := Settle(d2, 0, Slot(0), 0, b);
               var d4 := Settle(d3, 0, Slot(0), 0, c);
               InvBut(d3, {c}) && !Inv(d4)
  {
    var d := TwoFree();
    TwoFreeInv();
    NoneHeld(d);
    hide Inv;
    ReserveKeeps(d, {});
    FirstIs(d.zmap, 0, 1);
    var (d1, b) := Reserve(d);
    FirstIs(d1.zmap, 0, 2);
    var (d2, c) := Reserve(d1);
    ReserveKeeps(d1, {b});
    assert {} + {b} == {b} && {b} + {c} - {b} == {c} && {c} - {c} == {};
    SettleKeeps(d2, {b} + {c}, 0, Slot(0), 0, b);
    var d3 := Settle(d2, 0, Slot(0), 0, b);
    SettleKeeps(d3, {c}, 0, Slot(0), 0, c);
    NoneHeld(Settle(d3, 0, Slot(0), 0, c));
  }

  // ---- a truncated file ----------------------------------------------------------------------------

  /** The bits of zones x set. */
  function Reserved(d: Device, x: set<nat>): (r: Device)
    requires Shape(d)
    ensures Shape(r)
  {
    d.(zmap := seq(|d.zmap|, j requires 0 <= j < |d.zmap| => d.zmap[j] || j + d.first - 1 in x))
  }

  lemma ReservedBut(d: Device, x: set<nat>)
    requires Inv(d) && forall b | b in x :: DataZone(d, b) && !Used(d, b)
    ensures InvBut(Reserved(d, x), x)
  {
    hide Placed, Injective, NoLeak;
    assert Unreserved(Reserved(d, x), x).zmap == d.zmap;
  }

  /** truncate while a task sleeps in create_block with the buffer of indirect block c: free_block finds the buffer in
      use and returns early, so that the bit of c stays set, like those of the zones reserved. */
  function TruncatedBusy(d: Device, held: set<nat>, n: nat, c: nat): (r: Device)
    requires Shape(d) && n < |d.inodes|
    ensures Shape(r)
  {
    Reserved(TruncateFile(Unreserved(d, held), n).dev, held + {c})
  }

  lemma Truncated(d: Device, held: set<nat>, n: nat, p: Pos)
    requires InvBut(d, held) && n < |d.inodes| && d.inodes[n].file && Legal(p) && p.Child? && ParentZone(d, n, p) != 0
    ensures var c := ParentZone(d, n, p); var t := TruncatedBusy(d, held, n, c);
            c !in held && InvBut(t, held + {c}) && |t.inodes| == |d.inodes| && At(t, n, p) == 0
  {
    hide Inv, TruncateFile, Reserved, Unreserved, At;
    var (u, c) := (Unreserved(d, held), ParentZone(d, n, p));
    LegalParent(p);
    AtUnreserved(d, held, n, p.parent);
    UnreservedFacts(d, held);
    HeldZone(u, n, p.parent);
    TruncateFrees(u, n);
    TruncateStep(u, n);
    var e := TruncateFile(u, n).dev;
    FreedNow(u, e, n, p.parent, held, c);
    ReservedBut(e, held + {c});
    AtReserved(e, held + {c}, n, p);
  }

  /** Zone x is at a place of file n. */
  ghost predicate HeldBy(d: Device, n: nat, x: nat)
    requires Shape(d)
  {
    exists p :: Holds(d, n, p) && At(d, n, p) == x
  }

  /** That is what such a truncate does: it clears the bits of the file's zones, but for c. */
  lemma BusyFrees(d: Device, held: set<nat>, n: nat, p: Pos, x: nat)
    requires InvBut(d, held) && n < |d.inodes| && d.inodes[n].file && Legal(p) && p.Child? && ParentZone(d, n, p) != 0
    requires DataZone(d, x)
    ensures var c := ParentZone(d, n, p); var t := TruncatedBusy(d, held, n, c);
            DataZone(t, x) && (Used(t, x) <==> Used(d, x) && (x == c || !HeldBy(d, n, x)))
  {
    hide Inv, TruncateFile, At;
    var (u, c) := (Unreserved(d, held), ParentZone(d, n, p));
    LegalParent(p);
    AtUnreserved(d, held, n, p.parent);
    HeldZone(u, n, p.parent);
    TruncateFrees(u, n);
    if q :| Holds(u, n, q) && At(u, n, q) == x {
      AtUnreserved(d, held, n, q);
      HeldZone(u, n, q);
      assert Holds(d, n, q);
    } else {
      forall q ensures !(Holds(d, n, q) && At(d, n, q) == x) {
        if Holds(d, n, q) { AtUnreserved(d, held, n, q); assert Holds(u, n, q); }
      }
      assert !HeldBy(d, n, x) && x != c;
      assert Used(TruncateFile(u, n).dev, x) <==> Used(u, x);
    }
  }

  lemma UnreservedFacts(d: Device, held: set<nat>)
    requires InvBut(d, held)
    ensures var u := Unreserved(d, held);
            u.inodes == d.inodes && forall b | b in held :: DataZone(u, b) && !Used(u, b)
  {
    hide Inv;
  }

  /** Then the place reads empty, but storing the zone there is of no use: the block is no file's any more, and the
      zone is lost. */
  lemma ParentGone(d: Device, held: set<nat>, n: nat, p: Pos, b: ZoneNr)
    requires InvBut(d, held) && b in held && n < |d.inodes| && d.inodes[n].file && Legal(p) && p.Child?
    requires ParentZone(d, n, p) != 0
    ensures var c := ParentZone(d, n, p); var t := TruncatedBusy(d, held, n, c);
            && c !in held && InvBut(t, held + {c}) && |t.inodes| == |d.inodes| && At(t, n, p) == 0 && DataZone(t, b)
            && !InvBut(Settle(t, n, p, c, b), held + {c} - {b})
  {
    hide Inv, TruncatedBusy, Settle, ParentZone, At, Unreserved;
    Truncated(d, held, n, p);
    var c := ParentZone(d, n, p);
    LostZone(TruncatedBusy(d, held, n, c), held + {c}, n, p, c, b);
  }

  lemma HeldZone(u: Device, n: nat, q: Pos)
    requires Inv(u) && n < |u.inodes| && Legal(q) && At(u, n, q) != 0
    ensures Holds(u, n, q) && DataZone(u, At(u, n, q)) && Used(u, At(u, n, q))
  {
    hide Injective, NoLeak;
    assert Holds(u, n, q);
  }

  lemma FreedNow(u: Device, e: Device, n: nat, q: Pos, held: set<nat>, c: nat)
    requires Shape(u) && Shape(e) && e.first == u.first && e.nzones == u.nzones && Holds(u, n, q) && At(u, n, q) == c
    requires forall x | DataZone(u, x) :: Used(e, x) <==> Used(u, x) && !exists p :: Holds(u, n, p) && At(u, n, p) == x
    requires DataZone(u, c) && forall b | b in held :: DataZone(u, b) && !Used(u, b)
    ensures forall b | b in held + {c} :: DataZone(e, b) && !Used(e, b)
  {
  }

  lemma {:induction false} AtReserved(d: Device, x: set<nat>, m: nat, q: Pos)
    requires Shape(d) && m < |d.inodes| && Legal(q)
    ensures Reserved(d, x).inodes == d.inodes && At(Reserved(d, x), m, q) == At(d, m, q)
    decreases q
  {
    if q.Child? {
      LegalParent(q);
      AtReserved(d, x, m, q.parent);
    }
  }

  /** A number stored in a block no file has. */
  lemma LostZone(d: Device, held: set<nat>, n: nat, p: Pos, c: nat, b: ZoneNr)
    requires InvBut(d, held) && b in held && c in held && c != b && n < |d.inodes| && Legal(p) && p.Child?
    ensures !InvBut(Settle(d, n, p, c, b), held - {b})
  {
    hide Inv, Settle;
    var (r, u) := (Settle(d, n, p, c, b), Unreserved(d, held));
    var v := Unreserved(r, held - {b});
    Unheld(d, held, n, p, c, b);
    forall m: nat, q | Holds(v, m, q) ensures At(v, m, q) != b {
      Untouched(u, v, c, b, m, q);
      assert At(u, m, q) != 0 && Holds(u, m, q);
      HeldZone(u, m, q);
    }
    assert !Held(v, b);
    Leaked(v, b);
  }

  lemma Unheld(d: Device, held: set<nat>, n: nat, p: Pos, c: nat, b: ZoneNr)
    requires InvBut(d, held) && b in held && c in held && c != b && n < |d.inodes| && Legal(p) && p.Child?
    ensures var (u, v) := (Unreserved(d, held), Unreserved(Settle(d, n, p, c, b), held - {b}));
            && v.inodes == u.inodes && |v.disk| == |u.disk| && v.first == u.first && v.nzones == u.nzones
            && (forall x: nat | x < |u.disk| && x != c && x != b :: v.disk[x] == u.disk[x])
            && DataZone(u, b) && !Used(u, b) && DataZone(u, c) && !Used(u, c) && Used(v, b)
  {
    hide Inv;
  }

  /** Blocks no file has may hold anything. */
  lemma {:induction false} Untouched(u: Device, v: Device, c: nat, b: nat, m: nat, q: Pos)
    requires Inv(u) && Shape(v) && v.inodes == u.inodes && |v.disk| == |u.disk|
    requires forall x: nat | x < |u.disk| && x != c && x != b :: v.disk[x] == u.disk[x]
    requires DataZone(u, b) && !Used(u, b) && DataZone(u, c) && !Used(u, c) && m < |u.inodes| && Legal(q)
    ensures At(v, m, q) == At(u, m, q)
    decreases q
  {
    if q.Child? {
      LegalParent(q);
      Untouched(u, v, c, b, m, q.parent);
      if At(u, m, q.parent) != 0 { HeldZone(u, m, q.parent); }
    }
  }

  /** A device with three data zones, of which the first is the empty indirect block of the one file. */
  function OneIndirect(): (d: Device)
    ensures Shape(d)
  {
    Device(seq(MAP_BITS, j => j != 2 && j != 3), [ZeroBlock(), ZeroBlock(), ZeroBlock(), ZeroBlock()],
           [Inode([0, 0, 0, 0, 0, 0, 0, 1, 0], 0, true)], 1, 4)
  }

  lemma {:induction false} OnlyIndirect(q: Pos)
    requires Legal(q)
    ensures At(OneIndirect(), 0, q) == if q == Slot(7) then 1 else 0
    decreases q
  {
    if q.Child? {
      LegalParent(q);
      OnlyIndirect(q.parent);
    }
  }

  lemma OneIndirectInv()
    ensures Inv(OneIndirect())
  {
    var d := OneIndirect();
    forall n: nat, p ensures Holds(d, n, p) <==> n == 0 && p == Slot(7) {
      if n == 0 && Legal(p) { OnlyIndirect(p); }
    }
    OnlyIndirect(Slot(7));
    assert Holds(d, 0, Slot(7)) && At(d, 0, Slot(7)) == 1;
    hide At;
    assert Held(d, 1);
  }

  /** A task extends the file and sleeps, with zone 2 reserved; another opens it with O_TRUNC; the place is empty
      then, but the number goes into a block that is lost, and the zone with it. */
  lemma TruncatedAway()
    ensures var d := OneIndirect(); var p := Child(Slot(7), 3);
            var (d1, b) := Reserve(d);
            && Inv(d) && b == 2 && ParentZone(d1, 0, p) == 1
            && var t := TruncatedBusy(d1, {2}, 0, 1);
               && InvBut(t, {2, 1}) && |t.inodes| == 1 && DataZone(t, 2) && At(t, 0, p) == 0
               && !InvBut(Settle(t, 0, p, 1, 2), {1})
  {
    var d := OneIndirect();
    OneIndirectInv();
    OnlyIndirect(Slot(7));
    NoneHeld(d);
    hide Inv, TruncatedBusy, Settle;
    ReserveKeeps(d, {});
    FirstIs(d.zmap, 0, 2);
    var (d1, b) := Reserve(d);
    assert {} + {b} == {2} && {2} + {1} == {2, 1} && {2, 1} - {2} == {1};
    ParentGone(d1, {2}, 0, Child(Slot(7), 3), 2);
  }

  lemma {:induction false} FirstIs(m: seq<bool>, j: nat, k: nat)
    requires j <= k < |m| && !m[k] && forall i | j <= i < k :: m[i]
    ensures FirstClear(m, j) == k
    decreases k - j
  {
    if j < k { FirstIs(m, j + 1, k); }
  }
}
