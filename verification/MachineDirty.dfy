/** The dirty bit over whole runs.  try_to_share takes over clean pages only; what makes that enough is that entries for
    the same frame are dirty together, and that a page a task has stored into stays dirty until it is unmapped or copied. */
module MachineDirty {
  import opened Frames
  import opened Machine
  import opened MachineSteps
  import opened MachineOps
  import opened MachineFree
  import opened MachineFaults
  import opened MachineStores
  import opened MachineRuns

  /** A page of a task that has been stored into. */
  predicate DirtyAt(s: State, x: (nat, nat))
    requires Shape(s)
  {
    IsPte(s, x.0, x.1) && Pte(s, x.0, x.1).dirty && LOW <= Pte(s, x.0, x.1).frame
  }

  /** The mappings of one frame are all dirty or all clean. */
  ghost predicate Agree(s: State)
    requires Shape(s)
  {
    forall d: nat, i: nat, e: nat, j: nat
      | IsPte(s, d, i) && IsPte(s, e, j) && LOW <= Pte(s, d, i).frame == Pte(s, e, j).frame ::
      Pte(s, d, i).dirty == Pte(s, e, j).dirty
  }

  /** Place (d, i) maps the frame it mapped, dirty or clean as before. */
  predicate Steady(s: State, r: State, d: nat, i: nat)
    requires Shape(s) && Shape(r)
  {
    (IsPte(r, d, i) <==> IsPte(s, d, i)) && (IsPte(s, d, i) ==> SamePage(Pte(s, d, i), Pte(r, d, i)))
  }

  ghost predicate SteadyBut(s: State, r: State, d: nat, i: nat)
    requires Shape(s) && Shape(r)
  {
    forall e: nat, j: nat | !(e == d && j == i) :: Steady(s, r, e, j)
  }

  /** Place (d, i) is dirty if and only if any other place that maps its frame is. */
  ghost predicate Fits(s: State, d: nat, i: nat)
    requires Shape(s)
  {
    IsPte(s, d, i) && LOW <= Pte(s, d, i).frame ==>
      forall e: nat, j: nat | IsPte(s, e, j) && Pte(s, e, j).frame == Pte(s, d, i).frame :: Pte(s, e, j).dirty == Pte(s, d, i).dirty
  }

  lemma AgreeBut(s: State, r: State, d: nat, i: nat)
    requires Shape(s) && Shape(r) && Agree(s) && SteadyBut(s, r, d, i) && Fits(r, d, i)
    ensures Agree(r)
  {
    hide Pte;
    forall a: nat, b: nat, e: nat, j: nat
      | IsPte(r, a, b) && IsPte(r, e, j) && LOW <= Pte(r, a, b).frame == Pte(r, e, j).frame
      ensures Pte(r, a, b).dirty == Pte(r, e, j).dirty
    {
      if !(a == d && b == i) && !(e == d && j == i) {
        assert Steady(s, r, a, b) && Steady(s, r, e, j);
      }
    }
  }

  lemma AgreeSteady(s: State, r: State)
    requires Shape(s) && Shape(r) && Agree(s)
    requires forall e: nat, j: nat | IsPte(r, e, j) :: Steady(s, r, e, j)
    ensures Agree(r)
  {
    hide Pte;
    forall a: nat, b: nat, e: nat, j: nat
      | IsPte(r, a, b) && IsPte(r, e, j) && LOW <= Pte(r, a, b).frame == Pte(r, e, j).frame
      ensures Pte(r, a, b).dirty == Pte(r, e, j).dirty
    {
      assert Steady(s, r, a, b) && Steady(s, r, e, j);
    }
  }

  /** A writable page has one mapping. */
  lemma WritableFits(s: State, d: nat, i: nat)
    requires Shape(s) && Inv(s) && IsPte(s, d, i) && Pte(s, d, i).rw
    ensures Fits(s, d, i)
  {
    PagePlaced(s, d, i);
    PageAlone(s, d, i);
  }

  // ---- what each change does to the other places -------------------------------------------------

  lemma SteadyTables(s: State, r: State)
    requires Shape(s) && Shape(r) && SameTables(s, r)
    ensures forall e: nat, j: nat :: Steady(s, r, e, j)
  {
  }

  lemma SteadyEntry(s: State, r: State, d: nat, i: nat, w: Word)
    requires Shape(s) && Shape(r) && IsTable(s, d) && i < WORDS && OneEntry(s, r, d, i, w)
    ensures SteadyBut(s, r, d, i) && IsTable(r, d) && Pte(r, d, i) == w
  {
  }

  lemma SteadyKept(s: State, r: State, lo: nat, hi: nat)
    requires Shape(s) && Shape(r) && Kept(s, r, lo, hi)
    ensures forall e: nat, j: nat | !(lo <= e < hi) :: Steady(s, r, e, j)
  {
  }

  lemma SteadyOpen(s: State, r: State, d: nat, i: nat)
    requires Shape(s) && Shape(r) && Kept(s, r, d, d + 1) && 16 <= d < WORDS && !Dir(s, d).p
    requires IsTable(r, d) && forall j: nat | j < WORDS :: !Pte(r, d, j).p
    ensures forall e: nat, j: nat :: Steady(s, r, e, j)
  {
    SteadyKept(s, r, d, d + 1);
  }

  lemma SteadyTrans(s: State, m: State, r: State, d: nat, i: nat)
    requires Shape(s) && Shape(m) && Shape(r) && SteadyBut(s, m, d, i) && SteadyBut(m, r, d, i)
    ensures SteadyBut(s, r, d, i)
  {
    hide Pte;
    forall e: nat, j: nat | !(e == d && j == i) ensures Steady(s, r, e, j) {
      assert Steady(s, m, e, j) && Steady(m, r, e, j);
    }
  }

  // ---- stores ----------------------------------------------------------------------------------

  lemma OwnSteady(s: State, d: nat, i: nat)
    requires Shape(s) && Inv(s) && IsPte(s, d, i) && UnWp(s, d, i).1
    ensures var r := UnWp(s, d, i).0;
            Inv(r) && SteadyBut(s, r, d, i) && IsPte(r, d, i) && Pte(r, d, i).rw && Fits(r, d, i)
  {
    hide Inv, UnWp, Steady, OneEntry;
    UnWpStep(s, d, i);
    var r := UnWp(s, d, i).0;
    SteadyEntry(s, r, d, i, Pte(r, d, i));
    WritableFits(r, d, i);
  }

  /** Setting the dirty bit and storing the word. */
  lemma DirtiedSteady(s: State, d: nat, i: nat, k: nat, w: Word)
    requires Shape(s) && Inv(s) && IsPte(s, d, i) && LOW <= Pte(s, d, i).frame && k < WORDS && Count(s, Pte(s, d, i).frame) == 1
    ensures var r := PutThrough(s, d, i, k, w); Inv(r) && SteadyBut(s, r, d, i) && DirtyAt(r, (d, i)) && Fits(r, d, i)
  {
    hide Inv, Poke, SetPte, Steady;
    var e := Pte(s, d, i);
    PageAlone(s, d, i);
    Dirtied(s, d, i);
    var s1 := SetPte(s, d, i, e.(dirty := true));
    Poked(s1, d, i, k, w);
    var r := Poke(s1, e.frame, k, w);
    SteadyEntry(s, s1, d, i, e.(dirty := true));
    SteadyTables(s1, r);
    SteadyTrans(s, s1, r, d, i);
    AloneStays(s, r, d, i);
  }

  lemma AloneStays(s: State, r: State, d: nat, i: nat)
    requires Shape(s) && Shape(r) && IsPte(s, d, i) && SteadyBut(s, r, d, i) && IsPte(r, d, i) && Pte(r, d, i).frame == Pte(s, d, i).frame
    requires forall e: nat, j: nat | IsPte(s, e, j) && Pte(s, e, j).frame == Pte(s, d, i).frame :: e == d && j == i
    ensures Fits(r, d, i)
  {
    hide Pte;
    forall e: nat, j: nat | IsPte(r, e, j) && !(e == d && j == i) ensures Pte(r, e, j).frame != Pte(r, d, i).frame {
      assert Steady(s, r, e, j);
    }
  }

  lemma StoreSteady(s: State, d: nat, i: nat, k: nat, w: Word)
    requires Shape(s) && Inv(s) && IsPte(s, d, i) && k < WORDS && UserStore(s, d, i, k, w).1
    ensures var r := UserStore(s, d, i, k, w).0; SteadyBut(s, r, d, i) && DirtyAt(r, (d, i)) && Fits(r, d, i)
  {
    hide Inv, Steady, UnWp, SetPte, Poke;
    var s1 := if Pte(s, d, i).rw then s else UnWp(s, d, i).0;
    if !Pte(s, d, i).rw { OwnSteady(s, d, i); }
    PagePlaced(s1, d, i);
    PageAlone(s1, d, i);
    DirtiedSteady(s1, d, i, k, w);
    if !Pte(s, d, i).rw { SteadyTrans(s, s1, PutThrough(s1, d, i, k, w), d, i); }
  }

  // ---- missing pages and pages of the kernel ---------------------------------------------------

  lemma EnterSteady(s: State, d: nat, i: nat, f: Pfn)
    requires Shape(s) && Inv(s) && f in s.held && IsTable(s, d) && i < WORDS && !Pte(s, d, i).p
    ensures var r := EnterPage(s, d, i, f); Inv(r) && SteadyBut(s, r, d, i) && IsPte(r, d, i) && Pte(r, d, i) == Seven(f) && Fits(r, d, i)
  {
    hide Inv, EnterPage, Steady;
    EnterPageStep(s, d, i, f);
    SteadyEntry(s, EnterPage(s, d, i, f), d, i, Seven(f));
    WritableFits(EnterPage(s, d, i, f), d, i);
  }

  lemma PutSteady(s: State, f: Pfn, d: nat, i: nat)
    requires Shape(s) && Inv(s) && f in s.held && 16 <= d < WORDS && i < WORDS && !IsPte(s, d, i) && PutPage(s, f, d, i).1
    ensures var r := PutPage(s, f, d, i).0; SteadyBut(s, r, d, i) && IsPte(r, d, i) && Pte(r, d, i) == Seven(f) && Fits(r, d, i)
  {
    hide Inv, EnterPage, Steady, EnterTable, GetFree;
    if Dir(s, d).p {
      EnterSteady(s, d, i, f);
    } else {
      var s1 := EnterTable(GetFree(s).0, d, GetFree(s).1);
      OpenTable(s, d);
      PutPageOpen(s, f, d);
      SteadyOpen(s, s1, d, i);
      EnterSteadyHeld(s, s1, f);
      EnterSteady(s1, d, i, f);
      SteadyTrans(s, s1, EnterPage(s1, d, i, f), d, i);
    }
  }

  lemma EnterSteadyHeld(s: State, s1: State, f: Pfn)
    requires f in s.held && s1.held == s.held
    ensures f in s1.held
  {
  }

  lemma NewSteady(s: State, d: nat, i: nat, p: Page)
    requires Shape(s) && Inv(s) && 16 <= d < WORDS && i < WORDS && !IsPte(s, d, i) && |p| == WORDS
    ensures var (r, ok) := NewPage(s, d, i, p);
            if ok then SteadyBut(s, r, d, i) && Fits(r, d, i) && IsPte(r, d, i) && !Pte(r, d, i).dirty else forall e: nat, j: nat :: Steady(s, r, e, j)
  {
    hide Inv, GetFree, Fill, PutPage, FreePage, Steady, SameTables, Fits;
    if GetFree(s).1 != 0 {
      FilledFrame(s, p);
      var f := GetFree(s).1;
      var s2 := Fill(GetFree(s).0, f, p);
      NotPteKept(s, s2, d, i);
      SteadyTables(s, s2);
      PutPageStep(s2, f, d, i);
      if PutPage(s2, f, d, i).1 {
        PutSteady(s2, f, d, i);
        SteadyTrans(s, s2, PutPage(s2, f, d, i).0, d, i);
      } else {
        FreeHeldStep(s2, f);
        SameTablesTrans(s, s2, FreePage(s2, f));
        SteadyTables(s, FreePage(s2, f));
      }
    } else {
      GetFreeStep(s);
      SteadyTables(s, s);
    }
  }

  lemma ShareSteady(s: State, pd: nat, cd: nat, i: nat)
    requires Shape(s) && Inv(s) && IsPte(s, pd, i) && LOW <= Pte(s, pd, i).frame && IsTable(s, cd) && !Pte(s, cd, i).p
    requires pd != cd && pd % 16 == cd % 16
    ensures var r := EnterShared(s, pd, cd, i);
            SteadyBut(s, r, cd, i) && IsPte(r, cd, i) && SamePage(Pte(s, pd, i), Pte(r, cd, i))
  {
    var v := Pte(s, pd, i).(rw := false);
    RelabelStep(s, pd, i, v);
    var s1 := SetPte(s, pd, i, v);
    assert EnterShared(s, pd, cd, i) == EnterReader(s1, cd, i, v);
    hide Inv, SetPte, EnterReader;
    assert Pte(s1, cd, i) == Pte(s, cd, i);
    EnterReaderStep(s1, cd, i, v, pd);
    SteadyEntry(s, s1, pd, i, v);
    assert SteadyBut(s, s1, cd, i);
    SteadyEntry(s1, EnterReader(s1, cd, i, v), cd, i, v);
    SteadyTrans(s, s1, EnterReader(s1, cd, i, v), cd, i);
  }

  lemma FitsCopy(s: State, r: State, d: nat, i: nat, e: nat, j: nat)
    requires Shape(s) && Shape(r) && Agree(s) && SteadyBut(s, r, d, i) && IsPte(s, e, j)
    requires IsPte(r, d, i) && SamePage(Pte(s, e, j), Pte(r, d, i))
    ensures Fits(r, d, i)
  {
    hide Pte;
    forall a: nat, b: nat | IsPte(r, a, b) && Pte(r, a, b).frame == Pte(r, d, i).frame && LOW <= Pte(r, d, i).frame
      ensures Pte(r, a, b).dirty == Pte(r, d, i).dirty
    {
      if !(a == d && b == i) { assert Steady(s, r, a, b); }
    }
  }

  lemma TakenOver(s: State, pd: nat, cd: nat, i: nat)
    requires Shape(s) && Inv(s) && 16 <= pd < WORDS && 16 <= cd < WORDS && i < WORDS && !IsPte(s, cd, i)
    requires pd != cd && pd % 16 == cd % 16 && TryToShare(s, pd, cd, i).1 == Shared
    ensures var r := TryToShare(s, pd, cd, i).0;
            && SteadyBut(s, r, cd, i) && IsPte(s, pd, i) && IsPte(r, cd, i) && SamePage(Pte(s, pd, i), Pte(r, cd, i))
  {
    hide EnterShared, Inv, EnterTable, GetFree, Steady;
    if Dir(s, cd).p {
      ShareSteady(s, pd, cd, i);
    } else {
      var s1 := EnterTable(GetFree(s).0, cd, GetFree(s).1);
      OpenTable(s, cd);
      SteadyOpen(s, s1, cd, i);
      assert Steady(s, s1, pd, i);
      StillThere(s, s1, pd, i);
      ShareSteady(s1, pd, cd, i);
      SteadyTrans(s, s1, EnterShared(s1, pd, cd, i), cd, i);
    }
  }

  lemma StillThere(s: State, r: State, d: nat, i: nat)
    requires Shape(s) && Shape(r) && Steady(s, r, d, i) && IsPte(s, d, i)
    ensures IsPte(r, d, i) && SamePage(Pte(s, d, i), Pte(r, d, i))
  {
  }

  /** share_page ends in the one try_to_share that does not fail. */
  lemma {:induction false} SharedBy(s: State, exe: seq<nat>, cur: nat, k: nat, i: nat, p: nat) returns (q: nat)
    requires Shape(s) && Inv(s) && |exe| == 64 && 0 < cur < 64 && p < 64 && k < 16 && i < WORDS && !IsPte(s, 16 * cur + k, i)
    requires SharePage(s, exe, cur, k, i, p).1 == Shared
    ensures 0 < q < 64 && q != cur && Clean(s, 16 * q + k, i)
    ensures SharePage(s, exe, cur, k, i, p) == TryToShare(s, 16 * q + k, 16 * cur + k, i)
    decreases p
  {
    hide Inv, TryToShare, Clean, IsPte, Spaces;
    if exe[p] == 0 || p == cur || exe[p] != exe[cur] {
      q := SharedBy(s, exe, cur, k, i, p - 1);
    } else {
      Mod16(p, cur, k);
      TryToShareStep(s, 16 * p + k, 16 * cur + k, i);
      q := p;
      if TryToShare(s, 16 * p + k, 16 * cur + k, i).1 == NotShared { q := SharedBy(s, exe, cur, k, i, p - 1); }
    }
  }

  lemma SharedSteady(s: State, exe: seq<nat>, cur: nat, k: nat, i: nat)
    requires Shape(s) && Inv(s) && Agree(s) && |exe| == 64 && 0 < cur < 64 && k < 16 && i < WORDS && !IsPte(s, 16 * cur + k, i)
    requires SharePage(s, exe, cur, k, i, 63).1 == Shared
    ensures var r := SharePage(s, exe, cur, k, i, 63).0; var d := 16 * cur + k;
            SteadyBut(s, r, d, i) && Fits(r, d, i) && IsPte(r, d, i) && !Pte(r, d, i).dirty
  {
    hide Inv, SharePage, SteadyBut, Agree, Fits, TryToShare, Pte;
    var d := 16 * cur + k;
    var q := SharedBy(s, exe, cur, k, i, 63);
    Mod16(q, cur, k);
    TakenOver(s, 16 * q + k, d, i);
    FitsCopy(s, TryToShare(s, 16 * q + k, d, i).0, d, i, 16 * q + k, i);
  }

  /** The page a fault brings in is clean. */
  lemma MissingSteady(s: State, exe: seq<nat>, cur: nat, k: nat, i: nat, inFile: bool, users: nat, file: Page)
    requires Shape(s) && Inv(s) && Agree(s) && |exe| == 64 && 0 < cur < 64 && k < 16 && i < WORDS && |file| == WORDS
    requires !IsPte(s, 16 * cur + k, i)
    ensures var (r, ok) := NoPage(s, exe, cur, k, i, inFile, users, file); var d := 16 * cur + k;
            if ok then SteadyBut(s, r, d, i) && Fits(r, d, i) && IsPte(r, d, i) && !Pte(r, d, i).dirty
            else forall e: nat, j: nat :: Steady(s, r, e, j)
  {
    hide Inv, NewPage, SharePage, Steady, SteadyBut, Agree, Fits, TryToShare, Pte;
    var d := 16 * cur + k;
    if exe[cur] == 0 || !inFile {
      NewSteady(s, d, i, ZeroPage());
    } else if users < 2 {
      NewSteady(s, d, i, file);
    } else {
      SharePageStep(s, exe, cur, k, i, 63);
      var (s1, o) := SharePage(s, exe, cur, k, i, 63);
      if o.Shared? {
        SharedSteady(s, exe, cur, k, i);
      } else if o.NotShared? {
        NewSteady(s, d, i, file);
      } else {
        SteadySelf(s);
      }
    }
  }

  lemma SteadySelf(s: State)
    requires Shape(s)
    ensures forall e: nat, j: nat :: Steady(s, s, e, j)
  {
  }

  // ---- fork and exit ----------------------------------------------------------------------------

  lemma CopyEntryAgrees(s: State, fd: nat, td: nat, i: nat)
    requires Shape(s) && Inv(s) && Agree(s) && IsTable(s, td) && i < WORDS && !Pte(s, td, i).p && fd != td
    requires fd < WORDS && Dir(s, fd).p
    requires if fd == 0 then i < 160 else IsTable(s, fd) && fd % 16 == td % 16
    ensures Agree(CopyEntry(s, fd, td, i))
  {
    hide Inv, SameBoot;
    var r := CopyEntry(s, fd, td, i);
    CopyEntryStep(s, fd, td, i);
    if Pte(s, fd, i).p {
      hide CopyEntry, Agree;
      CopiedSteady(s, r, fd, td, i);
      if fd == 0 { BootLow(s, i); } else { FitsCopy(s, r, td, i, fd, i); }
      AgreeBut(s, r, td, i);
    }
  }

  lemma BootLow(s: State, i: nat)
    requires Shape(s) && Inv(s) && i < 160 && Dir(s, 0).p && Pte(s, 0, i).p
    ensures Pte(s, 0, i).frame < LOW
  {
  }

  lemma CopiedSteady(s: State, r: State, fd: nat, td: nat, i: nat)
    requires Shape(s) && Shape(r) && IsTable(s, td) && i < WORDS && fd < WORDS && Copied(s, r, fd, td, i) && Pte(s, fd, i).p
    ensures SteadyBut(s, r, td, i) && IsPte(r, td, i) && SamePage(Pte(s, fd, i), Pte(r, td, i))
  {
  }

  lemma {:induction false} CopyEntriesAgree(s: State, fd: nat, td: nat, i: nat, nr: nat)
    requires Shape(s) && Inv(s) && Agree(s) && IsTable(s, td) && i <= nr <= WORDS && fd != td && fd < WORDS && Dir(s, fd).p
    requires forall j: nat | i <= j < nr :: !Pte(s, td, j).p
    requires if fd == 0 then nr <= 160 else IsTable(s, fd) && fd % 16 == td % 16
    ensures Agree(CopyEntries(s, fd, td, i, nr))
    decreases nr - i
  {
    hide Inv, Agree, CopyEntry;
    if i < nr {
      CopyEntryStep(s, fd, td, i);
      CopyEntryAgrees(s, fd, td, i);
      CopyEntriesAgree(CopyEntry(s, fd, td, i), fd, td, i + 1, nr);
    }
  }

  lemma OpenAgrees(s: State, td: nat)
    requires Shape(s) && Inv(s) && Agree(s) && 16 <= td < WORDS && !Dir(s, td).p && GetFree(s).1 != 0
    ensures Agree(EnterTable(GetFree(s).0, td, GetFree(s).1))
  {
    hide Inv, Agree, Steady, GetFree, EnterTable;
    OpenTable(s, td);
    SteadyOpen(s, EnterTable(GetFree(s).0, td, GetFree(s).1), td, 0);
    AgreeSteady(s, EnterTable(GetFree(s).0, td, GetFree(s).1));
  }

  lemma CopyTableAgrees(s: State, fd: nat, td: nat, nr: nat)
    requires Shape(s) && Inv(s) && Agree(s) && ForkRange(fd, td, 1, nr) && Dir(s, fd).p && !Dir(s, td).p && GetFree(s).1 != 0
    ensures Agree(CopyEntries(EnterTable(GetFree(s).0, td, GetFree(s).1), fd, td, 0, nr))
  {
    hide Inv, Agree, GetFree, EnterTable;
    OpenTable(s, td);
    OpenAgrees(s, td);
    var s2 := EnterTable(GetFree(s).0, td, GetFree(s).1);
    assert Dir(s2, fd) == Dir(s, fd);
    CopyEntriesAgree(s2, fd, td, 0, nr);
  }

  lemma {:induction false} CopyTablesAgree(s: State, fd: nat, td: nat, n: nat, nr: nat)
    requires Shape(s) && Inv(s) && Agree(s) && ForkRange(fd, td, n, nr) && NoTables(s, td, n)
    ensures Agree(CopyTables(s, fd, td, n, nr).0)
    decreases n
  {
    hide Inv, Agree, GetFree, NoTables, CopyEntries, EnterTable, CopiedOne;
    if n == 0 {
    } else if !Dir(s, fd).p {
      ForkRangeNext(fd, td, n, nr);
      NoTablesNext(s, td, n);
      CopyTablesAgree(s, fd + 1, td + 1, n - 1, nr);
    } else if GetFree(s).1 == 0 {
      GetFreeStep(s);
    } else {
      ForkRangeNext(fd, td, n, nr);
      NoTablesNext(s, td, n);
      CopyOneTable(s, fd, td, nr);
      CopyTableAgrees(s, fd, td, nr);
      var s1 := CopyEntries(EnterTable(GetFree(s).0, td, GetFree(s).1), fd, td, 0, nr);
      NoTablesKept(s, s1, fd, td, n, nr);
      CopyTablesAgree(s1, fd + 1, td + 1, n - 1, nr);
      CopyUnfold(s, s1, fd, td, n, nr);
    }
  }

  lemma TakenAgrees(s: State)
    requires Shape(s) && Inv(s) && Agree(s)
    ensures Agree(GetFree(s).0) && forall e: nat, j: nat :: Steady(s, GetFree(s).0, e, j)
  {
    hide Inv, Agree, Steady;
    GetFreeStep(s);
    SteadyTables(s, GetFree(s).0);
    AgreeSteady(s, GetFree(s).0);
  }

  lemma FreedAgrees(s: State, d: nat, n: nat)
    requires Shape(s) && Inv(s) && Agree(s) && 16 <= d && d + n <= WORDS
    ensures var r := FreeTables(s, d, n);
            && Agree(r) && (forall e: nat, j: nat | !(d <= e < d + n) :: Steady(s, r, e, j))
            && forall e: nat, j: nat | d <= e < d + n :: !IsPte(r, e, j)
  {
    hide Inv, FreeTables, Steady, Agree, Pte;
    FreeTablesStep(s, d, n);
    SteadyKept(s, FreeTables(s, d, n), d, d + n);
    AgreeSteady(s, FreeTables(s, d, n));
  }

  lemma ForkAgrees(s: State, fd: nat, td: nat, n: nat)
    requires Shape(s) && Inv(s) && Agree(s) && ForkRange(fd, td, n, ForkEntries(fd)) && NoTables(s, td, n)
    ensures var r := ForkStep(s, fd, td, n).0;
            Agree(r) && forall e: nat, j: nat | !(td <= e < td + n) :: Steady(s, r, e, j)
  {
    TakenAgrees(s);
    if GetFree(s).1 != 0 {
      ForkTaken(s, td, n);
      var (s1, f) := GetFree(s);
      hide Inv, CopyTables, FreeTables, GetFree, NoTables, ForkRange, Kept, Steady, Agree, IsPte;
      CopyTablesStep(s1, fd, td, n, ForkEntries(fd));
      CopyTablesAgree(s1, fd, td, n, ForkEntries(fd));
      var (s2, ok) := CopyTables(s1, fd, td, n, ForkEntries(fd));
      SteadyKept(s1, s2, td, td + n);
      SteadyOutside(s, s1, s2, td, n);
      if !ok {
        CopyThenFree(s1, fd, td, n, ForkEntries(fd));
        FreedAgrees(s2, td, n);
        var s3 := FreeTables(s2, td, n);
        SteadyOutside(s, s2, s3, td, n);
        FreeHeldStep(s3, f);
        SteadyTables(s3, FreePage(s3, f));
        AgreeSteady(s3, FreePage(s3, f));
        SteadyOutside(s, s3, FreePage(s3, f), td, n);
      }
    }
  }

  lemma SteadyOutside(s: State, m: State, r: State, td: nat, n: nat)
    requires Shape(s) && Shape(m) && Shape(r)
    requires forall e: nat, j: nat | !(td <= e < td + n) :: Steady(s, m, e, j)
    requires forall e: nat, j: nat | !(td <= e < td + n) :: Steady(m, r, e, j)
    ensures forall e: nat, j: nat | !(td <= e < td + n) :: Steady(s, r, e, j)
  {
    hide Pte;
    forall e: nat, j: nat | !(td <= e < td + n) ensures Steady(s, r, e, j) {
      assert Steady(s, m, e, j) && Steady(m, r, e, j);
    }
  }

  // ---- every kernel entry ----------------------------------------------------------------------

  ghost predicate SteadyElse(s: State, r: State, l: Label)
    requires Shape(s) && Shape(r)
  {
    forall e: nat, j: nat | !Touches(l, (e, j)) :: Steady(s, r, e, j)
  }

  lemma AgreeTables(s: State, r: State)
    requires Shape(s) && Shape(r) && Agree(s) && SameTables(s, r)
    ensures Agree(r) && forall e: nat, j: nat :: Steady(s, r, e, j)
  {
    hide Agree, Steady, SameTables;
    SteadyTables(s, r);
    AgreeSteady(s, r);
  }

  lemma KernelStoreTables(s: State, f: nat, k: nat, w: Word)
    requires Shape(s) && Inv(s) && k < WORDS && (f in s.held || KernelOwn(s, f))
    ensures SameTables(s, Poke(s, f, k, w))
  {
    if f in s.held {
      HeldAlone(s, f);
      FillHeld(s, f, s.phys[f][k := w]);
    } else {
      forall d: nat | IsTable(s, d) ensures LOW <= Dir(s, d).frame { TableAlone(s, d); }
    }
  }

  /** Entries that change one place: what they leave there fits the other mappings of its frame. */
  lemma OneAgrees(s: State, l: Label, d: nat, i: nat)
    requires Shape(s) && Inv(s) && Agree(s) && Allowed(s, l)
    requires match l
             case Store(e, j, k, w) => e == d && j == i
             case Verify(e, j) => e == d && j == i
             case Missing(exe, cur, k, j, inFile, users, file) => 16 * cur + k == d && j == i
             case Place(f, e, j) => e == d && j == i
             case PutUser(e, j, k, w) => e == d && j == i
             case _ => false
    ensures Agree(Next(s, l).0) && SteadyBut(s, Next(s, l).0, d, i)
  {
    hide Inv, Agree, Steady, Fits, UserStore, NoPage, PutPage, PutThrough, UnWp, Pte;
    var (r, ok) := Next(s, l);
    match l
    case Store(_, _, k, w) =>
      UserStoreStep(s, d, i, k, w);
      if ok { StoreSteady(s, d, i, k, w); AgreeBut(s, r, d, i); } else { SteadySelf(s); }
    case Verify(_, _) =>
      if r != s { VerifySteady(s, d, i); AgreeBut(s, r, d, i); } else { SteadySelf(s); }
    case Missing(exe, cur, k, _, inFile, users, file) =>
      MissingSteady(s, exe, cur, k, i, inFile, users, file);
      if ok { AgreeBut(s, r, d, i); } else { AgreeSteady(s, r); }
    case Place(f, _, _) =>
      PutPageStep(s, f, d, i);
      if ok { PutSteady(s, f, d, i); AgreeBut(s, r, d, i); } else { SteadySelf(s); }
    case PutUser(_, _, k, w) =>
      DirtiedSteady(s, d, i, k, w);
      AgreeBut(s, r, d, i);
  }

  lemma VerifySteady(s: State, d: nat, i: nat)
    requires Shape(s) && Inv(s) && 16 <= d < WORDS && i < WORDS && VerifyStep(s, d, i).0 != s
    ensures var r := VerifyStep(s, d, i).0; SteadyBut(s, r, d, i) && Fits(r, d, i)
  {
    hide Inv, UnWp, Steady, Fits;
    UnWpStep(s, d, i);
    OwnSteady(s, d, i);
  }

  /** Every kernel entry keeps the mappings of a frame dirty together, and the dirty bit of every place it is not for. */
  lemma StepAgrees(s: State, l: Label)
    requires Shape(s) && Inv(s) && Agree(s) && Allowed(s, l)
    ensures var r := Next(s, l).0; Agree(r) && SteadyElse(s, r, l)
  {
    hide Inv, Agree, Steady, ForkStep, FreeTables, UserStore, VerifyStep, NoPage, GetFree, FreePage, Poke;
    hide ForkRange, NoTables, KernelOwn, SameTables, PutPage, PutThrough, Pte;
    var r := Next(s, l).0;
    match l
    case Fork(fd, td, n) => ForkAgrees(s, fd, td, n);
    case Unmap(d, n) => FreedAgrees(s, d, n);
    case Store(d, i, k, w) => OneAgrees(s, l, d, i);
    case Verify(d, i) => OneAgrees(s, l, d, i);
    case Missing(exe, cur, k, i, inFile, users, file) => OneAgrees(s, l, 16 * cur + k, i);
    case Place(f, d, i) => OneAgrees(s, l, d, i);
    case PutUser(d, i, k, w) => OneAgrees(s, l, d, i);
    case Hold => GetFreeStep(s); AgreeTables(s, r);
    case Release(f) => FreeHeldStep(s, f); AgreeTables(s, r);
    case KernelStore(f, k, w) => KernelStoreTables(s, f, k, w); AgreeTables(s, r);
  }

  /** The entries that end the dirtiness of place x: it is unmapped, or write_verify copies it. */
  ghost predicate Cleans(s: State, l: Label, x: (nat, nat))
    requires Shape(s) && Allowed(s, l)
  {
    match l
    case Unmap(d, n) => d <= x.0 < d + n
    case Verify(d, i) => x == (d, i) && Next(s, l).1 && !Pte(s, d, i).rw && Count(s, Pte(s, d, i).frame) != 1
    case _ => false
  }

  /** A page that was stored into stays dirty exactly through the entries that neither unmap nor copy it. */
  lemma StepDirty(s: State, l: Label, x: (nat, nat))
    requires Shape(s) && Inv(s) && Agree(s) && Allowed(s, l) && DirtyAt(s, x)
    ensures DirtyAt(Next(s, l).0, x) <==> !Cleans(s, l, x)
  {
    var r := Next(s, l).0;
    hide Inv, Agree, ForkStep, FreeTables, UserStore, NoPage, GetFree, FreePage, Poke, UnWp;
    hide ForkRange, KernelOwn, SameTables, PutPage, PutThrough, Pte;
    StepAgrees(s, l);
    if !Touches(l, x) {
      assert Steady(s, r, x.0, x.1);
    } else {
      match l
      case Fork(fd, td, n) =>
      case Unmap(d, n) => FreedAgrees(s, d, n);
      case Store(d, i, k, w) =>
        UserStoreStep(s, d, i, k, w);
        if UserStore(s, d, i, k, w).1 { StoreSteady(s, d, i, k, w); }
      case Verify(d, i) => VerifyDirty(s, d, i);
      case PutUser(d, i, k, w) => DirtiedSteady(s, d, i, k, w);
    }
  }

  lemma VerifyDirty(s: State, d: nat, i: nat)
    requires Shape(s) && Inv(s) && DirtyAt(s, (d, i))
    ensures var (r, ok) := VerifyStep(s, d, i);
            DirtyAt(r, (d, i)) <==> !(ok && !Pte(s, d, i).rw && Count(s, Pte(s, d, i).frame) != 1)
  {
    if !Pte(s, d, i).rw {
      if Count(s, Pte(s, d, i).frame) == 1 {
        VerifyReuse(s, d, i);
      } else {
        UnWpStep(s, d, i);
        if UnWp(s, d, i).1 { VerifyCopy(s, d, i); }
      }
    }
  }

  lemma VerifyReuse(s: State, d: nat, i: nat)
    requires Shape(s) && Inv(s) && DirtyAt(s, (d, i)) && Count(s, Pte(s, d, i).frame) == 1
    ensures DirtyAt(UnWp(s, d, i).0, (d, i))
  {
    RelabelStep(s, d, i, Pte(s, d, i).(rw := true));
  }

  lemma VerifyCopy(s: State, d: nat, i: nat)
    requires Shape(s) && Inv(s) && IsPte(s, d, i) && LOW <= Pte(s, d, i).frame && Count(s, Pte(s, d, i).frame) != 1 && UnWp(s, d, i).1
    ensures !DirtyAt(UnWp(s, d, i).0, (d, i)) && IsPte(UnWp(s, d, i).0, d, i)
  {
    hide CowSteps;
    assert GetFree(s).1 != 0;
    GetFreeStep(s);
    UnWpCopy(s, d, i);
    var (s1, n) := GetFree(s);
    hide Inv, UnWp, GetFree;
    CowSpaces(s1, d, i, n, s.phys[Pte(s, d, i).frame]);
  }

  // ---- runs ------------------------------------------------------------------------------------

  ghost predicate NeverCleans(s: State, ls: seq<Label>, x: (nat, nat))
    requires Shape(s) && RunAllowed(s, ls)
    decreases |ls|
  {
    ls == [] || (!Cleans(s, ls[0], x) && NeverCleans(Next(s, ls[0]).0, ls[1..], x))
  }

  lemma {:induction false} RunAgrees(s: State, ls: seq<Label>)
    requires Shape(s) && Inv(s) && Agree(s) && RunAllowed(s, ls)
    ensures Agree(Run(s, ls))
    decreases |ls|
  {
    hide Inv, Agree, Next, Allowed;
    if ls != [] {
      StepRefines(s, ls[0]);
      StepAgrees(s, ls[0]);
      RunAgrees(Next(s, ls[0]).0, ls[1..]);
    }
  }

  lemma {:induction false} RunDirty(s: State, ls: seq<Label>, x: (nat, nat))
    requires Shape(s) && Inv(s) && Agree(s) && RunAllowed(s, ls) && DirtyAt(s, x) && NeverCleans(s, ls, x)
    ensures DirtyAt(Run(s, ls), x)
    decreases |ls|
  {
    hide Inv, Agree, Next, Allowed, Cleans, DirtyAt;
    if ls != [] {
      StepRefines(s, ls[0]);
      StepAgrees(s, ls[0]);
      StepDirty(s, ls[0], x);
      RunDirty(Next(s, ls[0]).0, ls[1..], x);
    }
  }

  lemma StoreDirties(s: State, l: Label)
    requires Shape(s) && Inv(s) && Allowed(s, l) && (l.Store? || l.PutUser?) && Next(s, l).1
    ensures DirtyAt(Next(s, l).0, (l.d, l.i))
  {
    hide Inv, UserStore, PutThrough;
    if l.Store? { StoreSteady(s, l.d, l.i, l.k, l.w); } else { DirtiedSteady(s, l.d, l.i, l.k, l.w); }
  }

  /** What a task or the kernel has stored into a page stays with it: whatever runs after the store, as long as the page
      is neither unmapped nor copied by write_verify, no missing page of another task comes to be its frame. */
  lemma StoredNeverShared(s: State, l: Label, ls: seq<Label>, m: Label)
    requires Shape(s) && Inv(s) && Agree(s) && Allowed(s, l) && (l.Store? || l.PutUser?) && Next(s, l).1
    requires RunAllowed(Next(s, l).0, ls) && NeverCleans(Next(s, l).0, ls, (l.d, l.i))
    requires m.Missing? && Allowed(Run(Next(s, l).0, ls), m)
    ensures var (r, ok) := Next(Run(Next(s, l).0, ls), m); var d := 16 * m.cur + m.k;
            && IsPte(r, l.d, l.i)
            && (ok ==> IsPte(r, d, m.i) && Pte(r, d, m.i).frame != Pte(r, l.d, l.i).frame)
  {
    hide Inv, Agree, Next, Allowed, Run, RunAllowed, NeverCleans, DirtyAt;
    StepRefines(s, l);
    StepAgrees(s, l);
    StoreDirties(s, l);
    var s1 := Next(s, l).0;
    RunRefines(s1, ls);
    RunAgrees(s1, ls);
    RunDirty(s1, ls, (l.d, l.i));
    ApartFromDirty(Run(s1, ls), m, (l.d, l.i));
  }

  lemma ApartFromDirty(s: State, m: Label, x: (nat, nat))
    requires Shape(s) && Inv(s) && Agree(s) && m.Missing? && Allowed(s, m) && DirtyAt(s, x)
    ensures var (r, ok) := Next(s, m); var d := 16 * m.cur + m.k;
            IsPte(r, x.0, x.1) && (ok ==> IsPte(r, d, m.i) && Pte(r, d, m.i).frame != Pte(r, x.0, x.1).frame)
  {
    hide Inv, NoPage, Agree, Pte;
    MissingSteady(s, m.exe, m.cur, m.k, m.i, m.inFile, m.users, m.file);
    StepAgrees(s, m);
    assert Steady(s, Next(s, m).0, x.0, x.1);
    DirtyApart(Next(s, m).0, x, (16 * m.cur + m.k, m.i));
  }

  lemma DirtyApart(s: State, x: (nat, nat), y: (nat, nat))
    requires Shape(s) && Agree(s) && DirtyAt(s, x)
    ensures IsPte(s, y.0, y.1) && !Pte(s, y.0, y.1).dirty ==> Pte(s, y.0, y.1).frame != Pte(s, x.0, x.1).frame
  {
  }

  /** Why the copy must be left out: a page that was stored into and then shared by a fork is clean once write_verify has
      copied it, and the next task with the same executable that misses the page is shown what was stored. */
  lemma CopiedIsTaken(s: State, d: nat, i: nat, cd: nat)
    requires Shape(s) && Inv(s) && DirtyAt(s, (d, i)) && !Pte(s, d, i).rw && Count(s, Pte(s, d, i).frame) != 1
    requires VerifyStep(s, d, i).1
    requires 16 <= cd < WORDS && cd != d && d % 16 == cd % 16 && !IsPte(s, cd, i) && Dir(s, cd).p
    ensures var s1 := VerifyStep(s, d, i).0; var (r, o) := TryToShare(s1, d, cd, i);
            o == Shared && (d, i) in Spaces(s) && (cd, i) in Spaces(r) && Spaces(r)[(cd, i)] == Spaces(s)[(d, i)]
  {
    hide Inv, UnWp, TryToShare, Pte;
    UnWpStep(s, d, i);
    VerifyCopy(s, d, i);
    OwnSteady(s, d, i);
    var s1 := UnWp(s, d, i).0;
    assert Steady(s, s1, cd, i);
    PagePlaced(s1, d, i);
    TryToShareStep(s1, d, cd, i);
    StillTable(s, s1, d, i, cd);
    ManagedView(s, d, i);
  }

  lemma StillTable(s: State, r: State, d: nat, i: nat, cd: nat)
    requires Shape(s) && Shape(r) && IsPte(s, d, i) && MadeOwn(s, r, d, i) && cd < WORDS
    ensures Dir(r, cd) == Dir(s, cd)
  {
  }

  lemma ManagedView(s: State, d: nat, i: nat)
    requires Shape(s) && IsPte(s, d, i) && LOW <= Pte(s, d, i).frame
    ensures (d, i) in Spaces(s) && Spaces(s)[(d, i)].Private?
  {
  }
}
