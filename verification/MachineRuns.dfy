/** Whole runs of the memory manager: forks, exits, stores, faults and the kernel's own pages, in any
    order, against tasks whose memories are private from the start. */
module MachineRuns {
  import opened Frames
  import opened Machine
  import opened MachineSteps
  import opened MachineOps
  import opened MachineFree
  import opened MachineFaults
  import opened MachineStores

  /** One kernel entry.  Places are directory entries and entry numbers; w and p are new contents. */
  datatype Label =
    | Fork(fd: nat, td: nat, n: nat)
    | Unmap(d: nat, n: nat)
    | Store(d: nat, i: nat, k: nat, w: Word)
    | Verify(d: nat, i: nat)
    | Missing(exe: seq<nat>, cur: nat, k: nat, i: nat, inFile: bool, users: nat, file: Page)
    | Hold
    | Release(f: nat)
    | KernelStore(f: nat, k: nat, w: Word)
    | Place(f: nat, d: nat, i: nat)               // put_page of a page the kernel holds, as change_ldt does
    | PutUser(d: nat, i: nat, k: nat, w: Word)    // a store of the kernel into a user's page

  function ForkEntries(fd: nat): nat { if fd == 0 then 160 else WORDS }

  /** copy_process: a page for the task structure, then copy_mem; both are undone when memory runs out. */
  function ForkStep(s: State, fd: nat, td: nat, n: nat): (r: (State, bool))
    requires Shape(s) && fd + n <= WORDS && td + n <= WORDS
    ensures Shape(r.0)
  {
    var (s1, f) := GetFree(s);
    if f == 0 then (s1, false)
    else
      var (s2, ok) := CopyTables(s1, fd, td, n, ForkEntries(fd));
      if ok then (s2, true) else (FreePage(FreeTables(s2, td, n), f), false)
  }

  /** write_verify */
  function VerifyStep(s: State, d: nat, i: nat): (r: (State, bool))
    requires Shape(s) && d < WORDS && i < WORDS
    ensures Shape(r.0)
  {
    if !Dir(s, d).p || !Pte(s, d, i).p || Pte(s, d, i).rw then (s, true) else UnWp(s, d, i)
  }

  /** What the callers of each entry guarantee. */
  ghost predicate Allowed(s: State, l: Label)
    requires Shape(s)
  {
    match l
    case Fork(fd, td, n) => ForkRange(fd, td, n, ForkEntries(fd)) && NoTables(s, td, n)
    case Unmap(d, n) => 16 <= d && d + n <= WORDS
    case Store(d, i, k, w) => IsPte(s, d, i) && k < WORDS
    case Verify(d, i) => 16 <= d < WORDS && i < WORDS
    case Missing(exe, cur, k, i, inFile, users, file) =>
      |exe| == 64 && 0 < cur < 64 && k < 16 && i < WORDS && |file| == WORDS && !IsPte(s, 16 * cur + k, i)
    case Hold => true
    case Release(f) => f in s.held
    case KernelStore(f, k, w) => k < WORDS && (f in s.held || KernelOwn(s, f))
    case Place(f, d, i) => f in s.held && f < |s.phys| && 16 <= d < WORDS && i < WORDS && !IsPte(s, d, i)
    case PutUser(d, i, k, w) => IsPte(s, d, i) && LOW <= Pte(s, d, i).frame && k < WORDS && Count(s, Pte(s, d, i).frame) == 1
  }

  /** A frame of low memory that is neither the page directory nor a boot page table. */
  ghost predicate KernelOwn(s: State, f: nat)
    requires Shape(s)
  {
    0 < f < LOW && forall d: nat | d < 16 && Dir(s, d).p :: Dir(s, d).frame != f
  }

  /** The state after an entry, and whether memory sufficed. */
  ghost function Next(s: State, l: Label): (r: (State, bool))
    requires Shape(s) && Allowed(s, l)
    ensures Shape(r.0)
  {
    match l
    case Fork(fd, td, n) => ForkStep(s, fd, td, n)
    case Unmap(d, n) => (FreeTables(s, d, n), true)
    case Store(d, i, k, w) => UserStore(s, d, i, k, w)
    case Verify(d, i) => VerifyStep(s, d, i)
    case Missing(exe, cur, k, i, inFile, users, file) => NoPage(s, exe, cur, k, i, inFile, users, file)
    case Hold => (GetFree(s).0, GetFree(s).1 != 0)
    case Release(f) => (FreePage(s, f), true)
    case KernelStore(f, k, w) => (Poke(s, f, k, w), true)
    case Place(f, d, i) => PutPage(s, f, d, i)
    case PutUser(d, i, k, w) => (PutThrough(s, d, i, k, w), true)
  }

  /** The same entry on private memories: fork copies, a store changes the storing task's page. */
  ghost predicate PrivateStep(s: State, l: Label, a: Space, b: Space)
    requires Shape(s) && Allowed(s, l)
  {
    match l
    case Fork(fd, td, n) => b == Copies(a, a + BootSpace(s), fd, td, n)
    case Unmap(d, n) => b == Cut(a, d, n)
    case Store(d, i, k, w) =>
      (d, i) in a && var p := Contents(a[(d, i)], s.phys[..LOW]); |p| == WORDS && b == a[(d, i) := Private(p[k := w])]
    case Verify(d, i) =>
      b == if (d, i) in a && !Pte(s, d, i).rw then a[(d, i) := Private(Contents(a[(d, i)], s.phys[..LOW]))] else a
    case Missing(exe, cur, k, i, inFile, users, file) =>
      exists v :: Supplied(s, exe, cur, k, i, inFile, users, file, v) && b == a[(16 * cur + k, i) := v]
    case Hold => b == a
    case Release(f) => b == a
    case KernelStore(f, k, w) => b == a
    case Place(f, d, i) => b == a[(d, i) := Private(s.phys[f])]
    case PutUser(d, i, k, w) =>
      (d, i) in a && var p := Contents(a[(d, i)], s.phys[..LOW]); |p| == WORDS && b == a[(d, i) := Private(p[k := w])]
  }

  lemma ForkStepGood(s: State, fd: nat, td: nat, n: nat)
    requires Shape(s) && Inv(s) && ForkRange(fd, td, n, ForkEntries(fd)) && NoTables(s, td, n)
    ensures var (r, ok) := ForkStep(s, fd, td, n);
            && Inv(r)
            && if ok then Spaces(r) == Copies(Spaces(s), Readable(s), fd, td, n)
               else Spaces(r) == Spaces(s) && r.mm == s.mm && r.held == s.held
  {
    if GetFree(s).1 == 0 {
      GetFreeStep(s);
    } else {
      ForkTaken(s, td, n);
      var (s1, f) := GetFree(s);
      hide Inv, CopyTables, FreeTables, GetFree, NoTables, ForkRange, Kept, SetCount;
      CopyTablesStep(s1, fd, td, n, ForkEntries(fd));
      CopyThenFree(s1, fd, td, n, ForkEntries(fd));
      var (s2, ok) := CopyTables(s1, fd, td, n, ForkEntries(fd));
      if !ok {
        FreeHeldStep(FreeTables(s2, td, n), f);
        GiveBack(s1, FreeTables(s2, td, n), f);
      }
    }
  }

  lemma GiveBack(s1: State, t: State, f: nat)
    requires Shape(s1) && Shape(t) && t.mm == s1.mm && t.held == s1.held && LOW <= f && Count(s1, f) == 1
    ensures FreePage(t, f).mm == SetCount(s1, f, 0).mm && FreePage(t, f).held == s1.held - {f}
  {
  }

  lemma ForkTaken(s: State, td: nat, n: nat)
    requires Shape(s) && Inv(s) && NoTables(s, td, n) && GetFree(s).1 != 0
    ensures var (s1, f) := GetFree(s);
            && Inv(s1) && f in s1.held && NoTables(s1, td, n) && Spaces(s1) == Spaces(s) && Readable(s1) == Readable(s)
            && s1.held - {f} == s.held && LOW <= f < LOW + PAGING_PAGES && SetCount(s1, f, 0).mm == s.mm && Count(s1, f) == 1
  {
    hide Inv;
    GetFreeStep(s);
    SameBootSpace(s, GetFree(s).0);
    var (s1, f) := GetFree(s);
    assert s.mm[f - LOW := 1][f - LOW := 0] == s.mm;
  }

  lemma VerifyStepGood(s: State, d: nat, i: nat)
    requires Shape(s) && Inv(s) && 16 <= d < WORDS && i < WORDS
    ensures var (r, ok) := VerifyStep(s, d, i);
            && Inv(r) && (!ok ==> r == s)
            && (ok ==> PrivateStep(s, Verify(d, i), Spaces(s), Spaces(r)))
  {
    if IsPte(s, d, i) && !Pte(s, d, i).rw { UnWpStep(s, d, i); }
  }

  lemma KernelStoreGood(s: State, f: nat, k: nat, w: Word)
    requires Shape(s) && Inv(s) && k < WORDS && (f in s.held || KernelOwn(s, f))
    ensures Inv(Poke(s, f, k, w)) && Spaces(Poke(s, f, k, w)) == Spaces(s)
  {
    if f in s.held {
      HeldAlone(s, f);
      FillHeld(s, f, s.phys[f][k := w]);
    } else {
      var r := Poke(s, f, k, w);
      forall d: nat | IsTable(s, d) ensures LOW <= Dir(s, d).frame { TableAlone(s, d); }
      assert SameTables(s, r);
      GraphSame(s, r);
      SpacesSame(s, r);
    }
  }

  lemma StoreGood(s: State, l: Label)
    requires Shape(s) && Inv(s) && Allowed(s, l) && l.Store?
    ensures var (r, ok) := Next(s, l);
            Inv(r) && if ok then PrivateStep(s, l, Spaces(s), Spaces(r)) else Spaces(r) == Spaces(s)
  {
    hide Inv, UserStore, Contents;
    UserStoreStep(s, l.d, l.i, l.k, l.w);
  }

  lemma PutUserGood(s: State, l: Label)
    requires Shape(s) && Inv(s) && Allowed(s, l) && l.PutUser?
    ensures Inv(Next(s, l).0) && PrivateStep(s, l, Spaces(s), Spaces(Next(s, l).0))
  {
    hide Inv, PutThrough;
    PutPrivate(s, l.d, l.i, l.k, l.w);
    assert (l.d, l.i) in Spaces(s);
  }

  lemma MissingGood(s: State, l: Label)
    requires Shape(s) && Inv(s) && Allowed(s, l) && l.Missing?
    ensures var (r, ok) := Next(s, l);
            Inv(r) && if ok then PrivateStep(s, l, Spaces(s), Spaces(r)) else Spaces(r) == Spaces(s)
  {
    hide Inv, NoPage, Supplied;
    NoPageStep(s, l.exe, l.cur, l.k, l.i, l.inFile, l.users, l.file);
  }

  /** Every kernel entry keeps the invariant, and is the corresponding step on private memories; when
      memory runs out no task's memory has changed. */
  lemma StepRefines(s: State, l: Label)
    requires Shape(s) && Inv(s) && Allowed(s, l)
    ensures var (r, ok) := Next(s, l);
            Inv(r) && if ok then PrivateStep(s, l, Spaces(s), Spaces(r)) else Spaces(r) == Spaces(s)
  {
    hide Inv, ForkStep, FreeTables, UserStore, VerifyStep, NoPage, GetFree, FreePage, Poke;
    hide ForkRange, NoTables, KernelOwn, Supplied, Kept, SameTables, Contents, PutPage, PutThrough;
    match l
    case Fork(fd, td, n) => ForkStepGood(s, fd, td, n);
    case Unmap(d, n) =>
      FreeTablesStep(s, d, n);
      FreeSpaces(s, d, n);
    case Store(d, i, k, w) => StoreGood(s, l);
    case Verify(d, i) => VerifyStepGood(s, d, i);
    case Missing(exe, cur, k, i, inFile, users, file) => MissingGood(s, l);
    case Hold => GetFreeStep(s);
    case Release(f) => FreeHeldStep(s, f);
    case KernelStore(f, k, w) => KernelStoreGood(s, f, k, w);
    case Place(f, d, i) => PutPageStep(s, f, d, i);
    case PutUser(d, i, k, w) => PutUserGood(s, l);
  }

  // ---- runs ----------------------------------------------------------------------------------

  ghost predicate RunAllowed(s: State, ls: seq<Label>)
    requires Shape(s)
    decreases |ls|
  {
    ls == [] || (Allowed(s, ls[0]) && RunAllowed(Next(s, ls[0]).0, ls[1..]))
  }

  ghost function Run(s: State, ls: seq<Label>): (r: State)
    requires Shape(s) && RunAllowed(s, ls)
    ensures Shape(r)
    decreases |ls|
  {
    if ls == [] then s else Run(Next(s, ls[0]).0, ls[1..])
  }

  /** Every step of the run is a step on private memories, or failed for lack of memory and changed none. */
  ghost predicate RunPrivate(s: State, ls: seq<Label>)
    requires Shape(s) && RunAllowed(s, ls)
    decreases |ls|
  {
    ls == [] ||
    var (r, ok) := Next(s, ls[0]);
    (if ok then PrivateStep(s, ls[0], Spaces(s), Spaces(r)) else Spaces(r) == Spaces(s)) && RunPrivate(r, ls[1..])
  }

  /** Copy-on-write memory behaves as private memory over every run, and keeps mem_map exact. */
  lemma {:induction false} RunRefines(s: State, ls: seq<Label>)
    requires Shape(s) && Inv(s) && RunAllowed(s, ls)
    ensures Inv(Run(s, ls)) && RunPrivate(s, ls)
    decreases |ls|
  {
    if ls != [] {
      StepRefines(s, ls[0]);
      RunRefines(Next(s, ls[0]).0, ls[1..]);
    }
  }

  /** The places an entry may change for the task it runs for. */
  predicate Touches(l: Label, x: (nat, nat)) {
    match l
    case Fork(fd, td, n) => td <= x.0 < td + n
    case Unmap(d, n) => d <= x.0 < d + n
    case Store(d, i, k, w) => x == (d, i)
    case Verify(d, i) => x == (d, i)
    case Missing(exe, cur, k, i, inFile, users, file) => x == (16 * cur + k, i)
    case Place(f, d, i) => x == (d, i)
    case PutUser(d, i, k, w) => x == (d, i)
    case _ => false
  }

  /** Isolation: what a task sees at a place no entry of the run touches never changes, whatever other
      tasks share its frames and store to them. */
  lemma {:induction false} RunIsolates(s: State, ls: seq<Label>, x: (nat, nat))
    requires Shape(s) && Inv(s) && RunAllowed(s, ls)
    requires forall l | l in ls :: !Touches(l, x)
    ensures SameAt(Spaces(s), Spaces(Run(s, ls)), x.0, x.1)
    decreases |ls|
  {
    if ls != [] {
      var (r, ok) := Next(s, ls[0]);
      StepRefines(s, ls[0]);
      StepIsolates(s, ls[0], r, ok, x);
      RunIsolates(r, ls[1..], x);
    }
  }

  lemma StepIsolates(s: State, l: Label, r: State, ok: bool, x: (nat, nat))
    requires Shape(s) && Inv(s) && Shape(r) && Allowed(s, l) && !Touches(l, x)
    requires if ok then PrivateStep(s, l, Spaces(s), Spaces(r)) else Spaces(r) == Spaces(s)
    ensures SameAt(Spaces(s), Spaces(r), x.0, x.1)
  {
    if ok && l.Fork? {
      Bounded(s);
      CopiesShow(Spaces(s), Readable(s), l.fd, l.td, l.n);
    }
  }

  /** write_verify has made sure of a page and the task sleeps before the kernel stores into it.  Whatever other tasks
      do meanwhile, the page is there and shows what it showed; the store is the task's own exactly when the page has
      not come to be shared, which its count tells, and an entry still writable is enough. */
  lemma VerifiedStore(s: State, d: nat, i: nat, ls: seq<Label>, k: nat, w: Word)
    requires Shape(s) && Inv(s) && IsPte(s, d, i) && VerifyStep(s, d, i).1 && k < WORDS
    requires RunAllowed(VerifyStep(s, d, i).0, ls) && forall l | l in ls :: !Touches(l, (d, i))
    ensures var s1 := VerifyStep(s, d, i).0; var r := Run(s1, ls);
            && Inv(r) && IsPte(s1, d, i) && IsPte(r, d, i) && LOW <= Pte(r, d, i).frame < |r.phys|
            && Spaces(r)[(d, i)] == Spaces(s1)[(d, i)] == Private(r.phys[Pte(r, d, i).frame])
            && |r.phys[Pte(r, d, i).frame]| == WORDS
            && (Spaces(PutThrough(r, d, i, k, w)) == Spaces(r)[(d, i) := Private(r.phys[Pte(r, d, i).frame][k := w])]
                <==> Count(r, Pte(r, d, i).frame) == 1 || r.phys[Pte(r, d, i).frame][k] == w)
            && (Pte(r, d, i).rw ==> Count(r, Pte(r, d, i).frame) == 1)
  {
    hide Inv, PutThrough, Run, RunAllowed, Touches;
    Verified(s, d, i);
    var s1 := VerifyStep(s, d, i).0;
    hide VerifyStep;
    RunRefines(s1, ls);
    RunIsolates(s1, ls, (d, i));
    var r := Run(s1, ls);
    assert (d, i) in Spaces(s1) && SameAt(Spaces(s1), Spaces(r), d, i);
    assert (d, i) in Spaces(r);
    PutPrivate(r, d, i, k, w);
  }

  /** After write_verify the page is the task's own. */
  lemma Verified(s: State, d: nat, i: nat)
    requires Shape(s) && Inv(s) && IsPte(s, d, i) && VerifyStep(s, d, i).1
    ensures var r := VerifyStep(s, d, i).0; Inv(r) && IsPte(r, d, i) && Pte(r, d, i).rw && LOW <= Pte(r, d, i).frame
  {
    VerifyStepGood(s, d, i);
    if !Pte(s, d, i).rw { UnWpStep(s, d, i); }
    PagePlaced(VerifyStep(s, d, i).0, d, i);
  }
}
