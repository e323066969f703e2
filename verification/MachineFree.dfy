/** free_page_tables of mm/memory.cc, and what a fork that runs out of memory leaves behind. */
module MachineFree {
  import opened Frames
  import opened Machine
  import opened MachineSteps
  import opened MachineOps

  /** The loop body of free_page_tables for entry i of the table at d. */
  function FreeEntry(s: State, d: nat, i: nat): (r: State)
    requires Shape(s) && d < WORDS && i < WORDS
    ensures Shape(r)
  {
    var w := Pte(s, d, i);
    SetPte(if w.p then FreePage(s, w.frame) else s, d, i, ZERO)
  }

  function FreeEntries(s: State, d: nat, i: nat): (r: State)
    requires Shape(s) && d < WORDS
    ensures Shape(r)
    decreases WORDS - i
  {
    if i >= WORDS then s else FreeEntries(FreeEntry(s, d, i), d, i + 1)
  }

  /** One directory entry: its pages, then its page table. */
  function FreeTable(s: State, d: nat): (r: State)
    requires Shape(s) && d < WORDS
    ensures Shape(r)
  {
    var s1 := FreeEntries(s, d, 0);
    Poke(FreePage(s1, Dir(s1, d).frame), 0, d, ZERO)
  }

  /** The outer loop body: a directory entry that is not present is skipped. */
  function FreeSlot(s: State, d: nat): (r: State)
    requires Shape(s) && d < WORDS
    ensures Shape(r)
  {
    if Dir(s, d).p then FreeTable(s, d) else s
  }

  /** The outer loop over n directory entries. */
  function FreeTables(s: State, d: nat, n: nat): (r: State)
    requires Shape(s) && d + n <= WORDS
    ensures Shape(r)
    decreases n
  {
    if n == 0 then s else FreeTables(FreeSlot(s, d), d + 1, n - 1)
  }

  // ---- no panic, and what is left ------------------------------------------------------------

  lemma PageNotHeld(s: State, d: nat, i: nat)
    requires Inv(s) && IsPte(s, d, i)
    ensures Pte(s, d, i).frame !in s.held
  {
    var f := Pte(s, d, i).frame;
    if f in s.held { HeldAlone(s, f); }
  }

  /** Entry i of table d is gone; the other entries are as before. */
  ghost predicate Cleared(s: State, r: State, d: nat, i: nat)
    requires Shape(s) && Shape(r) && d < WORDS && i < WORDS
  {
    && Kept(s, r, d, d + 1) && Dir(r, d) == Dir(s, d) && Pte(r, d, i) == ZERO
    && (forall j: nat | j < WORDS && j != i :: Pte(r, d, j) == Pte(s, d, j))
    && Outside(Spaces(s), Spaces(r), d, 1)
  }

  lemma ClearedBy(s: State, r: State, d: nat, i: nat)
    requires Shape(s) && Shape(r) && IsTable(s, d) && i < WORDS && OneEntry(s, r, d, i, ZERO) && r.held == s.held
    requires Spaces(r) == Spaces(s) - {(d, i)}
    ensures Cleared(s, r, d, i)
  {
    forall e: nat, j: nat | !(d <= e < d + 1) ensures SameAt(Spaces(s), Spaces(r), e, j) {
      assert (e, j) != (d, i);
    }
  }

  /** Clearing a present entry: free_page does not panic on its frame. */
  lemma FreePresent(s: State, d: nat, i: nat)
    requires Inv(s) && IsPte(s, d, i)
    ensures MayFree(s, Pte(s, d, i).frame)
    ensures Inv(FreeEntry(s, d, i)) && Cleared(s, FreeEntry(s, d, i), d, i)
  {
    PagePlaced(s, d, i);
    PageNotHeld(s, d, i);
    LeavePageStep(s, d, i);
    assert s.held - {Pte(s, d, i).frame} == s.held;
    assert FreeEntry(s, d, i) == LeavePage(s, d, i);
    ClearedBy(s, LeavePage(s, d, i), d, i);
  }

  lemma FreeAbsent(s: State, d: nat, i: nat)
    requires Inv(s) && IsTable(s, d) && i < WORDS && !Pte(s, d, i).p
    ensures Inv(FreeEntry(s, d, i)) && Cleared(s, FreeEntry(s, d, i), d, i)
  {
    var r := FreeEntry(s, d, i);
    PokePte(s, d, i, ZERO);
    GraphEntry(s, r, d, i, ZERO);
    assert Entry(d, i) !in GraphOf(s);
    assert GraphOf(s) - {Entry(d, i)} == GraphOf(s);
    PteSpaces(s, r, d, i, ZERO);
    ClearedBy(s, r, d, i);
  }

  /** free_page_tables never reaches a panic of free_page inside a table. */
  ghost predicate FreesSafely(s: State, d: nat, i: nat)
    requires Shape(s) && d < WORDS
    decreases WORDS - i
  {
    i >= WORDS || ((Pte(s, d, i).p ==> MayFree(s, Pte(s, d, i).frame)) && FreesSafely(FreeEntry(s, d, i), d, i + 1))
  }

  ghost predicate FreesTableSafely(s: State, d: nat)
    requires Shape(s) && d < WORDS
  {
    var s1 := FreeEntries(s, d, 0);
    FreesSafely(s, d, 0) && MayFree(s1, Dir(s1, d).frame)
  }

  /** r is s with entries of table d cleared and nothing else touched. */
  ghost predicate Emptied(s: State, r: State, d: nat)
    requires Shape(s) && Shape(r) && d < WORDS
  {
    Inv(r) && Kept(s, r, d, d + 1) && Dir(r, d) == Dir(s, d) && Outside(Spaces(s), Spaces(r), d, 1)
  }

  lemma FreeEntryStep(s: State, d: nat, i: nat)
    requires Shape(s) && Inv(s) && IsTable(s, d) && i < WORDS
    ensures var r := FreeEntry(s, d, i);
            && (Pte(s, d, i).p ==> MayFree(s, Pte(s, d, i).frame)) && Emptied(s, r, d) && IsTable(r, d)
            && !Pte(r, d, i).p && forall j: nat | j < i && !Pte(s, d, j).p :: !Pte(r, d, j).p
  {
    hide Inv, FreeEntry, Outside, Kept, MayFree;
    if Pte(s, d, i).p { FreePresent(s, d, i); } else { FreeAbsent(s, d, i); }
  }

  lemma EmptiedTrans(s: State, m: State, r: State, d: nat)
    requires Shape(s) && Shape(m) && Shape(r) && d < WORDS && Emptied(s, m, d) && Emptied(m, r, d)
    ensures Emptied(s, r, d)
  {
    hide Inv, Outside, Kept;
    KeptTrans(s, m, r, d, d + 1);
    OutsideTrans(Spaces(s), Spaces(m), Spaces(r), d, 1);
  }

  lemma EmptiedSelf(s: State, d: nat)
    requires Shape(s) && Inv(s) && d < WORDS
    ensures Emptied(s, s, d)
  {
  }

  lemma {:induction false} FreeEntriesStep(s: State, d: nat, i: nat)
    requires Shape(s) && Inv(s) && IsTable(s, d) && i <= WORDS
    requires forall j: nat | j < i :: !Pte(s, d, j).p
    ensures var r := FreeEntries(s, d, i);
            FreesSafely(s, d, i) && Emptied(s, r, d) && forall j: nat | j < WORDS :: !Pte(r, d, j).p
    decreases WORDS - i
  {
    hide Inv, FreeEntry, Emptied, MayFree;
    if i < WORDS {
      FreeEntryStep(s, d, i);
      var s1 := FreeEntry(s, d, i);
      assert Inv(s1) by { EmptiedInv(s, s1, d); }
      FreeEntriesStep(s1, d, i + 1);
      EmptiedTrans(s, s1, FreeEntries(s1, d, i + 1), d);
    } else {
      EmptiedSelf(s, d);
    }
  }

  lemma EmptiedInv(s: State, r: State, d: nat)
    requires Shape(s) && Shape(r) && d < WORDS && Emptied(s, r, d)
    ensures Inv(r)
  {
  }

  lemma OutsideTrans(a: Space, b: Space, c: Space, d: nat, n: nat)
    requires Outside(a, b, d, n) && Outside(b, c, d, n)
    ensures Outside(a, c, d, n)
  {
    forall e: nat, i: nat | !(d <= e < d + n) ensures SameAt(a, c, e, i) {
      assert SameAt(a, b, e, i) && SameAt(b, c, e, i);
    }
  }

  lemma FreeTableIs(s: State, d: nat)
    requires Shape(s) && Inv(s) && IsTable(s, d) && Inv(FreeEntries(s, d, 0)) && Dir(FreeEntries(s, d, 0), d) == Dir(s, d)
    ensures MayFree(FreeEntries(s, d, 0), Dir(s, d).frame)
    ensures FreeTable(s, d) == LeaveTable(FreeEntries(s, d, 0), d)
  {
    hide Inv, FreeEntries;
    var s1 := FreeEntries(s, d, 0);
    TableAlone(s1, d);
    TableCount(s1, d);
    assert s1.held - {Dir(s1, d).frame} == s1.held;
  }

  lemma FreeTableStep(s: State, d: nat)
    requires Shape(s) && Inv(s) && IsTable(s, d)
    ensures var r := FreeTable(s, d);
            && FreesTableSafely(s, d)
            && Inv(r) && Kept(s, r, d, d + 1) && !Dir(r, d).p && Outside(Spaces(s), Spaces(r), d, 1)
  {
    hide Inv, FreesSafely, MayFree, Outside, FreeEntries, FreeTable, LeaveTable;
    FreeEntriesStep(s, d, 0);
    var s1 := FreeEntries(s, d, 0);
    LeaveTableStep(s1, d);
    FreeTableIs(s, d);
    LeaveTableKept(s1, d);
    KeptTrans(s, s1, LeaveTable(s1, d), d, d + 1);
  }

  lemma LeaveTableKept(s: State, d: nat)
    requires Shape(s) && d < WORDS && NoTable(s, LeaveTable(s, d), d)
    ensures Kept(s, LeaveTable(s, d), d, d + 1)
  {
  }

  /** free_page_tables: exactly the pages of the range disappear, and no panic is reached. */
  lemma {:induction false} FreeTablesStep(s: State, d: nat, n: nat)
    requires Shape(s) && Inv(s) && 16 <= d && d + n <= WORDS
    ensures var r := FreeTables(s, d, n);
            Inv(r) && Kept(s, r, d, d + n) && NoTables(r, d, n) && Outside(Spaces(s), Spaces(r), d, n)
    decreases n
  {
    if n > 0 {
      hide Inv, Outside, FreeSlot, Kept;
      var s1 := FreeSlot(s, d);
      FreeSlotStep(s, d);
      FreeTablesStep(s1, d + 1, n - 1);
      var r := FreeTables(s1, d + 1, n - 1);
      assert r == FreeTables(s, d, n);
      hide FreeTables, NoTables;
      KeptJoin(s, s1, r, d, n);
      OutsideJoin(Spaces(s), Spaces(s1), Spaces(r), d, n);
      NoTablesJoin(s1, r, d, n);
    } else {
      OutsideSame(Spaces(s), d, 0);
    }
  }

  lemma FreeSlotStep(s: State, d: nat)
    requires Shape(s) && Inv(s) && 16 <= d < WORDS
    ensures var r := FreeSlot(s, d);
            Inv(r) && Kept(s, r, d, d + 1) && !Dir(r, d).p && Outside(Spaces(s), Spaces(r), d, 1)
  {
    hide Inv, Outside, FreeTable;
    if Dir(s, d).p { FreeTableStep(s, d); } else { OutsideSame(Spaces(s), d, 1); }
  }

  lemma OutsideSame(a: Space, d: nat, n: nat)
    ensures Outside(a, a, d, n)
  {
  }

  lemma NoTablesJoin(s1: State, r: State, d: nat, n: nat)
    requires Shape(s1) && Shape(r) && n > 0 && d < WORDS && !Dir(s1, d).p
    requires Kept(s1, r, d + 1, d + 1 + (n - 1)) && NoTables(r, d + 1, n - 1)
    ensures NoTables(r, d, n)
  {
    assert Dir(r, d) == Dir(s1, d);
  }

  lemma FreeSpaces(s: State, d: nat, n: nat)
    requires Shape(s) && Inv(s) && 16 <= d && d + n <= WORDS
    ensures Spaces(FreeTables(s, d, n)) == Cut(Spaces(s), d, n)
  {
    FreeTablesStep(s, d, n);
    var r := FreeTables(s, d, n);
    CutIs(Spaces(s), Spaces(r), d, n);
    forall x: (nat, nat) ensures SameAt(Cut(Spaces(r), d, n), Spaces(r), x.0, x.1) {
      assert d <= x.0 < d + n ==> !Dir(r, x.0).p;
    }
    SameMaps(Cut(Spaces(r), d, n), Spaces(r));
  }

  // ---- undoing a fork ------------------------------------------------------------------------

  /** mem_map is determined by who refers to what, whatever the write permissions. */
  lemma SameReferencesSameCounts(s: State, t: State, d: nat, n: nat)
    requires Inv(s) && Inv(t) && Kept(s, t, d, d + n) && NoTables(s, d, n) && NoTables(t, d, n)
    ensures t.mm == s.mm
  {
    var g, h := GraphOf(s), GraphOf(t);
    forall u ensures Live(s, u) <==> Live(t, u) {
      SameLive(s, t, d, n, u);
    }
    forall u | u in g ensures g[u].frame == h[u].frame {
      SameLive(s, t, d, n, u);
    }
    forall k | 0 <= k < PAGING_PAGES ensures s.mm[k] == t.mm[k] {
      assert UsersOf(g, k + LOW) == UsersOf(h, k + LOW);
    }
  }

  lemma SameLive(s: State, t: State, d: nat, n: nat, u: User)
    requires Shape(s) && Shape(t) && Kept(s, t, d, d + n) && NoTables(s, d, n) && NoTables(t, d, n)
    ensures Live(s, u) <==> Live(t, u)
    ensures Live(s, u) ==> RefOf(s, u).frame == RefOf(t, u).frame
  {
    match u
    case Held(f) =>
    case Table(e) =>
      if 16 <= e < WORDS && !(d <= e < d + n) { assert Dir(t, e) == Dir(s, e); }
    case Entry(e, i) =>
      if 16 <= e < WORDS && i < WORDS {
        if d <= e < d + n { assert !Dir(s, e).p && !Dir(t, e).p; } else { assert Dir(t, e) == Dir(s, e); }
      }
  }

  /** fork.cc's copy_mem: copy the tables, and free what was copied when memory ran out.
      After a copy, complete or not, free_page_tables restores every count and every task's memory. */
  lemma CopyThenFree(s: State, fd: nat, td: nat, n: nat, nr: nat)
    requires Shape(s) && Inv(s) && ForkRange(fd, td, n, nr) && NoTables(s, td, n)
    ensures var t := FreeTables(CopyTables(s, fd, td, n, nr).0, td, n);
            Inv(t) && t.mm == s.mm && t.held == s.held && Spaces(t) == Spaces(s)
  {
    var (r, ok) := CopyTables(s, fd, td, n, nr);
    var t := FreeTables(r, td, n);
    CopyTablesStep(s, fd, td, n, nr);
    FreeTablesStep(r, td, n);
    FreeSpaces(r, td, n);
    hide CopyTables, FreeTables, Inv;
    Bounded(s);
    CopiedCut(Spaces(s), Readable(s), Spaces(r), ok, fd, td, n);
    NothingToCut(s, td, n);
    assert Kept(s, t, td, td + n) by { KeptTrans(s, r, t, td, td + n); }
    SameReferencesSameCounts(s, t, td, n);
  }

  lemma CopiedCut(a: Space, src: Space, c: Space, ok: bool, fd: nat, td: nat, n: nat)
    requires a.Keys <= AllPlaces() && 16 <= td && td + n <= WORDS && forall x | x in src :: x.1 < WORDS
    requires if ok then c == Copies(a, src, fd, td, n) else Cut(a, td, n) == Cut(c, td, n)
    ensures Cut(c, td, n) == Cut(a, td, n)
  {
    if ok {
      CopiesShow(a, src, fd, td, n);
      CutIs(a, c, td, n);
    }
  }

  lemma NothingToCut(s: State, d: nat, n: nat)
    requires Shape(s) && NoTables(s, d, n)
    ensures Cut(Spaces(s), d, n) == Spaces(s)
  {
    forall x: (nat, nat) ensures SameAt(Cut(Spaces(s), d, n), Spaces(s), x.0, x.1) {
      assert d <= x.0 < d + n && x.0 < WORDS ==> !Dir(s, x.0).p;
    }
    SameMaps(Cut(Spaces(s), d, n), Spaces(s));
  }
}
