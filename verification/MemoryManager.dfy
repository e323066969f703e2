/** mm/memory.cc itself: mem_map and physical memory as arrays updated in place.  Each routine is shown
    to compute the function of the same name in MachineOps, MachineFree or MachineFaults; panic() is a
    precondition, which the callers meet. */
module MemoryManager {
  import opened Basics
  import opened Frames
  import opened Machine
  import opened MachineSteps
  import opened MachineOps
  import opened MachineFree
  import opened MachineFaults
  import opened MachineRuns
  import opened MachineDirty

  class Mm {
    const memMap: array<Byte>
    const phys: array<Page>
    const lo: nat
    ghost var held: set<nat>

    ghost predicate Valid()
      reads this, memMap, phys
    {
      && memMap.Length == PAGING_PAGES
      && LOW <= lo <= phys.Length <= LOW + PAGING_PAGES
      && (forall f | 0 <= f < phys.Length :: |phys[f]| == WORDS)
    }

    ghost function Snap(): (s: State)
      reads this, memMap, phys
      requires Valid()
      ensures Shape(s)
    {
      State(memMap[..], phys[..], lo, held)
    }

    /** mem_init: frames startMem..|boot|-1 are free, all others are used; boot is memory as head.s left it. */
    constructor (boot: seq<Page>, startMem: nat)
      requires LOW <= startMem <= |boot| <= LOW + PAGING_PAGES
      requires forall f | 0 <= f < |boot| :: |boot[f]| == WORDS
      ensures Valid() && fresh(memMap) && fresh(phys)
      ensures Snap() == Initial(boot, startMem)
    {
      lo := startMem;
      held := {};
      memMap := new Byte[PAGING_PAGES](_ => USED);
      phys := new Page[|boot|](i requires 0 <= i < |boot| => boot[i]);
      new;
      var i := startMem - LOW;
      while i < |boot| - LOW
        invariant startMem - LOW <= i <= |boot| - LOW
        invariant forall k | 0 <= k < PAGING_PAGES :: memMap[k] == if startMem - LOW <= k < i then 0 else USED
        invariant phys[..] == boot && lo == startMem && held == {}
      {
        memMap[i] := 0;
        i := i + 1;
      }
      assert memMap[..] == Initial(boot, startMem).mm;
    }

    method GetFreePage() returns (f: Pfn)
      requires Valid()
      modifies this`held, memMap, phys
      ensures Valid() && (Snap(), f) == GetFree(old(Snap()))
    {
      var k := PAGING_PAGES;
      while k > 0 && memMap[k - 1] != 0
        invariant 0 <= k <= PAGING_PAGES
        invariant HighestFree(memMap[..], PAGING_PAGES) == HighestFree(memMap[..], k)
      {
        k := k - 1;
      }
      if k == 0 { return 0; }
      k := k - 1;
      memMap[k] := 1;
      if k + LOW < phys.Length { phys[k + LOW] := ZeroPage(); }
      held := held + {k + LOW};
      f := k + LOW;
    }

    method FreeFrame(f: nat)
      requires Valid() && MayFree(Snap(), f)
      modifies this`held, memMap
      ensures Valid() && Snap() == FreePage(old(Snap()), f)
    {
      if f < LOW { return; }
      memMap[f - LOW] := memMap[f - LOW] - 1;
      held := held - {f};
    }

    /** A store of one word of physical memory. */
    method Write(f: nat, i: nat, w: Word)
      requires Valid() && i < WORDS
      modifies phys
      ensures Valid() && Snap() == Poke(old(Snap()), f, i, w)
    {
      if f < phys.Length { phys[f] := phys[f][i := w]; }
    }

    method Read(f: nat, i: nat) returns (w: Word)
      requires Valid() && i < WORDS
      ensures w == At(Snap(), f, i)
    {
      w := if f < phys.Length then phys[f][i] else ZERO;
    }

    method CopyPageTables(fd: nat, td: nat, n: nat, nr: nat) returns (ok: bool)
      requires Valid() && fd + n <= WORDS && td + n <= WORDS && nr <= WORDS && NoTables(Snap(), td, n)
      modifies this`held, memMap, phys
      ensures Valid() && (Snap(), ok) == CopyTables(old(Snap()), fd, td, n, nr)
    {
      hide CopyEntries, GetFree, EnterTable, NoTables, HighestFree;
      ghost var s0 := Snap();
      var j := 0;
      while j < n
        invariant 0 <= j <= n && Valid()
        invariant CopyTables(Snap(), fd + j, td + j, n - j, nr) == CopyTables(s0, fd, td, n, nr)
      {
        var from := Read(0, fd + j);
        if from.p {
          var t := GetFreePage();
          if t == 0 { return false; }
          SetTable(td + j, t);
          CopyTable(fd + j, td + j, nr);
        }
        j := j + 1;
      }
      ok := true;
    }

    /** *dir = page | 7 */
    method SetTable(d: nat, f: Pfn)
      requires Valid() && d < WORDS
      modifies this`held, phys
      ensures Valid() && Snap() == EnterTable(old(Snap()), d, f)
    {
      Write(0, d, Seven(f));
      held := held - {f};
    }

    method CopyTable(fd: nat, td: nat, nr: nat)
      requires Valid() && fd < WORDS && td < WORDS && nr <= WORDS
      modifies memMap, phys
      ensures Valid() && Snap() == CopyEntries(old(Snap()), fd, td, 0, nr)
    {
      ghost var s0 := Snap();
      var i := 0;
      while i < nr
        invariant 0 <= i <= nr && Valid()
        invariant CopyEntries(Snap(), fd, td, i, nr) == CopyEntries(s0, fd, td, 0, nr)
      {
        CopyOneEntry(fd, td, i);
        i := i + 1;
      }
    }

    method CopyOneEntry(fd: nat, td: nat, i: nat)
      requires Valid() && fd < WORDS && td < WORDS && i < WORDS
      modifies memMap, phys
      ensures Valid() && Snap() == CopyEntry(old(Snap()), fd, td, i)
    {
      var dir := Read(0, fd);
      var w := Read(dir.frame, i);
      if w.p {
        w := w.(rw := false);
        var to := Read(0, td);
        Write(to.frame, i, w);
        if w.frame >= LOW {
          dir := Read(0, fd);
          Write(dir.frame, i, w);
          if w.frame - LOW < PAGING_PAGES {
            var c: int := memMap[w.frame - LOW];
            memMap[w.frame - LOW] := (c + 1) % 256;
          }
        }
      }
    }

    method FreePageTables(d: nat, n: nat)
      requires Valid() && Inv(Snap()) && 16 <= d && d + n <= WORDS
      modifies this`held, memMap, phys
      ensures Valid() && Snap() == FreeTables(old(Snap()), d, n)
    {
      hide Inv, FreeSlot;
      ghost var s0 := Snap();
      var j := 0;
      while j < n
        invariant 0 <= j <= n && Valid() && Inv(Snap())
        invariant FreeTables(Snap(), d + j, n - j) == FreeTables(s0, d, n)
      {
        FreeDirectoryEntry(d + j);
        j := j + 1;
      }
    }

    method FreeDirectoryEntry(d: nat)
      requires Valid() && Inv(Snap()) && 16 <= d < WORDS
      modifies this`held, memMap, phys
      ensures Valid() && Inv(Snap()) && Snap() == FreeSlot(old(Snap()), d)
    {
      hide Inv, FreeTable, Kept, Outside, FreesTableSafely;
      FreeSlotStep(Snap(), d);
      var dir := Read(0, d);
      if dir.p {
        FreeTableStep(Snap(), d);
        FreePageTable(d);
      }
    }

    /** The pages of one page table, then the page table itself. */
    method FreePageTable(d: nat)
      requires Valid() && d < WORDS && FreesTableSafely(Snap(), d)
      modifies this`held, memMap, phys
      ensures Valid() && Snap() == FreeTable(old(Snap()), d)
    {
      hide FreesSafely, FreeEntries, MayFree;
      FreePages(d);
      var dir := Read(0, d);
      FreeFrame(dir.frame);
      Write(0, d, ZERO);
    }

    method FreePages(d: nat)
      requires Valid() && d < WORDS && FreesSafely(Snap(), d, 0)
      modifies this`held, memMap, phys
      ensures Valid() && Snap() == FreeEntries(old(Snap()), d, 0)
    {
      hide FreeEntry, MayFree;
      ghost var s0 := Snap();
      var i := 0;
      while i < WORDS
        invariant 0 <= i <= WORDS && Valid() && FreesSafely(Snap(), d, i)
        invariant FreeEntries(Snap(), d, i) == FreeEntries(s0, d, 0)
      {
        FreeOneEntry(d, i);
        i := i + 1;
      }
    }

    method FreeOneEntry(d: nat, i: nat)
      requires Valid() && d < WORDS && i < WORDS
      requires Pte(Snap(), d, i).p ==> MayFree(Snap(), Pte(Snap(), d, i).frame)
      modifies this`held, memMap, phys
      ensures Valid() && Snap() == FreeEntry(old(Snap()), d, i)
    {
      var dir := Read(0, d);
      var w := Read(dir.frame, i);
      if w.p { FreeFrame(w.frame); }
      dir := Read(0, d);
      Write(dir.frame, i, ZERO);
    }

    /** The result is false where the source calls oom. */
    method UnWpPage(d: nat, i: nat) returns (ok: bool)
      requires Valid() && d < WORDS && i < WORDS
      modifies this`held, memMap, phys
      ensures Valid() && (Snap(), ok) == UnWp(old(Snap()), d, i)
    {
      var dir := Read(0, d);
      var w := Read(dir.frame, i);
      var old_page := w.frame;
      if LOW <= old_page < LOW + PAGING_PAGES && memMap[old_page - LOW] == 1 {
        Write(dir.frame, i, w.(rw := true));
        return true;
      }
      var new_page := GetFreePage();
      if new_page == 0 { return false; }
      if LOW <= old_page < LOW + PAGING_PAGES {
        var c: int := memMap[old_page - LOW];
        memMap[old_page - LOW] := (c + 255) % 256;
      }
      dir := Read(0, d);
      Write(dir.frame, i, Seven(new_page));
      held := held - {new_page};
      CopyPage(old_page, new_page);
      ok := true;
    }

    method CopyPage(from: nat, to: nat)
      requires Valid()
      modifies phys
      ensures Valid() && Snap() == if from < |old(Snap()).phys| then Fill(old(Snap()), to, old(Snap()).phys[from]) else old(Snap())
    {
      if from < phys.Length && to < phys.Length { phys[to] := phys[from]; }
    }

    method PutPageAt(f: Pfn, d: nat, i: nat) returns (ok: bool)
      requires Valid() && d < WORDS && i < WORDS
      modifies this`held, memMap, phys
      ensures Valid() && (Snap(), ok) == PutPage(old(Snap()), f, d, i)
    {
      var dir := Read(0, d);
      if !dir.p {
        var t := GetFreePage();
        if t == 0 { return false; }
        SetTable(d, t);
      }
      dir := Read(0, d);
      Write(dir.frame, i, Seven(f));
      held := held - {f};
      ok := true;
    }

    method ShareWith(pd: nat, cd: nat, i: nat) returns (o: Outcome)
      requires Valid() && pd < WORDS && cd < WORDS && i < WORDS
      modifies this`held, memMap, phys
      ensures Valid() && (Snap(), o) == TryToShare(old(Snap()), pd, cd, i)
    {
      var dir := Read(0, pd);
      if !dir.p { return NotShared; }
      var w := Read(dir.frame, i);
      if !w.p || w.dirty { return NotShared; }
      if w.frame >= phys.Length || w.frame < LOW { return NotShared; }
      var to := Read(0, cd);
      if !to.p {
        var t := GetFreePage();
        if t == 0 { return OutOfMemory; }
        SetTable(cd, t);
      }
      EnterSharedPage(pd, cd, i);
      o := Shared;
    }

    method EnterSharedPage(pd: nat, cd: nat, i: nat)
      requires Valid() && pd < WORDS && cd < WORDS && i < WORDS
      modifies memMap, phys
      ensures Valid() && Snap() == EnterShared(old(Snap()), pd, cd, i)
    {
      var dir := Read(0, pd);
      var w := Read(dir.frame, i);
      w := w.(rw := false);
      Write(dir.frame, i, w);
      dir := Read(0, cd);
      Write(dir.frame, i, w);
      if LOW <= w.frame < LOW + PAGING_PAGES {
        var c: int := memMap[w.frame - LOW];
        memMap[w.frame - LOW] := (c + 1) % 256;
      }
    }

    /** share_page, with the test of i_count left to the caller. */
    method FindSharer(exe: seq<nat>, cur: nat, k: nat, i: nat) returns (o: Outcome)
      requires Valid() && |exe| == 64 && cur < 64 && k < 16 && i < WORDS
      modifies this`held, memMap, phys
      ensures Valid() && (Snap(), o) == SharePage(old(Snap()), exe, cur, k, i, 63)
    {
      hide TryToShare;
      ghost var s0 := Snap();
      var p := 63;
      while p > 0
        invariant 0 <= p < 64 && Valid() && SharePage(Snap(), exe, cur, k, i, p) == SharePage(s0, exe, cur, k, i, 63)
      {
        if exe[p] != 0 && p != cur && exe[p] == exe[cur] {
          o := ShareWith(16 * p + k, 16 * cur + k, i);
          if o != NotShared { return; }
        }
        p := p - 1;
      }
      o := NotShared;
    }

    /** A free page, filled and entered at (d, i); given back when there is no page for the table. */
    method SupplyPage(d: nat, i: nat, p: Page) returns (ok: bool)
      requires Valid() && Inv(Snap()) && 16 <= d < WORDS && i < WORDS && |p| == WORDS
      modifies this`held, memMap, phys
      ensures Valid() && (Snap(), ok) == NewPage(old(Snap()), d, i, p)
    {
      ghost var s0 := Snap();
      hide Inv, GetFree, PutPage, MayFree, FreePage;
      var f := GetFreePage();
      if f == 0 { return false; }
      TakenMayFree(s0, f, p, d, i);
      FillFrame(f, p);
      ok := PutPageAt(f, d, i);
      if !ok { FreeFrame(f); }
    }

    method FillFrame(f: nat, p: Page)
      requires Valid() && |p| == WORDS
      modifies phys
      ensures Valid() && Snap() == Fill(old(Snap()), f, p)
    {
      if f < phys.Length { phys[f] := p; }
    }

    /** do_no_page; the result is false where it calls oom. */
    method DoNoPage(exe: seq<nat>, cur: nat, k: nat, i: nat, inFile: bool, users: nat, file: Page) returns (ok: bool)
      requires Valid() && Inv(Snap()) && |exe| == 64 && 0 < cur < 64 && k < 16 && i < WORDS && |file| == WORDS
      requires !IsPte(Snap(), 16 * cur + k, i)
      modifies this`held, memMap, phys
      ensures Valid() && (Snap(), ok) == NoPage(old(Snap()), exe, cur, k, i, inFile, users, file)
    {
      hide Inv, NewPage, SharePage, SharedFrom;
      if exe[cur] == 0 || !inFile {
        ok := SupplyPage(16 * cur + k, i, ZeroPage());
        return;
      }
      if users >= 2 {
        SharePageStep(Snap(), exe, cur, k, i, 63);
        var o := FindSharer(exe, cur, k, i);
        if o == Shared { return true; }
        if o == OutOfMemory { return false; }
      }
      ok := SupplyPage(16 * cur + k, i, file);
    }

    /** write_verify */
    method WriteVerify(d: nat, i: nat) returns (ok: bool)
      requires Valid() && d < WORDS && i < WORDS
      modifies this`held, memMap, phys
      ensures Valid() && (Snap(), ok) == VerifyStep(old(Snap()), d, i)
    {
      var dir := Read(0, d);
      if !dir.p { return true; }
      var w := Read(dir.frame, i);
      if w.p && !w.rw {
        ok := UnWpPage(d, i);
      } else {
        ok := true;
      }
    }

    /** The part of copy_process that takes memory: the page of the task structure and copy_mem; what was taken is
        given back when memory runs out. */
    method ForkMemory(fd: nat, td: nat, n: nat) returns (ok: bool)
      requires Valid() && Inv(Snap()) && ForkRange(fd, td, n, ForkEntries(fd)) && NoTables(Snap(), td, n)
      modifies this`held, memMap, phys
      ensures Valid() && (Snap(), ok) == ForkStep(old(Snap()), fd, td, n)
    {
      hide Inv, GetFree, CopyTables, FreeTables, NoTables, Kept, CopyShown, MayFree, FreePage;
      ghost var s0 := Snap();
      var f := GetFreePage();
      if f == 0 { return false; }
      ForkTaken(s0, td, n);
      ghost var s1 := Snap();
      CopyTablesStep(s1, fd, td, n, ForkEntries(fd));
      CopyThenFree(s1, fd, td, n, ForkEntries(fd));
      ok := CopyPageTables(fd, td, n, ForkEntries(fd));
      if !ok {
        FreePageTables(td, n);
        FreeHeldStep(Snap(), f);
        FreeFrame(f);
      }
    }
  }

  lemma TakenMayFree(s: State, f: Pfn, p: Page, d: nat, i: nat)
    requires Shape(s) && Inv(s) && GetFree(s).1 == f != 0 && |p| == WORDS && 16 <= d < WORDS && i < WORDS
    ensures var (r, ok) := PutPage(Fill(GetFree(s).0, f, p), f, d, i); !ok ==> MayFree(r, f)
  {
    GetFreeStep(s);
  }

  function Initial(boot: seq<Page>, startMem: nat): (s: State)
    requires LOW <= startMem <= |boot| <= LOW + PAGING_PAGES
    ensures |s.mm| == PAGING_PAGES
  {
    State(seq(PAGING_PAGES, k requires 0 <= k < PAGING_PAGES => if startMem <= k + LOW < |boot| then 0 else USED), boot, startMem, {})
  }

  /** Memory as mem_init leaves it is sound: no task, every managed frame free. */
  lemma InitialSound(boot: seq<Page>, startMem: nat)
    requires LOW <= startMem <= |boot| <= LOW + PAGING_PAGES
    requires forall f | 0 <= f < |boot| :: |boot[f]| == WORDS
    requires forall d: nat | 16 <= d < WORDS :: !boot[0][d].p
    requires BootTables(Initial(boot, startMem))
    ensures Inv(Initial(boot, startMem)) && Agree(Initial(boot, startMem))
  {
    var s := Initial(boot, startMem);
    forall u ensures !Live(s, u) {}
    SameGraph(s, map[]);
    forall f: nat ensures UsersOf(map[], f) == {} {}
  }
}
