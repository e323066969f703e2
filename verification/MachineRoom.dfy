/** How much free memory each entry of mm/memory.cc needs: it runs out of memory exactly when fewer frames are free. */
module MachineRoom {
  import opened Basics
  import opened Frames
  import opened Machine
  import opened MachineSteps
  import opened MachineOps
  import opened MachineFree
  import opened MachineFaults
  import opened MachineRuns

  ghost function FreeFrames(s: State): set<int> {
    set k | 0 <= k < |s.mm| && s.mm[k] == 0
  }

  /** get_free_page succeeds exactly when a frame is free, and takes one. */
  lemma GetFreeRoom(s: State)
    requires Shape(s)
    ensures GetFree(s).1 != 0 <==> FreeFrames(s) != {}
    ensures GetFree(s).1 != 0 ==> FreeFrames(GetFree(s).0) == FreeFrames(s) - {GetFree(s).1 - LOW} && |FreeFrames(GetFree(s).0)| == |FreeFrames(s)| - 1
  {
    var k := HighestFree(s.mm, |s.mm|);
    if k >= 0 {
      assert k in FreeFrames(s);
      assert FreeFrames(GetFree(s).0) == FreeFrames(s) - {k};
    }
  }

  lemma SameMm(s: State, r: State)
    requires r.mm == s.mm
    ensures FreeFrames(r) == FreeFrames(s)
  {
  }

  /** A frame in use that comes to be used once more. */
  lemma CountedMore(s: State, f: nat, c: Byte)
    requires Shape(s) && (LOW <= f ==> Count(s, f) != 0 && c != 0)
    ensures FreeFrames(SetCount(s, f, c)) == FreeFrames(s)
  {
  }

  lemma CopyEntryRoom(s: State, fd: nat, td: nat, i: nat)
    requires Shape(s) && Inv(s) && IsTable(s, td) && i < WORDS && !Pte(s, td, i).p && fd != td && fd < WORDS && Dir(s, fd).p
    requires if fd == 0 then i < 160 else IsTable(s, fd) && fd % 16 == td % 16
    ensures FreeFrames(CopyEntry(s, fd, td, i)) == FreeFrames(s)
  {
    var w := Pte(s, fd, i);
    if w.p && LOW <= w.frame {
      assert fd != 0;
      PagePlaced(s, fd, i);
      CountSmall(s, fd, i);
      CountedMore(s, w.frame, (Count(s, w.frame) + 1) % 256);
      SameMm(SetCount(s, w.frame, (Count(s, w.frame) + 1) % 256), CopyEntry(s, fd, td, i));
    }
  }

  lemma CountSmall(s: State, d: nat, i: nat)
    requires Shape(s) && Inv(s) && IsPte(s, d, i) && LOW <= Pte(s, d, i).frame
    ensures Count(s, Pte(s, d, i).frame) <= 63
  {
    PagePlaced(s, d, i);
    var f := Pte(s, d, i).frame;
    CountBound(GraphOf(s), s.lo, |s.phys|, f);
    assert s.mm[f - LOW] as int == |UsersOf(GraphOf(s), f - LOW + LOW)|;
  }

  lemma {:induction false} CopyEntriesRoom(s: State, fd: nat, td: nat, i: nat, nr: nat)
    requires Shape(s) && Inv(s) && IsTable(s, td) && i <= nr <= WORDS && fd != td && fd < WORDS && Dir(s, fd).p
    requires forall j: nat | i <= j < nr :: !Pte(s, td, j).p
    requires if fd == 0 then nr <= 160 else IsTable(s, fd) && fd % 16 == td % 16
    ensures FreeFrames(CopyEntries(s, fd, td, i, nr)) == FreeFrames(s)
    decreases nr - i
  {
    hide Inv, CopyEntry, FreeFrames;
    if i < nr {
      CopyEntryStep(s, fd, td, i);
      CopyEntryRoom(s, fd, td, i);
      CopyEntriesRoom(CopyEntry(s, fd, td, i), fd, td, i + 1, nr);
    }
  }

  /** The page tables among directory entries d..d+n-1. */
  function Tables(s: State, d: nat, n: nat): nat
    requires Shape(s) && d + n <= WORDS
    decreases n
  {
    if n == 0 then 0 else (if Dir(s, d).p then 1 else 0) + Tables(s, d + 1, n - 1)
  }

  lemma {:induction false} TablesSame(s: State, r: State, d: nat, n: nat)
    requires Shape(s) && Shape(r) && d + n <= WORDS && forall e: nat | d <= e < d + n :: Dir(r, e) == Dir(s, e)
    ensures Tables(r, d, n) == Tables(s, d, n)
    decreases n
  {
    if n > 0 { TablesSame(s, r, d + 1, n - 1); }
  }

  lemma CopyTableRoom(s: State, fd: nat, td: nat, nr: nat)
    requires Shape(s) && Inv(s) && ForkRange(fd, td, 1, nr) && Dir(s, fd).p && !Dir(s, td).p && GetFree(s).1 != 0
    ensures |FreeFrames(CopyEntries(EnterTable(GetFree(s).0, td, GetFree(s).1), fd, td, 0, nr))| == |FreeFrames(s)| - 1
  {
    hide Inv, GetFree;
    OpenTable(s, td);
    GetFreeRoom(s);
    var s2 := EnterTable(GetFree(s).0, td, GetFree(s).1);
    SameMm(GetFree(s).0, s2);
    assert Dir(s2, fd) == Dir(s, fd);
    CopyEntriesRoom(s2, fd, td, 0, nr);
  }

  /** copy_page_tables needs a frame for each page table it copies. */
  lemma {:induction false} CopyTablesRoom(s: State, fd: nat, td: nat, n: nat, nr: nat)
    requires Shape(s) && Inv(s) && ForkRange(fd, td, n, nr) && NoTables(s, td, n)
    ensures CopyTables(s, fd, td, n, nr).1 <==> |FreeFrames(s)| >= Tables(s, fd, n)
    decreases n
  {
    hide Inv, GetFree, NoTables, CopyEntries, EnterTable, FreeFrames;
    if n == 0 {
    } else if !Dir(s, fd).p {
      ForkRangeNext(fd, td, n, nr);
      NoTablesNext(s, td, n);
      CopyTablesRoom(s, fd + 1, td + 1, n - 1, nr);
    } else {
      GetFreeRoom(s);
      if GetFree(s).1 != 0 { CopyTablesMore(s, fd, td, n, nr); }
    }
  }

  lemma {:induction false} CopyTablesMore(s: State, fd: nat, td: nat, n: nat, nr: nat)
    requires Shape(s) && Inv(s) && ForkRange(fd, td, n, nr) && NoTables(s, td, n) && n > 0 && Dir(s, fd).p && GetFree(s).1 != 0
    ensures CopyTables(s, fd, td, n, nr).1 <==> |FreeFrames(s)| >= Tables(s, fd, n)
    decreases n, 0
  {
    hide Inv, GetFree, NoTables, CopyEntries, EnterTable, FreeFrames, CopyTables;
    ForkRangeNext(fd, td, n, nr);
    NoTablesNext(s, td, n);
    CopyOneTable(s, fd, td, nr);
    CopyTableRoom(s, fd, td, nr);
    var s1 := CopyEntries(EnterTable(GetFree(s).0, td, GetFree(s).1), fd, td, 0, nr);
    NoTablesKept(s, s1, fd, td, n, nr);
    TablesSame(s, s1, fd + 1, n - 1);
    CopyTablesRoom(s1, fd + 1, td + 1, n - 1, nr);
    CopyUnfold(s, s1, fd, td, n, nr);
  }

  /** fork succeeds exactly when there is a frame for the task structure and one for each page table of the parent. */
  lemma ForkRoom(s: State, fd: nat, td: nat, n: nat)
    requires Shape(s) && Inv(s) && ForkRange(fd, td, n, ForkEntries(fd)) && NoTables(s, td, n)
    ensures ForkStep(s, fd, td, n).1 <==> |FreeFrames(s)| >= 1 + Tables(s, fd, n)
  {
    GetFreeRoom(s);
    if GetFree(s).1 != 0 {
      ForkTaken(s, td, n);
      GetFreeStep(s);
      var s1 := GetFree(s).0;
      hide Inv, GetFree, NoTables, FreeFrames, CopyTables, FreeTables, FreePage;
      TablesSame(s, s1, fd, n);
      CopyTablesRoom(s1, fd, td, n, ForkEntries(fd));
    }
  }

  /** A write fault needs a frame exactly when the page has other users. */
  lemma UnWpRoom(s: State, d: nat, i: nat)
    requires Shape(s) && d < WORDS && i < WORDS
    ensures UnWp(s, d, i).1 <==> (LOW <= Pte(s, d, i).frame && Count(s, Pte(s, d, i).frame) == 1) || FreeFrames(s) != {}
  {
    GetFreeRoom(s);
  }

  /** A new page needs a frame, and one more when its page table is missing. */
  lemma NewPageRoom(s: State, d: nat, i: nat, p: Page)
    requires Shape(s) && Inv(s) && d < WORDS && i < WORDS && |p| == WORDS
    ensures NewPage(s, d, i, p).1 <==> |FreeFrames(s)| >= if Dir(s, d).p then 1 else 2
  {
    GetFreeRoom(s);
    if GetFree(s).1 != 0 {
      FilledFrame(s, p);
      var s2 := Fill(GetFree(s).0, GetFree(s).1, p);
      SameMm(GetFree(s).0, s2);
      GetFreeRoom(s2);
      assert Dir(s2, d) == Dir(s, d);
      hide Inv, GetFree, Fill, EnterPage, EnterTable, FreeFrames;
    }
  }

  /** A missing page: sharing needs a frame only for a missing page table, and every other way needs a new page. */
  lemma NoPageRoom(s: State, exe: seq<nat>, cur: nat, k: nat, i: nat, inFile: bool, users: nat, file: Page)
    requires Shape(s) && Inv(s) && |exe| == 64 && 0 < cur < 64 && k < 16 && i < WORDS && |file| == WORDS
    requires !IsPte(s, 16 * cur + k, i)
    ensures var shares := exe[cur] != 0 && inFile && users >= 2 && exists q: nat :: Offers(s, exe, cur, k, i, q);
            NoPage(s, exe, cur, k, i, inFile, users, file).1 <==>
            |FreeFrames(s)| >= (if shares then 0 else 1) + (if Dir(s, 16 * cur + k).p then 0 else 1)
  {
    var d := 16 * cur + k;
    GetFreeRoom(s);
    hide Inv, NewPage, SharePage, Clean, GetFree, FreeFrames;
    if exe[cur] == 0 || !inFile {
      NewPageRoom(s, d, i, ZeroPage());
    } else if users < 2 {
      NewPageRoom(s, d, i, file);
    } else {
      SharePageStep(s, exe, cur, k, i, 63);
      var o := SharePage(s, exe, cur, k, i, 63).1;
      if o.NotShared? {
        NewPageRoom(s, d, i, file);
      } else {
        SharePageRoom(s, exe, cur, k, i, 63);
      }
    }
  }

  /** share_page runs out of memory only where there is neither a page table nor a free frame. */
  lemma {:induction false} SharePageRoom(s: State, exe: seq<nat>, cur: nat, k: nat, i: nat, p: nat)
    requires Shape(s) && Inv(s) && |exe| == 64 && 0 < cur < 64 && p < 64 && k < 16 && i < WORDS && !IsPte(s, 16 * cur + k, i)
    ensures SharePage(s, exe, cur, k, i, p).1 == Shared ==> Dir(s, 16 * cur + k).p || GetFree(s).1 != 0
    decreases p
  {
    hide Inv, GetFree, Clean;
    if p > 0 {
      if exe[p] == 0 || p == cur || exe[p] != exe[cur] {
        SharePageRoom(s, exe, cur, k, i, p - 1);
      } else {
        Mod16(p, cur, k);
        TryToShareStep(s, 16 * p + k, 16 * cur + k, i);
        if TryToShare(s, 16 * p + k, 16 * cur + k, i).1.NotShared? { SharePageRoom(s, exe, cur, k, i, p - 1); }
      }
    }
  }
}
