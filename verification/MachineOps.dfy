/** The routines of mm/memory.cc as functions on the machine, each with the assignments in the
    order the source makes them, and what each does to the memory tasks see. */
module MachineOps {
  import opened Basics
  import opened Frames
  import opened Machine
  import opened MachineSteps

  // ---- get_free_page, free_page ----------------------------------------------------------------

  /** The highest index below n whose count is 0, or -1: the backward scasb of get_free_page. */
  function HighestFree(mm: seq<Byte>, n: nat): (k: int)
    requires n <= |mm|
    ensures -1 <= k < n && (k >= 0 ==> mm[k] == 0) && forall j | k < j < n :: mm[j] != 0
  {
    if n == 0 then -1 else if mm[n - 1] == 0 then n - 1 else HighestFree(mm, n - 1)
  }

  /** get_free_page: the new state and the frame, or 0 when there is none. */
  function GetFree(s: State): (r: (State, Pfn))
    requires Shape(s)
    ensures Shape(r.0)
  {
    var k := HighestFree(s.mm, |s.mm|);
    if k < 0 then (s, 0) else (Take(s, k + LOW), k + LOW)
  }

  lemma GetFreeStep(s: State)
    requires Inv(s)
    ensures var (r, f) := GetFree(s);
            && (f == 0 <==> forall k | 0 <= k < |s.mm| :: s.mm[k] != 0)
            && (f == 0 ==> r == s)
            && (f != 0 ==> LOW <= f < |s.phys| && Count(s, f) == 0 && f !in s.held && f in r.held && r.phys[f] == ZeroPage() && r == Take(s, f))
            && Inv(r) && SameTables(s, r) && Spaces(r) == Spaces(s)
  {
    var k := HighestFree(s.mm, |s.mm|);
    if k >= 0 { TakeStep(s, k + LOW); }
  }

  /** free_page on a frame below HIGH_MEMORY. */
  function FreePage(s: State, f: nat): (r: State)
    requires Shape(s)
    ensures Shape(r)
  {
    if f < LOW then s else SetCount(s, f, (Count(s, f) + 255) % 256).(held := s.held - {f})
  }

  /** The two panics of free_page. */
  predicate MayFree(s: State, f: nat)
    requires Shape(s)
  {
    f < LOW || (f < |s.phys| && Count(s, f) != 0)
  }

  lemma FreeHeldStep(s: State, f: nat)
    requires Inv(s) && f in s.held
    ensures MayFree(s, f)
    ensures Inv(FreePage(s, f)) && SameTables(s, FreePage(s, f)) && Spaces(FreePage(s, f)) == Spaces(s)
  {
    DropStep(s, f);
    assert FreePage(s, f) == Drop(s, f);
  }

  // ---- copy_page_tables ------------------------------------------------------------------------

  /** The loop body of copy_page_tables for entry i of the tables at fd and td. */
  function CopyEntry(s: State, fd: nat, td: nat, i: nat): (r: State)
    requires Shape(s) && fd < WORDS && td < WORDS && i < WORDS
    ensures Shape(r)
  {
    var w := Pte(s, fd, i);
    if !w.p then s else
      var v := w.(rw := false);
      var s1 := SetPte(s, td, i, v);
      if v.frame < LOW then s1 else
        var s2 := SetPte(s1, fd, i, v);
        SetCount(s2, v.frame, (Count(s2, v.frame) + 1) % 256)
  }

  lemma CopyEntryOrder(s: State, fd: nat, td: nat, i: nat)
    requires Inv(s) && IsPte(s, fd, i) && LOW <= Pte(s, fd, i).frame && IsTable(s, td) && fd != td
    ensures var v := Pte(s, fd, i).(rw := false);
            CopyEntry(s, fd, td, i) == EnterReader(SetPte(s, fd, i, v), td, i, v)
  {
    TableAlone(s, fd);
    TableAlone(s, td);
    var v := Pte(s, fd, i).(rw := false);
    PokePte(s, fd, i, v);
    PokePte(s, td, i, v);
    var a, b := Dir(s, fd).frame, Dir(s, td).frame;
    var p, q := s.phys[a][i := v], s.phys[b][i := v];
    assert s.phys[a := p][b := q] == s.phys[b := q][a := p];
  }

  /** The same page, and dirty or clean as before. */
  predicate SamePage(v: Word, w: Word) { w.p == v.p && w.frame == v.frame && w.dirty == v.dirty }

  /** The tables outside directory entries lo..hi-1 are as before, except that a present entry may
      have lost its write permission; what is held is as before. */
  ghost predicate Kept(s: State, r: State, lo: nat, hi: nat)
    requires Shape(s) && Shape(r)
  {
    && r.lo == s.lo && |r.phys| == |s.phys| && r.held == s.held && SameBoot(s, r)
    && (forall d: nat | d < WORDS && !(lo <= d < hi) :: Dir(r, d) == Dir(s, d))
    && (forall d: nat, i: nat | IsTable(s, d) && i < WORDS && !(lo <= d < hi) ::
          SamePage(Pte(s, d, i), Pte(r, d, i)))
  }

  /** What the boot mapping shows: the low 640 kB, present in task 0's first page table. */
  ghost function BootSpace(s: State): (a: Space)
    requires Shape(s)
    ensures forall x :: x in a <==> x.0 == 0 && x.1 < 160 && Dir(s, 0).p && Pte(s, 0, x.1).p
    ensures forall x | x in a :: x.1 < WORDS && a[x] == LowPage(Pte(s, 0, x.1).frame)
  {
    var ks := set i: nat | i < 160 :: (0, i);
    map x: (nat, nat) | x in ks && Dir(s, 0).p && Pte(s, 0, x.1).p :: LowPage(Pte(s, 0, x.1).frame)
  }

  /** The pages copy_page_tables can copy from. */
  ghost function Readable(s: State): (a: Space)
    requires Shape(s)
  {
    Spaces(s) + BootSpace(s)
  }

  /** What one turn of the loop does: the target place shows what the source place shows. */
  ghost predicate Copied(s: State, r: State, fd: nat, td: nat, i: nat)
    requires Shape(s) && Shape(r) && td < WORDS && i < WORDS
  {
    && Kept(s, r, td, td + 1) && Dir(r, td) == Dir(s, td)
    && (forall j: nat | j < WORDS && j != i :: Pte(r, td, j) == Pte(s, td, j))
    && (fd < WORDS && Pte(s, fd, i).p ==> SamePage(Pte(s, fd, i), Pte(r, td, i)))
    && Spaces(r) == if (fd, i) in Readable(s) then Spaces(s)[(td, i) := Readable(s)[(fd, i)]] else Spaces(s)
  }

  lemma CopyReader(s: State, fd: nat, td: nat, i: nat, v: Word)
    requires Inv(s) && IsTable(s, td) && i < WORDS && !Pte(s, td, i).p && fd != td
    requires fd < WORDS && Dir(s, fd).p && Pte(s, fd, i).p
    requires if fd == 0 then i < 160 else IsTable(s, fd) && fd % 16 == td % 16
    requires v == Pte(s, fd, i).(rw := false)
    requires fd == 0 || v.frame < LOW || Pte(s, fd, i) == v
    ensures Inv(EnterReader(s, td, i, v)) && Copied(s, EnterReader(s, td, i, v), fd, td, i)
  {
    EnterReaderStep(s, td, i, v, fd);
    assert (fd, i) in Readable(s);
  }

  /** Write-protecting an entry changes neither what is shown nor what is named. */
  lemma Protect(s: State, fd: nat, i: nat)
    requires Inv(s) && IsPte(s, fd, i)
    ensures var v := Pte(s, fd, i).(rw := false); var r := SetPte(s, fd, i, v);
            && Inv(r) && Spaces(r) == Spaces(s) && Kept(s, r, 0, 0) && Pte(r, fd, i) == v
            && BootSpace(r) == BootSpace(s)
            && (forall d: nat, j: nat | IsTable(s, d) && j < WORDS && d != fd :: Pte(r, d, j) == Pte(s, d, j))
  {
    RelabelStep(s, fd, i, Pte(s, fd, i).(rw := false));
    SameBootSpace(s, SetPte(s, fd, i, Pte(s, fd, i).(rw := false)));
  }

  lemma SameBootSpace(s: State, r: State)
    requires Shape(s) && Shape(r) && SameBoot(s, r)
    ensures BootSpace(r) == BootSpace(s)
  {
    assert BootSpace(r).Keys == BootSpace(s).Keys by {
      forall x ensures x in BootSpace(r) <==> x in BootSpace(s) {}
    }
  }

  lemma CopyShared(s: State, fd: nat, td: nat, i: nat)
    requires Inv(s) && IsTable(s, td) && i < WORDS && !Pte(s, td, i).p && fd != td
    requires IsPte(s, fd, i) && fd % 16 == td % 16 && LOW <= Pte(s, fd, i).frame
    ensures Inv(CopyEntry(s, fd, td, i)) && Copied(s, CopyEntry(s, fd, td, i), fd, td, i)
  {
    var v := Pte(s, fd, i).(rw := false);
    Protect(s, fd, i);
    var s1 := SetPte(s, fd, i, v);
    CopyReader(s1, fd, td, i, v);
    CopyEntryOrder(s, fd, td, i);
    CopiedTrans(s, s1, EnterReader(s1, td, i, v), fd, td, i);
  }

  lemma CopiedTrans(s: State, s1: State, r: State, fd: nat, td: nat, i: nat)
    requires Shape(s) && Shape(s1) && Shape(r) && td < WORDS && i < WORDS && IsTable(s, fd)
    requires Kept(s, s1, 0, 0) && Spaces(s1) == Spaces(s) && BootSpace(s1) == BootSpace(s)
    requires forall j: nat | j < WORDS :: Pte(s1, td, j) == Pte(s, td, j)
    requires Copied(s1, r, fd, td, i)
    ensures Copied(s, r, fd, td, i)
  {
  }

  lemma CopyEntryStep(s: State, fd: nat, td: nat, i: nat)
    requires Inv(s) && IsTable(s, td) && i < WORDS && !Pte(s, td, i).p && fd != td
    requires fd < WORDS && Dir(s, fd).p
    requires if fd == 0 then i < 160 else IsTable(s, fd) && fd % 16 == td % 16
    ensures Inv(CopyEntry(s, fd, td, i)) && Copied(s, CopyEntry(s, fd, td, i), fd, td, i)
  {
    var w := Pte(s, fd, i);
    if w.p {
      if fd == 0 || w.frame < LOW {
        assert w.frame < LOW;
        CopyReader(s, fd, td, i, w.(rw := false));
        assert CopyEntry(s, fd, td, i) == EnterReader(s, td, i, w.(rw := false));
      } else {
        CopyShared(s, fd, td, i);
      }
    }
  }

  /** The inner loop, from entry i on. */
  function CopyEntries(s: State, fd: nat, td: nat, i: nat, nr: nat): (r: State)
    requires Shape(s) && fd < WORDS && td < WORDS && nr <= WORDS
    ensures Shape(r)
    decreases nr - i
  {
    if i >= nr then s else CopyEntries(CopyEntry(s, fd, td, i), fd, td, i + 1, nr)
  }

  /** Copies of the pages in entries i..nr-1 of directory entry fd, placed at directory entry td. */
  ghost function Row(src: Space, fd: nat, td: nat, i: nat, nr: nat): (a: Space)
    ensures forall x :: x in a <==> x in AllPlaces() && x.0 == td && i <= x.1 < nr && (fd, x.1) in src
    ensures forall x | x in a :: a[x] == src[(fd, x.1)]
  {
    map x | x in AllPlaces() && x.0 == td && i <= x.1 < nr && (fd, x.1) in src :: src[(fd, x.1)]
  }

  lemma RowStep(a: Space, src: Space, src': Space, fd: nat, td: nat, i: nat, nr: nat)
    requires 16 <= td < WORDS && i < nr <= WORDS
    requires forall j: nat | i < j :: (fd, j) in src <==> (fd, j) in src'
    requires forall j: nat | i < j && (fd, j) in src :: src[(fd, j)] == src'[(fd, j)]
    ensures (if (fd, i) in src then a[(td, i) := src[(fd, i)]] else a) + Row(src', fd, td, i + 1, nr)
         == a + Row(src, fd, td, i, nr)
  {
    var b := (if (fd, i) in src then a[(td, i) := src[(fd, i)]] else a) + Row(src', fd, td, i + 1, nr);
    var c := a + Row(src, fd, td, i, nr);
    hide AllPlaces;
    assert (td, i) in AllPlaces() by { PlaceOfEntry(td, i); }
    forall x ensures x in b <==> x in c {}
    forall x | x in b ensures b[x] == c[x] {}
  }

  lemma PlaceOfEntry(d: nat, i: nat)
    requires 16 <= d < WORDS && i < WORDS
    ensures (d, i) in AllPlaces()
  {
  }

  lemma KeptTrans(s: State, s1: State, r: State, lo: nat, hi: nat)
    requires Shape(s) && Shape(s1) && Shape(r) && Kept(s, s1, lo, hi) && Kept(s1, r, lo, hi)
    ensures Kept(s, r, lo, hi)
  {
  }

  lemma CopiedReadable(s: State, s1: State, fd: nat, td: nat, i: nat)
    requires Shape(s) && Shape(s1) && td < WORDS && i < WORDS && fd != td && Copied(s, s1, fd, td, i)
    ensures forall j: nat :: (fd, j) in Readable(s) <==> (fd, j) in Readable(s1)
    ensures forall j: nat | (fd, j) in Readable(s) :: Readable(s)[(fd, j)] == Readable(s1)[(fd, j)]
  {
    SameBootSpace(s, s1);
  }

  lemma RowCopied(s: State, s1: State, fd: nat, td: nat, i: nat, nr: nat)
    requires Shape(s) && Shape(s1) && 16 <= td < WORDS && i < nr <= WORDS && fd != td && Copied(s, s1, fd, td, i)
    ensures Spaces(s1) + Row(Readable(s1), fd, td, i + 1, nr) == Spaces(s) + Row(Readable(s), fd, td, i, nr)
  {
    CopiedReadable(s, s1, fd, td, i);
    RowStep(Spaces(s), Readable(s), Readable(s1), fd, td, i, nr);
  }

  lemma {:induction false} CopyEntriesStep(s: State, fd: nat, td: nat, i: nat, nr: nat)
    requires Inv(s) && IsTable(s, td) && i <= nr <= WORDS && fd != td && fd < WORDS && Dir(s, fd).p
    requires forall j: nat | i <= j < nr :: !Pte(s, td, j).p
    requires if fd == 0 then nr <= 160 else IsTable(s, fd) && fd % 16 == td % 16
    ensures var r := CopyEntries(s, fd, td, i, nr);
            && Inv(r) && Kept(s, r, td, td + 1) && Dir(r, td) == Dir(s, td)
            && Spaces(r) == Spaces(s) + Row(Readable(s), fd, td, i, nr)
    decreases nr - i
  {
    if i == nr {
      assert Spaces(s) + Row(Readable(s), fd, td, i, nr) == Spaces(s);
    } else {
      CopyEntryStep(s, fd, td, i);
      var s1 := CopyEntry(s, fd, td, i);
      CopyEntriesStep(s1, fd, td, i + 1, nr);
      var r := CopyEntries(s1, fd, td, i + 1, nr);
      KeptTrans(s, s1, r, td, td + 1);
      RowCopied(s, s1, fd, td, i, nr);
    }
  }

  /** The outer loop: n directory entries from fd to td.  The result is 0 (true) or -1, out of memory. */
  function CopyTables(s: State, fd: nat, td: nat, n: nat, nr: nat): (r: (State, bool))
    requires Shape(s) && fd + n <= WORDS && td + n <= WORDS && nr <= WORDS
    ensures Shape(r.0)
    decreases n
  {
    if n == 0 then (s, true)
    else if !Dir(s, fd).p then CopyTables(s, fd + 1, td + 1, n - 1, nr)
    else
      var (s1, f) := GetFree(s);
      if f == 0 then (s1, false)
      else CopyTables(CopyEntries(EnterTable(s1, td, f), fd, td, 0, nr), fd + 1, td + 1, n - 1, nr)
  }

  /** b shows at (d, i) what src shows at the corresponding place of fd's range. */
  predicate ShownAt(src: Space, b: Space, fd: nat, td: nat, d: nat, i: nat)
    requires td <= d
  {
    ((d, i) in b <==> (d - td + fd, i) in src) && ((d, i) in b ==> b[(d, i)] == src[(d - td + fd, i)])
  }

  /** b is a, except that directory entries td..td+n-1 show what src shows at fd..fd+n-1. */
  ghost predicate Shows(a: Space, src: Space, b: Space, fd: nat, td: nat, n: nat) {
    && (forall d: nat, i: nat | td <= d < td + n :: ShownAt(src, b, fd, td, d, i))
    && Outside(a, b, td, n)
  }

  predicate SameAt(a: Space, b: Space, d: nat, i: nat) {
    ((d, i) in b <==> (d, i) in a) && ((d, i) in b ==> b[(d, i)] == a[(d, i)])
  }

  /** a and b agree outside directory entries td..td+n-1. */
  ghost predicate Outside(a: Space, b: Space, td: nat, n: nat) {
    forall d: nat, i: nat | !(td <= d < td + n) :: SameAt(a, b, d, i)
  }

  /** a, except that directory entries td..td+n-1 show what src shows at fd..fd+n-1. */
  ghost function Copies(a: Space, src: Space, fd: nat, td: nat, n: nat): Space {
    map x | x in AllPlaces() && (if td <= x.0 < td + n then (x.0 - td + fd, x.1) in src else x in a)
      :: if td <= x.0 < td + n then src[(x.0 - td + fd, x.1)] else a[x]
  }

  /** A space without directory entries d..d+n-1. */
  ghost function Cut(a: Space, d: nat, n: nat): Space {
    map x | x in a && !(d <= x.0 < d + n) :: a[x]
  }

  lemma CopiesShow(a: Space, src: Space, fd: nat, td: nat, n: nat)
    requires a.Keys <= AllPlaces() && 16 <= td && td + n <= WORDS && forall x | x in src :: x.1 < WORDS
    ensures Shows(a, src, Copies(a, src, fd, td, n), fd, td, n)
  {
    var b := Copies(a, src, fd, td, n);
    forall d: nat, i: nat | td <= d < td + n ensures ShownAt(src, b, fd, td, d, i) {
      assert (d, i) in AllPlaces() <==> i < WORDS;
    }
    forall d: nat, i: nat | !(td <= d < td + n) ensures SameAt(a, b, d, i) {
      assert (d, i) in a ==> (d, i) in AllPlaces();
    }
  }

  /** Shows determines the space. */
  lemma ShowsIs(a: Space, src: Space, b: Space, fd: nat, td: nat, n: nat)
    requires a.Keys <= AllPlaces() && 16 <= td && td + n <= WORDS && forall x | x in src :: x.1 < WORDS
    requires Shows(a, src, b, fd, td, n)
    ensures b == Copies(a, src, fd, td, n)
  {
    CopiesShow(a, src, fd, td, n);
    var c := Copies(a, src, fd, td, n);
    forall x: (nat, nat) ensures SameAt(b, c, x.0, x.1) {
      var (d, i) := x;
      if td <= d < td + n {
        assert ShownAt(src, b, fd, td, d, i) && ShownAt(src, c, fd, td, d, i);
      } else {
        assert SameAt(a, b, d, i) && SameAt(a, c, d, i);
      }
    }
    SameMaps(b, c);
  }

  lemma SameMaps(b: Space, c: Space)
    requires forall x: (nat, nat) :: SameAt(b, c, x.0, x.1)
    ensures b == c
  {
    forall x: (nat, nat) ensures (x in b <==> x in c) && (x in b ==> b[x] == c[x]) {
      assert SameAt(b, c, x.0, x.1) && x == (x.0, x.1);
    }
    assert b.Keys == c.Keys;
  }

  lemma CutIs(a: Space, b: Space, td: nat, n: nat)
    ensures Outside(a, b, td, n) <==> Cut(a, td, n) == Cut(b, td, n)
  {
    var c, e := Cut(a, td, n), Cut(b, td, n);
    if Outside(a, b, td, n) {
      forall x: (nat, nat) ensures SameAt(c, e, x.0, x.1) {
        if !(td <= x.0 < td + n) { assert SameAt(a, b, x.0, x.1); }
      }
      SameMaps(c, e);
    } else {
      var d: nat, i: nat :| !(td <= d < td + n) && !SameAt(a, b, d, i);
      assert !SameAt(c, e, d, i);
    }
  }

  lemma Bounded(s: State)
    requires Shape(s)
    ensures Spaces(s).Keys <= AllPlaces() && forall x | x in Readable(s) :: x.1 < WORDS
  {
    forall x | x in Spaces(s) ensures x in AllPlaces() { assert x == (x.0, x.1); }
  }

  /** fork's arguments: whole tasks, at the same place of both; task 0 has 640 kB, the others up to 64 MB. */
  ghost predicate ForkRange(fd: nat, td: nat, n: nat, nr: nat) {
    && 16 <= td && td + n <= WORDS && fd + n <= WORDS && (td - fd) % 16 == 0
    && (td + n <= fd || fd + n <= td)
    && nr <= WORDS && (n > 0 ==> if fd == 0 then n == 1 && nr == 160 else 16 <= fd && nr == WORDS)
  }

  lemma ForkRangeNext(fd: nat, td: nat, n: nat, nr: nat)
    requires ForkRange(fd, td, n, nr) && n > 0
    ensures ForkRange(fd + 1, td + 1, n - 1, nr) && ForkRange(fd, td, 1, nr)
  {
  }

  lemma NewTableKept(s: State, s1: State, s2: State, td: nat, f: Pfn)
    requires Inv(s) && Inv(s1) && SameTables(s, s1) && Shape(s2) && NewTable(s1, s2, td, f) && td < WORDS
    requires s2.held == s.held
    ensures Kept(s, s2, td, td + 1)
  {
  }

  /** A free frame becomes the empty page table of directory entry td. */
  lemma OpenTable(s: State, td: nat)
    requires Inv(s) && 16 <= td < WORDS && !Dir(s, td).p && GetFree(s).1 != 0
    ensures var s1 := GetFree(s).0; var s2 := EnterTable(s1, td, GetFree(s).1);
            && Inv(s2) && Spaces(s2) == Spaces(s) && Readable(s2) == Readable(s) && Kept(s, s2, td, td + 1)
            && IsTable(s2, td) && forall j: nat | j < WORDS :: !Pte(s2, td, j).p
  {
    GetFreeStep(s);
    var (s1, f) := GetFree(s);
    EnterTableStep(s1, td, f);
    var s2 := EnterTable(s1, td, f);
    assert s2.held == s.held;
    NewTableKept(s, s1, s2, td, f);
    SameBootSpace(s, s2);
  }

  ghost predicate CopiedOne(s: State, r: State, fd: nat, td: nat, nr: nat)
    requires Shape(s) && Shape(r)
  {
    Kept(s, r, td, td + 1) && Spaces(r) == Spaces(s) + Row(Readable(s), fd, td, 0, nr)
  }

  lemma CopyOneTable(s: State, fd: nat, td: nat, nr: nat)
    requires Inv(s) && ForkRange(fd, td, 1, nr) && Dir(s, fd).p && !Dir(s, td).p && GetFree(s).1 != 0
    ensures var r := CopyEntries(EnterTable(GetFree(s).0, td, GetFree(s).1), fd, td, 0, nr);
            Inv(r) && CopiedOne(s, r, fd, td, nr)
  {
    OpenTable(s, td);
    var s2 := EnterTable(GetFree(s).0, td, GetFree(s).1);
    assert Dir(s2, fd) == Dir(s, fd);
    CopyEntriesStep(s2, fd, td, 0, nr);
    KeptTrans(s, s2, CopyEntries(s2, fd, td, 0, nr), td, td + 1);
  }

  /** Copying one page table. */
  lemma RowShows(s: State, r: State, fd: nat, td: nat, nr: nat)
    requires Shape(s) && Shape(r) && 16 <= td < WORDS && !Dir(s, td).p && (fd != 0 ==> 16 <= fd && nr == WORDS) && (fd == 0 ==> nr == 160)
    requires Spaces(r) == Spaces(s) + Row(Readable(s), fd, td, 0, nr)
    ensures Shows(Spaces(s), Readable(s), Spaces(r), fd, td, 1)
  {
    forall d: nat, i: nat | td <= d < td + 1
      ensures ShownAt(Readable(s), Spaces(r), fd, td, d, i)
    {
      assert (td, i) !in Spaces(s);
      assert (td - td + fd, i) == (fd, i);
      assert (fd, i) in Readable(s) ==> i < nr && (td, i) in AllPlaces();
    }
    RowElsewhere(Spaces(s), Readable(s), Spaces(r), fd, td, nr);
  }

  lemma RowElsewhere(a: Space, src: Space, b: Space, fd: nat, td: nat, nr: nat)
    requires b == a + Row(src, fd, td, 0, nr)
    ensures forall d: nat, i: nat | !(td <= d < td + 1) :: SameAt(a, b, d, i)
  {
  }

  lemma ReadableShown(s: State, r: State, fd: nat, td: nat)
    requires Shape(s) && Shape(r) && 16 <= td && Kept(s, r, td, td + 1) && Shows(Spaces(s), Readable(s), Spaces(r), fd, td, 1)
    ensures forall d: nat, i: nat | d != td :: SameAt(Readable(s), Readable(r), d, i)
  {
    SameBootSpace(s, r);
    forall d: nat, i: nat | d != td ensures SameAt(Readable(s), Readable(r), d, i) {
      assert !(td <= d < td + 1);
      assert SameAt(Spaces(s), Spaces(r), d, i);
    }
  }

  lemma ShowsJoin(a: Space, src: Space, b: Space, src1: Space, c: Space, fd: nat, td: nat, n: nat)
    requires n > 0 && (td + n <= fd || fd + n <= td)
    requires Shows(a, src, b, fd, td, 1)
    requires forall d: nat, i: nat | d != td :: SameAt(src, src1, d, i)
    requires Shows(b, src1, c, fd + 1, td + 1, n - 1)
    ensures Shows(a, src, c, fd, td, n)
  {
    forall d: nat, i: nat | td <= d < td + n
      ensures ShownAt(src, c, fd, td, d, i)
    {
      if d == td {
        assert ShownAt(src, b, fd, td, d, i);
        assert !(td + 1 <= d < td + 1 + (n - 1));
        assert SameAt(b, c, d, i);
      } else {
        assert ShownAt(src1, c, fd + 1, td + 1, d, i);
        assert SameAt(src, src1, d - td + fd, i);
      }
    }
    forall d: nat, i: nat | !(td <= d < td + n) ensures SameAt(a, c, d, i) {
      assert !(td <= d < td + 1) && !(td + 1 <= d < td + 1 + (n - 1));
      assert SameAt(a, b, d, i) && SameAt(b, c, d, i);
    }
  }

  lemma KeptJoin(s: State, s1: State, r: State, td: nat, n: nat)
    requires Shape(s) && Shape(s1) && Shape(r) && n > 0
    requires Kept(s, s1, td, td + 1) && Kept(s1, r, td + 1, td + 1 + (n - 1))
    ensures Kept(s, r, td, td + n)
  {
  }

  ghost predicate NoTables(s: State, d: nat, n: nat)
    requires Shape(s)
  {
    forall e: nat | d <= e < d + n && e < WORDS :: !Dir(s, e).p
  }

  /** What copy_page_tables does to the spaces: on success every page of the source is shown at the
      target, and nothing else changed; when memory runs out nothing outside the target changed. */
  ghost predicate CopyShown(s: State, r: State, ok: bool, fd: nat, td: nat, n: nat)
    requires Shape(s) && Shape(r)
  {
    if ok then Spaces(r) == Copies(Spaces(s), Readable(s), fd, td, n)
    else Cut(Spaces(s), td, n) == Cut(Spaces(r), td, n)
  }

  ghost predicate CopyGood(s: State, fd: nat, td: nat, n: nat, nr: nat)
    requires Shape(s) && fd + n <= WORDS && td + n <= WORDS && nr <= WORDS
  {
    var (r, ok) := CopyTables(s, fd, td, n, nr);
    Inv(r) && Kept(s, r, td, td + n) && CopyShown(s, r, ok, fd, td, n)
  }

  lemma {:induction false} CopyTablesStep(s: State, fd: nat, td: nat, n: nat, nr: nat)
    requires Shape(s) && Inv(s) && ForkRange(fd, td, n, nr) && NoTables(s, td, n)
    ensures CopyGood(s, fd, td, n, nr)
    decreases n, 1
  {
    hide CopyGood, Inv, CopyTables, GetFree, NoTables;
    if n == 0 || (Dir(s, fd).p && GetFree(s).1 == 0) {
      CopyGoodNil(s, fd, td, n, nr);
    } else if Dir(s, fd).p {
      CopyTablesTail(s, fd, td, n, nr);
    } else {
      ForkRangeNext(fd, td, n, nr);
      NoTablesNext(s, td, n);
      CopyTablesStep(s, fd + 1, td + 1, n - 1, nr);
      CopyGoodSkip(s, fd, td, n, nr);
    }
  }

  lemma {:induction false} CopyTablesTail(s: State, fd: nat, td: nat, n: nat, nr: nat)
    requires Shape(s) && Inv(s) && ForkRange(fd, td, n, nr) && NoTables(s, td, n)
    requires n > 0 && Dir(s, fd).p && GetFree(s).1 != 0
    ensures CopyGood(s, fd, td, n, nr)
    decreases n, 0
  {
    hide CopyGood, CopiedOne, NoTables, Inv, CopyTables, CopyEntries, GetFree, EnterTable;
    ForkRangeNext(fd, td, n, nr);
    NoTablesNext(s, td, n);
    CopyOneTable(s, fd, td, nr);
    var s1 := CopyEntries(EnterTable(GetFree(s).0, td, GetFree(s).1), fd, td, 0, nr);
    NoTablesKept(s, s1, fd, td, n, nr);
    CopyTablesStep(s1, fd + 1, td + 1, n - 1, nr);
    CopyUnfold(s, s1, fd, td, n, nr);
    CopyGoodCons(s, s1, fd, td, n, nr);
  }

  lemma CopyGoodNil(s: State, fd: nat, td: nat, n: nat, nr: nat)
    requires Inv(s) && ForkRange(fd, td, n, nr) && NoTables(s, td, n)
    requires n == 0 || (Dir(s, fd).p && GetFree(s).1 == 0)
    ensures CopyGood(s, fd, td, n, nr)
  {
    if n == 0 {
      Bounded(s);
      assert Shows(Spaces(s), Readable(s), Spaces(s), fd, td, 0);
      ShowsIs(Spaces(s), Readable(s), Spaces(s), fd, td, 0);
    } else {
      GetFreeStep(s);
    }
  }

  lemma NoTablesNext(s: State, td: nat, n: nat)
    requires Shape(s) && n > 0 && td < WORDS && NoTables(s, td, n)
    ensures NoTables(s, td + 1, n - 1) && !Dir(s, td).p
  {
  }

  lemma CopyGoodSkip(s: State, fd: nat, td: nat, n: nat, nr: nat)
    requires Inv(s) && ForkRange(fd, td, n, nr) && NoTables(s, td, n) && n > 0 && !Dir(s, fd).p
    requires CopyGood(s, fd + 1, td + 1, n - 1, nr)
    ensures CopyGood(s, fd, td, n, nr)
  {
    var (r, ok) := CopyTables(s, fd + 1, td + 1, n - 1, nr);
    CopyTablesSkip(s, r, ok, fd, td, n, nr);
  }

  lemma CopyUnfold(s: State, s1: State, fd: nat, td: nat, n: nat, nr: nat)
    requires Shape(s) && fd + n <= WORDS && td + n <= WORDS && nr <= WORDS && n > 0
    requires Dir(s, fd).p && GetFree(s).1 != 0
    requires s1 == CopyEntries(EnterTable(GetFree(s).0, td, GetFree(s).1), fd, td, 0, nr)
    ensures CopyTables(s, fd, td, n, nr) == CopyTables(s1, fd + 1, td + 1, n - 1, nr)
  {
  }

  lemma CopyGoodCons(s: State, s1: State, fd: nat, td: nat, n: nat, nr: nat)
    requires Shape(s) && Inv(s) && Shape(s1) && Inv(s1) && ForkRange(fd, td, n, nr) && NoTables(s, td, n) && n > 0
    requires CopiedOne(s, s1, fd, td, nr)
    requires CopyGood(s1, fd + 1, td + 1, n - 1, nr)
    requires CopyTables(s, fd, td, n, nr) == CopyTables(s1, fd + 1, td + 1, n - 1, nr)
    ensures CopyGood(s, fd, td, n, nr)
  {
    CopyTablesCons(s, s1, CopyTables(s1, fd + 1, td + 1, n - 1, nr).0, CopyTables(s1, fd + 1, td + 1, n - 1, nr).1, fd, td, n, nr);
  }

  lemma NoRow(s: State, d: nat)
    requires Shape(s) && d < WORDS && !Dir(s, d).p
    ensures forall i: nat :: (d, i) !in Spaces(s) && (d, i) !in Readable(s)
  {
    forall i: nat ensures (d, i) !in Spaces(s) && (d, i) !in Readable(s) {
      assert (d, i) !in Spaces(s) && (d, i) !in BootSpace(s);
    }
  }

  lemma NoTablesKept(s: State, s1: State, fd: nat, td: nat, n: nat, nr: nat)
    requires Shape(s) && Shape(s1) && n > 0 && NoTables(s, td, n) && CopiedOne(s, s1, fd, td, nr)
    ensures NoTables(s1, td + 1, n - 1)
  {
    forall e: nat | td + 1 <= e < td + 1 + (n - 1) && e < WORDS ensures !Dir(s1, e).p {
      assert Dir(s1, e) == Dir(s, e);
    }
  }

  lemma CopyTablesSkip(s: State, r: State, ok: bool, fd: nat, td: nat, n: nat, nr: nat)
    requires Inv(s) && Shape(r) && ForkRange(fd, td, n, nr) && NoTables(s, td, n) && n > 0 && !Dir(s, fd).p
    requires Kept(s, r, td + 1, td + 1 + (n - 1)) && CopyShown(s, r, ok, fd + 1, td + 1, n - 1)
    ensures Kept(s, r, td, td + n) && CopyShown(s, r, ok, fd, td, n)
  {
    Bounded(s);
    NoRow(s, td);
    NoRow(s, fd);
    SpacesSkip(Spaces(s), Readable(s), Spaces(r), ok, fd, td, n);
  }

  lemma SpacesSkip(a: Space, src: Space, c: Space, ok: bool, fd: nat, td: nat, n: nat)
    requires a.Keys <= AllPlaces() && 16 <= td && td + n <= WORDS && n > 0 && forall x | x in src :: x.1 < WORDS
    requires forall i: nat :: (td, i) !in a && (fd, i) !in src
    requires if ok then c == Copies(a, src, fd + 1, td + 1, n - 1) else Cut(a, td + 1, n - 1) == Cut(c, td + 1, n - 1)
    ensures if ok then c == Copies(a, src, fd, td, n) else Cut(a, td, n) == Cut(c, td, n)
  {
    hide Copies, Cut;
    if ok {
      CopiesShow(a, src, fd + 1, td + 1, n - 1);
      hide Shows;
      ShowsSkip(a, src, c, fd, td, n);
      ShowsIs(a, src, c, fd, td, n);
    } else {
      CutIs(a, c, td + 1, n - 1);
      OutsideSkip(a, c, td, n);
      CutIs(a, c, td, n);
    }
  }

  lemma ShowsSkip(a: Space, src: Space, b: Space, fd: nat, td: nat, n: nat)
    requires n > 0 && forall i: nat :: (td, i) !in a && (fd, i) !in src
    requires Shows(a, src, b, fd + 1, td + 1, n - 1)
    ensures Shows(a, src, b, fd, td, n)
  {
    forall d: nat, i: nat | td <= d < td + n
      ensures ShownAt(src, b, fd, td, d, i)
    {
      if d == td {
        assert !(td + 1 <= d < td + 1 + (n - 1));
        assert SameAt(a, b, d, i);
        assert (d - td + fd, i) == (fd, i);
      } else {
        assert ShownAt(src, b, fd + 1, td + 1, d, i);
      }
    }
    OutsideSkip(a, b, td, n);
  }

  lemma OutsideSkip(a: Space, b: Space, td: nat, n: nat)
    requires n > 0 && Outside(a, b, td + 1, n - 1)
    ensures Outside(a, b, td, n)
  {
  }

  lemma CopyTablesCons(s: State, s1: State, r: State, ok: bool, fd: nat, td: nat, n: nat, nr: nat)
    requires Inv(s) && Inv(s1) && Shape(r) && ForkRange(fd, td, n, nr) && NoTables(s, td, n) && n > 0
    requires CopiedOne(s, s1, fd, td, nr)
    requires Kept(s1, r, td + 1, td + 1 + (n - 1)) && CopyShown(s1, r, ok, fd + 1, td + 1, n - 1)
    ensures Kept(s, r, td, td + n) && CopyShown(s, r, ok, fd, td, n)
  {
    KeptJoin(s, s1, r, td, n);
    RowShows(s, s1, fd, td, nr);
    Bounded(s);
    Bounded(s1);
    ReadableShown(s, s1, fd, td);
    SpacesJoin(Spaces(s), Readable(s), Spaces(s1), Readable(s1), Spaces(r), ok, fd, td, n);
  }

  lemma SpacesJoin(a: Space, src: Space, b: Space, src1: Space, c: Space, ok: bool, fd: nat, td: nat, n: nat)
    requires n > 0 && 16 <= td && td + n <= WORDS && (td + n <= fd || fd + n <= td)
    requires a.Keys <= AllPlaces() && b.Keys <= AllPlaces()
    requires (forall x | x in src :: x.1 < WORDS) && (forall x | x in src1 :: x.1 < WORDS)
    requires Shows(a, src, b, fd, td, 1)
    requires forall d: nat, i: nat | d != td :: SameAt(src, src1, d, i)
    requires if ok then c == Copies(b, src1, fd + 1, td + 1, n - 1) else Cut(b, td + 1, n - 1) == Cut(c, td + 1, n - 1)
    ensures if ok then c == Copies(a, src, fd, td, n) else Cut(a, td, n) == Cut(c, td, n)
  {
    hide Copies, Cut, SameAt;
    if ok {
      CopiesShow(b, src1, fd + 1, td + 1, n - 1);
      hide Shows;
      ShowsJoin(a, src, b, src1, c, fd, td, n);
      ShowsIs(a, src, c, fd, td, n);
    } else {
      CutIs(b, c, td + 1, n - 1);
      OutsideJoin(a, b, c, td, n);
      CutIs(a, c, td, n);
    }
  }

  lemma OutsideJoin(a: Space, b: Space, c: Space, td: nat, n: nat)
    requires n > 0 && Outside(a, b, td, 1) && Outside(b, c, td + 1, n - 1)
    ensures Outside(a, c, td, n)
  {
    forall d: nat, i: nat | !(td <= d < td + n) ensures SameAt(a, c, d, i) {
      assert !(td <= d < td + 1) && !(td + 1 <= d < td + 1 + (n - 1));
      assert SameAt(a, b, d, i) && SameAt(b, c, d, i);
    }
  }
}
