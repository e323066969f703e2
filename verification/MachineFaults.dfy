/** The page-fault side of mm/memory.cc: write faults, missing pages, sharing; and a task's stores. */
module MachineFaults {
  import opened Frames
  import opened Machine
  import opened MachineSteps
  import opened MachineOps

  // ---- un_wp_page ------------------------------------------------------------------------------

  /** un_wp_page on entry (d, i); false stands for oom, which does not return. */
  function UnWp(s: State, d: nat, i: nat): (r: (State, bool))
    requires Shape(s) && d < WORDS && i < WORDS
    ensures Shape(r.0)
  {
    var w := Pte(s, d, i);
    if LOW <= w.frame && Count(s, w.frame) == 1 then (SetPte(s, d, i, w.(rw := true)), true)
    else
      var (s1, n) := GetFree(s);
      if n == 0 then (s1, false)
      else
        var s2 := if LOW <= w.frame then SetCount(s1, w.frame, (Count(s1, w.frame) + 255) % 256) else s1;
        var s3 := SetPte(s2, d, i, Seven(n)).(held := s2.held - {n});
        (if w.frame < |s3.phys| then Fill(s3, n, s3.phys[w.frame]) else s3, true)
  }

  /** The same change put together from elementary ones. */
  function CowSteps(s1: State, d: nat, i: nat, n: Pfn, p: Page): (r: State)
    requires Shape(s1) && d < WORDS && i < WORDS && |p| == WORDS
    ensures Shape(r)
  {
    EnterPage(LeavePage(Fill(s1, n, p), d, i), d, i, n)
  }

  lemma SwapUpdates<T>(q: seq<T>, a: nat, b: nat, x: T, y: T)
    requires a < |q| && b < |q| && a != b
    ensures q[a := x][b := y] == q[b := y][a := x]
  {
  }

  lemma CowOrder(s1: State, d: nat, i: nat, n: Pfn, f: nat)
    requires Inv(s1) && IsPte(s1, d, i) && n in s1.held && Pte(s1, d, i).frame == f && f < |s1.phys|
    ensures var s2 := if LOW <= f then SetCount(s1, f, (Count(s1, f) + 255) % 256) else s1;
            var s3 := SetPte(s2, d, i, Seven(n)).(held := s2.held - {n});
            Fill(s3, n, s3.phys[f]) == CowSteps(s1, d, i, n, s1.phys[f])
  {
    HeldAlone(s1, n);
    TableAlone(s1, d);
    PagePlaced(s1, d, i);
    var t := Dir(s1, d).frame;
    var p := s1.phys[f];
    var q := s1.phys[t];
    SwapUpdates(s1.phys, n, t, p, q[i := Seven(n)]);
    assert q[i := ZERO][i := Seven(n)] == q[i := Seven(n)];
    assert s1.phys[n := p][t := q[i := ZERO]][t := q[i := Seven(n)]] == s1.phys[n := p][t := q[i := Seven(n)]];
  }

  /** The contents a task reads through a view; low memory is the kernel's. */
  function Contents(v: View, low: seq<Page>): Page {
    match v
    case Private(p) => p
    case LowPage(f) => if f < |low| then low[f] else ZeroPage()
  }

  lemma OneEntryTrans(s: State, s1: State, r: State, d: nat, i: nat, v: Word, w: Word)
    requires Shape(s) && Shape(s1) && Shape(r) && IsTable(s, d)
    requires OneEntry(s, s1, d, i, v) && OneEntry(s1, r, d, i, w)
    ensures OneEntry(s, r, d, i, w)
  {
  }

  lemma CowLeave(s1: State, d: nat, i: nat, n: Pfn, p: Page)
    requires Shape(s1) && Inv(s1) && IsPte(s1, d, i) && n in s1.held && |p| == WORDS
    ensures var r := LeavePage(Fill(s1, n, p), d, i);
            && Inv(r) && Spaces(r) == Spaces(s1) - {(d, i)} && OneEntry(s1, r, d, i, ZERO)
            && r.held == s1.held && n < |r.phys| && r.phys[n] == p
  {
    FillHeld(s1, n, p);
    var s2 := Fill(s1, n, p);
    LeavePageStep(s2, d, i);
    var r := LeavePage(s2, d, i);
    assert r.phys[n] == p by { HeldAlone(s1, n); }
    assert OneEntry(s1, r, d, i, ZERO) by { hide Inv, LeavePage, Fill; }
  }

  lemma CowSpaces(s1: State, d: nat, i: nat, n: Pfn, p: Page)
    requires Shape(s1) && Inv(s1) && IsPte(s1, d, i) && n in s1.held && |p| == WORDS
    ensures var r := CowSteps(s1, d, i, n, p);
            && Inv(r) && Spaces(r) == Spaces(s1)[(d, i) := Private(p)]
            && OneEntry(s1, r, d, i, Seven(n)) && r.held == s1.held - {n}
  {
    CowLeave(s1, d, i, n, p);
    var s3 := LeavePage(Fill(s1, n, p), d, i);
    hide Inv, LeavePage, Fill;
    EnterPageStep(s3, d, i, n);
    OneEntryTrans(s1, s3, EnterPage(s3, d, i, n), d, i, ZERO, Seven(n));
    PutBack(Spaces(s1), (d, i), Private(p));
  }

  lemma PutBack(a: Space, x: (nat, nat), v: View)
    ensures (a - {x})[x := v] == a[x := v]
  {
  }

  /** Page (d, i) became the task's own and writable, with the contents it showed; nothing else changed. */
  ghost predicate MadeOwn(s: State, r: State, d: nat, i: nat)
    requires Shape(s) && Shape(r) && IsPte(s, d, i)
  {
    && IsPte(r, d, i) && Pte(r, d, i).rw && OneEntry(s, r, d, i, Pte(r, d, i)) && r.held == s.held
    && Spaces(r) == Spaces(s)[(d, i) := Private(Contents(Spaces(s)[(d, i)], s.phys[..LOW]))]
  }

  /** A write fault ends with the page the task's own; if memory runs out nothing has changed. */
  lemma UnWpStep(s: State, d: nat, i: nat)
    requires Shape(s) && Inv(s) && IsPte(s, d, i)
    ensures var (r, ok) := UnWp(s, d, i); Inv(r) && if ok then MadeOwn(s, r, d, i) else r == s
  {
    if LOW <= Pte(s, d, i).frame && Count(s, Pte(s, d, i).frame) == 1 {
      UnWpReuse(s, d, i);
    } else if GetFree(s).1 == 0 {
      GetFreeStep(s);
    } else {
      UnWpCopy(s, d, i);
      UnWpFresh(s, d, i);
    }
  }

  lemma UnWpReuse(s: State, d: nat, i: nat)
    requires Shape(s) && Inv(s) && IsPte(s, d, i) && LOW <= Pte(s, d, i).frame && Count(s, Pte(s, d, i).frame) == 1
    ensures var r := SetPte(s, d, i, Pte(s, d, i).(rw := true)); Inv(r) && MadeOwn(s, r, d, i)
  {
    var w := Pte(s, d, i);
    RelabelStep(s, d, i, w.(rw := true));
    PagePlaced(s, d, i);
    hide Inv, SetPte;
    assert (d, i) in Spaces(s) && Spaces(s)[(d, i)] == Private(s.phys[w.frame]);
    hide Spaces;
    PutSame(Spaces(s), (d, i));
  }

  lemma PutSame(a: Space, x: (nat, nat))
    requires x in a
    ensures a[x := a[x]] == a
  {
  }

  lemma UnWpFresh(s: State, d: nat, i: nat)
    requires Shape(s) && Inv(s) && IsPte(s, d, i) && GetFree(s).1 != 0 && Pte(s, d, i).frame < |s.phys|
    ensures var r := CowSteps(GetFree(s).0, d, i, GetFree(s).1, s.phys[Pte(s, d, i).frame]);
            Inv(r) && MadeOwn(s, r, d, i)
  {
    hide Inv, CowSteps, GetFree;
    GetFreeStep(s);
    var (s1, n) := GetFree(s);
    var p := s.phys[Pte(s, d, i).frame];
    CowSpaces(s1, d, i, n, p);
    var r := CowSteps(s1, d, i, n, p);
    assert Contents(Spaces(s)[(d, i)], s.phys[..LOW]) == p;
    assert OneEntry(s, r, d, i, Seven(n));
  }

  lemma UnWpCopy(s: State, d: nat, i: nat)
    requires Shape(s) && Inv(s) && IsPte(s, d, i) && GetFree(s).1 != 0
    requires !(LOW <= Pte(s, d, i).frame && Count(s, Pte(s, d, i).frame) == 1)
    ensures var f := Pte(s, d, i).frame;
            && f < |s.phys| && UnWp(s, d, i) == (CowSteps(GetFree(s).0, d, i, GetFree(s).1, s.phys[f]), true)
  {
    hide Inv;
    GetFreeStep(s);
    var (s1, n) := GetFree(s);
    var f := Pte(s, d, i).frame;
    PagePlaced(s, d, i);
    assert Pte(s1, d, i) == Pte(s, d, i) && IsPte(s1, d, i);
    assert s1.phys[f] == s.phys[f] by { HeldAlone(s1, n); }
    CowOrder(s1, d, i, n, f);
  }

  // ---- a store by a task -----------------------------------------------------------------------

  /** A task stores word w at offset k of a mapped page: the processor faults if the page is write-
      protected, and sets the dirty bit when the store goes through. */
  function UserStore(s: State, d: nat, i: nat, k: nat, w: Word): (r: (State, bool))
    requires Shape(s) && d < WORDS && i < WORDS && k < WORDS
    ensures Shape(r.0)
  {
    var (s1, ok) := if Pte(s, d, i).rw then (s, true) else UnWp(s, d, i);
    if !ok then (s1, false)
    else
      var e := Pte(s1, d, i);
      (Poke(SetPte(s1, d, i, e.(dirty := true)), e.frame, k, w), true)
  }

  lemma StoreOwn(s: State, d: nat, i: nat, k: nat, w: Word)
    requires Shape(s) && Inv(s) && IsPte(s, d, i) && Pte(s, d, i).rw && k < WORDS
    ensures var e := Pte(s, d, i); var r := Poke(SetPte(s, d, i, e.(dirty := true)), e.frame, k, w);
            && e.frame < |s.phys| && |s.phys[e.frame]| == WORDS
            && Inv(r) && Spaces(r) == Spaces(s)[(d, i) := Private(s.phys[e.frame][k := w])]
  {
    var e := Pte(s, d, i);
    PagePlaced(s, d, i);
    RelabelStep(s, d, i, e.(dirty := true));
    var s1 := SetPte(s, d, i, e.(dirty := true));
    assert s1.phys[e.frame] == s.phys[e.frame];
    StoreStep(s1, d, i, k, w);
  }

  /** A store changes the storing task's own page at one word, and no other page of any task. */
  lemma UserStoreStep(s: State, d: nat, i: nat, k: nat, w: Word)
    requires Shape(s) && Inv(s) && IsPte(s, d, i) && k < WORDS
    ensures var (r, ok) := UserStore(s, d, i, k, w); var p := Contents(Spaces(s)[(d, i)], s.phys[..LOW]);
            && |p| == WORDS && Inv(r)
            && if ok then Spaces(r) == Spaces(s)[(d, i) := Private(p[k := w])] else r == s
  {
    PagePlaced(s, d, i);
    var p := Contents(Spaces(s)[(d, i)], s.phys[..LOW]);
    if Pte(s, d, i).rw {
      StoreOwn(s, d, i, k, w);
    } else {
      UnWpStep(s, d, i);
      var (s1, ok) := UnWp(s, d, i);
      if ok {
        StoreOwn(s1, d, i, k, w);
        StoreAfterCow(s, s1, d, i, p);
        PutTwice(Spaces(s), (d, i), Private(p), Private(p[k := w]));
      }
    }
  }

  lemma StoreAfterCow(s: State, s1: State, d: nat, i: nat, p: Page)
    requires Shape(s) && Shape(s1) && Inv(s1) && IsPte(s, d, i) && MadeOwn(s, s1, d, i)
    requires p == Contents(Spaces(s)[(d, i)], s.phys[..LOW])
    ensures Pte(s1, d, i).frame < |s1.phys| && s1.phys[Pte(s1, d, i).frame] == p
  {
    PagePlaced(s1, d, i);
    hide Inv;
    assert (d, i) in Spaces(s1) && Spaces(s1)[(d, i)] == Private(p);
  }

  lemma PutTwice(a: Space, x: (nat, nat), u: View, v: View)
    ensures a[x := u][x := v] == a[x := v]
  {
  }

  // ---- missing pages ---------------------------------------------------------------------------

  /** put_page of a held frame at an unmapped address. */
  function PutPage(s: State, f: Pfn, d: nat, i: nat): (r: (State, bool))
    requires Shape(s) && d < WORDS && i < WORDS
    ensures Shape(r.0)
  {
    if Dir(s, d).p then (EnterPage(s, d, i, f), true)
    else
      var (s1, t) := GetFree(s);
      if t == 0 then (s1, false) else (EnterPage(EnterTable(s1, d, t), d, i, f), true)
  }

  lemma PutPageStep(s: State, f: Pfn, d: nat, i: nat)
    requires Shape(s) && Inv(s) && f in s.held && 16 <= d < WORDS && i < WORDS && !IsPte(s, d, i)
    ensures f < |s.phys|
    ensures var (r, ok) := PutPage(s, f, d, i);
            && Inv(r)
            && if ok then Spaces(r) == Spaces(s)[(d, i) := Private(s.phys[f])] && r.held == s.held - {f} else r == s
  {
    HeldAlone(s, f);
    if Dir(s, d).p {
      EnterPageStep(s, d, i, f);
    } else if GetFree(s).1 == 0 {
      GetFreeStep(s);
    } else {
      PutPageOpen(s, f, d);
      var s2 := EnterTable(GetFree(s).0, d, GetFree(s).1);
      EnterPageStep(s2, d, i, f);
    }
  }

  lemma PutPageOpen(s: State, f: Pfn, d: nat)
    requires Shape(s) && Inv(s) && f in s.held && 16 <= d < WORDS && !Dir(s, d).p && GetFree(s).1 != 0
    ensures var r := EnterTable(GetFree(s).0, d, GetFree(s).1);
            && Inv(r) && IsTable(r, d) && (forall j: nat | j < WORDS :: !Pte(r, d, j).p)
            && Spaces(r) == Spaces(s) && r.held == s.held && f < |s.phys| == |r.phys| && r.phys[f] == s.phys[f]
  {
    OpenTable(s, d);
    GetFreeStep(s);
    HeldAlone(s, f);
  }

  /** A page for (d, i): a free frame filled with p, entered with put_page; on failure it is given back. */
  function NewPage(s: State, d: nat, i: nat, p: Page): (r: (State, bool))
    requires Shape(s) && d < WORDS && i < WORDS && |p| == WORDS
    ensures Shape(r.0)
  {
    var (s1, f) := GetFree(s);
    if f == 0 then (s1, false)
    else
      var (s2, ok) := PutPage(Fill(s1, f, p), f, d, i);
      if ok then (s2, true) else (FreePage(s2, f), false)
  }

  /** A missing page is supplied with the wanted contents; when memory runs out, every count and every
      page is as before. */
  lemma NewPageStep(s: State, d: nat, i: nat, p: Page)
    requires Shape(s) && Inv(s) && 16 <= d < WORDS && i < WORDS && !IsPte(s, d, i) && |p| == WORDS
    ensures var (r, ok) := NewPage(s, d, i, p);
            && Inv(r) && r.held == s.held
            && if ok then Spaces(r) == Spaces(s)[(d, i) := Private(p)] else Spaces(r) == Spaces(s) && r.mm == s.mm
  {
    if GetFree(s).1 == 0 {
      GetFreeStep(s);
    } else {
      FilledFrame(s, p);
      var f := GetFree(s).1;
      var s2 := Fill(GetFree(s).0, f, p);
      hide GetFree, Fill, Inv;
      NotPteKept(s, s2, d, i);
      PutPageStep(s2, f, d, i);
      if !PutPage(s2, f, d, i).1 {
        FreeHeldStep(s2, f);
      }
    }
  }

  /** A free frame filled with p and held; giving it back restores mem_map. */
  lemma FilledFrame(s: State, p: Page)
    requires Shape(s) && Inv(s) && |p| == WORDS && GetFree(s).1 != 0
    ensures var (s1, f) := GetFree(s); var r := Fill(s1, f, p);
            && Inv(r) && f !in s.held && r.held == s.held + {f} && f < |r.phys| && r.phys[f] == p
            && SameTables(s, r) && Spaces(r) == Spaces(s) && FreePage(r, f).mm == s.mm
  {
    hide Inv, SameTables, FreePage;
    GetFreeStep(s);
    var (s1, f) := GetFree(s);
    FillHeld(s1, f, p);
    SameTablesTrans(s, s1, Fill(s1, f, p));
    FilledCounts(s, p);
  }

  lemma FilledCounts(s: State, p: Page)
    requires Shape(s) && |p| == WORDS && GetFree(s).1 != 0
    ensures FreePage(Fill(GetFree(s).0, GetFree(s).1, p), GetFree(s).1).mm == s.mm
  {
    var f := GetFree(s).1;
    assert s.mm[f - LOW := 1][f - LOW := 0] == s.mm;
  }

  lemma SameTablesTrans(s: State, s1: State, r: State)
    requires Shape(s) && Shape(s1) && Shape(r) && SameTables(s, s1) && SameTables(s1, r)
    ensures SameTables(s, r)
  {
  }

  lemma NotPteKept(s: State, s2: State, d: nat, i: nat)
    requires Shape(s) && Shape(s2) && SameTables(s, s2)
    requires d < WORDS && i < WORDS && !IsPte(s, d, i)
    ensures !IsPte(s2, d, i)
  {
  }

  // ---- sharing ---------------------------------------------------------------------------------

  datatype Outcome = NotShared | Shared | OutOfMemory

  /** try_to_share: the page at place (pd, i) of another task, present and clean, is entered read-only
      at (cd, i), unless memory runs out for the page table. */
  function TryToShare(s: State, pd: nat, cd: nat, i: nat): (r: (State, Outcome))
    requires Shape(s) && pd < WORDS && cd < WORDS && i < WORDS
    ensures Shape(r.0)
  {
    var w := Pte(s, pd, i);
    if !Dir(s, pd).p || !w.p || w.dirty || w.frame >= |s.phys| || w.frame < LOW then (s, NotShared)
    else
      var (s1, ok) :=
        if Dir(s, cd).p then (s, true)
        else
          var (t, f) := GetFree(s);
          if f == 0 then (t, false) else (EnterTable(t, cd, f), true);
      if !ok then (s1, OutOfMemory) else (EnterShared(s1, pd, cd, i), Shared)
  }

  /** The end of try_to_share: write-protect the page, enter it at (cd, i) and count it. */
  function EnterShared(s: State, pd: nat, cd: nat, i: nat): (r: State)
    requires Shape(s) && pd < WORDS && cd < WORDS && i < WORDS
    ensures Shape(r)
  {
    var v := Pte(s, pd, i).(rw := false);
    var s1 := SetPte(SetPte(s, pd, i, v), cd, i, v);
    SetCount(s1, v.frame, (Count(s1, v.frame) + 1) % 256)
  }

  lemma ShareEntry(s: State, pd: nat, cd: nat, i: nat)
    requires Shape(s) && Inv(s) && IsPte(s, pd, i) && LOW <= Pte(s, pd, i).frame && IsTable(s, cd) && !Pte(s, cd, i).p
    requires pd != cd && pd % 16 == cd % 16
    ensures var r := EnterShared(s, pd, cd, i);
            && Inv(r) && r.held == s.held && Spaces(r) == Spaces(s)[(cd, i) := Spaces(s)[(pd, i)]]
  {
    var v := Pte(s, pd, i).(rw := false);
    Protect(s, pd, i);
    var s1 := SetPte(s, pd, i, v);
    assert EnterShared(s, pd, cd, i) == EnterReader(s1, cd, i, v);
    assert EnterShared(s, pd, cd, i).held == s.held;
    assert Pte(s1, cd, i) == Pte(s, cd, i);
    hide SetPte;
    EnterReaderStep(s1, cd, i, v, pd);
    SharedView(s, s1, pd, i);
  }

  lemma SharedView(s: State, s1: State, pd: nat, i: nat)
    requires Shape(s) && Shape(s1) && IsPte(s, pd, i) && IsPte(s1, pd, i) && Spaces(s1) == Spaces(s)
    requires Pte(s1, pd, i).frame == Pte(s, pd, i).frame
    ensures Show(s1, Pte(s, pd, i).frame) == Spaces(s)[(pd, i)]
  {
    assert (pd, i) in Spaces(s1);
  }

  /** A page try_to_share may take over: present, clean and not of low memory. */
  predicate Clean(s: State, d: nat, i: nat)
    requires Shape(s)
  {
    IsPte(s, d, i) && !Pte(s, d, i).dirty && LOW <= Pte(s, d, i).frame
  }

  /** Sharing shows the other task's page and changes nothing else; it comes to it exactly when that page is clean and
      there is memory for the page table.  A refusal changes nothing at all. */
  lemma TryToShareStep(s: State, pd: nat, cd: nat, i: nat)
    requires Shape(s) && Inv(s) && 16 <= pd < WORDS && 16 <= cd < WORDS && i < WORDS && !IsPte(s, cd, i)
    requires pd != cd && pd % 16 == cd % 16
    ensures var (r, o) := TryToShare(s, pd, cd, i);
            && Inv(r) && r.held == s.held && (o == NotShared <==> !Clean(s, pd, i))
            && match o
               case Shared => IsPte(s, pd, i) && Spaces(r) == Spaces(s)[(cd, i) := Spaces(s)[(pd, i)]]
               case NotShared => r == s
               case OutOfMemory => r == s && !Dir(s, cd).p && GetFree(s).1 == 0
  {
    var w := Pte(s, pd, i);
    if IsPte(s, pd, i) { PagePlaced(s, pd, i); }
    if Dir(s, pd).p && w.p && !w.dirty && LOW <= w.frame < |s.phys| {
      hide EnterShared, Inv, EnterTable;
      if Dir(s, cd).p {
        ShareEntry(s, pd, cd, i);
      } else if GetFree(s).1 == 0 {
        GetFreeStep(s);
      } else {
        ShareOpen(s, pd, cd, i);
        ShareEntry(EnterTable(GetFree(s).0, cd, GetFree(s).1), pd, cd, i);
      }
    }
  }

  lemma ShareOpen(s: State, pd: nat, cd: nat, i: nat)
    requires Shape(s) && Inv(s) && IsPte(s, pd, i) && 16 <= cd < WORDS && !Dir(s, cd).p && GetFree(s).1 != 0
    ensures var r := EnterTable(GetFree(s).0, cd, GetFree(s).1);
            && Inv(r) && Spaces(r) == Spaces(s) && r.held == s.held && IsTable(r, cd) && !Pte(r, cd, i).p
            && IsPte(r, pd, i) && Pte(r, pd, i).frame == Pte(s, pd, i).frame
  {
    OpenTable(s, cd);
    hide Inv, EnterTable, GetFree;
  }

  /** share_page: the tasks from p down to 1 that run the same executable as task cur, in that order.
      exe[t] identifies the executable of task t, 0 when there is no such task or no executable. */
  function SharePage(s: State, exe: seq<nat>, cur: nat, k: nat, i: nat, p: nat): (r: (State, Outcome))
    requires Shape(s) && |exe| == 64 && cur < 64 && p < 64 && k < 16 && i < WORDS
    ensures Shape(r.0)
  {
    if p == 0 then (s, NotShared)
    else if exe[p] == 0 || p == cur || exe[p] != exe[cur] then SharePage(s, exe, cur, k, i, p - 1)
    else
      var (r, o) := TryToShare(s, 16 * p + k, 16 * cur + k, i);
      if o.NotShared? then SharePage(r, exe, cur, k, i, p - 1) else (r, o)
  }

  /** Task q, another one with the same executable, has a clean page at place (k, i). */
  predicate Offers(s: State, exe: seq<nat>, cur: nat, k: nat, i: nat, q: nat)
    requires Shape(s) && |exe| == 64 && cur < 64
  {
    0 < q < 64 && q != cur && exe[q] == exe[cur] != 0 && Clean(s, 16 * q + k, i)
  }

  /** The last such task up to p. */
  predicate LastOffer(s: State, exe: seq<nat>, cur: nat, k: nat, i: nat, p: nat, q: nat)
    requires Shape(s) && |exe| == 64 && cur < 64
  {
    q <= p && Offers(s, exe, cur, k, i, q) && forall j: nat | q < j <= p :: !Offers(s, exe, cur, k, i, j)
  }

  /** r shows at place y what s shows at place x, and everything else as s does. */
  ghost predicate ShownFrom(s: State, r: State, x: (nat, nat), y: (nat, nat))
    requires Shape(s) && Shape(r)
  {
    x in Spaces(s) && Spaces(r) == Spaces(s)[y := Spaces(s)[x]]
  }

  /** r shows at place (k, i) of task cur what that task shows there. */
  ghost predicate SharedFrom(s: State, r: State, exe: seq<nat>, cur: nat, k: nat, i: nat, p: nat, q: nat)
    requires Shape(s) && Shape(r) && |exe| == 64 && cur < 64
  {
    LastOffer(s, exe, cur, k, i, p, q) && ShownFrom(s, r, (16 * q + k, i), (16 * cur + k, i))
  }

  lemma Mod16(p: nat, q: nat, k: nat)
    ensures (16 * p + k) % 16 == (16 * q + k) % 16
  {
  }

  lemma SharedNext(s: State, r: State, exe: seq<nat>, cur: nat, k: nat, i: nat, below: nat, p: nat)
    requires Shape(s) && Shape(r) && |exe| == 64 && cur < 64 && p == below + 1 && !Offers(s, exe, cur, k, i, p)
    requires exists q: nat :: SharedFrom(s, r, exe, cur, k, i, below, q)
    ensures exists q: nat :: SharedFrom(s, r, exe, cur, k, i, p, q)
  {
    hide Offers, ShownFrom;
    var q: nat :| SharedFrom(s, r, exe, cur, k, i, below, q);
    assert LastOffer(s, exe, cur, k, i, p, q);
    assert SharedFrom(s, r, exe, cur, k, i, p, q);
  }

  lemma TakenShown(s: State, r: State, pd: nat, cd: nat, i: nat)
    requires Shape(s) && Shape(r)
    requires IsPte(s, pd, i) && Spaces(r) == Spaces(s)[(cd, i) := Spaces(s)[(pd, i)]]
    ensures ShownFrom(s, r, (pd, i), (cd, i))
  {
  }

  /** share_page takes the clean page of the last task that has one. */
  lemma {:induction false} SharePageStep(s: State, exe: seq<nat>, cur: nat, k: nat, i: nat, p: nat)
    requires Shape(s) && Inv(s) && |exe| == 64 && 0 < cur < 64 && p < 64 && k < 16 && i < WORDS && !IsPte(s, 16 * cur + k, i)
    ensures var (r, o) := SharePage(s, exe, cur, k, i, p);
            && Inv(r) && r.held == s.held
            && (if o.Shared? then exists q: nat :: SharedFrom(s, r, exe, cur, k, i, p, q) else r == s)
            && (o == NotShared <==> forall q: nat | q <= p :: !Offers(s, exe, cur, k, i, q))
            && (o == OutOfMemory ==> !Dir(s, 16 * cur + k).p && GetFree(s).1 == 0)
    decreases p
  {
    hide Inv, TryToShare, Offers, GetFree, SharedFrom;
    if p > 0 {
      if exe[p] == 0 || p == cur || exe[p] != exe[cur] {
        SharePageStep(s, exe, cur, k, i, p - 1);
        assert !Offers(s, exe, cur, k, i, p) by { NoOffer(s, exe, cur, k, i, p); }
        if SharePage(s, exe, cur, k, i, p).1.Shared? { SharedNext(s, SharePage(s, exe, cur, k, i, p).0, exe, cur, k, i, p - 1, p); }
      } else {
        TryOffer(s, exe, cur, k, i, p);
        if TryToShare(s, 16 * p + k, 16 * cur + k, i).1.NotShared? {
          SharePageStep(s, exe, cur, k, i, p - 1);
          if SharePage(s, exe, cur, k, i, p).1.Shared? { SharedNext(s, SharePage(s, exe, cur, k, i, p).0, exe, cur, k, i, p - 1, p); }
        }
      }
    } else {
      NoOffer(s, exe, cur, k, i, 0);
    }
  }

  lemma NoOffer(s: State, exe: seq<nat>, cur: nat, k: nat, i: nat, p: nat)
    requires Shape(s) && |exe| == 64 && cur < 64 && p < 64 && (p == 0 || exe[p] == 0 || p == cur || exe[p] != exe[cur])
    ensures !Offers(s, exe, cur, k, i, p)
  {
  }

  /** One turn of the search. */
  lemma TryOffer(s: State, exe: seq<nat>, cur: nat, k: nat, i: nat, p: nat)
    requires Shape(s) && Inv(s) && |exe| == 64 && 0 < cur < 64 && 0 < p < 64 && k < 16 && i < WORDS && !IsPte(s, 16 * cur + k, i)
    requires p != cur && exe[p] == exe[cur] != 0
    ensures var (r, o) := TryToShare(s, 16 * p + k, 16 * cur + k, i);
            && Inv(r) && r.held == s.held
            && (if o.Shared? then SharedFrom(s, r, exe, cur, k, i, p, p) else r == s)
            && (o == NotShared <==> !Offers(s, exe, cur, k, i, p))
            && (o == OutOfMemory ==> !Dir(s, 16 * cur + k).p && GetFree(s).1 == 0)
  {
    hide Inv, TryToShare, GetFree, Clean, ShownFrom;
    Mod16(p, cur, k);
    TryToShareStep(s, 16 * p + k, 16 * cur + k, i);
    var (r, o) := TryToShare(s, 16 * p + k, 16 * cur + k, i);
    if o.Shared? { TakenShown(s, r, 16 * p + k, 16 * cur + k, i); }
  }

  /** do_no_page at place (k, i) of task cur.  file is the page of the executable, when the address lies
      in it; users is the executable's i_count. */
  function NoPage(s: State, exe: seq<nat>, cur: nat, k: nat, i: nat, inFile: bool, users: nat, file: Page): (r: (State, bool))
    requires Shape(s) && |exe| == 64 && cur < 64 && k < 16 && i < WORDS && |file| == WORDS
    ensures Shape(r.0)
  {
    if exe[cur] == 0 || !inFile then NewPage(s, 16 * cur + k, i, ZeroPage())
    else
      var (s1, o) := if users < 2 then (s, NotShared) else SharePage(s, exe, cur, k, i, 63);
      if o.Shared? then (s1, true)
      else if o.OutOfMemory? then (s1, false)
      else NewPage(s1, 16 * cur + k, i, file)
  }

  /** What a missing page comes to show: zeros outside the executable; the clean page of the last other task with the same
      executable that has one, if the inode is in use elsewhere; else the executable's page. */
  ghost predicate Supplied(s: State, exe: seq<nat>, cur: nat, k: nat, i: nat, inFile: bool, users: nat, file: Page, v: View)
    requires Shape(s) && |exe| == 64 && cur < 64
  {
    if exe[cur] == 0 || !inFile then v == Private(ZeroPage())
    else if users >= 2 && exists q: nat :: Offers(s, exe, cur, k, i, q)
    then exists q: nat :: LastOffer(s, exe, cur, k, i, 63, q) && (16 * q + k, i) in Spaces(s) && v == Spaces(s)[(16 * q + k, i)]
    else v == Private(file)
  }

  lemma NoPageStep(s: State, exe: seq<nat>, cur: nat, k: nat, i: nat, inFile: bool, users: nat, file: Page)
    requires Shape(s) && Inv(s) && |exe| == 64 && 0 < cur < 64 && k < 16 && i < WORDS && |file| == WORDS
    requires !IsPte(s, 16 * cur + k, i)
    ensures var (r, ok) := NoPage(s, exe, cur, k, i, inFile, users, file);
            && Inv(r) && r.held == s.held
            && if ok then exists v :: Supplied(s, exe, cur, k, i, inFile, users, file, v) && Spaces(r) == Spaces(s)[(16 * cur + k, i) := v]
               else Spaces(r) == Spaces(s) && r.mm == s.mm
  {
    hide Inv, NewPage, SharePage, Supplied, SharedFrom, Offers, IsPte, Show;
    var d := 16 * cur + k;
    if exe[cur] == 0 || !inFile {
      NewPageStep(s, d, i, ZeroPage());
      SuppliedZero(s, exe, cur, k, i, inFile, users, file);
    } else {
      SharePageStep(s, exe, cur, k, i, 63);
      var (s1, o) := if users < 2 then (s, NotShared) else SharePage(s, exe, cur, k, i, 63);
      if o.Shared? {
        SuppliedShare(s, s1, exe, cur, k, i, inFile, users, file);
      } else if o.NotShared? {
        NewPageStep(s, d, i, file);
        SuppliedFile(s, exe, cur, k, i, inFile, users, file);
      }
    }
  }

  lemma SuppliedZero(s: State, exe: seq<nat>, cur: nat, k: nat, i: nat, inFile: bool, users: nat, file: Page)
    requires Shape(s) && |exe| == 64 && cur < 64 && (exe[cur] == 0 || !inFile)
    ensures Supplied(s, exe, cur, k, i, inFile, users, file, Private(ZeroPage()))
  {
  }

  lemma SuppliedFile(s: State, exe: seq<nat>, cur: nat, k: nat, i: nat, inFile: bool, users: nat, file: Page)
    requires Shape(s) && |exe| == 64 && cur < 64 && exe[cur] != 0 && inFile
    requires users < 2 || forall q: nat | q <= 63 :: !Offers(s, exe, cur, k, i, q)
    ensures Supplied(s, exe, cur, k, i, inFile, users, file, Private(file))
  {
    hide Clean;
  }

  lemma SuppliedShare(s: State, r: State, exe: seq<nat>, cur: nat, k: nat, i: nat, inFile: bool, users: nat, file: Page)
    requires Shape(s) && Shape(r) && |exe| == 64 && cur < 64 && exe[cur] != 0 && inFile && users >= 2
    requires exists q: nat :: SharedFrom(s, r, exe, cur, k, i, 63, q)
    ensures exists v :: Supplied(s, exe, cur, k, i, inFile, users, file, v) && Spaces(r) == Spaces(s)[(16 * cur + k, i) := v]
  {
    var q: nat :| SharedFrom(s, r, exe, cur, k, i, 63, q);
    assert Offers(s, exe, cur, k, i, q) && (16 * q + k, i) in Spaces(s);
    assert Supplied(s, exe, cur, k, i, inFile, users, file, Spaces(s)[(16 * q + k, i)]);
  }
}
