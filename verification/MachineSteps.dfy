/** The elementary changes the routines of mm/memory.cc are made of.  Each keeps Machine.Inv, and each
    lemma says what it does to the memory every task sees. */
module MachineSteps {
  import opened Basics
  import opened Frames
  import opened Machine

  /** Store word w at index i of frame f; stores beyond the last frame have no effect. */
  function Poke(s: State, f: nat, i: nat, w: Word): (r: State)
    requires Shape(s) && i < WORDS
    ensures Shape(r)
  {
    if f < |s.phys| then s.(phys := s.phys[f := s.phys[f][i := w]]) else s
  }

  function Fill(s: State, f: nat, p: Page): (r: State)
    requires Shape(s) && |p| == WORDS
    ensures Shape(r)
  {
    if f < |s.phys| then s.(phys := s.phys[f := p]) else s
  }

  /** mem_map of frame f becomes c; low memory has no count. */
  function SetCount(s: State, f: nat, c: Byte): (r: State)
    requires Shape(s)
    ensures Shape(r)
  {
    if LOW <= f < LOW + PAGING_PAGES then s.(mm := s.mm[f - LOW := c]) else s
  }

  function SetPte(s: State, d: nat, i: nat, w: Word): (r: State)
    requires Shape(s) && d < WORDS && i < WORDS
    ensures Shape(r)
  {
    Poke(s, Dir(s, d).frame, i, w)
  }

  /** Nothing changed in the directory, in the page tables or in the boot tables. */
  ghost predicate SameTables(s: State, r: State)
    requires Shape(s) && Shape(r)
  {
    && r.lo == s.lo && |r.phys| == |s.phys|
    && SameBoot(s, r)
    && (forall d: nat | d < WORDS :: Dir(r, d) == Dir(s, d))
    && (forall d: nat, i: nat | IsTable(s, d) && i < WORDS :: Pte(r, d, i) == Pte(s, d, i))
  }

  ghost predicate SameBoot(s: State, r: State)
    requires Shape(s) && Shape(r)
  {
    && (forall d: nat | d < 16 :: Dir(r, d) == Dir(s, d))
    && (Dir(s, 0).p ==> forall i: nat | i < 160 :: Pte(r, 0, i) == Pte(s, 0, i))
  }

  /** Only entry (d, i) changed, to w. */
  ghost predicate OneEntry(s: State, r: State, d: nat, i: nat, w: Word)
    requires Shape(s) && Shape(r)
  {
    && r.lo == s.lo && |r.phys| == |s.phys|
    && SameBoot(s, r)
    && (forall e: nat | e < WORDS :: Dir(r, e) == Dir(s, e))
    && (forall e: nat, j: nat | IsTable(s, e) && j < WORDS ::
          Pte(r, e, j) == if e == d && j == i then w else Pte(s, e, j))
  }

  lemma PokePte(s: State, d: nat, i: nat, w: Word)
    requires Inv(s) && IsTable(s, d) && i < WORDS
    ensures Dir(s, d).frame < |s.phys|
    ensures OneEntry(s, SetPte(s, d, i, w), d, i, w)
    ensures forall f: nat | f < |s.phys| && f != Dir(s, d).frame :: SetPte(s, d, i, w).phys[f] == s.phys[f]
  {
    TableAlone(s, d);
  }

  // ---- the references and the views after a change -------------------------------------------

  lemma GraphSame(s: State, r: State)
    requires Shape(s) && Shape(r) && SameTables(s, r) && r.held == s.held
    ensures GraphOf(r) == GraphOf(s)
  {
    var g := GraphOf(s);
    forall u ensures Live(r, u) <==> Live(s, u) {}
    forall u | u in g ensures g[u] == RefOf(r, u) {}
    SameGraph(r, g);
  }

  lemma GraphHeld(s: State, r: State, f: nat)
    requires Shape(s) && Shape(r) && SameTables(s, r) && r.held == s.held + {f}
    ensures GraphOf(r) == GraphOf(s)[Held(f) := Ref(f, true)]
  {
    var g := GraphOf(s)[Held(f) := Ref(f, true)];
    forall u ensures Live(r, u) <==> u in g {}
    forall u | u in g ensures g[u] == RefOf(r, u) {}
    SameGraph(r, g);
  }

  lemma GraphUnheld(s: State, r: State, f: nat)
    requires Shape(s) && Shape(r) && SameTables(s, r) && r.held == s.held - {f}
    ensures GraphOf(r) == GraphOf(s) - {Held(f)}
  {
    var g := GraphOf(s) - {Held(f)};
    forall u ensures Live(r, u) <==> u in g {}
    forall u | u in g ensures g[u] == RefOf(r, u) {}
    SameGraph(r, g);
  }

  function Without(g: Graph, u: User): Graph { g - {u} }

  lemma GraphEntry(s: State, r: State, d: nat, i: nat, w: Word)
    requires Shape(s) && Shape(r) && IsTable(s, d) && i < WORDS && OneEntry(s, r, d, i, w) && r.held == s.held
    ensures GraphOf(r) == if w.p then GraphOf(s)[Entry(d, i) := Ref(w.frame, w.rw)] else GraphOf(s) - {Entry(d, i)}
  {
    var g := if w.p then GraphOf(s)[Entry(d, i) := Ref(w.frame, w.rw)] else GraphOf(s) - {Entry(d, i)};
    forall u ensures Live(r, u) <==> u in g {}
    forall u | u in g ensures g[u] == RefOf(r, u) {}
    SameGraph(r, g);
  }

  /** The frames of pages tasks can see. */
  ghost predicate Seen(s: State, f: nat)
    requires Shape(s)
  {
    exists d: nat, i: nat :: IsPte(s, d, i) && Pte(s, d, i).frame == f
  }

  ghost predicate SameSeen(s: State, r: State)
    requires Shape(s) && Shape(r) && |s.phys| == |r.phys|
  {
    forall f: nat | Seen(s, f) && LOW <= f < |s.phys| :: r.phys[f] == s.phys[f]
  }

  lemma SpacesSame(s: State, r: State)
    requires Shape(s) && Shape(r) && SameTables(s, r) && SameSeen(s, r)
    ensures Spaces(r) == Spaces(s)
  {
    var a := Spaces(s);
    forall x | x in a ensures IsPte(r, x.0, x.1) && a[x] == Show(r, Pte(r, x.0, x.1).frame) {
      assert IsPte(s, x.0, x.1) && Seen(s, Pte(s, x.0, x.1).frame);
    }
    SameSpaces(r, a);
  }

  lemma SpacesEntry(s: State, r: State, d: nat, i: nat, w: Word)
    requires Shape(s) && Shape(r) && IsTable(s, d) && i < WORDS && OneEntry(s, r, d, i, w)
    requires SameSeen(s, r)
    ensures Spaces(r) == if w.p then Spaces(s)[(d, i) := Show(r, w.frame)] else Spaces(s) - {(d, i)}
  {
    var a := if w.p then Spaces(s)[(d, i) := Show(r, w.frame)] else Spaces(s) - {(d, i)};
    forall x | x in a && x != (d, i) ensures IsPte(r, x.0, x.1) && a[x] == Show(r, Pte(r, x.0, x.1).frame) {
      assert x in Spaces(s) && IsPte(s, x.0, x.1) && Seen(s, Pte(s, x.0, x.1).frame);
    }
    SameSpaces(r, a);
  }

  lemma DropSoleUser(s: State, u: User)
    requires Inv(s) && Live(s, u) && !u.Entry?
    ensures Managed(s.lo, |s.phys|, RefOf(s, u).frame)
    ensures Sound(GraphOf(s) - {u}, SetCount(s, RefOf(s, u).frame, 0).mm, s.lo, |s.phys|)
  {
    assert u in GraphOf(s);
    DropSole(GraphOf(s), s.mm, s.lo, |s.phys|, u);
  }

  // ---- the frame pool ------------------------------------------------------------------------

  /** Take a frame of count 0, zeroed, for the kernel. */
  function Take(s: State, f: nat): (r: State)
    requires Shape(s)
    ensures Shape(r)
  {
    Fill(SetCount(s, f, 1), f, ZeroPage()).(held := s.held + {f})
  }

  lemma FreeUnused(s: State, f: nat)
    requires Inv(s) && LOW <= f < LOW + PAGING_PAGES && Count(s, f) == 0
    ensures Managed(s.lo, |s.phys|, f) && f !in s.held && !Seen(s, f)
    ensures forall d: nat | IsTable(s, d) :: Dir(s, d).frame != f
    ensures forall u | u in GraphOf(s) :: GraphOf(s)[u].frame != f
  {
    var g := GraphOf(s);
    assert s.mm[f - LOW] as int == if Managed(s.lo, |s.phys|, f - LOW + LOW) then |UsersOf(g, f - LOW + LOW)| else USED;
    forall u | u in g ensures g[u].frame != f {
      assert u !in UsersOf(g, f);
    }
    assert !Live(s, Held(f)) by { assert Live(s, Held(f)) ==> RefOf(s, Held(f)).frame == f; }
    forall d: nat | IsTable(s, d) ensures Dir(s, d).frame != f { assert Live(s, Table(d)); }
    forall d: nat, i: nat | IsPte(s, d, i) ensures Pte(s, d, i).frame != f { assert Live(s, Entry(d, i)); }
  }

  lemma TakeTables(s: State, f: nat)
    requires Inv(s) && LOW <= f < LOW + PAGING_PAGES && Count(s, f) == 0
    ensures SameTables(s, Take(s, f)) && GraphOf(Take(s, f)) == GraphOf(s)[Held(f) := Ref(f, true)]
    ensures Spaces(Take(s, f)) == Spaces(s)
  {
    FreeUnused(s, f);
    var r := Take(s, f);
    GraphHeld(s, r, f);
    SpacesSame(s, r);
  }

  lemma TakeStep(s: State, f: nat)
    requires Inv(s) && LOW <= f < LOW + PAGING_PAGES && Count(s, f) == 0
    ensures f < |s.phys| && f !in s.held && Take(s, f).phys[f] == ZeroPage()
    ensures Inv(Take(s, f)) && SameTables(s, Take(s, f)) && Spaces(Take(s, f)) == Spaces(s)
  {
    FreeUnused(s, f);
    TakeTables(s, f);
    AddRef(GraphOf(s), s.mm, s.lo, |s.phys|, Held(f), Ref(f, true));
    assert Take(s, f).mm == s.mm[f - LOW := s.mm[f - LOW] + 1];
  }

  /** Give back a frame the kernel holds. */
  function Drop(s: State, f: nat): (r: State)
    requires Shape(s)
    ensures Shape(r)
  {
    SetCount(s, f, 0).(held := s.held - {f})
  }

  lemma DropTables(s: State, f: nat)
    requires Inv(s) && f in s.held
    ensures Managed(s.lo, |s.phys|, f) && Count(s, f) == 1
    ensures SameTables(s, Drop(s, f)) && GraphOf(Drop(s, f)) == GraphOf(s) - {Held(f)}
    ensures Spaces(Drop(s, f)) == Spaces(s)
  {
    HeldAlone(s, f);
    var r := Drop(s, f);
    GraphUnheld(s, r, f);
    SpacesSame(s, r);
  }

  lemma DropStep(s: State, f: nat)
    requires Inv(s) && f in s.held
    ensures Managed(s.lo, |s.phys|, f) && Count(s, f) == 1
    ensures Inv(Drop(s, f)) && SameTables(s, Drop(s, f)) && Spaces(Drop(s, f)) == Spaces(s)
  {
    DropTables(s, f);
    DropSoleUser(s, Held(f));
  }

  /** Put new contents in a page the kernel holds. */
  lemma FillHeld(s: State, f: nat, p: Page)
    requires Inv(s) && f in s.held && |p| == WORDS
    ensures f < |s.phys|
    ensures Inv(Fill(s, f, p)) && SameTables(s, Fill(s, f, p)) && Spaces(Fill(s, f, p)) == Spaces(s)
  {
    HeldAlone(s, f);
    var r := Fill(s, f, p);
    assert SameTables(s, r);
    GraphSame(s, r);
    SpacesSame(s, r);
  }

  // ---- page tables and pages -----------------------------------------------------------------

  /** Enter a held, empty frame as the page table of directory entry d. */
  function EnterTable(s: State, d: nat, f: Pfn): (r: State)
    requires Shape(s) && d < WORDS
    ensures Shape(r)
  {
    Poke(s, 0, d, Seven(f)).(held := s.held - {f})
  }

  /** Directory entry d, absent before, names frame f, an empty page table. */
  ghost predicate NewTable(s: State, r: State, d: nat, f: Pfn)
    requires Shape(s) && Shape(r)
  {
    && r.lo == s.lo && |r.phys| == |s.phys| && SameBoot(s, r)
    && (forall e: nat | e < WORDS :: Dir(r, e) == if e == d then Seven(f) else Dir(s, e))
    && (forall e: nat, i: nat | IsTable(s, e) && i < WORDS :: Pte(r, e, i) == Pte(s, e, i))
    && (forall i: nat | i < WORDS && d < WORDS :: Pte(r, d, i) == ZERO)
  }

  lemma EnterTableTables(s: State, d: nat, f: Pfn)
    requires Inv(s) && f in s.held && 16 <= d < WORDS && !Dir(s, d).p && f < |s.phys| && s.phys[f] == ZeroPage()
    ensures NewTable(s, EnterTable(s, d, f), d, f)
  {
    HeldAlone(s, f);
    forall e: nat | IsTable(s, e) ensures LOW <= Dir(s, e).frame { TableAlone(s, e); }
  }

  lemma NewTableGraph(s: State, r: State, d: nat, f: Pfn)
    requires Shape(s) && Shape(r) && NewTable(s, r, d, f) && 16 <= d < WORDS && !Dir(s, d).p && r.held == s.held - {f}
    ensures GraphOf(r) == (GraphOf(s) - {Held(f)})[Table(d) := Ref(f, true)]
  {
    var g := (GraphOf(s) - {Held(f)})[Table(d) := Ref(f, true)];
    forall u ensures Live(r, u) <==> u in g {}
    forall u | u in g ensures g[u] == RefOf(r, u) {}
    SameGraph(r, g);
  }

  lemma EnterTableSpaces(s: State, d: nat, f: Pfn)
    requires Inv(s) && 16 <= d < WORDS && !Dir(s, d).p && NewTable(s, EnterTable(s, d, f), d, f)
    ensures Spaces(EnterTable(s, d, f)) == Spaces(s)
  {
    var r := EnterTable(s, d, f);
    var a := Spaces(s);
    forall x | x in a ensures IsPte(r, x.0, x.1) && a[x] == Show(r, Pte(r, x.0, x.1).frame) {
      assert IsPte(s, x.0, x.1);
      assert Pte(r, x.0, x.1) == Pte(s, x.0, x.1);
    }
    SameSpaces(r, a);
  }

  lemma EnterTableStep(s: State, d: nat, f: Pfn)
    requires Inv(s) && f in s.held && 16 <= d < WORDS && !Dir(s, d).p && f < |s.phys| && s.phys[f] == ZeroPage()
    ensures var r := EnterTable(s, d, f); Inv(r) && Spaces(r) == Spaces(s) && NewTable(s, r, d, f)
  {
    EnterTableTables(s, d, f);
    NewTableGraph(s, EnterTable(s, d, f), d, f);
    EnterTableSpaces(s, d, f);
    assert Live(s, Held(f)) && GraphOf(s)[Held(f)] == Ref(f, true);
    MoveRef(GraphOf(s), s.mm, s.lo, |s.phys|, Held(f), Table(d));
  }

  /** Give up the page table of directory entry d, which has no present entry left. */
  function LeaveTable(s: State, d: nat): (r: State)
    requires Shape(s) && d < WORDS
    ensures Shape(r)
  {
    Poke(SetCount(s, Dir(s, d).frame, 0), 0, d, ZERO)
  }

  ghost predicate NoTable(s: State, r: State, d: nat)
    requires Shape(s) && Shape(r)
  {
    && r.lo == s.lo && |r.phys| == |s.phys| && SameBoot(s, r)
    && (forall e: nat | e < WORDS :: Dir(r, e) == if e == d then ZERO else Dir(s, e))
    && (forall e: nat, i: nat | IsTable(r, e) && i < WORDS :: Pte(r, e, i) == Pte(s, e, i))
  }

  lemma LeaveTableTables(s: State, d: nat)
    requires Inv(s) && IsTable(s, d) && forall i: nat | i < WORDS :: !Pte(s, d, i).p
    ensures NoTable(s, LeaveTable(s, d), d)
  {
    forall e: nat | IsTable(s, e) ensures LOW <= Dir(s, e).frame { TableAlone(s, e); }
  }

  lemma LeaveTableGraph(s: State, d: nat)
    requires Inv(s) && IsTable(s, d) && forall i: nat | i < WORDS :: !Pte(s, d, i).p
    requires NoTable(s, LeaveTable(s, d), d)
    ensures GraphOf(LeaveTable(s, d)) == GraphOf(s) - {Table(d)}
  {
    var g := GraphOf(s) - {Table(d)};
    var r := LeaveTable(s, d);
    forall u ensures Live(r, u) <==> u in g {}
    forall u | u in g ensures g[u] == RefOf(r, u) {}
    SameGraph(r, g);
  }

  lemma LeaveTableSpaces(s: State, d: nat)
    requires Inv(s) && IsTable(s, d) && forall i: nat | i < WORDS :: !Pte(s, d, i).p
    requires NoTable(s, LeaveTable(s, d), d)
    ensures Spaces(LeaveTable(s, d)) == Spaces(s)
  {
    var r := LeaveTable(s, d);
    var a := Spaces(s);
    forall x | x in a ensures IsPte(r, x.0, x.1) && a[x] == Show(r, Pte(r, x.0, x.1).frame) {
      assert IsPte(s, x.0, x.1);
      assert x.0 != d;
      assert Pte(r, x.0, x.1) == Pte(s, x.0, x.1);
    }
    SameSpaces(r, a);
  }

  lemma LeaveTableStep(s: State, d: nat)
    requires Inv(s) && IsTable(s, d) && forall i: nat | i < WORDS :: !Pte(s, d, i).p
    ensures var r := LeaveTable(s, d); Inv(r) && Spaces(r) == Spaces(s) && NoTable(s, r, d)
    ensures Count(s, Dir(s, d).frame) == 1
  {
    LeaveTableTables(s, d);
    LeaveTableGraph(s, d);
    LeaveTableSpaces(s, d);
    TableCount(s, d);
    DropSoleUser(s, Table(d));
  }

  lemma TableCount(s: State, d: nat)
    requires Inv(s) && IsTable(s, d)
    ensures Count(s, Dir(s, d).frame) == 1
  {
    TableAlone(s, d);
    var f := Dir(s, d).frame;
    assert Live(s, Table(d)) && GraphOf(s)[Table(d)] == RefOf(s, Table(d));
    SoleUser(GraphOf(s), Table(d));
    assert s.mm[f - LOW] as int == |UsersOf(GraphOf(s), f - LOW + LOW)|;
  }

  // ---- page-table entries --------------------------------------------------------------------

  /** Enter a held frame as a writable page. */
  function EnterPage(s: State, d: nat, i: nat, f: Pfn): (r: State)
    requires Shape(s) && d < WORDS && i < WORDS
    ensures Shape(r)
  {
    SetPte(s, d, i, Seven(f)).(held := s.held - {f})
  }

  lemma EnterPageGraph(s: State, d: nat, i: nat, f: Pfn)
    requires Inv(s) && IsTable(s, d) && i < WORDS && !Pte(s, d, i).p && f in s.held
    ensures Dir(s, d).frame < |s.phys|
    ensures OneEntry(s, EnterPage(s, d, i, f), d, i, Seven(f))
    ensures GraphOf(EnterPage(s, d, i, f)) == (GraphOf(s) - {Held(f)})[Entry(d, i) := Ref(f, true)]
  {
    PokePte(s, d, i, Seven(f));
    GraphMoved(s, EnterPage(s, d, i, f), d, i, f);
  }

  lemma GraphMoved(s: State, r: State, d: nat, i: nat, f: Pfn)
    requires Shape(s) && Shape(r) && IsTable(s, d) && i < WORDS && OneEntry(s, r, d, i, Seven(f)) && r.held == s.held - {f}
    ensures GraphOf(r) == (GraphOf(s) - {Held(f)})[Entry(d, i) := Ref(f, true)]
  {
    var g := (GraphOf(s) - {Held(f)})[Entry(d, i) := Ref(f, true)];
    forall u ensures Live(r, u) <==> u in g {}
    forall u | u in g ensures g[u] == RefOf(r, u) {}
    SameGraph(r, g);
  }

  /** The views after storing entry w: only that place changes. */
  lemma PteSpaces(s: State, r: State, d: nat, i: nat, w: Word)
    requires Inv(s) && Shape(r) && IsTable(s, d) && i < WORDS && OneEntry(s, r, d, i, w)
    requires Dir(s, d).frame < |s.phys| && r.phys == SetPte(s, d, i, w).phys
    requires w.p ==> w.frame != Dir(s, d).frame
    ensures Spaces(r) == if w.p then Spaces(s)[(d, i) := Show(s, w.frame)] else Spaces(s) - {(d, i)}
  {
    forall g: nat | Seen(s, g) && LOW <= g < |s.phys| ensures g != Dir(s, d).frame { TableUnseen(s, d, g); }
    SpacesEntry(s, r, d, i, w);
  }

  lemma EnterPageStep(s: State, d: nat, i: nat, f: Pfn)
    requires Inv(s) && IsTable(s, d) && i < WORDS && !Pte(s, d, i).p && f in s.held
    ensures LOW <= f < |s.phys| && Dir(s, d).frame < |s.phys|
    ensures var r := EnterPage(s, d, i, f);
            Inv(r) && OneEntry(s, r, d, i, Seven(f)) && Spaces(r) == Spaces(s)[(d, i) := Private(s.phys[f])]
  {
    EnterPageGraph(s, d, i, f);
    HeldAlone(s, f);
    MoveHeld(s, f, Entry(d, i));
    PteSpaces(s, EnterPage(s, d, i, f), d, i, Seven(f));
  }

  lemma TableUnseen(s: State, d: nat, g: nat)
    requires Inv(s) && IsTable(s, d) && Seen(s, g)
    ensures g != Dir(s, d).frame
  {
    TableAlone(s, d);
  }

  lemma MoveHeld(s: State, f: nat, v: User)
    requires Inv(s) && f in s.held && !Live(s, v) && (v.Entry? || v.Table? ==> 16 <= v.d < 1024)
    ensures Sound((GraphOf(s) - {Held(f)})[v := Ref(f, true)], s.mm, s.lo, |s.phys|)
  {
    assert Live(s, Held(f)) && GraphOf(s)[Held(f)] == Ref(f, true);
    MoveRef(GraphOf(s), s.mm, s.lo, |s.phys|, Held(f), v);
  }

  /** Enter one more read-only mapping of a frame. */
  function EnterReader(s: State, d: nat, i: nat, w: Word): (r: State)
    requires Shape(s) && d < WORDS && i < WORDS
    ensures Shape(r)
  {
    SetCount(SetPte(s, d, i, w), w.frame, (Count(s, w.frame) + 1) % 256)
  }

  /** Entry (e, i) already maps the frame, read-only, at the same place of another task. */
  ghost predicate Reader(s: State, e: nat, d: nat, i: nat, frame: nat)
    requires Shape(s)
  {
    && IsPte(s, e, i) && Pte(s, e, i).frame == frame && !Pte(s, e, i).rw && e % 16 == d % 16
  }

  lemma JoinReader(s: State, e: nat, d: nat, i: nat, f: nat)
    requires Inv(s) && LOW <= f && 16 <= d < WORDS && Reader(s, e, d, i, f) && !Live(s, Entry(d, i))
    ensures Managed(s.lo, |s.phys|, f) && Count(s, f) < 63
    ensures Sound(GraphOf(s)[Entry(d, i) := Ref(f, false)], SetCount(s, f, Count(s, f) + 1).mm, s.lo, |s.phys|)
  {
    var g := GraphOf(s);
    var u := Entry(e, i);
    assert u in g && g[u] == Ref(f, false);
    var v := Entry(d, i);
    forall w | w in g && g[w].frame == f ensures SamePlace(v, w) && !g[w].rw {
      assert w != u ==> MayShare(g, u, w);
    }
    AddRef(g, s.mm, s.lo, |s.phys|, v, Ref(f, false));
  }

  lemma JoinLow(s: State, d: nat, i: nat, f: nat)
    requires Inv(s) && f < LOW && 16 <= d < WORDS && !Live(s, Entry(d, i))
    ensures Sound(GraphOf(s)[Entry(d, i) := Ref(f, false)], s.mm, s.lo, |s.phys|)
  {
    AddRef(GraphOf(s), s.mm, s.lo, |s.phys|, Entry(d, i), Ref(f, false));
  }

  lemma JoinSound(s: State, d: nat, i: nat, f: nat, e: nat)
    requires Inv(s) && 16 <= d < WORDS && !Live(s, Entry(d, i)) && (LOW <= f ==> Reader(s, e, d, i, f))
    ensures Count(s, f) < 63
    ensures Sound(GraphOf(s)[Entry(d, i) := Ref(f, false)], SetCount(s, f, (Count(s, f) + 1) % 256).mm, s.lo, |s.phys|)
  {
    hide Sound, Live, BootTables;
    var mm := SetCount(s, f, (Count(s, f) + 1) % 256).mm;
    if LOW <= f {
      JoinReader(s, e, d, i, f);
      assert mm == SetCount(s, f, Count(s, f) + 1).mm;
    } else {
      assert mm == s.mm;
      JoinLow(s, d, i, f);
    }
  }

  lemma EnterReaderInv(s: State, d: nat, i: nat, w: Word, e: nat)
    requires Inv(s) && IsTable(s, d) && i < WORDS && !Pte(s, d, i).p
    requires w.p && !w.rw && (LOW <= w.frame ==> Reader(s, e, d, i, w.frame))
    ensures Dir(s, d).frame < |s.phys| && Count(s, w.frame) < 63
    ensures Inv(EnterReader(s, d, i, w)) && OneEntry(s, EnterReader(s, d, i, w), d, i, w)
  {
    PokePte(s, d, i, w);
    var r := EnterReader(s, d, i, w);
    GraphEntry(s, r, d, i, w);
    JoinSound(s, d, i, w.frame, e);
    assert r.mm == SetCount(s, w.frame, (Count(s, w.frame) + 1) % 256).mm;
  }

  lemma EnterReaderStep(s: State, d: nat, i: nat, w: Word, e: nat)
    requires Inv(s) && IsTable(s, d) && i < WORDS && !Pte(s, d, i).p
    requires w.p && !w.rw && (LOW <= w.frame ==> Reader(s, e, d, i, w.frame))
    ensures Dir(s, d).frame < |s.phys| && Count(s, w.frame) < 63
    ensures var r := EnterReader(s, d, i, w);
            Inv(r) && OneEntry(s, r, d, i, w) && Spaces(r) == Spaces(s)[(d, i) := Show(s, w.frame)]
  {
    EnterReaderInv(s, d, i, w, e);
    TableAlone(s, d);
    PteSpaces(s, EnterReader(s, d, i, w), d, i, w);
  }

  /** Remove a mapping: free_page on its frame, then the entry is cleared. */
  function LeavePage(s: State, d: nat, i: nat): (r: State)
    requires Shape(s) && d < WORDS && i < WORDS
    ensures Shape(r)
  {
    var f := Pte(s, d, i).frame;
    SetPte(SetCount(s, f, (Count(s, f) + 255) % 256), d, i, ZERO)
  }

  lemma EntryRef(s: State, d: nat, i: nat)
    requires Inv(s) && IsPte(s, d, i)
    ensures Entry(d, i) in GraphOf(s) && GraphOf(s)[Entry(d, i)].frame == Pte(s, d, i).frame
    ensures Sound(GraphOf(s), s.mm, s.lo, |s.phys|) && |s.mm| == PAGING_PAGES && Pte(s, d, i).frame < LOW + PAGING_PAGES
  {
    assert Live(s, Entry(d, i));
    PagePlaced(s, d, i);
  }

  lemma LeaveRef(s: State, d: nat, i: nat)
    requires Shape(s) && Inv(s) && IsPte(s, d, i)
    ensures var f := Pte(s, d, i).frame;
            && (LOW <= f ==> Count(s, f) > 0)
            && Sound(GraphOf(s) - {Entry(d, i)}, SetCount(s, f, (Count(s, f) + 255) % 256).mm, s.lo, |s.phys|)
  {
    hide Inv, Sound, GraphOf;
    EntryRef(s, d, i);
    DropRef(GraphOf(s), s.mm, s.lo, |s.phys|, Entry(d, i));
    LessOne(s, Pte(s, d, i).frame);
  }

  lemma LessOne(s: State, f: nat)
    requires Shape(s) && |s.mm| == PAGING_PAGES && f < LOW + PAGING_PAGES && (LOW <= f ==> s.mm[f - LOW] > 0)
    ensures SetCount(s, f, (Count(s, f) + 255) % 256).mm == if f < LOW then s.mm else s.mm[f - LOW := s.mm[f - LOW] - 1]
  {
  }

  lemma LeavePageStep(s: State, d: nat, i: nat)
    requires Inv(s) && IsPte(s, d, i)
    ensures Dir(s, d).frame < |s.phys| && (LOW <= Pte(s, d, i).frame ==> Count(s, Pte(s, d, i).frame) > 0)
    ensures var r := LeavePage(s, d, i);
            Inv(r) && OneEntry(s, r, d, i, ZERO) && Spaces(r) == Spaces(s) - {(d, i)}
  {
    PokePte(s, d, i, ZERO);
    var r := LeavePage(s, d, i);
    GraphEntry(s, r, d, i, ZERO);
    LeaveRef(s, d, i);
    PteSpaces(s, r, d, i, ZERO);
  }

  /** Change the flags of an entry; it may become writable when it is the only user of its frame. */
  lemma RelabelStep(s: State, d: nat, i: nat, w: Word)
    requires Inv(s) && IsPte(s, d, i) && w.p && w.frame == Pte(s, d, i).frame
    requires w.rw && !Pte(s, d, i).rw ==> LOW <= w.frame && Count(s, w.frame) == 1
    ensures Dir(s, d).frame < |s.phys|
    ensures var r := SetPte(s, d, i, w); Inv(r) && OneEntry(s, r, d, i, w) && Spaces(r) == Spaces(s)
  {
    PokePte(s, d, i, w);
    var r := SetPte(s, d, i, w);
    GraphEntry(s, r, d, i, w);
    RelabelSound(s, d, i, w.rw);
    RelabelSpaces(s, d, i, w);
  }

  lemma RelabelSpaces(s: State, d: nat, i: nat, w: Word)
    requires Inv(s) && IsPte(s, d, i) && w.p && w.frame == Pte(s, d, i).frame
    requires Dir(s, d).frame < |s.phys| && OneEntry(s, SetPte(s, d, i, w), d, i, w)
    ensures Spaces(SetPte(s, d, i, w)) == Spaces(s)
  {
    TableAlone(s, d);
    PteSpaces(s, SetPte(s, d, i, w), d, i, w);
    assert (d, i) in Spaces(s);
  }

  lemma RelabelSound(s: State, d: nat, i: nat, rw: bool)
    requires Inv(s) && IsPte(s, d, i)
    requires rw && !Pte(s, d, i).rw ==> LOW <= Pte(s, d, i).frame && Count(s, Pte(s, d, i).frame) == 1
    ensures Sound(GraphOf(s)[Entry(d, i) := Ref(Pte(s, d, i).frame, rw)], s.mm, s.lo, |s.phys|)
  {
    assert Entry(d, i) in GraphOf(s);
    PagePlaced(s, d, i);
    Relabel(GraphOf(s), s.mm, s.lo, |s.phys|, Entry(d, i), rw);
  }

  /** A store through a writable entry reaches that mapping alone, and no page table. */
  lemma StoreStep(s: State, d: nat, i: nat, k: nat, w: Word)
    requires Inv(s) && IsPte(s, d, i) && Pte(s, d, i).rw && k < WORDS
    ensures LOW <= Pte(s, d, i).frame < |s.phys|
    ensures var f := Pte(s, d, i).frame; var r := Poke(s, f, k, w);
            Inv(r) && SameTables(s, r) && Spaces(r) == Spaces(s)[(d, i) := Private(s.phys[f][k := w])]
  {
    PagePlaced(s, d, i);
    PageAlone(s, d, i);
    var f := Pte(s, d, i).frame;
    var r := Poke(s, f, k, w);
    assert SameTables(s, r);
    GraphSame(s, r);
    StoreSpaces(s, r, d, i);
  }

  lemma StoreSpaces(s: State, r: State, d: nat, i: nat)
    requires Shape(s) && Shape(r) && SameTables(s, r) && IsPte(s, d, i) && LOW <= Pte(s, d, i).frame < |s.phys|
    requires forall e: nat, j: nat | IsPte(s, e, j) && Pte(s, e, j).frame == Pte(s, d, i).frame :: e == d && j == i
    requires forall f: nat | f < |s.phys| && f != Pte(s, d, i).frame :: r.phys[f] == s.phys[f]
    ensures Spaces(r) == Spaces(s)[(d, i) := Private(r.phys[Pte(s, d, i).frame])]
  {
    var a := Spaces(s)[(d, i) := Private(r.phys[Pte(s, d, i).frame])];
    forall x | x in a ensures IsPte(r, x.0, x.1) && a[x] == Show(r, Pte(r, x.0, x.1).frame) {
      assert IsPte(s, x.0, x.1);
      assert Pte(r, x.0, x.1) == Pte(s, x.0, x.1);
    }
    SameSpaces(r, a);
  }
}
