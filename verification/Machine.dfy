/** Physical memory with the page directory and page tables in it.

    There is one memory: an array of page frames of 1024 words.  A word is read through its bit fields,
    so the same words serve as data, as page-table entries and, in frame 0, as the page directory. */
module Machine {
  import opened Basics
  import opened Frames

  const WORDS: nat := 1024

  type Pfn = n: nat | n < 0x100000
  type Rest = n: nat | n < 256

  /** Bits 31-12, the eight bits the kernel never looks at, and bits 6 (dirty), 2 (user), 1 (r/w), 0 (present). */
  datatype Word = Word(frame: Pfn, rest: Rest, dirty: bool, user: bool, rw: bool, p: bool)
  type Page = seq<Word>

  const ZERO := Word(0, 0, false, false, false, false)

  function ZeroPage(): (z: Page)
    ensures |z| == WORDS && forall i | 0 <= i < WORDS :: z[i] == ZERO
  {
    seq(WORDS, _ => ZERO)
  }

  /** The word frame | 7. */
  function Seven(f: Pfn): Word { Word(f, 0, false, true, true, true) }

  /** mm is mem_map; lo is the first frame mem_init hands out; held are the frames kernel code owns. */
  datatype State = State(mm: seq<Byte>, phys: seq<Page>, lo: nat, held: set<nat>)

  ghost predicate Shape(s: State) {
    && |s.mm| == PAGING_PAGES
    && LOW <= s.lo <= |s.phys| <= LOW + PAGING_PAGES
    && (forall f | 0 <= f < |s.phys| :: |s.phys[f]| == WORDS)
  }

  /** The word at index i of frame f; memory beyond the last frame reads as zero. */
  function At(s: State, f: nat, i: nat): Word
    requires Shape(s) && i < WORDS
  {
    if f < |s.phys| then s.phys[f][i] else ZERO
  }

  /** Entry d of the page directory, which is frame 0. */
  function Dir(s: State, d: nat): Word
    requires Shape(s) && d < WORDS
  {
    At(s, 0, d)
  }

  function Pte(s: State, d: nat, i: nat): Word
    requires Shape(s) && d < WORDS && i < WORDS
  {
    At(s, Dir(s, d).frame, i)
  }

  /** Directory entries of tasks other than task 0 that name a page table, and the entries in it. */
  predicate IsTable(s: State, d: nat)
    requires Shape(s)
  {
    16 <= d < WORDS && Dir(s, d).p
  }

  predicate IsPte(s: State, d: nat, i: nat)
    requires Shape(s)
  {
    IsTable(s, d) && i < WORDS && Pte(s, d, i).p
  }

  predicate Live(s: State, u: User)
    requires Shape(s)
  {
    match u
    case Entry(d, i) => IsPte(s, d, i)
    case Table(d) => IsTable(s, d)
    case Held(f) => f in s.held
  }

  function RefOf(s: State, u: User): Ref
    requires Shape(s) && Live(s, u)
  {
    match u
    case Entry(d, i) => Ref(Pte(s, d, i).frame, Pte(s, d, i).rw)
    case Table(d) => Ref(Dir(s, d).frame, true)
    case Held(f) => Ref(f, true)
  }

  ghost function Candidates(s: State): (c: set<User>)
    ensures forall d: nat, i: nat | d < WORDS && i < WORDS :: Entry(d, i) in c
    ensures forall d: nat | d < WORDS :: Table(d) in c
    ensures forall f: nat | f in s.held :: Held(f) in c
  {
    (set d: nat, i: nat | d < WORDS && i < WORDS :: Entry(d, i))
    + (set d: nat | d < WORDS :: Table(d)) + (set f | f in s.held :: Held(f))
  }

  /** Every reference of the machine. */
  ghost function GraphOf(s: State): (g: Graph)
    requires Shape(s)
    ensures forall u :: u in g <==> Live(s, u)
    ensures forall u | u in g :: g[u] == RefOf(s, u)
  {
    map u | u in Candidates(s) && Live(s, u) :: RefOf(s, u)
  }

  lemma SameGraph(s: State, g: Graph)
    requires Shape(s)
    requires forall u :: u in g <==> Live(s, u)
    requires forall u | u in g :: g[u] == RefOf(s, u)
    ensures GraphOf(s) == g
  {
    var h := GraphOf(s);
    assert h.Keys == g.Keys by {
      forall u ensures u in h <==> u in g {}
    }
  }

  /** The boot page tables lie in low memory, and their first 640 kB map low memory. */
  ghost predicate BootTables(s: State)
    requires Shape(s)
  {
    && (forall d: nat | d < 16 && Dir(s, d).p :: 1 <= Dir(s, d).frame < LOW)
    && (Dir(s, 0).p ==> forall i: nat | i < 160 && Pte(s, 0, i).p :: Pte(s, 0, i).frame < LOW)
  }

  ghost predicate Inv(s: State) {
    Shape(s) && BootTables(s) && Sound(GraphOf(s), s.mm, s.lo, |s.phys|)
  }

  // ---- a task's own memory -------------------------------------------------------------------

  /** What a mapped page shows: a page of low memory, shared read-only with the kernel, or contents
      that belong to this mapping alone. */
  datatype View = LowPage(frame: nat) | Private(page: Page)
  type Space = map<(nat, nat), View>

  function Show(s: State, f: nat): View
    requires Shape(s)
  {
    if f < LOW then LowPage(f) else Private(if f < |s.phys| then s.phys[f] else ZeroPage())
  }

  ghost function AllPlaces(): (ps: set<(nat, nat)>)
    ensures forall d: nat, i: nat :: (d, i) in ps <==> 16 <= d < WORDS && i < WORDS
  {
    set d: nat, i: nat | 16 <= d < WORDS && i < WORDS :: (d, i)
  }

  /** The memory of every task but task 0: what each mapped page holds. */
  ghost function Spaces(s: State): (a: Space)
    requires Shape(s)
    ensures forall x :: x in a <==> IsPte(s, x.0, x.1)
    ensures forall x | x in a :: IsPte(s, x.0, x.1) && a[x] == Show(s, Pte(s, x.0, x.1).frame)
  {
    map x | x in AllPlaces() && IsPte(s, x.0, x.1) :: Show(s, Pte(s, x.0, x.1).frame)
  }

  lemma SameSpaces(s: State, a: Space)
    requires Shape(s)
    requires forall x :: x in a <==> IsPte(s, x.0, x.1)
    requires forall x | x in a :: IsPte(s, x.0, x.1) && a[x] == Show(s, Pte(s, x.0, x.1).frame)
    ensures Spaces(s) == a
  {
    var b := Spaces(s);
    assert b.Keys == a.Keys by {
      forall x ensures x in b <==> x in a {}
    }
  }

  /** mem_map of a frame; low memory is not counted. */
  function Count(s: State, f: nat): Byte
    requires Shape(s)
  {
    if LOW <= f < LOW + PAGING_PAGES then s.mm[f - LOW] else 0
  }

  // ---- where tables and pages are ------------------------------------------------------------

  /** A page table is a managed frame that nothing else names. */
  lemma TableAlone(s: State, d: nat)
    requires Inv(s) && IsTable(s, d)
    ensures Managed(s.lo, |s.phys|, Dir(s, d).frame)
    ensures forall e: nat | IsTable(s, e) && e != d :: Dir(s, e).frame != Dir(s, d).frame
    ensures forall e: nat, i: nat | IsPte(s, e, i) :: Pte(s, e, i).frame != Dir(s, d).frame
    ensures Dir(s, d).frame !in s.held
  {
    var g := GraphOf(s);
    var t := Table(d);
    assert Live(s, t) && g[t] == RefOf(s, t);
    SoleUser(g, t);
    forall u | Live(s, u) && u != t ensures RefOf(s, u).frame != Dir(s, d).frame {
      assert u in g && u !in UsersOf(g, g[t].frame);
    }
    forall e: nat | IsTable(s, e) && e != d ensures Dir(s, e).frame != Dir(s, d).frame {
      assert Live(s, Table(e));
    }
    forall e: nat, i: nat | IsPte(s, e, i) ensures Pte(s, e, i).frame != Dir(s, d).frame {
      assert Live(s, Entry(e, i));
    }
    assert Dir(s, d).frame in s.held ==> Live(s, Held(Dir(s, d).frame));
  }

  lemma HeldAlone(s: State, f: nat)
    requires Inv(s) && f in s.held
    ensures Managed(s.lo, |s.phys|, f) && Count(s, f) == 1
    ensures forall e: nat | IsTable(s, e) :: Dir(s, e).frame != f
    ensures forall e: nat, i: nat | IsPte(s, e, i) :: Pte(s, e, i).frame != f
  {
    var g := GraphOf(s);
    var t := Held(f);
    assert Live(s, t) && g[t] == RefOf(s, t);
    SoleUser(g, t);
    assert s.mm[f - LOW] as int == |UsersOf(g, f - LOW + LOW)|;
    forall u | Live(s, u) && u != t ensures RefOf(s, u).frame != f {
      assert u in g && u !in UsersOf(g, f);
    }
    forall e: nat | IsTable(s, e) ensures Dir(s, e).frame != f {
      assert Live(s, Table(e));
    }
    forall e: nat, i: nat | IsPte(s, e, i) ensures Pte(s, e, i).frame != f {
      assert Live(s, Entry(e, i));
    }
  }

  /** A mapped page is low memory, read-only, or a managed frame that is no page table. */
  lemma PagePlaced(s: State, d: nat, i: nat)
    requires Inv(s) && IsPte(s, d, i)
    ensures var w := Pte(s, d, i);
            if w.frame < LOW then !w.rw
            else Managed(s.lo, |s.phys|, w.frame) && Count(s, w.frame) > 0
    ensures forall e: nat | IsTable(s, e) :: Dir(s, e).frame != Pte(s, d, i).frame
  {
    var g := GraphOf(s);
    var u := Entry(d, i);
    assert Live(s, u) && g[u] == RefOf(s, u);
    var f := g[u].frame;
    if LOW <= f {
      assert s.mm[f - LOW] as int == |UsersOf(g, f - LOW + LOW)|;
      assert u in UsersOf(g, f);
    }
    forall e: nat | IsTable(s, e) ensures Dir(s, e).frame != f {
      TableAlone(s, e);
    }
  }

  /** A page whose count is 1, or that is mapped writable, is mapped once. */
  lemma PageAlone(s: State, d: nat, i: nat)
    requires Inv(s) && IsPte(s, d, i) && LOW <= Pte(s, d, i).frame
    requires Pte(s, d, i).rw || Count(s, Pte(s, d, i).frame) == 1
    ensures Count(s, Pte(s, d, i).frame) == 1
    ensures forall e: nat, j: nat | IsPte(s, e, j) && Pte(s, e, j).frame == Pte(s, d, i).frame :: e == d && j == i
    ensures Pte(s, d, i).frame !in s.held
  {
    var g := GraphOf(s);
    var u := Entry(d, i);
    assert Live(s, u) && g[u] == RefOf(s, u);
    var f := g[u].frame;
    assert Managed(s.lo, |s.phys|, f);
    assert s.mm[f - LOW] as int == |UsersOf(g, f - LOW + LOW)|;
    if g[u].rw { SoleUser(g, u); } else { CountOne(g, u); }
    forall v | Live(s, v) && v != u ensures RefOf(s, v).frame != f {
      assert v in g && v !in UsersOf(g, f);
    }
    forall e: nat, j: nat | IsPte(s, e, j) && Pte(s, e, j).frame == f ensures e == d && j == i {
      assert Live(s, Entry(e, j));
    }
    assert f in s.held ==> Live(s, Held(f));
  }
}
