/** Stores of the kernel into a user's page (put_fs_byte and its like): in kernel mode the processor does not look at
    the write bit, so what write_verify has made sure of must still be true when the store comes. */
module MachineStores {
  import opened Frames
  import opened Machine
  import opened MachineSteps
  import opened MachineFaults

  /** Word w at offset k of a mapped page, whatever its write bit says; the dirty bit is set. */
  function PutThrough(s: State, d: nat, i: nat, k: nat, w: Word): (r: State)
    requires Shape(s) && d < WORDS && i < WORDS && k < WORDS
    ensures Shape(r)
  {
    var e := Pte(s, d, i);
    Poke(SetPte(s, d, i, e.(dirty := true)), e.frame, k, w)
  }

  /** Everything that maps frame f shows page p, and nothing else is changed. */
  ghost predicate AllSee(s: State, r: State, f: nat, p: Page)
    requires Shape(s) && Shape(r)
  {
    && Spaces(r).Keys == Spaces(s).Keys
    && forall x | x in Spaces(s) :: Spaces(r)[x] == if Pte(s, x.0, x.1).frame == f then Private(p) else Spaces(s)[x]
  }

  /** The dirty bit is set first. */
  lemma Dirtied(s: State, d: nat, i: nat)
    requires Shape(s) && Inv(s) && IsPte(s, d, i) && LOW <= Pte(s, d, i).frame
    ensures var e := Pte(s, d, i); var s1 := SetPte(s, d, i, e.(dirty := true));
            && e.frame < |s.phys| && Inv(s1) && IsPte(s1, d, i) && OneEntry(s, s1, d, i, e.(dirty := true))
            && Pte(s1, d, i).frame == e.frame && Spaces(s1) == Spaces(s) && s1.phys[e.frame] == s.phys[e.frame]
  {
    var e := Pte(s, d, i);
    PagePlaced(s, d, i);
    assert Dir(s, d).frame != e.frame;
    RelabelStep(s, d, i, e.(dirty := true));
    hide Inv;
  }

  /** Then the word goes into the frame, which is no page table. */
  lemma Poked(s: State, d: nat, i: nat, k: nat, w: Word)
    requires Shape(s) && Inv(s) && IsPte(s, d, i) && LOW <= Pte(s, d, i).frame && k < WORDS
    ensures var f := Pte(s, d, i).frame; var r := Poke(s, f, k, w);
            && f < |s.phys| && |s.phys[f]| == WORDS && Inv(r) && SameTables(s, r) && r.phys == s.phys[f := s.phys[f][k := w]]
  {
    PagePlaced(s, d, i);
    var r := Poke(s, Pte(s, d, i).frame, k, w);
    assert SameTables(s, r);
    GraphSame(s, r);
  }

  /** The store is seen by every task that maps the frame. */
  lemma PutThroughStep(s: State, d: nat, i: nat, k: nat, w: Word)
    requires Shape(s) && Inv(s) && IsPte(s, d, i) && LOW <= Pte(s, d, i).frame && k < WORDS
    ensures var f := Pte(s, d, i).frame; f < |s.phys| && |s.phys[f]| == WORDS
    ensures var f := Pte(s, d, i).frame; var r := PutThrough(s, d, i, k, w); Inv(r) && AllSee(s, r, f, s.phys[f][k := w])
  {
    hide Inv, Poke, SetPte, SameTables, OneEntry;
    var e := Pte(s, d, i);
    Dirtied(s, d, i);
    var s1 := SetPte(s, d, i, e.(dirty := true));
    Poked(s1, d, i, k, w);
    var r := Poke(s1, e.frame, k, w);
    forall x | x in Spaces(s)
      ensures x in Spaces(r) && Spaces(r)[x] == if Pte(s, x.0, x.1).frame == e.frame then Private(s.phys[e.frame][k := w]) else Spaces(s)[x]
    {
      SeenAfter(s, s1, r, d, i, x);
    }
    forall x | x in Spaces(r) ensures x in Spaces(s) { SeenBefore(s1, r, x); }
    assert Spaces(r).Keys == Spaces(s).Keys;
  }

  lemma SeenBefore(s: State, r: State, x: (nat, nat))
    requires Shape(s) && Shape(r) && SameTables(s, r) && x in Spaces(r)
    ensures x in Spaces(s)
  {
    assert IsPte(r, x.0, x.1) && IsPte(s, x.0, x.1);
  }

  lemma SeenAfter(s: State, s1: State, r: State, d: nat, i: nat, x: (nat, nat))
    requires Shape(s) && Shape(s1) && Shape(r) && IsPte(s, d, i) && x in Spaces(s) && Spaces(s1) == Spaces(s)
    requires LOW <= Pte(s, d, i).frame < |s1.phys| && OneEntry(s, s1, d, i, Pte(s, d, i).(dirty := true)) && SameTables(s1, r)
    requires |r.phys| == |s1.phys| && forall f: nat | f < |s1.phys| && f != Pte(s, d, i).frame :: r.phys[f] == s1.phys[f]
    ensures x in Spaces(r)
    ensures Spaces(r)[x] == if Pte(s, x.0, x.1).frame == Pte(s, d, i).frame then Private(r.phys[Pte(s, d, i).frame]) else Spaces(s)[x]
  {
    assert IsPte(s, x.0, x.1) && x in Spaces(s1) && IsPte(s1, x.0, x.1);
    assert Pte(r, x.0, x.1) == Pte(s1, x.0, x.1) && Pte(s1, x.0, x.1).frame == Pte(s, x.0, x.1).frame;
    assert IsPte(r, x.0, x.1);
  }

  /** A shared frame is mapped at another place. */
  lemma Sharer(s: State, d: nat, i: nat) returns (x: (nat, nat))
    requires Shape(s) && Inv(s) && IsPte(s, d, i) && LOW <= Pte(s, d, i).frame && Count(s, Pte(s, d, i).frame) != 1
    ensures x != (d, i) && IsPte(s, x.0, x.1) && Pte(s, x.0, x.1).frame == Pte(s, d, i).frame
  {
    var g, u := GraphOf(s), Entry(d, i);
    assert Live(s, u) && g[u] == RefOf(s, u);
    var f := g[u].frame;
    assert Managed(s.lo, |s.phys|, f);
    assert s.mm[f - LOW] as int == |UsersOf(g, f - LOW + LOW)|;
    assert u in UsersOf(g, f);
    var others := UsersOf(g, f) - {u};
    assert |others| == |UsersOf(g, f)| - 1;
    var v :| v in others;
    assert MayShare(g, v, u) && Live(s, v) && g[v] == RefOf(s, v);
    x := (v.d, v.i);
  }

  /** The store is the task's own exactly when no other task maps the frame, or it changes nothing. */
  lemma PutPrivate(s: State, d: nat, i: nat, k: nat, w: Word)
    requires Shape(s) && Inv(s) && IsPte(s, d, i) && LOW <= Pte(s, d, i).frame && k < WORDS
    ensures var f := Pte(s, d, i).frame;
            && f < |s.phys| && |s.phys[f]| == WORDS && Inv(PutThrough(s, d, i, k, w))
            && (Spaces(PutThrough(s, d, i, k, w)) == Spaces(s)[(d, i) := Private(s.phys[f][k := w])]
                <==> Count(s, f) == 1 || s.phys[f][k] == w)
    ensures Pte(s, d, i).rw ==> Count(s, Pte(s, d, i).frame) == 1
  {
    hide PutThrough, Inv, Pte;
    var (f, r) := (Pte(s, d, i).frame, PutThrough(s, d, i, k, w));
    PutThroughStep(s, d, i, k, w);
    if Pte(s, d, i).rw || Count(s, f) == 1 { PageAlone(s, d, i); }
    if Count(s, f) == 1 || s.phys[f][k] == w {
      OnlyThere(s, r, d, i, k, w);
    } else {
      var x := Sharer(s, d, i);
      SeenThere(s, r, d, i, k, w, x);
    }
  }

  lemma OnlyThere(s: State, r: State, d: nat, i: nat, k: nat, w: Word)
    requires Shape(s) && Shape(r) && IsPte(s, d, i) && LOW <= Pte(s, d, i).frame < |s.phys| && k < WORDS
    requires AllSee(s, r, Pte(s, d, i).frame, s.phys[Pte(s, d, i).frame][k := w])
    requires s.phys[Pte(s, d, i).frame][k] == w
             || forall e: nat, j: nat | IsPte(s, e, j) && Pte(s, e, j).frame == Pte(s, d, i).frame :: e == d && j == i
    ensures Spaces(r) == Spaces(s)[(d, i) := Private(s.phys[Pte(s, d, i).frame][k := w])]
  {
    var p := s.phys[Pte(s, d, i).frame][k := w];
    assert s.phys[Pte(s, d, i).frame][k] == w ==> p == s.phys[Pte(s, d, i).frame];
    assert (d, i) in Spaces(s);
    forall x | x in Spaces(s) && x != (d, i) ensures Spaces(r)[x] == Spaces(s)[x] {
      assert x == (x.0, x.1) && IsPte(s, x.0, x.1);
    }
    SameMaps(Spaces(r), Spaces(s), (d, i), Private(p));
  }

  lemma SameMaps(b: Space, a: Space, y: (nat, nat), v: View)
    requires b.Keys == a.Keys && y in a && b[y] == v && forall x | x in a && x != y :: b[x] == a[x]
    ensures b == a[y := v]
  {
    assert b.Keys == a[y := v].Keys;
  }

  lemma SeenThere(s: State, r: State, d: nat, i: nat, k: nat, w: Word, x: (nat, nat))
    requires Shape(s) && Shape(r) && IsPte(s, d, i) && LOW <= Pte(s, d, i).frame < |s.phys| && k < WORDS
    requires AllSee(s, r, Pte(s, d, i).frame, s.phys[Pte(s, d, i).frame][k := w]) && s.phys[Pte(s, d, i).frame][k] != w
    requires x != (d, i) && IsPte(s, x.0, x.1) && Pte(s, x.0, x.1).frame == Pte(s, d, i).frame
    ensures Spaces(r) != Spaces(s)[(d, i) := Private(s.phys[Pte(s, d, i).frame][k := w])]
  {
    var p := s.phys[Pte(s, d, i).frame];
    assert x in Spaces(s) && Spaces(s)[x] == Private(p) && Spaces(r)[x] == Private(p[k := w]);
    assert p[k := w][k] != p[k];
  }

  /** What goes wrong: write_verify has given the task its own page, it sleeps, another task with the same executable
      finds the page missing and takes it over while it is clean, and the store shows up in that task's page too. */
  lemma SharedMeanwhile(s: State, pd: nat, cd: nat, i: nat, k: nat, w: Word)
    requires Shape(s) && Inv(s) && IsPte(s, pd, i) && Pte(s, pd, i).rw && !Pte(s, pd, i).dirty && k < WORDS
    requires 16 <= cd < WORDS && cd != pd && pd % 16 == cd % 16 && Dir(s, cd).p && !IsPte(s, cd, i)
    ensures var (r, o) := TryToShare(s, pd, cd, i);
            && o == Shared && IsPte(r, pd, i) && IsPte(r, cd, i) && LOW <= Pte(r, pd, i).frame == Pte(r, cd, i).frame < |r.phys|
            && |r.phys[Pte(r, pd, i).frame]| == WORDS && (cd, i) in Spaces(PutThrough(r, pd, i, k, w))
            && Spaces(PutThrough(r, pd, i, k, w))[(cd, i)] == Private(r.phys[Pte(r, pd, i).frame][k := w])
  {
    hide PutThrough;
    PagePlaced(s, pd, i);
    var (r, o) := TryToShare(s, pd, cd, i);
    TryToShareStep(s, pd, cd, i);
    SharedFrame(s, pd, cd, i);
    PutThroughStep(r, pd, i, k, w);
    assert (cd, i) in Spaces(r);
  }

  lemma SharedFrame(s: State, pd: nat, cd: nat, i: nat)
    requires Shape(s) && Inv(s) && IsPte(s, pd, i) && LOW <= Pte(s, pd, i).frame && IsTable(s, cd) && !Pte(s, cd, i).p && pd != cd
    ensures var r := EnterShared(s, pd, cd, i);
            IsPte(r, pd, i) && IsPte(r, cd, i) && Pte(r, pd, i).frame == Pte(r, cd, i).frame == Pte(s, pd, i).frame
  {
    var v := Pte(s, pd, i).(rw := false);
    RelabelStep(s, pd, i, v);
    var s1 := SetPte(s, pd, i, v);
    PokePte(s1, cd, i, v);
  }
}
