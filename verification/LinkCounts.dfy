/** i_nlinks over interleavings of creating, linking, unlinking, mkdir and rmdir (fs/namei.cc): it is the number of
    directory entries naming the inode, but for what the calls asleep in the middle still owe.

    A call is as many steps as it has parts between sleeps after which it changes entries or counts; what it looked
    up before (the entry, the inode number) are parameters of the later steps. */
module LinkCounts {
  import opened Basics

  /** An entry of a directory, by its place there; "." and ".." are apart. */
  datatype Place = Place(dir: nat, slot: nat)

  /** What a task asleep in a call has still to do: enter its new inode or directory, take back a link whose entry
      it has cleared, take back both links of a removed directory, add the link whose entry it has stored, free the
      inode whose blocks it is freeing. */
  datatype Debt =
    | New(ino: nat) | NewDir(ino: nat) | Cleared(ino: nat) | Gone(ino: nat) | Stored(ino: nat) | Dying(ino: nat)

  /** entries: what each entry in use names.  up: the directories, with what their ".." names; the "." of a
      directory names itself.  nlinks: the byte i_nlinks of every inode marked used.  held: the references calls and open
      files have taken with iget, but for the one that goes with each debt; i_count is the sum of both. */
  datatype State = State(
    entries: map<Place, nat>, up: map<nat, nat>, nlinks: map<nat, nat>, debts: multiset<Debt>, held: multiset<nat>)

  function Named(entries: map<Place, nat>, ino: nat): set<Place> {
    set k | k in entries && entries[k] == ino
  }

  function Below(up: map<nat, nat>, ino: nat): set<nat> {
    set d | d in up && up[d] == ino
  }

  /** The entries naming an inode: in use, as "." and as "..". */
  function Count(s: State, ino: nat): nat {
    |Named(s.entries, ino)| + (if ino in s.up then 1 else 0) + |Below(s.up, ino)|
  }

  lemma NamedAdd(entries: map<Place, nat>, k: Place, v: nat, ino: nat)
    requires k !in entries
    ensures |Named(entries[k := v], ino)| == |Named(entries, ino)| + if v == ino then 1 else 0
  {
    if v == ino {
      assert Named(entries[k := v], ino) == Named(entries, ino) + {k};
    } else {
      assert Named(entries[k := v], ino) == Named(entries, ino);
    }
  }

  lemma NamedRemove(entries: map<Place, nat>, k: Place, ino: nat)
    requires k in entries
    ensures |Named(entries - {k}, ino)| == |Named(entries, ino)| - if entries[k] == ino then 1 else 0
    ensures entries[k] == ino ==> |Named(entries, ino)| > 0
  {
    NamedAdd(entries - {k}, k, entries[k], ino);
    assert (entries - {k})[k := entries[k]] == entries;
  }

  lemma BelowAdd(up: map<nat, nat>, d: nat, p: nat, ino: nat)
    requires d !in up
    ensures |Below(up[d := p], ino)| == |Below(up, ino)| + if p == ino then 1 else 0
  {
    if p == ino {
      assert Below(up[d := p], ino) == Below(up, ino) + {d};
    } else {
      assert Below(up[d := p], ino) == Below(up, ino);
    }
  }

  lemma BelowRemove(up: map<nat, nat>, d: nat, ino: nat)
    requires d in up
    ensures |Below(up - {d}, ino)| == |Below(up, ino)| - if up[d] == ino then 1 else 0
    ensures up[d] == ino ==> |Below(up, ino)| > 0
  {
    BelowAdd(up - {d}, d, up[d], ino);
    assert (up - {d})[d := up[d]] == up;
  }

  /** What a debt makes the count lag behind. */
  function Weight(t: Debt): int {
    match t
    case New(_) => 1
    case NewDir(_) => 2
    case Cleared(_) => 1
    case Gone(_) => 2
    case Stored(_) => -1
    case Dying(_) => 0
  }

  /** The links of an inode that have no entry, less the entries that have no link. */
  function Owed(d: multiset<Debt>, i: nat): int {
    d[New(i)] + 2 * d[NewDir(i)] + d[Cleared(i)] + 2 * d[Gone(i)] - (d[Stored(i)] as int)
  }

  function Late(s: State, ino: nat): int {
    Owed(s.debts, ino)
  }

  /** What the byte stands for. */
  function Total(s: State, ino: nat): int {
    Count(s, ino) + Late(s, ino)
  }

  lemma OwedAdd(d: multiset<Debt>, t: Debt, i: nat)
    ensures Owed(d + multiset{t}, i) == Owed(d, i) + if t.ino == i then Weight(t) else 0
  {
  }

  lemma OwedPaid(d: multiset<Debt>, t: Debt, i: nat)
    requires t in d
    ensures Owed(d - multiset{t}, i) == Owed(d, i) - if t.ino == i then Weight(t) else 0
  {
    OwedAdd(d - multiset{t}, t, i);
    assert d - multiset{t} + multiset{t} == d;
  }

  ghost predicate Listed(s: State, d: nat) {
    exists k :: k in s.entries && s.entries[k] == d
  }

  /** Everything named exists. */
  ghost predicate Placed(s: State) {
    && (forall k | k in s.entries :: k.dir in s.up && s.entries[k] in s.nlinks)
    && (forall d {:trigger s.up[d]} | d in s.up :: s.up[d] in s.up)
    && (forall d | d in s.up :: d in s.nlinks)
  }

  /** A directory is listed only in the directory its ".." names, and never in itself. */
  ghost predicate Back(s: State) {
    forall k | k in s.entries && s.entries[k] in s.up :: s.up[s.entries[k]] == k.dir && s.entries[k] != k.dir
  }

  ghost predicate Once(s: State) {
    forall k, l | k in s.entries && l in s.entries && s.entries[k] == s.entries[l] && s.entries[k] in s.up :: k == l
  }

  /** The only directory not listed is one that is its own "..". */
  ghost predicate AllListed(s: State) {
    forall d {:trigger Listed(s, d)} | d in s.up && s.up[d] != d :: Listed(s, d)
  }

  /** From directory d at most n steps up lead to one that is its own "..". */
  predicate Climbs(up: map<nat, nat>, d: nat, n: nat)
    decreases n
  {
    d in up && (up[d] == d || (n > 0 && Climbs(up, up[d], n - 1)))
  }

  ghost predicate Reaches(up: map<nat, nat>, d: nat) {
    exists n: nat :: Climbs(up, d, n)
  }

  /** Every directory is below a root. */
  ghost predicate Rooted(up: map<nat, nat>) {
    forall d | d in up :: Reaches(up, d)
  }

  ghost predicate Tree(s: State) {
    Placed(s) && Back(s) && Once(s) && AllListed(s) && Rooted(s.up)
  }

  /** The byte is the number of entries and what is owed, as far as a byte goes. */
  predicate Ledger(s: State) {
    forall i | i in s.nlinks :: s.nlinks[i] == Total(s, i) % 256
  }

  /** A task keeps the inode it owes something to; a directory that is being made is not to be found yet. */
  ghost predicate Kept(s: State, t: Debt) {
    && t.ino in s.nlinks
    && (t.New? || t.NewDir? ==> t.ino !in s.up)
    && (t.NewDir? ==> s.debts[t] == 1 && New(t.ino) !in s.debts && Unnamed(s, t.ino))
  }

  ghost predicate Unnamed(s: State, ino: nat) {
    forall k | k in s.entries :: s.entries[k] != ino
  }

  ghost predicate Owing(s: State) {
    forall t | t in s.debts :: Kept(s, t)
  }

  /** What a task holds exists. */
  predicate Holding(s: State) {
    forall i | i in s.held :: i in s.nlinks
  }

  ghost predicate Core(s: State) {
    Tree(s) && Ledger(s) && Owing(s)
  }

  ghost predicate Inv(s: State) {
    Core(s) && Holding(s)
  }

  /** No call in the middle owes anything to the inode. */
  predicate Quiet(s: State, ino: nat) {
    forall t | t in s.debts :: t.ino != ino
  }

  lemma QuietLate(s: State, ino: nat)
    requires Quiet(s, ino)
    ensures Late(s, ino) == 0
  {
    assert New(ino) !in s.debts && NewDir(ino) !in s.debts && Cleared(ino) !in s.debts && Gone(ino) !in s.debts
           && Stored(ino) !in s.debts;
  }

  /** The byte is incremented without a test. */
  function Inc(n: nat): nat { (n + 1) % 256 }

  /** The decrement of a byte. */
  function Dec(n: nat): nat { (n + 255) % 256 }

  // ---- the steps -----------------------------------------------------------------------------------

  datatype Step =
    | Get(ino: nat)                   // iget, where it takes the count: it may have slept since the number was read
    | Put(ino: nat)                   // iput, where it gives the count back or, as the last, starts to free the inode
    | Free(ino: nat)                  // iput after truncate: free_inode
    | Make(ino: nat)                  // open and mknod: new_inode
    | MakeDir(ino: nat)               // mkdir: new_inode, and the block with "." and ".."
    | Enter(k: Place, ino: nat)       // open and mknod: the number into the entry add_entry has just found free
    | EnterDir(k: Place, ino: nat)    // mkdir: the same, and the link of the parent
    | Abandon(t: Debt)                // mknod and mkdir: add_entry failed
    | EnterLink(k: Place, ino: nat)   // link: the number into the entry
    | Raise(ino: nat)                 // link: the increment, after brelse and iput
    | Clear(k: Place, ino: nat)       // unlink, after iget of the number found in entry k: the entry goes
    | Lower(t: Debt)                  // unlink: the decrement, after brelse; open: add_entry failed
    | ClearDir(k: Place, ino: nat)    // rmdir, after iget and empty_dir: the entry goes
    | LowerDir(ino: nat, dir: nat)    // rmdir: the counts, after brelse

  /** empty_dir: nothing but "." and ".." is left. */
  ghost predicate Empty(s: State, d: nat) {
    forall k | k in s.entries :: k.dir != d
  }

  /** What the code makes sure of in the step itself, and that it holds what it works on. */
  ghost predicate Enabled(s: State, a: Step) {
    match a
    case Get(ino) => true
    case Put(ino) => ino in s.held
    case Free(ino) => Dying(ino) in s.debts
    case Make(ino) => ino !in s.nlinks
    case MakeDir(ino) => ino !in s.nlinks
    case Enter(k, ino) => New(ino) in s.debts && k !in s.entries
    case EnterDir(k, ino) => NewDir(ino) in s.debts && k !in s.entries && k.dir in s.held
    case Abandon(t) => t in s.debts && (t.New? || t.NewDir?)
    case EnterLink(k, ino) => k !in s.entries && ino in s.held
    case Raise(ino) => Stored(ino) in s.debts
    case Clear(k, ino) => ino in s.held && ino !in s.up
    case Lower(t) => t in s.debts && (t.Cleared? || t.New?)
    case ClearDir(k, ino) => ino in s.held && k.dir in s.held && ino != k.dir
    case LowerDir(ino, dir) => Gone(ino) in s.debts && Cleared(dir) in s.debts && ino != dir
  }

  /** iput finds no other reference to an inode without links. */
  predicate Last(s: State, ino: nat) {
    Links(s, ino) == 0 && s.held[ino] == 1 && Quiet(s, ino)
  }

  function Links(s: State, i: nat): nat { if i in s.nlinks then s.nlinks[i] else 0 }

  function Do(s: State, a: Step): State {
    match a
    case Get(ino) => s.(held := s.held + multiset{ino})
    case Put(ino) =>
      s.(held := s.held - multiset{ino}, debts := if Last(s, ino) then s.debts + multiset{Dying(ino)} else s.debts)
    case Free(ino) => s.(nlinks := s.nlinks - {ino}, debts := s.debts - multiset{Dying(ino)})
    case Make(ino) => s.(nlinks := s.nlinks[ino := 1], debts := s.debts + multiset{New(ino)})
    case MakeDir(ino) => s.(nlinks := s.nlinks[ino := 2], debts := s.debts + multiset{NewDir(ino)})
    case Enter(k, ino) =>
      s.(entries := s.entries[k := ino], debts := s.debts - multiset{New(ino)}, held := s.held + multiset{ino})
    case EnterDir(k, ino) =>
      State(s.entries[k := ino], s.up[ino := k.dir], s.nlinks[k.dir := Inc(Links(s, k.dir))],
            s.debts - multiset{NewDir(ino)}, s.held + multiset{ino})
    case Abandon(t) =>
      s.(nlinks := s.nlinks[t.ino := 0], debts := s.debts - multiset{t}, held := s.held + multiset{t.ino})
    case EnterLink(k, ino) =>
      s.(entries := s.entries[k := ino], debts := s.debts + multiset{Stored(ino)}, held := s.held - multiset{ino})
    case Raise(ino) =>
      s.(nlinks := s.nlinks[ino := Inc(Links(s, ino))], debts := s.debts - multiset{Stored(ino)},
         held := s.held + multiset{ino})
    case Clear(k, ino) =>
      s.(entries := s.entries - {k}, nlinks := s.nlinks[ino := if Links(s, ino) == 0 then 1 else Links(s, ino)],
         debts := s.debts + multiset{Cleared(ino)}, held := s.held - multiset{ino})
    case Lower(t) =>
      s.(nlinks := s.nlinks[t.ino := Dec(Links(s, t.ino))], debts := s.debts - multiset{t},
         held := s.held + multiset{t.ino})
    case ClearDir(k, ino) =>
      s.(entries := s.entries - {k}, up := s.up - {ino}, debts := s.debts + multiset{Gone(ino), Cleared(k.dir)},
         held := s.held - multiset{ino, k.dir})
    case LowerDir(ino, dir) =>
      s.(nlinks := s.nlinks[ino := 0][dir := Dec(Links(s, dir))], debts := s.debts - multiset{Gone(ino), Cleared(dir)},
         held := s.held + multiset{ino, dir})
  }

  /** What has to be true when the step comes, whatever ran since the call looked: the inode whose number was found
      is still there, the directory is still there, the entry still names the inode, the directory is still empty, the
      count is still what the code writes over; and when iput frees an inode nobody has taken it since, it has no
      link, and its byte had not run over. */
  ghost predicate Good(s: State, a: Step) {
    match a
    case Get(ino) => ino in s.nlinks
    case Free(ino) =>
      ino !in s.held && Quiet(s.(debts := s.debts - multiset{Dying(ino)}), ino) && Links(s, ino) == 0 && Count(s, ino) < 256
    case Enter(k, _) => k.dir in s.up
    case EnterDir(k, _) => k.dir in s.up
    case Abandon(t) => Links(s, t.ino) == if t.New? then 1 else 2
    case EnterLink(k, ino) => k.dir in s.up && ino !in s.up && NewDir(ino) !in s.debts
    case Clear(k, ino) => if k in s.entries then s.entries[k] == ino && Links(s, ino) > 0 else Links(s, ino) == 0
    case ClearDir(k, ino) => k in s.entries && s.entries[k] == ino && ino in s.up && Empty(s, ino)
    case LowerDir(ino, _) => Links(s, ino) == 2
    case _ => true
  }

  // ---- the tree ------------------------------------------------------------------------------------

  lemma NotNamed(s: State, ino: nat)
    requires Tree(s) && ino !in s.nlinks
    ensures Count(s, ino) == 0
  {
    assert Named(s.entries, ino) == {} && Below(s.up, ino) == {} by {
      forall d | d in s.up ensures s.up[d] != ino { assert s.up[d] in s.up; }
    }
  }

  /** What every change to the entries has to respect for directories to stay listed. */
  ghost predicate Follows(s: State, r: State) {
    && (forall k | k in s.entries && s.entries[k] in r.up :: k in r.entries && r.entries[k] == s.entries[k])
    && (forall d | d in r.up && d in s.up :: r.up[d] == s.up[d])
  }

  lemma StillListed(s: State, r: State)
    requires AllListed(s) && Follows(s, r) && forall d | d in r.up && d !in s.up :: Listed(r, d)
    ensures AllListed(r)
  {
    forall d | d in r.up && r.up[d] != d ensures Listed(r, d) {
      if d in s.up {
        assert Listed(s, d);
        ListedStays(s, r, d);
      }
    }
  }

  /** A new entry for something that is no directory. */
  lemma AddTree(s: State, r: State, k: Place, ino: nat)
    requires Tree(s) && k !in s.entries && k.dir in s.up && ino !in s.up && r.entries == s.entries[k := ino] && r.up == s.up
    requires ino in r.nlinks && forall i | i in s.nlinks :: i in r.nlinks
    ensures Tree(r)
  {
    hide AllListed, Placed, Back, Once, Rooted;
    AddPlaced(s, r, k, ino);
    AddOnce(s, r, k, ino);
    StillListed(s, r);
  }

  lemma AddPlaced(s: State, r: State, k: Place, ino: nat)
    requires Placed(s) && k !in s.entries && k.dir in s.up && r.entries == s.entries[k := ino] && r.up == s.up
    requires ino in r.nlinks && forall i | i in s.nlinks :: i in r.nlinks
    ensures Placed(r) && Follows(s, r)
  {
  }

  lemma AddOnce(s: State, r: State, k: Place, ino: nat)
    requires Once(s) && Back(s) && k !in s.entries && ino !in s.up && r.entries == s.entries[k := ino] && r.up == s.up
    ensures Once(r) && Back(r)
  {
  }

  /** An entry for something that is no directory goes away. */
  lemma RemoveTree(s: State, r: State, k: Place)
    requires Tree(s) && k in s.entries && s.entries[k] !in s.up && r.entries == s.entries - {k} && r.up == s.up
    requires forall i | i in s.nlinks :: i in r.nlinks
    ensures Tree(r)
  {
    hide AllListed, Rooted;
    assert Placed(r) && Follows(s, r) by { hide Once, Back; }
    assert Back(r) by { hide Placed, Once; }
    assert Once(r) by { hide Placed, Back; }
    StillListed(s, r);
  }

  lemma MkdirTree(s: State, r: State, k: Place, ino: nat)
    requires Tree(s) && k !in s.entries && k.dir in s.up && ino !in s.up && forall j | j in s.entries :: s.entries[j] != ino
    requires r.entries == s.entries[k := ino] && r.up == s.up[ino := k.dir]
    requires ino in r.nlinks && forall i | i in s.nlinks :: i in r.nlinks
    ensures Tree(r)
  {
    hide AllListed, Placed, Back, Once, Rooted;
    LeafRooted(s.up, ino, k.dir);
    MkdirPlaced(s, r, k, ino);
    MkdirFollows(s, r, k, ino);
    MkdirUnique(s, r, k, ino);
    assert r.entries[k] == ino;
    StillListed(s, r);
  }

  /** A new directory hangs below one that is below a root. */
  lemma LeafRooted(up: map<nat, nat>, d: nat, p: nat)
    requires Rooted(up) && d !in up && p in up
    ensures Rooted(up[d := p])
  {
    var w := up[d := p];
    forall e | e in w ensures Reaches(w, e) {
      var x := if e == d then p else e;
      assert Reaches(up, x);
      var n: nat :| Climbs(up, x, n);
      LeafClimbs(up, d, p, x, n);
      assert e == d ==> Climbs(w, d, n + 1);
    }
  }

  lemma {:induction false} LeafClimbs(up: map<nat, nat>, d: nat, p: nat, e: nat, n: nat)
    requires d !in up && Climbs(up, e, n)
    ensures Climbs(up[d := p], e, n)
    decreases n
  {
    if up[e] != e { LeafClimbs(up, d, p, up[e], n - 1); }
  }

  /** Nothing loses its way to a root when a directory goes that has none below it. */
  lemma CutRooted(up: map<nat, nat>, d: nat)
    requires Rooted(up) && forall e | e in up :: up[e] != d
    ensures Rooted(up - {d})
  {
    forall e | e in up - {d} ensures Reaches(up - {d}, e) {
      assert Reaches(up, e);
      var n: nat :| Climbs(up, e, n);
      CutClimbs(up, d, e, n);
    }
  }

  lemma {:induction false} CutClimbs(up: map<nat, nat>, d: nat, e: nat, n: nat)
    requires (forall x | x in up :: up[x] != d) && e != d && Climbs(up, e, n)
    ensures Climbs(up - {d}, e, n)
    decreases n
  {
    if up[e] != e { CutClimbs(up, d, up[e], n - 1); }
  }

  lemma MkdirPlaced(s: State, r: State, k: Place, ino: nat)
    requires Placed(s) && k.dir in s.up && ino !in s.up && r.entries == s.entries[k := ino] && r.up == s.up[ino := k.dir]
    requires ino in r.nlinks && forall i | i in s.nlinks :: i in r.nlinks
    ensures Placed(r)
  {
    forall l | l in r.entries ensures l.dir in r.up && r.entries[l] in r.nlinks {
      assert l != k ==> l in s.entries;
    }
    forall d | d in r.up ensures r.up[d] in r.up && d in r.nlinks {
      assert d != ino ==> d in s.up && s.up[d] in s.up;
    }
  }

  lemma MkdirFollows(s: State, r: State, k: Place, ino: nat)
    requires k !in s.entries && ino !in s.up && r.entries == s.entries[k := ino] && r.up == s.up[ino := k.dir]
    ensures Follows(s, r)
  {
  }

  lemma MkdirUnique(s: State, r: State, k: Place, ino: nat)
    requires Once(s) && Back(s) && k !in s.entries && k.dir in s.up && ino !in s.up
    requires forall j | j in s.entries :: s.entries[j] != ino
    requires r.entries == s.entries[k := ino] && r.up == s.up[ino := k.dir]
    ensures Once(r) && Back(r)
  {
  }

  lemma RmdirTree(s: State, r: State, k: Place)
    requires Tree(s) && k in s.entries && s.entries[k] in s.up && r.entries == s.entries - {k} && r.up == s.up - {s.entries[k]}
    requires Empty(s, s.entries[k]) && (forall d | d in s.up :: s.up[d] != s.entries[k])
    requires forall i | i in s.nlinks :: i in r.nlinks
    ensures Tree(r)
  {
    hide AllListed, Placed, Back, Once, Rooted;
    CutRooted(s.up, s.entries[k]);
    RmdirPlaced(s, r, k);
    RmdirFollows(s, r, k);
    RmdirOnce(s, r, k);
    StillListed(s, r);
  }

  lemma RmdirPlaced(s: State, r: State, k: Place)
    requires Placed(s) && k in s.entries && r.entries == s.entries - {k} && r.up == s.up - {s.entries[k]}
    requires Empty(s, s.entries[k]) && (forall d | d in s.up :: s.up[d] != s.entries[k])
    requires forall i | i in s.nlinks :: i in r.nlinks
    ensures Placed(r)
  {
    forall l | l in r.entries ensures l.dir in r.up && r.entries[l] in r.nlinks { assert l in s.entries; }
    forall d | d in r.up ensures r.up[d] in r.up && d in r.nlinks { assert d in s.up && s.up[d] in s.up; }
  }

  lemma RmdirFollows(s: State, r: State, k: Place)
    requires k in s.entries && r.entries == s.entries - {k} && r.up == s.up - {s.entries[k]}
    ensures Follows(s, r)
  {
  }

  lemma RmdirOnce(s: State, r: State, k: Place)
    requires Once(s) && Back(s) && k in s.entries && r.entries == s.entries - {k} && r.up == s.up - {s.entries[k]}
    ensures Once(r) && Back(r)
  {
  }

  lemma ListedStays(s: State, r: State, d: nat)
    requires Listed(s, d) && forall k | k in s.entries && s.entries[k] == d :: k in r.entries && r.entries[k] == d
    ensures Listed(r, d)
  {
    var k :| k in s.entries && s.entries[k] == d;
    assert r.entries[k] == d;
  }

  lemma SameTree(s: State, r: State)
    requires Tree(s) && r.entries == s.entries && r.up == s.up && forall i | i in s.nlinks :: i in r.nlinks
    ensures Tree(r)
  {
    hide AllListed, Rooted;
    assert Placed(r) && Follows(s, r) by { hide Once, Back; }
    StillListed(s, r);
  }

  lemma ReleaseTree(s: State, r: State, ino: nat)
    requires Tree(s) && ino !in s.up && (forall k | k in s.entries :: s.entries[k] != ino)
    requires r.entries == s.entries && r.up == s.up && r.nlinks == s.nlinks - {ino}
    ensures Tree(r)
  {
    hide AllListed, Rooted;
    assert Placed(r) && Follows(s, r) by { hide Once, Back; }
    StillListed(s, r);
  }

  lemma OnlyEntry(s: State, k: Place)
    requires Tree(s) && k in s.entries && s.entries[k] in s.up
    ensures Named(s.entries, s.entries[k]) == {k}
  {
  }

  lemma NoneBelow(s: State, ino: nat)
    requires Tree(s) && ino in s.up && s.up[ino] != ino && Empty(s, ino)
    ensures forall d | d in s.up :: s.up[d] != ino
  {
    hide Tree, Empty;
    forall d | d in s.up ensures s.up[d] != ino { NotBelow(s, ino, d); }
  }

  lemma NotBelow(s: State, ino: nat, d: nat)
    requires Tree(s) && ino in s.up && s.up[ino] != ino && Empty(s, ino) && d in s.up
    ensures s.up[d] != ino
  {
    hide Placed, Once, Rooted;
    if s.up[d] != d {
      assert Listed(s, d);
      var l :| l in s.entries && s.entries[l] == d;
      assert s.up[d] == l.dir;
    }
  }

  // ---- the counts ----------------------------------------------------------------------------------

  /** What changes for one inode only. */
  lemma LedgerMoved(s: State, r: State, ino: nat, d: int)
    requires Ledger(s) && ino in s.nlinks && r.nlinks.Keys == s.nlinks.Keys && Total(r, ino) == Total(s, ino) + d
    requires forall i | i in s.nlinks && i != ino :: r.nlinks[i] == s.nlinks[i] && Total(r, i) == Total(s, i)
    ensures Ledger(r) <==> r.nlinks[ino] == (s.nlinks[ino] + d) % 256
  {
    hide Total;
    assert forall i | i in s.nlinks && i != ino :: r.nlinks[i] == Total(r, i) % 256;
  }

  lemma LedgerBroken(s: State, r: State, ino: nat, d: int)
    requires Ledger(s) && ino in s.nlinks && ino in r.nlinks && r.nlinks[ino] == s.nlinks[ino]
    requires Total(r, ino) == Total(s, ino) + d && -256 < d < 256 && d != 0
    ensures !Ledger(r)
  {
    hide Total;
  }

  lemma LedgerSame(s: State, r: State)
    requires Ledger(s) && r.nlinks == s.nlinks && forall i: nat :: Total(r, i) == Total(s, i)
    ensures Ledger(r)
  {
    hide Total;
  }

  lemma PaidTotal(s: State, r: State, t: Debt, i: nat)
    requires t in s.debts && r.entries == s.entries && r.up == s.up && r.debts == s.debts - multiset{t}
    ensures Total(r, i) == Total(s, i) - if i == t.ino then Weight(t) else 0
  {
    OwedPaid(s.debts, t, i);
  }

  /** Counts and debts of every inode after s, entry k having come to name ino. */
  lemma CountAdd(s: State, r: State, k: Place, ino: nat, i: nat)
    requires k !in s.entries && r.entries == s.entries[k := ino] && r.up == s.up
    ensures Count(r, i) == Count(s, i) + if i == ino then 1 else 0
  {
    NamedAdd(s.entries, k, ino, i);
  }

  lemma CountCut(s: State, r: State, k: Place, i: nat)
    requires r.entries == s.entries - {k} && r.up == s.up
    ensures Count(r, i) == Count(s, i) - if k in s.entries && s.entries[k] == i then 1 else 0
  {
    if k in s.entries { NamedRemove(s.entries, k, i); } else { assert s.entries - {k} == s.entries; }
  }

  lemma CountCutDir(s: State, r: State, k: Place, ino: nat, i: nat)
    requires r.entries == s.entries - {k} && r.up == s.up - {ino} && ino in s.up
    ensures Count(r, i) == Count(s, i) - (if k in s.entries && s.entries[k] == i then 1 else 0)
                           - (if i == ino then 1 else 0) - (if s.up[ino] == i then 1 else 0)
  {
    var m := s.(entries := r.entries);
    CountCut(s, m, k, i);
    BelowRemove(s.up, ino, i);
  }

  // ---- what each step keeps ------------------------------------------------------------------------

  lemma MakeKeeps(s: State, r: State, t: Debt)
    requires Core(s) && (t.New? || t.NewDir?) && t.ino !in s.nlinks
    requires r == s.(nlinks := s.nlinks[t.ino := Weight(t)], debts := s.debts + multiset{t}, held := r.held)
    ensures Core(r)
  {
    hide Tree, Owing, Ledger, Total;
    SameTree(s, r);
    MakeOwing(s, r, t);
    NewTotal(s, t.ino);
    forall i: nat ensures Total(r, i) == Total(s, i) + if t.ino == i then Weight(t) else 0 { DebtTotal(s, r, t, i); }
    MakeLedger(s, r, t);
  }

  lemma DebtTotal(s: State, r: State, t: Debt, i: nat)
    requires r.entries == s.entries && r.up == s.up && r.debts == s.debts + multiset{t}
    ensures Total(r, i) == Total(s, i) + if t.ino == i then Weight(t) else 0
  {
    OwedAdd(s.debts, t, i);
  }

  lemma NewTotal(s: State, ino: nat)
    requires Tree(s) && Owing(s) && ino !in s.nlinks
    ensures Total(s, ino) == 0
  {
    hide Owing;
    NotNamed(s, ino);
    NewQuiet(s, ino);
    QuietLate(s, ino);
  }

  lemma MakeLedger(s: State, r: State, t: Debt)
    requires Ledger(s) && (t.New? || t.NewDir?) && t.ino !in s.nlinks && r.nlinks == s.nlinks[t.ino := Weight(t)]
    requires Total(r, t.ino) == Weight(t) && forall i | i in s.nlinks :: Total(r, i) == Total(s, i)
    ensures Ledger(r)
  {
    hide Total;
  }

  lemma NewQuiet(s: State, ino: nat)
    requires Owing(s) && ino !in s.nlinks
    ensures Quiet(s, ino)
  {
    forall t | t in s.debts ensures t.ino != ino { assert Kept(s, t); }
  }

  lemma MakeOwing(s: State, r: State, t: Debt)
    requires Tree(s) && Owing(s) && (t.New? || t.NewDir?) && t.ino !in s.nlinks
    requires r.entries == s.entries && r.up == s.up && r.nlinks.Keys == s.nlinks.Keys + {t.ino} && r.debts == s.debts + multiset{t}
    ensures Owing(r)
  {
    hide AllListed, Back, Once;
    NewQuiet(s, t.ino);
    assert t !in s.debts && t.ino !in s.up && Unnamed(s, t.ino);
    forall u | u in r.debts ensures Kept(r, u) {
      assert u != t ==> Kept(s, u);
    }
  }

  lemma EnterKeeps(s: State, r: State, k: Place, ino: nat)
    requires Core(s) && New(ino) in s.debts && k !in s.entries
    requires r == s.(entries := s.entries[k := ino], debts := s.debts - multiset{New(ino)}, held := r.held)
    ensures Core(r) <==> k.dir in s.up
  {
    hide Tree, Ledger, Owing;
    if k.dir in s.up {
      assert Kept(s, New(ino)) by { OwingAt(s, New(ino)); }
      AddTree(s, r, k, ino);
      forall i: nat ensures Total(r, i) == Total(s, i) {
        CountAdd(s, r, k, ino, i);
        OwedPaid(s.debts, New(ino), i);
      }
      LedgerSame(s, r);
      EnterOwing(s, r, k, ino);
    } else {
      NotPlaced(r, k);
    }
  }

  lemma OwingAt(s: State, t: Debt)
    requires Owing(s) && t in s.debts
    ensures Kept(s, t)
  {
  }

  lemma EnterOwing(s: State, r: State, k: Place, ino: nat)
    requires Owing(s) && New(ino) in s.debts && k !in s.entries
    requires r == s.(entries := s.entries[k := ino], debts := s.debts - multiset{New(ino)}, held := r.held)
    ensures Owing(r)
  {
    assert NewDir(ino) in s.debts ==> Kept(s, NewDir(ino));
    forall t | t in r.debts ensures Kept(r, t) { assert Kept(s, t); }
  }

  lemma NotPlaced(r: State, k: Place)
    requires k in r.entries && k.dir !in r.up
    ensures !Tree(r)
  {
  }

  lemma EnterDirKeeps(s: State, r: State, k: Place, ino: nat)
    requires Core(s) && NewDir(ino) in s.debts && k !in s.entries && k.dir in s.nlinks
    requires r == State(s.entries[k := ino], s.up[ino := k.dir], s.nlinks[k.dir := Inc(s.nlinks[k.dir])], s.debts - multiset{NewDir(ino)}, r.held)
    ensures Core(r) <==> k.dir in s.up
  {
    hide Tree, Owing, Total, Ledger;
    assert Kept(s, NewDir(ino)) by { OwingAt(s, NewDir(ino)); }
    if k.dir in s.up {
      MkdirTree(s, r, k, ino);
      forall i: nat ensures Total(r, i) == Total(s, i) + if i == k.dir then 1 else 0 { EnterDirTotal(s, r, k, ino, i); }
      EnterDirOwing(s, r, k, ino);
      LedgerMoved(s, r, k.dir, 1);
    } else if k.dir == ino {
      NotBack(r, k);
    } else {
      NotPlaced(r, k);
    }
  }

  lemma EnterDirTotal(s: State, r: State, k: Place, ino: nat, i: nat)
    requires k !in s.entries && ino !in s.up && NewDir(ino) in s.debts
    requires r.entries == s.entries[k := ino] && r.up == s.up[ino := k.dir] && r.debts == s.debts - multiset{NewDir(ino)}
    ensures Total(r, i) == Total(s, i) + if i == k.dir then 1 else 0
  {
    NamedAdd(s.entries, k, ino, i);
    BelowAdd(s.up, ino, k.dir, i);
    OwedPaid(s.debts, NewDir(ino), i);
  }

  lemma EnterDirOwing(s: State, r: State, k: Place, ino: nat)
    requires Owing(s) && NewDir(ino) in s.debts && k !in s.entries
    requires r.entries == s.entries[k := ino] && r.up == s.up[ino := k.dir] && r.nlinks.Keys == s.nlinks.Keys
    requires r.debts == s.debts - multiset{NewDir(ino)}
    ensures Owing(r)
  {
    assert Kept(s, NewDir(ino));
    forall t | t in r.debts ensures Kept(r, t) { assert Kept(s, t); }
  }

  lemma NotBack(r: State, k: Place)
    requires k in r.entries && r.entries[k] == k.dir && k.dir in r.up
    ensures !Tree(r)
  {
  }

  lemma AbandonKeeps(s: State, r: State, t: Debt)
    requires Core(s) && t in s.debts && (t.New? || t.NewDir?)
    requires r == s.(nlinks := s.nlinks[t.ino := 0], debts := s.debts - multiset{t}, held := r.held)
    ensures Core(r) <==> Links(s, t.ino) == Weight(t)
  {
    hide Tree, Owing, Total, Ledger;
    assert Kept(s, t) by { OwingAt(s, t); }
    SameTree(s, r);
    PaidOwing(s, r, t);
    forall i: nat ensures Total(r, i) == Total(s, i) - if i == t.ino then Weight(t) else 0 { PaidTotal(s, r, t, i); }
    LedgerMoved(s, r, t.ino, -Weight(t));
    assert s.nlinks[t.ino] < 256 by { ByteAt(s, t.ino); }
  }

  lemma ByteAt(s: State, ino: nat)
    requires Ledger(s) && ino in s.nlinks
    ensures s.nlinks[ino] < 256
  {
  }

  lemma DecIsLess(n: nat)
    ensures Dec(n) == (n - 1) % 256
  {
  }

  lemma PaidOwing(s: State, r: State, t: Debt)
    requires Owing(s) && t in s.debts && r.entries == s.entries && r.up == s.up && r.debts == s.debts - multiset{t}
    requires r.nlinks.Keys == s.nlinks.Keys
    ensures Owing(r)
  {
    forall u | u in r.debts ensures Kept(r, u) { assert Kept(s, u); }
  }

  lemma EnterLinkKeeps(s: State, r: State, k: Place, ino: nat)
    requires Core(s) && k !in s.entries && ino in s.nlinks
    requires r == s.(entries := s.entries[k := ino], debts := s.debts + multiset{Stored(ino)}, held := r.held)
    ensures Core(r) <==> k.dir in s.up && ino !in s.up && NewDir(ino) !in s.debts
  {
    hide Tree, Ledger, Owing;
    if k.dir !in s.up {
      NotPlaced(r, k);
    } else if ino in s.up {
      LinkedDir(s, r, k, ino);
    } else {
      AddTree(s, r, k, ino);
      forall i: nat ensures Total(r, i) == Total(s, i) {
        CountAdd(s, r, k, ino, i);
        OwedAdd(s.debts, Stored(ino), i);
      }
      LedgerSame(s, r);
      EnterLinkOwing(s, r, k, ino);
    }
  }

  lemma EnterLinkOwing(s: State, r: State, k: Place, ino: nat)
    requires Owing(s) && k !in s.entries && ino in s.nlinks
    requires r == s.(entries := s.entries[k := ino], debts := s.debts + multiset{Stored(ino)}, held := r.held)
    ensures Owing(r) <==> NewDir(ino) !in s.debts
  {
    assert r.entries[k] == ino;
    if NewDir(ino) in s.debts {
      assert NewDir(ino) in r.debts && !Kept(r, NewDir(ino));
    } else {
      forall t | t in r.debts ensures Kept(r, t) { assert t != Stored(ino) ==> Kept(s, t); }
    }
  }

  /** A second entry for a directory. */
  lemma LinkedDir(s: State, r: State, k: Place, ino: nat)
    requires Tree(s) && k !in s.entries && ino in s.up && r.entries == s.entries[k := ino] && r.up == s.up
    ensures !Tree(r)
  {
    assert r.entries[k] == ino;
    if s.up[ino] != ino {
      assert Listed(s, ino);
      var l :| l in s.entries && s.entries[l] == ino;
      assert r.entries[l] == ino && l != k;
    }
  }

  /** The increment of link and the decrements of unlink and open. */
  lemma PayKeeps(s: State, r: State, t: Debt)
    requires Core(s) && t in s.debts && (t.Stored? || t.Cleared? || t.New?)
    requires r == s.(nlinks := s.nlinks[t.ino := if t.Stored? then Inc(Links(s, t.ino)) else Dec(Links(s, t.ino))], debts := s.debts - multiset{t}, held := r.held)
    ensures Core(r)
  {
    hide Tree, Owing, Total, Ledger;
    assert Kept(s, t) by { OwingAt(s, t); }
    SameTree(s, r);
    PaidOwing(s, r, t);
    forall i: nat ensures Total(r, i) == Total(s, i) - if i == t.ino then Weight(t) else 0 { PaidTotal(s, r, t, i); }
    LedgerMoved(s, r, t.ino, -Weight(t));
    DecIsLess(s.nlinks[t.ino]);
  }

  lemma ClearKeeps(s: State, r: State, k: Place, ino: nat)
    requires Core(s) && ino in s.nlinks && ino !in s.up
    requires r == s.(entries := s.entries - {k}, nlinks := s.nlinks[ino := if s.nlinks[ino] == 0 then 1 else s.nlinks[ino]],
                     debts := s.debts + multiset{Cleared(ino)}, held := r.held)
    ensures Core(r) <==> if k in s.entries then s.entries[k] == ino && s.nlinks[ino] > 0 else s.nlinks[ino] == 0
  {
    hide Tree, Owing, Total, Ledger;
    ByteAt(s, ino);
    ClearOwing(s, r, k, ino);
    forall i: nat ensures Total(r, i) == Total(s, i) + ClearMove(s, k, ino, i) { ClearTotal(s, r, k, ino, i); }
    if k in s.entries && s.entries[k] != ino {
      Exists(s, k);
      LedgerBroken(s, r, s.entries[k], -1);
    } else {
      if k in s.entries { RemoveTree(s, r, k); } else { assert s.entries - {k} == s.entries; SameTree(s, r); }
      LedgerMoved(s, r, ino, if k in s.entries then 0 else 1);
    }
  }

  function ClearMove(s: State, k: Place, ino: nat, i: nat): int {
    (if i == ino then 1 else 0) - (if k in s.entries && s.entries[k] == i then 1 else 0)
  }

  lemma ClearTotal(s: State, r: State, k: Place, ino: nat, i: nat)
    requires r.entries == s.entries - {k} && r.up == s.up && r.debts == s.debts + multiset{Cleared(ino)}
    ensures Total(r, i) == Total(s, i) + ClearMove(s, k, ino, i)
  {
    CountCut(s, r, k, i);
    OwedAdd(s.debts, Cleared(ino), i);
  }

  lemma ClearOwing(s: State, r: State, k: Place, ino: nat)
    requires Owing(s) && ino in s.nlinks && r.entries == s.entries - {k} && r.up == s.up && r.nlinks.Keys == s.nlinks.Keys
    requires r.debts == s.debts + multiset{Cleared(ino)}
    ensures Owing(r)
  {
    forall t | t in r.debts ensures Kept(r, t) { assert t != Cleared(ino) ==> Kept(s, t); }
  }

  lemma Exists(s: State, k: Place)
    requires Tree(s) && k in s.entries
    ensures k.dir in s.up && s.entries[k] in s.nlinks && k.dir in s.nlinks
  {
  }

  function ClearDirMove(s: State, k: Place, ino: nat, i: nat): int {
    (if i == ino then 2 else 0) + (if i == k.dir then 1 else 0) - (if k in s.entries && s.entries[k] == i then 1 else 0)
    - (if ino in s.up && i == ino then 1 else 0) - (if ino in s.up && s.up[ino] == i then 1 else 0)
  }

  lemma ClearDirTotal(s: State, r: State, k: Place, ino: nat, i: nat)
    requires r.entries == s.entries - {k} && r.up == s.up - {ino} && r.debts == s.debts + multiset{Gone(ino), Cleared(k.dir)}
    ensures Total(r, i) == Total(s, i) + ClearDirMove(s, k, ino, i)
  {
    if ino in s.up { CountCutDir(s, r, k, ino, i); } else { assert s.up - {ino} == s.up; CountCut(s, r, k, i); }
    OwedAdd(s.debts, Gone(ino), i);
    OwedAdd(s.debts + multiset{Gone(ino)}, Cleared(k.dir), i);
    assert r.debts == s.debts + multiset{Gone(ino)} + multiset{Cleared(k.dir)};
  }

  lemma ClearDirOwing(s: State, r: State, k: Place, ino: nat)
    requires Owing(s) && ino in s.nlinks && k.dir in s.nlinks && r.entries == s.entries - {k} && r.up == s.up - {ino}
    requires r.nlinks == s.nlinks && r.debts == s.debts + multiset{Gone(ino), Cleared(k.dir)}
    ensures Owing(r)
  {
    forall t | t in r.debts ensures Kept(r, t) { assert t != Gone(ino) && t != Cleared(k.dir) ==> Kept(s, t); }
  }

  lemma ClearDirKeeps(s: State, r: State, k: Place, ino: nat)
    requires Core(s) && ino in s.nlinks && k.dir in s.nlinks && ino != k.dir
    requires r == s.(entries := s.entries - {k}, up := s.up - {ino}, debts := s.debts + multiset{Gone(ino), Cleared(k.dir)}, held := r.held)
    ensures Core(r) <==> k in s.entries && s.entries[k] == ino && ino in s.up && Empty(s, ino)
  {
    hide Tree, Owing, Total, Ledger, Empty;
    forall i: nat ensures Total(r, i) == Total(s, i) + ClearDirMove(s, k, ino, i) { ClearDirTotal(s, r, k, ino, i); }
    if ino !in s.up {
      LedgerBroken(s, r, ino, ClearDirMove(s, k, ino, ino));
    } else if k in s.entries && s.entries[k] == ino {
      BackAt(s, k);
      ClearDirOwing(s, r, k, ino);
      if Empty(s, ino) {
        NoneBelow(s, ino);
        RmdirTree(s, r, k);
        LedgerSame(s, r);
      } else {
        NotEmpty(s, r, k, ino);
      }
    } else {
      NotThere(s, k);
      LedgerBroken(s, r, if s.up[ino] == ino then k.dir else ino, 1);
    }
  }

  lemma BackAt(s: State, k: Place)
    requires Tree(s) && k in s.entries && s.entries[k] in s.up
    ensures s.up[s.entries[k]] == k.dir && s.entries[k] != k.dir
  {
  }

  /** No entry of a directory names the directory. */
  lemma NotThere(s: State, k: Place)
    requires Tree(s)
    ensures k in s.entries ==> s.entries[k] != k.dir
  {
  }

  lemma NotEmpty(s: State, r: State, k: Place, ino: nat)
    requires !Empty(s, ino) && k.dir != ino && r.entries == s.entries - {k} && r.up == s.up - {ino}
    ensures !Tree(r)
  {
    var l :| l in s.entries && l.dir == ino;
    assert l in r.entries;
  }

  lemma LowerDirKeeps(s: State, r: State, ino: nat, dir: nat)
    requires Core(s) && Gone(ino) in s.debts && Cleared(dir) in s.debts && ino != dir
    requires r == s.(nlinks := s.nlinks[ino := 0][dir := Dec(Links(s, dir))], debts := s.debts - multiset{Gone(ino), Cleared(dir)}, held := r.held)
    ensures Core(r) <==> Links(s, ino) == 2
  {
    hide Core, Kept;
    KeptAt(s, Gone(ino));
    KeptAt(s, Cleared(dir));
    var m := s.(nlinks := s.nlinks[dir := Dec(Links(s, dir))], debts := s.debts - multiset{Cleared(dir)});
    PayKeeps(s, m, Cleared(dir));
    assert m.debts - multiset{Gone(ino)} == r.debts && m.nlinks[ino := 0] == r.nlinks;
    GoneKeeps(m, r, ino);
  }

  lemma KeptAt(s: State, t: Debt)
    requires Core(s) && t in s.debts
    ensures t.ino in s.nlinks
  {
    hide Tree, Ledger;
    OwingAt(s, t);
  }

  lemma GoneKeeps(s: State, r: State, ino: nat)
    requires Core(s) && Gone(ino) in s.debts && ino in s.nlinks
    requires r == s.(nlinks := s.nlinks[ino := 0], debts := s.debts - multiset{Gone(ino)}, held := r.held)
    ensures Core(r) <==> s.nlinks[ino] == 2
  {
    hide Tree, Owing, Total, Ledger;
    SameTree(s, r);
    PaidOwing(s, r, Gone(ino));
    forall i: nat ensures Total(r, i) == Total(s, i) - if i == ino then 2 else 0 { PaidTotal(s, r, Gone(ino), i); }
    LedgerMoved(s, r, ino, -2);
    ByteAt(s, ino);
  }

  /** free_inode. */
  lemma FreeKeeps(s: State, r: State, ino: nat)
    requires Inv(s) && Dying(ino) in s.debts && r == s.(nlinks := s.nlinks - {ino}, debts := s.debts - multiset{Dying(ino)})
    ensures Inv(r) <==> ino !in s.held && Quiet(r, ino) && Links(s, ino) == 0 && Count(s, ino) < 256
  {
    hide Tree, Owing, Ledger, Count, Quiet;
    assert ino in s.nlinks by { KeptAt(s, Dying(ino)); }
    if ino !in s.held {
      if Quiet(r, ino) {
        FreeZero(s, r, ino);
        if Count(s, ino) == 0 {
          NoneNamed(s, ino);
          ReleaseTree(s, r, ino);
          FreeOwing(s, r, ino);
          FreeLedger(s, r, ino);
        } else {
          StillNamed(s, r, ino);
        }
      } else {
        NotKept(r, ino);
      }
    }
  }

  lemma NotKept(r: State, ino: nat)
    requires !Quiet(r, ino) && ino !in r.nlinks
    ensures !Owing(r)
  {
    var t :| t in r.debts && t.ino == ino;
    assert !Kept(r, t);
  }

  lemma FreeZero(s: State, r: State, ino: nat)
    requires Ledger(s) && ino in s.nlinks && Dying(ino) in s.debts && r.debts == s.debts - multiset{Dying(ino)} && Quiet(r, ino)
    ensures s.nlinks[ino] == Count(s, ino) % 256
  {
    OwedPaid(s.debts, Dying(ino), ino);
    QuietLate(r, ino);
    hide Count, Owed;
  }

  lemma FreeLedger(s: State, r: State, ino: nat)
    requires Ledger(s) && Dying(ino) in s.debts && r.entries == s.entries && r.up == s.up
    requires r.nlinks == s.nlinks - {ino} && r.debts == s.debts - multiset{Dying(ino)}
    ensures Ledger(r)
  {
    forall i: nat ensures Total(r, i) == Total(s, i) { PaidTotal(s, r, Dying(ino), i); }
    hide Total;
  }

  lemma NoneNamed(s: State, ino: nat)
    requires Count(s, ino) == 0
    ensures ino !in s.up && forall k | k in s.entries :: s.entries[k] != ino
  {
    forall k | k in s.entries ensures s.entries[k] != ino {
      if s.entries[k] == ino { NamedRemove(s.entries, k, ino); }
    }
  }

  /** An inode that is named must not be released. */
  lemma StillNamed(s: State, r: State, ino: nat)
    requires Tree(s) && Count(s, ino) > 0 && r.entries == s.entries && r.up == s.up && ino !in r.nlinks
    ensures !Tree(r)
  {
    if |Named(s.entries, ino)| > 0 {
      var k :| k in Named(s.entries, ino);
      assert k in r.entries && r.entries[k] == ino;
    }
  }

  lemma FreeOwing(s: State, r: State, ino: nat)
    requires Owing(s) && Quiet(r, ino)
    requires r == s.(nlinks := s.nlinks - {ino}, debts := s.debts - multiset{Dying(ino)}, held := r.held)
    ensures Owing(r)
  {
    forall t | t in r.debts ensures Kept(r, t) { assert Kept(s, t); }
  }

  /** iput of the last reference to an inode without links. */
  lemma DyingKeeps(s: State, r: State, ino: nat)
    requires Core(s) && ino in s.nlinks && r == s.(debts := s.debts + multiset{Dying(ino)}, held := r.held)
    ensures Core(r)
  {
    hide Tree, Ledger, Owing, Total;
    SameTree(s, r);
    forall i: nat ensures Total(r, i) == Total(s, i) { DebtTotal(s, r, Dying(ino), i); }
    LedgerSame(s, r);
    DyingOwing(s, r, ino);
  }

  lemma DyingOwing(s: State, r: State, ino: nat)
    requires Owing(s) && ino in s.nlinks && r == s.(debts := s.debts + multiset{Dying(ino)}, held := r.held)
    ensures Owing(r)
  {
    forall t | t in r.debts ensures Kept(r, t) { assert t != Dying(ino) ==> Kept(s, t); }
  }

  /** Only references change. */
  lemma SameCore(s: State, r: State)
    requires Core(s) && r == s.(held := r.held)
    ensures Core(r)
  {
    hide Tree, Ledger, Owing, Total;
    SameTree(s, r);
    forall i: nat ensures Total(r, i) == Total(s, i) { SameTotal(s, r, i); }
    LedgerSame(s, r);
    assert Owing(r) by { SameOwing(s, r); }
  }

  lemma SameTotal(s: State, r: State, i: nat)
    requires r == s.(held := r.held)
    ensures Total(r, i) == Total(s, i)
  {
  }

  lemma SameOwing(s: State, r: State)
    requires Owing(s) && r == s.(held := r.held)
    ensures Owing(r)
  {
    forall t | t in r.debts ensures Kept(r, t) { assert Kept(s, t); }
  }

  /** A step keeps trees, counts and references right exactly when it is good. */
  lemma StepKeeps(s: State, a: Step)
    requires Inv(s) && Enabled(s, a)
    ensures Inv(Do(s, a)) <==> Good(s, a)
  {
    hide Inv, Enabled, Do, Good;
    match a
    case Get(_) => HoldKeeps(s, a);
    case Put(_) => HoldKeeps(s, a);
    case Free(_) => FreeGood(s, a);
    case Make(_) => NewKeeps(s, a);
    case MakeDir(_) => NewKeeps(s, a);
    case Enter(_, _) => EntryKeeps(s, a);
    case EnterDir(_, _) => DirEntryKeeps(s, a);
    case EnterLink(_, _) => EntryKeeps(s, a);
    case Clear(_, _) => CutKeeps(s, a);
    case ClearDir(_, _) => CutKeeps(s, a);
    case Abandon(_) => GiveUpKeeps(s, a);
    case Raise(_) => PaidKeeps(s, a);
    case Lower(_) => PaidKeeps(s, a);
    case LowerDir(_, _) => LastKeeps(s, a);
  }

  lemma HoldKeeps(s: State, a: Step)
    requires Inv(s) && Enabled(s, a) && (a.Get? || a.Put?)
    ensures Inv(Do(s, a)) <==> Good(s, a)
  {
    hide Core, Quiet;
    var r := Do(s, a);
    if a.Put? && Last(s, a.ino) { DyingKeeps(s, r, a.ino); } else { SameCore(s, r); }
    assert a.Get? ==> a.ino in r.held;
  }

  lemma FreeGood(s: State, a: Step)
    requires Inv(s) && Enabled(s, a) && a.Free?
    ensures Inv(Do(s, a)) <==> Good(s, a)
  {
    hide Inv, Count;
    FreeKeeps(s, Do(s, a), a.ino);
    QuietSame(Do(s, a), s.(debts := s.debts - multiset{Dying(a.ino)}), a.ino);
    hide Quiet;
  }

  lemma QuietSame(s: State, r: State, ino: nat)
    requires s.debts == r.debts
    ensures Quiet(s, ino) <==> Quiet(r, ino)
  {
  }

  /** Every reference given back or taken along is to an inode that exists. */
  lemma StillHolding(s: State, r: State)
    requires Holding(s) && (forall i | i in s.nlinks :: i in r.nlinks)
    requires forall i | i in r.held :: i in s.held || i in s.nlinks
    ensures Holding(r)
  {
  }

  lemma NewKeeps(s: State, a: Step)
    requires Inv(s) && Enabled(s, a) && (a.Make? || a.MakeDir?)
    ensures Inv(Do(s, a)) <==> Good(s, a)
  {
    hide Core;
    MakeKeeps(s, Do(s, a), if a.Make? then New(a.ino) else NewDir(a.ino));
  }

  lemma EntryKeeps(s: State, a: Step)
    requires Inv(s) && Enabled(s, a) && (a.Enter? || a.EnterLink?)
    ensures Inv(Do(s, a)) <==> Good(s, a)
  {
    DebtsKept(s);
    hide Core;
    if a.Enter? { EnterKeeps(s, Do(s, a), a.k, a.ino); } else { EnterLinkKeeps(s, Do(s, a), a.k, a.ino); }
    StillHolding(s, Do(s, a));
  }

  lemma DirEntryKeeps(s: State, a: Step)
    requires Inv(s) && Enabled(s, a) && a.EnterDir?
    ensures Inv(Do(s, a)) <==> Good(s, a)
  {
    DebtsKept(s);
    hide Core, Inc;
    EnterDirKeeps(s, Do(s, a), a.k, a.ino);
    StillHolding(s, Do(s, a));
  }

  lemma CutKeeps(s: State, a: Step)
    requires Inv(s) && Enabled(s, a) && (a.Clear? || a.ClearDir?)
    ensures Inv(Do(s, a)) <==> Good(s, a)
  {
    hide Core, Empty;
    if a.Clear? { ClearKeeps(s, Do(s, a), a.k, a.ino); } else { ClearDirKeeps(s, Do(s, a), a.k, a.ino); }
    StillHolding(s, Do(s, a));
  }

  lemma GiveUpKeeps(s: State, a: Step)
    requires Inv(s) && Enabled(s, a) && a.Abandon?
    ensures Inv(Do(s, a)) <==> Good(s, a)
  {
    DebtsKept(s);
    hide Core;
    AbandonKeeps(s, Do(s, a), a.t);
    StillHolding(s, Do(s, a));
  }

  lemma PaidKeeps(s: State, a: Step)
    requires Inv(s) && Enabled(s, a) && (a.Raise? || a.Lower?)
    ensures Inv(Do(s, a)) <==> Good(s, a)
  {
    hide Core, Owing;
    var t := if a.Raise? then Stored(a.ino) else a.t;
    PaidInv(s, Do(s, a), t);
  }

  lemma PaidInv(s: State, r: State, t: Debt)
    requires Inv(s) && t in s.debts && (t.Stored? || t.Cleared? || t.New?)
    requires r == s.(nlinks := s.nlinks[t.ino := if t.Stored? then Inc(Links(s, t.ino)) else Dec(Links(s, t.ino))],
                     debts := s.debts - multiset{t}, held := s.held + multiset{t.ino})
    ensures Inv(r)
  {
    hide Core, Inc, Dec, Holding, Links;
    assert t.ino in s.nlinks by { DebtsKept(s); }
    PayKeeps(s, r, t);
    StillHolding(s, r);
  }

  lemma LastKeeps(s: State, a: Step)
    requires Inv(s) && Enabled(s, a) && a.LowerDir?
    ensures Inv(Do(s, a)) <==> Good(s, a)
  {
    DebtsKept(s);
    hide Core;
    LowerDirKeeps(s, Do(s, a), a.ino, a.dir);
    StillHolding(s, Do(s, a));
  }

  lemma DebtsKept(s: State)
    requires Inv(s)
    ensures forall t | t in s.debts :: t.ino in s.nlinks
  {
    hide Tree, Ledger;
    forall t | t in s.debts ensures t.ino in s.nlinks { assert Kept(s, t); }
  }

  // ---- runs ----------------------------------------------------------------------------------------

  ghost predicate GoodRun(s: State, steps: seq<Step>)
    requires Inv(s)
    decreases |steps|
  {
    steps == [] || (Enabled(s, steps[0]) && Good(s, steps[0])
                    && (StepKeeps(s, steps[0]); GoodRun(Do(s, steps[0]), steps[1..])))
  }

  ghost function Run(s: State, steps: seq<Step>): (r: State)
    requires Inv(s) && GoodRun(s, steps)
    decreases |steps|
  {
    if steps == [] then s else
      StepKeeps(s, steps[0]);
      Run(Do(s, steps[0]), steps[1..])
  }

  /** Over every interleaving of steps that are good when they come, i_nlinks of an inode no call is in the middle of
      is the number of entries naming it, as far as a byte goes. */
  lemma {:induction false} LinksCounted(s: State, steps: seq<Step>)
    requires Inv(s) && GoodRun(s, steps)
    ensures Inv(Run(s, steps))
    ensures forall i | i in Run(s, steps).nlinks && Quiet(Run(s, steps), i) ::
      Run(s, steps).nlinks[i] == Count(Run(s, steps), i) % 256
    decreases |steps|
  {
    if steps != [] {
      StepKeeps(s, steps[0]);
      LinksCounted(Do(s, steps[0]), steps[1..]);
    } else {
      forall i | i in s.nlinks && Quiet(s, i) ensures s.nlinks[i] == Count(s, i) % 256 { QuietLate(s, i); }
    }
  }

  // ---- no inode is lost ----------------------------------------------------------------------------

  /** An inode marked used has a link, or somebody holds it, or a call still owes it something: none is left over. */
  ghost predicate NoOrphan(s: State) {
    forall i | i in s.nlinks :: Accounted(s, i)
  }

  ghost predicate Accounted(s: State, i: nat) {
    Links(s, i) > 0 || i in s.held || Owes(s, i)
  }

  ghost predicate Owes(s: State, i: nat) {
    exists t :: t in s.debts && t.ino == i
  }

  /** Whatever comes when: every step leaves every inode accounted for, since iput frees it with the last reference. */
  lemma StepLosesNone(s: State, a: Step)
    requires Inv(s) && NoOrphan(s) && Enabled(s, a)
    ensures NoOrphan(Do(s, a))
  {
    var r := Do(s, a);
    forall i | i in r.nlinks ensures Accounted(r, i) {
      AccountedAfter(s, a, i);
    }
  }

  /** The inodes a step pays a debt of. */
  predicate Pays(a: Step, i: nat) {
    match a
    case Enter(_, ino) => i == ino
    case EnterDir(_, ino) => i == ino
    case Abandon(t) => i == t.ino
    case Raise(ino) => i == ino
    case Lower(t) => i == t.ino
    case Free(ino) => i == ino
    case LowerDir(ino, dir) => i == ino || i == dir
    case _ => false
  }

  /** The inodes a step begins to owe something, giving up its hold. */
  predicate Borrows(a: Step, i: nat) {
    match a
    case Make(ino) => i == ino
    case MakeDir(ino) => i == ino
    case EnterLink(_, ino) => i == ino
    case Clear(_, ino) => i == ino
    case ClearDir(k, ino) => i == ino || i == k.dir
    case _ => false
  }

  /** The debts a step pays. */
  function Paid(a: Step): multiset<Debt> {
    match a
    case Free(ino) => multiset{Dying(ino)}
    case Enter(_, ino) => multiset{New(ino)}
    case EnterDir(_, ino) => multiset{NewDir(ino)}
    case Abandon(t) => multiset{t}
    case Raise(ino) => multiset{Stored(ino)}
    case Lower(t) => multiset{t}
    case LowerDir(ino, dir) => multiset{Gone(ino), Cleared(dir)}
    case _ => multiset{}
  }

  predicate Paying(a: Step) {
    a.Free? || a.Enter? || a.EnterDir? || a.Abandon? || a.Raise? || a.Lower? || a.LowerDir?
  }

  lemma DebtsPaid(s: State, a: Step)
    requires Paying(a)
    ensures Do(s, a).debts == s.debts - Paid(a)
  {
    hide Links, Inc, Dec;
  }

  lemma DebtsMore(s: State, a: Step, u: Debt)
    requires !Paying(a) && u in s.debts
    ensures u in Do(s, a).debts
  {
    hide Links, Last, Inc, Dec;
  }

  lemma NotPaid(a: Step, u: Debt)
    requires !Pays(a, u.ino)
    ensures u !in Paid(a)
  {
  }

  lemma Unpaid(d: multiset<Debt>, p: multiset<Debt>, u: Debt)
    requires u in d && u !in p
    ensures u in d - p
  {
  }

  lemma OwedStays(s: State, a: Step, u: Debt)
    requires u in s.debts && !Pays(a, u.ino)
    ensures u in Do(s, a).debts
  {
    hide Do, Paid, Pays;
    if Paying(a) {
      DebtsPaid(s, a);
      NotPaid(a, u);
      Unpaid(s.debts, Paid(a), u);
    } else {
      DebtsMore(s, a, u);
    }
  }

  /** Who pays a debt holds the inode then, but for one that is gone. */
  lemma PaidHeld(s: State, a: Step, i: nat)
    requires Pays(a, i) && i in Do(s, a).nlinks
    ensures i in Do(s, a).held
  {
    hide Links;
  }

  lemma BorrowedOwes(s: State, a: Step, i: nat)
    requires Borrows(a, i)
    ensures Owes(Do(s, a), i)
  {
    hide Links;
    var r := Do(s, a);
    match a
    case Make(ino) => assert New(ino) in r.debts;
    case MakeDir(ino) => assert NewDir(ino) in r.debts;
    case EnterLink(k, ino) => assert Stored(ino) in r.debts;
    case Clear(k, ino) => assert Cleared(ino) in r.debts;
    case ClearDir(k, ino) => assert Gone(ino) in r.debts && Cleared(k.dir) in r.debts;
  }

  /** A step that neither pays nor borrows for i, and is no iput of it, lets it be. */
  lemma LetBe(s: State, a: Step, i: nat)
    requires Holding(s) && Enabled(s, a) && !Pays(a, i) && !Borrows(a, i) && a != Put(i) && i in Do(s, a).nlinks
    ensures i in s.nlinks
    ensures Links(Do(s, a), i) > 0 || i in Do(s, a).held || (Links(s, i) == 0 && i !in s.held)
  {
    hide Last;
  }

  /** The last iput of an inode without links begins to free it. */
  lemma PutOwes(s: State, ino: nat)
    requires ino in s.held && !Owes(s, ino)
    ensures var r := Do(s, Put(ino)); Links(r, ino) > 0 || ino in r.held || Owes(r, ino)
  {
    var r := Do(s, Put(ino));
    if Links(s, ino) == 0 && s.held[ino] == 1 {
      assert Quiet(s, ino);
      assert Dying(ino) in r.debts;
    }
  }

  lemma AccountedAfter(s: State, a: Step, i: nat)
    requires Holding(s) && NoOrphan(s) && Enabled(s, a) && i in Do(s, a).nlinks
    ensures Accounted(Do(s, a), i)
  {
    hide Do, Links;
    if Pays(a, i) {
      PaidHeld(s, a, i);
    } else if Borrows(a, i) {
      BorrowedOwes(s, a, i);
    } else if Owes(s, i) {
      var u :| u in s.debts && u.ino == i;
      OwedStays(s, a, u);
    } else if a == Put(i) {
      PutOwes(s, i);
    } else {
      LetBe(s, a, i);
      assert Accounted(s, i);
    }
  }

  /** Over every run of such steps no inode is lost: one without links, holders and calls in the middle has been freed. */
  lemma {:induction false} NoneLost(s: State, steps: seq<Step>)
    requires Inv(s) && NoOrphan(s) && GoodRun(s, steps)
    ensures NoOrphan(Run(s, steps))
    decreases |steps|
  {
    hide Do, Enabled, Good, NoOrphan;
    if steps != [] {
      StepKeeps(s, steps[0]);
      StepLosesNone(s, steps[0]);
      NoneLost(Do(s, steps[0]), steps[1..]);
    }
  }

  // ---- calls nothing comes between -----------------------------------------------------------------

  /** What a name in a directory is found at. */
  datatype Found = Dot | DotDot | Slot(i: nat)

  /** find_entry: the inode number there, nothing for an entry not in use. */
  function Lookup(s: State, dir: nat, f: Found): Option<nat>
    requires dir in s.up
  {
    match f
    case Dot => Some(dir)
    case DotDot => Some(s.up[dir])
    case Slot(i) => if Place(dir, i) in s.entries then Some(s.entries[Place(dir, i)]) else None
  }

  /** What unlink and rmdir go on with is never "." or "..". */
  lemma FoundIsProper(s: State, dir: nat, f: Found, ino: nat)
    requires Tree(s) && dir in s.up && Lookup(s, dir, f) == Some(ino)
    requires ino !in s.up || (ino != dir && Empty(s, ino))
    ensures f.Slot? && Place(dir, f.i) in s.entries
  {
    assert f.DotDot? ==> s.up[dir] == dir || Listed(s, dir);
  }

  /** unlink is good when the entry still names the inode, no other call is about to change its count, and the count has
      not run over: the count is not found 0. */
  lemma UnlinkGood(s: State, k: Place, ino: nat)
    requires Inv(s) && k in s.entries && s.entries[k] == ino && Quiet(s, ino) && Count(s, ino) < 256
    ensures Good(s, Clear(k, ino))
  {
    hide Tree;
    QuietLate(s, ino);
    NamedRemove(s.entries, k, ino);
    assert ino in s.nlinks by { Exists(s, k); }
  }

  /** The directory rmdir finds empty has exactly two links. */
  lemma EmptyHasTwoLinks(s: State, k: Place, ino: nat)
    requires Inv(s) && k in s.entries && s.entries[k] == ino && ino in s.up && Empty(s, ino) && Quiet(s, ino)
    ensures s.up[ino] == k.dir && Links(s, ino) == 2
  {
    hide Tree, Owing;
    BackAt(s, k);
    OnlyEntry(s, k);
    NoneBelow(s, ino);
    Exists(s, k);
    QuietLate(s, ino);
    assert Below(s.up, ino) == {};
  }

  /** So rmdir without a sleep in between is good to the end. */
  lemma RmdirGood(s: State, k: Place, ino: nat)
    requires Inv(s) && k in s.entries && s.entries[k] == ino && ino in s.up && Empty(s, ino) && Quiet(s, ino)
    requires ino in s.held && k.dir in s.held
    ensures Enabled(s, ClearDir(k, ino)) && Good(s, ClearDir(k, ino))
    ensures var m := Do(s, ClearDir(k, ino)); Enabled(m, LowerDir(ino, k.dir)) && Good(m, LowerDir(ino, k.dir))
  {
    hide Tree, Ledger, Owing, Empty, Quiet, Do;
    EmptyHasTwoLinks(s, k, ino);
    Exists(s, k);
    BackAt(s, k);
    RmdirOwes(s, k, ino);
  }

  lemma RmdirOwes(s: State, k: Place, ino: nat)
    ensures var m := Do(s, ClearDir(k, ino)); m.nlinks == s.nlinks && Gone(ino) in m.debts && Cleared(k.dir) in m.debts
  {
  }

  /** No call is in the middle, and no count has run over: i_nlinks is the number of entries. */
  ghost predicate Exact(s: State) {
    Inv(s) && s.debts == multiset{} && forall i | i in s.nlinks :: Count(s, i) < 256
  }

  lemma ExactIs(s: State, i: nat)
    requires Exact(s) && i in s.nlinks
    ensures s.nlinks[i] == Count(s, i) && Quiet(s, i)
  {
    hide Tree, Owing;
    QuietLate(s, i);
  }

  lemma HeldExists(s: State, i: nat)
    requires Inv(s) && i in s.held
    ensures i in s.nlinks
  {
    hide Core;
  }

  /** With nothing in between, link keeps the counts exact if and only if the byte was below 255. */
  lemma LinkKeeps(s: State, k: Place, ino: nat)
    requires Exact(s) && k !in s.entries && k.dir in s.up && ino in s.held && ino !in s.up
    ensures var r := Do(Do(s, EnterLink(k, ino)), Raise(ino)); Inv(r) && (Exact(r) <==> Links(s, ino) < 255)
  {
    hide Inv, Count, Do;
    HeldExists(s, ino);
    LinkOnce(s, k, ino);
    var r := Do(Do(s, EnterLink(k, ino)), Raise(ino));
    ExactIs(s, ino);
    forall i: nat ensures Count(r, i) == Count(s, i) + if i == ino then 1 else 0 {
      CountAdd(s, r, k, ino, i);
    }
    assert Exact(r) ==> Count(r, ino) < 256;
  }

  /** mkdir keeps them exact if and only if the parent's byte was below 255. */
  lemma MkdirKeeps(s: State, k: Place, ino: nat)
    requires Exact(s) && k !in s.entries && k.dir in s.up && k.dir in s.held && ino !in s.nlinks
    ensures var r := Do(Do(s, MakeDir(ino)), EnterDir(k, ino)); Inv(r) && (Exact(r) <==> Links(s, k.dir) < 255)
  {
    hide Inv, Count, Do, Named, Below;
    HeldExists(s, k.dir);
    MkdirOnce(s, k, ino);
    var r := Do(Do(s, MakeDir(ino)), EnterDir(k, ino));
    ExactIs(s, k.dir);
    assert Count(s, ino) == 0 && ino !in s.up by { NewCount(s, ino); }
    forall i: nat ensures Count(r, i) == Count(s, i) + (if i == ino then 2 else 0) + (if i == k.dir then 1 else 0) {
      CountAddDir(s, r, k, ino, i);
    }
    assert Exact(r) ==> Count(r, k.dir) < 256;
  }

  lemma NewCount(s: State, ino: nat)
    requires Inv(s) && ino !in s.nlinks
    ensures Count(s, ino) == 0 && ino !in s.up
  {
    NotNamed(s, ino);
  }

  lemma CountAddDir(s: State, r: State, k: Place, ino: nat, i: nat)
    requires k !in s.entries && ino !in s.up && r.entries == s.entries[k := ino] && r.up == s.up[ino := k.dir]
    ensures Count(r, i) == Count(s, i) + (if i == ino then 2 else 0) + (if i == k.dir then 1 else 0)
  {
    NamedAdd(s.entries, k, ino, i);
    BelowAdd(s.up, ino, k.dir, i);
  }

  /** unlink keeps them exact, and never finds the count 0. */
  lemma UnlinkKeeps(s: State, k: Place, ino: nat)
    requires Exact(s) && k in s.entries && s.entries[k] == ino && ino in s.held && ino !in s.up
    ensures Exact(Unlinked(s, k, ino)) && Links(s, ino) > 0
  {
    hide Inv, Count, Do, Unlinked;
    assert ino in s.nlinks by { EntryExists(s, k); }
    ExactIs(s, ino);
    UnlinkGood(s, k, ino);
    UnlinkOnce(s, k, ino);
    var r := Unlinked(s, k, ino);
    UnlinkedInv(s, k, ino);
    forall i: nat ensures Count(r, i) <= Count(s, i) { CountCut(s, r, k, i); }
  }

  lemma EntryExists(s: State, k: Place)
    requires Inv(s) && k in s.entries
    ensures s.entries[k] in s.nlinks && Links(s, s.entries[k]) < 256 && k.dir in s.nlinks
  {
    hide Tree, Owing;
    Exists(s, k);
  }

  lemma UnlinkedInv(s: State, k: Place, ino: nat)
    requires Inv(s) && Enabled(s, Clear(k, ino)) && Good(s, Clear(k, ino)) && Enabled(Do(s, Clear(k, ino)), Lower(Cleared(ino)))
    ensures Inv(Unlinked(s, k, ino))
  {
    hide Inv, Do, Enabled;
    StepKeeps(s, Clear(k, ino));
    StepKeeps(Do(s, Clear(k, ino)), Lower(Cleared(ino)));
  }

  /** rmdir keeps them exact. */
  lemma RmdirKeeps(s: State, k: Place, ino: nat)
    requires Exact(s) && k in s.entries && s.entries[k] == ino && ino in s.up && Empty(s, ino)
    requires ino in s.held && k.dir in s.held
    ensures Exact(Do(Do(s, ClearDir(k, ino)), LowerDir(ino, k.dir)))
  {
    hide Inv, Count, Do, Enabled, Good, Empty;
    assert ino in s.nlinks && k.dir in s.nlinks by { EntryExists(s, k); }
    ExactIs(s, ino);
    RmdirGood(s, k, ino);
    var m := Do(s, ClearDir(k, ino));
    StepKeeps(s, ClearDir(k, ino));
    StepKeeps(m, LowerDir(ino, k.dir));
    var r := Do(m, LowerDir(ino, k.dir));
    RemovedDir(s, k, ino);
    forall i: nat ensures Count(r, i) <= Count(s, i) { CountCutDir(s, r, k, ino, i); }
  }

  lemma RemovedDir(s: State, k: Place, ino: nat)
    requires s.debts == multiset{} && Enabled(s, ClearDir(k, ino)) && ino in s.nlinks && k.dir in s.nlinks
    ensures var r := Do(Do(s, ClearDir(k, ino)), LowerDir(ino, k.dir));
            r.entries == s.entries - {k} && r.up == s.up - {ino} && r.debts == multiset{} && r.nlinks.Keys == s.nlinks.Keys
  {
    assert multiset{Gone(ino), Cleared(k.dir)} - multiset{Gone(ino), Cleared(k.dir)} == multiset{};
  }

  // ---- what goes wrong -----------------------------------------------------------------------------

  /** A file system with an empty root directory, which somebody works in. */
  function Root(): State { State(map[], map[1 := 1], map[1 := 2], multiset{}, multiset{1}) }

  lemma RootInv()
    ensures Inv(Root()) && NoOrphan(Root())
  {
    hide Tree, Ledger;
    RootRooted(Root().up);
    FlatTree(Root(), 2);
    RootLedger();
  }

  lemma RootLedger()
    ensures Ledger(Root())
  {
    assert Below(Root().up, 1) == {1} && Named(Root().entries, 1) == {};
    hide Below, Named;
  }

  lemma RootRooted(up: map<nat, nat>)
    requires up == map[1 := 1]
    ensures Rooted(up)
  {
    assert Climbs(up, 1, 0);
  }

  /** unlink after iget. */
  function Unlinked(s: State, k: Place, ino: nat): State {
    Do(Do(s, Clear(k, ino)), Lower(Cleared(ino)))
  }

  lemma UnlinkOnce(s: State, k: Place, ino: nat)
    requires ino in s.nlinks && ino in s.held && ino !in s.up && s.debts == multiset{} && 0 < s.nlinks[ino] < 256
    ensures Enabled(s, Clear(k, ino)) && Enabled(Do(s, Clear(k, ino)), Lower(Cleared(ino)))
    ensures Unlinked(s, k, ino) == s.(entries := s.entries - {k}, nlinks := s.nlinks[ino := s.nlinks[ino] - 1])
  {
    hide Do;
    DoClear(s, k, ino);
    var m := Do(s, Clear(k, ino));
    assert m.nlinks == s.nlinks;
    DoLower(m, ino);
    ThereAndBack(s.held, ino);
    assert s.debts + multiset{Cleared(ino)} - multiset{Cleared(ino)} == s.debts;
  }

  lemma ThereAndBack(m: multiset<nat>, i: nat)
    requires i in m
    ensures m - multiset{i} + multiset{i} == m
  {
  }

  lemma DoClear(s: State, k: Place, ino: nat)
    requires ino in s.nlinks && s.nlinks[ino] > 0
    ensures Do(s, Clear(k, ino)) == s.(entries := s.entries - {k}, nlinks := s.nlinks[ino := s.nlinks[ino]],
                                       debts := s.debts + multiset{Cleared(ino)}, held := s.held - multiset{ino})
  {
  }

  lemma DoLower(s: State, ino: nat)
    requires ino in s.nlinks && 0 < s.nlinks[ino] < 256
    ensures Do(s, Lower(Cleared(ino))) == s.(nlinks := s.nlinks[ino := s.nlinks[ino] - 1],
                                             debts := s.debts - multiset{Cleared(ino)}, held := s.held + multiset{ino})
  {
  }

  lemma DoPut(s: State, ino: nat)
    ensures Do(s, Put(ino)) == s.(held := s.held - multiset{ino}, debts := if Last(s, ino) then s.debts + multiset{Dying(ino)} else s.debts)
    ensures ino in s.held ==> Enabled(s, Put(ino))
  {
  }

  /** The steps are enabled one after the other and lead from s to r. */
  ghost predicate LeadsTo(s: State, steps: seq<Step>, r: State)
    decreases |steps|
  {
    if steps == [] then s == r else Enabled(s, steps[0]) && LeadsTo(Do(s, steps[0]), steps[1..], r)
  }

  lemma Leads(s: State, a: Step, steps: seq<Step>, r: State)
    requires Enabled(s, a) && LeadsTo(Do(s, a), steps, r)
    ensures LeadsTo(s, [a] + steps, r)
  {
    assert ([a] + steps)[1..] == steps;
  }

  /** The file 5 at n entries of the root directory. */
  function WithFile(entries: map<Place, nat>, n: nat, held: multiset<nat>): State {
    State(entries, map[1 := 1], map[1 := 2, 5 := n], multiset{}, held)
  }

  lemma WithFileInv(entries: map<Place, nat>, n: nat, held: multiset<nat>)
    requires n < 256 && |entries| == n && (forall k | k in entries :: k.dir == 1 && entries[k] == 5)
    requires forall i | i in held :: i == 1 || i == 5
    ensures Inv(WithFile(entries, n, held)) && Count(WithFile(entries, n, held), 5) == n
  {
    hide Tree, Ledger, Count;
    var s := WithFile(entries, n, held);
    RootRooted(s.up);
    FlatTree(s, 5);
    FlatCounts(s, 5);
    FlatLedger(s, 5, n);
  }

  /** The root with entries for one file. */
  lemma FlatTree(s: State, f: nat)
    requires s.up == map[1 := 1] && f != 1 && (forall k | k in s.entries :: k.dir == 1 && s.entries[k] == f)
    requires Rooted(s.up) && 1 in s.nlinks && (s.entries != map[] ==> f in s.nlinks)
    ensures Tree(s)
  {
    hide Rooted;
    assert forall k | k in s.entries :: s.entries != map[];
  }

  lemma FlatCounts(s: State, f: nat)
    requires s.up == map[1 := 1] && f != 1 && (forall k | k in s.entries :: s.entries[k] == f)
    ensures Count(s, 1) == 2 && Count(s, f) == |s.entries|
  {
    assert Named(s.entries, 1) == {} && Named(s.entries, f) == s.entries.Keys;
    assert Below(s.up, 1) == {1} && Below(s.up, f) == {};
    hide Named, Below;
  }

  lemma FlatLedger(s: State, f: nat, n: nat)
    requires s.nlinks == map[1 := 2, f := n] && n < 256 && s.debts == multiset{} && Count(s, 1) == 2 && Count(s, f) == n
    ensures Ledger(s)
  {
    hide Count;
  }

  /** unlink from the return of iget on. */
  function UnlinkSteps(k: Place, ino: nat): seq<Step> {
    [Clear(k, ino), Lower(Cleared(ino)), Put(ino)]
  }

  lemma UnlinkLeads(s: State, k: Place, ino: nat, rest: seq<Step>, r: State)
    requires ino in s.nlinks && ino in s.held && ino !in s.up && s.debts == multiset{} && 0 < s.nlinks[ino] < 256
    requires LeadsTo(Do(Unlinked(s, k, ino), Put(ino)), rest, r)
    ensures LeadsTo(s, UnlinkSteps(k, ino) + rest, r)
  {
    hide Do, Enabled, LeadsTo, Last;
    UnlinkOnce(s, k, ino);
    var m := Do(s, Clear(k, ino));
    var u := Do(m, Lower(Cleared(ino)));
    DoPut(u, ino);
    Leads(u, Put(ino), rest, r);
    Leads(m, Lower(Cleared(ino)), [Put(ino)] + rest, r);
    Leads(s, Clear(k, ino), [Lower(Cleared(ino))] + ([Put(ino)] + rest), r);
    assert [Clear(k, ino)] + ([Lower(Cleared(ino))] + ([Put(ino)] + rest)) == UnlinkSteps(k, ino) + rest;
  }

  lemma GetLeads(s: State, ino: nat, rest: seq<Step>, r: State)
    requires LeadsTo(s.(held := s.held + multiset{ino}), rest, r)
    ensures LeadsTo(s, [Get(ino)] + rest, r)
  {
    hide LeadsTo;
    assert Enabled(s, Get(ino));
    Leads(s, Get(ino), rest, r);
  }

  /** What one unlink of entry k makes of the file, the task's reference given back. */
  lemma FileUnlinked(entries: map<Place, nat>, n: nat, held: multiset<nat>, k: Place)
    requires 0 < n < 256 && 5 in held
    ensures var r := WithFile(entries - {k}, n - 1, held - multiset{5});
            Do(Unlinked(WithFile(entries, n, held), k, 5), Put(5)) == if n == 1 && held[5] == 1 then r.(debts := multiset{Dying(5)}) else r
  {
    hide Do, Unlinked, Quiet, Enabled;
    var s := WithFile(entries, n, held);
    UnlinkOnce(s, k, 5);
    var u := WithFile(entries - {k}, n - 1, held);
    assert s.nlinks[5 := n - 1] == u.nlinks;
    assert u == Unlinked(s, k, 5);
    DoPut(u, 5);
    assert Quiet(u, 5) by { NoDebts(u, 5); }
    assert multiset{} + multiset{Dying(5)} == multiset{Dying(5)};
  }

  lemma NoDebts(s: State, ino: nat)
    requires s.debts == multiset{}
    ensures Quiet(s, ino)
  {
  }

  /** Two tasks unlink one of two entries of a file; both found it before either slept in iget.  In the end no link is
      left, and the second iput goes on to free the inode, though the other entry names it. */
  lemma UnlinkTwice()
    ensures var k := Place(1, 2);
            var s := WithFile(map[k := 5, Place(1, 3) := 5], 2, multiset{});
            var r := WithFile(map[Place(1, 3) := 5], 0, multiset{}).(debts := multiset{Dying(5)});
            && Inv(s) && LeadsTo(s, [Get(5), Get(5)] + (UnlinkSteps(k, 5) + UnlinkSteps(k, 5)), r)
            && Enabled(r, Free(5)) && Count(r, 5) == 1
  {
    hide Inv, Do, LeadsTo, Unlinked, UnlinkSteps, Quiet, Enabled, Count, WithFile;
    var k := Place(1, 2);
    var (both, left) := (map[k := 5, Place(1, 3) := 5], map[Place(1, 3) := 5]);
    assert both.Keys == {k, Place(1, 3)};
    WithFileInv(both, 2, multiset{});
    var r := WithFile(left, 0, multiset{}).(debts := multiset{Dying(5)});
    LastUnlink(left, k, r);
    FirstUnlink(both, left, k, UnlinkSteps(k, 5), r);
    var steps := UnlinkSteps(k, 5) + UnlinkSteps(k, 5);
    TwoGets(both, 2, steps, r);
    OneLeft(r);
  }

  lemma LastUnlink(left: map<Place, nat>, k: Place, r: State)
    requires r == WithFile(left, 0, multiset{}).(debts := multiset{Dying(5)}) && k !in left
    ensures LeadsTo(WithFile(left, 1, multiset{5}), UnlinkSteps(k, 5), r)
  {
    hide Do, LeadsTo, Unlinked, UnlinkSteps;
    assert left - {k} == left && multiset{5} - multiset{5} == multiset{};
    FileUnlinked(left, 1, multiset{5}, k);
    NoSteps(r);
    UnlinkLeads(WithFile(left, 1, multiset{5}), k, 5, [], r);
    assert UnlinkSteps(k, 5) + [] == UnlinkSteps(k, 5);
  }

  lemma FirstUnlink(both: map<Place, nat>, left: map<Place, nat>, k: Place, rest: seq<Step>, r: State)
    requires both - {k} == left && LeadsTo(WithFile(left, 1, multiset{5}), rest, r)
    ensures LeadsTo(WithFile(both, 2, multiset{5, 5}), UnlinkSteps(k, 5) + rest, r)
  {
    hide Do, LeadsTo, Unlinked, UnlinkSteps;
    assert multiset{5, 5} - multiset{5} == multiset{5};
    FileUnlinked(both, 2, multiset{5, 5}, k);
    UnlinkLeads(WithFile(both, 2, multiset{5, 5}), k, 5, rest, r);
  }

  lemma TwoGets(entries: map<Place, nat>, n: nat, rest: seq<Step>, r: State)
    requires LeadsTo(WithFile(entries, n, multiset{5, 5}), rest, r)
    ensures LeadsTo(WithFile(entries, n, multiset{}), [Get(5), Get(5)] + rest, r)
  {
    hide LeadsTo;
    assert multiset{} + multiset{5} == multiset{5} && multiset{5} + multiset{5} == multiset{5, 5};
    GetLeads(WithFile(entries, n, multiset{5}), 5, rest, r);
    GetLeads(WithFile(entries, n, multiset{}), 5, [Get(5)] + rest, r);
    assert [Get(5)] + ([Get(5)] + rest) == [Get(5), Get(5)] + rest;
  }

  lemma NoSteps(r: State)
    ensures LeadsTo(r, [], r)
  {
  }

  lemma OneLeft(r: State)
    requires r == WithFile(map[Place(1, 3) := 5], 0, multiset{}).(debts := multiset{Dying(5)})
    ensures Enabled(r, Free(5)) && Count(r, 5) == 1
  {
    assert Named(r.entries, 5) == {Place(1, 3)} && Below(r.up, 5) == {};
    hide Named, Below;
    assert Count(r, 5) == 1;
  }

  /** Two tasks unlink the only entry of a file, the second asleep in iget before it has taken the inode.  The first
      frees the inode; everything is as it should be, but for the number the second goes on with. */
  lemma StaleNumber()
    ensures var k := Place(1, 2);
            var s := WithFile(map[k := 5], 1, multiset{});
            var r := Root().(held := multiset{});
            && Inv(s) && LeadsTo(s, [Get(5)] + (UnlinkSteps(k, 5) + [Free(5)]), r)
            && Inv(r) && Enabled(r, Get(5)) && !Good(r, Get(5))
  {
    hide Inv, Do, LeadsTo, Unlinked, UnlinkSteps, Quiet, Enabled, Good, Count;
    var k := Place(1, 2);
    var one := map[k := 5];
    assert one.Keys == {k} && one - {k} == map[];
    WithFileInv(one, 1, multiset{});
    var (d, r) := (WithFile(map[], 0, multiset{}).(debts := multiset{Dying(5)}), Root().(held := multiset{}));
    FileUnlinked(one, 1, multiset{5}, k);
    assert multiset{5} - multiset{5} == multiset{} == multiset{} + multiset{5} - multiset{5};
    Freed(d, r);
    NoSteps(r);
    Leads(d, Free(5), [], r);
    assert [Free(5)] + [] == [Free(5)];
    UnlinkLeads(WithFile(one, 1, multiset{5}), k, 5, [Free(5)], r);
    assert multiset{} + multiset{5} == multiset{5};
    GetLeads(WithFile(one, 1, multiset{}), 5, UnlinkSteps(k, 5) + [Free(5)], r);
    RootInv();
    SameInv(Root(), r);
    assert Enabled(r, Get(5)) && !Good(r, Get(5)) by { NotThereYet(r); }
  }

  lemma Freed(d: State, r: State)
    requires d == WithFile(map[], 0, multiset{}).(debts := multiset{Dying(5)}) && r == Root().(held := multiset{})
    ensures Enabled(d, Free(5)) && Do(d, Free(5)) == r
  {
    assert map[1 := 2, 5 := 0] - {5} == map[1 := 2];
    assert multiset{Dying(5)} - multiset{Dying(5)} == multiset{};
  }

  lemma NotThereYet(r: State)
    requires 5 !in r.nlinks
    ensures Enabled(r, Get(5)) && !Good(r, Get(5))
  {
  }

  lemma SameInv(s: State, r: State)
    requires Inv(s) && r == s.(held := r.held) && forall i | i in r.held :: i in s.held
    ensures Inv(r)
  {
    hide Core;
    SameCore(s, r);
  }

  /** The file 2, linked n more times. */
  function Linked(n: nat): State {
    if n == 0 then State(map[Place(1, 2) := 2], map[1 := 1], map[1 := 2, 2 := 1], multiset{}, multiset{2})
    else Do(Do(Linked(n - 1), EnterLink(Place(1, n + 2), 2)), Raise(2))
  }

  lemma LinkOnce(s: State, k: Place, ino: nat)
    requires Inv(s) && s.debts == multiset{} && k !in s.entries && k.dir in s.up && ino in s.nlinks && ino in s.held && ino !in s.up
    ensures var r := Do(Do(s, EnterLink(k, ino)), Raise(ino));
            Inv(r) && r == s.(entries := s.entries[k := ino], nlinks := s.nlinks[ino := Inc(s.nlinks[ino])])
  {
    hide Inv;
    StepKeeps(s, EnterLink(k, ino));
    var m := Do(s, EnterLink(k, ino));
    StepKeeps(m, Raise(ino));
    assert Do(m, Raise(ino)).debts == multiset{} && Do(m, Raise(ino)).held == s.held;
  }

  ghost predicate LinkedTo(s: State, n: nat) {
    && Inv(s) && s.debts == multiset{} && s.up == map[1 := 1] && s.nlinks.Keys == {1, 2} && s.held == multiset{2}
    && |Named(s.entries, 2)| == n + 1 && forall k | k in s.entries :: k.slot <= n + 2
  }

  lemma LinkedFirst()
    ensures LinkedTo(State(map[Place(1, 2) := 2], map[1 := 1], map[1 := 2, 2 := 1], multiset{}, multiset{2}), 0)
  {
    hide Tree, Ledger, Count;
    var s := State(map[Place(1, 2) := 2], map[1 := 1], map[1 := 2, 2 := 1], multiset{}, multiset{2});
    RootRooted(s.up);
    FlatTree(s, 2);
    FlatCounts(s, 2);
    assert |s.entries| == 1;
    FlatLedger(s, 2, 1);
    assert Named(s.entries, 2) == {Place(1, 2)};
  }

  lemma LinkedNext(s: State, n: nat)
    requires LinkedTo(s, n)
    ensures LinkedTo(Do(Do(s, EnterLink(Place(1, n + 3), 2)), Raise(2)), n + 1)
  {
    hide Inv, Named;
    LinkOnce(s, Place(1, n + 3), 2);
    NamedAdd(s.entries, Place(1, n + 3), 2, 2);
    hide Do;
  }

  lemma {:induction false} LinkedOk(n: nat)
    ensures LinkedTo(Linked(n), n)
  {
    hide LinkedTo, Do;
    if n == 0 { LinkedFirst(); } else {
      LinkedOk(n - 1);
      LinkedNext(Linked(n - 1), n - 1);
    }
  }

  /** The last of what somebody holds of an inode whose byte is 0 though 256 entries name it. */
  lemma PutFrees(s: State, ino: nat)
    requires Inv(s) && s.debts == multiset{} && ino in s.nlinks && s.held[ino] == 1 && Count(s, ino) == 256
    ensures Enabled(s, Put(ino)) && Enabled(Do(s, Put(ino)), Free(ino)) && !Good(Do(s, Put(ino)), Free(ino))
  {
    hide Count;
    ByteIsZero(s, ino);
    hide Inv, Last, Quiet;
    assert Last(s, ino) by { NoDebtsLast(s, ino); }
    var r := Do(s, Put(ino));
    assert Dying(ino) in r.debts;
    SameCount(s, r, ino);
  }

  lemma ByteIsZero(s: State, ino: nat)
    requires Inv(s) && s.debts == multiset{} && ino in s.nlinks && Count(s, ino) == 256
    ensures Links(s, ino) == 0
  {
    hide Tree, Owing, Count;
    QuietLate(s, ino);
  }

  lemma NoDebtsLast(s: State, ino: nat)
    requires s.debts == multiset{} && s.held[ino] == 1 && Links(s, ino) == 0
    ensures Last(s, ino)
  {
  }

  lemma SameCount(s: State, r: State, ino: nat)
    requires r.entries == s.entries && r.up == s.up
    ensures Count(r, ino) == Count(s, ino)
  {
  }

  /** The link call has no test: 256 entries come out as no link, and iput goes on to free the inode under them. */
  lemma LinkRunsOver(n: nat)
    requires n == 255
    ensures var s := Linked(n);
            && Inv(s) && Count(s, 2) == 256 && Enabled(s, Put(2))
            && Enabled(Do(s, Put(2)), Free(2)) && !Good(Do(s, Put(2)), Free(2))
  {
    hide Linked, Inv;
    LinkedOk(n);
    assert Below(Linked(n).up, 2) == {};
    hide Named, Below;
    PutFrees(Linked(n), 2);
  }

  /** The root directory with n directories in it. */
  function Crowded(n: nat): State {
    if n == 0 then Root()
    else Do(Do(Crowded(n - 1), MakeDir(n + 1)), EnterDir(Place(1, n + 1), n + 1))
  }

  lemma MkdirOnce(s: State, k: Place, ino: nat)
    requires Inv(s) && s.debts == multiset{} && k !in s.entries && k.dir in s.up && k.dir in s.held && ino !in s.nlinks
    ensures var r := Do(Do(s, MakeDir(ino)), EnterDir(k, ino));
            && Inv(r) && r.debts == multiset{} && r.entries == s.entries[k := ino] && r.up == s.up[ino := k.dir]
            && r.nlinks.Keys == s.nlinks.Keys + {ino} && r.held == s.held + multiset{ino}
  {
    hide Inv, Do, Enabled, Good;
    HeldExists(s, k.dir);
    DoMakeDir(s, ino);
    var m := Do(s, MakeDir(ino));
    DoEnterDir(m, k, ino);
    StepKeeps(s, MakeDir(ino));
    StepKeeps(m, EnterDir(k, ino));
    assert multiset{} + multiset{NewDir(ino)} - multiset{NewDir(ino)} == multiset{};
  }

  lemma DoMakeDir(s: State, ino: nat)
    requires ino !in s.nlinks
    ensures Do(s, MakeDir(ino)) == s.(nlinks := s.nlinks[ino := 2], debts := s.debts + multiset{NewDir(ino)})
    ensures Enabled(s, MakeDir(ino)) && Good(s, MakeDir(ino))
  {
  }

  lemma DoEnterDir(s: State, k: Place, ino: nat)
    requires NewDir(ino) in s.debts && k !in s.entries && k.dir in s.held && k.dir in s.up
    ensures var r := Do(s, EnterDir(k, ino));
            && r.entries == s.entries[k := ino] && r.up == s.up[ino := k.dir] && r.nlinks.Keys == s.nlinks.Keys + {k.dir}
            && r.debts == s.debts - multiset{NewDir(ino)} && r.held == s.held + multiset{ino}
    ensures Enabled(s, EnterDir(k, ino)) && Good(s, EnterDir(k, ino))
  {
  }

  ghost predicate CrowdedWith(s: State, n: nat) {
    && Inv(s) && s.debts == multiset{} && 1 in s.up && 1 in s.nlinks && s.held[1] == 1 && Count(s, 1) == n + 2
    && (forall i | i in s.nlinks :: i <= n + 1) && forall k | k in s.entries :: k.slot <= n + 1
  }

  lemma CrowdedNext(s: State, n: nat)
    requires CrowdedWith(s, n)
    ensures CrowdedWith(Do(Do(s, MakeDir(n + 2)), EnterDir(Place(1, n + 2), n + 2)), n + 1)
  {
    hide Inv, Named, Below, Do;
    var k := Place(1, n + 2);
    MkdirOnce(s, k, n + 2);
    NamedAdd(s.entries, k, n + 2, 1);
    UpExist(s, n + 2);
    BelowAdd(s.up, n + 2, 1, 1);
  }

  lemma CrowdedFirst()
    ensures CrowdedWith(Root(), 0)
  {
    RootInv();
    hide Inv;
    assert Below(Root().up, 1) == {1} && Named(Root().entries, 1) == {};
  }

  lemma {:induction false} CrowdedOk(n: nat)
    ensures CrowdedWith(Crowded(n), n)
  {
    hide Do, CrowdedWith, Root;
    if n == 0 { CrowdedFirst(); } else {
      CrowdedOk(n - 1);
      CrowdedNext(Crowded(n - 1), n - 1);
    }
  }

  lemma UpExist(s: State, d: nat)
    requires Inv(s) && d !in s.nlinks
    ensures d !in s.up
  {
  }

  /** Neither has mkdir: with 254 directories in it, the root has no link left. */
  lemma MkdirRunsOver(n: nat)
    requires n == 254
    ensures var s := Crowded(n);
            && Inv(s) && Count(s, 1) == 256 && Enabled(s, Put(1))
            && Enabled(Do(s, Put(1)), Free(1)) && !Good(Do(s, Put(1)), Free(1))
  {
    hide Crowded, Inv;
    CrowdedOk(n);
    PutFrees(Crowded(n), 1);
  }
}
