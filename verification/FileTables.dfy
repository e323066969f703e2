/** The open-file table: sys_open and sys_close (fs/open.cc), dup and dup2 (fs/fcntl.cc), pipe (fs/pipe.cc), and what
    fork and exit do to it (kernel/fork.cc, kernel/exit.cc). */
module FileTables {
  import opened Basics

  const NR_OPEN: nat := 20
  const NR_FILE: nat := 64
  const SLOTS: nat := 1280   // NR_TASKS * NR_OPEN

  /** f_count of each file; the filp entries of all tasks, task t's from 20 * t on, -1 for none; and, for a task
      asleep in the middle of open or pipe, the entries it has claimed. */
  datatype Table = Table(count: seq<nat>, filp: seq<int>, claims: seq<set<nat>>)

  function Names(filp: seq<int>, f: int): nat {
    if filp == [] then 0 else Names(filp[..|filp| - 1], f) + if filp[|filp| - 1] == f then 1 else 0
  }

  lemma {:induction false} NamesUpdate(filp: seq<int>, i: nat, v: int, f: int)
    requires i < |filp|
    ensures Names(filp[i := v], f) == Names(filp, f) - (if filp[i] == f then 1 else 0) + (if v == f then 1 else 0)
    ensures filp[i] == f ==> Names(filp, f) > 0
  {
    if i < |filp| - 1 {
      NamesUpdate(filp[..|filp| - 1], i, v, f);
      assert filp[i := v][..|filp| - 1] == filp[..|filp| - 1][i := v];
    } else {
      assert filp[i := v][..|filp| - 1] == filp[..|filp| - 1];
    }
  }

  lemma {:induction false} NamesBounds(filp: seq<int>, f: int)
    ensures Names(filp, f) <= |filp| && (Names(filp, f) == 0 <==> f !in filp)
  {
    if filp != [] {
      NamesBounds(filp[..|filp| - 1], f);
      assert filp == filp[..|filp| - 1] + [filp[|filp| - 1]];
    }
  }

  /** Two entries that name the same file make two. */
  lemma NamesTwice(filp: seq<int>, i: nat, j: nat, f: int)
    requires i < |filp| && j < |filp| && i != j && filp[i] == f == filp[j] && f != -1
    ensures Names(filp, f) >= 2
  {
    NamesUpdate(filp, i, -1, f);
    NamesUpdate(filp[i := -1], j, -1, f);
  }

  predicate Shape(s: Table) {
    && |s.count| == NR_FILE && |s.filp| == SLOTS && |s.claims| == NR_TASKS
    && forall i | 0 <= i < SLOTS :: -1 <= s.filp[i] < NR_FILE
  }

  /** Every count is the number of entries naming the file. */
  ghost predicate Counted(s: Table)
    requires Shape(s)
  {
    forall f | 0 <= f < NR_FILE :: s.count[f] == Names(s.filp, f)
  }

  /** A claimed entry is in its task's row, and its file is named by it only. */
  predicate ClaimOk(s: Table, t: nat, i: nat)
    requires Shape(s)
  {
    20 * t <= i < 20 * t + 20 && i < SLOTS && s.filp[i] != -1 && s.count[s.filp[i]] == 1
  }

  predicate Claimed(s: Table)
    requires Shape(s)
  {
    forall t: nat, i: nat | t < NR_TASKS && i in s.claims[t] :: ClaimOk(s, t, i)
  }

  ghost predicate Inv(s: Table) {
    Shape(s) && Counted(s) && Claimed(s)
  }

  /** No count can overflow its 16 bits. */
  lemma CountsFit(s: Table, f: nat)
    requires Inv(s) && f < NR_FILE
    ensures s.count[f] <= NR_TASKS * NR_OPEN < 0x1_0000
  {
    NamesBounds(s.filp, f);
  }

  /** No claimed entry names file f. */
  predicate NoneClaims(s: Table, f: int)
    requires Shape(s)
  {
    forall t: nat, j: nat | t < NR_TASKS && j in s.claims[t] :: j < SLOTS && s.filp[j] != f
  }

  /** A free entry comes to name file f. */
  function Filled(s: Table, i: nat, f: nat): (r: Table)
    requires Shape(s) && i < SLOTS && f < NR_FILE
    ensures Shape(r)
  {
    s.(filp := s.filp[i := f], count := s.count[f := s.count[f] + 1])
  }

  lemma FilledOk(s: Table, i: nat, f: nat)
    requires Inv(s) && i < SLOTS && f < NR_FILE && s.filp[i] == -1
    requires NoneClaims(s, f)
    ensures Inv(Filled(s, i, f))
  {
    var r := Filled(s, i, f);
    forall g | 0 <= g < NR_FILE ensures r.count[g] == Names(r.filp, g) {
      NamesUpdate(s.filp, i, f, g);
    }
    forall t: nat, j: nat | t < NR_TASKS && j in r.claims[t] ensures ClaimOk(r, t, j) { assert ClaimOk(s, t, j); }
  }

  /** An entry is given up. */
  function Cleared(s: Table, i: nat): Table
    requires Shape(s) && i < SLOTS && s.filp[i] >= 0
  {
    var n := s.count[s.filp[i]];
    s.(filp := s.filp[i := -1], count := s.count[s.filp[i] := if n > 0 then n - 1 else 0])
  }

  lemma ClearedOk(s: Table, i: nat)
    requires Inv(s) && i < SLOTS && s.filp[i] >= 0 && forall t: nat | t < NR_TASKS :: i !in s.claims[t]
    ensures s.count[s.filp[i]] > 0 && Inv(Cleared(s, i))
    ensures Cleared(s, i).count[s.filp[i]] == 0 <==> s.filp[i] !in Cleared(s, i).filp
  {
    var f := s.filp[i];
    NamesUpdate(s.filp, i, -1, f);
    var r := Cleared(s, i);
    forall g | 0 <= g < NR_FILE ensures r.count[g] == Names(r.filp, g) {
      NamesUpdate(s.filp, i, -1, g);
    }
    NamesBounds(r.filp, f);
    forall t: nat, j: nat | t < NR_TASKS && j in r.claims[t] ensures ClaimOk(r, t, j) {
      assert ClaimOk(s, t, j);
      NotClaimed(s, i, t, j);
    }
  }

  /** A file that two entries could name is not a claimed one. */
  lemma NotClaimed(s: Table, i: nat, t: nat, j: nat)
    requires Inv(s) && i < SLOTS && s.filp[i] >= 0 && t < NR_TASKS && j in s.claims[t] && j != i
    ensures j < SLOTS && s.filp[j] != s.filp[i]
  {
    assert ClaimOk(s, t, j);
    if s.filp[j] == s.filp[i] { NamesTwice(s.filp, i, j, s.filp[i]); }
  }

  /** Only task t claims entries of its row. */
  lemma OwnRow(s: Table, t: nat, i: nat, u: nat)
    requires Inv(s) && t < NR_TASKS && 20 * t <= i < 20 * t + 20 && u < NR_TASKS && i in s.claims[u]
    ensures u == t
  {
    assert ClaimOk(s, u, i);
  }

  /** A free entry may come to name what entry i of task t names, when t is not in the middle of a call. */
  lemma SharedOk(s: Table, t: nat, i: nat, n: nat)
    requires Inv(s) && t < NR_TASKS && s.claims[t] == {} && 20 * t <= i < 20 * t + 20 && s.filp[i] >= 0
    requires n < SLOTS && s.filp[n] == -1
    ensures Inv(Filled(s, n, s.filp[i]))
  {
    hide Counted, Names;
    var f := s.filp[i];
    assert NoneClaims(s, f) by {
      forall u: nat, j: nat | u < NR_TASKS && j in s.claims[u] ensures j < SLOTS && s.filp[j] != f {
        assert j != i by { if j == i { OwnRow(s, t, i, u); } }
        NotClaimed(s, i, u, j);
      }
    }
    hide NoneClaims;
    FilledOk(s, n, f);
  }

  /** Giving up the claims of a task changes nothing else. */
  lemma Unclaimed(s: Table, t: nat, c: set<nat>)
    requires Inv(s) && t < NR_TASKS && c <= s.claims[t]
    ensures Inv(s.(claims := s.claims[t := c]))
  {
    var r := s.(claims := s.claims[t := c]);
    forall u: nat, j: nat | u < NR_TASKS && j in r.claims[u] ensures ClaimOk(r, u, j) { assert ClaimOk(s, u, j); }
  }

  /** A task claims entries whose files nothing else names. */
  lemma ClaimsOk(s: Table, t: nat, c: set<nat>)
    requires Inv(s) && t < NR_TASKS && forall i | i in c :: ClaimOk(s, t, i)
    ensures Inv(s.(claims := s.claims[t := c]))
  {
    var r := s.(claims := s.claims[t := c]);
    forall u: nat, j: nat | u < NR_TASKS && j in r.claims[u] ensures ClaimOk(r, u, j) { if u != t { assert ClaimOk(s, u, j); } }
  }

  /** A claimed entry is given up: setting the count to 0 is taking one off. */
  lemma DroppedOk(s: Table, t: nat, i: nat)
    requires Inv(s) && t < NR_TASKS && i in s.claims[t]
    ensures ClaimOk(s, t, i)
    ensures Inv(s.(filp := s.filp[i := -1], count := s.count[s.filp[i] := 0], claims := s.claims[t := s.claims[t] - {i}]))
  {
    assert ClaimOk(s, t, i);
    Unclaimed(s, t, s.claims[t] - {i});
    var m := s.(claims := s.claims[t := s.claims[t] - {i}]);
    forall u: nat | u < NR_TASKS ensures i !in m.claims[u] { if i in m.claims[u] { OwnRow(s, t, i, u); } }
    ClearedOk(m, i);
  }

  /** Entry fd of task t. */
  function At(t: nat, fd: nat): nat { 20 * t + fd }

  /** Entries outside task t's row are as they were. */
  predicate OthersKept(s: Table, r: Table, t: nat)
    requires Shape(s) && Shape(r)
  {
    && (forall i | 0 <= i < SLOTS && !(20 * t <= i < 20 * t + 20) :: r.filp[i] == s.filp[i])
    && (forall u | 0 <= u < NR_TASKS && u != t :: r.claims[u] == s.claims[u])
  }

  /** Task t's row and claims are as they were. */
  predicate RowKept(s: Table, r: Table, t: nat)
    requires Shape(s) && Shape(r) && t < NR_TASKS
  {
    r.claims[t] == s.claims[t] && forall fd | 0 <= fd < NR_OPEN :: r.filp[At(t, fd)] == s.filp[At(t, fd)]
  }

  ghost predicate TwoFiles(s: Table)
    requires Shape(s)
  {
    exists f, g :: 0 <= f < g < NR_FILE && s.count[f] == 0 == s.count[g]
  }

  ghost predicate TwoEntries(s: Table, t: nat)
    requires Shape(s) && t < NR_TASKS
  {
    exists i, j :: 0 <= i < j < NR_OPEN && s.filp[At(t, i)] == -1 == s.filp[At(t, j)]
  }

  /** A task's step leaves alone what every other task relies on. */
  lemma Undisturbed(s: Table, r: Table, t: nat, u: nat)
    requires Shape(s) && Shape(r) && OthersKept(s, r, t) && u < NR_TASKS && u != t
    ensures RowKept(s, r, u)
  {
    forall fd | 0 <= fd < NR_OPEN ensures r.filp[At(u, fd)] == s.filp[At(u, fd)] {
      assert !(20 * t <= At(u, fd) < 20 * t + 20);
    }
  }

  lemma NewFile(s: Table, f: nat)
    requires Inv(s) && f < NR_FILE && s.count[f] == 0
    ensures f !in s.filp && NoneClaims(s, f)
  {
    NamesBounds(s.filp, f);
    forall t: nat, j: nat | t < NR_TASKS && j in s.claims[t] ensures j < SLOTS && s.filp[j] != f { assert ClaimOk(s, t, j); }
  }

  // ---- steps ---------------------------------------------------------------------------------------

  /** The first free entry of task t from fd on, NR_OPEN when there is none. */
  function FirstEntry(filp: seq<int>, t: nat, from: nat): (fd: nat)
    requires |filp| == SLOTS && t < NR_TASKS && from <= NR_OPEN
    ensures from <= fd <= NR_OPEN && (fd < NR_OPEN ==> filp[At(t, fd)] == -1)
    ensures forall i | from <= i < fd :: filp[At(t, i)] != -1
    decreases NR_OPEN - from
  {
    if from == NR_OPEN || filp[At(t, from)] == -1 then from else FirstEntry(filp, t, from + 1)
  }

  /** The first file from f on that nobody uses, NR_FILE when there is none. */
  function FirstFile(count: seq<nat>, from: nat): (f: nat)
    requires |count| == NR_FILE && from <= NR_FILE
    ensures from <= f <= NR_FILE && (f < NR_FILE ==> count[f] == 0) && forall g | from <= g < f :: count[g] > 0
    decreases NR_FILE - from
  {
    if from == NR_FILE || count[from] == 0 then from else FirstFile(count, from + 1)
  }

  function OpenedBegin(s: Table, t: nat): (r: Table)
    requires Shape(s) && t < NR_TASKS
    ensures Shape(r)
  {
    var (n, f) := (FirstEntry(s.filp, t, 0), FirstFile(s.count, 0));
    if n == NR_OPEN || f == NR_FILE then s
    else var m := Filled(s, At(t, n), f); m.(claims := m.claims[t := {At(t, n)}])
  }

  function OpenedEnd(s: Table, t: nat, fd: nat, ok: bool): (r: Table)
    requires Shape(s) && t < NR_TASKS && fd < NR_OPEN
    ensures Shape(r)
  {
    var f := s.filp[At(t, fd)];
    if f < 0 then s
    else if ok then s.(count := s.count[f := 1], claims := s.claims[t := {}])
    else s.(filp := s.filp[At(t, fd) := -1], count := s.count[f := 0], claims := s.claims[t := {}])
  }

  function Closed(s: Table, t: nat, fd: nat): (r: Table)
    requires Shape(s) && t < NR_TASKS
    ensures Shape(r)
  {
    if fd < NR_OPEN && s.filp[At(t, fd)] >= 0 then Cleared(s, At(t, fd)) else s
  }

  function Duped(s: Table, t: nat, fd: nat, arg: nat): (r: Table)
    requires Shape(s) && t < NR_TASKS
    ensures Shape(r)
  {
    if fd < NR_OPEN && s.filp[At(t, fd)] >= 0 && arg < NR_OPEN && FirstEntry(s.filp, t, arg) < NR_OPEN
    then Filled(s, At(t, FirstEntry(s.filp, t, arg)), s.filp[At(t, fd)]) else s
  }

  function PipedBegin(s: Table, t: nat): (r: Table)
    requires Shape(s) && t < NR_TASKS
    ensures Shape(r)
  {
    var (f0, n0) := (FirstFile(s.count, 0), FirstEntry(s.filp, t, 0));
    if f0 == NR_FILE || n0 == NR_OPEN then s else
      var (f1, n1) := (FirstFile(s.count, f0 + 1), FirstEntry(s.filp, t, n0 + 1));
      if f1 == NR_FILE || n1 == NR_OPEN then s else BothClaimed(s, t, n0, f0, n1, f1)
  }

  function PipedEnd(s: Table, t: nat, fd0: nat, fd1: nat, ok: bool): (r: Table)
    requires Shape(s) && t < NR_TASKS && fd0 < NR_OPEN && fd1 < NR_OPEN
    ensures Shape(r)
  {
    var (f0, f1) := (s.filp[At(t, fd0)], s.filp[At(t, fd1)]);
    if f0 < 0 || f1 < 0 then s
    else if ok then s.(claims := s.claims[t := {}])
    else s.(filp := s.filp[At(t, fd0) := -1][At(t, fd1) := -1], count := s.count[f0 := 0][f1 := 0], claims := s.claims[t := {}])
  }

  /** The entries of task t from i on copied to task nr. */
  function Forked(s: Table, t: nat, nr: nat, i: nat): (r: Table)
    requires Shape(s) && t < NR_TASKS && nr < NR_TASKS && i <= NR_OPEN
    ensures Shape(r)
    decreases NR_OPEN - i
  {
    if i == NR_OPEN then s else
      var f := s.filp[At(t, i)];
      Forked(if f >= 0 then Filled(s, At(nr, i), f) else s, t, nr, i + 1)
  }

  lemma ForkedStep(s: Table, t: nat, nr: nat, i: nat)
    requires Shape(s) && t < NR_TASKS && nr < NR_TASKS && i <= NR_OPEN
    ensures i == NR_OPEN ==> Forked(s, t, nr, i) == s
    ensures i < NR_OPEN ==> Shape(if s.filp[At(t, i)] >= 0 then Filled(s, At(nr, i), s.filp[At(t, i)]) else s)
    ensures i < NR_OPEN ==> Forked(s, t, nr, i)
                            == Forked(if s.filp[At(t, i)] >= 0 then Filled(s, At(nr, i), s.filp[At(t, i)]) else s, t, nr, i + 1)
  {
  }

  /** What tasks do to the table between sleeps.  dup2 is a Close and a Dup, exit a Close for each entry. */
  datatype Op =
    | OpenBegin(t: nat) | OpenEnd(t: nat, fd: nat, ok: bool) | Close(t: nat, fd: nat) | Dup(t: nat, fd: nat, arg: nat)
    | PipeBegin(t: nat) | PipeEnd(t: nat, fd0: nat, fd1: nat, ok: bool) | Fork(t: nat, nr: nat)

  /** A task is in the middle of at most one call, and goes on with that one; a child's row is empty. */
  predicate Legal(s: Table, op: Op)
    requires Shape(s)
  {
    op.t < NR_TASKS &&
    match op
    case OpenEnd(t, fd, ok) => fd < NR_OPEN && s.claims[t] == {At(t, fd)}
    case PipeEnd(t, fd0, fd1, ok) => fd0 < fd1 < NR_OPEN && s.claims[t] == {At(t, fd0), At(t, fd1)}
    case Fork(t, nr) =>
      && nr < NR_TASKS && nr != t && s.claims[t] == {} == s.claims[nr]
      && forall fd | 0 <= fd < NR_OPEN :: s.filp[At(nr, fd)] == -1
    case _ => s.claims[op.t] == {}
  }

  function Do(s: Table, op: Op): (r: Table)
    requires Shape(s) && Legal(s, op)
    ensures Shape(r)
  {
    match op
    case OpenBegin(t) => OpenedBegin(s, t)
    case OpenEnd(t, fd, ok) => OpenedEnd(s, t, fd, ok)
    case Close(t, fd) => Closed(s, t, fd)
    case Dup(t, fd, arg) => Duped(s, t, fd, arg)
    case PipeBegin(t) => PipedBegin(s, t)
    case PipeEnd(t, fd0, fd1, ok) => PipedEnd(s, t, fd0, fd1, ok)
    case Fork(t, nr) => Forked(s, t, nr, 0)
  }

  /** The task whose row an operation changes. */
  function Changed(op: Op): nat { if op.Fork? then op.nr else op.t }

  lemma OpenBeginKeeps(s: Table, t: nat)
    requires Inv(s) && t < NR_TASKS && s.claims[t] == {}
    ensures Inv(OpenedBegin(s, t)) && OthersKept(s, OpenedBegin(s, t), t)
  {
    hide Counted, Names;
    var (n, f) := (FirstEntry(s.filp, t, 0), FirstFile(s.count, 0));
    if n < NR_OPEN && f < NR_FILE {
      NewFile(s, f);
      FilledOk(s, At(t, n), f);
      ClaimsOk(Filled(s, At(t, n), f), t, {At(t, n)});
    }
  }

  lemma OpenEndKeeps(s: Table, t: nat, fd: nat, ok: bool)
    requires Inv(s) && t < NR_TASKS && fd < NR_OPEN && s.claims[t] == {At(t, fd)}
    ensures s.filp[At(t, fd)] >= 0 && (ok ==> OpenedEnd(s, t, fd, ok).count == s.count)
    ensures Inv(OpenedEnd(s, t, fd, ok)) && OthersKept(s, OpenedEnd(s, t, fd, ok), t)
  {
    hide Counted, Names;
    DroppedOk(s, t, At(t, fd));
    Unclaimed(s, t, {});
    assert s.claims[t] - {At(t, fd)} == {};
    assert ok ==> s.count == s.count[s.filp[At(t, fd)] := 1];
  }

  lemma CloseKeeps(s: Table, t: nat, fd: nat)
    requires Inv(s) && t < NR_TASKS && s.claims[t] == {}
    ensures Inv(Closed(s, t, fd)) && OthersKept(s, Closed(s, t, fd), t)
  {
    hide Counted, Names;
    if fd < NR_OPEN && s.filp[At(t, fd)] >= 0 {
      var i := At(t, fd);
      forall u: nat | u < NR_TASKS ensures i !in s.claims[u] { if i in s.claims[u] { OwnRow(s, t, i, u); } }
      ClearedOk(s, i);
    }
  }

  lemma DupKeeps(s: Table, t: nat, fd: nat, arg: nat)
    requires Inv(s) && t < NR_TASKS && s.claims[t] == {}
    ensures Inv(Duped(s, t, fd, arg)) && OthersKept(s, Duped(s, t, fd, arg), t)
  {
    hide Counted, Claimed, Names;
    if fd < NR_OPEN && s.filp[At(t, fd)] >= 0 && arg < NR_OPEN && FirstEntry(s.filp, t, arg) < NR_OPEN {
      SharedOk(s, t, At(t, fd), At(t, FirstEntry(s.filp, t, arg)));
    }
  }

  lemma PipeBeginKeeps(s: Table, t: nat)
    requires Inv(s) && t < NR_TASKS && s.claims[t] == {}
    ensures Inv(PipedBegin(s, t)) && OthersKept(s, PipedBegin(s, t), t)
  {
    hide Inv, BothClaimed, OthersKept;
    InvShape(s);
    SameKept(s, t);
    var (f0, n0) := (FirstFile(s.count, 0), FirstEntry(s.filp, t, 0));
    if f0 < NR_FILE && n0 < NR_OPEN {
      var (f1, n1) := (FirstFile(s.count, f0 + 1), FirstEntry(s.filp, t, n0 + 1));
      if f1 < NR_FILE && n1 < NR_OPEN { TwoClaimed(s, t, n0, f0, n1, f1); }
    }
  }

  lemma PipeBeginIs(s: Table, t: nat)
    requires Shape(s) && t < NR_TASKS && s.claims[t] == {}
    ensures Do(s, PipeBegin(t)) == PipedBegin(s, t)
  {
  }

  lemma InvShape(s: Table)
    requires Inv(s)
    ensures Shape(s)
  {
  }

  lemma SameKept(s: Table, t: nat)
    requires Shape(s)
    ensures OthersKept(s, s, t)
  {
  }

  lemma OneFile(s: Table, f0: nat)
    requires Shape(s) && f0 == FirstFile(s.count, 0) < NR_FILE && FirstFile(s.count, f0 + 1) == NR_FILE
    ensures !TwoFiles(s)
  {
    assert forall g | 0 <= g < f0 :: s.count[g] > 0;
    assert forall g | f0 + 1 <= g < NR_FILE :: s.count[g] > 0;
  }

  lemma NoFile(s: Table)
    requires Shape(s) && FirstFile(s.count, 0) == NR_FILE
    ensures !TwoFiles(s)
  {
  }

  lemma NoEntry(s: Table, t: nat)
    requires Shape(s) && t < NR_TASKS && FirstEntry(s.filp, t, 0) == NR_OPEN
    ensures !TwoEntries(s, t)
  {
  }

  lemma OneEntry(s: Table, t: nat, n0: nat)
    requires Shape(s) && t < NR_TASKS && n0 == FirstEntry(s.filp, t, 0) < NR_OPEN && FirstEntry(s.filp, t, n0 + 1) == NR_OPEN
    ensures !TwoEntries(s, t)
  {
    assert forall i | 0 <= i < n0 :: s.filp[At(t, i)] != -1;
    assert forall i | n0 + 1 <= i < NR_OPEN :: s.filp[At(t, i)] != -1;
  }

  lemma BothFree(s: Table, t: nat, n0: nat, f0: nat, n1: nat, f1: nat)
    requires Inv(s) && TwoFree(s, t, n0, f0, n1, f1)
    ensures TwoFiles(s) && TwoEntries(s, t) && f0 !in s.filp && f1 !in s.filp
  {
    NewFile(s, f0);
    NewFile(s, f1);
  }

  lemma FilledIs(s: Table, i: nat, f: nat)
    requires Shape(s) && i < SLOTS && f < NR_FILE
    ensures var r := Filled(s, i, f);
            && Shape(r) && r.filp == s.filp[i := f] && r.claims == s.claims
            && r.count[f] == s.count[f] + 1 && forall g | 0 <= g < NR_FILE && g != f :: r.count[g] == s.count[g]
  {
  }

  /** s with both claimed. */
  function BothClaimed(s: Table, t: nat, n0: nat, f0: nat, n1: nat, f1: nat): (r: Table)
    requires Shape(s) && t < NR_TASKS && n0 < n1 < NR_OPEN && f0 < f1 < NR_FILE
    ensures Shape(r)
  {
    var m := Filled(Filled(s, At(t, n0), f0), At(t, n1), f1);
    m.(claims := m.claims[t := {At(t, n0), At(t, n1)}])
  }

  /** What is free for pipe. */
  predicate TwoFree(s: Table, t: nat, n0: nat, f0: nat, n1: nat, f1: nat) {
    && Shape(s) && t < NR_TASKS && s.claims[t] == {} && n0 < n1 < NR_OPEN && f0 < f1 < NR_FILE
    && s.count[f0] == 0 == s.count[f1] && s.filp[At(t, n0)] == -1 == s.filp[At(t, n1)]
  }

  lemma TwoFilled(s: Table, t: nat, n0: nat, f0: nat, n1: nat, f1: nat)
    requires Inv(s) && TwoFree(s, t, n0, f0, n1, f1)
    ensures Shape(Filled(s, At(t, n0), f0))
    ensures var m := Filled(Filled(s, At(t, n0), f0), At(t, n1), f1); var (i, j) := (At(t, n0), At(t, n1));
            Inv(m) && m.filp == s.filp[i := f0][j := f1] && m.claims == s.claims && m.count[f0] == 1 == m.count[f1]
  {
    hide Inv, Filled, NoneClaims;
    var (i, j) := (At(t, n0), At(t, n1));
    NewFile(s, f0);
    FilledOk(s, i, f0);
    FilledIs(s, i, f0);
    var m := Filled(s, i, f0);
    assert m.filp[j] == -1 && m.count[f1] == 0;
    NewFile(m, f1);
    FilledOk(m, j, f1);
    FilledIs(m, j, f1);
  }

  lemma TwoClaimed(s: Table, t: nat, n0: nat, f0: nat, n1: nat, f1: nat)
    requires Inv(s) && TwoFree(s, t, n0, f0, n1, f1)
    ensures Inv(BothClaimed(s, t, n0, f0, n1, f1)) && OthersKept(s, BothClaimed(s, t, n0, f0, n1, f1), t)
    ensures BothClaimed(s, t, n0, f0, n1, f1).filp == s.filp[At(t, n0) := f0][At(t, n1) := f1]
    ensures BothClaimed(s, t, n0, f0, n1, f1).claims == s.claims[t := {At(t, n0), At(t, n1)}]
  {
    hide Inv, Filled, OthersKept;
    TwoFilled(s, t, n0, f0, n1, f1);
    var m := Filled(Filled(s, At(t, n0), f0), At(t, n1), f1);
    assert Shape(m) && ClaimOk(m, t, At(t, n0)) && ClaimOk(m, t, At(t, n1)) by { InvShape(m); }
    ClaimsOk(m, t, {At(t, n0), At(t, n1)});
    assert OthersKept(s, BothClaimed(s, t, n0, f0, n1, f1), t) by { RowFilled(s, BothClaimed(s, t, n0, f0, n1, f1), t, n0, f0, n1, f1); }
  }

  /** Two entries of task t that were free name two files nobody named, and are claimed. */
  predicate PipeClaimed(s: Table, r: Table, t: nat, fd0: nat, fd1: nat)
    requires Shape(s) && Shape(r) && t < NR_TASKS
  {
    && fd0 < fd1 < NR_OPEN && r.claims[t] == {At(t, fd0), At(t, fd1)}
    && r.filp[At(t, fd0)] !in s.filp && r.filp[At(t, fd1)] !in s.filp && r.filp[At(t, fd0)] != r.filp[At(t, fd1)]
    && s.filp[At(t, fd0)] == -1 == s.filp[At(t, fd1)]
    && r.filp == s.filp[At(t, fd0) := r.filp[At(t, fd0)]][At(t, fd1) := r.filp[At(t, fd1)]]
  }

  lemma BothAre(s: Table, t: nat, n0: nat, f0: nat, n1: nat, f1: nat)
    requires Inv(s) && TwoFree(s, t, n0, f0, n1, f1)
    ensures PipeClaimed(s, BothClaimed(s, t, n0, f0, n1, f1), t, n0, n1)
  {
    hide Inv, BothClaimed;
    BothFree(s, t, n0, f0, n1, f1);
    TwoClaimed(s, t, n0, f0, n1, f1);
  }

  lemma RowFilled(s: Table, r: Table, t: nat, n0: nat, f0: nat, n1: nat, f1: nat)
    requires Shape(s) && Shape(r) && t < NR_TASKS && n0 < n1 < NR_OPEN
    requires r.filp == s.filp[At(t, n0) := f0][At(t, n1) := f1]
    requires forall u | 0 <= u < NR_TASKS && u != t :: r.claims[u] == s.claims[u]
    ensures OthersKept(s, r, t)
  {
  }

  lemma PipeEndKeeps(s: Table, t: nat, fd0: nat, fd1: nat, ok: bool)
    requires Inv(s) && t < NR_TASKS && fd0 < fd1 < NR_OPEN && s.claims[t] == {At(t, fd0), At(t, fd1)}
    ensures s.filp[At(t, fd0)] >= 0 && s.filp[At(t, fd1)] >= 0 && s.filp[At(t, fd0)] != s.filp[At(t, fd1)]
    ensures Inv(PipedEnd(s, t, fd0, fd1, ok)) && OthersKept(s, PipedEnd(s, t, fd0, fd1, ok), t)
  {
    hide Counted, Names, Claimed;
    var (f0, f1) := (s.filp[At(t, fd0)], s.filp[At(t, fd1)]);
    DroppedOk(s, t, At(t, fd0));
    assert ClaimOk(s, t, At(t, fd1)) by { DroppedOk(s, t, At(t, fd1)); }
    NotClaimed(s, At(t, fd0), t, At(t, fd1));
    if ok {
      Unclaimed(s, t, {});
    } else {
      assert s.claims[t] - {At(t, fd0)} == {At(t, fd1)};
      var m := s.(filp := s.filp[At(t, fd0) := -1], count := s.count[f0 := 0], claims := s.claims[t := {At(t, fd1)}]);
      DroppedOk(m, t, At(t, fd1));
      assert {At(t, fd1)} - {At(t, fd1)} == {};
      assert m.claims[t := {}] == s.claims[t := {}];
    }
  }

  lemma {:induction false} ForkKeeps(s: Table, t: nat, nr: nat, i: nat)
    requires Inv(s) && t < NR_TASKS && nr < NR_TASKS && nr != t && s.claims[t] == {} && i <= NR_OPEN
    requires forall fd | i <= fd < NR_OPEN :: s.filp[At(nr, fd)] == -1
    ensures var r := Forked(s, t, nr, i);
            && Inv(r) && OthersKept(s, r, nr) && r.claims == s.claims
            && forall fd | 0 <= fd < NR_OPEN :: r.filp[At(nr, fd)] == if fd < i then s.filp[At(nr, fd)] else s.filp[At(t, fd)]
    decreases NR_OPEN - i
  {
    hide Counted, Names, Claimed;
    if i < NR_OPEN {
      var f := s.filp[At(t, i)];
      if f >= 0 { SharedOk(s, t, At(t, i), At(nr, i)); }
      var m := if f >= 0 then Filled(s, At(nr, i), f) else s;
      assert forall fd | 0 <= fd < NR_OPEN :: m.filp[At(t, fd)] == s.filp[At(t, fd)] by { Undisturbed(s, m, nr, t); }
      ForkKeeps(m, t, nr, i + 1);
    }
  }

  /** Every step keeps the counts exact and the other tasks' rows and claims. */
  lemma StepKeeps(s: Table, op: Op)
    requires Inv(s) && Legal(s, op)
    ensures Inv(Do(s, op)) && OthersKept(s, Do(s, op), Changed(op))
  {
    hide Counted, Claimed, Names, OthersKept;
    match op
    case OpenBegin(t) => OpenBeginKeeps(s, t);
    case OpenEnd(t, fd, ok) => OpenEndKeeps(s, t, fd, ok);
    case Close(t, fd) => CloseKeeps(s, t, fd);
    case Dup(t, fd, arg) => DupKeeps(s, t, fd, arg);
    case PipeBegin(t) => PipeBeginKeeps(s, t);
    case PipeEnd(t, fd0, fd1, ok) => PipeEndKeeps(s, t, fd0, fd1, ok);
    case Fork(t, nr) => ForkKeeps(s, t, nr, 0);
  }

  // ---- runs ----------------------------------------------------------------------------------------

  ghost predicate LegalRun(s: Table, ops: seq<Op>)
    requires Inv(s)
    decreases |ops|
  {
    ops == [] || (Legal(s, ops[0]) && (StepKeeps(s, ops[0]); LegalRun(Do(s, ops[0]), ops[1..])))
  }

  ghost function Run(s: Table, ops: seq<Op>): (r: Table)
    requires Inv(s) && LegalRun(s, ops)
    ensures Shape(r)
    decreases |ops|
  {
    if ops == [] then s else
      StepKeeps(s, ops[0]);
      Run(Do(s, ops[0]), ops[1..])
  }

  /** Over every interleaving of the tasks' steps f_count is the number of entries naming the file; and while a task
      sleeps, whatever the others do, its own entries and claims stay as they were. */
  lemma {:induction false} RunKeeps(s: Table, ops: seq<Op>, u: nat)
    requires Inv(s) && LegalRun(s, ops) && u < NR_TASKS
    ensures Inv(Run(s, ops)) && forall f | 0 <= f < NR_FILE :: Run(s, ops).count[f] == Names(Run(s, ops).filp, f)
    ensures (forall op | op in ops :: Changed(op) != u) ==> RowKept(s, Run(s, ops), u)
    decreases |ops|
  {
    hide Names;
    if ops != [] {
      StepKeeps(s, ops[0]);
      var r := Do(s, ops[0]);
      RunKeeps(r, ops[1..], u);
      if forall op | op in ops :: Changed(op) != u {
        assert Changed(ops[0]) != u;
        Undisturbed(s, r, Changed(ops[0]), u);
      }
    }
  }

  class Files {
    var s: Table

    ghost predicate Valid()
      reads this
    {
      Inv(s)
    }

    constructor ()
      ensures Valid() && forall i | 0 <= i < SLOTS :: s.filp[i] == -1
    {
      s := Table(seq(NR_FILE, f => 0), seq(SLOTS, i => -1), seq(NR_TASKS, t => {}));
      new;
      forall f | 0 <= f < NR_FILE ensures s.count[f] == Names(s.filp, f) {
        NamesBounds(s.filp, f);
      }
    }

    method FreeEntry(t: nat, from: nat) returns (fd: nat)
      requires Valid() && t < NR_TASKS && from <= NR_OPEN
      ensures fd == FirstEntry(s.filp, t, from)
    {
      fd := from;
      while fd < NR_OPEN && s.filp[At(t, fd)] != -1
        invariant from <= fd <= NR_OPEN && FirstEntry(s.filp, t, from) == FirstEntry(s.filp, t, fd)
      {
        fd := fd + 1;
      }
    }

    method FreeFile(from: nat) returns (f: nat)
      requires Valid() && from <= NR_FILE
      ensures f == FirstFile(s.count, from)
    {
      f := from;
      while f < NR_FILE && s.count[f] != 0
        invariant from <= f <= NR_FILE && FirstFile(s.count, from) == FirstFile(s.count, f)
      {
        f := f + 1;
      }
    }

    /** The task sleeps; whatever other tasks do, they leave its row alone (RunKeeps). */
    method Sleep(t: nat)
      requires Valid() && t < NR_TASKS
      modifies this
      ensures Valid() && RowKept(old(s), s, t)
    {
    }

    /** sys_open up to open_namei, which may sleep; fd is -1 when an entry or a file is lacking. */
    method OpenBegin(t: nat) returns (fd: int, f: nat)
      requires Valid() && t < NR_TASKS && s.claims[t] == {}
      modifies this
      ensures Valid() && OthersKept(old(s), s, t) && s == Do(old(s), Op.OpenBegin(t))
      ensures fd == -1 ==> s == old(s) && ((forall i | 0 <= i < NR_OPEN :: s.filp[At(t, i)] != -1) || forall g | 0 <= g < NR_FILE :: s.count[g] > 0)
      ensures -1 <= fd < NR_OPEN && forall i | 0 <= i < fd :: old(s).filp[At(t, i)] != -1
      ensures fd != -1 ==> 0 <= fd < NR_OPEN && f < NR_FILE && old(s).filp[At(t, fd)] == -1 && f !in old(s).filp
                           && s == Filled(old(s), At(t, fd), f).(claims := old(s).claims[t := {At(t, fd)}])
    {
      StepKeeps(s, Op.OpenBegin(t));
      hide Counted, Claimed, Names;
      f := 0;
      var n := FreeEntry(t, 0);
      if n == NR_OPEN { return -1, 0; }
      fd := n;
      f := FreeFile(0);
      if f == NR_FILE { return -1, 0; }
      NewFile(s, f);
      s := Filled(s, At(t, n), f);
      s := s.(claims := s.claims[t := {At(t, n)}]);
    }

    /** sys_open after open_namei: the count is set, not changed, yet comes out right. */
    method OpenEnd(t: nat, fd: nat, ok: bool)
      requires Valid() && t < NR_TASKS && fd < NR_OPEN && s.claims[t] == {At(t, fd)}
      modifies this
      ensures Valid() && OthersKept(old(s), s, t) && s.claims[t] == {} && s == Do(old(s), Op.OpenEnd(t, fd, ok))
      ensures s.filp == if ok then old(s).filp else old(s).filp[At(t, fd) := -1]
      ensures ok ==> s.count == old(s).count
    {
      hide Counted, Claimed, Names;
      StepKeeps(s, Op.OpenEnd(t, fd, ok));
      OpenEndKeeps(s, t, fd, ok);
      var f := s.filp[At(t, fd)];
      if ok {
        s := s.(count := s.count[f := 1], claims := s.claims[t := {}]);
      } else {
        s := s.(filp := s.filp[At(t, fd) := -1], count := s.count[f := 0], claims := s.claims[t := {}]);
      }
    }

    /** sys_close: None-like -1 for a bad fd; released says that the file's inode is given up, which happens exactly
        with the last entry naming it.  The count is never 0, so there is no panic. */
    method Close(t: nat, fd: nat) returns (ok: bool, released: bool)
      requires Valid() && t < NR_TASKS && s.claims[t] == {}
      modifies this
      ensures Valid() && OthersKept(old(s), s, t) && s == Do(old(s), Op.Close(t, fd))
      ensures ok <==> fd < NR_OPEN && old(s).filp[At(t, fd)] != -1
      ensures s == if ok then Cleared(old(s), At(t, fd)) else old(s)
      ensures released <==> ok && old(s).filp[At(t, fd)] !in s.filp
    {
      ok, released := false, false;
      if fd >= NR_OPEN { return; }
      var i := At(t, fd);
      var f := s.filp[i];
      if f == -1 { return; }
      forall u: nat | u < NR_TASKS ensures i !in s.claims[u] { if i in s.claims[u] { OwnRow(s, t, i, u); } }
      ClearedOk(s, i);
      s := Cleared(s, i);
      ok, released := true, s.count[f] == 0;
    }

    /** dupfd: -1 for each of its errors. */
    method DupFd(t: nat, fd: nat, arg: nat) returns (r: int)
      requires Valid() && t < NR_TASKS && s.claims[t] == {}
      modifies this
      ensures Valid() && OthersKept(old(s), s, t) && s == Do(old(s), Op.Dup(t, fd, arg))
      ensures r == -1 ==> s == old(s) && (fd >= NR_OPEN || old(s).filp[At(t, fd)] == -1 || arg >= NR_OPEN
                                          || forall i | arg <= i < NR_OPEN :: old(s).filp[At(t, i)] != -1)
      ensures r != -1 ==> arg <= r < NR_OPEN && fd < NR_OPEN && old(s).filp[At(t, fd)] >= 0 && old(s).filp[At(t, r)] == -1
                          && s == Filled(old(s), At(t, r), old(s).filp[At(t, fd)])
                          && forall i | arg <= i < r :: old(s).filp[At(t, i)] != -1
    {
      hide Counted, Claimed, Names;
      if fd >= NR_OPEN || s.filp[At(t, fd)] == -1 { return -1; }
      if arg >= NR_OPEN { return -1; }
      var n := FreeEntry(t, arg);
      if n == NR_OPEN { return -1; }
      SharedOk(s, t, At(t, fd), At(t, n));
      s := Filled(s, At(t, n), s.filp[At(t, fd)]);
      r := n;
    }

    /** sys_dup2: newfd is closed first, even when oldfd is bad or the same; releasing its inode may sleep. */
    method Dup2(t: nat, oldfd: nat, newfd: nat) returns (r: int)
      requires Valid() && t < NR_TASKS && s.claims[t] == {}
      modifies this
      ensures Valid() && s.claims[t] == {}
      ensures r == newfd || r == -1
      ensures r == newfd <==> oldfd != newfd && oldfd < NR_OPEN && newfd < NR_OPEN && old(s).filp[At(t, oldfd)] >= 0
      ensures forall fd | 0 <= fd < NR_OPEN :: s.filp[At(t, fd)] ==
                if fd != newfd then old(s).filp[At(t, fd)] else if r == newfd then old(s).filp[At(t, oldfd)] else -1
    {
      hide Counted, Claimed, Names;
      var ok, released := Close(t, newfd);
      if released { Sleep(t); }
      r := DupFd(t, oldfd, newfd);
    }

    /** sys_pipe up to get_pipe_inode, which may sleep: two files and two entries, or nothing at all. */
    method PipeBegin(t: nat) returns (ok: bool, fd0: nat, fd1: nat)
      requires Valid() && t < NR_TASKS && s.claims[t] == {}
      modifies this
      ensures Valid() && OthersKept(old(s), s, t) && s == Do(old(s), Op.PipeBegin(t))
      ensures !ok ==> s == old(s)
      ensures ok <==> TwoFiles(old(s)) && TwoEntries(old(s), t)
      ensures ok ==> PipeClaimed(old(s), s, t, fd0, fd1)
      ensures ok ==> forall i | 0 <= i < fd1 && i != fd0 :: old(s).filp[At(t, i)] != -1
    {
      hide Inv, OthersKept, TwoFiles, TwoEntries, BothClaimed, PipeClaimed, FirstFile, FirstEntry, Do;
      InvShape(s);
      PipeBeginKeeps(s, t);
      PipeBeginIs(s, t);
      ok, fd0, fd1 := false, 0, 0;
      var f0 := FreeFile(0);
      if f0 == NR_FILE { NoFile(s); return; }
      var f1 := FreeFile(f0 + 1);
      if f1 == NR_FILE { OneFile(s, f0); return; }
      var n0 := FreeEntry(t, 0);
      if n0 == NR_OPEN { NoEntry(s, t); return; }
      var n1 := FreeEntry(t, n0 + 1);
      if n1 == NR_OPEN { OneEntry(s, t, n0); return; }
      BothFree(s, t, n0, f0, n1, f1);
      BothAre(s, t, n0, f0, n1, f1);
      ClaimBoth(t, n0, f0, n1, f1);
      ok, fd0, fd1 := true, n0, n1;
    }

    method ClaimBoth(t: nat, n0: nat, f0: nat, n1: nat, f1: nat)
      requires Shape(s) && t < NR_TASKS && n0 < n1 < NR_OPEN && f0 < f1 < NR_FILE
      modifies this
      ensures s == BothClaimed(old(s), t, n0, f0, n1, f1)
    {
      hide Filled;
      s := Filled(s, At(t, n0), f0);
      s := Filled(s, At(t, n1), f1);
      s := s.(claims := s.claims[t := {At(t, n0), At(t, n1)}]);
    }

    /** sys_pipe after get_pipe_inode: when there is no inode or no page, both entries and both counts are set back,
        which is right whatever ran meanwhile. */
    method PipeEnd(t: nat, fd0: nat, fd1: nat, haveInode: bool)
      requires Valid() && t < NR_TASKS && fd0 < fd1 < NR_OPEN && s.claims[t] == {At(t, fd0), At(t, fd1)}
      modifies this
      ensures Valid() && OthersKept(old(s), s, t) && s.claims[t] == {} && s == Do(old(s), Op.PipeEnd(t, fd0, fd1, haveInode))
      ensures s.filp == if haveInode then old(s).filp else old(s).filp[At(t, fd0) := -1][At(t, fd1) := -1]
      ensures var (f0, f1) := (old(s).filp[At(t, fd0)], old(s).filp[At(t, fd1)]);
              && f0 >= 0 && f1 >= 0 && f0 != f1
              && s.count == if haveInode then old(s).count else old(s).count[f0 := 0][f1 := 0]
    {
      hide Counted, Names, Claimed;
      StepKeeps(s, Op.PipeEnd(t, fd0, fd1, haveInode));
      PipeEndKeeps(s, t, fd0, fd1, haveInode);
      var f0, f1 := s.filp[At(t, fd0)], s.filp[At(t, fd1)];
      if !haveInode {
        s := s.(filp := s.filp[At(t, fd0) := -1][At(t, fd1) := -1]);
        s := s.(count := s.count[f0 := 0][f1 := 0]);
      }
      s := s.(claims := s.claims[t := {}]);
    }

    /** The part of copy_process after copy_mem: the child gets the parent's entries, each file one more count. */
    method Fork(t: nat, nr: nat)
      requires Valid() && t < NR_TASKS && nr < NR_TASKS && nr != t && s.claims[t] == {} && s.claims[nr] == {}
      requires forall fd | 0 <= fd < NR_OPEN :: s.filp[At(nr, fd)] == -1
      modifies this
      ensures Valid() && OthersKept(old(s), s, nr) && s.claims == old(s).claims && s == Do(old(s), Op.Fork(t, nr))
      ensures forall fd | 0 <= fd < NR_OPEN :: s.filp[At(nr, fd)] == old(s).filp[At(t, fd)]
    {
      hide Counted, Names, Claimed, OthersKept, Forked;
      ForkKeeps(s, t, nr, 0);
      var i := 0;
      while i < NR_OPEN
        invariant i <= NR_OPEN && Shape(s) && Forked(old(s), t, nr, 0) == Forked(s, t, nr, i)
      {
        ForkedStep(s, t, nr, i);
        var f := s.filp[At(t, i)];
        if f != -1 {
          s := Filled(s, At(nr, i), f);
        }
        i := i + 1;
      }
      ForkedStep(s, t, nr, i);
    }

    /** The loop of do_exit; releasing an inode may sleep. */
    method Exit(t: nat)
      requires Valid() && t < NR_TASKS && s.claims[t] == {}
      modifies this
      ensures Valid() && s.claims[t] == {}
      ensures forall fd | 0 <= fd < NR_OPEN :: s.filp[At(t, fd)] == -1
    {
      hide Counted, Claimed, Names;
      var i := 0;
      while i < NR_OPEN
        invariant i <= NR_OPEN && Valid() && s.claims[t] == {}
        invariant forall fd | 0 <= fd < i :: s.filp[At(t, fd)] == -1
      {
        if s.filp[At(t, i)] != -1 {
          var ok, released := Close(t, i);
          if released { Sleep(t); }
        }
        i := i + 1;
      }
    }
  }
}
