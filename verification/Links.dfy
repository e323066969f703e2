/** The two kinds of linked list fs/buffer.cc threads through its buffers, on the values of the link
    fields: the circular free list and the hash chains.  -1 is the null pointer. */
module Links {

  ghost predicate Distinct(c: seq<nat>) {
    forall i, j | 0 <= i < j < |c| :: c[i] != c[j]
  }

  lemma DistinctAt(c: seq<nat>, i: int, j: int)
    requires Distinct(c) && 0 <= i < |c| && 0 <= j < |c|
    ensures c[i] == c[j] <==> i == j
  {
  }

  function Without(c: seq<nat>, i: nat): (r: seq<nat>)
    requires i < |c|
  {
    c[..i] + c[i + 1..]
  }

  lemma WithoutMembers(c: seq<nat>, i: nat)
    requires i < |c| && Distinct(c)
    ensures Distinct(Without(c, i)) && c[i] !in Without(c, i)
    ensures forall x :: x in Without(c, i) <==> x in c && x != c[i]
  {
    var r := Without(c, i);
    forall x | x in c && x != c[i] ensures x in r {
      var j :| 0 <= j < |c| && c[j] == x;
      assert x == if j < i then r[j] else r[j - 1];
    }
  }

  function IndexOf(c: seq<nat>, b: nat): (i: nat)
    requires b in c
    ensures i < |c| && c[i] == b
  {
    if c[0] == b then 0 else 1 + IndexOf(c[1..], b)
  }

  // ---- the circular list -----------------------------------------------------------------------

  function Succ(i: nat, n: nat): (j: nat)
    requires i < n
    ensures j < n
  {
    if i + 1 == n then 0 else i + 1
  }

  /** f, in list order from free_list on, is linked both ways into a circle. */
  ghost predicate Ring(f: seq<nat>, nx: seq<int>, pv: seq<int>) {
    && f != [] && Distinct(f) && |nx| == |pv|
    && (forall i | 0 <= i < |f| :: f[i] < |nx|)
    && (forall i | 0 <= i < |f| :: nx[f[i]] == f[Succ(i, |f|)])
    && (forall i | 0 <= i < |f| :: pv[f[Succ(i, |f|)]] == f[i])
  }

  function Pred(i: nat, n: nat): (j: nat)
    requires i < n
    ensures j < n && Succ(j, n) == i
  {
    if i == 0 then n - 1 else i - 1
  }

  /** Unlinking element i: its neighbours are joined. */
  lemma RingRemove(f: seq<nat>, nx: seq<int>, pv: seq<int>, i: nat)
    requires Ring(f, nx, pv) && |f| >= 2 && i < |f|
    ensures var b := f[i];
            && 0 <= pv[b] < |nx| && 0 <= nx[b] < |nx| && pv[b] != b && nx[b] != b
            && Ring(Without(f, i), nx[pv[b] := nx[b]], pv[nx[b] := pv[b]])
            && Without(f, i)[0] == if i == 0 then nx[b] else f[0]
  {
    var n := |f|;
    var b, p, s := f[i], Pred(i, n), Succ(i, n);
    assert pv[f[Succ(p, n)]] == f[p];
    var r, nx', pv' := Without(f, i), nx[pv[b] := nx[b]], pv[nx[b] := pv[b]];
    WithoutMembers(f, i);
    forall j | 0 <= j < |r| ensures nx'[r[j]] == r[Succ(j, |r|)] && pv'[r[Succ(j, |r|)]] == r[j] {
      var k := if j < i then j else j + 1;
      assert r[j] == f[k];
      assert pv[f[Succ(k, n)]] == f[k];
    }
  }

  /** Linking b in front of the first element, that is, at the end. */
  lemma RingAppend(f: seq<nat>, nx: seq<int>, pv: seq<int>, b: nat)
    requires Ring(f, nx, pv) && b !in f && b < |nx|
    ensures var h := f[0]; var l := pv[h];
            && 0 <= l < |nx|
            && Ring(f + [b], nx[b := h][l := b], pv[b := l][h := b])
  {
    var n := |f|;
    var h := f[0];
    assert pv[f[Succ(n - 1, n)]] == f[n - 1];
    var l := f[n - 1];
    var r, nx', pv' := f + [b], nx[b := h][l := b], pv[b := l][h := b];
    forall j | 0 <= j < |r| ensures nx'[r[j]] == r[Succ(j, |r|)] && pv'[r[Succ(j, |r|)]] == r[j] {
      if j < n - 1 {
        assert pv[f[Succ(j, n)]] == f[j];
      }
    }
  }

  // ---- a chain ---------------------------------------------------------------------------------

  function NextIn(c: seq<nat>, i: nat): int
    requires i < |c|
  {
    if i + 1 < |c| then c[i + 1] else -1
  }

  function PrevIn(c: seq<nat>, i: nat): int
    requires i < |c|
  {
    if i == 0 then -1 else c[i - 1]
  }

  /** c is a null-terminated list from head, linked both ways. */
  ghost predicate Chain(c: seq<nat>, head: int, nx: seq<int>, pv: seq<int>) {
    && Distinct(c) && |nx| == |pv|
    && (forall i | 0 <= i < |c| :: c[i] < |nx|)
    && head == (if c == [] then -1 else c[0])
    && (forall i | 0 <= i < |c| :: nx[c[i]] == NextIn(c, i))
    && (forall i | 0 <= i < |c| :: pv[c[i]] == PrevIn(c, i))
  }

  function Set(s: seq<int>, i: int, x: int): (r: seq<int>)
    ensures |r| == |s|
  {
    if 0 <= i < |s| then s[i := x] else s
  }

  /** The hash half of remove_from_queues, on a chain that holds element i. */
  lemma ChainRemove(c: seq<nat>, head: int, nx: seq<int>, pv: seq<int>, i: nat)
    requires Chain(c, head, nx, pv) && i < |c|
    ensures var b := c[i];
            && -1 <= pv[b] < |nx| && -1 <= nx[b] < |nx|
            && Chain(Without(c, i), if head == b then nx[b] else head, Set(nx, pv[b], nx[b]), Set(pv, nx[b], pv[b]))
  {
    hide NextIn, PrevIn;
    var b := c[i];
    assert nx[b] == NextIn(c, i) && pv[b] == PrevIn(c, i);
    InRange(c, i, |nx|);
    WithoutMembers(c, i);
    var r := Without(c, i);
    forall j | 0 <= j < |r|
      ensures Set(nx, pv[b], nx[b])[r[j]] == NextIn(r, j) && Set(pv, nx[b], pv[b])[r[j]] == PrevIn(r, j)
    {
      var k: nat := if j < i then j else j + 1;
      assert nx[c[k]] == NextIn(c, k) && pv[c[k]] == PrevIn(c, k);
      RemovedLink(c, nx, pv, i, k);
    }
    RemovedHead(c, nx, i);
  }

  lemma InRange(c: seq<nat>, i: nat, n: nat)
    requires i < |c| && forall k | 0 <= k < |c| :: c[k] < n
    ensures -1 <= NextIn(c, i) < n && -1 <= PrevIn(c, i) < n
  {
  }

  lemma RemovedHead(c: seq<nat>, nx: seq<int>, i: nat)
    requires Distinct(c) && i < |c| && (forall k | 0 <= k < |c| :: c[k] < |nx|) && nx[c[i]] == NextIn(c, i)
    ensures var r := Without(c, i); (if c[0] == c[i] then nx[c[i]] else c[0]) == if r == [] then -1 else r[0]
  {
    DistinctAt(c, 0, i);
  }

  lemma RemovedLink(c: seq<nat>, nx: seq<int>, pv: seq<int>, i: nat, k: nat)
    requires Distinct(c) && |nx| == |pv| && i < |c| && k < |c| && k != i && c[k] < |nx| && c[i] < |nx|
    requires nx[c[k]] == NextIn(c, k) && pv[c[k]] == PrevIn(c, k) && nx[c[i]] == NextIn(c, i) && pv[c[i]] == PrevIn(c, i)
    ensures var b, r, j := c[i], Without(c, i), if k < i then k else k - 1;
            && r[j] == c[k]
            && Set(nx, pv[b], nx[b])[c[k]] == NextIn(r, j) && Set(pv, nx[b], pv[b])[c[k]] == PrevIn(r, j)
  {
    hide Distinct;
    if i > 0 { DistinctAt(c, k, i - 1); }
    if i + 1 < |c| { DistinctAt(c, k, i + 1); }
  }

  /** Other chains are not affected. */
  lemma ChainFrame(c: seq<nat>, head: int, nx: seq<int>, pv: seq<int>, nx': seq<int>, pv': seq<int>)
    requires Chain(c, head, nx, pv) && |nx'| == |pv'| == |nx|
    requires forall x | x in c :: nx'[x] == nx[x] && pv'[x] == pv[x]
    ensures Chain(c, head, nx', pv')
  {
    forall i | 0 <= i < |c| ensures nx'[c[i]] == nx[c[i]] && pv'[c[i]] == pv[c[i]] {
      assert c[i] in c;
    }
  }

  /** The hash half of insert_into_queues: b becomes the head. */
  lemma ChainInsert(c: seq<nat>, head: int, nx: seq<int>, pv: seq<int>, b: nat)
    requires Chain(c, head, nx, pv) && b !in c && b < |nx|
    ensures Chain([b] + c, b, nx[b := head], Set(pv[b := -1], head, b))
  {
    hide NextIn, PrevIn;
    var r := [b] + c;
    assert Distinct(r) by { assert forall i | 0 <= i < |c| :: c[i] in c; }
    forall j | 0 <= j < |r|
      ensures nx[b := head][r[j]] == NextIn(r, j) && Set(pv[b := -1], head, b)[r[j]] == PrevIn(r, j)
    {
      if j == 0 {
        FirstLink(c, head, b);
      } else {
        assert nx[c[j - 1]] == NextIn(c, j - 1) && pv[c[j - 1]] == PrevIn(c, j - 1);
        InsertedLink(c, head, nx, pv, b, j - 1);
      }
    }
  }

  lemma FirstLink(c: seq<nat>, head: int, b: nat)
    requires head == (if c == [] then -1 else c[0])
    ensures NextIn([b] + c, 0) == head && PrevIn([b] + c, 0) == -1
  {
  }

  lemma InsertedLink(c: seq<nat>, head: int, nx: seq<int>, pv: seq<int>, b: nat, k: nat)
    requires Distinct(c) && |nx| == |pv| && b < |nx| && b !in c && k < |c| && c[k] < |nx| && head == c[0]
    requires nx[c[k]] == NextIn(c, k) && pv[c[k]] == PrevIn(c, k)
    ensures nx[b := head][c[k]] == NextIn([b] + c, k + 1) && Set(pv[b := -1], head, b)[c[k]] == PrevIn([b] + c, k + 1)
  {
    hide Distinct;
    DistinctAt(c, 0, k);
  }

  /** Neighbours in a chain are members of it. */
  lemma ChainNeighbours(c: seq<nat>, head: int, nx: seq<int>, pv: seq<int>, b: nat)
    requires Chain(c, head, nx, pv) && b in c
    ensures nx[b] == -1 || (0 <= nx[b] && nx[b] in c)
    ensures pv[b] == -1 || (0 <= pv[b] && pv[b] in c)
  {
    var i :| 0 <= i < |c| && c[i] == b;
    assert nx[b] == NextIn(c, i) && pv[b] == PrevIn(c, i);
  }
}
