/** Singly linked lists on the values of their link field: the elements of c, in order, are reached from
    head by following next, and the last one holds none. */
module Linked {
  import opened Links

  function NextOf(c: seq<nat>, i: nat, none: int): (n: int)
    requires i <= |c|
  {
    if i < |c| then c[i] else none
  }

  ghost predicate List(c: seq<nat>, head: int, next: seq<int>, none: int) {
    && Distinct(c) && head == NextOf(c, 0, none)
    && (forall i | 0 <= i < |c| :: c[i] < |next| && c[i] != none)
    && (forall i | 0 <= i < |c| :: next[c[i]] == NextOf(c, i + 1, none))
  }

  /** Putting b in front of the list. */
  lemma Push(c: seq<nat>, head: int, next: seq<int>, none: int, b: nat)
    requires List(c, head, next, none) && b !in c && b < |next| && b != none
    ensures List([b] + c, b, next[b := head], none)
  {
    var d, nx := [b] + c, next[b := head];
    forall i | 0 <= i < |d| ensures nx[d[i]] == NextOf(d, i + 1, none) {
      if i > 0 {
        assert d[i] == c[i - 1] && next[c[i - 1]] == NextOf(c, i, none);
      }
    }
  }

  /** Taking the first element off. */
  lemma Pop(c: seq<nat>, head: int, next: seq<int>, none: int)
    requires List(c, head, next, none) && c != []
    ensures head == c[0] && List(c[1..], next[c[0]], next, none) && c[0] !in c[1..]
  {
    var d := c[1..];
    assert next[c[0]] == NextOf(c, 1, none) == NextOf(d, 0, none);
    forall i | 0 <= i < |d| ensures next[d[i]] == NextOf(d, i + 1, none) {
      assert next[c[i + 1]] == NextOf(c, i + 2, none);
    }
  }

  /** Unlinking a later element: the one before it takes over its link. */
  lemma Unlink(c: seq<nat>, head: int, next: seq<int>, none: int, i: nat)
    requires List(c, head, next, none) && 0 < i < |c|
    ensures List(Without(c, i), head, next[c[i - 1] := next[c[i]]], none)
  {
    var d, nx := Without(c, i), next[c[i - 1] := next[c[i]]];
    assert Distinct(d) by { WithoutMembers(c, i); }
    forall j | 0 <= j < |d| ensures d[j] < |nx| && d[j] != none && nx[d[j]] == NextOf(d, j + 1, none) {
      UnlinkAt(c, head, next, none, i, j);
    }
  }

  lemma UnlinkAt(c: seq<nat>, head: int, next: seq<int>, none: int, i: nat, j: nat)
    requires List(c, head, next, none) && 0 < i < |c| && j < |c| - 1
    ensures var d := Without(c, i);
            d[j] < |next| && d[j] != none && next[c[i - 1] := next[c[i]]][d[j]] == NextOf(d, j + 1, none)
  {
    var s := if j < i then j else j + 1;
    Link(c, head, next, none, i);
    Link(c, head, next, none, s);
    DistinctAt(c, s, i - 1);
    hide List, Distinct;
  }

  function InsertedAfter(c: seq<nat>, i: nat, b: nat): (r: seq<nat>)
    requires i < |c|
  {
    c[..i + 1] + [b] + c[i + 1..]
  }

  /** Linking b in behind element i. */
  lemma LinkAfter(c: seq<nat>, head: int, next: seq<int>, none: int, i: nat, b: nat)
    requires List(c, head, next, none) && i < |c| && b !in c && b < |next| && b != none
    ensures List(InsertedAfter(c, i, b), head, next[b := next[c[i]]][c[i] := b], none)
  {
    var d := InsertedAfter(c, i, b);
    assert c[i] < |next| by { Link(c, head, next, none, i); }
    var nx := next[b := next[c[i]]][c[i] := b];
    assert d != [] && head == NextOf(d, 0, none) by { Starts(c, head, next, none); hide List; }
    assert Distinct(d) by { InsertedDistinct(c, i, b); hide List; }
    forall j | 0 <= j < |d| ensures d[j] < |next| && d[j] != none && nx[d[j]] == NextOf(d, j + 1, none) {
      if j == i + 1 { LinkedNew(c, head, next, none, i, b); } else { LinkAfterAt(c, head, next, none, i, b, j); }
    }
  }

  lemma InsertedDistinct(c: seq<nat>, i: nat, b: nat)
    requires Distinct(c) && i < |c| && b !in c
    ensures Distinct(InsertedAfter(c, i, b))
  {
    var d := InsertedAfter(c, i, b);
    forall j, k | 0 <= j < k < |d| ensures d[j] != d[k] { InsertedApart(c, i, b, j, k); }
  }

  lemma InsertedApart(c: seq<nat>, i: nat, b: nat, j: nat, k: nat)
    requires Distinct(c) && i < |c| && b !in c && j < k <= |c|
    ensures InsertedAfter(c, i, b)[j] != InsertedAfter(c, i, b)[k]
  {
    hide Distinct;
    var d := InsertedAfter(c, i, b);
    if j == i + 1 {
      assert d[k] == c[k - 1];
    } else if k == i + 1 {
      assert d[j] == c[j];
    } else {
      DistinctAt(c, if j <= i then j else j - 1, if k <= i then k else k - 1);
    }
  }

  lemma LinkedNew(c: seq<nat>, head: int, next: seq<int>, none: int, i: nat, b: nat)
    requires List(c, head, next, none) && i < |c| && b !in c && b < |next| && b != none
    ensures var d := InsertedAfter(c, i, b);
            d[i + 1] == b && c[i] < |next| && next[b := next[c[i]]][c[i] := b][b] == NextOf(d, i + 2, none)
  {
    Link(c, head, next, none, i);
    hide List;
    assert c[i] in c;
  }

  lemma ListDistinct(c: seq<nat>, head: int, next: seq<int>, none: int)
    requires List(c, head, next, none)
    ensures Distinct(c)
  {
  }

  lemma InsertedAt(c: seq<nat>, i: nat, b: nat, j: nat)
    requires i < |c| && j != i + 1
    ensures var d := InsertedAfter(c, i, b); |d| == |c| + 1 && (j < |d| ==> d[j] == if j <= i then c[j] else c[j - 1])
  {
  }

  lemma LinkAfterAt(c: seq<nat>, head: int, next: seq<int>, none: int, i: nat, b: nat, j: nat)
    requires List(c, head, next, none) && i < |c| && b !in c && b < |next| && b != none && j <= |c| && j != i + 1
    ensures var d := InsertedAfter(c, i, b);
            && d[j] < |next| && d[j] != none && c[i] < |next|
            && next[b := next[c[i]]][c[i] := b][d[j]] == NextOf(d, j + 1, none)
  {
    hide List, Distinct;
    var s := if j <= i then j else j - 1;
    Link(c, head, next, none, i);
    Link(c, head, next, none, s);
    ListDistinct(c, head, next, none);
    DistinctAt(c, s, i);
    assert c[s] in c;
    InsertedAt(c, i, b, j);
    if j != i { InsertedAt(c, i, b, j + 1); }
  }

  /** A list depends only on the links of its own elements. */
  lemma Frame(c: seq<nat>, head: int, next: seq<int>, next': seq<int>, none: int)
    requires List(c, head, next, none)
    requires forall x | x in c :: x < |next'| && next'[x] == next[x]
    ensures List(c, head, next', none)
  {
  }

  lemma Starts(c: seq<nat>, head: int, next: seq<int>, none: int)
    requires List(c, head, next, none)
    ensures head == NextOf(c, 0, none)
  {
  }

  lemma Link(c: seq<nat>, head: int, next: seq<int>, none: int, i: nat)
    requires List(c, head, next, none) && i < |c|
    ensures c[i] < |next| && c[i] != none && next[c[i]] == NextOf(c, i + 1, none)
  {
  }
}
