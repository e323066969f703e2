/** Directories, fs/namei.cc: find_entry and add_entry over the blocks of a directory file, which hold 64 entries
    each, refine a map from names to inode numbers. */
module Directories {

  const NAME_LEN: nat := 14
  const PER_BLOCK: nat := 64

  /** A name as the user gave it: no zero byte inside. */
  type Name = seq<nat>

  /** inode 0 marks a free entry; name is zero-padded to 14 bytes. */
  datatype Entry = Entry(inode: nat, name: seq<nat>)

  /** The blocks of the directory file, and its size in entries. */
  datatype Dir = Dir(blocks: seq<seq<Entry>>, size: nat)

  predicate IsName(n: Name) {
    n != [] && 0 !in n
  }

  /** Names count only up to 14 bytes. */
  function Key(n: Name): (k: Name)
    ensures IsName(n) ==> IsName(k)
    ensures k <= n && |k| <= NAME_LEN && (|k| < NAME_LEN ==> k == n)
  {
    if |n| > NAME_LEN then n[..NAME_LEN] else n
  }

  /** The names go on alike at i. */
  predicate SameChar(a: Name, b: Name, i: nat) {
    (i < |a| <==> i < |b|) && (i < |a| ==> a[i] == b[i])
  }

  /** Two names stand for the same entry exactly when they agree up to there. */
  lemma SameKey(a: Name, b: Name)
    ensures Key(a) == Key(b) <==> forall i: nat | i < 14 :: SameChar(a, b, i)
    ensures |a| <= 14 ==> Key(a) == a
  {
    var j, k := Key(a), Key(b);
    if forall i: nat | i < 14 :: SameChar(a, b, i) {
      assert |j| < 14 ==> SameChar(a, b, |j|);
      assert |k| < 14 ==> SameChar(a, b, |k|);
      forall i: nat | i < |j| ensures j[i] == k[i] { assert SameChar(a, b, i); }
    } else {
      var i: nat :| i < 14 && !SameChar(a, b, i);
      assert i < |a| ==> i < |j| && j[i] == a[i];
      assert i < |b| ==> i < |k| && k[i] == b[i];
    }
  }

  /** The name in an entry: up to the first zero. */
  function Text(name: seq<nat>): (t: Name)
    ensures |t| <= |name| && t == name[..|t|] && 0 !in t && (|t| < |name| ==> name[|t|] == 0)
  {
    if name == [] || name[0] == 0 then [] else
      var rest := Text(name[1..]);
      assert [name[0]] + rest == name[..|rest| + 1];
      [name[0]] + rest
  }

  function Padded(k: Name): (r: seq<nat>)
    requires |k| <= NAME_LEN
    ensures |r| == NAME_LEN && k <= r && forall i | |k| <= i < NAME_LEN :: r[i] == 0
  {
    seq(NAME_LEN, i requires 0 <= i < NAME_LEN => if i < |k| then k[i] else 0)
  }

  lemma {:induction false} TextIs(name: seq<nat>, k: Name)
    requires |k| <= |name| && 0 !in k
    ensures Text(name) == k <==> name[..|k|] == k && (|k| < |name| ==> name[|k|] == 0)
  {
    if k != [] {
      assert name[..|k|] == [name[0]] + name[1..][..|k| - 1] && k == [k[0]] + k[1..];
      assert k[0] != 0;
      TextIs(name[1..], k[1..]);
    }
  }

  // ---- the entries of a directory ------------------------------------------------------------------

  predicate DirOk(d: Dir) {
    && (forall b | 0 <= b < |d.blocks| :: |d.blocks[b]| == PER_BLOCK)
    && (forall b, j | 0 <= b < |d.blocks| && 0 <= j < |d.blocks[b]| :: |d.blocks[b][j].name| == NAME_LEN)
    && d.size <= PER_BLOCK * |d.blocks| && d.blocks != []
  }

  function At(d: Dir, i: nat): Entry
    requires DirOk(d) && i < PER_BLOCK * |d.blocks|
  {
    d.blocks[i / 64][i % 64]
  }

  /** Entry i is in use and has name k. */
  predicate Holds(d: Dir, i: nat, k: Name)
    requires DirOk(d) && i < PER_BLOCK * |d.blocks|
  {
    At(d, i).inode != 0 && Text(At(d, i).name) == k
  }

  /** No two entries in use have the same name. */
  predicate Unique(d: Dir)
    requires DirOk(d)
  {
    forall i: nat, j: nat | i < d.size && j < d.size && At(d, i).inode != 0 && At(d, j).inode != 0
                            && Text(At(d, i).name) == Text(At(d, j).name) :: i == j
  }

  /** d maps name k to inode number n; 0 says that there is no such name. */
  ghost predicate Maps(d: Dir, k: Name, n: nat)
    requires DirOk(d)
  {
    if n == 0 then forall i: nat | i < d.size :: !Holds(d, i, k) else
      exists i: nat :: i < d.size && Holds(d, i, k) && At(d, i).inode == n
  }

  /** A directory is a map: each name has one inode number. */
  lemma IsMap(d: Dir, k: Name)
    requires DirOk(d) && Unique(d)
    ensures exists n :: Maps(d, k, n)
    ensures forall n, m :: Maps(d, k, n) && Maps(d, k, m) ==> n == m
  {
    if i: nat :| i < d.size && Holds(d, i, k) {
      assert Maps(d, k, At(d, i).inode);
    } else {
      assert Maps(d, k, 0);
    }
  }

  /** match() */
  method Match(n: Name, de: Entry) returns (same: bool)
    requires 0 !in n && |de.name| == NAME_LEN
    ensures same <==> de.inode != 0 && |n| <= NAME_LEN && Text(de.name) == n
  {
    if |n| <= NAME_LEN { TextIs(de.name, n); }
    if de.inode == 0 || |n| > NAME_LEN { return false; }
    if |n| < NAME_LEN && de.name[|n|] != 0 { return false; }
    var i := 0;
    while i < |n| && n[i] == de.name[i]
      invariant 0 <= i <= |n| && n[..i] == de.name[..i]
    {
      i := i + 1;
    }
    same := i == |n|;
    assert de.name[..|n|][..i] == de.name[..i];
    if same {
      assert n[..i] == n;
    } else {
      assert de.name[..|n|][i] == de.name[i] != n[i];
    }
  }

  const DOT: nat := 46

  /** What new_block hands out. */
  function EmptyBlock(): (b: seq<Entry>) {
    seq(PER_BLOCK, j => Entry(0, Padded([])))
  }

  /** r agrees with d but for entry i, which is free in both or new. */
  predicate SameBut(d: Dir, r: Dir, i: nat)
    requires DirOk(d) && DirOk(r)
  {
    && i < r.size && (r.size == d.size || (r.size == d.size + 1 && i == d.size))
    && (i < d.size ==> At(d, i).inode == 0)
    && forall j: nat | j < d.size && j != i :: At(r, j) == At(d, j)
  }

  /** A free entry may be given any name. */
  lemma FreeEntryOk(d: Dir, r: Dir, i: nat)
    requires DirOk(d) && DirOk(r) && Unique(d) && SameBut(d, r, i) && At(r, i).inode == 0
    ensures Unique(r) && forall k, n :: Maps(r, k, n) <==> Maps(d, k, n)
  {
    forall k, j: nat | j < r.size ensures Holds(r, j, k) <==> j < d.size && Holds(d, j, k) {
    }
    forall k, n | n != 0 ensures Maps(r, k, n) <==> Maps(d, k, n) {
      if Maps(r, k, n) {
        var j: nat :| j < r.size && Holds(r, j, k) && At(r, j).inode == n;
        assert Holds(d, j, k);
      }
      if Maps(d, k, n) {
        var j: nat :| j < d.size && Holds(d, j, k) && At(d, j).inode == n;
        assert Holds(r, j, k);
      }
    }
    forall k ensures Maps(r, k, 0) <==> Maps(d, k, 0) {
      assert forall j: nat | j < d.size :: Holds(d, j, k) <==> Holds(r, j, k);
    }
  }

  /** The caller's store of the inode number makes the name appear, and nothing else changes. */
  lemma StoreOk(d: Dir, r: Dir, i: nat, n: nat)
    requires DirOk(d) && DirOk(r) && Unique(d) && SameBut(d, r, i) && r.size == d.size && At(r, i).inode == n != 0
    requires Maps(d, Text(At(r, i).name), 0)
    ensures Unique(r) && Maps(r, Text(At(r, i).name), n)
    ensures forall k, m | k != Text(At(r, i).name) :: Maps(r, k, m) <==> Maps(d, k, m)
  {
    var t := Text(At(r, i).name);
    assert Holds(r, i, t);
    forall j: nat | j < r.size && j != i ensures At(r, j) == At(d, j) && !Holds(r, j, t) {
      assert !Holds(d, j, t);
    }
    forall k, m | k != t ensures Maps(r, k, m) <==> Maps(d, k, m) {
      assert forall j: nat | j < d.size :: Holds(d, j, k) <==> Holds(r, j, k);
      OthersMap(d, r, i, k, m);
    }
  }

  lemma OthersMap(d: Dir, r: Dir, i: nat, k: Name, m: nat)
    requires DirOk(d) && DirOk(r) && r.size == d.size && i < d.size
    requires forall j: nat | j < d.size && j != i :: At(r, j) == At(d, j)
    requires !Holds(d, i, k) && !Holds(r, i, k)
    ensures Maps(r, k, m) <==> Maps(d, k, m)
  {
    assert forall j: nat | j < d.size :: Holds(d, j, k) <==> Holds(r, j, k);
    if m != 0 {
      if Maps(r, k, m) {
        var j: nat :| j < r.size && Holds(r, j, k) && At(r, j).inode == m;
        assert Holds(d, j, k);
      }
      if Maps(d, k, m) {
        var j: nat :| j < d.size && Holds(d, j, k) && At(d, j).inode == m;
        assert Holds(r, j, k);
      }
    }
  }

  /** Clearing an entry's inode number takes away its name, and no other. */
  lemma RemoveOk(d: Dir, r: Dir, i: nat)
    requires DirOk(d) && DirOk(r) && Unique(d) && r.size == d.size && i < d.size
    requires At(d, i).inode != 0 && At(r, i) == At(d, i).(inode := 0)
    requires forall j: nat | j < d.size && j != i :: At(r, j) == At(d, j)
    ensures Unique(r) && Maps(r, Text(At(d, i).name), 0)
    ensures forall k, m | k != Text(At(d, i).name) :: Maps(r, k, m) <==> Maps(d, k, m)
  {
    var t := Text(At(d, i).name);
    assert Holds(d, i, t);
    forall j: nat | j < r.size ensures !Holds(r, j, t) {
      assert j != i ==> At(r, j) == At(d, j);
    }
    forall k, m | k != t ensures Maps(r, k, m) <==> Maps(d, k, m) {
      OthersMap(d, r, i, k, m);
    }
  }

  // ---- after a sleep -------------------------------------------------------------------------------

  /** A name was looked up and not found, and the caller slept, in new_inode or in add_entry.  Now it enters the name,
      in an entry free by then: the directory is still a map exactly when the name is still not there. */
  lemma EnterLate(d: Dir, r: Dir, i: nat, k: Name, n: nat)
    requires DirOk(d) && DirOk(r) && Unique(d) && SameBut(d, r, i) && At(r, i).inode == n != 0 && Text(At(r, i).name) == k
    ensures Unique(r) <==> Maps(d, k, 0)
    ensures Maps(d, k, 0) ==> Maps(r, k, n) && forall l, m | l != k :: Maps(r, l, m) <==> Maps(d, l, m)
  {
    if Maps(d, k, 0) {
      StoreNew(d, r, i, k, n);
    } else {
      var j: nat :| j < d.size && Holds(d, j, k);
      assert i != j && At(r, j) == At(d, j);
    }
  }

  lemma StoreNew(d: Dir, r: Dir, i: nat, k: Name, n: nat)
    requires DirOk(d) && DirOk(r) && Unique(d) && SameBut(d, r, i) && At(r, i).inode == n != 0 && Text(At(r, i).name) == k
    requires Maps(d, k, 0)
    ensures Unique(r) && Maps(r, k, n) && forall l, m | l != k :: Maps(r, l, m) <==> Maps(d, l, m)
  {
    var free := WithEntry(r, i / 64, i % 64, At(r, i).(inode := 0));
    WithEntryAt(r, i / 64, i % 64, At(r, i).(inode := 0));
    assert i == 64 * (i / 64) + i % 64;
    FreeEntryOk(d, free, i);
    hide Unique, Maps;
    StoreOk(free, r, i, n);
  }

  /** Exactly name k is taken away. */
  ghost predicate TakesAway(d: Dir, r: Dir, k: Name)
    requires DirOk(d) && DirOk(r)
  {
    Maps(r, k, 0) && forall l, m | l != k :: Maps(r, l, m) <==> Maps(d, l, m)
  }

  /** Name k was found in entry i, and the caller slept in iget.  Now it clears the entry: that takes away the name,
      and no other, exactly when the entry still holds it, or is free and the name is gone anyhow. */
  lemma RemoveLate(d: Dir, r: Dir, i: nat, k: Name)
    requires DirOk(d) && DirOk(r) && Unique(d) && r.size == d.size && i < d.size && At(r, i) == At(d, i).(inode := 0)
    requires forall j: nat | j < d.size && j != i :: At(r, j) == At(d, j)
    ensures Unique(r)
    ensures TakesAway(d, r, k) <==> Holds(d, i, k) || (At(d, i).inode == 0 && Maps(d, k, 0))
  {
    var t := Text(At(d, i).name);
    if At(d, i).inode == 0 {
      FreeEntryOk(d, r, i);
    } else {
      RemoveOk(d, r, i);
      assert Holds(d, i, t) && Maps(d, t, At(d, i).inode);
      assert !Maps(r, t, At(d, i).inode);
    }
  }

  /** Entry i, which is free or the next after the last, gets a name and a number: add_entry and the store. */
  function Entered(d: Dir, i: nat, e: Entry): (r: Dir)
    requires DirOk(d) && i < 64 * |d.blocks| && i <= d.size && |e.name| == NAME_LEN
    ensures DirOk(r) && |r.blocks| == |d.blocks| && At(r, i) == e && r.size == if i == d.size then d.size + 1 else d.size
    ensures forall j: nat | j < 64 * |d.blocks| && j != i :: At(r, j) == At(d, j)
  {
    var w := WithEntry(d, i / 64, i % 64, e);
    WithEntryAt(d, i / 64, i % 64, e);
    w.(size := if i == d.size then d.size + 1 else d.size)
  }

  /** The first free entry from i on, the number of entries when there is none. */
  function FirstFree(d: Dir, i: nat): (r: nat)
    requires DirOk(d) && i <= d.size
    ensures i <= r <= d.size && (r < d.size ==> At(d, r).inode == 0) && forall j: nat | i <= j < r :: At(d, j).inode != 0
    decreases d.size - i
  {
    if i == d.size || At(d, i).inode == 0 then i else FirstFree(d, i + 1)
  }

  /** add_entry: the directory, with a free entry for name k, and the entry; -1 when there is no room for another block. */
  function Added(d: Dir, k: Name, room: bool): (r: (Dir, int))
    requires DirOk(d) && |k| <= NAME_LEN
    ensures DirOk(r.0)
  {
    var i: int := FirstFree(d, 0);
    if i < 64 * |d.blocks| then (Entered(d, i, Entry(0, Padded(k))), i)
    else if room then (Entered(Extended(d), i, Entry(0, Padded(k))), i)
    else (d, -1)
  }

  /** One more block, of free entries. */
  function Extended(d: Dir): (r: Dir)
    requires DirOk(d)
    ensures DirOk(r)
  {
    d.(blocks := d.blocks + [EmptyBlock()])
  }

  lemma FirstFreeIs(d: Dir, i: nat)
    requires DirOk(d) && i <= d.size && (forall j: nat | j < i :: At(d, j).inode != 0) && (i < d.size ==> At(d, i).inode == 0)
    ensures FirstFree(d, 0) == i
  {
  }

  lemma NoneFree(d: Dir, i: nat, k: Name)
    requires DirOk(d) && |k| <= NAME_LEN && i == d.size == 64 * |d.blocks| && forall j: nat | j < i :: At(d, j).inode != 0
    ensures Added(d, k, false) == (d, -1)
  {
    FirstFreeIs(d, i);
  }

  /** The store of an inode number in an entry. */
  function WithNumber(d: Dir, i: nat, inode: nat): Dir
    requires DirOk(d) && i < 64 * |d.blocks|
  {
    WithEntry(d, i / 64, i % 64, At(d, i).(inode := inode))
  }

  /** Two stores in one entry. */
  lemma WithEntryTwice(d: Dir, b: nat, j: nat, e: Entry, f: Entry, size: nat)
    requires DirOk(d) && b < |d.blocks| && j < PER_BLOCK && |e.name| == NAME_LEN && size <= 64 * |d.blocks|
    ensures DirOk(WithEntry(d, b, j, e).(size := size))
    ensures WithEntry(WithEntry(d, b, j, e).(size := size), b, j, f) == WithEntry(d, b, j, f).(size := size)
  {
    WithEntryAt(d, b, j, e);
    assert d.blocks[b][j := e][j := f] == d.blocks[b][j := f];
    var x := d.blocks[b := d.blocks[b][j := e]];
    assert x[b := d.blocks[b][j := f]] == d.blocks[b := d.blocks[b][j := f]];
  }

  /** What the stores of add_entry come to: the directory grown by a block if need be, the new entry cleared and counted,
      and then named. */
  lemma EntryAdded(was: Dir, grown: Dir, mid: Dir, i: nat, k: Name, room: bool)
    requires DirOk(was) && DirOk(grown) && |k| <= NAME_LEN && i <= was.size && i < 64 * |grown.blocks|
    requires grown == if i < 64 * |was.blocks| then was else Extended(was)
    requires i < 64 * |was.blocks| || room
    requires (forall j: nat | j < i :: At(was, j).inode != 0) && (i < was.size ==> At(was, i).inode == 0)
    requires mid == if i < was.size then grown else WithEntry(grown, i / 64, i % 64, At(grown, i).(inode := 0)).(size := i + 1)
    ensures DirOk(mid) && |mid.blocks| == |grown.blocks|
    ensures var r := WithEntry(mid, i / 64, i % 64, Entry(0, Padded(k)));
            && DirOk(r) && (r, i) == Added(was, k, room) && SameBut(was, r, i) && i < r.size && At(r, i) == Entry(0, Padded(k))
  {
    hide FirstFree;
    var e := Entry(0, Padded(k));
    FirstFreeIs(was, i);
    assert i == 64 * (i / 64) + i % 64;
    GrownAt(was, grown);
    WithEntryTwice(grown, i / 64, i % 64, At(grown, i).(inode := 0), e, i + 1);
    WithEntryAt(grown, i / 64, i % 64, e);
    assert WithEntry(mid, i / 64, i % 64, e) == Entered(grown, i, e);
  }

  lemma GrownAt(d: Dir, r: Dir)
    requires DirOk(d) && DirOk(r) && |r.blocks| >= |d.blocks| && r.blocks[..|d.blocks|] == d.blocks
    ensures forall i: nat | i < 64 * |d.blocks| :: At(r, i) == At(d, i)
  {
    assert forall b | 0 <= b < |d.blocks| :: r.blocks[b] == r.blocks[..|d.blocks|][b];
  }

  /** A directory that has no entry yet. */
  function Fresh(): (d: Dir)
    ensures DirOk(d) && |d.blocks| == 1 && d.size == 0 && Unique(d) && forall k :: Maps(d, k, 0)
  {
    Dir([EmptyBlock()], 0)
  }

  /** Two tasks look up "a" in it, both before either goes on; then each enters it, in the first entry free by then.
      Each does what EnterLate says, the first finding the name still missing and the second finding it there. */
  lemma EnteredTwice()
    ensures var k: Name := [97];
            var d0 := Fresh();
            var d1 := Entered(d0, 0, Entry(5, Padded(k)));
            var d2 := Entered(d1, 1, Entry(6, Padded(k)));
            && Maps(d0, k, 0) && SameBut(d0, d1, 0) && SameBut(d1, d2, 1)
            && Unique(d1) && Maps(d1, k, 5) && !Maps(d1, k, 0) && !Unique(d2) && Maps(d2, k, 5) && Maps(d2, k, 6)
  {
    hide Unique, Entered, Fresh, Text, Padded;
    var k: Name := [97];
    var d0 := Fresh();
    var d1 := Entered(d0, 0, Entry(5, Padded(k)));
    var d2 := Entered(d1, 1, Entry(6, Padded(k)));
    PaddedText(k);
    EnterLate(d0, d1, 0, k, 5);
    assert Holds(d1, 0, k);
    EnterLate(d1, d2, 1, k, 6);
    assert Holds(d2, 0, k) && Holds(d2, 1, k);
  }

  /** Entry j of block b is replaced. */
  function WithEntry(d: Dir, b: nat, j: nat, e: Entry): Dir
    requires DirOk(d) && b < |d.blocks| && j < PER_BLOCK
  {
    d.(blocks := d.blocks[b := d.blocks[b][j := e]])
  }

  lemma WithEntryAt(d: Dir, b: nat, j: nat, e: Entry)
    requires DirOk(d) && b < |d.blocks| && j < PER_BLOCK && |e.name| == NAME_LEN
    ensures DirOk(WithEntry(d, b, j, e)) && At(d, 64 * b + j) == d.blocks[b][j] && At(WithEntry(d, b, j, e), 64 * b + j) == e
    ensures forall i: nat | i < 64 * |d.blocks| && i != 64 * b + j :: At(WithEntry(d, b, j, e), i) == At(d, i)
  {
    InBlock(b, j);
    forall i: nat | i < 64 * |d.blocks| && i != 64 * b + j ensures At(WithEntry(d, b, j, e), i) == At(d, i) {
      assert i == 64 * (i / 64) + i % 64;
    }
  }

  lemma InBlock(b: nat, j: nat)
    requires j < 64
    ensures (64 * b + j) / 64 == b && (64 * b + j) % 64 == j
  {
  }

  class Directory {
    var d: Dir

    ghost predicate Valid()
      reads this
    {
      DirOk(d) && Unique(d)
    }

    constructor (block: seq<Entry>)
      requires |block| == PER_BLOCK && forall j | 0 <= j < PER_BLOCK :: |block[j].name| == NAME_LEN
      ensures Valid() && forall k :: Maps(d, k, 0)
    {
      d := Dir([block], 0);
    }

    /** find_entry.  In the root of a task ".." means ".".  The result is the entry's number, -1 for none. */
    method FindEntry(n: Name, isRoot: bool) returns (i: int)
      requires Valid() && 0 !in n
      ensures var k := if isRoot && n == [DOT, DOT] then [DOT] else Key(n);
              && (i == -1 ==> n == [] || Maps(d, k, 0))
              && (i != -1 ==> n != [] && 0 <= i < d.size && Holds(d, i, k) && Maps(d, k, At(d, i).inode))
      ensures n != [] && |n| <= 14 && !(isRoot && n == [DOT, DOT]) ==>
        (i == -1 <==> forall j: nat | j < d.size && At(d, j).inode != 0 :: Text(At(d, j).name) != n)
    {
      i := 0;
      var k := Key(n);
      if n == [] { return -1; }
      if isRoot && n == [DOT, DOT] { k := [DOT]; }
      var block, de := 0, 0;
      while i < d.size
        invariant 0 <= i <= d.size && 0 <= de <= PER_BLOCK && i == 64 * block + de && block < |d.blocks|
        invariant forall j: nat | j < i :: !Holds(d, j, k)
      {
        if de >= PER_BLOCK {
          block, de := block + 1, 0;
        }
        InBlock(block, de);
        assert At(d, i) == d.blocks[block][de];
        var same := Match(k, d.blocks[block][de]);
        if same {
          assert Holds(d, i, k);
          return;
        }
        de := de + 1;
        i := i + 1;
      }
      forall j: nat | j < d.size && At(d, j).inode != 0 ensures Text(At(d, j).name) != k { assert !Holds(d, j, k); }
      i := -1;
    }

    /** add_entry: it computes Added.  It reuses a free entry or grows the directory by one; the new entry has its name, but its inode
        number is still 0, so no name has changed yet.  room says whether create_block can get a block when one is
        needed; -1 stands for failure. */
    method AddEntry(n: Name, room: bool) returns (i: int)
      requires Valid() && 0 !in n
      modifies this
      ensures Valid() && forall k, m :: Maps(d, k, m) <==> old(DirOk(d)) && old(Maps(d, k, m))
      ensures i == -1 ==> d == old(d) && (n == [] || (!room && d.size == 64 * |d.blocks| && forall j: nat | j < d.size :: At(d, j).inode != 0))
      ensures i != -1 ==> 0 <= i < d.size && At(d, i) == Entry(0, Padded(Key(n)))
      ensures n != [] ==> old(DirOk(d)) && (d, i) == Added(old(d), Key(n), room)
    {
      hide Text, Padded, Maps, Unique, Added, FirstFree;
      if n == [] { return -1; }
      ghost var was := d;
      i := 0;
      var block, de := 0, 0;
      while true
        invariant 0 <= i <= d.size && 0 <= de <= PER_BLOCK && i == 64 * block + de && block < |d.blocks|
        invariant d == was && forall j: nat | j < i :: At(d, j).inode != 0
        decreases d.size - i
      {
        if de >= PER_BLOCK {
          block, de := block + 1, 0;
          if block == |d.blocks| {
            if !room {
              NoneFree(was, i, Key(n));
              return -1;
            }
            d := d.(blocks := d.blocks + [EmptyBlock()]);
          }
        }
        ghost var grown := d;
        GrownAt(was, grown);
        InBlock(block, de);
        if i >= d.size {
          WithEntryAt(d, block, de, d.blocks[block][de].(inode := 0));
          d := WithEntry(d, block, de, d.blocks[block][de].(inode := 0));
          d := d.(size := i + 1);
        }
        if d.blocks[block][de].inode == 0 {
          EntryAdded(was, grown, d, i, Key(n), room);
          var name := FillName(Key(n));
          d := WithEntry(d, block, de, Entry(0, name));
          FreeEntryOk(was, d, i);
          return;
        }
        de := de + 1;
        i := i + 1;
      }
    }

    /** The loop that copies the name, padding it with zeros. */
    method FillName(k: Name) returns (name: seq<nat>)
      requires |k| <= NAME_LEN
      ensures name == Padded(k)
    {
      name := [];
      while |name| < NAME_LEN
        invariant |name| <= NAME_LEN && forall i | 0 <= i < |name| :: name[i] == Padded(k)[i]
        decreases NAME_LEN - |name|
      {
        name := name + [if |name| < |k| then k[|name|] else 0];
      }
    }

    /** What a caller that did not find the name does next, perhaps after a sleep: add an entry and store the inode
        number in it. */
    method EnterNow(n: Name, inode: nat, room: bool) returns (ok: bool)
      requires Valid() && IsName(n) && inode != 0
      modifies this
      ensures DirOk(d) && (Unique(d) <==> !ok || (old(DirOk(d)) && old(Maps(d, Key(n), 0))))
      ensures ok ==> exists i: nat :: i < d.size && Holds(d, i, Key(n)) && At(d, i).inode == inode
      ensures forall k, m | !ok || (k != Key(n) && old(DirOk(d)) && old(Maps(d, Key(n), 0))) :: Maps(d, k, m) <==> old(DirOk(d)) && old(Maps(d, k, m))
      ensures !ok ==> d == old(d) && !room
      ensures old(DirOk(d)) && (ok <==> Added(old(d), Key(n), room).1 >= 0)
      ensures ok ==> (Added(old(d), Key(n), room).1 < 64 * |Added(old(d), Key(n), room).0.blocks|
                      && d == WithNumber(Added(old(d), Key(n), room).0, Added(old(d), Key(n), room).1, inode))
    {
      hide Added;
      var i := AddEntry(n, room);
      if i == -1 { return false; }
      ghost var was := d;
      PaddedText(Key(n));
      ghost var b, j := i / 64, i % 64;
      assert i == 64 * b + j;
      WithEntryAt(d, b, j, Entry(inode, At(d, i).name));
      d := WithEntry(d, i / 64, i % 64, Entry(inode, d.blocks[i / 64][i % 64].name));
      EnterLate(was, d, i, Key(n), inode);
      assert Holds(d, i, Key(n));
      ok := true;
    }

    /** The same without a sleep after the lookup. */
    method Enter(n: Name, inode: nat, room: bool) returns (ok: bool)
      requires Valid() && IsName(n) && inode != 0
      modifies this
      ensures Valid()
      ensures ok ==> old(DirOk(d)) && old(Maps(d, Key(n), 0)) && Maps(d, Key(n), inode)
      ensures forall k, m | !ok || k != Key(n) :: Maps(d, k, m) <==> old(DirOk(d)) && old(Maps(d, k, m))
      ensures !ok ==> d == old(d) && (!Maps(d, Key(n), 0) || !room)
    {
      var found := FindEntry(n, false);
      if found != -1 {
        assert Holds(d, found, Key(n));
        return false;
      }
      ok := EnterNow(n, inode, room);
    }

    /** What unlink and rmdir do with the entry found, perhaps after a sleep: it becomes free. */
    method ClearEntry(i: nat)
      requires Valid() && i < d.size
      modifies this
      ensures Valid() && d == old(WithNumber(d, i, 0))
      ensures forall k :: TakesAway(old(d), d, k) <==>
        old(DirOk(d)) && (old(Holds(d, i, k)) || (old(At(d, i).inode) == 0 && old(Maps(d, k, 0))))
    {
      ghost var was := d;
      ghost var b, j := i / 64, i % 64;
      assert i == 64 * b + j;
      WithEntryAt(d, b, j, At(d, i).(inode := 0));
      d := WithEntry(d, i / 64, i % 64, d.blocks[i / 64][i % 64].(inode := 0));
      forall k ensures Unique(d) && (TakesAway(was, d, k) <==> Holds(was, i, k) || (At(was, i).inode == 0 && Maps(was, k, 0))) {
        RemoveLate(was, d, i, k);
      }
    }

    /** The same without a sleep after the lookup. */
    method Remove(n: Name) returns (ok: bool)
      requires Valid() && IsName(n)
      modifies this
      ensures Valid() && (ok <==> old(DirOk(d)) && !old(Maps(d, Key(n), 0))) && Maps(d, Key(n), 0)
      ensures forall k, m | k != Key(n) :: Maps(d, k, m) <==> old(DirOk(d)) && old(Maps(d, k, m))
    {
      var i := FindEntry(n, false);
      if i == -1 { return false; }
      assert Holds(d, i, Key(n));
      ghost var was := d;
      ClearEntry(i);
      assert TakesAway(was, d, Key(n));
      ok := true;
    }
  }

  lemma PaddedText(k: Name)
    requires |k| <= NAME_LEN && 0 !in k
    ensures Text(Padded(k)) == k
  {
    assert Padded(k)[..|k|] == k;
    TextIs(Padded(k), k);
  }
}
