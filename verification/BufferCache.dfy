/** fs/buffer.cc: buffers found by hash chain, reused along one circular free list, with tasks asleep in
    the middle of getblk.

    Each task holds some references to buffers.  For the task whose code is running, mine counts its own
    references and others those of all other tasks.  A sleep lets the others run: they may do anything
    that keeps the cache consistent and leaves alone the buffers this task holds (the rely condition);
    what this task does between two sleeps leaves alone the buffers the others hold (the guarantee). */
module BufferCache {
  import opened Links

  const NR_HASH: nat := 307

  /** _hashfn */
  function Hash(dev: nat, block: nat): (h: nat)
    ensures h < NR_HASH && (Xor(dev, block) - h) % NR_HASH == 0
  {
    Xor(dev, block) % NR_HASH
  }

  /** Bitwise exclusive or. */
  function Xor(a: nat, b: nat): nat {
    if a == 0 && b == 0 then 0 else (a % 2 + b % 2) % 2 + 2 * Xor(a / 2, b / 2)
  }

  /** Bit i, counted from the right. */
  predicate Bit(a: nat, i: nat) {
    if i == 0 then a % 2 == 1 else Bit(a / 2, i - 1)
  }

  lemma {:induction false} XorBits(a: nat, b: nat, i: nat)
    ensures Bit(Xor(a, b), i) <==> Bit(a, i) != Bit(b, i)
    decreases i
  {
    XorHalf(a, b);
    if i > 0 { XorBits(a / 2, b / 2, i - 1); }
  }

  lemma XorHalf(a: nat, b: nat)
    ensures (Xor(a, b) % 2 == 1 <==> (a % 2 == 1) != (b % 2 == 1)) && Xor(a, b) / 2 == Xor(a / 2, b / 2)
  {
    var h := Xor(a / 2, b / 2);
    assert Xor(0, 0) == 0;
    var c: nat := if a % 2 == b % 2 then 0 else 1;
    OneMore(c, h);
    Parity(a % 2, b % 2);
    if a != 0 || b != 0 { assert Xor(a, b) == c + 2 * h; }
  }

  lemma Parity(x: nat, y: nat)
    requires x < 2 && y < 2
    ensures (x + y) % 2 == if x == y then 0 else 1
  {
  }

  lemma OneMore(c: nat, h: nat)
    requires c < 2
    ensures (c + 2 * h) % 2 == c && (c + 2 * h) / 2 == h
  {
  }

  datatype Pool = Pool(
    dev: seq<nat>, blk: seq<nat>,
    next: seq<int>, prev: seq<int>, hashTable: seq<int>,
    nextFree: seq<int>, prevFree: seq<int>, freeList: int)

  /** The lists the links stand for: the free list from free_list on, and each hash chain. */
  datatype Lists = Lists(free: seq<nat>, chains: seq<seq<nat>>)

  ghost predicate Sized(p: Pool, l: Lists) {
    && |p.dev| >= 2
    && |p.blk| == |p.next| == |p.prev| == |p.nextFree| == |p.prevFree| == |p.dev|
    && |p.hashTable| == |l.chains| == NR_HASH
  }

  /** Every buffer but x (-1 for none) is on the free list. */
  ghost predicate FreeOk(p: Pool, l: Lists, x: int) {
    && Ring(l.free, p.nextFree, p.prevFree) && p.freeList == l.free[0]
    && forall b: nat :: b in l.free <==> b < |p.dev| && b != x
  }

  predicate HashedAt(p: Pool, b: nat, h: nat)
    requires |p.blk| == |p.dev|
  {
    b < |p.dev| && p.dev[b] != 0 && Hash(p.dev[b], p.blk[b]) == h
  }

  /** Every buffer with a device, but x, is on exactly its own hash chain; one without is on none. */
  ghost predicate HashOk(p: Pool, l: Lists, x: int)
    requires Sized(p, l)
  {
    && (forall h | 0 <= h < NR_HASH :: Chain(l.chains[h], p.hashTable[h], p.next, p.prev))
    && (forall h: nat, b: nat | h < NR_HASH :: b in l.chains[h] <==> HashedAt(p, b, h) && b != x)
    && (forall b: nat | b < |p.dev| && p.dev[b] == 0 && b != x :: p.next[b] == -1 && p.prev[b] == -1)
  }

  /** No two buffers, other than x, stand for the same block. */
  ghost predicate Unique(p: Pool, x: int)
    requires |p.blk| == |p.dev|
  {
    forall a: nat, b: nat | a < |p.dev| && b < |p.dev| && a != x && b != x && p.dev[a] != 0
                            && p.dev[a] == p.dev[b] && p.blk[a] == p.blk[b] :: a == b
  }

  ghost predicate Consistent(p: Pool, l: Lists, x: int) {
    Sized(p, l) && FreeOk(p, l, x) && HashOk(p, l, x) && Unique(p, x)
  }

  // ---- remove_from_queues, insert_into_queues ------------------------------------------------------

  function RemoveHash(p: Pool, b: nat): (r: Pool)
    requires b < |p.dev| == |p.blk| == |p.next| == |p.prev| && |p.hashTable| == NR_HASH
    ensures r.dev == p.dev && r.blk == p.blk && |r.next| == |p.next| && |r.prev| == |p.prev| && |r.hashTable| == NR_HASH
    ensures r.nextFree == p.nextFree && r.prevFree == p.prevFree && r.freeList == p.freeList
  {
    var h := Hash(p.dev[b], p.blk[b]);
    var pv := Set(p.prev, p.next[b], p.prev[b]);
    var nx := Set(p.next, p.prev[b], p.next[b]);
    p.(prev := pv, next := nx,
       hashTable := if p.hashTable[h] == b then p.hashTable[h := nx[b]] else p.hashTable)
  }

  function RemoveFree(p: Pool, b: nat): (r: Pool)
    requires b < |p.nextFree| == |p.prevFree|
    ensures r.dev == p.dev && r.blk == p.blk && r.next == p.next && r.prev == p.prev && r.hashTable == p.hashTable
  {
    var nf := Set(p.nextFree, p.prevFree[b], p.nextFree[b]);
    var pf := Set(p.prevFree, nf[b], p.prevFree[b]);
    p.(nextFree := nf, prevFree := pf, freeList := if p.freeList == b then nf[b] else p.freeList)
  }

  function RemoveBuffer(p: Pool, b: nat): Pool
    requires b < |p.dev| == |p.blk| == |p.next| == |p.prev| == |p.nextFree| == |p.prevFree| && |p.hashTable| == NR_HASH
  {
    RemoveFree(RemoveHash(p, b), b)
  }

  ghost function ListsWithout(p: Pool, l: Lists, b: nat): (r: Lists)
    requires Consistent(p, l, -1) && b < |p.dev|
  {
    var h := Hash(p.dev[b], p.blk[b]);
    Lists(Without(l.free, IndexOf(l.free, b)),
          if p.dev[b] == 0 then l.chains else l.chains[h := Without(l.chains[h], IndexOf(l.chains[h], b))])
  }

  lemma RemoveFreeOk(p: Pool, l: Lists, b: nat)
    requires Sized(p, l) && FreeOk(p, l, -1) && b < |p.dev|
    ensures FreeOk(RemoveFree(p, b), l.(free := Without(l.free, IndexOf(l.free, b))), b)
  {
    var i := IndexOf(l.free, b);
    TwoFree(p, l, b);
    RingRemove(l.free, p.nextFree, p.prevFree, i);
    WithoutMembers(l.free, i);
  }

  /** There is another buffer. */
  lemma TwoFree(p: Pool, l: Lists, b: nat)
    requires Sized(p, l) && FreeOk(p, l, -1)
    ensures |l.free| >= 2
  {
    assert 0 in l.free && 1 in l.free;
  }

  lemma HeadInChain(p: Pool, l: Lists, x: int, h: nat)
    requires Sized(p, l) && HashOk(p, l, x) && h < NR_HASH
    ensures p.hashTable[h] == -1 || (0 <= p.hashTable[h] && p.hashTable[h] in l.chains[h])
  {
    assert Chain(l.chains[h], p.hashTable[h], p.next, p.prev);
  }

  /** A buffer without a device is linked nowhere, so removing it changes nothing. */
  lemma RemoveUnhashed(p: Pool, l: Lists, b: nat)
    requires Sized(p, l) && HashOk(p, l, -1) && b < |p.dev| && p.dev[b] == 0
    ensures RemoveHash(p, b) == p
  {
    var h := Hash(p.dev[b], p.blk[b]);
    HeadInChain(p, l, -1, h);
    assert !HashedAt(p, b, h);
  }

  lemma RemoveSame(p: Pool, c: seq<nat>, b: nat)
    requires b < |p.dev| == |p.blk| == |p.next| == |p.prev| && |p.hashTable| == NR_HASH
    requires b in c && Chain(c, p.hashTable[Hash(p.dev[b], p.blk[b])], p.next, p.prev)
    ensures var r := RemoveHash(p, b);
            Chain(Without(c, IndexOf(c, b)), r.hashTable[Hash(p.dev[b], p.blk[b])], r.next, r.prev)
    ensures p.next[b] == -1 || (0 <= p.next[b] && p.next[b] in c)
    ensures p.prev[b] == -1 || (0 <= p.prev[b] && p.prev[b] in c)
  {
    var head := p.hashTable[Hash(p.dev[b], p.blk[b])];
    ChainRemove(c, head, p.next, p.prev, IndexOf(c, b));
    ChainNeighbours(c, head, p.next, p.prev, b);
  }

  lemma RemoveHashed(p: Pool, l: Lists, b: nat, h: nat)
    requires Sized(p, l) && HashOk(p, l, -1) && HashedAt(p, b, h) && h < NR_HASH
    ensures b in l.chains[h]
    ensures var r := RemoveHash(p, b); var c := Without(l.chains[h], IndexOf(l.chains[h], b));
            && Chain(c, r.hashTable[h], r.next, r.prev)
            && (forall g: nat | g < NR_HASH && g != h :: Chain(l.chains[g], r.hashTable[g], r.next, r.prev))
            && (forall d: nat | d < |p.dev| && p.dev[d] == 0 :: r.next[d] == p.next[d] && r.prev[d] == p.prev[d])
  {
    hide Chain, RemoveHash;
    var c := l.chains[h];
    assert b in c && Chain(c, p.hashTable[h], p.next, p.prev);
    RemoveSame(p, c, b);
    RemoveTouches(p, b, c);
    var r := RemoveHash(p, b);
    forall g: nat | g < NR_HASH && g != h ensures Chain(l.chains[g], r.hashTable[g], r.next, r.prev) {
      forall x | x in l.chains[g] ensures x !in c && x < |p.dev| {
        assert HashedAt(p, x, g);
      }
      ChainFrame(l.chains[g], p.hashTable[g], p.next, p.prev, r.next, r.prev);
    }
    forall d: nat | d < |p.dev| && p.dev[d] == 0 ensures d !in c {
      assert !HashedAt(p, d, h);
    }
  }

  lemma RemoveTouches(p: Pool, b: nat, c: seq<nat>)
    requires b < |p.dev| == |p.blk| == |p.next| == |p.prev| && |p.hashTable| == NR_HASH
    requires p.next[b] == -1 || (0 <= p.next[b] && p.next[b] in c)
    requires p.prev[b] == -1 || (0 <= p.prev[b] && p.prev[b] in c)
    ensures var r := RemoveHash(p, b);
            && (forall d: nat | d !in c && d < |p.dev| :: r.next[d] == p.next[d] && r.prev[d] == p.prev[d])
            && (forall g: nat | g < NR_HASH && g != Hash(p.dev[b], p.blk[b]) :: r.hashTable[g] == p.hashTable[g])
  {
  }

  lemma RemoveHashOk(p: Pool, l: Lists, b: nat)
    requires Consistent(p, l, -1) && b < |p.dev|
    ensures HashOk(RemoveHash(p, b), ListsWithout(p, l, b), b)
  {
    if p.dev[b] == 0 {
      RemoveUnhashed(p, l, b);
    } else {
      var h := Hash(p.dev[b], p.blk[b]);
      RemoveHashed(p, l, b, h);
      hide Chain, RemoveHash, Unique, FreeOk;
      assert Chain(l.chains[h], p.hashTable[h], p.next, p.prev);
      ChainMembers(l.chains[h], p.hashTable[h], p.next, p.prev, IndexOf(l.chains[h], b));
      var r, m := RemoveHash(p, b), ListsWithout(p, l, b);
      forall g: nat, a: nat | g < NR_HASH ensures a in m.chains[g] <==> HashedAt(r, a, g) && a != b {
        assert a in l.chains[g] <==> HashedAt(p, a, g);
      }
    }
  }

  lemma ChainMembers(c: seq<nat>, head: int, nx: seq<int>, pv: seq<int>, i: nat)
    requires Chain(c, head, nx, pv) && i < |c|
    ensures forall x :: x in Without(c, i) <==> x in c && x != c[i]
  {
    WithoutMembers(c, i);
  }

  lemma FreeAlone(p: Pool, l: Lists, m: Lists, b: nat)
    requires Sized(p, l) && FreeOk(p, l, -1) && b < |p.dev| && b in l.free && m.free == Without(l.free, IndexOf(l.free, b))
    ensures FreeOk(RemoveFree(p, b), m, b)
  {
    RemoveFreeOk(p, l, b);
    hide Ring;
  }

  /** The links of the two lists do not interfere. */
  lemma RemoveParts(p: Pool, q: Pool, l: Lists, m: Lists, b: nat)
    requires Sized(p, l) && Sized(q, m) && q.dev == p.dev && q.blk == p.blk
    requires q.nextFree == p.nextFree && q.prevFree == p.prevFree && q.freeList == p.freeList && HashOk(q, m, b)
    requires b < |p.dev| && FreeOk(RemoveFree(p, b), m, b)
    ensures FreeOk(RemoveFree(q, b), m, b) && HashOk(RemoveFree(q, b), m, b) && Sized(RemoveFree(q, b), m)
  {
    hide Ring, Chain;
  }

  /** remove_from_queues takes exactly buffer b off both lists. */
  lemma RemoveOk(p: Pool, l: Lists, b: nat)
    requires Consistent(p, l, -1) && b < |p.dev|
    ensures Consistent(RemoveBuffer(p, b), ListsWithout(p, l, b), b)
  {
    var m := ListsWithout(p, l, b);
    FreeAlone(p, l, m, b);
    RemoveHashOk(p, l, b);
    hide FreeOk, HashOk, RemoveHash, RemoveFree;
    RemoveParts(p, RemoveHash(p, b), l, m, b);
  }

  function InsertFree(p: Pool, b: nat): (r: Pool)
    requires b < |p.nextFree| == |p.prevFree| && 0 <= p.freeList < |p.prevFree|
    ensures r.dev == p.dev && r.blk == p.blk && r.next == p.next && r.prev == p.prev && r.hashTable == p.hashTable
    ensures r.freeList == p.freeList
  {
    var last := p.prevFree[p.freeList];
    p.(nextFree := Set(p.nextFree[b := p.freeList], last, b), prevFree := p.prevFree[b := last][p.freeList := b])
  }

  /** The source writes through the old head even when the chain was empty; that store is left out here. */
  function InsertHash(p: Pool, b: nat): (r: Pool)
    requires b < |p.dev| == |p.blk| == |p.next| == |p.prev| && |p.hashTable| == NR_HASH
    ensures r.dev == p.dev && r.blk == p.blk
    ensures r.nextFree == p.nextFree && r.prevFree == p.prevFree && r.freeList == p.freeList
  {
    var q := p.(prev := p.prev[b := -1], next := p.next[b := -1]);
    if p.dev[b] == 0 then q else
      var h := Hash(p.dev[b], p.blk[b]);
      var head := p.hashTable[h];
      q.(next := q.next[b := head], hashTable := p.hashTable[h := b], prev := Set(q.prev, head, b))
  }

  function InsertBuffer(p: Pool, b: nat): Pool
    requires b < |p.dev| == |p.blk| == |p.next| == |p.prev| == |p.nextFree| == |p.prevFree| && |p.hashTable| == NR_HASH
    requires 0 <= p.freeList < |p.dev|
  {
    InsertHash(InsertFree(p, b), b)
  }

  ghost function ListsWith(p: Pool, l: Lists, b: nat): (r: Lists)
    requires |p.blk| == |p.dev| && b < |p.dev| && |l.chains| == NR_HASH
  {
    var h := Hash(p.dev[b], p.blk[b]);
    Lists(l.free + [b], if p.dev[b] == 0 then l.chains else l.chains[h := [b] + l.chains[h]])
  }

  /** b stands for a block no other buffer stands for. */
  predicate Fresh(p: Pool, b: nat)
    requires |p.blk| == |p.dev| && b < |p.dev|
  {
    p.dev[b] != 0 ==> forall a: nat | a < |p.dev| && a != b :: !(p.dev[a] == p.dev[b] && p.blk[a] == p.blk[b])
  }

  lemma InsertHashOk(p: Pool, l: Lists, b: nat)
    requires Sized(p, l) && HashOk(p, l, b) && b < |p.dev|
    ensures HashOk(InsertHash(p, b), ListsWith(p, l, b), -1)
  {
    var h := Hash(p.dev[b], p.blk[b]);
    var r, m := InsertHash(p, b), ListsWith(p, l, b);
    HeadInChain(p, l, b, h);
    forall g: nat | g < NR_HASH ensures Chain(m.chains[g], r.hashTable[g], r.next, r.prev) {
      assert Chain(l.chains[g], p.hashTable[g], p.next, p.prev) && b !in l.chains[g];
      if g == h && p.dev[b] != 0 {
        InsertSame(p, l.chains[h], b);
      } else {
        InsertOther(p, l, b, g);
      }
    }
    hide Chain, InsertHash;
    forall g: nat, a: nat | g < NR_HASH ensures a in m.chains[g] <==> HashedAt(r, a, g) && a != -1 {
      assert a in l.chains[g] <==> HashedAt(p, a, g) && a != b;
      assert HashedAt(r, a, g) <==> HashedAt(p, a, g);
    }
    forall d: nat | d < |p.dev| && p.dev[d] == 0 ensures r.next[d] == -1 && r.prev[d] == -1 {
      InsertTouches(p, l, b, d);
    }
  }

  lemma InsertSame(p: Pool, c: seq<nat>, b: nat)
    requires b < |p.dev| == |p.blk| == |p.next| == |p.prev| && |p.hashTable| == NR_HASH && p.dev[b] != 0
    requires Chain(c, p.hashTable[Hash(p.dev[b], p.blk[b])], p.next, p.prev) && b !in c
    ensures var r := InsertHash(p, b); Chain([b] + c, r.hashTable[Hash(p.dev[b], p.blk[b])], r.next, r.prev)
  {
    var h := Hash(p.dev[b], p.blk[b]);
    ChainInsert(c, p.hashTable[h], p.next, p.prev, b);
    assert p.next[b := -1][b := p.hashTable[h]] == p.next[b := p.hashTable[h]];
  }

  lemma InsertOther(p: Pool, l: Lists, b: nat, g: nat)
    requires Sized(p, l) && HashOk(p, l, b) && b < |p.dev| && g < NR_HASH && b !in l.chains[g]
    requires g != Hash(p.dev[b], p.blk[b]) || p.dev[b] == 0
    ensures var r := InsertHash(p, b); Chain(l.chains[g], r.hashTable[g], r.next, r.prev)
  {
    var r := InsertHash(p, b);
    var h := Hash(p.dev[b], p.blk[b]);
    HeadInChain(p, l, b, h);
    hide Chain;
    forall x | x in l.chains[g] ensures r.next[x] == p.next[x] && r.prev[x] == p.prev[x] {
      assert HashedAt(p, x, g);
      assert x in l.chains[h] ==> HashedAt(p, x, h);
    }
    ChainFrame(l.chains[g], p.hashTable[g], p.next, p.prev, r.next, r.prev);
  }

  lemma InsertTouches(p: Pool, l: Lists, b: nat, d: nat)
    requires Sized(p, l) && HashOk(p, l, b) && b < |p.dev| && d < |p.dev| && p.dev[d] == 0
    ensures InsertHash(p, b).next[d] == -1 && InsertHash(p, b).prev[d] == -1
  {
    var h := Hash(p.dev[b], p.blk[b]);
    HeadInChain(p, l, b, h);
    assert d in l.chains[h] ==> HashedAt(p, d, h);
  }

  /** insert_into_queues puts buffer b at the end of the free list and on its hash chain. */
  lemma InsertOk(p: Pool, l: Lists, b: nat)
    requires Consistent(p, l, b) && b < |p.dev| && Fresh(p, b)
    ensures 0 <= p.freeList < |p.dev| && Consistent(InsertBuffer(p, b), ListsWith(p, l, b), -1)
  {
    assert l.free[0] in l.free;
    RingAppend(l.free, p.nextFree, p.prevFree, b);
    var q := InsertFree(p, b);
    assert HashOk(q, l, b) by { hide Chain; }
    InsertHashOk(q, l, b);
    var r, m := InsertBuffer(p, b), ListsWith(p, l, b);
    hide Chain, HashOk, InsertHash, Ring;
    assert FreeOk(r, m, -1);
  }

  /** No buffer stands for (dev, block). */
  ghost predicate Absent(p: Pool, dev: nat, block: nat)
    requires |p.blk| == |p.dev|
  {
    forall b: nat | b < |p.dev| :: !(p.dev[b] == dev && p.blk[b] == block)
  }

  /** The dirty bit and the up-to-date bit of every buffer. */
  datatype Flags = Flags(dirt: seq<bool>, uptodate: seq<bool>)

  /** A time in which this task does not run on: the flags when it begins and when it ends. */
  datatype Pause = Pause(before: Flags, after: Flags)

  /** From flags a to flags b only pauses changed them. */
  predicate Quiet(a: Flags, t: seq<Pause>, b: Flags)
    decreases |t|
  {
    if t == [] then a == b else a == t[0].before && Quiet(t[0].after, t[1..], b)
  }

  lemma {:induction false} QuietJoin(a: Flags, t: seq<Pause>, b: Flags, u: seq<Pause>, c: Flags)
    requires Quiet(a, t, b) && Quiet(b, u, c)
    ensures Quiet(a, t + u, c)
    decreases |t|
  {
    if t == [] {
      assert t + u == u;
    } else {
      QuietJoin(t[0].after, t[1..], b, u, c);
      assert (t + u)[1..] == t[1..] + u;
    }
  }

  lemma QuietNone(a: Flags)
    ensures Quiet(a, [], a)
  {
  }

  lemma QuietOne(a: Flags, b: Flags)
    ensures Quiet(a, [Pause(a, b)], b)
  {
  }

  /** The same with the pauses as ends of one list. */
  lemma QuietOn(a: Flags, p: seq<Pause>, b: Flags, q: seq<Pause>, c: Flags, r: seq<Pause>)
    requires p <= q <= r && Quiet(a, q[|p|..], b) && Quiet(b, r[|q|..], c)
    ensures p <= r && Quiet(a, r[|p|..], c)
  {
    QuietJoin(a, q[|p|..], b, r[|q|..], c);
    assert r[|p|..] == q[|p|..] + r[|q|..];
  }

  /** The flags of a buffer that begins a new life. */
  function Cleared(f: Flags, b: nat): Flags
    requires b < |f.dirt| == |f.uptodate|
  {
    Flags(f.dirt[b := false], f.uptodate[b := false])
  }

  /** Only pauses changed the flags, and then those of buffer r were cleared. */
  ghost predicate QuietThenCleared(a: Flags, t: seq<Pause>, b: Flags, r: nat) {
    exists f: Flags :: Quiet(a, t, f) && r < |f.dirt| == |f.uptodate| && b == Cleared(f, r)
  }

  lemma ThenClearedOn(a: Flags, p: seq<Pause>, b: Flags, q: seq<Pause>, c: Flags, s: seq<Pause>, r: nat)
    requires p <= q <= s && Quiet(a, q[|p|..], b) && QuietThenCleared(b, s[|q|..], c, r)
    ensures p <= s && QuietThenCleared(a, s[|p|..], c, r)
  {
    var f :| Quiet(b, s[|q|..], f) && r < |f.dirt| == |f.uptodate| && c == Cleared(f, r);
    QuietOn(a, p, b, q, f, s);
  }

  class Cache {
    var pool: Pool
    var count: seq<nat>
    var lock: seq<bool>
    var dirt: seq<bool>
    var uptodate: seq<bool>
    ghost var lists: Lists
    ghost var mine: seq<nat>     // references of the running task
    ghost var others: seq<nat>   // references of all other tasks
    ghost var pauses: seq<Pause> // the sleeps and the waits for transfers so far

    /** buffer_init: all n buffers unused, on the free list in order. */
    constructor (n: nat)
      requires n >= 2
      ensures Valid() && |count| == n && forall b | 0 <= b < n :: count[b] == 0 && pool.dev[b] == 0
    {
      var free := seq(n, b requires 0 <= b < n => b);
      pool := Pool(seq(n, b => 0), seq(n, b => 0), seq(n, b => -1), seq(n, b => -1), seq(NR_HASH, h => -1),
                   seq(n, b => if b + 1 < n then b + 1 else 0), seq(n, b => if b == 0 then n - 1 else b - 1), 0);
      lists := Lists(free, seq(NR_HASH, h => []));
      count, mine, others := seq(n, b => 0), seq(n, b => 0), seq(n, b => 0);
      lock, dirt, uptodate := seq(n, b => false), seq(n, b => false), seq(n, b => false);
      pauses := [];
      new;
      forall b: nat ensures b in free <==> b < n {
        if b < n { assert free[b] == b; }
      }
    }

    ghost predicate Valid()
      reads this
    {
      && Consistent(pool, lists, -1)
      && |count| == |lock| == |dirt| == |uptodate| == |mine| == |others| == |pool.dev| == |pool.blk|
      && forall b | 0 <= b < |count| :: count[b] == mine[b] + others[b]
    }

    /** What the other tasks leave alone while this one sleeps. */
    twostate predicate Rely()
      reads this
    {
      && |pool.dev| == old(|pool.dev|) == old(|pool.blk|) == |pool.blk| == old(|mine|) && mine == old(mine)
      && forall b | 0 <= b < |mine| && mine[b] > 0 :: pool.dev[b] == old(pool.dev[b]) && pool.blk[b] == old(pool.blk[b])
    }

    /** What this task leaves alone between two sleeps. */
    twostate predicate Guarantee()
      reads this
    {
      && |pool.dev| == old(|pool.dev|) == old(|pool.blk|) == |pool.blk| == old(|others|) && others == old(others)
      && forall b | 0 <= b < |others| && others[b] > 0 :: pool.dev[b] == old(pool.dev[b]) && pool.blk[b] == old(pool.blk[b])
    }

    function Bits(): Flags
      reads this
    {
      Flags(dirt, uptodate)
    }

    /** Since then only pauses changed the flags. */
    twostate predicate QuietSince()
      reads this
    {
      old(pauses) <= pauses && Quiet(old(Bits()), pauses[|old(pauses)|..], Bits())
    }

    /** sleep_on: the other tasks run.  The contract is all a caller may count on. */
    method Sleep()
      requires Valid()
      modifies this
      ensures Valid() && Rely() && pauses == old(pauses) + [Pause(old(Bits()), Bits())]
    {
      pauses := pauses + [Pause(Bits(), Bits())];
    }

    /** wait_on_buffer: returns with the buffer unlocked, by whoever finished the transfer; it sleeps only when the
        buffer is locked. */
    method WaitOnBuffer(b: nat)
      requires Valid() && b < |count|
      modifies this
      ensures Valid() && Rely() && !lock[b] && QuietSince()
      ensures !old(lock[b]) ==> unchanged(this)
    {
      if lock[b] {
        lock := lock[b := false];
        pauses := pauses + [Pause(Bits(), Bits())];
        assert pauses[|old(pauses)|..] == [Pause(Bits(), Bits())];
      } else {
        assert pauses[|old(pauses)|..] == [];
      }
    }

    /** sync_dev writes buffers and waits; for getblk all of it is a pause. */
    method SyncDev(dev: nat)
      requires Valid()
      modifies this
      ensures Valid() && Rely() && pauses == old(pauses) + [Pause(old(Bits()), Bits())]
    {
      pauses := pauses + [Pause(Bits(), Bits())];
    }

    /** find_buffer is a linear search of all buffers. */
    method FindBuffer(dev: nat, block: nat) returns (r: int)
      requires Valid() && dev != 0
      ensures -1 <= r < |pool.dev|
      ensures r >= 0 ==> pool.dev[r] == dev && pool.blk[r] == block
      ensures r == -1 ==> Absent(pool, dev, block)
    {
      hide NextIn, PrevIn, Ring;
      var h := Hash(dev, block);
      ghost var c := lists.chains[h];
      assert Chain(c, pool.hashTable[h], pool.next, pool.prev);
      ghost var i := 0;
      r := pool.hashTable[h];
      while r != -1
        invariant 0 <= i <= |c| && r == (if i < |c| then c[i] else -1)
        invariant forall j | 0 <= j < i :: !(pool.dev[c[j]] == dev && pool.blk[c[j]] == block)
        decreases |c| - i
      {
        if pool.dev[r] == dev && pool.blk[r] == block { return; }
        assert pool.next[c[i]] == NextIn(c, i);
        r := pool.next[r];
        NextElement(c, i);
        i := i + 1;
      }
      forall b: nat | b < |pool.dev| ensures !(pool.dev[b] == dev && pool.blk[b] == block) {
        assert b in c <==> HashedAt(pool, b, h);
      }
    }

    lemma NextElement(c: seq<nat>, i: nat)
      requires i < |c|
      ensures NextIn(c, i) == if i + 1 < |c| then c[i + 1] else -1
    {
    }

    ghost predicate TookOne(before: seq<nat>, r: int)
      reads this
    {
      0 <= r < |before| && mine == before[r := before[r] + 1]
    }

    /** b_count++ */
    method Take(b: nat)
      requires Valid() && b < |count|
      modifies this
      ensures Valid() && Guarantee() && TookOne(old(mine), b) && pool == old(pool)
      ensures lock == old(lock) && Bits() == old(Bits()) && pauses == old(pauses) && count == old(count)[b := old(count[b]) + 1]
    {
      count := count[b := count[b] + 1];
      mine := mine[b := mine[b] + 1];
    }

    /** get_hash_table: the buffer of the block, counted, or -1 when it is not cached.  A counted buffer keeps
        its identity while the task sleeps, so the check after the wait never fails. */
    method GetHashTable(dev: nat, block: nat) returns (r: int)
      requires Valid() && dev != 0
      modifies this
      ensures Valid() && -1 <= r < |count|
      ensures r >= 0 ==> pool.dev[r] == dev && pool.blk[r] == block && TookOne(old(mine), r) && !lock[r]
      ensures r == -1 ==> Absent(pool, dev, block) && unchanged(this)
      ensures QuietSince() && (r >= 0 <==> !old(Absent(pool, dev, block)))
      ensures |mine| == old(|mine|) == |pool.dev| == |pool.blk|
      ensures forall b | 0 <= b < old(|mine|) && old(mine)[b] > 0 :: pool.dev[b] == old(pool.dev[b]) && pool.blk[b] == old(pool.blk[b])
    {
      r := FindBuffer(dev, block);
      if r == -1 {
        assert pauses[|old(pauses)|..] == [];
        return;
      }
      Take(r);
      label Sleeping:
      WaitOnBuffer(r);
      assert pool.dev[r] == dev && pool.blk[r] == block;
    }

    function Badness(b: nat): nat
      reads this
      requires b < |dirt| == |lock|
    {
      (if dirt[b] then 2 else 0) + (if lock[b] then 1 else 0)
    }

    /** a is a better choice than b: clean rather than dirty, else unlocked rather than locked. */
    predicate Better(a: nat, b: nat)
      reads this
      requires a < |dirt| == |lock| && b < |dirt|
    {
      (!dirt[a] && dirt[b]) || (dirt[a] == dirt[b] && !lock[a] && lock[b])
    }

    /** bh is no worse a choice than b. */
    ghost predicate NoWorse(bh: int, b: nat)
      reads this
      requires b < |count| == |dirt| == |lock| && -1 <= bh < |count|
    {
      count[b] == 0 ==> bh >= 0 && !Better(b, bh)
    }

    /** bh was met first among the uncounted buffers that are as good, after others. */
    ghost predicate FirstBest(bh: int, met: seq<nat>)
      reads this
      requires |count| == |dirt| == |lock| && -1 <= bh < |count| && forall b | b in met :: b < |count|
    {
      bh >= 0 && count[bh] == 0 && forall b | b in met && count[b] == 0 :: Better(bh, b)
    }

    /** The search of the free list in getblk: an uncounted buffer than which none is better, and of these the one
        longest on the list; -1 when all are counted. */
    method Select() returns (bh: int)
      requires Valid()
      ensures -1 <= bh < |count| == |pool.dev| == |pool.blk|
      ensures bh >= 0 ==> count[bh] == 0
      ensures forall b: nat | b < |count| :: NoWorse(bh, b)
      ensures bh >= 0 ==> bh in lists.free && (forall b | b in lists.free :: b < |count|) && FirstBest(bh, lists.free[..IndexOf(lists.free, bh)])
    {
      FreeFacts();
      hide Consistent, Ring;
      ghost var f := lists.free;
      bh := -1;
      var tmp := pool.freeList;
      ghost var i, m := 0, 0;
      while true
        invariant 0 <= i < |f| && tmp == f[i] && -1 <= bh < |count|
        invariant bh >= 0 ==> count[bh] == 0 && m < i && f[m] == bh && FirstBest(bh, f[..m])
        invariant forall j: nat | j < i :: NoWorse(bh, f[j])
        decreases |f| - i
      {
        assert f[i] in f;
        if count[tmp] == 0 && (bh == -1 || Badness(tmp) < Badness(bh)) {
          BestSoFar(f, i, tmp, bh);
          bh := tmp;
          m := i;
          if Badness(tmp) == 0 {
            IndexIs(f, m);
            return;
          }
        }
        assert NoWorse(bh, f[i]);
        tmp := pool.nextFree[tmp];
        i := i + 1;
        if tmp == pool.freeList {
          assert i == |f| by { if i < |f| { DistinctAt(f, 0, i); } }
          break;
        }
      }
      NoneBetter(f, bh);
      if bh >= 0 { IndexIs(f, m); }
    }

    /** The free list in order: every buffer, each once. */
    lemma FreeFacts()
      requires Consistent(pool, lists, -1)
      ensures var f := lists.free;
              && f != [] && Distinct(f) && pool.freeList == f[0] && |pool.nextFree| == |pool.dev| == |pool.blk|
              && (forall i | 0 <= i < |f| :: f[i] < |pool.dev| && pool.nextFree[f[i]] == f[Succ(i, |f|)])
              && (forall b: nat | b < |pool.dev| :: b in f)
    {
      hide Chain;
      ghost var f := lists.free;
      forall i | 0 <= i < |f| ensures f[i] < |pool.dev| { assert f[i] in f; }
    }

    /** The next buffer is better than the best so far. */
    lemma BestSoFar(f: seq<nat>, i: nat, b: nat, bh: int)
      requires |count| == |dirt| == |lock| && i <= |f| && b < |count| && -1 <= bh < |count| && count[b] == 0
      requires forall j: nat | j < i :: f[j] < |count| && NoWorse(bh, f[j])
      requires bh == -1 || Badness(b) < Badness(bh)
      ensures (forall x | x in f[..i] :: x < |count|) && FirstBest(b, f[..i])
    {
      forall x | x in f[..i] && count[x] == 0 ensures Better(b, x) {
        var j: nat :| j < i && f[j] == x;
        assert NoWorse(bh, f[j]);
      }
    }

    lemma NoneBetter(f: seq<nat>, bh: int)
      requires |count| == |dirt| == |lock| && -1 <= bh < |count| && forall b: nat | b < |count| :: b in f
      requires forall j: nat | j < |f| :: f[j] < |count| && NoWorse(bh, f[j])
      ensures forall b: nat | b < |count| :: NoWorse(bh, b)
    {
      forall b: nat | b < |count| ensures NoWorse(bh, b) {
        assert b in f;
        var j: nat :| j < |f| && f[j] == b;
        assert NoWorse(bh, f[j]);
      }
    }

    lemma IndexIs(f: seq<nat>, m: nat)
      requires Distinct(f) && m < |f|
      ensures f[m] in f && IndexOf(f, f[m]) == m
    {
      DistinctAt(f, IndexOf(f, f[m]), m);
    }

    /** The end of getblk: an unused, clean, unlocked buffer becomes the buffer of a block that has none.
        getblk meets the preconditions, so reuse never drops a dirty buffer or one under transfer. */
    method Claim(b: nat, dev: nat, block: nat)
      requires Valid() && b < |count| && count[b] == 0 && !dirt[b] && !lock[b] && dev != 0 && Absent(pool, dev, block)
      modifies this
      ensures Valid() && Guarantee() && TookOne(old(mine), b)
      ensures pool.dev == old(pool.dev)[b := dev] && pool.blk == old(pool.blk)[b := block]
      ensures count == old(count)[b := 1] && lock == old(lock) && Bits() == Cleared(old(Bits()), b) && pauses == old(pauses)
      ensures old(Consistent(pool, lists, -1)) && b in old(lists.free)
      ensures lists.free == Without(old(lists.free), IndexOf(old(lists.free), b)) + [b]
    {
      hide Consistent;
      ConsistentSized();
      count := count[b := 1];
      mine := mine[b := mine[b] + 1];
      dirt := dirt[b := false];
      uptodate := uptodate[b := false];
      Rename(b, dev, block);
    }

    lemma ConsistentSized()
      requires Consistent(pool, lists, -1)
      ensures Sized(pool, lists) && forall b: nat | b < |pool.dev| :: b in lists.free
    {
    }

    /** From remove_from_queues to insert_into_queues. */
    method Rename(b: nat, dev: nat, block: nat)
      requires Consistent(pool, lists, -1) && b < |pool.dev| == |pool.blk| && dev != 0 && Absent(pool, dev, block)
      modifies this`pool, this`lists
      ensures Consistent(pool, lists, -1)
      ensures pool.dev == old(pool.dev)[b := dev] && pool.blk == old(pool.blk)[b := block]
      ensures b in old(lists.free) && lists.free == Without(old(lists.free), IndexOf(old(lists.free), b)) + [b]
    {
      hide Consistent, RemoveBuffer, InsertBuffer, Hash;
      ghost var p, l := pool, lists;
      SizedOk(p, l, -1);
      ConsistentSized();
      RemoveOk(p, l, b);
      pool := RemoveBuffer(pool, b);
      lists := ListsWithout(p, l, b);
      RemoveKeeps(p, b);
      SizedOk(pool, lists, b);
      pool := pool.(dev := pool.dev[b := dev]);
      pool := pool.(blk := pool.blk[b := block]);
      RelabelOk(RemoveBuffer(p, b), lists, b, dev, block);
      InsertOk(pool, lists, b);
      lists := ListsWith(pool, lists, b);
      InsertKeeps(pool, b);
      pool := InsertBuffer(pool, b);
    }

    /** Some buffer is free, clean and unlocked. */
    ghost predicate SomeUsable()
      reads this
    {
      exists b: nat :: Usable(b)
    }

    predicate Usable(b: nat)
      reads this
    {
      b < |count| == |dirt| == |lock| && count[b] == 0 && !dirt[b] && !lock[b]
    }

    /** getblk's waits for the buffer it chose; false when somebody else took it in the meantime, or after fuel
        turns. */
    method MakeClean(bh: nat, fuel: nat) returns (ok: bool)
      requires Valid() && bh < |count|
      modifies this
      ensures Valid() && Rely() && (ok ==> Usable(bh)) && (old(Usable(bh)) ==> ok && unchanged(this)) && QuietSince()
    {
      hide Consistent, Quiet;
      ghost var a, p := Bits(), pauses;
      WaitOnBuffer(bh);
      if count[bh] != 0 { return false; }
      var left := fuel;
      while dirt[bh]
        invariant Valid() && Rely() && bh < |count| && count[bh] == 0 && !lock[bh]
        invariant old(Usable(bh)) ==> !dirt[bh] && unchanged(this)
        invariant p <= pauses && Quiet(a, pauses[|p|..], Bits())
        decreases left
      {
        if left == 0 { return false; }
        left := left - 1;
        WriteOut(bh, a, p);
        if count[bh] != 0 { return false; }
      }
      ok := true;
    }

    /** sync_dev and the wait after it. */
    method WriteOut(bh: nat, ghost a: Flags, ghost p: seq<Pause>)
      requires Valid() && bh < |count| && p <= pauses && Quiet(a, pauses[|p|..], Bits())
      modifies this
      ensures Valid() && Rely() && !lock[bh] && p <= pauses && Quiet(a, pauses[|p|..], Bits())
    {
      hide Consistent;
      ghost var b, q := Bits(), pauses;
      SyncDev(pool.dev[bh]);
      ghost var c, r := Bits(), pauses;
      assert r[|q|..] == [Pause(b, c)];
      QuietOn(a, p, b, q, c, r);
      label Synced:
      WaitOnBuffer(bh);
      assert QuietSince@Synced();
      QuietOn(a, p, c, r, Bits(), pauses);
    }

    /** getblk.  fuel bounds how often it starts again; -1 means it ran out, which cannot happen when the block is
        cached or a buffer is usable at once. */
    method GetBlk(dev: nat, block: nat, fuel: nat) returns (r: int)
      requires Valid() && dev != 0
      modifies this
      ensures Valid() && -1 <= r < |count|
      ensures r >= 0 ==> pool.dev[r] == dev && pool.blk[r] == block && TookOne(old(mine), r) && !lock[r]
      ensures r == -1 ==> mine == old(mine) && QuietSince()
      ensures old(pauses) <= pauses
      ensures r >= 0 ==> QuietSince() || QuietThenCleared(old(Bits()), pauses[|old(pauses)|..], Bits(), r)
      ensures r >= 0 && !old(Absent(pool, dev, block)) ==> QuietSince()
      ensures fuel > 0 && (!old(Absent(pool, dev, block)) || old(SomeUsable())) ==> r >= 0
      ensures |mine| == old(|mine|) == |pool.dev| == |pool.blk|
      ensures forall b | 0 <= b < old(|mine|) && old(mine)[b] > 0 :: pool.dev[b] == old(pool.dev[b]) && pool.blk[b] == old(pool.blk[b])
      decreases fuel, 2
    {
      hide Consistent, Quiet, Cleared;
      ghost var a, p := Bits(), pauses;
      assert pauses[|p|..] == [] && Quiet(a, [], a) by { QuietNone(a); }
      if fuel == 0 { return -1; }
      r := GetHashTable(dev, block);
      if r >= 0 { return; }
      ghost var usable := SomeUsable();
      ghost var u: nat := 0;
      if usable {
        var b: nat :| Usable(b);
        u := b;
      }
      var bh := Select();
      assert usable ==> NoWorse(bh, u);
      if bh == -1 {
        Sleep();
        assert pauses[|p|..] == [Pause(a, Bits())] && Quiet(a, [Pause(a, Bits())], Bits()) by { QuietOne(a, Bits()); }
        r := GetAgain(dev, block, fuel, a, p);
        return;
      }
      r := TakeChosen(dev, block, fuel, bh, a, p);
    }

    /** The waits for the buffer chosen, and the end of getblk. */
    method TakeChosen(dev: nat, block: nat, fuel: nat, bh: nat, ghost a: Flags, ghost p: seq<Pause>) returns (r: int)
      requires Valid() && dev != 0 && fuel > 0 && p <= pauses && Quiet(a, pauses[|p|..], Bits())
      requires bh < |count| && Absent(pool, dev, block)
      modifies this
      ensures Valid() && -1 <= r < |count|
      ensures r >= 0 ==> pool.dev[r] == dev && pool.blk[r] == block && TookOne(old(mine), r) && !lock[r]
      ensures r == -1 ==> mine == old(mine)
      ensures old(Usable(bh)) ==> r >= 0
      ensures p <= pauses
      ensures Quiet(a, pauses[|p|..], Bits()) || (r >= 0 && QuietThenCleared(a, pauses[|p|..], Bits(), r))
      ensures |mine| == old(|mine|) == |pool.dev| == |pool.blk|
      ensures forall b | 0 <= b < old(|mine|) && old(mine)[b] > 0 :: pool.dev[b] == old(pool.dev[b]) && pool.blk[b] == old(pool.blk[b])
      decreases fuel, 1
    {
      hide Consistent, Quiet, Cleared;
      ghost var b, q := Bits(), pauses;
      label Start:
      var clean := MakeClean(bh, fuel);
      assert QuietSince@Start();
      QuietOn(a, p, b, q, Bits(), pauses);
      var other := -1;
      if clean { other := FindBuffer(dev, block); }
      if !clean || other >= 0 {
        r := GetAgain(dev, block, fuel, a, p);
        return;
      }
      Claim(bh, dev, block);
      r := bh;
    }

    /** goto repeat, after pauses. */
    method GetAgain(dev: nat, block: nat, fuel: nat, ghost a: Flags, ghost p: seq<Pause>) returns (r: int)
      requires Valid() && dev != 0 && fuel > 0 && p <= pauses && Quiet(a, pauses[|p|..], Bits())
      modifies this
      ensures Valid() && -1 <= r < |count|
      ensures r >= 0 ==> pool.dev[r] == dev && pool.blk[r] == block && TookOne(old(mine), r) && !lock[r]
      ensures r == -1 ==> mine == old(mine)
      ensures p <= pauses
      ensures Quiet(a, pauses[|p|..], Bits()) || (r >= 0 && QuietThenCleared(a, pauses[|p|..], Bits(), r))
      ensures |mine| == old(|mine|) == |pool.dev| == |pool.blk|
      ensures forall b | 0 <= b < old(|mine|) && old(mine)[b] > 0 :: pool.dev[b] == old(pool.dev[b]) && pool.blk[b] == old(pool.blk[b])
      decreases fuel, 0
    {
      hide Consistent, Quiet, QuietThenCleared;
      ghost var b, q := Bits(), pauses;
      label Again:
      r := GetBlk(dev, block, fuel - 1);
      assert r == -1 ==> QuietSince@Again();
      if QuietSince@Again() {
        QuietOn(a, p, b, q, Bits(), pauses);
      } else {
        ThenClearedOn(a, p, b, q, Bits(), pauses, r);
      }
    }

    /** brelse: the count is never 0 here, so there is no panic. */
    method Brelse(b: nat)
      requires Valid() && b < |count| && mine[b] > 0
      modifies this
      ensures Valid() && mine == old(mine)[b := old(mine)[b] - 1] && QuietSince()
      ensures forall a | 0 <= a < old(|mine|) && old(mine)[a] > 0 :: pool.dev[a] == old(pool.dev[a]) && pool.blk[a] == old(pool.blk[a])
    {
      WaitOnBuffer(b);
      assert QuietSince();
      assert count[b] > 0;
      count := count[b := count[b] - 1];
      mine := mine[b := mine[b] - 1];
    }
  }

  lemma SizedOk(p: Pool, l: Lists, x: int)
    requires Consistent(p, l, x)
    ensures Sized(p, l)
  {
  }

  lemma RemoveKeeps(p: Pool, b: nat)
    requires b < |p.dev| == |p.blk| == |p.next| == |p.prev| == |p.nextFree| == |p.prevFree| && |p.hashTable| == NR_HASH
    ensures RemoveBuffer(p, b).dev == p.dev && RemoveBuffer(p, b).blk == p.blk
  {
  }

  lemma InsertKeeps(p: Pool, b: nat)
    requires b < |p.dev| == |p.blk| == |p.next| == |p.prev| == |p.nextFree| == |p.prevFree| && |p.hashTable| == NR_HASH
    requires 0 <= p.freeList < |p.dev|
    ensures InsertBuffer(p, b).dev == p.dev && InsertBuffer(p, b).blk == p.blk
  {
  }

  /** A buffer that is off both lists may be given a new identity, if no other buffer has it. */
  lemma RelabelOk(p: Pool, l: Lists, b: nat, dev: nat, block: nat)
    requires Consistent(p, l, b) && b < |p.dev| && dev != 0
    requires forall a: nat | a < |p.dev| && a != b :: !(p.dev[a] == dev && p.blk[a] == block)
    ensures var r := p.(dev := p.dev[b := dev], blk := p.blk[b := block]); Consistent(r, l, b) && Fresh(r, b)
  {
    var r := p.(dev := p.dev[b := dev], blk := p.blk[b := block]);
    hide Chain, Ring;
    forall h: nat, a: nat | h < NR_HASH ensures a in l.chains[h] <==> HashedAt(r, a, h) && a != b {
      assert a in l.chains[h] <==> HashedAt(p, a, h) && a != b;
    }
  }
}
