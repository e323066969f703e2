/** lib/malloc.cc: objects of nine sizes, each size served from whole pages whose free objects are chained
    through the objects themselves; page descriptors are recycled. */
module KernelMalloc {
  import opened Links
  import Linked

  // ---- slots of a page -----------------------------------------------------------------------------

  /** bucket_dir[k].size */
  function SizeOf(k: nat): (s: nat)
    requires k < 9
    ensures IsSize(s)
  {
    if k == 0 then 16 else if k == 1 then 32 else if k == 2 then 64 else if k == 3 then 128 else if k == 4 then 256
    else if k == 5 then 512 else if k == 6 then 1024 else if k == 7 then 2048 else 4096
  }

  /** From 16 on, each size is twice the one before. */
  lemma SizesDouble(k: nat)
    requires k < 9
    ensures SizeOf(k) == if k == 0 then 16 else 2 * SizeOf(k - 1)
  {
  }

  predicate IsSize(s: int) {
    s == 16 || s == 32 || s == 64 || s == 128 || s == 256 || s == 512 || s == 1024 || s == 2048 || s == 4096
  }

  function SlotsFrom(cp: nat, n: nat, size: nat): (s: seq<nat>)
    decreases n
  {
    if n == 0 then [] else [cp] + SlotsFrom(cp + size, n - 1, size)
  }

  ghost predicate Spaced(s: seq<nat>, cp: nat, end: nat, size: nat) {
    && (s != [] ==> s[0] == cp)
    && (forall i | 0 <= i < |s| :: cp <= s[i] && s[i] + size <= end)
    && (forall i | 0 <= i < |s| - 1 :: s[i + 1] == s[i] + size)
    && (forall i, j | 0 <= i < j < |s| :: s[i] + size <= s[j])
  }

  lemma {:induction false} SlotsFromOk(cp: nat, n: nat, size: nat, end: nat)
    requires size > 0 && cp + n * size == end
    ensures |SlotsFrom(cp, n, size)| == n && Spaced(SlotsFrom(cp, n, size), cp, end, size)
    decreases n
  {
    if n > 0 {
      MulStep(n, size);
      SlotsFromOk(cp + size, n - 1, size, end);
    }
  }

  lemma MulStep(n: nat, size: nat)
    requires n > 0
    ensures n * size == size + (n - 1) * size >= size
  {
    assert (n - 1) * size >= 0;
  }

  /** The objects a page of the given size is cut into. */
  function Slots(page: int, size: int): (s: seq<nat>) {
    if page > 0 && size > 0 then SlotsFrom(page, 4096 / size, size) else []
  }

  lemma SlotsOk(page: nat, size: nat)
    requires IsSize(size) && page > 0
    ensures var s := Slots(page, size);
            && |s| == 4096 / size && |s| > 0 && s[0] == page && Distinct(s)
            && (forall i | 0 <= i < |s| :: page <= s[i] && s[i] + size <= page + 4096)
            && (forall i | 0 <= i < |s| - 1 :: s[i + 1] == s[i] + size)
            && (forall i, j | 0 <= i < j < |s| :: s[i] + size <= s[j])
  {
    assert (4096 / size) * size == 4096;
    SlotsFromOk(page, 4096 / size, size, page + 4096);
  }

  /** As many distinct elements as there are elements: none is missing. */
  lemma {:induction false} AllOf(c: seq<nat>, d: seq<nat>)
    requires Distinct(c) && Distinct(d) && |c| == |d| && forall x | x in c :: x in d
    ensures forall x | x in d :: x in c
    decreases |c|
  {
    if c != [] {
      var i := IndexOf(d, c[0]);
      WithoutMembers(d, i);
      AllOf(c[1..], Without(d, i));
    }
  }

  // ---- the heap ------------------------------------------------------------------------------------

  /** Descriptor fields by descriptor number, -1 for no descriptor.  heads holds the nine bucket_dir chains
      and then free_bucket_desc.  mem[a] is the pointer stored at address a. */
  datatype Heap = Heap(
    page: seq<int>, next: seq<int>, freeptr: seq<int>, refcnt: seq<int>, size: seq<int>,
    heads: seq<int>, mem: seq<int>)

  /** What the links stand for: the ten descriptor lists, the list each descriptor is on, and the free
      objects of each descriptor. */
  datatype View = View(lists: seq<seq<nat>>, home: seq<nat>, free: seq<seq<nat>>)

  const UNUSED: nat := 9

  predicate Shape(h: Heap, v: View) {
    && |h.page| == |h.next| == |h.freeptr| == |h.refcnt| == |h.size| == |v.home| == |v.free|
    && |h.heads| == |v.lists| == 10
  }

  /** Every descriptor is on exactly one of the lists. */
  ghost predicate Listed(lists: seq<seq<nat>>, home: seq<nat>, heads: seq<int>, next: seq<int>) {
    && |lists| == |heads| == 10 && |home| == |next|
    && (forall k | 0 <= k < 10 :: Linked.List(lists[k], heads[k], next, -1))
    && (forall k: nat, d: nat | k < 10 :: d in lists[k] <==> d < |home| && home[d] == k)
    && (forall d | 0 <= d < |home| :: home[d] < 10)
  }

  predicate InUse(v: View, d: nat) {
    d < |v.home| && v.home[d] < UNUSED
  }

  predicate GoodPage(p: int, limit: nat) {
    p > 0 && p % 4096 == 0 && p + 4096 <= limit
  }

  /** f is the chain of free objects in the page, and every other object of the page is counted. */
  ghost predicate Objects(page: int, size: int, freeptr: int, refcnt: int, f: seq<nat>, mem: seq<int>) {
    && size > 0 && Linked.List(f, freeptr, mem, 0)
    && (forall a | a in f :: a in Slots(page, size))
    && refcnt >= 0 && refcnt + |f| == 4096 / size
  }

  ghost predicate Bucket(h: Heap, v: View, d: nat)
    requires Shape(h, v) && InUse(v, d)
  {
    && h.size[d] == SizeOf(v.home[d]) && GoodPage(h.page[d], |h.mem|)
    && Objects(h.page[d], h.size[d], h.freeptr[d], h.refcnt[d], v.free[d], h.mem)
  }

  /** No two buckets share a page, and none uses a page that is free. */
  ghost predicate PagesApart(h: Heap, v: View, pool: set<int>)
    requires Shape(h, v)
  {
    && (forall d: nat, e: nat | InUse(v, d) && InUse(v, e) && h.page[d] == h.page[e] :: d == e)
    && (forall d: nat | InUse(v, d) :: h.page[d] !in pool)
    && (forall p | p in pool :: GoodPage(p, |h.mem|))
  }

  /** Only bucket x, if any, may be without a live object. */
  ghost predicate Inv(h: Heap, v: View, pool: set<int>, x: int) {
    && Shape(h, v) && Listed(v.lists, v.home, h.heads, h.next) && PagesApart(h, v, pool)
    && (forall d: nat | InUse(v, d) :: Bucket(h, v, d))
    && (forall d: nat | InUse(v, d) && d != x :: h.refcnt[d] > 0)
  }

  /** a is an object of bucket d that has been handed out. */
  ghost predicate Live(h: Heap, v: View, d: nat, a: int) {
    Shape(h, v) && InUse(v, d) && a in Slots(h.page[d], h.size[d]) && a !in v.free[d]
  }

  lemma BucketSlots(h: Heap, v: View, pool: set<int>, x: int, d: nat)
    requires Inv(h, v, pool, x) && InUse(v, d)
    ensures var s := Slots(h.page[d], h.size[d]);
            && |s| == 4096 / h.size[d] && Distinct(s) && IsSize(h.size[d]) && h.page[d] > 0
            && (forall i | 0 <= i < |s| :: h.page[d] <= s[i] && s[i] + h.size[d] <= h.page[d] + 4096 <= |h.mem|)
            && (forall i, j | 0 <= i < j < |s| :: s[i] + h.size[d] <= s[j])
  {
    assert Bucket(h, v, d);
    SlotsOk(h.page[d], h.size[d]);
  }

  lemma PageOf(page: nat, a: nat)
    requires page % 4096 == 0 && page <= a < page + 4096
    ensures a - a % 4096 == page
  {
  }

  /** The page of an object is its address with the low twelve bits cleared. */
  lemma ObjectPage(h: Heap, v: View, pool: set<int>, x: int, d: nat, a: nat)
    requires Inv(h, v, pool, x) && InUse(v, d) && a in Slots(h.page[d], h.size[d])
    ensures 0 <= a < |h.mem| && a > 0 && h.size[d] <= |h.mem| - a && a - a % 4096 == h.page[d]
  {
    BucketSlots(h, v, pool, x, d);
    assert Bucket(h, v, d);
    hide Slots, Bucket, Inv;
    PageOf(h.page[d], a);
  }

  /** Live objects never overlap. */
  lemma LiveDisjoint(h: Heap, v: View, pool: set<int>, d: nat, a: nat, e: nat, b: nat)
    requires Inv(h, v, pool, -1) && Live(h, v, d, a) && Live(h, v, e, b) && a != b
    ensures a + h.size[d] <= b || b + h.size[e] <= a
  {
    SlotsDisjoint(h, v, pool, -1, d, a, e, b);
  }

  lemma SlotsDisjoint(h: Heap, v: View, pool: set<int>, x: int, d: nat, a: nat, e: nat, b: nat)
    requires Inv(h, v, pool, x) && InUse(v, d) && InUse(v, e) && a != b
    requires a in Slots(h.page[d], h.size[d]) && b in Slots(h.page[e], h.size[e])
    ensures a + h.size[d] <= b || b + h.size[e] <= a
  {
    BucketSlots(h, v, pool, x, d);
    BucketSlots(h, v, pool, x, e);
    hide Linked.List, Slots;
    assert Bucket(h, v, d) && Bucket(h, v, e);
    var s := Slots(h.page[d], h.size[d]);
    var i := IndexOf(s, a);
    if d == e {
      var j := IndexOf(s, b);
      assert i < j || j < i;
    } else {
      PagesDisjoint(h.page[d], h.page[e], |h.mem|);
    }
  }

  lemma PagesDisjoint(p: int, q: int, limit: nat)
    requires GoodPage(p, limit) && GoodPage(q, limit) && p != q
    ensures p + 4096 <= q || q + 4096 <= p
  {
  }

  // ---- one object ----------------------------------------------------------------------------------

  /** The end of malloc: the first free object of bucket d is handed out. */
  function TakeObject(h: Heap, d: nat): Heap
    requires d < |h.freeptr| == |h.refcnt| && 0 <= h.freeptr[d] < |h.mem|
  {
    h.(freeptr := h.freeptr[d := h.mem[h.freeptr[d]]], refcnt := h.refcnt[d := h.refcnt[d] + 1])
  }

  lemma TakeOk(h: Heap, v: View, pool: set<int>, x: int, d: nat)
    requires Inv(h, v, pool, x) && InUse(v, d) && v.free[d] != [] && (x == -1 || x == d)
    ensures d < |v.free| && d < |h.freeptr| == |h.refcnt| && 0 < h.freeptr[d] < |h.mem|
    ensures var r, w := TakeObject(h, d), v.(free := v.free[d := v.free[d][1..]]);
            && Inv(r, w, pool, -1) && !Live(h, v, d, h.freeptr[d])
            && forall e: nat, a :: Live(r, w, e, a) <==> Live(h, v, e, a) || (e == d && a == h.freeptr[d])
  {
    hide Slots, Linked.List, Listed;
    assert Bucket(h, v, d);
    TakeFirst(h.page[d], h.size[d], h.freeptr[d], h.refcnt[d], v.free[d], h.mem);
    var r, w := TakeObject(h, d), v.(free := v.free[d := v.free[d][1..]]);
    forall e: nat | InUse(w, e) ensures Bucket(r, w, e) && r.refcnt[e] > 0 {
      assert Bucket(h, v, e);
    }
  }

  lemma TakeFirst(page: int, size: int, freeptr: int, refcnt: int, f: seq<nat>, mem: seq<int>)
    requires Objects(page, size, freeptr, refcnt, f, mem) && f != []
    ensures 0 < freeptr < |mem| && Objects(page, size, mem[freeptr], refcnt + 1, f[1..], mem)
    ensures freeptr == f[0] && f[0] in f && f[0] !in f[1..] && forall a :: a in f <==> a == f[0] || a in f[1..]
  {
    hide Slots;
    Linked.Link(f, freeptr, mem, 0, 0);
    Linked.Pop(f, freeptr, mem, 0);
    assert f == [f[0]] + f[1..];
  }

  /** The start of the second half of free_s: the object goes to the front of its page's chain. */
  function PutObject(h: Heap, d: nat, a: nat): Heap
    requires d < |h.freeptr| == |h.refcnt| && a < |h.mem|
  {
    h.(mem := h.mem[a := h.freeptr[d]], freeptr := h.freeptr[d := a], refcnt := h.refcnt[d := h.refcnt[d] - 1])
  }

  /** A store into an object that is not on any chain leaves the other chains alone. */
  lemma StoreKeepsChain(h: Heap, v: View, pool: set<int>, x: int, d: nat, a: nat, y: int, e: nat)
    requires Inv(h, v, pool, x) && Live(h, v, d, a) && InUse(v, e) && a < |h.mem|
    ensures Linked.List(v.free[e], h.freeptr[e], h.mem[a := y], 0)
  {
    hide Slots;
    assert Bucket(h, v, e);
    forall b | b in v.free[e] ensures b != a {
      if d != e && b == a {
        ObjectPage(h, v, pool, x, d, a);
        ObjectPage(h, v, pool, x, e, b);
      }
    }
    Linked.Frame(v.free[e], h.freeptr[e], h.mem, h.mem[a := y], 0);
  }

  lemma PutOk(h: Heap, v: View, pool: set<int>, d: nat, a: nat)
    requires Inv(h, v, pool, -1) && Live(h, v, d, a)
    ensures a < |h.mem|
    ensures var r, w := PutObject(h, d, a), v.(free := v.free[d := [a] + v.free[d]]);
            && Inv(r, w, pool, d)
            && forall e: nat, b :: Live(r, w, e, b) <==> Live(h, v, e, b) && !(e == d && b == a)
  {
    hide Slots;
    ObjectPage(h, v, pool, -1, d, a);
    var r, w := PutObject(h, d, a), v.(free := v.free[d := [a] + v.free[d]]);
    assert Bucket(h, v, d);
    StoreKeepsChain(h, v, pool, -1, d, a, h.freeptr[d], d);
    Linked.Push(v.free[d], h.freeptr[d], h.mem, 0, a);
    forall e: nat | InUse(w, e) ensures Bucket(r, w, e) {
      assert Bucket(h, v, e);
      StoreKeepsChain(h, v, pool, -1, d, a, h.freeptr[d], e);
    }
  }

  /** The owner of a live object may write anything into it. */
  lemma StoreOk(h: Heap, v: View, pool: set<int>, d: nat, a: nat, mem': seq<int>)
    requires Inv(h, v, pool, -1) && Live(h, v, d, a) && |mem'| == |h.mem|
    requires forall b | 0 <= b < |h.mem| && !(a <= b < a + h.size[d]) :: mem'[b] == h.mem[b]
    ensures Inv(h.(mem := mem'), v, pool, -1)
  {
    hide Slots;
    var r := h.(mem := mem');
    forall e: nat | InUse(v, e) ensures Bucket(r, v, e) {
      assert Bucket(h, v, e);
      forall b | b in v.free[e] ensures mem'[b] == h.mem[b] && b < |h.mem| {
        ObjectPage(h, v, pool, -1, e, b);
        BucketSlots(h, v, pool, -1, e);
        assert a != b by { if d != e { ObjectPage(h, v, pool, -1, d, a); } }
        SlotsDisjoint(h, v, pool, -1, d, a, e, b);
      }
      Linked.Frame(v.free[e], h.freeptr[e], h.mem, mem', 0);
    }
  }

  // ---- moving descriptors between lists ------------------------------------------------------------

  lemma OnlyHome(lists: seq<seq<nat>>, home: seq<nat>, heads: seq<int>, next: seq<int>, k: nat, d: nat)
    requires Listed(lists, home, heads, next) && k < 10
    ensures d in lists[k] <==> d < |home| && home[d] == k
  {
  }

  /** Descriptor d, taken off list j (which leaves list c), goes to the front of list k. */
  lemma MoveOk(lists: seq<seq<nat>>, home: seq<nat>, heads: seq<int>, next: seq<int>,
               d: nat, j: nat, k: nat, c: seq<nat>, head: int, next': seq<int>)
    requires Listed(lists, home, heads, next) && d < |home| && home[d] == j && j < 10 && k < 10 && k != j
    requires Linked.List(c, head, next', -1) && |next'| == |next|
    requires forall x: nat :: x in c <==> x in lists[j] && x != d
    requires forall x: nat | x < |next| && x !in c && x != d :: next'[x] == next[x]
    ensures Listed(lists[j := c][k := [d] + lists[k]], home[d := k], heads[j := head][k := d], next'[d := heads[k]])
  {
    hide Linked.List;
    var ls, nx := lists[j := c][k := [d] + lists[k]], next'[d := heads[k]];
    forall i | 0 <= i < 10 ensures Linked.List(ls[i], heads[j := head][k := d][i], nx, -1) {
      assert Linked.List(lists[i], heads[i], next, -1);
      forall x: nat | x in lists[i] ensures x < |next| && (i != j ==> x != d && next'[x] == next[x]) {
        OnlyHome(lists, home, heads, next, i, x);
        OnlyHome(lists, home, heads, next, j, x);
      }
      forall x: nat | x in c ensures x < |next| && x != d {
        OnlyHome(lists, home, heads, next, j, x);
      }
      if i == k {
        Linked.Frame(lists[k], heads[k], next, next', -1);
        Linked.Push(lists[k], heads[k], next', -1, d);
      } else if i == j {
        Linked.Frame(c, head, next', nx, -1);
      } else {
        Linked.Frame(lists[i], heads[i], next, nx, -1);
      }
    }
  }

  lemma FirstOff(lists: seq<seq<nat>>, home: seq<nat>, heads: seq<int>, next: seq<int>, j: nat)
    requires Listed(lists, home, heads, next) && j < 10 && lists[j] != []
    ensures heads[j] == lists[j][0] && home[lists[j][0]] == j && Linked.List(lists[j][1..], next[lists[j][0]], next, -1)
    ensures forall x: nat :: x in lists[j][1..] <==> x in lists[j] && x != lists[j][0]
  {
    var c := lists[j];
    assert Linked.List(c, heads[j], next, -1);
    Linked.Pop(c, heads[j], next, -1);
    assert c == [c[0]] + c[1..];
    assert c[0] in c;
  }

  /** A free descriptor becomes bucket d of size class k, with the fresh page chained up in mem'. */
  function NewBucket(h: Heap, k: nat, d: nat, page: int, mem': seq<int>): Heap
    requires k < 9 && |h.heads| == 10
    requires d < |h.page| == |h.next| == |h.freeptr| == |h.refcnt| == |h.size|
  {
    h.(heads := h.heads[UNUSED := h.next[d]][k := d], next := h.next[d := h.heads[k]], refcnt := h.refcnt[d := 0],
       size := h.size[d := SizeOf(k)], page := h.page[d := page], freeptr := h.freeptr[d := page], mem := mem')
  }

  ghost function NewBucketView(v: View, k: nat, d: nat, page: int): View
    requires k < 9 && |v.lists| == 10 && v.lists[UNUSED] != [] && d < |v.home| == |v.free|
  {
    View(v.lists[UNUSED := v.lists[UNUSED][1..]][k := [d] + v.lists[k]], v.home[d := k], v.free[d := Slots(page, SizeOf(k))])
  }

  lemma NewBucketOk(h: Heap, v: View, pool: set<int>, k: nat, d: nat, page: int, mem': seq<int>)
    requires Inv(h, v, pool + {page}, -1) && page !in pool && k < 9
    requires v.lists[UNUSED] != [] && d == v.lists[UNUSED][0]
    requires |mem'| == |h.mem| && Linked.List(Slots(page, SizeOf(k)), page, mem', 0)
    requires forall a | 0 <= a < |h.mem| && !(page <= a < page + 4096) :: mem'[a] == h.mem[a]
    ensures d < |v.home| && v.home[d] == UNUSED && h.heads[UNUSED] == d
    ensures var r, w := NewBucket(h, k, d, page, mem'), NewBucketView(v, k, d, page);
            && Inv(r, w, pool, d) && InUse(w, d) && w.free[d] != []
            && forall e: nat, a :: Live(r, w, e, a) <==> Live(h, v, e, a)
  {
    hide Slots, Linked.List;
    assert GoodPage(page, |h.mem|) by { assert page in pool + {page}; }
    FirstOff(v.lists, v.home, h.heads, h.next, UNUSED);
    var r, w := NewBucket(h, k, d, page, mem'), NewBucketView(v, k, d, page);
    MoveOk(v.lists, v.home, h.heads, h.next, d, UNUSED, k, v.lists[UNUSED][1..], h.next[d], h.next);
    SlotsOk(page, SizeOf(k));
    hide Listed;
    forall e: nat | InUse(w, e) ensures Bucket(r, w, e) && (e != d ==> r.page[e] != page && r.page[e] !in pool) {
      if e != d {
        assert InUse(v, e) && Bucket(h, v, e);
        KeepChain(h, v, pool + {page}, e, page, mem');
      }
    }
    assert page !in pool;
    assert PagesApart(r, w, pool);
  }

  lemma KeepChain(h: Heap, v: View, pool: set<int>, e: nat, page: int, mem': seq<int>)
    requires Inv(h, v, pool, -1) && InUse(v, e) && page in pool && |mem'| == |h.mem|
    requires forall a | 0 <= a < |h.mem| && !(page <= a < page + 4096) :: mem'[a] == h.mem[a]
    ensures Linked.List(v.free[e], h.freeptr[e], mem', 0)
  {
    hide Slots;
    assert Bucket(h, v, e) && GoodPage(page, |h.mem|);
    PagesDisjoint(h.page[e], page, |h.mem|);
    forall b | b in v.free[e] ensures b < |h.mem| && mem'[b] == h.mem[b] {
      ObjectPage(h, v, pool, -1, e, b);
    }
    Linked.Frame(v.free[e], h.freeptr[e], h.mem, mem', 0);
  }

  /** The end of free_s: bucket d, with no live object left, is unlinked and its descriptor becomes free. */
  function Retire(h: Heap, k: nat, d: nat, prev: int): Heap
    requires k < 9 && |h.heads| == 10 && d < |h.next| && -1 <= prev < |h.next|
  {
    var r := if prev >= 0 then h.(next := h.next[prev := h.next[d]]) else h.(heads := h.heads[k := h.next[d]]);
    r.(next := r.next[d := r.heads[UNUSED]], heads := r.heads[UNUSED := d])
  }

  /** prev is what precedes d on its list, -1 for nothing. */
  predicate Precedes(v: View, d: nat, prev: int) {
    && InUse(v, d) && v.home[d] < |v.lists| && d in v.lists[v.home[d]]
    && var c := v.lists[v.home[d]]; var i := IndexOf(c, d); prev == if i == 0 then -1 else c[i - 1]
  }

  ghost function RetiredView(v: View, d: nat): View
    requires d < |v.home| && v.home[d] < 9 && |v.lists| == 10 && d in v.lists[v.home[d]]
  {
    var k := v.home[d];
    var c := Without(v.lists[k], IndexOf(v.lists[k], d));
    v.(lists := v.lists[k := c][UNUSED := [d] + v.lists[UNUSED]], home := v.home[d := UNUSED])
  }

  lemma ListOf(lists: seq<seq<nat>>, home: seq<nat>, heads: seq<int>, next: seq<int>, k: nat)
    requires Listed(lists, home, heads, next) && k < 10
    ensures |lists| == |heads| == 10 && |home| == |next| && Linked.List(lists[k], heads[k], next, -1) && Distinct(lists[k])
  {
  }

  lemma RetireLists(h: Heap, v: View, d: nat, prev: int)
    requires Shape(h, v) && Listed(v.lists, v.home, h.heads, h.next) && Precedes(v, d, prev)
    ensures -1 <= prev < |h.next|
    ensures var r, w := Retire(h, v.home[d], d, prev), RetiredView(v, d); Listed(w.lists, w.home, r.heads, r.next)
  {
    hide Listed, Linked.List, Distinct;
    if IndexOf(v.lists[v.home[d]], d) == 0 { RetireFirst(h, v, d); } else { RetireLater(h, v, d, prev); }
  }

  lemma RetireFirst(h: Heap, v: View, d: nat)
    requires Shape(h, v) && Listed(v.lists, v.home, h.heads, h.next) && Precedes(v, d, -1)
    requires IndexOf(v.lists[v.home[d]], d) == 0
    ensures var r, w := Retire(h, v.home[d], d, -1), RetiredView(v, d); Listed(w.lists, w.home, r.heads, r.next)
  {
    hide Listed, Linked.List, Distinct;
    var k := v.home[d];
    var c := v.lists[k];
    ListOf(v.lists, v.home, h.heads, h.next, k);
    WithoutMembers(c, 0);
    Linked.Pop(c, h.heads[k], h.next, -1);
    assert Without(c, 0) == c[1..];
    MoveOk(v.lists, v.home, h.heads, h.next, d, k, UNUSED, c[1..], h.next[d], h.next);
  }

  lemma RetireLater(h: Heap, v: View, d: nat, prev: int)
    requires Shape(h, v) && Listed(v.lists, v.home, h.heads, h.next) && Precedes(v, d, prev)
    requires IndexOf(v.lists[v.home[d]], d) > 0
    ensures 0 <= prev < |h.next|
    ensures var r, w := Retire(h, v.home[d], d, prev), RetiredView(v, d); Listed(w.lists, w.home, r.heads, r.next)
  {
    hide Listed, Linked.List, Distinct;
    var k := v.home[d];
    var c := v.lists[k];
    var i := IndexOf(c, d);
    ListOf(v.lists, v.home, h.heads, h.next, k);
    WithoutMembers(c, i);
    Linked.Link(c, h.heads[k], h.next, -1, i - 1);
    Linked.Unlink(c, h.heads[k], h.next, -1, i);
    DistinctAt(c, i - 1, i);
    assert c[i - 1] in c;
    var nx := h.next[prev := h.next[d]];
    MoveOk(v.lists, v.home, h.heads, h.next, d, k, UNUSED, Without(c, i), h.heads[k], nx);
    assert h.heads[k := h.heads[k]] == h.heads;
  }

  lemma RetireOk(h: Heap, v: View, pool: set<int>, d: nat, prev: int)
    requires Inv(h, v, pool, d) && InUse(v, d) && h.refcnt[d] == 0 && Precedes(v, d, prev)
    ensures -1 <= prev < |h.next|
    ensures var r, w := Retire(h, v.home[d], d, prev), RetiredView(v, d);
            && Inv(r, w, pool + {h.page[d]}, -1)
            && forall e: nat, a :: Live(r, w, e, a) <==> Live(h, v, e, a)
  {
    hide Slots, Linked.List;
    RetireLists(h, v, d, prev);
    assert Bucket(h, v, d);
    NoneLive(h, v, pool, d);
    var r, w := Retire(h, v.home[d], d, prev), RetiredView(v, d);
    hide Listed;
    forall e: nat | InUse(w, e) ensures Bucket(r, w, e) && r.refcnt[e] > 0 {
      assert InUse(v, e) && Bucket(h, v, e);
    }
  }

  /** The count of a bucket is 0 exactly when none of its objects is live. */
  lemma NoneLive(h: Heap, v: View, pool: set<int>, d: nat)
    requires Inv(h, v, pool, d) && InUse(v, d)
    ensures h.refcnt[d] == 0 <==> forall a :: !Live(h, v, d, a)
  {
    assert Bucket(h, v, d);
    BucketSlots(h, v, pool, d, d);
    var s, f := Slots(h.page[d], h.size[d]), v.free[d];
    assert Distinct(f) && |f| + h.refcnt[d] == |s|;
    hide Linked.List, Slots, Inv;
    if h.refcnt[d] == 0 {
      AllOf(f, s);
    } else if forall a :: !Live(h, v, d, a) {
      forall x | x in s ensures x in f {
        assert !Live(h, v, d, x);
      }
      Shorter(s, f);
    }
  }

  lemma {:induction false} Shorter(c: seq<nat>, d: seq<nat>)
    requires Distinct(c) && forall x | x in c :: x in d
    ensures |c| <= |d|
    decreases |d|
  {
    if c != [] {
      var i := IndexOf(d, c[0]);
      forall x | x in c[1..] ensures x in Without(d, i) {
        var j := IndexOf(d, x);
        assert Without(d, i)[if j < i then j else j - 1] == x;
      }
      Shorter(c[1..], Without(d, i));
    }
  }

  // ---- more descriptors ----------------------------------------------------------------------------

  function Range(from: nat, n: nat): (s: seq<nat>) {
    seq(n, i requires 0 <= i < n => from + i)
  }

  ghost function MoreView(v: View, first: nat): View
    requires |v.lists| == 10
  {
    View(v.lists[UNUSED := Range(first, 256) + v.lists[UNUSED]], v.home + seq(256, i => UNUSED), v.free + seq(256, i => []))
  }

  ghost predicate Extended(next: seq<int>, next': seq<int>, n: nat, head: int) {
    && n > 0 && |next'| == |next| + n && next'[|next| + n - 1] == head
    && (forall j | 0 <= j < |next| :: next'[j] == next[j])
    && (forall j | |next| <= j < |next| + n - 1 :: next'[j] == j + 1)
  }

  lemma MoreList(c: seq<nat>, head: int, next: seq<int>, next': seq<int>, n: nat)
    requires Linked.List(c, head, next, -1) && Extended(next, next', n, head)
    ensures Linked.List(Range(|next|, n) + c, |next|, next', -1)
  {
    var d := Range(|next|, n) + c;
    MoreDistinct(c, |next|, n);
    hide Distinct;
    forall i: nat | i < |d| ensures d[i] < |next'| && next'[d[i]] == Linked.NextOf(d, i + 1, -1) {
      MoreListAt(c, head, next, next', n, i);
    }
  }

  lemma MoreDistinct(c: seq<nat>, from: nat, n: nat)
    requires Distinct(c) && forall x | x in c :: x < from
    ensures Distinct(Range(from, n) + c)
  {
    assert forall i | 0 <= i < |c| :: c[i] in c;
  }

  lemma MoreListAt(c: seq<nat>, head: int, next: seq<int>, next': seq<int>, n: nat, i: nat)
    requires Linked.List(c, head, next, -1) && Extended(next, next', n, head) && i < n + |c|
    ensures var d := Range(|next|, n) + c;
            d[i] < |next'| && next'[d[i]] == Linked.NextOf(d, i + 1, -1)
  {
    hide Distinct, Linked.List;
    var d := Range(|next|, n) + c;
    if i >= n {
      Linked.Link(c, head, next, -1, i - n);
      assert d[i] == c[i - n];
    } else {
      assert d[i] == |next| + i;
      Linked.Starts(c, head, next, -1);
    }
  }

  lemma MoreLists(lists: seq<seq<nat>>, home: seq<nat>, heads: seq<int>, next: seq<int>, next': seq<int>)
    requires Listed(lists, home, heads, next)
    requires Extended(next, next', 256, heads[UNUSED])
    ensures Listed(lists[UNUSED := Range(|next|, 256) + lists[UNUSED]], home + seq(256, i => UNUSED),
                   heads[UNUSED := |next|], next')
  {
    hide Linked.List;
    forall k | 0 <= k < 9 ensures Linked.List(lists[k], heads[k], next', -1) {
      forall x | x in lists[k] ensures x < |next| && next'[x] == next[x] {
        OnlyHome(lists, home, heads, next, k, x);
      }
      Linked.Frame(lists[k], heads[k], next, next', -1);
    }
    MoreList(lists[UNUSED], heads[UNUSED], next, next', 256);
    forall x: nat ensures x in Range(|next|, 256) <==> |next| <= x < |next| + 256 {
      if |next| <= x < |next| + 256 {
        assert Range(|next|, 256)[x - |next|] == x;
      }
    }
    var ls, hm := lists[UNUSED := Range(|next|, 256) + lists[UNUSED]], home + seq(256, i => UNUSED);
    forall k: nat, d: nat | k < 10 ensures d in ls[k] <==> d < |hm| && hm[d] == k {
      OnlyHome(lists, home, heads, next, k, d);
    }
    forall k | 0 <= k < 10 ensures Linked.List(ls[k], heads[UNUSED := |next|][k], next', -1) {
      assert k < 9 || k == UNUSED;
    }
    forall d: nat | d < |hm| ensures hm[d] < 10 {
      assert d < |home| ==> home[d] < 10;
    }
  }

  lemma MoreOk(h: Heap, v: View, pool: set<int>, pool': set<int>, zeros: seq<int>, next: seq<int>)
    requires Inv(h, v, pool, -1) && pool' <= pool && |zeros| == 256
    requires Extended(h.next, next, 256, h.heads[UNUSED])
    ensures var r, w := h.(page := h.page + zeros, next := next, freeptr := h.freeptr + zeros, refcnt := h.refcnt + zeros,
                           size := h.size + zeros, heads := h.heads[UNUSED := |h.next|]), MoreView(v, |h.next|);
            && Inv(r, w, pool', -1) && w.lists[UNUSED] != []
            && forall e: nat, a :: Live(r, w, e, a) <==> Live(h, v, e, a)
  {
    hide Slots, Objects, Listed;
    MoreLists(v.lists, v.home, h.heads, h.next, next);
    var r, w := h.(page := h.page + zeros, next := next, freeptr := h.freeptr + zeros, refcnt := h.refcnt + zeros,
                   size := h.size + zeros, heads := h.heads[UNUSED := |h.next|]), MoreView(v, |h.next|);
    forall e: nat | InUse(w, e) ensures InUse(v, e) && Bucket(r, w, e) && r.refcnt[e] > 0 {
      assert InUse(v, e) && Bucket(h, v, e);
    }
    assert forall e: nat :: InUse(w, e) <==> InUse(v, e);
  }

  // ---- malloc and free_s ---------------------------------------------------------------------------

  /** (int) of an unsigned 32-bit number. */
  function AsInt(len: nat): int {
    if len < 0x8000_0000 then len else len - 0x1_0000_0000
  }

  class Allocator {
    var h: Heap
    var pool: set<int>      // free pages
    ghost var v: View

    ghost predicate Valid()
      reads this
    {
      Inv(h, v, pool, -1)
    }

    /** Before the first call: empty chains, no descriptors, nothing live. */
    constructor (memory: seq<int>, pages: set<int>)
      requires forall p | p in pages :: GoodPage(p, |memory|)
      ensures Valid() && pool == pages && forall d: nat, a :: !Live(h, v, d, a)
    {
      h := Heap([], [], [], [], [], seq(10, k => -1), memory);
      v := View(seq(10, k => []), [], []);
      pool := pages;
    }

    /** get_free_page, as far as this file sees it: any free page, 0 when there is none. */
    method GetFreePage() returns (page: int)
      requires 0 !in pool
      modifies this`pool
      ensures page == 0 ==> pool == old(pool) && forall p :: p !in pool
      ensures page != 0 ==> page in old(pool) && pool == old(pool) - {page}
    {
      if p :| p in pool {
        page, pool := p, pool - {p};
      } else {
        page := 0;
      }
    }

    /** init_bucket_desc: a page of 256 free descriptors, put in front of the free ones. */
    method InitBucketDesc() returns (ok: bool)
      requires Valid()
      modifies this
      ensures Valid() && pool <= old(pool) && h.mem == old(h.mem) && (!ok ==> forall p :: p !in old(pool))
      ensures ok ==> exists p :: p in old(pool) && pool == old(pool) - {p}
      ensures ok ==> v.lists[UNUSED] != [] && |h.next| == old(|h.next|) + 256
      ensures forall e: nat, a :: Live(h, v, e, a) <==> old(Live(h, v, e, a))
    {
      PoolPages();
      var page := GetFreePage();
      if page == 0 { return false; }
      ghost var was, wv := h, v;
      var first := |h.next|;
      var zeros := seq(256, i => 0);
      var next := h.next + zeros;
      var bdesc := first;
      var i := 256;
      while i > 1
        invariant 1 <= i <= 256 && bdesc == first + 256 - i && |next| == first + 256
        invariant forall j | 0 <= j < first :: next[j] == h.next[j]
        invariant forall j | first <= j < bdesc :: next[j] == j + 1
      {
        next := next[bdesc := bdesc + 1];
        bdesc := bdesc + 1;
        i := i - 1;
      }
      next := next[bdesc := h.heads[UNUSED]];
      h := h.(page := h.page + zeros, next := next, freeptr := h.freeptr + zeros, refcnt := h.refcnt + zeros,
              size := h.size + zeros, heads := h.heads[UNUSED := first]);
      v := MoreView(v, first);
      MoreOk(was, wv, old(pool), pool, zeros, next);
      ok := true;
    }

    lemma PoolPages()
      requires Valid()
      ensures 0 !in pool && |h.heads| == 10
    {
    }

    /** The search of bucket_dir: the smallest size that fits, 9 when none does. */
    method FindSize(len: nat) returns (k: nat)
      ensures k <= 9 && (k == 9 <==> AsInt(len) > 4096)
      ensures k < 9 ==> AsInt(len) <= SizeOf(k) && (k == 0 || SizeOf(k - 1) < AsInt(len))
    {
      k := 0;
      while k < 9 && SizeOf(k) < AsInt(len)
        invariant k <= 9 && (k > 0 ==> SizeOf(k - 1) < AsInt(len))
      {
        k := k + 1;
      }
    }

    /** The loop of malloc that chains up the objects of a new page. */
    method ChainPage(page: nat, size: nat) returns (mem: seq<int>)
      requires IsSize(size) && GoodPage(page, |h.mem|)
      ensures |mem| == |h.mem| && Linked.List(Slots(page, size), page, mem, 0)
      ensures forall a | 0 <= a < |mem| && !(page <= a < page + 4096) :: mem[a] == h.mem[a]
    {
      SlotsOk(page, size);
      ghost var s := Slots(page, size);
      hide Slots;
      mem := h.mem;
      var cp := page;
      var i := 4096 / size;
      while i > 1
        invariant 1 <= i <= |s| && cp == s[|s| - i] && |mem| == |h.mem|
        invariant forall j | 0 <= j < |s| - i :: mem[s[j]] == s[j + 1]
        invariant forall a | 0 <= a < |mem| && !(page <= a < page + 4096) :: mem[a] == h.mem[a]
      {
        mem := mem[cp := cp + size];
        cp := cp + size;
        i := i - 1;
      }
      mem := mem[cp := 0];
    }

    ghost predicate NoDescriptor()
      reads this
    {
      UNUSED < |v.lists| && v.lists[UNUSED] == []
    }

    /** There are pages for a new bucket: one for its objects, and one more when there is no free descriptor. */
    ghost predicate Enough()
      reads this
    {
      exists p :: p in pool && (NoDescriptor() ==> exists q :: q in pool && q != p)
    }

    predicate Less(was: set<int>, now: set<int>, p: int, q: int) {
      now == was - {p, q}
    }

    /** Bucket e is of the smallest size that fits and has a free object. */
    ghost predicate Serves(e: nat, len: nat)
      reads this
    {
      && InUse(v, e) && e < |v.free| && v.free[e] != []
      && AsInt(len) <= SizeOf(v.home[e]) && (v.home[e] == 0 || SizeOf(v.home[e] - 1) < AsInt(len))
    }

    /** malloc when no bucket of the size has a free object.  -1 stands for the panic when memory is out. */
    method AddBucket(k: nat) returns (d: int)
      requires Valid() && k < 9
      modifies this
      ensures d >= 0 <==> old(Enough())
      ensures d >= 0 ==> exists p, q :: p in old(pool) && q in old(pool) && Less(old(pool), pool, p, q) && (p != q <==> old(NoDescriptor()))
      ensures d >= 0 ==> Inv(h, v, pool, d) && InUse(v, d) && v.home[d] == k && v.free[d] != [] && pool <= old(pool)
      ensures d >= 0 ==> forall e: nat, a :: Live(h, v, e, a) <==> old(Live(h, v, e, a))
    {
      hide Slots, Listed, Bucket;
      PoolPages();
      UnusedFirst();
      ghost var all, none, q := pool, NoDescriptor(), 0;
      if h.heads[UNUSED] == -1 {
        var ok := InitBucketDesc();
        if !ok { return -1; }
        q :| q in all && pool == all - {q};
      }
      UnusedFirst();
      d := h.heads[UNUSED];
      PoolPages();
      ghost var free := pool;
      var page := GetFreePage();
      if page == 0 {
        forall p | p in all && none ensures p == q { assert p in free <==> p != q; }
        return -1;
      }
      assert pool + {page} == free;
      if !none { q := page; }
      assert page in all && q in all && Less(all, pool, page, q) && (page != q <==> none);
      var mem := ChainPage(page, SizeOf(k));
      NewBucketOk(h, v, pool, k, d, page, mem);
      v := NewBucketView(v, k, d, page);
      h := NewBucket(h, k, d, page, mem);
    }

    lemma UnusedFirst()
      requires Valid()
      ensures |h.heads| == 10 && |v.lists| == 10 && (h.heads[UNUSED] == -1 <==> v.lists[UNUSED] == [])
      ensures v.lists[UNUSED] != [] ==> h.heads[UNUSED] == v.lists[UNUSED][0]
    {
      assert Linked.List(v.lists[UNUSED], h.heads[UNUSED], h.next, -1);
    }

    /** The walk along a chain for a bucket with a free object. */
    method FindBucket(k: nat) returns (d: int)
      requires Valid() && k < 9
      ensures d == -1 || (d >= 0 && InUse(v, d) && d < |v.free| && v.home[d] == k && v.free[d] != [])
      ensures d == -1 ==> forall e: nat | InUse(v, e) && v.home[e] == k :: v.free[e] == []
    {
      hide Slots;
      ghost var c := v.lists[k];
      assert Linked.List(c, h.heads[k], h.next, -1);
      ghost var i := 0;
      d := h.heads[k];
      while d != -1
        invariant 0 <= i <= |c| && d == Linked.NextOf(c, i, -1)
        invariant forall j | 0 <= j < i :: v.free[c[j]] == []
        decreases |c| - i
      {
        Linked.Link(c, h.heads[k], h.next, -1, i);
        OnlyHome(v.lists, v.home, h.heads, h.next, k, d);
        assert Bucket(h, v, d);
        if h.freeptr[d] != 0 { return; }
        d := h.next[d];
        i := i + 1;
      }
      forall e: nat | InUse(v, e) && v.home[e] == k ensures v.free[e] == [] {
        OnlyHome(v.lists, v.home, h.heads, h.next, k, e);
        assert e in c;
      }
    }

    lemma NoClass(len: nat)
      requires AsInt(len) > 4096
      ensures forall e: nat :: !Serves(e, len)
    {
    }

    lemma OneClass(len: nat, j: nat, k: nat)
      requires j < 9 && AsInt(len) <= SizeOf(j) && (j == 0 || SizeOf(j - 1) < AsInt(len))
      requires k < 9 && AsInt(len) <= SizeOf(k) && (k == 0 || SizeOf(k - 1) < AsInt(len))
      ensures j == k
    {
    }

    /** malloc.  0 stands for the panics: an argument that fits no size, or memory out.  bucket is where the
        object comes from. */
    method Malloc(len: nat) returns (obj: int, ghost bucket: nat)
      requires Valid() && len < 0x1_0000_0000
      modifies this
      ensures obj != 0 <==> AsInt(len) <= 4096 && (old(exists e: nat :: Serves(e, len)) || old(Enough()))
      ensures obj != 0 ==> if old(exists e: nat :: Serves(e, len)) then pool == old(pool) else
        exists p, q :: p in old(pool) && q in old(pool) && Less(old(pool), pool, p, q) && (p != q <==> old(NoDescriptor()))
      ensures obj != 0 ==> obj > 0 && Valid() && InUse(v, bucket) && pool <= old(pool)
      ensures obj != 0 ==> AsInt(len) <= SizeOf(v.home[bucket])
                           && (v.home[bucket] == 0 || SizeOf(v.home[bucket] - 1) < AsInt(len))
      ensures obj != 0 ==> (len <= SizeOf(v.home[bucket]) <==> len < 0x8000_0000)
      ensures obj != 0 ==> !old(Live(h, v, bucket, obj))
                           && forall e: nat, a :: Live(h, v, e, a) <==> old(Live(h, v, e, a)) || (e == bucket && a == obj)
    {
      hide Inv, Live;
      bucket := 0;
      var k := FindSize(len);
      if k == 9 {
        NoClass(len);
        return 0, 0;
      }
      var d := FindBucket(k);
      assert d != -1 ==> Serves(d, len);
      forall e: nat | Serves(e, len) ensures d != -1 { OneClass(len, k, v.home[e]); }
      if d == -1 {
        d := AddBucket(k);
        if d < 0 { return 0, 0; }
      }
      bucket := d;
      TakeOk(h, v, pool, if Inv(h, v, pool, -1) then -1 else d, d);
      v := v.(free := v.free[d := v.free[d][1..]]);
      obj := h.freeptr[d];
      h := TakeObject(h, d);
    }

    /** The search of free_s: the bucket of the page, passing over sizes below the hint.  k is 9 when there is
        none; prev is the bucket before it on its chain. */
    method Search(page: int, hint: int) returns (k: nat, bdesc: int, prev: int)
      requires Valid()
      ensures k < 9 ==> 0 <= bdesc && InUse(v, bdesc) && v.home[bdesc] == k && h.page[bdesc] == page && hint <= SizeOf(k)
      ensures k < 9 ==> Precedes(v, bdesc, prev) && -1 <= prev < |h.next|
      ensures k == 9 ==> forall e: nat | InUse(v, e) && h.page[e] == page :: SizeOf(v.home[e]) < hint
      ensures k <= 9
    {
      hide Slots, Bucket, Listed, Precedes;
      k, bdesc, prev := 0, -1, -1;
      while k < 9
        invariant k <= 9
        invariant forall e: nat | InUse(v, e) && h.page[e] == page && v.home[e] < k :: SizeOf(v.home[e]) < hint
      {
        if hint <= SizeOf(k) {
          bdesc, prev := SearchChain(k, page);
          if bdesc != -1 { return; }
        }
        k := k + 1;
      }
    }

    /** The inner loop: the bucket of the page on the chain of one size, -1 for none. */
    method SearchChain(k: nat, page: int) returns (bdesc: int, prev: int)
      requires Valid() && k < 9
      ensures bdesc != -1 ==> 0 <= bdesc && InUse(v, bdesc) && v.home[bdesc] == k && h.page[bdesc] == page
      ensures bdesc != -1 ==> Precedes(v, bdesc, prev) && -1 <= prev < |h.next|
      ensures bdesc == -1 ==> forall e: nat | InUse(v, e) && v.home[e] == k :: h.page[e] != page
    {
      hide Slots, Bucket;
      ghost var c := v.lists[k];
      assert Linked.List(c, h.heads[k], h.next, -1);
      hide Linked.List;
      Linked.Starts(c, h.heads[k], h.next, -1);
      ghost var i := 0;
      bdesc, prev := h.heads[k], -1;
      while bdesc != -1
        invariant 0 <= i <= |c| && bdesc == Linked.NextOf(c, i, -1) && prev == if i == 0 then -1 else c[i - 1]
        invariant -1 <= prev < |h.next| && forall j | 0 <= j < i :: h.page[c[j]] != page
        decreases |c| - i
      {
        Linked.Link(c, h.heads[k], h.next, -1, i);
        assert c[i] in c;
        OnlyHome(v.lists, v.home, h.heads, h.next, k, bdesc);
        if h.page[bdesc] == page {
          assert Distinct(c) by { Linked.ListDistinct(c, h.heads[k], h.next, -1); }
          DistinctAt(c, i, IndexOf(c, bdesc));
          return;
        }
        prev := bdesc;
        bdesc := h.next[bdesc];
        i := i + 1;
      }
      forall e: nat | InUse(v, e) && v.home[e] == k ensures h.page[e] != page {
        OnlyHome(v.lists, v.home, h.heads, h.next, k, e);
        assert e in c;
      }
    }

    /** An interrupt, with kernel code of its own that allocates and frees.  It leaves the object to its owner. */
    method Interrupt(ghost d: nat, ghost obj: nat)
      requires Valid() && Live(h, v, d, obj)
      modifies this
      ensures Valid() && Live(h, v, d, obj)
      ensures |h.next| >= old(|h.next|) && h.page[d] == old(h.page[d]) && v.home[d] == old(v.home[d])
    {
    }

    /** What has d as its next is the bucket before d. */
    lemma PrevIs(d: nat, e: int)
      requires Valid() && InUse(v, d) && 0 <= e < |h.next| && h.next[e] == d
      ensures Precedes(v, d, e)
    {
      var j := v.home[e];
      var c := v.lists[j];
      OnlyHome(v.lists, v.home, h.heads, h.next, j, e);
      var i := IndexOf(c, e);
      assert Linked.List(c, h.heads[j], h.next, -1);
      Linked.Link(c, h.heads[j], h.next, -1, i);
      assert c[i + 1] == d && d in c;
      OnlyHome(v.lists, v.home, h.heads, h.next, j, d);
      DistinctAt(c, i + 1, IndexOf(c, d));
    }

    lemma NoPrevIs(d: nat, k: nat)
      requires Valid() && InUse(v, d) && v.home[d] == k && h.heads[k] == d
      ensures Precedes(v, d, -1)
    {
      var c := v.lists[k];
      OnlyHome(v.lists, v.home, h.heads, h.next, k, d);
      assert Linked.List(c, h.heads[k], h.next, -1);
      DistinctAt(c, 0, IndexOf(c, d));
    }

    /** prev is good when its link leads to d, or when there is none and d comes first. */
    ghost predicate PrevOk(d: nat, k: nat, prev: int)
      reads this
    {
      && k < |h.heads| && -1 <= prev < |h.next|
      && if prev == -1 then h.heads[k] == d else h.next[prev] == d
    }

    lemma PrevFound(d: nat, k: nat, prev: int)
      requires Valid() && InUse(v, d) && v.home[d] == k && PrevOk(d, k, prev)
      ensures Precedes(v, d, prev)
    {
      if prev == -1 { NoPrevIs(d, k); } else { PrevIs(d, prev); }
    }

    /** The repair loop of free_s: what precedes d on chain k is looked for again. */
    method FindPrev(d: nat, k: nat) returns (prev: int)
      requires Valid() && InUse(v, d) && v.home[d] == k
      ensures PrevOk(d, k, prev)
    {
      hide Slots, Bucket, PagesApart;
      ghost var c := v.lists[k];
      OnlyHome(v.lists, v.home, h.heads, h.next, k, d);
      assert Linked.List(c, h.heads[k], h.next, -1) && d in c;
      hide Inv, Linked.List, Distinct;
      Linked.Starts(c, h.heads[k], h.next, -1);
      ghost var i, at := 0, IndexOf(c, d);
      prev := h.heads[k];
      while prev != -1
        invariant 0 <= i <= |c| && prev == Linked.NextOf(c, i, -1) && (at == 0 || i < at)
        decreases |c| - i
      {
        Linked.Link(c, h.heads[k], h.next, -1, i);
        if h.next[prev] == d { return; }
        prev := h.next[prev];
        i := i + 1;
      }
    }

    /** The part of free_s with interrupts off.  prev may be out of date.  The page goes back exactly when no
        other object of it is live; the panic about corrupted chains is never reached. */
    method Release(obj: nat, k: nat, bdesc: nat, prev: int)
      requires Valid() && Live(h, v, bdesc, obj) && v.home[bdesc] == k && -1 <= prev < |h.next|
      modifies this
      ensures Valid() && |h.next| == old(|h.next|)
      ensures forall e: nat, a :: Live(h, v, e, a) <==> old(Live(h, v, e, a)) && !(e == bdesc && a == obj)
      ensures pool == if exists a :: a != obj && old(Live(h, v, bdesc, a)) then old(pool) else old(pool) + {old(h.page[bdesc])}
    {
      hide Slots, Listed, Bucket;
      var p := prev;
      if (prev >= 0 && h.next[prev] != bdesc) || (prev < 0 && h.heads[k] != bdesc) {
        p := FindPrev(bdesc, k);
      }
      PrevFound(bdesc, k, p);
      PutOk(h, v, pool, bdesc, obj);
      v := v.(free := v.free[bdesc := [obj] + v.free[bdesc]]);
      h := PutObject(h, bdesc, obj);
      NoneLive(h, v, pool, bdesc);
      assert Precedes(v, bdesc, p);
      if h.refcnt[bdesc] == 0 {
        RetireOk(h, v, pool, bdesc, p);
        pool := pool + {h.page[bdesc]};
        v := RetiredView(v, bdesc);
        h := Retire(h, k, bdesc, p);
      }
    }

    /** free_s of an object of bucket d.  A hint of 0, or the size that was asked for, finds the bucket; the
        panic (result false) comes exactly when the hint is larger than the object.  Interrupts may come until cli();
        hc, vc and pc are what they leave, with the object still live.  From there exactly the object dies, and its
        page goes back with the last object of it. */
    method FreeS(obj: nat, hint: int, ghost d: nat) returns (ok: bool, ghost hc: Heap, ghost vc: View, ghost pc: set<int>)
      requires Valid() && Live(h, v, d, obj)
      modifies this
      ensures Valid() && (ok <==> hint <= old(SizeOf(v.home[d]))) && (ok ==> !Live(h, v, d, obj))
      ensures !ok ==> h == old(h) && v == old(v) && pool == old(pool)
      ensures ok ==> Inv(hc, vc, pc, -1) && Live(hc, vc, d, obj)
                     && forall e: nat, a :: Live(h, v, e, a) <==> Live(hc, vc, e, a) && !(e == d && a == obj)
      ensures ok ==> pool == if exists a :: a != obj && Live(hc, vc, d, a) then pc else pc + {hc.page[d]}
    {
      hide Slots, Listed, Bucket;
      hc, vc, pc := h, v, pool;
      ObjectPage(h, v, pool, -1, d, obj);
      var page := obj - obj % 4096;
      var k, bdesc, prev := Search(page, hint);
      ok := k < 9;
      if !ok { return; }
      assert bdesc == d;
      Interrupt(d, obj);
      hc, vc, pc := h, v, pool;
      Release(obj, k, bdesc, prev);
    }
  }

  /** The size malloc looks for holds what is asked for exactly when the length is no negative int. */
  lemma FitsAsked(len: nat, k: nat)
    requires len < 0x1_0000_0000 && k < 9 && AsInt(len) <= SizeOf(k) && (k == 0 || SizeOf(k - 1) < AsInt(len))
    ensures len <= SizeOf(k) <==> len < 0x8000_0000
  {
  }

  /** Two gigabytes asked for: sixteen bytes will do. */
  lemma HugeIsSmall()
    ensures AsInt(0x8000_0000) <= SizeOf(0) == 16 < 0x8000_0000
  {
  }
}
