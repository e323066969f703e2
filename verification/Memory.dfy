/** Who refers to a page frame, and how mem_map of mm/memory.cc counts them.

    A frame is named by page-table entries, by one directory entry when it is a page table, or by kernel
    code that holds it.  The references of a whole machine form a map from users to what they refer to. */
module Frames {
  import opened Basics

  const LOW: nat := 256               // LOW_MEM >> 12
  const PAGING_PAGES: nat := 3840     // PAGING_MEMORY >> 12
  const USED: Byte := 100

  /** Entry(d, i) is entry i of the page table of directory entry d; task t has directory entries
      16*t .. 16*t+15 (64 MB).  Held(f) stands for kernel code that owns frame f: a task structure, a
      pipe buffer, an argument page. */
  datatype User = Entry(d: nat, i: nat) | Table(d: nat) | Held(f: nat)
  datatype Ref = Ref(frame: nat, rw: bool)
  type Graph = map<User, Ref>

  function UsersOf(g: Graph, f: nat): set<User> {
    set u | u in g && g[u].frame == f
  }

  predicate Managed(lo: nat, hi: nat, f: nat) { LOW <= lo <= f < hi <= LOW + PAGING_PAGES }

  /** Low memory is only ever mapped read-only; everything else in use is a managed frame. */
  predicate PlacedRef(u: User, r: Ref, lo: nat, hi: nat) {
    if u.Entry? && r.frame < LOW then !r.rw else Managed(lo, hi, r.frame)
  }

  /** The same place in two different tasks. */
  predicate SamePlace(u: User, v: User) {
    u.Entry? && v.Entry? && u.i == v.i && u.d % 16 == v.d % 16
  }

  predicate MayShare(g: Graph, u: User, v: User)
    requires u in g && v in g
  {
    SamePlace(u, v) && !g[u].rw && !g[v].rw
  }

  ghost predicate Sharing(g: Graph) {
    forall u, v | u in g && v in g && u != v && g[u].frame == g[v].frame && LOW <= g[u].frame :: MayShare(g, u, v)
  }

  ghost predicate Placed(g: Graph, lo: nat, hi: nat) {
    forall u | u in g ::
      && (u.Entry? || u.Table? ==> 16 <= u.d < 1024)
      && PlacedRef(u, g[u], lo, hi)
  }

  ghost predicate Counted(g: Graph, mm: seq<Byte>, lo: nat, hi: nat) {
    && |mm| == PAGING_PAGES
    && forall k | 0 <= k < PAGING_PAGES ::
         mm[k] as int == if Managed(lo, hi, k + LOW) then |UsersOf(g, k + LOW)| else USED
  }

  /** mem_map counts the references of every managed frame, and only read-only page-table entries at
      the same place of different tasks share a frame. */
  ghost predicate Sound(g: Graph, mm: seq<Byte>, lo: nat, hi: nat) {
    Placed(g, lo, hi) && Sharing(g) && Counted(g, mm, lo, hi)
  }

  // ---- counts ----------------------------------------------------------------------------------

  ghost function Places(k: nat, i: nat, n: nat): set<User> {
    set t: nat | 1 <= t < n :: Entry(16 * t + k, i)
  }

  lemma {:induction false} PlacesSize(k: nat, i: nat, n: nat)
    requires 1 <= n
    ensures |Places(k, i, n)| <= n - 1
  {
    if n == 1 {
      assert Places(k, i, n) == {};
    } else {
      PlacesSize(k, i, n - 1);
      assert Places(k, i, n) == Places(k, i, n - 1) + {Entry(16 * (n - 1) + k, i)};
    }
  }

  lemma SubsetSize<T>(a: set<T>, b: set<T>)
    requires a <= b
    ensures |a| <= |b|
  {
    assert b == a + (b - a);
  }

  lemma InPlaces(u: User, k: nat, i: nat)
    requires u.Entry? && 16 <= u.d < 1024 && u.d % 16 == k && u.i == i
    ensures u in Places(k, i, 64)
  {
    var t: nat := u.d / 16;
    assert u == Entry(16 * t + k, i) && 1 <= t < 64;
  }

  /** At most one mapping per task: no count exceeds 63, so an unsigned char never wraps around. */
  lemma CountBound(g: Graph, lo: nat, hi: nat, f: nat)
    requires Placed(g, lo, hi) && Sharing(g) && LOW <= f
    ensures |UsersOf(g, f)| <= 63
  {
    if x :| x in UsersOf(g, f) {
      if x.Entry? {
        forall u | u in UsersOf(g, f)
          ensures u in Places(x.d % 16, x.i, 64)
        {
          assert u != x ==> MayShare(g, u, x);
          InPlaces(u, x.d % 16, x.i);
        }
        SubsetSize(UsersOf(g, f), Places(x.d % 16, x.i, 64));
        PlacesSize(x.d % 16, x.i, 64);
      } else {
        SoleUser(g, x);
      }
    }
  }

  /** A writable entry, a page table and a held frame have no companion. */
  lemma SoleUser(g: Graph, u: User)
    requires Sharing(g) && u in g && LOW <= g[u].frame
    requires u.Entry? ==> g[u].rw
    ensures UsersOf(g, g[u].frame) == {u}
  {
    assert forall v | v in UsersOf(g, g[u].frame) && v != u :: MayShare(g, u, v);
    assert u in UsersOf(g, g[u].frame);
  }

  /** A frame of count 1 has one user. */
  lemma CountOne(g: Graph, u: User)
    requires u in g && |UsersOf(g, g[u].frame)| == 1
    ensures UsersOf(g, g[u].frame) == {u}
  {
    var us := UsersOf(g, g[u].frame);
    assert u in us;
    assert |us - {u}| == 0;
  }

  // ---- the three ways references change --------------------------------------------------------

  lemma AddUsers(g: Graph, u: User, r: Ref, f: nat)
    requires u !in g
    ensures UsersOf(g[u := r], f) == UsersOf(g, f) + (if f == r.frame then {u} else {})
    ensures |UsersOf(g[u := r], f)| == |UsersOf(g, f)| + (if f == r.frame then 1 else 0)
  {
    assert UsersOf(g[u := r], f) == UsersOf(g, f) + (if f == r.frame then {u} else {});
  }

  lemma DropUsers(g: Graph, u: User, f: nat)
    requires u in g
    ensures UsersOf(g - {u}, f) == UsersOf(g, f) - (if f == g[u].frame then {u} else {})
    ensures |UsersOf(g - {u}, f)| == |UsersOf(g, f)| - (if f == g[u].frame then 1 else 0)
  {
    assert UsersOf(g - {u}, f) == UsersOf(g, f) - (if f == g[u].frame then {u} else {});
    assert f == g[u].frame ==> u in UsersOf(g, f);
  }

  lemma CountsAfterAdd(g: Graph, mm: seq<Byte>, lo: nat, hi: nat, u: User, r: Ref)
    requires Counted(g, mm, lo, hi) && u !in g && Managed(lo, hi, r.frame)
    requires |UsersOf(g, r.frame)| + 1 < 256
    ensures mm[r.frame - LOW] as int == |UsersOf(g, r.frame)|
    ensures Counted(g[u := r], mm[r.frame - LOW := mm[r.frame - LOW] + 1], lo, hi)
  {
    assert mm[r.frame - LOW] as int == |UsersOf(g, r.frame - LOW + LOW)|;
    forall f: nat { AddUsers(g, u, r, f); }
  }

  lemma CountsAfterDrop(g: Graph, mm: seq<Byte>, lo: nat, hi: nat, u: User)
    requires Counted(g, mm, lo, hi) && u in g && Managed(lo, hi, g[u].frame)
    ensures mm[g[u].frame - LOW] as int == |UsersOf(g, g[u].frame)| > 0
    ensures Counted(g - {u}, mm[g[u].frame - LOW := mm[g[u].frame - LOW] - 1], lo, hi)
  {
    assert u in UsersOf(g, g[u].frame);
    assert mm[g[u].frame - LOW] as int == |UsersOf(g, g[u].frame - LOW + LOW)|;
    forall f: nat { DropUsers(g, u, f); }
  }

  /** The users of r.frame, all of them, may share it with u. */
  ghost predicate MayJoin(g: Graph, u: User, r: Ref) {
    r.frame < LOW || forall v | v in g && g[v].frame == r.frame :: SamePlace(u, v) && !g[v].rw && !r.rw
  }

  lemma AddRef(g: Graph, mm: seq<Byte>, lo: nat, hi: nat, u: User, r: Ref)
    requires Sound(g, mm, lo, hi) && u !in g && PlacedRef(u, r, lo, hi)
    requires u.Entry? || u.Table? ==> 16 <= u.d < 1024
    requires MayJoin(g, u, r)
    ensures if r.frame < LOW then Sound(g[u := r], mm, lo, hi)
            else mm[r.frame - LOW] < 63 && Sound(g[u := r], mm[r.frame - LOW := mm[r.frame - LOW] + 1], lo, hi)
  {
    var h := g[u := r];
    assert forall v | v in h && v != u :: v in g && h[v] == g[v];
    assert Placed(h, lo, hi);
    assert Sharing(h);
    if LOW <= r.frame {
      CountBound(g, lo, hi, r.frame);
      CountsAfterAdd(g, mm, lo, hi, u, r);
      CountBound(h, lo, hi, r.frame);
      AddUsers(g, u, r, r.frame);
    } else {
      forall f: nat { AddUsers(g, u, r, f); }
    }
  }

  lemma DropRef(g: Graph, mm: seq<Byte>, lo: nat, hi: nat, u: User)
    requires Sound(g, mm, lo, hi) && u in g
    ensures var f := g[u].frame;
            if f < LOW then Sound(g - {u}, mm, lo, hi)
            else mm[f - LOW] > 0 && Sound(g - {u}, mm[f - LOW := mm[f - LOW] - 1], lo, hi)
  {
    var h := g - {u};
    assert forall v | v in h :: v in g && h[v] == g[v];
    assert Placed(h, lo, hi);
    assert Sharing(h);
    if LOW <= g[u].frame {
      CountsAfterDrop(g, mm, lo, hi, u);
    } else {
      forall f: nat { DropUsers(g, u, f); }
    }
  }

  lemma Relabel(g: Graph, mm: seq<Byte>, lo: nat, hi: nat, u: User, rw: bool)
    requires Sound(g, mm, lo, hi) && u in g
    requires rw && !g[u].rw ==> LOW <= g[u].frame && mm[g[u].frame - LOW] == 1
    ensures Sound(g[u := g[u].(rw := rw)], mm, lo, hi)
  {
    var h := g[u := g[u].(rw := rw)];
    assert forall v :: v in h <==> v in g;
    forall f: nat ensures UsersOf(h, f) == UsersOf(g, f) {}
    if rw && !g[u].rw {
      assert mm[g[u].frame - LOW] as int == |UsersOf(g, g[u].frame - LOW + LOW)|;
      CountOne(g, u);
      forall v | v in g && v != u ensures g[v].frame != g[u].frame {
        assert v in UsersOf(g, g[u].frame) <==> g[v].frame == g[u].frame;
      }
    }
  }

  /** The sole reference to a frame moves from u to v; its count stays 1. */
  lemma MoveRef(g: Graph, mm: seq<Byte>, lo: nat, hi: nat, u: User, v: User)
    requires Sound(g, mm, lo, hi) && u in g && v !in g && !u.Entry? && g[u].rw
    requires v.Entry? || v.Table? ==> 16 <= v.d < 1024
    ensures Sound((g - {u})[v := g[u]], mm, lo, hi)
  {
    var f := g[u].frame;
    assert PlacedRef(u, g[u], lo, hi);
    SoleUser(g, u);
    DropRef(g, mm, lo, hi, u);
    var mm' := mm[f - LOW := mm[f - LOW] - 1];
    assert MayJoin(g - {u}, v, g[u]) by {
      forall w | w in g && w != u ensures g[w].frame != f {
        assert w !in UsersOf(g, f);
      }
    }
    AddRef(g - {u}, mm', lo, hi, v, g[u]);
    assert mm'[f - LOW := mm'[f - LOW] + 1] == mm;
  }

  /** The sole reference to a frame goes away and its count becomes 0. */
  lemma DropSole(g: Graph, mm: seq<Byte>, lo: nat, hi: nat, u: User)
    requires Sound(g, mm, lo, hi) && u in g && !u.Entry? && g[u].rw
    ensures Managed(lo, hi, g[u].frame)
    ensures Sound(g - {u}, mm[g[u].frame - LOW := 0], lo, hi)
  {
    var f := g[u].frame;
    assert PlacedRef(u, g[u], lo, hi);
    SoleUser(g, u);
    assert mm[f - LOW] as int == |UsersOf(g, f - LOW + LOW)|;
    DropRef(g, mm, lo, hi, u);
  }
}
