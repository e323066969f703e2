/** kernel/blk_drv/ll_rw_blk.cc and end_request of blk.h: 32 request slots shared by seven devices, each device
    with a linked queue of the slots it still has to serve. */
module BlockRequests {
  import opened Links
  import opened Elevator
  import Linked

  const NR_REQUEST: nat := 32
  const NR_BLK_DEV: nat := 7
  const READ: nat := 0
  const WRITE: nat := 1
  const READA: nat := 2
  const WRITEA: nat := 3

  function Major(dev: nat): nat { dev / 256 }

  /** The request table; dev is -1 in a free slot.  current holds the head of each device's queue. */
  datatype Table = Table(dev: seq<int>, cmd: seq<nat>, sector: seq<nat>, bh: seq<nat>, next: seq<int>, current: seq<int>)

  /** What the driver sees of the buffers. */
  datatype Buffers = Buffers(dev: seq<nat>, blk: seq<nat>, lock: seq<bool>, dirt: seq<bool>, uptodate: seq<bool>)

  predicate Shape(t: Table, b: Buffers) {
    && |t.dev| == |t.cmd| == |t.sector| == |t.bh| == |t.next| == NR_REQUEST && |t.current| == NR_BLK_DEV
    && |b.dev| == |b.blk| == |b.lock| == |b.dirt| == |b.uptodate|
  }

  predicate Used(t: Table, i: nat) {
    i < |t.dev| && t.dev[i] >= 0
  }

  function KeyOf(t: Table, i: nat): (k: Key) {
    if Used(t, i) && |t.cmd| == |t.sector| == |t.dev| then Key(t.cmd[i], t.dev[i], t.sector[i]) else Key(0, 0, 0)
  }

  function KeysOf(t: Table, q: seq<nat>): (k: seq<Key>)
    ensures |k| == |q|
  {
    seq(|q|, j requires 0 <= j < |q| => KeyOf(t, q[j]))
  }

  /** Every slot in use is on the queue of its device and on no other. */
  ghost predicate Queued(t: Table, qs: seq<seq<nat>>) {
    && |t.dev| == |t.next| && |t.current| == |qs| == NR_BLK_DEV
    && (forall m | 0 <= m < NR_BLK_DEV :: Linked.List(qs[m], t.current[m], t.next, -1))
    && (forall m: nat, i: nat | m < NR_BLK_DEV :: i in qs[m] <==> Used(t, i) && Major(t.dev[i]) == m)
    && (forall i: nat | Used(t, i) :: Major(t.dev[i]) < NR_BLK_DEV)
  }

  /** A slot in use stands for a transfer of its locked buffer; writes use only the lower two thirds. */
  predicate SlotOk(t: Table, b: Buffers, i: nat)
    requires Shape(t, b) && Used(t, i)
  {
    && t.bh[i] < |b.lock| && b.lock[t.bh[i]] && t.dev[i] == b.dev[t.bh[i]] && t.sector[i] == 2 * b.blk[t.bh[i]]
    && (t.cmd[i] == READ || (t.cmd[i] == WRITE && i < 21))
  }

  ghost predicate SlotsOk(t: Table, b: Buffers)
    requires Shape(t, b)
  {
    && (forall i: nat | Used(t, i) :: SlotOk(t, b, i))
    && (forall i: nat, j: nat | Used(t, i) && Used(t, j) && t.bh[i] == t.bh[j] :: i == j)
  }

  /** No two buffers stand for the same block of a device. */
  ghost predicate OneEach(b: Buffers) {
    && |b.blk| == |b.dev|
    && forall x: nat, y: nat | x < |b.dev| && y < |b.dev| && b.dev[x] == b.dev[y] && b.blk[x] == b.blk[y]
                               && b.dev[x] != 0 :: x == y
  }

  ghost predicate InSweep(t: Table, qs: seq<seq<nat>>) {
    |qs| == NR_BLK_DEV && forall m | 0 <= m < NR_BLK_DEV :: Descents(KeysOf(t, qs[m])) <= 1
  }

  ghost predicate Inv(t: Table, b: Buffers, qs: seq<seq<nat>>) {
    Shape(t, b) && Queued(t, qs) && SlotsOk(t, b) && OneEach(b) && InSweep(t, qs)
  }

  /** The task that locked buffer x has not queued it yet. */
  ghost predicate Held(t: Table, b: Buffers, x: nat) {
    Shape(t, b) && x < |b.lock| && b.lock[x] && forall i: nat | Used(t, i) :: t.bh[i] != x
  }

  /** The request of a buffer nobody has queued differs from all queued ones. */
  lemma KeyIsNew(t: Table, b: Buffers, qs: seq<seq<nat>>, m: nat, x: nat, k: Key)
    requires Inv(t, b, qs) && m < NR_BLK_DEV && Held(t, b, x) && b.dev[x] != 0
    requires k.dev == b.dev[x] && k.sector == 2 * b.blk[x]
    ensures k !in KeysOf(t, qs[m])
  {
    hide Linked.List, InSweep;
    forall j | 0 <= j < |qs[m]| ensures KeysOf(t, qs[m])[j] != k {
      var i := qs[m][j];
      assert i in qs[m] && SlotOk(t, b, i);
    }
  }

  /** Filling slot i and linking it into the queue of device m. */
  function Fill(t: Table, i: nat, dev: nat, cmd: nat, sector: nat, x: nat): Table
    requires i < |t.dev| == |t.cmd| == |t.sector| == |t.bh| == |t.next|
  {
    t.(dev := t.dev[i := dev], cmd := t.cmd[i := cmd], sector := t.sector[i := sector], bh := t.bh[i := x], next := t.next[i := -1])
  }

  ghost function QueueWith(t: Table, q: seq<nat>, i: nat, k: Key): (r: seq<nat>)
  {
    if q == [] then [i] else Linked.InsertedAfter(q, Place(KeysOf(t, q), k), i)
  }

  lemma KeysWith(t: Table, r: Table, q: seq<nat>, i: nat, k: Key)
    requires KeyOf(r, i) == k && forall j: nat | j in q :: KeyOf(r, j) == KeyOf(t, j)
    ensures forall j :: j in QueueWith(t, q, i, k) <==> j in q || j == i
    ensures KeysOf(r, QueueWith(t, q, i, k)) == Added(KeysOf(t, q), k)
  {
    var w := QueueWith(t, q, i, k);
    if q != [] {
      var p := Place(KeysOf(t, q), k);
      assert q == q[..p + 1] + q[p + 1..];
      assert forall j | 0 <= j < |q| :: q[j] in q;
      hide Place;
      assert KeysOf(r, w) == Added(KeysOf(t, q), k);
    }
  }

  lemma KeysSame(t: Table, r: Table, q: seq<nat>)
    requires forall j | j in q :: KeyOf(r, j) == KeyOf(t, j)
    ensures KeysOf(r, q) == KeysOf(t, q)
  {
    assert forall j | 0 <= j < |q| :: q[j] in q;
  }

  /** add_request with slot i: behind slot Place of the queue, or as the current request of an idle device. */
  function Linkup(t: Table, q: seq<nat>, m: nat, i: nat, k: Key): Table
    requires m < |t.current| && i < |t.next| && forall j | j in q :: j < |t.next|
  {
    if q == [] then t.(current := t.current[m := i]) else
      var tmp := q[Place(KeysOf(t, q), k)];
      assert tmp in q;
      t.(next := t.next[i := t.next[tmp]][tmp := i])
  }

  lemma AloneList(i: nat, next: seq<int>)
    requires i < |next| && next[i] == -1
    ensures Linked.List([i], i, next, -1)
  {
  }

  lemma QueueOne(t: Table, f: Table, q: seq<nat>, m: nat, i: nat, k: Key)
    requires |t.next| == |f.next| && m < |t.current| && f.current == t.current && i < |t.next| && i !in q
    requires Linked.List(q, t.current[m], t.next, -1) && f.next == t.next[i := -1]
    requires KeyOf(f, i) == k && forall j: nat | j in q :: KeyOf(f, j) == KeyOf(t, j)
    ensures forall j | j in q :: j < |f.next|
    ensures var r := Linkup(f, q, m, i, k);
            && |r.next| == |t.next| && Linked.List(QueueWith(t, q, i, k), r.current[m], r.next, -1)
            && forall j: nat | j < |t.next| && j !in q && j != i :: r.next[j] == t.next[j]
  {
    hide KeyOf;
    KeysSame(t, f, q);
    var r := Linkup(f, q, m, i, k);
    if q == [] {
      AloneList(i, r.next);
    } else {
      hide Linked.List;
      var p := Place(KeysOf(t, q), k);
      Linked.LinkAfter(q, t.current[m], t.next, -1, p, i);
      assert q[p] in q;
      assert r.next == t.next[i := t.next[q[p]]][q[p] := i];
    }
  }

  lemma QueuesOk(t: Table, f: Table, qs: seq<seq<nat>>, m: nat, i: nat, k: Key)
    requires Queued(t, qs) && m < NR_BLK_DEV && i < |t.dev| && t.dev[i] < 0
    requires |f.dev| == |f.next| == |t.dev| && f.current == t.current && f.next == t.next[i := -1]
    requires f.dev == t.dev[i := k.dev] && Major(k.dev) == m
    requires KeyOf(f, i) == k && forall j: nat | j != i :: KeyOf(f, j) == KeyOf(t, j)
    ensures forall j | j in qs[m] :: j < |f.next|
    ensures Queued(Linkup(f, qs[m], m, i, k), qs[m := QueueWith(t, qs[m], i, k)])
  {
    hide Linked.List, QueueWith, KeyOf;
    OnlyQueue(t, qs, m, i);
    assert Linked.List(qs[m], t.current[m], t.next, -1);
    QueueOne(t, f, qs[m], m, i, k);
    KeysWith(t, f, qs[m], i, k);
    var r, w := Linkup(f, qs[m], m, i, k), qs[m := QueueWith(t, qs[m], i, k)];
    LinkupKeeps(f, qs[m], m, i, k);
    hide Linkup;
    forall g: nat | g < NR_BLK_DEV && g != m ensures Linked.List(qs[g], r.current[g], r.next, -1) {
      assert Linked.List(qs[g], t.current[g], t.next, -1);
      forall x | x in qs[g] ensures x < |t.next| && x !in qs[m] && x != i {
        OnlyQueue(t, qs, g, x);
        OnlyQueue(t, qs, m, x);
      }
      Linked.Frame(qs[g], t.current[g], t.next, r.next, -1);
    }
    forall g: nat, j: nat | g < NR_BLK_DEV ensures j in w[g] <==> Used(r, j) && Major(r.dev[j]) == g {
      OnlyQueue(t, qs, g, j);
    }
  }

  lemma FillOk(t: Table, b: Buffers, i: nat, cmd: nat, x: nat, r: Table)
    requires Shape(t, b) && Shape(r, b) && SlotsOk(t, b) && i < NR_REQUEST && t.dev[i] < 0 && Held(t, b, x)
    requires cmd == READ || (cmd == WRITE && i < 21)
    requires r.dev == t.dev[i := b.dev[x]] && r.bh == t.bh[i := x] && r.cmd == t.cmd[i := cmd]
    requires r.sector == t.sector[i := 2 * b.blk[x]]
    ensures SlotsOk(r, b.(dirt := b.dirt[x := false]))
    ensures forall y | y != x && Held(t, b, y) :: Held(r, b.(dirt := b.dirt[x := false]), y)
  {
    assert forall j: nat :: Used(r, j) <==> Used(t, j) || j == i;
    forall j: nat | Used(t, j) ensures SlotOk(r, b, j) && t.bh[j] != x {
      assert SlotOk(t, b, j);
    }
  }

  lemma SweepOk(t: Table, r: Table, qs: seq<seq<nat>>, m: nat, i: nat, k: Key)
    requires InSweep(t, qs) && m < NR_BLK_DEV && k !in KeysOf(t, qs[m])
    requires KeyOf(r, i) == k && forall j: nat | j != i :: KeyOf(r, j) == KeyOf(t, j)
    requires forall g | 0 <= g < NR_BLK_DEV :: i !in qs[g]
    ensures var w := qs[m := QueueWith(t, qs[m], i, k)];
            && InSweep(r, w) && KeysOf(r, w[m]) == Added(KeysOf(t, qs[m]), k)
            && (forall g | 0 <= g < NR_BLK_DEV && g != m :: KeysOf(r, w[g]) == KeysOf(t, qs[g]))
  {
    hide QueueWith, Descents, KeyOf;
    KeysWith(t, r, qs[m], i, k);
    AddKeepsOrder(KeysOf(t, qs[m]), k);
    hide KeysOf;
    forall g | 0 <= g < NR_BLK_DEV && g != m ensures KeysOf(r, qs[g]) == KeysOf(t, qs[g]) {
      KeysSame(t, r, qs[g]);
    }
  }

  /** Queueing held buffer x keeps every queue within one descent and leaves other held buffers held. */
  lemma EnqueueOk(t: Table, b: Buffers, qs: seq<seq<nat>>, m: nat, i: nat, cmd: nat, x: nat)
    requires Inv(t, b, qs) && m < NR_BLK_DEV && i < NR_REQUEST && t.dev[i] < 0 && Held(t, b, x)
    requires b.dev[x] != 0 && Major(b.dev[x]) == m && (cmd == READ || (cmd == WRITE && i < 21))
    ensures var k := Key(cmd, b.dev[x], 2 * b.blk[x]);
            var f := Fill(t, i, k.dev, cmd, k.sector, x);
            && (forall j | j in qs[m] :: j < |f.next|)
            && var r, w := Linkup(f, qs[m], m, i, k), qs[m := QueueWith(t, qs[m], i, k)];
               && Inv(r, b.(dirt := b.dirt[x := false]), w)
               && KeysOf(r, w[m]) == Added(KeysOf(t, qs[m]), k)
               && (forall g | 0 <= g < NR_BLK_DEV && g != m :: KeysOf(r, w[g]) == KeysOf(t, qs[g]))
               && (forall y | y != x && Held(t, b, y) :: Held(r, b.(dirt := b.dirt[x := false]), y))
  {
    var k := Key(cmd, b.dev[x], 2 * b.blk[x]);
    var f := Fill(t, i, k.dev, cmd, k.sector, x);
    hide Linked.List, QueueWith, Descents, KeysOf, SlotsOk, Held, InSweep;
    KeyIsNew(t, b, qs, m, x, k);
    QueuesOk(t, f, qs, m, i, k);
    var r := Linkup(f, qs[m], m, i, k);
    LinkupKeeps(f, qs[m], m, i, k);
    SweepOk(t, r, qs, m, i, k);
    FillOk(t, b, i, cmd, x, r);
  }

  lemma LinkupKeeps(f: Table, q: seq<nat>, m: nat, i: nat, k: Key)
    requires m < |f.current| && i < |f.next| && forall j | j in q :: j < |f.next|
    ensures var r := Linkup(f, q, m, i, k);
            && r.dev == f.dev && r.cmd == f.cmd && r.sector == f.sector && r.bh == f.bh
            && |r.next| == |f.next| && |r.current| == |f.current|
            && forall g | 0 <= g < |f.current| && g != m :: r.current[g] == f.current[g]
  {
    if q != [] {
      assert q[Place(KeysOf(f, q), k)] in q;
    }
  }

  // ---- end_request ---------------------------------------------------------------------------------

  function Served(t: Table, m: nat, i: nat): Table
    requires m < |t.current| && i < |t.dev| == |t.next|
  {
    t.(dev := t.dev[i := -1], current := t.current[m := t.next[i]])
  }

  function Finished(b: Buffers, x: nat, uptodate: bool): Buffers
    requires x < |b.lock| == |b.uptodate|
  {
    b.(lock := b.lock[x := false], uptodate := b.uptodate[x := uptodate])
  }

  /** Request i is done: its slot is free, its buffer unlocked and up to date or not as the driver says; no other slot
      and no other bit of a buffer has changed. */
  ghost predicate DoneWith(t: Table, b: Buffers, r: Table, c: Buffers, i: nat, uptodate: bool) {
    && Shape(t, b) && Shape(r, c) && Used(t, i) && t.bh[i] < |b.lock| == |c.lock|
    && !c.lock[t.bh[i]] && c.uptodate[t.bh[i]] == uptodate
    && c.dev == b.dev && c.blk == b.blk && c.dirt == b.dirt
    && (forall y: nat | y < |b.lock| && y != t.bh[i] :: c.lock[y] == b.lock[y] && c.uptodate[y] == b.uptodate[y])
    && !Used(r, i) && r.cmd == t.cmd && r.sector == t.sector && r.bh == t.bh
    && (forall j: nat | j < NR_REQUEST && j != i :: r.dev[j] == t.dev[j])
  }

  lemma ServedDone(t: Table, b: Buffers, m: nat, i: nat, uptodate: bool)
    requires Shape(t, b) && m < NR_BLK_DEV && Used(t, i) && t.bh[i] < |b.lock|
    ensures DoneWith(t, b, Served(t, m, i), Finished(b, t.bh[i], uptodate), i, uptodate)
  {
  }

  lemma FirstIs(t: Table, qs: seq<seq<nat>>, m: nat)
    requires Queued(t, qs) && m < NR_BLK_DEV && qs[m] != []
    ensures |t.dev| == |t.next| && |qs| == |t.current| == NR_BLK_DEV
    ensures var q := qs[m];
            && q[0] == t.current[m] && Used(t, q[0]) && Linked.List(q[1..], t.next[q[0]], t.next, -1)
            && forall x :: x in q[1..] <==> x in q && x != q[0]
  {
    var q := qs[m];
    assert Linked.List(q, t.current[m], t.next, -1) && q[0] in q;
    Linked.Pop(q, t.current[m], t.next, -1);
    assert q == [q[0]] + q[1..];
    hide Linked.List;
  }

  lemma QueueIs(t: Table, qs: seq<seq<nat>>, g: nat)
    requires Queued(t, qs) && g < NR_BLK_DEV
    ensures Linked.List(qs[g], t.current[g], t.next, -1)
    ensures forall i: nat | Used(t, i) :: Major(t.dev[i]) < NR_BLK_DEV
  {
  }

  lemma ServedQueues(t: Table, qs: seq<seq<nat>>, m: nat)
    requires Queued(t, qs) && m < NR_BLK_DEV && qs[m] != []
    ensures var i := qs[m][0];
            && i == t.current[m] && Used(t, i) && i !in qs[m][1..] && |t.dev| == |t.next| && m < |t.current|
            && Queued(Served(t, m, i), qs[m := qs[m][1..]])
  {
    hide Linked.List, Queued, Major;
    FirstIs(t, qs, m);
    var q := qs[m];
    var r, w := Served(t, m, q[0]), qs[m := q[1..]];
    forall g: nat, i: nat | g < NR_BLK_DEV ensures i in w[g] <==> Used(r, i) && Major(r.dev[i]) == g {
      OnlyQueue(t, qs, g, i);
      OnlyQueue(t, qs, m, q[0]);
      assert q[0] in q;
      if g == m { assert i in q[1..] <==> i in q && i != q[0]; }
    }
    forall g: nat | g < NR_BLK_DEV ensures Linked.List(w[g], r.current[g], r.next, -1) {
      QueueIs(t, qs, g);
    }
    QueueIs(t, qs, m);
    QueuedFrom(r, w);
  }

  lemma QueuedFrom(r: Table, w: seq<seq<nat>>)
    requires |r.dev| == |r.next| && |r.current| == |w| == NR_BLK_DEV
    requires forall g: nat | g < NR_BLK_DEV :: Linked.List(w[g], r.current[g], r.next, -1)
    requires forall g: nat, i: nat | g < NR_BLK_DEV :: i in w[g] <==> Used(r, i) && Major(r.dev[i]) == g
    requires forall i: nat | Used(r, i) :: Major(r.dev[i]) < NR_BLK_DEV
    ensures Queued(r, w)
  {
    hide Linked.List, Major;
  }

  lemma OnlyQueue(t: Table, qs: seq<seq<nat>>, g: nat, i: nat)
    requires Queued(t, qs) && g < NR_BLK_DEV
    ensures i in qs[g] <==> Used(t, i) && Major(t.dev[i]) == g
  {
  }

  /** end_request: the first request is done, its slot free, its buffer unlocked; nothing else moves. */
  lemma ServeOk(t: Table, b: Buffers, qs: seq<seq<nat>>, m: nat, uptodate: bool)
    requires Inv(t, b, qs) && m < NR_BLK_DEV && qs[m] != []
    ensures var i := qs[m][0];
            && Used(t, i) && t.bh[i] < |b.lock|
            && var r, c, w := Served(t, m, i), Finished(b, t.bh[i], uptodate), qs[m := qs[m][1..]];
               && Inv(r, c, w) && KeysOf(r, w[m]) == KeysOf(t, qs[m])[1..]
               && (forall g | 0 <= g < NR_BLK_DEV && g != m :: KeysOf(r, w[g]) == KeysOf(t, qs[g]))
               && (forall y | Held(t, b, y) :: Held(r, c, y))
  {
    hide Linked.List, Descents, Queued;
    ServedQueues(t, qs, m);
    var i := qs[m][0];
    assert SlotOk(t, b, i);
    var r, c, w := Served(t, m, i), Finished(b, t.bh[i], uptodate), qs[m := qs[m][1..]];
    ServedKeys(t, qs, m);
    forall j: nat | Used(r, j) ensures SlotOk(r, c, j) {
      assert SlotOk(t, b, j);
    }
    assert SlotsOk(r, c);
  }

  lemma ServedKeys(t: Table, qs: seq<seq<nat>>, m: nat)
    requires Queued(t, qs) && InSweep(t, qs) && m < NR_BLK_DEV && qs[m] != []
    ensures var i := qs[m][0];
            && i < |t.dev| == |t.next|
            && var r, w := Served(t, m, i), qs[m := qs[m][1..]];
               && InSweep(r, w) && KeysOf(r, w[m]) == KeysOf(t, qs[m])[1..]
               && (forall g | 0 <= g < NR_BLK_DEV && g != m :: KeysOf(r, w[g]) == KeysOf(t, qs[g]))
  {
    ServedQueues(t, qs, m);
    hide Linked.List;
    var q := qs[m];
    var i := q[0];
    assert i in q;
    var r := Served(t, m, i);
    KeysSame(t, r, q[1..]);
    assert KeysOf(t, q[1..]) == KeysOf(t, q)[1..];
    assert Descents(KeysOf(t, q)) <= 1;
    forall g | 0 <= g < NR_BLK_DEV && g != m ensures KeysOf(r, qs[g]) == KeysOf(t, qs[g]) {
      assert i !in qs[g];
      KeysSame(t, r, qs[g]);
    }
  }

  predicate SlotFree(t: Table, cmd: nat) {
    |t.dev| == NR_REQUEST && exists i :: 0 <= i < (if cmd == READ then 32 else 21) && t.dev[i] < 0
  }

  datatype Outcome = InQueue(slot: nat) | NotNeeded | NoSlot | StillWaiting

  class Devices {
    var t: Table
    var b: Buffers
    ghost var qs: seq<seq<nat>>

    ghost predicate Valid()
      reads this
    {
      Inv(t, b, qs)
    }

    /** The requests device m still has to serve, in order. */
    ghost function Queue(m: nat): (q: seq<Key>)
      reads this
    {
      if m < |qs| then KeysOf(t, qs[m]) else []
    }

    constructor (buffers: Buffers)
      requires |buffers.dev| == |buffers.lock| == |buffers.dirt| == |buffers.uptodate| && OneEach(buffers)
      ensures Valid() && b == buffers && forall m :: Queue(m) == []
    {
      t := Table(seq(32, i => -1), seq(32, i => 0), seq(32, i => 0), seq(32, i => 0), seq(32, i => -1), seq(7, m => -1));
      b := buffers;
      qs := seq(7, m => []);
    }

    /** The search of make_request: the highest free slot, among the lower two thirds for a write. */
    method FindSlot(rw: nat) returns (i: int)
      requires Valid()
      ensures -1 <= i < (if rw == READ then 32 else 21) && (i >= 0 ==> t.dev[i] < 0)
      ensures i == -1 ==> forall j | 0 <= j < (if rw == READ then 32 else 21) :: t.dev[j] >= 0
    {
      i := if rw == READ then 32 else NR_REQUEST * 2 / 3;
      i := i - 1;
      while i >= 0 && t.dev[i] >= 0
        invariant -1 <= i < (if rw == READ then 32 else 21)
        invariant forall j | i < j < (if rw == READ then 32 else 21) :: t.dev[j] >= 0
      {
        i := i - 1;
      }
    }

    /** The loop of add_request: the slot behind which slot i belongs. */
    method FindPlace(m: nat, i: nat, ghost q: seq<nat>) returns (tmp: nat)
      requires m < |t.current| && q != [] && Linked.List(q, t.current[m], t.next, -1)
      ensures tmp == q[Place(KeysOf(t, q), KeyOf(t, i))] && tmp in q
    {
      assert t.current[m] == q[0];
      ghost var k, keys := KeyOf(t, i), KeysOf(t, q);
      assert forall j | 0 <= j < |q| :: keys[j] == KeyOf(t, q[j]);
      hide KeyOf, KeysOf, Stops, InOrder, Place, Linked.List, Distinct;
      tmp := t.current[m];
      ghost var p := 0;
      Linked.Link(q, t.current[m], t.next, -1, 0);
      while t.next[tmp] != -1
        invariant 0 <= p < |q| && tmp == q[p] && tmp < |t.next| && t.next[tmp] == Linked.NextOf(q, p + 1, -1)
        invariant forall j | 0 <= j < p :: !Stops(keys[j], k, keys[j + 1])
        decreases |q| - p
      {
        var nx := t.next[tmp];
        if Stops(KeyOf(t, tmp), KeyOf(t, i), KeyOf(t, nx)) {
          PlaceIs(keys, k, p);
          return;
        }
        tmp := nx;
        p := p + 1;
        Linked.Link(q, t.current[m], t.next, -1, p);
      }
      PlaceIs(keys, k, p);
    }

    /** The end of make_request and add_request, which run without a sleep between them. */
    method AddRequest(m: nat, i: nat, cmd: nat, x: nat)
      requires Valid() && m < NR_BLK_DEV && i < NR_REQUEST && t.dev[i] < 0 && Held(t, b, x)
      requires b.dev[x] != 0 && Major(b.dev[x]) == m && (cmd == READ || (cmd == WRITE && i < 21))
      modifies this
      ensures Valid() && Used(t, i) && t.bh[i] == x && b == old(b).(dirt := old(b.dirt)[x := false])
      ensures KeyOf(t, i) == Key(cmd, b.dev[x], 2 * b.blk[x])
      ensures Queue(m) == Added(old(Queue(m)), Key(cmd, old(b.dev[x]), 2 * old(b.blk[x])))
      ensures forall g: nat | g != m :: Queue(g) == old(Queue(g))
      ensures forall y | y != x && old(Held(t, b, y)) :: Held(t, b, y)
    {
      hide Descents, SlotsOk, InSweep, OneEach, KeysOf, Place, Linked.List, Queued, Major, QueueWith, KeyOf;
      AddFacts(m, i, cmd, x);
      hide Held, Inv;
      ghost var q, was, k := qs[m], t, Key(cmd, b.dev[x], 2 * b.blk[x]);
      t := Fill(t, i, b.dev[x], cmd, 2 * b.blk[x], x);
      b := b.(dirt := b.dirt[x := false]);
      if t.current[m] == -1 {
        t := t.(current := t.current[m := i]);
      } else {
        var tmp := FindPlace(m, i, q);
        t := t.(next := t.next[i := t.next[tmp]][tmp := i]);
      }
      qs := qs[m := QueueWith(was, q, i, k)];
    }

    lemma AddFacts(m: nat, i: nat, cmd: nat, x: nat)
      requires Valid() && m < NR_BLK_DEV && i < NR_REQUEST && t.dev[i] < 0 && Held(t, b, x)
      requires b.dev[x] != 0 && Major(b.dev[x]) == m && (cmd == READ || (cmd == WRITE && i < 21))
      ensures Shape(t, b) && |qs| == NR_BLK_DEV
      ensures var k := Key(cmd, b.dev[x], 2 * b.blk[x]);
              var f, q := Fill(t, i, k.dev, cmd, k.sector, x), qs[m];
              && KeyOf(f, i) == k && KeysOf(f, q) == KeysOf(t, q) && (f.current[m] == -1 <==> q == [])
              && Linked.List(q, f.current[m], f.next, -1) && (forall j | j in q :: j < |f.next|)
              && var r, c, w := Linkup(f, q, m, i, k), b.(dirt := b.dirt[x := false]), qs[m := QueueWith(t, q, i, k)];
                 && Inv(r, c, w) && KeysOf(r, w[m]) == Added(KeysOf(t, q), k)
                 && Used(r, i) && r.bh[i] == x && KeyOf(r, i) == k
                 && (forall g | 0 <= g < NR_BLK_DEV && g != m :: KeysOf(r, w[g]) == KeysOf(t, qs[g]))
                 && (forall y | y != x && Held(t, b, y) :: Held(r, c, y))
    {
      hide Descents, SlotsOk, InSweep, OneEach, KeysOf, Place, Linked.List, QueueWith, Queued, Linkup;
      EnqueueOk(t, b, qs, m, i, cmd, x);
      FilledQueue(m, i, b.dev[x], cmd, 2 * b.blk[x], x);
      FilledKeys(m, i, b.dev[x], cmd, 2 * b.blk[x], x);
      ghost var f := Fill(t, i, b.dev[x], cmd, 2 * b.blk[x], x);
      LinkupKeeps(f, qs[m], m, i, KeyOf(f, i));
    }

    lemma FilledKeys(m: nat, i: nat, dev: nat, cmd: nat, sector: nat, x: nat)
      requires Shape(t, b) && Queued(t, qs) && m < NR_BLK_DEV && i < NR_REQUEST && t.dev[i] < 0
      ensures KeysOf(Fill(t, i, dev, cmd, sector, x), qs[m]) == KeysOf(t, qs[m])
      ensures |qs| == |t.current| == NR_BLK_DEV && forall j | j in qs[m] :: j < |t.next|
    {
      ghost var f := Fill(t, i, dev, cmd, sector, x);
      hide Linked.List;
      forall j: nat | j in qs[m] ensures KeyOf(f, j) == KeyOf(t, j) && j < |t.next| {
        OnlyQueue(t, qs, m, j);
      }
      hide Queued, KeysOf, KeyOf;
      KeysSame(t, f, qs[m]);
    }

    /** Filling a free slot does not touch the queue. */
    lemma FilledQueue(m: nat, i: nat, dev: nat, cmd: nat, sector: nat, x: nat)
      requires Shape(t, b) && Queued(t, qs) && m < NR_BLK_DEV && i < NR_REQUEST && t.dev[i] < 0
      ensures Linked.List(qs[m], t.current[m], Fill(t, i, dev, cmd, sector, x).next, -1)
      ensures t.current[m] == -1 <==> qs[m] == []
    {
      assert Linked.List(qs[m], t.current[m], t.next, -1);
      OnlyQueue(t, qs, m, i);
      Linked.Frame(qs[m], t.current[m], t.next, Fill(t, i, dev, cmd, sector, x).next, -1);
    }

    /** end_request */
    method EndRequest(m: nat, uptodate: bool)
      requires Valid() && m < NR_BLK_DEV && Queue(m) != []
      modifies this
      ensures Valid() && old(Shape(t, b)) && old(t.current[m]) >= 0 && DoneWith(old(t), old(b), t, b, old(t.current[m]), uptodate)
      ensures Valid() && Queue(m) == old(Queue(m))[1..] && forall g: nat | g != m :: Queue(g) == old(Queue(g))
      ensures forall y | old(Held(t, b, y)) :: Held(t, b, y)
    {
      hide Descents, SlotsOk, InSweep, OneEach;
      ServeOk(t, b, qs, m, uptodate);
      ServedQueues(t, qs, m);
      ServedDone(t, b, m, t.current[m], uptodate);
      hide DoneWith, Linked.List, Inv;
      var i := t.current[m];
      b := Finished(b, t.bh[i], uptodate);
      t := Served(t, m, i);
      qs := qs[m := qs[m][1..]];
    }

    /** sleep_on: interrupts and other tasks run.  They leave the identity of x, which the caller has counted,
        and what the caller has locked. */
    method Sleep(x: nat, ghost mine: bool)
      requires Valid() && x < |b.lock| && (mine ==> Held(t, b, x))
      modifies this
      ensures Valid() && x < |b.lock| == old(|b.lock|) && (mine ==> Held(t, b, x))
      ensures b.dev[x] == old(b.dev[x]) && b.blk[x] == old(b.blk[x])
    {
    }

    /** lock_buffer.  fuel bounds how often it is woken up in vain. */
    method LockBuffer(x: nat, fuel: nat) returns (ok: bool)
      requires Valid() && x < |b.lock|
      modifies this
      ensures Valid() && x < |b.lock| == old(|b.lock|) && (ok ==> Held(t, b, x))
      ensures b.dev[x] == old(b.dev[x]) && b.blk[x] == old(b.blk[x])
      ensures !old(b.lock[x]) ==> ok && t == old(t) && qs == old(qs) && b == old(b).(lock := old(b.lock)[x := true])
    {
      hide Descents, InSweep, Queued, OneEach;
      var left := fuel;
      while b.lock[x]
        invariant Valid() && x < |b.lock| == old(|b.lock|)
        invariant !old(b.lock[x]) ==> unchanged(this)
        invariant b.dev[x] == old(b.dev[x]) && b.blk[x] == old(b.blk[x])
        decreases left
      {
        if left == 0 { return false; }
        left := left - 1;
        Sleep(x, false);
      }
      LockKeeps(t, b, qs, x);
      b := b.(lock := b.lock[x := true]);
      ok := true;
    }

    method Unlock(x: nat)
      requires Valid() && Held(t, b, x)
      modifies this
      ensures Valid() && b == old(b).(lock := old(b.lock)[x := false]) && t == old(t) && qs == old(qs)
    {
      UnlockKeeps(t, b, qs, x);
      b := b.(lock := b.lock[x := false]);
    }

    /** The part of make_request from repeat on: a free slot, if need be after a sleep; -1 for none. */
    method GetSlot(cmd: nat, ahead: bool, x: nat, fuel: nat) returns (i: int)
      requires Valid() && Held(t, b, x) && (cmd == READ || cmd == WRITE)
      modifies this
      ensures Valid() && Held(t, b, x) && |b.lock| == old(|b.lock|)
      ensures b.dev[x] == old(b.dev[x]) && b.blk[x] == old(b.blk[x])
      ensures -1 <= i < (if cmd == READ then 32 else 21) && (i >= 0 ==> t.dev[i] < 0)
      ensures old(SlotFree(t, cmd)) ==> i >= 0 && unchanged(this)
      decreases fuel
    {
      i := FindSlot(cmd);
      if i >= 0 || ahead || fuel == 0 { return; }
      Sleep(x, true);
      i := GetSlot(cmd, ahead, x, fuel - 1);
    }

    /** make_request for a buffer the caller has counted. */
    method MakeRequest(rw: nat, x: nat, fuel: nat) returns (o: Outcome)
      requires Valid() && rw <= WRITEA && x < |b.lock| && b.dev[x] != 0 && Major(b.dev[x]) < NR_BLK_DEV
      modifies this
      ensures Valid() && x < |b.lock| == old(|b.lock|)
      ensures o.InQueue? ==> Used(t, o.slot) && t.bh[o.slot] == x
                             && KeyOf(t, o.slot) == Key(rw % 2, old(b.dev[x]), 2 * old(b.blk[x]))
      ensures o.NotNeeded? ==> (rw >= READA && old(b.lock[x]))
                               || (!b.lock[x] && if rw % 2 == WRITE then !b.dirt[x] else b.uptodate[x])
      ensures o.NoSlot? ==> rw >= READA && !b.lock[x]
      ensures !old(b.lock[x]) && old(SlotFree(t, rw % 2)) && (if rw % 2 == WRITE then old(b.dirt[x]) else !old(b.uptodate[x])) ==>
                o.InQueue?
                && b == old(b).(lock := old(b.lock)[x := true], dirt := old(b.dirt)[x := false])
                && Queue(Major(old(b.dev[x]))) == Added(old(Queue(Major(b.dev[x]))), Key(rw % 2, old(b.dev[x]), 2 * old(b.blk[x])))
    {
      hide Descents, InSweep, Queued, OneEach, SlotsOk, KeyOf, Place, InOrder;
      var ahead := rw == READA || rw == WRITEA;
      if ahead && b.lock[x] { return NotNeeded; }
      var cmd := if rw == READA then READ else if rw == WRITEA then WRITE else rw;
      var locked := LockBuffer(x, fuel);
      if !locked { return StillWaiting; }
      if (cmd == WRITE && !b.dirt[x]) || (cmd == READ && b.uptodate[x]) {
        Unlock(x);
        return NotNeeded;
      }
      var i := GetSlot(cmd, ahead, x, fuel);
      if i >= 0 {
        AddRequest(Major(b.dev[x]), i, cmd, x);
        return InQueue(i);
      }
      if !ahead { return StillWaiting; }
      Unlock(x);
      o := NoSlot;
    }
  }

  lemma LockKeeps(t: Table, b: Buffers, qs: seq<seq<nat>>, x: nat)
    requires Inv(t, b, qs) && x < |b.lock| && !b.lock[x]
    ensures Inv(t, b.(lock := b.lock[x := true]), qs) && Held(t, b.(lock := b.lock[x := true]), x)
  {
    forall i: nat | Used(t, i) ensures SlotOk(t, b.(lock := b.lock[x := true]), i) && t.bh[i] != x {
      assert SlotOk(t, b, i);
    }
  }

  lemma UnlockKeeps(t: Table, b: Buffers, qs: seq<seq<nat>>, x: nat)
    requires Inv(t, b, qs) && Held(t, b, x)
    ensures Inv(t, b.(lock := b.lock[x := false]), qs)
  {
    forall i: nat | Used(t, i) ensures SlotOk(t, b.(lock := b.lock[x := false]), i) {
      assert SlotOk(t, b, i);
    }
  }
}
