/** The order in which a block device serves its queue: kernel/blk_drv/blk.h IN_ORDER and the insertion rule of
    add_request in kernel/blk_drv/ll_rw_blk.cc, on the keys of the queued requests. */
module Elevator {

  datatype Key = Key(cmd: nat, dev: nat, sector: nat)

  /** IN_ORDER */
  predicate InOrder(a: Key, b: Key) {
    a.cmd < b.cmd || (a.cmd == b.cmd && (a.dev < b.dev || (a.dev == b.dev && a.sector < b.sector)))
  }

  /** How often the head of the disk has to go back when q is served in order. */
  function Descents(q: seq<Key>): nat {
    if |q| < 2 then 0 else (if InOrder(q[0], q[1]) then 0 else 1) + Descents(q[1..])
  }

  /** Reads before writes, then by device, and for one command and device by rising sectors. */
  ghost predicate Rises(q: seq<Key>) {
    forall i, j | 0 <= i < j < |q| ::
      q[i].cmd <= q[j].cmd && (q[i].cmd == q[j].cmd ==>
        q[i].dev <= q[j].dev && (q[i].dev == q[j].dev ==> q[i].sector < q[j].sector))
  }

  /** A queue without descents is one sweep. */
  lemma {:induction false} OneSweep(q: seq<Key>)
    requires Descents(q) == 0
    ensures Rises(q)
  {
    if |q| >= 2 {
      OneSweep(q[1..]);
      forall j | 0 < j < |q|
        ensures q[0].cmd <= q[j].cmd && (q[0].cmd == q[j].cmd ==> q[0].dev <= q[j].dev && (q[0].dev == q[j].dev ==> q[0].sector < q[j].sector))
      {
        assert q[1] == q[1..][0] && q[j] == q[1..][j - 1];
      }
      forall i, j | 0 < i < j < |q|
        ensures q[i].cmd <= q[j].cmd && (q[i].cmd == q[j].cmd ==> q[i].dev <= q[j].dev && (q[i].dev == q[j].dev ==> q[i].sector < q[j].sector))
      {
        assert q[i] == q[1..][i - 1] && q[j] == q[1..][j - 1];
      }
    }
  }

  /** A queue with at most one is two sweeps in a row. */
  lemma {:induction false} TwoSweeps(q: seq<Key>) returns (c: nat)
    requires Descents(q) <= 1
    ensures c <= |q| && Rises(q[..c]) && Rises(q[c..])
  {
    c := 0;
    if Descents(q) == 0 {
      OneSweep(q);
      assert q[0..] == q;
    } else if InOrder(q[0], q[1]) {
      var d := TwoSweeps(q[1..]);
      c := d + 1;
      assert q[1..][d..] == q[c..];
      if d == 0 {
        assert q[..1] == [q[0]];
      } else {
        RisesFrom(q, d);
      }
    } else {
      c := 1;
      OneSweep(q[1..]);
    }
  }

  lemma RisesFrom(q: seq<Key>, d: nat)
    requires 0 < d < |q| && InOrder(q[0], q[1]) && Rises(q[1..][..d])
    ensures Rises(q[..d + 1])
  {
    var r, s := q[1..][..d], q[..d + 1];
    forall i, j | 0 <= i < j < |s|
      ensures s[i].cmd <= s[j].cmd && (s[i].cmd == s[j].cmd ==> s[i].dev <= s[j].dev && (s[i].dev == s[j].dev ==> s[i].sector < s[j].sector))
    {
      assert s[j] == r[j - 1] && s[1] == r[0];
      if i > 0 { assert s[i] == r[i - 1]; }
    }
  }

  /** The test by which add_request stops behind a. */
  predicate Stops(a: Key, k: Key, b: Key) {
    (InOrder(a, k) || !InOrder(a, b)) && InOrder(k, b)
  }

  /** The element behind which add_request links the new request: the first where it stops, else the last. */
  function Place(q: seq<Key>, k: Key): (i: nat)
    requires q != []
    ensures i < |q| && (i + 1 < |q| ==> Stops(q[i], k, q[i + 1]))
    ensures forall j | 0 <= j < i :: !Stops(q[j], k, q[j + 1])
  {
    if |q| == 1 || Stops(q[0], k, q[1]) then 0 else 1 + Place(q[1..], k)
  }

  function InsertAt(q: seq<Key>, i: nat, k: Key): (r: seq<Key>)
    requires i < |q|
  {
    q[..i + 1] + [k] + q[i + 1..]
  }

  /** add_request */
  function Added(q: seq<Key>, k: Key): (r: seq<Key>) {
    if q == [] then [k] else InsertAt(q, Place(q, k), k)
  }

  lemma {:induction false} Split(q: seq<Key>, i: nat)
    requires i < |q|
    ensures Descents(q) == Descents(q[..i + 1]) + Descents(q[i..])
    decreases i
  {
    if i == 0 {
      assert q[0..] == q;
    } else {
      Split(q[1..], i - 1);
      assert q[1..][..i] == q[..i + 1][1..] && q[1..][i - 1..] == q[i..];
    }
  }

  lemma Pair(a: seq<Key>, x: Key, b: seq<Key>)
    requires b != []
    ensures Descents(a + [x] + b) == Descents(a + [x]) + (if InOrder(x, b[0]) then 0 else 1) + Descents(b)
  {
    var q := a + [x] + b;
    Split(q, |a|);
    assert q[..|a| + 1] == a + [x] && q[|a|..] == [x] + b && ([x] + b)[1..] == b;
  }

  /** Stopping between two requests never adds a descent, wherever it happens. */
  lemma StopKeeps(a: seq<Key>, x: Key, k: Key, b: seq<Key>)
    requires b != [] && Stops(x, k, b[0])
    ensures Descents(a + [x] + [k] + b) == Descents(a + [x] + b)
  {
    Pair(a, x, b);
    Pair(a, x, [k] + b);
    assert a + [x] + ([k] + b) == a + [x] + [k] + b && ([k] + b)[1..] == b;
  }

  /** A queue with at most one descent has at most one after another request was added. */
  lemma AddKeepsOrder(q: seq<Key>, k: Key)
    requires Descents(q) <= 1 && k !in q
    ensures Descents(Added(q, k)) <= 1
  {
    if q != [] {
      var i := Place(q, k);
      if i + 1 < |q| {
        StopKeeps(q[..i], q[i], k, q[i + 1..]);
        assert q[..i] + [q[i]] + q[i + 1..] == q && q[..i] + [q[i]] + [k] + q[i + 1..] == Added(q, k);
      } else {
        Pair(q[..i], q[i], [k]);
        assert q[..i] + [q[i]] == q && q[..i] + [q[i]] + [k] == Added(q, k);
        if !InOrder(q[i], k) { LastBelow(q, k); }
      }
    }
  }

  /** A request that goes to the end and below it found a queue without descents. */
  lemma {:induction false} LastBelow(q: seq<Key>, k: Key)
    requires q != [] && k !in q && !InOrder(q[|q| - 1], k)
    requires forall j | 0 <= j < |q| - 1 :: !Stops(q[j], k, q[j + 1])
    ensures Descents(q) == 0
    ensures forall j | 0 <= j < |q| :: !InOrder(q[j], k)
  {
    if |q| > 1 {
      LastBelow(q[1..], k);
      assert !InOrder(q[1], k) && q[1] != k;
      assert forall j | 1 <= j < |q| :: q[j] == q[1..][j - 1];
    }
  }

  // ---- waiting -------------------------------------------------------------------------------------

  datatype Event = Arrive(k: Key) | Serve

  /** The requests served from now on up to the one at place p, and after the events those still ahead of it:
      what it waits for, itself included. */
  function Ahead(q: seq<Key>, p: nat, events: seq<Event>): (a: seq<Key>)
    requires p < |q|
    decreases |events|
  {
    if events == [] then q[..p + 1] else
      match events[0]
      case Arrive(k) =>
        var i := Place(q, k);
        Ahead(InsertAt(q, i, k), if i < p then p + 1 else p, events[1..])
      case Serve =>
        if p == 0 then [q[0]] else [q[0]] + Ahead(q[1..], p - 1, events[1..])
  }

  lemma ArriveKeeps(s: seq<Key>, q: seq<Key>, p: nat, k: Key)
    requires p < |q|
    ensures var i := Place(q, k); var p' := if i < p then p + 1 else p;
            && InsertAt(q, i, k)[p'] == q[p]
            && Descents(s + InsertAt(q, i, k)[..p' + 1]) == Descents(s + q[..p + 1])
  {
    var i := Place(q, k);
    InsertedAt(q, i, k, p);
    if i < p {
      var b := q[i + 1..p + 1];
      StopKeeps(s + q[..i], q[i], k, b);
      Slices(s, q, i, p, k);
    } else {
      assert InsertAt(q, i, k)[..p + 1] == q[..p + 1];
    }
  }

  lemma Slices(s: seq<Key>, q: seq<Key>, i: nat, p: nat, k: Key)
    requires i < p < |q|
    ensures (s + q[..i]) + [q[i]] + [k] + q[i + 1..p + 1] == s + InsertAt(q, i, k)[..p + 2]
    ensures (s + q[..i]) + [q[i]] + q[i + 1..p + 1] == s + q[..p + 1]
  {
    assert q[..i] + [q[i]] + [k] + q[i + 1..p + 1] == InsertAt(q, i, k)[..p + 2];
    assert q[..i] + [q[i]] + q[i + 1..p + 1] == q[..p + 1];
  }

  lemma {:induction false} AheadFrom(s: seq<Key>, q: seq<Key>, p: nat, events: seq<Event>)
    requires p < |q|
    ensures Descents(s + Ahead(q, p, events)) == Descents(s + q[..p + 1])
    decreases |events|
  {
    if events != [] {
      match events[0]
      case Arrive(k) =>
        ArriveKeeps(s, q, p, k);
        var i := Place(q, k);
        AheadFrom(s, InsertAt(q, i, k), if i < p then p + 1 else p, events[1..]);
      case Serve =>
        hide Descents;
        if p == 0 {
          assert q[..1] == [q[0]];
        } else {
          AheadFrom(s + [q[0]], q[1..], p - 1, events[1..]);
          Regroup(s, q, p, Ahead(q[1..], p - 1, events[1..]));
        }
    }
  }

  lemma Regroup(s: seq<Key>, q: seq<Key>, p: nat, a: seq<Key>)
    requires 0 < p < |q|
    ensures s + [q[0]] + a == s + ([q[0]] + a) && s + [q[0]] + q[1..][..p] == s + q[..p + 1]
  {
  }

  lemma InsertedAt(q: seq<Key>, i: nat, k: Key, p: nat)
    requires i < |q| && p < |q|
    ensures |InsertAt(q, i, k)| == |q| + 1 && InsertAt(q, i, k)[if i < p then p + 1 else p] == q[p]
  {
  }

  /** The request itself is the last one served of those. */
  lemma {:induction false} AheadEnds(q: seq<Key>, p: nat, events: seq<Event>)
    requires p < |q|
    ensures var a := Ahead(q, p, events); a != [] && a[|a| - 1] == q[p]
    decreases |events|
  {
    hide InsertAt, Place, Stops;
    if events != [] {
      match events[0]
      case Arrive(k) =>
        var i := Place(q, k);
        InsertedAt(q, i, k, p);
        AheadEnds(InsertAt(q, i, k), if i < p then p + 1 else p, events[1..]);
      case Serve =>
        if p > 0 { AheadEnds(q[1..], p - 1, events[1..]); }
    }
  }

  /** Whatever arrives later, a request is served in this sweep or the next. */
  lemma ServedWithinOneDescent(q: seq<Key>, p: nat, events: seq<Event>)
    requires p < |q| && Descents(q) <= 1
    ensures Descents(Ahead(q, p, events)) == Descents(q[..p + 1]) <= 1
  {
    Split(q, p);
    AheadFrom([], q, p, events);
    assert [] + Ahead(q, p, events) == Ahead(q, p, events) && [] + q[..p + 1] == q[..p + 1];
  }

  // ---- a bound -------------------------------------------------------------------------------------

  ghost function Below(keys: set<Key>, k: Key): (s: set<Key>)
  {
    set x | x in keys && InOrder(x, k)
  }

  lemma BelowGrows(keys: set<Key>, a: Key, b: Key)
    requires a in keys && b in keys
    ensures |Below(keys, a)| < |keys| && (InOrder(a, b) ==> |Below(keys, a)| < |Below(keys, b)|)
  {
    SubsetSmaller(Below(keys, a), keys - {a});
    if InOrder(a, b) {
      SubsetSmaller(Below(keys, a), Below(keys, b) - {a});
    }
  }

  lemma {:induction false} SubsetSmaller(s: set<Key>, t: set<Key>)
    requires s <= t
    ensures |s| <= |t|
    decreases s
  {
    if s != {} {
      var x :| x in s;
      SubsetSmaller(s - {x}, t - {x});
    }
  }

  lemma {:induction false} RunLength(keys: set<Key>, q: seq<Key>)
    requires forall k | k in q :: k in keys
    ensures q != [] ==> |q| + |Below(keys, q[0])| <= (Descents(q) + 1) * |keys|
    decreases |q|
  {
    if |q| == 1 {
      BelowGrows(keys, q[0], q[0]);
    } else if |q| > 1 {
      assert forall k | k in q[1..] :: k in q;
      RunLength(keys, q[1..]);
      BelowGrows(keys, q[0], q[1]);
      assert (Descents(q[1..]) + 2) * |keys| == (Descents(q[1..]) + 1) * |keys| + |keys|;
    }
  }

  /** Bounded waiting: if all requests ever made are among keys, at most twice their number come first. */
  lemma BoundedWaiting(keys: set<Key>, q: seq<Key>, p: nat, events: seq<Event>)
    requires p < |q| && Descents(q) <= 1
    requires forall k | k in q :: k in keys
    requires forall e | e in events && e.Arrive? :: e.k in keys
    ensures |Ahead(q, p, events)| <= 2 * |keys|
  {
    ServedWithinOneDescent(q, p, events);
    AheadAmong(keys, q, p, events);
    AheadEnds(q, p, events);
    var a := Ahead(q, p, events);
    RunLength(keys, a);
    assert (Descents(a) + 1) * |keys| <= 2 * |keys|;
  }

  lemma {:induction false} AheadAmong(keys: set<Key>, q: seq<Key>, p: nat, events: seq<Event>)
    requires p < |q|
    requires forall k | k in q :: k in keys
    requires forall e | e in events && e.Arrive? :: e.k in keys
    ensures forall k | k in Ahead(q, p, events) :: k in keys
    decreases |events|
  {
    if events != [] {
      var rest := events[1..];
      assert events[0] in events && forall e | e in rest :: e in events;
      match events[0]
      case Arrive(k) =>
        var i := Place(q, k);
        AheadAmong(keys, InsertAt(q, i, k), if i < p then p + 1 else p, rest);
      case Serve =>
        if p > 0 {
          AheadAmong(keys, q[1..], p - 1, rest);
        }
    }
  }

  lemma PlaceIs(q: seq<Key>, k: Key, i: nat)
    requires i < |q| && (i + 1 < |q| ==> Stops(q[i], k, q[i + 1]))
    requires forall j | 0 <= j < i :: !Stops(q[j], k, q[j + 1])
    ensures Place(q, k) == i
  {
  }
}
