/** The kernel timers of kernel/sched.cc: a list in which every entry holds the ticks to wait after the one
    before it.  add_timer does not shorten the entry it is put in front of, so that entry, and all behind it,
    become late; the lemmas say by exactly how much. */
module Timers {
  import opened Links
  import Linked

  datatype Entry = Entry(fn: int, delta: int)

  /** Ticks until entry i fires, if nothing is put in front of it. */
  function Due(list: seq<Entry>, i: nat): int
    requires i < |list|
    decreases i
  {
    if i == 0 then list[0].delta else list[0].delta + Due(list[1..], i - 1)
  }

  predicate Positive(list: seq<Entry>) {
    forall i | 0 <= i < |list| :: list[i].delta > 0
  }

  /** Where add_timer's bubbling stops. */
  function Place(list: seq<Entry>, d: int): (p: nat)
    ensures p <= |list|
  {
    if list != [] && list[0].delta < d then 1 + Place(list[1..], d - list[0].delta) else 0
  }

  /** What is left of the delay there. */
  function Rest(list: seq<Entry>, d: int): int {
    if list != [] && list[0].delta < d then Rest(list[1..], d - list[0].delta) else d
  }

  function Inserted(list: seq<Entry>, fn: int, d: int): (r: seq<Entry>) {
    list[..Place(list, d)] + [Entry(fn, Rest(list, d))] + list[Place(list, d)..]
  }

  /** One tick: the head counts down, and is taken off when it reaches 0. */
  function Ticked(list: seq<Entry>): (r: seq<Entry>) {
    if list == [] then [] else if list[0].delta <= 1 then list[1..] else [list[0].(delta := list[0].delta - 1)] + list[1..]
  }

  /** A new timer is due exactly when asked; those in front keep their time; those behind wait Rest longer,
      which is no more than the wait of the entry it was put in front of. */
  lemma {:induction false} InsertDue(list: seq<Entry>, fn: int, d: int)
    requires Positive(list) && d > 0
    ensures var p, rest, r := Place(list, d), Rest(list, d), Inserted(list, fn, d);
            && Positive(r) && |r| == |list| + 1 && 0 < rest <= d && r[p] == Entry(fn, rest) && Due(r, p) == d
            && (p < |list| ==> rest <= list[p].delta)
            && (forall i: nat | i < p :: Due(r, i) == Due(list, i))
            && (forall i: nat | p <= i < |list| :: Due(r, i + 1) == Due(list, i) + rest)
  {
    var r := Inserted(list, fn, d);
    if list != [] && list[0].delta < d {
      var s := Inserted(list[1..], fn, d - list[0].delta);
      InsertDue(list[1..], fn, d - list[0].delta);
      assert r == [list[0]] + s && r[1..] == s;
      assert r[0] == list[0];
    } else {
      assert r == [Entry(fn, d)] + list && r[1..] == list;
    }
  }

  /** A tick brings every timer one tick nearer, and fires the head exactly when it is due. */
  lemma {:induction false} TickDue(list: seq<Entry>)
    requires Positive(list) && list != []
    ensures Positive(Ticked(list))
    ensures |Ticked(list)| == if Due(list, 0) == 1 then |list| - 1 else |list|
    ensures Due(list, 0) == 1 ==>
      forall i: nat | 0 < i < |list| :: Due(Ticked(list), i - 1) == Due(list, i) - 1 && Ticked(list)[i - 1].fn == list[i].fn
    ensures Due(list, 0) > 1 ==>
      forall i: nat | i < |list| :: Due(Ticked(list), i) == Due(list, i) - 1 && Ticked(list)[i].fn == list[i].fn
  {
    assert list[0].delta > 1 ==> Ticked(list)[1..] == list[1..];
  }

  // ---- runs ----------------------------------------------------------------------------------------

  datatype Event = Add(fn: int, d: int) | Tick

  /** add_timer runs a function with no delay at once; it never enters the list. */
  function Step(list: seq<Entry>, e: Event): (r: seq<Entry>) {
    match e
    case Add(fn, d) => if d <= 0 then list else Inserted(list, fn, d)
    case Tick => Ticked(list)
  }

  predicate Fires(list: seq<Entry>, i: nat, e: Event) {
    e.Tick? && i == 0 && list != [] && list[0].delta <= 1
  }

  /** Where entry i is after an event that does not fire it. */
  function Moved(list: seq<Entry>, i: nat, e: Event): (j: nat)
    requires i < |list| && Positive(list) && !Fires(list, i, e)
    ensures j < |Step(list, e)|
  {
    match e
    case Add(fn, d) => if d > 0 && Place(list, d) <= i then i + 1 else i
    case Tick => if list[0].delta <= 1 then i - 1 else i
  }

  lemma StepPositive(list: seq<Entry>, e: Event)
    requires Positive(list)
    ensures Positive(Step(list, e))
  {
    match e
    case Add(fn, d) => if d > 0 { InsertDue(list, fn, d); }
    case Tick => if list != [] { TickDue(list); }
  }

  /** An entry keeps its function wherever it goes, and the one that fires is at the head. */
  lemma MovedFn(list: seq<Entry>, i: nat, e: Event)
    requires i < |list| && Positive(list)
    ensures Fires(list, i, e) <==> e.Tick? && i == 0 && Due(list, 0) == 1
    ensures !Fires(list, i, e) ==> Step(list, e)[Moved(list, i, e)].fn == list[i].fn
  {
    match e
    case Add(fn, d) =>
    case Tick => TickDue(list);
  }

  /** Ticks from now on until entry i has fired, or the events end. */
  function Elapsed(list: seq<Entry>, i: nat, events: seq<Event>): nat
    requires i < |list| && Positive(list)
    decreases |events|
  {
    if events == [] then 0 else
      var e := events[0];
      StepPositive(list, e);
      (if e.Tick? then 1 else 0) + if Fires(list, i, e) then 0 else Elapsed(Step(list, e), Moved(list, i, e), events[1..])
  }

  /** What entry i still has to wait after the events; 0 when it has fired. */
  function Left(list: seq<Entry>, i: nat, events: seq<Event>): int
    requires i < |list| && Positive(list)
    decreases |events|
  {
    if events == [] then Due(list, i) else
      var e := events[0];
      StepPositive(list, e);
      if Fires(list, i, e) then 0 else Left(Step(list, e), Moved(list, i, e), events[1..])
  }

  /** The deltas inserted in front of entry i before it fires. */
  function Lateness(list: seq<Entry>, i: nat, events: seq<Event>): int
    requires i < |list| && Positive(list)
    decreases |events|
  {
    if events == [] then 0 else
      var e := events[0];
      StepPositive(list, e);
      if Fires(list, i, e) then 0 else
        (if e.Add? && e.d > 0 && Place(list, e.d) <= i then Rest(list, e.d) else 0)
        + Lateness(Step(list, e), Moved(list, i, e), events[1..])
  }

  predicate Fired(list: seq<Entry>, i: nat, events: seq<Event>)
    requires i < |list| && Positive(list)
    decreases |events|
  {
    events != [] &&
      var e := events[0];
      StepPositive(list, e);
      Fires(list, i, e) || Fired(Step(list, e), Moved(list, i, e), events[1..])
  }

  lemma {:induction false} DuePositive(list: seq<Entry>, i: nat)
    requires i < |list| && Positive(list)
    ensures Due(list, i) > 0
    decreases i
  {
    if i > 0 { DuePositive(list[1..], i - 1); }
  }

  /** Over every interleaving of add_timer and ticks, a timer that was due in Due ticks fires after exactly that
      many and its lateness, never earlier; the lateness is the sum of the deltas inserted in front of it. */
  lemma {:induction false} FiresLate(list: seq<Entry>, i: nat, events: seq<Event>)
    requires i < |list| && Positive(list)
    ensures Elapsed(list, i, events) + Left(list, i, events) == Due(list, i) + Lateness(list, i, events)
    ensures Lateness(list, i, events) >= 0
    ensures Fired(list, i, events) <==> Left(list, i, events) == 0
    decreases |events|
  {
    if events == [] {
      DuePositive(list, i);
    } else {
      var e := events[0];
      StepPositive(list, e);
      match e {
        case Add(fn, d) => if d > 0 { InsertDue(list, fn, d); }
        case Tick => TickDue(list);
      }
      if !Fires(list, i, e) {
        FiresLate(Step(list, e), Moved(list, i, e), events[1..]);
      }
    }
  }

  lemma {:induction false} LeftSign(list: seq<Entry>, i: nat, events: seq<Event>)
    requires i < |list| && Positive(list)
    ensures Left(list, i, events) >= 0
    decreases |events|
  {
    if events == [] {
      DuePositive(list, i);
    } else if !Fires(list, i, events[0]) {
      StepPositive(list, events[0]);
      LeftSign(Step(list, events[0]), Moved(list, i, events[0]), events[1..]);
    }
  }

  /** A new timer is put in front of another exactly when it asks for no more than the other has left. */
  lemma {:induction false} PlaceFirst(list: seq<Entry>, d: int, i: nat)
    requires i < |list| && Positive(list)
    ensures Place(list, d) <= i <==> d <= Due(list, i)
    decreases i
  {
    if i > 0 {
      PlaceFirst(list[1..], d - list[0].delta, i - 1);
      DuePositive(list[1..], i - 1);
    }
  }

  /** Every timer added while one with left ticks to go waits asks for more than that one has left by then. */
  predicate Behind(left: int, events: seq<Event>)
    decreases |events|
  {
    events == [] ||
    match events[0]
    case Add(_, d) => (d <= 0 || d > left) && Behind(left, events[1..])
    case Tick => left == 1 || Behind(left - 1, events[1..])
  }

  /** So a timer is on time exactly when no timer is added behind its back that is due no later. */
  lemma {:induction false} OnTime(list: seq<Entry>, i: nat, events: seq<Event>)
    requires i < |list| && Positive(list)
    ensures Lateness(list, i, events) == 0 <==> Behind(Due(list, i), events)
    decreases |events|
  {
    if events != [] {
      var e := events[0];
      StepPositive(list, e);
      DuePositive(list, i);
      match e {
        case Add(fn, d) =>
          if d > 0 { InsertDue(list, fn, d); }
          PlaceFirst(list, d, i);
        case Tick =>
          TickDue(list);
          if i > 0 { DuePositive(list[1..], i - 1); }
      }
      if !Fires(list, i, e) {
        assert e.Tick? ==> Due(list, i) > 1 && Due(Step(list, e), Moved(list, i, e)) == Due(list, i) - 1;
        OnTime(Step(list, e), Moved(list, i, e), events[1..]);
        FiresLate(Step(list, e), Moved(list, i, e), events[1..]);
      } else {
        assert Due(list, 0) == 1;
      }
    }
  }

  /** A timer added with delay d fires exactly d + Lateness ticks later; on time exactly when every timer added
      meanwhile asks for more than it has left. */
  lemma AddedFires(list: seq<Entry>, fn: int, d: int, events: seq<Event>)
    requires Positive(list) && d > 0
    ensures var r, p := Inserted(list, fn, d), Place(list, d);
            && Positive(r) && p < |r| && r[p].fn == fn
            && (Fired(r, p, events) ==> Elapsed(r, p, events) == d + Lateness(r, p, events) >= d)
            && (Fired(r, p, events) ==> (Elapsed(r, p, events) == d <==> Behind(d, events)))
            && (!Fired(r, p, events) ==> Elapsed(r, p, events) < d + Lateness(r, p, events))
  {
    InsertDue(list, fn, d);
    FiresLate(Inserted(list, fn, d), Place(list, d), events);
    OnTime(Inserted(list, fn, d), Place(list, d), events);
    LeftSign(Inserted(list, fn, d), Place(list, d), events);
  }

  /** The lateness is real: a timer for 5 ticks, with one for 3 ticks added behind its back, fires after 8. */
  lemma LateExample()
    ensures var r := Inserted([Entry(1, 5)], 2, 3); Due(r, 1) == 8 && r[1].fn == 1
  {
  }

  // ---- the table -----------------------------------------------------------------------------------

  const TIME_REQUESTS: nat := 64

  /** timer_list and next_timer; fn is 0 in a free slot, next -1 at the end of the list. */
  datatype Table = Table(fn: seq<int>, jiffies: seq<int>, next: seq<int>, head: int)

  function EntryAt(t: Table, s: nat): Entry {
    if s < |t.fn| == |t.jiffies| then Entry(t.fn[s], t.jiffies[s]) else Entry(0, 1)
  }

  function Entries(t: Table, c: seq<nat>): (r: seq<Entry>)
    ensures |r| == |c|
  {
    seq(|c|, i requires 0 <= i < |c| => EntryAt(t, c[i]))
  }

  predicate UsedAre(fn: seq<int>, c: seq<nat>) {
    forall s: nat | s < |fn| :: s in c <==> fn[s] != 0
  }

  /** The slots in use are exactly the listed ones. */
  ghost predicate Ok(t: Table, c: seq<nat>) {
    |t.fn| == |t.jiffies| == |t.next| == TIME_REQUESTS && Linked.List(c, t.head, t.next, -1) && UsedAre(t.fn, c)
  }

  lemma At(t: Table, c: seq<nat>, i: nat)
    requires Ok(t, c) && i <= |c|
    ensures |t.fn| == |t.jiffies| == |t.next| == TIME_REQUESTS && t.head == Linked.NextOf(c, 0, -1)
    ensures i < |c| ==> c[i] < TIME_REQUESTS && t.next[c[i]] == Linked.NextOf(c, i + 1, -1)
                        && Entries(t, c)[i] == Entry(t.fn[c[i]], t.jiffies[c[i]])
    ensures i + 1 < |c| ==> c[i + 1] < TIME_REQUESTS && c[i] != c[i + 1] && Entries(t, c)[i + 1] == Entry(t.fn[c[i + 1]], t.jiffies[c[i + 1]])
  {
    hide UsedAre;
  }

  /** A free slot goes to the front. */
  lemma PushOk(t: Table, c: seq<nat>, p: nat, f: int, d: int)
    requires Ok(t, c) && p < TIME_REQUESTS && t.fn[p] == 0 && f != 0
    ensures var r := Table(t.fn[p := f], t.jiffies[p := d], t.next[p := t.head], p);
            Ok(r, [p] + c) && Entries(r, [p] + c) == [Entry(f, d)] + Entries(t, c)
  {
    var r := Table(t.fn[p := f], t.jiffies[p := d], t.next[p := t.head], p);
    PushUsed(t.fn, c, p, f);
    Linked.Push(c, t.head, t.next, -1, p);
    hide Linked.List, UsedAre;
    PushEntries(t, r, c, p);
  }

  lemma PushEntries(t: Table, r: Table, c: seq<nat>, p: nat)
    requires forall x | x in c :: EntryAt(r, x) == EntryAt(t, x)
    ensures Entries(r, [p] + c) == [EntryAt(r, p)] + Entries(t, c)
  {
    hide EntryAt;
    assert forall i | 0 <= i < |c| :: c[i] in c;
  }

  lemma PushUsed(fn: seq<int>, c: seq<nat>, p: nat, f: int)
    requires UsedAre(fn, c) && p < |fn| && fn[p] == 0 && f != 0
    ensures p !in c && UsedAre(fn[p := f], [p] + c)
  {
  }

  /** The contents of slots p and n change places, less the delta that is passed. */
  function Swapped(t: Table, p: nat, n: nat): Table
    requires p < |t.fn| == |t.jiffies| && n < |t.fn|
  {
    t.(fn := t.fn[p := t.fn[n]][n := t.fn[p]], jiffies := t.jiffies[p := t.jiffies[n]][n := t.jiffies[p] - t.jiffies[n]])
  }

  function With(list: seq<Entry>, i: nat, e: Entry): (r: seq<Entry>)
    requires i <= |list|
  {
    list[..i] + [e] + list[i..]
  }

  lemma SwapUsed(t: Table, c: seq<nat>, i: nat)
    requires Ok(t, c) && i + 1 < |c| && c[i] < |t.fn| && c[i + 1] < |t.fn|
    ensures Ok(Swapped(t, c[i], c[i + 1]), c)
  {
    hide Linked.List;
    assert c[i] in c && c[i + 1] in c;
  }

  lemma SwapAt(t: Table, c: seq<nat>, list: seq<Entry>, i: nat, e: Entry, j: nat)
    requires |t.fn| == |t.jiffies| && i < |list| && j < |c| == |list| + 1 && c[i] < |t.fn| && c[i + 1] < |t.fn|
    requires Entries(t, c) == With(list, i, e)
    requires (c[j] == c[i] <==> j == i) && (c[j] == c[i + 1] <==> j == i + 1)
    ensures var w := With(list, i + 1, e.(delta := e.delta - list[i].delta));
            |w| == |c| && EntryAt(Swapped(t, c[i], c[i + 1]), c[j]) == w[j]
  {
    var es := Entries(t, c);
    assert es[i] == EntryAt(t, c[i]) && es[i + 1] == EntryAt(t, c[i + 1]) && es[j] == EntryAt(t, c[j]);
  }

  /** One turn of the bubbling. */
  lemma SwapOk(t: Table, c: seq<nat>, list: seq<Entry>, i: nat, e: Entry)
    requires Ok(t, c) && i < |list| && |c| == |list| + 1 && Entries(t, c) == With(list, i, e)
    ensures c[i] < |t.fn| == |t.jiffies| && c[i + 1] < |t.fn| && Ok(Swapped(t, c[i], c[i + 1]), c)
    ensures Entries(Swapped(t, c[i], c[i + 1]), c) == With(list, i + 1, e.(delta := e.delta - list[i].delta))
  {
    At(t, c, i);
    SwapUsed(t, c, i);
    assert Distinct(c);
    hide Ok, Distinct, With, Swapped, EntryAt;
    forall j: nat | j < |c| ensures EntryAt(Swapped(t, c[i], c[i + 1]), c[j]) == With(list, i + 1, e.(delta := e.delta - list[i].delta))[j] {
      DistinctAt(c, j, i);
      DistinctAt(c, j, i + 1);
      SwapAt(t, c, list, i, e, j);
    }
  }

  lemma CountDownOk(t: Table, c: seq<nat>)
    requires Ok(t, c) && c != []
    ensures c[0] < |t.jiffies| && Ok(t.(jiffies := t.jiffies[c[0] := t.jiffies[c[0]] - 1]), c)
    ensures var es := Entries(t, c);
            Entries(t.(jiffies := t.jiffies[c[0] := t.jiffies[c[0]] - 1]), c) == [es[0].(delta := es[0].delta - 1)] + es[1..]
  {
    hide UsedAre;
    assert Distinct(c);
    forall j | 0 <= j < |c| ensures c[j] == c[0] <==> j == 0 { DistinctAt(c, j, 0); }
    hide Linked.List;
  }

  lemma PopOk(t: Table, c: seq<nat>)
    requires Ok(t, c) && c != []
    ensures c[0] == t.head && c[0] < TIME_REQUESTS
    ensures var r := t.(fn := t.fn[c[0] := 0], head := t.next[c[0]]);
            Ok(r, c[1..]) && Entries(r, c[1..]) == Entries(t, c)[1..]
  {
    At(t, c, 0);
    Linked.Pop(c, t.head, t.next, -1);
    hide Linked.List;
    var r := t.(fn := t.fn[c[0] := 0], head := t.next[c[0]]);
    PopUsed(t.fn, c);
    hide UsedAre;
    forall i | 0 <= i < |c| - 1 ensures EntryAt(r, c[1..][i]) == EntryAt(t, c[i + 1]) {
      assert c[1..][i] in c[1..];
    }
  }

  lemma PopUsed(fn: seq<int>, c: seq<nat>)
    requires UsedAre(fn, c) && c != [] && c[0] < |fn| && c[0] !in c[1..]
    ensures UsedAre(fn[c[0] := 0], c[1..])
  {
    forall s: nat ensures s in c <==> s == c[0] || s in c[1..] {
      assert c == [c[0]] + c[1..];
    }
  }

  lemma PlaceStep(list: seq<Entry>, i: nat, rest: int)
    requires i <= |list|
    ensures i < |list| && list[i].delta < rest ==>
              Place(list[i..], rest) == 1 + Place(list[i + 1..], rest - list[i].delta)
              && Rest(list[i..], rest) == Rest(list[i + 1..], rest - list[i].delta)
    ensures i == |list| || list[i].delta >= rest ==> Place(list[i..], rest) == 0 && Rest(list[i..], rest) == rest
  {
    if i < |list| {
      assert list[i..][0] == list[i] && list[i..][1..] == list[i + 1..];
    }
  }

  class TimerTable {
    var t: Table
    ghost var slots: seq<nat>

    ghost predicate Valid()
      reads this
    {
      Ok(t, slots) && Positive(Entries(t, slots))
    }

    /** The list the table stands for. */
    ghost function List(): seq<Entry>
      reads this
    {
      Entries(t, slots)
    }

    constructor ()
      ensures Valid() && List() == []
    {
      t := Table(seq(TIME_REQUESTS, i => 0), seq(TIME_REQUESTS, i => 0), seq(TIME_REQUESTS, i => -1), -1);
      slots := [];
    }

    /** The first free slot, TIME_REQUESTS when there is none. */
    method FreeSlot() returns (p: nat)
      requires Valid()
      ensures p <= TIME_REQUESTS == |t.fn| && (p < TIME_REQUESTS ==> t.fn[p] == 0)
      ensures p == TIME_REQUESTS ==> forall s: nat | s < TIME_REQUESTS :: s in slots
    {
      hide Linked.List, Entries;
      p := 0;
      while p < TIME_REQUESTS && t.fn[p] != 0
        invariant p <= TIME_REQUESTS && forall s | 0 <= s < p :: t.fn[s] != 0
      {
        p := p + 1;
      }
    }

    /** add_timer.  called says that f runs at once; ok is false for the panic when all slots are used. */
    method AddTimer(delay: int, f: int) returns (ok: bool, called: bool)
      requires Valid()
      modifies this
      ensures Valid() && List() == if f == 0 || !ok then old(List()) else Step(old(List()), Add(f, delay))
      ensures called <==> f != 0 && delay <= 0
      ensures !ok ==> f != 0 && delay > 0 && forall s: nat | s < TIME_REQUESTS :: s in slots
    {
      hide Ok, Entries, Inserted;
      ok, called := true, false;
      if f == 0 { return; }
      if delay <= 0 { called := true; return; }
      var p := FreeSlot();
      if p == TIME_REQUESTS { return false, false; }
      ghost var list := List();
      At(t, slots, 0);
      PushOk(t, slots, p, f, delay);
      t := t.(fn := t.fn[p := f], jiffies := t.jiffies[p := delay], next := t.next[p := t.head], head := p);
      slots := [p] + slots;
      Bubble(list, Entry(f, delay));
    }

    /** The bubbling loop: the contents of neighbouring slots change places, the links stay. */
    method Bubble(ghost list: seq<Entry>, ghost e: Entry)
      requires Ok(t, slots) && Positive(list) && e.delta > 0 && Entries(t, slots) == [e] + list
      modifies this
      ensures Valid() && List() == Inserted(list, e.fn, e.delta) && slots == old(slots)
    {
      hide Ok, Entries, Swapped, Place, Rest;
      ghost var i := 0;
      ghost var rest := e.delta;
      assert list[0..] == list && With(list, 0, e) == [e] + list;
      At(t, slots, 0);
      var p := t.head;
      while t.next[p] != -1 && t.jiffies[t.next[p]] < t.jiffies[p]
        invariant 0 <= i <= |list| && 0 < rest && slots == old(slots)
        invariant Ok(t, slots) && Entries(t, slots) == With(list, i, e.(delta := rest))
        invariant |slots| == |list| + 1 && p == slots[i] < TIME_REQUESTS == |t.next| == |t.jiffies| == |t.fn|
        invariant t.next[p] == Linked.NextOf(slots, i + 1, -1) && (t.next[p] != -1 ==> t.next[p] < TIME_REQUESTS)
        invariant Place(list, e.delta) == i + Place(list[i..], rest) && Rest(list, e.delta) == Rest(list[i..], rest)
        decreases |slots| - i
      {
        At(t, slots, i);
        SwapOk(t, slots, list, i, e.(delta := rest));
        PlaceStep(list, i, rest);
        var n := t.next[p];
        Exchange(p, n);
        p := n;
        i := i + 1;
        rest := rest - list[i - 1].delta;
        At(t, slots, i);
      }
      At(t, slots, i);
      PlaceStep(list, i, rest);
      InsertDue(list, e.fn, e.delta);
    }

    /** The body of the loop. */
    method Exchange(p: nat, n: nat)
      requires p < |t.fn| == |t.jiffies| && n < |t.fn| && p != n
      modifies this
      ensures t == Swapped(old(t), p, n) && slots == old(slots)
    {
      t := t.(jiffies := t.jiffies[p := t.jiffies[p] - t.jiffies[n]]);
      var g := t.fn[p];
      t := t.(fn := t.fn[p := t.fn[n]]);
      t := t.(fn := t.fn[n := g]);
      var left := t.jiffies[p];
      t := t.(jiffies := t.jiffies[p := t.jiffies[n]]);
      t := t.(jiffies := t.jiffies[n := left]);
      assert t.jiffies == Swapped(old(t), p, n).jiffies;
    }

    /** The timer part of do_timer: at most one timer fires per tick. */
    method DoTimer() returns (fired: seq<int>)
      requires Valid()
      modifies this
      ensures Valid() && List() == Ticked(old(List()))
      ensures fired == if Fires(old(List()), 0, Tick) then [old(List())[0].fn] else []
    {
      hide Ok, Entries;
      fired := [];
      ghost var list, c := List(), slots;
      At(t, slots, 0);
      if t.head != -1 {
        CountDownOk(t, slots);
        t := t.(jiffies := t.jiffies[t.head := t.jiffies[t.head] - 1]);
        At(t, slots, 0);
        while t.head != -1 && t.jiffies[t.head] <= 0
          invariant Ok(t, slots) && t.head == Linked.NextOf(slots, 0, -1) && |fired| <= 1 && |t.jiffies| == TIME_REQUESTS
          invariant slots != [] ==> t.head < TIME_REQUESTS && t.jiffies[t.head] == List()[0].delta
          invariant fired == [] ==> List() == [list[0].(delta := list[0].delta - 1)] + list[1..]
          invariant fired != [] ==> fired == [list[0].fn] && List() == list[1..] && list[0].delta <= 1
          decreases |slots|
        {
          At(t, slots, 0);
          PopOk(t, slots);
          var f := t.fn[t.head];
          t := t.(fn := t.fn[t.head := 0], head := t.next[t.head]);
          slots := slots[1..];
          fired := fired + [f];
          At(t, slots, 0);
        }
      }
    }
  }
}
