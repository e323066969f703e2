/** schedule, the scheduling part of do_timer, and sys_nice of kernel/sched.cc. */
module Scheduler {
  import opened Basics

  const TASK_RUNNING: nat := 0
  const TASK_INTERRUPTIBLE: nat := 1
  const SIGALRM_BIT: bv32 := 0x2000
  const BLOCKABLE: bv32 := 0xFFFB_FEFF   // all but SIGKILL and SIGSTOP

  datatype Task =
    | Empty
    | Task(state: nat, counter: nat, priority: nat, signal: bv32, blocked: bv32, alarm: int)

  predicate Runnable(ts: seq<Task>, i: nat) {
    1 <= i < |ts| && ts[i].Task? && ts[i].state == TASK_RUNNING
  }

  /** Sixty-four slots, task 0 always there, every priority positive. */
  predicate TableOk(ts: seq<Task>) {
    |ts| == NR_TASKS && ts[0].Task? && forall i | 0 <= i < NR_TASKS && ts[i].Task? :: ts[i].priority > 0
  }

  // ---- schedule ------------------------------------------------------------------------------------

  /** signal with SIGALRM raised */
  function Raised(signal: bv32): bv32 {
    signal | SIGALRM_BIT
  }

  /** Some signal is up that is not blocked, or cannot be. */
  predicate Pending(signal: bv32, blocked: bv32) {
    signal & !(BLOCKABLE & blocked) != 0
  }

  /** The bit of one signal: signal n has bit n - 1. */
  predicate OneBit(m: bv32) {
    m != 0 && m & (m - 1) == 0
  }

  const KILL_BIT: bv32 := 0x100      // SIGKILL is 9
  const STOP_BIT: bv32 := 0x40000    // SIGSTOP is 19

  lemma LowestBit(x: bv32) returns (m: bv32)
    requires x != 0
    ensures OneBit(m) && x & m == m
  {
    m := x & (0 - x);
  }

  predicate Has(s: bv32, m: bv32) { s & m != 0 }

  lemma SameBit(m: bv32, c: bv32)
    requires OneBit(m) && OneBit(c)
    ensures Has(c, m) <==> m == c
  {
  }

  lemma WholeBit(m: bv32, c: bv32)
    requires OneBit(m)
    ensures c & m == if Has(c, m) then m else 0
  {
  }

  lemma BlockableBit(m: bv32)
    requires OneBit(m)
    ensures Has(BLOCKABLE, m) <==> m != KILL_BIT && m != STOP_BIT
  {
  }

  lemma Spread(x: bv32, b: bv32, k: bv32, m: bv32)
    ensures x & !(b & k) & m == (x & m) & !((b & m) & (k & m))
    ensures (x | b) & m == (x & m) | (b & m)
  {
  }

  lemma MaskAndNot(a: bv32, b: bv32, m: bv32)
    requires (a == 0 || a == m) && (b == 0 || b == m) && m != 0
    ensures a & !b != 0 <==> a != 0 && b == 0
  {
  }

  lemma MaskAnd(a: bv32, b: bv32, m: bv32)
    requires (a == 0 || a == m) && (b == 0 || b == m) && m != 0
    ensures a & b == if a == 0 || b == 0 then 0 else m
  {
  }

  lemma MaskOr(a: bv32, b: bv32)
    ensures a | b != 0 <==> a != 0 || b != 0
  {
  }

  lemma DueBit(signal: bv32, blocked: bv32, m: bv32)
    requires OneBit(m)
    ensures Has(signal & !(BLOCKABLE & blocked), m) <==> Has(signal, m) && (m == KILL_BIT || m == STOP_BIT || !Has(blocked, m))
  {
    WholeBit(m, signal);
    WholeBit(m, BLOCKABLE);
    WholeBit(m, blocked);
    BlockableBit(m);
    Spread(signal, BLOCKABLE, blocked, m);
    MaskAnd(BLOCKABLE & m, blocked & m, m);
    MaskAndNot(signal & m, (BLOCKABLE & m) & (blocked & m), m);
  }

  /** A signal is up that the task has not blocked; SIGKILL and SIGSTOP cannot be blocked. */
  ghost predicate Deliverable(signal: bv32, blocked: bv32) {
    exists m :: OneBit(m) && Has(signal, m) && (m == KILL_BIT || m == STOP_BIT || !Has(blocked, m))
  }

  lemma PendingIs(signal: bv32, blocked: bv32)
    ensures Pending(signal, blocked) <==> Deliverable(signal, blocked)
  {
    if Pending(signal, blocked) {
      var m := LowestBit(signal & !(BLOCKABLE & blocked));
      assert Has(signal & !(BLOCKABLE & blocked), m);
      DueBit(signal, blocked, m);
    } else if Deliverable(signal, blocked) {
      var m :| OneBit(m) && Has(signal, m) && (m == KILL_BIT || m == STOP_BIT || !Has(blocked, m));
      DueBit(signal, blocked, m);
    }
  }

  function Alarmed(t: Task, jiffies: int): Task {
    if t.Task? && t.alarm != 0 && t.alarm < jiffies then t.(signal := Raised(t.signal), alarm := 0) else t
  }

  function Signalled(t: Task): Task {
    if t.Task? && Pending(t.signal, t.blocked) && t.state == TASK_INTERRUPTIBLE
    then t.(state := TASK_RUNNING) else t
  }

  /** The first loop: overdue alarms are delivered, interruptible sleepers with a signal wake up. */
  function Woken(ts: seq<Task>, jiffies: int): (r: seq<Task>)
    ensures |r| == |ts|
    ensures forall i | 0 <= i < |ts| :: r[i] == if i == 0 then ts[0] else Signalled(Alarmed(ts[i], jiffies))
  {
    seq(|ts|, i requires 0 <= i < |ts| => if i == 0 then ts[0] else Signalled(Alarmed(ts[i], jiffies)))
  }

  lemma RaisedBit(signal: bv32, m: bv32)
    requires OneBit(m)
    ensures Has(Raised(signal), m) <==> Has(signal, m) || m == SIGALRM_BIT
  {
    WholeBit(m, signal);
    WholeBit(m, SIGALRM_BIT);
    SameBit(m, SIGALRM_BIT);
    Spread(signal, SIGALRM_BIT, 0, m);
    MaskOr(signal & m, SIGALRM_BIT & m);
  }

  /** What the first loop does to a task: SIGALRM and no alarm any more if its alarm is overdue; and it runs if it could
      be interrupted and a signal can be delivered, perhaps that one.  Nothing else changes. */
  lemma WokenIs(ts: seq<Task>, jiffies: int, i: nat)
    requires 1 <= i < |ts| && ts[i].Task?
    ensures var t, r := ts[i], Woken(ts, jiffies)[i]; var overdue := t.alarm != 0 && t.alarm < jiffies;
            && r.Task? && r.counter == t.counter && r.priority == t.priority && r.blocked == t.blocked
            && r.alarm == (if overdue then 0 else t.alarm)
            && (forall m | OneBit(m) :: Has(r.signal, m) <==> Has(t.signal, m) || (overdue && m == SIGALRM_BIT))
            && r.state == if t.state == TASK_INTERRUPTIBLE && Deliverable(r.signal, t.blocked) then TASK_RUNNING else t.state
  {
    hide Raised, Pending, OneBit, Has, Deliverable;
    var a := Alarmed(ts[i], jiffies);
    PendingIs(a.signal, a.blocked);
    forall m | OneBit(m) ensures Has(Raised(ts[i].signal), m) <==> Has(ts[i].signal, m) || m == SIGALRM_BIT {
      RaisedBit(ts[i].signal, m);
    }
  }

  /** The running tasks have all used up their time. */
  ghost predicate Starved(ts: seq<Task>) {
    && (exists i: nat :: Runnable(ts, i))
    && (forall i: nat :: Runnable(ts, i) ==> ts[i].counter == 0)
  }

  function Recharged(ts: seq<Task>): (r: seq<Task>)
    ensures |r| == |ts|
    ensures forall i | 0 <= i < |ts| ::
      r[i] == if i == 0 || ts[i].Empty? then ts[i] else ts[i].(counter := ts[i].counter / 2 + ts[i].priority)
  {
    seq(|ts|, i requires 0 <= i < |ts| =>
      if i == 0 || ts[i].Empty? then ts[i] else ts[i].(counter := ts[i].counter / 2 + ts[i].priority))
  }

  ghost function Charged(ts: seq<Task>): (r: seq<Task>)
    ensures |r| == |ts|
  {
    if Starved(ts) then Recharged(ts) else ts
  }

  /** Task n has the largest counter of the runnable ones, the last such; 0 when none is runnable. */
  ghost predicate Best(ts: seq<Task>, n: nat) {
    if n == 0 then forall i: nat :: !Runnable(ts, i) else
      Runnable(ts, n) && forall i: nat | Runnable(ts, i) ::
        ts[i].counter < ts[n].counter || (ts[i].counter == ts[n].counter && i <= n)
  }

  /** The choice is determined. */
  lemma BestUnique(ts: seq<Task>, n: nat, m: nat)
    requires Best(ts, n) && Best(ts, m)
    ensures n == m
  {
    assert n > 0 ==> Runnable(ts, n);
    assert m > 0 ==> Runnable(ts, m);
  }

  lemma RechargeOk(ts: seq<Task>)
    requires TableOk(ts)
    ensures TableOk(Charged(ts)) && !Starved(Charged(ts))
    ensures forall i: nat :: Runnable(Charged(ts), i) <==> Runnable(ts, i)
  {
    if Starved(ts) {
      var r := Recharged(ts);
      assert forall i: nat :: Runnable(r, i) <==> Runnable(ts, i);
      var k: nat :| Runnable(ts, k);
      assert Runnable(r, k) && r[k].counter > 0;
    }
  }

  lemma WokenOk(ts: seq<Task>, jiffies: int)
    requires TableOk(ts)
    ensures TableOk(Woken(ts, jiffies))
    ensures forall i: nat | Runnable(ts, i) :: Runnable(Woken(ts, jiffies), i)
    ensures forall i | 0 <= i < |ts| ::
      Woken(ts, jiffies)[i].Task? == ts[i].Task?
      && (ts[i].Task? ==> Woken(ts, jiffies)[i].counter == ts[i].counter && Woken(ts, jiffies)[i].priority == ts[i].priority)
  {
  }

  /** The best of the tasks from lo on, found as the source finds it, from the last one down. */
  function Pick(ts: seq<Task>, lo: nat): (n: nat)
    requires lo >= 1
    ensures n == 0 ==> forall i: nat | lo <= i :: !Runnable(ts, i)
    ensures n > 0 ==> lo <= n && Runnable(ts, n) && forall i: nat | lo <= i && Runnable(ts, i) ::
      ts[i].counter < ts[n].counter || (ts[i].counter == ts[n].counter && i <= n)
    decreases |ts| - lo
  {
    if lo >= |ts| then 0 else
      var n := Pick(ts, lo + 1);
      if Runnable(ts, lo) && (n == 0 || ts[lo].counter > ts[n].counter) then lo else n
  }

  ghost function Choice(ts: seq<Task>): (n: nat)
    ensures Best(ts, n)
  {
    Pick(ts, 1)
  }

  /** schedule: who runs next, and the tasks then. */
  ghost function Scheduled(ts: seq<Task>, jiffies: int): (seq<Task>, nat) {
    var r := Charged(Woken(ts, jiffies)); (r, Choice(r))
  }

  /** A timer tick: it schedules only in user mode and when the time of the running task is up. */
  ghost function Ticked(ts: seq<Task>, current: nat, cpl: nat, jiffies: int): (seq<Task>, nat)
    requires current < |ts| && ts[current].Task?
  {
    var c := ts[current].counter as int - 1;
    var r := ts[current := ts[current].(counter := if c > 0 then c else 0)];
    if c > 0 || cpl == 0 then (r, current) else Scheduled(r, jiffies)
  }

  /** What sys_nice leaves of the running task: a priority that would not be positive is not taken. */
  function Niced(t: Task, increment: int): (u: Task)
    requires t.Task?
    ensures u.Task? && u == t.(priority := u.priority)
    ensures t.priority > 0 ==> u.priority > 0
  {
    if t.priority - increment > 0 then t.(priority := t.priority - increment) else t
  }

  class Sched {
    var task: seq<Task>
    var current: nat

    predicate Valid()
      reads this
    {
      TableOk(task) && current < NR_TASKS && task[current].Task?
    }

    /** schedule: at most two passes of the outer loop. */
    method Schedule(jiffies: int)
      requires Valid()
      modifies this
      ensures Valid() && task == Charged(Woken(old(task), jiffies)) && Best(task, current)
    {
      WakeUp(jiffies);
      RechargeOk(task);
      ghost var woken := task;
      var next := 0;
      ghost var passes := 2;
      while true
        invariant Valid() && task == if passes == 2 then woken else Charged(woken)
        invariant passes == 1 ==> Starved(woken)
        invariant 1 <= passes <= 2
        decreases passes
      {
        var c: int;
        c, next := Search();
        NoTime(task, c, next);
        if c != 0 { break; }
        Recharge();
        passes := passes - 1;
      }
      current := next;
    }

    method Deliver(p: nat, jiffies: int)
      requires p < |task| && task[p].Task?
      modifies this`task
      ensures task == old(task)[p := Signalled(Alarmed(old(task[p]), jiffies))]
    {
      hide Raised, Pending;
      if task[p].alarm != 0 && task[p].alarm < jiffies {
        task := task[p := task[p].(signal := Raised(task[p].signal), alarm := 0)];
      }
      if Pending(task[p].signal, task[p].blocked) && task[p].state == TASK_INTERRUPTIBLE {
        task := task[p := task[p].(state := TASK_RUNNING)];
      }
    }

    method WakeUp(jiffies: int)
      requires Valid()
      modifies this`task
      ensures Valid() && task == Woken(old(task), jiffies)
    {
      WokenOk(task, jiffies);
      ghost var woken := Woken(task, jiffies);
      var p := NR_TASKS - 1;
      while p > 0
        invariant 0 <= p < NR_TASKS && |task| == NR_TASKS
        invariant forall i | 0 <= i < NR_TASKS :: task[i] == if i > p then woken[i] else old(task)[i]
      {
        if task[p].Task? {
          Deliver(p, jiffies);
        }
        p := p - 1;
      }
    }

    /** The inner search: c is -1 when no task is runnable. */
    method Search() returns (c: int, next: nat)
      requires Valid()
      ensures Best(task, next) && c == if next == 0 then -1 else task[next].counter
    {
      c, next := -1, 0;
      var i := NR_TASKS - 1;
      while i > 0
        invariant 0 <= i < NR_TASKS && (next > 0 ==> i < next < NR_TASKS && task[next].Task?)
        invariant c == if next == 0 then -1 else task[next].counter
        invariant next == 0 ==> forall j: nat | j > i :: !Runnable(task, j)
        invariant next > 0 ==> Runnable(task, next) && forall j: nat | j > i && Runnable(task, j) ::
            task[j].counter < task[next].counter || (task[j].counter == task[next].counter && j <= next)
      {
        if task[i].Task? && task[i].state == TASK_RUNNING && task[i].counter > c {
          c, next := task[i].counter, i;
        }
        i := i - 1;
      }
    }

    method Recharge()
      requires Valid()
      modifies this`task
      ensures Valid() && task == Recharged(old(task))
    {
      var p := NR_TASKS - 1;
      while p > 0
        invariant 0 <= p < NR_TASKS && |task| == NR_TASKS
        invariant forall i | 0 <= i < NR_TASKS :: task[i] == if i > p then Recharged(old(task))[i] else old(task)[i]
      {
        if task[p].Task? {
          task := task[p := task[p].(counter := task[p].counter / 2 + task[p].priority)];
        }
        p := p - 1;
      }
    }

    /** The end of do_timer: cpl is 0 when the tick came in kernel mode. */
    method TimerTick(cpl: nat, jiffies: int)
      requires Valid()
      modifies this
      ensures Valid()
      ensures (task, current) == Ticked(old(task), old(current), cpl, jiffies)
      ensures old(task[current].counter) > 1 || cpl == 0 ==>
        current == old(current) && task == old(task)[current := old(task[current]).(counter := Max(old(task[current].counter), 1) - 1)]
      ensures old(task[current].counter) <= 1 && cpl != 0 ==>
        Best(task, current) && task == Charged(Woken(old(task)[old(current) := old(task[current]).(counter := 0)], jiffies))
    {
      var c := task[current].counter as int - 1;
      var was := current;
      task := task[current := task[current].(counter := if c > 0 then c else 0)];
      if c > 0 { return; }
      if cpl == 0 { return; }
      Schedule(jiffies);
      BestUnique(task, current, Choice(task));
    }

    /** sys_nice of the running task keeps its priority positive. */
    method Nice(increment: int)
      requires Valid()
      modifies this`task
      ensures Valid()
      ensures task == old(task)[current := Niced(old(task[current]), increment)]
      ensures task[current].priority == (if old(task[current].priority) > increment then old(task[current].priority) - increment else old(task[current].priority))
    {
      if task[current].priority - increment > 0 {
        task := task[current := task[current].(priority := task[current].priority - increment)];
      }
    }
  }

  lemma NoTime(ts: seq<Task>, c: int, n: nat)
    requires Best(ts, n) && c == if n == 0 then -1 else ts[n].counter
    ensures c == 0 <==> Starved(ts)
  {
    assert n > 0 ==> Runnable(ts, n);
  }

  // ---- fairness ------------------------------------------------------------------------------------

  /** What can happen while task r waits: ticks in user and in kernel mode, the running task going to sleep, wake-ups,
      and the running task changing its priority. */
  datatype Event = Tick(jiffies: int) | KernelTick(jiffies: int) | Block(state: nat, jiffies: int) | Wake(i: nat) | Nice(increment: int)

  ghost function Step(ts: seq<Task>, current: nat, e: Event): (seq<Task>, nat)
    requires current < |ts| && ts[current].Task?
  {
    match e
    case Tick(j) => Ticked(ts, current, 1, j)
    case KernelTick(j) => Ticked(ts, current, 0, j)
    case Block(s, j) => Scheduled(ts[current := ts[current].(state := s)], j)
    case Wake(i) => (if i < |ts| && ts[i].Task? then ts[i := ts[i].(state := TASK_RUNNING)] else ts, current)
    case Nice(increment) => (ts[current := Niced(ts[current], increment)], current)
  }

  /** Every priority is at most top and every counter at most twice that; task 0 never gets more time. */
  predicate Within(ts: seq<Task>, top: nat) {
    forall i | 1 <= i < |ts| && ts[i].Task? :: ts[i].priority <= top && ts[i].counter <= 2 * top
  }

  /** Twice its own priority is no bound for a task's counter: a task with all its time left lowers its priority. */
  lemma NicedBelow()
    ensures var t := Task(TASK_RUNNING, 15, 15, 0, 0, 0); t.counter <= 2 * t.priority && Niced(t, 14).counter > 2 * Niced(t, 14).priority
  {
  }

  lemma ScheduleWithin(ts: seq<Task>, jiffies: int, top: nat)
    requires TableOk(ts) && Within(ts, top)
    ensures Within(Scheduled(ts, jiffies).0, top)
  {
    hide Raised, Pending;
    WokenOk(ts, jiffies);
  }

  /** The bound survives everything but a task that takes a priority above it. */
  lemma StepWithin(ts: seq<Task>, current: nat, e: Event, top: nat)
    requires TableOk(ts) && Within(ts, top) && current < NR_TASKS && ts[current].Task?
    ensures Within(Step(ts, current, e).0, top)
            <==> !(e.Nice? && current > 0 && Niced(ts[current], e.increment).priority > top)
  {
    hide Scheduled;
    match e
    case Tick(j) =>
      var c := if ts[current].counter > 0 then ts[current].counter - 1 else 0;
      var t1 := ts[current := ts[current].(counter := c)];
      ScheduleWithin(t1, j, top);
    case KernelTick(j) =>
    case Block(s, j) =>
      var t1 := ts[current := ts[current].(state := s)];
      ScheduleWithin(t1, j, top);
    case Wake(i) =>
    case Nice(increment) =>
      var t1 := Step(ts, current, e).0;
      assert current > 0 ==> t1[current] == Niced(ts[current], increment);
  }

  function Sum(s: seq<nat>): nat {
    if s == [] then 0 else Sum(s[..|s| - 1]) + s[|s| - 1]
  }

  lemma {:induction false} SumUpdate(s: seq<nat>, i: nat, v: nat)
    requires i < |s|
    ensures Sum(s[i := v]) == Sum(s) - s[i] + v && s[i] <= Sum(s)
  {
    if i < |s| - 1 {
      SumUpdate(s[..|s| - 1], i, v);
      assert s[i := v][..|s| - 1] == s[..|s| - 1][i := v];
    } else {
      assert s[i := v][..|s| - 1] == s[..|s| - 1];
    }
  }

  lemma {:induction false} SumLe(s: seq<nat>, t: seq<nat>)
    requires |s| == |t| && forall i | 0 <= i < |s| :: s[i] <= t[i]
    ensures Sum(s) <= Sum(t)
  {
    if s != [] { SumLe(s[..|s| - 1], t[..|t| - 1]); }
  }

  /** The time the other tasks have left. */
  function Counters(ts: seq<Task>, r: nat): (s: seq<nat>)
    ensures |s| == |ts| && forall i | 0 <= i < |ts| :: s[i] == if i == r || ts[i].Empty? then 0 else ts[i].counter
  {
    seq(|ts|, i requires 0 <= i < |ts| => if i == r || ts[i].Empty? then 0 else ts[i].counter)
  }

  /** The most time a recharge can give a task that may raise its priority to cap. */
  function Limit(t: Task, cap: nat): nat {
    if t.Empty? then 0 else Max(t.counter, 2 * Max(t.priority, cap))
  }

  function Max(a: nat, b: nat): nat {
    if a < b then b else a
  }

  /** The most time the other tasks can have after a recharge. */
  function Limits(ts: seq<Task>, r: nat, cap: nat): (s: seq<nat>)
    ensures |s| == |ts| && forall i | 0 <= i < |ts| :: s[i] == if i == 0 || i == r then 0 else Limit(ts[i], cap)
  {
    seq(|ts|, i requires 0 <= i < |ts| => if i == 0 || i == r then 0 else Limit(ts[i], cap))
  }

  /** The time the other tasks have, and may get by a recharge. */
  function Need(ts: seq<Task>, r: nat, cap: nat): nat {
    Sum(Counters(ts, r)) + if r < |ts| && ts[r].Task? && ts[r].counter == 0 then Sum(Limits(ts, r, cap)) else 0
  }

  /** How many ticks in user mode task r may still have to wait: one more while task 0 runs, or one whose time a tick in
      kernel mode has used up. */
  function Patience(ts: seq<Task>, current: nat, r: nat, cap: nat): nat {
    Need(ts, r, cap) + if current == 0 || (current < |ts| && ts[current].Task? && ts[current].counter == 0) then 1 else 0
  }

  /** r is runnable, and so is whoever runs instead of it, but for task 0. */
  predicate Waiting(ts: seq<Task>, current: nat, r: nat) {
    && TableOk(ts) && Runnable(ts, r) && current < NR_TASKS && ts[current].Task?
    && (current != 0 ==> Runnable(ts, current))
  }

  /** A task may lower its priority as it likes, and raise it up to cap. */
  predicate Permitted(ts: seq<Task>, current: nat, e: Event, cap: nat)
    requires current < |ts| && ts[current].Task?
  {
    e.Nice? ==> Niced(ts[current], e.increment).priority <= Max(ts[current].priority, cap)
  }

  lemma RechargeBounds(ts: seq<Task>, r: nat, cap: nat)
    requires TableOk(ts) && Runnable(ts, r)
    ensures Recharged(ts)[r].counter > 0
    ensures Sum(Counters(Recharged(ts), r)) <= Sum(Limits(ts, r, cap)) + Counters(ts, r)[0]
  {
    var l := Limits(ts, r, cap);
    SumUpdate(l, 0, Counters(ts, r)[0]);
    SumLe(Counters(Recharged(ts), r), l[0 := Counters(ts, r)[0]]);
  }

  /** schedule gives r no more to wait for, and leaves a task with time running. */
  lemma ScheduleLowers(ts: seq<Task>, r: nat, jiffies: int, cap: nat)
    requires TableOk(ts) && Runnable(ts, r)
    ensures var (ts', n) := Scheduled(ts, jiffies);
            n != 0 && Waiting(ts', n, r) && Patience(ts', n, r, cap) <= Need(ts, r, cap)
  {
    hide Raised, Pending;
    var w := Woken(ts, jiffies);
    WokenOk(ts, jiffies);
    RechargeOk(w);
    assert Counters(w, r) == Counters(ts, r) && Limits(w, r, cap) == Limits(ts, r, cap);
    assert Runnable(w, r);
    if Starved(w) {
      RechargeBounds(w, r, cap);
      SumUpdate(Counters(w, r), 0, 0);
    }
    var c := Charged(w);
    assert Runnable(c, r);
    var n := Choice(c);
    assert n != 0 && Runnable(c, n);
    assert c[n].counter > 0;
  }

  /** The running task with one tick less, if it has one. */
  function OneLess(ts: seq<Task>, current: nat): (r: seq<Task>)
    requires current < |ts| && ts[current].Task?
    ensures |r| == |ts|
  {
    ts[current := ts[current].(counter := if ts[current].counter > 0 then ts[current].counter - 1 else 0)]
  }

  lemma NeedsLess(ts: seq<Task>, current: nat, r: nat, cap: nat)
    requires current < |ts| && ts[current].Task? && current != r
    ensures Need(OneLess(ts, current), r, cap) + (if ts[current].counter > 0 then 1 else 0) <= Need(ts, r, cap)
  {
    var t1 := OneLess(ts, current);
    SumUpdate(Counters(ts, r), current, t1[current].counter);
    assert Counters(t1, r) == Counters(ts, r)[current := t1[current].counter];
    SumLe(Limits(t1, r, cap), Limits(ts, r, cap));
    hide Sum;
  }

  lemma TickLowers(ts: seq<Task>, current: nat, r: nat, jiffies: int, cap: nat)
    requires Waiting(ts, current, r) && current != r
    ensures var (ts', n) := Ticked(ts, current, 1, jiffies);
            Waiting(ts', n, r) && Patience(ts', n, r, cap) + 1 <= Patience(ts, current, r, cap)
  {
    hide Scheduled, Need;
    var t1 := OneLess(ts, current);
    NeedsLess(ts, current, r, cap);
    if t1[current].counter == 0 { ScheduleLowers(t1, r, jiffies, cap); }
  }

  /** A tick in kernel mode takes time from the running task, but lets it run on. */
  lemma KernelTickLowers(ts: seq<Task>, current: nat, r: nat, jiffies: int, cap: nat)
    requires Waiting(ts, current, r) && current != r
    ensures var (ts', n) := Ticked(ts, current, 0, jiffies);
            Waiting(ts', n, r) && Patience(ts', n, r, cap) <= Patience(ts, current, r, cap)
  {
    hide Scheduled, Need;
    NeedsLess(ts, current, r, cap);
  }

  /** Nothing that happens makes r wait longer, and every tick in user mode brings it nearer. */
  lemma StepLowers(ts: seq<Task>, current: nat, r: nat, e: Event, cap: nat)
    requires Waiting(ts, current, r) && current != r && Permitted(ts, current, e, cap)
    ensures var (ts', n) := Step(ts, current, e);
            Waiting(ts', n, r) && Patience(ts', n, r, cap) + (if e.Tick? then 1 else 0) <= Patience(ts, current, r, cap)
  {
    hide Scheduled, Sum, Ticked;
    match e
    case Tick(j) =>
      TickLowers(ts, current, r, j, cap);
    case KernelTick(j) =>
      KernelTickLowers(ts, current, r, j, cap);
    case Block(s, j) =>
      var t1 := ts[current := ts[current].(state := s)];
      assert Counters(t1, r) == Counters(ts, r) && Limits(t1, r, cap) == Limits(ts, r, cap);
      ScheduleLowers(t1, r, j, cap);
    case Wake(i) =>
      var (t1, n) := Step(ts, current, e);
      assert Counters(t1, r) == Counters(ts, r) && Limits(t1, r, cap) == Limits(ts, r, cap);
    case Nice(increment) =>
      var (t1, n) := Step(ts, current, e);
      assert Counters(t1, r) == Counters(ts, r);
      SumLe(Limits(t1, r, cap), Limits(ts, r, cap));
  }

  /** No task raises its priority above cap before r runs. */
  ghost predicate AllPermitted(ts: seq<Task>, current: nat, r: nat, events: seq<Event>, cap: nat)
    requires Waiting(ts, current, r)
    decreases |events|
  {
    events == [] || current == r || (
      && Permitted(ts, current, events[0], cap)
      && (StepLowers(ts, current, r, events[0], cap);
          var (ts', n) := Step(ts, current, events[0]);
          AllPermitted(ts', n, r, events[1..], cap)))
  }

  /** The ticks in user mode that pass before r runs. */
  ghost function TicksBefore(ts: seq<Task>, current: nat, r: nat, events: seq<Event>, cap: nat): nat
    requires Waiting(ts, current, r) && AllPermitted(ts, current, r, events, cap)
    decreases |events|
  {
    if events == [] || current == r then 0 else
      StepLowers(ts, current, r, events[0], cap);
      var (ts', n) := Step(ts, current, events[0]);
      (if events[0].Tick? then 1 else 0) + TicksBefore(ts', n, r, events[1..], cap)
  }

  /** Whatever the other tasks do, a runnable task waits no more ticks in user mode than they have time left, plus one,
      plus what one recharge can give them if its own time is used up. */
  lemma {:induction false} Fairness(ts: seq<Task>, current: nat, r: nat, events: seq<Event>, cap: nat)
    requires Waiting(ts, current, r) && AllPermitted(ts, current, r, events, cap)
    ensures TicksBefore(ts, current, r, events, cap) <= Patience(ts, current, r, cap)
    decreases |events|
  {
    if events != [] && current != r {
      StepLowers(ts, current, r, events[0], cap);
      var (ts', n) := Step(ts, current, events[0]);
      Fairness(ts', n, r, events[1..], cap);
    }
  }

  lemma {:induction false} SumSame(n: nat, v: nat)
    ensures Sum(seq(n, _ => v)) == n * v
  {
    if n > 0 {
      SumSame(n - 1, v);
      assert seq(n, _ => v)[..n - 1] == seq(n - 1, _ => v);
    }
  }

  /** While priorities stay at most top, that is at most 248 times top, and what is left of task 0, plus one. */
  lemma PatienceBound(ts: seq<Task>, current: nat, r: nat, cap: nat, top: nat)
    requires TableOk(ts) && 1 <= r < NR_TASKS && Within(ts, top) && cap <= top
    ensures Patience(ts, current, r, cap) <= 248 * top + ts[0].counter + 1
  {
    var all: seq<nat> := seq(NR_TASKS, _ => 2 * top);
    SumSame(NR_TASKS, 2 * top);
    SumUpdate(all, r, 0);
    var others := all[r := 0];
    SumUpdate(others, 0, 0);
    SumUpdate(others, 0, ts[0].counter);
    SumLe(Counters(ts, r), others[0 := ts[0].counter]);
    SumLe(Limits(ts, r, cap), others[0 := 0]);
  }
}
