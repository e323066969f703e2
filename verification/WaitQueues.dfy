/** sleep_on and wake_up of kernel/sched.cc.  A queue is a single pointer to the last task that went to sleep;
    the task before it is remembered only in that task's stack variable tmp, and so on. */
module WaitQueues {
  import opened Basics

  /** Who is going to wake a sleeping task: a wake_up of the queue, or a task that is still inside sleep_on. */
  datatype Waker = Nobody | Queue(q: nat) | By(task: nat)

  /** head of each queue (-1 for none); per task whether it is asleep, whether it is inside sleep_on, and its tmp.
      wakers and arrival only record how that came about. */
  datatype State = State(
    head: seq<int>, asleep: seq<bool>, inside: seq<bool>, tmp: seq<int>,
    wakers: seq<Waker>, arrival: seq<nat>, clock: nat)

  predicate Shape(s: State) {
    |s.asleep| == |s.inside| == |s.tmp| == |s.wakers| == |s.arrival| == NR_TASKS
  }

  predicate Linked(s: State, t: nat)
    requires Shape(s) && t < NR_TASKS
  {
    && s.arrival[t] < s.clock
    && (s.tmp[t] != -1 ==> 0 <= s.tmp[t] < NR_TASKS && s.asleep[s.tmp[t]] && s.wakers[s.tmp[t]] == By(t)
                           && s.arrival[s.tmp[t]] < s.arrival[t])
  }

  /** A task is asleep exactly when somebody is going to wake it, and that somebody points to it. */
  predicate Awaited(s: State, t: nat)
    requires Shape(s) && t < NR_TASKS
  {
    && (s.asleep[t] ==> s.inside[t])
    && match s.wakers[t]
       case Nobody => !s.asleep[t]
       case Queue(q) => s.asleep[t] && q < |s.head| && s.head[q] == t
       case By(u) => s.asleep[t] && u < NR_TASKS && s.inside[u] && s.tmp[u] == t
  }

  predicate Inv(s: State) {
    && Shape(s)
    && (forall q | 0 <= q < |s.head| && s.head[q] != -1 ::
          0 <= s.head[q] < NR_TASKS && s.asleep[s.head[q]] && s.wakers[s.head[q]] == Queue(q))
    && (forall t | 0 <= t < NR_TASKS :: Awaited(s, t))
    && (forall t | 0 <= t < NR_TASKS && s.inside[t] :: Linked(s, t))
  }

  datatype Event = Sleep(t: nat, q: nat) | WakeUp(q: nat) | Resume(t: nat)

  predicate Legal(s: State, e: Event) {
    Shape(s) && match e
    case Sleep(t, q) => 1 <= t < NR_TASKS && q < |s.head| && !s.inside[t]
    case WakeUp(q) => q < |s.head|
    case Resume(t) => t < NR_TASKS && s.inside[t] && !s.asleep[t]
  }

  /** sleep_on up to schedule(). */
  function Slept(s: State, t: nat, q: nat): State
    requires Shape(s) && t < NR_TASKS && q < |s.head| && s.head[q] < NR_TASKS
  {
    var last := s.head[q];
    var wakers := if last >= 0 then s.wakers[last := By(t)] else s.wakers;
    s.(head := s.head[q := t], asleep := s.asleep[t := true], inside := s.inside[t := true], tmp := s.tmp[t := last],
       wakers := wakers[t := Queue(q)], arrival := s.arrival[t := s.clock], clock := s.clock + 1)
  }

  /** wake_up */
  function Woken(s: State, q: nat): State
    requires Shape(s) && q < |s.head| && s.head[q] < NR_TASKS
  {
    var h := s.head[q];
    if h < 0 then s else
      s.(head := s.head[q := -1], asleep := s.asleep[h := false], wakers := s.wakers[h := Nobody])
  }

  /** sleep_on after schedule(): the task that slept before this one is woken in turn. */
  function Resumed(s: State, t: nat): State
    requires Shape(s) && t < NR_TASKS && s.tmp[t] < NR_TASKS
  {
    var u := s.tmp[t];
    var r := s.(inside := s.inside[t := false]);
    if u < 0 then r else r.(asleep := r.asleep[u := false], wakers := r.wakers[u := Nobody])
  }

  function Step(s: State, e: Event): State
    requires Inv(s) && Legal(s, e)
  {
    match e
    case Sleep(t, q) => Slept(s, t, q)
    case WakeUp(q) => Woken(s, q)
    case Resume(t) => Resumed(s, t)
  }

  lemma SleepKeeps(s: State, t: nat, q: nat)
    requires Inv(s) && Legal(s, Sleep(t, q))
    ensures Inv(Slept(s, t, q))
  {
    var r := Slept(s, t, q);
    assert Awaited(s, t);
    if s.head[q] >= 0 {
      assert Awaited(s, s.head[q]) && Linked(s, s.head[q]);
    }
    forall x: nat | x < NR_TASKS ensures Awaited(r, x) {
      assert Awaited(s, x);
    }
    forall x: nat | x < NR_TASKS && r.inside[x] ensures Linked(r, x) {
      assert s.inside[x] ==> Linked(s, x);
    }
  }

  lemma WakeKeeps(s: State, q: nat)
    requires Inv(s) && q < |s.head|
    ensures Inv(Woken(s, q))
  {
    var r := Woken(s, q);
    forall x: nat | x < NR_TASKS ensures Awaited(r, x) {
      assert Awaited(s, x);
    }
    forall x: nat | x < NR_TASKS && r.inside[x] ensures Linked(r, x) {
      assert Linked(s, x);
    }
  }

  lemma ResumeKeeps(s: State, t: nat)
    requires Inv(s) && Legal(s, Resume(t))
    ensures s.tmp[t] < NR_TASKS && Inv(Resumed(s, t))
  {
    assert Linked(s, t);
    var r := Resumed(s, t);
    forall x: nat | x < NR_TASKS ensures Awaited(r, x) {
      assert Awaited(s, x);
    }
    forall x: nat | x < NR_TASKS && r.inside[x] ensures Linked(r, x) {
      assert Linked(s, x);
    }
  }

  lemma StepKeeps(s: State, e: Event)
    requires Inv(s) && Legal(s, e)
    ensures Inv(Step(s, e))
  {
    match e
    case Sleep(t, q) => SleepKeeps(s, t, q);
    case WakeUp(q) => WakeKeeps(s, q);
    case Resume(t) => ResumeKeeps(s, t);
  }

  // ---- no sleeper is lost --------------------------------------------------------------------------

  /** c[0] leads to c[1] by its tmp, c[1] to c[2], and so on; all but perhaps c[0] are asleep. */
  predicate Chain(s: State, c: seq<nat>)
    requires Shape(s)
  {
    && c != [] && (forall i | 0 <= i < |c| :: c[i] < NR_TASKS && s.inside[c[i]])
    && (forall i | 0 <= i < |c| - 1 :: s.tmp[c[i]] == c[i + 1])
    && (forall i | 0 < i < |c| :: s.asleep[c[i]])
  }

  /** Where such a chain starts: at the head of a queue, or at a runnable task still inside sleep_on. */
  predicate Root(s: State, t: nat)
    requires Shape(s) && t < NR_TASKS
  {
    (s.asleep[t] && exists q :: 0 <= q < |s.head| && s.head[q] == t) || (!s.asleep[t] && s.inside[t])
  }

  /** Every sleeper can be reached from a queue head or a runnable task inside sleep_on. */
  lemma {:induction false} SleeperReached(s: State, t: nat) returns (c: seq<nat>)
    requires Inv(s) && t < NR_TASKS && s.asleep[t]
    ensures Chain(s, c) && c[|c| - 1] == t && Root(s, c[0])
    decreases s.clock - s.arrival[t]
  {
    assert Awaited(s, t) && Linked(s, t);
    match s.wakers[t]
    case Queue(q) =>
      c := [t];
    case By(u) =>
      assert Awaited(s, u) && Linked(s, u);
      if s.asleep[u] {
        var d := SleeperReached(s, u);
        c := d + [t];
      } else {
        c := [u, t];
      }
  }

  /** The whole of a chain that hangs from a runnable task: nobody else is going to wake its members. */
  predicate Hanging(s: State, c: seq<nat>)
    requires Shape(s)
  {
    Chain(s, c) && !s.asleep[c[0]] && s.tmp[c[|c| - 1]] == -1
  }

  lemma AfterWakeUp(s: State, q: nat, c: seq<nat>)
    requires Inv(s) && q < |s.head| && Chain(s, c) && s.head[q] == c[0] && s.tmp[c[|c| - 1]] == -1
    ensures Hanging(Woken(s, q), c)
  {
    forall i | 0 < i < |c| ensures c[i] != c[0] {
      assert Linked(s, c[i - 1]);
      assert s.wakers[c[i]] == By(c[i - 1]);
    }
  }

  /** Each member of a chain but the first is to be woken by the one before it. */
  lemma WokenInTurn(s: State, c: seq<nat>, i: nat)
    requires Inv(s) && Chain(s, c) && 0 < i < |c|
    ensures s.wakers[c[i]] == By(c[i - 1])
  {
    assert Linked(s, c[i - 1]);
  }

  lemma HangingSleep(s: State, c: seq<nat>, t: nat, q: nat)
    requires Inv(s) && Hanging(s, c) && Legal(s, Sleep(t, q))
    ensures Hanging(Slept(s, t, q), c)
  {
    assert forall i | 0 <= i < |c| :: c[i] != t;
  }

  lemma HangingWakeUp(s: State, c: seq<nat>, q: nat)
    requires Inv(s) && Hanging(s, c) && q < |s.head|
    ensures Hanging(Woken(s, q), c)
  {
    forall i | 0 < i < |c| ensures c[i] != s.head[q] { WokenInTurn(s, c, i); }
  }

  lemma HangingOther(s: State, c: seq<nat>, t: nat)
    requires Inv(s) && Hanging(s, c) && Legal(s, Resume(t)) && t != c[0]
    ensures s.tmp[t] < NR_TASKS && Hanging(Resumed(s, t), c)
  {
    assert Linked(s, t);
    forall i | 0 < i < |c| ensures c[i] != s.tmp[t] && c[i] != t {
      WokenInTurn(s, c, i);
      assert c[i - 1] != t;
    }
  }

  lemma HangingFirst(s: State, c: seq<nat>)
    requires Inv(s) && Hanging(s, c)
    ensures s.tmp[c[0]] < NR_TASKS && !Resumed(s, c[0]).inside[c[0]]
    ensures |c| > 1 ==> Hanging(Resumed(s, c[0]), c[1..])
  {
    assert Linked(s, c[0]);
    forall i | 1 < i < |c| ensures c[i] != c[1] {
      WokenInTurn(s, c, i);
      WokenInTurn(s, c, 1);
      if i > 2 { WokenInTurn(s, c, i - 1); }
    }
    assert forall i | 0 < i < |c| :: c[i] != c[0];
  }

  /** A step either leaves a hanging chain as it is, or is its first task resuming, which makes the next runnable. */
  lemma HangingStep(s: State, c: seq<nat>, e: Event)
    requires Inv(s) && Hanging(s, c) && Legal(s, e)
    ensures Shape(Step(s, e))
    ensures e != Resume(c[0]) ==> Hanging(Step(s, e), c)
    ensures e == Resume(c[0]) && |c| > 1 ==> Hanging(Step(s, e), c[1..])
    ensures e == Resume(c[0]) ==> !Step(s, e).inside[c[0]]
  {
    StepKeeps(s, e);
    hide Hanging, Linked, Awaited;
    match e
    case Sleep(t, q) => HangingSleep(s, c, t, q);
    case WakeUp(q) => HangingWakeUp(s, c, q);
    case Resume(t) =>
      if t != c[0] { HangingOther(s, c, t); } else { HangingFirst(s, c); }
  }

  predicate LegalRun(s: State, events: seq<Event>)
    requires Inv(s)
    decreases |events|
  {
    events == [] || (Legal(s, events[0]) && (StepKeeps(s, events[0]); LegalRun(Step(s, events[0]), events[1..])))
  }

  function Run(s: State, events: seq<Event>): (r: State)
    requires Inv(s) && LegalRun(s, events)
    ensures Inv(r)
    decreases |events|
  {
    if events == [] then s else
      StepKeeps(s, events[0]);
      Run(Step(s, events[0]), events[1..])
  }

  /** How many tasks of chain c have resumed after the events. */
  function Done(s: State, c: seq<nat>, events: seq<Event>): (n: nat)
    requires Inv(s) && LegalRun(s, events)
    ensures n <= |c|
    decreases |events|
  {
    if events == [] || c == [] then 0 else
      StepKeeps(s, events[0]);
      if events[0] == Resume(c[0]) then 1 + Done(Step(s, events[0]), c[1..], events[1..])
      else Done(Step(s, events[0]), c, events[1..])
  }

  /** Whatever happens after a wake_up, the tasks it found asleep resume one after the other, in order; as long as
      any is left, the first of those left is runnable, so the number still asleep goes down until it is zero. */
  lemma {:induction false} AllResume(s: State, c: seq<nat>, events: seq<Event>)
    requires Inv(s) && LegalRun(s, events) && (c != [] ==> Hanging(s, c))
    ensures var n := Done(s, c, events); n < |c| ==> Hanging(Run(s, events), c[n..])
    decreases |events|
  {
    if events != [] && c != [] {
      var e := events[0];
      StepKeeps(s, e);
      HangingStep(s, c, e);
      if e == Resume(c[0]) {
        AllResume(Step(s, e), c[1..], events[1..]);
        var m := Done(Step(s, e), c[1..], events[1..]);
        assert c[1..][m..] == c[m + 1..];
      } else {
        AllResume(Step(s, e), c, events[1..]);
      }
    }
  }

  /** Those counted have resumed. */
  lemma {:induction false} DoneResumed(s: State, c: seq<nat>, events: seq<Event>, i: nat)
    requires Inv(s) && LegalRun(s, events) && i < Done(s, c, events)
    ensures Resume(c[i]) in events
    decreases |events|
  {
    var e := events[0];
    StepKeeps(s, e);
    if e != Resume(c[0]) {
      DoneResumed(Step(s, e), c, events[1..], i);
    } else if i > 0 {
      DoneResumed(Step(s, e), c[1..], events[1..], i - 1);
    }
  }

  /** The first task left is counted as soon as it resumes. */
  lemma {:induction false} FirstDone(s: State, c: seq<nat>, events: seq<Event>)
    requires Inv(s) && LegalRun(s, events) && c != [] && Hanging(s, c) && Resume(c[0]) in events
    ensures Done(s, c, events) >= 1
    decreases |events|
  {
    var e := events[0];
    StepKeeps(s, e);
    HangingStep(s, c, e);
    if e != Resume(c[0]) { FirstDone(Step(s, e), c, events[1..]); }
  }

  lemma {:induction false} RunConcat(s: State, c: seq<nat>, a: seq<Event>, b: seq<Event>)
    requires Inv(s) && LegalRun(s, a) && LegalRun(Run(s, a), b)
    ensures LegalRun(s, a + b) && Run(s, a + b) == Run(Run(s, a), b)
    ensures Done(s, c, a + b) == Done(s, c, a) + Done(Run(s, a), c[Done(s, c, a)..], b)
    decreases |a|
  {
    if a == [] {
      assert a + b == b && c[0..] == c;
    } else {
      var e := a[0];
      StepKeeps(s, e);
      assert (a + b)[0] == e && (a + b)[1..] == a[1..] + b;
      RunConcat(Step(s, e), c, a[1..], b);
      if c != [] && e == Resume(c[0]) {
        RunConcat(Step(s, e), c[1..], a[1..], b);
        var n := Done(Step(s, e), c[1..], a[1..]);
        assert c[1..][n..] == c[n + 1..];
      }
    }
  }

  function Flat(rounds: seq<seq<Event>>): seq<Event> {
    if rounds == [] then [] else rounds[0] + Flat(rounds[1..])
  }

  /** In each round every task that is runnable when it begins gets to run. */
  predicate FairRounds(s: State, rounds: seq<seq<Event>>)
    requires Inv(s)
    decreases |rounds|
  {
    rounds == [] || (
      && LegalRun(s, rounds[0])
      && (forall t: nat | t < NR_TASKS && !s.asleep[t] && s.inside[t] :: Resume(t) in rounds[0])
      && FairRounds(Run(s, rounds[0]), rounds[1..]))
  }

  /** After as many rounds as a hanging chain has tasks, every one of them has resumed. */
  lemma {:induction false} AllServed(s: State, c: seq<nat>, rounds: seq<seq<Event>>)
    requires Inv(s) && (c != [] ==> Hanging(s, c)) && FairRounds(s, rounds) && |rounds| >= |c|
    ensures LegalRun(s, Flat(rounds)) && Done(s, c, Flat(rounds)) == |c|
    decreases |rounds|
  {
    if rounds != [] {
      var a := rounds[0];
      var r := Run(s, a);
      if c != [] { FirstDone(s, c, a); }
      AllResume(s, c, a);
      var n := Done(s, c, a);
      AllServed(r, c[n..], rounds[1..]);
      RunConcat(s, c, a, Flat(rounds[1..]));
    }
  }

  /** So one wake_up has everybody who was asleep on the queue resume, in as many rounds as there were tasks. */
  lemma EverybodyResumes(s: State, q: nat, c: seq<nat>, rounds: seq<seq<Event>>)
    requires Inv(s) && q < |s.head| && Chain(s, c) && s.head[q] == c[0] && s.tmp[c[|c| - 1]] == -1
    requires Inv(Woken(s, q)) && FairRounds(Woken(s, q), rounds) && |rounds| >= |c|
    ensures LegalRun(Woken(s, q), Flat(rounds)) && forall i | 0 <= i < |c| :: Resume(c[i]) in Flat(rounds)
  {
    AfterWakeUp(s, q, c);
    AllServed(Woken(s, q), c, rounds);
    forall i | 0 <= i < |c| ensures Resume(c[i]) in Flat(rounds) {
      DoneResumed(Woken(s, q), c, Flat(rounds), i);
    }
  }

  /** One wake_up is enough for everybody who was asleep on the queue: whatever happens, those not counted yet hang from
      a task that is runnable, and those counted have resumed. */
  lemma OneWakeUpIsEnough(s: State, q: nat, c: seq<nat>, events: seq<Event>, i: nat)
    requires Inv(s) && q < |s.head| && Chain(s, c) && s.head[q] == c[0] && s.tmp[c[|c| - 1]] == -1 && i < |c|
    requires Inv(Woken(s, q)) && LegalRun(Woken(s, q), events)
    ensures var r, n := Run(Woken(s, q), events), Done(Woken(s, q), c, events);
            && (i < n ==> Resume(c[i]) in events)
            && (i == n ==> !r.asleep[c[i]] && r.inside[c[i]])
            && (i > n ==> r.asleep[c[i]] && !r.asleep[c[n]] && r.inside[c[n]] && r.tmp[c[n]] == c[n + 1])
  {
    AfterWakeUp(s, q, c);
    AllResume(Woken(s, q), c, events);
    var r, n := Run(Woken(s, q), events), Done(Woken(s, q), c, events);
    if i >= n {
      assert c[n..][i - n] == c[i] && c[n..][0] == c[n];
      assert i > n ==> c[n..][1] == c[n + 1];
    } else {
      DoneResumed(Woken(s, q), c, events, i);
    }
  }

  /** The chain of the sleepers behind task t, to its end. */
  lemma {:induction false} ChainBehind(s: State, t: nat) returns (c: seq<nat>)
    requires Inv(s) && t < NR_TASKS && s.inside[t]
    ensures Chain(s, c) && c[0] == t && s.tmp[c[|c| - 1]] == -1
    decreases s.arrival[t]
  {
    assert Linked(s, t);
    if s.tmp[t] == -1 {
      c := [t];
    } else {
      assert Awaited(s, s.tmp[t]);
      var d := ChainBehind(s, s.tmp[t]);
      c := [t] + d;
    }
  }

  /** All queues empty, nobody asleep. */
  lemma StartOk(n: nat)
    ensures Inv(State(seq(n, q => -1), seq(NR_TASKS, t => false), seq(NR_TASKS, t => false), seq(NR_TASKS, t => -1),
                      seq(NR_TASKS, t => Nobody), seq(NR_TASKS, t => 0), 0))
  {
  }

  class Queues {
    var head: seq<int>
    var asleep: seq<bool>
    var tmp: seq<int>
    ghost var inside: seq<bool>
    ghost var wakers: seq<Waker>
    ghost var arrival: seq<nat>
    ghost var clock: nat

    ghost function Snap(): State
      reads this
    {
      State(head, asleep, inside, tmp, wakers, arrival, clock)
    }

    /** sleep_on by task t up to schedule(), which returns when t has been made runnable. */
    method SleepOn(t: nat, q: nat)
      requires Inv(Snap()) && Legal(Snap(), Sleep(t, q))
      modifies this
      ensures Snap() == Step(old(Snap()), Sleep(t, q)) && Inv(Snap())
    {
      SleepKeeps(Snap(), t, q);
      hide Inv;
      ghost var last := head[q];
      tmp := tmp[t := head[q]];
      head := head[q := t];
      asleep := asleep[t := true];
      inside := inside[t := true];
      wakers := if last >= 0 then wakers[last := By(t)][t := Queue(q)] else wakers[t := Queue(q)];
      arrival := arrival[t := clock];
      clock := clock + 1;
    }

    /** sleep_on from there on. */
    method AfterSchedule(t: nat)
      requires Inv(Snap()) && Legal(Snap(), Resume(t))
      modifies this
      ensures Snap() == Step(old(Snap()), Resume(t)) && Inv(Snap())
    {
      ResumeKeeps(Snap(), t);
      assert Linked(Snap(), t);
      hide Inv;
      inside := inside[t := false];
      if tmp[t] != -1 {
        asleep := asleep[tmp[t] := false];
        wakers := wakers[tmp[t] := Nobody];
      }
    }

    method WakeUp(q: nat)
      requires Inv(Snap()) && q < |head|
      modifies this
      ensures Snap() == Step(old(Snap()), Event.WakeUp(q)) && Inv(Snap())
    {
      WakeKeeps(Snap(), q);
      if head[q] != -1 {
        wakers := wakers[head[q] := Nobody];
        asleep := asleep[head[q] := false];
        head := head[q := -1];
      }
    }
  }
}
