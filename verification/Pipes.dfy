/** fs/pipe.cc: read_pipe and write_pipe over one page, and what happens to the tasks that sleep on the pipe. */
module Pipes {
  import opened Basics
  import opened Rings

  datatype Outcome = Returned | Asleep

  /** One pipe.  Its inode is counted once for each end that is open. */
  class Pipe {
    var ring: Ring<Byte>
    var icount: nat

    predicate Valid()
      reads this
    {
      Ok(ring) && |ring.buf| == PAGE_SIZE
    }

    function Buffered(): (c: seq<Byte>)
      reads this
      requires Valid()
      ensures |c| <= 4095
    {
      Contents(ring)
    }

    /** get_pipe_inode */
    constructor (page: seq<Byte>)
      requires |page| == PAGE_SIZE
      ensures Valid() && Buffered() == [] && icount == 2
    {
      ring := Ring(page, 0, 0);
      icount := 2;
    }

    /** read_pipe from the start, or from where it woke up, to its return or the next sleep.  It takes what is there
        up to count, in order, and sleeps only when the pipe is empty, more is wanted and both ends are open. */
    method ReadUntilSleep(count: nat) returns (bytes: seq<Byte>, o: Outcome)
      requires Valid()
      modifies this`ring
      ensures Valid() && old(Buffered()) == bytes + Buffered() && |bytes| == Min(count, old(|Buffered()|))
      ensures o == Asleep <==> |bytes| < count && icount == 2
    {
      hide Contents, Size;
      bytes := [];
      var left := count;
      assert [] + Buffered() == Buffered();
      while left > 0
        invariant Valid() && old(Buffered()) == bytes + Buffered() && 0 <= left && |bytes| + left == count
        decreases left
      {
        var size := Size(ring);
        if size == 0 {
          return bytes, if icount != 2 then Returned else Asleep;
        }
        var chars := PAGE_SIZE - ring.tail;
        if chars > left { chars := left; }
        if chars > size { chars := size; }
        left := left - chars;
        var chunk := TakeChunk(chars);
        Regrouped(bytes, chunk, Buffered());
        bytes := bytes + chunk;
      }
      assert |old(Buffered())| == |bytes + Buffered()| && left == 0;
      o := Returned;
    }

    lemma Regrouped(a: seq<Byte>, b: seq<Byte>, c: seq<Byte>)
      ensures a + (b + c) == (a + b) + c
    {
    }

    /** The oldest bytes, none of them beyond the end of the page. */
    method TakeChunk(chars: nat) returns (chunk: seq<Byte>)
      requires Valid() && 0 < chars <= Size(ring) && ring.tail + chars <= PAGE_SIZE
      modifies this`ring
      ensures Valid() && |chunk| == chars && old(Buffered()) == chunk + Buffered()
    {
      GetAllOk(ring, chars);
      chunk := ring.buf[ring.tail..ring.tail + chars];
      ring := GetAll(ring, chars);
    }

    /** write_pipe likewise: it stores what there is room for, in order, and sleeps only when the pipe is full. */
    method WriteUntilSleep(data: seq<Byte>) returns (n: nat, o: Outcome)
      requires Valid()
      modifies this`ring
      ensures Valid() && n == Min(|data|, 4095 - old(|Buffered()|)) && Buffered() == old(Buffered()) + data[..n]
      ensures o == Asleep <==> n < |data| && icount == 2
    {
      n := 0;
      assert old(Buffered()) + data[..0] == Buffered();
      while n < |data|
        invariant Valid() && n <= |data| && Buffered() == old(Buffered()) + data[..n]
        decreases |data| - n
      {
        var size := PAGE_SIZE - 1 - Size(ring);
        if size == 0 {
          return n, if icount != 2 then Returned else Asleep;
        }
        var chars := PAGE_SIZE - ring.head;
        if chars > |data| - n { chars := |data| - n; }
        if chars > size { chars := size; }
        PutAllOk(ring, data[n..n + chars]);
        ring := PutAll(ring, data[n..n + chars]);
        assert old(Buffered()) + data[..n] + data[n..n + chars] == old(Buffered()) + data[..n + chars];
        n := n + chars;
      }
      o := Returned;
    }

    /** The part of iput that concerns a pipe; it wakes everybody first. */
    method CloseEnd()
      requires Valid() && icount > 0
      modifies this`icount
      ensures icount == old(icount) - 1
    {
      icount := icount - 1;
    }
  }

  // ---- runs ----------------------------------------------------------------------------------------

  /** What a task is in the middle of. */
  datatype Work = Idle | Reading(count: nat) | Writing(data: seq<Byte>)

  datatype Task = Task(work: Work, asleep: bool)

  /** buffered is the pipe; waiting is the task on the inode's i_wait, -1 for none; written and read are all the bytes
      that ever went in and came out. */
  datatype State = State(buffered: seq<Byte>, icount: nat, tasks: seq<Task>, waiting: int, written: seq<Byte>, read: seq<Byte>)

  datatype Event = Start(t: nat, work: Work) | Continue(t: nat) | Close

  predicate Legal(s: State, e: Event) {
    match e
    case Start(t, w) => t < |s.tasks| && s.tasks[t] == Task(Idle, false)
    case Continue(t) => t < |s.tasks| && !s.tasks[t].asleep
    case Close => s.icount > 0
  }

  /** wake_up(&inode->i_wait): the task there, and no other. */
  function Woken(s: State): (r: State)
    ensures r == s.(tasks := r.tasks, waiting := -1) && |r.tasks| == |s.tasks|
  {
    s.(tasks := if 0 <= s.waiting < |s.tasks| then s.tasks[s.waiting := s.tasks[s.waiting].(asleep := false)] else s.tasks,
       waiting := -1)
  }

  /** sleep_on(&inode->i_wait): the task takes the place there. */
  function Slept(s: State, t: nat, w: Work): (r: State)
    requires t < |s.tasks|
  {
    s.(tasks := s.tasks[t := Task(w, true)], waiting := t)
  }

  function Done(s: State, t: nat): (r: State)
    requires t < |s.tasks|
  {
    s.(tasks := s.tasks[t := Task(Idle, false)])
  }

  /** A task runs until it sleeps or is done; either way it calls wake_up after it last touched the pipe, and before it
      sleeps itself. */
  function Advance(s: State, t: nat): (r: State)
    requires t < |s.tasks| && |s.buffered| <= 4095
    ensures |r.buffered| <= 4095
  {
    match s.tasks[t].work
    case Idle => s
    case Reading(count) =>
      var k := Min(count, |s.buffered|);
      var r := Woken(s.(buffered := s.buffered[k..], read := s.read + s.buffered[..k]));
      if k < count && s.icount == 2 then Slept(r, t, Reading(count - k)) else Done(r, t)
    case Writing(data) =>
      var k := Min(|data|, 4095 - |s.buffered|);
      var r := Woken(s.(buffered := s.buffered + data[..k], written := s.written + data[..k]));
      if k < |data| && s.icount == 2 then Slept(r, t, Writing(data[k..])) else Done(r, t)
  }

  function Step(s: State, e: Event): State
    requires Legal(s, e) && |s.buffered| <= 4095
  {
    match e
    case Start(t, w) => s.(tasks := s.tasks[t := Task(w, false)])
    case Continue(t) => Advance(s, t)
    case Close => Woken(s).(icount := s.icount - 1)
  }

  /** Whoever sleeps has reason to, and somebody at the other end to wake it. */
  predicate Reason(s: State, w: Work) {
    && s.icount == 2
    && match w
       case Idle => false
       case Reading(count) => s.buffered == [] && count > 0
       case Writing(data) => |s.buffered| == 4095 && data != []
  }

  /** Nothing is lost or reordered; at most one task sleeps, and it is the one on i_wait. */
  predicate Inv(s: State) {
    && |s.buffered| <= 4095 && s.written == s.read + s.buffered && -1 <= s.waiting < |s.tasks|
    && forall t | 0 <= t < |s.tasks| :: (s.tasks[t].asleep <==> s.waiting == t) && (s.tasks[t].asleep ==> Reason(s, s.tasks[t].work))
  }

  /** So one wake_up wakes every task that sleeps on the pipe, and sleep_on never finds another one there. */
  lemma WakesAll(s: State)
    requires Inv(s)
    ensures forall t | 0 <= t < |s.tasks| :: !Woken(s).tasks[t].asleep && Woken(s).tasks[t].work == s.tasks[t].work
  {
  }

  lemma StepKeeps(s: State, e: Event)
    requires Inv(s) && Legal(s, e)
    ensures Inv(Step(s, e))
  {
    WakesAll(s);
    match e
    case Start(t, w) =>
    case Close =>
    case Continue(t) =>
      match s.tasks[t].work
      case Idle =>
      case Reading(count) =>
        var k := Min(count, |s.buffered|);
        assert s.read + s.buffered == s.read + s.buffered[..k] + s.buffered[k..];
      case Writing(data) =>
        var k := Min(|data|, 4095 - |s.buffered|);
        assert s.read + s.buffered + data[..k] == s.read + (s.buffered + data[..k]);
  }

  predicate LegalRun(s: State, events: seq<Event>)
    requires Inv(s)
    decreases |events|
  {
    events == [] || (Legal(s, events[0]) && (StepKeeps(s, events[0]); LegalRun(Step(s, events[0]), events[1..])))
  }

  function Run(s: State, events: seq<Event>): (r: State)
    requires Inv(s) && LegalRun(s, events)
    ensures Inv(r)
    decreases |events|
  {
    if events == [] then s else
      StepKeeps(s, events[0]);
      Run(Step(s, events[0]), events[1..])
  }

  /** A new pipe, and tasks that have nothing to do with it yet. */
  function Fresh(tasks: nat): (s: State)
    ensures Inv(s)
  {
    State([], 2, seq(tasks, i => Task(Idle, false)), -1, [], [])
  }

  /** Over every run of readers, writers and closes: what was read is a prefix of what was written, the pipe holds
      the rest, never more than 4095 bytes; no two tasks are ever asleep on it, and nobody sleeps once an end has
      been closed. */
  lemma PipeSafe(tasks: nat, events: seq<Event>, t: nat, u: nat)
    requires LegalRun(Fresh(tasks), events)
    ensures var r := Run(Fresh(tasks), events);
            && r.read <= r.written && r.buffered == r.written[|r.read|..] && |r.buffered| <= 4095
            && (r.icount != 2 && t < |r.tasks| ==> !r.tasks[t].asleep)
            && (t < |r.tasks| && u < |r.tasks| && r.tasks[t].asleep && r.tasks[u].asleep ==> t == u)
  {
    var r := Run(Fresh(tasks), events);
    assert r.written == r.read + r.buffered;
  }

  // ---- one call, from its start to its end -------------------------------------------------------

  /** The bytes task t puts in during the events. */
  function PutBy(s: State, t: nat, events: seq<Event>): seq<Byte>
    requires Inv(s) && LegalRun(s, events)
    decreases |events|
  {
    if events == [] then [] else
      StepKeeps(s, events[0]);
      var r := Step(s, events[0]);
      Grows(s, events[0]);
      (if events[0] == Continue(t) then r.written[|s.written|..] else []) + PutBy(r, t, events[1..])
  }

  /** The bytes task t takes out. */
  function TakenBy(s: State, t: nat, events: seq<Event>): seq<Byte>
    requires Inv(s) && LegalRun(s, events)
    decreases |events|
  {
    if events == [] then [] else
      StepKeeps(s, events[0]);
      var r := Step(s, events[0]);
      Grows(s, events[0]);
      (if events[0] == Continue(t) then r.read[|s.read|..] else []) + TakenBy(r, t, events[1..])
  }

  lemma Grows(s: State, e: Event)
    requires Inv(s) && Legal(s, e)
    ensures var r := Step(s, e); s.written <= r.written && s.read <= r.read && r.icount <= s.icount && |r.tasks| == |s.tasks|
  {
  }

  /** Task t begins no other call. */
  predicate NoStart(events: seq<Event>, t: nat) {
    forall e | e in events :: !(e.Start? && e.t == t)
  }

  lemma {:induction false} IdleStays(s: State, t: nat, events: seq<Event>)
    requires Inv(s) && LegalRun(s, events) && t < |s.tasks| && s.tasks[t].work == Idle && NoStart(events, t)
    ensures PutBy(s, t, events) == TakenBy(s, t, events) == []
    ensures var r := Run(s, events); t < |r.tasks| && r.tasks[t].work == Idle && r.icount <= s.icount
    decreases |events|
  {
    if events != [] {
      StepKeeps(s, events[0]);
      Grows(s, events[0]);
      OtherWork(s, events[0], t);
      IdleStays(Step(s, events[0]), t, events[1..]);
    }
  }

  /** What other tasks do does not touch the call task t is in. */
  lemma OtherWork(s: State, e: Event, t: nat)
    requires Inv(s) && Legal(s, e) && t < |s.tasks| && !(e.Start? && e.t == t)
    ensures t < |Step(s, e).tasks| && (e != Continue(t) || s.tasks[t].work == Idle ==> Step(s, e).tasks[t].work == s.tasks[t].work)
    ensures e == Continue(t) && s.tasks[t].work == Idle ==> Step(s, e) == s
  {
  }

  /** One turn of a write. */
  lemma WriteTurn(s: State, t: nat, data: seq<Byte>)
    requires Inv(s) && t < |s.tasks| && s.tasks[t] == Task(Writing(data), false)
    ensures var r, k := Step(s, Continue(t)), Min(|data|, 4095 - |s.buffered|);
            && r.written[|s.written|..] == data[..k] && t < |r.tasks|
            && r.tasks[t].work == if k < |data| && s.icount == 2 then Writing(data[k..]) else Idle
  {
    var r, k := Step(s, Continue(t)), Min(|data|, 4095 - |s.buffered|);
    assert r.written == s.written + data[..k];
  }

  /** p has gone in, and what is left of the call is the rest of data; when the call is over, nothing is left, unless an
      end was closed. */
  predicate PartWritten(r: State, t: nat, data: seq<Byte>, p: seq<Byte>) {
    t < |r.tasks| &&
    match r.tasks[t].work
    case Writing(rest) => p + rest == data
    case Idle => p <= data && (r.icount == 2 ==> p == data)
    case Reading(_) => false
  }

  lemma PartJoin(r: State, t: nat, data: seq<Byte>, k: nat, p: seq<Byte>)
    requires k <= |data| && PartWritten(r, t, data[k..], p)
    ensures PartWritten(r, t, data, data[..k] + p)
  {
    assert data == data[..k] + data[k..];
    match r.tasks[t].work
    case Writing(rest) => assert data[..k] + (p + rest) == data[..k] + p + rest;
    case Idle => assert data[k..] == p + data[k..][|p|..];
  }

  /** Over any run, what a write has stored so far and what it has left are the data it was given, in order; a write that
      has ended has stored all of it, unless an end was closed. */
  lemma {:induction false} WriteInOrder(s: State, t: nat, data: seq<Byte>, events: seq<Event>)
    requires Inv(s) && LegalRun(s, events) && t < |s.tasks| && s.tasks[t].work == Writing(data) && s.icount <= 2 && NoStart(events, t)
    ensures Run(s, events).icount <= s.icount && PartWritten(Run(s, events), t, data, PutBy(s, t, events))
    decreases |events|
  {
    if events != [] {
      var e, rest := events[0], events[1..];
      RunUnfold(s, t, events);
      OtherWork(s, e, t);
      var r := Step(s, e);
      hide Step, Inv, PartWritten, Run, PutBy, TakenBy, LegalRun;
      if e == Continue(t) {
        var k := Min(|data|, 4095 - |s.buffered|);
        WriteTurn(s, t, data);
        if r.tasks[t].work == Idle {
          IdleStays(r, t, rest);
          PartDone(Run(r, rest), t, data, k);
        } else {
          WriteInOrder(r, t, data[k..], rest);
          PartJoin(Run(r, rest), t, data, k, PutBy(r, t, rest));
        }
      } else {
        WriteInOrder(r, t, data, rest);
      }
    }
  }

  lemma PartDone(r: State, t: nat, data: seq<Byte>, k: nat)
    requires k <= |data| && t < |r.tasks| && r.tasks[t].work == Idle && (r.icount == 2 ==> k == |data|)
    ensures PartWritten(r, t, data, data[..k] + [])
  {
  }

  lemma RunUnfold(s: State, t: nat, events: seq<Event>)
    requires Inv(s) && LegalRun(s, events) && events != []
    ensures Legal(s, events[0])
    ensures var r := Step(s, events[0]);
            && Inv(r) && LegalRun(r, events[1..]) && Run(s, events) == Run(r, events[1..])
            && s.written <= r.written && s.read <= r.read && r.icount <= s.icount && |r.tasks| == |s.tasks|
            && PutBy(s, t, events) == (if events[0] == Continue(t) then r.written[|s.written|..] else []) + PutBy(r, t, events[1..])
            && TakenBy(s, t, events) == (if events[0] == Continue(t) then r.read[|s.read|..] else []) + TakenBy(r, t, events[1..])
  {
    StepKeeps(s, events[0]);
    Grows(s, events[0]);
  }

  /** The same for a read: it never takes more than it asked for, and ends with as much unless an end was closed. */
  lemma {:induction false} ReadInOrder(s: State, t: nat, count: nat, events: seq<Event>)
    requires Inv(s) && LegalRun(s, events) && t < |s.tasks| && s.tasks[t].work == Reading(count) && s.icount <= 2 && NoStart(events, t)
    ensures var r, p := Run(s, events), TakenBy(s, t, events);
            && t < |r.tasks| && r.icount <= s.icount
            && match r.tasks[t].work
               case Reading(rest) => |p| + rest == count
               case Idle => |p| <= count && (r.icount == 2 ==> |p| == count)
               case Writing(_) => false
    decreases |events|
  {
    if events != [] {
      var e := events[0];
      StepKeeps(s, e);
      Grows(s, e);
      OtherWork(s, e, t);
      var r := Step(s, e);
      if e == Continue(t) {
        var k := Min(count, |s.buffered|);
        assert r.read == s.read + s.buffered[..k] && r.read[|s.read|..] == s.buffered[..k];
        if r.tasks[t].work == Idle { IdleStays(r, t, events[1..]); } else { ReadInOrder(r, t, count - k, events[1..]); }
      } else {
        ReadInOrder(r, t, count, events[1..]);
      }
    }
  }

  /** The tasks on a pipe, which take the steps of a run on the pipe itself. */
  class Users {
    const pipe: Pipe
    var tasks: seq<Task>
    var waiting: int
    ghost var written: seq<Byte>
    ghost var read: seq<Byte>

    ghost function Snap(): State
      reads this, pipe
      requires pipe.Valid()
    {
      State(pipe.Buffered(), pipe.icount, tasks, waiting, written, read)
    }

    ghost predicate Valid()
      reads this, pipe
    {
      pipe.Valid() && Inv(Snap())
    }

    constructor (page: seq<Byte>, n: nat)
      requires |page| == PAGE_SIZE
      ensures Valid() && Snap() == Fresh(n) && fresh(pipe)
    {
      pipe := new Pipe(page);
      tasks := seq(n, i => Task(Idle, false));
      waiting, written, read := -1, [], [];
    }

    method WakeUp()
      requires pipe.Valid()
      modifies this`tasks, this`waiting
      ensures pipe.Valid() && Snap() == Woken(old(Snap()))
    {
      if 0 <= waiting < |tasks| {
        tasks := tasks[waiting := tasks[waiting].(asleep := false)];
      }
      waiting := -1;
    }

    method Sleep(t: nat, w: Work)
      requires pipe.Valid() && t < |tasks|
      modifies this`tasks, this`waiting
      ensures pipe.Valid() && Snap() == Slept(old(Snap()), t, w)
    {
      tasks := tasks[t := Task(w, true)];
      waiting := t;
    }

    /** read or write on the pipe begins. */
    method Begin(t: nat, w: Work)
      requires Valid() && Legal(Snap(), Start(t, w))
      modifies this`tasks
      ensures Valid() && Snap() == Step(old(Snap()), Start(t, w))
    {
      StepKeeps(Snap(), Start(t, w));
      tasks := tasks[t := Task(w, false)];
    }

    /** A task that is not asleep goes on, to its next sleep or the end. */
    method Resume(t: nat)
      requires Valid() && Legal(Snap(), Continue(t))
      modifies this, pipe
      ensures Valid() && Snap() == Step(old(Snap()), Continue(t))
    {
      StepKeeps(Snap(), Continue(t));
      hide Inv;
      match tasks[t].work
      case Idle =>
      case Reading(count) => ResumeRead(t, count);
      case Writing(data) => ResumeWrite(t, data);
    }

    lemma Parts(a: seq<Byte>, b: seq<Byte>, c: seq<Byte>)
      requires c == a + b
      ensures a == c[..|a|] && b == c[|a|..]
    {
    }

    method ResumeRead(t: nat, count: nat)
      requires pipe.Valid() && t < |tasks| && tasks[t].work == Reading(count)
      modifies this, pipe
      ensures pipe.Valid() && Snap() == Advance(old(Snap()), t)
    {
      hide Contents, Size, Woken, Slept;
      ghost var was := pipe.Buffered();
      var bytes, o := pipe.ReadUntilSleep(count);
      Parts(bytes, pipe.Buffered(), was);
      read := read + bytes;
      WakeUp();
      if o == Asleep { Sleep(t, Reading(count - |bytes|)); } else { tasks := tasks[t := Task(Idle, false)]; }
    }

    method ResumeWrite(t: nat, data: seq<Byte>)
      requires pipe.Valid() && t < |tasks| && tasks[t].work == Writing(data)
      modifies this, pipe
      ensures pipe.Valid() && Snap() == Advance(old(Snap()), t)
    {
      hide Contents, Size, Woken, Slept;
      var n, o := pipe.WriteUntilSleep(data);
      written := written + data[..n];
      WakeUp();
      if o == Asleep { Sleep(t, Writing(data[n..])); } else { tasks := tasks[t := Task(Idle, false)]; }
    }

    /** iput of the pipe's inode: everybody is woken first. */
    method CloseOne()
      requires Valid() && pipe.icount > 0
      modifies this`tasks, this`waiting, pipe`icount
      ensures Valid() && Snap() == Step(old(Snap()), Close)
    {
      StepKeeps(Snap(), Close);
      WakeUp();
      pipe.CloseEnd();
    }
  }
}
