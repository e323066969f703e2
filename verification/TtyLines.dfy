/** The line discipline of kernel/chr_drv/tty_io.cc: copy_to_cooked moves characters from the raw queue to the
    secondary one, editing the line on the way; tty_read takes them from there. */
module TtyLines {
  import opened Basics
  import opened Rings

  const TTY_BUF_SIZE: nat := 1024

  /** A signed char. */
  type Char = c: int | -128 <= c < 128

  datatype Termios = Termios(
    crnl: bool, nocr: bool, nlcr: bool, uclc: bool, canon: bool, isig: bool,
    intr: nat, quit: nat, erase: nat, kill: nat, eof: nat, start: nat, stop: nat)

  datatype Line = Line(cooked: seq<Char>, stopped: bool, intrs: nat, quits: nat)

  predicate Ends(c: Char, t: Termios) {
    c == 10 || c == t.eof
  }

  /** Newlines and end-of-file characters, the number tty_read goes by. */
  function Count(s: seq<Char>, t: Termios): nat {
    if s == [] then 0 else Count(s[..|s| - 1], t) + if Ends(s[|s| - 1], t) then 1 else 0
  }

  function ToLower(c: Char): Char {
    if 65 <= c <= 90 then c + 32 else c
  }

  /** Input translation; None for a character that is dropped. */
  function Translated(c: Char, t: Termios): Option<Char> {
    if c == 13 && !t.crnl && t.nocr then None else
      var d := if c == 13 && t.crnl then 10 else if c == 10 && t.nlcr then 13 else c;
      Some(if t.uclc then ToLower(d) else d)
  }

  /** The line being edited loses its characters; lines already ended stay. */
  function Killed(s: seq<Char>, t: Termios): (r: seq<Char>)
    ensures |r| <= |s| && r == s[..|r|]
    ensures r != [] ==> Ends(r[|r| - 1], t)
    ensures forall i | |r| <= i < |s| :: !Ends(s[i], t)
  {
    if s == [] || Ends(s[|s| - 1], t) then s else Killed(s[..|s| - 1], t)
  }

  function Erased(s: seq<Char>, t: Termios): (r: seq<Char>) {
    if s == [] || Ends(s[|s| - 1], t) then s else s[..|s| - 1]
  }

  /** What one character does to the line. */
  function Typed(l: Line, c: Char, t: Termios): Line {
    match Translated(c, t)
    case None => l
    case Some(d) =>
      if t.canon && d == t.kill then l.(cooked := Killed(l.cooked, t))
      else if t.canon && d == t.erase then l.(cooked := Erased(l.cooked, t))
      else if t.canon && d == t.stop then l.(stopped := true)
      else if t.canon && d == t.start then l.(stopped := false)
      else if t.isig && d == t.intr then l.(intrs := l.intrs + 1)
      else if t.isig && d == t.quit then l.(quits := l.quits + 1)
      else l.(cooked := l.cooked + [d])
  }

  /** Characters are taken as long as there are some and there is room. */
  function Cooked(l: Line, raw: seq<Char>, t: Termios): (Line, seq<Char>)
    decreases |raw|
  {
    if raw == [] || |l.cooked| >= TTY_BUF_SIZE - 1 then (l, raw) else Cooked(Typed(l, raw[0], t), raw[1..], t)
  }

  lemma {:induction false} CountCat(a: seq<Char>, b: seq<Char>, t: Termios)
    ensures Count(a + b, t) == Count(a, t) + Count(b, t)
  {
    if b == [] {
      assert a + b == a;
    } else {
      CountCat(a, b[..|b| - 1], t);
      assert (a + b)[..|a + b| - 1] == a + b[..|b| - 1];
    }
  }

  /** Killing a line never takes back a line that has ended. */
  lemma {:induction false} KillKeepsCount(s: seq<Char>, t: Termios)
    ensures Count(Killed(s, t), t) == Count(s, t)
  {
    if s != [] && !Ends(s[|s| - 1], t) {
      KillKeepsCount(s[..|s| - 1], t);
    }
  }

  /** A character adds to the count exactly when it comes out as a newline or an end of file that is not edited away. */
  lemma TypedCount(l: Line, c: Char, t: Termios)
    ensures Count(Typed(l, c, t).cooked, t) == Count(l.cooked, t)
            || (Count(Typed(l, c, t).cooked, t) == Count(l.cooked, t) + 1 && Typed(l, c, t).cooked == l.cooked + [Translated(c, t).value])
    ensures |Typed(l, c, t).cooked| <= |l.cooked| + 1
  {
    KillKeepsCount(l.cooked, t);
    if Translated(c, t).Some? {
      CountSnoc(l.cooked, Translated(c, t).value, t);
    }
  }

  lemma CountSnoc(s: seq<Char>, c: Char, t: Termios)
    ensures Count(s + [c], t) == Count(s, t) + if Ends(c, t) then 1 else 0
  {
    assert (s + [c])[..|s|] == s;
  }

  /** What is cooked never grows beyond the ring, and the lines already ended are never touched. */
  lemma {:induction false} CookedBounds(l: Line, raw: seq<Char>, t: Termios)
    requires |l.cooked| <= TTY_BUF_SIZE - 1
    ensures var (m, rest) := Cooked(l, raw, t);
            |m.cooked| <= TTY_BUF_SIZE - 1 && Killed(l.cooked, t) <= m.cooked && Count(m.cooked, t) >= Count(l.cooked, t)
            && |rest| <= |raw| && rest == raw[|raw| - |rest|..]
    decreases |raw|
  {
    if raw != [] && |l.cooked| < TTY_BUF_SIZE - 1 {
      TypedCount(l, raw[0], t);
      CookedBounds(Typed(l, raw[0], t), raw[1..], t);
      KilledKept(l, raw[0], t);
    }
  }

  lemma TypedIs(l: Line, c: Char, t: Termios)
    ensures var s := Typed(l, c, t).cooked;
            s == l.cooked || s == Killed(l.cooked, t) || s == Erased(l.cooked, t) || exists d :: s == l.cooked + [d]
  {
  }

  lemma KilledKept(l: Line, c: Char, t: Termios)
    ensures Killed(l.cooked, t) <= Killed(Typed(l, c, t).cooked, t)
  {
    hide Typed, Count;
    TypedIs(l, c, t);
    var s := Typed(l, c, t).cooked;
    assert Killed(Killed(l.cooked, t), t) == Killed(l.cooked, t);
    if |s| == |l.cooked| + 1 {
      assert s[..|l.cooked|] == l.cooked;
    }
  }

  // ---- editing a line ------------------------------------------------------------------------------

  /** c comes out as d, which the line discipline does not act on. */
  predicate Plain(c: Char, d: Char, t: Termios) {
    && Translated(c, t) == Some(d)
    && (t.canon ==> d != t.kill && d != t.erase && d != t.stop && d != t.start)
    && (t.isig ==> d != t.intr && d != t.quit)
  }

  /** The key that erases a character, in canonical mode. */
  predicate IsErase(c: Char, t: Termios) {
    t.canon && Translated(c, t).Some? && Translated(c, t).value == t.erase != t.kill
  }

  predicate IsKill(c: Char, t: Termios) {
    t.canon && Translated(c, t).Some? && Translated(c, t).value == t.kill
  }

  /** The translations of a carriage return, a newline and a capital letter; everything else comes out as it is. */
  lemma Translations(c: Char, t: Termios)
    ensures Translated(13, t) == (if t.crnl then Some(10) else if t.nocr then None else Some(13))
    ensures Translated(10, t) == Some(if t.nlcr then 13 else 10)
    ensures 65 <= c <= 90 ==> Translated(c, t) == Some(if t.uclc then c + 32 else c)
    ensures c != 10 && c != 13 && !(65 <= c <= 90) ==> Translated(c, t) == Some(c)
  {
  }

  /** The keys that stop and start the output and send signals leave no character. */
  lemma Keys(l: Line, c: Char, d: Char, t: Termios)
    requires Translated(c, t) == Some(d) && (t.canon ==> d != t.kill && d != t.erase)
    ensures t.canon && d == t.stop ==> Typed(l, c, t) == l.(stopped := true)
    ensures t.canon && d == t.start != t.stop ==> Typed(l, c, t) == l.(stopped := false)
    ensures t.isig && d == t.intr && !(t.canon && (d == t.stop || d == t.start)) ==> Typed(l, c, t) == l.(intrs := l.intrs + 1)
    ensures t.isig && d == t.quit != t.intr && !(t.canon && (d == t.stop || d == t.start)) ==> Typed(l, c, t) == l.(quits := l.quits + 1)
  {
  }

  /** Erasing takes back the character typed last, unless it ended the line. */
  lemma EraseTakesBack(l: Line, c: Char, d: Char, e: Char, t: Termios)
    requires Plain(c, d, t) && IsErase(e, t)
    ensures Typed(Typed(l, c, t), e, t) == if Ends(d, t) then Typed(l, c, t) else l
  {
    assert (l.cooked + [d])[..|l.cooked|] == l.cooked;
  }

  /** The text cs types, when each of its characters is plain. */
  function TypedAll(l: Line, cs: seq<Char>, t: Termios): Line
    decreases |cs|
  {
    if cs == [] then l else TypedAll(Typed(l, cs[0], t), cs[1..], t)
  }

  ghost predicate AllPlain(cs: seq<Char>, ds: seq<Char>, t: Termios) {
    |cs| == |ds| && forall i | 0 <= i < |cs| :: Plain(cs[i], ds[i], t)
  }

  lemma {:induction false} PlainText(l: Line, cs: seq<Char>, ds: seq<Char>, t: Termios)
    requires AllPlain(cs, ds, t)
    ensures TypedAll(l, cs, t) == l.(cooked := l.cooked + ds)
    decreases |cs|
  {
    if cs == [] {
      assert l.cooked + ds == l.cooked;
    } else {
      PlainText(Typed(l, cs[0], t), cs[1..], ds[1..], t);
      assert l.cooked + [ds[0]] + ds[1..] == l.cooked + ds;
    }
  }

  /** Killing takes back all that was typed since the last end of a line. */
  lemma KillTakesBack(l: Line, cs: seq<Char>, ds: seq<Char>, k: Char, t: Termios)
    requires AllPlain(cs, ds, t) && IsKill(k, t) && forall i | 0 <= i < |ds| :: !Ends(ds[i], t)
    ensures Typed(TypedAll(l, cs, t), k, t) == l.(cooked := Killed(l.cooked, t))
  {
    PlainText(l, cs, ds, t);
    KilledMore(l.cooked, ds, t);
  }

  lemma {:induction false} KilledMore(s: seq<Char>, ds: seq<Char>, t: Termios)
    requires forall i | 0 <= i < |ds| :: !Ends(ds[i], t)
    ensures Killed(s + ds, t) == Killed(s, t)
    decreases |ds|
  {
    if ds == [] {
      assert s + ds == s;
    } else {
      KilledMore(s, ds[..|ds| - 1], t);
      assert (s + ds)[..|s + ds| - 1] == s + ds[..|ds| - 1];
    }
  }

  /** copy_to_cooked types character after character, as long as there is room. */
  lemma {:induction false} CookedTypes(l: Line, raw: seq<Char>, t: Termios)
    ensures var (m, rest) := Cooked(l, raw, t);
            && |rest| <= |raw| && rest == raw[|raw| - |rest|..] && m == TypedAll(l, raw[..|raw| - |rest|], t)
            && (rest == [] || |m.cooked| >= TTY_BUF_SIZE - 1)
    decreases |raw|
  {
    var (m, rest) := Cooked(l, raw, t);
    if raw != [] && |l.cooked| < TTY_BUF_SIZE - 1 {
      CookedTypes(Typed(l, raw[0], t), raw[1..], t);
      var n := |raw| - |rest|;
      assert raw[..n][1..] == raw[1..][..n - 1];
    } else {
      assert raw[..0] == [];
    }
  }

  // ---- tty_read ------------------------------------------------------------------------------------

  /** One pass of the inner loop of tty_read: at most nr characters, up to an end-of-file character in canonical mode,
      which is taken but not handed out. */
  function Taken(s: seq<Char>, nr: nat, t: Termios): (n: nat)
    ensures n <= |s| && n <= nr
    ensures t.canon ==> forall i | 0 <= i < n :: s[i] != t.eof
    ensures n < |s| && n < nr ==> t.canon && s[n] == t.eof
  {
    if s == [] || nr == 0 || (t.canon && s[0] == t.eof) then 0 else 1 + Taken(s[1..], nr - 1, t)
  }

  class Tty {
    var read: Ring<Char>
    var secondary: Ring<Char>
    var data: nat
    var stopped: bool
    var intrs: nat
    var quits: nat

    predicate RingsOk()
      reads this
    {
      Ok(read) && Ok(secondary) && |read.buf| == |secondary.buf| == TTY_BUF_SIZE
    }

    /** data is the number of newlines and end-of-file characters in the secondary queue. */
    predicate Valid(t: Termios)
      reads this
    {
      RingsOk() && data == Count(Contents(secondary), t)
    }

    function Now(): Line
      reads this
      requires RingsOk()
    {
      Line(Contents(secondary), stopped, intrs, quits)
    }

    constructor (a: seq<Char>, b: seq<Char>, t: Termios)
      requires |a| == |b| == TTY_BUF_SIZE
      ensures Valid(t) && Contents(read) == [] && Now() == Line([], false, 0, 0)
    {
      read, secondary := Ring(a, 0, 0), Ring(b, 0, 0);
      data, stopped, intrs, quits := 0, false, 0, 0;
    }

    /** copy_to_cooked, without the echo. */
    method CopyToCooked(t: Termios)
      requires Valid(t)
      modifies this
      ensures Valid(t) && (Now(), Contents(read)) == Cooked(old(Now()), old(Contents(read)), t)
    {
      while read.head != read.tail && Size(secondary) != TTY_BUF_SIZE - 1
        invariant Valid(t) && Cooked(Now(), Contents(read), t) == Cooked(old(Now()), old(Contents(read)), t)
        decreases Size(read)
      {
        GetOk(read);
        ghost var was, rest := Now(), Contents(Get(read));
        var c := read.buf[read.tail];
        assert ([c] + rest)[1..] == rest;
        read := Get(read);
        TypeChar(c, t);
      }
    }

    /** The body of the loop of copy_to_cooked. */
    method TypeChar(c0: Char, t: Termios)
      requires Valid(t) && Size(secondary) < TTY_BUF_SIZE - 1
      modifies this`secondary, this`data, this`stopped, this`intrs, this`quits
      ensures Valid(t) && Now() == Typed(old(Now()), c0, t)
    {
      hide Contents, Count, Killed, Erased;
      var c := c0;
      if c == 13 {
        if t.crnl { c := 10; } else if t.nocr { return; }
      } else if c == 10 && t.nlcr {
        c := 13;
      }
      if t.uclc { c := ToLower(c); }
      if t.canon {
        if c == t.kill {
          KillLine(t);
          return;
        }
        if c == t.erase {
          EraseChar(t);
          return;
        }
        if c == t.stop { stopped := true; return; }
        if c == t.start { stopped := false; return; }
      }
      if t.isig {
        if c == t.intr { intrs := intrs + 1; return; }
        if c == t.quit { quits := quits + 1; return; }
      }
      if c == 10 || c == t.eof { data := data + 1; }
      PutOk(secondary, c);
      CountSnoc(Contents(secondary), c, t);
      hide Put;
      secondary := Put(secondary, c);
    }

    method EraseChar(t: Termios)
      requires Valid(t)
      modifies this`secondary
      ensures Valid(t) && Contents(secondary) == Erased(old(Contents(secondary)), t)
    {
      hide Contents, Count;
      if secondary.head == secondary.tail { return; }
      DropOk(secondary);
      ghost var rest := Contents(Drop(secondary));
      var last := secondary.buf[Drop(secondary).head];
      assert (rest + [last])[..|rest|] == rest;
      if last == 10 || last == t.eof { return; }
      CountSnoc(rest, last, t);
      secondary := Drop(secondary);
    }

    method KillLine(t: Termios)
      requires Valid(t)
      modifies this`secondary
      ensures Valid(t) && Contents(secondary) == Killed(old(Contents(secondary)), t)
    {
      while true
        invariant Valid(t) && Killed(Contents(secondary), t) == Killed(old(Contents(secondary)), t)
        decreases Size(secondary)
      {
        if secondary.head == secondary.tail { break; }
        DropOk(secondary);
        var last := secondary.buf[Drop(secondary).head];
        if last == 10 || last == t.eof { break; }
        CountSnoc(Contents(Drop(secondary)), last, t);
        assert Contents(secondary)[..Size(secondary) - 1] == Contents(Drop(secondary));
        secondary := Drop(secondary);
      }
    }

    /** One pass of tty_read; data never goes below zero. */
    method ReadPass(nr: nat, t: Termios) returns (bytes: seq<Char>, eof: bool)
      requires Valid(t) && nr > 0 && secondary.head != secondary.tail
      modifies this`secondary, this`data
      ensures Valid(t)
      ensures var s := old(Contents(secondary)); var n := Taken(s, nr, t);
              && bytes == s[..n] && (eof <==> n < nr && n < |s|)
              && Contents(secondary) == if eof then s[n + 1..] else s[n..]
    {
      hide Contents, Count;
      bytes, eof := [], false;
      ghost var s := Contents(secondary);
      assert s[..0] == [] && s[0..] == s;
      while |bytes| < nr && secondary.head != secondary.tail
        invariant Valid(t) && |bytes| <= nr && |bytes| <= |s| && bytes == s[..|bytes|] && Contents(secondary) == s[|bytes|..]
        invariant Taken(s, nr, t) == |bytes| + Taken(s[|bytes|..], nr - |bytes|, t)
        decreases nr - |bytes|
      {
        GetOk(secondary);
        var c := secondary.buf[secondary.tail];
        ghost var rest := Contents(Get(secondary));
        assert s[|bytes|..][1..] == s[|bytes| + 1..] == rest;
        CountCat([c], rest, t);
        CountOne(c, t);
        secondary := Get(secondary);
        if c == t.eof || c == 10 { data := data - 1; }
        if c == t.eof && t.canon {
          eof := true;
          return;
        }
        bytes := bytes + [c];
      }
    }

    lemma CountOne(c: Char, t: Termios)
      ensures Count([c], t) == if Ends(c, t) then 1 else 0
    {
      CountSnoc([], c, t);
    }
  }
}
