/** The argument area of fs/exec.cc: copy_strings fills 32 pages from the top down, change_ldt maps them at the end
    of the new data segment, create_tables builds the argv and envp tables below the strings. */
module ExecArgs {
  import opened Basics

  const MAX_ARG_PAGES: nat := 32
  const AREA: nat := 131072            // MAX_ARG_PAGES * PAGE_SIZE
  const DATA_LIMIT: nat := 67108864    // 0x4000000
  const OFFSET: nat := 66977792        // where the area is mapped: DATA_LIMIT - AREA

  /** A string as the caller has it: no zero byte inside. */
  predicate IsString(s: seq<Byte>) {
    0 !in s
  }

  predicate AreStrings(ss: seq<seq<Byte>>) {
    forall s | s in ss :: IsString(s)
  }

  /** The strings one after the other, each with its zero. */
  function Flat(ss: seq<seq<Byte>>): (f: seq<Byte>)
    ensures |f| >= |ss|
  {
    if ss == [] then [] else ss[0] + [0] + Flat(ss[1..])
  }

  lemma {:induction false} FlatCat(a: seq<seq<Byte>>, b: seq<seq<Byte>>)
    ensures Flat(a + b) == Flat(a) + Flat(b)
  {
    if a == [] {
      assert a + b == b;
    } else {
      FlatCat(a[1..], b);
      assert (a + b)[1..] == a[1..] + b;
      FlatMore(a[0], a[1..], b);
      assert Flat(a) == a[0] + [0] + Flat(a[1..]) && Flat(a + b) == a[0] + [0] + Flat(a[1..] + b);
    }
  }

  lemma FlatMore(s: seq<Byte>, a: seq<seq<Byte>>, b: seq<seq<Byte>>)
    ensures s + [0] + (Flat(a) + Flat(b)) == s + [0] + Flat(a) + Flat(b)
  {
    Regrouped(s + [0], Flat(a), Flat(b));
  }

  lemma Regrouped(x: seq<Byte>, y: seq<Byte>, z: seq<Byte>)
    ensures x + (y + z) == x + y + z
  {
  }

  lemma FlatFrom(ss: seq<seq<Byte>>, i: nat)
    requires i < |ss|
    ensures Flat(ss[i..]) == ss[i] + [0] + Flat(ss[i + 1..])
  {
    assert ss[i..][1..] == ss[i + 1..];
  }

  lemma FlatTo(ss: seq<seq<Byte>>, i: nat)
    requires i < |ss|
    ensures Flat(ss[..i + 1]) == Flat(ss[..i]) + (ss[i] + [0])
  {
    FlatCat(ss[..i], [ss[i]]);
    assert Flat([ss[i]]) == ss[i] + [0] + Flat([]);
    assert ss[..i + 1] == ss[..i] + [ss[i]];
  }

  // ---- the pages -----------------------------------------------------------------------------------

  /** page[]: no bytes where no page has been got yet. */
  predicate PagesOk(page: seq<seq<Byte>>) {
    |page| == MAX_ARG_PAGES && forall k | 0 <= k < MAX_ARG_PAGES :: page[k] == [] || |page[k]| == PAGE_SIZE
  }

  predicate Got(page: seq<seq<Byte>>, a: nat) {
    a < AREA && |page| == MAX_ARG_PAGES && |page[a / 4096]| == PAGE_SIZE
  }

  function ByteAt(page: seq<seq<Byte>>, a: nat): Byte
    requires Got(page, a)
  {
    page[a / 4096][a % 4096]
  }

  /** The bytes of s lie in the area from p on. */
  predicate Holds(page: seq<seq<Byte>>, p: nat, s: seq<Byte>) {
    forall a: nat | p <= a < p + |s| :: Got(page, a) && ByteAt(page, a) == s[a - p]
  }

  /** A page is got, if need be, and one byte stored below everything held so far. */
  lemma StoreHolds(page: seq<seq<Byte>>, p: nat, s: seq<Byte>, b: Byte)
    requires PagesOk(page) && p < AREA && Holds(page, p + 1, s)
    ensures var k := p / 4096;
            var frame := if page[k] == [] then seq(PAGE_SIZE, i => 0) else page[k];
            var r := page[k := frame[p % 4096 := b]];
            PagesOk(r) && Holds(r, p, [b] + s) && |frame| == PAGE_SIZE
  {
    var k := p / 4096;
    var frame: seq<Byte> := if page[k] == [] then seq(PAGE_SIZE, i => 0) else page[k];
    var r := page[k := frame[p % 4096 := b]];
    forall a: nat | p <= a < p + |s| + 1 ensures Got(r, a) && ByteAt(r, a) == ([b] + s)[a - p] {
      if a > p {
        assert Got(page, a) && ByteAt(page, a) == s[a - (p + 1)];
        SamePlace(p, a);
      }
    }
  }

  lemma SamePlace(a: nat, b: nat)
    ensures a / 4096 == b / 4096 && a % 4096 == b % 4096 ==> a == b
  {
  }

  /** Going down one byte: the offset follows, until it has to be taken anew in the page below. */
  lemma Down(p: nat)
    requires p > 0
    ensures p % 4096 > 0 ==> (p - 1) % 4096 == p % 4096 - 1 && (p - 1) / 4096 == p / 4096
  {
  }

  /** The pages from number low on that have not been got. */
  function Missing(page: seq<seq<Byte>>, low: nat): nat
    decreases |page| - low
  {
    if low >= |page| then 0 else (if page[low] == [] then 1 else 0) + Missing(page, low + 1)
  }

  lemma {:induction false} MissingLess(page: seq<seq<Byte>>, low: nat, k: nat, f: seq<Byte>)
    requires low <= k < |page| && f != []
    ensures Missing(page[k := f], low) == Missing(page, low) - if page[k] == [] then 1 else 0
    ensures page[k] == [] ==> Missing(page, low) > 0
    decreases k - low
  {
    if low < k { MissingLess(page, low + 1, k, f); } else { MissingSame(page, page[k := f], k + 1); }
  }

  lemma {:induction false} MissingSame(page: seq<seq<Byte>>, r: seq<seq<Byte>>, low: nat)
    requires |r| == |page| && forall j | low <= j < |page| :: r[j] == page[j]
    ensures Missing(r, low) == Missing(page, low)
    decreases |page| - low
  {
    if low < |page| { MissingSame(page, r, low + 1); }
  }

  lemma {:induction false} NoneMissing(page: seq<seq<Byte>>, low: nat)
    requires forall j | low <= j < |page| :: page[j] != []
    ensures Missing(page, low) == 0
    decreases |page| - low
  {
    if low < |page| { NoneMissing(page, low + 1); }
  }

  /** What the area holds down to p fills its pages from there on. */
  lemma HeldPages(page: seq<seq<Byte>>, p: nat, s: seq<Byte>)
    requires |page| == MAX_ARG_PAGES && Holds(page, p, s) && s != [] && p + |s| == AREA - 4
    ensures Missing(page, p / 4096) == 0
  {
    forall j | p / 4096 <= j < |page| ensures page[j] != [] {
      var a: nat := if j == p / 4096 then p else 4096 * j;
      assert a / 4096 == j;
      assert Got(page, a);
    }
    NoneMissing(page, p / 4096);
  }

  class Area {
    var page: seq<seq<Byte>>
    var free: nat      // pages get_free_page can still give

    predicate Valid()
      reads this
    {
      PagesOk(page)
    }

    /** Free pages less those still needed from page low on; copying strings down to there does not change it. */
    function Spare(low: nat): int
      reads this
    {
      free - Missing(page, low)
    }

    constructor (free: nat)
      ensures Valid() && this.free == free
    {
      this.free := free;
      page := seq(MAX_ARG_PAGES, k => []);
    }

    /** copy_strings: the strings end up below p, the first one lowest, and what was there from p on stays.  The
        result is 0 when a page could not be got; they must fit, as the source's own test for that never fails. */
    method CopyStrings(argv: seq<seq<Byte>>, p0: nat, ghost held: seq<Byte>, ghost low: nat) returns (p: nat)
      requires Valid() && p0 <= AREA - 4 && AreStrings(argv) && (p0 != 0 ==> Holds(page, p0, held) && |Flat(argv)| < p0)
      requires p0 != 0 ==> 4096 * low <= p0 - |Flat(argv)|
      modifies this
      ensures Valid() && (p0 == 0 ==> unchanged(this)) && Spare(low) == old(Spare(low))
      ensures p != 0 ==> p == p0 - |Flat(argv)| && Holds(page, p, Flat(argv) + held)
      ensures p == 0 ==> p0 == 0 || (free == 0 && Spare(low) < 0)
    {
      p := p0;
      if p == 0 { return; }
      var offset: int, pag: nat := 0, 0;
      var argc := |argv|;
      assert argv[argc..] == [] && argv[..argc] == argv && [] + held == held && Flat(argv[argc..]) == [];
      hide Flat, Holds, IsString;
      while argc > 0
        invariant Valid() && 0 <= argc <= |argv| && p == p0 - |Flat(argv[argc..])| && p > |Flat(argv[..argc])|
        invariant Holds(page, p, Flat(argv[argc..]) + held) && Spare(low) == old(Spare(low))
        invariant |Flat(argv)| == |Flat(argv[..argc])| + |Flat(argv[argc..])|
        invariant offset == 0 || (offset == p % 4096 && pag == p / 4096 && pag < MAX_ARG_PAGES && page[pag] != [])
        decreases argc
      {
        argc := argc - 1;
        FlatFrom(argv, argc);
        FlatTo(argv, argc);
        p, offset, pag := CopyOne(argv[argc], p, offset, pag, Flat(argv[argc + 1..]) + held, low);
        if p == 0 { return; }
        Regrouped(argv[argc] + [0], Flat(argv[argc + 1..]), held);
      }
      assert argv[0..] == argv;
    }

    /** One string, from its end backwards.  Before every store offset is p % PAGE_SIZE. */
    method CopyOne(s: seq<Byte>, p0: nat, offset0: int, pag0: nat, ghost held: seq<Byte>, ghost low: nat)
      returns (p: nat, offset: int, pag: nat)
      requires Valid() && p0 <= AREA - 4 && IsString(s) && |s| + 1 < p0 && Holds(page, p0, held)
      requires offset0 == 0 || (offset0 == p0 % 4096 && pag0 == p0 / 4096 && pag0 < MAX_ARG_PAGES && page[pag0] != [])
      requires 4096 * low <= p0 - (|s| + 1)
      modifies this
      ensures Valid() && Spare(low) == old(Spare(low))
      ensures p != 0 ==> p == p0 - (|s| + 1) && Holds(page, p, s + [0] + held)
      ensures p != 0 ==> offset == p % 4096 && pag == p / 4096 && pag < MAX_ARG_PAGES && page[pag] != []
      ensures p == 0 ==> free == 0 && Spare(low) < 0
    {
      hide Holds;
      p, offset, pag := p0, offset0, pag0;
      var len := StringLength(s);
      ghost var z := s + [0];
      assert z[len..] == [] && [] + held == held;
      while len > 0
        invariant Valid() && 0 <= len <= |z| == |s| + 1 && p == p0 - (|z| - len)
        invariant Holds(page, p, z[len..] + held) && Spare(low) == old(Spare(low))
        invariant (offset == 0 && len == |z|)
                  || (offset == p % 4096 && pag == p / 4096 && pag < MAX_ARG_PAGES && page[pag] != [])
        decreases len
      {
        Down(p);
        p := p - 1;
        len := len - 1;
        offset := offset - 1;
        var b: Byte := if len == |s| then 0 else s[len];
        var ok;
        ok, offset, pag := StoreByte(p, offset, pag, b, z[len + 1..] + held, low);
        if !ok { p := 0; return; }
        assert [b] + (z[len + 1..] + held) == z[len..] + held;
      }
      assert z[0..] == z;
    }

    /** The store, with the page for it got when a new one is entered; false when there is none. */
    method StoreByte(p: nat, offset0: int, pag0: nat, b: Byte, ghost held: seq<Byte>, ghost low: nat) returns (ok: bool, offset: int, pag: nat)
      requires Valid() && p < AREA && Holds(page, p + 1, held)
      requires offset0 < 0 || (offset0 == p % 4096 && pag0 == p / 4096 && pag0 < MAX_ARG_PAGES && page[pag0] != [])
      requires 4096 * low <= p
      modifies this
      ensures Valid() && (!ok ==> free == 0 && Spare(low) < 0) && Spare(low) == old(Spare(low))
      ensures ok ==> Holds(page, p, [b] + held)
      ensures ok ==> offset == p % 4096 && pag == p / 4096 && pag < MAX_ARG_PAGES && page[pag] != []
    {
      hide Holds;
      ok, offset, pag := true, offset0, pag0;
      ghost var was := page;
      if offset < 0 {
        offset := p % PAGE_SIZE;
        pag := p / PAGE_SIZE;
        if page[pag] == [] {
          if free == 0 {
            MissingLess(page, low, pag, [b]);
            ok := false;
            return;
          }
          free := free - 1;
          page := page[pag := seq(PAGE_SIZE, i => 0)];
        }
      }
      StoreHolds(was, p, held, b);
      var frame: seq<Byte> := page[pag][offset := b];
      page := page[pag := frame];
      ghost var zeros: seq<Byte> := seq(PAGE_SIZE, i => 0);
      assert page == was[pag := (if was[pag] == [] then zeros else was[pag])[p % 4096 := b]];
      MissingLess(was, low, pag, page[pag]);
    }

    /** The do loop that measures a string, its zero included. */
    method StringLength(s: seq<Byte>) returns (len: nat)
      requires IsString(s)
      ensures len == |s| + 1
    {
      len := 0;
      var b: Byte := 1;
      while b != 0
        invariant len <= |s| + 1 && (b == 0 <==> len == |s| + 1)
        decreases |s| + 1 - len
      {
        b := if len == |s| then 0 else s[len];
        assert len < |s| ==> s[len] in s;
        len := len + 1;
      }
    }
  }

  // ---- user memory ---------------------------------------------------------------------------------

  lemma FourBytes(v: nat)
    requires v < 0x1_0000_0000
    ensures v / 16777216 < 256
    ensures v == v % 256 + 256 * (v / 256 % 256) + 65536 * (v / 65536 % 256) + 16777216 * (v / 16777216)
  {
  }

  /** put_fs_long: four bytes, the lowest first. */
  function PutLong(mem: seq<Byte>, a: nat, v: nat): (r: seq<Byte>)
    requires a + 4 <= |mem| && v < 0x1_0000_0000
    ensures |r| == |mem| && GetLong(r, a) == v
    ensures r[a..a + 4] == [v % 256, v / 256 % 256, v / 65536 % 256, v / 16777216]
    ensures forall b | 0 <= b < |mem| && !(a <= b < a + 4) :: r[b] == mem[b]
  {
    FourBytes(v);
    var b0: Byte, b1: Byte, b2: Byte, b3: Byte := v % 256, v / 256 % 256, v / 65536 % 256, v / 16777216;
    FourStored(mem, a, b0, b1, b2, b3);
    mem[a := b0][a + 1 := b1][a + 2 := b2][a + 3 := b3]
  }

  lemma FourStored(mem: seq<Byte>, a: nat, b0: Byte, b1: Byte, b2: Byte, b3: Byte)
    requires a + 4 <= |mem|
    ensures var r := mem[a := b0][a + 1 := b1][a + 2 := b2][a + 3 := b3];
            && r[a] == b0 && r[a + 1] == b1 && r[a + 2] == b2 && r[a + 3] == b3
            && forall b | 0 <= b < |mem| && !(a <= b < a + 4) :: r[b] == mem[b]
  {
  }

  function GetLong(mem: seq<Byte>, a: nat): (v: nat)
    requires a + 4 <= |mem|
    ensures v < 0x1_0000_0000
  {
    var b0: int, b1: int, b2: int, b3: int := mem[a], mem[a + 1], mem[a + 2], mem[a + 3];
    b0 + 256 * b1 + 65536 * b2 + 16777216 * b3
  }

  predicate Has(mem: seq<Byte>, p: nat, s: seq<Byte>) {
    p + |s| <= |mem| && mem[p..p + |s|] == s
  }

  /** Entry i of a pointer table. */
  function Entry(mem: seq<Byte>, t: nat, i: nat): nat {
    if t + 4 * i + 4 <= |mem| then GetLong(mem, t + 4 * i) else 0
  }

  /** The first n entries point to the strings that lie one after the other from p on. */
  predicate Points(mem: seq<Byte>, t: nat, p: nat, ss: seq<seq<Byte>>, n: nat)
    requires n <= |ss|
  {
    forall i: nat | i < n :: Entry(mem, t, i) == p + |Flat(ss[..i])|
  }

  /** What a program finds at address a. */
  function ReadString(mem: seq<Byte>, a: nat): (s: seq<Byte>)
    decreases |mem| - a
  {
    if a >= |mem| || mem[a] == 0 then [] else [mem[a]] + ReadString(mem, a + 1)
  }

  /** What it finds by walking a table of pointers. */
  function ReadTable(mem: seq<Byte>, t: nat): (ss: seq<seq<Byte>>)
    decreases |mem| - t
  {
    if t + 4 > |mem| || GetLong(mem, t) == 0 then [] else [ReadString(mem, GetLong(mem, t))] + ReadTable(mem, t + 4)
  }

  lemma {:induction false} StringReadBack(mem: seq<Byte>, a: nat, s: seq<Byte>)
    requires Has(mem, a, s + [0]) && IsString(s)
    ensures ReadString(mem, a) == s
    decreases |s|
  {
    var z: seq<Byte> := s + [0];
    assert mem[a] == mem[a..a + |z|][0] == z[0];
    if s != [] {
      assert s[0] in s;
      assert mem[a + 1..a + |z|] == mem[a..a + |z|][1..] == s[1..] + [0];
      StringReadBack(mem, a + 1, s[1..]);
    }
  }

  lemma HasPart(mem: seq<Byte>, p: nat, a: seq<Byte>, b: seq<Byte>)
    requires Has(mem, p, a + b)
    ensures Has(mem, p, a) && Has(mem, p + |a|, b)
  {
    var w := mem[p..p + |a + b|];
    assert mem[p..p + |a|] == w[..|a|] == a;
    assert mem[p + |a|..p + |a| + |b|] == w[|a|..] == b;
  }

  lemma TableStep(mem: seq<Byte>, t: nat, i: nat, q: nat)
    requires t + 4 * i + 4 <= |mem| && Entry(mem, t, i) == q > 0
    ensures ReadTable(mem, t + 4 * i) == [ReadString(mem, q)] + ReadTable(mem, t + 4 * (i + 1))
  {
    hide ReadString, GetLong;
    assert t + 4 * i + 4 == t + 4 * (i + 1);
  }

  lemma {:induction false} TableReadBack(mem: seq<Byte>, t: nat, p: nat, ss: seq<seq<Byte>>, i: nat)
    requires i <= |ss| && p > 0 && AreStrings(ss) && t + 4 * |ss| + 4 <= |mem| && Points(mem, t, p, ss, |ss|)
    requires Entry(mem, t, |ss|) == 0 && Has(mem, p + |Flat(ss[..i])|, Flat(ss[i..]))
    ensures ReadTable(mem, t + 4 * i) == ss[i..]
    decreases |ss| - i
  {
    hide Has, GetLong, Flat, ReadString;
    if i < |ss| {
      FlatFrom(ss, i);
      FlatTo(ss, i);
      var q := p + |Flat(ss[..i])|;
      HasPart(mem, q, ss[i] + [0], Flat(ss[i + 1..]));
      StringReadBack(mem, q, ss[i]);
      assert Entry(mem, t, i) == q;
      hide ReadTable, Entry;
      TableReadBack(mem, t, p, ss, i + 1);
      TableStep(mem, t, i, q);
      assert ss[i..] == [ss[i]] + ss[i + 1..];
    }
  }

  function EnvTable(p: int, envc: nat): int { p - p % 4 - 4 * (envc + 1) }

  function ArgTable(p: int, argc: nat, envc: nat): int { EnvTable(p, envc) - 4 * (argc + 1) }

  function StackTop(p: int, argc: nat, envc: nat): int { ArgTable(p, argc, envc) - 12 }

  /** m' differs from m at most from lo to hi. */
  predicate Outside(m: seq<Byte>, m': seq<Byte>, lo: nat, hi: nat) {
    |m'| == |m| && forall a | 0 <= a < |m| && !(lo <= a < hi) :: m'[a] == m[a]
  }

  class User {
    var mem: seq<Byte>

    constructor (mem: seq<Byte>)
      ensures this.mem == mem
    {
      this.mem := mem;
    }

    /** The mapping loop of change_ldt: each page got goes to its place at the end of the data segment. */
    method MapPages(page: seq<seq<Byte>>) returns (limit: nat)
      requires PagesOk(page) && |mem| == DATA_LIMIT
      modifies this
      ensures limit == DATA_LIMIT == |mem|
      ensures forall a: nat | Got(page, a) :: mem[OFFSET + a] == ByteAt(page, a)
    {
      limit := DATA_LIMIT;
      var base: nat, i := DATA_LIMIT, MAX_ARG_PAGES;
      while i > 0
        invariant 0 <= i <= MAX_ARG_PAGES && base == OFFSET + 4096 * i && |mem| == DATA_LIMIT
        invariant forall k: nat, o: nat | i <= k < MAX_ARG_PAGES && page[k] != [] && o < 4096 :: mem[OFFSET + 4096 * k + o] == page[k][o]
      {
        i := i - 1;
        base := base - PAGE_SIZE;
        if page[i] != [] {
          mem := mem[..base] + page[i] + mem[base + 4096..];
        }
      }
      forall a: nat | Got(page, a) ensures mem[OFFSET + a] == ByteAt(page, a) {
        assert a == 4096 * (a / 4096) + a % 4096;
      }
    }

    /** One of the two loops of create_tables: n pointers and a null. */
    method FillTable(table: nat, p0: nat, n: nat, ghost ss: seq<seq<Byte>>) returns (p: nat)
      requires |ss| == n && AreStrings(ss) && Has(mem, p0, Flat(ss)) && table + 4 * (n + 1) <= p0
      requires |mem| <= DATA_LIMIT
      modifies this
      ensures |mem| == old(|mem|) && p == p0 + |Flat(ss)| && Points(mem, table, p0, ss, n) && Entry(mem, table, n) == 0
      ensures forall a | 0 <= a < |mem| && !(table <= a < table + 4 * (n + 1)) :: mem[a] == old(mem)[a]
    {
      p := p0;
      var left, t := n, table;
      assert ss[..0] == [] && Flat(ss[..0]) == [];
      FlatSpan(p0, ss, |mem|, n);
      assert Points(mem, table, p0, ss, 0);
      hide Has, Flat, GetLong, PutLong, Points, Entry, IsString;
      while left > 0
        invariant 0 <= left <= n && t == table + 4 * (n - left) && |mem| == old(|mem|)
        invariant p == p0 + |Flat(ss[..n - left])| && Points(mem, table, p0, ss, n - left)
        invariant Outside(old(mem), mem, table, t)
      {
        ghost var i := n - left;
        StringAt(old(mem), p0, ss, i);
        PutPointer(t, p, table, p0, ss, i);
        p := SkipString(p, ss[i], old(mem));
        FlatTo(ss, i);
        t := t + 4;
        left := left - 1;
      }
      assert ss[..n] == ss;
      EndTable(t, table, p0, ss, n);
    }

    /** put_fs_long(0, table) */
    method EndTable(t: nat, ghost table: nat, ghost p0: nat, ghost ss: seq<seq<Byte>>, ghost n: nat)
      requires n <= |ss| && t == table + 4 * n && t + 4 <= |mem| && Points(mem, table, p0, ss, n)
      modifies this
      ensures Outside(old(mem), mem, t, t + 4) && Points(mem, table, p0, ss, n) && Entry(mem, table, n) == 0
    {
      hide Flat, GetLong, PutLong, Points;
      ghost var was := mem;
      mem := PutLong(mem, t, 0);
      PointsKept(was, mem, table, p0, ss, n);
      EntryIs(mem, table, n);
    }

    /** put_fs_long((unsigned long) p, table++) */
    method PutPointer(t: nat, p: nat, ghost table: nat, ghost p0: nat, ghost ss: seq<seq<Byte>>, ghost i: nat)
      requires i < |ss| && t == table + 4 * i && t + 4 <= |mem| <= DATA_LIMIT && p == p0 + |Flat(ss[..i])| <= |mem|
      requires Points(mem, table, p0, ss, i)
      modifies this
      ensures |mem| == old(|mem|) && Points(mem, table, p0, ss, i + 1)
      ensures Outside(old(mem), mem, t, t + 4)
    {
      hide Flat, GetLong, PutLong, Points;
      ghost var was := mem;
      mem := PutLong(mem, t, p);
      PointsMore(was, mem, table, p0, ss, i);
    }

    /** while (get_fs_byte(p++)) */
    method SkipString(p0: nat, ghost s: seq<Byte>, ghost strings: seq<Byte>) returns (p: nat)
      requires IsString(s) && |strings| == |mem| && Has(strings, p0, s + [0])
      requires forall a | p0 <= a < |mem| :: mem[a] == strings[a]
      ensures p == p0 + |s| + 1
    {
      p := p0;
      ghost var z: seq<Byte> := s + [0];
      assert forall j | 0 <= j < |s| :: s[j] in s;
      assert forall j | 0 <= j < |z| :: mem[p0 + j] == strings[p0..p0 + |z|][j] == z[j];
      while mem[p] != 0
        invariant p0 <= p <= p0 + |s|
        decreases p0 + |s| - p
      {
        assert mem[p0 + (p - p0)] == z[p - p0];
        p := p + 1;
      }
      assert mem[p0 + (p - p0)] == z[p - p0];
      p := p + 1;
    }

    /** create_tables */
    method CreateTables(p0: nat, argc: nat, envc: nat, ghost args: seq<seq<Byte>>, ghost env: seq<seq<Byte>>) returns (sp: nat)
      requires |args| == argc && |env| == envc && AreStrings(args) && AreStrings(env)
      requires Has(mem, p0, Flat(args) + Flat(env)) && |mem| <= DATA_LIMIT && StackTop(p0, argc, envc) >= 0
      modifies this
      ensures |mem| == old(|mem|) && sp == StackTop(p0, argc, envc)
      ensures Entry(mem, sp, 0) == argc
      ensures ReadTable(mem, Entry(mem, sp, 1)) == args && ReadTable(mem, Entry(mem, sp, 2)) == env
      ensures mem[p0..] == old(mem)[p0..] && mem[..sp] == old(mem)[..sp]
      ensures sp % 4 == 0 && Entry(mem, sp, 1) == sp + 12 && Entry(mem, sp, 2) == sp + 12 + 4 * (argc + 1)
      ensures p0 - 4 < sp + 12 + 4 * (argc + 1) + 4 * (envc + 1) <= p0
    {
      hide Has, GetLong, PutLong, Entry, AreStrings, IsString, ReadTable, Points, Flat;
      sp := p0 - p0 % 4;
      sp := sp - 4 * (envc + 1);
      var envp := sp;
      sp := sp - 4 * (argc + 1);
      var argv := sp;
      HasSize(mem, p0, Flat(args) + Flat(env));
      sp := Header(sp, argc, argv, envp);
      HasKept(old(mem), mem, p0, Flat(args) + Flat(env));
      HasPart(mem, p0, Flat(args), Flat(env));
      ghost var m0 := mem;
      var p := FillTable(argv, p0, argc, args);
      ghost var m1 := mem;
      HasKept(m0, m1, p, Flat(env));
      var q := FillTable(envp, p, envc, env);
      FirstTable(m0, m1, mem, argv, envp, p0, args);
      SecondTable(m1, mem, envp, p, env);
      EntryKept(m0, mem, sp, 0);
      EntryKept(m0, mem, sp, 1);
      EntryKept(m0, mem, sp, 2);
    }

    /** The three words below the tables: argc and where the tables are. */
    method Header(top: nat, argc: nat, argv: nat, envp: nat) returns (sp: nat)
      requires 12 <= top && top + 4 <= |mem| && argc < 0x1_0000_0000 && argv < 0x1_0000_0000 && envp < 0x1_0000_0000
      modifies this
      ensures |mem| == old(|mem|) && sp == top - 12
      ensures Entry(mem, sp, 0) == argc && Entry(mem, sp, 1) == argv && Entry(mem, sp, 2) == envp
      ensures forall a | 0 <= a < |mem| && !(sp <= a < top) :: mem[a] == old(mem)[a]
    {
      hide PutLong, GetLong;
      sp := top - 4;
      mem := PutLong(mem, sp, envp);
      ghost var m0 := mem;
      sp := sp - 4;
      mem := PutLong(mem, sp, argv);
      ghost var m1 := mem;
      sp := sp - 4;
      mem := PutLong(mem, sp, argc);
      EntryKept(m0, mem, sp, 2);
      EntryKept(m1, mem, sp, 1);
    }
  }

  /** The first table reads back after the second was filled in above it. */
  lemma FirstTable(m0: seq<Byte>, m1: seq<Byte>, m: seq<Byte>, t: nat, top: nat, p: nat, ss: seq<seq<Byte>>)
    requires Has(m0, p, Flat(ss)) && Points(m1, t, p, ss, |ss|) && Entry(m1, t, |ss|) == 0 && AreStrings(ss)
    requires t + 4 * (|ss| + 1) <= top <= p && |m0| == |m1| == |m| <= DATA_LIMIT && top <= |m|
    requires forall a | p <= a < |m0| :: m[a] == m0[a]
    requires forall a | t <= a < top :: m[a] == m1[a]
    ensures ReadTable(m, t) == ss
  {
    hide Has, Points, Entry, Flat, ReadTable, AreStrings;
    HasKept(m0, m, p, Flat(ss));
    PointsKept(m1, m, t, p, ss, |ss|);
    EntryKept(m1, m, t, |ss|);
    assert ss[0..] == ss;
    FlatNone(ss);
    TableReadBack(m, t, p, ss, 0);
  }

  lemma SecondTable(m1: seq<Byte>, m: seq<Byte>, t: nat, p: nat, ss: seq<seq<Byte>>)
    requires Has(m1, p, Flat(ss)) && Points(m, t, p, ss, |ss|) && Entry(m, t, |ss|) == 0 && AreStrings(ss)
    requires t + 4 * (|ss| + 1) <= p && |m1| == |m| <= DATA_LIMIT && p <= |m| && forall a | p <= a < |m| :: m[a] == m1[a]
    ensures ReadTable(m, t) == ss
  {
    hide Has, Points, Entry, Flat, ReadTable, AreStrings;
    FirstTable(m1, m, m, t, p, p, ss);
  }

  lemma HasSize(mem: seq<Byte>, p: nat, s: seq<Byte>)
    requires Has(mem, p, s)
    ensures p + |s| <= |mem|
  {
  }

  lemma FlatNone(ss: seq<seq<Byte>>)
    ensures |Flat(ss[..0])| == 0
  {
  }

  lemma EntryIs(mem: seq<Byte>, t: nat, i: nat)
    requires t + 4 * i + 4 <= |mem|
    ensures Entry(mem, t, i) == GetLong(mem, t + 4 * i)
  {
  }

  /** Every pointer the loop stores lies in memory. */
  lemma FlatSpan(p: nat, ss: seq<seq<Byte>>, limit: nat, n: nat)
    requires |ss| == n && p + |Flat(ss)| <= limit
    ensures forall i | 0 <= i <= n :: p + |Flat(ss[..i])| <= limit
  {
    forall i | 0 <= i <= n ensures p + |Flat(ss[..i])| <= limit {
      FlatCat(ss[..i], ss[i..]);
      assert ss == ss[..i] + ss[i..];
    }
  }

  lemma EntryKept(m: seq<Byte>, m': seq<Byte>, t: nat, i: nat)
    requires |m'| == |m| && forall a | 0 <= a < |m| && t + 4 * i <= a < t + 4 * i + 4 :: m'[a] == m[a]
    ensures Entry(m', t, i) == Entry(m, t, i)
  {
  }

  lemma PointsKept(m: seq<Byte>, m': seq<Byte>, t: nat, p: nat, ss: seq<seq<Byte>>, n: nat)
    requires n <= |ss| && Points(m, t, p, ss, n) && |m'| == |m|
    requires forall a | 0 <= a < |m| && t <= a < t + 4 * n :: m'[a] == m[a]
    ensures Points(m', t, p, ss, n)
  {
    forall i: nat | i < n ensures Entry(m', t, i) == Entry(m, t, i) {
      EntryKept(m, m', t, i);
    }
  }

  /** Writing the next entry. */
  lemma PointsMore(m: seq<Byte>, m': seq<Byte>, t: nat, p: nat, ss: seq<seq<Byte>>, n: nat)
    requires n < |ss| && Points(m, t, p, ss, n) && |m'| == |m| && t + 4 * n + 4 <= |m|
    requires forall a | 0 <= a < |m| && !(t + 4 * n <= a < t + 4 * n + 4) :: m'[a] == m[a]
    requires GetLong(m', t + 4 * n) == p + |Flat(ss[..n])|
    ensures Points(m', t, p, ss, n + 1)
  {
    PointsKept(m, m', t, p, ss, n);
    hide GetLong, Flat;
  }

  lemma HasKept(m: seq<Byte>, m': seq<Byte>, p: nat, s: seq<Byte>)
    requires Has(m, p, s) && |m'| == |m| && forall a | p <= a < |m| :: m'[a] == m[a]
    ensures Has(m', p, s)
  {
  }

  lemma StringAt(mem: seq<Byte>, p: nat, ss: seq<seq<Byte>>, i: nat)
    requires Has(mem, p, Flat(ss)) && i < |ss|
    ensures Has(mem, p + |Flat(ss[..i])|, ss[i] + [0])
  {
    FlatCat(ss[..i], ss[i..]);
    assert ss == ss[..i] + ss[i..];
    FlatFrom(ss, i);
    HasPart(mem, p, Flat(ss[..i]), Flat(ss[i..]));
    HasPart(mem, p + |Flat(ss[..i])|, ss[i] + [0], Flat(ss[i + 1..]));
  }

  // ---- the argument part of do_execve --------------------------------------------------------------

  /** A #! line names the interpreter and may give it an argument. */
  datatype Script = Binary | Interpreted(filename: seq<Byte>, name: seq<Byte>, arg: seq<seq<Byte>>)

  predicate ScriptOk(s: Script) {
    s.Interpreted? ==> IsString(s.filename) && IsString(s.name) && AreStrings(s.arg) && |s.arg| <= 1
  }

  /** The arguments the new program is to see. */
  function NewArgs(argv: seq<seq<Byte>>, s: Script): (r: seq<seq<Byte>>)
    requires argv != []
  {
    match s
    case Binary => argv
    case Interpreted(filename, name, arg) => [name] + arg + [filename] + argv[1..]
  }

  lemma NewArgsFlat(argv: seq<seq<Byte>>, s: Script)
    requires argv != [] && s.Interpreted?
    ensures Flat(NewArgs(argv, s)) == Flat([s.name]) + (Flat(s.arg) + (Flat([s.filename]) + Flat(argv[1..])))
  {
    FlatCat([s.filename], argv[1..]);
    FlatCat(s.arg, [s.filename] + argv[1..]);
    FlatCat([s.name], s.arg + ([s.filename] + argv[1..]));
    assert NewArgs(argv, s) == [s.name] + (s.arg + ([s.filename] + argv[1..]));
  }

  /** What a script adds below the environment: its remaining arguments, its own name, the argument and the name of
      the interpreter. */
  ghost function Spliced(argv: seq<seq<Byte>>, s: Script, env: seq<Byte>): seq<Byte>
    requires argv != [] && s.Interpreted?
  {
    Flat([s.name]) + (Flat(s.arg) + (Flat([s.filename]) + (Flat(argv[1..]) + env)))
  }

  lemma SplicedIs(argv: seq<seq<Byte>>, s: Script, env: seq<Byte>)
    requires argv != [] && s.Interpreted?
    ensures Spliced(argv, s, env) == Flat(NewArgs(argv, s)) + env
  {
    hide Flat, NewArgs;
    NewArgsFlat(argv, s);
    var (name, arg, file, rest) := (Flat([s.name]), Flat(s.arg), Flat([s.filename]), Flat(argv[1..]));
    Regrouped(file, rest, env);
    Regrouped(arg, file + rest, env);
    Regrouped(name, arg + (file + rest), env);
  }

  /** The calls of copy_strings for a script. */
  method CopyScript(area: Area, argv: seq<seq<Byte>>, script: Script, p0: nat, ghost env: seq<Byte>, ghost low: nat) returns (p: nat, argc: nat)
    requires area.Valid() && argv != [] && AreStrings(argv) && ScriptOk(script) && script.Interpreted? && p0 <= AREA - 4
    requires p0 != 0 ==> Holds(area.page, p0, env) && |Spliced(argv, script, env)| - |env| < p0
    requires p0 != 0 ==> 4096 * low <= p0 - (|Spliced(argv, script, env)| - |env|)
    modifies area
    ensures area.Valid() && (p0 == 0 ==> unchanged(area)) && area.Spare(low) == old(area.Spare(low)) && argc == |NewArgs(argv, script)|
    ensures p != 0 ==> p == p0 - (|Spliced(argv, script, env)| - |env|) && Holds(area.page, p, Spliced(argv, script, env))
    ensures p == 0 ==> p0 == 0 || (area.free == 0 && area.Spare(low) < 0)
  {
    hide Flat, Holds, IsString, AreStrings;
    StringsOf(argv, script);
    ghost var rest, file, given := Flat(argv[1..]) + env, Flat([script.filename]), Flat(script.arg);
    argc := |argv| - 1;
    p := area.CopyStrings(argv[1..], p0, env, low);
    p := area.CopyStrings([script.filename], p, rest, low);
    argc := argc + 1;
    if script.arg != [] {
      p := area.CopyStrings(script.arg, p, file + rest, low);
      argc := argc + 1;
    }
    FlatEmpty();
    assert [] + (file + rest) == file + rest;
    p := area.CopyStrings([script.name], p, given + (file + rest), low);
    argc := argc + 1;
  }

  /** The page in which the arguments begin. */
  function LowestPage(args: seq<seq<Byte>>, env: seq<seq<Byte>>): nat
    requires |Flat(args)| + |Flat(env)| < AREA - 4
  {
    (AREA - 4 - |Flat(args)| - |Flat(env)|) / 4096
  }

  /** The calls of copy_strings, in the order of do_execve. */
  method CopyArguments(area: Area, argv: seq<seq<Byte>>, envp: seq<seq<Byte>>, script: Script) returns (p: nat, argc: nat)
    requires area.Valid() && argv != [] && AreStrings(argv) && AreStrings(envp) && ScriptOk(script)
    requires |Flat(NewArgs(argv, script))| + |Flat(envp)| < AREA - 4
    modifies area
    ensures area.Valid() && argc == |NewArgs(argv, script)|
    ensures p != 0 ==> p == AREA - 4 - |Flat(NewArgs(argv, script)) + Flat(envp)|
                       && Holds(area.page, p, Flat(NewArgs(argv, script)) + Flat(envp))
    ensures p == 0 ==> area.free == 0
    ensures p != 0 <==> old(area.free) >= Missing(old(area.page), LowestPage(NewArgs(argv, script), envp))
    ensures p != 0 ==> area.free == old(area.free) - Missing(old(area.page), LowestPage(NewArgs(argv, script), envp))
  {
    hide Flat, Holds, IsString, AreStrings, Spliced;
    HoldsNone(area.page, AREA - 4);
    ghost var env := Flat(envp);
    ghost var low := LowestPage(NewArgs(argv, script), envp);
    assert env + [] == env;
    p := area.CopyStrings(envp, AREA - 4, [], low);
    argc := |argv|;
    if script.Binary? {
      p := area.CopyStrings(argv, p, env, low);
    } else {
      SplicedIs(argv, script, env);
      p, argc := CopyScript(area, argv, script, p, env, low);
    }
    if p != 0 {
      HeldPages(area.page, p, Flat(NewArgs(argv, script)) + env);
    }
  }

  lemma FlatEmpty()
    ensures Flat([]) == []
  {
  }

  lemma HoldsNone(page: seq<seq<Byte>>, p: nat)
    ensures Holds(page, p, [])
  {
  }

  lemma StringsOf(argv: seq<seq<Byte>>, s: Script)
    requires argv != [] && AreStrings(argv) && ScriptOk(s) && s.Interpreted?
    ensures AreStrings(argv[1..]) && AreStrings([s.filename]) && AreStrings([s.name]) && AreStrings(NewArgs(argv, s))
  {
    assert forall x | x in argv[1..] :: x in argv;
  }

  lemma MappedStrings(page: seq<seq<Byte>>, p: nat, s: seq<Byte>, mem: seq<Byte>)
    requires Holds(page, p, s) && |mem| == DATA_LIMIT && p + |s| <= AREA
    requires forall a: nat | Got(page, a) :: mem[OFFSET + a] == ByteAt(page, a)
    ensures Has(mem, OFFSET + p, s)
  {
    forall j: nat | j < |s| ensures mem[OFFSET + p..OFFSET + p + |s|][j] == s[j] {
      var a := p + j;
      assert Got(page, a) && ByteAt(page, a) == s[a - p];
    }
  }

  /** The round trip: the new program, walking the tables its stack pointer leads to, finds the arguments and the
      environment it was given, in order. */
  method ExecArguments(user: User, area: Area, argv: seq<seq<Byte>>, envp: seq<seq<Byte>>, script: Script)
    returns (ok: bool, sp: nat)
    requires area.Valid() && argv != [] && AreStrings(argv) && AreStrings(envp) && ScriptOk(script)
    requires |Flat(NewArgs(argv, script))| + |Flat(envp)| < AREA - 4 && |user.mem| == DATA_LIMIT
    modifies area, user
    ensures ok <==> old(area.free) >= Missing(old(area.page), LowestPage(NewArgs(argv, script), envp))
    ensures ok ==> |user.mem| == DATA_LIMIT && Entry(user.mem, sp, 0) == |NewArgs(argv, script)|
                   && ReadTable(user.mem, Entry(user.mem, sp, 1)) == NewArgs(argv, script)
                   && ReadTable(user.mem, Entry(user.mem, sp, 2)) == envp
  {
    hide Flat, Holds, Has, ReadTable, Entry, IsString;
    ghost var args := NewArgs(argv, script);
    if script.Interpreted? { StringsOf(argv, script); }
    var p, argc := CopyArguments(area, argv, envp, script);
    ok, sp := p != 0, 0;
    if !ok { return; }
    var limit := user.MapPages(area.page);
    MappedStrings(area.page, p, Flat(args) + Flat(envp), user.mem);
    p := p + limit - AREA;
    sp := user.CreateTables(p, argc, |envp|, args, envp);
  }
}
