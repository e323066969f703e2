/** Ring buffers as the kernel keeps them for pipes and terminals: head is where the next element goes, tail the
    oldest; one place always stays free, so that head == tail means empty.  The sizes are powers of two, so the
    source's masking with size - 1 is the wrap-around written out here. */
module Rings {

  datatype Ring<T> = Ring(buf: seq<T>, head: nat, tail: nat)

  predicate Ok<T>(r: Ring<T>) {
    r.head < |r.buf| && r.tail < |r.buf|
  }

  function Wrap(x: nat, n: nat): nat { if x >= n then x - n else x }

  function Size<T>(r: Ring<T>): (n: nat)
    requires Ok(r)
    ensures n < |r.buf|
  {
    if r.head >= r.tail then r.head - r.tail else r.head + |r.buf| - r.tail
  }

  /** What is in the ring, the oldest first. */
  function Contents<T>(r: Ring<T>): (c: seq<T>)
    requires Ok(r)
    ensures |c| == Size(r)
  {
    seq(Size(r), i requires 0 <= i < Size(r) => r.buf[Wrap(r.tail + i, |r.buf|)])
  }

  function Put<T>(r: Ring<T>, x: T): Ring<T>
    requires Ok(r)
  {
    Ring(r.buf[r.head := x], Wrap(r.head + 1, |r.buf|), r.tail)
  }

  lemma PutOk<T>(r: Ring<T>, x: T)
    requires Ok(r) && Size(r) + 1 < |r.buf|
    ensures Ok(Put(r, x)) && Contents(Put(r, x)) == Contents(r) + [x]
  {
    PutAllOk(r, [x]);
    assert PutAll(r, [x]) == Put(r, x);
  }

  function Get<T>(r: Ring<T>): Ring<T>
    requires Ok(r)
  {
    r.(tail := Wrap(r.tail + 1, |r.buf|))
  }

  lemma GetOk<T>(r: Ring<T>)
    requires Ok(r) && r.head != r.tail
    ensures Ok(Get(r)) && Contents(r) == [r.buf[r.tail]] + Contents(Get(r))
  {
    GetAllOk(r, 1);
  }

  /** The newest element is taken back. */
  function Drop<T>(r: Ring<T>): Ring<T>
    requires Ok(r)
  {
    r.(head := if r.head == 0 then |r.buf| - 1 else r.head - 1)
  }

  lemma DropOk<T>(r: Ring<T>)
    requires Ok(r) && r.head != r.tail
    ensures Ok(Drop(r)) && Contents(r) == Contents(Drop(r)) + [r.buf[Drop(r).head]]
  {
    var s := Drop(r);
    assert Size(r) == Size(s) + 1;
    forall i | 0 <= i < Size(r) ensures Contents(r)[i] == (Contents(s) + [r.buf[s.head]])[i] {
      assert i == Size(s) ==> Wrap(r.tail + i, |r.buf|) == s.head;
    }
  }

  /** Storing several elements where the buffer does not wrap. */
  function PutAll<T>(r: Ring<T>, xs: seq<T>): Ring<T>
    requires Ok(r) && r.head + |xs| <= |r.buf|
  {
    Ring(r.buf[..r.head] + xs + r.buf[r.head + |xs|..], Wrap(r.head + |xs|, |r.buf|), r.tail)
  }

  lemma PutAllOk<T>(r: Ring<T>, xs: seq<T>)
    requires Ok(r) && r.head + |xs| <= |r.buf| && Size(r) + |xs| < |r.buf|
    ensures Ok(PutAll(r, xs)) && Contents(PutAll(r, xs)) == Contents(r) + xs
  {
    var s := PutAll(r, xs);
    assert Size(s) == Size(r) + |xs|;
    forall i | 0 <= i < Size(s) ensures Contents(s)[i] == (Contents(r) + xs)[i] {
      var k := Wrap(r.tail + i, |r.buf|);
      assert i < Size(r) ==> (k < r.head || k >= r.head + |xs|);
      assert i >= Size(r) ==> k == r.head + (i - Size(r));
    }
  }

  function GetAll<T>(r: Ring<T>, n: nat): Ring<T>
    requires Ok(r)
  {
    r.(tail := Wrap(r.tail + n, |r.buf|))
  }

  lemma GetAllOk<T>(r: Ring<T>, n: nat)
    requires Ok(r) && r.tail + n <= |r.buf| && n <= Size(r)
    ensures Ok(GetAll(r, n)) && Contents(r) == r.buf[r.tail..r.tail + n] + Contents(GetAll(r, n))
  {
    var s := GetAll(r, n);
    assert Size(r) == n + Size(s);
    forall i | 0 <= i < Size(r) ensures Contents(r)[i] == (r.buf[r.tail..r.tail + n] + Contents(s))[i] {
      var k := Wrap(r.tail + i, |r.buf|);
      assert i >= n ==> k == Wrap(s.tail + (i - n), |r.buf|);
    }
  }
}
