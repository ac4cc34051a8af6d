/** The circular byte buffer shared by the streaming handlers.

    A ring is the byte array together with the read index `a`, the write index `b` and the flag
    that tells an empty ring from a full one when the two indices coincide.  Everything else in
    the streaming modules is stated about `Contents`, the queue of unread bytes. */
module RingBuffer {

  type Byte = x: int | 0 <= x < 256

  datatype Ring = Ring(data: seq<Byte>, a: nat, b: nat, empty: bool) {

    ghost predicate Wf() {
      a < |data| && b < |data| && (empty ==> a == b)
    }

    predicate Full() {
      !empty && a == b
    }

    function Fill(): nat
      requires Wf()
    {
      if empty then 0 else if a < b then b - a else b - a + |data|
    }

    /** The unread bytes, oldest first. */
    function Contents(): (s: seq<Byte>)
      requires Wf()
      ensures |s| == Fill()
    {
      if empty then [] else if a < b then data[a..b] else data[a..] + data[..b]
    }

    /** The cell that lies `k` places after index `from`, going round the end. */
    function Cell(from: nat, k: nat): (p: nat)
      requires from < |data| && k < |data|
      ensures p < |data|
    {
      if from + k < |data| then from + k else from + k - |data|
    }

    /** An empty ring is moved back to the start of the array before it is filled again. */
    function Canonical(): Ring {
      if empty then this.(a := 0, b := 0) else this
    }

    /** The reader's commit: `n` bytes leave at the front. */
    function Take(n: nat): Ring {
      var a1 := if a + n >= |data| then a + n - |data| else a + n;
      this.(a := a1, empty := empty || a1 == b)
    }

    /** The seek inside the buffer: `d` bytes are skipped; an emptied ring goes back to index 0. */
    function Skip(d: nat): Ring {
      var a1 := if a + d >= |data| then a + d - |data| else a + d;
      if a1 == b then this.(a := 0, b := 0, empty := true) else this.(a := a1)
    }

    /** The filler's commit: `n` bytes that already lie after `b` join at the back. */
    function Join(n: nat): Ring {
      this.(b := if b + n >= |data| then b + n - |data| else b + n, empty := false)
    }

    /** The `n` bytes that lie after `b`. */
    function AfterB(n: nat): (s: seq<Byte>)
      requires b < |data| && n <= |data|
      ensures |s| == n
    {
      if b + n <= |data| then data[b..b + n] else data[b..] + data[..b + n - |data|]
    }

    function Store(p: nat, v: Byte): Ring
      requires p < |data|
    {
      this.(data := data[p := v])
    }

    function Cleared(): Ring {
      this.(a := 0, b := 0, empty := true)
    }
  }

  lemma ContentsAt(r: Ring, i: nat)
    requires r.Wf() && i < r.Fill()
    ensures r.Contents()[i] == r.data[r.Cell(r.a, i)]
  {
  }

  /** Taking between 1 and `Fill` bytes removes exactly those bytes from the front of the queue. */
  lemma TakeDropsFront(r: Ring, n: nat)
    requires r.Wf() && 1 <= n <= r.Fill()
    ensures r.Take(n).Wf()
    ensures r.Take(n).Contents() == r.Contents()[n..]
    ensures r.Take(n).b == r.b && r.Take(n).data == r.data
  {
    hide Ring.Contents;
    var t := r.Take(n);
    assert t.Wf();
    assert t.Fill() == r.Fill() - n;
    forall i: nat | i < t.Fill()
      ensures t.Contents()[i] == r.Contents()[n + i]
    {
      ContentsAt(t, i);
      ContentsAt(r, n + i);
    }
  }

  /** A seek over `d` bytes that are all in a non-empty ring drops exactly those bytes, and leaves
      the canonical empty ring exactly when it skips everything.  The only distance for which this
      fails is zero on a full ring, which comes out empty. */
  lemma SkipDropsFront(r: Ring, d: nat)
    requires r.Wf() && !r.empty && d <= r.Fill()
    ensures r.Skip(d).Wf()
    ensures r.Skip(d).Contents() == r.Contents()[d..] <==> d >= 1 || !r.Full()
    ensures d >= 1 ==> (r.Skip(d).empty <==> d == r.Fill())
    ensures r.Skip(d).empty ==> r.Skip(d) == r.Cleared()
    ensures r.Skip(d).data == r.data
  {
    hide Ring.Contents;
    var t := r.Skip(d);
    if d >= 1 || !r.Full() {
      assert t.Fill() == r.Fill() - d;
      forall i: nat | i < t.Fill()
        ensures t.Contents()[i] == r.Contents()[d + i]
      {
        ContentsAt(t, i);
        ContentsAt(r, d + i);
      }
      assert t.Contents() == r.Contents()[d..];
    } else {
      assert t.Contents() == [] && |r.Contents()[d..]| == |r.data|;
    }
  }

  /** Committing `n` bytes that fit into the free space appends exactly the bytes after `b`. */
  lemma JoinAppends(r: Ring, n: nat)
    requires r.Wf() && 1 <= n <= |r.data| - r.Fill()
    ensures r.Join(n).Wf()
    ensures r.Join(n).Contents() == r.Contents() + r.AfterB(n)
    ensures r.Join(n).data == r.data && r.Join(n).a == r.a
  {
    hide Ring.Contents, Ring.AfterB;
    var t := r.Join(n);
    assert t.Fill() == r.Fill() + n;
    forall i: nat | i < t.Fill()
      ensures t.Contents()[i] == (r.Contents() + r.AfterB(n))[i]
    {
      ContentsAt(t, i);
      if i < r.Fill() {
        ContentsAt(r, i);
      } else {
        AfterBAt(r, n, i - r.Fill());
      }
    }
  }

  lemma AfterBAt(r: Ring, n: nat, k: nat)
    requires r.Wf() && k < n <= |r.data|
    ensures r.AfterB(n)[k] == r.data[r.Cell(r.b, k)]
  {
  }

  /** A write into the free space touches no unread byte. */
  lemma StoreKeepsContents(r: Ring, k: nat, v: Byte)
    requires r.Wf() && k < |r.data| - r.Fill()
    ensures var t := r.Store(r.Cell(r.b, k), v); t.Wf() && t.Contents() == r.Contents()
  {
    hide Ring.Contents;
    var t := r.Store(r.Cell(r.b, k), v);
    forall i: nat | i < r.Fill()
      ensures t.Contents()[i] == r.Contents()[i]
    {
      ContentsAt(t, i);
      ContentsAt(r, i);
    }
  }
}
