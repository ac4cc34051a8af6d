/** The state and the reader side common to both streaming handlers
    (IOHandlerBufferHelper).  `Shared` is what the mutex protects; the reader's critical sections
    are functions on it, and the class below performs them on a real array. */
module BufferHelper {
  import opened Arrays
  import opened RingBuffer

  datatype Whence = SeekSet | SeekCur | SeekEnd

  datatype Shared = Shared(
    ring: Ring,
    posRead: int,
    gate: bool,               // waitForInitialFillSize
    initialFill: nat,
    doSeek: bool,
    offset: int,
    whence: Whence,
    eof: bool,
    readError: bool,
    shutdown: bool,
    checkSocket: bool)
  {
    ghost predicate Wf() {
      ring.Wf() && initialFill <= |ring.data|
    }

    function Size(): nat {
      |ring.data|
    }

    /** The distance of a pending seek, from the position of the next unread byte. */
    function RelSeek(): int {
      if whence == SeekSet then offset - posRead else offset
    }

    /** A pending absolute seek does not go back while bytes are buffered. */
    predicate SeekGoesForward() {
      doSeek && !ring.empty && whence == SeekSet ==> offset >= posRead
    }

    /** The pending seek lands on a byte that is in the buffer, or just behind it. */
    predicate SeekIsBuffered()
      requires ring.Wf()
    {
      && doSeek && !ring.empty
      && (whence == SeekSet || (whence == SeekCur && offset > 0))
      && RelSeek() <= ring.Fill()
    }

    /** The seek that is served by moving `a`. */
    function SeekInBuffer(): Shared
      requires ring.Wf() && SeekIsBuffered() && SeekGoesForward()
    {
      this.(ring := ring.Skip(RelSeek()), posRead := posRead + RelSeek(), doSeek := false)
    }

    /** The condition under which `read` stops waiting and copies bytes. */
    predicate CanRead() {
      (!(ring.empty || gate) || eof) && !readError && !shutdown && !(ring.empty && eof)
    }

    /** The condition under which `read` returns 0. */
    predicate SeesEnd() {
      !(readError || shutdown) && ring.empty && eof
    }

    /** How many of `length` wanted bytes lie before the end of the array. */
    function FirstPart(length: nat): nat
      requires ring.Wf()
    {
      var maxRead1 := if ring.a < ring.b then ring.b - ring.a else |ring.data| - ring.a;
      if maxRead1 > length then length else maxRead1
    }

    /** How many bytes one call of `read` delivers. */
    function ReadTotal(length: nat): (total: nat)
      requires ring.Wf() && !ring.empty
      ensures total == if length < ring.Fill() then length else ring.Fill()
    {
      var read1 := FirstPart(length);
      var maxRead2 := ring.Fill() - read1;
      var read2 := if read1 < length then length - read1 else 0;
      read1 + if read2 > maxRead2 then maxRead2 else read2
    }

    /** The reader's commit of `total` copied bytes. */
    function EndRead(total: nat): Shared {
      this.(ring := ring.Take(total), posRead := posRead + total)
    }

    /** Whether that commit signals the condition variable. */
    predicate EndReadSignals(total: nat, signalAfterEveryRead: bool) {
      signalAfterEveryRead || ring.a == ring.b || ring.Take(total).a == ring.b
    }

    function RequestSeek(offset: int, whence: Whence): Shared {
      this.(doSeek := true, offset := offset, whence := whence)
    }

    /** The filler's commit of `n` bytes, with the initial-fill gate. */
    function JoinBytes(n: nat): Shared
      requires ring.Wf() && 1 <= n <= |ring.data| - ring.Fill()
    {
      JoinAppends(ring, n);
      var r := ring.Join(n);
      this.(ring := r, gate := gate && r.Fill() < initialFill)
    }
  }

  /** What the outcome of `read` means for the unread bytes: without error and shutdown it hands bytes over
      exactly when there are some and the initial fill has been reached or the end of the source, and it
      reports the end exactly when the source has ended and nothing is left. */
  lemma ReadOutcomes(s: Shared)
    requires s.Wf()
    ensures s.CanRead() <==>
              !s.readError && !s.shutdown && s.ring.Contents() != [] && (s.eof || !s.gate)
    ensures s.SeesEnd() <==> !s.readError && !s.shutdown && s.ring.Contents() == [] && s.eof
  {
    hide Ring.Contents;
    assert s.ring.Contents() == [] <==> s.ring.Fill() == 0;
  }

  /** Without the flag a read signals exactly when the ring was full or becomes empty. */
  lemma SignalsExactly(s: Shared, total: nat)
    requires s.Wf() && !s.ring.empty && 1 <= total <= s.ring.Fill()
    ensures s.EndReadSignals(total, true)
    ensures s.EndReadSignals(total, false) <==> s.ring.Full() || total == s.ring.Fill()
  {
  }

  /** What the thread that calls `read` and `seek` is doing.  The two are never called at once. */
  datatype Reader =
    | Idle
    | Copying(read1: nat, total: nat, copied: seq<Byte>)   // unlocked, between the two locks
    | Seeking

  /** The reader's unlocked copy is a prefix of the queue. */
  ghost predicate ReaderOk(ring: Ring, reader: Reader) {
    ring.Wf() && (reader.Copying? ==>
      && !ring.empty
      && 1 <= reader.total <= ring.Fill()
      && reader.read1 <= reader.total
      && ring.a + reader.read1 <= |ring.data|
      && (reader.read1 < reader.total ==> ring.a + reader.read1 == |ring.data|)
      && |reader.copied| <= reader.total
      && reader.copied == ring.Contents()[..|reader.copied|])
  }

  function StartReading(s: Shared, length: nat): (r: Reader)
    requires s.Wf() && s.CanRead() && length > 0
    ensures ReaderOk(s.ring, r) && r.Copying? && r.total == s.ReadTotal(length) && r.copied == []
  {
    Copying(s.FirstPart(length), s.ReadTotal(length), [])
  }

  lemma OneMore(s: seq<Byte>, j: nat)
    requires j < |s|
    ensures s[..j + 1] == s[..j] + [s[j]]
  {
  }

  /** One byte of the reader's memcpy. */
  function CopyNext(ring: Ring, reader: Reader): (r: Reader)
    requires ReaderOk(ring, reader) && reader.Copying? && |reader.copied| < reader.total
    ensures ReaderOk(ring, r) && r.Copying? && r.total == reader.total
    ensures |r.copied| == |reader.copied| + 1
  {
    var j := |reader.copied|;
    ContentsAt(ring, j);
    OneMore(ring.Contents(), j);
    reader.(copied := reader.copied +
      [if j < reader.read1 then ring.data[ring.a + j] else ring.data[j - reader.read1]])
  }

  /** Anything that leaves the front of the queue alone leaves the reader's copy valid. */
  lemma ReaderKept(r: Ring, t: Ring, reader: Reader)
    requires ReaderOk(r, reader) && t.Wf() && |t.data| == |r.data|
    requires reader.Copying? ==> t.a == r.a && r.Contents() <= t.Contents()
    ensures ReaderOk(t, reader)
  {
  }

  /** The two slices that `read` copies are the front of the queue. */
  lemma TwoParts(r: Ring, read1: nat, read2: nat)
    requires r.Wf() && !r.empty && read1 + read2 <= r.Fill()
    requires r.a + read1 <= |r.data| && (read2 > 0 ==> r.a + read1 == |r.data|)
    ensures read2 <= |r.data|
    ensures r.data[r.a..r.a + read1] + r.data[..read2] == r.Contents()[..read1 + read2]
  {
    if r.a < r.b {
      SlicePrefix(r.data, r.a, read1, r.b - r.a);
    } else {
      PrefixOfSum(r.data[r.a..], r.data[..r.b], read1 + read2);
      SlicePrefix(r.data, r.a, read1, |r.data| - r.a);
    }
  }

  /** What `read` gives its caller. */
  datatype ReadResult = Blocked | SocketCheck | Failed | EndOfFile | Bytes(bytes: seq<Byte>)

  class IOHandlerBufferHelper {
    const buffer: array<Byte>
    const initialFillSize: nat
    const signalAfterEveryRead: bool
    var a: nat
    var b: nat
    var empty: bool
    var posRead: int
    var waitForInitialFillSize: bool
    var doSeek: bool
    var seekOffset: int
    var seekWhence: Whence
    var eof: bool
    var readError: bool
    var threadShutdown: bool
    var checkSocket: bool

    function View(): Shared
      reads this, buffer
    {
      Shared(Ring(buffer[..], a, b, empty), posRead, waitForInitialFillSize, initialFillSize,
             doSeek, seekOffset, seekWhence, eof, readError, threadShutdown, checkSocket)
    }

    constructor (bufSize: nat, initialFillSize: nat, signalAfterEveryRead: bool)
      requires 0 < bufSize && initialFillSize <= bufSize
      ensures View().Wf() && fresh(buffer) && buffer.Length == bufSize
      ensures View() == Shared(Ring(buffer[..], 0, 0, true), 0, initialFillSize > 0, initialFillSize,
                               false, 0, SeekSet, false, false, false, false)
      ensures this.signalAfterEveryRead == signalAfterEveryRead
    {
      buffer := new Byte[bufSize](_ => 0);
      this.initialFillSize := initialFillSize;
      this.signalAfterEveryRead := signalAfterEveryRead;
      a, b, posRead, empty := 0, 0, 0, true;
      waitForInitialFillSize := initialFillSize > 0;
      doSeek, seekOffset, seekWhence := false, 0, SeekSet;
      eof, readError, threadShutdown, checkSocket := false, false, false, false;
    }

    /** One pass of `read`: it blocks, or it hands over the oldest unread bytes. */
    method Read(length: nat) returns (result: ReadResult)
      requires View().Wf() && length > 0
      modifies this
      ensures View().Wf()
      ensures old(View().CanRead()) ==>
        && var n := old(View().ReadTotal(length));
        && result == Bytes(old(View().ring.Contents())[..n])
        && View() == old(View()).EndRead(n)
        && View().ring.Contents() == old(View().ring.Contents())[n..]
      ensures !old(View().CanRead()) ==>
        && View() == old(View()).(checkSocket := old(checkSocket) && result != SocketCheck)
        && result == (if old(readError || threadShutdown) then Failed
                      else if old(eof) then EndOfFile
                      else if old(checkSocket) then SocketCheck else Blocked)
      ensures result == Failed <==> old(readError || threadShutdown)
      ensures result == EndOfFile <==>
                old(!readError && !threadShutdown && eof && View().ring.Contents() == [])
      ensures result.Bytes? <==>
                old(!readError && !threadShutdown && View().ring.Contents() != [] && (eof || !waitForInitialFillSize))
    {
      ReadOutcomes(View());
      if (empty || waitForInitialFillSize) && !(threadShutdown || eof || readError) {
        if checkSocket {
          checkSocket := false;
          return SocketCheck;
        }
        return Blocked;
      }
      if readError || threadShutdown {
        return Failed;
      }
      if empty && eof {
        return EndOfFile;
      }
      var bytes := Deliver(length);
      result := Bytes(bytes);
    }

    /** The copying half of `read`. */
    method Deliver(length: nat) returns (bytes: seq<Byte>)
      requires View().Wf() && length > 0 && !empty
      modifies this
      ensures View().Wf()
      ensures bytes == old(View().ring.Contents())[..old(View().ReadTotal(length))]
      ensures View() == old(View()).EndRead(|bytes|)
      ensures View().ring.Contents() == old(View().ring.Contents())[|bytes|..]
    {
      hide Ring.Contents, Ring.Take, Shared.ReadTotal;
      DeliverIsEndRead(View(), View().ReadTotal(length));
      bytes := CopyOut(length);
      Advance(|bytes|);
    }

    /** The two memcpy calls of `read`. */
    method CopyOut(length: nat) returns (bytes: seq<Byte>)
      requires View().Wf() && length > 0 && !empty
      ensures |bytes| == View().ReadTotal(length)
      ensures bytes == View().ring.Contents()[..View().ReadTotal(length)]
    {
      hide Ring.Contents, Shared.ReadTotal, Shared.FirstPart;
      var bLocal := b;
      var currentFillSize := if bLocal <= a then bLocal - a + buffer.Length else bLocal - a;
      var maxRead1 := if a < bLocal then bLocal - a else buffer.Length - a;
      var read1 := if maxRead1 > length then length else maxRead1;
      var maxRead2 := currentFillSize - read1;
      var read2 := if read1 < length then length - read1 else 0;
      if read2 > maxRead2 {
        read2 := maxRead2;
      }
      assert read1 + read2 == View().ReadTotal(length);
      TwoParts(View().ring, read1, read2);
      bytes := buffer[..][a..a + read1] + buffer[..][..read2];
    }

    lemma DeliverIsEndRead(v: Shared, total: nat)
      requires v.Wf() && 1 <= total <= v.ring.Fill()
      ensures v.EndRead(total).Wf() && v.EndRead(total).ring.Contents() == v.ring.Contents()[total..]
    {
      hide Ring.Contents, Ring.Take;
      TakeDropsFront(v.ring, total);
    }

    /** The locked end of `read`. */
    method Advance(didRead: nat)
      requires View().Wf() && didRead <= buffer.Length
      modifies this`a, this`empty, this`posRead
      ensures View() == old(View()).EndRead(didRead)
    {
      a := a + didRead;
      if a >= buffer.Length {
        a := a - buffer.Length;
      }
      if a == b {
        empty := true;
      }
      posRead := posRead + didRead;
    }

    /** The seek served by moving `a`; both fillers contain this block. */
    method TrySeekInBuffer()
      requires View().Wf() && View().SeekGoesForward()
      modifies this
      ensures View() == if old(View().SeekIsBuffered()) then old(View()).SeekInBuffer() else old(View())
      ensures View().Wf()
    {
      hide Ring.Contents;
      if doSeek && !empty && (seekWhence == SeekSet || (seekWhence == SeekCur && seekOffset > 0)) {
        var currentFillSize := b - a;
        if currentFillSize <= 0 {
          currentFillSize := currentFillSize + buffer.Length;
        }
        var relSeek := seekOffset;
        if seekWhence == SeekSet {
          relSeek := relSeek - posRead;
        }
        if relSeek <= currentFillSize {
          SkipBytes(relSeek);
        }
      }
    }

    /** The move of `a` that serves a seek. */
    method MoveFront(relSeek: nat)
      requires View().Wf() && relSeek <= buffer.Length
      modifies this`a, this`b, this`empty
      ensures Ring(buffer[..], a, b, empty) == old(View().ring).Skip(relSeek)
    {
      a := a + relSeek;
      if a >= buffer.Length {
        a := a - buffer.Length;
      }
      if a == b {
        empty := true;
        a, b := 0, 0;
      }
    }

    method SkipBytes(relSeek: nat)
      requires View().Wf() && View().SeekIsBuffered() && View().SeekGoesForward()
      requires relSeek == View().RelSeek()
      modifies this
      ensures View() == old(View()).SeekInBuffer() && View().Wf()
    {
      hide Ring.Contents, Ring.Skip;
      ghost var v := View();
      SkipDropsFront(v.ring, relSeek);
      MoveFront(relSeek);
      posRead := posRead + relSeek;
      doSeek := false;
    }

    /** The initial-fill gate opens once enough bytes are buffered; both fillers end with this. */
    method OpenGate()
      requires View().Wf() && !empty
      modifies this`waitForInitialFillSize
      ensures waitForInitialFillSize ==
              (old(waitForInitialFillSize) && old(View().ring.Fill()) < initialFillSize)
    {
      if waitForInitialFillSize {
        var currentFillSize := b - a;
        if currentFillSize <= 0 {
          currentFillSize := currentFillSize + buffer.Length;
        }
        if currentFillSize >= initialFillSize {
          waitForInitialFillSize := false;
        }
      }
    }
  }

  /** The seek inside the buffer, for every ring and every distance from 1 to the fill: it drops
      that many bytes, lands on the requested position, and empties the ring exactly when it skips
      everything. */
  lemma SeekInBufferLands(s: Shared)
    requires s.Wf() && s.SeekIsBuffered() && s.RelSeek() >= 1
    ensures var t := s.SeekInBuffer();
      && t.Wf()
      && t.ring.Contents() == s.ring.Contents()[s.RelSeek()..]
      && t.posRead == (if s.whence == SeekSet then s.offset else s.posRead + s.offset)
      && (t.ring == s.ring.Cleared() <==> s.RelSeek() == s.ring.Fill())
      && !t.doSeek
  {
    SkipDropsFront(s.ring, s.RelSeek());
  }
}
