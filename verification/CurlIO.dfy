/** The streaming handler that is fed by libcurl (CurlIOHandler::threadProc and curlCallback).

    A transfer delivers the remote resource from its resume offset in callbacks of at least one
    byte.  A callback waits under the lock until the ring has room for everything it was given,
    copies it in two parts without the lock, and commits under the lock. */
module CurlIO {
  import opened Wrappers
  import opened RingBuffer
  import opened BufferHelper

  /** libcurl's limit on the size of a callback. */
  const CURL_MAX_WRITE_SIZE := 16384

  datatype Filler =
    | AtLoopHead                                  // threadProc is about to lock and look at doSeek
    | Transferring                                // inside curl_easy_perform, no callback active
    | Asleep(signalled: bool, bytes: seq<Byte>)   // a callback in cond.wait
    | Storing(bytes: seq<Byte>, bLocal: nat, maxWrite: nat, write1: nat, done: nat)
    | TransferOver(ok: bool)                      // curl_easy_perform has returned
    | Stopped

  /** How a callback leaves one pass of its wait loop. */
  datatype Pass = Abort | Sleep | Proceed

  function BufFree(r: Ring): (n: nat)
    requires r.Wf()
    ensures n == |r.data| - r.Fill()
  {
    if r.empty then |r.data| else if r.a < r.b then r.a + |r.data| - r.b else r.a - r.b
  }

  /** The seek block at the head of the wait loop; a seek that is not buffered ends the transfer. */
  function CallbackSeek(s: Shared): (t: Shared)
    requires s.Wf() && s.SeekGoesForward()
    ensures t.ring.Wf() && t.initialFill == s.initialFill && t.ring.data == s.ring.data
  {
    if s.SeekIsBuffered() then
      SkipDropsFront(s.ring, s.RelSeek());
      s.SeekInBuffer()
    else if s.doSeek then
      s.(ring := s.ring.Cleared())
    else
      s
  }

  function Canonical(s: Shared): Shared {
    s.(ring := s.ring.Canonical())
  }

  /** The first pass: seek block, no sleep, shutdown test, room test; then, when there is no room,
      the head of the second pass up to the sleep. */
  function Enter(s: Shared, want: nat): (Shared, Pass)
    requires s.Wf() && s.SeekGoesForward()
  {
    var s1 := CallbackSeek(s);
    if s1.doSeek || s1.shutdown then (s1, Abort)
    else
      var s2 := Canonical(s1);
      (s2, if BufFree(s2.ring) < want then Sleep else Proceed)
  }

  /** A later pass, from the return of cond.wait to the next sleep or to the end of the loop. */
  function Resume(s: Shared, want: nat): (Shared, Pass)
    requires s.Wf() && s.SeekGoesForward()
  {
    if s.shutdown then (s, Abort)
    else
      var s1 := Canonical(s);
      if BufFree(s1.ring) >= want then (s1, Proceed)
      else
        var s2 := CallbackSeek(s1);
        (s2, if s2.doSeek then Abort else Sleep)
  }

  function StartStoring(r: Ring, bytes: seq<Byte>): Filler
    requires r.Wf()
  {
    var maxWrite := if r.empty then |r.data| else if r.a < r.b then |r.data| - r.b else r.a - r.b;
    var write1 := if |bytes| > maxWrite then maxWrite else |bytes|;
    Storing(bytes, r.b, maxWrite, write1, 0)
  }

  function AfterPass(s: Shared, pass: Pass, bytes: seq<Byte>): Filler
    requires s.ring.Wf()
  {
    match pass
    case Abort => TransferOver(false)
    case Sleep => Asleep(false, bytes)
    case Proceed => StartStoring(s.ring, bytes)
  }

  /** Where the `k`-th copied byte goes, and where it comes from. */
  function Target(f: Filler, k: nat): nat
    requires f.Storing?
  {
    if k < f.write1 then f.bLocal + k else k - f.write1
  }

  function Source(f: Filler, k: nat): nat
    requires f.Storing?
  {
    if k < f.write1 then k else f.maxWrite + (k - f.write1)
  }

  /** The seek block of threadProc. */
  function ThreadSeek(s: Shared): Shared {
    if !s.doSeek then s
    else s.(
      posRead := if s.whence == SeekSet then s.offset
                 else if s.whence == SeekCur then s.posRead + s.offset else s.posRead,
      gate := s.initialFill > 0,
      doSeek := false)
  }

  /** `transferPos` is the offset in the resource of the next byte that the current transfer will
      hand to a callback; a new transfer starts at the resume offset. */
  datatype State = State(sh: Shared, filler: Filler, reader: Reader, transferPos: int)

  datatype Action =
    | LoopHead
    | Callback(bytes: seq<Byte>)
    | Wake
    | StoreByte
    | Commit
    | TransferEnds(ok: bool)
    | LoopTest
    | BeginRead(length: nat)
    | CopyByte
    | FinishRead
    | ReportEnd
    | RequestSeek(offset: int, whence: Whence)
    | SeekReturns
    | Shutdown

  ghost predicate Init(s: State) {
    && s.sh.Wf()
    && s.sh.ring == s.sh.ring.Cleared()
    && s.sh.posRead == 0
    && s.sh.gate == (s.sh.initialFill > 0)
    && !s.sh.doSeek && !s.sh.eof && !s.sh.readError && !s.sh.shutdown
    && s.filler == AtLoopHead && s.reader == Idle && s.transferPos == 0
  }

  predicate SeekAllowed(s: Shared, offset: int, whence: Whence) {
    match whence
    case SeekSet => offset > s.posRead
    case SeekCur => offset != 0 && s.posRead + offset >= 0
    case SeekEnd => false
  }

  ghost predicate Enabled(s: State, act: Action, remote: int -> Byte) {
    match act
    case LoopHead => s.filler == AtLoopHead
    case Callback(bytes) =>
      s.filler == Transferring && Carries(bytes, s.sh, s.transferPos, remote)
    case Wake => s.filler.Asleep?
    case StoreByte => s.filler.Storing? && s.filler.done < |s.filler.bytes|
    case Commit => s.filler.Storing? && s.filler.done == |s.filler.bytes|
    case TransferEnds(_) => s.filler == Transferring
    case LoopTest => s.filler.TransferOver?
    case BeginRead(length) => s.reader == Idle && s.sh.CanRead() && length > 0
    case CopyByte => s.reader.Copying? && |s.reader.copied| < s.reader.total
    case FinishRead => s.reader.Copying? && |s.reader.copied| == s.reader.total
    case ReportEnd => s.reader == Idle && s.sh.SeesEnd()
    case RequestSeek(offset, whence) =>
      s.reader == Idle && !s.sh.shutdown && SeekAllowed(s.sh, offset, whence)
    case SeekReturns => s.reader == Seeking &&
      (!s.sh.doSeek || s.sh.shutdown || s.sh.eof || s.sh.readError)
    case Shutdown => s.reader == Idle
  }

  /** The ring holds the resource's bytes that follow the reader's position. */
  ghost predicate Mirrors(sh: Shared, remote: int -> Byte)
    requires sh.ring.Wf()
  {
    Window(sh.ring.Contents(), sh.posRead, remote)
  }

  /** The bytes are those of the resource from offset `pos` on. */
  ghost predicate Window(bytes: seq<Byte>, pos: int, remote: int -> Byte) {
    forall k :: 0 <= k < |bytes| ==> bytes[k] == remote(pos + k)
  }

  lemma WindowDrop(bytes: seq<Byte>, pos: int, d: nat, remote: int -> Byte)
    requires Window(bytes, pos, remote) && d <= |bytes|
    ensures Window(bytes[d..], pos + d, remote)
  {
  }

  lemma WindowAppend(bytes: seq<Byte>, more: seq<Byte>, pos: int, remote: int -> Byte)
    requires Window(bytes, pos, remote) && Window(more, pos + |bytes|, remote)
    ensures Window(bytes + more, pos, remote)
  {
    forall k | 0 <= k < |bytes + more|
      ensures (bytes + more)[k] == remote(pos + k)
    {
      if k >= |bytes| {
        assert more[k - |bytes|] == remote(pos + |bytes| + (k - |bytes|));
      }
    }
  }

  /** The next byte to come is the one behind the last byte in the ring. */
  predicate Aligned(s: State)
    requires s.sh.ring.Wf()
  {
    s.transferPos == s.sh.posRead + s.sh.ring.Fill()
  }

  /** A callback's bytes are those at the transfer position, and while it copies them it has enough
      free cells behind `b` to itself. */
  ghost predicate FillerInv(s: State, remote: int -> Byte)
    requires s.sh.Wf()
  {
    match s.filler
    case Asleep(_, bytes) => Carries(bytes, s.sh, s.transferPos, remote)
    case Storing(bytes, _, _, _, _) =>
      && Carries(bytes, s.sh, s.transferPos, remote)
      && StoringOk(s.sh.ring, s.filler)
    case _ => true
  }

  ghost predicate Carries(bytes: seq<Byte>, sh: Shared, pos: int, remote: int -> Byte) {
    1 <= |bytes| <= sh.Size() && Window(bytes, pos, remote)
  }

  ghost predicate StoringOk(r: Ring, f: Filler)
    requires r.Wf() && f.Storing?
  {
    && f.bLocal == r.b
    && |f.bytes| <= |r.data| - r.Fill()
    && f.done <= |f.bytes|
    && f.write1 <= |f.bytes|
    && f.bLocal + f.write1 <= |r.data|
    && (f.write1 < |f.bytes| ==> f.write1 == f.maxWrite && f.bLocal + f.write1 == |r.data|)
    && forall k :: 0 <= k < f.done ==> r.data[r.Cell(f.bLocal, k)] == f.bytes[k]
  }

  ghost predicate SeekInv(s: State) {
    && (s.sh.doSeek ==> s.reader == Seeking || s.filler == Stopped)
    && (s.sh.doSeek && s.reader == Seeking ==> SeekAllowed(s.sh, s.sh.offset, s.sh.whence))
    && (s.sh.eof || s.sh.readError <==> s.filler == Stopped)
    && (s.reader != Idle ==> !s.sh.shutdown)
  }

  /** Which phases promise alignment: all but those between an aborted transfer and the next one. */
  ghost predicate PhaseInv(s: State)
    requires s.sh.ring.Wf()
  {
    match s.filler
    case AtLoopHead => !s.sh.doSeek ==> Aligned(s)
    case TransferOver(_) => !s.sh.doSeek ==> Aligned(s)
    case _ => Aligned(s)
  }

  ghost predicate Inv(s: State, remote: int -> Byte) {
    && s.sh.Wf()
    && Mirrors(s.sh, remote)
    && PhaseInv(s)
    && FillerInv(s, remote)
    && ReaderOk(s.sh.ring, s.reader)
    && SeekInv(s)
  }

  function Signal(f: Filler): Filler {
    if f.Asleep? then f.(signalled := true) else f
  }

  function RunPass(s: State, pass: (Shared, Pass), bytes: seq<Byte>): State
    requires pass.0.ring.Wf()
  {
    s.(sh := pass.0, filler := AfterPass(pass.0, pass.1, bytes))
  }

  function Apply(s: State, act: Action, ghost remote: int -> Byte): State
    requires Inv(s, remote) && Enabled(s, act, remote)
  {
    match act
    case LoopHead => s.(
      sh := ThreadSeek(s.sh),
      filler := Transferring,
      transferPos := if s.sh.doSeek then ThreadSeek(s.sh).posRead else s.transferPos)
    case Callback(bytes) => RunPass(s, Enter(s.sh, |bytes|), bytes)
    case Wake => RunPass(s, Resume(s.sh, |s.filler.bytes|), s.filler.bytes)
    case StoreByte =>
      var k := s.filler.done;
      StoringIndices(s.sh.ring, s.filler, k);
      s.(sh := s.sh.(ring := s.sh.ring.Store(Target(s.filler, k),
                                             s.filler.bytes[Source(s.filler, k)])),
         filler := s.filler.(done := k + 1))
    case Commit => s.(
      sh := s.sh.JoinBytes(|s.filler.bytes|),
      filler := Transferring,
      transferPos := s.transferPos + |s.filler.bytes|)
    case TransferEnds(ok) => s.(filler := TransferOver(ok))
    case LoopTest =>
      if s.sh.doSeek then s.(filler := AtLoopHead)
      else if s.filler.ok then s.(filler := Stopped, sh := s.sh.(eof := true))
      else s.(filler := Stopped, sh := s.sh.(readError := true))
    case BeginRead(length) => s.(reader := StartReading(s.sh, length))
    case CopyByte => s.(reader := CopyNext(s.sh.ring, s.reader))
    case FinishRead => s.(
      sh := s.sh.EndRead(s.reader.total),
      filler := if s.sh.EndReadSignals(s.reader.total, true) then Signal(s.filler) else s.filler,
      reader := Idle)
    case ReportEnd => s
    case RequestSeek(offset, whence) => s.(
      sh := s.sh.RequestSeek(offset, whence),
      filler := Signal(s.filler),
      reader := Seeking)
    case SeekReturns => s.(reader := Idle)
    case Shutdown => s.(sh := s.sh.(shutdown := true), filler := Signal(s.filler))
  }

  /** The two memcpy calls together copy byte `k` to the `k`-th free cell. */
  lemma StoringIndices(r: Ring, f: Filler, k: nat)
    requires r.Wf() && f.Storing? && StoringOk(r, f) && k < |f.bytes|
    ensures Source(f, k) == k && Target(f, k) == r.Cell(r.b, k)
  {
  }

  /** One step of either thread; unconstrained outside `Inv`, where no run gets. */
  ghost predicate Next(s: State, act: Action, t: State, remote: int -> Byte) {
    Enabled(s, act, remote) && (Inv(s, remote) ==> t == Apply(s, act, remote))
  }

  ghost predicate IsRun(tr: seq<State>, acts: seq<Action>, remote: int -> Byte) {
    && |tr| == |acts| + 1
    && Init(tr[0])
    && forall i :: 0 <= i < |acts| ==> Next(tr[i], acts[i], tr[i + 1], remote)
  }

  /** threadProc's own seek block meets unread bytes: the seek was requested after the last callback
      of a transfer that then ended. */
  predicate SeekFindsBytes(s: State, act: Action) {
    act == LoopHead && s.sh.doSeek && !s.sh.ring.empty
  }

  lemma InvInit(s: State, remote: int -> Byte)
    requires Init(s)
    ensures Inv(s, remote)
  {
  }

  lemma SkipMirrors(s: Shared, remote: int -> Byte)
    requires s.Wf() && Mirrors(s, remote) && s.SeekIsBuffered() && s.RelSeek() >= 1
    ensures var t := s.SeekInBuffer();
      t.Wf() && Mirrors(t, remote) && t.posRead + t.ring.Fill() == s.posRead + s.ring.Fill()
  {
    SkipDropsFront(s.ring, s.RelSeek());
    WindowDrop(s.ring.Contents(), s.posRead, s.RelSeek(), remote);
  }

  lemma ClearedMirrors(s: Shared, remote: int -> Byte)
    requires s.Wf()
    ensures Mirrors(s.(ring := s.ring.Cleared()), remote)
  {
  }

  /** The in-buffer and the aborting seek keep the ring a window on the resource. */
  lemma CallbackSeekMirrors(s: Shared, remote: int -> Byte)
    requires s.Wf() && Mirrors(s, remote)
    requires s.doSeek ==> SeekAllowed(s, s.offset, s.whence)
    ensures var t := CallbackSeek(s);
      && Mirrors(t, remote)
      && (t.doSeek ==> t.ring.empty && t == s.(ring := t.ring))
      && (!t.doSeek ==> t.posRead + t.ring.Fill() == s.posRead + s.ring.Fill())
      && (t.doSeek ==> s.doSeek) && (!s.doSeek ==> t == s)
      && t.shutdown == s.shutdown && t.eof == s.eof && t.readError == s.readError
  {
    hide Ring.Contents, Window, Ring.Skip;
    ClearedMirrors(s, remote);
    if s.SeekIsBuffered() {
      SkipMirrors(s, remote);
    }
  }

  lemma CanonicalMirrors(s: Shared, remote: int -> Byte)
    requires s.Wf() && Mirrors(s, remote)
    ensures var t := Canonical(s);
      t.Wf() && Mirrors(t, remote) && t.ring.Contents() == s.ring.Contents()
  {
  }

  /** What a pass of the wait loop promises about the state `t` it leaves. */
  ghost predicate PassOk(s: Shared, t: Shared, pass: Pass, want: nat, remote: int -> Byte) {
    && s.Wf() && t.Wf() && Mirrors(t, remote)
    && t.Size() == s.Size() && t.shutdown == s.shutdown && t.eof == s.eof
    && t.readError == s.readError
    && (t.doSeek ==> s.doSeek && t == s.(ring := t.ring))
    && (!t.doSeek || pass == Proceed ==> t.posRead + t.ring.Fill() == s.posRead + s.ring.Fill())
    && (pass == Sleep ==> !t.doSeek)
    && (pass == Proceed ==> BufFree(t.ring) >= want && t.ring == t.ring.Canonical())
    && (!s.doSeek && !s.ring.empty ==> t.ring == s.ring)
  }

  lemma EnterOk(s: Shared, want: nat, remote: int -> Byte)
    requires s.Wf() && Mirrors(s, remote)
    requires s.doSeek ==> SeekAllowed(s, s.offset, s.whence)
    ensures PassOk(s, Enter(s, want).0, Enter(s, want).1, want, remote)
  {
    hide Ring.Contents, Window, CallbackSeek;
    CallbackSeekMirrors(s, remote);
    CanonicalMirrors(CallbackSeek(s), remote);
  }

  lemma ResumeOk(s: Shared, want: nat, remote: int -> Byte)
    requires s.Wf() && Mirrors(s, remote)
    requires s.doSeek ==> SeekAllowed(s, s.offset, s.whence)
    ensures PassOk(s, Resume(s, want).0, Resume(s, want).1, want, remote)
  {
    hide Ring.Contents, Window, CallbackSeek;
    CanonicalMirrors(s, remote);
    CallbackSeekMirrors(Canonical(s), remote);
  }

  /** How a pass of the wait loop ends, told from the fill of the ring: a callback is given up exactly for a
      shutdown or a seek that is not in the buffer, and otherwise goes on exactly when it fits. */
  lemma EnterExactly(s: Shared, want: nat)
    requires s.Wf() && s.SeekGoesForward() && (s.SeekIsBuffered() ==> s.RelSeek() >= 1)
    ensures var skipped := if s.SeekIsBuffered() then s.RelSeek() else 0;
      Enter(s, want).1 ==
        if s.shutdown || (s.doSeek && !s.SeekIsBuffered()) then Abort
        else if want <= s.Size() - (s.ring.Fill() - skipped) then Proceed else Sleep
  {
    hide Ring.Contents, Ring.Skip;
    if s.SeekIsBuffered() {
      SkipDropsFront(s.ring, s.RelSeek());
    }
  }

  /** A later pass looks for room before it looks for a seek. */
  lemma ResumeExactly(s: Shared, want: nat)
    requires s.Wf() && s.SeekGoesForward()
    ensures Resume(s, want).1 ==
      if s.shutdown then Abort
      else if want <= s.Size() - s.ring.Fill() then Proceed
      else if s.doSeek && !s.SeekIsBuffered() then Abort else Sleep
  {
    hide Ring.Contents, Ring.Skip;
  }

  lemma PassKeepsInv(s: State, t: Shared, pass: Pass, bytes: seq<Byte>, remote: int -> Byte)
    requires Inv(s, remote) && Aligned(s) && (s.filler == Transferring || s.filler.Asleep?)
    requires Carries(bytes, s.sh, s.transferPos, remote)
    requires PassOk(s.sh, t, pass, |bytes|, remote)
    ensures Inv(RunPass(s, (t, pass), bytes), remote)
  {
    var u := RunPass(s, (t, pass), bytes);
    assert PhaseInv(u);
    assert FillerInv(u, remote);
    assert ReaderOk(u.sh.ring, u.reader);
    assert SeekInv(u);
  }

  lemma StoreKeepsInv(s: State, remote: int -> Byte)
    requires Inv(s, remote) && Enabled(s, StoreByte, remote)
    ensures Inv(Apply(s, StoreByte, remote), remote)
    ensures Apply(s, StoreByte, remote).sh.ring.Contents() == s.sh.ring.Contents()
  {
    hide Ring.Contents, Window;
    var k := s.filler.done;
    var t := Apply(s, StoreByte, remote);
    StoringIndices(s.sh.ring, s.filler, k);
    StoreKeepsContents(s.sh.ring, k, s.filler.bytes[k]);
    assert StoringOk(t.sh.ring, t.filler);
    ReaderKept(s.sh.ring, t.sh.ring, s.reader);
    assert PhaseInv(t);
  }

  /** When all bytes are stored, the cells behind `b` hold exactly the callback's bytes. */
  lemma StoredAll(r: Ring, f: Filler)
    requires r.Wf() && f.Storing? && StoringOk(r, f) && f.done == |f.bytes|
    ensures r.AfterB(|f.bytes|) == f.bytes
  {
    hide Ring.AfterB;
    forall k | 0 <= k < |f.bytes|
      ensures r.AfterB(|f.bytes|)[k] == f.bytes[k]
    {
      AfterBAt(r, |f.bytes|, k);
    }
  }

  lemma StoringStarts(r: Ring, bytes: seq<Byte>)
    requires r.Wf() && r == r.Canonical() && 1 <= |bytes| <= |r.data| - r.Fill()
    ensures StoringOk(r, StartStoring(r, bytes))
    ensures forall k :: 0 <= k < |bytes| ==> Source(StartStoring(r, bytes), k) == k
  {
  }

  lemma CommitFits(s: State, remote: int -> Byte)
    requires Inv(s, remote) && Enabled(s, Commit, remote)
    ensures 1 <= |s.filler.bytes| <= |s.sh.ring.data| - s.sh.ring.Fill()
    ensures Window(s.filler.bytes, s.sh.posRead + s.sh.ring.Fill(), remote)
  {
  }

  lemma CommitKeepsInv(s: State, remote: int -> Byte)
    requires Inv(s, remote) && Enabled(s, Commit, remote)
    ensures Inv(Apply(s, Commit, remote), remote)
    ensures Apply(s, Commit, remote).sh.ring.Contents() == s.sh.ring.Contents() + s.filler.bytes
  {
    hide Ring.Contents, Ring.AfterB, Ring.Join, Window, StoringOk, ReaderOk;
    var n := |s.filler.bytes|;
    var t := Apply(s, Commit, remote);
    CommitFits(s, remote);
    JoinAppends(s.sh.ring, n);
    StoredAll(s.sh.ring, s.filler);
    WindowAppend(s.sh.ring.Contents(), s.filler.bytes, s.sh.posRead, remote);
    ReaderKept(s.sh.ring, t.sh.ring, s.reader);
    assert |t.sh.ring.Contents()| == s.sh.ring.Fill() + n;
  }

  lemma EndReadMirrors(sh: Shared, n: nat, remote: int -> Byte)
    requires sh.Wf() && Mirrors(sh, remote) && 1 <= n <= sh.ring.Fill()
    ensures var t := sh.EndRead(n);
      && t.Wf() && Mirrors(t, remote)
      && t.ring.Fill() == sh.ring.Fill() - n
      && t.posRead + t.ring.Fill() == sh.posRead + sh.ring.Fill()
  {
    TakeDropsFront(sh.ring, n);
    WindowDrop(sh.ring.Contents(), sh.posRead, n, remote);
    assert |sh.EndRead(n).ring.Contents()| == |sh.ring.Contents()| - n;
  }

  lemma FinishReadKeepsInv(s: State, remote: int -> Byte)
    requires Inv(s, remote) && Enabled(s, FinishRead, remote)
    ensures Inv(Apply(s, FinishRead, remote), remote)
  {
    hide Ring.Contents, Ring.Take, Window;
    EndReadMirrors(s.sh, s.reader.total, remote);
    TakeDropsFront(s.sh.ring, s.reader.total);
    FinishReadKeepsFiller(s, remote);
    assert SeekInv(Apply(s, FinishRead, remote));
  }

  lemma FinishReadKeepsFiller(s: State, remote: int -> Byte)
    requires Inv(s, remote) && Enabled(s, FinishRead, remote)
    requires Apply(s, FinishRead, remote).sh.Wf()
    ensures FillerInv(Apply(s, FinishRead, remote), remote) && PhaseInv(Apply(s, FinishRead, remote))
  {
    hide Ring.Contents, Ring.Take, Window;
    EndReadMirrors(s.sh, s.reader.total, remote);
    TakeDropsFront(s.sh.ring, s.reader.total);
  }

  /** threadProc's seek block keeps the ring aligned with the transfer it starts exactly when the
      ring is empty. */
  lemma LoopHeadKeepsInv(s: State, remote: int -> Byte)
    requires Inv(s, remote) && s.filler == AtLoopHead
    ensures Inv(Apply(s, LoopHead, remote), remote) <==> !SeekFindsBytes(s, LoopHead)
  {
    var t := Apply(s, LoopHead, remote);
    if s.sh.doSeek {
      assert t.sh.ring == s.sh.ring;
      assert Aligned(t) <==> s.sh.ring.Fill() == 0;
    }
  }

  lemma InvNext(s: State, act: Action, remote: int -> Byte)
    requires Inv(s, remote) && Enabled(s, act, remote)
    ensures Inv(Apply(s, act, remote), remote) <==> !SeekFindsBytes(s, act)
  {
    hide Ring.Contents, Window, StoringOk, ReaderOk, Enter, Resume, PassOk, SeekAllowed, FillerInv, Mirrors;
    match act
    case LoopHead => LoopHeadKeepsInv(s, remote);
    case Callback(bytes) => CallbackKeepsInv(s, bytes, remote);
    case Wake => WakeKeepsInv(s, remote);
    case StoreByte => StoreKeepsInv(s, remote);
    case Commit => CommitKeepsInv(s, remote);
    case FinishRead => FinishReadKeepsInv(s, remote);
    case TransferEnds(_) => LoopKeepsInv(s, act, remote);
    case LoopTest => LoopKeepsInv(s, act, remote);
    case _ => ClientKeepsInv(s, act, remote);
  }

  lemma CallbackKeepsInv(s: State, bytes: seq<Byte>, remote: int -> Byte)
    requires Inv(s, remote) && Enabled(s, Callback(bytes), remote)
    ensures Inv(Apply(s, Callback(bytes), remote), remote)
  {
    hide Ring.Contents, Window, StoringOk, ReaderOk, Enter, PassOk;
    EnterOk(s.sh, |bytes|, remote);
    var p := Enter(s.sh, |bytes|);
    PassKeepsInv(s, p.0, p.1, bytes, remote);
  }

  lemma WakeKeepsInv(s: State, remote: int -> Byte)
    requires Inv(s, remote) && Enabled(s, Wake, remote)
    ensures Inv(Apply(s, Wake, remote), remote)
  {
    hide Ring.Contents, Window, StoringOk, ReaderOk, Resume, PassOk;
    ResumeOk(s.sh, |s.filler.bytes|, remote);
    var p := Resume(s.sh, |s.filler.bytes|);
    PassKeepsInv(s, p.0, p.1, s.filler.bytes, remote);
  }

  lemma LoopKeepsInv(s: State, act: Action, remote: int -> Byte)
    requires Inv(s, remote) && Enabled(s, act, remote) && (act.TransferEnds? || act.LoopTest?)
    ensures Inv(Apply(s, act, remote), remote)
  {
    hide Ring.Contents, Window, StoringOk, ReaderOk;
  }

  /** The reader's steps other than the end of a read. */
  lemma ClientKeepsInv(s: State, act: Action, remote: int -> Byte)
    requires Inv(s, remote) && Enabled(s, act, remote)
    requires act.BeginRead? || act.CopyByte? || act.ReportEnd? || act.RequestSeek? || act.SeekReturns? || act.Shutdown?
    ensures Inv(Apply(s, act, remote), remote)
  {
    hide Ring.Contents, Window, StoringOk;
  }

  /** No seek is requested between the last callback of a transfer and the end of that transfer
      while bytes are buffered. */
  ghost predicate SeeksMeetEmptyRing(tr: seq<State>, acts: seq<Action>) {
    forall i :: 0 <= i < |acts| && i < |tr| ==> !SeekFindsBytes(tr[i], acts[i])
  }

  /** Over whole runs with reads, forward and relative backward seeks, the ring is always a window on
      the remote resource that starts at the reader's position. */
  lemma {:induction false} RunMirrorsResource(tr: seq<State>, acts: seq<Action>,
                                              remote: int -> Byte, i: nat)
    requires IsRun(tr, acts, remote) && i < |tr|
    requires SeeksMeetEmptyRing(tr, acts)
    ensures Inv(tr[i], remote) && Mirrors(tr[i].sh, remote)
  {
    if i == 0 {
      InvInit(tr[0], remote);
    } else {
      RunMirrorsResource(tr, acts, remote, i - 1);
      assert Next(tr[i - 1], acts[i - 1], tr[i], remote);
      InvNext(tr[i - 1], acts[i - 1], remote);
    }
  }

  /** So every call of `read` returns the resource's bytes from the reader's position, and moves the
      position past them. */
  lemma ReadReturnsResource(tr: seq<State>, acts: seq<Action>, remote: int -> Byte, i: nat)
    requires IsRun(tr, acts, remote) && i < |acts| && SeeksMeetEmptyRing(tr, acts)
    requires acts[i] == FinishRead
    ensures tr[i].reader.Copying? && Window(tr[i].reader.copied, tr[i].sh.posRead, remote)
    ensures tr[i + 1].sh.posRead == tr[i].sh.posRead + |tr[i].reader.copied|
  {
    RunMirrorsResource(tr, acts, remote, i);
    assert Next(tr[i], acts[i], tr[i + 1], remote);
  }

  // ---- the end of the resource, the initial fill and the seeks ----

  /** libcurl has reported success, or failure, at the end of a transfer that no seek follows. */
  ghost predicate Ended(tr: seq<State>, acts: seq<Action>, i: nat, ok: bool)
    requires i <= |acts| && |tr| == |acts| + 1
  {
    exists j :: 0 <= j < i && acts[j] == LoopTest && !tr[j].sh.doSeek && tr[j].filler == TransferOver(ok)
  }

  ghost predicate Closed(acts: seq<Action>, i: nat)
    requires i <= |acts|
  {
    exists j :: 0 <= j < i && acts[j] == Shutdown
  }

  /** threadProc takes up a seek: the initial fill has to be reached again. */
  predicate Restarts(s: State, act: Action) {
    act == LoopHead && s.sh.doSeek
  }

  ghost predicate Fills(t: State, act: Action) {
    act == Commit && t.sh.Wf() && t.sh.ring.Fill() >= t.sh.initialFill
  }

  /** The initial fill has been reached since the start or the last restart. */
  ghost predicate FilledSince(tr: seq<State>, acts: seq<Action>, i: nat)
    requires i <= |acts| && |tr| == |acts| + 1
  {
    exists j :: 0 <= j < i && Fills(tr[j + 1], acts[j]) && forall k :: j < k < i ==> !Restarts(tr[k], acts[k])
  }

  lemma FilledStep(tr: seq<State>, acts: seq<Action>, i: nat)
    requires i < |acts| && |tr| == |acts| + 1
    ensures FilledSince(tr, acts, i + 1) <==>
              Fills(tr[i + 1], acts[i]) || (FilledSince(tr, acts, i) && !Restarts(tr[i], acts[i]))
  {
    hide Fills, Restarts, FilledSince;
    if FilledSince(tr, acts, i + 1) && !Fills(tr[i + 1], acts[i]) {
      FilledBefore(tr, acts, i);
    }
    FilledStays(tr, acts, i);
  }

  lemma FilledBefore(tr: seq<State>, acts: seq<Action>, i: nat)
    requires i < |acts| && |tr| == |acts| + 1 && FilledSince(tr, acts, i + 1) && !Fills(tr[i + 1], acts[i])
    ensures FilledSince(tr, acts, i) && !Restarts(tr[i], acts[i])
  {
    hide Fills, Restarts;
    var j :| 0 <= j < i + 1 && Fills(tr[j + 1], acts[j]) && forall k :: j < k < i + 1 ==> !Restarts(tr[k], acts[k]);
    assert j < i;
  }

  lemma FilledStays(tr: seq<State>, acts: seq<Action>, i: nat)
    requires i < |acts| && |tr| == |acts| + 1
    ensures Fills(tr[i + 1], acts[i]) ==> FilledSince(tr, acts, i + 1)
    ensures FilledSince(tr, acts, i) && !Restarts(tr[i], acts[i]) ==> FilledSince(tr, acts, i + 1)
  {
    hide Fills, Restarts;
  }

  predicate SameFlags(s: Shared, t: Shared) {
    && t.eof == s.eof && t.readError == s.readError && t.shutdown == s.shutdown
    && t.initialFill == s.initialFill && t.gate == s.gate
  }

  lemma SeekSameFlags(s: Shared)
    requires s.Wf() && s.SeekGoesForward()
    ensures SameFlags(s, CallbackSeek(s))
    ensures Canonical(s).Wf() && Canonical(s).SeekGoesForward() && SameFlags(s, Canonical(s))
  {
    hide Ring.Contents, Ring.Skip;
  }

  /** The flags and the gate after a pass of the callback's wait loop. */
  lemma PassFlags(s: Shared, want: nat)
    requires s.Wf() && s.SeekGoesForward()
    ensures SameFlags(s, Enter(s, want).0) && SameFlags(s, Resume(s, want).0)
  {
    hide CallbackSeek;
    SeekSameFlags(s);
    SeekSameFlags(Canonical(s));
  }

  ghost predicate FlagsAfter(s: State, act: Action, t: State) {
    && (t.sh.eof <==> s.sh.eof || (act == LoopTest && !s.sh.doSeek && s.filler == TransferOver(true)))
    && (t.sh.readError <==> s.sh.readError || (act == LoopTest && !s.sh.doSeek && s.filler == TransferOver(false)))
    && (t.sh.shutdown <==> s.sh.shutdown || act == Shutdown)
    && t.sh.initialFill == s.sh.initialFill
    && (t.sh.gate <==> if Restarts(s, act) then s.sh.initialFill > 0 else s.sh.gate && !Fills(t, act))
    && (Restarts(s, act) ==> !Fills(t, act))
  }

  lemma StepFlags(s: State, act: Action, remote: int -> Byte)
    requires Inv(s, remote) && Enabled(s, act, remote)
    ensures FlagsAfter(s, act, Apply(s, act, remote))
  {
    hide Ring.Contents, Ring.Take, Ring.Store, ReaderOk, Window, StoringOk, Enter, Resume, Shared.JoinBytes;
    match act
    case Callback(bytes) => PassFlags(s.sh, |bytes|);
    case Wake => PassFlags(s.sh, |s.filler.bytes|);
    case Commit => CommitFlags(s, remote);
    case _ =>
  }

  lemma CommitFlags(s: State, remote: int -> Byte)
    requires Inv(s, remote) && Enabled(s, Commit, remote)
    ensures FlagsAfter(s, Commit, Apply(s, Commit, remote))
  {
    hide Ring.Contents, Ring.Join, ReaderOk, Window, StoringOk, Mirrors;
    CommitFits(s, remote);
    JoinAppends(s.sh.ring, |s.filler.bytes|);
  }

  /** In every run the flags tell the history: the transfers have ended or failed, the client has closed the
      handler, and the gate is up exactly until the initial fill has been reached. */
  lemma {:induction false} FlagsTellHistory(tr: seq<State>, acts: seq<Action>, remote: int -> Byte, i: nat)
    requires IsRun(tr, acts, remote) && i <= |acts| && SeeksMeetEmptyRing(tr, acts)
    ensures Inv(tr[i], remote)
    ensures tr[i].sh.eof <==> Ended(tr, acts, i, true)
    ensures tr[i].sh.readError <==> Ended(tr, acts, i, false)
    ensures tr[i].sh.shutdown <==> Closed(acts, i)
    ensures tr[i].filler == Stopped <==> Ended(tr, acts, i, true) || Ended(tr, acts, i, false)
    ensures tr[i].sh.initialFill == tr[0].sh.initialFill
    ensures tr[i].sh.gate <==> tr[0].sh.initialFill > 0 && !FilledSince(tr, acts, i)
  {
    hide Inv, Apply, Enabled, Restarts, Fills, FilledSince, SeeksMeetEmptyRing;
    RunMirrorsResource(tr, acts, remote, i);
    StoppedForAReason(tr[i], remote);
    if i == 0 {
      NoHistory(tr, acts);
    } else {
      FlagsTellHistory(tr, acts, remote, i - 1);
      assert Next(tr[i - 1], acts[i - 1], tr[i], remote);
      StepFlags(tr[i - 1], acts[i - 1], remote);
      FilledStep(tr, acts, i - 1);
    }
  }

  lemma StoppedForAReason(s: State, remote: int -> Byte)
    requires Inv(s, remote)
    ensures s.sh.eof || s.sh.readError <==> s.filler == Stopped
  {
  }

  lemma NoHistory(tr: seq<State>, acts: seq<Action>)
    requires |tr| == |acts| + 1
    ensures !FilledSince(tr, acts, 0)
  {
  }

  /** When a read is served, and when the end is reported. */
  lemma ReadIsServedWhen(tr: seq<State>, acts: seq<Action>, remote: int -> Byte, i: nat, length: nat)
    requires IsRun(tr, acts, remote) && i <= |acts| && SeeksMeetEmptyRing(tr, acts)
    requires tr[i].reader == Idle && length > 0
    ensures Inv(tr[i], remote)
    ensures Enabled(tr[i], BeginRead(length), remote) <==>
      && tr[i].sh.ring.Contents() != [] && !Ended(tr, acts, i, false) && !Closed(acts, i)
      && (Ended(tr, acts, i, true) || tr[0].sh.initialFill == 0 || FilledSince(tr, acts, i))
    ensures Enabled(tr[i], ReportEnd, remote) <==>
      && tr[i].sh.ring.Contents() == [] && !Ended(tr, acts, i, false) && !Closed(acts, i)
      && Ended(tr, acts, i, true)
  {
    hide Ended, Closed, FilledSince, Shared.CanRead, Shared.SeesEnd, Ring.Contents, SeeksMeetEmptyRing;
    FlagsTellHistory(tr, acts, remote, i);
    ReadOutcomes(tr[i].sh);
  }

  /** A transfer has ended with success at offset `pos`. */
  ghost predicate EndsAt(tr: seq<State>, acts: seq<Action>, i: nat, pos: int)
    requires i <= |acts| && |tr| == |acts| + 1
  {
    exists j :: 0 <= j < i && acts[j] == TransferEnds(true) && tr[j].transferPos == pos
  }

  lemma {:induction false} EndIsThere(tr: seq<State>, acts: seq<Action>, remote: int -> Byte, i: nat)
    requires IsRun(tr, acts, remote) && i <= |acts| && SeeksMeetEmptyRing(tr, acts)
    ensures tr[i].filler == TransferOver(true) || tr[i].sh.eof ==> EndsAt(tr, acts, i, tr[i].transferPos)
  {
    hide Inv, Apply, Enabled, SeeksMeetEmptyRing, EndsAt;
    if i > 0 {
      EndIsThere(tr, acts, remote, i - 1);
      RunMirrorsResource(tr, acts, remote, i - 1);
      assert Next(tr[i - 1], acts[i - 1], tr[i], remote);
      OverStays(tr[i - 1], acts[i - 1], remote);
      EndsAtStep(tr, acts, i - 1, tr[i].transferPos);
    }
  }

  lemma OverStays(s: State, act: Action, remote: int -> Byte)
    requires Inv(s, remote) && Enabled(s, act, remote)
    ensures var t := Apply(s, act, remote);
      t.filler == TransferOver(true) || t.sh.eof ==>
        && t.transferPos == s.transferPos
        && (act == TransferEnds(true) || s.filler == TransferOver(true) || s.sh.eof)
  {
    hide Ring.Contents, Ring.Take, Ring.Join, Ring.Store, Ring.Skip, ReaderOk, Window, StoringOk, Enter, Resume,
         SeekAllowed;
    StepFlags(s, act, remote);
  }

  lemma EndsAtStep(tr: seq<State>, acts: seq<Action>, i: nat, pos: int)
    requires i < |acts| && |tr| == |acts| + 1
    ensures EndsAt(tr, acts, i + 1, pos) <==>
              EndsAt(tr, acts, i, pos) || (acts[i] == TransferEnds(true) && tr[i].transferPos == pos)
  {
  }

  /** A client that sees the end has read up to the offset at which libcurl has reported the end of the
      resource. */
  lemma EndMeansEverything(tr: seq<State>, acts: seq<Action>, remote: int -> Byte, i: nat)
    requires IsRun(tr, acts, remote) && i < |acts| && SeeksMeetEmptyRing(tr, acts)
    requires acts[i] == ReportEnd
    ensures EndsAt(tr, acts, i, tr[i].sh.posRead)
  {
    hide EndsAt, SeeksMeetEmptyRing, Ring.Contents, Window, ReaderOk;
    RunMirrorsResource(tr, acts, remote, i);
    assert Next(tr[i], acts[i], tr[i + 1], remote);
    EndIsThere(tr, acts, remote, i);
    ReadOutcomes(tr[i].sh);
  }

  /** Where a seek is to go. */
  function Goal(s: Shared, offset: int, whence: Whence): int {
    if whence == SeekSet then offset else s.posRead + offset
  }

  /** While a seek is under way the position is the old one, and then the goal. */
  ghost predicate SeekUnderWay(s: Shared, offset: int, whence: Whence, t: State) {
    && t.reader == Seeking
    && (if t.sh.doSeek then t.sh.posRead == s.posRead && t.sh.offset == offset && t.sh.whence == whence
        else t.sh.posRead == Goal(s, offset, whence))
  }

  ghost predicate Served(s: Shared, t: Shared) {
    && t.offset == s.offset && t.whence == s.whence && (t.doSeek ==> s.doSeek)
    && t.posRead == if s.doSeek && !t.doSeek then Goal(s, s.offset, s.whence) else s.posRead
  }

  lemma SeekIsServed(s: Shared)
    requires s.Wf() && s.SeekGoesForward() && (s.doSeek ==> s.whence != SeekEnd)
    ensures Served(s, CallbackSeek(s)) && Served(s, s)
    ensures Canonical(s).Wf() && Canonical(s).SeekGoesForward() && Served(s, Canonical(s))
  {
    hide Ring.Contents, Ring.Skip;
  }

  lemma PassSeeks(s: Shared, want: nat)
    requires s.Wf() && s.SeekGoesForward() && (s.doSeek ==> s.whence != SeekEnd)
    ensures Served(s, Enter(s, want).0) && Served(s, Resume(s, want).0)
  {
    hide CallbackSeek;
    SeekIsServed(s);
    SeekIsServed(Canonical(s));
  }

  lemma SeekGoesOn(s: Shared, offset: int, whence: Whence, t: State, act: Action, remote: int -> Byte)
    requires Inv(t, remote) && Enabled(t, act, remote) && act != SeekReturns && whence != SeekEnd
    requires SeekUnderWay(s, offset, whence, t)
    ensures SeekUnderWay(s, offset, whence, Apply(t, act, remote))
  {
    hide Ring.Contents, Ring.Take, Ring.Join, Ring.Store, Ring.Skip, ReaderOk, Window, StoringOk, Enter, Resume;
    match act
    case Callback(bytes) => PassSeeks(t.sh, |bytes|);
    case Wake => PassSeeks(t.sh, |t.filler.bytes|);
    case _ =>
  }

  /** A seek lands: when `seek` returns, the position is the requested one, unless the end, a failure or the
      end of the handler came first. */
  lemma {:induction false} SeekLands(tr: seq<State>, acts: seq<Action>, remote: int -> Byte, i: nat, j: nat,
                                     offset: int, whence: Whence)
    requires IsRun(tr, acts, remote) && SeeksMeetEmptyRing(tr, acts)
    requires i < j <= |acts| && acts[i] == RequestSeek(offset, whence)
    requires forall k :: i < k < j ==> acts[k] != SeekReturns
    ensures SeekUnderWay(tr[i].sh, offset, whence, tr[j])
    ensures j < |acts| && acts[j] == SeekReturns ==>
      tr[j + 1].sh.posRead ==
        if tr[j].sh.doSeek then tr[i].sh.posRead else Goal(tr[i].sh, offset, whence)
    ensures j < |acts| && acts[j] == SeekReturns && tr[j].sh.doSeek ==>
      tr[j].sh.shutdown || tr[j].sh.eof || tr[j].sh.readError
  {
    hide Inv, SeeksMeetEmptyRing, Apply, SeekUnderWay;
    RunMirrorsResource(tr, acts, remote, j - 1);
    RunMirrorsResource(tr, acts, remote, j);
    assert Next(tr[j - 1], acts[j - 1], tr[j], remote);
    RequestIsForward(tr, acts, remote, i);
    if i == j - 1 {
      SeekStarts(tr[i], offset, whence, remote);
    } else {
      SeekLands(tr, acts, remote, i, j - 1, offset, whence);
      SeekGoesOn(tr[i].sh, offset, whence, tr[j - 1], acts[j - 1], remote);
    }
    if j < |acts| && acts[j] == SeekReturns {
      assert Next(tr[j], acts[j], tr[j + 1], remote);
      SeekIsOver(tr[i].sh, offset, whence, tr[j], remote);
    }
  }

  lemma RequestIsForward(tr: seq<State>, acts: seq<Action>, remote: int -> Byte, i: nat)
    requires IsRun(tr, acts, remote) && i < |acts| && acts[i].RequestSeek?
    ensures acts[i].whence != SeekEnd
  {
    assert Next(tr[i], acts[i], tr[i + 1], remote);
  }

  lemma SeekStarts(s: State, offset: int, whence: Whence, remote: int -> Byte)
    requires Inv(s, remote) && Enabled(s, RequestSeek(offset, whence), remote)
    ensures SeekUnderWay(s.sh, offset, whence, Apply(s, RequestSeek(offset, whence), remote))
  {
  }

  lemma SeekIsOver(s: Shared, offset: int, whence: Whence, t: State, remote: int -> Byte)
    requires Inv(t, remote) && Enabled(t, SeekReturns, remote) && SeekUnderWay(s, offset, whence, t)
    ensures Apply(t, SeekReturns, remote).sh.posRead ==
              if t.sh.doSeek then s.posRead else Goal(s, offset, whence)
    ensures t.sh.doSeek ==> t.sh.shutdown || t.sh.eof || t.sh.readError
  {
    hide Inv;
  }

  // ---- the reader, and who wakes the filler ----

  /** What the reader is doing, told from the client's last action. */
  datatype Doing = Nothing | Reads | Seeks

  function LastDoing(acts: seq<Action>, i: nat): Doing
    requires i <= |acts|
  {
    if i == 0 then Nothing
    else match acts[i - 1]
      case BeginRead(_) => Reads
      case FinishRead => Nothing
      case RequestSeek(_, _) => Seeks
      case SeekReturns => Nothing
      case _ => LastDoing(acts, i - 1)
  }

  predicate Does(reader: Reader, doing: Doing) {
    match doing
    case Nothing => reader == Idle
    case Reads => reader.Copying?
    case Seeks => reader == Seeking
  }

  lemma {:induction false} ReaderTellsHistory(tr: seq<State>, acts: seq<Action>, remote: int -> Byte, i: nat)
    requires IsRun(tr, acts, remote) && i <= |acts| && SeeksMeetEmptyRing(tr, acts)
    ensures Does(tr[i].reader, LastDoing(acts, i))
  {
    hide Inv, Apply, Enabled, SeeksMeetEmptyRing;
    if i > 0 {
      ReaderTellsHistory(tr, acts, remote, i - 1);
      RunMirrorsResource(tr, acts, remote, i - 1);
      assert Next(tr[i - 1], acts[i - 1], tr[i], remote);
      StepDoing(tr[i - 1], acts[i - 1], remote);
    }
  }

  lemma StepDoing(s: State, act: Action, remote: int -> Byte)
    requires Inv(s, remote) && Enabled(s, act, remote)
    ensures match act
      case BeginRead(length) =>
        Apply(s, act, remote).reader == Copying(s.sh.FirstPart(length), s.sh.ReadTotal(length), [])
      case CopyByte => s.reader.Copying? && Apply(s, act, remote).reader.Copying? &&
        |Apply(s, act, remote).reader.copied| == |s.reader.copied| + 1
      case FinishRead => Apply(s, act, remote).reader == Idle
      case RequestSeek(_, _) => Apply(s, act, remote).reader == Seeking
      case SeekReturns => Apply(s, act, remote).reader == Idle
      case _ => Apply(s, act, remote).reader == s.reader
  {
    hide Ring.Contents, Window, StoringOk, SeekInv;
  }

  /** Every read, every seek request and the end of the handler wake a sleeping callback, and nothing else. */
  lemma WhoWakes(s: State, act: Action, remote: int -> Byte)
    requires Inv(s, remote) && Enabled(s, act, remote) && s.filler.Asleep? && act != Wake
    ensures Apply(s, act, remote).filler ==
      if act == Shutdown || act.RequestSeek? || act == FinishRead then Asleep(true, s.filler.bytes) else s.filler
  {
    hide Ring.Contents, Window, StoringOk, SeekInv;
    if act == FinishRead {
      SignalsExactly(s.sh, s.reader.total);
    }
  }

  /** An unsignalled callback sleeps only without room for its bytes. */
  ghost predicate RoomInv(s: State)
    requires s.sh.Wf()
  {
    s.filler.Asleep? && !s.filler.signalled ==> s.sh.Size() - s.sh.ring.Fill() < |s.filler.bytes|
  }

  /** A woken callback finds no room, and then serves a seek that makes the room; it does not look again. */
  predicate SeekMakesRoom(s: State, act: Action)
    requires s.sh.ring.Wf()
  {
    && act == Wake && s.filler.Asleep? && !s.sh.shutdown
    && BufFree(s.sh.ring) < |s.filler.bytes| && s.sh.SeekIsBuffered()
    && |s.filler.bytes| <= BufFree(s.sh.ring) + s.sh.RelSeek()
  }

  lemma ResumeRoom(s: Shared, want: nat)
    requires s.Wf() && s.SeekGoesForward() && (s.SeekIsBuffered() ==> s.RelSeek() >= 1)
    ensures Resume(s, want).0.ring.Wf() && Resume(s, want).0.Size() == s.Size()
    ensures Resume(s, want).1 == Sleep && want <= s.Size() - Resume(s, want).0.ring.Fill() <==>
      && !s.shutdown && BufFree(s.ring) < want && s.SeekIsBuffered() && want <= BufFree(s.ring) + s.RelSeek()
  {
    hide Ring.Contents, Ring.Skip;
    if s.SeekIsBuffered() {
      SkipDropsFront(s.ring, s.RelSeek());
      assert |s.ring.Skip(s.RelSeek()).Contents()| == s.ring.Fill() - s.RelSeek();
    }
  }

  lemma EnterRoom(s: Shared, want: nat)
    requires s.Wf() && s.SeekGoesForward()
    ensures Enter(s, want).0.ring.Wf() && Enter(s, want).0.Size() == s.Size()
    ensures Enter(s, want).1 == Sleep ==> s.Size() - Enter(s, want).0.ring.Fill() < want
  {
    hide Ring.Contents, Ring.Skip;
  }

  /** A callback sleeps, unsignalled, beside room for its bytes after exactly one kind of step. */
  lemma RoomNext(s: State, act: Action, remote: int -> Byte)
    requires Inv(s, remote) && RoomInv(s) && Enabled(s, act, remote) && !SeekFindsBytes(s, act)
    ensures Apply(s, act, remote).sh.Wf()
    ensures RoomInv(Apply(s, act, remote)) <==> !SeekMakesRoom(s, act)
  {
    hide Ring.Contents, Window, StoringOk, Enter, Resume, Mirrors;
    InvNext(s, act, remote);
    match act
    case Callback(bytes) => EnterRoom(s.sh, |bytes|);
    case Wake => ResumeRoom(s.sh, |s.filler.bytes|);
    case FinishRead => WhoWakesFinish(s, remote);
    case _ =>
  }

  lemma WhoWakesFinish(s: State, remote: int -> Byte)
    requires Inv(s, remote) && Enabled(s, FinishRead, remote)
    ensures s.filler.Asleep? ==> Apply(s, FinishRead, remote).filler == Asleep(true, s.filler.bytes)
    ensures !s.filler.Asleep? ==> !Apply(s, FinishRead, remote).filler.Asleep?
  {
    hide Ring.Contents, Window, StoringOk, SeekInv;
  }

  /** Over whole runs: a callback never sleeps through room for its bytes, unless a seek has made it. */
  lemma {:induction false} NeverSleepsBesideRoom(tr: seq<State>, acts: seq<Action>, remote: int -> Byte, i: nat)
    requires IsRun(tr, acts, remote) && i < |tr| && SeeksMeetEmptyRing(tr, acts)
    requires forall j :: 0 <= j < |acts| && tr[j].sh.Wf() ==> !SeekMakesRoom(tr[j], acts[j])
    ensures Inv(tr[i], remote) && RoomInv(tr[i])
  {
    hide Inv, RoomInv, Apply, Enabled, SeekMakesRoom, SeekFindsBytes;
    RunMirrorsResource(tr, acts, remote, i);
    if i == 0 {
      AwakeAtStart(tr[0]);
    } else {
      NeverSleepsBesideRoom(tr, acts, remote, i - 1);
      assert Next(tr[i - 1], acts[i - 1], tr[i], remote);
      assert !SeekFindsBytes(tr[i - 1], acts[i - 1]);
      InvIsWf(tr[i - 1], remote);
      RoomNext(tr[i - 1], acts[i - 1], remote);
    }
  }

  lemma AwakeAtStart(s: State)
    requires Init(s)
    ensures s.sh.Wf() && RoomInv(s)
  {
  }

  lemma InvIsWf(s: State, remote: int -> Byte)
    requires Inv(s, remote)
    ensures s.sh.Wf()
  {
  }

  // ---- reachable states ----

  ghost predicate Reachable(s: State, remote: int -> Byte) {
    exists tr, acts :: IsRun(tr, acts, remote) && tr[|acts|] == s
  }

  lemma ReachableInit(s: State, remote: int -> Byte)
    requires Init(s)
    ensures Reachable(s, remote)
  {
    assert IsRun([s], [], remote);
  }

  lemma ReachableNext(s: State, act: Action, remote: int -> Byte)
    requires Reachable(s, remote) && Inv(s, remote) && Enabled(s, act, remote)
    ensures Reachable(Apply(s, act, remote), remote)
    ensures !SeekFindsBytes(s, act) ==> Inv(Apply(s, act, remote), remote)
  {
    hide Inv, Apply, Enabled, Init;
    var tr, acts :| IsRun(tr, acts, remote) && tr[|acts|] == s;
    var t := Apply(s, act, remote);
    assert IsRun(tr + [t], acts + [act], remote) by {
      forall i | 0 <= i < |acts + [act]|
        ensures Next((tr + [t])[i], (acts + [act])[i], (tr + [t])[i + 1], remote)
      {
        assert i < |acts| ==> Next(tr[i], acts[i], tr[i + 1], remote);
      }
    }
    InvNext(s, act, remote);
  }

  /** The first `n` cells hold the first bytes of the resource. */
  function Prefix(data: seq<Byte>, n: nat, remote: int -> Byte): (r: seq<Byte>)
    requires n <= |data|
    ensures |r| == |data|
  {
    seq(|data|, i requires 0 <= i < |data| => if i < n then remote(i) else data[i])
  }

  /** A transfer that has put the first `n` bytes of the resource into the ring. */
  function Loaded(data: seq<Byte>, initialFill: nat, n: nat, remote: int -> Byte): State
    requires n <= |data|
  {
    State(Shared(Ring(Prefix(data, n, remote), 0, if n == |data| then 0 else n, n == 0), 0, n < initialFill,
                 initialFill, false, 0, SeekSet, false, false, false, false),
          Transferring, Idle, n)
  }

  lemma LoadCallback(data: seq<Byte>, initialFill: nat, n: nat, remote: int -> Byte)
    requires n < |data| && initialFill <= |data|
    ensures var s := Loaded(data, initialFill, n, remote);
      && s.sh.ring.Wf() && Enter(s.sh, 1) == (s.sh, Proceed)
      && StartStoring(s.sh.ring, [remote(n)]) == Storing([remote(n)], n, |data| - n, 1, 0)
  {
  }

  lemma LoadStore(data: seq<Byte>, n: nat, remote: int -> Byte)
    requires n < |data|
    ensures Prefix(data, n, remote)[n := remote(n)] == Prefix(data, n + 1, remote)
  {
  }

  /** One callback with one byte. */
  lemma LoadOne(data: seq<Byte>, initialFill: nat, n: nat, remote: int -> Byte)
    requires n < |data| && initialFill <= |data|
    requires Reachable(Loaded(data, initialFill, n, remote), remote)
    requires Inv(Loaded(data, initialFill, n, remote), remote)
    ensures Reachable(Loaded(data, initialFill, n + 1, remote), remote)
    ensures Inv(Loaded(data, initialFill, n + 1, remote), remote)
  {
    hide Reachable, Inv, Prefix, Enter, StartStoring;
    var bytes := [remote(n)];
    var s0 := Loaded(data, initialFill, n, remote);
    LoadCallback(data, initialFill, n, remote);
    LoadStore(data, n, remote);
    ReachableNext(s0, Callback(bytes), remote);
    var s1 := s0.(filler := Storing(bytes, n, |data| - n, 1, 0));
    ReachableNext(s1, StoreByte, remote);
    var s2 := s0.(sh := s0.sh.(ring := s0.sh.ring.(data := Prefix(data, n + 1, remote))),
                  filler := Storing(bytes, n, |data| - n, 1, 1));
    assert s2 == Apply(s1, StoreByte, remote);
    ReachableNext(s2, Commit, remote);
  }

  lemma {:induction false} LoadedIsReachable(data: seq<Byte>, initialFill: nat, n: nat, remote: int -> Byte)
    requires n <= |data| && 0 < |data| && initialFill <= |data|
    ensures Reachable(Loaded(data, initialFill, n, remote), remote)
    ensures Inv(Loaded(data, initialFill, n, remote), remote)
  {
    hide Reachable, Inv;
    if n == 0 {
      var s := Loaded(data, initialFill, 0, remote).(filler := AtLoopHead);
      ReachableInit(s, remote);
      InvInit(s, remote);
      ReachableNext(s, LoopHead, remote);
    } else {
      LoadedIsReachable(data, initialFill, n - 1, remote);
      LoadOne(data, initialFill, n - 1, remote);
    }
  }

  // ---- a seek that comes too late ----

  /** For every buffer, every number of buffered bytes and every seek target: a seek is requested after
      the last callback of a transfer, the transfer ends, and threadProc's own seek block runs.  The
      position and the new transfer are at the target, and the bytes from the start of the resource are
      still in the ring. */
  lemma LateSeekMisaligns(data: seq<Byte>, initialFill: nat, n: nat, target: int, ok: bool, remote: int -> Byte)
    returns (s: State)
    requires 0 < n <= |data| && initialFill <= |data| && target > 0
    ensures Reachable(s, remote) && Inv(s, remote) && s.filler == AtLoopHead && SeekFindsBytes(s, LoopHead)
    ensures var t := Apply(s, LoopHead, remote);
      && Reachable(t, remote) && !Inv(t, remote) && t.sh.ring.Wf()
      && t.sh.posRead == target == t.transferPos
      && t.sh.ring.Contents() == Prefix(data, n, remote)[..n]
  {
    hide Reachable, Inv, Prefix;
    LoadedIsReachable(data, initialFill, n, remote);
    var s0 := Loaded(data, initialFill, n, remote);
    ReachableNext(s0, RequestSeek(target, SeekSet), remote);
    var s1 := s0.(sh := s0.sh.RequestSeek(target, SeekSet), reader := Seeking);
    ReachableNext(s1, TransferEnds(ok), remote);
    var s2 := s1.(filler := TransferOver(ok));
    ReachableNext(s2, LoopTest, remote);
    s := s2.(filler := AtLoopHead);
    ReachableNext(s, LoopHead, remote);
    LoopHeadKeepsInv(s, remote);
  }

  /** The gate is up only while less than the initial fill is buffered, and no filler sleeps behind
      it. */
  ghost predicate GateInv(s: State)
    requires s.sh.Wf()
  {
    && GateBelowFill(s.sh)
    && (s.filler.Asleep? ==> !s.sh.gate)
  }

  /** An unsignalled filler sleeps only while there is something to read. */
  ghost predicate WakeInv(s: State) {
    s.filler.Asleep? && !s.filler.signalled ==> !s.sh.ring.empty
  }

  ghost predicate SmallCallback(s: State, act: Action) {
    act.Callback? ==> s.sh.initialFill + |act.bytes| <= s.sh.Size() + 1
  }

  /** A sleeping callback is woken by a seek that skips exactly everything in the ring, while the
      ring had no room for it: it frees the ring and goes back to sleep. */
  predicate SeekEmptiesWhileWaiting(s: State, act: Action)
    requires s.sh.ring.Wf()
  {
    && act == Wake && s.filler.Asleep? && !s.sh.shutdown
    && BufFree(s.sh.ring) < |s.filler.bytes|
    && s.sh.SeekIsBuffered() && s.sh.RelSeek() == s.sh.ring.Fill()
  }

  ghost predicate GateBelowFill(s: Shared)
    requires s.ring.Wf()
  {
    s.gate && !s.ring.empty ==> s.ring.Fill() < s.initialFill
  }

  lemma CallbackSeekShrinks(s: Shared)
    requires s.Wf()
    requires s.doSeek ==> SeekAllowed(s, s.offset, s.whence)
    ensures var t := CallbackSeek(s);
      t.gate == s.gate && t.ring.Fill() <= s.ring.Fill() && (!t.ring.empty ==> !s.ring.empty)
  {
    if s.SeekIsBuffered() {
      SkipDropsFront(s.ring, s.RelSeek());
      assert |CallbackSeek(s).ring.Contents()| < |s.ring.Contents()|;
    }
  }

  lemma GateEnter(s: Shared, want: nat)
    requires s.Wf() && want <= s.Size() && GateBelowFill(s)
    requires s.doSeek ==> SeekAllowed(s, s.offset, s.whence)
    requires s.initialFill + want <= s.Size() + 1
    ensures var (t, pass) := Enter(s, want);
      t.ring.Wf() && GateBelowFill(t) && (pass == Sleep ==> !t.gate)
  {
    CallbackSeekShrinks(s);
  }

  lemma GateResume(s: Shared, want: nat)
    requires s.Wf() && !s.gate
    requires s.doSeek ==> SeekAllowed(s, s.offset, s.whence)
    ensures Resume(s, want).0.ring.Wf() && !Resume(s, want).0.gate
  {
    CallbackSeekShrinks(Canonical(s));
  }

  lemma GateNext(s: State, act: Action, remote: int -> Byte)
    requires Inv(s, remote) && GateInv(s) && Enabled(s, act, remote)
    requires !SeekFindsBytes(s, act) && SmallCallback(s, act)
    ensures Apply(s, act, remote).sh.Wf() && GateInv(Apply(s, act, remote))
  {
    hide Ring.Contents, Window, StoringOk, ReaderOk, Mirrors, SeekAllowed, Enter, Resume;
    InvNext(s, act, remote);
    match act
    case Callback(bytes) => GateEnter(s.sh, |bytes|);
    case Wake => GateResume(s.sh, |s.filler.bytes|);
    case StoreByte => StoreKeepsInv(s, remote);
    case Commit => JoinAppends(s.sh.ring, |s.filler.bytes|);
    case FinishRead => FinishReadShrinks(s, remote);
    case _ =>
  }

  lemma FinishReadShrinks(s: State, remote: int -> Byte)
    requires Inv(s, remote) && Enabled(s, FinishRead, remote)
    ensures var t := Apply(s, FinishRead, remote);
      t.sh.ring.Wf() && t.sh.ring.Fill() <= s.sh.ring.Fill()
  {
    hide Ring.Contents, Window;
    EndReadMirrors(s.sh, s.reader.total, remote);
  }

  /** The curl filler never sleeps with the gate up when the initial fill and the callback fit
      together into the ring, give or take one byte. */
  lemma {:induction false} NeverSleepsBehindGate(tr: seq<State>, acts: seq<Action>,
                                                 remote: int -> Byte, i: nat)
    requires IsRun(tr, acts, remote) && i < |tr| && SeeksMeetEmptyRing(tr, acts)
    requires forall j :: 0 <= j < |acts| ==> SmallCallback(tr[j], acts[j])
    ensures Inv(tr[i], remote) && GateInv(tr[i])
  {
    RunMirrorsResource(tr, acts, remote, i);
    if i > 0 {
      NeverSleepsBehindGate(tr, acts, remote, i - 1);
      assert Next(tr[i - 1], acts[i - 1], tr[i], remote);
      GateNext(tr[i - 1], acts[i - 1], remote);
    }
  }

  /** The bound is exact: for all other sizes there is a run in which a callback goes to sleep behind the
      gate. */
  lemma LargeCallbackSleepsBehindGate(data: seq<Byte>, initialFill: nat, want: nat, remote: int -> Byte)
    returns (s: State, bytes: seq<Byte>)
    requires 1 <= want <= |data| && initialFill <= |data| && initialFill + want > |data| + 1
    ensures Reachable(s, remote) && Inv(s, remote) && s.sh.Size() == |data| && s.sh.initialFill == initialFill
    ensures |bytes| == want && Enabled(s, Callback(bytes), remote)
    ensures var t := Apply(s, Callback(bytes), remote);
      && Reachable(t, remote)
      && t.filler == Asleep(false, bytes) && t.sh.gate && t.reader == Idle && !t.sh.CanRead()
  {
    hide Reachable, Inv, Prefix;
    var fill := initialFill - 1;
    bytes := seq(want, i requires 0 <= i < want => remote(fill + i));
    LoadedIsReachable(data, initialFill, fill, remote);
    s := Loaded(data, initialFill, fill, remote);
    assert Window(bytes, s.transferPos, remote);
    ReachableNext(s, Callback(bytes), remote);
  }

  lemma SkippedIsEmpty(s: Shared)
    requires s.Wf() && s.SeekIsBuffered() && s.RelSeek() >= 1
    ensures CallbackSeek(s).ring.empty <==> s.RelSeek() == s.ring.Fill()
  {
    SkipDropsFront(s.ring, s.RelSeek());
  }

  lemma EnterWake(s: Shared, want: nat)
    requires s.Wf() && want <= s.Size()
    requires s.doSeek ==> SeekAllowed(s, s.offset, s.whence)
    ensures Enter(s, want).1 == Sleep ==> !Enter(s, want).0.ring.empty
  {
    hide Ring.Contents;
  }

  lemma ResumeWake(s: Shared, want: nat)
    requires s.Wf() && want <= s.Size()
    requires s.doSeek ==> SeekAllowed(s, s.offset, s.whence)
    ensures Resume(s, want).1 == Sleep && Resume(s, want).0.ring.empty <==>
      && !s.shutdown && BufFree(s.ring) < want
      && s.SeekIsBuffered() && s.RelSeek() == s.ring.Fill()
  {
    hide Ring.Contents, Ring.Skip;
    if s.SeekIsBuffered() {
      SkippedIsEmpty(s);
    }
  }

  /** A filler is put to sleep over an empty ring in exactly one situation. */
  lemma WakeNext(s: State, act: Action, remote: int -> Byte)
    requires Inv(s, remote) && WakeInv(s) && Enabled(s, act, remote) && !SeekFindsBytes(s, act)
    ensures WakeInv(Apply(s, act, remote)) <==> !SeekEmptiesWhileWaiting(s, act)
  {
    match act
    case Callback(bytes) => EnterWake(s.sh, |bytes|);
    case Wake => ResumeWake(s.sh, |s.filler.bytes|);
    case _ =>
  }

  /** For every buffer and every size of callback: a callback waits for room in a full ring, the reader
      seeks over all of it, and the callback frees the ring and goes back to sleep, with no signal to
      come. */
  lemma SeekLosesWakeUp(data: seq<Byte>, initialFill: nat, want: nat, remote: int -> Byte) returns (s: State)
    requires 1 <= want <= |data| && initialFill <= |data|
    ensures Reachable(s, remote) && Inv(s, remote) && WakeInv(s) && SeekEmptiesWhileWaiting(s, Wake)
    ensures Enabled(s, Wake, remote) && !SeekFindsBytes(s, Wake)
    ensures var t := Apply(s, Wake, remote);
      && Reachable(t, remote)
      && t.filler.Asleep? && !t.filler.signalled && t.sh.ring.empty && !t.sh.doSeek
  {
    hide Reachable, Inv, Prefix, Ring.Contents;
    var n := |data|;
    var bytes := seq(want, i requires 0 <= i < want => remote(n + i));
    LoadedIsReachable(data, initialFill, n, remote);
    var s0 := Loaded(data, initialFill, n, remote);
    assert Window(bytes, s0.transferPos, remote);
    ReachableNext(s0, Callback(bytes), remote);
    var s1 := s0.(filler := Asleep(false, bytes));
    assert s1 == Apply(s0, Callback(bytes), remote);
    ReachableNext(s1, RequestSeek(n, SeekCur), remote);
    s := s1.(sh := s1.sh.RequestSeek(n, SeekCur), filler := Asleep(true, bytes), reader := Seeking);
    ReachableNext(s, Wake, remote);
  }

  /** The two threads never wait for each other: in runs of small callbacks in which no seek empties
      the ring under a waiting callback, an unsignalled sleeping filler leaves the reader bytes and
      an open gate. */
  lemma {:induction false} FillerNeverStalls(tr: seq<State>, acts: seq<Action>,
                                             remote: int -> Byte, i: nat)
    requires IsRun(tr, acts, remote) && i < |tr| && SeeksMeetEmptyRing(tr, acts)
    requires forall j :: 0 <= j < |acts| ==> SmallCallback(tr[j], acts[j])
    requires forall j :: 0 <= j < |acts| && tr[j].sh.Wf() ==> !SeekEmptiesWhileWaiting(tr[j], acts[j])
    ensures Inv(tr[i], remote) && WakeInv(tr[i])
    ensures tr[i].filler.Asleep? && !tr[i].filler.signalled && !tr[i].sh.shutdown ==>
      tr[i].sh.CanRead()
  {
    NeverSleepsBehindGate(tr, acts, remote, i);
    if i > 0 {
      FillerNeverStalls(tr, acts, remote, i - 1);
      assert Next(tr[i - 1], acts[i - 1], tr[i], remote);
      WakeNext(tr[i - 1], acts[i - 1], remote);
    }
  }

  class CurlIOHandler {
    const helper: IOHandlerBufferHelper

    constructor (helper: IOHandlerBufferHelper)
      ensures this.helper == helper
    {
      this.helper := helper;
    }

    /** The checks of both constructors. */
    static method Create(url: string, size: nat, fill: nat) returns (handler: Result<CurlIOHandler, string>)
      ensures handler.Ok? <==> url != "" && CURL_MAX_WRITE_SIZE <= size && fill <= size
      ensures handler.Ok? ==>
        && fresh(handler.value) && fresh(handler.value.helper) && fresh(handler.value.helper.buffer)
        && handler.value.helper.buffer.Length == size && handler.value.helper.initialFillSize == fill
        && Init(State(handler.value.helper.View(), AtLoopHead, Idle, 0))
    {
      if size == 0 {
        return Err("bufSize must be positive");
      }
      if fill > size {
        return Err("initialFillSize must be lesser than or equal to the size of the buffer");
      }
      var helper := new IOHandlerBufferHelper(size, fill, true);
      if url == "" {
        return Err("URL has not been set correctly");
      }
      if size < CURL_MAX_WRITE_SIZE {
        return Err("bufSize must be at least CURL_MAX_WRITE_SIZE");
      }
      var h := new CurlIOHandler(helper);
      return Ok(h);
    }

    /** The seek block at the head of the wait loop. */
    method SeekLocked()
      requires helper.View().Wf() && helper.View().SeekGoesForward()
      modifies helper
      ensures helper.View() == CallbackSeek(old(helper.View()))
    {
      helper.TrySeekInBuffer();
      if helper.doSeek {
        helper.a, helper.b := 0, 0;
        helper.empty := true;
      }
    }

    /** The room test at the end of a pass. */
    method RoomFor(want: nat) returns (room: bool)
      requires helper.View().Wf()
      modifies helper
      ensures helper.View() == Canonical(old(helper.View()))
      ensures room <==> BufFree(helper.View().ring) >= want
    {
      var bufFree: int;
      if helper.empty {
        helper.a, helper.b := 0, 0;
        bufFree := helper.buffer.Length;
      } else {
        bufFree := helper.a - helper.b;
        if bufFree < 0 {
          bufFree := bufFree + helper.buffer.Length;
        }
      }
      room := bufFree >= want;
    }

    /** The first pass of the wait loop, up to a sleep, a return or the copy. */
    method EnterLocked(want: nat) returns (pass: Pass)
      requires helper.View().Wf() && helper.View().SeekGoesForward()
      modifies helper
      ensures (helper.View(), pass) == Enter(old(helper.View()), want)
    {
      SeekLocked();
      if helper.doSeek {
        return Abort;
      }
      if helper.threadShutdown {
        return Abort;
      }
      var room := RoomFor(want);
      return if room then Proceed else Sleep;
    }

    /** A later pass, from the wake-up on. */
    method ResumeLocked(want: nat) returns (pass: Pass)
      requires helper.View().Wf() && helper.View().SeekGoesForward()
      modifies helper
      ensures (helper.View(), pass) == Resume(old(helper.View()), want)
    {
      if helper.threadShutdown {
        return Abort;
      }
      var room := RoomFor(want);
      if room {
        return Proceed;
      }
      SeekLocked();
      return if helper.doSeek then Abort else Sleep;
    }

    /** The two unlocked memcpy calls: the bytes end up behind `b`, and no unread byte changes. */
    method StoreBytes(bytes: seq<Byte>)
      requires helper.View().Wf() && helper.View().ring == helper.View().ring.Canonical()
      requires 1 <= |bytes| <= helper.buffer.Length - helper.View().ring.Fill()
      modifies helper.buffer
      ensures helper.View().Wf() && helper.View().ring.AfterB(|bytes|) == bytes
      ensures helper.View().ring.Contents() == old(helper.View().ring.Contents())
    {
      hide Ring.Contents, Ring.AfterB, StoringOk;
      ghost var start := StartStoring(helper.View().ring, bytes);
      StoringStarts(helper.View().ring, bytes);
      var maxWrite := if helper.empty then helper.buffer.Length
                      else if helper.a < helper.b then helper.buffer.Length - helper.b
                      else helper.a - helper.b;
      var write1 := if |bytes| > maxWrite then maxWrite else |bytes|;
      var bLocal := helper.b;
      var k := 0;
      while k < |bytes|
        invariant 0 <= k <= |bytes| && helper.View().Wf()
        invariant StoringOk(helper.View().ring, start.(done := k))
        invariant helper.View().ring.Contents() == old(helper.View().ring.Contents())
      {
        StoreOne(start.(done := k), if k < write1 then bLocal + k else k - write1,
                 if k < write1 then bytes[k] else bytes[maxWrite + (k - write1)]);
        k := k + 1;
      }
      StoredAll(helper.View().ring, start.(done := k));
    }

    /** One byte of the two memcpy calls. */
    method StoreOne(ghost f: Filler, p: nat, v: Byte)
      requires f.Storing? && helper.View().Wf() && StoringOk(helper.View().ring, f)
      requires f.done < |f.bytes| && p == Target(f, f.done)
      requires Source(f, f.done) < |f.bytes| && v == f.bytes[Source(f, f.done)]
      modifies helper.buffer
      ensures helper.View().Wf() && StoringOk(helper.View().ring, f.(done := f.done + 1))
      ensures helper.View().ring.Contents() == old(helper.View().ring.Contents())
    {
      ghost var ring := helper.View().ring;
      StoringIndices(ring, f, f.done);
      StoreKeepsContents(ring, f.done, v);
      helper.buffer[p] := v;
      assert helper.View().ring == ring.Store(p, v);
    }

    /** The locked end of a callback. */
    method CommitLocked(wantWrite: nat)
      requires helper.View().Wf()
      requires 1 <= wantWrite <= helper.buffer.Length - helper.View().ring.Fill()
      modifies helper
      ensures helper.View() == old(helper.View()).JoinBytes(wantWrite)
    {
      hide Ring.Contents, Ring.AfterB;
      JoinAppends(helper.View().ring, wantWrite);
      helper.b := helper.b + wantWrite;
      if helper.b >= helper.buffer.Length {
        helper.b := helper.b - helper.buffer.Length;
      }
      if helper.empty {
        helper.empty := false;
      }
      helper.OpenGate();
    }

    /** threadProc's own seek block; the result is the resume offset, if a new one is set.  A seek from the
        end is only logged. */
    method LoopHeadLocked() returns (resumeFrom: Option<int>)
      modifies helper
      ensures helper.View() == ThreadSeek(old(helper.View()))
      ensures resumeFrom == if old(helper.doSeek && helper.seekWhence != SeekEnd) then Some(helper.posRead) else None
    {
      resumeFrom := None;
      if helper.doSeek {
        if helper.seekWhence == SeekSet {
          helper.posRead := helper.seekOffset;
          resumeFrom := Some(helper.seekOffset);
        } else if helper.seekWhence == SeekCur {
          helper.posRead := helper.posRead + helper.seekOffset;
          resumeFrom := Some(helper.posRead);
        }
        helper.waitForInitialFillSize := helper.initialFillSize > 0;
        helper.doSeek := false;
      }
    }
  }
}
