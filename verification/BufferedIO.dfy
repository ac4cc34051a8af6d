/** The chunked streaming handler (BufferedIOHandler::threadProc).

    The filler thread's critical sections are functions on the shared state.  The protocol below
    interleaves them, at the granularity of one byte, with the unlocked read into the array and
    with the reader thread. */
module BufferedIO {
  import opened Arrays
  import opened Wrappers
  import opened RingBuffer
  import opened BufferHelper

  const CHECK_SOCKET := -666

  datatype Filler =
    | AtTop                       // about to run the locked part of the loop
    | Asleep(signalled: bool)     // in cond.wait
    // unlocked, inside underlyingHandler->read(buffer + at, chunk), which has stored `got` so far
    | Reading(chunk: nat, at: nat, got: seq<Byte>)
    | Stopped

  /** How many bytes may be fetched in one piece. */
  function MaxWrite(r: Ring): (n: nat)
    requires r.Wf() && r == r.Canonical()
    ensures n <= |r.data| - r.Fill() && (n > 0 ==> r.b + n <= |r.data|)
    ensures n == 0 <==> r.Full()
  {
    if r.empty then |r.data| else if r.a < r.b then |r.data| - r.b else r.a - r.b
  }

  /** The locked part of the loop, up to the choice between sleeping and reading. */
  function SeekPart(s: Shared, sourceSeeks: bool): (t: Shared)
    requires s.Wf() && s.SeekGoesForward()
    ensures t.ring.Wf() && t.initialFill == s.initialFill && |t.ring.data| == |s.ring.data|
    ensures t.ring == t.ring.Canonical()
  {
    var s1 := s.(ring := s.ring.Canonical());
    if s1.SeekIsBuffered() then
      SkipDropsFront(s1.ring, s1.RelSeek());
      s1.SeekInBuffer()
    else if s1.doSeek then
      s1.(ring := if sourceSeeks then s1.ring.Cleared() else s1.ring,
          gate := s1.initialFill > 0,
          doSeek := false)
    else
      s1
  }

  function ChooseFill(r: Ring, maxChunk: nat): Filler
    requires r.Wf() && r == r.Canonical()
  {
    var maxWrite := MaxWrite(r);
    if maxWrite == 0 then Asleep(false)
    else Reading(if maxChunk > maxWrite then maxWrite else maxChunk, r.b, [])
  }

  /** The locked part after `underlyingHandler->read` returned `readBytes`. */
  function CommitPart(s: Shared, readBytes: int): Shared
    requires s.ring.Wf() && readBytes <= |s.ring.data| - s.ring.Fill()
  {
    var t := if readBytes > 0 then s.JoinBytes(readBytes)
             else if readBytes == CHECK_SOCKET then s.(checkSocket := true) else s;
    if readBytes > 0 || readBytes == CHECK_SOCKET || t.shutdown then t
    else if readBytes == 0 then t.(eof := true)
    else t.(readError := true)
  }

  function AfterCommit(s: Shared, readBytes: int): Filler {
    if (readBytes > 0 || readBytes == CHECK_SOCKET) && !s.shutdown then AtTop else Stopped
  }

  /** The handler: its shared state, both threads, and, as a record of the run, the bytes that the
      source's reads have returned since it was last repositioned and those that have left at the front. */
  datatype State = State(sh: Shared, maxChunk: nat, filler: Filler, reader: Reader,
                         fetched: seq<Byte>, passed: seq<Byte>)

  datatype Action =
    | Top(sourceSeeks: bool)
    | Wake
    | WriteByte(v: Byte)        // the source's read stores its next byte
    | Commit(readBytes: int)
    | BeginRead(length: nat)
    | CopyByte
    | FinishRead
    | ReportSocket
    | ReportEnd
    | RequestSeek(offset: int, whence: Whence)
    | SeekReturns
    | Shutdown

  ghost predicate Init(s: State) {
    && s.sh.Wf()
    && s.sh.ring == s.sh.ring.Cleared()
    && s.sh.posRead == 0
    && s.sh.gate == (s.sh.initialFill > 0)
    && !s.sh.doSeek && !s.sh.eof && !s.sh.readError && !s.sh.shutdown && !s.sh.checkSocket
    && s.maxChunk > 0
    && s.filler == AtTop && s.reader == Idle
    && s.fetched == [] && s.passed == []
  }

  ghost predicate Inv(s: State) {
    && s.sh.Wf() && s.maxChunk > 0
    && QueueInv(s)
    && FillerInv(s.sh.ring, s.filler)
    && ReaderOk(s.sh.ring, s.reader)
    && SeekInv(s.sh, s.filler, s.reader)
  }

  /** What has been fetched is what has left at the front followed by what is in the ring. */
  ghost predicate QueueInv(s: State)
    requires s.sh.Wf()
  {
    s.passed + s.sh.ring.Contents() == s.fetched
  }

  /** The unlocked read has a contiguous piece of free cells to itself, which still starts at `b`, and
      the bytes of the source are in it. */
  ghost predicate FillerInv(r: Ring, f: Filler)
    requires r.Wf()
  {
    f.Reading? ==>
      && 1 <= f.chunk <= |r.data| - r.Fill() && r.b + f.chunk <= |r.data|
      && f.at == r.b && |f.got| <= f.chunk
      && r.data[f.at..f.at + |f.got|] == f.got
  }

  ghost predicate SeekInv(sh: Shared, filler: Filler, reader: Reader) {
    && (sh.doSeek ==> reader == Seeking || filler == Stopped)
    && (sh.doSeek && reader == Seeking ==> SeekAllowed(sh, sh.offset, sh.whence))
    && (sh.eof || sh.readError ==> filler == Stopped)
    && (filler == Stopped ==> sh.eof || sh.readError || sh.shutdown)
    && (reader != Idle ==> !sh.shutdown)
  }

  /** The seeks in scope: relative ones over a non-zero distance, absolute ones that go forward. */
  predicate SeekAllowed(s: Shared, offset: int, whence: Whence) {
    if whence == SeekSet then offset > s.posRead else whence == SeekCur ==> offset != 0
  }

  ghost predicate Enabled(s: State, act: Action) {
    match act
    case Top(_) => s.filler == AtTop
    case Wake => s.filler.Asleep?
    case WriteByte(_) => s.filler.Reading? && |s.filler.got| < s.filler.chunk
    case Commit(n) => s.filler.Reading? && n <= |s.filler.got|
    case BeginRead(length) => s.reader == Idle && s.sh.CanRead() && length > 0
    case CopyByte => s.reader.Copying? && |s.reader.copied| < s.reader.total
    case FinishRead => s.reader.Copying? && |s.reader.copied| == s.reader.total
    case ReportSocket => s.reader == Idle && s.sh.checkSocket && !s.sh.CanRead()
    case ReportEnd => s.reader == Idle && s.sh.SeesEnd()
    case RequestSeek(offset, whence) =>
      s.reader == Idle && !s.sh.shutdown && SeekAllowed(s.sh, offset, whence)
    case SeekReturns => s.reader == Seeking &&
      (!s.sh.doSeek || s.sh.shutdown || s.sh.eof || s.sh.readError)
    case Shutdown => s.reader == Idle
  }

  function Signal(f: Filler, signals: bool): Filler {
    if f.Asleep? && signals then Asleep(true) else f
  }

  function TopStep(s: State, sourceSeeks: bool): State
    requires s.sh.Wf() && s.sh.SeekGoesForward()
  {
    var t := SeekPart(s.sh, sourceSeeks);
    var s1 := s.(sh := t, filler := ChooseFill(t.ring, s.maxChunk));
    if s.sh.SeekIsBuffered() then
      s1.(passed := s.passed + s.sh.ring.Contents()[..s.sh.RelSeek()])
    else if s.sh.doSeek && sourceSeeks then
      s1.(passed := [], fetched := [])
    else
      s1
  }

  function Apply(s: State, act: Action): State
    requires Inv(s) && Enabled(s, act)
  {
    match act
    case Top(sourceSeeks) => TopStep(s, sourceSeeks)
    case Wake => s.(filler := if s.sh.shutdown then Stopped else AtTop)
    case WriteByte(v) => s.(
      sh := s.sh.(ring := s.sh.ring.Store(s.filler.at + |s.filler.got|, v)),
      filler := s.filler.(got := s.filler.got + [v]))
    case Commit(n) => s.(
      sh := CommitPart(s.sh, n),
      filler := AfterCommit(s.sh, n),
      fetched := if n > 0 then s.fetched + s.filler.got[..n] else s.fetched)
    case BeginRead(length) => s.(reader := StartReading(s.sh, length))
    case CopyByte => s.(reader := CopyNext(s.sh.ring, s.reader))
    case FinishRead => s.(
      sh := s.sh.EndRead(s.reader.total),
      filler := Signal(s.filler, s.sh.EndReadSignals(s.reader.total, false)),
      reader := Idle,
      passed := s.passed + s.reader.copied)
    case ReportSocket => s.(sh := s.sh.(checkSocket := false))
    case ReportEnd => s
    case RequestSeek(offset, whence) => s.(
      sh := s.sh.RequestSeek(offset, whence),
      filler := Signal(s.filler, true),
      reader := Seeking)
    case SeekReturns => s.(reader := Idle)
    case Shutdown => s.(sh := s.sh.(shutdown := true), filler := Signal(s.filler, true))
  }

  /** One step of either thread.  Outside `Inv`, where the functions above mean nothing, a step may
      do anything; the theorem about runs shows that no run gets there. */
  ghost predicate Next(s: State, act: Action, t: State) {
    Enabled(s, act) && (Inv(s) ==> t == Apply(s, act))
  }

  ghost predicate IsRun(tr: seq<State>, acts: seq<Action>) {
    && |tr| == |acts| + 1
    && Init(tr[0])
    && forall i :: 0 <= i < |acts| ==> Next(tr[i], acts[i], tr[i + 1])
  }

  lemma InvInit(s: State)
    requires Init(s)
    ensures Inv(s)
  {
  }

  /** What the locked part does to the queue: a buffered seek drops the skipped bytes, a seek of the
      source empties it, anything else leaves it alone. */
  lemma SeekPartContents(s: Shared, sourceSeeks: bool)
    requires s.Wf() && s.SeekGoesForward()
    requires s.SeekIsBuffered() ==> s.RelSeek() >= 1
    ensures var t := SeekPart(s, sourceSeeks);
      && !t.doSeek
      && (s.SeekIsBuffered() ==> t.ring.Contents() == s.ring.Contents()[s.RelSeek()..])
      && (!s.SeekIsBuffered() ==>
            t.ring.Contents() == if s.doSeek && sourceSeeks then [] else s.ring.Contents())
  {
    if s.SeekIsBuffered() {
      SkipDropsFront(s.ring, s.RelSeek());
    }
  }

  lemma TopKeepsQueue(s: State, sourceSeeks: bool)
    requires Inv(s) && s.filler == AtTop
    ensures QueueInv(TopStep(s, sourceSeeks))
  {
    hide Ring.Contents, SeekPart, ChooseFill, ReaderOk, FillerInv;
    SeekPartContents(s.sh, sourceSeeks);
    if s.sh.SeekIsBuffered() {
      var c, d := s.sh.ring.Contents(), s.sh.RelSeek();
      AppendAssociates(s.passed, c[..d], c[d..]);
      Rejoin(c, d);
    }
  }

  lemma TopKeepsReader(s: State, sourceSeeks: bool)
    requires Inv(s) && s.filler == AtTop
    ensures ReaderOk(TopStep(s, sourceSeeks).sh.ring, s.reader)
  {
  }

  lemma TopKeepsInv(s: State, sourceSeeks: bool)
    requires Inv(s) && s.filler == AtTop
    ensures Inv(TopStep(s, sourceSeeks))
  {
    hide Ring.Contents, QueueInv, ReaderOk;
    TopKeepsQueue(s, sourceSeeks);
    TopKeepsReader(s, sourceSeeks);
    var t := TopStep(s, sourceSeeks);
    assert FillerInv(t.sh.ring, t.filler);
    assert SeekInv(t.sh, t.filler, t.reader);
  }

  lemma WriteByteKeepsInv(s: State, v: Byte)
    requires Inv(s) && Enabled(s, WriteByte(v))
    ensures Inv(Apply(s, WriteByte(v)))
    ensures Apply(s, WriteByte(v)).sh.ring.Contents() == s.sh.ring.Contents()
  {
    hide Ring.Contents;
    var t := Apply(s, WriteByte(v));
    StoreKeepsContents(s.sh.ring, |s.filler.got|, v);
    ReaderKept(s.sh.ring, t.sh.ring, s.reader);
    GotOneMore(s.sh.ring, s.filler, v);
  }

  lemma OneByteMore(data: seq<Byte>, at: nat, bytes: seq<Byte>, k: nat)
    requires k < |bytes| && at + |bytes| <= |data| && data[at..at + k] == bytes[..k]
    ensures data[at + k := bytes[k]][at..at + k + 1] == bytes[..k + 1]
  {
    assert bytes[..k + 1] == bytes[..k] + [bytes[k]];
    assert data[at + k := bytes[k]][at..at + k + 1] == data[at..at + k] + [bytes[k]];
  }

  lemma GotOneMore(r: Ring, f: Filler, v: Byte)
    requires r.Wf() && f.Reading? && FillerInv(r, f) && |f.got| < f.chunk
    ensures var data := r.data[f.at + |f.got| := v];
      data[f.at..f.at + |f.got| + 1] == f.got + [v]
  {
  }

  /** At the end of the unlocked read `b` has not moved, and the bytes behind it are those that the
      source has returned. */
  lemma ReadBytesLieBehindB(r: Ring, f: Filler, n: nat)
    requires r.Wf() && f.Reading? && FillerInv(r, f) && n <= |f.got|
    ensures n <= |r.data| && r.AfterB(n) == f.got[..n]
  {
    SlicePrefix(r.data, f.at, n, |f.got|);
  }

  lemma CommitKeepsQueue(s: State, n: int)
    requires Inv(s) && Enabled(s, Commit(n))
    ensures Apply(s, Commit(n)).sh.Wf() && QueueInv(Apply(s, Commit(n)))
    ensures ReaderOk(Apply(s, Commit(n)).sh.ring, s.reader)
    ensures n > 0 ==>
      Apply(s, Commit(n)).sh.ring.Contents() == s.sh.ring.Contents() + s.filler.got[..n]
  {
    hide Ring.Contents, Ring.AfterB;
    if n > 0 {
      var r := s.sh.ring;
      JoinAppends(r, n);
      ReadBytesLieBehindB(r, s.filler, n);
      AppendAssociates(s.passed, r.Contents(), r.AfterB(n));
      ReaderKept(r, r.Join(n), s.reader);
    }
  }

  lemma CommitKeepsInv(s: State, n: int)
    requires Inv(s) && Enabled(s, Commit(n))
    ensures Inv(Apply(s, Commit(n)))
  {
    hide Ring.Contents, QueueInv, ReaderOk;
    CommitKeepsQueue(s, n);
    var t := Apply(s, Commit(n));
    assert !t.filler.Reading?;
    assert SeekInv(t.sh, t.filler, t.reader);
  }

  lemma CopyKeepsInv(s: State, act: Action)
    requires Inv(s) && Enabled(s, act) && (act.BeginRead? || act.CopyByte?)
    ensures Inv(Apply(s, act))
  {
    hide Ring.Contents;
  }

  lemma FinishReadKeepsInv(s: State)
    requires Inv(s) && Enabled(s, FinishRead)
    ensures Inv(Apply(s, FinishRead))
  {
    hide Ring.Contents, Ring.Take;
    var n, c := s.reader.total, s.sh.ring.Contents();
    TakeDropsFront(s.sh.ring, n);
    AppendAssociates(s.passed, c[..n], c[n..]);
    Rejoin(c, n);
    assert |s.sh.ring.Take(n).Contents()| == |c| - n;
  }

  lemma InvNext(s: State, act: Action)
    requires Inv(s) && Enabled(s, act)
    ensures Inv(Apply(s, act))
  {
    hide Ring.Contents, QueueInv, FillerInv, ReaderOk, SeekInv, SeekAllowed;
    match act
    case Top(sourceSeeks) => TopKeepsInv(s, sourceSeeks);
    case WriteByte(v) => WriteByteKeepsInv(s, v);
    case Commit(n) => CommitKeepsInv(s, n);
    case BeginRead(_) => CopyKeepsInv(s, act);
    case CopyByte => CopyKeepsInv(s, act);
    case FinishRead => FinishReadKeepsInv(s);
    case _ => RestKeepsInv(s, act);
  }

  /** The steps that leave the ring alone. */
  lemma RestKeepsInv(s: State, act: Action)
    requires Inv(s) && Enabled(s, act)
    requires act.Wake? || act.ReportSocket? || act.ReportEnd? || act.RequestSeek? || act.SeekReturns? || act.Shutdown?
    ensures Inv(Apply(s, act))
  {
    hide Ring.Contents;
  }

  /** In every interleaving of the filler's locked parts, its unlocked byte-by-byte read, and the
      reader's unlocked byte-by-byte copy, the ring holds exactly the bytes that have been fetched
      and have not left yet, in order, and the reader's partial copy is the front of that queue. */
  lemma {:induction false} RunKeepsInv(tr: seq<State>, acts: seq<Action>, i: nat)
    requires IsRun(tr, acts) && i < |tr|
    ensures Inv(tr[i])
  {
    hide Inv, Apply, Enabled, Init;
    if i == 0 {
      InvInit(tr[0]);
    } else {
      RunKeepsInv(tr, acts, i - 1);
      assert Next(tr[i - 1], acts[i - 1], tr[i]);
      InvNext(tr[i - 1], acts[i - 1]);
    }
  }

  /** The bytes handed to the client by the first `k` steps. */
  ghost function Delivered(tr: seq<State>, acts: seq<Action>, k: nat): seq<Byte>
    requires IsRun(tr, acts) && k <= |acts|
  {
    if k == 0 then
      []
    else if acts[k - 1] == FinishRead && tr[k - 1].reader.Copying? then
      Delivered(tr, acts, k - 1) + tr[k - 1].reader.copied
    else
      Delivered(tr, acts, k - 1)
  }

  /** What the source has produced, told from its own steps alone: the bytes returned by the reads that
      are over, and those of the read under way. */
  ghost function Produced(acts: seq<Action>, k: nat): (seq<Byte>, seq<Byte>)
    requires k <= |acts|
  {
    if k == 0 then ([], [])
    else
      var (returned, current) := Produced(acts, k - 1);
      match acts[k - 1]
      case WriteByte(v) => (returned, current + [v])
      case Commit(n) => (if 0 < n <= |current| then returned + current[..n] else returned, [])
      case _ => (returned, current)
  }

  /** The bytes that a read under way has stored. */
  function Current(f: Filler): seq<Byte> {
    if f.Reading? then f.got else []
  }

  /** A step other than a seek request starts no seek, lets bytes pass only to the client, and fetches
      only what the source returns. */
  lemma StepWithoutSeek(s: State, act: Action)
    requires Inv(s) && Enabled(s, act) && !act.RequestSeek? && !s.sh.doSeek && s.reader != Seeking
    ensures var t := Apply(s, act);
      && !t.sh.doSeek && t.reader != Seeking && (act == FinishRead ==> s.reader.Copying?)
      && t.passed == (if act == FinishRead then s.passed + s.reader.copied else s.passed)
      && t.fetched ==
           (if act.Commit? && act.readBytes > 0 then s.fetched + s.filler.got[..act.readBytes] else s.fetched)
      && Current(t.filler) == match act
           case WriteByte(v) => Current(s.filler) + [v]
           case Commit(_) => []
           case _ => Current(s.filler)
  {
    hide QueueInv, FillerInv, Ring.Contents, Ring.Wf, ReaderOk, Ring.Take, Ring.Join, Ring.Store;
  }

  lemma QueueOf(s: State)
    requires Inv(s)
    ensures s.sh.ring.Wf() && s.passed + s.sh.ring.Contents() == s.fetched
  {
  }

  lemma QueueAtStart(s: State)
    requires Init(s)
    ensures !s.sh.doSeek && s.reader != Seeking && s.passed == [] == s.fetched && Current(s.filler) == []
  {
  }

  lemma ReadingAtCommit(s: State, act: Action)
    requires Enabled(s, act) && act.Commit?
    ensures Current(s.filler) == s.filler.got && act.readBytes <= |s.filler.got|
  {
  }

  /** Over any run without seeks, what the client has received followed by what is buffered is
      exactly what the source's reads have returned: nothing is lost, repeated, reordered or
      overwritten. */
  lemma {:induction false} StreamIsPreserved(tr: seq<State>, acts: seq<Action>, k: nat)
    requires IsRun(tr, acts) && k <= |acts|
    requires forall i :: 0 <= i < k ==> !acts[i].RequestSeek?
    ensures Inv(tr[k]) && !tr[k].sh.doSeek && tr[k].reader != Seeking
    ensures Delivered(tr, acts, k) == tr[k].passed
    ensures Produced(acts, k) == (tr[k].fetched, Current(tr[k].filler))
    ensures Delivered(tr, acts, k) + tr[k].sh.ring.Contents() == Produced(acts, k).0
  {
    hide Inv, Apply, Init, Ring.Contents, Current, Enabled;
    RunKeepsInv(tr, acts, k);
    QueueOf(tr[k]);
    if k == 0 {
      QueueAtStart(tr[0]);
    } else {
      StreamIsPreserved(tr, acts, k - 1);
      assert Next(tr[k - 1], acts[k - 1], tr[k]);
      StepWithoutSeek(tr[k - 1], acts[k - 1]);
      if acts[k - 1].Commit? {
        ReadingAtCommit(tr[k - 1], acts[k - 1]);
      }
    }
  }

  /** Each call of `read` delivers the bytes fetched right after those that left before, whatever
      seeks came earlier; and no byte of the unlocked fill lands on an unread byte. */
  lemma EachReadIsNext(tr: seq<State>, acts: seq<Action>, i: nat)
    requires IsRun(tr, acts) && i < |acts|
    ensures Inv(tr[i]) && Inv(tr[i + 1])
    ensures acts[i] == FinishRead ==>
      tr[i].passed + tr[i].reader.copied == tr[i + 1].passed <= tr[i].fetched == tr[i + 1].fetched
    ensures acts[i].WriteByte? ==> tr[i + 1].sh.ring.Contents() == tr[i].sh.ring.Contents()
    ensures acts[i].Commit? && acts[i].readBytes > 0 ==>
      && tr[i].filler.Reading? && acts[i].readBytes <= |tr[i].filler.got|
      && tr[i + 1].sh.ring.Contents() ==
           tr[i].sh.ring.Contents() + tr[i].filler.got[..acts[i].readBytes]
  {
    hide Ring.Contents;
    RunKeepsInv(tr, acts, i);
    RunKeepsInv(tr, acts, i + 1);
    assert Next(tr[i], acts[i], tr[i + 1]);
    if acts[i].WriteByte? {
      WriteByteKeepsInv(tr[i], acts[i].v);
    } else if acts[i].Commit? && acts[i].readBytes > 0 {
      CommitKeepsQueue(tr[i], acts[i].readBytes);
    } else if acts[i] == FinishRead {
      assert tr[i + 1].passed + tr[i + 1].sh.ring.Contents() == tr[i + 1].fetched;
    }
  }

  // ---- the end of the source, and the initial fill ----

  /** The source has answered 0, or with an error, while the handler was open. */
  ghost predicate Ended(tr: seq<State>, acts: seq<Action>, i: nat)
    requires i <= |acts| && |tr| == |acts| + 1
  {
    exists j :: 0 <= j < i && acts[j] == Commit(0) && !tr[j].sh.shutdown
  }

  ghost predicate Broken(tr: seq<State>, acts: seq<Action>, i: nat)
    requires i <= |acts| && |tr| == |acts| + 1
  {
    exists j :: 0 <= j < i && IsError(acts[j]) && !tr[j].sh.shutdown
  }

  predicate IsError(act: Action) {
    act.Commit? && act.readBytes < 0 && act.readBytes != CHECK_SOCKET
  }

  ghost predicate Closed(acts: seq<Action>, i: nat)
    requires i <= |acts|
  {
    exists j :: 0 <= j < i && acts[j] == Shutdown
  }

  /** The source has asked for the socket to be checked, and the reader has not reported it yet. */
  ghost predicate SocketAsked(acts: seq<Action>, i: nat)
    requires i <= |acts|
  {
    exists j :: 0 <= j < i && acts[j] == Commit(CHECK_SOCKET) && forall k :: j < k < i ==> acts[k] != ReportSocket
  }

  /** The filler takes up a seek that is not in the buffer: the initial fill has to be reached again. */
  ghost predicate Restarts(s: State, act: Action) {
    act.Top? && s.sh.doSeek && !(s.sh.Wf() && s.sh.SeekIsBuffered())
  }

  /** A commit reaches the initial fill. */
  ghost predicate Fills(t: State, act: Action) {
    act.Commit? && act.readBytes > 0 && t.sh.Wf() && t.sh.ring.Fill() >= t.sh.initialFill
  }

  /** The initial fill has been reached since the start or the last restart. */
  ghost predicate FilledSince(tr: seq<State>, acts: seq<Action>, i: nat)
    requires i <= |acts| && |tr| == |acts| + 1
  {
    exists j :: 0 <= j < i && Fills(tr[j + 1], acts[j]) && forall k :: j < k < i ==> !Restarts(tr[k], acts[k])
  }

  lemma FilledStep(tr: seq<State>, acts: seq<Action>, i: nat)
    requires i < |acts| && |tr| == |acts| + 1
    ensures FilledSince(tr, acts, i + 1) <==>
              Fills(tr[i + 1], acts[i]) || (FilledSince(tr, acts, i) && !Restarts(tr[i], acts[i]))
  {
    hide Fills, Restarts, FilledSince;
    if FilledSince(tr, acts, i + 1) && !Fills(tr[i + 1], acts[i]) {
      FilledBefore(tr, acts, i);
    }
    FilledStays(tr, acts, i);
  }

  lemma FilledBefore(tr: seq<State>, acts: seq<Action>, i: nat)
    requires i < |acts| && |tr| == |acts| + 1 && FilledSince(tr, acts, i + 1) && !Fills(tr[i + 1], acts[i])
    ensures FilledSince(tr, acts, i) && !Restarts(tr[i], acts[i])
  {
    hide Fills, Restarts;
    var j :| 0 <= j < i + 1 && Fills(tr[j + 1], acts[j]) && forall k :: j < k < i + 1 ==> !Restarts(tr[k], acts[k]);
    assert j < i;
  }

  lemma FilledStays(tr: seq<State>, acts: seq<Action>, i: nat)
    requires i < |acts| && |tr| == |acts| + 1
    ensures Fills(tr[i + 1], acts[i]) ==> FilledSince(tr, acts, i + 1)
    ensures FilledSince(tr, acts, i) && !Restarts(tr[i], acts[i]) ==> FilledSince(tr, acts, i + 1)
  {
    hide Fills, Restarts;
  }

  lemma SocketStep(acts: seq<Action>, i: nat)
    requires i < |acts|
    ensures SocketAsked(acts, i + 1) <==>
              acts[i] == Commit(CHECK_SOCKET) || (SocketAsked(acts, i) && acts[i] != ReportSocket)
  {
    if acts[i] == Commit(CHECK_SOCKET) {
      assert SocketAsked(acts, i + 1);
    } else if SocketAsked(acts, i) && acts[i] != ReportSocket {
      var j :| 0 <= j < i && acts[j] == Commit(CHECK_SOCKET) && forall k :: j < k < i ==> acts[k] != ReportSocket;
      assert acts[j] == Commit(CHECK_SOCKET);
    }
  }

  /** What one step does to the flags. */
  ghost predicate FlagsAfter(s: Shared, act: Action, t: Shared) {
    && (t.eof <==> s.eof || (act == Commit(0) && !s.shutdown))
    && (t.readError <==> s.readError || (IsError(act) && !s.shutdown))
    && (t.shutdown <==> s.shutdown || act == Shutdown)
    && (t.checkSocket <==> act == Commit(CHECK_SOCKET) || (s.checkSocket && act != ReportSocket))
    && t.initialFill == s.initialFill
  }

  lemma TopFlags(s: Shared, sourceSeeks: bool)
    requires s.Wf() && s.SeekGoesForward()
    ensures FlagsAfter(s, Top(sourceSeeks), SeekPart(s, sourceSeeks))
  {
    hide Ring.Contents, Ring.Skip;
  }

  lemma CommitFlags(s: Shared, n: int)
    requires s.Wf() && n <= |s.ring.data| - s.ring.Fill()
    ensures FlagsAfter(s, Commit(n), CommitPart(s, n))
  {
    hide Ring.Contents, Ring.Join;
  }

  lemma StepFlags(s: State, act: Action)
    requires Inv(s) && Enabled(s, act)
    ensures FlagsAfter(s.sh, act, Apply(s, act).sh)
  {
    hide QueueInv, Ring.Contents, ReaderOk, Ring.Take, Ring.Join, Ring.Store, Ring.Skip, SeekPart, CommitPart;
    match act
    case Top(sourceSeeks) => TopFlags(s.sh, sourceSeeks);
    case Commit(n) => CommitFlags(s.sh, n);
    case _ =>
  }

  /** What one step does to the gate. */
  lemma StepGate(s: State, act: Action)
    requires Inv(s) && Enabled(s, act)
    ensures var t := Apply(s, act);
      && (t.sh.gate <==> if Restarts(s, act) then s.sh.initialFill > 0 else s.sh.gate && !Fills(t, act))
      && (Restarts(s, act) ==> !Fills(t, act))
  {
    hide Ring.Contents, Ring.Take, Ring.Join, Ring.Store, Ring.Skip, ReaderOk, QueueInv, SeekPart, CommitPart;
    match act
    case Top(sourceSeeks) => TopGate(s.sh, sourceSeeks);
    case Commit(n) => CommitGate(s, n);
    case _ =>
  }

  lemma TopGate(s: Shared, sourceSeeks: bool)
    requires s.Wf() && s.SeekGoesForward()
    ensures SeekPart(s, sourceSeeks).gate <==>
              if s.doSeek && !s.SeekIsBuffered() then s.initialFill > 0 else s.gate
  {
    hide Ring.Contents, Ring.Skip;
  }

  lemma CommitGate(s: State, n: int)
    requires Inv(s) && Enabled(s, Commit(n))
    ensures var t := Apply(s, Commit(n)); t.sh.gate <==> s.sh.gate && !Fills(t, Commit(n))
  {
    hide Ring.Contents, Ring.Join, ReaderOk, QueueInv, SeekAllowed;
    if n > 0 {
      JoinAppends(s.sh.ring, n);
    }
  }

  /** In every run the flags tell the history: the source has ended or failed, the client has closed the
      handler, a socket check is due, and the gate is up exactly until the initial fill has been reached.
      The filler stops for one of the first three reasons only. */
  lemma {:induction false} FlagsTellHistory(tr: seq<State>, acts: seq<Action>, i: nat)
    requires IsRun(tr, acts) && i <= |acts|
    ensures Inv(tr[i])
    ensures tr[i].sh.eof <==> Ended(tr, acts, i)
    ensures tr[i].sh.readError <==> Broken(tr, acts, i)
    ensures tr[i].sh.shutdown <==> Closed(acts, i)
    ensures Ended(tr, acts, i) || Broken(tr, acts, i) ==> tr[i].filler == Stopped
    ensures tr[i].filler == Stopped ==> Ended(tr, acts, i) || Broken(tr, acts, i) || Closed(acts, i)
    ensures tr[i].sh.checkSocket <==> SocketAsked(acts, i)
    ensures tr[i].sh.initialFill == tr[0].sh.initialFill
    ensures tr[i].sh.gate <==> tr[0].sh.initialFill > 0 && !FilledSince(tr, acts, i)
  {
    hide Inv, Apply, Enabled, Restarts, Fills, FilledSince, SocketAsked;
    RunKeepsInv(tr, acts, i);
    StoppedForAReason(tr[i]);
    if i == 0 {
      NoHistory(tr, acts);
    } else {
      FlagsTellHistory(tr, acts, i - 1);
      assert Next(tr[i - 1], acts[i - 1], tr[i]);
      StepFlags(tr[i - 1], acts[i - 1]);
      StepGate(tr[i - 1], acts[i - 1]);
      FilledStep(tr, acts, i - 1);
      SocketStep(acts, i - 1);
    }
  }

  lemma StoppedForAReason(s: State)
    requires Inv(s)
    ensures s.sh.eof || s.sh.readError ==> s.filler == Stopped
    ensures s.filler == Stopped ==> s.sh.eof || s.sh.readError || s.sh.shutdown
  {
  }

  lemma NoHistory(tr: seq<State>, acts: seq<Action>)
    requires |tr| == |acts| + 1
    ensures !FilledSince(tr, acts, 0) && !SocketAsked(acts, 0)
  {
  }

  /** When a read is served: the client gets bytes exactly when there are some, nothing has failed, and the
      initial fill has been reached since the start or the last restart, unless the source has ended. */
  lemma ReadIsServedWhen(tr: seq<State>, acts: seq<Action>, i: nat, length: nat)
    requires IsRun(tr, acts) && i <= |acts| && tr[i].reader == Idle && length > 0
    ensures Inv(tr[i])
    ensures Enabled(tr[i], BeginRead(length)) <==>
      && tr[i].sh.ring.Contents() != [] && !Broken(tr, acts, i) && !Closed(acts, i)
      && (Ended(tr, acts, i) || tr[0].sh.initialFill == 0 || FilledSince(tr, acts, i))
    ensures Enabled(tr[i], ReportEnd) <==>
      tr[i].sh.ring.Contents() == [] && !Broken(tr, acts, i) && !Closed(acts, i) && Ended(tr, acts, i)
  {
    hide Ended, Broken, Closed, FilledSince, Shared.CanRead, Shared.SeesEnd, Ring.Contents;
    FlagsTellHistory(tr, acts, i);
    ReadOutcomes(tr[i].sh);
  }

  /** After the end nothing more is produced. */
  lemma {:induction false} NothingAfterEnd(tr: seq<State>, acts: seq<Action>, j: nat, i: nat)
    requires IsRun(tr, acts) && j <= i <= |acts| && Ended(tr, acts, j)
    ensures Ended(tr, acts, i) && Produced(acts, i).0 == Produced(acts, j).0
  {
    hide IsRun;
    if j < i {
      NothingAfterEnd(tr, acts, j, i - 1);
      EndedIsStopped(tr, acts, i - 1);
    }
  }

  lemma EndedIsStopped(tr: seq<State>, acts: seq<Action>, i: nat)
    requires IsRun(tr, acts) && i < |acts| && Ended(tr, acts, i)
    ensures tr[i].filler == Stopped && !acts[i].WriteByte? && !acts[i].Commit?
  {
    hide Ended, QueueInv, FillerInv, ReaderOk, Ring.Contents;
    FlagsTellHistory(tr, acts, i);
    assert Next(tr[i], acts[i], tr[i + 1]);
  }

  /** A client that sees the end has received everything that the source has returned, up to its answer 0. */
  lemma EndMeansEverything(tr: seq<State>, acts: seq<Action>, i: nat)
    requires IsRun(tr, acts) && i < |acts| && acts[i] == ReportEnd
    requires forall k :: 0 <= k < i ==> !acts[k].RequestSeek?
    ensures Delivered(tr, acts, i) == Produced(acts, i).0
    ensures exists j :: 0 <= j < i && acts[j] == Commit(0) && Produced(acts, j).0 == Produced(acts, i).0
  {
    hide Inv, Delivered, Produced, Ring.Contents, FilledSince, Broken, Closed, SocketAsked, Enabled, Apply, Init;
    StreamIsPreserved(tr, acts, i);
    assert Next(tr[i], acts[i], tr[i + 1]);
    FlagsTellHistory(tr, acts, i);
    EndIsServed(tr[i]);
    EndAnswered(tr, acts, i);
  }

  lemma EndAnswered(tr: seq<State>, acts: seq<Action>, i: nat)
    requires IsRun(tr, acts) && i <= |acts| && Ended(tr, acts, i)
    ensures exists j :: 0 <= j < i && acts[j] == Commit(0) && Produced(acts, j).0 == Produced(acts, i).0
  {
    hide Next, Init, Inv, Produced;
    var j :| 0 <= j < i && acts[j] == Commit(0) && !tr[j].sh.shutdown;
    NothingAfterEnd(tr, acts, j + 1, i);
    AnswerZero(acts, j);
  }

  lemma AnswerZero(acts: seq<Action>, j: nat)
    requires j < |acts| && acts[j] == Commit(0)
    ensures Produced(acts, j + 1).0 == Produced(acts, j).0
  {
  }

  // ---- the reader, and who wakes the filler ----

  /** What the reader is doing, told from the client's last action. */
  datatype Doing = Nothing | Reads | Seeks

  function LastDoing(acts: seq<Action>, i: nat): Doing
    requires i <= |acts|
  {
    if i == 0 then Nothing
    else match acts[i - 1]
      case BeginRead(_) => Reads
      case FinishRead => Nothing
      case RequestSeek(_, _) => Seeks
      case SeekReturns => Nothing
      case _ => LastDoing(acts, i - 1)
  }

  predicate Does(reader: Reader, doing: Doing) {
    match doing
    case Nothing => reader == Idle
    case Reads => reader.Copying?
    case Seeks => reader == Seeking
  }

  lemma {:induction false} ReaderTellsHistory(tr: seq<State>, acts: seq<Action>, i: nat)
    requires IsRun(tr, acts) && i <= |acts|
    ensures Does(tr[i].reader, LastDoing(acts, i))
  {
    hide Inv, Apply, Init, Enabled;
    if i == 0 {
      IdleAtStart(tr[0]);
    } else {
      ReaderTellsHistory(tr, acts, i - 1);
      RunKeepsInv(tr, acts, i - 1);
      assert Next(tr[i - 1], acts[i - 1], tr[i]);
      StepDoing(tr[i - 1], acts[i - 1]);
    }
  }

  lemma IdleAtStart(s: State)
    requires Init(s)
    ensures s.reader == Idle && s.filler == AtTop && !s.sh.doSeek
  {
  }

  lemma StepDoing(s: State, act: Action)
    requires Inv(s) && Enabled(s, act)
    ensures match act
      case BeginRead(length) =>
        Apply(s, act).reader == Copying(s.sh.FirstPart(length), s.sh.ReadTotal(length), [])
      case CopyByte => s.reader.Copying? && Apply(s, act).reader.Copying? &&
        |Apply(s, act).reader.copied| == |s.reader.copied| + 1
      case FinishRead => Apply(s, act).reader == Idle
      case RequestSeek(_, _) => Apply(s, act).reader == Seeking
      case SeekReturns => Apply(s, act).reader == Idle
      case _ => Apply(s, act).reader == s.reader
  {
    hide QueueInv, FillerInv, SeekInv, Ring.Contents;
  }

  /** A read wakes a sleeping filler exactly when the ring was full or becomes empty; a seek request and the
      end of the handler always do; and nothing else does. */
  lemma WhoWakes(s: State, act: Action)
    requires Inv(s) && Enabled(s, act) && s.filler == Asleep(false)
    ensures Apply(s, act).filler == (
      if act == Wake then (if s.sh.shutdown then Stopped else AtTop)
      else if act == Shutdown || act.RequestSeek?
              || (act == FinishRead && (s.sh.ring.Full() || s.reader.total == s.sh.ring.Fill()))
      then Asleep(true) else Asleep(false))
  {
    hide QueueInv, SeekInv, Ring.Contents;
    if act == FinishRead {
      SignalsExactly(s.sh, s.reader.total);
    }
  }

  /** No seek request is slept through. */
  lemma {:induction false} SeekIsHeard(tr: seq<State>, acts: seq<Action>, i: nat)
    requires IsRun(tr, acts) && i <= |acts|
    ensures tr[i].sh.doSeek ==> tr[i].filler != Asleep(false)
  {
    hide Inv, Apply, Init, Enabled;
    if i == 0 {
      IdleAtStart(tr[0]);
    } else {
      SeekIsHeard(tr, acts, i - 1);
      RunKeepsInv(tr, acts, i - 1);
      assert Next(tr[i - 1], acts[i - 1], tr[i]);
      HearsStep(tr[i - 1], acts[i - 1]);
    }
  }

  lemma HearsStep(s: State, act: Action)
    requires Inv(s) && Enabled(s, act) && (s.sh.doSeek ==> s.filler != Asleep(false))
    ensures Apply(s, act).sh.doSeek ==> Apply(s, act).filler != Asleep(false)
  {
    hide QueueInv, Ring.Contents, FillerInv, ReaderOk;
    if act.Top? {
      SeekPartContents(s.sh, act.sourceSeeks);
    }
  }

  /** Once the handler is closed the filler starts no read any more: the one under way is its last. */
  lemma {:induction false} NoReadAfterShutdown(tr: seq<State>, acts: seq<Action>, j: nat, i: nat)
    requires IsRun(tr, acts) && j <= i <= |acts| && tr[j].sh.shutdown && tr[j].filler != AtTop
    ensures tr[i].sh.shutdown && tr[i].filler != AtTop
    ensures i < |acts| ==> !acts[i].Top?
    ensures i < |acts| && (acts[i].Commit? || acts[i].Wake?) ==> tr[i + 1].filler == Stopped
  {
    hide Inv, Apply, Init, Enabled;
    RunKeepsInv(tr, acts, i);
    if j < i {
      NoReadAfterShutdown(tr, acts, j, i - 1);
      RunKeepsInv(tr, acts, i - 1);
      assert Next(tr[i - 1], acts[i - 1], tr[i]);
      ClosedStep(tr[i - 1], acts[i - 1]);
    }
    if i < |acts| {
      assert Next(tr[i], acts[i], tr[i + 1]);
      ClosedStep(tr[i], acts[i]);
    }
  }

  lemma ClosedStep(s: State, act: Action)
    requires Inv(s) && Enabled(s, act) && s.sh.shutdown && s.filler != AtTop
    ensures !act.Top? && Apply(s, act).sh.shutdown && Apply(s, act).filler != AtTop
    ensures act.Commit? || act.Wake? ==> Apply(s, act).filler == Stopped
  {
    hide QueueInv, Ring.Contents, FillerInv, ReaderOk;
  }

  // ---- a client that reads on ----

  lemma Extend(tr: seq<State>, acts: seq<Action>, act: Action)
    requires IsRun(tr, acts) && Enabled(tr[|acts|], act)
    ensures Inv(tr[|acts|]) && IsRun(tr + [Apply(tr[|acts|], act)], acts + [act])
  {
    hide Inv, Apply, Enabled, Init;
    RunKeepsInv(tr, acts, |acts|);
    var tr1, acts1 := tr + [Apply(tr[|acts|], act)], acts + [act];
    forall i | 0 <= i < |acts1|
      ensures Next(tr1[i], acts1[i], tr1[i + 1])
    {
      assert i < |acts| ==> Next(tr[i], acts[i], tr[i + 1]);
    }
  }

  /** The unlocked copy goes on to its end. */
  lemma {:induction false} CopyOn(tr: seq<State>, acts: seq<Action>) returns (tr1: seq<State>, acts1: seq<Action>)
    requires IsRun(tr, acts) && Inv(tr[|acts|]) && tr[|acts|].reader.Copying?
    ensures IsRun(tr1, acts1) && acts <= acts1
    ensures forall k :: |acts| <= k < |acts1| ==> acts1[k] == CopyByte
    ensures var s, t := tr[|acts|], tr1[|acts1|];
      && t == s.(reader := t.reader) && t.reader.Copying? && t.reader.total == s.reader.total == |t.reader.copied|
    decreases var r := tr[|acts|].reader; r.total - |r.copied|
  {
    hide Next, Init, QueueInv, FillerInv, Ring.Contents, SeekInv;
    var s := tr[|acts|];
    if |s.reader.copied| == s.reader.total {
      tr1, acts1 := tr, acts;
    } else {
      Extend(tr, acts, CopyByte);
      InvNext(s, CopyByte);
      tr1, acts1 := CopyOn(tr + [Apply(s, CopyByte)], acts + [CopyByte]);
    }
  }

  /** One call of `read`, from the start to its return. */
  lemma ReadOnce(tr: seq<State>, acts: seq<Action>, length: nat) returns (tr1: seq<State>, acts1: seq<Action>)
    requires IsRun(tr, acts) && Enabled(tr[|acts|], BeginRead(length))
    ensures IsRun(tr1, acts1) && acts <= acts1
    ensures forall k :: |acts| <= k < |acts1| ==> acts1[k] in {BeginRead(length), CopyByte, FinishRead}
    ensures var s, t := tr[|acts|], tr1[|acts1|];
      && t.reader == Idle && s.sh.ring.Wf() && t.sh.ring.Wf() && t.sh.ring.Fill() < s.sh.ring.Fill()
      && t.sh.eof == s.sh.eof && t.sh.readError == s.sh.readError && t.sh.shutdown == s.sh.shutdown
  {
    hide Next, Init, QueueInv, FillerInv, Ring.Contents, Ring.Take;
    var s := tr[|acts|];
    Extend(tr, acts, BeginRead(length));
    InvNext(s, BeginRead(length));
    tr1, acts1 := CopyOn(tr + [Apply(s, BeginRead(length))], acts + [BeginRead(length)]);
    var u := tr1[|acts1|];
    Extend(tr1, acts1, FinishRead);
    TakeDropsFront(u.sh.ring, u.reader.total);
    tr1, acts1 := tr1 + [Apply(u, FinishRead)], acts1 + [FinishRead];
  }

  /** Once the source has ended, a client that goes on reading, in pieces of any length, receives everything
      that the source has returned, and then the end. */
  lemma {:induction false} ClientReceivesEverything(tr: seq<State>, acts: seq<Action>, length: nat)
    returns (tr1: seq<State>, acts1: seq<Action>)
    requires IsRun(tr, acts) && (forall k :: 0 <= k < |acts| ==> !acts[k].RequestSeek?) && length > 0
    requires tr[|acts|].reader == Idle && Ended(tr, acts, |acts|) && !Closed(acts, |acts|) && !Broken(tr, acts, |acts|)
    ensures IsRun(tr1, acts1) && acts <= acts1
    ensures forall k :: |acts| <= k < |acts1| ==> acts1[k] in {BeginRead(length), CopyByte, FinishRead}
    ensures Enabled(tr1[|acts1|], ReportEnd)
    ensures Delivered(tr1, acts1, |acts1|) == Produced(acts, |acts|).0
  {
    hide Next, Init, Inv, Ring.Contents, FilledSince, SocketAsked, Produced, Delivered;
    FlagsTellHistory(tr, acts, |acts|);
    QueueOf(tr[|acts|]);
    tr1, acts1 := ReadOn(tr, acts, length);
    StreamIsPreserved(tr1, acts1, |acts1|);
    EndIsServed(tr1[|acts1|]);
    SameProduction(acts, acts1);
  }

  lemma {:induction false} SameProduction(acts: seq<Action>, acts1: seq<Action>)
    requires acts <= acts1 && forall k :: |acts| <= k < |acts1| ==> !acts1[k].WriteByte? && !acts1[k].Commit?
    ensures Produced(acts1, |acts1|) == Produced(acts, |acts|)
  {
    ProducedLater(acts1, |acts|, |acts1|);
    ProducedBefore(acts, acts1, |acts|);
  }

  lemma {:induction false} ProducedLater(acts: seq<Action>, j: nat, i: nat)
    requires j <= i <= |acts| && forall k :: j <= k < i ==> !acts[k].WriteByte? && !acts[k].Commit?
    ensures Produced(acts, i) == Produced(acts, j)
  {
    if j < i {
      ProducedLater(acts, j, i - 1);
    }
  }

  lemma {:induction false} ProducedBefore(acts: seq<Action>, acts1: seq<Action>, i: nat)
    requires i <= |acts| && acts <= acts1
    ensures Produced(acts, i) == Produced(acts1, i)
  {
    if i > 0 {
      ProducedBefore(acts, acts1, i - 1);
    }
  }

  lemma {:induction false} ReadOn(tr: seq<State>, acts: seq<Action>, length: nat)
    returns (tr1: seq<State>, acts1: seq<Action>)
    requires IsRun(tr, acts) && length > 0 && tr[|acts|].reader == Idle && tr[|acts|].sh.ring.Wf()
    requires tr[|acts|].sh.eof && !tr[|acts|].sh.readError && !tr[|acts|].sh.shutdown
    ensures IsRun(tr1, acts1) && acts <= acts1
    ensures forall k :: |acts| <= k < |acts1| ==> acts1[k] in {BeginRead(length), CopyByte, FinishRead}
    ensures Enabled(tr1[|acts1|], ReportEnd)
    decreases tr[|acts|].sh.ring.Fill()
  {
    hide Next, Init, Inv, Ring.Contents;
    var s := tr[|acts|];
    RunKeepsInv(tr, acts, |acts|);
    if s.sh.ring.empty {
      tr1, acts1 := tr, acts;
    } else {
      var tr0, acts0 := ReadOnce(tr, acts, length);
      tr1, acts1 := ReadOn(tr0, acts0, length);
    }
  }

  lemma EndIsServed(s: State)
    requires Inv(s) && Enabled(s, ReportEnd)
    ensures s.sh.eof && s.sh.ring.Wf() && s.sh.ring.Contents() == []
  {
    hide Ring.Contents;
    ReadOutcomes(s.sh);
  }
  /** The filler sleeps unsignalled only on a full ring, and never behind a closed gate. */
  ghost predicate NoStall(s: State) {
    && (s.sh.gate ==> !s.sh.ring.Full())
    && (s.filler.Asleep? ==> !s.sh.gate)
    && (s.filler == Asleep(false) ==> s.sh.ring.Full())
  }

  /** The source refuses a seek that is not buffered while the ring is full: the bytes stay, but the
      gate is closed again. */
  ghost predicate SeekFailsOnFullRing(s: State, act: Action)
    requires s.sh.Wf()
  {
    && act == Top(false)
    && s.sh.doSeek && !s.sh.SeekIsBuffered()
    && s.sh.ring.Full() && s.sh.initialFill > 0
  }

  lemma NoStallTop(s: State, sourceSeeks: bool)
    requires Inv(s) && NoStall(s) && s.filler == AtTop
    ensures NoStall(TopStep(s, sourceSeeks)) <==> !SeekFailsOnFullRing(s, Top(sourceSeeks))
  {
    SeekPartContents(s.sh, sourceSeeks);
    var t := SeekPart(s.sh, sourceSeeks);
    assert t.ring.Full() <==> t.ring.Fill() == |t.ring.data|;
    assert s.sh.ring.Full() <==> s.sh.ring.Fill() == |s.sh.ring.data|;
    if s.sh.SeekIsBuffered() {
      assert |t.ring.Contents()| < |s.sh.ring.data|;
    } else {
      assert |t.ring.Contents()| == if s.sh.doSeek && sourceSeeks then 0 else s.sh.ring.Fill();
    }
  }

  lemma NoStallFill(s: State, act: Action)
    requires Inv(s) && NoStall(s) && Enabled(s, act) && (act.WriteByte? || act.Commit?)
    ensures NoStall(Apply(s, act))
  {
    if act.Commit? && act.readBytes > 0 {
      JoinAppends(s.sh.ring, act.readBytes);
      var t := s.sh.JoinBytes(act.readBytes);
      assert t.ring.Full() ==> t.ring.Fill() == |t.ring.data|;
    }
  }

  lemma NoStallRead(s: State)
    requires Inv(s) && NoStall(s) && Enabled(s, FinishRead)
    ensures NoStall(Apply(s, FinishRead))
  {
    var r := s.sh.ring.Take(s.reader.total);
    TakeDropsFront(s.sh.ring, s.reader.total);
    assert |r.Contents()| < |r.data|;
    assert !r.Full();
  }

  /** The gate and the sleeping filler stay compatible through a step exactly when the step is not a
      failed seek of the source on a full ring. */
  lemma NoStallNext(s: State, act: Action)
    requires Inv(s) && NoStall(s) && Enabled(s, act)
    ensures NoStall(Apply(s, act)) <==> !SeekFailsOnFullRing(s, act)
  {
    match act
    case Top(sourceSeeks) => NoStallTop(s, sourceSeeks);
    case WriteByte(_) => NoStallFill(s, act);
    case Commit(_) => NoStallFill(s, act);
    case FinishRead => NoStallRead(s);
    case _ =>
  }

  lemma AwakeAtStart(s: State)
    requires Init(s)
    ensures NoStall(s)
  {
  }

  lemma SleepMeansBytes(s: State)
    requires Inv(s) && NoStall(s)
    ensures s.filler == Asleep(false) && !s.sh.shutdown ==> s.sh.CanRead()
  {
    hide QueueInv, Ring.Contents;
  }

  /** The initial-fill gate cannot lock the two threads against each other: in runs in which the
      source never fails a seek on a full ring, whenever the filler sleeps and has not been
      signalled, the gate is open and the reader has bytes to read. */
  lemma {:induction false} FillerNeverStalls(tr: seq<State>, acts: seq<Action>, i: nat)
    requires IsRun(tr, acts) && i < |tr|
    requires forall j :: 0 <= j < |acts| && Inv(tr[j]) ==> !SeekFailsOnFullRing(tr[j], acts[j])
    ensures Inv(tr[i]) && NoStall(tr[i])
    ensures tr[i].filler == Asleep(false) && !tr[i].sh.shutdown ==> tr[i].sh.CanRead()
  {
    hide Inv, Apply, Init, NoStall, Enabled, SeekFailsOnFullRing;
    RunKeepsInv(tr, acts, i);
    if i == 0 {
      AwakeAtStart(tr[0]);
    } else {
      FillerNeverStalls(tr, acts, i - 1);
      assert Next(tr[i - 1], acts[i - 1], tr[i]);
      NoStallNext(tr[i - 1], acts[i - 1]);
    }
    SleepMeansBytes(tr[i]);
  }

  lemma {:induction false} NoSeekNoFailure(tr: seq<State>, acts: seq<Action>, i: nat)
    requires IsRun(tr, acts) && i < |acts|
    requires forall k :: 0 <= k < i ==> !acts[k].RequestSeek?
    ensures Inv(tr[i]) && !SeekFailsOnFullRing(tr[i], acts[i])
  {
    hide Inv, IsRun, QueueInv, Ring.Contents;
    StreamIsPreserved(tr, acts, i);
  }

  /** The server does not let clients seek in this handler.  Without seek requests the filler never
      stalls, whatever the sizes. */
  lemma NeverStallsWithoutSeeks(tr: seq<State>, acts: seq<Action>, i: nat)
    requires IsRun(tr, acts) && i < |tr|
    requires forall k :: 0 <= k < |acts| ==> !acts[k].RequestSeek?
    ensures Inv(tr[i]) && NoStall(tr[i])
    ensures tr[i].filler == Asleep(false) && !tr[i].sh.shutdown ==> tr[i].sh.CanRead()
  {
    hide NoStall, SeekFailsOnFullRing, Next, QueueInv, FillerInv, ReaderOk, SeekInv;
    forall j | 0 <= j < |acts| && Inv(tr[j])
      ensures !SeekFailsOnFullRing(tr[j], acts[j])
    {
      NoSeekNoFailure(tr, acts, j);
    }
    FillerNeverStalls(tr, acts, i);
  }

  // ---- a run with a refused seek ----

  ghost predicate Reachable(s: State) {
    exists tr, acts :: IsRun(tr, acts) && tr[|acts|] == s
  }

  lemma ReachableInit(s: State)
    requires Init(s)
    ensures Reachable(s)
  {
    assert IsRun([s], []);
  }

  lemma ReachableNext(s: State, act: Action)
    requires Reachable(s) && Inv(s) && Enabled(s, act)
    ensures Reachable(Apply(s, act)) && Inv(Apply(s, act))
  {
    hide Inv, Apply, Enabled, Init;
    var tr, acts :| IsRun(tr, acts) && tr[|acts|] == s;
    var t := Apply(s, act);
    assert IsRun(tr + [t], acts + [act]) by {
      forall i | 0 <= i < |acts + [act]|
        ensures Next((tr + [t])[i], (acts + [act])[i], (tr + [t])[i + 1])
      {
        assert i < |acts| ==> Next(tr[i], acts[i], tr[i + 1]);
      }
    }
    InvNext(s, act);
  }

  /** A handler at the top of its loop that has fetched the first `n` bytes of `bytes`. */
  function Loaded(bytes: seq<Byte>, data: seq<Byte>, initialFill: nat, maxChunk: nat, n: nat): State
    requires n <= |bytes| == |data|
  {
    State(Shared(Ring(bytes[..n] + data[n..], 0, if n == |data| then 0 else n, n == 0), 0, n < initialFill,
                 initialFill, false, 0, SeekSet, false, false, false, false),
          maxChunk, AtTop, Idle, bytes[..n], [])
  }

  function ChunkFor(maxChunk: nat, room: nat): nat {
    if maxChunk > room then room else maxChunk
  }

  lemma LoadTop(bytes: seq<Byte>, data: seq<Byte>, initialFill: nat, maxChunk: nat, n: nat)
    requires n < |bytes| == |data| && 0 < maxChunk
    requires Inv(Loaded(bytes, data, initialFill, maxChunk, n))
    ensures var s := Loaded(bytes, data, initialFill, maxChunk, n);
      && Enabled(s, Top(true))
      && Apply(s, Top(true)) == s.(filler := Reading(ChunkFor(maxChunk, |data| - n), n, []))
  {
    hide QueueInv, Ring.Contents;
  }

  lemma LoadWrite(s: State, chunk: nat, v: Byte)
    requires s.filler == Reading(chunk, s.sh.ring.b, []) && chunk > 0 && Inv(s)
    ensures Enabled(s, WriteByte(v))
    ensures s.sh.ring.b < s.sh.Size()
    ensures Apply(s, WriteByte(v)) ==
            s.(sh := s.sh.(ring := s.sh.ring.Store(s.sh.ring.b, v)), filler := Reading(chunk, s.sh.ring.b, [v]))
  {
    hide QueueInv, Ring.Contents;
    assert [] + [v] == [v];
  }

  lemma LoadCommit(s: State, chunk: nat, v: Byte)
    requires s.filler == Reading(chunk, s.sh.ring.b, [v]) && chunk > 0 && Inv(s) && !s.sh.shutdown
    ensures Enabled(s, Commit(1)) && s.sh.ring.Fill() < s.sh.Size()
    ensures Apply(s, Commit(1)) ==
            s.(sh := s.sh.JoinBytes(1), filler := AtTop, fetched := s.fetched + [v])
  {
    hide QueueInv, Ring.Contents;
    assert [v][..1] == [v];
  }

  lemma LoadedNext(bytes: seq<Byte>, data: seq<Byte>, initialFill: nat, maxChunk: nat, n: nat)
    requires n < |bytes| == |data|
    ensures var s := Loaded(bytes, data, initialFill, maxChunk, n);
      var t := Loaded(bytes, data, initialFill, maxChunk, n + 1);
      var sh := s.sh.(ring := s.sh.ring.Store(n, bytes[n]));
      && sh.ring.Wf() && sh.ring.Fill() == n
      && t == s.(sh := sh.JoinBytes(1), fetched := s.fetched + [bytes[n]])
  {
    hide Ring.Contents;
    assert bytes[..n] + [bytes[n]] == bytes[..n + 1];
    assert (bytes[..n] + data[n..])[n := bytes[n]] == bytes[..n + 1] + data[n + 1..];
  }

  /** One read of a single byte. */
  lemma LoadOne(bytes: seq<Byte>, data: seq<Byte>, initialFill: nat, maxChunk: nat, n: nat)
    requires n < |bytes| == |data| && 0 < maxChunk
    requires Reachable(Loaded(bytes, data, initialFill, maxChunk, n))
    requires Inv(Loaded(bytes, data, initialFill, maxChunk, n))
    ensures Reachable(Loaded(bytes, data, initialFill, maxChunk, n + 1))
    ensures Inv(Loaded(bytes, data, initialFill, maxChunk, n + 1))
  {
    hide Reachable, Inv, Apply, Enabled;
    var s0, chunk := Loaded(bytes, data, initialFill, maxChunk, n), ChunkFor(maxChunk, |data| - n);
    LoadTop(bytes, data, initialFill, maxChunk, n);
    ReachableNext(s0, Top(true));
    var s1 := s0.(filler := Reading(chunk, n, []));
    LoadWrite(s1, chunk, bytes[n]);
    ReachableNext(s1, WriteByte(bytes[n]));
    var s2 := s1.(sh := s1.sh.(ring := s1.sh.ring.Store(n, bytes[n])), filler := Reading(chunk, n, [bytes[n]]));
    LoadCommit(s2, chunk, bytes[n]);
    ReachableNext(s2, Commit(1));
    LoadedNext(bytes, data, initialFill, maxChunk, n);
  }

  /** Every such state is reachable. */
  lemma {:induction false} LoadedIsReachable(bytes: seq<Byte>, data: seq<Byte>, initialFill: nat, maxChunk: nat, n: nat)
    requires n <= |bytes| == |data| && 0 < |data| && initialFill <= |data| && 0 < maxChunk
    ensures Reachable(Loaded(bytes, data, initialFill, maxChunk, n))
    ensures Inv(Loaded(bytes, data, initialFill, maxChunk, n))
  {
    hide Reachable, Inv;
    if n == 0 {
      assert Init(Loaded(bytes, data, initialFill, maxChunk, 0)) by {
        assert bytes[..0] + data[0..] == data;
      }
      ReachableInit(Loaded(bytes, data, initialFill, maxChunk, 0));
      InvInit(Loaded(bytes, data, initialFill, maxChunk, 0));
    } else {
      LoadedIsReachable(bytes, data, initialFill, maxChunk, n - 1);
      LoadOne(bytes, data, initialFill, maxChunk, n - 1);
    }
  }

  /** For every buffer with an initial fill: the buffer fills, the filler goes to sleep, a relative
      backward seek is requested, and the source refuses it.  The filler sleeps again, behind a closed
      gate on a full ring, so that neither thread can go on. */
  lemma FailedSeekStalls(bytes: seq<Byte>, initialFill: nat, maxChunk: nat, offset: int) returns (s: State)
    requires 0 < initialFill <= |bytes| && 0 < maxChunk && offset < 0
    ensures Reachable(s) && Inv(s) && NoStall(s) && SeekFailsOnFullRing(s, Top(false))
    ensures s.filler == AtTop
    ensures var t := Apply(s, Top(false));
      && Reachable(t) && t.filler == Asleep(false) && t.sh.gate && t.reader == Seeking && !t.sh.doSeek
      && !t.sh.CanRead()
  {
    hide Reachable;
    var n := |bytes|;
    LoadedIsReachable(bytes, bytes, initialFill, maxChunk, n);
    var s0 := Loaded(bytes, bytes, initialFill, maxChunk, n);
    s := AskedBack(s0, offset);
    ReachableNext(s, Top(false));
  }

  /** A full ring at the top of the loop: the filler sleeps, is woken by the request and stands at the top
      again. */
  lemma AskedBack(s0: State, offset: int) returns (s: State)
    requires Reachable(s0) && Inv(s0) && s0.filler == AtTop && s0.reader == Idle && offset < 0
    requires s0.sh.ring.Full() && s0.sh.initialFill > 0 && !s0.sh.gate && !s0.sh.doSeek && !s0.sh.shutdown
    ensures Reachable(s) && Inv(s)
    ensures s == s0.(sh := s0.sh.RequestSeek(offset, SeekCur), reader := Seeking)
  {
    hide Reachable, QueueInv, Ring.Contents;
    ReachableNext(s0, Top(true));
    var s1 := Apply(s0, Top(true));
    assert s1 == s0.(filler := Asleep(false));
    ReachableNext(s1, RequestSeek(offset, SeekCur));
    var s2 := Apply(s1, RequestSeek(offset, SeekCur));
    ReachableNext(s2, Wake);
    s := Apply(s2, Wake);
  }

  class BufferedIOHandler {
    const helper: IOHandlerBufferHelper
    const maxChunkSize: nat

    constructor (helper: IOHandlerBufferHelper, maxChunkSize: nat)
      requires maxChunkSize > 0
      ensures this.helper == helper && this.maxChunkSize == maxChunkSize
    {
      this.helper := helper;
      this.maxChunkSize := maxChunkSize;
    }

    /** The checks of both constructors, outermost last; `fill` and `size` are size_t. */
    static method Create(sourcePresent: bool, size: nat, chunk: nat, fill: nat)
      returns (handler: Result<BufferedIOHandler, string>)
      ensures handler.Ok? <==> sourcePresent && 0 < chunk && 0 < size && fill <= size
      ensures handler.Ok? ==>
        && fresh(handler.value) && fresh(handler.value.helper) && fresh(handler.value.helper.buffer)
        && handler.value.maxChunkSize == chunk
        && Init(State(handler.value.helper.View(), chunk, AtTop, Idle, [], []))
        && handler.value.helper.buffer.Length == size
        && handler.value.helper.initialFillSize == fill
    {
      if size == 0 {
        return Err("bufSize must be positive");
      }
      if fill > size {
        return Err("initialFillSize must be lesser than or equal to the size of the buffer");
      }
      var helper := new IOHandlerBufferHelper(size, fill, false);
      if !sourcePresent {
        return Err("underlyingHandler must not be nullptr");
      }
      if chunk == 0 {
        return Err("maxChunkSize must be positive");
      }
      var h := new BufferedIOHandler(helper, chunk);
      return Ok(h);
    }

    /** The locked part at the top of the loop, before the size of the next read is chosen. */
    method LockedSeek(sourceSeeks: bool)
      requires helper.View().Wf() && helper.View().SeekGoesForward()
      modifies helper
      ensures helper.View() == SeekPart(old(helper.View()), sourceSeeks)
    {
      if helper.empty {
        helper.a, helper.b := 0, 0;
      }
      helper.TrySeekInBuffer();
      if helper.doSeek {
        if sourceSeeks {
          helper.empty := true;
          helper.a, helper.b := 0, 0;
        }
        helper.waitForInitialFillSize := helper.initialFillSize > 0;
        helper.doSeek := false;
      }
    }

    /** The size of the read to issue, or nothing when the thread has to sleep. */
    method NextChunk() returns (chunk: Option<nat>)
      requires helper.View().ring.Wf() && helper.View().ring == helper.View().ring.Canonical()
      ensures ChooseFill(helper.View().ring, maxChunkSize) ==
              if chunk.None? then Asleep(false) else Reading(chunk.value, helper.b, [])
    {
      var maxWrite := if helper.empty then helper.buffer.Length
                      else if helper.a < helper.b then helper.buffer.Length - helper.b
                      else helper.a - helper.b;
      if maxWrite == 0 {
        return None;
      }
      return Some(if maxChunkSize > maxWrite then maxWrite else maxChunkSize);
    }

    /** The unlocked read, for a source that returns `bytes`: they end up behind `b`, and no unread byte
        changes. */
    method ReadUnlocked(bytes: seq<Byte>)
      requires helper.View().Wf()
      requires |bytes| <= helper.buffer.Length - helper.View().ring.Fill()
      requires helper.b + |bytes| <= helper.buffer.Length
      modifies helper.buffer
      ensures helper.View().Wf() && helper.View().ring.AfterB(|bytes|) == bytes
      ensures helper.View().ring.Contents() == old(helper.View().ring.Contents())
    {
      hide Ring.Contents;
      ghost var contents := helper.View().ring.Contents();
      var k := 0;
      while k < |bytes|
        invariant 0 <= k <= |bytes| && helper.View().Wf()
        invariant helper.buffer[..][helper.b..helper.b + k] == bytes[..k]
        invariant helper.View().ring.Contents() == contents
      {
        ghost var ring := helper.View().ring;
        StoreKeepsContents(ring, k, bytes[k]);
        OneByteMore(ring.data, helper.b, bytes, k);
        helper.buffer[helper.b + k] := bytes[k];
        assert helper.View().ring == ring.Store(helper.b + k, bytes[k]);
        k := k + 1;
      }
    }

    /** The locked part after a read that delivered bytes. */
    method JoinChunk(readBytes: nat)
      requires helper.View().Wf()
      requires 0 < readBytes <= helper.buffer.Length - helper.View().ring.Fill()
      requires helper.b + readBytes <= helper.buffer.Length
      modifies helper
      ensures helper.View() == old(helper.View()).JoinBytes(readBytes)
    {
      JoinAppends(helper.View().ring, readBytes);
      helper.b := helper.b + readBytes;
      if helper.b == helper.buffer.Length {
        helper.b := 0;
      }
      if helper.empty {
        helper.empty := false;
      }
      helper.OpenGate();
    }

    /** The locked part after the read, with the condition and the tail of the loop. */
    method LockedCommit(readBytes: int) returns (again: bool)
      requires helper.View().Wf()
      requires readBytes <= helper.buffer.Length - helper.View().ring.Fill()
      requires helper.b + readBytes <= helper.buffer.Length
      modifies helper
      ensures helper.View() == CommitPart(old(helper.View()), readBytes)
      ensures again <==> AfterCommit(old(helper.View()), readBytes) == AtTop
    {
      if readBytes > 0 {
        JoinChunk(readBytes);
      } else if readBytes == CHECK_SOCKET {
        helper.checkSocket := true;
      }
      again := (readBytes > 0 || readBytes == CHECK_SOCKET) && !helper.threadShutdown;
      if !again && !helper.threadShutdown {
        if readBytes == 0 {
          helper.eof := true;
        }
        if readBytes < 0 {
          helper.readError := true;
        }
      }
    }
  }
}
