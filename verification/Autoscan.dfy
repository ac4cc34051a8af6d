/** The registry of autoscan directories (AutoscanDirectory, AutoscanList).

    A directory's scan ID is its slot in the list.  Slots of removed directories become holes that
    later additions fill, so that the IDs of the remaining directories never change. */
module Autoscan {
  import opened Wrappers

  const INVALID_SCAN_ID := -1
  const INVALID_OBJECT_ID := -333

  datatype ScanMode = Timed | INotify
  datatype ScanLevel = Basic | Full

  /** The properties that the configuration or a user chooses. */
  datatype Options = Options(mode: ScanMode, level: ScanLevel, recursive: bool, persistent: bool,
                             hidden: bool, interval: nat)

  /** All of an autoscan directory except its scan ID and its timer parameter. */
  datatype Settings = Settings(location: string, options: Options, taskCount: int, objectID: int,
                               storageID: int, previousLMT: int, currentLMT: int)

  // ---- the list as a value ----

  type Slots = seq<Option<Settings>>

  ghost predicate DistinctLocations(m: Slots) {
    forall i, j :: 0 <= i < j < |m| && m[i].Some? && m[j].Some? ==> m[i].value.location != m[j].value.location
  }

  predicate HasLocation(m: Slots, location: string) {
    exists i :: 0 <= i < |m| && m[i].Some? && m[i].value.location == location
  }

  /** The last hole, or -1. */
  function LastHole<T>(m: seq<Option<T>>): (h: int)
    ensures -1 <= h < |m|
    ensures h >= 0 ==> m[h] == None
    ensures forall i :: h < i < |m| ==> m[i].Some?
  {
    if m == [] then -1 else if m[|m| - 1].None? then |m| - 1 else LastHole(m[..|m| - 1])
  }

  function FreeSlot<T>(m: seq<Option<T>>): (k: nat)
    ensures k <= |m| && (k < |m| ==> m[k] == None)
  {
    if LastHole(m) >= 0 then LastHole(m) else |m|
  }

  lemma NoHole<T>(m: seq<Option<T>>)
    requires forall i :: 0 <= i < |m| ==> m[i].Some?
    ensures FreeSlot(m) == |m|
  {
  }

  /** A new directory goes into the free slot. */
  function Place<T>(m: seq<Option<T>>, s: T): seq<Option<T>> {
    if LastHole(m) >= 0 then m[LastHole(m) := Some(s)] else m + [Some(s)]
  }

  /** Removing slot `i`: only the last slot shrinks the list. */
  function Clear<T>(m: seq<Option<T>>, i: nat): seq<Option<T>>
    requires i < |m|
  {
    if i == |m| - 1 then m[..i] else m[i := None]
  }

  /** The first slot with the given location or object, or -1. */
  function FindLocation(m: Slots, location: string): (k: int)
    ensures -1 <= k < |m|
    ensures k >= 0 ==> m[k].Some? && m[k].value.location == location
    ensures forall i :: 0 <= i < (if k >= 0 then k else |m|) && m[i].Some? ==> m[i].value.location != location
  {
    if m == [] then -1
    else if m[0].Some? && m[0].value.location == location then 0
    else
      var k := FindLocation(m[1..], location);
      if k >= 0 then k + 1 else -1
  }

  function FindObject(m: Slots, objectID: int): (k: int)
    ensures -1 <= k < |m|
    ensures k >= 0 ==> m[k].Some? && m[k].value.objectID == objectID
    ensures forall i :: 0 <= i < (if k >= 0 then k else |m|) && m[i].Some? ==> m[i].value.objectID != objectID
  {
    if m == [] then -1
    else if m[0].Some? && m[0].value.objectID == objectID then 0
    else
      var k := FindObject(m[1..], objectID);
      if k >= 0 then k + 1 else -1
  }

  /** What removeIfSubdir takes out: locations that start with `parent`, persistent ones only on request. */
  predicate Goes(o: Option<Settings>, parent: string, persistent: bool) {
    o.Some? && parent <= o.value.location && (!o.value.options.persistent || persistent)
  }

  /** The slots below `n` that go, in order. */
  function Gone(m: Slots, n: nat, parent: string, persistent: bool): (g: seq<nat>)
    requires n <= |m|
    ensures forall k :: 0 <= k < |g| ==> g[k] < n
  {
    if n == 0 then []
    else if Goes(m[n - 1], parent, persistent) then Gone(m, n - 1, parent, persistent) + [n - 1]
    else Gone(m, n - 1, parent, persistent)
  }

  /** The list after the first `n` passes of the loop in removeIfSubdir. */
  function SweepFirst(m: Slots, n: nat, parent: string, persistent: bool): (r: Slots)
    requires n <= |m|
    ensures |m| - 1 <= |r| <= |m|
    ensures n < |m| ==> |r| == |m|
  {
    if n == 0 then m
    else
      var r := SweepFirst(m, n - 1, parent, persistent);
      if Goes(r[n - 1], parent, persistent) then Clear(r, n - 1) else r
  }

  lemma SweepStart(m: Slots, parent: string, persistent: bool)
    ensures SweepFirst(m, 0, parent, persistent) == m && Gone(m, 0, parent, persistent) == []
  {
  }

  lemma SweepStep(m: Slots, i: nat, parent: string, persistent: bool)
    requires i < |m|
    ensures i < |SweepFirst(m, i, parent, persistent)| && SweepFirst(m, i, parent, persistent)[i] == m[i]
    ensures |SweepFirst(m, i + 1, parent, persistent)| <= i + 1 ==> i + 1 == |m|
    ensures SweepFirst(m, i + 1, parent, persistent) ==
            var r := SweepFirst(m, i, parent, persistent);
            if Goes(m[i], parent, persistent) then Clear(r, i) else r
    ensures Gone(m, i + 1, parent, persistent) ==
            if Goes(m[i], parent, persistent) then Gone(m, i, parent, persistent) + [i]
            else Gone(m, i, parent, persistent)
    ensures forall k :: 0 <= k < |Gone(m, i, parent, persistent)| ==> Gone(m, i, parent, persistent)[k] < i
  {
    SweepFirstAt(m, i, parent, persistent);
  }

  function Sweep(m: Slots, parent: string, persistent: bool): Slots {
    SweepFirst(m, |m|, parent, persistent)
  }

  // ---- what the operations keep ----

  /** A new directory takes a slot that nobody held, nobody moves, and the list grows only when it has
      no hole. */
  lemma PlaceKeeps(m: Slots, s: Settings)
    requires DistinctLocations(m) && !HasLocation(m, s.location)
    ensures var r, k := Place(m, s), FreeSlot(m);
      && DistinctLocations(r) && k < |r| && r[k] == Some(s)
      && (k < |m| ==> m[k] == None)
      && (forall i :: 0 <= i < |m| && i != k ==> r[i] == m[i])
      && (|r| > |m| <==> forall i :: 0 <= i < |m| ==> m[i].Some?)
      && |m| <= |r| <= |m| + 1
  {
    var r := Place(m, s);
    forall i, j | 0 <= i < j < |r| && r[i].Some? && r[j].Some?
      ensures r[i].value.location != r[j].value.location
    {
      if i == FreeSlot(m) {
        assert m[j].value.location != s.location;
      } else if j == FreeSlot(m) {
        assert m[i].value.location != s.location;
      }
    }
  }

  lemma PlaceKeepsDistinct(m: Slots, s: Settings)
    requires !HasLocation(m, s.location)
    ensures DistinctLocations(m) ==> DistinctLocations(Place(m, s))
  {
    if DistinctLocations(m) {
      PlaceKeeps(m, s);
    }
  }

  lemma ClearKeeps(m: Slots, i: nat)
    requires DistinctLocations(m) && i < |m|
    ensures DistinctLocations(Clear(m, i))
    ensures i < |Clear(m, i)| ==> Clear(m, i)[i] == None
    ensures forall j :: 0 <= j < |m| && j != i ==> j < |Clear(m, i)| && Clear(m, i)[j] == m[j]
  {
  }

  lemma {:induction false} SweepFirstAt(m: Slots, n: nat, parent: string, persistent: bool)
    requires n <= |m|
    ensures var r := SweepFirst(m, n, parent, persistent);
      && (forall i :: 0 <= i < |r| ==> r[i] == if i < n && Goes(m[i], parent, persistent) then None else m[i])
      && (|r| < |m| <==> n > 0 && n == |m| && Goes(m[n - 1], parent, persistent))
  {
    if n > 0 {
      SweepFirstAt(m, n - 1, parent, persistent);
    }
  }

  /** The sweep takes out exactly the slots that go, although the list may shrink while it runs; every
      other directory keeps its slot. */
  lemma SweepIsExact(m: Slots, parent: string, persistent: bool)
    ensures var r := Sweep(m, parent, persistent);
      && (forall i :: 0 <= i < |r| ==> r[i] == if Goes(m[i], parent, persistent) then None else m[i])
      && |m| - 1 <= |r| <= |m| && (|r| < |m| ==> Goes(m[|r|], parent, persistent))
      && (DistinctLocations(m) ==> DistinctLocations(r))
  {
    SweepFirstAt(m, |m|, parent, persistent);
  }

  lemma SweepLength(m: Slots, parent: string, persistent: bool)
    ensures |Sweep(m, parent, persistent)| < |m| <==> m != [] && Goes(m[|m| - 1], parent, persistent)
  {
    SweepFirstAt(m, |m|, parent, persistent);
  }

  /** The slots reported as gone are those that go, each once and in order. */
  lemma {:induction false} GoneIsExact(m: Slots, n: nat, parent: string, persistent: bool)
    requires n <= |m|
    ensures var g := Gone(m, n, parent, persistent);
      && (forall k, l :: 0 <= k < l < |g| ==> g[k] < g[l])
      && (forall i :: i in g <==> 0 <= i < n && Goes(m[i], parent, persistent))
  {
    hide Goes, Gone;
    GoneStep(m, n, parent, persistent);
    if n > 0 {
      GoneIsExact(m, n - 1, parent, persistent);
      Appended(Gone(m, n - 1, parent, persistent), n - 1);
    }
  }

  lemma GoneStep(m: Slots, n: nat, parent: string, persistent: bool)
    requires n <= |m|
    ensures Gone(m, n, parent, persistent) ==
      if n == 0 then []
      else Gone(m, n - 1, parent, persistent) + if Goes(m[n - 1], parent, persistent) then [n - 1] else []
  {
  }

  lemma Appended(g: seq<nat>, x: nat)
    requires forall k :: 0 <= k < |g| ==> g[k] < x
    requires forall k, l :: 0 <= k < l < |g| ==> g[k] < g[l]
    ensures forall k, l :: 0 <= k < l < |g + [x]| ==> (g + [x])[k] < (g + [x])[l]
    ensures forall i :: i in g + [x] <==> i in g || i == x
  {
  }

  /** Nothing that the sweep looks for is left, so a second sweep changes nothing. */
  lemma SweepTwice(m: Slots, parent: string, persistent: bool)
    ensures Sweep(Sweep(m, parent, persistent), parent, persistent) == Sweep(m, parent, persistent)
  {
    var r := Sweep(m, parent, persistent);
    SweepIsExact(m, parent, persistent);
    SweepIsExact(r, parent, persistent);
    assert forall i :: 0 <= i < |r| ==> !Goes(r[i], parent, persistent);
  }

  // ---- runs ----

  datatype Op =
    | Add(settings: Settings)
    | Remove(id: int)
    | RemoveLocation(location: string)
    | RemoveObject(objectID: int)
    | RemoveSubdirs(parent: string, persistent: bool)

  function Apply(m: Slots, op: Op): Slots {
    match op
    case Add(s) => if HasLocation(m, s.location) then m else Place(m, s)
    case Remove(id) => if 0 <= id < |m| then Clear(m, id) else m
    case RemoveLocation(loc) => if FindLocation(m, loc) >= 0 then Clear(m, FindLocation(m, loc)) else m
    case RemoveObject(oid) => if FindObject(m, oid) >= 0 then Clear(m, FindObject(m, oid)) else m
    case RemoveSubdirs(parent, persistent) => Sweep(m, parent, persistent)
  }

  function Run(m: Slots, ops: seq<Op>): Slots
    decreases |ops|
  {
    if ops == [] then m else Run(Apply(m, ops[0]), ops[1..])
  }

  /** The operation takes the directory in slot `i` out. */
  predicate TakesOut(m: Slots, op: Op, i: nat)
    requires i < |m|
  {
    match op
    case Add(_) => false
    case Remove(id) => id == i
    case RemoveLocation(loc) => FindLocation(m, loc) == i
    case RemoveObject(oid) => FindObject(m, oid) == i
    case RemoveSubdirs(parent, persistent) => Goes(m[i], parent, persistent)
  }

  lemma ApplyKeeps(m: Slots, op: Op)
    requires DistinctLocations(m)
    ensures DistinctLocations(Apply(m, op))
    ensures forall i :: 0 <= i < |m| && m[i].Some? && !TakesOut(m, op, i) ==>
              i < |Apply(m, op)| && Apply(m, op)[i] == m[i]
    ensures |Apply(m, op)| > |m| ==> forall i :: 0 <= i < |m| ==> m[i].Some?
  {
    match op {
      case Add(s) =>
        if !HasLocation(m, s.location) {
          PlaceKeeps(m, s);
        }
      case Remove(id) =>
        if 0 <= id < |m| {
          ClearKeeps(m, id);
        }
      case RemoveLocation(loc) =>
        if FindLocation(m, loc) >= 0 {
          ClearKeeps(m, FindLocation(m, loc));
        }
      case RemoveObject(oid) =>
        if FindObject(m, oid) >= 0 {
          ClearKeeps(m, FindObject(m, oid));
        }
      case RemoveSubdirs(parent, persistent) =>
        SweepIsExact(m, parent, persistent);
    }
  }

  function SlotAt(m: Slots, i: int): Option<Settings> {
    if 0 <= i < |m| then m[i] else None
  }

  /** What stands in slot `i` after an operation, slot by slot: an addition fills the free slot unless the
      location is taken, a removal empties what it names, and everything else stays. */
  ghost function SlotAfter(m: Slots, op: Op, i: int): Option<Settings> {
    var was := SlotAt(m, i);
    match op
    case Add(s) =>
      if (forall j :: SlotAt(m, j).Some? ==> SlotAt(m, j).value.location != s.location) && i == FreeSlot(m)
      then Some(s) else was
    case Remove(id) => if i == id then None else was
    case RemoveLocation(loc) => if was.Some? && was.value.location == loc then None else was
    case RemoveObject(oid) =>
      if was.Some? && was.value.objectID == oid &&
         forall j :: 0 <= j < i ==> SlotAt(m, j).None? || SlotAt(m, j).value.objectID != oid
      then None else was
    case RemoveSubdirs(parent, persistent) =>
      if was.Some? && parent <= was.value.location && (persistent || !was.value.options.persistent)
      then None else was
  }

  lemma ApplyExactly(m: Slots, op: Op, i: int)
    requires DistinctLocations(m)
    ensures SlotAt(Apply(m, op), i) == SlotAfter(m, op, i)
    ensures SlotAt(m, FreeSlot(m)) == None
  {
    hide Clear, Place, Sweep, FindLocation, FindObject, SlotAt, DistinctLocations, Goes;
    FreeIsNone(m);
    match op {
      case Add(s) => AddedSlot(m, s, i);
      case Remove(id) => ClearedSlot(m, id, i);
      case RemoveLocation(loc) => LocationSlot(m, loc, i); ClearedSlot(m, FindLocation(m, loc), i);
      case RemoveObject(oid) => ObjectSlot(m, oid, i); ClearedSlot(m, FindObject(m, oid), i);
      case RemoveSubdirs(parent, persistent) => SweptSlot(m, parent, persistent, i);
    }
  }

  lemma FreeIsNone(m: Slots)
    ensures SlotAt(m, FreeSlot(m)) == None
  {
  }

  lemma ClearedSlot(m: Slots, k: int, i: int)
    ensures 0 <= k < |m| ==> SlotAt(Clear(m, k), i) == if i == k then None else SlotAt(m, i)
    ensures !(0 <= k < |m|) && i == k ==> SlotAt(m, i) == None
  {
  }

  lemma AddedSlot(m: Slots, s: Settings, i: int)
    requires DistinctLocations(m)
    ensures SlotAt(Apply(m, Add(s)), i) == SlotAfter(m, Add(s), i)
  {
    hide Place, DistinctLocations;
    if HasLocation(m, s.location) {
      var j :| 0 <= j < |m| && m[j].Some? && m[j].value.location == s.location;
      assert SlotAt(m, j).Some?;
    } else {
      PlaceKeeps(m, s);
    }
  }

  lemma SweptSlot(m: Slots, parent: string, persistent: bool, i: int)
    ensures SlotAt(Sweep(m, parent, persistent), i) == SlotAfter(m, RemoveSubdirs(parent, persistent), i)
  {
    hide Sweep;
    SweepIsExact(m, parent, persistent);
  }

  lemma LocationSlot(m: Slots, loc: string, i: int)
    requires DistinctLocations(m)
    ensures SlotAt(m, i).Some? && SlotAt(m, i).value.location == loc <==>
              FindLocation(m, loc) == i && FindLocation(m, loc) >= 0
  {
    hide FindLocation;
    var k := FindLocation(m, loc);
  }

  lemma ObjectSlot(m: Slots, oid: int, i: int)
    ensures SlotAt(m, i).Some? && SlotAt(m, i).value.objectID == oid &&
            (forall j :: 0 <= j < i ==> SlotAt(m, j).None? || SlotAt(m, j).value.objectID != oid) <==>
              FindObject(m, oid) == i && FindObject(m, oid) >= 0
  {
    hide FindObject;
    var k := FindObject(m, oid);
    if 0 <= k < i {
      assert SlotAt(m, k).Some? && SlotAt(m, k).value.objectID == oid;
    }
  }

  /** TakesOut says exactly which directories go. */
  lemma TakesOutExactly(m: Slots, op: Op, i: nat)
    requires DistinctLocations(m) && i < |m| && m[i].Some?
    ensures TakesOut(m, op, i) <==> SlotAt(Apply(m, op), i) == None
  {
    ApplyExactly(m, op, i);
    ApplyKeeps(m, op);
    LocationSlot(m, if op.RemoveLocation? then op.location else "", i);
    ObjectSlot(m, if op.RemoveObject? then op.objectID else 0, i);
  }

  /** The operations of a run never take out the directory in slot `i`. */
  ghost predicate Stays(m: Slots, ops: seq<Op>, i: nat)
    requires i < |m|
    decreases |ops|
  {
    ops == [] ||
    (!TakesOut(m, ops[0], i) && i < |Apply(m, ops[0])| && Stays(Apply(m, ops[0]), ops[1..], i))
  }

  /** After any sequence of operations locations are distinct. */
  lemma {:induction false} RunKeepsDistinct(m: Slots, ops: seq<Op>)
    requires DistinctLocations(m)
    ensures DistinctLocations(Run(m, ops))
    decreases |ops|
  {
    if ops != [] {
      ApplyKeeps(m, ops[0]);
      RunKeepsDistinct(Apply(m, ops[0]), ops[1..]);
    }
  }

  /** A directory keeps its scan ID through any sequence of operations that does not take it out. */
  lemma {:induction false} RunKeepsSlot(m: Slots, ops: seq<Op>, i: nat)
    requires DistinctLocations(m) && i < |m| && m[i].Some? && Stays(m, ops, i)
    ensures i < |Run(m, ops)| && Run(m, ops)[i] == m[i]
    decreases |ops|
  {
    if ops != [] {
      ApplyKeeps(m, ops[0]);
      RunKeepsSlot(Apply(m, ops[0]), ops[1..], i);
    }
  }

  // ---- the task count and the modification times ----

  function Reported(s: Settings, lmt: int): Settings {
    if lmt > s.currentLMT then s.(currentLMT := lmt) else s
  }

  function PassEnded(s: Settings): Settings {
    if s.taskCount == 1 then s.(taskCount := 0, previousLMT := s.currentLMT) else s.(taskCount := s.taskCount - 1)
  }

  // ---- the objects ----

  class TimerParameter {
    var id: int

    constructor (id: int)
      ensures this.id == id
    {
      this.id := id;
    }

    method SetID(id: int)
      modifies this
      ensures this.id == id
    {
      this.id := id;
    }
  }

  class AutoscanDirectory {
    var location: string
    var options: Options
    var taskCount: int
    var scanID: int
    var objectID: int
    var storageID: int
    var lastModPreviousScan: int
    var lastModCurrentScan: int
    var timerParameter: TimerParameter

    constructor (location: string, options: Options, id: int)
      ensures GetSettings() == Settings(location, options, 0, INVALID_OBJECT_ID, INVALID_OBJECT_ID, 0, 0)
      ensures scanID == id && fresh(timerParameter) && timerParameter.id == INVALID_SCAN_ID
    {
      this.location, this.options, this.scanID := location, options, id;
      taskCount, objectID, storageID := 0, INVALID_OBJECT_ID, INVALID_OBJECT_ID;
      lastModPreviousScan, lastModCurrentScan := 0, 0;
      timerParameter := new TimerParameter(INVALID_SCAN_ID);
    }

    constructor Blank()
      ensures fresh(timerParameter)
    {
      location, options := "", Options(Timed, Basic, false, false, false, 0);
      scanID, taskCount, objectID, storageID := INVALID_SCAN_ID, 0, INVALID_OBJECT_ID, INVALID_OBJECT_ID;
      lastModPreviousScan, lastModCurrentScan := 0, 0;
      timerParameter := new TimerParameter(INVALID_SCAN_ID);
    }

    ghost function GetSettings(): (s: Settings)
      reads this`location, this`options, this`taskCount, this`objectID, this`storageID,
            this`lastModPreviousScan, this`lastModCurrentScan
      ensures s.location == location && s.options == options && s.objectID == objectID
    {
      Settings(location, options, taskCount, objectID, storageID, lastModPreviousScan, lastModCurrentScan)
    }

    /** The timer parameter always follows the scan ID. */
    method SetScanID(id: int)
      modifies this`scanID, timerParameter
      ensures scanID == id && timerParameter.id == id
    {
      scanID := id;
      timerParameter.SetID(id);
    }

    method DecTaskCount()
      modifies this`taskCount
      ensures taskCount == old(taskCount) - 1
    {
      taskCount := taskCount - 1;
    }

    /** The time is only set if it is higher than the one already there. */
    method SetCurrentLMT(lmt: int)
      modifies this`lastModCurrentScan
      ensures GetSettings() == Reported(old(GetSettings()), lmt)
    {
      if lmt > lastModCurrentScan {
        lastModCurrentScan := lmt;
      }
    }

    method UpdateLMT()
      modifies this`lastModPreviousScan
      ensures lastModPreviousScan == lastModCurrentScan
    {
      lastModPreviousScan := lastModCurrentScan;
    }

    /** The end of a rescan task: the last one of a wave makes the reported time the new baseline. */
    method PassEnds()
      modifies this`taskCount, this`lastModPreviousScan
      ensures GetSettings() == PassEnded(old(GetSettings()))
    {
      DecTaskCount();
      if taskCount == 0 {
        UpdateLMT();
      }
    }

    method ResetLMT()
      modifies this`lastModPreviousScan, this`lastModCurrentScan
      ensures lastModPreviousScan == 0 == lastModCurrentScan
    {
      lastModPreviousScan := 0;
      lastModCurrentScan := 0;
    }

    /** The copy shares the timer parameter object with the original. */
    method CopyTo(copy: AutoscanDirectory)
      modifies copy
      ensures copy.GetSettings() == old(GetSettings())
      ensures copy.scanID == old(scanID) && copy.timerParameter == old(timerParameter)
    {
      copy.location, copy.options, copy.taskCount := location, options, taskCount;
      copy.scanID, copy.objectID, copy.storageID := scanID, objectID, storageID;
      copy.lastModPreviousScan, copy.lastModCurrentScan := lastModPreviousScan, lastModCurrentScan;
      copy.timerParameter := timerParameter;
    }
  }

  /** The directories of a list as values. */
  ghost function SlotsOf(list: seq<AutoscanDirectory?>): (m: Slots)
    reads list
    ensures |m| == |list|
    ensures forall i :: 0 <= i < |m| ==> (m[i].Some? <==> list[i] != null)
    ensures forall i :: 0 <= i < |m| && list[i] != null ==> m[i].value == list[i].GetSettings()
  {
    seq(|list|, i requires 0 <= i < |list| reads list =>
      var d := list[i];
      if d == null then None else Some(d.GetSettings()))
  }

  ghost function ParametersOf(list: seq<AutoscanDirectory?>): (t: seq<TimerParameter?>)
    reads list
    ensures |t| == |list|
    ensures forall i :: 0 <= i < |t| && list[i] != null ==> t[i] == list[i].timerParameter
  {
    seq(|list|, i requires 0 <= i < |list| reads list =>
      var d := list[i];
      if d == null then null else d.timerParameter)
  }

  /** `copies` are copies of the directories in the slots `g`, with their scan IDs and their own timer
      parameters, which are invalid by now. */
  ghost predicate AreCopies(copies: seq<AutoscanDirectory?>, m: Slots, t: seq<TimerParameter?>, g: seq<nat>)
    requires |m| == |t|
    reads copies, ParametersOf(copies)
  {
    && |copies| == |g|
    && forall k :: 0 <= k < |copies| ==>
         && g[k] < |m| && m[g[k]].Some? && copies[k] != null
         && copies[k].scanID == g[k] && copies[k].GetSettings() == m[g[k]].value
         && copies[k].timerParameter == t[g[k]] && copies[k].timerParameter.id == INVALID_SCAN_ID
  }

  lemma NoCopies(m: Slots, t: seq<TimerParameter?>)
    requires |m| == |t|
    ensures AreCopies([], m, t, [])
  {
  }

  class AutoscanList {
    var list: seq<AutoscanDirectory?>

    constructor ()
      ensures list == []
      ensures Valid()
    {
      list := [];
    }

    ghost function View(): (m: Slots)
      reads this, list
      ensures |m| == |list|
      ensures forall i :: 0 <= i < |m| ==> (m[i].Some? <==> list[i] != null)
      ensures forall i :: 0 <= i < |m| && list[i] != null ==> m[i].value == list[i].GetSettings()
    {
      SlotsOf(list)
    }

    ghost function Parameters(): set<TimerParameter>
      reads this, list
    {
      set d: AutoscanDirectory? | d in list && d != null :: d.timerParameter
    }

    /** The directory in slot i has scan ID i, in itself and in its timer parameter; locations are
        distinct. */
    ghost predicate Valid()
      reads this, list, Parameters()
    {
      && (forall i :: 0 <= i < |list| && list[i] != null ==>
           list[i].scanID == i && list[i].timerParameter.id == i)
      && DistinctLocations(View())
    }

    /** Valid but for the IDs of slot `i`, whose timer parameter no other slot uses. */
    ghost predicate ValidExcept(i: nat)
      requires i < |list| && list[i] != null
      reads this, list, Parameters()
    {
      && (forall j :: 0 <= j < |list| && j != i && list[j] != null ==>
           && list[j] != list[i] && list[j].scanID == j && list[j].timerParameter.id == j
           && list[j].timerParameter != list[i].timerParameter)
      && DistinctLocations(View())
    }

    /** `dir` and its timer parameter are not in use in this list. */
    ghost predicate Foreign(dir: AutoscanDirectory)
      reads this, list, dir
    {
      forall i :: 0 <= i < |list| && list[i] != null ==>
        list[i] != dir && list[i].timerParameter != dir.timerParameter
    }

    /** The scan of the list before an addition. */
    method ScanFor(location: string) returns (taken: bool, nilIndex: int)
      ensures taken <==> HasLocation(View(), location)
      ensures !taken ==> nilIndex == LastHole(View())
    {
      taken, nilIndex := false, -1;
      var i := 0;
      while i < |list|
        invariant 0 <= i <= |list|
        invariant -1 <= nilIndex < i && (nilIndex >= 0 ==> list[nilIndex] == null)
        invariant forall j :: nilIndex < j < i ==> list[j] != null
        invariant forall j :: 0 <= j < i && list[j] != null ==> list[j].location != location
      {
        if list[i] == null {
          nilIndex := i;
        } else if list[i].location == location {
          assert View()[i].value.location == location;
          return true, nilIndex;
        }
        i := i + 1;
      }
    }

    method Add(dir: AutoscanDirectory) returns (id: Result<nat, string>)
      modifies this, dir`scanID, dir.timerParameter
      ensures id.Err? <==> HasLocation(old(View()), old(dir.location))
      ensures id.Err? ==> list == old(list) && unchanged(dir) && unchanged(dir.timerParameter)
      ensures id.Ok? ==>
                && id.value == FreeSlot(old(View())) == dir.scanID == dir.timerParameter.id
                && View() == Place(old(View()), old(dir.GetSettings()))
                && list == (if id.value < |old(list)| then old(list)[id.value := dir] else old(list) + [dir])
      ensures old(Valid() && Foreign(dir)) ==> Valid()
    {
      hide AutoscanDirectory.GetSettings, Place, DistinctLocations, SlotsOf, FreeSlot;
      var taken, nilIndex := ScanFor(dir.location);
      if taken {
        return Err("Attempted to add same autoscan path twice");
      }
      ghost var m, s := View(), dir.GetSettings();
      Put(dir, nilIndex);
      id := Ok(dir.scanID);
      PlaceKeepsDistinct(m, s);
    }

    /** `dir` enters the hole, or the end of the list when there is none. */
    method Put(dir: AutoscanDirectory, hole: int)
      requires hole == LastHole(View())
      modifies this, dir`scanID, dir.timerParameter
      ensures FreeSlot(old(View())) == dir.scanID == dir.timerParameter.id
      ensures list == (if dir.scanID < |old(list)| then old(list)[dir.scanID := dir] else old(list) + [dir])
      ensures View() == Place(old(View()), old(dir.GetSettings()))
      ensures dir.timerParameter == old(dir.timerParameter)
    {
      hide AutoscanDirectory.GetSettings;
      if hole != -1 {
        dir.SetScanID(hole);
        list := list[hole := dir];
      } else {
        dir.SetScanID(|list|);
        list := list + [dir];
      }
    }

    method Get(id: int) returns (dir: AutoscanDirectory?)
      ensures dir != null <==> 0 <= id < |list| && list[id] != null
      ensures dir != null ==> dir == list[id]
      ensures Valid() && dir != null ==> dir.scanID == id
    {
      if id < 0 || id >= |list| {
        return null;
      }
      return list[id];
    }

    method GetByLocation(location: string) returns (dir: AutoscanDirectory?)
      ensures var k := FindLocation(View(), location);
        if k < 0 then dir == null else dir == list[k] && dir != null
    {
      var k := IndexOfLocation(location);
      return if k < 0 then null else list[k];
    }

    method GetByObjectID(objectID: int) returns (dir: AutoscanDirectory?)
      ensures var k := FindObject(View(), objectID);
        if k < 0 then dir == null else dir == list[k] && dir != null
    {
      var k := IndexOfObject(objectID);
      return if k < 0 then null else list[k];
    }

    method IndexOfLocation(location: string) returns (k: int)
      ensures k == FindLocation(View(), location)
    {
      k := 0;
      while k < |list|
        invariant 0 <= k <= |list|
        invariant forall j :: 0 <= j < k && list[j] != null ==> list[j].location != location
      {
        if list[k] != null && list[k].location == location {
          assert View()[k].value.location == location;
          return;
        }
        k := k + 1;
      }
      k := -1;
    }

    method IndexOfObject(objectID: int) returns (k: int)
      ensures k == FindObject(View(), objectID)
    {
      k := 0;
      while k < |list|
        invariant 0 <= k <= |list|
        invariant forall j :: 0 <= j < k && list[j] != null ==> list[j].objectID != objectID
      {
        if list[k] != null && list[k].objectID == objectID {
          assert View()[k].value.objectID == objectID;
          return;
        }
        k := k + 1;
      }
      k := -1;
    }

    /** Takes the directory in slot `i` out. */
    method Vacate(i: nat, dir: AutoscanDirectory)
      requires i < |list| && list[i] == dir
      modifies this, dir`scanID, dir.timerParameter
      ensures View() == Clear(old(View()), i)
      ensures forall j :: 0 <= j < |list| ==> list[j] == if j == i then null else old(list)[j]
      ensures dir.scanID == INVALID_SCAN_ID == dir.timerParameter.id
      ensures old(ValidExcept(i)) ==> Valid()
    {
      hide AutoscanDirectory.GetSettings;
      ghost var m := View();
      dir.SetScanID(INVALID_SCAN_ID);
      if i == |list| - 1 {
        list := list[..i];
      } else {
        list := list[i := null];
      }
      assert View() == Clear(m, i);
      if DistinctLocations(m) {
        ClearKeeps(m, i);
      }
    }

    /** The source dereferences the slot, so the caller must know that it is occupied. */
    method Remove(id: int)
      requires 0 <= id < |list| ==> list[id] != null
      modifies this, if 0 <= id < |list| then {list[id]} else {}
      modifies if 0 <= id < |list| && list[id] != null then {list[id].timerParameter} else {}
      ensures View() == Apply(old(View()), Op.Remove(id))
      ensures 0 <= id < |old(list)| ==> old(list)[id].scanID == INVALID_SCAN_ID
      ensures old(Valid()) ==> Valid()
    {
      if id < 0 || id >= |list| {
        return;
      }
      Vacate(id, list[id]);
    }

    method RemoveByLocation(location: string) returns (id: int)
      modifies this, list, Parameters()
      ensures id == FindLocation(old(View()), location)
      ensures View() == Apply(old(View()), RemoveLocation(location))
      ensures id >= 0 ==> old(list)[id].scanID == INVALID_SCAN_ID
      ensures old(Valid()) ==> Valid()
    {
      hide AutoscanDirectory.GetSettings, Clear, DistinctLocations, SlotsOf;
      id := IndexOfLocation(location);
      if id >= 0 {
        Vacate(id, list[id]);
      }
    }

    method RemoveByObjectID(objectID: int) returns (id: int)
      modifies this, list, Parameters()
      ensures id == FindObject(old(View()), objectID)
      ensures View() == Apply(old(View()), RemoveObject(objectID))
      ensures id >= 0 ==> old(list)[id].scanID == INVALID_SCAN_ID
      ensures old(Valid()) ==> Valid()
    {
      hide AutoscanDirectory.GetSettings, Clear, DistinctLocations, SlotsOf;
      id := IndexOfObject(objectID);
      if id >= 0 {
        Vacate(id, list[id]);
      }
    }

    /** A copy enters the other list, which renumbers it and, through the shared timer parameter, the
        original as well; then it gets the old scan ID back. */
    method CopyInto(dir: AutoscanDirectory, removed: AutoscanList) returns (copy: AutoscanDirectory)
      requires forall k :: 0 <= k < |removed.list| ==> removed.list[k] != null
      requires !HasLocation(removed.View(), dir.location)
      modifies removed, dir.timerParameter
      ensures removed.list == old(removed.list) + [copy] && fresh(copy)
      ensures copy.GetSettings() == old(dir.GetSettings()) && copy.scanID == old(dir.scanID)
      ensures copy.timerParameter == dir.timerParameter
    {
      hide AutoscanDirectory.GetSettings, Place, DistinctLocations, SlotsOf, FreeSlot, HasLocation;
      NoHole(removed.View());
      copy := new AutoscanDirectory.Blank();
      dir.CopyTo(copy);
      var added := removed.Add(copy);
      copy.SetScanID(dir.scanID);
    }

    /** One removal of removeIfSubdir. */
    method SweepOut(i: nat, dir: AutoscanDirectory, removed: AutoscanList,
                    ghost m: Slots, ghost t: seq<TimerParameter?>, ghost g: seq<nat>)
      returns (copy: AutoscanDirectory)
      requires Valid() && i < |list| && list[i] == dir && removed != this
      requires |m| == |t| && AreCopies(removed.list, m, t, g)
      requires i < |m| && m[i] == Some(dir.GetSettings()) && t[i] == dir.timerParameter
      requires DistinctLocations(m) && forall k :: 0 <= k < |g| ==> g[k] < i
      modifies this, removed, dir`scanID, dir.timerParameter
      ensures Valid() && View() == Clear(old(View()), i)
      ensures forall j :: 0 <= j < |list| ==> list[j] == if j == i then null else old(list)[j]
      ensures AreCopies(removed.list, m, t, g + [i])
      ensures removed.list == old(removed.list) + [copy] && fresh(copy)
      ensures dir.scanID == INVALID_SCAN_ID
    {
      hide AutoscanDirectory.GetSettings, Clear, DistinctLocations, HasLocation, SlotsOf;
      ValidButOne(i);
      NoSuchCopy(removed, m, t, g, i);
      copy := CopyInto(dir, removed);
      Vacate(i, dir);
    }

    lemma ValidButOne(i: nat)
      requires Valid() && i < |list| && list[i] != null
      ensures ValidExcept(i) && list[i].timerParameter.id == i
    {
    }

    lemma NoSuchCopy(removed: AutoscanList, m: Slots, t: seq<TimerParameter?>, g: seq<nat>, i: nat)
      requires |m| == |t| && AreCopies(removed.list, m, t, g) && DistinctLocations(m)
      requires i < |m| && m[i].Some? && forall k :: 0 <= k < |g| ==> g[k] < i
      ensures !HasLocation(removed.View(), m[i].value.location)
    {
    }

    /** The directories of `l` that are still in the list stand where they stood, with their own timer
        parameters. */
    ghost predicate Kept(l: seq<AutoscanDirectory?>, t: seq<TimerParameter?>)
      requires |l| == |t|
      reads this, list
    {
      |list| <= |l| &&
      forall j :: 0 <= j < |list| && list[j] != null ==> list[j] == l[j] && list[j].timerParameter == t[j]
    }

    /** The directories of the first `n` slots that go have lost their scan IDs. */
    ghost predicate Marked(m: Slots, l: seq<AutoscanDirectory?>, n: nat, parent: string, persistent: bool)
      requires n <= |m| == |l|
      reads l
    {
      forall j :: 0 <= j < n && Goes(m[j], parent, persistent) ==> l[j] != null && l[j].scanID == INVALID_SCAN_ID
    }

    /** One pass of the loop of removeIfSubdir. */
    method SweepSlot(i: nat, parent: string, persistent: bool, removed: AutoscanList, ghost m: Slots,
                     ghost l: seq<AutoscanDirectory?>, ghost t: seq<TimerParameter?>)
      returns (copy: AutoscanDirectory?)
      requires Valid() && i < |list| <= |m| && removed != this && |m| == |l| == |t|
      requires View() == SweepFirst(m, i, parent, persistent) && Kept(l, t) && DistinctLocations(m)
      requires Marked(m, l, i, parent, persistent)
      requires AreCopies(removed.list, m, t, Gone(m, i, parent, persistent))
      modifies this, removed
      modifies if list[i] == null then {} else {list[i]}, if list[i] == null then {} else {list[i].timerParameter}
      ensures Marked(m, l, i + 1, parent, persistent)
      ensures Valid() && View() == SweepFirst(m, i + 1, parent, persistent) && Kept(l, t)
      ensures AreCopies(removed.list, m, t, Gone(m, i + 1, parent, persistent))
      ensures if copy == null then removed.list == old(removed.list)
              else fresh(copy) && removed.list == old(removed.list) + [copy]
    {
      hide AutoscanDirectory.GetSettings, SweepFirst, Gone, Clear, DistinctLocations, AreCopies, Valid, View, SlotsOf;
      SweepStep(m, i, parent, persistent);
      copy := null;
      assert m[i] == View()[i];
      if list[i] == null || !(parent <= list[i].location) {
        return;
      }
      var dir := list[i];
      if dir.options.persistent && !persistent {
        return;
      }
      copy := SweepOut(i, dir, removed, m, t, Gone(m, i, parent, persistent));
    }

    /** The list returned holds copies of exactly the directories that go, with the scan IDs they had;
        each shares its timer parameter, whose ID is invalid by now, with the original. */
    method RemoveIfSubdir(parent: string, persistent: bool) returns (removed: AutoscanList)
      requires Valid()
      modifies this, list, Parameters()
      ensures Valid() && View() == Sweep(old(View()), parent, persistent)
      ensures Kept(old(list), old(ParametersOf(list)))
      ensures fresh(removed) && forall k :: 0 <= k < |removed.list| ==> fresh(removed.list[k])
      ensures AreCopies(removed.list, old(View()), old(ParametersOf(list)),
                        Gone(old(View()), |old(list)|, parent, persistent))
      ensures Marked(old(View()), old(list), |old(list)|, parent, persistent)
    {
      hide AutoscanDirectory.GetSettings, SweepFirst, Gone, Clear, DistinctLocations, AreCopies, Kept, Marked, Valid,
           View, SlotsOf, ParametersOf, Goes;
      ValidDistinct();
      SweepStart(View(), parent, persistent);
      removed := new AutoscanList();
      ghost var m, l, t := View(), list, ParametersOf(list);
      ghost var made: set<AutoscanDirectory?> := {};
      NoCopies(m, t);
      KeptAtFirst();
      NoneMarked(m, l, parent, persistent);
      var i := 0;
      while i < |list|
        invariant 0 <= i <= |m| && View() == SweepFirst(m, i, parent, persistent)
        invariant Valid() && fresh(removed) && Kept(l, t)
        invariant AreCopies(removed.list, m, t, Gone(m, i, parent, persistent))
        invariant Marked(m, l, i, parent, persistent)
        invariant fresh(made) && forall k :: 0 <= k < |removed.list| ==> removed.list[k] in made
      {
        KeptAt(i, l, t);
        assert list[i] != null ==> list[i] in old(list) && t[i] in old(Parameters());
        var copy := SweepSlot(i, parent, persistent, removed, m, l, t);
        made := made + if copy == null then {} else {copy};
        i := i + 1;
      }
    }

    lemma ValidDistinct()
      requires Valid()
      ensures DistinctLocations(View())
    {
    }

    lemma KeptAt(i: nat, l: seq<AutoscanDirectory?>, t: seq<TimerParameter?>)
      requires |l| == |t| && Kept(l, t) && i < |list|
      ensures i < |l| && (list[i] != null ==> list[i] == l[i] && list[i].timerParameter == t[i])
    {
    }

    lemma NoneMarked(m: Slots, l: seq<AutoscanDirectory?>, parent: string, persistent: bool)
      requires |m| == |l|
      ensures Marked(m, l, 0, parent, persistent)
    {
    }

    lemma KeptAtFirst()
      ensures Kept(list, ParametersOf(list))
    {
    }
  }

  // ---- replacing a directory's options ----

  /** The settings after a user chose new options; the modification times restart when a full scan
      becomes a basic one or starts to cover subdirectories. */
  function Updated(s: Settings, o: Options): Settings {
    var restart := s.options.level == Full && (o.level == Basic || (!s.options.recursive && o.recursive));
    s.(options := o.(persistent := s.options.persistent),
       previousLMT := if restart then 0 else s.previousLMT,
       currentLMT := if restart then 0 else s.currentLMT)
  }

  /** New options change nothing about which removals take the directory out, and nothing about its identity
      and count; the last choice wins. */
  lemma NewOptions(s: Settings, o: Options, p: Options, parent: string, persistent: bool)
    ensures var u := Updated(s, o);
      && (Goes(Some(u), parent, persistent) <==> Goes(Some(s), parent, persistent))
      && u.location == s.location && u.taskCount == s.taskCount
      && u.objectID == s.objectID && u.storageID == s.storageID
      && u.options.mode == o.mode && u.options.level == o.level && u.options.recursive == o.recursive
      && u.options.hidden == o.hidden && u.options.interval == o.interval
      && Updated(u, p).options == Updated(s, p).options
  {
  }

  /** Replacing slot `i`: the original goes, and the copy takes the free slot. */
  function Replace(m: Slots, i: nat, s: Settings): Slots
    requires i < |m|
  {
    Place(Clear(m, i), s)
  }

  /** The replaced directory keeps its scan ID exactly when there is no hole above it and, in the last
      slot, no hole at all.  The other directories always keep theirs. */
  lemma ReplaceKeepsSlot(m: Slots, i: nat, s: Settings)
    requires DistinctLocations(m) && i < |m| && m[i].Some? && s.location == m[i].value.location
    ensures DistinctLocations(Replace(m, i, s)) && !HasLocation(Clear(m, i), s.location)
    ensures FreeSlot(Clear(m, i)) < |Replace(m, i, s)| && Replace(m, i, s)[FreeSlot(Clear(m, i))] == Some(s)
    ensures FreeSlot(Clear(m, i)) == i <==>
              forall j :: 0 <= j < |m| && (j > i || i == |m| - 1) ==> m[j].Some?
    ensures forall j :: 0 <= j < |m| && j != i && m[j].Some? ==>
              j < |Replace(m, i, s)| && Replace(m, i, s)[j] == m[j]
  {
    ClearKeeps(m, i);
    var r := Clear(m, i);
    assert !HasLocation(r, s.location) by {
      forall j | 0 <= j < |r| && r[j].Some?
        ensures r[j].value.location != s.location
      {
        assert j != i && r[j] == m[j];
        assert j < i ==> m[j].value.location != m[i].value.location;
        assert i < j ==> m[i].value.location != m[j].value.location;
      }
    }
    PlaceKeeps(r, s);
    ReplacedSlot(m, i);
  }

  lemma ReplacedSlot(m: Slots, i: nat)
    requires i < |m| && m[i].Some?
    ensures FreeSlot(Clear(m, i)) == i <==>
              forall j :: 0 <= j < |m| && (j > i || i == |m| - 1) ==> m[j].Some?
  {
    var r := Clear(m, i);
    var h := LastHole(r);
    if i == |m| - 1 {
      assert forall j :: 0 <= j < |r| ==> r[j] == m[j];
      assert FreeSlot(r) == i <==> h == -1;
    } else {
      assert r[i] == None && i <= h;
      assert forall j :: i < j < |r| ==> r[j] == m[j];
      assert h > i ==> m[h] == None;
    }
  }

  /** Changing the options of a timed directory: a copy replaces it.  The copy shares the timer
      parameter, which the removal invalidates and the addition sets again; the addition cannot fail,
      because the only directory with this location has just gone. */
  method SetAutoscanDirectory(timed: AutoscanList, original: AutoscanDirectory, chosen: Options)
    returns (copy: AutoscanDirectory)
    requires timed.Valid() && original in timed.list && chosen.mode == Timed
    modifies timed, original`scanID, original.timerParameter
    ensures timed.Valid() && fresh(copy)
    ensures original.scanID == INVALID_SCAN_ID && copy.timerParameter == original.timerParameter
    ensures 0 <= old(original.scanID) < |old(timed.list)|
    ensures copy.GetSettings() == Updated(old(original.GetSettings()), chosen)
    ensures timed.View() == Replace(old(timed.View()), old(original.scanID), copy.GetSettings())
    ensures copy.scanID == FreeSlot(Clear(old(timed.View()), old(original.scanID)))
    ensures 0 <= copy.scanID < |timed.list| && timed.list[copy.scanID] == copy
  {
    hide DistinctLocations, Place, Clear, Updated, FreeSlot;
    ghost var m := timed.View();
    var id := original.scanID;
    assert timed.ValidExcept(id) && m[id] == Some(original.GetSettings());
    copy := CopyWith(original, chosen);
    UpdatedLocation(original.GetSettings(), chosen);
    ReplaceKeepsSlot(m, id, copy.GetSettings());
    timed.Vacate(id, original);
    assert timed.Foreign(copy);
    var added := timed.Add(copy);
  }

  lemma UpdatedLocation(s: Settings, o: Options)
    ensures Updated(s, o).location == s.location
  {
  }

  method CopyWith(original: AutoscanDirectory, chosen: Options) returns (copy: AutoscanDirectory)
    ensures fresh(copy) && copy.GetSettings() == Updated(original.GetSettings(), chosen)
    ensures copy.timerParameter == original.timerParameter && copy.scanID == original.scanID
  {
    copy := new AutoscanDirectory.Blank();
    original.CopyTo(copy);
    if copy.options.level == Full && chosen.level == Basic {
      copy.options := copy.options.(level := Basic);
      copy.ResetLMT();
    } else if copy.options.level == Full && chosen.level == Full && !copy.options.recursive && chosen.recursive {
      copy.ResetLMT();
    }
    copy.options := copy.options.(level := chosen.level, hidden := chosen.hidden,
                                  recursive := chosen.recursive, interval := chosen.interval, mode := chosen.mode);
  }
}
