/** The protocol by which a container is removed while rescans may be running.

    removeObject first takes the autoscan directories below the container out of the registry, which
    invalidates their scan IDs; then, under the content manager's lock, it invalidates the queued and
    the running tasks that add files below the container; then it queues the task that deletes the
    container.  A rescan that is under way holds its directory object, not its slot.  It looks at the
    scan ID before every entry, and once more under the lock before it queues a task for a new
    subdirectory.  Such a task adds whole trees of files, and looks at its own validity before each. */
module Removal {
  import opened Wrappers
  import opened Autoscan
  import opened Scheduler

  datatype Stage = Begun | Invalidated | Queued

  /** One call of removeObject on a container: its path and the directories it took out. */
  datatype Call = Call(path: string, swept: set<nat>, stage: Stage)

  /** The worker: at the top of its loop; with a task in hand; in a rescan, which finds its directory
      object, reads that object's scan ID, looks the ID up again and scans entry by entry; in a task that
      adds files, before an entry; or between two entries of such a task, and in any other task. */
  datatype Worker =
    | Idle
    | Holding
    | Found(dir: nat)
    | HasID(id: int)
    | Scanning(dir: nat)
    | Checked(dir: nat)
    | Adding
    | InTask

  /** What happens to the database: a file is added on behalf of a directory, or a container goes. */
  datatype Event = FileAdded(origin: nat, path: string) | ContainerRemoved(call: nat)

  /** `dirs` and `ids` are the directory objects with their scan IDs; `slots` is the registry. */
  datatype State = State(q: Queues, worker: Worker, dirs: seq<Settings>, ids: seq<int>,
                         slots: seq<Option<nat>>, calls: seq<Call>, log: seq<Event>)

  datatype Action =
    // clients
    | AddDirectory(settings: Settings)
    | FreeDirectory(slot: nat)
    | AddFileTask(path: string, low: bool)
    | Rescan(slot: nat, location: string)
    | BeginRemove(path: string)
    | InvalidateAdds(call: nat)
    | QueueRemove(call: nat)
    | CancelFamily(id: nat)
    // the worker
    | FetchTask
    | Start
    | ReadScanID
    | LookUp
    | CheckEntry
    | CheckTask
    | AddEntry(path: string)
    | SpawnAdd(path: string)
    | SpawnRescan(location: string)
    | SkipEntry
    | EndTask

  // ---- the registry ----

  predicate Sweeps(s: State, slot: Option<nat>, path: string) {
    slot.Some? && slot.value < |s.dirs| && Goes(Some(s.dirs[slot.value]), path, false)
  }

  function SweptDirs(s: State, path: string): set<nat> {
    set i | 0 <= i < |s.slots| && Sweeps(s, s.slots[i], path) :: s.slots[i].value
  }

  /** The registry after removeIfSubdir. */
  function SweptSlots(s: State, path: string): (r: seq<Option<nat>>)
    ensures |r| <= |s.slots|
    ensures forall i :: 0 <= i < |r| ==> r[i] == s.slots[i] || r[i] == None
  {
    var n := |s.slots|;
    var r := seq(n, i requires 0 <= i < n => if Sweeps(s, s.slots[i], path) then None else s.slots[i]);
    if n > 0 && Sweeps(s, s.slots[n - 1], path) then r[..n - 1] else r
  }

  function SettingsOf(s: State, slots: seq<Option<nat>>): Slots
    requires forall i :: 0 <= i < |slots| && slots[i].Some? ==> slots[i].value < |s.dirs|
  {
    seq(|slots|, i requires 0 <= i < |slots| =>
      if slots[i].Some? then Some(s.dirs[slots[i].value]) else None)
  }

  /** This is what the loop of removeIfSubdir makes of the registry. */
  lemma SweptIsSweep(s: State, path: string)
    requires forall i :: 0 <= i < |s.slots| && s.slots[i].Some? ==> s.slots[i].value < |s.dirs|
    ensures SettingsOf(s, SweptSlots(s, path)) == Sweep(SettingsOf(s, s.slots), path, false)
  {
    hide Sweep;
    SweepIsExact(SettingsOf(s, s.slots), path, false);
    SweepLength(SettingsOf(s, s.slots), path, false);
  }

  function Invalid(ids: seq<int>, gone: set<nat>): (r: seq<int>)
    ensures |r| == |ids|
    ensures forall d :: 0 <= d < |r| ==> r[d] == if d in gone then INVALID_SCAN_ID else ids[d]
  {
    seq(|ids|, d requires 0 <= d < |ids| => if d in gone then INVALID_SCAN_ID else ids[d])
  }

  // ---- steps ----

  predicate IsRescan(current: Option<Task>) {
    current.Some? && current.value.job.RescanDirectory?
  }

  predicate IsAdd(current: Option<Task>) {
    current.Some? && current.value.job.AddFile?
  }

  /** The directory on whose behalf a task adds files. */
  function OriginOf(job: Job): Option<nat> {
    match job
    case AddFile(_, origin) => origin
    case RescanDirectory(_, _, root) => Some(root)
    case _ => None
  }

  predicate Enabled(s: State, a: Action) {
    match a
    case AddDirectory(settings) => !HasLocation(KnownSettings(s), settings.location)
    case FreeDirectory(slot) => slot < |s.slots| && s.slots[slot].Some?
    case AddFileTask(_, _) => true
    case Rescan(slot, location) =>
      // storage knows the container of a directory below the directory's location
      slot < |s.slots| && s.slots[slot].Some? && s.slots[slot].value < |s.dirs| &&
      s.dirs[s.slots[slot].value].location <= location
    case BeginRemove(_) => true
    case InvalidateAdds(c) => c < |s.calls| && s.calls[c].stage == Begun
    case QueueRemove(c) => c < |s.calls| && s.calls[c].stage == Invalidated
    case CancelFamily(_) => true
    case FetchTask => s.worker == Idle
    case Start => s.worker == Holding && s.q.current.Some?
    case ReadScanID => s.worker.Found? && s.worker.dir < |s.ids|
    case LookUp => s.worker.HasID?
    case CheckEntry => s.worker.Scanning? && s.worker.dir < |s.ids|
    case CheckTask => s.worker.InTask? && IsAdd(s.q.current)
    case AddEntry(path) =>
      || (s.worker.Checked? && IsRescan(s.q.current) && s.q.current.value.job.location <= path)
      || (s.worker.Adding? && IsAdd(s.q.current) && s.q.current.value.job.path <= path)
    case SpawnAdd(path) =>
      s.worker.Checked? && s.worker.dir < |s.ids| && IsRescan(s.q.current) && s.q.current.value.job.location <= path
    case SpawnRescan(location) =>
      s.worker.Checked? && IsRescan(s.q.current) && s.q.current.value.job.location <= location
    case SkipEntry => s.worker.Checked? || s.worker.Adding?
    case EndTask => s.worker.InTask? || s.worker.Scanning?
  }

  function KnownSettings(s: State): Slots {
    seq(|s.slots|, i requires 0 <= i < |s.slots| =>
      if s.slots[i].Some? && s.slots[i].value < |s.dirs| then Some(s.dirs[s.slots[i].value]) else None)
  }

  /** The directory object in a slot. */
  function At(slots: seq<Option<nat>>, id: int): Option<nat> {
    if 0 <= id < |slots| then slots[id] else None
  }

  function StartTask(s: State, t: Task): State {
    if !t.valid then s.(worker := Idle)
    else
      match t.job
      case AddFile(_, _) => s.(worker := Adding)
      case RescanDirectory(slot, _, _) =>
        var d := At(s.slots, slot);
        s.(worker := if d.Some? then Found(d.value) else Idle)
      case RemoveObject(c) => s.(worker := InTask, log := s.log + [ContainerRemoved(c)])
      case Other => s.(worker := InTask)
  }

  /** After an entry. */
  function Onwards(worker: Worker): Worker {
    if worker.Checked? then Scanning(worker.dir) else InTask
  }

  /** A file that a user adds has no origin, and is not recorded. */
  function LogAddition(s: State, origin: Option<nat>, path: string): State {
    if origin.Some? then s.(log := s.log + [FileAdded(origin.value, path)]) else s
  }

  function Apply(s: State, a: Action): State
    requires Enabled(s, a)
  {
    match a
    case AddDirectory(settings) =>
      s.(dirs := s.dirs + [settings], ids := s.ids + [FreeSlot(s.slots)], slots := Place(s.slots, |s.dirs|))
    case FreeDirectory(slot) =>
      s.(ids := Invalid(s.ids, {s.slots[slot].value}), slots := Clear(s.slots, slot))
    case AddFileTask(path, low) => s.(q := Enqueue(s.q, AddFile(path, None), 0, low))
    case Rescan(slot, location) =>
      s.(q := Enqueue(s.q, RescanDirectory(slot, location, s.slots[slot].value), 0, true))
    case BeginRemove(path) =>
      s.(ids := Invalid(s.ids, SweptDirs(s, path)), slots := SweptSlots(s, path),
         calls := s.calls + [Call(path, SweptDirs(s, path), Begun)])
    case InvalidateAdds(c) =>
      s.(q := AddTasksInvalidated(s.q, s.calls[c].path), calls := s.calls[c := s.calls[c].(stage := Invalidated)])
    case QueueRemove(c) =>
      s.(q := Enqueue(s.q, Job.RemoveObject(c), 0, false), calls := s.calls[c := s.calls[c].(stage := Queued)])
    case CancelFamily(id) => s.(q := TaskInvalidated(s.q, id))
    case FetchTask =>
      var q := Fetch(s.q);
      s.(q := q, worker := if q.current.Some? then Holding else Idle)
    case Start => StartTask(s, s.q.current.value)
    case ReadScanID =>
      var id := s.ids[s.worker.dir];
      s.(worker := if id == INVALID_SCAN_ID then Idle else HasID(id))
    case LookUp =>
      // a missing directory here is the source's "this should never happen" exception
      var d := At(s.slots, s.worker.id);
      s.(worker := if d.Some? then Scanning(d.value) else Idle)
    case CheckEntry =>
      s.(worker := if s.ids[s.worker.dir] == INVALID_SCAN_ID then Idle else Checked(s.worker.dir))
    case CheckTask => s.(worker := if s.q.current.value.valid then Adding else Idle)
    case AddEntry(path) => LogAddition(s.(worker := Onwards(s.worker)), OriginOf(s.q.current.value.job), path)
    case SpawnAdd(path) =>
      var t := s.q.current.value;
      if s.ids[s.worker.dir] == INVALID_SCAN_ID then s.(worker := Idle)
      else s.(worker := Scanning(s.worker.dir), q := Enqueue(s.q, AddFile(path, Some(t.job.root)), t.id, true))
    case SpawnRescan(location) =>
      var t := s.q.current.value;
      s.(worker := Scanning(s.worker.dir),
         q := Enqueue(s.q, RescanDirectory(t.job.slot, location, t.job.root), 0, true))
    case SkipEntry => s.(worker := Onwards(s.worker))
    case EndTask => s.(worker := Idle)
  }

  function Init(): State {
    State.State(Queues([], [], None, 1), Idle, [], [], [], [], [])
  }

  /** A rescan that waits or is under way. */
  predicate Pending(q: Queues, worker: Worker, t: Task) {
    t.job.RescanDirectory? && (t in q.high || t in q.low || (q.current == Some(t) && worker != Idle))
  }

  /** Some call took the directory out. */
  ghost predicate IsTakenOut(calls: seq<Call>, d: nat) {
    exists c :: 0 <= c < |calls| && d in calls[c].swept
  }

  /** A new directory takes the slot of a pending rescan only if that rescan's directory was not taken out
      by a removal: it may have been removed by itself, or replaced with other options. */
  ghost predicate NoReuse(s: State, a: Action) {
    a.AddDirectory? ==>
      forall t :: Pending(s.q, s.worker, t) && t.job.slot == FreeSlot(s.slots) ==> !IsTakenOut(s.calls, t.job.root)
  }

  // ---- the invariant ----

  /** A registered directory's scan ID is its slot; the scan ID of any other is invalid. */
  ghost predicate RegistryOk(dirs: seq<Settings>, ids: seq<int>, slots: seq<Option<nat>>) {
    && |ids| == |dirs|
    && (forall i :: 0 <= i < |slots| && slots[i].Some? ==> slots[i].value < |ids| && ids[slots[i].value] == i)
    && (forall d :: 0 <= d < |ids| && ids[d] != INVALID_SCAN_ID ==> At(slots, ids[d]) == Some(d))
  }

  /** The directories that a call took out lie below its path and keep an invalid scan ID for ever. */
  ghost predicate CallOk(dirs: seq<Settings>, ids: seq<int>, call: Call) {
    forall d :: d in call.swept ==>
      d < |dirs| && d < |ids| && ids[d] == INVALID_SCAN_ID && call.path <= dirs[d].location
  }

  ghost predicate CallsOk(dirs: seq<Settings>, ids: seq<int>, calls: seq<Call>) {
    forall c :: 0 <= c < |calls| ==> CallOk(dirs, ids, calls[c])
  }

  /** The directory has left the registry, but no removal took it out, and none ever will. */
  ghost predicate Freed(ids: seq<int>, calls: seq<Call>, d: nat) {
    d < |ids| && ids[d] == INVALID_SCAN_ID && !IsTakenOut(calls, d)
  }

  /** A pending rescan finds in its slot the directory it was created for, or nothing; unless that
      directory was freed otherwise than by a removal. */
  ghost predicate RescanOk(dirs: seq<Settings>, ids: seq<int>, slots: seq<Option<nat>>, calls: seq<Call>, t: Task) {
    t.job.RescanDirectory? ==>
      && t.job.root < |dirs| && dirs[t.job.root].location <= t.job.location
      && t.job.slot >= 0 && t.job.root < |ids| && ids[t.job.root] in {INVALID_SCAN_ID, t.job.slot}
      && (At(slots, t.job.slot).Some? ==> WorksFor(ids, calls, At(slots, t.job.slot).value, t.job.root))
  }

  /** A scan for `root` may run under the scan ID of `d`. */
  ghost predicate WorksFor(ids: seq<int>, calls: seq<Call>, d: nat, root: nat) {
    d == root || Freed(ids, calls, root)
  }

  ghost predicate RescansOk(q: Queues, worker: Worker, dirs: seq<Settings>, ids: seq<int>, slots: seq<Option<nat>>,
                            calls: seq<Call>)
  {
    forall t :: Pending(q, worker, t) ==> RescanOk(dirs, ids, slots, calls, t)
  }

  /** The running rescan works for the directory it was created for. */
  ghost predicate WorkerOk(worker: Worker, current: Option<Task>, ids: seq<int>, calls: seq<Call>) {
    match worker
    case Idle => true
    case InTask => current.Some? && !IsRescan(current)
    case Adding => IsAdd(current)
    case Holding => current.Some?
    case Found(d) =>
      && IsRescan(current) && WorksFor(ids, calls, d, current.value.job.root)
      && d < |ids| && ids[d] in {INVALID_SCAN_ID, current.value.job.slot}
    case HasID(id) => IsRescan(current) && id == current.value.job.slot
    case Scanning(d) => IsRescan(current) && WorksFor(ids, calls, d, current.value.job.root) && d < |ids|
    case Checked(d) => IsRescan(current) && WorksFor(ids, calls, d, current.value.job.root) && d < |ids|
  }

  /** A task that a rescan created adds a file below its directory; once a call has invalidated such
      tasks, it is not valid if the call took its directory out. */
  ghost predicate AddOk(dirs: seq<Settings>, calls: seq<Call>, t: Task) {
    t.job.AddFile? && t.job.origin.Some? ==>
      && t.job.origin.value < |dirs| && dirs[t.job.origin.value].location <= t.job.path
      && (t.valid ==> forall c :: 0 <= c < |calls| && calls[c].stage != Begun ==> t.job.origin.value !in calls[c].swept)
  }

  ghost predicate AddsOk(q: Queues, dirs: seq<Settings>, calls: seq<Call>) {
    forall t :: Knows(q, t) ==> AddOk(dirs, calls, t)
  }

  /** A removal task belongs to a call that has queued it. */
  ghost predicate RemovesOk(q: Queues, calls: seq<Call>) {
    forall t :: Knows(q, t) && t.job.RemoveObject? ==> IsQueued(calls, t.job.removal)
  }

  ghost predicate IsQueued(calls: seq<Call>, c: nat) {
    c < |calls| && calls[c].stage == Queued
  }

  /** The directory `d` belongs to no call whose container is already gone. */
  ghost predicate Survives(log: seq<Event>, calls: seq<Call>, d: nat) {
    forall k :: 0 <= k < |log| && log[k].ContainerRemoved? && log[k].call < |calls| ==> d !in calls[log[k].call].swept
  }

  /** Whoever files are being added for survives. */
  ghost predicate ScanOk(worker: Worker, current: Option<Task>, log: seq<Event>, calls: seq<Call>) {
    (worker.Scanning? || worker.Checked? || worker.Adding? || worker.InTask?) &&
    current.Some? && OriginOf(current.value.job).Some?
    ==> Survives(log, calls, OriginOf(current.value.job).value)
  }

  /** Containers go only after their call has queued the removal; and no file is added for a directory
      after its container went. */
  ghost predicate LogOk(log: seq<Event>, calls: seq<Call>) {
    forall l :: 0 <= l < |log| ==>
      && (log[l].ContainerRemoved? ==> IsQueued(calls, log[l].call))
      && (log[l].FileAdded? ==> Survives(log[..l], calls, log[l].origin))
  }

  ghost predicate Inv(s: State) {
    && RegistryOk(s.dirs, s.ids, s.slots)
    && CallsOk(s.dirs, s.ids, s.calls)
    && RescansOk(s.q, s.worker, s.dirs, s.ids, s.slots, s.calls)
    && WorkerOk(s.worker, s.q.current, s.ids, s.calls)
    && AddsOk(s.q, s.dirs, s.calls)
    && RemovesOk(s.q, s.calls)
    && ScanOk(s.worker, s.q.current, s.log, s.calls)
    && LogOk(s.log, s.calls)
  }

  lemma InvInit()
    ensures Inv(Init())
  {
  }

  // ---- the parts of the invariant when something grows ----

  lemma MoreDirs(s: State, d: Settings, id: int)
    requires Inv(s)
    ensures CallsOk(s.dirs + [d], s.ids + [id], s.calls)
    ensures WorkerOk(s.worker, s.q.current, s.ids + [id], s.calls)
    ensures AddsOk(s.q, s.dirs + [d], s.calls)
  {
  }

  lemma AddDirectoryKeeps(s: State, settings: Settings)
    requires Inv(s) && Enabled(s, AddDirectory(settings)) && NoReuse(s, AddDirectory(settings))
    ensures Inv(Apply(s, AddDirectory(settings)))
  {
    hide CallsOk, AddsOk, WorkerOk, RemovesOk, ScanOk, LogOk;
    var r := Apply(s, AddDirectory(settings));
    MoreDirs(s, settings, FreeSlot(s.slots));
    assert RegistryOk(r.dirs, r.ids, r.slots);
    forall t | Pending(s.q, s.worker, t)
      ensures RescanOk(r.dirs, r.ids, r.slots, r.calls, t)
    {
      FreeSlotIsNobodys(s, t);
    }
  }

  /** The directory of a pending rescan whose slot is free is not registered. */
  lemma FreeSlotIsNobodys(s: State, t: Task)
    requires Inv(s) && Pending(s.q, s.worker, t)
    ensures RescanOk(s.dirs, s.ids, s.slots, s.calls, t)
    ensures t.job.slot == FreeSlot(s.slots) ==> s.ids[t.job.root] == INVALID_SCAN_ID
    ensures t.job.slot != FreeSlot(s.slots) ==> At(Place(s.slots, |s.dirs|), t.job.slot) == At(s.slots, t.job.slot)
  {
    hide CallsOk, AddsOk, WorkerOk, RemovesOk, ScanOk, LogOk, IsTakenOut;
  }

  /** Directories leave the registry and lose their scan IDs. */
  lemma Unregister(s: State, gone: set<nat>, slots: seq<Option<nat>>)
    requires Inv(s) && |slots| <= |s.slots|
    requires forall i :: 0 <= i < |slots| ==> slots[i] == s.slots[i] || slots[i] == None
    requires forall i :: 0 <= i < |s.slots| && s.slots[i].Some? ==> (At(slots, i) == None <==> s.slots[i].value in gone)
    ensures var ids := Invalid(s.ids, gone);
      && RegistryOk(s.dirs, ids, slots) && CallsOk(s.dirs, ids, s.calls)
  {
    var ids := Invalid(s.ids, gone);
    forall c | 0 <= c < |s.calls|
      ensures CallOk(s.dirs, ids, s.calls[c])
    {
      assert CallOk(s.dirs, s.ids, s.calls[c]);
    }
    forall d | 0 <= d < |ids| && ids[d] != INVALID_SCAN_ID
      ensures At(slots, ids[d]) == Some(d)
    {
      assert s.slots[s.ids[d]] == Some(d);
    }
  }

  /** What a rescan knows when directories leave the registry, through a call or without one. */
  lemma UnregisterRescans(s: State, gone: set<nat>, slots: seq<Option<nat>>, calls: seq<Call>)
    requires Inv(s) && |slots| <= |s.slots|
    requires forall i :: 0 <= i < |slots| ==> slots[i] == s.slots[i] || slots[i] == None
    requires forall d: nat :: IsTakenOut(calls, d) ==> IsTakenOut(s.calls, d) || d in gone
    requires forall d: nat :: d in gone ==> d < |s.ids| && s.ids[d] != INVALID_SCAN_ID
    ensures var ids := Invalid(s.ids, gone);
      RescansOk(s.q, s.worker, s.dirs, ids, slots, calls) && WorkerOk(s.worker, s.q.current, ids, calls)
  {
    hide IsTakenOut, CallsOk, AddsOk, RemovesOk, ScanOk, LogOk;
    var ids := Invalid(s.ids, gone);
    assert forall d, root: nat :: WorksFor(s.ids, s.calls, d, root) ==> WorksFor(ids, calls, d, root);
    forall t | Pending(s.q, s.worker, t)
      ensures RescanOk(s.dirs, ids, slots, calls, t)
    {
      assert RescanOk(s.dirs, s.ids, s.slots, s.calls, t);
    }
  }

  lemma FreeKeeps(s: State, slot: nat)
    requires Inv(s) && Enabled(s, FreeDirectory(slot))
    ensures Inv(Apply(s, FreeDirectory(slot)))
  {
    hide CallsOk, AddsOk, WorkerOk, RemovesOk, ScanOk, LogOk, RescansOk, IsTakenOut;
    var d := s.slots[slot].value;
    var slots := Clear(s.slots, slot);
    forall i | 0 <= i < |s.slots| && s.slots[i].Some?
      ensures At(slots, i) == None <==> s.slots[i].value == d
    {
      assert s.ids[s.slots[i].value] == i && s.ids[d] == slot;
    }
    Unregister(s, {d}, slots);
    UnregisterRescans(s, {d}, slots, s.calls);
  }

  lemma SweptAreOk(s: State, path: string)
    requires RegistryOk(s.dirs, s.ids, s.slots)
    ensures CallOk(s.dirs, Invalid(s.ids, SweptDirs(s, path)), Call(path, SweptDirs(s, path), Begun))
    ensures forall i :: 0 <= i < |s.slots| && s.slots[i].Some? ==>
              (At(SweptSlots(s, path), i) == None <==> s.slots[i].value in SweptDirs(s, path))
    ensures forall d: nat :: d in SweptDirs(s, path) ==> d < |s.ids| && s.ids[d] != INVALID_SCAN_ID
  {
    var gone, slots := SweptDirs(s, path), SweptSlots(s, path);
    forall i | 0 <= i < |s.slots| && s.slots[i].Some?
      ensures At(slots, i) == None <==> s.slots[i].value in gone
    {
      assert s.slots[i].value in gone <==> Sweeps(s, s.slots[i], path);
    }
  }

  /** A new call that has not invalidated anything yet. */
  lemma MoreCalls(s: State, call: Call)
    requires Inv(s) && call.stage == Begun
    ensures AddsOk(s.q, s.dirs, s.calls + [call]) && RemovesOk(s.q, s.calls + [call])
    ensures ScanOk(s.worker, s.q.current, s.log, s.calls + [call]) && LogOk(s.log, s.calls + [call])
    ensures forall d: nat :: IsTakenOut(s.calls + [call], d) ==> IsTakenOut(s.calls, d) || d in call.swept
  {
    var calls := s.calls + [call];
    forall t | Knows(s.q, t)
      ensures AddOk(s.dirs, calls, t)
      ensures t.job.RemoveObject? ==> IsQueued(calls, t.job.removal)
    {
      assert AddOk(s.dirs, s.calls, t);
    }
    forall d: nat, l | 0 <= l <= |s.log| && Survives(s.log[..l], s.calls, d)
      ensures Survives(s.log[..l], calls, d)
    {
      forall k | 0 <= k < l && s.log[k].ContainerRemoved?
        ensures d !in calls[s.log[k].call].swept
      {
        assert IsQueued(s.calls, s.log[k].call) && s.log[..l][k] == s.log[k];
      }
    }
    assert s.log == s.log[..|s.log|];
  }

  lemma BeginKeeps(s: State, path: string)
    requires Inv(s)
    ensures Inv(Apply(s, BeginRemove(path)))
  {
    hide AddsOk, WorkerOk, RemovesOk, ScanOk, LogOk, RescansOk, CallOk, RegistryOk, SweptDirs, SweptSlots, IsTakenOut;
    var call := Call(path, SweptDirs(s, path), Begun);
    SweptAreOk(s, path);
    MoreCalls(s, call);
    Unregister(s, SweptDirs(s, path), SweptSlots(s, path));
    UnregisterRescans(s, SweptDirs(s, path), SweptSlots(s, path), s.calls + [call]);
  }

  // ---- the queues ----

  /** A new task that is right by itself. */
  lemma EnqueueKeeps(s: State, job: Job, parent: nat, low: bool)
    requires RescansOk(s.q, s.worker, s.dirs, s.ids, s.slots, s.calls)
    requires AddsOk(s.q, s.dirs, s.calls) && RemovesOk(s.q, s.calls)
    requires var t := Task(s.q.nextID, parent, job, true);
      RescanOk(s.dirs, s.ids, s.slots, s.calls, t) && AddOk(s.dirs, s.calls, t) &&
      (t.job.RemoveObject? ==> IsQueued(s.calls, t.job.removal))
    ensures var q := Enqueue(s.q, job, parent, low);
      && RescansOk(q, s.worker, s.dirs, s.ids, s.slots, s.calls)
      && AddsOk(q, s.dirs, s.calls) && RemovesOk(q, s.calls)
      && q.current == s.q.current
  {
    hide RescanOk, AddOk, IsQueued;
    var q := Enqueue(s.q, job, parent, low);
    var n := Task(s.q.nextID, parent, job, true);
    assert forall t :: Knows(q, t) ==> Knows(s.q, t) || t == n;
    assert forall t :: Pending(q, s.worker, t) ==> Pending(s.q, s.worker, t) || t == n;
  }

  lemma ClientTaskKeeps(s: State, a: Action)
    requires Inv(s) && Enabled(s, a) && (a.AddFileTask? || a.Rescan?)
    ensures Inv(Apply(s, a))
  {
    hide CallsOk, AddsOk, WorkerOk, RemovesOk, ScanOk, LogOk, RescansOk;
    if a.Rescan? {
      EnqueueKeeps(s, RescanDirectory(a.slot, a.location, s.slots[a.slot].value), 0, true);
    } else {
      EnqueueKeeps(s, AddFile(a.path, None), 0, a.low);
    }
  }

  /** A call moves on to its next stage. */
  lemma StageKeeps(s: State, c: nat, stage: Stage)
    requires c < |s.calls| && CallsOk(s.dirs, s.ids, s.calls)
    requires ScanOk(s.worker, s.q.current, s.log, s.calls) && LogOk(s.log, s.calls)
    requires s.calls[c].stage != Queued
    ensures var calls := s.calls[c := s.calls[c].(stage := stage)];
      && CallsOk(s.dirs, s.ids, calls) && ScanOk(s.worker, s.q.current, s.log, calls) && LogOk(s.log, calls)
      && (forall d: nat :: IsTakenOut(calls, d) <==> IsTakenOut(s.calls, d))
  {
    var calls := s.calls[c := s.calls[c].(stage := stage)];
    forall d | 0 <= d < |calls|
      ensures CallOk(s.dirs, s.ids, calls[d])
    {
      assert CallOk(s.dirs, s.ids, s.calls[d]);
    }
    SameSwept(s.log, s.calls, calls);
    forall l | 0 <= l < |s.log| && s.log[l].ContainerRemoved?
      ensures IsQueued(calls, s.log[l].call)
    {
      assert IsQueued(s.calls, s.log[l].call);
    }
  }

  lemma SameSwept(log: seq<Event>, old_: seq<Call>, new_: seq<Call>)
    requires |old_| == |new_| && forall c :: 0 <= c < |old_| ==> old_[c].swept == new_[c].swept
    ensures forall l, d: nat :: 0 <= l <= |log| && Survives(log[..l], old_, d) ==> Survives(log[..l], new_, d)
    ensures forall d: nat :: Survives(log, old_, d) ==> Survives(log, new_, d)
  {
  }

  /** Rescans do not look at the stages. */
  lemma StagesAreNothingToRescans(s: State, calls: seq<Call>)
    requires Inv(s) && forall d: nat :: IsTakenOut(calls, d) <==> IsTakenOut(s.calls, d)
    ensures RescansOk(s.q, s.worker, s.dirs, s.ids, s.slots, calls) && WorkerOk(s.worker, s.q.current, s.ids, calls)
  {
    hide IsTakenOut, CallsOk, AddsOk, RemovesOk, ScanOk, LogOk, RegistryOk;
    assert forall d, root: nat :: WorksFor(s.ids, s.calls, d, root) ==> WorksFor(s.ids, calls, d, root);
    forall t | Pending(s.q, s.worker, t)
      ensures RescanOk(s.dirs, s.ids, s.slots, calls, t)
    {
      assert RescanOk(s.dirs, s.ids, s.slots, s.calls, t);
    }
  }

  lemma QueueRemoveKeeps(s: State, c: nat)
    requires Inv(s) && Enabled(s, QueueRemove(c))
    ensures Inv(Apply(s, QueueRemove(c)))
  {
    hide CallsOk, WorkerOk, ScanOk, LogOk, RescansOk, AddsOk, RemovesOk;
    var calls := s.calls[c := s.calls[c].(stage := Queued)];
    StageKeeps(s, c, Queued);
    StagesAreNothingToRescans(s, calls);
    StageOfTasks(s, c);
    EnqueueKeeps(s.(calls := calls), Job.RemoveObject(c), 0, false);
  }

  lemma StageOfTasks(s: State, c: nat)
    requires Inv(s) && Enabled(s, QueueRemove(c))
    ensures var calls := s.calls[c := s.calls[c].(stage := Queued)];
      AddsOk(s.q, s.dirs, calls) && RemovesOk(s.q, calls)
  {
    var calls := s.calls[c := s.calls[c].(stage := Queued)];
    forall t | Knows(s.q, t)
      ensures AddOk(s.dirs, calls, t)
      ensures t.job.RemoveObject? ==> IsQueued(calls, t.job.removal)
    {
      assert AddOk(s.dirs, s.calls, t);
    }
  }

  /** Invalidating changes nothing but validity. */
  lemma CancelQueuedKeeps(s: State, target: Target)
    requires Inv(s)
    ensures var q := CancelQueued(s.q, target);
      && RescansOk(q, s.worker, s.dirs, s.ids, s.slots, s.calls) && WorkerOk(s.worker, q.current, s.ids, s.calls)
      && AddsOk(q, s.dirs, s.calls) && RemovesOk(q, s.calls) && ScanOk(s.worker, q.current, s.log, s.calls)
  {
    var q := CancelQueued(s.q, target);
    forall t | Knows(q, t)
      ensures AddOk(s.dirs, s.calls, t)
      ensures t.job.RemoveObject? ==> IsQueued(s.calls, t.job.removal)
    {
      CancelKnows(s.q, target, t);
      var o :| Knows(s.q, o) && t == Cancel(o, target);
      assert AddOk(s.dirs, s.calls, o);
    }
    forall t | Pending(q, s.worker, t)
      ensures RescanOk(s.dirs, s.ids, s.slots, s.calls, t)
    {
      CancelledIn(s.q.high, target, t);
      CancelledIn(s.q.low, target, t);
      var o :| Pending(s.q, s.worker, o) && t == Cancel(o, target);
      assert RescanOk(s.dirs, s.ids, s.slots, s.calls, o);
    }
  }

  lemma CancelFamilyKeeps(s: State, id: nat)
    requires Inv(s)
    ensures Inv(Apply(s, CancelFamily(id)))
  {
    hide CallsOk, WorkerOk, ScanOk, LogOk, RescansOk, AddsOk, RemovesOk;
    CancelQueuedKeeps(s, Family(id));
  }

  /** The locked section of a call: the tasks of the directories it took out are below its path, so
      they all become invalid. */
  lemma InvalidateHits(s: State, c: nat)
    requires Inv(s) && Enabled(s, InvalidateAdds(c))
    ensures var r := Apply(s, InvalidateAdds(c)); AddsOk(r.q, r.dirs, r.calls) && RemovesOk(r.q, r.calls)
  {
    var r := Apply(s, InvalidateAdds(c));
    var target := AddsBelow(s.calls[c].path);
    forall t | Knows(r.q, t)
      ensures AddOk(r.dirs, r.calls, t)
      ensures t.job.RemoveObject? ==> IsQueued(r.calls, t.job.removal)
    {
      CancelKnows(s.q, target, t);
      var o :| Knows(s.q, o) && t == Cancel(o, target);
      assert AddOk(s.dirs, s.calls, o);
      assert CallOk(s.dirs, s.ids, s.calls[c]);
      if t.job.AddFile? && t.job.origin.Some? && t.job.origin.value in s.calls[c].swept {
        PrefixTransitive(s.calls[c].path, s.dirs[t.job.origin.value].location, t.job.path);
        assert !t.valid;
      }
    }
  }

  lemma PrefixTransitive(a: string, b: string, c: string)
    requires a <= b <= c
    ensures a <= c
  {
  }

  lemma InvalidateKeeps(s: State, c: nat)
    requires Inv(s) && Enabled(s, InvalidateAdds(c))
    ensures Inv(Apply(s, InvalidateAdds(c)))
  {
    hide CallsOk, WorkerOk, ScanOk, LogOk, RescansOk, AddsOk, RemovesOk, CancelQueued, IsTakenOut, RegistryOk;
    var target := AddsBelow(s.calls[c].path);
    var s1 := s.(q := CancelQueued(s.q, target));
    CancelQueuedKeeps(s, target);
    StageKeeps(s1, c, Invalidated);
    StagesAreNothingToRescans(s1, s.calls[c := s.calls[c].(stage := Invalidated)]);
    InvalidateHits(s, c);
  }

  // ---- actions of the worker ----

  lemma FetchTaskKeeps(s: State)
    requires Inv(s) && Enabled(s, FetchTask)
    ensures Inv(Apply(s, FetchTask))
  {
    hide RescanOk, AddOk, IsQueued, LogOk, CallsOk, RegistryOk;
    var r := Apply(s, FetchTask);
    assert forall t :: Knows(r.q, t) ==> Knows(s.q, t);
    assert forall t :: Pending(r.q, r.worker, t) ==> Pending(s.q, s.worker, t);
  }

  lemma LogGrows(s: State, e: Event)
    requires LogOk(s.log, s.calls)
    requires e.ContainerRemoved? ==> IsQueued(s.calls, e.call)
    requires e.FileAdded? ==> Survives(s.log, s.calls, e.origin)
    ensures LogOk(s.log + [e], s.calls)
  {
    var log := s.log + [e];
    forall l | 0 <= l < |log|
      ensures log[l].ContainerRemoved? ==> IsQueued(s.calls, log[l].call)
      ensures log[l].FileAdded? ==> Survives(log[..l], s.calls, log[l].origin)
    {
      assert log[..l] == s.log[..l];
      if l == |s.log| {
        assert log[..l] == s.log;
      }
    }
  }

  /** A worker that leaves a task or goes on in it. */
  lemma WorkerMoves(s: State, worker: Worker)
    requires Inv(s) && (worker != Idle ==> s.worker != Idle) && WorkerOk(worker, s.q.current, s.ids, s.calls)
    requires ScanOk(worker, s.q.current, s.log, s.calls)
    ensures Inv(s.(worker := worker))
  {
    hide CallsOk, WorkerOk, ScanOk, LogOk, RescanOk, AddsOk, RemovesOk;
    assert forall t :: Pending(s.q, worker, t) ==> Pending(s.q, s.worker, t);
  }

  /** A directory that is still registered has not been taken out. */
  lemma RegisteredSurvives(s: State, d: nat)
    requires Inv(s) && d < |s.ids| && s.ids[d] != INVALID_SCAN_ID
    ensures forall c :: 0 <= c < |s.calls| ==> d !in s.calls[c].swept
    ensures Survives(s.log, s.calls, d)
  {
    forall c | 0 <= c < |s.calls|
      ensures d !in s.calls[c].swept
    {
      assert CallOk(s.dirs, s.ids, s.calls[c]);
    }
  }

  /** A valid task may start: the calls whose containers are gone did not take its directory out. */
  lemma StartAddKeeps(s: State)
    requires Inv(s) && Enabled(s, Start) && s.q.current.value.valid && s.q.current.value.job.AddFile?
    ensures Inv(Apply(s, Start))
  {
    hide CallsOk, RescansOk, RemovesOk, CallOk;
    var t := s.q.current.value;
    assert Knows(s.q, t) && AddOk(s.dirs, s.calls, t);
    if t.job.origin.Some? {
      forall k | 0 <= k < |s.log| && s.log[k].ContainerRemoved? && s.log[k].call < |s.calls|
        ensures t.job.origin.value !in s.calls[s.log[k].call].swept
      {
        assert IsQueued(s.calls, s.log[k].call);
      }
    }
    WorkerMoves(s, Adding);
  }

  lemma StartKeeps(s: State)
    requires Inv(s) && Enabled(s, Start)
    ensures Inv(Apply(s, Start))
  {
    var t := s.q.current.value;
    assert Knows(s.q, t);
    if !t.valid {
      WorkerMoves(s, Idle);
    } else {
      match t.job {
        case AddFile(_, _) => StartAddKeeps(s);
        case RescanDirectory(slot, _, root) =>
          assert Pending(s.q, s.worker, t) && RescanOk(s.dirs, s.ids, s.slots, s.calls, t);
          WorkerMoves(s, Apply(s, Start).worker);
        case RemoveObject(c) =>
          WorkerMoves(s, InTask);
          LogGrows(s, ContainerRemoved(c));
        case Other => WorkerMoves(s, InTask);
      }
    }
  }

  lemma ScanStepKeeps(s: State, a: Action)
    requires Inv(s) && Enabled(s, a)
    requires a.ReadScanID? || a.CheckEntry? || a.CheckTask? || a.SkipEntry? || a.EndTask?
    ensures Inv(Apply(s, a))
  {
    hide CallsOk, LogOk, AddsOk, RemovesOk, RescansOk, Survives, WorksFor;
    WorkerMoves(s, Apply(s, a).worker);
  }

  lemma LookUpKeeps(s: State)
    requires Inv(s) && Enabled(s, LookUp)
    ensures Inv(Apply(s, LookUp))
  {
    hide CallsOk, LogOk, AddsOk, RemovesOk, Survives, WorksFor;
    var worker, t := Apply(s, LookUp).worker, s.q.current.value;
    assert Pending(s.q, s.worker, t) && RescanOk(s.dirs, s.ids, s.slots, s.calls, t);
    if worker.Scanning? {
      assert s.ids[worker.dir] == s.worker.id;
      WhoeverScansSurvives(s, worker.dir, t.job.root);
    }
    WorkerMoves(s, worker);
  }

  /** A scan under a valid ID works for a directory that no call has taken out. */
  lemma WhoeverScansSurvives(s: State, d: nat, root: nat)
    requires Inv(s) && WorksFor(s.ids, s.calls, d, root) && d < |s.ids| && s.ids[d] != INVALID_SCAN_ID
    ensures forall c :: 0 <= c < |s.calls| ==> root !in s.calls[c].swept
    ensures Survives(s.log, s.calls, root)
  {
    if d == root {
      RegisteredSurvives(s, d);
    } else {
      forall c | 0 <= c < |s.calls|
        ensures root !in s.calls[c].swept
      {
        assert !IsTakenOut(s.calls, root);
      }
    }
  }

  lemma SurvivesAddition(log: seq<Event>, calls: seq<Call>, d: nat, e: Event)
    requires Survives(log, calls, d) && e.FileAdded?
    ensures Survives(log + [e], calls, d)
  {
  }

  /** An addition on behalf of a directory that survives. */
  lemma AddEntryKeeps(s: State, path: string)
    requires Inv(s) && Enabled(s, AddEntry(path))
    ensures Inv(Apply(s, AddEntry(path)))
  {
    hide CallsOk, RescansOk, RemovesOk, AddsOk, Survives, LogOk, RegistryOk, WorksFor;
    WorkerMoves(s, Onwards(s.worker));
    var origin := OriginOf(s.q.current.value.job);
    if origin.Some? {
      LogGrows(s, FileAdded(origin.value, path));
      SurvivesAddition(s.log, s.calls, origin.value, FileAdded(origin.value, path));
    }
  }

  /** The second check, under the lock: the directory is still registered, so no call took it out. */
  lemma SpawnAddKeeps(s: State, path: string)
    requires Inv(s) && Enabled(s, SpawnAdd(path))
    ensures Inv(Apply(s, SpawnAdd(path)))
  {
    hide CallsOk, RescansOk, RemovesOk, AddsOk, Survives, LogOk, RegistryOk, WorksFor;
    var d, t := s.worker.dir, s.q.current.value;
    if s.ids[d] == INVALID_SCAN_ID {
      WorkerMoves(s, Idle);
    } else {
      var root := t.job.root;
      CurrentRescan(s);
      WhoeverScansSurvives(s, d, root);
      PrefixTransitive(s.dirs[root].location, t.job.location, path);
      EnqueueKeeps(s, AddFile(path, Some(root)), t.id, true);
      var q := Enqueue(s.q, AddFile(path, Some(root)), t.id, true);
      WorkerMoves(s.(q := q), Scanning(d));
    }
  }

  lemma CurrentRescan(s: State)
    requires Inv(s) && (s.worker.Scanning? || s.worker.Checked?)
    ensures IsRescan(s.q.current) && RescanOk(s.dirs, s.ids, s.slots, s.calls, s.q.current.value)
    ensures WorksFor(s.ids, s.calls, s.worker.dir, s.q.current.value.job.root)
  {
    assert Pending(s.q, s.worker, s.q.current.value);
  }

  lemma SpawnRescanKeeps(s: State, location: string)
    requires Inv(s) && Enabled(s, SpawnRescan(location))
    ensures Inv(Apply(s, SpawnRescan(location)))
  {
    hide CallsOk, RescansOk, RemovesOk, AddsOk, Survives, LogOk, RegistryOk, WorksFor;
    var t := s.q.current.value;
    CurrentRescan(s);
    PrefixTransitive(s.dirs[t.job.root].location, t.job.location, location);
    EnqueueKeeps(s, RescanDirectory(t.job.slot, location, t.job.root), 0, true);
    var q := Enqueue(s.q, RescanDirectory(t.job.slot, location, t.job.root), 0, true);
    WorkerMoves(s.(q := q), Scanning(s.worker.dir));
  }

  /** A pending rescan of a directory that was taken out, whose slot goes to a new directory, would find
      the wrong directory there. */
  lemma ReuseBreaksInv(s: State, settings: Settings)
    requires Inv(s) && Enabled(s, AddDirectory(settings)) && !NoReuse(s, AddDirectory(settings))
    ensures !Inv(Apply(s, AddDirectory(settings)))
  {
    var t :| Pending(s.q, s.worker, t) && t.job.slot == FreeSlot(s.slots) && IsTakenOut(s.calls, t.job.root);
    var r := Apply(s, AddDirectory(settings));
    assert RescanOk(s.dirs, s.ids, s.slots, s.calls, t) && Pending(r.q, r.worker, t);
    assert At(r.slots, t.job.slot) == Some(|s.dirs|);
    assert !RescanOk(r.dirs, r.ids, r.slots, r.calls, t);
  }

  /** A step keeps the invariant exactly when it does not give the slot of a pending rescan to a new
      directory after a removal has taken the rescan's directory out. */
  lemma InvNext(s: State, a: Action)
    requires Inv(s) && Enabled(s, a)
    ensures Inv(Apply(s, a)) <==> NoReuse(s, a)
  {
    OnlyAdditionsReuse(s, a);
    if NoReuse(s, a) {
      StepKeepsInv(s, a);
    } else {
      ReuseBreaksInv(s, a.settings);
    }
  }

  lemma OnlyAdditionsReuse(s: State, a: Action)
    ensures !a.AddDirectory? ==> NoReuse(s, a)
  {
  }

  lemma StepKeepsInv(s: State, a: Action)
    requires Inv(s) && Enabled(s, a) && NoReuse(s, a)
    ensures Inv(Apply(s, a))
  {
    hide Inv, Apply, Enabled, NoReuse;
    match a {
      case AddDirectory(settings) => AddDirectoryKeeps(s, settings);
      case FreeDirectory(slot) => FreeKeeps(s, slot);
      case AddFileTask(_, _) => ClientTaskKeeps(s, a);
      case Rescan(_, _) => ClientTaskKeeps(s, a);
      case BeginRemove(path) => BeginKeeps(s, path);
      case InvalidateAdds(c) => InvalidateKeeps(s, c);
      case QueueRemove(c) => QueueRemoveKeeps(s, c);
      case CancelFamily(id) => CancelFamilyKeeps(s, id);
      case FetchTask => FetchTaskKeeps(s);
      case Start => StartKeeps(s);
      case ReadScanID => ScanStepKeeps(s, a);
      case LookUp => LookUpKeeps(s);
      case CheckEntry => ScanStepKeeps(s, a);
      case CheckTask => ScanStepKeeps(s, a);
      case AddEntry(path) => AddEntryKeeps(s, path);
      case SpawnAdd(path) => SpawnAddKeeps(s, path);
      case SpawnRescan(location) => SpawnRescanKeeps(s, location);
      case SkipEntry => ScanStepKeeps(s, a);
      case EndTask => ScanStepKeeps(s, a);
    }
  }

  // ---- whole runs ----

  ghost predicate IsRun(states: seq<State>, actions: seq<Action>) {
    && |states| == |actions| + 1 && states[0] == Init()
    && forall i :: 0 <= i < |actions| ==>
         Enabled(states[i], actions[i]) && states[i + 1] == Apply(states[i], actions[i])
  }

  ghost predicate NeverReuses(states: seq<State>, actions: seq<Action>) {
    |states| == |actions| + 1 && forall i :: 0 <= i < |actions| ==> NoReuse(states[i], actions[i])
  }

  lemma {:induction false} RunKeepsInv(states: seq<State>, actions: seq<Action>, i: nat)
    requires IsRun(states, actions) && NeverReuses(states, actions) && i < |states|
    ensures Inv(states[i])
  {
    hide Inv, Enabled, Apply, NoReuse;
    if i == 0 {
      InvInit();
    } else {
      RunKeepsInv(states, actions, i - 1);
      InvNext(states[i - 1], actions[i - 1]);
    }
  }

  /** Removal is safe against rescans: once a call has invalidated the tasks below its path, no task that
      was created for a directory it took out, whether it waits, runs or is created later, is valid; so
      it never starts. */
  lemma NoTaskSurvivesRemoval(states: seq<State>, actions: seq<Action>, i: nat, c: nat, t: Task)
    requires IsRun(states, actions) && NeverReuses(states, actions) && i < |states|
    requires c < |states[i].calls| && states[i].calls[c].stage != Begun
    requires Knows(states[i].q, t) && t.job.AddFile?
    requires t.job.origin.Some? && t.job.origin.value in states[i].calls[c].swept
    ensures !t.valid
  {
    hide IsRun, NeverReuses;
    RunKeepsInv(states, actions, i);
    assert AddOk(states[i].dirs, states[i].calls, t);
  }

  /** The deletion of the container comes last: whatever was added for a directory that the call took
      out, by a task or directly by a rescan, was added before. */
  lemma RemovalComesLast(states: seq<State>, actions: seq<Action>, i: nat, k: nat, l: nat)
    requires IsRun(states, actions) && NeverReuses(states, actions) && i < |states|
    requires k < |states[i].log| && l < |states[i].log|
    requires states[i].log[k].ContainerRemoved? && states[i].log[l].FileAdded?
    ensures states[i].log[k].call < |states[i].calls|
    ensures states[i].log[l].origin in states[i].calls[states[i].log[k].call].swept ==> l < k
  {
    hide IsRun, NeverReuses;
    RunKeepsInv(states, actions, i);
    var s := states[i];
    assert IsQueued(s.calls, s.log[k].call);
    if k < l {
      assert s.log[..l][k] == s.log[k] && Survives(s.log[..l], s.calls, s.log[l].origin);
    }
  }

  // ---- what the worker gets done ----

  /** The actions lead from one state to the other. */
  ghost predicate Leads(s: State, actions: seq<Action>, r: State)
    decreases |actions|
  {
    if actions == [] then s == r
    else Enabled(s, actions[0]) && Leads(Apply(s, actions[0]), actions[1..], r)
  }

  lemma LeadsStep(s: State, a: Action, actions: seq<Action>, r: State)
    requires Enabled(s, a) && Leads(Apply(s, a), actions, r)
    ensures Leads(s, [a] + actions, r)
  {
    assert ([a] + actions)[1..] == actions;
  }

  lemma LeadsNowhere(s: State)
    ensures Leads(s, [], s)
  {
  }

  /** A valid rescan whose slot holds a directory scans it: it adds files, and queues tasks for what lies
      deeper, on behalf of the directory it was created for. */
  lemma RescanScans(s: State, path: string, sub: string)
    requires Inv(s) && s.worker == Holding && IsRescan(s.q.current) && s.q.current.value.valid
    requires At(s.slots, s.q.current.value.job.slot).Some?
    requires s.q.current.value.job.location <= path && s.q.current.value.job.location <= sub
    ensures var t := s.q.current.value;
      Leads(s, [Start, ReadScanID, LookUp, CheckEntry] + ([AddEntry(path), CheckEntry, SpawnAdd(sub), EndTask]),
            s.(worker := Idle, log := s.log + [FileAdded(t.job.root, path)],
               q := Enqueue(s.q, AddFile(sub, Some(t.job.root)), t.id, true)))
  {
    hide Leads, CallsOk, RescansOk, AddsOk, RemovesOk, ScanOk, LogOk;
    var t := s.q.current.value;
    var d := At(s.slots, t.job.slot).value;
    assert s.ids[d] == t.job.slot && t.job.slot != INVALID_SCAN_ID;
    var log := s.log + [FileAdded(t.job.root, path)];
    var q := Enqueue(s.q, AddFile(sub, Some(t.job.root)), t.id, true);
    var done := s.(worker := Idle, log := log, q := q);
    LeadsNowhere(done);
    LeadsStep(s.(worker := Scanning(d), log := log, q := q), EndTask, [], done);
    assert [EndTask] + [] == [EndTask];
    LeadsStep(s.(worker := Checked(d), log := log), SpawnAdd(sub), [EndTask], done);
    LeadsStep(s.(worker := Scanning(d), log := log), CheckEntry, [SpawnAdd(sub)] + [EndTask], done);
    var rest := [CheckEntry] + ([SpawnAdd(sub)] + [EndTask]);
    LeadsStep(s.(worker := Checked(d)), AddEntry(path), rest, done);
    rest := [AddEntry(path)] + rest;
    ScanBegins(s, d, rest, done);
    assert rest == [AddEntry(path), CheckEntry, SpawnAdd(sub), EndTask];
  }

  lemma ScanBegins(s: State, d: nat, rest: seq<Action>, done: State)
    requires Inv(s) && s.worker == Holding && IsRescan(s.q.current) && s.q.current.value.valid
    requires At(s.slots, s.q.current.value.job.slot) == Some(d) && Leads(s.(worker := Checked(d)), rest, done)
    ensures Leads(s, [Start, ReadScanID, LookUp, CheckEntry] + rest, done)
  {
    hide Leads, CallsOk, RescansOk, AddsOk, RemovesOk, ScanOk, LogOk;
    var id := s.q.current.value.job.slot;
    assert s.ids[d] == id && id != INVALID_SCAN_ID;
    LeadsStep(s.(worker := Scanning(d)), CheckEntry, rest, done);
    LeadsStep(s.(worker := HasID(id)), LookUp, [CheckEntry] + rest, done);
    LeadsStep(s.(worker := Found(d)), ReadScanID, [LookUp] + ([CheckEntry] + rest), done);
    LeadsStep(s, Start, [ReadScanID] + ([LookUp] + ([CheckEntry] + rest)), done);
    assert [Start, ReadScanID, LookUp, CheckEntry] + rest ==
           [Start] + ([ReadScanID] + ([LookUp] + ([CheckEntry] + rest)));
  }

  /** A rescan whose directory was taken out meanwhile stops, before an entry and before it queues a task. */
  lemma SweptRescanStops(s: State, d: nat, sub: string)
    requires Inv(s) && d < |s.ids| && s.ids[d] == INVALID_SCAN_ID
    ensures s.worker == Scanning(d) ==> Enabled(s, CheckEntry) && Apply(s, CheckEntry) == s.(worker := Idle)
    ensures s.worker == Checked(d) && Enabled(s, SpawnAdd(sub)) ==> Apply(s, SpawnAdd(sub)) == s.(worker := Idle)
  {
  }

  /** After an entry that is skipped, or for which a rescan of its own is queued, the scan goes on. */
  lemma ScanGoesOn(s: State, d: nat, location: string)
    requires s.worker == Checked(d)
    ensures Enabled(s, SkipEntry) && Apply(s, SkipEntry) == s.(worker := Scanning(d))
    ensures Enabled(s, SpawnRescan(location)) ==> Apply(s, SpawnRescan(location)).worker == Scanning(d)
  {
  }

  /** A directory can be added exactly if none is registered for its location. */
  lemma AddNeedsNewLocation(s: State, settings: Settings)
    requires Inv(s)
    ensures Enabled(s, AddDirectory(settings)) <==>
              forall i :: At(s.slots, i).Some? ==> s.dirs[At(s.slots, i).value].location != settings.location
  {
    hide CallsOk, RescansOk, WorkerOk, AddsOk, RemovesOk, ScanOk, LogOk;
    var m := KnownSettings(s);
    if i :| 0 <= i < |m| && m[i].Some? && m[i].value.location == settings.location {
      assert At(s.slots, i).Some?;
    }
    forall i | At(s.slots, i).Some? && s.dirs[At(s.slots, i).value].location == settings.location
      ensures HasLocation(m, settings.location)
    {
      assert m[i].Some?;
    }
  }

  /** A valid task that adds files adds what lies below its path, entry by entry, and goes on while it is
      valid. */
  lemma AddTaskAdds(s: State, path: string, next: string)
    requires s.worker == Holding && IsAdd(s.q.current) && s.q.current.value.valid
    requires s.q.current.value.job.origin.Some?
    requires s.q.current.value.job.path <= path && s.q.current.value.job.path <= next
    ensures var o := s.q.current.value.job.origin.value;
      Leads(s, [Start, AddEntry(path)] + [CheckTask, AddEntry(next), EndTask],
            s.(worker := Idle, log := s.log + [FileAdded(o, path)] + [FileAdded(o, next)]))
  {
    hide Leads;
    var o := s.q.current.value.job.origin.value;
    var log1 := s.log + [FileAdded(o, path)];
    var done := s.(worker := Idle, log := log1 + [FileAdded(o, next)]);
    LeadsNowhere(done);
    LeadsStep(s.(worker := InTask, log := done.log), EndTask, [], done);
    assert [EndTask] + [] == [EndTask];
    LeadsStep(s.(worker := Adding, log := log1), AddEntry(next), [EndTask], done);
    LeadsStep(s.(worker := InTask, log := log1), CheckTask, [AddEntry(next)] + [EndTask], done);
    var rest := [CheckTask] + ([AddEntry(next)] + [EndTask]);
    LeadsStep(s.(worker := Adding), AddEntry(path), rest, done);
    LeadsStep(s, Start, [AddEntry(path)] + rest, done);
    assert [Start, AddEntry(path)] + [CheckTask, AddEntry(next), EndTask] == [Start] + ([AddEntry(path)] + rest);
  }

  /** A valid removal task takes the container out. */
  lemma RemovalRemoves(s: State, c: nat)
    requires s.worker == Holding && s.q.current.Some? && s.q.current.value.valid
    requires s.q.current.value.job == Job.RemoveObject(c)
    ensures Leads(s, [Start] + [EndTask], s.(worker := Idle, log := s.log + [ContainerRemoved(c)]))
  {
    hide Leads;
    var log := s.log + [ContainerRemoved(c)];
    LeadsNowhere(s.(worker := Idle, log := log));
    LeadsStep(s.(worker := InTask, log := log), EndTask, [], s.(worker := Idle, log := log));
    assert [EndTask] + [] == [EndTask];
    LeadsStep(s, Start, [EndTask], s.(worker := Idle, log := log));
  }

  /** A task that is not valid, or that is of no other kind, changes nothing. */
  lemma OtherTasksPass(s: State)
    requires s.worker == Holding && s.q.current.Some?
    ensures !s.q.current.value.valid ==> Apply(s, Start) == s.(worker := Idle)
    ensures s.q.current.value.valid && s.q.current.value.job.Other? ==>
              Apply(s, Start) == s.(worker := InTask) && Apply(Apply(s, Start), EndTask) == s.(worker := Idle)
  {
  }

  /** An add task that was invalidated between two entries ends. */
  lemma InvalidAddStops(s: State)
    requires s.worker == InTask && IsAdd(s.q.current) && !s.q.current.value.valid
    ensures Enabled(s, CheckTask) && Apply(s, CheckTask) == s.(worker := Idle)
  {
  }

  /** A call of removeObject can go through at any time: afterwards the directories below the path are out of
      the registry, the tasks that add files below it are invalid, and the removal waits at high priority. */
  lemma CallGoesThrough(s: State, path: string)
    requires Inv(s)
    ensures var c, gone := |s.calls|, SweptDirs(s, path);
      var q := AddTasksInvalidated(s.q, path);
      && Leads(s, [BeginRemove(path), InvalidateAdds(c), QueueRemove(c)],
               s.(ids := Invalid(s.ids, gone), slots := SweptSlots(s, path),
                  calls := s.calls + [Call(path, gone, Queued)],
                  q := Enqueue(q, Job.RemoveObject(c), 0, false)))
      && forall d :: 0 <= d < |s.dirs| ==>
           (d in gone <==> s.ids[d] != INVALID_SCAN_ID && path <= s.dirs[d].location && !s.dirs[d].options.persistent)
  {
    hide Leads, Inv;
    var c, gone := |s.calls|, SweptDirs(s, path);
    var s1 := Apply(s, BeginRemove(path));
    var s2, s3 := Apply(s1, InvalidateAdds(c)), Apply(Apply(s1, InvalidateAdds(c)), QueueRemove(c));
    LeadsNowhere(s3);
    LeadsStep(s2, QueueRemove(c), [], s3);
    assert [QueueRemove(c)] + [] == [QueueRemove(c)];
    LeadsStep(s1, InvalidateAdds(c), [QueueRemove(c)], s3);
    LeadsStep(s, BeginRemove(path), [InvalidateAdds(c)] + [QueueRemove(c)], s3);
    assert [BeginRemove(path)] + ([InvalidateAdds(c)] + [QueueRemove(c)]) ==
           [BeginRemove(path), InvalidateAdds(c), QueueRemove(c)];
    assert s3.calls == s.calls + [Call(path, gone, Queued)];
    SweptExactly(s, path);
  }

  lemma SweptExactly(s: State, path: string)
    requires Inv(s)
    ensures forall d :: 0 <= d < |s.dirs| ==>
      (d in SweptDirs(s, path) <==>
         s.ids[d] != INVALID_SCAN_ID && path <= s.dirs[d].location && !s.dirs[d].options.persistent)
  {
    hide CallsOk, RescansOk, WorkerOk, AddsOk, RemovesOk, ScanOk, LogOk;
    forall d | 0 <= d < |s.dirs|
      ensures d in SweptDirs(s, path) <==>
                s.ids[d] != INVALID_SCAN_ID && path <= s.dirs[d].location && !s.dirs[d].options.persistent
    {
      if s.ids[d] != INVALID_SCAN_ID {
        assert s.slots[s.ids[d]] == Some(d);
      }
    }
  }

  // ---- the queues are those of the scheduler ----

  /** The step of the scheduler behind a step of this protocol, if it has one. */
  function Behind(s: State, a: Action): Option<Scheduler.Action>
    requires Enabled(s, a)
  {
    match a
    case AddFileTask(path, low) => Some(Submit(AddFile(path, None), 0, low))
    case Rescan(slot, location) => Some(Submit(RescanDirectory(slot, location, s.slots[slot].value), 0, true))
    case InvalidateAdds(c) => Some(CancelAdds(s.calls[c].path))
    case QueueRemove(c) => Some(Submit(Job.RemoveObject(c), 0, false))
    case CancelFamily(id) => Some(CancelTask(id))
    case FetchTask => Some(NextTask)
    case SpawnAdd(path) =>
      if s.ids[s.worker.dir] == INVALID_SCAN_ID then None
      else Some(Submit(AddFile(path, Some(s.q.current.value.job.root)), s.q.current.value.id, true))
    case SpawnRescan(location) =>
      var job := s.q.current.value.job;
      Some(Submit(RescanDirectory(job.slot, location, job.root), 0, true))
    case _ => None
  }

  /** So what holds of the scheduler's queues in every run holds of these. */
  lemma QueuesAreTheSchedulers(s: State, a: Action, t: Scheduler.State)
    requires Enabled(s, a) && t.q == s.q && (a == FetchTask ==> t.phase == AtTop)
    ensures match Behind(s, a)
      case None => Apply(s, a).q == s.q
      case Some(b) => Scheduler.Enabled(t, b) && Scheduler.Apply(t, b).q == Apply(s, a).q
  {
  }

  /** What the registry's steps do: an added directory is found under its scan ID, a freed one is not, and
      all others stay. */
  lemma RegistrySteps(s: State, a: Action)
    requires Inv(s) && Enabled(s, a)
    ensures var r := Apply(s, a);
      && (a.AddDirectory? ==>
            && r.dirs == s.dirs + [a.settings] && |r.ids| == |s.ids| + 1
            && r.ids[|s.ids|] >= 0 && At(r.slots, r.ids[|s.ids|]) == Some(|s.dirs|)
            && At(s.slots, r.ids[|s.ids|]) == None
            && forall i :: i != r.ids[|s.ids|] ==> At(r.slots, i) == At(s.slots, i))
      && (a.FreeDirectory? ==>
            && r.dirs == s.dirs && At(r.slots, a.slot) == None && r.ids[s.slots[a.slot].value] == INVALID_SCAN_ID
            && forall i :: i != a.slot ==> At(r.slots, i) == At(s.slots, i))
      && (!a.AddDirectory? && !a.FreeDirectory? && !a.BeginRemove? ==>
            r.dirs == s.dirs && r.ids == s.ids && r.slots == s.slots)
  {
    hide CallsOk, RescansOk, WorkerOk, AddsOk, RemovesOk, ScanOk, LogOk;
  }

  // ---- every queued removal is carried out ----

  /** The removal task of a call waits, or the worker holds it and has not looked at it. */
  ghost predicate Outstanding(s: State, c: nat) {
    exists t: Task :: t.job == Job.RemoveObject(c) && Waiting(s, t)
  }

  ghost predicate Waiting(s: State, t: Task) {
    t in s.q.high || t in s.q.low || (s.worker == Holding && s.q.current == Some(t))
  }

  /** The worker looked at the task of the call and found it invalid. */
  ghost predicate Refused(states: seq<State>, actions: seq<Action>, i: nat, c: nat)
    requires |states| == |actions| + 1 && i <= |actions|
  {
    exists j :: 0 <= j < i && Refuses(states[j], actions[j], c)
  }

  ghost predicate Refuses(s: State, a: Action, c: nat) {
    a == Start && s.q.current.Some? && s.q.current.value.job == Job.RemoveObject(c) && !s.q.current.value.valid
  }

  ghost predicate Accounted(s: State, c: nat) {
    ContainerRemoved(c) in s.log || Outstanding(s, c)
  }

  lemma StillWaiting(s: State, a: Action, t: Task)
    requires Enabled(s, a) && Waiting(s, t) && !(a == Start && s.q.current == Some(t))
    requires a != FetchTask || s.worker == Idle
    ensures exists u: Task :: u.job == t.job && Waiting(Apply(s, a), u)
  {
    var r := Apply(s, a);
    if a.InvalidateAdds? || a.CancelFamily? {
      var target := if a.InvalidateAdds? then AddsBelow(s.calls[a.call].path) else Family(a.id);
      CancelledIn(s.q.high, target, Cancel(t, target));
      CancelledIn(s.q.low, target, Cancel(t, target));
      assert Waiting(r, Cancel(t, target));
    } else {
      assert Waiting(r, t) by { StaysQueued(s, a, t); }
    }
  }

  lemma StaysQueued(s: State, a: Action, t: Task)
    requires Enabled(s, a) && Waiting(s, t) && !(a == Start && s.q.current == Some(t))
    requires !a.InvalidateAdds? && !a.CancelFamily?
    ensures Waiting(Apply(s, a), t)
  {
    if a == FetchTask {
      if t in s.q.high {
        var i :| 0 <= i < |s.q.high| && s.q.high[i] == t;
        assert i > 0 ==> s.q.high[1..][i - 1] == t;
      } else {
        var i :| 0 <= i < |s.q.low| && s.q.low[i] == t;
        assert i > 0 ==> s.q.low[1..][i - 1] == t;
      }
    }
  }

  lemma LogStays(s: State, a: Action, e: Event)
    requires Enabled(s, a) && e in s.log
    ensures e in Apply(s, a).log
  {
  }

  lemma AccountStep(s: State, a: Action, c: nat)
    requires Inv(s) && Enabled(s, a) && IsQueued(Apply(s, a).calls, c)
    requires IsQueued(s.calls, c) ==> Accounted(s, c)
    ensures Accounted(Apply(s, a), c) || Refuses(s, a, c)
  {
    hide Inv;
    var r := Apply(s, a);
    if !IsQueued(s.calls, c) {
      QueuesTask(s, a, c);
    } else if ContainerRemoved(c) in s.log {
      LogStays(s, a, ContainerRemoved(c));
    } else {
      var t: Task :| t.job == Job.RemoveObject(c) && Waiting(s, t);
      if a == Start && s.q.current == Some(t) {
        assert t.valid ==> r.log == s.log + [ContainerRemoved(c)];
      } else {
        StillWaiting(s, a, t);
      }
    }
  }

  lemma QueuesTask(s: State, a: Action, c: nat)
    requires Enabled(s, a) && IsQueued(Apply(s, a).calls, c) && !IsQueued(s.calls, c)
    ensures Outstanding(Apply(s, a), c)
  {
    var r := Apply(s, a);
    assert a == QueueRemove(c);
    assert Waiting(r, Task(s.q.nextID, 0, Job.RemoveObject(c), true));
  }

  /** Over any run without reuse every removal that a call has queued has taken its container out, or its task
      waits, or it was cancelled before the worker looked at it. */
  lemma {:induction false} QueuedRemovalIsAccounted(states: seq<State>, actions: seq<Action>, i: nat, c: nat)
    requires IsRun(states, actions) && NeverReuses(states, actions) && i < |states|
    requires IsQueued(states[i].calls, c)
    ensures Accounted(states[i], c) || Refused(states, actions, i, c)
  {
    hide Inv, Enabled, Apply, NoReuse, Accounted, IsQueued, Refuses;
    if i == 0 {
      NoCallsAtFirst(c);
    } else {
      RunKeepsInv(states, actions, i - 1);
      if IsQueued(states[i - 1].calls, c) {
        QueuedRemovalIsAccounted(states, actions, i - 1, c);
      }
      if Refused(states, actions, i - 1, c) {
        RefusedLater(states, actions, i - 1, c);
      } else {
        AccountStep(states[i - 1], actions[i - 1], c);
      }
    }
  }

  /** The worker's next step when it skips whatever it can. */
  function WorkersMove(worker: Worker): Action {
    match worker
    case Idle => FetchTask
    case Holding => Start
    case Found(_) => ReadScanID
    case HasID(_) => LookUp
    case Scanning(_) => EndTask
    case Checked(_) => SkipEntry
    case Adding => SkipEntry
    case InTask => EndTask
  }

  function Rank(worker: Worker): nat {
    match worker
    case Idle => 0
    case Holding => 6
    case Found(_) => 5
    case HasID(_) => 4
    case Scanning(_) => 1
    case Checked(_) => 2
    case Adding => 2
    case InTask => 1
  }

  ghost function Rest(s: State): nat {
    7 * (|s.q.high| + |s.q.low|) + Rank(s.worker)
  }

  lemma WorkersMoveCounts(s: State)
    requires Inv(s) && Rest(s) > 0
    ensures var a := WorkersMove(s.worker);
      Enabled(s, a) && NoReuse(s, a) && Rest(Apply(s, a)) < Rest(s) && Apply(s, a).calls == s.calls
  {
    hide RegistryOk, CallsOk, RescansOk, AddsOk, RemovesOk, ScanOk, LogOk;
  }

  /** From any point of any run without reuse the worker alone gets through all tasks; then every container
      whose removal was queued is gone, unless that removal was cancelled in time. */
  lemma {:induction false} QueuedRemovalHappens(states: seq<State>, actions: seq<Action>)
    returns (states1: seq<State>, actions1: seq<Action>)
    requires IsRun(states, actions) && NeverReuses(states, actions)
    ensures IsRun(states1, actions1) && NeverReuses(states1, actions1) && actions <= actions1
    ensures forall k :: |actions| <= k < |actions1| ==> actions1[k] == WorkersMove(states1[k].worker)
    ensures states1[|actions1|].calls == states[|actions|].calls && Rest(states1[|actions1|]) == 0
    ensures forall c :: 0 <= c < |states[|actions|].calls| && states[|actions|].calls[c].stage == Queued ==>
              ContainerRemoved(c) in states1[|actions1|].log || Refused(states1, actions1, |actions1|, c)
    decreases Rest(states[|actions|])
  {
    hide Inv, Enabled, Apply, NoReuse, Rest, WorkersMove, Init, Accounted, Refused;
    var n := |actions|;
    var s := states[n];
    RunKeepsInv(states, actions, n);
    if Rest(s) == 0 {
      states1, actions1 := states, actions;
      forall c | 0 <= c < |s.calls| && s.calls[c].stage == Queued
        ensures ContainerRemoved(c) in s.log || Refused(states, actions, n, c)
      {
        QueuedRemovalIsAccounted(states, actions, n, c);
        NothingOutstanding(s, c);
      }
    } else {
      WorkersMoveCounts(s);
      var a := WorkersMove(s.worker);
      var states0, actions0 := states + [Apply(s, a)], actions + [a];
      forall i | 0 <= i < |actions0|
        ensures Enabled(states0[i], actions0[i]) && states0[i + 1] == Apply(states0[i], actions0[i])
        ensures NoReuse(states0[i], actions0[i])
      {
        assert i < n ==> states[i + 1] == Apply(states[i], actions[i]);
      }
      assert states0[0] == states[0];
      states1, actions1 := QueuedRemovalHappens(states0, actions0);
      SameStart(states0, actions0, states1, actions1, n);
    }
  }

  lemma {:induction false} SameStart(states: seq<State>, actions: seq<Action>, states1: seq<State>,
                                     actions1: seq<Action>, i: nat)
    requires IsRun(states, actions) && IsRun(states1, actions1) && actions <= actions1 && i < |states|
    ensures states1[i] == states[i]
  {
    hide Enabled, Apply, Init;
    if i > 0 {
      SameStart(states, actions, states1, actions1, i - 1);
      assert states[i] == Apply(states[i - 1], actions[i - 1]);
      assert states1[i] == Apply(states1[i - 1], actions1[i - 1]);
    }
  }

  lemma NothingOutstanding(s: State, c: nat)
    requires Rest(s) == 0
    ensures Accounted(s, c) <==> ContainerRemoved(c) in s.log
  {
  }

  lemma NoCallsAtFirst(c: nat)
    ensures !IsQueued(Init().calls, c)
  {
  }

  lemma RefusedLater(states: seq<State>, actions: seq<Action>, i: nat, c: nat)
    requires |states| == |actions| + 1 && i < |actions| && Refused(states, actions, i, c)
    ensures Refused(states, actions, i + 1, c)
  {
  }

  // ---- when a slot is reused ----

  /** A rescan is already in the worker's hands; its directory `p` is removed and another directory `q`
      takes the slot, so that the scan runs under the new directory's valid ID. */
  function ReuseActions(p: Settings, q: Settings, x: string): seq<Action> {
    [AddDirectory(p), Rescan(0, p.location), FetchTask, BeginRemove(p.location), InvalidateAdds(0), AddDirectory(q),
     Start, ReadScanID, LookUp, CheckEntry, SpawnAdd(p.location + x)]
  }

  /** The state with the rescan in the worker's hands. */
  function InHand(p: Settings): State {
    State.State(Queues([], [], Some(Task(1, 0, RescanDirectory(0, p.location, 0), true)), 2), Holding,
                [p], [0], [Some(0)], [], [])
  }

  lemma ReuseBegins(p: Settings) returns (s1: State, s2: State)
    ensures Enabled(Init(), AddDirectory(p)) && s1 == Apply(Init(), AddDirectory(p))
    ensures Enabled(s1, Rescan(0, p.location)) && s2 == Apply(s1, Rescan(0, p.location))
    ensures Enabled(s2, FetchTask) && InHand(p) == Apply(s2, FetchTask)
  {
    s1 := Apply(Init(), AddDirectory(p));
    assert s1.slots == [Some(0)] && s1.dirs == [p] && s1.ids == [0];
    s2 := Apply(s1, Rescan(0, p.location));
    assert s2.q.low == [Task(1, 0, RescanDirectory(0, p.location, 0), true)];
    assert Apply(s2, FetchTask).q.low == [];
  }

  /** Its directory is taken out. */
  function TakenOut(p: Settings, stage: Stage): State {
    InHand(p).(ids := [INVALID_SCAN_ID], slots := [], calls := [Call(p.location, {0}, stage)])
  }

  lemma ReuseRemoves(p: Settings)
    requires !p.options.persistent
    ensures TakenOut(p, Begun) == Apply(InHand(p), BeginRemove(p.location))
    ensures Enabled(TakenOut(p, Begun), InvalidateAdds(0))
    ensures TakenOut(p, Invalidated) == Apply(TakenOut(p, Begun), InvalidateAdds(0))
  {
    var s3 := InHand(p);
    assert Sweeps(s3, s3.slots[0], p.location);
    assert SweptDirs(s3, p.location) == {0};
    assert SweptSlots(s3, p.location) == [];
    assert Invalid(s3.ids, {0}) == [INVALID_SCAN_ID];
    assert TakenOut(p, Begun).q.high == [] == TakenOut(p, Begun).q.low;
  }

  /** Another directory has taken the slot. */
  function TakenOver(p: Settings, q: Settings): State {
    TakenOut(p, Invalidated).(dirs := [p, q], ids := [INVALID_SCAN_ID, 0], slots := [Some(1)])
  }

  lemma ReuseTakesOver(p: Settings, q: Settings)
    ensures Enabled(TakenOut(p, Invalidated), AddDirectory(q))
    ensures TakenOver(p, q) == Apply(TakenOut(p, Invalidated), AddDirectory(q))
  {
    var r := Apply(TakenOut(p, Invalidated), AddDirectory(q));
    assert r.dirs == [p, q] && r.ids == [INVALID_SCAN_ID, 0] && r.slots == [Some(1)];
  }

  /** The second half: the scan of the old directory's container runs under the new directory's ID. */
  lemma ReuseContinues(p: Settings, q: Settings, x: string)
    returns (s7: State, s8: State, s9: State, s10: State, s11: State)
    ensures Enabled(TakenOver(p, q), Start) && s7 == Apply(TakenOver(p, q), Start)
    ensures Enabled(s7, ReadScanID) && s8 == Apply(s7, ReadScanID)
    ensures Enabled(s8, LookUp) && s9 == Apply(s8, LookUp)
    ensures Enabled(s9, CheckEntry) && s10 == Apply(s9, CheckEntry)
    ensures Enabled(s10, SpawnAdd(p.location + x)) && s11 == Apply(s10, SpawnAdd(p.location + x))
    ensures s11.q.low == [Task(2, 1, AddFile(p.location + x, Some(0)), true)]
    ensures s11.calls == [Call(p.location, {0}, Invalidated)]
  {
    var s6 := TakenOver(p, q);
    s7 := Apply(s6, Start);
    assert s7 == s6.(worker := Found(1));
    s8 := Apply(s7, ReadScanID);
    assert s8 == s6.(worker := HasID(0));
    s9 := Apply(s8, LookUp);
    assert s9 == s6.(worker := Scanning(1));
    s10, s11 := ReuseSpawns(p, q, x, s9);
  }

  lemma ReuseSpawns(p: Settings, q: Settings, x: string, s9: State) returns (s10: State, s11: State)
    requires s9 == TakenOver(p, q).(worker := Scanning(1))
    ensures Enabled(s9, CheckEntry) && s10 == Apply(s9, CheckEntry)
    ensures Enabled(s10, SpawnAdd(p.location + x)) && s11 == Apply(s10, SpawnAdd(p.location + x))
    ensures s11.q.low == [Task(2, 1, AddFile(p.location + x, Some(0)), true)]
    ensures s11.calls == [Call(p.location, {0}, Invalidated)]
  {
    s10 := Apply(s9, CheckEntry);
    assert s10 == TakenOver(p, q).(worker := Checked(1));
    s11 := Apply(s10, SpawnAdd(p.location + x));
  }

  /** Without the condition on slots a valid task below the removed container is queued after the call
      has invalidated all such tasks. */
  lemma ReuseBreaksRemoval(p: Settings, q: Settings, x: string) returns (states: seq<State>)
    requires !p.options.persistent
    ensures IsRun(states, ReuseActions(p, q, x))
    ensures var s, t := states[11], Task(2, 1, AddFile(p.location + x, Some(0)), true);
      && s.calls == [Call(p.location, {0}, Invalidated)] && Knows(s.q, t) && t.valid
  {
    hide Enabled, Apply, Init, InHand, TakenOut, TakenOver;
    var s1, s2 := ReuseBegins(p);
    ReuseRemoves(p);
    ReuseTakesOver(p, q);
    var s7, s8, s9, s10, s11 := ReuseContinues(p, q, x);
    BeginIsEnabled(p);
    states := [Init(), s1, s2, InHand(p), TakenOut(p, Begun), TakenOut(p, Invalidated), TakenOver(p, q),
               s7, s8, s9, s10, s11];
  }

  lemma BeginIsEnabled(p: Settings)
    ensures Enabled(InHand(p), BeginRemove(p.location))
  {
  }
}
