/** The content manager's task queues: two priorities, one worker, and invalidation of tasks that are
    queued or running. */
module Scheduler {
  import opened Wrappers
  import opened Arrays
  import opened BaseQueue

  /** `origin` and `root` are bookkeeping of the model: the autoscan directory object on whose behalf a
      task was created; a file that a user adds has no origin. */
  datatype Job =
    | AddFile(path: string, origin: Option<nat>)
    | RescanDirectory(slot: int, location: string, root: nat)
    | RemoveObject(removal: nat)
    | Other

  datatype Task = Task(id: nat, parent: nat, job: Job, valid: bool)

  datatype Queues = Queues(high: seq<Task>, low: seq<Task>, current: Option<Task>, nextID: nat)

  // ---- the operations on values ----

  function Enqueue(q: Queues, job: Job, parent: nat, lowPriority: bool): Queues {
    var t := Task(q.nextID, parent, job, true);
    if lowPriority then q.(low := q.low + [t], nextID := q.nextID + 1)
    else q.(high := q.high + [t], nextID := q.nextID + 1)
  }

  /** The top of the worker's loop: the last task is forgotten and the next one fetched. */
  function Fetch(q: Queues): Queues {
    if q.high != [] then q.(high := q.high[1..], current := Some(q.high[0]))
    else if q.low != [] then q.(low := q.low[1..], current := Some(q.low[0]))
    else q.(current := None)
  }

  /** What is to be invalidated: a task with its children, or the tasks that add files below a path. */
  datatype Target = Family(id: nat) | AddsBelow(path: string)

  predicate Hits(t: Task, target: Target) {
    match target
    case Family(id) => t.id == id || t.parent == id
    case AddsBelow(path) => t.job.AddFile? && path <= t.job.path
  }

  function Cancel(t: Task, target: Target): Task {
    if Hits(t, target) then t.(valid := false) else t
  }

  function CancelAll(ts: seq<Task>, target: Target): (r: seq<Task>)
    ensures |r| == |ts| && forall i :: 0 <= i < |r| ==> r[i] == Cancel(ts[i], target)
  {
    seq(|ts|, i requires 0 <= i < |ts| => Cancel(ts[i], target))
  }

  function CancelQueued(q: Queues, target: Target): Queues {
    q.(high := CancelAll(q.high, target), low := CancelAll(q.low, target),
       current := if q.current.Some? then Some(Cancel(q.current.value, target)) else None)
  }

  function TaskInvalidated(q: Queues, id: nat): Queues {
    CancelQueued(q, Family(id))
  }

  function AddTasksInvalidated(q: Queues, path: string): Queues {
    CancelQueued(q, AddsBelow(path))
  }

  // ---- what invalidation hits ----

  /** All tasks that the queues and the worker know. */
  predicate Knows(q: Queues, t: Task) {
    t in q.high || t in q.low || q.current == Some(t)
  }

  function Ids(ts: seq<Task>): (r: seq<nat>)
    ensures |r| == |ts| && forall i :: 0 <= i < |r| ==> r[i] == ts[i].id
  {
    seq(|ts|, i requires 0 <= i < |ts| => ts[i].id)
  }

  ghost predicate Increasing(ids: seq<nat>) {
    forall i, j :: 0 <= i < j < |ids| ==> ids[i] < ids[j]
  }

  /** IDs grow along each queue, no ID occurs twice, and a parent is older than its child. */
  ghost predicate IdsOk(q: Queues) {
    && q.nextID >= 1
    && (forall t :: Knows(q, t) ==> 1 <= t.id < q.nextID && t.parent < t.id)
    && Increasing(Ids(q.high)) && Increasing(Ids(q.low))
    && (forall id :: id in Ids(q.high) ==> id !in Ids(q.low))
    && (q.current.Some? ==> q.current.value.id !in Ids(q.high) && q.current.value.id !in Ids(q.low))
  }

  lemma IdsSnoc(ts: seq<Task>, t: Task)
    requires Increasing(Ids(ts)) && forall s :: s in ts ==> s.id < t.id
    ensures Ids(ts + [t]) == Ids(ts) + [t.id] && Increasing(Ids(ts + [t]))
  {
    forall i | 0 <= i < |ts|
      ensures Ids(ts)[i] < t.id
    {
      assert ts[i] in ts;
    }
  }

  lemma IdsTail(ts: seq<Task>)
    requires ts != [] && Increasing(Ids(ts))
    ensures Ids(ts) == [ts[0].id] + Ids(ts[1..])
    ensures Increasing(Ids(ts[1..])) && ts[0].id !in Ids(ts[1..])
  {
    var r := Ids(ts[1..]);
    assert forall i :: 0 <= i < |r| ==> r[i] == Ids(ts)[i + 1];
  }

  /** An ID in the list is that of a task in it. */
  lemma IdOf(ts: seq<Task>, t: Task)
    requires t in ts
    ensures t.id in Ids(ts)
  {
    var i :| 0 <= i < |ts| && ts[i] == t;
    assert Ids(ts)[i] == t.id;
  }

  lemma SameIdInQueue(ts: seq<Task>, s: Task, t: Task)
    requires Increasing(Ids(ts)) && s in ts && t in ts && s.id == t.id
    ensures s == t
  {
    var i :| 0 <= i < |ts| && ts[i] == s;
    var j :| 0 <= j < |ts| && ts[j] == t;
    assert Ids(ts)[i] == Ids(ts)[j];
  }

  lemma CancelledIn(ts: seq<Task>, target: Target, t: Task)
    ensures t in CancelAll(ts, target) <==> exists s :: s in ts && t == Cancel(s, target)
  {
    var r := CancelAll(ts, target);
    if t in r {
      var i :| 0 <= i < |r| && r[i] == t;
      assert ts[i] in ts;
    }
    if s :| s in ts && t == Cancel(s, target) {
      var i :| 0 <= i < |ts| && ts[i] == s;
      assert r[i] == t;
    }
  }

  /** Invalidating leaves every task where it is, with its ID, parent and job. */
  lemma CancelKnows(q: Queues, target: Target, t: Task)
    ensures Knows(CancelQueued(q, target), t) <==> exists s :: Knows(q, s) && t == Cancel(s, target)
  {
    CancelledIn(q.high, target, t);
    CancelledIn(q.low, target, t);
    if s :| Knows(q, s) && t == Cancel(s, target) {
      assert s in q.high ==> t in CancelAll(q.high, target);
      assert s in q.low ==> t in CancelAll(q.low, target);
    }
  }

  lemma CancelKeepsIds(q: Queues, target: Target)
    requires IdsOk(q)
    ensures IdsOk(CancelQueued(q, target))
  {
    var r := CancelQueued(q, target);
    forall t | Knows(r, t)
      ensures 1 <= t.id < r.nextID && t.parent < t.id
    {
      CancelKnows(q, target, t);
    }
    assert Ids(r.high) == Ids(q.high) && Ids(r.low) == Ids(q.low);
  }

  lemma EnqueueKeepsIds(q: Queues, job: Job, parent: nat, lowPriority: bool)
    requires IdsOk(q) && parent < q.nextID
    ensures IdsOk(Enqueue(q, job, parent, lowPriority))
  {
    hide Increasing;
    var t := Task(q.nextID, parent, job, true);
    assert forall s :: Knows(q, s) ==> s.id < t.id;
    if lowPriority {
      IdsSnoc(q.low, t);
    } else {
      IdsSnoc(q.high, t);
    }
    NewId(q.high, q.nextID);
    NewId(q.low, q.nextID);
  }

  lemma NewId(ts: seq<Task>, id: nat)
    requires forall s :: s in ts ==> s.id < id
    ensures id !in Ids(ts)
  {
    forall i | 0 <= i < |ts|
      ensures Ids(ts)[i] != id
    {
      assert ts[i] in ts;
    }
  }

  lemma FetchKeepsIds(q: Queues)
    requires IdsOk(q)
    ensures IdsOk(Fetch(q))
  {
    hide Increasing;
    var r := Fetch(q);
    assert forall t :: Knows(r, t) ==> Knows(q, t);
    if q.high != [] {
      IdsTail(q.high);
    } else if q.low != [] {
      IdsTail(q.low);
      assert q.low[0].id in Ids(q.low);
    }
  }

  /** IDs identify tasks. */
  lemma SameIdSameTask(q: Queues, s: Task, t: Task)
    requires IdsOk(q) && Knows(q, s) && Knows(q, t) && s.id == t.id
    ensures s == t
  {
    forall u | u == s || u == t
      ensures u in q.high ==> u.id in Ids(q.high)
      ensures u in q.low ==> u.id in Ids(q.low)
    {
      if u in q.high { IdOf(q.high, u); }
      if u in q.low { IdOf(q.low, u); }
    }
    if s in q.high && t in q.high {
      SameIdInQueue(q.high, s, t);
    } else if s in q.low && t in q.low {
      SameIdInQueue(q.low, s, t);
    }
  }

  /** For an ID that was given to a task, exactly that task and its direct children lose their
      validity; parent 0 stands for "no parent", so that ID 0 would target every top-level task. */
  lemma InvalidateTaskHits(q: Queues, id: nat, t: Task)
    requires IdsOk(q) && Knows(q, t)
    ensures Knows(TaskInvalidated(q, id), if t.id == id || t.parent == id then t.(valid := false) else t)
    ensures id == 0 ==> ((t.id == id || t.parent == id) <==> t.parent == 0)
    ensures id >= 1 && t.id == id ==> forall s :: Knows(q, s) && s.id == id ==> s == t
  {
    CancelKnows(q, Family(id), Cancel(t, Family(id)));
    forall s | Knows(q, s) && s.id == id && t.id == id
      ensures s == t
    {
      SameIdSameTask(q, s, t);
    }
  }

  /** For a path exactly the tasks lose their validity that add files below it; all other tasks keep theirs. */
  lemma InvalidateAddTasksHits(q: Queues, path: string, t: Task)
    requires Knows(q, t)
    ensures Knows(AddTasksInvalidated(q, path),
                  if t.job.AddFile? && path <= t.job.path then t.(valid := false) else t)
  {
    CancelKnows(q, AddsBelow(path), Cancel(t, AddsBelow(path)));
  }

  // ---- runs of clients and the worker ----

  /** Where the worker is: at the top of its loop, with a fetched task in hand, or running it. */
  datatype Phase = AtTop | Fetched | Running

  /** The queues with a history: the IDs submitted to and taken from each queue, and the IDs run. */
  datatype State = State(q: Queues, phase: Phase, submittedHigh: seq<nat>, submittedLow: seq<nat>,
                         takenHigh: seq<nat>, takenLow: seq<nat>, ran: seq<nat>)

  datatype Action =
    | Submit(job: Job, parent: nat, lowPriority: bool)
    | NextTask
    | CheckValid
    | RunEnds
    | CancelTask(id: nat)
    | CancelAdds(path: string)

  function Init(): State {
    State(Queues([], [], None, 1), AtTop, [], [], [], [], [])
  }

  /** Only a running task creates children. */
  predicate Enabled(s: State, a: Action) {
    match a
    case Submit(_, parent, _) => parent == 0 || (s.q.current.Some? && parent == s.q.current.value.id)
    case NextTask => s.phase == AtTop
    case CheckValid => s.phase == Fetched && s.q.current.Some?
    case RunEnds => s.phase == Running
    case CancelTask(_) => true
    case CancelAdds(_) => true
  }

  function Apply(s: State, a: Action): State {
    match a
    case Submit(job, parent, low) =>
      var t := s.(q := Enqueue(s.q, job, parent, low));
      if low then t.(submittedLow := s.submittedLow + [s.q.nextID])
      else t.(submittedHigh := s.submittedHigh + [s.q.nextID])
    case NextTask =>
      var q := Fetch(s.q);
      if s.q.high != [] then s.(q := q, phase := Fetched, takenHigh := s.takenHigh + [s.q.high[0].id])
      else if s.q.low != [] then s.(q := q, phase := Fetched, takenLow := s.takenLow + [s.q.low[0].id])
      else s.(q := q)
    case CheckValid =>
      if s.q.current.Some? && s.q.current.value.valid then
        s.(phase := Running, ran := s.ran + [s.q.current.value.id])
      else s.(phase := AtTop)
    case RunEnds => s.(phase := AtTop)
    case CancelTask(id) => s.(q := TaskInvalidated(s.q, id))
    case CancelAdds(path) => s.(q := AddTasksInvalidated(s.q, path))
  }

  ghost predicate IsRun(states: seq<State>, actions: seq<Action>) {
    && |states| == |actions| + 1 && states[0] == Init()
    && forall i :: 0 <= i < |actions| ==>
         Enabled(states[i], actions[i]) && states[i + 1] == Apply(states[i], actions[i])
  }

  /** Each queue is served in the order of submission: what was taken and what still waits is, in this
      order, what was submitted. */
  ghost predicate Fifo(s: State) {
    && s.submittedHigh == s.takenHigh + Ids(s.q.high)
    && s.submittedLow == s.takenLow + Ids(s.q.low)
  }

  /** IDs are given out in increasing order, over both queues. */
  ghost predicate Numbered(s: State) {
    && Increasing(s.submittedHigh) && Increasing(s.submittedLow)
    && (forall i :: i in s.submittedHigh || i in s.submittedLow ==> 1 <= i < s.q.nextID)
    && (forall i :: i in s.submittedHigh ==> i !in s.submittedLow)
  }

  ghost predicate NoDuplicates(ids: seq<nat>) {
    forall i, j :: 0 <= i < j < |ids| ==> ids[i] != ids[j]
  }

  /** The IDs that the worker has dealt with or holds. */
  ghost predicate Taken(s: State, id: nat) {
    id in s.takenHigh || id in s.takenLow
  }

  /** A task in the worker's hands that it has not looked at yet. */
  ghost predicate InHand(s: State, id: nat) {
    s.phase == Fetched && s.q.current.Some? && s.q.current.value.id == id
  }

  /** No task runs twice, and none before the worker has looked at it. */
  ghost predicate RunsOk(s: State) {
    && NoDuplicates(s.ran)
    && (forall id :: id in s.ran ==> Taken(s, id) && !InHand(s, id))
    && (s.phase == Fetched ==> s.q.current.Some? && Taken(s, s.q.current.value.id))
  }

  ghost predicate Inv(s: State) {
    IdsOk(s.q) && Fifo(s) && Numbered(s) && RunsOk(s)
  }

  lemma InvInit()
    ensures Inv(Init())
  {
  }

  // ---- each action keeps the invariant ----

  lemma InHalf(a: seq<nat>, b: seq<nat>, x: nat)
    requires Increasing(a + b) && x in b
    ensures x !in a && x in a + b
  {
    var i :| 0 <= i < |b| && b[i] == x;
    assert (a + b)[|a| + i] == x;
    forall k | 0 <= k < |a|
      ensures a[k] < x
    {
      assert (a + b)[k] == a[k];
    }
  }

  /** A waiting task has not been taken. */
  lemma QueuedNotTaken(s: State, t: Task)
    requires Fifo(s) && Numbered(s) && (t in s.q.high || t in s.q.low)
    ensures !Taken(s, t.id)
  {
    hide Increasing;
    if t in s.q.high {
      IdOf(s.q.high, t);
      InHalf(s.takenHigh, Ids(s.q.high), t.id);
      assert t.id in s.takenLow ==> t.id in s.submittedLow;
    } else {
      IdOf(s.q.low, t);
      InHalf(s.takenLow, Ids(s.q.low), t.id);
      assert t.id in s.takenHigh ==> t.id in s.submittedHigh;
    }
  }

  lemma IncreasingSnoc(ids: seq<nat>, x: nat)
    requires Increasing(ids) && forall i :: i in ids ==> i < x
    ensures Increasing(ids + [x]) && forall i :: i in ids + [x] <==> i in ids || i == x
  {
    assert forall k :: 0 <= k < |ids| ==> ids[k] in ids;
  }

  lemma SubmitKeepsNumbered(s: State, job: Job, parent: nat, low: bool)
    requires Inv(s) && parent < s.q.nextID
    ensures Fifo(Apply(s, Submit(job, parent, low))) && Numbered(Apply(s, Submit(job, parent, low)))
  {
    hide Increasing;
    var t := Task(s.q.nextID, parent, job, true);
    assert forall u :: Knows(s.q, u) ==> u.id < t.id;
    if low {
      IdsSnoc(s.q.low, t);
      IncreasingSnoc(s.submittedLow, s.q.nextID);
      assert s.takenLow + (Ids(s.q.low) + [t.id]) == s.takenLow + Ids(s.q.low) + [t.id];
    } else {
      IdsSnoc(s.q.high, t);
      IncreasingSnoc(s.submittedHigh, s.q.nextID);
      assert s.takenHigh + (Ids(s.q.high) + [t.id]) == s.takenHigh + Ids(s.q.high) + [t.id];
    }
  }

  lemma SubmitKeepsInv(s: State, job: Job, parent: nat, low: bool)
    requires Inv(s) && Enabled(s, Submit(job, parent, low))
    ensures Inv(Apply(s, Submit(job, parent, low)))
  {
    hide IdsOk, Fifo, Numbered;
    var r := Apply(s, Submit(job, parent, low));
    ParentIsKnown(s, job, parent, low);
    EnqueueKeepsIds(s.q, job, parent, low);
    SubmitKeepsNumbered(s, job, parent, low);
  }

  lemma ParentIsKnown(s: State, job: Job, parent: nat, low: bool)
    requires Inv(s) && Enabled(s, Submit(job, parent, low))
    ensures parent < s.q.nextID
  {
    assert s.q.current.Some? ==> Knows(s.q, s.q.current.value);
  }

  lemma NextKeepsFifo(s: State)
    requires Inv(s)
    ensures Fifo(Apply(s, NextTask)) && Numbered(Apply(s, NextTask))
  {
    hide Increasing, Ids;
    if s.q.high != [] {
      IdsTail(s.q.high);
      AppendAssociates(s.takenHigh, [s.q.high[0].id], Ids(s.q.high[1..]));
    } else if s.q.low != [] {
      IdsTail(s.q.low);
      AppendAssociates(s.takenLow, [s.q.low[0].id], Ids(s.q.low[1..]));
    }
  }

  lemma NextKeepsInv(s: State)
    requires Inv(s) && Enabled(s, NextTask)
    ensures Inv(Apply(s, NextTask))
  {
    hide Fifo, Numbered, IdsOk;
    var r := Apply(s, NextTask);
    FetchKeepsIds(s.q);
    NextKeepsFifo(s);
    if s.q.high != [] {
      QueuedNotTaken(s, s.q.high[0]);
    } else if s.q.low != [] {
      QueuedNotTaken(s, s.q.low[0]);
    }
    assert forall t :: Knows(r.q, t) ==> Knows(s.q, t);
  }

  lemma WorkerKeepsInv(s: State, a: Action)
    requires Inv(s) && Enabled(s, a) && (a.CheckValid? || a.RunEnds?)
    ensures Inv(Apply(s, a))
  {
    hide Fifo, Numbered, IdsOk;
    var r := Apply(s, a);
    assert Fifo(r) by { SameFifo(s, r); }
    assert Numbered(r) by { SameFifo(s, r); }
    assert s.q.current.Some? ==> Knows(s.q, s.q.current.value);
  }

  lemma SameFifo(s: State, r: State)
    requires Fifo(s) && Numbered(s) && r.q == s.q
    requires r.submittedHigh == s.submittedHigh && r.submittedLow == s.submittedLow
    requires r.takenHigh == s.takenHigh && r.takenLow == s.takenLow
    ensures Fifo(r) && Numbered(r)
  {
  }

  lemma CancelKeepsInv(s: State, target: Target)
    requires Inv(s)
    ensures Inv(s.(q := CancelQueued(s.q, target)))
  {
    hide Increasing, NoDuplicates;
    var q := CancelQueued(s.q, target);
    CancelKeepsIds(s.q, target);
    assert Ids(q.high) == Ids(s.q.high) && Ids(q.low) == Ids(s.q.low);
  }

  lemma InvNext(s: State, a: Action)
    requires Inv(s) && Enabled(s, a)
    ensures Inv(Apply(s, a))
  {
    hide Inv;
    match a {
      case Submit(job, parent, low) => SubmitKeepsInv(s, job, parent, low);
      case NextTask => NextKeepsInv(s);
      case CheckValid => WorkerKeepsInv(s, a);
      case RunEnds => WorkerKeepsInv(s, a);
      case CancelTask(id) => CancelKeepsInv(s, Family(id));
      case CancelAdds(path) => CancelKeepsInv(s, AddsBelow(path));
    }
  }

  /** In every run: IDs are unique and increasing with parents older than children, both queues are
      served in the order of submission, and no task runs twice. */
  lemma {:induction false} RunKeepsInv(states: seq<State>, actions: seq<Action>, i: nat)
    requires IsRun(states, actions) && i < |states|
    ensures Inv(states[i])
  {
    hide Inv, Enabled, Apply;
    if i == 0 {
      InvInit();
    } else {
      RunKeepsInv(states, actions, i - 1);
      InvNext(states[i - 1], actions[i - 1]);
    }
  }

  /** A low-priority task is taken only when no high-priority task waits: whatever was submitted with
      high priority before has been taken before. */
  lemma LowOnlyWhenHighEmpty(s: State)
    requires Inv(s) && Enabled(s, NextTask) && Apply(s, NextTask).takenLow != s.takenLow
    ensures Apply(s, NextTask).takenHigh == s.submittedHigh
    ensures forall id :: id in s.submittedHigh ==> Taken(s, id)
  {
    if s.q.high == [] {
      assert s.takenHigh + Ids(s.q.high) == s.takenHigh;
    }
  }

  // ---- what is submitted and fetched ----

  function Submits(actions: seq<Action>, i: nat): nat
    requires i <= |actions|
  {
    if i == 0 then 0 else Submits(actions, i - 1) + if actions[i - 1].Submit? then 1 else 0
  }

  /** The numbers of the submissions with the given priority. */
  function SubmitsOf(actions: seq<Action>, i: nat, low: bool): seq<nat>
    requires i <= |actions|
  {
    if i == 0 then []
    else if actions[i - 1].Submit? && actions[i - 1].lowPriority == low then
      SubmitsOf(actions, i - 1, low) + [Submits(actions, i)]
    else SubmitsOf(actions, i - 1, low)
  }

  /** The n-th submission gets the ID n, and goes to the end of the queue it was submitted to. */
  lemma {:induction false} SubmittedInOrder(states: seq<State>, actions: seq<Action>, i: nat)
    requires IsRun(states, actions) && i < |states|
    ensures states[i].q.nextID == Submits(actions, i) + 1
    ensures states[i].submittedHigh == SubmitsOf(actions, i, false)
    ensures states[i].submittedLow == SubmitsOf(actions, i, true)
  {
    hide Enabled, Apply;
    if i > 0 {
      SubmittedInOrder(states, actions, i - 1);
      StepSubmits(states[i - 1], actions[i - 1]);
    }
  }

  lemma StepSubmits(s: State, a: Action)
    requires Enabled(s, a)
    ensures var r := Apply(s, a);
      if a.Submit? then
        && r.q.nextID == s.q.nextID + 1
        && r.submittedHigh == s.submittedHigh + (if a.lowPriority then [] else [s.q.nextID])
        && r.submittedLow == s.submittedLow + (if a.lowPriority then [s.q.nextID] else [])
      else
        r.q.nextID == s.q.nextID && r.submittedHigh == s.submittedHigh && r.submittedLow == s.submittedLow
  {
  }

  lemma {:induction false} SubmitsCovers(actions: seq<Action>, i: nat, id: nat)
    requires i <= |actions|
    ensures id in SubmitsOf(actions, i, false) || id in SubmitsOf(actions, i, true) <==>
              1 <= id <= Submits(actions, i)
  {
    if i > 0 {
      SubmitsCovers(actions, i - 1, id);
    }
  }

  /** A task is one that was submitted: with that number, job and parent, and it is in the queue of that
      priority if it has not been fetched. */
  ghost predicate WasSubmitted(t: Task, actions: seq<Action>, i: nat)
    requires i <= |actions|
  {
    exists k :: 0 <= k < i && Submitted(actions, k, t)
  }

  ghost predicate Submitted(actions: seq<Action>, k: nat, t: Task)
    requires k < |actions|
  {
    && actions[k].Submit? && t.id == Submits(actions, k + 1)
    && t.job == actions[k].job && t.parent == actions[k].parent
  }

  lemma {:induction false} KnownWasSubmitted(states: seq<State>, actions: seq<Action>, i: nat, t: Task)
    requires IsRun(states, actions) && i < |states| && Knows(states[i].q, t)
    ensures WasSubmitted(t, actions, i)
  {
    hide Enabled, Apply, Submitted;
    if i == 0 {
      NobodyKnown(t);
    } else {
      var a := actions[i - 1];
      SubmittedInOrder(states, actions, i - 1);
      var o := KnownBefore(states[i - 1], a, t);
      if Knows(states[i - 1].q, o) {
        KnownWasSubmitted(states, actions, i - 1, o);
        var k :| 0 <= k < i - 1 && Submitted(actions, k, o);
        SameSubmission(actions, k, o, t);
      } else {
        NewSubmission(actions, i - 1, t);
      }
    }
  }

  lemma NobodyKnown(t: Task)
    ensures !Knows(Init().q, t)
  {
  }

  lemma SameSubmission(actions: seq<Action>, k: nat, o: Task, t: Task)
    requires k < |actions| && Submitted(actions, k, o) && t == o.(valid := t.valid)
    ensures Submitted(actions, k, t)
  {
  }

  lemma NewSubmission(actions: seq<Action>, k: nat, t: Task)
    requires k < |actions| && actions[k].Submit?
    requires t == Task(Submits(actions, k) + 1, actions[k].parent, actions[k].job, true)
    ensures Submitted(actions, k, t)
  {
  }

  /** A task that is known after a step was known before, or is the new one. */
  lemma KnownBefore(s: State, a: Action, t: Task) returns (o: Task)
    requires Enabled(s, a) && Knows(Apply(s, a).q, t)
    ensures (Knows(s.q, o) && t == o.(valid := t.valid)) ||
            (a.Submit? && t == o == Task(s.q.nextID, a.parent, a.job, true))
  {
    if a.CancelTask? || a.CancelAdds? {
      var target := if a.CancelTask? then Family(a.id) else AddsBelow(a.path);
      CancelKnows(s.q, target, t);
      o :| Knows(s.q, o) && t == Cancel(o, target);
    } else {
      o := t;
    }
  }

  /** What the worker fetches: the first high-priority task, or the first low-priority one, or nothing. */
  lemma FetchedIsFirst(s: State)
    requires Enabled(s, NextTask)
    ensures var r := Apply(s, NextTask);
      && (r.phase == Fetched <==> s.q.high != [] || s.q.low != [])
      && (r.phase != Fetched ==> r.phase == AtTop)
      && r.q.current == (if s.q.high != [] then Some(s.q.high[0])
                         else if s.q.low != [] then Some(s.q.low[0]) else None)
  {
  }

  /** Clients may submit and cancel at any time, and a running task may submit children. */
  lemma ClientsAreFree(s: State, job: Job, low: bool, id: nat, path: string)
    ensures Enabled(s, Submit(job, 0, low)) && Enabled(s, CancelTask(id)) && Enabled(s, CancelAdds(path))
    ensures s.q.current.Some? ==> Enabled(s, Submit(job, s.q.current.value.id, low))
  {
  }

  // ---- which tasks run ----

  /** A task that no one has decided about: it is queued, or fetched and not looked at. */
  ghost predicate Waits(s: State, t: Task) {
    t in s.q.high || t in s.q.low || (s.phase == Fetched && s.q.current == Some(t))
  }

  /** The waiting tasks that an action invalidates. */
  ghost function Aimed(s: State, a: Action): set<nat> {
    match a
    case CancelTask(id) => WaitingHits(s, Family(id))
    case CancelAdds(path) => WaitingHits(s, AddsBelow(path))
    case _ => {}
  }

  ghost function WaitingHits(s: State, target: Target): set<nat>
    ensures forall id :: id in WaitingHits(s, target) <==> exists t :: Waits(s, t) && Hits(t, target) && t.id == id
  {
    (set t | t in s.q.high && Hits(t, target) :: t.id) + (set t | t in s.q.low && Hits(t, target) :: t.id) +
    if s.phase == Fetched && s.q.current.Some? && Hits(s.q.current.value, target) then {s.q.current.value.id} else {}
  }

  /** The IDs of the tasks that were invalidated before the worker looked at them, told from the actions. */
  ghost function Doomed(states: seq<State>, actions: seq<Action>, i: nat): set<nat>
    requires |states| == |actions| + 1 && i <= |actions|
  {
    if i == 0 then {} else Doomed(states, actions, i - 1) + Aimed(states[i - 1], actions[i - 1])
  }

  /** What the worker has decided about has run unless it was doomed, and what waits is valid unless it is. */
  ghost predicate Exact(s: State, doomed: set<nat>) {
    && (forall id :: id in s.ran <==> Taken(s, id) && !InHand(s, id) && id !in doomed)
    && (forall t :: Waits(s, t) ==> (t.valid <==> t.id !in doomed))
    && (forall id :: id in doomed ==> 1 <= id < s.q.nextID)
  }

  lemma SubmitIsExact(s: State, a: Action, doomed: set<nat>)
    requires Inv(s) && Enabled(s, a) && a.Submit? && Exact(s, doomed)
    ensures Exact(Apply(s, a), doomed)
  {
    hide Fifo, Numbered, IdsOk;
    var r := Apply(s, a);
    assert forall t :: Waits(r, t) ==> Waits(s, t) || t == Task(s.q.nextID, a.parent, a.job, true);
  }

  lemma NextIsExact(s: State, doomed: set<nat>)
    requires Inv(s) && Enabled(s, NextTask) && Exact(s, doomed)
    ensures Exact(Apply(s, NextTask), doomed)
  {
    hide Fifo, Numbered, IdsOk;
    var r := Apply(s, NextTask);
    if s.q.high != [] {
      QueuedNotTaken(s, s.q.high[0]);
    } else if s.q.low != [] {
      QueuedNotTaken(s, s.q.low[0]);
    }
    assert forall t :: Waits(r, t) ==> Waits(s, t);
  }

  lemma WorkerIsExact(s: State, a: Action, doomed: set<nat>)
    requires Inv(s) && Enabled(s, a) && (a.CheckValid? || a.RunEnds?) && Exact(s, doomed)
    ensures Exact(Apply(s, a), doomed)
  {
    hide Fifo, Numbered, IdsOk;
    var r := Apply(s, a);
    assert forall t :: Waits(r, t) ==> Waits(s, t);
    assert a.CheckValid? ==> Waits(s, s.q.current.value);
  }

  lemma CancelIsExact(s: State, target: Target, doomed: set<nat>)
    requires Inv(s) && Exact(s, doomed)
    ensures Exact(s.(q := CancelQueued(s.q, target)), doomed + WaitingHits(s, target))
  {
    hide Fifo, Numbered, IdsOk, Hits, WaitingHits;
    var r := s.(q := CancelQueued(s.q, target));
    forall t | Waits(r, t)
      ensures t.valid <==> t.id !in doomed + WaitingHits(s, target)
    {
      CancelledIn(s.q.high, target, t);
      CancelledIn(s.q.low, target, t);
      var o :| Waits(s, o) && t == Cancel(o, target);
      if t.id in WaitingHits(s, target) {
        var u :| Waits(s, u) && Hits(u, target) && u.id == t.id;
        assert Knows(s.q, u) && Knows(s.q, o);
        SameIdSameTask(s.q, u, o);
      }
    }
    forall id | id in WaitingHits(s, target)
      ensures 1 <= id < s.q.nextID && (!Taken(s, id) || InHand(s, id))
    {
      WaitingIsOpen(s, target, id);
    }
  }

  lemma WaitingIsOpen(s: State, target: Target, id: nat)
    requires Inv(s) && id in WaitingHits(s, target)
    ensures 1 <= id < s.q.nextID && (!Taken(s, id) || InHand(s, id))
  {
    hide Fifo, Numbered, Hits, WaitingHits;
    var u :| Waits(s, u) && Hits(u, target) && u.id == id;
    assert Knows(s.q, u);
    if u in s.q.high || u in s.q.low {
      QueuedNotTaken(s, u);
    }
  }

  /** Every task that the worker is done with has run, unless it was invalidated before the worker looked at
      it; and only those have. */
  lemma {:induction false} RunsExactly(states: seq<State>, actions: seq<Action>, i: nat)
    requires IsRun(states, actions) && i < |states|
    ensures Inv(states[i]) && Exact(states[i], Doomed(states, actions, i))
    ensures forall id :: id in states[i].ran <==>
              Taken(states[i], id) && !InHand(states[i], id) && id !in Doomed(states, actions, i)
  {
    hide Inv, Enabled, Apply, Aimed;
    RunKeepsInv(states, actions, i);
    if i == 0 {
      InitIsExact();
    } else {
      RunsExactly(states, actions, i - 1);
      StepIsExact(states[i - 1], actions[i - 1], Doomed(states, actions, i - 1));
    }
  }

  lemma InitIsExact()
    ensures Exact(Init(), {})
  {
  }

  lemma StepIsExact(s: State, a: Action, doomed: set<nat>)
    requires Inv(s) && Enabled(s, a) && Exact(s, doomed)
    ensures Exact(Apply(s, a), doomed + Aimed(s, a))
  {
    hide Exact, Inv;
    assert doomed + {} == doomed;
    match a {
      case Submit(_, _, _) => SubmitIsExact(s, a, doomed);
      case NextTask => NextIsExact(s, doomed);
      case CheckValid => WorkerIsExact(s, a, doomed);
      case RunEnds => WorkerIsExact(s, a, doomed);
      case CancelTask(id) => CancelIsExact(s, Family(id), doomed);
      case CancelAdds(path) => CancelIsExact(s, AddsBelow(path), doomed);
    }
  }

  // ---- the worker gets through ----

  predicate IsWorkers(a: Action) {
    a.NextTask? || a.CheckValid? || a.RunEnds?
  }

  /** The worker's next step, while there is something to do. */
  function WorkersMove(s: State): Action {
    if s.phase == AtTop then NextTask else if s.phase == Fetched then CheckValid else RunEnds
  }

  ghost function Rest(s: State): nat {
    3 * (|s.q.high| + |s.q.low|) + if s.phase == AtTop then 0 else if s.phase == Fetched then 2 else 1
  }

  lemma WorkersMoveCounts(s: State)
    requires Inv(s) && Rest(s) > 0
    ensures Enabled(s, WorkersMove(s)) && Rest(Apply(s, WorkersMove(s))) < Rest(s)
    ensures Apply(s, WorkersMove(s)).submittedHigh == s.submittedHigh
    ensures Apply(s, WorkersMove(s)).submittedLow == s.submittedLow
  {
    hide Fifo, Numbered, IdsOk;
  }

  /** From any point of any run the worker alone can get through all tasks; then exactly those have run that
      were submitted and not invalidated before it looked at them. */
  lemma {:induction false} WorkerGetsThrough(states: seq<State>, actions: seq<Action>)
    returns (states1: seq<State>, actions1: seq<Action>)
    requires IsRun(states, actions)
    ensures IsRun(states1, actions1) && actions <= actions1
    ensures forall k :: |actions| <= k < |actions1| ==> IsWorkers(actions1[k])
    ensures var s, r := states[|actions|], states1[|actions1|];
      forall id :: id in r.ran <==>
        (id in s.submittedHigh || id in s.submittedLow) && id !in Doomed(states, actions, |actions|)
    ensures forall id: nat :: id in states1[|actions1|].ran <==>
              1 <= id <= Submits(actions, |actions|) && id !in Doomed(states, actions, |actions|)
    decreases Rest(states[|actions|])
  {
    hide Inv, Enabled, Apply, Exact, Rest, WorkersMove, Init;
    var n := |actions|;
    var s := states[n];
    RunsExactly(states, actions, n);
    SubmittedInOrder(states, actions, n);
    forall id: nat
      ensures id in s.submittedHigh || id in s.submittedLow <==> 1 <= id <= Submits(actions, n)
    {
      SubmitsCovers(actions, n, id);
    }
    if Rest(s) == 0 {
      states1, actions1 := states, actions;
      NothingWaits(s);
    } else {
      WorkersMoveCounts(s);
      var a := WorkersMove(s);
      var states0, actions0 := states + [Apply(s, a)], actions + [a];
      assert IsRun(states0, actions0) by {
        forall i | 0 <= i < |actions0|
          ensures Enabled(states0[i], actions0[i]) && states0[i + 1] == Apply(states0[i], actions0[i])
        {
          assert i < n ==> states[i + 1] == Apply(states[i], actions[i]);
        }
      }
      states1, actions1 := WorkerGetsThrough(states0, actions0);
      WorkersDoomNobody(states, actions, a, Apply(s, a));
      WorkersSubmitNothing(actions, a);
    }
  }

  lemma WorkersSubmitNothing(actions: seq<Action>, a: Action)
    requires IsWorkers(a)
    ensures Submits(actions + [a], |actions| + 1) == Submits(actions, |actions|)
  {
    SameSubmits(actions, a, |actions|);
  }

  lemma {:induction false} SameSubmits(actions: seq<Action>, a: Action, i: nat)
    requires i <= |actions|
    ensures Submits(actions + [a], i) == Submits(actions, i)
  {
    if i > 0 {
      SameSubmits(actions, a, i - 1);
    }
  }

  lemma NothingWaits(s: State)
    requires Inv(s) && Rest(s) == 0
    ensures forall id :: !InHand(s, id) && (Taken(s, id) <==> id in s.submittedHigh || id in s.submittedLow)
  {
    assert Ids(s.q.high) == [] == Ids(s.q.low);
    assert s.takenHigh + [] == s.takenHigh && s.takenLow + [] == s.takenLow;
  }

  lemma WorkersDoomNobody(states: seq<State>, actions: seq<Action>, a: Action, r: State)
    requires |states| == |actions| + 1 && a == WorkersMove(states[|actions|])
    ensures IsWorkers(a)
    ensures Doomed(states + [r], actions + [a], |actions| + 1) == Doomed(states, actions, |actions|)
  {
    SameDoomed(states, actions, a, r, |actions|);
  }

  lemma {:induction false} SameDoomed(states: seq<State>, actions: seq<Action>, a: Action, r: State, i: nat)
    requires |states| == |actions| + 1 && i <= |actions|
    ensures Doomed(states + [r], actions + [a], i) == Doomed(states, actions, i)
  {
    hide Aimed;
    if i > 0 {
      SameDoomed(states, actions, a, r, i - 1);
    }
  }

  // ---- the objects ----

  class GenericTask {
    const job: Job
    const parentTaskID: nat
    var taskID: nat
    var valid: bool

    constructor (job: Job, parentTaskID: nat)
      ensures this.job == job && this.parentTaskID == parentTaskID && valid
    {
      this.job, this.parentTaskID := job, parentTaskID;
      taskID, valid := 0, true;
    }

    function GetTask(): Task
      reads this
    {
      Task(taskID, parentTaskID, job, valid)
    }

    method Invalidate()
      modifies this`valid
      ensures !valid
    {
      valid := false;
    }
  }

  ghost function TasksOf(ts: seq<GenericTask>): (r: seq<Task>)
    reads ts
    ensures |r| == |ts| && forall i :: 0 <= i < |r| ==> r[i] == ts[i].GetTask()
  {
    seq(|ts|, i requires 0 <= i < |ts| reads ts => ts[i].GetTask())
  }

  /** What task objects stand for at some moment. */
  type Snapshot = map<GenericTask, Task>

  ghost function TasksIn(ts: seq<GenericTask>): set<GenericTask> {
    set t | t in ts
  }

  ghost function JustOne(task: GenericTask?): set<GenericTask> {
    if task == null then {} else {task}
  }

  ghost predicate Now(tasks: Snapshot)
    reads tasks.Keys
  {
    forall t :: t in tasks ==> t.GetTask() == tasks[t]
  }

  /** The snapshot after the tasks in `done` have been invalidated, where they were to be. */
  ghost function Struck(tasks: Snapshot, done: set<GenericTask>, target: Target): Snapshot {
    map t | t in tasks :: if t in done then Cancel(tasks[t], target) else tasks[t]
  }

  lemma SnapshotNow(tasks: Snapshot)
    requires forall t :: t in tasks ==> tasks[t] == t.GetTask()
    ensures Now(tasks)
  {
  }

  lemma StruckKeys(tasks: Snapshot, done: set<GenericTask>, target: Target)
    ensures Struck(tasks, done, target).Keys == tasks.Keys
  {
  }

  ghost predicate Covers(tasks: Snapshot, high: seq<GenericTask>, low: seq<GenericTask>, current: GenericTask?) {
    && (forall i :: 0 <= i < |high| ==> high[i] in tasks)
    && (forall i :: 0 <= i < |low| ==> low[i] in tasks)
    && (current != null ==> current in tasks)
  }

  ghost function QueuesOf(tasks: Snapshot, high: seq<GenericTask>, low: seq<GenericTask>, current: GenericTask?,
                          nextID: nat): Queues
    requires Covers(tasks, high, low, current)
  {
    Queues(seq(|high|, i requires 0 <= i < |high| => tasks[high[i]]),
           seq(|low|, i requires 0 <= i < |low| => tasks[low[i]]),
           if current == null then None else Some(tasks[current]), nextID)
  }

  lemma AllStruck(tasks: Snapshot, high: seq<GenericTask>, low: seq<GenericTask>, current: GenericTask?,
                  nextID: nat, target: Target)
    requires Covers(tasks, high, low, current)
    ensures QueuesOf(Struck(tasks, tasks.Keys, target), high, low, current, nextID) ==
            CancelQueued(QueuesOf(tasks, high, low, current, nextID), target)
  {
    hide Cancel;
  }

  lemma TasksAre(ts: seq<GenericTask>, tasks: seq<Task>)
    requires |tasks| == |ts| && forall i :: 0 <= i < |ts| ==> ts[i].GetTask() == tasks[i]
    ensures TasksOf(ts) == tasks
  {
  }

  /** The queued tasks; the null pointer is the queue's value for "empty". */
  ghost predicate Tasks(queue: BaseQueue<GenericTask?>)
    reads queue, queue.data
  {
    queue.Valid() && queue.emptyType == null && null !in queue.Contents()
  }

  ghost function Items(queue: BaseQueue<GenericTask?>): seq<GenericTask>
    requires Tasks(queue)
    reads queue, queue.data
  {
    queue.Contents()
  }

  const INITIAL_QUEUE_SIZE := 20

  class ContentManager {
    const taskQueue1: BaseQueue<GenericTask?>
    const taskQueue2: BaseQueue<GenericTask?>
    var currentTask: GenericTask?
    var taskID: nat

    constructor ()
      ensures Valid() && View() == Queues([], [], None, 1)
      ensures fresh(taskQueue1) && fresh(taskQueue1.data) && fresh(taskQueue2) && fresh(taskQueue2.data)
    {
      taskQueue1 := new BaseQueue(INITIAL_QUEUE_SIZE, null);
      taskQueue2 := new BaseQueue(INITIAL_QUEUE_SIZE, null);
      currentTask, taskID := null, 1;
    }

    ghost predicate Valid()
      reads taskQueue1, taskQueue1.data, taskQueue2, taskQueue2.data
    {
      && taskQueue1 != taskQueue2 && taskQueue1.data != taskQueue2.data
      && Tasks(taskQueue1) && Tasks(taskQueue2)
    }

    ghost function View(): Queues
      requires Valid()
      reads this, taskQueue1, taskQueue1.data, taskQueue2, taskQueue2.data
      reads Items(taskQueue1), Items(taskQueue2), currentTask
    {
      Queues(TasksOf(Items(taskQueue1)), TasksOf(Items(taskQueue2)),
             if currentTask == null then None else Some(currentTask.GetTask()), taskID)
    }

    ghost function All(): set<GenericTask>
      requires Valid()
      reads this, taskQueue1, taskQueue1.data, taskQueue2, taskQueue2.data
    {
      TasksIn(Items(taskQueue1)) + TasksIn(Items(taskQueue2)) + JustOne(currentTask)
    }

    method AddTask(task: GenericTask, lowPriority: bool)
      requires Valid() && task.valid && task !in All()
      modifies this`taskID, taskQueue1, taskQueue1.data, taskQueue2, taskQueue2.data, task`taskID
      ensures Valid() && task.taskID == old(taskID)
      ensures View() == Enqueue(old(View()), task.job, task.parentTaskID, lowPriority)
    {
      hide BaseQueue.Valid, BaseQueue.Contents, BaseQueue.Size;
      ghost var items1, items2 := Items(taskQueue1), Items(taskQueue2);
      ghost var high, low := TasksOf(items1), TasksOf(items2);
      task.taskID := taskID;
      taskID := taskID + 1;
      if !lowPriority {
        taskQueue1.Enqueue(task);
        TasksAre(items1 + [task], high + [task.GetTask()]);
        TasksAre(items2, low);
      } else {
        taskQueue2.Enqueue(task);
        TasksAre(items1, high);
        TasksAre(items2 + [task], low + [task.GetTask()]);
      }
    }

    /** The locked top of the worker's loop. */
    method NextTask() returns (task: GenericTask?)
      requires Valid()
      modifies this`currentTask, taskQueue1, taskQueue2
      ensures Valid() && View() == Fetch(old(View()))
      ensures task == currentTask
    {
      hide BaseQueue.Valid, BaseQueue.Contents, BaseQueue.Size;
      ghost var items1, items2 := Items(taskQueue1), Items(taskQueue2);
      ghost var high, low := TasksOf(items1), TasksOf(items2);
      currentTask := null;
      task := taskQueue1.Dequeue();
      if task == null {
        task := taskQueue2.Dequeue();
        TasksAre(Items(taskQueue2), if low == [] then [] else low[1..]);
      } else {
        TasksAre(Items(taskQueue2), low);
      }
      TasksAre(Items(taskQueue1), if high == [] then [] else high[1..]);
      if task != null {
        currentTask := task;
        assert currentTask.GetTask() == if high != [] then high[0] else low[0];
      }
    }

    /** The loops of invalidateTask and removeObject over one queue.  The ghost parameters say what all
        tasks were at the start, and which of them have had their turn. */
    static method InvalidateIn(queue: BaseQueue<GenericTask?>, target: Target,
                               ghost tasks: Snapshot, ghost done: set<GenericTask>)
      requires Tasks(queue) && Now(Struck(tasks, done, target))
      modifies TasksIn(Items(queue))`valid
      ensures forall t :: t in Items(queue) ==> t.GetTask() == Cancel(old(t.GetTask()), target)
      ensures Now(Struck(tasks, done + TasksIn(Items(queue)), target))
    {
      hide Hits;
      ghost var items := Items(queue);
      var i := 0;
      while i < queue.Size()
        invariant 0 <= i <= queue.Size() && Items(queue) == items
        invariant forall j :: 0 <= j < i ==> items[j].GetTask() == Cancel(old(items[j].GetTask()), target)
        invariant forall t :: t in items ==>
                    t.GetTask() == old(t.GetTask()) || t.GetTask() == Cancel(old(t.GetTask()), target)
      {
        var task := queue.Get(i);
        if Hits(task.GetTask(), target) {
          task.Invalidate();
        }
        i := i + 1;
      }
    }

    /** Everything that the target hits in the worker's hands and in both queues. */
    method InvalidateEverywhere(target: Target)
      requires Valid()
      modifies All()`valid
      ensures Valid() && View() == CancelQueued(old(View()), target)
    {
      hide BaseQueue.Valid, BaseQueue.Contents, BaseQueue.Size, Hits, Cancel, GenericTask.GetTask, Now, Struck,
           TasksIn, JustOne, QueuesOf, CancelQueued;
      ghost var high, low := Items(taskQueue1), Items(taskQueue2);
      ghost var tasks: Snapshot := map t | t in All() :: t.GetTask();
      SnapshotNow(tasks);
      ViewOf(tasks);
      InvalidateCurrent(target, tasks);
      InvalidateIn(taskQueue1, target, tasks, JustOne(currentTask));
      InvalidateIn(taskQueue2, target, tasks, JustOne(currentTask) + TasksIn(high));
      assert JustOne(currentTask) + TasksIn(high) + TasksIn(low) == tasks.Keys;
      StruckKeys(tasks, tasks.Keys, target);
      AllStruck(tasks, high, low, currentTask, taskID, target);
      ViewOf(Struck(tasks, tasks.Keys, target));
    }

    method InvalidateCurrent(target: Target, ghost tasks: Snapshot)
      requires Now(tasks)
      modifies JustOne(currentTask)`valid
      ensures Now(Struck(tasks, JustOne(currentTask), target))
    {
      if currentTask != null && Hits(currentTask.GetTask(), target) {
        currentTask.Invalidate();
      }
    }

    lemma ViewOf(tasks: Snapshot)
      requires Valid() && tasks.Keys == All() && Now(tasks)
      ensures Covers(tasks, Items(taskQueue1), Items(taskQueue2), currentTask)
      ensures View() == QueuesOf(tasks, Items(taskQueue1), Items(taskQueue2), currentTask, taskID)
    {
      hide BaseQueue.Valid, BaseQueue.Contents, GenericTask.GetTask;
    }

    method InvalidateTask(id: nat)
      requires Valid()
      modifies All()`valid
      ensures Valid() && View() == TaskInvalidated(old(View()), id)
    {
      InvalidateEverywhere(Family(id));
    }

    /** The locked section of removeObject. */
    method InvalidateAddTasks(path: string)
      requires Valid()
      modifies All()`valid
      ensures Valid() && View() == AddTasksInvalidated(old(View()), path)
    {
      InvalidateEverywhere(AddsBelow(path));
    }
  }
}
